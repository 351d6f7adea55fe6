/**
 * The rows of the three tables (users, elders, checkups), the request
 * payloads the services accept, and the column accessors the store indexes.
 * Timestamps are milliseconds on the local time axis of module Calendar.
 */
module Records {
  import opened Wrappers

  datatype Role = ADMIN | PETUGAS

  /** A staff account; `password` holds the hash, never the plain text. */
  datatype User = User(
    id: string, nama: string, email: string, password: string, role: Role,
    createdAt: int, updatedAt: int)

  /** A user as the API returns it: every column except the password hash. */
  datatype UserResponse = UserResponse(
    id: string, nama: string, email: string, role: Role, createdAt: int, updatedAt: int)

  function ToResponse(u: User): UserResponse {
    UserResponse(u.id, u.nama, u.email, u.role, u.createdAt, u.updatedAt)
  }

  /** What a session token carries (`JWTPayload`): the user's id, email and role. */
  datatype JwtPayload = JwtPayload(userId: string, email: string, role: Role)

  /** An elder (lansia) record, identified by the national id `nik`. */
  datatype Lansia = Lansia(
    id: string, nama: string, nik: string, tanggalLahir: int, alamat: string,
    penyakitBawaan: string, kontakKeluarga: string, qrCodeUrl: Option<string>,
    createdAt: int, updatedAt: int)

  /** A checkup (pemeriksaan) of one elder, recorded by one user. Measurements are free text. */
  datatype Pemeriksaan = Pemeriksaan(
    id: string, lansiaId: string, tanggal: int, tekananDarah: string, beratBadan: string,
    gulaDarah: string, kolesterol: string, keluhan: string, createdBy: string,
    createdAt: int, updatedAt: int)

  function UserId(u: User): string { u.id }
  function UserEmail(u: User): string { u.email }
  function LansiaId(l: Lansia): string { l.id }
  function LansiaNik(l: Lansia): string { l.nik }
  function CheckupId(p: Pemeriksaan): string { p.id }
  function CheckupAuthor(p: Pemeriksaan): string { p.createdBy }

  /** Column values of an update; `None` is a field left out of the request (Prisma skips `undefined`). */
  datatype LansiaPatch = LansiaPatch(
    nama: Option<string>, nik: Option<string>, tanggalLahir: Option<int>, alamat: Option<string>,
    penyakitBawaan: Option<string>, kontakKeluarga: Option<string>, qrCodeUrl: Option<string>)

  datatype UserPatch = UserPatch(
    nama: Option<string>, email: Option<string>, password: Option<string>, role: Option<Role>)

  datatype CheckupPatch = CheckupPatch(
    tekananDarah: Option<string>, beratBadan: Option<string>, gulaDarah: Option<string>,
    kolesterol: Option<string>, keluhan: Option<string>)

  /** The row an update writes: supplied columns replaced, `updatedAt` stamped, the rest kept. */
  function PatchLansia(l: Lansia, p: LansiaPatch, now: int): (r: Lansia)
    ensures r.id == l.id && r.createdAt == l.createdAt && r.updatedAt == now
    ensures p.nama.None? ==> r.nama == l.nama
    ensures p.nama.Some? ==> r.nama == p.nama.value
    ensures p.nik.None? ==> r.nik == l.nik
    ensures p.nik.Some? ==> r.nik == p.nik.value
    ensures p.tanggalLahir.None? ==> r.tanggalLahir == l.tanggalLahir
    ensures p.tanggalLahir.Some? ==> r.tanggalLahir == p.tanggalLahir.value
    ensures p.alamat.None? ==> r.alamat == l.alamat
    ensures p.alamat.Some? ==> r.alamat == p.alamat.value
    ensures p.penyakitBawaan.None? ==> r.penyakitBawaan == l.penyakitBawaan
    ensures p.penyakitBawaan.Some? ==> r.penyakitBawaan == p.penyakitBawaan.value
    ensures p.kontakKeluarga.None? ==> r.kontakKeluarga == l.kontakKeluarga
    ensures p.kontakKeluarga.Some? ==> r.kontakKeluarga == p.kontakKeluarga.value
    ensures p.qrCodeUrl.None? ==> r.qrCodeUrl == l.qrCodeUrl
    ensures p.qrCodeUrl.Some? ==> r.qrCodeUrl == p.qrCodeUrl
  {
    l.(nama := p.nama.GetOr(l.nama), nik := p.nik.GetOr(l.nik),
       tanggalLahir := p.tanggalLahir.GetOr(l.tanggalLahir), alamat := p.alamat.GetOr(l.alamat),
       penyakitBawaan := p.penyakitBawaan.GetOr(l.penyakitBawaan),
       kontakKeluarga := p.kontakKeluarga.GetOr(l.kontakKeluarga),
       qrCodeUrl := if p.qrCodeUrl.Some? then p.qrCodeUrl else l.qrCodeUrl,
       updatedAt := now)
  }

  function PatchUser(u: User, p: UserPatch, now: int): (r: User)
    ensures r.id == u.id && r.createdAt == u.createdAt && r.updatedAt == now
    ensures p.nama.None? ==> r.nama == u.nama
    ensures p.nama.Some? ==> r.nama == p.nama.value
    ensures p.email.None? ==> r.email == u.email
    ensures p.email.Some? ==> r.email == p.email.value
    ensures p.password.None? ==> r.password == u.password
    ensures p.password.Some? ==> r.password == p.password.value
    ensures p.role.None? ==> r.role == u.role
    ensures p.role.Some? ==> r.role == p.role.value
  {
    u.(nama := p.nama.GetOr(u.nama), email := p.email.GetOr(u.email),
       password := p.password.GetOr(u.password), role := p.role.GetOr(u.role), updatedAt := now)
  }

  function PatchCheckup(c: Pemeriksaan, p: CheckupPatch, now: int): (r: Pemeriksaan)
    ensures r.id == c.id && r.lansiaId == c.lansiaId && r.createdBy == c.createdBy
    ensures r.tanggal == c.tanggal && r.createdAt == c.createdAt && r.updatedAt == now
    ensures p.tekananDarah.None? ==> r.tekananDarah == c.tekananDarah
    ensures p.tekananDarah.Some? ==> r.tekananDarah == p.tekananDarah.value
    ensures p.beratBadan.None? ==> r.beratBadan == c.beratBadan
    ensures p.beratBadan.Some? ==> r.beratBadan == p.beratBadan.value
    ensures p.gulaDarah.None? ==> r.gulaDarah == c.gulaDarah
    ensures p.gulaDarah.Some? ==> r.gulaDarah == p.gulaDarah.value
    ensures p.kolesterol.None? ==> r.kolesterol == c.kolesterol
    ensures p.kolesterol.Some? ==> r.kolesterol == p.kolesterol.value
    ensures p.keluhan.None? ==> r.keluhan == c.keluhan
    ensures p.keluhan.Some? ==> r.keluhan == p.keluhan.value
  {
    c.(tekananDarah := p.tekananDarah.GetOr(c.tekananDarah), beratBadan := p.beratBadan.GetOr(c.beratBadan),
       gulaDarah := p.gulaDarah.GetOr(c.gulaDarah), kolesterol := p.kolesterol.GetOr(c.kolesterol),
       keluhan := p.keluhan.GetOr(c.keluhan), updatedAt := now)
  }
}
