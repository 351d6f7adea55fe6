/**
 * The elder (lansia) service: the searchable, ordered and paged list, the
 * detail view with the latest checkups, and create, update and delete with
 * the checks the service makes before it writes. The QR generator, the
 * clock, `new Date(text)` and the fresh id Prisma assigns are parameters.
 */
module LansiaService {
  import opened Wrappers
  import opened JsString
  import opened Errors
  import opened Records
  import opened Tables
  import opened Sorting
  import opened Queries
  import opened Paging
  import opened Response
  import opened Store

  const NikTaken := "NIK sudah terdaftar"

  // ---------------------------------------------------------------------------
  // List

  /** `LansiaFilterDTO`: every field may be absent. */
  datatype LansiaFilter = LansiaFilter(
    page: Option<int>, limit: Option<int>, search: Option<string>,
    sortBy: Option<LansiaSortKey>, sortOrder: Option<SortOrder>)

  datatype LansiaList = LansiaList(data: seq<Lansia>, pagination: Pagination)

  /** The defaults of `getAllLansia`: page 1, 10 per page, newest `createdAt` first. */
  function PageOf(f: LansiaFilter): int { f.page.GetOr(1) }
  function LimitOf(f: LansiaFilter): int { f.limit.GetOr(10) }
  function OrderOf(f: LansiaFilter): (Lansia, Lansia) -> bool {
    LansiaOrder(f.sortBy.GetOr(ByCreatedAt), f.sortOrder.GetOr(Desc))
  }

  /** Every elder the search selects, in the requested order: what the pages are cut from. */
  function Matching(rows: seq<Lansia>, f: LansiaFilter): (r: seq<Lansia>)
    ensures SortedBy(r, OrderOf(f))
    ensures |r| == |SelectLansia(rows, f.search)|
    ensures forall l :: l in r <==> l in rows && (Truthy(f.search) ==> MatchesSearch(f.search.value, l))
  {
    var r := SortBy(SelectLansia(rows, f.search), OrderOf(f));
    assert forall l :: l in r <==> l in multiset(r);
    r
  }

  /** The requested page of the matching elders, in the requested order (`skip`, `take`). */
  function LansiaPage(rows: seq<Lansia>, f: LansiaFilter): (r: seq<Lansia>)
    requires PageOf(f) >= 1 && LimitOf(f) >= 1
    ensures |r| <= LimitOf(f) && SortedBy(r, OrderOf(f))
    ensures forall l | l in r :: l in rows && (Truthy(f.search) ==> MatchesSearch(f.search.value, l))
  {
    var m := Matching(rows, f);
    var skip := Skip(PageOf(f), LimitOf(f));
    var r := Window(m, skip, LimitOf(f));
    WindowOf(m, skip, LimitOf(f), OrderOf(f));
    r
  }

  /**
   * `getAllLansia`: one page of the matching elders in the requested order,
   * with the number of matches and of pages. The page and limit come from
   * the controller, which never passes a value below 1 once the query
   * schema has accepted the request.
   */
  method GetAllLansia(db: Db, filters: LansiaFilter) returns (result: LansiaList)
    requires PageOf(filters) >= 1 && LimitOf(filters) >= 1
    ensures result.data == LansiaPage(db.lansia, filters)
    ensures result.pagination == PaginationOf(PageOf(filters), LimitOf(filters), |Matching(db.lansia, filters)|)
  {
    var page := filters.page.GetOr(1);
    var limit := filters.limit.GetOr(10);
    var sortBy := filters.sortBy.GetOr(ByCreatedAt);
    var sortOrder := filters.sortOrder.GetOr(Desc);
    var skip := (page - 1) * limit;
    var whereClause := SelectLansia(db.lansia, filters.search);
    var total := |whereClause|;
    var lansia := Window(SortBy(whereClause, LansiaOrder(sortBy, sortOrder)), skip, limit);
    result := LansiaList(lansia, PaginationOf(page, limit, total));
  }

  /** No elder that matches is lost between pages: each is on a page that exists. */
  lemma MatchListedOnSomePage(rows: seq<Lansia>, f: LansiaFilter, l: Lansia)
    requires LimitOf(f) >= 1
    requires l in rows && (Truthy(f.search) ==> MatchesSearch(f.search.value, l))
    ensures exists page | 1 <= page <= CeilDiv(|Matching(rows, f)|, LimitOf(f)) ::
      l in Window(Matching(rows, f), Skip(page, LimitOf(f)), LimitOf(f))
  {
    ListedOnSomePage(Matching(rows, f), LimitOf(f), l);
  }

  // ---------------------------------------------------------------------------
  // Detail

  /** The author of a checkup as the detail view selects it: no password, no time stamps. */
  datatype UserSummary = UserSummary(id: string, nama: string, email: string, role: Role)

  datatype CheckupWithUser = CheckupWithUser(pemeriksaan: Pemeriksaan, user: UserSummary)

  datatype LansiaWithHistory = LansiaWithHistory(lansia: Lansia, pemeriksaan: seq<CheckupWithUser>)

  function Summary(u: User): UserSummary {
    UserSummary(u.id, u.nama, u.email, u.role)
  }

  const HistoryLength := 10

  /** The elder's checkups newest first, the first ten of them (`take: 10`). */
  function History(checkups: seq<Pemeriksaan>, id: string): (r: seq<Pemeriksaan>)
    ensures |r| == if |SelectCheckups(checkups, CheckupWhere(Some(id), None, None))| < HistoryLength
      then |SelectCheckups(checkups, CheckupWhere(Some(id), None, None))| else HistoryLength
    ensures forall c | c in r :: c in checkups && c.lansiaId == id
    ensures forall i, j | 0 <= i < j < |r| :: r[i].tanggal >= r[j].tanggal
  {
    var rows := NewestFirst(checkups, CheckupWhere(Some(id), None, None));
    var r := Window(rows, 0, HistoryLength);
    forall c | c in r ensures c in checkups && c.lansiaId == id {
      NewestFirstExact(checkups, CheckupWhere(Some(id), None, None), c);
    }
    r
  }

  /** A checkup of the elder left out of the history is no newer than any checkup shown, and the history is full. */
  lemma HistoryIsNewest(checkups: seq<Pemeriksaan>, id: string, c: Pemeriksaan)
    requires c in checkups && c.lansiaId == id && c !in History(checkups, id)
    ensures |History(checkups, id)| == HistoryLength
    ensures forall h | h in History(checkups, id) :: h.tanggal >= c.tanggal
  {
    var w := CheckupWhere(Some(id), None, None);
    var rows := NewestFirst(checkups, w);
    var h := History(checkups, id);
    NewestFirstExact(checkups, w, c);
    var k :| 0 <= k < |rows| && rows[k] == c;
    assert k >= |h|;
    forall x | x in h ensures x.tanggal >= c.tanggal {
      var i :| 0 <= i < |h| && h[i] == x;
      assert rows[i] == x;
    }
  }

  /** Each checkup with its author's summary (`include: { user: { select } }`). */
  function WithAuthors(rows: seq<Pemeriksaan>, users: seq<User>): (r: seq<CheckupWithUser>)
    requires forall c | c in rows :: c.createdBy in Keys(users, UserId)
    ensures |r| == |rows|
    ensures forall i | 0 <= i < |rows| ::
      r[i].pemeriksaan == rows[i] && r[i].user.id == rows[i].createdBy
      && exists u | u in users :: Summary(u) == r[i].user
  {
    seq(|rows|, i requires 0 <= i < |rows| =>
      CheckupWithUser(rows[i], Summary(Find(users, UserId, rows[i].createdBy).value)))
  }

  /** `getLansiaById`: the elder with its latest checkups and their authors, or 404 `Lansia tidak ditemukan`. */
  method GetLansiaById(db: Db, id: string) returns (r: Result<LansiaWithHistory, Thrown>)
    requires db.Valid()
    ensures id !in Keys(db.lansia, LansiaId) ==> r == Err(App(NotFoundError("Lansia")))
    ensures id in Keys(db.lansia, LansiaId) ==>
      r.Ok? && r.value.lansia in db.lansia && r.value.lansia.id == id
      && r.value.pemeriksaan == WithAuthors(History(db.checkups, id), db.users)
  {
    var lansia := Find(db.lansia, LansiaId, id);
    if lansia.None? {
      return Err(App(NotFoundError("Lansia")));
    }
    var pemeriksaan := WithAuthors(History(db.checkups, id), db.users);
    r := Ok(LansiaWithHistory(lansia.value, pemeriksaan));
  }

  // ---------------------------------------------------------------------------
  // Create

  /** `CreateLansiaDTO`; the birth date is the text the client sent. */
  datatype NewLansia = NewLansia(
    nama: string, nik: string, tanggalLahir: string, alamat: string,
    penyakitBawaan: string, kontakKeluarga: string)

  /** The row `prisma.lansia.create` writes: no QR code yet, both time stamps now. */
  function Created(data: NewLansia, id: string, now: int, dateMs: string -> int): (l: Lansia)
    ensures l.id == id && l.nik == data.nik && l.qrCodeUrl.None?
  {
    Lansia(id, data.nama, data.nik, dateMs(data.tanggalLahir), data.alamat, data.penyakitBawaan,
      data.kontakKeluarga, None, now, now)
  }

  /** The update that stores the generated QR code's address. */
  function QrPatch(url: string): LansiaPatch {
    LansiaPatch(None, None, None, None, None, None, Some(url))
  }

  /** The row `createLansia` leaves behind: with the QR address when generation succeeded, without it otherwise. */
  function Stored(data: NewLansia, id: string, now: int, dateMs: string -> int,
                  generateQr: string -> Result<string, Thrown>): (l: Lansia)
    ensures l.id == id && l.nik == data.nik
    ensures l.qrCodeUrl == (if generateQr(id).Ok? then Some(generateQr(id).value) else None)
  {
    var row := Created(data, id, now, dateMs);
    if generateQr(id).Ok? then PatchLansia(row, QrPatch(generateQr(id).value), now) else row
  }

  /**
   * `createLansia`: 409 `NIK sudah terdaftar` when the NIK is taken, and
   * nothing is written; otherwise the elder is stored and then given the
   * address of its QR code. A failure of the QR generator is caught: the
   * elder stays, without an address.
   */
  method CreateLansia(db: Db, data: NewLansia, id: string, now: int, dateMs: string -> int,
                      generateQr: string -> Result<string, Thrown>)
    returns (r: Result<Lansia, Thrown>)
    requires db.Valid()
    modifies db
    ensures db.Valid()
    ensures data.nik in old(Keys(db.lansia, LansiaNik)) ==>
      r == Err(App(ConflictError(NikTaken))) && unchanged(db)
    ensures data.nik !in old(Keys(db.lansia, LansiaNik)) && id in old(Keys(db.lansia, LansiaId)) ==>
      r == Err(UniqueViolation("id")) && unchanged(db)
    ensures data.nik !in old(Keys(db.lansia, LansiaNik)) && id !in old(Keys(db.lansia, LansiaId)) ==>
      r == Ok(Stored(data, id, now, dateMs, generateQr))
      && db.lansia == old(db.lansia) + [r.value]
      && db.users == old(db.users) && db.checkups == old(db.checkups)
  {
    var existingLansia := Find(db.lansia, LansiaNik, data.nik);
    if existingLansia.Some? {
      return Err(App(ConflictError(NikTaken)));
    }
    var created := db.InsertLansia(Created(data, id, now, dateMs));
    if created.Err? {
      return created;
    }
    var lansia := created.value;
    var qrCodeUrl := generateQr(lansia.id);
    if qrCodeUrl.Err? {
      return Ok(lansia);
    }
    ghost var before := db.lansia;
    var last := |before| - 1;
    assert before[last] == lansia;
    IndexOfUnique(before, LansiaId, last);
    forall j | 0 <= j < |before| && j != last ensures before[j].nik != lansia.nik {
      assert LansiaNik(before[j]) != LansiaNik(before[last]);
    }
    r := db.UpdateLansia(lansia.id, QrPatch(qrCodeUrl.value), now);
    assert before[last := r.value] == old(db.lansia) + [r.value];
  }

  /** A new elder's QR address is what `getQRCodeUrl` then answers, when the generator gave a non-empty one. */
  lemma CreatedQrCodeServed(rows: seq<Lansia>, data: NewLansia, id: string, now: int, dateMs: string -> int,
                            generateQr: string -> Result<string, Thrown>)
    requires Unique(rows, LansiaId) && id !in Keys(rows, LansiaId)
    requires generateQr(id).Ok? && generateQr(id).value != []
    ensures QrCodeUrl(rows + [Stored(data, id, now, dateMs, generateQr)], id) == Ok(generateQr(id).value)
  {
    var row := Stored(data, id, now, dateMs, generateQr);
    AppendUnique(rows, row, LansiaId);
    QrCodeUrlOfRow(rows + [row], |rows|);
  }

  // ---------------------------------------------------------------------------
  // Update

  /** `UpdateLansiaDTO`: the fields the client sent; the birth date as text. */
  datatype LansiaChanges = LansiaChanges(
    nama: Option<string>, nik: Option<string>, tanggalLahir: Option<string>, alamat: Option<string>,
    penyakitBawaan: Option<string>, kontakKeluarga: Option<string>)

  /**
   * The columns `updateLansia` writes: the text fields as sent (an absent
   * one is skipped), the birth date only when it is a non-empty text, and
   * never the id or the QR code address.
   */
  function UpdateData(changes: LansiaChanges, dateMs: string -> int): (p: LansiaPatch)
    ensures p.nama == changes.nama && p.nik == changes.nik && p.alamat == changes.alamat
    ensures p.penyakitBawaan == changes.penyakitBawaan && p.kontakKeluarga == changes.kontakKeluarga
    ensures p.tanggalLahir.Some? <==> Truthy(changes.tanggalLahir)
    ensures p.qrCodeUrl.None?
  {
    var base := LansiaPatch(changes.nama, changes.nik, None, changes.alamat, changes.penyakitBawaan,
      changes.kontakKeluarga, None);
    if Truthy(changes.tanggalLahir) then base.(tanggalLahir := Some(dateMs(changes.tanggalLahir.value))) else base
  }

  /**
   * What an update leaves of an elder: the id, creation time and QR code
   * address are kept, a field not sent is kept, a sent text field is
   * written as sent, and the birth date changes only when a non-empty text
   * was sent, to the date that text parses to.
   */
  lemma UpdateKeepsUnsentFields(l: Lansia, changes: LansiaChanges, now: int, dateMs: string -> int)
    ensures var row := PatchLansia(l, UpdateData(changes, dateMs), now);
      row.id == l.id && row.createdAt == l.createdAt && row.qrCodeUrl == l.qrCodeUrl
      && (changes.nama.None? ==> row.nama == l.nama) && (changes.nama.Some? ==> row.nama == changes.nama.value)
      && (changes.nik.None? ==> row.nik == l.nik) && (changes.nik.Some? ==> row.nik == changes.nik.value)
      && (changes.alamat.None? ==> row.alamat == l.alamat) && (changes.alamat.Some? ==> row.alamat == changes.alamat.value)
      && (changes.penyakitBawaan.None? ==> row.penyakitBawaan == l.penyakitBawaan)
      && (changes.penyakitBawaan.Some? ==> row.penyakitBawaan == changes.penyakitBawaan.value)
      && (changes.kontakKeluarga.None? ==> row.kontakKeluarga == l.kontakKeluarga)
      && (changes.kontakKeluarga.Some? ==> row.kontakKeluarga == changes.kontakKeluarga.value)
      && (!Truthy(changes.tanggalLahir) ==> row.tanggalLahir == l.tanggalLahir)
      && (Truthy(changes.tanggalLahir) ==> row.tanggalLahir == dateMs(changes.tanggalLahir.value))
  {
  }

  /** The guard in front of the NIK lookup: a non-empty NIK other than the stored one. */
  predicate NikChanged(changes: LansiaChanges, existing: Lansia) {
    Truthy(changes.nik) && changes.nik.value != existing.nik
  }

  /**
   * `updateLansia`: 404 for an unknown id; 409 `NIK sudah terdaftar` when a
   * changed NIK belongs to another elder; otherwise the update is written.
   * An empty NIK skips the lookup but is still written, and the unique index
   * then refuses it when another elder holds it. Every refusal writes nothing.
   */
  method UpdateLansia(db: Db, id: string, changes: LansiaChanges, now: int, dateMs: string -> int)
    returns (r: Result<Lansia, Thrown>)
    requires db.Valid()
    modifies db
    ensures db.Valid()
    ensures r.Err? ==> unchanged(db)
    ensures id !in old(Keys(db.lansia, LansiaId)) ==> r == Err(App(NotFoundError("Lansia")))
    ensures id in old(Keys(db.lansia, LansiaId)) ==>
      var i := IndexOf(old(db.lansia), LansiaId, id);
      var row := PatchLansia(old(db.lansia)[i], UpdateData(changes, dateMs), now);
      if NikChanged(changes, old(db.lansia)[i]) && changes.nik.value in old(Keys(db.lansia, LansiaNik))
      then r == Err(App(ConflictError(NikTaken)))
      else (
        if exists j | 0 <= j < |old(db.lansia)| && j != i :: old(db.lansia)[j].nik == row.nik
        then r == Err(UniqueViolation("nik"))
        else r == Ok(row) && db.lansia == old(db.lansia)[i := row] && db.users == old(db.users) && db.checkups == old(db.checkups))
  {
    var existingLansia := Find(db.lansia, LansiaId, id);
    if existingLansia.None? {
      return Err(App(NotFoundError("Lansia")));
    }
    if Truthy(changes.nik) && changes.nik.value != existingLansia.value.nik {
      var nikExists := Find(db.lansia, LansiaNik, changes.nik.value);
      if nikExists.Some? {
        return Err(App(ConflictError(NikTaken)));
      }
    }
    var updateData := LansiaPatch(changes.nama, changes.nik, None, changes.alamat, changes.penyakitBawaan,
      changes.kontakKeluarga, None);
    if Truthy(changes.tanggalLahir) {
      updateData := updateData.(tanggalLahir := Some(dateMs(changes.tanggalLahir.value)));
    }
    r := db.UpdateLansia(id, updateData, now);
  }

  /** An update that leaves out the NIK, or repeats the stored one, never meets a NIK conflict. */
  lemma SameNikNoConflict(rows: seq<Lansia>, i: int, changes: LansiaChanges, now: int, dateMs: string -> int)
    requires Unique(rows, LansiaNik) && 0 <= i < |rows|
    requires changes.nik.None? || changes.nik.value == rows[i].nik
    ensures !NikChanged(changes, rows[i])
    ensures forall j | 0 <= j < |rows| && j != i :: rows[j].nik != PatchLansia(rows[i], UpdateData(changes, dateMs), now).nik
  {
    var row := PatchLansia(rows[i], UpdateData(changes, dateMs), now);
    assert row.nik == rows[i].nik;
    forall j | 0 <= j < |rows| && j != i ensures rows[j].nik != row.nik {
      assert LansiaNik(rows[j]) != LansiaNik(rows[i]);
    }
  }

  // ---------------------------------------------------------------------------
  // Delete

  /** `deleteLansia`: 404 for an unknown id; otherwise the elder goes, and every checkup of it with it. */
  method DeleteLansia(db: Db, id: string) returns (r: Result<(), Thrown>)
    requires db.Valid()
    modifies db
    ensures db.Valid()
    ensures id !in old(Keys(db.lansia, LansiaId)) ==> r == Err(App(NotFoundError("Lansia"))) && unchanged(db)
    ensures id in old(Keys(db.lansia, LansiaId)) ==>
      r.Ok? && db.lansia == RemoveAt(old(db.lansia), IndexOf(old(db.lansia), LansiaId, id))
      && db.checkups == Filter(old(db.checkups), (c: Pemeriksaan) => c.lansiaId != id)
      && db.users == old(db.users)
    ensures r.Ok? ==> id !in Keys(db.lansia, LansiaId) && forall c | c in db.checkups :: c.lansiaId != id
  {
    var existingLansia := Find(db.lansia, LansiaId, id);
    if existingLansia.None? {
      return Err(App(NotFoundError("Lansia")));
    }
    ghost var i := IndexOf(db.lansia, LansiaId, id);
    RemoveAtKeysUnique(db.lansia, i, LansiaId);
    r := db.DeleteLansia(id);
  }

  // ---------------------------------------------------------------------------
  // QR code

  /** What `getQRCodeUrl` answers for the table `rows`. */
  function QrCodeUrl(rows: seq<Lansia>, id: string): (r: Result<string, Thrown>)
    ensures id !in Keys(rows, LansiaId) ==> r == Err(App(NotFoundError("Lansia")))
    ensures id in Keys(rows, LansiaId) && r.Err? ==> r == Err(App(NotFoundError("QR Code")))
    ensures r.Ok? ==> r.value != [] && exists l | l in rows :: l.id == id && l.qrCodeUrl == Some(r.value)
  {
    var lansia := Find(rows, LansiaId, id);
    if lansia.None? then Err(App(NotFoundError("Lansia")))
    else if !Truthy(lansia.value.qrCodeUrl) then Err(App(NotFoundError("QR Code")))
    else Ok(lansia.value.qrCodeUrl.value)
  }

  /** With unique ids, each stored elder's answer is its own address, or 404 `QR Code` when it has none. */
  lemma QrCodeUrlOfRow(rows: seq<Lansia>, k: int)
    requires Unique(rows, LansiaId) && 0 <= k < |rows|
    ensures QrCodeUrl(rows, rows[k].id) ==
      if Truthy(rows[k].qrCodeUrl) then Ok(rows[k].qrCodeUrl.value) else Err(App(NotFoundError("QR Code")))
  {
    IndexOfUnique(rows, LansiaId, k);
  }

  /** `getQRCodeUrl`: 404 `Lansia tidak ditemukan`, 404 `QR Code tidak ditemukan` when none is stored, or the address. */
  method GetQRCodeUrl(db: Db, id: string) returns (r: Result<string, Thrown>)
    ensures r == QrCodeUrl(db.lansia, id)
  {
    var lansia := Find(db.lansia, LansiaId, id);
    if lansia.None? {
      return Err(App(NotFoundError("Lansia")));
    }
    if !Truthy(lansia.value.qrCodeUrl) {
      return Err(App(NotFoundError("QR Code")));
    }
    r := Ok(lansia.value.qrCodeUrl.value);
  }
}
