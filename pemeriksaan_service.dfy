/**
 * The checkup (pemeriksaan) service: the filtered, newest-first and paged
 * list, the detail view with the elder and the author, and create, update
 * and delete with the checks the service makes before it writes. Parsing a
 * filter date (`new Date(text)`), the fresh id and the value the database
 * gives `tanggal` on insert are parameters.
 */
module PemeriksaanService {
  import opened Wrappers
  import opened JsString
  import opened Errors
  import opened Records
  import opened Tables
  import opened Queries
  import opened Paging
  import opened Response
  import opened Store

  // ---------------------------------------------------------------------------
  // List

  /** `PemeriksaanFilterDTO`: every field may be absent; the dates as the client sent them. */
  datatype PemeriksaanFilter = PemeriksaanFilter(
    page: Option<int>, limit: Option<int>, lansiaId: Option<string>,
    startDate: Option<string>, endDate: Option<string>)

  /** A checkup with its author, every column of the author but the password hash. */
  datatype CheckupWithAuthor = CheckupWithAuthor(pemeriksaan: Pemeriksaan, user: UserResponse)

  datatype PemeriksaanList = PemeriksaanList(data: seq<CheckupWithAuthor>, pagination: Pagination)

  /** The defaults of `getAllPemeriksaan`: page 1, 10 per page. */
  function PageOf(f: PemeriksaanFilter): int { f.page.GetOr(1) }
  function LimitOf(f: PemeriksaanFilter): int { f.limit.GetOr(10) }

  /**
   * The `where` clause `getAllPemeriksaan` builds: each of the elder and the
   * two bounds only when the client sent a non-empty text for it.
   */
  function FilterWhere(f: PemeriksaanFilter, dateMs: string -> int): (w: CheckupWhere)
    ensures w.lansiaId.Some? <==> Truthy(f.lansiaId)
    ensures w.gte.Some? <==> Truthy(f.startDate)
    ensures w.lte.Some? <==> Truthy(f.endDate)
  {
    CheckupWhere(
      if Truthy(f.lansiaId) then f.lansiaId else None,
      if Truthy(f.startDate) then Some(dateMs(f.startDate.value)) else None,
      if Truthy(f.endDate) then Some(dateMs(f.endDate.value)) else None)
  }

  /**
   * A checkup is listed exactly when it belongs to the requested elder and
   * lies within both requested bounds, each bound inclusive and each
   * condition dropped when its text is absent or empty.
   */
  lemma FilterMeaning(f: PemeriksaanFilter, dateMs: string -> int, c: Pemeriksaan)
    ensures MatchesCheckup(FilterWhere(f, dateMs), c) <==>
      (Truthy(f.lansiaId) ==> c.lansiaId == f.lansiaId.value)
      && (Truthy(f.startDate) ==> dateMs(f.startDate.value) <= c.tanggal)
      && (Truthy(f.endDate) ==> c.tanggal <= dateMs(f.endDate.value))
  {
  }

  /** Each checkup with the response form of its author (`include: { user: { select } }`). */
  function WithAuthor(rows: seq<Pemeriksaan>, users: seq<User>): (r: seq<CheckupWithAuthor>)
    requires forall c | c in rows :: c.createdBy in Keys(users, UserId)
    ensures |r| == |rows|
    ensures forall i | 0 <= i < |rows| ::
      r[i].pemeriksaan == rows[i] && r[i].user.id == rows[i].createdBy
      && exists u | u in users :: ToResponse(u) == r[i].user
  {
    seq(|rows|, i requires 0 <= i < |rows| =>
      CheckupWithAuthor(rows[i], ToResponse(Find(users, UserId, rows[i].createdBy).value)))
  }

  /** The requested page of the matching checkups, newest first (`skip`, `take`, `orderBy: { tanggal: 'desc' }`). */
  function CheckupPage(rows: seq<Pemeriksaan>, f: PemeriksaanFilter, dateMs: string -> int): (r: seq<Pemeriksaan>)
    requires PageOf(f) >= 1 && LimitOf(f) >= 1
    ensures |r| <= LimitOf(f)
    ensures forall c | c in r :: c in rows && MatchesCheckup(FilterWhere(f, dateMs), c)
    ensures forall i, j | 0 <= i < j < |r| :: r[i].tanggal >= r[j].tanggal
  {
    var w := FilterWhere(f, dateMs);
    var r := Window(NewestFirst(rows, w), Skip(PageOf(f), LimitOf(f)), LimitOf(f));
    forall c | c in r ensures c in rows && MatchesCheckup(w, c) {
      NewestFirstExact(rows, w, c);
    }
    r
  }

  /** The number of matching checkups (`prisma.pemeriksaan.count({ where })`). */
  function CheckupCount(rows: seq<Pemeriksaan>, f: PemeriksaanFilter, dateMs: string -> int): (n: nat)
    ensures n == |NewestFirst(rows, FilterWhere(f, dateMs))|
  {
    var w := FilterWhere(f, dateMs);
    assert |multiset(NewestFirst(rows, w))| == |multiset(SelectCheckups(rows, w))|;
    |SelectCheckups(rows, w)|
  }

  /**
   * `getAllPemeriksaan`: one page of the matching checkups, newest first,
   * each with its author, and the number of matches and of pages. The page
   * and limit come from the controller, which never passes a value below 1
   * once the query schema has accepted the request.
   */
  method GetAllPemeriksaan(db: Db, filters: PemeriksaanFilter, dateMs: string -> int) returns (result: PemeriksaanList)
    requires db.Valid()
    requires PageOf(filters) >= 1 && LimitOf(filters) >= 1
    ensures result.data == WithAuthor(CheckupPage(db.checkups, filters, dateMs), db.users)
    ensures result.pagination == PaginationOf(PageOf(filters), LimitOf(filters), CheckupCount(db.checkups, filters, dateMs))
  {
    var page := filters.page.GetOr(1);
    var limit := filters.limit.GetOr(10);
    var skip := (page - 1) * limit;
    var whereClause := CheckupWhere(None, None, None);
    if Truthy(filters.lansiaId) {
      whereClause := whereClause.(lansiaId := filters.lansiaId);
    }
    if Truthy(filters.startDate) || Truthy(filters.endDate) {
      if Truthy(filters.startDate) {
        whereClause := whereClause.(gte := Some(dateMs(filters.startDate.value)));
      }
      if Truthy(filters.endDate) {
        whereClause := whereClause.(lte := Some(dateMs(filters.endDate.value)));
      }
    }
    assert whereClause == FilterWhere(filters, dateMs);
    var total := |SelectCheckups(db.checkups, whereClause)|;
    assert skip == Skip(PageOf(filters), LimitOf(filters));
    var pemeriksaan := Window(NewestFirst(db.checkups, whereClause), skip, limit);
    assert pemeriksaan == CheckupPage(db.checkups, filters, dateMs);
    forall c | c in pemeriksaan ensures c.createdBy in Keys(db.users, UserId) {
      assert c in db.checkups;
    }
    result := PemeriksaanList(WithAuthor(pemeriksaan, db.users), PaginationOf(page, limit, total));
  }

  /** No matching checkup is lost between pages: each is on a page that exists. */
  lemma CheckupListedOnSomePage(rows: seq<Pemeriksaan>, f: PemeriksaanFilter, dateMs: string -> int, c: Pemeriksaan)
    requires LimitOf(f) >= 1
    requires c in rows && MatchesCheckup(FilterWhere(f, dateMs), c)
    ensures var m := NewestFirst(rows, FilterWhere(f, dateMs));
      exists page | 1 <= page <= CeilDiv(|m|, LimitOf(f)) :: c in Window(m, Skip(page, LimitOf(f)), LimitOf(f))
  {
    NewestFirstExact(rows, FilterWhere(f, dateMs), c);
    ListedOnSomePage(NewestFirst(rows, FilterWhere(f, dateMs)), LimitOf(f), c);
  }

  // ---------------------------------------------------------------------------
  // Detail

  /** `PemeriksaanDetail`: the checkup with its elder and its author. */
  datatype PemeriksaanDetail = PemeriksaanDetail(pemeriksaan: Pemeriksaan, lansia: Lansia, user: UserResponse)

  /** `getPemeriksaanById`: 404 `Pemeriksaan tidak ditemukan`, or the checkup with its elder and author. */
  method GetPemeriksaanById(db: Db, id: string) returns (r: Result<PemeriksaanDetail, Thrown>)
    requires db.Valid()
    ensures id !in Keys(db.checkups, CheckupId) ==> r == Err(App(NotFoundError("Pemeriksaan")))
    ensures id in Keys(db.checkups, CheckupId) ==>
      r.Ok? && r.value.pemeriksaan in db.checkups && r.value.pemeriksaan.id == id
      && r.value.lansia in db.lansia && r.value.lansia.id == r.value.pemeriksaan.lansiaId
      && r.value.user.id == r.value.pemeriksaan.createdBy
      && exists u | u in db.users :: ToResponse(u) == r.value.user
  {
    var pemeriksaan := Find(db.checkups, CheckupId, id);
    if pemeriksaan.None? {
      return Err(App(NotFoundError("Pemeriksaan")));
    }
    var c := pemeriksaan.value;
    var lansia := Find(db.lansia, LansiaId, c.lansiaId);
    var user := Find(db.users, UserId, c.createdBy);
    r := Ok(PemeriksaanDetail(c, lansia.value, ToResponse(user.value)));
  }

  /** With unique ids, the detail view of a stored checkup shows that very row. */
  lemma DetailOfRow(rows: seq<Pemeriksaan>, k: int)
    requires Unique(rows, CheckupId) && 0 <= k < |rows|
    ensures Find(rows, CheckupId, rows[k].id) == Some(rows[k])
  {
    IndexOfUnique(rows, CheckupId, k);
  }

  // ---------------------------------------------------------------------------
  // Create

  /** `CreatePemeriksaanDTO`: the measurements as text; the complaint may be absent. */
  datatype NewPemeriksaan = NewPemeriksaan(
    lansiaId: string, tekananDarah: string, beratBadan: string, gulaDarah: string,
    kolesterol: string, keluhan: Option<string>)

  /**
   * The row `prisma.pemeriksaan.create` writes: the sent measurements, an
   * absent complaint as the empty text, the caller as author, and `tanggal`
   * as the database fills it in.
   */
  function CreatedCheckup(data: NewPemeriksaan, userId: string, id: string, tanggal: int, now: int): (c: Pemeriksaan)
    ensures c.id == id && c.lansiaId == data.lansiaId && c.createdBy == userId && c.tanggal == tanggal
    ensures c.keluhan == (if data.keluhan.Some? then data.keluhan.value else "")
    ensures c.tekananDarah == data.tekananDarah && c.beratBadan == data.beratBadan
    ensures c.gulaDarah == data.gulaDarah && c.kolesterol == data.kolesterol
  {
    Pemeriksaan(id, data.lansiaId, tanggal, data.tekananDarah, data.beratBadan, data.gulaDarah,
      data.kolesterol, data.keluhan.GetOr(""), userId, now, now)
  }

  /**
   * `createPemeriksaan`: 404 `Lansia tidak ditemukan` for an unknown elder,
   * and nothing is written; otherwise the checkup is stored with the caller
   * as its author. The author's account is not looked up by the service:
   * the foreign key refuses an unknown one.
   */
  method CreatePemeriksaan(db: Db, data: NewPemeriksaan, userId: string, id: string, tanggal: int, now: int)
    returns (r: Result<Pemeriksaan, Thrown>)
    requires db.Valid()
    modifies db
    ensures db.Valid()
    ensures r.Err? ==> unchanged(db)
    ensures data.lansiaId !in old(Keys(db.lansia, LansiaId)) ==> r == Err(App(NotFoundError("Lansia")))
    ensures data.lansiaId in old(Keys(db.lansia, LansiaId)) && id in old(Keys(db.checkups, CheckupId)) ==>
      r == Err(UniqueViolation("id"))
    ensures (data.lansiaId in old(Keys(db.lansia, LansiaId)) && id !in old(Keys(db.checkups, CheckupId))
      && userId !in old(Keys(db.users, UserId))) ==> r == Err(ForeignKeyViolation("createdBy"))
    ensures (data.lansiaId in old(Keys(db.lansia, LansiaId)) && id !in old(Keys(db.checkups, CheckupId))
      && userId in old(Keys(db.users, UserId))) ==>
      r == Ok(CreatedCheckup(data, userId, id, tanggal, now))
      && db.checkups == old(db.checkups) + [r.value]
      && db.users == old(db.users) && db.lansia == old(db.lansia)
  {
    var lansia := Find(db.lansia, LansiaId, data.lansiaId);
    if lansia.None? {
      return Err(App(NotFoundError("Lansia")));
    }
    r := db.InsertCheckup(CreatedCheckup(data, userId, id, tanggal, now));
  }

  // ---------------------------------------------------------------------------
  // Update

  /**
   * `updatePemeriksaan`: 404 `Pemeriksaan tidak ditemukan` for an unknown
   * id; otherwise only the five measurement and complaint columns the client
   * sent change. The elder, the author and the date stay as they were.
   */
  method UpdatePemeriksaan(db: Db, id: string, changes: CheckupPatch, now: int)
    returns (r: Result<Pemeriksaan, Thrown>)
    requires db.Valid()
    modifies db
    ensures db.Valid()
    ensures id !in old(Keys(db.checkups, CheckupId)) ==>
      r == Err(App(NotFoundError("Pemeriksaan"))) && unchanged(db)
    ensures id in old(Keys(db.checkups, CheckupId)) ==>
      var i := IndexOf(old(db.checkups), CheckupId, id);
      r == Ok(PatchCheckup(old(db.checkups)[i], changes, now))
      && db.checkups == old(db.checkups)[i := r.value]
      && db.users == old(db.users) && db.lansia == old(db.lansia)
  {
    var existingPemeriksaan := Find(db.checkups, CheckupId, id);
    if existingPemeriksaan.None? {
      return Err(App(NotFoundError("Pemeriksaan")));
    }
    r := db.UpdateCheckup(id, changes, now);
  }

  /**
   * The update as the table then shows it: the same row, found by its id,
   * with the sent columns replaced and its elder, author and date kept.
   */
  lemma UpdatedCheckupServed(rows: seq<Pemeriksaan>, i: int, changes: CheckupPatch, now: int)
    requires Unique(rows, CheckupId) && 0 <= i < |rows|
    ensures var row := PatchCheckup(rows[i], changes, now);
      Find(rows[i := row], CheckupId, rows[i].id) == Some(row)
      && row.lansiaId == rows[i].lansiaId && row.createdBy == rows[i].createdBy && row.tanggal == rows[i].tanggal
      && (changes.tekananDarah.Some? ==> row.tekananDarah == changes.tekananDarah.value)
      && (changes.tekananDarah.None? ==> row.tekananDarah == rows[i].tekananDarah)
      && (changes.beratBadan.Some? ==> row.beratBadan == changes.beratBadan.value)
      && (changes.beratBadan.None? ==> row.beratBadan == rows[i].beratBadan)
      && (changes.gulaDarah.Some? ==> row.gulaDarah == changes.gulaDarah.value)
      && (changes.gulaDarah.None? ==> row.gulaDarah == rows[i].gulaDarah)
      && (changes.kolesterol.Some? ==> row.kolesterol == changes.kolesterol.value)
      && (changes.kolesterol.None? ==> row.kolesterol == rows[i].kolesterol)
      && (changes.keluhan.Some? ==> row.keluhan == changes.keluhan.value)
      && (changes.keluhan.None? ==> row.keluhan == rows[i].keluhan)
  {
    var row := PatchCheckup(rows[i], changes, now);
    forall j | 0 <= j < |rows| && j != i ensures CheckupId(rows[j]) != CheckupId(row) {
      assert CheckupId(rows[j]) != CheckupId(rows[i]);
    }
    ReplaceUnique(rows, i, row, CheckupId);
    DetailOfRow(rows[i := row], i);
  }

  // ---------------------------------------------------------------------------
  // Delete

  /** `deletePemeriksaan`: 404 `Pemeriksaan tidak ditemukan` for an unknown id; otherwise that row goes. */
  method DeletePemeriksaan(db: Db, id: string) returns (r: Result<(), Thrown>)
    requires db.Valid()
    modifies db
    ensures db.Valid()
    ensures id !in old(Keys(db.checkups, CheckupId)) ==>
      r == Err(App(NotFoundError("Pemeriksaan"))) && unchanged(db)
    ensures id in old(Keys(db.checkups, CheckupId)) ==>
      r.Ok? && db.checkups == RemoveAt(old(db.checkups), IndexOf(old(db.checkups), CheckupId, id))
      && db.users == old(db.users) && db.lansia == old(db.lansia)
  {
    var existingPemeriksaan := Find(db.checkups, CheckupId, id);
    if existingPemeriksaan.None? {
      return Err(App(NotFoundError("Pemeriksaan")));
    }
    r := db.DeleteCheckup(id);
  }

  /** Deleting by id removes exactly the row with that id and keeps every other row. */
  lemma DeleteRemovesExactly(rows: seq<Pemeriksaan>, id: string)
    requires Unique(rows, CheckupId) && id in Keys(rows, CheckupId)
    ensures var r := RemoveAt(rows, IndexOf(rows, CheckupId, id));
      |r| == |rows| - 1 && forall c :: c in r <==> c in rows && c.id != id
  {
    var i := IndexOf(rows, CheckupId, id);
    var r := RemoveAt(rows, i);
    forall c ensures c in r <==> c in rows && c.id != id {
      if c in r {
        var k :| 0 <= k < |r| && r[k] == c;
        var j := if k < i then k else k + 1;
        assert rows[j] == c && j != i;
        assert CheckupId(rows[j]) != CheckupId(rows[i]);
      }
      if c in rows && c.id != id {
        var j :| 0 <= j < |rows| && rows[j] == c;
        assert j != i;
        assert r[if j < i then j else j - 1] == c;
      }
    }
  }
}
