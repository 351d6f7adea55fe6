/**
 * The read queries the services send: `where` filters on checkups and
 * elders, and the `orderBy` orderings they use.
 */
module Queries {
  import opened Wrappers
  import opened JsString
  import opened Records
  import opened Tables
  import opened Sorting

  /** A checkup `where` clause: an optional elder and optional inclusive bounds on `tanggal`. */
  datatype CheckupWhere = CheckupWhere(lansiaId: Option<string>, gte: Option<int>, lte: Option<int>)

  predicate MatchesCheckup(w: CheckupWhere, c: Pemeriksaan) {
    (w.lansiaId.Some? ==> c.lansiaId == w.lansiaId.value)
    && (w.gte.Some? ==> w.gte.value <= c.tanggal)
    && (w.lte.Some? ==> c.tanggal <= w.lte.value)
  }

  function SelectCheckups(rows: seq<Pemeriksaan>, w: CheckupWhere): (r: seq<Pemeriksaan>)
    ensures forall c :: c in r <==> c in rows && MatchesCheckup(w, c)
  {
    Filter(rows, (c: Pemeriksaan) => MatchesCheckup(w, c))
  }

  /** `orderBy: { tanggal: 'desc' }`. */
  function TanggalDesc(a: Pemeriksaan, b: Pemeriksaan): bool {
    a.tanggal >= b.tanggal
  }

  lemma TanggalDescPreorder()
    ensures TotalPreorder(TanggalDesc)
  {
  }

  /** The matching checkups, newest first. */
  function NewestFirst(rows: seq<Pemeriksaan>, w: CheckupWhere): (r: seq<Pemeriksaan>)
    ensures multiset(r) == multiset(SelectCheckups(rows, w))
    ensures forall i, j | 0 <= i < j < |r| :: r[i].tanggal >= r[j].tanggal
  {
    TanggalDescPreorder();
    SortBy(SelectCheckups(rows, w), TanggalDesc)
  }

  /** Exactly the matching checkups are listed, each once per row, newest first. */
  lemma NewestFirstExact(rows: seq<Pemeriksaan>, w: CheckupWhere, c: Pemeriksaan)
    ensures c in NewestFirst(rows, w) <==> c in rows && MatchesCheckup(w, c)
  {
    var r := NewestFirst(rows, w);
    assert c in r <==> c in multiset(r);
    assert c in SelectCheckups(rows, w) <==> c in multiset(SelectCheckups(rows, w));
  }

  /** Code-unit order on strings, shorter prefix first: the ordering of a text column. */
  predicate LexLessEq(a: string, b: string) {
    a == [] || (b != [] && (a[0] < b[0] || (a[0] == b[0] && LexLessEq(a[1..], b[1..]))))
  }

  lemma {:induction false} LexTotal(a: string, b: string)
    ensures LexLessEq(a, b) || LexLessEq(b, a)
  {
    if a != [] && b != [] && a[0] == b[0] {
      LexTotal(a[1..], b[1..]);
    }
  }

  lemma {:induction false} LexTransitive(a: string, b: string, c: string)
    requires LexLessEq(a, b) && LexLessEq(b, c)
    ensures LexLessEq(a, c)
  {
    if a != [] && b != [] && c != [] && a[0] == b[0] && b[0] == c[0] {
      LexTransitive(a[1..], b[1..], c[1..]);
    }
  }

  lemma {:induction false} LexAntisymmetric(a: string, b: string)
    requires LexLessEq(a, b) && LexLessEq(b, a)
    ensures a == b
  {
    if a != [] && b != [] {
      LexAntisymmetric(a[1..], b[1..]);
      assert a == [a[0]] + a[1..] && b == [b[0]] + b[1..];
    }
  }

  /** The orderings `getAllLansia` accepts: `sortBy` in {nama, createdAt}, `sortOrder` in {asc, desc}. */
  datatype LansiaSortKey = ByNama | ByCreatedAt
  datatype SortOrder = Asc | Desc

  function LansiaOrder(key: LansiaSortKey, order: SortOrder): (before: (Lansia, Lansia) -> bool)
    ensures TotalPreorder(before)
  {
    var before := (a: Lansia, b: Lansia) =>
      match (key, order)
      case (ByNama, Asc) => LexLessEq(a.nama, b.nama)
      case (ByNama, Desc) => LexLessEq(b.nama, a.nama)
      case (ByCreatedAt, Asc) => a.createdAt <= b.createdAt
      case (ByCreatedAt, Desc) => a.createdAt >= b.createdAt;
    assert TotalPreorder(before) by {
      forall a: Lansia, b: Lansia ensures before(a, b) || before(b, a) {
        LexTotal(a.nama, b.nama);
      }
      forall a: Lansia, b: Lansia, c: Lansia | before(a, b) && before(b, c) ensures before(a, c) {
        if key == ByNama {
          if order == Asc { LexTransitive(a.nama, b.nama, c.nama); }
          else { LexTransitive(c.nama, b.nama, a.nama); }
        }
      }
    }
    before
  }

  /** `search`: `nama` or `nik` contains the text, ignoring letter case. */
  predicate MatchesSearch(search: string, l: Lansia) {
    ContainsIgnoreCase(l.nama, search) || ContainsIgnoreCase(l.nik, search)
  }

  /** The `where` of `getAllLansia`: a search filter only when `search` is a non-empty string. */
  function SelectLansia(rows: seq<Lansia>, search: Option<string>): (r: seq<Lansia>)
    ensures search.None? || search.value == [] ==> r == rows
    ensures forall l :: l in r <==> l in rows && (search.Some? && search.value != [] ==> MatchesSearch(search.value, l))
  {
    if search.None? || search.value == [] then rows
    else Filter(rows, (l: Lansia) => MatchesSearch(search.value, l))
  }

  /** `orderBy: { createdAt: 'desc' }` on users. */
  function UserCreatedDesc(a: User, b: User): bool {
    a.createdAt >= b.createdAt
  }

  lemma UserCreatedDescPreorder()
    ensures TotalPreorder(UserCreatedDesc)
  {
  }
}
