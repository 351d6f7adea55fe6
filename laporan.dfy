/**
 * Dashboard and report aggregation (`laporan.service.ts`): the blood-pressure
 * parser, the per-metric running totals and their rounded averages, the
 * month and day windows, the trailing monthly trend and the date-range
 * report.
 */
module Laporan {
  import opened Wrappers
  import opened JsString
  import opened JsNumber
  import opened Errors
  import opened Records
  import opened Tables
  import opened Queries
  import opened Calendar
  import opened Store

  datatype BloodPressure = BloodPressure(systolic: int, diastolic: int)

  /**
   * `parseTekananDarah`: split on `/`; exactly two parts, each read by
   * `parseInt`; `null` when the split does not give two parts or either part is NaN.
   */
  function ParseTekananDarah(s: string): (r: Option<BloodPressure>)
    ensures Count(s, '/') != 1 ==> r.None?
  {
    var parts := Split(s, '/');
    if |parts| != 2 then None
    else
      match (ParseInt(parts[0]), ParseInt(parts[1]))
      case (Some(sys), Some(dia)) => Some(BloodPressure(sys, dia))
      case _ => None
  }

  /** With its only `/` at `i`, a reading is the `parseInt` of the text on either side. */
  lemma ParseTekananDarahAt(s: string, i: nat)
    requires i < |s| && s[i] == '/' && '/' !in s[..i] && '/' !in s[i + 1..]
    ensures ParseTekananDarah(s) ==
      if ParseInt(s[..i]).Some? && ParseInt(s[i + 1..]).Some?
      then Some(BloodPressure(ParseInt(s[..i]).value, ParseInt(s[i + 1..]).value))
      else None
  {
    CountSingle(s, '/', i);
    SplitAtSingle(s, '/', i);
  }

  /** `digits/digits` parses to the two decimal values. */
  lemma ParseTekananDarahOfDigits(a: string, b: string)
    requires a != [] && b != [] && AllDigits(a) && AllDigits(b)
    ensures ParseTekananDarah(a + "/" + b) == Some(BloodPressure(DecimalValue(a), DecimalValue(b)))
  {
    var s := a + "/" + b;
    var i := |a|;
    assert s[..i] == a && s[i + 1..] == b && s[i] == '/';
    ParseTekananDarahAt(s, i);
    ParseIntDigitsThen(a, "");
    ParseIntDigitsThen(b, "");
    assert a + "" == a && b + "" == b;
  }

  /** `digits/digits` followed by text that holds no `/` and does not continue the number. */
  lemma ParseTekananDarahDigitsThen(a: string, b: string, rest: string)
    requires a != [] && b != [] && AllDigits(a) && AllDigits(b)
    requires EndsNumber(rest) && '/' !in rest
    ensures ParseTekananDarah(a + "/" + b + rest) == Some(BloodPressure(DecimalValue(a), DecimalValue(b)))
  {
    var s := a + "/" + b + rest;
    var i := |a|;
    assert s[..i] == a && s[i + 1..] == b + rest && s[i] == '/';
    assert '/' !in b + rest;
    ParseTekananDarahAt(s, i);
    ParseIntDigitsThen(a, "");
    ParseIntDigitsThen(b, rest);
    assert a + "" == a;
  }

  /** `"120/80mmHg"` reads as 120 over 80: `parseInt` stops at the first non-digit. */
  lemma ParseTekananDarahTrailingText()
    ensures ParseTekananDarah("120/80mmHg") == Some(BloodPressure(120, 80))
  {
    assert "120" + "/" + "80" + "mmHg" == "120/80mmHg";
    ParseTekananDarahDigitsThen("120", "80", "mmHg");
    DecimalValue3('1', '2', '0');
    DecimalValue2('8', '0');
  }

  /**
   * Without exactly two parts there is no reading: a text with no `/` (such
   * as `""` or `"120"`) and one with two or more (such as `"120/80/70"`).
   */
  lemma ParseTekananDarahNeedsTwoParts(a: string, b: string, c: string)
    ensures '/' !in a ==> ParseTekananDarah(a) == None
    ensures ParseTekananDarah(a + "/" + b + "/" + c) == None
  {
    CountAppend(a, "/", '/');
    CountAppend(a + "/", b, '/');
    CountAppend(a + "/" + b, "/", '/');
    CountAppend(a + "/" + b + "/", c, '/');
    assert Count("/", '/') == 1;
  }

  /** A part without any digit is NaN, which makes the whole reading `null`. */
  lemma ParseTekananDarahNaNPart(a: string, b: string)
    requires '/' !in a && '/' !in b
    requires (forall k | 0 <= k < |a| :: !IsDigit(a[k])) || (forall k | 0 <= k < |b| :: !IsDigit(b[k]))
    ensures ParseTekananDarah(a + "/" + b) == None
  {
    var s := a + "/" + b;
    assert s[..|a|] == a && s[|a| + 1..] == b && s[|a|] == '/';
    ParseTekananDarahAt(s, |a|);
    if forall k | 0 <= k < |a| :: !IsDigit(a[k]) {
      ParseIntNoDigit(a);
    } else {
      ParseIntNoDigit(b);
    }
  }

  lemma ParseTekananDarahNeedsNumbers()
    ensures ParseTekananDarah("abc/80") == None
    ensures ParseTekananDarah("120/") == None
  {
    assert "abc" + "/" + "80" == "abc/80";
    ParseTekananDarahNaNPart("abc", "80");
    assert "120" + "/" + "" == "120/";
    ParseTekananDarahNaNPart("120", "");
  }

  lemma DecimalValue2(a: char, b: char)
    requires IsDigit(a) && IsDigit(b)
    ensures DecimalValue([a, b]) == 10 * (a as int - '0' as int) + (b as int - '0' as int)
  {
    var s := [a, b];
    assert s[..1] == [a] && [a][..0] == [];
    assert AllRadixDigits(s, 10) && AllRadixDigits([a], 10);
    assert DigitsValue(s, 10) == DigitsValue([a], 10) * 10 + RadixDigitValue(b, 10);
    assert DigitsValue([a], 10) == DigitsValue([], 10) * 10 + RadixDigitValue(a, 10);
  }

  lemma DecimalValue3(a: char, b: char, c: char)
    requires IsDigit(a) && IsDigit(b) && IsDigit(c)
    ensures DecimalValue([a, b, c]) == 100 * (a as int - '0' as int) + 10 * (b as int - '0' as int) + (c as int - '0' as int)
  {
    var s := [a, b, c];
    assert s[..2] == [a, b];
    DecimalValue2(a, b);
    assert AllRadixDigits(s, 10) && AllRadixDigits([a, b], 10);
    assert DigitsValue(s, 10) == DigitsValue([a, b], 10) * 10 + RadixDigitValue(c, 10);
  }

  // ---------------------------------------------------------------------------
  // Per-metric accumulation

  /**
   * The values `parse` reads from one column of the rows, in row order; rows
   * whose cell does not parse are skipped.
   */
  function Parsed<V>(rows: seq<Pemeriksaan>, field: Pemeriksaan -> string, parse: string -> Option<V>): (r: seq<V>)
    ensures |r| <= |rows|
  {
    if rows == [] then []
    else
      var init := Parsed(rows[..|rows| - 1], field, parse);
      match parse(field(rows[|rows| - 1]))
      case Some(v) => init + [v]
      case None => init
  }

  function TekananDarahOf(p: Pemeriksaan): string { p.tekananDarah }
  function GulaDarahOf(p: Pemeriksaan): string { p.gulaDarah }
  function KolesterolOf(p: Pemeriksaan): string { p.kolesterol }

  function Sum(xs: seq<int>): int {
    if xs == [] then 0 else Sum(xs[..|xs| - 1]) + xs[|xs| - 1]
  }

  function Systolics(bps: seq<BloodPressure>): (r: seq<int>)
    ensures |r| == |bps| && forall i | 0 <= i < |bps| :: r[i] == bps[i].systolic
  {
    seq(|bps|, i requires 0 <= i < |bps| => bps[i].systolic)
  }

  function Diastolics(bps: seq<BloodPressure>): (r: seq<int>)
    ensures |r| == |bps| && forall i | 0 <= i < |bps| :: r[i] == bps[i].diastolic
  {
    seq(|bps|, i requires 0 <= i < |bps| => bps[i].diastolic)
  }

  /** The seven running totals of `getDashboardStats`. */
  datatype Totals = Totals(
    totalSystolic: int, totalDiastolic: int, totalGulaDarah: int, totalKolesterol: int,
    validTekananDarahCount: nat, validGulaDarahCount: nat, validKolesterolCount: nat)

  /** The totals after a prefix of the rows: the state of the `forEach` row by row. */
  function Tally(rows: seq<Pemeriksaan>, parseTekananDarah: string -> Option<BloodPressure>,
                 parseInt: string -> Option<int>): Totals
  {
    if rows == [] then Totals(0, 0, 0, 0, 0, 0, 0)
    else
      var t := Tally(rows[..|rows| - 1], parseTekananDarah, parseInt);
      var p := rows[|rows| - 1];
      var bp := parseTekananDarah(p.tekananDarah);
      var g := parseInt(p.gulaDarah);
      var k := parseInt(p.kolesterol);
      Totals(
        if bp.Some? then t.totalSystolic + bp.value.systolic else t.totalSystolic,
        if bp.Some? then t.totalDiastolic + bp.value.diastolic else t.totalDiastolic,
        if g.Some? then t.totalGulaDarah + g.value else t.totalGulaDarah,
        if k.Some? then t.totalKolesterol + k.value else t.totalKolesterol,
        if bp.Some? then t.validTekananDarahCount + 1 else t.validTekananDarahCount,
        if g.Some? then t.validGulaDarahCount + 1 else t.validGulaDarahCount,
        if k.Some? then t.validKolesterolCount + 1 else t.validKolesterolCount)
  }

  /**
   * Each metric keeps its own count and sum: the count is the number of rows
   * whose cell parses and the sum adds exactly those values.
   */
  lemma {:induction false} TallyCountsParsedValues(rows: seq<Pemeriksaan>,
                                                   parseTekananDarah: string -> Option<BloodPressure>,
                                                   parseInt: string -> Option<int>)
    ensures var t := Tally(rows, parseTekananDarah, parseInt);
      var bps := Parsed(rows, TekananDarahOf, parseTekananDarah);
      var gs := Parsed(rows, GulaDarahOf, parseInt);
      var ks := Parsed(rows, KolesterolOf, parseInt);
      t.validTekananDarahCount == |bps| &&
      t.totalSystolic == Sum(Systolics(bps)) && t.totalDiastolic == Sum(Diastolics(bps)) &&
      t.validGulaDarahCount == |gs| && t.totalGulaDarah == Sum(gs) &&
      t.validKolesterolCount == |ks| && t.totalKolesterol == Sum(ks)
  {
    if rows != [] {
      var n := |rows| - 1;
      TallyCountsParsedValues(rows[..n], parseTekananDarah, parseInt);
      var p := rows[n];
      var bp := parseTekananDarah(p.tekananDarah);
      if bp.Some? {
        ReadingsAppend(Parsed(rows[..n], TekananDarahOf, parseTekananDarah), bp.value);
      }
      var g := parseInt(p.gulaDarah);
      if g.Some? {
        SumAppend(Parsed(rows[..n], GulaDarahOf, parseInt), g.value);
      }
      var k := parseInt(p.kolesterol);
      if k.Some? {
        SumAppend(Parsed(rows[..n], KolesterolOf, parseInt), k.value);
      }
    }
  }

  lemma SumAppend(xs: seq<int>, x: int)
    ensures Sum(xs + [x]) == Sum(xs) + x
  {
    assert (xs + [x])[..|xs|] == xs;
  }

  lemma ReadingsAppend(bps: seq<BloodPressure>, bp: BloodPressure)
    ensures Sum(Systolics(bps + [bp])) == Sum(Systolics(bps)) + bp.systolic
    ensures Sum(Diastolics(bps + [bp])) == Sum(Diastolics(bps)) + bp.diastolic
  {
    assert Systolics(bps + [bp]) == Systolics(bps) + [bp.systolic];
    assert Diastolics(bps + [bp]) == Diastolics(bps) + [bp.diastolic];
    SumAppend(Systolics(bps), bp.systolic);
    SumAppend(Diastolics(bps), bp.diastolic);
  }

  /**
   * The `forEach` over the month's checkups. A row adds to a metric only when
   * that column parses, so each metric has its own count. The two parsers are
   * parameters (the service passes `ParseTekananDarah` and `ParseInt`), which
   * keeps this proof independent of how a cell is read.
   */
  method AccumulateMetrics(rows: seq<Pemeriksaan>,
                           parseTekananDarah: string -> Option<BloodPressure>,
                           parseInt: string -> Option<int>)
    returns (t: Totals)
    ensures var bps := Parsed(rows, TekananDarahOf, parseTekananDarah);
      t.validTekananDarahCount == |bps| &&
      t.totalSystolic == Sum(Systolics(bps)) && t.totalDiastolic == Sum(Diastolics(bps))
    ensures var gs := Parsed(rows, GulaDarahOf, parseInt);
      t.validGulaDarahCount == |gs| && t.totalGulaDarah == Sum(gs)
    ensures var ks := Parsed(rows, KolesterolOf, parseInt);
      t.validKolesterolCount == |ks| && t.totalKolesterol == Sum(ks)
  {
    var totalSystolic, totalDiastolic, totalGulaDarah, totalKolesterol := 0, 0, 0, 0;
    var validTekananDarahCount, validGulaDarahCount, validKolesterolCount := 0, 0, 0;
    var i := 0;
    while i < |rows|
      invariant 0 <= i <= |rows|
      invariant Tally(rows[..i], parseTekananDarah, parseInt) ==
        Totals(totalSystolic, totalDiastolic, totalGulaDarah, totalKolesterol,
               validTekananDarahCount, validGulaDarahCount, validKolesterolCount)
    {
      var p := rows[i];
      assert rows[..i + 1][..i] == rows[..i];
      var tekananDarah := parseTekananDarah(p.tekananDarah);
      if tekananDarah.Some? {
        totalSystolic := totalSystolic + tekananDarah.value.systolic;
        totalDiastolic := totalDiastolic + tekananDarah.value.diastolic;
        validTekananDarahCount := validTekananDarahCount + 1;
      }
      var gulaDarah := parseInt(p.gulaDarah);
      if gulaDarah.Some? {
        totalGulaDarah := totalGulaDarah + gulaDarah.value;
        validGulaDarahCount := validGulaDarahCount + 1;
      }
      var kolesterol := parseInt(p.kolesterol);
      if kolesterol.Some? {
        totalKolesterol := totalKolesterol + kolesterol.value;
        validKolesterolCount := validKolesterolCount + 1;
      }
      i := i + 1;
    }
    assert rows[..|rows|] == rows;
    TallyCountsParsedValues(rows, parseTekananDarah, parseInt);
    t := Totals(totalSystolic, totalDiastolic, totalGulaDarah, totalKolesterol,
                validTekananDarahCount, validGulaDarahCount, validKolesterolCount);
  }

  /** When every row's cell parses, every row is counted, in row order. */
  lemma {:induction false} AllRowsParsed<V>(rows: seq<Pemeriksaan>, field: Pemeriksaan -> string,
                                            parse: string -> Option<V>, vs: seq<V>)
    requires |vs| == |rows|
    requires forall i | 0 <= i < |rows| :: parse(field(rows[i])) == Some(vs[i])
    ensures Parsed(rows, field, parse) == vs
  {
    if rows != [] {
      var n := |rows| - 1;
      AllRowsParsed(rows[..n], field, parse, vs[..n]);
      assert vs == vs[..n] + [vs[n]];
    }
  }

  // ---------------------------------------------------------------------------
  // Rounded averages

  /**
   * `Math.round(sum / n)` for n > 0: the integer nearest to the mean, halves
   * rounded up (towards positive infinity, also for a negative mean).
   */
  function MathRoundDiv(sum: int, n: int): (r: int)
    requires n > 0
    ensures 2 * n * r - n <= 2 * sum < 2 * n * r + n
  {
    var r := (2 * sum + n) / (2 * n);
    assert 2 * n * r <= 2 * sum + n < 2 * n * r + 2 * n;
    r
  }

  lemma MulGap(n: int, a: int, b: int)
    requires n > 0 && a < b
    ensures 2 * n * a + 2 * n <= 2 * n * b
  {
    var d := b - a;
    assert 2 * n * b == 2 * n * a + 2 * n * d;
    assert 2 * n * d == 2 * n + 2 * n * (d - 1);
    assert 2 * n * (d - 1) >= 0;
  }

  /** Only one integer lies within half of the mean. */
  lemma MathRoundDivUnique(sum: int, n: int, r: int)
    requires n > 0 && 2 * n * r - n <= 2 * sum < 2 * n * r + n
    ensures r == MathRoundDiv(sum, n)
  {
    var q := MathRoundDiv(sum, n);
    if r < q {
      MulGap(n, r, q);
    } else if r > q {
      MulGap(n, q, r);
    }
  }

  /** The average as the dashboard reports it: 0 when there is no valid value. */
  function Average(sum: int, count: nat): (r: int)
    ensures count == 0 ==> r == 0
    ensures count > 0 ==> 2 * count * r - count <= 2 * sum < 2 * count * r + count
  {
    if count > 0 then MathRoundDiv(sum, count) else 0
  }

  // ---------------------------------------------------------------------------
  // Windows and counts

  /** The `where` of a count over `tanggal` between two inclusive bounds. */
  function WindowWhere(w: Window): CheckupWhere {
    CheckupWhere(None, Some(w.start), Some(w.end))
  }

  /** `prisma.pemeriksaan.count` over a window of `tanggal`: the rows whose `tanggal` lies in it. */
  function CountInWindow(rows: seq<Pemeriksaan>, w: Window): nat {
    if rows == [] then 0
    else (if InWindow(rows[0].tanggal, w) then 1 else 0) + CountInWindow(rows[1..], w)
  }

  /** Counting agrees with listing the same rows with `findMany`. */
  lemma {:induction false} CountInWindowIsSelection(rows: seq<Pemeriksaan>, w: Window)
    ensures CountInWindow(rows, w) == |SelectCheckups(rows, WindowWhere(w))|
  {
    if rows != [] {
      CountInWindowIsSelection(rows[1..], w);
    }
  }

  /** The count is at most the number of rows, and zero exactly when no row falls in the window. */
  lemma CountInWindowBounds(rows: seq<Pemeriksaan>, w: Window)
    ensures CountInWindow(rows, w) <= |rows|
    ensures CountInWindow(rows, w) == 0 <==> forall c | c in rows :: !InWindow(c.tanggal, w)
  {
    CountInWindowIsSelection(rows, w);
    var r := SelectCheckups(rows, WindowWhere(w));
    if r != [] {
      assert r[0] in r;
    }
  }

  // ---------------------------------------------------------------------------
  // Monthly trend

  datatype MonthlyTrend = MonthlyTrend(month: string, count: nat)

  /** The `"YYYY-MM"` label: the full year, a dash, the month number padded to two digits. */
  function MonthLabel(ym: YearMonth): string
    requires 0 <= ym.month < 12
  {
    IntToString(ym.year) + "-" + PadStart2(ym.month + 1)
  }

  /** The label ends in a dash and the two digits of the month number. */
  lemma MonthLabelShape(ym: YearMonth)
    requires 0 <= ym.month < 12
    ensures var s := MonthLabel(ym);
      |s| == |IntToString(ym.year)| + 3 && s[|s| - 3] == '-' &&
      AllDigits(s[|s| - 2..]) && DecimalValue(s[|s| - 2..]) == ym.month + 1
  {
    var s := MonthLabel(ym);
    PadStart2Digits(ym.month + 1);
    assert s[|s| - 2..] == PadStart2(ym.month + 1);
  }

  /** Different months have different labels: the label can be read back. */
  lemma MonthLabelInjective(a: YearMonth, b: YearMonth)
    requires 0 <= a.month < 12 && 0 <= b.month < 12
    requires MonthLabel(a) == MonthLabel(b)
    ensures a == b
  {
    var s := MonthLabel(a);
    var ya := IntToString(a.year);
    var yb := IntToString(b.year);
    PadStart2Digits(a.month + 1);
    PadStart2Digits(b.month + 1);
    assert s == ya + "-" + PadStart2(a.month + 1);
    assert s == yb + "-" + PadStart2(b.month + 1);
    assert |PadStart2(a.month + 1)| == 2 == |PadStart2(b.month + 1)|;
    assert |ya| == |yb|;
    assert ya == s[..|ya|] == yb;
    assert PadStart2(a.month + 1) == s[|ya| + 1..] == PadStart2(b.month + 1);
    IntToStringInjective(a.year, b.year);
  }

  /**
   * The checkups whose date falls in the month's window, counted row by row.
   * Kept recursive on its own so that proofs about trend points do not unfold
   * the calendar arithmetic behind `MonthWindow`.
   */
  function MonthCount(rows: seq<Pemeriksaan>, ym: YearMonth): nat
    requires 0 <= ym.month < 12
  {
    if rows == [] then 0
    else (if InWindow(rows[0].tanggal, MonthWindow(ym)) then 1 else 0) + MonthCount(rows[1..], ym)
  }

  /** The month's count is the count over the month's window. */
  lemma {:induction false} MonthCountInWindow(rows: seq<Pemeriksaan>, ym: YearMonth)
    requires 0 <= ym.month < 12
    ensures MonthCount(rows, ym) == CountInWindow(rows, MonthWindow(ym))
  {
    if rows != [] {
      MonthCountInWindow(rows[1..], ym);
    }
  }

  /** A month's trend point: its label and its number of checkups. */
  function TrendPoint(rows: seq<Pemeriksaan>, ym: YearMonth): MonthlyTrend
    requires 0 <= ym.month < 12
  {
    MonthlyTrend(MonthLabel(ym), MonthCount(rows, ym))
  }

  /** `f` at the `n` consecutive indices starting at `first`, in order. */
  function MapRange<T>(f: int -> T, first: int, n: nat): (r: seq<T>)
    ensures |r| == n
  {
    if n == 0 then [] else MapRange(f, first, n - 1) + [f(first + n - 1)]
  }

  lemma {:induction false} MapRangeAt<T>(f: int -> T, first: int, n: nat)
    ensures forall k | 0 <= k < n :: MapRange(f, first, n)[k] == f(first + k)
  {
    if n > 0 {
      MapRangeAt(f, first, n - 1);
    }
  }

  /** The points of the `n` consecutive months starting at month index `first`. */
  function TrendPointsFrom(rows: seq<Pemeriksaan>, first: int, n: nat): (r: seq<MonthlyTrend>)
    ensures |r| == n
  {
    MapRange(idx => TrendPoint(rows, FromMonthIndex(idx)), first, n)
  }

  lemma TrendPointsFromNext(rows: seq<Pemeriksaan>, first: int, n: nat)
    ensures TrendPointsFrom(rows, first, n + 1) == TrendPointsFrom(rows, first, n) + [TrendPoint(rows, FromMonthIndex(first + n))]
  {
  }

  /** `p` over the `n` months ending `months - 1` months after the month `months - 1` before `cur`. */
  lemma {:induction false} MonthsAt<T>(p: int -> T, cur: YearMonth, months: int, xs: seq<T>)
    requires 0 <= cur.month < 12
    requires xs == MapRange(p, MonthIndex(cur) - (months - 1), |xs|)
    requires xs != [] ==> |xs| == months
    ensures forall k | 0 <= k < |xs| :: xs[k] == p(MonthIndex(AddMonths(cur, k - (|xs| - 1))))
  {
    MapRangeAt(p, MonthIndex(cur) - (months - 1), |xs|);
  }

  /** The points from `months - 1` months back up to the current month, in the form callers read. */
  lemma TrendOfMonths(rows: seq<Pemeriksaan>, cur: YearMonth, months: int, trends: seq<MonthlyTrend>)
    requires 0 <= cur.month < 12
    requires trends == TrendPointsFrom(rows, MonthIndex(cur) - (months - 1), |trends|)
    requires trends != [] ==> |trends| == months
    ensures forall k | 0 <= k < |trends| :: trends[k] == TrendPoint(rows, AddMonths(cur, k - (|trends| - 1)))
  {
    var p := idx => TrendPoint(rows, FromMonthIndex(idx));
    MonthsAt(p, cur, months, trends);
    forall k | 0 <= k < |trends|
      ensures trends[k] == TrendPoint(rows, AddMonths(cur, k - (|trends| - 1)))
    {
      var ym := AddMonths(cur, k - (|trends| - 1));
      MonthIndexRoundTrip(ym);
      assert trends[k] == p(MonthIndex(ym));
    }
  }

  /** One iteration of the trend loop: the month's window, its checkup count and its label. */
  method MonthPoint(db: Db, date: YearMonth) returns (point: MonthlyTrend)
    requires 0 <= date.month < 12
    ensures point == TrendPoint(db.checkups, date)
  {
    var window := MonthWindow(date);
    var count := CountInWindow(db.checkups, window);
    var month := MonthLabel(date);
    point := MonthlyTrend(month, count);
    MonthCountInWindow(db.checkups, date);
  }

  /**
   * `getMonthlyTrends(months)`: for `i` from `months - 1` down to 0, the month
   * `i` months before the current one, oldest first; nothing when `months` is
   * not positive.
   */
  method GetMonthlyTrends(db: Db, now: LocalTime, months: int) returns (trends: seq<MonthlyTrend>)
    requires ValidLocalTime(now)
    ensures |trends| == if months > 0 then months else 0
    ensures forall k | 0 <= k < |trends| ::
      trends[k] == TrendPoint(db.checkups, AddMonths(YearMonth(now.date.year, now.date.month), k - (|trends| - 1)))
  {
    var cur := YearMonth(now.date.year, now.date.month);
    ghost var first := MonthIndex(cur) - (months - 1);
    trends := [];
    if months > 0 {
      for i := months downto 0
        invariant trends == TrendPointsFrom(db.checkups, first, months - i)
      {
        var date := AddMonths(cur, -i);
        var point := MonthPoint(db, date);
        assert date == FromMonthIndex(first + (months - 1 - i));
        TrendPointsFromNext(db.checkups, first, months - 1 - i);
        trends := trends + [point];
      }
    }
    TrendOfMonths(db.checkups, cur, months, trends);
  }

  /**
   * The trend's months follow each other without gaps: each point's window
   * ends one millisecond before the next point's window starts.
   */
  lemma TrendMonthsConsecutive(cur: YearMonth, n: nat, k: nat)
    requires 0 <= cur.month < 12 && k + 1 < n
    ensures EndOfMonth(AddMonths(cur, k - (n - 1))) + 1 == StartOfMonth(AddMonths(cur, k + 1 - (n - 1)))
  {
    var ym := AddMonths(cur, k - (n - 1));
    MonthWindowsAdjacent(ym);
    assert AddMonths(ym, 1) == AddMonths(cur, k + 1 - (n - 1));
  }

  /** The last point of a trend is the month that holds the current instant. */
  lemma TrendEndsAtNow(now: LocalTime, n: nat)
    requires ValidLocalTime(now) && n > 0
    ensures var ym := AddMonths(YearMonth(now.date.year, now.date.month), (n - 1) - (n - 1));
      InWindow(InstantOf(now), MonthWindow(ym))
  {
    var cur := YearMonth(now.date.year, now.date.month);
    assert (n - 1) - (n - 1) == 0;
    assert AddMonths(cur, 0) == cur;
    InMonthWindowIff(now.date, now.msOfDay, cur);
  }

  /** No two points of a trend carry the same label. */
  lemma TrendLabelsDistinct(cur: YearMonth, n: nat, j: nat, k: nat)
    requires 0 <= cur.month < 12 && j < k < n
    ensures MonthLabel(AddMonths(cur, j - (n - 1))) != MonthLabel(AddMonths(cur, k - (n - 1)))
  {
    var a := AddMonths(cur, j - (n - 1));
    var b := AddMonths(cur, k - (n - 1));
    assert MonthIndex(a) < MonthIndex(b);
    if MonthLabel(a) == MonthLabel(b) {
      MonthLabelInjective(a, b);
      assert false;
    }
  }

  /** A window inside another never counts more rows. */
  lemma {:induction false} CountInWindowMonotone(rows: seq<Pemeriksaan>, inner: Window, outer: Window)
    requires outer.start <= inner.start && inner.end <= outer.end
    ensures CountInWindow(rows, inner) <= CountInWindow(rows, outer)
  {
    if rows != [] {
      CountInWindowMonotone(rows[1..], inner, outer);
    }
  }

  // ---------------------------------------------------------------------------
  // Rounded averages, bounds

  lemma {:induction false} SumBounds(xs: seq<int>, lo: int, hi: int)
    requires forall i | 0 <= i < |xs| :: lo <= xs[i] <= hi
    ensures |xs| * lo <= Sum(xs) <= |xs| * hi
  {
    if xs != [] {
      var n := |xs| - 1;
      SumBounds(xs[..n], lo, hi);
      assert |xs| * lo == n * lo + lo && |xs| * hi == n * hi + hi;
    }
  }

  /** A rounded mean of `n` values that sum to at most `n * hi` is at most `hi`. */
  lemma RoundedMeanBelow(sum: int, n: int, hi: int)
    requires n > 0 && sum <= n * hi
    ensures MathRoundDiv(sum, n) <= hi
  {
    var r := MathRoundDiv(sum, n);
    if r > hi {
      MulGap(n, hi, r);
      assert false;
    }
  }

  /** A rounded mean of `n` values that sum to at least `n * lo` is at least `lo`. */
  lemma RoundedMeanAbove(sum: int, n: int, lo: int)
    requires n > 0 && n * lo <= sum
    ensures lo <= MathRoundDiv(sum, n)
  {
    var r := MathRoundDiv(sum, n);
    if r < lo {
      MulGap(n, r, lo);
      assert false;
    }
  }

  /** The average of readings that all lie in `[lo, hi]` lies in `[lo, hi]` too. */
  lemma AverageWithin(xs: seq<int>, lo: int, hi: int)
    requires xs != [] && forall i | 0 <= i < |xs| :: lo <= xs[i] <= hi
    ensures lo <= Average(Sum(xs), |xs|) <= hi
  {
    SumBounds(xs, lo, hi);
    RoundedMeanBelow(Sum(xs), |xs|, hi);
    RoundedMeanAbove(Sum(xs), |xs|, lo);
  }

  // ---------------------------------------------------------------------------
  // Dashboard

  predicate IsPetugas(u: User) {
    u.role == PETUGAS
  }

  datatype DashboardStats = DashboardStats(
    totalLansia: nat,
    totalPetugas: nat,
    pemeriksaanBulanIni: nat,
    pemeriksaanKemarin: nat,
    rataRataTekananDarah: string,
    rataRataGulaDarah: string,
    rataRataKolesterol: string,
    trendPemeriksaan: seq<MonthlyTrend>)

  /** The checkups of the current month, as the averages read them. */
  function MonthRows(rows: seq<Pemeriksaan>, now: LocalTime): seq<Pemeriksaan>
    requires ValidLocalTime(now)
  {
    SelectCheckups(rows, WindowWhere(MonthWindow(YearMonth(now.date.year, now.date.month))))
  }

  /**
   * `getDashboardStats`: head counts, this month's and yesterday's numbers of
   * checkups, the rounded averages of this month's readings that parse, and a
   * six-month trend ending with the current month.
   */
  method GetDashboardStats(db: Db, now: LocalTime) returns (stats: DashboardStats)
    requires ValidLocalTime(now)
    ensures stats.totalLansia == |db.lansia|
    ensures stats.totalPetugas == |Filter(db.users, IsPetugas)|
    ensures stats.pemeriksaanBulanIni == CountInWindow(db.checkups, MonthWindow(YearMonth(now.date.year, now.date.month)))
    ensures stats.pemeriksaanKemarin == CountInWindow(db.checkups, DayWindow(PrevDay(now.date)))
    ensures var bps := Parsed(MonthRows(db.checkups, now), TekananDarahOf, ParseTekananDarah);
      stats.rataRataTekananDarah ==
        IntToString(Average(Sum(Systolics(bps)), |bps|)) + "/" + IntToString(Average(Sum(Diastolics(bps)), |bps|))
    ensures var gs := Parsed(MonthRows(db.checkups, now), GulaDarahOf, ParseInt);
      stats.rataRataGulaDarah == IntToString(Average(Sum(gs), |gs|))
    ensures var ks := Parsed(MonthRows(db.checkups, now), KolesterolOf, ParseInt);
      stats.rataRataKolesterol == IntToString(Average(Sum(ks), |ks|))
    ensures |stats.trendPemeriksaan| == 6
    ensures forall k | 0 <= k < 6 ::
      stats.trendPemeriksaan[k] == TrendPoint(db.checkups, AddMonths(YearMonth(now.date.year, now.date.month), k - 5))
  {
    var startOfMonth := MonthWindow(YearMonth(now.date.year, now.date.month));
    var yesterday := PrevDay(now.date);
    var ofYesterday := DayWindow(yesterday);
    var totalLansia := |db.lansia|;
    var totalPetugas := |Filter(db.users, IsPetugas)|;
    var pemeriksaanBulanIni := CountInWindow(db.checkups, startOfMonth);
    var pemeriksaanKemarin := CountInWindow(db.checkups, ofYesterday);
    var pemeriksaanData := SelectCheckups(db.checkups, WindowWhere(startOfMonth));
    var t := AccumulateMetrics(pemeriksaanData, ParseTekananDarah, ParseInt);
    var avgSystolic := Average(t.totalSystolic, t.validTekananDarahCount);
    var avgDiastolic := Average(t.totalDiastolic, t.validTekananDarahCount);
    var avgGulaDarah := Average(t.totalGulaDarah, t.validGulaDarahCount);
    var avgKolesterol := Average(t.totalKolesterol, t.validKolesterolCount);
    var trendPemeriksaan := GetMonthlyTrends(db, now, 6);
    stats := DashboardStats(
      totalLansia, totalPetugas, pemeriksaanBulanIni, pemeriksaanKemarin,
      IntToString(avgSystolic) + "/" + IntToString(avgDiastolic),
      IntToString(avgGulaDarah), IntToString(avgKolesterol),
      trendPemeriksaan);
  }

  /**
   * Yesterday's count is part of this month's count except on the first of
   * the month, when yesterday belongs to the previous month.
   */
  lemma YesterdayCountedInMonth(rows: seq<Pemeriksaan>, now: LocalTime)
    requires ValidLocalTime(now) && now.date.day > 1
    ensures CountInWindow(rows, DayWindow(PrevDay(now.date)))
      <= CountInWindow(rows, MonthWindow(YearMonth(now.date.year, now.date.month)))
  {
    YesterdayVersusMonth(now.date);
    CountInWindowMonotone(rows, DayWindow(PrevDay(now.date)), MonthWindow(YearMonth(now.date.year, now.date.month)));
  }

  // ---------------------------------------------------------------------------
  // Report

  datatype ReportFilter = ReportFilter(startDate: string, endDate: string, lansiaId: Option<string>)

  /** A checkup with its elder, as `include: { lansia: true }` returns it. */
  datatype ReportItem = ReportItem(pemeriksaan: Pemeriksaan, lansia: Lansia)

  datatype DateRange = DateRange(start: string, end: string)

  datatype PemeriksaanReport = PemeriksaanReport(data: seq<ReportItem>, totalPemeriksaan: nat, dateRange: DateRange)

  /** Each checkup joined with the elder it belongs to. */
  function WithLansia(rows: seq<Pemeriksaan>, lansia: seq<Lansia>): (r: seq<ReportItem>)
    requires forall c | c in rows :: c.lansiaId in Keys(lansia, LansiaId)
    ensures |r| == |rows|
    ensures forall i | 0 <= i < |rows| ::
      r[i].pemeriksaan == rows[i] && r[i].lansia in lansia && r[i].lansia.id == rows[i].lansiaId
  {
    seq(|rows|, i requires 0 <= i < |rows| => ReportItem(rows[i], Find(lansia, LansiaId, rows[i].lansiaId).value))
  }

  /** The report's `where`: the inclusive date range, and the elder when one is given. */
  function ReportWhere(filters: ReportFilter, dateMs: string -> int): CheckupWhere {
    CheckupWhere(
      if Truthy(filters.lansiaId) then filters.lansiaId else None,
      Some(dateMs(filters.startDate)), Some(dateMs(filters.endDate)))
  }

  /**
   * `getPemeriksaanReport`: an elder named in the filter must exist (404
   * `Lansia tidak ditemukan` otherwise); the matching checkups are listed
   * newest first with their elder, counted, and the requested range is echoed
   * back as given. `dateMs` is `new Date(s)` read as a local-time instant.
   */
  method GetPemeriksaanReport(db: Db, filters: ReportFilter, dateMs: string -> int)
    returns (r: Result<PemeriksaanReport, Thrown>)
    requires db.Valid()
    ensures Truthy(filters.lansiaId) && filters.lansiaId.value !in Keys(db.lansia, LansiaId)
      ==> r == Err(App(NotFoundError("Lansia")))
    ensures !(Truthy(filters.lansiaId) && filters.lansiaId.value !in Keys(db.lansia, LansiaId))
      ==> r.Ok?
    ensures r.Ok? ==>
      var rows := NewestFirst(db.checkups, ReportWhere(filters, dateMs));
      (forall c | c in rows :: c.lansiaId in Keys(db.lansia, LansiaId))
      && r.value.data == WithLansia(rows, db.lansia)
      && r.value.totalPemeriksaan == |rows|
      && r.value.dateRange == DateRange(filters.startDate, filters.endDate)
  {
    var whereClause := CheckupWhere(None, Some(dateMs(filters.startDate)), Some(dateMs(filters.endDate)));
    if Truthy(filters.lansiaId) {
      var lansia := Find(db.lansia, LansiaId, filters.lansiaId.value);
      if lansia.None? {
        return Err(App(NotFoundError("Lansia")));
      }
      whereClause := whereClause.(lansiaId := filters.lansiaId);
    }
    var rows := NewestFirst(db.checkups, whereClause);
    assert forall c | c in rows :: c in db.checkups by {
      forall c | c in rows ensures c in db.checkups {
        NewestFirstExact(db.checkups, whereClause, c);
      }
    }
    var data := WithLansia(rows, db.lansia);
    var totalPemeriksaan := |data|;
    r := Ok(PemeriksaanReport(data, totalPemeriksaan, DateRange(filters.startDate, filters.endDate)));
  }

  /**
   * A checkup is in the report exactly when it is stored, its `tanggal` lies
   * in the requested range and, when an elder is named, it is that elder's.
   */
  lemma ReportExact(rows: seq<Pemeriksaan>, filters: ReportFilter, dateMs: string -> int, c: Pemeriksaan)
    ensures c in NewestFirst(rows, ReportWhere(filters, dateMs)) <==>
      c in rows
      && dateMs(filters.startDate) <= c.tanggal <= dateMs(filters.endDate)
      && (Truthy(filters.lansiaId) ==> c.lansiaId == filters.lansiaId.value)
  {
    NewestFirstExact(rows, ReportWhere(filters, dateMs), c);
  }

  // ---------------------------------------------------------------------------
  // The seeded checkups

  /** A rendered reading, `"<systolic>/<diastolic>"`, as the seed script and the form store it. */
  function ReadingText(bp: BloodPressure): string {
    IntToString(bp.systolic) + "/" + IntToString(bp.diastolic)
  }

  /** A rendered integer holds no `/`. */
  lemma NoSlashInIntToString(n: int)
    ensures '/' !in IntToString(n)
  {
    var t := if n < 0 then NatToString(-n) else NatToString(n);
    assert AllDigits(t);
    if n < 0 {
      assert IntToString(n) == "-" + t;
    }
  }

  /** Every rendered reading parses back to itself (`parseInt` reads a leading minus sign too). */
  lemma ParseReadingText(bp: BloodPressure)
    ensures ParseTekananDarah(ReadingText(bp)) == Some(bp)
  {
    var a, b := IntToString(bp.systolic), IntToString(bp.diastolic);
    var s := ReadingText(bp);
    assert s[..|a|] == a && s[|a| + 1..] == b && s[|a|] == '/';
    NoSlashInIntToString(bp.systolic);
    NoSlashInIntToString(bp.diastolic);
    ParseTekananDarahAt(s, |a|);
    ParseIntOfIntToString(bp.systolic);
    ParseIntOfIntToString(bp.diastolic);
  }

  /** The readings of the ten checkups the seed script stores, in order. */
  const SeedReadings: seq<BloodPressure> := [
    BloodPressure(140, 90), BloodPressure(135, 85), BloodPressure(130, 80), BloodPressure(120, 80),
    BloodPressure(125, 80), BloodPressure(145, 95), BloodPressure(140, 90), BloodPressure(130, 85),
    BloodPressure(150, 95), BloodPressure(145, 90)]
  const SeedGulaDarah: seq<int> := [150, 140, 130, 110, 115, 120, 118, 105, 160, 150]
  const SeedKolesterol: seq<int> := [220, 210, 200, 240, 230, 200, 195, 190, 230, 220]

  lemma SumOfTen(xs: seq<int>)
    requires |xs| == 10
    ensures Sum(xs) == xs[0] + xs[1] + xs[2] + xs[3] + xs[4] + xs[5] + xs[6] + xs[7] + xs[8] + xs[9]
  {
    forall k | 1 <= k <= 10
      ensures Sum(xs[..k]) == Sum(xs[..k - 1]) + xs[k - 1]
    {
      assert xs[..k][..k - 1] == xs[..k - 1];
    }
    assert xs[..10] == xs && xs[..0] == [];
  }

  lemma SeedSums()
    ensures Sum(Systolics(SeedReadings)) == 1360 && Sum(Diastolics(SeedReadings)) == 870
    ensures Sum(SeedGulaDarah) == 1298 && Sum(SeedKolesterol) == 2135
  {
    SumOfTen(Systolics(SeedReadings));
    SumOfTen(Diastolics(SeedReadings));
    SumOfTen(SeedGulaDarah);
    SumOfTen(SeedKolesterol);
  }

  lemma SeedRenderings()
    ensures IntToString(Average(1360, 10)) + "/" + IntToString(Average(870, 10)) == "136/87"
    ensures IntToString(Average(1298, 10)) == "130" && IntToString(Average(2135, 10)) == "214"
  {
    assert Average(1360, 10) == 136 && Average(870, 10) == 87;
    assert Average(1298, 10) == 130 && Average(2135, 10) == 214;
  }

  /** Rows whose cells hold rendered readings parse back to exactly those readings. */
  lemma {:induction false} RenderedReadingsParse(rows: seq<Pemeriksaan>, bps: seq<BloodPressure>)
    requires |rows| == |bps|
    requires forall i | 0 <= i < |rows| :: rows[i].tekananDarah == ReadingText(bps[i])
    ensures Parsed(rows, TekananDarahOf, ParseTekananDarah) == bps
  {
    forall i | 0 <= i < |rows|
      ensures ParseTekananDarah(TekananDarahOf(rows[i])) == Some(bps[i])
    {
      ParseReadingText(bps[i]);
    }
    AllRowsParsed(rows, TekananDarahOf, ParseTekananDarah, bps);
  }

  /** Rows whose cells in a column hold rendered integers parse back to exactly those integers. */
  lemma {:induction false} RenderedNumbersParse(rows: seq<Pemeriksaan>, field: Pemeriksaan -> string, xs: seq<int>)
    requires |rows| == |xs|
    requires forall i | 0 <= i < |rows| :: field(rows[i]) == IntToString(xs[i])
    ensures Parsed(rows, field, ParseInt) == xs
  {
    forall i | 0 <= i < |rows|
      ensures ParseInt(field(rows[i])) == Some(xs[i])
    {
      ParseIntOfIntToString(xs[i]);
    }
    AllRowsParsed(rows, field, ParseInt, xs);
  }

  /**
   * The month the seed script fills: when the month's checkups carry the
   * seeded measurements, the dashboard shows `"136/87"`, `"130"` and `"214"`
   * (the cholesterol mean 213.5 rounds up).
   */
  lemma SeedAverages(rows: seq<Pemeriksaan>)
    requires |rows| == 10
    requires forall i | 0 <= i < 10 :: rows[i].tekananDarah == ReadingText(SeedReadings[i])
    requires forall i | 0 <= i < 10 :: rows[i].gulaDarah == IntToString(SeedGulaDarah[i])
    requires forall i | 0 <= i < 10 :: rows[i].kolesterol == IntToString(SeedKolesterol[i])
    ensures var bps := Parsed(rows, TekananDarahOf, ParseTekananDarah);
      IntToString(Average(Sum(Systolics(bps)), |bps|)) + "/" + IntToString(Average(Sum(Diastolics(bps)), |bps|))
        == "136/87"
    ensures var gs := Parsed(rows, GulaDarahOf, ParseInt);
      IntToString(Average(Sum(gs), |gs|)) == "130"
    ensures var ks := Parsed(rows, KolesterolOf, ParseInt);
      IntToString(Average(Sum(ks), |ks|)) == "214"
  {
    RenderedReadingsParse(rows, SeedReadings);
    RenderedNumbersParse(rows, GulaDarahOf, SeedGulaDarah);
    RenderedNumbersParse(rows, KolesterolOf, SeedKolesterol);
    SeedSums();
    SeedRenderings();
  }
}
