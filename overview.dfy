/** The overview page: for one year, a pivot of months against the
    facilities of each treatment kind, with per-kind and grand totals and a
    year-total row. */
module Overview {
  import opened Common
  import opened Text
  import Enrich

  /** One row of the overview query: month, treatment kind, facility code and
      name, visit count and summed total cost. */
  datatype OvRow = OvRow(thang: int, ml2: Option<string>, ma: string, ten: string, soLuot: real, tongChi: real)

  /** The metric shown: visits ("so_luot") or total cost ("tong_chi"). */
  datatype OvMetric = SoLuotM | TongChiM

  function MetricValue(r: OvRow, m: OvMetric): real
  {
    match m
    case SoLuotM => r.soLuot
    case TongChiM => r.tongChi
  }

  /** A facility as the pivot lists it: (code, name). */
  type Facility = (string, string)

  /** The order `sorted` puts [code, name] lists in. */
  predicate PairLt(a: Facility, b: Facility)
  {
    StrLt(a.0, b.0) || (a.0 == b.0 && StrLt(a.1, b.1))
  }

  lemma PairLtTransitive(a: Facility, b: Facility, c: Facility)
    requires PairLt(a, b) && PairLt(b, c)
    ensures PairLt(a, c)
  {
    if StrLt(a.0, b.0) && StrLt(b.0, c.0) {
      StrLtTransitive(a.0, b.0, c.0);
    } else if a.0 == b.0 && b.0 == c.0 {
      StrLtTransitive(a.1, b.1, c.1);
    }
  }

  lemma PairLtTotal(a: Facility, b: Facility)
    requires a != b
    ensures PairLt(a, b) || PairLt(b, a)
  {
    if a.0 != b.0 {
      StrLtTotal(a.0, b.0);
    } else {
      StrLtTotal(a.1, b.1);
    }
  }

  lemma PairLtIrreflexive(a: Facility)
    ensures !PairLt(a, a)
  {
    StrLtIrreflexive(a.0);
    StrLtIrreflexive(a.1);
  }

  /** Strictly increasing, hence also free of duplicates. */
  predicate StrictlySorted(s: seq<Facility>)
  {
    forall i, j :: 0 <= i < j < |s| ==> PairLt(s[i], s[j])
  }

  /** Adds a facility to a strictly sorted list unless it is already there. */
  function InsertFacility(p: Facility, s: seq<Facility>): (r: seq<Facility>)
    requires StrictlySorted(s)
    ensures StrictlySorted(r)
    ensures forall q :: q in r <==> q == p || q in s
  {
    if s == [] then [p]
    else if p == s[0] then s
    else if PairLt(p, s[0]) then
      BelowHead(p, s);
      FrontStaysSorted(p, s);
      [p] + s
    else
      PairLtTotal(p, s[0]);
      var rest := InsertFacility(p, s[1..]);
      assert forall q :: q in s[1..] ==> PairLt(s[0], q);
      FrontStaysSorted(s[0], rest);
      [s[0]] + rest
  }

  /** Below the head of a strictly sorted list is below all of it. */
  lemma BelowHead(p: Facility, s: seq<Facility>)
    requires StrictlySorted(s) && s != [] && PairLt(p, s[0])
    ensures forall q :: q in s ==> PairLt(p, q)
  {
    forall q | q in s
      ensures PairLt(p, q)
    {
      var j :| 0 <= j < |s| && s[j] == q;
      if j > 0 {
        PairLtTransitive(p, s[0], q);
      }
    }
  }

  /** Putting an element below every element of a strictly sorted list in
      front keeps it strictly sorted. */
  lemma FrontStaysSorted(p: Facility, s: seq<Facility>)
    requires StrictlySorted(s)
    requires forall q :: q in s ==> PairLt(p, q)
    ensures StrictlySorted([p] + s)
  {
    var r := [p] + s;
    forall i, j | 0 <= i < j < |r|
      ensures PairLt(r[i], r[j])
    {
      if i == 0 {
        assert r[j] == s[j - 1] && s[j - 1] in s;
      } else {
        assert r[i] == s[i - 1] && r[j] == s[j - 1];
      }
    }
  }

  /** `sorted(df[ml2 == kind][["ma_cskcb", "ten_cskcb"]].drop_duplicates())`:
      each (code, name) pair of that kind once, in increasing order. */
  function Facilities(data: seq<OvRow>, kind: string): (fs: seq<Facility>)
    ensures StrictlySorted(fs)
    ensures forall p :: p in fs <==> exists i :: 0 <= i < |data| && data[i].ml2 == Some(kind) && (data[i].ma, data[i].ten) == p
  {
    if data == [] then []
    else
      var n := |data| - 1;
      var init := Facilities(data[..n], kind);
      assert forall i :: 0 <= i < n ==> data[..n][i] == data[i];
      if data[n].ml2 == Some(kind) then InsertFacility((data[n].ma, data[n].ten), init) else init
  }

  /** The names of a facility list, as the column headers show them. */
  function Names(fs: seq<Facility>): (ns: seq<string>)
    ensures |ns| == |fs| && forall i :: 0 <= i < |fs| ==> ns[i] == fs[i].1
  {
    seq(|fs|, i requires 0 <= i < |fs| => fs[i].1)
  }

  // ---- Sums over the query rows ----

  function SetOf(fs: seq<Facility>): (ps: set<Facility>)
    ensures forall p :: p in ps <==> p in fs
  {
    set p | p in fs
  }

  /** The metric summed over the rows of a kind and month whose facility is in `fs`. */
  function SumIn(data: seq<OvRow>, kind: string, month: int, fs: set<Facility>, m: OvMetric): real
  {
    if data == [] then 0.0
    else
      var n := |data| - 1;
      var r := data[n];
      SumIn(data[..n], kind, month, fs, m) +
        (if r.ml2 == Some(kind) && r.thang == month && (r.ma, r.ten) in fs then MetricValue(r, m) else 0.0)
  }

  /** The metric summed over all rows of a kind and month. */
  function MonthSum(data: seq<OvRow>, kind: string, month: int, m: OvMetric): real
  {
    if data == [] then 0.0
    else
      var n := |data| - 1;
      var r := data[n];
      MonthSum(data[..n], kind, month, m) + (if r.ml2 == Some(kind) && r.thang == month then MetricValue(r, m) else 0.0)
  }

  /** The metric summed over the rows of a kind and month with this code,
      whatever the name. */
  function CodeSum(data: seq<OvRow>, kind: string, month: int, ma: string, m: OvMetric): real
  {
    if data == [] then 0.0
    else
      var n := |data| - 1;
      var r := data[n];
      CodeSum(data[..n], kind, month, ma, m) + (if r.ml2 == Some(kind) && r.thang == month && r.ma == ma then MetricValue(r, m) else 0.0)
  }

  /** Splitting one facility off a set splits the sum. */
  lemma {:induction false} SumInSplit(data: seq<OvRow>, kind: string, month: int, fs: set<Facility>, p: Facility, m: OvMetric)
    requires p in fs
    ensures SumIn(data, kind, month, fs, m) == SumIn(data, kind, month, {p}, m) + SumIn(data, kind, month, fs - {p}, m)
  {
    if data != [] {
      SumInSplit(data[..|data| - 1], kind, month, fs, p, m);
    }
  }

  lemma {:induction false} SumInEmptySet(data: seq<OvRow>, kind: string, month: int, m: OvMetric)
    ensures SumIn(data, kind, month, {}, m) == 0.0
  {
    if data != [] {
      SumInEmptySet(data[..|data| - 1], kind, month, m);
    }
  }

  /** A set holding every facility of the kind's rows sums to the whole month. */
  lemma {:induction false} SumInCovers(data: seq<OvRow>, kind: string, month: int, fs: set<Facility>, m: OvMetric)
    requires forall i :: 0 <= i < |data| && data[i].ml2 == Some(kind) ==> (data[i].ma, data[i].ten) in fs
    ensures SumIn(data, kind, month, fs, m) == MonthSum(data, kind, month, m)
  {
    if data != [] {
      var n := |data| - 1;
      assert forall i :: 0 <= i < n ==> data[..n][i] == data[i];
      SumInCovers(data[..n], kind, month, fs, m);
    }
  }

  /** The per-facility sums of a duplicate-free list add up to the sum over
      the facilities of the list. */
  lemma {:induction false} SumOverList(data: seq<OvRow>, kind: string, month: int, fs: seq<Facility>, m: OvMetric)
    requires StrictlySorted(fs)
    ensures Sum(Cells(data, kind, month, fs, m)) == SumIn(data, kind, month, SetOf(fs), m)
  {
    var cells := Cells(data, kind, month, fs, m);
    if fs == [] {
      assert SetOf(fs) == {};
      SumInEmptySet(data, kind, month, m);
    } else {
      var n := |fs| - 1;
      var init := fs[..n];
      assert StrictlySorted(init);
      SumOverList(data, kind, month, init, m);
      assert cells[..n] == Cells(data, kind, month, init, m);
      var whole := SetOf(fs);
      assert fs[n] !in init by {
        forall j | 0 <= j < n
          ensures init[j] != fs[n]
        {
          assert PairLt(fs[j], fs[n]) && init[j] == fs[j];
          PairLtIrreflexive(fs[n]);
        }
      }
      assert whole - {fs[n]} == SetOf(init);
      SumInSplit(data, kind, month, whole, fs[n], m);
      calc {
        Sum(cells);
        Sum(cells[..n]) + cells[n];
        SumIn(data, kind, month, SetOf(init), m) + SumIn(data, kind, month, {fs[n]}, m);
        SumIn(data, kind, month, whole, m);
      }
    }
  }

  // ---- The pivot ----

  /** One line of the pivot: the month label, the cells per facility of
      each kind, the two kind totals and the grand total. */
  datatype PivotRow = PivotRow(month: string, ngoai: seq<real>, tongNgoai: real, noi: seq<real>, tongNoi: real, tongCong: real)

  /** `f"T{thang:02d}"` */
  function MonthLabel(month: nat): string
  {
    "T" + Pad2(month)
  }

  const YearLabel: string := "TỔNG NĂM"

  /** The cells of a month for the facilities of a kind, each facility
      taking the rows of its own (code, name) pair. */
  function Cells(data: seq<OvRow>, kind: string, month: int, fs: seq<Facility>, m: OvMetric): (c: seq<real>)
    ensures |c| == |fs|
    ensures forall j :: 0 <= j < |fs| ==> c[j] == SumIn(data, kind, month, {fs[j]}, m)
  {
    seq(|fs|, j requires 0 <= j < |fs| => SumIn(data, kind, month, {fs[j]}, m))
  }

  /** The pivot line of a month. */
  function MonthRow(data: seq<OvRow>, m: OvMetric, month: nat): PivotRow
  {
    var ngoai := Cells(data, Enrich.Outpatient, month, Facilities(data, Enrich.Outpatient), m);
    var noi := Cells(data, Enrich.Inpatient, month, Facilities(data, Enrich.Inpatient), m);
    PivotRow(MonthLabel(month), ngoai, Sum(ngoai), noi, Sum(noi), Sum(ngoai) + Sum(noi))
  }

  /** The total of a kind in a month is the month's sum over every row of
      that kind, and the grand total adds the two kinds. */
  lemma MonthRowTotals(data: seq<OvRow>, m: OvMetric, month: nat)
    ensures MonthRow(data, m, month).tongNgoai == MonthSum(data, Enrich.Outpatient, month, m)
    ensures MonthRow(data, m, month).tongNoi == MonthSum(data, Enrich.Inpatient, month, m)
    ensures MonthRow(data, m, month).tongCong ==
      MonthSum(data, Enrich.Outpatient, month, m) + MonthSum(data, Enrich.Inpatient, month, m)
  {
    KindTotal(data, Enrich.Outpatient, m, month);
    KindTotal(data, Enrich.Inpatient, m, month);
  }

  lemma KindTotal(data: seq<OvRow>, kind: string, m: OvMetric, month: nat)
    ensures Sum(Cells(data, kind, month, Facilities(data, kind), m)) == MonthSum(data, kind, month, m)
  {
    var fs := Facilities(data, kind);
    SumOverList(data, kind, month, fs, m);
    SumInCovers(data, kind, month, SetOf(fs), m);
  }

  /** The column of a pivot field over some lines. */
  function ColumnOf(rows: seq<PivotRow>, f: PivotRow -> real): (c: seq<real>)
    ensures |c| == |rows| && forall i :: 0 <= i < |rows| ==> c[i] == f(rows[i])
  {
    seq(|rows|, i requires 0 <= i < |rows| => f(rows[i]))
  }

  /** The year-total line: every column summed over the month lines. */
  function YearRow(rows: seq<PivotRow>, nNgoai: nat, nNoi: nat): (y: PivotRow)
    requires forall i :: 0 <= i < |rows| ==> |rows[i].ngoai| == nNgoai && |rows[i].noi| == nNoi
    ensures |y.ngoai| == nNgoai && |y.noi| == nNoi
  {
    PivotRow(YearLabel,
             seq(nNgoai, j requires 0 <= j < nNgoai => Sum(ColumnOf(rows, (r: PivotRow) => if j < |r.ngoai| then r.ngoai[j] else 0.0))),
             Sum(ColumnOf(rows, (r: PivotRow) => r.tongNgoai)),
             seq(nNoi, j requires 0 <= j < nNoi => Sum(ColumnOf(rows, (r: PivotRow) => if j < |r.noi| then r.noi[j] else 0.0))),
             Sum(ColumnOf(rows, (r: PivotRow) => r.tongNoi)),
             Sum(ColumnOf(rows, (r: PivotRow) => r.tongCong)))
  }

  /** In the year line, as in every month line, the grand total is the sum
      of the two kind totals. */
  lemma YearRowGrandTotal(rows: seq<PivotRow>, nNgoai: nat, nNoi: nat)
    requires forall i :: 0 <= i < |rows| ==> |rows[i].ngoai| == nNgoai && |rows[i].noi| == nNoi
    requires forall i :: 0 <= i < |rows| ==> rows[i].tongCong == rows[i].tongNgoai + rows[i].tongNoi
    ensures YearRow(rows, nNgoai, nNoi).tongCong == YearRow(rows, nNgoai, nNoi).tongNgoai + YearRow(rows, nNgoai, nNoi).tongNoi
  {
    var a := ColumnOf(rows, (r: PivotRow) => r.tongNgoai);
    var b := ColumnOf(rows, (r: PivotRow) => r.tongNoi);
    SumPointwiseAdd(a, b);
    assert ColumnOf(rows, (r: PivotRow) => r.tongCong) == PointwiseAdd(a, b);
  }

  /** The month lines of the pivot, months 1 to 12. */
  function MonthRows(data: seq<OvRow>, m: OvMetric): (rows: seq<PivotRow>)
    ensures |rows| == 12
    ensures forall i :: 0 <= i < 12 ==>
      (|rows[i].ngoai| == |Facilities(data, Enrich.Outpatient)| && |rows[i].noi| == |Facilities(data, Enrich.Inpatient)|)
  {
    seq(12, i requires 0 <= i < 12 => MonthRow(data, m, i + 1))
  }

  /** The inner loop over the facilities of a kind in one month: the cells
      and their running total. */
  method KindCells(data: seq<OvRow>, kind: string, month: nat, fs: seq<Facility>, m: OvMetric)
    returns (cells: seq<real>, tong: real)
    ensures cells == Cells(data, kind, month, fs, m)
    ensures tong == Sum(cells)
  {
    cells := [];
    tong := 0.0;
    var j := 0;
    while j < |fs|
      invariant 0 <= j <= |fs| && |cells| == j
      invariant forall k :: 0 <= k < j ==> cells[k] == SumIn(data, kind, month, {fs[k]}, m)
      invariant tong == Sum(cells)
    {
      var v := SumIn(data, kind, month, {fs[j]}, m);
      assert (cells + [v])[..j] == cells;
      cells := cells + [v];
      tong := tong + v;
      j := j + 1;
    }
  }

  /** The month totals of the month lines. */
  lemma {:induction false} MonthRowsTotals(data: seq<OvRow>, m: OvMetric)
    ensures forall month :: 1 <= month <= 12 ==>
      (MonthRows(data, m)[month - 1].month == MonthLabel(month) &&
       MonthRows(data, m)[month - 1].tongNgoai == MonthSum(data, Enrich.Outpatient, month, m) &&
       MonthRows(data, m)[month - 1].tongNoi == MonthSum(data, Enrich.Inpatient, month, m) &&
       MonthRows(data, m)[month - 1].tongCong ==
         MonthRows(data, m)[month - 1].tongNgoai + MonthRows(data, m)[month - 1].tongNoi)
  {
    forall month | 1 <= month <= 12
      ensures MonthRows(data, m)[month - 1] == MonthRow(data, m, month)
      ensures MonthRow(data, m, month).tongNgoai == MonthSum(data, Enrich.Outpatient, month, m)
      ensures MonthRow(data, m, month).tongNoi == MonthSum(data, Enrich.Inpatient, month, m)
    {
      MonthRowTotals(data, m, month);
    }
  }

  /** The loop over months 1 to 12. */
  method MonthLines(data: seq<OvRow>, m: OvMetric, ngoaiF: seq<Facility>, noiF: seq<Facility>)
    returns (monthRows: seq<PivotRow>)
    requires ngoaiF == Facilities(data, Enrich.Outpatient) && noiF == Facilities(data, Enrich.Inpatient)
    ensures monthRows == MonthRows(data, m)
  {
    monthRows := [];
    var thang := 1;
    while thang <= 12
      invariant 1 <= thang <= 13 && |monthRows| == thang - 1
      invariant forall i :: 0 <= i < thang - 1 ==> monthRows[i] == MonthRow(data, m, i + 1)
    {
      var row := MonthLine(data, m, thang, ngoaiF, noiF);
      monthRows := monthRows + [row];
      thang := thang + 1;
    }
  }

  /** One pass of the month loop: both kinds' cells and the totals. */
  method MonthLine(data: seq<OvRow>, m: OvMetric, thang: nat, ngoaiF: seq<Facility>, noiF: seq<Facility>)
    returns (row: PivotRow)
    requires ngoaiF == Facilities(data, Enrich.Outpatient) && noiF == Facilities(data, Enrich.Inpatient)
    ensures row == MonthRow(data, m, thang)
  {
    var ngoai, tongNgoai := KindCells(data, Enrich.Outpatient, thang, ngoaiF, m);
    var noi, tongNoi := KindCells(data, Enrich.Inpatient, thang, noiF, m);
    row := PivotRow(MonthLabel(thang), ngoai, tongNgoai, noi, tongNoi, tongNgoai + tongNoi);
  }

  /** `_build_pivot_table`, with each facility column reading the rows of its
      own (code, name) pair: nothing for an empty result; otherwise twelve
      month lines, then the year line; the names of the facility columns of
      each kind. */
  method BuildPivot(data: seq<OvRow>, m: OvMetric)
    returns (rows: seq<PivotRow>, ngoaiNames: seq<string>, noiNames: seq<string>)
    ensures data == [] ==> rows == [] && ngoaiNames == [] && noiNames == []
    ensures data != [] ==> |rows| == 13 && rows[..12] == MonthRows(data, m)
    ensures data != [] ==>
      (ngoaiNames == Names(Facilities(data, Enrich.Outpatient)) &&
       noiNames == Names(Facilities(data, Enrich.Inpatient)))
    ensures data != [] ==>
      (rows[12] == YearRow(rows[..12], |ngoaiNames|, |noiNames|) &&
       rows[12].tongCong == rows[12].tongNgoai + rows[12].tongNoi)
    ensures data != [] ==> forall month :: 1 <= month <= 12 ==>
      (rows[month - 1].month == MonthLabel(month) &&
       rows[month - 1].tongNgoai == MonthSum(data, Enrich.Outpatient, month, m) &&
       rows[month - 1].tongNoi == MonthSum(data, Enrich.Inpatient, month, m) &&
       rows[month - 1].tongCong == rows[month - 1].tongNgoai + rows[month - 1].tongNoi)
  {
    if data == [] {
      return [], [], [];
    }
    var ngoaiF := Facilities(data, Enrich.Outpatient);
    var noiF := Facilities(data, Enrich.Inpatient);
    var monthRows := MonthLines(data, m, ngoaiF, noiF);
    MonthRowsTotals(data, m);
    YearRowGrandTotal(monthRows, |ngoaiF|, |noiF|);
    rows := monthRows + [YearRow(monthRows, |ngoaiF|, |noiF|)];
    assert rows[..12] == monthRows;
    ngoaiNames := Names(ngoaiF);
    noiNames := Names(noiF);
  }

  // ---- The code as written ----

  /** The month total of a kind as the page computes it: every (code, name)
      column sums the rows of its code alone, and the total adds the columns. */
  function MonthTotalAsWritten(data: seq<OvRow>, kind: string, month: int, m: OvMetric): real
  {
    Sum(CodeCells(data, kind, month, Facilities(data, kind), m))
  }

  /** The cells as the page fills them: each column takes every row of its code. */
  function CodeCells(data: seq<OvRow>, kind: string, month: int, fs: seq<Facility>, m: OvMetric): (c: seq<real>)
    ensures |c| == |fs|
    ensures forall j :: 0 <= j < |fs| ==> c[j] == CodeSum(data, kind, month, fs[j].0, m)
  {
    seq(|fs|, j requires 0 <= j < |fs| => CodeSum(data, kind, month, fs[j].0, m))
  }

  /** A facility whose name changes during the year (two lookup entries for
      one code) gets two columns that both show the code's whole value, so
      the month total counts it twice. */
  lemma AsWrittenDoubleCounts()
    ensures var data := [OvRow(1, Some(Enrich.Outpatient), "A", "X", 10.0, 0.0),
                         OvRow(2, Some(Enrich.Outpatient), "A", "Y", 20.0, 0.0)];
      MonthSum(data, Enrich.Outpatient, 1, SoLuotM) == 10.0 &&
      MonthTotalAsWritten(data, Enrich.Outpatient, 1, SoLuotM) == 20.0 &&
      MonthRow(data, SoLuotM, 1).tongNgoai == 10.0
  {
    var kind := Enrich.Outpatient;
    var data := [OvRow(1, Some(kind), "A", "X", 10.0, 0.0),
                 OvRow(2, Some(kind), "A", "Y", 20.0, 0.0)];
    assert data[..1] == [data[0]] && data[..1][..0] == [];
    assert Facilities(data[..1], kind) == [("A", "X")];
    assert !PairLt(("A", "Y"), ("A", "X"));
    assert [("A", "X")][1..] == [];
    assert InsertFacility(("A", "Y"), [("A", "X")]) == [("A", "X"), ("A", "Y")];
    var fs := Facilities(data, kind);
    assert fs == [("A", "X"), ("A", "Y")];
    assert MonthSum(data[..1], kind, 1, SoLuotM) == 10.0;
    assert CodeSum(data[..1], kind, 1, "A", SoLuotM) == 10.0;
    var cols := CodeCells(data, kind, 1, fs, SoLuotM);
    assert cols == [10.0, 10.0];
    assert cols[..1] == [10.0] && cols[..1][..0] == [];
    assert Sum(cols[..1]) == 10.0;
    MonthRowTotals(data, SoLuotM, 1);
  }
}
