/** The hospital-wide page: per period, one aggregated row per treatment
    kind; a matrix of rows (visits, days, amounts and per-visit averages)
    with an Inpatient, an Outpatient and a Total column group; and the
    comparison of the first and the last period. */
module HospitalStats {
  import opened Common
  import opened Enrich
  import opened Aggregate

  /** One period's query result, keyed by treatment kind (NULL included). */
  type PeriodData = map<Option<string>, Row>

  // ---- Reading the period data ----

  /** `_build_data`: one dictionary per period, keyed by treatment kind. */
  method BuildData(frames: seq<Option<seq<(Option<string>, Row)>>>) returns (data: seq<PeriodData>)
    ensures |data| == |frames|
    ensures forall pi :: 0 <= pi < |data| ==>
      data[pi] == (if frames[pi].None? then map[] else Dict(frames[pi].value))
  {
    data := BuildDicts(frames);
  }

  /** `_get`: the value of a field in the row of a treatment kind; 0 when the
      period has no such row or the row lacks the field. Aggregated values are
      never None or NaN, so `v if v else 0` is the value itself. */
  function Get(d: PeriodData, ml2: string, f: Field): (v: real)
    ensures Some(ml2) !in d ==> v == 0.0
    ensures Some(ml2) in d ==> v == Get0(d[Some(ml2)], f)
  {
    if Some(ml2) in d then Get0(d[Some(ml2)], f) else 0.0
  }

  /** `_get_total`: inpatient plus outpatient. */
  function GetTotal(d: PeriodData, f: Field): (v: real)
    ensures v == Get(d, Inpatient, f) + Get(d, Outpatient, f)
  {
    Get(d, Inpatient, f) + Get(d, Outpatient, f)
  }

  /** When every selected record is inpatient or outpatient, the Total of the
      hospital-wide query's result is the sum over all selected records:
      the two groups split the selection. */
  lemma TotalIsWholeHospital(view: seq<ViewRow>, fromYm: int, toYm: int, f: Field)
    requires forall v :: v in HospitalSelection(view, fromYm, toYm) ==>
      v.ml2 == Some(Inpatient) || v.ml2 == Some(Outpatient)
    ensures GetTotal(HospitalQuery(view, fromYm, toYm), f) == Sum(Column(HospitalSelection(view, fromYm, toYm), f))
  {
    var sel := HospitalSelection(view, fromYm, toYm);
    assert forall i :: 0 <= i < |sel| ==> sel[i] in sel;
    GroupValue(view, fromYm, toYm, Inpatient, f);
    GroupValue(view, fromYm, toYm, Outpatient, f);
    TotalOfTwoGroups(sel, HospitalQuery(view, fromYm, toYm), f);
  }

  lemma KindsDiffer()
    ensures Some(Inpatient) != Some(Outpatient)
  {
    assert Inpatient[1] != Outpatient[1];
  }

  lemma TotalOfTwoGroups(sel: seq<ViewRow>, d: PeriodData, f: Field)
    requires forall i :: 0 <= i < |sel| ==> sel[i].ml2 == Some(Inpatient) || sel[i].ml2 == Some(Outpatient)
    requires Get(d, Inpatient, f) == Sum(Column(Group(sel, Ml2Key, Some(Inpatient)), f))
    requires Get(d, Outpatient, f) == Sum(Column(Group(sel, Ml2Key, Some(Outpatient)), f))
    ensures GetTotal(d, f) == Sum(Column(sel, f))
  {
    Ml2Partition(sel, f);
  }

  lemma Ml2Partition(sel: seq<ViewRow>, f: Field)
    requires forall i :: 0 <= i < |sel| ==> sel[i].ml2 == Some(Inpatient) || sel[i].ml2 == Some(Outpatient)
    ensures Sum(Column(sel, f)) ==
      Sum(Column(Group(sel, Ml2Key, Some(Inpatient)), f)) + Sum(Column(Group(sel, Ml2Key, Some(Outpatient)), f))
  {
    KindsDiffer();
    var key := Ml2Key;
    assert forall i :: 0 <= i < |sel| ==> key(sel[i]) == sel[i].ml2;
    TwoGroupsPartition(sel, key, Some(Inpatient), Some(Outpatient), f);
  }

  /** What `_get` reads from the hospital-wide query: the sum over the records
      of that treatment kind, 0 when there are none. */
  lemma GroupValue(view: seq<ViewRow>, fromYm: int, toYm: int, ml2: string, f: Field)
    ensures Get(HospitalQuery(view, fromYm, toYm), ml2, f) ==
      Sum(Column(Group(HospitalSelection(view, fromYm, toYm), Ml2Key, Some(ml2)), f))
  {
    var sel := HospitalSelection(view, fromYm, toYm);
    var d := GroupBy(sel, Ml2Key, AllFields);
    if Some(ml2) in d {
      assert f in AllFields;
    } else {
      assert forall v :: v in sel ==> Ml2Key(v) != Some(ml2);
      GroupOfAbsentKey(sel, Ml2Key, Some(ml2));
    }
  }

  /** `_bq`: the per-visit average, 0 when there are no visits or no amount. */
  function Bq(amount: real, soLuot: real): (r: real)
    ensures soLuot == 0.0 || amount == 0.0 ==> r == 0.0
    ensures soLuot != 0.0 ==> r * soLuot == amount
  {
    if soLuot == 0.0 || amount == 0.0 then 0.0 else amount / soLuot
  }

  // ---- The row matrix ----

  /** The three column groups, in display order. */
  datatype ColumnGroup = Noi | Ngoai | Tong

  /** What a row shows. */
  datatype Measure =
    | Visits                  // Số lượt
    | Days                    // Số ngày ĐT
    | AvgDays                 // Ngày ĐT TB
    | Amount(f: Field)        // a row of the amounts block
    | PerVisit(f: Field)      // a row of the averages block

  function GroupName(g: ColumnGroup): string
  {
    match g
    case Noi => Inpatient
    case Ngoai => Outpatient
    case Tong => "Tổng"
  }

  /** The value of a row in one period and one column group. Treatment days
      exist only for inpatients: the Outpatient column is 0 and the Total
      column repeats the inpatient value. */
  function Value(d: PeriodData, m: Measure, g: ColumnGroup): real
  {
    match m
    case Visits =>
      if g == Tong then GetTotal(d, SoLuot) else Get(d, GroupName(g), SoLuot)
    case Days =>
      if g == Ngoai then 0.0 else Get(d, Inpatient, SoNgayDtri)
    case AvgDays =>
      if g == Ngoai then 0.0
      else
        var luot := Get(d, Inpatient, SoLuot);
        var ngay := Get(d, Inpatient, SoNgayDtri);
        if luot != 0.0 then ngay / luot else 0.0
    case Amount(f) =>
      if g == Tong then GetTotal(d, f) else Get(d, GroupName(g), f)
    case PerVisit(f) =>
      if g == Tong then Bq(GetTotal(d, f), GetTotal(d, SoLuot))
      else Bq(Get(d, GroupName(g), f), Get(d, GroupName(g), SoLuot))
  }

  /** The Total column of counts and amounts is inpatient plus outpatient. */
  lemma TotalColumnAdds(d: PeriodData, m: Measure)
    requires m.Visits? || m.Amount?
    ensures Value(d, m, Tong) == Value(d, m, Noi) + Value(d, m, Ngoai)
  {
  }

  /** The Total average is the total amount over the total visits, which in
      general differs from the sum of the two groups' averages. */
  lemma TotalAverageIsRatioOfTotals(d: PeriodData, f: Field)
    requires Get(d, Inpatient, SoLuot) >= 0.0 && Get(d, Outpatient, SoLuot) >= 0.0
    requires Get(d, Inpatient, SoLuot) == 0.0 ==> Get(d, Inpatient, f) == 0.0
    requires Get(d, Outpatient, SoLuot) == 0.0 ==> Get(d, Outpatient, f) == 0.0
    ensures Value(d, PerVisit(f), Tong) * GetTotal(d, SoLuot) == GetTotal(d, f)
    ensures GetTotal(d, f) ==
      Value(d, PerVisit(f), Noi) * Get(d, Inpatient, SoLuot) +
      Value(d, PerVisit(f), Ngoai) * Get(d, Outpatient, SoLuot)
  {
    BqWeighted(Get(d, Inpatient, f), Get(d, Outpatient, f), GetTotal(d, f),
               Get(d, Inpatient, SoLuot), Get(d, Outpatient, SoLuot), GetTotal(d, SoLuot),
               Value(d, PerVisit(f), Noi), Value(d, PerVisit(f), Ngoai), Value(d, PerVisit(f), Tong));
  }

  /** The average over two groups is their visit-weighted combination. */
  lemma BqWeighted(a: real, b: real, t: real, la: real, lb: real, lt: real, va: real, vb: real, vt: real)
    requires la >= 0.0 && lb >= 0.0
    requires la == 0.0 ==> a == 0.0
    requires lb == 0.0 ==> b == 0.0
    requires t == a + b && lt == la + lb
    requires va == Bq(a, la) && vb == Bq(b, lb) && vt == Bq(t, lt)
    ensures vt * lt == t
    ensures t == va * la + vb * lb
  {
    if lt == 0.0 {
      assert la == 0.0 && lb == 0.0;
    }
  }

  /** A two-group example where the Total average is not the sum of the
      groups' averages: 100 over 1 visit and 100 over 3 visits. */
  lemma TotalAverageIsNotSumOfAverages()
    ensures var d: PeriodData := map[Some(Inpatient) := map[SoLuot := 1.0, TTongchi := 100.0],
                                     Some(Outpatient) := map[SoLuot := 3.0, TTongchi := 300.0]];
      Value(d, PerVisit(TTongchi), Tong) == 100.0 &&
      Value(d, PerVisit(TTongchi), Noi) + Value(d, PerVisit(TTongchi), Ngoai) == 200.0
  {
    var d: PeriodData := map[Some(Inpatient) := map[SoLuot := 1.0, TTongchi := 100.0],
                             Some(Outpatient) := map[SoLuot := 3.0, TTongchi := 300.0]];
    assert Some(Inpatient) != Some(Outpatient);
    assert Get(d, Inpatient, SoLuot) == 1.0 && Get(d, Inpatient, TTongchi) == 100.0;
    assert Get(d, Outpatient, SoLuot) == 3.0 && Get(d, Outpatient, TTongchi) == 300.0;
  }

  /** The amounts and averages blocks, one row per cost field, in order. */
  const CostFields: seq<(string, Field)> := [
    ("Thuốc", TThuoc), ("Xét nghiệm", TXn), ("CĐHA", TCdha), ("Máu", TMau),
    ("PTTT", TPttt), ("VTYT", TVtyt), ("Tiền khám", TKham), ("Tiền giường", TGiuong),
    ("Tổng chi", TTongchi), ("BHTT", TBhtt), ("BNTT", TBntt)
  ]

  const TotalLabel: string := "Tổng chi"

  /** A row of the matrix: a section heading (no values) or a data row with
      one value per period for each column group. */
  datatype TableRow = TableRow(caption: string, section: bool, totalStyle: bool, values: map<ColumnGroup, seq<real>>)

  /** `[val_fn(pi, g) for pi in range(n)]` */
  function Series(data: seq<PeriodData>, n: nat, m: Measure, g: ColumnGroup): (s: seq<real>)
    requires n <= |data|
    ensures |s| == n && forall pi :: 0 <= pi < n ==> s[pi] == Value(data[pi], m, g)
  {
    seq(n, pi requires 0 <= pi < n => Value(data[pi], m, g))
  }

  /** `_add_row`: the values of a measure for every group and period. */
  function DataRow(data: seq<PeriodData>, n: nat, caption: string, m: Measure, totalStyle: bool): (r: TableRow)
    requires n <= |data|
    ensures !r.section && r.values.Keys == {Noi, Ngoai, Tong}
    ensures forall g :: g in r.values ==>
      |r.values[g]| == n && (forall pi :: 0 <= pi < n ==> r.values[g][pi] == Value(data[pi], m, g))
  {
    var values := map[Noi := Series(data, n, m, Noi), Ngoai := Series(data, n, m, Ngoai), Tong := Series(data, n, m, Tong)];
    TableRow(caption, false, totalStyle, values)
  }

  /** `_add_section` */
  function SectionRow(title: string): TableRow
  {
    TableRow(title, true, false, map[])
  }

  /** Where a data row's value comes from, by its position in the matrix:
      rows 1-3 are the general block, 5-15 the amounts, 17-27 the averages. */
  function MeasureAt(i: nat): Measure
    requires i < 28 && i != 0 && i != 4 && i != 16
  {
    if i == 1 then Visits
    else if i == 2 then Days
    else if i == 3 then AvgDays
    else if i < 16 then Amount(CostFields[i - 5].1)
    else PerVisit(CostFields[i - 17].1)
  }

  function CaptionAt(i: nat): string
    requires i < 28 && i != 0 && i != 4 && i != 16
  {
    if i == 1 then "Số lượt"
    else if i == 2 then "Số ngày ĐT"
    else if i == 3 then "Ngày ĐT TB"
    else if i < 16 then CostFields[i - 5].0
    else CostFields[i - 17].0
  }

  /** The row at a position of the matrix. */
  function RowAt(data: seq<PeriodData>, n: nat, i: nat): TableRow
    requires n <= |data| && i < 28
  {
    if i == 0 then SectionRow("Chung")
    else if i == 4 then SectionRow("Số tiền")
    else if i == 16 then SectionRow("Bình quân")
    else DataRow(data, n, CaptionAt(i), MeasureAt(i), CaptionAt(i) == TotalLabel)
  }

  /** `_build_all_rows`: three section headings, each followed by its rows:
      the general block (3 rows), then one row per cost field for the amounts
      and again for the averages. */
  method BuildAllRows(data: seq<PeriodData>, n: nat) returns (rows: seq<TableRow>)
    requires n <= |data|
    ensures |rows| == 28
    ensures forall i :: 0 <= i < 28 ==> rows[i] == RowAt(data, n, i)
  {
    var head := [SectionRow("Chung"),
                 DataRow(data, n, "Số lượt", Visits, false),
                 DataRow(data, n, "Số ngày ĐT", Days, false),
                 DataRow(data, n, "Ngày ĐT TB", AvgDays, false),
                 SectionRow("Số tiền")];
    var amounts := CostBlock(data, n, false);
    var averages := CostBlock(data, n, true);
    rows := head + amounts + [SectionRow("Bình quân")] + averages;
    HeadRowsAt(data, n);
    BlockRowsAt(data, n, amounts, false);
    BlockRowsAt(data, n, averages, true);
    forall i | 0 <= i < 28
      ensures rows[i] == RowAt(data, n, i)
    {
      BlockIndex(head, amounts, SectionRow("Bình quân"), averages, i);
    }
  }

  /** Where position `i` of `head + a + [mid] + b` comes from. */
  lemma BlockIndex<T>(head: seq<T>, a: seq<T>, mid: T, b: seq<T>, i: nat)
    requires i < |head| + |a| + 1 + |b|
    ensures var s := head + a + [mid] + b;
      if i < |head| then s[i] == head[i]
      else if i < |head| + |a| then s[i] == a[i - |head|]
      else if i == |head| + |a| then s[i] == mid
      else s[i] == b[i - |head| - |a| - 1]
  {
  }

  lemma HeadRowsAt(data: seq<PeriodData>, n: nat)
    requires n <= |data|
    ensures RowAt(data, n, 0) == SectionRow("Chung")
    ensures RowAt(data, n, 1) == DataRow(data, n, "Số lượt", Visits, false)
    ensures RowAt(data, n, 2) == DataRow(data, n, "Số ngày ĐT", Days, false)
    ensures RowAt(data, n, 3) == DataRow(data, n, "Ngày ĐT TB", AvgDays, false)
    ensures RowAt(data, n, 4) == SectionRow("Số tiền")
    ensures RowAt(data, n, 16) == SectionRow("Bình quân")
  {
  }

  lemma BlockRowsAt(data: seq<PeriodData>, n: nat, block: seq<TableRow>, perVisit: bool)
    requires n <= |data|
    requires |block| == |CostFields|
    requires forall i :: 0 <= i < |block| ==>
      block[i] == DataRow(data, n, CostFields[i].0,
                          if perVisit then PerVisit(CostFields[i].1) else Amount(CostFields[i].1),
                          CostFields[i].0 == TotalLabel)
    ensures forall i :: 0 <= i < |block| ==> block[i] == RowAt(data, n, i + if perVisit then 17 else 5)
  {
    forall i | 0 <= i < |block|
      ensures block[i] == RowAt(data, n, i + if perVisit then 17 else 5)
    {
      CostRowAt(data, n, i, perVisit);
    }
  }

  lemma CostRowAt(data: seq<PeriodData>, n: nat, i: nat, perVisit: bool)
    requires n <= |data| && i < |CostFields|
    ensures RowAt(data, n, i + if perVisit then 17 else 5) ==
      DataRow(data, n, CostFields[i].0,
              if perVisit then PerVisit(CostFields[i].1) else Amount(CostFields[i].1),
              CostFields[i].0 == TotalLabel)
  {
  }

  /** The shape of the matrix: section headings carry no values; every other
      row has, for each of the three column groups, one value per period,
      the value its measure gives; only the "Tổng chi" rows are total-styled. */
  lemma RowShape(data: seq<PeriodData>, n: nat, i: nat)
    requires n <= |data| && i < 28
    ensures RowAt(data, n, i).section <==> i == 0 || i == 4 || i == 16
    ensures RowAt(data, n, i).section ==> RowAt(data, n, i).values == map[]
    ensures !RowAt(data, n, i).section ==>
      RowAt(data, n, i).values.Keys == {Noi, Ngoai, Tong} &&
      (RowAt(data, n, i).totalStyle <==> i == 13 || i == 25) &&
      (forall g :: g in RowAt(data, n, i).values ==>
        |RowAt(data, n, i).values[g]| == n &&
        (forall pi :: 0 <= pi < n ==> RowAt(data, n, i).values[g][pi] == Value(data[pi], MeasureAt(i), g)))
  {
    if i != 0 && i != 4 && i != 16 {
      OnlyTongChiIsTotal();
      if i < 4 {
        assert |CaptionAt(i)| != |TotalLabel|;
      }
    }
  }

  /** One block of cost rows: amounts, or per-visit averages. */
  method CostBlock(data: seq<PeriodData>, n: nat, perVisit: bool) returns (block: seq<TableRow>)
    requires n <= |data|
    ensures |block| == |CostFields|
    ensures forall i :: 0 <= i < |block| ==>
      block[i] == DataRow(data, n, CostFields[i].0,
                          if perVisit then PerVisit(CostFields[i].1) else Amount(CostFields[i].1),
                          CostFields[i].0 == TotalLabel)
  {
    block := [];
    var i := 0;
    while i < |CostFields|
      invariant 0 <= i <= |CostFields| && |block| == i
      invariant forall j :: 0 <= j < i ==>
        block[j] == DataRow(data, n, CostFields[j].0,
                            if perVisit then PerVisit(CostFields[j].1) else Amount(CostFields[j].1),
                            CostFields[j].0 == TotalLabel)
    {
      var (name, f) := CostFields[i];
      var m := if perVisit then PerVisit(f) else Amount(f);
      block := block + [DataRow(data, n, name, m, name == TotalLabel)];
      i := i + 1;
    }
  }

  /** Exactly one row of each cost block is total-styled: the ninth. */
  lemma OnlyTongChiIsTotal()
    ensures forall i :: 0 <= i < |CostFields| ==> (CostFields[i].0 == TotalLabel <==> i == 8)
  {
    forall i | 0 <= i < |CostFields|
      ensures CostFields[i].0 == TotalLabel <==> i == 8
    {
      if i != 8 {
        assert |CostFields[i].0| != |TotalLabel|;
      }
    }
  }

  /** The Outpatient column of the treatment-days rows is 0 and their Total
      column is the inpatient value. */
  lemma DaysRowsAreInpatientOnly(d: PeriodData, m: Measure)
    requires m.Days? || m.AvgDays?
    ensures Value(d, m, Ngoai) == 0.0
    ensures Value(d, m, Tong) == Value(d, m, Noi)
  {
  }

  // ---- First against last ----

  /** `_fmt_diff` of this page: a dash when either end is None or there is
      no difference; NaN counts as 0. */
  function FmtDiff(first: Cell, last: Cell): (r: Shown)
    ensures r.Dash? <==> first.Null? || last.Null? || DiffRaw(first, last) == 0.0
    ensures r.Signed? ==> r.x == DiffRaw(first, last) && (r.plus <==> r.x > 0.0)
    ensures !r.Blank?
  {
    if first.Null? || last.Null? then Dash
    else
      var f := if first.NaN? then 0.0 else first.x;
      var l := if last.NaN? then 0.0 else last.x;
      var diff := l - f;
      if diff == 0.0 then Dash else Signed(diff > 0.0, diff)
  }

  /** `_diff_raw` of this page: None and NaN count as 0. */
  function DiffRaw(first: Cell, last: Cell): real
  {
    (if last.Num? then last.x else 0.0) - (if first.Num? then first.x else 0.0)
  }

  lemma DiffRawAntisymmetric(a: Cell, b: Cell)
    ensures DiffRaw(a, b) == -DiffRaw(b, a)
  {
  }

  /** `_pct_change_text` (the matrix values are numbers): empty when either end
      is 0; otherwise the change in percent, "+" only when positive. */
  function PctChangeText(first: real, last: real): (r: Shown)
    ensures r.Blank? <==> first == 0.0 || last == 0.0
    ensures r.Signed? ==> (r.plus <==> r.x > 0.0) && first * (1.0 + r.x / 100.0) == last
    ensures !r.Dash?
  {
    if first == 0.0 || last == 0.0 then Blank
    else
      var pct := (last / first - 1.0) * 100.0;
      assert pct / 100.0 == last / first - 1.0;
      assert first * (last / first) == last;
      Signed(pct > 0.0, pct)
  }

  /** `_fmt_pct_change` of this page: the same change as the text version,
      with a dash instead of the empty text. */
  function FmtPctChange(first: real, last: real): (r: Shown)
    ensures r.Dash? <==> PctChangeText(first, last).Blank?
    ensures r.Signed? ==> r == PctChangeText(first, last)
  {
    if first == 0.0 || last == 0.0 then Dash
    else
      var pct := (last / first - 1.0) * 100.0;
      Signed(pct > 0.0, pct)
  }
}
