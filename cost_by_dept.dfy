/** The per-department comparison page: each period's aggregated rows are
    arranged by treatment kind and department, the departments are ordered,
    each cell shows a sum, a per-visit average or a ratio, the first and the
    last period are compared, and subtotals per treatment kind and a grand
    total close the table. */
module CostByDept {
  import opened Common
  import opened Text
  import opened Aggregate
  import Enrich

  // ---- Rounding and the zero-guarded cells ----

  /** Python's `round(x)`: to the nearest integer, halves to the even one. */
  function RoundHalfEven(x: real): (r: int)
    ensures -0.5 <= r as real - x <= 0.5
    ensures r as real - x == 0.5 || r as real - x == -0.5 ==> r % 2 == 0
  {
    var f := x.Floor;
    var d := x - f as real;
    if d < 0.5 then f
    else if d > 0.5 then f + 1
    else if f % 2 == 0 then f
    else f + 1
  }

  /** The per-visit average cell: blank without visits or without an amount,
      otherwise the rounded quotient. A NaN visit count is not modelled. */
  function CalcBq(amount: Cell, soLuot: Option<real>): (r: Option<int>)
    ensures r.Some? <==> soLuot.Some? && soLuot.value != 0.0 && amount.Num? && amount.x != 0.0
    ensures r.Some? ==> r.value == RoundHalfEven(amount.x / soLuot.value)
    ensures r.Some? ==> -0.5 <= r.value as real - amount.x / soLuot.value <= 0.5
  {
    if soLuot.None? || soLuot.value == 0.0 then None
    else if !amount.Num? || amount.x == 0.0 then None
    else Some(RoundHalfEven(amount.x / soLuot.value))
  }

  datatype RatioFormat = Pct | Dec

  /** A ratio cell as shown: blank, a percentage (followed by "%") or a plain
      number. */
  datatype RatioText = NoRatio | Percent(x: real) | Plain(x: real)

  /** The ratio cell: blank without a denominator or without a numerator. */
  function CalcRatio(num: Cell, den: Option<real>, fmt: RatioFormat): (r: RatioText)
    ensures r.NoRatio? <==> den.None? || den.value == 0.0 || !num.Num? || num.x == 0.0
    ensures r.Percent? ==> fmt == Pct && den.Some? && num.Num? && r.x * den.value == num.x * 100.0
    ensures r.Plain? ==> fmt == Dec && den.Some? && num.Num? && r.x * den.value == num.x
  {
    if den.None? || den.value == 0.0 then NoRatio
    else if !num.Num? || num.x == 0.0 then NoRatio
    else
      var v := num.x / den.value;
      assert v * den.value == num.x;
      assert (v * 100.0) * den.value == (v * den.value) * 100.0 == num.x * 100.0;
      match fmt
      case Pct => Percent(v * 100.0)
      case Dec => Plain(v)
  }

  /** `_fmt_number`: a zero, None or NaN value is shown blank. */
  function FmtNumber(v: Cell): (r: Option<real>)
    ensures r.Some? <==> v.Num? && v.x != 0.0
    ensures r.Some? ==> r.value == v.x
  {
    if v.Num? && v.x != 0.0 then Some(v.x) else None
  }

  // ---- Columns ----

  /** A table column: a summed metric, a per-visit average of a metric, or a
      ratio of two metrics; `noiOnly` marks an inpatient-only header. */
  datatype Column =
    | Metric(name: string, field: Field, noiOnly: bool)
    | Bq(name: string, field: Field, noiOnly: bool)
    | Ratio(name: string, num: Field, den: Field, noiOnly: bool, fmt: RatioFormat)

  /** The metrics in table order, the order `_sum_rows` visits them. */
  const MetricFields: seq<Field> :=
    [SoLuot, SoNgayDtri, TTongchi, TXn, TCdha, TThuoc, TMau, TPttt, TVtyt, TKham, TGiuong, TBhtt, TBntt]

  /** Display names of the metrics. */
  function MetricName(f: Field): string
  {
    match f
    case SoLuot => "Số lượt KCB"
    case SoNgayDtri => "Số ngày điều trị"
    case TTongchi => "Tổng chi"
    case TXn => "Xét nghiệm"
    case TCdha => "CĐHA"
    case TThuoc => "Thuốc"
    case TMau => "Máu"
    case TPttt => "PTTT"
    case TVtyt => "VTYT"
    case TKham => "Tiền khám"
    case TGiuong => "Tiền giường"
    case TBhtt => "Tiền BHTT"
    case TBntt => "Tiền BNTT"
  }

  /** Only the treatment days are an inpatient-only metric. */
  function NoiOnly(f: Field): bool
  {
    f == SoNgayDtri
  }

  /** The metric columns, one per metric in table order. */
  function MetricColumns(fields: seq<Field>): (r: seq<Column>)
    ensures |r| == |fields|
    ensures forall i :: 0 <= i < |r| ==> r[i] == Metric(MetricName(fields[i]), fields[i], NoiOnly(fields[i]))
  {
    if fields == [] then []
    else [Metric(MetricName(fields[0]), fields[0], NoiOnly(fields[0]))] + MetricColumns(fields[1..])
  }

  predicate HasAverage(f: Field)
  {
    f != SoLuot && f != SoNgayDtri
  }

  /** The metrics that get an average column: all but the count and the
      treatment days, in table order. */
  function AverageFields(fields: seq<Field>): (r: seq<Field>)
    ensures forall g :: g in r <==> g in fields && HasAverage(g)
  {
    if fields == [] then []
    else (if HasAverage(fields[0]) then [fields[0]] else []) + AverageFields(fields[1..])
  }

  /** The average columns, named "BQ " + the metric's name. */
  function BqMetrics(fields: seq<Field>): (r: seq<Column>)
    ensures |r| == |AverageFields(fields)|
    ensures forall i :: 0 <= i < |r| ==>
      r[i] == Bq("BQ " + MetricName(AverageFields(fields)[i]), AverageFields(fields)[i], NoiOnly(AverageFields(fields)[i]))
  {
    var af := AverageFields(fields);
    seq(|af|, i requires 0 <= i < |af| => Bq("BQ " + MetricName(af[i]), af[i], NoiOnly(af[i])))
  }

  const RatioMetrics: seq<Column> := [
    Ratio("Ngày ĐTTB", SoNgayDtri, SoLuot, true, Dec),
    Ratio("Tỷ lệ thuốc/tổng chi", TThuoc, TTongchi, false, Pct)
  ]

  /** The columns a metric table gives when no profile is chosen: metrics,
      then averages, then ratios. */
  function DefaultColumnsFor(fields: seq<Field>): seq<Column>
  {
    MetricColumns(fields) + BqMetrics(fields) + RatioMetrics
  }

  /** The columns shown without a profile. */
  function DefaultColumns(): seq<Column>
  {
    DefaultColumnsFor(MetricFields)
  }

  /** The key a profile uses for a metric. */
  function FieldKey(f: Field): string
  {
    match f
    case SoLuot => "so_luot"
    case SoNgayDtri => "so_ngay_dtri"
    case TTongchi => "t_tongchi"
    case TXn => "t_xn"
    case TCdha => "t_cdha"
    case TThuoc => "t_thuoc"
    case TMau => "t_mau"
    case TPttt => "t_pttt"
    case TVtyt => "t_vtyt"
    case TKham => "t_kham"
    case TGiuong => "t_giuong"
    case TBhtt => "t_bhtt"
    case TBntt => "t_bntt"
  }

  /** The keys the three lookup tables know: a metric, the average of a
      metric other than the count and the treatment days, or one of the two
      ratios. */
  datatype ProfileKey = MetricKey(f: Field) | BqKey(f: Field) | DaysPerVisitKey | DrugShareKey

  /** A profile's key as written in its configuration. */
  function KeyText(k: ProfileKey): string
  {
    match k
    case MetricKey(f) => FieldKey(f)
    case BqKey(f) => "bq_" + FieldKey(f)
    case DaysPerVisitKey => "ngay_dttb"
    case DrugShareKey => "tl_thuoc_tongchi"
  }

  /** The first metric of `fields` whose key is `s`. */
  function FindField(s: string, fields: seq<Field>): (r: Option<Field>)
    ensures r.Some? ==> r.value in fields && FieldKey(r.value) == s
    ensures r.None? ==> forall g :: g in fields ==> FieldKey(g) != s
  {
    if fields == [] then None
    else if FieldKey(fields[0]) == s then Some(fields[0])
    else FindField(s, fields[1..])
  }

  /** The metric a key names in the metric table. */
  function FieldOfKey(s: string): (r: Option<Field>)
    ensures r.Some? ==> FieldKey(r.value) == s
  {
    FindField(s, MetricFields)
  }

  /** Which table entry a key names, trying the metric table, then the average
      table, then the ratio table. */
  function ParseKey(s: string): (r: Option<ProfileKey>)
    ensures r.Some? ==> KeyText(r.value) == s
    ensures r.Some? && r.value.BqKey? ==> HasAverage(r.value.f)
  {
    var metric := FieldOfKey(s);
    var average := if |s| >= 3 && s[..3] == "bq_" then FieldOfKey(s[3..]) else None;
    if metric.Some? then Some(MetricKey(metric.value))
    else if average.Some? && HasAverage(average.value) then
      assert s == s[..3] + s[3..];
      Some(BqKey(average.value))
    else if s == "ngay_dttb" then Some(DaysPerVisitKey)
    else if s == "tl_thuoc_tongchi" then Some(DrugShareKey)
    else None
  }

  /** Every metric key starts with "s" or "t". */
  lemma FieldKeyStart(f: Field)
    ensures FieldKey(f)[0] == 's' || FieldKey(f)[0] == 't'
    ensures FieldKey(f)[1] != 'l'
  {
  }

  /** No two metrics share a key. */
  lemma FieldKeyInjective(f: Field, g: Field)
    ensures FieldKey(f) == FieldKey(g) ==> f == g
  {
    if FieldKey(f) == FieldKey(g) {
      assert |FieldKey(f)| == |FieldKey(g)|;
      assert FieldKey(f)[2] == FieldKey(g)[2] && FieldKey(f)[3] == FieldKey(g)[3];
    }
  }

  lemma FieldOfKeyRoundTrip(f: Field)
    ensures FieldOfKey(FieldKey(f)) == Some(f)
  {
    MetricFieldsAreAllFields();
    assert f in MetricFields;
    var r := FieldOfKey(FieldKey(f));
    if r.Some? {
      FieldKeyInjective(r.value, f);
    }
  }

  /** A key that does not start with "s" or "t" names no metric. */
  lemma FieldOfOtherKey(s: string)
    requires s != [] && s[0] != 's' && s[0] != 't'
    ensures FieldOfKey(s).None?
  {
    if FieldOfKey(s).Some? {
      FieldKeyStart(FieldOfKey(s).value);
    }
  }

  /** Every key of the lookup tables is read back as itself. */
  lemma ParseKeyRoundTrip(k: ProfileKey)
    requires k.BqKey? ==> HasAverage(k.f)
    ensures ParseKey(KeyText(k)) == Some(k)
  {
    var s := KeyText(k);
    match k
    case MetricKey(f) =>
      FieldOfKeyRoundTrip(f);
    case BqKey(f) =>
      FieldOfKeyRoundTrip(f);
      assert s[..3] == "bq_" && s[3..] == FieldKey(f);
      FieldOfOtherKey(s);
    case DaysPerVisitKey =>
      FieldOfOtherKey(s);
    case DrugShareKey =>
      assert s[0] == 't' && s[1] == 'l';
      if FieldOfKey(s).Some? {
        FieldKeyStart(FieldOfKey(s).value);
      }
  }

  /** The name an average column gets when chosen through a profile. */
  function BqLookupName(f: Field): string
  {
    match f
    case TBhtt => "BQ BHTT"
    case TBntt => "BQ BNTT"
    case _ => "BQ " + MetricName(f)
  }

  /** The table entry for a key. */
  function KeyColumn(k: ProfileKey): Column
  {
    match k
    case MetricKey(f) => Metric(MetricName(f), f, NoiOnly(f))
    case BqKey(f) => Bq(BqLookupName(f), f, false)
    case DaysPerVisitKey => RatioMetrics[0]
    case DrugShareKey => RatioMetrics[1]
  }

  /** A profile key resolved against the lookup tables; None for an unknown key. */
  function LookupColumn(key: string): (r: Option<Column>)
    ensures r.Some? <==> ParseKey(key).Some?
  {
    var k := ParseKey(key);
    if k.Some? then Some(KeyColumn(k.value)) else None
  }

  /** A column without its display name. */
  function Unnamed(c: Column): Column
  {
    match c
    case Metric(_, f, n) => Metric("", f, n)
    case Bq(_, f, n) => Bq("", f, n)
    case Ratio(_, a, b, n, fmt) => Ratio("", a, b, n, fmt)
  }

  /** The keys that select, through a profile, the default columns of a
      metric table, in their order. */
  function DefaultKeysFor(fields: seq<Field>): seq<ProfileKey>
  {
    var af := AverageFields(fields);
    seq(|fields|, i requires 0 <= i < |fields| => MetricKey(fields[i])) +
    seq(|af|, i requires 0 <= i < |af| => BqKey(af[i])) +
    [DaysPerVisitKey, DrugShareKey]
  }

  /** A profile listing those keys selects the default columns, except for
      the names of the BHTT and BNTT averages ("BQ Tiền BHTT" by default,
      "BQ BHTT" through a profile). */
  lemma DefaultColumnsMatchLookup(fields: seq<Field>)
    ensures |DefaultColumnsFor(fields)| == |DefaultKeysFor(fields)|
    ensures forall i :: 0 <= i < |DefaultKeysFor(fields)| ==>
      ParseKey(KeyText(DefaultKeysFor(fields)[i])) == Some(DefaultKeysFor(fields)[i]) &&
      Unnamed(KeyColumn(DefaultKeysFor(fields)[i])) == Unnamed(DefaultColumnsFor(fields)[i]) &&
      (KeyColumn(DefaultKeysFor(fields)[i]) == DefaultColumnsFor(fields)[i] <==>
       DefaultKeysFor(fields)[i] != BqKey(TBhtt) && DefaultKeysFor(fields)[i] != BqKey(TBntt))
  {
    var af := AverageFields(fields);
    var d, k := DefaultColumnsFor(fields), DefaultKeysFor(fields);
    var n := |fields|;
    forall i | 0 <= i < |k|
      ensures ParseKey(KeyText(k[i])) == Some(k[i])
      ensures Unnamed(KeyColumn(k[i])) == Unnamed(d[i])
      ensures KeyColumn(k[i]) == d[i] <==> k[i] != BqKey(TBhtt) && k[i] != BqKey(TBntt)
    {
      if i < n {
        assert k[i] == MetricKey(fields[i]) && d[i] == MetricColumns(fields)[i];
      } else if i < n + |af| {
        var g := af[i - n];
        assert g in af;
        assert k[i] == BqKey(g) && d[i] == BqMetrics(fields)[i - n];
        if g == TBhtt || g == TBntt {
          assert |KeyColumn(k[i]).name| != |d[i].name|;
        }
      } else {
        assert k[i] == [DaysPerVisitKey, DrugShareKey][i - n - |af|];
        assert d[i] == RatioMetrics[i - n - |af|];
      }
      ParseKeyRoundTrip(k[i]);
    }
  }

  /** Every metric with an average has its average key in the list. */
  lemma DefaultKeysHaveAverages(fields: seq<Field>, g: Field)
    requires g in fields && HasAverage(g)
    ensures BqKey(g) in DefaultKeysFor(fields)
  {
    var af := AverageFields(fields);
    var j :| 0 <= j < |af| && af[j] == g;
    assert DefaultKeysFor(fields)[|fields| + j] == BqKey(g);
  }

  /** One item of a profile's configuration, in the profile's order. */
  datatype ConfigItem = ConfigItem(metricKey: string, visible: bool)

  /** The columns a configuration selects: visible items with a known key,
      resolved and kept in configuration order. */
  function SelectedColumns(config: seq<ConfigItem>): seq<Column>
  {
    if config == [] then []
    else
      var item := config[0];
      (if item.visible && LookupColumn(item.metricKey).Some? then [LookupColumn(item.metricKey).value] else []) +
      SelectedColumns(config[1..])
  }

  /** `_get_active_columns`: no profile, or a profile without configuration,
      gives the default list; otherwise the configuration decides. The loaded
      configuration is a parameter. */
  method GetActiveColumns(profile: Option<seq<ConfigItem>>) returns (columns: seq<Column>)
    ensures profile.None? || profile.value == [] ==> columns == DefaultColumns()
    ensures profile.Some? && profile.value != [] ==> columns == SelectedColumns(profile.value)
  {
    if profile.None? {
      return DefaultColumns();
    }
    if profile.value == [] {
      return DefaultColumns();
    }
    columns := SelectColumns(profile.value);
  }

  /** The loop of `_get_active_columns` over a non-empty configuration. */
  method SelectColumns(config: seq<ConfigItem>) returns (columns: seq<Column>)
    ensures columns == SelectedColumns(config)
  {
    columns := [];
    var i := 0;
    while i < |config|
      invariant 0 <= i <= |config|
      invariant columns + SelectedColumns(config[i..]) == SelectedColumns(config)
    {
      var item := config[i];
      assert config[i..][0] == item && config[i..][1..] == config[i + 1..];
      ghost var rest := SelectedColumns(config[i + 1..]);
      if item.visible {
        var column := LookupColumn(item.metricKey);
        if column.Some? {
          assert SelectedColumns(config[i..]) == [column.value] + rest;
          columns := columns + [column.value];
        } else {
          assert SelectedColumns(config[i..]) == rest;
        }
      } else {
        assert SelectedColumns(config[i..]) == rest;
      }
      i := i + 1;
    }
    assert config[i..] == [];
  }

  /** The selection follows configuration order: selecting from two pieces of
      a configuration concatenates the two selections. */
  lemma {:induction false} SelectedColumnsAppend(a: seq<ConfigItem>, b: seq<ConfigItem>)
    ensures SelectedColumns(a + b) == SelectedColumns(a) + SelectedColumns(b)
  {
    if a == [] {
      assert a + b == b;
    } else {
      assert (a + b)[0] == a[0];
      assert (a + b)[1..] == a[1..] + b;
      SelectedColumnsAppend(a[1..], b);
    }
  }

  /** Hidden items and unknown keys are dropped; every other item gives
      exactly its column. */
  lemma SelectedColumnsOfOne(item: ConfigItem)
    ensures !item.visible || LookupColumn(item.metricKey).None? ==> SelectedColumns([item]) == []
    ensures item.visible && LookupColumn(item.metricKey).Some? ==>
      SelectedColumns([item]) == [LookupColumn(item.metricKey).value]
  {
    assert [item][1..] == [];
  }

  /** Every selected column comes from a visible item of the configuration. */
  lemma {:induction false} SelectedColumnsFromVisible(config: seq<ConfigItem>, c: Column)
    requires c in SelectedColumns(config)
    ensures exists i :: 0 <= i < |config| && config[i].visible && LookupColumn(config[i].metricKey) == Some(c)
  {
    var item := config[0];
    if item.visible && LookupColumn(item.metricKey).Some? && c == LookupColumn(item.metricKey).value {
      assert config[0].visible;
    } else {
      SelectedColumnsFromVisible(config[1..], c);
      var i :| 0 <= i < |config[1..]| && config[1..][i].visible && LookupColumn(config[1..][i].metricKey) == Some(c);
      assert config[i + 1] == config[1..][i];
    }
  }

  // ---- Raw values, differences and changes ----

  /** The number behind a column for one period's row of a department (None
      when the department has no row in that period): the metric itself, or
      the unrounded average or ratio, 0 where the divisor is 0. */
  function GetColRawValue(col: Column, pdRow: Option<Row>): real
  {
    if pdRow.None? then 0.0
    else
      var row := pdRow.value;
      match col
      case Metric(_, f, _) => Get0(row, f)
      case Bq(_, f, _) =>
        var amount := Get0(row, f);
        var soLuot := Get0(row, SoLuot);
        if soLuot == 0.0 then 0.0 else amount / soLuot
      case Ratio(_, n, d, _, _) =>
        var num := Get0(row, n);
        var den := Get0(row, d);
        if den == 0.0 then 0.0 else num / den
  }

  /** The comparison columns use the unrounded value of the shown average: the
      cell is blank exactly when that value is 0, and otherwise shows it
      rounded. */
  lemma BqCellAgreesWithRawValue(name: string, f: Field, noiOnly: bool, row: Row)
    ensures CalcBq(Num(Get0(row, f)), Some(Get0(row, SoLuot))).None? <==>
      GetColRawValue(Bq(name, f, noiOnly), Some(row)) == 0.0
    ensures CalcBq(Num(Get0(row, f)), Some(Get0(row, SoLuot))).Some? ==>
      -0.5 <= CalcBq(Num(Get0(row, f)), Some(Get0(row, SoLuot))).value as real
              - GetColRawValue(Bq(name, f, noiOnly), Some(row)) <= 0.5
  {
    var amount, soLuot := Get0(row, f), Get0(row, SoLuot);
    if soLuot != 0.0 && amount != 0.0 {
      assert amount / soLuot != 0.0;
    }
  }

  /** Likewise for ratio cells: blank exactly when the ratio is 0, otherwise
      the ratio (times 100 for a percentage). */
  lemma RatioCellAgreesWithRawValue(name: string, n: Field, d: Field, noiOnly: bool, fmt: RatioFormat, row: Row)
    ensures CalcRatio(Num(Get0(row, n)), Some(Get0(row, d)), fmt).NoRatio? <==>
      GetColRawValue(Ratio(name, n, d, noiOnly, fmt), Some(row)) == 0.0
    ensures CalcRatio(Num(Get0(row, n)), Some(Get0(row, d)), fmt).Percent? ==>
      CalcRatio(Num(Get0(row, n)), Some(Get0(row, d)), fmt).x ==
      GetColRawValue(Ratio(name, n, d, noiOnly, fmt), Some(row)) * 100.0
    ensures CalcRatio(Num(Get0(row, n)), Some(Get0(row, d)), fmt).Plain? ==>
      CalcRatio(Num(Get0(row, n)), Some(Get0(row, d)), fmt).x ==
      GetColRawValue(Ratio(name, n, d, noiOnly, fmt), Some(row))
  {
    var num, den := Get0(row, n), Get0(row, d);
    if den != 0.0 && num != 0.0 {
      assert num / den != 0.0;
    }
  }

  /** `_diff_raw`: last minus first, a missing value read as 0. */
  function DiffRaw(first: Option<real>, last: Option<real>): real
  {
    (if last.Some? then last.value else 0.0) - (if first.Some? then first.value else 0.0)
  }

  lemma DiffRawAntisymmetric(a: Option<real>, b: Option<real>)
    ensures DiffRaw(a, b) == -DiffRaw(b, a)
  {
  }

  /** `_fmt_diff`: a dash for no difference, otherwise the difference, with a
      "+" exactly when it is positive. */
  function FmtDiff(first: Option<real>, last: Option<real>): (r: Shown)
    ensures r.Dash? || r.Signed?
  {
    var f := if first.Some? then first.value else 0.0;
    var l := if last.Some? then last.value else 0.0;
    var diff := l - f;
    if diff == 0.0 then Dash
    else Signed(diff > 0.0, diff)
  }

  /** The shown difference is the exported one. */
  lemma FmtDiffShowsDiffRaw(first: Option<real>, last: Option<real>)
    ensures FmtDiff(first, last).Dash? <==> DiffRaw(first, last) == 0.0
    ensures FmtDiff(first, last).Signed? ==>
      FmtDiff(first, last).x == DiffRaw(first, last) &&
      (FmtDiff(first, last).plus <==> DiffRaw(first, last) > 0.0)
  {
  }

  /** `_fmt_pct_change`: blank when either end is 0 or missing; otherwise the
      change from first to last in percent, "+" only when it is positive. */
  function FmtPctChange(first: Option<real>, last: Option<real>): (r: Shown)
    ensures r.Blank? <==> first.None? || first.value == 0.0 || last.None? || last.value == 0.0
    ensures r.Signed? ==> (r.plus <==> r.x > 0.0)
    ensures !r.Dash?
  {
    if first.None? || first.value == 0.0 then Blank
    else if last.None? || last.value == 0.0 then Blank
    else
      var pct := (last.value / first.value - 1.0) * 100.0;
      Signed(pct > 0.0, pct)
  }

  /** Applying the shown change to the first value gives back the last; for a
      positive first value, the change is positive exactly when the value
      grew. */
  lemma FmtPctChangeInverse(first: real, last: real)
    requires first != 0.0 && last != 0.0
    ensures FmtPctChange(Some(first), Some(last)).Signed?
    ensures first * (1.0 + FmtPctChange(Some(first), Some(last)).x / 100.0) == last
    ensures first > 0.0 ==> (FmtPctChange(Some(first), Some(last)).plus <==> last > first)
  {
    var pct := (last / first - 1.0) * 100.0;
    assert pct / 100.0 == last / first - 1.0;
    assert first * (last / first) == last;
    if first > 0.0 {
      assert last / first > 1.0 <==> last > first;
    }
  }

  // ---- Arranging the rows ----

  /** One aggregated row of a period: treatment kind, department, values. */
  datatype DeptRow = DeptRow(ml2: Option<string>, khoa: string, values: Row)


  /** The treatment kinds the table has sections for. */
  predicate KnownSection(ml2: string)
  {
    ml2 == Enrich.Outpatient || ml2 == Enrich.Inpatient
  }

  /** The row a period has for a department of a section: the last matching
      row, or None. */
  function LastMatch(rows: seq<DeptRow>, ml2: string, khoa: string): Option<Row>
  {
    if rows == [] then None
    else
      var r := rows[|rows| - 1];
      if r.ml2 == Some(ml2) && r.khoa == khoa then Some(r.values)
      else LastMatch(rows[..|rows| - 1], ml2, khoa)
  }

  /** Reading one more row: it is the last match when it matches. */
  lemma LastMatchSnoc(rows: seq<DeptRow>, j: nat, ml2: string, khoa: string)
    requires j < |rows|
    ensures LastMatch(rows[..j + 1], ml2, khoa) ==
      (if rows[j].ml2 == Some(ml2) && rows[j].khoa == khoa then Some(rows[j].values)
       else LastMatch(rows[..j], ml2, khoa))
  {
    var p := rows[..j + 1];
    assert p[|p| - 1] == rows[j];
    assert p[..|p| - 1] == rows[..j];
  }

  /** The grouping loop: for every (section, department) that occurs in some
      period, one slot per period holding that period's row or None. Rows of
      an unknown treatment kind are skipped. */
  method GroupDepartments(periods: seq<seq<DeptRow>>) returns (groups: map<(string, string), seq<Option<Row>>>)
    ensures forall key :: key in groups <==>
      KnownSection(key.0) && exists pi :: 0 <= pi < |periods| && LastMatch(periods[pi], key.0, key.1).Some?
    ensures forall key :: key in groups ==>
      |groups[key]| == |periods| &&
      forall pi :: 0 <= pi < |periods| ==> groups[key][pi] == LastMatch(periods[pi], key.0, key.1)
  {
    groups := map[];
    var n := |periods|;
    var pi := 0;
    while pi < n
      invariant 0 <= pi <= n
      invariant forall key :: key in groups <==>
        KnownSection(key.0) && exists q :: 0 <= q < pi && LastMatch(periods[q], key.0, key.1).Some?
      invariant forall key :: key in groups ==>
        |groups[key]| == n &&
        (forall q :: 0 <= q < pi ==> groups[key][q] == LastMatch(periods[q], key.0, key.1)) &&
        (forall q :: pi <= q < n ==> groups[key][q].None?)
    {
      groups := AddPeriodRows(groups, periods[pi], pi, n);
      pi := pi + 1;
    }
  }

  /** One period's pass of the grouping loop: every row of a known section
      fills the period's slot of its department, adding the department with
      all slots empty when it is new; a later row overwrites an earlier one. */
  method AddPeriodRows(groups0: map<(string, string), seq<Option<Row>>>, rows: seq<DeptRow>, pi: nat, n: nat)
    returns (groups: map<(string, string), seq<Option<Row>>>)
    requires pi < n
    requires forall key :: key in groups0 ==> KnownSection(key.0) && |groups0[key]| == n && groups0[key][pi].None?
    ensures forall key :: key in groups <==>
      key in groups0 || (KnownSection(key.0) && LastMatch(rows, key.0, key.1).Some?)
    ensures forall key :: key in groups ==>
      |groups[key]| == n && groups[key][pi] == LastMatch(rows, key.0, key.1) &&
      forall q :: 0 <= q < n && q != pi ==> groups[key][q] == (if key in groups0 then groups0[key][q] else None)
  {
    groups := groups0;
    var j := 0;
    while j < |rows|
      invariant 0 <= j <= |rows|
      invariant forall key :: key in groups <==>
        key in groups0 || (KnownSection(key.0) && LastMatch(rows[..j], key.0, key.1).Some?)
      invariant forall key :: key in groups ==>
        |groups[key]| == n && groups[key][pi] == LastMatch(rows[..j], key.0, key.1) &&
        forall q :: 0 <= q < n && q != pi ==> groups[key][q] == (if key in groups0 then groups0[key][q] else None)
    {
      var row := rows[j];
      forall ml2, khoa
        ensures LastMatch(rows[..j + 1], ml2, khoa) ==
          (if row.ml2 == Some(ml2) && row.khoa == khoa then Some(row.values) else LastMatch(rows[..j], ml2, khoa))
      {
        LastMatchSnoc(rows, j, ml2, khoa);
      }
      if row.ml2.Some? && KnownSection(row.ml2.value) {
        var key := (row.ml2.value, row.khoa);
        var slots := if key in groups then groups[key] else seq(n, _ => None);
        groups := groups[key := slots[pi := Some(row.values)]];
      }
      j := j + 1;
    }
    assert rows[..j] == rows;
  }

  // ---- Ordering the departments ----

  /** `_sort_key`: departments with a configured position first, by position,
      then the others; the name breaks ties. */
  datatype SortKey = SortKey(unordered: bool, position: int, name: string)

  function KeyOf(khoa: string, order: map<string, int>): SortKey
  {
    if khoa in order then SortKey(false, order[khoa], khoa) else SortKey(true, 0, khoa)
  }

  predicate KeyLess(a: SortKey, b: SortKey)
  {
    (!a.unordered && b.unordered) ||
    (a.unordered == b.unordered &&
      (a.position < b.position || (a.position == b.position && StrLt(a.name, b.name))))
  }

  predicate Before(a: string, b: string, order: map<string, int>)
  {
    KeyLess(KeyOf(a, order), KeyOf(b, order))
  }

  /** Departments with a position come before those without; two positioned
      departments follow their positions. */
  lemma BeforeRespectsPositions(a: string, b: string, order: map<string, int>)
    ensures a in order && b !in order ==> Before(a, b, order)
    ensures a in order && b in order && order[a] < order[b] ==> Before(a, b, order)
    ensures a !in order && b !in order ==> (Before(a, b, order) <==> StrLt(a, b))
  {
  }

  /** The key order is a strict total order on department names, so the sorted
      table is fully determined. */
  lemma BeforeIsStrictTotalOrder(a: string, b: string, c: string, order: map<string, int>)
    ensures !Before(a, a, order)
    ensures a != b ==> Before(a, b, order) || Before(b, a, order)
    ensures Before(a, b, order) && Before(b, c, order) ==> Before(a, c, order)
  {
    StrLtIrreflexive(a);
    if a != b {
      StrLtTotal(a, b);
    }
    if Before(a, b, order) && Before(b, c, order) && StrLt(a, b) && StrLt(b, c) {
      StrLtTransitive(a, b, c);
    }
  }

  function Insert(x: string, s: seq<string>, order: map<string, int>): (r: seq<string>)
    ensures multiset(r) == multiset(s) + multiset{x}
    ensures |r| == |s| + 1
  {
    if s == [] then [x]
    else if Before(x, s[0], order) then [x] + s
    else
      assert s == [s[0]] + s[1..];
      [s[0]] + Insert(x, s[1..], order)
  }

  /** The departments of a section in table order. */
  function SortDepartments(names: seq<string>, order: map<string, int>): (r: seq<string>)
    ensures multiset(r) == multiset(names)
  {
    if names == [] then []
    else
      assert names == [names[0]] + names[1..];
      Insert(names[0], SortDepartments(names[1..], order), order)
  }

  predicate SortedBy(s: seq<string>, order: map<string, int>)
  {
    forall i, j :: 0 <= i < j < |s| ==> Before(s[i], s[j], order)
  }

  /** Putting in front an element that comes before the head keeps the order. */
  lemma InsertFront(x: string, s: seq<string>, order: map<string, int>)
    requires SortedBy(s, order) && s != [] && Before(x, s[0], order)
    ensures SortedBy([x] + s, order)
  {
    var r := [x] + s;
    forall i, j | 0 <= i < j < |r|
      ensures Before(r[i], r[j], order)
    {
      if i == 0 && j > 1 {
        BeforeIsStrictTotalOrder(x, s[0], s[j - 1], order);
      } else if i > 0 {
        assert r[i] == s[i - 1] && r[j] == s[j - 1];
      }
    }
  }

  lemma {:induction false} InsertSorted(x: string, s: seq<string>, order: map<string, int>)
    requires SortedBy(s, order) && x !in s
    ensures SortedBy(Insert(x, s, order), order)
  {
    if s == [] {
    } else if Before(x, s[0], order) {
      InsertFront(x, s, order);
    } else {
      var t := Insert(x, s[1..], order);
      InsertSorted(x, s[1..], order);
      BeforeIsStrictTotalOrder(x, s[0], x, order);
      assert Before(s[0], x, order);
      forall y | y in t
        ensures Before(s[0], y, order)
      {
        assert y in multiset(t);
        if y != x {
          assert y in multiset(s[1..]);
          assert y in s[1..];
        }
      }
      assert Insert(x, s, order) == [s[0]] + t;
    }
  }

  /** Sorting distinct department names yields them strictly in key order. */
  lemma {:induction false} SortDepartmentsSorted(names: seq<string>, order: map<string, int>)
    requires forall i, j :: 0 <= i < j < |names| ==> names[i] != names[j]
    ensures SortedBy(SortDepartments(names, order), order)
  {
    if names != [] {
      SortDepartmentsSorted(names[1..], order);
      var rest := SortDepartments(names[1..], order);
      assert names[0] !in names[1..];
      assert names[0] !in multiset(rest);
      InsertSorted(names[0], rest, order);
    }
  }

  // ---- Subtotals and the grand total ----

  lemma MetricFieldsAreAllFields()
    ensures forall f :: f in AllFields <==> f in MetricFields
  {
  }

  /** A section's subtotal of one metric in one period: the sum over its
      departments that have a row in that period. */
  function SumField(rows: seq<seq<Option<Row>>>, pi: nat, f: Field): real
    requires forall i :: 0 <= i < |rows| ==> pi < |rows[i]|
  {
    if rows == [] then 0.0
    else
      var slot := rows[|rows| - 1][pi];
      SumField(rows[..|rows| - 1], pi, f) + (if slot.Some? then Get0(slot.value, f) else 0.0)
  }

  /** The generator sum of one metric in one period over a section's
      departments. */
  method SumColumn(rows: seq<seq<Option<Row>>>, pi: nat, f: Field) returns (s: real)
    requires forall i :: 0 <= i < |rows| ==> pi < |rows[i]|
    ensures s == SumField(rows, pi, f)
  {
    s := 0.0;
    var j := 0;
    while j < |rows|
      invariant 0 <= j <= |rows|
      invariant s == SumField(rows[..j], pi, f)
    {
      assert rows[..j + 1][..j] == rows[..j];
      if rows[j][pi].Some? {
        s := s + Get0(rows[j][pi].value, f);
      }
      j := j + 1;
    }
    assert rows[..j] == rows;
  }

  /** One period's total: every metric, in table order. */
  method PeriodTotal(rows: seq<seq<Option<Row>>>, pi: nat) returns (t: Row)
    requires forall i :: 0 <= i < |rows| ==> pi < |rows[i]|
    ensures t.Keys == AllFields
    ensures forall f :: f in t ==> t[f] == SumField(rows, pi, f)
  {
    t := map[];
    var k := 0;
    while k < |MetricFields|
      invariant 0 <= k <= |MetricFields|
      invariant t.Keys == set j | 0 <= j < k :: MetricFields[j]
      invariant forall f :: f in t ==> t[f] == SumField(rows, pi, f)
    {
      var f := MetricFields[k];
      var s := SumColumn(rows, pi, f);
      t := t[f := s];
      k := k + 1;
    }
    MetricFieldsAreAllFields();
    assert t.Keys == AllFields by {
      forall f | f in AllFields ensures f in t {
        var j :| 0 <= j < |MetricFields| && MetricFields[j] == f;
      }
    }
  }

  /** `_sum_rows`: one total per period, each holding every metric. */
  method SumRows(rows: seq<seq<Option<Row>>>, n: nat) returns (totals: seq<Row>)
    requires forall i :: 0 <= i < |rows| ==> |rows[i]| == n
    ensures |totals| == n
    ensures forall pi :: 0 <= pi < n ==> totals[pi].Keys == AllFields
    ensures forall pi, f :: 0 <= pi < n && f in AllFields ==> totals[pi][f] == SumField(rows, pi, f)
  {
    totals := [];
    var pi := 0;
    while pi < n
      invariant 0 <= pi <= n && |totals| == pi
      invariant forall q :: 0 <= q < pi ==> totals[q].Keys == AllFields
      invariant forall q, f :: 0 <= q < pi && f in AllFields ==> totals[q][f] == SumField(rows, q, f)
    {
      var t := PeriodTotal(rows, pi);
      totals := totals + [t];
      pi := pi + 1;
    }
  }

  /** Subtotals add up: the sum over two lists of departments is the sum of
      their sums. */
  lemma {:induction false} SumFieldAppend(a: seq<seq<Option<Row>>>, b: seq<seq<Option<Row>>>, pi: nat, f: Field)
    requires forall i :: 0 <= i < |a| ==> pi < |a[i]|
    requires forall i :: 0 <= i < |b| ==> pi < |b[i]|
    ensures SumField(a + b, pi, f) == SumField(a, pi, f) + SumField(b, pi, f)
    decreases |b|
  {
    if b == [] {
      assert a + b == a;
    } else {
      assert (a + b)[..|a + b| - 1] == a + b[..|b| - 1];
      SumFieldAppend(a, b[..|b| - 1], pi, f);
    }
  }

  /** A department with no row in a period adds nothing to that period. */
  lemma SumFieldSkipsMissing(rows: seq<seq<Option<Row>>>, slots: seq<Option<Row>>, pi: nat, f: Field)
    requires forall i :: 0 <= i < |rows| ==> pi < |rows[i]|
    requires pi < |slots| && slots[pi].None?
    ensures SumField(rows + [slots], pi, f) == SumField(rows, pi, f)
  {
    assert (rows + [slots])[..|rows|] == rows;
  }

  /** `combined_totals`: for every key either subtotal has, the outpatient
      value plus the inpatient value. */
  method CombineTotals(ngoai: Row, noi: Row) returns (ct: Row)
    ensures ct.Keys == ngoai.Keys + noi.Keys
    ensures forall k :: k in ct ==> ct[k] == Get0(ngoai, k) + Get0(noi, k)
  {
    ct := AddOutpatientKeys(ngoai, noi);
    ct := AddInpatientOnlyKeys(ngoai, noi, ct);
  }

  /** The first loop: every outpatient key, with the inpatient value added. */
  method AddOutpatientKeys(ngoai: Row, noi: Row) returns (ct: Row)
    ensures ct.Keys == ngoai.Keys
    ensures forall k :: k in ct ==> ct[k] == Get0(ngoai, k) + Get0(noi, k)
  {
    ct := map[];
    var todo := ngoai.Keys;
    while todo != {}
      invariant todo <= ngoai.Keys
      invariant forall k :: k in ct <==> k in ngoai && k !in todo
      invariant forall k :: k in ct ==> ct[k] == Get0(ngoai, k) + Get0(noi, k)
      decreases |todo|
    {
      var k :| k in todo;
      ct := ct[k := Get0(ngoai, k) + Get0(noi, k)];
      todo := todo - {k};
    }
  }

  /** The second loop: inpatient keys the outpatient subtotal lacks. */
  method AddInpatientOnlyKeys(ngoai: Row, noi: Row, ct0: Row) returns (ct: Row)
    requires ct0.Keys == ngoai.Keys
    requires forall k :: k in ct0 ==> ct0[k] == Get0(ngoai, k) + Get0(noi, k)
    ensures ct.Keys == ngoai.Keys + noi.Keys
    ensures forall k :: k in ct ==> ct[k] == Get0(ngoai, k) + Get0(noi, k)
  {
    ct := ct0;
    var todo := noi.Keys;
    while todo != {}
      invariant todo <= noi.Keys
      invariant forall k :: k in ct <==> k in ngoai || (k in noi && k !in todo)
      invariant forall k :: k in ct ==> ct[k] == Get0(ngoai, k) + Get0(noi, k)
      decreases |todo|
    {
      var k :| k in todo;
      if k !in ct {
        ct := ct[k := Get0(noi, k)];
      }
      todo := todo - {k};
    }
  }

  /** A shown cell of the table. */
  datatype CellValue = Number(n: Option<real>) | Average(a: Option<int>) | RatioCell(t: RatioText)

  /** The cell of a row (a department's row of one period, or a subtotal). */
  function CellFor(col: Column, row: Row): CellValue
  {
    match col
    case Metric(_, f, _) => Number(FmtNumber(Num(Get0(row, f))))
    case Bq(_, f, _) => Average(CalcBq(Num(Get0(row, f)), Some(Get0(row, SoLuot))))
    case Ratio(_, n, d, _, fmt) => RatioCell(CalcRatio(Num(Get0(row, n)), Some(Get0(row, d)), fmt))
  }

  /** The grand-total cell as the page computes it from the two subtotals: sums
      for a metric, and average or ratio of the summed parts. */
  function GrandTotalCell(col: Column, ngoai: Row, noi: Row): CellValue
  {
    match col
    case Metric(_, f, _) => Number(FmtNumber(Num(Get0(ngoai, f) + Get0(noi, f))))
    case Bq(_, f, _) =>
      Average(CalcBq(Num(Get0(ngoai, f) + Get0(noi, f)), Some(Get0(ngoai, SoLuot) + Get0(noi, SoLuot))))
    case Ratio(_, n, d, _, fmt) =>
      RatioCell(CalcRatio(Num(Get0(ngoai, n) + Get0(noi, n)), Some(Get0(ngoai, d) + Get0(noi, d)), fmt))
  }

  /** The grand-total row shows exactly the cells of the combined totals the
      comparison columns use, so an average or ratio there is taken over the
      whole hospital rather than summed from the two sections. */
  lemma GrandTotalCellIsCellOfCombined(col: Column, ngoai: Row, noi: Row, ct: Row)
    requires ct.Keys == ngoai.Keys + noi.Keys
    requires forall k :: k in ct ==> ct[k] == Get0(ngoai, k) + Get0(noi, k)
    ensures GrandTotalCell(col, ngoai, noi) == CellFor(col, ct)
  {
  }

  /** Every grand-total value is the sum over all departments of both
      sections. */
  lemma GrandTotalOverAllDepartments(ngoaiRows: seq<seq<Option<Row>>>, noiRows: seq<seq<Option<Row>>>,
                                     ngoai: Row, noi: Row, ct: Row, pi: nat, f: Field)
    requires forall i :: 0 <= i < |ngoaiRows| ==> pi < |ngoaiRows[i]|
    requires forall i :: 0 <= i < |noiRows| ==> pi < |noiRows[i]|
    requires f in ngoai && ngoai[f] == SumField(ngoaiRows, pi, f)
    requires f in noi && noi[f] == SumField(noiRows, pi, f)
    requires forall k :: k in ct ==> ct[k] == Get0(ngoai, k) + Get0(noi, k)
    requires f in ct
    ensures ct[f] == SumField(ngoaiRows + noiRows, pi, f)
  {
    SumFieldAppend(ngoaiRows, noiRows, pi, f);
  }
}
