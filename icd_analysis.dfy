/** The ICD statistics page: per period, one aggregated row per main
    diagnosis code; the codes shown are the head of the anchor period's
    codes sorted by descending share, cut where the running share would
    pass the chosen threshold. */
module IcdAnalysis {
  import opened Common
  import opened Text
  import opened Periods
  import opened Enrich
  import opened Aggregate

  /** One period's query result: (ma_benh_chinh, row) pairs in result order. */
  type Frame = seq<(string, Row)>

  /** The "Loại thống kê" choice: share of visits, of total cost, or of the
      insurer's payment ("cpbhyt", which is also what any other value means). */
  datatype CostType = SoLuotShare | TongCp | CpBhyt

  /** The field whose share a cost type measures. */
  function ShareField(ct: CostType): (f: Field)
    ensures f in IcdFields
    ensures f == SoLuot <==> ct == SoLuotShare
  {
    match ct
    case SoLuotShare => SoLuot
    case TongCp => TTongchi
    case CpBhyt => TBhtt
  }

  /** The cost averaged per visit: the insurer's payment only for "cpbhyt",
      the total cost otherwise. */
  function CostField(ct: CostType): (f: Field)
    ensures f in IcdFields && f != SoLuot
    ensures f == TBhtt <==> ct == CpBhyt
  {
    if ct == CpBhyt then TBhtt else TTongchi
  }

  /** `(x / d) if d else 0` */
  function Quotient(x: real, d: real): (q: real)
    ensures d == 0.0 ==> q == 0.0
    ensures d != 0.0 ==> q * d == x
  {
    if d != 0.0 then x / d else 0.0
  }

  /** `(x / total * 100) if total else 0` */
  function Pct(x: real, total: real): (p: real)
    ensures total == 0.0 ==> p == 0.0
    ensures total != 0.0 ==> p * total == x * 100.0
  {
    if total != 0.0 then x / total * 100.0 else 0.0
  }

  // ---- Period totals ----

  /** A column of a frame, missing values read as 0. */
  function FrameColumn(frame: Frame, f: Field): (c: seq<real>)
    ensures |c| == |frame|
    ensures forall i :: 0 <= i < |frame| ==> c[i] == Get0(frame[i].1, f)
  {
    seq(|frame|, i requires 0 <= i < |frame| => Get0(frame[i].1, f))
  }

  /** `df[f].sum()` over a period's frame, 0 when the period has no frame. */
  function FrameTotal(frame: Option<Frame>, f: Field): (t: real)
    ensures frame.None? || frame.value == [] ==> t == 0.0
  {
    if frame.None? then 0.0 else Sum(FrameColumn(frame.value, f))
  }

  /** The three totals a period's percentages are taken against. */
  datatype PeriodTotal = PeriodTotal(soLuot: real, tongchi: real, bhtt: real)

  function TotalOf(frame: Option<Frame>): PeriodTotal
  {
    PeriodTotal(FrameTotal(frame, SoLuot), FrameTotal(frame, TTongchi), FrameTotal(frame, TBhtt))
  }

  /** The total the share of a cost type is taken against. */
  function Chosen(t: PeriodTotal, ct: CostType): real
  {
    match ct
    case SoLuotShare => t.soLuot
    case TongCp => t.tongchi
    case CpBhyt => t.bhtt
  }

  lemma ChosenIsTotalOfShareField(frame: Option<Frame>, ct: CostType)
    ensures Chosen(TotalOf(frame), ct) == FrameTotal(frame, ShareField(ct))
  {
  }

  /** The loop of `_render_icd_table` that precomputes one total per period;
      a period without data, or with an empty frame, totals 0. */
  method PeriodTotals(frames: seq<Option<Frame>>) returns (totals: seq<PeriodTotal>)
    ensures |totals| == |frames|
    ensures forall pi :: 0 <= pi < |frames| ==> totals[pi] == TotalOf(frames[pi])
  {
    totals := [];
    var pi := 0;
    while pi < |frames|
      invariant 0 <= pi <= |frames| && |totals| == pi
      invariant forall q :: 0 <= q < pi ==> totals[q] == TotalOf(frames[q])
    {
      var t := PeriodTotal(0.0, 0.0, 0.0);
      if frames[pi].Some? && frames[pi].value != [] {
        t := TotalOf(frames[pi]);
      }
      totals := totals + [t];
      pi := pi + 1;
    }
  }

  // ---- One code in one period ----

  /** The four numbers a code shows in a period. */
  datatype RowValues = RowValues(soLuot: real, ngayDttb: real, bqDt: real, pctVal: real)

  /** The metric a difference column can compare. */
  datatype Metric = SoLuotMetric | NgayDttb | BqDt | PctVal

  function MetricOf(v: RowValues, m: Metric): real
  {
    match m
    case SoLuotMetric => v.soLuot
    case NgayDttb => v.ngayDttb
    case BqDt => v.bqDt
    case PctVal => v.pctVal
  }

  /** `_compute_row_values`: visits, average days per visit, average cost per
      visit, and the code's share of the period total in percent. */
  function ComputeRowValues(row: Row, ct: CostType, total: PeriodTotal): (r: RowValues)
    ensures r.soLuot == Get0(row, SoLuot)
    ensures Get0(row, SoLuot) == 0.0 ==> r.ngayDttb == 0.0 && r.bqDt == 0.0
    ensures Get0(row, SoLuot) != 0.0 ==>
      r.ngayDttb * Get0(row, SoLuot) == Get0(row, SoNgayDtri) &&
      r.bqDt * Get0(row, SoLuot) == Get0(row, CostField(ct))
    ensures Chosen(total, ct) == 0.0 ==> r.pctVal == 0.0
    ensures Chosen(total, ct) != 0.0 ==> r.pctVal * Chosen(total, ct) == Get0(row, ShareField(ct)) * 100.0
  {
    var soLuot := Get0(row, SoLuot);
    RowValues(soLuot,
              Quotient(Get0(row, SoNgayDtri), soLuot),
              Quotient(Get0(row, CostField(ct)), soLuot),
              Pct(Get0(row, ShareField(ct)), Chosen(total, ct)))
  }

  /** The loop of `_render_icd_table` that fills `computed_values` for one
      code: the code's values in every period where its row is present. */
  method ComputedValues(lookups: seq<map<string, Row>>, totals: seq<PeriodTotal>,
                        code: string, ct: CostType) returns (vals: seq<Option<RowValues>>)
    requires |totals| == |lookups|
    ensures |vals| == |lookups|
    ensures forall pi :: 0 <= pi < |vals| ==>
      (vals[pi].Some? <==> code in lookups[pi] && lookups[pi][code] != map[])
    ensures forall pi :: 0 <= pi < |vals| && vals[pi].Some? ==>
      vals[pi].value == ComputeRowValues(lookups[pi][code], ct, totals[pi])
  {
    vals := [];
    var pi := 0;
    while pi < |lookups|
      invariant 0 <= pi <= |lookups| && |vals| == pi
      invariant forall q :: 0 <= q < pi ==>
        (vals[q].Some? <==> code in lookups[q] && lookups[q][code] != map[])
      invariant forall q :: 0 <= q < pi && vals[q].Some? ==>
        vals[q].value == ComputeRowValues(lookups[q][code], ct, totals[q])
    {
      if code in lookups[pi] && lookups[pi][code] != map[] {
        vals := vals + [Some(ComputeRowValues(lookups[pi][code], ct, totals[pi]))];
      } else {
        vals := vals + [None];
      }
      pi := pi + 1;
    }
  }

  // ---- The difference columns ----

  /** What the two difference cells of a row hold: no such columns, two
      dashes, or the absolute and the percentage difference. */
  datatype DiffCell = NoColumns | Dashes | Diff(abs: real, pct: real)

  /** The two cells for a first and a last period: forward ("P-T") is last
      minus first, reversed ("T-P") first minus last; the percentage is taken
      against the value subtracted, 0 when that is 0. */
  function DiffCells(first: Option<RowValues>, last: Option<RowValues>, m: Metric, reverse: bool): (d: DiffCell)
    ensures d.Dashes? <==> first.None? || last.None?
    ensures !d.NoColumns?
    ensures d.Diff? && !reverse ==> d.abs == MetricOf(last.value, m) - MetricOf(first.value, m)
    ensures d.Diff? && reverse ==> d.abs == MetricOf(first.value, m) - MetricOf(last.value, m)
    ensures d.Diff? ==>
      var base := MetricOf((if reverse then last else first).value, m);
      (base == 0.0 ==> d.pct == 0.0) && (base != 0.0 ==> d.pct * base == d.abs * 100.0)
  {
    if first.None? || last.None? then Dashes
    else
      var a := MetricOf((if reverse then first else last).value, m);
      var b := MetricOf((if reverse then last else first).value, m);
      var diffAbs := a - b;
      Diff(diffAbs, if b != 0.0 then diffAbs / b * 100.0 else 0.0)
  }

  /** Reversing the direction negates the absolute difference. */
  lemma DiffReverseNegates(first: RowValues, last: RowValues, m: Metric)
    ensures DiffCells(Some(first), Some(last), m, true).abs == -DiffCells(Some(first), Some(last), m, false).abs
  {
  }

  /** The difference cells of a row of values (one per period): present only
      when a metric is chosen and there are at least two periods; they compare
      the first period with the last. */
  function RowDiff(vals: seq<Option<RowValues>>, metric: Option<Metric>, reverse: bool): (d: DiffCell)
    ensures d.NoColumns? <==> metric.None? || |vals| < 2
    ensures !d.NoColumns? ==> d == DiffCells(vals[0], vals[|vals| - 1], metric.value, reverse)
  {
    if metric.Some? && |vals| >= 2 then DiffCells(vals[0], vals[|vals| - 1], metric.value, reverse)
    else NoColumns
  }

  // ---- The total row ----

  /** The "TỔNG TOÀN BỘ" values of a period, from the whole period frame and
      not only the listed codes; none when the period has no rows. */
  function TotalValues(frame: Option<Frame>, ct: CostType): (r: Option<RowValues>)
    ensures r.None? <==> frame.None? || frame.value == []
    ensures r.Some? ==> r.value.pctVal == 100.0 && r.value.soLuot == FrameTotal(frame, SoLuot)
    ensures r.Some? && FrameTotal(frame, SoLuot) != 0.0 ==>
      r.value.ngayDttb * FrameTotal(frame, SoLuot) == FrameTotal(frame, SoNgayDtri) &&
      r.value.bqDt * FrameTotal(frame, SoLuot) == FrameTotal(frame, CostField(ct))
    ensures r.Some? && FrameTotal(frame, SoLuot) == 0.0 ==> r.value.ngayDttb == 0.0 && r.value.bqDt == 0.0
  {
    if frame.None? || frame.value == [] then None
    else
      var soLuot := FrameTotal(frame, SoLuot);
      Some(RowValues(soLuot,
                     Quotient(FrameTotal(frame, SoNgayDtri), soLuot),
                     Quotient(FrameTotal(frame, CostField(ct)), soLuot),
                     100.0))
  }

  /** The period totals as one aggregated row. */
  function TotalsRow(frame: Option<Frame>): Row
  {
    map[SoLuot := FrameTotal(frame, SoLuot), SoNgayDtri := FrameTotal(frame, SoNgayDtri),
        TTongchi := FrameTotal(frame, TTongchi), TBhtt := FrameTotal(frame, TBhtt)]
  }

  /** The total row is what the per-code formula gives for a code that had
      the whole period's totals, whenever the chosen total is not 0. */
  lemma TotalRowIsRowOfTotals(frame: Option<Frame>, ct: CostType)
    requires frame.Some? && frame.value != []
    requires FrameTotal(frame, ShareField(ct)) != 0.0
    ensures TotalValues(frame, ct) == Some(ComputeRowValues(TotalsRow(frame), ct, TotalOf(frame)))
  {
    var t := FrameTotal(frame, ShareField(ct));
    ChosenIsTotalOfShareField(frame, ct);
    assert Get0(TotalsRow(frame), ShareField(ct)) == t;
    var p := Pct(t, t);
    assert p * t == t * 100.0;
    assert p == 100.0;
  }

  // ---- Shares and the cumulative head ----

  /** A code with its share of the anchor period in percent. */
  datatype Share = Share(code: string, pct: real)

  function Codes(s: seq<Share>): (c: seq<string>)
    ensures |c| == |s| && forall i :: 0 <= i < |s| ==> c[i] == s[i].code
  {
    seq(|s|, i requires 0 <= i < |s| => s[i].code)
  }

  function Pcts(s: seq<Share>): (p: seq<real>)
    ensures |p| == |s| && forall i :: 0 <= i < |s| ==> p[i] == s[i].pct
  {
    seq(|s|, i requires 0 <= i < |s| => s[i].pct)
  }

  /** `sort_df["pct"]`: each code's value over the frame's total, in
      percent, or 0 for every code when the total is 0. */
  function Shares(frame: Frame, ct: CostType): (s: seq<Share>)
    ensures |s| == |frame|
    ensures forall i :: 0 <= i < |s| ==>
      (s[i].code == frame[i].0 &&
       s[i].pct == Pct(Get0(frame[i].1, ShareField(ct)), Sum(FrameColumn(frame, ShareField(ct)))))
  {
    var total := Sum(FrameColumn(frame, ShareField(ct)));
    seq(|frame|, i requires 0 <= i < |frame| => Share(frame[i].0, Pct(Get0(frame[i].1, ShareField(ct)), total)))
  }

  lemma {:induction false} SumOfPcts(xs: seq<real>, ps: seq<real>, total: real)
    requires total != 0.0
    requires |ps| == |xs| && forall i :: 0 <= i < |xs| ==> ps[i] == Pct(xs[i], total)
    ensures Sum(ps) * total == Sum(xs) * 100.0
  {
    if xs != [] {
      var n := |xs| - 1;
      SumOfPcts(xs[..n], ps[..n], total);
      assert ps[n] * total == xs[n] * 100.0;
      calc {
        Sum(ps) * total;
        Sum(ps[..n]) * total + ps[n] * total;
        Sum(xs[..n]) * 100.0 + xs[n] * 100.0;
      }
    }
  }

  /** The shares of all codes of a period add up to 100%, the figure of its
      total row, unless the period total is 0. */
  lemma SharesSumTo100(frame: Frame, ct: CostType)
    requires Sum(FrameColumn(frame, ShareField(ct))) != 0.0
    ensures Sum(Pcts(Shares(frame, ct))) == 100.0
  {
    SumOfPcts(FrameColumn(frame, ShareField(ct)), Pcts(Shares(frame, ct)), Sum(FrameColumn(frame, ShareField(ct))));
    CancelFactor(Sum(Pcts(Shares(frame, ct))), 100.0, Sum(FrameColumn(frame, ShareField(ct))));
  }

  lemma CancelFactor(a: real, b: real, t: real)
    requires t != 0.0 && a * t == t * b
    ensures a == b
  {
    assert a == (a * t) / t;
  }

  predicate SortedDesc(s: seq<Share>)
  {
    forall i, j :: 0 <= i < j < |s| ==> s[i].pct >= s[j].pct
  }

  /** Places a share before the first one that is strictly smaller. */
  function InsertDesc(x: Share, s: seq<Share>): (r: seq<Share>)
    ensures multiset(r) == multiset(s) + multiset{x}
    ensures |r| == |s| + 1
    ensures r[0] == x || (s != [] && r[0] == s[0])
  {
    if s == [] then [x]
    else if x.pct >= s[0].pct then [x] + s
    else
      var rest := InsertDesc(x, s[1..]);
      assert s == [s[0]] + s[1..];
      [s[0]] + rest
  }

  lemma {:induction false} InsertDescSorted(x: Share, s: seq<Share>)
    requires SortedDesc(s)
    ensures SortedDesc(InsertDesc(x, s))
  {
    if s != [] && x.pct < s[0].pct {
      var rest := InsertDesc(x, s[1..]);
      InsertDescSorted(x, s[1..]);
      assert rest[0].pct <= s[0].pct;
      var r := [s[0]] + rest;
      forall i, j | 0 <= i < j < |r|
        ensures r[i].pct >= r[j].pct
      {
        if i == 0 && j > 1 {
          assert rest[0].pct >= rest[j - 1].pct;
        }
      }
    }
  }

  /** `sort_values("pct", ascending=False)`: the same shares, largest first. */
  function SortDesc(s: seq<Share>): (r: seq<Share>)
    ensures SortedDesc(r)
    ensures multiset(r) == multiset(s)
    ensures |r| == |s|
  {
    if s == [] then []
    else
      assert s == [s[0]] + s[1..];
      InsertDescSorted(s[0], SortDesc(s[1..]));
      InsertDesc(s[0], SortDesc(s[1..]))
  }

  /** The running share after the first `k` codes. */
  function PrefixSum(s: seq<Share>, k: nat): real
    requires k <= |s|
  {
    Sum(Pcts(s[..k]))
  }

  /** The loop over the sorted codes: take codes while the running share
      stays at or below the threshold, stop at the first that would pass it. */
  method CumulativeHead(sorted: seq<Share>, ratio: real) returns (codes: seq<string>, cum: real)
    ensures |codes| <= |sorted|
    ensures codes == Codes(sorted[..|codes|])
    ensures cum == PrefixSum(sorted, |codes|)
    ensures forall j :: 1 <= j <= |codes| ==> PrefixSum(sorted, j) <= ratio
    ensures |codes| < |sorted| ==> cum + sorted[|codes|].pct > ratio
    ensures codes != [] ==> cum <= ratio
  {
    codes := [];
    cum := 0.0;
    var k := 0;
    while k < |sorted|
      invariant 0 <= k <= |sorted| && |codes| == k
      invariant codes == Codes(sorted[..k])
      invariant cum == PrefixSum(sorted, k)
      invariant forall j :: 1 <= j <= k ==> PrefixSum(sorted, j) <= ratio
    {
      var pct := sorted[k].pct;
      if cum + pct > ratio {
        break;
      }
      assert Pcts(sorted[..k + 1])[..k] == Pcts(sorted[..k]);
      cum := cum + pct;
      codes := codes + [sorted[k].code];
      k := k + 1;
    }
  }

  /** Adding non-negative shares never lowers the running sum. */
  lemma {:induction false} PrefixSumsGrow(p: seq<real>, a: nat, b: nat)
    requires a <= b <= |p|
    requires forall i :: 0 <= i < |p| ==> p[i] >= 0.0
    ensures Sum(p[..a]) <= Sum(p[..b])
    decreases b - a
  {
    if a < b {
      PrefixSumsGrow(p, a, b - 1);
      assert p[..b][..b - 1] == p[..b - 1];
    }
  }

  /** With non-negative shares the head the loop takes is the longest prefix
      whose sum stays within the threshold. */
  lemma LongestWithinThreshold(sorted: seq<Share>, ratio: real, k: nat, m: nat)
    requires forall i :: 0 <= i < |sorted| ==> sorted[i].pct >= 0.0
    requires k < m <= |sorted|
    requires PrefixSum(sorted, k) + sorted[k].pct > ratio
    ensures PrefixSum(sorted, m) > ratio
  {
    var p := Pcts(sorted);
    assert forall j :: 0 <= j <= |sorted| ==> Pcts(sorted[..j]) == p[..j];
    assert p[..k + 1][..k] == p[..k];
    PrefixSumsGrow(p, k + 1, m);
  }

  /** One more code adds its share to the running sum. */
  lemma PrefixSumStep(s: seq<Share>, k: nat)
    requires k < |s|
    ensures PrefixSum(s, k + 1) == PrefixSum(s, k) + s[k].pct
  {
    assert Pcts(s[..k + 1])[..k] == Pcts(s[..k]);
  }

  /** The selection rule of the ICD page: when the top code's share alone
      passes the threshold, that code alone; otherwise the prefix of the
      sorted codes whose running sums all stay within the threshold and
      that stops exactly where one more code would pass it. */
  predicate HeadRule(sorted: seq<Share>, ratio: real, codes: seq<string>)
  {
    |codes| <= |sorted| && codes == Codes(sorted[..|codes|]) &&
    (sorted == [] ==> codes == []) &&
    (sorted != [] && sorted[0].pct > ratio ==> codes == [sorted[0].code]) &&
    (sorted != [] && sorted[0].pct <= ratio ==>
       |codes| >= 1 &&
       (forall j :: 1 <= j <= |codes| ==> PrefixSum(sorted, j) <= ratio) &&
       (|codes| < |sorted| ==> PrefixSum(sorted, |codes| + 1) > ratio))
  }

  /** A prefix whose running sums all stay within the threshold is no
      longer than one where the next code would pass it. */
  lemma WithinNoLonger(sorted: seq<Share>, ratio: real, n: nat, m: nat)
    requires n <= |sorted| && m <= |sorted|
    requires forall j :: 1 <= j <= n ==> PrefixSum(sorted, j) <= ratio
    requires m < |sorted| ==> PrefixSum(sorted, m + 1) > ratio
    ensures n <= m
  {
  }

  /** The rule leaves no choice: two code lists that both follow it are equal. */
  lemma HeadRuleUnique(sorted: seq<Share>, ratio: real, c1: seq<string>, c2: seq<string>)
    requires HeadRule(sorted, ratio, c1) && HeadRule(sorted, ratio, c2)
    ensures c1 == c2
  {
    if sorted != [] && sorted[0].pct <= ratio {
      WithinNoLonger(sorted, ratio, |c1|, |c2|);
      WithinNoLonger(sorted, ratio, |c2|, |c1|);
    }
  }

  /** The listed codes: the cumulative head, or only the top code when not
      even that one fits; with the running share the page reports (0 when the
      loop took nothing). */
  method IcdList(sorted: seq<Share>, ratio: real) returns (codes: seq<string>, cum: real)
    ensures HeadRule(sorted, ratio, codes)
    ensures sorted != [] && sorted[0].pct > ratio ==> codes == [sorted[0].code] && cum == 0.0
    ensures !(sorted != [] && sorted[0].pct > ratio) ==> cum == PrefixSum(sorted, |codes|) && (codes != [] ==> cum <= ratio)
  {
    codes, cum := CumulativeHead(sorted, ratio);
    if |codes| < |sorted| {
      PrefixSumStep(sorted, |codes|);
    }
    if codes != [] {
      PrefixSumStep(sorted, 0);
      assert PrefixSum(sorted, 1) <= ratio;
    }
    if codes == [] && sorted != [] {
      assert sorted[0].pct > ratio;
      codes := [sorted[0].code];
      assert codes == Codes(sorted[..1]);
    }
  }

  /** The anchor period: the first whose label is the selected one, else
      the first period. */
  function AnchorIndex(texts: seq<string>, selected: string): (i: nat)
    requires |texts| >= 1
    ensures i < |texts|
    ensures forall j :: 0 <= j < i ==> texts[j] != selected
    ensures texts[i] == selected || (i == 0 && selected !in texts)
  {
    if texts[0] == selected || |texts| == 1 then 0
    else
      var r := AnchorIndex(texts[1..], selected);
      if texts[1..][r] == selected then r + 1 else 0
  }

  /** The part of `render` that picks the codes: nothing when the anchor
      period has no rows (the page stops there), else the listed codes of the
      anchor's shares sorted in descending order. */
  method SelectCodes(frames: seq<Option<Frame>>, texts: seq<string>, selected: string,
                     ct: CostType, ratio: real) returns (r: Option<seq<string>>)
    requires |frames| == |texts| >= 1
    ensures var a := frames[AnchorIndex(texts, selected)];
      (r.None? <==> a.None? || a.value == []) &&
      (r.Some? ==> 1 <= |r.value| <= |a.value| &&
                   r.value == Codes(SortDesc(Shares(a.value, ct)))[..|r.value|] &&
                   HeadRule(SortDesc(Shares(a.value, ct)), ratio, r.value))
  {
    var a := frames[AnchorIndex(texts, selected)];
    if a.None? || a.value == [] {
      return None;
    }
    var sorted := SortDesc(Shares(a.value, ct));
    assert |multiset(sorted)| == |multiset(Shares(a.value, ct))|;
    var codes, _ := IcdList(sorted, ratio);
    assert Codes(sorted)[..|codes|] == Codes(sorted[..|codes|]);
    r := Some(codes);
  }

  // ---- The cache key of the department list ----

  function RangeText(r: (nat, nat)): string
  {
    Decimal(r.0) + "-" + Decimal(r.1)
  }

  /** `periods_key`: "from-to" for each period, joined with ",". */
  function PeriodsKey(ranges: seq<(nat, nat)>): string
  {
    Join(seq(|ranges|, i requires 0 <= i < |ranges| => RangeText(ranges[i])), ',')
  }

  /** The month range of a collected period. */
  function RangeOf(p: Period): (r: (nat, nat))
    ensures r.0 == YmToInt(p.fromYear, p.fromMonth) && r.1 == YmToInt(p.toYear, p.toMonth)
  {
    (p.fromYear * 100 + p.fromMonth, p.toYear * 100 + p.toMonth)
  }

  /** One "from-to" part; a part that does not split into exactly two pieces
      raises ValueError, and a piece that is not a number makes the query
      fail. */
  function ParseRange(part: string): (r: Option<(nat, nat)>)
    ensures r.Some? ==> exists a, b :: part == a + "-" + b && DigitsOf(a, r.value.0) && DigitsOf(b, r.value.1)
  {
    var pieces := Split(part, '-');
    if |pieces| == 2 && pieces[0] != [] && pieces[1] != [] && AllDigits(pieces[0]) && AllDigits(pieces[1])
    then
      JoinSplit(part, '-');
      assert pieces[1..] == [pieces[1]];
      assert part == pieces[0] + "-" + pieces[1];
      assert DigitsOf(pieces[0], DecimalValue(pieces[0])) && DigitsOf(pieces[1], DecimalValue(pieces[1]));
      Some((DecimalValue(pieces[0]), DecimalValue(pieces[1])))
    else None
  }

  /** `a` is a non-empty run of digits spelling `n`. */
  predicate DigitsOf(a: string, n: nat)
  {
    a != [] && AllDigits(a) && DecimalValue(a) == n
  }

  /** The ranges of a key, parsed part by part. */
  function ParseParts(parts: seq<string>): (r: Option<seq<(nat, nat)>>)
    ensures r.Some? ==> |r.value| == |parts|
  {
    if parts == [] then Some([])
    else
      match (ParseRange(parts[0]), ParseParts(parts[1..]))
      case (Some(x), Some(xs)) => Some([x] + xs)
      case _ => None
  }

  function ParsePeriodsKey(key: string): Option<seq<(nat, nat)>>
  {
    ParseParts(Split(key, ','))
  }

  /** The loop of `_get_available_khoa` that turns the key back into the
      range conditions, one per part, stopping at the first bad part. */
  method RangeClauses(key: string) returns (r: Option<seq<(nat, nat)>>)
    ensures r == ParsePeriodsKey(key)
  {
    var parts := Split(key, ',');
    var clauses: seq<(nat, nat)> := [];
    var k := 0;
    assert parts[0..] == parts;
    while k < |parts|
      invariant 0 <= k <= |parts|
      invariant ParseParts(parts).Some? <==> ParseParts(parts[k..]).Some?
      invariant ParseParts(parts[k..]).Some? ==> ParseParts(parts).value == clauses + ParseParts(parts[k..]).value
    {
      assert parts[k..] == [parts[k]] + parts[k + 1..];
      var c := ParseRange(parts[k]);
      if c.None? {
        assert ParseParts(parts[k..]).None?;
        return None;
      }
      clauses := clauses + [c.value];
      k := k + 1;
    }
    assert parts[k..] == [];
    assert clauses + [] == clauses;
    r := Some(clauses);
  }

  lemma DigitsHaveNoSeparator(s: string, sep: char)
    requires AllDigits(s) && !IsDigit(sep)
    ensures sep !in s
  {
  }

  lemma ParseRangeText(r: (nat, nat))
    ensures ParseRange(RangeText(r)) == Some(r)
  {
    var a, b := Decimal(r.0), Decimal(r.1);
    DigitsHaveNoSeparator(a, '-');
    DigitsHaveNoSeparator(b, '-');
    SplitAtSep(a, '-', b);
    SplitNoSep(b, '-');
    assert RangeText(r) == a + ['-'] + b;
    DecimalRoundTrip(r.0);
    DecimalRoundTrip(r.1);
  }

  lemma {:induction false} ParseTexts(ranges: seq<(nat, nat)>, texts: seq<string>)
    requires |texts| == |ranges|
    requires forall i :: 0 <= i < |ranges| ==> texts[i] == RangeText(ranges[i])
    ensures ParseParts(texts) == Some(ranges)
  {
    if ranges != [] {
      ParseRangeText(ranges[0]);
      ParseTexts(ranges[1..], texts[1..]);
      assert ranges == [ranges[0]] + ranges[1..];
    }
  }

  /** The key round-trips: parsing it gives back the ranges in order, for
      any non-empty list of periods. */
  lemma PeriodsKeyRoundTrip(ranges: seq<(nat, nat)>)
    requires |ranges| >= 1
    ensures ParsePeriodsKey(PeriodsKey(ranges)) == Some(ranges)
  {
    var texts := seq(|ranges|, i requires 0 <= i < |ranges| => RangeText(ranges[i]));
    forall i | 0 <= i < |texts|
      ensures ',' !in texts[i]
    {
      DigitsHaveNoSeparator(Decimal(ranges[i].0), ',');
      DigitsHaveNoSeparator(Decimal(ranges[i].1), ',');
    }
    SplitJoin(texts, ',');
    ParseTexts(ranges, texts);
  }

  /** The departments with records in any of the ranges, of the chosen
      treatment kind (None for the whole hospital). */
  function AvailableKhoa(view: seq<ViewRow>, ranges: seq<(nat, nat)>, ml2Filter: Option<string>): (ks: set<string>)
    ensures forall k :: k in ks <==>
      (exists v :: v in view && v.khoa == Some(k) &&
        (exists i :: 0 <= i < |ranges| && InRange(v, ranges[i].0, ranges[i].1)) &&
        (ml2Filter.None? || v.ml2 == ml2Filter))
  {
    set v | v in view && v.khoa.Some? &&
      (exists i :: 0 <= i < |ranges| && InRange(v, ranges[i].0, ranges[i].1)) &&
      (ml2Filter.None? || v.ml2 == ml2Filter) :: v.khoa.value
  }

  /** `_get_available_khoa` on a key; none when the key does not parse. */
  function AvailableKhoaForKey(view: seq<ViewRow>, key: string, ml2Filter: Option<string>): Option<set<string>>
  {
    match ParsePeriodsKey(key)
    case None => None
    case Some(ranges) => Some(AvailableKhoa(view, ranges, ml2Filter))
  }

  /** Looking departments up through the key sees exactly the periods the
      key was built from. */
  lemma AvailableKhoaThroughKey(view: seq<ViewRow>, periods: seq<Period>, ml2Filter: Option<string>)
    requires |periods| >= 1
    ensures AvailableKhoaForKey(view, PeriodsKey(seq(|periods|, i requires 0 <= i < |periods| => RangeOf(periods[i]))), ml2Filter)
         == Some(AvailableKhoa(view, seq(|periods|, i requires 0 <= i < |periods| => RangeOf(periods[i])), ml2Filter))
  {
    PeriodsKeyRoundTrip(seq(|periods|, i requires 0 <= i < |periods| => RangeOf(periods[i])));
  }
}
