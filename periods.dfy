/** Period descriptors shared by the department, ICD and hospital-wide pages:
    year-month keys, period labels, the "to month" choices, validation of the
    chosen periods, and the session list of period slots. The three pages carry
    identical copies of these helpers; they are modelled once here. */
module Periods {
  import opened Common
  import opened Text

  /** `_ym_to_int(year, month)` */
  function YmToInt(year: int, month: int): int
  {
    year * 100 + month
  }

  /** For real months the key orders periods chronologically: by year, then
      by month. */
  lemma YmToIntChronological(y1: int, m1: int, y2: int, m2: int)
    requires 1 <= m1 <= 12 && 1 <= m2 <= 12
    ensures YmToInt(y1, m1) <= YmToInt(y2, m2) <==> y1 < y2 || (y1 == y2 && m1 <= m2)
  {
    if y1 < y2 {
      assert y1 * 100 + 100 <= y2 * 100;
    } else if y1 > y2 {
      assert y2 * 100 + 100 <= y1 * 100;
    }
  }

  /** The key of a real month gives the year and the month back. */
  lemma YmToIntDecodes(year: int, month: int)
    requires 0 <= month < 100
    ensures YmToInt(year, month) / 100 == year && YmToInt(year, month) % 100 == month
  {
  }

  /** `_format_period_label` (department and ICD pages): `mm.yy` when the period
      is one month, `mm.yy-mm.yy` otherwise; months zero-padded, years mod 100. */
  function FormatPeriodLabel(fromYear: nat, fromMonth: nat, toYear: nat, toMonth: nat): string
  {
    if fromYear == toYear && fromMonth == toMonth then
      Pad2(fromMonth) + "." + Pad2(fromYear % 100)
    else
      Pad2(fromMonth) + "." + Pad2(fromYear % 100) + "-" + Pad2(toMonth) + "." + Pad2(toYear % 100)
  }

  /** `_format_period_label` on the hospital-wide page: the one-month form is
      prefixed with "Tháng ". */
  function HospitalPeriodLabel(fromYear: nat, fromMonth: nat, toYear: nat, toMonth: nat): (s: string)
    ensures fromYear == toYear && fromMonth == toMonth ==>
              s == "Tháng " + FormatPeriodLabel(fromYear, fromMonth, toYear, toMonth)
    ensures !(fromYear == toYear && fromMonth == toMonth) ==>
              s == FormatPeriodLabel(fromYear, fromMonth, toYear, toMonth)
  {
    if fromYear == toYear && fromMonth == toMonth then
      "Tháng " + Pad2(fromMonth) + "." + Pad2(fromYear % 100)
    else
      Pad2(fromMonth) + "." + Pad2(fromYear % 100) + "-" + Pad2(toMonth) + "." + Pad2(toYear % 100)
  }

  /** Reads a label back into (from month, from yy, to month, to yy). */
  function ParsePeriodLabel(s: string): Option<(nat, nat, nat, nat)>
  {
    if |s| == 5 && s[2] == '.' && AllDigits(s[..2]) && AllDigits(s[3..5]) then
      var m, y := DecimalValue(s[..2]), DecimalValue(s[3..5]);
      Some((m, y, m, y))
    else if |s| == 11 && s[2] == '.' && s[5] == '-' && s[8] == '.'
            && AllDigits(s[..2]) && AllDigits(s[3..5]) && AllDigits(s[6..8]) && AllDigits(s[9..11]) then
      Some((DecimalValue(s[..2]), DecimalValue(s[3..5]), DecimalValue(s[6..8]), DecimalValue(s[9..11])))
    else
      None
  }

  /** The label is the short form exactly when the period is a single month. */
  lemma FormatPeriodLabelSingleIff(fromYear: nat, fromMonth: nat, toYear: nat, toMonth: nat)
    requires fromMonth < 100 && toMonth < 100
    ensures |FormatPeriodLabel(fromYear, fromMonth, toYear, toMonth)| == 5 <==>
              fromYear == toYear && fromMonth == toMonth
    ensures |FormatPeriodLabel(fromYear, fromMonth, toYear, toMonth)| == 5 ||
              |FormatPeriodLabel(fromYear, fromMonth, toYear, toMonth)| == 11
  {
  }

  lemma ParseShortLabel(a: string, b: string)
    requires |a| == 2 && |b| == 2 && AllDigits(a) && AllDigits(b)
    ensures ParsePeriodLabel(a + "." + b) == Some((DecimalValue(a), DecimalValue(b), DecimalValue(a), DecimalValue(b)))
  {
    var s := a + "." + b;
    assert s[..2] == a && s[3..5] == b;
  }

  /** The middle piece of a concatenation is its slice. */
  lemma SliceOfPiece(pre: string, x: string, post: string)
    ensures (pre + x + post)[|pre|..|pre| + |x|] == x
  {
    var s := pre + x + post;
    forall i | 0 <= i < |x|
      ensures s[|pre|..|pre| + |x|][i] == x[i]
    {
      assert s[|pre| + i] == x[i];
    }
  }

  /** Where the four two-character pieces of a period label sit. */
  lemma LongLabelPieces(a: string, b: string, c: string, d: string)
    requires |a| == 2 && |b| == 2 && |c| == 2 && |d| == 2
    ensures var s := a + "." + b + "-" + c + "." + d;
      |s| == 11 && s[2] == '.' && s[5] == '-' && s[8] == '.' &&
      s[..2] == a && s[3..5] == b && s[6..8] == c && s[9..11] == d
  {
    var s := a + "." + b + "-" + c + "." + d;
    assert s[..2] == a by {
      assert s == [] + a + ("." + b + "-" + c + "." + d);
      SliceOfPiece([], a, "." + b + "-" + c + "." + d);
      assert s[..2] == s[0..2];
    }
    assert s[3..5] == b by {
      assert s == (a + ".") + b + ("-" + c + "." + d);
      SliceOfPiece(a + ".", b, "-" + c + "." + d);
    }
    assert s[6..8] == c by {
      assert s == (a + "." + b + "-") + c + ("." + d);
      SliceOfPiece(a + "." + b + "-", c, "." + d);
    }
    assert s[9..11] == d by {
      assert s == (a + "." + b + "-" + c + ".") + d + [];
      SliceOfPiece(a + "." + b + "-" + c + ".", d, []);
    }
  }

  lemma ParseLongLabel(a: string, b: string, c: string, d: string)
    requires |a| == 2 && |b| == 2 && |c| == 2 && |d| == 2
    requires AllDigits(a) && AllDigits(b) && AllDigits(c) && AllDigits(d)
    ensures ParsePeriodLabel(a + "." + b + "-" + c + "." + d) ==
      Some((DecimalValue(a), DecimalValue(b), DecimalValue(c), DecimalValue(d)))
  {
    LongLabelPieces(a, b, c, d);
    var s := a + "." + b + "-" + c + "." + d;
    assert AllDigits(s[..2]) && AllDigits(s[3..5]) && AllDigits(s[6..8]) && AllDigits(s[9..11]);
    assert !(|s| == 5);
  }

  /** The label determines the months and the two-digit years it was built from. */
  lemma FormatPeriodLabelRoundTrip(fromYear: nat, fromMonth: nat, toYear: nat, toMonth: nat)
    requires fromMonth < 100 && toMonth < 100
    ensures ParsePeriodLabel(FormatPeriodLabel(fromYear, fromMonth, toYear, toMonth))
              == Some((fromMonth, fromYear % 100, toMonth, toYear % 100))
  {
    Pad2RoundTrip(fromMonth);
    Pad2RoundTrip(fromYear % 100);
    Pad2RoundTrip(toMonth);
    Pad2RoundTrip(toYear % 100);
    if fromYear == toYear && fromMonth == toMonth {
      ParseShortLabel(Pad2(fromMonth), Pad2(fromYear % 100));
    } else {
      ParseLongLabel(Pad2(fromMonth), Pad2(fromYear % 100), Pad2(toMonth), Pad2(toYear % 100));
    }
  }

  /** The months of the "to" year that are not before the "from" month. */
  function AtOrAfter(toMonths: seq<nat>, toYear: nat, fromYm: int): (r: seq<nat>)
    ensures forall m :: m in r <==> m in toMonths && YmToInt(toYear, m) >= fromYm
    ensures forall m :: multiset(r)[m] == if YmToInt(toYear, m) >= fromYm then multiset(toMonths)[m] else 0
    ensures |r| <= |toMonths|
  {
    if toMonths == [] then []
    else
      var rest := AtOrAfter(toMonths[1..], toYear, fromYm);
      assert toMonths == [toMonths[0]] + toMonths[1..];
      assert forall m :: m in toMonths <==> m == toMonths[0] || m in toMonths[1..];
      if YmToInt(toYear, toMonths[0]) >= fromYm then [toMonths[0]] + rest else rest
  }

  /** The filter distributes over concatenation: it keeps the months in the
      order they are listed. */
  lemma {:induction false} AtOrAfterAppend(a: seq<nat>, b: seq<nat>, toYear: nat, fromYm: int)
    ensures AtOrAfter(a + b, toYear, fromYm) == AtOrAfter(a, toYear, fromYm) + AtOrAfter(b, toYear, fromYm)
  {
    if a == [] {
      assert a + b == b;
    } else {
      assert (a + b)[1..] == a[1..] + b;
      AtOrAfterAppend(a[1..], b, toYear, fromYm);
    }
  }

  /** The months of a year are listed in increasing order, without repeats. */
  predicate Ascending(s: seq<nat>)
  {
    forall i, j :: 0 <= i < j < |s| ==> s[i] < s[j]
  }

  /** Increasing months stay increasing. */
  lemma {:induction false} AtOrAfterAscending(toMonths: seq<nat>, toYear: nat, fromYm: int)
    requires Ascending(toMonths)
    ensures Ascending(AtOrAfter(toMonths, toYear, fromYm))
  {
    if toMonths != [] {
      var t := toMonths[1..];
      var rest := AtOrAfter(t, toYear, fromYm);
      AtOrAfterAscending(t, toYear, fromYm);
      if YmToInt(toYear, toMonths[0]) >= fromYm {
        AboveHead(toMonths, toYear, fromYm);
        ConsAscending(toMonths[0], rest);
        assert AtOrAfter(toMonths, toYear, fromYm) == [toMonths[0]] + rest;
      } else {
        assert AtOrAfter(toMonths, toYear, fromYm) == rest;
      }
    }
  }

  lemma ConsAscending(x: nat, s: seq<nat>)
    requires Ascending(s) && forall y :: y in s ==> x < y
    ensures Ascending([x] + s)
  {
    var c := [x] + s;
    forall i, j | 0 <= i < j < |c| ensures c[i] < c[j] {
      assert c[j] == s[j - 1] && s[j - 1] in s;
      if i > 0 {
        assert c[i] == s[i - 1];
      }
    }
  }

  /** The months kept from the rest of an increasing list all follow its head. */
  lemma AboveHead(toMonths: seq<nat>, toYear: nat, fromYm: int)
    requires Ascending(toMonths) && toMonths != []
    ensures forall x :: x in AtOrAfter(toMonths[1..], toYear, fromYm) ==> toMonths[0] < x
  {
    var t := toMonths[1..];
    assert forall i :: 0 <= i < |t| ==> toMonths[0] < t[i] by {
      forall i | 0 <= i < |t| ensures toMonths[0] < t[i] {
        assert t[i] == toMonths[i + 1];
      }
    }
  }

  /** When some month of an increasing list qualifies, the latest month does
      too and is the last one kept. */
  lemma {:induction false} AtOrAfterLast(toMonths: seq<nat>, toYear: nat, fromYm: int)
    requires Ascending(toMonths)
    ensures var r := AtOrAfter(toMonths, toYear, fromYm);
      r != [] ==> r[|r| - 1] == toMonths[|toMonths| - 1]
  {
    if toMonths != [] {
      var t := toMonths[1..];
      var rest := AtOrAfter(t, toYear, fromYm);
      AtOrAfterLast(t, toYear, fromYm);
      if YmToInt(toYear, toMonths[0]) >= fromYm && t != [] {
        assert t[|t| - 1] in rest;
      }
    }
  }

  /** The "to month" choices (cost_by_dept.py `render`): the months of the "to"
      year not before the "from" month, or all of them when none is. */
  function ValidToMonths(toMonths: seq<nat>, toYear: nat, fromYm: int): (r: seq<nat>)
    ensures (exists m :: m in toMonths && YmToInt(toYear, m) >= fromYm) ==>
              r == AtOrAfter(toMonths, toYear, fromYm) &&
              forall m :: m in r <==> m in toMonths && YmToInt(toYear, m) >= fromYm
    ensures (forall m :: m in toMonths ==> YmToInt(toYear, m) < fromYm) ==> r == toMonths
  {
    var kept := AtOrAfter(toMonths, toYear, fromYm);
    if kept == [] then toMonths else assert kept[0] in kept; kept
  }

  /** With the months of the year in increasing order, the months offered are
      increasing too and the last one, which the page preselects by default,
      is the latest month of the "to" year, whether or not the filter fell back. */
  lemma LastOfferedIsLatest(toMonths: seq<nat>, toYear: nat, fromYm: int)
    requires Ascending(toMonths) && toMonths != []
    ensures var r := ValidToMonths(toMonths, toYear, fromYm);
      Ascending(r) && r != [] && r[|r| - 1] == toMonths[|toMonths| - 1]
  {
    var kept := AtOrAfter(toMonths, toYear, fromYm);
    if kept == [] {
      assert ValidToMonths(toMonths, toYear, fromYm) == toMonths;
    } else {
      assert ValidToMonths(toMonths, toYear, fromYm) == kept;
      AtOrAfterAscending(toMonths, toYear, fromYm);
      AtOrAfterLast(toMonths, toYear, fromYm);
    }
  }

  /** Every choice offered yields a period that passes validation, unless the
      fallback offered months that all lie before the "from" month, in which
      case every choice fails it. */
  lemma ValidToMonthsDecidesValidation(toMonths: seq<nat>, toYear: nat, fromYm: int, m: nat)
    requires m in ValidToMonths(toMonths, toYear, fromYm)
    ensures (exists m' :: m' in toMonths && YmToInt(toYear, m') >= fromYm) ==> fromYm <= YmToInt(toYear, m)
    ensures (forall m' :: m' in toMonths ==> YmToInt(toYear, m') < fromYm) ==> fromYm > YmToInt(toYear, m)
  {
  }

  /** The preselected "to month": the saved month when it is still offered,
      otherwise the last month offered. */
  function DefaultToMonthIndex(offered: seq<nat>, saved: Option<nat>): (i: nat)
    requires offered != []
    ensures i < |offered|
    ensures saved.Some? && saved.value in offered ==> offered[i] == saved.value
    ensures !(saved.Some? && saved.value in offered) ==> i == |offered| - 1
  {
    if saved.Some? && saved.value in offered then IndexOf(offered, saved.value) else |offered| - 1
  }

  /** What one period row of the page's selectors holds. */
  datatype Choice = Choice(fromYear: nat, fromMonth: nat, toYear: nat, toMonth: nat)

  /** A period that passed validation: its number "Số liệu {num}" is its slot's
      position among all slots, counting from 1. */
  datatype Period = Period(num: nat, fromYear: nat, fromMonth: nat, toYear: nat, toMonth: nat, text: string)

  predicate Chronological(c: Choice)
  {
    YmToInt(c.fromYear, c.fromMonth) <= YmToInt(c.toYear, c.toMonth)
  }

  /** Positions of the choices that pass validation, in order. */
  function ValidIndices(choices: seq<Choice>): (r: seq<nat>)
    ensures forall k :: 0 <= k < |r| ==> r[k] < |choices|
  {
    if choices == [] then []
    else
      var n := |choices| - 1;
      ValidIndices(choices[..n]) + (if Chronological(choices[n]) then [n] else [])
  }

  /** A slot is collected exactly when its "from" is not after its "to", and
      slots keep their order. */
  lemma {:induction false} ValidIndicesExact(choices: seq<Choice>)
    ensures forall i: nat :: i in ValidIndices(choices) <==> i < |choices| && Chronological(choices[i])
    ensures forall j, k :: 0 <= j < k < |ValidIndices(choices)| ==>
              ValidIndices(choices)[j] < ValidIndices(choices)[k]
  {
    if choices != [] {
      var n := |choices| - 1;
      ValidIndicesExact(choices[..n]);
      assert forall i :: 0 <= i < n ==> choices[..n][i] == choices[i];
    }
  }

  function MakePeriod(choices: seq<Choice>, i: nat): Period
    requires i < |choices|
  {
    var c := choices[i];
    Period(i + 1, c.fromYear, c.fromMonth, c.toYear, c.toMonth,
           FormatPeriodLabel(c.fromYear, c.fromMonth, c.toYear, c.toMonth))
  }

  /** The validation loop of `render`: a slot whose "from" is after its "to"
      only raises a warning; every other slot becomes a collected period. */
  method CollectPeriods(choices: seq<Choice>) returns (collected: seq<Period>)
    ensures |collected| == |ValidIndices(choices)|
    ensures forall k :: 0 <= k < |collected| ==> collected[k] == MakePeriod(choices, ValidIndices(choices)[k])
    ensures forall k :: 0 <= k < |collected| ==>
              YmToInt(collected[k].fromYear, collected[k].fromMonth) <= YmToInt(collected[k].toYear, collected[k].toMonth)
  {
    collected := [];
    var i := 0;
    while i < |choices|
      invariant 0 <= i <= |choices|
      invariant |collected| == |ValidIndices(choices[..i])|
      invariant forall k :: 0 <= k < |collected| ==>
                  collected[k] == MakePeriod(choices, ValidIndices(choices[..i])[k])
    {
      assert choices[..i + 1][..i] == choices[..i];
      var c := choices[i];
      if YmToInt(c.fromYear, c.fromMonth) <= YmToInt(c.toYear, c.toMonth) {
        collected := collected + [MakePeriod(choices, i)];
      }
      i := i + 1;
    }
    assert choices[..i] == choices;
    ValidIndicesExact(choices);
    forall k | 0 <= k < |collected|
      ensures YmToInt(collected[k].fromYear, collected[k].fromMonth) <= YmToInt(collected[k].toYear, collected[k].toMonth)
    {
      assert ValidIndices(choices)[k] in ValidIndices(choices);
    }
  }

  /** The list without the entries equal to `id` (the comprehension in
      `_remove_period`). */
  function Without(ids: seq<int>, id: int): (r: seq<int>)
    ensures forall x :: x in r <==> x in ids && x != id
    ensures |r| <= |ids|
  {
    if ids == [] then []
    else if ids[0] == id then Without(ids[1..], id)
    else [ids[0]] + Without(ids[1..], id)
  }

  predicate Distinct(ids: seq<int>)
  {
    forall i, j :: 0 <= i < j < |ids| ==> ids[i] != ids[j]
  }

  /** Removing an id that is present once drops exactly that entry and keeps
      the others in order. */
  lemma {:induction false} WithoutDropsOne(ids: seq<int>, i: nat)
    requires Distinct(ids) && i < |ids|
    ensures Without(ids, ids[i]) == ids[..i] + ids[i + 1..]
  {
    if i == 0 {
      WithoutAbsent(ids[1..], ids[0]);
    } else {
      assert Distinct(ids[1..]);
      WithoutDropsOne(ids[1..], i - 1);
      assert ids[1..][..i - 1] == ids[1..i];
      assert ids[1..][i..] == ids[i + 1..];
      assert ids[..i] == [ids[0]] + ids[1..i];
    }
  }

  /** Removing an id that is not present changes nothing. */
  lemma {:induction false} WithoutAbsent(ids: seq<int>, id: int)
    requires id !in ids
    ensures Without(ids, id) == ids
  {
    if ids != [] {
      WithoutAbsent(ids[1..], id);
      assert [ids[0]] + ids[1..] == ids;
    }
  }

  lemma {:induction false} WithoutDistinct(ids: seq<int>, id: int)
    requires Distinct(ids)
    ensures Distinct(Without(ids, id))
  {
    if ids != [] {
      assert Distinct(ids[1..]);
      assert ids[0] !in ids[1..];
      WithoutDistinct(ids[1..], id);
    }
  }

  /** The session list of period slots (`_cbd_periods` with `_cbd_next_id`, and
      the same pair on the ICD and hospital-wide pages). */
  class PeriodList {
    var ids: seq<int>
    var nextId: int

    /** Ids are distinct and all below the counter. */
    ghost predicate Valid()
      reads this
    {
      Distinct(ids) && forall i :: 0 <= i < |ids| ==> ids[i] < nextId
    }

    /** `_init_periods`: two slots, ids 1 and 2, counter at 3. */
    constructor ()
      ensures Valid()
      ensures ids == [1, 2] && nextId == 3
    {
      ids := [1, 2];
      nextId := 3;
    }

    /** `_add_period`: append a slot with the next id and advance the counter. */
    method Add()
      requires Valid()
      modifies this
      ensures Valid()
      ensures ids == old(ids) + [old(nextId)] && nextId == old(nextId) + 1
    {
      ids := ids + [nextId];
      nextId := nextId + 1;
    }

    /** `_remove_period`: drop the slots with this id, keep the rest in order. */
    method Remove(id: int)
      requires Valid()
      modifies this
      ensures Valid()
      ensures ids == Without(old(ids), id) && nextId == old(nextId)
      ensures forall i :: 0 <= i < |old(ids)| && old(ids)[i] == id ==>
                ids == old(ids)[..i] + old(ids)[i + 1..]
      ensures id !in old(ids) ==> ids == old(ids)
    {
      WithoutDistinct(ids, id);
      if id in ids {
        var i :| 0 <= i < |ids| && ids[i] == id;
        WithoutDropsOne(ids, i);
      } else {
        WithoutAbsent(ids, id);
      }
      ids := Without(ids, id);
    }
  }
}
