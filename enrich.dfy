/** The enriched view over the settlement records: every record is joined
    with the three lookup tables (treatment kind, facility, department) on
    the entry in force in the record's settlement month, and gains the
    derived department name `khoa` and the three-character disease group
    `ma_benh_chinh`. */
module Enrich {
  import opened Common
  import opened Periods

  const Outpatient: string := "Ngoại trú"
  const Inpatient: string := "Nội trú"
  /** The outpatient sub-kind "outpatient treatment" (as opposed to a visit). */
  const OutpatientTreatment: string := "Điều trị ngoại trú"
  const Examination: string := "Khám bệnh"
  /** The one department whose outpatient treatments keep their own name. */
  const SentinelDept: string := "K35"

  /** The settlement month as a YYYYMMDD date: its first day. */
  function SettlementDay(year: int, month: int): int
  {
    year * 10000 + month * 100 + 1
  }

  /** The validity condition every join carries. A NULL `valid_from` makes the
      comparison unknown, so such an entry never joins; a NULL `valid_to`
      means open-ended. */
  predicate InForce(validFrom: Option<int>, validTo: Option<int>, year: int, month: int)
  {
    validFrom.Some? && validFrom.value <= SettlementDay(year, month) &&
    (validTo.None? || validTo.value >= SettlementDay(year, month))
  }

  /** A YYYYMMDD date. */
  function DateInt(year: int, month: int, day: int): int
  {
    year * 10000 + month * 100 + day
  }

  lemma DateIntOrder(y1: int, m1: int, d1: int, y2: int, m2: int, d2: int)
    requires 1 <= m1 <= 12 && 1 <= m2 <= 12 && 1 <= d1 <= 31 && 1 <= d2 <= 31
    ensures DateInt(y1, m1, d1) <= DateInt(y2, m2, d2) <==>
      YmToInt(y1, m1) < YmToInt(y2, m2) || (YmToInt(y1, m1) == YmToInt(y2, m2) && d1 <= d2)
  {
    YmToIntChronological(y1, m1, y2, m2);
    YmToIntChronological(y2, m2, y1, m1);
    if y1 < y2 {
      assert (y2 - y1) * 10000 >= 10000;
    } else if y1 > y2 {
      assert (y1 - y2) * 10000 >= 10000;
    }
  }

  /** Read in months: an entry valid from a date applies to a settlement month
      when it started in an earlier month or on the first day of that month,
      and it stops applying after the month its `valid_to` falls in. */
  lemma {:induction false} InForceByMonth(
    fy: int, fm: int, fd: int, validTo: Option<(int, int, int)>, year: int, month: int)
    requires 1 <= fm <= 12 && 1 <= fd <= 31 && 1 <= month <= 12
    requires validTo.Some? ==> 1 <= validTo.value.1 <= 12 && 1 <= validTo.value.2 <= 31
    ensures InForce(Some(DateInt(fy, fm, fd)),
                    if validTo.None? then None
                    else Some(DateInt(validTo.value.0, validTo.value.1, validTo.value.2)),
                    year, month)
      <==>
      (YmToInt(fy, fm) < YmToInt(year, month) || (YmToInt(fy, fm) == YmToInt(year, month) && fd == 1)) &&
      (validTo.None? || YmToInt(year, month) <= YmToInt(validTo.value.0, validTo.value.1))
  {
    assert SettlementDay(year, month) == DateInt(year, month, 1);
    DateIntOrder(fy, fm, fd, year, month, 1);
    if validTo.Some? {
      var (ty, tm, td) := validTo.value;
      DateIntOrder(year, month, 1, ty, tm, td);
    }
  }

  /** The department name of a record, from its treatment kind (`ml2`), its
      outpatient sub-kind (`ml4`), its own department code, the joined
      department's short name and the joined facility's name. A NULL `ml2` or
      `ml4` compares unknown and falls to the ELSE branch. */
  function Khoa(ml2: Option<string>, ml4: Option<string>, maKhoa: Option<string>,
                shortName: Option<string>, tenCskcb: Option<string>): (k: Option<string>)
    ensures k.None? <==>
      shortName.None? &&
      (ml2 != Some(Outpatient) || (ml4 == Some(OutpatientTreatment) && maKhoa == Some(SentinelDept)))
  {
    if ml2 == Some(Outpatient) then
      if ml4 == Some(OutpatientTreatment) then
        if maKhoa == Some(SentinelDept) then shortName else Some(OutpatientTreatment)
      else Some(ExaminationName(tenCskcb))
    else shortName
  }

  /** "Khám bệnh (<facility name>)", with an empty name for a missing facility. */
  function ExaminationName(tenCskcb: Option<string>): (s: string)
    ensures |s| >= |Examination| + 3
    ensures s[..|Examination| + 2] == Examination + " ("
    ensures s[|s| - 1] == ')'
    ensures tenCskcb.Some? ==> s[|Examination| + 2..|s| - 1] == tenCskcb.value
    ensures tenCskcb.None? ==> |s| == |Examination| + 3
  {
    Examination + " (" + (if tenCskcb.Some? then tenCskcb.value else "") + ")"
  }

  /** The classification as the view's documentation lays it out; it speaks
      only of the two treatment kinds and of the two outpatient sub-kinds,
      and answers None elsewhere. */
  function DocumentedKhoa(ml2: string, ml4: string, maKhoa: Option<string>,
                          shortName: Option<string>, tenCskcb: string): Option<Option<string>>
  {
    if ml2 == Outpatient && ml4 == Examination then Some(Some("Khám bệnh (" + tenCskcb + ")"))
    else if ml2 == Outpatient && ml4 == OutpatientTreatment && maKhoa == Some("K35") then Some(shortName)
    else if ml2 == Outpatient && ml4 == OutpatientTreatment then Some(Some("Điều trị ngoại trú"))
    else if ml2 == Inpatient then Some(shortName)
    else None
  }

  /** On every combination the documentation covers, the view computes what it
      documents. */
  lemma KhoaFollowsDocumentation(ml2: string, ml4: string, maKhoa: Option<string>,
                                 shortName: Option<string>, tenCskcb: string)
    requires DocumentedKhoa(ml2, ml4, maKhoa, shortName, tenCskcb).Some?
    ensures Khoa(Some(ml2), Some(ml4), maKhoa, shortName, Some(tenCskcb))
         == DocumentedKhoa(ml2, ml4, maKhoa, shortName, tenCskcb).value
  {
    assert ExaminationName(Some(tenCskcb)) == "Khám bệnh (" + tenCskcb + ")";
    assert |Examination| != |OutpatientTreatment|;
  }

  /** Beyond the documentation: any outpatient sub-kind other than outpatient
      treatment, or none at all, is named as an examination at the facility;
      a record whose treatment kind did not join is treated like an inpatient
      one. */
  lemma KhoaBeyondDocumentation(ml2: Option<string>, ml4: Option<string>, maKhoa: Option<string>,
                                shortName: Option<string>, tenCskcb: Option<string>)
    ensures ml2 == Some(Outpatient) && ml4 != Some(OutpatientTreatment) ==>
      Khoa(ml2, ml4, maKhoa, shortName, tenCskcb) == Some(ExaminationName(tenCskcb))
    ensures ml2 != Some(Outpatient) ==> Khoa(ml2, ml4, maKhoa, shortName, tenCskcb) == shortName
  {
  }

  /** `LEFT(ma_benh, 3)`: the first three characters, or the whole code when
      shorter; NULL stays NULL. */
  function MaBenhChinh(maBenh: Option<string>): (r: Option<string>)
    ensures r.Some? <==> maBenh.Some?
    ensures maBenh.Some? ==>
      |r.value| == (if |maBenh.value| < 3 then |maBenh.value| else 3) &&
      r.value == maBenh.value[..|r.value|]
  {
    if maBenh.None? then None
    else if |maBenh.value| < 3 then maBenh
    else Some(maBenh.value[..3])
  }

  /** Codes that share their first three characters fall in the same group. */
  lemma MaBenhChinhGroups(a: string, b: string)
    requires |a| >= 3 && |b| >= 3
    ensures MaBenhChinh(Some(a)) == MaBenhChinh(Some(b)) <==> a[..3] == b[..3]
  {
  }

  // ---- The lookup tables and the join ----

  datatype LoaiKcbEntry = LoaiKcbEntry(
    maLoaikcb: Option<int>, ml2: Option<string>, ml4: Option<string>,
    validFrom: Option<int>, validTo: Option<int>)

  datatype CskcbEntry = CskcbEntry(
    maCskcb: Option<string>, tenCskcb: Option<string>,
    validFrom: Option<int>, validTo: Option<int>)

  datatype KhoaEntry = KhoaEntry(
    maCskcb: Option<string>, makhoaXml: Option<string>, shortName: Option<string>,
    validFrom: Option<int>, validTo: Option<int>)

  /** The columns of a settlement record the view uses; `amounts` holds the
      numeric columns that are not NULL. */
  datatype Fact = Fact(
    namQt: int, thangQt: int, maLoaikcb: Option<int>, maCskcb: Option<string>,
    maKhoa: Option<string>, maBenh: Option<string>, amounts: map<Field, real>)

  /** A row of the view: the record and the five added columns. */
  datatype ViewRow = ViewRow(
    fact: Fact, ml2: Option<string>, ml4: Option<string>, tenCskcb: Option<string>,
    khoa: Option<string>, maBenhChinh: Option<string>)

  /** SQL `=`: true only when both sides are non-NULL and equal. */
  predicate SqlEq<T(==)>(a: Option<T>, b: Option<T>)
  {
    a.Some? && b.Some? && a.value == b.value
  }

  predicate JoinsLoaiKcb(t: Fact, e: LoaiKcbEntry)
  {
    SqlEq(t.maLoaikcb, e.maLoaikcb) && InForce(e.validFrom, e.validTo, t.namQt, t.thangQt)
  }

  predicate JoinsCskcb(t: Fact, e: CskcbEntry)
  {
    SqlEq(t.maCskcb, e.maCskcb) && InForce(e.validFrom, e.validTo, t.namQt, t.thangQt)
  }

  predicate JoinsKhoa(t: Fact, e: KhoaEntry)
  {
    SqlEq(t.maCskcb, e.maCskcb) && SqlEq(t.maKhoa, e.makhoaXml) &&
    InForce(e.validFrom, e.validTo, t.namQt, t.thangQt)
  }

  function LoaiKcbMatches(t: Fact, table: seq<LoaiKcbEntry>): (m: seq<LoaiKcbEntry>)
    ensures forall e :: e in m <==> e in table && JoinsLoaiKcb(t, e)
  {
    if table == [] then []
    else (if JoinsLoaiKcb(t, table[0]) then [table[0]] else []) + LoaiKcbMatches(t, table[1..])
  }

  function CskcbMatches(t: Fact, table: seq<CskcbEntry>): (m: seq<CskcbEntry>)
    ensures forall e :: e in m <==> e in table && JoinsCskcb(t, e)
  {
    if table == [] then []
    else (if JoinsCskcb(t, table[0]) then [table[0]] else []) + CskcbMatches(t, table[1..])
  }

  function KhoaMatches(t: Fact, table: seq<KhoaEntry>): (m: seq<KhoaEntry>)
    ensures forall e :: e in m <==> e in table && JoinsKhoa(t, e)
  {
    if table == [] then []
    else (if JoinsKhoa(t, table[0]) then [table[0]] else []) + KhoaMatches(t, table[1..])
  }

  /** LEFT JOIN: the matching entries, or one NULL-extended side when none matches. */
  function LeftSide<T>(matches: seq<T>): (r: seq<Option<T>>)
    ensures |r| == if matches == [] then 1 else |matches|
    ensures matches == [] ==> r == [None]
    ensures forall i :: 0 <= i < |matches| ==> r[i] == Some(matches[i])
  {
    if matches == [] then [None] else seq(|matches|, i requires 0 <= i < |matches| => Some(matches[i]))
  }

  /** The view's columns for a record and one choice of joined entries. */
  function Build(t: Fact, lk: Option<LoaiKcbEntry>, cs: Option<CskcbEntry>, kp: Option<KhoaEntry>): (r: ViewRow)
    ensures r.fact == t
  {
    var ml2 := if lk.Some? then lk.value.ml2 else None;
    var ml4 := if lk.Some? then lk.value.ml4 else None;
    var ten := if cs.Some? then cs.value.tenCskcb else None;
    var shortName := if kp.Some? then kp.value.shortName else None;
    ViewRow(t, ml2, ml4, ten, Khoa(ml2, ml4, t.maKhoa, shortName, ten), MaBenhChinh(t.maBenh))
  }

  function BuildAllKp(t: Fact, lk: Option<LoaiKcbEntry>, cs: Option<CskcbEntry>,
                      kps: seq<Option<KhoaEntry>>): (r: seq<ViewRow>)
    ensures |r| == |kps|
    ensures forall i :: 0 <= i < |r| ==> r[i] == Build(t, lk, cs, kps[i])
  {
    if kps == [] then [] else [Build(t, lk, cs, kps[0])] + BuildAllKp(t, lk, cs, kps[1..])
  }

  function BuildAllCs(t: Fact, lk: Option<LoaiKcbEntry>, css: seq<Option<CskcbEntry>>,
                      kps: seq<Option<KhoaEntry>>): (r: seq<ViewRow>)
    ensures |r| == |css| * |kps|
    ensures forall v :: v in r ==> v.fact == t
  {
    if css == [] then [] else BuildAllKp(t, lk, css[0], kps) + BuildAllCs(t, lk, css[1..], kps)
  }

  function BuildAllLk(t: Fact, lks: seq<Option<LoaiKcbEntry>>, css: seq<Option<CskcbEntry>>,
                      kps: seq<Option<KhoaEntry>>): (r: seq<ViewRow>)
    ensures |r| == |lks| * (|css| * |kps|)
    ensures forall v :: v in r ==> v.fact == t
  {
    if lks == [] then [] else BuildAllCs(t, lks[0], css, kps) + BuildAllLk(t, lks[1..], css, kps)
  }

  /** The view rows one record produces: one per combination of joined
      entries. */
  function EnrichFact(t: Fact, lk: seq<LoaiKcbEntry>, cs: seq<CskcbEntry>, kp: seq<KhoaEntry>): (r: seq<ViewRow>)
    ensures forall v :: v in r ==> v.fact == t
  {
    BuildAllLk(t, LeftSide(LoaiKcbMatches(t, lk)), LeftSide(CskcbMatches(t, cs)), LeftSide(KhoaMatches(t, kp)))
  }

  /** The whole view, record by record. */
  function View(facts: seq<Fact>, lk: seq<LoaiKcbEntry>, cs: seq<CskcbEntry>, kp: seq<KhoaEntry>): seq<ViewRow>
  {
    if facts == [] then [] else EnrichFact(facts[0], lk, cs, kp) + View(facts[1..], lk, cs, kp)
  }

  /** A LEFT JOIN never loses a record: it yields one row per combination of
      matches, and at least one. */
  lemma EnrichFactCount(t: Fact, lk: seq<LoaiKcbEntry>, cs: seq<CskcbEntry>, kp: seq<KhoaEntry>)
    ensures |EnrichFact(t, lk, cs, kp)| ==
      |LeftSide(LoaiKcbMatches(t, lk))| * (|LeftSide(CskcbMatches(t, cs))| * |LeftSide(KhoaMatches(t, kp))|)
    ensures |EnrichFact(t, lk, cs, kp)| >= 1
  {
    var a, b, c := |LeftSide(LoaiKcbMatches(t, lk))|, |LeftSide(CskcbMatches(t, cs))|, |LeftSide(KhoaMatches(t, kp))|;
    assert a >= 1 && b >= 1 && c >= 1;
    assert b * c >= 1;
    assert a * (b * c) >= 1;
  }

  /** The lookup tables are unambiguous for a record when at most one entry of
      each is in force for it. */
  predicate Unambiguous(t: Fact, lk: seq<LoaiKcbEntry>, cs: seq<CskcbEntry>, kp: seq<KhoaEntry>)
  {
    |LoaiKcbMatches(t, lk)| <= 1 && |CskcbMatches(t, cs)| <= 1 && |KhoaMatches(t, kp)| <= 1
  }

  function First<T>(s: seq<T>): Option<T>
  {
    if s == [] then None else Some(s[0])
  }

  /** With unambiguous lookups a record yields exactly one view row, built from
      the single entry in force of each table (or NULLs). */
  lemma EnrichFactUnique(t: Fact, lk: seq<LoaiKcbEntry>, cs: seq<CskcbEntry>, kp: seq<KhoaEntry>)
    requires Unambiguous(t, lk, cs, kp)
    ensures EnrichFact(t, lk, cs, kp) ==
      [Build(t, First(LoaiKcbMatches(t, lk)), First(CskcbMatches(t, cs)), First(KhoaMatches(t, kp)))]
  {
    var lks := LeftSide(LoaiKcbMatches(t, lk));
    var css := LeftSide(CskcbMatches(t, cs));
    var kps := LeftSide(KhoaMatches(t, kp));
    assert lks == [First(LoaiKcbMatches(t, lk))];
    assert css == [First(CskcbMatches(t, cs))];
    assert kps == [First(KhoaMatches(t, kp))];
    assert BuildAllCs(t, lks[0], css[1..], kps) == [];
    assert BuildAllLk(t, lks[1..], css, kps) == [];
  }

  /** The view keeps the records in order and, with unambiguous lookups,
      neither drops nor repeats any of them. */
  lemma {:induction false} ViewOneRowPerFact(facts: seq<Fact>, lk: seq<LoaiKcbEntry>, cs: seq<CskcbEntry>, kp: seq<KhoaEntry>)
    requires forall i :: 0 <= i < |facts| ==> Unambiguous(facts[i], lk, cs, kp)
    ensures |View(facts, lk, cs, kp)| == |facts|
    ensures forall i :: 0 <= i < |facts| ==> View(facts, lk, cs, kp)[i].fact == facts[i]
  {
    if facts != [] {
      var head := EnrichFact(facts[0], lk, cs, kp);
      SingleRowOfFact(facts[0], lk, cs, kp);
      assert forall i :: 0 <= i < |facts| - 1 ==> facts[1..][i] == facts[i + 1];
      ViewOneRowPerFact(facts[1..], lk, cs, kp);
      var rest := View(facts[1..], lk, cs, kp);
      assert View(facts, lk, cs, kp) == head + rest;
      ConsRowsOfFacts(head, rest, facts);
    }
  }

  lemma ConsRowsOfFacts(head: seq<ViewRow>, rest: seq<ViewRow>, facts: seq<Fact>)
    requires |facts| >= 1 && |head| == 1 && head[0].fact == facts[0]
    requires |rest| == |facts| - 1 && forall i :: 0 <= i < |rest| ==> rest[i].fact == facts[i + 1]
    ensures |head + rest| == |facts|
    ensures forall i :: 0 <= i < |facts| ==> (head + rest)[i].fact == facts[i]
  {
  }

  lemma SingleRowOfFact(t: Fact, lk: seq<LoaiKcbEntry>, cs: seq<CskcbEntry>, kp: seq<KhoaEntry>)
    requires Unambiguous(t, lk, cs, kp)
    ensures |EnrichFact(t, lk, cs, kp)| == 1 && EnrichFact(t, lk, cs, kp)[0].fact == t
  {
    EnrichFactUnique(t, lk, cs, kp);
  }
}
