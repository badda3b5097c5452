/** The aggregation queries the report pages run over the enriched view:
    select the records of a settlement-month range, group them, count them
    (`COUNT(*)`) and sum their amounts with NULL read as zero
    (`SUM(IFNULL(x, 0))`). */
module Aggregate {
  import opened Common
  import opened Periods
  import opened Enrich

  /** `(nam_qt * 100 + thang_qt) BETWEEN fromYm AND toYm`; BETWEEN includes
      both ends. */
  predicate InRange(v: ViewRow, fromYm: int, toYm: int)
  {
    fromYm <= YmToInt(v.fact.namQt, v.fact.thangQt) <= toYm
  }

  /** In calendar terms: a record is selected exactly when its settlement month
      lies between the first and the last month of the period, both included. */
  lemma InRangeInclusive(v: ViewRow, fromYear: int, fromMonth: int, toYear: int, toMonth: int)
    requires 1 <= fromMonth <= 12 && 1 <= toMonth <= 12 && 1 <= v.fact.thangQt <= 12
    ensures InRange(v, YmToInt(fromYear, fromMonth), YmToInt(toYear, toMonth)) <==>
      (fromYear < v.fact.namQt || (fromYear == v.fact.namQt && fromMonth <= v.fact.thangQt)) &&
      (v.fact.namQt < toYear || (v.fact.namQt == toYear && v.fact.thangQt <= toMonth))
  {
    YmToIntChronological(fromYear, fromMonth, v.fact.namQt, v.fact.thangQt);
    YmToIntChronological(v.fact.namQt, v.fact.thangQt, toYear, toMonth);
  }

  /** What one record contributes to a column: 1 to the count, its amount (or
      0 when NULL) to a sum. */
  function FieldValue(v: ViewRow, f: Field): real
  {
    if f == SoLuot then 1.0
    else if f in v.fact.amounts then v.fact.amounts[f]
    else 0.0
  }

  function Column(rows: seq<ViewRow>, f: Field): (c: seq<real>)
    ensures |c| == |rows|
    ensures forall i :: 0 <= i < |c| ==> c[i] == FieldValue(rows[i], f)
  {
    seq(|rows|, i requires 0 <= i < |rows| => FieldValue(rows[i], f))
  }

  /** The aggregated row of a group of records, for the columns a query asks for. */
  function Totals(rows: seq<ViewRow>, fields: set<Field>): (t: Row)
    ensures t.Keys == fields
    ensures forall f :: f in fields ==> t[f] == Sum(Column(rows, f))
  {
    map f | f in fields :: Sum(Column(rows, f))
  }

  /** WHERE: the records satisfying a condition, in order. */
  function Where(rows: seq<ViewRow>, p: ViewRow -> bool): (r: seq<ViewRow>)
    ensures forall v :: v in r <==> v in rows && p(v)
    ensures forall v :: multiset(r)[v] == if p(v) then multiset(rows)[v] else 0
    ensures |r| <= |rows|
  {
    if rows == [] then []
    else
      assert rows == rows[..|rows| - 1] + [rows[|rows| - 1]];
      Where(rows[..|rows| - 1], p) + (if p(rows[|rows| - 1]) then [rows[|rows| - 1]] else [])
  }

  /** The records of one group. */
  function Group<K(==,!new)>(rows: seq<ViewRow>, key: ViewRow -> K, k: K): (r: seq<ViewRow>)
    ensures forall v :: v in r <==> v in rows && key(v) == k
    ensures forall v :: multiset(r)[v] == if key(v) == k then multiset(rows)[v] else 0
  {
    if rows == [] then []
    else
      assert rows == rows[..|rows| - 1] + [rows[|rows| - 1]];
      Group(rows[..|rows| - 1], key, k) + (if key(rows[|rows| - 1]) == k then [rows[|rows| - 1]] else [])
  }

  /** GROUP BY: one aggregated row per key that occurs. */
  function GroupBy<K(==,!new)>(rows: seq<ViewRow>, key: ViewRow -> K, fields: set<Field>): (g: map<K, Row>)
    ensures forall k :: k in g <==> exists v :: v in rows && key(v) == k
    ensures forall k :: k in g ==> g[k] == Totals(Group(rows, key, k), fields)
  {
    var keys := set v | v in rows :: key(v);
    map k | k in keys :: Totals(Group(rows, key, k), fields)
  }

  /** Every column the department and hospital queries return. */
  const AllFields: set<Field> :=
    {SoLuot, SoNgayDtri, TTongchi, TXn, TCdha, TThuoc, TMau, TPttt, TVtyt, TKham, TGiuong, TBhtt, TBntt}

  /** The columns the disease-group query returns. */
  const IcdFields: set<Field> := {SoLuot, SoNgayDtri, TTongchi, TBhtt}

  /** Per department: records of the range with a department name, grouped by
      (treatment kind, department). */
  function DeptQuery(view: seq<ViewRow>, fromYm: int, toYm: int): (g: map<(Option<string>, string), Row>)
    ensures forall k :: k in g ==> g[k].Keys == AllFields
    ensures forall k :: k in g <==>
      exists v :: v in view && InRange(v, fromYm, toYm) && v.khoa.Some? && (v.ml2, v.khoa.value) == k
  {
    GroupBy(HospitalSelection(view, fromYm, toYm), (v: ViewRow) => (v.ml2, if v.khoa.Some? then v.khoa.value else ""), AllFields)
  }

  /** Hospital-wide: records of the range with a department name, grouped by
      treatment kind. */
  function HospitalQuery(view: seq<ViewRow>, fromYm: int, toYm: int): (g: map<Option<string>, Row>)
    ensures forall k :: k in g ==> g[k].Keys == AllFields
    ensures forall k :: k in g <==>
      exists v :: v in view && InRange(v, fromYm, toYm) && v.khoa.Some? && v.ml2 == k
  {
    GroupBy(HospitalSelection(view, fromYm, toYm), Ml2Key, AllFields)
  }

  /** The hospital-wide grouping key: the treatment kind. */
  function Ml2Key(v: ViewRow): Option<string>
  {
    v.ml2
  }

  /** The records both the department and the hospital-wide query aggregate. */
  function HospitalSelection(view: seq<ViewRow>, fromYm: int, toYm: int): (r: seq<ViewRow>)
    ensures forall v :: v in r <==> v in view && InRange(v, fromYm, toYm) && v.khoa.Some?
  {
    Where(view, (v: ViewRow) => InRange(v, fromYm, toYm) && v.khoa.Some?)
  }

  /** Per disease group: records of the range with a disease group, optionally
      restricted to one treatment kind and one department (None stands for
      the whole hospital). A NULL `ml2` or `khoa` never equals a filter value. */
  function IcdQuery(view: seq<ViewRow>, fromYm: int, toYm: int,
                    ml2Filter: Option<string>, khoaFilter: Option<string>): (g: map<string, Row>)
    ensures forall k :: k in g ==> g[k].Keys == IcdFields
    ensures forall k :: k in g <==>
      exists v :: v in view && InRange(v, fromYm, toYm) && v.maBenhChinh == Some(k) &&
        (ml2Filter.None? || v.ml2 == ml2Filter) && (khoaFilter.None? || v.khoa == khoaFilter)
  {
    var selected := Where(view, (v: ViewRow) => InRange(v, fromYm, toYm) && v.maBenhChinh.Some? &&
                                     (ml2Filter.None? || v.ml2 == ml2Filter) &&
                                     (khoaFilter.None? || v.khoa == khoaFilter));
    GroupBy(selected, (v: ViewRow) => if v.maBenhChinh.Some? then v.maBenhChinh.value else "", IcdFields)
  }

  // ---- Properties of the aggregates ----

  lemma ColumnAppend(a: seq<ViewRow>, b: seq<ViewRow>, f: Field)
    ensures Column(a + b, f) == Column(a, f) + Column(b, f)
  {
  }

  /** Sums over a split selection add up. */
  lemma TotalsAdditive(a: seq<ViewRow>, b: seq<ViewRow>, f: Field)
    ensures Sum(Column(a + b, f)) == Sum(Column(a, f)) + Sum(Column(b, f))
  {
    ColumnAppend(a, b, f);
    SumAppend(Column(a, f), Column(b, f));
  }

  /** `COUNT(*)` is the number of records of the group. */
  lemma {:induction false} CountIsRowCount(rows: seq<ViewRow>)
    ensures Sum(Column(rows, SoLuot)) == |rows| as real
  {
    if rows != [] {
      var n := |rows| - 1;
      assert rows == rows[..n] + [rows[n]];
      TotalsAdditive(rows[..n], [rows[n]], SoLuot);
      CountIsRowCount(rows[..n]);
      assert Column([rows[n]], SoLuot) == [1.0];
      assert Sum([1.0]) == Sum([]) + 1.0;
    }
  }

  /** A column that is NULL in every record sums to 0, not to NULL. */
  lemma {:induction false} NullColumnSumsToZero(rows: seq<ViewRow>, f: Field)
    requires f != SoLuot
    requires forall i :: 0 <= i < |rows| ==> f !in rows[i].fact.amounts
    ensures Sum(Column(rows, f)) == 0.0
  {
    if rows != [] {
      var n := |rows| - 1;
      assert Column(rows, f)[..n] == Column(rows[..n], f);
      NullColumnSumsToZero(rows[..n], f);
    }
  }

  /** Sums are never negative when the amounts are not. */
  lemma {:induction false} SumNonNegative(rows: seq<ViewRow>, f: Field)
    requires forall i :: 0 <= i < |rows| ==> f in rows[i].fact.amounts ==> rows[i].fact.amounts[f] >= 0.0
    ensures Sum(Column(rows, f)) >= 0.0
  {
    if rows != [] {
      var n := |rows| - 1;
      assert Column(rows, f)[..n] == Column(rows[..n], f);
      SumNonNegative(rows[..n], f);
    }
  }

  /** A key no record has gives an empty group. */
  lemma {:induction false} GroupOfAbsentKey<K(!new)>(rows: seq<ViewRow>, key: ViewRow -> K, k: K)
    requires forall v :: v in rows ==> key(v) != k
    ensures Group(rows, key, k) == []
  {
    if rows != [] {
      var n := |rows| - 1;
      assert forall i :: 0 <= i < n ==> rows[..n][i] == rows[i];
      GroupOfAbsentKey(rows[..n], key, k);
      assert rows[n] in rows;
    }
  }

  /** When every record falls in one of two groups, the two group sums add up
      to the sum over all records. */
  lemma {:induction false} TwoGroupsPartition<K(!new)>(rows: seq<ViewRow>, key: ViewRow -> K, k1: K, k2: K, f: Field)
    requires k1 != k2
    requires forall i :: 0 <= i < |rows| ==> key(rows[i]) == k1 || key(rows[i]) == k2
    ensures Sum(Column(rows, f)) == Sum(Column(Group(rows, key, k1), f)) + Sum(Column(Group(rows, key, k2), f))
  {
    if rows != [] {
      var n := |rows| - 1;
      var init, last := rows[..n], rows[n];
      assert rows == init + [last];
      TwoGroupsPartition(init, key, k1, k2, f);
      TotalsAdditive(init, [last], f);
      if key(last) == k1 {
        assert Group(rows, key, k1) == Group(init, key, k1) + [last];
        assert Group(rows, key, k2) == Group(init, key, k2);
        TotalsAdditive(Group(init, key, k1), [last], f);
      } else {
        assert Group(rows, key, k1) == Group(init, key, k1);
        assert Group(rows, key, k2) == Group(init, key, k2) + [last];
        TotalsAdditive(Group(init, key, k2), [last], f);
      }
    }
  }
}
