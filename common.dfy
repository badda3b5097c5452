/** Values shared by every report page: Python's None/NaN/number cells,
    the metric fields of an aggregated row, and sums over sequences. */
module Common {

  datatype Option<+T> = None | Some(value: T)

  /** A scalar as the page code receives it from a pandas row: None, a float
      NaN, or a number. */
  datatype Cell = Null | NaN | Num(x: real)

  /** What a comparison cell shows, down to blank, dash and sign: nothing, a
      dash, or a number with a leading "+" exactly when `plus` holds. */
  datatype Shown = Blank | Dash | Signed(plus: bool, x: real)

  /** Python truthiness of a numeric cell: None and 0 are falsy, NaN is truthy. */
  predicate Truthy(c: Cell)
  {
    c.NaN? || (c.Num? && c.x != 0.0)
  }

  /** The columns an aggregation query returns: the visit count (COUNT(*),
      named so_luot) and the summed count and cost fields. */
  datatype Field =
    | SoLuot | SoNgayDtri | TTongchi | TXn | TCdha | TThuoc | TMau
    | TPttt | TVtyt | TKham | TGiuong | TBhtt | TBntt

  /** One aggregated row, as `row.to_dict()` of a query result. SQL COUNT(*) and
      SUM(IFNULL(x, 0)) are never NULL, so the values are plain numbers; a key
      that the row lacks is absent from the map. */
  type Row = map<Field, real>

  /** `row.get(f, 0) or 0` */
  function Get0(row: Row, f: Field): real
  {
    if f in row then row[f] else 0.0
  }

  /** Sum of a sequence of numbers, left to right. */
  function Sum(s: seq<real>): real
  {
    if s == [] then 0.0 else Sum(s[..|s| - 1]) + s[|s| - 1]
  }

  lemma {:induction false} SumAppend(a: seq<real>, b: seq<real>)
    ensures Sum(a + b) == Sum(a) + Sum(b)
    decreases |b|
  {
    if b == [] {
      assert a + b == a;
    } else {
      assert (a + b)[..|a + b| - 1] == a + b[..|b| - 1];
      SumAppend(a, b[..|b| - 1]);
    }
  }

  /** Sum of two equally long sequences taken element by element. */
  function PointwiseAdd(a: seq<real>, b: seq<real>): (r: seq<real>)
    requires |a| == |b|
    ensures |r| == |a|
    ensures forall i :: 0 <= i < |r| ==> r[i] == a[i] + b[i]
  {
    seq(|a|, i requires 0 <= i < |a| => a[i] + b[i])
  }

  lemma {:induction false} SumPointwiseAdd(a: seq<real>, b: seq<real>)
    requires |a| == |b|
    ensures Sum(PointwiseAdd(a, b)) == Sum(a) + Sum(b)
    decreases |a|
  {
    if a != [] {
      var n := |a| - 1;
      assert PointwiseAdd(a, b)[..n] == PointwiseAdd(a[..n], b[..n]);
      SumPointwiseAdd(a[..n], b[..n]);
    }
  }

  // ---- Dictionaries built row by row ----

  /** The dictionary `d[key] = value` leaves after a loop over the rows: a
      later row with the same key replaces an earlier one. */
  function Dict<K(==,!new), V>(rows: seq<(K, V)>): (d: map<K, V>)
    ensures forall k :: k in d <==> exists i :: 0 <= i < |rows| && rows[i].0 == k
  {
    if rows == [] then map[]
    else
      var n := |rows| - 1;
      var d0 := Dict(rows[..n]);
      assert forall i :: 0 <= i < n ==> rows[..n][i] == rows[i];
      d0[rows[n].0 := rows[n].1]
  }

  /** Each entry of the dictionary is the last row with its key. */
  lemma {:induction false} DictLastWins<K(!new), V>(rows: seq<(K, V)>, k: K)
    requires k in Dict(rows)
    ensures exists i :: 0 <= i < |rows| && rows[i].0 == k && Dict(rows)[k] == rows[i].1 &&
                        (forall j :: i < j < |rows| ==> rows[j].0 != k)
  {
    var n := |rows| - 1;
    if rows[n].0 == k {
      assert Dict(rows)[k] == rows[n].1;
    } else {
      DictLastWins(rows[..n], k);
      var i :| 0 <= i < n && rows[..n][i].0 == k && Dict(rows[..n])[k] == rows[..n][i].1 &&
        forall j :: i < j < n ==> rows[..n][j].0 != k;
      assert rows[i] == rows[..n][i];
      forall j | i < j < |rows|
        ensures rows[j].0 != k
      {
        if j < n { assert rows[j] == rows[..n][j]; }
      }
    }
  }

  /** The loop over the rows of one result frame. */
  method ReadDict<K(==,!new), V>(rows: seq<(K, V)>) returns (d: map<K, V>)
    ensures d == Dict(rows)
  {
    d := map[];
    var j := 0;
    while j < |rows|
      invariant 0 <= j <= |rows|
      invariant d == Dict(rows[..j])
    {
      assert rows[..j + 1][..j] == rows[..j];
      d := d[rows[j].0 := rows[j].1];
      j := j + 1;
    }
    assert rows[..j] == rows;
  }

  /** One dictionary per period; a period without a frame, or with an empty
      one, gives an empty dictionary. */
  method BuildDicts<K(==,!new), V>(frames: seq<Option<seq<(K, V)>>>) returns (data: seq<map<K, V>>)
    ensures |data| == |frames|
    ensures forall pi :: 0 <= pi < |data| ==>
      data[pi] == (if frames[pi].None? then map[] else Dict(frames[pi].value))
  {
    data := [];
    var pi := 0;
    while pi < |frames|
      invariant 0 <= pi <= |frames| && |data| == pi
      invariant forall q :: 0 <= q < pi ==>
        data[q] == (if frames[q].None? then map[] else Dict(frames[q].value))
    {
      var d: map<K, V> := map[];
      if frames[pi].Some? && frames[pi].value != [] {
        d := ReadDict(frames[pi].value);
      }
      data := data + [d];
      pi := pi + 1;
    }
  }

  /** Python's `list.index(x)`: the first position holding x. */
  function IndexOf<T(==)>(s: seq<T>, x: T): (i: nat)
    requires x in s
    ensures i < |s| && s[i] == x
    ensures forall j :: 0 <= j < i ==> s[j] != x
  {
    if s[0] == x then 0 else 1 + IndexOf(s[1..], x)
  }
}
