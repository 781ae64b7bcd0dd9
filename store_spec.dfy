/** What the plottable data store of Assets/Scripts/PlottableData.cs keeps,
    as functions over values: the per-column running minimum and maximum,
    the per-column sorted list of distinct values (the keys of its rank
    lists), the effect of SetData, AddData and SetColumnRank on the whole
    store, and the invariant they keep. Values are finite reals: NaN is
    not modelled here. */
module StoreSpec {
  import opened Common

  /** One data point: a value per column. */
  type Point = seq<real>

  /** Every point has at least `n` columns. */
  predicate Wide(rows: seq<Point>, n: int)
  {
    forall i :: 0 <= i < |rows| ==> n <= |rows[i]|
  }

  // ---------------------------------------------------------------------
  // Running minimum and maximum of a column
  // ---------------------------------------------------------------------

  /** The minimum the SetData loop computes: starting from `seed`, each
      point in turn replaces it when its value in column `j` is smaller. */
  function MinOf(seed: real, rows: seq<Point>, j: nat): real
    requires Wide(rows, j + 1)
  {
    if rows == [] then seed
    else
      var m := MinOf(seed, rows[..|rows| - 1], j);
      var v := rows[|rows| - 1][j];
      if v < m then v else m
  }

  /** The maximum the SetData loop computes, symmetrically. */
  function MaxOf(seed: real, rows: seq<Point>, j: nat): real
    requires Wide(rows, j + 1)
  {
    if rows == [] then seed
    else
      var m := MaxOf(seed, rows[..|rows| - 1], j);
      var v := rows[|rows| - 1][j];
      if v > m then v else m
  }

  /** The values of column `j`. */
  function ColumnValues(rows: seq<Point>, j: nat): set<real>
    requires Wide(rows, j + 1)
  {
    set i | 0 <= i < |rows| :: rows[i][j]
  }

  /** The running minimum is at most the seed and every value of the
      column, and is the seed or one of those values. */
  lemma {:induction false} MinOfBounds(seed: real, rows: seq<Point>, j: nat)
    requires Wide(rows, j + 1)
    ensures MinOf(seed, rows, j) <= seed
    ensures forall i :: 0 <= i < |rows| ==> MinOf(seed, rows, j) <= rows[i][j]
    ensures MinOf(seed, rows, j) == seed || MinOf(seed, rows, j) in ColumnValues(rows, j)
    decreases |rows|
  {
    if rows != [] {
      var init := rows[..|rows| - 1];
      MinOfBounds(seed, init, j);
      assert forall i :: 0 <= i < |init| ==> init[i] == rows[i];
      assert ColumnValues(init, j) <= ColumnValues(rows, j);
    }
  }

  /** The running maximum is at least the seed and every value of the
      column, and is the seed or one of those values. */
  lemma {:induction false} MaxOfBounds(seed: real, rows: seq<Point>, j: nat)
    requires Wide(rows, j + 1)
    ensures MaxOf(seed, rows, j) >= seed
    ensures forall i :: 0 <= i < |rows| ==> MaxOf(seed, rows, j) >= rows[i][j]
    ensures MaxOf(seed, rows, j) == seed || MaxOf(seed, rows, j) in ColumnValues(rows, j)
    decreases |rows|
  {
    if rows != [] {
      var init := rows[..|rows| - 1];
      MaxOfBounds(seed, init, j);
      assert forall i :: 0 <= i < |init| ==> init[i] == rows[i];
      assert ColumnValues(init, j) <= ColumnValues(rows, j);
    }
  }

  /** One more point: the running minimum and maximum of a longer prefix. */
  lemma MinMaxSnoc(seed: real, rows: seq<Point>, i: nat, j: nat)
    requires i < |rows| && Wide(rows, j + 1)
    ensures Wide(rows[..i], j + 1) && Wide(rows[..i + 1], j + 1)
    ensures MinOf(seed, rows[..i + 1], j) ==
      (if rows[i][j] < MinOf(seed, rows[..i], j) then rows[i][j] else MinOf(seed, rows[..i], j))
    ensures MaxOf(seed, rows[..i + 1], j) ==
      (if rows[i][j] > MaxOf(seed, rows[..i], j) then rows[i][j] else MaxOf(seed, rows[..i], j))
  {
    assert rows[..i + 1][..i] == rows[..i];
  }

  // ---------------------------------------------------------------------
  // The sorted key list of a column (the keys of its rank list)
  // ---------------------------------------------------------------------

  predicate StrictlySorted(keys: seq<real>)
  {
    forall i, k :: 0 <= i < k < |keys| ==> keys[i] < keys[k]
  }

  function Elements(keys: seq<real>): set<real>
  {
    set x | x in keys
  }

  /** Adding a key that is not there to a sorted key list, at its place. */
  function Insert(keys: seq<real>, v: real): (r: seq<real>)
    requires StrictlySorted(keys) && v !in keys
    ensures StrictlySorted(r)
    ensures Elements(r) == Elements(keys) + {v}
    ensures |r| == |keys| + 1
  {
    if keys == [] then [v]
    else if v < keys[0] then [v] + keys
    else
      var tail := Insert(keys[1..], v);
      assert Elements(keys) == {keys[0]} + Elements(keys[1..]) by {
        assert keys == [keys[0]] + keys[1..];
      }
      assert forall i :: 0 <= i < |tail| ==> keys[0] < tail[i] by {
        forall i | 0 <= i < |tail|
          ensures keys[0] < tail[i]
        {
          assert tail[i] in Elements(tail);
        }
      }
      var r := [keys[0]] + tail;
      assert forall i :: 1 <= i < |r| ==> r[i] == tail[i - 1];
      r
  }

  /** The ContainsKey test followed by Add: a key already present leaves
      the list as it is. */
  function AddKey(keys: seq<real>, v: real): (r: seq<real>)
    requires StrictlySorted(keys)
    ensures StrictlySorted(r)
    ensures Elements(r) == Elements(keys) + {v}
  {
    if v in keys then keys else Insert(keys, v)
  }

  /** The key list SetColumnRank builds for column `j`: each point's value
      added in turn to an initially empty list. */
  function RankKeys(rows: seq<Point>, j: nat): (r: seq<real>)
    requires Wide(rows, j + 1)
    ensures StrictlySorted(r)
  {
    if rows == [] then []
    else AddKey(RankKeys(rows[..|rows| - 1], j), rows[|rows| - 1][j])
  }

  /** The key list holds each value of the column exactly once, in
      increasing order. */
  lemma {:induction false} RankKeysValues(rows: seq<Point>, j: nat)
    requires Wide(rows, j + 1)
    ensures StrictlySorted(RankKeys(rows, j))
    ensures Elements(RankKeys(rows, j)) == ColumnValues(rows, j)
    decreases |rows|
  {
    if rows != [] {
      var init := rows[..|rows| - 1];
      RankKeysValues(init, j);
      assert RankKeys(rows, j) == AddKey(RankKeys(init, j), rows[|rows| - 1][j]);
      ColumnValuesSnoc(rows, j);
    }
  }

  /** The values of a column gain the last point's one. */
  lemma ColumnValuesSnoc(rows: seq<Point>, j: nat)
    requires rows != [] && Wide(rows, j + 1)
    ensures Wide(rows[..|rows| - 1], j + 1)
    ensures ColumnValues(rows, j) == ColumnValues(rows[..|rows| - 1], j) + {rows[|rows| - 1][j]}
  {
    var init := rows[..|rows| - 1];
    forall x | x in ColumnValues(rows, j)
      ensures x in ColumnValues(init, j) + {rows[|rows| - 1][j]}
    {
      var i :| 0 <= i < |rows| && rows[i][j] == x;
      if i < |init| {
        assert init[i] == rows[i];
      }
    }
    forall x | x in ColumnValues(init, j)
      ensures x in ColumnValues(rows, j)
    {
      var i :| 0 <= i < |init| && init[i][j] == x;
      assert rows[i] == init[i];
    }
  }

  /** One more point: the key list of a longer prefix. */
  lemma RankKeysSnoc(rows: seq<Point>, i: nat, j: nat)
    requires i < |rows| && Wide(rows, j + 1)
    ensures Wide(rows[..i], j + 1) && Wide(rows[..i + 1], j + 1)
    ensures RankKeys(rows[..i + 1], j) == AddKey(RankKeys(rows[..i], j), rows[i][j])
  {
    assert rows[..i + 1][..i] == rows[..i];
  }

  // ---------------------------------------------------------------------
  // The store and its operations
  // ---------------------------------------------------------------------

  /** The state SetData, AddData and SetColumnRank change: the points
      (None before any SetData), the number of features, the minimum and
      maximum arrays, and the rank list of each column (None until built). */
  datatype Store = Store(data: Option<seq<Point>>, numFeatures: int,
                         mins: seq<real>, maxs: seq<real>, ranks: seq<Option<seq<real>>>)

  /** The shape the store's code relies on: arrays at least as long as the
      number of features, and points at least that wide. */
  predicate Shaped(s: Store)
  {
    0 <= s.numFeatures <= |s.mins| && |s.mins| == |s.maxs| && s.numFeatures <= |s.ranks| &&
    (s.data.Some? ==> Wide(s.data.value, s.numFeatures))
  }

  /** What a consistent store satisfies: for every feature column, every
      point lies between the minimum and the maximum, both are attained,
      and the rank list holds exactly the column's values, sorted. */
  predicate Valid(s: Store)
  {
    Shaped(s) &&
    (s.data.Some? && s.numFeatures > 0 ==>
      s.data.value != [] &&
      forall j :: 0 <= j < s.numFeatures ==> ColumnOk(s.data.value, j, s.mins[j], s.maxs[j], s.ranks[j]))
  }

  predicate ColumnOk(rows: seq<Point>, j: nat, lo: real, hi: real, rank: Option<seq<real>>)
    requires Wide(rows, j + 1)
  {
    (forall i :: 0 <= i < |rows| ==> lo <= rows[i][j] <= hi) &&
    lo in ColumnValues(rows, j) && hi in ColumnValues(rows, j) &&
    rank.Some? && StrictlySorted(rank.value) && Elements(rank.value) == ColumnValues(rows, j)
  }

  /** IsValidIndex: the store holds data, has at least one feature, and
      the index is one of them. */
  predicate ValidIndex(data: Option<seq<Point>>, numFeatures: int, index: int)
  {
    !(data.None? || numFeatures < 1 || index < 0 || index >= numFeatures)
  }

  /** SetData: data without a first row or with an empty first row is
      refused (the feature count is then set to 0 and nothing else
      changes); otherwise the data replaces the store's, with one feature
      per entry of the first row, the minimum and maximum of every column,
      and every rank list built. */
  function SetDataSpec(s: Store, data: seq<Point>): (r: (Store, bool))
    requires data != [] ==> Wide(data, |data[0]|)
  {
    if data == [] || data[0] == [] then (s.(numFeatures := 0), false)
    else
      (Store(Some(data), |data[0]|, ColumnMins(data), ColumnMaxs(data), ColumnRankLists(data)), true)
  }

  /** Every column's minimum, seeded with the first point's value. */
  function ColumnMins(data: seq<Point>): (r: seq<real>)
    requires data != [] && Wide(data, |data[0]|)
    ensures |r| == |data[0]|
  {
    seq(|data[0]|, j requires 0 <= j < |data[0]| => MinOf(data[0][j], data, j))
  }

  /** Every column's maximum, seeded with the first point's value. */
  function ColumnMaxs(data: seq<Point>): (r: seq<real>)
    requires data != [] && Wide(data, |data[0]|)
    ensures |r| == |data[0]|
  {
    seq(|data[0]|, j requires 0 <= j < |data[0]| => MaxOf(data[0][j], data, j))
  }

  /** Every column's rank list, built. */
  function ColumnRankLists(data: seq<Point>): (r: seq<Option<seq<real>>>)
    requires data != [] && Wide(data, |data[0]|)
    ensures |r| == |data[0]|
  {
    seq(|data[0]|, j requires 0 <= j < |data[0]| => Some(RankKeys(data, j)))
  }

  /** The minimum array after a point: each of the first `n` entries is
      lowered to the point's value when that is smaller. */
  function Lower(mins: seq<real>, p: Point, n: int): (r: seq<real>)
    requires n <= |p|
    ensures |r| == |mins|
  {
    seq(|mins|, j requires 0 <= j < |mins| => if j < n && p[j] < mins[j] then p[j] else mins[j])
  }

  /** The maximum array after a point: each of the first `n` entries is
      raised to the point's value when that is larger. */
  function Raise(maxs: seq<real>, p: Point, n: int): (r: seq<real>)
    requires n <= |p|
    ensures |r| == |maxs|
  {
    seq(|maxs|, j requires 0 <= j < |maxs| => if j < n && p[j] > maxs[j] then p[j] else maxs[j])
  }

  /** The rank lists are built and sorted for the first `n` columns. */
  predicate RanksBuilt(ranks: seq<Option<seq<real>>>, n: int)
  {
    n <= |ranks| && forall j :: 0 <= j < n ==> ranks[j].Some? && StrictlySorted(ranks[j].value)
  }

  /** The rank lists after a point: each of the first `n` gains the
      point's value. */
  function AddKeys(ranks: seq<Option<seq<real>>>, p: Point, n: int): (r: seq<Option<seq<real>>>)
    requires n <= |p| && RanksBuilt(ranks, n)
    ensures |r| == |ranks|
  {
    seq(|ranks|, j requires 0 <= j < |ranks| => if j < n then Some(AddKey(ranks[j].value, p[j])) else ranks[j])
  }

  /** A consistent store has its feature columns' rank lists built. */
  lemma ValidRanksBuilt(s: Store)
    requires Valid(s) && s.data.Some?
    ensures RanksBuilt(s.ranks, s.numFeatures)
  {
    forall j | 0 <= j < s.numFeatures
      ensures s.ranks[j].Some? && StrictlySorted(s.ranks[j].value)
    {
      assert ColumnOk(s.data.value, j, s.mins[j], s.maxs[j], s.ranks[j]);
    }
  }

  /** AddData of one point: on a store without data it is SetData of that
      point alone; otherwise every feature's rank list gets the point's
      value, minimum and maximum widen to it, and the point goes last. */
  function AddPointSpec(s: Store, p: Point): (r: (Store, bool))
    requires Valid(s)
    requires s.data.Some? ==> s.numFeatures <= |p|
  {
    if s.data.None? then SetDataSpec(s, [p])
    else
      var n := s.numFeatures;
      ValidRanksBuilt(s);
      (Store(Some(s.data.value + [p]), n, Lower(s.mins, p, n), Raise(s.maxs, p, n), AddKeys(s.ranks, p, n)),
       true)
  }

  /** SetColumnRank: nothing changes when there is no data, no point, the
      column is not a feature, or its rank list exists; otherwise the
      column's rank list is built from the points. */
  function SetColumnRankSpec(s: Store, column: int): Store
    requires Shaped(s)
  {
    if s.data.None? || |s.data.value| < 1 || !ValidIndex(s.data, s.numFeatures, column) || s.ranks[column].Some? then s
    else s.(ranks := s.ranks[column := Some(RankKeys(s.data.value, column))])
  }

  /** SetData leaves a consistent store, whether it accepts the data or
      refuses it. */
  lemma SetDataValid(s: Store, data: seq<Point>)
    requires Valid(s)
    requires data != [] ==> Wide(data, |data[0]|)
    ensures Valid(SetDataSpec(s, data).0)
    ensures SetDataSpec(s, data).1 <==> data != [] && data[0] != []
    ensures SetDataSpec(s, data).1 ==> SetDataSpec(s, data).0.numFeatures == |data[0]|
  {
    if data != [] && data[0] != [] {
      var r := SetDataSpec(s, data).0;
      var n := |data[0]|;
      forall j | 0 <= j < n
        ensures ColumnOk(data, j, r.mins[j], r.maxs[j], r.ranks[j])
      {
        MinOfBounds(data[0][j], data, j);
        MaxOfBounds(data[0][j], data, j);
        RankKeysValues(data, j);
        assert data[0][j] in ColumnValues(data, j);
      }
    }
  }

  /** AddData of one point keeps the store consistent: the bounds only
      widen, to the new point's values, and the rank lists gain them. */
  lemma AddPointValid(s: Store, p: Point)
    requires Valid(s)
    requires s.data.Some? ==> s.numFeatures <= |p|
    ensures Valid(AddPointSpec(s, p).0)
    ensures AddPointSpec(s, p).1 <==> s.data.Some? || p != []
  {
    if s.data.None? {
      SetDataValid(s, [p]);
    } else {
      var rows := s.data.value;
      var rows' := rows + [p];
      var r := AddPointSpec(s, p).0;
      assert Wide(rows', s.numFeatures);
      if s.numFeatures > 0 {
        forall j | 0 <= j < s.numFeatures
          ensures ColumnOk(rows', j, r.mins[j], r.maxs[j], r.ranks[j])
        {
          assert ColumnOk(rows, j, s.mins[j], s.maxs[j], s.ranks[j]);
          ColumnOkSnoc(rows, p, j, s.mins[j], s.maxs[j], s.ranks[j].value);
        }
      }
    }
  }

  /** One column stays consistent when a point is appended: the bounds
      widen to its value and the rank list gains it. */
  lemma ColumnOkSnoc(rows: seq<Point>, p: Point, j: nat, lo: real, hi: real, keys: seq<real>)
    requires Wide(rows, j + 1) && j < |p|
    requires ColumnOk(rows, j, lo, hi, Some(keys))
    ensures Wide(rows + [p], j + 1)
    ensures ColumnOk(rows + [p], j, if p[j] < lo then p[j] else lo, if p[j] > hi then p[j] else hi,
                     Some(AddKey(keys, p[j])))
  {
    var rows' := rows + [p];
    assert forall i :: 0 <= i < |rows| ==> rows'[i] == rows[i];
    assert ColumnValues(rows', j) == ColumnValues(rows, j) + {p[j]} by {
      assert rows'[|rows|] == p;
    }
  }

  /** SetColumnRank builds the rank list of a feature column that has
      none, holding exactly the column's values in increasing order,
      changes nothing else, and doing it twice is doing it once. */
  lemma SetColumnRankIdempotent(s: Store, column: int)
    requires Shaped(s)
    ensures Shaped(SetColumnRankSpec(s, column))
    ensures SetColumnRankSpec(SetColumnRankSpec(s, column), column) == SetColumnRankSpec(s, column)
    ensures ValidIndex(s.data, s.numFeatures, column) && s.data.value != [] && s.ranks[column].None? ==>
      var r := SetColumnRankSpec(s, column).ranks[column];
      r.Some? && StrictlySorted(r.value) && Elements(r.value) == ColumnValues(s.data.value, column)
  {
    if !(s.data.None? || |s.data.value| < 1 || !ValidIndex(s.data, s.numFeatures, column) || s.ranks[column].Some?) {
      RankKeysValues(s.data.value, column);
    }
  }

  /** On a consistent store every rank list of a feature column exists, so
      SetColumnRank changes nothing there. */
  lemma SetColumnRankNoOp(s: Store, column: int)
    requires Valid(s) && ValidIndex(s.data, s.numFeatures, column)
    ensures SetColumnRankSpec(s, column) == s
  {
    assert ColumnOk(s.data.value, column, s.mins[column], s.maxs[column], s.ranks[column]);
  }

  /** A valid index can be used everywhere the store indexes by it: in
      every point, in the bounds and in the rank lists. */
  lemma ValidIndexSafe(s: Store, index: int)
    requires Valid(s) && ValidIndex(s.data, s.numFeatures, index)
    ensures 0 <= index < |s.mins| && index < |s.maxs| && index < |s.ranks|
    ensures forall i :: 0 <= i < |s.data.value| ==> index < |s.data.value[i]|
    ensures s.ranks[index].Some?
  {
    assert ColumnOk(s.data.value, index, s.mins[index], s.maxs[index], s.ranks[index]);
  }

  /** AddData of a batch: each point in order, stopping at the first
      refusal (which can only be an empty first point on a store without
      data). */
  predicate Addable(s: Store, points: seq<Point>)
    requires Valid(s)
    decreases |points|
  {
    points == [] ||
    ((s.data.Some? ==> s.numFeatures <= |points[0]|) &&
     (AddPointValid(s, points[0]);
      var (s', ok) := AddPointSpec(s, points[0]);
      ok ==> Addable(s', points[1..])))
  }

  function AddAllSpec(s: Store, points: seq<Point>): (r: (Store, bool))
    requires Valid(s) && Addable(s, points)
    ensures Valid(r.0)
    decreases |points|
  {
    if points == [] then (s, true)
    else
      AddPointValid(s, points[0]);
      var (s', ok) := AddPointSpec(s, points[0]);
      if !ok then (s', false) else AddAllSpec(s', points[1..])
  }

  /** Adding a batch to a store with data appends the whole batch, in
      order, and keeps the number of features. */
  lemma {:induction false} AddAllAppends(s: Store, points: seq<Point>)
    requires Valid(s) && Addable(s, points) && s.data.Some?
    ensures AddAllSpec(s, points).1
    ensures AddAllSpec(s, points).0.data == Some(s.data.value + points)
    ensures AddAllSpec(s, points).0.numFeatures == s.numFeatures
    decreases |points|
  {
    if points == [] {
      assert s.data.value + points == s.data.value;
    } else {
      AddPointValid(s, points[0]);
      var s' := AddPointSpec(s, points[0]).0;
      AddAllAppends(s', points[1..]);
      assert s.data.value + points == (s.data.value + [points[0]]) + points[1..];
    }
  }
}
