/** The plottable data store of Assets/Scripts/PlottableData.cs: the points
    with their running per-column bounds and rank lists, updated in place
    and proved to follow module StoreSpec, plus the index, axis-selection
    and drill-down helpers used when drawing. */
module Plottables {
  import opened Common
  import opened StoreSpec

  /** A position in plot space. */
  datatype Vec3 = Vec3(x: real, y: real, z: real)

  /** The user settings that the data operations never change. */
  datatype Settings = Settings(x: int, y: int, z: int, size: int, color: int,
                               xDrillMin: real, xDrillMax: real, yDrillMin: real,
                               yDrillMax: real, zDrillMin: real, zDrillMax: real,
                               sampleRatePercent: real)

  class PlottableData {
    var XSpatialFieldIndex: int
    var YSpatialFieldIndex: int
    var ZSpatialFieldIndex: int
    var SizeFieldIndex: int
    var ColorFieldIndex: int
    var XDrillMin: real
    var XDrillMax: real
    var YDrillMin: real
    var YDrillMax: real
    var ZDrillMin: real
    var ZDrillMax: real
    var SampleRatePercent: real
    var NumFeatures: int

    /** The points, in insertion order; None until data is first set. */
    var Data: Option<seq<Point>>
    var MaxDataValues: array<real>
    var MinDataValues: array<real>
    /** Per column, the keys of its rank list in increasing order; None
        until the list is built. */
    var ColumnRanks: array<Option<seq<real>>>

    /** The store as a value. */
    function Abstract(): Store
      reads this, MinDataValues, MaxDataValues, ColumnRanks
    {
      Store(Data, NumFeatures, MinDataValues[..], MaxDataValues[..], ColumnRanks[..])
    }

    function CurrentSettings(): Settings
      reads this
    {
      Settings(XSpatialFieldIndex, YSpatialFieldIndex, ZSpatialFieldIndex, SizeFieldIndex,
               ColorFieldIndex, XDrillMin, XDrillMax, YDrillMin, YDrillMax, ZDrillMin,
               ZDrillMax, SampleRatePercent)
    }

    /** The two bound arrays are distinct, and the store is consistent. */
    predicate Valid()
      reads this, MinDataValues, MaxDataValues, ColumnRanks
    {
      MinDataValues != MaxDataValues && StoreSpec.Valid(Abstract())
    }

    /** The default constructor: no data, every field index 0, sample rate
        100 percent, and every drill-down range [0, 1]. */
    constructor ()
      ensures Valid() && Data == None && NumFeatures == 0
      ensures XSpatialFieldIndex == 0 && YSpatialFieldIndex == 0 && ZSpatialFieldIndex == 0
      ensures SizeFieldIndex == 0 && ColorFieldIndex == 0
      ensures SampleRatePercent == 100.0
      ensures XDrillMin == 0.0 && XDrillMax == 1.0 && YDrillMin == 0.0 && YDrillMax == 1.0
      ensures ZDrillMin == 0.0 && ZDrillMax == 1.0
    {
      XSpatialFieldIndex, YSpatialFieldIndex, ZSpatialFieldIndex := 0, 0, 0;
      SizeFieldIndex, ColorFieldIndex := 0, 0;
      SampleRatePercent := 100.0;
      XDrillMin, XDrillMax := 0.0, 1.0;
      YDrillMin, YDrillMax := 0.0, 1.0;
      ZDrillMin, ZDrillMax := 0.0, 1.0;
      NumFeatures := 0;
      Data := None;
      MaxDataValues := new real[0];
      MinDataValues := new real[0];
      ColumnRanks := new Option<seq<real>>[0];
    }

    /** IsValidIndex: an index of a feature of the current data; the test
        for fewer than one feature is subsumed by the range test. */
    function IsValidIndex(index: int): (r: bool)
      reads this
      ensures r <==> Data.Some? && 0 <= index < NumFeatures
    {
      ValidIndex(Data, NumFeatures, index)
    }

    /** SetData: refuses data without a first row or with an empty first
        row (the ArgumentException), leaving only the feature count reset;
        otherwise stores the data, its bounds and every rank list in new
        arrays. */
    method SetData(data: seq<Point>) returns (ok: bool)
      requires Valid()
      requires data != [] ==> Wide(data, |data[0]|)
      modifies this
      ensures (Abstract(), ok) == SetDataSpec(old(Abstract()), data)
      ensures Valid() && CurrentSettings() == old(CurrentSettings())
      ensures ok ==> fresh(MinDataValues) && fresh(MaxDataValues) && fresh(ColumnRanks)
      ensures !ok ==> MinDataValues == old(MinDataValues) && MaxDataValues == old(MaxDataValues) &&
                      ColumnRanks == old(ColumnRanks)
    {
      ghost var before := Abstract();
      if data == [] || data[0] == [] {
        NumFeatures := 0;
        SetDataValid(before, data);
        return false;
      }
      var n := |data[0]|;
      NumFeatures := n;
      ColumnRanks := new Option<seq<real>>[n](_ => None);
      Data := Some(data);
      MaxDataValues := new real[n](j requires 0 <= j < n => data[0][j]);
      MinDataValues := new real[n](j requires 0 <= j < n => data[0][j]);
      ScanBounds(data);
      BuildRanks(data);
      ok := true;
      SetDataValid(before, data);
    }

    /** The first loop of SetData: widens the bounds, seeded with the
        first point, over every point. */
    method ScanBounds(data: seq<Point>)
      requires data != [] && Wide(data, |data[0]|)
      requires MinDataValues != MaxDataValues
      requires MinDataValues[..] == data[0] && MaxDataValues[..] == data[0]
      modifies MinDataValues, MaxDataValues
      ensures MinDataValues[..] == ColumnMins(data)
      ensures MaxDataValues[..] == ColumnMaxs(data)
    {
      var n := |data[0]|;
      var i := 0;
      while i < |data|
        invariant 0 <= i <= |data|
        invariant forall k :: 0 <= k < n ==> MinDataValues[k] == MinOf(data[0][k], data[..i], k)
        invariant forall k :: 0 <= k < n ==> MaxDataValues[k] == MaxOf(data[0][k], data[..i], k)
      {
        WidenBounds(data, i);
        i := i + 1;
      }
      assert data[..i] == data;
      assert MinDataValues[..] == ColumnMins(data);
      assert MaxDataValues[..] == ColumnMaxs(data);
    }

    /** One round of the first loop of SetData: every feature's bounds
        widen to the next point. */
    method WidenBounds(data: seq<Point>, i: nat)
      requires i < |data| && data != [] && Wide(data, |data[0]|)
      requires MinDataValues != MaxDataValues
      requires MinDataValues.Length == MaxDataValues.Length == |data[0]|
      requires forall k :: 0 <= k < |data[0]| ==> MinDataValues[k] == MinOf(data[0][k], data[..i], k)
      requires forall k :: 0 <= k < |data[0]| ==> MaxDataValues[k] == MaxOf(data[0][k], data[..i], k)
      modifies MinDataValues, MaxDataValues
      ensures forall k :: 0 <= k < |data[0]| ==> MinDataValues[k] == MinOf(data[0][k], data[..i + 1], k)
      ensures forall k :: 0 <= k < |data[0]| ==> MaxDataValues[k] == MaxOf(data[0][k], data[..i + 1], k)
    {
      var point := data[i];
      for j := 0 to |data[0]|
        invariant forall k :: 0 <= k < j ==> MinDataValues[k] == MinOf(data[0][k], data[..i + 1], k)
        invariant forall k :: j <= k < |data[0]| ==> MinDataValues[k] == MinOf(data[0][k], data[..i], k)
        invariant forall k :: 0 <= k < j ==> MaxDataValues[k] == MaxOf(data[0][k], data[..i + 1], k)
        invariant forall k :: j <= k < |data[0]| ==> MaxDataValues[k] == MaxOf(data[0][k], data[..i], k)
      {
        MinMaxSnoc(data[0][j], data, i, j);
        if point[j] < MinDataValues[j] {
          MinDataValues[j] := point[j];
        }
        if point[j] > MaxDataValues[j] {
          MaxDataValues[j] := point[j];
        }
      }
    }

    /** The second loop of SetData: builds every feature's rank list. */
    method BuildRanks(data: seq<Point>)
      requires data != [] && Wide(data, |data[0]|)
      requires Data == Some(data) && NumFeatures == |data[0]| == ColumnRanks.Length
      requires Shaped(Abstract())
      requires forall k :: 0 <= k < ColumnRanks.Length ==> ColumnRanks[k] == None
      modifies ColumnRanks
      ensures ColumnRanks[..] == ColumnRankLists(data)
    {
      var n := |data[0]|;
      for column := 0 to n
        invariant Shaped(Abstract())
        invariant forall k :: 0 <= k < column ==> ColumnRanks[k] == Some(RankKeys(data, k))
        invariant forall k :: column <= k < n ==> ColumnRanks[k] == None
      {
        SetColumnRank(column);
      }
      assert ColumnRanks[..] == ColumnRankLists(data);
    }

    /** SetColumnRank: when there is data, the column is a feature and its
        rank list is not built yet, builds it from every point's value in
        that column; otherwise does nothing. */
    method SetColumnRank(column: int)
      requires Shaped(Abstract())
      modifies ColumnRanks
      ensures Abstract() == SetColumnRankSpec(old(Abstract()), column)
    {
      if Data.None? || |Data.value| < 1 || !IsValidIndex(column) || ColumnRanks[column].Some? {
        return;
      }
      ColumnRanks[column] := Some([]);
      var rows := Data.value;
      var i := 0;
      while i < |rows|
        invariant 0 <= i <= |rows|
        invariant ColumnRanks[column] == Some(RankKeys(rows[..i], column))
        invariant forall k :: 0 <= k < ColumnRanks.Length && k != column ==> ColumnRanks[k] == old(ColumnRanks[k])
      {
        var point := rows[i];
        var keys := ColumnRanks[column].value;
        ghost var built := AddKey(keys, point[column]);
        assert built == RankKeys(rows[..i + 1], column) by {
          RankKeysSnoc(rows, i, column);
        }
        if point[column] !in keys {
          ColumnRanks[column] := Some(Insert(keys, point[column]));
        }
        assert ColumnRanks[column] == Some(built);
        i := i + 1;
      }
      assert rows[..i] == rows;
    }

    /** UpdateColumnRank: the point's value in the column joins that
        column's rank list unless it is already a key. */
    method UpdateColumnRank(point: Point, col: int)
      requires 0 <= col < ColumnRanks.Length && col < |point|
      requires ColumnRanks[col].Some? && StrictlySorted(ColumnRanks[col].value)
      modifies ColumnRanks
      ensures ColumnRanks[..] == old(ColumnRanks[..])[col := Some(AddKey(old(ColumnRanks[col].value), point[col]))]
    {
      var newVal := point[col];
      var ranks := ColumnRanks[col].value;
      if newVal !in ranks {
        ColumnRanks[col] := Some(Insert(ranks, newVal));
      }
    }

    /** AddData of one point: on a store without data, SetData of the point
        alone; otherwise each feature's rank list and bounds take in the
        point, which is appended last. */
    method AddData(point: Point) returns (ok: bool)
      requires Valid()
      requires Data.Some? ==> NumFeatures <= |point|
      modifies this, MinDataValues, MaxDataValues, ColumnRanks
      ensures (Abstract(), ok) == AddPointSpec(old(Abstract()), point)
      ensures Valid() && CurrentSettings() == old(CurrentSettings())
      ensures MinDataValues == old(MinDataValues) || fresh(MinDataValues)
      ensures MaxDataValues == old(MaxDataValues) || fresh(MaxDataValues)
      ensures ColumnRanks == old(ColumnRanks) || fresh(ColumnRanks)
    {
      ghost var s := Abstract();
      if Data.None? {
        ok := SetData([point]);
        AddPointValid(s, point);
        return;
      }
      ValidRanksBuilt(s);
      WidenToPoint(point);
      Data := Some(Data.value + [point]);
      ok := true;
      AddPointValid(s, point);
    }

    /** The loop of AddData over the features: each feature's rank list
        takes in the point's value, and its bounds widen to it. */
    method WidenToPoint(point: Point)
      requires MinDataValues != MaxDataValues
      requires 0 <= NumFeatures <= |point|
      requires NumFeatures <= MinDataValues.Length && NumFeatures <= MaxDataValues.Length
      requires RanksBuilt(ColumnRanks[..], NumFeatures)
      modifies MinDataValues, MaxDataValues, ColumnRanks
      ensures MinDataValues[..] == Lower(old(MinDataValues[..]), point, NumFeatures)
      ensures MaxDataValues[..] == Raise(old(MaxDataValues[..]), point, NumFeatures)
      ensures ColumnRanks[..] == AddKeys(old(ColumnRanks[..]), point, NumFeatures)
    {
      ghost var mins := Lower(MinDataValues[..], point, NumFeatures);
      ghost var maxs := Raise(MaxDataValues[..], point, NumFeatures);
      ghost var ranks := AddKeys(ColumnRanks[..], point, NumFeatures);
      for i := 0 to NumFeatures
        invariant forall k :: 0 <= k < MinDataValues.Length ==>
          MinDataValues[k] == (if k < i then mins[k] else old(MinDataValues[k]))
        invariant forall k :: 0 <= k < MaxDataValues.Length ==>
          MaxDataValues[k] == (if k < i then maxs[k] else old(MaxDataValues[k]))
        invariant forall k :: 0 <= k < ColumnRanks.Length ==>
          ColumnRanks[k] == (if k < i then ranks[k] else old(ColumnRanks[k]))
      {
        UpdateColumnRank(point, i);
        if point[i] < MinDataValues[i] {
          MinDataValues[i] := point[i];
        }
        if point[i] > MaxDataValues[i] {
          MaxDataValues[i] := point[i];
        }
      }
      assert MinDataValues[..] == mins;
      assert MaxDataValues[..] == maxs;
      assert ColumnRanks[..] == ranks;
    }

    /** AddData of a batch: AddData of each point in order, stopping at the
        first refusal. */
    method AddDataBatch(points: seq<Point>) returns (ok: bool)
      requires Valid() && Addable(Abstract(), points)
      modifies this, MinDataValues, MaxDataValues, ColumnRanks
      ensures (Abstract(), ok) == AddAllSpec(old(Abstract()), points)
      ensures Valid() && CurrentSettings() == old(CurrentSettings())
    {
      var i := 0;
      while i < |points|
        invariant 0 <= i <= |points|
        invariant Valid() && CurrentSettings() == old(CurrentSettings())
        invariant Addable(Abstract(), points[i..])
        invariant AddAllSpec(Abstract(), points[i..]) == AddAllSpec(old(Abstract()), points)
        invariant MinDataValues == old(MinDataValues) || fresh(MinDataValues)
        invariant MaxDataValues == old(MaxDataValues) || fresh(MaxDataValues)
        invariant ColumnRanks == old(ColumnRanks) || fresh(ColumnRanks)
      {
        assert points[i..][0] == points[i] && points[i..][1..] == points[i + 1..];
        var added := AddData(points[i]);
        if !added {
          return false;
        }
        i := i + 1;
      }
      assert points[i..] == [];
      ok := true;
    }

    // -------------------------------------------------------------------
    // Axis selection and drill-down
    // -------------------------------------------------------------------

    /** GetPositionGettingFunction: the position function to use, by the
        mask X = 1, Y = 2, Z = 4 of the valid spatial indices. */
    function GetPositionGettingFunction(): (k: int)
      reads this
      ensures 0 <= k <= 7
      ensures (k % 2 == 1) == IsValidIndex(XSpatialFieldIndex)
      ensures (k / 2 % 2 == 1) == IsValidIndex(YSpatialFieldIndex)
      ensures (k / 4 == 1) == IsValidIndex(ZSpatialFieldIndex)
    {
      var sum := if IsValidIndex(XSpatialFieldIndex) then 1 else 0;
      var sum := if IsValidIndex(YSpatialFieldIndex) then sum + 2 else sum;
      if IsValidIndex(ZSpatialFieldIndex) then sum + 4 else sum
    }

    /** GetPosition0 to GetPosition7: the position of a point, with the
        interpolation of each spatial coordinate for the axes in the mask
        and 0 for the others. The interpolation is a parameter. */
    function GetPosition(k: int, dataPoint: Point, percent: (real, int) -> real): (p: Vec3)
      reads this
      requires 0 <= k <= 7
      requires k % 2 == 1 ==> 0 <= XSpatialFieldIndex < |dataPoint|
      requires k / 2 % 2 == 1 ==> 0 <= YSpatialFieldIndex < |dataPoint|
      requires k / 4 == 1 ==> 0 <= ZSpatialFieldIndex < |dataPoint|
      ensures p.x == if k % 2 == 1 then percent(dataPoint[XSpatialFieldIndex], XSpatialFieldIndex) else 0.0
      ensures p.y == if k / 2 % 2 == 1 then percent(dataPoint[YSpatialFieldIndex], YSpatialFieldIndex) else 0.0
      ensures p.z == if k / 4 == 1 then percent(dataPoint[ZSpatialFieldIndex], ZSpatialFieldIndex) else 0.0
    {
      var x := XSpatialFieldIndex;
      var y := YSpatialFieldIndex;
      var z := ZSpatialFieldIndex;
      if k == 0 then Vec3(0.0, 0.0, 0.0)
      else if k == 1 then Vec3(percent(dataPoint[x], x), 0.0, 0.0)
      else if k == 2 then Vec3(0.0, percent(dataPoint[y], y), 0.0)
      else if k == 3 then Vec3(percent(dataPoint[x], x), percent(dataPoint[y], y), 0.0)
      else if k == 4 then Vec3(0.0, 0.0, percent(dataPoint[z], z))
      else if k == 5 then Vec3(percent(dataPoint[x], x), 0.0, percent(dataPoint[z], z))
      else if k == 6 then Vec3(0.0, percent(dataPoint[y], y), percent(dataPoint[z], z))
      else Vec3(percent(dataPoint[x], x), percent(dataPoint[y], y), percent(dataPoint[z], z))
    }

    /** The selected position function interpolates exactly the axes whose
        index is valid and puts 0 on the others; every mask value has its
        own function, so the switch's default is never taken. */
    lemma PositionSelection(dataPoint: Point, percent: (real, int) -> real)
      requires Data.Some? ==> NumFeatures <= |dataPoint|
      ensures GetPosition(GetPositionGettingFunction(), dataPoint, percent) ==
        Vec3(if IsValidIndex(XSpatialFieldIndex) then percent(dataPoint[XSpatialFieldIndex], XSpatialFieldIndex) else 0.0,
             if IsValidIndex(YSpatialFieldIndex) then percent(dataPoint[YSpatialFieldIndex], YSpatialFieldIndex) else 0.0,
             if IsValidIndex(ZSpatialFieldIndex) then percent(dataPoint[ZSpatialFieldIndex], ZSpatialFieldIndex) else 0.0)
    {
    }

    /** DrillDownValid: the position lies within every inclusive drill-down
        range, so no position passes while a range is inverted. */
    function DrillDownValid(pos: Vec3): (r: bool)
      reads this
      ensures r ==> XDrillMin <= XDrillMax && YDrillMin <= YDrillMax && ZDrillMin <= ZDrillMax
      ensures r ==> XDrillMin <= pos.x && YDrillMin <= pos.y && ZDrillMin <= pos.z
      ensures r ==> pos.x <= XDrillMax && pos.y <= YDrillMax && pos.z <= ZDrillMax
    {
      pos.x <= XDrillMax && pos.x >= XDrillMin &&
      pos.y <= YDrillMax && pos.y >= YDrillMin &&
      pos.z <= ZDrillMax && pos.z >= ZDrillMin
    }

    /** The drill-down region is the box of the three ranges: a position is
        accepted exactly when each coordinate lies between its range's
        minimum and maximum. So the region holds every position between two
        of its positions, is empty when a minimum exceeds its maximum, and
        otherwise holds both its corners. */
    lemma DrillDownBox(a: Vec3, b: Vec3, c: Vec3)
      ensures DrillDownValid(c) <==>
        XDrillMin <= c.x <= XDrillMax && YDrillMin <= c.y <= YDrillMax && ZDrillMin <= c.z <= ZDrillMax
      ensures (DrillDownValid(a) && DrillDownValid(b) &&
               a.x <= c.x <= b.x && a.y <= c.y <= b.y && a.z <= c.z <= b.z) ==> DrillDownValid(c)
      ensures XDrillMin > XDrillMax || YDrillMin > YDrillMax || ZDrillMin > ZDrillMax ==> !DrillDownValid(c)
      ensures DrillDownValid(Vec3(XDrillMin, YDrillMin, ZDrillMin)) <==>
        XDrillMin <= XDrillMax && YDrillMin <= YDrillMax && ZDrillMin <= ZDrillMax
      ensures DrillDownValid(Vec3(XDrillMax, YDrillMax, ZDrillMax)) <==>
        XDrillMin <= XDrillMax && YDrillMin <= YDrillMax && ZDrillMin <= ZDrillMax
    {
    }
  }
}
