/** The CSV-backed plot of Assets/Scripts/CSVPlot.cs: reading a table of
    text cells into plottable points, deciding whether the first line is
    a header of titles or already a data point, throttling the initial
    sample rate of large tables, and repairing the field indices for the
    table's width. The CSV reader itself is not modelled: its header
    cells and records arrive as parameters. */
module CsvPlots {
  import opened Common
  import opened StoreSpec
  import opened Plottables
  import ParserSpec

  /** Above this many points only a sample is shown at first. */
  const MaxInitialPoints: nat := 20000

  /** The conversion never yields not-a-number. */
  ghost predicate NoNaN(fp: FloatParser)
  {
    forall t :: fp(t) != Value(NaN)
  }

  /** What the header loop finds: every cell is a number (the line is a
      data point), some cell is not a number (the line holds titles), or a
      number too large for a float comes first (its overflow exception is
      not caught, and the import stops there). */
  datatype HeaderRow = Numeric | Titles | Overflow

  /** The header cells, converted in order until the first one that fails. */
  function ClassifyHeaders(fp: FloatParser, headers: seq<string>): (r: HeaderRow)
    ensures r == Numeric <==> forall i :: 0 <= i < |headers| ==> fp(headers[i]).Value?
  {
    if headers == [] then Numeric
    else
      match fp(headers[0])
      case Value(_) => ClassifyHeaders(fp, headers[1..])
      case Malformed => Titles
      case TooLarge => Overflow
  }

  /** When the header line is not all numbers, the first cell that fails
      decides: a malformed cell makes it titles, an overflow stops. */
  lemma {:induction false} ClassifyHeadersFirstFailure(fp: FloatParser, headers: seq<string>)
    ensures ClassifyHeaders(fp, headers) != Numeric ==>
      exists i :: 0 <= i < |headers| && FirstFailure(fp, headers, i) &&
                  (ClassifyHeaders(fp, headers) == Titles <==> fp(headers[i]).Malformed?)
  {
    if headers != [] {
      if fp(headers[0]).Value? {
        ClassifyHeadersFirstFailure(fp, headers[1..]);
        if ClassifyHeaders(fp, headers) != Numeric {
          var i :| 0 <= i < |headers[1..]| && FirstFailure(fp, headers[1..], i) &&
                   (ClassifyHeaders(fp, headers) == Titles <==> fp(headers[1..][i]).Malformed?);
          assert FirstFailure(fp, headers, i + 1);
        }
      } else {
        assert FirstFailure(fp, headers, 0);
      }
    }
  }

  /** Cell `i` is the first whose conversion fails. */
  predicate FirstFailure(fp: FloatParser, headers: seq<string>, i: int)
    requires 0 <= i < |headers|
  {
    !fp(headers[i]).Value? && forall k :: 0 <= k < i ==> fp(headers[k]).Value?
  }

  /** The number a text converts to. */
  function NumberOf(fp: FloatParser, t: string): (r: real)
    requires NoNaN(fp) && fp(t).Value?
    ensures fp(t) == Value(Num(r))
  {
    assert fp(t) != Value(NaN);
    fp(t).v.value
  }

  /** The value of a record cell: its number, or 0 when the cell is
      missing or does not convert (every exception there is caught). */
  function CellValue(fp: FloatParser, record: seq<string>, i: nat): (r: real)
    requires NoNaN(fp)
    ensures i < |record| && fp(record[i]).Value? ==> Num(r) == fp(record[i]).v
    ensures !(i < |record| && fp(record[i]).Value?) ==> r == 0.0
  {
    if i < |record| && fp(record[i]).Value? then NumberOf(fp, record[i]) else 0.0
  }

  /** A record as a point of `n` features. */
  function RecordPoint(fp: FloatParser, n: nat, record: seq<string>): (p: Point)
    requires NoNaN(fp)
    ensures |p| == n && forall i :: 0 <= i < n ==> p[i] == CellValue(fp, record, i)
  {
    seq(n, i requires 0 <= i < n => CellValue(fp, record, i))
  }

  /** A header line of numbers as a point. */
  function HeaderPoint(fp: FloatParser, headers: seq<string>): (p: Point)
    requires NoNaN(fp) && ClassifyHeaders(fp, headers) == Numeric
    ensures |p| == |headers| && forall i :: 0 <= i < |p| ==> fp(headers[i]) == Value(Num(p[i]))
  {
    seq(|headers|, i requires 0 <= i < |headers| => NumberOf(fp, headers[i]))
  }

  /** Every record as a point of `n` features, in order. */
  function RecordPoints(fp: FloatParser, n: nat, records: seq<seq<string>>): (r: seq<Point>)
    requires NoNaN(fp)
    ensures |r| == |records| && forall j :: 0 <= j < |r| ==> r[j] == RecordPoint(fp, n, records[j])
  {
    seq(|records|, j requires 0 <= j < |records| => RecordPoint(fp, n, records[j]))
  }

  /** The points an import hands to SetData: the header line first when
      it is a data point, then every record; nothing after an overflow. */
  function ImportedPoints(fp: FloatParser, headers: seq<string>, records: seq<seq<string>>): (r: Option<seq<Point>>)
    requires NoNaN(fp)
  {
    var body := RecordPoints(fp, |headers|, records);
    match ClassifyHeaders(fp, headers)
    case Overflow => None
    case Titles => Some(body)
    case Numeric => Some([HeaderPoint(fp, headers)] + body)
  }

  /** The column titles an import leaves: synthetic 0-based names when the
      header line is a data point, the header cells otherwise. */
  function ImportedTitles(fp: FloatParser, headers: seq<string>): (r: seq<string>)
  {
    if ClassifyHeaders(fp, headers) == Numeric
    then seq(|headers|, i requires 0 <= i < |headers| => ParserSpec.FeatureName(i))
    else headers
  }

  /** The sample rate after importing `count` points: throttled so that
      MaxInitialPoints of them are shown when there are more. */
  function ThrottledRate(rate: real, count: nat): (r: real)
  {
    if count > MaxInitialPoints then MaxInitialPoints as real / count as real * 100.0 else rate
  }

  /** The field-index check as written: an out-of-range index becomes 0,
      except that the test for Z looks at the Y index, which by then has
      already been repaired. */
  function FieldsAsWritten(s: Settings, n: int): (r: Settings)
  {
    var y := if s.y < 0 || s.y >= n then 0 else s.y;
    s.(x := if s.x < 0 || s.x >= n then 0 else s.x,
       y := y,
       z := if s.z < 0 || y >= n then 0 else s.z,
       size := if s.size < 0 || s.size >= n then 0 else s.size,
       color := if s.color < 0 || s.color >= n then 0 else s.color)
  }

  /** The field-index check as intended: each of the five indices is kept
      when it is in range and replaced by 0 otherwise. */
  function FieldsInRange(s: Settings, n: int): (r: Settings)
  {
    s.(x := if s.x < 0 || s.x >= n then 0 else s.x,
       y := if s.y < 0 || s.y >= n then 0 else s.y,
       z := if s.z < 0 || s.z >= n then 0 else s.z,
       size := if s.size < 0 || s.size >= n then 0 else s.size,
       color := if s.color < 0 || s.color >= n then 0 else s.color)
  }

  /** Five field indices, all within the features of a table `n` wide. */
  predicate IndicesInRange(s: Settings, n: int)
  {
    0 <= s.x < n && 0 <= s.y < n && 0 <= s.z < n && 0 <= s.size < n && 0 <= s.color < n
  }

  /** The check as written repairs X, Y, size and color, but lets an
      out-of-range Z index through whenever Y is in range. */
  lemma FieldsAsWrittenMisses()
    ensures var s := Settings(0, 0, 5, 0, 0, 0.0, 1.0, 0.0, 1.0, 0.0, 1.0, 100.0);
      !IndicesInRange(FieldsAsWritten(s, 3), 3) && FieldsAsWritten(s, 3).z == 5 &&
      IndicesInRange(FieldsInRange(s, 3), 3)
  {
  }

  /** The intended check: on a table with at least one column every index
      ends in range, an index is kept exactly when it was in range, the
      check changes nothing else and doing it twice is doing it once. */
  lemma FieldsInRangeSound(s: Settings, n: int)
    ensures n >= 1 ==> IndicesInRange(FieldsInRange(s, n), n)
    ensures FieldsInRange(s, n).z == s.z <==> (0 <= s.z < n || s.z == 0)
    ensures FieldsInRange(s, n).(x := s.x, y := s.y, z := s.z, size := s.size, color := s.color) == s
    ensures FieldsInRange(FieldsInRange(s, n), n) == FieldsInRange(s, n)
    ensures IndicesInRange(s, n) ==> FieldsInRange(s, n) == s
  {
  }

  /** What the check as written does guarantee on a table with at least
      one column: X, Y, size and color end in range, while Z is only
      repaired when negative, since the repaired Y is always in range. */
  lemma FieldsAsWrittenPartial(s: Settings, n: int)
    requires n >= 1
    ensures var r := FieldsAsWritten(s, n);
      0 <= r.x < n && 0 <= r.y < n && 0 <= r.size < n && 0 <= r.color < n
    ensures FieldsAsWritten(s, n).z == if s.z < 0 then 0 else s.z
  {
  }

  /** Throttling keeps the initial sample at exactly MaxInitialPoints
      points and below 100 percent, and leaves smaller imports alone. */
  lemma ThrottledRateShows(rate: real, count: nat)
    ensures count > MaxInitialPoints ==>
      ThrottledRate(rate, count) / 100.0 * count as real == MaxInitialPoints as real &&
      0.0 < ThrottledRate(rate, count) < 100.0
    ensures count <= MaxInitialPoints ==> ThrottledRate(rate, count) == rate
  {
    if count > MaxInitialPoints {
      var c := count as real;
      var m := MaxInitialPoints as real;
      assert ThrottledRate(rate, count) == m / c * 100.0;
      assert m / c * 100.0 / 100.0 * c == m;
      assert m / c < 1.0;
    }
  }

  /** Every imported point has one value per column of the table, so the
      data handed to SetData is as wide as its first point. */
  lemma ImportedShape(fp: FloatParser, headers: seq<string>, records: seq<seq<string>>)
    requires NoNaN(fp)
    ensures ImportedPoints(fp, headers, records).None? <==> ClassifyHeaders(fp, headers) == Overflow
    ensures var r := ImportedPoints(fp, headers, records);
      r.Some? ==> (forall i :: 0 <= i < |r.value| ==> |r.value[i]| == |headers|) &&
                  (r.value != [] ==> Wide(r.value, |r.value[0]|))
    ensures var r := ImportedPoints(fp, headers, records);
      r.Some? ==> |r.value| == |records| + (if ClassifyHeaders(fp, headers) == Numeric then 1 else 0)
  {
  }

  /** The titles name every column, and the synthetic names are distinct. */
  lemma ImportedTitlesDistinct(fp: FloatParser, headers: seq<string>)
    ensures |ImportedTitles(fp, headers)| == |headers|
    ensures ClassifyHeaders(fp, headers) == Numeric ==>
      forall i, j :: 0 <= i < j < |headers| ==> ImportedTitles(fp, headers)[i] != ImportedTitles(fp, headers)[j]
  {
    if ClassifyHeaders(fp, headers) == Numeric {
      var t := ImportedTitles(fp, headers);
      forall i, j | 0 <= i < j < |headers|
        ensures t[i] != t[j]
      {
        if t[i] == t[j] {
          ParserSpec.FeatureNameInjective(i, j);
        }
      }
    }
  }

  /** How an import ended. */
  datatype Outcome = Loaded | Refused | Overflowed

  class CSVPlot {
    const Data: PlottableData
    var ColumnTitles: array<string>
    var ColumnTitlesAreReady: bool

    predicate Valid()
      reads this, Data, Data.MinDataValues, Data.MaxDataValues, Data.ColumnRanks
    {
      Data.Valid()
    }

    /** A plot over the given data store, with no titles ready. */
    constructor (data: PlottableData)
      requires data.Valid()
      ensures Valid() && Data == data && !ColumnTitlesAreReady && ColumnTitles.Length == 0
    {
      Data := data;
      ColumnTitles := new string[0];
      ColumnTitlesAreReady := false;
    }

    /** EnsureFieldIndicesAreValid as written. */
    method EnsureFieldIndicesAreValid(numFeatures: int)
      modifies Data`XSpatialFieldIndex, Data`YSpatialFieldIndex, Data`ZSpatialFieldIndex
      modifies Data`SizeFieldIndex, Data`ColorFieldIndex
      ensures var r := FieldsAsWritten(old(Data.CurrentSettings()), numFeatures);
        Data.XSpatialFieldIndex == r.x && Data.YSpatialFieldIndex == r.y &&
        Data.ZSpatialFieldIndex == r.z && Data.SizeFieldIndex == r.size && Data.ColorFieldIndex == r.color
    {
      ghost var target := FieldsAsWritten(Data.CurrentSettings(), numFeatures);
      if Data.XSpatialFieldIndex < 0 || Data.XSpatialFieldIndex >= numFeatures {
        Data.XSpatialFieldIndex := 0;
      }
      assert Data.XSpatialFieldIndex == target.x;
      if Data.YSpatialFieldIndex < 0 || Data.YSpatialFieldIndex >= numFeatures {
        Data.YSpatialFieldIndex := 0;
      }
      assert Data.YSpatialFieldIndex == target.y;
      if Data.ZSpatialFieldIndex < 0 || Data.YSpatialFieldIndex >= numFeatures {
        Data.ZSpatialFieldIndex := 0;
      }
      assert Data.ZSpatialFieldIndex == target.z;
      if Data.SizeFieldIndex < 0 || Data.SizeFieldIndex >= numFeatures {
        Data.SizeFieldIndex := 0;
      }
      assert Data.SizeFieldIndex == target.size;
      if Data.ColorFieldIndex < 0 || Data.ColorFieldIndex >= numFeatures {
        Data.ColorFieldIndex := 0;
      }
      assert Data.ColorFieldIndex == target.color;
    }

    /** EnsureFieldIndicesAreValid as intended, with the Z test on Z: on a
        table with at least one column every index ends in range. */
    method EnsureFieldIndicesInRange(numFeatures: int)
      modifies Data`XSpatialFieldIndex, Data`YSpatialFieldIndex, Data`ZSpatialFieldIndex
      modifies Data`SizeFieldIndex, Data`ColorFieldIndex
      ensures var r := FieldsInRange(old(Data.CurrentSettings()), numFeatures);
        Data.XSpatialFieldIndex == r.x && Data.YSpatialFieldIndex == r.y &&
        Data.ZSpatialFieldIndex == r.z && Data.SizeFieldIndex == r.size && Data.ColorFieldIndex == r.color
    {
      ghost var target := FieldsInRange(Data.CurrentSettings(), numFeatures);
      if Data.XSpatialFieldIndex < 0 || Data.XSpatialFieldIndex >= numFeatures {
        Data.XSpatialFieldIndex := 0;
      }
      assert Data.XSpatialFieldIndex == target.x;
      if Data.YSpatialFieldIndex < 0 || Data.YSpatialFieldIndex >= numFeatures {
        Data.YSpatialFieldIndex := 0;
      }
      assert Data.YSpatialFieldIndex == target.y;
      if Data.ZSpatialFieldIndex < 0 || Data.ZSpatialFieldIndex >= numFeatures {
        Data.ZSpatialFieldIndex := 0;
      }
      assert Data.ZSpatialFieldIndex == target.z;
      if Data.SizeFieldIndex < 0 || Data.SizeFieldIndex >= numFeatures {
        Data.SizeFieldIndex := 0;
      }
      assert Data.SizeFieldIndex == target.size;
      if Data.ColorFieldIndex < 0 || Data.ColorFieldIndex >= numFeatures {
        Data.ColorFieldIndex := 0;
      }
      assert Data.ColorFieldIndex == target.color;
    }

    /** The first loop of the header handling: converts the header cells in
        order until one fails, and reports what it found. */
    method ScanHeaders(fp: FloatParser) returns (kind: HeaderRow)
      ensures kind == ClassifyHeaders(fp, ColumnTitles[..])
    {
      kind := Numeric;
      var i := 0;
      while i < ColumnTitles.Length && kind == Numeric
        invariant 0 <= i <= ColumnTitles.Length
        decreases ColumnTitles.Length - i
        invariant ClassifyHeaders(fp, ColumnTitles[..]) ==
                  (if kind == Numeric then ClassifyHeaders(fp, ColumnTitles[i..]) else kind)
      {
        assert ColumnTitles[i..][1..] == ColumnTitles[i + 1..];
        match fp(ColumnTitles[i]) {
          case Value(_) =>
          case Malformed => kind := Titles;
          case TooLarge => kind := Overflow;
        }
        i := i + 1;
      }
      if kind == Numeric {
        assert ColumnTitles[i..] == [];
      }
    }

    /** The second loop of the header handling, reached only when every
        header cell is a number: the header becomes a data point and each
        title becomes "Feature " and its 0-based column number. */
    method PromoteHeaders(fp: FloatParser) returns (dataPoint: Point)
      requires NoNaN(fp) && ClassifyHeaders(fp, ColumnTitles[..]) == Numeric
      modifies ColumnTitles
      ensures dataPoint == HeaderPoint(fp, old(ColumnTitles[..]))
      ensures ColumnTitles[..] == ImportedTitles(fp, old(ColumnTitles[..]))
    {
      var n := ColumnTitles.Length;
      ghost var headers := ColumnTitles[..];
      ghost var values := HeaderPoint(fp, headers);
      ghost var names := ImportedTitles(fp, headers);
      assert forall k :: 0 <= k < n ==> fp(headers[k]).Value?;
      var point := new real[n];
      for i := 0 to n
        modifies point, ColumnTitles
        invariant forall k :: 0 <= k < i ==> point[k] == values[k]
        invariant forall k :: 0 <= k < n ==> ColumnTitles[k] == if k < i then names[k] else headers[k]
      {
        PromoteColumn(fp, point, i);
        assert point[i] == values[i] && ColumnTitles[i] == names[i];
      }
      dataPoint := point[..];
      assert dataPoint == values;
      assert ColumnTitles[..] == names;
    }

    /** One step of the header promotion: column `i` gives its number to
        the point and takes its synthetic title. */
    method PromoteColumn(fp: FloatParser, point: array<real>, i: nat)
      requires NoNaN(fp) && i < point.Length == ColumnTitles.Length && fp(ColumnTitles[i]).Value?
      modifies point, ColumnTitles
      ensures point[..] == old(point[..])[i := NumberOf(fp, old(ColumnTitles[i]))]
      ensures ColumnTitles[..] == old(ColumnTitles[..])[i := ParserSpec.FeatureName(i)]
    {
      point[i] := NumberOf(fp, ColumnTitles[i]);
      ColumnTitles[i] := ParserSpec.FeatureName(i);
    }

    /** One record as a point of `fieldCount` values: each cell that
        converts gives its value, and any other cell stays 0. */
    static method ReadRecord(fp: FloatParser, fieldCount: nat, record: seq<string>) returns (dataPoint: Point)
      requires NoNaN(fp)
      ensures dataPoint == RecordPoint(fp, fieldCount, record)
    {
      var point := new real[fieldCount](_ => 0.0);
      for i := 0 to fieldCount
        invariant forall k :: 0 <= k < fieldCount ==>
          point[k] == (if k < i then CellValue(fp, record, k) else 0.0)
      {
        if i < |record| {
          match fp(record[i]) {
            case Value(_) => point[i] := NumberOf(fp, record[i]);
            case Malformed =>
            case TooLarge =>
          }
        }
      }
      dataPoint := point[..];
    }

    /** WriteParticlesToParticleList: repairs the field indices for the
        table's width, takes the header cells as titles, turns the header
        line into the first point when all its cells are numbers, reads
        every record, throttles the sample rate above MaxInitialPoints
        points and hands the points to SetData. An overflow in the header
        line stops the import after the titles are taken. */
    method WriteParticlesToParticleList(fp: FloatParser, headers: seq<string>, records: seq<seq<string>>)
      returns (outcome: Outcome)
      requires Valid() && NoNaN(fp)
      modifies this, Data
      ensures Valid()
      ensures outcome == Overflowed <==> ClassifyHeaders(fp, headers) == Overflow
      ensures ColumnTitles[..] == ImportedTitles(fp, headers)
      ensures ColumnTitlesAreReady == (outcome != Overflowed || old(ColumnTitlesAreReady))
      ensures outcome == Overflowed ==>
        Data.Abstract() == old(Data.Abstract()) &&
        Data.CurrentSettings() == FieldsAsWritten(old(Data.CurrentSettings()), |headers|)
      ensures outcome != Overflowed ==>
        var points := ImportedPoints(fp, headers, records).value;
        (Data.Abstract(), outcome == Loaded) == SetDataSpec(old(Data.Abstract()), points) &&
        Data.CurrentSettings() ==
          FieldsAsWritten(old(Data.CurrentSettings()), |headers|).(sampleRatePercent :=
            ThrottledRate(old(Data.SampleRatePercent), |points|))
      ensures outcome == Loaded ==>
        var r := Data.CurrentSettings();
        Data.NumFeatures == |headers| &&
        0 <= r.x < |headers| && 0 <= r.y < |headers| && 0 <= r.size < |headers| && 0 <= r.color < |headers| &&
        r.z == (if old(Data.ZSpatialFieldIndex) < 0 then 0 else old(Data.ZSpatialFieldIndex))
    {
      ghost var settings := FieldsAsWritten(Data.CurrentSettings(), |headers|);
      EnsureFieldIndicesAreValid(|headers|);
      assert Data.CurrentSettings() == settings;
      assert Data.Valid();
      if |headers| >= 1 {
        FieldsAsWrittenPartial(old(Data.CurrentSettings()), |headers|);
      }
      var particles := ReadParticles(fp, headers, records);
      if particles.None? {
        return Overflowed;
      }
      ImportedShape(fp, headers, records);
      var ok := LoadPoints(particles.value);
      outcome := if ok then Loaded else Refused;
    }

    /** The end of the import: throttles the sample rate above
        MaxInitialPoints points and hands the points to SetData. */
    method LoadPoints(points: seq<Point>) returns (ok: bool)
      requires Data.Valid() && (points != [] ==> Wide(points, |points[0]|))
      modifies Data
      ensures Data.Valid()
      ensures (Data.Abstract(), ok) == SetDataSpec(old(Data.Abstract()), points)
      ensures Data.CurrentSettings() ==
        old(Data.CurrentSettings()).(sampleRatePercent := ThrottledRate(old(Data.SampleRatePercent), |points|))
    {
      if |points| > MaxInitialPoints {
        Data.SampleRatePercent := MaxInitialPoints as real / |points| as real * 100.0;
      }
      ok := Data.SetData(points);
    }

    /** The reading part of the import: takes the header cells as titles,
        scans them, promotes them to the first point when all are numbers,
        and reads every record; stops with nothing on an overflow. */
    method ReadParticles(fp: FloatParser, headers: seq<string>, records: seq<seq<string>>)
      returns (particles: Option<seq<Point>>)
      requires NoNaN(fp)
      modifies this
      ensures particles == ImportedPoints(fp, headers, records)
      ensures ColumnTitles[..] == ImportedTitles(fp, headers)
      ensures ColumnTitlesAreReady == (particles.Some? || old(ColumnTitlesAreReady))
    {
      var fieldCount := |headers|;
      ColumnTitles := new string[fieldCount](i requires 0 <= i < fieldCount => headers[i]);
      assert ColumnTitles[..] == headers;
      var kind := ScanHeaders(fp);
      assert kind == ClassifyHeaders(fp, headers);
      if kind == Overflow {
        assert ImportedPoints(fp, headers, records) == None;
        return None;
      }
      var points: seq<Point> := [];
      if kind == Numeric {
        var dataPoint := PromoteHeaders(fp);
        points := points + [dataPoint];
        assert points == [HeaderPoint(fp, headers)];
      }
      ColumnTitlesAreReady := true;
      ghost var body := RecordPoints(fp, fieldCount, records);
      ghost var start := points;
      for j := 0 to |records|
        invariant points == start + body[..j]
        modifies {}
      {
        var dataPoint := ReadRecord(fp, fieldCount, records[j]);
        points := points + [dataPoint];
      }
      assert body[..|records|] == body;
      assert points == start + body;
      if kind == Titles {
        assert points == body;
      }
      particles := Some(points);
    }
  }
}
