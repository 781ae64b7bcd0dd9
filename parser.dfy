/** The incremental line parser of Assets/Scripts/Network.cs (class Parser),
    with its index-advancing loops, proved to follow module ParserSpec. */
module Parsing {
  import opened Common
  import opened Text
  import opened RowStore
  import opened ParserSpec

  class Parser {
    /** The store that completed rows and labels go to. */
    const dataStore: DataStore
    /** The platform's text-to-float conversion. */
    const fp: FloatParser
    /** The stopwatch: Absent when the parser was built without timestamps. */
    var watch: Stopwatch
    /** The unterminated text kept from the previous chunk. */
    var partialData: string
    /** Set while the next completed row is the first of a session. */
    var firstRow: bool

    constructor (dataStore: DataStore, useTimestamps: bool, fp: FloatParser)
      ensures this.dataStore == dataStore && this.fp == fp
      ensures watch == (if useTimestamps then Idle else Absent)
      ensures partialData == [] && firstRow
    {
      this.dataStore := dataStore;
      this.fp := fp;
      watch := if useTimestamps then Idle else Absent;
      partialData := [];
      firstRow := true;
    }

    /** The state that completed rows change, across the parser and its store. */
    function State(): Machine
      reads this, dataStore
    {
      Machine(firstRow, watch, dataStore.rows, dataStore.Labels)
    }

    /** Converts one raw row: every comma-separated field, then the
        timestamp; starts the stopwatch on the first row it sees. */
    method ParseRow(row: string, now: nat) returns (result: Row)
      requires ClockOk(watch, now)
      modifies this
      ensures result == RowValues(fp, old(watch), row, now)
      ensures watch == Started(old(watch), now)
      ensures partialData == old(partialData) && firstRow == old(firstRow)
    {
      result := ParseFields(row);
      ghost var fields := result;
      if watch.Running? {
        result := result + [Num((now - watch.start) as real)];
      } else if watch.Idle? {
        watch := Running(now);
        result := result + [Num(0.0)];
      }
      assert result == fields + Stamp(old(watch), now);
    }

    /** The field loop of ParseRow: converts every comma-separated field
        of the row, in order. */
    method ParseFields(row: string) returns (result: Row)
      ensures result == Values(fp, Split(row, ColDelim))
    {
      result := [];
      var prev := 0;
      var next := IndexOf(row, ColDelim, prev);
      while next != -1
        invariant 0 <= prev <= |row|
        invariant next == IndexOf(row, ColDelim, prev)
        invariant result + Values(fp, SplitFrom(row, ColDelim, prev)) == Values(fp, Split(row, ColDelim))
        decreases |row| - prev
      {
        var value := ParseValue(fp, row[prev..next]);
        ghost var later := Values(fp, SplitFrom(row, ColDelim, next + 1));
        assert result + [value] + later == Values(fp, Split(row, ColDelim)) by {
          SplitFromStep(row, ColDelim, prev, next);
          ValuesCons(fp, row[prev..next], SplitFrom(row, ColDelim, next + 1));
          AppendAssociates(result, [value], later);
        }
        result := result + [value];
        prev := next + 1;
        next := IndexOf(row, ColDelim, prev);
      }
      assert Values(fp, SplitFrom(row, ColDelim, prev)) ==
             (if prev != |row| then [ParseValue(fp, row[prev..])] else []) by {
        SplitFromEnd(row, ColDelim, prev);
        if prev != |row| {
          ValuesCons(fp, row[prev..], []);
        }
      }
      if prev != |row| {
        result := result + [ParseValue(fp, row[prev..])];
      }
    }

    /** Cuts one raw row into its literal comma-separated fields, then adds
        the timestamp label when timestamps are enabled. */
    method ParseLabels(row: string) returns (result: seq<string>)
      ensures result == LabelsOf(watch, row)
    {
      result := [];
      var prev := 0;
      var next := IndexOf(row, ColDelim, prev);
      while next != -1
        invariant 0 <= prev <= |row|
        invariant next == IndexOf(row, ColDelim, prev)
        invariant result + SplitFrom(row, ColDelim, prev) == Split(row, ColDelim)
        decreases |row| - prev
      {
        SplitFromStep(row, ColDelim, prev, next);
        AppendAssociates(result, [row[prev..next]], SplitFrom(row, ColDelim, next + 1));
        result := result + [row[prev..next]];
        prev := next + 1;
        next := IndexOf(row, ColDelim, prev);
      }
      SplitFromEnd(row, ColDelim, prev);
      if prev != |row| {
        result := result + [row[prev..]];
      }
      if !watch.Absent? {
        result := result + [TimestampLabel];
      }
    }

    /** The body of Parse's loop for one completed row: the row is parsed;
        while the first-row flag is set it becomes the labels (its literal
        fields when its first entry is NaN, otherwise "Feature 1" onwards),
        afterwards it is queued; then the flag is cleared. */
    method CompleteRow(raw: string, now: nat)
      requires CanDeliver(State(), [raw], now)
      modifies this, dataStore
      ensures State() == DeliverRow(fp, old(State()), raw, now)
      ensures partialData == old(partialData)
    {
      ghost var before := State();
      var row := ParseRow(raw, now);
      if firstRow {
        RowNonEmpty(fp, before.watch, raw, now);
        var labels: seq<string>;
        if row[0] == NaN {
          labels := ParseLabels(raw);
        } else {
          var names := new string[|row|];
          for i := 0 to |row|
            invariant forall k :: 0 <= k < i ==> names[k] == FeatureName(k + 1)
            modifies names
          {
            names[i] := FeatureName(i + 1);
          }
          labels := names[..];
        }
        assert labels == Classify(fp, before.watch, raw, now);
        dataStore.Labels := Some(labels);
      } else {
        dataStore.Enqueue(row);
      }
      firstRow := false;
    }

    /** The loop of Parse: completes one row per '\n' in the chunk, the
        stored fragment prepended to the first of them, and returns the
        position after the last '\n' (0 when there is none). */
    method CompleteLines(data: string, now: nat) returns (prev: nat)
      requires CanDeliver(State(), Completed(partialData, data), now)
      modifies this, dataStore
      ensures prev <= |data| && data[prev..] == Rest(data)
      ensures (prev == 0) == (Lines(data) == [])
      ensures partialData == (if prev == 0 then old(partialData) else [])
      ensures State() == Deliver(fp, old(State()), Completed(old(partialData), data), now)
    {
      var pos := 0;
      assert data[pos..] == data;
      while pos < |data| && IndexOf(data, NewLine, pos) != -1
        invariant 0 <= pos <= |data|
        invariant pos == 0 ==> partialData == old(partialData)
        invariant pos > 0 ==> partialData == []
        invariant Rest(data[pos..]) == Rest(data)
        invariant CanDeliver(State(), Completed(partialData, data[pos..]), now)
        invariant Deliver(fp, State(), Completed(partialData, data[pos..]), now) ==
                  Deliver(fp, old(State()), Completed(old(partialData), data), now)
        decreases |data| - pos
      {
        pos := CompleteNextLine(data, pos, now);
      }
      assert Completed(partialData, data[pos..]) == [] && Rest(data) == data[pos..] by {
        ExitLines(data, pos);
      }
      if pos == 0 {
        assert data[pos..] == data;
      }
      NoLinesWhole(data, pos);
      prev := pos;
    }

    /** One round of Parse's loop: completes the row ending at the next
        '\n' at or after `pos`, the stored fragment prepended, clears the
        fragment and returns the position after that '\n'. */
    method CompleteNextLine(data: string, pos: nat, now: nat) returns (after: nat)
      requires pos < |data| && IndexOf(data, NewLine, pos) != -1
      requires CanDeliver(State(), Completed(partialData, data[pos..]), now)
      modifies this, dataStore
      ensures pos < after <= |data| && partialData == []
      ensures Rest(data[after..]) == Rest(data[pos..])
      ensures CanDeliver(State(), Completed(partialData, data[after..]), now)
      ensures Deliver(fp, State(), Completed(partialData, data[after..]), now) ==
              Deliver(fp, old(State()), Completed(old(partialData), data[pos..]), now)
    {
      var next := IndexOf(data, NewLine, pos);
      ghost var before := State();
      ghost var raw := partialData + data[pos..next];
      ghost var later := Completed([], data[next + 1..]);
      assert Completed(partialData, data[pos..]) == [raw] + later
          && Rest(data[pos..]) == Rest(data[next + 1..]) by {
        StepLines(partialData, data, pos, next);
      }
      DeliverFirst(fp, before, raw, later, now);
      CompleteRow(partialData + data[pos..next], now);
      assert State() == DeliverRow(fp, before, raw, now);
      partialData := [];
      after := next + 1;
      assert Completed(partialData, data[after..]) == later;
    }

    /** Consumes one chunk: completes one row per '\n', the stored fragment
        prepended to the first of them; the first row of a session sets the
        labels and every later row is queued; the unterminated tail, if
        any, becomes the stored fragment, replacing the previous one. */
    method Parse(data: string, now: nat)
      requires CanDeliver(State(), Completed(partialData, data), now)
      modifies this, dataStore
      ensures State() == Deliver(fp, old(State()), Completed(old(partialData), data), now)
      ensures partialData == NextFragment(old(partialData), data)
    {
      var prev := CompleteLines(data, now);
      if prev < |data| {
        partialData := data[prev..];
      }
    }

    /** Parse as evidently intended: the unterminated tail extends the stored
        fragment instead of replacing it. Rows and fragment are then those of
        the stored fragment followed by the chunk, so feeding a stream in
        chunks is the same as feeding it whole. */
    method ParseJoined(data: string, now: nat)
      requires NewLine !in partialData
      requires CanDeliver(State(), Lines(partialData + data), now)
      modifies this, dataStore
      ensures State() == Deliver(fp, old(State()), Lines(old(partialData) + data), now)
      ensures partialData == Rest(old(partialData) + data)
      ensures NewLine !in partialData
    {
      JoinedAgrees(partialData, data);
      var prev := CompleteLines(data, now);
      if prev < |data| {
        partialData := partialData + data[prev..];
      }
      RestFree(old(partialData) + data);
    }

    /** One more completed row: the rows still to complete from `prev` are
        the one ending at `next`, then those after it. */
    static lemma StepLines(fragment: string, data: string, prev: nat, next: int)
      requires prev < |data| && next == IndexOf(data, NewLine, prev) && next != -1
      ensures Completed(fragment, data[prev..]) == [fragment + data[prev..next]] + Completed([], data[next + 1..])
      ensures Rest(data[prev..]) == Rest(data[next + 1..])
    {
      var t := data[prev..];
      IndexOfSuffix(data, NewLine, prev);
      var i := next - prev;
      assert t[..i] == data[prev..next];
      assert t[i + 1..] == data[next + 1..];
      RestStep(t, i);
      LinesStep(t, i);
      CompletedEmptyFragment(data[next + 1..]);
    }

    /** Delivering a completed row followed by others is delivering the
        first, then the others from the state it leaves. */
    static lemma DeliverFirst(fp: FloatParser, m: Machine, raw: string, later: seq<string>, now: nat)
      requires CanDeliver(m, [raw] + later, now)
      ensures CanDeliver(m, [raw], now)
      ensures CanDeliver(DeliverRow(fp, m, raw, now), later, now)
      ensures Deliver(fp, m, [raw] + later, now) == Deliver(fp, DeliverRow(fp, m, raw, now), later, now)
    {
      StampStable(m.watch, now);
      assert ([raw] + later)[1..] == later;
    }

    /** The loop has stopped after a '\n' exactly when the chunk has a
        complete line. */
    static lemma NoLinesWhole(data: string, pos: nat)
      requires pos <= |data| && data[pos..] == Rest(data)
      requires pos == 0 ==> Lines(data[pos..]) == []
      ensures (pos == 0) == (Lines(data) == [])
    {
      if pos == 0 {
        assert data[pos..] == data;
      }
    }

    static lemma CompletedEmptyFragment(t: string)
      ensures Completed([], t) == Lines(t)
    {
      var ls := Lines(t);
      if ls != [] {
        assert [] + ls[0] == ls[0];
        assert [ls[0]] + ls[1..] == ls;
      }
    }

    static lemma ValuesCons(fp: FloatParser, field: string, fields: seq<string>)
      ensures Values(fp, [field] + fields) == [ParseValue(fp, field)] + Values(fp, fields)
    {
      assert ([field] + fields)[1..] == fields;
    }

    /** Where the loop stops, no row is left and the rest is all of the tail. */
    static lemma ExitLines(data: string, prev: nat)
      requires prev <= |data|
      requires !(prev < |data| && IndexOf(data, NewLine, prev) != -1)
      ensures Lines(data[prev..]) == [] && Rest(data[prev..]) == data[prev..]
    {
      IndexOfSuffix(data, NewLine, prev);
    }
  }
}
