/** The two network roles of Assets/Scripts/Network.cs: a Client, which
    connects to a data source and parses without timestamps, and a Server,
    which accepts connections one after another and parses with
    timestamps. Both refuse ports below 1024. A connection is modelled as
    the sequence of text chunks its receive calls return, an empty chunk
    meaning that the peer closed the connection. Both roles give the
    chunks to Parse as the source has it, which replaces the stored
    fragment by a chunk without '\n'; the feed of the corrected parse,
    which extends the fragment, is modelled beside it (JoinedFeed), with
    the streams on which the two agree. */
module Connections {
  import opened Common
  import opened Text
  import opened RowStore
  import opened ParserSpec
  import opened Parsing

  /** A port number as the source's 16-bit unsigned type holds it. */
  type Port = p: int | 0 <= p < 0x1_0000

  /** The lowest port either role accepts; lower ones are refused. */
  const MinPort: Port := 1024

  // ---------------------------------------------------------------------
  // A connection as a stream of chunks
  // ---------------------------------------------------------------------

  /** The parser's state between chunks: what completed rows change, and
      the stored fragment. */
  datatype Session = Session(m: Machine, fragment: string)

  /** Every chunk of a connection can be parsed, each with its own clock
      reading. */
  predicate Feedable(fp: FloatParser, s: Session, chunks: seq<string>, nows: seq<nat>)
    requires |nows| == |chunks|
    decreases |chunks|
  {
    chunks == [] ||
    (CanDeliver(s.m, Completed(s.fragment, chunks[0]), nows[0]) &&
     Feedable(fp, Step(fp, s, chunks[0], nows[0]), chunks[1..], nows[1..]))
  }

  /** One chunk given to Parse: the rows it completes are delivered, and
      the fragment is the text after its last '\n'. */
  function Step(fp: FloatParser, s: Session, chunk: string, now: nat): Session
    requires CanDeliver(s.m, Completed(s.fragment, chunk), now)
  {
    Session(Deliver(fp, s.m, Completed(s.fragment, chunk), now), NextFragment(s.fragment, chunk))
  }

  /** The chunks given to Parse in order. */
  function Feed(fp: FloatParser, s: Session, chunks: seq<string>, nows: seq<nat>): Session
    requires |nows| == |chunks| && Feedable(fp, s, chunks, nows)
    decreases |chunks|
  {
    if chunks == [] then s
    else Feed(fp, Step(fp, s, chunks[0], nows[0]), chunks[1..], nows[1..])
  }

  /** The number of chunks read before the peer closes: the position of the
      first empty chunk, or all of them. */
  function ClosedAt(chunks: seq<string>): (n: nat)
    ensures n <= |chunks|
    ensures forall i :: 0 <= i < n ==> chunks[i] != []
    ensures n < |chunks| ==> chunks[n] == []
    decreases |chunks|
  {
    if chunks == [] || chunks[0] == [] then 0 else 1 + ClosedAt(chunks[1..])
  }

  /** Feeding a connection delivers the rows of the stream, in order, each
      at the clock reading of the chunk that completes it, and leaves the
      stream's stored fragment. */
  lemma {:induction false} FeedRows(fp: FloatParser, s: Session, chunks: seq<string>, nows: seq<nat>)
    requires |nows| == |chunks| && Feedable(fp, s, chunks, nows)
    ensures |Clocks(chunks, nows)| == |StreamRows(s.fragment, chunks)|
    ensures DeliverAt(fp, s.m, StreamRows(s.fragment, chunks), Clocks(chunks, nows)) == Some(Feed(fp, s, chunks, nows).m)
    ensures Feed(fp, s, chunks, nows).fragment == StreamFragment(s.fragment, chunks)
    decreases |chunks|
  {
    if chunks != [] {
      var c, now := chunks[0], nows[0];
      var rows := Completed(s.fragment, c);
      var s' := Step(fp, s, c, now);
      assert |rows| == |Lines(c)|;
      DeliverAtConstant(fp, s.m, rows, now);
      FeedRows(fp, s', chunks[1..], nows[1..]);
      DeliverAtAppend(fp, s.m, rows, Constant(|rows|, now),
                      StreamRows(s'.fragment, chunks[1..]), Clocks(chunks[1..], nows[1..]));
    }
  }

  /** A connection fed from its first row, whatever the clock readings:
      the first row of the stream sets the labels and is not queued, every
      later row is queued, parsed at the reading of the chunk that
      completes it, in arrival order; the stopwatch is started at the first
      row's reading, and the first-row flag is then clear. */
  lemma SessionEffect(fp: FloatParser, s: Session, chunks: seq<string>, nows: seq<nat>)
    requires s.m.firstRow && |nows| == |chunks| && Feedable(fp, s, chunks, nows)
    requires StreamRows(s.fragment, chunks) != []
    ensures |Clocks(chunks, nows)| == |StreamRows(s.fragment, chunks)|
    ensures ClockOk(s.m.watch, Clocks(chunks, nows)[0])
    ensures StreamRows(s.fragment, chunks)[0] != [] || !s.m.watch.Absent?
    ensures var rows, clocks := StreamRows(s.fragment, chunks), Clocks(chunks, nows);
      forall i :: 0 <= i < |rows| ==> ClockOk(Started(s.m.watch, clocks[0]), clocks[i])
    ensures var rows, clocks := StreamRows(s.fragment, chunks), Clocks(chunks, nows);
      var m := Feed(fp, s, chunks, nows).m;
      m.labels == Some(Classify(fp, s.m.watch, rows[0], clocks[0])) &&
      m.queue == s.m.queue + TimedRows(fp, Started(s.m.watch, clocks[0]), rows[1..], clocks[1..]) &&
      m.watch == Started(s.m.watch, clocks[0]) &&
      !m.firstRow
  {
    var rows, clocks := StreamRows(s.fragment, chunks), Clocks(chunks, nows);
    FeedRows(fp, s, chunks, nows);
    DeliverAtEffect(fp, s.m, rows, clocks);
    DeliverAtQueue(fp, s.m, rows, clocks);
    var w := Started(s.m.watch, clocks[0]);
    assert TimedRows(fp, w, rows, clocks)[1..] == TimedRows(fp, w, rows[1..], clocks[1..]);
  }

  /** The stopwatch, once running, is never restarted by feeding a
      connection, and a stopwatch that exists keeps existing. */
  lemma {:induction false} FeedKeepsStopwatch(fp: FloatParser, s: Session, chunks: seq<string>, nows: seq<nat>)
    requires |nows| == |chunks| && Feedable(fp, s, chunks, nows)
    ensures s.m.watch.Running? ==> Feed(fp, s, chunks, nows).m.watch == s.m.watch
    ensures Feed(fp, s, chunks, nows).m.watch.Absent? == s.m.watch.Absent?
    decreases |chunks|
  {
    if chunks != [] {
      DeliverState(fp, s.m, Completed(s.fragment, chunks[0]), nows[0]);
      FeedKeepsStopwatch(fp, Step(fp, s, chunks[0], nows[0]), chunks[1..], nows[1..]);
    }
  }

  /** With a stopwatch and clock readings that never go back, past the
      start of a running stopwatch, every chunk can be parsed. */
  lemma {:induction false} TimedFeedable(fp: FloatParser, s: Session, chunks: seq<string>, nows: seq<nat>)
    requires |nows| == |chunks|
    requires !s.m.watch.Absent?
    requires forall i, j :: 0 <= i < j < |nows| ==> nows[i] <= nows[j]
    requires nows != [] ==> ClockOk(s.m.watch, nows[0])
    ensures Feedable(fp, s, chunks, nows)
    decreases |chunks|
  {
    if chunks != [] {
      var rows := Completed(s.fragment, chunks[0]);
      assert CanDeliver(s.m, rows, nows[0]);
      DeliverState(fp, s.m, rows, nows[0]);
      var s' := Step(fp, s, chunks[0], nows[0]);
      if |nows| > 1 {
        assert nows[1..][0] == nows[1];
        assert ClockOk(s'.m.watch, nows[1]);
      }
      TimedFeedable(fp, s', chunks[1..], nows[1..]);
    }
  }

  /** The fragment left by one connection is not cleared when the next one
      is accepted: when the next connection's first chunk completes a line,
      the first row starts with the previous connection's unterminated
      text. */
  lemma FragmentCarriesOver(fragment: string, chunks: seq<string>)
    requires chunks != [] && NewLine in chunks[0]
    ensures StreamRows(fragment, chunks) != []
    ensures StreamRows(fragment, chunks)[0] == fragment + Lines(chunks[0])[0]
  {
    FragmentCases(fragment, chunks[0]);
    CompletedCount(fragment, chunks[0]);
  }

  /** On an aligned stream Parse as written delivers the complete lines of
      the stored fragment followed by the whole stream, each at the reading
      of the chunk that completes it, and keeps the stream's unterminated
      tail: there, how the stream was cut into chunks does not matter. */
  lemma FeedAligned(fp: FloatParser, s: Session, chunks: seq<string>, nows: seq<nat>)
    requires NewLine !in s.fragment && Aligned(s.fragment, chunks)
    requires |nows| == |chunks| && Feedable(fp, s, chunks, nows)
    ensures |Clocks(chunks, nows)| == |Lines(s.fragment + Concat(chunks))|
    ensures DeliverAt(fp, s.m, Lines(s.fragment + Concat(chunks)), Clocks(chunks, nows)) ==
      Some(Feed(fp, s, chunks, nows).m)
    ensures Feed(fp, s, chunks, nows).fragment == Rest(s.fragment + Concat(chunks))
  {
    FeedRows(fp, s, chunks, nows);
    AlignedAgrees(s.fragment, chunks);
  }

  // ---------------------------------------------------------------------
  // The corrected feed, which extends the stored fragment
  // ---------------------------------------------------------------------

  /** Every chunk of a connection can be given to the corrected Parse. */
  predicate JoinedFeedable(fp: FloatParser, s: Session, chunks: seq<string>, nows: seq<nat>)
    requires |nows| == |chunks|
    decreases |chunks|
  {
    chunks == [] ||
    (CanDeliver(s.m, Lines(s.fragment + chunks[0]), nows[0]) &&
     JoinedFeedable(fp, JoinedStep(fp, s, chunks[0], nows[0]), chunks[1..], nows[1..]))
  }

  /** One chunk given to the corrected Parse: the complete lines of the
      stored fragment followed by the chunk are delivered, and the rest is
      kept. */
  function JoinedStep(fp: FloatParser, s: Session, chunk: string, now: nat): Session
    requires CanDeliver(s.m, Lines(s.fragment + chunk), now)
  {
    Session(Deliver(fp, s.m, Lines(s.fragment + chunk), now), Rest(s.fragment + chunk))
  }

  /** The chunks given to the corrected Parse in order. */
  function JoinedFeed(fp: FloatParser, s: Session, chunks: seq<string>, nows: seq<nat>): Session
    requires |nows| == |chunks| && JoinedFeedable(fp, s, chunks, nows)
    decreases |chunks|
  {
    if chunks == [] then s
    else JoinedFeed(fp, JoinedStep(fp, s, chunks[0], nows[0]), chunks[1..], nows[1..])
  }

  /** Feeding the corrected Parse chunks that all see the same clock
      reading is delivering the complete lines of the stored fragment
      followed by the whole stream, in one go, and keeping its unterminated
      tail: how the stream was cut into chunks never matters. */
  lemma {:induction false} JoinedFeedAtOneClock(fp: FloatParser, s: Session, chunks: seq<string>, now: nat)
    requires ClockOk(s.m.watch, now) && NewLine !in s.fragment
    requires JoinedFeedable(fp, s, chunks, Constant(|chunks|, now))
    ensures CanDeliver(s.m, Lines(s.fragment + Concat(chunks)), now)
    ensures JoinedFeed(fp, s, chunks, Constant(|chunks|, now)).m ==
      Deliver(fp, s.m, Lines(s.fragment + Concat(chunks)), now)
    ensures JoinedFeed(fp, s, chunks, Constant(|chunks|, now)).fragment == Rest(s.fragment + Concat(chunks))
    decreases |chunks|
  {
    if chunks == [] {
      assert s.fragment + Concat(chunks) == s.fragment;
      NoLines(s.fragment);
    } else {
      var nows, later := Constant(|chunks|, now), Constant(|chunks| - 1, now);
      var s' := JoinedStep(fp, s, chunks[0], now);
      assert JoinedFeedable(fp, s', chunks[1..], later) &&
             JoinedFeed(fp, s, chunks, nows) == JoinedFeed(fp, s', chunks[1..], later) by {
        assert nows[0] == now && nows[1..] == later;
      }
      JoinedStepKeeps(fp, s, chunks[0], now);
      JoinedFeedAtOneClock(fp, s', chunks[1..], now);
      JoinedStepThenRest(fp, s, chunks, now);
    }
  }

  /** The stream after the first chunk: delivering its lines is delivering
      those the first chunk completes, then the lines of the fragment it
      leaves followed by the other chunks. */
  lemma JoinedStepThenRest(fp: FloatParser, s: Session, chunks: seq<string>, now: nat)
    requires chunks != [] && CanDeliver(s.m, Lines(s.fragment + chunks[0]), now)
    requires var s' := JoinedStep(fp, s, chunks[0], now);
      CanDeliver(s'.m, Lines(s'.fragment + Concat(chunks[1..])), now)
    ensures var s' := JoinedStep(fp, s, chunks[0], now);
      CanDeliver(s.m, Lines(s.fragment + Concat(chunks)), now) &&
      Deliver(fp, s.m, Lines(s.fragment + Concat(chunks)), now) ==
        Deliver(fp, s'.m, Lines(s'.fragment + Concat(chunks[1..])), now) &&
      Rest(s.fragment + Concat(chunks)) == Rest(s'.fragment + Concat(chunks[1..]))
  {
    var x, more := s.fragment + chunks[0], Concat(chunks[1..]);
    assert s.fragment + Concat(chunks) == x + more by {
      assert Concat(chunks) == chunks[0] + more;
      AppendAssociates(s.fragment, chunks[0], more);
    }
    DeliverSplit(fp, s.m, x, more, now);
  }

  /** One chunk keeps the clock reading usable and stores a fragment
      without a '\n'. */
  lemma JoinedStepKeeps(fp: FloatParser, s: Session, chunk: string, now: nat)
    requires CanDeliver(s.m, Lines(s.fragment + chunk), now)
    ensures ClockOk(JoinedStep(fp, s, chunk, now).m.watch, now)
    ensures NewLine !in JoinedStep(fp, s, chunk, now).fragment
  {
    DeliverState(fp, s.m, Lines(s.fragment + chunk), now);
    StampStable(s.m.watch, now);
    RestFree(s.fragment + chunk);
  }

  /** Delivering the lines of a text followed by more text is delivering
      the lines of the text, then those of its rest followed by the more. */
  lemma DeliverSplit(fp: FloatParser, m: Machine, x: string, more: string, now: nat)
    requires CanDeliver(m, Lines(x), now)
    requires CanDeliver(Deliver(fp, m, Lines(x), now), Lines(Rest(x) + more), now)
    ensures CanDeliver(m, Lines(x + more), now)
    ensures Deliver(fp, m, Lines(x + more), now) ==
      Deliver(fp, Deliver(fp, m, Lines(x), now), Lines(Rest(x) + more), now)
    ensures Rest(x + more) == Rest(Rest(x) + more)
  {
    LinesAppend(x, more);
    CanDeliverAppend(fp, m, Lines(x), Lines(Rest(x) + more), now);
    DeliverAppend(fp, m, Lines(x), Lines(Rest(x) + more), now);
  }

  /** When the first batch can be delivered and the second can be from
      where it leaves, both can be delivered together. */
  lemma CanDeliverAppend(fp: FloatParser, m: Machine, r1: seq<string>, r2: seq<string>, now: nat)
    requires CanDeliver(m, r1, now) && CanDeliver(Deliver(fp, m, r1, now), r2, now)
    ensures CanDeliver(m, r1 + r2, now)
  {
    DeliverState(fp, m, r1, now);
    if r1 == [] {
      assert r1 + r2 == r2;
    } else {
      assert (r1 + r2)[0] == r1[0];
    }
  }

  /** On one chunk of an aligned stream the two parses do the same. */
  lemma AlignedStep(fragment: string, chunk: string)
    requires NewLine !in fragment && (chunk == [] || NewLine in chunk || fragment == [])
    ensures Completed(fragment, chunk) == Lines(fragment + chunk)
    ensures NextFragment(fragment, chunk) == Rest(fragment + chunk)
  {
    JoinedAgrees(fragment, chunk);
    FragmentCases(fragment, chunk);
    CompletedLines(fragment, chunk);
    if chunk == [] {
      assert fragment + chunk == fragment;
    } else if NewLine !in chunk {
      assert fragment + chunk == chunk;
    }
  }

  /** On an aligned stream Parse as written and the corrected Parse accept
      the same clock readings and reach the same session. */
  lemma {:induction false} AlignedFeedsAgree(fp: FloatParser, s: Session, chunks: seq<string>, nows: seq<nat>)
    requires NewLine !in s.fragment && Aligned(s.fragment, chunks) && |nows| == |chunks|
    ensures Feedable(fp, s, chunks, nows) <==> JoinedFeedable(fp, s, chunks, nows)
    ensures Feedable(fp, s, chunks, nows) ==> Feed(fp, s, chunks, nows) == JoinedFeed(fp, s, chunks, nows)
    decreases |chunks|
  {
    if chunks != [] {
      AlignedStep(s.fragment, chunks[0]);
      if CanDeliver(s.m, Completed(s.fragment, chunks[0]), nows[0]) {
        RestFree(s.fragment + chunks[0]);
        AlignedFeedsAgree(fp, Step(fp, s, chunks[0], nows[0]), chunks[1..], nows[1..]);
      }
    }
  }

  // ---------------------------------------------------------------------
  // The roles
  // ---------------------------------------------------------------------

  /** A client: connects to a data source, and parses without timestamps. */
  class Client {
    const port: Port
    const dataStore: DataStore
    const parser: Parser

    /** The ClientBase constructor after its port check, and the Client
        constructor: a parser without timestamps over the given store. */
    constructor (port: Port, dataStore: DataStore, fp: FloatParser)
      requires MinPort <= port
      ensures this.port == port && this.dataStore == dataStore
      ensures parser.dataStore == dataStore && parser.fp == fp
      ensures parser.watch == Absent && parser.firstRow && parser.partialData == []
      ensures fresh(parser)
    {
      this.port := port;
      this.dataStore := dataStore;
      parser := new Parser(dataStore, false, fp);
    }

    /** The parser's state between chunks. */
    function Current(): Session
      reads parser, dataStore
      requires parser.dataStore == dataStore
    {
      Session(parser.State(), parser.partialData)
    }

    /** The receive loop of Client.Run, with the socket replaced by the
        chunks it returns: every chunk up to the first empty one is given
        to the parser, in order. */
    method Receive(chunks: seq<string>)
      requires parser.dataStore == dataStore
      requires Feedable(parser.fp, Current(), chunks[..ClosedAt(chunks)], Constant(ClosedAt(chunks), 0))
      modifies parser, dataStore
      ensures Current() ==
        Feed(parser.fp, old(Current()), chunks[..ClosedAt(chunks)], Constant(ClosedAt(chunks), 0))
    {
      ghost var n := ClosedAt(chunks);
      ghost var zeros := Constant(n, 0);
      var i := 0;
      while true
        invariant 0 <= i <= n
        invariant Feedable(parser.fp, Current(), chunks[i..n], zeros[i..])
        invariant Feed(parser.fp, Current(), chunks[i..n], zeros[i..]) ==
                  Feed(parser.fp, old(Current()), chunks[..n], zeros)
        decreases n - i
      {
        if i == |chunks| || chunks[i] == [] {
          break;
        }
        assert chunks[i..n][0] == chunks[i] && chunks[i..n][1..] == chunks[i + 1..n];
        assert zeros[i..][1..] == zeros[i + 1..];
        parser.Parse(chunks[i], 0);
        i := i + 1;
      }
      assert chunks[i..n] == [];
      if i == 0 {
        assert chunks[..n] == chunks[i..n] && zeros == zeros[i..];
      }
    }
  }

  /** The ClientBase port check: a port below 1024 is refused. */
  method NewClient(port: Port, dataStore: DataStore, fp: FloatParser) returns (c: Option<Client>)
    ensures c.None? <==> port < MinPort
    ensures c.Some? ==> (fresh(c.value) && fresh(c.value.parser) &&
      c.value.port == port && c.value.dataStore == dataStore &&
      c.value.parser.dataStore == dataStore && c.value.parser.fp == fp &&
      c.value.parser.watch == Absent && c.value.parser.firstRow && c.value.parser.partialData == [])
  {
    if port < MinPort {
      return None;
    }
    var client := new Client(port, dataStore, fp);
    return Some(client);
  }

  /** A server: accepts data sources one after another, and parses with
      timestamps. */
  class Server {
    const port: Port
    const dataStore: DataStore
    const parser: Parser

    /** The ServerBase constructor after its port check, and the Server
        constructor: a parser with timestamps over the given store. */
    constructor (port: Port, dataStore: DataStore, fp: FloatParser)
      requires MinPort <= port
      ensures this.port == port && this.dataStore == dataStore
      ensures parser.dataStore == dataStore && parser.fp == fp
      ensures parser.watch == Idle && parser.firstRow && parser.partialData == []
      ensures fresh(parser)
    {
      this.port := port;
      this.dataStore := dataStore;
      parser := new Parser(dataStore, true, fp);
    }

    /** The parser's state between chunks. */
    function Current(): Session
      reads parser, dataStore
      requires parser.dataStore == dataStore
    {
      Session(parser.State(), parser.partialData)
    }

    /** One accepted connection of Server.Run, with the socket replaced by
        the chunks it returns and the clock readings at which they arrive:
        the first-row flag is set again, then every chunk up to the first
        empty one is given to the parser. Neither the stored fragment nor
        the stopwatch is reset. */
    method Serve(chunks: seq<string>, nows: seq<nat>)
      requires parser.dataStore == dataStore && |nows| == |chunks|
      requires Feedable(parser.fp, Current().(m := Current().m.(firstRow := true)),
                        chunks[..ClosedAt(chunks)], nows[..ClosedAt(chunks)])
      modifies parser, dataStore
      ensures Current() ==
        Feed(parser.fp, old(Current()).(m := old(Current()).m.(firstRow := true)),
             chunks[..ClosedAt(chunks)], nows[..ClosedAt(chunks)])
    {
      ghost var n := ClosedAt(chunks);
      parser.firstRow := true;
      ghost var start := Current();
      var i := 0;
      while true
        invariant 0 <= i <= n
        invariant Feedable(parser.fp, Current(), chunks[i..n], nows[i..n])
        invariant Feed(parser.fp, Current(), chunks[i..n], nows[i..n]) ==
                  Feed(parser.fp, start, chunks[..n], nows[..n])
        decreases n - i
      {
        if i == |chunks| || chunks[i] == [] {
          break;
        }
        assert chunks[i..n][0] == chunks[i] && chunks[i..n][1..] == chunks[i + 1..n];
        assert nows[i..n][0] == nows[i] && nows[i..n][1..] == nows[i + 1..n];
        parser.Parse(chunks[i], nows[i]);
        i := i + 1;
      }
      assert chunks[i..n] == [];
      if i == 0 {
        assert chunks[..n] == chunks[i..n] && nows[..n] == nows[i..n];
      }
    }
  }

  /** The ServerBase port check: a port below 1024 is refused. */
  method NewServer(port: Port, dataStore: DataStore, fp: FloatParser) returns (s: Option<Server>)
    ensures s.None? <==> port < MinPort
    ensures s.Some? ==> (fresh(s.value) && fresh(s.value.parser) &&
      s.value.port == port && s.value.dataStore == dataStore &&
      s.value.parser.dataStore == dataStore && s.value.parser.fp == fp &&
      s.value.parser.watch == Idle && s.value.parser.firstRow && s.value.parser.partialData == [])
  {
    if port < MinPort {
      return None;
    }
    var server := new Server(port, dataStore, fp);
    return Some(server);
  }
}
