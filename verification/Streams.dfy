/**
 * A connection fed a byte stream in chunks. The server chooses where units
 * begin and end; the network chooses where chunks do. When the second choice
 * cannot matter, and exactly when it can.
 */
module Streams {
  import opened Bytes
  import opened Rfb
  import opened Connections

  /** A connection and the bytes it holds unread. */
  datatype Link = Link(conn: Conn, held: seq<byte>)

  // --- Ending a connection ---

  function Detached(c: Conn): Conn {
    c.(attached := false, open := false, settling := false, phase := Version,
       pendingRects := 0, painted := false, keys := [])
  }

  /** The close is announced once a connection. */
  function CloseOnce(c: Conn): Conn {
    if c.closeEmitted then c else Emit(c.(closeEmitted := true), Closed)
  }

  function Teardown(c: Conn): Conn {
    var d := CloseOnce(Detached(c));
    if c.settling then Emit(d, Rejected(ClosedEarly)) else d
  }

  /** An error ends the connection; whoever waits for the handshake hears of it, or else a listener does. */
  function Fail(c: Conn, error: Error): Conn {
    var d := Teardown(c.(lastError := LastError(error), settling := false));
    if c.settling then Emit(d, Rejected(error))
    else if c.setup.listening then Emit(d, Failed(error))
    else d
  }

  // --- Reading a stream ---

  /** Whether an incomplete unit may not be waited for. The challenge is not checked. */
  predicate OverBudget(c: Conn, needed: nat) {
    !c.phase.Challenge? && needed > c.setup.max
  }

  function Parse(c: Conn, buf: seq<byte>): ParseResult<Unit> {
    ParseUnit(c.phase, SizeOf(c), buf)
  }

  lemma ParsedLength(c: Conn, buf: seq<byte>)
    requires buf != [] && Parse(c, buf).Parsed?
    ensures 0 < Parse(c, buf).length <= |buf|
  {
    UnitExtends(c.phase, SizeOf(c), buf, []);
  }

  function Log(c: Conn, u: Unit): Conn {
    c.(taken := c.taken + [u])
  }

  function Noted(o: Outcome, u: Unit): Outcome {
    match o
    case Done(d) => Done(Log(d, u))
    case Threw(d, e) => Threw(d, e)
  }

  /** Acting on the unit at the front of `buf`, and noting it. */
  ghost function Next(c: Conn, buf: seq<byte>): Outcome
    requires Inv(c) && c.attached && buf != [] && Parse(c, buf).Parsed?
  {
    ParsedReady(c, buf);
    Noted(Act(c, Parse(c, buf).value), Parse(c, buf).value)
  }

  lemma NextKeeps(c: Conn, buf: seq<byte>)
    requires Inv(c) && c.attached && buf != [] && Parse(c, buf).Parsed?
    ensures 0 < Parse(c, buf).length <= |buf|
    ensures var o := Next(c, buf);
            && Inv(o.conn) && o.conn.attached && o.conn.setup == c.setup
            && (o.Done? ==> o.conn.taken == c.taken + [Parse(c, buf).value])
            && (o.Threw? ==> o.conn.taken == c.taken && !o.error.OverLimit?)
  {
    ParsedLength(c, buf);
    ParsedReady(c, buf);
    ActKeeps(c, Parse(c, buf).value);
  }

  lemma FailKeeps(c: Conn, error: Error)
    requires Inv(c)
    ensures Inv(Fail(c, error)) && !Fail(c, error).attached && Fail(c, error).setup == c.setup
    ensures Fail(c, error).taken == c.taken && Fail(c, error).lastError == LastError(error)
  {
  }

  /** Reads every complete unit from the front of `buf`. */
  ghost function Read(c: Conn, buf: seq<byte>): Link
    requires Inv(c) && c.attached
    decreases |buf|
  {
    if buf == [] then Link(c, [])
    else
      match Parse(c, buf)
      case Need(n) => if OverBudget(c, n) then Link(Fail(c, OverLimit(n, c.setup.max)), []) else Link(c, buf)
      case Bad(e, _) => Link(Fail(c, e), [])
      case Parsed(_, length) =>
        NextKeeps(c, buf);
        match Next(c, buf)
        case Done(d) => Read(d, buf[length..])
        case Threw(d, e) => Link(Fail(d, e), [])
  }

  lemma {:induction false} ReadKeeps(c: Conn, buf: seq<byte>)
    requires Inv(c) && c.attached
    ensures Inv(Read(c, buf).conn) && Read(c, buf).conn.setup == c.setup
    ensures c.taken <= Read(c, buf).conn.taken
    decreases |buf|
  {
    if buf != [] {
      match Parse(c, buf)
      case Need(n) => FailKeeps(c, OverLimit(n, c.setup.max));
      case Bad(e, _) => FailKeeps(c, e);
      case Parsed(_, length) =>
        NextKeeps(c, buf);
        match Next(c, buf)
        case Done(d) => ReadKeeps(d, buf[length..]);
        case Threw(d, e) => FailKeeps(d, e);
    }
  }

  /** One chunk arriving. After the connection ended, chunks only pile up. */
  ghost function Deliver(l: Link, chunk: seq<byte>): (m: Link)
    requires Inv(l.conn)
    ensures Inv(m.conn)
  {
    if l.conn.attached then
      ReadKeeps(l.conn, l.held + chunk);
      Read(l.conn, l.held + chunk)
    else Link(l.conn, l.held + chunk)
  }

  ghost function DeliverAll(l: Link, chunks: seq<seq<byte>>): (m: Link)
    requires Inv(l.conn)
    ensures Inv(m.conn)
    decreases chunks
  {
    if chunks == [] then l else DeliverAll(Deliver(l, chunks[0]), chunks[1..])
  }

  /** Everything but the bytes piled up after the connection ended. */
  function Seen(l: Link): Link {
    if l.conn.attached then l else Link(l.conn, [])
  }

  /** No complete unit is left unread, and the one begun may be waited for. */
  ghost predicate Quiet(l: Link) {
    && Inv(l.conn)
    && (l.conn.attached && l.held != [] ==>
          Parse(l.conn, l.held).Need? && !OverBudget(l.conn, Parse(l.conn, l.held).bytes))
  }

  lemma {:induction false} ReadQuiet(c: Conn, buf: seq<byte>)
    requires Inv(c) && c.attached
    ensures Quiet(Read(c, buf))
    decreases |buf|
  {
    ReadKeeps(c, buf);
    if buf != [] && Parse(c, buf).Parsed? {
      NextKeeps(c, buf);
      if Next(c, buf).Done? {
        ReadQuiet(Next(c, buf).conn, buf[Parse(c, buf).length..]);
      }
    }
  }

  /** A live connection holds fewer bytes than the limit, or fewer than a challenge. */
  lemma HeldBounded(l: Link)
    requires Quiet(l) && l.conn.attached
    ensures l.held == [] || |l.held| < l.conn.setup.max || |l.held| < 16
  {
    if l.held != [] {
      UnitExtends(l.conn.phase, SizeOf(l.conn), l.held, []);
      assert l.held + [] == l.held;
    }
  }

  // --- Chunk independence ---

  /** A unit of this length reads the same whole and in pieces. */
  predicate Fits(c: Conn, length: nat) {
    c.phase.Challenge? || length <= c.setup.max || length <= 1
  }

  /** Fewer bytes of an unfinished unit do not ask for too much, unless they ask for what all of them do. */
  ghost predicate Steady(c: Conn, buf: seq<byte>) {
    forall k :: 0 < k < |buf| && Exceeds(c, buf[..k]) ==> Parse(c, buf[..k]) == Parse(c, buf)
  }

  /** The unit begun with these bytes may not be waited for. */
  predicate Exceeds(c: Conn, buf: seq<byte>) {
    Parse(c, buf).Need? && OverBudget(c, Parse(c, buf).bytes)
  }

  /** Every unit that `buf` completes, or is rejected by, is within the limit, and the one it begins asks steadily. */
  ghost predicate WithinLimit(c: Conn, buf: seq<byte>)
    requires Inv(c) && c.attached
    decreases |buf|
  {
    buf == [] ||
    match Parse(c, buf)
    case Need(_) => Steady(c, buf)
    case Bad(_, length) => Fits(c, length)
    case Parsed(_, length) =>
      NextKeeps(c, buf);
      && Fits(c, length)
      && (Next(c, buf).Done? ==> WithinLimit(Next(c, buf).conn, buf[length..]))
  }

  /** Reading in two pieces, and reading at once. */
  lemma {:induction false} ReadInTwo(c: Conn, first: seq<byte>, second: seq<byte>)
    requires Inv(c) && c.attached && WithinLimit(c, first + second)
    ensures Inv(Read(c, first).conn)
    ensures Seen(Deliver(Read(c, first), second)) == Seen(Read(c, first + second))
    ensures var l := Read(c, first); l.conn.attached ==> WithinLimit(l.conn, l.held + second)
    decreases |first|
  {
    ReadKeeps(c, first);
    if first == [] {
      assert first + second == second == [] + second;
    } else if Parse(c, first).Need? {
      UnfinishedInTwo(c, first, second);
    } else if Goes(c, first) {
      GoesOn(c, first, second);
      ReadInTwo(Next(c, first).conn, first[Parse(c, first).length..], second);
    } else {
      Ends(c, first, second);
    }
  }

  /** The unit at the front is read and the connection lives on. */
  ghost predicate Goes(c: Conn, buf: seq<byte>)
    requires Inv(c) && c.attached && buf != []
  {
    Parse(c, buf).Parsed? && Next(c, buf).Done?
  }

  lemma GoesOn(c: Conn, first: seq<byte>, second: seq<byte>)
    requires Inv(c) && c.attached && first != [] && Goes(c, first) && WithinLimit(c, first + second)
    ensures var d, length := Next(c, first).conn, Parse(c, first).length;
            && 0 < length <= |first| && Inv(d) && d.attached
            && Read(c, first) == Read(d, first[length..])
            && Read(c, first + second) == Read(d, first[length..] + second)
            && WithinLimit(d, first[length..] + second)
  {
    NextKeeps(c, first);
    UnitExtends(c.phase, SizeOf(c), first, second);
    var length := Parse(c, first).length;
    assert (first + second)[length..] == first[length..] + second;
  }

  /** The unit at the front ends the connection, whatever comes after it. */
  lemma Ends(c: Conn, first: seq<byte>, second: seq<byte>)
    requires Inv(c) && c.attached && first != [] && !Goes(c, first) && !Parse(c, first).Need?
    ensures Inv(Read(c, first).conn) && !Read(c, first).conn.attached
    ensures Read(c, first) == Read(c, first + second) == Seen(Deliver(Read(c, first), second))
  {
    ReadKeeps(c, first);
    UnitExtends(c.phase, SizeOf(c), first, second);
  }

  /** A unit unfinished after the first piece, whether it may be waited for or not. */
  lemma UnfinishedInTwo(c: Conn, first: seq<byte>, second: seq<byte>)
    requires Inv(c) && c.attached && first != [] && Parse(c, first).Need? && WithinLimit(c, first + second)
    ensures Inv(Read(c, first).conn)
    ensures Seen(Deliver(Read(c, first), second)) == Seen(Read(c, first + second))
    ensures var l := Read(c, first); l.conn.attached ==> l == Link(c, first)
  {
    ReadKeeps(c, first);
    UnitExtends(c.phase, SizeOf(c), first, second);
    if second == [] {
      assert first + second == first;
    } else {
      assert (first + second)[..|first|] == first;
    }
  }

  lemma {:induction false} DeliverDead(l: Link, chunks: seq<seq<byte>>)
    requires Inv(l.conn) && !l.conn.attached
    ensures DeliverAll(l, chunks).conn == l.conn
    decreases chunks
  {
    if chunks != [] {
      DeliverDead(Deliver(l, chunks[0]), chunks[1..]);
    }
  }

  /** Within the limit, a stream reads the same however it is cut. */
  lemma {:induction false} ChunksDoNotMatter(l: Link, chunks: seq<seq<byte>>)
    requires Quiet(l) && l.conn.attached && WithinLimit(l.conn, l.held + Concat(chunks))
    ensures Seen(DeliverAll(l, chunks)) == Seen(Deliver(l, Concat(chunks)))
    decreases chunks
  {
    if chunks == [] {
      assert l.held + [] == l.held;
    } else {
      var rest := Concat(chunks[1..]);
      assert l.held + Concat(chunks) == (l.held + chunks[0]) + rest;
      ReadInTwo(l.conn, l.held + chunks[0], rest);
      var next := Deliver(l, chunks[0]);
      ReadQuiet(l.conn, l.held + chunks[0]);
      if next.conn.attached {
        ChunksDoNotMatter(next, chunks[1..]);
      } else {
        DeliverDead(next, chunks[1..]);
      }
    }
  }

  predicate StoppedByLimit(c: Conn) {
    !c.attached && c.lastError.LastError? && c.lastError.error.OverLimit?
  }

  /** One reading was stopped by the limit; the other went on, ended otherwise or asked for another count. */
  predicate PastLimit(cut: Link, whole: Link) {
    && StoppedByLimit(cut.conn)
    && (|cut.conn.taken| < |whole.conn.taken| || !StoppedByLimit(whole.conn)
        || cut.conn.lastError != whole.conn.lastError)
  }

  /**
   * Past the limit there is a place to cut: the bytes up to it stop the
   * connection, while the whole buffer gets the unit read, or rejected for
   * what it is, or stopped for another count.
   */
  lemma {:induction false} CutPoint(c: Conn, buf: seq<byte>) returns (k: nat)
    requires Inv(c) && c.attached && !WithinLimit(c, buf)
    ensures 0 < k < |buf| && PastLimit(Read(c, buf[..k]), Read(c, buf))
    decreases |buf|
  {
    if Parse(c, buf).Need? {
      k := StopsEarly(c, buf);
    } else if !Fits(c, Parse(c, buf).length) {
      k := Parse(c, buf).length - 1;
      StopsShort(c, buf);
      if Parse(c, buf).Bad? {
        BadIsNotLimit(c.phase, SizeOf(c), buf);
      }
      ReadsOn(c, buf);
    } else {
      var length := Parse(c, buf).length;
      NextKeeps(c, buf);
      var d := Next(c, buf).conn;
      var j := CutPoint(d, buf[length..]);
      k := length + j;
      ReadPast(c, buf, k);
      assert buf[..k][length..] == buf[length..][..j];
    }
  }

  /** An unsteady hint stops the connection with a count the whole buffer does not ask for. */
  lemma StopsEarly(c: Conn, buf: seq<byte>) returns (k: nat)
    requires Inv(c) && c.attached && buf != [] && Parse(c, buf).Need? && !Steady(c, buf)
    ensures 0 < k < |buf| && PastLimit(Read(c, buf[..k]), Read(c, buf))
  {
    k :| 0 < k < |buf| && Exceeds(c, buf[..k]) && Parse(c, buf[..k]) != Parse(c, buf);
    FailKeeps(c, OverLimit(Parse(c, buf[..k]).bytes, c.setup.max));
    FailKeeps(c, OverLimit(Parse(c, buf).bytes, c.setup.max));
  }

  /** One byte short of an offending unit's end, the limit stops the connection. */
  lemma StopsShort(c: Conn, buf: seq<byte>)
    requires Inv(c) && c.attached && buf != [] && !Parse(c, buf).Need? && !Fits(c, Parse(c, buf).length)
    ensures var k := Parse(c, buf).length - 1;
            0 < k < |buf| && StoppedByLimit(Read(c, buf[..k]).conn) && Read(c, buf[..k]).conn.taken == c.taken
  {
    var k := Parse(c, buf).length - 1;
    UnitExact(c.phase, SizeOf(c), buf, |buf|);
    UnitExact(c.phase, SizeOf(c), buf, k);
    FailKeeps(c, OverLimit(Parse(c, buf[..k]).bytes, c.setup.max));
  }

  lemma BadIsNotLimit(phase: Phase, size: Size, buf: seq<byte>)
    requires ParseUnit(phase, size, buf).Bad?
    ensures !ParseUnit(phase, size, buf).error.OverLimit?
  {
  }

  lemma ReadsOn(c: Conn, buf: seq<byte>)
    requires Inv(c) && c.attached && buf != [] && !Parse(c, buf).Need?
    requires Parse(c, buf).Bad? ==> !Parse(c, buf).error.OverLimit?
    ensures |c.taken| < |Read(c, buf).conn.taken| || !StoppedByLimit(Read(c, buf).conn)
  {
    match Parse(c, buf)
    case Bad(e, _) => FailKeeps(c, e);
    case Parsed(_, length) =>
      NextKeeps(c, buf);
      match Next(c, buf) {
        case Done(d) => ReadKeeps(d, buf[length..]);
        case Threw(d, e) => FailKeeps(d, e);
      }
  }

  /** A prefix long enough for the first unit gets it read alike. */
  lemma ReadPast(c: Conn, buf: seq<byte>, k: nat)
    requires Inv(c) && c.attached && buf != [] && Parse(c, buf).Parsed?
    requires Parse(c, buf).length <= k <= |buf| && Next(c, buf).Done?
    ensures 0 < Parse(c, buf).length && Next(c, buf).conn.attached && Inv(Next(c, buf).conn)
    ensures Read(c, buf[..k]) == Read(Next(c, buf).conn, buf[..k][Parse(c, buf).length..])
  {
    NextKeeps(c, buf);
    UnitExact(c.phase, SizeOf(c), buf, k);
  }

  /** The difference shows. */
  lemma CutShows(cut: Link, whole: Link)
    requires PastLimit(cut, whole)
    ensures Seen(cut) != Seen(whole)
  {
  }

  /** A cut after the bytes held is a cut of the stream. */
  lemma CutOfStream(held: seq<byte>, stream: seq<byte>, k: nat)
    requires |held| <= k <= |held| + |stream|
    ensures (held + stream)[..k] == held + stream[..k - |held|]
    ensures stream[..k - |held|] + stream[k - |held|..] == stream
  {
  }

  /** Some way of cutting the stream shows where it exceeds the limit. */
  lemma {:induction false} ChunksMatter(l: Link, stream: seq<byte>) returns (chunks: seq<seq<byte>>)
    requires Quiet(l) && l.conn.attached && !WithinLimit(l.conn, l.held + stream)
    ensures Concat(chunks) == stream
    ensures Seen(DeliverAll(l, chunks)) != Seen(Deliver(l, stream))
  {
    var k := CutPoint(l.conn, l.held + stream);
    CutAfterHeld(l, stream, k);
    CutOfStream(l.held, stream, k);
    var a, b := stream[..k - |l.held|], stream[k - |l.held|..];
    CutInTwo(l, a, b, stream);
    chunks := [a, b];
  }

  lemma {:induction false} CutInTwo(l: Link, a: seq<byte>, b: seq<byte>, stream: seq<byte>)
    requires Inv(l.conn) && a + b == stream && PastLimit(Deliver(l, a), Deliver(l, stream))
    ensures Concat([a, b]) == stream && Seen(DeliverAll(l, [a, b])) != Seen(Deliver(l, stream))
  {
    TwoChunks(a, b);
    SecondChunkDead(l, a, b);
    CutShows(DeliverAll(l, [a, b]), Deliver(l, stream));
  }

  lemma {:induction false} SecondChunkDead(l: Link, a: seq<byte>, b: seq<byte>)
    requires Inv(l.conn) && !Deliver(l, a).conn.attached
    ensures DeliverAll(l, [a, b]).conn == Deliver(l, a).conn
  {
    assert [a, b][1..] == [b];
    DeliverDead(Deliver(l, a), [b]);
  }

  /** The bytes held never stopped the connection on their way in. */
  lemma HeldReads(l: Link, k: nat)
    requires Quiet(l) && l.conn.attached && 0 < k < |l.held|
    ensures Read(l.conn, l.held[..k]).conn.attached
  {
    var front := l.held[..k];
    assert front + l.held[k..] == l.held;
    UnitExtends(l.conn.phase, SizeOf(l.conn), front, l.held[k..]);
  }

  lemma CutAfterHeld(l: Link, stream: seq<byte>, k: nat)
    requires Quiet(l) && l.conn.attached && 0 < k <= |l.held| + |stream|
    requires !Read(l.conn, (l.held + stream)[..k]).conn.attached
    ensures |l.held| <= k
  {
    if k < |l.held| {
      assert (l.held + stream)[..k] == l.held[..k];
      HeldReads(l, k);
    }
  }

  lemma TwoChunks(a: seq<byte>, b: seq<byte>)
    ensures Concat([a, b]) == a + b
  {
    assert [a, b][1..] == [b];
    ConcatSingle(b);
  }

  /**
   * A stream leaves the same messages sent, the same events, the same screen
   * and the same state, or the same failure, however it is cut into chunks,
   * exactly when each unit it completes or is rejected by is within the limit
   * and the one it leaves unfinished is not refused for two different counts.
   */
  lemma ChunkIndependence(l: Link, stream: seq<byte>)
    requires Quiet(l) && l.conn.attached
    ensures (forall chunks :: Concat(chunks) == stream ==> Seen(DeliverAll(l, chunks)) == Seen(Deliver(l, stream)))
            <==> WithinLimit(l.conn, l.held + stream)
  {
    if WithinLimit(l.conn, l.held + stream) {
      forall chunks | Concat(chunks) == stream
        ensures Seen(DeliverAll(l, chunks)) == Seen(Deliver(l, stream))
      {
        ChunksDoNotMatter(l, chunks);
      }
    } else {
      var chunks := ChunksMatter(l, stream);
    }
  }

  // --- Limits in use ---

  /** The longest part of a unit that is read before its length is known. */
  const LONGEST_HEADER := 24

  /** Past the longest header a hint is the length of the whole unit. */
  lemma LongHintIsFinal(phase: Phase, size: Size, buf: seq<byte>, more: seq<byte>)
    requires buf != [] && ParseUnit(phase, size, buf).Need? && ParseUnit(phase, size, buf).bytes > LONGEST_HEADER
    ensures ParseUnit(phase, size, buf + more).Need? ==>
              ParseUnit(phase, size, buf + more) == ParseUnit(phase, size, buf)
  {
    UnitExtends(phase, size, buf, more);
  }

  /** With a limit no shorter than any header, only one count is ever refused for a unit. */
  lemma LongLimitIsSteady(c: Conn, buf: seq<byte>)
    requires c.setup.max >= LONGEST_HEADER && Parse(c, buf).Need?
    ensures Steady(c, buf)
  {
    forall k | 0 < k < |buf| && Exceeds(c, buf[..k])
      ensures Parse(c, buf[..k]) == Parse(c, buf)
    {
      assert buf[..k] + buf[k..] == buf;
      LongHintIsFinal(c.phase, SizeOf(c), buf[..k], buf[k..]);
    }
  }

  /** The limit a session has if none is given: a Raw rectangle covering the largest screen, with its header. */
  const DEFAULT_MAX_MESSAGE_BYTES := MAX_SCREEN_PIXELS * 4 + 12

  lemma RawWithinDefault(width: nat, height: nat, w: nat, h: nat)
    requires !TooLarge(width, height) && w <= width && h <= height
    ensures RawLength(w, h) <= DEFAULT_MAX_MESSAGE_BYTES
  {
    SpanIs(height, width);
    SpanIs(h, w * 4);
    FewerBytes(h, w, height, width);
  }

  lemma FewerBytes(h: nat, w: nat, height: nat, width: nat)
    requires h <= height && w <= width
    ensures h * (w * 4) <= height * width * 4
  {
    assert h * w <= h * width;
    assert h * width <= height * width;
    assert h * (w * 4) == h * w * 4;
  }

  /** Under that limit no rectangle depends on how it was cut. */
  lemma RectanglesFitDefault(c: Conn, buf: seq<byte>)
    requires Inv(c) && c.attached && c.phase.Rectangles? && c.setup.max >= DEFAULT_MAX_MESSAGE_BYTES && buf != []
    ensures !Parse(c, buf).Need? ==> Fits(c, Parse(c, buf).length)
    ensures Parse(c, buf).Need? ==> !Exceeds(c, buf)
  {
    if |buf| >= 12 && I32(buf, 8) == ENCODING_RAW {
      var w, h := U16(buf, 4), U16(buf, 6);
      if InBounds(c.frame.screen.width, c.frame.screen.height, U16(buf, 0), U16(buf, 2), w, h) {
        RawWithinDefault(c.frame.screen.width, c.frame.screen.height, w, h);
      }
    }
  }
}
