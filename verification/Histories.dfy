/**
 * What the logs of a connection say about each other: the screen against the
 * rectangles read, the requests sent against the updates completed, the
 * counters announced against the paint counter, the keys down at the guest
 * against the keys held.
 */
module Histories {
  import opened Bytes
  import opened Screens
  import opened Rfb
  import opened ClientMessages
  import opened Connections
  import opened Streams

  // --- Readings of the history of units ---

  /** The screen the history paints: blank at ServerInit, then every rectangle in turn. */
  ghost function FrameOf(taken: seq<Unit>): (f: FrameState)
    ensures f.Frame? ==> f.screen.Valid()
  {
    if taken == [] then NoFrame
    else
      var before, last := FrameOf(taken[..|taken| - 1]), taken[|taken| - 1];
      match last
      case InitUnit(width, height) => Frame(Blank(width, height), 0)
      case RectangleUnit(r) =>
        if before.Frame? && RectFits(before.screen.width, before.screen.height, r)
        then Frame(Paint(before.screen, r), before.seqNo + 1)
        else before
      case _ => before
  }

  /** Rectangles still owed by the last update header. */
  function Owed(taken: seq<Unit>): nat {
    if taken == [] then 0
    else
      var before, last := Owed(taken[..|taken| - 1]), taken[|taken| - 1];
      match last
      case MessageUnit(UpdateHeader(n)) => n
      case RectangleUnit(_) => if before == 0 then 0 else before - 1
      case _ => before
  }

  /** Framebuffer updates read to their last rectangle. */
  function Completed(taken: seq<Unit>): nat {
    if taken == [] then 0
    else
      var front, last := taken[..|taken| - 1], taken[|taken| - 1];
      Completed(front) +
      match last
      case MessageUnit(UpdateHeader(n)) => if n == 0 then 1 else 0
      case RectangleUnit(_) => if Owed(front) == 1 then 1 else 0
      case _ => 0
  }

  /** ServerInit messages read. */
  function Inits(taken: seq<Unit>): nat {
    if taken == [] then 0
    else Inits(taken[..|taken| - 1]) + if taken[|taken| - 1].InitUnit? then 1 else 0
  }

  /** Rectangles read since ServerInit. */
  function RectanglesRead(taken: seq<Unit>): nat {
    if taken == [] then 0
    else
      var before, last := RectanglesRead(taken[..|taken| - 1]), taken[|taken| - 1];
      if last.InitUnit? then 0 else if last.RectangleUnit? then before + 1 else before
  }

  // --- Readings of the logs ---

  predicate IsRequest(m: seq<byte>, incremental: bool) {
    |m| == 10 && m[0] == MSG_FB_UPDATE_REQUEST && m[1] == Flag(incremental)
  }

  /** Update requests sent, incremental or full. */
  function Requests(sent: seq<seq<byte>>, incremental: bool): nat {
    if sent == [] then 0
    else
      Requests(sent[..|sent| - 1], incremental)
      + if IsRequest(sent[|sent| - 1], incremental) then 1 else 0
  }

  /** The largest counter an update event carried, or -1. */
  function LastUpdate(events: seq<Event>): int {
    if events == [] then -1
    else
      var last := events[|events| - 1];
      if last.Updated? then last.seqNo else LastUpdate(events[..|events| - 1])
  }

  /** Each update event carries a larger counter than the one before it. */
  predicate UpdatesIncrease(events: seq<Event>) {
    events == []
    || (UpdatesIncrease(events[..|events| - 1])
        && (events[|events| - 1].Updated? ==>
              LastUpdate(events[..|events| - 1]) < events[|events| - 1].seqNo))
  }

  lemma Push<T>(s: seq<T>, x: T)
    ensures (s + [x])[..|s|] == s && (s + [x])[|s|] == x
  {
  }

  predicate InSession(c: Conn) {
    c.phase.Message? || c.phase.Rectangles?
  }

  ghost predicate SessionLedger(c: Conn) {
    && c.frame == FrameOf(c.taken)
    && c.frame.Frame?
    && c.frame.seqNo == RectanglesRead(c.taken)
    && c.pendingRects == Owed(c.taken)
    && Requests(c.sent, true) <= Completed(c.taken)
    && (c.open ==> Requests(c.sent, true) == Completed(c.taken))
    && UpdatesIncrease(c.events)
    && LastUpdate(c.events) <= c.frame.seqNo
  }

  predicate HandshakeLedger(c: Conn) {
    && Owed(c.taken) == 0 && Completed(c.taken) == 0 && Inits(c.taken) == 0
    && Requests(c.sent, true) == 0
    && LastUpdate(c.events) == -1 && UpdatesIncrease(c.events)
  }

  /**
   * The accounts a live connection keeps. `asked` counts the full repaints
   * the session's user asked for.
   */
  ghost predicate Ledger(c: Conn, asked: nat) {
    c.attached ==>
      && (if InSession(c) then SessionLedger(c) && Inits(c.taken) == 1 else HandshakeLedger(c))
      && Requests(c.sent, false) == Inits(c.taken) + asked
  }

  /** Challenge answers are sixteen bytes, so none can be taken for another message. */
  ghost predicate AnswersInFull(setup: Setup) {
    forall challenge {:trigger setup.answer(challenge)} :: |challenge| == 16 ==> |setup.answer(challenge)| == 16
  }

  // --- Each unit keeps the accounts ---

  /** A handshake message is sent and its unit noted. */
  lemma HandshakeStep(c: Conn, asked: nat, data: seq<byte>, d: Conn, u: Unit)
    requires c.attached && Ledger(c, asked) && !InSession(c) && !InSession(d)
    requires |data| != 10 && !u.MessageUnit? && !u.RectangleUnit? && !u.InitUnit?
    requires d.sent == c.sent + [data] && d.events == c.events && d.taken == c.taken
    ensures Ledger(Log(d, u), asked)
  {
    Push(c.sent, data);
    Push(c.taken, u);
  }

  lemma TypesStep(c: Conn, asked: nat, types: seq<byte>)
    requires c.attached && Ledger(c, asked) && c.phase.SecurityTypes? && ChooseSecurity(c, types).Done?
    ensures Ledger(Log(ChooseSecurity(c, types).conn, TypesUnit(types)), asked)
  {
    var d := ChooseSecurity(c, types).conn;
    HandshakeStep(c, asked, if d.phase.Challenge? then [SECURITY_VNC_AUTH] else [SECURITY_NONE], d, TypesUnit(types));
  }

  lemma HandshakeKeeps(c: Conn, asked: nat, u: Unit)
    requires Inv(c) && c.attached && Ledger(c, asked) && Ready(c, u) && InPhase(c.phase, u) && AnswersInFull(c.setup)
    requires u.VersionUnit? || u.ChallengeUnit? || u.ResultUnit?
    requires Act(c, u).Done?
    ensures Ledger(Log(Act(c, u).conn, u), asked)
  {
    var d := Act(c, u).conn;
    match u
    case VersionUnit => HandshakeStep(c, asked, CLIENT_VERSION, d, u);
    case ChallengeUnit(challenge) => HandshakeStep(c, asked, c.setup.answer(challenge), d, u);
    case ResultUnit => HandshakeStep(c, asked, [1], d, u);
  }

  lemma RequestIs(incremental: bool, width: nat, height: nat)
    requires width < 0x1_0000 && height < 0x1_0000
    ensures IsRequest(Request(incremental, width, height), incremental)
    ensures !IsRequest(Request(incremental, width, height), !incremental)
  {
  }

  lemma SentOne(sent: seq<seq<byte>>, data: seq<byte>, incremental: bool)
    ensures Requests(sent + [data], incremental)
            == Requests(sent, incremental) + if IsRequest(data, incremental) then 1 else 0
  {
    Push(sent, data);
  }

  lemma GreetingSends(sent: seq<seq<byte>>, width: nat, height: nat)
    requires width < 0x1_0000 && height < 0x1_0000
    ensures var after := sent + Greeting(width, height);
            && Requests(after, true) == Requests(sent, true)
            && Requests(after, false) == Requests(sent, false) + 1
  {
    var a, b := Encode(SetPixelFormat), Encode(ClientMessages.SetEncodings(ENCODINGS));
    var r := Request(false, width, height);
    RequestIs(false, width, height);
    assert a[0] == MSG_SET_PIXEL_FORMAT && b[0] == MSG_SET_ENCODINGS;
    assert sent + [a, b, r] == ((sent + [a]) + [b]) + [r];
    forall incremental: bool
      ensures Requests(sent + [a, b, r], incremental)
              == Requests(sent, incremental) + if IsRequest(r, incremental) then 1 else 0
    {
      SentOne(sent, a, incremental);
      SentOne(sent + [a], b, incremental);
      SentOne((sent + [a]) + [b], r, incremental);
    }
  }

  lemma PushEvent(events: seq<Event>, e: Event)
    requires !e.Updated? && UpdatesIncrease(events)
    ensures UpdatesIncrease(events + [e]) && LastUpdate(events + [e]) == LastUpdate(events)
  {
    Push(events, e);
  }

  /** The accounts open with ServerInit. */
  lemma OpenedLedger(c: Conn, asked: nat, taken: seq<Unit>, width: nat, height: nat)
    requires Owed(taken) == 0 && Completed(taken) == 0 && Inits(taken) == 0
    requires c.taken == taken + [InitUnit(width, height)] && c.phase.Message?
    requires c.frame == Frame(Blank(width, height), 0) && c.pendingRects == 0
    requires Requests(c.sent, true) == 0 && Requests(c.sent, false) == 1 + asked
    requires UpdatesIncrease(c.events) && LastUpdate(c.events) == -1
    ensures Ledger(c, asked)
  {
    Push(taken, InitUnit(width, height));
  }

  lemma StartStep(c: Conn, asked: nat, width: nat, height: nat)
    requires c.attached && Ledger(c, asked) && c.phase.Init? && c.pendingRects == 0
    requires width < 0x1_0000 && height < 0x1_0000
    requires StartSession(c, width, height).Done?
    ensures Ledger(Log(StartSession(c, width, height).conn, InitUnit(width, height)), asked)
  {
    GreetingSends(c.sent, width, height);
    PushEvent(c.events, Connected(width, height));
    OpenedLedger(Log(StartSession(c, width, height).conn, InitUnit(width, height)), asked, c.taken, width, height);
  }

  /** An incremental request goes out, or the socket no longer takes one. */
  lemma RequestCounted(c: Conn)
    requires c.attached && FrameFits(c) && c.frame.Frame?
    ensures var d := RequestIncremental(c);
            && Requests(d.sent, true) == Requests(c.sent, true) + (if c.open then 1 else 0)
            && Requests(d.sent, false) == Requests(c.sent, false)
  {
    var r := Request(true, c.frame.screen.width, c.frame.screen.height);
    RequestIs(true, c.frame.screen.width, c.frame.screen.height);
    Push(c.sent, r);
  }

  /** An update of no rectangles is complete at once; any other is owed. */
  lemma UpdateStep(c: Conn, asked: nat, n: nat)
    requires Inv(c) && c.attached && Ledger(c, asked) && c.phase.Message?
    ensures Ledger(Log(HandleMessage(c, UpdateHeader(n)), MessageUnit(UpdateHeader(n))), asked)
  {
    Push(c.taken, MessageUnit(UpdateHeader(n)));
    if n == 0 {
      RequestCounted(c.(pendingRects := n, painted := false));
    }
  }

  lemma NoticeStep(c: Conn, asked: nat, m: ServerMessage)
    requires Inv(c) && c.attached && Ledger(c, asked) && c.phase.Message? && !m.UpdateHeader?
    ensures Ledger(Log(HandleMessage(c, m), MessageUnit(m)), asked)
  {
    Push(c.taken, MessageUnit(m));
    match m
    case Bell => PushEvent(c.events, Rang);
    case CutText(text) => PushEvent(c.events, Clipboard(text));
    case ColourMap =>
  }

  /** A rectangle painted but not yet counted off. */
  ghost predicate PaintedLedger(c: Conn, r: Rectangle, asked: nat) {
    && var after := c.taken + [RectangleUnit(r)];
    && c.frame == FrameOf(after) && c.frame.Frame?
    && c.frame.seqNo == RectanglesRead(after)
    && Owed(after) == c.pendingRects - 1
    && Completed(after) == Completed(c.taken) + (if c.pendingRects == 1 then 1 else 0)
    && Inits(after) == 1
    && Requests(c.sent, true) <= Completed(c.taken)
    && (c.open ==> Requests(c.sent, true) == Completed(c.taken))
    && Requests(c.sent, false) == 1 + asked
    && UpdatesIncrease(c.events) && LastUpdate(c.events) < c.frame.seqNo
  }

  lemma PaintStep(c: Conn, asked: nat, r: Rectangle)
    requires Inv(c) && c.attached && Ledger(c, asked) && c.phase.Rectangles? && FrameReady(c, r)
    ensures PaintedLedger(PaintOn(c, r), r, asked)
  {
    Push(c.taken, RectangleUnit(r));
    if r.Resize? {
      PushEvent(c.events, Resized(r.width, r.height));
    }
  }

  /** A rectangle that is not the last is only counted off. */
  lemma MoreStep(c: Conn, asked: nat, r: Rectangle)
    requires Inv(c) && c.attached && c.phase.Rectangles? && PaintedLedger(c, r, asked) && c.pendingRects > 1
    ensures Ledger(Log(c.(pendingRects := c.pendingRects - 1), RectangleUnit(r)), asked)
  {
  }

  /** After the last one the next frame is asked for. */
  lemma AskStep(c: Conn, asked: nat, r: Rectangle)
    requires Inv(c) && c.attached && c.phase.Rectangles? && PaintedLedger(c, r, asked) && c.pendingRects == 1
    ensures var d := RequestIncremental(c.(pendingRects := 0, phase := Message));
            Ledger(Log(d, RectangleUnit(r)), asked) && LastUpdate(d.events) < d.frame.seqNo
  {
    RequestCounted(c.(pendingRects := 0, phase := Message));
  }

  /** Announcing the update touches no other account. */
  lemma AnnounceStep(c: Conn, asked: nat)
    requires c.attached && InSession(c) && Ledger(c, asked) && LastUpdate(c.events) < c.frame.seqNo
    ensures Ledger(Emit(c, Updated(c.frame.seqNo)), asked)
  {
    Push(c.events, Updated(c.frame.seqNo));
  }

  lemma FinishStep(c: Conn, asked: nat, r: Rectangle)
    requires Inv(c) && c.attached && c.phase.Rectangles? && PaintedLedger(c, r, asked)
    ensures Ledger(Log(FinishRectangle(c), RectangleUnit(r)), asked)
  {
    if c.pendingRects != 1 {
      MoreStep(c, asked, r);
    } else {
      AskStep(c, asked, r);
      var d := RequestIncremental(c.(pendingRects := 0, phase := Message));
      AnnounceStep(Log(d, RectangleUnit(r)), asked);
    }
  }

  /** Every unit that does not end the connection keeps its accounts. */
  lemma ActStep(c: Conn, asked: nat, u: Unit)
    requires Inv(c) && c.attached && Ledger(c, asked) && Ready(c, u) && InPhase(c.phase, u) && AnswersInFull(c.setup)
    requires Act(c, u).Done?
    ensures Ledger(Log(Act(c, u).conn, u), asked)
  {
    match u
    case TypesUnit(types) => TypesStep(c, asked, types);
    case InitUnit(width, height) => StartStep(c, asked, width, height);
    case MessageUnit(m) => if m.UpdateHeader? { UpdateStep(c, asked, m.rectCount); } else { NoticeStep(c, asked, m); }
    case RectangleUnit(r) =>
      PaintKeeps(c, r);
      PaintStep(c, asked, r);
      FinishStep(PaintOn(c, r), asked, r);
    case _ => HandshakeKeeps(c, asked, u);
  }

  lemma NextStep(c: Conn, asked: nat, buf: seq<byte>)
    requires Inv(c) && c.attached && buf != [] && Parse(c, buf).Parsed? && Next(c, buf).Done?
    requires Ledger(c, asked) && AnswersInFull(c.setup)
    ensures Ledger(Next(c, buf).conn, asked)
  {
    ParsedReady(c, buf);
    ActStep(c, asked, Parse(c, buf).value);
  }

  /** However many units a read takes, the accounts balance after it. */
  lemma {:induction false} ReadStep(c: Conn, asked: nat, buf: seq<byte>)
    requires Inv(c) && c.attached && Ledger(c, asked) && AnswersInFull(c.setup)
    ensures Ledger(Read(c, buf).conn, asked)
    decreases |buf|
  {
    if buf != [] {
      match Parse(c, buf)
      case Need(n) => FailKeeps(c, OverLimit(n, c.setup.max));
      case Bad(e, _) => FailKeeps(c, e);
      case Parsed(_, length) =>
        NextKeeps(c, buf);
        match Next(c, buf)
        case Done(d) =>
          NextStep(c, asked, buf);
          ReadStep(d, asked, buf[length..]);
        case Threw(d, e) => FailKeeps(d, e);
    }
  }
}
