/**
 * What a connection announces of itself: the handshake is answered once, and
 * its end is announced once.
 */
module Notices {
  import opened Bytes
  import opened Screens
  import opened Rfb
  import opened Connections
  import opened Streams
  import opened Operations
  import opened Histories
  import opened Runs

  predicate IsAnswer(e: Event) {
    e.Connected? || e.Rejected?
  }

  /** How often the promise of the handshake was settled. */
  function Answers(events: seq<Event>): nat {
    if events == [] then 0
    else Answers(events[..|events| - 1]) + if IsAnswer(events[|events| - 1]) then 1 else 0
  }

  /** How often the close was announced. */
  function Closes(events: seq<Event>): nat {
    if events == [] then 0
    else Closes(events[..|events| - 1]) + if events[|events| - 1].Closed? then 1 else 0
  }

  /**
   * A live connection has answered its handshake unless it is still settling,
   * and has announced no end; one that ended has answered once and announced
   * its end once. `begun` says whether a socket was ever attached.
   */
  predicate Told(c: Conn, begun: bool) {
    if c.attached then
      begun && Answers(c.events) == (if c.settling then 0 else 1) && Closes(c.events) == 0 && !c.closeEmitted
    else
      && !c.settling && Answers(c.events) == (if begun then 1 else 0)
      && Closes(c.events) == (if c.closeEmitted then 1 else 0) && (begun ==> c.closeEmitted)
  }

  lemma ToldOne(events: seq<Event>, e: Event)
    ensures Answers(events + [e]) == Answers(events) + if IsAnswer(e) then 1 else 0
    ensures Closes(events + [e]) == Closes(events) + if e.Closed? then 1 else 0
  {
    Push(events, e);
  }

  // --- Units ---

  /** Acting on a unit announces nothing of the connection, unless it settles it. */
  predicate TellsAlike(c: Conn, d: Conn) {
    Closes(d.events) == Closes(c.events)
    && (if c.settling && !d.settling then Answers(d.events) == Answers(c.events) + 1
        else d.settling == c.settling && Answers(d.events) == Answers(c.events))
  }

  lemma StartTells(c: Conn, width: nat, height: nat)
    requires width < 0x1_0000 && height < 0x1_0000
    ensures TellsAlike(c, StartSession(c, width, height).conn)
  {
    ToldOne(c.events, Connected(width, height));
  }

  lemma EmitTells(c: Conn, e: Event)
    requires !IsAnswer(e) && !e.Closed?
    ensures TellsAlike(c, Emit(c, e))
  {
    ToldOne(c.events, e);
  }

  lemma HeaderTells(c: Conn, n: nat)
    requires FrameFits(c)
    ensures TellsAlike(c, HandleMessage(c, UpdateHeader(n)))
  {
  }

  lemma MessageTells(c: Conn, m: ServerMessage)
    requires FrameFits(c)
    ensures TellsAlike(c, HandleMessage(c, m))
  {
    match m
    case UpdateHeader(n) => HeaderTells(c, n);
    case Bell => EmitTells(c, Rang);
    case CutText(text) => EmitTells(c, Clipboard(text));
    case ColourMap =>
  }

  lemma PaintTells(c: Conn, r: Rectangle)
    requires FrameReady(c, r)
    ensures TellsAlike(c, PaintOn(c, r))
  {
    ToldOne(c.events, Resized(if r.Resize? then r.width else 0, if r.Resize? then r.height else 0));
  }

  lemma AskTells(c: Conn)
    requires FrameFits(c)
    ensures TellsAlike(c, RequestIncremental(c))
  {
  }

  lemma FinishTells(c: Conn)
    requires c.frame.Frame? && FrameFits(c) && c.pendingRects > 0
    ensures TellsAlike(c, FinishRectangle(c))
  {
    if c.pendingRects == 1 {
      var d := c.(pendingRects := 0, phase := Message);
      AskTells(d);
      EmitTells(RequestIncremental(d), Updated(c.frame.seqNo));
    }
  }

  lemma RectangleTells(c: Conn, r: Rectangle)
    requires Inv(c) && c.attached && c.phase.Rectangles? && FrameReady(c, r)
    ensures TellsAlike(c, HandleRectangle(c, r).conn)
  {
    if !(r.Resize? && TooLarge(r.width, r.height)) {
      PaintKeeps(c, r);
      PaintTells(c, r);
      FinishTells(PaintOn(c, r));
    }
  }

  lemma ActTells(c: Conn, u: Unit)
    requires Inv(c) && c.attached && Ready(c, u) && InPhase(c.phase, u)
    ensures TellsAlike(c, Act(c, u).conn)
  {
    match u
    case InitUnit(width, height) => StartTells(c, width, height);
    case MessageUnit(m) => MessageTells(c, m);
    case RectangleUnit(r) => RectangleTells(c, r);
    case _ =>
  }

  lemma NextTold(c: Conn, buf: seq<byte>)
    requires Inv(c) && c.attached && Told(c, true) && buf != [] && Parse(c, buf).Parsed?
    ensures Told(Next(c, buf).conn, true)
  {
    ParsedReady(c, buf);
    ActKeeps(c, Parse(c, buf).value);
    ActTells(c, Parse(c, buf).value);
  }

  // --- Ends ---

  lemma TeardownTold(c: Conn, begun: bool)
    requires Told(c, begun)
    ensures Told(Teardown(c), begun) && Closes(Teardown(c).events) == 1
    ensures begun ==> Answers(Teardown(c).events) == 1
  {
    ToldOne(c.events, Closed);
    ToldOne(CloseOnce(Detached(c)).events, Rejected(ClosedEarly));
  }

  /** Settling is put aside while a failing connection is torn down. */
  lemma AsideTold(c: Conn, error: Error, begun: bool)
    requires Told(c, begun)
    ensures var d := Teardown(c.(lastError := LastError(error), settling := false));
            && !d.attached && d.closeEmitted && Closes(d.events) == 1
            && Answers(d.events) == Answers(c.events)
  {
    ToldOne(c.events, Closed);
  }

  /** However a connection ends, its end is announced once and its handshake has been answered once. */
  lemma FailTold(c: Conn, error: Error, begun: bool)
    requires Told(c, begun)
    ensures Told(Fail(c, error), begun) && Closes(Fail(c, error).events) == 1
    ensures begun ==> Answers(Fail(c, error).events) == 1
  {
    AsideTold(c, error, begun);
    var d := Teardown(c.(lastError := LastError(error), settling := false));
    assert Fail(c, error) == if c.settling then Emit(d, Rejected(error))
                             else if c.setup.listening then Emit(d, Failed(error)) else d;
    ToldOne(d.events, Rejected(error));
    ToldOne(d.events, Failed(error));
  }

  lemma {:induction false} ReadTold(c: Conn, buf: seq<byte>)
    requires Inv(c) && c.attached && Told(c, true)
    ensures Told(Read(c, buf).conn, true)
    decreases |buf|
  {
    if buf != [] {
      match Parse(c, buf)
      case Need(n) => FailTold(c, OverLimit(n, c.setup.max), true);
      case Bad(e, _) => FailTold(c, e, true);
      case Parsed(_, length) =>
        NextKeeps(c, buf);
        NextTold(c, buf);
        match Next(c, buf)
        case Done(d) => ReadTold(d, buf[length..]);
        case Threw(d, e) => FailTold(d, e, true);
    }
  }

  // --- Runs ---

  lemma UserTells(l: Link, op: Op, begun: bool)
    requires Sane(l.conn) && UserOp(op) && Told(l.conn, begun)
    ensures Told(Step(l, op).conn, begun)
  {
  }

  lemma CloseTold(c: Conn, begun: bool)
    requires Sane(c) && Told(c, begun)
    ensures Told(CloseSession(c), begun)
  {
    TeardownTold(ReleaseKeys(c), begun);
  }

  lemma StepTold(l: Link, op: Op, begun: bool)
    requires Sane(l.conn) && Told(l.conn, begun)
    ensures Told(Step(l, op).conn, begun || op.Attach?)
  {
    var c := l.conn;
    if UserOp(op) {
      UserTells(l, op, begun);
    } else {
      match op
      case Arrive(chunk) => if c.attached { ReadTold(c, l.held + chunk); }
      case PeerClosed =>
        FailTold(c, ClosedEarly, begun);
        TeardownTold(c, begun);
      case SocketError => FailTold(c, SocketFailed, begun);
      case TimedOut => FailTold(c, HandshakeTimedOut, begun);
      case Close => CloseTold(c, begun);
      case _ =>
    }
  }

  ghost predicate Attaches(ops: seq<Op>) {
    exists op :: op in ops && op.Attach?
  }

  lemma {:induction false} RunTells(t: Tally, ops: seq<Op>, begun: bool)
    requires Sound(t.link, t.asked) && Told(t.link.conn, begun)
    requires forall op :: op in ops && op.Attach? ==> AnswersInFull(op.setup)
    ensures Told(Run(t, ops).link.conn, begun || Attaches(ops))
    decreases |ops|
  {
    if ops != [] {
      StepSound(t.link, ops[0], t.asked);
      StepTold(t.link, ops[0], begun);
      assert Attaches(ops) <==> ops[0].Attach? || Attaches(ops[1..]) by {
        forall op | op in ops
          ensures op == ops[0] || op in ops[1..]
        {
        }
      }
      RunTells(Tally(Step(t.link, ops[0]), Asked(t.link, ops[0], t.asked)), ops[1..], begun || ops[0].Attach?);
    }
  }

  /**
   * Over any run from an unused session: once a socket has been attached, the
   * connection that ended last settled its promise exactly once and announced
   * its end exactly once; one still alive has settled it unless the handshake
   * is in flight, and has announced no end.
   */
  lemma RunTold(setup: Setup, ops: seq<Op>)
    requires forall op :: op in ops && op.Attach? ==> AnswersInFull(op.setup)
    ensures Sound(Link(Unused(setup), []), 0)
    ensures var c := Run(Tally(Link(Unused(setup), []), 0), ops).link.conn;
            && (c.attached ==> Attaches(ops))
            && (c.attached ==> Closes(c.events) == 0 && Answers(c.events) == (if c.settling then 0 else 1))
            && (!c.attached && Attaches(ops) ==> Closes(c.events) == 1 && Answers(c.events) == 1)
            && (!Attaches(ops) ==> Answers(c.events) == 0)
  {
    UnusedSound(setup);
    RunTells(Tally(Link(Unused(setup), []), 0), ops, false);
  }
}
