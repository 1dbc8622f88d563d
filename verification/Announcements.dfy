/**
 * What a live connection has announced, read off the units it took in and
 * nothing else: the session once ServerInit is read, every new screen size,
 * every update read to its last rectangle, every bell and every cut text.
 */
module Announcements {
  import opened Bytes
  import opened Screens
  import opened Rfb
  import opened Connections
  import opened Streams
  import opened Histories

  /** What a server message read in session has to announce. */
  function OfMessage(m: ServerMessage): seq<Event> {
    match m
    case Bell => [Rang]
    case CutText(text) => [Clipboard(text)]
    case ColourMap => []
    case UpdateHeader(_) => []
  }

  /** The last rectangle of an update announces the update, under the number of rectangles painted. */
  function OfRectangle(front: seq<Unit>, r: Rectangle): seq<Event> {
    (if r.Resize? then [Resized(r.width, r.height)] else [])
    + if Owed(front) == 1 then [Updated(RectanglesRead(front) + 1)] else []
  }

  /** The events the units read owe to whoever listens, in order. */
  function Announced(taken: seq<Unit>): seq<Event> {
    if taken == [] then []
    else
      var front, last := taken[..|taken| - 1], taken[|taken| - 1];
      Announced(front) +
      match last
      case InitUnit(width, height) => [Connected(width, height)]
      case MessageUnit(m) => OfMessage(m)
      case RectangleUnit(r) => OfRectangle(front, r)
      case _ => []
  }

  /** A live connection has announced what its units owe and no end, and before ServerInit someone waits for it. */
  predicate Tells(c: Conn) {
    c.attached ==>
      c.events == Announced(c.taken) && (!InSession(c) ==> c.settling) && !c.closeEmitted && c.lastError.NoError?
  }

  // --- Each unit announces what it owes ---

  lemma HandshakeTells(c: Conn, u: Unit)
    requires Inv(c) && c.attached && Tells(c) && Ready(c, u) && InPhase(c.phase, u)
    requires u.VersionUnit? || u.TypesUnit? || u.ChallengeUnit? || u.ResultUnit?
    requires Act(c, u).Done?
    ensures Tells(Log(Act(c, u).conn, u))
  {
    Push(c.taken, u);
    assert Announced(c.taken) + [] == Announced(c.taken);
  }

  lemma StartTells(c: Conn, width: nat, height: nat)
    requires c.attached && Tells(c) && c.phase.Init? && width < 0x1_0000 && height < 0x1_0000
    requires StartSession(c, width, height).Done?
    ensures Tells(Log(StartSession(c, width, height).conn, InitUnit(width, height)))
  {
    Push(c.taken, InitUnit(width, height));
  }

  lemma MessageTells(c: Conn, m: ServerMessage)
    requires Inv(c) && c.attached && Tells(c) && c.phase.Message?
    ensures Tells(Log(HandleMessage(c, m), MessageUnit(m)))
  {
    Push(c.taken, MessageUnit(m));
    assert Announced(c.taken) + [] == Announced(c.taken);
  }

  /** Counting off the last rectangle of an update announces its counter; any other announces nothing. */
  lemma FinishAnnounces(c: Conn)
    requires c.frame.Frame? && FrameFits(c) && c.pendingRects > 0 && c.painted
    ensures FinishRectangle(c).events
            == c.events + if c.pendingRects == 1 then [Updated(c.frame.seqNo)] else []
    ensures SameSetup(c, FinishRectangle(c))
  {
  }

  lemma CountedTells(c: Conn, d: Conn, r: Rectangle)
    requires Tells(c) && c.attached && InSession(c) && InSession(d)
    requires SameSetup(c, d) && d.events == c.events + OfRectangle(c.taken, r)
    ensures Tells(Log(d, RectangleUnit(r)))
  {
    Push(c.taken, RectangleUnit(r));
  }

  lemma RectangleTells(c: Conn, asked: nat, r: Rectangle)
    requires Inv(c) && c.attached && Tells(c) && Ledger(c, asked) && c.phase.Rectangles? && FrameReady(c, r)
    requires r.Resize? ==> !TooLarge(r.width, r.height)
    ensures Tells(Log(FinishRectangle(PaintOn(c, r)), RectangleUnit(r)))
  {
    var d := PaintOn(c, r);
    PaintKeeps(c, r);
    FinishAnnounces(d);
    assert d.events == c.events + if r.Resize? then [Resized(r.width, r.height)] else [];
    CountedTells(c, FinishRectangle(d), r);
  }

  lemma ActTells(c: Conn, asked: nat, u: Unit)
    requires Inv(c) && c.attached && Tells(c) && Ledger(c, asked) && Ready(c, u) && InPhase(c.phase, u)
    requires Act(c, u).Done?
    ensures Tells(Log(Act(c, u).conn, u))
  {
    match u
    case InitUnit(width, height) => StartTells(c, width, height);
    case MessageUnit(m) => MessageTells(c, m);
    case RectangleUnit(r) => RectangleTells(c, asked, r);
    case _ => HandshakeTells(c, u);
  }

  lemma NextTells(c: Conn, asked: nat, buf: seq<byte>)
    requires Inv(c) && c.attached && buf != [] && Parse(c, buf).Parsed? && Next(c, buf).Done?
    requires Tells(c) && Ledger(c, asked)
    ensures Tells(Next(c, buf).conn)
  {
    ParsedReady(c, buf);
    ActTells(c, asked, Parse(c, buf).value);
  }

  /** However many units a read takes, what they owe is announced, in order, and nothing else is. */
  lemma {:induction false} ReadTells(c: Conn, asked: nat, buf: seq<byte>)
    requires Inv(c) && c.attached && Tells(c) && Ledger(c, asked) && AnswersInFull(c.setup)
    ensures Tells(Read(c, buf).conn)
    decreases |buf|
  {
    if buf != [] {
      match Parse(c, buf)
      case Need(n) => FailKeeps(c, OverLimit(n, c.setup.max));
      case Bad(e, _) => FailKeeps(c, e);
      case Parsed(_, length) =>
        NextKeeps(c, buf);
        match Next(c, buf)
        case Done(d) =>
          NextTells(c, asked, buf);
          NextStep(c, asked, buf);
          ReadTells(d, asked, buf[length..]);
        case Threw(d, e) => FailKeeps(d, e);
    }
  }

  // --- How a connection ends ---

  /**
   * After the close, whoever still waits for the session hears what ended it;
   * once in session an error goes to whoever listens for errors.
   */
  function Farewell(c: Conn): seq<Event> {
    var error := if c.lastError.LastError? then c.lastError.error else ClosedEarly;
    if Inits(c.taken) == 0 then [Rejected(error)]
    else if c.lastError.LastError? && c.setup.listening then [Failed(error)]
    else []
  }

  /** An ended connection has announced what its units owe, the close, and why if anyone is to hear. */
  predicate Ended(c: Conn) {
    !c.attached && c.events == Announced(c.taken) + [Closed] + Farewell(c)
  }

  /** Someone waits exactly as long as ServerInit has not been read. */
  predicate Waits(c: Conn) {
    c.settling <==> Inits(c.taken) == 0
  }

  lemma LedgerWaits(c: Conn, asked: nat)
    requires Inv(c) && c.attached && Tells(c) && Ledger(c, asked)
    ensures Waits(c)
  {
  }

  lemma FailEnds(c: Conn, error: Error)
    requires c.attached && Tells(c) && Waits(c)
    ensures Ended(Fail(c, error)) && Fail(c, error).lastError == LastError(error)
  {
    assert Announced(c.taken) + [Closed] + [] == Announced(c.taken) + [Closed];
  }

  lemma TeardownEnds(c: Conn)
    requires c.attached && Tells(c) && Waits(c)
    ensures Ended(Teardown(c)) && Teardown(c).lastError == NoError
  {
    assert Announced(c.taken) + [Closed] + [] == Announced(c.taken) + [Closed];
  }

  lemma ThrewIsBefore(c: Conn, u: Unit)
    requires Inv(c) && Ready(c, u) && Act(c, u).Threw?
    ensures Act(c, u).conn == c.(frame := Act(c, u).conn.frame)
  {
  }

  /** A unit that cannot be acted on ends the connection before anything is announced of it. */
  lemma ThrewEnds(c: Conn, asked: nat, buf: seq<byte>)
    requires Inv(c) && c.attached && buf != [] && Parse(c, buf).Parsed? && Next(c, buf).Threw?
    requires Tells(c) && Ledger(c, asked)
    ensures Ended(Fail(Next(c, buf).conn, Next(c, buf).error))
  {
    ParsedReady(c, buf);
    ThrewIsBefore(c, Parse(c, buf).value);
    LedgerWaits(c, asked);
    FailEnds(Next(c, buf).conn, Next(c, buf).error);
  }

  /** A read that ends the connection ends it so. */
  lemma {:induction false} ReadEnds(c: Conn, asked: nat, buf: seq<byte>)
    requires Inv(c) && c.attached && Tells(c) && Ledger(c, asked) && AnswersInFull(c.setup)
    ensures !Read(c, buf).conn.attached ==> Ended(Read(c, buf).conn)
    decreases |buf|
  {
    if buf != [] {
      LedgerWaits(c, asked);
      match Parse(c, buf)
      case Need(n) => FailEnds(c, OverLimit(n, c.setup.max));
      case Bad(e, _) => FailEnds(c, e);
      case Parsed(_, length) =>
        NextKeeps(c, buf);
        match Next(c, buf)
        case Done(d) =>
          NextTells(c, asked, buf);
          NextStep(c, asked, buf);
          ReadEnds(d, asked, buf[length..]);
        case Threw(d, e) => ThrewEnds(c, asked, buf);
    }
  }
}
