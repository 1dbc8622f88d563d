/**
 * One RFB connection as a value: what the handshake and the screen have come
 * to, the keys held, and the logs of what was sent and announced. The bytes
 * that arrive are read one protocol unit at a time.
 */
module Connections {
  import opened Bytes
  import opened Screens
  import opened Rfb
  import opened ClientMessages

  const MAX_SCREEN_PIXELS := 7680 * 4320

  /** "RFB 003.008" and a newline. */
  const CLIENT_VERSION: seq<byte> := [82, 70, 66, 32, 48, 48, 51, 46, 48, 48, 56, 10]

  const ENCODINGS := [ENCODING_COPYRECT, ENCODING_RAW, ENCODING_DESKTOP_SIZE]

  datatype Phase = Version | SecurityTypes | Challenge | SecurityResult | Init | Message | Rectangles

  datatype Unit =
    | VersionUnit
    | TypesUnit(types: seq<byte>)
    | ChallengeUnit(challenge: seq<byte>)
    | ResultUnit
    | InitUnit(width: nat, height: nat)
    | MessageUnit(message: ServerMessage)
    | RectangleUnit(rect: Rectangle)

  datatype Event =
    | Updated(seqNo: nat)
    | Resized(width: nat, height: nat)
    | Clipboard(text: seq<byte>)
    | Rang
    | Closed
    | Failed(error: Error)
    | Connected(width: nat, height: nat)
    | Rejected(error: Error)

  datatype FrameState = NoFrame | Frame(screen: Screen, seqNo: nat)

  datatype LastError = NoError | LastError(error: Error)

  /**
   * What a connection is opened with: the byte limit for an unfinished unit,
   * whether anyone listens for errors, and the password as the function that
   * answers a challenge with it.
   */
  datatype Setup = Setup(max: int, listening: bool, hasPassword: bool, answer: seq<byte> -> seq<byte>)

  /**
   * `taken` is the history of the units read on this connection; the logs also
   * start afresh with each connection.
   */
  datatype Conn = Conn(
    setup: Setup,
    attached: bool,
    open: bool,
    settling: bool,
    closeEmitted: bool,
    phase: Phase,
    frame: FrameState,
    pendingRects: nat,
    painted: bool,
    keys: seq<nat>,
    sent: seq<seq<byte>>,
    events: seq<Event>,
    lastError: LastError,
    taken: seq<Unit>)

  /** A session before its first socket. */
  function Unused(setup: Setup): Conn {
    Conn(setup, false, false, false, false, Version, NoFrame, 0, false, [], [], [], NoError, [])
  }

  // --- Reading a unit ---

  /** The challenge is read without a parser: sixteen bytes, whatever they are. */
  function ParseChallenge(buf: seq<byte>): ParseResult<seq<byte>> {
    if |buf| < 16 then Need(16) else Parsed(buf[..16], 16)
  }

  datatype Size = NoSize | Size(width: nat, height: nat)

  /** The unit at the front of a nonempty buffer, as the phase says to read it. */
  function ParseUnit(phase: Phase, size: Size, buf: seq<byte>): ParseResult<Unit> {
    match phase
    case Version =>
      (match ParseProtocolVersion(buf)
       case Parsed(_, length) => Parsed(VersionUnit, length)
       case Bad(e, length) => Bad(e, length)
       case Need(n) => Need(n))
    case SecurityTypes =>
      (match ParseSecurityTypes(buf)
       case Parsed(types, length) => Parsed(TypesUnit(types), length)
       case Bad(e, length) => Bad(e, length)
       case Need(n) => Need(n))
    case Challenge =>
      (match ParseChallenge(buf)
       case Parsed(challenge, length) => Parsed(ChallengeUnit(challenge), length)
       case Bad(e, length) => Bad(e, length)
       case Need(n) => Need(n))
    case SecurityResult =>
      (match ParseSecurityResult(buf)
       case Parsed(_, length) => Parsed(ResultUnit, length)
       case Bad(e, length) => Bad(e, length)
       case Need(n) => Need(n))
    case Init =>
      (match ParseServerInit(buf)
       case Parsed(init, length) => Parsed(InitUnit(init.width, init.height), length)
       case Bad(e, length) => Bad(e, length)
       case Need(n) => Need(n))
    case Message =>
      (match ParseServerMessage(buf)
       case Parsed(message, length) => Parsed(MessageUnit(message), length)
       case Bad(e, length) => Bad(e, length)
       case Need(n) => Need(n))
    case Rectangles =>
      if size.NoSize? then Bad(NoFramebuffer, 1)
      else
        match ParseRectangle(buf, size.width, size.height)
        case Parsed(rect, length) => Parsed(RectangleUnit(rect), length)
        case Bad(e, length) => Bad(e, length)
        case Need(n) => Need(n)
  }

  /** Every hint is sound: more than the buffer holds, stable until it is met, never past the unit's end. */
  lemma UnitExtends(phase: Phase, size: Size, buf: seq<byte>, more: seq<byte>)
    requires buf != []
    ensures Extends(ParseUnit(phase, size, buf), |buf|, ParseUnit(phase, size, buf + more), |buf + more|)
  {
    match phase
    case Version => VersionExtends(buf, more);
    case SecurityTypes => SecurityTypesExtends(buf, more);
    case Challenge => ChallengeExtends(buf, more);
    case SecurityResult => SecurityResultExtends(buf, more);
    case Init => ServerInitExtends(buf, more);
    case Message => ServerMessageExtends(buf, more);
    case Rectangles =>
      if size.Size? {
        RectangleExtends(buf, more, size.width, size.height);
      }
  }

  lemma ChallengeExtends(buf: seq<byte>, more: seq<byte>)
    ensures Extends(ParseChallenge(buf), |buf|, ParseChallenge(buf + more), |buf + more|)
  {
    if 16 <= |buf| {
      assert (buf + more)[..16] == buf[..16];
    }
  }

  /** A settled unit is settled by its own bytes and by no fewer. */
  lemma UnitExact(phase: Phase, size: Size, buf: seq<byte>, k: nat)
    requires 0 < k <= |buf| && !ParseUnit(phase, size, buf).Need?
    ensures ParseUnit(phase, size, buf).length <= |buf|
    ensures k < ParseUnit(phase, size, buf).length ==>
              ParseUnit(phase, size, buf[..k]).Need?
              && k < ParseUnit(phase, size, buf[..k]).bytes <= ParseUnit(phase, size, buf).length
    ensures k >= ParseUnit(phase, size, buf).length ==>
              ParseUnit(phase, size, buf[..k]) == ParseUnit(phase, size, buf)
  {
    UnitExtends(phase, size, buf, []);
    assert buf + [] == buf && buf[..k] + buf[k..] == buf;
    UnitExtends(phase, size, buf[..k], buf[k..]);
  }

  // --- Acting on a unit ---

  datatype Outcome = Done(conn: Conn) | Threw(conn: Conn, error: Error)

  function Send(c: Conn, data: seq<byte>): Outcome {
    if c.attached && c.open then Done(c.(sent := c.sent + [data])) else Threw(c, NotConnected)
  }

  function ChooseSecurity(c: Conn, types: seq<byte>): Outcome {
    if SECURITY_VNC_AUTH in types && c.setup.hasPassword then
      match Send(c, [SECURITY_VNC_AUTH])
      case Done(d) => Done(d.(phase := Challenge))
      case Threw(d, e) => Threw(d, e)
    else if SECURITY_NONE in types then
      match Send(c, [SECURITY_NONE])
      case Done(d) => Done(d.(phase := SecurityResult))
      case Threw(d, e) => Threw(d, e)
    else if SECURITY_VNC_AUTH in types then Threw(c, NoPassword)
    else Threw(c, NoUsableSecurity(types))
  }

  predicate TooLarge(width: nat, height: nat) {
    Span(height, width) > MAX_SCREEN_PIXELS
  }

  function Request(incremental: bool, width: nat, height: nat): seq<byte>
    requires width < 0x1_0000 && height < 0x1_0000
  {
    Encode(UpdateRequest(incremental, 0, 0, width, height))
  }

  function Emit(c: Conn, e: Event): Conn {
    c.(events := c.events + [e])
  }

  /** Asks for the next frame, if the socket still takes it. */
  function RequestIncremental(c: Conn): Conn
    requires c.frame.Frame? ==> c.frame.screen.width < 0x1_0000 && c.frame.screen.height < 0x1_0000
  {
    if c.frame.Frame? && c.attached && c.open then
      c.(sent := c.sent + [Request(true, c.frame.screen.width, c.frame.screen.height)])
    else c
  }

  function Settle(c: Conn, width: nat, height: nat): Conn {
    if c.settling then Emit(c.(settling := false), Connected(width, height)) else c
  }

  /** The messages that follow ServerInit. */
  function Greeting(width: nat, height: nat): seq<seq<byte>>
    requires width < 0x1_0000 && height < 0x1_0000
  {
    [Encode(SetPixelFormat), Encode(ClientMessages.SetEncodings(ENCODINGS)), Request(false, width, height)]
  }

  function Begin(c: Conn, width: nat, height: nat): Outcome
    requires width < 0x1_0000 && height < 0x1_0000
  {
    if c.attached && c.open then
      Done(Settle(c.(sent := c.sent + Greeting(width, height), phase := Message), width, height))
    else Threw(c, NotConnected)
  }

  function StartSession(c: Conn, width: nat, height: nat): Outcome
    requires width < 0x1_0000 && height < 0x1_0000
  {
    if TooLarge(width, height) then Threw(c, ScreenTooLarge(width, height))
    else Begin(c.(frame := Frame(Blank(width, height), 0)), width, height)
  }

  function HandleMessage(c: Conn, m: ServerMessage): Conn
    requires FrameFits(c)
  {
    match m
    case UpdateHeader(n) =>
      var d := c.(pendingRects := n, painted := false);
      if n == 0 then RequestIncremental(d) else d.(phase := Rectangles)
    case Bell => Emit(c, Rang)
    case CutText(text) => Emit(c, Clipboard(text))
    case ColourMap => c
  }

  ghost function PaintOn(c: Conn, r: Rectangle): Conn
    requires FrameReady(c, r)
  {
    var d := c.(frame := Frame(Paint(c.frame.screen, r), c.frame.seqNo + 1), painted := true);
    if r.Resize? then Emit(d, Resized(r.width, r.height)) else d
  }

  ghost function FinishRectangle(c: Conn): Conn
    requires c.frame.Frame? && FrameFits(c) && c.pendingRects > 0
  {
    if c.pendingRects != 1 then c.(pendingRects := c.pendingRects - 1)
    else
      var d := RequestIncremental(c.(pendingRects := 0, phase := Message));
      if d.painted then Emit(d, Updated(d.frame.seqNo)) else d
  }

  predicate FrameFits(c: Conn) {
    c.frame.Frame? ==> c.frame.screen.width < 0x1_0000 && c.frame.screen.height < 0x1_0000
  }

  ghost predicate FrameReady(c: Conn, r: Rectangle) {
    && c.frame.Frame? && c.frame.screen.Valid()
    && RectFits(c.frame.screen.width, c.frame.screen.height, r)
    && (r.Resize? ==> r.width < 0x1_0000 && r.height < 0x1_0000)
  }

  ghost function HandleRectangle(c: Conn, r: Rectangle): Outcome
    requires FrameReady(c, r) && FrameFits(c) && c.pendingRects > 0
  {
    if r.Resize? && TooLarge(r.width, r.height) then Threw(c, ScreenTooLarge(r.width, r.height))
    else Done(FinishRectangle(PaintOn(c, r)))
  }

  /** What holds of every connection between two reads. */
  ghost predicate Inv(c: Conn) {
    && (c.frame.Frame? ==>
          c.frame.screen.Valid() && !TooLarge(c.frame.screen.width, c.frame.screen.height) && FrameFits(c))
    && (c.attached && (c.phase.Message? || c.phase.Rectangles?) ==> c.frame.Frame? && !c.settling)
    && (c.phase.Rectangles? <==> c.pendingRects > 0)
    && (!c.attached ==> c.phase.Version? && c.keys == [] && !c.open && !c.settling)
  }

  /** A unit that a parser can have handed to a connection in this state. */
  ghost predicate Ready(c: Conn, u: Unit) {
    match u
    case ChallengeUnit(challenge) => |challenge| == 16
    case InitUnit(width, height) => width < 0x1_0000 && height < 0x1_0000
    case MessageUnit(_) => c.frame.Frame? && c.phase.Message?
    case RectangleUnit(r) => FrameReady(c, r) && c.phase.Rectangles?
    case _ => true
  }

  function Then(o: Outcome, phase: Phase): Outcome {
    match o
    case Done(d) => Done(d.(phase := phase))
    case Threw(d, e) => Threw(d, e)
  }

  /** One protocol unit: what the session does on reading it, or the error it throws. */
  ghost function Act(c: Conn, u: Unit): Outcome
    requires Inv(c) && Ready(c, u)
  {
    match u
    case VersionUnit => Then(Send(c, CLIENT_VERSION), SecurityTypes)
    case TypesUnit(types) => ChooseSecurity(c, types)
    case ChallengeUnit(challenge) => Then(Send(c, c.setup.answer(challenge)), SecurityResult)
    case ResultUnit => Then(Send(c, [1]), Init)
    case InitUnit(width, height) => StartSession(c, width, height)
    case MessageUnit(m) => Done(HandleMessage(c, m))
    case RectangleUnit(r) => HandleRectangle(c, r)
  }

  function SizeOf(c: Conn): Size {
    if c.frame.Frame? then Size(c.frame.screen.width, c.frame.screen.height) else NoSize
  }

  /** The phase a unit is read in. */
  predicate InPhase(phase: Phase, u: Unit) {
    match u
    case VersionUnit => phase.Version?
    case TypesUnit(_) => phase.SecurityTypes?
    case ChallengeUnit(_) => phase.Challenge?
    case ResultUnit => phase.SecurityResult?
    case InitUnit(_, _) => phase.Init?
    case MessageUnit(_) => phase.Message?
    case RectangleUnit(_) => phase.Rectangles?
  }

  lemma ParsedReady(c: Conn, buf: seq<byte>)
    requires Inv(c) && c.attached && ParseUnit(c.phase, SizeOf(c), buf).Parsed?
    ensures Ready(c, ParseUnit(c.phase, SizeOf(c), buf).value)
    ensures InPhase(c.phase, ParseUnit(c.phase, SizeOf(c), buf).value)
  {
  }

  /** Reading a unit leaves the connection's setup alone. */
  ghost predicate SameSetup(c: Conn, d: Conn) {
    && d.setup == c.setup
    && d.attached == c.attached && d.open == c.open && d.closeEmitted == c.closeEmitted
    && d.keys == c.keys && d.lastError == c.lastError && d.taken == c.taken
  }

  ghost predicate Keeps(c: Conn, o: Outcome) {
    && Inv(o.conn) && SameSetup(c, o.conn)
    && (o.Threw? ==> !o.error.OverLimit?)
  }

  lemma TypesKeep(c: Conn, types: seq<byte>)
    requires Inv(c) && c.attached && c.phase.SecurityTypes?
    ensures Keeps(c, ChooseSecurity(c, types))
  {
  }

  lemma BlankSize(width: nat, height: nat)
    ensures Blank(width, height).width == width && Blank(width, height).height == height
  {
  }

  lemma StartKeeps(c: Conn, width: nat, height: nat)
    requires Inv(c) && c.attached && c.phase.Init? && width < 0x1_0000 && height < 0x1_0000
    ensures Keeps(c, StartSession(c, width, height))
  {
    BlankSize(width, height);
  }

  lemma MessageKeeps(c: Conn, m: ServerMessage)
    requires Inv(c) && c.attached && c.phase.Message?
    ensures Keeps(c, Done(HandleMessage(c, m)))
  {
  }

  lemma PaintKeeps(c: Conn, r: Rectangle)
    requires Inv(c) && c.attached && c.phase.Rectangles? && FrameReady(c, r)
    requires r.Resize? ==> !TooLarge(r.width, r.height)
    ensures Inv(PaintOn(c, r)) && SameSetup(c, PaintOn(c, r))
    ensures PaintOn(c, r).phase == c.phase && PaintOn(c, r).pendingRects == c.pendingRects
    ensures PaintOn(c, r).frame.Frame? && PaintOn(c, r).painted
  {
    PaintSize(c.frame.screen, r);
  }

  lemma PaintSize(s: Screen, r: Rectangle)
    requires s.Valid() && RectFits(s.width, s.height, r)
    ensures Paint(s, r).width == (if r.Resize? then r.width else s.width)
    ensures Paint(s, r).height == (if r.Resize? then r.height else s.height)
  {
  }

  lemma FinishKeeps(c: Conn)
    requires Inv(c) && c.attached && c.phase.Rectangles? && c.frame.Frame?
    ensures Inv(FinishRectangle(c)) && SameSetup(c, FinishRectangle(c))
  {
  }

  lemma RectangleKeeps(c: Conn, r: Rectangle)
    requires Inv(c) && c.attached && c.phase.Rectangles? && FrameReady(c, r)
    ensures Keeps(c, HandleRectangle(c, r))
  {
    if !(r.Resize? && TooLarge(r.width, r.height)) {
      PaintKeeps(c, r);
      FinishKeeps(PaintOn(c, r));
    }
  }

  lemma ActKeeps(c: Conn, u: Unit)
    requires Inv(c) && c.attached && Ready(c, u) && InPhase(c.phase, u)
    ensures Keeps(c, Act(c, u))
  {
    match u
    case TypesUnit(types) => TypesKeep(c, types);
    case InitUnit(width, height) => StartKeeps(c, width, height);
    case MessageUnit(m) => MessageKeeps(c, m);
    case RectangleUnit(r) => RectangleKeeps(c, r);
    case _ =>
  }
}
