/**
 * The session object: chunks buffered until the next parse can succeed, the
 * handshake and message states, and the frame painted in place. Every method
 * does to the object's abstract value what the connection model says.
 */
module Sessions {
  import opened Bytes
  import opened Screens
  import opened Framebuffers
  import opened Rfb
  import C = ClientMessages
  import opened Connections
  import opened Streams
  import opened Keys
  import Operations

  /** A method either returns or throws. */
  datatype Did = Went | Raised(error: Error)

  /** A method did to `c` what `o` says. */
  ghost predicate Does(did: Did, c: Conn, o: Outcome) {
    c == o.conn && did == match o { case Done(_) => Went case Threw(_, e) => Raised(e) }
  }

  datatype Taken<+T> = Complete(value: T, length: nat) | Waiting | Thrown(error: Error)

  /**
   * Reading one unit from the front of `buf` took `before` to `after`: nothing
   * consumed but a new hint, a throw, or the unit acted on and consumed.
   */
  ghost predicate Steps(before: Conn, buf: seq<byte>, did: Did, consumed: nat, after: Conn, need: nat)
    requires Inv(before) && before.attached && buf != []
  {
    match Parse(before, buf)
    case Need(n) =>
      && after == before && consumed == 0
      && (if OverBudget(before, n) then did == Raised(OverLimit(n, before.setup.max)) else did == Went && need == n)
    case Bad(e, _) => after == before && did == Raised(e)
    case Parsed(_, length) =>
      match Next(before, buf)
      case Done(d) => after == d && did == Went && consumed == length
      case Threw(d, e) => after == d && did == Raised(e)
  }

  /** `need` is the hint for the bytes held: what the unit begun with them asks for, or 1. */
  ghost predicate Hinted(c: Conn, held: seq<byte>, need: nat) {
    c.attached ==>
      if held == [] then need == 1 else Parse(c, held) == Need(need) && !OverBudget(c, need)
  }

  /** Either there are bytes enough to try a parse, or the hint says why not. */
  ghost predicate Ripe(c: Conn, held: seq<byte>, need: nat) {
    |held| < need ==> Hinted(c, held, need)
  }

  /** A hint outlasts every arrival that does not meet it. */
  lemma HintLasts(c: Conn, held: seq<byte>, chunk: seq<byte>, need: nat)
    requires c.attached && Hinted(c, held, need)
    ensures need > 0 && Ripe(c, held + chunk, need)
  {
    if held != [] {
      UnitExtends(c.phase, SizeOf(c), held, chunk);
    }
  }

  /** Nothing is missed by not parsing before the hint is met. */
  lemma NotYet(c: Conn, held: seq<byte>, need: nat)
    requires Inv(c) && c.attached && Hinted(c, held, need)
    ensures Read(c, held) == Link(c, held)
  {
  }

  /** One pass of the receive loop: what is left to read is what there was to read. */
  ghost predicate Reads(goal: Link, buf: seq<byte>, did: Did, consumed: nat, after: Conn, need: nat)
    requires Inv(after)
  {
    if did.Raised? then goal == Link(Fail(after, did.error), [])
    else if consumed == 0 then goal == Link(after, buf) && Hinted(after, buf, need)
    else consumed <= |buf| && after.attached && goal == Read(after, buf[consumed..])
  }

  /** One step is one unfolding of the stream's reading. */
  lemma StepReads(before: Conn, buf: seq<byte>, did: Did, consumed: nat, after: Conn, need: nat)
    requires Inv(before) && before.attached && buf != [] && Steps(before, buf, did, consumed, after, need)
    ensures Inv(after) && Reads(Read(before, buf), buf, did, consumed, after, need)
  {
    if Parse(before, buf).Parsed? {
      NextKeeps(before, buf);
    }
  }

  lemma {:induction false} KeyMessagesAppend(down: bool, a: seq<nat>, b: seq<nat>)
    requires Operations.Keysyms(a) && Operations.Keysyms(b)
    ensures Operations.KeyMessages(down, a + b) == Operations.KeyMessages(down, a) + Operations.KeyMessages(down, b)
  {
    if a == [] {
      assert a + b == b;
    } else {
      assert (a + b)[1..] == a[1..] + b;
      KeyMessagesAppend(down, a[1..], b);
    }
  }

  lemma KeyMessagesPush(down: bool, ks: seq<nat>, i: nat)
    requires Operations.Keysyms(ks) && i < |ks|
    ensures Operations.KeyMessages(down, ks[..i + 1])
            == Operations.KeyMessages(down, ks[..i]) + [Operations.KeyMessage(down, ks[i])]
  {
    assert ks[..i + 1] == ks[..i] + [ks[i]];
    KeyMessagesAppend(down, ks[..i], [ks[i]]);
    assert [ks[i]][1..] == [];
  }

  lemma PaintedFits(c: Conn, r: Rectangle)
    requires FrameReady(c, r) && FrameFits(c)
    ensures PaintOn(c, r).frame.Frame? && FrameFits(PaintOn(c, r)) && PaintOn(c, r).pendingRects == c.pendingRects
  {
    PaintSize(c.frame.screen, r);
  }

  /** Sending and holding keys leaves the reading of the stream alone. */
  lemma StillHinted(c: Conn, d: Conn, held: seq<byte>, need: nat)
    requires Inv(c) && Hinted(c, held, need) && d == c.(sent := d.sent, keys := d.keys)
    requires !d.attached ==> d.keys == []
    ensures Inv(d) && Hinted(d, held, need)
  {
  }

  lemma NewConnection(c: Conn, setup: Setup, open: bool)
    requires Inv(c) && !c.attached
    ensures Inv(Operations.Attached(c, setup, open)) && Hinted(Operations.Attached(c, setup, open), [], 1)
  {
  }

  lemma Shut(c: Conn)
    requires Inv(c) && Operations.Keysyms(c.keys)
    ensures var d := Operations.CloseSession(c); Inv(d) && !d.attached && d.keys == []
  {
  }

  datatype Socket = NoSocket | Socket(open: bool)

  class VncSession {
    const max: int
    var listening: bool
    var socket: Socket
    var password: seq<byte>
    /** The cipher keyed by the password. */
    var answer: seq<byte> -> seq<byte>
    var framebuffer: Framebuffer?
    var chunks: seq<seq<byte>>
    var buffered: nat
    var need: nat
    var phase: Phase
    var pendingRects: nat
    var painted: bool
    var settling: bool
    var held: seq<nat>
    var lastError: LastError
    var closeEmitted: bool
    var sent: seq<seq<byte>>
    var events: seq<Event>
    ghost var frame: FrameState
    ghost var Repr: set<object>
    ghost var taken: seq<Unit>

    /** `frame` is what the framebuffer shows, and `Repr` holds the objects it is made of. */
    ghost predicate FrameOk()
      reads this`framebuffer, this`frame, this`Repr, Repr
    {
      && this !in Repr
      && if framebuffer == null then frame == NoFrame
         else
           && framebuffer in Repr && framebuffer.buffer in Repr
           && framebuffer.Valid() && frame == Frame(framebuffer.View(), framebuffer.updateSeq)
    }

    ghost function SetupNow(): Setup
      reads this
    {
      Setup(max, listening, password != [], answer)
    }

    predicate Attached()
      reads this`socket
    {
      socket.Socket?
    }

    /** Whether the socket takes a send. */
    predicate Open()
      reads this`socket
    {
      socket.Socket? && socket.open
    }

    /** The connection this object is. */
    ghost function State(): Conn
      reads this
    {
      Conn(SetupNow(), Attached(), Open(), settling, closeEmitted, phase, frame, pendingRects, painted, held,
           sent, events, lastError, taken)
    }

    constructor (max: int, listening: bool)
      ensures Valid() && fresh(Repr)
      ensures !Attached() && Held() == [] && held == [] && framebuffer == null
      ensures State().setup.max == max && State().setup.listening == listening
      ensures State() == Unused(State().setup)
    {
      this.max, this.listening := max, listening;
      socket, password, framebuffer, answer := NoSocket, [], null, _ => [];
      chunks, buffered, need := [], 0, 1;
      phase, pendingRects, painted := Version, 0, false;
      settling, held, lastError, closeEmitted := false, [], NoError, false;
      sent, events, taken, frame, Repr := [], [], [], NoFrame, {};
    }

    method Send(data: seq<byte>) returns (did: Did)
      modifies this`sent
      ensures did == if Open() then Went else Raised(NotConnected)
      ensures sent == if Open() then old(sent) + [data] else old(sent)
    {
      if !Open() { return Raised(NotConnected); }
      sent := sent + [data];
      return Went;
    }

    method ChooseSecurity(types: seq<byte>) returns (did: Did)
      modifies this`sent, this`phase
      ensures Does(did, State(), Connections.ChooseSecurity(old(State()), types))
    {
      if SECURITY_VNC_AUTH in types && |password| > 0 {
        did := Send([SECURITY_VNC_AUTH]);
        if did.Raised? { return; }
        phase := Challenge;
      } else if SECURITY_NONE in types {
        did := Send([SECURITY_NONE]);
        if did.Raised? { return; }
        phase := SecurityResult;
      } else if SECURITY_VNC_AUTH in types {
        did := Raised(NoPassword);
      } else {
        did := Raised(NoUsableSecurity(types));
      }
    }

    method Emit(e: Event)
      modifies this`events
      ensures State() == Connections.Emit(old(State()), e)
    {
      events := events + [e];
    }

    method RequestIncremental()
      requires FrameOk() && FrameFits(State())
      modifies this`sent
      ensures State() == Connections.RequestIncremental(old(State()))
    {
      if framebuffer != null && Open() {
        var request := C.BuildFbUpdateRequest(true, 0, 0, framebuffer.width, framebuffer.height);
        sent := sent + [request[..]];
      }
    }

    method Settle(width: nat, height: nat)
      modifies this`settling, this`events
      ensures State() == Connections.Settle(old(State()), width, height)
    {
      var waiting := settling;
      settling := false;
      if waiting { Emit(Connected(width, height)); }
    }

    static method CheckScreenSize(width: nat, height: nat) returns (did: Did)
      ensures did == if TooLarge(width, height) then Raised(ScreenTooLarge(width, height)) else Went
    {
      SpanIs(height, width);
      did := if height * width > MAX_SCREEN_PIXELS then Raised(ScreenTooLarge(width, height)) else Went;
    }

    /** The three messages that follow ServerInit. */
    method Greet(width: nat, height: nat) returns (did: Did)
      requires width < 0x1_0000 && height < 0x1_0000
      modifies this`sent
      ensures did == if Open() then Went else Raised(NotConnected)
      ensures sent == if Open()
                      then old(sent) + Greeting(width, height)
                      else old(sent)
    {
      var format := C.BuildSetPixelFormat();
      did := Send(format[..]);
      if did.Raised? { return; }
      var encodings := C.BuildSetEncodings(ENCODINGS);
      did := Send(encodings[..]);
      if did.Raised? { return; }
      var request := C.BuildFbUpdateRequest(false, 0, 0, width, height);
      did := Send(request[..]);
    }

    method Begin(width: nat, height: nat) returns (did: Did)
      requires width < 0x1_0000 && height < 0x1_0000
      modifies this`sent, this`phase, this`settling, this`events
      ensures Does(did, State(), Connections.Begin(old(State()), width, height))
    {
      did := Greet(width, height);
      if did.Raised? { return; }
      phase := Message;
      Settle(width, height);
    }

    method NewFrame(width: nat, height: nat)
      requires FrameOk()
      modifies this`framebuffer, this`frame, this`Repr
      ensures FrameOk() && fresh(Repr - old(Repr)) && frame == Frame(Blank(width, height), 0)
    {
      framebuffer := new Framebuffer(width, height);
      Look();
    }

    /** A blank frame, and the messages that start the session on it. */
    method ShowBlank(width: nat, height: nat) returns (did: Did)
      requires FrameOk() && width < 0x1_0000 && height < 0x1_0000
      modifies this`framebuffer, this`frame, this`Repr, this`sent, this`phase, this`settling, this`events
      ensures FrameOk() && fresh(Repr - old(Repr))
      ensures var c := old(State()).(frame := Frame(Blank(width, height), 0));
              Does(did, State(), Connections.Begin(c, width, height))
    {
      NewFrame(width, height);
      did := Begin(width, height);
    }

    method StartSession(width: nat, height: nat) returns (did: Did)
      requires FrameOk() && width < 0x1_0000 && height < 0x1_0000
      modifies this`framebuffer, this`frame, this`Repr, this`sent, this`phase, this`settling, this`events
      ensures FrameOk() && fresh(Repr - old(Repr))
      ensures Does(did, State(), Connections.StartSession(old(State()), width, height))
    {
      did := CheckScreenSize(width, height);
      if did.Raised? { return; }
      did := ShowBlank(width, height);
    }

    method HandleMessage(m: ServerMessage)
      requires FrameOk() && FrameFits(State())
      modifies this`pendingRects, this`painted, this`phase, this`sent, this`events
      ensures State() == Connections.HandleMessage(old(State()), m)
    {
      match m
      case UpdateHeader(rectCount) =>
        pendingRects := rectCount;
        painted := false;
        if rectCount == 0 { RequestIncremental(); } else { phase := Rectangles; }
      case Bell => Emit(Rang);
      case CutText(text) => Emit(Clipboard(text));
      case ColourMap =>
    }

    /** Notes what the framebuffer shows. */
    ghost method Look()
      requires framebuffer != null && framebuffer.Valid() && this !in Repr
      modifies this`frame, this`Repr
      ensures FrameOk() && frame == old(Frame(framebuffer.View(), framebuffer.updateSeq))
      ensures Repr == old(Repr) + {framebuffer, framebuffer.buffer}
    {
      frame := Frame(framebuffer.View(), framebuffer.updateSeq);
      Repr := Repr + {framebuffer, framebuffer.buffer};
    }

    /** Paints pixels: the frame is the old one with `rect` on it, and nothing else changes. */
    method PaintPixels(rect: Rectangle)
      requires FrameOk() && FrameReady(State(), rect) && !rect.Resize?
      modifies this`frame, this`Repr, Repr
      ensures FrameOk() && Repr == old(Repr)
      ensures frame == Frame(Paint(old(frame).screen, rect), old(frame).seqNo + 1)
    {
      var fb: Framebuffer := framebuffer;
      if rect.Raw? {
        fb.ApplyRaw(rect.x, rect.y, rect.w, rect.h, rect.data);
      } else {
        fb.ApplyCopyRect(rect.x, rect.y, rect.w, rect.h, rect.srcX, rect.srcY);
      }
      assert rect == if rect.Raw? then Raw(rect.x, rect.y, rect.w, rect.h, rect.data)
                     else Copy(rect.x, rect.y, rect.w, rect.h, rect.srcX, rect.srcY);
      Look();
    }

    /** A blank frame of the screen's new size. */
    method ResizeFrame(width: nat, height: nat)
      requires FrameOk() && framebuffer != null
      modifies this`frame, this`Repr, Repr
      ensures FrameOk() && fresh(Repr - old(Repr)) && framebuffer == old(framebuffer)
      ensures frame == Frame(Paint(old(frame).screen, Rectangle.Resize(width, height)), old(frame).seqNo + 1)
    {
      framebuffer.Resize(width, height);
      Look();
    }

    method ApplyPixels(rect: Rectangle)
      requires FrameOk() && FrameReady(State(), rect) && !rect.Resize?
      modifies this`painted, this`frame, this`Repr, Repr
      ensures FrameOk() && Repr == old(Repr) && State() == PaintOn(old(State()), rect)
    {
      PaintPixels(rect);
      NotePaint();
    }

    method NotePaint()
      modifies this`painted
      ensures State() == old(State()).(painted := true)
    {
      painted := true;
    }

    method ShowSize(width: nat, height: nat)
      requires FrameOk() && FrameReady(State(), Rectangle.Resize(width, height))
      modifies this`painted, this`events, this`frame, this`Repr, Repr
      ensures FrameOk() && fresh(Repr - old(Repr))
      ensures State() == PaintOn(old(State()), Rectangle.Resize(width, height))
    {
      ResizeFrame(width, height);
      NoteSize(width, height);
    }

    method NoteSize(width: nat, height: nat)
      modifies this`painted, this`events
      ensures State() == Connections.Emit(old(State()).(painted := true), Resized(width, height))
    {
      painted := true;
      Emit(Resized(width, height));
    }

    method ApplySize(width: nat, height: nat) returns (did: Did)
      requires FrameOk() && FrameReady(State(), Rectangle.Resize(width, height))
      modifies this`painted, this`events, this`frame, this`Repr, Repr
      ensures FrameOk() && fresh(Repr - old(Repr))
      ensures if TooLarge(width, height)
              then did == Raised(ScreenTooLarge(width, height)) && State() == old(State())
              else did == Went && State() == PaintOn(old(State()), Rectangle.Resize(width, height))
    {
      did := CheckScreenSize(width, height);
      if did.Raised? { return; }
      ShowSize(width, height);
    }

    /** Paints one rectangle on the frame. */
    method Apply(rect: Rectangle) returns (did: Did)
      requires FrameOk() && FrameReady(State(), rect)
      modifies this`painted, this`events, this`frame, this`Repr, Repr
      ensures FrameOk() && fresh(Repr - old(Repr))
      ensures if rect.Resize? && TooLarge(rect.width, rect.height)
              then did == Raised(ScreenTooLarge(rect.width, rect.height)) && State() == old(State())
              else did == Went && State() == PaintOn(old(State()), rect)
    {
      if rect.Resize? {
        did := ApplySize(rect.width, rect.height);
      } else {
        ApplyPixels(rect);
        did := Went;
      }
    }

    /** Counts a painted rectangle off; the last of an update asks for the next frame. */
    method CountOff()
      requires FrameOk() && State().frame.Frame? && FrameFits(State()) && pendingRects > 0
      modifies this`pendingRects, this`phase, this`sent, this`events
      ensures State() == FinishRectangle(old(State()))
    {
      pendingRects := pendingRects - 1;
      if pendingRects == 0 { FinishUpdate(); }
    }

    method FinishUpdate()
      requires FrameOk() && State().frame.Frame? && FrameFits(State())
      modifies this`phase, this`sent, this`events
      ensures var d := Connections.RequestIncremental(old(State()).(phase := Message));
              State() == if painted then Connections.Emit(d, Updated(d.frame.seqNo)) else d
    {
      phase := Message;
      RequestIncremental();
      if painted { Emit(Updated(framebuffer.updateSeq)); }
    }

    method HandleRectangle(rect: Rectangle) returns (did: Did)
      requires FrameOk() && FrameReady(State(), rect) && FrameFits(State()) && pendingRects > 0
      modifies this`painted, this`events, this`frame, this`Repr, this`pendingRects, this`phase, this`sent, Repr
      ensures FrameOk() && fresh(Repr - old(Repr))
      ensures Does(did, State(), Connections.HandleRectangle(old(State()), rect))
    {
      PaintedFits(State(), rect);
      did := Apply(rect);
      if did.Raised? { return; }
      CountOff();
    }

    // --- Reading a unit ---

    /** A parse result, or a wait for the bytes it asks for, unless they are too many. */
    method Take<T>(result: ParseResult<T>) returns (t: Taken<T>)
      modifies this`need
      ensures match result
              case Parsed(value, length) => t == Complete(value, length)
              case Bad(error, _) => t == Thrown(error)
              case Need(n) => if n > max then t == Thrown(OverLimit(n, max)) else t == Waiting && need == n
    {
      match result
      case Parsed(value, length) => t := Complete(value, length);
      case Bad(error, _) => t := Thrown(error);
      case Need(n) =>
        if n > max { return Thrown(OverLimit(n, max)); }
        need := n;
        t := Waiting;
    }

    /** The unit at the front of `buf`, by the parser of the phase. A challenge is waited for whatever the limit. */
    method NextUnit(buf: seq<byte>) returns (t: Taken<Unit>)
      requires FrameOk()
      modifies this`need
      ensures State() == old(State())
      ensures match Parse(State(), buf)
              case Parsed(u, length) => t == Complete(u, length)
              case Bad(error, _) => t == Thrown(error)
              case Need(n) =>
                if OverBudget(State(), n) then t == Thrown(OverLimit(n, max)) else t == Waiting && need == n
    {
      var size := if framebuffer == null then NoSize else Size(framebuffer.width, framebuffer.height);
      var result := ParseUnit(phase, size, buf);
      if phase.Challenge? && result.Need? {
        need := result.bytes;
        t := Waiting;
      } else {
        t := Take(result);
      }
    }

    /** Sends one handshake message and goes on to the next phase. */
    method Answers(data: seq<byte>, next: Phase) returns (did: Did)
      modifies this`sent, this`phase
      ensures Does(did, State(), Then(Connections.Send(old(State()), data), next))
    {
      did := Send(data);
      if did.Raised? { return; }
      phase := next;
    }

    method ActInHandshake(u: Unit) returns (did: Did)
      requires FrameOk() && Inv(State()) && Ready(State(), u)
      requires u.VersionUnit? || u.TypesUnit? || u.ChallengeUnit? || u.ResultUnit?
      modifies this`sent, this`phase
      ensures Does(did, State(), Act(old(State()), u))
    {
      match u
      case VersionUnit => did := Answers(CLIENT_VERSION, SecurityTypes);
      case TypesUnit(types) => did := ChooseSecurity(types);
      case ChallengeUnit(challenge) =>
        did := Answers(answer(challenge), SecurityResult);
      case ResultUnit => did := Answers([1], Init);
    }

    method ActInSession(u: Unit) returns (did: Did)
      requires FrameOk() && Inv(State()) && Ready(State(), u)
      requires u.InitUnit? || u.MessageUnit? || u.RectangleUnit?
      modifies this`framebuffer, this`frame, this`Repr, this`sent, this`phase, this`settling, this`events,
               this`pendingRects, this`painted, Repr
      ensures FrameOk() && fresh(Repr - old(Repr))
      ensures Does(did, State(), Act(old(State()), u))
    {
      match u
      case InitUnit(width, height) => did := StartSession(width, height);
      case MessageUnit(m) =>
        HandleMessage(m);
        did := Went;
      case RectangleUnit(rect) => did := HandleRectangle(rect);
    }

    /** Acts on one unit. */
    method ActOn(u: Unit) returns (did: Did)
      requires FrameOk() && Inv(State()) && Ready(State(), u)
      modifies this`framebuffer, this`frame, this`Repr, this`sent, this`phase, this`settling, this`events,
               this`pendingRects, this`painted, Repr
      ensures FrameOk() && fresh(Repr - old(Repr))
      ensures Does(did, State(), Act(old(State()), u))
    {
      if u.InitUnit? || u.MessageUnit? || u.RectangleUnit? {
        did := ActInSession(u);
      } else {
        did := ActInHandshake(u);
      }
    }

    ghost method Note(u: Unit)
      modifies this`taken
      ensures State() == Log(old(State()), u)
    {
      taken := taken + [u];
    }

    /** Reads one protocol unit from the front of `buf`. */
    method Step(buf: seq<byte>) returns (did: Did, consumed: nat)
      requires FrameOk() && Inv(State()) && Attached() && buf != []
      modifies this`need, this`framebuffer, this`frame, this`Repr, this`sent, this`phase, this`settling, this`events,
               this`taken, this`pendingRects, this`painted, Repr
      ensures FrameOk() && fresh(Repr - old(Repr))
      ensures Steps(old(State()), buf, did, consumed, State(), need)
    {
      did, consumed := Went, 0;
      var t := NextUnit(buf);
      match t
      case Thrown(e) => did := Raised(e);
      case Waiting =>
      case Complete(u, length) =>
        ParsedReady(State(), buf);
        did := ActOn(u);
        if did.Raised? { return; }
        Note(u);
        consumed := length;
    }

    // --- Ending the connection ---

    method ResetReceiver()
      modifies this`chunks, this`buffered, this`need, this`pendingRects, this`painted
      ensures chunks == [] && buffered == 0 && need == 1
      ensures State() == old(State()).(pendingRects := 0, painted := false)
    {
      DropBytes();
      pendingRects, painted := 0, false;
    }

    method DropBytes()
      modifies this`chunks, this`buffered, this`need
      ensures chunks == [] && buffered == 0 && need == 1
    {
      chunks, buffered, need := [], 0, 1;
    }

    method DropSocket()
      modifies this`settling, this`socket, this`phase
      ensures State() == old(State()).(attached := false, open := false, settling := false, phase := Version)
    {
      settling := false;
      socket := NoSocket;
      phase := Version;
    }

    method Detach()
      modifies this`settling, this`socket, this`phase, this`held, this`chunks, this`buffered, this`need,
               this`pendingRects, this`painted
      ensures State() == Detached(old(State()))
      ensures chunks == [] && buffered == 0 && need == 1
    {
      DropSocket();
      ResetReceiver();
      held := [];
    }

    method AnnounceClose()
      modifies this`closeEmitted, this`events
      ensures State() == CloseOnce(old(State()))
    {
      if !closeEmitted {
        closeEmitted := true;
        events := events + [Closed];
      }
    }

    method Teardown()
      modifies this`settling, this`socket, this`phase, this`held, this`closeEmitted, this`events,
               this`chunks, this`buffered, this`need, this`pendingRects, this`painted
      ensures State() == Streams.Teardown(old(State()))
      ensures chunks == [] && buffered == 0 && need == 1
    {
      var waiting := settling;
      Detach();
      AnnounceClose();
      if waiting { Emit(Rejected(ClosedEarly)); }
    }

    /** Puts the handshake's promise aside while a failing connection is torn down. */
    method SetAside(error: Error)
      modifies this`lastError, this`settling
      ensures State() == old(State()).(lastError := LastError(error), settling := false)
    {
      lastError := LastError(error);
      settling := false;
    }

    method Fail(error: Error)
      modifies this`settling, this`socket, this`phase, this`held, this`closeEmitted, this`events,
               this`chunks, this`buffered, this`need, this`pendingRects, this`painted, this`lastError
      ensures State() == Streams.Fail(old(State()), error)
      ensures chunks == [] && buffered == 0 && need == 1
    {
      var waiting := settling;
      SetAside(error);
      Teardown();
      if waiting {
        Emit(Rejected(error));
      } else if listening {
        Emit(Failed(error));
      }
    }

    // --- Receiving ---

    ghost function Held(): seq<byte>
      reads this
    {
      Concat(chunks)
    }

    ghost predicate Valid()
      reads this, Repr
    {
      && FrameOk() && Inv(State())
      && Operations.Keysyms(held)
      && buffered == |Held()|
      && Hinted(State(), Held(), need)
    }

    /** The link this session is: the connection and the bytes held for it. */
    ghost function Abs(): (l: Link)
      requires Valid()
      reads this, Repr
      ensures Inv(l.conn)
    {
      Link(State(), Held())
    }

    /** One buffer of all the bytes held. */
    method Joined() returns (buf: seq<byte>)
      ensures buf == Held()
    {
      if |chunks| == 1 {
        assert chunks == [chunks[0]];
        ConcatSingle(chunks[0]);
        buf := chunks[0];
      } else {
        buf := Concat(chunks);
      }
    }

    /** Holds on to `rest`. */
    method Keep(rest: seq<byte>)
      modifies this`chunks, this`buffered
      ensures Held() == rest && buffered == |rest|
    {
      chunks := if |rest| > 0 then [rest] else [];
      buffered := |rest|;
      ConcatSingle(rest);
    }

    /** Ends the connection on what a parse threw. */
    method Abandon(error: Error)
      requires FrameOk() && Inv(State())
      modifies this`settling, this`socket, this`phase, this`held, this`closeEmitted, this`events,
               this`chunks, this`buffered, this`need, this`pendingRects, this`painted, this`lastError
      ensures Valid() && !Attached() && Abs() == Link(Streams.Fail(old(State()), error), [])
    {
      FailKeeps(State(), error);
      Fail(error);
    }

    /** Waits for more: everything held stays held. */
    method Wait(buf: seq<byte>)
      requires FrameOk() && Inv(State()) && Operations.Keysyms(held) && Hinted(State(), buf, need)
      modifies this`chunks, this`buffered
      ensures Valid() && Abs() == Link(State(), buf)
    {
      Keep(buf);
    }

    method GoOn(rest: seq<byte>)
      modifies this`chunks, this`buffered, this`need
      ensures Held() == rest && buffered == |rest| && need == 1
    {
      Keep(rest);
      need := 1;
    }

    method StepOn(buf: seq<byte>, ghost goal: Link) returns (did: Did, consumed: nat)
      requires FrameOk() && Inv(State()) && Attached() && buf != [] && goal == Read(State(), buf)
      modifies this`need, this`framebuffer, this`frame, this`Repr, this`sent, this`phase, this`settling, this`events,
               this`taken, this`pendingRects, this`painted, Repr
      ensures FrameOk() && fresh(Repr - old(Repr)) && Inv(State())
      ensures Reads(goal, buf, did, consumed, State(), need)
    {
      ghost var before := State();
      did, consumed := Step(buf);
      StepReads(before, buf, did, consumed, State(), need);
    }

    /** What is left to do once a unit has been tried. Returns whether one was consumed. */
    method AfterStep(buf: seq<byte>, did: Did, consumed: nat, ghost goal: Link) returns (more: bool)
      requires FrameOk() && Inv(State()) && Operations.Keysyms(held)
      requires Reads(goal, buf, did, consumed, State(), need)
      modifies this`settling, this`socket, this`phase, this`held, this`closeEmitted, this`events,
               this`chunks, this`buffered, this`need, this`pendingRects, this`painted, this`lastError
      ensures if more
              then Pending(goal) && need == 1 && buffered < |buf|
              else Valid() && goal == Abs()
    {
      more := did.Went? && consumed != 0;
      if did.Raised? {
        Abandon(did.error);
      } else if consumed == 0 {
        Wait(buf);
      } else {
        GoOn(buf[consumed..]);
      }
    }

    /** The session is still connected, and reading on from here comes to `goal`. */
    ghost predicate Pending(goal: Link)
      reads this, Repr
    {
      && FrameOk() && Inv(State()) && Operations.Keysyms(held) && Attached()
      && buffered == |Held()| && goal == Read(State(), Held())
    }

    /** One parse of all the bytes held. */
    method TryOne(ghost goal: Link) returns (buf: seq<byte>, did: Did, consumed: nat)
      requires Pending(goal) && buffered > 0
      modifies this`need, this`framebuffer, this`frame, this`Repr, this`sent, this`phase, this`settling, this`events,
               this`taken, this`pendingRects, this`painted, Repr
      ensures FrameOk() && fresh(Repr - old(Repr)) && Inv(State()) && |buf| == old(buffered)
      ensures Reads(goal, buf, did, consumed, State(), need)
    {
      buf := Joined();
      did, consumed := StepOn(buf, goal);
    }

    /** Tries one parse. Returns whether it consumed a unit. */
    method ReceiveOne(ghost goal: Link) returns (more: bool)
      requires Pending(goal) && buffered >= need > 0
      modifies this, Repr
      ensures fresh(Repr - old(Repr))
      ensures if more then Pending(goal) && need == 1 && buffered < old(buffered) else Valid() && goal == Abs()
    {
      var buf, did, consumed := TryOne(goal);
      more := AfterStep(buf, did, consumed, goal);
    }

    /** The receive loop: parses as long as the hint is met and a unit was consumed. */
    method ReadAll(ghost goal: Link)
      requires Pending(goal) && need > 0 && Ripe(State(), Held(), need)
      modifies this, Repr
      ensures Valid() && fresh(Repr - old(Repr)) && Abs() == goal
    {
      var more := true;
      while more && buffered >= need
        invariant fresh(Repr - old(Repr))
        invariant more ==> Pending(goal) && need > 0 && Ripe(State(), Held(), need)
        invariant !more ==> Valid() && goal == Abs()
        decreases more, buffered
      {
        more := ReceiveOne(goal);
      }
      if more { NotYet(State(), Held(), need); }
    }

    /** Holds one more chunk. */
    method Push(chunk: seq<byte>)
      modifies this`chunks, this`buffered
      ensures Held() == old(Held()) + chunk && buffered == old(buffered) + |chunk|
    {
      ConcatPush(chunks, chunk);
      chunks := chunks + [chunk];
      buffered := buffered + |chunk|;
    }

    /** Takes one more chunk into what is to be read. */
    method Admit(chunk: seq<byte>, ghost goal: Link)
      requires Valid() && Attached() && goal == Read(State(), Held() + chunk)
      modifies this`chunks, this`buffered
      ensures Pending(goal) && need > 0 && Ripe(State(), Held(), need)
    {
      HintLasts(State(), Held(), chunk, need);
      Push(chunk);
    }

    method Receive(chunk: seq<byte>)
      requires Valid()
      modifies this, Repr
      ensures Valid() && fresh(Repr - old(Repr))
      ensures Abs() == Deliver(old(Abs()), chunk)
    {
      if !Attached() {
        Push(chunk);
      } else {
        ghost var goal := Deliver(Abs(), chunk);
        Admit(chunk, goal);
        ReadAll(goal);
      }
    }

    // --- Keyboard ---

    method SendKeyEvent(down: bool, keysym: nat) returns (did: Did)
      requires keysym < 0x1_0000_0000
      modifies this`sent
      ensures Does(did, State(), Connections.Send(old(State()), Operations.KeyMessage(down, keysym)))
    {
      var message := C.BuildKeyEvent(down, keysym);
      did := Send(message[..]);
    }

    /** Remembers the key once the guest has been told. */
    method HoldKey(key: string) returns (did: Did)
      requires Operations.Keysyms(held)
      modifies this`sent, this`held
      ensures Operations.Keysyms(held) && Does(did, State(), Operations.HoldKey(old(State()), key))
    {
      var r := CharToKeysym(key);
      if r.UnknownKey? { return Raised(NoSuchKey(key)); }
      did := SendKeyEvent(true, r.value);
      if did.Raised? { return; }
      held := Operations.Hold(held, r.value);
    }

    method KeyDown(key: string) returns (did: Did)
      requires Valid()
      modifies this`sent, this`held
      ensures Valid() && Does(did, State(), Operations.HoldKey(old(State()), key))
    {
      ghost var before := State();
      did := HoldKey(key);
      StillHinted(before, State(), Held(), need);
    }

    /** Forgets the key once the guest has been told. */
    method LetGo(key: string) returns (did: Did)
      requires Operations.Keysyms(held)
      modifies this`sent, this`held
      ensures Operations.Keysyms(held) && Does(did, State(), Operations.LetGo(old(State()), key))
    {
      var r := CharToKeysym(key);
      if r.UnknownKey? { return Raised(NoSuchKey(key)); }
      did := SendKeyEvent(false, r.value);
      if did.Raised? { return; }
      Operations.ForgetKeysyms(held, r.value);
      held := Operations.Forget(held, r.value);
    }

    method KeyUp(key: string) returns (did: Did)
      requires Valid()
      modifies this`sent, this`held
      ensures Valid() && Does(did, State(), Operations.LetGo(old(State()), key))
    {
      ghost var before := State();
      did := LetGo(key);
      StillHinted(before, State(), Held(), need);
    }

    /** Sends one event per key, in order. */
    method SendKeys(down: bool, ks: seq<nat>) returns (did: Did)
      requires Operations.Keysyms(ks)
      modifies this`sent
      ensures Does(did, State(), Operations.SendAll(old(State()), Operations.KeyMessages(down, ks)))
    {
      var i := 0;
      while i < |ks|
        invariant 0 <= i <= |ks|
        invariant i > 0 ==> Open()
        invariant sent == old(sent) + Operations.KeyMessages(down, ks[..i])
      {
        did := SendKeyEvent(down, ks[i]);
        if did.Raised? { return; }
        KeyMessagesPush(down, ks, i);
        i := i + 1;
      }
      assert ks[..i] == ks;
      did := Went;
    }

    /** Every key down in the order written, and up again in reverse. */
    method Tap(ks: seq<nat>) returns (did: Did)
      requires Operations.Keysyms(ks)
      modifies this`sent
      ensures Does(did, State(), Operations.SendAll(old(State()), Operations.Tap(ks)))
    {
      did := SendKeys(true, ks);
      if did.Raised? { return; }
      did := SendKeys(false, Operations.Reversed(ks));
    }

    method PressCombo(combo: seq<string>) returns (did: Did)
      modifies this`sent
      ensures Does(did, State(), Operations.PressCombo(old(State()), combo))
    {
      var r := Operations.KeysymsOf(combo);
      if r.BadKey? { return Raised(NoSuchKey(r.key)); }
      did := Tap(r.keysyms);
    }

    method Press(combo: seq<string>) returns (did: Did)
      requires Valid()
      modifies this`sent
      ensures Valid() && Does(did, State(), Operations.PressCombo(old(State()), combo))
    {
      ghost var before := State();
      did := PressCombo(combo);
      StillHinted(before, State(), Held(), need);
    }

    method TypeOne(ch: char) returns (did: Did)
      modifies this`sent
      ensures Does(did, State(), Operations.TypeOne(old(State()), ch))
    {
      if Skipped(ch) { return Went; }
      var r := CharToKeysym(TypedName(ch));
      if r.UnknownKey? { return Raised(NoSuchKey(TypedName(ch))); }
      did := Tap(Operations.KeysOfChar(ch, r.value));
    }

    /** Types one character, inside a shift press if it needs one. */
    method TypeChar(ch: char) returns (did: Did)
      requires Valid()
      modifies this`sent
      ensures Valid() && Does(did, State(), Operations.TypeOne(old(State()), ch))
    {
      ghost var before := State();
      did := TypeOne(ch);
      assert State() == before.(sent := sent);
      StillHinted(before, State(), Held(), need);
    }

    /** Key-up for every key held, as long as the socket takes it. */
    method ReleaseKeys()
      requires Operations.Keysyms(held)
      modifies this`sent, this`held
      ensures State() == Operations.ReleaseKeys(old(State()))
    {
      if Open() {
        var _ := SendKeys(false, held);
      }
      held := [];
    }

    method Close()
      requires Valid()
      modifies this`settling, this`socket, this`phase, this`held, this`closeEmitted, this`events, this`sent,
               this`chunks, this`buffered, this`need, this`pendingRects, this`painted
      ensures Valid() && Abs() == Link(Operations.CloseSession(old(State())), [])
    {
      Shut(State());
      ReleaseKeys();
      Teardown();
    }

    // --- Pointer, clipboard and repaint ---

    method PointTo(mask: byte, x: int, y: int) returns (did: Did)
      requires FrameOk() && FrameFits(State())
      modifies this`sent
      ensures Does(did, State(), Operations.PointTo(old(State()), mask, x, y))
    {
      if framebuffer == null { return Raised(NoFramebuffer); }
      if x < 0 || y < 0 || x >= framebuffer.width || y >= framebuffer.height { return Raised(OutsideFrame(x, y)); }
      var message := C.BuildPointerEvent(mask, x, y);
      did := Send(message[..]);
    }

    method SendPointerEvent(mask: byte, x: int, y: int) returns (did: Did)
      requires Valid()
      modifies this`sent
      ensures Valid() && Does(did, State(), Operations.PointTo(old(State()), mask, x, y))
    {
      ghost var before := State();
      did := PointTo(mask, x, y);
      StillHinted(before, State(), Held(), need);
    }

    method PasteText(text: Operations.ClipText) returns (did: Did)
      modifies this`sent
      ensures Does(did, State(), Operations.PasteText(old(State()), text))
    {
      var message := C.BuildClientCutText(text);
      did := Send(message[..]);
    }

    method SendClipboard(text: Operations.ClipText) returns (did: Did)
      requires Valid()
      modifies this`sent
      ensures Valid() && Does(did, State(), Operations.PasteText(old(State()), text))
    {
      ghost var before := State();
      did := PasteText(text);
      StillHinted(before, State(), Held(), need);
    }

    method Repaint() returns (did: Did)
      requires FrameOk() && FrameFits(State())
      modifies this`sent
      ensures Does(did, State(), Operations.Repaint(old(State())))
    {
      if framebuffer == null { return Raised(NoFramebuffer); }
      var message := C.BuildFbUpdateRequest(false, 0, 0, framebuffer.width, framebuffer.height);
      did := Send(message[..]);
    }

    /** Asks for a full repaint; the paint counter at that moment comes back. */
    method RequestUpdate() returns (did: Did, seqNo: nat)
      requires Valid()
      modifies this`sent
      ensures Valid() && Does(did, State(), Operations.Repaint(old(State())))
      ensures did.Went? ==> State().frame.Frame? && seqNo == State().frame.seqNo
    {
      ghost var before := State();
      seqNo := 0;
      did := Repaint();
      if framebuffer != null { seqNo := framebuffer.updateSeq; }
      StillHinted(before, State(), Held(), need);
    }

    // --- The socket's handlers ---

    method TakeSocket(open: bool, password: seq<byte>, answer: seq<byte> -> seq<byte>)
      modifies this`socket, this`password, this`answer
      ensures State() == old(State()).(setup := Setup(max, listening, password != [], answer),
                                       attached := true, open := open)
    {
      socket := Socket(open);
      this.password := password;
      this.answer := answer;
    }

    method AwaitHandshake()
      modifies this`phase, this`closeEmitted, this`lastError, this`settling
      ensures State() == old(State()).(phase := Version, closeEmitted := false, lastError := NoError, settling := true)
    {
      phase := Version;
      closeEmitted := false;
      lastError := NoError;
      settling := true;
    }

    /** The logs are of one connection. */
    method StartLogs()
      modifies this`sent, this`events, this`taken
      ensures State() == old(State()).(sent := [], events := [], taken := [])
    {
      sent := [];
      events := [];
      taken := [];
    }

    method StartOver(open: bool, password: seq<byte>, answer: seq<byte> -> seq<byte>)
      requires !Attached()
      modifies this`socket, this`password, this`answer, this`phase, this`closeEmitted, this`lastError, this`settling,
               this`sent, this`events, this`taken, this`chunks, this`buffered, this`need, this`pendingRects,
               this`painted
      ensures State() == Operations.Attached(old(State()), Setup(max, listening, password != [], answer), open)
      ensures chunks == [] && buffered == 0 && need == 1
    {
      TakeSocket(open, password, answer);
      ResetReceiver();
      AwaitHandshake();
      StartLogs();
    }

    /** Runs the handshake over a socket the caller opened. */
    method Attach(open: bool, password: seq<byte>, answer: seq<byte> -> seq<byte>) returns (did: Did)
      requires Valid()
      modifies this`socket, this`password, this`answer, this`phase, this`closeEmitted, this`lastError, this`settling,
               this`sent, this`events, this`taken, this`chunks, this`buffered, this`need, this`pendingRects,
               this`painted
      ensures Valid()
      ensures if old(Attached()) then did == Raised(AlreadyAttached) && Abs() == old(Abs())
              else
                var setup := Setup(max, listening, password != [], answer);
                did == Went && Abs() == Link(Operations.Attached(old(State()), setup, open), [])
    {
      if Attached() { return Raised(AlreadyAttached); }
      NewConnection(State(), Setup(max, listening, password != [], answer), open);
      StartOver(open, password, answer);
      did := Went;
    }

    method OnClose()
      requires Valid()
      modifies this`settling, this`socket, this`phase, this`held, this`closeEmitted, this`events,
               this`chunks, this`buffered, this`need, this`pendingRects, this`painted, this`lastError
      ensures Valid() && Abs() == Link(Operations.PeerGone(old(State())), [])
    {
      if settling {
        Abandon(ClosedEarly);
      } else {
        Teardown();
      }
    }

    method OnTimeout()
      requires Valid()
      modifies this`settling, this`socket, this`phase, this`held, this`closeEmitted, this`events,
               this`chunks, this`buffered, this`need, this`pendingRects, this`painted, this`lastError
      ensures Valid()
      ensures Abs() == if old(settling) then Link(Streams.Fail(old(State()), HandshakeTimedOut), []) else old(Abs())
    {
      if settling { Abandon(HandshakeTimedOut); }
    }
  }
}
