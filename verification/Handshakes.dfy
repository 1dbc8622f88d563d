/**
 * The order of the handshake: what a session has sent against what it has
 * read, from the version strings to the first update request (RFC 6143
 * sections 7.1 to 7.3), and what the user sends in between.
 */
module Handshakes {
  import opened Options
  import opened Bytes
  import opened Screens
  import opened Rfb
  import opened Connections
  import opened Streams
  import opened Operations
  import opened Histories
  import opened Keys
  import opened Runs

  /** What the server decides: the security types on offer, and a challenge if authentication was chosen. */
  datatype Handshake = Handshake(types: seq<byte>, challenge: Option<seq<byte>>)

  /** The units of the security phase, in order. */
  function UnitsOf(h: Handshake): seq<Unit> {
    [VersionUnit, TypesUnit(h.types)] + if h.challenge.Some? then [ChallengeUnit(h.challenge.value)] else []
  }

  /** The messages that answer them. */
  function RepliesTo(h: Handshake, setup: Setup): seq<seq<byte>> {
    [CLIENT_VERSION]
    + if h.challenge.Some? then [[SECURITY_VNC_AUTH], setup.answer(h.challenge.value)] else [[SECURITY_NONE]]
  }

  /** Authentication is chosen whenever it is offered and there is a password; else no security must be offered. */
  predicate Chosen(h: Handshake, setup: Setup) {
    if h.challenge.Some? then SECURITY_VNC_AUTH in h.types && setup.hasPassword
    else SECURITY_NONE in h.types && !(SECURITY_VNC_AUTH in h.types && setup.hasPassword)
  }

  /** The handshake a history of units begins with. */
  function HandshakeOf(taken: seq<Unit>): Handshake {
    Handshake(if |taken| > 1 && taken[1].TypesUnit? then taken[1].types else [],
              if |taken| > 2 && taken[2].ChallengeUnit? then Some(taken[2].challenge) else None)
  }

  /** In session the whole handshake has been read and answered, the screen's size last. */
  predicate Opened(c: Conn) {
    var h := HandshakeOf(c.taken);
    var units := UnitsOf(h) + [ResultUnit];
    && Chosen(h, c.setup)
    && |c.taken| > |units| && units <= c.taken && c.taken[|units|].InitUnit?
    && c.taken[|units|].width < 0x1_0000 && c.taken[|units|].height < 0x1_0000
    && RepliesTo(h, c.setup) + [[1]] + Greeting(c.taken[|units|].width, c.taken[|units|].height) <= c.sent
  }

  predicate Transcript(c: Conn) {
    var h := HandshakeOf(c.taken);
    match c.phase
    case Version => c.taken == [] && c.sent == []
    case SecurityTypes => c.taken == [VersionUnit] && c.sent == [CLIENT_VERSION]
    case Challenge =>
      && SECURITY_VNC_AUTH in h.types && c.setup.hasPassword
      && c.taken == [VersionUnit, TypesUnit(h.types)] && c.sent == [CLIENT_VERSION, [SECURITY_VNC_AUTH]]
    case SecurityResult => Chosen(h, c.setup) && c.taken == UnitsOf(h) && c.sent == RepliesTo(h, c.setup)
    case Init =>
      && Chosen(h, c.setup)
      && c.taken == UnitsOf(h) + [ResultUnit] && c.sent == RepliesTo(h, c.setup) + [[1]]
    case _ => Opened(c)
  }

  lemma TypesTranscript(c: Conn, types: seq<byte>)
    requires c.phase.SecurityTypes? && Transcript(c) && ChooseSecurity(c, types).Done?
    ensures Transcript(Log(ChooseSecurity(c, types).conn, TypesUnit(types)))
  {
    assert c.taken + [TypesUnit(types)] == [VersionUnit, TypesUnit(types)];
  }

  lemma ChallengeTranscript(c: Conn, challenge: seq<byte>)
    requires c.phase.Challenge? && Transcript(c) && Send(c, c.setup.answer(challenge)).Done?
    ensures Transcript(Log(Then(Send(c, c.setup.answer(challenge)), SecurityResult).conn, ChallengeUnit(challenge)))
  {
    var types := HandshakeOf(c.taken).types;
    var h := Handshake(types, Some(challenge));
    assert c.taken + [ChallengeUnit(challenge)] == UnitsOf(h);
    assert c.sent + [c.setup.answer(challenge)] == RepliesTo(h, c.setup);
  }

  lemma ResultTranscript(c: Conn)
    requires c.phase.SecurityResult? && Transcript(c) && Send(c, [1]).Done?
    ensures Transcript(Log(Then(Send(c, [1]), Init).conn, ResultUnit))
  {
    SameHandshake(c.taken, ResultUnit);
  }

  /** What follows the security phase leaves the handshake it began with. */
  lemma SameHandshake(taken: seq<Unit>, u: Unit)
    requires |taken| >= 2 && !u.ChallengeUnit?
    ensures HandshakeOf(taken + [u]) == HandshakeOf(taken)
  {
  }

  lemma StartTranscript(c: Conn, width: nat, height: nat)
    requires c.phase.Init? && Transcript(c) && width < 0x1_0000 && height < 0x1_0000
    requires StartSession(c, width, height).Done?
    ensures Transcript(Log(StartSession(c, width, height).conn, InitUnit(width, height)))
  {
    SameHandshake(c.taken, InitUnit(width, height));
  }

  /** Once open, more units and more messages only come after. */
  lemma StillOpened(c: Conn, d: Conn, u: Unit)
    requires Opened(c) && d.setup == c.setup && d.taken == c.taken && c.sent <= d.sent && !u.ChallengeUnit?
    ensures Opened(Log(d, u))
  {
    SameHandshake(c.taken, u);
  }

  lemma RequestAppends(c: Conn)
    requires FrameFits(c)
    ensures c.sent <= RequestIncremental(c).sent
  {
  }

  lemma MessageTranscript(c: Conn, m: ServerMessage)
    requires Inv(c) && c.attached && c.phase.Message? && Opened(c)
    ensures var d := HandleMessage(c, m);
            Opened(Log(d, MessageUnit(m))) && (d.phase.Message? || d.phase.Rectangles?)
  {
    if m.UpdateHeader? {
      RequestAppends(c.(pendingRects := m.rectCount, painted := false));
    }
    StillOpened(c, HandleMessage(c, m), MessageUnit(m));
  }

  lemma RectangleTranscript(c: Conn, r: Rectangle)
    requires Inv(c) && c.attached && c.phase.Rectangles? && FrameReady(c, r) && Opened(c)
    requires HandleRectangle(c, r).Done?
    ensures var d := HandleRectangle(c, r).conn;
            Opened(Log(d, RectangleUnit(r))) && (d.phase.Message? || d.phase.Rectangles?)
  {
    PaintKeeps(c, r);
    RequestAppends(PaintOn(c, r).(pendingRects := 0, phase := Message));
    StillOpened(c, HandleRectangle(c, r).conn, RectangleUnit(r));
  }

  lemma ActTranscript(c: Conn, u: Unit)
    requires Inv(c) && c.attached && Transcript(c) && Ready(c, u) && InPhase(c.phase, u) && Act(c, u).Done?
    ensures Transcript(Log(Act(c, u).conn, u))
  {
    match u
    case VersionUnit =>
    case TypesUnit(types) => TypesTranscript(c, types);
    case ChallengeUnit(challenge) => ChallengeTranscript(c, challenge);
    case ResultUnit => ResultTranscript(c);
    case InitUnit(width, height) => StartTranscript(c, width, height);
    case MessageUnit(m) => MessageTranscript(c, m);
    case RectangleUnit(r) => RectangleTranscript(c, r);
  }

  lemma NextTranscript(c: Conn, buf: seq<byte>)
    requires Inv(c) && c.attached && Transcript(c) && buf != [] && Parse(c, buf).Parsed? && Next(c, buf).Done?
    ensures Transcript(Next(c, buf).conn)
  {
    ParsedReady(c, buf);
    ActTranscript(c, Parse(c, buf).value);
  }

  lemma {:induction false} ReadTranscript(c: Conn, buf: seq<byte>)
    requires Inv(c) && c.attached && Transcript(c)
    ensures Read(c, buf).conn.attached ==> Transcript(Read(c, buf).conn)
    decreases |buf|
  {
    if buf != [] {
      match Parse(c, buf)
      case Need(n) => FailKeeps(c, OverLimit(n, c.setup.max));
      case Bad(e, _) => FailKeeps(c, e);
      case Parsed(_, length) =>
        NextKeeps(c, buf);
        match Next(c, buf)
        case Done(d) =>
          NextTranscript(c, buf);
          ReadTranscript(d, buf[length..]);
        case Threw(d, e) => FailKeeps(d, e);
    }
  }

  /**
   * Whatever a server sends, in whatever chunks, a connection that lives has
   * answered each unit of the handshake in turn, with the security type the
   * rule picks, and is in session only after the whole of it.
   */
  lemma {:induction false} HandshakeInOrder(l: Link, chunks: seq<seq<byte>>)
    requires Inv(l.conn) && (l.conn.attached ==> Transcript(l.conn))
    ensures DeliverAll(l, chunks).conn.attached ==> Transcript(DeliverAll(l, chunks).conn)
    decreases chunks
  {
    if chunks != [] {
      if l.conn.attached {
        ReadTranscript(l.conn, l.held + chunks[0]);
      }
      HandshakeInOrder(Deliver(l, chunks[0]), chunks[1..]);
    }
  }

  // --- With the user's messages in between ---

  /** The messages of `a`, in order, among those of `b`. */
  predicate Among(a: seq<seq<byte>>, b: seq<seq<byte>>)
    decreases |b|
  {
    a == []
    || (b != []
        && (Among(a, b[..|b| - 1])
            || (a[|a| - 1] == b[|b| - 1] && Among(a[..|a| - 1], b[..|b| - 1]))))
  }

  lemma AmongPush(a: seq<seq<byte>>, b: seq<seq<byte>>, m: seq<byte>)
    requires Among(a, b)
    ensures Among(a, b + [m]) && Among(a + [m], b + [m])
  {
    assert (b + [m])[..|b|] == b && (a + [m])[..|a|] == a;
  }

  lemma {:induction false} AmongMore(a: seq<seq<byte>>, b: seq<seq<byte>>, ms: seq<seq<byte>>)
    requires Among(a, b)
    ensures Among(a, b + ms) && Among(a + ms, b + ms)
    decreases |ms|
  {
    if ms == [] {
      assert a + ms == a && b + ms == b;
    } else {
      var front, last := ms[..|ms| - 1], ms[|ms| - 1];
      AmongMore(a, b, front);
      AmongPush(a, b + front, last);
      AmongPush(a + front, b + front, last);
      assert a + ms == (a + front) + [last] && b + ms == (b + front) + [last];
    }
  }

  /** `replies`, a part of what was sent, is the transcript of the handshake. */
  predicate TranscribedBy(c: Conn, replies: seq<seq<byte>>) {
    Among(replies, c.sent) && Transcript(c.(sent := replies))
  }

  /** `d` and `e` are `c` after the same messages, sent on top of what `c` sent or of `replies`. */
  ghost predicate SentAlike(c: Conn, replies: seq<seq<byte>>, d: Conn, e: Conn, ms: seq<seq<byte>>) {
    d.sent == c.sent + ms && e == d.(sent := replies + ms)
  }

  lemma NoneSent(c: Conn, replies: seq<seq<byte>>, d: Conn)
    requires d.sent == c.sent
    ensures SentAlike(c, replies, d, d.(sent := replies), [])
  {
    assert c.sent + [] == c.sent && replies + [] == replies;
  }

  lemma AskSends(c: Conn, replies: seq<seq<byte>>) returns (ms: seq<seq<byte>>)
    requires FrameFits(c)
    ensures SentAlike(c, replies, RequestIncremental(c), RequestIncremental(c.(sent := replies)), ms)
  {
    if c.frame.Frame? && c.attached && c.open {
      ms := [Request(true, c.frame.screen.width, c.frame.screen.height)];
    } else {
      ms := [];
      NoneSent(c, replies, c);
    }
  }

  lemma MessageSends(c: Conn, m: ServerMessage, replies: seq<seq<byte>>) returns (ms: seq<seq<byte>>)
    requires FrameFits(c)
    ensures SentAlike(c, replies, HandleMessage(c, m), HandleMessage(c.(sent := replies), m), ms)
  {
    if m.UpdateHeader? && m.rectCount == 0 {
      ms := AskSends(c.(pendingRects := 0, painted := false), replies);
    } else {
      ms := [];
      NoneSent(c, replies, HandleMessage(c, m));
    }
  }

  lemma FinishSends(c: Conn, replies: seq<seq<byte>>) returns (ms: seq<seq<byte>>)
    requires c.frame.Frame? && FrameFits(c) && c.pendingRects > 0
    ensures SentAlike(c, replies, FinishRectangle(c), FinishRectangle(c.(sent := replies)), ms)
  {
    if c.pendingRects == 1 {
      ms := AskSends(c.(pendingRects := 0, phase := Message), replies);
    } else {
      ms := [];
      NoneSent(c, replies, FinishRectangle(c));
    }
  }

  lemma HandshakeSends(c: Conn, u: Unit, replies: seq<seq<byte>>) returns (ms: seq<seq<byte>>)
    requires Inv(c) && c.attached && Ready(c, u) && InPhase(c.phase, u) && Act(c, u).Done?
    requires u.VersionUnit? || u.TypesUnit? || u.ChallengeUnit? || u.ResultUnit?
    ensures Act(c.(sent := replies), u).Done?
    ensures SentAlike(c, replies, Act(c, u).conn, Act(c.(sent := replies), u).conn, ms)
  {
    match u
    case VersionUnit => ms := [CLIENT_VERSION];
    case TypesUnit(types) =>
      ms := [if SECURITY_VNC_AUTH in types && c.setup.hasPassword then [SECURITY_VNC_AUTH] else [SECURITY_NONE]];
    case ChallengeUnit(challenge) => ms := [c.setup.answer(challenge)];
    case ResultUnit => ms := [[1]];
  }

  /** Acting on a unit sends the same whatever was sent before. */
  lemma ActSends(c: Conn, u: Unit, replies: seq<seq<byte>>) returns (ms: seq<seq<byte>>)
    requires Inv(c) && c.attached && Ready(c, u) && InPhase(c.phase, u) && Act(c, u).Done?
    ensures Inv(c.(sent := replies)) && Ready(c.(sent := replies), u) && Act(c.(sent := replies), u).Done?
    ensures SentAlike(c, replies, Act(c, u).conn, Act(c.(sent := replies), u).conn, ms)
  {
    match u
    case InitUnit(width, height) => ms := Greeting(width, height);
    case MessageUnit(m) => ms := MessageSends(c, m, replies);
    case RectangleUnit(r) =>
      PaintKeeps(c, r);
      ms := FinishSends(PaintOn(c, r), replies);
    case _ => ms := HandshakeSends(c, u, replies);
  }

  lemma NextTranscribed(c: Conn, buf: seq<byte>, replies: seq<seq<byte>>) returns (more: seq<seq<byte>>)
    requires Inv(c) && c.attached && buf != [] && Parse(c, buf).Parsed? && Next(c, buf).Done?
    requires TranscribedBy(c, replies)
    ensures TranscribedBy(Next(c, buf).conn, more)
  {
    ParsedReady(c, buf);
    var u := Parse(c, buf).value;
    var ms := ActSends(c, u, replies);
    ActTranscript(c.(sent := replies), u);
    more := replies + ms;
    AmongMore(replies, c.sent, ms);
    assert Next(c, buf).conn.(sent := more) == Log(Act(c.(sent := replies), u).conn, u);
  }

  lemma {:induction false} ReadTranscribed(c: Conn, buf: seq<byte>, replies: seq<seq<byte>>)
    returns (more: seq<seq<byte>>)
    requires Inv(c) && c.attached && TranscribedBy(c, replies)
    ensures Read(c, buf).conn.attached ==> TranscribedBy(Read(c, buf).conn, more)
    decreases |buf|
  {
    more := replies;
    if buf != [] {
      match Parse(c, buf)
      case Need(n) => FailKeeps(c, OverLimit(n, c.setup.max));
      case Bad(e, _) => FailKeeps(c, e);
      case Parsed(_, length) =>
        NextKeeps(c, buf);
        match Next(c, buf)
        case Done(d) =>
          more := NextTranscribed(c, buf, replies);
          more := ReadTranscribed(d, buf[length..], more);
        case Threw(d, e) => FailKeeps(d, e);
    }
  }

  /** Messages were sent and keys touched, and nothing else. */
  ghost predicate Appends(c: Conn, d: Conn) {
    c.sent <= d.sent && d == c.(sent := d.sent, keys := d.keys)
  }

  lemma KeyAppends(c: Conn, key: string)
    ensures Appends(c, HoldKey(c, key).conn) && Appends(c, LetGo(c, key).conn)
  {
  }

  lemma SendAllAppends(c: Conn, ms: seq<seq<byte>>)
    ensures Appends(c, SendAll(c, ms).conn)
  {
  }

  lemma TapAppends(c: Conn, combo: seq<string>, ch: char)
    ensures Appends(c, PressCombo(c, combo).conn) && Appends(c, TypeOne(c, ch).conn)
  {
    var r, k := KeysymsOf(combo), CharToKeysym(TypedName(ch));
    if r.Combo? { SendAllAppends(c, Tap(r.keysyms)); }
    if k.Keysym? { SendAllAppends(c, Tap(KeysOfChar(ch, k.value))); }
  }

  lemma MouseAppends(c: Conn, mask: byte, x: int, y: int, text: ClipText)
    requires FrameFits(c)
    ensures Appends(c, PointTo(c, mask, x, y).conn) && Appends(c, PasteText(c, text).conn)
    ensures Appends(c, Repaint(c).conn)
  {
  }

  /** The user's operations send messages and touch the keys, and nothing else. */
  lemma UserAppends(l: Link, op: Op)
    requires Sane(l.conn) && UserOp(op)
    ensures Appends(l.conn, Step(l, op).conn)
  {
    match op
    case KeyDown(key) => KeyAppends(l.conn, key);
    case KeyUp(key) => KeyAppends(l.conn, key);
    case Press(combo) => TapAppends(l.conn, combo, ' ');
    case TypeChar(ch) => TapAppends(l.conn, [], ch);
    case Pointer(mask, x, y) => MouseAppends(l.conn, mask, x, y, []);
    case Paste(text) => MouseAppends(l.conn, 0, 0, 0, text);
    case RequestUpdate => MouseAppends(l.conn, 0, 0, 0, []);
  }

  lemma UserTranscribed(l: Link, op: Op, replies: seq<seq<byte>>)
    requires Sane(l.conn) && UserOp(op) && TranscribedBy(l.conn, replies)
    ensures TranscribedBy(Step(l, op).conn, replies)
  {
    var c, d := l.conn, Step(l, op).conn;
    UserAppends(l, op);
    var ms := d.sent[|c.sent|..];
    assert d.sent == c.sent + ms;
    AmongMore(replies, c.sent, ms);
    assert d.(sent := replies) == c.(sent := replies, keys := d.keys);
  }

  lemma EndsConnection(l: Link, op: Op)
    requires Sane(l.conn) && (op.PeerClosed? || op.SocketError? || op.Close?)
    ensures !Step(l, op).conn.attached
  {
    if op.SocketError? { FailKeeps(l.conn, SocketFailed); }
    if op.PeerClosed? { FailKeeps(l.conn, ClosedEarly); }
  }

  lemma SocketTranscribed(l: Link, op: Op, replies: seq<seq<byte>>) returns (more: seq<seq<byte>>)
    requires Sane(l.conn) && !UserOp(op) && (l.conn.attached ==> TranscribedBy(l.conn, replies))
    ensures Step(l, op).conn.attached ==> TranscribedBy(Step(l, op).conn, more)
  {
    var c := l.conn;
    more := replies;
    match op
    case Attach(setup, open) => if !c.attached { more := []; }
    case Arrive(chunk) => if c.attached { more := ReadTranscribed(c, l.held + chunk, replies); }
    case TimedOut => FailKeeps(c, HandshakeTimedOut);
    case Opened =>
    case Stalled =>
    case _ => EndsConnection(l, op);
  }

  lemma StepTranscribed(l: Link, op: Op, replies: seq<seq<byte>>) returns (more: seq<seq<byte>>)
    requires Sane(l.conn) && (l.conn.attached ==> TranscribedBy(l.conn, replies))
    ensures Step(l, op).conn.attached ==> TranscribedBy(Step(l, op).conn, more)
  {
    if UserOp(op) {
      more := replies;
      UserAppends(l, op);
      if l.conn.attached { UserTranscribed(l, op, replies); }
    } else {
      more := SocketTranscribed(l, op, replies);
    }
  }

  lemma {:induction false} RunTranscribed(t: Tally, ops: seq<Op>, replies: seq<seq<byte>>)
    returns (more: seq<seq<byte>>)
    requires Sound(t.link, t.asked) && (t.link.conn.attached ==> TranscribedBy(t.link.conn, replies))
    requires forall op :: op in ops && op.Attach? ==> AnswersInFull(op.setup)
    ensures Run(t, ops).link.conn.attached ==> TranscribedBy(Run(t, ops).link.conn, more)
    decreases |ops|
  {
    more := replies;
    if ops != [] {
      StepSound(t.link, ops[0], t.asked);
      more := StepTranscribed(t.link, ops[0], replies);
      more := RunTranscribed(Tally(Step(t.link, ops[0]), Asked(t.link, ops[0], t.asked)), ops[1..], more);
    }
  }

  /**
   * After any run, whatever the user sent in between, a live connection has
   * sent the answer to each unit of the handshake in turn, and is in session
   * only after the whole of it.
   */
  lemma RunInOrder(setup: Setup, ops: seq<Op>) returns (replies: seq<seq<byte>>)
    requires forall op :: op in ops && op.Attach? ==> AnswersInFull(op.setup)
    ensures Sound(Link(Unused(setup), []), 0)
    ensures var c := Run(Tally(Link(Unused(setup), []), 0), ops).link.conn;
            c.attached ==> Among(replies, c.sent) && Transcript(c.(sent := replies))
  {
    UnusedSound(setup);
    replies := RunTranscribed(Tally(Link(Unused(setup), []), 0), ops, []);
  }
}
