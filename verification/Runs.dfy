/**
 * What holds after any run of a session: bytes arriving, the socket changing
 * state and the user acting, in any order.
 */
module Runs {
  import opened Bytes
  import opened Rfb
  import opened ClientMessages
  import opened Connections
  import opened Streams
  import opened Keys
  import opened Operations
  import opened Histories
  import opened Keyboards
  import opened Announcements

  /** What holds between two steps of a run in which `asked` full repaints were asked for. */
  ghost predicate Sound(l: Link, asked: nat) {
    && Quiet(l) && Keysyms(l.conn.keys)
    && (l.conn.attached ==> AnswersInFull(l.conn.setup))
    && Ledger(l.conn, asked)
    && Tells(l.conn)
    && Remembers(l.conn)
  }

  /** Full repaints asked for on the current connection, once `op` is done. */
  ghost function Asked(l: Link, op: Op, asked: nat): nat
    requires Sane(l.conn)
  {
    if op.Attach? && !l.conn.attached then 0
    else if op.RequestUpdate? && Repaint(l.conn).Done? then asked + 1
    else asked
  }

  // --- What the user does ---

  /** `d` is `c` with messages sent, and possibly other keys held. */
  ghost predicate Sends(c: Conn, d: Conn, ms: seq<seq<byte>>) {
    d == c.(sent := c.sent + ms, keys := d.keys)
  }

  predicate NoneTenBytes(ms: seq<seq<byte>>) {
    forall m :: m in ms ==> |m| != 10
  }

  lemma {:induction false} NoRequestsIn(sent: seq<seq<byte>>, ms: seq<seq<byte>>, incremental: bool)
    requires NoneTenBytes(ms)
    ensures Requests(sent + ms, incremental) == Requests(sent, incremental)
    decreases |ms|
  {
    if ms == [] {
      assert sent + ms == sent;
    } else {
      var front, last := ms[..|ms| - 1], ms[|ms| - 1];
      assert sent + ms == (sent + front) + [last];
      SentOne(sent + front, last, incremental);
      NoRequestsIn(sent, front, incremental);
    }
  }

  lemma SendsKeepLedger(c: Conn, d: Conn, ms: seq<seq<byte>>, asked: nat)
    requires Ledger(c, asked) && Sends(c, d, ms) && NoneTenBytes(ms)
    ensures Ledger(d, asked)
  {
    NoRequestsIn(c.sent, ms, true);
    NoRequestsIn(c.sent, ms, false);
  }

  lemma SendsKeepQuiet(l: Link, d: Conn, ms: seq<seq<byte>>)
    requires Quiet(l) && Sends(l.conn, d, ms) && (!d.attached ==> d.keys == [])
    ensures Quiet(Link(d, l.held))
  {
  }

  /** Sending messages that ask for nothing leaves a sound connection sound, if its keys are still accounted for. */
  lemma SendsKeepSound(l: Link, d: Conn, ms: seq<seq<byte>>, asked: nat)
    requires Sound(l, asked) && Sends(l.conn, d, ms) && NoneTenBytes(ms)
    requires Keysyms(d.keys) && (!d.attached ==> d.keys == []) && Remembers(d)
    ensures Sound(Link(d, l.held), asked)
  {
    SendsKeepLedger(l.conn, d, ms, asked);
    SendsKeepQuiet(l, d, ms);
  }

  lemma {:induction false} KeyMessagesShort(down: bool, ks: seq<nat>)
    requires Keysyms(ks)
    ensures NoneTenBytes(KeyMessages(down, ks))
  {
    if ks != [] {
      KeyMessagesShort(down, ks[1..]);
    }
  }

  lemma TapShort(ks: seq<nat>)
    requires Keysyms(ks)
    ensures NoneTenBytes(Tap(ks))
  {
    KeyMessagesShort(true, ks);
    KeyMessagesShort(false, Reversed(ks));
  }

  lemma NothingSent(c: Conn)
    ensures Sends(c, c, [])
  {
    assert c.sent + [] == c.sent;
  }

  lemma KeyDownSound(l: Link, key: string, asked: nat)
    requires Sound(l, asked)
    ensures Sound(Link(HoldKey(l.conn, key).conn, l.held), asked)
  {
    var c, r := l.conn, CharToKeysym(key);
    HoldRemembers(c, key);
    NothingSent(c);
    if r.Keysym? && c.attached && c.open {
      SendsKeepSound(l, HoldKey(c, key).conn, [KeyMessage(true, r.value)], asked);
    }
  }

  lemma KeyUpSound(l: Link, key: string, asked: nat)
    requires Sound(l, asked)
    ensures Sound(Link(LetGo(l.conn, key).conn, l.held), asked)
  {
    var c, r := l.conn, CharToKeysym(key);
    LetGoRemembers(c, key);
    if r.Keysym? && c.attached && c.open {
      ForgetKeysyms(c.keys, r.value);
      SendsKeepSound(l, LetGo(c, key).conn, [KeyMessage(false, r.value)], asked);
    }
  }

  lemma PressSound(l: Link, combo: seq<string>, asked: nat)
    requires Sound(l, asked)
    ensures Sound(Link(PressCombo(l.conn, combo).conn, l.held), asked)
  {
    var c, r := l.conn, KeysymsOf(combo);
    PressRemembers(c, combo);
    if r.Combo? && c.attached && c.open {
      TapShort(r.keysyms);
      SendsKeepSound(l, PressCombo(c, combo).conn, Tap(r.keysyms), asked);
    }
  }

  lemma TypeSound(l: Link, ch: char, asked: nat)
    requires Sound(l, asked)
    ensures Sound(Link(TypeOne(l.conn, ch).conn, l.held), asked)
  {
    var c, r := l.conn, CharToKeysym(TypedName(ch));
    TypeRemembers(c, ch);
    if r.Keysym? && !Skipped(ch) && c.attached && c.open {
      TapShort(KeysOfChar(ch, r.value));
      SendsKeepSound(l, TypeOne(c, ch).conn, Tap(KeysOfChar(ch, r.value)), asked);
    }
  }

  /** A message that is neither a key event nor an update request. */
  lemma OtherSendSound(l: Link, m: seq<byte>, asked: nat)
    requires Sound(l, asked) && |m| != 10 && !IsKeyEvent(m)
    ensures Sound(Link(Send(l.conn, m).conn, l.held), asked)
  {
    SendIsNoKey(l.conn, m);
    if l.conn.attached && l.conn.open {
      SendsKeepSound(l, Send(l.conn, m).conn, [m], asked);
    }
  }

  lemma PasteSound(l: Link, text: ClipText, asked: nat)
    requires Sound(l, asked)
    ensures Sound(Link(PasteText(l.conn, text).conn, l.held), asked)
  {
    var c, m := l.conn, Encode(ClientCutText(text));
    SendIsNoKey(c, m);
    if c.attached && c.open {
      Push(c.sent, m);
      SendsKeepQuiet(l, PasteText(c, text).conn, [m]);
    }
  }

  lemma PointSound(l: Link, mask: byte, x: int, y: int, asked: nat)
    requires Sound(l, asked)
    ensures Sound(Link(PointTo(l.conn, mask, x, y).conn, l.held), asked)
  {
    if PointTo(l.conn, mask, x, y).Done? {
      OtherSendSound(l, Encode(PointerEvent(mask, x, y)), asked);
    }
  }

  lemma RepaintSound(l: Link, asked: nat)
    requires Sound(l, asked)
    ensures Sound(Link(Repaint(l.conn).conn, l.held), if Repaint(l.conn).Done? then asked + 1 else asked)
  {
    var c := l.conn;
    if Repaint(c).Done? {
      var r := Request(false, c.frame.screen.width, c.frame.screen.height);
      RequestIs(false, c.frame.screen.width, c.frame.screen.height);
      SendIsNoKey(c, r);
      SentOne(c.sent, r, true);
      SentOne(c.sent, r, false);
      SendsKeepQuiet(l, Repaint(c).conn, [r]);
    }
  }

  // --- What the socket does ---

  lemma ArriveSound(l: Link, chunk: seq<byte>, asked: nat)
    requires Sound(l, asked)
    ensures Sound(Deliver(l, chunk), asked)
  {
    if l.conn.attached {
      var buf := l.held + chunk;
      ReadKeeps(l.conn, buf);
      ReadQuiet(l.conn, buf);
      ReadStep(l.conn, asked, buf);
      ReadTells(l.conn, asked, buf);
      ReadRemembers(l.conn, buf);
      ReadKeysyms(l.conn, buf);
    }
  }

  lemma NextKeys(c: Conn, buf: seq<byte>)
    requires Inv(c) && c.attached && buf != [] && Parse(c, buf).Parsed?
    ensures Next(c, buf).conn.keys == c.keys
  {
    ParsedReady(c, buf);
    ActKeeps(c, Parse(c, buf).value);
  }

  lemma {:induction false} ReadKeysyms(c: Conn, buf: seq<byte>)
    requires Inv(c) && c.attached && Keysyms(c.keys)
    ensures Keysyms(Read(c, buf).conn.keys)
    decreases |buf|
  {
    if buf != [] && Parse(c, buf).Parsed? {
      NextKeeps(c, buf);
      NextKeys(c, buf);
      if Next(c, buf).Done? {
        ReadKeysyms(Next(c, buf).conn, buf[Parse(c, buf).length..]);
      }
    }
  }

  /** A connection that is over keeps no accounts. */
  lemma OverSound(c: Conn, asked: nat)
    requires Inv(c) && !c.attached
    ensures Sound(Link(c, []), asked)
  {
  }

  lemma TeardownKeeps(c: Conn)
    requires Inv(c)
    ensures Inv(Teardown(c)) && !Teardown(c).attached
  {
  }

  lemma PeerGoneSound(l: Link, asked: nat)
    requires Sound(l, asked)
    ensures Sound(Link(PeerGone(l.conn), []), asked)
  {
    FailKeeps(l.conn, ClosedEarly);
    TeardownKeeps(l.conn);
    OverSound(PeerGone(l.conn), asked);
  }

  lemma CloseSound(l: Link, asked: nat)
    requires Sound(l, asked)
    ensures Sound(Link(CloseSession(l.conn), []), asked)
  {
    TeardownKeeps(l.conn.(keys := []));
    OverSound(CloseSession(l.conn), asked);
  }

  lemma AttachSound(c: Conn, setup: Setup, open: bool)
    requires Sane(c) && !c.attached && AnswersInFull(setup)
    ensures Sound(Link(Attached(c, setup, open), []), 0)
  {
  }

  lemma OpensSound(l: Link, asked: nat)
    requires Sound(l, asked)
    ensures Sound(Link(SocketOpens(l.conn), l.held), asked)
  {
  }

  lemma StallSound(l: Link, asked: nat)
    requires Sound(l, asked)
    ensures Sound(Link(l.conn.(open := false), l.held), asked)
  {
  }

  // --- Ends ---

  lemma CloseEnds(c: Conn, asked: nat)
    requires Inv(c) && c.attached && Keysyms(c.keys) && Tells(c) && Ledger(c, asked)
    ensures Ended(CloseSession(c)) && CloseSession(c).lastError == NoError
  {
    LedgerWaits(c, asked);
    TeardownEnds(ReleaseKeys(c));
  }

  lemma PeerGoneEnds(c: Conn, asked: nat)
    requires Inv(c) && c.attached && Tells(c) && Ledger(c, asked)
    ensures Ended(PeerGone(c))
  {
    LedgerWaits(c, asked);
    FailEnds(c, ClosedEarly);
    TeardownEnds(c);
  }

  lemma ErrorEnds(c: Conn, asked: nat, error: Error)
    requires Inv(c) && c.attached && Tells(c) && Ledger(c, asked)
    ensures Ended(Fail(c, error)) && Fail(c, error).lastError == LastError(error)
  {
    LedgerWaits(c, asked);
    FailEnds(c, error);
  }

  lemma UserStays(l: Link, op: Op)
    requires Sane(l.conn) && l.conn.attached && UserOp(op)
    ensures Step(l, op).conn.attached
  {
  }

  /**
   * Whatever ends a connection in a run, it has announced by then what its
   * units owe, then the close, and then the error that ended it to whoever
   * waits for the session, or listens once it is in session.
   */
  lemma StepEnds(l: Link, op: Op, asked: nat)
    requires Sound(l, asked) && l.conn.attached && !Step(l, op).conn.attached
    ensures Ended(Step(l, op).conn)
    ensures op.Close? ==> Step(l, op).conn.lastError == NoError
    ensures op.SocketError? ==> Step(l, op).conn.lastError == LastError(SocketFailed)
    ensures op.TimedOut? ==> Step(l, op).conn.lastError == LastError(HandshakeTimedOut)
  {
    var c := l.conn;
    if UserOp(op) {
      UserStays(l, op);
      return;
    }
    match op
    case Arrive(chunk) => ReadEnds(c, asked, l.held + chunk);
    case PeerClosed => PeerGoneEnds(c, asked);
    case SocketError => ErrorEnds(c, asked, SocketFailed);
    case TimedOut => if c.settling { ErrorEnds(c, asked, HandshakeTimedOut); }
    case Close => CloseEnds(c, asked);
    case _ =>
  }

  // --- Runs ---

  lemma UserSound(l: Link, op: Op, asked: nat)
    requires Sound(l, asked) && UserOp(op)
    ensures Sound(Step(l, op), Asked(l, op, asked))
  {
    match op
    case KeyDown(key) => KeyDownSound(l, key, asked);
    case KeyUp(key) => KeyUpSound(l, key, asked);
    case Press(combo) => PressSound(l, combo, asked);
    case TypeChar(ch) => TypeSound(l, ch, asked);
    case Pointer(mask, x, y) => PointSound(l, mask, x, y, asked);
    case Paste(text) => PasteSound(l, text, asked);
    case RequestUpdate => RepaintSound(l, asked);
  }

  lemma ErrorSound(l: Link, error: Error, asked: nat)
    requires Sound(l, asked)
    ensures Sound(Link(Fail(l.conn, error), []), asked)
  {
    FailKeeps(l.conn, error);
    OverSound(Fail(l.conn, error), asked);
  }

  lemma StepSound(l: Link, op: Op, asked: nat)
    requires Sound(l, asked) && (op.Attach? ==> AnswersInFull(op.setup))
    ensures Sound(Step(l, op), Asked(l, op, asked))
  {
    if UserOp(op) {
      UserSound(l, op, asked);
      return;
    }
    match op
    case Attach(setup, open) => if !l.conn.attached { AttachSound(l.conn, setup, open); }
    case Opened => OpensSound(l, asked);
    case Stalled => StallSound(l, asked);
    case Arrive(chunk) => ArriveSound(l, chunk, asked);
    case PeerClosed => PeerGoneSound(l, asked);
    case SocketError => ErrorSound(l, SocketFailed, asked);
    case TimedOut => if l.conn.settling { ErrorSound(l, HandshakeTimedOut, asked); }
    case Close => CloseSound(l, asked);
  }

  datatype Tally = Tally(link: Link, asked: nat)

  ghost function Run(t: Tally, ops: seq<Op>): (u: Tally)
    requires Sound(t.link, t.asked) && forall op :: op in ops && op.Attach? ==> AnswersInFull(op.setup)
    ensures Sound(u.link, u.asked)
    decreases |ops|
  {
    if ops == [] then t
    else
      StepSound(t.link, ops[0], t.asked);
      Run(Tally(Step(t.link, ops[0]), Asked(t.link, ops[0], t.asked)), ops[1..])
  }

  lemma UnusedSound(setup: Setup)
    ensures Sound(Link(Unused(setup), []), 0)
  {
  }

  /**
   * Whatever a server sends, however it is cut, and whatever the user and the
   * socket do in between: the bytes held stay under the limit, every state is
   * well formed, and once in session the screen is the rectangles read so far
   * painted in order, the requests sent are one for ServerInit, one for every
   * update completed and one for every repaint asked for. What was announced
   * is what the units read owe, in order, with counters that increase, and no
   * key is down that close would not release.
   */
  lemma RunSafe(setup: Setup, ops: seq<Op>)
    requires forall op :: op in ops && op.Attach? ==> AnswersInFull(op.setup)
    ensures Sound(Link(Unused(setup), []), 0)
    ensures var t := Run(Tally(Link(Unused(setup), []), 0), ops);
            var c := t.link.conn;
            && Inv(c)
            && (c.attached ==> c.events == Announced(c.taken))
            && (c.attached ==> t.link.held == [] || |t.link.held| < c.setup.max || |t.link.held| < 16)
            && (c.attached && InSession(c) ==>
                  && c.frame == FrameOf(c.taken) && c.frame.Frame?
                  && c.frame.seqNo == RectanglesRead(c.taken)
                  && c.pendingRects == Owed(c.taken)
                  && Requests(c.sent, false) == 1 + t.asked
                  && (c.open ==> Requests(c.sent, true) == Completed(c.taken))
                  && UpdatesIncrease(c.events))
            && (c.attached && c.open ==> DownAtGuest(CloseSession(c).sent) == {})
  {
    UnusedSound(setup);
    var t := Run(Tally(Link(Unused(setup), []), 0), ops);
    if t.link.conn.attached {
      HeldBounded(t.link);
      if t.link.conn.open {
        CloseLeavesNoKeyDown(t.link.conn);
      }
    }
  }
}
