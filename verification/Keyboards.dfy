/**
 * The keys that are down at the guest, read off the messages it was sent, and
 * how they stay within the keys the session remembers holding.
 */
module Keyboards {
  import opened Bytes
  import opened Screens
  import opened Rfb
  import opened ClientMessages
  import opened Connections
  import opened Streams
  import opened Keys
  import opened Operations
  import opened Histories

  predicate IsKeyEvent(m: seq<byte>) {
    |m| == 8 && m[0] == MSG_KEY_EVENT
  }

  /** The guest takes one message. */
  function Hear(down: set<nat>, m: seq<byte>): set<nat> {
    if !IsKeyEvent(m) then down
    else if m[1] != 0 then down + {U32(m, 4)}
    else down - {U32(m, 4)}
  }

  /** The keys down once the guest has taken every message in turn. */
  function HearAll(down: set<nat>, ms: seq<seq<byte>>): set<nat>
    decreases ms
  {
    if ms == [] then down else HearAll(Hear(down, ms[0]), ms[1..])
  }

  function DownAtGuest(sent: seq<seq<byte>>): set<nat> {
    HearAll({}, sent)
  }

  lemma {:induction false} HearAppend(down: set<nat>, a: seq<seq<byte>>, b: seq<seq<byte>>)
    ensures HearAll(down, a + b) == HearAll(HearAll(down, a), b)
    decreases a
  {
    if a == [] {
      assert a + b == b;
    } else {
      assert (a + b)[1..] == a[1..] + b;
      HearAppend(Hear(down, a[0]), a[1..], b);
    }
  }

  lemma HearOne(sent: seq<seq<byte>>, m: seq<byte>)
    ensures DownAtGuest(sent + [m]) == Hear(DownAtGuest(sent), m)
  {
    HearAppend({}, sent, [m]);
    assert [m][1..] == [];
  }

  lemma HearKey(down: set<nat>, press: bool, k: nat)
    requires k < 0x1_0000_0000
    ensures Hear(down, KeyMessage(press, k)) == if press then down + {k} else down - {k}
  {
    U32At([MSG_KEY_EVENT, Flag(press), 0, 0], k, []);
    assert KeyMessage(press, k) == [MSG_KEY_EVENT, Flag(press), 0, 0] + PutU32(k) + [];
  }

  /** Messages for a list of keys leave exactly those keys up, or down. */
  lemma {:induction false} HearKeys(down: set<nat>, press: bool, ks: seq<nat>)
    requires Keysyms(ks)
    ensures forall k :: k in HearAll(down, KeyMessages(press, ks)) <==>
                        if press then k in down || k in ks else k in down && k !in ks
    decreases ks
  {
    if ks != [] {
      HearKey(down, press, ks[0]);
      HearKeys(Hear(down, KeyMessage(press, ks[0])), press, ks[1..]);
      assert KeyMessages(press, ks)[1..] == KeyMessages(press, ks[1..]);
    }
  }

  /** A tap leaves its own keys up and every other key as it was. */
  lemma HearTap(sent: seq<seq<byte>>, ks: seq<nat>)
    requires Keysyms(ks)
    ensures forall k :: k in DownAtGuest(sent + Tap(ks)) <==> k in DownAtGuest(sent) && k !in ks
  {
    HearAppend({}, sent, Tap(ks));
    var down := DownAtGuest(sent);
    HearAppend(down, KeyMessages(true, ks), KeyMessages(false, Reversed(ks)));
    HearKeys(down, true, ks);
    HearKeys(HearAll(down, KeyMessages(true, ks)), false, Reversed(ks));
  }

  // --- The session remembers every key it holds ---

  /** On a live connection every key down at the guest is one the session will release. */
  predicate Remembers(c: Conn) {
    c.attached ==> forall k :: k in DownAtGuest(c.sent) ==> k in c.keys
  }

  lemma HoldRemembers(c: Conn, key: string)
    requires Remembers(c)
    ensures Remembers(HoldKey(c, key).conn)
  {
    var r := CharToKeysym(key);
    if r.Keysym? {
      HearOne(c.sent, KeyMessage(true, r.value));
      HearKey(DownAtGuest(c.sent), true, r.value);
    }
  }

  lemma LetGoRemembers(c: Conn, key: string)
    requires Remembers(c)
    ensures Remembers(LetGo(c, key).conn)
  {
    var r := CharToKeysym(key);
    if r.Keysym? {
      HearOne(c.sent, KeyMessage(false, r.value));
      HearKey(DownAtGuest(c.sent), false, r.value);
    }
  }

  lemma PressRemembers(c: Conn, combo: seq<string>)
    requires Remembers(c)
    ensures Remembers(PressCombo(c, combo).conn)
  {
    var r := KeysymsOf(combo);
    if r.Combo? {
      HearTap(c.sent, r.keysyms);
    }
  }

  lemma TypeRemembers(c: Conn, ch: char)
    requires Remembers(c)
    ensures Remembers(TypeOne(c, ch).conn)
  {
    var r := CharToKeysym(TypedName(ch));
    if r.Keysym? {
      HearTap(c.sent, KeysOfChar(ch, r.value));
    }
  }

  /** Closing a connection whose socket is open leaves no key down. */
  lemma CloseLeavesNoKeyDown(c: Conn)
    requires Remembers(c) && Keysyms(c.keys) && c.attached && c.open
    ensures DownAtGuest(CloseSession(c).sent) == {}
  {
    HearAppend({}, c.sent, KeyMessages(false, c.keys));
    HearKeys(DownAtGuest(c.sent), false, c.keys);
  }

  // --- Nothing else the session sends is a key event ---

  lemma OtherMessage(sent: seq<seq<byte>>, m: seq<byte>)
    requires !IsKeyEvent(m)
    ensures DownAtGuest(sent + [m]) == DownAtGuest(sent)
  {
    HearOne(sent, m);
  }

  lemma RequestIsNoKey(c: Conn)
    requires FrameFits(c)
    ensures DownAtGuest(RequestIncremental(c).sent) == DownAtGuest(c.sent)
  {
    if c.frame.Frame? {
      OtherMessage(c.sent, Request(true, c.frame.screen.width, c.frame.screen.height));
    }
  }

  lemma GreetingIsNoKey(sent: seq<seq<byte>>, width: nat, height: nat)
    requires width < 0x1_0000 && height < 0x1_0000
    ensures DownAtGuest(sent + Greeting(width, height)) == DownAtGuest(sent)
  {
    var a, b := Encode(SetPixelFormat), Encode(ClientMessages.SetEncodings(ENCODINGS));
    var r := Request(false, width, height);
    assert sent + [a, b, r] == ((sent + [a]) + [b]) + [r];
    assert |a| == 20 && b[0] == MSG_SET_ENCODINGS;
    OtherMessage(sent, a);
    OtherMessage(sent + [a], b);
    OtherMessage((sent + [a]) + [b], r);
  }

  lemma SendIsNoKey(c: Conn, data: seq<byte>)
    requires !IsKeyEvent(data)
    ensures DownAtGuest(Send(c, data).conn.sent) == DownAtGuest(c.sent)
  {
    OtherMessage(c.sent, data);
  }

  lemma StartIsNoKey(c: Conn, width: nat, height: nat)
    requires width < 0x1_0000 && height < 0x1_0000
    ensures DownAtGuest(StartSession(c, width, height).conn.sent) == DownAtGuest(c.sent)
  {
    GreetingIsNoKey(c.sent, width, height);
  }

  lemma TypesAreNoKey(c: Conn, types: seq<byte>)
    ensures DownAtGuest(ChooseSecurity(c, types).conn.sent) == DownAtGuest(c.sent)
  {
    SendIsNoKey(c, [SECURITY_VNC_AUTH]);
    SendIsNoKey(c, [SECURITY_NONE]);
  }

  lemma RectangleIsNoKey(c: Conn, r: Rectangle)
    requires Inv(c) && c.attached && c.phase.Rectangles? && FrameReady(c, r)
    ensures DownAtGuest(HandleRectangle(c, r).conn.sent) == DownAtGuest(c.sent)
  {
    if !(r.Resize? && TooLarge(r.width, r.height)) {
      PaintKeeps(c, r);
      RequestIsNoKey(PaintOn(c, r).(pendingRects := 0, phase := Message));
    }
  }

  lemma ActIsNoKey(c: Conn, u: Unit)
    requires Inv(c) && c.attached && Ready(c, u) && InPhase(c.phase, u) && AnswersInFull(c.setup)
    ensures DownAtGuest(Act(c, u).conn.sent) == DownAtGuest(c.sent)
  {
    match u
    case VersionUnit => SendIsNoKey(c, CLIENT_VERSION);
    case TypesUnit(types) => TypesAreNoKey(c, types);
    case ChallengeUnit(challenge) => SendIsNoKey(c, c.setup.answer(challenge));
    case ResultUnit => SendIsNoKey(c, [1]);
    case InitUnit(width, height) => StartIsNoKey(c, width, height);
    case MessageUnit(m) =>
      if m.UpdateHeader? {
        RequestIsNoKey(c.(pendingRects := m.rectCount, painted := false));
      }
    case RectangleUnit(r) => RectangleIsNoKey(c, r);
  }

  lemma NextRemembers(c: Conn, buf: seq<byte>)
    requires Inv(c) && c.attached && buf != [] && Parse(c, buf).Parsed?
    requires Remembers(c) && AnswersInFull(c.setup)
    ensures Remembers(Next(c, buf).conn)
  {
    ParsedReady(c, buf);
    ActKeeps(c, Parse(c, buf).value);
    ActIsNoKey(c, Parse(c, buf).value);
  }

  lemma {:induction false} ReadRemembers(c: Conn, buf: seq<byte>)
    requires Inv(c) && c.attached && Remembers(c) && AnswersInFull(c.setup)
    ensures Remembers(Read(c, buf).conn)
    decreases |buf|
  {
    if buf != [] {
      match Parse(c, buf)
      case Need(n) => FailKeeps(c, OverLimit(n, c.setup.max));
      case Bad(e, _) => FailKeeps(c, e);
      case Parsed(_, length) =>
        NextKeeps(c, buf);
        match Next(c, buf)
        case Done(d) =>
          NextRemembers(c, buf);
          ReadRemembers(d, buf[length..]);
        case Threw(d, e) => FailKeeps(d, e);
    }
  }
}
