/** What the session's user and its socket do to a connection, between reads. */
module Operations {
  import opened Bytes
  import opened Rfb
  import opened ClientMessages
  import opened Connections
  import opened Streams
  import opened Keys

  /** No string is long enough to overflow the message's length field. */
  type ClipText = s: seq<byte> | |s| < 0x1_0000_0000

  datatype Op =
    | Attach(setup: Setup, open: bool)
    | Opened
    | Stalled
    | Arrive(chunk: seq<byte>)
    | PeerClosed
    | SocketError
    | TimedOut
    | Close
    | KeyDown(key: string)
    | KeyUp(key: string)
    | Press(combo: seq<string>)
    | TypeChar(ch: char)
    | Pointer(mask: byte, x: int, y: int)
    | Paste(text: ClipText)
    | RequestUpdate

  /** What the session's user does, short of closing it. */
  predicate UserOp(op: Op) {
    match op
    case KeyDown(_) => true
    case KeyUp(_) => true
    case Press(_) => true
    case TypeChar(_) => true
    case Pointer(_, _, _) => true
    case Paste(_) => true
    case RequestUpdate => true
    case _ => false
  }

  // --- Keyboard ---

  function KeyMessage(down: bool, keysym: nat): seq<byte>
    requires keysym < 0x1_0000_0000
  {
    Encode(KeyEvent(down, keysym))
  }

  predicate Keysyms(ks: seq<nat>) {
    forall i :: 0 <= i < |ks| ==> ks[i] < 0x1_0000_0000
  }

  /** One message per key, in order. */
  function KeyMessages(down: bool, ks: seq<nat>): (ms: seq<seq<byte>>)
    requires Keysyms(ks)
    ensures |ms| == |ks|
  {
    if ks == [] then [] else [KeyMessage(down, ks[0])] + KeyMessages(down, ks[1..])
  }

  function Reversed(ks: seq<nat>): (r: seq<nat>)
    ensures Keysyms(ks) ==> Keysyms(r)
    ensures forall k :: k in r <==> k in ks
  {
    if ks == [] then [] else Reversed(ks[1..]) + [ks[0]]
  }

  /** Keys are remembered in the order they were first held. */
  function Hold(keys: seq<nat>, k: nat): (held: seq<nat>)
    ensures forall j :: j in held <==> j == k || j in keys
  {
    if k in keys then keys else keys + [k]
  }

  function Forget(keys: seq<nat>, k: nat): (held: seq<nat>)
    ensures forall j :: j in held <==> j != k && j in keys
  {
    if keys == [] then []
    else (if keys[0] == k then [] else [keys[0]]) + Forget(keys[1..], k)
  }

  lemma {:induction false} ForgetKeysyms(keys: seq<nat>, k: nat)
    requires Keysyms(keys)
    ensures Keysyms(Forget(keys, k))
  {
    if keys != [] {
      ForgetKeysyms(keys[1..], k);
    }
  }

  function SendAll(c: Conn, ms: seq<seq<byte>>): Outcome {
    if c.attached && c.open then Done(c.(sent := c.sent + ms))
    else if ms == [] then Done(c)
    else Threw(c, NotConnected)
  }

  function HoldKey(c: Conn, key: string): Outcome {
    match CharToKeysym(key)
    case UnknownKey => Threw(c, NoSuchKey(key))
    case Keysym(k) =>
      match Send(c, KeyMessage(true, k))
      case Done(d) => Done(d.(keys := Hold(d.keys, k)))
      case Threw(d, e) => Threw(d, e)
  }

  function LetGo(c: Conn, key: string): Outcome {
    match CharToKeysym(key)
    case UnknownKey => Threw(c, NoSuchKey(key))
    case Keysym(k) =>
      match Send(c, KeyMessage(false, k))
      case Done(d) => Done(d.(keys := Forget(d.keys, k)))
      case Threw(d, e) => Threw(d, e)
  }

  datatype Combo = Combo(keysyms: seq<nat>) | BadKey(key: string)

  /** The keysyms of a combination, or the first name that is none. */
  function KeysymsOf(combo: seq<string>): (r: Combo)
    ensures r.Combo? ==> Keysyms(r.keysyms) && |r.keysyms| == |combo|
  {
    if combo == [] then Combo([])
    else
      match CharToKeysym(combo[0])
      case UnknownKey => BadKey(combo[0])
      case Keysym(k) =>
        match KeysymsOf(combo[1..])
        case BadKey(key) => BadKey(key)
        case Combo(ks) => Combo([k] + ks)
  }

  /** Every key down in the order written, and up again in reverse. */
  function Tap(ks: seq<nat>): seq<seq<byte>>
    requires Keysyms(ks)
  {
    KeyMessages(true, ks) + KeyMessages(false, Reversed(ks))
  }

  function PressCombo(c: Conn, combo: seq<string>): Outcome {
    match KeysymsOf(combo)
    case BadKey(key) => Threw(c, NoSuchKey(key))
    case Combo(ks) => SendAll(c, Tap(ks))
  }

  /** The keys one typed character takes, the outermost first. */
  function KeysOfChar(c: char, k: nat): (ks: seq<nat>)
    requires k < 0x1_0000_0000
    ensures Keysyms(ks)
  {
    if Shifted(c) && SHIFT.Keysym? then [SHIFT.value, k] else [k]
  }

  function TypeOne(c: Conn, ch: char): Outcome {
    if Skipped(ch) then Done(c)
    else
      match CharToKeysym(TypedName(ch))
      case UnknownKey => Threw(c, NoSuchKey(TypedName(ch)))
      case Keysym(k) => SendAll(c, Tap(KeysOfChar(ch, k)))
  }

  /** Key-up for every key held, as long as the socket takes it. */
  function ReleaseKeys(c: Conn): Conn
    requires Keysyms(c.keys)
  {
    c.(sent := if c.attached && c.open then c.sent + KeyMessages(false, c.keys) else c.sent, keys := [])
  }

  // --- Pointer, clipboard and repaint ---

  function PointTo(c: Conn, mask: byte, x: int, y: int): Outcome
    requires FrameFits(c)
  {
    if c.frame.NoFrame? then Threw(c, NoFramebuffer)
    else if x < 0 || y < 0 || x >= c.frame.screen.width || y >= c.frame.screen.height then Threw(c, OutsideFrame(x, y))
    else Send(c, Encode(PointerEvent(mask, x, y)))
  }

  function PasteText(c: Conn, text: ClipText): Outcome {
    Send(c, Encode(ClientCutText(text)))
  }

  function Repaint(c: Conn): Outcome
    requires FrameFits(c)
  {
    if c.frame.NoFrame? then Threw(c, NoFramebuffer)
    else Send(c, Request(false, c.frame.screen.width, c.frame.screen.height))
  }

  // --- The socket ---

  /** A new connection: fresh logs, the old screen until ServerInit replaces it. */
  function Attached(c: Conn, setup: Setup, open: bool): Conn {
    Conn(setup, true, open, true, false, Version, c.frame, 0, false, c.keys, [], [], NoError, [])
  }

  function CloseSession(c: Conn): Conn
    requires Keysyms(c.keys)
  {
    Teardown(ReleaseKeys(c))
  }

  function PeerGone(c: Conn): Conn {
    if c.settling then Fail(c, ClosedEarly) else Teardown(c)
  }

  /** The socket's state only moves forward: it opens before anything arrives, and never again. */
  function SocketOpens(c: Conn): Conn {
    if c.attached && c.taken == [] then c.(open := true) else c
  }

  // --- One step of a run ---

  ghost predicate Sane(c: Conn) {
    Inv(c) && Keysyms(c.keys)
  }

  ghost function Step(l: Link, op: Op): Link
    requires Sane(l.conn)
  {
    var c := l.conn;
    match op
    case Attach(setup, open) => if c.attached then l else Link(Attached(c, setup, open), [])
    case Opened => Link(SocketOpens(c), l.held)
    case Stalled => Link(c.(open := false), l.held)
    case Arrive(chunk) => Deliver(l, chunk)
    case PeerClosed => Link(PeerGone(c), [])
    case SocketError => Link(Fail(c, SocketFailed), [])
    case TimedOut => if c.settling then Link(Fail(c, HandshakeTimedOut), []) else l
    case Close => Link(CloseSession(c), [])
    case KeyDown(key) => Link(HoldKey(c, key).conn, l.held)
    case KeyUp(key) => Link(LetGo(c, key).conn, l.held)
    case Press(combo) => Link(PressCombo(c, combo).conn, l.held)
    case TypeChar(ch) => Link(TypeOne(c, ch).conn, l.held)
    case Pointer(mask, x, y) => Link(PointTo(c, mask, x, y).conn, l.held)
    case Paste(text) => Link(PasteText(c, text).conn, l.held)
    case RequestUpdate => Link(Repaint(c).conn, l.held)
  }
}
