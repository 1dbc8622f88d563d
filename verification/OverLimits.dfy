/** A message over the limit: read when it arrives whole, and the end of the connection when it does not. */
module OverLimits {
  import opened Bytes
  import opened Rfb
  import opened ClientMessages
  import opened Connections
  import opened Streams
  import opened Operations

  const TYPES: seq<byte> := [1, SECURITY_NONE]
  const RESULT: seq<byte> := [0, 0, 0, 0]

  /** A screen of one pixel without a name. */
  const INIT: seq<byte> := [0, 1, 0, 1, 0, 0, 0, 0, 0, 0, 0, 0, 0, 0, 0, 0, 0, 0, 0, 0, 0, 0, 0, 0]

  const HANDSHAKE := CLIENT_VERSION + (TYPES + (RESULT + INIT))

  function CutTextMessage(text: ClipText): seq<byte> {
    [MSG_SERVER_CUT_TEXT, 0, 0, 0] + PutU32(|text|) + text
  }

  /** A complete unit at the front is read, whatever follows. */
  lemma ReadUnit(c: Conn, unit: seq<byte>, rest: seq<byte>)
    requires Inv(c) && c.attached && unit != [] && Parse(c, unit).Parsed? && Parse(c, unit).length == |unit|
    requires Next(c, unit).Done?
    ensures var d := Next(c, unit).conn;
            Inv(d) && d.attached && d.setup == c.setup && Read(c, unit + rest) == Read(d, rest)
  {
    NextKeeps(c, unit);
    UnitExtends(c.phase, SizeOf(c), unit, rest);
    assert (unit + rest)[|unit|..] == rest;
  }

  ghost predicate Live(c: Conn, setup: Setup, phase: Phase) {
    Inv(c) && c.attached && c.open && c.setup == setup && c.phase == phase
  }

  /** How the server's part of a handshake without a password is parsed. */
  lemma HandshakeParses() returns (version: seq<byte>, types: seq<byte>, result: seq<byte>, init: seq<byte>)
    ensures HANDSHAKE == version + (types + (result + init))
    ensures version != [] && types != [] && result != [] && init != []
    ensures ParseProtocolVersion(version) == Parsed((), |version|)
    ensures ParseSecurityTypes(types) == Parsed([SECURITY_NONE], |types|)
    ensures ParseSecurityResult(result) == Parsed((), |result|)
    ensures ParseServerInit(init) == Parsed(ServerInit(1, 1, []), |init|)
  {
    version, types, result, init := CLIENT_VERSION, TYPES, RESULT, INIT;
    assert CLIENT_VERSION[..12] == CLIENT_VERSION;
    assert TYPES[1..1 + 1] == [SECURITY_NONE];
    assert INIT[24..24 + 0] == [];
  }

  /** A unit that is answered or noted with the socket open moves the handshake on. */
  lemma MovesOn(c: Conn, unit: seq<byte>, u: Unit, rest: seq<byte>, phase: Phase) returns (d: Conn)
    requires Inv(c) && c.attached && c.open && unit != [] && Parse(c, unit) == Parsed(u, |unit|)
    requires Ready(c, u) && Act(c, u).Done? && Act(c, u).conn.open && Act(c, u).conn.phase == phase
    ensures Live(d, c.setup, phase) && Read(c, unit + rest) == Read(d, rest)
  {
    ReadUnit(c, unit, rest);
    d := Next(c, unit).conn;
  }

  /** A version and an offer of no security start the handshake of a session without a password. */
  lemma Offered(c: Conn, version: seq<byte>, types: seq<byte>, rest: seq<byte>) returns (d: Conn)
    requires Live(c, c.setup, Version) && !c.setup.hasPassword && version != [] && types != []
    requires ParseProtocolVersion(version) == Parsed((), |version|)
    requires ParseSecurityTypes(types) == Parsed([SECURITY_NONE], |types|)
    ensures Live(d, c.setup, SecurityResult) && Read(c, version + (types + rest)) == Read(d, rest)
  {
    d := MovesOn(c, version, VersionUnit, types + rest, SecurityTypes);
    d := MovesOn(d, types, TypesUnit([SECURITY_NONE]), rest, SecurityResult);
  }

  /** A good result and ServerInit end it. */
  lemma Accepted(c: Conn, result: seq<byte>, init: seq<byte>, rest: seq<byte>) returns (d: Conn)
    requires Live(c, c.setup, SecurityResult) && result != [] && init != []
    requires ParseSecurityResult(result) == Parsed((), |result|)
    requires ParseServerInit(init) == Parsed(ServerInit(1, 1, []), |init|)
    ensures Live(d, c.setup, Message) && Read(c, result + (init + rest)) == Read(d, rest)
  {
    SpanIs(1, 1);
    d := MovesOn(c, result, ResultUnit, init + rest, Init);
    d := MovesOn(d, init, InitUnit(1, 1), rest, Message);
  }

  lemma Regrouped(a: seq<byte>, b: seq<byte>, c: seq<byte>, d: seq<byte>, rest: seq<byte>)
    ensures a + (b + (c + d)) + rest == a + (b + (c + (d + rest)))
  {
  }

  /** A server that asks for no password lets a new connection into session. */
  lemma LetIn(setup: Setup, rest: seq<byte>) returns (d: Conn)
    requires !setup.hasPassword
    ensures Inv(Attached(Unused(setup), setup, true)) && Live(d, setup, Message)
    ensures Read(Attached(Unused(setup), setup, true), HANDSHAKE + rest) == Read(d, rest)
  {
    var version, types, result, init := HandshakeParses();
    d := Through(Attached(Unused(setup), setup, true), version, types, result, init, rest);
  }

  lemma Through(c: Conn, version: seq<byte>, types: seq<byte>, result: seq<byte>, init: seq<byte>, rest: seq<byte>)
    returns (d: Conn)
    requires Live(c, c.setup, Version) && !c.setup.hasPassword
    requires version != [] && types != [] && result != [] && init != []
    requires ParseProtocolVersion(version) == Parsed((), |version|)
    requires ParseSecurityTypes(types) == Parsed([SECURITY_NONE], |types|)
    requires ParseSecurityResult(result) == Parsed((), |result|)
    requires ParseServerInit(init) == Parsed(ServerInit(1, 1, []), |init|)
    ensures Live(d, c.setup, Message)
    ensures Read(c, version + (types + (result + init)) + rest) == Read(d, rest)
  {
    Regrouped(version, types, result, init, rest);
    d := Offered(c, version, types, result + (init + rest));
    d := Accepted(d, result, init, rest);
  }

  /** A clipboard message, whole or begun. */
  lemma ParseBegun(text: ClipText, n: nat)
    requires 8 <= n <= 8 + |text|
    ensures |CutTextMessage(text)| == 8 + |text|
    ensures ParseServerMessage(CutTextMessage(text)[..n])
            == if n < 8 + |text| then Need(8 + |text|) else Parsed(CutText(text), 8 + |text|)
  {
    var buf := CutTextMessage(text)[..n];
    assert buf == [MSG_SERVER_CUT_TEXT, 0, 0, 0] + PutU32(|text|) + text[..n - 8];
    U32At([MSG_SERVER_CUT_TEXT, 0, 0, 0], |text|, text[..n - 8]);
    if n == 8 + |text| {
      assert buf[8..] == text;
    }
  }

  /** A session's link once a socket has been attached. */
  ghost function Fresh(setup: Setup): (l: Link)
    ensures Quiet(l)
  {
    Link(Attached(Unused(setup), setup, true), [])
  }

  /** The handshake and a message after it, delivered at once. */
  ghost function ReadAtOnce(setup: Setup, message: seq<byte>): Link {
    Deliver(Fresh(setup), HANDSHAKE + message)
  }

  /** The same stream, cut after `n` bytes of the message. */
  ghost function ReadCut(setup: Setup, message: seq<byte>, n: nat): Link
    requires n <= |message|
  {
    var stream, cut := HANDSHAKE + message, |HANDSHAKE| + n;
    DeliverAll(Fresh(setup), [stream[..cut], stream[cut..]])
  }

  /** The connection ended because a message needed too many bytes. */
  predicate RefusedFor(l: Link, needed: nat) {
    !l.conn.attached && l.conn.lastError == LastError(OverLimit(needed, l.conn.setup.max))
  }

  lemma ReadRefused(c: Conn, buf: seq<byte>, needed: nat)
    requires Live(c, c.setup, Message) && buf != [] && ParseServerMessage(buf) == Need(needed) && needed > c.setup.max
    ensures RefusedFor(Read(c, buf), needed)
  {
    assert Parse(c, buf) == Need(needed) && OverBudget(c, needed);
    FailKeeps(c, OverLimit(needed, c.setup.max));
  }

  /** In session, bytes that begin a message too long for the limit. */
  lemma Refused(setup: Setup, buf: seq<byte>, needed: nat)
    requires !setup.hasPassword && buf != [] && ParseServerMessage(buf) == Need(needed) && needed > setup.max
    ensures RefusedFor(ReadAtOnce(setup, buf), needed)
  {
    var c := LetIn(setup, buf);
    ReadRefused(c, buf, needed);
    assert [] + (HANDSHAKE + buf) == HANDSHAKE + buf;
  }

  /** The same with the rest of the message in a second chunk. */
  lemma CutRefused(setup: Setup, message: seq<byte>, n: nat, needed: nat)
    requires !setup.hasPassword && 0 < n < |message|
    requires ParseServerMessage(message[..n]) == Need(needed) && needed > setup.max
    ensures RefusedFor(ReadCut(setup, message, n), needed)
  {
    var cut := |HANDSHAKE| + n;
    Refused(setup, message[..n], needed);
    assert (HANDSHAKE + message)[..cut] == HANDSHAKE + message[..n];
    SecondChunkDead(Fresh(setup), HANDSHAKE + message[..n], (HANDSHAKE + message)[cut..]);
  }

  lemma ReadWhole(c: Conn, text: ClipText)
    requires Live(c, c.setup, Message)
    ensures Read(c, CutTextMessage(text)) == Link(Log(Emit(c, Clipboard(text)), MessageUnit(CutText(text))), [])
  {
    var m := CutTextMessage(text);
    ParseBegun(text, 8 + |text|);
    assert m[..8 + |text|] == m && m + [] == m;
    ReadUnit(c, m, []);
  }

  /** The connection lives, has read everything, and announced `e` last. */
  predicate Announced(l: Link, e: Event) {
    l.conn.attached && l.held == [] && |l.conn.events| > 0 && l.conn.events[|l.conn.events| - 1] == e
  }

  lemma TextAnnounced(setup: Setup, text: ClipText)
    requires !setup.hasPassword
    ensures Announced(ReadAtOnce(setup, CutTextMessage(text)), Clipboard(text))
  {
    var c := LetIn(setup, CutTextMessage(text));
    ReadWhole(c, text);
    assert [] + (HANDSHAKE + CutTextMessage(text)) == HANDSHAKE + CutTextMessage(text);
  }

  lemma TextRefused(setup: Setup, text: ClipText, message: seq<byte>, n: nat)
    requires !setup.hasPassword && 8 + |text| > setup.max && 8 <= n < 8 + |text| == |message|
    requires message == CutTextMessage(text)
    ensures RefusedFor(ReadCut(setup, message, n), 8 + |text|)
  {
    ParseBegun(text, n);
    CutRefused(setup, message, n, 8 + |text|);
  }

  /**
   * Whatever the limit, a clipboard text too long for it is announced when the
   * stream arrives at once, and ends the connection when the stream is cut
   * anywhere inside the text.
   */
  lemma LongTextDependsOnChunks(setup: Setup, text: ClipText, n: nat)
    requires !setup.hasPassword && 8 + |text| > setup.max && n < |text|
    ensures |CutTextMessage(text)| == 8 + |text|
    ensures Announced(ReadAtOnce(setup, CutTextMessage(text)), Clipboard(text))
    ensures RefusedFor(ReadCut(setup, CutTextMessage(text), 8 + n), 8 + |text|)
  {
    TextAnnounced(setup, text);
    ParseBegun(text, 8 + n);
    TextRefused(setup, text, CutTextMessage(text), 8 + n);
  }

  /** The start of a message of one colour map entry. */
  const COLOURS: seq<byte> := [MSG_SET_COLOUR_MAP, 0, 0, 0, 0, 1]

  lemma ColoursBegun(buf: seq<byte>)
    requires buf == COLOURS || buf == COLOURS[..1]
    ensures ParseServerMessage(buf) == Need(if buf == COLOURS then 12 else 6)
  {
    if buf == COLOURS {
      assert U16(buf, 4) == 1;
    }
  }

  /** Under a limit too short for a header, the count that is refused depends on the chunks. */
  lemma CountDependsOnChunks(setup: Setup)
    requires !setup.hasPassword && setup.max < 6
    ensures RefusedFor(ReadAtOnce(setup, COLOURS), 12) && RefusedFor(ReadCut(setup, COLOURS, 1), 6)
  {
    ColoursBegun(COLOURS);
    ColoursBegun(COLOURS[..1]);
    Refused(setup, COLOURS, 12);
    CutRefused(setup, COLOURS, 1, 6);
  }
}
