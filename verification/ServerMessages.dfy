/**
 * What a server sends, field by field in the order of RFC 6143, and what each
 * unit is read as whatever follows it on the stream.
 */
module ServerMessages {
  import opened Bytes
  import opened Screens
  import opened Rfb
  import opened Connections

  /** Sections 7.1.1 to 7.3.2, 7.6.1 to 7.6.4, 7.7.1, 7.7.2 and 7.8.2. */
  datatype Wire =
    | ProtocolVersion(digits: seq<byte>)
    | SecurityOffer(types: seq<byte>)
    | Refusal(reason: seq<byte>)
    | AuthChallenge(challenge: seq<byte>)
    | SecurityOk
    | SecurityFailed(code: nat, reason: seq<byte>)
    | ScreenInit(width: nat, height: nat, format: seq<byte>, name: seq<byte>)
    | Update(padding: byte, rectangles: nat)
    | ColourMapEntries(padding: byte, first: nat, colours: seq<seq<byte>>)
    | BellRung
    | ServerCutText(threeBytes: seq<byte>, text: seq<byte>)
    | RawRect(x: nat, y: nat, w: nat, h: nat, data: seq<byte>)
    | CopyRect(x: nat, y: nat, w: nat, h: nat, srcX: nat, srcY: nat)
    | DesktopSize(x: nat, y: nat, w: nat, h: nat)
    | OtherRect(x: nat, y: nat, w: nat, h: nat, encoding: int)

  predicate Short(v: nat) { v < 0x1_0000 }

  predicate IsArea(x: nat, y: nat, w: nat, h: nat) {
    Short(x) && Short(y) && Short(w) && Short(h)
  }

  /** The values the fields can carry. */
  predicate Sendable(u: Wire) {
    match u
    case ProtocolVersion(digits) => |digits| == 6 && forall i :: 0 <= i < 6 ==> 48 <= digits[i] <= 57
    case SecurityOffer(types) => 1 <= |types| <= 255
    case Refusal(reason) => |reason| < 0x1_0000_0000
    case AuthChallenge(challenge) => |challenge| == 16
    case SecurityOk => true
    case SecurityFailed(code, reason) => 1 <= code < 0x1_0000_0000 && |reason| < 0x1_0000_0000
    case ScreenInit(width, height, format, name) =>
      Short(width) && Short(height) && |format| == 16 && |name| < 0x1_0000_0000
    case Update(_, rectangles) => Short(rectangles)
    case ColourMapEntries(_, first, colours) =>
      Short(first) && Short(|colours|) && forall i :: 0 <= i < |colours| ==> |colours[i]| == 6
    case BellRung => true
    case ServerCutText(padding, text) => |padding| == 3 && |text| < 0x1_0000_0000
    case RawRect(x, y, w, h, data) => IsArea(x, y, w, h) && |data| == h * (w * 4)
    case CopyRect(x, y, w, h, srcX, srcY) => IsArea(x, y, w, h) && Short(srcX) && Short(srcY)
    case DesktopSize(x, y, w, h) => IsArea(x, y, w, h)
    case OtherRect(x, y, w, h, encoding) =>
      && IsArea(x, y, w, h) && -0x8000_0000 <= encoding < 0x8000_0000
      && encoding != 0 && encoding != 1 && encoding != -223
  }

  /** A rectangle's header, its encoding as four bytes. */
  function Header(x: nat, y: nat, w: nat, h: nat, encoding: seq<byte>): (s: seq<byte>)
    requires IsArea(x, y, w, h) && |encoding| == 4
    ensures |s| == 12
  {
    PutU16(x) + PutU16(y) + PutU16(w) + PutU16(h) + encoding
  }

  /** The bytes on the wire. */
  function OnWire(u: Wire): seq<byte>
    requires Sendable(u)
  {
    match u
    case ProtocolVersion(d) => [82, 70, 66, 32, d[0], d[1], d[2], 46, d[3], d[4], d[5], 10]
    case SecurityOffer(types) => [|types| as byte] + types
    case Refusal(reason) => [0] + PutU32(|reason|) + reason
    case AuthChallenge(challenge) => challenge
    case SecurityOk => [0, 0, 0, 0]
    case SecurityFailed(code, reason) => PutU32(code) + PutU32(|reason|) + reason
    case ScreenInit(width, height, format, name) => PutU16(width) + PutU16(height) + format + PutU32(|name|) + name
    case Update(padding, rectangles) => [0, padding] + PutU16(rectangles)
    case ColourMapEntries(padding, first, colours) =>
      [1, padding] + PutU16(first) + PutU16(|colours|) + Concat(colours)
    case BellRung => [2]
    case ServerCutText(padding, text) => [3] + padding + PutU32(|text|) + text
    case RawRect(x, y, w, h, data) => Header(x, y, w, h, [0, 0, 0, 0]) + data
    case CopyRect(x, y, w, h, srcX, srcY) => Header(x, y, w, h, [0, 0, 0, 1]) + PutU16(srcX) + PutU16(srcY)
    case DesktopSize(x, y, w, h) => Header(x, y, w, h, [255, 255, 255, 33])
    case OtherRect(x, y, w, h, encoding) => Header(x, y, w, h, PutI32(encoding))
  }

  /** Where in the protocol a unit is sent. */
  function PhaseFor(u: Wire): Phase {
    match u
    case ProtocolVersion(_) => Version
    case SecurityOffer(_) => SecurityTypes
    case Refusal(_) => SecurityTypes
    case AuthChallenge(_) => Challenge
    case SecurityOk => SecurityResult
    case SecurityFailed(_, _) => SecurityResult
    case ScreenInit(_, _, _, _) => Phase.Init
    case Update(_, _) => Message
    case ColourMapEntries(_, _, _) => Message
    case BellRung => Message
    case ServerCutText(_, _) => Message
    case _ => Rectangles
  }

  predicate Fits(width: nat, height: nat, x: nat, y: nat, w: nat, h: nat) {
    x + w <= width && y + h <= height
  }

  /** What a unit says, on a screen of this size. */
  function Meaning(u: Wire, width: nat, height: nat): ParseResult<Unit> {
    match u
    case ProtocolVersion(_) => Parsed(VersionUnit, 12)
    case SecurityOffer(types) => Parsed(TypesUnit(types), 1 + |types|)
    case Refusal(reason) => Bad(Refused(reason), 5 + |reason|)
    case AuthChallenge(challenge) => Parsed(ChallengeUnit(challenge), 16)
    case SecurityOk => Parsed(ResultUnit, 4)
    case SecurityFailed(_, reason) => Bad(AuthFailed(reason), 8 + |reason|)
    case ScreenInit(w, h, _, name) => Parsed(InitUnit(w, h), 24 + |name|)
    case Update(_, rectangles) => Parsed(MessageUnit(UpdateHeader(rectangles)), 4)
    case ColourMapEntries(_, _, colours) => Parsed(MessageUnit(ColourMap), 6 + 6 * |colours|)
    case BellRung => Parsed(MessageUnit(Bell), 1)
    case ServerCutText(_, text) => Parsed(MessageUnit(CutText(text)), 8 + |text|)
    case RawRect(x, y, w, h, data) =>
      if Fits(width, height, x, y, w, h) then Parsed(RectangleUnit(Raw(x, y, w, h, data)), 12 + |data|)
      else Bad(OutOfBounds(RawBounds, x, y, w, h, width, height), 12)
    case CopyRect(x, y, w, h, srcX, srcY) =>
      if !Fits(width, height, x, y, w, h) then Bad(OutOfBounds(CopyDestination, x, y, w, h, width, height), 12)
      else if !Fits(width, height, srcX, srcY, w, h) then
        Bad(OutOfBounds(Bounded.CopySource, srcX, srcY, w, h, width, height), 16)
      else Parsed(RectangleUnit(Copy(x, y, w, h, srcX, srcY)), 16)
    case DesktopSize(_, _, w, h) => Parsed(RectangleUnit(Resize(w, h)), 12)
    case OtherRect(_, _, _, _, encoding) => Bad(UnsupportedEncoding(encoding), 12)
  }

  // --- Fields in their places ---

  lemma U16In(s: seq<byte>, at: nat, v: nat)
    requires Short(v) && at + 2 <= |s| && s[at..at + 2] == PutU16(v)
    ensures U16(s, at) == v
  {
    assert s[at..at + 2][0] == s[at] && s[at..at + 2][1] == s[at + 1];
  }

  lemma U32In(s: seq<byte>, at: nat, v: nat)
    requires v < 0x1_0000_0000 && at + 4 <= |s| && s[at..at + 4] == PutU32(v)
    ensures U32(s, at) == v
  {
    assert s[at..at + 4][0] == s[at] && s[at..at + 4][1] == s[at + 1];
    assert s[at..at + 4][2] == s[at + 2] && s[at..at + 4][3] == s[at + 3];
    assert U32(s, at) == U32(PutU32(v), 0);
  }

  /** The version string counts by the low seven bits of its bytes: `RFB `, three digits, `.`, three digits, newline. */
  lemma VersionIff(buf: seq<byte>)
    requires |buf| >= 12
    ensures ParseProtocolVersion(buf).Parsed?
            <==> && buf[0] % 128 == 82 && buf[1] % 128 == 70 && buf[2] % 128 == 66 && buf[3] % 128 == 32
                 && 48 <= buf[4] % 128 <= 57 && 48 <= buf[5] % 128 <= 57 && 48 <= buf[6] % 128 <= 57
                 && buf[7] % 128 == 46
                 && 48 <= buf[8] % 128 <= 57 && 48 <= buf[9] % 128 <= 57 && 48 <= buf[10] % 128 <= 57
                 && buf[11] % 128 == 10
    ensures ParseProtocolVersion(buf) == Parsed((), 12) || ParseProtocolVersion(buf) == Bad(NotRfb(buf[..12]), 12)
  {
  }

  lemma VersionRead(d: seq<byte>, s: seq<byte>, rest: seq<byte>)
    requires Sendable(ProtocolVersion(d)) && s == OnWire(ProtocolVersion(d))
    ensures ParseProtocolVersion(s + rest) == Parsed((), 12)
  {
    var buf := s + rest;
    assert |s| == 12 && forall i :: 0 <= i < 12 ==> buf[i] == s[i];
    VersionIff(buf);
  }

  lemma ReasonRead(front: seq<byte>, reason: seq<byte>, rest: seq<byte>)
    requires |reason| < 0x1_0000_0000
    ensures ReadReason(front + PutU32(|reason|) + reason + rest, |front|)
            == Parsed(reason, |front| + 4 + |reason|)
  {
    var s, at := front + PutU32(|reason|) + reason + rest, |front|;
    assert s[at..at + 4] == PutU32(|reason|);
    U32In(s, at, |reason|);
    assert s[at + 4..at + 4 + |reason|] == reason;
  }

  lemma TypesRead(u: Wire, rest: seq<byte>)
    requires Sendable(u) && (u.SecurityOffer? || u.Refusal?)
    ensures ParseSecurityTypes(OnWire(u) + rest)
            == if u.SecurityOffer? then Parsed(u.types, 1 + |u.types|) else Bad(Refused(u.reason), 5 + |u.reason|)
  {
    var s := OnWire(u) + rest;
    if u.SecurityOffer? {
      assert s[1..1 + |u.types|] == u.types;
    } else {
      ReasonRead([0], u.reason, rest);
    }
  }

  lemma ResultRead(u: Wire, rest: seq<byte>)
    requires Sendable(u) && (u.SecurityOk? || u.SecurityFailed?)
    ensures ParseSecurityResult(OnWire(u) + rest)
            == if u.SecurityOk? then Parsed((), 4) else Bad(AuthFailed(u.reason), 8 + |u.reason|)
  {
    var s := OnWire(u) + rest;
    if u.SecurityOk? {
      assert U16(s, 0) == 0 && U16(s, 2) == 0;
    } else {
      assert s[0..4] == PutU32(u.code);
      U32In(s, 0, u.code);
      ReasonRead(PutU32(u.code), u.reason, rest);
    }
  }

  lemma InitRead(width: nat, height: nat, format: seq<byte>, name: seq<byte>, rest: seq<byte>)
    requires Sendable(ScreenInit(width, height, format, name))
    ensures ParseServerInit(OnWire(ScreenInit(width, height, format, name)) + rest)
            == Parsed(ServerInit(width, height, name), 24 + |name|)
  {
    var s := OnWire(ScreenInit(width, height, format, name)) + rest;
    assert s[0..2] == PutU16(width) && s[2..4] == PutU16(height) && s[20..24] == PutU32(|name|);
    U16In(s, 0, width);
    U16In(s, 2, height);
    U32In(s, 20, |name|);
    assert s[24..24 + |name|] == name;
  }

  lemma ColoursRead(padding: byte, first: nat, colours: seq<seq<byte>>, rest: seq<byte>)
    requires Sendable(ColourMapEntries(padding, first, colours))
    ensures ParseServerMessage(OnWire(ColourMapEntries(padding, first, colours)) + rest)
            == Parsed(ColourMap, 6 + 6 * |colours|)
  {
    var s := OnWire(ColourMapEntries(padding, first, colours)) + rest;
    assert s[4..6] == PutU16(|colours|);
    U16In(s, 4, |colours|);
    ConcatLength(colours, 6);
    SpanIs(|colours|, 6);
  }

  lemma MessageRead(u: Wire, rest: seq<byte>)
    requires Sendable(u) && (u.Update? || u.BellRung? || u.ServerCutText?)
    ensures ParseServerMessage(OnWire(u) + rest)
            == if u.Update? then Parsed(UpdateHeader(u.rectangles), 4)
               else if u.BellRung? then Parsed(Bell, 1)
               else Parsed(CutText(u.text), 8 + |u.text|)
  {
    var s := OnWire(u) + rest;
    if u.Update? {
      assert s[2..4] == PutU16(u.rectangles);
      U16In(s, 2, u.rectangles);
    } else if u.ServerCutText? {
      assert s[4..8] == PutU32(|u.text|);
      U32In(s, 4, |u.text|);
      assert s[8..8 + |u.text|] == u.text;
    }
  }

  lemma HeaderRead(x: nat, y: nat, w: nat, h: nat, encoding: seq<byte>, rest: seq<byte>)
    requires IsArea(x, y, w, h) && |encoding| == 4
    ensures var s := Header(x, y, w, h, encoding) + rest;
            && U16(s, 0) == x && U16(s, 2) == y && U16(s, 4) == w && U16(s, 6) == h
            && I32(s, 8) == I32(encoding, 0) && s[12..] == rest
  {
    var s := Header(x, y, w, h, encoding) + rest;
    assert s[0..2] == PutU16(x) && s[2..4] == PutU16(y) && s[4..6] == PutU16(w) && s[6..8] == PutU16(h);
    U16In(s, 0, x);
    U16In(s, 2, y);
    U16In(s, 4, w);
    U16In(s, 6, h);
    assert U32(s, 8) == U32(encoding, 0);
  }

  lemma RawRead(u: Wire, width: nat, height: nat, rest: seq<byte>)
    requires u.RawRect? && Sendable(u)
    ensures ParseUnit(Rectangles, Size(width, height), OnWire(u) + rest) == Meaning(u, width, height)
  {
    var s := OnWire(u) + rest;
    assert s == Header(u.x, u.y, u.w, u.h, [0, 0, 0, 0]) + (u.data + rest);
    HeaderRead(u.x, u.y, u.w, u.h, [0, 0, 0, 0], u.data + rest);
    SpanIs(u.h, u.w * 4);
    assert s[12..12 + |u.data|] == u.data;
  }

  lemma CopyRead(u: Wire, width: nat, height: nat, rest: seq<byte>)
    requires u.CopyRect? && Sendable(u)
    ensures ParseUnit(Rectangles, Size(width, height), OnWire(u) + rest) == Meaning(u, width, height)
  {
    var s := OnWire(u) + rest;
    var tail := PutU16(u.srcX) + PutU16(u.srcY) + rest;
    assert s == Header(u.x, u.y, u.w, u.h, [0, 0, 0, 1]) + tail;
    HeaderRead(u.x, u.y, u.w, u.h, [0, 0, 0, 1], tail);
    assert s[12..14] == PutU16(u.srcX) && s[14..16] == PutU16(u.srcY);
    U16In(s, 12, u.srcX);
    U16In(s, 14, u.srcY);
    BigEndian(0, 0, 0, 1);
  }

  lemma SizeRead(u: Wire, width: nat, height: nat, rest: seq<byte>)
    requires (u.DesktopSize? || u.OtherRect?) && Sendable(u)
    ensures ParseUnit(Rectangles, Size(width, height), OnWire(u) + rest) == Meaning(u, width, height)
  {
    var encoding := if u.DesktopSize? then [255, 255, 255, 33] else PutI32(u.encoding);
    HeaderRead(u.x, u.y, u.w, u.h, encoding, rest);
    BigEndian(255, 255, 255, 33);
  }

  lemma RectangleRead(u: Wire, width: nat, height: nat, rest: seq<byte>)
    requires Sendable(u) && PhaseFor(u).Rectangles?
    ensures ParseUnit(Rectangles, Size(width, height), OnWire(u) + rest) == Meaning(u, width, height)
  {
    if u.RawRect? {
      RawRead(u, width, height, rest);
    } else if u.CopyRect? {
      CopyRead(u, width, height, rest);
    } else {
      SizeRead(u, width, height, rest);
    }
  }

  lemma HandshakeUnitRead(u: Wire, size: Size, rest: seq<byte>)
    requires Sendable(u) && !PhaseFor(u).Message? && !PhaseFor(u).Rectangles?
    ensures ParseUnit(PhaseFor(u), size, OnWire(u) + rest) == Meaning(u, 0, 0)
  {
    match u
    case ProtocolVersion(d) => VersionRead(d, OnWire(u), rest);
    case SecurityOffer(_) => TypesRead(u, rest);
    case Refusal(_) => TypesRead(u, rest);
    case AuthChallenge(challenge) => assert (challenge + rest)[..16] == challenge;
    case SecurityOk => ResultRead(u, rest);
    case SecurityFailed(_, _) => ResultRead(u, rest);
    case ScreenInit(w, h, format, name) => InitRead(w, h, format, name, rest);
  }

  lemma MessageUnitRead(u: Wire, size: Size, rest: seq<byte>)
    requires Sendable(u) && PhaseFor(u).Message?
    ensures ParseUnit(Message, size, OnWire(u) + rest) == Meaning(u, 0, 0)
  {
    if u.ColourMapEntries? {
      ColoursRead(u.padding, u.first, u.colours, rest);
    } else {
      MessageRead(u, rest);
    }
  }

  /** Whatever follows it, a unit is read as what the server said. */
  lemma UnitRead(u: Wire, width: nat, height: nat, rest: seq<byte>)
    requires Sendable(u)
    ensures ParseUnit(PhaseFor(u), Size(width, height), OnWire(u) + rest) == Meaning(u, width, height)
  {
    if PhaseFor(u).Rectangles? {
      RectangleRead(u, width, height, rest);
    } else if PhaseFor(u).Message? {
      MessageUnitRead(u, Size(width, height), rest);
    } else {
      HandshakeUnitRead(u, Size(width, height), rest);
    }
  }

  /** A unit that is read takes exactly its own bytes. */
  lemma UnitLength(u: Wire, width: nat, height: nat)
    requires Sendable(u) && Meaning(u, width, height).Parsed?
    ensures Meaning(u, width, height).length == |OnWire(u)|
  {
    if u.ColourMapEntries? {
      ConcatLength(u.colours, 6);
      SpanIs(|u.colours|, 6);
    }
  }

  /** A message of any other type is refused at its first byte. */
  lemma UnknownRead(kind: byte, rest: seq<byte>)
    requires kind > 3
    ensures ParseServerMessage([kind] + rest) == Bad(UnknownMessage(kind), 1)
  {
  }

  /** A screen of 1280 by 800 as it stands on the wire. */
  lemma InitOnTheWire(format: seq<byte>)
    requires |format| == 16
    ensures OnWire(ScreenInit(1280, 800, format, [])) == [5, 0, 3, 32] + format + [0, 0, 0, 0]
  {
    var s := OnWire(ScreenInit(1280, 800, format, []));
    assert PutU16(1280) == [5, 0] && PutU16(800) == [3, 32] && PutU32(0) == [0, 0, 0, 0];
  }
}
