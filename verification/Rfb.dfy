/**
 * What an RFB 3.8 server sends, read from the front of a buffer. A parser
 * answers with a value and the bytes it occupied, with the byte count the
 * buffer has to reach first, or with the error the session fails on.
 */
module Rfb {
  import opened Bytes
  import opened Screens
  import Numerals

  const SECURITY_NONE: byte := 1
  const SECURITY_VNC_AUTH: byte := 2

  const ENCODING_RAW := 0
  const ENCODING_COPYRECT := 1
  const ENCODING_DESKTOP_SIZE := -223

  const MSG_FB_UPDATE: byte := 0
  const MSG_SET_COLOUR_MAP: byte := 1
  const MSG_BELL: byte := 2
  const MSG_SERVER_CUT_TEXT: byte := 3

  datatype Bounded = RawBounds | CopyDestination | CopySource

  /** What a session can fail on. Text is kept as the bytes the server sent. */
  datatype Error =
    | NotRfb(version: seq<byte>)
    | Refused(reason: seq<byte>)
    | AuthFailed(reason: seq<byte>)
    | UnknownMessage(kind: byte)
    | OutOfBounds(what: Bounded, x: nat, y: nat, w: nat, h: nat, width: nat, height: nat)
    | UnsupportedEncoding(encoding: int)
    | OverLimit(needed: nat, limit: int)
    | NoPassword
    | NoUsableSecurity(types: seq<byte>)
    | ScreenTooLarge(width: nat, height: nat)
    | NotConnected
    | AlreadyAttached
    | NoFramebuffer
    | NoSuchKey(key: string)
    | OutsideFrame(px: int, py: int)
    | HandshakeTimedOut
    | ClosedEarly
    | SocketFailed

  /**
   * `length` is the number of bytes that settled the outcome: the message's
   * own length, or how far into it a rejection had to read.
   */
  datatype ParseResult<+T> =
    | Parsed(value: T, length: nat)
    | Bad(error: Error, length: nat)
    | Need(bytes: nat)

  datatype ServerMessage = UpdateHeader(rectCount: nat) | Bell | CutText(text: seq<byte>) | ColourMap

  datatype ServerInit = ServerInit(width: nat, height: nat, name: seq<byte>)

  /** ASCII decoding drops the top bit of every byte. */
  function Ascii(b: byte): char { (b as int % 128) as char }

  predicate AsciiDigit(b: byte) { Numerals.IsDigit(Ascii(b)) }

  /** `RFB ddd.ddd` and a newline. */
  predicate IsVersion(v: seq<byte>)
    requires |v| == 12
  {
    && Ascii(v[0]) == 'R' && Ascii(v[1]) == 'F' && Ascii(v[2]) == 'B' && Ascii(v[3]) == ' '
    && AsciiDigit(v[4]) && AsciiDigit(v[5]) && AsciiDigit(v[6])
    && Ascii(v[7]) == '.'
    && AsciiDigit(v[8]) && AsciiDigit(v[9]) && AsciiDigit(v[10])
    && Ascii(v[11]) == '\n'
  }

  function ParseProtocolVersion(buf: seq<byte>): ParseResult<()> {
    if |buf| < 12 then Need(12)
    else if !IsVersion(buf[..12]) then Bad(NotRfb(buf[..12]), 12)
    else Parsed((), 12)
  }

  /** A length-prefixed reason string at `at`. */
  function ReadReason(buf: seq<byte>, at: nat): ParseResult<seq<byte>> {
    if |buf| < at + 4 then Need(at + 4)
    else
      var length := U32(buf, at);
      if |buf| < at + 4 + length then Need(at + 4 + length)
      else Parsed(buf[at + 4..at + 4 + length], at + 4 + length)
  }

  function ParseSecurityTypes(buf: seq<byte>): ParseResult<seq<byte>> {
    if |buf| < 1 then Need(1)
    else
      var count := buf[0] as nat;
      if count == 0 then
        match ReadReason(buf, 1)
        case Need(n) => Need(n)
        case Parsed(reason, length) => Bad(Refused(reason), length)
        case Bad(e, length) => Bad(e, length)
      else if |buf| < 1 + count then Need(1 + count)
      else Parsed(buf[1..1 + count], 1 + count)
  }

  function ParseSecurityResult(buf: seq<byte>): ParseResult<()> {
    if |buf| < 4 then Need(4)
    else if U32(buf, 0) != 0 then
      match ReadReason(buf, 4)
      case Need(n) => Need(n)
      case Parsed(reason, length) => Bad(AuthFailed(reason), length)
      case Bad(e, length) => Bad(e, length)
    else Parsed((), 4)
  }

  function ParseServerInit(buf: seq<byte>): ParseResult<ServerInit> {
    if |buf| < 24 then Need(24)
    else
      var nameLength := U32(buf, 20);
      if |buf| < 24 + nameLength then Need(24 + nameLength)
      else Parsed(ServerInit(U16(buf, 0), U16(buf, 2), buf[24..24 + nameLength]), 24 + nameLength)
  }

  function ParseServerMessage(buf: seq<byte>): ParseResult<ServerMessage> {
    if |buf| < 1 then Need(1)
    else if buf[0] == MSG_FB_UPDATE then
      if |buf| < 4 then Need(4) else Parsed(UpdateHeader(U16(buf, 2)), 4)
    else if buf[0] == MSG_SET_COLOUR_MAP then
      if |buf| < 6 then Need(6)
      else
        var total := 6 + U16(buf, 4) * 6;
        if |buf| < total then Need(total) else Parsed(ColourMap, total)
    else if buf[0] == MSG_BELL then Parsed(Bell, 1)
    else if buf[0] == MSG_SERVER_CUT_TEXT then
      if |buf| < 8 then Need(8)
      else
        var length := U32(buf, 4);
        if |buf| < 8 + length then Need(8 + length) else Parsed(CutText(buf[8..8 + length]), 8 + length)
    else Bad(UnknownMessage(buf[0]), 1)
  }

  predicate InBounds(width: nat, height: nat, x: nat, y: nat, w: nat, h: nat) {
    x + w <= width && y + h <= height
  }

  /** A Raw rectangle's header and pixels. */
  function RawLength(w: nat, h: nat): (length: nat)
    ensures length == 12 + Span(h, w * 4)
  {
    SpanIs(h, w * 4);
    12 + h * (w * 4)
  }

  function ParseRectangle(buf: seq<byte>, width: nat, height: nat): (r: ParseResult<Rectangle>)
    ensures r.Parsed? ==> RectFits(width, height, r.value)
  {
    if |buf| < 12 then Need(12)
    else
      var x, y, w, h := U16(buf, 0), U16(buf, 2), U16(buf, 4), U16(buf, 6);
      var encoding := I32(buf, 8);
      if encoding == ENCODING_RAW then
        if !InBounds(width, height, x, y, w, h) then Bad(OutOfBounds(RawBounds, x, y, w, h, width, height), 12)
        else
          var length := RawLength(w, h);
          if |buf| < length then Need(length)
          else Parsed(Raw(x, y, w, h, buf[12..length]), length)
      else if encoding == ENCODING_COPYRECT then
        if !InBounds(width, height, x, y, w, h) then
          Bad(OutOfBounds(CopyDestination, x, y, w, h, width, height), 12)
        else if |buf| < 16 then Need(16)
        else
          var srcX, srcY := U16(buf, 12), U16(buf, 14);
          if !InBounds(width, height, srcX, srcY, w, h) then
            Bad(OutOfBounds(CopySource, srcX, srcY, w, h, width, height), 16)
          else Parsed(Copy(x, y, w, h, srcX, srcY), 16)
      else if encoding == ENCODING_DESKTOP_SIZE then Parsed(Resize(w, h), 12)
      else Bad(UnsupportedEncoding(encoding), 12)
  }

  /**
   * How a parser's answer may change when bytes arrive after the `n` it has
   * seen: a settled answer stays; a hint is more than it has, holds until that
   * many bytes are there, and never asks for more than the message takes.
   */
  ghost predicate Extends<T>(before: ParseResult<T>, n: nat, after: ParseResult<T>, m: nat) {
    match before
    case Need(k) =>
      && n < k
      && (m < k ==> after == before)
      && (if after.Need? then k <= after.bytes else k <= after.length)
    case _ =>
      0 < before.length <= n && after == before
  }

  lemma ReasonExtends(buf: seq<byte>, more: seq<byte>, at: nat)
    ensures Extends(ReadReason(buf, at), |buf|, ReadReason(buf + more, at), |buf + more|)
    ensures !ReadReason(buf, at).Bad?
  {
    if at + 4 <= |buf| {
      var length := U32(buf, at);
      assert U32(buf + more, at) == length;
      if at + 4 + length <= |buf| {
        assert (buf + more)[at + 4..at + 4 + length] == buf[at + 4..at + 4 + length];
      }
    }
  }

  lemma VersionExtends(buf: seq<byte>, more: seq<byte>)
    ensures Extends(ParseProtocolVersion(buf), |buf|, ParseProtocolVersion(buf + more), |buf + more|)
  {
    if |buf| >= 12 {
      assert (buf + more)[..12] == buf[..12];
    }
  }

  lemma SecurityTypesExtends(buf: seq<byte>, more: seq<byte>)
    ensures Extends(ParseSecurityTypes(buf), |buf|, ParseSecurityTypes(buf + more), |buf + more|)
  {
    ReasonExtends(buf, more, 1);
    if 1 <= |buf| && 1 + buf[0] as nat <= |buf| {
      assert (buf + more)[1..1 + buf[0] as nat] == buf[1..1 + buf[0] as nat];
    }
  }

  lemma SecurityResultExtends(buf: seq<byte>, more: seq<byte>)
    ensures Extends(ParseSecurityResult(buf), |buf|, ParseSecurityResult(buf + more), |buf + more|)
  {
    ReasonExtends(buf, more, 4);
    if 4 <= |buf| {
      assert U32(buf + more, 0) == U32(buf, 0);
    }
  }

  lemma ServerInitExtends(buf: seq<byte>, more: seq<byte>)
    ensures Extends(ParseServerInit(buf), |buf|, ParseServerInit(buf + more), |buf + more|)
  {
    if 24 <= |buf| {
      var length := U32(buf, 20);
      assert U32(buf + more, 20) == length;
      if 24 + length <= |buf| {
        assert (buf + more)[24..24 + length] == buf[24..24 + length];
      }
    }
  }

  lemma ServerMessageExtends(buf: seq<byte>, more: seq<byte>)
    ensures Extends(ParseServerMessage(buf), |buf|, ParseServerMessage(buf + more), |buf + more|)
  {
    if 8 <= |buf| && 8 + U32(buf, 4) <= |buf| {
      assert (buf + more)[8..8 + U32(buf, 4)] == buf[8..8 + U32(buf, 4)];
    }
  }

  lemma RectangleExtends(buf: seq<byte>, more: seq<byte>, width: nat, height: nat)
    ensures Extends(ParseRectangle(buf, width, height), |buf|,
                    ParseRectangle(buf + more, width, height), |buf + more|)
  {
    if 12 <= |buf| {
      var length := RawLength(U16(buf, 4), U16(buf, 6));
      assert I32(buf + more, 8) == I32(buf, 8);
      if length <= |buf| {
        assert (buf + more)[12..length] == buf[12..length];
      }
    }
  }
}
