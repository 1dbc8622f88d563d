/**
 * What a session sends after the handshake (RFC 6143 section 7.5), how each
 * message is written into its buffer, and the reading of it at the other end.
 */
module ClientMessages {
  import opened Bytes

  const MSG_SET_PIXEL_FORMAT: byte := 0
  const MSG_SET_ENCODINGS: byte := 2
  const MSG_FB_UPDATE_REQUEST: byte := 3
  const MSG_KEY_EVENT: byte := 4
  const MSG_POINTER_EVENT: byte := 5
  const MSG_CLIENT_CUT_TEXT: byte := 6

  /** 32 bits per pixel, depth 24, little-endian, true colour, shifts 16, 8 and 0. */
  const PIXEL_FORMAT: seq<byte> := [32, 24, 0, 1, 0, 255, 0, 255, 0, 255, 16, 8, 0, 0, 0, 0]

  datatype ClientMessage =
    | SetPixelFormat
    | SetEncodings(encodings: seq<int>)
    | UpdateRequest(incremental: bool, x: nat, y: nat, w: nat, h: nat)
    | KeyEvent(down: bool, keysym: nat)
    | PointerEvent(mask: byte, x: nat, y: nat)
    | ClientCutText(text: seq<byte>)

  /** The values the buffer writes accept; outside them the write throws. */
  predicate Encodable(m: ClientMessage) {
    match m
    case SetPixelFormat => true
    case SetEncodings(es) =>
      |es| < 0x1_0000 && forall i :: 0 <= i < |es| ==> -0x8000_0000 <= es[i] < 0x8000_0000
    case UpdateRequest(_, x, y, w, h) => x < 0x1_0000 && y < 0x1_0000 && w < 0x1_0000 && h < 0x1_0000
    case KeyEvent(_, keysym) => keysym < 0x1_0000_0000
    case PointerEvent(_, x, y) => x < 0x1_0000 && y < 0x1_0000
    case ClientCutText(text) => |text| < 0x1_0000_0000
  }

  function EncodeList(es: seq<int>): (s: seq<byte>)
    requires forall i :: 0 <= i < |es| ==> -0x8000_0000 <= es[i] < 0x8000_0000
    ensures |s| == 4 * |es|
  {
    if es == [] then [] else PutI32(es[0]) + EncodeList(es[1..])
  }

  function Flag(b: bool): byte { if b then 1 else 0 }

  /** The bytes of a message on the wire. */
  function Encode(m: ClientMessage): (s: seq<byte>)
    requires Encodable(m)
  {
    match m
    case SetPixelFormat => [MSG_SET_PIXEL_FORMAT, 0, 0, 0] + PIXEL_FORMAT
    case SetEncodings(es) => [MSG_SET_ENCODINGS, 0] + PutU16(|es|) + EncodeList(es)
    case UpdateRequest(incremental, x, y, w, h) =>
      [MSG_FB_UPDATE_REQUEST, Flag(incremental)] + PutU16(x) + PutU16(y) + PutU16(w) + PutU16(h)
    case KeyEvent(down, keysym) => [MSG_KEY_EVENT, Flag(down), 0, 0] + PutU32(keysym)
    case PointerEvent(mask, x, y) => [MSG_POINTER_EVENT, mask] + PutU16(x) + PutU16(y)
    case ClientCutText(text) => [MSG_CLIENT_CUT_TEXT, 0, 0, 0] + PutU32(|text|) + text
  }

  // --- The server's reading of the stream ---

  datatype Reading = Readable(message: ClientMessage, length: nat) | Unreadable

  function DecodeList(s: seq<byte>): (es: seq<int>)
    requires |s| % 4 == 0
    ensures |es| == |s| / 4
  {
    if s == [] then [] else [I32(s, 0)] + DecodeList(s[4..])
  }

  /** One message from the front of the stream, by its type byte. */
  function Decode(s: seq<byte>): Reading {
    if |s| < 4 then Unreadable
    else if s[0] == MSG_SET_PIXEL_FORMAT then
      if |s| < 20 || s[4..20] != PIXEL_FORMAT then Unreadable else Readable(SetPixelFormat, 20)
    else if s[0] == MSG_SET_ENCODINGS then
      var n := U16(s, 2);
      if |s| < 4 + 4 * n then Unreadable else Readable(SetEncodings(DecodeList(s[4..4 + 4 * n])), 4 + 4 * n)
    else if s[0] == MSG_FB_UPDATE_REQUEST then
      if |s| < 10 then Unreadable
      else Readable(UpdateRequest(s[1] != 0, U16(s, 2), U16(s, 4), U16(s, 6), U16(s, 8)), 10)
    else if s[0] == MSG_KEY_EVENT then
      if |s| < 8 then Unreadable else Readable(KeyEvent(s[1] != 0, U32(s, 4)), 8)
    else if s[0] == MSG_POINTER_EVENT then
      if |s| < 6 then Unreadable else Readable(PointerEvent(s[1], U16(s, 2), U16(s, 4)), 6)
    else if s[0] == MSG_CLIENT_CUT_TEXT then
      if |s| < 8 then Unreadable
      else
        var n := U32(s, 4);
        if |s| < 8 + n then Unreadable else Readable(ClientCutText(s[8..8 + n]), 8 + n)
    else Unreadable
  }

  lemma {:induction false} DecodeListInverse(es: seq<int>)
    requires forall i :: 0 <= i < |es| ==> -0x8000_0000 <= es[i] < 0x8000_0000
    ensures |EncodeList(es)| % 4 == 0 && DecodeList(EncodeList(es)) == es
  {
    if es != [] {
      DecodeListInverse(es[1..]);
      var s := EncodeList(es);
      assert s[..4] == PutI32(es[0]) && s[4..] == EncodeList(es[1..]);
      I32Prefix(es[0], EncodeList(es[1..]));
    }
  }

  lemma I32Prefix(v: int, rest: seq<byte>)
    requires -0x8000_0000 <= v < 0x8000_0000
    ensures I32(PutI32(v) + rest, 0) == v
  {
    assert U32(PutI32(v) + rest, 0) == U32(PutI32(v), 0);
  }

  lemma U32At(front: seq<byte>, v: nat, rest: seq<byte>)
    requires v < 0x1_0000_0000
    ensures U32(front + PutU32(v) + rest, |front|) == v
  {
    var s := front + PutU32(v) + rest;
    assert s[|front|] == PutU32(v)[0] && s[|front| + 1] == PutU32(v)[1];
    assert s[|front| + 2] == PutU32(v)[2] && s[|front| + 3] == PutU32(v)[3];
    assert U32(PutU32(v), 0) == v;
  }

  lemma SetEncodingsReadBack(es: seq<int>, rest: seq<byte>)
    requires Encodable(SetEncodings(es))
    ensures Decode(Encode(SetEncodings(es)) + rest) == Readable(SetEncodings(es), |Encode(SetEncodings(es))|)
  {
    var s := Encode(SetEncodings(es)) + rest;
    DecodeListInverse(es);
    assert U16(s, 2) == U16(PutU16(|es|), 0);
    assert s[4..4 + 4 * |es|] == EncodeList(es);
  }

  lemma KeyEventReadBack(down: bool, keysym: nat, rest: seq<byte>)
    requires Encodable(KeyEvent(down, keysym))
    ensures Decode(Encode(KeyEvent(down, keysym)) + rest) == Readable(KeyEvent(down, keysym), 8)
  {
    U32At([MSG_KEY_EVENT, Flag(down), 0, 0], keysym, rest);
  }

  lemma CutTextReadBack(text: seq<byte>, rest: seq<byte>)
    requires Encodable(ClientCutText(text))
    ensures Decode(Encode(ClientCutText(text)) + rest) == Readable(ClientCutText(text), 8 + |text|)
  {
    var head: seq<byte> := [MSG_CLIENT_CUT_TEXT, 0, 0, 0];
    var s := Encode(ClientCutText(text)) + rest;
    assert s == head + PutU32(|text|) + (text + rest);
    U32At(head, |text|, text + rest);
    assert s[8..8 + |text|] == text;
  }

  lemma UpdateRequestReadBack(m: ClientMessage, rest: seq<byte>)
    requires m.UpdateRequest? && Encodable(m)
    ensures Decode(Encode(m) + rest) == Readable(m, 10)
  {
    var s := Encode(m) + rest;
    assert U16(s, 2) == U16(PutU16(m.x), 0) && U16(s, 4) == U16(PutU16(m.y), 0);
    assert U16(s, 6) == U16(PutU16(m.w), 0) && U16(s, 8) == U16(PutU16(m.h), 0);
  }

  lemma PointerEventReadBack(m: ClientMessage, rest: seq<byte>)
    requires m.PointerEvent? && Encodable(m)
    ensures Decode(Encode(m) + rest) == Readable(m, 6)
  {
    var s := Encode(m) + rest;
    assert U16(s, 2) == U16(PutU16(m.x), 0) && U16(s, 4) == U16(PutU16(m.y), 0);
  }

  /** A message is read back whole, whatever follows it on the stream. */
  lemma DecodeEncode(m: ClientMessage, rest: seq<byte>)
    requires Encodable(m)
    ensures Decode(Encode(m) + rest) == Readable(m, |Encode(m)|)
  {
    match m
    case SetPixelFormat => assert (Encode(m) + rest)[4..20] == PIXEL_FORMAT;
    case SetEncodings(es) => SetEncodingsReadBack(es, rest);
    case UpdateRequest(_, _, _, _, _) => UpdateRequestReadBack(m, rest);
    case KeyEvent(down, keysym) => KeyEventReadBack(down, keysym, rest);
    case PointerEvent(_, _, _) => PointerEventReadBack(m, rest);
    case ClientCutText(text) => CutTextReadBack(text, rest);
  }

  function EncodeAll(ms: seq<ClientMessage>): seq<byte>
    requires forall i :: 0 <= i < |ms| ==> Encodable(ms[i])
  {
    if ms == [] then [] else Encode(ms[0]) + EncodeAll(ms[1..])
  }

  /** The messages of a whole stream; reading stops at the first byte that is not one. */
  function DecodeAll(s: seq<byte>): seq<ClientMessage>
    decreases |s|
  {
    match Decode(s)
    case Unreadable => []
    case Readable(m, length) => if length == 0 then [] else [m] + DecodeAll(s[length..])
  }

  /** The messages sent, run together with no separator, are the messages read. */
  lemma {:induction false} StreamReadBack(ms: seq<ClientMessage>)
    requires forall i :: 0 <= i < |ms| ==> Encodable(ms[i])
    ensures DecodeAll(EncodeAll(ms)) == ms
  {
    if ms != [] {
      var rest := EncodeAll(ms[1..]);
      DecodeEncode(ms[0], rest);
      StreamReadBack(ms[1..]);
      assert (Encode(ms[0]) + rest)[|Encode(ms[0])|..] == rest;
    }
  }

  // --- Building a message in its buffer ---

  method WriteU16(buf: array<byte>, value: nat, at: nat)
    requires value < 0x1_0000 && at + 2 <= buf.Length
    modifies buf
    ensures buf[..] == old(buf[..at]) + PutU16(value) + old(buf[at + 2..])
  {
    buf[at] := (value / 0x100) as byte;
    buf[at + 1] := (value % 0x100) as byte;
  }

  method WriteU32(buf: array<byte>, value: nat, at: nat)
    requires value < 0x1_0000_0000 && at + 4 <= buf.Length
    modifies buf
    ensures buf[..] == old(buf[..at]) + PutU32(value) + old(buf[at + 4..])
  {
    WriteU16(buf, value / 0x1_0000, at);
    WriteU16(buf, value % 0x1_0000, at + 2);
  }

  method BuildSetPixelFormat() returns (buf: array<byte>)
    ensures fresh(buf) && buf[..] == Encode(SetPixelFormat)
  {
    buf := new byte[20](_ => 0);
    buf[0] := MSG_SET_PIXEL_FORMAT;
    forall i | 0 <= i < 16 {
      buf[4 + i] := PIXEL_FORMAT[i];
    }
  }

  method BuildSetEncodings(encodings: seq<int>) returns (buf: array<byte>)
    requires Encodable(SetEncodings(encodings))
    ensures fresh(buf) && buf[..] == Encode(SetEncodings(encodings))
  {
    buf := new byte[4 + |encodings| * 4](_ => 0);
    buf[0] := MSG_SET_ENCODINGS;
    WriteU16(buf, |encodings|, 2);
    WriteList(buf, encodings);
  }

  /** The encodings in preference order, after the four header bytes. */
  method WriteList(buf: array<byte>, encodings: seq<int>)
    requires Encodable(SetEncodings(encodings)) && buf.Length == 4 + |encodings| * 4
    modifies buf
    ensures buf[..] == old(buf[..4]) + EncodeList(encodings)
  {
    ghost var head := buf[..4];
    var i := 0;
    while i < |encodings|
      invariant 0 <= i <= |encodings|
      invariant buf[..4 + i * 4] == head + EncodeList(encodings[..i])
    {
      EncodeListNext(head, encodings, i);
      WriteI32(buf, encodings[i], 4 + i * 4);
      i := i + 1;
    }
    assert encodings[..i] == encodings;
  }

  method WriteI32(buf: array<byte>, value: int, at: nat)
    requires -0x8000_0000 <= value < 0x8000_0000 && at + 4 <= buf.Length
    modifies buf
    ensures buf[..at + 4] == old(buf[..at]) + PutI32(value)
  {
    WriteU32(buf, if value < 0 then value + 0x1_0000_0000 else value, at);
  }

  lemma EncodeListNext(head: seq<byte>, es: seq<int>, i: nat)
    requires i < |es| && forall k :: 0 <= k < |es| ==> -0x8000_0000 <= es[k] < 0x8000_0000
    ensures head + EncodeList(es[..i + 1]) == head + EncodeList(es[..i]) + PutI32(es[i])
  {
    assert es[..i + 1] == es[..i] + [es[i]];
    EncodeListPush(es[..i], es[i]);
  }

  lemma {:induction false} EncodeListPush(es: seq<int>, e: int)
    requires forall i :: 0 <= i < |es| ==> -0x8000_0000 <= es[i] < 0x8000_0000
    requires -0x8000_0000 <= e < 0x8000_0000
    ensures EncodeList(es + [e]) == EncodeList(es) + PutI32(e)
  {
    if es == [] {
      assert EncodeList([e]) == PutI32(e) + EncodeList([]);
    } else {
      EncodeListPush(es[1..], e);
      assert (es + [e])[1..] == es[1..] + [e];
    }
  }

  method BuildFbUpdateRequest(incremental: bool, x: nat, y: nat, w: nat, h: nat) returns (buf: array<byte>)
    requires Encodable(UpdateRequest(incremental, x, y, w, h))
    ensures fresh(buf) && buf[..] == Encode(UpdateRequest(incremental, x, y, w, h))
  {
    buf := new byte[10](_ => 0);
    buf[0] := MSG_FB_UPDATE_REQUEST;
    buf[1] := if incremental then 1 else 0;
    WriteU16(buf, x, 2);
    WriteU16(buf, y, 4);
    WriteU16(buf, w, 6);
    WriteU16(buf, h, 8);
  }

  method BuildKeyEvent(down: bool, keysym: nat) returns (buf: array<byte>)
    requires Encodable(KeyEvent(down, keysym))
    ensures fresh(buf) && buf[..] == Encode(KeyEvent(down, keysym))
  {
    buf := new byte[8](_ => 0);
    buf[0] := MSG_KEY_EVENT;
    buf[1] := if down then 1 else 0;
    WriteU32(buf, keysym, 4);
  }

  method BuildPointerEvent(mask: byte, x: nat, y: nat) returns (buf: array<byte>)
    requires Encodable(PointerEvent(mask, x, y))
    ensures fresh(buf) && buf[..] == Encode(PointerEvent(mask, x, y))
  {
    buf := new byte[6](_ => 0);
    buf[0] := MSG_POINTER_EVENT;
    buf[1] := mask;
    WriteU16(buf, x, 2);
    WriteU16(buf, y, 4);
  }

  method BuildClientCutText(text: seq<byte>) returns (buf: array<byte>)
    requires Encodable(ClientCutText(text))
    ensures fresh(buf) && buf[..] == Encode(ClientCutText(text))
  {
    buf := new byte[8 + |text|](_ => 0);
    buf[0] := MSG_CLIENT_CUT_TEXT;
    WriteU32(buf, |text|, 4);
    forall i | 0 <= i < |text| {
      buf[8 + i] := text[i];
    }
  }
}
