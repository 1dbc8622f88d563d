/**
 * The bytes a server finds on the wire, written out: RFC 6143 section 7.5 for
 * the messages themselves, and what the session and its user put into them.
 */
module SentBytes {
  import opened Bytes
  import opened Rfb
  import opened ClientMessages
  import opened Connections
  import opened Streams
  import opened Keys
  import opened Operations

  // --- The handshake ---

  lemma VersionBytes()
    ensures |CLIENT_VERSION| == 12
    ensures var text: string := "RFB 003.008\n";
            |text| == 12 && forall i :: 0 <= i < 12 ==> CLIENT_VERSION[i] as int == text[i] as int
  {
    var text: string := "RFB 003.008\n";
    assert CLIENT_VERSION == [82, 70, 66, 32] + [48, 48, 51, 46] + [48, 48, 56, 10];
    assert text == "RFB " + "003." + "008\n";
  }

  /** VNC authentication is type 2 and no security type 1 (RFC 6143 section 7.2). */
  lemma SecurityBytes(c: Conn, types: seq<byte>)
    requires c.attached && c.open
    ensures ChooseSecurity(c, types)
            == if 2 in types && c.setup.hasPassword then Done(c.(sent := c.sent + [[2]], phase := Challenge))
               else if 1 in types then Done(c.(sent := c.sent + [[1]], phase := SecurityResult))
               else if 2 in types then Threw(c, NoPassword)
               else Threw(c, NoUsableSecurity(types))
  {
  }

  /** A screen may have as many pixels as 7680 by 4320 has, whatever its shape. */
  lemma ScreenLimit(width: nat, height: nat)
    ensures TooLarge(width, height) <==> width * height > 33177600
    ensures DEFAULT_MAX_MESSAGE_BYTES == 132710412
  {
    SpanIs(height, width);
  }

  // --- The messages ---

  lemma RequestBytes(incremental: bool, x: nat, y: nat, w: nat, h: nat)
    requires Encodable(UpdateRequest(incremental, x, y, w, h))
    ensures Encode(UpdateRequest(incremental, x, y, w, h))
            == [3, if incremental then 1 else 0] + PutU16(x) + PutU16(y) + PutU16(w) + PutU16(h)
  {
  }

  lemma KeyBytes(down: bool, keysym: nat)
    requires Encodable(KeyEvent(down, keysym))
    ensures Encode(KeyEvent(down, keysym)) == [4, if down then 1 else 0, 0, 0] + PutU32(keysym)
  {
  }

  lemma PointerBytes(mask: byte, x: nat, y: nat)
    requires Encodable(PointerEvent(mask, x, y))
    ensures Encode(PointerEvent(mask, x, y)) == [5, mask] + PutU16(x) + PutU16(y)
  {
  }

  lemma CutTextBytes(text: seq<byte>)
    requires Encodable(ClientCutText(text))
    ensures Encode(ClientCutText(text)) == [6, 0, 0, 0] + PutU32(|text|) + text
  {
  }

  /** 32 bits a pixel of which 24 count, little-endian true colour, red 16 bits up, green 8, blue 0. */
  lemma FormatBytes()
    ensures Encode(SetPixelFormat)
            == [0, 0, 0, 0] + [32, 24, 0, 1, 0, 255, 0, 255] + [0, 255, 16, 8, 0, 0, 0, 0]
  {
  }

  /** CopyRect is preferred to Raw; DesktopSize is -223. */
  lemma EncodingBytes()
    ensures Encode(ClientMessages.SetEncodings(ENCODINGS))
            == [2, 0, 0, 3] + [0, 0, 0, 1] + [0, 0, 0, 0] + [255, 255, 255, 33]
  {
    var es := ENCODINGS;
    assert EncodeList(es[3..]) == [] && EncodeList(es[2..]) == [255, 255, 255, 33];
    assert EncodeList(es[1..]) == [0, 0, 0, 0] + EncodeList(es[1..][1..]) && es[1..][1..] == es[2..];
  }

  // --- What the session sends ---

  /** A request for the whole of a screen. */
  lemma WholeBytes(incremental: bool, width: nat, height: nat)
    requires width < 0x1_0000 && height < 0x1_0000
    ensures Request(incremental, width, height)
            == [3, if incremental then 1 else 0, 0, 0, 0, 0] + PutU16(width) + PutU16(height)
  {
    RequestBytes(incremental, 0, 0, width, height);
    assert PutU16(0) == [0, 0];
  }

  /** After ServerInit: the pixel format, the encodings, and a full update of the whole screen. */
  lemma GreetingBytes(c: Conn, width: nat, height: nat)
    requires c.attached && c.open && width < 0x1_0000 && height < 0x1_0000 && !TooLarge(width, height)
    ensures StartSession(c, width, height).Done?
    ensures StartSession(c, width, height).conn.sent
            == c.sent + [Encode(SetPixelFormat), Encode(ClientMessages.SetEncodings(ENCODINGS)),
                         [3, 0, 0, 0, 0, 0] + PutU16(width) + PutU16(height)]
  {
    WholeBytes(false, width, height);
  }

  /** Once an update is complete: whatever changes next, anywhere on the screen as it now is. */
  lemma AskBytes(c: Conn)
    requires c.attached && c.open && c.frame.Frame? && FrameFits(c)
    ensures RequestIncremental(c).sent
            == c.sent + [[3, 1, 0, 0, 0, 0] + PutU16(c.frame.screen.width) + PutU16(c.frame.screen.height)]
  {
    WholeBytes(true, c.frame.screen.width, c.frame.screen.height);
  }

  lemma RepaintBytes(c: Conn)
    requires c.attached && c.open && c.frame.Frame? && FrameFits(c)
    ensures Repaint(c)
            == Done(c.(sent :=
                 c.sent + [[3, 0, 0, 0, 0, 0] + PutU16(c.frame.screen.width) + PutU16(c.frame.screen.height)]))
  {
    WholeBytes(false, c.frame.screen.width, c.frame.screen.height);
  }

  /** The pointer may be anywhere on the screen and nowhere else. */
  lemma PointBytes(c: Conn, mask: byte, x: int, y: int)
    requires c.attached && c.open && c.frame.Frame? && FrameFits(c)
    ensures PointTo(c, mask, x, y)
            == if 0 <= x < c.frame.screen.width && 0 <= y < c.frame.screen.height
               then Done(c.(sent := c.sent + [[5, mask] + PutU16(x) + PutU16(y)]))
               else Threw(c, OutsideFrame(x, y))
  {
    if 0 <= x < c.frame.screen.width && 0 <= y < c.frame.screen.height {
      PointerBytes(mask, x, y);
    }
  }

  // --- What a tap sends ---

  function Down(k: nat): seq<byte>
    requires k < 0x1_0000_0000
  {
    [4, 1, 0, 0] + PutU32(k)
  }

  function Up(k: nat): seq<byte>
    requires k < 0x1_0000_0000
  {
    [4, 0, 0, 0] + PutU32(k)
  }

  lemma {:induction false} KeysAt(down: bool, ks: seq<nat>, i: nat)
    requires Keysyms(ks) && i < |ks|
    ensures KeyMessages(down, ks)[i] == if down then Down(ks[i]) else Up(ks[i])
  {
    if i == 0 {
      KeyBytes(down, ks[0]);
    } else {
      KeysAt(down, ks[1..], i - 1);
    }
  }

  lemma {:induction false} ReversedAt(ks: seq<nat>, i: nat)
    requires i < |ks|
    ensures |Reversed(ks)| == |ks| && Reversed(ks)[i] == ks[|ks| - 1 - i]
  {
    if |ks| > 1 {
      ReversedAt(ks[1..], if i < |ks| - 1 then i else 0);
    }
  }

  /** Every key of a combination goes down in the order written, and then every one up in the opposite order. */
  lemma TapBytes(ks: seq<nat>, i: nat)
    requires Keysyms(ks) && i < |ks|
    ensures |Tap(ks)| == 2 * |ks|
    ensures Tap(ks)[i] == Down(ks[i]) && Tap(ks)[|ks| + i] == Up(ks[|ks| - 1 - i])
  {
    KeysAt(true, ks, i);
    ReversedAt(ks, i);
    KeysAt(false, Reversed(ks), i);
  }

  /** Shift goes down before a capital or an upper symbol and up after it; other characters are tapped alone. */
  lemma CharacterBytes(ch: char, k: nat)
    requires k < 0x1_0000_0000
    ensures Tap(KeysOfChar(ch, k))
            == if UpperCase(ch) then [Down(0xffe1), Down(k), Up(k), Up(0xffe1)] else [Down(k), Up(k)]
  {
    var ks := KeysOfChar(ch, k);
    ShiftedIff(ch);
    ShiftIs();
    TapBytes(ks, 0);
    if |ks| == 2 {
      TapBytes(ks, 1);
    }
  }

  // --- What the user's keys send ---

  /** A key held is sent down once, and is remembered after those held before it. */
  lemma HoldBytes(c: Conn, key: string)
    requires c.attached && c.open && CharToKeysym(key).Keysym?
    ensures var k := CharToKeysym(key).value;
            HoldKey(c, key)
            == Done(c.(sent := c.sent + [Down(k)], keys := if k in c.keys then c.keys else c.keys + [k]))
  {
    KeyBytes(true, CharToKeysym(key).value);
  }

  lemma LetGoBytes(c: Conn, key: string)
    requires c.attached && c.open && CharToKeysym(key).Keysym?
    ensures var k := CharToKeysym(key).value;
            && LetGo(c, key).Done? && LetGo(c, key).conn.sent == c.sent + [Up(k)]
            && forall j :: j in LetGo(c, key).conn.keys <==> j in c.keys && j != k
  {
    KeyBytes(false, CharToKeysym(key).value);
  }

  /** A combination is refused whole if it names no key, or is the keysyms of its names in order. */
  lemma {:induction false} ComboKeys(combo: seq<string>)
    ensures match KeysymsOf(combo)
            case Combo(ks) =>
              |ks| == |combo| && forall i :: 0 <= i < |combo| ==> CharToKeysym(combo[i]) == Keysym(ks[i])
            case BadKey(key) => key in combo && CharToKeysym(key).UnknownKey?
  {
    if combo != [] && CharToKeysym(combo[0]).Keysym? {
      ComboKeys(combo[1..]);
    }
  }

  lemma ComboBytes(c: Conn, combo: seq<string>)
    requires c.attached && c.open
    ensures match KeysymsOf(combo)
            case Combo(ks) => PressCombo(c, combo) == Done(c.(sent := c.sent + Tap(ks)))
            case BadKey(key) => PressCombo(c, combo) == Threw(c, NoSuchKey(key))
  {
  }

  /** A character is typed as itself, or as Return or Tab, and any other control character not at all. */
  lemma TypedBytes(c: Conn, ch: char)
    requires c.attached && c.open
    ensures TypeOne(c, ch)
            == if ch == '\n' || ch == '\r' then Done(c.(sent := c.sent + [Down(0xff0d), Up(0xff0d)]))
               else if ch == '\t' then Done(c.(sent := c.sent + [Down(0xff09), Up(0xff09)]))
               else if ch < ' ' || ch == '\U{7f}' then Done(c)
               else if CharToKeysym([ch]).UnknownKey? then Threw(c, NoSuchKey([ch]))
               else Done(c.(sent := c.sent + Tap(KeysOfChar(ch, CharToKeysym([ch]).value))))
  {
    ControlKeys();
    if ch == '\n' || ch == '\r' {
      CharacterBytes(ch, 0xff0d);
    } else if ch == '\t' {
      CharacterBytes(ch, 0xff09);
    }
  }

  /** Every key still held is let go, in the order they were held. */
  lemma ReleaseBytes(c: Conn, i: nat)
    requires c.attached && c.open && Keysyms(c.keys) && i < |c.keys|
    ensures ReleaseKeys(c).keys == [] && |ReleaseKeys(c).sent| == |c.sent| + |c.keys|
    ensures ReleaseKeys(c).sent[..|c.sent|] == c.sent && ReleaseKeys(c).sent[|c.sent| + i] == Up(c.keys[i])
  {
    KeysAt(false, c.keys, i);
  }

  lemma PasteBytes(c: Conn, text: ClipText)
    requires c.attached && c.open
    ensures PasteText(c, text) == Done(c.(sent := c.sent + [[6, 0, 0, 0] + PutU32(|text|) + text]))
  {
    CutTextBytes(text);
  }
}
