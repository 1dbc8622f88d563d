/** Terminal input as length-prefixed frames. */
module Pty {
  import opened Bytes
  import opened Numerals

  const INPUT_CHUNK_BYTES := 256
  const ZERO: byte := 48
  const COLON: byte := 58

  /** ASCII, one byte a character. */
  function Octets(s: string): (b: seq<byte>)
    requires AllDigits(s)
    ensures |b| == |s|
  {
    if s == "" then [] else [s[0] as int as byte] + Octets(s[1..])
  }

  /** One input frame: the type, the byte count, the bytes. */
  function Frame(chunk: seq<byte>): seq<byte> {
    [ZERO, COLON] + Octets(Decimal(|chunk|)) + [COLON] + chunk
  }

  /** The pieces a payload is sent in. */
  function Chunks(payload: seq<byte>): (chunks: seq<seq<byte>>)
    decreases |payload|
  {
    if |payload| == 0 then []
    else if |payload| <= INPUT_CHUNK_BYTES then [payload]
    else [payload[..INPUT_CHUNK_BYTES]] + Chunks(payload[INPUT_CHUNK_BYTES..])
  }

  function Frames(chunks: seq<seq<byte>>): (frames: seq<seq<byte>>)
    ensures |frames| == |chunks|
  {
    if chunks == [] then [] else [Frame(chunks[0])] + Frames(chunks[1..])
  }

  /** The chunks of what is left to send from `offset`. */
  function ChunksFrom(payload: seq<byte>, offset: nat): seq<seq<byte>> {
    if offset < |payload| then Chunks(payload[offset..]) else []
  }

  /** The chunk sent from `offset`. */
  function ChunkAt(payload: seq<byte>, offset: nat): seq<byte>
    requires offset < |payload|
  {
    payload[offset..if offset + INPUT_CHUNK_BYTES < |payload| then offset + INPUT_CHUNK_BYTES else |payload|]
  }

  lemma NextChunk(payload: seq<byte>, offset: nat)
    requires offset < |payload|
    ensures ChunksFrom(payload, offset)
            == [ChunkAt(payload, offset)] + ChunksFrom(payload, offset + INPUT_CHUNK_BYTES)
  {
    var rest := payload[offset..];
    if |rest| > INPUT_CHUNK_BYTES {
      assert rest[..INPUT_CHUNK_BYTES] == payload[offset..offset + INPUT_CHUNK_BYTES];
      assert rest[INPUT_CHUNK_BYTES..] == payload[offset + INPUT_CHUNK_BYTES..];
    } else {
      assert rest == payload[offset..|payload|];
    }
  }

  /** The frames sent so far and those still to be sent. */
  function SentAndLeft(frames: seq<seq<byte>>, payload: seq<byte>, offset: nat): seq<seq<byte>> {
    frames + Frames(ChunksFrom(payload, offset))
  }

  lemma FrameNext(frames: seq<seq<byte>>, payload: seq<byte>, offset: nat)
    requires offset < |payload|
    ensures SentAndLeft(frames, payload, offset)
            == SentAndLeft(frames + [Frame(ChunkAt(payload, offset))], payload, offset + INPUT_CHUNK_BYTES)
  {
    NextChunk(payload, offset);
    var first, rest := ChunkAt(payload, offset), ChunksFrom(payload, offset + INPUT_CHUNK_BYTES);
    assert ([first] + rest)[1..] == rest;
    assert Frames([first] + rest) == [Frame(first)] + Frames(rest);
  }

  lemma NothingSent(payload: seq<byte>)
    ensures SentAndLeft([], payload, 0) == Frames(Chunks(payload))
  {
    assert payload[0..] == payload;
  }

  lemma AllSent(frames: seq<seq<byte>>, payload: seq<byte>, offset: nat)
    requires offset >= |payload|
    ensures SentAndLeft(frames, payload, offset) == frames
  {
  }

  /** Input frames for a payload, cut off `INPUT_CHUNK_BYTES` at a time. */
  method InputFrames(payload: seq<byte>) returns (frames: seq<seq<byte>>)
    ensures frames == Frames(Chunks(payload))
  {
    frames := [];
    NothingSent(payload);
    var offset := 0;
    while offset < |payload|
      invariant 0 <= offset && SentAndLeft(frames, payload, offset) == Frames(Chunks(payload))
    {
      FrameNext(frames, payload, offset);
      frames := frames + [Frame(ChunkAt(payload, offset))];
      offset := offset + INPUT_CHUNK_BYTES;
    }
    AllSent(frames, payload, offset);
  }

  // --- What the chunks are ---

  /** Nothing is lost, no frame is empty or over the limit, and there are as few frames as there can be. */
  lemma {:induction false} ChunksCover(payload: seq<byte>)
    ensures Concat(Chunks(payload)) == payload
    ensures forall i :: 0 <= i < |Chunks(payload)| ==> 1 <= |Chunks(payload)[i]| <= 256
    ensures |Chunks(payload)| == (|payload| + 255) / 256
    decreases |payload|
  {
    if |payload| > INPUT_CHUNK_BYTES {
      ChunksCover(payload[INPUT_CHUNK_BYTES..]);
    } else if |payload| > 0 {
      ConcatSingle(payload);
    }
  }

  lemma {:induction false} OctetsAt(s: string, i: nat)
    requires AllDigits(s) && i < |s|
    ensures Octets(s)[i] as int == s[i] as int
  {
    if i != 0 {
      OctetsAt(s[1..], i - 1);
    }
  }

  /** `0:`, the length in decimal, `:`, all in ASCII, and the bytes. */
  lemma FrameIs(chunk: seq<byte>)
    ensures var head := "0:" + Decimal(|chunk|) + ":";
            && |Frame(chunk)| == |head| + |chunk| && Frame(chunk)[|head|..] == chunk
            && forall i :: 0 <= i < |head| ==> Frame(chunk)[i] as int == head[i] as int
  {
    var digits := Decimal(|chunk|);
    var head := "0:" + digits + ":";
    forall i | 0 <= i < |head|
      ensures Frame(chunk)[i] as int == head[i] as int
    {
      if 2 <= i < 2 + |digits| {
        OctetsAt(digits, i - 2);
      }
    }
  }

  // --- The proxy's reading of the stream ---

  datatype Input = Input(payload: seq<byte>) | Malformed

  predicate IsDigitByte(b: byte) { 48 <= b <= 57 }

  /** The digits at the front. */
  function Numeral(s: seq<byte>): (digits: string)
    ensures AllDigits(digits) && |digits| <= |s|
  {
    if s == [] || !IsDigitByte(s[0]) then "" else [s[0] as int as char] + Numeral(s[1..])
  }

  /** The payload of a whole stream of input frames. */
  function Decode(s: seq<byte>): Input
    decreases |s|
  {
    if s == [] then Input([])
    else if |s| < 2 || s[0] != ZERO || s[1] != COLON then Malformed
    else
      var digits := Numeral(s[2..]);
      var start := 2 + |digits| + 1;
      if digits == "" || start > |s| || s[start - 1] != COLON || start + Value(digits) > |s| then Malformed
      else
        match Decode(s[start + Value(digits)..])
        case Malformed => Malformed
        case Input(rest) => Input(s[start..start + Value(digits)] + rest)
  }

  lemma NumeralStep(first: byte, rest: seq<byte>)
    requires IsDigitByte(first)
    ensures Numeral([first] + rest) == [first as int as char] + Numeral(rest)
  {
    assert ([first] + rest)[1..] == rest;
  }

  lemma {:induction false} NumeralReads(digits: string, rest: seq<byte>)
    requires AllDigits(digits) && (rest == [] || !IsDigitByte(rest[0]))
    ensures Numeral(Octets(digits) + rest) == digits
    decreases digits
  {
    if digits == "" {
      assert Octets(digits) + rest == rest;
    } else {
      NumeralReads(digits[1..], rest);
      assert IsDigit(digits[0]);
      var first, tail := digits[0] as int as byte, Octets(digits[1..]);
      NumeralStep(first, tail + rest);
      OctetThen(first, tail, rest);
      assert digits == [first as int as char] + digits[1..];
    }
  }

  lemma OctetThen(first: byte, tail: seq<byte>, rest: seq<byte>)
    ensures ([first] + tail) + rest == [first] + (tail + rest)
  {
  }

  lemma LengthReads(chunk: seq<byte>, rest: seq<byte>)
    ensures var s, digits := Frame(chunk) + rest, Decimal(|chunk|);
            && Numeral(s[2..]) == digits && Value(digits) == |chunk|
            && |s| == 2 + |digits| + 1 + |chunk| + |rest| && s[2 + |digits|] == COLON
  {
    var s, digits := Frame(chunk) + rest, Decimal(|chunk|);
    ValueDecimal(|chunk|);
    var tail := [COLON] + chunk + rest;
    assert tail[0] == COLON && !IsDigitByte(tail[0]);
    NumeralReads(digits, tail);
    assert s[2..] == Octets(digits) + ([COLON] + chunk + rest);
  }

  lemma FrameReads(chunk: seq<byte>, rest: seq<byte>)
    requires Decode(rest).Input?
    ensures Decode(Frame(chunk) + rest) == Input(chunk + Decode(rest).payload)
  {
    LengthReads(chunk, rest);
    var s, start := Frame(chunk) + rest, 2 + |Decimal(|chunk|)| + 1;
    assert s[start..start + |chunk|] == chunk;
    assert s[start + |chunk|..] == rest;
  }

  lemma {:induction false} FramesRead(chunks: seq<seq<byte>>)
    ensures Decode(Concat(Frames(chunks))) == Input(Concat(chunks))
  {
    if chunks != [] {
      FramesRead(chunks[1..]);
      FrameReads(chunks[0], Concat(Frames(chunks[1..])));
      assert Frames(chunks)[1..] == Frames(chunks[1..]);
    }
  }

  /** The proxy recovers exactly the payload sent. */
  lemma InputReadBack(payload: seq<byte>)
    ensures Decode(Concat(Frames(Chunks(payload)))) == Input(payload)
  {
    FramesRead(Chunks(payload));
    ChunksCover(payload);
  }
}
