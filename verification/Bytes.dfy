/** Bytes and the fixed-width integers RFB carries, all big-endian. */
module Bytes {

  newtype byte = b: int | 0 <= b < 256

  function U16(s: seq<byte>, at: nat): (value: nat)
    requires at + 2 <= |s|
    ensures value < 0x1_0000
  {
    0x100 * s[at] as int + s[at + 1] as int
  }

  function U32(s: seq<byte>, at: nat): (value: nat)
    requires at + 4 <= |s|
    ensures value < 0x1_0000_0000
  {
    0x1_0000 * U16(s, at) + U16(s, at + 2)
  }

  /** The two's complement reading of the same four bytes. */
  function I32(s: seq<byte>, at: nat): (value: int)
    requires at + 4 <= |s|
    ensures -0x8000_0000 <= value < 0x8000_0000
  {
    var raw := U32(s, at);
    if raw < 0x8000_0000 then raw else raw - 0x1_0000_0000
  }

  function PutU16(value: nat): (s: seq<byte>)
    requires value < 0x1_0000
    ensures |s| == 2 && U16(s, 0) == value
  {
    [(value / 0x100) as byte, (value % 0x100) as byte]
  }

  function PutU32(value: nat): (s: seq<byte>)
    requires value < 0x1_0000_0000
    ensures |s| == 4 && U32(s, 0) == value
  {
    PutU16(value / 0x1_0000) + PutU16(value % 0x1_0000)
  }

  function PutI32(value: int): (s: seq<byte>)
    requires -0x8000_0000 <= value < 0x8000_0000
    ensures |s| == 4 && I32(s, 0) == value
  {
    PutU32(if value < 0 then value + 0x1_0000_0000 else value)
  }

  /** The first byte weighs most. */
  lemma BigEndian(a: byte, b: byte, c: byte, d: byte)
    ensures U16([a, b], 0) == 256 * a as int + b as int
    ensures U32([a, b, c, d], 0) == 16777216 * a as int + 65536 * b as int + 256 * c as int + d as int
    ensures I32([a, b, c, d], 0)
            == 16777216 * (if a < 128 then a as int else a as int - 256) + 65536 * b as int + 256 * c as int + d as int
  {
  }

  /** The bytes of a list of buffers, end to end. */
  function Concat<T>(chunks: seq<seq<T>>): seq<T> {
    if chunks == [] then [] else chunks[0] + Concat(chunks[1..])
  }

  lemma {:induction false} ConcatAppend<T>(front: seq<seq<T>>, back: seq<seq<T>>)
    ensures Concat(front + back) == Concat(front) + Concat(back)
  {
    if front == [] {
      assert front + back == back;
    } else {
      assert (front + back)[1..] == front[1..] + back;
      ConcatAppend(front[1..], back);
    }
  }

  lemma ConcatSingle<T>(chunk: seq<T>)
    ensures Concat([chunk]) == chunk
  {
    assert Concat([chunk]) == chunk + Concat([]);
  }

  lemma ConcatPush<T>(chunks: seq<seq<T>>, chunk: seq<T>)
    ensures Concat(chunks + [chunk]) == Concat(chunks) + chunk
  {
    ConcatAppend(chunks, [chunk]);
    ConcatSingle(chunk);
  }

  // --- A buffer cut into rows ---

  /** The bytes in `rows` rows of `stride` bytes, counted a row at a time. */
  function Span(rows: nat, stride: nat): nat {
    if rows == 0 then 0 else stride + Span(rows - 1, stride)
  }

  lemma {:induction false} SpanIs(rows: nat, stride: nat)
    ensures Span(rows, stride) == rows * stride
  {
    if rows != 0 {
      SpanIs(rows - 1, stride);
    }
  }

  ghost predicate RowsOfLength(rows: seq<seq<byte>>, stride: nat) {
    forall y :: 0 <= y < |rows| ==> |rows[y]| == stride
  }

  /** `b` cut into `height` rows of `stride` bytes, first row first. */
  ghost function RowsOf(b: seq<byte>, stride: nat, height: nat): (rows: seq<seq<byte>>)
    requires |b| == Span(height, stride)
    ensures |rows| == height && RowsOfLength(rows, stride)
  {
    if height == 0 then [] else [b[..stride]] + RowsOf(b[stride..], stride, height - 1)
  }

  lemma {:induction false} RowsOfConcat(b: seq<byte>, stride: nat, height: nat)
    requires |b| == Span(height, stride)
    ensures Concat(RowsOf(b, stride, height)) == b
  {
    if height != 0 {
      RowsOfConcat(b[stride..], stride, height - 1);
      assert RowsOf(b, stride, height)[1..] == RowsOf(b[stride..], stride, height - 1);
    }
  }

  lemma {:induction false} ConcatLength(rows: seq<seq<byte>>, stride: nat)
    requires RowsOfLength(rows, stride)
    ensures |Concat(rows)| == Span(|rows|, stride)
  {
    if rows != [] {
      ConcatLength(rows[1..], stride);
    }
  }

  lemma {:induction false} RowsUnique(rows: seq<seq<byte>>, stride: nat)
    requires RowsOfLength(rows, stride)
    ensures |Concat(rows)| == Span(|rows|, stride)
    ensures RowsOf(Concat(rows), stride, |rows|) == rows
  {
    ConcatLength(rows, stride);
    if rows != [] {
      RowsUnique(rows[1..], stride);
      assert Concat(rows)[..stride] == rows[0] && Concat(rows)[stride..] == Concat(rows[1..]);
    }
  }
}
