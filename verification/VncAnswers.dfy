/** A known answer to a VNC challenge, from the password to the sixteen bytes sent. */
module VncAnswers {
  import opened Bytes
  import opened Des
  import opened SBoxes
  import opened DesAnswers
  import opened VncCipher

  /** The bits of a reversed byte stand in the opposite order. */
  lemma ReversedBits(b: byte)
    ensures ByteBits(ReversedByte(b)) == Reverse(ByteBits(b))
  {
    BitsOfFold(Reverse(ByteBits(b)));
  }

  /** A byte is no more than its bits. */
  lemma SameBits(a: byte, b: byte)
    requires ByteBits(a) == ByteBits(b)
    ensures a == b
  {
    FoldOfBits(a as nat, 8);
    FoldOfBits(b as nat, 8);
  }

  lemma ReverseEight(s: Bits)
    requires |s| == 8
    ensures Reverse(s) == [s[7], s[6], s[5], s[4]] + [s[3], s[2], s[1], s[0]]
  {
    forall i: nat | i < 8
      ensures Reverse(s)[i] == s[7 - i]
    {
      ReverseAt(s, i);
    }
  }

  lemma {:induction false} ReverseAt(s: Bits, i: nat)
    requires i < |s|
    ensures Reverse(s)[i] == s[|s| - 1 - i]
  {
    if i < |s| - 1 {
      ReverseAt(s[1..], i);
    }
  }

  /** Two lists of four bits are mirror images. */
  predicate Mirrors(a: Bits, b: Bits)
    requires |a| == 4 && |b| == 4
  {
    a[0] == b[3] && a[1] == b[2] && a[2] == b[1] && a[3] == b[0]
  }

  lemma ReverseHalves(hi: Bits, lo: Bits, up: Bits, down: Bits, all: Bits)
    requires |hi| == 4 && |lo| == 4 && |up| == 4 && |down| == 4 && Mirrors(hi, down) && Mirrors(lo, up)
    requires all == hi + lo
    ensures Reverse(all) == up + down
  {
    ReverseEight(all);
  }

  lemma MirrorByte(b: byte, r: byte)
    requires Reverse(ByteBits(b)) == ByteBits(r)
    ensures ReversedByte(b) == r
  {
    ReversedBits(b);
    SameBits(ReversedByte(b), r);
  }

  /** A byte of half bytes `hi` and `lo`, reversed, has half bytes `up` and `down`. */
  lemma ReversedIs(b: byte, r: byte, hi: nat, lo: nat, up: nat, down: nat)
    requires hi < 16 && lo < 16 && up < 16 && down < 16
    requires b as nat == 16 * hi + lo && r as nat == 16 * up + down
    requires Mirrors(Nibble(hi), Nibble(down)) && Mirrors(Nibble(lo), Nibble(up))
    ensures ReversedByte(b) == r
  {
    ByteIs(hi, lo);
    ByteIs(up, down);
    ReverseHalves(Nibble(hi), Nibble(lo), Nibble(up), Nibble(down), ByteBits(b));
    MirrorByte(b, r);
  }

  const PASSWORD: seq<byte> := [0xc8, 0x2c, 0xea, 0x9e, 0xd9, 0x3d, 0xfb, 0x8f]

  /** Byte `i` of the key is that of the password reversed. */
  ghost predicate Keyed(password: seq<byte>, key: seq<byte>, i: nat)
    requires |password| == 8 && |key| == 8 && i < 8
  {
    forall k {:trigger Open(k)} :: Open(k) ==> ReversedByte(password[i]) == key[i]
  }

  lemma FirstByte(password: seq<byte>, key: seq<byte>)
    requires |password| == 8 && |key| == 8 && password[0] == 0xc8 && key[0] == 0x13
    ensures Keyed(password, key, 0)
  {
    ReversedIs(password[0], key[0], 0xc, 0x8, 0x1, 0x3);
  }

  lemma SecondByte(password: seq<byte>, key: seq<byte>)
    requires |password| == 8 && |key| == 8 && password[1] == 0x2c && key[1] == 0x34
    ensures Keyed(password, key, 1)
  {
    ReversedIs(password[1], key[1], 0x2, 0xc, 0x3, 0x4);
  }

  lemma ThirdByte(password: seq<byte>, key: seq<byte>)
    requires |password| == 8 && |key| == 8 && password[2] == 0xea && key[2] == 0x57
    ensures Keyed(password, key, 2)
  {
    ReversedIs(password[2], key[2], 0xe, 0xa, 0x5, 0x7);
  }

  lemma FourthByte(password: seq<byte>, key: seq<byte>)
    requires |password| == 8 && |key| == 8 && password[3] == 0x9e && key[3] == 0x79
    ensures Keyed(password, key, 3)
  {
    ReversedIs(password[3], key[3], 0x9, 0xe, 0x7, 0x9);
  }

  lemma FifthByte(password: seq<byte>, key: seq<byte>)
    requires |password| == 8 && |key| == 8 && password[4] == 0xd9 && key[4] == 0x9b
    ensures Keyed(password, key, 4)
  {
    ReversedIs(password[4], key[4], 0xd, 0x9, 0x9, 0xb);
  }

  lemma SixthByte(password: seq<byte>, key: seq<byte>)
    requires |password| == 8 && |key| == 8 && password[5] == 0x3d && key[5] == 0xbc
    ensures Keyed(password, key, 5)
  {
    ReversedIs(password[5], key[5], 0x3, 0xd, 0xb, 0xc);
  }

  lemma SeventhByte(password: seq<byte>, key: seq<byte>)
    requires |password| == 8 && |key| == 8 && password[6] == 0xfb && key[6] == 0xdf
    ensures Keyed(password, key, 6)
  {
    ReversedIs(password[6], key[6], 0xf, 0xb, 0xd, 0xf);
  }

  lemma EighthByte(password: seq<byte>, key: seq<byte>)
    requires |password| == 8 && |key| == 8 && password[7] == 0x8f && key[7] == 0xf1
    ensures Keyed(password, key, 7)
  {
    ReversedIs(password[7], key[7], 0x8, 0xf, 0xf, 0x1);
  }

  lemma KeyedIs(password: seq<byte>, key: seq<byte>, i: nat)
    requires |password| == 8 && |key| == 8 && i < 8 && Keyed(password, key, i)
    ensures VncKey(password)[i] == key[i]
  {
    assert Open(0);
    assert VncKey(password)[i] == ReversedByte(PasswordByte(password, i));
  }

  lemma FrontKeyed(password: seq<byte>, key: seq<byte>)
    requires password == PASSWORD && key == KEY
    ensures |password| == 8 && |key| == 8
    ensures Keyed(password, key, 0) && Keyed(password, key, 1) && Keyed(password, key, 2) && Keyed(password, key, 3)
  {
    FirstByte(password, key);
    SecondByte(password, key);
    ThirdByte(password, key);
    FourthByte(password, key);
  }

  lemma BackKeyed(password: seq<byte>, key: seq<byte>)
    requires password == PASSWORD && key == KEY
    ensures |password| == 8 && |key| == 8
    ensures Keyed(password, key, 4) && Keyed(password, key, 5) && Keyed(password, key, 6) && Keyed(password, key, 7)
  {
    FifthByte(password, key);
    SixthByte(password, key);
    SeventhByte(password, key);
    EighthByte(password, key);
  }

  lemma AllKeyed(password: seq<byte>, key: seq<byte>)
    requires |password| == 8 && |key| == 8
    requires Keyed(password, key, 0) && Keyed(password, key, 1) && Keyed(password, key, 2) && Keyed(password, key, 3)
    requires Keyed(password, key, 4) && Keyed(password, key, 5) && Keyed(password, key, 6) && Keyed(password, key, 7)
    ensures VncKey(password) == key
  {
    forall i: nat | i < 8
      ensures VncKey(password)[i] == key[i]
    {
      KeyedIs(password, key, i);
    }
  }

  lemma PasswordIsKey(password: seq<byte>, key: seq<byte>)
    requires password == PASSWORD && key == KEY
    ensures VncKey(password) == key
  {
    FrontKeyed(password, key);
    BackKeyed(password, key);
    AllKeyed(password, key);
  }

  /** A session with this password answers the block twice over with the known answer twice over. */
  lemma KnownChallenge()
    ensures |BLOCK| == 8 && VncEncrypt(PASSWORD, BLOCK + BLOCK) == ANSWER + ANSWER
  {
    PasswordIsKey(PASSWORD, KEY);
    KnownAnswer();
    AnswerTwice(PASSWORD, KEY, BLOCK, ANSWER);
  }

  lemma AnswerTwice(password: seq<byte>, key: seq<byte>, block: seq<byte>, answer: seq<byte>)
    requires VncKey(password) == key && |block| == 8 && Encrypt(key, block) == answer
    ensures VncEncrypt(password, block + block) == answer + answer
  {
    assert (block + block)[..8] == block && (block + block)[8..] == block;
  }
}
