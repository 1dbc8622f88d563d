/** The challenge response: the cipher's loops, and how a password keys it. */
module VncCipher {
  import opened Bytes
  import opened DesTables
  import opened Des

  // --- The cipher as the code runs it ---

  method BytesToBits(bytes: seq<byte>) returns (bits: Bits)
    ensures bits == ToBits(bytes)
  {
    bits := [];
    var k := 0;
    while k < |bytes|
      invariant 0 <= k <= |bytes|
      invariant ToBits(bytes) == bits + ToBits(bytes[k..])
    {
      var eight := ByteToBits(bytes[k]);
      assert bytes[k..][1..] == bytes[k + 1..];
      bits := bits + eight;
      k := k + 1;
    }
  }

  method ByteToBits(b: byte) returns (bits: Bits)
    ensures bits == ByteBits(b)
  {
    bits := [];
    var i := 8;
    while i > 0
      invariant 0 <= i <= 8
      invariant bits == BitsOf(Shifted(b as nat, i), 8 - i)
    {
      i := i - 1;
      bits := bits + [Bit(Shifted(b as nat, i))];
    }
  }

  /** `v` shifted right by `i` bits. */
  function Shifted(v: nat, i: nat): nat {
    if i == 0 then v else Shifted(v, i - 1) / 2
  }

  lemma FromBitsNext(bits: Bits, i: nat)
    requires i < |bits|
    ensures var end := if i + 8 < |bits| then i + 8 else |bits|;
            FromBits(bits[i..]) == [BitsByte(bits[i..end])] + FromBits(bits[end..])
  {
    if i + 8 <= |bits| {
      assert bits[i..][..8] == bits[i..i + 8] && bits[i..][8..] == bits[i + 8..];
    } else {
      assert bits[i..|bits|] == bits[i..] && bits[|bits|..] == [];
    }
  }

  method BitsToBytes(bits: Bits) returns (bytes: seq<byte>)
    ensures bytes == FromBits(bits)
  {
    bytes := [];
    assert bits[0..] == bits;
    var i := 0;
    while i < |bits|
      invariant 0 <= i
      invariant FromBits(bits) == bytes + FromBits(bits[if i < |bits| then i else |bits|..])
    {
      FromBitsNext(bits, i);
      var end := if i + 8 < |bits| then i + 8 else |bits|;
      bytes := bytes + [BitsByte(bits[i..end])];
      i := i + 8;
    }
  }

  method ExpandKey(key: seq<byte>) returns (keys: seq<Bits>)
    ensures keys == Subkeys(key)
  {
    ShiftsSmall();
    var bits := BytesToBits(key);
    var permuted := Permute(bits, PC1);
    keys := RunSchedule(permuted[..28], permuted[28..]);
  }

  /** One subkey of the schedule, and those after it. */
  lemma ScheduleNext(keys: seq<Bits>, c: Bits, d: Bits, shifts: seq<nat>)
    requires |c| == 28 && |d| == 28 && shifts != [] && forall i :: 0 <= i < |shifts| ==> shifts[i] <= 28
    ensures var c', d' := RotateLeft(c, shifts[0]), RotateLeft(d, shifts[0]);
            keys + Schedule(c, d, shifts) == keys + [Permute(c' + d', PC2)] + Schedule(c', d', shifts[1..])
  {
  }

  method RunSchedule(left: Bits, right: Bits) returns (keys: seq<Bits>)
    requires |left| == 28 && |right| == 28 && |SHIFTS| == 16 && forall i :: 0 <= i < 16 ==> SHIFTS[i] <= 28
    ensures keys == Schedule(left, right, SHIFTS)
  {
    var c, d := left, right;
    keys := [];
    var i := 0;
    while i < |SHIFTS|
      invariant 0 <= i <= |SHIFTS| && |c| == 28 && |d| == 28
      invariant Schedule(left, right, SHIFTS) == keys + Schedule(c, d, SHIFTS[i..])
    {
      ScheduleNext(keys, c, d, SHIFTS[i..]);
      c := RotateLeft(c, SHIFTS[i]);
      d := RotateLeft(d, SHIFTS[i]);
      keys := keys + [Permute(c + d, PC2)];
      assert SHIFTS[i..][1..] == SHIFTS[i + 1..];
      i := i + 1;
    }
  }

  method Feistel(right: Bits, subkey: Bits) returns (mixed: Bits)
    ensures mixed == F(right, subkey)
  {
    ShiftsSmall();
    var out := Substitute(Xor(Permute(right, E), subkey));
    mixed := Permute(out, P);
  }

  lemma BoxNext(expanded: Bits, box: nat)
    requires |expanded| == 48 && box < 8
    ensures BoxesOut(expanded, box + 1) == BoxesOut(expanded, box) + BoxOut(box, expanded[box * 6..box * 6 + 6])
  {
  }

  method Substitute(expanded: Bits) returns (out: Bits)
    requires |expanded| == 48
    ensures out == BoxesOut(expanded, BOXES)
  {
    out := [];
    var box := 0;
    while box < BOXES
      invariant 0 <= box <= BOXES
      invariant out == BoxesOut(expanded, box)
    {
      BoxNext(expanded, box);
      out := out + BoxOut(box, expanded[box * 6..box * 6 + 6]);
      box := box + 1;
    }
  }

  lemma RoundNext(left: Bits, right: Bits, keys: seq<Bits>)
    requires |left| == 32 && |right| == 32 && keys != []
    ensures Rounds(left, right, keys) == Rounds(right, Xor(left, F(right, keys[0])), keys[1..])
  {
  }

  method DesEncryptBlock(key: seq<byte>, block: seq<byte>) returns (cipher: seq<byte>)
    ensures cipher == Encrypt(key, block)
  {
    ShiftsSmall();
    var keys := ExpandKey(key);
    var plain := BytesToBits(block);
    var bits := Permute(plain, IP);
    var left, right := bits[..32], bits[32..];
    var i := 0;
    while i < |keys|
      invariant 0 <= i <= |keys| && |left| == 32 && |right| == 32
      invariant Rounds(bits[..32], bits[32..], keys) == Rounds(left, right, keys[i..])
    {
      RoundNext(left, right, keys[i..]);
      var mixed := Feistel(right, keys[i]);
      left, right := right, Xor(left, mixed);
      assert keys[i..][1..] == keys[i + 1..];
      i := i + 1;
    }
    cipher := BitsToBytes(Permute(right + left, FP));
  }

  // --- Keying by a password ---

  /** The byte with its bits in the opposite order. */
  function ReversedByte(b: byte): byte {
    BitsByte(Reverse(ByteBits(b)))
  }

  /** Byte `i` of the password, zero past its end. */
  function PasswordByte(password: seq<byte>, i: nat): byte {
    if i < |password| then password[i] else 0
  }

  function VncKeyFrom(password: seq<byte>, i: nat): (key: seq<byte>)
    requires i <= 8
    ensures |key| == 8 - i
    ensures forall k :: 0 <= k < |key| ==> key[k] == ReversedByte(PasswordByte(password, i + k))
    decreases 8 - i
  {
    if i == 8 then [] else [ReversedByte(PasswordByte(password, i))] + VncKeyFrom(password, i + 1)
  }

  /** The password cut or zero-padded to eight bytes, each reversed. */
  function VncKey(password: seq<byte>): (key: seq<byte>)
    ensures |key| == 8
  {
    VncKeyFrom(password, 0)
  }

  /** The answer to a challenge: its two blocks encrypted independently. */
  function VncEncrypt(password: seq<byte>, challenge: seq<byte>): (answer: seq<byte>)
    requires |challenge| == 16
    ensures |answer| == 16
  {
    Encrypt(VncKey(password), challenge[..8]) + Encrypt(VncKey(password), challenge[8..])
  }

  /** The low `n` bits of `v`, least significant first. */
  function LowBits(v: nat, n: nat): (bits: Bits)
    ensures |bits| == n
  {
    if n == 0 then [] else [Bit(v)] + LowBits(v / 2, n - 1)
  }

  lemma {:induction false} LowBitsReverse(v: nat, n: nat)
    ensures LowBits(v, n) == Reverse(BitsOf(v, n))
  {
    if n != 0 {
      LowBitsReverse(v / 2, n - 1);
      ReverseLast(BitsOf(v / 2, n - 1), Bit(v));
    }
  }

  method ReverseBits(b: byte) returns (reversed: byte)
    ensures reversed == ReversedByte(b)
  {
    var r, v := 0, b as nat;
    ghost var bits: Bits := [];
    var i := 0;
    while i < 8
      invariant 0 <= i <= 8 && |bits| == i
      invariant r == Fold(0, bits)
      invariant LowBits(b as nat, 8) == bits + LowBits(v, 8 - i)
    {
      FoldLast(0, bits, Bit(v));
      r := Push(r, Bit(v));
      bits := bits + [Bit(v)];
      v := v / 2;
      i := i + 1;
    }
    LowBitsReverse(b as nat, 8);
    assert bits + [] == bits;
    FoldBound(0, bits, 0);
    reversed := r as byte;
  }

  /** The password's first eight bytes, bit-reversed and padded with zeros. */
  method KeyOf(password: seq<byte>) returns (key: array<byte>)
    ensures key[..] == VncKey(password)
  {
    key := new byte[8](_ => 0);
    var i := 0;
    while i < 8
      invariant 0 <= i <= 8
      invariant forall k :: 0 <= k < i ==> key[k] == ReversedByte(PasswordByte(password, k))
    {
      var r := ReverseBits(PasswordByte(password, i));
      key[i] := r;
      i := i + 1;
    }
  }

  method VncDesEncrypt(password: seq<byte>, challenge: seq<byte>) returns (answer: seq<byte>)
    requires |challenge| == 16
    ensures answer == VncEncrypt(password, challenge)
  {
    var key := KeyOf(password);
    var first := DesEncryptBlock(key[..], challenge[..8]);
    var second := DesEncryptBlock(key[..], challenge[8..]);
    answer := first + second;
  }

  lemma AnswerHalves(password: seq<byte>, challenge: seq<byte>)
    requires |challenge| == 16
    ensures VncEncrypt(password, challenge)[..8] == Encrypt(VncKey(password), challenge[..8])
    ensures VncEncrypt(password, challenge)[8..] == Encrypt(VncKey(password), challenge[8..])
  {
  }

  /** The server, holding the same password, recovers both halves of the challenge it sent. */
  lemma ChallengeRecovered(password: seq<byte>, challenge: seq<byte>)
    requires |challenge| == 16
    ensures Decrypt(VncKey(password), VncEncrypt(password, challenge)[..8]) == challenge[..8]
    ensures Decrypt(VncKey(password), VncEncrypt(password, challenge)[8..]) == challenge[8..]
  {
    AnswerHalves(password, challenge);
    DecryptEncrypt(VncKey(password), challenge[..8]);
    DecryptEncrypt(VncKey(password), challenge[8..]);
  }

  // --- The key bits DES reads are the seven low bits of each character ---

  /** Where PC1 puts each bit it reads: row `i` holds bits 1 to 7 of key byte `i`. */
  const PC1_INVERSE: seq<nat> :=
    [7, 15, 23, 55, 51, 43, 35]
    + [6, 14, 22, 54, 50, 42, 34]
    + [5, 13, 21, 53, 49, 41, 33]
    + [4, 12, 20, 52, 48, 40, 32]
    + [3, 11, 19, 27, 47, 39, 31]
    + [2, 10, 18, 26, 46, 38, 30]
    + [1, 9, 17, 25, 45, 37, 29]
    + [0, 8, 16, 24, 44, 36, 28]

  /** The 56 key bits the cipher keeps. */
  function KeyRead(password: seq<byte>): Bits {
    Permute(ToBits(VncKey(password)), PC1)
  }

  lemma PC1Skips(k: nat)
    requires k < 56
    ensures |PC1| == 56 && 1 <= PC1[k] <= 64 && PC1[k] % 8 != 0
  {
  }

  lemma PC1Reads(j: nat, i: nat)
    requires j < 8 && i < 7
    ensures |PC1| == 56 && |PC1_INVERSE| == 56
    ensures PC1_INVERSE[7 * j + i] < 56 && PC1[PC1_INVERSE[7 * j + i]] == 8 * j + i + 1
  {
    if j < 2 { PC1ReadsFirst(j, i); }
    else if j < 4 { PC1ReadsSecond(j, i); }
    else if j < 6 { PC1ReadsThird(j, i); }
    else { PC1ReadsFourth(j, i); }
  }

  lemma PC1ReadsFirst(j: nat, i: nat)
    requires j < 2 && i < 7
    ensures PC1_INVERSE[7 * j + i] < 56 && PC1[PC1_INVERSE[7 * j + i]] == 8 * j + i + 1
  {
  }

  lemma PC1ReadsSecond(j: nat, i: nat)
    requires 2 <= j < 4 && i < 7
    ensures PC1_INVERSE[7 * j + i] < 56 && PC1[PC1_INVERSE[7 * j + i]] == 8 * j + i + 1
  {
  }

  lemma PC1ReadsThird(j: nat, i: nat)
    requires 4 <= j < 6 && i < 7
    ensures PC1_INVERSE[7 * j + i] < 56 && PC1[PC1_INVERSE[7 * j + i]] == 8 * j + i + 1
  {
  }

  lemma PC1ReadsFourth(j: nat, i: nat)
    requires 6 <= j < 8 && i < 7
    ensures PC1_INVERSE[7 * j + i] < 56 && PC1[PC1_INVERSE[7 * j + i]] == 8 * j + i + 1
  {
  }

  lemma {:induction false} ToBitsAt(bytes: seq<byte>, j: nat, i: nat)
    requires j < |bytes| && i < 8
    ensures ToBits(bytes)[8 * j + i] == ByteBits(bytes[j])[i]
  {
    if j != 0 {
      ToBitsAt(bytes[1..], j - 1, i);
    }
  }

  /** Key bit `i` of byte `j` is bit `i` of the character, counted from the low end. */
  lemma KeyBit(password: seq<byte>, j: nat, i: nat)
    requires j < 8 && i < 8
    ensures BitAt(ToBits(VncKey(password)), 8 * j + i + 1) == LowBits(PasswordByte(password, j) as nat, 8)[i]
  {
    var b := PasswordByte(password, j);
    ToBitsAt(VncKey(password), j, i);
    BitsOfFold(Reverse(ByteBits(b)));
    LowBitsReverse(b as nat, 8);
  }

  lemma {:induction false} LowBitsPrefix(v: nat, n: nat)
    ensures LowBits(v, n + 1)[..n] == LowBits(v, n)
  {
    if n != 0 {
      LowBitsPrefix(v / 2, n - 1);
    }
  }

  /** The low seven bits of character `j`, least significant first. */
  function SevenBits(password: seq<byte>, j: nat): Bits {
    LowBits(PasswordByte(password, j) as nat, 7)
  }

  ghost predicate SameSevenBits(a: seq<byte>, b: seq<byte>) {
    forall j: nat :: j < 8 ==> SevenBits(a, j) == SevenBits(b, j)
  }

  lemma SevenBitAt(password: seq<byte>, j: nat, i: nat)
    requires j < 8 && i < 7
    ensures BitAt(ToBits(VncKey(password)), 8 * j + i + 1) == SevenBits(password, j)[i]
  {
    KeyBit(password, j, i);
    LowBitsPrefix(PasswordByte(password, j) as nat, 7);
  }

  lemma KeyReadSameAt(a: seq<byte>, b: seq<byte>, k: nat)
    requires SameSevenBits(a, b) && k < 56
    ensures |PC1| == 56 && BitAt(ToBits(VncKey(a)), PC1[k]) == BitAt(ToBits(VncKey(b)), PC1[k])
  {
    PC1Skips(k);
    SameBitAt(a, b, PC1[k]);
  }

  lemma SameBitAt(a: seq<byte>, b: seq<byte>, place: nat)
    requires SameSevenBits(a, b) && 1 <= place <= 64 && place % 8 != 0
    ensures BitAt(ToBits(VncKey(a)), place) == BitAt(ToBits(VncKey(b)), place)
  {
    var j, i := place / 8, place % 8 - 1;
    assert place == 8 * j + i + 1;
    SevenBitAt(a, j, i);
    SevenBitAt(b, j, i);
    assert SevenBits(a, j) == SevenBits(b, j);
  }

  lemma KeyReadSame(a: seq<byte>, b: seq<byte>)
    requires SameSevenBits(a, b)
    ensures KeyRead(a) == KeyRead(b)
  {
    ShiftsSmall();
    forall k | 0 <= k < 56
      ensures BitAt(ToBits(VncKey(a)), PC1[k]) == BitAt(ToBits(VncKey(b)), PC1[k])
    {
      KeyReadSameAt(a, b, k);
    }
    SelectSame(ToBits(VncKey(a)), ToBits(VncKey(b)), PC1);
  }

  lemma SelectSame(a: Bits, b: Bits, table: seq<nat>)
    requires forall k :: 0 <= k < |table| ==> BitAt(a, table[k]) == BitAt(b, table[k])
    ensures Permute(a, table) == Permute(b, table)
  {
  }

  lemma KeyReadDiffers(a: seq<byte>, b: seq<byte>, j: nat)
    requires KeyRead(a) == KeyRead(b) && j < 8
    ensures SevenBits(a, j) == SevenBits(b, j)
  {
    forall i | 0 <= i < 7
      ensures SevenBits(a, j)[i] == SevenBits(b, j)[i]
    {
      PC1Reads(j, i);
      var k := PC1_INVERSE[7 * j + i];
      assert KeyRead(a)[k] == KeyRead(b)[k];
      SevenBitAt(a, j, i);
      SevenBitAt(b, j, i);
    }
  }

  /**
   * The bits the cipher reads are exactly the seven low bits of each of the
   * first eight characters, a short password counting as padded with zeros.
   */
  lemma KeyReadIsSevenBits(a: seq<byte>, b: seq<byte>)
    ensures KeyRead(a) == KeyRead(b) <==> SameSevenBits(a, b)
  {
    if SameSevenBits(a, b) {
      KeyReadSame(a, b);
    }
    if KeyRead(a) == KeyRead(b) {
      forall j: nat | j < 8
        ensures SevenBits(a, j) == SevenBits(b, j)
      {
        KeyReadDiffers(a, b, j);
      }
    }
  }

  /** Passwords that agree in those bits answer every challenge alike. */
  lemma SameAnswer(a: seq<byte>, b: seq<byte>, challenge: seq<byte>)
    requires |challenge| == 16 && SameSevenBits(a, b)
    ensures VncEncrypt(a, challenge) == VncEncrypt(b, challenge)
  {
    KeyReadSame(a, b);
    assert Subkeys(VncKey(a)) == Subkeys(VncKey(b));
  }
}
