/**
 * DES (FIPS 46-3) as the VNC challenge uses it, on lists of bits, and two laws
 * of the cipher that follow from its structure: the same rounds with the
 * subkeys reversed undo it, and complementing key and block complements the
 * result.
 */
module Des {
  import opened Bytes
  import opened DesTables

  type Bits = seq<bool>

  // --- Bits and bytes ---

  function Bit(v: nat): bool { v % 2 == 1 }

  /** The low `n` bits of `v`, most significant first: each is what is left after that many right shifts. */
  function BitsOf(v: nat, n: nat): (bits: Bits)
    ensures |bits| == n
  {
    if n == 0 then [] else BitsOf(v / 2, n - 1) + [Bit(v)]
  }

  function ByteBits(b: byte): (bits: Bits)
    ensures |bits| == 8
  {
    BitsOf(b as nat, 8)
  }

  function ToBits(bytes: seq<byte>): (bits: Bits)
    ensures |bits| == 8 * |bytes|
  {
    if bytes == [] then [] else ByteBits(bytes[0]) + ToBits(bytes[1..])
  }

  function Weight(bit: bool): nat { if bit then 1 else 0 }

  function Push(acc: nat, bit: bool): nat { acc * 2 + Weight(bit) }

  /** Shifts the bits into `acc`, first bit first. */
  function Fold(acc: nat, bits: Bits): nat
    decreases bits
  {
    if bits == [] then acc else Fold(Push(acc, bits[0]), bits[1..])
  }

  /** The byte up to eight bits spell. */
  function BitsByte(bits: Bits): byte
    requires |bits| <= 8
  {
    FoldBound(0, bits, 0);
    Fold(0, bits) as byte
  }

  function FromBits(bits: Bits): (bytes: seq<byte>)
    ensures |bytes| == (|bits| + 7) / 8
    decreases |bits|
  {
    if |bits| == 0 then []
    else if |bits| < 8 then [BitsByte(bits)]
    else [BitsByte(bits[..8])] + FromBits(bits[8..])
  }

  function Pow2(k: nat): (p: nat)
    ensures p > 0
  {
    if k == 0 then 1 else 2 * Pow2(k - 1)
  }

  lemma {:induction false} FoldBound(acc: nat, bits: Bits, k: nat)
    requires k + |bits| <= 8 && acc < Pow2(k)
    ensures Fold(acc, bits) < Pow2(k + |bits|) <= 256
    decreases bits
  {
    if bits == [] {
      Pow2Grows(k, 8);
    } else {
      FoldBound(Push(acc, bits[0]), bits[1..], k + 1);
    }
  }

  lemma {:induction false} Pow2Grows(k: nat, n: nat)
    requires k <= n
    ensures Pow2(k) <= Pow2(n) && Pow2(8) == 256
    decreases n - k
  {
    if k != n {
      Pow2Grows(k + 1, n);
    }
    assert Pow2(8) == 2 * (2 * (2 * (2 * (2 * (2 * (2 * (2 * Pow2(0))))))));
  }

  lemma {:induction false} FoldLast(acc: nat, bits: Bits, bit: bool)
    ensures Fold(acc, bits + [bit]) == Push(Fold(acc, bits), bit)
    decreases bits
  {
    if bits == [] {
      assert [bit][1..] == [];
    } else {
      assert (bits + [bit])[1..] == bits[1..] + [bit];
      FoldLast(Push(acc, bits[0]), bits[1..], bit);
    }
  }

  lemma {:induction false} FoldOfBits(v: nat, n: nat)
    requires n <= 8 && v < Pow2(n)
    ensures Fold(0, BitsOf(v, n)) == v
  {
    if n != 0 {
      FoldOfBits(v / 2, n - 1);
      FoldLast(0, BitsOf(v / 2, n - 1), Bit(v));
    }
  }

  lemma {:induction false} BitsOfFold(bits: Bits)
    ensures BitsOf(Fold(0, bits), |bits|) == bits
  {
    if bits != [] {
      var front, last := bits[..|bits| - 1], bits[|bits| - 1];
      assert bits == front + [last];
      FoldLast(0, front, last);
      BitsOfFold(front);
    }
  }

  lemma {:induction false} BytesRoundTrip(bytes: seq<byte>)
    ensures FromBits(ToBits(bytes)) == bytes
  {
    if bytes != [] {
      var bits := ToBits(bytes);
      assert bits[..8] == ByteBits(bytes[0]) && bits[8..] == ToBits(bytes[1..]);
      Pow2Grows(8, 8);
      FoldOfBits(bytes[0] as nat, 8);
      BytesRoundTrip(bytes[1..]);
    }
  }

  lemma {:induction false} BitsRoundTrip(bits: Bits)
    requires |bits| % 8 == 0
    ensures ToBits(FromBits(bits)) == bits
  {
    if bits != [] {
      BitsOfFold(bits[..8]);
      BitsRoundTrip(bits[8..]);
      assert bits == bits[..8] + bits[8..];
    }
  }

  // --- The cipher on bits ---

  /** The bit at a 1-based position; a position past the end reads as 0. */
  function BitAt(bits: Bits, position: nat): bool {
    if 1 <= position <= |bits| then bits[position - 1] else false
  }

  function Permute(bits: Bits, table: seq<nat>): (out: Bits)
    ensures |out| == |table|
    ensures forall i :: 0 <= i < |table| ==> out[i] == BitAt(bits, table[i])
  {
    if table == [] then [] else [BitAt(bits, table[0])] + Permute(bits, table[1..])
  }

  function XorFrom(a: Bits, b: Bits, i: nat): (out: Bits)
    requires i <= |a|
    ensures |out| == |a| - i
    ensures forall k :: 0 <= k < |out| ==> out[k] == (a[i + k] != BitAt(b, i + k + 1))
    decreases |a| - i
  {
    if i == |a| then [] else [a[i] != BitAt(b, i + 1)] + XorFrom(a, b, i + 1)
  }

  function Xor(a: Bits, b: Bits): (out: Bits)
    ensures |out| == |a|
    ensures forall i :: 0 <= i < |a| ==> out[i] == (a[i] != BitAt(b, i + 1))
  {
    XorFrom(a, b, 0)
  }

  function RotateLeft(half: Bits, count: nat): (out: Bits)
    requires count <= |half|
    ensures |out| == |half|
  {
    half[count..] + half[..count]
  }

  /** One subkey per shift, each from the halves as rotated so far. */
  function Schedule(c: Bits, d: Bits, shifts: seq<nat>): (keys: seq<Bits>)
    requires |c| == 28 && |d| == 28 && forall i :: 0 <= i < |shifts| ==> shifts[i] <= 28
    ensures |keys| == |shifts|
    decreases shifts
  {
    if shifts == [] then []
    else
      var c', d' := RotateLeft(c, shifts[0]), RotateLeft(d, shifts[0]);
      [Permute(c' + d', PC2)] + Schedule(c', d', shifts[1..])
  }

  function Subkeys(key: seq<byte>): (keys: seq<Bits>)
    ensures |keys| == 16
  {
    var permuted := Permute(ToBits(key), PC1);
    ShiftsSmall();
    Schedule(permuted[..28], permuted[28..], SHIFTS)
  }

  lemma ShiftsSmall()
    ensures |SHIFTS| == 16 && forall i :: 0 <= i < |SHIFTS| ==> SHIFTS[i] <= 28
    ensures |PC1| == 56 && |PC2| == 48 && |IP| == 64 && |FP| == 64 && |E| == 48 && |P| == 32
  {
  }

  /** Entry `k` of a table. */
  function Entry(table: seq<nat>, k: nat): nat
    requires k < |table|
  {
    if k == 0 then table[0] else Entry(table[1..], k - 1)
  }

  lemma {:induction false} EntryIs(table: seq<nat>, k: nat)
    requires k < |table|
    ensures Entry(table, k) == table[k]
  {
    if k != 0 {
      EntryIs(table[1..], k - 1);
    }
  }

  /** The four bits box `box` puts out for six bits in. */
  function BoxOut(box: nat, six: Bits): (out: Bits)
    requires box < 8 && |six| == 6
    ensures |out| == 4
  {
    var row := 2 * Weight(six[0]) + Weight(six[5]);
    var column := 8 * Weight(six[1]) + 4 * Weight(six[2]) + 2 * Weight(six[3]) + Weight(six[4]);
    BoxSize(box);
    var value := Entry(SBOX[box], row * 16 + column);
    [value / 8 % 2 == 1, value / 4 % 2 == 1, value / 2 % 2 == 1, value % 2 == 1]
  }

  lemma BoxSize(box: nat)
    requires box < 8
    ensures |SBOX| == 8 && |SBOX[box]| == 64
  {
  }

  const BOXES: nat := 8

  /** What the first `n` boxes make of the expanded half, six bits to each. */
  function BoxesOut(expanded: Bits, n: nat): (out: Bits)
    requires |expanded| == 48 && n <= 8
    ensures |out| == 4 * n
  {
    if n == 0 then [] else BoxesOut(expanded, n - 1) + BoxOut(n - 1, expanded[(n - 1) * 6..(n - 1) * 6 + 6])
  }

  function F(right: Bits, subkey: Bits): (out: Bits)
    ensures |out| == 32
  {
    ShiftsSmall();
    Permute(BoxesOut(Xor(Permute(right, E), subkey), BOXES), P)
  }

  /** The rounds: each swaps the halves and mixes one with the next subkey. */
  function Rounds(left: Bits, right: Bits, keys: seq<Bits>): (halves: (Bits, Bits))
    requires |left| == 32 && |right| == 32
    ensures |halves.0| == 32 && |halves.1| == 32
    decreases keys
  {
    if keys == [] then (left, right) else Rounds(right, Xor(left, F(right, keys[0])), keys[1..])
  }

  function Crypt(keys: seq<Bits>, block: Bits): (out: Bits)
    ensures |out| == 64
  {
    ShiftsSmall();
    var bits := Permute(block, IP);
    var halves := Rounds(bits[..32], bits[32..], keys);
    Permute(halves.1 + halves.0, FP)
  }

  function Encrypt(key: seq<byte>, block: seq<byte>): (out: seq<byte>)
    ensures |out| == 8
  {
    FromBits(Crypt(Subkeys(key), ToBits(block)))
  }

  function Reverse<T>(s: seq<T>): (r: seq<T>)
    ensures |r| == |s|
  {
    if s == [] then [] else Reverse(s[1..]) + [s[0]]
  }

  /** The same algorithm with the subkeys in reverse order. */
  function Decrypt(key: seq<byte>, block: seq<byte>): (out: seq<byte>)
    ensures |out| == 8
  {
    FromBits(Crypt(Reverse(Subkeys(key)), ToBits(block)))
  }

  // --- Decryption undoes encryption ---

  lemma FPUndoesIP0(i: nat)
    requires 0 <= i < 16
    ensures 1 <= FP[i] <= 64 && IP[FP[i] - 1] == i + 1
  {
  }

  lemma FPUndoesIP1(i: nat)
    requires 16 <= i < 32
    ensures 1 <= FP[i] <= 64 && IP[FP[i] - 1] == i + 1
  {
  }

  lemma FPUndoesIP2(i: nat)
    requires 32 <= i < 48
    ensures 1 <= FP[i] <= 64 && IP[FP[i] - 1] == i + 1
  {
  }

  lemma FPUndoesIP3(i: nat)
    requires 48 <= i < 64
    ensures 1 <= FP[i] <= 64 && IP[FP[i] - 1] == i + 1
  {
  }

  lemma FPUndoesIP(i: nat)
    requires i < 64
    ensures 1 <= FP[i] <= 64 && IP[FP[i] - 1] == i + 1
  {
    if i < 16 { FPUndoesIP0(i); }
    else if i < 32 { FPUndoesIP1(i); }
    else if i < 48 { FPUndoesIP2(i); }
    else { FPUndoesIP3(i); }
  }

  lemma IPUndoesFP0(i: nat)
    requires 0 <= i < 16
    ensures 1 <= IP[i] <= 64 && FP[IP[i] - 1] == i + 1
  {
  }

  lemma IPUndoesFP1(i: nat)
    requires 16 <= i < 32
    ensures 1 <= IP[i] <= 64 && FP[IP[i] - 1] == i + 1
  {
  }

  lemma IPUndoesFP2(i: nat)
    requires 32 <= i < 48
    ensures 1 <= IP[i] <= 64 && FP[IP[i] - 1] == i + 1
  {
  }

  lemma IPUndoesFP3(i: nat)
    requires 48 <= i < 64
    ensures 1 <= IP[i] <= 64 && FP[IP[i] - 1] == i + 1
  {
  }

  lemma IPUndoesFP(i: nat)
    requires i < 64
    ensures 1 <= IP[i] <= 64 && FP[IP[i] - 1] == i + 1
  {
    if i < 16 { IPUndoesFP0(i); }
    else if i < 32 { IPUndoesFP1(i); }
    else if i < 48 { IPUndoesFP2(i); }
    else { IPUndoesFP3(i); }
  }

  /** `second` puts every bit back where `first` took it from. */
  ghost predicate Undoes(first: seq<nat>, second: seq<nat>) {
    && |first| == |second|
    && forall i :: 0 <= i < |second| ==> 1 <= second[i] <= |first| && first[second[i] - 1] == i + 1
  }

  lemma PermuteBack(bits: Bits, first: seq<nat>, second: seq<nat>)
    requires Undoes(first, second) && |bits| == |first|
    ensures Permute(Permute(bits, first), second) == bits
  {
  }

  /** FP is the inverse of IP, from both sides. */
  lemma TablesUndo()
    ensures Undoes(IP, FP) && Undoes(FP, IP)
  {
    ShiftsSmall();
    forall i | 0 <= i < 64
      ensures 1 <= FP[i] <= 64 && IP[FP[i] - 1] == i + 1
    {
      FPUndoesIP(i);
    }
    forall i | 0 <= i < 64
      ensures 1 <= IP[i] <= 64 && FP[IP[i] - 1] == i + 1
    {
      IPUndoesFP(i);
    }
  }

  lemma XorTwice(a: Bits, b: Bits)
    ensures Xor(Xor(a, b), b) == a
  {
  }

  lemma {:induction false} RoundsAppend(left: Bits, right: Bits, keys: seq<Bits>, last: Bits)
    requires |left| == 32 && |right| == 32
    ensures var halves := Rounds(left, right, keys);
            Rounds(left, right, keys + [last]) == (halves.1, Xor(halves.0, F(halves.1, last)))
    decreases keys
  {
    if keys == [] {
      assert Rounds(left, right, [last]) == Rounds(right, Xor(left, F(right, last)), []) by {
        assert [last][1..] == [];
      }
    } else {
      assert (keys + [last])[1..] == keys[1..] + [last];
      RoundsAppend(right, Xor(left, F(right, keys[0])), keys[1..], last);
    }
  }

  /** Running the rounds backwards from the swapped halves swaps the originals. */
  lemma {:induction false} RoundsReversed(left: Bits, right: Bits, keys: seq<Bits>)
    requires |left| == 32 && |right| == 32
    ensures var halves := Rounds(left, right, keys);
            Rounds(halves.1, halves.0, Reverse(keys)) == (right, left)
    decreases keys
  {
    if keys != [] {
      var mixed := Xor(left, F(right, keys[0]));
      var halves := Rounds(right, mixed, keys[1..]);
      RoundsReversed(right, mixed, keys[1..]);
      RoundsAppend(halves.1, halves.0, Reverse(keys[1..]), keys[0]);
      XorTwice(left, F(right, keys[0]));
    }
  }

  lemma {:induction false} ReverseTwice<T>(s: seq<T>)
    ensures Reverse(Reverse(s)) == s
  {
    if s != [] {
      ReverseLast(Reverse(s[1..]), s[0]);
      ReverseTwice(s[1..]);
    }
  }

  lemma {:induction false} ReverseLast<T>(s: seq<T>, last: T)
    ensures Reverse(s + [last]) == [last] + Reverse(s)
  {
    if s == [] {
      assert [last][1..] == [];
    } else {
      assert (s + [last])[1..] == s[1..] + [last];
      ReverseLast(s[1..], last);
    }
  }

  lemma RoundsUndone(keys: seq<Bits>, bits: Bits)
    requires |bits| == 64
    ensures var halves := Rounds(bits[..32], bits[32..], keys);
            var swapped := halves.1 + halves.0;
            var back := Rounds(swapped[..32], swapped[32..], Reverse(keys));
            back.1 + back.0 == bits
  {
    var halves := Rounds(bits[..32], bits[32..], keys);
    var swapped := halves.1 + halves.0;
    assert swapped[..32] == halves.1 && swapped[32..] == halves.0;
    RoundsReversed(bits[..32], bits[32..], keys);
  }

  /** The inverse of the cipher under any list of subkeys is the cipher with the list reversed. */
  lemma CryptReversed(keys: seq<Bits>, block: Bits)
    requires |block| == 64
    ensures Crypt(Reverse(keys), Crypt(keys, block)) == block
  {
    TablesUndo();
    ShiftsSmall();
    var bits := Permute(block, IP);
    var halves := Rounds(bits[..32], bits[32..], keys);
    PermuteBack(halves.1 + halves.0, FP, IP);
    RoundsUndone(keys, bits);
    PermuteBack(block, IP, FP);
  }

  /** Section "Deciphering" of FIPS 46-3: every block comes back, from either side. */
  lemma DecryptEncrypt(key: seq<byte>, block: seq<byte>)
    requires |block| == 8
    ensures Decrypt(key, Encrypt(key, block)) == block
    ensures Encrypt(key, Decrypt(key, block)) == block
  {
    var keys, bits := Subkeys(key), ToBits(block);
    BitsRoundTrip(Crypt(keys, bits));
    CryptReversed(keys, bits);
    BitsRoundTrip(Crypt(Reverse(keys), bits));
    CryptReversed(Reverse(keys), bits);
    ReverseTwice(keys);
    BytesRoundTrip(block);
  }

  // --- Complementing key and block complements the result ---

  function Not(bits: Bits): (out: Bits)
    ensures |out| == |bits|
    ensures forall i :: 0 <= i < |bits| ==> out[i] == !bits[i]
  {
    if bits == [] then [] else [!bits[0]] + Not(bits[1..])
  }

  function NotBytes(bytes: seq<byte>): (out: seq<byte>)
    ensures |out| == |bytes|
    ensures forall i :: 0 <= i < |bytes| ==> out[i] == 255 - bytes[i]
  {
    if bytes == [] then [] else [255 - bytes[0]] + NotBytes(bytes[1..])
  }

  ghost predicate Selects(table: seq<nat>, n: nat) {
    forall i :: 0 <= i < |table| ==> 1 <= table[i] <= n
  }

  lemma TableE() ensures Selects(E, 32) {}
  lemma TablePC1() ensures Selects(PC1, 64) {}
  lemma TablePC2() ensures Selects(PC2, 56) {}
  lemma TableIP() ensures Selects(IP, 64) {}
  lemma TableFP() ensures Selects(FP, 64) {}

  lemma PermuteNot(bits: Bits, table: seq<nat>)
    requires Selects(table, |bits|)
    ensures Permute(Not(bits), table) == Not(Permute(bits, table))
  {
  }

  lemma XorNotBoth(a: Bits, b: Bits)
    requires |a| == |b|
    ensures Xor(Not(a), Not(b)) == Xor(a, b)
  {
  }

  lemma XorNotLeft(a: Bits, b: Bits)
    ensures Xor(Not(a), b) == Not(Xor(a, b))
  {
  }

  /** The round function does not see the complement: it cancels before the boxes. */
  lemma FNot(right: Bits, subkey: Bits)
    requires |right| == 32 && |subkey| == 48
    ensures F(Not(right), Not(subkey)) == F(right, subkey)
  {
    ShiftsSmall();
    TableE();
    PermuteNot(right, E);
    XorNotBoth(Permute(right, E), subkey);
  }

  function NotAll(keys: seq<Bits>): (out: seq<Bits>)
    ensures |out| == |keys|
  {
    if keys == [] then [] else [Not(keys[0])] + NotAll(keys[1..])
  }

  ghost predicate SubkeySized(keys: seq<Bits>) {
    forall i :: 0 <= i < |keys| ==> |keys[i]| == 48
  }

  lemma {:induction false} RoundsNot(left: Bits, right: Bits, keys: seq<Bits>)
    requires |left| == 32 && |right| == 32 && SubkeySized(keys)
    ensures var halves := Rounds(left, right, keys);
            Rounds(Not(left), Not(right), NotAll(keys)) == (Not(halves.0), Not(halves.1))
    decreases keys
  {
    if keys != [] {
      FNot(right, keys[0]);
      XorNotLeft(left, F(right, keys[0]));
      RoundsNot(right, Xor(left, F(right, keys[0])), keys[1..]);
    }
  }

  lemma NotParts(bits: Bits, n: nat)
    requires n <= |bits|
    ensures Not(bits)[..n] == Not(bits[..n])
    ensures Not(bits)[n..] == Not(bits[n..])
  {
    assert bits == bits[..n] + bits[n..];
    NotJoin(bits[..n], bits[n..]);
  }

  lemma NotJoin(a: Bits, b: Bits)
    ensures Not(a + b) == Not(a) + Not(b)
  {
  }

  lemma CryptNot(keys: seq<Bits>, block: Bits)
    requires |block| == 64 && SubkeySized(keys)
    ensures Crypt(NotAll(keys), Not(block)) == Not(Crypt(keys, block))
  {
    ShiftsSmall();
    TableIP();
    TableFP();
    PermuteNot(block, IP);
    var bits := Permute(block, IP);
    NotParts(bits, 32);
    RoundsNot(bits[..32], bits[32..], keys);
    var halves := Rounds(bits[..32], bits[32..], keys);
    NotJoin(halves.1, halves.0);
    PermuteNot(halves.1 + halves.0, FP);
  }

  lemma {:induction false} ScheduleSized(c: Bits, d: Bits, shifts: seq<nat>)
    requires |c| == 28 && |d| == 28 && forall i :: 0 <= i < |shifts| ==> shifts[i] <= 28
    ensures SubkeySized(Schedule(c, d, shifts))
    decreases shifts
  {
    ShiftsSmall();
    if shifts != [] {
      ScheduleSized(RotateLeft(c, shifts[0]), RotateLeft(d, shifts[0]), shifts[1..]);
    }
  }

  lemma RotateNot(half: Bits, count: nat)
    requires count <= |half|
    ensures RotateLeft(Not(half), count) == Not(RotateLeft(half, count))
  {
    NotParts(half, count);
    NotJoin(half[count..], half[..count]);
  }

  lemma {:induction false} ScheduleNot(c: Bits, d: Bits, shifts: seq<nat>)
    requires |c| == 28 && |d| == 28 && forall i :: 0 <= i < |shifts| ==> shifts[i] <= 28
    ensures Schedule(Not(c), Not(d), shifts) == NotAll(Schedule(c, d, shifts))
    decreases shifts
  {
    if shifts != [] {
      var c', d' := RotateLeft(c, shifts[0]), RotateLeft(d, shifts[0]);
      RotateNot(c, shifts[0]);
      RotateNot(d, shifts[0]);
      NotJoin(c', d');
      TablePC2();
      PermuteNot(c' + d', PC2);
      ScheduleNot(c', d', shifts[1..]);
    }
  }

  lemma HalfComplement(half: nat, v: nat)
    requires v < 2 * half
    ensures (2 * half - 1 - v) / 2 == half - 1 - v / 2
    ensures Bit(2 * half - 1 - v) == !Bit(v)
  {
  }

  lemma {:induction false} BitsOfComplement(v: nat, n: nat)
    requires n <= 8 && v < Pow2(n)
    ensures BitsOf(Pow2(n) - 1 - v, n) == Not(BitsOf(v, n))
  {
    if n != 0 {
      HalfComplement(Pow2(n - 1), v);
      BitsOfComplement(v / 2, n - 1);
      NotJoin(BitsOf(v / 2, n - 1), [Bit(v)]);
    }
  }

  lemma {:induction false} ToBitsNot(bytes: seq<byte>)
    ensures ToBits(NotBytes(bytes)) == Not(ToBits(bytes))
  {
    if bytes != [] {
      Pow2Grows(8, 8);
      BitsOfComplement(bytes[0] as nat, 8);
      ToBitsNot(bytes[1..]);
      NotJoin(ByteBits(bytes[0]), ToBits(bytes[1..]));
    }
  }

  lemma FromBitsNot(bits: Bits)
    requires |bits| % 8 == 0
    ensures FromBits(Not(bits)) == NotBytes(FromBits(bits))
  {
    BitsRoundTrip(bits);
    ToBitsNot(FromBits(bits));
    BytesRoundTrip(NotBytes(FromBits(bits)));
  }

  lemma SubkeysNot(key: seq<byte>)
    requires |key| == 8
    ensures Subkeys(NotBytes(key)) == NotAll(Subkeys(key)) && SubkeySized(Subkeys(key))
  {
    ShiftsSmall();
    TablePC1();
    ToBitsNot(key);
    PermuteNot(ToBits(key), PC1);
    var permuted := Permute(ToBits(key), PC1);
    NotParts(permuted, 28);
    ScheduleNot(permuted[..28], permuted[28..], SHIFTS);
    ScheduleSized(permuted[..28], permuted[28..], SHIFTS);
  }

  /** The complementation property of DES, for every key and block. */
  lemma Complementation(key: seq<byte>, block: seq<byte>)
    requires |key| == 8 && |block| == 8
    ensures Encrypt(NotBytes(key), NotBytes(block)) == NotBytes(Encrypt(key, block))
  {
    SubkeysNot(key);
    ToBitsNot(block);
    CryptNot(Subkeys(key), ToBits(block));
    FromBitsNot(Crypt(Subkeys(key), ToBits(block)));
  }
}
