/**
 * A known answer of DES, worked out round by round: the key 133457799BBCDFF1
 * takes the block 0123456789ABCDEF to 85E813540F0AB405. The steps of a round
 * are written out bit by bit, and then proved to be those of the cipher.
 */
module DesAnswers {
  import opened Bytes
  import opened DesTables
  import opened Des
  import opened SBoxes

  // --- Rotations ---

  /** How far the halves of a key have turned after the first `n` shifts. */
  function Turned(shifts: seq<nat>, n: nat): nat
    requires n <= |shifts|
  {
    if n == 0 then 0 else Turned(shifts, n - 1) + shifts[n - 1]
  }

  /** Two entries a time. */
  lemma TurnTwo(shifts: seq<nat>, n: nat, s: nat, a: nat, b: nat)
    requires n + 2 <= |shifts| && Turned(shifts, n) == s && shifts[n] == a && shifts[n + 1] == b
    ensures Turned(shifts, n + 1) == s + a && Turned(shifts, n + 2) == s + a + b
  {
  }

  /** The sixteen shifts take the halves once round. */
  lemma OnceRound()
    ensures |SHIFTS| == 16 && Turned(SHIFTS, 16) == 28
    ensures forall n: nat :: n < 16 ==> Turned(SHIFTS, n + 1) == TURNS[n]
  {
    ShiftsSmall();
    TurnTwo(SHIFTS, 0, 0, 1, 1);
    TurnTwo(SHIFTS, 2, 2, 2, 2);
    TurnTwo(SHIFTS, 4, 6, 2, 2);
    TurnTwo(SHIFTS, 6, 10, 2, 2);
    TurnTwo(SHIFTS, 8, 14, 1, 2);
    TurnTwo(SHIFTS, 10, 17, 2, 2);
    TurnTwo(SHIFTS, 12, 21, 2, 2);
    TurnTwo(SHIFTS, 14, 25, 2, 1);
  }

  const TURNS: seq<nat> := [1, 2, 4, 6, 8, 10, 12, 14] + [15, 17, 19, 21, 23, 25, 27, 28]

  /** A half turned by `s`. */
  function TurnedHalf(half: Bits, s: nat): (out: Bits)
    requires |half| == 28 && s <= 28
    ensures |out| == 28
  {
    (half + half)[s..s + 28]
  }

  lemma TurnOn(half: Bits, s: nat, t: nat)
    requires |half| == 28 && s + t <= 28
    ensures RotateLeft(TurnedHalf(half, s), t) == TurnedHalf(half, s + t)
  {
    var a, b := RotateLeft(TurnedHalf(half, s), t), TurnedHalf(half, s + t);
    forall j | 0 <= j < 28
      ensures a[j] == b[j]
    {
      if j < 28 - t {
        assert a[j] == TurnedHalf(half, s)[j + t];
      } else {
        assert a[j] == TurnedHalf(half, s)[j + t - 28];
      }
    }
  }

  function SubkeyOf(c: Bits, d: Bits): (key: Bits)
    ensures |key| == |PC2|
  {
    Permute(c + d, PC2)
  }

  lemma {:induction false} TurnedRest(shifts: seq<nat>, n: nat)
    requires 0 < n <= |shifts|
    ensures Turned(shifts, n) == shifts[0] + Turned(shifts[1..], n - 1)
  {
    if n > 1 {
      TurnedRest(shifts, n - 1);
    }
  }

  lemma {:induction false} TurnedGrows(shifts: seq<nat>, m: nat, n: nat)
    requires m <= n <= |shifts|
    ensures Turned(shifts, m) <= Turned(shifts, n)
  {
    if m < n {
      TurnedGrows(shifts, m, n - 1);
    }
  }

  lemma FirstOf(keys: seq<Bits>, first: Bits, rest: seq<Bits>, i: nat)
    requires keys == [first] + rest && i <= |rest|
    ensures if i == 0 then keys[i] == first else keys[i] == rest[i - 1]
  {
  }

  lemma {:induction false} ScheduleFirst(c: Bits, d: Bits, shifts: seq<nat>)
    requires |c| == 28 && |d| == 28 && shifts != [] && forall j :: 0 <= j < |shifts| ==> shifts[j] <= 28
    ensures var c', d' := RotateLeft(c, shifts[0]), RotateLeft(d, shifts[0]);
            Schedule(c, d, shifts) == [SubkeyOf(c', d')] + Schedule(c', d', shifts[1..])
  {
  }

  lemma {:induction false} ScheduleTurns(c: Bits, d: Bits, s: nat, shifts: seq<nat>)
    requires |c| == 28 && |d| == 28 && shifts != [] && s + shifts[0] <= 28
    requires forall j :: 0 <= j < |shifts| ==> shifts[j] <= 28
    ensures var c', d' := TurnedHalf(c, s + shifts[0]), TurnedHalf(d, s + shifts[0]);
            Schedule(TurnedHalf(c, s), TurnedHalf(d, s), shifts) == [SubkeyOf(c', d')] + Schedule(c', d', shifts[1..])
  {
    TurnOn(c, s, shifts[0]);
    TurnOn(d, s, shifts[0]);
    ScheduleFirst(TurnedHalf(c, s), TurnedHalf(d, s), shifts);
  }

  /** Each subkey is drawn from the halves turned as far as the shifts up to it add up to. */
  lemma {:induction false} ScheduleAt(c: Bits, d: Bits, s: nat, shifts: seq<nat>, i: nat, u: nat)
    requires |c| == 28 && |d| == 28 && s + Turned(shifts, |shifts|) <= 28 && i < |shifts|
    requires forall j :: 0 <= j < |shifts| ==> shifts[j] <= 28
    requires u == s + Turned(shifts, i + 1) <= 28
    ensures Schedule(TurnedHalf(c, s), TurnedHalf(d, s), shifts)[i] == SubkeyOf(TurnedHalf(c, u), TurnedHalf(d, u))
    decreases i
  {
    var t := s + shifts[0];
    TurnedGrows(shifts, 1, |shifts|);
    TurnedRest(shifts, |shifts|);
    TurnedRest(shifts, i + 1);
    ScheduleTurns(c, d, s, shifts);
    var c', d' := TurnedHalf(c, t), TurnedHalf(d, t);
    FirstOf(Schedule(TurnedHalf(c, s), TurnedHalf(d, s), shifts), SubkeyOf(c', d'), Schedule(c', d', shifts[1..]), i);
    if i == 0 {
      assert u == t;
    } else {
      ScheduleAt(c, d, t, shifts[1..], i - 1, u);
    }
  }

  lemma SubkeysAt(key: seq<byte>, c: Bits, d: Bits, i: nat)
    requires |c| == 28 && |d| == 28 && Permute(ToBits(key), PC1) == c + d && i < 16
    ensures |TURNS| == 16 && TURNS[i] <= 28
    ensures Subkeys(key)[i] == SubkeyOf(TurnedHalf(c, TURNS[i]), TurnedHalf(d, TURNS[i]))
  {
    ShiftsSmall();
    OnceRound();
    assert (c + d)[..28] == c && (c + d)[28..] == d;
    assert TurnedHalf(c, 0) == c && TurnedHalf(d, 0) == d;
    ScheduleAt(c, d, 0, SHIFTS, i, TURNS[i]);
  }

  lemma TurnedRound(half: Bits)
    requires |half| == 28
    ensures TurnedHalf(half, 28) == half
  {
  }

  /** The halves come round, so the last subkey is drawn from them as they were. */
  lemma LastSubkeyUnturned(key: seq<byte>)
    ensures |Permute(ToBits(key), PC1)| == 56
    ensures var halves := Permute(ToBits(key), PC1); Subkeys(key)[15] == SubkeyOf(halves[..28], halves[28..])
  {
    ShiftsSmall();
    var halves := Permute(ToBits(key), PC1);
    var c, d := halves[..28], halves[28..];
    assert c + d == halves;
    SubkeysAt(key, c, d, 15);
    TurnedRound(c);
    TurnedRound(d);
  }

  // --- A round, bit by bit ---

  /** The six bits that select each place of a box. */
  const SIX: seq<Bits> :=
    [[O, O, O, O, O, O], [O, O, O, O, I, O], [O, O, O, I, O, O], [O, O, O, I, I, O]]
    + [[O, O, I, O, O, O], [O, O, I, O, I, O], [O, O, I, I, O, O], [O, O, I, I, I, O]]
    + [[O, I, O, O, O, O], [O, I, O, O, I, O], [O, I, O, I, O, O], [O, I, O, I, I, O]]
    + [[O, I, I, O, O, O], [O, I, I, O, I, O], [O, I, I, I, O, O], [O, I, I, I, I, O]]
    + [[O, O, O, O, O, I], [O, O, O, O, I, I], [O, O, O, I, O, I], [O, O, O, I, I, I]]
    + [[O, O, I, O, O, I], [O, O, I, O, I, I], [O, O, I, I, O, I], [O, O, I, I, I, I]]
    + [[O, I, O, O, O, I], [O, I, O, O, I, I], [O, I, O, I, O, I], [O, I, O, I, I, I]]
    + [[O, I, I, O, O, I], [O, I, I, O, I, I], [O, I, I, I, O, I], [O, I, I, I, I, I]]
    + [[I, O, O, O, O, O], [I, O, O, O, I, O], [I, O, O, I, O, O], [I, O, O, I, I, O]]
    + [[I, O, I, O, O, O], [I, O, I, O, I, O], [I, O, I, I, O, O], [I, O, I, I, I, O]]
    + [[I, I, O, O, O, O], [I, I, O, O, I, O], [I, I, O, I, O, O], [I, I, O, I, I, O]]
    + [[I, I, I, O, O, O], [I, I, I, O, I, O], [I, I, I, I, O, O], [I, I, I, I, I, O]]
    + [[I, O, O, O, O, I], [I, O, O, O, I, I], [I, O, O, I, O, I], [I, O, O, I, I, I]]
    + [[I, O, I, O, O, I], [I, O, I, O, I, I], [I, O, I, I, O, I], [I, O, I, I, I, I]]
    + [[I, I, O, O, O, I], [I, I, O, O, I, I], [I, I, O, I, O, I], [I, I, O, I, I, I]]
    + [[I, I, I, O, O, I], [I, I, I, O, I, I], [I, I, I, I, O, I], [I, I, I, I, I, I]]

  /** The values of four bits. */
  const NIBBLES: seq<Bits> :=
    [[O, O, O, O], [O, O, O, I], [O, O, I, O], [O, O, I, I]]
    + [[O, I, O, O], [O, I, O, I], [O, I, I, O], [O, I, I, I]]
    + [[I, O, O, O], [I, O, O, I], [I, O, I, O], [I, O, I, I]]
    + [[I, I, O, O], [I, I, O, I], [I, I, I, O], [I, I, I, I]]

  /** Bit `i` of entry `k`. */
  predicate BitIn(rows: seq<Bits>, k: nat, i: nat) {
    k < |rows| && i < |rows[k]| && rows[k][i]
  }

  predicate Holds(boxes: seq<seq<nat>>, b: nat, k: nat, v: nat) {
    b < |boxes| && k < |boxes[b]| && boxes[b][k] == v
  }

  /** Places of four boxes, or what is found in them. */
  datatype Four = Four(a: nat, b: nat, c: nat, d: nat)

  /**
   * The places the first four boxes are read at, from the right half and the
   * key's left half written twice and turned by `s`, and what is found there.
   */
  ghost predicate BoxedLeft(six: seq<Bits>, boxes: seq<seq<nat>>, r: Bits, cc: Bits, s: nat, x: Four, v: Four)
    requires |r| == 32 && |cc| == 56 && s <= 28
  {
    && Holds(boxes, 0, x.a, v.a) && BitIn(six, x.a, 0) == (r[31] != cc[s + 13])
    && BitIn(six, x.a, 1) == (r[0] != cc[s + 16]) && BitIn(six, x.a, 2) == (r[1] != cc[s + 10])
    && BitIn(six, x.a, 3) == (r[2] != cc[s + 23]) && BitIn(six, x.a, 4) == (r[3] != cc[s + 0])
    && BitIn(six, x.a, 5) == (r[4] != cc[s + 4])
    && Holds(boxes, 1, x.b, v.b) && BitIn(six, x.b, 0) == (r[3] != cc[s + 2])
    && BitIn(six, x.b, 1) == (r[4] != cc[s + 27]) && BitIn(six, x.b, 2) == (r[5] != cc[s + 14])
    && BitIn(six, x.b, 3) == (r[6] != cc[s + 5]) && BitIn(six, x.b, 4) == (r[7] != cc[s + 20])
    && BitIn(six, x.b, 5) == (r[8] != cc[s + 9])
    && Holds(boxes, 2, x.c, v.c) && BitIn(six, x.c, 0) == (r[7] != cc[s + 22])
    && BitIn(six, x.c, 1) == (r[8] != cc[s + 18]) && BitIn(six, x.c, 2) == (r[9] != cc[s + 11])
    && BitIn(six, x.c, 3) == (r[10] != cc[s + 3]) && BitIn(six, x.c, 4) == (r[11] != cc[s + 25])
    && BitIn(six, x.c, 5) == (r[12] != cc[s + 7])
    && Holds(boxes, 3, x.d, v.d) && BitIn(six, x.d, 0) == (r[11] != cc[s + 15])
    && BitIn(six, x.d, 1) == (r[12] != cc[s + 6]) && BitIn(six, x.d, 2) == (r[13] != cc[s + 26])
    && BitIn(six, x.d, 3) == (r[14] != cc[s + 19]) && BitIn(six, x.d, 4) == (r[15] != cc[s + 12])
    && BitIn(six, x.d, 5) == (r[16] != cc[s + 1])
  }

  /**
   * The places the last four boxes are read at, from the right half and the
   * key's right half written twice and turned by `s`, and what is found there.
   */
  ghost predicate BoxedRight(six: seq<Bits>, boxes: seq<seq<nat>>, r: Bits, dd: Bits, s: nat, x: Four, v: Four)
    requires |r| == 32 && |dd| == 56 && s <= 28
  {
    && Holds(boxes, 4, x.a, v.a) && BitIn(six, x.a, 0) == (r[15] != dd[s + 12])
    && BitIn(six, x.a, 1) == (r[16] != dd[s + 23]) && BitIn(six, x.a, 2) == (r[17] != dd[s + 2])
    && BitIn(six, x.a, 3) == (r[18] != dd[s + 8]) && BitIn(six, x.a, 4) == (r[19] != dd[s + 18])
    && BitIn(six, x.a, 5) == (r[20] != dd[s + 26])
    && Holds(boxes, 5, x.b, v.b) && BitIn(six, x.b, 0) == (r[19] != dd[s + 1])
    && BitIn(six, x.b, 1) == (r[20] != dd[s + 11]) && BitIn(six, x.b, 2) == (r[21] != dd[s + 22])
    && BitIn(six, x.b, 3) == (r[22] != dd[s + 16]) && BitIn(six, x.b, 4) == (r[23] != dd[s + 4])
    && BitIn(six, x.b, 5) == (r[24] != dd[s + 19])
    && Holds(boxes, 6, x.c, v.c) && BitIn(six, x.c, 0) == (r[23] != dd[s + 15])
    && BitIn(six, x.c, 1) == (r[24] != dd[s + 20]) && BitIn(six, x.c, 2) == (r[25] != dd[s + 10])
    && BitIn(six, x.c, 3) == (r[26] != dd[s + 27]) && BitIn(six, x.c, 4) == (r[27] != dd[s + 5])
    && BitIn(six, x.c, 5) == (r[28] != dd[s + 24])
    && Holds(boxes, 7, x.d, v.d) && BitIn(six, x.d, 0) == (r[27] != dd[s + 17])
    && BitIn(six, x.d, 1) == (r[28] != dd[s + 13]) && BitIn(six, x.d, 2) == (r[29] != dd[s + 21])
    && BitIn(six, x.d, 3) == (r[30] != dd[s + 7]) && BitIn(six, x.d, 4) == (r[31] != dd[s + 0])
    && BitIn(six, x.d, 5) == (r[0] != dd[s + 3])
  }

  /** The new right half, from the old left one and what the boxes held. */
  ghost predicate Mixed(nibbles: seq<Bits>, l: Bits, v: Four, w: Four, n: Bits)
    requires |l| == 32 && |n| == 32
  {
    && n[0] == (l[0] != BitIn(nibbles, v.d, 3)) && n[1] == (l[1] != BitIn(nibbles, v.b, 2))
    && n[2] == (l[2] != BitIn(nibbles, w.a, 3)) && n[3] == (l[3] != BitIn(nibbles, w.b, 0))
    && n[4] == (l[4] != BitIn(nibbles, w.d, 0)) && n[5] == (l[5] != BitIn(nibbles, v.c, 3))
    && n[6] == (l[6] != BitIn(nibbles, w.c, 3)) && n[7] == (l[7] != BitIn(nibbles, w.a, 0))
    && n[8] == (l[8] != BitIn(nibbles, v.a, 0)) && n[9] == (l[9] != BitIn(nibbles, v.d, 2))
    && n[10] == (l[10] != BitIn(nibbles, w.b, 2)) && n[11] == (l[11] != BitIn(nibbles, w.c, 1))
    && n[12] == (l[12] != BitIn(nibbles, v.b, 0)) && n[13] == (l[13] != BitIn(nibbles, w.a, 1))
    && n[14] == (l[14] != BitIn(nibbles, w.d, 2)) && n[15] == (l[15] != BitIn(nibbles, v.c, 1))
    && n[16] == (l[16] != BitIn(nibbles, v.a, 1)) && n[17] == (l[17] != BitIn(nibbles, v.b, 3))
    && n[18] == (l[18] != BitIn(nibbles, w.b, 3)) && n[19] == (l[19] != BitIn(nibbles, v.d, 1))
    && n[20] == (l[20] != BitIn(nibbles, w.d, 3)) && n[21] == (l[21] != BitIn(nibbles, w.c, 2))
    && n[22] == (l[22] != BitIn(nibbles, v.a, 2)) && n[23] == (l[23] != BitIn(nibbles, v.c, 0))
    && n[24] == (l[24] != BitIn(nibbles, w.a, 2)) && n[25] == (l[25] != BitIn(nibbles, v.d, 0))
    && n[26] == (l[26] != BitIn(nibbles, w.d, 1)) && n[27] == (l[27] != BitIn(nibbles, v.b, 1))
    && n[28] == (l[28] != BitIn(nibbles, w.b, 1)) && n[29] == (l[29] != BitIn(nibbles, v.c, 2))
    && n[30] == (l[30] != BitIn(nibbles, v.a, 3)) && n[31] == (l[31] != BitIn(nibbles, w.c, 0))
  }

  // --- What the written-out steps are ---

  lemma NibblesAre(v: nat)
    requires v < 16
    ensures |NIBBLES| == 16 && NIBBLES[v] == Nibble(v)
  {
  }

  lemma SixFirst(k: nat)
    requires k < 16
    ensures |SIX| == 64 && |SIX[k]| == 6 && Place(SIX[k]) == k
  {
  }

  lemma SixSecond(k: nat)
    requires 16 <= k < 32
    ensures |SIX| == 64 && |SIX[k]| == 6 && Place(SIX[k]) == k
  {
  }

  lemma SixThird(k: nat)
    requires 32 <= k < 48
    ensures |SIX| == 64 && |SIX[k]| == 6 && Place(SIX[k]) == k
  {
  }

  lemma SixFourth(k: nat)
    requires 48 <= k < 64
    ensures |SIX| == 64 && |SIX[k]| == 6 && Place(SIX[k]) == k
  {
  }

  lemma SixPlace(k: nat)
    requires k < 64
    ensures |SIX| == 64 && |SIX[k]| == 6 && Place(SIX[k]) == k
  {
    if k < 16 { SixFirst(k); } else if k < 32 { SixSecond(k); } else if k < 48 { SixThird(k); } else { SixFourth(k); }
  }

  /** What goes into the boxes. */
  function Input(r: Bits, c: Bits, d: Bits): (out: Bits)
    requires |r| == 32 && |c| == 28 && |d| == 28
    ensures |out| == 48
  {
    ShiftsSmall();
    Xor(Permute(r, E), SubkeyOf(c, d))
  }

  lemma {:induction false} PermuteAt(bits: Bits, table: seq<nat>, j: nat, p: nat)
    requires j < |table| && table[j] == p
    ensures Permute(bits, table)[j] == BitAt(bits, p)
  {
  }

  /** Bit `j` of the input, by the entries of the two tables. */
  predicate Enters(e: seq<nat>, t: seq<nat>, j: nat, r: nat, k: nat) {
    j < |e| && j < |t| && e[j] == r && t[j] == k
  }

  lemma {:induction false} InputBit(r: Bits, c: Bits, d: Bits, e: seq<nat>, t: seq<nat>, j: nat, p: nat, k: nat)
    requires |r| == 32 && |c| == 28 && |d| == 28 && Enters(e, t, j, p, k) && 1 <= p <= 32 && 1 <= k <= 56
    ensures Xor(Permute(r, e), Permute(c + d, t))[j] == (r[p - 1] != if k <= 28 then c[k - 1] else d[k - 29])
  {
    PermuteAt(r, e, j, p);
    PermuteAt(c + d, t, j, k);
    XorAt(Permute(r, e), Permute(c + d, t), j);
  }

  lemma {:induction false} XorAt(a: Bits, b: Bits, j: nat)
    requires j < |a| && j < |b|
    ensures Xor(a, b)[j] == (a[j] != b[j])
  {
  }

  /** `half` is found in `twice` from `s` on. */
  predicate Doubled(twice: Bits, s: nat, half: Bits) {
    |twice| == 56 && |half| == 28 && s <= 28 && forall k :: 0 <= k < 28 ==> half[k] == twice[s + k]
  }

  lemma TurnedIsDoubled(half: Bits, s: nat)
    requires |half| == 28 && s <= 28
    ensures Doubled(half + half, s, TurnedHalf(half, s))
  {
  }

  function Part(x: Bits, at: nat): (six: Bits)
    requires at + 6 <= |x|
    ensures |six| == 6
  {
    x[at..at + 6]
  }

  /** The six bits from `at` on are those of an entry. */
  predicate SameSix(x: Bits, at: nat, six: seq<Bits>, k: nat) {
    && at + 6 <= |x|
    && x[at] == BitIn(six, k, 0) && x[at + 1] == BitIn(six, k, 1) && x[at + 2] == BitIn(six, k, 2)
    && x[at + 3] == BitIn(six, k, 3) && x[at + 4] == BitIn(six, k, 4) && x[at + 5] == BitIn(six, k, 5)
  }

  lemma SixIs(x: Bits, at: nat, six: seq<Bits>, k: nat)
    requires SameSix(x, at, six, k) && k < |six| && |six[k]| == 6
    ensures Part(x, at) == six[k]
  {
  }

  lemma Found(box: nat, x: Bits, at: nat, k: nat, v: nat)
    requires box < 8 && Holds(SBOX, box, k, v) && SameSix(x, at, SIX, k)
    ensures BoxOut(box, Part(x, at)) == Nibble(v)
  {
    BoxSize(box);
    SixPlace(k);
    SixIs(x, at, SIX, k);
    BoxIs(box, Part(x, at));
  }

  /** The first four boxes put out these values. */
  predicate LeftFound(r: Bits, c: Bits, d: Bits, v: Four)
    requires |r| == 32 && |c| == 28 && |d| == 28
  {
    var x := Input(r, c, d);
    && BoxOut(0, Part(x, 0)) == Nibble(v.a) && BoxOut(1, Part(x, 6)) == Nibble(v.b)
    && BoxOut(2, Part(x, 12)) == Nibble(v.c) && BoxOut(3, Part(x, 18)) == Nibble(v.d)
  }

  /** And the last four these. */
  predicate RightFound(r: Bits, c: Bits, d: Bits, v: Four)
    requires |r| == 32 && |c| == 28 && |d| == 28
  {
    var x := Input(r, c, d);
    && BoxOut(4, Part(x, 24)) == Nibble(v.a) && BoxOut(5, Part(x, 30)) == Nibble(v.b)
    && BoxOut(6, Part(x, 36)) == Nibble(v.c) && BoxOut(7, Part(x, 42)) == Nibble(v.d)
  }

  lemma Input1(r: Bits, c: Bits, d: Bits, e: seq<nat>, t: seq<nat>)
    requires |r| == 32 && |c| == 28 && |d| == 28
    requires Enters(e, t, 0, 32, 14) && Enters(e, t, 1, 1, 17) && Enters(e, t, 2, 2, 11)
    requires Enters(e, t, 3, 3, 24) && Enters(e, t, 4, 4, 1) && Enters(e, t, 5, 5, 5)
    ensures var x := Xor(Permute(r, e), Permute(c + d, t));
            && x[0] == (r[31] != c[13]) && x[1] == (r[0] != c[16]) && x[2] == (r[1] != c[10])
            && x[3] == (r[2] != c[23]) && x[4] == (r[3] != c[0]) && x[5] == (r[4] != c[4])
  {
    InputBit(r, c, d, e, t, 0, 32, 14);
    InputBit(r, c, d, e, t, 1, 1, 17);
    InputBit(r, c, d, e, t, 2, 2, 11);
    InputBit(r, c, d, e, t, 3, 3, 24);
    InputBit(r, c, d, e, t, 4, 4, 1);
    InputBit(r, c, d, e, t, 5, 5, 5);
  }

  lemma Input2(r: Bits, c: Bits, d: Bits, e: seq<nat>, t: seq<nat>)
    requires |r| == 32 && |c| == 28 && |d| == 28
    requires Enters(e, t, 6, 4, 3) && Enters(e, t, 7, 5, 28) && Enters(e, t, 8, 6, 15)
    requires Enters(e, t, 9, 7, 6) && Enters(e, t, 10, 8, 21) && Enters(e, t, 11, 9, 10)
    ensures var x := Xor(Permute(r, e), Permute(c + d, t));
            && x[6] == (r[3] != c[2]) && x[7] == (r[4] != c[27]) && x[8] == (r[5] != c[14])
            && x[9] == (r[6] != c[5]) && x[10] == (r[7] != c[20]) && x[11] == (r[8] != c[9])
  {
    InputBit(r, c, d, e, t, 6, 4, 3);
    InputBit(r, c, d, e, t, 7, 5, 28);
    InputBit(r, c, d, e, t, 8, 6, 15);
    InputBit(r, c, d, e, t, 9, 7, 6);
    InputBit(r, c, d, e, t, 10, 8, 21);
    InputBit(r, c, d, e, t, 11, 9, 10);
  }

  lemma Input3(r: Bits, c: Bits, d: Bits, e: seq<nat>, t: seq<nat>)
    requires |r| == 32 && |c| == 28 && |d| == 28
    requires Enters(e, t, 12, 8, 23) && Enters(e, t, 13, 9, 19) && Enters(e, t, 14, 10, 12)
    requires Enters(e, t, 15, 11, 4) && Enters(e, t, 16, 12, 26) && Enters(e, t, 17, 13, 8)
    ensures var x := Xor(Permute(r, e), Permute(c + d, t));
            && x[12] == (r[7] != c[22]) && x[13] == (r[8] != c[18]) && x[14] == (r[9] != c[11])
            && x[15] == (r[10] != c[3]) && x[16] == (r[11] != c[25]) && x[17] == (r[12] != c[7])
  {
    InputBit(r, c, d, e, t, 12, 8, 23);
    InputBit(r, c, d, e, t, 13, 9, 19);
    InputBit(r, c, d, e, t, 14, 10, 12);
    InputBit(r, c, d, e, t, 15, 11, 4);
    InputBit(r, c, d, e, t, 16, 12, 26);
    InputBit(r, c, d, e, t, 17, 13, 8);
  }

  lemma Input4(r: Bits, c: Bits, d: Bits, e: seq<nat>, t: seq<nat>)
    requires |r| == 32 && |c| == 28 && |d| == 28
    requires Enters(e, t, 18, 12, 16) && Enters(e, t, 19, 13, 7) && Enters(e, t, 20, 14, 27)
    requires Enters(e, t, 21, 15, 20) && Enters(e, t, 22, 16, 13) && Enters(e, t, 23, 17, 2)
    ensures var x := Xor(Permute(r, e), Permute(c + d, t));
            && x[18] == (r[11] != c[15]) && x[19] == (r[12] != c[6]) && x[20] == (r[13] != c[26])
            && x[21] == (r[14] != c[19]) && x[22] == (r[15] != c[12]) && x[23] == (r[16] != c[1])
  {
    InputBit(r, c, d, e, t, 18, 12, 16);
    InputBit(r, c, d, e, t, 19, 13, 7);
    InputBit(r, c, d, e, t, 20, 14, 27);
    InputBit(r, c, d, e, t, 21, 15, 20);
    InputBit(r, c, d, e, t, 22, 16, 13);
    InputBit(r, c, d, e, t, 23, 17, 2);
  }

  lemma Box1Six(six: seq<Bits>, boxes: seq<seq<nat>>, r: Bits, c: Bits, d: Bits, cc: Bits, s: nat, x: Four, v: Four)
    requires |r| == 32 && |c| == 28 && |d| == 28 && Doubled(cc, s, c) && BoxedLeft(six, boxes, r, cc, s, x, v)
    ensures SameSix(Input(r, c, d), 0, six, x.a) && Holds(boxes, 0, x.a, v.a)
  {
    Input1(r, c, d, E, PC2);
  }

  lemma Box2Six(six: seq<Bits>, boxes: seq<seq<nat>>, r: Bits, c: Bits, d: Bits, cc: Bits, s: nat, x: Four, v: Four)
    requires |r| == 32 && |c| == 28 && |d| == 28 && Doubled(cc, s, c) && BoxedLeft(six, boxes, r, cc, s, x, v)
    ensures SameSix(Input(r, c, d), 6, six, x.b) && Holds(boxes, 1, x.b, v.b)
  {
    Input2(r, c, d, E, PC2);
  }

  lemma Box3Six(six: seq<Bits>, boxes: seq<seq<nat>>, r: Bits, c: Bits, d: Bits, cc: Bits, s: nat, x: Four, v: Four)
    requires |r| == 32 && |c| == 28 && |d| == 28 && Doubled(cc, s, c) && BoxedLeft(six, boxes, r, cc, s, x, v)
    ensures SameSix(Input(r, c, d), 12, six, x.c) && Holds(boxes, 2, x.c, v.c)
  {
    Input3(r, c, d, E, PC2);
  }

  lemma Box4Six(six: seq<Bits>, boxes: seq<seq<nat>>, r: Bits, c: Bits, d: Bits, cc: Bits, s: nat, x: Four, v: Four)
    requires |r| == 32 && |c| == 28 && |d| == 28 && Doubled(cc, s, c) && BoxedLeft(six, boxes, r, cc, s, x, v)
    ensures SameSix(Input(r, c, d), 18, six, x.d) && Holds(boxes, 3, x.d, v.d)
  {
    Input4(r, c, d, E, PC2);
  }

  lemma LeftReads(r: Bits, c: Bits, d: Bits, cc: Bits, s: nat, x: Four, v: Four)
    requires |r| == 32 && |c| == 28 && |d| == 28 && Doubled(cc, s, c) && BoxedLeft(SIX, SBOX, r, cc, s, x, v)
    ensures LeftFound(r, c, d, v)
  {
    var bits := Input(r, c, d);
    Box1Six(SIX, SBOX, r, c, d, cc, s, x, v);
    Found(0, bits, 0, x.a, v.a);
    Box2Six(SIX, SBOX, r, c, d, cc, s, x, v);
    Found(1, bits, 6, x.b, v.b);
    Box3Six(SIX, SBOX, r, c, d, cc, s, x, v);
    Found(2, bits, 12, x.c, v.c);
    Box4Six(SIX, SBOX, r, c, d, cc, s, x, v);
    Found(3, bits, 18, x.d, v.d);
  }

  lemma Input5(r: Bits, c: Bits, d: Bits, e: seq<nat>, t: seq<nat>)
    requires |r| == 32 && |c| == 28 && |d| == 28
    requires Enters(e, t, 24, 16, 41) && Enters(e, t, 25, 17, 52) && Enters(e, t, 26, 18, 31)
    requires Enters(e, t, 27, 19, 37) && Enters(e, t, 28, 20, 47) && Enters(e, t, 29, 21, 55)
    ensures var x := Xor(Permute(r, e), Permute(c + d, t));
            && x[24] == (r[15] != d[12]) && x[25] == (r[16] != d[23]) && x[26] == (r[17] != d[2])
            && x[27] == (r[18] != d[8]) && x[28] == (r[19] != d[18]) && x[29] == (r[20] != d[26])
  {
    InputBit(r, c, d, e, t, 24, 16, 41);
    InputBit(r, c, d, e, t, 25, 17, 52);
    InputBit(r, c, d, e, t, 26, 18, 31);
    InputBit(r, c, d, e, t, 27, 19, 37);
    InputBit(r, c, d, e, t, 28, 20, 47);
    InputBit(r, c, d, e, t, 29, 21, 55);
  }

  lemma Input6(r: Bits, c: Bits, d: Bits, e: seq<nat>, t: seq<nat>)
    requires |r| == 32 && |c| == 28 && |d| == 28
    requires Enters(e, t, 30, 20, 30) && Enters(e, t, 31, 21, 40) && Enters(e, t, 32, 22, 51)
    requires Enters(e, t, 33, 23, 45) && Enters(e, t, 34, 24, 33) && Enters(e, t, 35, 25, 48)
    ensures var x := Xor(Permute(r, e), Permute(c + d, t));
            && x[30] == (r[19] != d[1]) && x[31] == (r[20] != d[11]) && x[32] == (r[21] != d[22])
            && x[33] == (r[22] != d[16]) && x[34] == (r[23] != d[4]) && x[35] == (r[24] != d[19])
  {
    InputBit(r, c, d, e, t, 30, 20, 30);
    InputBit(r, c, d, e, t, 31, 21, 40);
    InputBit(r, c, d, e, t, 32, 22, 51);
    InputBit(r, c, d, e, t, 33, 23, 45);
    InputBit(r, c, d, e, t, 34, 24, 33);
    InputBit(r, c, d, e, t, 35, 25, 48);
  }

  lemma Input7(r: Bits, c: Bits, d: Bits, e: seq<nat>, t: seq<nat>)
    requires |r| == 32 && |c| == 28 && |d| == 28
    requires Enters(e, t, 36, 24, 44) && Enters(e, t, 37, 25, 49) && Enters(e, t, 38, 26, 39)
    requires Enters(e, t, 39, 27, 56) && Enters(e, t, 40, 28, 34) && Enters(e, t, 41, 29, 53)
    ensures var x := Xor(Permute(r, e), Permute(c + d, t));
            && x[36] == (r[23] != d[15]) && x[37] == (r[24] != d[20]) && x[38] == (r[25] != d[10])
            && x[39] == (r[26] != d[27]) && x[40] == (r[27] != d[5]) && x[41] == (r[28] != d[24])
  {
    InputBit(r, c, d, e, t, 36, 24, 44);
    InputBit(r, c, d, e, t, 37, 25, 49);
    InputBit(r, c, d, e, t, 38, 26, 39);
    InputBit(r, c, d, e, t, 39, 27, 56);
    InputBit(r, c, d, e, t, 40, 28, 34);
    InputBit(r, c, d, e, t, 41, 29, 53);
  }

  lemma Input8(r: Bits, c: Bits, d: Bits, e: seq<nat>, t: seq<nat>)
    requires |r| == 32 && |c| == 28 && |d| == 28
    requires Enters(e, t, 42, 28, 46) && Enters(e, t, 43, 29, 42) && Enters(e, t, 44, 30, 50)
    requires Enters(e, t, 45, 31, 36) && Enters(e, t, 46, 32, 29) && Enters(e, t, 47, 1, 32)
    ensures var x := Xor(Permute(r, e), Permute(c + d, t));
            && x[42] == (r[27] != d[17]) && x[43] == (r[28] != d[13]) && x[44] == (r[29] != d[21])
            && x[45] == (r[30] != d[7]) && x[46] == (r[31] != d[0]) && x[47] == (r[0] != d[3])
  {
    InputBit(r, c, d, e, t, 42, 28, 46);
    InputBit(r, c, d, e, t, 43, 29, 42);
    InputBit(r, c, d, e, t, 44, 30, 50);
    InputBit(r, c, d, e, t, 45, 31, 36);
    InputBit(r, c, d, e, t, 46, 32, 29);
    InputBit(r, c, d, e, t, 47, 1, 32);
  }

  lemma Box5Six(six: seq<Bits>, boxes: seq<seq<nat>>, r: Bits, c: Bits, d: Bits, dd: Bits, s: nat, x: Four, v: Four)
    requires |r| == 32 && |c| == 28 && |d| == 28 && Doubled(dd, s, d) && BoxedRight(six, boxes, r, dd, s, x, v)
    ensures SameSix(Input(r, c, d), 24, six, x.a) && Holds(boxes, 4, x.a, v.a)
  {
    Input5(r, c, d, E, PC2);
  }

  lemma Box6Six(six: seq<Bits>, boxes: seq<seq<nat>>, r: Bits, c: Bits, d: Bits, dd: Bits, s: nat, x: Four, v: Four)
    requires |r| == 32 && |c| == 28 && |d| == 28 && Doubled(dd, s, d) && BoxedRight(six, boxes, r, dd, s, x, v)
    ensures SameSix(Input(r, c, d), 30, six, x.b) && Holds(boxes, 5, x.b, v.b)
  {
    Input6(r, c, d, E, PC2);
  }

  lemma Box7Six(six: seq<Bits>, boxes: seq<seq<nat>>, r: Bits, c: Bits, d: Bits, dd: Bits, s: nat, x: Four, v: Four)
    requires |r| == 32 && |c| == 28 && |d| == 28 && Doubled(dd, s, d) && BoxedRight(six, boxes, r, dd, s, x, v)
    ensures SameSix(Input(r, c, d), 36, six, x.c) && Holds(boxes, 6, x.c, v.c)
  {
    Input7(r, c, d, E, PC2);
  }

  lemma Box8Six(six: seq<Bits>, boxes: seq<seq<nat>>, r: Bits, c: Bits, d: Bits, dd: Bits, s: nat, x: Four, v: Four)
    requires |r| == 32 && |c| == 28 && |d| == 28 && Doubled(dd, s, d) && BoxedRight(six, boxes, r, dd, s, x, v)
    ensures SameSix(Input(r, c, d), 42, six, x.d) && Holds(boxes, 7, x.d, v.d)
  {
    Input8(r, c, d, E, PC2);
  }

  lemma RightReads(r: Bits, c: Bits, d: Bits, dd: Bits, s: nat, x: Four, v: Four)
    requires |r| == 32 && |c| == 28 && |d| == 28 && Doubled(dd, s, d) && BoxedRight(SIX, SBOX, r, dd, s, x, v)
    ensures RightFound(r, c, d, v)
  {
    var bits := Input(r, c, d);
    Box5Six(SIX, SBOX, r, c, d, dd, s, x, v);
    Found(4, bits, 24, x.a, v.a);
    Box6Six(SIX, SBOX, r, c, d, dd, s, x, v);
    Found(5, bits, 30, x.b, v.b);
    Box7Six(SIX, SBOX, r, c, d, dd, s, x, v);
    Found(6, bits, 36, x.c, v.c);
    Box8Six(SIX, SBOX, r, c, d, dd, s, x, v);
    Found(7, bits, 42, x.d, v.d);
  }

  /** What a box puts out stands in its place. */
  lemma {:induction false} BoxesOutAt(x: Bits, n: nat, b: nat, out: Bits)
    requires |x| == 48 && b < n <= 8 && out == BoxOut(b, Part(x, b * 6))
    ensures BoxesOut(x, n)[4 * b..4 * b + 4] == out
  {
    var front, last := BoxesOut(x, n - 1), BoxOut(n - 1, Part(x, (n - 1) * 6));
    if b < n - 1 {
      BoxesOutAt(x, n - 1, b, out);
      KeepsFront(front, last, 4 * b);
    } else {
      EndsWith(front, last);
    }
  }

  lemma KeepsFront(front: Bits, last: Bits, at: nat)
    requires at + 4 <= |front|
    ensures (front + last)[at..at + 4] == front[at..at + 4]
  {
  }

  lemma EndsWith(front: Bits, last: Bits)
    requires |last| == 4
    ensures (front + last)[|front|..|front| + 4] == last
  {
  }

  /** The four bits of a box stand where the permutation looks for them. */
  predicate StandsAt(nibbles: seq<Bits>, m: Bits, at: nat, v: nat) {
    && at + 4 <= |m| && m[at] == BitIn(nibbles, v, 0) && m[at + 1] == BitIn(nibbles, v, 1)
    && m[at + 2] == BitIn(nibbles, v, 2) && m[at + 3] == BitIn(nibbles, v, 3)
  }

  lemma {:induction false} Block(x: Bits, b: nat, v: nat)
    requires |x| == 48 && b < 8 && v < 16 && BoxOut(b, Part(x, b * 6)) == Nibble(v)
    ensures StandsAt(NIBBLES, BoxesOut(x, 8), 4 * b, v)
  {
    BoxesOutAt(x, 8, b, Nibble(v));
    NibblesAre(v);
    SliceStands(NIBBLES, BoxesOut(x, 8), 4 * b, v);
  }

  lemma SliceStands(nibbles: seq<Bits>, m: Bits, at: nat, v: nat)
    requires at + 4 <= |m| && v < |nibbles| && |nibbles[v]| == 4 && m[at..at + 4] == nibbles[v]
    ensures StandsAt(nibbles, m, at, v)
  {
    assert m[at..at + 4][0] == m[at] && m[at..at + 4][1] == m[at + 1];
    assert m[at..at + 4][2] == m[at + 2] && m[at..at + 4][3] == m[at + 3];
  }

  predicate Below(f: Four) {
    f.a < 16 && f.b < 16 && f.c < 16 && f.d < 16
  }

  predicate AllStand(nibbles: seq<Bits>, m: Bits, v: Four, w: Four) {
    && |m| == 32
    && StandsAt(nibbles, m, 0, v.a) && StandsAt(nibbles, m, 4, v.b)
    && StandsAt(nibbles, m, 8, v.c) && StandsAt(nibbles, m, 12, v.d)
    && StandsAt(nibbles, m, 16, w.a) && StandsAt(nibbles, m, 20, w.b)
    && StandsAt(nibbles, m, 24, w.c) && StandsAt(nibbles, m, 28, w.d)
  }

  lemma FoundStand(r: Bits, c: Bits, d: Bits, v: Four, w: Four)
    requires |r| == 32 && |c| == 28 && |d| == 28 && Below(v) && Below(w)
    requires LeftFound(r, c, d, v) && RightFound(r, c, d, w)
    ensures AllStand(NIBBLES, BoxesOut(Input(r, c, d), 8), v, w)
  {
    var x := Input(r, c, d);
    Block(x, 0, v.a);
    Block(x, 1, v.b);
    Block(x, 2, v.c);
    Block(x, 3, v.d);
    Block(x, 4, w.a);
    Block(x, 5, w.b);
    Block(x, 6, w.c);
    Block(x, 7, w.d);
  }

  /** The permutation that spreads the boxes' bits. */
  predicate Spreading(p: seq<nat>) {
    && |p| == 32
    && p[0] == 16 && p[1] == 7 && p[2] == 20 && p[3] == 21
    && p[4] == 29 && p[5] == 12 && p[6] == 28 && p[7] == 17
    && p[8] == 1 && p[9] == 15 && p[10] == 23 && p[11] == 26
    && p[12] == 5 && p[13] == 18 && p[14] == 31 && p[15] == 10
    && p[16] == 2 && p[17] == 8 && p[18] == 24 && p[19] == 14
    && p[20] == 32 && p[21] == 27 && p[22] == 3 && p[23] == 9
    && p[24] == 19 && p[25] == 13 && p[26] == 30 && p[27] == 6
    && p[28] == 22 && p[29] == 11 && p[30] == 4 && p[31] == 25
  }

  lemma SpreadingIs()
    ensures Spreading(P)
  {
  }

  /** One bit of the new half, from the old one and the bits the boxes put out. */
  predicate SpreadBit(l: Bits, n: Bits, m: Bits, p: seq<nat>, i: nat) {
    i < |l| && i < |n| && i < |p| && 1 <= p[i] <= |m| && n[i] == (l[i] != m[p[i] - 1])
  }

  predicate SpreadEight(l: Bits, n: Bits, m: Bits, p: seq<nat>, i: nat) {
    && SpreadBit(l, n, m, p, i) && SpreadBit(l, n, m, p, i + 1) && SpreadBit(l, n, m, p, i + 2)
    && SpreadBit(l, n, m, p, i + 3) && SpreadBit(l, n, m, p, i + 4) && SpreadBit(l, n, m, p, i + 5)
    && SpreadBit(l, n, m, p, i + 6) && SpreadBit(l, n, m, p, i + 7)
  }

  lemma MixedSpreads(nibbles: seq<Bits>, l: Bits, v: Four, w: Four, n: Bits, m: Bits, p: seq<nat>)
    requires |l| == 32 && |n| == 32 && Mixed(nibbles, l, v, w, n) && AllStand(nibbles, m, v, w) && Spreading(p)
    ensures SpreadEight(l, n, m, p, 0) && SpreadEight(l, n, m, p, 8)
    ensures SpreadEight(l, n, m, p, 16) && SpreadEight(l, n, m, p, 24)
  {
  }

  lemma SpreadAt(l: Bits, n: Bits, m: Bits, p: seq<nat>, i: nat, j: nat)
    requires SpreadEight(l, n, m, p, i) && i <= j < i + 8
    ensures SpreadBit(l, n, m, p, j)
  {
  }

  lemma SpreadAll(l: Bits, n: Bits, m: Bits, p: seq<nat>)
    requires SpreadEight(l, n, m, p, 0) && SpreadEight(l, n, m, p, 8)
    requires SpreadEight(l, n, m, p, 16) && SpreadEight(l, n, m, p, 24)
    ensures forall j :: 0 <= j < 32 ==> SpreadBit(l, n, m, p, j)
  {
    forall j | 0 <= j < 32
      ensures SpreadBit(l, n, m, p, j)
    {
      if j < 8 { SpreadAt(l, n, m, p, 0, j); } else if j < 16 { SpreadAt(l, n, m, p, 8, j); }
      else if j < 24 { SpreadAt(l, n, m, p, 16, j); } else { SpreadAt(l, n, m, p, 24, j); }
    }
  }

  lemma SpreadIs(l: Bits, n: Bits, m: Bits, p: seq<nat>)
    requires |l| == 32 && |n| == 32 && |p| == 32
    requires forall j :: 0 <= j < 32 ==> SpreadBit(l, n, m, p, j)
    ensures n == Xor(l, Permute(m, p))
  {
    forall j | 0 <= j < 32
      ensures n[j] == (l[j] != BitAt(m, p[j]))
    {
      assert SpreadBit(l, n, m, p, j);
    }
  }

  function SubkeyAt(c: Bits, d: Bits, s: nat): (key: Bits)
    requires |c| == 28 && |d| == 28 && s <= 28
  {
    SubkeyOf(TurnedHalf(c, s), TurnedHalf(d, s))
  }

  /** What is known of a round stays closed until something is `Open`. */
  predicate Open(k: nat) { true }

  ghost predicate LeftKnown(r: Bits, c: Bits, s: nat, x: Four, v: Four)
    requires |r| == 32 && |c| == 28 && s <= 28
  {
    forall k {:trigger Open(k)} :: Open(k) ==> BoxedLeft(SIX, SBOX, r, c + c, s, x, v)
  }

  ghost predicate RightKnown(r: Bits, d: Bits, s: nat, x: Four, v: Four)
    requires |r| == 32 && |d| == 28 && s <= 28
  {
    forall k {:trigger Open(k)} :: Open(k) ==> BoxedRight(SIX, SBOX, r, d + d, s, x, v)
  }

  ghost predicate MixKnown(l: Bits, v: Four, w: Four, n: Bits)
    requires |l| == 32 && |n| == 32
  {
    forall k {:trigger Open(k)} :: Open(k) ==> Mixed(NIBBLES, l, v, w, n)
  }

  lemma BoxesFound(r: Bits, c: Bits, d: Bits, s: nat, x: Four, v: Four, y: Four, w: Four)
    requires |r| == 32 && |c| == 28 && |d| == 28 && s <= 28
    requires LeftKnown(r, c, s, x, v) && RightKnown(r, d, s, y, w)
    ensures LeftFound(r, TurnedHalf(c, s), TurnedHalf(d, s), v) && RightFound(r, TurnedHalf(c, s), TurnedHalf(d, s), w)
  {
    assert Open(0);
    TurnedIsDoubled(c, s);
    TurnedIsDoubled(d, s);
    LeftReads(r, TurnedHalf(c, s), TurnedHalf(d, s), c + c, s, x, v);
    RightReads(r, TurnedHalf(c, s), TurnedHalf(d, s), d + d, s, y, w);
  }

  lemma {:induction false} MixIs(l: Bits, v: Four, w: Four, n: Bits, m: Bits)
    requires |l| == 32 && |n| == 32 && MixKnown(l, v, w, n) && AllStand(NIBBLES, m, v, w)
    ensures n == Xor(l, Permute(m, P))
  {
    assert Open(0);
    SpreadingIs();
    MixedSpreads(NIBBLES, l, v, w, n, m, P);
    SpreadAll(l, n, m, P);
    SpreadIs(l, n, m, P);
  }

  /** A round whose steps are known is a round of the cipher. */
  lemma {:induction false} RoundIs(l: Bits, r: Bits, n: Bits, c: Bits, d: Bits, s: nat,
                                   x: Four, v: Four, y: Four, w: Four)
    requires |l| == 32 && |r| == 32 && |n| == 32 && |c| == 28 && |d| == 28 && s <= 28 && Below(v) && Below(w)
    requires LeftKnown(r, c, s, x, v) && RightKnown(r, d, s, y, w) && MixKnown(l, v, w, n)
    ensures n == Xor(l, F(r, SubkeyAt(c, d, s)))
  {
    BoxesFound(r, c, d, s, x, v, y, w);
    FoundStand(r, TurnedHalf(c, s), TurnedHalf(d, s), v, w);
    MixIs(l, v, w, n, BoxesOut(Input(r, TurnedHalf(c, s), TurnedHalf(d, s)), 8));
  }

  /** So it takes one subkey off the list. */
  lemma {:induction false} RoundOf(l: Bits, r: Bits, n: Bits, c: Bits, d: Bits, s: nat,
                                   x: Four, v: Four, y: Four, w: Four, keys: seq<Bits>, i: nat)
    requires |l| == 32 && |r| == 32 && |n| == 32 && |c| == 28 && |d| == 28 && s <= 28 && Below(v) && Below(w)
    requires LeftKnown(r, c, s, x, v) && RightKnown(r, d, s, y, w) && MixKnown(l, v, w, n)
    requires i < |keys| && keys[i] == SubkeyAt(c, d, s)
    ensures Rounds(l, r, keys[i..]) == Rounds(r, n, keys[i + 1..])
  {
    RoundIs(l, r, n, c, d, s, x, v, y, w);
    assert keys[i..][1..] == keys[i + 1..];
  }

  // --- The sixteen rounds ---

  /** The halves of the key. */
  const C0: Bits := [I, I, I, I, O, O, O, O] + [I, I, O, O, I, I, O, O] + [I, O, I, O, I, O, I, O] + [I, I, I, I]
  const D0: Bits := [O, I, O, I, O, I, O, I] + [O, I, I, O, O, I, I, O] + [O, I, I, I, I, O, O, O] + [I, I, I, I]

  /** The halves of the block, each round's new one after the one before. */
  const H0: Bits :=
    [I, I, O, O, I, I, O, O] + [O, O, O, O, O, O, O, O] + [I, I, O, O, I, I, O, O] + [I, I, I, I, I, I, I, I]
  const H1: Bits :=
    [I, I, I, I, O, O, O, O] + [I, O, I, O, I, O, I, O] + [I, I, I, I, O, O, O, O] + [I, O, I, O, I, O, I, O]
  const H2: Bits :=
    [I, I, I, O, I, I, I, I] + [O, I, O, O, I, O, I, O] + [O, I, I, O, O, I, O, I] + [O, I, O, O, O, I, O, O]
  const H3: Bits :=
    [I, I, O, O, I, I, O, O] + [O, O, O, O, O, O, O, I] + [O, I, I, I, O, I, I, I] + [O, O, O, O, I, O, O, I]
  const H4: Bits :=
    [I, O, I, O, O, O, I, O] + [O, I, O, I, I, I, O, O] + [O, O, O, O, I, O, I, I] + [I, I, I, I, O, I, O, O]
  const H5: Bits :=
    [O, I, I, I, O, I, I, I] + [O, O, I, O, O, O, I, O] + [O, O, O, O, O, O, O, O] + [O, I, O, O, O, I, O, I]
  const H6: Bits :=
    [I, O, O, O, I, O, I, O] + [O, I, O, O, I, I, I, I] + [I, O, I, O, O, I, I, O] + [O, O, I, I, O, I, I, I]
  const H7: Bits :=
    [I, I, I, O, I, O, O, I] + [O, I, I, O, O, I, I, I] + [I, I, O, O, I, I, O, I] + [O, I, I, O, I, O, O, I]
  const H8: Bits :=
    [O, O, O, O, O, I, I, O] + [O, I, O, O, I, O, I, O] + [I, O, I, I, I, O, I, O] + [O, O, O, I, O, O, O, O]
  const H9: Bits :=
    [I, I, O, I, O, I, O, I] + [O, I, I, O, I, O, O, I] + [O, I, O, O, I, O, I, I] + [I, O, O, I, O, O, O, O]
  const H10: Bits :=
    [O, O, I, O, O, I, O, O] + [O, I, I, I, I, I, O, O] + [I, I, O, O, O, I, I, O] + [O, I, I, I, I, O, I, O]
  const H11: Bits :=
    [I, O, I, I, O, I, I, I] + [I, I, O, I, O, I, O, I] + [I, I, O, I, O, I, I, I] + [I, O, I, I, O, O, I, O]
  const H12: Bits :=
    [I, I, O, O, O, I, O, I] + [O, I, I, I, I, O, O, O] + [O, O, I, I, I, I, O, O] + [O, I, I, I, I, O, O, O]
  const H13: Bits :=
    [O, I, I, I, O, I, O, I] + [I, O, I, I, I, I, O, I] + [O, O, O, I, I, O, O, O] + [O, I, O, I, I, O, O, O]
  const H14: Bits :=
    [O, O, O, I, I, O, O, O] + [I, I, O, O, O, O, I, I] + [O, O, O, I, O, I, O, I] + [O, I, O, I, I, O, I, O]
  const H15: Bits :=
    [I, I, O, O, O, O, I, O] + [I, O, O, O, I, I, O, O] + [I, O, O, I, O, I, I, O] + [O, O, O, O, I, I, O, I]
  const H16: Bits :=
    [O, I, O, O, O, O, I, I] + [O, I, O, O, O, O, I, O] + [O, O, I, I, O, O, I, O] + [O, O, I, I, O, I, O, O]
  const H17: Bits :=
    [O, O, O, O, I, O, I, O] + [O, I, O, O, I, I, O, O] + [I, I, O, I, I, O, O, I] + [I, O, O, I, O, I, O, I]

  lemma Left1() ensures LeftKnown(H1, C0, 1, Four(12, 24, 15, 45), Four(5, 12, 8, 2)) {}
  lemma Right1() ensures RightKnown(H1, D0, 1, Four(48, 35, 10, 51), Four(11, 5, 9, 7)) {}
  lemma Mix1() ensures MixKnown(H0, Four(5, 12, 8, 2), Four(11, 5, 9, 7), H2) {}

  lemma Left2() ensures LeftKnown(H2, C0, 2, Four(17, 2, 9, 22), Four(15, 8, 13, 0)) {}
  lemma Right2() ensures RightKnown(H2, D0, 2, Four(45, 43, 23, 38), Four(3, 10, 10, 14)) {}
  lemma Mix2() ensures MixKnown(H1, Four(15, 8, 13, 0), Four(3, 10, 10, 14), H3) {}

  lemma Left3() ensures LeftKnown(H3, C0, 4, Four(38, 19, 41, 4), Four(2, 7, 1, 0)) {}
  lemma Right3() ensures RightKnown(H3, D0, 4, Four(47, 1, 31, 5), Four(14, 1, 6, 15)) {}
  lemma Mix3() ensures MixKnown(H2, Four(2, 7, 1, 0), Four(14, 1, 6, 15), H4) {}

  lemma Left4() ensures LeftKnown(H4, C0, 6, Four(4, 39, 46, 39), Four(2, 1, 14, 13)) {}
  lemma Right4() ensures RightKnown(H4, D0, 6, Four(59, 34, 37, 42), Four(9, 15, 3, 10)) {}
  lemma Mix4() ensures MixKnown(H3, Four(2, 1, 14, 13), Four(9, 15, 3, 10), H5) {}

  lemma Left5() ensures LeftKnown(H5, C0, 8, Four(56, 32, 10, 17), Four(5, 0, 12, 8)) {}
  lemma Right5() ensures RightKnown(H5, D0, 8, Four(45, 58, 3, 33), Four(3, 1, 14, 11)) {}
  lemma Mix5() ensures MixKnown(H4, Four(5, 0, 12, 8), Four(3, 1, 14, 11), H6) {}

  lemma Left6() ensures LeftKnown(H6, C0, 10, Four(52, 39, 30, 48), Four(4, 1, 15, 3)) {}
  lemma Right6() ensures RightKnown(H6, D0, 10, Four(32, 21, 37, 0), Four(4, 12, 3, 13)) {}
  lemma Mix6() ensures MixKnown(H5, Four(4, 1, 15, 3), Four(4, 12, 3, 13), H7) {}

  lemma Left7() ensures LeftKnown(H7, C0, 12, Four(3, 13, 47, 44), Four(1, 0, 7, 5)) {}
  lemma Right7() ensures RightKnown(H7, D0, 12, Four(2, 61, 23, 55), Four(4, 0, 10, 13)) {}
  lemma Mix7() ensures MixKnown(H6, Four(1, 0, 7, 5), Four(4, 0, 10, 13), H8) {}

  lemma Left8() ensures LeftKnown(H8, C0, 14, Four(62, 42, 48, 55), Four(6, 12, 1, 8)) {}
  lemma Right8() ensures RightKnown(H8, D0, 14, Four(51, 51, 54, 29), Four(7, 12, 10, 14)) {}
  lemma Mix8() ensures MixKnown(H7, Four(6, 12, 1, 8), Four(7, 12, 10, 14), H9) {}

  lemma Left9() ensures LeftKnown(H9, C0, 15, Four(33, 51, 1, 60), Four(1, 1, 0, 12)) {}
  lemma Right9() ensures RightKnown(H9, D0, 15, Four(9, 20, 38, 32), Four(5, 7, 7, 7)) {}
  lemma Mix9() ensures MixKnown(H8, Four(1, 1, 0, 12), Four(5, 7, 7, 7), H10) {}

  lemma Left10() ensures LeftKnown(H10, C0, 17, Four(36, 27, 1, 47), Four(13, 10, 0, 4)) {}
  lemma Right10() ensures RightKnown(H10, D0, 17, Four(43, 36, 11, 61), Four(5, 2, 7, 5)) {}
  lemma Mix10() ensures MixKnown(H9, Four(13, 10, 0, 4), Four(5, 2, 7, 5), H11) {}

  lemma Left11() ensures LeftKnown(H11, C0, 19, Four(15, 45, 18, 44), Four(7, 3, 0, 5)) {}
  lemma Right11() ensures RightKnown(H11, D0, 19, Four(22, 1, 44, 49), Four(13, 1, 0, 1)) {}
  lemma Mix11() ensures MixKnown(H10, Four(7, 3, 0, 5), Four(13, 1, 0, 1), H12) {}

  lemma Left12() ensures LeftKnown(H12, C0, 21, Four(18, 30, 36, 18), Four(7, 11, 8, 11)) {}
  lemma Right12() ensures RightKnown(H12, D0, 21, Four(33, 47, 8, 12), Four(2, 6, 3, 5)) {}
  lemma Mix12() ensures MixKnown(H11, Four(7, 11, 8, 11), Four(2, 6, 3, 5), H13) {}

  lemma Left13() ensures LeftKnown(H13, C0, 23, Four(53, 27, 32, 53), Four(9, 10, 13, 1)) {}
  lemma Right13() ensures RightKnown(H13, D0, 23, Four(30, 29, 33, 56), Four(8, 11, 4, 15)) {}
  lemma Mix13() ensures MixKnown(H12, Four(9, 10, 13, 1), Four(8, 11, 4, 15), H14) {}

  lemma Left14() ensures LeftKnown(H14, C0, 25, Four(10, 18, 11, 56), Four(6, 4, 7, 9)) {}
  lemma Right14() ensures RightKnown(H14, D0, 25, Four(15, 2, 59, 7), Four(9, 10, 15, 1)) {}
  lemma Mix14() ensures MixKnown(H13, Four(6, 4, 7, 9), Four(9, 10, 15, 1), H15) {}

  lemma Left15() ensures LeftKnown(H15, C0, 27, Four(27, 46, 27, 10), Four(11, 2, 14, 8)) {}
  lemma Right15() ensures RightKnown(H15, D0, 27, Four(30, 63, 62, 24), Four(8, 13, 3, 12)) {}
  lemma Mix15() ensures MixKnown(H14, Four(11, 2, 14, 8), Four(8, 13, 3, 12), H16) {}

  lemma Left16() ensures LeftKnown(H16, C0, 28, Four(45, 58, 15, 23), Four(10, 7, 8, 3)) {}
  lemma Right16() ensures RightKnown(H16, D0, 28, Four(18, 18, 28, 30), Four(2, 4, 2, 9)) {}
  lemma Mix16() ensures MixKnown(H15, Four(10, 7, 8, 3), Four(2, 4, 2, 9), H17) {}

  // --- From bytes to bytes ---

  const KEY: seq<byte> := [0x13, 0x34, 0x57, 0x79, 0x9b, 0xbc, 0xdf, 0xf1]
  const BLOCK: seq<byte> := [0x01, 0x23, 0x45, 0x67, 0x89, 0xab, 0xcd, 0xef]
  const ANSWER: seq<byte> := [0x85, 0xe8, 0x13, 0x54, 0x0f, 0x0a, 0xb4, 0x05]

  const KEY_BITS: Bits :=
    (Nibble(0x1) + Nibble(0x3)) + ((Nibble(0x3) + Nibble(0x4)) + ((Nibble(0x5) + Nibble(0x7))
    + ((Nibble(0x7) + Nibble(0x9)) + ((Nibble(0x9) + Nibble(0xb)) + ((Nibble(0xb) + Nibble(0xc))
    + ((Nibble(0xd) + Nibble(0xf)) + ((Nibble(0xf) + Nibble(0x1)) + [])))))))
  const BLOCK_BITS: Bits :=
    (Nibble(0x0) + Nibble(0x1)) + ((Nibble(0x2) + Nibble(0x3)) + ((Nibble(0x4) + Nibble(0x5))
    + ((Nibble(0x6) + Nibble(0x7)) + ((Nibble(0x8) + Nibble(0x9)) + ((Nibble(0xa) + Nibble(0xb))
    + ((Nibble(0xc) + Nibble(0xd)) + ((Nibble(0xe) + Nibble(0xf)) + [])))))))
  const ANSWER_BITS: Bits :=
    (Nibble(0x8) + Nibble(0x5)) + ((Nibble(0xe) + Nibble(0x8)) + ((Nibble(0x1) + Nibble(0x3))
    + ((Nibble(0x5) + Nibble(0x4)) + ((Nibble(0x0) + Nibble(0xf)) + ((Nibble(0x0) + Nibble(0xa))
    + ((Nibble(0xb) + Nibble(0x4)) + ((Nibble(0x0) + Nibble(0x5)) + [])))))))

  lemma NibbleBits(v: nat)
    requires v < 16
    ensures BitsOf(v, 4) == Nibble(v)
  {
    var a := v / 2;
    var b := a / 2;
    var c := b / 2;
    assert BitsOf(c / 2, 0) == [] && BitsOf(c, 1) == [Bit(c)];
    assert BitsOf(b, 2) == [Bit(c), Bit(b)];
    assert BitsOf(a, 3) == [Bit(c), Bit(b), Bit(a)];
    assert b == v / 4 && c == v / 8;
  }

  /** The low bits are what is left when the high ones are taken apart by themselves. */
  lemma {:induction false} BitsSplit(hi: nat, lo: nat, n: nat, p: nat)
    requires p == Pow2(n) && lo < p
    ensures BitsOf(hi * p + lo, 4 + n) == BitsOf(hi, 4) + BitsOf(lo, n)
    decreases n
  {
    if n == 0 {
      assert BitsOf(hi, 4) + [] == BitsOf(hi, 4);
    } else {
      var q := Pow2(n - 1);
      Halved(hi, lo, q);
      BitsSplit(hi, lo / 2, n - 1, q);
      assert BitsOf(hi, 4) + (BitsOf(lo / 2, n - 1) + [Bit(lo)]) == (BitsOf(hi, 4) + BitsOf(lo / 2, n - 1)) + [Bit(lo)];
    }
  }

  lemma Halved(hi: nat, lo: nat, q: nat)
    requires lo < 2 * q
    ensures (hi * (2 * q) + lo) / 2 == hi * q + lo / 2 && Bit(hi * (2 * q) + lo) == Bit(lo)
  {
    var h := hi * q;
    assert hi * (2 * q) == 2 * h;
  }

  lemma ByteIs(hi: nat, lo: nat)
    requires hi < 16 && lo < 16
    ensures 16 * hi + lo < 256 && ByteBits((16 * hi + lo) as byte) == Nibble(hi) + Nibble(lo)
  {
    assert Pow2(4) == 2 * (2 * (2 * (2 * Pow2(0))));
    BitsSplit(hi, lo, 4, 16);
    NibbleBits(hi);
    NibbleBits(lo);
  }

  /** The byte at `i` as two lists of four bits. */
  lemma ByteAt(b: seq<byte>, i: nat, hi: nat, lo: nat)
    requires i < |b| && hi < 16 && lo < 16 && b[i] as nat == 16 * hi + lo
    ensures ToBits(b[i..]) == (Nibble(hi) + Nibble(lo)) + ToBits(b[i + 1..])
  {
    ByteIs(hi, lo);
    assert b[i..][1..] == b[i + 1..];
  }

  lemma KeyBits()
    ensures ToBits(KEY) == KEY_BITS
  {
    ByteAt(KEY, 0, 0x1, 0x3); ByteAt(KEY, 1, 0x3, 0x4); ByteAt(KEY, 2, 0x5, 0x7);
    ByteAt(KEY, 3, 0x7, 0x9); ByteAt(KEY, 4, 0x9, 0xb); ByteAt(KEY, 5, 0xb, 0xc);
    ByteAt(KEY, 6, 0xd, 0xf); ByteAt(KEY, 7, 0xf, 0x1);
    assert KEY[0..] == KEY && KEY[8..] == [];
  }

  lemma BlockBits()
    ensures ToBits(BLOCK) == BLOCK_BITS
  {
    ByteAt(BLOCK, 0, 0x0, 0x1); ByteAt(BLOCK, 1, 0x2, 0x3); ByteAt(BLOCK, 2, 0x4, 0x5);
    ByteAt(BLOCK, 3, 0x6, 0x7); ByteAt(BLOCK, 4, 0x8, 0x9); ByteAt(BLOCK, 5, 0xa, 0xb);
    ByteAt(BLOCK, 6, 0xc, 0xd); ByteAt(BLOCK, 7, 0xe, 0xf);
    assert BLOCK[0..] == BLOCK && BLOCK[8..] == [];
  }

  lemma AnswerBits()
    ensures ToBits(ANSWER) == ANSWER_BITS
  {
    ByteAt(ANSWER, 0, 0x8, 0x5); ByteAt(ANSWER, 1, 0xe, 0x8); ByteAt(ANSWER, 2, 0x1, 0x3);
    ByteAt(ANSWER, 3, 0x5, 0x4); ByteAt(ANSWER, 4, 0x0, 0xf); ByteAt(ANSWER, 5, 0x0, 0xa);
    ByteAt(ANSWER, 6, 0xb, 0x4); ByteAt(ANSWER, 7, 0x0, 0x5);
    assert ANSWER[0..] == ANSWER && ANSWER[8..] == [];
  }

  predicate PickedBit(a: Bits, t: seq<nat>, b: Bits, i: nat) {
    i < |t| && i < |b| && 1 <= t[i] <= |a| && b[i] == a[t[i] - 1]
  }

  predicate PickedEight(a: Bits, t: seq<nat>, b: Bits, i: nat) {
    && PickedBit(a, t, b, i) && PickedBit(a, t, b, i + 1) && PickedBit(a, t, b, i + 2)
    && PickedBit(a, t, b, i + 3) && PickedBit(a, t, b, i + 4) && PickedBit(a, t, b, i + 5)
    && PickedBit(a, t, b, i + 6) && PickedBit(a, t, b, i + 7)
  }

  ghost predicate PickedKnown(a: Bits, t: seq<nat>, b: Bits, i: nat) {
    forall k {:trigger Open(k)} :: Open(k) ==> PickedEight(a, t, b, i)
  }

  lemma PickedAt(a: Bits, t: seq<nat>, b: Bits, i: nat, j: nat)
    requires PickedKnown(a, t, b, i) && i <= j < i + 8
    ensures PickedBit(a, t, b, j)
  {
    assert Open(0);
  }

  lemma PickedAll(a: Bits, t: seq<nat>, b: Bits)
    requires |t| == |b| && 56 <= |t| <= 64
    requires PickedKnown(a, t, b, 0) && PickedKnown(a, t, b, 8) && PickedKnown(a, t, b, 16) && PickedKnown(a, t, b, 24)
    requires PickedKnown(a, t, b, 32) && PickedKnown(a, t, b, 40) && PickedKnown(a, t, b, 48)
    requires |t| > 56 ==> PickedKnown(a, t, b, 56)
    ensures Permute(a, t) == b
  {
    forall j | 0 <= j < |t|
      ensures BitAt(a, t[j]) == b[j]
    {
      if j < 8 { PickedAt(a, t, b, 0, j); } else if j < 16 { PickedAt(a, t, b, 8, j); }
      else if j < 24 { PickedAt(a, t, b, 16, j); } else if j < 32 { PickedAt(a, t, b, 24, j); }
      else if j < 40 { PickedAt(a, t, b, 32, j); } else if j < 48 { PickedAt(a, t, b, 40, j); }
      else if j < 56 { PickedAt(a, t, b, 48, j); } else { PickedAt(a, t, b, 56, j); }
      assert PickedBit(a, t, b, j);
    }
  }

  lemma Key1() ensures PickedKnown(KEY_BITS, PC1, C0 + D0, 0) {}
  lemma Key2() ensures PickedKnown(KEY_BITS, PC1, C0 + D0, 8) {}
  lemma Key3() ensures PickedKnown(KEY_BITS, PC1, C0 + D0, 16) {}
  lemma Key4() ensures PickedKnown(KEY_BITS, PC1, C0 + D0, 24) {}
  lemma Key5() ensures PickedKnown(KEY_BITS, PC1, C0 + D0, 32) {}
  lemma Key6() ensures PickedKnown(KEY_BITS, PC1, C0 + D0, 40) {}
  lemma Key7() ensures PickedKnown(KEY_BITS, PC1, C0 + D0, 48) {}
  lemma Block1() ensures PickedKnown(BLOCK_BITS, IP, H0 + H1, 0) {}
  lemma Block2() ensures PickedKnown(BLOCK_BITS, IP, H0 + H1, 8) {}
  lemma Block3() ensures PickedKnown(BLOCK_BITS, IP, H0 + H1, 16) {}
  lemma Block4() ensures PickedKnown(BLOCK_BITS, IP, H0 + H1, 24) {}
  lemma Block5() ensures PickedKnown(BLOCK_BITS, IP, H0 + H1, 32) {}
  lemma Block6() ensures PickedKnown(BLOCK_BITS, IP, H0 + H1, 40) {}
  lemma Block7() ensures PickedKnown(BLOCK_BITS, IP, H0 + H1, 48) {}
  lemma Block8() ensures PickedKnown(BLOCK_BITS, IP, H0 + H1, 56) {}
  lemma Answer1() ensures PickedKnown(H17 + H16, FP, ANSWER_BITS, 0) {}
  lemma Answer2() ensures PickedKnown(H17 + H16, FP, ANSWER_BITS, 8) {}
  lemma Answer3() ensures PickedKnown(H17 + H16, FP, ANSWER_BITS, 16) {}
  lemma Answer4() ensures PickedKnown(H17 + H16, FP, ANSWER_BITS, 24) {}
  lemma Answer5() ensures PickedKnown(H17 + H16, FP, ANSWER_BITS, 32) {}
  lemma Answer6() ensures PickedKnown(H17 + H16, FP, ANSWER_BITS, 40) {}
  lemma Answer7() ensures PickedKnown(H17 + H16, FP, ANSWER_BITS, 48) {}
  lemma Answer8() ensures PickedKnown(H17 + H16, FP, ANSWER_BITS, 56) {}

  lemma KeyPermuted()
    ensures Permute(ToBits(KEY), PC1) == C0 + D0
  {
    ShiftsSmall();
    KeyBits();
    Key1(); Key2(); Key3(); Key4(); Key5(); Key6(); Key7();
    PickedAll(KEY_BITS, PC1, C0 + D0);
  }

  lemma BlockPermuted()
    ensures Permute(ToBits(BLOCK), IP) == H0 + H1
  {
    ShiftsSmall();
    BlockBits();
    Block1(); Block2(); Block3(); Block4(); Block5(); Block6(); Block7(); Block8();
    PickedAll(BLOCK_BITS, IP, H0 + H1);
  }

  lemma AnswerPermuted()
    ensures Permute(H17 + H16, FP) == ToBits(ANSWER)
  {
    ShiftsSmall();
    AnswerBits();
    Answer1(); Answer2(); Answer3(); Answer4(); Answer5(); Answer6(); Answer7(); Answer8();
    PickedAll(H17 + H16, FP, ANSWER_BITS);
  }

  lemma SubkeyIs(i: nat, s: nat)
    requires i < 16 && |TURNS| == 16 && TURNS[i] == s <= 28
    ensures Subkeys(KEY)[i] == SubkeyAt(C0, D0, s)
  {
    KeyPermuted();
    SubkeysAt(KEY, C0, D0, i);
  }

  lemma Round1() ensures Rounds(H0, H1, Subkeys(KEY)[0..]) == Rounds(H1, H2, Subkeys(KEY)[1..]) {
    Left1(); Right1(); Mix1(); SubkeyIs(0, 1);
    RoundOf(H0, H1, H2, C0, D0, 1, Four(12, 24, 15, 45), Four(5, 12, 8, 2),
            Four(48, 35, 10, 51), Four(11, 5, 9, 7), Subkeys(KEY), 0);
  }

  lemma Round2() ensures Rounds(H1, H2, Subkeys(KEY)[1..]) == Rounds(H2, H3, Subkeys(KEY)[2..]) {
    Left2(); Right2(); Mix2(); SubkeyIs(1, 2);
    RoundOf(H1, H2, H3, C0, D0, 2, Four(17, 2, 9, 22), Four(15, 8, 13, 0),
            Four(45, 43, 23, 38), Four(3, 10, 10, 14), Subkeys(KEY), 1);
  }

  lemma Round3() ensures Rounds(H2, H3, Subkeys(KEY)[2..]) == Rounds(H3, H4, Subkeys(KEY)[3..]) {
    Left3(); Right3(); Mix3(); SubkeyIs(2, 4);
    RoundOf(H2, H3, H4, C0, D0, 4, Four(38, 19, 41, 4), Four(2, 7, 1, 0),
            Four(47, 1, 31, 5), Four(14, 1, 6, 15), Subkeys(KEY), 2);
  }

  lemma Round4() ensures Rounds(H3, H4, Subkeys(KEY)[3..]) == Rounds(H4, H5, Subkeys(KEY)[4..]) {
    Left4(); Right4(); Mix4(); SubkeyIs(3, 6);
    RoundOf(H3, H4, H5, C0, D0, 6, Four(4, 39, 46, 39), Four(2, 1, 14, 13),
            Four(59, 34, 37, 42), Four(9, 15, 3, 10), Subkeys(KEY), 3);
  }

  lemma Round5() ensures Rounds(H4, H5, Subkeys(KEY)[4..]) == Rounds(H5, H6, Subkeys(KEY)[5..]) {
    Left5(); Right5(); Mix5(); SubkeyIs(4, 8);
    RoundOf(H4, H5, H6, C0, D0, 8, Four(56, 32, 10, 17), Four(5, 0, 12, 8),
            Four(45, 58, 3, 33), Four(3, 1, 14, 11), Subkeys(KEY), 4);
  }

  lemma Round6() ensures Rounds(H5, H6, Subkeys(KEY)[5..]) == Rounds(H6, H7, Subkeys(KEY)[6..]) {
    Left6(); Right6(); Mix6(); SubkeyIs(5, 10);
    RoundOf(H5, H6, H7, C0, D0, 10, Four(52, 39, 30, 48), Four(4, 1, 15, 3),
            Four(32, 21, 37, 0), Four(4, 12, 3, 13), Subkeys(KEY), 5);
  }

  lemma Round7() ensures Rounds(H6, H7, Subkeys(KEY)[6..]) == Rounds(H7, H8, Subkeys(KEY)[7..]) {
    Left7(); Right7(); Mix7(); SubkeyIs(6, 12);
    RoundOf(H6, H7, H8, C0, D0, 12, Four(3, 13, 47, 44), Four(1, 0, 7, 5),
            Four(2, 61, 23, 55), Four(4, 0, 10, 13), Subkeys(KEY), 6);
  }

  lemma Round8() ensures Rounds(H7, H8, Subkeys(KEY)[7..]) == Rounds(H8, H9, Subkeys(KEY)[8..]) {
    Left8(); Right8(); Mix8(); SubkeyIs(7, 14);
    RoundOf(H7, H8, H9, C0, D0, 14, Four(62, 42, 48, 55), Four(6, 12, 1, 8),
            Four(51, 51, 54, 29), Four(7, 12, 10, 14), Subkeys(KEY), 7);
  }

  lemma Round9() ensures Rounds(H8, H9, Subkeys(KEY)[8..]) == Rounds(H9, H10, Subkeys(KEY)[9..]) {
    Left9(); Right9(); Mix9(); SubkeyIs(8, 15);
    RoundOf(H8, H9, H10, C0, D0, 15, Four(33, 51, 1, 60), Four(1, 1, 0, 12),
            Four(9, 20, 38, 32), Four(5, 7, 7, 7), Subkeys(KEY), 8);
  }

  lemma Round10() ensures Rounds(H9, H10, Subkeys(KEY)[9..]) == Rounds(H10, H11, Subkeys(KEY)[10..]) {
    Left10(); Right10(); Mix10(); SubkeyIs(9, 17);
    RoundOf(H9, H10, H11, C0, D0, 17, Four(36, 27, 1, 47), Four(13, 10, 0, 4),
            Four(43, 36, 11, 61), Four(5, 2, 7, 5), Subkeys(KEY), 9);
  }

  lemma Round11() ensures Rounds(H10, H11, Subkeys(KEY)[10..]) == Rounds(H11, H12, Subkeys(KEY)[11..]) {
    Left11(); Right11(); Mix11(); SubkeyIs(10, 19);
    RoundOf(H10, H11, H12, C0, D0, 19, Four(15, 45, 18, 44), Four(7, 3, 0, 5),
            Four(22, 1, 44, 49), Four(13, 1, 0, 1), Subkeys(KEY), 10);
  }

  lemma Round12() ensures Rounds(H11, H12, Subkeys(KEY)[11..]) == Rounds(H12, H13, Subkeys(KEY)[12..]) {
    Left12(); Right12(); Mix12(); SubkeyIs(11, 21);
    RoundOf(H11, H12, H13, C0, D0, 21, Four(18, 30, 36, 18), Four(7, 11, 8, 11),
            Four(33, 47, 8, 12), Four(2, 6, 3, 5), Subkeys(KEY), 11);
  }

  lemma Round13() ensures Rounds(H12, H13, Subkeys(KEY)[12..]) == Rounds(H13, H14, Subkeys(KEY)[13..]) {
    Left13(); Right13(); Mix13(); SubkeyIs(12, 23);
    RoundOf(H12, H13, H14, C0, D0, 23, Four(53, 27, 32, 53), Four(9, 10, 13, 1),
            Four(30, 29, 33, 56), Four(8, 11, 4, 15), Subkeys(KEY), 12);
  }

  lemma Round14() ensures Rounds(H13, H14, Subkeys(KEY)[13..]) == Rounds(H14, H15, Subkeys(KEY)[14..]) {
    Left14(); Right14(); Mix14(); SubkeyIs(13, 25);
    RoundOf(H13, H14, H15, C0, D0, 25, Four(10, 18, 11, 56), Four(6, 4, 7, 9),
            Four(15, 2, 59, 7), Four(9, 10, 15, 1), Subkeys(KEY), 13);
  }

  lemma Round15() ensures Rounds(H14, H15, Subkeys(KEY)[14..]) == Rounds(H15, H16, Subkeys(KEY)[15..]) {
    Left15(); Right15(); Mix15(); SubkeyIs(14, 27);
    RoundOf(H14, H15, H16, C0, D0, 27, Four(27, 46, 27, 10), Four(11, 2, 14, 8),
            Four(30, 63, 62, 24), Four(8, 13, 3, 12), Subkeys(KEY), 14);
  }

  lemma Round16() ensures Rounds(H15, H16, Subkeys(KEY)[15..]) == Rounds(H16, H17, Subkeys(KEY)[16..]) {
    Left16(); Right16(); Mix16(); SubkeyIs(15, 28);
    RoundOf(H15, H16, H17, C0, D0, 28, Four(45, 58, 15, 23), Four(10, 7, 8, 3),
            Four(18, 18, 28, 30), Four(2, 4, 2, 9), Subkeys(KEY), 15);
  }

  lemma FirstRounds() ensures Rounds(H0, H1, Subkeys(KEY)[0..]) == Rounds(H4, H5, Subkeys(KEY)[4..]) {
    Round1(); Round2(); Round3(); Round4();
  }

  lemma SecondRounds() ensures Rounds(H4, H5, Subkeys(KEY)[4..]) == Rounds(H8, H9, Subkeys(KEY)[8..]) {
    Round5(); Round6(); Round7(); Round8();
  }

  lemma ThirdRounds() ensures Rounds(H8, H9, Subkeys(KEY)[8..]) == Rounds(H12, H13, Subkeys(KEY)[12..]) {
    Round9(); Round10(); Round11(); Round12();
  }

  lemma LastRounds() ensures Rounds(H12, H13, Subkeys(KEY)[12..]) == Rounds(H16, H17, Subkeys(KEY)[16..]) {
    Round13(); Round14(); Round15(); Round16();
  }

  lemma AllRounds()
    ensures Rounds(H0, H1, Subkeys(KEY)) == (H16, H17)
  {
    FirstRounds();
    SecondRounds();
    ThirdRounds();
    LastRounds();
    assert Subkeys(KEY)[0..] == Subkeys(KEY) && Subkeys(KEY)[16..] == [];
  }

  lemma CryptIs(keys: seq<Bits>, block: Bits, l: Bits, r: Bits, l': Bits, r': Bits)
    requires |l| == 32 && |r| == 32 && |IP| == 64 && Permute(block, IP) == l + r && Rounds(l, r, keys) == (l', r')
    ensures Crypt(keys, block) == Permute(r' + l', FP)
  {
    assert (l + r)[..32] == l && (l + r)[32..] == r;
  }

  /** The known answer, and the way back from it. */
  lemma KnownAnswer()
    ensures Encrypt(KEY, BLOCK) == ANSWER
  {
    ShiftsSmall();
    BlockPermuted();
    AllRounds();
    CryptIs(Subkeys(KEY), ToBits(BLOCK), H0, H1, H16, H17);
    AnswerPermuted();
    BytesRoundTrip(ANSWER);
  }
}
