/**
 * What the S-boxes of FIPS 46-3 were chosen for: with the outer bits fixed a
 * box is a permutation of the sixteen values, and any one input bit changes at
 * least two output bits.
 */
module SBoxes {
  import opened DesTables
  import opened Des

  const O := false
  const I := true

  // --- Values in a box's table ---

  /** Which values of four bits differ in at least two of them. */
  const A0: Bits := [O, O, O, I, O, I, I, I] + [O, I, I, I, I, I, I, I]
  const A1: Bits := [O, O, I, O, I, O, I, I] + [I, O, I, I, I, I, I, I]
  const A2: Bits := [O, I, O, O, I, I, O, I] + [I, I, O, I, I, I, I, I]
  const A3: Bits := [I, O, O, O, I, I, I, O] + [I, I, I, O, I, I, I, I]
  const A4: Bits := [O, I, I, I, O, O, O, I] + [I, I, I, I, O, I, I, I]
  const A5: Bits := [I, O, I, I, O, O, I, O] + [I, I, I, I, I, O, I, I]
  const A6: Bits := [I, I, O, I, O, I, O, O] + [I, I, I, I, I, I, O, I]
  const A7: Bits := [I, I, I, O, I, O, O, O] + [I, I, I, I, I, I, I, O]
  const A8: Bits := [O, I, I, I, I, I, I, I] + [O, O, O, I, O, I, I, I]
  const A9: Bits := [I, O, I, I, I, I, I, I] + [O, O, I, O, I, O, I, I]
  const A10: Bits := [I, I, O, I, I, I, I, I] + [O, I, O, O, I, I, O, I]
  const A11: Bits := [I, I, I, O, I, I, I, I] + [I, O, O, O, I, I, I, O]
  const A12: Bits := [I, I, I, I, O, I, I, I] + [O, I, I, I, O, O, O, I]
  const A13: Bits := [I, I, I, I, I, O, I, I] + [I, O, I, I, O, O, I, O]
  const A14: Bits := [I, I, I, I, I, I, O, I] + [I, I, O, I, O, I, O, O]
  const A15: Bits := [I, I, I, I, I, I, I, O] + [I, I, I, O, I, O, O, O]
  const APART: seq<Bits> :=
    [A0, A1, A2, A3, A4, A5, A6, A7] + [A8, A9, A10, A11, A12, A13, A14, A15]

  function Nibble(v: nat): Bits {
    [v / 8 % 2 == 1, v / 4 % 2 == 1, v / 2 % 2 == 1, v % 2 == 1]
  }

  /** In how many places two lists of four bits differ. */
  function Distance(a: Bits, b: Bits): nat
    requires |a| == 4 && |b| == 4
  {
    Weight(a[0] != b[0]) + Weight(a[1] != b[1]) + Weight(a[2] != b[2]) + Weight(a[3] != b[3])
  }

  predicate Apart(v: nat, w: nat) {
    v < |APART| && w < |APART[v]| && APART[v][w]
  }

  lemma ApartFrom(low: nat, v: nat, w: nat)
    requires low < 4 && 4 * low <= v < 4 * low + 4 && w < 16 && Apart(v, w)
    ensures Distance(Nibble(v), Nibble(w)) >= 2
  {
    if low == 0 { ApartFirst(v, w); } else if low == 1 { ApartSecond(v, w); }
    else if low == 2 { ApartThird(v, w); } else { ApartFourth(v, w); }
  }

  lemma ApartFirst(v: nat, w: nat)
    requires v < 4 && w < 16 && Apart(v, w)
    ensures Distance(Nibble(v), Nibble(w)) >= 2
  {
  }

  lemma ApartSecond(v: nat, w: nat)
    requires 4 <= v < 8 && w < 16 && Apart(v, w)
    ensures Distance(Nibble(v), Nibble(w)) >= 2
  {
  }

  lemma ApartThird(v: nat, w: nat)
    requires 8 <= v < 12 && w < 16 && Apart(v, w)
    ensures Distance(Nibble(v), Nibble(w)) >= 2
  {
  }

  lemma ApartFourth(v: nat, w: nat)
    requires 12 <= v < 16 && w < 16 && Apart(v, w)
    ensures Distance(Nibble(v), Nibble(w)) >= 2
  {
  }

  predicate Far(m: seq<Bits>, t: seq<nat>, i: nat, j: nat) {
    i < |t| && j < |t| && t[i] < |m| && t[j] < |m[t[i]]| && m[t[i]][t[j]]
  }

  /** The bit of weight `w` is not set in `k`. */
  predicate Clear(k: nat, w: nat)
    requires w > 0
  {
    k / w % 2 == 0
  }

  /** Entries whose places differ in the bit of weight `w` are apart. */
  ghost predicate PairsApart(m: seq<Bits>, t: seq<nat>, w: nat)
    requires w > 0
  {
    forall k {:trigger Clear(k, w)} :: 0 <= k < 64 && Clear(k, w) ==> Far(m, t, k, k + w)
  }

  predicate FarBy1(m: seq<Bits>, t: seq<nat>, i: nat) {
    Far(m, t, i, i + 1) && Far(m, t, i + 2, i + 3) && Far(m, t, i + 4, i + 5) && Far(m, t, i + 6, i + 7)
  }

  predicate FarBy2(m: seq<Bits>, t: seq<nat>, i: nat) {
    Far(m, t, i, i + 2) && Far(m, t, i + 1, i + 3) && Far(m, t, i + 4, i + 6) && Far(m, t, i + 5, i + 7)
  }

  predicate FarBy4(m: seq<Bits>, t: seq<nat>, i: nat) {
    Far(m, t, i, i + 4) && Far(m, t, i + 1, i + 5) && Far(m, t, i + 2, i + 6) && Far(m, t, i + 3, i + 7)
  }

  predicate FarAcross(m: seq<Bits>, t: seq<nat>, i: nat, j: nat) {
    && Far(m, t, i, j) && Far(m, t, i + 1, j + 1) && Far(m, t, i + 2, j + 2) && Far(m, t, i + 3, j + 3)
    && Far(m, t, i + 4, j + 4) && Far(m, t, i + 5, j + 5) && Far(m, t, i + 6, j + 6) && Far(m, t, i + 7, j + 7)
  }

  lemma AcrossAt(m: seq<Bits>, t: seq<nat>, i: nat, j: nat, d: nat)
    requires FarAcross(m, t, i, j) && d < 8
    ensures Far(m, t, i + d, j + d)
  {
  }

  lemma Pairs1(m: seq<Bits>, t: seq<nat>)
    requires FarBy1(m, t, 0) && FarBy1(m, t, 8) && FarBy1(m, t, 16) && FarBy1(m, t, 24)
    requires FarBy1(m, t, 32) && FarBy1(m, t, 40) && FarBy1(m, t, 48) && FarBy1(m, t, 56)
    ensures PairsApart(m, t, 1)
  {
  }

  lemma Pairs2(m: seq<Bits>, t: seq<nat>)
    requires FarBy2(m, t, 0) && FarBy2(m, t, 8) && FarBy2(m, t, 16) && FarBy2(m, t, 24)
    requires FarBy2(m, t, 32) && FarBy2(m, t, 40) && FarBy2(m, t, 48) && FarBy2(m, t, 56)
    ensures PairsApart(m, t, 2)
  {
  }

  lemma Pairs4(m: seq<Bits>, t: seq<nat>)
    requires FarBy4(m, t, 0) && FarBy4(m, t, 8) && FarBy4(m, t, 16) && FarBy4(m, t, 24)
    requires FarBy4(m, t, 32) && FarBy4(m, t, 40) && FarBy4(m, t, 48) && FarBy4(m, t, 56)
    ensures PairsApart(m, t, 4)
  {
  }

  lemma Pairs8(m: seq<Bits>, t: seq<nat>)
    requires FarAcross(m, t, 0, 8) && FarAcross(m, t, 16, 24)
    requires FarAcross(m, t, 32, 40) && FarAcross(m, t, 48, 56)
    ensures PairsApart(m, t, 8)
  {
    forall k | 0 <= k < 64 && Clear(k, 8)
      ensures Far(m, t, k, k + 8)
    {
      if k < 8 { AcrossAt(m, t, 0, 8, k - 0); }
      else if k < 24 { AcrossAt(m, t, 16, 24, k - 16); }
      else if k < 40 { AcrossAt(m, t, 32, 40, k - 32); }
      else { AcrossAt(m, t, 48, 56, k - 48); }
    }
  }

  lemma Pairs16(m: seq<Bits>, t: seq<nat>)
    requires FarAcross(m, t, 0, 16) && FarAcross(m, t, 8, 24)
    requires FarAcross(m, t, 32, 48) && FarAcross(m, t, 40, 56)
    ensures PairsApart(m, t, 16)
  {
    forall k | 0 <= k < 64 && Clear(k, 16)
      ensures Far(m, t, k, k + 16)
    {
      if k < 8 { AcrossAt(m, t, 0, 16, k - 0); }
      else if k < 16 { AcrossAt(m, t, 8, 24, k - 8); }
      else if k < 40 { AcrossAt(m, t, 32, 48, k - 32); }
      else { AcrossAt(m, t, 40, 56, k - 40); }
    }
  }

  lemma Pairs32(m: seq<Bits>, t: seq<nat>)
    requires FarAcross(m, t, 0, 32) && FarAcross(m, t, 8, 40)
    requires FarAcross(m, t, 16, 48) && FarAcross(m, t, 24, 56)
    ensures PairsApart(m, t, 32)
  {
    forall k | 0 <= k < 64 && Clear(k, 32)
      ensures Far(m, t, k, k + 32)
    {
      if k < 8 { AcrossAt(m, t, 0, 32, k - 0); }
      else if k < 16 { AcrossAt(m, t, 8, 40, k - 8); }
      else if k < 24 { AcrossAt(m, t, 16, 48, k - 16); }
      else { AcrossAt(m, t, 24, 56, k - 24); }
    }
  }

  /** `u` says where in the row of `t` that starts at `i` each value stands. */
  predicate Undoes(t: seq<nat>, u: seq<nat>, i: nat) {
    && Stands(t, u, i, 0) && Stands(t, u, i, 1) && Stands(t, u, i, 2) && Stands(t, u, i, 3)
    && Stands(t, u, i, 4) && Stands(t, u, i, 5) && Stands(t, u, i, 6) && Stands(t, u, i, 7)
    && Stands(t, u, i, 8) && Stands(t, u, i, 9) && Stands(t, u, i, 10) && Stands(t, u, i, 11)
    && Stands(t, u, i, 12) && Stands(t, u, i, 13) && Stands(t, u, i, 14) && Stands(t, u, i, 15)
  }

  predicate Stands(t: seq<nat>, u: seq<nat>, i: nat, v: nat) {
    i + v < |u| && u[i + v] < 16 && i + u[i + v] < |t| && t[i + u[i + v]] == v
  }

  ghost predicate Onto(t: seq<nat>) {
    forall i, v :: (i == 0 || i == 16 || i == 32 || i == 48) && 0 <= v < 16 ==> HasAt(t, i, v)
  }

  ghost predicate HasAt(t: seq<nat>, i: nat, v: nat) {
    exists k: nat :: i <= k < i + 16 && k < |t| && t[k] == v
  }

  lemma RowOnto(t: seq<nat>, u: seq<nat>, i: nat, v: nat)
    requires Undoes(t, u, i) && v < 16
    ensures HasAt(t, i, v)
  {
    assert Stands(t, u, i, v);
    assert t[i + u[i + v]] == v;
  }

  lemma TableOnto(t: seq<nat>, u: seq<nat>)
    requires Undoes(t, u, 0) && Undoes(t, u, 16) && Undoes(t, u, 32) && Undoes(t, u, 48)
    ensures Onto(t)
  {
    forall i, v | (i == 0 || i == 16 || i == 32 || i == 48) && 0 <= v < 16
      ensures HasAt(t, i, v)
    {
      RowOnto(t, u, i, v);
    }
  }

  // --- The eight tables ---

  const U1: seq<nat> :=
    [14, 3, 4, 8, 1, 12, 10, 15] + [7, 13, 9, 6, 11, 2, 0, 5]
    + [0, 7, 5, 14, 3, 13, 9, 2] + [15, 12, 8, 11, 10, 6, 4, 1]
    + [15, 1, 6, 12, 0, 14, 5, 11] + [3, 10, 13, 7, 9, 4, 2, 8]
    + [13, 6, 3, 10, 4, 8, 14, 7] + [2, 5, 12, 9, 1, 15, 11, 0]

  const U2: seq<nat> :=
    [13, 1, 10, 6, 7, 14, 4, 9] + [2, 8, 15, 5, 12, 11, 3, 0]
    + [9, 10, 5, 0, 2, 15, 12, 3] + [6, 13, 11, 14, 8, 1, 7, 4]
    + [0, 7, 14, 13, 5, 8, 11, 2] + [9, 12, 4, 3, 10, 6, 1, 15]
    + [12, 3, 7, 4, 6, 13, 9, 10] + [1, 15, 2, 8, 11, 0, 14, 5]

  const U3: seq<nat> :=
    [1, 8, 14, 5, 13, 7, 4, 11] + [15, 2, 0, 12, 10, 9, 3, 6]
    + [2, 15, 8, 4, 5, 10, 6, 1] + [9, 3, 7, 13, 12, 0, 11, 14]
    + [7, 9, 10, 6, 2, 12, 1, 15] + [4, 3, 13, 8, 11, 0, 14, 5]
    + [3, 0, 14, 11, 8, 13, 4, 7] + [6, 5, 1, 12, 15, 2, 10, 9]

  const U4: seq<nat> :=
    [4, 8, 9, 3, 14, 11, 5, 0] + [10, 6, 7, 12, 13, 1, 2, 15]
    + [6, 12, 10, 7, 8, 3, 4, 9] + [1, 15, 13, 2, 11, 0, 14, 5]
    + [3, 9, 13, 10, 15, 12, 1, 6] + [14, 2, 0, 5, 4, 7, 11, 8]
    + [2, 5, 14, 0, 9, 10, 3, 13] + [7, 8, 4, 11, 12, 6, 15, 1]

  const U5: seq<nat> :=
    [13, 3, 0, 10, 2, 9, 7, 4] + [8, 15, 5, 6, 1, 12, 14, 11]
    + [9, 7, 2, 12, 4, 8, 15, 5] + [14, 13, 11, 1, 3, 6, 0, 10]
    + [14, 2, 1, 13, 0, 11, 12, 6] + [7, 9, 4, 3, 10, 5, 15, 8]
    + [10, 4, 6, 15, 13, 14, 8, 3] + [1, 11, 12, 0, 2, 7, 5, 9]

  const U6: seq<nat> :=
    [8, 1, 5, 10, 11, 14, 6, 13] + [7, 4, 2, 15, 0, 9, 12, 3]
    + [12, 9, 3, 14, 2, 7, 8, 4] + [15, 6, 0, 13, 5, 10, 11, 1]
    + [9, 12, 4, 7, 10, 3, 15, 8] + [5, 0, 11, 14, 6, 13, 1, 2]
    + [13, 10, 2, 1, 0, 5, 12, 11] + [14, 4, 7, 8, 3, 15, 9, 6]

  const U7: seq<nat> :=
    [5, 15, 2, 8, 0, 12, 14, 11] + [6, 10, 13, 1, 9, 7, 3, 4]
    + [1, 6, 12, 9, 4, 10, 15, 3] + [14, 5, 7, 2, 11, 0, 8, 13]
    + [12, 0, 15, 5, 1, 13, 10, 6] + [11, 14, 8, 2, 4, 3, 7, 9]
    + [10, 4, 13, 14, 5, 9, 0, 7] + [3, 8, 6, 1, 15, 2, 12, 11]

  const U8: seq<nat> :=
    [13, 7, 1, 10, 3, 12, 4, 15] + [2, 9, 8, 6, 14, 0, 11, 5]
    + [12, 0, 15, 5, 7, 9, 10, 6] + [3, 14, 4, 11, 8, 2, 13, 1]
    + [8, 3, 7, 13, 2, 14, 9, 0] + [15, 4, 10, 1, 5, 11, 6, 12]
    + [11, 1, 0, 12, 4, 13, 14, 3] + [6, 10, 5, 15, 9, 7, 2, 8]

  lemma Low1() ensures PairsApart(APART, S1, 1) && PairsApart(APART, S1, 2) {
    Pairs1(APART, S1); Pairs2(APART, S1);
  }
  lemma Middle1() ensures PairsApart(APART, S1, 4) && PairsApart(APART, S1, 8) {
    Pairs4(APART, S1); Pairs8(APART, S1);
  }
  lemma High1() ensures PairsApart(APART, S1, 16) && PairsApart(APART, S1, 32) {
    Pairs16(APART, S1); Pairs32(APART, S1);
  }
  lemma Onto1() ensures Onto(S1) { TableOnto(S1, U1); }

  lemma Low2() ensures PairsApart(APART, S2, 1) && PairsApart(APART, S2, 2) {
    Pairs1(APART, S2); Pairs2(APART, S2);
  }
  lemma Middle2() ensures PairsApart(APART, S2, 4) && PairsApart(APART, S2, 8) {
    Pairs4(APART, S2); Pairs8(APART, S2);
  }
  lemma High2() ensures PairsApart(APART, S2, 16) && PairsApart(APART, S2, 32) {
    Pairs16(APART, S2); Pairs32(APART, S2);
  }
  lemma Onto2() ensures Onto(S2) { TableOnto(S2, U2); }

  lemma Low3() ensures PairsApart(APART, S3, 1) && PairsApart(APART, S3, 2) {
    Pairs1(APART, S3); Pairs2(APART, S3);
  }
  lemma Middle3() ensures PairsApart(APART, S3, 4) && PairsApart(APART, S3, 8) {
    Pairs4(APART, S3); Pairs8(APART, S3);
  }
  lemma High3() ensures PairsApart(APART, S3, 16) && PairsApart(APART, S3, 32) {
    Pairs16(APART, S3); Pairs32(APART, S3);
  }
  lemma Onto3() ensures Onto(S3) { TableOnto(S3, U3); }

  lemma Low4() ensures PairsApart(APART, S4, 1) && PairsApart(APART, S4, 2) {
    Pairs1(APART, S4); Pairs2(APART, S4);
  }
  lemma Middle4() ensures PairsApart(APART, S4, 4) && PairsApart(APART, S4, 8) {
    Pairs4(APART, S4); Pairs8(APART, S4);
  }
  lemma High4() ensures PairsApart(APART, S4, 16) && PairsApart(APART, S4, 32) {
    Pairs16(APART, S4); Pairs32(APART, S4);
  }
  lemma Onto4() ensures Onto(S4) { TableOnto(S4, U4); }

  lemma Low5() ensures PairsApart(APART, S5, 1) && PairsApart(APART, S5, 2) {
    Pairs1(APART, S5); Pairs2(APART, S5);
  }
  lemma Middle5() ensures PairsApart(APART, S5, 4) && PairsApart(APART, S5, 8) {
    Pairs4(APART, S5); Pairs8(APART, S5);
  }
  lemma High5() ensures PairsApart(APART, S5, 16) && PairsApart(APART, S5, 32) {
    Pairs16(APART, S5); Pairs32(APART, S5);
  }
  lemma Onto5() ensures Onto(S5) { TableOnto(S5, U5); }

  lemma Low6() ensures PairsApart(APART, S6, 1) && PairsApart(APART, S6, 2) {
    Pairs1(APART, S6); Pairs2(APART, S6);
  }
  lemma Middle6() ensures PairsApart(APART, S6, 4) && PairsApart(APART, S6, 8) {
    Pairs4(APART, S6); Pairs8(APART, S6);
  }
  lemma High6() ensures PairsApart(APART, S6, 16) && PairsApart(APART, S6, 32) {
    Pairs16(APART, S6); Pairs32(APART, S6);
  }
  lemma Onto6() ensures Onto(S6) { TableOnto(S6, U6); }

  lemma Low7() ensures PairsApart(APART, S7, 1) && PairsApart(APART, S7, 2) {
    Pairs1(APART, S7); Pairs2(APART, S7);
  }
  lemma Middle7() ensures PairsApart(APART, S7, 4) && PairsApart(APART, S7, 8) {
    Pairs4(APART, S7); Pairs8(APART, S7);
  }
  lemma High7() ensures PairsApart(APART, S7, 16) && PairsApart(APART, S7, 32) {
    Pairs16(APART, S7); Pairs32(APART, S7);
  }
  lemma Onto7() ensures Onto(S7) { TableOnto(S7, U7); }

  lemma Low8() ensures PairsApart(APART, S8, 1) && PairsApart(APART, S8, 2) {
    Pairs1(APART, S8); Pairs2(APART, S8);
  }
  lemma Middle8() ensures PairsApart(APART, S8, 4) && PairsApart(APART, S8, 8) {
    Pairs4(APART, S8); Pairs8(APART, S8);
  }
  lemma High8() ensures PairsApart(APART, S8, 16) && PairsApart(APART, S8, 32) {
    Pairs16(APART, S8); Pairs32(APART, S8);
  }
  lemma Onto8() ensures Onto(S8) { TableOnto(S8, U8); }

  lemma LowPairs(box: nat)
    requires box < 8
    ensures |SBOX| == 8 && |SBOX[box]| == 64
    ensures PairsApart(APART, SBOX[box], 1) && PairsApart(APART, SBOX[box], 2)
  {
    BoxSize(box);
    if box == 0 { Low1(); }
    else if box == 1 { Low2(); }
    else if box == 2 { Low3(); }
    else if box == 3 { Low4(); }
    else if box == 4 { Low5(); }
    else if box == 5 { Low6(); }
    else if box == 6 { Low7(); }
    else { Low8(); }
  }

  lemma MiddlePairs(box: nat)
    requires box < 8
    ensures |SBOX| == 8 && |SBOX[box]| == 64
    ensures PairsApart(APART, SBOX[box], 4) && PairsApart(APART, SBOX[box], 8)
  {
    BoxSize(box);
    if box == 0 { Middle1(); }
    else if box == 1 { Middle2(); }
    else if box == 2 { Middle3(); }
    else if box == 3 { Middle4(); }
    else if box == 4 { Middle5(); }
    else if box == 5 { Middle6(); }
    else if box == 6 { Middle7(); }
    else { Middle8(); }
  }

  lemma HighPairs(box: nat)
    requires box < 8
    ensures |SBOX| == 8 && |SBOX[box]| == 64
    ensures PairsApart(APART, SBOX[box], 16) && PairsApart(APART, SBOX[box], 32)
  {
    BoxSize(box);
    if box == 0 { High1(); }
    else if box == 1 { High2(); }
    else if box == 2 { High3(); }
    else if box == 3 { High4(); }
    else if box == 4 { High5(); }
    else if box == 5 { High6(); }
    else if box == 6 { High7(); }
    else { High8(); }
  }

  lemma BoxOnto(box: nat)
    requires box < 8
    ensures |SBOX| == 8 && |SBOX[box]| == 64 && Onto(SBOX[box])
  {
    BoxSize(box);
    if box == 0 { Onto1(); }
    else if box == 1 { Onto2(); }
    else if box == 2 { Onto3(); }
    else if box == 3 { Onto4(); }
    else if box == 4 { Onto5(); }
    else if box == 5 { Onto6(); }
    else if box == 6 { Onto7(); }
    else { Onto8(); }
  }

  // --- The boxes on bits ---

  /** The place six bits select: the outer two the row, the inner four the column. */
  function Place(six: Bits): (k: nat)
    requires |six| == 6
    ensures k < 64
  {
    32 * Weight(six[0]) + 16 * Weight(six[5])
    + 8 * Weight(six[1]) + 4 * Weight(six[2]) + 2 * Weight(six[3]) + Weight(six[4])
  }

  lemma BoxIs(box: nat, six: Bits)
    requires box < 8 && |six| == 6
    ensures |SBOX| == 8 && |SBOX[box]| == 64 && BoxOut(box, six) == Nibble(SBOX[box][Place(six)])
  {
    BoxSize(box);
    EntryIs(SBOX[box], Place(six));
  }

  lemma FarNibbles(t: seq<nat>, i: nat, j: nat)
    requires Far(APART, t, i, j)
    ensures Distance(Nibble(t[i]), Nibble(t[j])) >= 2
  {
    ApartFrom(t[i] / 4, t[i], t[j]);
  }

  /** The weight an input bit has in the place selected. */
  function PlaceWeight(k: nat): (w: nat)
    requires k < 6
    ensures w > 0
  {
    match k case 0 => 32 case 1 => 8 case 2 => 4 case 3 => 2 case 4 => 1 case _ => 16
  }

  lemma SetMoves(six: Bits, k: nat)
    requires |six| == 6 && k < 6 && !six[k]
    ensures Place(six[k := true]) == Place(six) + PlaceWeight(k) && Clear(Place(six), PlaceWeight(k))
  {
  }

  lemma WeightApart(box: nat, w: nat)
    requires box < 8 && (w == 1 || w == 2 || w == 4 || w == 8 || w == 16 || w == 32)
    ensures |SBOX| == 8 && |SBOX[box]| == 64 && PairsApart(APART, SBOX[box], w)
  {
    LowPairs(box);
    MiddlePairs(box);
    HighPairs(box);
  }

  /** Setting one input bit of a box changes at least two of its output bits. */
  lemma SetBitSpreads(box: nat, six: Bits, k: nat)
    requires box < 8 && |six| == 6 && k < 6 && !six[k]
    ensures Distance(BoxOut(box, six), BoxOut(box, six[k := true])) >= 2
  {
    SetMoves(six, k);
    WeightApart(box, PlaceWeight(k));
    FarNibbles(SBOX[box], Place(six), Place(six) + PlaceWeight(k));
    BoxIs(box, six);
    BoxIs(box, six[k := true]);
  }

  /** Flipping any one input bit of a box changes at least two of its output bits. */
  lemma OneBitSpreads(box: nat, six: Bits, k: nat)
    requires box < 8 && |six| == 6 && k < 6
    ensures Distance(BoxOut(box, six), BoxOut(box, six[k := !six[k]])) >= 2
  {
    var clear := six[k := false];
    SetBitSpreads(box, clear, k);
    assert six == if six[k] then clear[k := true] else clear;
    assert six[k := !six[k]] == if six[k] then clear else clear[k := true];
  }

  lemma NibbleOnto(bits: Bits) returns (v: nat)
    requires |bits| == 4
    ensures v < 16 && Nibble(v) == bits
  {
    v := 8 * Weight(bits[0]) + 4 * Weight(bits[1]) + 2 * Weight(bits[2]) + Weight(bits[3]);
  }

  lemma PlaceOf(first: bool, inner: Bits, last: bool)
    requires |inner| == 4
    ensures var six := [first] + inner + [last];
            |six| == 6 && Place(six) == 16 * (2 * Weight(first) + Weight(last))
              + 8 * Weight(inner[0]) + 4 * Weight(inner[1]) + 2 * Weight(inner[2]) + Weight(inner[3])
  {
  }

  lemma NibbleWeights(v: nat)
    requires v < 16
    ensures var b := Nibble(v); v == 8 * Weight(b[0]) + 4 * Weight(b[1]) + 2 * Weight(b[2]) + Weight(b[3])
  {
  }

  lemma PlaceFor(t: seq<nat>, i: nat, v: nat) returns (k: nat)
    requires Onto(t) && (i == 0 || i == 16 || i == 32 || i == 48) && v < 16
    ensures i <= k < i + 16 && k < |t| && t[k] == v
  {
    assert HasAt(t, i, v);
    k :| i <= k < i + 16 && k < |t| && t[k] == v;
  }

  /** Whatever the outer bits, the inner four can be chosen for any output: each row is a permutation. */
  lemma BoxIsOnto(box: nat, first: bool, last: bool, out: Bits) returns (inner: Bits)
    requires box < 8 && |out| == 4
    ensures |inner| == 4 && BoxOut(box, [first] + inner + [last]) == out
  {
    var i := 16 * (2 * Weight(first) + Weight(last));
    var v := NibbleOnto(out);
    var k := BoxPlaceFor(box, i, v);
    inner := Nibble(k - i);
    NibbleWeights(k - i);
    PlaceOf(first, inner, last);
    BoxAt(box, [first] + inner + [last], k, v);
  }

  lemma BoxAt(box: nat, six: Bits, k: nat, v: nat)
    requires box < 8 && |six| == 6 && |SBOX| == 8 && k < |SBOX[box]| && SBOX[box][k] == v && Place(six) == k
    ensures BoxOut(box, six) == Nibble(v)
  {
    BoxIs(box, six);
  }

  lemma BoxPlaceFor(box: nat, i: nat, v: nat) returns (k: nat)
    requires box < 8 && (i == 0 || i == 16 || i == 32 || i == 48) && v < 16
    ensures i <= k < i + 16 && |SBOX| == 8 && k < |SBOX[box]| && SBOX[box][k] == v
  {
    BoxOnto(box);
    k := PlaceFor(SBOX[box], i, v);
  }
}
