/** Byte counts with a K, M, G or T suffix. */
module Sizes {
  import opened Numerals
  import opened Strings
  import opened Options
  import opened Values

  const UNITS := "KMGT"

  /** The suffix for a number of divisions by 1024. */
  function Unit(exponent: nat): string
    requires exponent <= 4
  {
    if exponent == 0 then "" else [UNITS[exponent - 1]]
  }

  function Power(exponent: nat): (p: nat)
    ensures p > 0
  {
    if exponent == 0 then 1 else 1024 * Power(exponent - 1)
  }

  function Absolute(n: int): nat { if n < 0 then -n else n }

  /** How often 1024 divides a size, up to `limit` times; never for zero. */
  function Divisions(size: nat, limit: nat): (e: nat)
    ensures e <= limit
    decreases limit
  {
    if limit == 0 || size == 0 || size % 1024 != 0 then 0 else 1 + Divisions(size / 1024, limit - 1)
  }

  function Reduced(size: nat, exponent: nat): nat {
    if exponent == 0 then size else Reduced(size / 1024, exponent - 1)
  }

  /** A whole number of bytes in the largest unit up to T that divides it. */
  function SizeText(bytes: int): string {
    var e := Divisions(Absolute(bytes), 4);
    (if bytes < 0 then "-" else "") + Decimal(Reduced(Absolute(bytes), e)) + Unit(e)
  }

  lemma {:induction false} DivisionsDivide(size: nat, limit: nat)
    ensures size == Reduced(size, Divisions(size, limit)) * Power(Divisions(size, limit))
    decreases limit
  {
    if Divisions(size, limit) != 0 {
      DivisionsDivide(size / 1024, limit - 1);
      var e := Divisions(size / 1024, limit - 1);
      TimesPower(Reduced(size / 1024, e), e);
    }
  }

  lemma TimesPower(r: nat, e: nat)
    ensures r * Power(e + 1) == 1024 * (r * Power(e))
  {
    assert Power(e + 1) == 1024 * Power(e);
    assert r * (1024 * Power(e)) == 1024 * (r * Power(e));
  }

  /** No unit up to T that divides a size is larger than the one chosen. */
  lemma {:induction false} LargestUnit(size: nat, limit: nat, e: nat, r: nat)
    requires size > 0 && e <= limit && size == r * Power(e)
    ensures e <= Divisions(size, limit)
    decreases limit
  {
    if e != 0 {
      TimesPower(r, e - 1);
      assert size == 1024 * (r * Power(e - 1));
      LargestUnit(size / 1024, limit - 1, e - 1, r);
    }
  }

  /** The K/M/G/T spelling, a unit at a time. */
  method FormatSize(bytes: int) returns (text: string)
    ensures text == SizeText(bytes)
  {
    var size, i := bytes, 0;
    var unit := "";
    while i < 4
      invariant 0 <= i <= 4 && unit == Unit(i)
      invariant (size < 0) == (bytes < 0)
      invariant Divisions(Absolute(bytes), 4) == i + Divisions(Absolute(size), 4 - i)
      invariant Reduced(Absolute(bytes), Divisions(Absolute(bytes), 4))
                == Reduced(Absolute(size), Divisions(Absolute(size), 4 - i))
    {
      if size == 0 || Absolute(size) % 1024 != 0 { break; }
      size := if size < 0 then -(Absolute(size) / 1024) else size / 1024;
      unit := [UNITS[i]];
      i := i + 1;
    }
    text := (if size < 0 then "-" else "") + Decimal(Absolute(size)) + unit;
  }

  // --- Reading a size ---

  function TenTo(n: nat): (p: nat)
    ensures p > 0
  {
    if n == 0 then 1 else 10 * TenTo(n - 1)
  }

  /** `n` times `p`, one `p` at a time. */
  function Times(n: nat, p: nat): nat {
    if n == 0 then 0 else p + Times(n - 1, p)
  }

  lemma {:induction false} TimesIs(n: nat, p: nat)
    ensures Times(n, p) == n * p
  {
    if n != 0 {
      TimesIs(n - 1, p);
    }
  }

  function Floor(n: nat, d: nat): nat
    requires d > 0
  {
    n / d
  }

  /** A decimal count of units, in whole bytes. */
  function Scale(count: string, exponent: nat): nat
    requires IsUnsigned(count)
  {
    var fraction := FractionOf(count);
    Times(WholeOf(count), Power(exponent)) + Floor(Times(Value(fraction), Power(exponent)), TenTo(|fraction|))
  }

  /** Where a size's unit starts, and which it is. */
  function UnitOf(text: string): (r: (nat, nat))
    ensures r.0 <= |text| && r.1 <= 4
  {
    var n := |text|;
    if n >= 3 && text[n - 2..] == "iB" && text[n - 3] in UNITS then (n - 3, 1 + IndexOf(UNITS, text[n - 3]))
    else if n >= 1 && text[n - 1] in UNITS then (n - 1, 1 + IndexOf(UNITS, text[n - 1]))
    else (n, 0)
  }

  /** Digits, perhaps a fraction, perhaps a unit with or without `iB`. */
  function ParseSize(text: string): Option<nat> {
    var (end, exponent) := UnitOf(text);
    if IsUnsigned(text[..end]) then Some(Scale(text[..end], exponent)) else None
  }

  lemma UnitReads(digits: string, e: nat)
    requires AllDigits(digits) && digits != "" && e <= 4
    ensures UnitOf(digits + Unit(e)) == (|digits|, e)
  {
    var text := digits + Unit(e);
    var n := |text|;
    if e == 0 {
      assert text == digits && IsDigit(text[n - 1]);
    } else {
      assert text[n - 1] == UNITS[e - 1];
    }
  }

  lemma WholeReads(n: nat)
    ensures IsUnsigned(Decimal(n)) && WholeOf(Decimal(n)) == n && FractionOf(Decimal(n)) == ""
  {
    UnsignedReads(Number(false, n, ""));
    assert Decimal(n) + "" == Decimal(n);
  }

  lemma SignIsNotUnsigned(s: string)
    requires s != "" ==> s[0] == '-'
    ensures !IsUnsigned(s)
  {
    var dot := IndexOf(s, '.');
    if dot > 0 {
      assert s[..dot][0] == '-';
    }
  }

  lemma NegativeIsNoSize(rest: string)
    ensures ParseSize("-" + rest) == None
  {
    var text := "-" + rest;
    SignIsNotUnsigned(text[..UnitOf(text).0]);
  }

  /** A size printed is read back exactly when it is not negative. */
  lemma SizeReadBack(bytes: int)
    ensures ParseSize(SizeText(bytes)) == (if bytes >= 0 then Some(bytes) else None)
  {
    var e := Divisions(Absolute(bytes), 4);
    var r := Reduced(Absolute(bytes), e);
    if bytes < 0 {
      assert SizeText(bytes) == "-" + (Decimal(r) + Unit(e));
      NegativeIsNoSize(Decimal(r) + Unit(e));
    } else {
      var text := Decimal(r) + Unit(e);
      assert SizeText(bytes) == text;
      UnitReads(Decimal(r), e);
      WholeReads(r);
      DivisionsDivide(bytes, 4);
      TimesIs(r, Power(e));
      assert text[..|Decimal(r)|] == Decimal(r);
    }
  }

  // --- What the letters are worth ---

  /** The bytes a unit letter stands for; any other character is no unit and counts bytes. */
  function LetterBytes(letter: char): (w: nat)
    ensures w > 0
  {
    match letter
    case 'K' => 1024
    case 'M' => 1048576
    case 'G' => 1073741824
    case 'T' => 1099511627776
    case _ => 1
  }

  /** The number of bytes an exponent stands for is that of its letter. */
  lemma UnitWorth(e: nat)
    requires e <= 4
    ensures Power(e) == if e == 0 then 1 else LetterBytes(Unit(e)[0])
    ensures e != 0 ==> LetterBytes(Unit(e)[0]) > 1
  {
    assert Power(1) == 1024 && Power(2) == 1024 * Power(1) && Power(3) == 1024 * Power(2);
    assert Power(4) == 1024 * Power(3);
  }

  lemma LetterExponent(letter: char)
    requires LetterBytes(letter) > 1
    ensures letter in UNITS && UNITS[IndexOf(UNITS, letter)] == letter
  {
    assert UNITS[0] == 'K' && UNITS[1] == 'M' && UNITS[2] == 'G' && UNITS[3] == 'T';
  }

  /** A letter worth more than the one chosen does not divide the size. */
  lemma NoLargerLetter(size: nat, letter: char)
    requires size > 0 && LetterBytes(letter) > Power(Divisions(size, 4))
    ensures size % LetterBytes(letter) != 0
  {
    LetterExponent(letter);
    var e, w := 1 + IndexOf(UNITS, letter), LetterBytes(letter);
    UnitWorth(e);
    if size % w == 0 {
      assert size == size / w * w;
      LargestUnit(size, 4, e, size / w);
      PowersGrow(e, Divisions(size, 4));
    }
  }

  lemma {:induction false} PowersGrow(e: nat, f: nat)
    requires e <= f
    ensures Power(e) <= Power(f)
  {
    if e != f {
      PowersGrow(e, f - 1);
    }
  }

  lemma DividesExactly(size: nat, r: nat, letter: char)
    requires size == r * LetterBytes(letter)
    ensures size / LetterBytes(letter) == r
  {
    match letter
    case 'K' => assert r * 1024 / 1024 == r;
    case 'M' => assert r * 1048576 / 1048576 == r;
    case 'G' => assert r * 1073741824 / 1073741824 == r;
    case 'T' => assert r * 1099511627776 / 1099511627776 == r;
    case _ =>
  }

  /**
   * Every size is written as its sign, the number of times its letter goes
   * into it, which is a whole number, and the letter; no letter worth more
   * divides it, and zero has none.
   */
  lemma SizeMeans(bytes: int)
    ensures var text, size := SizeText(bytes), Absolute(bytes);
            && text != ""
            && var letter := text[|text| - 1];
            && var w := LetterBytes(letter);
            && text == (if bytes < 0 then "-" else "") + Decimal(size / w) + (if w > 1 then [letter] else "")
            && size / w * w == size
            && (size == 0 ==> w == 1)
            && (forall larger: char :: size != 0 && LetterBytes(larger) > w ==> size % LetterBytes(larger) != 0)
  {
    var text, size := SizeText(bytes), Absolute(bytes);
    var e := Divisions(size, 4);
    var r, letter := Reduced(size, e), text[|text| - 1];
    var w := LetterBytes(letter);
    assert e == 0 ==> letter == Decimal(r)[|Decimal(r)| - 1] && IsDigit(letter);
    assert e != 0 ==> letter == Unit(e)[0];
    UnitWorth(e);
    assert w == Power(e);
    DivisionsDivide(size, 4);
    DividesExactly(size, r, letter);
    forall larger: char | size != 0 && LetterBytes(larger) > w
      ensures size % LetterBytes(larger) != 0
    {
      NoLargerLetter(size, larger);
    }
  }

  /** A letter, possibly followed by `iB`, or nothing. */
  predicate IsUnit(unit: string) {
    unit == "" || (LetterBytes(unit[0]) > 1 && (|unit| == 1 || unit[1..] == "iB"))
  }

  /** `n` is the whole part of `whole` and a decimal `fraction`, times `w`. */
  predicate IsWholePart(n: nat, whole: nat, fraction: string, w: nat)
    requires AllDigits(fraction)
  {
    var ten := TenTo(|fraction|);
    n * ten <= (whole * ten + Value(fraction)) * w < (n + 1) * ten
  }

  lemma {:induction false} UnsignedEnds(count: string)
    requires IsUnsigned(count)
    ensures count != "" && IsDigit(count[|count| - 1])
  {
    var dot := IndexOf(count, '.');
    if dot < |count| {
      assert count[|count| - 1] == count[dot + 1..][|count| - dot - 2];
    } else {
      assert count[..dot] == count;
    }
  }

  lemma UnitLetters(letter: char)
    ensures letter in UNITS <==> LetterBytes(letter) > 1
    ensures letter in UNITS ==> !IsDigit(letter) && letter != 'B'
  {
    assert UNITS == ['K', 'M', 'G', 'T'];
  }

  lemma BareCut(text: string)
    requires IsUnsigned(text)
    ensures UnitOf(text) == (|text|, 0)
  {
    UnsignedEnds(text);
    UnitLetters(text[|text| - 1]);
  }

  lemma NotBinary(text: string, n: nat)
    requires |text| == n && n >= 3 && text[n - 1] != 'B'
    ensures text[n - 2..] != "iB"
  {
    assert text[n - 2..][1] == text[n - 1] && "iB"[1] == 'B';
  }

  lemma LetterCut(count: string, letter: char)
    requires IsUnsigned(count) && letter in UNITS
    ensures UnitOf(count + [letter]) == (|count|, 1 + IndexOf(UNITS, letter))
  {
    var text := count + [letter];
    var n := |text|;
    UnitLetters(letter);
    assert text[n - 1] == letter;
    if n >= 3 {
      NotBinary(text, n);
    }
  }

  lemma BinaryCut(count: string, letter: char)
    requires IsUnsigned(count) && letter in UNITS
    ensures UnitOf(count + [letter] + "iB") == (|count|, 1 + IndexOf(UNITS, letter))
  {
    var text := count + [letter] + "iB";
    UnsignedEnds(count);
    assert text[|text| - 2..] == "iB";
  }

  lemma UnitOfCut(text: string, cut: nat)
    requires cut <= |text| && IsUnsigned(text[..cut]) && IsUnit(text[cut..])
    ensures UnitOf(text).0 == cut
    ensures Power(UnitOf(text).1) == if cut == |text| then 1 else LetterBytes(text[cut])
  {
    var count, unit := text[..cut], text[cut..];
    assert text == count + unit;
    if unit == "" {
      assert count == text;
      BareCut(text);
      UnitWorth(0);
    } else {
      assert unit == [text[cut]] + unit[1..];
      LetterExponent(text[cut]);
      UnitWorth(1 + IndexOf(UNITS, text[cut]));
      if |unit| == 1 {
        LetterCut(count, text[cut]);
      } else {
        assert text == count + [text[cut]] + "iB";
        BinaryCut(count, text[cut]);
      }
    }
  }

  lemma ScaleIs(count: string, e: nat, w: nat)
    requires IsUnsigned(count) && Power(e) == w
    ensures IsWholePart(Scale(count, e), WholeOf(count), FractionOf(count), w)
  {
    var fraction := FractionOf(count);
    var ten, whole, f := TenTo(|fraction|), WholeOf(count), Value(fraction);
    TimesIs(whole, w);
    TimesIs(f, w);
    FloorIs(whole, f, w, ten, Floor(f * w, ten));
  }

  lemma FloorIs(whole: nat, f: nat, w: nat, ten: nat, q: nat)
    requires ten > 0 && q == Floor(f * w, ten)
    ensures (whole * w + q) * ten <= (whole * ten + f) * w < (whole * w + q + 1) * ten
  {
    assert q * ten <= f * w < q * ten + ten;
    assert (whole * ten + f) * w == whole * w * ten + f * w;
    assert (whole * w + q) * ten == whole * w * ten + q * ten;
    assert (whole * w + q + 1) * ten == whole * w * ten + q * ten + ten;
  }

  /** A decimal count and a unit, with or without `iB`, reads as that many of the unit in whole bytes. */
  lemma SizeReads(text: string, cut: nat)
    requires cut <= |text| && IsUnsigned(text[..cut]) && IsUnit(text[cut..])
    ensures ParseSize(text).Some?
    ensures IsWholePart(ParseSize(text).value, WholeOf(text[..cut]), FractionOf(text[..cut]),
                        if cut == |text| then 1 else LetterBytes(text[cut]))
  {
    UnitOfCut(text, cut);
    ScaleIs(text[..cut], UnitOf(text).1, if cut == |text| then 1 else LetterBytes(text[cut]));
  }

  lemma UnitOfIsUnit(text: string)
    ensures IsUnit(text[UnitOf(text).0..])
  {
    var n, end := |text|, UnitOf(text).0;
    if end != n {
      UnitLetters(text[end]);
      assert text[end..][0] == text[end];
      assert n >= 3 ==> text[n - 3..][1..] == text[n - 2..];
    }
  }

  /** Nothing else is a size. */
  lemma SizeReadIff(text: string)
    ensures ParseSize(text).Some?
            <==> exists cut :: 0 <= cut <= |text| && IsUnsigned(text[..cut]) && IsUnit(text[cut..])
  {
    if ParseSize(text).Some? {
      UnitOfIsUnit(text);
      assert IsUnsigned(text[..UnitOf(text).0]) && IsUnit(text[UnitOf(text).0..]);
    }
    if cut :| 0 <= cut <= |text| && IsUnsigned(text[..cut]) && IsUnit(text[cut..]) {
      SizeReads(text, cut);
    }
  }

  lemma ThirtyTwoG()
    ensures SizeText(34359738368) == "32G"
  {
    assert Divisions(32, 1) == 0 && Divisions(32768, 2) == 1;
    assert Divisions(33554432, 3) == 2 && Divisions(34359738368, 4) == 3;
    assert Reduced(32768, 1) == 32 && Reduced(33554432, 2) == 32 && Reduced(34359738368, 3) == 32;
    assert Decimal(3) == "3" && Decimal(32) == "3" + "2" && Unit(3) == "G";
    assert "" + "32" + "G" == "32G";
  }

  /** One and a half K: the fraction counts in whole bytes. */
  lemma HalfReads()
    ensures ParseSize("1.5K") == Some(1536)
  {
    var text: string := "1.5K";
    assert text[..3] == "1" + ['.'] + "5";
    IndexOfIn("1", '.', "5");
    assert text[..3][..1] == "1" && text[..3][2..] == "5" && text[3..] == "K";
    assert Value("1") == 1 && Value("5") == 5 && TenTo(1) == 10;
    SizeReads(text, 3);
  }
}
