/** The scalars of a property bag and their text: flags, decimal numbers and sizes. */
module Values {
  import opened Options
  import opened Numerals
  import opened Strings

  // --- Flags ---

  function LowerAscii(c: char): char {
    if 'A' <= c <= 'Z' then (c as int + 32) as char else c
  }

  function Lowered(s: string): (t: string)
    ensures |t| == |s|
  {
    if s == "" then "" else [LowerAscii(s[0])] + Lowered(s[1..])
  }

  /** 1, on, yes and true against 0, off, no and false, in any letter case. */
  function ParseBoolean(text: string): Option<bool> {
    var t := Lowered(text);
    if t == "1" || t == "on" || t == "yes" || t == "true" then Some(true)
    else if t == "0" || t == "off" || t == "no" || t == "false" then Some(false)
    else None
  }

  lemma LoweredIs(s: string, t: string)
    requires |s| == |t| && forall i :: 0 <= i < |s| ==> LowerAscii(s[i]) == t[i]
    ensures Lowered(s) == t
  {
    if s != "" {
      LoweredIs(s[1..], t[1..]);
    }
  }

  /** Four words for a flag that is set, whatever their case. */
  lemma SetWords()
    ensures ParseBoolean("1") == ParseBoolean("on") == ParseBoolean("Yes") == ParseBoolean("TRUE") == Some(true)
  {
    LoweredIs("1", "1");
    LoweredIs("on", "on");
    LoweredIs("Yes", "yes");
    LoweredIs("TRUE", "true");
  }

  lemma ClearWords()
    ensures ParseBoolean("0") == ParseBoolean("OFF") == ParseBoolean("no") == ParseBoolean("False") == Some(false)
  {
    LoweredIs("0", "0");
    LoweredIs("OFF", "off");
    LoweredIs("no", "no");
    LoweredIs("False", "false");
  }

  /** No other text is a flag. */
  lemma EightWords(text: string)
    ensures ParseBoolean(text).Some?
            <==> Lowered(text) in {"1", "on", "yes", "true", "0", "off", "no", "false"}
  {
  }

  // --- Numbers ---

  /** A decimal number: sign, whole part, and the digits after the point without idle zeros. */
  datatype Number = Number(negative: bool, whole: nat, fraction: string)

  predicate Proper(n: Number) {
    && AllDigits(n.fraction)
    && (n.fraction != "" ==> n.fraction[|n.fraction| - 1] != '0')
    && (n.negative ==> n.whole != 0 || n.fraction != "")
  }

  predicate IsWhole(n: Number) {
    n.fraction == ""
  }

  function StripZeros(digits: string): (s: string)
    requires AllDigits(digits)
    ensures AllDigits(s) && (s != "" ==> s[|s| - 1] != '0')
  {
    if digits != "" && digits[|digits| - 1] == '0' then StripZeros(digits[..|digits| - 1]) else digits
  }

  /** An unsigned decimal numeral: digits, and possibly a point and more digits. */
  predicate IsUnsigned(s: string) {
    var dot := IndexOf(s, '.');
    && AllDigits(s[..dot]) && dot > 0
    && (dot < |s| ==> dot + 1 < |s| && AllDigits(s[dot + 1..]))
  }

  function Magnitude(s: string): string {
    if s != "" && s[0] == '-' then s[1..] else s
  }

  /** An optional sign, digits, an optional fraction. */
  predicate IsDecimal(s: string) {
    IsUnsigned(Magnitude(s))
  }

  function WholeOf(s: string): nat
    requires IsUnsigned(s)
  {
    Value(s[..IndexOf(s, '.')])
  }

  function FractionOf(s: string): (digits: string)
    requires IsUnsigned(s)
    ensures AllDigits(digits)
  {
    var dot := IndexOf(s, '.');
    if dot < |s| then s[dot + 1..] else ""
  }

  function ReadNumber(s: string): (n: Number)
    requires IsDecimal(s)
    ensures Proper(n)
  {
    var m := Magnitude(s);
    var whole, fraction := WholeOf(m), StripZeros(FractionOf(m));
    Number(s[0] == '-' && (whole != 0 || fraction != ""), whole, fraction)
  }

  function ParseNumber(s: string): (r: Option<Number>)
    ensures r.Some? ==> Proper(r.value)
  {
    if IsDecimal(s) then Some(ReadNumber(s)) else None
  }

  function ParseInteger(s: string): (r: Option<Number>)
    ensures r.Some? ==> Proper(r.value)
  {
    var n := ParseNumber(s);
    if n.Some? && IsWhole(n.value) then n else None
  }

  function PrintUnsigned(n: Number): (s: string) {
    Decimal(n.whole) + if n.fraction == "" then "" else "." + n.fraction
  }

  function PrintNumber(n: Number): string {
    (if n.negative then "-" else "") + PrintUnsigned(n)
  }

  lemma {:induction false} NoDot(digits: string)
    requires AllDigits(digits)
    ensures IndexOf(digits, '.') == |digits|
  {
    if digits != "" {
      assert IsDigit(digits[0]);
      NoDot(digits[1..]);
    }
  }

  lemma DigitsHaveNoDot(digits: string)
    requires AllDigits(digits)
    ensures '.' !in digits && '-' !in digits && ',' !in digits && '=' !in digits
  {
  }

  lemma UnsignedReads(n: Number)
    requires Proper(n)
    ensures var s := PrintUnsigned(n);
            && IsUnsigned(s) && WholeOf(s) == n.whole && FractionOf(s) == n.fraction && s[0] != '-'
  {
    var s, w := PrintUnsigned(n), Decimal(n.whole);
    ValueDecimal(n.whole);
    DigitsHaveNoDot(w);
    assert IsDigit(w[0]);
    if n.fraction == "" {
      NoDot(w);
      assert s == w && s[..|w|] == w;
    } else {
      IndexOfIn(w, '.', n.fraction);
      assert s == w + ['.'] + n.fraction;
      assert s[..|w|] == w && s[|w| + 1..] == n.fraction;
    }
  }

  lemma StripsNothing(digits: string)
    requires AllDigits(digits) && (digits != "" ==> digits[|digits| - 1] != '0')
    ensures StripZeros(digits) == digits
  {
  }

  /** A number printed is read back. */
  lemma NumberReadBack(n: Number)
    requires Proper(n)
    ensures ParseNumber(PrintNumber(n)) == Some(n)
  {
    UnsignedReads(n);
    StripsNothing(n.fraction);
    var s := PrintNumber(n);
    if n.negative {
      assert s[1..] == PrintUnsigned(n);
    } else {
      assert s == PrintUnsigned(n);
    }
  }
}
