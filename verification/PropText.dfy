/** Which values read back at their type, text without a format, and the order sub-keys are written in. */
module PropText {
  import opened Options
  import opened Strings
  import opened Values
  import opened Props
  import opened PropOrder
  import opened PropRoundTrip
  import Numerals
  import Sizes

  // --- Values at their type ---

  predicate IsProper(v: Scalar) {
    v.Num? ==> Proper(v.number)
  }

  /** A flag under a boolean, a number under a numeric type, text that could not be taken for either. */
  predicate Typed(v: Scalar, entry: Option<Entry>) {
    match v
    case Flag(_) => entry.Some? && entry.value.kind.Boolean?
    case Num(n) =>
      && entry.Some? && (entry.value.kind.Decimal? || (entry.value.kind.Integer? && IsWhole(n)))
      && (entry.value.isSize ==> IsWhole(n) && Sizes.Divisions(n.whole, 4) == 0)
    case Str(s) =>
      entry.Some? ==>
        match entry.value.kind
        case Text => true
        case Boolean => ParseBoolean(s).None?
        case Integer => ParseInteger(s).None?
        case Decimal => ParseNumber(s).None?
  }

  lemma FlagReads(b: bool)
    ensures ParseBoolean(if b then "1" else "0") == Some(b)
  {
    assert Lowered("1") == "1" && Lowered("0") == "0";
  }

  lemma UnitIsNoNumber(digits: string, e: nat, negative: bool)
    requires Numerals.AllDigits(digits) && 0 < e <= 4
    ensures !IsDecimal((if negative then "-" else "") + digits + Sizes.Unit(e))
  {
    var s := (if negative then "-" else "") + digits + Sizes.Unit(e);
    var m := Magnitude(s);
    var u := Sizes.UNITS[e - 1];
    assert s[|s| - 1] == u && !Numerals.IsDigit(u) && u != '.' && u != '-';
    assert m[|m| - 1] == u;
    EndsInLetter(m);
  }

  lemma EndsInLetter(m: string)
    requires m != "" && !Numerals.IsDigit(m[|m| - 1])
    ensures !IsUnsigned(m)
  {
    var dot, last := IndexOf(m, '.'), |m| - 1;
    if dot == |m| {
      assert m[..dot][last] == m[last];
    } else if dot + 1 < |m| {
      assert m[dot + 1..][last - dot - 1] == m[last];
    }
  }

  lemma SizeTextOf(n: Number)
    requires Proper(n) && IsWhole(n)
    ensures Sizes.Divisions(n.whole, 4) == 0 ==> Sizes.SizeText(Truncated(n)) == PrintNumber(n)
    ensures Sizes.Divisions(n.whole, 4) != 0 ==> !IsDecimal(Sizes.SizeText(Truncated(n)))
  {
    var e := Sizes.Divisions(n.whole, 4);
    assert Sizes.Absolute(Truncated(n)) == n.whole;
    var digits := Numerals.Decimal(Sizes.Reduced(n.whole, e));
    if e == 0 {
      assert digits + "" == digits;
    } else {
      UnitIsNoNumber(digits, e, n.negative);
    }
  }

  /** A size that lost a fraction is another number. */
  lemma FractionIsLost(n: Number)
    requires Proper(n) && !IsWhole(n)
    ensures ParseNumber(Sizes.SizeText(Truncated(n))) != Some(n)
  {
    var t := Number(n.negative && n.whole != 0, n.whole, "");
    assert Truncated(t) == Truncated(n);
    SizeTextOf(t);
    if Sizes.Divisions(n.whole, 4) == 0 {
      NumberReadBack(t);
    }
  }

  /** How a numeral reads under an entry. */
  lemma NumeralCoerces(s: string, n: Number, entry: Option<Entry>)
    requires ParseNumber(s) == Some(n)
    ensures Coerce(s, entry) == Num(n)
            <==> entry.Some? && (entry.value.kind.Decimal? || (entry.value.kind.Integer? && IsWhole(n)))
  {
  }

  lemma OtherTextIsNot(s: string, n: Number, entry: Option<Entry>)
    requires ParseNumber(s) != Some(n)
    ensures Coerce(s, entry) != Num(n)
  {
  }

  lemma SizeTyped(n: Number, entry: Option<Entry>)
    requires Proper(n) && entry.Some? && entry.value.isSize
    ensures Coerce(WireText(Num(n), entry), entry) == Num(n) <==> Typed(Num(n), entry)
  {
    var text := Sizes.SizeText(Truncated(n));
    if !IsWhole(n) {
      FractionIsLost(n);
      OtherTextIsNot(text, n, entry);
    } else {
      SizeTextOf(n);
      NumberReadBack(n);
      if Sizes.Divisions(n.whole, 4) == 0 {
        NumeralCoerces(text, n, entry);
      } else {
        OtherTextIsNot(text, n, entry);
      }
    }
  }

  lemma NumberTyped(n: Number, entry: Option<Entry>)
    requires Proper(n)
    ensures Coerce(WireText(Num(n), entry), entry) == Num(n) <==> Typed(Num(n), entry)
  {
    if entry.Some? && entry.value.isSize {
      SizeTyped(n, entry);
    } else {
      NumberReadBack(n);
      NumeralCoerces(PrintNumber(n), n, entry);
    }
  }

  /** Writing a value and reading it at its entry's type gives it back exactly when it is of that type. */
  lemma TypedIff(v: Scalar, entry: Option<Entry>)
    requires IsProper(v)
    ensures Coerce(WireText(v, entry), entry) == v <==> Typed(v, entry)
  {
    match v
    case Flag(b) => FlagReads(b);
    case Num(n) => NumberTyped(n, entry);
    case Str(s) =>
  }

  /** What must hold of a sub-key's value for its part to be read back, in terms of its type. */
  predicate WritesTyped(s: Style, bag: Bag, k: string)
    requires k in bag
  {
    if Paired(s, bag, k) then NamesPair(s, bag[k], k, s.pairs[k])
    else
      && (s.strict ==> EntryIn(s, k).Some?) && Typed(bag[k], EntryIn(s, k))
      && TextOf(s, bag, k) != "" && ',' !in TextOf(s, bag, k)
      && (s.defaultKey == Some(k) ==> !IsBlank(TextOf(s, bag, k)) && '=' !in TextOf(s, bag, k))
  }

  /** Under plain targets an alias is never among the sub-keys read. */
  lemma {:induction false} AliasesAreNotRead(s: Style, bag: Bag, parts: seq<string>)
    requires PlainTargets(ReadingOf(s)) && NoAliases(s, bag) && ParseParts(ReadingOf(s), bag, parts).Ok?
    ensures NoAliases(s, ParseParts(ReadingOf(s), bag, parts).value)
    decreases |parts|
  {
    if parts != [] {
      var r := ReadingOf(s);
      PartMeans(r, bag, parts[0]);
      var next := ParsePart(r, bag, parts[0]).value;
      forall k | k in next
        ensures !IsAlias(Some(s.format), k)
      {
        if IsAlias(Some(s.format), k) {
          PlainSets(r, parts[0], k);
        }
      }
      AliasesAreNotRead(s, next, parts[1..]);
    }
  }

  /**
   * For a format whose key aliases stand for the default key, a bag comes back
   * from its text exactly when no sub-key is an alias, every value is of its
   * sub-key's type, not empty and comma-free, the default value is not blank
   * and has no `=`, and a sub-key paired with another names that pair.
   */
  lemma TypedReadsBackIff(s: Style, bag: Bag, order: seq<string>)
    requires Fixed(s) && CleanNames(bag) && Orders(order, bag) && forall k :: k in bag ==> IsProper(bag[k])
    ensures Write(s, bag, order).Ok? && Parse(ReadingOf(s), Write(s, bag, order).value) == Ok(bag)
            <==> NoAliases(s, bag) && forall k :: k in bag ==> WritesTyped(s, bag, k)
  {
    if NoAliases(s, bag) {
      CleanReadsBackIff(s, bag, order);
    } else if Write(s, bag, order).Ok? && Parse(ReadingOf(s), Write(s, bag, order).value).Ok? {
      AliasesAreNotRead(s, map[], Split(Write(s, bag, order).value, ','));
    }
  }

  lemma CleanReadsBackIff(s: Style, bag: Bag, order: seq<string>)
    requires Fixed(s) && Clean(s, bag) && Orders(order, bag) && forall k :: k in bag ==> IsProper(bag[k])
    ensures Write(s, bag, order).Ok? && Parse(ReadingOf(s), Write(s, bag, order).value) == Ok(bag)
            <==> forall k :: k in bag ==> WritesTyped(s, bag, k)
  {
    ReadsBackIff(s, bag, order);
    forall k | k in bag
      ensures KeyWrites(s, bag, k) <==> WritesTyped(s, bag, k)
    {
      TypedIff(bag[k], EntryIn(s, k));
    }
  }

  // --- Without a format ---

  predicate KeyIsClean(k: string) {
    k != "" && ',' !in k && '=' !in k
  }

  function Untyped(strict: bool): Reading {
    Reading(None, None, strict)
  }

  lemma UntypedPart(strict: bool, bag: Bag, k: string, text: string)
    requires KeyIsClean(k) && k !in bag
    ensures ParsePart(Untyped(strict), bag, k + "=" + text)
            == if text == "" then Failure(MalformedPart(k + "=" + text)) else Ok(bag[k := Str(text)])
  {
    var part := k + ['='] + text;
    assert k + "=" + text == part;
    IndexOfIn(k, '=', text);
    NotBlank(part, |k|);
    assert part[..|k|] == k && part[|k| + 1..] == text;
  }

  predicate AllText(bag: Bag, keys: seq<string>) {
    forall k :: k in keys && k in bag ==> bag[k].Str? && bag[k].text != "" && ',' !in bag[k].text
  }

  ghost predicate CleanOrder(order: seq<string>, bag: Bag) {
    && (forall k :: k in order ==> k in bag && KeyIsClean(k))
    && forall i, j :: 0 <= i < j < |order| ==> order[i] != order[j]
  }

  /** `bag` cut to the sub-keys of `before` and those listed. */
  ghost predicate Collected(bag: Bag, before: Bag, order: seq<string>, out: Bag) {
    && (forall k :: k in out <==> k in before || k in order)
    && (forall k :: k in before ==> k in out && out[k] == before[k])
    && forall k :: k in order && k in out && k in bag ==> out[k] == bag[k]
  }

  lemma CollectedMore(bag: Bag, before: Bag, order: seq<string>, out: Bag)
    requires order != [] && order[0] in bag && order[0] !in before
    requires Collected(bag, before[order[0] := bag[order[0]]], order[1..], out)
    ensures Collected(bag, before, order, out)
  {
    forall k | k in order
      ensures k == order[0] || k in order[1..]
    {
    }
  }

  lemma RestIsClean(bag: Bag, order: seq<string>)
    requires CleanOrder(order, bag) && order != []
    ensures CleanOrder(order[1..], bag) && order[0] !in order[1..]
    ensures AllText(bag, order) ==> AllText(bag, order[1..])
  {
    var rest := order[1..];
    forall i, j | 0 <= i < j < |rest|
      ensures rest[i] != rest[j]
    {
      assert rest[i] == order[i + 1] && rest[j] == order[j + 1];
    }
    forall i | 0 <= i < |rest|
      ensures rest[i] != order[0]
    {
      assert rest[i] == order[i + 1];
    }
  }

  lemma {:induction false} UntypedReads(strict: bool, bag: Bag, order: seq<string>, before: Bag)
    requires CleanOrder(order, bag) && AllText(bag, order) && forall k :: k in order ==> k !in before
    ensures var parts := PlainParts(bag, order);
            && parts.Ok? && |parts.value| == |order| && CommaFree(parts.value)
            && var r := ParseParts(Untyped(strict), before, parts.value);
               r.Ok? && Collected(bag, before, order, r.value)
    decreases |order|
  {
    if order == [] {
      assert ParseParts(Untyped(strict), before, []) == Ok(before);
    } else {
      var k, rest := order[0], order[1..];
      var text := bag[k].text;
      UntypedPart(strict, before, k, text);
      KeyHasNoComma(k, text);
      RestIsClean(bag, order);
      var more := before[k := bag[k]];
      UntypedReads(strict, bag, rest, more);
      var tail := PlainParts(bag, rest).value;
      var parts := [k + "=" + text] + tail;
      assert PlainParts(bag, order) == Ok(parts) && parts[0] == k + "=" + text && parts[1..] == tail;
      assert ParseParts(Untyped(strict), before, parts) == ParseParts(Untyped(strict), more, tail);
      CollectedMore(bag, before, order, ParseParts(Untyped(strict), more, tail).value);
      assert CommaFree(parts);
    }
  }

  predicate AllNonEmpty(bag: Bag) {
    forall k :: k in bag ==> bag[k].Str? && bag[k].text != ""
  }

  /** Without a format only non-empty text is ever read. */
  lemma {:induction false} UntypedIsText(strict: bool, before: Bag, parts: seq<string>)
    requires AllNonEmpty(before) && ParseParts(Untyped(strict), before, parts).Ok?
    ensures AllNonEmpty(ParseParts(Untyped(strict), before, parts).value)
    decreases |parts|
  {
    if parts != [] {
      UntypedIsText(strict, ParsePart(Untyped(strict), before, parts[0]).value, parts[1..]);
    }
  }

  lemma {:induction false} WrittenCommaFree(bag: Bag, order: seq<string>)
    requires CleanOrder(order, bag) && PlainParts(bag, order).Ok?
    ensures CommaFree(PlainParts(bag, order).value)
    ensures forall k :: k in order ==> ',' !in WireText(bag[k], None)
  {
    if order != [] {
      var k, rest := order[0], order[1..];
      RestIsClean(bag, order);
      WrittenCommaFree(bag, rest);
      KeyHasNoComma(k, WireText(bag[k], None));
      assert PlainParts(bag, order).value == [k + "=" + WireText(bag[k], None)] + PlainParts(bag, rest).value;
      forall j | j in order
        ensures j == k || j in rest
      {
      }
    }
  }

  lemma TextReadsBack(strict: bool, bag: Bag, order: seq<string>)
    requires Orders(order, bag) && CleanOrder(order, bag) && AllText(bag, order)
    ensures PlainParts(bag, order).Ok?
    ensures Parse(Untyped(strict), Join(PlainParts(bag, order).value, ',')) == Ok(bag)
  {
    UntypedReads(strict, bag, order, map[]);
    var parts := PlainParts(bag, order).value;
    JoinedParts(Untyped(strict), parts);
    AllCollected(bag, order, ParseParts(Untyped(strict), map[], parts).value);
  }

  lemma AllCollected(bag: Bag, order: seq<string>, out: Bag)
    requires Orders(order, bag) && Collected(bag, map[], order, out)
    ensures out == bag
  {
  }

  /** Without a format a bag comes back exactly when every value is non-empty text without a comma. */
  lemma UntypedReadsBackIff(strict: bool, bag: Bag, order: seq<string>)
    requires Orders(order, bag) && CleanOrder(order, bag)
    ensures PlainParts(bag, order).Ok? && Parse(Untyped(strict), Join(PlainParts(bag, order).value, ',')) == Ok(bag)
            <==> AllText(bag, order)
  {
    if AllText(bag, order) {
      TextReadsBack(strict, bag, order);
    } else if PlainParts(bag, order).Ok? {
      var parts := PlainParts(bag, order).value;
      WrittenCommaFree(bag, order);
      JoinedParts(Untyped(strict), parts);
      if ParseParts(Untyped(strict), map[], parts).Ok? {
        UntypedIsText(strict, map[], parts);
      }
    }
  }

  // --- The order written ---

  lemma {:induction false} BeforeTotal(a: string, b: string)
    ensures a == b || Before(a, b) || Before(b, a)
    ensures !(Before(a, b) && Before(b, a)) && !Before(a, a)
    decreases |a|
  {
    if a != "" {
      if b != "" {
        BeforeTotal(a[1..], b[1..]);
        if a[0] == b[0] && a[1..] == b[1..] {
          assert a == [a[0]] + a[1..] && b == [b[0]] + b[1..];
        }
      }
      BeforeTotal(a[1..], a[1..]);
    }
  }

  lemma {:induction false} BeforeTransitive(a: string, b: string, c: string)
    requires Before(a, b) && Before(b, c)
    ensures Before(a, c)
    decreases |a|
  {
    if a != "" && a[0] == b[0] == c[0] {
      BeforeTransitive(a[1..], b[1..], c[1..]);
    }
  }

  /** After `n` common characters one string ends or has the smaller character. */
  predicate SmallerAt(a: string, b: string, n: nat) {
    n <= |a| && n < |b| && a[..n] == b[..n] && (n == |a| || a[n] < b[n])
  }

  /** The order keys are sorted in is that of code points at the first difference. */
  lemma {:induction false} BeforeIff(a: string, b: string)
    ensures Before(a, b) <==> exists n: nat :: SmallerAt(a, b, n)
    decreases |a|
  {
    if a == "" || b == "" || a[0] != b[0] {
      assert SmallerAt(a, b, 0) <==> Before(a, b);
      assert forall n: nat :: SmallerAt(a, b, n) && n > 0 ==> a[..n][0] == b[..n][0];
    } else {
      BeforeIff(a[1..], b[1..]);
      if n: nat :| SmallerAt(a[1..], b[1..], n) {
        assert a[..n + 1] == [a[0]] + a[1..][..n] && b[..n + 1] == [b[0]] + b[1..][..n];
        assert SmallerAt(a, b, n + 1);
      }
      if n: nat :| SmallerAt(a, b, n) {
        assert a[1..][..n - 1] == a[..n][1..] && b[1..][..n - 1] == b[..n][1..];
        assert SmallerAt(a[1..], b[1..], n - 1);
      }
    }
  }

  predicate Ascending(keys: seq<string>) {
    forall i, j :: 0 <= i < j < |keys| ==> Before(keys[i], keys[j])
  }

  lemma {:induction false} InsertAscends(key: string, keys: seq<string>)
    requires Ascending(keys) && key !in keys
    ensures Ascending(Insert(key, keys))
  {
    if keys != [] {
      var rest := keys[1..];
      BeforeTotal(key, keys[0]);
      if Before(keys[0], key) {
        InsertAscends(key, rest);
        var out := Insert(key, rest);
        forall j | 0 <= j < |out|
          ensures Before(keys[0], out[j])
        {
          assert out[j] in out;
          if out[j] != key {
            var i :| 0 <= i < |rest| && rest[i] == out[j];
            assert keys[i + 1] == out[j];
          }
        }
      } else {
        forall j | 0 <= j < |keys|
          ensures Before(key, keys[j])
        {
          if j > 0 {
            BeforeTransitive(key, keys[0], keys[j]);
          }
        }
      }
    }
  }

  lemma {:induction false} SortedAscends(keys: seq<string>)
    requires forall i, j :: 0 <= i < j < |keys| ==> keys[i] != keys[j]
    ensures Ascending(Sorted(keys))
  {
    if keys != [] {
      SortedAscends(keys[1..]);
      InsertAscends(keys[0], Sorted(keys[1..]));
    }
  }

  lemma HasFirst(b: seq<string>)
    ensures b == [] || b[0] in b
  {
  }

  /** There is one ascending list of given keys. */
  lemma {:induction false} AscendingUnique(a: seq<string>, b: seq<string>)
    requires Ascending(a) && Ascending(b) && forall k :: k in a <==> k in b
    ensures a == b
    decreases |a|
  {
    if a == [] {
      HasFirst(b);
    } else {
      assert a[0] in b && b != [];
      assert b[0] in a;
      FirstIsLeast(a, b[0]);
      FirstIsLeast(b, a[0]);
      BeforeTotal(a[0], b[0]);
      RestOf(a);
      RestOf(b);
      AscendingUnique(a[1..], b[1..]);
      assert a == [a[0]] + a[1..] && b == [b[0]] + b[1..];
    }
  }

  lemma FirstIsLeast(a: seq<string>, k: string)
    requires Ascending(a) && k in a
    ensures k == a[0] || Before(a[0], k)
  {
    var i :| 0 <= i < |a| && a[i] == k;
  }

  lemma RestOf(a: seq<string>)
    requires Ascending(a) && a != []
    ensures forall k :: k in a[1..] <==> k in a && k != a[0]
  {
    BeforeTotal(a[0], a[0]);
    forall k | k in a && k != a[0]
      ensures k in a[1..]
    {
      var i :| 0 <= i < |a| && a[i] == k;
      assert a[1..][i - 1] == k;
    }
  }

  /** Each group is written in ascending order, so the order of the bag makes no difference to the text. */
  lemma BagOrderDoesNotMatter(s: Style, bag: Bag, a: seq<string>, b: seq<string>)
    requires Orders(a, bag) && Orders(b, bag)
    ensures Ascending(Sorted(a)) && Write(s, bag, a) == Write(s, bag, b)
  {
    SortedAscends(a);
    SortedAscends(b);
    AscendingUnique(Sorted(a), Sorted(b));
  }

  // --- A disk ---

  /** A required flag, a default key and a size. */
  function DiskFormat(): Format {
    var plain := Entry(Text, None, true, false, false, None, None);
    Format(["s", "f", "x"],
           map["s" := plain.(kind := Integer, isSize := true), "f" := plain.(isDefault := true),
               "x" := plain.(kind := Boolean, optional := false)])
  }

  lemma DiskLetters()
    ensures "s" != "f" && "f" != "x" && "s" != "x"
    ensures Before("f", "s") && Before("s", "x") && Before("f", "x")
  {
    assert "s"[0] != "f"[0] && "f"[0] != "x"[0] && "s"[0] != "x"[0];
  }

  lemma DiskStyle()
    ensures DiskFormat().Valid()
    ensures StyleOf(DiskFormat(), true) == Ok(Style(DiskFormat(), Some("f"), map[], true))
  {
    DiskLetters();
    var f := DiskFormat();
    assert DefaultAmong(f, 0) == Ok(None) && DefaultAmong(f, 1) == Ok(None);
    assert DefaultAmong(f, 2) == Ok(Some("f")) && DefaultAmong(f, 3) == Ok(Some("f"));
    assert PairsAmong(f, 0) == map[] && PairsAmong(f, 1) == map[] && PairsAmong(f, 2) == map[];
    assert PairsAmong(f, 3) == map[];
  }

  lemma DiskVisits(s: Style)
    requires s == Style(DiskFormat(), Some("f"), map[], true)
    ensures Visits(s, ["s", "x", "f"]) == ["f", "x", "f", "s", "x"]
  {
    DiskLetters();
    BeforeTotal("s", "f");
    BeforeTotal("x", "f");
    assert ["s", "x", "f"][1..] == ["x", "f"] && ["x", "f"][1..] == ["f"];
    assert Sorted(["f"]) == ["f"] && Sorted(["x", "f"]) == ["f", "x"];
    assert Insert("s", ["x"]) == ["s", "x"] && Sorted(["s", "x", "f"]) == ["f", "s", "x"];
    assert ["f", "s", "x"][1..] == ["s", "x"] && ["s", "x"][1..] == ["x"];
    assert RequiredOf(s.format, ["x"]) == ["x"] && RequiredOf(s.format, ["s", "x"]) == ["x"];
    assert RequiredOf(s.format, ["f", "s", "x"]) == ["x"];
  }

  function DiskBag(): Bag {
    map["s" := Num(Number(false, 34359738368, "")), "x" := Flag(true), "f" := Str("v")]
  }

  lemma DiskTexts()
    ensures var f, bag := DiskFormat(), DiskBag();
            && Stringify("f", bag["f"], WritingEntry(f, "f")) == Ok("v")
            && Stringify("x", bag["x"], WritingEntry(f, "x")) == Ok("1")
            && Stringify("s", bag["s"], WritingEntry(f, "s")) == Ok("32G")
  {
    DiskLetters();
    Sizes.ThirtyTwoG();
  }

  lemma DiskFirst(s: Style, bag: Bag)
    requires s == Style(DiskFormat(), Some("f"), map[], true) && bag == DiskBag()
    ensures AddKey(s, bag, Written({}, []), "f") == Ok(Written({"f"}, ["v"]))
    ensures AddKey(s, bag, Written({"f"}, ["v"]), "x") == Ok(Written({"f", "x"}, ["v", "x=1"]))
  {
    DiskLetters();
    DiskTexts();
    assert {} + {"f"} == {"f"} && [] + ["v"] == ["v"];
    assert {"f"} + {"x"} == {"f", "x"} && "x" + "=" + "1" == "x=1" && ["v"] + ["x=1"] == ["v", "x=1"];
  }

  lemma DiskLast(s: Style, bag: Bag, w: Written, v: Written)
    requires s == Style(DiskFormat(), Some("f"), map[], true) && bag == DiskBag()
    requires w == Written({"f", "x"}, ["v", "x=1"]) && v == Written({"f", "x", "s"}, ["v", "x=1", "s=32G"])
    ensures AddKeys(s, bag, w, ["f", "s", "x"]) == Ok(v)
  {
    DiskLetters();
    DiskTexts();
    assert w.done + {"s"} == v.done && "s" + "=" + "32G" == "s=32G" && w.parts + ["s=32G"] == v.parts;
    assert AddKey(s, bag, w, "s") == Ok(v);
    assert AddKeys(s, bag, v, ["x"]) == Ok(v) && ["s", "x"][1..] == ["x"];
    assert AddKeys(s, bag, w, ["s", "x"]) == Ok(v) && ["f", "s", "x"][1..] == ["s", "x"];
  }

  lemma DiskParts(s: Style, bag: Bag, w: Written)
    requires s == Style(DiskFormat(), Some("f"), map[], true) && bag == DiskBag()
    requires w == Written({"f", "x", "s"}, ["v", "x=1", "s=32G"])
    ensures AddKeys(s, bag, Written({}, []), ["f", "x", "f", "s", "x"]) == Ok(w)
  {
    DiskFirst(s, bag);
    DiskLast(s, bag, Written({"f", "x"}, ["v", "x=1"]), w);
    assert ["x", "f", "s", "x"][1..] == ["f", "s", "x"];
    assert AddKeys(s, bag, Written({"f"}, ["v"]), ["x", "f", "s", "x"]) == Ok(w);
    assert ["f", "x", "f", "s", "x"][1..] == ["x", "f", "s", "x"];
  }

  lemma DiskJoined()
    ensures Join(["v", "x=1", "s=32G"], ',') == "v,x=1,s=32G"
  {
    assert Join(["s=32G"], ',') == "s=32G" && ["x=1", "s=32G"][1..] == ["s=32G"];
    assert Join(["x=1", "s=32G"], ',') == "x=1" + [','] + "s=32G" == "x=1,s=32G";
    assert ["v", "x=1", "s=32G"][1..] == ["x=1", "s=32G"];
    assert "v" + [','] + "x=1,s=32G" == "v,x=1,s=32G";
  }

  lemma DiskText(s: Style, bag: Bag, w: Written, order: seq<string>)
    requires AddKeys(s, bag, Written({}, []), Visits(s, order)) == Ok(w)
    ensures Write(s, bag, order) == Ok(Join(w.parts, ','))
  {
  }

  /** The default value bare and first, then the required flag as a digit, then the size by its letter. */
  lemma DiskWritten()
    ensures WriteIn(DiskFormat(), DiskBag(), ["s", "x", "f"], true) == Ok("v,x=1,s=32G")
  {
    var s, w := Style(DiskFormat(), Some("f"), map[], true), Written({"f", "x", "s"}, ["v", "x=1", "s=32G"]);
    DiskStyle();
    DiskVisits(s);
    DiskParts(s, DiskBag(), w);
    DiskJoined();
    DiskText(s, DiskBag(), w, ["s", "x", "f"]);
  }
}
