/** Exactly which bags come back from the text they are written as. */
module PropRoundTrip {
  import opened Options
  import opened Strings
  import opened Values
  import opened Props
  import opened PropOrder
  import Numerals
  import Sizes

  // --- Formats and bags ---

  /** A format and how it is read and written. Every key alias stands for the default key. */
  ghost predicate Fixed(s: Style) {
    && s.format.Valid()
    && StyleOf(s.format, s.strict) == Ok(s)
    && PlainTargets(ReadingOf(s))
    && forall k :: IsAlias(Some(s.format), k) ==>
         var e := EntryOf(Some(s.format), k).value;
         e.keyAlias.Some? ==> s.defaultKey == e.keyAlias && s.defaultKey != e.alias
  }

  function ReadingOf(s: Style): Reading {
    Reading(Some(s.format), s.defaultKey, s.strict)
  }

  predicate NoAliases(s: Style, bag: Bag) {
    forall k :: k in bag ==> !IsAlias(Some(s.format), k)
  }

  /** Sub-keys with nothing in them that a part is split at. */
  predicate CleanNames(bag: Bag) {
    forall k :: k in bag ==> k != "" && ',' !in k && '=' !in k
  }

  predicate Clean(s: Style, bag: Bag) {
    CleanNames(bag) && NoAliases(s, bag)
  }

  function EntryIn(s: Style, k: string): Option<Entry> {
    EntryOf(Some(s.format), k)
  }

  function TextOf(s: Style, bag: Bag, k: string): string
    requires k in bag
  {
    WireText(bag[k], EntryIn(s, k))
  }

  // --- What must hold of a bag ---

  /** A sub-key whose text is not empty, has no comma and reads back at its type. */
  predicate TextReads(s: Style, bag: Bag, k: string)
    requires k in bag
  {
    && (s.strict ==> EntryIn(s, k).Some?)
    && TextOf(s, bag, k) != "" && ',' !in TextOf(s, bag, k)
    && Coerce(TextOf(s, bag, k), EntryIn(s, k)) == bag[k]
  }

  /** Written as the left half of a part whose right half is another sub-key's value. */
  predicate Paired(s: Style, bag: Bag, k: string) {
    k in s.pairs && s.pairs[k] in bag
  }

  /** The value names an alias of the partner whose key alias is this sub-key. */
  predicate NamesPair(s: Style, value: Scalar, k: string, partner: string) {
    && value.Str? && value.text != "" && ',' !in value.text && '=' !in value.text
    && IsAlias(Some(s.format), value.text)
    && EntryIn(s, value.text).value.alias == Some(partner)
    && EntryIn(s, value.text).value.keyAlias == Some(k)
  }

  predicate KeyWrites(s: Style, bag: Bag, k: string)
    requires k in bag
  {
    if Paired(s, bag, k) then NamesPair(s, bag[k], k, s.pairs[k])
    else
      && TextReads(s, bag, k)
      && (s.defaultKey == Some(k) ==> !IsBlank(TextOf(s, bag, k)) && '=' !in TextOf(s, bag, k))
  }

  ghost predicate Writable(s: Style, bag: Bag) {
    forall k :: k in bag ==> KeyWrites(s, bag, k)
  }

  // --- Pairs of a fixed format ---

  lemma {:induction false} PairsStandForDefault(s: Style, n: nat)
    requires Fixed(s) && n <= |s.format.keys|
    ensures forall k :: k in PairsAmong(s.format, n) ==>
              s.defaultKey == Some(k) && PairsAmong(s.format, n)[k] != k
    ensures forall k :: k in PairsAmong(s.format, n) ==> !IsAlias(Some(s.format), PairsAmong(s.format, n)[k])
  {
    if n != 0 {
      PairsStandForDefault(s, n - 1);
      var key := s.format.keys[n - 1];
      if s.format.entries[key].alias.Some? {
        assert IsAlias(Some(s.format), key);
      }
    }
  }

  lemma {:induction false} DefaultIsListed(format: Format, n: nat)
    requires format.Valid() && n <= |format.keys| && DefaultAmong(format, n).Ok?
    ensures DefaultAmong(format, n).value.Some? ==> DefaultAmong(format, n).value.value in format.entries
  {
    if n != 0 && DefaultAmong(format, n - 1).Ok? {
      DefaultIsListed(format, n - 1);
    }
  }

  /** In a fixed format only the default key is paired, with another plain sub-key. */
  lemma PairsOfFixed(s: Style, k: string)
    requires Fixed(s) && k in s.pairs
    ensures s.defaultKey == Some(k) && s.pairs[k] != k && !IsAlias(Some(s.format), s.pairs[k])
    ensures EntryIn(s, k).Some?
  {
    PairsStandForDefault(s, |s.format.keys|);
    DefaultIsListed(s.format, |s.format.keys|);
  }

  // --- Reading one written part ---

  lemma KeyedPart(s: Style, bag: Bag, k: string, text: string)
    requires k != "" && '=' !in k && !IsAlias(Some(s.format), k) && k !in bag
    ensures ParsePart(ReadingOf(s), bag, k + "=" + text)
            == if text == "" then Failure(MalformedPart(k + "=" + text)) else Store(ReadingOf(s), bag, k, text)
  {
    var part := k + ['='] + text;
    assert k + "=" + text == part;
    IndexOfIn(k, '=', text);
    NotBlank(part, |k|);
    assert part[..|k|] == k && part[|k| + 1..] == text;
  }

  lemma NotBlank(part: string, i: nat)
    requires i < |part| && part[i] == '='
    ensures !IsBlank(part)
  {
    assert !IsSpace(part[i]);
  }

  lemma BarePart(s: Style, text: string, k: string)
    requires s.defaultKey == Some(k) && !IsBlank(text) && '=' !in text
    ensures ParsePart(ReadingOf(s), map[], text) == Ok(map[k := Coerce(text, EntryIn(s, k))])
  {
    IndexOfNone(text, '=');
  }

  lemma PairedPart(s: Style, name: string, text: string, k: string, partner: string)
    requires Fixed(s) && NamesPair(s, Str(name), k, partner)
    ensures ParsePart(ReadingOf(s), map[], name + "=" + text)
            == if text == "" then Failure(MalformedPart(name + "=" + text))
               else Store(ReadingOf(s), map[k := Str(name)], partner, text)
  {
    var part := name + ['='] + text;
    assert name + "=" + text == part;
    IndexOfIn(name, '=', text);
    NotBlank(part, |name|);
    assert part[..|name|] == name && part[|name| + 1..] == text;
  }

  // --- The parts written so far read back as the sub-keys done so far ---

  function Restrict(bag: Bag, done: set<string>): Bag {
    map k | k in bag && k in done :: bag[k]
  }

  predicate CommaFree(parts: seq<string>) {
    forall p :: p in parts ==> ',' !in p
  }

  /** The default key comes first. */
  predicate DefaultFirst(s: Style, w: Written) {
    s.defaultKey.Some? ==> s.defaultKey.value in w.done || (w.done == {} && w.parts == [])
  }

  ghost predicate Tracks(s: Style, bag: Bag, w: Written) {
    && CommaFree(w.parts) && DefaultFirst(s, w)
    && ParseParts(ReadingOf(s), map[], w.parts) == Ok(Restrict(bag, w.done))
  }

  lemma {:induction false} ParsePush(r: Reading, bag: Bag, parts: seq<string>, part: string)
    ensures ParseParts(r, bag, parts + [part])
            == (match ParseParts(r, bag, parts)
                case Failure(p) => Failure(p)
                case Ok(next) => ParsePart(r, next, part))
    decreases |parts|
  {
    if parts == [] {
      assert [part][1..] == [];
    } else {
      assert (parts + [part])[1..] == parts[1..] + [part];
      var next := ParsePart(r, bag, parts[0]);
      if next.Ok? {
        ParsePush(r, next.value, parts[1..], part);
      }
    }
  }

  lemma RestrictMore(bag: Bag, done: set<string>, k: string)
    requires k in bag && k !in done
    ensures Restrict(bag, done + {k}) == Restrict(bag, done)[k := bag[k]] && k !in Restrict(bag, done)
  {
  }

  lemma RestrictNone(bag: Bag, done: set<string>, k: string)
    requires k !in bag
    ensures Restrict(bag, done + {k}) == Restrict(bag, done)
  {
  }

  lemma KeyHasNoComma(k: string, text: string)
    requires ',' !in k && ',' !in text
    ensures ',' !in k + "=" + text
  {
  }

  lemma PlainReads(s: Style, bag: Bag, w: Written, k: string)
    requires Fixed(s) && Clean(s, bag) && Tracks(s, bag, w) && k in bag && k !in w.done
    requires s.defaultKey != Some(k) && TextReads(s, bag, k)
    requires s.defaultKey.Some? ==> s.defaultKey.value in w.done
    ensures AddPlain(s, bag, w, k).Ok? && Tracks(s, bag, AddPlain(s, bag, w, k).value)
  {
    var text := TextOf(s, bag, k);
    RestrictMore(bag, w.done, k);
    KeyedPart(s, Restrict(bag, w.done), k, text);
    KeyHasNoComma(k, text);
    ParsePush(ReadingOf(s), map[], w.parts, k + "=" + text);
  }

  lemma DefaultReads(s: Style, bag: Bag, w: Written, k: string)
    requires Fixed(s) && Clean(s, bag) && k in bag && w == Written({}, [])
    requires s.defaultKey == Some(k) && TextReads(s, bag, k)
    requires !IsBlank(TextOf(s, bag, k)) && '=' !in TextOf(s, bag, k)
    ensures AddPlain(s, bag, w, k).Ok? && Tracks(s, bag, AddPlain(s, bag, w, k).value)
  {
    var text := TextOf(s, bag, k);
    RestrictMore(bag, {}, k);
    assert Restrict(bag, {}) == map[];
    BarePart(s, text, k);
    ParsePush(ReadingOf(s), map[], [], text);
    assert [] + [text] == [text];
    assert {} + {k} == {k};
  }

  lemma PairReads(s: Style, bag: Bag, w: Written, k: string)
    requires Fixed(s) && Clean(s, bag) && k in bag && w == Written({}, [])
    requires Paired(s, bag, k) && NamesPair(s, bag[k], k, s.pairs[k]) && TextReads(s, bag, s.pairs[k])
    ensures AddPair(s, bag, w, k, s.pairs[k]).Ok? && Tracks(s, bag, AddPair(s, bag, w, k, s.pairs[k]).value)
  {
    var partner := s.pairs[k];
    var name, text := bag[k].text, TextOf(s, bag, partner);
    PairsOfFixed(s, k);
    PairedPart(s, name, text, k, partner);
    RestrictMore(bag, {}, k);
    RestrictMore(bag, {k}, partner);
    assert Restrict(bag, {}) == map[];
    assert {} + {k} == {k} && {k} + {partner} == {k, partner} && {} + {k, partner} == {k, partner};
    KeyHasNoComma(name, text);
    ParsePush(ReadingOf(s), map[], [], name + "=" + text);
    assert [] + [name + "=" + text] == [name + "=" + text];
  }

  /** A partner is not paired itself. */
  lemma PartnerReads(s: Style, bag: Bag, k: string)
    requires Fixed(s) && Writable(s, bag) && Paired(s, bag, k)
    ensures TextReads(s, bag, s.pairs[k])
  {
    PairsOfFixed(s, k);
    var partner := s.pairs[k];
    if partner in s.pairs {
      PairsOfFixed(s, partner);
    }
    assert KeyWrites(s, bag, partner);
  }

  /** Adding a sub-key of a writable bag keeps what is written readable. */
  lemma AddKeyReads(s: Style, bag: Bag, w: Written, k: string)
    requires Fixed(s) && Clean(s, bag) && Writable(s, bag) && Tracks(s, bag, w)
    requires s.defaultKey.Some? ==> s.defaultKey == Some(k) || s.defaultKey.value in w.done
    ensures AddKey(s, bag, w, k).Ok? && Tracks(s, bag, AddKey(s, bag, w, k).value)
    ensures k in AddKey(s, bag, w, k).value.done && w.done <= AddKey(s, bag, w, k).value.done
  {
    if k !in w.done {
      if k !in bag {
        RestrictNone(bag, w.done, k);
      } else if Paired(s, bag, k) {
        PairsOfFixed(s, k);
        PartnerReads(s, bag, k);
        PairReads(s, bag, w, k);
      } else if s.defaultKey == Some(k) {
        DefaultReads(s, bag, w, k);
      } else {
        PlainReads(s, bag, w, k);
      }
    }
  }

  /** The default key is already done, or is next. */
  predicate DefaultNext(s: Style, w: Written, keys: seq<string>) {
    s.defaultKey.Some? ==> s.defaultKey.value in w.done || (keys != [] && keys[0] == s.defaultKey.value)
  }

  lemma {:induction false} AddKeysRead(s: Style, bag: Bag, w: Written, keys: seq<string>)
    requires Fixed(s) && Clean(s, bag) && Writable(s, bag) && Tracks(s, bag, w) && DefaultNext(s, w, keys)
    ensures var r := AddKeys(s, bag, w, keys);
            && r.Ok? && Tracks(s, bag, r.value) && w.done <= r.value.done
            && forall k :: k in keys ==> k in r.value.done
    decreases |keys|
  {
    if keys != [] {
      AddKeyReads(s, bag, w, keys[0]);
      AddKeysRead(s, bag, AddKey(s, bag, w, keys[0]).value, keys[1..]);
      forall k | k in keys
        ensures k == keys[0] || k in keys[1..]
      {
      }
    }
  }

  lemma NothingWritten(s: Style, bag: Bag)
    ensures Tracks(s, bag, Written({}, []))
  {
    assert Restrict(bag, {}) == map[];
  }

  /** The parts of a text are the parts it was joined from. */
  lemma JoinedParts(r: Reading, parts: seq<string>)
    requires CommaFree(parts)
    ensures Parse(r, Join(parts, ',')) == ParseParts(r, map[], parts)
  {
    if parts == [] {
      assert Split("", ',') == [""] && [""][1..] == [];
      assert IsBlank("");
    } else {
      SplitJoin(parts, ',');
    }
  }

  lemma VisitsAll(s: Style, order: seq<string>)
    ensures DefaultNext(s, Written({}, []), Visits(s, order))
    ensures forall k :: k in order ==> k in Visits(s, order)
  {
  }

  lemma WritableReadsBack(s: Style, bag: Bag, order: seq<string>)
    requires Fixed(s) && Clean(s, bag) && Orders(order, bag) && Writable(s, bag)
    ensures Write(s, bag, order).Ok? && Parse(ReadingOf(s), Write(s, bag, order).value) == Ok(bag)
  {
    NothingWritten(s, bag);
    VisitsAll(s, order);
    AddKeysRead(s, bag, Written({}, []), Visits(s, order));
    var w := AddKeys(s, bag, Written({}, []), Visits(s, order)).value;
    JoinedParts(ReadingOf(s), w.parts);
    assert Restrict(bag, w.done) == bag;
  }

  // --- Only writable bags come back ---

  /** Everything in `part` is in `whole` alike. */
  predicate Below(part: Bag, whole: Bag) {
    forall k :: k in part ==> k in whole && whole[k] == part[k]
  }

  lemma PartGrows(r: Reading, bag: Bag, part: string)
    requires ParsePart(r, bag, part).Ok?
    ensures Below(bag, ParsePart(r, bag, part).value)
  {
  }

  lemma {:induction false} PartsGrow(r: Reading, bag: Bag, parts: seq<string>)
    requires ParseParts(r, bag, parts).Ok?
    ensures Below(bag, ParseParts(r, bag, parts).value)
    decreases |parts|
  {
    if parts != [] {
      PartGrows(r, bag, parts[0]);
      PartsGrow(r, ParsePart(r, bag, parts[0]).value, parts[1..]);
    }
  }

  /** Once the default key is done, a sub-key adds at most one part, under its own name. */
  lemma LaterPart(s: Style, bag: Bag, w: Written, k: string)
    requires Fixed(s) && Clean(s, bag) && AddKey(s, bag, w, k).Ok?
    requires s.defaultKey.Some? ==> s.defaultKey.value in w.done
    ensures var next := AddKey(s, bag, w, k).value;
            && w.done <= next.done
            && (next.parts == w.parts
                || (k !in w.done && k in bag && next.parts == w.parts + [k + "=" + TextOf(s, bag, k)]
                    && AddPlain(s, bag, w, k) == Ok(next)))
  {
    if k !in w.done && k in bag && k in s.pairs {
      PairsOfFixed(s, k);
    }
  }

  /** What is read later leaves the sub-keys already done as they are, present or absent. */
  lemma {:induction false} LaterKeeps(s: Style, bag: Bag, w: Written, keys: seq<string>, k: string)
    requires Fixed(s) && Clean(s, bag) && k in w.done && AddKeys(s, bag, w, keys).Ok?
    requires s.defaultKey.Some? ==> s.defaultKey.value in w.done
    requires ParseParts(ReadingOf(s), map[], AddKeys(s, bag, w, keys).value.parts).Ok?
    ensures var r := ReadingOf(s);
            var now, end := ParseParts(r, map[], w.parts), ParseParts(r, map[], AddKeys(s, bag, w, keys).value.parts);
            now.Ok? && Below(now.value, end.value) && (k in end.value ==> k in now.value)
    decreases |keys|
  {
    if keys != [] {
      var next := AddKey(s, bag, w, keys[0]).value;
      LaterPart(s, bag, w, keys[0]);
      LaterKeeps(s, bag, next, keys[1..], k);
      if next.parts != w.parts {
        var r := ReadingOf(s);
        ParsePush(r, map[], w.parts, keys[0] + "=" + TextOf(s, bag, keys[0]));
        LaterKeepsOne(s, bag, w, keys[0], k);
      }
    }
  }

  lemma LaterKeepsOne(s: Style, bag: Bag, w: Written, key: string, k: string)
    requires Fixed(s) && Clean(s, bag) && k in w.done && key !in w.done && key in bag
    requires var now := ParseParts(ReadingOf(s), map[], w.parts);
             now.Ok? && ParsePart(ReadingOf(s), now.value, key + "=" + TextOf(s, bag, key)).Ok?
    ensures var now := ParseParts(ReadingOf(s), map[], w.parts).value;
            var next := ParsePart(ReadingOf(s), now, key + "=" + TextOf(s, bag, key)).value;
            Below(now, next) && (k in next ==> k in now)
  {
    var now := ParseParts(ReadingOf(s), map[], w.parts).value;
    var part := key + "=" + TextOf(s, bag, key);
    PartGrows(ReadingOf(s), now, part);
    KeyedPartSets(s, now, key, TextOf(s, bag, key));
  }

  /** A part under a plain name sets that name and nothing else. */
  lemma KeyedPartSets(s: Style, bag: Bag, k: string, text: string)
    requires k != "" && '=' !in k && !IsAlias(Some(s.format), k)
    requires ParsePart(ReadingOf(s), bag, k + "=" + text).Ok?
    ensures text != "" && k !in bag && (s.strict ==> EntryIn(s, k).Some?)
    ensures ParsePart(ReadingOf(s), bag, k + "=" + text).value == bag[k := Coerce(text, EntryIn(s, k))]
  {
    if k in bag {
      KeyedDuplicate(s, bag, k, text);
    } else {
      KeyedPart(s, bag, k, text);
    }
  }

  lemma KeyedDuplicate(s: Style, bag: Bag, k: string, text: string)
    requires k != "" && '=' !in k && k in bag
    ensures ParsePart(ReadingOf(s), bag, k + "=" + text).Failure?
  {
    var part := k + ['='] + text;
    assert k + "=" + text == part;
    IndexOfIn(k, '=', text);
    NotBlank(part, |k|);
    assert part[..|k|] == k && part[|k| + 1..] == text;
  }

  /** Text read at a type prints as it was, or as a numeral or a flag, which has no `=`. */
  lemma CoercedText(raw: string, e: Option<Entry>)
    ensures WireText(Coerce(raw, e), e) == raw || '=' !in WireText(Coerce(raw, e), e)
  {
    var v := Coerce(raw, e);
    if v.Num? {
      NumeralHasNoEquals(v.number);
      if e.Some? && e.value.isSize {
        SizeHasNoEquals(Truncated(v.number));
      }
    }
  }

  lemma NumeralHasNoEquals(n: Number)
    requires Proper(n)
    ensures '=' !in PrintNumber(n)
  {
    DigitsHaveNoDot(Numerals.Decimal(n.whole));
    DigitsHaveNoDot(n.fraction);
  }

  lemma SizeHasNoEquals(bytes: int)
    ensures '=' !in Sizes.SizeText(bytes)
  {
    var e := Sizes.Divisions(Sizes.Absolute(bytes), 4);
    DigitsHaveNoDot(Numerals.Decimal(Sizes.Reduced(Sizes.Absolute(bytes), e)));
  }

  lemma PlainNeeds(s: Style, bag: Bag, w: Written, k: string)
    requires Fixed(s) && Clean(s, bag) && Tracks(s, bag, w) && k in bag && k !in w.done && s.defaultKey != Some(k)
    requires s.defaultKey.Some? ==> s.defaultKey.value in w.done
    requires AddPlain(s, bag, w, k).Ok?
    requires var end := ParseParts(ReadingOf(s), map[], AddPlain(s, bag, w, k).value.parts);
             end.Ok? && Below(end.value, bag)
    ensures TextReads(s, bag, k) && Tracks(s, bag, AddPlain(s, bag, w, k).value)
  {
    var text := TextOf(s, bag, k);
    ParsePush(ReadingOf(s), map[], w.parts, k + "=" + text);
    KeyedPartSets(s, Restrict(bag, w.done), k, text);
    PlainReads(s, bag, w, k);
  }

  lemma WrittenText(s: Style, bag: Bag, k: string, written: string, raw: string)
    requires k in bag && TextOf(s, bag, k) == written + ['='] + raw && '=' !in written
    ensures bag[k] != Str(written) && bag[k] != Coerce(raw, EntryIn(s, k))
  {
    CoercedText(raw, EntryIn(s, k));
    assert (written + ['='] + raw)[|written|] == '=';
  }

  /** A text with `=` in it, read as a part of its own, never comes back under the key it was written for. */
  lemma SplitTextIsLost(s: Style, bag: Bag, k: string)
    requires Fixed(s) && k in bag && s.defaultKey == Some(k) && !IsAlias(Some(s.format), k)
    requires '=' in TextOf(s, bag, k) && ParsePart(ReadingOf(s), map[], TextOf(s, bag, k)).Ok?
    ensures var b := ParsePart(ReadingOf(s), map[], TextOf(s, bag, k)).value; k in b ==> b[k] != bag[k]
  {
    var text := TextOf(s, bag, k);
    var eq := IndexOf(text, '=');
    IndexFound(text, '=');
    NotBlank(text, eq);
    assert text == text[..eq] + ['='] + text[eq + 1..];
    WrittenText(s, bag, k, text[..eq], text[eq + 1..]);
    PairSets(s, k, text[..eq], text[eq + 1..]);
  }

  /** A pair sets a sub-key to the name it is written under or to the value read at its type. */
  lemma PairSets(s: Style, k: string, written: string, raw: string)
    requires ParsePair(ReadingOf(s), map[], written, raw).Ok?
    ensures var b := ParsePair(ReadingOf(s), map[], written, raw).value;
            k in b ==> b[k] == Str(written) || b[k] == Coerce(raw, EntryIn(s, k))
  {
  }

  lemma {:induction false} IndexFound(text: string, c: char)
    requires c in text
    ensures IndexOf(text, c) < |text|
  {
    if text[0] != c {
      IndexFound(text[1..], c);
    }
  }

  lemma DefaultNeeds(s: Style, bag: Bag, k: string)
    requires Fixed(s) && Clean(s, bag) && k in bag && s.defaultKey == Some(k) && !Paired(s, bag, k)
    requires AddPlain(s, bag, Written({}, []), k).Ok?
    requires var part := ParsePart(ReadingOf(s), map[], TextOf(s, bag, k));
             part.Ok? && Below(part.value, bag) && k in part.value
    ensures KeyWrites(s, bag, k)
  {
    var text := TextOf(s, bag, k);
    DefaultIsListed(s.format, |s.format.keys|);
    if '=' in text {
      SplitTextIsLost(s, bag, k);
    } else if !IsBlank(text) {
      BarePart(s, text, k);
    }
  }

  /** A part read as a pair names the pair. */
  lemma PairNeeds(s: Style, bag: Bag, k: string)
    requires Fixed(s) && Clean(s, bag) && k in bag && Paired(s, bag, k)
    requires AddPair(s, bag, Written({}, []), k, s.pairs[k]).Ok?
    requires var part := ParsePart(ReadingOf(s), map[], TextOf(s, bag, k) + "=" + TextOf(s, bag, s.pairs[k]));
             part.Ok? && Below(part.value, bag) && k in part.value && s.pairs[k] in part.value
    ensures NamesPair(s, bag[k], k, s.pairs[k]) && TextReads(s, bag, s.pairs[k])
  {
    var partner := s.pairs[k];
    var left, right := TextOf(s, bag, k), TextOf(s, bag, partner);
    var part := left + ['='] + right;
    assert left + "=" + right == part;
    PairsOfFixed(s, k);
    var eq := IndexOf(part, '=');
    assert part[|left|] == '=';
    IndexFound(part, '=');
    NotBlank(part, eq);
    PairIsNamed(s, bag, k, part[..eq], part[eq + 1..]);
    assert left == part[..eq];
    assert right == part[eq + 1..];
  }

  /** Only an alias of the partner sets both halves of a pair. */
  lemma PairIsNamed(s: Style, bag: Bag, k: string, written: string, raw: string)
    requires Fixed(s) && k in bag && Paired(s, bag, k) && s.pairs[k] != k && s.defaultKey == Some(k)
    requires var p := ParsePair(ReadingOf(s), map[], written, raw);
             p.Ok? && Below(p.value, bag) && k in p.value && s.pairs[k] in p.value
    ensures IsAlias(Some(s.format), written) && bag[k] == Str(written)
    ensures EntryIn(s, written).value.alias == Some(s.pairs[k]) && EntryIn(s, written).value.keyAlias == Some(k)
    ensures s.strict ==> EntryIn(s, s.pairs[k]).Some?
    ensures bag[s.pairs[k]] == Coerce(raw, EntryIn(s, s.pairs[k]))
  {
  }

  // --- Every sub-key done is one that writes ---

  lemma FirstNeeds(s: Style, bag: Bag, k: string)
    requires Fixed(s) && Clean(s, bag) && k in bag && s.defaultKey == Some(k)
    requires AddKey(s, bag, Written({}, []), k).Ok?
    requires var next := AddKey(s, bag, Written({}, []), k).value;
             var end := ParseParts(ReadingOf(s), map[], next.parts);
             end.Ok? && Below(end.value, bag) && k in end.value && (Paired(s, bag, k) ==> s.pairs[k] in end.value)
    ensures KeyWrites(s, bag, k) && (Paired(s, bag, k) ==> TextReads(s, bag, s.pairs[k]))
    ensures Tracks(s, bag, AddKey(s, bag, Written({}, []), k).value)
  {
    var w := Written({}, []);
    if Paired(s, bag, k) {
      var part := TextOf(s, bag, k) + "=" + TextOf(s, bag, s.pairs[k]);
      ParsePush(ReadingOf(s), map[], [], part);
      assert [] + [part] == [part];
      PairNeeds(s, bag, k);
      PairReads(s, bag, w, k);
    } else {
      ParsePush(ReadingOf(s), map[], [], TextOf(s, bag, k));
      assert [] + [TextOf(s, bag, k)] == [TextOf(s, bag, k)];
      DefaultNeeds(s, bag, k);
      DefaultReads(s, bag, w, k);
    }
  }

  /** The bag came back, so what was read by the time `k` was done is part of it. */
  lemma ReadByThen(s: Style, bag: Bag, w: Written, keys: seq<string>, k: string)
    requires Fixed(s) && Clean(s, bag) && k in w.done && AddKeys(s, bag, w, keys).Ok?
    requires s.defaultKey.Some? ==> s.defaultKey.value in w.done
    requires ParseParts(ReadingOf(s), map[], AddKeys(s, bag, w, keys).value.parts) == Ok(bag)
    ensures var now := ParseParts(ReadingOf(s), map[], w.parts);
            now.Ok? && Below(now.value, bag) && (k in bag ==> k in now.value)
  {
    LaterKeeps(s, bag, w, keys, k);
  }

  lemma StepNeeds(s: Style, bag: Bag, w: Written, keys: seq<string>)
    requires Fixed(s) && Clean(s, bag) && Tracks(s, bag, w) && keys != [] && DefaultNext(s, w, keys)
    requires AddKeys(s, bag, w, keys).Ok?
    requires ParseParts(ReadingOf(s), map[], AddKeys(s, bag, w, keys).value.parts) == Ok(bag)
    ensures AddKey(s, bag, w, keys[0]).Ok? && Tracks(s, bag, AddKey(s, bag, w, keys[0]).value)
    ensures forall k :: k in bag && k in AddKey(s, bag, w, keys[0]).value.done && k !in w.done ==> KeyWrites(s, bag, k)
  {
    var key := keys[0];
    var next := AddKey(s, bag, w, key).value;
    if key in w.done {
    } else if key !in bag {
      RestrictNone(bag, w.done, key);
    } else if s.defaultKey == Some(key) {
      ReadByThen(s, bag, next, keys[1..], key);
      if Paired(s, bag, key) {
        ReadByThen(s, bag, next, keys[1..], s.pairs[key]);
        PairsOfFixed(s, key);
        PartnerUnpaired(s, key);
      }
      FirstNeeds(s, bag, key);
    } else {
      OthersUnpaired(s, key);
      ReadByThen(s, bag, next, keys[1..], key);
      PlainNeeds(s, bag, w, key);
    }
  }

  lemma PartnerUnpaired(s: Style, k: string)
    requires Fixed(s) && k in s.pairs
    ensures s.pairs[k] !in s.pairs && s.defaultKey != Some(s.pairs[k])
  {
    PairsOfFixed(s, k);
    if s.pairs[k] in s.pairs {
      PairsOfFixed(s, s.pairs[k]);
    }
  }

  lemma OthersUnpaired(s: Style, k: string)
    requires Fixed(s) && s.defaultKey != Some(k)
    ensures k !in s.pairs
  {
    if k in s.pairs {
      PairsOfFixed(s, k);
    }
  }

  lemma {:induction false} AllNeeded(s: Style, bag: Bag, w: Written, keys: seq<string>)
    requires Fixed(s) && Clean(s, bag) && Tracks(s, bag, w) && DefaultNext(s, w, keys)
    requires AddKeys(s, bag, w, keys).Ok?
    requires ParseParts(ReadingOf(s), map[], AddKeys(s, bag, w, keys).value.parts) == Ok(bag)
    ensures forall k :: k in bag && k in keys && k !in w.done ==> KeyWrites(s, bag, k)
    decreases |keys|
  {
    if keys != [] {
      StepNeeds(s, bag, w, keys);
      DoneGrows(s, bag, w, keys[0]);
      AllNeeded(s, bag, AddKey(s, bag, w, keys[0]).value, keys[1..]);
      forall k | k in keys
        ensures k == keys[0] || k in keys[1..]
      {
      }
    }
  }

  lemma DoneGrows(s: Style, bag: Bag, w: Written, k: string)
    requires AddKey(s, bag, w, k).Ok?
    ensures k in AddKey(s, bag, w, k).value.done && w.done <= AddKey(s, bag, w, k).value.done
  {
  }

  lemma {:induction false} AddedCommaFree(s: Style, bag: Bag, w: Written, keys: seq<string>)
    requires Clean(s, bag) && CommaFree(w.parts) && AddKeys(s, bag, w, keys).Ok?
    ensures CommaFree(AddKeys(s, bag, w, keys).value.parts)
    decreases |keys|
  {
    if keys != [] {
      AddedCommaFree(s, bag, AddKey(s, bag, w, keys[0]).value, keys[1..]);
    }
  }

  /**
   * For a fixed format and a bag without aliases, what the bag is written as
   * reads back to it exactly when every value by itself does, is comma-free
   * and not empty, the default value is not blank and has no `=`, and a
   * sub-key paired with another names that pair.
   */
  lemma ReadsBackIff(s: Style, bag: Bag, order: seq<string>)
    requires Fixed(s) && Clean(s, bag) && Orders(order, bag)
    ensures Write(s, bag, order).Ok? && Parse(ReadingOf(s), Write(s, bag, order).value) == Ok(bag)
            <==> Writable(s, bag)
  {
    if Writable(s, bag) {
      WritableReadsBack(s, bag, order);
    } else if Write(s, bag, order).Ok? && Parse(ReadingOf(s), Write(s, bag, order).value) == Ok(bag) {
      var w := AddKeys(s, bag, Written({}, []), Visits(s, order)).value;
      AddedCommaFree(s, bag, Written({}, []), Visits(s, order));
      JoinedParts(ReadingOf(s), w.parts);
      NothingWritten(s, bag);
      VisitsAll(s, order);
      AllNeeded(s, bag, Written({}, []), Visits(s, order));
    }
  }
}
