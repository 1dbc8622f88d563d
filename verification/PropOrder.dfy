/** What makes a property string acceptable, and exactly when the order of its parts makes no difference. */
module PropOrder {
  import opened Options
  import opened Strings
  import opened Props

  predicate IsAlias(format: Option<Format>, key: string) {
    EntryOf(format, key).Some? && EntryOf(format, key).value.alias.Some?
  }

  /** The sub-keys that aliases, key aliases and bare values are stored under are not aliases themselves. */
  ghost predicate PlainTargets(r: Reading) {
    && (r.defaultKey.Some? ==> !IsAlias(r.format, r.defaultKey.value))
    && forall k :: IsAlias(r.format, k) ==>
         var e := EntryOf(r.format, k).value;
         !IsAlias(r.format, e.alias.value) && (e.keyAlias.Some? ==> !IsAlias(r.format, e.keyAlias.value))
  }

  // --- What one part says by itself ---

  /** A part sets some sub-keys, or is wrong whatever comes before it. */
  datatype Meaning = Sets(bag: Bag) | Wrong

  function MeaningOfStore(r: Reading, key: string, raw: string): Meaning {
    if r.format.Some? && EntryOf(r.format, key).None? && r.strict then Wrong
    else Sets(map[key := Coerce(raw, EntryOf(r.format, key))])
  }

  function MeaningOfPair(r: Reading, written: string, raw: string): Meaning {
    if IsAlias(r.format, written) then
      var e := EntryOf(r.format, written).value;
      match MeaningOfStore(r, e.alias.value, raw)
      case Wrong => Wrong
      case Sets(bag) =>
        if e.keyAlias.None? then Sets(bag)
        else if e.keyAlias.value == e.alias.value then Wrong
        else Sets(bag[e.keyAlias.value := Str(written)])
    else MeaningOfStore(r, written, raw)
  }

  function MeaningOf(r: Reading, part: string): Meaning {
    if IsBlank(part) then Sets(map[])
    else
      var eq := IndexOf(part, '=');
      if eq == |part| then
        if r.defaultKey.None? then Wrong
        else Sets(map[r.defaultKey.value := Coerce(part, EntryOf(r.format, r.defaultKey.value))])
      else if eq == 0 || eq == |part| - 1 then Wrong
      else MeaningOfPair(r, part[..eq], part[eq + 1..])
  }

  /** The sub-keys a part sets. */
  function KeysSet(r: Reading, part: string): set<string> {
    match MeaningOf(r, part)
    case Wrong => {}
    case Sets(bag) => bag.Keys
  }

  /** The name a part is written under, if any. */
  function Name(part: string): set<string> {
    var eq := IndexOf(part, '=');
    if IsBlank(part) || eq == |part| then {} else {part[..eq]}
  }

  predicate Right(r: Reading, part: string) {
    MeaningOf(r, part).Sets?
  }

  /** Neither what a part sets nor the name it is written under is known yet. */
  predicate Fresh(r: Reading, bag: Bag, part: string) {
    Right(r, part) && KeysSet(r, part) !! bag.Keys && Name(part) !! bag.Keys
  }

  lemma StoreMeans(r: Reading, bag: Bag, key: string, raw: string)
    requires key !in bag
    ensures var m, p := MeaningOfStore(r, key, raw), Store(r, bag, key, raw);
            && (p.Ok? <==> m.Sets?) && (m.Sets? ==> m.bag.Keys == {key})
            && (p.Ok? ==> p.value == bag + m.bag)
  {
    var m := MeaningOfStore(r, key, raw);
    if m.Sets? {
      assert m.bag.Keys == {key};
      assert bag[key := Coerce(raw, EntryOf(r.format, key))] == bag + m.bag;
    }
  }

  lemma PairMeans(r: Reading, bag: Bag, written: string, raw: string)
    ensures var m, p := MeaningOfPair(r, written, raw), ParsePair(r, bag, written, raw);
            && (p.Ok? <==> m.Sets? && m.bag.Keys !! bag.Keys && written !in bag)
            && (p.Ok? ==> p.value == bag + m.bag)
  {
    if IsAlias(r.format, written) {
      AliasMeans(r, bag, written, raw);
    } else if written !in bag {
      StoreMeans(r, bag, written, raw);
    }
  }

  /** What an alias is stored under. */
  function Targets(r: Reading, name: string): set<string>
    requires IsAlias(r.format, name)
  {
    var e := EntryOf(r.format, name).value;
    {e.alias.value} + if e.keyAlias.Some? then {e.keyAlias.value} else {}
  }

  lemma AliasMeans(r: Reading, bag: Bag, written: string, raw: string)
    requires IsAlias(r.format, written)
    ensures var m, p := MeaningOfPair(r, written, raw), ParsePair(r, bag, written, raw);
            && (m.Sets? ==> m.bag.Keys == Targets(r, written))
            && (p.Ok? <==> m.Sets? && m.bag.Keys !! bag.Keys && written !in bag)
            && (p.Ok? ==> p.value == bag + m.bag)
  {
    var e := EntryOf(r.format, written).value;
    var target, m := e.alias.value, MeaningOfPair(r, written, raw);
    assert m.Sets? ==> m.bag.Keys == Targets(r, written);
    if e.keyAlias.None? {
      if target !in bag {
        StoreMeans(r, bag, target, raw);
      }
    } else {
      var name := e.keyAlias.value;
      if name !in bag && target !in bag && target != name {
        StoreMeans(r, bag[name := Str(written)], target, raw);
        if m.Sets? {
          assert bag[name := Str(written)][target := Coerce(raw, EntryOf(r.format, target))] == bag + m.bag;
        }
      }
    }
  }

  /** A part is accepted exactly when it is right by itself and neither sets nor is named like anything already set. */
  lemma PartMeans(r: Reading, bag: Bag, part: string)
    ensures var p := ParsePart(r, bag, part);
            && (p.Ok? <==> Fresh(r, bag, part))
            && (p.Ok? ==> p.value == bag + MeaningOf(r, part).bag)
  {
    var eq := IndexOf(part, '=');
    if IsBlank(part) {
      assert bag + map[] == bag;
    } else if eq == |part| {
      if r.defaultKey.Some? {
        var d := r.defaultKey.value;
        var v := Coerce(part, EntryOf(r.format, d));
        assert bag[d := v] == bag + map[d := v];
      }
    } else if !(eq == 0 || eq == |part| - 1) {
      PairMeans(r, bag, part[..eq], part[eq + 1..]);
    }
  }

  // --- Whole strings ---

  /** `p` may come before `q`: it sets nothing that `q` sets or is named. */
  predicate Clear(r: Reading, p: string, q: string) {
    KeysSet(r, p) !! KeysSet(r, q) && KeysSet(r, p) !! Name(q)
  }

  /** Every part is right by itself, and none sets what a later one sets or is named. */
  ghost predicate Compatible(r: Reading, parts: seq<string>) {
    && (forall i :: 0 <= i < |parts| ==> Right(r, parts[i]))
    && forall i, j :: 0 <= i < j < |parts| ==> Clear(r, parts[i], parts[j])
  }

  /** `bag` with what each part says added. */
  function Union(r: Reading, bag: Bag, parts: seq<string>): Bag
    decreases |parts|
  {
    if parts == [] then bag
    else
      var m := MeaningOf(r, parts[0]);
      Union(r, if m.Sets? then bag + m.bag else bag, parts[1..])
  }

  ghost predicate AllFresh(r: Reading, bag: Bag, parts: seq<string>) {
    forall i :: 0 <= i < |parts| ==> Fresh(r, bag, parts[i])
  }

  /** Parsing succeeds exactly when the parts are compatible, and then nothing is overwritten. */
  lemma {:induction false} PartsMean(r: Reading, bag: Bag, parts: seq<string>)
    ensures ParseParts(r, bag, parts).Ok? <==> Compatible(r, parts) && AllFresh(r, bag, parts)
    ensures ParseParts(r, bag, parts).Ok? ==> ParseParts(r, bag, parts).value == Union(r, bag, parts)
    decreases |parts|
  {
    if parts != [] {
      PartMeans(r, bag, parts[0]);
      if Fresh(r, bag, parts[0]) {
        PartsMean(r, bag + MeaningOf(r, parts[0]).bag, parts[1..]);
        FirstClear(r, bag, parts);
      }
    }
  }

  lemma FirstClear(r: Reading, bag: Bag, parts: seq<string>)
    requires parts != [] && Fresh(r, bag, parts[0])
    ensures Compatible(r, parts) && AllFresh(r, bag, parts)
            <==> Compatible(r, parts[1..]) && AllFresh(r, bag + MeaningOf(r, parts[0]).bag, parts[1..])
  {
    var m, rest := MeaningOf(r, parts[0]), parts[1..];
    var more := bag + m.bag;
    assert more.Keys == bag.Keys + KeysSet(r, parts[0]);
    assert forall i :: 0 <= i < |rest| ==> rest[i] == parts[i + 1];
    assert forall i :: 1 <= i < |parts| ==> parts[i] == rest[i - 1];
  }

  /**
   * A string is accepted exactly when each part is right by itself and none
   * sets a sub-key that a later one sets or is written under.
   */
  lemma AcceptedInOrderIff(r: Reading, input: string)
    ensures Parse(r, input).Ok? <==> Compatible(r, Split(input, ','))
    ensures Parse(r, input).Ok? ==> Parse(r, input).value == Union(r, map[], Split(input, ','))
  {
    PartsMean(r, map[], Split(input, ','));
  }

  /** Every part is right by itself and no two set the same sub-key. */
  ghost predicate Disjoint(r: Reading, parts: seq<string>) {
    && (forall i :: 0 <= i < |parts| ==> Right(r, parts[i]))
    && forall i, j :: 0 <= i < j < |parts| ==> KeysSet(r, parts[i]) !! KeysSet(r, parts[j])
  }

  /** Under plain targets no part sets the name of an alias. */
  lemma PlainSets(r: Reading, part: string, name: string)
    requires PlainTargets(r) && IsAlias(r.format, name)
    ensures name !in KeysSet(r, part)
  {
    var eq := IndexOf(part, '=');
    if Right(r, part) && !IsBlank(part) && eq != |part| && IsAlias(r.format, part[..eq]) {
      AliasMeans(r, map[], part[..eq], part[eq + 1..]);
    }
  }

  /** A part that is no alias sets the sub-key it is named. */
  lemma NameIsSet(r: Reading, part: string)
    requires Right(r, part)
    ensures forall name :: name in Name(part) ==>
              && name == part[..IndexOf(part, '=')]
              && if IsAlias(r.format, name) then KeysSet(r, part) == Targets(r, name) else KeysSet(r, part) == {name}
  {
    var eq := IndexOf(part, '=');
    if !IsBlank(part) && eq != |part| && IsAlias(r.format, part[..eq]) {
      AliasMeans(r, map[], part[..eq], part[eq + 1..]);
    }
  }

  lemma PlainClear(r: Reading, p: string, q: string)
    requires PlainTargets(r) && Right(r, p) && Right(r, q)
    ensures Clear(r, p, q) <==> KeysSet(r, p) !! KeysSet(r, q)
  {
    NameIsSet(r, q);
    forall name | name in Name(q) && IsAlias(r.format, name)
      ensures name !in KeysSet(r, p)
    {
      PlainSets(r, p, name);
    }
  }

  /** Under plain targets a string is accepted exactly when each part is right and no two set the same sub-key. */
  lemma AcceptedIff(r: Reading, input: string)
    requires PlainTargets(r)
    ensures Parse(r, input).Ok? <==> Disjoint(r, Split(input, ','))
    ensures Parse(r, input).Ok? ==> Parse(r, input).value == Union(r, map[], Split(input, ','))
  {
    var parts := Split(input, ',');
    AcceptedInOrderIff(r, input);
    forall i, j | 0 <= i < j < |parts| && Right(r, parts[i]) && Right(r, parts[j])
      ensures Clear(r, parts[i], parts[j]) <==> KeysSet(r, parts[i]) !! KeysSet(r, parts[j])
    {
      PlainClear(r, parts[i], parts[j]);
    }
  }

  // --- Permuting the parts ---

  /** Both fail, or both give the same bag. */
  predicate SameResult(a: Result<Bag>, b: Result<Bag>) {
    if a.Ok? then b == a else b.Failure?
  }

  /** If either of two parts may come first, both may. */
  predicate Exchange(r: Reading, p: string, q: string) {
    Right(r, p) && Right(r, q) ==> (Clear(r, p, q) <==> Clear(r, q, p))
  }

  ghost predicate Exchanges(r: Reading, parts: seq<string>) {
    forall p, q :: p in parts && q in parts ==> Exchange(r, p, q)
  }

  lemma TwoParts(r: Reading, bag: Bag, a: string, b: string, rest: seq<string>)
    ensures var p := ParseParts(r, bag, [a, b] + rest);
            if Fresh(r, bag, a) && Fresh(r, bag, b) && Clear(r, a, b)
            then p == ParseParts(r, bag + MeaningOf(r, a).bag + MeaningOf(r, b).bag, rest)
            else p.Failure?
  {
    assert ([a, b] + rest)[1..] == [b] + rest && ([b] + rest)[1..] == rest;
    PartMeans(r, bag, a);
    if Fresh(r, bag, a) {
      var m := MeaningOf(r, a);
      PartMeans(r, bag + m.bag, b);
      assert (bag + m.bag).Keys == bag.Keys + KeysSet(r, a);
    }
  }

  lemma SwapFirst(r: Reading, bag: Bag, a: string, b: string, rest: seq<string>)
    requires Exchange(r, a, b)
    ensures SameResult(ParseParts(r, bag, [a, b] + rest), ParseParts(r, bag, [b, a] + rest))
  {
    TwoParts(r, bag, a, b, rest);
    TwoParts(r, bag, b, a, rest);
    if Fresh(r, bag, a) && Fresh(r, bag, b) && Clear(r, a, b) {
      var m, n := MeaningOf(r, a), MeaningOf(r, b);
      assert m.bag.Keys !! n.bag.Keys;
      assert bag + m.bag + n.bag == bag + n.bag + m.bag;
    }
  }

  /** After a common first part, results that are the same stay the same. */
  lemma FirstThen(r: Reading, bag: Bag, first: string, a: seq<string>, b: seq<string>)
    requires var next := ParsePart(r, bag, first);
             next.Ok? ==> SameResult(ParseParts(r, next.value, a), ParseParts(r, next.value, b))
    ensures SameResult(ParseParts(r, bag, [first] + a), ParseParts(r, bag, [first] + b))
  {
    assert ([first] + a)[1..] == a && ([first] + b)[1..] == b;
  }

  /** The list with its part `i` moved to the front. */
  function Moved(parts: seq<string>, i: nat): seq<string>
    requires i < |parts|
  {
    [parts[i]] + (parts[..i] + parts[i + 1..])
  }

  /** Moving a part past the rest, and then past the first. */
  lemma MovedInTwo(parts: seq<string>, i: nat) returns (after: seq<string>)
    requires 0 < i < |parts|
    ensures [parts[0]] + Moved(parts[1..], i - 1) == [parts[0], parts[i]] + after
    ensures Moved(parts, i) == [parts[i], parts[0]] + after
    ensures [parts[0]] + parts[1..] == parts
  {
    var rest := parts[1..];
    assert rest[i - 1] == parts[i] && rest[i - 1 + 1..] == parts[i + 1..];
    after := rest[..i - 1] + parts[i + 1..];
    assert parts[..i] == [parts[0]] + rest[..i - 1];
  }

  lemma RestExchanges(r: Reading, parts: seq<string>)
    requires Exchanges(r, parts) && parts != []
    ensures Exchanges(r, parts[1..])
  {
  }

  lemma SameThrough(a: Result<Bag>, b: Result<Bag>, c: Result<Bag>)
    requires SameResult(a, b) && SameResult(b, c)
    ensures SameResult(a, c)
  {
  }

  /** Reading a part first that stood later gives the same. */
  lemma {:induction false} MoveToFront(r: Reading, bag: Bag, parts: seq<string>, i: nat)
    requires Exchanges(r, parts) && i < |parts|
    ensures SameResult(ParseParts(r, bag, parts), ParseParts(r, bag, Moved(parts, i)))
    decreases i
  {
    if i == 0 {
      assert Moved(parts, 0) == parts;
    } else {
      var first, rest := parts[0], parts[1..];
      var moved := Moved(rest, i - 1);
      var after := MovedInTwo(parts, i);
      RestExchanges(r, parts);
      var next := ParsePart(r, bag, first);
      if next.Ok? {
        MoveToFront(r, next.value, rest, i - 1);
      }
      FirstThen(r, bag, first, rest, moved);
      assert first in parts && parts[i] in parts;
      SwapFirst(r, bag, first, parts[i], after);
      SameThrough(ParseParts(r, bag, parts), ParseParts(r, bag, [first] + moved), ParseParts(r, bag, Moved(parts, i)));
    }
  }

  lemma {:induction false} Permuted(r: Reading, bag: Bag, a: seq<string>, b: seq<string>)
    requires Exchanges(r, b) && multiset(a) == multiset(b)
    ensures SameResult(ParseParts(r, bag, a), ParseParts(r, bag, b))
    decreases |a|
  {
    if a == [] {
      SameSize(a, b);
    } else {
      assert a[0] in multiset(a);
      var i :| 0 <= i < |b| && b[i] == a[0];
      MoveToFront(r, bag, b, i);
      var rest := b[..i] + b[i + 1..];
      WithoutOne(a, b, i);
      assert ([b[i]] + rest)[1..] == rest;
      var next := ParsePart(r, bag, a[0]);
      if next.Ok? {
        Permuted(r, next.value, a[1..], rest);
      }
    }
  }

  lemma SameSize(a: seq<string>, b: seq<string>)
    requires multiset(a) == multiset(b)
    ensures |a| == |b|
  {
    assert |multiset(a)| == |multiset(b)|;
  }

  lemma WithoutOne(a: seq<string>, b: seq<string>, i: nat)
    requires a != [] && i < |b| && b[i] == a[0] && multiset(a) == multiset(b)
    ensures multiset(a[1..]) == multiset(b[..i] + b[i + 1..])
  {
    assert a == [a[0]] + a[1..] && b == b[..i] + [b[i]] + b[i + 1..];
    assert multiset(a[1..]) == multiset(a) - multiset{a[0]};
    assert multiset(b[..i] + b[i + 1..]) == multiset(b) - multiset{b[i]};
  }

  // --- When order makes no difference ---

  /** The names a format lists. */
  function Listed(r: Reading): set<string> {
    if r.format.Some? then r.format.value.entries.Keys else {}
  }

  /** An alias that some part can be written under and be right. */
  predicate Usable(r: Reading, name: string) {
    && IsAlias(r.format, name) && name != "" && ',' !in name && '=' !in name
    && var e := EntryOf(r.format, name).value;
       e.keyAlias != e.alias && (r.strict ==> EntryOf(r.format, e.alias.value).Some?)
  }

  /**
   * A usable alias not stored under its own name is not the default key, and
   * every usable alias stored under its name shares a sub-key with it, so that
   * the two never go together, or is set by it in turn, so that neither may
   * come first.
   */
  predicate OrderFree(r: Reading) {
    forall w :: w in Listed(r) && Usable(r, w) && w !in Targets(r, w) ==>
      && r.defaultKey != Some(w)
      && forall v :: v in Listed(r) && Usable(r, v) && w in Targets(r, v) && Targets(r, v) !! Targets(r, w) ==>
           v in Targets(r, w)
  }

  lemma PlainIsOrderFree(r: Reading)
    requires PlainTargets(r)
    ensures OrderFree(r)
  {
  }

  /** An alias that a part is written under is a usable one. */
  lemma NameIsUsable(r: Reading, part: string, name: string)
    requires ',' !in part && Right(r, part) && name in Name(part) && IsAlias(r.format, name)
    ensures name in Listed(r) && Usable(r, name) && KeysSet(r, part) == Targets(r, name)
  {
    NameIsSet(r, part);
  }

  /** In an order-free format a part that may come before another may also come after it. */
  lemma ClearBothWays(r: Reading, p: string, q: string)
    requires OrderFree(r) && ',' !in p && ',' !in q && Right(r, p) && Right(r, q) && Clear(r, p, q)
    ensures Clear(r, q, p)
  {
    if w :| w in Name(p) && w in KeysSet(r, q) {
      NameIsSet(r, p);
      NameIsUsable(r, p, w);
      NameIsSet(r, q);
      if v :| v in Name(q) {
        NameIsUsable(r, q, v);
      }
    }
  }

  lemma OrderFreeExchanges(r: Reading, parts: seq<string>)
    requires OrderFree(r) && forall p :: p in parts ==> ',' !in p
    ensures Exchanges(r, parts)
  {
    forall p, q | p in parts && q in parts && Right(r, p) && Right(r, q) && Clear(r, p, q)
      ensures Clear(r, q, p)
    {
      ClearBothWays(r, p, q);
    }
  }

  lemma {:induction false} SplitHasNone(s: string, c: char)
    ensures forall p :: p in Split(s, c) ==> c !in p
  {
    if s != "" {
      SplitHasNone(s[1..], c);
      var rest := Split(s[1..], c);
      forall p | p in Split(s, c)
        ensures c !in p
      {
        if p !in rest[1..] {
          assert rest[0] in rest;
        }
      }
    }
  }

  /** In an order-free format the same parts in any order are accepted or rejected alike and give the same bag. */
  lemma OrderDoesNotMatter(r: Reading, a: string, b: string)
    requires OrderFree(r) && multiset(Split(a, ',')) == multiset(Split(b, ','))
    ensures SameResult(Parse(r, a), Parse(r, b))
  {
    SplitHasNone(b, ',');
    OrderFreeExchanges(r, Split(b, ','));
    Permuted(r, map[], Split(a, ','), Split(b, ','));
  }

  lemma SplitTwo(x: string, y: string, c: char)
    requires c !in x && c !in y
    ensures Split(x + [c] + y, c) == [x, y]
  {
    SplitFirst(x, c, y);
    SplitOne(y, c);
  }

  /** Two parts of which only one may come first. */
  lemma OneWayRound(r: Reading, x: string, y: string)
    requires ',' !in x && ',' !in y && Right(r, x) && Right(r, y) && Clear(r, x, y) && !Clear(r, y, x)
    ensures Parse(r, x + [','] + y).Ok? && Parse(r, y + [','] + x).Failure?
    ensures multiset(Split(x + [','] + y, ',')) == multiset(Split(y + [','] + x, ','))
  {
    SplitTwo(x, y, ',');
    SplitTwo(y, x, ',');
    TwoParse(r, x, y);
    TwoParse(r, y, x);
    assert multiset([x, y]) == multiset([y, x]);
  }

  lemma TwoParse(r: Reading, x: string, y: string)
    requires Right(r, x) && Right(r, y)
    ensures ParseParts(r, map[], [x, y]).Ok? <==> Clear(r, x, y)
  {
    TwoParts(r, map[], x, y, []);
    assert [x, y] + [] == [x, y];
  }

  /** A part under an alias. */
  lemma AliasPart(r: Reading, name: string) returns (part: string)
    requires Usable(r, name)
    ensures ',' !in part && Right(r, part) && Name(part) == {name} && KeysSet(r, part) == Targets(r, name)
  {
    part := name + ['='] + "1";
    IndexOfIn(name, '=', "1");
    assert part[|name|] == '=' && !IsSpace('=');
    assert part[..|name|] == name && part[|name| + 1..] == "1";
    AliasMeans(r, map[], name, "1");
  }

  /** A format that is not order-free has two parts that go one way round only. */
  lemma OrderMatters(r: Reading) returns (x: string, y: string)
    requires !OrderFree(r)
    ensures ',' !in x && ',' !in y && Parse(r, x + [','] + y).Ok? && Parse(r, y + [','] + x).Failure?
    ensures multiset(Split(x + [','] + y, ',')) == multiset(Split(y + [','] + x, ','))
  {
    var w :| w in Listed(r) && Usable(r, w) && w !in Targets(r, w)
             && (r.defaultKey == Some(w)
                 || exists v :: v in Listed(r) && Usable(r, v) && w in Targets(r, v)
                                && Targets(r, v) !! Targets(r, w) && v !in Targets(r, w));
    x := AliasPart(r, w);
    if r.defaultKey == Some(w) {
      y := "1";
      assert !IsSpace("1"[0]) && IndexOf("1", '=') == 1;
    } else {
      var v :| Usable(r, v) && w in Targets(r, v) && Targets(r, v) !! Targets(r, w) && v !in Targets(r, w);
      y := AliasPart(r, v);
    }
    OneWayRound(r, x, y);
  }

  /**
   * Strings with the same parts are accepted or rejected alike and give the
   * same bag, whatever their order, exactly when the format is order-free.
   */
  lemma OrderDoesNotMatterIff(r: Reading)
    ensures (forall a, b :: multiset(Split(a, ',')) == multiset(Split(b, ',')) ==> SameResult(Parse(r, a), Parse(r, b)))
            <==> OrderFree(r)
  {
    if OrderFree(r) {
      forall a, b | multiset(Split(a, ',')) == multiset(Split(b, ','))
        ensures SameResult(Parse(r, a), Parse(r, b))
      {
        OrderDoesNotMatter(r, a, b);
      }
    } else {
      var x, y := OrderMatters(r);
      assert !SameResult(Parse(r, x + [','] + y), Parse(r, y + [','] + x));
    }
  }

  /** `a` is an alias of `b`, which is an alias of `c`. */
  predicate Chained(r: Reading) {
    && IsAlias(r.format, "a") && EntryOf(r.format, "a").value.alias == Some("b")
    && EntryOf(r.format, "a").value.keyAlias == None
    && IsAlias(r.format, "b") && EntryOf(r.format, "b").value.alias == Some("c")
    && EntryOf(r.format, "b").value.keyAlias == None
    && EntryOf(r.format, "c").Some?
  }

  function ChainedFormat(): Format {
    var plain := Entry(Text, None, true, false, false, None, None);
    Format(["a", "b", "c"],
           map["a" := plain.(alias := Some("b")), "b" := plain.(alias := Some("c")), "c" := plain])
  }

  lemma ChainedExists()
    ensures Chained(Reading(Some(ChainedFormat()), None, true))
  {
    assert "a" != "b" && "b" != "c" && "a" != "c" by {
      assert "a"[0] != "b"[0] && "b"[0] != "c"[0] && "a"[0] != "c"[0];
    }
  }

  /** With an alias of an alias, order does matter: `a=1` and `b=2` go one way round only. */
  lemma ChainedAliasesDependOnOrder() returns (r: Reading, x: string, y: string)
    ensures x == "b=2" && y == "a=1" && ',' !in x && ',' !in y
    ensures Parse(r, x + [','] + y).Ok? && Parse(r, y + [','] + x).Failure?
  {
    r := Reading(Some(ChainedFormat()), None, true);
    ChainedExists();
    x, y := "b=2", "a=1";
    ReadA();
    ReadB();
    AliasMeans(r, map[], "a", "1");
    AliasMeans(r, map[], "b", "2");
    OneWayRound(r, x, y);
  }

  lemma ReadA()
    ensures !IsBlank("a=1") && IndexOf("a=1", '=') == 1 && "a=1"[..1] == "a" && "a=1"[1 + 1..] == "1"
  {
    IndexOfIn("a", '=', "1");
    assert "a=1" == "a" + ['='] + "1";
    assert "a=1"[0] == 'a' && !IsSpace('a');
  }

  lemma ReadB()
    ensures !IsBlank("b=2") && IndexOf("b=2", '=') == 1 && "b=2"[..1] == "b" && "b=2"[1 + 1..] == "2"
  {
    IndexOfIn("b", '=', "2");
    assert "b=2" == "b" + ['='] + "2";
    assert "b=2"[0] == 'b' && !IsSpace('b');
  }
}
