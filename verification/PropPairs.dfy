/** Exactly which formats write every sub-key of every bag once. */
module PropPairs {
  import opened Options
  import opened Props
  import opened PropOrder
  import opened PropRoundTrip
  import opened PropText
  import opened PropParts

  predicate IsRequired(s: Style, k: string) {
    k in s.format.entries && !s.format.entries[k].optional
  }

  /** Whether `k` is reached before `p`: the default key first, required sub-keys, then the rest, each group sorted. */
  predicate Reaches(s: Style, k: string, p: string) {
    && s.defaultKey != Some(p)
    && (s.defaultKey == Some(k) || (IsRequired(s, k) && !IsRequired(s, p))
        || (IsRequired(s, k) == IsRequired(s, p) && Before(k, p)))
  }

  /**
   * No sub-key is its own partner, no two share one, and each is reached
   * before its partner unless the two are partners of each other.
   */
  predicate PairsApart(s: Style) {
    && (forall k :: k in s.pairs ==>
          && s.pairs[k] != k
          && (Reaches(s, k, s.pairs[k]) || (s.pairs[k] in s.pairs && s.pairs[s.pairs[k]] == k)))
    && forall k, l :: k in s.pairs && l in s.pairs && s.pairs[k] == s.pairs[l] ==> k == l
  }

  // --- The order of visits ---

  /** Nothing in the bag still to come should have come before what comes now. */
  ghost predicate InTurn(s: Style, bag: Bag, seen: set<string>, keys: seq<string>)
    decreases |keys|
  {
    keys == []
    || ((keys[0] !in seen ==> forall k :: k in bag && k !in seen ==> !Reaches(s, k, keys[0]))
        && InTurn(s, bag, seen + {keys[0]}, keys[1..]))
  }

  function SetOf(keys: seq<string>): set<string> {
    set k | k in keys
  }

  lemma {:induction false} InTurnAppend(s: Style, bag: Bag, seen: set<string>, a: seq<string>, b: seq<string>)
    requires InTurn(s, bag, seen, a) && InTurn(s, bag, seen + SetOf(a), b)
    ensures InTurn(s, bag, seen, a + b)
    decreases |a|
  {
    if a == [] {
      assert a + b == b && seen + SetOf(a) == seen;
    } else {
      assert (a + b)[1..] == a[1..] + b;
      assert a == [a[0]] + a[1..];
      assert seen + SetOf(a) == seen + {a[0]} + SetOf(a[1..]);
      InTurnAppend(s, bag, seen + {a[0]}, a[1..], b);
    }
  }

  /** An ascending group is in turn if whatever should come before a member of it has been, or is an earlier member. */
  lemma {:induction false} GroupInTurn(s: Style, bag: Bag, seen: set<string>, keys: seq<string>)
    requires Ascending(keys)
    requires forall k, x :: k in bag && k !in seen && x in keys && x !in seen && Reaches(s, k, x) ==>
               k in keys && Before(k, x)
    ensures InTurn(s, bag, seen, keys)
    decreases |keys|
  {
    if keys != [] {
      var x, rest := keys[0], keys[1..];
      forall k | k in bag && k !in seen && x !in seen
        ensures !Reaches(s, k, x)
      {
        if Reaches(s, k, x) {
          FirstIsLeast(keys, k);
          BeforeTotal(k, x);
        }
      }
      RestOf(keys);
      GroupInTurn(s, bag, seen + {x}, rest);
    }
  }

  lemma {:induction false} RequiredAscends(format: Format, keys: seq<string>)
    requires Ascending(keys)
    ensures Ascending(RequiredOf(format, keys))
    ensures forall k :: k in RequiredOf(format, keys)
                        <==> k in keys && k in format.entries && !format.entries[k].optional
  {
    if keys != [] {
      RestOf(keys);
      RequiredAscends(format, keys[1..]);
      var rest := RequiredOf(format, keys[1..]);
      forall k | k in rest
        ensures Before(keys[0], k)
      {
        FirstIsLeast(keys, k);
      }
      assert keys[0] in format.entries && !format.entries[keys[0]].optional ==>
          RequiredOf(format, keys) == [keys[0]] + rest;
    }
  }

  ghost predicate DefaultSeen(s: Style, seen: set<string>) {
    s.defaultKey.Some? ==> s.defaultKey.value in seen
  }

  lemma RequiredInTurn(s: Style, bag: Bag, seen: set<string>, all: seq<string>)
    requires Ascending(all) && (forall k :: k in bag ==> k in all) && DefaultSeen(s, seen)
    ensures InTurn(s, bag, seen, RequiredOf(s.format, all))
  {
    RequiredAscends(s.format, all);
    GroupInTurn(s, bag, seen, RequiredOf(s.format, all));
  }

  lemma RestInTurn(s: Style, bag: Bag, seen: set<string>, all: seq<string>)
    requires Ascending(all) && (forall k :: k in bag ==> k in all) && DefaultSeen(s, seen)
    requires forall k :: k in all && IsRequired(s, k) ==> k in seen
    ensures InTurn(s, bag, seen, all)
  {
    GroupInTurn(s, bag, seen, all);
  }

  lemma DefaultInTurn(s: Style, bag: Bag, first: seq<string>)
    requires first == if s.defaultKey.Some? then [s.defaultKey.value] else []
    ensures InTurn(s, bag, {}, first) && DefaultSeen(s, SetOf(first))
  {
  }

  /** Visits go in turn. */
  lemma VisitsInTurn(s: Style, bag: Bag, order: seq<string>)
    requires Orders(order, bag)
    ensures InTurn(s, bag, {}, Visits(s, order))
  {
    var first := if s.defaultKey.Some? then [s.defaultKey.value] else [];
    var all := Sorted(order);
    var required := RequiredOf(s.format, all);
    SortedAscends(order);
    DefaultInTurn(s, bag, first);
    RequiredInTurn(s, bag, {} + SetOf(first), all);
    InTurnAppend(s, bag, {}, first, required);
    RequiredAscends(s.format, all);
    RestInTurn(s, bag, {} + SetOf(first + required), all);
    InTurnAppend(s, bag, {}, first + required, all);
  }

  // --- Pairs kept apart are written once ---

  /** No pair still to be written has its partner done. */
  ghost predicate Trail(s: Style, bag: Bag, done: set<string>) {
    forall k :: k in bag && k !in done && Paired(s, bag, k) ==> s.pairs[k] !in done
  }

  lemma TrailKept(s: Style, bag: Bag, seen: set<string>, done: set<string>, key: string)
    requires PairsApart(s) && Trail(s, bag, done) && seen <= done
    requires key !in seen ==> forall k :: k in bag && k !in seen ==> !Reaches(s, k, key)
    ensures Trail(s, bag, Marked(s, bag, done, key))
  {
  }

  lemma {:induction false} ApartWait(s: Style, bag: Bag, seen: set<string>, done: set<string>, keys: seq<string>)
    requires PairsApart(s) && Trail(s, bag, done) && seen <= done && InTurn(s, bag, seen, keys)
    ensures PartnersWait(s, bag, done, keys)
    decreases |keys|
  {
    if keys != [] {
      TrailKept(s, bag, seen, done, keys[0]);
      ApartWait(s, bag, seen + {keys[0]}, Marked(s, bag, done, keys[0]), keys[1..]);
    }
  }

  lemma ApartWritesOnce(s: Style, bag: Bag, order: seq<string>)
    requires PairsApart(s) && Orders(order, bag)
    ensures Once(PortionsOf(s, bag, order))
  {
    VisitsInTurn(s, bag, order);
    ApartWait(s, bag, {}, {}, Visits(s, order));
    OnceIff(s, bag, {}, Visits(s, order));
  }

  /** A fixed format keeps its pairs apart, and so writes each sub-key of a bag in exactly one part. */
  lemma FixedWritesOnce(s: Style, bag: Bag, order: seq<string>)
    requires Fixed(s) && Orders(order, bag)
    ensures PairsApart(s) && Once(PortionsOf(s, bag, order))
    ensures Write(s, bag, order).Ok? ==> forall k :: k in bag ==> Covers(PortionsOf(s, bag, order), k)
  {
    forall k | k in s.pairs
      ensures s.defaultKey == Some(k) && s.pairs[k] != k
    {
      PairsOfFixed(s, k);
    }
    ApartWritesOnce(s, bag, order);
    if Write(s, bag, order).Ok? {
      WrittenOnceIff(s, bag, order);
    }
  }

  // --- Pairs that are not kept apart ---

  /** Every alias target is declared, or undeclared sub-keys are written all the same. */
  ghost predicate TargetsDeclared(s: Style) {
    s.strict ==> forall k :: IsAlias(Some(s.format), k) ==> EntryIn(s, EntryIn(s, k).value.alias.value).Some?
  }

  ghost predicate Styled(s: Style) {
    s.format.Valid() && StyleOf(s.format, s.strict) == Ok(s) && TargetsDeclared(s)
  }

  lemma {:induction false} PartnersAreTargets(format: Format, n: nat, k: string)
    requires format.Valid() && n <= |format.keys| && k in PairsAmong(format, n)
    ensures exists x :: IsAlias(Some(format), x) && format.entries[x].alias == Some(PairsAmong(format, n)[k])
  {
    var key := format.keys[n - 1];
    var e := format.entries[key];
    if e.keyAlias == Some(k) && e.alias.Some? {
      assert IsAlias(Some(format), key);
    } else {
      PartnersAreTargets(format, n - 1, k);
    }
  }

  /** A partner can be written by itself. */
  lemma PartnerWrites(s: Style, k: string)
    requires Styled(s) && k in s.pairs
    ensures s.strict ==> WritingEntry(s.format, s.pairs[k]).Some?
  {
    PartnersAreTargets(s.format, |s.format.keys|, k);
    var x :| IsAlias(Some(s.format), x) && s.format.entries[x].alias == Some(s.pairs[k]);
  }

  /** Values without commas, and no sub-key that cannot be written. */
  predicate Plain(s: Style, bag: Bag) {
    forall k :: k in bag ==>
      bag[k] == Str("1") && (Paired(s, bag, k) || !s.strict || WritingEntry(s.format, k).Some?)
  }

  lemma {:induction false} PlainWrites(s: Style, bag: Bag, w: Written, keys: seq<string>)
    requires Plain(s, bag)
    ensures AddKeys(s, bag, w, keys).Ok?
    decreases |keys|
  {
    if keys != [] {
      assert ',' !in "1";
      PlainWrites(s, bag, AddKey(s, bag, w, keys[0]).value, keys[1..]);
    }
  }

  lemma {:induction false} PortionsAre(s: Style, bag: Bag, done: set<string>, keys: seq<string>, portions: seq<Portion>)
    requires portions == Portions(s, bag, done, keys)
    ensures forall i :: 0 <= i < |portions| ==>
              portions[i].key in bag && portions[i] == PortionOf(s, bag, portions[i].key)
    decreases |keys|
  {
    if keys != [] {
      var more := Marked(s, bag, done, keys[0]);
      PortionsAre(s, bag, more, keys[1..], Portions(s, bag, more, keys[1..]));
    }
  }

  /** A plain bag is written, whole, from portions that start at its sub-keys. */
  lemma PlainPortions(s: Style, bag: Bag, order: seq<string>)
    requires Orders(order, bag) && Plain(s, bag)
    ensures Write(s, bag, order).Ok? && forall k :: k in bag ==> Covers(PortionsOf(s, bag, order), k)
    ensures var ps := PortionsOf(s, bag, order);
            forall i :: 0 <= i < |ps| ==> ps[i].key in bag && ps[i] == PortionOf(s, bag, ps[i].key)
  {
    PlainWrites(s, bag, Written({}, []), Visits(s, order));
    WrittenOnceIff(s, bag, order);
    PortionsAre(s, bag, {}, Visits(s, order), PortionsOf(s, bag, order));
  }

  /** Two portions that share a sub-key. */
  lemma Meet(portions: seq<Portion>, i: nat, j: nat, k: string)
    requires i < |portions| && j < |portions| && i != j && k in KeysOf(portions[i]) && k in KeysOf(portions[j])
    ensures !Once(portions)
  {
    var a, b := if i < j then i else j, if i < j then j else i;
    assert !(KeysOf(portions[a]) !! KeysOf(portions[b]));
  }

  lemma SelfMeets(s: Style, k: string) returns (bag: Bag, order: seq<string>)
    requires k in s.pairs && s.pairs[k] == k
    ensures Orders(order, bag) && Write(s, bag, order).Ok? && !Once(PortionsOf(s, bag, order))
  {
    bag, order := map[k := Str("1")], [k];
    PlainPortions(s, bag, order);
    var ps := PortionsOf(s, bag, order);
    assert Covers(ps, k);
  }

  /** In a bag of two sub-keys and the partner they share, the partner is in the portions of both. */
  lemma SharedPortions(s: Style, bag: Bag, portions: seq<Portion>, k: string, l: string, p: string)
    requires Paired(s, bag, k) && Paired(s, bag, l) && s.pairs[k] == p == s.pairs[l] && k != l && p != k && p != l
    requires bag.Keys == {k, l, p} && Covers(portions, k) && Covers(portions, l)
    requires forall i :: 0 <= i < |portions| ==>
               portions[i].key in bag && portions[i] == PortionOf(s, bag, portions[i].key)
    ensures !Once(portions)
  {
    var i :| 0 <= i < |portions| && k in KeysOf(portions[i]);
    var j :| 0 <= j < |portions| && l in KeysOf(portions[j]);
    assert portions[i].key == k || portions[i].key == p;
    assert portions[j].key == l || portions[j].key == p;
    Meet(portions, i, j, p);
  }

  /** Two sub-keys that share a partner. */
  lemma SharedMeets(s: Style, k: string, l: string) returns (bag: Bag, order: seq<string>)
    requires Styled(s) && k in s.pairs && l in s.pairs && k != l
    requires s.pairs[k] == s.pairs[l] && s.pairs[k] != k && s.pairs[k] != l
    ensures Orders(order, bag) && Write(s, bag, order).Ok? && !Once(PortionsOf(s, bag, order))
  {
    var p, one := s.pairs[k], Str("1");
    bag, order := map[k := one, l := one, p := one], [k, l, p];
    PartnerWrites(s, k);
    PlainPortions(s, bag, order);
    SharedPortions(s, bag, PortionsOf(s, bag, order), k, l, p);
  }

  /** The first sub-key of the bag to be reached is `p`. */
  predicate Leads(bag: Bag, keys: seq<string>, p: string)
    decreases |keys|
  {
    keys != [] && if keys[0] in bag then keys[0] == p else Leads(bag, keys[1..], p)
  }

  lemma {:induction false} FirstPortion(s: Style, bag: Bag, done: set<string>, keys: seq<string>, p: string)
    requires Leads(bag, keys, p) && p in bag && p !in done
    ensures Portions(s, bag, done, keys) != [] && Portions(s, bag, done, keys)[0] == PortionOf(s, bag, p)
    decreases |keys|
  {
    if keys[0] !in bag {
      FirstPortion(s, bag, Marked(s, bag, done, keys[0]), keys[1..], p);
    }
  }

  lemma TwoSorted(a: string, b: string)
    ensures Sorted([a, b]) == if Before(b, a) then [b, a] else [a, b]
  {
    assert [a, b][1..] == [b] && [b][1..] == [];
    assert Sorted([b]) == [b];
    assert Insert(a, [b]) == if Before(b, a) then [b] + [a] else [a] + [b];
  }

  lemma TwoRequired(s: Style, a: string, b: string)
    ensures RequiredOf(s.format, [a, b])
            == (if IsRequired(s, a) then [a] else []) + (if IsRequired(s, b) then [b] else [])
  {
    assert [a, b][1..] == [b] && [b][1..] == [];
    assert RequiredOf(s.format, [b]) == if IsRequired(s, b) then [b] else [];
  }

  lemma {:induction false} LeadsPast(bag: Bag, a: seq<string>, b: seq<string>, p: string)
    ensures Leads(bag, a, p) ==> Leads(bag, a + b, p)
    ensures (forall k :: k in a ==> k !in bag) && Leads(bag, b, p) ==> Leads(bag, a + b, p)
    decreases |a|
  {
    if a == [] {
      assert a + b == b;
    } else {
      assert (a + b)[1..] == a[1..] + b;
      LeadsPast(bag, a[1..], b, p);
    }
  }

  /** Of two sub-keys other than the default key, the one that must not wait is reached first. */
  lemma GroupLeads(s: Style, bag: Bag, k: string, p: string)
    requires bag.Keys == {k, p} && k != p && !Reaches(s, k, p) && s.defaultKey != Some(p)
    ensures Leads(bag, RequiredOf(s.format, Sorted([k, p])) + Sorted([k, p]), p)
  {
    var all := if Before(p, k) then [p, k] else [k, p];
    BeforeTotal(k, p);
    TwoSorted(k, p);
    TwoRequired(s, all[0], all[1]);
    assert IsRequired(s, k) == IsRequired(s, p) ==> all[0] == p;
    LeadsPast(bag, RequiredOf(s.format, all), all, p);
  }

  lemma PartnerLeads(s: Style, bag: Bag, k: string, p: string)
    requires bag.Keys == {k, p} && k != p && !Reaches(s, k, p)
    ensures Leads(bag, Visits(s, [k, p]), p)
  {
    var first := if s.defaultKey.Some? then [s.defaultKey.value] else [];
    var group := RequiredOf(s.format, Sorted([k, p])) + Sorted([k, p]);
    if s.defaultKey != Some(p) {
      GroupLeads(s, bag, k, p);
    }
    LeadsPast(bag, first, group, p);
    assert first + group == Visits(s, [k, p]);
  }

  /** The sub-key reached late is written with its partner, which was written by itself. */
  lemma LatePortions(s: Style, bag: Bag, portions: seq<Portion>, k: string, p: string)
    requires Paired(s, bag, k) && s.pairs[k] == p != k && !Paired(s, bag, p) && bag.Keys == {k, p}
    requires portions != [] && portions[0] == PortionOf(s, bag, p) && Covers(portions, k)
    requires forall i :: 0 <= i < |portions| ==>
               portions[i].key in bag && portions[i] == PortionOf(s, bag, portions[i].key)
    ensures !Once(portions)
  {
    var i :| 0 <= i < |portions| && k in KeysOf(portions[i]);
    assert portions[i].key == k;
    Meet(portions, 0, i, p);
  }

  /** A sub-key reached after its partner, which is not paired with it in turn. */
  lemma LateMeets(s: Style, k: string) returns (bag: Bag, order: seq<string>)
    requires Styled(s) && k in s.pairs && s.pairs[k] != k && !Reaches(s, k, s.pairs[k])
    requires s.pairs[k] in s.pairs ==> s.pairs[s.pairs[k]] != k && s.pairs[s.pairs[k]] != s.pairs[k]
    ensures Orders(order, bag) && Write(s, bag, order).Ok? && !Once(PortionsOf(s, bag, order))
  {
    var p, one := s.pairs[k], Str("1");
    bag, order := map[k := one, p := one], [k, p];
    PartnerWrites(s, k);
    PlainPortions(s, bag, order);
    PartnerLeads(s, bag, k, p);
    FirstPortion(s, bag, {}, Visits(s, order), p);
    LatePortions(s, bag, PortionsOf(s, bag, order), k, p);
  }

  /** Pairs that are not kept apart meet in some bag. */
  lemma PairsMeet(s: Style) returns (bag: Bag, order: seq<string>)
    requires Styled(s) && !PairsApart(s)
    ensures Orders(order, bag) && Write(s, bag, order).Ok? && !Once(PortionsOf(s, bag, order))
  {
    if k :| k in s.pairs && s.pairs[k] == k {
      bag, order := SelfMeets(s, k);
    } else if k, l :| k in s.pairs && l in s.pairs && s.pairs[k] == s.pairs[l] && k != l {
      bag, order := SharedMeets(s, k, l);
    } else {
      var k :| k in s.pairs && !Reaches(s, k, s.pairs[k]) && !(s.pairs[k] in s.pairs && s.pairs[s.pairs[k]] == k);
      bag, order := LateMeets(s, k);
    }
  }

  /** A format writes every sub-key of every bag once exactly when it keeps its pairs apart. */
  lemma AlwaysOnceIff(s: Style)
    requires Styled(s)
    ensures (forall bag, order :: Orders(order, bag) && Write(s, bag, order).Ok? ==> Once(PortionsOf(s, bag, order)))
            <==> PairsApart(s)
  {
    if PairsApart(s) {
      forall bag, order | Orders(order, bag)
        ensures Once(PortionsOf(s, bag, order))
      {
        ApartWritesOnce(s, bag, order);
      }
    } else {
      var bag, order := PairsMeet(s);
    }
  }
}
