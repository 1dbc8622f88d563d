/** Which sub-keys the parts of a property string are written from, and when each is written once. */
module PropParts {
  import opened Options
  import opened Strings
  import opened Props
  import opened PropRoundTrip

  /** What a part is written from: one entry of the bag, or an entry and its partner. */
  datatype Portion =
    | Own(key: string, value: Scalar)
    | Pair(key: string, value: Scalar, partner: string, partnerValue: Scalar)

  function KeysOf(p: Portion): set<string> {
    match p
    case Own(key, _) => {key}
    case Pair(key, _, partner, _) => {key, partner}
  }

  function PartText(s: Style, p: Portion): string {
    match p
    case Own(key, value) =>
      var text := WireText(value, WritingEntry(s.format, key));
      if s.defaultKey == Some(key) then text else key + "=" + text
    case Pair(key, value, partner, partnerValue) =>
      WireText(value, EntryIn(s, key)) + "=" + WireText(partnerValue, EntryIn(s, partner))
  }

  function Texts(s: Style, portions: seq<Portion>): seq<string> {
    if portions == [] then [] else [PartText(s, portions[0])] + Texts(s, portions[1..])
  }

  /** Whether reaching `key` writes a part. */
  predicate Writes(bag: Bag, done: set<string>, key: string) {
    key !in done && key in bag
  }

  function PortionOf(s: Style, bag: Bag, key: string): Portion
    requires key in bag
  {
    if Paired(s, bag, key) then Pair(key, bag[key], s.pairs[key], bag[s.pairs[key]]) else Own(key, bag[key])
  }

  /** The sub-keys dealt with once `key` has been reached. */
  function Marked(s: Style, bag: Bag, done: set<string>, key: string): set<string> {
    if Writes(bag, done, key) then done + KeysOf(PortionOf(s, bag, key)) else done + {key}
  }

  function Portions(s: Style, bag: Bag, done: set<string>, keys: seq<string>): seq<Portion>
    decreases |keys|
  {
    if keys == [] then []
    else
      var rest := Portions(s, bag, Marked(s, bag, done, keys[0]), keys[1..]);
      if Writes(bag, done, keys[0]) then [PortionOf(s, bag, keys[0])] + rest else rest
  }

  lemma AddKeyWrites(s: Style, bag: Bag, w: Written, key: string)
    requires AddKey(s, bag, w, key).Ok?
    ensures var next := AddKey(s, bag, w, key).value;
            && next.done == Marked(s, bag, w.done, key)
            && next.parts == if Writes(bag, w.done, key)
                             then w.parts + [PartText(s, PortionOf(s, bag, key))] else w.parts
  {
    assert key in w.done ==> w.done + {key} == w.done;
  }

  lemma Regroup(front: seq<string>, part: string, back: seq<string>)
    ensures (front + [part]) + back == front + ([part] + back)
  {
  }

  /** The parts added are the texts of the portions. */
  lemma {:induction false} AddKeysWrite(s: Style, bag: Bag, w: Written, keys: seq<string>, portions: seq<Portion>)
    requires AddKeys(s, bag, w, keys).Ok? && portions == Portions(s, bag, w.done, keys)
    ensures AddKeys(s, bag, w, keys).value.parts == w.parts + Texts(s, portions)
    decreases |keys|
  {
    if keys == [] {
      assert w.parts + [] == w.parts;
    } else {
      AddKeyWrites(s, bag, w, keys[0]);
      var next := AddKey(s, bag, w, keys[0]).value;
      if Writes(bag, w.done, keys[0]) {
        AddKeysWrite(s, bag, next, keys[1..], portions[1..]);
        Regroup(w.parts, PartText(s, portions[0]), Texts(s, portions[1..]));
      } else {
        AddKeysWrite(s, bag, next, keys[1..], portions);
      }
    }
  }

  // --- Each sub-key once ---

  /** A sub-key is not paired with itself. */
  predicate Sound(p: Portion) {
    p.Pair? ==> p.key != p.partner
  }

  /** No sub-key is in two parts, or twice in one. */
  predicate Once(portions: seq<Portion>) {
    && (forall i :: 0 <= i < |portions| ==> Sound(portions[i]))
    && forall i, j :: 0 <= i < j < |portions| ==> KeysOf(portions[i]) !! KeysOf(portions[j])
  }

  predicate Avoids(portions: seq<Portion>, done: set<string>) {
    forall i :: 0 <= i < |portions| ==> KeysOf(portions[i]) !! done
  }

  /** No pair is reached after its partner has been dealt with. */
  predicate PartnersWait(s: Style, bag: Bag, done: set<string>, keys: seq<string>)
    decreases |keys|
  {
    keys == []
    || ((Writes(bag, done, keys[0]) && Paired(s, bag, keys[0]) ==> s.pairs[keys[0]] !in done + {keys[0]})
        && PartnersWait(s, bag, Marked(s, bag, done, keys[0]), keys[1..]))
  }

  lemma PushFront(first: Portion, rest: seq<Portion>, done: set<string>)
    ensures Once([first] + rest) && Avoids([first] + rest, done)
            <==> Sound(first) && KeysOf(first) !! done && Once(rest) && Avoids(rest, done + KeysOf(first))
  {
    var all := [first] + rest;
    assert forall i :: 0 <= i < |rest| ==> rest[i] == all[i + 1];
    assert forall i :: 1 <= i < |all| ==> all[i] == rest[i - 1];
    assert all[0] == first;
  }

  lemma {:induction false} PortionsIn(s: Style, bag: Bag, done: set<string>, keys: seq<string>, portions: seq<Portion>)
    requires portions == Portions(s, bag, done, keys)
    ensures forall i :: 0 <= i < |portions| ==> KeysOf(portions[i]) <= bag.Keys
    decreases |keys|
  {
    if keys != [] {
      var more := Marked(s, bag, done, keys[0]);
      PortionsIn(s, bag, more, keys[1..], Portions(s, bag, more, keys[1..]));
    }
  }

  lemma {:induction false} OnceIff(s: Style, bag: Bag, done: set<string>, keys: seq<string>)
    ensures Once(Portions(s, bag, done, keys)) && Avoids(Portions(s, bag, done, keys), done)
            <==> PartnersWait(s, bag, done, keys)
    decreases |keys|
  {
    if keys != [] {
      var more := Marked(s, bag, done, keys[0]);
      var rest := Portions(s, bag, more, keys[1..]);
      OnceIff(s, bag, more, keys[1..]);
      if Writes(bag, done, keys[0]) {
        PushFront(PortionOf(s, bag, keys[0]), rest, done);
      } else {
        PortionsIn(s, bag, more, keys[1..], rest);
        assert Avoids(rest, done) <==> Avoids(rest, more);
      }
    }
  }

  predicate Covers(portions: seq<Portion>, k: string) {
    exists i :: 0 <= i < |portions| && k in KeysOf(portions[i])
  }

  lemma {:induction false} AllWritten(s: Style, bag: Bag, done: set<string>, keys: seq<string>, k: string)
    requires k in bag && k in keys && k !in done
    ensures Covers(Portions(s, bag, done, keys), k)
    decreases |keys|
  {
    var more := Marked(s, bag, done, keys[0]);
    var rest, all := Portions(s, bag, more, keys[1..]), Portions(s, bag, done, keys);
    if k !in more {
      AllWritten(s, bag, more, keys[1..], k);
      var i :| 0 <= i < |rest| && k in KeysOf(rest[i]);
      assert Writes(bag, done, keys[0]) ==> all[i + 1] == rest[i];
    } else {
      assert k in KeysOf(all[0]);
    }
  }

  /** What the parts of a bag's text are written from. */
  function PortionsOf(s: Style, bag: Bag, order: seq<string>): seq<Portion> {
    Portions(s, bag, {}, Visits(s, order))
  }

  /**
   * Every sub-key of the bag is written, and none of them twice exactly when
   * no pair is reached after its partner has been written.
   */
  lemma WrittenOnceIff(s: Style, bag: Bag, order: seq<string>)
    requires Orders(order, bag) && Write(s, bag, order).Ok?
    ensures Write(s, bag, order) == Ok(Join(Texts(s, PortionsOf(s, bag, order)), ','))
    ensures forall k :: k in bag ==> Covers(PortionsOf(s, bag, order), k)
    ensures Once(PortionsOf(s, bag, order)) <==> PartnersWait(s, bag, {}, Visits(s, order))
  {
    var visits, portions := Visits(s, order), PortionsOf(s, bag, order);
    AddKeysWrite(s, bag, Written({}, []), visits, portions);
    assert [] + Texts(s, portions) == Texts(s, portions);
    OnceIff(s, bag, {}, visits);
    VisitsAll(s, order);
    forall k | k in bag
      ensures Covers(portions, k)
    {
      AllWritten(s, bag, {}, visits, k);
    }
  }

  // --- A sub-key written twice ---

  /** `a` is the default key, and `c` an alias of it whose name is kept under `b`. */
  function BackwardFormat(): Format {
    var plain := Entry(Text, None, true, false, false, None, None);
    Format(["a", "b", "c"],
           map["a" := plain.(isDefault := true), "b" := plain,
               "c" := plain.(alias := Some("a"), keyAlias := Some("b"))])
  }

  lemma Letters()
    ensures "a" != "b" && "b" != "c" && "a" != "c"
  {
    assert "a"[0] != "b"[0] && "b"[0] != "c"[0] && "a"[0] != "c"[0];
  }

  lemma BackwardStyle()
    ensures BackwardFormat().Valid()
    ensures StyleOf(BackwardFormat(), true) == Ok(Style(BackwardFormat(), Some("a"), map["b" := "a"], true))
  {
    Letters();
    var f := BackwardFormat();
    assert DefaultAmong(f, 0) == Ok(None) && DefaultAmong(f, 1) == Ok(Some("a"));
    assert DefaultAmong(f, 2) == Ok(Some("a")) && DefaultAmong(f, 3) == Ok(Some("a"));
    assert PairsAmong(f, 0) == map[] && PairsAmong(f, 1) == map[] && PairsAmong(f, 2) == map[];
    assert PairsAmong(f, 3) == map["b" := "a"];
  }

  /** A pair whose partner is the default key: the partner is written bare and again in the pair. */
  lemma PartnerWrittenTwice() returns (s: Style, bag: Bag, order: seq<string>)
    ensures s.format.Valid() && StyleOf(s.format, true) == Ok(s)
    ensures bag == map["a" := Str("1"), "b" := Str("2")] && Orders(order, bag)
    ensures Write(s, bag, order) == Ok("1,2=1")
  {
    Letters();
    BackwardStyle();
    s := Style(BackwardFormat(), Some("a"), map["b" := "a"], true);
    bag, order := map["a" := Str("1"), "b" := Str("2")], ["a", "b"];
    BackwardText(s, bag, order);
  }

  lemma BackwardVisits(s: Style)
    requires s == Style(BackwardFormat(), Some("a"), map["b" := "a"], true)
    ensures Visits(s, ["a", "b"]) == ["a", "a", "b"]
  {
    Letters();
    assert Sorted(["b"]) == ["b"] && !Before("b", "a");
    assert Sorted(["a", "b"]) == ["a", "b"];
    assert RequiredOf(s.format, ["b"]) == [] && RequiredOf(s.format, ["a", "b"]) == [];
  }

  lemma BackwardPair(s: Style, bag: Bag)
    requires s == Style(BackwardFormat(), Some("a"), map["b" := "a"], true)
    requires bag == map["a" := Str("1"), "b" := Str("2")]
    ensures AddKey(s, bag, Written({"a"}, ["1"]), "b") == Ok(Written({"a", "b"}, ["1", "2=1"]))
  {
    Letters();
    assert {"a"} + {"b", "a"} == {"a", "b"};
    assert "2" + "=" + "1" == "2=1" && ["1"] + ["2=1"] == ["1", "2=1"];
    assert bag["a"] == Str("1") && bag["b"] == Str("2");
  }

  lemma BackwardText(s: Style, bag: Bag, order: seq<string>)
    requires s == Style(BackwardFormat(), Some("a"), map["b" := "a"], true)
    requires bag == map["a" := Str("1"), "b" := Str("2")] && order == ["a", "b"]
    ensures Write(s, bag, order) == Ok("1,2=1")
  {
    Letters();
    BackwardVisits(s);
    BackwardPair(s, bag);
    var w1, w2 := Written({"a"}, ["1"]), Written({"a", "b"}, ["1", "2=1"]);
    assert {} + {"a"} == {"a"} && [] + ["1"] == ["1"];
    assert AddKey(s, bag, Written({}, []), "a") == Ok(w1);
    assert AddKeys(s, bag, w1, ["b"]) == Ok(w2);
    assert ["a", "b"][1..] == ["b"] && ["a", "a", "b"][1..] == ["a", "b"];
    assert AddKeys(s, bag, w1, ["a", "b"]) == Ok(w2);
    assert Join(["1", "2=1"], ',') == "1" + [','] + "2=1" == "1,2=1";
  }
}
