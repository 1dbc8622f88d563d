/** Property strings: `key=value,key=value` text to a bag of sub-keys and back. */
module Props {
  import opened Options
  import opened Strings
  import opened Values
  import Sizes

  datatype Scalar = Str(text: string) | Num(number: Number) | Flag(on: bool)

  type Bag = map<string, Scalar>

  datatype Kind = Text | Boolean | Integer | Decimal

  /** One sub-key as the node registered it. */
  datatype Entry = Entry(
    kind: Kind,
    choices: Option<seq<string>>,
    optional: bool,
    isSize: bool,
    isDefault: bool,
    alias: Option<string>,
    keyAlias: Option<string>)

  /** The sub-keys of a format, in the order they are listed. */
  datatype Format = Format(keys: seq<string>, entries: map<string, Entry>) {
    ghost predicate Valid() {
      && (forall k :: k in keys <==> k in entries)
      && forall i, j :: 0 <= i < j < |keys| ==> keys[i] != keys[j]
    }
  }

  datatype Problem =
    | TwoDefaults(first: string, second: string)
    | NoDefault
    | DuplicateDefault(key: string)
    | MalformedPart(part: string)
    | DuplicateKey(key: string)
    | KeyAliasSet(key: string)
    | AliasSet(key: string)
    | UnknownKey(key: string)
    | CommaInValue(key: string)
    | NotAChoice(key: string)
    | MissingKey(key: string)

  datatype Result<+T> = Ok(value: T) | Failure(problem: Problem)

  // --- Values ---

  /** Text read at the type its entry declares, or kept as text. */
  function Coerce(raw: string, entry: Option<Entry>): Scalar {
    if entry.None? then Str(raw)
    else
      match entry.value.kind
      case Text => Str(raw)
      case Boolean =>
        (match ParseBoolean(raw)
         case Some(b) => Flag(b)
         case None => Str(raw))
      case Integer =>
        (match ParseInteger(raw)
         case Some(n) => Num(n)
         case None => Str(raw))
      case Decimal =>
        match ParseNumber(raw)
        case Some(n) => Num(n)
        case None => Str(raw)
  }

  /** The whole part, towards zero. */
  function Truncated(n: Number): int {
    if n.negative then -(n.whole as int) else n.whole
  }

  function WireText(value: Scalar, entry: Option<Entry>): string {
    match value
    case Flag(b) => if b then "1" else "0"
    case Num(n) => if entry.Some? && entry.value.isSize then Sizes.SizeText(Truncated(n)) else PrintNumber(n)
    case Str(s) => s
  }

  function Stringify(key: string, value: Scalar, entry: Option<Entry>): Result<string> {
    var text := WireText(value, entry);
    if ',' in text then Failure(CommaInValue(key)) else Ok(text)
  }

  function EntryOf(format: Option<Format>, key: string): Option<Entry> {
    if format.Some? && key in format.value.entries then Some(format.value.entries[key]) else None
  }

  // --- The default key ---

  /** The default key among the first `n` keys of a format. */
  function DefaultAmong(format: Format, n: nat): Result<Option<string>>
    requires n <= |format.keys| && forall k :: k in format.keys ==> k in format.entries
  {
    if n == 0 then Ok(None)
    else
      var before, key := DefaultAmong(format, n - 1), format.keys[n - 1];
      if before.Failure? || !format.entries[key].isDefault then before
      else if before.value.Some? then Failure(TwoDefaults(before.value.value, key))
      else Ok(Some(key))
  }

  /** The sub-key a bare value belongs to. */
  function DefaultKey(format: Option<Format>): Result<Option<string>>
    requires format.Some? ==> forall k :: k in format.value.keys ==> k in format.value.entries
  {
    if format.None? then Ok(None) else DefaultAmong(format.value, |format.value.keys|)
  }

  method DefaultKeyOf(format: Format) returns (r: Result<Option<string>>)
    requires format.Valid()
    ensures r == DefaultKey(Some(format))
  {
    var found: Option<string> := None;
    var i := 0;
    while i < |format.keys|
      invariant 0 <= i <= |format.keys| && DefaultAmong(format, i) == Ok(found)
    {
      var key := format.keys[i];
      if format.entries[key].isDefault {
        if found.Some? {
          DefaultFails(format, i + 1);
          return Failure(TwoDefaults(found.value, key));
        }
        found := Some(key);
      }
      i := i + 1;
    }
    r := Ok(found);
  }

  lemma {:induction false} DefaultFails(format: Format, n: nat)
    requires format.Valid() && n <= |format.keys| && DefaultAmong(format, n).Failure?
    ensures DefaultAmong(format, |format.keys|) == DefaultAmong(format, n)
    decreases |format.keys| - n
  {
    if n < |format.keys| {
      DefaultFails(format, n + 1);
    }
  }

  predicate IsDefault(format: Format, key: string) {
    key in format.entries && format.entries[key].isDefault
  }

  /** What the keys seen so far say: no default, one, or the first two. */
  ghost predicate DefaultsSeen(format: Format, n: nat, found: Result<Option<string>>)
    requires n <= |format.keys|
  {
    match found
    case Ok(None) => forall i :: 0 <= i < n ==> !IsDefault(format, format.keys[i])
    case Ok(Some(k)) =>
      IsDefault(format, k) && forall i :: 0 <= i < n && IsDefault(format, format.keys[i]) ==> format.keys[i] == k
    case Failure(p) =>
      p.TwoDefaults? && p.first != p.second && IsDefault(format, p.first) && IsDefault(format, p.second)
  }

  lemma {:induction false} DefaultAmongSees(format: Format, n: nat)
    requires format.Valid() && n <= |format.keys|
    ensures DefaultsSeen(format, n, DefaultAmong(format, n))
    ensures DefaultAmong(format, n).Ok? && DefaultAmong(format, n).value.Some? ==>
              exists i :: 0 <= i < n && format.keys[i] == DefaultAmong(format, n).value.value
  {
    if n != 0 {
      DefaultAmongSees(format, n - 1);
    }
  }

  /**
   * A sub-key is the default key exactly when it alone is marked as one;
   * there is none exactly when none is marked, and an error, naming two that
   * are, exactly when more than one is.
   */
  lemma DefaultKeyIff(format: Format)
    requires format.Valid()
    ensures forall k :: DefaultKey(Some(format)) == Ok(Some(k))
                        <==> IsDefault(format, k) && forall j :: IsDefault(format, j) ==> j == k
    ensures DefaultKey(Some(format)) == Ok(None) <==> forall k :: !IsDefault(format, k)
    ensures DefaultKey(Some(format)).Failure? <==> exists j, k :: IsDefault(format, j) && IsDefault(format, k) && j != k
    ensures DefaultKey(Some(format)).Failure? ==>
              var p := DefaultKey(Some(format)).problem;
              p.TwoDefaults? && p.first != p.second && IsDefault(format, p.first) && IsDefault(format, p.second)
  {
    DefaultAmongSees(format, |format.keys|);
    assert forall k :: IsDefault(format, k) ==> exists i :: 0 <= i < |format.keys| && format.keys[i] == k;
  }

  // --- Parsing ---

  /** A format with its default key and whether unknown sub-keys are rejected. */
  datatype Reading = Reading(format: Option<Format>, defaultKey: Option<string>, strict: bool)

  /** A part `key=raw` read into the bag. */
  function ParsePair(r: Reading, bag: Bag, written: string, raw: string): Result<Bag> {
    if written in bag then Failure(DuplicateKey(written))
    else
      var entry := EntryOf(r.format, written);
      if entry.Some? && entry.value.alias.Some? then
        var target := entry.value.alias.value;
        if entry.value.keyAlias.Some? && entry.value.keyAlias.value in bag then
          Failure(KeyAliasSet(entry.value.keyAlias.value))
        else
          var named := if entry.value.keyAlias.Some? then bag[entry.value.keyAlias.value := Str(written)] else bag;
          if target in named then Failure(AliasSet(target)) else Store(r, named, target, raw)
      else Store(r, bag, written, raw)
  }

  function Store(r: Reading, bag: Bag, key: string, raw: string): Result<Bag> {
    var entry := EntryOf(r.format, key);
    if r.format.Some? && entry.None? && r.strict then Failure(UnknownKey(key))
    else Ok(bag[key := Coerce(raw, entry)])
  }

  function ParsePart(r: Reading, bag: Bag, part: string): Result<Bag> {
    if IsBlank(part) then Ok(bag)
    else
      var eq := IndexOf(part, '=');
      if eq == |part| then
        if r.defaultKey.None? then Failure(NoDefault)
        else if r.defaultKey.value in bag then Failure(DuplicateDefault(r.defaultKey.value))
        else Ok(bag[r.defaultKey.value := Coerce(part, EntryOf(r.format, r.defaultKey.value))])
      else if eq == 0 || eq == |part| - 1 then Failure(MalformedPart(part))
      else ParsePair(r, bag, part[..eq], part[eq + 1..])
  }

  function ParseParts(r: Reading, bag: Bag, parts: seq<string>): Result<Bag>
    decreases |parts|
  {
    if parts == [] then Ok(bag)
    else
      match ParsePart(r, bag, parts[0])
      case Failure(p) => Failure(p)
      case Ok(next) => ParseParts(r, next, parts[1..])
  }

  function Parse(r: Reading, input: string): Result<Bag> {
    ParseParts(r, map[], Split(input, ','))
  }

  method ParsePropertyString(input: string, format: Option<Format>, strictKeys: bool, validate: bool)
    returns (result: Result<Bag>)
    requires format.Some? ==> format.value.Valid()
    ensures match DefaultKey(format)
            case Failure(p) => result == Failure(p)
            case Ok(d) =>
              var parsed := Parse(Reading(format, d, strictKeys), input);
              result == if parsed.Ok? && format.Some? && validate then Validated(format.value, parsed.value) else parsed
  {
    var d: Option<string> := None;
    if format.Some? {
      var found := DefaultKeyOf(format.value);
      if found.Failure? { return Failure(found.problem); }
      d := found.value;
    }
    var r := Reading(format, d, strictKeys);
    var parts := Split(input, ',');
    var bag: Bag := map[];
    var i := 0;
    assert parts[0..] == parts;
    while i < |parts|
      invariant 0 <= i <= |parts| && ParseParts(r, map[], parts) == ParseParts(r, bag, parts[i..])
    {
      assert parts[i..][1..] == parts[i + 1..];
      var next := ParsePart(r, bag, parts[i]);
      if next.Failure? { return next; }
      bag := next.value;
      i := i + 1;
    }
    result := Ok(bag);
    if format.Some? && validate {
      result := ValidateBag(format.value, bag);
    }
  }

  // --- Validation ---

  predicate ChoiceKept(format: Format, bag: Bag, key: string) {
    key in bag && key in format.entries && format.entries[key].choices.Some? ==>
      WireText(bag[key], Some(format.entries[key])) in format.entries[key].choices.value
  }

  predicate RequiredKept(format: Format, bag: Bag, key: string) {
    key in format.entries && format.entries[key].alias.None? && !format.entries[key].optional ==> key in bag
  }

  function BadChoice(format: Format, bag: Bag, keys: seq<string>): Option<string> {
    if keys == [] then None else if !ChoiceKept(format, bag, keys[0]) then Some(keys[0])
    else BadChoice(format, bag, keys[1..])
  }

  function Missing(format: Format, bag: Bag, keys: seq<string>): Option<string> {
    if keys == [] then None else if !RequiredKept(format, bag, keys[0]) then Some(keys[0])
    else Missing(format, bag, keys[1..])
  }

  /** Enum membership first, then required sub-keys. */
  function Validated(format: Format, bag: Bag): Result<Bag> {
    var bad, missing := BadChoice(format, bag, format.keys), Missing(format, bag, format.keys);
    if bad.Some? then Failure(NotAChoice(bad.value))
    else if missing.Some? then Failure(MissingKey(missing.value))
    else Ok(bag)
  }

  method ValidateBag(format: Format, bag: Bag) returns (r: Result<Bag>)
    ensures r == Validated(format, bag)
  {
    assert format.keys[0..] == format.keys;
    var i := 0;
    while i < |format.keys|
      invariant 0 <= i <= |format.keys|
      invariant BadChoice(format, bag, format.keys) == BadChoice(format, bag, format.keys[i..])
    {
      assert format.keys[i..][1..] == format.keys[i + 1..];
      if !ChoiceKept(format, bag, format.keys[i]) { return Failure(NotAChoice(format.keys[i])); }
      i := i + 1;
    }
    i := 0;
    while i < |format.keys|
      invariant 0 <= i <= |format.keys|
      invariant Missing(format, bag, format.keys) == Missing(format, bag, format.keys[i..])
    {
      assert format.keys[i..][1..] == format.keys[i + 1..];
      if !RequiredKept(format, bag, format.keys[i]) { return Failure(MissingKey(format.keys[i])); }
      i := i + 1;
    }
    r := Ok(bag);
  }

  /** A bag passes exactly when every value of an enum is one of its choices and every required sub-key is there. */
  lemma ValidatedIff(format: Format, bag: Bag)
    requires format.Valid()
    ensures Validated(format, bag).Ok? <==>
              forall k :: k in format.entries ==> ChoiceKept(format, bag, k) && RequiredKept(format, bag, k)
  {
    BadChoiceIff(format, bag, format.keys);
    MissingIff(format, bag, format.keys);
  }

  lemma {:induction false} BadChoiceIff(format: Format, bag: Bag, keys: seq<string>)
    ensures BadChoice(format, bag, keys).None? <==> forall k :: k in keys ==> ChoiceKept(format, bag, k)
  {
    if keys != [] {
      BadChoiceIff(format, bag, keys[1..]);
    }
  }

  lemma {:induction false} MissingIff(format: Format, bag: Bag, keys: seq<string>)
    ensures Missing(format, bag, keys).None? <==> forall k :: k in keys ==> RequiredKept(format, bag, k)
  {
    if keys != [] {
      MissingIff(format, bag, keys[1..]);
    }
  }

  // --- Sorted keys ---

  /** Character by character, a prefix first. */
  predicate Before(a: string, b: string) {
    if b == "" then false
    else if a == "" then true
    else a[0] < b[0] || (a[0] == b[0] && Before(a[1..], b[1..]))
  }

  function Insert(key: string, keys: seq<string>): (out: seq<string>)
    ensures forall k :: k in out <==> k == key || k in keys
  {
    if keys == [] then [key]
    else if Before(keys[0], key) then [keys[0]] + Insert(key, keys[1..])
    else [key] + keys
  }

  function Sorted(keys: seq<string>): (out: seq<string>)
    ensures forall k :: k in out <==> k in keys
  {
    if keys == [] then [] else Insert(keys[0], Sorted(keys[1..]))
  }

  /** The keys a format lists as required, in the order given. */
  function RequiredOf(format: Format, keys: seq<string>): (out: seq<string>)
    ensures forall k :: k in out ==> k in keys
  {
    if keys == [] then []
    else
      (if keys[0] in format.entries && !format.entries[keys[0]].optional then [keys[0]] else [])
      + RequiredOf(format, keys[1..])
  }

  // --- Writing ---

  /** Which sub-key each key alias pairs with; a later entry replaces an earlier one. */
  function PairsAmong(format: Format, n: nat): map<string, string>
    requires n <= |format.keys| && forall k :: k in format.keys ==> k in format.entries
  {
    if n == 0 then map[]
    else
      var e := format.entries[format.keys[n - 1]];
      if e.keyAlias.Some? && e.alias.Some? then PairsAmong(format, n - 1)[e.keyAlias.value := e.alias.value]
      else PairsAmong(format, n - 1)
  }

  /** A format with its default key, its key-alias pairs and whether unknown sub-keys are rejected. */
  datatype Style = Style(format: Format, defaultKey: Option<string>, pairs: map<string, string>, strict: bool)

  datatype Written = Written(done: set<string>, parts: seq<string>)

  /** The entry a sub-key's value is written by. */
  function WritingEntry(format: Format, key: string): Option<Entry> {
    var entry := EntryOf(Some(format), key);
    if entry.Some? && entry.value.alias.Some? then EntryOf(Some(format), entry.value.alias.value) else entry
  }

  function AddPair(s: Style, bag: Bag, w: Written, key: string, partner: string): Result<Written>
    requires key in bag && partner in bag
  {
    match Stringify(key, bag[key], EntryOf(Some(s.format), key))
    case Failure(p) => Failure(p)
    case Ok(left) =>
      match Stringify(partner, bag[partner], EntryOf(Some(s.format), partner))
      case Failure(p) => Failure(p)
      case Ok(right) => Ok(Written(w.done + {key, partner}, w.parts + [left + "=" + right]))
  }

  function AddPlain(s: Style, bag: Bag, w: Written, key: string): Result<Written>
    requires key in bag
  {
    var entry := WritingEntry(s.format, key);
    if entry.None? && s.strict then Failure(UnknownKey(key))
    else
      match Stringify(key, bag[key], entry)
      case Failure(p) => Failure(p)
      case Ok(text) =>
        Ok(Written(w.done + {key}, w.parts + [if s.defaultKey == Some(key) then text else key + "=" + text]))
  }

  function AddKey(s: Style, bag: Bag, w: Written, key: string): Result<Written> {
    if key in w.done then Ok(w)
    else if key !in bag then Ok(w.(done := w.done + {key}))
    else if key in s.pairs && s.pairs[key] in bag then AddPair(s, bag, w, key, s.pairs[key])
    else AddPlain(s, bag, w, key)
  }

  function AddKeys(s: Style, bag: Bag, w: Written, keys: seq<string>): Result<Written>
    decreases |keys|
  {
    if keys == [] then Ok(w)
    else
      match AddKey(s, bag, w, keys[0])
      case Failure(p) => Failure(p)
      case Ok(next) => AddKeys(s, bag, next, keys[1..])
  }

  /** The default key first, then required sub-keys, then the rest, each group sorted. */
  function Visits(s: Style, order: seq<string>): seq<string> {
    (if s.defaultKey.Some? then [s.defaultKey.value] else [])
    + RequiredOf(s.format, Sorted(order)) + Sorted(order)
  }

  /** The text of a bag whose keys stand in `order`. */
  function Write(s: Style, bag: Bag, order: seq<string>): Result<string> {
    match AddKeys(s, bag, Written({}, []), Visits(s, order))
    case Failure(p) => Failure(p)
    case Ok(w) => Ok(Join(w.parts, ','))
  }

  /** Without a format, every entry by its name and in its order. */
  function PlainParts(bag: Bag, order: seq<string>): Result<seq<string>>
    requires forall k :: k in order ==> k in bag
  {
    if order == [] then Ok([])
    else
      match Stringify(order[0], bag[order[0]], None)
      case Failure(p) => Failure(p)
      case Ok(text) =>
        match PlainParts(bag, order[1..])
        case Failure(p) => Failure(p)
        case Ok(rest) => Ok([order[0] + "=" + text] + rest)
  }

  /** `order` lists the keys of a bag as an object keeps them. */
  ghost predicate Orders(order: seq<string>, bag: Bag) {
    && (forall k :: k in order <==> k in bag)
    && forall i, j :: 0 <= i < j < |order| ==> order[i] != order[j]
  }

  method AddAll(s: Style, bag: Bag, w: Written, keys: seq<string>) returns (r: Result<Written>)
    ensures r == AddKeys(s, bag, w, keys)
  {
    var now, i := w, 0;
    assert keys[0..] == keys;
    while i < |keys|
      invariant 0 <= i <= |keys| && AddKeys(s, bag, w, keys) == AddKeys(s, bag, now, keys[i..])
    {
      assert keys[i..][1..] == keys[i + 1..];
      var next := AddKey(s, bag, now, keys[i]);
      if next.Failure? { return next; }
      now := next.value;
      i := i + 1;
    }
    r := Ok(now);
  }

  lemma {:induction false} AddKeysAppend(s: Style, bag: Bag, w: Written, a: seq<string>, b: seq<string>)
    ensures AddKeys(s, bag, w, a + b)
            == (match AddKeys(s, bag, w, a)
                case Failure(p) => Failure(p)
                case Ok(next) => AddKeys(s, bag, next, b))
    decreases |a|
  {
    if a == [] {
      assert a + b == b;
    } else {
      assert (a + b)[1..] == a[1..] + b;
      var next := AddKey(s, bag, w, a[0]);
      if next.Ok? {
        AddKeysAppend(s, bag, next.value, a[1..], b);
      }
    }
  }

  method FormatWith(s: Style, bag: Bag, order: seq<string>) returns (r: Result<string>)
    ensures r == Write(s, bag, order)
  {
    var sorted := Sorted(order);
    var first := if s.defaultKey.Some? then [s.defaultKey.value] else [];
    var required := RequiredOf(s.format, sorted);
    AddKeysAppend(s, bag, Written({}, []), first + required, sorted);
    AddKeysAppend(s, bag, Written({}, []), first, required);
    var w := AddAll(s, bag, Written({}, []), first);
    if w.Failure? { return Failure(w.problem); }
    w := AddAll(s, bag, w.value, required);
    if w.Failure? { return Failure(w.problem); }
    w := AddAll(s, bag, w.value, sorted);
    if w.Failure? { return Failure(w.problem); }
    r := Ok(Join(w.value.parts, ','));
  }

  method PairsOf(format: Format) returns (pairs: map<string, string>)
    requires format.Valid()
    ensures pairs == PairsAmong(format, |format.keys|)
  {
    pairs := map[];
    var i := 0;
    while i < |format.keys|
      invariant 0 <= i <= |format.keys| && pairs == PairsAmong(format, i)
    {
      var e := format.entries[format.keys[i]];
      if e.keyAlias.Some? && e.alias.Some? {
        pairs := pairs[e.keyAlias.value := e.alias.value];
      }
      i := i + 1;
    }
  }

  /** The style a format is written in, or the problem with its default keys. */
  function StyleOf(format: Format, strict: bool): Result<Style>
    requires forall k :: k in format.keys ==> k in format.entries
  {
    match DefaultKey(Some(format))
    case Failure(p) => Failure(p)
    case Ok(d) => Ok(Style(format, d, PairsAmong(format, |format.keys|), strict))
  }

  function WritePlain(bag: Bag, order: seq<string>): Result<string>
    requires forall k :: k in order ==> k in bag
  {
    match PlainParts(bag, order)
    case Failure(p) => Failure(p)
    case Ok(parts) => Ok(Join(parts, ','))
  }

  function WriteIn(format: Format, bag: Bag, order: seq<string>, strict: bool): Result<string>
    requires forall k :: k in format.keys ==> k in format.entries
  {
    match StyleOf(format, strict)
    case Failure(p) => Failure(p)
    case Ok(s) => Write(s, bag, order)
  }

  method FormatPropertyString(bag: Bag, order: seq<string>, format: Option<Format>, strictKeys: bool, validate: bool)
    returns (r: Result<string>)
    requires Orders(order, bag) && (format.Some? ==> format.value.Valid())
    ensures format.None? ==> r == WritePlain(bag, order)
    ensures format.Some? && validate && Validated(format.value, bag).Failure? ==>
              r == Failure(Validated(format.value, bag).problem)
    ensures format.Some? && (validate ==> Validated(format.value, bag).Ok?) ==>
              r == WriteIn(format.value, bag, order, strictKeys)
  {
    if format.None? {
      var parts := PlainParts(bag, order);
      return if parts.Failure? then Failure(parts.problem) else Ok(Join(parts.value, ','));
    }
    if validate {
      var checked := ValidateBag(format.value, bag);
      if checked.Failure? { return Failure(checked.problem); }
    }
    var d := DefaultKeyOf(format.value);
    if d.Failure? { return Failure(d.problem); }
    var pairs := PairsOf(format.value);
    r := FormatWith(Style(format.value, d.value, pairs, strictKeys), bag, order);
  }
}
