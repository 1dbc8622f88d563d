/** Finding the registry entry whose path template a concrete path fits. */
module Endpoints {
  import opened Options
  import opened Numerals
  import opened Strings

  /** A registry entry: a method and a template whose `{name}` segments are variables. */
  datatype Entry = Entry(method_: string, path: string)

  // --- Paths ---

  function Segments(path: string): (segments: seq<string>)
    ensures |segments| >= 1
  {
    Split(path, '/')
  }

  /** The part of a path before its query. */
  function BeforeQuery(path: string): string {
    Split(path, '?')[0]
  }

  lemma NoQuery(path: string)
    requires '?' !in path
    ensures BeforeQuery(path) == path
  {
    SplitOne(path, '?');
  }

  /** What follows the first question mark is not part of the path. */
  lemma QueryIsCutOff(path: string, query: string)
    requires '?' !in path
    ensures BeforeQuery(path + "?" + query) == path
  {
    SplitFirst(path, '?', query);
    assert path + ['?'] + query == path + "?" + query;
  }

  /** Slashes separate segments and belong to none. */
  lemma SegmentsOf(first: string, rest: string)
    requires '/' !in first
    ensures Segments(first) == [first] && Segments(first + "/" + rest) == [first] + Segments(rest)
  {
    SplitOne(first, '/');
    SplitFirst(first, '/', rest);
    assert first + ['/'] + rest == first + "/" + rest;
  }

  // --- Fitting a template ---

  predicate IsVariable(part: string) {
    part != "" && part[0] == '{'
  }

  predicate SegmentsFit(template: seq<string>, segments: seq<string>) {
    && |template| == |segments|
    && forall i :: 0 <= i < |template| ==> IsVariable(template[i]) || template[i] == segments[i]
  }

  function Literals(template: seq<string>): (n: nat)
    ensures n <= |template|
  {
    if template == [] then 0
    else Literals(template[..|template| - 1]) + if IsVariable(template[|template| - 1]) then 0 else 1
  }

  /** The segments that do not open with a brace. */
  function LiteralPlaces(template: seq<string>): set<nat> {
    set i: nat | i < |template| && (template[i] == "" || template[i][0] != '{')
  }

  lemma {:induction false} LiteralsAre(template: seq<string>)
    ensures Literals(template) == |LiteralPlaces(template)|
  {
    if template == [] {
      assert LiteralPlaces(template) == {};
    } else {
      var n := |template| - 1;
      LiteralsAre(template[..n]);
      if IsVariable(template[n]) {
        assert LiteralPlaces(template) == LiteralPlaces(template[..n]);
      } else {
        assert LiteralPlaces(template) == LiteralPlaces(template[..n]) + {n};
      }
    }
  }

  predicate Fits(e: Entry, method_: string, segments: seq<string>) {
    e.method_ == method_ && SegmentsFit(Segments(e.path), segments)
  }

  /** The literals of the best entry so far; an entry of none still beats no entry. */
  function Score(best: Option<Entry>): int {
    if best.None? then -1 else Literals(Segments(best.value.path))
  }

  /** A plain scan: the entry that fits with the most literals, the first of them if several do. */
  function Scan(entries: seq<Entry>, method_: string, segments: seq<string>): Option<Entry> {
    if entries == [] then None
    else
      var best, last := Scan(entries[..|entries| - 1], method_, segments), entries[|entries| - 1];
      if Fits(last, method_, segments) && Literals(Segments(last.path)) > Score(best) then Some(last) else best
  }

  function Resolve(entries: seq<Entry>, method_: string, path: string): Option<Entry> {
    Scan(entries, method_, Segments(BeforeQuery(path)))
  }

  /** The entry at `k` fits, none that fits has more literals, and none before it has as many. */
  predicate IsBest(entries: seq<Entry>, method_: string, segments: seq<string>, k: nat)
    requires k < |entries|
  {
    var most := Literals(Segments(entries[k].path));
    && Fits(entries[k], method_, segments)
    && (forall j :: 0 <= j < |entries| && Fits(entries[j], method_, segments) ==>
          Literals(Segments(entries[j].path)) <= most)
    && (forall j :: 0 <= j < k && Fits(entries[j], method_, segments) ==> Literals(Segments(entries[j].path)) < most)
  }

  /** Nothing fits, or entry `k` is the best. */
  predicate Found(entries: seq<Entry>, method_: string, segments: seq<string>, best: Option<Entry>, k: nat) {
    match best
    case None => forall j :: 0 <= j < |entries| ==> !Fits(entries[j], method_, segments)
    case Some(e) => k < |entries| && e == entries[k] && IsBest(entries, method_, segments, k)
  }

  /** Every entry that fits scores no more than the best. */
  lemma NoneBetter(entries: seq<Entry>, method_: string, segments: seq<string>, best: Option<Entry>, k: nat, j: nat)
    requires Found(entries, method_, segments, best, k) && j < |entries| && Fits(entries[j], method_, segments)
    ensures Literals(Segments(entries[j].path)) <= Score(best)
  {
  }

  lemma FoundNew(entries: seq<Entry>, method_: string, segments: seq<string>, best: Option<Entry>, k: nat)
    requires entries != []
    requires var n := |entries| - 1;
             && Found(entries[..n], method_, segments, best, k) && Fits(entries[n], method_, segments)
             && Literals(Segments(entries[n].path)) > Score(best)
    ensures Found(entries, method_, segments, Some(entries[|entries| - 1]), |entries| - 1)
  {
    var n := |entries| - 1;
    forall j: nat | j < n && Fits(entries[j], method_, segments)
      ensures Literals(Segments(entries[j].path)) < Literals(Segments(entries[n].path))
    {
      assert entries[..n][j] == entries[j];
      NoneBetter(entries[..n], method_, segments, best, k, j);
    }
    LastIsBest(entries, method_, segments);
  }

  /** An entry that beats every fitting one before it is the best of all. */
  lemma LastIsBest(entries: seq<Entry>, method_: string, segments: seq<string>)
    requires entries != [] && Fits(entries[|entries| - 1], method_, segments)
    requires forall j: nat :: j < |entries| - 1 && Fits(entries[j], method_, segments) ==>
               Literals(Segments(entries[j].path)) < Literals(Segments(entries[|entries| - 1].path))
    ensures IsBest(entries, method_, segments, |entries| - 1)
  {
  }

  lemma FoundStill(entries: seq<Entry>, method_: string, segments: seq<string>, best: Option<Entry>, k: nat)
    requires entries != []
    requires var n := |entries| - 1;
             && Found(entries[..n], method_, segments, best, k)
             && !(Fits(entries[n], method_, segments) && Literals(Segments(entries[n].path)) > Score(best))
    ensures Found(entries, method_, segments, best, k)
  {
    var n := |entries| - 1;
    match best
    case None =>
      assert forall j :: 0 <= j < n ==> entries[j] == entries[..n][j];
    case Some(e) =>
      assert e == entries[k] && Fits(e, method_, segments);
      forall j: nat | j < |entries| && Fits(entries[j], method_, segments)
        ensures Literals(Segments(entries[j].path)) <= Literals(Segments(e.path))
        ensures j < k ==> Literals(Segments(entries[j].path)) < Literals(Segments(e.path))
      {
        if j < n {
          assert entries[..n][j] == entries[j];
        }
      }
  }

  /** The scan finds an entry exactly when one fits, and then it is the first most literal one. */
  lemma {:induction false} ScanFindsBest(entries: seq<Entry>, method_: string, segments: seq<string>) returns (k: nat)
    ensures Found(entries, method_, segments, Scan(entries, method_, segments), k)
  {
    k := 0;
    if entries != [] {
      var n := |entries| - 1;
      k := ScanFindsBest(entries[..n], method_, segments);
      var best := Scan(entries[..n], method_, segments);
      if Fits(entries[n], method_, segments) && Literals(Segments(entries[n].path)) > Score(best) {
        FoundNew(entries, method_, segments, best, k);
        k := n;
      } else {
        FoundStill(entries, method_, segments, best, k);
      }
    }
  }

  // --- The index ---

  /** Entries are grouped by method and segment count. */
  function Shape(method_: string, length: nat): string {
    method_ + " " + Decimal(length)
  }

  lemma ShapeInjective(m: string, i: nat, n: string, j: nat)
    requires Shape(m, i) == Shape(n, j)
    ensures m == n && i == j
  {
    LastSpace(m, Decimal(i));
    LastSpace(n, Decimal(j));
    ValueDecimal(i);
    ValueDecimal(j);
  }

  /** The text after the last space. */
  function AfterSpace(s: string): string {
    if s == "" || s[|s| - 1] == ' ' then "" else AfterSpace(s[..|s| - 1]) + [s[|s| - 1]]
  }

  lemma {:induction false} LastSpace(m: string, digits: string)
    requires AllDigits(digits)
    ensures AfterSpace(m + " " + digits) == digits
    ensures m == (m + " " + digits)[..|m + " " + digits| - |digits| - 1]
    decreases |digits|
  {
    var s := m + " " + digits;
    if digits != "" {
      var n := |digits| - 1;
      LastSpace(m, digits[..n]);
      assert s[..|s| - 1] == m + " " + digits[..n];
      assert s[|s| - 1] == digits[n] && IsDigit(digits[n]);
    } else {
      assert s[|s| - 1] == ' ';
    }
  }

  function ShapeOf(e: Entry): string {
    Shape(e.method_, |Segments(e.path)|)
  }

  /** The entries of one shape, in registry order. */
  function Bucket(entries: seq<Entry>, shape: string): seq<Entry> {
    if entries == [] then []
    else
      var last := entries[|entries| - 1];
      Bucket(entries[..|entries| - 1], shape) + if ShapeOf(last) == shape then [last] else []
  }

  type Index = map<string, seq<Entry>>

  function Lookup(groups: Index, shape: string): seq<Entry> {
    if shape in groups then groups[shape] else []
  }

  /** `groups` holds every bucket of the registry. */
  ghost predicate Indexes(groups: Index, entries: seq<Entry>) {
    forall shape :: Lookup(groups, shape) == Bucket(entries, shape)
  }

  lemma BucketPush(entries: seq<Entry>, e: Entry, shape: string)
    ensures Bucket(entries + [e], shape) == Bucket(entries, shape) + if ShapeOf(e) == shape then [e] else []
  {
    assert (entries + [e])[..|entries|] == entries;
  }

  method ByShape(entries: seq<Entry>) returns (groups: Index)
    ensures Indexes(groups, entries)
  {
    groups := map[];
    var i := 0;
    while i < |entries|
      invariant 0 <= i <= |entries|
      invariant Indexes(groups, entries[..i])
    {
      groups := AddToIndex(groups, entries[..i], entries[i]);
      assert entries[..i + 1] == entries[..i] + [entries[i]];
      i := i + 1;
    }
    assert entries[..i] == entries;
  }

  method AddToIndex(groups: Index, ghost entries: seq<Entry>, info: Entry) returns (more: Index)
    requires Indexes(groups, entries)
    ensures Indexes(more, entries + [info])
  {
    var shape := ShapeOf(info);
    assert Lookup(groups, shape) == Bucket(entries, shape);
    more := groups[shape := Lookup(groups, shape) + [info]];
    forall other
      ensures Lookup(more, other) == Bucket(entries + [info], other)
    {
      BucketPush(entries, info, other);
      assert Lookup(groups, other) == Bucket(entries, other);
    }
  }

  /** Scanning the bucket of a path's shape is scanning the registry. */
  lemma {:induction false} ScanBucket(entries: seq<Entry>, method_: string, segments: seq<string>)
    ensures Scan(Bucket(entries, Shape(method_, |segments|)), method_, segments) == Scan(entries, method_, segments)
  {
    if entries != [] {
      var shape := Shape(method_, |segments|);
      var front, last := entries[..|entries| - 1], entries[|entries| - 1];
      ScanBucket(front, method_, segments);
      if ShapeOf(last) == shape {
        var bucket := Bucket(front, shape);
        assert (bucket + [last])[..|bucket|] == bucket;
      } else {
        assert Bucket(front, shape) + [] == Bucket(front, shape);
        assert !Fits(last, method_, segments);
      }
    }
  }

  lemma {:induction false} BucketShape(entries: seq<Entry>, method_: string, length: nat)
    ensures forall e :: e in Bucket(entries, Shape(method_, length)) ==>
              e.method_ == method_ && |Segments(e.path)| == length
  {
    if entries != [] {
      var last := entries[|entries| - 1];
      BucketShape(entries[..|entries| - 1], method_, length);
      if ShapeOf(last) == Shape(method_, length) {
        ShapeInjective(last.method_, |Segments(last.path)|, method_, length);
      }
    }
  }

  /** Compares a template with a path segment by segment, up to the first that differs. */
  method Compare(template: seq<string>, segments: seq<string>) returns (matched: bool, literals: nat)
    requires |template| == |segments|
    ensures matched == SegmentsFit(template, segments)
    ensures matched ==> literals == Literals(template)
  {
    matched, literals := true, 0;
    var i := 0;
    while i < |template|
      invariant 0 <= i <= |template| && matched
      invariant forall j :: 0 <= j < i ==> IsVariable(template[j]) || template[j] == segments[j]
      invariant literals == Literals(template[..i])
    {
      assert template[..i + 1][..i] == template[..i];
      if !IsVariable(template[i]) {
        if template[i] != segments[i] {
          matched := false;
          break;
        }
        literals := literals + 1;
      }
      i := i + 1;
    }
    assert matched ==> template[..i] == template;
  }

  /** The entry for a method and a path, found through the index. */
  method ResolveEndpoint(groups: Index, ghost entries: seq<Entry>, method_: string, path: string)
    returns (best: Option<Entry>)
    requires Indexes(groups, entries)
    ensures best == Resolve(entries, method_, path)
  {
    var segments := Segments(BeforeQuery(path));
    var shape := Shape(method_, |segments|);
    var candidates := Lookup(groups, shape);
    assert candidates == Bucket(entries, shape);
    BucketShape(entries, method_, |segments|);
    ScanBucket(entries, method_, segments);
    best := ScanCandidates(candidates, method_, segments);
  }

  method ScanCandidates(candidates: seq<Entry>, method_: string, segments: seq<string>) returns (best: Option<Entry>)
    requires forall e :: e in candidates ==> e.method_ == method_ && |Segments(e.path)| == |segments|
    ensures best == Scan(candidates, method_, segments)
  {
    best := None;
    var bestLiterals: int := -1;
    var k := 0;
    while k < |candidates|
      invariant 0 <= k <= |candidates|
      invariant best == Scan(candidates[..k], method_, segments) && bestLiterals == Score(best)
    {
      var info := candidates[k];
      var matched, literals := Compare(Segments(info.path), segments);
      assert candidates[..k + 1][..k] == candidates[..k];
      if matched && literals > bestLiterals {
        best := Some(info);
        bestLiterals := literals;
      }
      k := k + 1;
    }
    assert candidates[..k] == candidates;
  }

  // --- Template paths resolve to themselves ---

  /** Alike but for the names of the variables. */
  predicate SameSkeleton(a: seq<string>, b: seq<string>) {
    && |a| == |b|
    && forall i :: 0 <= i < |a| ==>
         if IsVariable(a[i]) then IsVariable(b[i]) else a[i] == b[i]
  }

  predicate Alike(a: Entry, b: Entry) {
    a.method_ == b.method_ && SameSkeleton(Segments(a.path), Segments(b.path))
  }

  /** A template that fits another's path is no more literal, and as literal only if they are alike. */
  lemma {:induction false} FitsTemplate(f: seq<string>, e: seq<string>)
    requires SegmentsFit(f, e)
    ensures Literals(f) <= Literals(e)
    ensures Literals(f) == Literals(e) <==> SameSkeleton(f, e)
  {
    if f != [] {
      var n := |f| - 1;
      assert SegmentsFit(f[..n], e[..n]);
      FitsTemplate(f[..n], e[..n]);
      assert SameSkeleton(f, e) <==>
             SameSkeleton(f[..n], e[..n]) && (if IsVariable(f[n]) then IsVariable(e[n]) else f[n] == e[n]);
    }
  }

  /** A template path resolves to the first entry that is alike. */
  lemma ResolvesToFirstAlike(entries: seq<Entry>, k: nat) returns (first: nat)
    requires k < |entries| && '?' !in entries[k].path
    ensures first <= k && Alike(entries[first], entries[k])
    ensures forall j :: 0 <= j < first ==> !Alike(entries[j], entries[k])
    ensures Resolve(entries, entries[k].method_, entries[k].path) == Some(entries[first])
  {
    var e := entries[k];
    var segments := Segments(e.path);
    NoQuery(e.path);
    assert Fits(e, e.method_, segments);
    first := ScanFindsBest(entries, e.method_, segments);
    forall j | 0 <= j < |entries| && entries[j].method_ == e.method_
      ensures Alike(entries[j], e) <==>
                Fits(entries[j], e.method_, segments) && Literals(Segments(entries[j].path)) == Literals(segments)
    {
      var t := Segments(entries[j].path);
      if SegmentsFit(t, segments) {
        FitsTemplate(t, segments);
      }
    }
    FitsTemplate(Segments(entries[first].path), segments);
  }

  predicate Distinct(entries: seq<Entry>) {
    forall i, j :: 0 <= i < j < |entries| ==> entries[i] != entries[j]
  }

  /**
   * Every template path resolves to its own entry exactly when no two
   * templates of one method differ only in the names of their variables.
   */
  lemma TemplatesResolveThemselves(entries: seq<Entry>)
    requires Distinct(entries) && forall e :: e in entries ==> '?' !in e.path
    ensures (forall k :: 0 <= k < |entries| ==>
               Resolve(entries, entries[k].method_, entries[k].path) == Some(entries[k]))
            <==> (forall i, j :: 0 <= i < j < |entries| ==> !Alike(entries[i], entries[j]))
  {
    forall k | 0 <= k < |entries|
      ensures Resolve(entries, entries[k].method_, entries[k].path) == Some(entries[k])
              <==> forall i :: 0 <= i < k ==> !Alike(entries[i], entries[k])
    {
      var first := ResolvesToFirstAlike(entries, k);
    }
  }
}
