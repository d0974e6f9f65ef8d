/** The canonical order of facts-only project observations (pkg/codesignal/project_order.go,
    project_fact_order.go, project_path_step_order.go, location_compare.go, string_slice_order.go). */
module FactOrder {
  import opened Ordering

  datatype Location = Location(startRow: nat, startCol: nat, endRow: nat, endCol: nat, startByte: nat, endByte: nat)

  datatype ProjectLocation = ProjectLocation(path: string, location: Location)

  datatype PathStep = PathStep(nodeID: string, displayName: string, resolution: string, confidence: string,
                               sourceLocations: seq<ProjectLocation>)

  datatype Fact = Fact(kind: string, semanticKey: string, pathSteps: seq<PathStep>, coverageRefs: seq<string>,
                       evidence: string, producer: string, findingKind: string, language: string)

  /** The nested arrays of a project change. */
  datatype Nested = Nested(related: seq<ProjectLocation>, steps: seq<PathStep>, coverageRefs: seq<string>)

  // ----- comparisons -----

  function LocationParts(a: Location, b: Location): seq<int> {
    [CompareInt(a.startRow, b.startRow), CompareInt(a.startCol, b.startCol), CompareInt(a.endRow, b.endRow),
     CompareInt(a.endCol, b.endCol), CompareInt(a.startByte, b.startByte), CompareInt(a.endByte, b.endByte)]
  }

  function CompareLocations(a: ProjectLocation, b: ProjectLocation): int {
    Or([CompareText(a.path, b.path), Or(LocationParts(a.location, b.location))])
  }

  function StepParts(a: PathStep, b: PathStep): seq<int> {
    [CompareText(a.nodeID, b.nodeID), CompareText(a.displayName, b.displayName), CompareText(a.resolution, b.resolution),
     CompareText(a.confidence, b.confidence), LexCompare(CompareLocations, a.sourceLocations, b.sourceLocations)]
  }

  function CompareSteps(a: PathStep, b: PathStep): int {
    Or(StepParts(a, b))
  }

  /** Everything that is serialized except the language. */
  function FactParts(a: Fact, b: Fact): seq<int> {
    [CompareText(a.kind, b.kind), CompareText(a.semanticKey, b.semanticKey), CompareText(a.evidence, b.evidence),
     CompareText(a.producer, b.producer), CompareText(a.findingKind, b.findingKind),
     LexCompare(CompareText, a.coverageRefs, b.coverageRefs), LexCompare(CompareSteps, a.pathSteps, b.pathSteps)]
  }

  function CompareFacts(a: Fact, b: Fact): int {
    Or(FactParts(a, b))
  }

  /** comparePathStepSlices and compareStringSlices: the common length entry by entry, then the lengths. */
  method CompareSlices<T>(cmp: (T, T) -> int, a: seq<T>, b: seq<T>) returns (c: int)
    ensures c == LexCompare(cmp, a, b)
  {
    var n := if |b| < |a| then |b| else |a|;
    for i := 0 to n
      invariant LexCompare(cmp, a[i..], b[i..]) == LexCompare(cmp, a, b)
    {
      assert a[i..][1..] == a[i + 1..] && b[i..][1..] == b[i + 1..];
      var d := cmp(a[i], b[i]);
      if d != 0 { return d; }
    }
    return if |a| < |b| then -1 else if |a| > |b| then 1 else 0;
  }

  // ----- the comparisons are total orders -----

  lemma LocationLaws()
    ensures Lawful(CompareLocations) && Decisive(CompareLocations)
  {
    forall a, b ensures Mirrors(CompareLocations(a, b), CompareLocations(b, a)) {
      TextMirrors(a.path, b.path);
      OrMirrors(LocationParts(a.location, b.location), LocationParts(b.location, a.location));
      OrMirrors([CompareText(a.path, b.path), Or(LocationParts(a.location, b.location))],
                [CompareText(b.path, a.path), Or(LocationParts(b.location, a.location))]);
    }
    forall a, b, c ensures Chains(CompareLocations(a, b), CompareLocations(b, c), CompareLocations(a, c)) {
      LocationChains(a, b, c);
    }
    forall a, b ensures CompareLocations(a, b) == 0 <==> a == b { LocationDecides(a, b); }
  }

  lemma LocationPartChains(a: Location, b: Location, c: Location)
    ensures Chains(Or(LocationParts(a, b)), Or(LocationParts(b, c)), Or(LocationParts(a, c)))
  {
    var ab, bc, ac := LocationParts(a, b), LocationParts(b, c), LocationParts(a, c);
    forall i | 0 <= i < 6 ensures Chains(ab[i], bc[i], ac[i]) {}
    OrChains(ab, bc, ac);
  }

  lemma LocationChains(a: ProjectLocation, b: ProjectLocation, c: ProjectLocation)
    ensures Chains(CompareLocations(a, b), CompareLocations(b, c), CompareLocations(a, c))
  {
    TextChains(a.path, b.path, c.path);
    LocationPartChains(a.location, b.location, c.location);
    OrChains([CompareText(a.path, b.path), Or(LocationParts(a.location, b.location))],
             [CompareText(b.path, c.path), Or(LocationParts(b.location, c.location))],
             [CompareText(a.path, c.path), Or(LocationParts(a.location, c.location))]);
  }

  lemma LocationDecides(a: ProjectLocation, b: ProjectLocation)
    ensures CompareLocations(a, b) == 0 <==> a == b
  {
    TextDecides(a.path, b.path);
    var parts := LocationParts(a.location, b.location);
    OrZero(parts);
    OrZero([CompareText(a.path, b.path), Or(parts)]);
    if CompareLocations(a, b) == 0 {
      assert [CompareText(a.path, b.path), Or(parts)][0] == 0 && [CompareText(a.path, b.path), Or(parts)][1] == 0;
      assert parts[0] == 0 && parts[1] == 0 && parts[2] == 0 && parts[3] == 0 && parts[4] == 0 && parts[5] == 0;
    }
  }

  lemma StepLaws()
    ensures Lawful(CompareSteps) && Decisive(CompareSteps)
  {
    LocationLaws();
    forall a, b ensures Mirrors(CompareSteps(a, b), CompareSteps(b, a)) { StepMirrors(a, b); }
    forall a, b, c ensures Chains(CompareSteps(a, b), CompareSteps(b, c), CompareSteps(a, c)) { StepChains(a, b, c); }
    forall a, b ensures CompareSteps(a, b) == 0 <==> a == b { StepDecides(a, b); }
  }

  lemma StepMirrors(a: PathStep, b: PathStep)
    requires Lawful(CompareLocations)
    ensures Mirrors(CompareSteps(a, b), CompareSteps(b, a))
  {
    TextMirrors(a.nodeID, b.nodeID);
    TextMirrors(a.displayName, b.displayName);
    TextMirrors(a.resolution, b.resolution);
    TextMirrors(a.confidence, b.confidence);
    LexMirrors(CompareLocations, a.sourceLocations, b.sourceLocations);
    OrMirrors(StepParts(a, b), StepParts(b, a));
  }

  lemma StepChains(a: PathStep, b: PathStep, c: PathStep)
    requires Lawful(CompareLocations)
    ensures Chains(CompareSteps(a, b), CompareSteps(b, c), CompareSteps(a, c))
  {
    TextChains(a.nodeID, b.nodeID, c.nodeID);
    TextChains(a.displayName, b.displayName, c.displayName);
    TextChains(a.resolution, b.resolution, c.resolution);
    TextChains(a.confidence, b.confidence, c.confidence);
    LexChains(CompareLocations, a.sourceLocations, b.sourceLocations, c.sourceLocations);
    OrChains(StepParts(a, b), StepParts(b, c), StepParts(a, c));
  }

  lemma StepDecides(a: PathStep, b: PathStep)
    requires Decisive(CompareLocations)
    ensures CompareSteps(a, b) == 0 <==> a == b
  {
    TextDecides(a.nodeID, b.nodeID);
    TextDecides(a.displayName, b.displayName);
    TextDecides(a.resolution, b.resolution);
    TextDecides(a.confidence, b.confidence);
    LexDecides(CompareLocations, a.sourceLocations, b.sourceLocations);
    var parts := StepParts(a, b);
    OrZero(parts);
    if CompareSteps(a, b) == 0 {
      assert parts[0] == 0 && parts[1] == 0 && parts[2] == 0 && parts[3] == 0 && parts[4] == 0;
    }
  }

  /** The laws for the five text components, then for the two nested ones. */
  lemma TextPairLaws(x: string, y: string, z: string)
    ensures Mirrors(CompareText(x, y), CompareText(y, x))
    ensures Chains(CompareText(x, y), CompareText(y, z), CompareText(x, z))
  {
    TextMirrors(x, y);
    TextChains(x, y, z);
  }

  lemma TextPartLaws(a: Fact, b: Fact, c: Fact, i: nat)
    requires i < 5
    ensures Mirrors(FactParts(a, b)[i], FactParts(b, a)[i])
    ensures Chains(FactParts(a, b)[i], FactParts(b, c)[i], FactParts(a, c)[i])
  {
    match i
    case 0 => TextPairLaws(a.kind, b.kind, c.kind);
    case 1 => TextPairLaws(a.semanticKey, b.semanticKey, c.semanticKey);
    case 2 => TextPairLaws(a.evidence, b.evidence, c.evidence);
    case 3 => TextPairLaws(a.producer, b.producer, c.producer);
    case _ => TextPairLaws(a.findingKind, b.findingKind, c.findingKind);
  }

  lemma RefPartLaws(a: Fact, b: Fact, c: Fact)
    requires Lawful(CompareText)
    ensures Mirrors(FactParts(a, b)[5], FactParts(b, a)[5])
    ensures Chains(FactParts(a, b)[5], FactParts(b, c)[5], FactParts(a, c)[5])
  {
    LexMirrors(CompareText, a.coverageRefs, b.coverageRefs);
    LexChains(CompareText, a.coverageRefs, b.coverageRefs, c.coverageRefs);
  }

  lemma StepPartLaws(a: Fact, b: Fact, c: Fact)
    requires Lawful(CompareSteps)
    ensures Mirrors(FactParts(a, b)[6], FactParts(b, a)[6])
    ensures Chains(FactParts(a, b)[6], FactParts(b, c)[6], FactParts(a, c)[6])
  {
    LexMirrors(CompareSteps, a.pathSteps, b.pathSteps);
    LexChains(CompareSteps, a.pathSteps, b.pathSteps, c.pathSteps);
  }

  lemma FactMirrors(a: Fact, b: Fact)
    requires Lawful(CompareText) && Lawful(CompareSteps)
    ensures Mirrors(CompareFacts(a, b), CompareFacts(b, a))
  {
    var ab, ba := FactParts(a, b), FactParts(b, a);
    forall i | 0 <= i < 7 ensures Mirrors(ab[i], ba[i]) {
      if i < 5 { TextPartLaws(a, b, b, i); } else if i == 5 { RefPartLaws(a, b, b); } else { StepPartLaws(a, b, b); }
    }
    OrMirrors(ab, ba);
  }

  lemma FactChains(a: Fact, b: Fact, c: Fact)
    requires Lawful(CompareText) && Lawful(CompareSteps)
    ensures Chains(CompareFacts(a, b), CompareFacts(b, c), CompareFacts(a, c))
  {
    var ab, bc, ac := FactParts(a, b), FactParts(b, c), FactParts(a, c);
    forall i | 0 <= i < 7 ensures Chains(ab[i], bc[i], ac[i]) {
      if i < 5 { TextPartLaws(a, b, c, i); } else if i == 5 { RefPartLaws(a, b, c); } else { StepPartLaws(a, b, c); }
    }
    OrChains(ab, bc, ac);
  }

  /** Two facts tie exactly when they agree on everything but the language. */
  lemma FactDecides(a: Fact, b: Fact)
    requires Decisive(CompareText) && Decisive(CompareSteps)
    ensures CompareFacts(a, b) == 0 <==> a == b.(language := a.language)
  {
    TextDecides(a.kind, b.kind);
    TextDecides(a.semanticKey, b.semanticKey);
    TextDecides(a.evidence, b.evidence);
    TextDecides(a.producer, b.producer);
    TextDecides(a.findingKind, b.findingKind);
    LexDecides(CompareText, a.coverageRefs, b.coverageRefs);
    LexDecides(CompareSteps, a.pathSteps, b.pathSteps);
    var parts := FactParts(a, b);
    OrZero(parts);
    if CompareFacts(a, b) == 0 {
      assert parts[0] == 0 && parts[1] == 0 && parts[2] == 0 && parts[3] == 0 && parts[4] == 0 && parts[5] == 0 && parts[6] == 0;
    }
  }

  /** The comparison is a total preorder whose ties are exactly the facts that differ in nothing but their
      language. */
  lemma FactLaws()
    ensures Lawful(CompareFacts)
    ensures forall a, b :: CompareFacts(a, b) == 0 <==> a == b.(language := a.language)
  {
    TextLaws();
    StepLaws();
    forall a, b ensures Mirrors(CompareFacts(a, b), CompareFacts(b, a)) { FactMirrors(a, b); }
    forall a, b, c ensures Chains(CompareFacts(a, b), CompareFacts(b, c), CompareFacts(a, c)) { FactChains(a, b, c); }
    forall a, b ensures CompareFacts(a, b) == 0 <==> a == b.(language := a.language) { FactDecides(a, b); }
  }

  /** The texts of a fact in the order they are compared, before its lists are. */
  function Texts(f: Fact): seq<string> {
    [f.kind, f.semanticKey, f.evidence, f.producer, f.findingKind]
  }

  /** Smaller at the first place where the lists differ, which have one length. */
  predicate FirstLess(a: seq<string>, b: seq<string>) {
    |a| == |b| && exists n :: 0 <= n < |a| && TextLess(a[n], b[n]) && forall i | 0 <= i < n :: a[i] == b[i]
  }

  /** Sorted facts come by kind, semantic key, evidence, producer and finding kind. */
  lemma FactsAscend(facts: seq<Fact>, i: nat, j: nat)
    requires i < j < |SortedFacts(facts)|
    ensures FirstLess(Texts(SortedFacts(facts)[i]), Texts(SortedFacts(facts)[j])) || Texts(SortedFacts(facts)[i]) == Texts(SortedFacts(facts)[j])
  {
    FactLaws();
    StableSortAscending(CompareFacts, CanonicalFacts(facts));
    FactOrderMeans(SortedFacts(facts)[i], SortedFacts(facts)[j]);
  }

  lemma FactOrderMeans(a: Fact, b: Fact)
    requires CompareFacts(a, b) <= 0
    ensures FirstLess(Texts(a), Texts(b)) || Texts(a) == Texts(b)
  {
    var cs, s, t := FactParts(a, b), Texts(a), Texts(b);
    assert cs[0..] == cs;
    OrTail(cs, 0); OrTail(cs, 1); OrTail(cs, 2); OrTail(cs, 3); OrTail(cs, 4);
    forall k | 0 <= k < 5 ensures (cs[k] < 0 <==> TextLess(s[k], t[k])) && (cs[k] == 0 <==> s[k] == t[k]) {
      assert cs[k] == CompareText(s[k], t[k]);
      TextLessExactly(s[k], t[k]);
      TextDecides(s[k], t[k]);
    }
    if s != t {
      var n := if s[0] != t[0] then 0 else if s[1] != t[1] then 1 else if s[2] != t[2] then 2 else if s[3] != t[3] then 3 else 4;
      assert TextLess(s[n], t[n]) && forall i | 0 <= i < n :: s[i] == t[i];
    }
  }

  // ----- canonical arrays -----

  function CanonicalStep(s: PathStep): PathStep {
    s.(sourceLocations := StableSort(CompareLocations, s.sourceLocations))
  }

  function CanonicalSteps(steps: seq<PathStep>): (r: seq<PathStep>)
    ensures |r| == |steps| && forall i | 0 <= i < |steps| :: r[i] == CanonicalStep(steps[i])
  {
    seq(|steps|, i requires 0 <= i < |steps| => CanonicalStep(steps[i]))
  }

  function CanonicalFact(f: Fact): Fact {
    f.(pathSteps := CanonicalSteps(f.pathSteps), coverageRefs := StableSort(CompareText, f.coverageRefs))
  }

  function CanonicalFacts(facts: seq<Fact>): (r: seq<Fact>) {
    Map(CanonicalFact, facts)
  }

  function SortedFacts(facts: seq<Fact>): seq<Fact> {
    StableSort(CompareFacts, CanonicalFacts(facts))
  }

  method CanonicalPathSteps(steps: seq<PathStep>) returns (out: seq<PathStep>)
    ensures out == CanonicalSteps(steps)
  {
    out := steps;
    for i := 0 to |out|
      invariant |out| == |steps|
      invariant forall k | 0 <= k < |out| :: out[k] == if k < i then CanonicalStep(steps[k]) else steps[k]
    {
      out := out[i := out[i].(sourceLocations := StableSort(CompareLocations, out[i].sourceLocations))];
    }
  }

  method SortProjectFacts(facts: seq<Fact>) returns (out: seq<Fact>)
    ensures out == SortedFacts(facts)
  {
    out := [];
    for i := 0 to |facts|
      invariant out == CanonicalFacts(facts)[..i]
    {
      var f := facts[i];
      var steps := CanonicalPathSteps(f.pathSteps);
      out := out + [f.(pathSteps := steps, coverageRefs := StableSort(CompareText, f.coverageRefs))];
    }
    assert out == CanonicalFacts(facts);
    out := StableSort(CompareFacts, out);
  }

  // ----- what does not matter -----

  /** The same step with its source locations in some other order. */
  ghost predicate SameStep(a: PathStep, b: PathStep) {
    a == b.(sourceLocations := a.sourceLocations) && multiset(a.sourceLocations) == multiset(b.sourceLocations)
  }

  function CanonicalNested(n: Nested): Nested {
    Nested(StableSort(CompareLocations, n.related), CanonicalSteps(n.steps), StableSort(CompareText, n.coverageRefs))
  }

  /** The same steps, each with its source locations in some other order. */
  ghost predicate SameSteps(a: seq<PathStep>, b: seq<PathStep>) {
    |a| == |b| && forall i | 0 <= i < |a| :: SameStep(a[i], b[i])
  }

  /** The same nested arrays in some other order; the steps keep their places. */
  ghost predicate SameNested(a: Nested, b: Nested) {
    multiset(a.related) == multiset(b.related) && SameSteps(a.steps, b.steps) && multiset(a.coverageRefs) == multiset(b.coverageRefs)
  }

  lemma SameStepsSameCanon(a: seq<PathStep>, b: seq<PathStep>)
    requires SameSteps(a, b)
    ensures CanonicalSteps(a) == CanonicalSteps(b)
  {
    LocationLaws();
    forall i | 0 <= i < |a| ensures CanonicalStep(a[i]) == CanonicalStep(b[i]) {
      assert SameStep(a[i], b[i]);
      SortCanonical(CompareLocations, a[i].sourceLocations, b[i].sourceLocations);
    }
  }

  lemma SameNestedSameCanon(a: Nested, b: Nested)
    requires SameNested(a, b)
    ensures CanonicalNested(a) == CanonicalNested(b)
  {
    TextLaws();
    LocationLaws();
    SortCanonical(CompareLocations, a.related, b.related);
    SameStepsSameCanon(a.steps, b.steps);
    SortCanonical(CompareText, a.coverageRefs, b.coverageRefs);
  }

  /** The same fact with its coverage refs and source locations in some other order. */
  ghost predicate SameFact(a: Fact, b: Fact) {
    && a == b.(pathSteps := a.pathSteps, coverageRefs := a.coverageRefs)
    && multiset(a.coverageRefs) == multiset(b.coverageRefs)
    && SameSteps(a.pathSteps, b.pathSteps)
  }

  lemma SameFactSameCanon(a: Fact, b: Fact)
    requires SameFact(a, b)
    ensures CanonicalFact(a) == CanonicalFact(b)
  {
    TextLaws();
    SortCanonical(CompareText, a.coverageRefs, b.coverageRefs);
    SameStepsSameCanon(a.pathSteps, b.pathSteps);
  }

  /** For facts of one language, permuting the facts, their coverage refs or their source locations does not
      show in the result. */
  lemma SortedFactsCanonical(facts: seq<Fact>, shuffled: seq<Fact>, other: seq<Fact>)
    requires multiset(facts) == multiset(shuffled)
    requires |shuffled| == |other| && forall i | 0 <= i < |other| :: SameFact(shuffled[i], other[i])
    requires forall f, g | f in facts && g in facts :: f.language == g.language
    ensures SortedFacts(facts) == SortedFacts(other)
  {
    forall i | 0 <= i < |other| ensures CanonicalFact(shuffled[i]) == CanonicalFact(other[i]) {
      SameFactSameCanon(shuffled[i], other[i]);
    }
    assert CanonicalFacts(shuffled) == CanonicalFacts(other);
    assert NoTwins(facts);
    NoTwinsOrderFree(facts, shuffled);
  }

  /** Two different facts of the list become equal but for their language. */
  ghost predicate Twins(f: Fact, g: Fact) {
    CanonicalFact(f) == CanonicalFact(g).(language := f.language) && f.language != g.language
  }

  ghost predicate NoTwins(facts: seq<Fact>) {
    forall f, g | f in facts && g in facts :: !Twins(f, g)
  }

  lemma NoTwinsOrderFree(facts: seq<Fact>, shuffled: seq<Fact>)
    requires multiset(facts) == multiset(shuffled) && NoTwins(facts)
    ensures SortedFacts(facts) == SortedFacts(shuffled)
  {
    FactLaws();
    MapPermutes(CanonicalFact, facts, shuffled);
    var canon := CanonicalFacts(facts);
    forall a, b | a in multiset(canon) && b in multiset(canon) && CompareFacts(a, b) == 0 ensures a == b {
      var i :| 0 <= i < |canon| && canon[i] == a;
      var j :| 0 <= j < |canon| && canon[j] == b;
      assert facts[i] in facts && facts[j] in facts;
      assert !Twins(facts[i], facts[j]);
    }
    SortCanonical(CompareFacts, canon, CanonicalFacts(shuffled));
  }

  /** The order of the input is invisible exactly when no two facts differ in nothing but their language:
      the comparison leaves the language out, and the sort is stable. */
  lemma OrderFreeExactlyWhen(facts: seq<Fact>)
    ensures NoTwins(facts) <==>
            forall s, t | multiset(s) == multiset(facts) && multiset(t) == multiset(facts) :: SortedFacts(s) == SortedFacts(t)
  {
    if NoTwins(facts) {
      forall s, t | multiset(s) == multiset(facts) && multiset(t) == multiset(facts) ensures SortedFacts(s) == SortedFacts(t) {
        NoTwinsOrderFree(facts, s);
        NoTwinsOrderFree(facts, t);
      }
    } else {
      var f, g :| f in facts && g in facts && Twins(f, g);
      var s := ToFront(facts, f);
      var t := ToFront(facts, g);
      TwinsShow(s, t);
    }
  }

  lemma TwinsShow(s: seq<Fact>, t: seq<Fact>)
    requires s != [] && t != [] && Twins(s[0], t[0])
    ensures SortedFacts(s) != SortedFacts(t)
  {
    FactLaws();
    var x := CanonicalFact(s[0]);
    StableSortKeepsTies(CompareFacts, x, CanonicalFacts(s));
    StableSortKeepsTies(CompareFacts, x, CanonicalFacts(t));
    assert CompareFacts(x, CanonicalFacts(s)[0]) == 0;
    assert CompareFacts(x, CanonicalFacts(t)[0]) == 0;
    assert Ties(CompareFacts, x, CanonicalFacts(s))[0] == CanonicalFact(s[0]);
    assert Ties(CompareFacts, x, CanonicalFacts(t))[0] == CanonicalFact(t[0]);
  }
}
