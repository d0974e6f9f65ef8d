/** What a layer-bypass result says: exact accounting, the meaning of `Complete`, soundness of every
    witness, and the vertex-cut theorem. */
module LayerBypassResult {
  import opened Filtering
  import opened Ordering
  import opened CallGraph
  import opened ShortestPaths
  import opened LayerMembership
  import opened LayerBypass

  // ----- one source in closed form -----

  ghost predicate Emits(source: Node, sink: Node, parents: map<Node, Node>, positions: Positions) {
    sink in parents && FullyClassified(PathTo(parents, source, sink), positions)
  }

  ghost function Witnessed(source: Node, sink: Node, parents: map<Node, Node>, positions: Positions, layer: string): Witness {
    WitnessFor(source, sink, layer, PathTo(parents, source, sink), positions)
  }

  ghost function Found(source: Node, sinks: seq<Node>, parents: map<Node, Node>, positions: Positions, layer: string)
    : seq<Witness>
    decreases |sinks|
  {
    if sinks == [] then []
    else (if Emits(source, sinks[0], parents, positions) then [Witnessed(source, sinks[0], parents, positions, layer)] else [])
         + Found(source, sinks[1..], parents, positions, layer)
  }

  /** Some sink is reached by a path with a node of unknown position. */
  ghost predicate Unclassified(source: Node, sinks: seq<Node>, parents: map<Node, Node>, positions: Positions)
    decreases |sinks|
  {
    sinks != [] && ((sinks[0] in parents && !Emits(source, sinks[0], parents, positions))
                    || Unclassified(source, sinks[1..], parents, positions))
  }

  lemma {:induction false} CollectSkips(s: Search, source: Node, sinks: seq<Node>, parents: map<Node, Node>,
                                        positions: Positions, layer: string)
    ensures Collect(s, source, sinks, parents, positions, layer, true) == s.(truncatedPairs := s.truncatedPairs + |sinks|)
    decreases |sinks|
  {
    if sinks != [] {
      CollectSkips(s.(truncatedPairs := s.truncatedPairs + 1), source, sinks[1..], parents, positions, layer);
    }
  }

  ghost function Judged(s: Search, source: Node, sinks: seq<Node>, parents: map<Node, Node>, positions: Positions,
                        layer: string): Search {
    Search(s.witnesses + Found(source, sinks, parents, positions, layer), s.evaluated + |sinks|, s.truncatedPairs,
           s.nodesVisited, s.truncatedSearch,
           s.unclassifiedNodeSeen || Unclassified(source, sinks, parents, positions))
  }

  lemma {:induction false} CollectJudges(s: Search, source: Node, sinks: seq<Node>, parents: map<Node, Node>,
                                         positions: Positions, layer: string)
    ensures Collect(s, source, sinks, parents, positions, layer, false) == Judged(s, source, sinks, parents, positions, layer)
    decreases |sinks|
  {
    if sinks != [] {
      var s' := CollectPair(s, source, sinks[0], parents, positions, layer);
      CollectJudges(s', source, sinks[1..], parents, positions, layer);
      var tail := Found(source, sinks[1..], parents, positions, layer);
      var head := if Emits(source, sinks[0], parents, positions)
                  then [Witnessed(source, sinks[0], parents, positions, layer)] else [];
      assert s'.witnesses == s.witnesses + head;
      assert (s.witnesses + head) + tail == s.witnesses + (head + tail);
    }
  }

  lemma {:induction false} FoundHolds(source: Node, sinks: seq<Node>, parents: map<Node, Node>, positions: Positions,
                                      layer: string, sink: Node)
    ensures sink in sinks && Emits(source, sink, parents, positions) ==>
              Witnessed(source, sink, parents, positions, layer) in Found(source, sinks, parents, positions, layer)
    decreases |sinks|
  {
    if sinks != [] { FoundHolds(source, sinks[1..], parents, positions, layer, sink); }
  }

  lemma {:induction false} FoundOnly(source: Node, sinks: seq<Node>, parents: map<Node, Node>, positions: Positions,
                                     layer: string, w: Witness)
    requires w in Found(source, sinks, parents, positions, layer)
    ensures w.source == source && w.sink in sinks && Emits(source, w.sink, parents, positions)
    ensures w == Witnessed(source, w.sink, parents, positions, layer)
    decreases |sinks|
  {
    if w in Found(source, sinks[1..], parents, positions, layer) {
      FoundOnly(source, sinks[1..], parents, positions, layer, w);
    }
  }

  // ----- every source -----

  ghost function FoundBy(q: Query, o: Outcome): seq<Witness> {
    if o.skipped then [] else Found(o.source, q.sinks, o.parents, q.positions, q.layer)
  }

  ghost function AllFound(q: Query, outcomes: seq<Outcome>): seq<Witness> {
    if outcomes == [] then [] else FoundBy(q, outcomes[0]) + AllFound(q, outcomes[1..])
  }

  lemma {:induction false} AllFoundMembers(q: Query, outcomes: seq<Outcome>, w: Witness)
    ensures w in AllFound(q, outcomes) <==> exists o | o in outcomes :: w in FoundBy(q, o)
  {
    if outcomes != [] {
      AllFoundMembers(q, outcomes[1..], w);
      assert forall o :: o in outcomes <==> o == outcomes[0] || o in outcomes[1..];
    }
  }

  /** A trustworthy outcome: its tree is real, and exact when its pairs were evaluated. */
  ghost predicate Sound(q: Query, o: Outcome) {
    && LeadsBack(q.adjacency, o.source, o.parents)
    && (!o.skipped ==>
          && o.parents == FullParents(q.adjacency, o.source) && FindsExactly(q.adjacency, o.source, o.parents)
          && LeadsBackShortest(q.adjacency, o.source, o.parents))
  }

  ghost function OutcomeOf(q: Query, source: Node, visits: int, polls: nat): Outcome {
    var w := WalkFrom(q.adjacency, Start(source), visits, q.max, q.deadline, polls);
    Outcome(source, w.frontier.parents,
            w.stopped || Expired(q.deadline, w.polls) || q.callGraphIncomplete || !q.dirsComplete)
  }

  lemma OutcomeSound(q: Query, source: Node, visits: int, polls: nat)
    ensures Sound(q, OutcomeOf(q, source, visits, polls))
  {
    WalkLeavesTree(q.adjacency, source, visits, q.max, q.deadline, polls);
    if !WalkFrom(q.adjacency, Start(source), visits, q.max, q.deadline, polls).stopped {
      WalkIsExact(q.adjacency, source, visits, q.max, q.deadline, polls);
      UnstoppedWalksAgree(q.adjacency, Start(source), visits, q.max, q.deadline, polls, 0, 0);
    }
  }

  ghost predicate OutcomeUnclassified(q: Query, o: Outcome) {
    !o.skipped && Unclassified(o.source, q.sinks, o.parents, q.positions)
  }

  /** A source's pairs are all evaluated or all truncated. */
  ghost predicate Accounts(q: Query, o: Outcome, before: Search, after: Search) {
    && after.witnesses == before.witnesses + FoundBy(q, o)
    && after.evaluated == before.evaluated + (if o.skipped then 0 else |q.sinks|)
    && after.truncatedPairs == before.truncatedPairs + (if o.skipped then |q.sinks| else 0)
    && after.unclassifiedNodeSeen == (before.unclassifiedNodeSeen || OutcomeUnclassified(q, o))
    && (before.truncatedSearch ==> after.truncatedSearch)
  }

  lemma OneSourceHolds(q: Query, source: Node, s: Search, visits: int, polls: nat)
    ensures var r, o := OneSource(q, source, s, visits, polls), OutcomeOf(q, source, visits, polls);
            && r.outcomes == [o] && Accounts(q, o, s, r.search)
            && polls <= r.polls && (q.max > 0 && visits <= q.max ==> r.visits <= q.max)
            && (o.skipped && !r.search.truncatedSearch ==>
                 q.callGraphIncomplete || !q.dirsComplete || Expired(q.deadline, r.polls))
  {
    var w := WalkFrom(q.adjacency, Start(source), visits, q.max, q.deadline, polls);
    WalkCountsVisits(q.adjacency, Start(source), visits, q.max, q.deadline, polls);
    var s1 := s.(truncatedSearch := s.truncatedSearch || w.stopped);
    if OutcomeOf(q, source, visits, polls).skipped {
      CollectSkips(s1, source, q.sinks, w.frontier.parents, q.positions, q.layer);
    } else {
      CollectJudges(s1, source, q.sinks, w.frontier.parents, q.positions, q.layer);
    }
  }

  ghost predicate AllSound(q: Query, outcomes: seq<Outcome>) {
    forall o | o in outcomes :: Sound(q, o)
  }

  ghost predicate AllEvaluated(outcomes: seq<Outcome>) {
    forall o | o in outcomes :: !o.skipped
  }

  ghost predicate SomeUnclassified(q: Query, outcomes: seq<Outcome>) {
    exists o | o in outcomes :: OutcomeUnclassified(q, o)
  }

  /** The outcomes belong to the leading sources, in order. */
  ghost predicate Cover(outcomes: seq<Outcome>, sources: seq<Node>) {
    |outcomes| <= |sources| && forall i | 0 <= i < |outcomes| :: outcomes[i].source == sources[i]
  }

  lemma ConsCovers(q: Query, o: Outcome, rest: seq<Outcome>, sources: seq<Node>)
    requires sources != [] && o.source == sources[0] && Cover(rest, sources[1..]) && AllSound(q, rest) && Sound(q, o)
    ensures Cover([o] + rest, sources) && AllSound(q, [o] + rest)
  {
    var all := [o] + rest;
    forall i | 0 <= i < |all| ensures all[i].source == sources[i] {
      if i > 0 { assert all[i] == rest[i - 1] && sources[i] == sources[1..][i - 1]; }
    }
    forall x | x in all ensures Sound(q, x) { assert x == o || x in rest; }
  }

  lemma ConsFlags(q: Query, o: Outcome, rest: seq<Outcome>)
    ensures SomeUnclassified(q, [o] + rest) == (OutcomeUnclassified(q, o) || SomeUnclassified(q, rest))
    ensures AllEvaluated([o] + rest) == (!o.skipped && AllEvaluated(rest))
  {
    assert forall x :: x in [o] + rest <==> x == o || x in rest;
  }

  lemma ConsFound(q: Query, o: Outcome, rest: seq<Outcome>)
    ensures AllFound(q, [o] + rest) == FoundBy(q, o) + AllFound(q, rest)
  {
    assert ([o] + rest)[1..] == rest;
  }

  lemma OneMorePair(n: nat, pairs: nat)
    ensures (n + 1) * pairs == pairs + n * pairs
  {
  }

  lemma {:induction false} SourcesOutcomes(q: Query, sources: seq<Node>, s: Search, visits: int, polls: nat)
    ensures Cover(SourcesFrom(q, sources, s, visits, polls).outcomes, sources)
    ensures AllSound(q, SourcesFrom(q, sources, s, visits, polls).outcomes)
    ensures |SourcesFrom(q, sources, s, visits, polls).outcomes| < |sources| ==>
              SourcesFrom(q, sources, s, visits, polls).search.truncatedSearch
    decreases |sources|
  {
    if sources != [] && !Expired(q.deadline, polls) {
      var one := OneSource(q, sources[0], s, visits, polls + 1);
      OutcomeSound(q, sources[0], visits, polls + 1);
      SourcesOutcomes(q, sources[1..], one.search, one.visits, one.polls);
      ConsCovers(q, one.outcomes[0], SourcesFrom(q, sources[1..], one.search, one.visits, one.polls).outcomes, sources);
    }
  }

  /** The witnesses, counters and flags of a run, read off its outcomes. */
  ghost predicate Tallies(q: Query, before: Search, outcomes: seq<Outcome>, after: Search) {
    && after.witnesses == before.witnesses + AllFound(q, outcomes)
    && after.evaluated + after.truncatedPairs == before.evaluated + before.truncatedPairs + |outcomes| * |q.sinks|
    && before.truncatedPairs <= after.truncatedPairs
    && (AllEvaluated(outcomes) ==> after.truncatedPairs == before.truncatedPairs)
    && after.unclassifiedNodeSeen == (before.unclassifiedNodeSeen || SomeUnclassified(q, outcomes))
    && (before.truncatedSearch ==> after.truncatedSearch)
  }

  lemma WitnessesChain(q: Query, o: Outcome, rest: seq<Outcome>, before: seq<Witness>)
    ensures (before + FoundBy(q, o)) + AllFound(q, rest) == before + AllFound(q, [o] + rest)
  {
    ConsFound(q, o, rest);
    Associate(before, FoundBy(q, o), AllFound(q, rest));
  }

  lemma TalliesChain(q: Query, o: Outcome, rest: seq<Outcome>, a: Search, b: Search, c: Search)
    requires Accounts(q, o, a, b) && Tallies(q, b, rest, c)
    ensures Tallies(q, a, [o] + rest, c)
  {
    ConsFlags(q, o, rest);
    WitnessesChain(q, o, rest, a.witnesses);
    OneMorePair(|rest|, |q.sinks|);
    assert |[o] + rest| == |rest| + 1;
  }

  /** The run from any intermediate state: every processed source accounts for all its pairs, either as
      evaluated or as truncated, and the shared visit counter never passes the cap. */
  lemma {:induction false} SourcesAccount(q: Query, sources: seq<Node>, s: Search, visits: int, polls: nat)
    ensures Tallies(q, s, SourcesFrom(q, sources, s, visits, polls).outcomes, SourcesFrom(q, sources, s, visits, polls).search)
    ensures polls <= SourcesFrom(q, sources, s, visits, polls).polls
    ensures q.max > 0 && visits <= q.max ==> SourcesFrom(q, sources, s, visits, polls).visits <= q.max
    decreases |sources|
  {
    if sources != [] && !Expired(q.deadline, polls) {
      var one := OneSource(q, sources[0], s, visits, polls + 1);
      OneSourceHolds(q, sources[0], s, visits, polls + 1);
      SourcesAccount(q, sources[1..], one.search, one.visits, one.polls);
      var rest := SourcesFrom(q, sources[1..], one.search, one.visits, one.polls);
      TalliesChain(q, one.outcomes[0], rest.outcomes, s, one.search, rest.search);
    }
  }

  /** Cancellation is monotone, so if the context is live at the end nothing was skipped for it. */
  lemma {:induction false} UntruncatedMeansEvaluated(q: Query, sources: seq<Node>, s: Search, visits: int, polls: nat)
    requires !q.callGraphIncomplete && q.dirsComplete
    requires !SourcesFrom(q, sources, s, visits, polls).search.truncatedSearch
    requires !Expired(q.deadline, SourcesFrom(q, sources, s, visits, polls).polls)
    ensures AllEvaluated(SourcesFrom(q, sources, s, visits, polls).outcomes)
    decreases |sources|
  {
    if sources != [] && !Expired(q.deadline, polls) {
      var one := OneSource(q, sources[0], s, visits, polls + 1);
      OneSourceHolds(q, sources[0], s, visits, polls + 1);
      SourcesAccount(q, sources[1..], one.search, one.visits, one.polls);
      UntruncatedMeansEvaluated(q, sources[1..], one.search, one.visits, one.polls);
    }
  }

  // ----- the assembled result -----

  /** What BuildGoLayerBypass works on once the snapshot is loaded. */
  datatype Analysis = Analysis(facts: set<CallFact>, callGraphComplete: bool, sources: seq<Node>, sourcesComplete: bool,
                               sinkPatterns: seq<Node>, positions: Positions, dirsComplete: bool, layer: Layer, max: int,
                               diagnostics: seq<Diagnostic>, deadline: Deadline)

  datatype Counts = Counts(sourcesIdentified: int, sinksPinned: int, pairsTotal: int, evaluated: int, truncated: int,
                           witnessesFound: int, layerNodesMatched: int, nodesVisited: int)

  datatype Report = Report(witnesses: seq<Witness>, complete: bool, counts: Counts, diagnostics: seq<Diagnostic>)

  datatype Diagnostic = Diagnostic(code: string, message: string, path: string)

  const AMBIGUOUS_LAYER := "project_layer_bypass_ambiguous_layer"
  const BUDGET_EXCEEDED := "project_layer_bypass_budget_exceeded"

  function CompareWitnesses(a: Witness, b: Witness): int {
    Or([CompareText(a.source, b.source), CompareText(a.sink, b.sink)])
  }

  predicate HasCode(diagnostics: seq<Diagnostic>, code: string) {
    exists d | d in diagnostics :: d.code == code
  }

  function Coded(code: string): Diagnostic {
    Diagnostic(code, "", "")
  }

  function SearchDiagnostics(base: seq<Diagnostic>, ambiguous: bool, s: Search): seq<Diagnostic> {
    var d := if ambiguous || (s.unclassifiedNodeSeen && !HasCode(base, AMBIGUOUS_LAYER)) then base + [Coded(AMBIGUOUS_LAYER)]
             else base;
    if s.truncatedSearch && !HasCode(d, BUDGET_EXCEEDED) then d + [Coded(BUDGET_EXCEEDED)] else d
  }

  function DiagnosticParts(a: Diagnostic, b: Diagnostic): seq<int> {
    [CompareText(a.code, b.code), CompareText(a.path, b.path), CompareText(a.message, b.message)]
  }

  function CompareDiagnostics(a: Diagnostic, b: Diagnostic): int {
    Or(DiagnosticParts(a, b))
  }

  /** The order every coverage block reports its diagnostics in. */
  function Canonical(diagnostics: seq<Diagnostic>): seq<Diagnostic> {
    StableSort(CompareDiagnostics, diagnostics)
  }

  lemma DiagnosticLaws()
    ensures Lawful(CompareDiagnostics) && Decisive(CompareDiagnostics)
  {
    forall a, b ensures Mirrors(CompareDiagnostics(a, b), CompareDiagnostics(b, a)) {
      TextMirrors(a.code, b.code);
      TextMirrors(a.path, b.path);
      TextMirrors(a.message, b.message);
      OrMirrors(DiagnosticParts(a, b), DiagnosticParts(b, a));
    }
    forall a, b, c ensures Chains(CompareDiagnostics(a, b), CompareDiagnostics(b, c), CompareDiagnostics(a, c)) {
      TextChains(a.code, b.code, c.code);
      TextChains(a.path, b.path, c.path);
      TextChains(a.message, b.message, c.message);
      OrChains(DiagnosticParts(a, b), DiagnosticParts(b, c), DiagnosticParts(a, c));
    }
    forall a, b ensures CompareDiagnostics(a, b) == 0 <==> a == b { DiagnosticDecides(a, b); }
  }

  lemma DiagnosticDecides(a: Diagnostic, b: Diagnostic)
    ensures CompareDiagnostics(a, b) == 0 <==> a == b
  {
    TextDecides(a.code, b.code);
    TextDecides(a.path, b.path);
    TextDecides(a.message, b.message);
    var cs := DiagnosticParts(a, b);
    OrZero(cs);
    if CompareDiagnostics(a, b) == 0 { assert cs[0] == 0 && cs[1] == 0 && cs[2] == 0; }
  }

  /** The reported list depends on which diagnostics there are, not on the order they came up in, and loses none. */
  lemma CanonicalIgnoresOrder(diagnostics: seq<Diagnostic>, shuffled: seq<Diagnostic>)
    requires multiset(diagnostics) == multiset(shuffled)
    ensures Canonical(diagnostics) == Canonical(shuffled) && multiset(Canonical(diagnostics)) == multiset(diagnostics)
  {
    DiagnosticLaws();
    SortCanonical(CompareDiagnostics, diagnostics, shuffled);
    StableSortPermutes(CompareDiagnostics, diagnostics);
  }

  /** The reported diagnostics come by code, path and message. */
  lemma DiagnosticsAscend(diagnostics: seq<Diagnostic>, i: nat, j: nat)
    requires i < j < |Canonical(diagnostics)|
    ensures NotedBefore(Canonical(diagnostics)[i], Canonical(diagnostics)[j])
  {
    DiagnosticLaws();
    StableSortAscending(CompareDiagnostics, diagnostics);
    DiagnosticOrderMeans(Canonical(diagnostics)[i], Canonical(diagnostics)[j]);
  }

  predicate NotedBefore(a: Diagnostic, b: Diagnostic) {
    TextLess(a.code, b.code) || (a.code == b.code && (TextLess(a.path, b.path) || (a.path == b.path && TextAtMost(a.message, b.message))))
  }

  lemma DiagnosticOrderMeans(a: Diagnostic, b: Diagnostic)
    requires CompareDiagnostics(a, b) <= 0
    ensures NotedBefore(a, b)
  {
    var cs := DiagnosticParts(a, b);
    assert cs[0..] == cs && cs[3..] == [];
    OrTail(cs, 0); OrTail(cs, 1); OrTail(cs, 2);
    TextLessExactly(a.code, b.code); TextDecides(a.code, b.code);
    TextLessExactly(a.path, b.path); TextDecides(a.path, b.path);
    TextAtMostExactly(a.message, b.message);
  }

  lemma CanonicalKeepsCodes(diagnostics: seq<Diagnostic>, code: string)
    ensures HasCode(Canonical(diagnostics), code) <==> HasCode(diagnostics, code)
  {
    StableSortPermutes(CompareDiagnostics, diagnostics);
    forall d ensures d in Canonical(diagnostics) <==> d in diagnostics {
      assert d in Canonical(diagnostics) <==> d in multiset(Canonical(diagnostics));
      assert d in diagnostics <==> d in multiset(diagnostics);
    }
  }

  function Assemble(s: Search, sources: seq<Node>, sinks: seq<Node>, layerNodes: set<Node>, callGraphComplete: bool,
                    sourcesComplete: bool, dirsComplete: bool, ambiguous: bool, diagnostics: seq<Diagnostic>): Report {
    Report(StableSort(CompareWitnesses, s.witnesses),
           callGraphComplete && sourcesComplete && dirsComplete && !s.truncatedSearch,
           Counts(|sources|, |sinks|, |sources| * |sinks|, s.evaluated, s.truncatedPairs, |s.witnesses|, |layerNodes|, s.nodesVisited),
           Canonical(SearchDiagnostics(diagnostics, ambiguous, s)))
  }

  ghost predicate Ambiguous(a: Analysis) {
    a.layer.prefixes == [] || LayerNodes(a.layer, a.positions) == {}
  }

  function Sinks(a: Analysis): seq<Node> {
    StableSort(CompareText, a.sinkPatterns)
  }

  ghost function QueryOf(a: Analysis): Query {
    Query(Sinks(a), Without(AdjacencyOf(a.facts), LayerNodes(a.layer, a.positions)), a.positions, a.layer.name, a.max,
          !a.callGraphComplete, a.dirsComplete, a.deadline)
  }

  ghost function RunOf(a: Analysis, polls: nat): Run {
    SearchAll(QueryOf(a), a.sources, polls)
  }

  /** The report is a function of the SET of call facts: neither their order nor repeats matter. */
  ghost function ReportOf(a: Analysis, polls: nat): Report {
    var s := if Ambiguous(a) then EMPTY.(truncatedPairs := |a.sources| * |Sinks(a)|, truncatedSearch := true)
             else RunOf(a, polls).search;
    Assemble(s, a.sources, Sinks(a), LayerNodes(a.layer, a.positions), a.callGraphComplete, a.sourcesComplete,
             a.dirsComplete, Ambiguous(a), a.diagnostics)
  }

  method BuildGoLayerBypass(ctx: Context, facts: seq<CallFact>, callGraphComplete: bool, sources: seq<Node>,
                            sourcesComplete: bool, sinkPatterns: seq<Node>, positions: Positions, dirsComplete: bool,
                            layer: Layer, maxSearchNodes: int, diagnostics: seq<Diagnostic>)
    returns (report: Report)
    modifies ctx
    ensures report == ReportOf(Analysis(FactSet(facts), callGraphComplete, sources, sourcesComplete, sinkPatterns, positions,
                                        dirsComplete, layer, maxSearchNodes, diagnostics, ctx.deadline), old(ctx.polls))
  {
    var adjacency := BuildAdjacency(facts);
    var sinks := StableSort(CompareText, sinkPatterns);
    var layerNodes := RequiredLayerNodeSet(layer, positions);
    var ambiguous := |layer.prefixes| == 0 || |layerNodes| == 0;
    var bypassAdjacency := adjacency;
    if !ambiguous { bypassAdjacency := RemoveLayerNodes(adjacency, layerNodes); }
    var search := SearchLayerBypassWitnesses(ctx, sources, sinks, bypassAdjacency, positions, layer.name, maxSearchNodes,
                                             !callGraphComplete, dirsComplete, ambiguous);
    var s := Search(search.witnesses, search.evaluated, search.truncatedPairs, search.nodesVisited,
                    search.truncatedSearch, search.unclassifiedNodeSeen);
    report := Assemble(s, sources, sinks, layerNodes, callGraphComplete, sourcesComplete, dirsComplete, ambiguous,
                       diagnostics);
  }

  // ----- accounting -----

  /** In every run the evaluated and truncated pairs are exactly those of the sources processed before
      a cancellation break, and a positive cap bounds the nodes visited by all sources together. */
  lemma EveryPairAccountedFor(a: Analysis, polls: nat)
    ensures var r, c := RunOf(a, polls), ReportOf(a, polls).counts;
            && (!Ambiguous(a) ==> |r.outcomes| <= |a.sources| && c.evaluated + c.truncated == |r.outcomes| * |Sinks(a)|)
            && (Ambiguous(a) ==> c.evaluated == 0 && c.truncated == c.pairsTotal)
            && (a.max > 0 ==> c.nodesVisited <= a.max)
            && c.sourcesIdentified == |a.sources| && c.sinksPinned == |a.sinkPatterns| && c.pairsTotal == |a.sources| * |a.sinkPatterns|
            && c.witnessesFound == |ReportOf(a, polls).witnesses|
            && c.layerNodesMatched == |set n | n in a.positions && LayerContains(a.layer, a.positions[n].dir)|
  {
    StableSortPermutes(CompareText, a.sinkPatterns);
    StableSortPermutes(CompareWitnesses, if Ambiguous(a) then [] else RunOf(a, polls).search.witnesses);
    SourcesAccount(QueryOf(a), a.sources, EMPTY, 0, polls);
    SourcesOutcomes(QueryOf(a), a.sources, EMPTY, 0, polls);
  }

  /** `Complete` means fully evaluated: every source was processed, no pair was truncated. */
  lemma CompleteMeansEvaluated(a: Analysis, polls: nat)
    requires ReportOf(a, polls).complete
    ensures !Ambiguous(a) && Cover(RunOf(a, polls).outcomes, a.sources) && |RunOf(a, polls).outcomes| == |a.sources|
    ensures AllEvaluated(RunOf(a, polls).outcomes) && AllSound(QueryOf(a), RunOf(a, polls).outcomes)
    ensures ReportOf(a, polls).counts.evaluated == ReportOf(a, polls).counts.pairsTotal == |a.sources| * |Sinks(a)|
    ensures ReportOf(a, polls).counts.truncated == 0
  {
    SourcesAccount(QueryOf(a), a.sources, EMPTY, 0, polls);
    SourcesOutcomes(QueryOf(a), a.sources, EMPTY, 0, polls);
    UntruncatedMeansEvaluated(QueryOf(a), a.sources, EMPTY, 0, polls);
  }

  // ----- witnesses -----

  /** A call path from source to sink on which no node lies under the required layer. */
  ghost predicate BypassPath(a: Analysis, source: Node, sink: Node, p: seq<Node>) {
    CallPath(a.facts, source, sink, p) && Avoids(p, LayerNodes(a.layer, a.positions))
  }

  /** The path the report shows for a pair if it shows one. */
  ghost function ShownPath(a: Analysis, source: Node, sink: Node): seq<Node> {
    PathTo(FullParents(QueryOf(a).adjacency, source), source, sink)
  }

  ghost predicate HasWitness(a: Analysis, polls: nat, source: Node, sink: Node) {
    exists w | w in ReportOf(a, polls).witnesses :: w.source == source && w.sink == sink
  }

  lemma WitnessesComeFromOutcomes(a: Analysis, polls: nat, w: Witness)
    ensures w in ReportOf(a, polls).witnesses <==>
            !Ambiguous(a) && exists o | o in RunOf(a, polls).outcomes :: w in FoundBy(QueryOf(a), o)
  {
    var s := if Ambiguous(a) then [] else RunOf(a, polls).search.witnesses;
    SourcesAccount(QueryOf(a), a.sources, EMPTY, 0, polls);
    AllFoundMembers(QueryOf(a), RunOf(a, polls).outcomes, w);
    StableSortPermutes(CompareWitnesses, s);
    assert w in s <==> w in multiset(s);
    assert w in StableSort(CompareWitnesses, s) <==> w in multiset(StableSort(CompareWitnesses, s));
  }

  lemma OutcomesAreSound(a: Analysis, polls: nat, o: Outcome)
    requires o in RunOf(a, polls).outcomes
    ensures Sound(QueryOf(a), o) && o.source in a.sources
  {
    SourcesOutcomes(QueryOf(a), a.sources, EMPTY, 0, polls);
    var i :| 0 <= i < |RunOf(a, polls).outcomes| && RunOf(a, polls).outcomes[i] == o;
    assert a.sources[i] == o.source;
  }

  /** A path of the searched graph is a bypass path, or the trivial path. */
  lemma SearchedPaths(a: Analysis, source: Node, sink: Node, p: seq<Node>)
    ensures PathBetween(QueryOf(a).adjacency, source, sink, p) <==>
            CallPath(a.facts, source, sink, p) && (|p| == 1 || Avoids(p, LayerNodes(a.layer, a.positions)))
    ensures BypassPath(a, source, sink, p) ==> PathBetween(QueryOf(a).adjacency, source, sink, p)
  {
    PathsAvoidRemoved(a.facts, LayerNodes(a.layer, a.positions), source, sink, p);
  }

  /** The path rebuilt for a reached sink. */
  lemma ReachedPath(q: Query, o: Outcome, sink: Node, r: seq<Node>)
    requires Sound(q, o) && !o.skipped && sink in o.parents
    ensures PathBetween(q.adjacency, o.source, sink, PathTo(o.parents, o.source, sink))
    ensures PathBetween(q.adjacency, o.source, sink, r) ==> |PathTo(o.parents, o.source, sink)| <= |r|
  {
    assert Backtrack(o.parents, o.source, sink, PathTo(o.parents, o.source, sink));
  }

  lemma ReachedExactly(q: Query, o: Outcome, sink: Node)
    requires Sound(q, o) && !o.skipped
    ensures sink in o.parents <==> exists p :: PathBetween(q.adjacency, o.source, sink, p)
  {
    assert sink in o.parents <==> Reachable(q.adjacency, o.source, sink);
  }

  /** Some path of the searched graph joins the pair exactly when the pair is trivial or some path bypasses the layer. */
  lemma JoinedMeansBypassed(a: Analysis, source: Node, sink: Node)
    ensures (exists p :: PathBetween(QueryOf(a).adjacency, source, sink, p))
            <==> source == sink || exists p :: BypassPath(a, source, sink, p)
  {
    if source == sink { SearchedPaths(a, source, sink, [sink]); }
    if p :| PathBetween(QueryOf(a).adjacency, source, sink, p) {
      SearchedPaths(a, source, sink, p);
      assert source == sink || BypassPath(a, source, sink, p);
    }
    if p :| BypassPath(a, source, sink, p) { SearchedPaths(a, source, sink, p); }
  }

  /** The shown path of an exact tree is a call path, and as short as any that bypasses the layer. */
  lemma ShownPathIsShortest(a: Analysis, o: Outcome, sink: Node, p: seq<Node>)
    requires Sound(QueryOf(a), o) && !o.skipped && sink in o.parents && p == PathTo(o.parents, o.source, sink)
    ensures CallPath(a.facts, o.source, sink, p) && (|p| == 1 || Avoids(p, LayerNodes(a.layer, a.positions)))
    ensures forall r | BypassPath(a, o.source, sink, r) :: |p| <= |r|
  {
    ReachedPath(QueryOf(a), o, sink, p);
    SearchedPaths(a, o.source, sink, p);
    forall r | BypassPath(a, o.source, sink, r) ensures |p| <= |r| {
      SearchedPaths(a, o.source, sink, r);
      ReachedPath(QueryOf(a), o, sink, r);
    }
  }

  /** What the exact parents of a source say in terms of the call facts. */
  lemma ReachedMeansBypassed(a: Analysis, o: Outcome, sink: Node)
    requires Sound(QueryOf(a), o) && !o.skipped
    ensures sink in o.parents <==> o.source == sink || exists p :: BypassPath(a, o.source, sink, p)
    ensures sink in o.parents ==>
              var p := PathTo(o.parents, o.source, sink);
              && CallPath(a.facts, o.source, sink, p)
              && (|p| == 1 || Avoids(p, LayerNodes(a.layer, a.positions)))
              && forall r | BypassPath(a, o.source, sink, r) :: |p| <= |r|
  {
    ReachedExactly(QueryOf(a), o, sink);
    JoinedMeansBypassed(a, o.source, sink);
    if sink in o.parents { ShownPathIsShortest(a, o, sink, PathTo(o.parents, o.source, sink)); }
  }

  /** A witness, in terms of the path it shows. */
  lemma WitnessForm(a: Analysis, polls: nat, w: Witness)
    requires w in ReportOf(a, polls).witnesses
    ensures w.source in a.sources && w.sink in a.sinkPatterns
    ensures var p := ShownPath(a, w.source, w.sink);
            && CallPath(a.facts, w.source, w.sink, p)
            && w == WitnessFor(w.source, w.sink, a.layer.name, p, a.positions)
            && FullyClassified(p, a.positions)
            && (|p| > 1 ==> Avoids(p, LayerNodes(a.layer, a.positions)))
            && forall r | BypassPath(a, w.source, w.sink, r) :: |p| <= |r|
  {
    var q := QueryOf(a);
    WitnessesComeFromOutcomes(a, polls, w);
    var o :| o in RunOf(a, polls).outcomes && w in FoundBy(q, o);
    OutcomesAreSound(a, polls, o);
    FoundOnly(o.source, q.sinks, o.parents, q.positions, q.layer, w);
    ReachedMeansBypassed(a, o, w.sink);
    StableSortPermutes(CompareText, a.sinkPatterns);
    assert w.sink in multiset(Sinks(a)) && w.sink in multiset(a.sinkPatterns);
  }

  /** One step per node, with its file and line where they are known. */
  predicate ShowsSteps(steps: seq<Step>, p: seq<Node>, positions: Positions) {
    && |steps| == |p|
    && forall i | 0 <= i < |p| ::
         && steps[i].node == p[i]
         && (p[i] in positions ==> steps[i].path == positions[p[i]].file && steps[i].line == positions[p[i]].line)
         && (p[i] !in positions ==> steps[i].path == "" && steps[i].line == 0)
  }

  lemma WitnessShows(source: Node, sink: Node, layer: string, p: seq<Node>, positions: Positions)
    ensures var w := WitnessFor(source, sink, layer, p, positions);
            && w.requiredLayer == layer && w.confidence == "high" && ShowsSteps(w.path, p, positions)
            && w.id == "bypass:" + layer + ":" + source + "->" + sink + "@go-layer-bypass-registry@1"
  {
  }

  /** Soundness, for every run however it ended: a witness shows a real call path of the facts from its
      source to its sink, as short as any that bypasses the layer; every node before the sink has a known
      position outside the layer, and so does the sink or it has none, unless source and sink coincide. */
  lemma WitnessIsBypass(a: Analysis, polls: nat, w: Witness)
    requires w in ReportOf(a, polls).witnesses
    ensures w.source in a.sources && w.sink in a.sinkPatterns
    ensures var p := ShownPath(a, w.source, w.sink);
            && CallPath(a.facts, w.source, w.sink, p)
            && w.requiredLayer == a.layer.name && w.confidence == "high" && ShowsSteps(w.path, p, a.positions)
            && w.id == "bypass:" + a.layer.name + ":" + w.source + "->" + w.sink + "@go-layer-bypass-registry@1"
            && (forall i | 0 <= i < |p| - 1 :: p[i] in a.positions)
            && (|p| > 1 ==> forall n | n in p && n in a.positions :: !LayerContains(a.layer, a.positions[n].dir))
            && forall r | BypassPath(a, w.source, w.sink, r) :: |p| <= |r|
  {
    WitnessForm(a, polls, w);
    WitnessShows(w.source, w.sink, a.layer.name, ShownPath(a, w.source, w.sink), a.positions);
  }

  lemma VertexCutForm(a: Analysis, polls: nat, o: Outcome, sink: Node)
    requires !Ambiguous(a) && o in RunOf(a, polls).outcomes && !o.skipped && sink in a.sinkPatterns
    ensures HasWitness(a, polls, o.source, sink) <==> sink in o.parents && Emits(o.source, sink, o.parents, a.positions)
  {
    var q := QueryOf(a);
    OutcomesAreSound(a, polls, o);
    if HasWitness(a, polls, o.source, sink) {
      var w :| w in ReportOf(a, polls).witnesses && w.source == o.source && w.sink == sink;
      WitnessesComeFromOutcomes(a, polls, w);
      var o' :| o' in RunOf(a, polls).outcomes && w in FoundBy(q, o');
      OutcomesAreSound(a, polls, o');
      FoundOnly(o'.source, q.sinks, o'.parents, q.positions, q.layer, w);
    }
    if Emits(o.source, sink, o.parents, a.positions) {
      SinksAreThePatterns(a);
      var w := Witnessed(o.source, sink, o.parents, q.positions, q.layer);
      FoundHolds(o.source, q.sinks, o.parents, q.positions, q.layer, sink);
      assert w in FoundBy(q, o);
      WitnessesComeFromOutcomes(a, polls, w);
    }
  }

  /** Some node before the last has no known position. */
  ghost predicate HasGap(p: seq<Node>, positions: Positions) {
    exists i :: 0 <= i < |p| - 1 && p[i] !in positions
  }

  ghost predicate Joined(a: Analysis, source: Node, sink: Node) {
    source == sink || exists p :: BypassPath(a, source, sink, p)
  }

  lemma JoinedExactly(a: Analysis, polls: nat, o: Outcome, sink: Node)
    requires o in RunOf(a, polls).outcomes && !o.skipped
    ensures o.parents == FullParents(QueryOf(a).adjacency, o.source)
    ensures sink in o.parents <==> Joined(a, o.source, sink)
  {
    OutcomesAreSound(a, polls, o);
    ReachedExactly(QueryOf(a), o, sink);
    JoinedMeansBypassed(a, o.source, sink);
  }

  lemma EmitsExactly(a: Analysis, source: Node, sink: Node, parents: map<Node, Node>)
    requires parents == FullParents(QueryOf(a).adjacency, source)
    ensures sink in parents ==> (Emits(source, sink, parents, a.positions) <==> !HasGap(ShownPath(a, source, sink), a.positions))
  {
  }

  lemma VertexCutGap(a: Analysis, polls: nat, o: Outcome, sink: Node)
    requires !Ambiguous(a) && o in RunOf(a, polls).outcomes && !o.skipped && sink in a.sinkPatterns
    ensures HasWitness(a, polls, o.source, sink) <==>
            Joined(a, o.source, sink) && !HasGap(ShownPath(a, o.source, sink), a.positions)
  {
    VertexCutForm(a, polls, o, sink);
    JoinedExactly(a, polls, o, sink);
    EmitsExactly(a, o.source, sink, o.parents);
  }

  /** The vertex-cut theorem. For a pair that was evaluated, a witness is reported exactly when some call
      path avoids every node of the required layer (or the pair is trivial) and on the shown path every node before
      the last has a known position. */
  lemma VertexCut(a: Analysis, polls: nat, o: Outcome, sink: Node)
    requires !Ambiguous(a) && o in RunOf(a, polls).outcomes && !o.skipped && sink in a.sinkPatterns
    ensures HasWitness(a, polls, o.source, sink) <==>
            && (o.source == sink || exists p :: BypassPath(a, o.source, sink, p))
            && var p := ShownPath(a, o.source, sink);
               forall i | 0 <= i < |p| - 1 :: p[i] in a.positions
  {
    VertexCutGap(a, polls, o, sink);
    assert Joined(a, o.source, sink) <==> (o.source == sink || exists p :: BypassPath(a, o.source, sink, p));
  }

  /** A complete report without the ambiguity diagnostic decides the cut for every pair: no witness means
      that every call path from the source to the sink goes through the required layer. */
  lemma CompleteReportDecidesCut(a: Analysis, polls: nat, source: Node, sink: Node)
    requires ReportOf(a, polls).complete && !HasCode(ReportOf(a, polls).diagnostics, AMBIGUOUS_LAYER)
    requires source in a.sources && sink in a.sinkPatterns && source != sink
    ensures !HasWitness(a, polls, source, sink) <==>
            forall p | CallPath(a.facts, source, sink, p) :: exists n | n in p :: n in LayerNodes(a.layer, a.positions)
  {
    var q := QueryOf(a);
    CompleteMeansEvaluated(a, polls);
    var outcomes := RunOf(a, polls).outcomes;
    var i :| 0 <= i < |a.sources| && a.sources[i] == source;
    var o := outcomes[i];
    OutcomesAreSound(a, polls, o);
    ReachedMeansBypassed(a, o, sink);
    VertexCut(a, polls, o, sink);
    if sink in o.parents && !FullyClassified(PathTo(o.parents, source, sink), a.positions) {
      SourcesAccount(q, a.sources, EMPTY, 0, polls);
      StableSortPermutes(CompareText, a.sinkPatterns);
      assert sink in multiset(a.sinkPatterns) && sink in multiset(Sinks(a));
      UnclassifiedHolds(source, q.sinks, o.parents, q.positions, sink);
      assert OutcomeUnclassified(q, o);
      UnclassifiedIsReported(a.diagnostics, RunOf(a, polls).search);
      assert false;
    }
    if exists p :: BypassPath(a, source, sink, p) {
    } else {
      forall p | CallPath(a.facts, source, sink, p) ensures exists n | n in p :: n in LayerNodes(a.layer, a.positions) {
        assert !BypassPath(a, source, sink, p);
      }
    }
  }

  lemma OutcomeOfSource(a: Analysis, polls: nat, source: Node) returns (o: Outcome)
    requires ReportOf(a, polls).complete && source in a.sources
    ensures !Ambiguous(a) && o in RunOf(a, polls).outcomes && !o.skipped && o.source == source
  {
    CompleteMeansEvaluated(a, polls);
    var k :| 0 <= k < |a.sources| && a.sources[k] == source;
    o := RunOf(a, polls).outcomes[k];
    assert o in RunOf(a, polls).outcomes;
  }

  lemma ShownIsNoLonger(a: Analysis, polls: nat, o: Outcome, sink: Node, r: seq<Node>)
    requires o in RunOf(a, polls).outcomes && !o.skipped && BypassPath(a, o.source, sink, r)
    ensures var p := ShownPath(a, o.source, sink); 0 < |p| <= |r| && p[0] == o.source
  {
    OutcomesAreSound(a, polls, o);
    ReachedMeansBypassed(a, o, sink);
  }

  lemma DirectPath(a: Analysis, source: Node, sink: Node)
    requires CallFact(source, sink) in a.facts
    requires source in a.positions && !LayerContains(a.layer, a.positions[source].dir)
    requires sink in a.positions ==> !LayerContains(a.layer, a.positions[sink].dir)
    ensures BypassPath(a, source, sink, [source, sink])
  {
  }

  lemma DirectHasNoGap(a: Analysis, polls: nat, o: Outcome, sink: Node)
    requires o in RunOf(a, polls).outcomes && !o.skipped && BypassPath(a, o.source, sink, [o.source, sink])
    requires o.source in a.positions
    ensures Joined(a, o.source, sink) && !HasGap(ShownPath(a, o.source, sink), a.positions)
  {
    ShownIsNoLonger(a, polls, o, sink, [o.source, sink]);
  }

  /** The sink needs no position: a direct call from a positioned source outside the layer to a sink that is not in
      the layer is reported in every complete run. */
  lemma DirectBypassIsReported(a: Analysis, polls: nat, source: Node, sink: Node)
    requires ReportOf(a, polls).complete && source in a.sources && sink in a.sinkPatterns
    requires CallFact(source, sink) in a.facts
    requires source in a.positions && !LayerContains(a.layer, a.positions[source].dir)
    requires sink in a.positions ==> !LayerContains(a.layer, a.positions[sink].dir)
    ensures HasWitness(a, polls, source, sink)
  {
    var o := OutcomeOfSource(a, polls, source);
    DirectPath(a, source, sink);
    DirectHasNoGap(a, polls, o, sink);
    VertexCutGap(a, polls, o, sink);
  }

  /** A pair whose shown path has a node of unknown position before its end. */
  ghost predicate Undecided(a: Analysis, source: Node, sink: Node) {
    Joined(a, source, sink) && HasGap(ShownPath(a, source, sink), a.positions)
  }

  lemma {:induction false} UnclassifiedFinds(source: Node, sinks: seq<Node>, parents: map<Node, Node>, positions: Positions)
    returns (sink: Node)
    requires Unclassified(source, sinks, parents, positions)
    ensures sink in sinks && sink in parents && !Emits(source, sink, parents, positions)
    decreases |sinks|
  {
    if sinks[0] in parents && !Emits(source, sinks[0], parents, positions) {
      sink := sinks[0];
    } else {
      sink := UnclassifiedFinds(source, sinks[1..], parents, positions);
    }
  }

  lemma SinksAreThePatterns(a: Analysis)
    ensures forall sink :: sink in Sinks(a) <==> sink in a.sinkPatterns
  {
    StableSortPermutes(CompareText, a.sinkPatterns);
    forall sink ensures sink in Sinks(a) <==> sink in a.sinkPatterns {
      assert sink in Sinks(a) <==> sink in multiset(Sinks(a));
      assert sink in a.sinkPatterns <==> sink in multiset(a.sinkPatterns);
    }
  }

  lemma UndecidedExactly(a: Analysis, polls: nat, o: Outcome)
    requires o in RunOf(a, polls).outcomes && !o.skipped
    ensures OutcomeUnclassified(QueryOf(a), o) <==> exists sink | sink in a.sinkPatterns :: Undecided(a, o.source, sink)
  {
    SinksAreThePatterns(a);
    if OutcomeUnclassified(QueryOf(a), o) {
      var sink := UnclassifiedFinds(o.source, Sinks(a), o.parents, a.positions);
      JoinedExactly(a, polls, o, sink);
      EmitsExactly(a, o.source, sink, o.parents);
    }
    if sink :| sink in a.sinkPatterns && Undecided(a, o.source, sink) {
      JoinedExactly(a, polls, o, sink);
      EmitsExactly(a, o.source, sink, o.parents);
      UnclassifiedHolds(o.source, Sinks(a), o.parents, a.positions, sink);
    }
  }

  /** The ambiguity diagnostic is reported exactly when it came in, the layer is ambiguous, or an evaluated pair is
      undecided. */
  lemma AmbiguityReportedExactlyWhen(a: Analysis, polls: nat)
    ensures HasCode(ReportOf(a, polls).diagnostics, AMBIGUOUS_LAYER) <==>
            || HasCode(a.diagnostics, AMBIGUOUS_LAYER) || Ambiguous(a)
            || exists o, sink | o in RunOf(a, polls).outcomes && !o.skipped && sink in a.sinkPatterns :: Undecided(a, o.source, sink)
  {
    var s := if Ambiguous(a) then EMPTY.(truncatedPairs := |a.sources| * |Sinks(a)|, truncatedSearch := true)
             else RunOf(a, polls).search;
    AmbiguityCode(a.diagnostics, Ambiguous(a), s);
    CanonicalKeepsCodes(SearchDiagnostics(a.diagnostics, Ambiguous(a), s), AMBIGUOUS_LAYER);
    SourcesAccount(QueryOf(a), a.sources, EMPTY, 0, polls);
    if !Ambiguous(a) {
      forall o | o in RunOf(a, polls).outcomes && !o.skipped
        ensures OutcomeUnclassified(QueryOf(a), o) <==> exists sink | sink in a.sinkPatterns :: Undecided(a, o.source, sink)
      {
        UndecidedExactly(a, polls, o);
      }
    }
  }

  lemma AmbiguityCode(base: seq<Diagnostic>, ambiguous: bool, s: Search)
    ensures HasCode(SearchDiagnostics(base, ambiguous, s), AMBIGUOUS_LAYER) <==>
            HasCode(base, AMBIGUOUS_LAYER) || ambiguous || s.unclassifiedNodeSeen
  {
    var d := SearchDiagnostics(base, ambiguous, s);
    assert Coded(AMBIGUOUS_LAYER).code == AMBIGUOUS_LAYER && Coded(BUDGET_EXCEEDED).code != AMBIGUOUS_LAYER;
    forall x | x in base ensures x in d {}
    if ambiguous || (s.unclassifiedNodeSeen && !HasCode(base, AMBIGUOUS_LAYER)) { assert Coded(AMBIGUOUS_LAYER) in d; }
  }

  lemma BudgetCode(base: seq<Diagnostic>, ambiguous: bool, s: Search)
    ensures HasCode(SearchDiagnostics(base, ambiguous, s), BUDGET_EXCEEDED) <==> HasCode(base, BUDGET_EXCEEDED) || s.truncatedSearch
  {
    var d := SearchDiagnostics(base, ambiguous, s);
    assert Coded(BUDGET_EXCEEDED).code == BUDGET_EXCEEDED && Coded(AMBIGUOUS_LAYER).code != BUDGET_EXCEEDED;
    forall x | x in base ensures x in d {}
    if s.truncatedSearch && !HasCode(base, BUDGET_EXCEEDED) { assert Coded(BUDGET_EXCEEDED) in d; }
  }

  /** A search that was cut short shows it: some source was not processed or some processed one was skipped. */
  lemma {:induction false} TruncationShows(q: Query, sources: seq<Node>, s: Search, visits: int, polls: nat)
    requires !s.truncatedSearch && SourcesFrom(q, sources, s, visits, polls).search.truncatedSearch
    ensures var outcomes := SourcesFrom(q, sources, s, visits, polls).outcomes;
            |outcomes| < |sources| || !AllEvaluated(outcomes)
    decreases |sources|
  {
    if sources != [] && !Expired(q.deadline, polls) {
      var one := OneSource(q, sources[0], s, visits, polls + 1);
      OneSourceHolds(q, sources[0], s, visits, polls + 1);
      var rest := SourcesFrom(q, sources[1..], one.search, one.visits, one.polls);
      ConsFlags(q, one.outcomes[0], rest.outcomes);
      if one.search.truncatedSearch {
        StoppedIsSkipped(q, sources[0], s, visits, polls + 1);
      } else {
        TruncationShows(q, sources[1..], one.search, one.visits, one.polls);
      }
    }
  }

  lemma StoppedIsSkipped(q: Query, source: Node, s: Search, visits: int, polls: nat)
    requires !s.truncatedSearch && OneSource(q, source, s, visits, polls).search.truncatedSearch
    ensures OutcomeOf(q, source, visits, polls).skipped
  {
    var w := WalkFrom(q.adjacency, Start(source), visits, q.max, q.deadline, polls);
    if !w.stopped { CollectKeepsFlag(s, source, q.sinks, w.frontier.parents, q.positions, q.layer, OutcomeOf(q, source, visits, polls).skipped); }
  }

  lemma {:induction false} CollectKeepsFlag(s: Search, source: Node, sinks: seq<Node>, parents: map<Node, Node>,
                                            positions: Positions, layer: string, skip: bool)
    ensures Collect(s, source, sinks, parents, positions, layer, skip).truncatedSearch == s.truncatedSearch
    decreases |sinks|
  {
    if skip {
      CollectSkips(s, source, sinks, parents, positions, layer);
    } else {
      CollectJudges(s, source, sinks, parents, positions, layer);
    }
  }

  /** `Complete`, in both directions: the three inputs are complete, the layer is unambiguous, every source was processed
      and evaluated, and the context was live at the last look. */
  lemma CompleteExactlyWhen(a: Analysis, polls: nat)
    ensures ReportOf(a, polls).complete <==>
            && a.callGraphComplete && a.sourcesComplete && a.dirsComplete && !Ambiguous(a)
            && |RunOf(a, polls).outcomes| == |a.sources| && (forall o | o in RunOf(a, polls).outcomes :: !o.skipped)
            && RunOf(a, polls).polls > 0 && !Expired(a.deadline, RunOf(a, polls).polls - 1)
    ensures HasCode(ReportOf(a, polls).diagnostics, BUDGET_EXCEEDED) <==>
            || HasCode(a.diagnostics, BUDGET_EXCEEDED) || Ambiguous(a)
            || RunOf(a, polls).search.truncatedSearch
  {
    var q := QueryOf(a);
    var s := if Ambiguous(a) then EMPTY.(truncatedPairs := |a.sources| * |Sinks(a)|, truncatedSearch := true)
             else RunOf(a, polls).search;
    BudgetCode(a.diagnostics, Ambiguous(a), s);
    CanonicalKeepsCodes(SearchDiagnostics(a.diagnostics, Ambiguous(a), s), BUDGET_EXCEEDED);
    SourcesOutcomes(q, a.sources, EMPTY, 0, polls);
    if ReportOf(a, polls).complete { CompleteMeansEvaluated(a, polls); }
    if SourcesFrom(q, a.sources, EMPTY, 0, polls).search.truncatedSearch { TruncationShows(q, a.sources, EMPTY, 0, polls); }
  }

  lemma UnclassifiedIsReported(base: seq<Diagnostic>, s: Search)
    requires s.unclassifiedNodeSeen
    ensures HasCode(Canonical(SearchDiagnostics(base, false, s)), AMBIGUOUS_LAYER)
  {
    CanonicalKeepsCodes(SearchDiagnostics(base, false, s), AMBIGUOUS_LAYER);
    var d := SearchDiagnostics(base, false, s);
    if HasCode(base, AMBIGUOUS_LAYER) {
      var x :| x in base && x.code == AMBIGUOUS_LAYER;
      assert x in d;
    } else {
      assert Coded(AMBIGUOUS_LAYER) in d;
    }
  }

  lemma {:induction false} UnclassifiedHolds(source: Node, sinks: seq<Node>, parents: map<Node, Node>, positions: Positions,
                                             sink: Node)
    requires sink in sinks && sink in parents && !Emits(source, sink, parents, positions)
    ensures Unclassified(source, sinks, parents, positions)
    decreases |sinks|
  {
    if sink != sinks[0] { UnclassifiedHolds(source, sinks[1..], parents, positions, sink); }
  }

  // ----- report order -----

  /** No two different witnesses share a pair, so the (source, sink) order of the report is the only
      ascending one, whatever sorting algorithm produced it. */
  lemma WitnessOrderUnique(a: Analysis, polls: nat, listing: seq<Witness>)
    requires multiset(listing) == multiset(ReportOf(a, polls).witnesses) && Ascending(CompareWitnesses, listing)
    ensures listing == ReportOf(a, polls).witnesses
  {
    WitnessLaws();
    var witnesses := ReportOf(a, polls).witnesses;
    forall v, w | v in multiset(witnesses) && w in multiset(witnesses) && CompareWitnesses(v, w) == 0 ensures v == w {
      TextLaws();
      var cs := [CompareText(v.source, w.source), CompareText(v.sink, w.sink)];
      OrZero(cs);
      assert cs[0] == 0 && cs[1] == 0;
      WitnessForm(a, polls, v);
      WitnessForm(a, polls, w);
    }
    StableSortAscending(CompareWitnesses, if Ambiguous(a) then [] else RunOf(a, polls).search.witnesses);
    AscendingUnique(CompareWitnesses, listing, witnesses);
  }

  /** The witnesses come by source, then by sink. */
  lemma WitnessesAscend(a: Analysis, polls: nat, i: nat, j: nat)
    requires i < j < |ReportOf(a, polls).witnesses|
    ensures var v, w := ReportOf(a, polls).witnesses[i], ReportOf(a, polls).witnesses[j];
            TextLess(v.source, w.source) || (v.source == w.source && TextAtMost(v.sink, w.sink))
  {
    var s := if Ambiguous(a) then [] else RunOf(a, polls).search.witnesses;
    WitnessLaws();
    StableSortAscending(CompareWitnesses, s);
    WitnessOrderMeans(StableSort(CompareWitnesses, s)[i], StableSort(CompareWitnesses, s)[j]);
  }

  lemma WitnessOrderMeans(v: Witness, w: Witness)
    requires CompareWitnesses(v, w) <= 0
    ensures TextLess(v.source, w.source) || (v.source == w.source && TextAtMost(v.sink, w.sink))
  {
    var cs := [CompareText(v.source, w.source), CompareText(v.sink, w.sink)];
    assert cs[0..] == cs && cs[2..] == [];
    OrTail(cs, 0); OrTail(cs, 1);
    TextLessExactly(v.source, w.source); TextDecides(v.source, w.source);
    TextAtMostExactly(v.sink, w.sink);
  }

  lemma WitnessLaws()
    ensures Lawful(CompareWitnesses)
  {
    TextLaws();
    forall x: Witness, y: Witness ensures Mirrors(CompareWitnesses(x, y), CompareWitnesses(y, x)) {
      OrMirrors([CompareText(x.source, y.source), CompareText(x.sink, y.sink)],
                [CompareText(y.source, x.source), CompareText(y.sink, x.sink)]);
    }
    forall x: Witness, y: Witness, z: Witness
      ensures Chains(CompareWitnesses(x, y), CompareWitnesses(y, z), CompareWitnesses(x, z))
    {
      OrChains([CompareText(x.source, y.source), CompareText(x.sink, y.sink)],
               [CompareText(y.source, z.source), CompareText(y.sink, z.sink)],
               [CompareText(x.source, z.source), CompareText(x.sink, z.sink)]);
    }
  }
}
