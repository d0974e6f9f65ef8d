/** The reachability search: the same budgeted walks as the layer-bypass search, over the whole call graph
    (pkg/projectmodel/go_reachability_search.go, go_reachability.go). */
module Reachability {
  import opened CallGraph
  import opened LayerBypass
  import opened LayerBypassResult
  import opened ShortestPaths

  datatype Fact = Fact(id: string, source: Node, sink: Node, path: seq<Node>)

  const REACHABILITY_ALGORITHM := "go-source-sink-registry@1"

  function FactFor(source: Node, sink: Node, path: seq<Node>): Fact {
    Fact("reach:" + source + "->" + sink + "@" + REACHABILITY_ALGORITHM, source, sink, path)
  }

  // ----- the result as a value -----

  ghost function FactsFor(source: Node, sinks: seq<Node>, parents: map<Node, Node>): seq<Fact> {
    if sinks == [] then []
    else
      var sink := sinks[|sinks| - 1];
      FactsFor(source, sinks[..|sinks| - 1], parents)
      + if sink in parents then [FactFor(source, sink, PathTo(parents, source, sink))] else []
  }

  ghost function FactsOf(o: Outcome, sinks: seq<Node>): seq<Fact> {
    if o.skipped then [] else FactsFor(o.source, sinks, o.parents)
  }

  ghost function AllFacts(outcomes: seq<Outcome>, sinks: seq<Node>): seq<Fact> {
    if outcomes == [] then []
    else AllFacts(outcomes[..|outcomes| - 1], sinks) + FactsOf(outcomes[|outcomes| - 1], sinks)
  }

  /** The walks, polls and counters are those of a bypass search that deletes no layer and knows every directory. */
  ghost function Plain(sinks: seq<Node>, adjacency: Adjacency, max: int, callGraphIncomplete: bool, deadline: Deadline): Query {
    Query(sinks, adjacency, map[], "", max, callGraphIncomplete, true, deadline)
  }

  // ----- the loops -----

  method ReachabilityFactsForSource(source: Node, sinks: seq<Node>, parents: map<Node, Node>, skip: bool)
    returns (facts: seq<Fact>, evaluated: int, truncated: int)
    requires Rooted(parents, source)
    ensures facts == FactsOf(Outcome(source, parents, skip), sinks)
    ensures evaluated == (if skip then 0 else |sinks|) && truncated == (if skip then |sinks| else 0)
  {
    facts, evaluated, truncated := [], 0, 0;
    for i := 0 to |sinks|
      invariant facts == if skip then [] else FactsFor(source, sinks[..i], parents)
      invariant evaluated == (if skip then 0 else i) && truncated == (if skip then i else 0)
    {
      assert sinks[..i + 1][..i] == sinks[..i];
      if skip {
        truncated := truncated + 1;
        continue;
      }
      evaluated := evaluated + 1;
      var path, ok := ReconstructReachabilityPath(parents, source, sinks[i]);
      if !ok { continue; }
      PathToIs(parents, source, sinks[i], path);
      facts := facts + [FactFor(source, sinks[i], path)];
    }
    assert sinks[..|sinks|] == sinks;
  }

  /** What one source adds to the counters, without the witnesses. */
  lemma OneSourceCounts(q: Query, source: Node, s: Search, visits: int, polls: nat)
    ensures var r, w := OneSource(q, source, s, visits, polls),
                     WalkFrom(q.adjacency, Start(source), visits, q.max, q.deadline, polls);
            && r.outcomes == [OutcomeOf(q, source, visits, polls)]
            && r.search.evaluated == s.evaluated + (if r.outcomes[0].skipped then 0 else |q.sinks|)
            && r.search.truncatedPairs == s.truncatedPairs + (if r.outcomes[0].skipped then |q.sinks| else 0)
            && r.search.truncatedSearch == (s.truncatedSearch || w.stopped)
            && r.visits == w.visits && r.polls == if w.stopped then w.polls else w.polls + 1
  {
    var w := WalkFrom(q.adjacency, Start(source), visits, q.max, q.deadline, polls);
    var s1 := s.(truncatedSearch := s.truncatedSearch || w.stopped);
    if OutcomeOf(q, source, visits, polls).skipped {
      CollectSkips(s1, source, q.sinks, w.frontier.parents, q.positions, q.layer);
    } else {
      CollectJudges(s1, source, q.sinks, w.frontier.parents, q.positions, q.layer);
    }
  }

  /** The search's own counters. */
  datatype Counters = Counters(evaluated: int, truncatedPairs: int, truncatedSearch: bool)

  function CountersOf(s: Search): Counters {
    Counters(s.evaluated, s.truncatedPairs, s.truncatedSearch)
  }

  /** The record a search fills. */
  datatype ReachabilitySearch = ReachabilitySearch(facts: seq<Fact>, counters: Counters, nodesVisited: int)

  ghost function Finding(r: Run, sinks: seq<Node>): ReachabilitySearch {
    ReachabilitySearch(AllFacts(r.outcomes, sinks), CountersOf(r.search), r.visits)
  }

  /** A source's walk, and whether its pairs are to be skipped. */
  method WalkSource(ctx: Context, budget: BfsBudget, source: Node, adjacency: Adjacency, callGraphIncomplete: bool)
    returns (parents: map<Node, Node>, hitBudget: bool, skip: bool)
    modifies ctx, budget
    ensures Rooted(parents, source)
    ensures var w := WalkFrom(adjacency, Start(source), old(budget.visited), budget.max, ctx.deadline, old(ctx.polls));
            && parents == w.frontier.parents && hitBudget == w.stopped && budget.visited == w.visits
            && ctx.polls == (if w.stopped then w.polls else w.polls + 1)
            && skip == (w.stopped || Expired(ctx.deadline, w.polls) || callGraphIncomplete)
  {
    ghost var visits, polls := budget.visited, ctx.polls;
    WalkLeavesTree(adjacency, source, visits, budget.max, ctx.deadline, polls);
    parents, hitBudget := budget.ShortestPaths(ctx, source, adjacency);
    skip := hitBudget;
    if !skip { skip := ctx.Err(); }
    skip := skip || callGraphIncomplete;
  }

  /** One source as the search leaves it. */
  ghost predicate SourceDone(one: Run, before: Search, facts: seq<Fact>, sinks: seq<Node>, counted: Counters, visits: int,
                             polls: nat) {
    && one.outcomes != [] && facts == FactsOf(one.outcomes[0], sinks) && visits == one.visits && polls == one.polls
    && CountersOf(one.search) == Counters(before.evaluated + counted.evaluated, before.truncatedPairs + counted.truncatedPairs,
                                          before.truncatedSearch || counted.truncatedSearch)
  }

  /** The loop body: one source's walk and its facts. */
  method SearchReachabilitySource(ctx: Context, budget: BfsBudget, source: Node, sinks: seq<Node>, adjacency: Adjacency,
                                  callGraphIncomplete: bool, ghost before: Search)
    returns (facts: seq<Fact>, evaluated: int, truncated: int, hitBudget: bool)
    modifies ctx, budget
    ensures SourceDone(OneSource(Plain(sinks, adjacency, budget.max, callGraphIncomplete, ctx.deadline), source, before,
                                 old(budget.visited), old(ctx.polls)),
                       before, facts, sinks, Counters(evaluated, truncated, hitBudget), budget.visited, ctx.polls)
  {
    OneSourceCounts(Plain(sinks, adjacency, budget.max, callGraphIncomplete, ctx.deadline), source, before, budget.visited,
                    ctx.polls);
    var parents, skip;
    parents, hitBudget, skip := WalkSource(ctx, budget, source, adjacency, callGraphIncomplete);
    facts, evaluated, truncated := ReachabilityFactsForSource(source, sinks, parents, skip);
  }

  lemma OneMoreOutcome(done: seq<Outcome>, o: Outcome, rest: seq<Outcome>, sinks: seq<Node>)
    ensures AllFacts(done + [o], sinks) == AllFacts(done, sinks) + FactsOf(o, sinks)
    ensures (done + [o]) + rest == done + ([o] + rest)
  {
    assert (done + [o])[..|done|] == done;
  }

  /** Where the search stands: what is left ends as `goal` does, and the outcomes so far lead up to it. */
  ghost predicate Underway(q: Query, sources: seq<Node>, s: Search, visits: int, polls: nat, done: seq<Outcome>, goal: Run) {
    && SameEnd(SourcesFrom(q, sources, s, visits, polls), goal)
    && done + SourcesFrom(q, sources, s, visits, polls).outcomes == goal.outcomes
  }

  lemma UnderwayStep(q: Query, sources: seq<Node>, s: Search, visits: int, polls: nat, done: seq<Outcome>, goal: Run)
    requires Underway(q, sources, s, visits, polls, done, goal) && sources != [] && !Expired(q.deadline, polls)
    ensures var one := OneSource(q, sources[0], s, visits, polls + 1);
            && Underway(q, sources[1..], one.search, one.visits, one.polls, done + one.outcomes, goal)
            && AllFacts(done + one.outcomes, q.sinks) == AllFacts(done, q.sinks) + FactsOf(one.outcomes[0], q.sinks)
  {
    var one := OneSource(q, sources[0], s, visits, polls + 1);
    OneMoreOutcome(done, one.outcomes[0], SourcesFrom(q, sources[1..], one.search, one.visits, one.polls).outcomes, q.sinks);
  }

  lemma UnderwayEnds(q: Query, sources: seq<Node>, s: Search, visits: int, polls: nat, done: seq<Outcome>, goal: Run)
    requires Underway(q, sources, s, visits, polls, done, goal) && (sources == [] || Expired(q.deadline, polls))
    ensures done == goal.outcomes && visits == goal.visits
    ensures CountersOf(goal.search) == if sources == [] then CountersOf(s) else CountersOf(s).(truncatedSearch := true)
    ensures goal.polls == if sources == [] then polls else polls + 1
  {
    assert done + [] == done;
  }

  /** The record so far, against the ghost search and outcomes it stands for. */
  ghost predicate Recorded(search: ReachabilitySearch, s: Search, done: seq<Outcome>, sinks: seq<Node>) {
    search.facts == AllFacts(done, sinks) && search.counters == CountersOf(s)
  }

  /** Adds one source's facts and counters to the record. */
  function Added(search: ReachabilitySearch, facts: seq<Fact>, evaluated: int, truncated: int, hitBudget: bool): ReachabilitySearch {
    search.(facts := search.facts + facts,
            counters := Counters(search.counters.evaluated + evaluated, search.counters.truncatedPairs + truncated,
                                 search.counters.truncatedSearch || hitBudget))
  }

  lemma RecordStep(search: ReachabilitySearch, s: Search, done: seq<Outcome>, sinks: seq<Node>, one: Run, facts: seq<Fact>,
                   evaluated: int, truncated: int, hitBudget: bool, visits: int, polls: nat)
    requires Recorded(search, s, done, sinks)
    requires SourceDone(one, s, facts, sinks, Counters(evaluated, truncated, hitBudget), visits, polls)
    requires AllFacts(done + one.outcomes, sinks) == AllFacts(done, sinks) + FactsOf(one.outcomes[0], sinks)
    ensures Recorded(Added(search, facts, evaluated, truncated, hitBudget), one.search, done + one.outcomes, sinks)
  {
  }

  method SearchReachabilityFacts(ctx: Context, sources: seq<Node>, sinks: seq<Node>, adjacency: Adjacency, maxSearchNodes: int,
                                 callGraphIncomplete: bool)
    returns (search: ReachabilitySearch)
    modifies ctx
    ensures var r := SearchAll(Plain(sinks, adjacency, maxSearchNodes, callGraphIncomplete, ctx.deadline), sources,
                               old(ctx.polls));
            search == Finding(r, sinks) && ctx.polls == r.polls
  {
    ghost var q := Plain(sinks, adjacency, maxSearchNodes, callGraphIncomplete, ctx.deadline);
    ghost var goal := SourcesFrom(q, sources, EMPTY, 0, ctx.polls);
    var budget := new BfsBudget(maxSearchNodes);
    search := ReachabilitySearch([], Counters(0, 0, false), 0);
    ghost var s, done: seq<Outcome> := EMPTY, [];
    var i := 0;
    while i < |sources|
      invariant 0 <= i <= |sources| && fresh(budget) && budget.max == maxSearchNodes
      invariant Recorded(search, s, done, sinks)
      invariant Underway(q, sources[i..], s, budget.visited, ctx.polls, done, goal)
    {
      ghost var left, visits, polls := sources[i..], budget.visited, ctx.polls;
      assert left[0] == sources[i] && left[1..] == sources[i + 1..];
      var cancelled := ctx.Err();
      if cancelled {
        UnderwayEnds(q, left, s, visits, polls, done, goal);
        search := search.(counters := search.counters.(truncatedSearch := true));
        break;
      }
      UnderwayStep(q, left, s, visits, polls, done, goal);
      ghost var one := OneSource(q, sources[i], s, visits, polls + 1);
      var facts, evaluated, truncated, hitBudget :=
        SearchReachabilitySource(ctx, budget, sources[i], sinks, adjacency, callGraphIncomplete, s);
      RecordStep(search, s, done, sinks, one, facts, evaluated, truncated, hitBudget, budget.visited, ctx.polls);
      search := Added(search, facts, evaluated, truncated, hitBudget);
      s, done := one.search, done + one.outcomes;
      i := i + 1;
    }
    if i == |sources| { UnderwayEnds(q, sources[i..], s, budget.visited, ctx.polls, done, goal); }
    if !search.counters.truncatedSearch {
      var late := ctx.Err();
      if late { search := search.(counters := search.counters.(truncatedSearch := true)); }
    }
    search := search.(nodesVisited := budget.visited);
  }

  // ----- the main results -----

  lemma {:induction false} FactsForHolds(source: Node, sinks: seq<Node>, parents: map<Node, Node>, f: Fact)
    ensures f in FactsFor(source, sinks, parents)
            <==> f.sink in sinks && f.sink in parents && f == FactFor(source, f.sink, PathTo(parents, source, f.sink))
  {
    if sinks != [] {
      FactsForHolds(source, sinks[..|sinks| - 1], parents, f);
      assert forall n :: n in sinks <==> n in sinks[..|sinks| - 1] || n == sinks[|sinks| - 1];
    }
  }

  lemma {:induction false} AllFactsHold(outcomes: seq<Outcome>, sinks: seq<Node>, f: Fact)
    ensures f in AllFacts(outcomes, sinks) <==> exists o | o in outcomes :: f in FactsOf(o, sinks)
  {
    if outcomes != [] {
      AllFactsHold(outcomes[..|outcomes| - 1], sinks, f);
      assert forall o :: o in outcomes <==> o in outcomes[..|outcomes| - 1] || o == outcomes[|outcomes| - 1];
    }
  }

  /** In every run the evaluated and truncated pairs are those of the leading sources that were processed. */
  lemma ReachabilityPairsAccounted(q: Query, sources: seq<Node>, polls: nat)
    ensures var r := SearchAll(q, sources, polls);
            && |r.outcomes| <= |sources| && r.search.evaluated + r.search.truncatedPairs == |r.outcomes| * |q.sinks|
            && (q.max > 0 ==> r.visits <= q.max)
  {
    SourcesAccount(q, sources, EMPTY, 0, polls);
    SourcesOutcomes(q, sources, EMPTY, 0, polls);
  }

  /** A search over a complete call graph that reports no truncation evaluated every pair. */
  lemma UntruncatedSearchIsTotal(q: Query, sources: seq<Node>, polls: nat)
    requires !q.callGraphIncomplete && q.dirsComplete && !SearchAll(q, sources, polls).search.truncatedSearch
    ensures SearchAll(q, sources, polls).search.evaluated == |sources| * |q.sinks|
    ensures SearchAll(q, sources, polls).search.truncatedPairs == 0
    ensures |SearchAll(q, sources, polls).outcomes| == |sources| && AllEvaluated(SearchAll(q, sources, polls).outcomes)
  {
    SourcesAccount(q, sources, EMPTY, 0, polls);
    SourcesOutcomes(q, sources, EMPTY, 0, polls);
    UntruncatedMeansEvaluated(q, sources, EMPTY, 0, polls);
  }

  lemma WholeGraphPaths(facts: set<CallFact>, source: Node, sink: Node, p: seq<Node>)
    ensures PathBetween(AdjacencyOf(facts), source, sink, p) <==> CallPath(facts, source, sink, p)
  {
    forall i | 0 < i < |p| ensures p[i] in Next(AdjacencyOf(facts), p[i - 1]) <==> CallFact(p[i - 1], p[i]) in facts {
      EdgesAreFacts(facts, p[i - 1], p[i]);
    }
  }

  /** Which outcome a fact comes from. */
  lemma OutcomeBehind(q: Query, sources: seq<Node>, polls: nat, f: Fact) returns (o: Outcome)
    requires f in AllFacts(SearchAll(q, sources, polls).outcomes, q.sinks)
    ensures Sound(q, o) && o.source in sources && f in FactsOf(o, q.sinks)
  {
    var outcomes := SearchAll(q, sources, polls).outcomes;
    SourcesOutcomes(q, sources, EMPTY, 0, polls);
    AllFactsHold(outcomes, q.sinks, f);
    var i :| 0 <= i < |outcomes| && f in FactsOf(outcomes[i], q.sinks);
    assert outcomes[i].source == sources[i];
    o := outcomes[i];
  }

  lemma FactIsShortest(q: Query, o: Outcome, f: Fact, p: seq<Node>)
    requires Sound(q, o) && f in FactsOf(o, q.sinks)
    ensures f.source == o.source && f.sink in q.sinks && PathBetween(q.adjacency, f.source, f.sink, f.path)
    ensures PathBetween(q.adjacency, f.source, f.sink, p) ==> |f.path| <= |p|
  {
    FactsForHolds(o.source, q.sinks, o.parents, f);
    assert Backtrack(o.parents, o.source, f.sink, f.path);
  }

  lemma ReachedHasFact(q: Query, o: Outcome, sink: Node, p: seq<Node>)
    requires Sound(q, o) && !o.skipped && sink in q.sinks && PathBetween(q.adjacency, o.source, sink, p)
    ensures FactFor(o.source, sink, PathTo(o.parents, o.source, sink)) in FactsOf(o, q.sinks)
  {
    assert Reachable(q.adjacency, o.source, sink);
    FactsForHolds(o.source, q.sinks, o.parents, FactFor(o.source, sink, PathTo(o.parents, o.source, sink)));
  }

  predicate FactNamed(f: Fact) {
    f.id == "reach:" + f.source + "->" + f.sink + "@go-source-sink-registry@1"
  }

  lemma NamedFact(o: Outcome, sinks: seq<Node>, f: Fact)
    requires f in FactsOf(o, sinks)
    ensures FactNamed(f)
  {
    FactsForHolds(o.source, sinks, o.parents, f);
  }

  /** Every reported fact, however the run ended, shows a shortest call path from its source to its sink. */
  lemma FactShowsShortestPath(facts: set<CallFact>, q: Query, sources: seq<Node>, polls: nat, f: Fact)
    requires q.adjacency == AdjacencyOf(facts) && f in AllFacts(SearchAll(q, sources, polls).outcomes, q.sinks)
    ensures f.source in sources && f.sink in q.sinks && CallPath(facts, f.source, f.sink, f.path)
    ensures FactNamed(f)
    ensures forall p | CallPath(facts, f.source, f.sink, p) :: |f.path| <= |p|
  {
    var o := OutcomeBehind(q, sources, polls, f);
    NamedFact(o, q.sinks, f);
    FactIsShortest(q, o, f, f.path);
    WholeGraphPaths(facts, f.source, f.sink, f.path);
    forall p | CallPath(facts, f.source, f.sink, p) ensures |f.path| <= |p| {
      WholeGraphPaths(facts, f.source, f.sink, p);
      FactIsShortest(q, o, f, p);
    }
  }

  /** An unskipped outcome for a source of a total search. */
  lemma OutcomeFor(q: Query, sources: seq<Node>, polls: nat, source: Node) returns (o: Outcome)
    requires !q.callGraphIncomplete && q.dirsComplete && !SearchAll(q, sources, polls).search.truncatedSearch
    requires source in sources
    ensures o in SearchAll(q, sources, polls).outcomes && Sound(q, o) && !o.skipped && o.source == source
  {
    SourcesOutcomes(q, sources, EMPTY, 0, polls);
    UntruncatedSearchIsTotal(q, sources, polls);
    var i :| 0 <= i < |sources| && sources[i] == source;
    o := SearchAll(q, sources, polls).outcomes[i];
  }

  /** A complete search is exact: a source and a sink have a fact exactly when some call path joins them. */
  lemma CompleteSearchIsExact(facts: set<CallFact>, q: Query, sources: seq<Node>, polls: nat, source: Node, sink: Node)
    requires q.adjacency == AdjacencyOf(facts) && source in sources && sink in q.sinks
    requires !q.callGraphIncomplete && q.dirsComplete && !SearchAll(q, sources, polls).search.truncatedSearch
    ensures (exists f | f in AllFacts(SearchAll(q, sources, polls).outcomes, q.sinks) :: f.source == source && f.sink == sink)
            <==> exists p :: CallPath(facts, source, sink, p)
  {
    var outcomes := SearchAll(q, sources, polls).outcomes;
    if f :| f in AllFacts(outcomes, q.sinks) && f.source == source && f.sink == sink {
      FactShowsShortestPath(facts, q, sources, polls, f);
    }
    if p :| CallPath(facts, source, sink, p) {
      WholeGraphPaths(facts, source, sink, p);
      var o := OutcomeFor(q, sources, polls, source);
      ReachedHasFact(q, o, sink, p);
      AllFactsHold(outcomes, q.sinks, FactFor(source, sink, PathTo(o.parents, source, sink)));
    }
  }
}
