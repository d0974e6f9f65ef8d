/** The layer-bypass search: one breadth-first walk per source over the call graph with the required
    layer deleted, and a witness for every sink a walk still reaches (pkg/projectmodel/go_layer_bypass.go,
    go_layer_bypass_search.go, go_layer_bypass_result.go, layer_bypass_witness_path.go). */
module LayerBypass {
  import opened Ordering
  import opened CallGraph
  import opened ShortestPaths
  import opened LayerMembership

  datatype Position = Position(dir: string, file: string, line: int)

  datatype Step = Step(node: Node, path: string, line: int)

  datatype Witness = Witness(id: string, source: Node, sink: Node, requiredLayer: string, path: seq<Step>,
                             confidence: string, algorithm: string)

  const ALGORITHM := "go-layer-bypass-registry@1"
  const CONFIDENCE_HIGH := "high"

  type Positions = map<Node, Position>

  // ----- the required layer -----

  ghost function LayerNodes(layer: Layer, positions: Positions): set<Node> {
    set n | n in positions && LayerContains(layer, positions[n].dir)
  }

  method RequiredLayerNodeSet(layer: Layer, positions: Positions) returns (nodes: set<Node>)
    ensures nodes == LayerNodes(layer, positions)
  {
    nodes := {};
    var rest := positions.Keys;
    while rest != {}
      invariant rest <= positions.Keys
      invariant nodes == set n | n in positions && n !in rest && LayerContains(layer, positions[n].dir)
    {
      var n :| n in rest;
      if LayerContains(layer, positions[n].dir) { nodes := nodes + {n}; }
      rest := rest - {n};
    }
  }

  // ----- one path -----

  /** Every node but the last has a resolved position. */
  predicate FullyClassified(path: seq<Node>, positions: Positions) {
    forall i | 0 <= i < |path| - 1 :: path[i] in positions
  }

  function StepAt(n: Node, positions: Positions): Step {
    if n in positions then Step(n, positions[n].file, positions[n].line) else Step(n, "", 0)
  }

  ghost function StepsOf(path: seq<Node>, positions: Positions): (steps: seq<Step>)
    ensures |steps| == |path| && forall i | 0 <= i < |path| :: steps[i] == StepAt(path[i], positions)
  {
    seq(|path|, i requires 0 <= i < |path| => StepAt(path[i], positions))
  }

  method LayerBypassSteps(path: seq<Node>, positions: Positions) returns (steps: seq<Step>)
    ensures steps == StepsOf(path, positions)
  {
    steps := [];
    for i := 0 to |path|
      invariant |steps| == i && forall k | 0 <= k < i :: steps[k] == StepAt(path[k], positions)
    {
      steps := steps + [StepAt(path[i], positions)];
    }
  }

  ghost function WitnessFor(source: Node, sink: Node, layer: string, path: seq<Node>, positions: Positions): Witness {
    Witness("bypass:" + layer + ":" + source + "->" + sink + "@" + ALGORITHM, source, sink, layer,
            StepsOf(path, positions), CONFIDENCE_HIGH, ALGORITHM)
  }

  // ----- one source -----

  datatype Search = Search(witnesses: seq<Witness>, evaluated: int, truncatedPairs: int, nodesVisited: int,
                           truncatedSearch: bool, unclassifiedNodeSeen: bool)

  const EMPTY := Search([], 0, 0, 0, false, false)

  ghost function CollectPair(s: Search, source: Node, sink: Node, parents: map<Node, Node>, positions: Positions,
                             layer: string): Search {
    var path := PathTo(parents, source, sink);
    var s' := s.(evaluated := s.evaluated + 1);
    if sink !in parents then s'
    else if !FullyClassified(path, positions) then s'.(unclassifiedNodeSeen := true)
    else s'.(witnesses := s.witnesses + [WitnessFor(source, sink, layer, path, positions)])
  }

  ghost function Collect(s: Search, source: Node, sinks: seq<Node>, parents: map<Node, Node>, positions: Positions,
                         layer: string, skip: bool): Search
    decreases |sinks|
  {
    if sinks == [] then s
    else
      var s' := if skip then s.(truncatedPairs := s.truncatedPairs + 1)
                else CollectPair(s, source, sinks[0], parents, positions, layer);
      Collect(s', source, sinks[1..], parents, positions, layer, skip)
  }

  class LayerBypassSearch {
    var witnesses: seq<Witness>
    var evaluated: int
    var truncatedPairs: int
    var nodesVisited: int
    var truncatedSearch: bool
    var unclassifiedNodeSeen: bool

    ghost function View(): Search
      reads this
    {
      Search(witnesses, evaluated, truncatedPairs, nodesVisited, truncatedSearch, unclassifiedNodeSeen)
    }

    constructor ()
      ensures View() == EMPTY
    {
      witnesses, evaluated, truncatedPairs, nodesVisited := [], 0, 0, 0;
      truncatedSearch, unclassifiedNodeSeen := false, false;
    }

    method CollectWitnesses(source: Node, sinks: seq<Node>, parents: map<Node, Node>, positions: Positions,
                            requiredLayer: string, skip: bool)
      requires Rooted(parents, source)
      modifies this
      ensures View() == Collect(old(View()), source, sinks, parents, positions, requiredLayer, skip)
    {
      ghost var goal := Collect(View(), source, sinks, parents, positions, requiredLayer, skip);
      for i := 0 to |sinks|
        invariant Collect(View(), source, sinks[i..], parents, positions, requiredLayer, skip) == goal
      {
        var sink := sinks[i];
        assert sinks[i..][1..] == sinks[i + 1..];
        if skip {
          truncatedPairs := truncatedPairs + 1;
          continue;
        }
        evaluated := evaluated + 1;
        var path, ok := ReconstructReachabilityPath(parents, source, sink);
        if !ok { continue; }
        PathToIs(parents, source, sink, path);
        if !FullyClassified(path, positions) {
          unclassifiedNodeSeen := true;
          continue;
        }
        var steps := LayerBypassSteps(path, positions);
        witnesses := witnesses + [Witness("bypass:" + requiredLayer + ":" + source + "->" + sink + "@" + ALGORITHM,
                                          source, sink, requiredLayer, steps, CONFIDENCE_HIGH, ALGORITHM)];
      }
    }
  }

  // ----- every source under one budget -----

  datatype Query = Query(sinks: seq<Node>, adjacency: Adjacency, positions: Positions, layer: string, max: int,
                         callGraphIncomplete: bool, dirsComplete: bool, deadline: Deadline)

  /** What became of one source: its parent map, and whether its pairs were skipped. */
  datatype Outcome = Outcome(source: Node, parents: map<Node, Node>, skipped: bool)

  datatype Run = Run(search: Search, visits: int, polls: nat, outcomes: seq<Outcome>)

  /** One source: walk, look at the context unless the walk was stopped, then judge every pair. */
  ghost function OneSource(q: Query, source: Node, s: Search, visits: int, polls: nat): Run {
    var w := WalkFrom(q.adjacency, Start(source), visits, q.max, q.deadline, polls);
    var skip := w.stopped || Expired(q.deadline, w.polls) || q.callGraphIncomplete || !q.dirsComplete;
    var s' := Collect(s.(truncatedSearch := s.truncatedSearch || w.stopped), source, q.sinks,
                      w.frontier.parents, q.positions, q.layer, skip);
    Run(s', w.visits, if w.stopped then w.polls else w.polls + 1, [Outcome(source, w.frontier.parents, skip)])
  }

  ghost function SourcesFrom(q: Query, sources: seq<Node>, s: Search, visits: int, polls: nat): Run
    decreases |sources|
  {
    if sources == [] then Run(s, visits, polls, [])
    else if Expired(q.deadline, polls) then Run(s.(truncatedSearch := true), visits, polls + 1, [])
    else
      var one := OneSource(q, sources[0], s, visits, polls + 1);
      var rest := SourcesFrom(q, sources[1..], one.search, one.visits, one.polls);
      rest.(outcomes := one.outcomes + rest.outcomes)
  }

  /** The whole search: the sources in turn, then one last look at the context. */
  ghost function SearchAll(q: Query, sources: seq<Node>, polls: nat): Run {
    var r := SourcesFrom(q, sources, EMPTY, 0, polls);
    var late := !r.search.truncatedSearch && Expired(q.deadline, r.polls);
    r.(search := r.search.(truncatedSearch := r.search.truncatedSearch || late, nodesVisited := r.visits),
       polls := if r.search.truncatedSearch then r.polls else r.polls + 1)
  }

  method SearchLayerBypassWitnesses(ctx: Context, sources: seq<Node>, sinks: seq<Node>, bypassAdjacency: Adjacency,
                                    positions: Positions, requiredLayer: string, maxSearchNodes: int,
                                    callGraphIncomplete: bool, dirsComplete: bool, ambiguousLayer: bool)
    returns (search: LayerBypassSearch)
    modifies ctx
    ensures fresh(search)
    ensures ambiguousLayer ==> search.View() == EMPTY.(truncatedPairs := |sources| * |sinks|, truncatedSearch := true)
    ensures !ambiguousLayer ==>
              var q := Query(sinks, bypassAdjacency, positions, requiredLayer, maxSearchNodes, callGraphIncomplete,
                             dirsComplete, ctx.deadline);
              var r := SearchAll(q, sources, old(ctx.polls));
              search.View() == r.search && ctx.polls == r.polls
  {
    search := new LayerBypassSearch();
    if ambiguousLayer {
      search.truncatedPairs := |sources| * |sinks|;
      search.truncatedSearch := true;
      return;
    }
    var budget := new BfsBudget(maxSearchNodes);
    ghost var q := Query(sinks, bypassAdjacency, positions, requiredLayer, maxSearchNodes, callGraphIncomplete,
                         dirsComplete, ctx.deadline);
    ghost var goal := SourcesFrom(q, sources, EMPTY, 0, ctx.polls);
    var i := 0;
    while i < |sources|
      invariant 0 <= i <= |sources| && fresh(budget) && fresh(search) && budget.max == maxSearchNodes
      invariant SameEnd(SourcesFrom(q, sources[i..], search.View(), budget.visited, ctx.polls), goal)
    {
      assert sources[i..][1..] == sources[i + 1..];
      var cancelled := ctx.Err();
      if cancelled {
        search.truncatedSearch := true;
        break;
      }
      SearchSource(ctx, budget, search, sources[i], sinks, bypassAdjacency, positions, requiredLayer,
                   callGraphIncomplete, dirsComplete);
      i := i + 1;
    }
    assert SameEnd(Run(search.View(), budget.visited, ctx.polls, []), goal);
    if !search.truncatedSearch {
      var late := ctx.Err();
      if late { search.truncatedSearch := true; }
    }
    search.nodesVisited := budget.visited;
  }

  /** The loop body: one source's walk and its pairs. */
  method SearchSource(ctx: Context, budget: BfsBudget, search: LayerBypassSearch, source: Node, sinks: seq<Node>,
                      bypassAdjacency: Adjacency, positions: Positions, requiredLayer: string,
                      callGraphIncomplete: bool, dirsComplete: bool)
    modifies ctx, budget, search
    ensures var q := Query(sinks, bypassAdjacency, positions, requiredLayer, budget.max, callGraphIncomplete,
                           dirsComplete, ctx.deadline);
            SameEnd(Run(search.View(), budget.visited, ctx.polls, []),
                    OneSource(q, source, old(search.View()), old(budget.visited), old(ctx.polls)))
  {
    ghost var visits, polls := budget.visited, ctx.polls;
    var parents, hitBudget := budget.ShortestPaths(ctx, source, bypassAdjacency);
    WalkLeavesTree(bypassAdjacency, source, visits, budget.max, ctx.deadline, polls);
    if hitBudget { search.truncatedSearch := true; }
    var skip := hitBudget;
    if !skip { skip := ctx.Err(); }
    skip := skip || callGraphIncomplete || !dirsComplete;
    search.CollectWitnesses(source, sinks, parents, positions, requiredLayer, skip);
  }

  ghost predicate SameEnd(r: Run, goal: Run) {
    r.search == goal.search && r.visits == goal.visits && r.polls == goal.polls
  }
}
