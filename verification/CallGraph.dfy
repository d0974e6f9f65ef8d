/** Call facts as an adjacency map, and the map with a layer's nodes deleted
    (pkg/projectmodel/callgraph_adjacency.go). */
module CallGraph {
  import opened Filtering
  import opened Ordering

  type Node = string

  datatype CallFact = CallFact(from: Node, to: Node)

  type Adjacency = map<Node, seq<Node>>

  /** A missing key reads as the empty neighbour list, as in Go. */
  function Next(adj: Adjacency, n: Node): seq<Node> {
    if n in adj then adj[n] else []
  }

  predicate Edge(adj: Adjacency, a: Node, b: Node) {
    b in Next(adj, a)
  }

  /** A non-empty walk along the edges of `adj`. */
  ghost predicate IsPath(adj: Adjacency, p: seq<Node>) {
    p != [] && forall i | 0 < i < |p| :: p[i] in Next(adj, p[i - 1])
  }

  ghost predicate PathBetween(adj: Adjacency, source: Node, sink: Node, p: seq<Node>) {
    IsPath(adj, p) && p[0] == source && p[|p| - 1] == sink
  }

  /** The same, stated on the call facts themselves. */
  ghost predicate CallPath(facts: set<CallFact>, source: Node, sink: Node, p: seq<Node>) {
    && p != [] && p[0] == source && p[|p| - 1] == sink
    && forall i | 0 < i < |p| :: CallFact(p[i - 1], p[i]) in facts
  }

  ghost predicate Avoids(p: seq<Node>, removed: set<Node>) {
    forall n | n in p :: n !in removed
  }

  // ----- sorted key listings -----

  ghost function SortedNodes(s: set<Node>): seq<Node> {
    SortedSet(CompareText, s)
  }

  lemma SortedNodesHolds(s: set<Node>)
    ensures Ascending(CompareText, SortedNodes(s))
    ensures multiset(SortedNodes(s)) == multiset(s)
    ensures forall n :: n in SortedNodes(s) <==> n in s
  {
    TextLaws();
    SortedSetHolds(CompareText, s);
  }

  method MapKeysSorted(keys: set<Node>) returns (out: seq<Node>)
    ensures out == SortedNodes(keys)
  {
    TextLaws();
    out := KeysSorted(CompareText, keys);
  }

  // ----- building the adjacency -----

  ghost function FactSet(facts: seq<CallFact>): set<CallFact> {
    set f | f in facts
  }

  ghost function Callers(facts: set<CallFact>): set<Node> {
    set f | f in facts :: f.from
  }

  ghost function Callees(facts: set<CallFact>, n: Node): set<Node> {
    set f | f in facts && f.from == n :: f.to
  }

  /** The sorted, deduplicated adjacency: a function of the SET of facts. */
  ghost function AdjacencyOf(facts: set<CallFact>): Adjacency {
    map n | n in Callers(facts) :: SortedNodes(Callees(facts, n))
  }

  lemma EdgesAreFacts(facts: set<CallFact>, a: Node, b: Node)
    ensures b in Next(AdjacencyOf(facts), a) <==> CallFact(a, b) in facts
  {
    SortedNodesHolds(Callees(facts, a));
    assert b in Callees(facts, a) <==> CallFact(a, b) in facts;
    if CallFact(a, b) in facts { assert CallFact(a, b).from in Callers(facts); }
  }

  lemma OneMoreFact(facts: seq<CallFact>, i: nat)
    requires i < |facts|
    ensures var before, after, f := FactSet(facts[..i]), FactSet(facts[..i + 1]), facts[i];
            && Callers(after) == Callers(before) + {f.from}
            && (forall n :: Callees(after, n) == Callees(before, n) + if n == f.from then {f.to} else {})
            && (f.from !in Callers(before) ==> Callees(before, f.from) == {})
  {
    assert facts[..i + 1] == facts[..i] + [facts[i]];
    var before, after := FactSet(facts[..i]), FactSet(facts[..i + 1]);
    assert after == before + {facts[i]};
  }

  /** The first loop: each caller's set of callees. */
  method CollectCallees(facts: seq<CallFact>) returns (callees: map<Node, set<Node>>)
    ensures callees.Keys == Callers(FactSet(facts))
    ensures forall n | n in callees :: callees[n] == Callees(FactSet(facts), n)
  {
    callees := map[];
    for i := 0 to |facts|
      invariant callees.Keys == Callers(FactSet(facts[..i]))
      invariant forall n | n in callees :: callees[n] == Callees(FactSet(facts[..i]), n)
    {
      var f := facts[i];
      OneMoreFact(facts, i);
      if f.from !in callees { callees := callees[f.from := {}]; }
      callees := callees[f.from := callees[f.from] + {f.to}];
    }
    assert facts[..|facts|] == facts;
  }

  /** The second loop: each set as a sorted list. */
  method SortCallees(callees: map<Node, set<Node>>) returns (adjacency: Adjacency)
    ensures adjacency.Keys == callees.Keys && forall n | n in adjacency :: adjacency[n] == SortedNodes(callees[n])
  {
    adjacency := map[];
    var rest := callees.Keys;
    while rest != {}
      invariant rest <= callees.Keys && adjacency.Keys == callees.Keys - rest
      invariant forall n | n in adjacency :: adjacency[n] == SortedNodes(callees[n])
    {
      var n :| n in rest;
      var sorted := MapKeysSorted(callees[n]);
      adjacency := adjacency[n := sorted];
      rest := rest - {n};
    }
  }

  method BuildAdjacency(facts: seq<CallFact>) returns (adjacency: Adjacency)
    ensures adjacency == AdjacencyOf(FactSet(facts))
  {
    var callees := CollectCallees(facts);
    adjacency := SortCallees(callees);
  }

  // ----- deleting nodes -----

  lemma KeptMembers(tos: seq<Node>, removed: set<Node>, n: Node)
    ensures n in Outside(tos, removed) <==> n in tos && n !in removed
  {
    FilterCounts(x => x !in removed, tos, n);
  }

  method KeptNeighbors(tos: seq<Node>, removed: set<Node>) returns (kept: seq<Node>)
    ensures kept == Outside(tos, removed)
  {
    kept := [];
    for i := 0 to |tos|
      invariant kept == Outside(tos[..i], removed)
    {
      assert tos[..i + 1][..i] == tos[..i];
      if tos[i] in removed { continue; }
      kept := kept + [tos[i]];
    }
    assert tos[..|tos|] == tos;
  }

  ghost function Without(adj: Adjacency, removed: set<Node>): Adjacency {
    map n | n in adj && n !in removed && Outside(adj[n], removed) != [] :: Outside(adj[n], removed)
  }

  method RemoveLayerNodes(adj: Adjacency, removed: set<Node>) returns (out: Adjacency)
    ensures out == Without(adj, removed)
  {
    out := map[];
    var rest := adj.Keys;
    while rest != {}
      invariant rest <= adj.Keys
      invariant out == map n | n in Without(adj, removed) && n !in rest :: Without(adj, removed)[n]
    {
      var from :| from in rest;
      rest := rest - {from};
      if from in removed { continue; }
      var kept := KeptNeighbors(adj[from], removed);
      if |kept| > 0 { out := out[from := kept]; }
    }
  }

  /** Exactly the edges that touch no removed node survive. */
  lemma WithoutEdges(adj: Adjacency, removed: set<Node>, a: Node, b: Node)
    ensures b in Next(Without(adj, removed), a) <==> b in Next(adj, a) && a !in removed && b !in removed
  {
    KeptMembers(Next(adj, a), removed, b);
  }

  /** A call path survives the deletion exactly when it avoids every removed node, the one
      exception being the single-node path, which has no edge to lose. */
  lemma PathsAvoidRemoved(facts: set<CallFact>, removed: set<Node>, source: Node, sink: Node, p: seq<Node>)
    ensures PathBetween(Without(AdjacencyOf(facts), removed), source, sink, p) <==>
            CallPath(facts, source, sink, p) && (|p| == 1 || Avoids(p, removed))
  {
    var adj := AdjacencyOf(facts);
    var cut := Without(adj, removed);
    forall i | 0 < i < |p|
      ensures p[i] in Next(cut, p[i - 1]) <==>
              CallFact(p[i - 1], p[i]) in facts && p[i - 1] !in removed && p[i] !in removed
    {
      EdgesAreFacts(facts, p[i - 1], p[i]);
      WithoutEdges(adj, removed, p[i - 1], p[i]);
    }
    if PathBetween(cut, source, sink, p) && |p| > 1 {
      forall n | n in p ensures n !in removed {
        var i :| 0 <= i < |p| && p[i] == n;
        if i == 0 { assert p[1] in Next(cut, p[0]); } else { assert p[i] in Next(cut, p[i - 1]); }
      }
    }
  }
}
