/** Breadth-first search under a node budget shared by every source
    (pkg/projectmodel/callgraph_shortest_paths.go). */
module ShortestPaths {
  import opened Ordering
  import opened CallGraph

  // ----- cancellation -----

  /** `ctx.Err() != nil` as a monotone oracle: false until `deadline` polls were made, true ever
      after, and never true when there is no deadline. */
  datatype Deadline = Never | After(polls: nat)

  predicate Expired(deadline: Deadline, polls: nat) {
    deadline.After? && polls >= deadline.polls
  }

  class Context {
    const deadline: Deadline
    var polls: nat

    constructor (deadline: Deadline)
      ensures this.deadline == deadline && polls == 0
    {
      this.deadline := deadline;
      polls := 0;
    }

    method Err() returns (done: bool)
      modifies this
      ensures done == Expired(deadline, old(polls)) && polls == old(polls) + 1
    {
      done := Expired(deadline, polls);
      polls := polls + 1;
    }
  }

  // ----- the walk as a function -----

  /** `parents` doubles as the visited set: both maps always have the same keys. */
  datatype Frontier = Frontier(parents: map<Node, Node>, queue: seq<Node>)

  function Discover(f: Frontier, next: Node, node: Node): Frontier {
    if next in f.parents then f
    else Frontier(f.parents[next := node], f.queue + [next])
  }

  function Enqueued(f: Frontier, nexts: seq<Node>, node: Node): Frontier
    decreases |nexts|
  {
    if nexts == [] then f else Enqueued(Discover(f, nexts[0], node), nexts[1..], node)
  }

  function Start(source: Node): Frontier {
    Frontier(map[source := ""], [source])
  }

  function Dequeued(adj: Adjacency, f: Frontier): Frontier
    requires f.queue != []
  {
    Enqueued(Frontier(f.parents, f.queue[1..]), Next(adj, f.queue[0]), f.queue[0])
  }

  ghost function Targets(adj: Adjacency): set<Node> {
    set n, m | n in adj && m in adj[n] :: m
  }

  ghost function Fresh(adj: Adjacency, f: Frontier): set<Node> {
    Targets(adj) - f.parents.Keys
  }

  lemma DiscoverShrinks(adj: Adjacency, f: Frontier, next: Node, node: Node)
    requires next in Targets(adj)
    ensures var f' := Discover(f, next, node);
            f' == f || |Fresh(adj, f')| < |Fresh(adj, f)|
  {
    if next !in f.parents { assert Fresh(adj, Discover(f, next, node)) == Fresh(adj, f) - {next}; }
  }

  lemma {:induction false} EnqueuedShrinks(adj: Adjacency, f: Frontier, nexts: seq<Node>, node: Node)
    requires forall m | m in nexts :: m in Targets(adj)
    ensures var f' := Enqueued(f, nexts, node);
            f' == f || |Fresh(adj, f')| < |Fresh(adj, f)|
    decreases |nexts|
  {
    if nexts != [] {
      var f' := Discover(f, nexts[0], node);
      assert nexts[0] in nexts;
      EnqueuedShrinks(adj, f', nexts[1..], node);
      DiscoverShrinks(adj, f, nexts[0], node);
    }
  }

  lemma DequeuedShrinks(adj: Adjacency, f: Frontier)
    requires f.queue != []
    ensures var f' := Dequeued(adj, f);
            |Fresh(adj, f')| < |Fresh(adj, f)| || (Fresh(adj, f') == Fresh(adj, f) && |f'.queue| < |f.queue|)
  {
    EnqueuedShrinks(adj, Frontier(f.parents, f.queue[1..]), Next(adj, f.queue[0]), f.queue[0]);
  }

  datatype Walk = Walk(frontier: Frontier, stopped: bool, visits: int, polls: nat)

  /** The walk from frontier `f`: each round polls the context, then the budget, then dequeues. */
  function WalkFrom(adj: Adjacency, f: Frontier, visits: int, max: int, deadline: Deadline, polls: nat): Walk
    decreases |Fresh(adj, f)|, |f.queue|
  {
    if f.queue == [] then Walk(f, false, visits, polls)
    else if Expired(deadline, polls) then Walk(f, true, visits, polls + 1)
    else if max > 0 && visits >= max then Walk(f, true, visits, polls + 1)
    else
      DequeuedShrinks(adj, f);
      WalkFrom(adj, Dequeued(adj, f), visits + 1, max, deadline, polls + 1)
  }

  /** What the next round does not stop at. */
  predicate GoesOn(f: Frontier, visits: int, max: int, deadline: Deadline, polls: nat) {
    f.queue != [] && !Expired(deadline, polls) && !(max > 0 && visits >= max)
  }

  lemma WalkStep(adj: Adjacency, f: Frontier, visits: int, max: int, deadline: Deadline, polls: nat)
    requires GoesOn(f, visits, max, deadline, polls)
    ensures WalkFrom(adj, f, visits, max, deadline, polls)
            == WalkFrom(adj, Dequeued(adj, f), visits + 1, max, deadline, polls + 1)
  {
  }

  lemma WalkStops(adj: Adjacency, f: Frontier, visits: int, max: int, deadline: Deadline, polls: nat)
    requires !GoesOn(f, visits, max, deadline, polls)
    ensures WalkFrom(adj, f, visits, max, deadline, polls)
            == if f.queue == [] then Walk(f, false, visits, polls) else Walk(f, true, visits, polls + 1)
  {
  }

  // ----- the imperative walk -----

  /** What a caller sees of a walk. */
  predicate Ends(w: Walk, parents: map<Node, Node>, stopped: bool, visits: int, polls: nat) {
    w.frontier.parents == parents && w.stopped == stopped && w.visits == visits && w.polls == polls
  }

  class BfsFrontier {
    var parents: map<Node, Node>
    var visited: set<Node>
    var queue: seq<Node>

    ghost function View(): Frontier
      reads this
    {
      Frontier(parents, queue)
    }

    constructor (source: Node)
      ensures visited == parents.Keys && View() == Start(source)
    {
      parents, visited, queue := map[source := ""], {source}, [source];
    }

    method Enqueue(nexts: seq<Node>, node: Node)
      requires visited == parents.Keys
      modifies this
      ensures visited == parents.Keys
      ensures View() == Enqueued(old(View()), nexts, node)
    {
      ghost var goal := Enqueued(View(), nexts, node);
      for i := 0 to |nexts|
        invariant visited == parents.Keys
        invariant Enqueued(View(), nexts[i..], node) == goal
      {
        var next := nexts[i];
        assert nexts[i..][1..] == nexts[i + 1..];
        if next in visited { continue; }
        visited := visited + {next};
        parents := parents[next := node];
        queue := queue + [next];
      }
    }

    /** The end of a round: the first node leaves the queue and its neighbours enter. */
    method VisitNext(adjacency: Adjacency)
      requires visited == parents.Keys && queue != []
      modifies this
      ensures visited == parents.Keys
      ensures View() == Dequeued(adjacency, old(View()))
    {
      var node := queue[0];
      queue := queue[1..];
      Enqueue(Next(adjacency, node), node);
    }
  }

  class BfsBudget {
    var visited: int
    const max: int

    constructor (max: int)
      ensures visited == 0 && this.max == max
    {
      visited := 0;
      this.max := max;
    }

    /** One round of the loop: stops at a cancelled context or a spent budget, else visits the next node. */
    method Round(ctx: Context, frontier: BfsFrontier, adjacency: Adjacency) returns (stop: bool)
      requires frontier.visited == frontier.parents.Keys && frontier.queue != []
      modifies this, ctx, frontier
      ensures frontier.visited == frontier.parents.Keys && ctx.polls == old(ctx.polls) + 1
      ensures stop <==> !GoesOn(old(frontier.View()), old(visited), max, ctx.deadline, old(ctx.polls))
      ensures visited == if stop then old(visited) else old(visited) + 1
      ensures frontier.View() == if stop then old(frontier.View()) else Dequeued(adjacency, old(frontier.View()))
    {
      var cancelled := ctx.Err();
      if cancelled { return true; }
      if max > 0 && visited >= max { return true; }
      visited := visited + 1;
      frontier.VisitNext(adjacency);
      return false;
    }

    method ShortestPaths(ctx: Context, source: Node, adjacency: Adjacency)
      returns (parents: map<Node, Node>, stopped: bool)
      modifies this, ctx
      ensures Ends(WalkFrom(adjacency, Start(source), old(visited), max, ctx.deadline, old(ctx.polls)),
                   parents, stopped, visited, ctx.polls)
    {
      var frontier := new BfsFrontier(source);
      ghost var goal := WalkFrom(adjacency, Start(source), visited, max, ctx.deadline, ctx.polls);
      while |frontier.queue| > 0
        invariant fresh(frontier) && frontier.visited == frontier.parents.Keys
        invariant goal == WalkFrom(adjacency, frontier.View(), visited, max, ctx.deadline, ctx.polls)
        decreases |Fresh(adjacency, frontier.View())|, |frontier.queue|
      {
        ghost var f, visits, polls := frontier.View(), visited, ctx.polls;
        var stop := Round(ctx, frontier, adjacency);
        if stop {
          WalkStops(adjacency, f, visits, max, ctx.deadline, polls);
          return frontier.parents, true;
        }
        WalkStep(adjacency, f, visits, max, ctx.deadline, polls);
        DequeuedShrinks(adjacency, f);
      }
      WalkStops(adjacency, frontier.View(), visited, max, ctx.deadline, ctx.polls);
      return frontier.parents, false;
    }
  }

  // ----- what a walk finds -----

  /** `parents` is a breadth-first tree of `adj` rooted at `source`, and `dist` its depths. */
  ghost predicate Tree(adj: Adjacency, source: Node, parents: map<Node, Node>, dist: map<Node, nat>) {
    && parents.Keys == dist.Keys && source in dist && dist[source] == 0
    && forall n | n in parents && n != source ::
         parents[n] in dist && n in Next(adj, parents[n]) && dist[n] == dist[parents[n]] + 1
  }

  /** Nothing lies deeper than `d + 1`, and the queue runs through depths `d` and `d + 1` in order. */
  ghost predicate Layered(adj: Adjacency, source: Node, f: Frontier, dist: map<Node, nat>, d: nat) {
    && Tree(adj, source, f.parents, dist)
    && (forall n | n in dist :: dist[n] <= d + 1)
    && (forall i | 0 <= i < |f.queue| :: f.queue[i] in dist && d <= dist[f.queue[i]])
    && (forall i, j | 0 <= i < j < |f.queue| :: dist[f.queue[i]] <= dist[f.queue[j]])
  }

  /** Every neighbour of a processed node was discovered, at most one level deeper. */
  ghost predicate ClosedUnder(adj: Adjacency, done: set<Node>, dist: map<Node, nat>) {
    forall v, w | v in done && Edge(adj, v, w) :: v in dist && w in dist && dist[w] <= dist[v] + 1
  }

  ghost predicate Searching(adj: Adjacency, source: Node, f: Frontier, done: set<Node>, dist: map<Node, nat>) {
    && Tree(adj, source, f.parents, dist)
    && (forall n | n in dist :: n in done || n in f.queue)
    && ClosedUnder(adj, done, dist)
    && (f.queue != [] ==> f.queue[0] in dist && Layered(adj, source, f, dist, dist[f.queue[0]]))
  }

  ghost predicate Extends(dist: map<Node, nat>, dist': map<Node, nat>) {
    forall n | n in dist :: n in dist' && dist'[n] == dist[n]
  }

  lemma DiscoverLayers(adj: Adjacency, source: Node, f: Frontier, next: Node, node: Node, dist: map<Node, nat>)
    requires node in dist && Layered(adj, source, f, dist, dist[node])
    requires next in Next(adj, node) && next !in f.parents
    ensures Layered(adj, source, Discover(f, next, node), dist[next := dist[node] + 1], dist[node])
  {
    var f1, dist1 := Discover(f, next, node), dist[next := dist[node] + 1];
    assert Tree(adj, source, f1.parents, dist1);
    forall i | 0 <= i < |f1.queue|
      ensures f1.queue[i] in dist1
      ensures dist1[f1.queue[i]] == if i < |f.queue| then dist[f.queue[i]] else dist[node] + 1
    {
      if i < |f.queue| { assert f1.queue[i] == f.queue[i]; }
    }
  }

  lemma {:induction false} EnqueuedLayers(adj: Adjacency, source: Node, f: Frontier, nexts: seq<Node>, node: Node,
                                          dist: map<Node, nat>)
    returns (dist': map<Node, nat>)
    requires node in dist && Layered(adj, source, f, dist, dist[node])
    requires forall m | m in nexts :: m in Next(adj, node)
    ensures Extends(dist, dist') && Layered(adj, source, Enqueued(f, nexts, node), dist', dist[node])
    ensures f.queue <= Enqueued(f, nexts, node).queue
    ensures forall n | n in dist' :: n in dist || n in Enqueued(f, nexts, node).queue
    ensures forall m | m in nexts :: m in dist'
    decreases |nexts|
  {
    if nexts == [] {
      dist' := dist;
    } else {
      var next := nexts[0];
      assert next in nexts;
      var f1 := Discover(f, next, node);
      var dist1 := if next in f.parents then dist else dist[next := dist[node] + 1];
      if next !in f.parents { DiscoverLayers(adj, source, f, next, node, dist); }
      dist' := EnqueuedLayers(adj, source, f1, nexts[1..], node, dist1);
      var f' := Enqueued(f1, nexts[1..], node);
      if next !in f.parents { assert f'.queue[|f.queue|] == next; }
      forall m | m in nexts ensures m in dist' { assert m == next || m in nexts[1..]; }
    }
  }

  /** Once its head is dequeued the queue is still layered at the head's depth. */
  lemma RestLayers(adj: Adjacency, source: Node, f: Frontier, dist: map<Node, nat>)
    requires f.queue != [] && f.queue[0] in dist && Layered(adj, source, f, dist, dist[f.queue[0]])
    ensures Layered(adj, source, Frontier(f.parents, f.queue[1..]), dist, dist[f.queue[0]])
  {
  }

  /** A layered queue is layered at its own head. */
  lemma HeadLayers(adj: Adjacency, source: Node, f: Frontier, dist: map<Node, nat>, d: nat)
    requires Layered(adj, source, f, dist, d) && f.queue != []
    ensures f.queue[0] in dist && Layered(adj, source, f, dist, dist[f.queue[0]])
  {
  }

  lemma DequeuedSearches(adj: Adjacency, source: Node, f: Frontier, done: set<Node>, dist: map<Node, nat>)
    returns (dist': map<Node, nat>)
    requires Searching(adj, source, f, done, dist) && f.queue != []
    ensures Searching(adj, source, Dequeued(adj, f), done + {f.queue[0]}, dist')
  {
    var v := f.queue[0];
    var rest := Frontier(f.parents, f.queue[1..]);
    RestLayers(adj, source, f, dist);
    dist' := EnqueuedLayers(adj, source, rest, Next(adj, v), v, dist);
    var f' := Dequeued(adj, f);
    if f'.queue != [] { HeadLayers(adj, source, f', dist', dist[v]); }
    NothingLost(f, f', done, dist, dist');
    StillClosed(adj, done, v, dist, dist');
  }

  lemma NothingLost(f: Frontier, f': Frontier, done: set<Node>, dist: map<Node, nat>, dist': map<Node, nat>)
    requires f.queue != [] && f.queue[1..] <= f'.queue
    requires forall n | n in dist :: n in done || n in f.queue
    requires forall n | n in dist' :: n in dist || n in f'.queue
    ensures forall n | n in dist' :: n in done + {f.queue[0]} || n in f'.queue
  {
    assert f.queue == [f.queue[0]] + f.queue[1..];
  }

  lemma StillClosed(adj: Adjacency, done: set<Node>, v: Node, dist: map<Node, nat>, dist': map<Node, nat>)
    requires ClosedUnder(adj, done, dist) && Extends(dist, dist') && v in dist
    requires forall w | Edge(adj, v, w) :: w in dist'
    requires forall n | n in dist' :: dist'[n] <= dist[v] + 1
    ensures ClosedUnder(adj, done + {v}, dist')
  {
    forall u, w | u in done + {v} && Edge(adj, u, w)
      ensures u in dist' && w in dist' && dist'[w] <= dist'[u] + 1
    {
      if u in done { assert u in dist && w in dist && dist[w] <= dist[u] + 1; }
    }
  }

  lemma {:induction false} WalkSearches(adj: Adjacency, source: Node, f: Frontier, visits: int, max: int,
                                        deadline: Deadline, polls: nat, done: set<Node>, dist: map<Node, nat>)
    returns (w: Walk, done': set<Node>, dist': map<Node, nat>)
    requires Searching(adj, source, f, done, dist)
    ensures w == WalkFrom(adj, f, visits, max, deadline, polls)
    ensures !w.stopped ==> w.frontier.queue == []
    ensures Searching(adj, source, w.frontier, done', dist')
    decreases |Fresh(adj, f)|, |f.queue|
  {
    if GoesOn(f, visits, max, deadline, polls) {
      DequeuedShrinks(adj, f);
      WalkStep(adj, f, visits, max, deadline, polls);
      var dist1 := DequeuedSearches(adj, source, f, done, dist);
      w, done', dist' := WalkSearches(adj, source, Dequeued(adj, f), visits + 1, max, deadline, polls + 1,
                                      done + {f.queue[0]}, dist1);
    } else {
      WalkStops(adj, f, visits, max, deadline, polls);
      w, done', dist' := WalkFrom(adj, f, visits, max, deadline, polls), done, dist;
    }
  }

  /** A path can only go one level deeper per step. */
  lemma {:induction false} PathsStayClose(adj: Adjacency, source: Node, done: set<Node>, dist: map<Node, nat>,
                                          p: seq<Node>, k: nat)
    requires dist.Keys <= done && ClosedUnder(adj, done, dist) && source in dist && dist[source] == 0
    requires IsPath(adj, p) && p[0] == source && k < |p|
    ensures p[k] in dist && dist[p[k]] <= k
  {
    if k > 0 {
      PathsStayClose(adj, source, done, dist, p, k - 1);
      assert Edge(adj, p[k - 1], p[k]);
    }
  }

  // ----- reconstruction -----

  /** Following `parents` from `sink` visits `p` backwards and stops at the first `source`. */
  ghost predicate Backtrack(parents: map<Node, Node>, source: Node, sink: Node, p: seq<Node>) {
    && p != [] && p[0] == source && p[|p| - 1] == sink
    && forall i | 0 < i < |p| :: p[i] in parents && p[i] != source && parents[p[i]] == p[i - 1]
  }

  ghost predicate Ranked(parents: map<Node, Node>, source: Node, rank: map<Node, nat>) {
    && parents.Keys == rank.Keys && source in rank
    && forall n | n in parents && n != source :: parents[n] in rank && rank[parents[n]] < rank[n]
  }

  /** Parent chains lead to `source` without a cycle. */
  ghost predicate Rooted(parents: map<Node, Node>, source: Node) {
    exists rank :: Ranked(parents, source, rank)
  }

  lemma {:induction false} BacktrackUnique(parents: map<Node, Node>, source: Node, sink: Node, p: seq<Node>, q: seq<Node>)
    requires Backtrack(parents, source, sink, p) && Backtrack(parents, source, sink, q)
    ensures p == q
    decreases |p|
  {
    if |p| == 1 || |q| == 1 {
      assert sink == source;
    } else {
      var p', q' := p[..|p| - 1], q[..|q| - 1];
      BacktrackUnique(parents, source, parents[sink], p', q');
      assert p == p' + [sink] && q == q' + [sink];
    }
  }

  lemma {:induction false} TreePath(adj: Adjacency, source: Node, parents: map<Node, Node>, dist: map<Node, nat>, n: Node)
    returns (p: seq<Node>)
    requires Tree(adj, source, parents, dist) && n in dist
    ensures Backtrack(parents, source, n, p) && PathBetween(adj, source, n, p) && |p| == dist[n] + 1
    decreases dist[n]
  {
    if n == source {
      p := [source];
    } else {
      var q := TreePath(adj, source, parents, dist, parents[n]);
      p := q + [n];
      LongerPath(adj, source, parents, q, n);
    }
  }

  lemma LongerPath(adj: Adjacency, source: Node, parents: map<Node, Node>, q: seq<Node>, n: Node)
    requires n in parents && n != source && Edge(adj, parents[n], n)
    requires Backtrack(parents, source, parents[n], q) && PathBetween(adj, source, parents[n], q)
    ensures Backtrack(parents, source, n, q + [n]) && PathBetween(adj, source, n, q + [n])
  {
    var p := q + [n];
    forall i | 0 < i < |p| ensures p[i] in parents && p[i] != source && parents[p[i]] == p[i - 1] && p[i] in Next(adj, p[i - 1]) {
      if i < |q| { assert q[i] in Next(adj, q[i - 1]); }
    }
  }

  method ReconstructReachabilityPath(parents: map<Node, Node>, source: Node, sink: Node)
    returns (steps: seq<Node>, ok: bool)
    requires Rooted(parents, source)
    ensures ok <==> sink in parents
    ensures ok ==> Backtrack(parents, source, sink, steps)
  {
    if sink !in parents { return [], false; }
    ghost var rank :| Ranked(parents, source, rank);
    var nodes := [sink];
    var cur := sink;
    while cur != source
      invariant cur in rank && Climb(parents, source, sink, nodes) && nodes[|nodes| - 1] == cur
      decreases rank[cur]
    {
      ClimbStep(parents, source, sink, nodes);
      cur := parents[cur];
      nodes := nodes + [cur];
    }
    steps := Reversed(nodes);
    ClimbReversed(parents, source, sink, nodes, steps);
    return steps, true;
  }

  /** The nodes collected so far on the way up from `sink`. */
  ghost predicate Climb(parents: map<Node, Node>, source: Node, sink: Node, nodes: seq<Node>) {
    && nodes != [] && nodes[0] == sink
    && forall i | 0 <= i < |nodes| - 1 :: nodes[i] in parents && nodes[i] != source && parents[nodes[i]] == nodes[i + 1]
  }

  lemma ClimbStep(parents: map<Node, Node>, source: Node, sink: Node, nodes: seq<Node>)
    requires Climb(parents, source, sink, nodes)
    requires nodes[|nodes| - 1] in parents && nodes[|nodes| - 1] != source
    ensures Climb(parents, source, sink, nodes + [parents[nodes[|nodes| - 1]]])
  {
  }

  lemma ClimbReversed(parents: map<Node, Node>, source: Node, sink: Node, nodes: seq<Node>, steps: seq<Node>)
    requires Climb(parents, source, sink, nodes) && nodes[|nodes| - 1] == source
    requires |steps| == |nodes| && forall i | 0 <= i < |steps| :: steps[i] == nodes[|nodes| - 1 - i]
    ensures Backtrack(parents, source, sink, steps)
  {
    forall i | 0 < i < |steps| ensures steps[i] in parents && steps[i] != source && parents[steps[i]] == steps[i - 1] {
      var j := |nodes| - 1 - i;
      assert nodes[j] in parents && nodes[j] != source && parents[nodes[j]] == nodes[j + 1];
    }
  }

  method Reversed(nodes: seq<Node>) returns (steps: seq<Node>)
    ensures |steps| == |nodes| && forall i | 0 <= i < |steps| :: steps[i] == nodes[|nodes| - 1 - i]
  {
    var buffer := new Node[|nodes|];
    for i := 0 to |nodes|
      invariant forall k | |nodes| - i <= k < |nodes| :: buffer[k] == nodes[|nodes| - 1 - k]
    {
      buffer[|nodes| - 1 - i] := nodes[i];
    }
    steps := buffer[..];
  }

  /** The rebuilt path as a value; empty when there is none. */
  ghost function PathTo(parents: map<Node, Node>, source: Node, sink: Node): seq<Node> {
    if exists p :: Backtrack(parents, source, sink, p)
    then var p :| Backtrack(parents, source, sink, p); p
    else []
  }

  lemma PathToIs(parents: map<Node, Node>, source: Node, sink: Node, p: seq<Node>)
    requires Backtrack(parents, source, sink, p)
    ensures p == PathTo(parents, source, sink)
  {
    BacktrackUnique(parents, source, sink, p, PathTo(parents, source, sink));
  }

  // ----- the main results -----

  ghost predicate Reachable(adj: Adjacency, source: Node, n: Node) {
    exists p :: PathBetween(adj, source, n, p)
  }

  /** The parent map of the whole walk from `source`. */
  function Parents(adj: Adjacency, source: Node, visits: int, max: int, deadline: Deadline, polls: nat): map<Node, Node> {
    WalkFrom(adj, Start(source), visits, max, deadline, polls).frontier.parents
  }

  /** The parent map of a walk that nothing can stop. */
  function FullParents(adj: Adjacency, source: Node): map<Node, Node> {
    Parents(adj, source, 0, 0, Never, 0)
  }

  /** A walk that was not stopped found what an unlimited walk finds: neither the budget left over by
      earlier sources nor the polls made so far show in its result. */
  lemma {:induction false} UnstoppedWalksAgree(adj: Adjacency, f: Frontier, visits: int, max: int, deadline: Deadline,
                                               polls: nat, visits': int, polls': nat)
    requires !WalkFrom(adj, f, visits, max, deadline, polls).stopped
    ensures WalkFrom(adj, f, visits, max, deadline, polls).frontier == WalkFrom(adj, f, visits', 0, Never, polls').frontier
    decreases |Fresh(adj, f)|, |f.queue|
  {
    if f.queue != [] {
      DequeuedShrinks(adj, f);
      UnstoppedWalksAgree(adj, Dequeued(adj, f), visits + 1, max, deadline, polls + 1, visits' + 1, polls' + 1);
    }
  }

  /** Whatever `parents` leads back from is a real path of the graph. */
  ghost predicate LeadsBack(adj: Adjacency, source: Node, parents: map<Node, Node>) {
    && Rooted(parents, source)
    && (forall n | n in parents :: exists p :: Backtrack(parents, source, n, p))
    && (forall n, p | Backtrack(parents, source, n, p) && n in parents :: PathBetween(adj, source, n, p))
  }

  ghost predicate FindsExactly(adj: Adjacency, source: Node, parents: map<Node, Node>) {
    forall n :: n in parents <==> Reachable(adj, source, n)
  }

  ghost predicate LeadsBackShortest(adj: Adjacency, source: Node, parents: map<Node, Node>) {
    forall n, p, q | Backtrack(parents, source, n, p) && PathBetween(adj, source, n, q) :: |p| <= |q|
  }

  /** Even an interrupted walk leaves a parent map that reconstruction can follow: the paths in it
      are real paths of the graph. */
  lemma WalkLeavesTree(adj: Adjacency, source: Node, visits: int, max: int, deadline: Deadline, polls: nat)
    ensures LeadsBack(adj, source, Parents(adj, source, visits, max, deadline, polls))
  {
    var f := Start(source);
    var w, done, dist := WalkSearches(adj, source, f, visits, max, deadline, polls, {}, map[source := 0]);
    var parents := Parents(adj, source, visits, max, deadline, polls);
    assert Ranked(parents, source, dist);
    forall n | n in parents ensures exists p :: Backtrack(parents, source, n, p) {
      var p := TreePath(adj, source, parents, dist, n);
    }
    forall n, p | Backtrack(parents, source, n, p) && n in parents ensures PathBetween(adj, source, n, p) {
      var q := TreePath(adj, source, parents, dist, n);
      BacktrackUnique(parents, source, n, p, q);
    }
  }

  /** A walk that reports no stop has parents for exactly the reachable nodes, and the path rebuilt
      for each of them is a shortest path. */
  lemma WalkIsExact(adj: Adjacency, source: Node, visits: int, max: int, deadline: Deadline, polls: nat)
    requires !WalkFrom(adj, Start(source), visits, max, deadline, polls).stopped
    ensures FindsExactly(adj, source, Parents(adj, source, visits, max, deadline, polls))
    ensures LeadsBackShortest(adj, source, Parents(adj, source, visits, max, deadline, polls))
  {
    var f := Start(source);
    var w, done, dist := WalkSearches(adj, source, f, visits, max, deadline, polls, {}, map[source := 0]);
    var parents := Parents(adj, source, visits, max, deadline, polls);
    forall n, q | PathBetween(adj, source, n, q) ensures n in parents && dist[n] <= |q| - 1 {
      PathsStayClose(adj, source, done, dist, q, |q| - 1);
    }
    forall n | n in parents ensures Reachable(adj, source, n) {
      var p := TreePath(adj, source, parents, dist, n);
    }
    forall n, p, q | Backtrack(parents, source, n, p) && PathBetween(adj, source, n, q) ensures |p| <= |q| {
      var r := TreePath(adj, source, parents, dist, n);
      BacktrackUnique(parents, source, n, p, r);
    }
  }

  /** The last round of a walk: where it stands when it does not go on. */
  lemma {:induction false} LastRound(adj: Adjacency, f: Frontier, visits: int, max: int, deadline: Deadline, polls: nat)
    returns (last: Frontier, visits': int, polls': nat)
    ensures !GoesOn(last, visits', max, deadline, polls')
    ensures WalkFrom(adj, f, visits, max, deadline, polls) == WalkFrom(adj, last, visits', max, deadline, polls')
    ensures polls' - polls == visits' - visits >= 0 && (max > 0 && visits <= max ==> visits' <= max)
    ensures visits' - |last.parents| + |last.queue| == visits - |f.parents| + |f.queue|
    decreases |Fresh(adj, f)|, |f.queue|
  {
    if GoesOn(f, visits, max, deadline, polls) {
      DequeuedShrinks(adj, f);
      WalkStep(adj, f, visits, max, deadline, polls);
      DequeuedBalance(adj, f);
      last, visits', polls' := LastRound(adj, Dequeued(adj, f), visits + 1, max, deadline, polls + 1);
    } else {
      last, visits', polls' := f, visits, polls;
    }
  }

  lemma DequeuedBalance(adj: Adjacency, f: Frontier)
    requires f.queue != []
    ensures |Dequeued(adj, f).parents| - |Dequeued(adj, f).queue| == |f.parents| - |f.queue| + 1
  {
    EnqueuedBalance(Frontier(f.parents, f.queue[1..]), Next(adj, f.queue[0]), f.queue[0]);
  }

  lemma {:induction false} EnqueuedBalance(f: Frontier, nexts: seq<Node>, node: Node)
    ensures var f' := Enqueued(f, nexts, node);
            |f'.parents| - |f'.queue| == |f.parents| - |f.queue|
    decreases |nexts|
  {
    if nexts != [] { EnqueuedBalance(Discover(f, nexts[0], node), nexts[1..], node); }
  }

  /** A walk stops early only with work left, because the last poll found the context cancelled or because the cap was
      reached; otherwise it ends with nothing left. */
  lemma WalkEndsForAReason(adj: Adjacency, f: Frontier, visits: int, max: int, deadline: Deadline, polls: nat)
    ensures var w := WalkFrom(adj, f, visits, max, deadline, polls);
            && (w.stopped <==> w.frontier.queue != [])
            && (w.stopped ==> w.polls > 0 && (Expired(deadline, w.polls - 1) || (max > 0 && w.visits >= max)))
  {
    var last, visits', polls' := LastRound(adj, f, visits, max, deadline, polls);
    WalkStops(adj, last, visits', max, deadline, polls');
  }

  /** The shared counter counts each dequeued node once and never passes the cap. */
  lemma WalkCountsVisits(adj: Adjacency, f: Frontier, visits: int, max: int, deadline: Deadline, polls: nat)
    ensures var w := WalkFrom(adj, f, visits, max, deadline, polls);
            && w.visits - |w.frontier.parents| + |w.frontier.queue| == visits - |f.parents| + |f.queue|
            && (max > 0 && visits <= max ==> w.visits <= max)
            && w.polls >= polls
  {
    var last, visits', polls' := LastRound(adj, f, visits, max, deadline, polls);
    WalkStops(adj, last, visits', max, deadline, polls');
  }
}
