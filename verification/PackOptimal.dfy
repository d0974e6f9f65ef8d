/** Packing as a whole: the order candidates are packed in, and that no packing in that order uses fewer packs
    (internal/rubrics/pack.go, pack_greedy.go, pack_config.go). */
module PackOptimal {
  import opened Filtering
  import opened Ordering
  import opened Packing
  import opened PackPaths

  // ----- the order -----

  /** By path, then row, then reference. */
  predicate PlacedBefore(c: Candidate, d: Candidate) {
    || TextLess(c.path, d.path)
    || (c.path == d.path && (c.startRow < d.startRow || (c.startRow == d.startRow && TextAtMost(c.ref, d.ref))))
  }

  lemma PlaceMeans(c: Candidate, d: Candidate)
    ensures CompareCandidates(c, d) <= 0 <==> PlacedBefore(c, d)
  {
    var cs := [CompareText(c.path, d.path), CompareInt(c.startRow, d.startRow), CompareText(c.ref, d.ref)];
    assert cs[0..] == cs && cs[3..] == [];
    OrTail(cs, 0); OrTail(cs, 1); OrTail(cs, 2);
    TextLessExactly(c.path, d.path); TextDecides(c.path, d.path);
    TextAtMostExactly(c.ref, d.ref);
  }

  ghost predicate InPlaceOrder(s: seq<Candidate>) {
    forall i, j | 0 <= i < j < |s| :: PlacedBefore(s[i], s[j])
  }

  ghost function Sorted(cands: seq<Candidate>): seq<Candidate> {
    StableSort(CompareCandidates, cands)
  }

  /** The candidates in the order of their places. */
  lemma SortedByPlace(cands: seq<Candidate>)
    ensures multiset(Sorted(cands)) == multiset(cands) && InPlaceOrder(Sorted(cands))
  {
    CandidateLaws();
    StableSortPermutes(CompareCandidates, cands);
    StableSortAscending(CompareCandidates, cands);
    forall i, j | 0 <= i < j < |Sorted(cands)| ensures PlacedBefore(Sorted(cands)[i], Sorted(cands)[j]) {
      PlaceMeans(Sorted(cands)[i], Sorted(cands)[j]);
    }
  }

  /** The path has candidates enough for packs of its own. */
  function Crowded(cands: seq<Candidate>, cfg: Config): Candidate -> bool {
    (c: Candidate) => PathCount(cands, c.path) >= cfg.affinity
  }

  function Sparse(cands: seq<Candidate>, cfg: Config): Candidate -> bool {
    (c: Candidate) => PathCount(cands, c.path) < cfg.affinity
  }

  /** Crowded paths first, everything else after them, each part in the order of places. */
  ghost function Arranged(cands: seq<Candidate>, config: Config): seq<Candidate> {
    var cfg := ApplyDefaults(config);
    Filter(Crowded(cands, cfg), Sorted(cands)) + Filter(Sparse(cands, cfg), Sorted(cands))
  }

  // ----- groups of a sorted list -----

  lemma PathsAscend(c: Candidate, d: Candidate, e: Candidate)
    requires PlacedBefore(c, d) && PlacedBefore(d, e) && c.path == e.path
    ensures d.path == c.path
  {
    TextLessExactly(c.path, d.path);
    TextLessExactly(d.path, e.path);
    TextMirrors(c.path, d.path);
  }

  lemma PrefixInOrder(s: seq<Candidate>, n: nat)
    requires n <= |s| && InPlaceOrder(s)
    ensures InPlaceOrder(s[..n])
  {
    forall i, j | 0 <= i < j < n ensures PlacedBefore(s[..n][i], s[..n][j]) { assert PlacedBefore(s[i], s[j]); }
  }

  lemma PathSeen(s: seq<Candidate>, path: string)
    requires path in PathOrder(s)
    ensures exists i :: 0 <= i < |s| && s[i].path == path
  {
    if s[|s| - 1].path != path { PathSeen(s[..|s| - 1], path); }
  }

  /** In a sorted list the path seen last is the one of the last candidate. */
  lemma {:induction false} LastPath(s: seq<Candidate>)
    requires s != [] && InPlaceOrder(s)
    ensures PathOrder(s) != [] && PathOrder(s)[|PathOrder(s)| - 1] == s[|s| - 1].path
  {
    var n, x := |s| - 1, s[|s| - 1];
    if x.path in PathOrder(s[..n]) {
      PathSeen(s[..n], x.path);
      var i :| 0 <= i < n && s[..n][i].path == x.path;
      PrefixInOrder(s, n);
      LastPath(s[..n]);
      if i < n - 1 { PathsAscend(s[i], s[n - 1], x); }
    }
  }

  lemma GroupPrefix(s: seq<Candidate>, path: string)
    requires s != []
    ensures var n := |s| - 1;
            Group(s, path) == if s[n].path == path then Group(s[..n], path) + [s[n]] else Group(s[..n], path)
  {
    assert s[..|s| - 1] + [s[|s| - 1]] == s;
    FilterSnoc((c: Candidate) => c.path == path, s[..|s| - 1], s[|s| - 1]);
  }

  lemma {:induction false} GroupsOfOthers(order: seq<string>, s: seq<Candidate>)
    requires s != [] && s[|s| - 1].path !in order
    ensures Groups(order, s) == Groups(order, s[..|s| - 1])
  {
    if order != [] {
      var n := |order| - 1;
      assert order[n] in order;
      GroupsOfOthers(order[..n], s);
      GroupPrefix(s, order[n]);
    }
  }

  /** The last path of a sorted list, and the paths before it. */
  lemma OrderSplits(s: seq<Candidate>) returns (front: seq<string>)
    requires s != [] && InPlaceOrder(s)
    ensures PathOrder(s) == front + [s[|s| - 1].path] && s[|s| - 1].path !in front
  {
    LastPath(s);
    PathOrderHolds(s);
    var k := |PathOrder(s)| - 1;
    LastIsNew(PathOrder(s), s[|s| - 1].path);
    front := PathOrder(s)[..k];
  }

  lemma GroupsWithLast(front: seq<string>, path: string, s: seq<Candidate>)
    ensures Groups(front + [path], s) == Groups(front, s) + Group(s, path)
  {
    assert (front + [path])[..|front|] == front;
  }

  lemma OrderGrows(s: seq<Candidate>)
    requires s != []
    ensures var n := |s| - 1;
            PathOrder(s) == if s[n].path in PathOrder(s[..n]) then PathOrder(s[..n]) else PathOrder(s[..n]) + [s[n].path]
  {
  }

  lemma OneMoreCandidate(s: seq<Candidate>, front: seq<string>)
    requires s != [] && PathOrder(s) == front + [s[|s| - 1].path] && s[|s| - 1].path !in front
    requires Groups(PathOrder(s[..|s| - 1]), s[..|s| - 1]) == s[..|s| - 1]
    ensures Groups(PathOrder(s), s) == s
  {
    var n, x := |s| - 1, s[|s| - 1];
    OrderGrows(s);
    GroupsGrowBy(front, s[..n], x);
    GroupsOfOthers(front, s);
    GroupPrefix(s, x.path);
    GroupsWithLast(front, x.path, s);
    SplitLastEntry(s);
  }

  lemma SplitLastEntry(s: seq<Candidate>)
    requires s != []
    ensures s[..|s| - 1] + [s[|s| - 1]] == s
  {
  }

  /** The groups of a sorted list, path by path, are the list. */
  lemma {:induction false} GroupsAreTheList(s: seq<Candidate>)
    requires InPlaceOrder(s)
    ensures Groups(PathOrder(s), s) == s
  {
    if s != [] {
      PrefixInOrder(s, |s| - 1);
      GroupsAreTheList(s[..|s| - 1]);
      var front := OrderSplits(s);
      OneMoreCandidate(s, front);
    }
  }

  /** The groups before the last path, and the group of the last path with one more candidate. */
  lemma GroupsGrowBy(order: seq<string>, s: seq<Candidate>, x: Candidate)
    requires order + [x.path] == (if x.path in PathOrder(s) then PathOrder(s) else PathOrder(s) + [x.path])
    requires Groups(PathOrder(s), s) == s
    ensures Groups(order, s) + (Group(s, x.path) + [x]) == s + [x]
  {
    if x.path in PathOrder(s) {
      assert PathOrder(s)[..|order|] == order;
      Associate(Groups(order, s), Group(s, x.path), [x]);
    } else {
      assert (PathOrder(s) + [x.path])[..|order|] == PathOrder(s);
      assert (order + [x.path])[..|order|] == order;
      NewPathIsAlone(s, x.path);
      assert [] + [x] == [x];
    }
  }

  lemma NewPathIsAlone(s: seq<Candidate>, path: string)
    requires path !in PathOrder(s)
    ensures Group(s, path) == []
  {
    PathOrderHolds(s);
    GroupOfStranger(s, path);
  }

  // ----- the packs in that order -----

  /** What is packed apart and what may be merged, as parts of all groups. */
  lemma {:induction false} PartsOfGroups(order: seq<string>, s: seq<Candidate>, cfg: Config)
    ensures Flatten(HotPacks(order, s, cfg)) == Filter(Crowded(s, cfg), Groups(order, s))
    ensures Mergeable(order, s, cfg) == Filter(Sparse(s, cfg), Groups(order, s))
  {
    if order != [] {
      var n := |order| - 1;
      var before, group := Groups(order[..n], s), Group(s, order[n]);
      PartsOfGroups(order[..n], s, cfg);
      FilterConcat(Crowded(s, cfg), before, group);
      FilterConcat(Sparse(s, cfg), before, group);
      PartsOfGroup(s, order[n], cfg);
      FlattenLast(order, s, cfg);
    }
  }

  lemma PartsOfGroup(s: seq<Candidate>, path: string, cfg: Config)
    ensures Filter(Crowded(s, cfg), Group(s, path)) == if PathCount(s, path) >= cfg.affinity then Group(s, path) else []
    ensures Filter(Sparse(s, cfg), Group(s, path)) == if PathCount(s, path) >= cfg.affinity then [] else Group(s, path)
  {
    if PathCount(s, path) >= cfg.affinity {
      FilterAll(Crowded(s, cfg), Group(s, path));
      FilterNone(Sparse(s, cfg), Group(s, path));
    } else {
      FilterNone(Crowded(s, cfg), Group(s, path));
      FilterAll(Sparse(s, cfg), Group(s, path));
    }
  }

  lemma SameParts(cands: seq<Candidate>, s: seq<Candidate>, cfg: Config, list: seq<Candidate>)
    requires multiset(cands) == multiset(s)
    ensures Filter(Crowded(s, cfg), list) == Filter(Crowded(cands, cfg), list)
    ensures Filter(Sparse(s, cfg), list) == Filter(Sparse(cands, cfg), list)
  {
    forall c: Candidate ensures PathCount(cands, c.path) == PathCount(s, c.path) { SameCount(cands, s, c.path); }
    SameFilter(Crowded(s, cfg), Crowded(cands, cfg), list);
    SameFilter(Sparse(s, cfg), Sparse(cands, cfg), list);
  }

  lemma PartsOfSorted(cands: seq<Candidate>, config: Config)
    ensures var s, cfg := Sorted(cands), ApplyDefaults(config);
      && Flatten(HotPacks(PathOrder(s), s, cfg)) == Filter(Crowded(cands, cfg), s)
      && Mergeable(PathOrder(s), s, cfg) == Filter(Sparse(cands, cfg), s)
  {
    var s, cfg := Sorted(cands), ApplyDefaults(config);
    SortedByPlace(cands);
    GroupsAreTheList(s);
    PartsOfGroups(PathOrder(s), s, cfg);
    SameParts(cands, s, cfg, s);
  }

  /** Read pack after pack, the candidates come in that order. */
  lemma PackedInOrder(cands: seq<Candidate>, config: Config)
    ensures Flatten(PackAll(cands, config)) == Arranged(cands, config)
  {
    var s, cfg := Sorted(cands), ApplyDefaults(config);
    var rest := Mergeable(PathOrder(s), s, cfg);
    PartsOfSorted(cands, config);
    GreedyHolds(rest, cfg);
    FlattenConcat(HotPacks(PathOrder(s), s, cfg), Greedy(rest, cfg));
  }

  // ----- no packing in that order uses fewer -----

  /** Each pack is entirely inside or entirely outside of `part`. */
  ghost predicate Respects(packs: seq<seq<Candidate>>, part: Candidate -> bool) {
    forall p, c, d | p in packs && c in p && d in p :: part(c) == part(d)
  }

  ghost predicate AllFit(packs: seq<seq<Candidate>>, cfg: Config) {
    forall p | p in packs :: p != [] && Fits(p, cfg)
  }

  /** Packs that respect a part of what they hold divide where the part ends. */
  lemma {:induction false} Divide(packs: seq<seq<Candidate>>, a: seq<Candidate>, b: seq<Candidate>, part: Candidate -> bool)
    returns (k: nat)
    requires Flatten(packs) == a + b && Respects(packs, part) && forall p | p in packs :: p != []
    requires (forall c | c in a :: part(c)) && (forall c | c in b :: !part(c))
    ensures k <= |packs| && Flatten(packs[..k]) == a && Flatten(packs[k..]) == b
  {
    if packs == [] {
      k := 0;
    } else if a == [] {
      k := 0;
      assert packs[..0] == [] && packs[0..] == packs && [] + b == b;
    } else {
      var p := packs[0];
      assert p in packs;
      FirstInside(packs, a, b, part);
      assert p + Flatten(packs[1..]) == a + b;
      assert a[|p|..] + b == (a + b)[|p|..] == Flatten(packs[1..]);
      TailMembers(packs);
      var n := Divide(packs[1..], a[|p|..], b, part);
      k := n + 1;
      assert packs[..k] == [p] + packs[1..][..n] && packs[k..] == packs[1..][n..];
      assert packs[..k][1..] == packs[1..][..n];
      assert a == p + a[|p|..];
    }
  }

  lemma FirstInside(packs: seq<seq<Candidate>>, a: seq<Candidate>, b: seq<Candidate>, part: Candidate -> bool)
    requires packs != [] && a != [] && Flatten(packs) == a + b && Respects(packs, part) && packs[0] != []
    requires (forall c | c in a :: part(c)) && (forall c | c in b :: !part(c))
    ensures |packs[0]| <= |a| && packs[0] == a[..|packs[0]|]
  {
    var p := packs[0];
    assert p + Flatten(packs[1..]) == a + b;
    assert p == (a + b)[..|p|];
    assert p in packs && p[0] in p && p[0] == a[0] && a[0] in a;
    assert forall c | c in p :: part(c);
    if |p| > |a| { ReachesOutside(p, a, b, part); }
  }

  lemma ReachesOutside(p: seq<Candidate>, a: seq<Candidate>, b: seq<Candidate>, part: Candidate -> bool)
    requires |a| < |p| <= |a| + |b| && p == (a + b)[..|p|] && forall c | c in b :: !part(c)
    ensures exists c | c in p :: !part(c)
  {
    assert p[|a|] == b[0] && p[|a|] in p && b[0] in b;
  }

  lemma SomePacks(packs: seq<seq<Candidate>>, k: nat, part: Candidate -> bool, cfg: Config)
    requires k <= |packs| && AllFit(packs, cfg) && Respects(packs, part)
    ensures AllFit(packs[..k], cfg) && AllFit(packs[k..], cfg) && Respects(packs[..k], part) && Respects(packs[k..], part)
  {
  }

  ghost predicate OnePathEach(packs: seq<seq<Candidate>>) {
    forall p, c, d | p in packs && c in p && d in p :: c.path == d.path
  }

  lemma {:induction false} HotPaths(order: seq<string>, s: seq<Candidate>, cfg: Config)
    ensures forall c | c in Flatten(HotPacks(order, s, cfg)) :: c.path in order
  {
    if order != [] {
      var n := |order| - 1;
      HotPaths(order[..n], s, cfg);
      FlattenLast(order, s, cfg);
      forall c | c in Flatten(HotPacks(order, s, cfg)) ensures c.path in order {
        assert order[n] in order;
        if c in Flatten(HotPacks(order[..n], s, cfg)) { assert c.path in order[..n]; }
      }
    }
  }

  lemma FlattenLast(order: seq<string>, s: seq<Candidate>, cfg: Config)
    requires order != []
    ensures var n := |order| - 1;
            Flatten(HotPacks(order, s, cfg))
            == Flatten(HotPacks(order[..n], s, cfg)) + if Hot(s, order[n], cfg) then Group(s, order[n]) else []
  {
    var n := |order| - 1;
    if Hot(s, order[n], cfg) {
      GreedyHolds(Group(s, order[n]), cfg);
      FlattenConcat(HotPacks(order[..n], s, cfg), Greedy(Group(s, order[n]), cfg));
    } else {
      assert HotPacks(order, s, cfg) == HotPacks(order[..n], s, cfg);
    }
  }

  /** Path by path the packs of the crowded paths are the fewest. */
  lemma {:induction false} HotFewest(order: seq<string>, s: seq<Candidate>, cfg: Config, others: seq<seq<Candidate>>)
    requires Distinct(order) && Flatten(others) == Flatten(HotPacks(order, s, cfg))
    requires AllFit(others, cfg) && OnePathEach(others)
    ensures |HotPacks(order, s, cfg)| <= |others|
  {
    if order != [] {
      var n := |order| - 1;
      var hot, group := HotPacks(order[..n], s, cfg), Group(s, order[n]);
      LastIsNew(order, order[n]);
      if Hot(s, order[n], cfg) {
        var k := SplitLast(order, s, cfg, others);
        HotFewest(order[..n], s, cfg, others[..k]);
        GreedyUsesFewest(group, others[k..], cfg);
      } else {
        assert HotPacks(order, s, cfg) == hot;
        HotFewest(order[..n], s, cfg, others);
      }
    }
  }

  lemma SplitLast(order: seq<string>, s: seq<Candidate>, cfg: Config, others: seq<seq<Candidate>>)
    returns (k: nat)
    requires Distinct(order) && order != [] && Hot(s, order[|order| - 1], cfg)
    requires Flatten(others) == Flatten(HotPacks(order, s, cfg)) && AllFit(others, cfg) && OnePathEach(others)
    ensures k <= |others| && AllFit(others[..k], cfg) && OnePathEach(others[..k])
    ensures Flatten(others[..k]) == Flatten(HotPacks(order[..|order| - 1], s, cfg))
    ensures Partition(others[k..], Group(s, order[|order| - 1]), cfg)
  {
    var n := |order| - 1;
    var hot, group := HotPacks(order[..n], s, cfg), Group(s, order[n]);
    FlattenLast(order, s, cfg);
    BeforeLast(order, s, cfg);
    k := DivideAt(others, Flatten(hot), group, order[n], cfg);
  }

  lemma DivideAt(others: seq<seq<Candidate>>, a: seq<Candidate>, b: seq<Candidate>, path: string, cfg: Config)
    returns (k: nat)
    requires Flatten(others) == a + b && AllFit(others, cfg) && OnePathEach(others)
    requires (forall c | c in a :: Elsewhere(path)(c)) && (forall c | c in b :: !Elsewhere(path)(c))
    ensures k <= |others| && AllFit(others[..k], cfg) && OnePathEach(others[..k])
    ensures Flatten(others[..k]) == a && Partition(others[k..], b, cfg)
  {
    assert Respects(others, Elsewhere(path));
    k := Divide(others, a, b, Elsewhere(path));
    SomePacks(others, k, Elsewhere(path), cfg);
  }

  function Elsewhere(path: string): Candidate -> bool {
    (c: Candidate) => c.path != path
  }

  lemma BeforeLast(order: seq<string>, s: seq<Candidate>, cfg: Config)
    requires Distinct(order) && order != []
    ensures var n := |order| - 1;
      && (forall c | c in Flatten(HotPacks(order[..n], s, cfg)) :: Elsewhere(order[n])(c))
      && forall c | c in Group(s, order[n]) :: !Elsewhere(order[n])(c)
  {
    LastIsNew(order, order[|order| - 1]);
    HotPaths(order[..|order| - 1], s, cfg);
  }

  /** No other packing in the same order uses fewer packs: whatever packs fit the caps, hold the candidates in that order
      and never mix a crowded path with another, there are at least as many of them. */
  lemma PackingIsOptimal(cands: seq<Candidate>, config: Config, others: seq<seq<Candidate>>)
    requires Flatten(others) == Arranged(cands, config)
    requires var cfg := ApplyDefaults(config);
      && (forall p | p in others :: p != [] && (|p| == 1 || WithinCaps(p, cfg)))
      && (forall p, c, d | p in others && c in p && d in p && PathCount(cands, c.path) >= cfg.affinity :: d.path == c.path)
    ensures |Packs(cands, config)| <= |others|
  {
    var s, cfg := Sorted(cands), ApplyDefaults(config);
    var hot, rest := HotPacks(PathOrder(s), s, cfg), Mergeable(PathOrder(s), s, cfg);
    PartsOfSorted(cands, config);
    var k := SplitParts(cands, cfg, others, Filter(Crowded(cands, cfg), s), Filter(Sparse(cands, cfg), s));
    PathOrderHolds(s);
    HotFewest(PathOrder(s), s, cfg, others[..k]);
    GreedyUsesFewest(rest, others[k..], cfg);
  }

  lemma SplitParts(cands: seq<Candidate>, cfg: Config, others: seq<seq<Candidate>>, a: seq<Candidate>, b: seq<Candidate>)
    returns (k: nat)
    requires Flatten(others) == a + b && AllFit(others, cfg)
    requires (forall c | c in a :: Crowded(cands, cfg)(c)) && (forall c | c in b :: !Crowded(cands, cfg)(c))
    requires forall p, c, d | p in others && c in p && d in p && PathCount(cands, c.path) >= cfg.affinity :: d.path == c.path
    ensures k <= |others| && Flatten(others[..k]) == a && AllFit(others[..k], cfg) && OnePathEach(others[..k])
    ensures Partition(others[k..], b, cfg)
  {
    k := Divide(others, a, b, Crowded(cands, cfg));
    SomePacks(others, k, Crowded(cands, cfg), cfg);
    forall p, c, d | p in others[..k] && c in p && d in p ensures c.path == d.path {
      FlattenMembers(others[..k], p);
      assert c in a;
    }
  }

  // ----- the caps -----

  /** The caps in numbers: so many findings, and the fixed prompt allowance with the estimates of all of them. */
  lemma CapsMean(pack: seq<Candidate>, config: Config)
    ensures var cfg := ApplyDefaults(config);
      && (WithinCaps(pack, cfg) <==> |pack| <= cfg.maxFindings && 64 + Tokens(pack) <= cfg.maxTokens)
      && cfg.maxFindings == (if config.maxFindings == 0 then 4 else config.maxFindings)
      && cfg.maxTokens == (if config.maxTokens == 0 then 3500 else config.maxTokens)
      && cfg.affinity == (if config.affinity == 0 then 5 else config.affinity)
    ensures forall c: Candidate :: Tokens(pack + [c]) == Tokens(pack) + EstimateTokens(c)
  {
    forall c: Candidate ensures Tokens(pack + [c]) == Tokens(pack) + EstimateTokens(c) {
      assert (pack + [c])[..|pack|] == pack;
    }
  }
}
