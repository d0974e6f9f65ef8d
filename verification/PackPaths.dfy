/** Path-affine packing over the greedy partition (internal/rubrics/pack.go). */
module PackPaths {
  import opened Filtering
  import opened Ordering
  import opened Packing

  function CompareCandidates(a: Candidate, b: Candidate): int {
    Or([CompareText(a.path, b.path), CompareInt(a.startRow, b.startRow), CompareText(a.ref, b.ref)])
  }

  lemma CandidateLaws()
    ensures Lawful(CompareCandidates)
  {
    forall a, b ensures Mirrors(CompareCandidates(a, b), CompareCandidates(b, a)) {
      TextMirrors(a.path, b.path);
      TextMirrors(a.ref, b.ref);
      OrMirrors([CompareText(a.path, b.path), CompareInt(a.startRow, b.startRow), CompareText(a.ref, b.ref)],
                [CompareText(b.path, a.path), CompareInt(b.startRow, a.startRow), CompareText(b.ref, a.ref)]);
    }
    forall a, b, c ensures Chains(CompareCandidates(a, b), CompareCandidates(b, c), CompareCandidates(a, c)) {
      TextChains(a.path, b.path, c.path);
      TextChains(a.ref, b.ref, c.ref);
      OrChains([CompareText(a.path, b.path), CompareInt(a.startRow, b.startRow), CompareText(a.ref, b.ref)],
               [CompareText(b.path, c.path), CompareInt(b.startRow, c.startRow), CompareText(b.ref, c.ref)],
               [CompareText(a.path, c.path), CompareInt(a.startRow, c.startRow), CompareText(a.ref, c.ref)]);
    }
  }

  // ----- the result as a value -----

  function Group(s: seq<Candidate>, path: string): seq<Candidate> {
    Filter((c: Candidate) => c.path == path, s)
  }

  /** The paths in the order they are first seen. */
  function PathOrder(s: seq<Candidate>): seq<string> {
    if s == [] then []
    else
      var before := PathOrder(s[..|s| - 1]);
      if s[|s| - 1].path in before then before else before + [s[|s| - 1].path]
  }

  predicate Hot(s: seq<Candidate>, path: string, cfg: Config) {
    |Group(s, path)| >= cfg.affinity
  }

  ghost function HotPacks(order: seq<string>, s: seq<Candidate>, cfg: Config): seq<seq<Candidate>> {
    if order == [] then []
    else
      var n := |order| - 1;
      HotPacks(order[..n], s, cfg) + if Hot(s, order[n], cfg) then Greedy(Group(s, order[n]), cfg) else []
  }

  function Mergeable(order: seq<string>, s: seq<Candidate>, cfg: Config): seq<Candidate> {
    if order == [] then []
    else
      var n := |order| - 1;
      Mergeable(order[..n], s, cfg) + if Hot(s, order[n], cfg) then [] else Group(s, order[n])
  }

  ghost function PackSorted(s: seq<Candidate>, cfg: Config): seq<seq<Candidate>> {
    HotPacks(PathOrder(s), s, cfg) + Greedy(Mergeable(PathOrder(s), s, cfg), cfg)
  }

  /** Where every candidate goes; the packs that are returned show the references only. */
  ghost function PackAll(cands: seq<Candidate>, cfg: Config): seq<seq<Candidate>> {
    PackSorted(StableSort(CompareCandidates, cands), ApplyDefaults(cfg))
  }

  ghost function Packs(cands: seq<Candidate>, cfg: Config): seq<JudgmentPack> {
    AsPacks(PackAll(cands, cfg))
  }

  // ----- the loops -----

  lemma GroupSnoc(s: seq<Candidate>, i: nat, path: string)
    requires i < |s|
    ensures Group(s[..i + 1], path) == Group(s[..i], path) + if s[i].path == path then [s[i]] else []
  {
    assert s[..i + 1][..i] == s[..i];
  }

  function CountOf(counts: map<string, int>, path: string): int {
    if path in counts then counts[path] else 0
  }

  function GroupOf(byPath: map<string, seq<Candidate>>, path: string): seq<Candidate> {
    if path in byPath then byPath[path] else []
  }

  method CountPaths(sorted: seq<Candidate>) returns (pathCounts: map<string, int>)
    ensures forall path :: CountOf(pathCounts, path) == |Group(sorted, path)|
  {
    pathCounts := map[];
    for i := 0 to |sorted|
      invariant forall path :: CountOf(pathCounts, path) == |Group(sorted[..i], path)|
    {
      var c := sorted[i];
      forall path ensures Group(sorted[..i + 1], path) == Group(sorted[..i], path) + if c.path == path then [c] else [] {
        GroupSnoc(sorted, i, path);
      }
      ghost var before := pathCounts;
      pathCounts := pathCounts[c.path := CountOf(pathCounts, c.path) + 1];
      forall path ensures CountOf(pathCounts, path) == |Group(sorted[..i + 1], path)| {
        assert CountOf(before, path) == |Group(sorted[..i], path)|;
      }
    }
    assert sorted[..|sorted|] == sorted;
  }

  method GroupByPath(sorted: seq<Candidate>) returns (pathOrder: seq<string>, byPath: map<string, seq<Candidate>>)
    ensures pathOrder == PathOrder(sorted)
    ensures forall path :: GroupOf(byPath, path) == Group(sorted, path)
  {
    pathOrder, byPath := [], map[];
    var seenPath: set<string> := {};
    for i := 0 to |sorted|
      invariant pathOrder == PathOrder(sorted[..i]) && (forall path :: path in seenPath <==> path in pathOrder)
      invariant forall path :: GroupOf(byPath, path) == Group(sorted[..i], path)
    {
      var c := sorted[i];
      forall path ensures Group(sorted[..i + 1], path) == Group(sorted[..i], path) + if c.path == path then [c] else [] {
        GroupSnoc(sorted, i, path);
      }
      assert sorted[..i + 1][..i] == sorted[..i];
      if c.path !in seenPath {
        seenPath := seenPath + {c.path};
        pathOrder := pathOrder + [c.path];
      }
      ghost var before := byPath;
      byPath := byPath[c.path := GroupOf(byPath, c.path) + [c]];
      forall path ensures GroupOf(byPath, path) == Group(sorted[..i + 1], path) {
        assert GroupOf(before, path) == Group(sorted[..i], path);
      }
    }
    assert sorted[..|sorted|] == sorted;
  }

  lemma AsPacksConcat(a: seq<seq<Candidate>>, b: seq<seq<Candidate>>)
    ensures AsPacks(a + b) == AsPacks(a) + AsPacks(b)
  {
  }

  lemma OneMorePath(order: seq<string>, i: nat, s: seq<Candidate>, cfg: Config)
    requires i < |order|
    ensures HotPacks(order[..i + 1], s, cfg)
            == HotPacks(order[..i], s, cfg) + if Hot(s, order[i], cfg) then Greedy(Group(s, order[i]), cfg) else []
    ensures Mergeable(order[..i + 1], s, cfg)
            == Mergeable(order[..i], s, cfg) + if Hot(s, order[i], cfg) then [] else Group(s, order[i])
  {
    assert order[..i + 1][..i] == order[..i];
  }

  method PackHotPaths(sorted: seq<Candidate>, cfg: Config)
    returns (packs: seq<JudgmentPack>, mergeable: seq<Candidate>)
    ensures packs == AsPacks(HotPacks(PathOrder(sorted), sorted, cfg))
    ensures mergeable == Mergeable(PathOrder(sorted), sorted, cfg)
  {
    var pathCounts := CountPaths(sorted);
    var pathOrder, byPath := GroupByPath(sorted);
    packs, mergeable := [], [];
    for i := 0 to |pathOrder|
      invariant packs == AsPacks(HotPacks(pathOrder[..i], sorted, cfg))
      invariant mergeable == Mergeable(pathOrder[..i], sorted, cfg)
    {
      var path := pathOrder[i];
      OneMorePath(pathOrder, i, sorted, cfg);
      var group := GroupOf(byPath, path);
      if CountOf(pathCounts, path) >= cfg.affinity {
        AsPacksConcat(HotPacks(pathOrder[..i], sorted, cfg), Greedy(group, cfg));
        var more := PackGreedy(group, cfg);
        packs := packs + more;
        continue;
      }
      mergeable := mergeable + group;
    }
    assert pathOrder[..|pathOrder|] == pathOrder;
  }

  lemma NothingToPack(config: Config)
    ensures PackAll([], config) == []
  {
    GreedyIs([], [], ApplyDefaults(config));
  }

  lemma PackAllSplits(cands: seq<Candidate>, config: Config)
    ensures var s, cfg := StableSort(CompareCandidates, cands), ApplyDefaults(config);
            var hot, mergeable := HotPacks(PathOrder(s), s, cfg), Mergeable(PathOrder(s), s, cfg);
            PackAll(cands, config) == if mergeable == [] then hot else hot + Greedy(mergeable, cfg)
  {
    GreedyIs([], [], ApplyDefaults(config));
  }

  method PackJudgmentCandidates(cands: seq<Candidate>, config: Config) returns (packs: seq<JudgmentPack>)
    ensures packs == Packs(cands, config)
  {
    var cfg := ApplyDefaults(config);
    NothingToPack(config);
    if |cands| == 0 { return []; }
    var sorted := StableSort(CompareCandidates, cands);
    PackAllSplits(cands, config);
    var mergeable;
    packs, mergeable := PackHotPaths(sorted, cfg);
    if |mergeable| > 0 {
      AsPacksConcat(HotPacks(PathOrder(sorted), sorted, cfg), Greedy(mergeable, cfg));
      var more := PackGreedy(mergeable, cfg);
      packs := packs + more;
    }
  }

  // ----- what the packs hold -----

  function Groups(order: seq<string>, s: seq<Candidate>): seq<Candidate> {
    if order == [] then []
    else
      var n := |order| - 1;
      Groups(order[..n], s) + Group(s, order[n])
  }

  lemma {:induction false} PathOrderHolds(s: seq<Candidate>)
    ensures Distinct(PathOrder(s)) && forall c | c in s :: c.path in PathOrder(s)
  {
    if s != [] {
      PathOrderHolds(s[..|s| - 1]);
      assert forall c | c in s :: c in s[..|s| - 1] || c == s[|s| - 1];
    }
  }

  lemma GroupsSnoc(order: seq<string>, s: seq<Candidate>)
    requires order != []
    ensures multiset(Groups(order, s)) == multiset(Groups(order[..|order| - 1], s)) + multiset(Group(s, order[|order| - 1]))
  {
  }

  lemma GroupGrows(s: seq<Candidate>, path: string)
    requires s != []
    ensures var n := |s| - 1;
            multiset(Group(s, path)) == multiset(Group(s[..n], path)) + if s[n].path == path then multiset{s[n]} else multiset{}
  {
  }

  lemma LastIsNew(order: seq<string>, path: string)
    requires Distinct(order) && order != []
    ensures var before, last := order[..|order| - 1], order[|order| - 1];
            && Distinct(before) && (path in order <==> path in before || path == last) && !(path in before && path == last)
  {
    if path in order[..|order| - 1] {
      var i :| 0 <= i < |order| - 1 && order[i] == path;
    }
  }

  /** One more candidate lands in exactly one group. */
  lemma {:induction false} GroupsGrow(order: seq<string>, s: seq<Candidate>)
    requires Distinct(order) && s != []
    ensures var n := |s| - 1;
            multiset(Groups(order, s)) ==
            multiset(Groups(order, s[..n])) + if s[n].path in order then multiset{s[n]} else multiset{}
  {
    if order != [] {
      var k := |order| - 1;
      GroupsGrow(order[..k], s);
      GroupsSnoc(order, s);
      GroupsSnoc(order, s[..|s| - 1]);
      GroupGrows(s, order[k]);
      LastIsNew(order, s[|s| - 1].path);
    }
  }

  lemma {:induction false} GroupOfStranger(s: seq<Candidate>, path: string)
    requires forall c | c in s :: c.path != path
    ensures Group(s, path) == []
  {
    if s != [] { GroupOfStranger(s[..|s| - 1], path); }
  }

  lemma {:induction false} GroupsAreAll(s: seq<Candidate>)
    ensures multiset(Groups(PathOrder(s), s)) == multiset(s)
  {
    if s != [] {
      var n, x := |s| - 1, s[|s| - 1];
      var before := PathOrder(s[..n]);
      GroupsAreAll(s[..n]);
      PathOrderHolds(s[..n]);
      GroupsGrow(before, s);
      SnocMultiset(s);
      if x.path !in before {
        GroupOfStranger(s[..n], x.path);
        LastGroup(s, before);
      }
    }
  }

  lemma SnocMultiset(s: seq<Candidate>)
    requires s != []
    ensures multiset(s) == multiset(s[..|s| - 1]) + multiset{s[|s| - 1]}
  {
    assert s == s[..|s| - 1] + [s[|s| - 1]];
  }

  lemma LastGroup(s: seq<Candidate>, before: seq<string>)
    requires s != [] && before == PathOrder(s[..|s| - 1]) && s[|s| - 1].path !in before
    requires Group(s[..|s| - 1], s[|s| - 1].path) == []
    ensures multiset(Groups(PathOrder(s), s)) == multiset(Groups(before, s)) + multiset{s[|s| - 1]}
  {
    assert PathOrder(s)[..|before|] == before;
  }

  lemma {:induction false} PacksHoldGroups(order: seq<string>, s: seq<Candidate>, cfg: Config)
    ensures multiset(Flatten(HotPacks(order, s, cfg))) + multiset(Mergeable(order, s, cfg)) == multiset(Groups(order, s))
  {
    if order != [] {
      var n := |order| - 1;
      PacksHoldGroups(order[..n], s, cfg);
      var hot, group := HotPacks(order[..n], s, cfg), Group(s, order[n]);
      if Hot(s, order[n], cfg) {
        GreedyHolds(group, cfg);
        FlattenConcat(hot, Greedy(group, cfg));
        assert multiset(Flatten(HotPacks(order, s, cfg))) == multiset(Flatten(hot)) + multiset(group);
      } else {
        assert HotPacks(order, s, cfg) == hot;
      }
    }
  }

  /** Every candidate is placed exactly once. */
  lemma EveryCandidateOnce(cands: seq<Candidate>, config: Config)
    ensures multiset(Flatten(PackAll(cands, config))) == multiset(cands)
  {
    var cfg, s := ApplyDefaults(config), StableSort(CompareCandidates, cands);
    StableSortPermutes(CompareCandidates, cands);
    GreedyHolds(Mergeable(PathOrder(s), s, cfg), cfg);
    FlattenConcat(HotPacks(PathOrder(s), s, cfg), Greedy(Mergeable(PathOrder(s), s, cfg), cfg));
    PacksHoldGroups(PathOrder(s), s, cfg);
    GroupsAreAll(s);
  }

  /** A pack respects the caps, and does not mix a path at or above the threshold with another path. */
  ghost predicate GoodPack(p: seq<Candidate>, s: seq<Candidate>, cfg: Config) {
    && p != [] && Fits(p, cfg)
    && forall c, d | c in p && d in p && Hot(s, c.path, cfg) :: d.path == c.path
  }

  lemma {:induction false} HotPacksGood(order: seq<string>, s: seq<Candidate>, cfg: Config)
    ensures forall p | p in HotPacks(order, s, cfg) :: GoodPack(p, s, cfg)
  {
    if order != [] {
      var n := |order| - 1;
      HotPacksGood(order[..n], s, cfg);
      var group := Group(s, order[n]);
      GreedyHolds(group, cfg);
      forall p | p in Greedy(group, cfg) ensures forall c | c in p :: c in group { FlattenMembers(Greedy(group, cfg), p); }
    }
  }

  lemma {:induction false} FlattenMembers(packs: seq<seq<Candidate>>, p: seq<Candidate>)
    requires p in packs
    ensures forall c | c in p :: c in Flatten(packs)
  {
    if p != packs[0] { FlattenMembers(packs[1..], p); }
  }

  lemma {:induction false} MergeableIsCool(order: seq<string>, s: seq<Candidate>, cfg: Config)
    ensures forall c | c in Mergeable(order, s, cfg) :: !Hot(s, c.path, cfg)
  {
    if order != [] {
      MergeableIsCool(order[..|order| - 1], s, cfg);
    }
  }

  /** The number of candidates on a path. */
  function PathCount(s: seq<Candidate>, path: string): nat {
    |Group(s, path)|
  }

  /** After defaults every pack is non-empty and within both caps unless it holds a single candidate, and
      a path with at least `affinity` candidates never shares a pack with another path. */
  lemma PacksAreGood(cands: seq<Candidate>, config: Config)
    ensures var cfg := ApplyDefaults(config);
            forall p | p in PackAll(cands, config) ::
              && p != [] && (|p| == 1 || WithinCaps(p, cfg))
              && forall c, d | c in p && d in p && PathCount(cands, c.path) >= cfg.affinity :: d.path == c.path
  {
    var cfg, s := ApplyDefaults(config), StableSort(CompareCandidates, cands);
    var order := PathOrder(s);
    HotPacksGood(order, s, cfg);
    MergeableIsCool(order, s, cfg);
    var rest := Mergeable(order, s, cfg);
    GreedyHolds(rest, cfg);
    StableSortPermutes(CompareCandidates, cands);
    forall path ensures PathCount(cands, path) == PathCount(s, path) { SameCount(cands, s, path); }
    forall p | p in PackAll(cands, config) ensures GoodPack(p, s, cfg) {
      if p !in HotPacks(order, s, cfg) {
        FlattenMembers(Greedy(rest, cfg), p);
      }
    }
  }

  lemma SameCount(s: seq<Candidate>, t: seq<Candidate>, path: string)
    requires multiset(s) == multiset(t)
    ensures |Group(s, path)| == |Group(t, path)|
  {
    FilterPermutes((c: Candidate) => c.path == path, s, t);
  }

  // ----- what the packing looks at -----

  /** Of a candidate only its place, its reference and its estimate matter. */
  function Outline(c: Candidate): Candidate {
    Candidate(c.ref, c.path, c.startRow, "", "", 4 * EstimateTokens(c), 0)
  }

  lemma OutlineKeeps(c: Candidate, d: Candidate)
    ensures EstimateTokens(Outline(c)) == EstimateTokens(c)
    ensures CompareCandidates(Outline(c), Outline(d)) == CompareCandidates(c, d)
  {
  }

  function OutlinePack(pack: seq<Candidate>): seq<Candidate> {
    Map(Outline, pack)
  }

  function OutlinePacks(packs: seq<seq<Candidate>>): seq<seq<Candidate>> {
    Map(OutlinePack, packs)
  }

  lemma {:induction false} OutlineTokens(pack: seq<Candidate>)
    ensures Tokens(OutlinePack(pack)) == Tokens(pack)
  {
    if pack != [] {
      var n := |pack| - 1;
      OutlineTokens(pack[..n]);
      OutlineKeeps(pack[n], pack[n]);
      assert OutlinePack(pack)[..n] == OutlinePack(pack[..n]);
    }
  }

  lemma OutlineFits(pack: seq<Candidate>, cfg: Config)
    ensures Fits(OutlinePack(pack), cfg) == Fits(pack, cfg)
  {
    OutlineTokens(pack);
  }

  lemma {:induction false} OutlineFlatten(packs: seq<seq<Candidate>>)
    ensures Flatten(OutlinePacks(packs)) == OutlinePack(Flatten(packs))
  {
    if packs != [] {
      OutlineFlatten(packs[1..]);
      assert OutlinePacks(packs)[1..] == OutlinePacks(packs[1..]);
      MapConcat(Outline, packs[0], Flatten(packs[1..]));
    }
  }

  lemma OutlineNoRoom(pack: seq<Candidate>, next: seq<Candidate>, cfg: Config)
    requires NoRoom(pack, next, cfg)
    ensures NoRoom(OutlinePack(pack), OutlinePack(next), cfg)
  {
    OutlineFits(pack + [next[0]], cfg);
    MapConcat(Outline, pack, [next[0]]);
    assert OutlinePack([next[0]]) == [OutlinePack(next)[0]];
  }

  lemma OutlineGreedy(cands: seq<Candidate>, cfg: Config)
    ensures Greedy(OutlinePack(cands), cfg) == OutlinePacks(Greedy(cands, cfg))
  {
    var packs := Greedy(cands, cfg);
    var outlined := OutlinePacks(packs);
    GreedyHolds(cands, cfg);
    OutlineFlatten(packs);
    forall p | p in outlined ensures p != [] && Fits(p, cfg) {
      var i :| 0 <= i < |outlined| && outlined[i] == p;
      assert packs[i] in packs;
      OutlineFits(packs[i], cfg);
    }
    forall i, j | 0 <= i < j < |outlined| && j == i + 1 ensures NoRoom(outlined[i], outlined[j], cfg) {
      OutlineNoRoom(packs[i], packs[j], cfg);
    }
    GreedyIs(outlined, OutlinePack(cands), cfg);
  }

  lemma OutlineGroup(s: seq<Candidate>, path: string)
    ensures Group(OutlinePack(s), path) == OutlinePack(Group(s, path))
  {
    FilterMap((c: Candidate) => c.path == path, (c: Candidate) => c.path == path, Outline, s);
  }

  lemma {:induction false} OutlinePathOrder(s: seq<Candidate>)
    ensures PathOrder(OutlinePack(s)) == PathOrder(s)
  {
    if s != [] {
      var n := |s| - 1;
      OutlinePathOrder(s[..n]);
      assert OutlinePack(s)[..n] == OutlinePack(s[..n]);
    }
  }

  lemma {:induction false} OutlineHotPacks(order: seq<string>, s: seq<Candidate>, cfg: Config)
    ensures HotPacks(order, OutlinePack(s), cfg) == OutlinePacks(HotPacks(order, s, cfg))
    ensures Mergeable(order, OutlinePack(s), cfg) == OutlinePack(Mergeable(order, s, cfg))
  {
    if order != [] {
      var n := |order| - 1;
      OutlineHotPacks(order[..n], s, cfg);
      OutlineGroup(s, order[n]);
      OutlineGreedy(Group(s, order[n]), cfg);
      MapConcat(OutlinePack, HotPacks(order[..n], s, cfg), if Hot(s, order[n], cfg) then Greedy(Group(s, order[n]), cfg) else []);
      MapConcat(Outline, Mergeable(order[..n], s, cfg), if Hot(s, order[n], cfg) then [] else Group(s, order[n]));
    }
  }

  lemma OutlineRefs(packs: seq<seq<Candidate>>)
    ensures AsPacks(OutlinePacks(packs)) == AsPacks(packs)
  {
    forall i | 0 <= i < |packs| ensures Refs(OutlinePack(packs[i])) == Refs(packs[i]) {}
  }

  /** The returned packs depend on the outlines of the candidates only. */
  lemma OnlyOutlinesMatter(cands: seq<Candidate>, config: Config)
    ensures Packs(OutlinePack(cands), config) == Packs(cands, config)
  {
    var s, cfg := StableSort(CompareCandidates, cands), ApplyDefaults(config);
    forall c, d ensures CompareCandidates(Outline(c), Outline(d)) == CompareCandidates(c, d) { OutlineKeeps(c, d); }
    SortMap(CompareCandidates, CompareCandidates, Outline, cands);
    OutlinePathOrder(s);
    OutlineHotPacks(PathOrder(s), s, cfg);
    OutlineGreedy(Mergeable(PathOrder(s), s, cfg), cfg);
    MapConcat(OutlinePack, HotPacks(PathOrder(s), s, cfg), Greedy(Mergeable(PathOrder(s), s, cfg), cfg));
    OutlineRefs(PackAll(cands, config));
  }

  // ----- input order -----

  /** Different candidates that agree on everything the packing sorts by. */
  predicate Twins(c: Candidate, d: Candidate) {
    c != d && SameKeys(c, d)
  }

  predicate SameKeys(c: Candidate, d: Candidate) {
    c.path == d.path && c.startRow == d.startRow && c.ref == d.ref
  }

  ghost predicate NoTwins(cands: seq<Candidate>) {
    forall c, d | c in cands && d in cands :: !Twins(c, d)
  }

  ghost predicate TwinsAgree(cands: seq<Candidate>) {
    forall c, d | c in cands && d in cands && Twins(c, d) :: EstimateTokens(c) == EstimateTokens(d)
  }

  lemma TwinsTie(c: Candidate, d: Candidate)
    ensures CompareCandidates(c, d) == 0 <==> c == d || Twins(c, d)
  {
    var cs := [CompareText(c.path, d.path), CompareInt(c.startRow, d.startRow), CompareText(c.ref, d.ref)];
    OrZero(cs);
    TextDecides(c.path, d.path);
    TextDecides(c.ref, d.ref);
    if CompareCandidates(c, d) == 0 { assert cs[0] == 0 && cs[1] == 0 && cs[2] == 0; }
  }

  lemma NoTwinsOrderFree(cands: seq<Candidate>, shuffled: seq<Candidate>, config: Config)
    requires multiset(cands) == multiset(shuffled) && NoTwins(cands)
    ensures PackAll(cands, config) == PackAll(shuffled, config)
  {
    CandidateLaws();
    forall c, d | c in multiset(cands) && d in multiset(cands) && CompareCandidates(c, d) == 0 ensures c == d {
      assert c in cands && d in cands;
      TwinsTie(c, d);
    }
    SortCanonical(CompareCandidates, cands, shuffled);
  }

  lemma OutlinesHaveNoTwins(cands: seq<Candidate>)
    requires TwinsAgree(cands)
    ensures NoTwins(OutlinePack(cands))
  {
    forall a, b | a in OutlinePack(cands) && b in OutlinePack(cands) ensures !Twins(a, b) {
      var i :| 0 <= i < |cands| && Outline(cands[i]) == a;
      var j :| 0 <= j < |cands| && Outline(cands[j]) == b;
      OutlinesDecide(cands[i], cands[j]);
    }
  }

  lemma OutlinesDecide(c: Candidate, d: Candidate)
    requires Twins(c, d) ==> EstimateTokens(c) == EstimateTokens(d)
    ensures !Twins(Outline(c), Outline(d))
  {
  }

  /** The returned packs do not show the order of the candidates when twins have equal estimates. */
  lemma AgreeingTwinsOrderFree(cands: seq<Candidate>, shuffled: seq<Candidate>, config: Config)
    requires multiset(cands) == multiset(shuffled) && TwinsAgree(cands)
    ensures Packs(cands, config) == Packs(shuffled, config)
  {
    OutlinesHaveNoTwins(cands);
    MapPermutes(Outline, cands, shuffled);
    NoTwinsOrderFree(OutlinePack(cands), OutlinePack(shuffled), config);
    OnlyOutlinesMatter(cands, config);
    OnlyOutlinesMatter(shuffled, config);
  }

  ghost predicate SwapHides(c: Candidate, d: Candidate, before: seq<Candidate>, mid: seq<Candidate>, after: seq<Candidate>,
                            config: Config) {
    Packs(before + [c] + mid + [d] + after, config) == Packs(before + [d] + mid + [c] + after, config)
  }

  /** Two candidates with the same keys can be swapped in every list under every configuration exactly when their
      estimates agree. */
  lemma SwapHidesExactlyWhen(c: Candidate, d: Candidate)
    requires SameKeys(c, d)
    ensures EstimateTokens(c) == EstimateTokens(d) <==> forall before, mid, after, config :: SwapHides(c, d, before, mid, after, config)
  {
    if EstimateTokens(c) == EstimateTokens(d) {
      forall before, mid, after, config ensures SwapHides(c, d, before, mid, after, config) {
        EqualOutlinesHide(c, d, before, mid, after, config);
      }
    } else if EstimateTokens(c) < EstimateTokens(d) {
      EstimatesShow(c, d);
    } else {
      EstimatesShow(d, c);
    }
  }

  lemma EqualOutlinesHide(c: Candidate, d: Candidate, before: seq<Candidate>, mid: seq<Candidate>, after: seq<Candidate>,
                          config: Config)
    requires Outline(c) == Outline(d)
    ensures SwapHides(c, d, before, mid, after, config)
  {
    var s, t := before + [c] + mid + [d] + after, before + [d] + mid + [c] + after;
    assert OutlinePack(s) == OutlinePack(t);
    OnlyOutlinesMatter(s, config);
    OnlyOutlinesMatter(t, config);
  }

  /** A third candidate behind two twins, and a token cap at which it fits beside `c` only. */
  predicate Tight(c: Candidate, d: Candidate, z: Candidate, maxTokens: int) {
    && SameKeys(c, d) && z.path == c.path && CompareCandidates(c, z) < 0
    && PROMPT_OVERHEAD + EstimateTokens(c) + EstimateTokens(z) <= maxTokens
    && PROMPT_OVERHEAD + EstimateTokens(d) + EstimateTokens(z) > maxTokens
    && PROMPT_OVERHEAD + EstimateTokens(c) + EstimateTokens(d) > maxTokens
  }

  function ThreeOfOneFile(maxTokens: int): Config {
    Config(4, maxTokens, 5, 15)
  }

  lemma SortedThree(x: Candidate, y: Candidate, z: Candidate)
    requires SameKeys(x, y) && CompareCandidates(x, z) < 0
    ensures StableSort(CompareCandidates, [x, y, z]) == [x, y, z]
  {
    CandidateLaws();
    TwinsTie(x, y);
    SameSide(CompareCandidates, x, y, z);
    assert [x, y, z][1..] == [y, z] && [y, z][1..] == [z] && [z][1..] == [];
    assert StableSort(CompareCandidates, [z]) == [z];
    assert StableSort(CompareCandidates, [y, z]) == [y, z];
  }

  lemma OnePath(x: Candidate, y: Candidate, z: Candidate)
    requires x.path == y.path == z.path
    ensures PathOrder([x, y, z]) == [x.path] && Group([x, y, z], x.path) == [x, y, z]
  {
    assert [x, y, z][..2] == [x, y] && [x, y][..1] == [x] && [x][..0] == [];
    FilterAll((c: Candidate) => c.path == x.path, [x, y, z]);
    assert PathOrder([x]) == [x.path];
    assert PathOrder([x, y]) == [x.path];
  }

  lemma PackedThree(x: Candidate, y: Candidate, z: Candidate, maxTokens: int, packs: seq<seq<Candidate>>)
    requires SameKeys(x, y) && z.path == x.path && CompareCandidates(x, z) < 0 && maxTokens > 0
    requires Partition(packs, [x, y, z], ThreeOfOneFile(maxTokens)) && Full(packs, ThreeOfOneFile(maxTokens))
    ensures PackAll([x, y, z], ThreeOfOneFile(maxTokens)) == packs
  {
    var s, cfg := [x, y, z], ThreeOfOneFile(maxTokens);
    SortedThree(x, y, z);
    OnePath(x, y, z);
    assert [x.path][..0] == [] && [] + s == s;
    assert !Hot(s, x.path, cfg) && HotPacks([], s, cfg) == [] && Mergeable([], s, cfg) == [];
    assert HotPacks([x.path], s, cfg) == [] && Mergeable([x.path], s, cfg) == s;
    assert ApplyDefaults(cfg) == cfg;
    GreedyIs(packs, s, cfg);
    assert [] + packs == packs;
  }

  lemma FlattenCons(p: seq<Candidate>, rest: seq<seq<Candidate>>)
    ensures Flatten([p] + rest) == p + Flatten(rest)
    ensures rest == [] ==> Flatten([p]) == p
  {
    assert ([p] + rest)[1..] == rest && [p][1..] == [];
  }

  lemma TwoCaps(x: Candidate, y: Candidate, maxTokens: int)
    ensures Fits([x, y], ThreeOfOneFile(maxTokens)) <==> PROMPT_OVERHEAD + EstimateTokens(x) + EstimateTokens(y) <= maxTokens
  {
    assert [x, y][..1] == [x] && [x][..0] == [];
    assert Tokens([x]) == EstimateTokens(x);
  }

  lemma Apart(x: Candidate, y: Candidate, z: Candidate, maxTokens: int)
    requires PROMPT_OVERHEAD + EstimateTokens(x) + EstimateTokens(y) > maxTokens
    requires PROMPT_OVERHEAD + EstimateTokens(y) + EstimateTokens(z) > maxTokens
    ensures Partition([[x], [y], [z]], [x, y, z], ThreeOfOneFile(maxTokens))
    ensures Full([[x], [y], [z]], ThreeOfOneFile(maxTokens))
  {
    FlattenCons([z], []);
    FlattenCons([y], [[z]]);
    FlattenCons([x], [[y], [z]]);
    assert [[x]] + [[y], [z]] == [[x], [y], [z]] && [[y]] + [[z]] == [[y], [z]] && [x] + ([y] + [z]) == [x, y, z];
    TwoCaps(x, y, maxTokens);
    TwoCaps(y, z, maxTokens);
    assert [x] + [y] == [x, y] && [y] + [z] == [y, z];
  }

  lemma Joined(x: Candidate, y: Candidate, z: Candidate, maxTokens: int)
    requires PROMPT_OVERHEAD + EstimateTokens(x) + EstimateTokens(y) > maxTokens
    requires PROMPT_OVERHEAD + EstimateTokens(y) + EstimateTokens(z) <= maxTokens
    ensures Partition([[x], [y, z]], [x, y, z], ThreeOfOneFile(maxTokens))
    ensures Full([[x], [y, z]], ThreeOfOneFile(maxTokens))
  {
    FlattenCons([y, z], []);
    FlattenCons([x], [[y, z]]);
    assert [[x]] + [[y, z]] == [[x], [y, z]] && [x] + [y, z] == [x, y, z];
    TwoCaps(x, y, maxTokens);
    TwoCaps(y, z, maxTokens);
    assert [x] + [y] == [x, y];
  }

  lemma TwinsSortAlike(c: Candidate, d: Candidate, z: Candidate)
    requires SameKeys(c, d)
    ensures CompareCandidates(c, z) < 0 <==> CompareCandidates(d, z) < 0
  {
  }

  /** With the larger twin first the third candidate shares a pack, with the smaller one first it does not. */
  lemma OrderShows(c: Candidate, d: Candidate, z: Candidate, maxTokens: int)
    requires Tight(c, d, z, maxTokens)
    ensures Packs([c, d, z], ThreeOfOneFile(maxTokens)) == [JudgmentPack([c.ref]), JudgmentPack([c.ref]), JudgmentPack([z.ref])]
    ensures Packs([d, c, z], ThreeOfOneFile(maxTokens)) == [JudgmentPack([c.ref]), JudgmentPack([c.ref, z.ref])]
  {
    Apart(c, d, z, maxTokens);
    PackedThree(c, d, z, maxTokens, [[c], [d], [z]]);
    assert Refs([c]) == [c.ref] && Refs([d]) == [c.ref] && Refs([z]) == [z.ref] && Refs([c, z]) == [c.ref, z.ref];
    Joined(d, c, z, maxTokens);
    TwinsSortAlike(c, d, z);
    PackedThree(d, c, z, maxTokens, [[d], [c, z]]);
  }

  lemma LaterParts(c: Candidate, z: Candidate)
    requires CompareText(c.path, z.path) == 0
    requires c.startRow < z.startRow || (c.startRow == z.startRow && CompareText(c.ref, z.ref) < 0)
    ensures CompareCandidates(c, z) < 0
  {
    var cs := [CompareText(c.path, z.path), CompareInt(c.startRow, z.startRow), CompareText(c.ref, z.ref)];
    assert cs[1..][0] == cs[1] && cs[1..][1..][0] == cs[2];
    assert Or(cs) == Or(cs[1..]) && Or(cs[1..]) == if cs[1] != 0 then cs[1] else Or(cs[1..][1..]);
  }

  lemma EstimatesShow(c: Candidate, d: Candidate)
    requires SameKeys(c, d) && EstimateTokens(c) < EstimateTokens(d)
    ensures exists z, config :: !SwapHides(c, d, [], [], [z], config) && !SwapHides(d, c, [], [], [z], config)
  {
    var z := c.(startRow := c.startRow + 1);
    var maxTokens := PROMPT_OVERHEAD + EstimateTokens(c) + EstimateTokens(d) - 1;
    TextDecides(c.path, c.path);
    LaterParts(c, z);
    OrderShows(c, d, z, maxTokens);
    SwapShows(c, d, z, ThreeOfOneFile(maxTokens));
  }

  lemma SwapShows(c: Candidate, d: Candidate, z: Candidate, config: Config)
    requires |Packs([c, d, z], config)| != |Packs([d, c, z], config)|
    ensures !SwapHides(c, d, [], [], [z], config) && !SwapHides(d, c, [], [], [z], config)
  {
    assert [] + [c] + [] + [d] + [z] == [c, d, z];
    assert [] + [d] + [] + [c] + [z] == [d, c, z];
  }

  /** Twins of 40 and 400 bytes show under a cap of 169 tokens, with a third candidate of 120 bytes. */
  lemma FortyBeforeFourHundred(severity: string, confidence: string)
    ensures var c := Candidate("r", "p", 1, severity, confidence, 40, 0);
            var d, z := c.(payloadBytes := 400), Candidate("z", "p", 1, severity, confidence, 120, 0);
            && Packs([c, d, z], ThreeOfOneFile(169)) == [JudgmentPack(["r"]), JudgmentPack(["r"]), JudgmentPack(["z"])]
            && Packs([d, c, z], ThreeOfOneFile(169)) == [JudgmentPack(["r"]), JudgmentPack(["r", "z"])]
  {
    var c := Candidate("r", "p", 1, severity, confidence, 40, 0);
    var d, z := c.(payloadBytes := 400), Candidate("z", "p", 1, severity, confidence, 120, 0);
    TextDecides("p", "p");
    assert CompareText("r", "z") < 0;
    LaterParts(c, z);
    OrderShows(c, d, z, 169);
  }
}
