/** Layer violations on their way into the lifecycle: their semantic keys (pkg/codesignal/rule_layer_violation.go,
    project_lifecycle.go). */
module LayerFindings {
  import opened Filtering
  import Grouping
  import LayerMembership
  import opened LayerRules
  import opened Options
  import opened Ordering
  import ProjectLifecycle

  const ARROW := "->"

  function Joined(key: PairKey): string {
    key.importer + ARROW + key.importee
  }

  function SemanticKey(key: PairKey): string {
    "architecture.layer_violation:" + Joined(key)
  }

  /** Both pairs read `b.importer -> middle -> a.importee`, cut at different arrows. */
  predicate Straddles(a: PairKey, b: PairKey, middle: string) {
    a.importer == b.importer + ARROW + middle && b.importee == middle + ARROW + a.importee
  }

  ghost predicate Ambiguous(a: PairKey, b: PairKey) {
    exists middle :: Straddles(a, b, middle)
  }

  lemma StraddlingShares(a: PairKey, b: PairKey, middle: string)
    requires Straddles(a, b, middle)
    ensures Joined(a) == Joined(b)
  {
    assert Joined(a) == b.importer + ARROW + middle + ARROW + a.importee == Joined(b);
  }

  lemma LongerStraddles(a: PairKey, b: PairKey)
    requires Joined(a) == Joined(b) && |a.importer| > |b.importer|
    ensures Ambiguous(a, b)
  {
    var s, m, n := Joined(a), |b.importer|, |a.importer|;
    assert s[..n] == a.importer && s[n..] == ARROW + a.importee;
    assert s[..m] == b.importer && s[m..] == ARROW + b.importee;
    assert s[n] == '-' && s[m + 1] == '>';
    var middle := s[m + 2..n];
    assert a.importer == s[..m] + s[m..m + 2] + s[m + 2..n] && s[m..m + 2] == ARROW;
    assert b.importee == s[m + 2..] == s[m + 2..n] + s[n..];
    assert b.importee == middle + ARROW + a.importee;
    assert Straddles(a, b, middle);
  }

  /** Two pairs share a semantic key exactly when they are one, or one importer's path contains an arrow at which the
      other pair is cut. */
  lemma SameKeyExactlyWhen(a: PairKey, b: PairKey)
    ensures SemanticKey(a) == SemanticKey(b) <==> a == b || Ambiguous(a, b) || Ambiguous(b, a)
  {
    var prefix := "architecture.layer_violation:";
    assert SemanticKey(a)[|prefix|..] == Joined(a) && SemanticKey(b)[|prefix|..] == Joined(b);
    if Joined(a) == Joined(b) {
      if |a.importer| > |b.importer| {
        LongerStraddles(a, b);
      } else if |b.importer| > |a.importer| {
        LongerStraddles(b, a);
      } else {
        assert a.importer == Joined(a)[..|a.importer|] == b.importer;
        assert a.importee == Joined(a)[|a.importer| + 2..] == b.importee;
      }
    }
    if m :| Straddles(a, b, m) { StraddlingShares(a, b, m); }
    if m :| Straddles(b, a, m) { StraddlingShares(b, a, m); }
  }

  // ----- indexing -----

  function KeyOf(ch: ProjectLifecycle.ProjectChange): string {
    ch.semanticKey
  }

  lemma IndexedKeys(changes: seq<ProjectLifecycle.ProjectChange>, key: string)
    ensures key in ProjectLifecycle.FirstByKey(changes) <==> key in Map(KeyOf, changes)
  {
    ProjectLifecycle.FirstByKeyHolds(changes);
    if key in Map(KeyOf, changes) {
      var i :| 0 <= i < |changes| && Map(KeyOf, changes)[i] == key;
      ProjectLifecycle.KeysAreIndexed(changes, changes[i]);
    }
    if key in ProjectLifecycle.FirstByKey(changes) {
      var i :| 0 <= i < |changes| && changes[i] == ProjectLifecycle.FirstByKey(changes)[key];
      assert Map(KeyOf, changes)[i] == key;
    }
  }

  lemma DistinctSnoc(keys: seq<string>, key: string)
    ensures Distinct(keys + [key]) <==> Distinct(keys) && key !in keys
  {
    var all := keys + [key];
    if Distinct(all) {
      forall i, j | 0 <= i < j < |keys| ensures keys[i] != keys[j] { assert all[i] != all[j]; }
      forall i | 0 <= i < |keys| ensures keys[i] != key { assert all[i] != all[|keys|]; }
    }
  }

  /** Indexing drops no change exactly when all semantic keys differ. */
  lemma {:induction false} NothingRepeatsExactlyWhen(changes: seq<ProjectLifecycle.ProjectChange>)
    ensures ProjectLifecycle.Repeats(changes) == [] <==> Distinct(Map(KeyOf, changes))
  {
    if changes != [] {
      var before, last := changes[..|changes| - 1], changes[|changes| - 1];
      NothingRepeatsExactlyWhen(before);
      IndexedKeys(before, last.semanticKey);
      DistinctSnoc(Map(KeyOf, before), last.semanticKey);
      assert Map(KeyOf, changes) == Map(KeyOf, before) + [last.semanticKey];
    }
  }

  /** The changes carry the keys of the violations, one for one. */
  ghost predicate Carries(changes: seq<ProjectLifecycle.ProjectChange>, vs: seq<Violation>) {
    |changes| == |vs| && forall i | 0 <= i < |vs| :: changes[i].semanticKey == SemanticKey(vs[i].key)
  }

  ghost predicate Unambiguous(keys: set<PairKey>) {
    forall a, b | a in keys && b in keys :: !Ambiguous(a, b)
  }

  lemma NoSelfStraddle(a: PairKey, middle: string)
    ensures !Straddles(a, a, middle)
  {
    assert |a.importer + ARROW + middle| > |a.importer|;
  }

  lemma KeysDifferExactlyWhen(keys: seq<PairKey>)
    requires forall i, j | 0 <= i < j < |keys| :: keys[i] != keys[j]
    ensures Distinct(Map(SemanticKey, keys)) <==> forall a, b | a in keys && b in keys :: !Ambiguous(a, b)
  {
    if Distinct(Map(SemanticKey, keys)) {
      forall a, b | a in keys && b in keys ensures !Ambiguous(a, b) {
        var i :| 0 <= i < |keys| && keys[i] == a;
        var j :| 0 <= j < |keys| && keys[j] == b;
        SameKeyExactlyWhen(a, b);
        forall m ensures !Straddles(a, a, m) { NoSelfStraddle(a, m); }
        if i < j { assert Map(SemanticKey, keys)[i] != Map(SemanticKey, keys)[j]; }
        if j < i { assert Map(SemanticKey, keys)[j] != Map(SemanticKey, keys)[i]; }
      }
    }
    if forall a, b | a in keys && b in keys :: !Ambiguous(a, b) {
      forall i, j | 0 <= i < j < |keys| ensures SemanticKey(keys[i]) != SemanticKey(keys[j]) {
        assert keys[i] in keys && keys[j] in keys;
        SameKeyExactlyWhen(keys[i], keys[j]);
      }
    }
  }

  /** The lifecycle keeps every reported violation exactly when no two violating pairs are ambiguous; otherwise it drops
      one as a duplicate. */
  lemma EveryViolationKeptExactlyWhen(edges: seq<ImportEdge>, policy: Policy, changes: seq<ProjectLifecycle.ProjectChange>)
    requires Carries(changes, Violations(edges, policy))
    ensures ProjectLifecycle.Repeats(changes) == [] <==> Unambiguous(Grouping.Keys(edges, PairOf(policy)))
  {
    var keys := ListedKeys(edges, policy);
    KeptExactlyWhen(keys, Grouping.Keys(edges, PairOf(policy)), Violations(edges, policy), changes);
  }

  lemma ListedKeys(edges: seq<ImportEdge>, policy: Policy) returns (keys: seq<PairKey>)
    ensures |Violations(edges, policy)| == |keys| && forall i | 0 <= i < |keys| :: Violations(edges, policy)[i].key == keys[i]
    ensures forall i, j | 0 <= i < j < |keys| :: keys[i] != keys[j]
    ensures forall k :: k in keys <==> k in Grouping.Keys(edges, PairOf(policy))
  {
    keys := SortedSet(CompareKeys, Grouping.Keys(edges, PairOf(policy)));
    ViolationsHold(edges, policy);
  }

  lemma KeptExactlyWhen(keys: seq<PairKey>, all: set<PairKey>, vs: seq<Violation>, changes: seq<ProjectLifecycle.ProjectChange>)
    requires |vs| == |keys| && forall i | 0 <= i < |keys| :: vs[i].key == keys[i]
    requires forall i, j | 0 <= i < j < |keys| :: keys[i] != keys[j]
    requires Carries(changes, vs) && forall k :: k in keys <==> k in all
    ensures ProjectLifecycle.Repeats(changes) == [] <==> Unambiguous(all)
  {
    NothingRepeatsExactlyWhen(changes);
    KeysDifferExactlyWhen(keys);
    assert Map(KeyOf, changes) == Map(SemanticKey, keys);
  }

  predicate ArrowAt(path: string, m: nat) {
    m + 2 <= |path| && path[m..m + 2] == ARROW
  }

  ghost predicate HasArrow(path: string) {
    exists m :: ArrowAt(path, m)
  }

  lemma StraddlingNeedsArrow(a: PairKey, b: PairKey, middle: string)
    requires Straddles(a, b, middle)
    ensures HasArrow(a.importer)
  {
    assert ArrowAt(a.importer, |b.importer|);
  }

  /** Importers without arrows are always enough. */
  lemma NoArrowsNoLoss(edges: seq<ImportEdge>, policy: Policy, changes: seq<ProjectLifecycle.ProjectChange>)
    requires Carries(changes, Violations(edges, policy))
    requires forall key | key in Grouping.Keys(edges, PairOf(policy)) :: !HasArrow(key.importer)
    ensures ProjectLifecycle.Repeats(changes) == []
  {
    var keys := Grouping.Keys(edges, PairOf(policy));
    forall a, b | a in keys && b in keys ensures !Ambiguous(a, b) {
      if middle :| Straddles(a, b, middle) { StraddlingNeedsArrow(a, b, middle); }
    }
    EveryViolationKeptExactlyWhen(edges, policy, changes);
  }

  /** However the changes of the report are built, the lifecycle drops one of them as a duplicate. */
  ghost predicate Loses(edges: seq<ImportEdge>, policy: Policy) {
    forall changes :: Carries(changes, Violations(edges, policy)) ==> ProjectLifecycle.Repeats(changes) != []
  }

  /** Two edges whose violating pairs are ambiguous cost the report a violation. */
  lemma AmbiguityLosesAViolation(edges: seq<ImportEdge>, policy: Policy, a: PairKey, b: PairKey, middle: string)
    requires Straddles(a, b, middle)
    requires a in Grouping.Keys(edges, PairOf(policy)) && b in Grouping.Keys(edges, PairOf(policy))
    ensures Loses(edges, policy)
  {
    NotUnambiguous(Grouping.Keys(edges, PairOf(policy)), a, b, middle);
    forall changes | Carries(changes, Violations(edges, policy)) ensures ProjectLifecycle.Repeats(changes) != [] {
      EveryViolationKeptExactlyWhen(edges, policy, changes);
    }
  }

  lemma NotUnambiguous(keys: set<PairKey>, a: PairKey, b: PairKey, middle: string)
    requires a in keys && b in keys && Straddles(a, b, middle)
    ensures !Unambiguous(keys)
  {
  }

  /** A file whose name has an arrow imports another, and a plain file imports one whose name has an arrow. */
  function Clashing(site: string, otherSite: string): seq<ImportEdge> {
    [ImportEdge("file:x.ts->y.ts", "file:z.ts", "import", site), ImportEdge("file:x.ts", "file:y.ts->z.ts", "import", otherSite)]
  }

  /** One layer holds everything and must not import itself. */
  function Strict(layer: string): Policy {
    Policy(TypeScript, [LayerMembership.Layer(layer, ["."])], [Forbidden(layer, layer)], false)
  }

  lemma RootForbidsAll(e: ImportEdge, layer: string, from: string, to: string)
    requires e.kind == "import" && e.from == FILE_PREFIX + from && e.to == FILE_PREFIX + to
    ensures ForbiddenPair(e, Strict(layer)) == Some(PairKey(from, to))
  {
    assert e.from[|FILE_PREFIX|..] == from && e.to[|FILE_PREFIX|..] == to;
    assert LayerMembership.Contains(".", from) && LayerMembership.Contains(".", to);
    assert "." in Strict(layer).layers[0].prefixes;
  }

  const FIRST := PairKey("x.ts->y.ts", "z.ts")
  const SECOND := PairKey("x.ts", "y.ts->z.ts")

  lemma IsKey(edges: seq<ImportEdge>, policy: Policy, i: nat)
    requires i < |edges| && ForbiddenPair(edges[i], policy).Some?
    ensures ForbiddenPair(edges[i], policy).value in Grouping.Keys(edges, PairOf(policy))
  {
  }

  lemma ClashingPairs(site: string, otherSite: string, layer: string)
    ensures FIRST in Grouping.Keys(Clashing(site, otherSite), PairOf(Strict(layer)))
    ensures SECOND in Grouping.Keys(Clashing(site, otherSite), PairOf(Strict(layer)))
  {
    RootForbidsAll(Clashing(site, otherSite)[0], layer, FIRST.importer, FIRST.importee);
    RootForbidsAll(Clashing(site, otherSite)[1], layer, SECOND.importer, SECOND.importee);
    IsKey(Clashing(site, otherSite), Strict(layer), 0);
    IsKey(Clashing(site, otherSite), Strict(layer), 1);
  }

  lemma ClashingStraddle()
    ensures Straddles(FIRST, SECOND, "y.ts")
  {
  }

  /** Such edges exist, and the lifecycle keeps only one of the two violations. */
  lemma ArrowsClash(site: string, otherSite: string, layer: string)
    ensures Loses(Clashing(site, otherSite), Strict(layer))
  {
    ClashingPairs(site, otherSite, layer);
    ClashingStraddle();
    AmbiguityLosesAViolation(Clashing(site, otherSite), Strict(layer), FIRST, SECOND, "y.ts");
  }
}
