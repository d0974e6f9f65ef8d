/** What the classification of project changes means, in words of the changes' own fields
    (pkg/codesignal/project_lifecycle.go, project_lifecycle_state.go, project_continuity.go, project_fingerprint.go). */
module LifecycleMeaning {
  import opened FactOrder
  import opened FieldEncoding
  import opened Filtering
  import opened Options
  import opened Ordering
  import opened ProjectLifecycle

  // ----- indeterminacy -----

  /** The head is incomplete without complete coverage, the base without it if it was analysed at all, and base changes
      without an analysis contradict themselves. */
  lemma StateMeans(headCoverage: Option<bool>, baseAnalyzed: bool, baseCoverage: Option<bool>, baseChanges: nat)
    ensures var s := LifecycleState(headCoverage, baseAnalyzed, baseCoverage, baseChanges);
      && (s.headIncomplete <==> headCoverage == None || headCoverage == Some(false))
      && (s.baseIncomplete <==> baseAnalyzed && (baseCoverage == None || baseCoverage == Some(false)))
      && (s.inconsistentBase <==> !baseAnalyzed && baseChanges > 0)
      && ("project_coverage_incomplete" in StateDiagnostics(headCoverage, s) <==> headCoverage == Some(false))
      && ("project_lifecycle_indeterminate" in StateDiagnostics(headCoverage, s)
          <==> s.headIncomplete || s.baseIncomplete || s.inconsistentBase)
  {
    NotTrue(headCoverage);
    NotTrue(baseCoverage);
  }

  lemma NotTrue(o: Option<bool>)
    ensures o != Some(true) <==> o == None || o == Some(false)
  {
    match o
    case None =>
    case Some(b) => assert b == true || b == false;
  }

  lemma ContinuityMeans(pairs: seq<PathContinuity>, p: string)
    ensures p in ContinuityOf(pairs).head <==> p != "" && exists pair | pair in pairs :: pair.path == p
    ensures p in ContinuityOf(pairs).base <==> p != "" && exists pair | pair in pairs :: pair.previousPath == p
  {
  }

  // ----- touching a moved path -----

  /** Some location of the change is at the path: its anchor, a related location or a source location of a step. */
  predicate LocatedOn(ch: ProjectChange, p: string) {
    || ch.anchor.path == p
    || (exists l | l in ch.nested.related :: l.path == p)
    || (exists step, l | step in ch.nested.steps && l in step.sourceLocations :: l.path == p)
  }

  /** Its importer or importee is the path, or the directory of it. */
  predicate Names(ch: ProjectChange, p: string, dir: string -> string) {
    (ch.importer != "" && (ch.importer == p || ch.importer == dir(p))) || (ch.importee != "" && (ch.importee == p || ch.importee == dir(p)))
  }

  lemma LocatedAtMeans(locations: seq<ProjectLocation>, p: string)
    ensures p in LocatedAt(locations) <==> exists l | l in locations :: l.path == p
  {
    if p in LocatedAt(locations) {
      var i :| 0 <= i < |locations| && LocatedAt(locations)[i] == p;
      assert locations[i] in locations;
    }
    if l :| l in locations && l.path == p {
      var i :| 0 <= i < |locations| && locations[i] == l;
      assert LocatedAt(locations)[i] == p;
    }
  }

  lemma LocationPathsMean(ch: ProjectChange, p: string)
    ensures p in LocationPaths(ch) <==> LocatedOn(ch, p)
  {
    var f := (step: PathStep) => LocatedAt(step.sourceLocations);
    LocatedAtMeans(ch.nested.related, p);
    FlatMapMembers(f, ch.nested.steps, p);
    forall step | step in ch.nested.steps ensures p in f(step) <==> exists l | l in step.sourceLocations :: l.path == p {
      LocatedAtMeans(step.sourceLocations, p);
    }
    assert p in FlatMap(f, ch.nested.steps) <==> exists step :: step in ch.nested.steps && p in f(step);
  }

  lemma TouchesExactly(ch: ProjectChange, moved: set<string>, dir: string -> string)
    ensures Touches(ch, moved, dir) <==> exists p | p in moved :: LocatedOn(ch, p) || Names(ch, p, dir)
  {
    forall p ensures p in LocationPaths(ch) <==> LocatedOn(ch, p) { LocationPathsMean(ch, p); }
    forall p ensures IdentityTouches(ch, p, dir) <==> Names(ch, p, dir) { IdentityMeans(ch, p, dir); }
  }

  lemma IdentityMeans(ch: ProjectChange, p: string, dir: string -> string)
    ensures IdentityTouches(ch, p, dir) <==> Names(ch, p, dir)
  {
    if Names(ch, p, dir) {
      var i := if ch.importer != "" && (ch.importer == p || ch.importer == dir(p)) then ch.importer else ch.importee;
      assert i in IdentityPaths(ch);
    }
    if IdentityTouches(ch, p, dir) {
      var i :| i in IdentityPaths(ch) && (i == p || i == dir(p));
      assert i != "" && (i == ch.importer || i == ch.importee);
    }
  }

  lemma {:induction false} FirstIsEarliest<T>(keep: T -> bool, s: seq<T>)
    ensures FirstWhere(keep, s).Some? ==> exists i :: 0 <= i < |s| && EarliestAt(keep, s, i) && s[i] == FirstWhere(keep, s).value
  {
    if s != [] {
      if keep(s[0]) {
        assert EarliestAt(keep, s, 0);
      } else if FirstWhere(keep, s).Some? {
        FirstIsEarliest(keep, s[1..]);
        var i :| 0 <= i < |s[1..]| && EarliestAt(keep, s[1..], i) && s[1..][i] == FirstWhere(keep, s[1..]).value;
        forall j | 0 <= j < i + 1 ensures !keep(s[j]) { if j > 0 { assert s[j] == s[1..][j - 1]; } }
        assert EarliestAt(keep, s, i + 1);
      }
    }
  }

  predicate EarliestAt<T>(keep: T -> bool, s: seq<T>, i: nat)
    requires i < |s|
  {
    keep(s[i]) && forall j | 0 <= j < i :: !keep(s[j])
  }

  predicate NoneAmong(locations: seq<ProjectLocation>, moved: set<string>) {
    forall l | l in locations :: l.path !in moved
  }

  /** The path that is named: of the moved ones the anchor, else the first among the related locations, else the first
      among the source locations of the steps, step by step; without any, the least of those the identities name. */
  lemma FirstMovedIsFirst(ch: ProjectChange, moved: set<string>, dir: string -> string)
    requires FirstMoved(ch, moved, dir).Some?
    ensures var p, related, steps := FirstMoved(ch, moved, dir).value, ch.nested.related, ch.nested.steps;
      && p in moved
      && (ch.anchor.path in moved ==> p == ch.anchor.path)
      && (ch.anchor.path !in moved ==>
            && (forall i | 0 <= i < |related| && NoneAmong(related[..i], moved) && related[i].path in moved :: p == related[i].path)
            && (NoneAmong(related, moved) ==>
                  forall i, j | 0 <= i < |steps| && 0 <= j < |steps[i].sourceLocations| && StepLeads(steps, i, j, moved) ::
                    p == steps[i].sourceLocations[j].path))
      && ((forall q | q in moved :: !LocatedOn(ch, q)) ==>
            Names(ch, p, dir) && forall q | q in moved && Names(ch, q, dir) :: TextAtMost(p, q))
  {
    var related, steps := ch.nested.related, ch.nested.steps;
    FirstMovedExactly(ch, moved, dir);
    AnchorLeads(ch, moved, dir);
    forall i | 0 <= i < |related| && ch.anchor.path !in moved && NoneAmong(related[..i], moved) && related[i].path in moved
      ensures FirstMoved(ch, moved, dir).value == related[i].path
    {
      RelatedLeads(ch, moved, dir, i);
    }
    forall i, j | 0 <= i < |steps| && 0 <= j < |steps[i].sourceLocations| && ch.anchor.path !in moved && NoneAmong(related, moved)
                  && StepLeads(steps, i, j, moved)
      ensures FirstMoved(ch, moved, dir).value == steps[i].sourceLocations[j].path
    {
      StepNamed(ch, moved, dir, i, j);
    }
    forall q ensures q in LocationPaths(ch) <==> LocatedOn(ch, q) { LocationPathsMean(ch, q); }
    if FirstWhere(Among(moved), LocationPaths(ch)).None? { LeastNamed(ch, moved, dir); }
  }

  /** Location `j` of step `i` is the first one at a moved path. */
  predicate StepLeads(steps: seq<PathStep>, i: nat, j: nat, moved: set<string>)
    requires i < |steps| && j < |steps[i].sourceLocations|
  {
    && steps[i].sourceLocations[j].path in moved
    && NoneAmong(steps[i].sourceLocations[..j], moved)
    && forall k | 0 <= k < i :: NoneAmong(steps[k].sourceLocations, moved)
  }

  lemma {:induction false} FirstAfter<T>(keep: T -> bool, before: seq<T>, x: T, after: seq<T>)
    requires keep(x) && forall y | y in before :: !keep(y)
    ensures FirstWhere(keep, before + [x] + after) == Some(x)
  {
    var s := before + [x] + after;
    if before != [] {
      FirstAfter(keep, before[1..], x, after);
      assert s[0] == before[0] && s[1..] == before[1..] + [x] + after;
    }
  }

  lemma AnchorLeads(ch: ProjectChange, moved: set<string>, dir: string -> string)
    ensures ch.anchor.path in moved ==> FirstMoved(ch, moved, dir) == Some(ch.anchor.path)
  {
    if ch.anchor.path in moved {
      var rest := LocationPaths(ch)[1..];
      assert LocationPaths(ch) == [] + [ch.anchor.path] + rest;
      FirstAfter(Among(moved), [], ch.anchor.path, rest);
    }
  }

  lemma RelatedLeads(ch: ProjectChange, moved: set<string>, dir: string -> string, i: nat)
    requires ch.anchor.path !in moved
    requires i < |ch.nested.related| && NoneAmong(ch.nested.related[..i], moved) && ch.nested.related[i].path in moved
    ensures FirstMoved(ch, moved, dir) == Some(ch.nested.related[i].path)
  {
    var paths := LocationPaths(ch);
    forall y | y in paths[..i + 1] ensures y !in moved {
      var k :| 0 <= k < i + 1 && paths[k] == y;
      if k > 0 { assert ch.nested.related[k - 1] in ch.nested.related[..i]; }
    }
    assert paths == paths[..i + 1] + [paths[i + 1]] + paths[i + 2..];
    FirstAfter(Among(moved), paths[..i + 1], paths[i + 1], paths[i + 2..]);
  }

  lemma StepNamed(ch: ProjectChange, moved: set<string>, dir: string -> string, i: nat, j: nat)
    requires ch.anchor.path !in moved && NoneAmong(ch.nested.related, moved)
    requires i < |ch.nested.steps| && j < |ch.nested.steps[i].sourceLocations| && StepLeads(ch.nested.steps, i, j, moved)
    ensures FirstMoved(ch, moved, dir) == Some(ch.nested.steps[i].sourceLocations[j].path)
  {
    var f, steps := (step: PathStep) => LocatedAt(step.sourceLocations), ch.nested.steps;
    var own, led := LocatedAt(steps[i].sourceLocations), [ch.anchor.path] + LocatedAt(ch.nested.related);
    var before, after := FlatMap(f, steps[..i]), FlatMap(f, steps[i + 1..]);
    StepsAround(ch, i);
    SplitAround(led + before, own, after, j);
    forall y | y in led ensures y !in moved { LocatedAtMeans(ch.nested.related, y); }
    forall y | y in before ensures y !in moved { EarlierStepsStay(steps[..i], moved, y); }
    forall y | y in own[..j] ensures y !in moved {
      var k :| 0 <= k < j && own[k] == y;
      assert steps[i].sourceLocations[k] in steps[i].sourceLocations[..j];
    }
    FirstAfter(Among(moved), led + before + own[..j], own[j], own[j + 1..] + after);
  }

  lemma StepsAround(ch: ProjectChange, i: nat)
    requires i < |ch.nested.steps|
    ensures var f, steps := (step: PathStep) => LocatedAt(step.sourceLocations), ch.nested.steps;
            LocationPaths(ch) == ([ch.anchor.path] + LocatedAt(ch.nested.related) + FlatMap(f, steps[..i]))
                                 + LocatedAt(steps[i].sourceLocations) + FlatMap(f, steps[i + 1..])
  {
    var f, steps := (step: PathStep) => LocatedAt(step.sourceLocations), ch.nested.steps;
    var led, before, own, after := [ch.anchor.path] + LocatedAt(ch.nested.related), FlatMap(f, steps[..i]), f(steps[i]), FlatMap(f, steps[i + 1..]);
    assert steps == (steps[..i] + [steps[i]]) + steps[i + 1..];
    FlatMapAround(f, steps[..i], steps[i], steps[i + 1..]);
    assert led + ((before + own) + after) == (led + before) + own + after;
  }

  lemma SplitAround<T>(before: seq<T>, own: seq<T>, after: seq<T>, j: nat)
    requires j < |own|
    ensures before + own + after == (before + own[..j]) + [own[j]] + (own[j + 1..] + after)
  {
    assert own == own[..j] + [own[j]] + own[j + 1..];
  }

  lemma EarlierStepsStay(steps: seq<PathStep>, moved: set<string>, y: string)
    requires forall step | step in steps :: NoneAmong(step.sourceLocations, moved)
    requires y in FlatMap((step: PathStep) => LocatedAt(step.sourceLocations), steps)
    ensures y !in moved
  {
    var f := (step: PathStep) => LocatedAt(step.sourceLocations);
    FlatMapMembers(f, steps, y);
    var step :| step in steps && y in f(step);
    LocatedAtMeans(step.sourceLocations, y);
  }

  lemma LeastNamed(ch: ProjectChange, moved: set<string>, dir: string -> string)
    requires FirstWhere(Named(ch, dir), SortedSet(CompareText, moved)).Some?
    ensures var p := FirstWhere(Named(ch, dir), SortedSet(CompareText, moved)).value;
            Names(ch, p, dir) && forall q | q in moved && Names(ch, q, dir) :: TextAtMost(p, q)
  {
    var sorted := SortedSet(CompareText, moved);
    FirstIsEarliest(Named(ch, dir), sorted);
    var i :| 0 <= i < |sorted| && EarliestAt(Named(ch, dir), sorted, i) && sorted[i] == FirstWhere(Named(ch, dir), sorted).value;
    IdentityMeans(ch, sorted[i], dir);
    forall q | q in moved && Names(ch, q, dir) ensures TextAtMost(sorted[i], q) {
      IdentityMeans(ch, q, dir);
      NoneBefore(moved, Named(ch, dir), i, q);
    }
  }

  lemma NoneBefore(moved: set<string>, keep: string -> bool, i: nat, q: string)
    requires i < |SortedSet(CompareText, moved)| && EarliestAt(keep, SortedSet(CompareText, moved), i) && q in moved && keep(q)
    ensures TextAtMost(SortedSet(CompareText, moved)[i], q)
  {
    var sorted := SortedSet(CompareText, moved);
    TextLaws();
    SortedSetHolds(CompareText, moved);
    assert q in sorted;
    var k :| 0 <= k < |sorted| && sorted[k] == q;
    if i < k { TextAtMostExactly(sorted[i], sorted[k]); }
  }

  // ----- changed -----

  /** A change is changed exactly when both sides are complete and it is either new and untouched by a move, or on both
      sides with another causal digest, or, if neither side has a digest, with another anchor. */
  lemma ChangedExactly(c: Comparison, key: string)
    requires Known(c, key)
    ensures ChangeAt(c, key).changed <==>
      && c.hasBase && !c.state.headIncomplete && !c.state.baseIncomplete && !c.state.inconsistentBase && key in c.head
      && if key !in c.base then !Touches(c.head[key], c.continuity.head, c.dir)
         else if c.head[key].causalDigest == "" && c.base[key].causalDigest == "" then c.head[key].anchor != c.base[key].anchor
         else c.head[key].causalDigest != c.base[key].causalDigest
  {
  }

  /** Classification sets lifecycle, change, evidence and identity, and nothing else. */
  lemma OtherFieldsStay(c: Comparison, key: string)
    requires Known(c, key)
    ensures var ch := ChangeAt(c, key);
            ch == (if key in c.head then c.head[key] else c.base[key]).(lifecycle := ch.lifecycle, changed := ch.changed,
                    evidence := ch.evidence, id := ch.id, fingerprint := ch.fingerprint)
  {
  }

  /** A change keeps its identity while its key, rule and versions stay, wherever it is found and whatever its evidence. */
  lemma IdentityIgnoresPlace(a: ProjectChange, b: ProjectChange, hash: string -> string)
    ensures a.semanticKey == b.semanticKey && a.ruleID == b.ruleID && a.versions == b.versions ==>
              WithID(a, hash).id == WithID(b, hash).id && WithID(a, hash).fingerprint == WithID(b, hash).fingerprint
    ensures Injective(hash) && Short([a.semanticKey, a.ruleID] + a.versions) && Short([b.semanticKey, b.ruleID] + b.versions)
            && WithID(a, hash).id == WithID(b, hash).id ==>
              a.semanticKey == b.semanticKey && a.ruleID == b.ruleID && a.versions == b.versions
  {
    var x, y := [a.semanticKey, a.ruleID] + a.versions, [b.semanticKey, b.ruleID] + b.versions;
    if Injective(hash) && Short(x) && Short(y) && WithID(a, hash).id == WithID(b, hash).id {
      TailsMatch("pchg_", hash(Encode(x)), hash(Encode(y)));
      EncodeInjective(x, y);
      assert x[0] == a.semanticKey && x[1] == a.ruleID && x[2..] == a.versions;
      assert y[0] == b.semanticKey && y[1] == b.ruleID && y[2..] == b.versions;
    }
  }

  // ----- diagnostics and order -----

  lemma DegradedMeans(path: string, s: State, d: Diagnostic)
    ensures d in Degraded(path, s) <==> d.path == path && ((d.cause.HeadIncomplete? && s.headIncomplete)
                                        || (d.cause.BaseIncomplete? && s.baseIncomplete) || (d.cause.InconsistentBase? && s.inconsistentBase))
  {
  }

  lemma MovedMeans(moved: Option<string>, cause: Cause, d: Diagnostic)
    ensures d in MovedDiagnostic(moved, cause) <==> d.cause == cause && moved == Some(d.path)
  {
  }

  /** What a key raises while the comparison is indeterminate: one diagnostic for each reason, at its anchor. */
  lemma IndeterminateRaises(c: Comparison, key: string, d: Diagnostic)
    requires Known(c, key) && (c.state.headIncomplete || c.state.baseIncomplete || c.state.inconsistentBase)
    ensures d in Raised(c, key) <==>
      && d.path == Original(c, key).anchor.path
      && ((d.cause.HeadIncomplete? && c.state.headIncomplete) || (d.cause.BaseIncomplete? && c.state.baseIncomplete)
          || (d.cause.InconsistentBase? && c.state.inconsistentBase))
  {
    DegradedMeans(Original(c, key).anchor.path, c.state, d);
  }

  /** Otherwise a key of one side only that touches a path moved there raises one diagnostic, which names the path. */
  lemma DeterminateRaises(c: Comparison, key: string, d: Diagnostic)
    requires Known(c, key) && c.hasBase && !c.state.headIncomplete && !c.state.baseIncomplete && !c.state.inconsistentBase
    ensures d in Raised(c, key) <==>
      || (d.cause.MovedOnHead? && key !in c.base && FirstMoved(c.head[key], c.continuity.head, c.dir) == Some(d.path))
      || (d.cause.MovedOnBase? && key !in c.head && FirstMoved(c.base[key], c.continuity.base, c.dir) == Some(d.path))
  {
    if key in c.head {
      MovedMeans(FirstMoved(c.head[key], c.continuity.head, c.dir), MovedOnHead, d);
    } else {
      MovedMeans(FirstMoved(c.base[key], c.continuity.base, c.dir), MovedOnBase, d);
    }
  }

  lemma SortedAscends(keys: set<string>, i: nat, j: nat)
    requires i < j < |SortedSet(CompareText, keys)|
    ensures TextAtMost(SortedSet(CompareText, keys)[i], SortedSet(CompareText, keys)[j])
  {
    TextLaws();
    SortedSetHolds(CompareText, keys);
    TextAtMostExactly(SortedSet(CompareText, keys)[i], SortedSet(CompareText, keys)[j]);
  }

  lemma OutsideAscends(keys: set<string>, taken: set<string>, i: nat, j: nat)
    requires i < j < |Outside(SortedSet(CompareText, keys), taken)|
    ensures TextAtMost(Outside(SortedSet(CompareText, keys), taken)[i], Outside(SortedSet(CompareText, keys), taken)[j])
  {
    var a, b := OutsideKeepsOrder(SortedSet(CompareText, keys), taken, i, j);
    SortedAscends(keys, a, b);
  }

  ghost predicate TextsAscend(s: seq<string>) {
    forall i, j | 0 <= i < j < |s| :: TextAtMost(s[i], s[j])
  }

  lemma OrderParts(c: Comparison) returns (heads: seq<string>, others: seq<string>)
    ensures Order(c) == heads + others && TextsAscend(heads) && TextsAscend(others)
    ensures (forall k | k in heads :: k in c.head) && (forall k | k in others :: k !in c.head)
  {
    heads, others := SortedSet(CompareText, c.head.Keys), Outside(SortedSet(CompareText, c.base.Keys), c.head.Keys);
    SortedTexts(c.head.Keys);
    forall i, j | 0 <= i < j < |heads| ensures TextAtMost(heads[i], heads[j]) { SortedAscends(c.head.Keys, i, j); }
    forall i, j | 0 <= i < j < |others| ensures TextAtMost(others[i], others[j]) { OutsideAscends(c.base.Keys, c.head.Keys, i, j); }
  }

  lemma KeysInOrder(c: Comparison, i: nat, j: nat)
    requires i < j < |Order(c)|
    ensures Order(c)[j] in c.head ==> Order(c)[i] in c.head
    ensures (Order(c)[i] in c.head <==> Order(c)[j] in c.head) ==> TextAtMost(Order(c)[i], Order(c)[j])
  {
    var heads, others := OrderParts(c);
    PartsInOrder(heads, others, c.head.Keys, i, j);
  }

  lemma PartsInOrder(heads: seq<string>, others: seq<string>, keys: set<string>, i: nat, j: nat)
    requires TextsAscend(heads) && TextsAscend(others) && i < j < |heads| + |others|
    requires (forall k | k in heads :: k in keys) && (forall k | k in others :: k !in keys)
    ensures var all := heads + others;
      && (all[j] in keys ==> all[i] in keys) && ((all[i] in keys <==> all[j] in keys) ==> TextAtMost(all[i], all[j]))
  {
    var n := |heads|;
    if i < n { assert heads[i] in heads; } else { assert others[i - n] in others; }
    if j < n { assert heads[j] in heads; } else { assert others[j - n] in others; }
  }

  /** Head keys come before base-only keys, and either kind in ascending order. */
  lemma KeysAscend(c: Comparison, i: nat, j: nat)
    requires i < j < |Order(c)|
    ensures Order(c)[j] in c.head ==> Order(c)[i] in c.head
    ensures (Order(c)[i] in c.head <==> Order(c)[j] in c.head) ==> TextLess(Order(c)[i], Order(c)[j])
  {
    KeysInOrder(c, i, j);
    NeverTwice(c, i, j);
  }

  lemma NeverTwice(c: Comparison, i: nat, j: nat)
    requires i < j < |Order(c)|
    ensures Order(c)[i] != Order(c)[j]
  {
    OrderHolds(c);
    if Order(c)[i] == Order(c)[j] { NoneTwice(Order(c), c.head.Keys + c.base.Keys, i, j); }
  }
}
