/** Classifying project changes head against base (pkg/codesignal/project_lifecycle.go,
    project_continuity.go, project_lifecycle_state.go, project_fingerprint.go). */
module ProjectLifecycle {
  import FactOrder
  import opened FieldEncoding
  import opened Filtering
  import opened Options
  import opened Ordering

  /** A path and a node location; `extent` stands for the end of the location. */
  datatype Anchor = Anchor(path: string, startRow: nat, startCol: nat, startByte: nat, extent: string)

  /** `versions` lists the identity inputs after the rule (rule, backend and algorithm version, configuration digest);
      `importer` and `importee` are empty when the evidence has none; `rest` stands for the fields no one here reads. */
  datatype ProjectChange =
    ProjectChange(semanticKey: string, ruleID: string, versions: seq<string>, severity: string, confidence: string,
                  anchor: Anchor, nested: FactOrder.Nested, importer: string, importee: string,
                  causalDigest: string, evidence: string, lifecycle: string, changed: bool, id: string,
                  fingerprint: string, rest: string)

  const INDETERMINATE_NOTE := " (lifecycle is \"unknown\": see the project_lifecycle_indeterminate diagnostic for why)"
  const CONTINUITY_NOTE := " (lifecycle is \"unknown\": see the project_change_lifecycle_indeterminate diagnostic for why)"

  // ----- indeterminacy -----

  /** Coverage is missing, or present and complete or not. */
  datatype State = State(headIncomplete: bool, baseIncomplete: bool, inconsistentBase: bool)

  predicate Any(s: State) {
    s.headIncomplete || s.baseIncomplete || s.inconsistentBase
  }

  const COVERAGE_INCOMPLETE := "project_coverage_incomplete"
  const LIFECYCLE_INDETERMINATE := "project_lifecycle_indeterminate"

  function LifecycleState(headCoverage: Option<bool>, baseAnalyzed: bool, baseCoverage: Option<bool>, baseChanges: nat): State {
    State(headCoverage != Some(true), baseAnalyzed && baseCoverage != Some(true), !baseAnalyzed && baseChanges > 0)
  }

  /** The kinds of the report-level diagnostics. */
  function StateDiagnostics(headCoverage: Option<bool>, s: State): seq<string> {
    (if headCoverage == Some(false) then [COVERAGE_INCOMPLETE] else []) + (if Any(s) then [LIFECYCLE_INDETERMINATE] else [])
  }

  method ProjectLifecycleState(headCoverage: Option<bool>, baseAnalyzed: bool, baseCoverage: Option<bool>, baseChanges: nat)
    returns (state: State, diagnostics: seq<string>)
    ensures state == LifecycleState(headCoverage, baseAnalyzed, baseCoverage, baseChanges)
    ensures diagnostics == StateDiagnostics(headCoverage, state)
  {
    state, diagnostics := State(false, false, false), [];
    if headCoverage != Some(true) { state := state.(headIncomplete := true); }
    if baseAnalyzed && baseCoverage != Some(true) { state := state.(baseIncomplete := true); }
    if !baseAnalyzed && baseChanges > 0 { state := state.(inconsistentBase := true); }
    if headCoverage == Some(false) { diagnostics := diagnostics + [COVERAGE_INCOMPLETE]; }
    if Any(state) { diagnostics := diagnostics + [LIFECYCLE_INDETERMINATE]; }
  }

  // ----- continuity -----

  datatype PathContinuity = PathContinuity(path: string, previousPath: string)

  /** The new paths and the previous paths of renames and copies. */
  datatype Continuity = Continuity(head: set<string>, base: set<string>)

  function ContinuityOf(pairs: seq<PathContinuity>): Continuity {
    Continuity(set p | p in pairs && p.path != "" :: p.path, set p | p in pairs && p.previousPath != "" :: p.previousPath)
  }

  method NewUndeterminedContinuity(pairs: seq<PathContinuity>) returns (c: Continuity)
    ensures c == ContinuityOf(pairs)
  {
    c := Continuity({}, {});
    for i := 0 to |pairs|
      invariant c == ContinuityOf(pairs[..i])
    {
      assert pairs[..i + 1] == pairs[..i] + [pairs[i]];
      if pairs[i].path != "" { c := c.(head := c.head + {pairs[i].path}); }
      if pairs[i].previousPath != "" { c := c.(base := c.base + {pairs[i].previousPath}); }
    }
    assert pairs[..|pairs|] == pairs;
  }

  function LocatedAt(locations: seq<FactOrder.ProjectLocation>): seq<string> {
    Map((l: FactOrder.ProjectLocation) => l.path, locations)
  }

  function LocationPaths(ch: ProjectChange): seq<string> {
    [ch.anchor.path] + LocatedAt(ch.nested.related) + FlatMap((step: FactOrder.PathStep) => LocatedAt(step.sourceLocations), ch.nested.steps)
  }

  function IdentityPaths(ch: ProjectChange): seq<string> {
    (if ch.importer != "" then [ch.importer] else []) + (if ch.importee != "" then [ch.importee] else [])
  }

  /** An identity is a file, or a directory that holds a moved file. `dir` is `path.Dir`. */
  predicate IdentityTouches(ch: ProjectChange, p: string, dir: string -> string) {
    exists i | i in IdentityPaths(ch) :: i == p || i == dir(p)
  }

  ghost predicate Touches(ch: ProjectChange, moved: set<string>, dir: string -> string) {
    (exists p | p in LocationPaths(ch) :: p in moved) || (exists p | p in moved :: IdentityTouches(ch, p, dir))
  }

  function FirstWhere<T>(keep: T -> bool, s: seq<T>): (r: Option<T>)
    ensures r.Some? ==> r.value in s && keep(r.value)
    ensures r.None? ==> forall x | x in s :: !keep(x)
  {
    if s == [] then None else if keep(s[0]) then Some(s[0]) else FirstWhere(keep, s[1..])
  }

  function Among(moved: set<string>): string -> bool {
    p => p in moved
  }

  function Named(ch: ProjectChange, dir: string -> string): string -> bool {
    p => IdentityTouches(ch, p, dir)
  }

  /** The first moved path among the locations, else the least one an identity touches. */
  ghost function FirstMoved(ch: ProjectChange, moved: set<string>, dir: string -> string): Option<string> {
    var located := FirstWhere(Among(moved), LocationPaths(ch));
    if located.Some? then located else FirstWhere(Named(ch, dir), SortedSet(CompareText, moved))
  }

  /** A path is found exactly when the change touches one, and it is a moved path. */
  lemma FirstMovedExactly(ch: ProjectChange, moved: set<string>, dir: string -> string)
    ensures FirstMoved(ch, moved, dir).Some? <==> Touches(ch, moved, dir)
    ensures FirstMoved(ch, moved, dir).Some? ==> FirstMoved(ch, moved, dir).value in moved
  {
    SortedTexts(moved);
  }

  lemma SortedTexts(s: set<string>)
    ensures forall p :: p in SortedSet(CompareText, s) <==> p in s
    ensures multiset(SortedSet(CompareText, s)) == multiset(s)
  {
    TextLaws();
    SortedSetHolds(CompareText, s);
  }

  method SortTexts(s: set<string>) returns (sorted: seq<string>)
    ensures sorted == SortedSet(CompareText, s)
  {
    TextLaws();
    sorted := KeysSorted(CompareText, s);
  }

  method Scan<T(==)>(keep: T -> bool, s: seq<T>) returns (r: Option<T>)
    ensures r == FirstWhere(keep, s)
  {
    for i := 0 to |s|
      invariant FirstWhere(keep, s) == FirstWhere(keep, s[i..])
    {
      if keep(s[i]) { return Some(s[i]); }
    }
    return None;
  }

  method FirstMovedPathTouchedBy(ch: ProjectChange, moved: set<string>, dir: string -> string) returns (r: Option<string>)
    ensures r == FirstMoved(ch, moved, dir)
  {
    if |moved| == 0 {
      FirstMovedExactly(ch, moved, dir);
      return None;
    }
    r := Scan(Among(moved), LocationPaths(ch));
    if r.Some? { return; }
    var sorted := SortTexts(moved);
    r := Scan(Named(ch, dir), sorted);
  }

  // ----- indexing -----

  /** The first change of each key. */
  function FirstByKey(changes: seq<ProjectChange>): map<string, ProjectChange> {
    if changes == [] then map[]
    else
      var before, last := FirstByKey(changes[..|changes| - 1]), changes[|changes| - 1];
      if last.semanticKey in before then before else before[last.semanticKey := last]
  }

  lemma {:induction false} FirstByKeyHolds(changes: seq<ProjectChange>)
    ensures forall k | k in FirstByKey(changes) :: FirstByKey(changes)[k].semanticKey == k && FirstByKey(changes)[k] in changes
    ensures FirstByKey(changes) == map[] <==> changes == []
  {
    if changes != [] { FirstByKeyHolds(changes[..|changes| - 1]); }
  }

  /** The changes whose key an earlier change has, in order. */
  function Repeats(changes: seq<ProjectChange>): seq<ProjectChange> {
    if changes == [] then []
    else
      var before, last := changes[..|changes| - 1], changes[|changes| - 1];
      Repeats(before) + if last.semanticKey in FirstByKey(before) then [last] else []
  }

  lemma {:induction false} RepeatsCount(changes: seq<ProjectChange>)
    ensures |Repeats(changes)| + |FirstByKey(changes)| == |changes|
  {
    if changes != [] { RepeatsCount(changes[..|changes| - 1]); }
  }

  lemma {:induction false} KeysAreIndexed(changes: seq<ProjectChange>, ch: ProjectChange)
    requires ch in changes
    ensures ch.semanticKey in FirstByKey(changes)
  {
    if ch in changes[..|changes| - 1] { KeysAreIndexed(changes[..|changes| - 1], ch); }
  }

  lemma NewKeyIsAlone(before: seq<ProjectChange>, key: string)
    requires key !in FirstByKey(before)
    ensures Filter(HasKey(key), before) == []
  {
    var own := Filter(HasKey(key), before);
    if own != [] {
      assert own[0] in own;
      KeysAreIndexed(before, own[0]);
    }
  }

  lemma IndexSnoc(before: seq<ProjectChange>, last: ProjectChange)
    ensures FirstByKey(before + [last]) == if last.semanticKey in FirstByKey(before) then FirstByKey(before)
                                           else FirstByKey(before)[last.semanticKey := last]
    ensures Repeats(before + [last]) == Repeats(before) + if last.semanticKey in FirstByKey(before) then [last] else []
  {
    assert (before + [last])[..|before|] == before;
  }

  function First(changes: seq<ProjectChange>, key: string): seq<ProjectChange> {
    if key in FirstByKey(changes) then [FirstByKey(changes)[key]] else []
  }

  lemma IndexedSnoc(before: seq<ProjectChange>, last: ProjectChange, key: string)
    requires First(before, key) + Filter(HasKey(key), Repeats(before)) == Filter(HasKey(key), before)
    ensures First(before + [last], key) + Filter(HasKey(key), Repeats(before + [last]))
            == Filter(HasKey(key), before) + if last.semanticKey == key then [last] else []
  {
    var repeats, own := Filter(HasKey(key), Repeats(before)), if last.semanticKey == key then [last] else [];
    IndexSnoc(before, last);
    RepeatsSnoc(before, last, key);
    if last.semanticKey in FirstByKey(before) {
      Associate(First(before, key), repeats, own);
    } else {
      assert Repeats(before + [last]) == Repeats(before);
      if last.semanticKey == key { NewKeyIsAlone(before, key); }
    }
  }

  /** The changes of a key are the indexed one followed by the repeats, in their order: every change is in exactly one
      of the two places. */
  lemma {:induction false} IndexedOrRepeated(changes: seq<ProjectChange>, key: string)
    ensures First(changes, key) + Filter(HasKey(key), Repeats(changes)) == Filter(HasKey(key), changes)
  {
    if changes != [] {
      var before, last := changes[..|changes| - 1], changes[|changes| - 1];
      IndexedOrRepeated(before, key);
      IndexedSnoc(before, last, key);
      assert before + [last] == changes;
    }
  }

  function HasKey(key: string): ProjectChange -> bool {
    (ch: ProjectChange) => ch.semanticKey == key
  }

  lemma RepeatsSnoc(before: seq<ProjectChange>, last: ProjectChange, key: string)
    ensures Filter(HasKey(key), Repeats(before) + [last])
            == Filter(HasKey(key), Repeats(before)) + if last.semanticKey == key then [last] else []
  {
    assert (Repeats(before) + [last])[..|Repeats(before)|] == Repeats(before);
  }

  /** `duplicates` lists the later changes of a key, which the diagnostics name by anchor path and key. */
  method IndexProjectChangesByKey(changes: seq<ProjectChange>)
    returns (byKey: map<string, ProjectChange>, duplicates: seq<ProjectChange>)
    ensures byKey == FirstByKey(changes) && duplicates == Repeats(changes)
    ensures |byKey| + |duplicates| == |changes|
  {
    RepeatsCount(changes);
    byKey, duplicates := map[], [];
    for i := 0 to |changes|
      invariant byKey == FirstByKey(changes[..i]) && duplicates == Repeats(changes[..i])
    {
      assert changes[..i + 1][..i] == changes[..i];
      var change := changes[i];
      if change.semanticKey in byKey {
        duplicates := duplicates + [change];
        continue;
      }
      byKey := byKey[change.semanticKey := change];
    }
    assert changes[..|changes|] == changes;
  }

  // ----- classification -----

  /** One comparison; the changes are already indexed by key. */
  datatype Comparison = Comparison(hasBase: bool, state: State, continuity: Continuity, head: map<string, ProjectChange>,
                                   base: map<string, ProjectChange>, noBase: string, dir: string -> string,
                                   hash: string -> string)

  predicate ChangeChanged(h: ProjectChange, b: ProjectChange) {
    if h.causalDigest != "" || b.causalDigest != "" then h.causalDigest != b.causalDigest else h.anchor != b.anchor
  }

  function IdentityFields(ch: ProjectChange): seq<string> {
    [ch.semanticKey, ch.ruleID] + ch.versions
  }

  function WithID(ch: ProjectChange, hash: string -> string): ProjectChange {
    var buf := Encode(IdentityFields(ch));
    ch.(fingerprint := "pfp_" + hash(buf), id := "pchg_" + hash(buf))
  }

  /** The outcome for a key of the head side. */
  ghost function HeadChange(c: Comparison, key: string): ProjectChange
    requires key in c.head
  {
    var ch := c.head[key];
    if Any(c.state) then ch.(lifecycle := "unknown", changed := false, evidence := ch.evidence + INDETERMINATE_NOTE)
    else if !c.hasBase then ch.(lifecycle := c.noBase, changed := false)
    else if key in c.base then ch.(lifecycle := "existing", changed := ChangeChanged(ch, c.base[key]))
    else if Touches(ch, c.continuity.head, c.dir)
         then ch.(lifecycle := "unknown", changed := false, evidence := ch.evidence + CONTINUITY_NOTE)
    else ch.(lifecycle := "introduced", changed := true)
  }

  /** The outcome for a key of the base side only. */
  ghost function BaseChange(c: Comparison, key: string): ProjectChange
    requires key in c.base
  {
    var ch := c.base[key];
    if Any(c.state) || !c.hasBase
      then ch.(lifecycle := "unknown", changed := false, evidence := ch.evidence + INDETERMINATE_NOTE)
    else if Touches(ch, c.continuity.base, c.dir)
      then ch.(lifecycle := "unknown", changed := false, evidence := ch.evidence + CONTINUITY_NOTE)
    else ch.(lifecycle := "resolved", changed := false)
  }

  ghost predicate Known(c: Comparison, key: string) {
    key in c.head || key in c.base
  }

  ghost predicate AllKnown(c: Comparison, keys: seq<string>) {
    forall k | k in keys :: Known(c, k)
  }

  ghost function ChangeAt(c: Comparison, key: string): ProjectChange
    requires Known(c, key)
  {
    WithID(if key in c.head then HeadChange(c, key) else BaseChange(c, key), c.hash)
  }

  // ----- diagnostics -----

  /** Why a change is unknown; side, revision and wording follow from it. */
  datatype Cause = HeadIncomplete | BaseIncomplete | InconsistentBase | MovedOnHead | MovedOnBase

  datatype Diagnostic = Diagnostic(path: string, cause: Cause)

  /** degradedProjectChangeDiagnostics: one for each side the state implicates. */
  function Degraded(path: string, s: State): seq<Diagnostic> {
    (if s.headIncomplete then [Diagnostic(path, HeadIncomplete)] else [])
    + (if s.baseIncomplete then [Diagnostic(path, BaseIncomplete)] else [])
    + (if s.inconsistentBase then [Diagnostic(path, InconsistentBase)] else [])
  }

  function MovedDiagnostic(moved: Option<string>, cause: Cause): seq<Diagnostic> {
    if moved.Some? then [Diagnostic(moved.value, cause)] else []
  }

  /** What one key raises. */
  ghost function Raised(c: Comparison, key: string): seq<Diagnostic>
    requires Known(c, key)
  {
    if key in c.head then
      var ch := c.head[key];
      if Any(c.state) then Degraded(ch.anchor.path, c.state)
      else if !c.hasBase || key in c.base then []
      else MovedDiagnostic(FirstMoved(ch, c.continuity.head, c.dir), MovedOnHead)
    else
      var ch := c.base[key];
      if Any(c.state) || !c.hasBase then Degraded(ch.anchor.path, c.state)
      else MovedDiagnostic(FirstMoved(ch, c.continuity.base, c.dir), MovedOnBase)
  }

  ghost function RaisedBy(c: Comparison, keys: seq<string>): seq<Diagnostic>
    requires AllKnown(c, keys)
  {
    if keys == [] then [] else RaisedBy(c, keys[..|keys| - 1]) + Raised(c, keys[|keys| - 1])
  }

  /** The diagnostics in order of their first appearance. */
  ghost function Explained(c: Comparison): seq<Diagnostic> {
    OrderHolds(c);
    AppendNew([], RaisedBy(c, Order(c)))
  }

  method AppendDistinctDiagnostics(diagnostics: seq<Diagnostic>, seen: set<Diagnostic>, candidates: seq<Diagnostic>)
    returns (out: seq<Diagnostic>, nowSeen: set<Diagnostic>)
    requires forall d :: d in seen <==> d in diagnostics
    ensures out == AppendNew(diagnostics, candidates) && forall d :: d in nowSeen <==> d in out
  {
    out, nowSeen := diagnostics, seen;
    for i := 0 to |candidates|
      invariant out == AppendNew(diagnostics, candidates[..i]) && forall d :: d in nowSeen <==> d in out
    {
      AppendNewSnoc(diagnostics, candidates[..i], candidates[i]);
      assert candidates[..i + 1] == candidates[..i] + [candidates[i]];
      if candidates[i] in nowSeen { continue; }
      nowSeen := nowSeen + {candidates[i]};
      out := out + [candidates[i]];
    }
    assert candidates[..|candidates|] == candidates;
  }

  // ----- the loops -----

  ghost function Changes(c: Comparison, keys: seq<string>): (changes: seq<ProjectChange>)
    requires AllKnown(c, keys)
    ensures |changes| == |keys| && forall i | 0 <= i < |keys| :: changes[i] == ChangeAt(c, keys[i])
  {
    seq(|keys|, i requires 0 <= i < |keys| => ChangeAt(c, keys[i]))
  }

  /** Head keys in order, then the keys only the base has, in order. */
  ghost function Order(c: Comparison): seq<string> {
    SortedSet(CompareText, c.head.Keys) + Outside(SortedSet(CompareText, c.base.Keys), c.head.Keys)
  }

  lemma UnionOnce<T(!new)>(a: seq<T>, b: seq<T>, x: set<T>, y: set<T>)
    requires multiset(a) == multiset(x) && multiset(b) == multiset(y)
    ensures multiset(a + Outside(b, x)) == multiset(x + y)
    ensures forall k :: k in a + Outside(b, x) <==> k in x + y
  {
    var rest := Outside(b, x);
    forall k ensures multiset(a + rest)[k] == multiset(x + y)[k] && (k in a + rest <==> k in x + y) {
      FilterCounts(z => z !in x, b, k);
      assert multiset(a + rest)[k] == multiset(a)[k] + multiset(rest)[k];
      assert k in b <==> k in multiset(b);
      assert k in a <==> k in multiset(a);
    }
  }

  lemma OrderHolds(c: Comparison)
    ensures forall k :: k in Order(c) <==> Known(c, k)
    ensures multiset(Order(c)) == multiset(c.head.Keys + c.base.Keys)
  {
    SortedTexts(c.head.Keys);
    SortedTexts(c.base.Keys);
    UnionOnce(SortedSet(CompareText, c.head.Keys), SortedSet(CompareText, c.base.Keys), c.head.Keys, c.base.Keys);
  }

  ghost function Classified(c: Comparison): (changes: seq<ProjectChange>)
    ensures |changes| == |Order(c)|
    ensures forall i | 0 <= i < |changes| :: Known(c, Order(c)[i]) && changes[i] == ChangeAt(c, Order(c)[i])
  {
    OrderHolds(c);
    Changes(c, Order(c))
  }

  method ClassifyOneHead(c: Comparison, key: string) returns (change: ProjectChange, raised: seq<Diagnostic>)
    requires key in c.head
    ensures change == ChangeAt(c, key) && raised == Raised(c, key)
  {
    raised := [];
    change := c.head[key];
    var moved := FirstMovedPathTouchedBy(change, c.continuity.head, c.dir);
    FirstMovedExactly(change, c.continuity.head, c.dir);
    if Any(c.state) {
      change := change.(lifecycle := "unknown", changed := false, evidence := change.evidence + INDETERMINATE_NOTE);
      raised := Degraded(change.anchor.path, c.state);
    } else if !c.hasBase {
      change := change.(lifecycle := c.noBase, changed := false);
    } else if key in c.base {
      change := change.(lifecycle := "existing", changed := ChangeChanged(change, c.base[key]));
    } else if moved.Some? {
      change := change.(lifecycle := "unknown", changed := false, evidence := change.evidence + CONTINUITY_NOTE);
      raised := [Diagnostic(moved.value, MovedOnHead)];
    } else {
      change := change.(lifecycle := "introduced", changed := true);
    }
    assert change == HeadChange(c, key);
    change := WithID(change, c.hash);
  }

  method ClassifyOneBase(c: Comparison, key: string) returns (change: ProjectChange, raised: seq<Diagnostic>)
    requires key in c.base && key !in c.head
    ensures change == ChangeAt(c, key) && raised == Raised(c, key)
  {
    raised := [];
    change := c.base[key];
    var moved := FirstMovedPathTouchedBy(change, c.continuity.base, c.dir);
    FirstMovedExactly(change, c.continuity.base, c.dir);
    if Any(c.state) || !c.hasBase {
      change := change.(lifecycle := "unknown", evidence := change.evidence + INDETERMINATE_NOTE);
      raised := Degraded(change.anchor.path, c.state);
    } else if moved.Some? {
      change := change.(lifecycle := "unknown", evidence := change.evidence + CONTINUITY_NOTE);
      raised := [Diagnostic(moved.value, MovedOnBase)];
    } else {
      change := change.(lifecycle := "resolved");
    }
    change := change.(changed := false);
    assert change == BaseChange(c, key);
    change := WithID(change, c.hash);
  }

  /** Where a loop stands after the keys `done`; it began with the diagnostics `before`. */
  ghost predicate Reached(c: Comparison, before: seq<Diagnostic>, done: seq<string>, result: seq<ProjectChange>,
                          diagnostics: seq<Diagnostic>, seen: set<Diagnostic>) {
    && AllKnown(c, done) && result == Changes(c, done) && diagnostics == AppendNew(before, RaisedBy(c, done))
    && forall d :: d in seen <==> d in diagnostics
  }

  lemma Advance(c: Comparison, before: seq<Diagnostic>, done: seq<string>, result: seq<ProjectChange>,
                diagnostics: seq<Diagnostic>, seen: set<Diagnostic>, key: string, nowSeen: set<Diagnostic>)
    requires Reached(c, before, done, result, diagnostics, seen) && Known(c, key)
    requires forall d :: d in nowSeen <==> d in AppendNew(diagnostics, Raised(c, key))
    ensures Reached(c, before, done + [key], result + [ChangeAt(c, key)], AppendNew(diagnostics, Raised(c, key)), nowSeen)
  {
    OneMoreChange(c, done, key);
    OneMoreRaised(c, before, done, key);
  }

  /** Takes in what classifying one key gave. */
  method TakeOne(ghost c: Comparison, ghost before: seq<Diagnostic>, ghost done: seq<string>, ghost key: string,
                 change: ProjectChange, raised: seq<Diagnostic>, result: seq<ProjectChange>, diagnostics: seq<Diagnostic>,
                 seen: set<Diagnostic>)
    returns (result': seq<ProjectChange>, diagnostics': seq<Diagnostic>, seen': set<Diagnostic>)
    requires Reached(c, before, done, result, diagnostics, seen)
    requires Known(c, key) && change == ChangeAt(c, key) && raised == Raised(c, key)
    ensures Reached(c, before, done + [key], result', diagnostics', seen')
  {
    diagnostics', seen' := AppendDistinctDiagnostics(diagnostics, seen, raised);
    Advance(c, before, done, result, diagnostics, seen, key, seen');
    result' := result + [change];
  }

  method TakeHead(c: Comparison, ghost done: seq<string>, key: string, result: seq<ProjectChange>,
                  diagnostics: seq<Diagnostic>, seen: set<Diagnostic>)
    returns (result': seq<ProjectChange>, diagnostics': seq<Diagnostic>, seen': set<Diagnostic>)
    requires key in c.head && Reached(c, [], done, result, diagnostics, seen)
    ensures Reached(c, [], done + [key], result', diagnostics', seen')
  {
    var change, raised := ClassifyOneHead(c, key);
    result', diagnostics', seen' := TakeOne(c, [], done, key, change, raised, result, diagnostics, seen);
  }

  method TakeBase(c: Comparison, ghost before: seq<Diagnostic>, ghost done: seq<string>, key: string,
                  result: seq<ProjectChange>, diagnostics: seq<Diagnostic>, seen: set<Diagnostic>)
    returns (result': seq<ProjectChange>, diagnostics': seq<Diagnostic>, seen': set<Diagnostic>)
    requires key in c.base && key !in c.head && Reached(c, before, done, result, diagnostics, seen)
    ensures Reached(c, before, done + [key], result', diagnostics', seen')
  {
    var change, raised := ClassifyOneBase(c, key);
    result', diagnostics', seen' := TakeOne(c, before, done, key, change, raised, result, diagnostics, seen);
  }

  method ClassifyHead(c: Comparison, keys: seq<string>)
    returns (result: seq<ProjectChange>, diagnostics: seq<Diagnostic>, seen: set<Diagnostic>)
    requires forall k | k in keys :: k in c.head
    ensures Reached(c, [], keys, result, diagnostics, seen)
  {
    result, diagnostics, seen := [], [], {};
    ghost var done: seq<string> := [];
    for i := 0 to |keys|
      invariant done == keys[..i] && Reached(c, [], done, result, diagnostics, seen)
    {
      result, diagnostics, seen := TakeHead(c, done, keys[i], result, diagnostics, seen);
      done := done + [keys[i]];
    }
    assert keys[..|keys|] == keys;
  }

  method ClassifyBase(c: Comparison, keys: seq<string>, before: seq<Diagnostic>, seenBefore: set<Diagnostic>)
    returns (result: seq<ProjectChange>, diagnostics: seq<Diagnostic>, seen: set<Diagnostic>)
    requires forall k | k in keys :: k in c.base
    requires forall d :: d in seenBefore <==> d in before
    ensures Reached(c, before, Outside(keys, c.head.Keys), result, diagnostics, seen)
  {
    result, diagnostics, seen := [], before, seenBefore;
    ghost var done: seq<string> := [];
    for i := 0 to |keys|
      invariant done == Outside(keys[..i], c.head.Keys)
      invariant Reached(c, before, done, result, diagnostics, seen)
    {
      assert keys[..i + 1][..i] == keys[..i];
      if keys[i] in c.head { continue; }
      result, diagnostics, seen := TakeBase(c, before, done, keys[i], result, diagnostics, seen);
      done := done + [keys[i]];
    }
    assert keys[..|keys|] == keys;
  }

  lemma OneMoreChange(c: Comparison, keys: seq<string>, key: string)
    requires AllKnown(c, keys) && Known(c, key)
    ensures AllKnown(c, keys + [key]) && Changes(c, keys + [key]) == Changes(c, keys) + [ChangeAt(c, key)]
  {
  }

  lemma OneMoreRaised(c: Comparison, before: seq<Diagnostic>, keys: seq<string>, key: string)
    requires AllKnown(c, keys) && Known(c, key)
    ensures AppendNew(before, RaisedBy(c, keys + [key])) == AppendNew(AppendNew(before, RaisedBy(c, keys)), Raised(c, key))
  {
    assert (keys + [key])[..|keys|] == keys;
    AppendNewConcat(before, RaisedBy(c, keys), Raised(c, key));
  }

  ghost function RaisedIfKnown(c: Comparison): string -> seq<Diagnostic> {
    key => if Known(c, key) then Raised(c, key) else []
  }

  lemma {:induction false} RaisedIsFlat(c: Comparison, keys: seq<string>)
    requires AllKnown(c, keys)
    ensures RaisedBy(c, keys) == FlatMap(RaisedIfKnown(c), keys)
  {
    if keys != [] { RaisedIsFlat(c, keys[..|keys| - 1]); }
  }

  lemma RaisedConcat(c: Comparison, a: seq<string>, b: seq<string>)
    requires AllKnown(c, a) && AllKnown(c, b)
    ensures RaisedBy(c, a + b) == RaisedBy(c, a) + RaisedBy(c, b)
  {
    RaisedIsFlat(c, a);
    RaisedIsFlat(c, b);
    RaisedIsFlat(c, a + b);
    FlatMapConcat(RaisedIfKnown(c), a, b);
  }

  lemma ChangesConcat(c: Comparison, a: seq<string>, b: seq<string>)
    requires AllKnown(c, a + b)
    ensures AllKnown(c, a) && AllKnown(c, b)
    ensures Changes(c, a) + Changes(c, b) == Changes(c, a + b)
  {
    assert forall k | k in a :: k in a + b;
    assert forall k | k in b :: k in a + b;
  }

  /** The changes, and the diagnostics that follow those about duplicate keys. */
  method ClassifyProjectChanges(c: Comparison) returns (result: seq<ProjectChange>, diagnostics: seq<Diagnostic>)
    ensures result == Classified(c) && diagnostics == Explained(c)
  {
    var headKeys := SortTexts(c.head.Keys);
    var baseKeys := SortTexts(c.base.Keys);
    SortedTexts(c.head.Keys);
    SortedTexts(c.base.Keys);
    var seen;
    result, diagnostics, seen := ClassifyHead(c, headKeys);
    var resolved;
    resolved, diagnostics, seen := ClassifyBase(c, baseKeys, diagnostics, seen);
    ghost var rest := Outside(baseKeys, c.head.Keys);
    OrderHolds(c);
    ChangesConcat(c, headKeys, rest);
    RaisedConcat(c, headKeys, rest);
    AppendNewConcat([], RaisedBy(c, headKeys), RaisedBy(c, rest));
    result := result + resolved;
  }

  // ----- what the classification means -----

  /** Both sides carry each change under its own semantic key. */
  ghost predicate Indexed(c: Comparison) {
    && (forall k | k in c.head :: c.head[k].semanticKey == k)
    && (forall k | k in c.base :: c.base[k].semanticKey == k)
  }

  lemma ChangeKeepsKey(c: Comparison, key: string)
    requires Indexed(c) && Known(c, key)
    ensures ChangeAt(c, key).semanticKey == key
  {
  }

  lemma NoneTwice<T>(s: seq<T>, t: set<T>, i: nat, j: nat)
    requires multiset(s) == multiset(t) && i < |s| && j < |s| && s[i] == s[j]
    ensures i == j
  {
    if i < j { Twice(s, i, j); }
    if j < i { Twice(s, j, i); }
  }

  /** Each key of the union is reported at exactly one position, with the outcome of its own case. */
  lemma EachKeyOnce(c: Comparison, key: string) returns (at: nat)
    requires Indexed(c) && Known(c, key)
    ensures at < |Classified(c)| && Classified(c)[at] == ChangeAt(c, key)
    ensures forall i | 0 <= i < |Classified(c)| :: Classified(c)[i].semanticKey == key <==> i == at
    ensures |Classified(c)| == |c.head.Keys + c.base.Keys|
  {
    OrderHolds(c);
    assert key in Order(c);
    at :| 0 <= at < |Order(c)| && Order(c)[at] == key;
    forall i | 0 <= i < |Classified(c)| ensures Classified(c)[i].semanticKey == key <==> i == at {
      ChangeKeepsKey(c, Order(c)[i]);
      if Order(c)[i] == key { NoneTwice(Order(c), c.head.Keys + c.base.Keys, i, at); }
    }
    assert |Classified(c)| == |multiset(Order(c))|;
  }

  // ----- what the diagnostics mean -----

  /** No diagnostic is repeated. */
  lemma DiagnosticsDistinct(c: Comparison)
    ensures Distinct(Explained(c))
  {
    OrderHolds(c);
    AppendNewDistinct([], RaisedBy(c, Order(c)));
  }

  lemma {:induction false} RaisedMembers(c: Comparison, keys: seq<string>, d: Diagnostic)
    requires AllKnown(c, keys)
    ensures d in RaisedBy(c, keys) <==> exists k | k in keys :: d in Raised(c, k)
  {
    if keys != [] {
      RaisedMembers(c, keys[..|keys| - 1], d);
      assert forall k :: k in keys <==> k in keys[..|keys| - 1] || k == keys[|keys| - 1];
    }
  }

  /** The diagnostics are exactly those that some key of the union raises. */
  lemma DiagnosticsAreRaised(c: Comparison, d: Diagnostic)
    ensures d in Explained(c) <==> exists k | Known(c, k) :: d in Raised(c, k)
  {
    OrderHolds(c);
    RaisedMembers(c, Order(c), d);
    AppendNewMembers([], RaisedBy(c, Order(c)), d);
  }

  /** Base changes are there only if the base was analysed or the state says otherwise. */
  ghost predicate Coherent(c: Comparison) {
    !c.hasBase && c.base != map[] ==> Any(c.state)
  }

  function Original(c: Comparison, key: string): ProjectChange
    requires key in c.head || key in c.base
  {
    if key in c.head then c.head[key] else c.base[key]
  }

  /** A change gets a note exactly when it raises a diagnostic, and then it is unknown. */
  lemma NotedExactlyWhen(c: Comparison, key: string)
    requires Known(c, key) && Coherent(c)
    ensures ChangeAt(c, key).evidence != Original(c, key).evidence <==> Raised(c, key) != []
    ensures Raised(c, key) != [] ==> ChangeAt(c, key).lifecycle == "unknown"
  {
    var ch := Original(c, key);
    assert |ch.evidence + INDETERMINATE_NOTE| > |ch.evidence| && |ch.evidence + CONTINUITY_NOTE| > |ch.evidence|;
    if key in c.head {
      FirstMovedExactly(ch, c.continuity.head, c.dir);
    } else {
      FirstMovedExactly(ch, c.continuity.base, c.dir);
    }
  }

  lemma MovedNames(ch: ProjectChange, moved: set<string>, dir: string -> string, cause: Cause, d: Diagnostic)
    requires d in MovedDiagnostic(FirstMoved(ch, moved, dir), cause)
    ensures d.path in moved
  {
    FirstMovedExactly(ch, moved, dir);
  }

  lemma RaisedNames(c: Comparison, key: string, d: Diagnostic)
    requires Known(c, key) && d in Raised(c, key)
    ensures d.path == Original(c, key).anchor.path || d.path in c.continuity.head || d.path in c.continuity.base
  {
    if Any(c.state) || (key !in c.head && !c.hasBase) {
      assert d.path == Original(c, key).anchor.path;
    } else if key in c.head {
      MovedNames(c.head[key], c.continuity.head, c.dir, MovedOnHead, d);
    } else {
      MovedNames(c.base[key], c.continuity.base, c.dir, MovedOnBase, d);
    }
  }

  /** A note never dangles. The indeterminate one names the report-level diagnostic, which is then there; the continuity
      one names the per-change diagnostic, and one that the change raised is there. */
  lemma NotesAreExplained(c: Comparison, key: string, headCoverage: Option<bool>)
    requires Known(c, key) && Coherent(c)
    ensures ChangeAt(c, key).evidence == Original(c, key).evidence + INDETERMINATE_NOTE ==>
              LIFECYCLE_INDETERMINATE in StateDiagnostics(headCoverage, c.state)
    ensures ChangeAt(c, key).evidence != Original(c, key).evidence <==> exists d :: d in Raised(c, key) && d in Explained(c)
    ensures forall d | d in Raised(c, key) ::
              d.path == Original(c, key).anchor.path || d.path in c.continuity.head || d.path in c.continuity.base
  {
    NotedExactlyWhen(c, key);
    IndeterminateNotes(c, key);
    forall d | d in Raised(c, key) ensures d in Explained(c) { DiagnosticsAreRaised(c, d); }
    forall d | d in Raised(c, key)
      ensures d.path == Original(c, key).anchor.path || d.path in c.continuity.head || d.path in c.continuity.base
    {
      RaisedNames(c, key, d);
    }
    if Raised(c, key) != [] { assert Raised(c, key)[0] in Raised(c, key); }
  }

  lemma DifferentNotes(evidence: string)
    ensures evidence + INDETERMINATE_NOTE != evidence + CONTINUITY_NOTE
    ensures evidence + INDETERMINATE_NOTE != evidence
  {
    assert |INDETERMINATE_NOTE| != |CONTINUITY_NOTE|;
    assert |evidence + INDETERMINATE_NOTE| != |evidence + CONTINUITY_NOTE|;
  }

  /** Only an indeterminate state puts the first note. */
  lemma IndeterminateNotes(c: Comparison, key: string)
    requires Known(c, key) && Coherent(c)
    ensures ChangeAt(c, key).evidence == Original(c, key).evidence + INDETERMINATE_NOTE <==> Any(c.state)
  {
    DifferentNotes(Original(c, key).evidence);
  }

  ghost function Swapped(c: Comparison): Comparison {
    c.(head := c.base, base := c.head, continuity := Continuity(c.continuity.base, c.continuity.head))
  }

  function Opposite(lifecycle: string): string {
    if lifecycle == "introduced" then "resolved" else if lifecycle == "resolved" then "introduced" else lifecycle
  }

  /** Which key got which lifecycle, and for an existing key whether it changed. */
  datatype Verdict = Verdict(key: string, lifecycle: string, changed: bool)

  function VerdictOf(ch: ProjectChange): Verdict {
    Verdict(ch.semanticKey, ch.lifecycle, ch.lifecycle == "existing" && ch.changed)
  }

  function OppositeVerdict(v: Verdict): Verdict {
    v.(lifecycle := Opposite(v.lifecycle))
  }

  ghost function Verdicts(changes: seq<ProjectChange>): set<Verdict> {
    set i | 0 <= i < |changes| :: VerdictOf(changes[i])
  }

  lemma ChangedIsSymmetric(h: ProjectChange, b: ProjectChange)
    ensures ChangeChanged(h, b) == ChangeChanged(b, h)
  {
  }

  ghost predicate Determinate(c: Comparison) {
    Indexed(c) && c.hasBase && !Any(c.state)
  }

  lemma OppositeAt(c: Comparison, key: string)
    requires Determinate(c) && Known(c, key)
    ensures Known(Swapped(c), key)
    ensures VerdictOf(ChangeAt(Swapped(c), key)) == OppositeVerdict(VerdictOf(ChangeAt(c, key)))
  {
    if key in c.head && key in c.base { ChangedIsSymmetric(c.head[key], c.base[key]); }
  }

  lemma VerdictAt(c: Comparison, key: string)
    requires Indexed(c) && Known(c, key)
    ensures VerdictOf(ChangeAt(c, key)) in Verdicts(Classified(c))
  {
    var at := EachKeyOnce(c, key);
  }

  lemma VerdictFrom(c: Comparison, v: Verdict) returns (key: string)
    requires v in Verdicts(Classified(c))
    ensures Known(c, key) && v == VerdictOf(ChangeAt(c, key))
  {
    var i :| 0 <= i < |Classified(c)| && v == VerdictOf(Classified(c)[i]);
    key := Order(c)[i];
  }

  /** One direction of the duality. */
  lemma VerdictsCarryOver(c: Comparison, v: Verdict)
    requires Determinate(c) && v in Verdicts(Classified(c))
    ensures OppositeVerdict(v) in Verdicts(Classified(Swapped(c)))
  {
    var key := VerdictFrom(c, v);
    OppositeAt(c, key);
    VerdictAt(Swapped(c), key);
  }

  lemma SwappedTwice(c: Comparison)
    ensures Swapped(Swapped(c)) == c
    ensures Determinate(c) ==> Determinate(Swapped(c))
  {
  }

  lemma OppositeTwice(v: Verdict)
    ensures OppositeVerdict(OppositeVerdict(v)) == v
  {
  }

  /** With both sides complete, swapping head with base, and rename destinations with sources, exchanges introduced
      and resolved and leaves every other verdict as it was. */
  lemma HeadAndBaseAreDual(c: Comparison)
    requires Determinate(c)
    ensures forall v :: OppositeVerdict(v) in Verdicts(Classified(Swapped(c))) <==> v in Verdicts(Classified(c))
  {
    SwappedTwice(c);
    forall v ensures OppositeVerdict(v) in Verdicts(Classified(Swapped(c))) <==> v in Verdicts(Classified(c)) {
      if v in Verdicts(Classified(c)) { VerdictsCarryOver(c, v); }
      if OppositeVerdict(v) in Verdicts(Classified(Swapped(c))) {
        VerdictsCarryOver(Swapped(c), OppositeVerdict(v));
        OppositeTwice(v);
      }
    }
  }

  /** Introduced exactly for the head-only keys no rename touches, existing exactly for the shared ones, resolved exactly
      for the base-only keys no rename touches, and only when both sides are complete. */
  lemma LifecycleExactly(c: Comparison, key: string)
    requires Known(c, key) && c.noBase in {"baseline", "unknown"}
    ensures var l, sure := ChangeAt(c, key).lifecycle, c.hasBase && !Any(c.state);
      && (l == "introduced" <==> sure && key !in c.base && !Touches(c.head[key], c.continuity.head, c.dir))
      && (l == "existing" <==> sure && key in c.head && key in c.base)
      && (l == "resolved" <==> sure && key !in c.head && !Touches(c.base[key], c.continuity.base, c.dir))
      && (l == "baseline" <==> !c.hasBase && !Any(c.state) && key in c.head && c.noBase == "baseline")
  {
  }

  /** When a side is incomplete nothing is promoted: every change is unknown and unchanged. */
  lemma IndeterminateMeansUnknown(c: Comparison, i: nat)
    requires Any(c.state) && i < |Classified(c)|
    ensures Classified(c)[i].lifecycle == "unknown" && !Classified(c)[i].changed
  {
    var key := Order(c)[i];
    assert Known(c, key);
  }

  /** The combined case of the base loop never blames coverage for a determinate change: base changes without a
      completed base analysis make the state indeterminate by themselves. */
  lemma BaseNoteIsNeverMisplaced(headCoverage: Option<bool>, baseAnalyzed: bool, baseCoverage: Option<bool>,
                                 baseChanges: seq<ProjectChange>)
    ensures !baseAnalyzed && FirstByKey(baseChanges) != map[]
            ==> Any(LifecycleState(headCoverage, baseAnalyzed, baseCoverage, |baseChanges|))
  {
    FirstByKeyHolds(baseChanges);
  }

  predicate Identified(ch: ProjectChange, hash: string -> string) {
    var h := hash(Encode(IdentityFields(ch)));
    ch.id == "pchg_" + h && ch.fingerprint == "pfp_" + h
  }

  lemma TailsMatch(p: string, x: string, y: string)
    requires p + x == p + y
    ensures x == y
  {
    assert (p + x)[|p|..] == x && (p + y)[|p|..] == y;
  }

  lemma SameHashSameKey(a: ProjectChange, b: ProjectChange, hash: string -> string)
    requires Injective(hash) && Short(IdentityFields(a)) && Short(IdentityFields(b))
    requires Identified(a, hash) && Identified(b, hash) && (a.id == b.id || a.fingerprint == b.fingerprint)
    ensures a.semanticKey == b.semanticKey
  {
    var x, y := hash(Encode(IdentityFields(a))), hash(Encode(IdentityFields(b)));
    if a.id == b.id { TailsMatch("pchg_", x, y); } else { TailsMatch("pfp_", x, y); }
    EncodeInjective(IdentityFields(a), IdentityFields(b));
    assert IdentityFields(a)[0] == IdentityFields(b)[0];
  }

  ghost predicate ShortIdentities(c: Comparison) {
    && (forall k | k in c.head :: Short(IdentityFields(c.head[k])))
    && (forall k | k in c.base :: Short(IdentityFields(c.base[k])))
  }

  lemma ChangeIdentified(c: Comparison, key: string)
    requires Known(c, key) && ShortIdentities(c)
    ensures Identified(ChangeAt(c, key), c.hash) && Short(IdentityFields(ChangeAt(c, key)))
  {
    var before := if key in c.head then c.head[key] else c.base[key];
    assert IdentityFields(ChangeAt(c, key)) == IdentityFields(before);
  }

  /** No two reported changes share an id or a fingerprint. */
  lemma ChangeIDsDistinct(c: Comparison, i: nat, j: nat)
    requires Indexed(c) && Injective(c.hash) && ShortIdentities(c) && i < |Classified(c)| && j < |Classified(c)|
    requires Classified(c)[i].id == Classified(c)[j].id || Classified(c)[i].fingerprint == Classified(c)[j].fingerprint
    ensures i == j
  {
    var a, b := Order(c)[i], Order(c)[j];
    ChangeIdentified(c, a);
    ChangeIdentified(c, b);
    SameHashSameKey(ChangeAt(c, a), ChangeAt(c, b), c.hash);
    ChangeKeepsKey(c, a);
    ChangeKeepsKey(c, b);
    OrderHolds(c);
    NoneTwice(Order(c), c.head.Keys + c.base.Keys, i, j);
  }
}
