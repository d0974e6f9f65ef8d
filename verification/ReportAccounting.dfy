/** Counting, ordering and narrowing a report (pkg/codesignal/signal_summary.go, project_report_surface.go,
    signal_view.go, signals_withheld.go). */
module ReportAccounting {
  import opened FieldEncoding
  import opened Filtering
  import opened Options
  import opened Ordering
  import FactOrder
  import opened Priority
  import opened ProjectLifecycle
  import opened Ranking
  import ReportDiagnostics
  import SignalIdentity
  import opened Signals

  // ----- the project surface -----

  predicate IsResolved(lifecycle: string) {
    lifecycle == "resolved"
  }

  predicate Anchored(ch: ProjectChange) {
    ch.anchor.path != ""
  }

  predicate OpenChange(ch: ProjectChange) {
    !IsResolved(ch.lifecycle)
  }

  predicate OpenSignal(s: Signal) {
    !IsResolved(s.lifecycle)
  }

  /** signalFromProjectChange. */
  function Mirror(ch: ProjectChange): Signal {
    Signal(ch.id, ch.fingerprint, ch.ruleID, ch.severity, ch.confidence, ch.lifecycle, ch.changed, ch.anchor.path,
           ch.semanticKey, ch.anchor.startRow, ch.anchor.startCol, ch.anchor.startByte, ch.evidence, ch.nested,
           ch.rest)
  }

  /** withCanonicalProjectChangeArrays. */
  function Canonical(ch: ProjectChange): ProjectChange {
    ch.(nested := FactOrder.CanonicalNested(ch.nested))
  }

  /** The changes as either surface shows them. */
  function Surface(changes: seq<ProjectChange>): seq<ProjectChange> {
    Map(Canonical, changes)
  }

  function CompareChanges(a: ProjectChange, b: ProjectChange): int {
    Or([CompareText(a.semanticKey, b.semanticKey), CompareText(a.ruleID, b.ruleID)])
  }

  /** How many entries have each lifecycle. */
  datatype Tallies = Tallies(introduced: nat, existing: nat, resolved: nat, baseline: nat, unknown: nat)

  function TalliesOf(lifecycles: seq<string>): Tallies {
    var m := multiset(lifecycles);
    Tallies(m["introduced"], m["existing"], m["resolved"], m["baseline"], m["unknown"])
  }

  function Total(t: Tallies): nat {
    t.introduced + t.existing + t.resolved + t.baseline + t.unknown
  }

  const LIFECYCLES := {"introduced", "existing", "resolved", "baseline", "unknown"}

  function Lifecycles(signals: seq<Signal>): seq<string> {
    Map((s: Signal) => s.lifecycle, signals)
  }

  function Count(t: Tallies, lifecycle: string): Tallies {
    match lifecycle
    case "introduced" => t.(introduced := t.introduced + 1)
    case "existing" => t.(existing := t.existing + 1)
    case "resolved" => t.(resolved := t.resolved + 1)
    case "baseline" => t.(baseline := t.baseline + 1)
    case "unknown" => t.(unknown := t.unknown + 1)
    case _ => t
  }

  lemma CountOne(before: seq<string>, lifecycle: string)
    ensures TalliesOf(before + [lifecycle]) == Count(TalliesOf(before), lifecycle)
  {
  }

  /** The five counters cover every entry exactly when every lifecycle is one of the five. */
  lemma {:induction false} FiveCounters(lifecycles: seq<string>)
    ensures Total(TalliesOf(lifecycles)) <= |lifecycles|
    ensures Total(TalliesOf(lifecycles)) == |lifecycles| <==> forall l | l in lifecycles :: l in LIFECYCLES
  {
    if lifecycles != [] {
      var before, last := lifecycles[..|lifecycles| - 1], lifecycles[|lifecycles| - 1];
      FiveCounters(before);
      CountOne(before, last);
      assert lifecycles == before + [last];
      var covered, coveredBefore := Total(TalliesOf(lifecycles)) == |lifecycles|, Total(TalliesOf(before)) == |before|;
      assert covered <==> coveredBefore && last in LIFECYCLES;
      assert last in lifecycles && forall l | l in before :: l in lifecycles;
      assert forall l | l in lifecycles :: l in before || l == last;
    }
  }

  lemma OneMoreLifecycle(signals: seq<Signal>, s: Signal)
    ensures Lifecycles(signals + [s]) == Lifecycles(signals) + [s.lifecycle]
  {
  }

  lemma OneMoreSignal(signals: seq<Signal>, s: Signal)
    ensures TalliesOf(Lifecycles(signals + [s])) == Count(TalliesOf(Lifecycles(signals)), s.lifecycle)
  {
    OneMoreLifecycle(signals, s);
    CountOne(Lifecycles(signals), s.lifecycle);
  }

  lemma OneMoreMirror(changes: seq<ProjectChange>, i: nat)
    requires i < |changes|
    ensures Map(Mirror, Surface(changes[..i + 1])) == Map(Mirror, Surface(changes[..i])) + [Mirror(Canonical(changes[i]))]
  {
  }

  /** Canonical arrays matter to no filter and to no comparison of changes. */
  lemma SurfaceFilters(changes: seq<ProjectChange>)
    ensures Filter(Anchored, Surface(changes)) == Surface(Filter(Anchored, changes))
    ensures Filter(OpenChange, Surface(changes)) == Surface(Filter(OpenChange, changes))
  {
    FilterMap(Anchored, Anchored, Canonical, changes);
    FilterMap(OpenChange, OpenChange, Canonical, changes);
  }

  datatype Summary = Summary(files: ReportDiagnostics.FileCounts, tallies: Tallies, active: nat)

  /** The counters of the project surface: there is none for unknown changes. */
  datatype ProjectSummary = ProjectSummary(introduced: nat, existing: nat, resolved: nat, baseline: nat, active: nat)

  function ProjectSummaryOf(lifecycles: seq<string>, active: nat): ProjectSummary {
    var t := TalliesOf(lifecycles);
    ProjectSummary(t.introduced, t.existing, t.resolved, t.baseline, active)
  }

  function CountChange(s: ProjectSummary, lifecycle: string): ProjectSummary {
    match lifecycle
    case "introduced" => s.(introduced := s.introduced + 1)
    case "existing" => s.(existing := s.existing + 1)
    case "resolved" => s.(resolved := s.resolved + 1)
    case "baseline" => s.(baseline := s.baseline + 1)
    case _ => s
  }

  lemma CountOneChange(before: seq<string>, lifecycle: string)
    ensures ProjectSummaryOf(before + [lifecycle], 0) == CountChange(ProjectSummaryOf(before, 0), lifecycle)
  {
    CountOne(before, lifecycle);
  }

  /** For classified changes the four counters cover every change exactly when none is unknown. */
  lemma FourCounters(lifecycles: seq<string>, active: nat)
    requires forall l | l in lifecycles :: l in LIFECYCLES
    ensures var s := ProjectSummaryOf(lifecycles, active);
            s.introduced + s.existing + s.resolved + s.baseline == |lifecycles| <==> "unknown" !in lifecycles
  {
    FiveCounters(lifecycles);
    assert "unknown" in lifecycles <==> "unknown" in multiset(lifecycles);
  }

  // ----- the project surface, step by step -----

  method FilterAnchorlessProjectChanges(changes: array<ProjectChange>) returns (n: nat)
    modifies changes
    ensures n <= changes.Length && changes[..n] == Filter(Anchored, old(changes[..]))
  {
    assert changes[..changes.Length] == changes[..];
    n := FilterInPlace(Anchored, changes, changes.Length);
  }

  /** The diagnostics about changes without an anchor path. */
  function MissingPathNote(ch: ProjectChange): ReportDiagnostics.Diagnostic {
    ReportDiagnostics.FileNote("", "project_observation_missing_primary_path",
                               "project observation semantic_key \"" + ch.semanticKey
                               + "\" omitted from active project findings: primary_anchor.path is empty", None)
  }

  predicate Anchorless(ch: ProjectChange) {
    !Anchored(ch)
  }

  function MissingPathNotes(changes: seq<ProjectChange>): seq<ReportDiagnostics.Diagnostic> {
    Map(MissingPathNote, Filter(Anchorless, changes))
  }

  lemma MissingPathStep(changes: seq<ProjectChange>, i: nat)
    requires i < |changes|
    ensures MissingPathNotes(changes[..i + 1])
            == if Anchored(changes[i]) then MissingPathNotes(changes[..i])
               else MissingPathNotes(changes[..i]) + [MissingPathNote(changes[i])]
  {
    FilterStep(Anchorless, changes, i);
  }

  method NoteMissingPaths(changes: seq<ProjectChange>) returns (notes: seq<ReportDiagnostics.Diagnostic>)
    ensures notes == MissingPathNotes(changes)
  {
    notes := [];
    for i := 0 to |changes|
      invariant notes == MissingPathNotes(changes[..i])
    {
      MissingPathStep(changes, i);
      if !Anchored(changes[i]) { notes := notes + [MissingPathNote(changes[i])]; }
    }
    assert changes[..|changes|] == changes;
  }

  method MirrorAndCount(changes: seq<ProjectChange>) returns (projectSummary: ProjectSummary, projectSignals: seq<Signal>)
    ensures projectSignals == Map(Mirror, Surface(changes))
    ensures projectSummary == ProjectSummaryOf(Lifecycles(projectSignals), 0)
  {
    projectSignals := [];
    projectSummary := ProjectSummary(0, 0, 0, 0, 0);
    for i := 0 to |changes|
      invariant projectSignals == Map(Mirror, Surface(changes[..i]))
      invariant projectSummary == ProjectSummaryOf(Lifecycles(projectSignals), 0)
    {
      OneMoreMirror(changes, i);
      OneMoreLifecycle(projectSignals, Mirror(Canonical(changes[i])));
      CountOneChange(Lifecycles(projectSignals), changes[i].lifecycle);
      projectSummary := CountChange(projectSummary, changes[i].lifecycle);
      projectSignals := projectSignals + [Mirror(Canonical(changes[i]))];
    }
    assert changes[..|changes|] == changes;
  }

  /** Mirrors and counts every anchored change, and only then drops the resolved ones. */
  method BuildProjectReportSurface(changes: array<ProjectChange>, includeResolved: bool)
    returns (projectChanges: seq<ProjectChange>, projectSummary: ProjectSummary, projectSignals: seq<Signal>,
             diagnostics: seq<ReportDiagnostics.Diagnostic>)
    modifies changes
    ensures projectSignals == Map(Mirror, Filter(Anchored, Surface(old(changes[..]))))
    ensures projectChanges == ListedChanges(Surface(old(changes[..])), includeResolved)
    ensures projectSummary == ProjectSummaryOf(Lifecycles(projectSignals), |projectChanges|)
    ensures diagnostics == MissingPathNotes(old(changes[..]))
  {
    diagnostics := NoteMissingPaths(changes[..]);
    ghost var anchored := Filter(Anchored, changes[..]);
    var n := FilterAnchorlessProjectChanges(changes);
    projectSummary, projectSignals := MirrorAndCount(changes[..n]);
    if !includeResolved { n := FilterInPlace(OpenChange, changes, n); }
    SurfaceFilters(old(changes[..]));
    SurfaceFilters(anchored);
    projectChanges := StableSort(CompareChanges, Surface(changes[..n]));
    StableSortPermutes(CompareChanges, Surface(changes[..n]));
    projectSummary := projectSummary.(active := |projectChanges|);
  }

  /** The project changes a report lists. */
  function ListedChanges(changes: seq<ProjectChange>, includeResolved: bool): (listed: seq<ProjectChange>) {
    var anchored := Filter(Anchored, changes);
    StableSort(CompareChanges, if includeResolved then anchored else Filter(OpenChange, anchored))
  }

  // ----- the report -----

  datatype Withheld = Withheld(minSeverity: string, belowMinSeverity: int, top: int, beyondTop: int)

  datatype Report = Report(signals: seq<Signal>, diagnostics: seq<ReportDiagnostics.Diagnostic>, summary: Summary,
                           projectChanges: seq<ProjectChange>, projectFacts: seq<FactOrder.Fact>,
                           projectSummary: ProjectSummary, withheld: Option<Withheld>)

  /** File signals first, then one mirror for each anchored change. */
  function AllSignals(fileSignals: seq<Signal>, changes: seq<ProjectChange>): seq<Signal> {
    fileSignals + Map(Mirror, Filter(Anchored, changes))
  }

  function Active(signals: seq<Signal>, includeResolved: bool): seq<Signal> {
    if includeResolved then signals else Filter(OpenSignal, signals)
  }

  method OmitResolvedSignals(signals: seq<Signal>) returns (filtered: seq<Signal>)
    ensures filtered == Filter(OpenSignal, signals)
  {
    filtered := [];
    for i := 0 to |signals|
      invariant filtered == Filter(OpenSignal, signals[..i])
    {
      assert signals[..i + 1][..i] == signals[..i];
      if IsResolved(signals[i].lifecycle) { continue; }
      filtered := filtered + [signals[i]];
    }
    assert signals[..|signals|] == signals;
  }

  method Sorted(signals: seq<Signal>) returns (out: seq<Signal>)
    ensures SortedSignals(signals, out) && |out| == |signals|
  {
    var a := new Signal[|signals|](i requires 0 <= i < |signals| => signals[i]);
    assert a[..] == signals;
    SortSignals(a);
    out := a[..];
  }

  method FinalizeSignals(signals: seq<Signal>, files: seq<string>, diagnostics: seq<ReportDiagnostics.Diagnostic>,
                         includeResolved: bool)
    returns (active: seq<Signal>, summary: Summary)
    ensures SortedSignals(Active(signals, includeResolved), active)
    ensures summary == Summary(ReportDiagnostics.FileCountsOf(files, diagnostics), TalliesOf(Lifecycles(signals)), |active|)
  {
    var paths := ReportDiagnostics.DistinctDiagnosticPaths(diagnostics);
    var unanalyzed := ReportDiagnostics.CountUnanalyzedFiles(files, diagnostics);
    var tallies := Tallies(0, 0, 0, 0, 0);
    for i := 0 to |signals|
      invariant tallies == TalliesOf(Lifecycles(signals[..i]))
    {
      OneMoreSignal(signals[..i], signals[i]);
      assert signals[..i + 1] == signals[..i] + [signals[i]];
      tallies := Count(tallies, signals[i].lifecycle);
    }
    assert signals[..|signals|] == signals;
    active := signals;
    if !includeResolved { active := OmitResolvedSignals(active); }
    active := Sorted(active);
    summary := Summary(ReportDiagnostics.FileCounts(|files|, |paths|, unanalyzed), tallies, |active|);
  }

  /** What a report is built from, once file signals and project changes are classified: the file pipeline gives the
      file diagnostics, the project pipeline those before the ones about missing paths. */
  datatype Source = Source(files: seq<string>, fileDiagnostics: seq<ReportDiagnostics.Diagnostic>, fileSignals: seq<Signal>,
                           projectDiagnostics: seq<ReportDiagnostics.Diagnostic>, changes: seq<ProjectChange>,
                           facts: seq<FactOrder.Fact>, includeResolved: bool)

  function AllDiagnostics(src: Source): seq<ReportDiagnostics.Diagnostic> {
    src.fileDiagnostics + (src.projectDiagnostics + MissingPathNotes(src.changes))
  }

  function Everything(src: Source): seq<Signal> {
    AllSignals(src.fileSignals, Surface(src.changes))
  }

  ghost predicate Built(r: Report, src: Source) {
    && SortedSignals(Active(Everything(src), src.includeResolved), r.signals)
    && r.diagnostics == ReportDiagnostics.SortDiagnostics(AllDiagnostics(src))
    && r.projectFacts == FactOrder.SortedFacts(src.facts)
    && r.summary == Summary(ReportDiagnostics.FileCountsOf(src.files, src.fileDiagnostics),
                            TalliesOf(Lifecycles(Everything(src))), |r.signals|)
    && r.projectChanges == ListedChanges(Surface(src.changes), src.includeResolved)
    && r.projectSummary == ProjectSummaryOf(Lifecycles(Map(Mirror, Filter(Anchored, Surface(src.changes)))), |r.projectChanges|)
    && r.withheld == None
  }

  /** Builds a report from classified file signals and classified project changes. */
  method Build(files: seq<string>, fileDiagnostics: seq<ReportDiagnostics.Diagnostic>, fileSignals: seq<Signal>,
               projectDiagnostics: seq<ReportDiagnostics.Diagnostic>, changes: array<ProjectChange>,
               facts: seq<FactOrder.Fact>, includeResolved: bool)
    returns (r: Report)
    modifies changes
    ensures Built(r, Source(files, fileDiagnostics, fileSignals, projectDiagnostics, old(changes[..]), facts, includeResolved))
  {
    var projectChanges, projectSummary, projectSignals, notes := BuildProjectReportSurface(changes, includeResolved);
    var projectFacts := FactOrder.SortProjectFacts(facts);
    var diagnostics := ReportDiagnostics.SortDiagnostics(fileDiagnostics + (projectDiagnostics + notes));
    var signals, summary := FinalizeSignals(fileSignals + projectSignals, files, fileDiagnostics, includeResolved);
    r := Report(signals, diagnostics, summary, projectChanges, projectFacts, projectSummary, None);
  }

  // ----- narrowing -----

  datatype NarrowOptions = NarrowOptions(minSeverity: string, top: int)

  datatype NarrowError = NilReport | AlreadyNarrowed | NegativeTop | UnknownSeverityFloor

  datatype View = View(report: Report) | Refused(error: NarrowError)

  function Refusal(r: Option<Report>, opts: NarrowOptions): Option<NarrowError> {
    if r.None? then Some(NilReport)
    else if r.value.withheld.Some? then Some(AlreadyNarrowed)
    else if opts.top < 0 then Some(NegativeTop)
    else if opts.minSeverity != "" && opts.minSeverity !in SEVERITY_ORDER then Some(UnknownSeverityFloor)
    else None
  }

  function AtOrAbove(floor: string): Signal -> bool {
    (s: Signal) => SeverityRank(s.severity) >= SeverityRank(floor)
  }

  function Floored(signals: seq<Signal>, minSeverity: string): seq<Signal> {
    if minSeverity == "" then signals else Filter(AtOrAbove(minSeverity), signals)
  }

  function Leading(signals: seq<Signal>, top: int): seq<Signal> {
    if 0 < top < |signals| then signals[..top] else signals
  }

  function IDs(signals: seq<Signal>): set<string> {
    set s | s in signals :: s.id
  }

  function KeepsChange(kept: seq<Signal>): ProjectChange -> bool {
    var ids := IDs(kept);
    (ch: ProjectChange) => ch.id in ids
  }

  function FollowSignals(changes: seq<ProjectChange>, kept: seq<Signal>): seq<ProjectChange> {
    Filter(KeepsChange(kept), changes)
  }

  /** The view of `r` once its signals are ranked as `ranked`. */
  function ViewOf(r: Report, opts: NarrowOptions, ranked: seq<Signal>): Report {
    var floored := Floored(ranked, opts.minSeverity);
    var kept := Leading(floored, opts.top);
    r.(signals := kept, projectChanges := FollowSignals(r.projectChanges, kept),
       withheld := Some(Withheld(opts.minSeverity, |ranked| - |floored|, opts.top, |floored| - |kept|)))
  }

  ghost predicate Narrowed(r: Report, opts: NarrowOptions, view: Report) {
    exists ranked :: SortedSignals(r.signals, ranked) && view == ViewOf(r, opts, ranked)
  }

  method Withhold(r: Report, opts: NarrowOptions, ranked: seq<Signal>) returns (view: Report)
    requires opts.top >= 0
    ensures view == ViewOf(r, opts, ranked)
  {
    var withheld := Withheld("", 0, 0, 0);
    var kept := ranked;
    if opts.minSeverity != "" {
      var floored := Filter(AtOrAbove(opts.minSeverity), kept);
      withheld := withheld.(minSeverity := opts.minSeverity, belowMinSeverity := |kept| - |floored|);
      kept := floored;
    }
    if opts.top > 0 {
      var n := if opts.top < |kept| then opts.top else |kept|;
      withheld := withheld.(top := opts.top, beyondTop := |kept| - n);
      assert kept[..|kept|] == kept;
      kept := kept[..n];
    }
    view := r.(signals := kept, projectChanges := FollowSignals(r.projectChanges, kept), withheld := Some(withheld));
  }

  method Narrow(r: Option<Report>, opts: NarrowOptions) returns (view: View)
    ensures Refusal(r, opts).Some? ==> view == Refused(Refusal(r, opts).value)
    ensures Refusal(r, opts).None? && opts == NarrowOptions("", 0) ==> view == View(r.value)
    ensures Refusal(r, opts).None? && opts != NarrowOptions("", 0) ==> view.View? && Narrowed(r.value, opts, view.report)
  {
    var refusal := Refusal(r, opts);
    if refusal.Some? { return Refused(refusal.value); }
    if opts == NarrowOptions("", 0) { return View(r.value); }
    var ranked := Sorted(r.value.signals);
    var narrowed := Withhold(r.value, opts, ranked);
    return View(narrowed);
  }

  // ----- the accounts -----

  lemma {:induction false} OpenTally(signals: seq<Signal>)
    ensures |Filter(OpenSignal, signals)| == |signals| - TalliesOf(Lifecycles(signals)).resolved
  {
    if signals != [] {
      var before, last := signals[..|signals| - 1], signals[|signals| - 1];
      OpenTally(before);
      assert Lifecycles(signals) == Lifecycles(before) + [last.lifecycle];
      CountOne(Lifecycles(before), last.lifecycle);
    }
  }

  lemma SortedLength(input: seq<Signal>, out: seq<Signal>)
    requires SortedSignals(input, out)
    ensures |out| == |input|
  {
    SortingPermutes(input, out);
    assert |multiset(out)| == |out| && |multiset(input)| == |input|;
  }

  lemma EverythingHasLifecycle(fileSignals: seq<Signal>, changes: seq<ProjectChange>)
    requires forall s | s in fileSignals :: s.lifecycle in LIFECYCLES
    requires forall ch | ch in changes :: ch.lifecycle in LIFECYCLES
    ensures forall l | l in Lifecycles(AllSignals(fileSignals, changes)) :: l in LIFECYCLES
  {
    var all, anchored := AllSignals(fileSignals, changes), Filter(Anchored, changes);
    forall i | 0 <= i < |all| ensures all[i].lifecycle in LIFECYCLES {
      if i < |fileSignals| {
        assert all[i] in fileSignals;
      } else {
        assert anchored[i - |fileSignals|] in anchored;
      }
    }
  }

  /** The counters account for every classified signal: the five of them sum to all, and the active ones are all of them
      but the resolved ones that were left out. */
  lemma SummaryAccounts(r: Report, src: Source)
    requires Built(r, src)
    requires forall s | s in src.fileSignals :: s.lifecycle in LIFECYCLES
    requires forall ch | ch in src.changes :: ch.lifecycle in LIFECYCLES
    ensures Total(r.summary.tallies) == |src.fileSignals| + |Filter(Anchored, src.changes)|
    ensures r.summary.active == |r.signals|
                             == Total(r.summary.tallies) - if src.includeResolved then 0 else r.summary.tallies.resolved
  {
    var all := Everything(src);
    SurfaceFilters(src.changes);
    SurfaceMembers(src.changes);
    EverythingHasLifecycle(src.fileSignals, Surface(src.changes));
    FiveCounters(Lifecycles(all));
    OpenTally(all);
    SortedLength(Active(all, src.includeResolved), r.signals);
  }

  /** After narrowing, kept, below the floor and beyond the cap add up to the active signals, and the record is one that
      its own validation accepts. */
  lemma NarrowingConserves(r: Report, opts: NarrowOptions, view: Report)
    requires Narrowed(r, opts, view) && Refusal(Some(r), opts).None? && opts != NarrowOptions("", 0)
    ensures view.withheld.Some? && ValidRecord(view.withheld.value)
    ensures |view.signals| + view.withheld.value.belowMinSeverity + view.withheld.value.beyondTop == |r.signals|
    ensures view.summary == r.summary && view.projectSummary == r.projectSummary
  {
    var ranked :| SortedSignals(r.signals, ranked) && view == ViewOf(r, opts, ranked);
    SortedLength(r.signals, ranked);
  }

  /** SignalsWithheld.validate. */
  predicate ValidRecord(w: Withheld) {
    && w.top >= 0 && w.belowMinSeverity >= 0 && w.beyondTop >= 0
    && (w.minSeverity != "" ==> w.minSeverity in SEVERITY_ORDER)
    && (w.minSeverity == "" ==> w.belowMinSeverity == 0)
    && (w.top == 0 ==> w.beyondTop == 0)
    && (w.minSeverity != "" || w.top != 0)
  }

  lemma KeptComesFirst(ranked: seq<Signal>, opts: NarrowOptions, kept: Signal, withheld: Signal) returns (a: nat, b: nat)
    requires kept in Leading(Floored(ranked, opts.minSeverity), opts.top)
    requires withheld in Floored(ranked, opts.minSeverity)
    requires withheld !in Leading(Floored(ranked, opts.minSeverity), opts.top)
    ensures a < b < |ranked| && ranked[a] == kept && ranked[b] == withheld
  {
    var floored := Floored(ranked, opts.minSeverity);
    var i :| 0 <= i < |Leading(floored, opts.top)| && Leading(floored, opts.top)[i] == kept;
    var j :| 0 <= j < |floored| && floored[j] == withheld;
    assert floored[i] == kept;
    assert forall k | 0 <= k < |Leading(floored, opts.top)| :: Leading(floored, opts.top)[k] == floored[k];
    if opts.minSeverity == "" { return i, j; }
    a, b := FilterKeepsOrder(AtOrAbove(opts.minSeverity), ranked, i, j);
  }

  lemma KeptLeads(r: Report, opts: NarrowOptions, view: Report, kept: Signal, withheld: Signal)
    returns (ranked: seq<Signal>, a: nat, b: nat)
    requires Narrowed(r, opts, view) && kept in view.signals && withheld in r.signals && withheld !in view.signals
    requires opts.minSeverity == "" || SeverityRank(withheld.severity) >= SeverityRank(opts.minSeverity)
    ensures SortedSignals(r.signals, ranked) && a < b < |ranked| && ranked[a] == kept && ranked[b] == withheld
  {
    ranked :| SortedSignals(r.signals, ranked) && view == ViewOf(r, opts, ranked);
    SortingPermutes(r.signals, ranked);
    assert withheld in multiset(r.signals) && withheld in multiset(ranked);
    FilterCounts(AtOrAbove(opts.minSeverity), ranked, withheld);
    a, b := KeptComesFirst(ranked, opts, kept, withheld);
  }

  /** What is kept was in the report and reaches the floor. */
  lemma KeptReachesFloor(r: Report, opts: NarrowOptions, view: Report, kept: Signal)
    requires Narrowed(r, opts, view) && kept in view.signals
    ensures kept in r.signals
    ensures opts.minSeverity != "" ==> !MoreSevere(opts.minSeverity, kept.severity)
  {
    var ranked :| SortedSignals(r.signals, ranked) && view == ViewOf(r, opts, ranked);
    SortingPermutes(r.signals, ranked);
    assert kept in Floored(ranked, opts.minSeverity) && kept in multiset(ranked) && kept in multiset(r.signals);
    MoreSevereIs(opts.minSeverity, kept.severity);
  }

  /** The view keeps what a reader is promised: nothing at or above the floor is withheld while something of a less
      urgent group is kept, something less severe of the same group, or something less confident of the same group and
      severity. */
  lemma KeptSignalsLead(r: Report, opts: NarrowOptions, view: Report, kept: Signal, withheld: Signal, g: nat, h: nat)
    requires Narrowed(r, opts, view) && kept in view.signals && withheld in r.signals && withheld !in view.signals
    requires opts.minSeverity == "" || !MoreSevere(opts.minSeverity, withheld.severity)
    requires InGroup(kept, g) && InGroup(withheld, h)
    ensures g <= h && (g == h ==> !MoreSevere(withheld.severity, kept.severity))
    ensures g == h && SameSeverity(kept.severity, withheld.severity) ==> !MoreConfident(withheld.confidence, kept.confidence)
  {
    MoreSevereIs(opts.minSeverity, withheld.severity);
    var ranked, a, b := KeptLeads(r, opts, view, kept, withheld);
    GroupsInOrder(r.signals, ranked, a, b);
    if g == h {
      SeverityNeverRises(r.signals, ranked, a, b, g);
      if SameSeverity(kept.severity, withheld.severity) { ConfidenceNeverRises(r.signals, ranked, a, b, g); }
    }
  }

  lemma SameRankingSameView(r: Report, r': Report, opts: NarrowOptions, ranked: seq<Signal>)
    requires multiset(r.projectChanges) == multiset(r'.projectChanges)
    ensures var v, v' := ViewOf(r, opts, ranked), ViewOf(r', opts, ranked);
            && v.signals == v'.signals && v.withheld == v'.withheld
            && multiset(v.projectChanges) == multiset(v'.projectChanges)
            && (r.projectChanges == r'.projectChanges ==> v.projectChanges == v'.projectChanges)
  {
    var keeps := KeepsChange(Leading(Floored(ranked, opts.minSeverity), opts.top));
    forall ch ensures multiset(Filter(keeps, r.projectChanges))[ch] == multiset(Filter(keeps, r'.projectChanges))[ch] {
      FilterCounts(keeps, r.projectChanges, ch);
      FilterCounts(keeps, r'.projectChanges, ch);
    }
  }

  /** Two reports with the same signals and project changes in any order yield the same view. */
  lemma NarrowingIgnoresOrder(r: Report, r': Report, opts: NarrowOptions, view: Report, view': Report)
    requires Narrowed(r, opts, view) && Narrowed(r', opts, view')
    requires multiset(r.signals) == multiset(r'.signals) && DistinctIDs(r.signals)
    requires multiset(r.projectChanges) == multiset(r'.projectChanges)
    ensures view.signals == view'.signals && view.withheld == view'.withheld
    ensures multiset(view.projectChanges) == multiset(view'.projectChanges)
    ensures r.projectChanges == r'.projectChanges ==> view.projectChanges == view'.projectChanges
  {
    var ranked :| SortedSignals(r.signals, ranked) && view == ViewOf(r, opts, ranked);
    var ranked' :| SortedSignals(r'.signals, ranked') && view' == ViewOf(r', opts, ranked');
    SortingIsCanonical(r.signals, r'.signals, ranked, ranked');
    SameRankingSameView(r, r', opts, ranked);
  }

  // ----- project changes follow their mirrors -----

  const CHANGE_PREFIX := "pchg_"

  predicate IsMirror(s: Signal) {
    CHANGE_PREFIX <= s.id
  }

  function ChangeIDs(changes: seq<ProjectChange>): seq<string> {
    Map((ch: ProjectChange) => ch.id, changes)
  }

  /** What classification gives: changes carry distinct ids of their own form, file signals never that form. */
  ghost predicate Sourced(fileSignals: seq<Signal>, changes: seq<ProjectChange>) {
    && (forall s | s in fileSignals :: !IsMirror(s))
    && (forall ch | ch in changes :: IsMirror(Mirror(ch)))
    && Distinct(ChangeIDs(changes))
  }

  /** The report lists each change at most once, and lists exactly the changes whose mirrors it lists. */
  ghost predicate Paired(r: Report) {
    && Distinct(ChangeIDs(r.projectChanges))
    && multiset(Map(Mirror, r.projectChanges)) == multiset(Filter(IsMirror, r.signals))
  }

  lemma MirrorCount(fileSignals: seq<Signal>, changes: seq<ProjectChange>, includeResolved: bool, s: Signal)
    requires Sourced(fileSignals, changes) && IsMirror(s)
    ensures multiset(Active(AllSignals(fileSignals, changes), includeResolved))[s]
            == multiset(Map(Mirror, ListedChanges(changes, includeResolved)))[s]
  {
    var anchored := Filter(Anchored, changes);
    var open := if includeResolved then anchored else Filter(OpenChange, anchored);
    FilterCounts(OpenSignal, AllSignals(fileSignals, changes), s);
    FilterCounts(OpenSignal, Map(Mirror, anchored), s);
    FilterMap(OpenSignal, OpenChange, Mirror, anchored);
    StableSortPermutes(CompareChanges, open);
    MapPermutes(Mirror, ListedChanges(changes, includeResolved), open);
    assert s in fileSignals <==> s in multiset(fileSignals);
  }

  lemma MirrorsListed(fileSignals: seq<Signal>, changes: seq<ProjectChange>, includeResolved: bool, s: Signal)
    requires Sourced(fileSignals, changes) && !IsMirror(s)
    ensures multiset(Map(Mirror, ListedChanges(changes, includeResolved)))[s] == 0
  {
    var anchored := Filter(Anchored, changes);
    var open := if includeResolved then anchored else Filter(OpenChange, anchored);
    StableSortPermutes(CompareChanges, open);
    MapPermutes(Mirror, ListedChanges(changes, includeResolved), open);
    forall i | 0 <= i < |open| ensures IsMirror(Map(Mirror, open)[i]) {
      assert open[i] in open && open[i] in changes;
    }
    assert s in Map(Mirror, open) <==> s in multiset(Map(Mirror, open));
  }

  lemma ListedDistinct(changes: seq<ProjectChange>, includeResolved: bool)
    requires Distinct(ChangeIDs(changes))
    ensures Distinct(ChangeIDs(ListedChanges(changes, includeResolved)))
  {
    var id := (ch: ProjectChange) => ch.id;
    var anchored := Filter(Anchored, changes);
    var open := if includeResolved then anchored else Filter(OpenChange, anchored);
    FilterDistinct(Anchored, id, changes);
    FilterDistinct(OpenChange, id, anchored);
    StableSortPermutes(CompareChanges, open);
    MapPermutes(id, open, ListedChanges(changes, includeResolved));
    DistinctPermutes(ChangeIDs(open), ChangeIDs(ListedChanges(changes, includeResolved)));
  }

  lemma SurfaceMembers(changes: seq<ProjectChange>)
    ensures forall ch | ch in Surface(changes) :: exists raw :: raw in changes && ch == Canonical(raw)
  {
    forall ch | ch in Surface(changes) ensures exists raw :: raw in changes && ch == Canonical(raw) {
      var i :| 0 <= i < |changes| && Surface(changes)[i] == ch;
      assert changes[i] in changes;
    }
  }

  lemma SurfaceIsSourced(fileSignals: seq<Signal>, changes: seq<ProjectChange>)
    requires Sourced(fileSignals, changes)
    ensures Sourced(fileSignals, Surface(changes))
  {
    SurfaceMembers(changes);
    assert ChangeIDs(Surface(changes)) == ChangeIDs(changes);
  }

  /** A built report pairs its project changes with the mirrored signals. */
  lemma BuiltReportsArePaired(r: Report, src: Source)
    requires Built(r, src) && Sourced(src.fileSignals, src.changes)
    ensures Paired(r)
  {
    var surface := Surface(src.changes);
    SurfaceIsSourced(src.fileSignals, src.changes);
    ListedDistinct(surface, src.includeResolved);
    SortingPermutes(Active(Everything(src), src.includeResolved), r.signals);
    forall s ensures multiset(Map(Mirror, r.projectChanges))[s] == multiset(Filter(IsMirror, r.signals))[s] {
      FilterCounts(IsMirror, r.signals, s);
      if IsMirror(s) {
        MirrorCount(src.fileSignals, surface, src.includeResolved, s);
      } else {
        MirrorsListed(src.fileSignals, surface, src.includeResolved, s);
      }
    }
  }

  /** The same changes, each with its nested arrays in some other order. */
  ghost predicate SameChanges(a: seq<ProjectChange>, b: seq<ProjectChange>) {
    |a| == |b| && forall i | 0 <= i < |a| :: a[i] == b[i].(nested := a[i].nested) && FactOrder.SameNested(a[i].nested, b[i].nested)
  }

  /** The order a producer lists locations and references in shows on neither surface. */
  lemma NestedOrderIsInvisible(src: Source, changes: seq<ProjectChange>, r: Report)
    requires SameChanges(src.changes, changes)
    ensures Built(r, src) <==> Built(r, src.(changes := changes))
  {
    forall i | 0 <= i < |changes| ensures Canonical(src.changes[i]) == Canonical(changes[i]) {
      FactOrder.SameNestedSameCanon(src.changes[i].nested, changes[i].nested);
    }
    assert Surface(src.changes) == Surface(changes);
    SameMissingPaths(src.changes, changes);
  }

  lemma {:induction false} SameMissingPaths(a: seq<ProjectChange>, b: seq<ProjectChange>)
    requires SameChanges(a, b)
    ensures MissingPathNotes(a) == MissingPathNotes(b)
  {
    if a != [] {
      var n := |a| - 1;
      assert SameChanges(a[..n], b[..n]);
      SameMissingPaths(a[..n], b[..n]);
      MissingPathStep(a, n);
      MissingPathStep(b, n);
      assert a[n] == b[n].(nested := a[n].nested);
      assert a[..n + 1] == a && b[..n + 1] == b;
    }
  }

  /** Among mirrors of changes with distinct ids, an id belongs to one signal, listed once. */
  lemma OneMirrorPerID(changes: seq<ProjectChange>, s: Signal, t: Signal)
    requires Distinct(ChangeIDs(changes)) && s in Map(Mirror, changes) && t in Map(Mirror, changes) && s.id == t.id
    ensures s == t && multiset(Map(Mirror, changes))[s] == 1
  {
    var i :| 0 <= i < |changes| && Mirror(changes[i]) == s;
    var j :| 0 <= j < |changes| && Mirror(changes[j]) == t;
    assert ChangeIDs(changes)[i] == ChangeIDs(changes)[j];
    forall a, b | 0 <= a < b < |changes| ensures Map(Mirror, changes)[a] != Map(Mirror, changes)[b] {
      assert ChangeIDs(changes)[a] != ChangeIDs(changes)[b];
    }
    OnceEach(Map(Mirror, changes), s);
    assert s in multiset(Map(Mirror, changes));
  }

  lemma FollowedCount(changes: seq<ProjectChange>, kept: seq<Signal>, s: Signal)
    ensures multiset(Map(Mirror, FollowSignals(changes, kept)))[s]
            == if s.id in IDs(kept) then multiset(Map(Mirror, changes))[s] else 0
  {
    var keeps := (x: Signal) => x.id in IDs(kept);
    FilterMap(keeps, KeepsChange(kept), Mirror, changes);
    FilterCounts(keeps, Map(Mirror, changes), s);
  }

  /** A kept mirror is kept as often as it was listed. */
  lemma KeptMirrorCount(changes: seq<ProjectChange>, signals: seq<Signal>, kept: seq<Signal>, s: Signal)
    requires Distinct(ChangeIDs(changes)) && multiset(Map(Mirror, changes)) == multiset(Filter(IsMirror, signals))
    requires multiset(kept) <= multiset(signals) && IsMirror(s) && s in signals && s.id in IDs(kept)
    ensures multiset(kept)[s] == multiset(Map(Mirror, changes))[s]
  {
    var t :| t in kept && t.id == s.id;
    assert t in multiset(kept) && s in multiset(signals);
    FilterCounts(IsMirror, signals, s);
    FilterCounts(IsMirror, signals, t);
    assert t in multiset(Map(Mirror, changes)) && s in multiset(Map(Mirror, changes));
    OneMirrorPerID(changes, s, t);
  }

  /** Following the kept ids keeps a mirror's change exactly when the mirror itself is kept. */
  lemma FollowCount(changes: seq<ProjectChange>, signals: seq<Signal>, kept: seq<Signal>, s: Signal)
    requires Distinct(ChangeIDs(changes)) && multiset(Map(Mirror, changes)) == multiset(Filter(IsMirror, signals))
    requires multiset(kept) <= multiset(signals)
    ensures multiset(Map(Mirror, FollowSignals(changes, kept)))[s] == multiset(Filter(IsMirror, kept))[s]
  {
    FollowedCount(changes, kept, s);
    FilterCounts(IsMirror, kept, s);
    FilterCounts(IsMirror, signals, s);
    assert s in signals <==> s in multiset(signals);
    assert s in kept <==> s in multiset(kept);
    if IsMirror(s) && s in signals && s.id in IDs(kept) { KeptMirrorCount(changes, signals, kept, s); }
  }

  lemma KeptAreRanked(opts: NarrowOptions, ranked: seq<Signal>)
    ensures multiset(Leading(Floored(ranked, opts.minSeverity), opts.top)) <= multiset(ranked)
  {
    var floored := Floored(ranked, opts.minSeverity);
    var kept := Leading(floored, opts.top);
    assert floored == kept + floored[|kept|..];
    forall s ensures multiset(kept)[s] <= multiset(ranked)[s] {
      FilterCounts(AtOrAbove(opts.minSeverity), ranked, s);
    }
  }

  lemma KeptAreListed(r: Report, opts: NarrowOptions, ranked: seq<Signal>)
    requires SortedSignals(r.signals, ranked)
    ensures multiset(ViewOf(r, opts, ranked).signals) <= multiset(r.signals)
  {
    SortingPermutes(r.signals, ranked);
    KeptAreRanked(opts, ranked);
  }

  /** Narrowing keeps the pairing: each kept change has its mirror among the kept signals and each kept mirror its
      change, so a finding is counted once on either surface. */
  lemma NarrowingKeepsPairs(r: Report, opts: NarrowOptions, view: Report)
    requires Paired(r) && Narrowed(r, opts, view)
    ensures Paired(view)
  {
    var ranked :| SortedSignals(r.signals, ranked) && view == ViewOf(r, opts, ranked);
    KeptAreListed(r, opts, ranked);
    FilterDistinct(KeepsChange(view.signals), (ch: ProjectChange) => ch.id, r.projectChanges);
    forall s ensures multiset(Map(Mirror, view.projectChanges))[s] == multiset(Filter(IsMirror, view.signals))[s] {
      FollowCount(r.projectChanges, r.signals, view.signals, s);
    }
  }

  // ----- end to end -----

  /** A file signal is a classified one; marking changed ranges and scopes touches nothing the accounts read. */
  ghost predicate FromFiles(rules: SignalIdentity.Rules, files: seq<SignalIdentity.Change>, s: Signal) {
    exists c, t | c in files && t in SignalIdentity.Classified(rules, c) :: s == t.(changed := s.changed, rest := s.rest)
  }

  lemma FileSignalForm(rules: SignalIdentity.Rules, c: SignalIdentity.Change, t: Signal)
    requires t in SignalIdentity.Classified(rules, c) && c.noBase in {"introduced", "baseline", "unknown"}
    ensures t.lifecycle in LIFECYCLES && !IsMirror(t)
  {
    var i :| 0 <= i < |SignalIdentity.Classified(rules, c)| && SignalIdentity.Classified(rules, c)[i] == t;
    assert t.id[0] == 's';
    var tag := SignalIdentity.VerdictTag(rules, c, t);
  }

  lemma ProjectChangeForm(c: Comparison, i: nat)
    requires c.noBase in {"baseline", "unknown"} && i < |Classified(c)|
    ensures Classified(c)[i].lifecycle in LIFECYCLES && IsMirror(Mirror(Classified(c)[i]))
  {
    var key := Order(c)[i];
    assert Classified(c)[i] == ChangeAt(c, key);
  }

  lemma ProjectChangesDistinct(c: Comparison)
    requires Indexed(c) && Injective(c.hash) && ShortIdentities(c)
    ensures Distinct(ChangeIDs(Classified(c)))
  {
    forall i, j | 0 <= i < j < |Classified(c)| ensures Classified(c)[i].id != Classified(c)[j].id {
      if Classified(c)[i].id == Classified(c)[j].id { ChangeIDsDistinct(c, i, j); }
    }
  }

  lemma ClassificationIsSourced(rules: SignalIdentity.Rules, files: seq<SignalIdentity.Change>, fileSignals: seq<Signal>,
                                c: Comparison)
    requires forall f | f in files :: f.noBase in {"introduced", "baseline", "unknown"}
    requires forall s | s in fileSignals :: FromFiles(rules, files, s)
    requires c.noBase in {"baseline", "unknown"} && Indexed(c) && Injective(c.hash) && ShortIdentities(c)
    ensures Sourced(fileSignals, Classified(c))
    ensures forall s | s in fileSignals :: s.lifecycle in LIFECYCLES
    ensures forall ch | ch in Classified(c) :: ch.lifecycle in LIFECYCLES
  {
    forall s | s in fileSignals ensures s.lifecycle in LIFECYCLES && !IsMirror(s) {
      var f, t :| f in files && t in SignalIdentity.Classified(rules, f) && s == t.(changed := s.changed, rest := s.rest);
      FileSignalForm(rules, f, t);
    }
    forall ch | ch in Classified(c) ensures ch.lifecycle in LIFECYCLES && IsMirror(Mirror(ch)) {
      var i :| 0 <= i < |Classified(c)| && Classified(c)[i] == ch;
      ProjectChangeForm(c, i);
    }
    ProjectChangesDistinct(c);
  }

  /** The source is what classification gives: its file signals come from classified file changes, its project changes
      are the classified comparison. */
  ghost predicate FromClassification(src: Source, rules: SignalIdentity.Rules, fileChanges: seq<SignalIdentity.Change>,
                                     c: Comparison) {
    && (forall f | f in fileChanges :: f.noBase in {"introduced", "baseline", "unknown"})
    && (forall s | s in src.fileSignals :: FromFiles(rules, fileChanges, s))
    && c.noBase in {"baseline", "unknown"} && Indexed(c) && Injective(c.hash) && ShortIdentities(c)
    && src.changes == Classified(c)
  }

  lemma ViewAccounts(src: Source, r: Report, opts: NarrowOptions, view: Report)
    requires Built(r, src) && Narrowed(r, opts, view) && Refusal(Some(r), opts).None? && opts != NarrowOptions("", 0)
    requires forall s | s in src.fileSignals :: s.lifecycle in LIFECYCLES
    requires forall ch | ch in src.changes :: ch.lifecycle in LIFECYCLES
    ensures view.withheld.Some?
    ensures |src.fileSignals| + |Filter(Anchored, src.changes)|
            == (if src.includeResolved then 0 else r.summary.tallies.resolved)
               + view.withheld.value.belowMinSeverity + view.withheld.value.beyondTop + |view.signals|
    ensures Total(view.summary.tallies) == |src.fileSignals| + |Filter(Anchored, src.changes)|
  {
    SummaryAccounts(r, src);
    NarrowingConserves(r, opts, view);
  }

  /** From classification to the narrowed view, every classified signal and every anchored change is accounted for once:
      in one lifecycle counter, and then either resolved and left out, below the floor, beyond the cap, or kept; and the
      kept changes are those of the kept mirrors. */
  lemma EverySignalAccountedFor(src: Source, rules: SignalIdentity.Rules, fileChanges: seq<SignalIdentity.Change>,
                                c: Comparison, r: Report, opts: NarrowOptions, view: Report)
    requires FromClassification(src, rules, fileChanges, c) && Built(r, src)
    requires Refusal(Some(r), opts).None? && opts != NarrowOptions("", 0) && Narrowed(r, opts, view)
    ensures view.withheld.Some?
    ensures |src.fileSignals| + |Filter(Anchored, src.changes)|
            == (if src.includeResolved then 0 else r.summary.tallies.resolved)
               + view.withheld.value.belowMinSeverity + view.withheld.value.beyondTop + |view.signals|
    ensures Total(view.summary.tallies) == |src.fileSignals| + |Filter(Anchored, src.changes)|
    ensures Paired(view)
  {
    ClassificationIsSourced(rules, fileChanges, src.fileSignals, c);
    ViewAccounts(src, r, opts, view);
    BuiltReportsArePaired(r, src);
    NarrowingKeepsPairs(r, opts, view);
  }
}
