/** What a report and its views show, in words of signals, changes and diagnostics themselves
    (pkg/codesignal/codesignal.go, signal_summary.go, signal_view.go, project_report_surface.go, project_order.go,
    diagnostics.go, changed_ranges.go). */
module ReportMeaning {
  import FactOrder
  import opened FileChanges
  import opened Filtering
  import opened Options
  import opened Ordering
  import opened Priority
  import opened ProjectLifecycle
  import opened Ranking
  import opened ReportAccounting
  import opened ReportDiagnostics
  import SignalIdentity
  import opened Signals

  // ----- counters -----

  function WithLifecycle(l: string): Signal -> bool {
    (s: Signal) => s.lifecycle == l
  }

  lemma {:induction false} Tallied(signals: seq<Signal>, l: string)
    ensures multiset(Lifecycles(signals))[l] == |Filter(WithLifecycle(l), signals)|
  {
    if signals != [] {
      var before, last := signals[..|signals| - 1], signals[|signals| - 1];
      Tallied(before, l);
      assert signals == before + [last];
      OneMoreLifecycle(before, last);
      FilterSnoc(WithLifecycle(l), before, last);
    }
  }

  /** Each counter is the number of signals with that lifecycle, resolved ones included even when they are left out. */
  lemma CountersMean(r: Report, src: Source)
    requires Built(r, src)
    ensures var t, all := r.summary.tallies, Everything(src);
      && t.introduced == |Filter(WithLifecycle("introduced"), all)| && t.existing == |Filter(WithLifecycle("existing"), all)|
      && t.resolved == |Filter(WithLifecycle("resolved"), all)| && t.baseline == |Filter(WithLifecycle("baseline"), all)|
      && t.unknown == |Filter(WithLifecycle("unknown"), all)|
    ensures var p, mirrors := r.projectSummary, Map(Mirror, Filter(Anchored, Surface(src.changes)));
      && p.introduced == |Filter(WithLifecycle("introduced"), mirrors)| && p.existing == |Filter(WithLifecycle("existing"), mirrors)|
      && p.resolved == |Filter(WithLifecycle("resolved"), mirrors)| && p.baseline == |Filter(WithLifecycle("baseline"), mirrors)|
    ensures r.summary.active == |r.signals| && r.projectSummary.active == |r.projectChanges|
  {
    var all, mirrors := Everything(src), Map(Mirror, Filter(Anchored, Surface(src.changes)));
    Tallied(all, "introduced"); Tallied(all, "existing"); Tallied(all, "resolved"); Tallied(all, "baseline"); Tallied(all, "unknown");
    Tallied(mirrors, "introduced"); Tallied(mirrors, "existing"); Tallied(mirrors, "resolved"); Tallied(mirrors, "baseline");
  }

  // ----- what is listed -----

  /** A change's signal: its identity, rule, severity, confidence and lifecycle, at its anchor, about its key. */
  predicate IsSignalOf(s: Signal, ch: ProjectChange) {
    && s.id == ch.id && s.fingerprint == ch.fingerprint && s.ruleID == ch.ruleID && s.severity == ch.severity
    && s.confidence == ch.confidence && s.lifecycle == ch.lifecycle && s.changed == ch.changed
    && s.path == ch.anchor.path && s.startRow == ch.anchor.startRow && s.startCol == ch.anchor.startCol
    && s.startByte == ch.anchor.startByte && s.subject == ch.semanticKey && s.evidence == ch.evidence && s.nested == ch.nested
  }

  /** Every listed change has its signal among the listed ones. */
  lemma ListedChangeHasItsSignal(r: Report, ch: ProjectChange)
    requires Paired(r) && ch in r.projectChanges
    ensures exists s | s in r.signals :: IsSignalOf(s, ch)
  {
    var i :| 0 <= i < |r.projectChanges| && r.projectChanges[i] == ch;
    var s := Map(Mirror, r.projectChanges)[i];
    assert s in multiset(Map(Mirror, r.projectChanges)) && s in multiset(Filter(IsMirror, r.signals));
    assert s in Filter(IsMirror, r.signals);
    assert IsSignalOf(s, ch);
  }

  /** The changes that are listed: those with an anchor path, resolved ones only on request, with their arrays sorted. */
  lemma ListedExactly(changes: seq<ProjectChange>, includeResolved: bool, ch: ProjectChange)
    ensures ch in ListedChanges(Surface(changes), includeResolved) <==>
            exists raw | raw in changes ::
              raw.anchor.path != "" && (includeResolved || raw.lifecycle != "resolved")
              && ch == raw.(nested := FactOrder.CanonicalNested(raw.nested))
  {
    var anchored := Filter(Anchored, Surface(changes));
    var open := if includeResolved then anchored else Filter(OpenChange, anchored);
    StableSortPermutes(CompareChanges, open);
    assert ch in StableSort(CompareChanges, open) <==> ch in multiset(StableSort(CompareChanges, open));
    assert ch in open <==> ch in multiset(open);
    FilterCounts(Anchored, Surface(changes), ch);
    FilterCounts(OpenChange, anchored, ch);
    SurfaceMembers(changes);
    if raw :| raw in changes && ch == Canonical(raw) {
      var i :| 0 <= i < |changes| && changes[i] == raw;
      assert Surface(changes)[i] == ch;
    }
  }

  /** The signals that are listed: all that were classified or mirrored, resolved ones only on request. */
  lemma SignalsListed(r: Report, src: Source, s: Signal)
    requires Built(r, src)
    ensures multiset(r.signals)[s] == if src.includeResolved || s.lifecycle != "resolved" then multiset(Everything(src))[s] else 0
  {
    SortingPermutes(Active(Everything(src), src.includeResolved), r.signals);
    FilterCounts(OpenSignal, Everything(src), s);
  }

  /** Listed changes come by semantic key, then by rule. */
  lemma ChangesInOrder(changes: seq<ProjectChange>, includeResolved: bool, i: nat, j: nat)
    requires i < j < |ListedChanges(Surface(changes), includeResolved)|
    ensures var a, b := ListedChanges(Surface(changes), includeResolved)[i], ListedChanges(Surface(changes), includeResolved)[j];
            TextLess(a.semanticKey, b.semanticKey) || (a.semanticKey == b.semanticKey && TextAtMost(a.ruleID, b.ruleID))
  {
    var anchored := Filter(Anchored, Surface(changes));
    var open := if includeResolved then anchored else Filter(OpenChange, anchored);
    ChangeLaws();
    StableSortAscending(CompareChanges, open);
    ChangeOrderMeans(StableSort(CompareChanges, open)[i], StableSort(CompareChanges, open)[j]);
  }

  lemma ChangeOrderMeans(a: ProjectChange, b: ProjectChange)
    ensures CompareChanges(a, b) <= 0 <==>
            TextLess(a.semanticKey, b.semanticKey) || (a.semanticKey == b.semanticKey && TextAtMost(a.ruleID, b.ruleID))
  {
    var cs := [CompareText(a.semanticKey, b.semanticKey), CompareText(a.ruleID, b.ruleID)];
    assert cs[0..] == cs && cs[2..] == [];
    OrTail(cs, 0); OrTail(cs, 1);
    TextLessExactly(a.semanticKey, b.semanticKey); TextDecides(a.semanticKey, b.semanticKey);
    TextAtMostExactly(a.ruleID, b.ruleID);
  }

  lemma ChangeLaws()
    ensures Lawful(CompareChanges)
  {
    forall a: ProjectChange, b: ProjectChange ensures Mirrors(CompareChanges(a, b), CompareChanges(b, a)) {
      TextMirrors(a.semanticKey, b.semanticKey); TextMirrors(a.ruleID, b.ruleID);
      OrMirrors([CompareText(a.semanticKey, b.semanticKey), CompareText(a.ruleID, b.ruleID)],
                [CompareText(b.semanticKey, a.semanticKey), CompareText(b.ruleID, a.ruleID)]);
    }
    forall a: ProjectChange, b: ProjectChange, c: ProjectChange
      ensures Chains(CompareChanges(a, b), CompareChanges(b, c), CompareChanges(a, c)) {
      TextChains(a.semanticKey, b.semanticKey, c.semanticKey); TextChains(a.ruleID, b.ruleID, c.ruleID);
      OrChains([CompareText(a.semanticKey, b.semanticKey), CompareText(a.ruleID, b.ruleID)],
               [CompareText(b.semanticKey, c.semanticKey), CompareText(b.ruleID, c.ruleID)],
               [CompareText(a.semanticKey, c.semanticKey), CompareText(a.ruleID, c.ruleID)]);
    }
  }

  /** By path, then kind, then location (none first), then message. */
  predicate NotedBefore(a: ReportDiagnostics.Diagnostic, b: ReportDiagnostics.Diagnostic) {
    || TextLess(a.path, b.path)
    || (a.path == b.path
        && (|| TextLess(a.kind, b.kind)
            || (a.kind == b.kind
                && (|| (a.location.None? && b.location.Some?)
                    || (a.location.Some? && b.location.Some? && LocatedEarlier(a.location.value, b.location.value))
                    || (a.location == b.location && TextAtMost(a.message, b.message))))))
  }

  /** By start row and column, end row and column, start and end byte. */
  predicate LocatedEarlier(a: FactOrder.Location, b: FactOrder.Location) {
    || a.startRow < b.startRow
    || (a.startRow == b.startRow
        && (|| a.startCol < b.startCol
            || (a.startCol == b.startCol
                && (|| a.endRow < b.endRow
                    || (a.endRow == b.endRow
                        && (|| a.endCol < b.endCol
                            || (a.endCol == b.endCol
                                && (a.startByte < b.startByte || (a.startByte == b.startByte && a.endByte < b.endByte)))))))))
  }

  lemma LocationMeans(a: FactOrder.Location, b: FactOrder.Location)
    ensures Or(FactOrder.LocationParts(a, b)) < 0 <==> LocatedEarlier(a, b)
  {
    var cs := FactOrder.LocationParts(a, b);
    assert cs[0..] == cs && cs[6..] == [];
    OrTail(cs, 0); OrTail(cs, 1); OrTail(cs, 2); OrTail(cs, 3); OrTail(cs, 4); OrTail(cs, 5);
  }

  lemma NoteOrderMeans(a: ReportDiagnostics.Diagnostic, b: ReportDiagnostics.Diagnostic)
    requires CompareDiagnostics(a, b) <= 0
    ensures NotedBefore(a, b)
  {
    var cs := DiagnosticParts(a, b);
    assert cs[0..] == cs && cs[4..] == [];
    OrTail(cs, 0); OrTail(cs, 1); OrTail(cs, 2); OrTail(cs, 3);
    TextLessExactly(a.path, b.path); TextDecides(a.path, b.path);
    TextLessExactly(a.kind, b.kind); TextDecides(a.kind, b.kind);
    PtrDecides(a.location, b.location);
    if a.location.Some? && b.location.Some? { LocationMeans(a.location.value, b.location.value); }
    TextAtMostExactly(a.message, b.message);
  }

  /** The diagnostics of a report, in their order. */
  lemma DiagnosticsInOrder(r: Report, src: Source, i: nat, j: nat)
    requires Built(r, src) && i < j < |r.diagnostics|
    ensures multiset(r.diagnostics) == multiset(AllDiagnostics(src)) && NotedBefore(r.diagnostics[i], r.diagnostics[j])
  {
    DiagnosticLaws();
    StableSortPermutes(CompareDiagnostics, AllDiagnostics(src));
    StableSortAscending(CompareDiagnostics, AllDiagnostics(src));
    NoteOrderMeans(r.diagnostics[i], r.diagnostics[j]);
  }

  lemma PrefixedIs(kind: string, k: string)
    ensures BASE_PREFIX <= kind && kind[|BASE_PREFIX|..] == k <==> kind == "base_" + k
  {
    if BASE_PREFIX <= kind { assert kind == BASE_PREFIX + kind[|BASE_PREFIX|..]; }
    if kind == "base_" + k { assert kind[|BASE_PREFIX|..] == k; }
  }

  /** The kinds about import edges, on either side: a file with only such diagnostics is not counted as unanalysed. */
  lemma EdgeKindsAre(kind: string)
    ensures IsProjectEdgeKind(kind) <==>
              exists k | k in ["project_import_unresolved", "project_import_non_literal", "project_external_imports_not_evaluated"] ::
                kind == k || kind == "base_" + k
  {
    var kinds := ["project_import_unresolved", "project_import_non_literal", "project_external_imports_not_evaluated"];
    forall k ensures k in EDGE_KINDS <==> k in kinds {}
    forall k ensures BASE_PREFIX <= kind && kind[|BASE_PREFIX|..] == k <==> kind == "base_" + k { PrefixedIs(kind, k); }
  }

  // ----- views -----

  /** Which refusal comes first. */
  lemma RefusalMeans(r: Option<Report>, opts: NarrowOptions)
    ensures Refusal(r, opts) == Some(NilReport) <==> r.None?
    ensures Refusal(r, opts) == Some(AlreadyNarrowed) <==> r.Some? && r.value.withheld.Some?
    ensures Refusal(r, opts) == Some(NegativeTop) <==> r.Some? && r.value.withheld.None? && opts.top < 0
    ensures Refusal(r, opts) == Some(UnknownSeverityFloor) <==>
              && r.Some? && r.value.withheld.None? && opts.top >= 0
              && opts.minSeverity !in {"", "low", "advisory", "medium", "high"}
  {
    assert SEVERITY_ORDER[0] == "low" && SEVERITY_ORDER[1] == "advisory" && SEVERITY_ORDER[2] == "medium" && SEVERITY_ORDER[3] == "high";
  }

  function Reaches(floor: string): Signal -> bool {
    (s: Signal) => !MoreSevere(floor, s.severity)
  }

  /** How many signals are not below the floor. */
  function Eligible(r: Report, floor: string): nat {
    if floor == "" then |r.signals| else |Filter(Reaches(floor), r.signals)|
  }

  lemma FlooredCount(r: Report, floor: string, ranked: seq<Signal>)
    requires multiset(ranked) == multiset(r.signals)
    ensures |Floored(ranked, floor)| == Eligible(r, floor) && |ranked| == |r.signals|
  {
    SameLength(r.signals, ranked);
    if floor != "" {
      forall s: Signal ensures AtOrAbove(floor)(s) == Reaches(floor)(s) { MoreSevereIs(floor, s.severity); }
      SameFilter(AtOrAbove(floor), Reaches(floor), r.signals);
      FilterPermutes(AtOrAbove(floor), r.signals, ranked);
    }
  }

  /** Of `total` signals `n` are eligible: the others are below the floor, and beyond the cap is what is left of the
      eligible ones after the first `top`. */
  predicate Accounts(view: Report, opts: NarrowOptions, total: int, n: int) {
    && |view.signals| == (if 0 < opts.top < n then opts.top else n)
    && view.withheld == Some(Withheld(opts.minSeverity, total - n, opts.top, if 0 < opts.top < n then n - opts.top else 0))
  }

  lemma ViewCounts(r: Report, opts: NarrowOptions, ranked: seq<Signal>)
    requires opts.top >= 0
    ensures Accounts(ViewOf(r, opts, ranked), opts, |ranked|, |Floored(ranked, opts.minSeverity)|)
  {
  }

  /** How many signals a view shows and withholds. */
  lemma WithheldMeans(r: Report, opts: NarrowOptions, view: Report)
    requires Narrowed(r, opts, view) && opts.top >= 0
    ensures Accounts(view, opts, |r.signals|, Eligible(r, opts.minSeverity))
  {
    var ranked := RankedBehind(r, opts, view);
    FlooredCount(r, opts.minSeverity, ranked);
    ViewCounts(r, opts, ranked);
  }

  lemma RankedBehind(r: Report, opts: NarrowOptions, view: Report) returns (ranked: seq<Signal>)
    requires Narrowed(r, opts, view)
    ensures multiset(ranked) == multiset(r.signals) && view == ViewOf(r, opts, ranked)
  {
    ranked :| SortedSignals(r.signals, ranked) && view == ViewOf(r, opts, ranked);
    SortingPermutes(r.signals, ranked);
  }

  // ----- files -----

  /** Some row is both the signal's and the range's. */
  ghost predicate ShareARow(startRow: nat, endRow: nat, range: LineRange) {
    exists row: nat :: RowOf(startRow, endRow, row) && RowOf(range.startRow, range.endRow, row)
  }

  predicate RowOf(first: nat, last: nat, row: nat) {
    first <= row <= last
  }

  lemma OverlapMeans(startRow: nat, endRow: nat, range: LineRange)
    requires startRow <= endRow && Valid(range)
    ensures Overlaps(startRow, endRow, range) <==> ShareARow(startRow, endRow, range)
  {
    if Overlaps(startRow, endRow, range) {
      var row := if startRow < range.startRow then range.startRow else startRow;
      assert RowOf(startRow, endRow, row) && RowOf(range.startRow, range.endRow, row);
    }
  }

  /** A signal is marked changed exactly when it is not resolved and shares a row with a range whose rows are in order. */
  lemma ChangedMeans(fields: Fields, fc: FileChange, s: Signal)
    requires s.startRow <= fields.endRow(s.rest)
    ensures Marked(fields, fc)(s).changed <==>
      && s.lifecycle != "resolved"
      && exists range | range in fc.changedRanges :: range.startRow <= range.endRow && ShareARow(s.startRow, fields.endRow(s.rest), range)
  {
    forall range: LineRange ensures range in Filter(Valid, fc.changedRanges) <==> range in fc.changedRanges && Valid(range) {
      FilterCounts(Valid, fc.changedRanges, range);
    }
    forall range | range in fc.changedRanges && Valid(range)
      ensures Overlaps(s.startRow, fields.endRow(s.rest), range) <==> ShareARow(s.startRow, fields.endRow(s.rest), range) {
      OverlapMeans(s.startRow, fields.endRow(s.rest), range);
    }
  }

  lemma WithoutBase(r: SignalIdentity.Rules, c: SignalIdentity.Change, i: nat)
    requires !c.hasBase && c.base == [] && i < |SignalIdentity.Classified(r, c)|
    ensures SignalIdentity.Classified(r, c)[i].lifecycle == c.noBase
  {
    SignalIdentity.EmissionTag(r, c, i);
    var key := SignalIdentity.TagOf(r, SignalIdentity.Emissions(r, c)[i]).key;
    assert SignalIdentity.Count(r, c.base, key) == 0;
  }

  lemma MarkedFrom(r: SignalIdentity.Rules, fields: Fields, noBase: string, fc: FileChange, s: Signal) returns (i: nat)
    requires s in SignalsOf(r, fields, noBase)(fc)
    ensures FileChanges.Eligible(fc)
    ensures i < |SignalIdentity.Classified(r, Sides(fc, noBase))|
    ensures s.lifecycle == SignalIdentity.Classified(r, Sides(fc, noBase))[i].lifecycle
  {
    i := InMap(Marked(fields, fc), SignalIdentity.Classified(r, Sides(fc, noBase)), s);
  }

  /** Only a file whose head parsed, or a removed one, has signals; without a usable base they are introduced in an added
      file of a comparison, and otherwise have the report's lifecycle for that. */
  lemma FileLifecycles(r: SignalIdentity.Rules, fields: Fields, noBase: string, fc: FileChange, s: Signal)
    requires s in SignalsOf(r, fields, noBase)(fc)
    ensures if fc.head.Some? then fc.head.value.parseStatus == "ok" else fc.status == "removed"
    ensures fc.base.None? || (fc.base.value.path != "" && fc.base.value.path != fc.path) ==>
              s.lifecycle == if fc.status == "added" && noBase != "baseline" then "introduced" else noBase
  {
    var i := MarkedFrom(r, fields, noBase, fc, s);
    if !BaseUsable(fc) { WithoutBase(r, Sides(fc, noBase), i); }
  }

  /** What the head result of a file raises: nothing if it parsed or none was due, one note if a due one is missing or its
      parse status is unknown, and one per syntax issue otherwise. */
  lemma HeadNotesMean(fc: FileChange)
    ensures fc.head.None? ==>
      if fc.status == "modified" || fc.status == "added" then |HeadNotes(fc)| == 1 && HeadNotes(fc)[0].kind == "missing_head_result"
      else HeadNotes(fc) == []
    ensures fc.head.Some? ==>
      var head := fc.head.value;
      && (head.parseStatus == "ok" ==> HeadNotes(fc) == [])
      && (head.parseStatus == "syntax_errors" ==>
            && |HeadNotes(fc)| == |head.syntaxErrors|
            && forall i | 0 <= i < |head.syntaxErrors| ::
                 HeadNotes(fc)[i].kind == "syntax_errors" && HeadNotes(fc)[i].location == Some(head.syntaxErrors[i].location))
      && (head.parseStatus != "ok" && head.parseStatus != "syntax_errors" ==>
            |HeadNotes(fc)| == 1 && HeadNotes(fc)[0].kind == "unsupported_parse_status")
  {
  }

  /** A result of another path is noted, on either side, and every range whose rows are out of order is. */
  lemma OtherNotesMean(fc: FileChange)
    ensures |ValidateFileChange(fc)| == (if fc.base.Some? && fc.base.value.path != "" && fc.base.value.path != fc.path then 1 else 0)
                                      + (if fc.head.Some? && fc.head.value.path != "" && fc.head.value.path != fc.path then 1 else 0)
    ensures |RangeNotes(fc.path, fc.changedRanges)| == |Filter((range: LineRange) => range.startRow > range.endRow, fc.changedRanges)|
  {
    SameFilter(Invalid, (range: LineRange) => range.startRow > range.endRow, fc.changedRanges);
  }
}
