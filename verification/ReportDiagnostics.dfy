/** The diagnostics of a report: their order, and the file counters made from them (pkg/codesignal/diagnostics.go,
    location_compare.go, signal_summary.go). */
module ReportDiagnostics {
  import opened FactOrder
  import opened Filtering
  import opened Options
  import opened Ordering

  datatype Diagnostic = Diagnostic(path: string, kind: string, message: string, location: Option<Location>, side: string,
                                   revision: string)

  /** A diagnostic of the file pipeline belongs to no side. */
  function FileNote(path: string, kind: string, message: string, location: Option<Location>): Diagnostic {
    Diagnostic(path, kind, message, location, "", "")
  }

  // ----- order -----

  /** A missing location comes first. */
  function CompareLocationPtr(a: Option<Location>, b: Option<Location>): int {
    match (a, b)
    case (None, None) => 0
    case (None, Some(_)) => -1
    case (Some(_), None) => 1
    case (Some(x), Some(y)) => Or(LocationParts(x, y))
  }

  function DiagnosticParts(a: Diagnostic, b: Diagnostic): seq<int> {
    [CompareText(a.path, b.path), CompareText(a.kind, b.kind), CompareLocationPtr(a.location, b.location),
     CompareText(a.message, b.message)]
  }

  /** Side and revision are left out. */
  function CompareDiagnostics(a: Diagnostic, b: Diagnostic): int {
    Or(DiagnosticParts(a, b))
  }

  function SortDiagnostics(diagnostics: seq<Diagnostic>): seq<Diagnostic> {
    StableSort(CompareDiagnostics, diagnostics)
  }

  lemma PtrMirrors(a: Option<Location>, b: Option<Location>)
    ensures Mirrors(CompareLocationPtr(a, b), CompareLocationPtr(b, a))
  {
    if a.Some? && b.Some? { OrMirrors(LocationParts(a.value, b.value), LocationParts(b.value, a.value)); }
  }

  lemma PtrChains(a: Option<Location>, b: Option<Location>, c: Option<Location>)
    ensures Chains(CompareLocationPtr(a, b), CompareLocationPtr(b, c), CompareLocationPtr(a, c))
  {
    if a.Some? && b.Some? && c.Some? {
      OrChains(LocationParts(a.value, b.value), LocationParts(b.value, c.value), LocationParts(a.value, c.value));
    }
  }

  lemma PtrDecides(a: Option<Location>, b: Option<Location>)
    ensures CompareLocationPtr(a, b) == 0 <==> a == b
  {
    if a.Some? && b.Some? {
      var cs := LocationParts(a.value, b.value);
      OrZero(cs);
      if Or(cs) == 0 { assert cs[0] == 0 && cs[1] == 0 && cs[2] == 0 && cs[3] == 0 && cs[4] == 0 && cs[5] == 0; }
    }
  }

  lemma Decides(a: Diagnostic, b: Diagnostic)
    ensures CompareDiagnostics(a, b) == 0 <==> a == b.(side := a.side, revision := a.revision)
  {
    TextDecides(a.path, b.path);
    TextDecides(a.kind, b.kind);
    PtrDecides(a.location, b.location);
    TextDecides(a.message, b.message);
    var cs := DiagnosticParts(a, b);
    OrZero(cs);
    if CompareDiagnostics(a, b) == 0 { assert cs[0] == 0 && cs[1] == 0 && cs[2] == 0 && cs[3] == 0; }
  }

  /** A total preorder whose ties are exactly the diagnostics that differ in nothing but side and revision. */
  lemma DiagnosticLaws()
    ensures Lawful(CompareDiagnostics)
    ensures forall a, b :: CompareDiagnostics(a, b) == 0 <==> a == b.(side := a.side, revision := a.revision)
  {
    forall a, b ensures Mirrors(CompareDiagnostics(a, b), CompareDiagnostics(b, a)) {
      TextMirrors(a.path, b.path);
      TextMirrors(a.kind, b.kind);
      PtrMirrors(a.location, b.location);
      TextMirrors(a.message, b.message);
      OrMirrors(DiagnosticParts(a, b), DiagnosticParts(b, a));
    }
    forall a, b, c ensures Chains(CompareDiagnostics(a, b), CompareDiagnostics(b, c), CompareDiagnostics(a, c)) {
      TextChains(a.path, b.path, c.path);
      TextChains(a.kind, b.kind, c.kind);
      PtrChains(a.location, b.location, c.location);
      TextChains(a.message, b.message, c.message);
      OrChains(DiagnosticParts(a, b), DiagnosticParts(b, c), DiagnosticParts(a, c));
    }
    forall a, b ensures CompareDiagnostics(a, b) == 0 <==> a == b.(side := a.side, revision := a.revision) { Decides(a, b); }
  }

  /** Two diagnostics that differ, but only in side or revision. */
  predicate Twins(a: Diagnostic, b: Diagnostic) {
    a != b && a == b.(side := a.side, revision := a.revision)
  }

  ghost predicate NoTwins(diagnostics: seq<Diagnostic>) {
    forall a, b | a in diagnostics && b in diagnostics :: !Twins(a, b)
  }

  /** The order the diagnostics came in is invisible exactly when no two differ in side or revision alone. */
  lemma OrderFreeExactlyWhen(diagnostics: seq<Diagnostic>)
    ensures OrderFree(CompareDiagnostics, diagnostics) <==> NoTwins(diagnostics)
  {
    DiagnosticLaws();
    SortOrderFreeExactlyWhen(CompareDiagnostics, diagnostics);
    NoTwinsIsDecisive(diagnostics);
  }

  lemma NoTwinsIsDecisive(diagnostics: seq<Diagnostic>)
    ensures DecisiveOn(CompareDiagnostics, multiset(diagnostics)) <==> NoTwins(diagnostics)
  {
    forall a, b | a in diagnostics && b in diagnostics ensures Twins(a, b) <==> a != b && CompareDiagnostics(a, b) == 0 {
      Decides(a, b);
    }
    forall a ensures a in diagnostics <==> a in multiset(diagnostics) {}
  }

  // ----- file counters -----

  const EDGE_KINDS := {"project_import_unresolved", "project_import_non_literal", "project_external_imports_not_evaluated"}
  const BASE_PREFIX := "base_"

  /** The kinds that are about import edges, on either side of a comparison. */
  predicate IsProjectEdgeKind(kind: string) {
    kind in EDGE_KINDS || (BASE_PREFIX <= kind && kind[|BASE_PREFIX|..] in EDGE_KINDS)
  }

  predicate NotAboutEdge(d: Diagnostic) {
    !IsProjectEdgeKind(d.kind)
  }

  datatype FileCounts = FileCounts(analyzed: nat, withDiagnostics: nat, unanalyzed: nat)

  ghost function DistinctPaths(diagnostics: seq<Diagnostic>): set<string> {
    set d | d in diagnostics && d.path != "" :: d.path
  }

  function NotAboutEdges(diagnostics: seq<Diagnostic>): seq<Diagnostic> {
    Filter(NotAboutEdge, diagnostics)
  }

  /** Files with a diagnostic, and paths that some diagnostic not about edges names but no file has. */
  ghost function FileCountsOf(files: seq<string>, diagnostics: seq<Diagnostic>): FileCounts {
    FileCounts(|files|, |DistinctPaths(diagnostics)|, |set p | p in DistinctPaths(NotAboutEdges(diagnostics)) && p !in files|)
  }

  method DistinctDiagnosticPaths(diagnostics: seq<Diagnostic>) returns (paths: set<string>)
    ensures paths == DistinctPaths(diagnostics)
  {
    paths := {};
    for i := 0 to |diagnostics|
      invariant paths == DistinctPaths(diagnostics[..i])
    {
      assert diagnostics[..i + 1] == diagnostics[..i] + [diagnostics[i]];
      if diagnostics[i].path != "" { paths := paths + {diagnostics[i].path}; }
    }
    assert diagnostics[..|diagnostics|] == diagnostics;
  }

  method CountUnanalyzedFiles(files: seq<string>, diagnostics: seq<Diagnostic>) returns (count: nat)
    ensures count == FileCountsOf(files, diagnostics).unanalyzed
  {
    var rest := DistinctDiagnosticPaths(NotAboutEdges(diagnostics));
    ghost var all := rest;
    ghost var found: set<string> := {};
    count := 0;
    while rest != {}
      invariant rest <= all && found == (set p | p in all && p !in rest && p !in files) && count == |found|
    {
      var p :| p in rest;
      rest := rest - {p};
      if p !in files {
        count := count + 1;
        found := found + {p};
      }
    }
    assert found == set p | p in all && p !in files;
  }

  /** A file that was handed in is never counted as unanalysed, and no path is counted there that has no diagnostic. */
  lemma UnanalyzedHaveDiagnostics(files: seq<string>, diagnostics: seq<Diagnostic>)
    ensures var c := FileCountsOf(files, diagnostics);
            && c.unanalyzed <= c.withDiagnostics
            && (c.unanalyzed == 0 <==> forall d | d in diagnostics && NotAboutEdge(d) && d.path != "" :: d.path in files)
  {
    var all, some := DistinctPaths(diagnostics), set p | p in DistinctPaths(NotAboutEdges(diagnostics)) && p !in files;
    forall d ensures d in NotAboutEdges(diagnostics) <==> d in diagnostics && NotAboutEdge(d) {
      FilterCounts(NotAboutEdge, diagnostics, d);
    }
    SubsetSize(some, all);
    if some == {} {
      forall d | d in diagnostics && NotAboutEdge(d) && d.path != "" ensures d.path in files {
        assert d in NotAboutEdges(diagnostics) && d.path in DistinctPaths(NotAboutEdges(diagnostics));
        assert d.path !in some;
      }
    } else {
      var p :| p in some;
    }
  }

  lemma SubsetSize(a: set<string>, b: set<string>)
    requires a <= b
    ensures |a| <= |b| && (a == {} <==> |a| == 0)
  {
    assert b == a + (b - a);
  }
}
