/** A report from the changed files on: distinct ids over all of it, and nothing in it or in its views shows the order of
    the files (pkg/codesignal/codesignal.go, file_change.go). */
module ReportIdentity {
  import FactOrder
  import opened FieldEncoding
  import opened FileChanges
  import opened Filtering
  import Grouping
  import opened Ordering
  import ProjectLifecycle
  import opened Ranking
  import RankingOrder
  import opened ReportAccounting
  import opened ReportDiagnostics
  import opened SignalIdentity
  import opened Signals

  /** What a build is handed; the project changes are already classified. */
  datatype Input = Input(files: seq<FileChange>, seed: seq<Diagnostic>, noBase: string, projectDiagnostics: seq<Diagnostic>,
                         changes: seq<ProjectLifecycle.ProjectChange>, facts: seq<FactOrder.Fact>, includeResolved: bool)

  function PathOf(fc: FileChange): string {
    fc.path
  }

  ghost function SourceOf(r: Rules, fields: Fields, input: Input): Source {
    Source(Map(PathOf, input.files), input.seed + FileNotes(input.files), FileSignals(r, fields, input.noBase, input.files),
           input.projectDiagnostics, input.changes, input.facts, input.includeResolved)
  }

  function LifecycleWithoutBase(baseline: bool): string {
    if baseline then "baseline" else "unknown"
  }

  method BuildReport(r: Rules, fields: Fields, files: seq<FileChange>, seed: seq<Diagnostic>, baseline: bool,
                     projectDiagnostics: seq<Diagnostic>, changes: array<ProjectLifecycle.ProjectChange>,
                     facts: seq<FactOrder.Fact>, includeResolved: bool)
    returns (rep: Report)
    modifies changes
    ensures Built(rep, SourceOf(r, fields, Input(files, seed, LifecycleWithoutBase(baseline), projectDiagnostics,
                                                 old(changes[..]), facts, includeResolved)))
  {
    var diagnostics, signals := ProcessFileChanges(r, fields, files, seed, LifecycleWithoutBase(baseline));
    rep := Build(Map(PathOf, files), diagnostics, signals, projectDiagnostics, changes, facts, includeResolved);
  }

  // ----- files and keys -----

  /** Some signal of the file change, on either side, has the key. */
  predicate Has(r: Rules, noBase: string, fc: FileChange, key: Key) {
    var c := Sides(fc, noBase);
    Eligible(fc) && (SignalIdentity.Count(r, c.head, key) > 0 || SignalIdentity.Count(r, c.base, key) > 0)
  }

  /** No two file changes have a key in common. */
  ghost predicate NoSharedKey(r: Rules, noBase: string, files: seq<FileChange>) {
    forall i, j, key | 0 <= i < j < |files| :: !(Has(r, noBase, files[i], key) && Has(r, noBase, files[j], key))
  }

  ghost predicate AllShort(r: Rules, noBase: string, fc: FileChange) {
    forall e | e in Emissions(r, Sides(fc, noBase)) :: ShortFields(r, e)
  }

  lemma KeyNamesPath(r: Rules, path: string, signals: seq<Signal>, key: Key)
    requires SignalIdentity.Count(r, Map(On(path), signals), key) > 0
    ensures key.path == r.path(path)
  {
    var group := Grouping.Group(Map(On(path), signals), Mark(r), key);
    assert group[0] in group;
    Grouping.GroupMembers(Map(On(path), signals), Mark(r), key, group[0]);
    var i :| 0 <= i < |signals| && Map(On(path), signals)[i] == group[0];
  }

  lemma FileHasItsPath(r: Rules, noBase: string, fc: FileChange, key: Key)
    requires Has(r, noBase, fc, key)
    ensures key.path == r.path(fc.path)
  {
    var c := Sides(fc, noBase);
    var head := if Parsed(fc.head) then fc.head.value.signals else [];
    var base := if BaseUsable(fc) && Parsed(fc.base) then fc.base.value.signals else [];
    assert c.head == Map(On(fc.path), head) && c.base == Map(On(fc.path), base);
    if SignalIdentity.Count(r, c.head, key) > 0 {
      KeyNamesPath(r, fc.path, head, key);
    } else {
      KeyNamesPath(r, fc.path, base, key);
    }
  }

  /** Files with different normalised paths share no key. */
  lemma DifferentPathsShareNoKey(r: Rules, noBase: string, files: seq<FileChange>)
    requires Distinct(Map((fc: FileChange) => r.path(fc.path), files))
    ensures NoSharedKey(r, noBase, files)
  {
    forall i, j, key | 0 <= i < j < |files| ensures !(Has(r, noBase, files[i], key) && Has(r, noBase, files[j], key)) {
      assert Map((fc: FileChange) => r.path(fc.path), files)[i] != Map((fc: FileChange) => r.path(fc.path), files)[j];
      if Has(r, noBase, files[i], key) && Has(r, noBase, files[j], key) {
        FileHasItsPath(r, noBase, files[i], key);
        FileHasItsPath(r, noBase, files[j], key);
      }
    }
  }

  // ----- distinct ids over the files -----

  function ID(s: Signal): string {
    s.id
  }

  lemma DistinctIs(s: seq<Signal>)
    ensures DistinctIDs(s) <==> Distinct(Map(ID, s))
  {
    if DistinctIDs(s) {
      forall i, j | 0 <= i < j < |s| ensures Map(ID, s)[i] != Map(ID, s)[j] { assert s[i].id != s[j].id; }
    }
    if Distinct(Map(ID, s)) {
      forall i, j | 0 <= i < j < |s| ensures s[i].id != s[j].id { assert Map(ID, s)[i] != Map(ID, s)[j]; }
    }
  }

  lemma EmittedHasKey(r: Rules, noBase: string, fc: FileChange, e: Emission)
    requires Eligible(fc) && e in Emissions(r, Sides(fc, noBase))
    ensures Has(r, noBase, fc, KeyOf(r, e.source))
  {
    var c := Sides(fc, noBase);
    if e in HeadEmissions(r, c, KeyList(r, c.head)) {
      HeadTags(r, c, KeyList(r, c.head), e);
    } else {
      BaseTags(r, c, KeyList(r, c.base), e);
    }
  }

  lemma EmissionOf(r: Rules, fields: Fields, noBase: string, fc: FileChange, s: Signal)
    returns (e: Emission)
    requires s in SignalsOf(r, fields, noBase)(fc)
    ensures Eligible(fc) && e in Emissions(r, Sides(fc, noBase)) && s.id == ComputeSignalID(r, e.source, e.ordinal)
  {
    var classified := SignalIdentity.Classified(r, Sides(fc, noBase));
    var i :| 0 <= i < |classified| && Map(Marked(fields, fc), classified)[i] == s;
    e := Emissions(r, Sides(fc, noBase))[i];
  }

  /** Signals of files without a common key have different ids. */
  lemma AcrossFiles(r: Rules, fields: Fields, noBase: string, fc: FileChange, gc: FileChange, s: Signal, t: Signal)
    requires Injective(r.hash) && AllShort(r, noBase, fc) && AllShort(r, noBase, gc)
    requires forall key :: !(Has(r, noBase, fc, key) && Has(r, noBase, gc, key))
    requires s in SignalsOf(r, fields, noBase)(fc) && t in SignalsOf(r, fields, noBase)(gc)
    ensures s.id != t.id
  {
    var e := EmissionOf(r, fields, noBase, fc, s);
    var f := EmissionOf(r, fields, noBase, gc, t);
    EmittedHasKey(r, noBase, fc, e);
    EmittedHasKey(r, noBase, gc, f);
    if s.id == t.id { SameIDSameTag(r, e, f); }
  }

  lemma WithinFile(r: Rules, fields: Fields, noBase: string, fc: FileChange)
    requires Injective(r.hash) && AllShort(r, noBase, fc)
    ensures DistinctIDs(SignalsOf(r, fields, noBase)(fc))
  {
    var classified, signals := SignalIdentity.Classified(r, Sides(fc, noBase)), SignalsOf(r, fields, noBase)(fc);
    IDsDistinct(r, Sides(fc, noBase));
    forall i, j | 0 <= i < j < |signals| ensures signals[i].id != signals[j].id {
      assert classified[i].id != classified[j].id;
    }
  }

  lemma DistinctConcat(a: seq<Signal>, b: seq<Signal>)
    requires DistinctIDs(a) && DistinctIDs(b) && forall s, t | s in a && t in b :: s.id != t.id
    ensures DistinctIDs(a + b)
  {
    var ab := a + b;
    forall i, j | 0 <= i < j < |ab| ensures ab[i].id != ab[j].id {
      if i < |a| <= j { assert ab[i] in a && ab[j] in b; }
    }
  }

  lemma PrefixShares(r: Rules, noBase: string, files: seq<FileChange>, n: nat)
    requires n <= |files| && NoSharedKey(r, noBase, files) && forall fc | fc in files :: AllShort(r, noBase, fc)
    ensures NoSharedKey(r, noBase, files[..n]) && forall fc | fc in files[..n] :: AllShort(r, noBase, fc)
  {
    forall i, j, key | 0 <= i < j < n ensures !(Has(r, noBase, files[..n][i], key) && Has(r, noBase, files[..n][j], key)) {
      assert !(Has(r, noBase, files[i], key) && Has(r, noBase, files[j], key));
    }
  }

  /** Over all files no two signals share an id. */
  lemma {:induction false} FileIDsDistinct(r: Rules, fields: Fields, noBase: string, files: seq<FileChange>)
    requires Injective(r.hash) && NoSharedKey(r, noBase, files) && forall fc | fc in files :: AllShort(r, noBase, fc)
    ensures DistinctIDs(FileSignals(r, fields, noBase, files))
  {
    if files != [] {
      var n := |files| - 1;
      PrefixShares(r, noBase, files, n);
      FileIDsDistinct(r, fields, noBase, files[..n]);
      assert files[n] in files;
      WithinFile(r, fields, noBase, files[n]);
      LastFileIsApart(r, fields, noBase, files);
      DistinctConcat(FileSignals(r, fields, noBase, files[..n]), SignalsOf(r, fields, noBase)(files[n]));
    }
  }

  lemma FileOf(r: Rules, fields: Fields, noBase: string, files: seq<FileChange>, s: Signal)
    returns (i: nat)
    requires s in FileSignals(r, fields, noBase, files)
    ensures i < |files| && s in SignalsOf(r, fields, noBase)(files[i])
  {
    FlatMapMembers(SignalsOf(r, fields, noBase), files, s);
    var fc :| fc in files && s in SignalsOf(r, fields, noBase)(fc);
    i :| 0 <= i < |files| && files[i] == fc;
  }

  lemma NoKeyOfBoth(r: Rules, noBase: string, files: seq<FileChange>, i: nat, j: nat)
    requires i < j < |files| && NoSharedKey(r, noBase, files) && forall fc | fc in files :: AllShort(r, noBase, fc)
    ensures forall key :: !(Has(r, noBase, files[i], key) && Has(r, noBase, files[j], key))
    ensures AllShort(r, noBase, files[i]) && AllShort(r, noBase, files[j])
  {
    assert files[i] in files && files[j] in files;
  }

  lemma LastFileIsApart(r: Rules, fields: Fields, noBase: string, files: seq<FileChange>)
    requires files != [] && Injective(r.hash) && NoSharedKey(r, noBase, files) && forall fc | fc in files :: AllShort(r, noBase, fc)
    ensures forall s, t | s in FileSignals(r, fields, noBase, files[..|files| - 1])
                          && t in SignalsOf(r, fields, noBase)(files[|files| - 1]) :: s.id != t.id
  {
    var n := |files| - 1;
    forall s, t | s in FileSignals(r, fields, noBase, files[..n]) && t in SignalsOf(r, fields, noBase)(files[n])
      ensures s.id != t.id {
      var i := FileOf(r, fields, noBase, files[..n], s);
      NoKeyOfBoth(r, noBase, files, i, n);
      AcrossFiles(r, fields, noBase, files[i], files[n], s, t);
    }
  }

  // ----- the whole report -----

  /** What the pipeline guarantees: the changes are a classified comparison, hashes are injective, files share no key and
      the fields of every identity are short. */
  ghost predicate Sound(r: Rules, input: Input, c: ProjectLifecycle.Comparison) {
    && input.noBase in {"baseline", "unknown"} && c.noBase == input.noBase && input.changes == ProjectLifecycle.Classified(c)
    && ProjectLifecycle.Indexed(c) && Injective(c.hash) && ProjectLifecycle.ShortIdentities(c)
    && Injective(r.hash) && NoSharedKey(r, input.noBase, input.files)
    && forall fc | fc in input.files :: AllShort(r, input.noBase, fc)
  }

  function AllSides(input: Input): seq<Change> {
    Map((fc: FileChange) => Sides(fc, input.noBase), input.files)
  }

  /** The file pipeline gives classified signals. */
  lemma FilesAreClassified(r: Rules, fields: Fields, input: Input, c: ProjectLifecycle.Comparison)
    requires Sound(r, input, c)
    ensures FromClassification(SourceOf(r, fields, input), r, AllSides(input), c)
  {
    forall s | s in FileSignals(r, fields, input.noBase, input.files) ensures FromFiles(r, AllSides(input), s) {
      SignalIsFromFiles(r, fields, input, s);
    }
    forall side | side in AllSides(input) ensures side.noBase in {"introduced", "baseline", "unknown"} {
      var k :| 0 <= k < |AllSides(input)| && AllSides(input)[k] == side;
    }
  }

  lemma SignalIsFromFiles(r: Rules, fields: Fields, input: Input, s: Signal)
    requires s in FileSignals(r, fields, input.noBase, input.files)
    ensures FromFiles(r, AllSides(input), s)
  {
    var k := FileOf(r, fields, input.noBase, input.files, s);
    var sides := AllSides(input);
    MarkedIsClassified(r, fields, input.noBase, input.files[k], s);
    assert sides[k] in sides;
  }

  lemma MarkedIsClassified(r: Rules, fields: Fields, noBase: string, fc: FileChange, s: Signal)
    requires s in SignalsOf(r, fields, noBase)(fc)
    ensures exists t :: t in SignalIdentity.Classified(r, Sides(fc, noBase)) && s == t.(changed := s.changed, rest := s.rest)
  {
    var classified := SignalIdentity.Classified(r, Sides(fc, noBase));
    var i :| 0 <= i < |classified| && Map(Marked(fields, fc), classified)[i] == s;
    assert classified[i] in classified && Marked(fields, fc)(classified[i]) == s;
  }

  lemma SoundIsSourced(r: Rules, fields: Fields, input: Input, c: ProjectLifecycle.Comparison)
    requires Sound(r, input, c)
    ensures Sourced(FileSignals(r, fields, input.noBase, input.files), input.changes)
  {
    FilesAreClassified(r, fields, input, c);
    ClassificationIsSourced(r, AllSides(input), FileSignals(r, fields, input.noBase, input.files), c);
  }

  lemma MirrorIDsDistinct(changes: seq<ProjectLifecycle.ProjectChange>)
    requires Distinct(ChangeIDs(changes))
    ensures DistinctIDs(Map(Mirror, Filter(Anchored, changes)))
  {
    var id := (ch: ProjectLifecycle.ProjectChange) => ch.id;
    var anchored := Filter(Anchored, changes);
    FilterDistinct(Anchored, id, changes);
    forall i, j | 0 <= i < j < |anchored| ensures Map(Mirror, anchored)[i].id != Map(Mirror, anchored)[j].id {
      assert Map(id, anchored)[i] != Map(id, anchored)[j];
    }
  }

  lemma EverythingDistinct(fileSignals: seq<Signal>, changes: seq<ProjectLifecycle.ProjectChange>)
    requires Sourced(fileSignals, changes) && DistinctIDs(fileSignals)
    ensures DistinctIDs(AllSignals(fileSignals, changes))
  {
    var mirrors := Map(Mirror, Filter(Anchored, changes));
    MirrorIDsDistinct(changes);
    forall s, t | s in fileSignals && t in mirrors ensures s.id != t.id {
      var i :| 0 <= i < |mirrors| && mirrors[i] == t;
      assert Filter(Anchored, changes)[i] in Filter(Anchored, changes);
      assert !IsMirror(s) && IsMirror(t);
    }
    DistinctConcat(fileSignals, mirrors);
  }

  lemma ActiveDistinct(signals: seq<Signal>, includeResolved: bool)
    requires DistinctIDs(signals)
    ensures DistinctIDs(Active(signals, includeResolved))
  {
    DistinctIs(signals);
    FilterDistinct(OpenSignal, ID, signals);
    DistinctIs(Filter(OpenSignal, signals));
  }

  lemma PermutedDistinct(s: seq<Signal>, t: seq<Signal>)
    requires multiset(s) == multiset(t) && DistinctIDs(s)
    ensures DistinctIDs(t)
  {
    DistinctIs(s);
    DistinctIs(t);
    MapPermutes(ID, s, t);
    DistinctPermutes(Map(ID, s), Map(ID, t));
  }

  ghost function Emitted(r: Rules, fields: Fields, input: Input): seq<Signal> {
    Active(Everything(SourceOf(r, fields, input)), input.includeResolved)
  }

  lemma EmittedDistinct(r: Rules, fields: Fields, input: Input, c: ProjectLifecycle.Comparison)
    requires Sound(r, input, c)
    ensures DistinctIDs(Emitted(r, fields, input))
  {
    FileIDsDistinct(r, fields, input.noBase, input.files);
    SoundIsSourced(r, fields, input, c);
    SurfaceIsSourced(FileSignals(r, fields, input.noBase, input.files), input.changes);
    EverythingDistinct(FileSignals(r, fields, input.noBase, input.files), Surface(input.changes));
    ActiveDistinct(Everything(SourceOf(r, fields, input)), input.includeResolved);
  }

  /** Every built report has distinct ids when its files share no key and its hashes are injective. */
  lemma ReportIDsDistinct(rep: Report, r: Rules, fields: Fields, input: Input, c: ProjectLifecycle.Comparison)
    requires Built(rep, SourceOf(r, fields, input)) && Sound(r, input, c)
    ensures DistinctIDs(rep.signals)
  {
    EmittedDistinct(r, fields, input, c);
    SortingPermutes(Emitted(r, fields, input), rep.signals);
    PermutedDistinct(Emitted(r, fields, input), rep.signals);
  }

  // ----- file order -----

  lemma SameMembers<T>(s: seq<T>, t: seq<T>, x: T)
    requires multiset(s) == multiset(t)
    ensures (x in s <==> x in t) && |s| == |t|
  {
    assert x in s <==> x in multiset(s);
    assert x in t <==> x in multiset(t);
    assert |multiset(s)| == |multiset(t)|;
  }

  lemma SameFileCounts(files: seq<string>, files': seq<string>, notes: seq<Diagnostic>, notes': seq<Diagnostic>)
    requires multiset(files) == multiset(files') && multiset(notes) == multiset(notes')
    ensures FileCountsOf(files, notes) == FileCountsOf(files', notes')
  {
    SameMembers(files, files', "");
    forall p ensures p in files <==> p in files' { SameMembers(files, files', p); }
    forall d ensures d in notes <==> d in notes' { SameMembers(notes, notes', d); }
    SamePaths(notes, notes');
    SameEdgeFree(notes, notes');
    SamePaths(NotAboutEdges(notes), NotAboutEdges(notes'));
    var a := set p | p in DistinctPaths(NotAboutEdges(notes)) && p !in files;
    var b := set p | p in DistinctPaths(NotAboutEdges(notes')) && p !in files';
    assert a == b;
  }

  lemma SamePaths(a: seq<Diagnostic>, b: seq<Diagnostic>)
    requires forall d :: d in a <==> d in b
    ensures DistinctPaths(a) == DistinctPaths(b)
  {
  }

  lemma SameEdgeFree(a: seq<Diagnostic>, b: seq<Diagnostic>)
    requires forall d :: d in a <==> d in b
    ensures forall d :: d in NotAboutEdges(a) <==> d in NotAboutEdges(b)
  {
    forall d ensures d in NotAboutEdges(a) <==> d in NotAboutEdges(b) {
      FilterCounts(NotAboutEdge, a, d);
      FilterCounts(NotAboutEdge, b, d);
    }
  }

  lemma SameActive(a: seq<Signal>, b: seq<Signal>, includeResolved: bool)
    requires multiset(a) == multiset(b)
    ensures multiset(Active(a, includeResolved)) == multiset(Active(b, includeResolved))
    ensures TalliesOf(Lifecycles(a)) == TalliesOf(Lifecycles(b))
  {
    MapPermutes((s: Signal) => s.lifecycle, a, b);
    FilterPermutes(OpenSignal, a, b);
  }

  /** Diagnostics of the file pipeline that tie are the same, so permuted files show in no diagnostic either, even though
      the sort leaves side and revision out. */
  lemma DiagnosticsIgnoreFileOrder(files: seq<FileChange>, shuffled: seq<FileChange>, seed: seq<Diagnostic>, more: seq<Diagnostic>)
    requires multiset(FileNotes(files)) == multiset(FileNotes(shuffled))
    ensures SortDiagnostics((seed + FileNotes(files)) + more) == SortDiagnostics((seed + FileNotes(shuffled)) + more)
  {
    var a, b := FileNotes(files), FileNotes(shuffled);
    DiagnosticLaws();
    forall x ensures Ties(CompareDiagnostics, x, (seed + a) + more) == Ties(CompareDiagnostics, x, (seed + b) + more) {
      NotesTie(files, x);
      TiesPermute(CompareDiagnostics, x, a, b);
      TiesOfThree(x, seed, a, more);
      TiesOfThree(x, seed, b, more);
    }
    SumsAgree(seed, a, b, more);
    SameTiesSameSort(CompareDiagnostics, (seed + a) + more, (seed + b) + more);
  }

  lemma SumsAgree(seed: seq<Diagnostic>, a: seq<Diagnostic>, b: seq<Diagnostic>, more: seq<Diagnostic>)
    requires multiset(a) == multiset(b)
    ensures multiset((seed + a) + more) == multiset((seed + b) + more)
  {
  }

  lemma TiesOfThree(x: Diagnostic, seed: seq<Diagnostic>, notes: seq<Diagnostic>, more: seq<Diagnostic>)
    ensures Ties(CompareDiagnostics, x, (seed + notes) + more)
            == (Ties(CompareDiagnostics, x, seed) + Ties(CompareDiagnostics, x, notes)) + Ties(CompareDiagnostics, x, more)
  {
    TiesConcat(CompareDiagnostics, x, seed + notes, more);
    TiesConcat(CompareDiagnostics, x, seed, notes);
  }

  lemma NotesTie(files: seq<FileChange>, x: Diagnostic)
    ensures forall d, e | d in FileNotes(files) && e in FileNotes(files) && CompareDiagnostics(x, d) == 0
                          && CompareDiagnostics(x, e) == 0 :: d == e
  {
    forall d, e | d in FileNotes(files) && e in FileNotes(files) && CompareDiagnostics(x, d) == 0 && CompareDiagnostics(x, e) == 0
      ensures d == e {
      NoteOfSomeFile(files, d);
      NoteOfSomeFile(files, e);
      Decides(x, d);
      Decides(x, e);
    }
  }

  lemma NoteOfSomeFile(files: seq<FileChange>, d: Diagnostic)
    requires d in FileNotes(files)
    ensures d.side == "" && d.revision == "" && d.path in Map(PathOf, files)
  {
    FlatMapMembers(Notes, files, d);
    var fc :| fc in files && d in Notes(fc);
    NotesName(fc, d);
    var i :| 0 <= i < |files| && files[i] == fc;
    assert Map(PathOf, files)[i] == fc.path;
  }

  /** Unanalysed files come from the diagnostics that were handed in only: the pipeline's own name files it was given. */
  lemma UnanalyzedComeFromSeed(files: seq<FileChange>, seed: seq<Diagnostic>)
    ensures FileCountsOf(Map(PathOf, files), seed + FileNotes(files)).unanalyzed == FileCountsOf(Map(PathOf, files), seed).unanalyzed
  {
    var paths, notes := Map(PathOf, files), FileNotes(files);
    var a := set p | p in DistinctPaths(NotAboutEdges(seed + notes)) && p !in paths;
    var b := set p | p in DistinctPaths(NotAboutEdges(seed)) && p !in paths;
    FilterConcat(NotAboutEdge, seed, notes);
    forall d | d in NotAboutEdges(notes) ensures d.path in paths { NoteOfSomeFile(files, d); }
    assert a == b;
  }

  /** The same input with its files in some other order. */
  predicate Reordered(input: Input, other: Input) {
    multiset(input.files) == multiset(other.files) && other == input.(files := other.files)
  }

  lemma SameBuiltSignals(r: Rules, fields: Fields, input: Input, other: Input)
    requires Reordered(input, other)
    ensures multiset(Everything(SourceOf(r, fields, input))) == multiset(Everything(SourceOf(r, fields, other)))
  {
    FilesPermute(r, fields, input.noBase, input.files, other.files);
  }

  /** Building does not show the order of the files. */
  lemma FileOrderIsInvisible(rep: Report, rep': Report, r: Rules, fields: Fields, input: Input, other: Input,
                             c: ProjectLifecycle.Comparison)
    requires Sound(r, input, c) && Reordered(input, other)
    requires Built(rep, SourceOf(r, fields, input)) && Built(rep', SourceOf(r, fields, other))
    ensures rep == rep'
  {
    var src, src' := SourceOf(r, fields, input), SourceOf(r, fields, other);
    EmittedDistinct(r, fields, input, c);
    SameBuiltSignals(r, fields, input, other);
    SameActive(Everything(src), Everything(src'), input.includeResolved);
    SortingIsCanonical(Emitted(r, fields, input), Emitted(r, fields, other), rep.signals, rep'.signals);
    FilesPermute(r, fields, input.noBase, input.files, other.files);
    DiagnosticsIgnoreFileOrder(input.files, other.files, input.seed, input.projectDiagnostics + MissingPathNotes(input.changes));
    MapPermutes(PathOf, input.files, other.files);
    SameFileCounts(src.files, src'.files, src.fileDiagnostics, src'.fileDiagnostics);
  }

  /** A report has only one view for each choice of options. */
  lemma OneView(rep: Report, opts: NarrowOptions, view: Report, view': Report)
    requires Narrowed(rep, opts, view) && Narrowed(rep, opts, view')
    ensures view == view'
  {
    var ranked :| SortedSignals(rep.signals, ranked) && view == ViewOf(rep, opts, ranked);
    var ranked' :| SortedSignals(rep.signals, ranked') && view' == ViewOf(rep, opts, ranked');
    RankingOrder.SortIsTheResult(rep.signals, ranked);
    RankingOrder.SortIsTheResult(rep.signals, ranked');
  }

  /** No view shows the order of the files either. */
  lemma ViewsIgnoreFileOrder(rep: Report, rep': Report, r: Rules, fields: Fields, input: Input, other: Input,
                             c: ProjectLifecycle.Comparison, opts: NarrowOptions, view: Report, view': Report)
    requires Sound(r, input, c) && Reordered(input, other)
    requires Built(rep, SourceOf(r, fields, input)) && Built(rep', SourceOf(r, fields, other))
    requires Narrowed(rep, opts, view) && Narrowed(rep', opts, view')
    ensures view == view'
  {
    FileOrderIsInvisible(rep, rep', r, fields, input, other, c);
    OneView(rep, opts, view, view');
  }
}
