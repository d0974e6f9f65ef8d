/** What becomes of the TypeScript import edges that are not violations (pkg/codesignal/rule_layer_violation.go,
    rule_layer_violation_ts_unevaluated.go). */
module UnevaluatedEdges {
  import opened Filtering
  import opened Grouping
  import opened LayerMembership
  import opened LayerRules
  import opened Options
  import opened Ordering

  /** How a specifier is quoted in a message, and which specifiers name files that are not code. */
  datatype Specifiers = Specifiers(quote: string -> string, nonSource: string -> bool)

  datatype NoteKind = UnresolvedImport | NonLiteralLoad

  datatype Note = Note(path: string, kind: NoteKind, message: string, row: nat)

  datatype Diagnostics = Diagnostics(notes: seq<Note>, external: nat, nonSource: nat)

  const NO_DIAGNOSTICS := Diagnostics([], 0, 0)

  const INCOMPLETE := "cannot tell whether it crosses a layer; the layer verdict is incomplete"

  /** What layer rules make of an edge: not theirs, between two files, not decidable (with a note), only counted, or of
      no known address form. */
  datatype Fate = Ignored | Evaluated | Noted(note: Note) | External | NonSource | Unknown

  function Unresolved(importer: string, specifier: string, site: string, specs: Specifiers): Note {
    Note(importer, UnresolvedImport,
         "import of " + specs.quote(specifier) + " from " + importer
         + " did not resolve within the snapshot, so layer rules " + INCOMPLETE,
         ParseSite(site).row)
  }

  function NonLiteral(importer: string, kind: string, expression: string, site: string, specs: Specifiers): Note {
    Note(importer, NonLiteralLoad,
         (if kind == "commonjs_require" then "require()" else "import()") + " in " + importer
         + " takes a non-literal specifier (" + specs.quote(expression) + "), so layer rules did not evaluate it and " + INCOMPLETE,
         ParseSite(site).row)
  }

  function CutPrefix(s: string, prefix: string): Option<string> {
    if prefix <= s then Some(s[|prefix|..]) else None
  }

  /** The fate of an edge by its target alone. */
  function TargetFate(e: ImportEdge, importer: string, specs: Specifiers): Fate {
    var expression, specifier := CutPrefix(e.to, "nonliteral:"), CutPrefix(e.to, "unresolved:");
    if expression.Some? then Noted(NonLiteral(importer, e.kind, expression.value, e.site, specs))
    else if specifier.Some? then
      if specs.nonSource(specifier.value) then NonSource else Noted(Unresolved(importer, specifier.value, e.site, specs))
    else if "external:" <= e.to then External
    else if FILE_PREFIX <= e.to then Evaluated
    else Unknown
  }

  /** Only edges of an evaluated kind that leave a file inside some layer count. */
  function FateOf(e: ImportEdge, policy: Policy, specs: Specifiers): Fate {
    if EvaluatedTSKind(e.kind, policy.excludeTypeOnly) && FILE_PREFIX <= e.from
       && MatchLayer(policy.layers, e.from[|FILE_PREFIX|..]).Some?
    then TargetFate(e, e.from[|FILE_PREFIX|..], specs) else Ignored
  }

  function Fates(edges: seq<ImportEdge>, policy: Policy, specs: Specifiers): (r: seq<Fate>)
    ensures |r| == |edges|
  {
    Map((e: ImportEdge) => FateOf(e, policy, specs), edges)
  }

  // ----- the diagnostics as a value -----

  function NoteParts(a: Note, b: Note): seq<int> {
    [CompareText(a.path, b.path), CompareInt(a.row, b.row), CompareText(a.message, b.message)]
  }

  function CompareNotes(a: Note, b: Note): int {
    Or(NoteParts(a, b))
  }

  function NoteIn(f: Fate): Note {
    if f.Noted? then f.note else Note("", UnresolvedImport, "", 0)
  }

  function NotesOf(fates: seq<Fate>): seq<Note> {
    Map(NoteIn, Filter((f: Fate) => f.Noted?, fates))
  }

  function CountOf(fates: seq<Fate>, fate: Fate): nat {
    |Filter((f: Fate) => f == fate, fates)|
  }

  function DiagnosticsOf(fates: seq<Fate>): Diagnostics {
    Diagnostics(StableSort(CompareNotes, NotesOf(fates)), CountOf(fates, External), CountOf(fates, NonSource))
  }

  lemma NotesSnoc(fates: seq<Fate>, f: Fate)
    ensures NotesOf(fates + [f]) == NotesOf(fates) + if f.Noted? then [f.note] else []
  {
    FilterSnoc((x: Fate) => x.Noted?, fates, f);
  }

  lemma CountSnoc(fates: seq<Fate>, f: Fate, fate: Fate)
    ensures CountOf(fates + [f], fate) == CountOf(fates, fate) + if f == fate then 1 else 0
  {
    FilterSnoc((x: Fate) => x == fate, fates, f);
  }

  // ----- the loop -----

  method UnevaluatedTSEdgeDiagnostics(edges: seq<ImportEdge>, policy: Policy, specs: Specifiers) returns (d: Diagnostics)
    ensures d == DiagnosticsOf(Fates(edges, policy, specs))
  {
    var notes, external, nonSource := [], 0, 0;
    ghost var fates := Fates(edges, policy, specs);
    for i := 0 to |edges|
      invariant notes == NotesOf(fates[..i])
      invariant external == CountOf(fates[..i], External) && nonSource == CountOf(fates[..i], NonSource)
    {
      assert fates[..i + 1] == fates[..i] + [fates[i]];
      NotesSnoc(fates[..i], fates[i]);
      CountSnoc(fates[..i], fates[i], External);
      CountSnoc(fates[..i], fates[i], NonSource);
      var note, e, n := NoteEdge(edges[i], policy, specs);
      notes, external, nonSource := notes + note, external + e, nonSource + n;
    }
    assert fates[..|edges|] == fates;
    d := Diagnostics(StableSort(CompareNotes, notes), external, nonSource);
  }

  /** What one edge adds. */
  method NoteEdge(edge: ImportEdge, policy: Policy, specs: Specifiers) returns (notes: seq<Note>, external: nat, nonSource: nat)
    ensures var f := FateOf(edge, policy, specs);
            && notes == (if f.Noted? then [f.note] else [])
            && external == (if f == External then 1 else 0) && nonSource == (if f == NonSource then 1 else 0)
  {
    notes, external, nonSource := [], 0, 0;
    if !EvaluatedTSKind(edge.kind, policy.excludeTypeOnly) { return; }
    var importer := CutPrefix(edge.from, FILE_PREFIX);
    if importer.None? { return; }
    if MatchLayer(policy.layers, importer.value).None? { return; }
    var expression, specifier := CutPrefix(edge.to, "nonliteral:"), CutPrefix(edge.to, "unresolved:");
    if expression.Some? {
      notes := [NonLiteral(importer.value, edge.kind, expression.value, edge.site, specs)];
    } else if specifier.Some? {
      if specs.nonSource(specifier.value) {
        nonSource := 1;
      } else {
        notes := [Unresolved(importer.value, specifier.value, edge.site, specs)];
      }
    } else if "external:" <= edge.to {
      external := 1;
    }
  }

  method EvaluateTypeScriptLayerViolations(edges: seq<ImportEdge>, policy: Policy, specs: Specifiers)
    returns (changes: seq<Violation>, diagnostics: Diagnostics)
    ensures changes == Violations(edges, policy.(language := TypeScript))
    ensures diagnostics == if policy.layers == [] || policy.forbidden == [] then NO_DIAGNOSTICS
                           else DiagnosticsOf(Fates(edges, policy, specs))
  {
    changes := Evaluate(edges, policy.(language := TypeScript));
    if |policy.layers| == 0 || |policy.forbidden| == 0 { return changes, NO_DIAGNOSTICS; }
    diagnostics := UnevaluatedTSEdgeDiagnostics(edges, policy, specs);
  }

  // ----- the main results -----

  /** A note is an edge's: messages of the two kinds never coincide. */
  predicate Proper(n: Note) {
    |n.message| > 7 && (n.kind == UnresolvedImport <==> n.message[6] == ' ')
  }

  lemma UnresolvedProper(importer: string, specifier: string, site: string, specs: Specifiers)
    ensures Proper(Unresolved(importer, specifier, site, specs))
  {
  }

  lemma NonLiteralProper(importer: string, kind: string, expression: string, site: string, specs: Specifiers)
    ensures Proper(NonLiteral(importer, kind, expression, site, specs))
  {
  }

  lemma EdgeNotesProper(e: ImportEdge, policy: Policy, specs: Specifiers)
    ensures FateOf(e, policy, specs).Noted? ==> Proper(FateOf(e, policy, specs).note)
  {
    if FateOf(e, policy, specs).Noted? {
      var importer := e.from[|FILE_PREFIX|..];
      if "nonliteral:" <= e.to {
        NonLiteralProper(importer, e.kind, e.to[|"nonliteral:"|..], e.site, specs);
      } else {
        UnresolvedProper(importer, e.to[|"unresolved:"|..], e.site, specs);
      }
    }
  }

  lemma NotesProper(edges: seq<ImportEdge>, policy: Policy, specs: Specifiers, n: Note)
    ensures n in NotesOf(Fates(edges, policy, specs)) <==> exists e :: e in edges && FateOf(e, policy, specs) == Noted(n)
    ensures n in NotesOf(Fates(edges, policy, specs)) ==> Proper(n)
  {
    var fates := Fates(edges, policy, specs);
    var noted := Filter((f: Fate) => f.Noted?, fates);
    if n in NotesOf(fates) {
      var i :| 0 <= i < |noted| && NotesOf(fates)[i] == n;
      assert noted[i] in noted && noted[i] == Noted(n);
      var k :| 0 <= k < |fates| && fates[k] == noted[i];
      EdgeNotesProper(edges[k], policy, specs);
      assert edges[k] in edges;
    }
    if e :| e in edges && FateOf(e, policy, specs) == Noted(n) {
      var k :| 0 <= k < |edges| && edges[k] == e;
      assert fates[k] == Noted(n);
      FilterCounts((f: Fate) => f.Noted?, fates, Noted(n));
      var i :| 0 <= i < |noted| && noted[i] == Noted(n);
      assert NotesOf(fates)[i] == n;
    }
  }

  lemma NoteLaws()
    ensures Lawful(CompareNotes)
  {
    forall a, b ensures Mirrors(CompareNotes(a, b), CompareNotes(b, a)) {
      TextMirrors(a.path, b.path);
      TextMirrors(a.message, b.message);
      OrMirrors(NoteParts(a, b), NoteParts(b, a));
    }
    forall a, b, c ensures Chains(CompareNotes(a, b), CompareNotes(b, c), CompareNotes(a, c)) {
      TextChains(a.path, b.path, c.path);
      TextChains(a.message, b.message, c.message);
      OrChains(NoteParts(a, b), NoteParts(b, c), NoteParts(a, c));
    }
  }

  lemma ProperNotesDecide(a: Note, b: Note)
    requires Proper(a) && Proper(b) && CompareNotes(a, b) == 0
    ensures a == b
  {
    var cs := NoteParts(a, b);
    OrZero(cs);
    assert cs[0] == 0 && cs[1] == 0 && cs[2] == 0;
    TextDecides(a.path, b.path);
    TextDecides(a.message, b.message);
  }

  /** The order of the edges does not show in the diagnostics, although the sort leaves the kind out. */
  lemma DiagnosticsIgnoreOrder(edges: seq<ImportEdge>, shuffled: seq<ImportEdge>, policy: Policy, specs: Specifiers)
    requires multiset(edges) == multiset(shuffled)
    ensures DiagnosticsOf(Fates(edges, policy, specs)) == DiagnosticsOf(Fates(shuffled, policy, specs))
  {
    var a, b := Fates(edges, policy, specs), Fates(shuffled, policy, specs);
    MapPermutes((e: ImportEdge) => FateOf(e, policy, specs), edges, shuffled);
    FilterPermutes((f: Fate) => f == External, a, b);
    FilterPermutes((f: Fate) => f == NonSource, a, b);
    FilterPermutes((f: Fate) => f.Noted?, a, b);
    var noted, noted' := Filter((f: Fate) => f.Noted?, a), Filter((f: Fate) => f.Noted?, b);
    MapPermutes(NoteIn, noted, noted');
    NoteLaws();
    forall x, y | x in multiset(NotesOf(a)) && y in multiset(NotesOf(a)) && CompareNotes(x, y) == 0 ensures x == y {
      NotesProper(edges, policy, specs, x);
      NotesProper(edges, policy, specs, y);
      ProperNotesDecide(x, y);
    }
    SortCanonical(CompareNotes, NotesOf(a), NotesOf(b));
  }

  /** A violating edge is an evaluated one: nothing is both reported and noted or counted. */
  lemma ViolationsAreEvaluated(e: ImportEdge, policy: Policy, specs: Specifiers)
    requires policy.language == TypeScript && ForbiddenPair(e, policy).Some?
    ensures FateOf(e, policy, specs) == Evaluated
  {
    assert e.to[0] == 'f';
  }

  /** The edges between files that some rule could have forbidden and none did. */
  function Permitted(edges: seq<ImportEdge>, policy: Policy, specs: Specifiers): seq<ImportEdge> {
    Filter((e: ImportEdge) => FateOf(e, policy, specs) == Evaluated && ForbiddenPair(e, policy).None?, edges)
  }

  /** The edges of a given fate. */
  function Having(edges: seq<ImportEdge>, policy: Policy, specs: Specifiers, fate: Fate): seq<ImportEdge> {
    Filter((e: ImportEdge) => FateOf(e, policy, specs) == fate, edges)
  }

  function NotedEdges(edges: seq<ImportEdge>, policy: Policy, specs: Specifiers): seq<ImportEdge> {
    Filter((e: ImportEdge) => FateOf(e, policy, specs).Noted?, edges)
  }

  function NoteOf(e: ImportEdge, policy: Policy, specs: Specifiers): Note {
    NoteIn(FateOf(e, policy, specs))
  }

  /** The edges in their places: sites of the report, permitted, noted, in one of the two counters, of no known address
      form, or not considered. */
  ghost function Places(edges: seq<ImportEdge>, policy: Policy, specs: Specifiers): multiset<ImportEdge> {
    multiset(Labelled(edges, PairOf(policy))) + multiset(Permitted(edges, policy, specs))
    + multiset(NotedEdges(edges, policy, specs)) + multiset(Having(edges, policy, specs, External))
    + multiset(Having(edges, policy, specs, NonSource)) + multiset(Having(edges, policy, specs, Unknown))
    + multiset(Having(edges, policy, specs, Ignored))
  }

  /** Every edge is in one place, as often as it was handed in, and the report shows each place: the sites are those of
      the violating edges, the notes those of the noted ones, and the counters count the rest. */
  lemma EveryEdgeAccountedFor(edges: seq<ImportEdge>, policy: Policy, specs: Specifiers)
    requires policy.language == TypeScript
    ensures multiset(edges) == Places(edges, policy, specs)
    ensures multiset(SitesOf(Violations(edges, policy))) == multiset(Map(Where, Labelled(edges, PairOf(policy))))
    ensures var d := DiagnosticsOf(Fates(edges, policy, specs));
            && multiset(d.notes) == multiset(Map((e: ImportEdge) => NoteOf(e, policy, specs), NotedEdges(edges, policy, specs)))
            && d.external == |Having(edges, policy, specs, External)|
            && d.nonSource == |Having(edges, policy, specs, NonSource)|
  {
    forall e ensures multiset(edges)[e] == Places(edges, policy, specs)[e] { OnePlace(edges, policy, specs, e); }
    EverySiteOnce(edges, policy);
    NotesShown(edges, policy, specs);
    CountShown(edges, policy, specs, External);
    CountShown(edges, policy, specs, NonSource);
  }

  lemma OnePlace(edges: seq<ImportEdge>, policy: Policy, specs: Specifiers, e: ImportEdge)
    requires policy.language == TypeScript
    ensures multiset(edges)[e] == Places(edges, policy, specs)[e]
  {
    LabelledCounts(edges, PairOf(policy), e);
    PermittedCounts(edges, policy, specs, e);
    FilterCounts((x: ImportEdge) => FateOf(x, policy, specs).Noted?, edges, e);
    HavingCounts(edges, policy, specs, External, e);
    HavingCounts(edges, policy, specs, NonSource, e);
    HavingCounts(edges, policy, specs, Unknown, e);
    HavingCounts(edges, policy, specs, Ignored, e);
    if ForbiddenPair(e, policy).Some? { ViolationsAreEvaluated(e, policy, specs); }
  }

  lemma PermittedCounts(edges: seq<ImportEdge>, policy: Policy, specs: Specifiers, e: ImportEdge)
    ensures multiset(Permitted(edges, policy, specs))[e]
            == if FateOf(e, policy, specs) == Evaluated && ForbiddenPair(e, policy).None? then multiset(edges)[e] else 0
  {
    FilterCounts((x: ImportEdge) => FateOf(x, policy, specs) == Evaluated && ForbiddenPair(x, policy).None?, edges, e);
  }

  lemma HavingCounts(edges: seq<ImportEdge>, policy: Policy, specs: Specifiers, fate: Fate, e: ImportEdge)
    ensures multiset(Having(edges, policy, specs, fate))[e] == if FateOf(e, policy, specs) == fate then multiset(edges)[e] else 0
  {
    FilterCounts((x: ImportEdge) => FateOf(x, policy, specs) == fate, edges, e);
  }

  lemma NotesShown(edges: seq<ImportEdge>, policy: Policy, specs: Specifiers)
    ensures multiset(DiagnosticsOf(Fates(edges, policy, specs)).notes)
            == multiset(Map((e: ImportEdge) => NoteOf(e, policy, specs), NotedEdges(edges, policy, specs)))
  {
    var fates, noted := Fates(edges, policy, specs), NotedEdges(edges, policy, specs);
    StableSortPermutes(CompareNotes, NotesOf(fates));
    FilterMap((f: Fate) => f.Noted?, (e: ImportEdge) => FateOf(e, policy, specs).Noted?,
              (e: ImportEdge) => FateOf(e, policy, specs), edges);
    assert NotesOf(fates) == Map((e: ImportEdge) => NoteOf(e, policy, specs), noted);
  }

  lemma CountShown(edges: seq<ImportEdge>, policy: Policy, specs: Specifiers, fate: Fate)
    ensures CountOf(Fates(edges, policy, specs), fate) == |Having(edges, policy, specs, fate)|
  {
    FilterMap((f: Fate) => f == fate, (e: ImportEdge) => FateOf(e, policy, specs) == fate,
              (e: ImportEdge) => FateOf(e, policy, specs), edges);
  }

  lemma NoneLeft<T>(keep: T -> bool, s: seq<T>)
    ensures Filter(keep, s) == [] <==> forall x | x in s :: !keep(x)
  {
    if x :| x in s && keep(x) { FilterCounts(keep, s, x); }
    if Filter(keep, s) != [] { assert Filter(keep, s)[0] in Filter(keep, s); }
  }

  lemma Silent(fates: seq<Fate>)
    ensures DiagnosticsOf(fates) == NO_DIAGNOSTICS <==> forall f | f in fates :: Quiet(f)
  {
    NoNotes(fates);
    NoneCounted(fates, External);
    NoneCounted(fates, NonSource);
  }

  predicate Quiet(f: Fate) {
    f.Ignored? || f.Evaluated? || f.Unknown?
  }

  lemma NoNotes(fates: seq<Fate>)
    ensures StableSort(CompareNotes, NotesOf(fates)) == [] <==> forall f | f in fates :: !f.Noted?
  {
    StableSortPermutes(CompareNotes, NotesOf(fates));
    NoneLeft((f: Fate) => f.Noted?, fates);
  }

  lemma NoneCounted(fates: seq<Fate>, fate: Fate)
    ensures CountOf(fates, fate) == 0 <==> fate !in fates
  {
    NoneLeft((f: Fate) => f == fate, fates);
  }

  /** With nothing noted or counted, and only then, the violations are the whole verdict on the edges whose targets have
      a known address form. */
  lemma SilenceMeansEvaluated(edges: seq<ImportEdge>, policy: Policy, specs: Specifiers)
    ensures DiagnosticsOf(Fates(edges, policy, specs)) == NO_DIAGNOSTICS <==>
            forall e | e in edges :: Quiet(FateOf(e, policy, specs))
  {
    var fates := Fates(edges, policy, specs);
    Silent(fates);
    forall e | e in edges ensures FateOf(e, policy, specs) in fates {
      var k :| 0 <= k < |edges| && edges[k] == e;
      assert fates[k] == FateOf(e, policy, specs);
    }
    forall f | f in fates ensures exists e :: e in edges && FateOf(e, policy, specs) == f {
      var k :| 0 <= k < |fates| && fates[k] == f;
      assert edges[k] in edges;
    }
  }
}
