/** Which layer violations are reported and what each one shows, in words of the edges and the policy
    (pkg/codesignal/rule_layer_violation.go, rule_layer_violation_go_edges.go, rule_layer_violation_ts_edges.go,
    rule_layer_violation_ts_unevaluated.go). */
module LayerRuleMeaning {
  import opened Grouping
  import opened LayerMembership
  import opened LayerRules
  import opened Options
  import opened Ordering
  import opened UnevaluatedEdges

  /** The address without "package:", if it has it. */
  predicate Addresses(address: string, dir: string) {
    address == "package:" + dir || (address == dir && !("package:" <= address))
  }

  /** The edge is one that layer rules look at, and goes from the importer to the importee. */
  predicate Imports(e: ImportEdge, policy: Policy, key: PairKey) {
    match policy.language
    case Go => e.kind == "internal" && Addresses(e.from, key.importer) && Addresses(e.to, key.importee)
    case TypeScript =>
      && (|| e.kind == "import" || e.kind == "reexport" || e.kind == "commonjs_require" || e.kind == "dynamic_import"
          || (e.kind == "type_only" && !policy.excludeTypeOnly))
      && e.from == "file:" + key.importer && e.to == "file:" + key.importee
  }

  /** The layer named so is the first, in the policy's order, that contains the directory or file. */
  ghost predicate LiesIn(policy: Policy, dir: string, name: string) {
    exists i: nat :: FirstWith(policy.layers, dir, i) && policy.layers[i].name == name
  }

  /** Some rule forbids the importer's layer to import the importee's. */
  ghost predicate Forbids(policy: Policy, key: PairKey) {
    exists rule | rule in policy.forbidden :: LiesIn(policy, key.importer, rule.from) && LiesIn(policy, key.importee, rule.to)
  }

  lemma TrimMeans(address: string, dir: string)
    ensures TrimPrefix(address, PACKAGE_PREFIX) == dir <==> Addresses(address, dir)
  {
    if PACKAGE_PREFIX <= address { assert address == PACKAGE_PREFIX + address[|PACKAGE_PREFIX|..]; }
    if address == PACKAGE_PREFIX + dir { assert address[|PACKAGE_PREFIX|..] == dir; }
  }

  lemma CutMeans(address: string, file: string)
    ensures FILE_PREFIX <= address && address[|FILE_PREFIX|..] == file <==> address == FILE_PREFIX + file
  {
    if FILE_PREFIX <= address { assert address == FILE_PREFIX + address[|FILE_PREFIX|..]; }
    if address == FILE_PREFIX + file { assert address[|FILE_PREFIX|..] == file; }
  }

  lemma EndsMean(e: ImportEdge, policy: Policy, key: PairKey)
    ensures Ends(e, policy) == Some(key) <==> Imports(e, policy, key)
  {
    if policy.language == Go {
      TrimMeans(e.from, key.importer);
      TrimMeans(e.to, key.importee);
    } else {
      CutMeans(e.from, key.importer);
      CutMeans(e.to, key.importee);
    }
  }

  lemma LiesInMeans(policy: Policy, dir: string, name: string)
    ensures LiesIn(policy, dir, name) <==> MatchLayer(policy.layers, dir).Some? && MatchLayer(policy.layers, dir).value.name == name
  {
    MatchIsFirst(policy.layers, dir, 0);
    forall i: nat | FirstWith(policy.layers, dir, i) ensures MatchLayer(policy.layers, dir) == Some(policy.layers[i]) {
      MatchIsFirst(policy.layers, dir, i);
    }
  }

  lemma ForbidsMeans(policy: Policy, key: PairKey)
    ensures var f, t := MatchLayer(policy.layers, key.importer), MatchLayer(policy.layers, key.importee);
            Forbids(policy, key) <==> f.Some? && t.Some? && Forbidden(f.value.name, t.value.name) in policy.forbidden
  {
    var f, t := MatchLayer(policy.layers, key.importer), MatchLayer(policy.layers, key.importee);
    if Forbids(policy, key) {
      var rule :| rule in policy.forbidden && LiesIn(policy, key.importer, rule.from) && LiesIn(policy, key.importee, rule.to);
      LiesInMeans(policy, key.importer, rule.from);
      LiesInMeans(policy, key.importee, rule.to);
      assert rule == Forbidden(f.value.name, t.value.name);
    }
    if f.Some? && t.Some? && Forbidden(f.value.name, t.value.name) in policy.forbidden {
      LiesInMeans(policy, key.importer, f.value.name);
      LiesInMeans(policy, key.importee, t.value.name);
    }
  }

  lemma PairMeans(e: ImportEdge, policy: Policy, key: PairKey)
    ensures ForbiddenPair(e, policy) == Some(key) <==> Imports(e, policy, key) && Forbids(policy, key)
  {
    EndsMean(e, policy, key);
    ForbidsMeans(policy, key);
  }

  lemma KeyMeans(edges: seq<ImportEdge>, policy: Policy, key: PairKey)
    ensures key in Keys(edges, PairOf(policy)) <==> Forbids(policy, key) && exists e | e in edges :: Imports(e, policy, key)
  {
    if key in Keys(edges, PairOf(policy)) {
      GroupNonEmpty(edges, PairOf(policy), key);
      var e := Group(edges, PairOf(policy), key)[0];
      GroupMembers(edges, PairOf(policy), key, e);
      PairMeans(e, policy, key);
    }
    if Forbids(policy, key) && exists e | e in edges :: Imports(e, policy, key) {
      var e :| e in edges && Imports(e, policy, key);
      PairMeans(e, policy, key);
      GroupMembers(edges, PairOf(policy), key, e);
      GroupNonEmpty(edges, PairOf(policy), key);
    }
  }

  /** A pair is reported exactly when some edge the rules look at goes from the one to the other and some rule forbids the
      layer of the first to import the layer of the second. */
  lemma ReportedExactlyWhen(edges: seq<ImportEdge>, policy: Policy, key: PairKey)
    ensures (exists v | v in Violations(edges, policy) :: v.key == key) <==>
            Forbids(policy, key) && exists e | e in edges :: Imports(e, policy, key)
  {
    ReportedKeys(edges, policy);
    KeyMeans(edges, policy, key);
    assert key in Reported(Violations(edges, policy)) <==> exists v | v in Violations(edges, policy) :: v.key == key;
  }

  /** A violation names the layers of its two ends, its anchor is the textually least site of its edges, and it is marked
      exactly when all of them are type-only. */
  lemma ViolationShows(edges: seq<ImportEdge>, policy: Policy, v: Violation)
    requires v in Violations(edges, policy)
    ensures LiesIn(policy, v.key.importer, v.layerFrom) && LiesIn(policy, v.key.importee, v.layerTo) && v.language == policy.language
    ensures exists e | e in edges && Imports(e, policy, v.key) ::
              v.anchor == ParseSite(e.site) && forall f | f in edges && Imports(f, policy, v.key) :: TextAtMost(e.site, f.site)
    ensures v.removedIfSet <==> forall e | e in edges && Imports(e, policy, v.key) :: e.kind == "type_only"
  {
    ViolationMembers(edges, policy, v);
    KeyMeans(edges, policy, v.key);
    ForbidsMeans(policy, v.key);
    LiesInMeans(policy, v.key.importer, v.layerFrom);
    LiesInMeans(policy, v.key.importee, v.layerTo);
    GroupIs(edges, policy, v.key);
    GroupNonEmpty(edges, PairOf(policy), v.key);
    LeastSite(Group(edges, PairOf(policy), v.key));
  }

  lemma GroupIs(edges: seq<ImportEdge>, policy: Policy, key: PairKey)
    requires Forbids(policy, key)
    ensures forall e :: e in Group(edges, PairOf(policy), key) <==> e in edges && Imports(e, policy, key)
  {
    forall e ensures e in Group(edges, PairOf(policy), key) <==> e in edges && Imports(e, policy, key) {
      GroupMembers(edges, PairOf(policy), key, e);
      PairMeans(e, policy, key);
    }
  }

  lemma LeastSite(group: seq<ImportEdge>)
    requires group != []
    ensures SortedSites(group) != []
    ensures exists e | e in group :: e.site == SortedSites(group)[0] && forall f | f in group :: TextAtMost(e.site, f.site)
  {
    var sites := SortedSites(group);
    TextLaws();
    StableSortPermutes(CompareText, Map(Site, group));
    StableSortAscending(CompareText, Map(Site, group));
    assert sites[0] in multiset(sites) && sites[0] in multiset(Map(Site, group));
    var i :| 0 <= i < |group| && Map(Site, group)[i] == sites[0];
    forall f | f in group ensures TextAtMost(group[i].site, f.site) {
      var k :| 0 <= k < |group| && group[k] == f;
      assert Map(Site, group)[k] in multiset(Map(Site, group)) && f.site in multiset(sites);
      var n :| 0 <= n < |sites| && sites[n] == f.site;
      if n > 0 { TextAtMostExactly(sites[0], sites[n]); }
    }
    assert group[i] in group;
  }

  /** The violations come by importer, then by importee. */
  lemma ViolationsAscend(edges: seq<ImportEdge>, policy: Policy, i: nat, j: nat)
    requires i < j < |Violations(edges, policy)|
    ensures var a, b := Violations(edges, policy)[i].key, Violations(edges, policy)[j].key;
            TextLess(a.importer, b.importer) || (a.importer == b.importer && TextAtMost(a.importee, b.importee))
  {
    KeyLaws();
    SortedSetHolds(CompareKeys, Keys(edges, PairOf(policy)));
    KeyOrderMeans(SortedSet(CompareKeys, Keys(edges, PairOf(policy)))[i], SortedSet(CompareKeys, Keys(edges, PairOf(policy)))[j]);
  }

  lemma KeyOrderMeans(a: PairKey, b: PairKey)
    requires CompareKeys(a, b) <= 0
    ensures TextLess(a.importer, b.importer) || (a.importer == b.importer && TextAtMost(a.importee, b.importee))
  {
    var cs := [CompareText(a.importer, b.importer), CompareText(a.importee, b.importee)];
    assert cs[0..] == cs && cs[2..] == [];
    OrTail(cs, 0); OrTail(cs, 1);
    TextLessExactly(a.importer, b.importer); TextDecides(a.importer, b.importer);
    TextAtMostExactly(a.importee, b.importee);
  }

  /** The notes come by path, then row, then message. */
  lemma NotesAscend(fates: seq<Fate>, i: nat, j: nat)
    requires i < j < |DiagnosticsOf(fates).notes|
    ensures var a, b := DiagnosticsOf(fates).notes[i], DiagnosticsOf(fates).notes[j];
            TextLess(a.path, b.path) || (a.path == b.path && (a.row < b.row || (a.row == b.row && TextAtMost(a.message, b.message))))
  {
    NoteLaws();
    StableSortAscending(CompareNotes, NotesOf(fates));
    NoteOrderMeans(DiagnosticsOf(fates).notes[i], DiagnosticsOf(fates).notes[j]);
  }

  lemma NoteOrderMeans(a: Note, b: Note)
    requires CompareNotes(a, b) <= 0
    ensures TextLess(a.path, b.path) || (a.path == b.path && (a.row < b.row || (a.row == b.row && TextAtMost(a.message, b.message))))
  {
    var cs := NoteParts(a, b);
    assert cs[0..] == cs && cs[3..] == [];
    OrTail(cs, 0); OrTail(cs, 1); OrTail(cs, 2);
    TextLessExactly(a.path, b.path); TextDecides(a.path, b.path);
    TextAtMostExactly(a.message, b.message);
  }

  // ----- edges that are not evaluated -----

  /** The edge is one that layer rules look at, and it leaves a file inside some layer. */
  ghost predicate Leaves(e: ImportEdge, policy: Policy, importer: string) {
    && (|| e.kind == "import" || e.kind == "reexport" || e.kind == "commonjs_require" || e.kind == "dynamic_import"
        || (e.kind == "type_only" && !policy.excludeTypeOnly))
    && e.from == "file:" + importer && exists name :: LiesIn(policy, importer, name)
  }

  lemma LeavesMeans(e: ImportEdge, policy: Policy, specs: Specifiers, importer: string)
    ensures Leaves(e, policy, importer) ==> FateOf(e, policy, specs) == TargetFate(e, importer, specs)
    ensures FateOf(e, policy, specs) != Ignored ==> exists file :: Leaves(e, policy, file)
  {
    CutMeans(e.from, importer);
    if exists name :: LiesIn(policy, importer, name) {
      var name :| LiesIn(policy, importer, name);
      LiesInMeans(policy, importer, name);
    }
    if FateOf(e, policy, specs) != Ignored {
      var file := e.from[|FILE_PREFIX|..];
      CutMeans(e.from, file);
      LiesInMeans(policy, file, MatchLayer(policy.layers, file).value.name);
      assert Leaves(e, policy, file);
    }
  }

  /** What becomes of an edge that leaves a layer's file, by the form of its target; no other edge counts. */
  lemma FatesMean(e: ImportEdge, policy: Policy, specs: Specifiers, importer: string, rest: string)
    requires Leaves(e, policy, importer)
    ensures e.to == "file:" + rest ==> FateOf(e, policy, specs) == Evaluated
    ensures e.to == "external:" + rest ==> FateOf(e, policy, specs) == External
    ensures e.to == "unresolved:" + rest ==>
              if specs.nonSource(rest) then FateOf(e, policy, specs) == NonSource
              else FateOf(e, policy, specs).Noted? && Tells(FateOf(e, policy, specs).note, e, importer, UnresolvedImport)
    ensures e.to == "nonliteral:" + rest ==>
              FateOf(e, policy, specs).Noted? && Tells(FateOf(e, policy, specs).note, e, importer, NonLiteralLoad)
  {
    LeavesMeans(e, policy, specs, importer);
    assert e.to == "file:" + rest ==> e.to[0] == 'f';
    assert e.to == "external:" + rest ==> e.to[0] == 'e';
    assert e.to == "unresolved:" + rest ==> e.to[0] == 'u' && e.to[|"unresolved:"|..] == rest;
    assert e.to == "nonliteral:" + rest ==> e.to[0] == 'n' && e.to[|"nonliteral:"|..] == rest;
  }

  /** The note is of the kind, about the importer, at the row of the edge's site. */
  predicate Tells(n: Note, e: ImportEdge, importer: string, kind: NoteKind) {
    n.kind == kind && n.path == importer && n.row == ParseSite(e.site).row
  }
}
