/** Layer-violation rules over Go and TypeScript import edges (pkg/codesignal/rule_layer_violation.go,
    rule_layer_violation_go_edges.go, rule_layer_violation_ts_edges.go, rule_layer_violation_match.go). */
module LayerRules {
  import opened Options
  import opened Grouping
  import opened Ordering
  import opened LayerMembership
  import opened FieldEncoding
  import Signals

  datatype ImportEdge = ImportEdge(from: string, to: string, kind: string, site: string)

  datatype Forbidden = Forbidden(from: string, to: string)

  datatype Language = Go | TypeScript

  /** `language` says which of the two evaluators reads the policy. */
  datatype Policy = Policy(language: Language, layers: seq<Layer>, forbidden: seq<Forbidden>, excludeTypeOnly: bool)

  datatype PairKey = PairKey(importer: string, importee: string)

  /** A path and a row counted from zero. */
  datatype Location = Location(path: string, row: nat)

  /** One reported change: the first site is its anchor, the others its related locations. `removedIfSet` is
      the marker that the type-only option would remove the finding. */
  datatype Violation = Violation(key: PairKey, language: Language, layerFrom: string, layerTo: string, anchor: Location,
                                 related: seq<Location>, removedIfSet: bool)

  const PACKAGE_PREFIX := "package:"
  const FILE_PREFIX := "file:"

  predicate EvaluatedTSKind(kind: string, excludeTypeOnly: bool) {
    kind in {"import", "reexport", "commonjs_require", "dynamic_import"} || (kind == "type_only" && !excludeTypeOnly)
  }

  function TrimPrefix(s: string, prefix: string): string {
    if prefix <= s then s[|prefix|..] else s
  }

  /** The two ends of an eligible edge: Go takes internal edges and trims the package prefix if it is there, TypeScript
      takes the evaluated kinds between file addresses only. */
  function Ends(e: ImportEdge, policy: Policy): Option<PairKey> {
    match policy.language
    case Go =>
      if e.kind == "internal" then Some(PairKey(TrimPrefix(e.from, PACKAGE_PREFIX), TrimPrefix(e.to, PACKAGE_PREFIX))) else None
    case TypeScript =>
      if EvaluatedTSKind(e.kind, policy.excludeTypeOnly) && FILE_PREFIX <= e.from && FILE_PREFIX <= e.to
      then Some(PairKey(e.from[|FILE_PREFIX|..], e.to[|FILE_PREFIX|..])) else None
  }

  /** The pair an edge violates, if it is eligible and its layers are forbidden. */
  function ForbiddenPair(e: ImportEdge, policy: Policy): Option<PairKey> {
    match Ends(e, policy)
    case None => None
    case Some(key) =>
      match (MatchLayer(policy.layers, key.importer), MatchLayer(policy.layers, key.importee))
      case (Some(f), Some(t)) => if Forbidden(f.name, t.name) in policy.forbidden then Some(key) else None
      case _ => None
  }

  function LayerName(policy: Policy, file: string): string {
    match MatchLayer(policy.layers, file) case Some(l) => l.name case None => ""
  }

  // ----- sites -----

  function LastColon(s: string): (k: Option<nat>)
    ensures k.Some? ==> k.value < |s| && s[k.value] == ':' && ':' !in s[k.value + 1..]
    ensures k.None? ==> ':' !in s
  {
    if s == "" then None else if s[|s| - 1] == ':' then Some(|s| - 1) else LastColon(s[..|s| - 1])
  }

  /** A site is a file, a colon and a row counted from one; whatever is not has row zero. */
  function ParseSite(site: string): Location {
    match LastColon(site)
    case None => Location(site, 0)
    case Some(k) =>
      match Signals.Atoi(site[k + 1..])
      case Some(line) => Location(site[..k], if line > 0 then line - 1 else 0)
      case None => Location(site[..k], 0)
  }

  lemma LastColonSnoc(s: string, c: char)
    requires c != ':'
    ensures LastColon(s + [c]) == LastColon(s)
  {
    assert (s + [c])[..|s|] == s;
  }

  lemma {:induction false} ColonBefore(before: string, after: string)
    requires ':' !in after
    ensures LastColon(before + ":" + after) == Some(|before|)
  {
    if after == "" {
      assert before + ":" + after == before + ":";
    } else {
      var n := |after| - 1;
      ColonBefore(before, after[..n]);
      assert after[n] in after;
      LastColonSnoc(before + ":" + after[..n], after[n]);
      assert before + ":" + after[..n] + [after[n]] == before + ":" + after;
    }
  }

  /** What an importer prints as a site is read back, whatever the path is. */
  lemma ParseUndoesPrint(path: string, row: nat)
    requires row + 1 < 0x8000_0000_0000_0000
    ensures ParseSite(path + ":" + Itoa(row + 1)) == Location(path, row)
  {
    Signals.AtoiUndoesItoa(row + 1);
    ColonBefore(path, Itoa(row + 1));
    var s := path + ":" + Itoa(row + 1);
    assert s[..|path|] == path && s[|path| + 1..] == Itoa(row + 1);
  }

  function Where(e: ImportEdge): Location {
    ParseSite(e.site)
  }

  // ----- the result as a value -----

  /** Groups edges by the pair they violate. */
  function PairOf(policy: Policy): ImportEdge -> Option<PairKey> {
    (e: ImportEdge) => ForbiddenPair(e, policy)
  }

  function Site(e: ImportEdge): string {
    e.site
  }

  function SortedSites(group: seq<ImportEdge>): seq<string> {
    StableSort(CompareText, Map(Site, group))
  }

  predicate AllTypeOnly(group: seq<ImportEdge>) {
    group != [] && forall e | e in group :: e.kind == "type_only"
  }

  function ViolationOf(key: PairKey, group: seq<ImportEdge>, policy: Policy): Violation {
    var sites := SortedSites(group);
    Violation(key, policy.language, LayerName(policy, key.importer), LayerName(policy, key.importee),
              ParseSite(if sites == [] then "" else sites[0]), if sites == [] then [] else Map(ParseSite, sites[1..]),
              AllTypeOnly(group))
  }

  function CompareKeys(a: PairKey, b: PairKey): int {
    Or([CompareText(a.importer, b.importer), CompareText(a.importee, b.importee)])
  }

  ghost function ViolationsFor(keys: seq<PairKey>, edges: seq<ImportEdge>, policy: Policy): (r: seq<Violation>)
    ensures |r| == |keys|
    ensures forall i | 0 <= i < |keys| :: r[i] == ViolationOf(keys[i], Group(edges, PairOf(policy), keys[i]), policy)
  {
    seq(|keys|, i requires 0 <= i < |keys| => ViolationOf(keys[i], Group(edges, PairOf(policy), keys[i]), policy))
  }

  ghost function Violations(edges: seq<ImportEdge>, policy: Policy): seq<Violation> {
    ViolationsFor(SortedSet(CompareKeys, Keys(edges, PairOf(policy))), edges, policy)
  }

  lemma KeyLaws()
    ensures Lawful(CompareKeys) && Decisive(CompareKeys)
  {
    forall a, b ensures Mirrors(CompareKeys(a, b), CompareKeys(b, a)) {
      TextMirrors(a.importer, b.importer);
      TextMirrors(a.importee, b.importee);
      OrMirrors([CompareText(a.importer, b.importer), CompareText(a.importee, b.importee)],
                [CompareText(b.importer, a.importer), CompareText(b.importee, a.importee)]);
    }
    forall a, b, c ensures Chains(CompareKeys(a, b), CompareKeys(b, c), CompareKeys(a, c)) {
      TextChains(a.importer, b.importer, c.importer);
      TextChains(a.importee, b.importee, c.importee);
      OrChains([CompareText(a.importer, b.importer), CompareText(a.importee, b.importee)],
               [CompareText(b.importer, c.importer), CompareText(b.importee, c.importee)],
               [CompareText(a.importer, c.importer), CompareText(a.importee, c.importee)]);
    }
    forall a, b ensures CompareKeys(a, b) == 0 <==> a == b {
      TextDecides(a.importer, b.importer);
      TextDecides(a.importee, b.importee);
      var cs := [CompareText(a.importer, b.importer), CompareText(a.importee, b.importee)];
      OrZero(cs);
      if CompareKeys(a, b) == 0 { assert cs[0] == 0 && cs[1] == 0; }
    }
  }

  // ----- the loops -----

  method CollectSites(edges: seq<ImportEdge>) returns (sites: seq<string>)
    ensures sites == Map(Site, edges)
  {
    sites := [];
    for i := 0 to |edges|
      invariant sites == Map(Site, edges)[..i]
    {
      sites := sites + [edges[i].site];
    }
    assert sites == Map(Site, edges);
  }

  method ParseSites(sites: seq<string>) returns (locations: seq<Location>)
    ensures locations == Map(ParseSite, sites)
  {
    locations := [];
    for i := 0 to |sites|
      invariant locations == Map(ParseSite, sites)[..i]
    {
      locations := locations + [ParseSite(sites[i])];
    }
    assert locations == Map(ParseSite, sites);
  }

  method AllEdgesTypeOnly(edges: seq<ImportEdge>) returns (all: bool)
    ensures all <==> AllTypeOnly(edges)
  {
    for i := 0 to |edges|
      invariant forall k | 0 <= k < i :: edges[k].kind == "type_only"
    {
      if edges[i].kind != "type_only" { return false; }
    }
    return |edges| > 0;
  }

  method LayerViolationChange(key: PairKey, edges: seq<ImportEdge>, policy: Policy) returns (v: Violation)
    requires edges != []
    ensures v == ViolationOf(key, edges, policy)
  {
    var sites := CollectSites(edges);
    StableSortPermutes(CompareText, sites);
    sites := StableSort(CompareText, sites);
    var related := ParseSites(sites[1..]);
    var typeOnly := AllEdgesTypeOnly(edges);
    v := Violation(key, policy.language, LayerName(policy, key.importer), LayerName(policy, key.importee),
                   ParseSite(sites[0]), related, typeOnly);
  }

  method EvaluateGoLayerViolations(edges: seq<ImportEdge>, policy: Policy) returns (changes: seq<Violation>)
    ensures changes == Violations(edges, policy.(language := Go))
  {
    changes := Evaluate(edges, policy.(language := Go));
  }

  /** What the two evaluators share. */
  method Evaluate(edges: seq<ImportEdge>, policy: Policy) returns (changes: seq<Violation>)
    ensures changes == Violations(edges, policy)
  {
    if |policy.layers| == 0 || |policy.forbidden| == 0 {
      NoPolicyNoViolation(edges, policy);
      return [];
    }
    var groups := GroupBy(edges, PairOf(policy));
    changes := ReportGroups(edges, policy, groups);
  }

  method ReportGroups(ghost edges: seq<ImportEdge>, policy: Policy, groups: map<PairKey, seq<ImportEdge>>)
    returns (changes: seq<Violation>)
    requires IsGrouped(edges, PairOf(policy), groups) && groups.Keys == Keys(edges, PairOf(policy))
    ensures changes == Violations(edges, policy)
  {
    KeyLaws();
    var keys := KeysSorted(CompareKeys, groups.Keys);
    SortedSetHolds(CompareKeys, groups.Keys);
    changes := ReportKeys(edges, policy, groups, keys);
  }

  method ReportKeys(ghost edges: seq<ImportEdge>, policy: Policy, groups: map<PairKey, seq<ImportEdge>>, keys: seq<PairKey>)
    returns (changes: seq<Violation>)
    requires IsGrouped(edges, PairOf(policy), groups) && forall k | k in keys :: k in groups
    ensures changes == ViolationsFor(keys, edges, policy)
  {
    changes := [];
    for i := 0 to |keys|
      invariant changes == ViolationsFor(keys, edges, policy)[..i]
    {
      var group := groups[keys[i]];
      assert group == Group(edges, PairOf(policy), keys[i]) != [];
      var change := LayerViolationChange(keys[i], group, policy);
      changes := changes + [change];
    }
  }

  lemma NoPolicyNoViolation(edges: seq<ImportEdge>, policy: Policy)
    requires policy.layers == [] || policy.forbidden == []
    ensures Violations(edges, policy) == []
  {
    assert Keys(edges, PairOf(policy)) == {};
  }

  // ----- the main results -----

  lemma ViolationsHold(edges: seq<ImportEdge>, policy: Policy)
    ensures var keys := SortedSet(CompareKeys, Keys(edges, PairOf(policy)));
            && multiset(keys) == multiset(Keys(edges, PairOf(policy)))
            && (forall i, j | 0 <= i < j < |keys| :: keys[i] != keys[j])
            && forall k :: k in keys <==> k in Keys(edges, PairOf(policy))
  {
    KeyLaws();
    SortedSetHolds(CompareKeys, Keys(edges, PairOf(policy)));
    NoRepeats(SortedSet(CompareKeys, Keys(edges, PairOf(policy))), Keys(edges, PairOf(policy)));
  }

  /** The order of the edges does not show in the report. */
  lemma EdgeOrderIsInvisible(edges: seq<ImportEdge>, shuffled: seq<ImportEdge>, policy: Policy)
    requires multiset(edges) == multiset(shuffled)
    ensures Violations(edges, policy) == Violations(shuffled, policy)
  {
    var mark := PairOf(policy);
    KeysPermute(edges, shuffled, mark);
    forall key ensures ViolationOf(key, Group(edges, mark, key), policy) == ViolationOf(key, Group(shuffled, mark, key), policy) {
      GroupsPermute(edges, shuffled, mark, key);
      SameGroupSameViolation(key, Group(edges, mark, key), Group(shuffled, mark, key), policy);
    }
    SameViolations(SortedSet(CompareKeys, Keys(edges, mark)), edges, shuffled, policy);
  }

  lemma SameViolations(keys: seq<PairKey>, edges: seq<ImportEdge>, shuffled: seq<ImportEdge>, policy: Policy)
    requires forall key :: ViolationOf(key, Group(edges, PairOf(policy), key), policy)
                           == ViolationOf(key, Group(shuffled, PairOf(policy), key), policy)
    ensures ViolationsFor(keys, edges, policy) == ViolationsFor(keys, shuffled, policy)
  {
  }

  lemma SameGroupSameViolation(key: PairKey, group: seq<ImportEdge>, group': seq<ImportEdge>, policy: Policy)
    requires multiset(group) == multiset(group')
    ensures ViolationOf(key, group, policy) == ViolationOf(key, group', policy)
  {
    TextLaws();
    MapPermutes(Site, group, group');
    SortCanonical(CompareText, Map(Site, group), Map(Site, group'));
    assert |group| == |multiset(group)| == |multiset(group')| == |group'|;
    forall e ensures e in group <==> e in group' {
      assert e in group <==> e in multiset(group);
      assert e in group' <==> e in multiset(group');
    }
  }

  /** The pairs a report names. */
  ghost function Reported(vs: seq<Violation>): set<PairKey> {
    set v | v in vs :: v.key
  }

  ghost function Unmarked(vs: seq<Violation>): set<PairKey> {
    set v | v in vs && !v.removedIfSet :: v.key
  }

  lemma ReportedKeys(edges: seq<ImportEdge>, policy: Policy)
    ensures Reported(Violations(edges, policy)) == Keys(edges, PairOf(policy))
    ensures Unmarked(Violations(edges, policy)) ==
            set k | k in Keys(edges, PairOf(policy)) && !AllTypeOnly(Group(edges, PairOf(policy), k))
  {
    forall v ensures v in Violations(edges, policy) <==>
                     v.key in Keys(edges, PairOf(policy)) && v == ViolationOf(v.key, Group(edges, PairOf(policy), v.key), policy) {
      ViolationMembers(edges, policy, v);
    }
    forall k | k in Keys(edges, PairOf(policy))
      ensures ViolationOf(k, Group(edges, PairOf(policy), k), policy) in Violations(edges, policy) {}
  }

  lemma ViolationMembers(edges: seq<ImportEdge>, policy: Policy, v: Violation)
    ensures v in Violations(edges, policy) <==>
            v.key in Keys(edges, PairOf(policy)) && v == ViolationOf(v.key, Group(edges, PairOf(policy), v.key), policy)
  {
    ViolationsHold(edges, policy);
    MembersFor(SortedSet(CompareKeys, Keys(edges, PairOf(policy))), edges, policy, v);
  }

  lemma MembersFor(keys: seq<PairKey>, edges: seq<ImportEdge>, policy: Policy, v: Violation)
    ensures v in ViolationsFor(keys, edges, policy) <==>
            v.key in keys && v == ViolationOf(v.key, Group(edges, PairOf(policy), v.key), policy)
  {
    var vs := ViolationsFor(keys, edges, policy);
    if v.key in keys {
      var i :| 0 <= i < |keys| && keys[i] == v.key;
      assert vs[i] == ViolationOf(v.key, Group(edges, PairOf(policy), v.key), policy);
    }
  }

  /** The type-only option is predicted exactly, in either language: with it set, the reported pairs are precisely those that are
      reported without it and lack the marker. */
  lemma TypeOnlyPredicted(edges: seq<ImportEdge>, policy: Policy)
    ensures Reported(Violations(edges, policy.(excludeTypeOnly := true))) ==
            Unmarked(Violations(edges, policy.(excludeTypeOnly := false)))
  {
    var all, strict := policy.(excludeTypeOnly := false), policy.(excludeTypeOnly := true);
    ReportedKeys(edges, all);
    ReportedKeys(edges, strict);
    forall key ensures key in Keys(edges, PairOf(strict)) <==>
                       key in Keys(edges, PairOf(all)) && !AllTypeOnly(Group(edges, PairOf(all), key)) {
      SurvivesExactlyWhen(edges, policy, key);
    }
  }

  lemma ExcludingDropsTypeOnly(e: ImportEdge, policy: Policy)
    ensures ForbiddenPair(e, policy.(excludeTypeOnly := true)) ==
            if e.kind == "type_only" then None else ForbiddenPair(e, policy.(excludeTypeOnly := false))
  {
  }

  lemma SurvivesExactlyWhen(edges: seq<ImportEdge>, policy: Policy, key: PairKey)
    ensures var all, strict := policy.(excludeTypeOnly := false), policy.(excludeTypeOnly := true);
            key in Keys(edges, PairOf(strict)) <==>
            key in Keys(edges, PairOf(all)) && !AllTypeOnly(Group(edges, PairOf(all), key))
  {
    var all, strict := policy.(excludeTypeOnly := false), policy.(excludeTypeOnly := true);
    GroupNonEmpty(edges, PairOf(all), key);
    GroupNonEmpty(edges, PairOf(strict), key);
    var group, kept := Group(edges, PairOf(all), key), Group(edges, PairOf(strict), key);
    forall e ensures e in kept <==> e in group && e.kind != "type_only" {
      GroupMembers(edges, PairOf(all), key, e);
      GroupMembers(edges, PairOf(strict), key, e);
      ExcludingDropsTypeOnly(e, policy);
    }
    if kept != [] { assert kept[0] in group; }
    if group != [] && !AllTypeOnly(group) {
      var e :| e in group && e.kind != "type_only";
      assert e in kept;
    }
  }

  /** All locations of a report, anchors and related ones alike. */
  function SitesOf(vs: seq<Violation>): seq<Location> {
    if vs == [] then [] else SitesOf(vs[..|vs| - 1]) + [vs[|vs| - 1].anchor] + vs[|vs| - 1].related
  }

  lemma MapHead<A, B>(f: A -> B, s: seq<A>)
    requires s != []
    ensures Map(f, s) == [f(s[0])] + Map(f, s[1..])
  {
  }

  lemma WhereIsParsedSite(group: seq<ImportEdge>)
    ensures Map(ParseSite, Map(Site, group)) == Map(Where, group)
  {
  }

  lemma SitesOfOne(key: PairKey, group: seq<ImportEdge>, policy: Policy)
    requires group != []
    ensures var v := ViolationOf(key, group, policy);
            multiset([v.anchor] + v.related) == multiset(Map(Where, group))
  {
    StableSortPermutes(CompareText, Map(Site, group));
    var sites := SortedSites(group);
    MapPermutes(ParseSite, sites, Map(Site, group));
    MapHead(ParseSite, sites);
    WhereIsParsedSite(group);
  }

  lemma {:induction false} SitesOfGroups(keys: seq<PairKey>, edges: seq<ImportEdge>, policy: Policy)
    requires forall k | k in keys :: Group(edges, PairOf(policy), k) != []
    ensures multiset(SitesOf(ViolationsFor(keys, edges, policy))) == multiset(Map(Where, GroupsOf(edges, PairOf(policy), keys)))
  {
    if keys != [] {
      var n := |keys| - 1;
      SitesOfGroups(keys[..n], edges, policy);
      assert keys[n] in keys;
      var group := Group(edges, PairOf(policy), keys[n]);
      SitesOfOne(keys[n], group, policy);
      MapConcat(Where, GroupsOf(edges, PairOf(policy), keys[..n]), group);
      assert ViolationsFor(keys, edges, policy)[..n] == ViolationsFor(keys[..n], edges, policy);
      LastSites(ViolationsFor(keys, edges, policy));
    }
  }

  lemma LastSites(vs: seq<Violation>)
    requires vs != []
    ensures var v := vs[|vs| - 1];
            multiset(SitesOf(vs)) == multiset(SitesOf(vs[..|vs| - 1])) + multiset([v.anchor] + v.related)
  {
  }

  /** Every eligible edge's site appears exactly once in the whole report, and no other site does. */
  lemma EverySiteOnce(edges: seq<ImportEdge>, policy: Policy)
    ensures multiset(SitesOf(Violations(edges, policy))) == multiset(Map(Where, Labelled(edges, PairOf(policy))))
  {
    var mark := PairOf(policy);
    var keys := SortedSet(CompareKeys, Keys(edges, mark));
    ViolationsHold(edges, policy);
    forall k | k in keys ensures Group(edges, mark, k) != [] { GroupNonEmpty(edges, mark, k); }
    SitesOfGroups(keys, edges, policy);
    GroupsPartition(edges, mark, keys);
    MapPermutes(Where, GroupsOf(edges, mark, keys), Labelled(edges, mark));
  }

  /** Change `i` is the only one of the pair, and shows the site. */
  ghost predicate ShownAt(vs: seq<Violation>, i: nat, key: PairKey, site: Location) {
    && i < |vs| && (site == vs[i].anchor || site in vs[i].related)
    && forall j | 0 <= j < |vs| :: vs[j].key == key <==> j == i
  }

  lemma ViolationOfPair(edges: seq<ImportEdge>, policy: Policy, key: PairKey)
    returns (i: nat)
    requires key in Keys(edges, PairOf(policy))
    ensures i < |Violations(edges, policy)|
    ensures Violations(edges, policy)[i] == ViolationOf(key, Group(edges, PairOf(policy), key), policy)
    ensures forall j | 0 <= j < |Violations(edges, policy)| :: Violations(edges, policy)[j].key == key <==> j == i
  {
    ViolationsHold(edges, policy);
    var keys := SortedSet(CompareKeys, Keys(edges, PairOf(policy)));
    i :| 0 <= i < |keys| && keys[i] == key;
    forall j | 0 <= j < |keys| ensures Violations(edges, policy)[j].key == key <==> j == i {
      assert Violations(edges, policy)[j].key == keys[j];
    }
  }

  /** ... and in the one change that names the edge's own pair. */
  lemma OneChangePerPair(edges: seq<ImportEdge>, policy: Policy, e: ImportEdge)
    requires e in edges && ForbiddenPair(e, policy).Some?
    ensures exists i :: ShownAt(Violations(edges, policy), i, ForbiddenPair(e, policy).value, Where(e))
  {
    var key := ForbiddenPair(e, policy).value;
    var m :| 0 <= m < |edges| && edges[m] == e;
    assert key in Keys(edges, PairOf(policy));
    var i := ViolationOfPair(edges, policy, key);
    SiteShown(key, edges, policy, e);
    assert ShownAt(Violations(edges, policy), i, key, Where(e));
  }

  lemma SiteShown(key: PairKey, edges: seq<ImportEdge>, policy: Policy, e: ImportEdge)
    requires e in edges && ForbiddenPair(e, policy) == Some(key)
    ensures var v := ViolationOf(key, Group(edges, PairOf(policy), key), policy);
            Where(e) == v.anchor || Where(e) in v.related
  {
    var group := Group(edges, PairOf(policy), key);
    GroupMembers(edges, PairOf(policy), key, e);
    var i :| 0 <= i < |group| && group[i] == e;
    StableSortPermutes(CompareText, Map(Site, group));
    assert Map(Site, group)[i] == e.site;
    assert e.site in multiset(Map(Site, group)) && e.site in multiset(SortedSites(group));
    var sites := SortedSites(group);
    var k :| 0 <= k < |sites| && sites[k] == e.site;
    if k > 0 { assert Map(ParseSite, sites[1..])[k - 1] == Where(e); }
  }
}
