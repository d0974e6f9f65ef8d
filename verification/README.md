# Coach, modelled and proved

Coach is a deterministic code analyser with a job platform around it. This project models its hardest
behaviour in Dafny and proves what its documentation and tests promise:

- the layer-bypass and reachability searches over the call graph (`CallGraph`, `ShortestPaths`, `LayerBypass`,
  `LayerBypassResult`, `Reachability`, `LayerMembership`): shortest paths, vertex cuts, exact accounting under one
  shared node budget and cancellation;
- the signal and project-change pipeline (`Signals`, `Ranking`, `RankingOrder`, `Priority`, `FieldEncoding`,
  `SignalIdentity`, `FileChanges`, `FactOrder`, `LayerRules`, `LayerRuleMeaning`, `UnevaluatedEdges`, `LayerFindings`,
  `ProjectLifecycle`, `LifecycleMeaning`, `ReportDiagnostics`, `ReportAccounting`, `ReportMeaning`, `ReportIdentity`):
  lifecycles, fingerprints, canonical order, layer rules, counters, narrowed views, distinct ids over a whole report
  and its independence of the order of the files;
- judgment packing and reply mapping (`Packing`, `PackPaths`, `PackOptimal`, `BatchReplies`);
- the "show everything" command (`SeeAllCommand`, `SeeAllMeaning`, `ShellWords`), against the token grammar of Go's
  `flag` package and the quoting and token rules of POSIX.1-2017, Shell Command Language, sections 2.2 and 2.3;
- the bounded tool-call broker under every interleaving (`Broker`, `BrokerRuns`, `BrokerRunsAlone`);
- the claim and lease protocol (`JobStore`, `LeaseFencing`).

`Options`, `Ordering`, `Grouping` and `Filtering` hold what these share: optional values, comparison laws, stable
sorting, grouping and filtering of lists.

`dafny verify dfyconfig.toml` checks the whole project.

## Conventions

- A Go string is a `string` with one `char` per byte, so string order is Go's bytewise order. Go integers are
  unbounded here, except the 32-bit length prefix of the field encoding and the 64-bit range of `strconv.Atoi`.
- Code that updates state in place is a class or a method over an array with loops; its `ensures` equates the new state
  with a specification function or predicate, and the lemmas are about that. Map iteration is a loop that picks any
  remaining key.
- `ctx.Err()` is a monotone oracle: a deadline counted in polls, after which every poll reports cancellation.
- Hashes, path and evidence normalisers, `path.Dir` and the "unsafe to print" test are parameters. The hash is taken as
  injective where a lemma says so; nothing is assumed of the others.
- The broker's environment (context, clock, schema validation, handlers, model) is the class `World`, whose methods
  return anything at all and keep what was asked and answered. In `BrokerRuns` one step is what a goroutine does
  between two releases of the lock.
- `slices.SortStableFunc` and `sort.SliceStable` are `Ordering.StableSort`. For `sort.Slice` and `sort.Strings` the
  order is proved unique (`SortCanonical`, `AscendingUnique`, `WitnessOrderUnique`), so the sorting algorithm is
  irrelevant.

## Findings

- Claim and sweep: the interface (internal/coachapi/claim.go:36-37, 79-80) speaks of a heartbeat *older than*
  `staleAfter`; the store reclaims at an age *equal to* `staleAfter` already
  (internal/coachapi/store/memory/claim.go:26, reconcile.go:34). The model follows the code. A lease survives a run
  exactly under `LeaseFencing.Undisturbed`; with the smallest accepted timings a heartbeat that is exactly three
  intervals old loses the job (`ThreeIntervalsIsTooLate`), a younger one never does (`AttendedLeaseIsKept`).
- The interface leaves open what a second completion under a still matching lease does. The in-memory store's fence asks
  for a running job, so no fenced write, claim or sweep changes a finished job. The unfenced `RecordCompletion` and
  `RecordFailure` of the same store (internal/coachapi/store/memory/store.go:95-135) do: they overwrite it, end live
  leases and can lower the attempt (`CompletionOverwritesFinished`). A finished job still stays finished
  (`FinishedIsFinal`), and attempts are monotone exactly when no unfenced completion rolls one back
  (`AttemptsNeverDecreaseExactlyWhen`). Leases stay unique all the same (`LeasesAreUnique`).
- The project summary has no counter for unknown changes (pkg/codesignal/project_report.go:99-105), so it covers every
  change exactly when none is unknown (`FourCounters`).
- Canonical facts: the comparison leaves the provenance language out, so input order is invisible exactly when no two
  facts differ in nothing but their language (`FactOrder.OrderFreeExactlyWhen`). Facts of one language satisfy that
  (`SortedFactsCanonical`).
- Vertex cut: when source and sink coincide the pair gets a witness whatever the layer is, because a single-node path
  has no edge to delete; `VertexCut` states this case, `CompleteReportDecidesCut` is about different ends. A witness
  also needs every node before the sink to have a known position.
- Flag removal: for argument lists that parse, the kept words parse to the same meaning. Of the lists that do not
  parse, removal repairs exactly those whose only fault is a narrowing flag at the very end without its value
  (`CommandParsesExactlyWhen`).
- Layer order: matching ignores the order of the layers when no prefix of one layer contains a prefix of another, and
  for overlapping layers there is always a directory on which the order decides (`OverlapDependsOnOrder`).
- Layer violations: a semantic key joins importer and importee by an arrow, so a path with an arrow in it can give two
  violating pairs one key, and the lifecycle then drops one of them as a duplicate. `SameKeyExactlyWhen` and
  `EveryViolationKeptExactlyWhen` say exactly when, `ArrowsClash` gives two such edges.
- Ranking: the comparison ends with the id, so input order shows exactly when two different signals tie in it and the
  metrics do not tell them apart (`RankingOrder.OrderFreeExactlyWhen`). Distinct ids exclude that, and a report has them
  when its files share no key (`ReportIdentity.ReportIDsDistinct`).
- Diagnostics: the comparison leaves side and revision out, so input order shows exactly when two diagnostics differ in
  nothing else (`ReportDiagnostics.OrderFreeExactlyWhen`). The order of the files never shows
  (`DiagnosticsIgnoreFileOrder`).
- Packing: candidates are sorted by path, row and reference. Two that agree on all three show their order only by moving
  a pack boundary, and can do so exactly when their token estimates differ (`SwapHidesExactlyWhen`,
  `FortyBeforeFourHundred`); otherwise input order is invisible (`AgreeingTwinsOrderFree`).

## Model

| member | source | states |
|---|---|---|
| CallGraph.BuildAdjacency | pkg/projectmodel/callgraph_adjacency.go:6-19 | the adjacency is a function of the set of call facts: neither order nor repeats show |
| CallGraph.CollectCallees | pkg/projectmodel/callgraph_adjacency.go:7-13 | the callers of the facts, each with the set of what it calls |
| CallGraph.SortCallees | pkg/projectmodel/callgraph_adjacency.go:14-17 | each caller's set becomes its one ascending list |
| CallGraph.EdgesAreFacts | pkg/projectmodel/callgraph_adjacency.go:6-19 | an edge is in the adjacency exactly when it is a call fact |
| CallGraph.KeptNeighbors | pkg/projectmodel/callgraph_adjacency.go:40-49 | the neighbours that are not removed, in order |
| CallGraph.RemoveLayerNodes | pkg/projectmodel/callgraph_adjacency.go:26-38 | the adjacency without the removed nodes and without emptied entries |
| CallGraph.WithoutEdges | pkg/projectmodel/callgraph_adjacency.go:26-38 | exactly the edges that touch no removed node survive |
| CallGraph.PathsAvoidRemoved | pkg/projectmodel/callgraph_adjacency.go:26-38 | a call path survives the deletion exactly when it avoids every removed node or has a single node |
| ShortestPaths.BfsFrontier.Enqueue | pkg/projectmodel/callgraph_shortest_paths.go:48-57 | unseen neighbours are queued once each, with the current node as parent |
| ShortestPaths.BfsBudget.Round | pkg/projectmodel/callgraph_shortest_paths.go:28-37 | one round: stops on an expired context or a spent budget, else visits one node and queues its unseen neighbours |
| ShortestPaths.BfsBudget.ShortestPaths | pkg/projectmodel/callgraph_shortest_paths.go:20-40 | the walk, its stop flag, the shared visit counter and the polls equal the walk as a function; cancellation is looked at before the budget |
| ShortestPaths.ReconstructReachabilityPath | pkg/projectmodel/callgraph_shortest_paths.go:61-78 | terminates on every rooted parent map and returns the backtracked path, or nothing when the sink has no parent |
| ShortestPaths.BacktrackUnique | pkg/projectmodel/callgraph_shortest_paths.go:61-78 | a parent map determines the rebuilt path |
| ShortestPaths.WalkLeavesTree | pkg/projectmodel/callgraph_shortest_paths.go:20-40 | even a stopped walk leaves a parent map in which every chain leads back to the source along real edges |
| ShortestPaths.WalkIsExact | pkg/projectmodel/callgraph_shortest_paths.go:20-40 | an unstopped walk has parents for exactly the reachable nodes, and every rebuilt path is shortest |
| ShortestPaths.UnstoppedWalksAgree | pkg/projectmodel/callgraph_shortest_paths.go:20-40 | budget used before and polls made before do not show in an unstopped walk |
| ShortestPaths.WalkCountsVisits | pkg/projectmodel/callgraph_shortest_paths.go:28-38 | nodes visited are nodes found less those still queued, so the shared counter counts each processed node once and never passes a positive cap |
| ShortestPaths.WalkEndsForAReason | pkg/projectmodel/callgraph_shortest_paths.go:27-39 | a walk is stopped exactly when nodes are still queued, and then its last poll had expired or the cap is reached |
| LayerMembership.ContainmentTransitive | pkg/domain/layer_membership.go:19-21 | prefix containment is transitive |
| LayerMembership.ContainsBySegments | pkg/domain/layer_membership.go:19-21 | a prefix other than the root contains a key exactly when its segments lead the key's segments |
| LayerMembership.ContainersNest | pkg/domain/layer_membership.go:19-21 | two prefixes that contain one key contain one another one way or the other |
| LayerMembership.MatchFindsAMember | pkg/codesignal/rule_layer_violation_match.go:30-46 | a match is a layer that contains the directory, and no match means that none does |
| LayerMembership.MatchIsFirst | pkg/codesignal/rule_layer_violation_match.go:22-37 | the match is the first layer, in their order, with a prefix that contains the directory |
| LayerMembership.MatchIgnoresOrder | pkg/codesignal/rule_layer_violation_match.go:22-46 | for layers whose prefixes do not contain one another the order of the layers is irrelevant |
| LayerMembership.OverlapDependsOnOrder | pkg/codesignal/rule_layer_violation_match.go:22-37 | for any other layers two orders disagree on some directory |
| LayerMembership.NewLayerMembership | pkg/domain/layer_membership.go:26-43 | counts all keys and those that no prefix contains |
| LayerMembership.OutsideIsUnplaced | pkg/domain/layer_membership.go:26-43 | the keys counted outside the flattened prefixes are exactly the keys matching places nowhere |
| LayerBypass.RequiredLayerNodeSet | pkg/projectmodel/layer_bypass_membership.go:5-22 | exactly the nodes whose directory lies under the layer |
| LayerBypass.LayerBypassSteps | pkg/projectmodel/layer_bypass_witness_path.go:34-45 | one step per path node, with file and line where the position is known |
| LayerBypass.LayerBypassSearch.CollectWitnesses | pkg/projectmodel/go_layer_bypass_search.go:24-49 | the new counters, flags and witnesses after one source, pair by pair |
| LayerBypass.SearchLayerBypassWitnesses | pkg/projectmodel/go_layer_bypass.go:106-130 | the ambiguous layer truncates everything; otherwise the search record equals the source-by-source function, polls included |
| LayerBypassResult.BuildGoLayerBypass | pkg/projectmodel/go_layer_bypass.go:77-104 | the whole report as a function of the set of call facts and the other inputs |
| LayerBypassResult.CanonicalIgnoresOrder | pkg/domain/model_coverage.go:40-57 | the reported diagnostics are those raised, in an order that does not depend on how they came |
| LayerBypassResult.SourcesAccount | pkg/projectmodel/go_layer_bypass.go:113-124 | from any intermediate state the counters, witnesses and flags are those of the processed sources; the visit cap holds across sources |
| LayerBypassResult.UntruncatedMeansEvaluated | pkg/projectmodel/go_layer_bypass.go:114-127 | a context still live at the end means that no pair was skipped for cancellation |
| LayerBypassResult.EveryPairAccountedFor | pkg/projectmodel/go_layer_bypass_result.go:28-51 | evaluated plus truncated is the processed sources times the sinks, in every run, and the other counts are those of sources, sinks, witnesses and layer nodes |
| LayerBypassResult.CompleteMeansEvaluated | pkg/projectmodel/go_layer_bypass_result.go:34-41 | a complete result evaluated every source with every sink and truncated nothing |
| LayerBypassResult.CompleteExactlyWhen | pkg/projectmodel/go_layer_bypass_result.go:17-34 | complete, in both directions: call graph, sources and directories are complete, the layer is unambiguous, every source was processed and evaluated, and the context was live at the last look |
| LayerBypassResult.WitnessIsBypass | pkg/projectmodel/go_layer_bypass_search.go:31-47 | every witness, however the run ended, shows a real call path that avoids the layer and is as short as any that does, step by step with the known positions; every node before the sink has one |
| LayerBypassResult.VertexCut | pkg/projectmodel/go_layer_bypass.go:83-130 | for an evaluated pair a witness is reported exactly when some call path avoids the layer (or the pair is trivial) and every node before the last on the shown path has a known position |
| LayerBypassResult.DirectBypassIsReported | pkg/projectmodel/layer_bypass_witness_path.go:18-28 | a direct call from a positioned source outside the layer to a sink not in the layer, positioned or not, is reported in every complete run |
| LayerBypassResult.AmbiguityReportedExactlyWhen | pkg/projectmodel/go_layer_bypass_result.go:12-16 | the ambiguity diagnostic is reported exactly when it came in, the layer is ambiguous, or an evaluated, joined pair has a node of unknown position before the end of its shown path |
| LayerBypassResult.CompleteReportDecidesCut | pkg/projectmodel/go_layer_bypass_result.go:12-34 | in a complete, unambiguous report no witness means that every call path goes through the layer, and conversely |
| LayerBypassResult.WitnessOrderUnique | pkg/projectmodel/go_layer_bypass_result.go:21-26 | the source and sink order of the witnesses is the only ascending one |
| LayerBypassResult.WitnessesAscend | pkg/projectmodel/go_layer_bypass_result.go:21-26 | the witnesses come by source, then by sink |
| LayerBypassResult.DiagnosticsAscend | pkg/domain/model_coverage.go:40-57 | reported diagnostics come by code, path and message |
| Reachability.ReachabilityFactsForSource | pkg/projectmodel/go_reachability_search.go:55-77 | a skipped source truncates every pair; otherwise every pair is evaluated and the reached sinks get a fact |
| Reachability.WalkSource | pkg/projectmodel/go_reachability_search.go:33-37 | one source's walk, and whether its pairs are skipped: budget hit, context over or call graph incomplete |
| Reachability.SearchReachabilityFacts | pkg/projectmodel/go_reachability_search.go:25-47 | facts, counters, polls and visits equal the source-by-source function |
| Reachability.ReachabilityPairsAccounted | pkg/projectmodel/go_reachability_search.go:28-46 | evaluated plus truncated is the processed sources times the sinks, and the visit cap holds |
| Reachability.UntruncatedSearchIsTotal | pkg/projectmodel/go_reachability_search.go:28-44 | no truncation over a complete call graph means that every pair was evaluated |
| Reachability.FactShowsShortestPath | pkg/projectmodel/go_reachability_search.go:62-74 | every fact, however the run ended, shows a shortest call path from its source to its sink |
| Reachability.CompleteSearchIsExact | pkg/projectmodel/go_reachability.go:47-52 | in a complete search a pair has a fact exactly when some call path joins it |
| Signals.SignalLaws | pkg/codesignal/sort.go:35-46 | the comparison is a total preorder in which only signals with one id tie |
| Ranking.RankedByMagnitude | pkg/codesignal/sort.go:89-103 | the peers at the given positions in stable order of falling magnitude |
| Ranking.GroupPositions | pkg/codesignal/sort.go:67-79 | every peer group has its positions, ascending, and no others |
| Ranking.RankMetricRulesWithinTiers | pkg/codesignal/sort.go:66-87 | in place: every peer group is ranked over its own positions and every other entry stays |
| Ranking.SortSignals | pkg/codesignal/sort.go:30-33 | in place: the stable sort, then the ranking |
| Ranking.RankedUnique | pkg/codesignal/sort.go:80-86 | the order in which the peer groups are visited does not show |
| Ranking.SortingIsCanonical | pkg/codesignal/sort.go:30-33 | every permutation of signals with distinct ids ends as the same list |
| RankingOrder.SortIsTheResult | pkg/codesignal/sort.go:30-33 | the stable sort followed by the ranking has exactly one result |
| RankingOrder.OrderFreeExactlyWhen | pkg/codesignal/sort.go:30-46 | input order is invisible exactly when any two different signals that tie in the comparison both have a metric, and not the same |
| RankingOrder.DistinctIDsHaveNoTwins | pkg/codesignal/sort.go:35-46 | distinct ids are enough for that |
| Ranking.SortingPermutes | pkg/codesignal/sort.go:30-33 | sorting neither loses nor invents a signal |
| Ranking.TiersStayInOrder | pkg/codesignal/sort.go:35-56 | group, severity and confidence never go back up along the list |
| Ranking.OthersNeverMove | pkg/codesignal/sort.go:68-71 | a signal without a metric stays where the comparison alone puts it, and no position changes rule |
| Ranking.MetricsNonIncreasing | pkg/codesignal/sort.go:89-103 | within a tier the metrics of one rule never rise |
| Priority.GroupsInOrder | pkg/codesignal/sort.go:8-26 | along a ranked list come introduced and changed, existing and changed, other introduced, other existing, resolved, and all other signals, in this order |
| Priority.SeverityNeverRises | pkg/codesignal/severity.go:5-29 | within a group no signal comes after one of a lower place in low, advisory, medium, high; an unknown severity counts as low |
| Priority.ConfidenceNeverRises | pkg/codesignal/signal_rank.go:3-14 | within a group and a severity, high confidence comes before medium, low and any other |
| Priority.PlainSignalsByPlace | pkg/codesignal/sort.go:40-44 | within a tier, signals without a metric come by path, row, column, rule and id |
| Priority.MetricIsRead | pkg/codesignal/metric_rules.go:79-86 | the three metric rules read the number their evidence prints, and no other rule has a metric |
| Priority.MagnitudesFall | pkg/codesignal/sort.go:89-103 | within a tier the printed numbers of one metric rule never rise along the list |
| Priority.EqualMagnitudesByPlace | pkg/codesignal/sort.go:40-44 | signals of one tier and one metric rule that print the same number come by path, row, column, rule and id |
| FieldEncoding.AppendLengthPrefixed | pkg/codesignal/fingerprint.go:27-33 | appends the encoding of one more field |
| FieldEncoding.PrefixIsBigEndian | pkg/codesignal/fingerprint.go:27-33 | a length below 2^32 is its four bytes, the most significant first |
| FieldEncoding.DecodeUndoesEncode | pkg/codesignal/fingerprint.go:27-45 | fields under 2^32 bytes come back exactly |
| FieldEncoding.EncodeInjective | pkg/codesignal/fingerprint.go:27-45 | different field lists have different encodings |
| FieldEncoding.ItoaInjective | pkg/codesignal/fingerprint.go:41 | different ordinals have different decimal texts |
| SignalIdentity.GroupAndOrder | pkg/codesignal/signal_key.go:19-36 | each key's signals, all of them, in stable location order |
| SignalIdentity.ClassifyFileSignals | pkg/codesignal/lifecycle.go:21-66 | the emitted signals as a function of key counts and occurrence ordinals |
| SignalIdentity.TagsDistinct | pkg/codesignal/lifecycle.go:21-66 | no key and ordinal is emitted twice |
| SignalIdentity.FingerprintsDistinct | pkg/codesignal/fingerprint.go:35-45 | within one file change all fingerprints are pairwise distinct |
| SignalIdentity.IDsDistinct | pkg/codesignal/fingerprint.go:47-59 | within one file change all ids are pairwise distinct |
| SignalIdentity.VerdictsHold | pkg/codesignal/lifecycle.go:21-66 | a fingerprint has a lifecycle exactly when the counts of its key give that ordinal that lifecycle |
| SignalIdentity.VerdictsDependOnCounts | pkg/codesignal/lifecycle.go:21-66 | the fingerprint and lifecycle pairs depend on the counts per key only, never on locations |
| SignalIdentity.LifecycleExactly | pkg/codesignal/lifecycle.go:34-66 | with h head and b base signals of a key, occurrence o is existing iff o < min(h, b), introduced iff b = 0 and o < h, unknown iff 0 < b <= o < h, resolved iff h <= o < b; without a base every head occurrence has the lifecycle for that |
| SignalIdentity.HeadAndBaseAreDual | pkg/codesignal/lifecycle.go:21-66 | swapping the sides keeps existing occurrences and resolves exactly those that were introduced or unknown |
| SignalIdentity.OrdinalsFollowLocations | pkg/codesignal/signal_key.go:19-36 | the ordinals of a key follow row, column and byte |
| SignalIdentity.SignalsKeepTheirFields | pkg/codesignal/lifecycle.go:34-66 | a classified signal is the signal at its ordinal with only lifecycle, fingerprint and id set |
| SignalIdentity.OnlyIDsSeeLocations | pkg/codesignal/fingerprint.go:35-59 | occurrences that agree in key and ordinal have one fingerprint, and one id exactly when they also agree in row and column |
| FileChanges.ProcessHeadResult | pkg/codesignal/file_signals.go:3-43 | the head's signals when it parsed, otherwise its diagnostics |
| FileChanges.ValidateChangedRanges | pkg/codesignal/changed_ranges.go:9-27 | the valid ranges, and a diagnostic for every other one |
| FileChanges.MarkChanged | pkg/codesignal/changed_ranges.go:29-49 | a signal is changed exactly when it is not resolved and overlaps a valid range |
| FileChanges.ProcessFileChanges | pkg/codesignal/file_change.go:3-26 | the handed-in diagnostics followed by each file's own, and the marked, classified signals of every eligible file |
| FileChanges.FilesPermute | pkg/codesignal/file_change.go:7-24 | permuted files have permuted signals and permuted diagnostics |
| FileChanges.NotesName | pkg/codesignal/file_change.go:28-47 | a diagnostic of the file pipeline names its file and belongs to no side |
| FactOrder.CompareSlices | pkg/codesignal/project_fact_order.go:29-47 | the length-then-entry loop is lexicographic order |
| FactOrder.FactLaws | pkg/codesignal/project_fact_order.go:7-27 | the comparison is a total preorder; facts tie exactly when they agree on everything but the language |
| FactOrder.CanonicalPathSteps | pkg/codesignal/project_order.go:83-92 | every step keeps its place and has its source locations sorted |
| FactOrder.SortProjectFacts | pkg/codesignal/project_order.go:29-38 | nested arrays sorted first, then the facts |
| FactOrder.FactsAscend | pkg/codesignal/project_fact_order.go:7-27 | sorted facts come by kind, semantic key, evidence, producer and finding kind |
| FactOrder.SameFactSameCanon | pkg/codesignal/project_order.go:72-107 | permuted coverage refs and source locations give one canonical fact |
| FactOrder.SortedFactsCanonical | pkg/codesignal/project_facts_reachability.go:14-26 | for facts of one language, permuting facts, refs or locations does not show |
| FactOrder.OrderFreeExactlyWhen | pkg/codesignal/project_order.go:26-38 | input order is invisible exactly when no two facts differ in the language alone |
| LayerRules.LayerViolationChange | pkg/codesignal/rule_layer_violation.go:143-188 | sorted sites read as locations, the first as anchor and the rest as related ones, the marker exactly when every edge is type-only |
| LayerRules.ParseUndoesPrint | pkg/codesignal/rule_layer_violation.go:190-204 | a printed path and row is read back, colons in the path or not |
| LayerRules.AllEdgesTypeOnly | pkg/codesignal/rule_layer_violation.go:128-135 | some edge, and only type-only ones |
| LayerRules.EvaluateGoLayerViolations | pkg/codesignal/rule_layer_violation.go:61-78 | one change per violating pair of package directories, in key order |
| UnevaluatedEdges.EvaluateTypeScriptLayerViolations | pkg/codesignal/rule_layer_violation.go:105-123 | one change per violating pair of files, in key order, and what became of the other edges; neither without a policy |
| LayerRules.EdgeOrderIsInvisible | pkg/codesignal/rule_layer_violation_ts_edges.go:9-23 | permuting the edges does not change the report |
| LayerRules.ReportedKeys | pkg/codesignal/rule_layer_violation.go:116-121 | the report names exactly the violating pairs |
| LayerRules.TypeOnlyPredicted | pkg/codesignal/rule_layer_violation.go:125-134 | the pairs reported with the option are precisely those reported without it that lack the marker |
| LayerRules.SurvivesExactlyWhen | pkg/codesignal/rule_layer_violation_ts_edges.go:28-36 | a pair survives the option exactly when it has an edge that is not type-only |
| LayerRules.EverySiteOnce | pkg/codesignal/rule_layer_violation.go:144-154 | every eligible edge's location appears exactly once in the whole report, and no other location does |
| LayerRules.OneChangePerPair | pkg/codesignal/rule_layer_violation.go:45-48 | an eligible edge's location is in the one change of its own pair |
| LayerRuleMeaning.ReportedExactlyWhen | pkg/codesignal/rule_layer_violation_ts_edges.go:38-59 | a pair is reported exactly when some considered edge joins it and a rule forbids the first layer that contains the importer to import the first that contains the importee |
| LayerRuleMeaning.ViolationShows | pkg/codesignal/rule_layer_violation.go:143-188 | a violation names the layers of its ends, is anchored at the textually least site of its edges and is marked exactly when all of them are type-only |
| LayerRuleMeaning.ViolationsAscend | pkg/codesignal/rule_layer_violation.go:70-77 | violations come by importer, then by importee |
| UnevaluatedEdges.UnevaluatedTSEdgeDiagnostics | pkg/codesignal/rule_layer_violation_ts_unevaluated.go:16-56 | the sorted notes of undecidable edges and the two counts, edge by edge |
| LayerRuleMeaning.FatesMean | pkg/codesignal/rule_layer_violation_ts_unevaluated.go:19-41 | an edge that leaves a layer's file is evaluated, external, non-source or noted according to the form of its target |
| LayerRuleMeaning.NotesAscend | pkg/codesignal/rule_layer_violation_ts_unevaluated.go:43-51 | the notes come by path, row and message |
| UnevaluatedEdges.DiagnosticsIgnoreOrder | pkg/codesignal/rule_layer_violation_ts_unevaluated.go:43-51 | permuting the edges does not change the diagnostics, although the sort leaves their kind out |
| UnevaluatedEdges.ViolationsAreEvaluated | pkg/codesignal/rule_layer_violation_ts_edges.go:40-59 | no violating edge is noted or counted as not evaluated |
| UnevaluatedEdges.EveryEdgeAccountedFor | pkg/codesignal/rule_layer_violation.go:105-123 | as multisets, the edges are those in the seven places: violating, permitted, noted, external, of a non-source file, of no known address form, not considered; the report's locations, notes and counts are those of their places |
| UnevaluatedEdges.SilenceMeansEvaluated | pkg/codesignal/rule_layer_violation_ts_unevaluated.go:12-42 | there are no diagnostics exactly when no considered edge is undecidable, external or of a non-source file |
| LayerFindings.SameKeyExactlyWhen | pkg/codesignal/rule_layer_violation.go:171 | two pairs have one semantic key exactly when they are equal or one is the other cut at a different arrow |
| LayerFindings.NothingRepeatsExactlyWhen | pkg/codesignal/project_lifecycle.go:13-29 | indexing drops nothing exactly when all semantic keys differ |
| LayerFindings.EveryViolationKeptExactlyWhen | pkg/codesignal/project_lifecycle.go:13-29 | the lifecycle keeps every layer violation of a report exactly when no two violating pairs are such cuts of one another |
| LayerFindings.NoArrowsNoLoss | pkg/codesignal/project_lifecycle.go:13-29 | importer paths without an arrow are enough |
| LayerFindings.AmbiguityLosesAViolation | pkg/codesignal/project_lifecycle.go:13-29 | two violating pairs that are such cuts cost the report a violation, however its changes are built |
| LayerFindings.ArrowsClash | pkg/codesignal/rule_layer_violation.go:171 | two TypeScript file imports of which the lifecycle keeps one violation |
| ProjectLifecycle.NewUndeterminedContinuity | pkg/codesignal/project_continuity.go:20-31 | exactly the non-empty new and previous paths |
| ProjectLifecycle.FirstMovedPathTouchedBy | pkg/codesignal/project_continuity.go:46-69 | the first moved location, else the least moved path an identity touches |
| ProjectLifecycle.FirstMovedExactly | pkg/codesignal/project_continuity.go:33-44 | a path is found exactly when the change touches a moved path, by location or by identity |
| ProjectLifecycle.IndexProjectChangesByKey | pkg/codesignal/project_lifecycle.go:13-29 | the first change of each key is kept and precisely the later ones are reported as duplicates, in order; together they are as many as the changes |
| ProjectLifecycle.IndexedOrRepeated | pkg/codesignal/project_lifecycle.go:13-29 | for every key the kept change followed by its duplicates is the list of that key's changes |
| ProjectLifecycle.ProjectLifecycleState | pkg/codesignal/project_lifecycle_state.go:59-92 | why a comparison is indeterminate, and the report-level diagnostics that say so |
| ProjectLifecycle.ClassifyProjectChanges | pkg/codesignal/project_lifecycle.go:55-127 | head keys in order, then base-only keys in order, each with its own outcome, and the diagnostics in order of first appearance |
| ProjectLifecycle.AppendDistinctDiagnostics | pkg/codesignal/project_continuity.go:125-134 | appends each candidate that was not seen before, and keeps the seen set exact |
| ProjectLifecycle.DiagnosticsDistinct | pkg/codesignal/project_lifecycle.go:61-63 | no diagnostic is repeated |
| ProjectLifecycle.DiagnosticsAreRaised | pkg/codesignal/project_lifecycle.go:71-116 | the diagnostics are exactly those that some key raises |
| ProjectLifecycle.NotesAreExplained | pkg/codesignal/project_lifecycle.go:37-44 | the indeterminate note only appears where the report has the diagnostic it refers to; evidence changes exactly when a diagnostic raised by the change is in the report, and that one names the anchor or a moved path |
| ProjectLifecycle.EachKeyOnce | pkg/codesignal/project_lifecycle.go:67-124 | each key of the union is reported at exactly one position |
| ProjectLifecycle.HeadAndBaseAreDual | pkg/codesignal/project_lifecycle.go:46-127 | with both sides complete, swapping the sides exchanges introduced and resolved and leaves every other verdict alone |
| ProjectLifecycle.LifecycleExactly | pkg/codesignal/project_lifecycle.go:71-119 | when exactly a key is introduced, existing, resolved or baseline |
| ProjectLifecycle.IndeterminateMeansUnknown | pkg/codesignal/project_lifecycle.go:47-49 | with a side incomplete every change is unknown and unchanged |
| ProjectLifecycle.BaseNoteIsNeverMisplaced | pkg/codesignal/project_lifecycle.go:104-112 | base changes without a base analysis make the state indeterminate by themselves |
| ProjectLifecycle.ChangeIDsDistinct | pkg/codesignal/project_fingerprint.go:13-39 | no two reported changes share an id or a fingerprint |
| LifecycleMeaning.StateMeans | pkg/codesignal/project_lifecycle_state.go:59-92 | which coverage makes head, base or both indeterminate, and which report-level diagnostics follow |
| LifecycleMeaning.ContinuityMeans | pkg/codesignal/project_continuity.go:20-31 | destinations of renames count on the head side, sources on the base side |
| LifecycleMeaning.TouchesExactly | pkg/codesignal/project_continuity.go:71-94 | a change touches a path by its anchor, a related location, a source location of a step, or an importer or importee that is the path or its directory |
| LifecycleMeaning.FirstMovedIsFirst | pkg/codesignal/project_continuity.go:46-85 | the named path is the first moved one of the anchor, the related locations and the source locations step by step, else the textually least moved path the identities name |
| LifecycleMeaning.ChangedExactly | pkg/codesignal/project_lifecycle.go:129-134 | a change is changed exactly when both sides are complete and it is new and unmoved, or its causal digests differ, or it has none and its anchors differ |
| LifecycleMeaning.OtherFieldsStay | pkg/codesignal/project_lifecycle.go:67-124 | classification sets lifecycle, change, evidence and identity and nothing else |
| LifecycleMeaning.IdentityIgnoresPlace | pkg/codesignal/project_fingerprint.go:13-39 | ids depend on key, rule and versions only, and on all of them |
| LifecycleMeaning.IndeterminateRaises | pkg/codesignal/project_lifecycle_state.go:24-57 | an indeterminate comparison raises one diagnostic per reason, at the change's anchor |
| LifecycleMeaning.DeterminateRaises | pkg/codesignal/project_lifecycle.go:86-116 | otherwise only a change of one side that touches a path moved there raises one, which names the path |
| LifecycleMeaning.KeysAscend | pkg/codesignal/project_lifecycle.go:67-100 | head keys come before base-only keys, and either kind in ascending order |
| ReportAccounting.FilterAnchorlessProjectChanges | pkg/codesignal/project_report_surface.go:73-88 | in place: the changes with an anchor path, in order |
| ReportAccounting.BuildProjectReportSurface | pkg/codesignal/project_report_surface.go:28-60 | canonicalises and mirrors every anchored change and counts the four known lifecycles before resolved ones are dropped and the rest is sorted; notes every change without an anchor path |
| ReportAccounting.NestedOrderIsInvisible | pkg/codesignal/project_report_surface.go:43-53 | for classified changes, the order of related locations, source locations and coverage refs shows on neither surface of a report |
| ReportAccounting.FourCounters | pkg/codesignal/project_report.go:99-105 | the four counters of classified changes cover all of them exactly when none is unknown |
| ReportAccounting.FiveCounters | pkg/codesignal/signal_summary.go:9-22 | the five counters cover every entry exactly when every lifecycle is one of the five |
| ReportDiagnostics.DistinctDiagnosticPaths | pkg/codesignal/signal_summary.go:72-80 | the non-empty paths of the diagnostics |
| ReportDiagnostics.CountUnanalyzedFiles | pkg/codesignal/signal_summary.go:46-60 | the number of paths with a diagnostic that is not about an import edge and no file |
| ReportDiagnostics.UnanalyzedHaveDiagnostics | pkg/codesignal/signal_summary.go:42-60 | there are never more unanalysed files than files with diagnostics, and none exactly when every such diagnostic names a file that was handed in |
| ReportDiagnostics.DiagnosticLaws | pkg/codesignal/diagnostics.go:63-78 | the comparison is a total preorder; diagnostics tie exactly when they agree on everything but side and revision |
| ReportDiagnostics.OrderFreeExactlyWhen | pkg/codesignal/diagnostics.go:63-78 | input order is invisible exactly when no two diagnostics differ in side or revision alone |
| ReportAccounting.OmitResolvedSignals | pkg/codesignal/signal_summary.go:31-40 | the signals that are not resolved, in order |
| ReportAccounting.FinalizeSignals | pkg/codesignal/signal_summary.go:3-29 | file counters, counters over all signals, then the active ones, ranked |
| ReportAccounting.Build | pkg/codesignal/codesignal.go:22-44 | signals, diagnostics, project changes, facts and both summaries of a built report |
| ReportAccounting.SummaryAccounts | pkg/codesignal/signal_summary.go:3-29 | the five counters sum to all classified signals, and active is that sum less the resolved ones left out |
| ReportAccounting.Narrow | pkg/codesignal/signal_view.go:46-87 | each refusal in its order, the report itself for zero options, else the view: floor first, then cap |
| ReportAccounting.NarrowingConserves | pkg/codesignal/signal_view.go:54-70 | kept, below the floor and beyond the cap add up; the record passes its own validation; the summaries are untouched |
| ReportAccounting.KeptSignalsLead | pkg/codesignal/signal_view.go:28-38 | nothing at or above the floor is withheld while something of a later group is kept, or something less severe of its group, or something less confident of its group and severity |
| ReportAccounting.KeptReachesFloor | pkg/codesignal/signal_view.go:54-60 | what a view keeps was in the report and is not less severe than the floor |
| ReportAccounting.NarrowingIgnoresOrder | pkg/codesignal/signal_view.go:33-34 | for signals with distinct ids, a report with signals and project changes in any order yields the same signals, the same record and the same set of project changes |
| ReportAccounting.BuiltReportsArePaired | pkg/codesignal/project_report_surface.go:28-47 | a built report lists each project change once and exactly with its mirrored signal |
| ReportAccounting.NarrowingKeepsPairs | pkg/codesignal/signal_view.go:102-111 | kept project changes and kept mirrored signals correspond one to one |
| ReportAccounting.EverySignalAccountedFor | pkg/codesignal/codesignal.go:17-45 | from classification to the view every signal is in one counter and then left out, below the floor, beyond the cap or kept |
| ReportMeaning.CountersMean | pkg/codesignal/signal_summary.go:9-27 | each counter is the number of signals, or of mirrored changes, with that lifecycle |
| ReportMeaning.SignalsListed | pkg/codesignal/signal_summary.go:31-40 | every classified and mirrored signal is listed as often as it came, resolved ones only on request |
| ReportMeaning.ListedExactly | pkg/codesignal/project_report_surface.go:49-88 | the listed changes are those with an anchor path, resolved ones only on request, with sorted arrays |
| ReportMeaning.ListedChangeHasItsSignal | pkg/codesignal/project_report_surface.go:98-123 | every listed change has a listed signal with its identity, severity, confidence, lifecycle and anchor |
| ReportMeaning.ChangesInOrder | pkg/codesignal/project_order.go:12-24 | listed changes come by semantic key, then by rule |
| ReportMeaning.DiagnosticsInOrder | pkg/codesignal/diagnostics.go:63-78 | a report lists every diagnostic, by path, kind, location with none first, and message |
| ReportMeaning.EdgeKindsAre | pkg/codesignal/rule_layer_violation_ts_unevaluated.go:122-131 | the three kinds about import edges, plain or with the base prefix |
| ReportMeaning.RefusalMeans | pkg/codesignal/signal_view.go:46-53 | which refusal a narrowing gives, in their order |
| ReportMeaning.WithheldMeans | pkg/codesignal/signal_view.go:54-70 | how many signals a view keeps and withholds, by severity and cap |
| ReportMeaning.ChangedMeans | pkg/codesignal/changed_ranges.go:29-49 | a signal is changed exactly when it is not resolved and shares a row with a range whose rows are in order |
| ReportMeaning.FileLifecycles | pkg/codesignal/file_change.go:49-61 | only parsed heads and removed files have signals; without a usable base they are introduced in an added file, else as the report says |
| ReportMeaning.HeadNotesMean | pkg/codesignal/file_signals.go:3-43 | what the head of a file raises: one note per syntax issue, at its place, one for a due head that is missing or of unknown status, else none |
| ReportMeaning.OtherNotesMean | pkg/codesignal/file_change.go:28-47 | each result of another path and each range with its rows out of order is noted once |
| ReportIdentity.BuildReport | pkg/codesignal/codesignal.go:17-45 | from changed files and classified project changes to the report |
| ReportIdentity.FilesAreClassified | pkg/codesignal/codesignal.go:22-27 | the file pipeline gives classified signals, which is what the end-to-end accounting asks for |
| ReportIdentity.DifferentPathsShareNoKey | pkg/codesignal/fingerprint.go:35-45 | files with different normalised paths have no signal key in common |
| ReportIdentity.FileIDsDistinct | pkg/codesignal/fingerprint.go:35-59 | with an injective hash and fields under 2^32 bytes, files that share no key give pairwise distinct ids over all of them |
| ReportIdentity.ReportIDsDistinct | pkg/codesignal/codesignal.go:22-44 | so a built report has no two signals with one id, mirrored project changes included |
| ReportIdentity.DiagnosticsIgnoreFileOrder | pkg/codesignal/codesignal.go:23-42 | permuted files give the same sorted diagnostics, although the sort leaves side and revision out |
| ReportIdentity.UnanalyzedComeFromSeed | pkg/codesignal/signal_summary.go:46-60 | only handed-in diagnostics make a file count as unanalysed |
| ReportIdentity.FileOrderIsInvisible | pkg/codesignal/codesignal.go:43-44 | for files that share no key, the report of permuted files is the same report, diagnostics included |
| ReportIdentity.OneView | pkg/codesignal/signal_view.go:46-87 | a report has one view for each choice of options |
| ReportIdentity.ViewsIgnoreFileOrder | pkg/codesignal/signal_view.go:46-87 | reports of permuted files have equal views |
| Packing.Flush | internal/rubrics/pack_greedy.go:16-27 | appends the references of the current items, if there are any |
| Packing.PackGreedy | internal/rubrics/pack_greedy.go:8-48 | returns the references of the one full partition of the candidates |
| Packing.GreedyHolds | internal/rubrics/pack_greedy.go:8-48 | that partition concatenates to the input, has no empty pack, keeps each pack within both caps unless it is a single item, and leaves no pack room for its successor's first item |
| Packing.GreedyIsOptimal | internal/rubrics/pack_greedy.go:29-46 | a full partition has no more packs than any in-order contiguous partition under the same caps |
| Packing.GreedyUsesFewest | internal/rubrics/pack_greedy.go:8-48 | so what the greedy loop returns uses the fewest packs possible |
| Packing.FullUnique | internal/rubrics/pack_greedy.go:29-46 | it is the only partition that leaves no such room |
| PackPaths.CountPaths | internal/rubrics/pack.go:48-51 | the number of candidates of every path |
| PackPaths.GroupByPath | internal/rubrics/pack.go:54-63 | the paths in first-seen order and each path's candidates in order |
| PackPaths.PackJudgmentCandidates | internal/rubrics/pack.go:30-79 | hot paths packed on their own, then everything else |
| PackPaths.EveryCandidateOnce | internal/rubrics/pack.go:30-79 | every candidate is placed exactly once |
| PackPaths.PacksAreGood | internal/rubrics/pack.go:65-77 | every pack respects the caps or is a single item, and a path at or above the affinity threshold is never mixed with another |
| PackOptimal.SortedByPlace | internal/rubrics/pack.go:36-46 | candidates are packed by path, row and reference |
| PackOptimal.PackedInOrder | internal/rubrics/pack.go:65-77 | pack after pack come the candidates of paths at or above the threshold in that order, then all others in that order |
| PackOptimal.PackingIsOptimal | internal/rubrics/pack.go:30-79 | no list of packs that fit the caps, hold the candidates in that order and mix no path at or above the threshold with another has fewer packs |
| PackOptimal.CapsMean | internal/rubrics/pack_greedy.go:3-37 | the caps and their defaults in numbers |
| PackPaths.OnlyOutlinesMatter | internal/rubrics/pack.go:30-79 | the returned packs depend on path, row, reference and estimate of the candidates only |
| PackPaths.AgreeingTwinsOrderFree | internal/rubrics/pack.go:36-46 | the returned packs do not depend on the order of the candidates when candidates with one path, row and reference have one estimate |
| PackPaths.SwapHidesExactlyWhen | internal/rubrics/pack.go:36-46 | two candidates with one path, row and reference can be swapped in every list under every configuration without showing exactly when their estimates agree |
| PackPaths.FortyBeforeFourHundred | internal/rubrics/pack_greedy.go:29-46 | an input on which such a swap shows: the packs [r], [r], [z] or [r], [r, z] |
| BatchReplies.ParseBatchItems | internal/rubrics/batch_items_parse.go:9-33 | an item is usable exactly when its reference occurs exactly once, however many duplicates there are |
| BatchReplies.ValidExactlyWhen | internal/rubrics/batch_items_parse.go:35-61 | an item is accepted exactly when it has a known judgment and confidence, a rationale that is not blank, and a focus that is text or null |
| BatchReplies.MapBatchJudgment | internal/rubrics/batch_judgment_map.go:12-65 | the results as a function of the expected references and the items |
| BatchReplies.OneResultEach | internal/rubrics/batch_judgment_map.go:22-63 | one result per non-empty expected reference, in order |
| BatchReplies.JudgedExactlyOnce | internal/rubrics/batch_judgment_map.go:34-62 | a judgment is given exactly for a single item with known words, a rationale and a focus that is text or null, and is that item's own; a missing, duplicate or malformed item is diagnosed as such |
| BatchReplies.AnsweredOnce | internal/rubrics/batch_judgment_map.go:28-32 | each distinct reference has exactly one result that is not the repeated-argument diagnostic |
| BatchReplies.OthersCannotInterfere | internal/rubrics/batch_judgment_map.go:34-62 | a reference's result depends on that reference's own items only |
| ShellWords.ShellJoin | cmd/coach/report_see_all_command.go:90-103 | the quoted words with single blanks between them |
| ShellWords.SplitUndoesJoin | cmd/coach/report_see_all_command.go:90-103 | a shell reads back exactly the words that were printed |
| ShellWords.JoinIsEmptyOnlyForNoWords | cmd/coach/report_see_all_command.go:90-96 | an empty line stands for no words at all |
| SeeAllCommand.KeepWords | cmd/coach/report_see_all_command.go:39-54 | the command's words followed by the kept arguments |
| SeeAllCommand.SeeAll | cmd/coach/report_see_all_command.go:35-59 | the printed line, empty when a word is unsafe to print |
| SeeAllCommand.SplitterAgrees | cmd/coach/report_see_all_command.go:69-79 | the token splitter and the flag grammar agree on what is a flag, its name and its inline value |
| SeeAllCommand.KeptMeansTheSame | cmd/coach/report_see_all_command.go:40-54 | for every list that parses, the kept words parse to the same positionals and the same other bindings in order |
| SeeAllCommand.KeptParsesExactlyWhen | cmd/coach/report_see_all_command.go:40-54 | for any list, the kept words parse exactly when the list does or its only fault is a narrowing flag without a value at the end |
| SeeAllCommand.CommandRunsTheSame | cmd/coach/report_see_all_command.go:35-59 | the printed command, split by a shell and parsed, is the invocation without its narrowing flags |
| SeeAllMeaning.CommandShowsEverything | cmd/coach/report_see_all_command.go:14-59 | run from the printed command there is no severity floor and no cap, and every other binding and positional in order |
| SeeAllMeaning.CommandWords | cmd/coach/report_see_all_command.go:39-58 | a shell reads a printed command back as coach, codesignal and the kept arguments |
| SeeAllMeaning.PrintedBare | cmd/coach/report_see_all_command.go:14-15 | a word is printed without quotes exactly when it has only letters, digits and the harmless marks and no leading "=" |
| SeeAllCommand.CommandParsesExactlyWhen | cmd/coach/flags.go:51-74 | the same iff for the registered flags |
| Broker.ApplyDefaults | internal/agentloop/budget.go:35-46 | a limit that is not positive takes its default, every other one stays |
| Broker.Loop.Begin | internal/agentloop/loop_call.go:25-47 | the first section under the lock: refused from the wall time on or at the ceiling, then for an unknown tool, else reserved |
| Broker.Loop.Record | internal/agentloop/loop_call.go:67-77 | appends one log entry |
| Broker.Loop.ReserveModelCall | internal/agentloop/loop_call.go:102-113 | reserves a model call unless the wall time or the ceiling forbids it |
| Broker.Loop.Call | internal/agentloop/loop_call.go:20-65 | alone at the broker: a reserved call is logged exactly once with what it returns, which is what the handler replied unless arguments, context or clock forbade asking it; a refused one returns the error of its own check |
| Broker.Loop.NextTurn | internal/agentloop/loop_run.go:60-81 | at most one reservation and one generation for the prompt, and the model's turn unless it failed or came too late |
| Broker.Loop.RunModelToolCalls | internal/agentloop/loop_call.go:82-97 | stops at the first failure; otherwise handlers and log hold the calls in order, each with its result |
| Broker.Loop.Run | internal/agentloop/loop_run.go:36-55 | terminates on the model budget with at most one generation per reservation; every prompt after the first holds what the handlers gave for the calls of the turn before; the text is that of a last turn without tool calls |
| BrokerRuns.Conservation | internal/agentloop/loop_call.go:20-113 | under every interleaving the counter is the logged reservations plus those in flight, both limits hold, every reservation is held or logged and never both, and an entry without a reservation is an unknown-tool refusal |
| BrokerRuns.QuietMeansLogged | internal/agentloop/loop_call.go:49-77 | once every goroutine is done each reserved call has been logged exactly once |
| BrokerRuns.SpentWallReservesNothing | internal/agentloop/budget.go:54-59 | after the wall time nothing is ever reserved again |
| BrokerRuns.MoveDecreases | internal/agentloop/loop_run.go:36-55 | every move of an unfinished goroutine uses up the budgets' measure |
| BrokerRuns.EveryRunEnds | internal/agentloop/loop_run.go:36-55 | any number of concurrent calls and runs end, within a bound given by the budgets |
| BrokerRunsAlone.LoneCall | internal/agentloop/loop_call.go:20-65 | the moves of a call with nobody in between: when it is refused, and what a reserved one is logged with |
| BrokerRunsAlone.LoneTurn | internal/agentloop/loop_run.go:60-81 | the moves of a turn: its reservation, its generation and what follows |
| BrokerRunsAlone.LoneTools | internal/agentloop/loop_call.go:82-90 | a run makes the tool calls of a turn one after the other, as the model's, and then takes the next turn |
| BrokerRunsAlone.LoneLogging | internal/agentloop/loop_call.go:67-90 | a run goes on after a logged call without an error and stops at one with an error |
| JobStore.Store.CreateJob | internal/coachapi/store/memory/store.go:42-51 | stores the job it is given, refuses an id in use |
| JobStore.Store.ClaimJob | internal/coachapi/store/memory/claim.go:12-56 | queued or stale running jobs are claimed under the next attempt with a clean record; every other case is refused unchanged |
| JobStore.Store.Write | internal/coachapi/claim.go:42-73 | the six fenced writes: not found, claim lost, or the write of the operation |
| JobStore.Store.RecordCompletion | internal/coachapi/store/memory/store.go:95-118 | overwrites job and report whatever the state, attempt included |
| JobStore.Store.RecordFailure | internal/coachapi/store/memory/store.go:120-135 | marks the job failed whatever its state |
| JobStore.Store.ReleaseStaleRunning | internal/coachapi/store/memory/reconcile.go:25-43 | exactly the stale running jobs are queued again and counted |
| LeaseFencing.AnswersMean | internal/coachapi/store/memory/claim.go:12-56 | what create, claim and the fenced writes answer, in terms of the stored job |
| LeaseFencing.OtherJobsStay | internal/coachapi/store/memory/reconcile.go:25-43 | no operation touches another job; a sweep queues exactly the running jobs without a fresh heartbeat and changes nothing else |
| LeaseFencing.ClaimStartsClean | internal/coachapi/store/memory/claim.go:33-55 | a granted claim leaves a running job of the claimer under the next attempt with nothing on record |
| LeaseFencing.RowsAreThePayloads | internal/coachapi/claim.go:47-57 | while a lease is live the stored rows are exactly what its inserts brought, in order, after those from before |
| LeaseFencing.CompletedJobHoldsItsRows | internal/coachapi/claim.go:59-63 | from a granted claim to its completion: completed, without error, with its report and exactly the rows inserted and then those of the completion |
| LeaseFencing.FailureAndReleaseKeepRows | internal/coachapi/claim.go:64-73 | a failure records its error and keeps the rows, a release queues the job again, a heartbeat moves the clock |
| LeaseFencing.RowsCarryAttempt | internal/coachapi/claim.go:47-57 | over every run whose unfenced completions bring rows of their own attempt, all stored rows carry their job and its current attempt |
| LeaseFencing.CompletionCarriesExactlyWhen | internal/coachapi/store/memory/store.go:105-114 | an unfenced completion keeps that exactly when its rows are of its own attempt |
| LeaseFencing.RunningIsOwned | internal/coachapi/store/memory/claim.go:33-38 | over every run a running job has an owner and a heartbeat, and a queued one has neither |
| LeaseFencing.AttemptsNeverDecreaseExactlyWhen | internal/coachapi/store/memory/claim.go:33 | the attempt of a job never falls in a run exactly when no unfenced completion brings an attempt below the current one |
| LeaseFencing.UnfinishedNeverFell | internal/coachapi/store/memory/claim.go:21-33 | a job that is not finished has never had its attempt rolled back |
| LeaseFencing.LostForGood | internal/coachapi/claim.go:9-13 | once a lease is lost, every later write under it is refused and changes nothing |
| LeaseFencing.LeaseEndsExactlyWhen | internal/coachapi/store/memory/claim.go:94-99 | the operations that end a live lease, unfenced writes among them, and no others |
| LeaseFencing.LeasesAreUnique | internal/coachapi/claim.go:19-27 | a later claim, even by the same worker, has a higher attempt and ends the earlier lease |
| LeaseFencing.FinishedIsFinal | internal/coachapi/store/memory/claim.go:94-99 | a finished job stays finished, and only an unfenced write changes it |
| LeaseFencing.CompletionOverwritesFinished | internal/coachapi/store/memory/store.go:95-135 | the input on which an unfenced write overwrites a finished job and lowers its attempt |
| LeaseFencing.SurvivesExactlyWhen | internal/coachapi/store/memory/reconcile.go:25-43 | a lease survives a run exactly when no claim or sweep finds it stale and neither its worker nor an unfenced write ends it |
| LeaseFencing.YoungAtAnyTime | internal/coachapi/claim.go:36-37 | while heartbeats are less than a gap apart, the latest is younger than the gap at any time of a clocked run |
| LeaseFencing.AttendedLeaseIsKept | cmd/coach-worker/config.go:125-133 | a worker whose consecutive heartbeats are less than three intervals apart, up to the end of the run, is never reclaimed or swept under accepted timings |
| LeaseFencing.ThreeIntervalsIsTooLate | internal/coachapi/store/memory/claim.go:24-28 | with the smallest accepted timings a heartbeat exactly three intervals old loses the job |

## Left out

- BatchReplies.ParseBatchItems: takes decoded items; JSON decoding, including which replies fail to decode, is not modelled.
- BatchReplies.JudgedExactlyOnce: the rationale check treats ASCII white space as blank, where `strings.TrimSpace` also trims Unicode white space.
- Ranking.MetricsNonIncreasing: compares integer metrics instead of float ratios; the threshold is shared within a rule, so the order is the same until two integers round to one float.
- ProjectLifecycle.ClassifyProjectChanges: a diagnostic is its path and its cause; side, revision and wording follow from the cause. The duplicate-key diagnostics that precede these are stated at the indexing, each represented by the change it is about.
- LayerRules.LayerViolationChange: the version and digest fields, which are copied, and the fixed texts of a change are not part of the result.
- UnevaluatedEdges.UnevaluatedTSEdgeDiagnostics: how a specifier is quoted and which extensions are not code are parameters; the closing diagnostic is its two counts.
- SeeAllCommand.SeeAll: which characters are unsafe to print is a parameter.
- JobStore.Store.Write: a completion's report (commit, versions, generation time) is one opaque value; the listings and the PostgreSQL store are not modelled.
- LayerBypassResult.BuildGoLayerBypass: starts from call facts, sources, sinks and node positions; loading the program and finding call sites are not modelled, nor are the counts of call sites, SSA programs, run time and memory.
- ReportAccounting.Build: the project surface is always on; the diagnostics that precede its missing-path ones are handed in, and scope, provenance, coverage, layer membership and next actions of a report are not part of the result.
- FileChanges.ProcessFileChanges: what the rules make of a result's findings is handed in as signals; end row and source scope are read and set through parameters.
- Broker.Loop.RunModelToolCalls: the results are returned as a list; their JSON text and an error in writing it are not modelled.
- Registration of further tools refuses core names in the source; the interleaving model only needs that tools are added, never removed.
- Nil and empty slices are one value.
- Evaluators other than the layer rules, the TypeScript sidecar, HTTP, queue, database and Git plumbing are not part of this model.
