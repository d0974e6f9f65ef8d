/** Ranking: signals sorted by `CompareSignals`, then each metric rule's signals ordered by magnitude over
    the positions they already hold (pkg/codesignal/sort.go). */
module Ranking {
  import opened Options
  import opened Ordering
  import opened Signals

  /** Signals that compete on magnitude: one metric rule within one tier. */
  datatype PeerKey = PeerKey(group: int, severity: int, confidence: int, ruleID: string)

  /** The peer group of a signal; none without a magnitude. */
  function Label(s: Signal): Option<PeerKey> {
    if Metric(s).None? then None
    else Some(PeerKey(PriorityGroup(s), SeverityRank(s.severity), ConfidenceRank(s.confidence), s.ruleID))
  }

  ghost function Labels(s: seq<Signal>): (labels: seq<Option<PeerKey>>)
    ensures |labels| == |s| && forall i | 0 <= i < |s| :: labels[i] == Label(s[i])
  {
    seq(|s|, i requires 0 <= i < |s| => Label(s[i]))
  }

  function MetricOrZero(s: Signal): int {
    match Metric(s) case Some(m) => m case None => 0
  }

  /** Larger metrics first. Peers share a rule and so a threshold: comparing the metrics is comparing the
      ratios to it. */
  function CompareMagnitude(a: Signal, b: Signal): int {
    CompareInt(MetricOrZero(b), MetricOrZero(a))
  }

  // ----- positions -----

  /** The positions below `n` labelled `key`, ascending. */
  function Positions<K(==)>(labels: seq<Option<K>>, key: K, n: nat): (ps: seq<nat>)
    requires n <= |labels|
    ensures forall i | 0 <= i < |ps| :: ps[i] < n && labels[ps[i]] == Some(key)
    ensures forall i, j | 0 <= i < j < |ps| :: ps[i] < ps[j]
    ensures forall p | 0 <= p < n && labels[p] == Some(key) :: p in ps
  {
    if n == 0 then [] else Positions(labels, key, n - 1) + (if labels[n - 1] == Some(key) then [n - 1] else [])
  }

  function AllPositions<K(==)>(labels: seq<Option<K>>, key: K): (ps: seq<nat>) {
    Positions(labels, key, |labels|)
  }

  function Pick<T>(r: seq<T>, ps: seq<nat>): (picked: seq<T>)
    requires forall i | 0 <= i < |ps| :: ps[i] < |r|
    ensures |picked| == |ps| && forall i | 0 <= i < |ps| :: picked[i] == r[ps[i]]
  {
    seq(|ps|, i requires 0 <= i < |ps| => r[ps[i]])
  }

  ghost function Keys<K>(labels: seq<Option<K>>): set<K> {
    set i | 0 <= i < |labels| && labels[i].Some? :: labels[i].value
  }

  // ----- what ranking does -----

  /** `r` is `s` with the entries of every group in `keys` sorted over their own positions, all else in
      place. */
  ghost predicate RankedFor<T, K>(cmp: (T, T) -> int, labels: seq<Option<K>>, s: seq<T>, r: seq<T>, keys: set<K>) {
    && |r| == |s| == |labels|
    && (forall p | 0 <= p < |s| && (labels[p].None? || labels[p].value !in keys) :: r[p] == s[p])
    && (forall key | key in keys :: Pick(r, AllPositions(labels, key)) == StableSort(cmp, Pick(s, AllPositions(labels, key))))
  }

  ghost predicate Ranked(s: seq<Signal>, r: seq<Signal>) {
    RankedFor(CompareMagnitude, Labels(s), s, r, Keys(Labels(s)))
  }

  /** The whole of sortSignals. */
  ghost predicate SortedSignals(input: seq<Signal>, out: seq<Signal>) {
    Ranked(StableSort(CompareSignals, input), out)
  }

  method RankedByMagnitude<T>(cmp: (T, T) -> int, s: seq<T>, positions: seq<nat>) returns (ranked: seq<T>)
    requires forall i | 0 <= i < |positions| :: positions[i] < |s|
    ensures ranked == StableSort(cmp, Pick(s, positions))
  {
    ranked := [];
    for i := 0 to |positions|
      invariant ranked == Pick(s, positions)[..i]
    {
      ranked := ranked + [s[positions[i]]];
    }
    assert ranked == Pick(s, positions);
    ranked := StableSort(cmp, ranked);
  }

  /** The groups met among the first `n` labels. */
  ghost predicate Grouped<K(!new)>(labels: seq<Option<K>>, positions: map<K, seq<nat>>, n: nat)
    requires n <= |labels|
  {
    && (forall key :: key in positions <==> Positions(labels, key, n) != [])
    && (forall key | key in positions :: positions[key] == Positions(labels, key, n))
  }

  lemma AllGrouped<K(!new)>(labels: seq<Option<K>>, positions: map<K, seq<nat>>)
    requires Grouped(labels, positions, |labels|)
    ensures positions.Keys == Keys(labels)
  {
    forall key | key in Keys(labels) ensures key in positions {
      var i :| 0 <= i < |labels| && labels[i] == Some(key);
      assert i in AllPositions(labels, key);
    }
    forall key | key in positions ensures key in Keys(labels) {
      assert labels[positions[key][0]] == Some(key);
    }
  }

  method GroupPositions<K(!new, ==)>(labels: seq<Option<K>>) returns (positions: map<K, seq<nat>>)
    ensures Grouped(labels, positions, |labels|)
  {
    positions := map[];
    for i := 0 to |labels|
      invariant Grouped(labels, positions, i)
    {
      if labels[i].None? { continue; }
      var key := labels[i].value;
      positions := positions[key := (if key in positions then positions[key] else []) + [i]];
    }
  }

  /** The groups are visited in an arbitrary order, as Go's map iteration does. */
  method RankGroups<T, K(!new, ==)>(cmp: (T, T) -> int, ghost labels: seq<Option<K>>, s: seq<T>, positions: map<K, seq<nat>>)
    returns (reordered: seq<T>)
    requires |labels| == |s| && Grouped(labels, positions, |labels|)
    ensures RankedFor(cmp, labels, s, reordered, Keys(labels))
  {
    reordered := s;
    var rest := positions.Keys;
    while rest != {}
      invariant rest <= positions.Keys
      invariant RankedFor(cmp, labels, s, reordered, positions.Keys - rest)
    {
      var key :| key in rest;
      reordered := Place(cmp, labels, s, reordered, key, positions[key], positions.Keys - rest);
      assert positions.Keys - (rest - {key}) == (positions.Keys - rest) + {key};
      rest := rest - {key};
    }
    AllGrouped(labels, positions);
    assert positions.Keys - rest == Keys(labels);
  }

  method RankMetricRulesWithinTiers(signals: array<Signal>)
    modifies signals
    ensures Ranked(old(signals[..]), signals[..])
  {
    var s := signals[..];
    var labels := seq(|s|, i requires 0 <= i < |s| => Label(s[i]));
    var positions := GroupPositions(labels);
    var reordered := RankGroups(CompareMagnitude, labels, s, positions);
    forall i | 0 <= i < signals.Length { signals[i] := reordered[i]; }
    assert signals[..] == reordered;
    assert labels == Labels(s);
  }

  /** One group: its peers are ranked, and go to the group's positions in turn. */
  method Place<T, K>(cmp: (T, T) -> int, ghost labels: seq<Option<K>>, s: seq<T>, before: seq<T>, ghost key: K,
                     peers: seq<nat>, ghost done: set<K>)
    returns (reordered: seq<T>)
    requires RankedFor(cmp, labels, s, before, done) && key !in done && peers == AllPositions(labels, key)
    ensures RankedFor(cmp, labels, s, reordered, done + {key})
  {
    var ranked := RankedByMagnitude(cmp, s, peers);
    StableSortPermutes(cmp, Pick(s, peers));
    reordered := WriteBack(before, peers, ranked);
    PlacedGroup(cmp, labels, s, before, reordered, key, done);
  }

  method WriteBack<T>(before: seq<T>, peers: seq<nat>, ranked: seq<T>) returns (reordered: seq<T>)
    requires |ranked| == |peers| && forall i, j | 0 <= i < j < |peers| :: peers[i] < peers[j]
    requires forall i | 0 <= i < |peers| :: peers[i] < |before|
    ensures Written(before, reordered, peers, ranked, |peers|)
  {
    reordered := before;
    for i := 0 to |ranked|
      invariant Written(before, reordered, peers, ranked, i)
    {
      reordered := reordered[peers[i] := ranked[i]];
    }
  }

  ghost predicate Written<T>(before: seq<T>, now: seq<T>, peers: seq<nat>, ranked: seq<T>, n: nat)
    requires |peers| == |ranked| && n <= |peers|
    requires forall i | 0 <= i < |peers| :: peers[i] < |before|
  {
    && |now| == |before|
    && (forall p | 0 <= p < |before| && p !in peers :: now[p] == before[p])
    && (forall k | 0 <= k < n :: now[peers[k]] == ranked[k])
  }

  lemma PlacedGroup<T, K>(cmp: (T, T) -> int, labels: seq<Option<K>>, s: seq<T>, before: seq<T>, now: seq<T>,
                          key: K, done: set<K>)
    requires RankedFor(cmp, labels, s, before, done) && key !in done
    requires |StableSort(cmp, Pick(s, AllPositions(labels, key)))| == |AllPositions(labels, key)|
    requires Written(before, now, AllPositions(labels, key), StableSort(cmp, Pick(s, AllPositions(labels, key))),
                     |AllPositions(labels, key)|)
    ensures RankedFor(cmp, labels, s, now, done + {key})
  {
    var peers := AllPositions(labels, key);
    assert Pick(now, peers) == StableSort(cmp, Pick(s, peers));
    forall other | other in done ensures Pick(now, AllPositions(labels, other)) == Pick(before, AllPositions(labels, other)) {
      var ps := AllPositions(labels, other);
      forall i | 0 <= i < |ps| ensures now[ps[i]] == before[ps[i]] {
        assert labels[ps[i]] == Some(other);
      }
    }
  }

  method SortSignals(signals: array<Signal>)
    modifies signals
    ensures SortedSignals(old(signals[..]), signals[..])
  {
    var sorted := StableSort(CompareSignals, signals[..]);
    StableSortPermutes(CompareSignals, signals[..]);
    forall i | 0 <= i < signals.Length { signals[i] := sorted[i]; }
    assert signals[..] == sorted;
    RankMetricRulesWithinTiers(signals);
  }

  // ----- what the ranked list is like -----

  /** Nothing about the visiting order can show: the ranked list is determined. */
  lemma RankedUnique<T, K>(cmp: (T, T) -> int, labels: seq<Option<K>>, s: seq<T>, r: seq<T>, r': seq<T>)
    requires RankedFor(cmp, labels, s, r, Keys(labels)) && RankedFor(cmp, labels, s, r', Keys(labels))
    ensures r == r'
  {
    forall p | 0 <= p < |s| ensures r[p] == r'[p] {
      if labels[p].Some? {
        var ps := AllPositions(labels, labels[p].value);
        assert p in ps;
        var k :| 0 <= k < |ps| && ps[k] == p;
        assert Pick(r, ps)[k] == Pick(r', ps)[k];
      }
    }
  }

  lemma PickSnoc<T>(r: seq<T>, ps: seq<nat>, p: nat)
    requires p < |r| && forall i | 0 <= i < |ps| :: ps[i] < |r|
    ensures Pick(r, ps + [p]) == Pick(r, ps) + [r[p]]
  {
  }

  lemma PositionsSnoc<K>(labels: seq<Option<K>>, key: K, n: nat)
    requires 0 < n <= |labels|
    ensures labels[n - 1] == Some(key) ==> Positions(labels, key, n) == Positions(labels, key, n - 1) + [n - 1]
    ensures labels[n - 1] != Some(key) ==> Positions(labels, key, n) == Positions(labels, key, n - 1)
  {
  }

  /** How often an entry occurs in a list. */
  ghost function Times<T>(s: seq<T>, x: T): nat {
    if s == [] then 0 else Times(s[..|s| - 1], x) + if s[|s| - 1] == x then 1 else 0
  }

  lemma {:induction false} TimesIsMultiplicity<T>(s: seq<T>, x: T)
    ensures Times(s, x) == multiset(s)[x]
  {
    if s != [] {
      TimesIsMultiplicity(s[..|s| - 1], x);
      assert s == s[..|s| - 1] + [s[|s| - 1]];
    }
  }

  lemma TimesSnoc<T>(s: seq<T>, y: T, x: T)
    ensures Times(s + [y], x) == Times(s, x) + if y == x then 1 else 0
  {
    assert (s + [y])[..|s|] == s;
  }

  lemma {:induction false} TimesUpdate<T>(s: seq<T>, i: nat, v: T, x: T)
    requires i < |s|
    ensures Times(s[i := v], x) + (if s[i] == x then 1 else 0) == Times(s, x) + if v == x then 1 else 0
  {
    var n := |s| - 1;
    if i == n {
      assert s[i := v][..n] == s[..n];
    } else {
      assert s[i := v][..n] == s[..n][i := v];
      TimesUpdate(s[..n], i, v, x);
    }
  }

  /** Two lists that agree but for some positions differ in their entries just as those positions do. */
  lemma {:induction false} PatchCounts<T>(r: seq<T>, r': seq<T>, ps: seq<nat>, x: T)
    requires |r| == |r'| && (forall i | 0 <= i < |ps| :: ps[i] < |r|) && forall i, j | 0 <= i < j < |ps| :: ps[i] < ps[j]
    requires forall p | 0 <= p < |r| && p !in ps :: r[p] == r'[p]
    ensures Times(r, x) + Times(Pick(r', ps), x) == Times(r', x) + Times(Pick(r, ps), x)
    decreases |ps|
  {
    if ps == [] {
      assert r == r';
    } else {
      var before, p := ps[..|ps| - 1], ps[|ps| - 1];
      var patched := r'[p := r[p]];
      assert ps == before + [p];
      PatchCounts(r, patched, before, x);
      assert Pick(patched, before) == Pick(r', before);
      TimesUpdate(r', p, r[p], x);
      PickSnoc(r, before, p);
      PickSnoc(r', before, p);
      TimesSnoc(Pick(r, before), r[p], x);
      TimesSnoc(Pick(r', before), r'[p], x);
    }
  }

  /** `r` with one group put back where `s` has it. */
  ghost function Restore<T, K>(labels: seq<Option<K>>, s: seq<T>, r: seq<T>, key: K): (r': seq<T>)
    requires |r| == |s| == |labels|
    ensures |r'| == |s| && forall p | 0 <= p < |s| :: r'[p] == if labels[p] == Some(key) then s[p] else r[p]
  {
    seq(|s|, p requires 0 <= p < |s| => if labels[p] == Some(key) then s[p] else r[p])
  }

  lemma RestoreRanks<T, K>(cmp: (T, T) -> int, labels: seq<Option<K>>, s: seq<T>, r: seq<T>, keys: set<K>, key: K)
    requires RankedFor(cmp, labels, s, r, keys) && key in keys
    ensures RankedFor(cmp, labels, s, Restore(labels, s, r, key), keys - {key})
  {
    var r' := Restore(labels, s, r, key);
    forall other | other in keys - {key}
      ensures Pick(r', AllPositions(labels, other)) == Pick(r, AllPositions(labels, other)) {}
  }

  lemma RestorePermutes<T(!new), K>(cmp: (T, T) -> int, labels: seq<Option<K>>, s: seq<T>, r: seq<T>, key: K)
    requires |r| == |s| == |labels|
    requires Pick(r, AllPositions(labels, key)) == StableSort(cmp, Pick(s, AllPositions(labels, key)))
    ensures multiset(Restore(labels, s, r, key)) == multiset(r)
  {
    var r', ps := Restore(labels, s, r, key), AllPositions(labels, key);
    assert Pick(r', ps) == Pick(s, ps);
    StableSortPermutes(cmp, Pick(s, ps));
    forall x ensures multiset(r')[x] == multiset(r)[x] {
      PatchCounts(r, r', ps, x);
      TimesIsMultiplicity(r, x);
      TimesIsMultiplicity(r', x);
      TimesIsMultiplicity(Pick(r, ps), x);
      TimesIsMultiplicity(Pick(r', ps), x);
    }
  }

  lemma {:induction false} RankingPermutes<T(!new), K>(cmp: (T, T) -> int, labels: seq<Option<K>>, s: seq<T>, r: seq<T>, keys: set<K>)
    requires RankedFor(cmp, labels, s, r, keys)
    ensures multiset(r) == multiset(s)
    decreases |keys|
  {
    if keys == {} {
      assert r == s;
    } else {
      var key :| key in keys;
      RestoreRanks(cmp, labels, s, r, keys, key);
      RestorePermutes(cmp, labels, s, r, key);
      RankingPermutes(cmp, labels, s, Restore(labels, s, r, key), keys - {key});
    }
  }

  lemma LabelsSurvive(s: seq<Signal>, r: seq<Signal>, p: nat)
    requires Ranked(s, r) && p < |s|
    ensures Label(r[p]) == Label(s[p])
  {
    var labels := Labels(s);
    if labels[p].Some? {
      var key := labels[p].value;
      var ps := AllPositions(labels, key);
      var k :| 0 <= k < |ps| && ps[k] == p;
      StableSortPermutes(CompareMagnitude, Pick(s, ps));
      assert Pick(r, ps)[k] == r[p];
      assert r[p] in multiset(Pick(r, ps));
      assert r[p] in multiset(Pick(s, ps));
      var m :| 0 <= m < |ps| && Pick(s, ps)[m] == r[p];
      assert labels[ps[m]] == Some(key);
    }
  }

  // ----- the main results -----

  predicate DistinctIDs(s: seq<Signal>) {
    forall i, j | 0 <= i < j < |s| :: s[i].id != s[j].id
  }

  /** Ranking is canonical: every permutation of signals with distinct ids, ranked in any order of the
      peer groups, ends as the same list. */
  lemma SortingIsCanonical(input: seq<Signal>, shuffled: seq<Signal>, out: seq<Signal>, out': seq<Signal>)
    requires SortedSignals(input, out) && SortedSignals(shuffled, out')
    requires multiset(input) == multiset(shuffled) && DistinctIDs(input)
    ensures out == out'
  {
    SignalLaws();
    forall x, y | x in multiset(input) && y in multiset(input) && CompareSignals(x, y) == 0 ensures x == y {
      var i :| 0 <= i < |input| && input[i] == x;
      var j :| 0 <= j < |input| && input[j] == y;
    }
    SortCanonical(CompareSignals, input, shuffled);
    var s := StableSort(CompareSignals, input);
    RankedUnique(CompareMagnitude, Labels(s), s, out, out');
  }

  /** Sorting neither loses nor invents a signal. */
  lemma SortingPermutes(input: seq<Signal>, out: seq<Signal>)
    requires SortedSignals(input, out)
    ensures multiset(out) == multiset(input)
  {
    var s := StableSort(CompareSignals, input);
    StableSortPermutes(CompareSignals, input);
    RankingPermutes(CompareMagnitude, Labels(s), s, out, Keys(Labels(s)));
  }

  /** The order of the (group, severity, confidence) tiers. */
  function CompareTiers(a: Signal, b: Signal): int {
    Or(Components(a, b)[..3])
  }

  lemma {:induction false} OrPrefix(cs: seq<int>, n: nat)
    requires n <= |cs| && Or(cs) <= 0
    ensures Or(cs[..n]) <= 0
  {
    if n > 0 {
      assert cs[..n][1..] == cs[1..][..n - 1];
      if cs[0] == 0 { OrPrefix(cs[1..], n - 1); }
    }
  }

  predicate SameTier(a: Signal, b: Signal) {
    && PriorityGroup(a) == PriorityGroup(b) && SeverityRank(a.severity) == SeverityRank(b.severity)
    && ConfidenceRank(a.confidence) == ConfidenceRank(b.confidence)
  }

  lemma TiersLead(a: Signal, b: Signal)
    requires CompareSignals(a, b) <= 0
    ensures CompareTiers(a, b) <= 0
  {
    OrPrefix(Components(a, b), 3);
  }

  lemma TiersDecide(a: Signal, b: Signal, a': Signal, b': Signal)
    requires SameTier(a, a') && SameTier(b, b')
    ensures CompareTiers(a, b) == CompareTiers(a', b')
  {
    assert Components(a, b)[..3] == Components(a', b')[..3];
  }

  /** Ranking never leaves a tier, so tiers never go down in priority and back up. */
  lemma TiersStayInOrder(input: seq<Signal>, out: seq<Signal>, i: nat, j: nat)
    requires SortedSignals(input, out) && i < j < |out|
    ensures CompareTiers(out[i], out[j]) <= 0
  {
    var s := StableSort(CompareSignals, input);
    SignalLaws();
    StableSortAscending(CompareSignals, input);
    TierSurvives(s, out, i);
    TierSurvives(s, out, j);
    TiersLead(s[i], s[j]);
    TiersDecide(s[i], s[j], out[i], out[j]);
  }

  lemma TierSurvives(s: seq<Signal>, r: seq<Signal>, p: nat)
    requires Ranked(s, r) && p < |s|
    ensures SameTier(s[p], r[p])
  {
    LabelsSurvive(s, r, p);
  }

  /** A signal without a metric stays exactly where the comparison alone puts it, and every position
      keeps its rule. */
  lemma OthersNeverMove(input: seq<Signal>, out: seq<Signal>, p: nat)
    requires SortedSignals(input, out) && p < |out|
    ensures |out| == |input|
    ensures Metric(out[p]).None? ==> out[p] == StableSort(CompareSignals, input)[p]
    ensures out[p].ruleID == StableSort(CompareSignals, input)[p].ruleID
  {
    var s := StableSort(CompareSignals, input);
    StableSortPermutes(CompareSignals, input);
    LabelsSurvive(s, out, p);
  }

  /** Within one tier each metric rule's metrics are non-increasing. */
  lemma MetricsNonIncreasing(input: seq<Signal>, out: seq<Signal>, i: nat, j: nat)
    requires SortedSignals(input, out) && i < j < |out|
    requires Label(out[i]).Some? && Label(out[i]) == Label(out[j])
    ensures Metric(out[i]).value >= Metric(out[j]).value
  {
    var s := StableSort(CompareSignals, input);
    LabelsSurvive(s, out, i);
    LabelsSurvive(s, out, j);
    GroupAscends(CompareMagnitude, Labels(s), s, out, Label(out[i]).value, i, j);
  }

  lemma GroupAscends<T(!new), K>(cmp: (T, T) -> int, labels: seq<Option<K>>, s: seq<T>, r: seq<T>, key: K, i: nat, j: nat)
    requires RankedFor(cmp, labels, s, r, Keys(labels)) && Lawful(cmp)
    requires i < j < |s| && labels[i] == labels[j] == Some(key)
    ensures cmp(r[i], r[j]) <= 0
  {
    var ps := AllPositions(labels, key);
    var a :| 0 <= a < |ps| && ps[a] == i;
    var b :| 0 <= b < |ps| && ps[b] == j;
    assert a < b;
    StableSortAscending(cmp, Pick(s, ps));
    assert Pick(r, ps)[a] == r[i] && Pick(r, ps)[b] == r[j];
  }
}
