/** Exactly when the ranked list does not show the order its signals came in (pkg/codesignal/sort.go). */
module RankingOrder {
  import opened Filtering
  import opened Options
  import opened Ordering
  import opened Ranking
  import opened Signals

  // ----- sorting as a function -----

  ghost function RankedAt<T, K>(cmp: (T, T) -> int, labels: seq<Option<K>>, s: seq<T>, p: nat): T
    requires p < |s| == |labels|
  {
    if labels[p].None? then s[p]
    else
      var ps := AllPositions(labels, labels[p].value);
      StableSortPermutes(cmp, Pick(s, ps));
      assert |multiset(StableSort(cmp, Pick(s, ps)))| == |multiset(Pick(s, ps))|;
      assert p in ps;
      var k: nat :| k < |ps| && ps[k] == p;
      StableSort(cmp, Pick(s, ps))[k]
  }

  ghost function RankedList<T, K>(cmp: (T, T) -> int, labels: seq<Option<K>>, s: seq<T>): (r: seq<T>)
    requires |s| == |labels|
    ensures |r| == |s| && forall p | 0 <= p < |s| :: r[p] == RankedAt(cmp, labels, s, p)
  {
    seq(|s|, p requires 0 <= p < |s| => RankedAt(cmp, labels, s, p))
  }

  lemma SamePosition(ps: seq<nat>, j: nat, k: nat)
    requires forall a, b | 0 <= a < b < |ps| :: ps[a] < ps[b]
    requires j < |ps| && k < |ps| && ps[j] == ps[k]
    ensures j == k
  {
  }

  lemma RankedGroup<T, K>(cmp: (T, T) -> int, labels: seq<Option<K>>, s: seq<T>, key: K)
    requires |s| == |labels|
    ensures Pick(RankedList(cmp, labels, s), AllPositions(labels, key)) == StableSort(cmp, Pick(s, AllPositions(labels, key)))
  {
    var r, ps := RankedList(cmp, labels, s), AllPositions(labels, key);
    var sorted := StableSort(cmp, Pick(s, ps));
    StableSortPermutes(cmp, Pick(s, ps));
    assert |multiset(sorted)| == |multiset(Pick(s, ps))|;
    forall j | 0 <= j < |ps| ensures r[ps[j]] == sorted[j] {
      forall k | 0 <= k < |ps| && ps[k] == ps[j] ensures k == j { SamePosition(ps, j, k); }
    }
  }

  lemma RankedListRanks<T, K>(cmp: (T, T) -> int, labels: seq<Option<K>>, s: seq<T>)
    requires |s| == |labels|
    ensures RankedFor(cmp, labels, s, RankedList(cmp, labels, s), Ranking.Keys(labels))
  {
    forall key ensures Pick(RankedList(cmp, labels, s), AllPositions(labels, key))
                       == StableSort(cmp, Pick(s, AllPositions(labels, key))) {
      RankedGroup(cmp, labels, s, key);
    }
  }

  ghost function RankedSignals(s: seq<Signal>): seq<Signal> {
    RankedList(CompareMagnitude, Labels(s), s)
  }

  ghost function Sort(input: seq<Signal>): seq<Signal> {
    RankedSignals(StableSort(CompareSignals, input))
  }

  /** Sorting always has one result, and no other. */
  lemma SortIsTheResult(input: seq<Signal>, out: seq<Signal>)
    ensures SortedSignals(input, out) <==> out == Sort(input)
  {
    var s := StableSort(CompareSignals, input);
    RankedListRanks(CompareMagnitude, Labels(s), s);
    if SortedSignals(input, out) { RankedUnique(CompareMagnitude, Labels(s), s, out, Sort(input)); }
  }

  // ----- two arrangements of the same signals -----

  lemma {:induction false} KeepsAtLeast<T>(keep: T -> bool, s: seq<T>, n: nat)
    requires n <= |s| && forall i | 0 <= i < n :: keep(s[i])
    ensures |Filter(keep, s)| >= n
  {
    if n < |s| {
      KeepsAtLeast(keep, s[..|s| - 1], n);
    } else if n > 0 {
      KeepsAtLeast(keep, s[..|s| - 1], n - 1);
    }
  }

  lemma {:induction false} KeepsAtMost<T>(keep: T -> bool, s: seq<T>, n: nat)
    requires n <= |s| && forall i | n <= i < |s| :: !keep(s[i])
    ensures |Filter(keep, s)| <= n
  {
    if n < |s| { KeepsAtMost(keep, s[..|s| - 1], n); }
  }

  lemma NotBelow<T(!new)>(cmp: (T, T) -> int, s: seq<T>, t: seq<T>, p: nat)
    requires Lawful(cmp) && Ascending(cmp, s) && Ascending(cmp, t) && multiset(s) == multiset(t)
    requires p < |s| && p < |t|
    ensures cmp(s[p], t[p]) >= 0
  {
    if cmp(s[p], t[p]) < 0 {
      var low := (x: T) => cmp(x, s[p]) <= 0;
      forall i | 0 <= i < p + 1 ensures low(s[i]) { BelowOrSame(cmp, s, i, p); }
      forall i | p <= i < |t| ensures !low(t[i]) {
        BelowOrSame(cmp, t, p, i);
        assert Chains(cmp(t[p], t[i]), cmp(t[i], s[p]), cmp(t[p], s[p]));
        assert Mirrors(cmp(s[p], t[p]), cmp(t[p], s[p]));
      }
      KeepsAtLeast(low, s, p + 1);
      KeepsAtMost(low, t, p);
      FilterPermutes(low, s, t);
    }
  }

  lemma BelowOrSame<T(!new)>(cmp: (T, T) -> int, s: seq<T>, i: nat, j: nat)
    requires Lawful(cmp) && Ascending(cmp, s) && i <= j < |s|
    ensures cmp(s[i], s[j]) <= 0
  {
    assert Mirrors(cmp(s[i], s[i]), cmp(s[i], s[i]));
    if i < j { assert cmp(s[i], s[j]) <= 0; }
  }

  /** Ascending arrangements of the same entries tie position by position. */
  lemma TiesPositionwise<T(!new)>(cmp: (T, T) -> int, s: seq<T>, t: seq<T>, p: nat)
    requires Lawful(cmp) && Ascending(cmp, s) && Ascending(cmp, t) && multiset(s) == multiset(t) && p < |s|
    ensures |t| == |s| && cmp(s[p], t[p]) == 0
  {
    assert |multiset(s)| == |multiset(t)|;
    NotBelow(cmp, s, t, p);
    NotBelow(cmp, t, s, p);
    assert Mirrors(cmp(s[p], t[p]), cmp(t[p], s[p]));
  }

  // ----- sorting an ascending list by a second comparison -----

  function Refine<T>(outer: (T, T) -> int, inner: (T, T) -> int): (T, T) -> int {
    (x, y) => if outer(x, y) != 0 then outer(x, y) else inner(x, y)
  }

  lemma RefineLawful<T(!new)>(outer: (T, T) -> int, inner: (T, T) -> int)
    requires Lawful(outer) && Lawful(inner)
    ensures Lawful(Refine(outer, inner))
  {
    var both := Refine(outer, inner);
    forall x, y ensures Mirrors(both(x, y), both(y, x)) {
      assert Mirrors(outer(x, y), outer(y, x)) && Mirrors(inner(x, y), inner(y, x));
    }
    forall x, y, z ensures Chains(both(x, y), both(y, z), both(x, z)) {
      assert Chains(outer(x, y), outer(y, z), outer(x, z)) && Chains(inner(x, y), inner(y, z), inner(x, z));
      assert Mirrors(outer(x, y), outer(y, x)) && Mirrors(outer(y, z), outer(z, y)) && Mirrors(outer(x, z), outer(z, x));
    }
  }

  lemma {:induction false} InsertRefined<T>(outer: (T, T) -> int, inner: (T, T) -> int, x: T, s: seq<T>)
    requires forall y | y in s :: inner(x, y) <= 0
    ensures Insert(outer, x, s) == Insert(Refine(outer, inner), x, s)
  {
    if s != [] {
      assert s[0] in s && forall y | y in s[1..] :: y in s;
      InsertRefined(outer, inner, x, s[1..]);
    }
  }

  lemma TailAscends<T>(cmp: (T, T) -> int, s: seq<T>)
    requires Ascending(cmp, s) && s != []
    ensures Ascending(cmp, s[1..])
  {
    forall i, j | 0 <= i < j < |s[1..]| ensures cmp(s[1..][i], s[1..][j]) <= 0 { assert cmp(s[i + 1], s[j + 1]) <= 0; }
  }

  /** Sorting stably what is already ascending sorts by both comparisons. */
  lemma {:induction false} StableSortRefines<T(!new)>(outer: (T, T) -> int, inner: (T, T) -> int, s: seq<T>)
    requires Ascending(inner, s)
    ensures StableSort(outer, s) == StableSort(Refine(outer, inner), s)
  {
    if s != [] {
      TailAscends(inner, s);
      StableSortRefines(outer, inner, s[1..]);
      var sorted := StableSort(outer, s[1..]);
      StableSortPermutes(outer, s[1..]);
      forall y | y in sorted ensures inner(s[0], y) <= 0 {
        assert y in multiset(sorted) && y in multiset(s[1..]);
        var k :| 0 <= k < |s[1..]| && s[1..][k] == y;
        assert s[k + 1] == y;
      }
      InsertRefined(outer, inner, s[0], sorted);
    }
  }

  /** Peers of one magnitude keep the order of the comparison. */
  lemma EqualPeersKeepOrder(input: seq<Signal>, out: seq<Signal>, i: nat, j: nat)
    requires SortedSignals(input, out) && i < j < |out| && Label(out[i]).Some? && Label(out[i]) == Label(out[j])
    requires CompareMagnitude(out[i], out[j]) == 0
    ensures CompareSignals(out[i], out[j]) <= 0
  {
    var s := StableSort(CompareSignals, input);
    SignalLaws();
    StableSortAscending(CompareSignals, input);
    LabelsSurvive(s, out, i);
    LabelsSurvive(s, out, j);
    BothLawful();
    PeersRefined(CompareMagnitude, CompareSignals, Labels(s), s, out, Label(out[i]).value, i, j);
  }

  lemma PeersRefined<T(!new), K>(outer: (T, T) -> int, inner: (T, T) -> int, labels: seq<Option<K>>, s: seq<T>, r: seq<T>, key: K,
                                 i: nat, j: nat)
    requires RankedFor(outer, labels, s, r, Ranking.Keys(labels)) && Lawful(Refine(outer, inner)) && Ascending(inner, s)
    requires i < j < |s| && labels[i] == labels[j] == Some(key)
    ensures Refine(outer, inner)(r[i], r[j]) <= 0
  {
    var ps := AllPositions(labels, key);
    PickedAscends(inner, s, ps);
    SortedBoth(outer, inner, Pick(s, ps));
    var a :| 0 <= a < |ps| && ps[a] == i;
    var b :| 0 <= b < |ps| && ps[b] == j;
    assert a < b && Pick(r, ps)[a] == r[i] && Pick(r, ps)[b] == r[j];
  }

  lemma SortedBoth<T(!new)>(outer: (T, T) -> int, inner: (T, T) -> int, s: seq<T>)
    requires Lawful(Refine(outer, inner)) && Ascending(inner, s)
    ensures Ascending(Refine(outer, inner), StableSort(outer, s))
  {
    StableSortRefines(outer, inner, s);
    StableSortAscending(Refine(outer, inner), s);
  }

  lemma PickedAscends<T>(cmp: (T, T) -> int, s: seq<T>, ps: seq<nat>)
    requires Ascending(cmp, s) && (forall i | 0 <= i < |ps| :: ps[i] < |s|) && forall i, j | 0 <= i < j < |ps| :: ps[i] < ps[j]
    ensures Ascending(cmp, Pick(s, ps))
  {
    forall i, j | 0 <= i < j < |ps| ensures cmp(Pick(s, ps)[i], Pick(s, ps)[j]) <= 0 { assert cmp(s[ps[i]], s[ps[j]]) <= 0; }
  }

  lemma MagnitudeLawful()
    ensures Lawful(CompareMagnitude)
  {
    forall x, y ensures Mirrors(CompareMagnitude(x, y), CompareMagnitude(y, x)) {}
    forall x, y, z ensures Chains(CompareMagnitude(x, y), CompareMagnitude(y, z), CompareMagnitude(x, z)) {}
  }

  // ----- twins -----

  /** Different signals that tie in everything the comparison reads and that no difference in magnitude tells apart. */
  predicate Twins(x: Signal, y: Signal) {
    x != y && CompareSignals(x, y) == 0 && (Metric(x).None? || Metric(y).None? || Metric(x) == Metric(y))
  }

  ghost predicate NoTwins(s: seq<Signal>) {
    forall x, y | x in s && y in s :: !Twins(x, y)
  }

  lemma TieMeansSameTier(x: Signal, y: Signal)
    requires CompareSignals(x, y) == 0
    ensures SameTier(x, y) && (Metric(x).Some? && Metric(y).Some? ==> Label(x) == Label(y))
  {
    OrZero(Components(x, y));
    var cs := Components(x, y);
    assert cs[0] == 0 && cs[1] == 0 && cs[2] == 0 && cs[6] == 0;
    TextDecides(x.ruleID, y.ruleID);
  }

  lemma InBoth<T>(s: seq<T>, t: seq<T>, x: T)
    requires multiset(s) == multiset(t) && x in s
    ensures x in t
  {
    assert x in multiset(t);
  }

  /** Without twins two arrangements agree on every unlabelled entry and on every label. */
  lemma SameLabels(s: seq<Signal>, t: seq<Signal>, p: nat)
    requires Ascending(CompareSignals, s) && Ascending(CompareSignals, t) && multiset(s) == multiset(t)
    requires NoTwins(s) && p < |s|
    ensures |t| == |s| && Label(s[p]) == Label(t[p]) && (Label(s[p]).None? ==> s[p] == t[p])
  {
    SignalLaws();
    TiesPositionwise(CompareSignals, s, t, p);
    InBoth(t, s, t[p]);
    assert s[p] in s && !Twins(s[p], t[p]);
    if s[p] != t[p] { TieMeansSameTier(s[p], t[p]); }
  }

  lemma FilterPrefix<T>(keep: T -> bool, s: seq<T>, n: nat)
    requires 0 < n <= |s|
    ensures Filter(keep, s[..n]) == Filter(keep, s[..n - 1]) + if keep(s[n - 1]) then [s[n - 1]] else []
  {
    assert s[..n][..n - 1] == s[..n - 1];
  }

  lemma {:induction false} GroupFilter(s: seq<Signal>, key: PeerKey, n: nat)
    requires n <= |s|
    ensures Pick(s, Positions(Labels(s), key, n)) == Filter(Labelled(key), s[..n])
  {
    if n > 0 {
      GroupFilter(s, key, n - 1);
      FilterPrefix(Labelled(key), s, n);
      PositionsSnoc(Labels(s), key, n);
      PickSnoc(s, Positions(Labels(s), key, n - 1), n - 1);
    }
  }

  function Labelled(key: PeerKey): Signal -> bool {
    (x: Signal) => Label(x) == Some(key)
  }

  lemma PickAscends(s: seq<Signal>, ps: seq<nat>)
    requires Ascending(CompareSignals, s) && forall i | 0 <= i < |ps| :: ps[i] < |s|
    requires forall i, j | 0 <= i < j < |ps| :: ps[i] < ps[j]
    ensures Ascending(CompareSignals, Pick(s, ps))
  {
    var picked := Pick(s, ps);
    forall i, j | 0 <= i < j < |picked| ensures CompareSignals(picked[i], picked[j]) <= 0 {
      assert CompareSignals(s[ps[i]], s[ps[j]]) <= 0;
    }
  }

  lemma GroupPermutes(s: seq<Signal>, t: seq<Signal>, key: PeerKey)
    requires multiset(s) == multiset(t)
    ensures var a, b := Pick(s, AllPositions(Labels(s), key)), Pick(t, AllPositions(Labels(t), key));
            multiset(a) == multiset(b) && forall x | x in a :: x in s && Label(x) == Some(key)
  {
    GroupFilter(s, key, |s|);
    GroupFilter(t, key, |t|);
    assert s[..|s|] == s && t[..|t|] == t;
    FilterPermutes(Labelled(key), s, t);
  }

  lemma TwinsOrSame(x: Signal, y: Signal, key: PeerKey)
    requires Label(x) == Label(y) == Some(key) && Refine(CompareMagnitude, CompareSignals)(x, y) == 0
    ensures x == y || Twins(x, y)
  {
    assert CompareMagnitude(x, y) == 0 && CompareSignals(x, y) == 0;
    assert Metric(x).Some? && Metric(y).Some?;
  }

  /** Within a group of a list without twins only equal signals tie in magnitude and comparison. */
  lemma GroupDecides(group: seq<Signal>, s: seq<Signal>, key: PeerKey)
    requires NoTwins(s) && forall x | x in group :: x in s && Label(x) == Some(key)
    ensures DecisiveOn(Refine(CompareMagnitude, CompareSignals), multiset(group))
  {
    var both := Refine(CompareMagnitude, CompareSignals);
    forall x, y | x in multiset(group) && y in multiset(group) && both(x, y) == 0 ensures x == y {
      assert x in group && y in group && !Twins(x, y);
      TwinsOrSame(x, y, key);
    }
  }

  lemma BothLawful()
    ensures Lawful(Refine(CompareMagnitude, CompareSignals))
  {
    SignalLaws();
    MagnitudeLawful();
    RefineLawful(CompareMagnitude, CompareSignals);
  }

  /** Without twins a peer group is ranked the same way in both arrangements. */
  lemma SameGroup(s: seq<Signal>, t: seq<Signal>, key: PeerKey)
    requires Ascending(CompareSignals, s) && Ascending(CompareSignals, t) && multiset(s) == multiset(t) && NoTwins(s)
    ensures StableSort(CompareMagnitude, Pick(s, AllPositions(Labels(s), key)))
            == StableSort(CompareMagnitude, Pick(t, AllPositions(Labels(t), key)))
  {
    var a, b := Pick(s, AllPositions(Labels(s), key)), Pick(t, AllPositions(Labels(t), key));
    GroupPermutes(s, t, key);
    PickAscends(s, AllPositions(Labels(s), key));
    PickAscends(t, AllPositions(Labels(t), key));
    StableSortRefines(CompareMagnitude, CompareSignals, a);
    StableSortRefines(CompareMagnitude, CompareSignals, b);
    BothLawful();
    GroupDecides(a, s, key);
    SortCanonical(Refine(CompareMagnitude, CompareSignals), a, b);
  }

  /** Without twins the order the signals came in does not show. */
  lemma NoTwinsOrderFree(input: seq<Signal>, shuffled: seq<Signal>)
    requires multiset(input) == multiset(shuffled) && NoTwins(input)
    ensures Sort(input) == Sort(shuffled)
  {
    var s, t := StableSort(CompareSignals, input), StableSort(CompareSignals, shuffled);
    SignalLaws();
    StableSortAscending(CompareSignals, input);
    StableSortAscending(CompareSignals, shuffled);
    StableSortPermutes(CompareSignals, input);
    StableSortPermutes(CompareSignals, shuffled);
    assert NoTwins(s) by {
      forall x, y | x in s && y in s ensures !Twins(x, y) {
        InBoth(s, input, x);
        InBoth(s, input, y);
      }
    }
    SameArrangement(s, t);
  }

  lemma SameArrangement(s: seq<Signal>, t: seq<Signal>)
    requires Ascending(CompareSignals, s) && Ascending(CompareSignals, t) && multiset(s) == multiset(t) && NoTwins(s)
    ensures RankedSignals(s) == RankedSignals(t)
  {
    assert |multiset(s)| == |multiset(t)|;
    forall p | 0 <= p < |s| ensures Label(s[p]) == Label(t[p]) { SameLabels(s, t, p); }
    assert Labels(s) == Labels(t);
    forall p | 0 <= p < |s| ensures RankedAt(CompareMagnitude, Labels(s), s, p) == RankedAt(CompareMagnitude, Labels(t), t, p) {
      SameLabels(s, t, p);
      if Labels(s)[p].Some? { SameGroup(s, t, Labels(s)[p].value); }
    }
  }

  // ----- twins show -----

  lemma TiesPair<T>(cmp: (T, T) -> int, x: T, a: T, b: T)
    requires cmp(x, a) == 0 && cmp(x, b) == 0
    ensures Ties(cmp, x, [a, b]) == [a, b]
  {
    assert [a, b][1..] == [b] && [b][1..] == [];
    assert Ties(cmp, x, [b]) == [b] + Ties(cmp, x, []);
  }

  lemma TiesAround<T>(cmp: (T, T) -> int, x: T, before: seq<T>, pair: seq<T>, after: seq<T>)
    requires |pair| == 2 && cmp(x, pair[0]) == 0 && cmp(x, pair[1]) == 0
    ensures Ties(cmp, x, before + pair + after) == Ties(cmp, x, before) + pair + Ties(cmp, x, after)
  {
    TiesConcat(cmp, x, before + pair, after);
    TiesConcat(cmp, x, before, pair);
    assert pair == [pair[0], pair[1]];
    TiesPair(cmp, x, pair[0], pair[1]);
  }

  /** Swapping two tied neighbours of a list shows in its stable sort. */
  lemma SwapShows<T(!new)>(cmp: (T, T) -> int, x: T, y: T, before: seq<T>, after: seq<T>)
    requires Lawful(cmp) && cmp(x, y) == 0 && x != y
    ensures StableSort(cmp, before + [x, y] + after) != StableSort(cmp, before + [y, x] + after)
  {
    assert Mirrors(cmp(x, x), cmp(x, x));
    StableSortKeepsTies(cmp, x, before + [x, y] + after);
    StableSortKeepsTies(cmp, x, before + [y, x] + after);
    TiesAround(cmp, x, before, [x, y], after);
    TiesAround(cmp, x, before, [y, x], after);
    var n := |Ties(cmp, x, before)|;
    assert (Ties(cmp, x, before) + [x, y] + Ties(cmp, x, after))[n] == x;
    assert (Ties(cmp, x, before) + [y, x] + Ties(cmp, x, after))[n] == y;
  }

  lemma Neighbours(ps: seq<nat>, p: nat)
    returns (k: nat)
    requires forall i, j | 0 <= i < j < |ps| :: ps[i] < ps[j]
    requires p in ps && p + 1 in ps
    ensures k + 1 < |ps| && ps[k] == p && ps[k + 1] == p + 1
  {
    k :| 0 <= k < |ps| && ps[k] == p;
    var m :| 0 <= m < |ps| && ps[m] == p + 1;
    assert forall i | 0 <= i <= k :: ps[i] <= p;
    var next, last := ps[k + 1], ps[m];
    assert k + 1 < m ==> next < last;
  }

  lemma OtherPosition(ps: seq<nat>, j: nat, k: nat)
    requires forall a, b | 0 <= a < b < |ps| :: ps[a] < ps[b]
    requires j < |ps| && k < |ps| && j != k
    ensures ps[j] != ps[k]
  {
  }

  lemma SplitAt<T>(s: seq<T>, k: nat)
    requires k + 1 < |s|
    ensures s == s[..k] + [s[k], s[k + 1]] + s[k + 2..]
  {
  }

  /** Two lists that differ in two swapped neighbours, picked at positions that hold both, differ in the same way. */
  lemma PicksSwapped<T>(s: seq<T>, t: seq<T>, p: nat, ps: seq<nat>)
    returns (before: seq<T>, after: seq<T>)
    requires p + 1 < |s| == |t| && t[p] == s[p + 1] && t[p + 1] == s[p]
    requires forall i | 0 <= i < |s| && i != p && i != p + 1 :: s[i] == t[i]
    requires forall i | 0 <= i < |ps| :: ps[i] < |s|
    requires (forall i, j | 0 <= i < j < |ps| :: ps[i] < ps[j]) && p in ps && p + 1 in ps
    ensures Pick(s, ps) == before + [s[p], s[p + 1]] + after
    ensures Pick(t, ps) == before + [s[p + 1], s[p]] + after
  {
    var k := Neighbours(ps, p);
    var a, b := Pick(s, ps), Pick(t, ps);
    before, after := a[..k], a[k + 2..];
    forall i | 0 <= i < |ps| && i != k && i != k + 1 ensures a[i] == b[i] {
      OtherPosition(ps, i, k);
      OtherPosition(ps, i, k + 1);
    }
    SplitAt(a, k);
    SplitAt(b, k);
    SameAround(a, b, k);
  }

  lemma SameAround<T>(a: seq<T>, b: seq<T>, k: nat)
    requires k + 1 < |a| == |b| && forall i | 0 <= i < |a| && i != k && i != k + 1 :: a[i] == b[i]
    ensures a[..k] == b[..k] && a[k + 2..] == b[k + 2..]
  {
  }

  /** Swapping two tied neighbours with one label and one magnitude shows in their group. */
  lemma GroupShows(s: seq<Signal>, t: seq<Signal>, p: nat, key: PeerKey)
    requires Swapped(s, t, p) && Labels(s) == Labels(t) && Label(s[p]) == Label(s[p + 1]) == Some(key)
    requires CompareMagnitude(s[p], s[p + 1]) == 0 && s[p] != s[p + 1]
    ensures StableSort(CompareMagnitude, Pick(s, AllPositions(Labels(s), key)))
            != StableSort(CompareMagnitude, Pick(t, AllPositions(Labels(t), key)))
  {
    var before, after := PicksSwapped(s, t, p, AllPositions(Labels(s), key));
    MagnitudeLawful();
    SwapShows(CompareMagnitude, s[p], s[p + 1], before, after);
  }

  lemma RankedKeepsLabel(s: seq<Signal>, p: nat)
    requires p < |s|
    ensures Label(RankedSignals(s)[p]) == Label(s[p]) && (Label(s[p]).None? ==> RankedSignals(s)[p] == s[p])
  {
    RankedListRanks(CompareMagnitude, Labels(s), s);
    LabelsSurvive(s, RankedSignals(s), p);
  }

  ghost predicate Swapped(s: seq<Signal>, t: seq<Signal>, p: nat) {
    && p + 1 < |s| == |t| && t[p] == s[p + 1] && t[p + 1] == s[p]
    && forall i | 0 <= i < |s| && i != p && i != p + 1 :: s[i] == t[i]
  }

  lemma SameRankingSameLabel(s: seq<Signal>, t: seq<Signal>, p: nat)
    requires Swapped(s, t, p) && RankedSignals(s) == RankedSignals(t) && s[p] != s[p + 1]
    ensures Label(s[p]).Some? && Label(s[p]) == Label(s[p + 1]) && Labels(s) == Labels(t)
  {
    RankedKeepsLabel(s, p);
    RankedKeepsLabel(t, p);
    forall i | 0 <= i < |s| ensures Labels(s)[i] == Labels(t)[i] { SwappedLabel(s, t, p, i); }
  }

  lemma SwappedLabel(s: seq<Signal>, t: seq<Signal>, p: nat, i: nat)
    requires Swapped(s, t, p) && Label(s[p]) == Label(s[p + 1]) && i < |s|
    ensures Labels(s)[i] == Labels(t)[i]
  {
  }

  /** Swapping twin neighbours shows in the ranked list. */
  lemma SwappedTwinsShow(s: seq<Signal>, t: seq<Signal>, p: nat)
    requires Swapped(s, t, p) && Twins(s[p], s[p + 1])
    ensures RankedSignals(s) != RankedSignals(t)
  {
    if RankedSignals(s) == RankedSignals(t) {
      SameRankingSameLabel(s, t, p);
      var key := Label(s[p]).value;
      GroupShows(s, t, p, key);
      RankedGroup(CompareMagnitude, Labels(s), s, key);
      RankedGroup(CompareMagnitude, Labels(t), t, key);
    }
  }

  lemma SwapAround(before: seq<Signal>, x: Signal, y: Signal, after: seq<Signal>)
    requires Twins(x, y)
    ensures RankedSignals(before + [x, y] + after) != RankedSignals(before + [y, x] + after)
  {
    SwappedTwinsShow(before + [x, y] + after, before + [y, x] + after, |before|);
  }

  /** Twins show: some two orders of the same signals are ranked differently. */
  lemma TwinsShow(input: seq<Signal>, x: Signal, y: Signal)
    returns (a: seq<Signal>, b: seq<Signal>)
    requires x in input && y in input && Twins(x, y)
    ensures multiset(a) == multiset(input) && multiset(b) == multiset(input) && Sort(a) != Sort(b)
  {
    var rest := TwoAndTheRest(input, x, y);
    a, b := [x] + ([y] + rest), [y] + ([x] + rest);
    SortTwo(x, y, rest);
    SortTwo(y, x, rest);
    SignalLaws();
    var before, after := InsertedSideBySide(CompareSignals, x, y, StableSort(CompareSignals, rest));
    SwapAround(before, x, y, after);
  }

  lemma SortTwo(x: Signal, y: Signal, s: seq<Signal>)
    ensures StableSort(CompareSignals, [x] + ([y] + s))
            == Insert(CompareSignals, x, Insert(CompareSignals, y, StableSort(CompareSignals, s)))
  {
    assert ([x] + ([y] + s))[1..] == [y] + s && ([y] + s)[1..] == s;
  }

  /** The order the signals came in is invisible exactly when there are no twins among them. */
  lemma OrderFreeExactlyWhen(input: seq<Signal>)
    ensures NoTwins(input) <==>
            forall s, t | multiset(s) == multiset(input) && multiset(t) == multiset(input) :: Sort(s) == Sort(t)
  {
    if NoTwins(input) {
      forall s, t | multiset(s) == multiset(input) && multiset(t) == multiset(input) ensures Sort(s) == Sort(t) {
        NoTwinsOrderFree(input, s);
        NoTwinsOrderFree(input, t);
      }
    } else {
      var x, y :| x in input && y in input && Twins(x, y);
      var a, b := TwinsShow(input, x, y);
    }
  }

  /** Distinct ids leave no twins. */
  lemma DistinctIDsHaveNoTwins(s: seq<Signal>)
    requires DistinctIDs(s)
    ensures NoTwins(s)
  {
    SignalLaws();
    forall x, y | x in s && y in s ensures !Twins(x, y) {
      var i :| 0 <= i < |s| && s[i] == x;
      var j :| 0 <= j < |s| && s[j] == y;
    }
  }
}
