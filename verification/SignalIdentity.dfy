/** Fingerprints, ids and lifecycles of the signals of one file change (pkg/codesignal/lifecycle.go,
    signal_key.go, fingerprint.go). */
module SignalIdentity {
  import opened FieldEncoding
  import opened Filtering
  import opened Grouping
  import opened Options
  import opened Ordering
  import Ranking
  import opened Signals

  /** normalizePath, normalizeEvidence and the hash in hexadecimal. Nothing is assumed of the normalisers;
      the hash is taken as injective where that matters. */
  datatype Rules = Rules(path: string -> string, evidence: string -> string, hash: string -> string)

  datatype Key = Key(ruleID: string, path: string, subject: string, evidence: string)

  function KeyOf(r: Rules, s: Signal): Key {
    Key(s.ruleID, r.path(s.path), s.subject, r.evidence(s.evidence))
  }

  function Mark(r: Rules): Signal -> Option<Key> {
    (s: Signal) => Some(KeyOf(r, s))
  }

  function ComputeFingerprint(r: Rules, s: Signal, ordinal: nat): string {
    "fp_" + r.hash(Encode([s.ruleID, r.path(s.path), s.subject, r.evidence(s.evidence), Itoa(ordinal)]))
  }

  function ComputeSignalID(r: Rules, s: Signal, ordinal: nat): string {
    "sig_" + r.hash(Encode([s.ruleID, r.path(s.path), s.subject, r.evidence(s.evidence),
                            Itoa(s.startRow), Itoa(s.startCol), Itoa(ordinal)]))
  }

  function PlaceParts(a: Signal, b: Signal): seq<int> {
    [CompareInt(a.startRow, b.startRow), CompareInt(a.startCol, b.startCol), CompareInt(a.startByte, b.startByte)]
  }

  function CompareLocation(a: Signal, b: Signal): int {
    Or(PlaceParts(a, b))
  }

  function KeyParts(a: Key, b: Key): seq<int> {
    [CompareText(a.ruleID, b.ruleID), CompareText(a.path, b.path), CompareText(a.subject, b.subject),
     CompareText(a.evidence, b.evidence)]
  }

  function CompareKeys(a: Key, b: Key): int {
    Or(KeyParts(a, b))
  }

  lemma KeyMirrors(a: Key, b: Key)
    ensures Mirrors(CompareKeys(a, b), CompareKeys(b, a))
  {
    TextMirrors(a.ruleID, b.ruleID);
    TextMirrors(a.path, b.path);
    TextMirrors(a.subject, b.subject);
    TextMirrors(a.evidence, b.evidence);
    OrMirrors(KeyParts(a, b), KeyParts(b, a));
  }

  lemma KeyChains(a: Key, b: Key, c: Key)
    ensures Chains(CompareKeys(a, b), CompareKeys(b, c), CompareKeys(a, c))
  {
    TextChains(a.ruleID, b.ruleID, c.ruleID);
    TextChains(a.path, b.path, c.path);
    TextChains(a.subject, b.subject, c.subject);
    TextChains(a.evidence, b.evidence, c.evidence);
    OrChains(KeyParts(a, b), KeyParts(b, c), KeyParts(a, c));
  }

  lemma KeyDecides(a: Key, b: Key)
    ensures CompareKeys(a, b) == 0 <==> a == b
  {
    TextDecides(a.ruleID, b.ruleID);
    TextDecides(a.path, b.path);
    TextDecides(a.subject, b.subject);
    TextDecides(a.evidence, b.evidence);
    var cs := KeyParts(a, b);
    OrZero(cs);
    if CompareKeys(a, b) == 0 { assert cs[0] == 0 && cs[1] == 0 && cs[2] == 0 && cs[3] == 0; }
  }

  lemma KeyLaws()
    ensures Lawful(CompareKeys) && Decisive(CompareKeys)
  {
    forall a, b ensures Mirrors(CompareKeys(a, b), CompareKeys(b, a)) { KeyMirrors(a, b); }
    forall a, b, c ensures Chains(CompareKeys(a, b), CompareKeys(b, c), CompareKeys(a, c)) { KeyChains(a, b, c); }
    forall a, b ensures CompareKeys(a, b) == 0 <==> a == b { KeyDecides(a, b); }
  }

  // ----- the result as a value -----

  /** A key's signals in location order: the position is the occurrence ordinal. */
  function Occurrences(r: Rules, signals: seq<Signal>, key: Key): seq<Signal> {
    StableSort(CompareLocation, Group(signals, Mark(r), key))
  }

  function Count(r: Rules, signals: seq<Signal>, key: Key): (n: nat) {
    |Group(signals, Mark(r), key)|
  }

  /** The lifecycle of a head signal from its ordinal and its key's count on the base side. */
  function HeadLifecycle(hasBase: bool, ordinal: nat, baseCount: nat, noBase: string): string {
    if !hasBase then noBase
    else if ordinal < baseCount then "existing"
    else if baseCount == 0 then "introduced"
    else "unknown"
  }

  /** One emitted signal before it is stamped. */
  datatype Emission = Emission(source: Signal, ordinal: nat, lifecycle: string)

  function Stamp(r: Rules, e: Emission): Signal {
    e.source.(lifecycle := e.lifecycle, fingerprint := ComputeFingerprint(r, e.source, e.ordinal),
              id := ComputeSignalID(r, e.source, e.ordinal))
  }

  function Stamped(r: Rules): Emission -> Signal {
    (e: Emission) => Stamp(r, e)
  }

  /** The head signals of one key from ordinal 0. */
  function HeadRun(hasBase: bool, group: seq<Signal>, baseCount: nat, noBase: string): (es: seq<Emission>)
    ensures |es| == |group|
    ensures forall i | 0 <= i < |group| :: es[i] == Emission(group[i], i, HeadLifecycle(hasBase, i, baseCount, noBase))
  {
    seq(|group|, i requires 0 <= i < |group| => Emission(group[i], i, HeadLifecycle(hasBase, i, baseCount, noBase)))
  }

  /** The base signals of one key past those the head side matches. */
  function ResolvedRun(group: seq<Signal>, headCount: nat): (es: seq<Emission>)
    ensures |es| == if |group| > headCount then |group| - headCount else 0
    ensures forall i | 0 <= i < |es| :: es[i] == Emission(group[headCount + i], headCount + i, "resolved")
  {
    if |group| <= headCount then []
    else seq(|group| - headCount, i requires 0 <= i < |group| - headCount => Emission(group[headCount + i], headCount + i, "resolved"))
  }

  datatype Change = Change(hasBase: bool, head: seq<Signal>, base: seq<Signal>, noBase: string)

  function HeadEmissions(r: Rules, c: Change, keys: seq<Key>): seq<Emission> {
    if keys == [] then []
    else
      var n := |keys| - 1;
      HeadEmissions(r, c, keys[..n]) + HeadRun(c.hasBase, Occurrences(r, c.head, keys[n]), Count(r, c.base, keys[n]), c.noBase)
  }

  function BaseEmissions(r: Rules, c: Change, keys: seq<Key>): seq<Emission> {
    if keys == [] then []
    else
      var n := |keys| - 1;
      BaseEmissions(r, c, keys[..n]) + ResolvedRun(Occurrences(r, c.base, keys[n]), Count(r, c.head, keys[n]))
  }

  ghost function KeyList(r: Rules, signals: seq<Signal>): seq<Key> {
    SortedSet(CompareKeys, Keys(signals, Mark(r)))
  }

  ghost function Emissions(r: Rules, c: Change): seq<Emission> {
    HeadEmissions(r, c, KeyList(r, c.head)) + BaseEmissions(r, c, KeyList(r, c.base))
  }

  ghost function Classified(r: Rules, c: Change): seq<Signal> {
    Map(Stamped(r), Emissions(r, c))
  }

  // ----- the loops -----

  /** Groups in location order; a missing key reads as the empty group. */
  ghost predicate Ordered(r: Rules, signals: seq<Signal>, groups: map<Key, seq<Signal>>) {
    && groups.Keys == Keys(signals, Mark(r))
    && forall key :: (if key in groups then groups[key] else []) == Occurrences(r, signals, key)
  }

  method GroupAndOrder(r: Rules, signals: seq<Signal>) returns (groups: map<Key, seq<Signal>>)
    ensures Ordered(r, signals, groups)
  {
    var byKey := GroupBy(signals, Mark(r));
    groups := map[];
    var rest := byKey.Keys;
    while rest != {}
      invariant rest <= byKey.Keys && groups.Keys == byKey.Keys - rest
      invariant forall key | key in groups :: groups[key] == StableSort(CompareLocation, byKey[key])
    {
      var key :| key in rest;
      groups := groups[key := StableSort(CompareLocation, byKey[key])];
      rest := rest - {key};
    }
    forall key ensures key in groups <==> Group(signals, Mark(r), key) != [] {}
  }

  method AppendHead(r: Rules, hasBase: bool, result: seq<Signal>, group: seq<Signal>, baseCount: nat, noBase: string)
    returns (out: seq<Signal>)
    ensures out == result + Map(Stamped(r), HeadRun(hasBase, group, baseCount, noBase))
  {
    out := result;
    ghost var run := Map(Stamped(r), HeadRun(hasBase, group, baseCount, noBase));
    for i := 0 to |group|
      invariant out == result + run[..i]
    {
      var sig := group[i];
      var lifecycle := "unknown";
      if !hasBase { lifecycle := noBase; }
      else if i < baseCount { lifecycle := "existing"; }
      else if baseCount == 0 { lifecycle := "introduced"; }
      var stamped := sig.(lifecycle := lifecycle, fingerprint := ComputeFingerprint(r, sig, i), id := ComputeSignalID(r, sig, i));
      assert run[i] == stamped;
      out := out + [stamped];
    }
  }

  method AppendResolved(r: Rules, result: seq<Signal>, group: seq<Signal>, headCount: nat) returns (out: seq<Signal>)
    ensures out == result + Map(Stamped(r), ResolvedRun(group, headCount))
  {
    out := result;
    ghost var run := Map(Stamped(r), ResolvedRun(group, headCount));
    for i := 0 to |group|
      invariant out == result + run[..if i < headCount then 0 else i - headCount]
    {
      if i >= headCount {
        var sig := group[i];
        var stamped := sig.(lifecycle := "resolved", fingerprint := ComputeFingerprint(r, sig, i), id := ComputeSignalID(r, sig, i));
        assert run[i - headCount] == stamped;
        out := out + [stamped];
      }
    }
  }

  method ClassifyFileSignals(r: Rules, c: Change) returns (result: seq<Signal>)
    ensures result == Classified(r, c)
  {
    KeyLaws();
    var headGroups := GroupAndOrder(r, c.head);
    var baseGroups := GroupAndOrder(r, c.base);
    var headKeys := KeysSorted(CompareKeys, headGroups.Keys);
    var baseKeys := KeysSorted(CompareKeys, baseGroups.Keys);
    result := ClassifyHead(r, c, headGroups, baseGroups, headKeys);
    result := ClassifyBase(r, c, headGroups, baseGroups, baseKeys, result);
    MapConcat(Stamped(r), HeadEmissions(r, c, headKeys), BaseEmissions(r, c, baseKeys));
  }

  lemma OccurrencesCount(r: Rules, signals: seq<Signal>, key: Key)
    ensures |Occurrences(r, signals, key)| == Count(r, signals, key)
  {
    StableSortPermutes(CompareLocation, Group(signals, Mark(r), key));
  }

  /** What one more key adds to the head signals. */
  lemma HeadStep(r: Rules, c: Change, keys: seq<Key>, i: nat)
    requires i < |keys|
    ensures Map(Stamped(r), HeadEmissions(r, c, keys[..i + 1]))
            == Map(Stamped(r), HeadEmissions(r, c, keys[..i]))
               + Map(Stamped(r), HeadRun(c.hasBase, Occurrences(r, c.head, keys[i]), Count(r, c.base, keys[i]), c.noBase))
  {
    assert keys[..i + 1][..i] == keys[..i];
    MapConcat(Stamped(r), HeadEmissions(r, c, keys[..i]),
              HeadRun(c.hasBase, Occurrences(r, c.head, keys[i]), Count(r, c.base, keys[i]), c.noBase));
  }

  /** What one more key adds to the resolved signals. */
  lemma BaseStep(r: Rules, c: Change, keys: seq<Key>, i: nat, before: seq<Signal>)
    requires i < |keys|
    ensures before + Map(Stamped(r), BaseEmissions(r, c, keys[..i + 1]))
            == before + Map(Stamped(r), BaseEmissions(r, c, keys[..i]))
               + Map(Stamped(r), ResolvedRun(Occurrences(r, c.base, keys[i]), Count(r, c.head, keys[i])))
  {
    var run := ResolvedRun(Occurrences(r, c.base, keys[i]), Count(r, c.head, keys[i]));
    assert keys[..i + 1][..i] == keys[..i];
    MapConcat(Stamped(r), BaseEmissions(r, c, keys[..i]), run);
    Associate(before, Map(Stamped(r), BaseEmissions(r, c, keys[..i])), Map(Stamped(r), run));
  }

  method ClassifyHead(r: Rules, c: Change, headGroups: map<Key, seq<Signal>>, baseGroups: map<Key, seq<Signal>>, keys: seq<Key>)
    returns (result: seq<Signal>)
    requires Ordered(r, c.head, headGroups) && Ordered(r, c.base, baseGroups)
    ensures result == Map(Stamped(r), HeadEmissions(r, c, keys))
  {
    result := [];
    for i := 0 to |keys|
      invariant result == Map(Stamped(r), HeadEmissions(r, c, keys[..i]))
    {
      var k := keys[i];
      var headGroup := if k in headGroups then headGroups[k] else [];
      var baseGroup := if k in baseGroups then baseGroups[k] else [];
      OccurrencesCount(r, c.base, k);
      HeadStep(r, c, keys, i);
      result := AppendHead(r, c.hasBase, result, headGroup, |baseGroup|, c.noBase);
    }
    assert keys[..|keys|] == keys;
  }

  method ClassifyBase(r: Rules, c: Change, headGroups: map<Key, seq<Signal>>, baseGroups: map<Key, seq<Signal>>, keys: seq<Key>,
                      before: seq<Signal>)
    returns (result: seq<Signal>)
    requires Ordered(r, c.head, headGroups) && Ordered(r, c.base, baseGroups)
    ensures result == before + Map(Stamped(r), BaseEmissions(r, c, keys))
  {
    result := before;
    for i := 0 to |keys|
      invariant result == before + Map(Stamped(r), BaseEmissions(r, c, keys[..i]))
    {
      var k := keys[i];
      var headGroup := if k in headGroups then headGroups[k] else [];
      var baseGroup := if k in baseGroups then baseGroups[k] else [];
      OccurrencesCount(r, c.head, k);
      BaseStep(r, c, keys, i, before);
      result := AppendResolved(r, result, baseGroup, |headGroup|);
    }
    assert keys[..|keys|] == keys;
  }

  // ----- what is emitted -----

  /** What identifies an emission: its key and its ordinal. */
  datatype Tag = Tag(key: Key, ordinal: nat)

  function TagOf(r: Rules, e: Emission): Tag {
    Tag(KeyOf(r, e.source), e.ordinal)
  }

  ghost predicate DistinctTags(r: Rules, es: seq<Emission>) {
    forall i, j | 0 <= i < j < |es| :: TagOf(r, es[i]) != TagOf(r, es[j])
  }

  /** The head emissions of `keys` are, per key, one for each occurrence. */
  ghost predicate HeadTag(r: Rules, c: Change, keys: seq<Key>, t: Tag, lifecycle: string) {
    && t.key in keys && t.ordinal < Count(r, c.head, t.key)
    && lifecycle == HeadLifecycle(c.hasBase, t.ordinal, Count(r, c.base, t.key), c.noBase)
  }

  ghost predicate BaseTag(r: Rules, c: Change, keys: seq<Key>, t: Tag, lifecycle: string) {
    && t.key in keys && Count(r, c.head, t.key) <= t.ordinal < Count(r, c.base, t.key) && lifecycle == "resolved"
  }

  lemma OccurrenceKeys(r: Rules, signals: seq<Signal>, key: Key)
    ensures |Occurrences(r, signals, key)| == Count(r, signals, key)
    ensures forall s | s in Occurrences(r, signals, key) :: KeyOf(r, s) == key
  {
    var group := Group(signals, Mark(r), key);
    StableSortPermutes(CompareLocation, group);
    forall s | s in Occurrences(r, signals, key) ensures KeyOf(r, s) == key {
      assert s in multiset(Occurrences(r, signals, key)) && s in multiset(group);
      GroupMembers(signals, Mark(r), key, s);
    }
  }

  lemma {:induction false} HeadTags(r: Rules, c: Change, keys: seq<Key>, e: Emission)
    requires e in HeadEmissions(r, c, keys)
    ensures HeadTag(r, c, keys, TagOf(r, e), e.lifecycle)
  {
    var n := |keys| - 1;
    if e in HeadEmissions(r, c, keys[..n]) {
      HeadTags(r, c, keys[..n], e);
    } else {
      OccurrenceKeys(r, c.head, keys[n]);
    }
  }

  lemma {:induction false} BaseTags(r: Rules, c: Change, keys: seq<Key>, e: Emission)
    requires e in BaseEmissions(r, c, keys)
    ensures BaseTag(r, c, keys, TagOf(r, e), e.lifecycle)
  {
    var n := |keys| - 1;
    if e in BaseEmissions(r, c, keys[..n]) {
      BaseTags(r, c, keys[..n], e);
    } else {
      OccurrenceKeys(r, c.base, keys[n]);
    }
  }

  lemma {:induction false} HeadTagEmitted(r: Rules, c: Change, keys: seq<Key>, t: Tag, lifecycle: string) returns (e: Emission)
    requires HeadTag(r, c, keys, t, lifecycle)
    ensures e in HeadEmissions(r, c, keys) && TagOf(r, e) == t && e.lifecycle == lifecycle
  {
    var n := |keys| - 1;
    if t.key == keys[n] {
      OccurrenceKeys(r, c.head, t.key);
      var run := HeadRun(c.hasBase, Occurrences(r, c.head, t.key), Count(r, c.base, t.key), c.noBase);
      e := run[t.ordinal];
      assert e in run;
    } else {
      e := HeadTagEmitted(r, c, keys[..n], t, lifecycle);
    }
  }

  lemma {:induction false} BaseTagEmitted(r: Rules, c: Change, keys: seq<Key>, t: Tag, lifecycle: string) returns (e: Emission)
    requires BaseTag(r, c, keys, t, lifecycle)
    ensures e in BaseEmissions(r, c, keys) && TagOf(r, e) == t && e.lifecycle == lifecycle
  {
    var n := |keys| - 1;
    if t.key == keys[n] {
      OccurrenceKeys(r, c.base, t.key);
      var run := ResolvedRun(Occurrences(r, c.base, t.key), Count(r, c.head, t.key));
      e := run[t.ordinal - Count(r, c.head, t.key)];
      assert e in run;
    } else {
      e := BaseTagEmitted(r, c, keys[..n], t, lifecycle);
    }
  }

  /** Two lists without a common tag, each with distinct tags, have distinct tags together. */
  lemma AppendTags(r: Rules, a: seq<Emission>, b: seq<Emission>)
    requires DistinctTags(r, a) && DistinctTags(r, b)
    requires forall d, e | d in a && e in b :: TagOf(r, d) != TagOf(r, e)
    ensures DistinctTags(r, a + b)
  {
    var ab := a + b;
    forall i, j | 0 <= i < j < |ab| ensures TagOf(r, ab[i]) != TagOf(r, ab[j]) {
      if i < |a| <= j { assert ab[i] in a && ab[j] in b; }
    }
  }

  lemma {:induction false} HeadTagsDistinct(r: Rules, c: Change, keys: seq<Key>)
    requires Distinct(keys)
    ensures DistinctTags(r, HeadEmissions(r, c, keys))
  {
    if keys != [] {
      var n := |keys| - 1;
      HeadTagsDistinct(r, c, keys[..n]);
      OccurrenceKeys(r, c.head, keys[n]);
      var before := HeadEmissions(r, c, keys[..n]);
      forall e | e in before ensures TagOf(r, e).key in keys[..n] { HeadTags(r, c, keys[..n], e); }
      AppendTags(r, before, HeadRun(c.hasBase, Occurrences(r, c.head, keys[n]), Count(r, c.base, keys[n]), c.noBase));
    }
  }

  lemma {:induction false} BaseTagsDistinct(r: Rules, c: Change, keys: seq<Key>)
    requires Distinct(keys)
    ensures DistinctTags(r, BaseEmissions(r, c, keys))
  {
    if keys != [] {
      var n := |keys| - 1;
      BaseTagsDistinct(r, c, keys[..n]);
      OccurrenceKeys(r, c.base, keys[n]);
      var before := BaseEmissions(r, c, keys[..n]);
      forall e | e in before ensures TagOf(r, e).key in keys[..n] { BaseTags(r, c, keys[..n], e); }
      AppendTags(r, before, ResolvedRun(Occurrences(r, c.base, keys[n]), Count(r, c.head, keys[n])));
    }
  }

  lemma KeyListHolds(r: Rules, signals: seq<Signal>)
    ensures Distinct(KeyList(r, signals))
    ensures forall k :: k in KeyList(r, signals) <==> Count(r, signals, k) > 0
  {
    KeyLaws();
    SortedSetHolds(CompareKeys, Keys(signals, Mark(r)));
    NoRepeats(KeyList(r, signals), Keys(signals, Mark(r)));
    forall k ensures k in KeyList(r, signals) <==> Count(r, signals, k) > 0 { GroupNonEmpty(signals, Mark(r), k); }
  }

  /** No key and ordinal is emitted twice, whichever side the emissions come from. */
  lemma TagsDistinct(r: Rules, c: Change)
    ensures DistinctTags(r, Emissions(r, c))
  {
    var headKeys, baseKeys := KeyList(r, c.head), KeyList(r, c.base);
    KeyListHolds(r, c.head);
    KeyListHolds(r, c.base);
    HeadTagsDistinct(r, c, headKeys);
    BaseTagsDistinct(r, c, baseKeys);
    forall d, e | d in HeadEmissions(r, c, headKeys) && e in BaseEmissions(r, c, baseKeys)
      ensures TagOf(r, d) != TagOf(r, e)
    {
      HeadTags(r, c, headKeys, d);
      BaseTags(r, c, baseKeys, e);
    }
    AppendTags(r, HeadEmissions(r, c, headKeys), BaseEmissions(r, c, baseKeys));
  }

  // ----- the main results -----

  function FingerprintOf(r: Rules, t: Tag): string {
    "fp_" + r.hash(Encode([t.key.ruleID, t.key.path, t.key.subject, t.key.evidence, Itoa(t.ordinal)]))
  }

  /** The fields that go into a fingerprint or id have fewer than 2^32 bytes. */
  predicate ShortFields(r: Rules, e: Emission) {
    Short([e.source.ruleID, r.path(e.source.path), e.source.subject, r.evidence(e.source.evidence),
           Itoa(e.source.startRow), Itoa(e.source.startCol), Itoa(e.ordinal)])
  }

  lemma SameFingerprintSameTag(r: Rules, s: Tag, t: Tag)
    requires Injective(r.hash) && FingerprintOf(r, s) == FingerprintOf(r, t)
    requires Short([s.key.ruleID, s.key.path, s.key.subject, s.key.evidence, Itoa(s.ordinal)])
    requires Short([t.key.ruleID, t.key.path, t.key.subject, t.key.evidence, Itoa(t.ordinal)])
    ensures s == t
  {
    var a := [s.key.ruleID, s.key.path, s.key.subject, s.key.evidence, Itoa(s.ordinal)];
    var b := [t.key.ruleID, t.key.path, t.key.subject, t.key.evidence, Itoa(t.ordinal)];
    assert FingerprintOf(r, s)[3..] == r.hash(Encode(a)) && FingerprintOf(r, t)[3..] == r.hash(Encode(b));
    EncodeInjective(a, b);
    assert a[0] == b[0] && a[1] == b[1] && a[2] == b[2] && a[3] == b[3] && a[4] == b[4];
    ItoaInjective(s.ordinal, t.ordinal);
  }

  /** Within one file change no two emitted signals share a fingerprint. */
  lemma FingerprintsDistinct(r: Rules, c: Change, i: nat, j: nat)
    requires Injective(r.hash) && forall e | e in Emissions(r, c) :: ShortFields(r, e)
    requires i < j < |Classified(r, c)|
    ensures Classified(r, c)[i].fingerprint != Classified(r, c)[j].fingerprint
  {
    var d, e := Emissions(r, c)[i], Emissions(r, c)[j];
    TagsDistinct(r, c);
    assert ShortFields(r, d) && ShortFields(r, e);
    ShortTag(r, d);
    ShortTag(r, e);
    assert Classified(r, c)[i] == Stamp(r, d) && Classified(r, c)[j] == Stamp(r, e);
    if FingerprintOf(r, TagOf(r, d)) == FingerprintOf(r, TagOf(r, e)) { SameFingerprintSameTag(r, TagOf(r, d), TagOf(r, e)); }
  }

  lemma ShortTag(r: Rules, e: Emission)
    requires ShortFields(r, e)
    ensures var t := TagOf(r, e);
            Short([t.key.ruleID, t.key.path, t.key.subject, t.key.evidence, Itoa(t.ordinal)])
  {
    var all := [e.source.ruleID, r.path(e.source.path), e.source.subject, r.evidence(e.source.evidence),
                Itoa(e.source.startRow), Itoa(e.source.startCol), Itoa(e.ordinal)];
    assert all[0] in all && all[1] in all && all[2] in all && all[3] in all && all[6] in all;
  }

  ghost function Verdicts(r: Rules, c: Change): set<(string, string)> {
    set s | s in Classified(r, c) :: (s.fingerprint, s.lifecycle)
  }

  ghost predicate Emitted(r: Rules, c: Change, t: Tag, lifecycle: string) {
    Occurs(c.hasBase, t.ordinal, Count(r, c.head, t.key), Count(r, c.base, t.key), c.noBase, lifecycle)
  }

  lemma VerdictTag(r: Rules, c: Change, s: Signal) returns (t: Tag)
    requires s in Classified(r, c)
    ensures Emitted(r, c, t, s.lifecycle) && s.fingerprint == FingerprintOf(r, t)
  {
    var i :| 0 <= i < |Classified(r, c)| && Classified(r, c)[i] == s;
    t := TagOf(r, Emissions(r, c)[i]);
    EmissionTag(r, c, i);
  }

  lemma TagVerdict(r: Rules, c: Change, t: Tag, lifecycle: string) returns (s: Signal)
    requires Emitted(r, c, t, lifecycle)
    ensures s in Classified(r, c) && s.fingerprint == FingerprintOf(r, t) && s.lifecycle == lifecycle
  {
    var i := EmittedTag(r, c, t, lifecycle);
    s := Classified(r, c)[i];
  }

  /** The (fingerprint, lifecycle) pairs are those of the keys' occurrence counts. */
  lemma VerdictsHold(r: Rules, c: Change, v: (string, string))
    ensures v in Verdicts(r, c) <==> exists t :: Emitted(r, c, t, v.1) && v.0 == FingerprintOf(r, t)
  {
    if v in Verdicts(r, c) {
      var s :| s in Classified(r, c) && v == (s.fingerprint, s.lifecycle);
      var t := VerdictTag(r, c, s);
    }
    if t :| Emitted(r, c, t, v.1) && v.0 == FingerprintOf(r, t) {
      var s := TagVerdict(r, c, t, v.1);
      assert (s.fingerprint, s.lifecycle) == v;
    }
  }

  lemma SameCountsEmitTheSame(r: Rules, c: Change, d: Change, t: Tag, lifecycle: string)
    requires c.hasBase == d.hasBase && c.noBase == d.noBase
    requires Count(r, c.head, t.key) == Count(r, d.head, t.key) && Count(r, c.base, t.key) == Count(r, d.base, t.key)
    ensures Emitted(r, c, t, lifecycle) <==> Emitted(r, d, t, lifecycle)
  {
  }

  /** The set of (fingerprint, lifecycle) pairs depends only on how often each key occurs on either side,
      never on where. */
  lemma VerdictsDependOnCounts(r: Rules, c: Change, d: Change)
    requires c.hasBase == d.hasBase && c.noBase == d.noBase
    requires forall k :: Count(r, c.head, k) == Count(r, d.head, k) && Count(r, c.base, k) == Count(r, d.base, k)
    ensures Verdicts(r, c) == Verdicts(r, d)
  {
    forall v ensures v in Verdicts(r, c) <==> v in Verdicts(r, d) {
      VerdictsHold(r, c, v);
      VerdictsHold(r, d, v);
      forall t ensures Emitted(r, c, t, v.1) <==> Emitted(r, d, t, v.1) {
        SameCountsEmitTheSame(r, c, d, t, v.1);
      }
    }
  }

  /** The occurrence `o` of a key is emitted, with the lifecycle. */
  ghost predicate EmittedAs(r: Rules, c: Change, key: Key, o: nat, lifecycle: string) {
    exists i | 0 <= i < |Emissions(r, c)| :: TagAt(r, c, i, key, o, lifecycle)
  }

  ghost predicate TagAt(r: Rules, c: Change, i: nat, key: Key, o: nat, lifecycle: string)
    requires i < |Emissions(r, c)|
  {
    TagOf(r, Emissions(r, c)[i]) == Tag(key, o) && Classified(r, c)[i].lifecycle == lifecycle
  }

  lemma EmittedAsMeans(r: Rules, c: Change, key: Key, o: nat, lifecycle: string)
    ensures EmittedAs(r, c, key, o, lifecycle) <==> Emitted(r, c, Tag(key, o), lifecycle)
  {
    if EmittedAs(r, c, key, o, lifecycle) {
      var i :| 0 <= i < |Emissions(r, c)| && TagAt(r, c, i, key, o, lifecycle);
      EmissionTag(r, c, i);
    }
    if Emitted(r, c, Tag(key, o), lifecycle) {
      var i := EmittedTag(r, c, Tag(key, o), lifecycle);
      assert TagAt(r, c, i, key, o, lifecycle);
    }
  }

  lemma EmissionTag(r: Rules, c: Change, i: nat)
    requires i < |Emissions(r, c)|
    ensures Emitted(r, c, TagOf(r, Emissions(r, c)[i]), Classified(r, c)[i].lifecycle)
  {
    var e := Emissions(r, c)[i];
    if e in HeadEmissions(r, c, KeyList(r, c.head)) {
      HeadTags(r, c, KeyList(r, c.head), e);
    } else {
      BaseTags(r, c, KeyList(r, c.base), e);
    }
  }

  lemma EmittedTag(r: Rules, c: Change, t: Tag, lifecycle: string) returns (i: nat)
    requires Emitted(r, c, t, lifecycle)
    ensures i < |Emissions(r, c)| && TagOf(r, Emissions(r, c)[i]) == t && Classified(r, c)[i].lifecycle == lifecycle
  {
    KeyListHolds(r, c.head);
    KeyListHolds(r, c.base);
    var e: Emission;
    if t.ordinal < Count(r, c.head, t.key) {
      e := HeadTagEmitted(r, c, KeyList(r, c.head), t, lifecycle);
    } else {
      e := BaseTagEmitted(r, c, KeyList(r, c.base), t, lifecycle);
    }
    assert e in Emissions(r, c);
    i :| 0 <= i < |Emissions(r, c)| && Emissions(r, c)[i] == e;
  }

  /** With a base, the counts `h` and `b` of a key decide what becomes of each of its occurrences; without one every head
      occurrence has the lifecycle for that. */
  lemma LifecycleExactly(r: Rules, c: Change, key: Key, o: nat)
    ensures var h, b := Count(r, c.head, key), Count(r, c.base, key);
      && (c.hasBase ==>
            && (EmittedAs(r, c, key, o, "existing") <==> o < h && o < b)
            && (EmittedAs(r, c, key, o, "introduced") <==> b == 0 && o < h)
            && (EmittedAs(r, c, key, o, "unknown") <==> 0 < b <= o < h)
            && (EmittedAs(r, c, key, o, "resolved") <==> h <= o < b))
      && (!c.hasBase ==> forall l | l != "resolved" :: EmittedAs(r, c, key, o, l) <==> o < h && l == c.noBase)
  {
    forall l ensures EmittedAs(r, c, key, o, l) <==> Occurs(c.hasBase, o, Count(r, c.head, key), Count(r, c.base, key), c.noBase, l) {
      EmittedAsMeans(r, c, key, o, l);
    }
    CountsDecide(c.hasBase, o, Count(r, c.head, key), Count(r, c.base, key), c.noBase);
  }

  predicate Occurs(hasBase: bool, o: nat, h: nat, b: nat, noBase: string, lifecycle: string) {
    (o < h && lifecycle == HeadLifecycle(hasBase, o, b, noBase)) || (h <= o < b && lifecycle == "resolved")
  }

  lemma CountsDecide(hasBase: bool, o: nat, h: nat, b: nat, noBase: string)
    ensures hasBase ==>
              && (Occurs(hasBase, o, h, b, noBase, "existing") <==> o < h && o < b)
              && (Occurs(hasBase, o, h, b, noBase, "introduced") <==> b == 0 && o < h)
              && (Occurs(hasBase, o, h, b, noBase, "unknown") <==> 0 < b <= o < h)
              && (Occurs(hasBase, o, h, b, noBase, "resolved") <==> h <= o < b)
    ensures !hasBase ==> forall l | l != "resolved" :: Occurs(hasBase, o, h, b, noBase, l) <==> o < h && l == noBase
  {
  }

  /** Swapping the sides leaves existing occurrences existing, and resolves exactly those that were introduced or unknown. */
  lemma HeadAndBaseAreDual(r: Rules, c: Change, key: Key, o: nat)
    requires c.hasBase
    ensures var d := Change(true, c.base, c.head, c.noBase);
      && (EmittedAs(r, d, key, o, "existing") <==> EmittedAs(r, c, key, o, "existing"))
      && (EmittedAs(r, d, key, o, "resolved") <==> EmittedAs(r, c, key, o, "introduced") || EmittedAs(r, c, key, o, "unknown"))
      && (EmittedAs(r, c, key, o, "resolved") <==> EmittedAs(r, d, key, o, "introduced") || EmittedAs(r, d, key, o, "unknown"))
  {
    LifecycleExactly(r, c, key, o);
    LifecycleExactly(r, Change(true, c.base, c.head, c.noBase), key, o);
  }

  /** By row, then column, then byte. */
  predicate LocatedBefore(a: Signal, b: Signal) {
    || a.startRow < b.startRow
    || (a.startRow == b.startRow && (a.startCol < b.startCol || (a.startCol == b.startCol && a.startByte <= b.startByte)))
  }

  lemma LocationMeans(a: Signal, b: Signal)
    ensures CompareLocation(a, b) <= 0 <==> LocatedBefore(a, b)
  {
    var cs := PlaceParts(a, b);
    assert cs[0..] == cs && cs[3..] == [];
    OrTail(cs, 0); OrTail(cs, 1); OrTail(cs, 2);
  }

  lemma LocationLaws()
    ensures Lawful(CompareLocation)
  {
    forall a: Signal, b: Signal ensures Mirrors(CompareLocation(a, b), CompareLocation(b, a)) {
      OrMirrors(PlaceParts(a, b), PlaceParts(b, a));
    }
    forall a: Signal, b: Signal, c: Signal ensures Chains(CompareLocation(a, b), CompareLocation(b, c), CompareLocation(a, c)) {
      OrChains(PlaceParts(a, b), PlaceParts(b, c), PlaceParts(a, c));
    }
  }

  /** The occurrences of a key are its signals, ordered by location: ordinals follow the text. */
  lemma OrdinalsFollowLocations(r: Rules, signals: seq<Signal>, key: Key, i: nat, j: nat)
    requires i < j < |Occurrences(r, signals, key)|
    ensures LocatedBefore(Occurrences(r, signals, key)[i], Occurrences(r, signals, key)[j])
  {
    LocationLaws();
    StableSortAscending(CompareLocation, Group(signals, Mark(r), key));
    LocationMeans(Occurrences(r, signals, key)[i], Occurrences(r, signals, key)[j]);
  }

  lemma {:induction false} HeadSource(r: Rules, c: Change, keys: seq<Key>, e: Emission)
    requires e in HeadEmissions(r, c, keys)
    ensures var os := Occurrences(r, c.head, KeyOf(r, e.source)); e.ordinal < |os| && os[e.ordinal] == e.source
  {
    var n := |keys| - 1;
    if e in HeadEmissions(r, c, keys[..n]) {
      HeadSource(r, c, keys[..n], e);
    } else {
      OccurrenceKeys(r, c.head, keys[n]);
    }
  }

  lemma {:induction false} BaseSource(r: Rules, c: Change, keys: seq<Key>, e: Emission)
    requires e in BaseEmissions(r, c, keys)
    ensures var os := Occurrences(r, c.base, KeyOf(r, e.source)); e.ordinal < |os| && os[e.ordinal] == e.source
  {
    var n := |keys| - 1;
    if e in BaseEmissions(r, c, keys[..n]) {
      BaseSource(r, c, keys[..n], e);
    } else {
      OccurrenceKeys(r, c.base, keys[n]);
    }
  }

  /** A classified signal is a signal of either side at its ordinal, with only its lifecycle and its identity set. */
  lemma SignalsKeepTheirFields(r: Rules, c: Change, i: nat)
    requires i < |Classified(r, c)|
    ensures var e, s := Emissions(r, c)[i], Classified(r, c)[i];
      && s == e.source.(lifecycle := s.lifecycle, fingerprint := s.fingerprint, id := s.id)
      && var os := Occurrences(r, if s.lifecycle == "resolved" && e !in HeadEmissions(r, c, KeyList(r, c.head)) then c.base else c.head,
                               KeyOf(r, e.source));
         e.ordinal < |os| && os[e.ordinal] == e.source
  {
    var e := Emissions(r, c)[i];
    if e in HeadEmissions(r, c, KeyList(r, c.head)) {
      HeadSource(r, c, KeyList(r, c.head), e);
    } else {
      BaseTags(r, c, KeyList(r, c.base), e);
      BaseSource(r, c, KeyList(r, c.base), e);
    }
  }

  /** Fingerprints ignore the location, ids do not. */
  lemma OnlyIDsSeeLocations(r: Rules, d: Emission, e: Emission)
    requires TagOf(r, d) == TagOf(r, e)
    ensures ComputeFingerprint(r, d.source, d.ordinal) == ComputeFingerprint(r, e.source, e.ordinal)
    ensures Injective(r.hash) && ShortFields(r, d) && ShortFields(r, e) ==>
              (ComputeSignalID(r, d.source, d.ordinal) == ComputeSignalID(r, e.source, e.ordinal)
               <==> d.source.startRow == e.source.startRow && d.source.startCol == e.source.startCol)
  {
    if Injective(r.hash) && ShortFields(r, d) && ShortFields(r, e)
       && ComputeSignalID(r, d.source, d.ordinal) == ComputeSignalID(r, e.source, e.ordinal) {
      SameIDSamePlace(r, d, e);
    }
  }

  lemma SameIDSamePlace(r: Rules, d: Emission, e: Emission)
    requires Injective(r.hash) && ShortFields(r, d) && ShortFields(r, e)
    requires ComputeSignalID(r, d.source, d.ordinal) == ComputeSignalID(r, e.source, e.ordinal)
    ensures d.source.startRow == e.source.startRow && d.source.startCol == e.source.startCol
  {
    var a := [d.source.ruleID, r.path(d.source.path), d.source.subject, r.evidence(d.source.evidence),
              Itoa(d.source.startRow), Itoa(d.source.startCol), Itoa(d.ordinal)];
    var b := [e.source.ruleID, r.path(e.source.path), e.source.subject, r.evidence(e.source.evidence),
              Itoa(e.source.startRow), Itoa(e.source.startCol), Itoa(e.ordinal)];
    assert ComputeSignalID(r, d.source, d.ordinal)[4..] == r.hash(Encode(a));
    assert ComputeSignalID(r, e.source, e.ordinal)[4..] == r.hash(Encode(b));
    EncodeInjective(a, b);
    assert a[4] == b[4] && a[5] == b[5];
    ItoaInjective(d.source.startRow, e.source.startRow);
    ItoaInjective(d.source.startCol, e.source.startCol);
  }

  lemma SameIDSameTag(r: Rules, d: Emission, e: Emission)
    requires Injective(r.hash) && ShortFields(r, d) && ShortFields(r, e)
    requires ComputeSignalID(r, d.source, d.ordinal) == ComputeSignalID(r, e.source, e.ordinal)
    ensures TagOf(r, d) == TagOf(r, e)
  {
    var a := [d.source.ruleID, r.path(d.source.path), d.source.subject, r.evidence(d.source.evidence),
              Itoa(d.source.startRow), Itoa(d.source.startCol), Itoa(d.ordinal)];
    var b := [e.source.ruleID, r.path(e.source.path), e.source.subject, r.evidence(e.source.evidence),
              Itoa(e.source.startRow), Itoa(e.source.startCol), Itoa(e.ordinal)];
    assert ComputeSignalID(r, d.source, d.ordinal)[4..] == r.hash(Encode(a));
    assert ComputeSignalID(r, e.source, e.ordinal)[4..] == r.hash(Encode(b));
    EncodeInjective(a, b);
    assert a[0] == b[0] && a[1] == b[1] && a[2] == b[2] && a[3] == b[3] && a[6] == b[6];
    ItoaInjective(d.ordinal, e.ordinal);
  }

  /** The ids of one file change are distinct too, which is what makes its ranking canonical. */
  lemma IDsDistinct(r: Rules, c: Change)
    requires Injective(r.hash) && forall e | e in Emissions(r, c) :: ShortFields(r, e)
    ensures Ranking.DistinctIDs(Classified(r, c))
  {
    var out := Classified(r, c);
    TagsDistinct(r, c);
    forall i, j | 0 <= i < j < |out| ensures out[i].id != out[j].id {
      var d, e := Emissions(r, c)[i], Emissions(r, c)[j];
      assert d in Emissions(r, c) && e in Emissions(r, c);
      assert out[i] == Stamp(r, d) && out[j] == Stamp(r, e);
      if out[i].id == out[j].id { SameIDSameTag(r, d, e); }
    }
  }
}
