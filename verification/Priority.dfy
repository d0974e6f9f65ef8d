/** What the order of a ranked list means: which signals come first, in words of their own fields
    (pkg/codesignal/sort.go, severity.go, signal_rank.go, metric_rules.go). */
module Priority {
  import opened FieldEncoding
  import opened Options
  import opened Ordering
  import opened Ranking
  import RankingOrder
  import opened Signals

  /** Lowest first. */
  const SEVERITY_ORDER := ["low", "advisory", "medium", "high"]
  const CONFIDENCE_ORDER := ["low", "medium", "high"]

  /** The groups of a report, the most urgent one first. */
  predicate InGroup(s: Signal, g: nat) {
    match g
    case 0 => s.lifecycle == "introduced" && s.changed
    case 1 => s.lifecycle == "existing" && s.changed
    case 2 => s.lifecycle == "introduced" && !s.changed
    case 3 => s.lifecycle == "existing" && !s.changed
    case 4 => s.lifecycle == "resolved"
    case 5 => s.lifecycle !in {"introduced", "existing", "resolved"}
    case _ => false
  }

  /** The place of a severity in the order; an unknown one is as good as "low". */
  predicate SeverityAt(severity: string, k: nat) {
    k < |SEVERITY_ORDER| && (SEVERITY_ORDER[k] == severity || (k == 0 && severity !in SEVERITY_ORDER))
  }

  predicate MoreSevere(a: string, b: string) {
    exists j, k | 0 <= j < k < |SEVERITY_ORDER| :: SeverityAt(a, k) && SeverityAt(b, j)
  }

  /** An unknown confidence is below every known one. */
  predicate MoreConfident(a: string, b: string) {
    exists k | 0 <= k < |CONFIDENCE_ORDER| && CONFIDENCE_ORDER[k] == a ::
      b !in CONFIDENCE_ORDER || b in CONFIDENCE_ORDER[..k]
  }

  predicate SameSeverity(a: string, b: string) {
    !MoreSevere(a, b) && !MoreSevere(b, a)
  }

  predicate SameConfidence(a: string, b: string) {
    !MoreConfident(a, b) && !MoreConfident(b, a)
  }

  // ----- the ranks -----

  lemma GroupIs(s: Signal, g: nat)
    ensures InGroup(s, g) <==> PriorityGroup(s) == g
  {
  }

  lemma SeverityIs(severity: string, k: nat)
    ensures SeverityAt(severity, k) <==> SeverityRank(severity) == k + 1
  {
    assert SEVERITY_ORDER[0] == "low" && SEVERITY_ORDER[1] == "advisory" && SEVERITY_ORDER[2] == "medium" && SEVERITY_ORDER[3] == "high";
  }

  lemma MoreSevereIs(a: string, b: string)
    ensures MoreSevere(a, b) <==> SeverityRank(a) > SeverityRank(b)
  {
    SeverityIs(a, SeverityRank(a) - 1);
    SeverityIs(b, SeverityRank(b) - 1);
    forall j, k | 0 <= j < k < |SEVERITY_ORDER| && SeverityAt(a, k) && SeverityAt(b, j) ensures SeverityRank(a) > SeverityRank(b) {
      SeverityIs(a, k);
      SeverityIs(b, j);
    }
    if SeverityRank(a) > SeverityRank(b) {
      var j, k := SeverityRank(b) - 1, SeverityRank(a) - 1;
      assert SeverityAt(a, k) && SeverityAt(b, j);
    }
  }

  lemma ConfidenceIs(c: string)
    ensures ConfidenceRank(c) == 0 <==> c !in CONFIDENCE_ORDER
    ensures forall k | 0 <= k < 3 :: CONFIDENCE_ORDER[k] == c <==> ConfidenceRank(c) == k + 1
  {
    assert CONFIDENCE_ORDER[0] == "low" && CONFIDENCE_ORDER[1] == "medium" && CONFIDENCE_ORDER[2] == "high";
  }

  lemma MoreConfidentIs(a: string, b: string)
    ensures MoreConfident(a, b) <==> ConfidenceRank(a) > ConfidenceRank(b)
  {
    ConfidenceIs(a);
    ConfidenceIs(b);
    if ConfidenceRank(a) > ConfidenceRank(b) {
      var k := ConfidenceRank(a) - 1;
      assert CONFIDENCE_ORDER[k] == a;
      if b in CONFIDENCE_ORDER { assert CONFIDENCE_ORDER[..k][ConfidenceRank(b) - 1] == b; }
    }
  }

  lemma SameTierIs(a: Signal, b: Signal, g: nat)
    requires InGroup(a, g) && InGroup(b, g) && SameSeverity(a.severity, b.severity) && SameConfidence(a.confidence, b.confidence)
    ensures SameTier(a, b)
  {
    GroupIs(a, g); GroupIs(b, g);
    MoreSevereIs(a.severity, b.severity); MoreSevereIs(b.severity, a.severity);
    MoreConfidentIs(a.confidence, b.confidence); MoreConfidentIs(b.confidence, a.confidence);
  }

  lemma TiersMean(a: Signal, b: Signal)
    ensures var cs := Components(a, b);
            CompareTiers(a, b) == if cs[0] != 0 then cs[0] else if cs[1] != 0 then cs[1] else cs[2]
  {
    var cs := Components(a, b);
    var tiers := cs[..3];
    assert tiers[0..] == tiers && tiers[3..] == [];
    OrTail(tiers, 0); OrTail(tiers, 1); OrTail(tiers, 2);
  }

  // ----- the sorted list -----

  /** Every signal is in one group, and along the list the groups come in their order. */
  lemma GroupsInOrder(input: seq<Signal>, out: seq<Signal>, i: nat, j: nat)
    requires SortedSignals(input, out) && i < j < |out|
    ensures exists g: nat, h: nat | g <= h <= 5 :: InGroup(out[i], g) && InGroup(out[j], h)
    ensures forall g: nat, h: nat | InGroup(out[i], g) && InGroup(out[j], h) :: g <= h
  {
    TiersStayInOrder(input, out, i, j);
    GroupsOfTiers(out[i], out[j]);
  }

  lemma GroupsOfTiers(a: Signal, b: Signal)
    requires CompareTiers(a, b) <= 0
    ensures exists g: nat, h: nat | g <= h <= 5 :: InGroup(a, g) && InGroup(b, h)
    ensures forall g: nat, h: nat | InGroup(a, g) && InGroup(b, h) :: g <= h
  {
    TiersMean(a, b);
    forall g: nat ensures InGroup(a, g) <==> PriorityGroup(a) == g { GroupIs(a, g); }
    forall g: nat ensures InGroup(b, g) <==> PriorityGroup(b) == g { GroupIs(b, g); }
    assert InGroup(a, PriorityGroup(a)) && InGroup(b, PriorityGroup(b));
  }

  lemma SeverityOfTiers(a: Signal, b: Signal, g: nat)
    requires CompareTiers(a, b) <= 0 && InGroup(a, g) && InGroup(b, g)
    ensures !MoreSevere(b.severity, a.severity)
  {
    TiersMean(a, b);
    GroupIs(a, g); GroupIs(b, g);
    MoreSevereIs(b.severity, a.severity);
  }

  lemma ConfidenceOfTiers(a: Signal, b: Signal, g: nat)
    requires CompareTiers(a, b) <= 0 && InGroup(a, g) && InGroup(b, g) && SeverityRank(a.severity) == SeverityRank(b.severity)
    ensures !MoreConfident(b.confidence, a.confidence)
  {
    TiersMean(a, b);
    GroupIs(a, g); GroupIs(b, g);
    MoreConfidentIs(b.confidence, a.confidence);
  }

  lemma SameSeverityIs(a: string, b: string)
    ensures SameSeverity(a, b) <==> SeverityRank(a) == SeverityRank(b)
  {
    MoreSevereIs(a, b);
    MoreSevereIs(b, a);
  }

  /** Within a group no signal comes after a less severe one. */
  lemma SeverityNeverRises(input: seq<Signal>, out: seq<Signal>, i: nat, j: nat, g: nat)
    requires SortedSignals(input, out) && i < j < |out| && InGroup(out[i], g) && InGroup(out[j], g)
    ensures !MoreSevere(out[j].severity, out[i].severity)
  {
    TiersStayInOrder(input, out, i, j);
    SeverityOfTiers(out[i], out[j], g);
  }

  /** Within a group and a severity no signal comes after a less confident one. */
  lemma ConfidenceNeverRises(input: seq<Signal>, out: seq<Signal>, i: nat, j: nat, g: nat)
    requires SortedSignals(input, out) && i < j < |out| && InGroup(out[i], g) && InGroup(out[j], g)
    requires SameSeverity(out[i].severity, out[j].severity)
    ensures !MoreConfident(out[j].confidence, out[i].confidence)
  {
    TiersStayInOrder(input, out, i, j);
    SameSeverityIs(out[i].severity, out[j].severity);
    ConfidenceOfTiers(out[i], out[j], g);
  }

  /** By path, then row, column, rule and id. */
  predicate PlacedBefore(a: Signal, b: Signal) {
    || TextLess(a.path, b.path)
    || (a.path == b.path &&
        (|| a.startRow < b.startRow
         || (a.startRow == b.startRow &&
             (|| a.startCol < b.startCol
              || (a.startCol == b.startCol && (TextLess(a.ruleID, b.ruleID) || (a.ruleID == b.ruleID && TextAtMost(a.id, b.id))))))))
  }

  lemma PlaceMeans(a: Signal, b: Signal)
    requires SameTier(a, b) && CompareSignals(a, b) <= 0
    ensures PlacedBefore(a, b)
  {
    var cs := Components(a, b);
    TextLessExactly(a.path, b.path); TextDecides(a.path, b.path);
    TextLessExactly(a.ruleID, b.ruleID); TextDecides(a.ruleID, b.ruleID);
    TextAtMostExactly(a.id, b.id);
    Unroll(cs);
  }

  lemma Unroll(cs: seq<int>)
    requires |cs| == 8
    ensures Or(cs) == if cs[0] != 0 then cs[0] else if cs[1] != 0 then cs[1] else if cs[2] != 0 then cs[2]
                      else if cs[3] != 0 then cs[3] else if cs[4] != 0 then cs[4] else if cs[5] != 0 then cs[5]
                      else if cs[6] != 0 then cs[6] else cs[7]
  {
    assert cs[0..] == cs && cs[8..] == [];
    OrTail(cs, 0); OrTail(cs, 1); OrTail(cs, 2); OrTail(cs, 3); OrTail(cs, 4); OrTail(cs, 5); OrTail(cs, 6); OrTail(cs, 7);
  }

  /** Within a tier, signals without a metric come by path, row, column, rule and id. */
  lemma PlainSignalsByPlace(input: seq<Signal>, out: seq<Signal>, i: nat, j: nat, g: nat)
    requires SortedSignals(input, out) && i < j < |out| && InGroup(out[i], g) && InGroup(out[j], g)
    requires SameSeverity(out[i].severity, out[j].severity) && SameConfidence(out[i].confidence, out[j].confidence)
    requires Metric(out[i]).None? && Metric(out[j]).None?
    ensures PlacedBefore(out[i], out[j])
  {
    OthersNeverMove(input, out, i);
    OthersNeverMove(input, out, j);
    SignalLaws();
    StableSortAscending(CompareSignals, input);
    SameTierIs(out[i], out[j], g);
    PlaceMeans(out[i], out[j]);
  }

  // ----- metrics -----

  /** The three rules that carry a metric, and how their evidence begins. */
  predicate MetricEvidence(ruleID: string, prefix: string) {
    || (ruleID == "complexity.cognitive_complexity" && prefix == "cognitive_complexity=")
    || (ruleID == "complexity.branch_density" && prefix == "branch_sum=")
    || (ruleID == "complexity.max_nesting_depth" && prefix == "max_nesting_depth=")
  }

  lemma RuleOf(ruleID: string, prefix: string)
    requires MetricEvidence(ruleID, prefix)
    ensures RuleFor(METRIC_RULES, ruleID).Some? && RuleFor(METRIC_RULES, ruleID).value.evidencePrefix == prefix
  {
    assert METRIC_RULES[1..][0] == METRIC_RULES[1] && METRIC_RULES[1..][1..][0] == METRIC_RULES[2];
    assert RuleFor(METRIC_RULES, ruleID) == if METRIC_RULES[0].ruleID == ruleID then Some(METRIC_RULES[0]) else RuleFor(METRIC_RULES[1..], ruleID);
  }

  lemma {:induction false} RuleForNone(rules: seq<MetricRule>, ruleID: string)
    requires forall i | 0 <= i < |rules| :: rules[i].ruleID != ruleID
    ensures RuleFor(rules, ruleID).None?
  {
    if rules != [] { RuleForNone(rules[1..], ruleID); }
  }

  lemma NoRuleOf(ruleID: string)
    requires forall prefix :: !MetricEvidence(ruleID, prefix)
    ensures RuleFor(METRIC_RULES, ruleID).None?
  {
    forall i | 0 <= i < |METRIC_RULES| ensures METRIC_RULES[i].ruleID != ruleID {
      assert !MetricEvidence(ruleID, METRIC_RULES[i].evidencePrefix);
    }
    RuleForNone(METRIC_RULES, ruleID);
  }

  /** A metric rule's signal carries the number its evidence prints; a signal of another rule carries none. */
  lemma MetricIsRead(s: Signal, prefix: string, n: nat)
    ensures MetricEvidence(s.ruleID, prefix) && s.evidence == prefix + Itoa(n) && n < 0x8000_0000_0000_0000 ==> Metric(s) == Some(n)
    ensures (forall p :: !MetricEvidence(s.ruleID, p)) ==> Metric(s) == None
  {
    if MetricEvidence(s.ruleID, prefix) && s.evidence == prefix + Itoa(n) && n < 0x8000_0000_0000_0000 {
      RuleOf(s.ruleID, prefix);
      assert s.evidence[|prefix|..] == Itoa(n);
      AtoiUndoesItoa(n);
    }
    if forall p :: !MetricEvidence(s.ruleID, p) { NoRuleOf(s.ruleID); }
  }

  /** Within a tier the printed metrics of one rule never rise along the list. */
  lemma MagnitudesFall(input: seq<Signal>, out: seq<Signal>, i: nat, j: nat, g: nat, prefix: string, m: nat, n: nat)
    requires SortedSignals(input, out) && i < j < |out| && InGroup(out[i], g) && InGroup(out[j], g)
    requires SameSeverity(out[i].severity, out[j].severity) && SameConfidence(out[i].confidence, out[j].confidence)
    requires MetricEvidence(out[i].ruleID, prefix) && out[i].ruleID == out[j].ruleID
    requires out[i].evidence == prefix + Itoa(m) && out[j].evidence == prefix + Itoa(n)
    requires m < 0x8000_0000_0000_0000 && n < 0x8000_0000_0000_0000
    ensures m >= n
  {
    MetricIsRead(out[i], prefix, m);
    MetricIsRead(out[j], prefix, n);
    SameTierIs(out[i], out[j], g);
    MetricsNonIncreasing(input, out, i, j);
  }

  /** ... and those that print the same number come by place. */
  lemma EqualMagnitudesByPlace(input: seq<Signal>, out: seq<Signal>, i: nat, j: nat, g: nat, prefix: string, n: nat)
    requires SortedSignals(input, out) && i < j < |out| && InGroup(out[i], g) && InGroup(out[j], g)
    requires SameSeverity(out[i].severity, out[j].severity) && SameConfidence(out[i].confidence, out[j].confidence)
    requires MetricEvidence(out[i].ruleID, prefix) && out[i].ruleID == out[j].ruleID && n < 0x8000_0000_0000_0000
    requires out[i].evidence == prefix + Itoa(n) && out[j].evidence == prefix + Itoa(n)
    ensures PlacedBefore(out[i], out[j])
  {
    MetricIsRead(out[i], prefix, n);
    MetricIsRead(out[j], prefix, n);
    SameTierIs(out[i], out[j], g);
    RankingOrder.EqualPeersKeepOrder(input, out, i, j);
    PlaceMeans(out[i], out[j]);
  }
}
