/** Signals and the order they are compared in (pkg/codesignal/sort.go, severity.go, signal_rank.go,
    metric_rules.go). */
module Signals {
  import FactOrder
  import FieldEncoding
  import opened Options
  import opened Ordering


  /** `nested` is empty but for mirrored project changes; `rest` stands for the fields that neither the lifecycle, the
      ranking nor the counters read. */
  datatype Signal = Signal(id: string, fingerprint: string, ruleID: string, severity: string, confidence: string,
                           lifecycle: string, changed: bool, path: string, subject: string, startRow: nat, startCol: nat,
                           startByte: nat, evidence: string, nested: FactOrder.Nested, rest: string)

  function PriorityGroup(s: Signal): int {
    if s.lifecycle == "introduced" then (if s.changed then 0 else 2)
    else if s.lifecycle == "existing" then (if s.changed then 1 else 3)
    else if s.lifecycle == "resolved" then 4
    else 5
  }

  /** The 1-based position in the severity order; an unknown severity ranks as "low". */
  function SeverityRank(severity: string): int {
    if severity == "advisory" then 2 else if severity == "medium" then 3 else if severity == "high" then 4 else 1
  }

  function ConfidenceRank(confidence: string): int {
    if confidence == "high" then 3 else if confidence == "medium" then 2 else if confidence == "low" then 1 else 0
  }

  /** The comparison's eight components, most significant first. */
  function Components(a: Signal, b: Signal): seq<int> {
    [CompareInt(PriorityGroup(a), PriorityGroup(b)),
     CompareInt(SeverityRank(b.severity), SeverityRank(a.severity)),
     CompareInt(ConfidenceRank(b.confidence), ConfidenceRank(a.confidence)),
     CompareText(a.path, b.path),
     CompareInt(a.startRow, b.startRow),
     CompareInt(a.startCol, b.startCol),
     CompareText(a.ruleID, b.ruleID),
     CompareText(a.id, b.id)]
  }

  function CompareSignals(a: Signal, b: Signal): int {
    Or(Components(a, b))
  }

  lemma SignalMirrors(a: Signal, b: Signal)
    ensures Mirrors(CompareSignals(a, b), CompareSignals(b, a))
  {
    TextMirrors(a.path, b.path);
    TextMirrors(a.ruleID, b.ruleID);
    TextMirrors(a.id, b.id);
    OrMirrors(Components(a, b), Components(b, a));
  }

  lemma ComponentChains(a: Signal, b: Signal, c: Signal, i: nat)
    requires i < 8
    ensures Chains(Components(a, b)[i], Components(b, c)[i], Components(a, c)[i])
  {
    match i
    case 3 => TextChains(a.path, b.path, c.path);
    case 6 => TextChains(a.ruleID, b.ruleID, c.ruleID);
    case 7 => TextChains(a.id, b.id, c.id);
    case 0 => IntChains(PriorityGroup(a), PriorityGroup(b), PriorityGroup(c));
    case 1 => FallChains(SeverityRank(a.severity), SeverityRank(b.severity), SeverityRank(c.severity));
    case 2 => FallChains(ConfidenceRank(a.confidence), ConfidenceRank(b.confidence), ConfidenceRank(c.confidence));
    case 4 => IntChains(a.startRow, b.startRow, c.startRow);
    case 5 => IntChains(a.startCol, b.startCol, c.startCol);
  }

  lemma IntChains(x: int, y: int, z: int)
    ensures Chains(CompareInt(x, y), CompareInt(y, z), CompareInt(x, z))
  {
  }

  lemma FallChains(x: int, y: int, z: int)
    ensures Chains(CompareInt(y, x), CompareInt(z, y), CompareInt(z, x))
  {
  }

  lemma SignalChains(a: Signal, b: Signal, c: Signal)
    ensures Chains(CompareSignals(a, b), CompareSignals(b, c), CompareSignals(a, c))
  {
    var ab, bc, ac := Components(a, b), Components(b, c), Components(a, c);
    forall i | 0 <= i < 8 ensures Chains(ab[i], bc[i], ac[i]) { ComponentChains(a, b, c, i); }
    OrChains(ab, bc, ac);
  }

  /** The comparison is a total preorder in which only signals with the same id can tie. */
  lemma SignalLaws()
    ensures Lawful(CompareSignals)
    ensures forall a, b :: CompareSignals(a, b) == 0 ==> a.id == b.id
  {
    forall a, b ensures Mirrors(CompareSignals(a, b), CompareSignals(b, a)) { SignalMirrors(a, b); }
    forall a, b, c ensures Chains(CompareSignals(a, b), CompareSignals(b, c), CompareSignals(a, c)) { SignalChains(a, b, c); }
    forall a, b | CompareSignals(a, b) == 0 ensures a.id == b.id {
      OrZero(Components(a, b));
      assert Components(a, b)[7] == 0;
      TextDecides(a.id, b.id);
    }
  }

  // ----- metrics -----

  datatype MetricRule = MetricRule(ruleID: string, evidencePrefix: string, threshold: int)

  const METRIC_RULES := [MetricRule("complexity.cognitive_complexity", "cognitive_complexity=", 15),
                         MetricRule("complexity.branch_density", "branch_sum=", 12),
                         MetricRule("complexity.max_nesting_depth", "max_nesting_depth=", 4)]

  predicate IsDigit(c: char) {
    '0' <= c <= '9'
  }

  function Digits(s: string): int
    requires forall c | c in s :: IsDigit(c)
  {
    if s == "" then 0 else 10 * Digits(s[..|s| - 1]) + (s[|s| - 1] as int - '0' as int)
  }

  /** `strconv.Atoi`: an optional sign, at least one decimal digit, and a 64-bit result. */
  function Atoi(s: string): Option<int> {
    var signed := s != "" && (s[0] == '-' || s[0] == '+');
    var body := if signed then s[1..] else s;
    if body == "" || exists c | c in body :: !IsDigit(c) then None
    else
      var n := if signed && s[0] == '-' then -Digits(body) else Digits(body);
      if -0x8000_0000_0000_0000 <= n < 0x8000_0000_0000_0000 then Some(n) else None
  }

  lemma {:induction false} AtoiUndoesItoa(n: nat)
    requires n < 0x8000_0000_0000_0000
    ensures (forall c | c in FieldEncoding.Itoa(n) :: IsDigit(c)) && Digits(FieldEncoding.Itoa(n)) == n
    ensures Atoi(FieldEncoding.Itoa(n)) == Some(n)
  {
    var s := FieldEncoding.Itoa(n);
    if n >= 10 {
      AtoiUndoesItoa(n / 10);
      assert s[..|s| - 1] == FieldEncoding.Itoa(n / 10);
    } else {
      assert s[..0] == "";
    }
    assert s[0] in s;
  }

  function RuleFor(rules: seq<MetricRule>, ruleID: string): Option<MetricRule> {
    if rules == [] then None else if rules[0].ruleID == ruleID then Some(rules[0]) else RuleFor(rules[1..], ruleID)
  }

  /** The metric a signal's evidence carries, if its rule is a metric rule and the evidence has the form. */
  function Metric(s: Signal): Option<int> {
    match RuleFor(METRIC_RULES, s.ruleID)
    case None => None
    case Some(rule) =>
      if rule.evidencePrefix <= s.evidence then Atoi(s.evidence[|rule.evidencePrefix|..]) else None
  }
}
