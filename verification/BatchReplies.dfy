/** Mapping a batch reply onto one result per expected finding reference
    (internal/rubrics/batch_items_parse.go, batch_judgment_map.go). */
module BatchReplies {
  import opened Filtering
  import opened Options
  import opened Ordering

  /** The raw `suggested_focus`: absent, JSON null, a JSON string, or some other JSON value. */
  datatype Focus = Missing | Null | Text(text: string) | Other

  datatype Item = Item(ref: string, judgment: string, rationale: string, confidence: string, focus: Focus)

  /** The judgment payload, without the reference. */
  datatype Payload = Payload(judgment: string, rationale: string, confidence: string, focus: Focus)

  datatype Verdict = Judged(payload: Payload) | Diagnosed(message: string)

  datatype ToolResult = ToolResult(ref: string, verdict: Verdict)

  const DUPLICATE_REPLY := "batch response has duplicate finding_ref"
  const DUPLICATE_ARG := "duplicate finding_ref in pack args"
  const MISSING_REPLY := "batch response missing finding_ref"

  predicate IsSpace(c: char) {
    c in {' ', '\t', '\n', '\r', 11 as char, 12 as char}
  }

  predicate Blank(s: string) {
    forall c | c in s :: IsSpace(c)
  }

  const INVALID := "schema validation failed: "

  /** The first violated rule, in the order they are checked. */
  function Validate(it: Item): Option<string> {
    if it.judgment !in {"concern", "acceptable", "unclear"} then Some(INVALID + "judgment value not in enum")
    else if it.confidence !in {"high", "medium", "low"} then Some(INVALID + "confidence value not in enum")
    else if Blank(it.rationale) then Some(INVALID + "rationale must be a non-empty string")
    else if it.focus.Missing? then Some(INVALID + "missing required property: suggested_focus")
    else if it.focus.Other? then Some(INVALID + "suggested_focus must be string or null")
    else None
  }

  // ----- parsing -----

  /** The reply's items for one reference, in order. */
  function ItemsFor(items: seq<Item>, ref: string): seq<Item> {
    Filter((it: Item) => it.ref == ref, items)
  }

  /** One reference, sorted out: in `byRef` with its item if it occurs exactly once, in `dup` if it occurs more often. */
  predicate RefSorted(items: seq<Item>, byRef: map<string, Item>, dup: map<string, string>, ref: string) {
    var own := ItemsFor(items, ref);
    && (ref in byRef <==> ref != "" && |own| == 1) && (ref in byRef ==> own == [byRef[ref]])
    && (ref in dup <==> ref != "" && |own| >= 2) && (ref in dup ==> dup[ref] == DUPLICATE_REPLY)
  }

  ghost predicate SortedOut(items: seq<Item>, byRef: map<string, Item>, dup: map<string, string>) {
    forall ref :: RefSorted(items, byRef, dup, ref)
  }

  /** An undecodable reply, or one without an items list, has no items. */
  function ReplyItems(reply: Option<seq<Item>>): seq<Item> {
    match reply case Some(items) => items case None => []
  }

  lemma OneMoreItem(items: seq<Item>, it: Item, ref: string)
    ensures ItemsFor(items + [it], ref) == ItemsFor(items, ref) + if it.ref == ref then [it] else []
  {
    assert (items + [it])[..|items|] == items;
  }

  /** Nothing changes for other references, for an empty one, and for one that is a duplicate already. */
  lemma SkipsItem(items: seq<Item>, it: Item, byRef: map<string, Item>, dup: map<string, string>)
    requires SortedOut(items, byRef, dup) && (it.ref == "" || it.ref in dup)
    ensures SortedOut(items + [it], byRef, dup)
  {
    forall ref ensures RefSorted(items + [it], byRef, dup, ref) {
      OneMoreItem(items, it, ref);
      assert RefSorted(items, byRef, dup, ref);
    }
  }

  lemma MarksDuplicate(items: seq<Item>, it: Item, byRef: map<string, Item>, dup: map<string, string>)
    requires SortedOut(items, byRef, dup) && it.ref in byRef
    ensures SortedOut(items + [it], byRef - {it.ref}, dup[it.ref := DUPLICATE_REPLY])
  {
    var byRef', dup' := byRef - {it.ref}, dup[it.ref := DUPLICATE_REPLY];
    forall ref ensures RefSorted(items + [it], byRef', dup', ref) {
      OneMoreItem(items, it, ref);
      assert RefSorted(items, byRef, dup, ref);
    }
  }

  lemma TakesItem(items: seq<Item>, it: Item, byRef: map<string, Item>, dup: map<string, string>)
    requires SortedOut(items, byRef, dup) && it.ref != "" && it.ref !in byRef && it.ref !in dup
    ensures SortedOut(items + [it], byRef[it.ref := it], dup)
  {
    var byRef' := byRef[it.ref := it];
    forall ref ensures RefSorted(items + [it], byRef', dup, ref) {
      OneMoreItem(items, it, ref);
      assert RefSorted(items, byRef, dup, ref);
      assert |ItemsFor(items, ref)| == 0 ==> ItemsFor(items, ref) == [];
    }
  }

  /** An item is usable exactly when its reference occurs exactly once in the whole reply, however many
      duplicates there are. */
  method ParseBatchItems(reply: Option<seq<Item>>) returns (byRef: map<string, Item>, dup: map<string, string>)
    ensures SortedOut(ReplyItems(reply), byRef, dup)
  {
    byRef, dup := map[], map[];
    if reply.None? { return; }
    var items := reply.value;
    for i := 0 to |items|
      invariant SortedOut(items[..i], byRef, dup)
    {
      var it := items[i];
      assert items[..i + 1] == items[..i] + [it];
      if it.ref == "" {
        SkipsItem(items[..i], it, byRef, dup);
        continue;
      }
      if it.ref in byRef {
        MarksDuplicate(items[..i], it, byRef, dup);
        dup := dup[it.ref := DUPLICATE_REPLY];
        byRef := byRef - {it.ref};
        continue;
      }
      if it.ref in dup {
        SkipsItem(items[..i], it, byRef, dup);
        continue;
      }
      TakesItem(items[..i], it, byRef, dup);
      byRef := byRef[it.ref := it];
    }
    assert items[..|items|] == items;
  }

  // ----- mapping -----

  /** The verdict on a reference, from the items that carry it alone. */
  function VerdictOf(own: seq<Item>): Verdict {
    if |own| >= 2 then Diagnosed(DUPLICATE_REPLY)
    else if own == [] then Diagnosed(MISSING_REPLY)
    else match Validate(own[0])
      case Some(message) => Diagnosed(message)
      case None => Judged(Payload(own[0].judgment, own[0].rationale, own[0].confidence, own[0].focus))
  }

  /** One result per non-empty expected reference; a repeat of one is diagnosed as such. */
  function Results(expected: seq<string>, items: seq<Item>): seq<ToolResult> {
    if expected == [] then []
    else
      var n, ref := |expected| - 1, expected[|expected| - 1];
      Results(expected[..n], items) +
      if ref == "" then []
      else if ref in expected[..n] then [ToolResult(ref, Diagnosed(DUPLICATE_ARG))]
      else [ToolResult(ref, VerdictOf(ItemsFor(items, ref)))]
  }

  method MapBatchJudgment(expected: seq<string>, reply: Option<seq<Item>>) returns (results: seq<ToolResult>)
    ensures results == Results(expected, ReplyItems(reply))
  {
    var byRef, dup := ParseBatchItems(reply);
    ghost var items := ReplyItems(reply);
    results := [];
    var seen: set<string> := {};
    for i := 0 to |expected|
      invariant results == Results(expected[..i], items)
      invariant forall ref :: ref in seen <==> ref != "" && ref in expected[..i]
    {
      var ref := expected[i];
      assert expected[..i + 1][..i] == expected[..i];
      if ref == "" { continue; }
      if ref in seen {
        results := results + [ToolResult(ref, Diagnosed(DUPLICATE_ARG))];
        continue;
      }
      seen := seen + {ref};
      var verdict := JudgeRef(ref, byRef, dup, items);
      results := results + [ToolResult(ref, verdict)];
    }
    assert expected[..|expected|] == expected;
  }

  method JudgeRef(ref: string, byRef: map<string, Item>, dup: map<string, string>, ghost items: seq<Item>)
    returns (verdict: Verdict)
    requires SortedOut(items, byRef, dup) && ref != ""
    ensures verdict == VerdictOf(ItemsFor(items, ref))
  {
    assert RefSorted(items, byRef, dup, ref);
    if ref in dup { return Diagnosed(dup[ref]); }
    if ref !in byRef { return Diagnosed(MISSING_REPLY); }
    var item := byRef[ref];
    var invalid := Validate(item);
    if invalid.Some? { return Diagnosed(invalid.value); }
    return Judged(Payload(item.judgment, item.rationale, item.confidence, item.focus));
  }

  // ----- what the results say -----

  /** The expected references that get a result. */
  function Named(expected: seq<string>): seq<string> {
    Filter((ref: string) => ref != "", expected)
  }

  function RefsOf(results: seq<ToolResult>): seq<string> {
    Map((r: ToolResult) => r.ref, results)
  }

  /** The results answer the non-empty expected references one for one, in order. */
  lemma {:induction false} OneResultEach(expected: seq<string>, items: seq<Item>)
    ensures RefsOf(Results(expected, items)) == Named(expected)
  {
    if expected != [] {
      var n := |expected| - 1;
      OneResultEach(expected[..n], items);
      var before := Results(expected[..n], items);
      assert forall r :: RefsOf(before + [r]) == RefsOf(before) + [r.ref];
      assert before + [] == before;
    }
  }

  /** An item that follows the schema: known words, a rationale that says something, and a focus that is a text or null. */
  predicate WellFormed(it: Item) {
    && (it.judgment == "concern" || it.judgment == "acceptable" || it.judgment == "unclear")
    && (it.confidence == "high" || it.confidence == "medium" || it.confidence == "low")
    && (exists c | c in it.rationale :: c != ' ' && !(9 <= c as int <= 13))
    && (it.focus.Text? || it.focus.Null?)
  }

  lemma ValidExactlyWhen(it: Item)
    ensures Validate(it).None? <==> WellFormed(it)
  {
    forall c: char ensures IsSpace(c) <==> c == ' ' || 9 <= c as int <= 13 { SpaceIs(c); }
  }

  lemma SpaceIs(c: char)
    ensures IsSpace(c) <==> c == ' ' || 9 <= c as int <= 13
  {
    assert '\t' == 9 as char && '\n' == 10 as char && '\r' == 13 as char;
    if 9 <= c as int <= 13 { assert c == 9 as char || c == 10 as char || c == 11 as char || c == 12 as char || c == 13 as char; }
  }

  /** The verdict on a reference that is not a repeated argument, from the reply's items for it. */
  predicate Deserved(own: seq<Item>, v: Verdict) {
    if |own| >= 2 then v == Diagnosed("batch response has duplicate finding_ref")
    else if |own| == 0 then v == Diagnosed("batch response missing finding_ref")
    else if WellFormed(own[0]) then
      v == Judged(Payload(own[0].judgment, own[0].rationale, own[0].confidence, own[0].focus))
    else v.Diagnosed? && "schema validation failed: " <= v.message
  }

  lemma VerdictDeserved(own: seq<Item>)
    ensures Deserved(own, VerdictOf(own))
  {
    if |own| == 1 { ValidExactlyWhen(own[0]); }
  }

  /** A judgment is given exactly when the reply has one item for the reference and that item is well-formed, and
      then it is that item's; every other reference is told why not. Only a repeated argument is answered otherwise. */
  lemma {:induction false} JudgedExactlyOnce(expected: seq<string>, items: seq<Item>, r: ToolResult)
    requires r in Results(expected, items)
    ensures r.verdict == Diagnosed("duplicate finding_ref in pack args") || Deserved(ItemsFor(items, r.ref), r.verdict)
    ensures r.verdict.Judged? <==> r.verdict != Diagnosed("duplicate finding_ref in pack args")
                                   && |ItemsFor(items, r.ref)| == 1 && WellFormed(ItemsFor(items, r.ref)[0])
    decreases |expected|
  {
    var n := |expected| - 1;
    if r in Results(expected[..n], items) {
      JudgedExactlyOnce(expected[..n], items, r);
    } else {
      VerdictDeserved(ItemsFor(items, r.ref));
      VerdictIsNotDuplicateArg(ItemsFor(items, r.ref));
    }
  }

  /** Each distinct non-empty reference gets a verdict of its own exactly once. */
  function Answers(results: seq<ToolResult>, ref: string): nat {
    if results == [] then 0
    else
      var last := results[|results| - 1];
      Answers(results[..|results| - 1], ref) +
      if last.ref == ref && last.verdict != Diagnosed(DUPLICATE_ARG) then 1 else 0
  }

  lemma VerdictIsNotDuplicateArg(own: seq<Item>)
    ensures VerdictOf(own) != Diagnosed(DUPLICATE_ARG)
  {
    assert INVALID[0] == 's' && DUPLICATE_ARG[0] == 'd' && DUPLICATE_REPLY[0] == 'b' && MISSING_REPLY[0] == 'b';
    if |own| == 1 && Validate(own[0]).Some? { assert Validate(own[0]).value[0] == INVALID[0]; }
  }

  lemma AnswersSnoc(before: seq<ToolResult>, r: ToolResult, ref: string)
    ensures Answers(before + [r], ref) ==
            Answers(before, ref) + if r.ref == ref && r.verdict != Diagnosed(DUPLICATE_ARG) then 1 else 0
  {
    assert (before + [r])[..|before|] == before;
  }

  lemma {:induction false} AnsweredOnce(expected: seq<string>, items: seq<Item>, ref: string)
    requires ref != ""
    ensures Answers(Results(expected, items), ref) == if ref in expected then 1 else 0
    decreases |expected|
  {
    if expected != [] {
      var n := |expected| - 1;
      AnsweredOnce(expected[..n], items, ref);
      VerdictIsNotDuplicateArg(ItemsFor(items, expected[n]));
      var before := Results(expected[..n], items);
      AnswersSnoc(before, ToolResult(expected[n], Diagnosed(DUPLICATE_ARG)), ref);
      AnswersSnoc(before, ToolResult(expected[n], VerdictOf(ItemsFor(items, expected[n]))), ref);
      assert before + [] == before;
      assert ref in expected <==> ref in expected[..n] || ref == expected[n];
    }
  }

  /** Partial success: changing the items of other references cannot change a reference's results. */
  lemma {:induction false} OthersCannotInterfere(expected: seq<string>, items: seq<Item>, items': seq<Item>, i: nat)
    requires i < |Results(expected, items)|
    requires ItemsFor(items, Results(expected, items)[i].ref) == ItemsFor(items', Results(expected, items)[i].ref)
    ensures |Results(expected, items')| == |Results(expected, items)|
    ensures Results(expected, items')[i] == Results(expected, items)[i]
    decreases |expected|
  {
    var n := |expected| - 1;
    OneResultEach(expected, items);
    OneResultEach(expected, items');
    OneResultEach(expected[..n], items);
    OneResultEach(expected[..n], items');
    if i < |Results(expected[..n], items)| { OthersCannotInterfere(expected[..n], items, items', i); }
  }
}
