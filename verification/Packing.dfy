/** Judgment packing: a greedy left-to-right partition under a findings cap and a token cap, run per
    high-affinity path and once over the rest (internal/rubrics/pack_greedy.go, pack.go, pack_config.go). */
module Packing {
  import opened Ordering

  /** `payloadBytes` is the length of the JSON payload. */
  datatype Candidate = Candidate(ref: string, path: string, startRow: int, severity: string, confidence: string,
                                 payloadBytes: nat, evidenceChars: int)

  datatype Config = Config(maxFindings: int, maxTokens: int, affinity: int, window: int)

  datatype JudgmentPack = JudgmentPack(findingRefs: seq<string>)

  const PROMPT_OVERHEAD := 64

  function ApplyDefaults(cfg: Config): Config {
    Config(if cfg.maxFindings == 0 then 4 else cfg.maxFindings,
           if cfg.maxTokens == 0 then 3500 else cfg.maxTokens,
           if cfg.affinity == 0 then 5 else cfg.affinity,
           if cfg.window == 0 then 15 else cfg.window)
  }

  /** A token for every four characters, the last ones rounded up. */
  function EstimateTokens(c: Candidate): (tokens: int)
    ensures tokens >= 0
    ensures c.payloadBytes + c.evidenceChars > 0 ==> 4 * tokens - 4 < c.payloadBytes + c.evidenceChars <= 4 * tokens
    ensures c.payloadBytes + c.evidenceChars <= 0 ==> tokens == 0
  {
    var chars := c.payloadBytes + c.evidenceChars;
    if chars <= 0 then 0 else (chars + 3) / 4
  }

  // ----- partitions -----

  function Tokens(pack: seq<Candidate>): (tokens: int)
    ensures tokens >= 0
  {
    if pack == [] then 0 else Tokens(pack[..|pack| - 1]) + EstimateTokens(pack[|pack| - 1])
  }

  predicate WithinCaps(pack: seq<Candidate>, cfg: Config) {
    |pack| <= cfg.maxFindings && PROMPT_OVERHEAD + Tokens(pack) <= cfg.maxTokens
  }

  /** A lone candidate always fits its own pack. */
  predicate Fits(pack: seq<Candidate>, cfg: Config) {
    |pack| == 1 || WithinCaps(pack, cfg)
  }

  function Flatten(packs: seq<seq<Candidate>>): seq<Candidate> {
    if packs == [] then [] else packs[0] + Flatten(packs[1..])
  }

  /** An in-order contiguous partition of `cands` into non-empty packs that all fit. */
  ghost predicate Partition(packs: seq<seq<Candidate>>, cands: seq<Candidate>, cfg: Config) {
    Flatten(packs) == cands && forall p | p in packs :: p != [] && Fits(p, cfg)
  }

  /** No pack could also have taken the candidate that follows it. */
  ghost predicate Full(packs: seq<seq<Candidate>>, cfg: Config) {
    forall i, j | 0 <= i < j < |packs| && j == i + 1 :: NoRoom(packs[i], packs[j], cfg)
  }

  predicate NoRoom(pack: seq<Candidate>, next: seq<Candidate>, cfg: Config) {
    next != [] && !Fits(pack + [next[0]], cfg)
  }

  lemma {:induction false} FlattenConcat(a: seq<seq<Candidate>>, b: seq<seq<Candidate>>)
    ensures Flatten(a + b) == Flatten(a) + Flatten(b)
  {
    if a == [] {
      assert a + b == b;
    } else {
      assert (a + b)[1..] == a[1..] + b;
      FlattenConcat(a[1..], b);
    }
  }

  // ----- packs being filled -----

  function Refs(pack: seq<Candidate>): seq<string> {
    Map((c: Candidate) => c.ref, pack)
  }

  function AsPacks(packs: seq<seq<Candidate>>): (r: seq<JudgmentPack>)
    ensures |r| == |packs| && forall i | 0 <= i < |packs| :: r[i] == JudgmentPack(Refs(packs[i]))
  {
    seq(|packs|, i requires 0 <= i < |packs| => JudgmentPack(Refs(packs[i])))
  }

  method Flush(packs: seq<JudgmentPack>, cur: seq<Candidate>) returns (out: seq<JudgmentPack>)
    ensures out == packs + if cur == [] then [] else [JudgmentPack(Refs(cur))]
  {
    if |cur| == 0 { return packs; }
    var refs := [];
    for i := 0 to |cur|
      invariant refs == Refs(cur)[..i]
    {
      refs := refs + [cur[i].ref];
    }
    assert refs == Refs(cur);
    out := packs + [JudgmentPack(refs)];
  }

  /** The packs filled so far, `items` flushed and `cur` open, over the candidates `seen`. */
  ghost predicate Filling(items: seq<seq<Candidate>>, cur: seq<Candidate>, seen: seq<Candidate>, cfg: Config) {
    && Flatten(items) + cur == seen
    && (forall p | p in items :: p != [] && Fits(p, cfg))
    && (cur == [] ==> items == []) && (cur != [] ==> Fits(cur, cfg) && Full(items + [[cur[0]]], cfg))
  }

  lemma Extend(items: seq<seq<Candidate>>, cur: seq<Candidate>, seen: seq<Candidate>, c: Candidate, cfg: Config)
    requires Filling(items, cur, seen, cfg) && (cur == [] || Fits(cur + [c], cfg))
    ensures Filling(items, cur + [c], seen + [c], cfg)
  {
    assert Flatten(items) + (cur + [c]) == seen + [c];
  }

  lemma Close(items: seq<seq<Candidate>>, cur: seq<Candidate>, seen: seq<Candidate>, c: Candidate, cfg: Config)
    requires Filling(items, cur, seen, cfg) && cur != [] && !Fits(cur + [c], cfg)
    ensures Filling(items + [cur], [c], seen + [c], cfg)
  {
    FlattenConcat(items, [cur]);
    assert Flatten([cur]) == cur + Flatten([cur][1..]) == cur;
    var before, after := items + [[cur[0]]], (items + [cur]) + [[c]];
    forall i, j | 0 <= i < j < |after| && j == i + 1 ensures NoRoom(after[i], after[j], cfg) {
      if i < |items| { assert NoRoom(before[i], before[j], cfg); }
    }
  }

  lemma Finish(items: seq<seq<Candidate>>, cur: seq<Candidate>, seen: seq<Candidate>, cfg: Config)
    requires Filling(items, cur, seen, cfg)
    ensures var all := items + if cur == [] then [] else [cur];
            Partition(all, seen, cfg) && Full(all, cfg)
  {
    if cur != [] {
      FlattenConcat(items, [cur]);
      assert Flatten([cur]) == cur + Flatten([cur][1..]) == cur;
      var before, after := items + [[cur[0]]], items + [cur];
      forall i, j | 0 <= i < j < |after| && j == i + 1 ensures NoRoom(after[i], after[j], cfg) {
        assert NoRoom(before[i], before[j], cfg);
      }
    } else {
      assert items + [] == items;
    }
  }

  // ----- optimality -----

  lemma {:induction false} TokensConcat(a: seq<Candidate>, b: seq<Candidate>)
    ensures Tokens(a + b) == Tokens(a) + Tokens(b)
  {
    if b == [] {
      assert a + b == a;
    } else {
      assert (a + b)[..|a + b| - 1] == a + b[..|b| - 1];
      TokensConcat(a, b[..|b| - 1]);
    }
  }

  /** A non-empty contiguous part of a pack that fits also fits. */
  lemma PartsFit(before: seq<Candidate>, part: seq<Candidate>, after: seq<Candidate>, cfg: Config)
    requires Fits(before + part + after, cfg) && part != []
    ensures Fits(part, cfg)
  {
    TokensConcat(before + part, after);
    TokensConcat(before, part);
  }

  /** Staying ahead: when full packs start no earlier in the list than some other partition does, they need
      no more packs for what is left. `ahead` is what the full packs have already taken of the other's
      first pack. */
  lemma {:induction false} FullStaysAhead(packs: seq<seq<Candidate>>, others: seq<seq<Candidate>>, ahead: seq<Candidate>,
                                          cfg: Config)
    requires ahead + Flatten(packs) == Flatten(others) && Full(packs, cfg)
    requires forall p | p in packs :: p != []
    requires forall p | p in others :: p != [] && Fits(p, cfg)
    ensures |packs| <= |others|
    decreases |packs| + |others|
  {
    if packs != [] {
      assert packs[0] in packs;
      assert others != [];
      var first := others[0];
      assert first in others;
      var rest := Flatten(packs);
      var tail := Flatten(others[1..]);
      if |first| <= |ahead| {
        assert ahead[|first|..] + rest == (ahead + rest)[|first|..] == (first + tail)[|first|..] == tail;
        TailMembers(others);
        FullStaysAhead(packs, others[1..], ahead[|first|..], cfg);
      } else {
        var taken := first[|ahead|..];
        assert ahead + rest == first + tail;
        assert first[..|ahead|] == (first + tail)[..|ahead|] == (ahead + rest)[..|ahead|] == ahead;
        assert first == ahead + taken;
        assert taken + tail == rest by {
          assert (first + tail)[|ahead|..] == taken + tail;
          assert (ahead + rest)[|ahead|..] == rest;
        }
        ReachesAsFar(packs, taken, tail, ahead, cfg);
        var extra := packs[0][|taken|..];
        assert packs[0] + Flatten(packs[1..]) == taken + tail;
        assert extra + Flatten(packs[1..]) == tail by {
          assert (packs[0] + Flatten(packs[1..]))[|taken|..] == extra + Flatten(packs[1..]);
          assert (taken + tail)[|taken|..] == tail;
        }
        FullTail(packs, cfg);
        TailMembers(packs);
        TailMembers(others);
        FullStaysAhead(packs[1..], others[1..], extra, cfg);
      }
    }
  }

  /** A full pack reaches at least as far as any pack that fits and started no later. */
  lemma ReachesAsFar(packs: seq<seq<Candidate>>, taken: seq<Candidate>, tail: seq<Candidate>, ahead: seq<Candidate>, cfg: Config)
    requires packs != [] && packs[0] != [] && Full(packs, cfg)
    requires Flatten(packs) == taken + tail && Fits(ahead + taken, cfg)
    ensures |taken| <= |packs[0]|
  {
    if |taken| > |packs[0]| {
      var p, rest := packs[0], Flatten(packs[1..]);
      assert |packs| > 1;
      var q := packs[1];
      assert NoRoom(p, q, cfg);
      assert rest[0] == q[0];
      assert (p + rest)[..|p| + 1] == p + [q[0]];
      assert taken[..|p| + 1] == (taken + tail)[..|p| + 1];
      assert taken == p + [q[0]] + taken[|p| + 1..];
      assert ahead + taken == ahead + (p + [q[0]]) + taken[|p| + 1..];
      PartsFit(ahead, p + [q[0]], taken[|p| + 1..], cfg);
      assert false;
    }
  }

  /** Greedy is optimal: whatever packs as the greedy loop does uses the fewest packs of any in-order
      contiguous partition under the same caps. */
  lemma GreedyIsOptimal(packs: seq<seq<Candidate>>, others: seq<seq<Candidate>>, cands: seq<Candidate>, cfg: Config)
    requires Partition(packs, cands, cfg) && Full(packs, cfg) && Partition(others, cands, cfg)
    ensures |packs| <= |others|
  {
    assert [] + Flatten(packs) == Flatten(others);
    FullStaysAhead(packs, others, [], cfg);
  }

  /** ... and it is the only partition that leaves no pack room for its successor's first candidate. */
  lemma {:induction false} FullUnique(packs: seq<seq<Candidate>>, others: seq<seq<Candidate>>, cands: seq<Candidate>, cfg: Config)
    requires Partition(packs, cands, cfg) && Full(packs, cfg) && Partition(others, cands, cfg) && Full(others, cfg)
    ensures packs == others
    decreases |packs|
  {
    if packs != [] { assert packs[0] in packs; }
    if others != [] { assert others[0] in others; }
    if packs != [] && others != [] {
      var p, q := packs[0], others[0];
      assert p in packs && q in others;
      assert [] + q == q && [] + p == p;
      ReachesAsFar(packs, q, Flatten(others[1..]), [], cfg);
      ReachesAsFar(others, p, Flatten(packs[1..]), [], cfg);
      assert p == cands[..|p|] == q;
      assert Flatten(packs[1..]) == cands[|p|..] == Flatten(others[1..]);
      FullTail(packs, cfg);
      FullTail(others, cfg);
      TailMembers(packs);
      TailMembers(others);
      FullUnique(packs[1..], others[1..], cands[|p|..], cfg);
      assert packs == [p] + packs[1..] && others == [q] + others[1..];
    }
  }

  lemma TailMembers(packs: seq<seq<Candidate>>)
    requires packs != []
    ensures forall p | p in packs[1..] :: p in packs
  {
  }

  lemma FullTail(packs: seq<seq<Candidate>>, cfg: Config)
    requires packs != [] && Full(packs, cfg)
    ensures Full(packs[1..], cfg)
  {
    forall i, j | 0 <= i < j < |packs[1..]| && j == i + 1 ensures NoRoom(packs[1..][i], packs[1..][j], cfg) {
      assert NoRoom(packs[i + 1], packs[j + 1], cfg);
    }
  }

  // ----- the greedy partition -----

  /** The partition the greedy loop ends with; it is the only one with full packs. */
  ghost function Greedy(cands: seq<Candidate>, cfg: Config): seq<seq<Candidate>> {
    if exists items :: Partition(items, cands, cfg) && Full(items, cfg)
    then var items :| Partition(items, cands, cfg) && Full(items, cfg); items
    else []
  }

  lemma GreedyIs(items: seq<seq<Candidate>>, cands: seq<Candidate>, cfg: Config)
    requires Partition(items, cands, cfg) && Full(items, cfg)
    ensures items == Greedy(cands, cfg)
  {
    FullUnique(items, Greedy(cands, cfg), cands, cfg);
  }

  /** The greedy partition exists for every list. */
  lemma {:induction false} GreedyHolds(cands: seq<Candidate>, cfg: Config)
    ensures Partition(Greedy(cands, cfg), cands, cfg) && Full(Greedy(cands, cfg), cfg)
  {
    var items, cur := Fill(cands, cfg);
    Finish(items, cur, cands, cfg);
  }

  lemma {:induction false} Fill(cands: seq<Candidate>, cfg: Config)
    returns (items: seq<seq<Candidate>>, cur: seq<Candidate>)
    ensures Filling(items, cur, cands, cfg)
  {
    if cands == [] {
      items, cur := [], [];
    } else {
      var n, c := |cands| - 1, cands[|cands| - 1];
      items, cur := Fill(cands[..n], cfg);
      assert cands == cands[..n] + [c];
      if cur == [] || Fits(cur + [c], cfg) {
        Extend(items, cur, cands[..n], c, cfg);
        cur := cur + [c];
      } else {
        Close(items, cur, cands[..n], c, cfg);
        items, cur := items + [cur], [c];
      }
    }
  }

  /** What the greedy loop produces uses no more packs than any other partition of the same list. */
  lemma GreedyUsesFewest(cands: seq<Candidate>, others: seq<seq<Candidate>>, cfg: Config)
    requires Partition(others, cands, cfg)
    ensures |Greedy(cands, cfg)| <= |others|
  {
    GreedyHolds(cands, cfg);
    GreedyIsOptimal(Greedy(cands, cfg), others, cands, cfg);
  }

  // ----- the greedy loop -----

  /** The loop flushes full packs only, so it returns the one partition whose packs are all full. */
  method PackGreedy(cands: seq<Candidate>, cfg: Config) returns (packs: seq<JudgmentPack>)
    ensures packs == AsPacks(Greedy(cands, cfg))
  {
    packs := [];
    GreedyIs([], [], cfg);
    if |cands| == 0 { return; }
    ghost var items: seq<seq<Candidate>> := [];
    var cur: seq<Candidate> := [];
    var curTokens := PROMPT_OVERHEAD;
    for i := 0 to |cands|
      invariant packs == AsPacks(items) && curTokens == PROMPT_OVERHEAD + Tokens(cur)
      invariant Filling(items, cur, cands[..i], cfg) && (i > 0 ==> cur != [])
    {
      var c := cands[i];
      var itemTokens := EstimateTokens(c);
      assert cands[..i + 1] == cands[..i] + [c];
      assert (cur + [c])[..|cur|] == cur;
      if |cur| == 0 {
        Extend(items, cur, cands[..i], c, cfg);
        cur := cur + [c];
        curTokens := curTokens + itemTokens;
        continue;
      }
      if |cur| + 1 > cfg.maxFindings || curTokens + itemTokens > cfg.maxTokens {
        Close(items, cur, cands[..i], c, cfg);
        packs := Flush(packs, cur);
        items := items + [cur];
        assert [c][..0] == [];
        cur := [c];
        curTokens := PROMPT_OVERHEAD + itemTokens;
        continue;
      }
      Extend(items, cur, cands[..i], c, cfg);
      cur := cur + [c];
      curTokens := curTokens + itemTokens;
    }
    assert cands[..|cands|] == cands;
    Finish(items, cur, cands, cfg);
    packs := Flush(packs, cur);
    items := items + [cur];
    GreedyIs(items, cands, cfg);
  }
}
