/** Layer membership by path prefix (pkg/domain/layer_membership.go and
    pkg/codesignal/rule_layer_violation_match.go). */
module LayerMembership {
  import opened Filtering
  import opened Options
  import opened Ordering

  datatype Layer = Layer(name: string, prefixes: seq<string>)

  predicate Contains(prefix: string, key: string) {
    prefix == "." || key == prefix || prefix + "/" <= key
  }

  predicate AnyContains(prefixes: seq<string>, key: string) {
    exists p | p in prefixes :: Contains(p, key)
  }

  predicate LayerContains(layer: Layer, dir: string) {
    AnyContains(layer.prefixes, dir)
  }

  /** The first layer that contains `dir`. */
  function MatchLayer(layers: seq<Layer>, dir: string): Option<Layer> {
    if layers == [] then None
    else if LayerContains(layers[0], dir) then Some(layers[0])
    else MatchLayer(layers[1..], dir)
  }

  // ----- prefixes form a forest -----

  lemma ContainmentTransitive(p: string, q: string, key: string)
    requires Contains(p, q) && Contains(q, key)
    ensures Contains(p, key)
  {
    if p != "." && q != "." && q != p && key != q {
      assert (p + "/") <= q <= q + "/" <= key;
      assert key[..|p| + 1] == q[..|p| + 1];
    }
  }

  /** Two prefixes that contain the same key are nested in one another. */
  lemma ContainersNest(p: string, q: string, key: string)
    requires Contains(p, key) && Contains(q, key)
    ensures Contains(p, q) || Contains(q, p)
  {
    if p != "." && q != "." && p != key && q != key {
      if |p| == |q| {
        assert p == key[..|p|] == q;
      } else if |p| < |q| {
        assert q[..|p| + 1] == key[..|p| + 1] == p + "/";
      } else {
        assert p[..|q| + 1] == key[..|q| + 1] == q + "/";
      }
    }
  }

  // ----- containment by segments -----

  /** The parts of a path between its slashes. */
  function Segments(s: string): (parts: seq<string>)
    ensures parts != []
  {
    if s == "" then [""]
    else
      var rest := Segments(s[1..]);
      if s[0] == '/' then [""] + rest else [[s[0]] + rest[0]] + rest[1..]
  }

  function JoinSegments(parts: seq<string>): string
    requires parts != []
  {
    if |parts| == 1 then parts[0] else parts[0] + "/" + JoinSegments(parts[1..])
  }

  lemma {:induction false} JoinUndoesSegments(s: string)
    ensures JoinSegments(Segments(s)) == s
  {
    if s != "" {
      var rest := Segments(s[1..]);
      JoinUndoesSegments(s[1..]);
      if s[0] == '/' {
        assert ([""] + rest)[1..] == rest;
      } else {
        var all := [[s[0]] + rest[0]] + rest[1..];
        assert all[1..] == rest[1..];
        if |rest| > 1 { assert [s[0]] + (rest[0] + "/" + JoinSegments(rest[1..])) == ([s[0]] + rest[0]) + "/" + JoinSegments(rest[1..]); }
      }
    }
  }

  /** The segments with one more character in front. */
  function Lengthened(c: char, parts: seq<string>): seq<string>
    requires parts != []
  {
    if c == '/' then [""] + parts else [[c] + parts[0]] + parts[1..]
  }

  lemma LengthenedConcat(c: char, a: seq<string>, b: seq<string>)
    requires a != []
    ensures Lengthened(c, a + b) == Lengthened(c, a) + b
  {
    assert (a + b)[1..] == a[1..] + b;
  }

  lemma SegmentsStep(c: char, s: string)
    ensures Segments([c] + s) == Lengthened(c, Segments(s))
  {
    assert ([c] + s)[1..] == s;
  }

  lemma {:induction false} SegmentsJoin(a: string, b: string)
    ensures Segments(a + "/" + b) == Segments(a) + Segments(b)
  {
    if a == "" {
      SegmentsStep('/', b);
      assert "" + "/" + b == ['/'] + b;
    } else {
      var c, tail := a[0], a[1..];
      SegmentsJoin(tail, b);
      assert a == [c] + tail && a + "/" + b == [c] + (tail + "/" + b);
      SegmentsStep(c, tail + "/" + b);
      SegmentsStep(c, tail);
      LengthenedConcat(c, Segments(tail), Segments(b));
    }
  }

  lemma {:induction false} JoinConcat(a: seq<string>, b: seq<string>)
    requires a != [] && b != []
    ensures JoinSegments(a + b) == JoinSegments(a) + "/" + JoinSegments(b)
  {
    assert (a + b)[1..] == a[1..] + b;
    if |a| > 1 {
      JoinConcat(a[1..], b);
      assert a[0] + "/" + (JoinSegments(a[1..]) + "/" + JoinSegments(b)) == (a[0] + "/" + JoinSegments(a[1..])) + "/" + JoinSegments(b);
    } else {
      assert a[1..] + b == b;
    }
  }

  /** A prefix other than the root contains a key exactly when its segments lead the key's: whole segments count, so
      internal/api does not contain internal/apiclient. The root contains everything. */
  lemma ContainsBySegments(prefix: string, key: string)
    ensures Contains(".", key)
    ensures prefix != "." ==> (Contains(prefix, key) <==> Segments(prefix) <= Segments(key))
  {
    if prefix + "/" <= key {
      SegmentsJoin(prefix, key[|prefix| + 1..]);
      assert prefix + "/" + key[|prefix| + 1..] == key;
    }
    if Segments(prefix) <= Segments(key) {
      var more := Segments(key)[|Segments(prefix)|..];
      assert Segments(key) == Segments(prefix) + more;
      JoinUndoesSegments(prefix);
      JoinUndoesSegments(key);
      if more == [] {
        assert Segments(key) == Segments(prefix);
      } else {
        JoinConcat(Segments(prefix), more);
      }
    }
  }

  /** The first layer, in their order, with a prefix that contains the directory. */
  predicate FirstWith(layers: seq<Layer>, dir: string, i: nat) {
    && i < |layers| && (exists p | p in layers[i].prefixes :: Contains(p, dir))
    && forall j, p | 0 <= j < i && p in layers[j].prefixes :: !Contains(p, dir)
  }

  lemma {:induction false} MatchIsFirst(layers: seq<Layer>, dir: string, i: nat)
    ensures FirstWith(layers, dir, i) ==> MatchLayer(layers, dir) == Some(layers[i])
    ensures MatchLayer(layers, dir).Some? ==> exists k :: FirstWith(layers, dir, k)
  {
    if layers != [] {
      if LayerContains(layers[0], dir) {
        assert FirstWith(layers, dir, 0);
      } else {
        if i > 0 { MatchIsFirst(layers[1..], dir, i - 1); }
        MatchIsFirst(layers[1..], dir, 0);
        if FirstWith(layers, dir, i) && i > 0 { FirstInTail(layers, dir, i); }
        if MatchLayer(layers, dir).Some? {
          var k :| FirstWith(layers[1..], dir, k);
          FirstInList(layers, dir, k);
        }
      }
    }
  }

  lemma FirstInTail(layers: seq<Layer>, dir: string, i: nat)
    requires i > 0 && FirstWith(layers, dir, i)
    ensures FirstWith(layers[1..], dir, i - 1)
  {
    forall j, p | 0 <= j < i - 1 && p in layers[1..][j].prefixes ensures !Contains(p, dir) { assert layers[1..][j] == layers[j + 1]; }
  }

  lemma FirstInList(layers: seq<Layer>, dir: string, k: nat)
    requires layers != [] && !LayerContains(layers[0], dir) && FirstWith(layers[1..], dir, k)
    ensures FirstWith(layers, dir, k + 1)
  {
    forall j, p | 0 <= j < k + 1 && p in layers[j].prefixes ensures !Contains(p, dir) {
      if j > 0 { assert layers[j] == layers[1..][j - 1]; }
    }
  }

  // ----- layer order -----

  /** No prefix of one layer contains a prefix of a different one. */
  ghost predicate Separate(layers: seq<Layer>) {
    forall l, m, p, q | l in layers && m in layers && l != m && p in l.prefixes && q in m.prefixes :: !Contains(p, q)
  }

  lemma {:induction false} MatchFindsAMember(layers: seq<Layer>, dir: string)
    ensures match MatchLayer(layers, dir)
            case Some(l) => l in layers && LayerContains(l, dir)
            case None => forall l | l in layers :: !LayerContains(l, dir)
  {
    if layers != [] { MatchFindsAMember(layers[1..], dir); }
  }

  /** With separate layers the outcome does not depend on the order of the layers. */
  lemma MatchIgnoresOrder(layers: seq<Layer>, shuffled: seq<Layer>, dir: string)
    requires multiset(layers) == multiset(shuffled) && Separate(layers)
    ensures MatchLayer(layers, dir) == MatchLayer(shuffled, dir)
  {
    MatchFindsAMember(layers, dir);
    MatchFindsAMember(shuffled, dir);
    forall l ensures l in layers <==> l in shuffled {
      assert l in layers <==> l in multiset(layers);
      assert l in shuffled <==> l in multiset(shuffled);
    }
    forall l, m | l in layers && m in layers && LayerContains(l, dir) && LayerContains(m, dir) ensures l == m {
      var p :| p in l.prefixes && Contains(p, dir);
      var q :| q in m.prefixes && Contains(q, dir);
      ContainersNest(p, q, dir);
    }
  }

  /** Conversely, overlapping layers always have a directory on which the order decides. */
  lemma OverlapDependsOnOrder(layers: seq<Layer>)
    requires !Separate(layers)
    ensures exists s, t, dir :: multiset(s) == multiset(layers) == multiset(t) && MatchLayer(s, dir) != MatchLayer(t, dir)
  {
    var l, m, p, q :| l in layers && m in layers && l != m && p in l.prefixes && q in m.prefixes && Contains(p, q);
    var s := ToFront(layers, l);
    var t := ToFront(layers, m);
    assert LayerContains(l, q);
    assert Contains(q, q) && LayerContains(m, q);
    assert MatchLayer(s, q) == Some(l) && MatchLayer(t, q) == Some(m);
  }

  // ----- reach -----

  datatype Membership = Membership(analyzedFiles: nat, filesOutsideLayers: nat)

  /** The keys that no prefix contains. */
  function OutsidePrefixes(keys: seq<string>, prefixes: seq<string>): seq<string> {
    Filter((key: string) => !AnyContains(prefixes, key), keys)
  }

  method NewLayerMembership(keys: seq<string>, prefixes: seq<string>) returns (m: Membership)
    ensures m == Membership(|keys|, |OutsidePrefixes(keys, prefixes)|)
  {
    var outside := 0;
    for i := 0 to |keys|
      invariant outside == |OutsidePrefixes(keys[..i], prefixes)|
    {
      assert keys[..i + 1][..i] == keys[..i];
      if !AnyContains(prefixes, keys[i]) { outside := outside + 1; }
    }
    assert keys[..|keys|] == keys;
    m := Membership(|keys|, outside);
  }

  function AllPrefixes(layers: seq<Layer>): seq<string> {
    if layers == [] then [] else layers[0].prefixes + AllPrefixes(layers[1..])
  }

  lemma {:induction false} PrefixesPlace(layers: seq<Layer>, key: string)
    ensures AnyContains(AllPrefixes(layers), key) <==> MatchLayer(layers, key).Some?
  {
    if layers != [] {
      PrefixesPlace(layers[1..], key);
      forall p ensures p in AllPrefixes(layers) <==> p in layers[0].prefixes || p in AllPrefixes(layers[1..]) {}
    }
  }

  /** The keys the layer rules place in no layer. */
  function Unplaced(keys: seq<string>, layers: seq<Layer>): seq<string> {
    Filter((key: string) => MatchLayer(layers, key).None?, keys)
  }

  /** The count over the flattened prefixes is about exactly the keys the layer rules cannot place. */
  lemma {:induction false} OutsideIsUnplaced(keys: seq<string>, layers: seq<Layer>)
    ensures OutsidePrefixes(keys, AllPrefixes(layers)) == Unplaced(keys, layers)
  {
    if keys != [] {
      PrefixesPlace(layers, keys[|keys| - 1]);
      OutsideIsUnplaced(keys[..|keys| - 1], layers);
    }
  }
}
