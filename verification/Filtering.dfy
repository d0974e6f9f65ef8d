/** Keeping the entries of a list that satisfy a predicate, in order. */
module Filtering {
  import opened Ordering

  function Filter<T>(keep: T -> bool, s: seq<T>): (r: seq<T>)
    ensures |r| <= |s|
    ensures forall x | x in r :: x in s && keep(x)
  {
    if s == [] then []
    else Filter(keep, s[..|s| - 1]) + if keep(s[|s| - 1]) then [s[|s| - 1]] else []
  }

  function Outside<T(==)>(s: seq<T>, taken: set<T>): seq<T> {
    Filter(x => x !in taken, s)
  }

  /** Every entry that satisfies the predicate stays as often as it was there; no other entry stays. */
  lemma {:induction false} FilterCounts<T>(keep: T -> bool, s: seq<T>, x: T)
    ensures multiset(Filter(keep, s))[x] == if keep(x) then multiset(s)[x] else 0
    ensures x in Filter(keep, s) <==> x in s && keep(x)
  {
    if s != [] {
      FilterCounts(keep, s[..|s| - 1], x);
      assert s == s[..|s| - 1] + [s[|s| - 1]];
    }
  }

  lemma FilterSnoc<T>(keep: T -> bool, s: seq<T>, x: T)
    ensures Filter(keep, s + [x]) == Filter(keep, s) + if keep(x) then [x] else []
  {
    assert (s + [x])[..|s|] == s;
  }

  lemma {:induction false} FilterCons<T>(keep: T -> bool, x: T, s: seq<T>)
    ensures Filter(keep, [x] + s) == (if keep(x) then [x] else []) + Filter(keep, s)
  {
    if s == [] {
      assert [x] + s == [x] && [x][..0] == [];
    } else {
      var before, last := s[..|s| - 1], s[|s| - 1];
      FilterCons(keep, x, before);
      assert [x] + s == ([x] + before) + [last] && s == before + [last];
      FilterSnoc(keep, [x] + before, last);
      FilterSnoc(keep, before, last);
      Associate(if keep(x) then [x] else [], Filter(keep, before), if keep(last) then [last] else []);
    }
  }

  lemma FilterPermutes<T(!new)>(keep: T -> bool, s: seq<T>, t: seq<T>)
    requires multiset(s) == multiset(t)
    ensures multiset(Filter(keep, s)) == multiset(Filter(keep, t))
    ensures |Filter(keep, s)| == |Filter(keep, t)|
  {
    forall x ensures multiset(Filter(keep, s))[x] == multiset(Filter(keep, t))[x] {
      FilterCounts(keep, s, x);
      FilterCounts(keep, t, x);
    }
    assert multiset(Filter(keep, s)) == multiset(Filter(keep, t));
    SameLength(Filter(keep, s), Filter(keep, t));
  }

  lemma SameLength<T>(s: seq<T>, t: seq<T>)
    requires multiset(s) == multiset(t)
    ensures |s| == |t|
  {
    assert |multiset(s)| == |multiset(t)|;
  }

  lemma {:induction false} FilterConcat<T>(keep: T -> bool, s: seq<T>, t: seq<T>)
    ensures Filter(keep, s + t) == Filter(keep, s) + Filter(keep, t)
  {
    if t == [] {
      assert s + t == s;
    } else {
      var before, x := t[..|t| - 1], t[|t| - 1];
      FilterConcat(keep, s, before);
      SplitLast(s, t);
      FilterSnoc(keep, s + before, x);
      FilterSnoc(keep, before, x);
      Associate(Filter(keep, s), Filter(keep, before), if keep(x) then [x] else []);
    }
  }

  lemma SplitLast<T>(s: seq<T>, t: seq<T>)
    requires t != []
    ensures s + t == (s + t[..|t| - 1]) + [t[|t| - 1]] && t == t[..|t| - 1] + [t[|t| - 1]]
  {
  }

  lemma {:induction false} FilterAll<T>(keep: T -> bool, s: seq<T>)
    requires forall x | x in s :: keep(x)
    ensures Filter(keep, s) == s
  {
    if s != [] {
      var before, last := s[..|s| - 1], s[|s| - 1];
      assert s == before + [last] && last in s;
      FilterAll(keep, before);
      FilterSnoc(keep, before, last);
    }
  }

  lemma FilterNone<T>(keep: T -> bool, s: seq<T>)
    requires forall x | x in s :: !keep(x)
    ensures Filter(keep, s) == []
  {
    if Filter(keep, s) != [] { assert Filter(keep, s)[0] in Filter(keep, s); }
  }

  lemma {:induction false} SameFilter<T>(keep: T -> bool, keep': T -> bool, s: seq<T>)
    requires forall x | x in s :: keep(x) == keep'(x)
    ensures Filter(keep, s) == Filter(keep', s)
  {
    if s != [] {
      assert s[|s| - 1] in s;
      SameFilter(keep, keep', s[..|s| - 1]);
    }
  }

  /** Filtering by what the images satisfy, then mapping, is mapping, then filtering. */
  lemma {:induction false} FilterMap<A, B>(keepB: B -> bool, keepA: A -> bool, f: A -> B, s: seq<A>)
    requires forall x | x in s :: keepA(x) == keepB(f(x))
    ensures Map(f, Filter(keepA, s)) == Filter(keepB, Map(f, s))
  {
    if s != [] {
      var rest, x := s[..|s| - 1], s[|s| - 1];
      FilterMap(keepB, keepA, f, rest);
      assert x in s;
      assert Map(f, s)[..|s| - 1] == Map(f, rest);
      MapConcat(f, Filter(keepA, rest), [x]);
      assert Map(f, [x]) == [f(x)];
    }
  }

  /** Two survivors come from two positions in the same order. */
  lemma {:induction false} FilterKeepsOrder<T>(keep: T -> bool, s: seq<T>, i: nat, j: nat) returns (a: nat, b: nat)
    requires i < j < |Filter(keep, s)|
    ensures a < b < |s| && s[a] == Filter(keep, s)[i] && s[b] == Filter(keep, s)[j]
  {
    var before := s[..|s| - 1];
    if j < |Filter(keep, before)| {
      a, b := FilterKeepsOrder(keep, before, i, j);
    } else {
      assert Filter(keep, before)[i] in before;
      a :| 0 <= a < |before| && before[a] == Filter(keep, before)[i];
      b := |before|;
    }
  }

  lemma OutsideKeepsOrder<T>(s: seq<T>, taken: set<T>, i: nat, j: nat) returns (a: nat, b: nat)
    requires i < j < |Outside(s, taken)|
    ensures a < b < |s| && s[a] == Outside(s, taken)[i] && s[b] == Outside(s, taken)[j]
  {
    a, b := FilterKeepsOrder(x => x !in taken, s, i, j);
  }

  /** The loop over `kept := s[:0]`: the survivors are appended over the front of the same backing array. */
  method FilterInPlace<T>(keep: T -> bool, a: array<T>, len: nat) returns (n: nat)
    requires len <= a.Length
    modifies a
    ensures n <= len && a[..n] == Filter(keep, old(a[..len]))
    ensures a[len..] == old(a[len..])
  {
    ghost var was := a[..];
    n := 0;
    for i := 0 to len
      invariant n <= i && a[..n] == Filter(keep, was[..i])
      invariant forall k | i <= k < a.Length :: a[k] == was[k]
    {
      FilterStep(keep, was, i);
      if keep(a[i]) {
        a[n] := a[i];
        n := n + 1;
      }
    }
    assert was[..len] == old(a[..len]);
  }

  lemma FilterStep<T>(keep: T -> bool, s: seq<T>, i: nat)
    requires i < |s|
    ensures Filter(keep, s[..i + 1]) == if keep(s[i]) then Filter(keep, s[..i]) + [s[i]] else Filter(keep, s[..i])
  {
    assert s[..i + 1] == s[..i] + [s[i]];
    FilterSnoc(keep, s[..i], s[i]);
  }

  // ----- tied entries -----

  lemma {:induction false} TiesCounts<T>(cmp: (T, T) -> int, x: T, s: seq<T>, y: T)
    ensures multiset(Ties(cmp, x, s))[y] == if cmp(x, y) == 0 then multiset(s)[y] else 0
  {
    if s != [] {
      TiesCounts(cmp, x, s[1..], y);
      assert s == [s[0]] + s[1..];
    }
  }

  lemma {:induction false} SameThroughout<T>(a: seq<T>, b: seq<T>)
    requires multiset(a) == multiset(b) && forall y, z | y in a && z in a :: y == z
    ensures a == b
  {
    SameLength(a, b);
    forall i | 0 <= i < |a| ensures a[i] == b[i] {
      assert b[i] in multiset(b) && b[i] in multiset(a);
      assert b[i] in a && a[i] in a;
    }
  }

  /** Permuting a list in which ties are equal does not show among the ties. */
  lemma TiesPermute<T(!new)>(cmp: (T, T) -> int, x: T, s: seq<T>, t: seq<T>)
    requires multiset(s) == multiset(t) && forall y, z | y in s && z in s && cmp(x, y) == 0 && cmp(x, z) == 0 :: y == z
    ensures Ties(cmp, x, s) == Ties(cmp, x, t)
  {
    var a, b := Ties(cmp, x, s), Ties(cmp, x, t);
    forall y ensures multiset(a)[y] == multiset(b)[y] && (y in a ==> y in s && cmp(x, y) == 0) {
      TiesCounts(cmp, x, s, y);
      TiesCounts(cmp, x, t, y);
      assert y in a <==> y in multiset(a);
      assert y in s <==> y in multiset(s);
    }
    assert multiset(a) == multiset(b);
    SameThroughout(a, b);
  }

  // ----- appending what is new -----

  function AppendNew<T(==)>(before: seq<T>, more: seq<T>): seq<T> {
    if more == [] then before
    else
      var r, last := AppendNew(before, more[..|more| - 1]), more[|more| - 1];
      if last in r then r else r + [last]
  }

  lemma AppendNewSnoc<T>(before: seq<T>, more: seq<T>, x: T)
    ensures AppendNew(before, more + [x]) == var r := AppendNew(before, more); if x in r then r else r + [x]
  {
    assert (more + [x])[..|more|] == more;
  }

  lemma {:induction false} AppendNewConcat<T>(before: seq<T>, a: seq<T>, b: seq<T>)
    ensures AppendNew(before, a + b) == AppendNew(AppendNew(before, a), b)
  {
    if b == [] {
      assert a + b == a;
    } else {
      var n := |b| - 1;
      AppendNewConcat(before, a, b[..n]);
      SplitLast(a, b);
      AppendNewSnoc(before, a + b[..n], b[n]);
      AppendNewSnoc(AppendNew(before, a), b[..n], b[n]);
    }
  }

  lemma {:induction false} AppendNewMembers<T>(before: seq<T>, more: seq<T>, x: T)
    ensures x in AppendNew(before, more) <==> x in before || x in more
  {
    if more != [] {
      var n := |more| - 1;
      AppendNewMembers(before, more[..n], x);
      assert x in more <==> x in more[..n] || x == more[n];
    }
  }

  lemma {:induction false} AppendNewDistinct<T>(before: seq<T>, more: seq<T>)
    requires Distinct(before)
    ensures Distinct(AppendNew(before, more))
  {
    if more != [] { AppendNewDistinct(before, more[..|more| - 1]); }
  }

  lemma Associate<T>(a: seq<T>, b: seq<T>, c: seq<T>)
    ensures (a + b) + c == a + (b + c)
  {
  }

  // ----- one list from many -----

  function FlatMap<A, B>(f: A -> seq<B>, s: seq<A>): seq<B> {
    if s == [] then [] else FlatMap(f, s[..|s| - 1]) + f(s[|s| - 1])
  }

  lemma {:induction false} FlatMapConcat<A, B>(f: A -> seq<B>, s: seq<A>, t: seq<A>)
    ensures FlatMap(f, s + t) == FlatMap(f, s) + FlatMap(f, t)
  {
    if t == [] {
      assert s + t == s;
    } else {
      var n := |t| - 1;
      FlatMapConcat(f, s, t[..n]);
      assert (s + t)[..|s + t| - 1] == s + t[..n];
      Associate(FlatMap(f, s), FlatMap(f, t[..n]), f(t[n]));
    }
  }

  lemma FlatMapSnoc<A, B>(f: A -> seq<B>, s: seq<A>, x: A)
    ensures FlatMap(f, s + [x]) == FlatMap(f, s) + f(x)
  {
    assert (s + [x])[..|s|] == s;
  }

  lemma FlatMapAround<A, B>(f: A -> seq<B>, before: seq<A>, x: A, after: seq<A>)
    ensures FlatMap(f, (before + [x]) + after) == (FlatMap(f, before) + f(x)) + FlatMap(f, after)
  {
    FlatMapConcat(f, before + [x], after);
    FlatMapSnoc(f, before, x);
  }

  lemma FlatMapRemoved<A, B>(f: A -> seq<B>, before: seq<A>, x: A, after: seq<A>)
    ensures multiset(FlatMap(f, (before + [x]) + after)) == multiset(FlatMap(f, before + after)) + multiset(f(x))
  {
    FlatMapAround(f, before, x, after);
    FlatMapConcat(f, before, after);
    SumsOfThree(FlatMap(f, before), f(x), FlatMap(f, after));
  }

  lemma SplitsAt<A>(s: seq<A>, j: nat)
    requires j < |s|
    ensures s == (s[..j] + [s[j]]) + s[j + 1..]
  {
  }

  lemma FlatMapWithout<A, B>(f: A -> seq<B>, s: seq<A>, j: nat)
    requires j < |s|
    ensures multiset(FlatMap(f, s)) == multiset(FlatMap(f, WithoutEntry(s, j))) + multiset(f(s[j]))
  {
    SplitsAt(s, j);
    FlatMapRemoved(f, s[..j], s[j], s[j + 1..]);
  }

  lemma SumsOfThree<B>(a: seq<B>, b: seq<B>, c: seq<B>)
    ensures multiset((a + b) + c) == multiset(a + c) + multiset(b)
  {
  }

  /** Permuting the sources permutes what comes of them. */
  lemma {:induction false} FlatMapPermutes<A, B>(f: A -> seq<B>, s: seq<A>, t: seq<A>)
    requires multiset(s) == multiset(t)
    ensures multiset(FlatMap(f, s)) == multiset(FlatMap(f, t))
    decreases |s|
  {
    SameLength(s, t);
    if s != [] {
      assert s[0] in multiset(s) && s[0] in multiset(t);
      var j :| 0 <= j < |t| && t[j] == s[0];
      DropEntry(s, 0);
      DropEntry(t, j);
      FlatMapPermutes(f, WithoutEntry(s, 0), WithoutEntry(t, j));
      FlatMapWithout(f, s, 0);
      FlatMapWithout(f, t, j);
    }
  }

  lemma {:induction false} FlatMapMembers<A, B>(f: A -> seq<B>, s: seq<A>, y: B)
    ensures y in FlatMap(f, s) <==> exists x :: x in s && y in f(x)
  {
    if s != [] {
      var n := |s| - 1;
      FlatMapMembers(f, s[..n], y);
      assert s[n] in s && forall x :: x in s <==> x in s[..n] || x == s[n];
    }
  }

  // ----- lists without repeats -----

  predicate Distinct<T(==)>(s: seq<T>) {
    forall i, j | 0 <= i < j < |s| :: s[i] != s[j]
  }

  lemma Twice<T>(s: seq<T>, i: nat, j: nat)
    requires i < j < |s| && s[i] == s[j]
    ensures multiset(s)[s[i]] >= 2
  {
    assert s == s[..i] + [s[i]] + s[i + 1..j] + [s[j]] + s[j + 1..];
  }

  lemma {:induction false} OnceEach<T>(s: seq<T>, x: T)
    requires Distinct(s)
    ensures multiset(s)[x] <= 1
  {
    if s != [] {
      var before, last := s[..|s| - 1], s[|s| - 1];
      OnceEach(before, x);
      assert s == before + [last];
      assert forall i | 0 <= i < |before| :: before[i] == s[i] && s[i] != s[|s| - 1];
      assert x in before <==> x in multiset(before);
    }
  }

  lemma DistinctPermutes<T>(s: seq<T>, t: seq<T>)
    requires Distinct(s) && multiset(s) == multiset(t)
    ensures Distinct(t)
  {
    forall i, j | 0 <= i < j < |t| ensures t[i] != t[j] {
      OnceEach(s, t[i]);
      if t[i] == t[j] { Twice(t, i, j); }
    }
  }

  lemma FilterDistinct<A, B>(keep: A -> bool, f: A -> B, s: seq<A>)
    requires Distinct(Map(f, s))
    ensures Distinct(Map(f, Filter(keep, s)))
  {
    forall i, j | 0 <= i < j < |Filter(keep, s)| ensures f(Filter(keep, s)[i]) != f(Filter(keep, s)[j]) {
      var a, b := FilterKeepsOrder(keep, s, i, j);
      assert Map(f, s)[a] != Map(f, s)[b];
    }
  }
}
