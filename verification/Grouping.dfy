/** Grouping a list by a label: Go's `groups[key] = append(groups[key], x)` over a loop, where entries
    without a label are skipped. */
module Grouping {
  import opened Options

  /** The entries labelled `key`, in order. */
  function Group<E, K(==)>(s: seq<E>, mark: E -> Option<K>, key: K): seq<E> {
    if s == [] then []
    else Group(s[..|s| - 1], mark, key) + if mark(s[|s| - 1]) == Some(key) then [s[|s| - 1]] else []
  }

  ghost function Keys<E, K>(s: seq<E>, mark: E -> Option<K>): set<K> {
    set i | 0 <= i < |s| && mark(s[i]).Some? :: mark(s[i]).value
  }

  ghost predicate IsGrouped<E, K(!new)>(s: seq<E>, mark: E -> Option<K>, groups: map<K, seq<E>>) {
    && (forall key :: key in groups <==> Group(s, mark, key) != [])
    && (forall key | key in groups :: groups[key] == Group(s, mark, key))
  }

  lemma GroupSnoc<E, K>(s: seq<E>, mark: E -> Option<K>, key: K, n: nat)
    requires n < |s|
    ensures Group(s[..n + 1], mark, key) == Group(s[..n], mark, key) + if mark(s[n]) == Some(key) then [s[n]] else []
  {
    assert s[..n + 1][..n] == s[..n];
  }

  method GroupBy<E, K(!new, ==)>(s: seq<E>, mark: E -> Option<K>) returns (groups: map<K, seq<E>>)
    ensures IsGrouped(s, mark, groups) && groups.Keys == Keys(s, mark)
  {
    groups := map[];
    for i := 0 to |s|
      invariant IsGrouped(s[..i], mark, groups)
    {
      forall key ensures Group(s[..i + 1], mark, key) ==
                         Group(s[..i], mark, key) + if mark(s[i]) == Some(key) then [s[i]] else [] {
        GroupSnoc(s, mark, key, i);
      }
      var m := mark(s[i]);
      if m.None? { continue; }
      groups := groups[m.value := (if m.value in groups then groups[m.value] else []) + [s[i]]];
    }
    assert s[..|s|] == s;
    forall key ensures key in groups <==> key in Keys(s, mark) { GroupNonEmpty(s, mark, key); }
  }

  lemma {:induction false} GroupMembers<E, K>(s: seq<E>, mark: E -> Option<K>, key: K, x: E)
    ensures x in Group(s, mark, key) <==> x in s && mark(x) == Some(key)
  {
    if s != [] {
      var n := |s| - 1;
      GroupMembers(s[..n], mark, key, x);
      assert s == s[..n] + [s[n]];
    }
  }

  lemma GroupNonEmpty<E, K>(s: seq<E>, mark: E -> Option<K>, key: K)
    ensures Group(s, mark, key) != [] <==> key in Keys(s, mark)
  {
    if Group(s, mark, key) != [] {
      var x := Group(s, mark, key)[0];
      GroupMembers(s, mark, key, x);
      var i :| 0 <= i < |s| && s[i] == x;
    }
    if key in Keys(s, mark) {
      var i :| 0 <= i < |s| && mark(s[i]) == Some(key);
      GroupMembers(s, mark, key, s[i]);
    }
  }

  lemma {:induction false} GroupCounts<E, K>(s: seq<E>, mark: E -> Option<K>, key: K, x: E)
    ensures multiset(Group(s, mark, key))[x] == if mark(x) == Some(key) then multiset(s)[x] else 0
  {
    if s != [] {
      var n := |s| - 1;
      GroupCounts(s[..n], mark, key, x);
      assert s == s[..n] + [s[n]];
    }
  }

  /** Permuting the list permutes each group. */
  lemma GroupsPermute<E(!new), K>(s: seq<E>, t: seq<E>, mark: E -> Option<K>, key: K)
    requires multiset(s) == multiset(t)
    ensures multiset(Group(s, mark, key)) == multiset(Group(t, mark, key))
  {
    forall x ensures multiset(Group(s, mark, key))[x] == multiset(Group(t, mark, key))[x] {
      GroupCounts(s, mark, key, x);
      GroupCounts(t, mark, key, x);
    }
  }

  lemma KeysPermute<E, K(!new)>(s: seq<E>, t: seq<E>, mark: E -> Option<K>)
    requires multiset(s) == multiset(t)
    ensures Keys(s, mark) == Keys(t, mark)
  {
    forall key ensures key in Keys(s, mark) <==> key in Keys(t, mark) {
      if i :| 0 <= i < |s| && mark(s[i]) == Some(key) {
        assert s[i] in multiset(t);
        var j :| 0 <= j < |t| && t[j] == s[i];
      }
      if j :| 0 <= j < |t| && mark(t[j]) == Some(key) {
        assert t[j] in multiset(s);
        var i :| 0 <= i < |s| && s[i] == t[j];
      }
    }
  }

  // ----- the groups together -----

  /** The entries that have a label. */
  function Labelled<E, K>(s: seq<E>, mark: E -> Option<K>): seq<E> {
    if s == [] then []
    else Labelled(s[..|s| - 1], mark) + if mark(s[|s| - 1]).Some? then [s[|s| - 1]] else []
  }

  lemma {:induction false} LabelledCounts<E, K>(s: seq<E>, mark: E -> Option<K>, x: E)
    ensures multiset(Labelled(s, mark))[x] == if mark(x).Some? then multiset(s)[x] else 0
  {
    if s != [] {
      var n := |s| - 1;
      LabelledCounts(s[..n], mark, x);
      assert s == s[..n] + [s[n]];
    }
  }

  function GroupsOf<E, K(==)>(s: seq<E>, mark: E -> Option<K>, keys: seq<K>): seq<E> {
    if keys == [] then [] else GroupsOf(s, mark, keys[..|keys| - 1]) + Group(s, mark, keys[|keys| - 1])
  }

  lemma {:induction false} GroupsOfCounts<E, K(!new)>(s: seq<E>, mark: E -> Option<K>, keys: seq<K>, x: E)
    requires forall i, j | 0 <= i < j < |keys| :: keys[i] != keys[j]
    ensures multiset(GroupsOf(s, mark, keys))[x] == if mark(x).Some? && mark(x).value in keys then multiset(s)[x] else 0
  {
    if keys != [] {
      var n := |keys| - 1;
      var before, last := keys[..n], keys[n];
      GroupsOfCounts(s, mark, before, x);
      GroupCounts(s, mark, last, x);
      LastKey(keys, last);
      if mark(x).Some? { LastKey(keys, mark(x).value); }
    }
  }

  lemma LastKey<K>(keys: seq<K>, k: K)
    requires keys != [] && forall i, j | 0 <= i < j < |keys| :: keys[i] != keys[j]
    ensures k in keys <==> k in keys[..|keys| - 1] || k == keys[|keys| - 1]
    ensures keys[|keys| - 1] !in keys[..|keys| - 1]
  {
  }

  /** The groups of all keys hold every labelled entry exactly once. */
  lemma GroupsPartition<E(!new), K(!new)>(s: seq<E>, mark: E -> Option<K>, keys: seq<K>)
    requires multiset(keys) == multiset(Keys(s, mark))
    ensures multiset(GroupsOf(s, mark, keys)) == multiset(Labelled(s, mark))
  {
    NoRepeats(keys, Keys(s, mark));
    forall x ensures multiset(GroupsOf(s, mark, keys))[x] == multiset(Labelled(s, mark))[x] {
      GroupsOfCounts(s, mark, keys, x);
      LabelledCounts(s, mark, x);
      if mark(x).Some? && x in s {
        var i :| 0 <= i < |s| && s[i] == x;
        assert mark(x).value in Keys(s, mark);
        assert mark(x).value in multiset(keys);
      }
      assert x !in s ==> multiset(s)[x] == 0;
    }
  }

  lemma {:induction false} NoRepeats<K(!new)>(keys: seq<K>, all: set<K>)
    requires multiset(keys) == multiset(all)
    ensures forall i, j | 0 <= i < j < |keys| :: keys[i] != keys[j]
    ensures forall k :: k in keys <==> k in all
  {
    forall i, j | 0 <= i < j < |keys| ensures keys[i] != keys[j] {
      assert keys == keys[..i] + [keys[i]] + keys[i + 1..j] + [keys[j]] + keys[j + 1..];
      assert multiset(all)[keys[i]] <= 1;
    }
    forall k ensures k in keys <==> k in all {
      assert k in keys <==> k in multiset(keys);
      assert k in all <==> k in multiset(all);
    }
  }
}
