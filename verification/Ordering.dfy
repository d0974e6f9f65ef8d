/** Three-way comparisons in the style of Go's `cmp.Compare`, their lexicographic combinations, and
    stable sorting. A comparison is negative, zero or positive.

    A Go string is a `string` with one `char` per byte, so `CompareText` is Go's bytewise order. */
module Ordering {

  // ----- comparisons -----

  /** What `x ? y`, `y ? z` and `x ? z` have to satisfy together. */
  predicate Chains(xy: int, yz: int, xz: int) {
    && (xy <= 0 && yz <= 0 ==> xz <= 0 && (xz == 0 ==> xy == 0 && yz == 0))
    && (xy == 0 && yz == 0 ==> xz == 0)
  }

  predicate Mirrors(xy: int, yx: int) {
    (xy < 0 <==> yx > 0) && (xy > 0 <==> yx < 0)
  }

  /** A total preorder: distinct values may compare as zero. */
  ghost predicate Lawful<T(!new)>(cmp: (T, T) -> int) {
    && (forall x, y :: Mirrors(cmp(x, y), cmp(y, x)))
    && (forall x, y, z :: Chains(cmp(x, y), cmp(y, z), cmp(x, z)))
  }

  /** Only equal values compare as zero. */
  ghost predicate Decisive<T(!new)>(cmp: (T, T) -> int) {
    forall x, y :: cmp(x, y) == 0 <==> x == y
  }

  function CompareInt(a: int, b: int): int {
    if a < b then -1 else if a > b then 1 else 0
  }

  function CompareChar(a: char, b: char): int {
    CompareInt(a as int, b as int)
  }

  /** Lexicographic order; a proper prefix comes first. */
  function LexCompare<T>(cmp: (T, T) -> int, s: seq<T>, t: seq<T>): int {
    if s == [] then (if t == [] then 0 else -1)
    else if t == [] then 1
    else if cmp(s[0], t[0]) != 0 then cmp(s[0], t[0])
    else LexCompare(cmp, s[1..], t[1..])
  }

  function CompareText(a: string, b: string): int {
    LexCompare(CompareChar, a, b)
  }

  /** `cmp.Or`: the first non-zero entry. */
  function Or(cs: seq<int>): int {
    if cs == [] then 0 else if cs[0] != 0 then cs[0] else Or(cs[1..])
  }

  lemma {:induction false} LexMirrors<T(!new)>(cmp: (T, T) -> int, s: seq<T>, t: seq<T>)
    requires Lawful(cmp)
    ensures Mirrors(LexCompare(cmp, s, t), LexCompare(cmp, t, s))
  {
    if s != [] && t != [] {
      assert Mirrors(cmp(s[0], t[0]), cmp(t[0], s[0]));
      LexMirrors(cmp, s[1..], t[1..]);
    }
  }

  lemma {:induction false} LexChains<T(!new)>(cmp: (T, T) -> int, s: seq<T>, t: seq<T>, u: seq<T>)
    requires Lawful(cmp)
    ensures Chains(LexCompare(cmp, s, t), LexCompare(cmp, t, u), LexCompare(cmp, s, u))
  {
    if s != [] && t != [] && u != [] {
      assert Chains(cmp(s[0], t[0]), cmp(t[0], u[0]), cmp(s[0], u[0]));
      assert Mirrors(cmp(s[0], t[0]), cmp(t[0], s[0]));
      LexChains(cmp, s[1..], t[1..], u[1..]);
    }
  }

  lemma {:induction false} LexDecides<T(!new)>(cmp: (T, T) -> int, s: seq<T>, t: seq<T>)
    requires Decisive(cmp)
    ensures LexCompare(cmp, s, t) == 0 <==> s == t
  {
    if s != [] && t != [] {
      LexDecides(cmp, s[1..], t[1..]);
      assert s == [s[0]] + s[1..] && t == [t[0]] + t[1..];
    }
  }

  /** Lexicographic order inherits the laws of the element order. */
  lemma LexLawful<T(!new)>(cmp: (T, T) -> int)
    requires Lawful(cmp)
    ensures forall s, t :: Mirrors(LexCompare(cmp, s, t), LexCompare(cmp, t, s))
    ensures forall s, t, u :: Chains(LexCompare(cmp, s, t), LexCompare(cmp, t, u), LexCompare(cmp, s, u))
  {
    forall s, t { LexMirrors(cmp, s, t); }
    forall s, t, u { LexChains(cmp, s, t, u); }
  }

  lemma TextLaws()
    ensures Lawful(CompareText) && Decisive(CompareText)
  {
    assert Lawful(CompareChar);
    assert Decisive(CompareChar);
    LexLawful(CompareChar);
    forall s, t ensures CompareText(s, t) == 0 <==> s == t { LexDecides(CompareChar, s, t); }
  }

  /** The laws of text comparison at given arguments. */
  lemma TextMirrors(a: string, b: string)
    ensures Mirrors(CompareText(a, b), CompareText(b, a))
  {
    LexMirrors(CompareChar, a, b);
  }

  lemma TextChains(a: string, b: string, c: string)
    ensures Chains(CompareText(a, b), CompareText(b, c), CompareText(a, c))
  {
    LexChains(CompareChar, a, b, c);
  }

  lemma TextDecides(a: string, b: string)
    ensures CompareText(a, b) == 0 <==> a == b
  {
    LexDecides(CompareChar, a, b);
  }

  lemma {:induction false} OrMirrors(xy: seq<int>, yx: seq<int>)
    requires |xy| == |yx|
    requires forall i | 0 <= i < |xy| :: Mirrors(xy[i], yx[i])
    ensures Mirrors(Or(xy), Or(yx))
  {
    if xy != [] {
      assert Mirrors(xy[0], yx[0]);
      OrMirrors(xy[1..], yx[1..]);
    }
  }

  lemma {:induction false} OrChains(xy: seq<int>, yz: seq<int>, xz: seq<int>)
    requires |xy| == |yz| == |xz|
    requires forall i | 0 <= i < |xy| :: Chains(xy[i], yz[i], xz[i])
    ensures Chains(Or(xy), Or(yz), Or(xz))
  {
    if xy != [] {
      assert Chains(xy[0], yz[0], xz[0]);
      OrChains(xy[1..], yz[1..], xz[1..]);
    }
  }

  lemma {:induction false} OrZero(cs: seq<int>)
    ensures Or(cs) == 0 <==> forall i | 0 <= i < |cs| :: cs[i] == 0
  {
    if cs != [] {
      OrZero(cs[1..]);
      assert forall i | 1 <= i < |cs| :: cs[i] == cs[1..][i - 1];
    }
  }

  // ----- what the order of texts means -----

  /** `a` is a proper prefix of `b`, or smaller at the first place where they differ. */
  predicate TextLess(a: string, b: string) {
    exists n :: 0 <= n < |b| && LessAt(a, b, n)
  }

  predicate LessAt(a: string, b: string, n: nat)
    requires n < |b|
  {
    n <= |a| && a[..n] == b[..n] && (n == |a| || a[n] < b[n])
  }

  lemma SameHead(a: string, b: string, n: nat)
    requires 0 < n <= |a| && n <= |b| && a[..n] == b[..n]
    ensures a[0] == b[0]
  {
    assert a[..n][0] == b[..n][0];
  }

  lemma {:induction false} TextLessExactly(a: string, b: string)
    ensures CompareText(a, b) < 0 <==> TextLess(a, b)
  {
    if b != [] {
      if a == [] {
        assert LessAt(a, b, 0);
      } else if a[0] != b[0] {
        if TextLess(a, b) {
          var n :| 0 <= n < |b| && LessAt(a, b, n);
          if n > 0 { SameHead(a, b, n); }
        }
        if a[0] < b[0] { assert LessAt(a, b, 0); }
      } else {
        TextLessExactly(a[1..], b[1..]);
        if TextLess(a[1..], b[1..]) {
          var n :| 0 <= n < |b[1..]| && LessAt(a[1..], b[1..], n);
          assert a[..n + 1] == [a[0]] + a[1..][..n] && b[..n + 1] == [b[0]] + b[1..][..n];
          assert LessAt(a, b, n + 1);
        }
        if TextLess(a, b) {
          var n :| 0 <= n < |b| && LessAt(a, b, n);
          assert n > 0;
          assert a[1..][..n - 1] == a[..n][1..] && b[1..][..n - 1] == b[..n][1..];
          assert LessAt(a[1..], b[1..], n - 1);
        }
      }
    }
  }

  /** Equal, or smaller. */
  predicate TextAtMost(a: string, b: string) {
    a == b || TextLess(a, b)
  }

  lemma TextAtMostExactly(a: string, b: string)
    ensures CompareText(a, b) <= 0 <==> TextAtMost(a, b)
  {
    TextLessExactly(a, b);
    TextDecides(a, b);
  }

  lemma OrTail(cs: seq<int>, k: nat)
    requires k < |cs|
    ensures Or(cs[k..]) == if cs[k] != 0 then cs[k] else Or(cs[k + 1..])
  {
    assert cs[k..][1..] == cs[k + 1..];
  }

  // ----- stable sorting -----

  ghost predicate Ascending<T>(cmp: (T, T) -> int, s: seq<T>) {
    forall i, j {:trigger cmp(s[i], s[j])} | 0 <= i < j < |s| :: cmp(s[i], s[j]) <= 0
  }

  function Insert<T>(cmp: (T, T) -> int, x: T, s: seq<T>): seq<T> {
    if s == [] then [x]
    else if cmp(x, s[0]) <= 0 then [x] + s
    else [s[0]] + Insert(cmp, x, s[1..])
  }

  /** The result of Go's stable sorts: ascending, equal elements in their input order. */
  function StableSort<T>(cmp: (T, T) -> int, s: seq<T>): seq<T> {
    if s == [] then [] else Insert(cmp, s[0], StableSort(cmp, s[1..]))
  }

  lemma {:induction false} InsertPermutes<T>(cmp: (T, T) -> int, x: T, s: seq<T>)
    ensures multiset(Insert(cmp, x, s)) == multiset{x} + multiset(s)
  {
    if s != [] {
      assert s == [s[0]] + s[1..];
      if cmp(x, s[0]) > 0 { InsertPermutes(cmp, x, s[1..]); }
    }
  }

  lemma PrependAscending<T(!new)>(cmp: (T, T) -> int, x: T, s: seq<T>)
    requires Ascending(cmp, s) && forall j | 0 <= j < |s| :: cmp(x, s[j]) <= 0
    ensures Ascending(cmp, [x] + s)
  {
  }

  lemma AllAbove<T(!new)>(cmp: (T, T) -> int, x: T, s: seq<T>)
    requires Lawful(cmp) && Ascending(cmp, s) && s != [] && cmp(x, s[0]) <= 0
    ensures forall j | 0 <= j < |s| :: cmp(x, s[j]) <= 0
  {
    forall j | 0 <= j < |s| ensures cmp(x, s[j]) <= 0 {
      if j > 0 { assert Chains(cmp(x, s[0]), cmp(s[0], s[j]), cmp(x, s[j])); }
    }
  }

  lemma {:induction false} InsertAscending<T(!new)>(cmp: (T, T) -> int, x: T, s: seq<T>)
    requires Lawful(cmp) && Ascending(cmp, s)
    ensures Ascending(cmp, Insert(cmp, x, s))
  {
    if s != [] {
      if cmp(x, s[0]) <= 0 {
        AllAbove(cmp, x, s);
        PrependAscending(cmp, x, s);
      } else {
        var tail := Insert(cmp, x, s[1..]);
        InsertAscending(cmp, x, s[1..]);
        InsertPermutes(cmp, x, s[1..]);
        assert Mirrors(cmp(x, s[0]), cmp(s[0], x));
        forall j | 0 <= j < |tail| ensures cmp(s[0], tail[j]) <= 0 {
          assert tail[j] in multiset(tail);
          if tail[j] != x {
            assert tail[j] in multiset(s[1..]);
            var k :| 0 <= k < |s[1..]| && s[1..][k] == tail[j];
            assert s[k + 1] == tail[j];
          }
        }
        PrependAscending(cmp, s[0], tail);
      }
    }
  }

  lemma {:induction false} StableSortPermutes<T>(cmp: (T, T) -> int, s: seq<T>)
    ensures multiset(StableSort(cmp, s)) == multiset(s)
    ensures |StableSort(cmp, s)| == |s|
  {
    if s != [] {
      StableSortPermutes(cmp, s[1..]);
      InsertPermutes(cmp, s[0], StableSort(cmp, s[1..]));
      assert s == [s[0]] + s[1..];
    }
    assert |StableSort(cmp, s)| == |multiset(StableSort(cmp, s))| == |multiset(s)| == |s|;
  }

  lemma {:induction false} StableSortAscending<T(!new)>(cmp: (T, T) -> int, s: seq<T>)
    requires Lawful(cmp)
    ensures Ascending(cmp, StableSort(cmp, s))
  {
    if s != [] {
      StableSortAscending(cmp, s[1..]);
      InsertAscending(cmp, s[0], StableSort(cmp, s[1..]));
    }
  }

  /** The entries of `s` that compare equal to `x`, in order. */
  function Ties<T>(cmp: (T, T) -> int, x: T, s: seq<T>): seq<T> {
    if s == [] then []
    else (if cmp(x, s[0]) == 0 then [s[0]] else []) + Ties(cmp, x, s[1..])
  }

  lemma {:induction false} InsertTies<T>(cmp: (T, T) -> int, x: T, y: T, s: seq<T>)
    requires forall z | z in s && cmp(x, z) > 0 :: cmp(y, x) != 0 || cmp(y, z) != 0
    ensures Ties(cmp, y, Insert(cmp, x, s)) == (if cmp(y, x) == 0 then [x] else []) + Ties(cmp, y, s)
  {
    if s != [] {
      if cmp(x, s[0]) <= 0 {
        assert ([x] + s)[1..] == s;
      } else {
        InsertTies(cmp, x, y, s[1..]);
        assert ([s[0]] + Insert(cmp, x, s[1..]))[1..] == Insert(cmp, x, s[1..]);
        assert cmp(y, x) != 0 || cmp(y, s[0]) != 0;
      }
    }
  }

  lemma TiesShareSides<T(!new)>(cmp: (T, T) -> int, x: T, y: T, z: T)
    requires Lawful(cmp) && cmp(x, z) > 0
    ensures cmp(y, x) != 0 || cmp(y, z) != 0
  {
    assert Mirrors(cmp(x, y), cmp(y, x));
    assert Chains(cmp(x, y), cmp(y, z), cmp(x, z));
  }

  /** Stability: sorting keeps the relative order of entries that compare equal. */
  lemma {:induction false} StableSortKeepsTies<T(!new)>(cmp: (T, T) -> int, x: T, s: seq<T>)
    requires Lawful(cmp)
    ensures Ties(cmp, x, StableSort(cmp, s)) == Ties(cmp, x, s)
  {
    if s != [] {
      StableSortKeepsTies(cmp, x, s[1..]);
      forall z | cmp(s[0], z) > 0 ensures cmp(x, s[0]) != 0 || cmp(x, z) != 0 { TiesShareSides(cmp, s[0], x, z); }
      InsertTies(cmp, s[0], x, StableSort(cmp, s[1..]));
    }
  }

  /** No two different entries of `s` compare as zero. */
  ghost predicate DecisiveOn<T>(cmp: (T, T) -> int, s: multiset<T>) {
    forall x, y | x in s && y in s && cmp(x, y) == 0 :: x == y
  }

  /** Two entries of `s` that are each at most the other are the same. */
  ghost predicate AntisymmetricOn<T>(cmp: (T, T) -> int, s: multiset<T>) {
    forall x, y {:trigger cmp(x, y)} | x in s && y in s && cmp(x, y) <= 0 && cmp(y, x) <= 0 :: x == y
  }

  lemma LeastFirst<T>(cmp: (T, T) -> int, s: seq<T>, x: T)
    requires Ascending(cmp, s) && x in multiset(s)
    ensures s != [] && (x == s[0] || cmp(s[0], x) <= 0)
  {
  }

  lemma SharedHead<T>(cmp: (T, T) -> int, s: seq<T>, t: seq<T>)
    requires Ascending(cmp, s) && Ascending(cmp, t) && s != [] && t != []
    requires multiset(s) == multiset(t) && AntisymmetricOn(cmp, multiset(s))
    ensures s[0] == t[0]
  {
    assert s[0] in multiset(s) && t[0] in multiset(t);
    LeastFirst(cmp, s, t[0]);
    LeastFirst(cmp, t, s[0]);
  }

  lemma HeadAndTail<T>(s: seq<T>, t: seq<T>)
    requires s != [] && t != [] && s[0] == t[0] && s[1..] == t[1..]
    ensures s == t
  {
    assert s == [s[0]] + s[1..] && t == [t[0]] + t[1..];
  }

  lemma MatchingTails<T>(s: seq<T>, t: seq<T>)
    requires s != [] && t != [] && s[0] == t[0] && multiset(s) == multiset(t)
    ensures multiset(s[1..]) == multiset(t[1..])
  {
    assert s == [s[0]] + s[1..] && t == [t[0]] + t[1..];
    assert multiset(s[1..]) == multiset(s) - multiset{s[0]};
  }

  lemma TailKeepsOrder<T>(cmp: (T, T) -> int, s: seq<T>)
    requires Ascending(cmp, s) && AntisymmetricOn(cmp, multiset(s)) && s != []
    ensures Ascending(cmp, s[1..]) && AntisymmetricOn(cmp, multiset(s[1..]))
  {
    assert s == [s[0]] + s[1..];
    forall x | x in multiset(s[1..]) ensures x in multiset(s) {}
  }

  lemma {:induction false} AscendingUniqueOn<T>(cmp: (T, T) -> int, s: seq<T>, t: seq<T>)
    requires Ascending(cmp, s) && Ascending(cmp, t)
    requires multiset(s) == multiset(t) && AntisymmetricOn(cmp, multiset(s))
    ensures s == t
  {
    assert |t| == |multiset(t)| == |multiset(s)| == |s|;
    if s != [] {
      SharedHead(cmp, s, t);
      MatchingTails(s, t);
      TailKeepsOrder(cmp, s);
      TailKeepsOrder(cmp, t);
      AscendingUniqueOn(cmp, s[1..], t[1..]);
      HeadAndTail(s, t);
    }
  }

  /** An ascending arrangement is unique as long as no two different entries tie. */
  lemma AscendingUnique<T(!new)>(cmp: (T, T) -> int, s: seq<T>, t: seq<T>)
    requires Lawful(cmp) && Ascending(cmp, s) && Ascending(cmp, t)
    requires multiset(s) == multiset(t) && DecisiveOn(cmp, multiset(s))
    ensures s == t
  {
    forall x, y | x in multiset(s) && y in multiset(s) && cmp(x, y) <= 0 && cmp(y, x) <= 0 ensures x == y {
      assert Mirrors(cmp(x, y), cmp(y, x));
    }
    AscendingUniqueOn(cmp, s, t);
  }

  /** Sorting forgets the input order whenever no two different entries tie. */
  lemma SortCanonical<T(!new)>(cmp: (T, T) -> int, s: seq<T>, t: seq<T>)
    requires Lawful(cmp) && multiset(s) == multiset(t) && DecisiveOn(cmp, multiset(s))
    ensures StableSort(cmp, s) == StableSort(cmp, t)
  {
    StableSortPermutes(cmp, s); StableSortPermutes(cmp, t);
    StableSortAscending(cmp, s); StableSortAscending(cmp, t);
    AscendingUnique(cmp, StableSort(cmp, s), StableSort(cmp, t));
  }

  lemma {:induction false} TiesConcat<T>(cmp: (T, T) -> int, x: T, a: seq<T>, b: seq<T>)
    ensures Ties(cmp, x, a + b) == Ties(cmp, x, a) + Ties(cmp, x, b)
  {
    if a == [] {
      assert a + b == b;
    } else {
      TiesConcat(cmp, x, a[1..], b);
      assert (a + b)[1..] == a[1..] + b;
    }
  }

  /** Sorting does not show the order of the input. */
  ghost predicate OrderFree<T(!new)>(cmp: (T, T) -> int, s: seq<T>) {
    forall t, u | multiset(t) == multiset(s) && multiset(u) == multiset(s) :: StableSort(cmp, t) == StableSort(cmp, u)
  }

  /** ... and exactly then: two different tied entries show which came first. */
  lemma SortOrderFreeExactlyWhen<T(!new)>(cmp: (T, T) -> int, s: seq<T>)
    requires Lawful(cmp)
    ensures OrderFree(cmp, s) <==> DecisiveOn(cmp, multiset(s))
  {
    if DecisiveOn(cmp, multiset(s)) {
      forall t, u | multiset(t) == multiset(s) && multiset(u) == multiset(s) ensures StableSort(cmp, t) == StableSort(cmp, u) {
        SortCanonical(cmp, t, u);
      }
    } else {
      var x, y :| x in multiset(s) && y in multiset(s) && cmp(x, y) == 0 && x != y;
      var t := ToFront(s, x);
      var u := ToFront(s, y);
      FirstTieShows(cmp, t, u);
    }
  }

  lemma FirstTieShows<T(!new)>(cmp: (T, T) -> int, t: seq<T>, u: seq<T>)
    requires Lawful(cmp) && t != [] && u != [] && t[0] != u[0] && cmp(t[0], u[0]) == 0
    ensures StableSort(cmp, t) != StableSort(cmp, u)
  {
    var x := t[0];
    StableSortKeepsTies(cmp, x, t);
    StableSortKeepsTies(cmp, x, u);
    assert Mirrors(cmp(x, x), cmp(x, x));
    assert Ties(cmp, x, t)[0] == x && Ties(cmp, x, u)[0] == u[0];
  }

  /** A stable sort is determined by the entries and by the order of the tied ones. */
  lemma {:induction false} SameTiesSameSort<T(!new)>(cmp: (T, T) -> int, s: seq<T>, t: seq<T>)
    requires Lawful(cmp) && multiset(s) == multiset(t) && forall x :: Ties(cmp, x, s) == Ties(cmp, x, t)
    ensures StableSort(cmp, s) == StableSort(cmp, t)
  {
    var a, b := StableSort(cmp, s), StableSort(cmp, t);
    StableSortPermutes(cmp, s); StableSortPermutes(cmp, t);
    StableSortAscending(cmp, s); StableSortAscending(cmp, t);
    forall x ensures Ties(cmp, x, a) == Ties(cmp, x, b) {
      StableSortKeepsTies(cmp, x, s);
      StableSortKeepsTies(cmp, x, t);
    }
    SameTiesSameList(cmp, a, b);
  }

  lemma {:induction false} SameTiesSameList<T(!new)>(cmp: (T, T) -> int, a: seq<T>, b: seq<T>)
    requires Lawful(cmp) && Ascending(cmp, a) && Ascending(cmp, b) && multiset(a) == multiset(b)
    requires forall x :: Ties(cmp, x, a) == Ties(cmp, x, b)
    ensures a == b
  {
    assert |a| == |multiset(a)| == |multiset(b)| == |b|;
    if a != [] {
      SameFirst(cmp, a, b);
      MatchingTails(a, b);
      forall x ensures Ties(cmp, x, a[1..]) == Ties(cmp, x, b[1..]) { TiesTail(cmp, x, a, b); }
      assert a == [a[0]] + a[1..] && b == [b[0]] + b[1..];
      SameTiesSameList(cmp, a[1..], b[1..]);
    }
  }

  lemma SameFirst<T(!new)>(cmp: (T, T) -> int, a: seq<T>, b: seq<T>)
    requires Lawful(cmp) && Ascending(cmp, a) && Ascending(cmp, b) && a != [] && b != [] && multiset(a) == multiset(b)
    requires forall x :: Ties(cmp, x, a) == Ties(cmp, x, b)
    ensures a[0] == b[0]
  {
    assert a[0] in multiset(a) && b[0] in multiset(b);
    LeastFirst(cmp, a, b[0]);
    LeastFirst(cmp, b, a[0]);
    assert Mirrors(cmp(a[0], b[0]), cmp(b[0], a[0])) && Mirrors(cmp(a[0], a[0]), cmp(a[0], a[0]));
    assert Ties(cmp, a[0], a)[0] == a[0] && Ties(cmp, a[0], b)[0] == b[0];
  }

  lemma TiesTail<T>(cmp: (T, T) -> int, x: T, a: seq<T>, b: seq<T>)
    requires a != [] && b != [] && a[0] == b[0] && Ties(cmp, x, a) == Ties(cmp, x, b)
    ensures Ties(cmp, x, a[1..]) == Ties(cmp, x, b[1..])
  {
    if cmp(x, a[0]) == 0 {
      assert Ties(cmp, x, a)[1..] == Ties(cmp, x, a[1..]) && Ties(cmp, x, b)[1..] == Ties(cmp, x, b[1..]);
    } else {
      calc { Ties(cmp, x, a[1..]); [] + Ties(cmp, x, a[1..]); Ties(cmp, x, a); Ties(cmp, x, b); [] + Ties(cmp, x, b[1..]); Ties(cmp, x, b[1..]); }
    }
  }

  // ----- tied entries -----

  lemma SameSide<T(!new)>(cmp: (T, T) -> int, x: T, y: T, z: T)
    requires Lawful(cmp) && cmp(x, y) == 0
    ensures cmp(x, z) <= 0 <==> cmp(y, z) <= 0
  {
    assert Mirrors(cmp(x, y), cmp(y, x));
    assert Chains(cmp(x, y), cmp(y, z), cmp(x, z)) && Chains(cmp(y, x), cmp(x, z), cmp(y, z));
  }

  /** Two tied entries inserted one after the other end next to each other. */
  lemma {:induction false} InsertedSideBySide<T(!new)>(cmp: (T, T) -> int, x: T, y: T, s: seq<T>)
    returns (before: seq<T>, after: seq<T>)
    requires Lawful(cmp) && cmp(x, y) == 0
    ensures Insert(cmp, x, Insert(cmp, y, s)) == before + [x, y] + after
    ensures Insert(cmp, y, Insert(cmp, x, s)) == before + [y, x] + after
  {
    assert Mirrors(cmp(x, y), cmp(y, x));
    if s == [] || cmp(x, s[0]) <= 0 {
      if s != [] { SameSide(cmp, x, y, s[0]); }
      before, after := [], s;
      assert [x] + ([y] + s) == [] + [x, y] + s && [y] + ([x] + s) == [] + [y, x] + s;
    } else {
      SameSide(cmp, x, y, s[0]);
      var rest;
      rest, after := InsertedSideBySide(cmp, x, y, s[1..]);
      before := [s[0]] + rest;
      InsertPast(cmp, x, y, s);
      InsertPast(cmp, y, x, s);
      assert [s[0]] + (rest + [x, y] + after) == before + [x, y] + after;
      assert [s[0]] + (rest + [y, x] + after) == before + [y, x] + after;
    }
  }

  lemma InsertPast<T>(cmp: (T, T) -> int, x: T, y: T, s: seq<T>)
    requires s != [] && cmp(x, s[0]) > 0 && cmp(y, s[0]) > 0
    ensures Insert(cmp, x, Insert(cmp, y, s)) == [s[0]] + Insert(cmp, x, Insert(cmp, y, s[1..]))
  {
    var inner := Insert(cmp, y, s);
    assert inner[0] == s[0] && inner[1..] == Insert(cmp, y, s[1..]);
  }

  // ----- mapping -----

  function Map<A, B>(f: A -> B, s: seq<A>): (r: seq<B>)
    ensures |r| == |s| && forall i | 0 <= i < |s| :: r[i] == f(s[i])
  {
    seq(|s|, i requires 0 <= i < |s| => f(s[i]))
  }

  lemma InMap<A, B>(f: A -> B, s: seq<A>, y: B) returns (i: nat)
    requires y in Map(f, s)
    ensures i < |s| && y == f(s[i])
  {
    i :| 0 <= i < |s| && Map(f, s)[i] == y;
  }

  lemma MapConcat<A, B>(f: A -> B, s: seq<A>, t: seq<A>)
    ensures Map(f, s + t) == Map(f, s) + Map(f, t)
  {
  }

  lemma {:induction false} InsertMap<A, B>(cmpA: (A, A) -> int, cmpB: (B, B) -> int, f: A -> B, x: A, s: seq<A>)
    requires forall y, z :: cmpB(f(y), f(z)) == cmpA(y, z)
    ensures Insert(cmpB, f(x), Map(f, s)) == Map(f, Insert(cmpA, x, s))
  {
    if s != [] {
      assert Map(f, s)[0] == f(s[0]) && Map(f, s)[1..] == Map(f, s[1..]);
      if cmpA(x, s[0]) <= 0 {
        MapConcat(f, [x], s);
        assert Map(f, [x]) == [f(x)];
      } else {
        InsertMap(cmpA, cmpB, f, x, s[1..]);
        MapConcat(f, [s[0]], Insert(cmpA, x, s[1..]));
        assert Map(f, [s[0]]) == [f(s[0])];
      }
    }
  }

  /** A mapping that keeps comparisons commutes with sorting. */
  lemma {:induction false} SortMap<A, B>(cmpA: (A, A) -> int, cmpB: (B, B) -> int, f: A -> B, s: seq<A>)
    requires forall y, z :: cmpB(f(y), f(z)) == cmpA(y, z)
    ensures StableSort(cmpB, Map(f, s)) == Map(f, StableSort(cmpA, s))
  {
    if s != [] {
      assert Map(f, s)[0] == f(s[0]) && Map(f, s)[1..] == Map(f, s[1..]);
      SortMap(cmpA, cmpB, f, s[1..]);
      InsertMap(cmpA, cmpB, f, s[0], StableSort(cmpA, s[1..]));
    }
  }

  function WithoutEntry<A>(s: seq<A>, j: nat): seq<A>
    requires j < |s|
  {
    s[..j] + s[j + 1..]
  }

  lemma MapWithout<A, B>(f: A -> B, s: seq<A>, j: nat)
    requires j < |s|
    ensures multiset(Map(f, s)) == multiset(Map(f, WithoutEntry(s, j))) + multiset{f(s[j])}
  {
    assert Map(f, s) == Map(f, s[..j]) + [f(s[j])] + Map(f, s[j + 1..]);
    assert Map(f, WithoutEntry(s, j)) == Map(f, s[..j]) + Map(f, s[j + 1..]);
  }

  lemma DropEntry<A>(s: seq<A>, j: nat)
    requires j < |s|
    ensures multiset(WithoutEntry(s, j)) == multiset(s) - multiset{s[j]}
  {
    assert s == s[..j] + [s[j]] + s[j + 1..];
  }

  /** Some permutation of a list starts with any of its entries. */
  lemma ToFront<A>(s: seq<A>, x: A) returns (t: seq<A>)
    requires x in s
    ensures t != [] && t[0] == x && multiset(t) == multiset(s)
  {
    var i :| 0 <= i < |s| && s[i] == x;
    DropEntry(s, i);
    t := [x] + WithoutEntry(s, i);
  }

  /** Two different entries of a list and the rest of it. */
  lemma TwoAndTheRest<T>(s: seq<T>, x: T, y: T)
    returns (rest: seq<T>)
    requires x in s && y in s && x != y
    ensures multiset([x] + ([y] + rest)) == multiset(s) && multiset([y] + ([x] + rest)) == multiset(s)
  {
    var front := ToFront(s, x);
    assert front == [x] + front[1..];
    assert y in multiset(front);
    var tail := ToFront(front[1..], y);
    rest := tail[1..];
    assert tail == [y] + rest;
  }

  /** Permuting before mapping permutes the images. */
  lemma {:induction false} MapPermutes<A, B>(f: A -> B, s: seq<A>, t: seq<A>)
    requires multiset(s) == multiset(t)
    ensures multiset(Map(f, s)) == multiset(Map(f, t))
    decreases |s|
  {
    assert |s| == |multiset(s)| == |multiset(t)| == |t|;
    if s != [] {
      assert s[0] in multiset(s) && s[0] in multiset(t);
      var j :| 0 <= j < |t| && t[j] == s[0];
      DropEntry(s, 0);
      DropEntry(t, j);
      MapPermutes(f, WithoutEntry(s, 0), WithoutEntry(t, j));
      MapWithout(f, s, 0);
      MapWithout(f, t, j);
    }
  }

  // ----- listing sets -----

  /** Some listing of a set, each element once. */
  ghost function Listing<T>(s: set<T>): (r: seq<T>)
    ensures multiset(r) == multiset(s)
  {
    if s == {} then [] else
      var x :| x in s;
      assert multiset(s) == multiset(s - {x}) + multiset{x};
      [x] + Listing(s - {x})
  }

  /** The elements of a set in ascending order. */
  ghost function SortedSet<T(!new)>(cmp: (T, T) -> int, s: set<T>): seq<T> {
    StableSort(cmp, Listing(s))
  }

  lemma SortedSetHolds<T(!new)>(cmp: (T, T) -> int, s: set<T>)
    requires Lawful(cmp)
    ensures Ascending(cmp, SortedSet(cmp, s)) && multiset(SortedSet(cmp, s)) == multiset(s)
    ensures forall x :: x in SortedSet(cmp, s) <==> x in s
  {
    StableSortAscending(cmp, Listing(s));
    StableSortPermutes(cmp, Listing(s));
    forall x ensures x in SortedSet(cmp, s) <==> x in s {
      assert x in SortedSet(cmp, s) <==> x in multiset(SortedSet(cmp, s));
    }
  }

  /** The keys in whatever order the map yields them, then sorted. */
  method KeysSorted<T(!new, ==)>(cmp: (T, T) -> int, keys: set<T>) returns (out: seq<T>)
    requires Lawful(cmp) && Decisive(cmp)
    ensures out == SortedSet(cmp, keys)
  {
    out := [];
    var rest := keys;
    while rest != {}
      invariant rest <= keys
      invariant multiset(out) == multiset(keys - rest)
    {
      var k :| k in rest;
      assert keys - (rest - {k}) == (keys - rest) + {k};
      assert multiset((keys - rest) + {k}) == multiset(keys - rest) + multiset{k};
      out := out + [k];
      rest := rest - {k};
    }
    assert keys - rest == keys;
    SortCanonical(cmp, out, Listing(keys));
    out := StableSort(cmp, out);
  }
}
