/** The two JavaScript array operations the pages rely on: `Array.prototype.filter`
    (keeps the elements a predicate accepts, in order) and `Array.prototype.sort`
    with a comparator, which the language has required to be stable since 2019.
    The comparator `cmp` is represented by the relation `le(a, b) <==> cmp(a, b) <= 0`,
    and the sort by an insertion sort, which is one stable sort among many. When
    no two elements tie, every sort by a total preorder gives the same output
    (see SortedUnique); with ties, stability fixes the order of the tied ones
    (see SortStable). */
module Sequences {

  // ---------------------------------------------------------------------------
  // Filter

  function Filter<T(!new)>(s: seq<T>, keep: T -> bool): (r: seq<T>)
    ensures |r| <= |s|
    ensures forall x :: x in r ==> keep(x)
    ensures forall x :: multiset(r)[x] == if keep(x) then multiset(s)[x] else 0
  {
    if s == [] then []
    else
      assert s == [s[0]] + s[1..];
      if keep(s[0]) then [s[0]] + Filter(s[1..], keep) else Filter(s[1..], keep)
  }

  /** Filtering commutes with concatenation, so it keeps the order of what it keeps. */
  lemma {:induction false} FilterConcat<T(!new)>(a: seq<T>, b: seq<T>, keep: T -> bool)
    ensures Filter(a + b, keep) == Filter(a, keep) + Filter(b, keep)
  {
    if a == [] {
      assert a + b == b;
    } else {
      assert (a + b)[0] == a[0];
      assert (a + b)[1..] == a[1..] + b;
      FilterConcat(a[1..], b, keep);
    }
  }

  /** Two predicates that agree everywhere filter alike. */
  lemma {:induction false} FilterExtensional<T(!new)>(s: seq<T>, p: T -> bool, q: T -> bool)
    requires forall x :: p(x) == q(x)
    ensures Filter(s, p) == Filter(s, q)
  {
    if s != [] {
      FilterExtensional(s[1..], p, q);
    }
  }

  /** A filter that accepts every element of `s` returns `s` itself. */
  lemma {:induction false} FilterKeepsAll<T(!new)>(s: seq<T>, keep: T -> bool)
    requires forall i :: 0 <= i < |s| ==> keep(s[i])
    ensures Filter(s, keep) == s
  {
    if s != [] {
      FilterKeepsAll(s[1..], keep);
    }
  }

  /** Filtering twice by the same predicate is filtering once. */
  lemma FilterIdempotent<T(!new)>(s: seq<T>, keep: T -> bool)
    ensures Filter(Filter(s, keep), keep) == Filter(s, keep)
  {
    var r := Filter(s, keep);
    forall i | 0 <= i < |r| ensures keep(r[i]) {
      assert r[i] in r;
    }
    FilterKeepsAll(r, keep);
  }

  /** A predicate and its negation split `s` into two parts whose sizes add up. */
  lemma {:induction false} FilterPartition<T(!new)>(s: seq<T>, keep: T -> bool, drop: T -> bool)
    requires forall x :: drop(x) == !keep(x)
    ensures |Filter(s, keep)| + |Filter(s, drop)| == |s|
    ensures multiset(Filter(s, keep)) + multiset(Filter(s, drop)) == multiset(s)
  {
    var k, d := Filter(s, keep), Filter(s, drop);
    forall x ensures (multiset(k) + multiset(d))[x] == multiset(s)[x] {
      assert drop(x) == !keep(x);
    }
    assert multiset(k) + multiset(d) == multiset(s);
    assert |multiset(k) + multiset(d)| == |multiset(k)| + |multiset(d)|;
  }

  /** Every element is kept exactly when nothing is dropped by the partition. */
  lemma FilterAllIff<T(!new)>(s: seq<T>, keep: T -> bool)
    ensures |Filter(s, keep)| == |s| <==> forall i :: 0 <= i < |s| ==> keep(s[i])
  {
    if forall i :: 0 <= i < |s| ==> keep(s[i]) {
      FilterKeepsAll(s, keep);
    } else {
      var i :| 0 <= i < |s| && !keep(s[i]);
      FilterMissing(s, keep, i);
    }
  }

  lemma {:induction false} FilterMissing<T(!new)>(s: seq<T>, keep: T -> bool, i: nat)
    requires i < |s| && !keep(s[i])
    ensures |Filter(s, keep)| < |s|
  {
    if i > 0 {
      FilterMissing(s[1..], keep, i - 1);
    }
  }

  // ---------------------------------------------------------------------------
  // Relations

  ghost predicate Total<T(!new)>(le: (T, T) -> bool) {
    forall x, y :: le(x, y) || le(y, x)
  }

  ghost predicate Transitive<T(!new)>(le: (T, T) -> bool) {
    forall x, y, z :: le(x, y) && le(y, z) ==> le(x, z)
  }

  /** What a consistent comparator amounts to: `cmp(a, b) <= 0` is total and transitive. */
  ghost predicate TotalPreorder<T(!new)>(le: (T, T) -> bool) {
    Total(le) && Transitive(le)
  }

  predicate SortedBy<T>(s: seq<T>, le: (T, T) -> bool) {
    forall i, j :: 0 <= i < j < |s| ==> le(s[i], s[j])
  }

  /** `x` and `y` compare equal: the comparator returns 0 both ways. */
  predicate Tied<T>(le: (T, T) -> bool, x: T, y: T) {
    le(x, y) && le(y, x)
  }

  /** The elements of `s` tied with `x`, in the order of `s`. */
  function TiedWith<T>(s: seq<T>, le: (T, T) -> bool, x: T): seq<T> {
    if s == [] then []
    else if Tied(le, x, s[0]) then [s[0]] + TiedWith(s[1..], le, x)
    else TiedWith(s[1..], le, x)
  }

  // ---------------------------------------------------------------------------
  // Stable sort

  /** Inserts `x` in front of the first element it may precede. */
  function Insert<T>(x: T, s: seq<T>, le: (T, T) -> bool): (r: seq<T>)
    ensures multiset(r) == multiset(s) + multiset{x}
  {
    if s == [] then [x]
    else if le(x, s[0]) then [x] + s
    else
      assert s == [s[0]] + s[1..];
      [s[0]] + Insert(x, s[1..], le)
  }

  function Sort<T>(s: seq<T>, le: (T, T) -> bool): (r: seq<T>)
    ensures multiset(r) == multiset(s)
    ensures |r| == |s|
  {
    if s == [] then []
    else
      assert s == [s[0]] + s[1..];
      Insert(s[0], Sort(s[1..], le), le)
  }

  lemma {:induction false} InsertSorted<T(!new)>(x: T, s: seq<T>, le: (T, T) -> bool)
    requires TotalPreorder(le) && SortedBy(s, le)
    ensures SortedBy(Insert(x, s, le), le)
  {
    if s != [] && !le(x, s[0]) {
      var tail := Insert(x, s[1..], le);
      InsertSorted(x, s[1..], le);
      forall y | y in tail ensures le(s[0], y) {
        assert y in multiset(tail);
        if y != x {
          assert y in multiset(s[1..]);
          var k :| 0 <= k < |s[1..]| && s[1..][k] == y;
          assert s[k + 1] == y;
        }
      }
      var r := [s[0]] + tail;
      forall i, j | 0 <= i < j < |r| ensures le(r[i], r[j]) {
        if i == 0 {
          assert r[j] == tail[j - 1] && tail[j - 1] in tail;
        } else {
          assert r[i] == tail[i - 1] && r[j] == tail[j - 1];
        }
      }
    }
  }

  /** The output of the sort is ordered by the comparator. */
  lemma {:induction false} SortSorted<T(!new)>(s: seq<T>, le: (T, T) -> bool)
    requires TotalPreorder(le)
    ensures SortedBy(Sort(s, le), le)
  {
    if s != [] {
      SortSorted(s[1..], le);
      InsertSorted(s[0], Sort(s[1..], le), le);
    }
  }

  lemma {:induction false} InsertTied<T(!new)>(h: T, s: seq<T>, le: (T, T) -> bool, x: T)
    requires Transitive(le)
    ensures TiedWith(Insert(h, s, le), le, x) == TiedWith([h] + s, le, x)
  {
    if s != [] && !le(h, s[0]) {
      InsertTied(h, s[1..], le, x);
      assert ([h] + s)[1..] == s;
      assert ([h] + s[1..])[1..] == s[1..];
    } else if s != [] {
      assert ([h] + s)[1..] == s;
    }
  }

  /** Stability: the elements that compare equal to any `x` leave the sort in the
      order they entered it. */
  lemma {:induction false} SortStable<T(!new)>(s: seq<T>, le: (T, T) -> bool, x: T)
    requires Transitive(le)
    ensures TiedWith(Sort(s, le), le, x) == TiedWith(s, le, x)
  {
    if s != [] {
      SortStable(s[1..], le, x);
      InsertTied(s[0], Sort(s[1..], le), le, x);
      assert ([s[0]] + Sort(s[1..], le))[1..] == Sort(s[1..], le);
    }
  }

  /** Sorting an already sorted sequence changes nothing, so the sort is idempotent. */
  lemma {:induction false} SortOfSorted<T>(s: seq<T>, le: (T, T) -> bool)
    requires SortedBy(s, le)
    ensures Sort(s, le) == s
  {
    if s != [] {
      assert SortedBy(s[1..], le) by {
        forall i, j | 0 <= i < j < |s[1..]| ensures le(s[1..][i], s[1..][j]) {
          assert s[1..][i] == s[i + 1] && s[1..][j] == s[j + 1];
        }
      }
      SortOfSorted(s[1..], le);
      if |s| > 1 {
        assert le(s[0], s[1]);
        assert [s[0]] + s[1..] == s;
      }
    }
  }

  lemma SortIdempotent<T(!new)>(s: seq<T>, le: (T, T) -> bool)
    requires TotalPreorder(le)
    ensures Sort(Sort(s, le), le) == Sort(s, le)
  {
    SortSorted(s, le);
    SortOfSorted(Sort(s, le), le);
  }

  // ---------------------------------------------------------------------------
  // Uniqueness of the sorted order, and reversing the comparator

  /** No two distinct elements of `s` compare equal. */
  ghost predicate NoTies<T>(s: seq<T>, le: (T, T) -> bool) {
    forall x, y :: x in s && y in s && le(x, y) && le(y, x) ==> x == y
  }

  lemma SortedTail<T>(a: seq<T>, le: (T, T) -> bool)
    requires a != [] && SortedBy(a, le)
    ensures SortedBy(a[1..], le)
  {
    forall i, j | 0 <= i < j < |a[1..]| ensures le(a[1..][i], a[1..][j]) {
      assert a[1..][i] == a[i + 1] && a[1..][j] == a[j + 1];
    }
  }

  /** Sorted arrangements of the same elements without ties start alike: each
      head precedes the other, so they are the same element. */
  lemma SortedHeads<T>(a: seq<T>, b: seq<T>, le: (T, T) -> bool)
    requires a != [] && SortedBy(a, le) && SortedBy(b, le)
    requires multiset(a) == multiset(b)
    requires NoTies(a, le)
    ensures b != [] && a[0] == b[0]
  {
    assert a[0] in multiset(b);
    assert b[0] in multiset(a);
    var k :| 0 <= k < |a| && a[k] == b[0];
    var m :| 0 <= m < |b| && b[m] == a[0];
    assert k == 0 || le(a[0], a[k]);
    assert m == 0 || le(b[0], b[m]);
  }

  /** Two sorted arrangements of the same elements without ties are identical. */
  lemma {:induction false} SortedUnique<T>(a: seq<T>, b: seq<T>, le: (T, T) -> bool)
    requires SortedBy(a, le) && SortedBy(b, le)
    requires multiset(a) == multiset(b)
    requires NoTies(a, le)
    ensures a == b
  {
    if a == [] {
      assert |b| == |multiset(b)| == 0;
    } else {
      SortedHeads(a, b, le);
      assert multiset(a[1..]) == multiset(b[1..]) by {
        assert a == [a[0]] + a[1..] && b == [b[0]] + b[1..];
        assert multiset(a) == multiset{a[0]} + multiset(a[1..]);
        assert multiset(b) == multiset{b[0]} + multiset(b[1..]);
        assert multiset(a[1..]) == multiset(a) - multiset{a[0]};
        assert multiset(b[1..]) == multiset(b) - multiset{b[0]};
      }
      SortedTail(a, le);
      SortedTail(b, le);
      forall x, y | x in a[1..] && y in a[1..] && le(x, y) && le(y, x) ensures x == y {
        assert x in a && y in a;
      }
      SortedUnique(a[1..], b[1..], le);
    }
  }

  function Reverse<T>(s: seq<T>): (r: seq<T>)
    ensures |r| == |s|
    ensures forall i :: 0 <= i < |s| ==> r[i] == s[|s| - 1 - i]
  {
    if s == [] then [] else Reverse(s[1..]) + [s[0]]
  }

  lemma {:induction false} ReverseMultiset<T>(s: seq<T>)
    ensures multiset(Reverse(s)) == multiset(s)
  {
    if s != [] {
      ReverseMultiset(s[1..]);
      assert s == [s[0]] + s[1..];
    }
  }

  lemma ReverseSorted<T>(s: seq<T>, le: (T, T) -> bool, ge: (T, T) -> bool)
    requires SortedBy(s, le)
    requires forall x, y :: ge(x, y) == le(y, x)
    ensures SortedBy(Reverse(s), ge)
  {
    var r := Reverse(s);
    forall i, j | 0 <= i < j < |r| ensures ge(r[i], r[j]) {
      assert r[i] == s[|s| - 1 - i] && r[j] == s[|s| - 1 - j];
    }
  }

  lemma NoTiesPermuted<T>(s: seq<T>, t: seq<T>, le: (T, T) -> bool, ge: (T, T) -> bool)
    requires multiset(s) == multiset(t)
    requires forall x, y :: ge(x, y) == le(y, x)
    requires NoTies(s, le)
    ensures NoTies(t, ge)
  {
    forall x, y | x in t && y in t && ge(x, y) && ge(y, x) ensures x == y {
      assert x in multiset(t) && y in multiset(t);
      assert x in multiset(s) && y in multiset(s);
    }
  }

  /** Sorting with the reversed comparator gives the reversed order, provided no two
      elements compare equal; with ties, stability keeps tied elements in input
      order both ways, and the outputs are not reverses of each other. */
  lemma SortReversedComparator<T(!new)>(s: seq<T>, le: (T, T) -> bool, ge: (T, T) -> bool)
    requires TotalPreorder(le)
    requires forall x, y :: ge(x, y) == le(y, x)
    requires NoTies(s, le)
    ensures Sort(s, ge) == Reverse(Sort(s, le))
  {
    var up := Sort(s, le);
    SortSorted(s, le);
    ReverseSorted(up, le, ge);
    assert TotalPreorder(ge);
    SortSorted(s, ge);
    ReverseMultiset(up);
    NoTiesPermuted(s, Sort(s, ge), le, ge);
    SortedUnique(Sort(s, ge), Reverse(up), ge);
  }
}
