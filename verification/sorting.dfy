/**
  The list views of the app sort a copy of a collection with
  `[...xs].sort(compare)`. JavaScript's sort is stable, so for a comparator
  that is a total preorder the result is fixed: the elements ordered by the
  comparator, ties kept in their original order. That result is written here
  once as a stable insertion sort over a "comes no later than" relation `le`
  (`le(a, b)` is `compare(a, b) <= 0`).
 */
module Sorting {
  import opened Common

  /** Every two elements are comparable. */
  ghost predicate Total<T(!new)>(le: (T, T) -> bool) {
    forall a, b :: le(a, b) || le(b, a)
  }

  ghost predicate Transitive<T(!new)>(le: (T, T) -> bool) {
    forall a, b, c :: le(a, b) && le(b, c) ==> le(a, c)
  }

  /** Each element comes no later than every element after it. */
  predicate SortedBy<T>(s: seq<T>, le: (T, T) -> bool) {
    forall i, j :: 0 <= i < j < |s| ==> le(s[i], s[j])
  }

  /** The elements satisfying `first` all precede the others. */
  predicate Partitioned<T>(s: seq<T>, first: T -> bool) {
    forall i, j :: 0 <= i < j < |s| && first(s[j]) ==> first(s[i])
  }

  /** `le` puts every `first` element strictly before every other one. */
  ghost predicate Separates<T(!new)>(le: (T, T) -> bool, first: T -> bool) {
    forall a, b :: first(a) && !first(b) ==> le(a, b) && !le(b, a)
  }

  /** Insert `x` in front of the first element that must come after it. */
  function InsertBy<T>(x: T, s: seq<T>, le: (T, T) -> bool): (r: seq<T>)
    ensures |r| == |s| + 1
    ensures multiset(r) == multiset(s) + multiset{x}
  {
    if |s| == 0 then [x]
    else if !le(s[0], x) then [x] + s
    else
      assert s == [s[0]] + s[1..];
      [s[0]] + InsertBy(x, s[1..], le)
  }

  /** `[...s].sort(compare)`: each element in turn, inserted after every element not above it. */
  function SortBy<T>(s: seq<T>, le: (T, T) -> bool): (r: seq<T>)
    ensures |r| == |s|
    ensures multiset(r) == multiset(s)
  {
    if |s| == 0 then []
    else
      assert s == s[..|s| - 1] + [s[|s| - 1]];
      InsertBy(s[|s| - 1], SortBy(s[..|s| - 1], le), le)
  }

  lemma {:induction false} InsertSorted<T(!new)>(x: T, s: seq<T>, le: (T, T) -> bool)
    requires Total(le) && Transitive(le)
    requires SortedBy(s, le)
    ensures SortedBy(InsertBy(x, s, le), le)
  {
    if |s| > 0 && le(s[0], x) {
      var rest := InsertBy(x, s[1..], le);
      InsertSorted(x, s[1..], le);
      assert forall y :: y in rest ==> le(s[0], y) by {
        forall y | y in rest ensures le(s[0], y) {
          assert y in multiset(rest);
          if y != x {
            assert y in multiset(s[1..]);
            var j :| 0 <= j < |s[1..]| && s[1..][j] == y;
            assert s[j + 1] == y;
          }
        }
      }
      var r := [s[0]] + rest;
      forall i, j | 0 <= i < j < |r| ensures le(r[i], r[j]) {
        if i == 0 {
          assert r[j] in rest;
        } else {
          assert r[i] == rest[i - 1] && r[j] == rest[j - 1];
        }
      }
    } else if |s| > 0 {
      var r := [x] + s;
      forall i, j | 0 <= i < j < |r| ensures le(r[i], r[j]) {
        if i == 0 {
          assert le(x, s[0]);
          assert le(s[0], s[j - 1]) || j - 1 == 0;
        }
      }
    }
  }

  /** With a total preorder the view is ordered. */
  lemma {:induction false} SortSorted<T(!new)>(s: seq<T>, le: (T, T) -> bool)
    requires Total(le) && Transitive(le)
    ensures SortedBy(SortBy(s, le), le)
  {
    if |s| > 0 {
      SortSorted(s[..|s| - 1], le);
      InsertSorted(s[|s| - 1], SortBy(s[..|s| - 1], le), le);
    }
  }

  /** In a partitioned collection, a `first` element anywhere behind the head makes the head `first`. */
  lemma PartitionedHead<T>(s: seq<T>, first: T -> bool)
    requires Partitioned(s, first) && |s| > 0
    ensures forall y :: y in multiset(s[1..]) && first(y) ==> first(s[0])
  {
    forall y | y in multiset(s[1..]) && first(y) ensures first(s[0]) {
      var k :| 0 <= k < |s[1..]| && s[1..][k] == y;
      assert s[k + 1] == y;
    }
  }

  lemma {:induction false} InsertPartitioned<T(!new)>(x: T, s: seq<T>, le: (T, T) -> bool, first: T -> bool)
    requires Separates(le, first)
    requires Partitioned(s, first)
    ensures Partitioned(InsertBy(x, s, le), first)
  {
    if |s| > 0 && le(s[0], x) {
      var rest := InsertBy(x, s[1..], le);
      InsertPartitioned(x, s[1..], le, first);
      var r := [s[0]] + rest;
      PartitionedHead(s, first);
      forall i, j | 0 <= i < j < |r| && first(r[j]) ensures first(r[i]) {
        if i == 0 {
          assert r[j] in multiset(rest);
        } else {
          assert r[i] == rest[i - 1] && r[j] == rest[j - 1];
        }
      }
    } else if |s| > 0 {
      var r := [x] + s;
      forall i, j | 0 <= i < j < |r| && first(r[j]) ensures first(r[i]) {
      }
    }
  }

  /** The "first" group leads the view, whether or not `le` is transitive. */
  lemma {:induction false} SortPartitioned<T(!new)>(s: seq<T>, le: (T, T) -> bool, first: T -> bool)
    requires Separates(le, first)
    ensures Partitioned(SortBy(s, le), first)
  {
    if |s| > 0 {
      SortPartitioned(s[..|s| - 1], le, first);
      InsertPartitioned(s[|s| - 1], SortBy(s[..|s| - 1], le), le, first);
    }
  }

  /** Sorting an already ordered collection (under a strict-enough `le`) changes nothing. */
  lemma {:induction false} InsertAtEnd<T>(x: T, s: seq<T>, le: (T, T) -> bool)
    requires forall i :: 0 <= i < |s| ==> le(s[i], x)
    ensures InsertBy(x, s, le) == s + [x]
  {
    if |s| > 0 {
      InsertAtEnd(x, s[1..], le);
      assert [s[0]] + (s[1..] + [x]) == s + [x];
    }
  }

  lemma {:induction false} SortOfSorted<T>(s: seq<T>, le: (T, T) -> bool)
    requires SortedBy(s, le)
    ensures SortBy(s, le) == s
  {
    if |s| > 0 {
      var init := s[..|s| - 1];
      assert SortedBy(init, le);
      SortOfSorted(init, le);
      InsertAtEnd(s[|s| - 1], init, le);
      assert init + [s[|s| - 1]] == s;
    }
  }
  // ---------------------------------------------------------------------------
  // Stability

  /** The elements tied with `c`: each comes no later than `c` and `c` no later than it. */
  function TiedWith<T>(le: (T, T) -> bool, c: T): T -> bool {
    y => le(y, c) && le(c, y)
  }

  /** Inserting `x` into an ordered collection is, for the elements tied with any `c`,
      the same as appending it: it lands behind every element it is tied with. */
  lemma {:induction false} InsertFilter<T(!new)>(x: T, s: seq<T>, le: (T, T) -> bool, c: T)
    requires Transitive(le) && SortedBy(s, le)
    ensures Filter(InsertBy(x, s, le), TiedWith(le, c)) == Filter(s + [x], TiedWith(le, c))
  {
    var q := TiedWith(le, c);
    if |s| == 0 {
      assert s + [x] == [x] == InsertBy(x, s, le);
    } else if !le(s[0], x) {
      InsertFront(x, s, le, c);
    } else {
      assert SortedBy(s[1..], le);
      InsertFilter(x, s[1..], le, c);
      InsertBehind(x, s, le, q);
    }
  }

  /** When `x` goes behind the head, the head's contribution is the same on both sides. */
  lemma InsertBehind<T(!new)>(x: T, s: seq<T>, le: (T, T) -> bool, q: T -> bool)
    requires |s| > 0 && le(s[0], x)
    requires Filter(InsertBy(x, s[1..], le), q) == Filter(s[1..] + [x], q)
    ensures Filter(InsertBy(x, s, le), q) == Filter(s + [x], q)
  {
    var head, rest := [s[0]], InsertBy(x, s[1..], le);
    assert InsertBy(x, s, le) == head + rest;
    HeadThenAppend(s, x);
    FilterConcat(head, rest, q);
    FilterConcat(head, s[1..] + [x], q);
  }

  lemma HeadThenAppend<T>(s: seq<T>, x: T)
    requires |s| > 0
    ensures s + [x] == [s[0]] + (s[1..] + [x])
  {
    assert s == [s[0]] + s[1..];
  }

  /** When `x` goes to the front, it is still behind every element it is tied with: there are none. */
  lemma InsertFront<T(!new)>(x: T, s: seq<T>, le: (T, T) -> bool, c: T)
    requires Transitive(le) && SortedBy(s, le) && |s| > 0 && !le(s[0], x)
    ensures Filter(InsertBy(x, s, le), TiedWith(le, c)) == Filter(s + [x], TiedWith(le, c))
  {
    var q := TiedWith(le, c);
    assert InsertBy(x, s, le) == [x] + s;
    FilterConcat([x], s, q);
    FilterConcat(s, [x], q);
    NoneTiedBehind(x, s, le, c);
    assert [x][1..] == [];
  }

  /** When `x` goes to the front, no element behind it is tied with it. */
  lemma NoneTiedBehind<T(!new)>(x: T, s: seq<T>, le: (T, T) -> bool, c: T)
    requires Transitive(le) && SortedBy(s, le) && |s| > 0 && !le(s[0], x)
    ensures TiedWith(le, c)(x) ==> Filter(s, TiedWith(le, c)) == []
  {
    var q := TiedWith(le, c);
    if q(x) {
      forall i | 0 <= i < |s| ensures !q(s[i]) {
        NotTied(x, s, le, c, i);
      }
      FilterNone(s, q);
    }
  }

  /** An element behind a head that must come after `x` is not tied with `x`. */
  lemma NotTied<T(!new)>(x: T, s: seq<T>, le: (T, T) -> bool, c: T, i: int)
    requires Transitive(le) && SortedBy(s, le) && 0 <= i < |s| && !le(s[0], x)
    requires le(c, x)
    ensures !le(s[i], c)
  {
    if i > 0 {
      assert le(s[0], s[i]);
    }
  }

  lemma {:induction false} FilterNone<T(!new)>(s: seq<T>, q: T -> bool)
    requires forall i :: 0 <= i < |s| ==> !q(s[i])
    ensures Filter(s, q) == []
  {
    if |s| > 0 {
      FilterNone(s[1..], q);
    }
  }

  /** The sort is stable: the elements tied with any `c` keep their original order. */
  lemma {:induction false} SortStable<T(!new)>(s: seq<T>, le: (T, T) -> bool, c: T)
    requires Total(le) && Transitive(le)
    ensures Filter(SortBy(s, le), TiedWith(le, c)) == Filter(s, TiedWith(le, c))
  {
    if |s| > 0 {
      var init, x := s[..|s| - 1], s[|s| - 1];
      assert init + [x] == s;
      SortStable(init, le, c);
      SortSorted(init, le);
      InsertFilter(x, SortBy(init, le), le, c);
      FilterConcat(SortBy(init, le), [x], TiedWith(le, c));
      FilterConcat(init, [x], TiedWith(le, c));
    }
  }
}
