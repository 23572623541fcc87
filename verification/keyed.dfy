/**
  The three shapes every collection mutation of the store takes
  (contexts/WidgetContext.tsx:522-675): append at the end, replace the
  element(s) carrying an id (`map(l => l.id === x.id ? x : l)`), remove the
  element(s) carrying an id (`filter(l => l.id !== id)`), and the exact-match
  date query (`filter(e => e.date === date)`). They are written once, generic
  in the record type, with the record's id or date projection as a parameter.
 */
module Keyed {
  import opened Common

  /** The predicate `y => key(y) == k`, as one named value so that lemmas and bodies agree on it. */
  function KeyIs<T>(key: T -> string, k: string): T -> bool {
    y => key(y) == k
  }

  /** The predicate `y => key(y) != k`. */
  function KeyIsNot<T>(key: T -> string, k: string): T -> bool {
    y => key(y) != k
  }

  /** The constant function `_ => x`. */
  function Always<T>(x: T): T -> T {
    _ => x
  }

  predicate HasKey<T>(s: seq<T>, key: T -> string, k: string) {
    exists i :: 0 <= i < |s| && key(s[i]) == k
  }

  /** Ids are pairwise distinct. */
  predicate UniqueKeys<T>(s: seq<T>, key: T -> string) {
    forall i, j :: 0 <= i < j < |s| ==> key(s[i]) != key(s[j])
  }

  /** `s.map(y => y.id === x.id ? x : y)`: the update-by-id of every collection. */
  function ReplaceById<T>(s: seq<T>, key: T -> string, x: T): (r: seq<T>)
    ensures |r| == |s|
    ensures forall i :: 0 <= i < |s| && key(s[i]) == key(x) ==> r[i] == x
    ensures forall i :: 0 <= i < |s| && key(s[i]) != key(x) ==> r[i] == s[i]
  {
    MapWhere(s, KeyIs(key, key(x)), Always(x))
  }

  /** `s.filter(y => y.id !== k)`: the delete-by-id of every collection. */
  function RemoveById<T(!new)>(s: seq<T>, key: T -> string, k: string): (r: seq<T>)
    ensures forall y :: y in r <==> y in s && key(y) != k
    ensures forall y :: multiset(r)[y] == if key(y) != k then multiset(s)[y] else 0
    ensures |r| <= |s|
  {
    var p := KeyIsNot(key, k);
    FilterCount(s, p);
    assert forall y :: p(y) <==> key(y) != k;
    Filter(s, p)
  }

  /** `s.filter(y => y.date === d)`: the by-date queries. */
  function SelectByKey<T(!new)>(s: seq<T>, key: T -> string, k: string): (r: seq<T>)
    ensures forall y :: y in r <==> y in s && key(y) == k
    ensures forall y :: multiset(r)[y] == if key(y) == k then multiset(s)[y] else 0
    ensures |r| <= |s|
  {
    var p := KeyIs(key, k);
    FilterCount(s, p);
    assert forall y :: p(y) <==> key(y) == k;
    Filter(s, p)
  }

  // ---------------------------------------------------------------------------
  // Update by id

  /** The update never changes which id sits at which position. */
  lemma ReplaceKeepsKeys<T>(s: seq<T>, key: T -> string, x: T)
    ensures forall i :: 0 <= i < |s| ==> key(ReplaceById(s, key, x)[i]) == key(s[i])
  {
  }

  /** Updating with an id nobody carries is the silent no-op of the source. */
  lemma ReplaceAbsent<T>(s: seq<T>, key: T -> string, x: T)
    requires !HasKey(s, key, key(x))
    ensures ReplaceById(s, key, x) == s
  {
  }

  /** Repeating an update changes nothing. */
  lemma ReplaceIdempotent<T>(s: seq<T>, key: T -> string, x: T)
    ensures ReplaceById(ReplaceById(s, key, x), key, x) == ReplaceById(s, key, x)
  {
  }

  /** After an update of a present id, looking that id up yields the new record. */
  lemma {:induction false} ReplaceThenFind<T(!new)>(s: seq<T>, key: T -> string, x: T)
    requires HasKey(s, key, key(x))
    ensures Find(ReplaceById(s, key, x), KeyIs(key, key(x))) == Some(x)
  {
    var r := ReplaceById(s, key, x);
    var i :| 0 <= i < |s| && key(s[i]) == key(x);
    assert KeyIs(key, key(x))(r[i]);
    var f := Find(r, KeyIs(key, key(x)));
    assert f.Some?;
  }

  /** With distinct ids, writing a record back over its updated version restores the collection. */
  lemma ReplaceRestores<T>(s: seq<T>, key: T -> string, x: T, y: T)
    requires UniqueKeys(s, key)
    requires y in s && key(x) == key(y)
    ensures ReplaceById(ReplaceById(s, key, x), key, y) == s
  {
    var k :| 0 <= k < |s| && s[k] == y;
    var r := ReplaceById(ReplaceById(s, key, x), key, y);
    forall i | 0 <= i < |s| ensures r[i] == s[i] {
      if key(s[i]) == key(y) {
        assert i == k;
      }
    }
  }

  // ---------------------------------------------------------------------------
  // Delete by id

  /** Deleting the id of a record just appended with a fresh id undoes the append. */
  lemma {:induction false} RemoveUndoesAppend<T(!new)>(s: seq<T>, key: T -> string, x: T)
    requires !HasKey(s, key, key(x))
    ensures RemoveById(s + [x], key, key(x)) == s
  {
    var p := KeyIsNot(key, key(x));
    FilterConcat(s, [x], p);
    assert forall y :: y in s ==> p(y) by {
      forall y | y in s ensures p(y) {
        var i :| 0 <= i < |s| && s[i] == y;
      }
    }
    FilterAll(s, p);
    assert Filter([x], p) == [];
  }

  /** After a delete no record with that id is left, and the others keep their relative order. */
  lemma {:induction false} RemoveDistributes<T(!new)>(a: seq<T>, b: seq<T>, key: T -> string, k: string)
    ensures RemoveById(a + b, key, k) == RemoveById(a, key, k) + RemoveById(b, key, k)
    ensures !HasKey(RemoveById(a + b, key, k), key, k)
  {
    FilterConcat(a, b, KeyIsNot(key, k));
  }

  /** Records removed plus records kept account for the whole collection. */
  lemma RemoveCount<T(!new)>(s: seq<T>, key: T -> string, k: string)
    ensures |RemoveById(s, key, k)| + |SelectByKey(s, key, k)| == |s|
  {
    FilterSplit(s, KeyIsNot(key, k), KeyIs(key, k));
  }

  /** A second delete of the same id finds nothing more to remove. */
  lemma RemoveIdempotent<T(!new)>(s: seq<T>, key: T -> string, k: string)
    ensures RemoveById(RemoveById(s, key, k), key, k) == RemoveById(s, key, k)
  {
    FilterAll(RemoveById(s, key, k), KeyIsNot(key, k));
  }

  /** Deleting other ids does not change which record a lookup by id finds. */
  lemma FindAfterRemove<T(!new)>(s: seq<T>, key: T -> string, gone: string, k: string)
    requires gone != k
    ensures Find(RemoveById(s, key, gone), KeyIs(key, k)) == Find(s, KeyIs(key, k))
  {
    FindInFilter(s, KeyIs(key, k), KeyIsNot(key, gone));
  }

  /** Filtering by a predicate that every match passes keeps the first match. */
  lemma {:induction false} FindInFilter<T(!new)>(s: seq<T>, p: T -> bool, q: T -> bool)
    requires forall x :: p(x) ==> q(x)
    ensures Find(Filter(s, q), p) == Find(s, p)
  {
    if |s| > 0 {
      var t := Filter(s[1..], q);
      FindInFilter(s[1..], p, q);
      FindCons(s, p);
      if q(s[0]) {
        var f := Filter(s, q);
        assert f == [s[0]] + t;
        FindCons(f, p);
        assert f[1..] == t;
      } else {
        assert Filter(s, q) == t;
      }
    }
  }

  /** `find` looks at the head first. */
  lemma FindCons<T(!new)>(s: seq<T>, p: T -> bool)
    requires |s| > 0
    ensures Find(s, p) == if p(s[0]) then Some(s[0]) else Find(s[1..], p)
  {
    if !p(s[0]) {
      var a := FindIndex(s, p);
      var b := FindIndex(s[1..], p);
      assert a.Some? <==> b.Some?;
      if a.Some? {
        assert a.value == b.value + 1;
      }
    }
  }

  /** `find` by key, read in terms of the key. */
  lemma FindByKey<T(!new)>(s: seq<T>, key: T -> string, k: string)
    ensures Find(s, KeyIs(key, k)).Some? ==>
      Find(s, KeyIs(key, k)).value in s && key(Find(s, KeyIs(key, k)).value) == k
    ensures Find(s, KeyIs(key, k)).None? <==> forall x :: x in s ==> key(x) != k
  {
    var p := KeyIs(key, k);
    assert forall x :: p(x) <==> key(x) == k;
  }

  /** The first position carrying a key, read in terms of the key. */
  lemma FindIndexByKey<T(!new)>(s: seq<T>, key: T -> string, k: string)
    ensures FindIndex(s, KeyIs(key, k)).None? <==> forall x :: x in s ==> key(x) != k
    ensures FindIndex(s, KeyIs(key, k)).Some? ==>
      var i := FindIndex(s, KeyIs(key, k)).value;
      key(s[i]) == k && forall j :: 0 <= j < i ==> key(s[j]) != k
  {
    var p := KeyIs(key, k);
    if FindIndex(s, p).None? {
      forall x | x in s ensures key(x) != k {
        var j :| 0 <= j < |s| && s[j] == x;
        assert !p(s[j]);
      }
    } else {
      var i := FindIndex(s, p).value;
      assert p(s[i]);
      forall j | 0 <= j < i ensures key(s[j]) != k {
        assert !p(s[j]);
      }
    }
  }

  /** With distinct ids, looking up an element's id finds that very element. */
  lemma FindUnique<T(!new)>(s: seq<T>, key: T -> string, i: int)
    requires UniqueKeys(s, key) && 0 <= i < |s|
    ensures Find(s, KeyIs(key, key(s[i]))) == Some(s[i])
  {
    var p := KeyIs(key, key(s[i]));
    assert p(s[i]);
    var k := FindIndex(s, p).value;
    assert key(s[k]) == key(s[i]);
  }

  // ---------------------------------------------------------------------------
  // Queries by date

  /** Appending a record extends the query for its date by that record and leaves other dates alone. */
  lemma SelectAfterAppend<T(!new)>(s: seq<T>, key: T -> string, x: T, k: string)
    ensures SelectByKey(s + [x], key, k)
         == SelectByKey(s, key, k) + (if key(x) == k then [x] else [])
  {
    FilterConcat(s, [x], KeyIs(key, k));
  }

  /** A query never returns a record of another date, and returns every record of its date. */
  lemma SelectExact<T(!new)>(s: seq<T>, key: T -> string, k: string)
    ensures forall y :: y in SelectByKey(s, key, k) ==> key(y) == k
    ensures |SelectByKey(s, key, k)| == 0 <==> !HasKey(s, key, k)
  {
    var r := SelectByKey(s, key, k);
    if HasKey(s, key, k) {
      var i :| 0 <= i < |s| && key(s[i]) == k;
      assert s[i] in r;
    }
    if |r| > 0 {
      assert r[0] in r;
      var i :| 0 <= i < |s| && s[i] == r[0];
    }
  }
}
