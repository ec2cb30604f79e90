// Values shared by every part of the model: optional values, the Python
// exceptions the core can raise, 2D points, and the list operations
// (filtering, first-occurrence de-duplication, key sorting) the core uses.

module Common {

  datatype Option<+T> = None | Some(value: T)

  /** The Python exceptions the modelled code can raise. */
  datatype Error = KeyError | ZeroDivisionError | ValueError | AttributeError | TypeError | IndexError

  /** A computation that either returns a value or raises. */
  datatype Result<+T> = Ok(value: T) | Err(error: Error)

  /** A point (x, y) of the plane; a Python 2-tuple of numbers. */
  datatype Point = Point(x: real, y: real)

  // ---------------------------------------------------------------------
  // Filtering (a list comprehension with a condition)
  // ---------------------------------------------------------------------

  function Filter<T>(s: seq<T>, keep: T -> bool): (r: seq<T>)
    ensures |r| <= |s|
    ensures forall i :: 0 <= i < |r| ==> r[i] in s && keep(r[i])
    ensures forall i :: 0 <= i < |s| && keep(s[i]) ==> s[i] in r
    ensures multiset(r) <= multiset(s)
  {
    if s == [] then []
    else
      assert s == [s[0]] + s[1..];
      if keep(s[0]) then [s[0]] + Filter(s[1..], keep)
      else Filter(s[1..], keep)
  }

  lemma {:induction false} FilterConcat<T>(s: seq<T>, t: seq<T>, keep: T -> bool)
    ensures Filter(s + t, keep) == Filter(s, keep) + Filter(t, keep)
  {
    if s == [] {
      assert s + t == t;
    } else {
      assert (s + t)[1..] == s[1..] + t;
      FilterConcat(s[1..], t, keep);
    }
  }

  lemma FilterMembers<T>(s: seq<T>, keep: T -> bool, x: T)
    ensures x in Filter(s, keep) <==> x in s && keep(x)
  {
    if x in Filter(s, keep) {
      var i :| 0 <= i < |Filter(s, keep)| && Filter(s, keep)[i] == x;
    }
    if x in s && keep(x) {
      var i :| 0 <= i < |s| && s[i] == x;
    }
  }

  /** Filtering by a condition and by its negation splits the multiset. */
  lemma {:induction false} FilterPartition<T>(s: seq<T>, keep: T -> bool, drop: T -> bool)
    requires forall x :: drop(x) == !keep(x)
    ensures multiset(Filter(s, keep)) + multiset(Filter(s, drop)) == multiset(s)
  {
    if s != [] {
      var tail := s[1..];
      FilterPartition(tail, keep, drop);
      var kept, dropped := multiset(Filter(tail, keep)), multiset(Filter(tail, drop));
      var whole := multiset(tail);
      assert multiset(s) == multiset{s[0]} + whole by {
        assert s == [s[0]] + tail;
      }
      FilterHead(s, keep);
      FilterHead(s, drop);
      AddToEither(s[0], kept, dropped, whole);
    }
  }

  lemma AddToEither<T>(x: T, a: multiset<T>, b: multiset<T>, c: multiset<T>)
    requires a + b == c
    ensures (multiset{x} + a) + b == multiset{x} + c
    ensures a + (multiset{x} + b) == multiset{x} + c
  {
  }

  /** How Filter treats the first element, as a multiset. */
  lemma FilterHead<T>(s: seq<T>, keep: T -> bool)
    requires s != []
    ensures multiset(Filter(s, keep))
         == if keep(s[0]) then multiset{s[0]} + multiset(Filter(s[1..], keep)) else multiset(Filter(s[1..], keep))
  {
    if keep(s[0]) {
      assert Filter(s, keep) == [s[0]] + Filter(s[1..], keep);
    }
  }

  /** Filtering keeps the relative order, so it keeps a sorted list sorted. */
  lemma {:induction false} FilterSorted<T>(s: seq<T>, keep: T -> bool, key: T -> real)
    requires SortedBy(s, key)
    ensures SortedBy(Filter(s, keep), key)
  {
    if s != [] {
      var tail := s[1..];
      SortedTail(s, key);
      FilterSorted(tail, keep, key);
      var rest := Filter(tail, keep);
      if keep(s[0]) {
        AllAbove(tail, rest, key(s[0]), key);
        SortedCons(s[0], rest, key);
        assert Filter(s, keep) == [s[0]] + rest;
      } else {
        assert Filter(s, keep) == rest;
      }
    }
  }

  // ---------------------------------------------------------------------
  // First-occurrence de-duplication ("if x not in seen: seen.append(x)")
  // ---------------------------------------------------------------------

  predicate NoDuplicates<T(==)>(s: seq<T>) {
    forall i, j :: 0 <= i < j < |s| ==> s[i] != s[j]
  }

  /** The distinct elements of `s`, each at the place of its first occurrence. */
  function Dedup<T(==)>(s: seq<T>): (r: seq<T>)
    ensures NoDuplicates(r)
    ensures forall i :: 0 <= i < |r| ==> r[i] in s
    ensures forall i :: 0 <= i < |s| ==> s[i] in r
    ensures |r| <= |s|
  {
    if s == [] then []
    else
      var prefix := Dedup(s[..|s| - 1]);
      var last := s[|s| - 1];
      assert s == s[..|s| - 1] + [last];
      if last in s[..|s| - 1] then prefix else prefix + [last]
  }

  lemma DedupMembers<T>(s: seq<T>, x: T)
    ensures x in Dedup(s) <==> x in s
  {
    if x in s {
      var i :| 0 <= i < |s| && s[i] == x;
    }
    if x in Dedup(s) {
      var i :| 0 <= i < |Dedup(s)| && Dedup(s)[i] == x;
    }
  }

  /** Appending one element to the input appends it to Dedup unless already seen. */
  lemma DedupSnoc<T>(s: seq<T>, x: T)
    ensures Dedup(s + [x]) == if x in Dedup(s) then Dedup(s) else Dedup(s) + [x]
  {
    assert (s + [x])[..|s|] == s;
    DedupMembers(s, x);
  }

  /** Index of the first occurrence of `x` in `s`. */
  function FirstIndex<T(==)>(s: seq<T>, x: T): (k: nat)
    requires x in s
    ensures k < |s| && s[k] == x
    ensures forall j :: 0 <= j < k ==> s[j] != x
  {
    if s[0] == x then 0 else 1 + FirstIndex(s[1..], x)
  }

  /** The first occurrence is the one index holding `x` with no `x` before it. */
  lemma {:induction false} FirstIndexUnique<T>(s: seq<T>, x: T, k: nat)
    requires k < |s| && s[k] == x
    requires forall j :: 0 <= j < k ==> s[j] != x
    ensures FirstIndex(s, x) == k
  {
    if k > 0 {
      FirstIndexUnique(s[1..], x, k - 1);
    }
  }

  lemma FirstIndexPrefix<T>(s: seq<T>, n: nat, x: T)
    requires n <= |s| && x in s[..n]
    ensures x in s && FirstIndex(s, x) == FirstIndex(s[..n], x)
  {
    var k := FirstIndex(s[..n], x);
    assert s[k] == x;
    forall j | 0 <= j < k ensures s[j] != x {
      assert s[j] == s[..n][j];
    }
    FirstIndexUnique(s, x, k);
  }

  /** Dedup lists the elements in the order of their first occurrences. */
  lemma {:induction false} DedupFirstOccurrenceOrder<T>(s: seq<T>)
    ensures forall i, j :: 0 <= i < j < |Dedup(s)| ==>
      FirstIndex(s, Dedup(s)[i]) < FirstIndex(s, Dedup(s)[j])
  {
    if s != [] {
      var init := s[..|s| - 1];
      var last := s[|s| - 1];
      assert s == init + [last];
      DedupFirstOccurrenceOrder(init);
      var r := Dedup(s);
      var p := Dedup(init);
      forall i, j | 0 <= i < j < |r|
        ensures FirstIndex(s, r[i]) < FirstIndex(s, r[j])
      {
        assert r[i] in init by { assert r[i] == p[i]; }
        FirstIndexPrefix(s, |init|, r[i]);
        if j < |p| {
          assert r[j] == p[j];
          FirstIndexPrefix(s, |init|, r[j]);
        } else {
          assert r[j] == last && last !in init;
          assert s[|init|] == last;
        }
      }
    }
  }

  // ---------------------------------------------------------------------
  // Sorting by a numeric key (Python's list.sort(key=...), a library call)
  // ---------------------------------------------------------------------

  predicate SortedBy<T>(s: seq<T>, key: T -> real) {
    forall i, j :: 0 <= i < j < |s| ==> key(s[i]) <= key(s[j])
  }

  /** The tail of a sorted list is sorted, and no key in it is below the head's. */
  lemma SortedTail<T>(s: seq<T>, key: T -> real)
    requires SortedBy(s, key) && s != []
    ensures SortedBy(s[1..], key)
    ensures forall i :: 0 <= i < |s[1..]| ==> key(s[0]) <= key(s[1..][i])
  {
    var tail := s[1..];
    forall i, j | 0 <= i < j < |tail|
      ensures key(tail[i]) <= key(tail[j])
    {
      assert tail[i] == s[i + 1] && tail[j] == s[j + 1];
    }
    forall i | 0 <= i < |tail|
      ensures key(s[0]) <= key(tail[i])
    {
      assert tail[i] == s[i + 1];
    }
  }

  /** Putting an element no greater than any of a sorted list in front keeps it sorted. */
  lemma SortedCons<T>(x: T, s: seq<T>, key: T -> real)
    requires SortedBy(s, key)
    requires forall i :: 0 <= i < |s| ==> key(x) <= key(s[i])
    ensures SortedBy([x] + s, key)
  {
    var r := [x] + s;
    forall i, j | 0 <= i < j < |r|
      ensures key(r[i]) <= key(r[j])
    {
      assert r[j] == s[j - 1];
      if i > 0 {
        assert r[i] == s[i - 1];
      }
    }
  }

  /** A bound on every key of a list holds for every key of a list drawn from it. */
  lemma AllAbove<T>(s: seq<T>, t: seq<T>, lo: real, key: T -> real)
    requires forall i :: 0 <= i < |s| ==> lo <= key(s[i])
    requires multiset(t) <= multiset(s)
    ensures forall i :: 0 <= i < |t| ==> lo <= key(t[i])
  {
    forall i | 0 <= i < |t|
      ensures lo <= key(t[i])
    {
      assert t[i] in multiset(t);
      assert t[i] in multiset(s);
      var k :| 0 <= k < |s| && s[k] == t[i];
    }
  }

  function Insert<T>(x: T, s: seq<T>, key: T -> real): (r: seq<T>)
    requires SortedBy(s, key)
    ensures SortedBy(r, key)
    ensures multiset(r) == multiset(s) + multiset{x}
    ensures |r| == |s| + 1
  {
    if s == [] then [x]
    else if key(x) <= key(s[0]) then
      SortedCons(x, s, key);
      [x] + s
    else
      SortedTail(s, key);
      var rest := Insert(x, s[1..], key);
      assert s == [s[0]] + s[1..];
      AllAbove(s[1..] + [x], rest, key(s[0]), key);
      SortedCons(s[0], rest, key);
      [s[0]] + rest
  }

  /** A stable insertion sort: the model of list.sort(key=...). */
  function SortByKey<T>(s: seq<T>, key: T -> real): (r: seq<T>)
    ensures SortedBy(r, key)
    ensures multiset(r) == multiset(s)
    ensures |r| == |s|
  {
    if s == [] then []
    else
      assert s == [s[0]] + s[1..];
      Insert(s[0], SortByKey(s[1..], key), key)
  }

  /** Keeps the elements whose key is k. */
  function KeyIs<T>(key: T -> real, k: real): T -> bool {
    x => key(x) == k
  }

  /** Filter on a list with a known first element. */
  lemma FilterCons<T>(y: T, t: seq<T>, keep: T -> bool)
    ensures Filter([y] + t, keep) == (if keep(y) then [y] else []) + Filter(t, keep)
  {
    assert ([y] + t)[0] == y && ([y] + t)[1..] == t;
  }

  /** Insert puts x before every element whose key equals x's. */
  lemma {:induction false} InsertKeepsTies<T>(x: T, s: seq<T>, key: T -> real, k: real)
    requires SortedBy(s, key)
    ensures Filter(Insert(x, s, key), KeyIs(key, k)) == (if key(x) == k then [x] else []) + Filter(s, KeyIs(key, k))
    decreases |s|
  {
    if s == [] || key(x) <= key(s[0]) {
      InsertAtFront(x, s, key);
      FilterCons(x, s, KeyIs(key, k));
    } else {
      SortedTail(s, key);
      InsertKeepsTies(x, s[1..], key, k);
      InsertBehind(x, s, key, k);
    }
  }

  lemma InsertAtFront<T>(x: T, s: seq<T>, key: T -> real)
    requires SortedBy(s, key)
    requires s == [] || key(x) <= key(s[0])
    ensures Insert(x, s, key) == [x] + s
  {
  }

  lemma InsertPastHead<T>(x: T, s: seq<T>, key: T -> real)
    requires SortedBy(s, key) && s != [] && key(s[0]) < key(x)
    requires SortedBy(s[1..], key)
    ensures Insert(x, s, key) == [s[0]] + Insert(x, s[1..], key)
  {
  }

  lemma EmptyPrefix<T>(a: seq<T>, b: seq<T>)
    requires a == []
    ensures a + b == b
  {
  }

  /** Filter on a nonempty list. */
  lemma FilterFirst<T>(s: seq<T>, keep: T -> bool)
    requires s != []
    ensures Filter(s, keep) == (if keep(s[0]) then [s[0]] else []) + Filter(s[1..], keep)
  {
  }

  /** The step of InsertKeepsTies past a head with a smaller key. */
  lemma InsertBehind<T>(x: T, s: seq<T>, key: T -> real, k: real)
    requires SortedBy(s, key) && s != [] && key(s[0]) < key(x)
    requires SortedBy(s[1..], key)
    requires Filter(Insert(x, s[1..], key), KeyIs(key, k)) == (if key(x) == k then [x] else []) + Filter(s[1..], KeyIs(key, k))
    ensures Filter(Insert(x, s, key), KeyIs(key, k)) == (if key(x) == k then [x] else []) + Filter(s, KeyIs(key, k))
  {
    var keep := KeyIs(key, k);
    var whole := Insert(x, s, key);
    InsertPastHead(x, s, key);
    assert whole[0] == s[0] && whole[1..] == Insert(x, s[1..], key);
    FilterFirst(whole, keep);
    FilterFirst(s, keep);
    var head: seq<T> := if keep(s[0]) then [s[0]] else [];
    var mine: seq<T> := if key(x) == k then [x] else [];
    var tail := Filter(s[1..], keep);
    assert Filter(whole, keep) == head + (mine + tail);
    assert Filter(s, keep) == head + tail;
    assert keep(s[0]) == (key(s[0]) == k);
    if key(x) == k {
      assert head == [];
      assert head + (mine + tail) == mine + tail && head + tail == tail;
    } else {
      assert mine == [];
      assert mine + tail == tail;
      assert Filter(whole, keep) == Filter(s, keep);
      EmptyPrefix(mine, Filter(s, keep));
    }
  }

  /**
   * SortByKey is stable: the elements sharing any one key keep their
   * input order.
   */
  lemma {:induction false} SortByKeyStable<T>(s: seq<T>, key: T -> real, k: real)
    ensures Filter(SortByKey(s, key), KeyIs(key, k)) == Filter(s, KeyIs(key, k))
    decreases |s|
  {
    if s != [] {
      SortByKeyStable(s[1..], key, k);
      InsertKeepsTies(s[0], SortByKey(s[1..], key), key, k);
    }
  }
}
