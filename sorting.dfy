/**
 * The dashboard sorts every list it shows with JavaScript's
 * `Array.prototype.sort` and a comparator of the form `(a, b) => key(b) - key(a)`:
 * largest key first, and, since the built-in sort is stable, elements with equal
 * keys keep their input order.
 *
 * `SortDesc` is the specification of that sort (a stable insertion sort written
 * as a function); `SortInPlace` is the in-place array sort proved equal to it.
 */
module Sorting {

  /** `s` runs from the largest key to the smallest. */
  ghost predicate SortedDesc<T>(s: seq<T>, key: T -> real) {
    forall i, j :: 0 <= i < j < |s| ==> key(s[i]) >= key(s[j])
  }

  /** Inserts `x` into `s` behind every trailing element whose key is at least `key(x)`. */
  function InsertDesc<T>(s: seq<T>, x: T, key: T -> real): (r: seq<T>)
    ensures |r| == |s| + 1
  {
    if s == [] then [x]
    else if key(s[|s| - 1]) >= key(x) then s + [x]
    else InsertDesc(s[..|s| - 1], x, key) + [s[|s| - 1]]
  }

  /** Stable descending sort: the reference definition of the comparator sorts. */
  function SortDesc<T>(s: seq<T>, key: T -> real): (r: seq<T>)
    ensures |r| == |s|
  {
    if s == [] then []
    else InsertDesc(SortDesc(s[..|s| - 1], key), s[|s| - 1], key)
  }

  lemma {:induction false} InsertDescPermutes<T>(s: seq<T>, x: T, key: T -> real)
    ensures multiset(InsertDesc(s, x, key)) == multiset(s) + multiset{x}
    decreases |s|
  {
    if s != [] && key(s[|s| - 1]) < key(x) {
      InsertDescPermutes(s[..|s| - 1], x, key);
      assert s == s[..|s| - 1] + [s[|s| - 1]];
    }
  }

  /** The comparator sort is a permutation of its input. */
  lemma {:induction false} SortDescPermutes<T>(s: seq<T>, key: T -> real)
    ensures multiset(SortDesc(s, key)) == multiset(s)
    decreases |s|
  {
    if s != [] {
      SortDescPermutes(s[..|s| - 1], key);
      InsertDescPermutes(SortDesc(s[..|s| - 1], key), s[|s| - 1], key);
      assert s == s[..|s| - 1] + [s[|s| - 1]];
    }
  }

  /** The elements of `s` whose key is exactly `v`, in their order in `s`. */
  function WithKey<T>(s: seq<T>, key: T -> real, v: real): seq<T> {
    if s == [] then []
    else WithKey(s[..|s| - 1], key, v) + (if key(s[|s| - 1]) == v then [s[|s| - 1]] else [])
  }

  lemma {:induction false} WithKeyAppend<T>(a: seq<T>, b: seq<T>, key: T -> real, v: real)
    ensures WithKey(a + b, key, v) == WithKey(a, key, v) + WithKey(b, key, v)
    decreases |b|
  {
    if b == [] {
      assert a + b == a;
    } else {
      assert (a + b)[..|a + b| - 1] == a + b[..|b| - 1];
      WithKeyAppend(a, b[..|b| - 1], key, v);
    }
  }

  lemma {:induction false} InsertDescSorted<T>(s: seq<T>, x: T, key: T -> real)
    requires SortedDesc(s, key)
    ensures SortedDesc(InsertDesc(s, x, key), key)
    decreases |s|
  {
    if s != [] && key(s[|s| - 1]) < key(x) {
      var init, last := s[..|s| - 1], s[|s| - 1];
      InsertDescSorted(init, x, key);
      InsertDescPermutes(init, x, key);
      var r' := InsertDesc(init, x, key);
      forall e | e in r' ensures key(e) >= key(last) {
        assert e in multiset(r');
        if e != x {
          assert e in multiset(init);
          var k :| 0 <= k < |init| && init[k] == e;
          assert s[k] == e;
        }
      }
      forall i, j | 0 <= i < j < |r' + [last]|
        ensures key((r' + [last])[i]) >= key((r' + [last])[j])
      {
        if j == |r'| {
          assert (r' + [last])[i] in r';
        }
      }
    }
  }

  /** The comparator sort yields a list ordered from largest to smallest key. */
  lemma {:induction false} SortDescSorted<T>(s: seq<T>, key: T -> real)
    ensures SortedDesc(SortDesc(s, key), key)
    decreases |s|
  {
    if s != [] {
      SortDescSorted(s[..|s| - 1], key);
      InsertDescSorted(SortDesc(s[..|s| - 1], key), s[|s| - 1], key);
    }
  }

  lemma {:induction false} InsertDescStable<T>(s: seq<T>, x: T, key: T -> real, v: real)
    ensures WithKey(InsertDesc(s, x, key), key, v)
         == WithKey(s, key, v) + (if key(x) == v then [x] else [])
    decreases |s|
  {
    if s == [] {
      assert WithKey([x], key, v) == WithKey([], key, v) + (if key(x) == v then [x] else []);
    } else if key(s[|s| - 1]) >= key(x) {
      WithKeyAppend(s, [x], key, v);
      assert WithKey([x], key, v) == WithKey([], key, v) + (if key(x) == v then [x] else []);
    } else {
      var init, last := s[..|s| - 1], s[|s| - 1];
      InsertDescStable(init, x, key, v);
      var r' := InsertDesc(init, x, key);
      assert (r' + [last])[..|r' + [last]| - 1] == r';
    }
  }

  /**
   * Stability: among elements with one and the same key, the sort keeps the
   * input order.
   */
  lemma {:induction false} SortDescStable<T>(s: seq<T>, key: T -> real, v: real)
    ensures WithKey(SortDesc(s, key), key, v) == WithKey(s, key, v)
    decreases |s|
  {
    if s != [] {
      SortDescStable(s[..|s| - 1], key, v);
      InsertDescStable(SortDesc(s[..|s| - 1], key), s[|s| - 1], key, v);
    }
  }

  /** Every element of a sorted list is an element of the input, and conversely. */
  lemma SortDescSameElements<T>(s: seq<T>, key: T -> real, e: T)
    ensures e in SortDesc(s, key) <==> e in s
  {
    SortDescPermutes(s, key);
    assert e in SortDesc(s, key) <==> e in multiset(SortDesc(s, key));
    assert e in s <==> e in multiset(s);
  }

  /** In a list sorted by key, an element with a strictly larger key than position `k` lies before `k`. */
  lemma SortedDescAhead<T>(s: seq<T>, key: T -> real, k: int, q: T)
    requires SortedDesc(s, key) && 0 <= k < |s|
    requires q in s && key(q) > key(s[k])
    ensures q in s[..k]
  {
  }

  /** One step of `InsertDesc`, read from the front of the remaining prefix. */
  lemma InsertDescStep<T>(p: seq<T>, x: T, key: T -> real, j: int)
    requires 0 < j <= |p| && key(p[j - 1]) < key(x)
    ensures InsertDesc(p[..j], x, key) + p[j..] == InsertDesc(p[..j - 1], x, key) + p[j - 1..]
  {
    assert p[..j][..j - 1] == p[..j - 1];
    assert p[j - 1..] == [p[j - 1]] + p[j..];
  }

  /** Where `InsertDesc` stops: at the front, or behind an element whose key is at least `key(x)`. */
  lemma InsertDescSplit<T>(p: seq<T>, x: T, key: T -> real, j: int)
    requires 0 <= j <= |p| && (j == 0 || key(p[j - 1]) >= key(x))
    requires InsertDesc(p, x, key) == InsertDesc(p[..j], x, key) + p[j..]
    ensures InsertDesc(p, x, key) == p[..j] + [x] + p[j..]
  {
  }

  /** Copies a sequence into a fresh array. */
  method ToArray<T>(s: seq<T>) returns (a: array<T>)
    ensures fresh(a) && a[..] == s
  {
    a := new T[|s|](i requires 0 <= i < |s| => s[i]);
  }

  /**
   * Moves `a[i]` left past every element with a smaller key, so that `a[..i + 1]`
   * becomes `InsertDesc(a[..i], a[i])`; the rest of the array is untouched.
   */
  method InsertAt<T>(a: array<T>, i: int, key: T -> real)
    requires 0 <= i < a.Length
    modifies a
    ensures a[..i + 1] == InsertDesc(old(a[..i]), old(a[i]), key)
    ensures forall k :: i < k < a.Length ==> a[k] == old(a[k])
  {
    ghost var p := a[..i];
    ghost var x := a[i];
    var j := i;
    assert p[..j] == p && p[j..] == [];
    assert a[..i + 1] == p[..j] + [x] + p[j..];
    while j > 0 && key(a[j - 1]) < key(a[j])
      invariant 0 <= j <= i
      invariant a[..i + 1] == p[..j] + [x] + p[j..]
      invariant forall k :: i < k < a.Length ==> a[k] == old(a[k])
      invariant InsertDesc(p, x, key) == InsertDesc(p[..j], x, key) + p[j..]
    {
      InsertDescStep(p, x, key, j);
      ghost var before := a[..i + 1];
      SpliceStep(before, p, x, j);
      a[j - 1], a[j] := a[j], a[j - 1];
      assert a[..i + 1] == before[j - 1 := x][j := p[j - 1]];
      j := j - 1;
    }
    InsertDescSplit(p, x, key, j);
  }

  /** Swapping `x` with its left neighbour `p[j - 1]` moves the splice point one to the left. */
  lemma SpliceStep<T>(s: seq<T>, p: seq<T>, x: T, j: int)
    requires 0 < j <= |p| && s == p[..j] + [x] + p[j..]
    ensures s[j - 1] == p[j - 1] && s[j] == x
    ensures s[j - 1 := x][j := p[j - 1]] == p[..j - 1] + [x] + p[j - 1..]
  {
  }

  /**
   * Sorts `a` in place, largest key first, keeping the input order among equal
   * keys: insertion sort by adjacent swaps, which gives the same result as the
   * engine's stable comparator sort.
   */
  method SortInPlace<T>(a: array<T>, key: T -> real)
    modifies a
    ensures a[..] == SortDesc(old(a[..]), key)
  {
    ghost var input := a[..];
    var i := 0;
    while i < a.Length
      invariant 0 <= i <= a.Length
      invariant a[..i] == SortDesc(input[..i], key)
      invariant forall k :: i <= k < a.Length ==> a[k] == input[k]
    {
      InsertAt(a, i, key);
      SortDescSnoc(input, i, key);
      i := i + 1;
    }
    assert a[..] == a[..a.Length];
    assert input == input[..a.Length];
  }

  /** Sorting one more element of the input is inserting it into the sorted prefix. */
  lemma SortDescSnoc<T>(s: seq<T>, i: int, key: T -> real)
    requires 0 <= i < |s|
    ensures SortDesc(s[..i + 1], key) == InsertDesc(SortDesc(s[..i], key), s[i], key)
  {
    assert s[..i + 1][..i] == s[..i];
  }

  /**
   * Everything the comparator sort promises, in one place: same length, same
   * elements with the same multiplicities, largest key first, and among equal
   * keys the input order.
   */
  lemma SortDescMeaning<T>(s: seq<T>, key: T -> real)
    ensures |SortDesc(s, key)| == |s|
    ensures multiset(SortDesc(s, key)) == multiset(s)
    ensures SortedDesc(SortDesc(s, key), key)
    ensures forall v :: WithKey(SortDesc(s, key), key, v) == WithKey(s, key, v)
    ensures forall e :: e in SortDesc(s, key) <==> e in s
  {
    SortDescPermutes(s, key);
    SortDescSorted(s, key);
    forall v ensures WithKey(SortDesc(s, key), key, v) == WithKey(s, key, v) {
      SortDescStable(s, key, v);
    }
    forall e ensures e in SortDesc(s, key) <==> e in s {
      SortDescSameElements(s, key, e);
    }
  }
}
