/**
 * The two pool updates the draw applies after each commit: removing one
 * instance of the committed prize (`indexOf` followed by `splice` on a copy)
 * and filtering the committed number out of the number pool.
 */
module Pools {

  /** No value occurs twice in `s`. */
  predicate Distinct<T(==)>(s: seq<T>) {
    forall i, j :: 0 <= i < j < |s| ==> s[i] != s[j]
  }

  /** `s.indexOf(x)`: the least index holding `x`, or -1 when `x` is absent. */
  function IndexOf<T(==)>(s: seq<T>, x: T): (i: int)
    ensures -1 <= i < |s|
    ensures i == -1 <==> x !in s
    ensures 0 <= i ==> s[i] == x && x !in s[..i]
  {
    if |s| == 0 then -1
    else if s[0] == x then 0
    else
      var j := IndexOf(s[1..], x);
      if j == -1 then -1
      else
        assert s[..j + 1] == [s[0]] + s[1..][..j];
        j + 1
  }

  /**
   * The functional update of the prize pool: copy it and splice out the
   * element at `indexOf(x)`; when `indexOf` gives -1 the pool is returned
   * as it was.
   */
  function RemoveFirst<T(==)>(pool: seq<T>, x: T): (r: seq<T>)
    ensures x !in pool ==> r == pool
    ensures x in pool ==> |r| == |pool| - 1 && multiset(r) == multiset(pool) - multiset{x}
  {
    var i := IndexOf(pool, x);
    if i > -1 then
      assert pool == pool[..i] + [pool[i]] + pool[i + 1..];
      pool[..i] + pool[i + 1..]
    else
      pool
  }

  /**
   * The element removed is the one at the least index holding `x`: what
   * stands before it and after it is kept, in order.
   */
  lemma RemoveFirstAt<T>(pool: seq<T>, x: T, i: nat)
    requires i < |pool| && pool[i] == x && x !in pool[..i]
    ensures RemoveFirst(pool, x) == pool[..i] + pool[i + 1..]
  {
    var k := IndexOf(pool, x);
    assert pool[..i] == pool[..i + 1][..i];
    assert x in pool[..i + 1];
    assert forall m :: 0 <= m < i ==> pool[..i][m] == pool[m];
  }

  /**
   * Only one instance goes: a value present `c` times is present `c - 1`
   * times afterwards, so a duplicated prize stays in the pool, and every
   * other value keeps its count.
   */
  lemma RemoveFirstKeepsDuplicates<T>(pool: seq<T>, x: T)
    requires multiset(pool)[x] >= 2
    ensures x in RemoveFirst(pool, x)
    ensures multiset(RemoveFirst(pool, x))[x] == multiset(pool)[x] - 1
    ensures forall y :: y != x ==> multiset(RemoveFirst(pool, x))[y] == multiset(pool)[y]
  {
    assert x in multiset(pool);
    var r := RemoveFirst(pool, x);
    assert multiset(r)[x] >= 1;
  }

  /**
   * Removing the first element of a pool where it occurs once, and then
   * removing it again, removes it once: the second removal finds nothing.
   */
  lemma RemoveSingleTwice<T>(pool: seq<T>)
    requires |pool| > 0 && multiset(pool)[pool[0]] == 1
    ensures RemoveFirst(pool, pool[0]) == pool[1..]
    ensures RemoveFirst(RemoveFirst(pool, pool[0]), pool[0]) == pool[1..]
  {
    RemoveFirstAt(pool, pool[0], 0);
    assert pool[..0] + pool[1..] == pool[1..];
    assert pool == [pool[0]] + pool[1..];
    assert multiset(pool) == multiset{pool[0]} + multiset(pool[1..]);
  }

  /** `s.filter(n => n !== x)`: every copy of `x` goes, the rest stays in order. */
  function FilterOut<T(==)>(s: seq<T>, x: T): (r: seq<T>)
    ensures x !in r
    ensures multiset(r) == multiset(s)[x := 0]
    ensures |r| <= |s|
  {
    if |s| == 0 then []
    else
      assert s == [s[0]] + s[1..];
      (if s[0] == x then [] else [s[0]]) + FilterOut(s[1..], x)
  }

  /** Filtering out an absent value changes nothing. */
  lemma {:induction false} FilterOutAbsent<T>(s: seq<T>, x: T)
    requires x !in s
    ensures FilterOut(s, x) == s
  {
    if |s| > 0 {
      FilterOutAbsent(s[1..], x);
      assert s == [s[0]] + s[1..];
    }
  }

  /**
   * On a pool of distinct values, filtering out the value at index `i`
   * deletes exactly that element, keeping the rest in order.
   */
  lemma {:induction false} FilterOutDistinct<T>(s: seq<T>, i: nat)
    requires Distinct(s) && i < |s|
    ensures FilterOut(s, s[i]) == s[..i] + s[i + 1..]
  {
    if i == 0 {
      assert s[0] !in s[1..];
      FilterOutAbsent(s[1..], s[0]);
    } else {
      var t := s[1..];
      assert Distinct(t);
      assert s[0] != s[i];
      assert t[i - 1] == s[i];
      calc {
        FilterOut(s, s[i]);
        [s[0]] + FilterOut(t, t[i - 1]);
        { FilterOutDistinct(t, i - 1); }
        [s[0]] + (t[..i - 1] + t[i..]);
        { assert t[..i - 1] == s[1..i]; assert t[i..] == s[i + 1..]; }
        [s[0]] + (s[1..i] + s[i + 1..]);
        { assert s[..i] == [s[0]] + s[1..i]; }
        s[..i] + s[i + 1..];
      }
    }
  }

  /**
   * Deleting one element of a duplicate-free pool leaves a duplicate-free
   * pool one shorter.
   */
  lemma DistinctDelete<T>(s: seq<T>, i: nat)
    requires Distinct(s) && i < |s|
    ensures |s[..i] + s[i + 1..]| == |s| - 1
    ensures Distinct(s[..i] + s[i + 1..])
  {
    var r := s[..i] + s[i + 1..];
    forall a, b | 0 <= a < b < |r| ensures r[a] != r[b] {
      var a' := if a < i then a else a + 1;
      var b' := if b < i then b else b + 1;
      assert r[a] == s[a'] && r[b] == s[b'];
    }
  }

  /** A duplicate-free sequence holds each value at most once. */
  lemma {:induction false} DistinctCounts<T>(s: seq<T>)
    requires Distinct(s)
    ensures forall x :: multiset(s)[x] <= 1
  {
    if |s| > 0 {
      assert Distinct(s[1..]);
      DistinctCounts(s[1..]);
      assert s == [s[0]] + s[1..];
      assert s[0] !in s[1..];
    }
  }

  /** A sequence holding each value at most once is duplicate-free. */
  lemma CountsDistinct<T>(s: seq<T>)
    requires forall x :: multiset(s)[x] <= 1
    ensures Distinct(s)
  {
    forall i, j | 0 <= i < j < |s| ensures s[i] != s[j] {
      assert s == s[..j] + [s[j]] + s[j + 1..];
      assert multiset(s) == multiset(s[..j]) + multiset{s[j]} + multiset(s[j + 1..]);
      assert multiset(s)[s[j]] <= 1;
      assert multiset(s[..j])[s[j]] == 0;
      assert s[j] !in s[..j];
      assert s[..j][i] == s[i];
    }
  }
}
