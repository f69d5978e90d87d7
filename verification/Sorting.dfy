/** `sort.Slice`: an ordered rearrangement.  Elements that compare equal may come out in
    any order, so callers learn nothing more than the contract says. */
module Sorting {

  ghost predicate StrictWeakOrder<T(!new)>(less: (T, T) -> bool) {
    && (forall a :: !less(a, a))
    && (forall a, b, c :: less(a, b) && less(b, c) ==> less(a, c))
    && (forall a, b, c :: !less(a, b) && !less(b, c) ==> !less(a, c))
  }

  ghost predicate Ordered<T(!new)>(s: seq<T>, less: (T, T) -> bool) {
    forall i, j :: 0 <= i < j < |s| ==> !less(s[j], s[i])
  }

  method SortSlice<T(!new)>(s: seq<T>, less: (T, T) -> bool) returns (r: seq<T>)
    requires StrictWeakOrder(less)
    ensures multiset(r) == multiset(s)
    ensures Ordered(r, less)
  {
    r := [];
    for i := 0 to |s|
      invariant multiset(r) == multiset(s[..i])
      invariant Ordered(r, less)
    {
      var k := |r|;
      while k > 0 && less(s[i], r[k - 1])
        invariant 0 <= k <= |r|
        invariant forall j :: k <= j < |r| ==> less(s[i], r[j])
      {
        k := k - 1;
      }
      InsertKeepsOrder(r, less, k, s[i]);
      InsertAddsOne(r, k, s[i]);
      assert s[..i + 1] == s[..i] + [s[i]];
      r := r[..k] + [s[i]] + r[k..];
    }
    assert s[..|s|] == s;
  }

  lemma InsertAddsOne<T>(r: seq<T>, k: nat, x: T)
    requires k <= |r|
    ensures multiset(r[..k] + [x] + r[k..]) == multiset(r) + multiset{x}
  {
    assert r == r[..k] + r[k..];
  }

  lemma InsertKeepsOrder<T(!new)>(r: seq<T>, less: (T, T) -> bool, k: nat, x: T)
    requires StrictWeakOrder(less) && Ordered(r, less) && k <= |r|
    requires k > 0 ==> !less(x, r[k - 1])
    requires forall j :: k <= j < |r| ==> less(x, r[j])
    ensures Ordered(r[..k] + [x] + r[k..], less)
  {
    var out := r[..k] + [x] + r[k..];
    forall i, j | 0 <= i < j < |out|
      ensures !less(out[j], out[i])
    {
      var from := (p: int) => if p < k then p else p - 1;
      if i == k {
        assert out[j] == r[j - 1] && less(x, r[j - 1]);
      } else if j == k {
        assert out[i] == r[i];
        assert !less(x, r[k - 1]) && !less(r[k - 1], r[i]);
      } else {
        assert out[i] == r[from(i)] && out[j] == r[from(j)];
      }
    }
  }

  // ---------- what a rearrangement keeps ----------

  lemma SameMembers<T>(a: seq<T>, b: seq<T>)
    requires multiset(a) == multiset(b)
    ensures |a| == |b| && forall x :: x in a <==> x in b
  {
    assert |multiset(a)| == |a| && |multiset(b)| == |b|;
    forall x
      ensures x in a <==> x in b
    {
      assert x in multiset(a) <==> x in multiset(b);
    }
  }

  lemma TwoPlacesCount<T>(s: seq<T>, i: int, j: int)
    requires 0 <= i < j < |s| && s[i] == s[j]
    ensures multiset(s)[s[i]] >= 2
  {
    assert s == s[..j] + s[j..];
    assert s[i] in s[..j] && s[i] in s[j..];
  }

  lemma CountHasTwoPlaces<T>(s: seq<T>, x: T) returns (i: int, j: int)
    requires multiset(s)[x] >= 2
    ensures 0 <= i < j < |s| && s[i] == s[j] == x
  {
    assert x in s;
    i :| 0 <= i < |s| && s[i] == x;
    var rest := s[..i] + s[i + 1..];
    assert s == s[..i] + [x] + s[i + 1..];
    assert multiset(rest)[x] >= 1;
    assert x in rest;
    var r :| 0 <= r < |rest| && rest[r] == x;
    if r < i {
      i, j := r, i;
    } else {
      j := r + 1;
    }
  }

  function FlatMap<T, U>(s: seq<T>, f: T -> seq<U>): seq<U> {
    if s == [] then [] else FlatMap(s[..|s| - 1], f) + f(s[|s| - 1])
  }

  lemma {:induction false} FlatMapConcat<T, U>(a: seq<T>, b: seq<T>, f: T -> seq<U>)
    ensures FlatMap(a + b, f) == FlatMap(a, f) + FlatMap(b, f)
    decreases |b|
  {
    if b == [] {
      assert a + b == a;
    } else {
      var n := |b| - 1;
      FlatMapConcat(a, b[..n], f);
      assert (a + b)[..|a + b| - 1] == a + b[..n];
    }
  }

  lemma FlatMapWithout<T, U>(before: seq<T>, x: T, after: seq<T>, f: T -> seq<U>)
    ensures multiset(FlatMap(before + [x] + after, f)) == multiset(FlatMap(before + after, f)) + multiset(f(x))
  {
    FlatMapConcat(before + [x], after, f);
    FlatMapConcat(before, after, f);
    assert (before + [x])[..|before + [x]| - 1] == before;
  }

  /** A rearrangement has the last element somewhere, and the others around it. */
  lemma TakeOut<T>(front: seq<T>, last: T, b: seq<T>) returns (before: seq<T>, after: seq<T>)
    requires multiset(front) + multiset{last} == multiset(b)
    ensures b == before + [last] + after && multiset(before + after) == multiset(front)
  {
    assert last in multiset(b);
    var j :| 0 <= j < |b| && b[j] == last;
    before, after := b[..j], b[j + 1..];
    assert b == before + [last] + after;
    assert multiset(before + after) == multiset(b) - multiset{last};
  }

  /** Rearranging the list rearranges what its elements give. */
  lemma {:induction false} FlatMapPermutes<T, U>(a: seq<T>, b: seq<T>, f: T -> seq<U>)
    requires multiset(a) == multiset(b)
    ensures multiset(FlatMap(a, f)) == multiset(FlatMap(b, f))
    decreases |a|
  {
    if a == [] {
      assert |multiset(b)| == 0;
    } else {
      var n := |a| - 1;
      assert a == a[..n] + [a[n]];
      var before, after := TakeOut(a[..n], a[n], b);
      FlatMapWithout(before, a[n], after, f);
      FlatMapPermutes(a[..n], before + after, f);
    }
  }

  /** Lexicographic order of strings, as Go's `<`. */
  predicate StringLess(a: string, b: string) {
    if b == "" then false
    else if a == "" then true
    else a[0] < b[0] || (a[0] == b[0] && StringLess(a[1..], b[1..]))
  }

  lemma StringLessOrders(a: string, b: string, c: string)
    ensures !StringLess(a, a)
    ensures StringLess(a, b) && StringLess(b, c) ==> StringLess(a, c)
    ensures !StringLess(a, b) && !StringLess(b, c) ==> !StringLess(a, c)
  {
    if a != "" && b != "" && c != "" {
      StringLessOrders(a[1..], b[1..], c[1..]);
    } else if a != "" {
      StringLessOrders(a[1..], "", "");
    }
  }
}
