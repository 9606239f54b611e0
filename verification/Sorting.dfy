/** Sorting by a total preorder, given as a function value; nothing is said of the order among equals. */
module Sorting {

  predicate Links<T>(le: (T, T) -> bool, x: T, y: T, z: T) {
    (le(x, y) || le(y, x)) && (le(x, y) && le(y, z) ==> le(x, z))
  }

  ghost predicate TotalOrder<T(!new)>(le: (T, T) -> bool) {
    forall x, y, z :: Links(le, x, y, z)
  }

  ghost predicate Sorted<T>(s: seq<T>, le: (T, T) -> bool) {
    forall i, j :: 0 <= i < j < |s| ==> le(s[i], s[j])
  }

  method SortUnstable<T(!new, ==)>(items: seq<T>, le: (T, T) -> bool) returns (sorted: seq<T>)
    requires TotalOrder(le)
    ensures multiset(sorted) == multiset(items) && Sorted(sorted, le)
  {
    sorted := [];
    for i := 0 to |items|
      invariant multiset(sorted) == multiset(items[..i]) && Sorted(sorted, le)
    {
      sorted := Insert(items[i], sorted, le);
      assert items[..i + 1] == items[..i] + [items[i]];
    }
    assert items[..|items|] == items;
  }

  method Insert<T(!new, ==)>(item: T, sorted: seq<T>, le: (T, T) -> bool) returns (r: seq<T>)
    requires TotalOrder(le) && Sorted(sorted, le)
    ensures multiset(r) == multiset(sorted) + multiset{item} && Sorted(r, le)
  {
    var n := |sorted|;
    while n > 0 && !le(sorted[n - 1], item)
      invariant 0 <= n <= |sorted|
      invariant forall i :: n <= i < |sorted| ==> le(item, sorted[i])
    {
      assert Links(le, item, sorted[n - 1], item);
      n := n - 1;
    }
    forall i | 0 <= i < n ensures le(sorted[i], item) {
      if i < n - 1 {
        assert Links(le, sorted[i], sorted[n - 1], item);
      }
    }
    r := sorted[..n] + [item] + sorted[n..];
    Inserted(item, sorted, n);
    InsertedInOrder(item, sorted, n, le);
  }

  lemma {:induction false} Inserted<T>(item: T, s: seq<T>, n: nat)
    requires n <= |s|
    ensures multiset(s[..n] + [item] + s[n..]) == multiset(s) + multiset{item}
  {
    assert s == s[..n] + s[n..];
  }

  lemma {:induction false} InsertedInOrder<T>(item: T, s: seq<T>, n: nat, le: (T, T) -> bool)
    requires n <= |s| && Sorted(s, le)
    requires forall i :: 0 <= i < n ==> le(s[i], item)
    requires forall i :: n <= i < |s| ==> le(item, s[i])
    ensures Sorted(s[..n] + [item] + s[n..], le)
  {
    var r := s[..n] + [item] + s[n..];
    forall i, j | 0 <= i < j < |r| ensures le(r[i], r[j]) {
      assert r[i] == (if i < n then s[i] else if i == n then item else s[i - 1]);
      assert r[j] == (if j < n then s[j] else if j == n then item else s[j - 1]);
    }
  }

  lemma {:induction false} SplitAt<T>(s: seq<T>, n: nat)
    requires n < |s|
    ensures s == s[..n] + [s[n]] + s[n + 1..]
  {
  }

  lemma {:induction false} Removed<T>(s: seq<T>, n: nat)
    requires n < |s|
    ensures multiset(s[..n] + s[n + 1..]) == multiset(s) - multiset{s[n]}
  {
    SplitAt(s, n);
  }

  lemma {:induction false} WithoutFirst<T>(s: seq<T>)
    requires s != []
    ensures multiset(s[1..]) == multiset(s) - multiset{s[0]} && s == [s[0]] + s[1..]
  {
    assert s == [s[0]] + s[1..];
    assert multiset(s) == multiset{s[0]} + multiset(s[1..]);
  }

  lemma {:induction false} SameSize<T>(a: seq<T>, b: seq<T>)
    requires multiset(a) == multiset(b)
    ensures |a| == |b|
  {
    assert |multiset(a)| == |a| && |multiset(b)| == |b|;
  }

  /** Where equals are the same, the sorted list is determined by its elements alone. */
  lemma {:induction false} SortedIsUnique<T>(a: seq<T>, b: seq<T>, le: (T, T) -> bool)
    requires multiset(a) == multiset(b) && Sorted(a, le) && Sorted(b, le)
    requires forall x, y :: x in a && y in a && le(x, y) && le(y, x) ==> x == y
    ensures a == b
    decreases |a|
  {
    SameSize(a, b);
    if a != [] {
      FirstIsSame(a, b, le);
      WithoutFirst(a);
      WithoutFirst(b);
      SortedIsUnique(a[1..], b[1..], le);
    }
  }

  lemma {:induction false} FirstIsSame<T>(a: seq<T>, b: seq<T>, le: (T, T) -> bool)
    requires multiset(a) == multiset(b) && Sorted(a, le) && Sorted(b, le) && a != [] && b != []
    requires forall x, y :: x in a && y in a && le(x, y) && le(y, x) ==> x == y
    ensures a[0] == b[0]
  {
    assert a[0] in multiset(b) && b[0] in multiset(a);
    var i :| 0 <= i < |b| && b[i] == a[0];
    var j :| 0 <= j < |a| && a[j] == b[0];
  }
}
