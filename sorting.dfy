/** In-place sorting of an array by a comparator, as `Array.prototype.sort` does with
    a comparator `cmp`: `le(x, y)` stands for `cmp(x, y) <= 0`.  The result is sorted
    and a permutation of the input; which of two equal elements comes first is not
    specified. */
module Sorting {
  /** Every pair is ordered one way or the other, and the order is transitive. */
  ghost predicate TotalPreorder<T(!new)>(le: (T, T) -> bool) {
    (forall x, y :: le(x, y) || le(y, x)) &&
    (forall x, y, z :: le(x, y) && le(y, z) ==> le(x, z))
  }

  predicate SortedBy<T>(s: seq<T>, le: (T, T) -> bool) {
    forall i, j :: 0 <= i < j < |s| ==> le(s[i], s[j])
  }

  /** Sorts `a` in place by `le`. */
  method SortInPlace<T(!new)>(a: array<T>, le: (T, T) -> bool)
    requires TotalPreorder(le)
    modifies a
    ensures SortedBy(a[..], le)
    ensures multiset(a[..]) == multiset(old(a[..]))
  {
    var i := 0;
    while i < a.Length
      invariant 0 <= i <= a.Length
      invariant SortedBy(a[..i], le)
      invariant multiset(a[..]) == multiset(old(a[..]))
    {
      InsertNext(a, i, le);
      i := i + 1;
    }
    assert a[..a.Length] == a[..];
  }

  /** Moves `a[i]` down into the sorted prefix `a[..i]`. */
  method InsertNext<T(!new)>(a: array<T>, i: nat, le: (T, T) -> bool)
    requires TotalPreorder(le)
    requires i < a.Length && SortedBy(a[..i], le)
    modifies a
    ensures SortedBy(a[..i + 1], le)
    ensures multiset(a[..]) == multiset(old(a[..]))
  {
    var j := i;
    assert SortedExcept(a[..], i, j, le);
    while j > 0 && !le(a[j - 1], a[j])
      invariant 0 <= j <= i < a.Length
      invariant SortedExcept(a[..], i, j, le)
      invariant BelowNext(a[..], i, j, le)
      invariant multiset(a[..]) == multiset(old(a[..]))
    {
      ghost var s := a[..];
      a[j - 1], a[j] := a[j], a[j - 1];
      assert a[..] == Swapped(s, j);
      SwapStep(s, i, j, le);
      j := j - 1;
    }
    FinishInsert(a[..], i, j, le);
  }

  /** `s` with the elements at `j - 1` and `j` exchanged. */
  function Swapped<T>(s: seq<T>, j: nat): (t: seq<T>)
    requires 0 < j < |s|
    ensures |t| == |s| && multiset(t) == multiset(s)
  {
    s[j - 1 := s[j]][j := s[j - 1]]
  }

  /** The prefix up to `i` is sorted except at position `j`, the element being moved. */
  ghost predicate SortedExcept<T>(s: seq<T>, i: nat, j: nat, le: (T, T) -> bool)
    requires j <= i < |s|
  {
    forall p, q :: 0 <= p < q <= i && q != j ==> le(s[p], s[q])
  }

  /** Everything before the moved element is below the element after it. */
  ghost predicate BelowNext<T>(s: seq<T>, i: nat, j: nat, le: (T, T) -> bool)
    requires j <= i < |s|
  {
    j < i ==> forall p :: 0 <= p < j ==> le(s[p], s[j + 1])
  }

  /** One exchange moves the element down by one and keeps both invariants. */
  lemma SwapStep<T(!new)>(s: seq<T>, i: nat, j: nat, le: (T, T) -> bool)
    requires TotalPreorder(le)
    requires 0 < j <= i < |s| && !le(s[j - 1], s[j])
    requires SortedExcept(s, i, j, le) && BelowNext(s, i, j, le)
    ensures SortedExcept(Swapped(s, j), i, j - 1, le) && BelowNext(Swapped(s, j), i, j - 1, le)
  {
    var t := Swapped(s, j);
    assert le(s[j], s[j - 1]);
    forall p, q | 0 <= p < q <= i && q != j - 1
      ensures le(t[p], t[q])
    {
      if q == j {
        if p < j - 1 {
          assert le(s[p], s[j - 1]);
        }
      } else if p == j - 1 {
        if j < i {
          assert le(s[j - 1], s[j + 1]);
          assert le(s[j], s[j + 1]);
        }
        assert le(s[j], s[q]) by {
          if q > j + 1 {
            assert le(s[j - 1], s[j + 1]) && le(s[j + 1], s[q]);
            assert le(s[j], s[j + 1]);
          }
        }
      } else if p == j {
        assert le(s[j - 1], s[q]);
      }
    }
    forall p | 0 <= p < j - 1
      ensures le(t[p], t[j])
    {
      assert le(s[p], s[j - 1]);
    }
  }

  /** When the element has stopped, the prefix up to `i` is sorted. */
  lemma FinishInsert<T(!new)>(s: seq<T>, i: nat, j: nat, le: (T, T) -> bool)
    requires TotalPreorder(le)
    requires j <= i < |s| && SortedExcept(s, i, j, le) && BelowNext(s, i, j, le)
    requires j == 0 || le(s[j - 1], s[j])
    ensures SortedBy(s[..i + 1], le)
  {
    forall p, q | 0 <= p < q <= i
      ensures le(s[p], s[q])
    {
      if q == j && p < j - 1 {
        assert le(s[p], s[j - 1]);
      }
    }
  }

  /** A sorted copy of `s`: the elements are copied into a fresh array, which is sorted
      in place. */
  method SortedCopy<T(!new)>(s: seq<T>, le: (T, T) -> bool) returns (r: seq<T>)
    requires TotalPreorder(le)
    ensures SortedBy(r, le)
    ensures multiset(r) == multiset(s)
  {
    var a := new T[|s|](i requires 0 <= i < |s| => s[i]);
    assert a[..] == s;
    SortInPlace(a, le);
    r := a[..];
  }
}
