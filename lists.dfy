/** List operations of the views: `Array.prototype.filter`, `find` and the
    subsequence relation a filter's result stands in to its input. */
module Lists {
  import opened Wrappers

  /** `a` is `b` with some elements left out, the rest in order. */
  predicate IsSubsequence<T(==)>(a: seq<T>, b: seq<T>)
    decreases |b|
  {
    if a == [] then true
    else if b == [] then false
    else if a[|a| - 1] == b[|b| - 1] then IsSubsequence(a[..|a| - 1], b[..|b| - 1])
    else IsSubsequence(a, b[..|b| - 1])
  }

  lemma {:induction false} SubsequenceOfSelf<T>(s: seq<T>)
    ensures IsSubsequence(s, s)
    decreases |s|
  {
    if s != [] {
      SubsequenceOfSelf(s[..|s| - 1]);
    }
  }

  /** Appending an element to the longer list keeps a subsequence one. */
  lemma {:induction false} SubsequenceExtend<T>(a: seq<T>, b: seq<T>, x: T)
    requires IsSubsequence(a, b)
    ensures IsSubsequence(a, b + [x]) && IsSubsequence(a + [x], b + [x])
  {
    assert (b + [x])[..|b|] == b;
    assert (a + [x])[..|a|] == a;
    if a != [] && a[|a| - 1] == x {
      SubsequenceDropLast(a, b);
    }
  }

  /** One more element of `b`, kept or not, keeps `r` a subsequence. */
  lemma SubsequenceStep<T>(r: seq<T>, a: seq<T>, b: seq<T>, x: T)
    requires IsSubsequence(a, b) && (r == a + [x] || r == a)
    ensures IsSubsequence(r, b + [x])
  {
    SubsequenceExtend(a, b, x);
  }

  lemma {:induction false} SubsequenceDropLast<T>(a: seq<T>, b: seq<T>)
    requires a != [] && IsSubsequence(a, b)
    ensures IsSubsequence(a[..|a| - 1], b)
    decreases |b|, 0
  {
    var init := a[..|a| - 1];
    assert b == b[..|b| - 1] + [b[|b| - 1]];
    if a[|a| - 1] == b[|b| - 1] {
      SubsequenceWeaken(init, b[..|b| - 1], b[|b| - 1]);
    } else {
      SubsequenceDropLast(a, b[..|b| - 1]);
      SubsequenceWeaken(init, b[..|b| - 1], b[|b| - 1]);
    }
  }

  lemma {:induction false} SubsequenceWeaken<T>(a: seq<T>, b: seq<T>, x: T)
    requires IsSubsequence(a, b)
    ensures IsSubsequence(a, b + [x])
    decreases |b|, 1
  {
    assert (b + [x])[..|b|] == b;
    if a != [] && a[|a| - 1] == x {
      if IsSubsequence(a[..|a| - 1], b) {
      } else {
        SubsequenceDropLast(a, b);
      }
    }
  }

  /** Every element of a subsequence is an element of the list. */
  lemma {:induction false} SubsequenceMembers<T>(a: seq<T>, b: seq<T>)
    requires IsSubsequence(a, b)
    ensures forall x :: x in a ==> x in b
    decreases |b|
  {
    if a != [] {
      if a[|a| - 1] == b[|b| - 1] {
        SubsequenceMembers(a[..|a| - 1], b[..|b| - 1]);
        forall x | x in a
          ensures x in b
        {
          if x != a[|a| - 1] {
            assert x in a[..|a| - 1];
            assert x in b[..|b| - 1];
          }
        }
      } else {
        SubsequenceMembers(a, b[..|b| - 1]);
        forall x | x in a
          ensures x in b
        {
          assert x in b[..|b| - 1];
        }
      }
    }
  }

  /** `s.filter(p)`. */
  function Filter<T(!new)>(s: seq<T>, p: T -> bool): (r: seq<T>)
    ensures |r| <= |s|
    ensures forall x :: x in r <==> x in s && p(x)
    decreases |s|
  {
    if s == [] then []
    else
      var init := Filter(s[..|s| - 1], p);
      assert forall x :: x in s <==> x in s[..|s| - 1] || x == s[|s| - 1];
      if p(s[|s| - 1]) then init + [s[|s| - 1]] else init
  }

  /** The filter keeps every occurrence of a kept element and none of the others. */
  lemma {:induction false} FilterCounts<T(!new)>(s: seq<T>, p: T -> bool)
    ensures forall x :: multiset(Filter(s, p))[x] == if p(x) then multiset(s)[x] else 0
    decreases |s|
  {
    if s != [] {
      var init, last := s[..|s| - 1], s[|s| - 1];
      FilterCounts(init, p);
      assert s == init + [last];
      assert multiset(s) == multiset(init) + multiset{last};
      if p(last) {
        assert multiset(Filter(s, p)) == multiset(Filter(init, p)) + multiset{last};
      }
    }
  }

  /** Filtering an element followed by a list: the element, if kept, then the filtered
      list. */
  lemma {:induction false} FilterCons<T(!new)>(x: T, s: seq<T>, p: T -> bool)
    ensures Filter([x] + s, p) == (if p(x) then [x] else []) + Filter(s, p)
    decreases |s|
  {
    if s != [] {
      var init, last := s[..|s| - 1], s[|s| - 1];
      var head, tail := if p(x) then [x] else [], if p(last) then [last] else [];
      var xs := [x] + s;
      assert xs[..|xs| - 1] == [x] + init && xs[|xs| - 1] == last;
      assert Filter(xs, p) == Filter([x] + init, p) + tail;
      FilterCons(x, init, p);
      assert Filter(s, p) == Filter(init, p) + tail;
      assert Filter(xs, p) == head + Filter(init, p) + tail;
      assert head + Filter(init, p) + tail == head + (Filter(init, p) + tail);
    } else {
      assert Filter([x], p) == Filter([x][..0], p) + (if p(x) then [x] else []);
    }
  }

  /** The filter keeps the order of the input. */
  lemma {:induction false} FilterIsSubsequence<T(!new)>(s: seq<T>, p: T -> bool)
    ensures IsSubsequence(Filter(s, p), s)
    decreases |s|
  {
    if s == [] {
    } else {
      FilterIsSubsequence(s[..|s| - 1], p);
      assert s == s[..|s| - 1] + [s[|s| - 1]];
      SubsequenceExtend(Filter(s[..|s| - 1], p), s[..|s| - 1], s[|s| - 1]);
    }
  }

  /** A predicate every element satisfies removes nothing. */
  lemma {:induction false} FilterKeepsAll<T(!new)>(s: seq<T>, p: T -> bool)
    requires forall i :: 0 <= i < |s| ==> p(s[i])
    ensures Filter(s, p) == s
    decreases |s|
  {
    if s != [] {
      FilterKeepsAll(s[..|s| - 1], p);
      assert s == s[..|s| - 1] + [s[|s| - 1]];
    }
  }

  /** The first element the filter keeps is the first element satisfying `p`. */
  lemma {:induction false} FilterFirst<T(!new)>(s: seq<T>, p: T -> bool)
    requires |Filter(s, p)| > 0
    ensures exists i :: 0 <= i < |s| && p(s[i]) && Filter(s, p)[0] == s[i] &&
                        forall j :: 0 <= j < i ==> !p(s[j])
    decreases |s|
  {
    var init, last := s[..|s| - 1], s[|s| - 1];
    var fi := Filter(init, p);
    assert Filter(s, p) == if p(last) then fi + [last] else fi;
    if |fi| > 0 {
      FilterFirst(init, p);
      var i :| 0 <= i < |init| && p(init[i]) && fi[0] == init[i] &&
               forall j :: 0 <= j < i ==> !p(init[j]);
      assert forall j :: 0 <= j <= i ==> s[j] == init[j];
      assert Filter(s, p)[0] == s[i];
    } else {
      forall j | 0 <= j < |s| - 1
        ensures !p(s[j])
      {
        assert s[j] == init[j] && init[j] in init && init[j] !in fi;
      }
      assert Filter(s, p)[0] == s[|s| - 1];
    }
  }

  /** `s.find(p)`: the first element satisfying `p`. */
  function Find<T>(s: seq<T>, p: T -> bool): (r: Option<T>)
    ensures r.None? <==> forall i :: 0 <= i < |s| ==> !p(s[i])
    ensures r.Some? ==> exists i :: 0 <= i < |s| && s[i] == r.value && p(s[i]) &&
                                    forall j :: 0 <= j < i ==> !p(s[j])
    decreases |s|
  {
    if s == [] then None
    else if p(s[0]) then Some(s[0])
    else
      var r := Find(s[1..], p);
      assert forall i :: 1 <= i < |s| ==> s[i] == s[1..][i - 1];
      if r.Some? then
        ghost var i :| 0 <= i < |s[1..]| && s[1..][i] == r.value && p(s[1..][i]) &&
                      forall j :: 0 <= j < i ==> !p(s[1..][j]);
        assert s[i + 1] == r.value && forall j :: 0 <= j < i + 1 ==> !p(s[j]);
        r
      else r
  }
}
