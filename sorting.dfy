/** The ordering operations of the document store and of LINQ: a stable
    insertion sort under a caller-supplied "comes no later than" relation, and sums. */
module Sorting {

  ghost predicate Total<T(!new)>(le: (T, T) -> bool) {
    forall x, y :: le(x, y) || le(y, x)
  }

  ghost predicate Transitive<T(!new)>(le: (T, T) -> bool) {
    forall x, y, z :: le(x, y) && le(y, z) ==> le(x, z)
  }

  predicate SortedBy<T>(s: seq<T>, le: (T, T) -> bool) {
    forall i, j :: 0 <= i < j < |s| ==> le(s[i], s[j])
  }

  /** x placed before the first element it comes no later than. */
  function InsertBy<T>(x: T, s: seq<T>, le: (T, T) -> bool): (r: seq<T>)
    ensures |r| == |s| + 1
    ensures multiset(r) == multiset(s) + multiset{x}
  {
    if s == [] then [x]
    else if le(x, s[0]) then [x] + s
    else
      assert s == [s[0]] + s[1..];
      [s[0]] + InsertBy(x, s[1..], le)
  }

  /** Insertion sort: the result is a permutation of s, sorted whenever le is
      a total preorder (SortBySorted), and stable (SortByStable). */
  function SortBy<T>(s: seq<T>, le: (T, T) -> bool): (r: seq<T>)
    ensures |r| == |s|
    ensures multiset(r) == multiset(s)
  {
    if s == [] then []
    else
      assert s == [s[0]] + s[1..];
      InsertBy(s[0], SortBy(s[1..], le), le)
  }

  lemma {:induction false} InsertBySorted<T(!new)>(x: T, s: seq<T>, le: (T, T) -> bool)
    requires Total(le) && Transitive(le)
    requires SortedBy(s, le)
    ensures SortedBy(InsertBy(x, s, le), le)
    decreases |s|
  {
    if s != [] && !le(x, s[0]) {
      InsertBySorted(x, s[1..], le);
      var r := InsertBy(x, s, le);
      var tail := InsertBy(x, s[1..], le);
      assert r == [s[0]] + tail;
      forall j | 0 <= j < |tail| ensures le(s[0], tail[j]) {
        assert tail[j] in multiset(tail);
        if tail[j] != x {
          assert tail[j] in multiset(s[1..]);
          var m :| 0 <= m < |s[1..]| && s[1..][m] == tail[j];
          assert s[m + 1] == tail[j];
        }
      }
    }
  }

  /** The sort's output is ordered by le. */
  lemma {:induction false} SortBySorted<T(!new)>(s: seq<T>, le: (T, T) -> bool)
    requires Total(le) && Transitive(le)
    ensures SortedBy(SortBy(s, le), le)
    decreases |s|
  {
    if s != [] {
      SortBySorted(s[1..], le);
      InsertBySorted(s[0], SortBy(s[1..], le), le);
    }
  }

  /** Enumerable.Sum(f). */
  function SumBy<T>(s: seq<T>, f: T -> real): real {
    if s == [] then 0.0 else f(s[0]) + SumBy(s[1..], f)
  }

  lemma {:induction false} SumByInsert<T>(x: T, s: seq<T>, le: (T, T) -> bool, f: T -> real)
    ensures SumBy(InsertBy(x, s, le), f) == f(x) + SumBy(s, f)
    decreases |s|
  {
    if s != [] && !le(x, s[0]) {
      SumByInsert(x, s[1..], le, f);
      assert InsertBy(x, s, le)[1..] == InsertBy(x, s[1..], le);
    } else if s != [] {
      assert InsertBy(x, s, le)[1..] == s;
    }
  }

  /** A sum does not depend on the order the sort chose. */
  lemma {:induction false} SumBySortBy<T>(s: seq<T>, le: (T, T) -> bool, f: T -> real)
    ensures SumBy(SortBy(s, le), f) == SumBy(s, f)
    decreases |s|
  {
    if s != [] {
      SumBySortBy(s[1..], le, f);
      SumByInsert(s[0], SortBy(s[1..], le), le, f);
    }
  }

  lemma {:induction false} SumByAppend<T>(a: seq<T>, b: seq<T>, f: T -> real)
    ensures SumBy(a + b, f) == SumBy(a, f) + SumBy(b, f)
  {
    if a == [] {
      assert a + b == b;
    } else {
      assert (a + b)[1..] == a[1..] + b;
      SumByAppend(a[1..], b, f);
    }
  }

  /** Enumerable.Where: the elements p accepts, in their order. */
  function Filter<T(!new)>(s: seq<T>, p: T -> bool): (r: seq<T>)
    ensures |r| <= |s|
    ensures forall x :: x in r <==> x in s && p(x)
    ensures forall x {:trigger multiset(r)[x]} :: multiset(r)[x] == if p(x) then multiset(s)[x] else 0
  {
    if s == [] then []
    else
      assert s == [s[0]] + s[1..];
      if p(s[0]) then [s[0]] + Filter(s[1..], p) else Filter(s[1..], p)
  }

  /** Inserting x into s, then keeping only elements of a set of mutual ties,
      gives x (if it is one) in front of the ties of s, in their order. */
  lemma {:induction false} InsertByFilter<T(!new)>(x: T, s: seq<T>, le: (T, T) -> bool, p: T -> bool)
    requires forall y, z :: p(y) && p(z) ==> le(y, z)
    ensures Filter(InsertBy(x, s, le), p) == (if p(x) then [x] else []) + Filter(s, p)
    decreases |s|
  {
    var xs := if p(x) then [x] else [];
    if s == [] {
      FilterCons(x, [], p);
      assert xs + [] == xs;
    } else if le(x, s[0]) {
      FilterCons(x, s, p);
    } else {
      InsertByFilter(x, s[1..], le, p);
      assert s == [s[0]] + s[1..];
      assert p(x) ==> !p(s[0]);
      InsertByFilterStep(x, s[0], s[1..], InsertBy(x, s[1..], le), p);
    }
  }

  /** The step of InsertByFilter past an element y that is not a tie of x. */
  lemma InsertByFilterStep<T(!new)>(x: T, y: T, t: seq<T>, u: seq<T>, p: T -> bool)
    requires p(x) ==> !p(y)
    requires Filter(u, p) == (if p(x) then [x] else []) + Filter(t, p)
    ensures Filter([y] + u, p) == (if p(x) then [x] else []) + Filter([y] + t, p)
  {
    FilterCons(y, u, p);
    FilterCons(y, t, p);
    if p(y) {
      assert [y] + ([] + Filter(t, p)) == [] + ([y] + Filter(t, p));
    } else {
      assert [] + Filter(u, p) == Filter(u, p);
      assert [] + Filter(t, p) == Filter(t, p);
    }
  }

  /** SortBy is stable: the elements of any set of mutual ties come out in
      their input order. */
  lemma {:induction false} SortByStable<T(!new)>(s: seq<T>, le: (T, T) -> bool, p: T -> bool)
    requires forall y, z :: p(y) && p(z) ==> le(y, z)
    ensures Filter(SortBy(s, le), p) == Filter(s, p)
    decreases |s|
  {
    if s != [] {
      SortByStable(s[1..], le, p);
      InsertByFilter(s[0], SortBy(s[1..], le), le, p);
    }
  }

  lemma FilterCons<T(!new)>(x: T, t: seq<T>, p: T -> bool)
    ensures Filter([x] + t, p) == (if p(x) then [x] else []) + Filter(t, p)
  {
    assert ([x] + t)[0] == x && ([x] + t)[1..] == t;
  }

  lemma TakeCons<T>(x: T, t: seq<T>, n: nat)
    requires n > 0
    ensures Take([x] + t, n) == [x] + Take(t, n - 1)
  {
    var r := Take([x] + t, n);
    assert r[0] == x && r[1..] == Take(t, n - 1);
  }

  /** The first n elements of s that p accepts, read off directly. */
  function FirstAccepted<T>(s: seq<T>, p: T -> bool, n: nat): seq<T>
    decreases |s|
  {
    if s == [] || n == 0 then []
    else if p(s[0]) then [s[0]] + FirstAccepted(s[1..], p, n - 1)
    else FirstAccepted(s[1..], p, n)
  }

  /** Where(p).Take(n) is the direct reading. */
  lemma {:induction false} TakeFilterIsFirstAccepted<T(!new)>(s: seq<T>, p: T -> bool, n: nat)
    ensures Take(Filter(s, p), n) == FirstAccepted(s, p, n)
    decreases |s|
  {
    if s != [] && n > 0 {
      var x, t := s[0], s[1..];
      TakeFilterIsFirstAccepted(t, p, if p(x) then n - 1 else n);
      calc {
        Take(Filter(s, p), n);
      == { assert s == [x] + t; FilterCons(x, t, p); }
        Take((if p(x) then [x] else []) + Filter(t, p), n);
      == { if p(x) { TakeCons(x, Filter(t, p), n); } else { assert [] + Filter(t, p) == Filter(t, p); } }
        (if p(x) then [x] else []) + Take(Filter(t, p), if p(x) then n - 1 else n);
        (if p(x) then [x] else []) + FirstAccepted(t, p, if p(x) then n - 1 else n);
      == { if !p(x) { assert [] + FirstAccepted(t, p, n) == FirstAccepted(t, p, n); } }
        FirstAccepted(s, p, n);
      }
    }
  }

  /** Among distinct elements, an accepted one before an element of the direct
      reading is itself in it. */
  lemma {:induction false} FirstAcceptedFirst<T>(s: seq<T>, p: T -> bool, n: nat, i: nat, j: nat)
    requires forall a, b :: 0 <= a < b < |s| ==> s[a] != s[b]
    requires i < j < |s| && s[j] in FirstAccepted(s, p, n) && p(s[i])
    ensures s[i] in FirstAccepted(s, p, n)
    decreases |s|
  {
    var t := s[1..];
    var n' := if p(s[0]) then n - 1 else n;
    var r := FirstAccepted(s, p, n);
    assert n > 0;
    assert r == (if p(s[0]) then [s[0]] else []) + FirstAccepted(t, p, n');
    if i > 0 {
      assert s[j] != s[0];
      assert s[j] == t[j - 1] && s[i] == t[i - 1];
      FirstAcceptedFirst(t, p, n', i - 1, j - 1);
    }
  }

  /** With distinct elements, the first n of those p accepts leave out no
      accepted element that comes before one they hold. */
  lemma TakeFilterFirst<T(!new)>(s: seq<T>, p: T -> bool, n: nat)
    requires forall i, j :: 0 <= i < j < |s| ==> s[i] != s[j]
    ensures var r := Take(Filter(s, p), n);
      forall i, j :: 0 <= i < j < |s| && s[j] in r && p(s[i]) ==> s[i] in r
  {
    TakeFilterIsFirstAccepted(s, p, n);
    forall i, j | 0 <= i < j < |s| && s[j] in Take(Filter(s, p), n) && p(s[i])
      ensures s[i] in Take(Filter(s, p), n)
    {
      FirstAcceptedFirst(s, p, n, i, j);
    }
  }

  /** Enumerable.Take: the first n elements, or all of them. */
  function Take<T>(s: seq<T>, n: nat): (r: seq<T>)
    ensures |r| == if |s| < n then |s| else n
    ensures r == s[..|r|]
  {
    if |s| <= n then s else s[..n]
  }

  /** A prefix of a sorted sequence is sorted, comes no later than every element
      after it, and together with the rest makes up the whole. */
  lemma TakeSorted<T>(s: seq<T>, n: nat, le: (T, T) -> bool)
    requires SortedBy(s, le)
    ensures var r := Take(s, n);
      && SortedBy(r, le)
      && (forall i, j :: 0 <= i < |r| <= j < |s| ==> le(r[i], s[j]))
      && multiset(r) + multiset(s[|r|..]) == multiset(s)
  {
    var r := Take(s, n);
    assert s == r + s[|r|..];
    forall i, j | 0 <= i < |r| <= j < |s| ensures le(r[i], s[j]) {
      assert r[i] == s[i];
    }
  }

  /** r is a subsequence of s: its elements occur in s in the same order. */
  predicate Embeds<T(==)>(r: seq<T>, s: seq<T>)
    decreases |s|
  {
    if r == [] then true
    else if s == [] then false
    else if r[0] == s[0] then Embeds(r[1..], s[1..])
    else Embeds(r, s[1..])
  }

  lemma {:induction false} FilterEmbeds<T(!new)>(s: seq<T>, p: T -> bool)
    ensures Embeds(Filter(s, p), s)
    decreases |s|
  {
    if s != [] {
      FilterEmbeds(s[1..], p);
    }
  }

  lemma {:induction false} EmbedsPrefix<T>(r: seq<T>, s: seq<T>, n: nat)
    requires n <= |r| && Embeds(r, s)
    ensures Embeds(r[..n], s)
    decreases |s|
  {
    if n > 0 {
      if r[0] == s[0] {
        assert r[..n][1..] == r[1..][..n - 1];
        EmbedsPrefix(r[1..], s[1..], n - 1);
      } else {
        EmbedsPrefix(r, s[1..], n);
      }
    }
  }
}
