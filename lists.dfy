/** The list derivations the screens build with `Array.prototype.filter`:
    keeping the elements that satisfy a test, in their original order. */
module Lists {
  import opened Text

  /** `a` can be obtained from `b` by deleting elements: order is preserved. */
  predicate IsSubsequence<T(==)>(a: seq<T>, b: seq<T>)
    decreases |b|
  {
    if a == [] then true
    else if b == [] then false
    else (a[0] == b[0] && IsSubsequence(a[1..], b[1..])) || IsSubsequence(a, b[1..])
  }

  lemma {:induction false} SubsequenceReflexive<T>(s: seq<T>)
    ensures IsSubsequence(s, s)
  {
    if s != [] {
      SubsequenceReflexive(s[1..]);
    }
  }

  /** `s.filter(p)`: the elements of `s` that pass `p`, in order. */
  function Filter<T>(s: seq<T>, p: T -> bool): (r: seq<T>)
    ensures |r| <= |s|
    ensures forall i :: 0 <= i < |r| ==> p(r[i]) && r[i] in s
    ensures forall i :: 0 <= i < |s| && p(s[i]) ==> s[i] in r
    ensures IsSubsequence(r, s)
  {
    if s == [] then []
    else if p(s[0]) then [s[0]] + Filter(s[1..], p)
    else Filter(s[1..], p)
  }

  /** One step of the filter: the head is kept exactly when it passes. */
  lemma FilterCons<T>(s: seq<T>, p: T -> bool)
    requires s != []
    ensures Filter(s, p) == (if p(s[0]) then [s[0]] else []) + Filter(s[1..], p)
  {
  }

  /** Filtering by a test and by its negation splits a list without losing or duplicating anything. */
  lemma {:induction false} FilterPartition<T>(s: seq<T>, p: T -> bool, q: T -> bool)
    requires forall x :: q(x) <==> !p(x)
    ensures multiset(Filter(s, p)) + multiset(Filter(s, q)) == multiset(s)
    ensures |Filter(s, p)| + |Filter(s, q)| == |s|
  {
    if s != [] {
      FilterPartition(s[1..], p, q);
      assert s == [s[0]] + s[1..];
    }
  }

  /** Three tests of which every element passes exactly one split a list the same way. */
  lemma {:induction false} FilterThreeWay<T>(s: seq<T>, p: T -> bool, q: T -> bool, r: T -> bool)
    requires forall x :: (p(x) && !q(x) && !r(x)) || (!p(x) && q(x) && !r(x)) || (!p(x) && !q(x) && r(x))
    ensures multiset(Filter(s, p)) + multiset(Filter(s, q)) + multiset(Filter(s, r)) == multiset(s)
    ensures |Filter(s, p)| + |Filter(s, q)| + |Filter(s, r)| == |s|
  {
    if s != [] {
      FilterThreeWay(s[1..], p, q, r);
      FilterThreeWayStep(s, p, q, r);
      assert s == [s[0]] + s[1..];
    }
  }

  /** The head of a list goes to exactly one of the three filters. */
  lemma FilterThreeWayStep<T>(s: seq<T>, p: T -> bool, q: T -> bool, r: T -> bool)
    requires s != []
    requires forall x :: (p(x) && !q(x) && !r(x)) || (!p(x) && q(x) && !r(x)) || (!p(x) && !q(x) && r(x))
    ensures multiset(Filter(s, p)) + multiset(Filter(s, q)) + multiset(Filter(s, r))
            == multiset{s[0]} + (multiset(Filter(s[1..], p)) + multiset(Filter(s[1..], q)) + multiset(Filter(s[1..], r)))
    ensures |Filter(s, p)| + |Filter(s, q)| + |Filter(s, r)|
            == 1 + (|Filter(s[1..], p)| + |Filter(s[1..], q)| + |Filter(s[1..], r)|)
  {
    FilterCons(s, p);
    FilterCons(s, q);
    FilterCons(s, r);
  }

  /** A list whose every element passes the test comes through the filter whole. */
  lemma {:induction false} FilterAll<T>(s: seq<T>, p: T -> bool)
    requires forall x :: x in s ==> p(x)
    ensures Filter(s, p) == s
  {
    if s != [] {
      FilterAll(s[1..], p);
      assert s == [s[0]] + s[1..];
    }
  }

  /** The search box of the list screens: an empty search shows every element,
      otherwise those whose name includes the search text, in order. */
  function Search<T>(s: seq<T>, search: string, name: T -> string): (r: seq<T>)
    ensures search == "" ==> r == s
    ensures search != "" ==> forall i :: 0 <= i < |r| ==> Contains(name(r[i]), search)
    ensures search != "" ==> forall i :: 0 <= i < |s| && Contains(name(s[i]), search) ==> s[i] in r
    ensures IsSubsequence(r, s)
  {
    if search == "" then (SubsequenceReflexive(s); s)
    else Filter(s, x => Contains(name(x), search))
  }

  /** `findIndex(p)`: the first position whose element passes `p`, or -1 when none does. */
  function FindIndex<T>(s: seq<T>, p: T -> bool): (r: int)
    ensures -1 <= r < |s|
    ensures r == -1 <==> forall j :: 0 <= j < |s| ==> !p(s[j])
    ensures r >= 0 ==> p(s[r]) && forall j :: 0 <= j < r ==> !p(s[j])
  {
    if s == [] then -1
    else if p(s[0]) then 0
    else var k := FindIndex(s[1..], p); if k == -1 then -1 else k + 1
  }
}
