/** `Array.prototype.sort` with a comparator, as the list screens use it on
    the arrays the backend returns: the array is reordered in place. */
module Sorting {
  import opened Text

  /** `le` is total and transitive: what a sort comparator must be. */
  ghost predicate TotalPreorder<T(!new)>(le: (T, T) -> bool)
  {
    && (forall x, y :: le(x, y) || le(y, x))
    && (forall x, y, z :: le(x, y) && le(y, z) ==> le(x, z))
  }

  ghost predicate SortedBy<T>(s: seq<T>, le: (T, T) -> bool)
  {
    forall i, j :: 0 <= i < j < |s| ==> le(s[i], s[j])
  }

  /** `x` and `y` tie under `le`: neither comes before the other. */
  predicate Tie<T>(le: (T, T) -> bool, x: T, y: T)
  {
    le(x, y) && le(y, x)
  }

  /** `t` is `s` rearranged by `perm`: `t[k]` is `s[perm[k]]`, every position of `s`
      is used once, and elements that tie under `le` keep their relative order. */
  ghost predicate StableReordering<T>(s: seq<T>, t: seq<T>, perm: seq<int>, le: (T, T) -> bool)
  {
    && |perm| == |t| == |s|
    && (forall k :: 0 <= k < |t| ==> 0 <= perm[k] < |s| && t[k] == s[perm[k]])
    && (forall p, q :: 0 <= p < q < |t| ==> perm[p] != perm[q])
    && (forall p, q :: 0 <= p < q < |t| && Tie(le, t[p], t[q]) ==> perm[p] < perm[q])
  }

  /** `t` is a stable rearrangement of `s`, as a stable sort produces. */
  ghost predicate Stable<T>(s: seq<T>, t: seq<T>, le: (T, T) -> bool)
  {
    exists perm :: StableReordering(s, t, perm, le)
  }

  /** The first `n` elements of `t` are ordered by `le`. */
  ghost predicate SortedPrefix<T>(t: seq<T>, n: int, le: (T, T) -> bool)
  {
    forall p, q :: 0 <= p < q < n && q < |t| ==> le(t[p], t[q])
  }

  /** Insertion-sort bookkeeping: `t[k]` is `s[perm[k]]`; the first `n` positions
      hold elements of `s[..n]` with ties in their original order, and the rest are
      still in place. */
  ghost predicate StablePrefix<T>(s: seq<T>, t: seq<T>, perm: seq<int>, n: int, le: (T, T) -> bool)
  {
    && 0 <= n <= |t|
    && |perm| == |t| == |s|
    && (forall k :: 0 <= k < |t| ==> 0 <= perm[k] < |t| && t[k] == s[perm[k]])
    && (forall k :: 0 <= k < n ==> perm[k] < n)
    && (forall k :: n <= k < |t| ==> perm[k] == k)
    && (forall p, q :: 0 <= p < q < n && Tie(le, t[p], t[q]) ==> perm[p] < perm[q])
  }

  /** The state of the insertion of element `i`, now at position `j`: the others in
      `t[..i + 1]` are ordered and keep their ties in order, and everything between
      `j` and `i` comes strictly after the moving element, which came from `s[i]`. */
  ghost predicate Inserting<T>(s: seq<T>, t: seq<T>, perm: seq<int>, i: int, j: int, le: (T, T) -> bool)
  {
    && 0 <= j <= i < |t|
    && |perm| == |t| == |s|
    && (forall p, q :: 0 <= p < q <= i && p != j && q != j ==> le(t[p], t[q]))
    && (forall q :: j < q <= i ==> !le(t[q], t[j]))
    && (forall k :: 0 <= k < |t| ==> 0 <= perm[k] < |t| && t[k] == s[perm[k]])
    && perm[j] == i
    && (forall k :: 0 <= k <= i && k != j ==> perm[k] < i)
    && (forall k :: i < k < |t| ==> perm[k] == k)
    && (forall p, q :: 0 <= p < q <= i && p != j && q != j && Tie(le, t[p], t[q]) ==> perm[p] < perm[q])
  }

  /** `t` with positions `j - 1` and `j` exchanged. */
  function SwapDown<U>(t: seq<U>, j: int): (r: seq<U>)
    requires 0 < j < |t|
    ensures |r| == |t| && r[j - 1] == t[j] && r[j] == t[j - 1]
    ensures forall k :: 0 <= k < |t| && k != j - 1 && k != j ==> r[k] == t[k]
  {
    t[j - 1 := t[j]][j := t[j - 1]]
  }

  lemma StartInserting<T>(s: seq<T>, t: seq<T>, perm: seq<int>, i: int, le: (T, T) -> bool)
    requires i < |t| && SortedPrefix(t, i, le) && StablePrefix(s, t, perm, i, le)
    ensures Inserting(s, t, perm, i, i, le)
  {
  }

  /** Moving the element past a strictly greater neighbour keeps the bookkeeping. */
  lemma SwapKeepsInserting<T>(s: seq<T>, t: seq<T>, perm: seq<int>, i: int, j: int, le: (T, T) -> bool)
    requires Inserting(s, t, perm, i, j, le) && 0 < j && !le(t[j - 1], t[j])
    ensures Inserting(s, SwapDown(t, j), SwapDown(perm, j), i, j - 1, le)
  {
  }

  /** Once the moving element's left neighbour is not after it, `t[..i + 1]` is
      ordered and ties are in their original order. */
  lemma InsertedIsSorted<T(!new)>(s: seq<T>, t: seq<T>, perm: seq<int>, i: int, j: int, le: (T, T) -> bool)
    requires TotalPreorder(le) && Inserting(s, t, perm, i, j, le) && (j == 0 || le(t[j - 1], t[j]))
    ensures SortedPrefix(t, i + 1, le) && StablePrefix(s, t, perm, i + 1, le)
  {
  }

  /** Before sorting, every element is in place. */
  lemma StartSorting<T>(s: seq<T>, le: (T, T) -> bool)
    ensures SortedPrefix(s, 0, le) && StablePrefix(s, s, seq(|s|, k => k), 0, le)
  {
  }

  /** A fully sorted prefix is a sorted, stable rearrangement; ties keep their order,
      so no two positions take the same original element. */
  lemma SortedAndStable<T(!new)>(s: seq<T>, t: seq<T>, perm: seq<int>, le: (T, T) -> bool)
    requires TotalPreorder(le) && SortedPrefix(t, |t|, le) && StablePrefix(s, t, perm, |t|, le)
    ensures SortedBy(t, le) && StableReordering(s, t, perm, le) && Stable(s, t, le)
  {
    forall p, q | 0 <= p < q < |t|
      ensures perm[p] != perm[q]
    {
      assert perm[p] == perm[q] ==> Tie(le, t[p], t[q]);
    }
    assert StableReordering(s, t, perm, le);
  }

  /** Sorts `a` in place by `le` (insertion sort): afterwards `a` is ordered,
      holds the same elements as before, and keeps tied elements in their order. */
  method SortInPlace<T(!new)>(a: array<T>, le: (T, T) -> bool)
    requires TotalPreorder(le)
    modifies a
    ensures SortedBy(a[..], le)
    ensures multiset(a[..]) == old(multiset(a[..]))
    ensures Stable(old(a[..]), a[..], le)
  {
    ghost var s := a[..];
    ghost var perm := seq(a.Length, k => k);
    StartSorting(s, le);
    var i := 0;
    while i < a.Length
      invariant 0 <= i <= a.Length
      invariant SortedPrefix(a[..], i, le)
      invariant multiset(a[..]) == multiset(s)
      invariant StablePrefix(s, a[..], perm, i, le)
    {
      perm := InsertAt(a, i, le, s, perm);
      i := i + 1;
    }
    SortedAndStable(s, a[..], perm, le);
  }

  /** Moves `a[i]` down into the ordered prefix `a[..i]`, past the elements strictly
      after it, so that `a[..i + 1]` is ordered and ties stay in order. */
  method InsertAt<T(!new)>(a: array<T>, i: int, le: (T, T) -> bool, ghost s: seq<T>, ghost perm: seq<int>)
      returns (ghost perm': seq<int>)
    requires TotalPreorder(le)
    requires 0 <= i < a.Length && SortedPrefix(a[..], i, le) && StablePrefix(s, a[..], perm, i, le)
    modifies a
    ensures SortedPrefix(a[..], i + 1, le) && StablePrefix(s, a[..], perm', i + 1, le)
    ensures multiset(a[..]) == old(multiset(a[..]))
  {
    perm' := perm;
    var j := i;
    StartInserting(s, a[..], perm, i, le);
    while 0 < j && !le(a[j - 1], a[j])
      invariant Inserting(s, a[..], perm', i, j, le)
      invariant multiset(a[..]) == old(multiset(a[..]))
    {
      SwapKeepsInserting(s, a[..], perm', i, j, le);
      Swap(a, j);
      perm' := SwapDown(perm', j);
      j := j - 1;
    }
    InsertedIsSorted(s, a[..], perm', i, j, le);
  }

  /** Exchanges `a[j - 1]` and `a[j]`. */
  method Swap<T>(a: array<T>, j: int)
    requires 0 < j < a.Length
    modifies a
    ensures a[..] == SwapDown(old(a[..]), j)
    ensures multiset(a[..]) == old(multiset(a[..]))
  {
    a[j - 1], a[j] := a[j], a[j - 1];
  }

  /** The comparator `(a, b) => name(a).localeCompare(name(b))` used to sort lists by a name. */
  function ByName<T>(name: T -> string): (T, T) -> bool
  {
    (x: T, y: T) => NameLe(name(x), name(y))
  }

  lemma ByNameIsTotalPreorder<T(!new)>(name: T -> string)
    ensures TotalPreorder(ByName(name))
  {
    forall x: T, y: T ensures ByName(name)(x, y) || ByName(name)(y, x) {
      NameLeTotal(name(x), name(y));
    }
    forall x: T, y: T, z: T | ByName(name)(x, y) && ByName(name)(y, z) ensures ByName(name)(x, z) {
      NameLeTransitive(name(x), name(y), name(z));
    }
  }

  /** `s` is in ascending order of `name`. */
  predicate SortedByName<T>(s: seq<T>, name: T -> string)
  {
    forall i, j :: 0 <= i < j < |s| ==> NameLe(name(s[i]), name(s[j]))
  }

  /** Under the name comparator, two elements tie exactly when their names are equal. */
  lemma ByNameTies<T>(name: T -> string, x: T, y: T)
    ensures Tie(ByName(name), x, y) <==> name(x) == name(y)
  {
    NameLeTotal(name(x), name(x));
    if Tie(ByName(name), x, y) {
      NameLeAntisymmetric(name(x), name(y));
    }
  }

  /** `a.sort((x, y) => name(x).localeCompare(name(y)))`, as the list screens
      apply it to the arrays they fetch; elements with equal names keep their order. */
  method SortByName<T(!new)>(a: array<T>, name: T -> string)
    modifies a
    ensures SortedByName(a[..], name)
    ensures multiset(a[..]) == old(multiset(a[..]))
    ensures Stable(old(a[..]), a[..], ByName(name))
  {
    ByNameIsTotalPreorder(name);
    SortInPlace(a, ByName(name));
    assert SortedBy(a[..], ByName(name));
  }
}
