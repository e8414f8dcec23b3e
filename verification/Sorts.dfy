/** Stable insertion sort by any strict weak order: what Go's sort functions are used for. */
module Sorts {

  /** `before` orders like a strict comparison of some rank. */
  ghost predicate Ordering<T(!new)>(before: (T, T) -> bool) {
    && (forall a, b :: before(a, b) ==> !before(b, a))
    && (forall a, b, c :: !before(b, a) && !before(c, b) ==> !before(c, a))
  }

  ghost predicate Sorted<T>(s: seq<T>, before: (T, T) -> bool) {
    forall i, j :: 0 <= i < j < |s| ==> !before(s[j], s[i])
  }

  ghost predicate Distinct<T>(s: seq<T>) {
    forall i, j :: 0 <= i < j < |s| ==> s[i] != s[j]
  }

  /** Puts `x` behind everything that is not after it. */
  function Insert<T>(s: seq<T>, x: T, before: (T, T) -> bool): (r: seq<T>)
    ensures multiset(r) == multiset(s) + multiset{x}
  {
    if s == [] then [x]
    else
      assert s == s[..|s| - 1] + [s[|s| - 1]];
      if before(x, s[|s| - 1]) then Insert(s[..|s| - 1], x, before) + [s[|s| - 1]] else s + [x]
  }

  function Sort<T>(s: seq<T>, before: (T, T) -> bool): (r: seq<T>)
    ensures multiset(r) == multiset(s)
  {
    if s == [] then []
    else
      assert s == s[..|s| - 1] + [s[|s| - 1]];
      Insert(Sort(s[..|s| - 1], before), s[|s| - 1], before)
  }

  lemma {:induction false} InsertSorts<T(!new)>(s: seq<T>, x: T, before: (T, T) -> bool)
    requires Ordering(before) && Sorted(s, before)
    ensures Sorted(Insert(s, x, before), before)
  {
    if s != [] && before(x, s[|s| - 1]) {
      var front, last := s[..|s| - 1], s[|s| - 1];
      var r := Insert(front, x, before);
      InsertSorts(front, x, before);
      forall i | 0 <= i < |r|
        ensures !before(last, r[i])
      {
        assert r[i] in multiset(front) + multiset{x};
      }
    } else if s != [] {
      forall i | 0 <= i < |s|
        ensures !before(x, s[i])
      {
        assert !before(s[|s| - 1], s[i]);
      }
    }
  }

  lemma {:induction false} SortSorts<T(!new)>(s: seq<T>, before: (T, T) -> bool)
    requires Ordering(before)
    ensures Sorted(Sort(s, before), before)
  {
    if s != [] {
      SortSorts(s[..|s| - 1], before);
      InsertSorts(Sort(s[..|s| - 1], before), s[|s| - 1], before);
    }
  }

  lemma SameMembers<T>(a: seq<T>, b: seq<T>)
    requires multiset(a) == multiset(b)
    ensures |a| == |b| && forall x :: x in a <==> x in b
  {
    assert |multiset(a)| == |multiset(b)|;
    assert forall x :: x in a <==> x in multiset(a);
    assert forall x :: x in b <==> x in multiset(b);
  }

  lemma OnceEach<T>(s: seq<T>, i: nat, j: nat)
    requires i < j < |s| && multiset(s)[s[i]] <= 1
    ensures s[i] != s[j]
  {
    assert s == s[..j] + [s[j]] + s[j + 1..];
    assert s[i] in s[..j];
    assert multiset(s) == multiset(s[..j]) + multiset{s[j]} + multiset(s[j + 1..]);
  }

  lemma {:induction false} DistinctOnce<T>(s: seq<T>, x: T)
    requires Distinct(s)
    ensures multiset(s)[x] <= 1
  {
    if s != [] {
      DistinctOnce(s[1..], x);
      assert s == [s[0]] + s[1..];
      assert s[0] !in s[1..];
    }
  }

  /** Sorting keeps the members, and keeps distinct members distinct. */
  lemma SortKeeps<T>(s: seq<T>, before: (T, T) -> bool)
    ensures |Sort(s, before)| == |s| && forall x :: x in Sort(s, before) <==> x in s
    ensures Distinct(s) ==> Distinct(Sort(s, before))
  {
    var r := Sort(s, before);
    SameMembers(r, s);
    if Distinct(s) {
      forall i, j | 0 <= i < j < |r|
        ensures r[i] != r[j]
      {
        DistinctOnce(s, r[i]);
        OnceEach(r, i, j);
      }
    }
  }

  // ----- stability

  /** The element as a list, if it ranks like `x`. */
  function PeerOf<T>(y: T, x: T, before: (T, T) -> bool): seq<T> {
    if !before(x, y) && !before(y, x) then [y] else []
  }

  /** The elements that rank like `x`, in order. */
  function Peers<T>(s: seq<T>, x: T, before: (T, T) -> bool): seq<T> {
    if s == [] then [] else Peers(s[..|s| - 1], x, before) + PeerOf(s[|s| - 1], x, before)
  }

  lemma PeersAppend<T>(s: seq<T>, y: T, x: T, before: (T, T) -> bool)
    ensures Peers(s + [y], x, before) == Peers(s, x, before) + PeerOf(y, x, before)
  {
    assert (s + [y])[..|s|] == s;
  }

  /** Of two elements that one puts before the other, at most one ranks like `x`. */
  lemma NotBothPeers<T(!new)>(y: T, last: T, x: T, before: (T, T) -> bool)
    requires Ordering(before) && before(y, last)
    ensures PeerOf(last, x, before) == [] || PeerOf(y, x, before) == []
  {
  }

  lemma SwapWithNone<T>(a: seq<T>, b: seq<T>, c: seq<T>)
    requires b == [] || c == []
    ensures a + b + c == a + c + b
  {
  }

  lemma {:induction false} PeersInsert<T(!new)>(s: seq<T>, y: T, x: T, before: (T, T) -> bool)
    requires Ordering(before)
    ensures Peers(Insert(s, y, before), x, before) == Peers(s, x, before) + PeerOf(y, x, before)
  {
    if s == [] || !before(y, s[|s| - 1]) {
      PeersAppend(s, y, x, before);
      assert Insert(s, y, before) == s + [y];
    } else {
      var front, last := s[..|s| - 1], s[|s| - 1];
      var r := Insert(front, y, before);
      assert Insert(s, y, before) == r + [last]
        && Peers(s, x, before) == Peers(front, x, before) + PeerOf(last, x, before);
      hide Peers, Insert, PeerOf, Ordering;
      PeersInsert(front, y, x, before);
      PeersAppend(r, last, x, before);
      NotBothPeers(y, last, x, before);
      SwapWithNone(Peers(front, x, before), PeerOf(y, x, before), PeerOf(last, x, before));
    }
  }

  /** The sort is stable: elements that rank alike keep their order. */
  lemma {:induction false} SortStable<T(!new)>(s: seq<T>, x: T, before: (T, T) -> bool)
    requires Ordering(before)
    ensures Peers(Sort(s, before), x, before) == Peers(s, x, before)
  {
    if s != [] {
      SortStable(s[..|s| - 1], x, before);
      PeersInsert(Sort(s[..|s| - 1], before), s[|s| - 1], x, before);
    }
  }

  // ----- uniqueness

  ghost predicate Ascends<T>(s: seq<T>, before: (T, T) -> bool) {
    forall i, j :: 0 <= i < j < |s| ==> before(s[i], s[j])
  }

  lemma AscendsTail<T(!new)>(s: seq<T>, before: (T, T) -> bool)
    requires Ordering(before) && Ascends(s, before) && s != []
    ensures s == [s[0]] + s[1..] && Ascends(s[1..], before)
    ensures forall x :: x in s[1..] <==> x in s && x != s[0]
    ensures forall x :: x in s ==> x == s[0] || before(s[0], x)
  {
  }

  lemma FirstMember<T>(a: seq<T>, b: seq<T>)
    requires a != [] && forall x :: x in a ==> x in b
    ensures b != [] && a[0] in b
  {
    assert a[0] in b;
  }

  /** Strictly ascending lists with the same members are equal, so a set has one sorted listing and an unstable sort of
      elements of different rank has one result. */
  lemma {:induction false} AscendingUnique<T(!new)>(a: seq<T>, b: seq<T>, before: (T, T) -> bool)
    requires Ordering(before) && Ascends(a, before) && Ascends(b, before)
    requires forall x :: x in a <==> x in b
    ensures a == b
  {
    if a != [] {
      FirstMember(a, b);
    }
    if b != [] {
      FirstMember(b, a);
    }
    if a != [] && b != [] {
      AscendsTail(a, before);
      AscendsTail(b, before);
      AscendingUnique(a[1..], b[1..], before);
    }
  }
}
