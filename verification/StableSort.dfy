/** Stable sorting by a comparator: a sorted permutation in which tied elements keep their order. */
module StableSort {
  /** A strict order in which ties are transitive. */
  ghost predicate StrictWeak<T(!new)>(before: (T, T) -> bool) {
    && (forall a, b :: !(before(a, b) && before(b, a)))
    && (forall a, b, c :: !before(a, b) && !before(b, c) ==> !before(a, c))
  }

  /** Stable insertion: ahead of the first element that is not before it. */
  function PutFirst<T>(x: T, s: seq<T>, before: (T, T) -> bool): (r: seq<T>)
    ensures |r| == |s| + 1
  {
    if s == [] || !before(s[0], x) then [x] + s else [s[0]] + PutFirst(x, s[1..], before)
  }

  function SortStable<T>(s: seq<T>, before: (T, T) -> bool): (r: seq<T>)
    ensures |r| == |s|
  {
    if s == [] then [] else PutFirst(s[0], SortStable(s[1..], before), before)
  }

  ghost predicate SortedBy<T>(s: seq<T>, before: (T, T) -> bool) {
    forall i, j :: 0 <= i < j < |s| ==> !before(s[j], s[i])
  }

  lemma {:induction false} PutKeeps<T>(x: T, s: seq<T>, before: (T, T) -> bool)
    ensures multiset(PutFirst(x, s, before)) == multiset{x} + multiset(s)
  {
    if s != [] {
      assert s == [s[0]] + s[1..];
      PutKeeps(x, s[1..], before);
    }
  }

  /** Sorting keeps the elements. */
  lemma {:induction false} SortKeeps<T>(s: seq<T>, before: (T, T) -> bool)
    ensures multiset(SortStable(s, before)) == multiset(s)
  {
    if s != [] {
      assert s == [s[0]] + s[1..];
      SortKeeps(s[1..], before);
      PutKeeps(s[0], SortStable(s[1..], before), before);
    }
  }

  lemma {:induction false} PutSorted<T(!new)>(x: T, s: seq<T>, before: (T, T) -> bool)
    requires StrictWeak(before) && SortedBy(s, before)
    ensures SortedBy(PutFirst(x, s, before), before)
  {
    if s != [] {
      if before(s[0], x) {
        PutSorted(x, s[1..], before);
        PutKeeps(x, s[1..], before);
        HeadFirst(s[0], PutFirst(x, s[1..], before), x, s[1..], before);
      } else {
        HeadStays(x, s, before);
      }
    }
  }

  lemma HeadFirst<T(!new)>(h: T, rest: seq<T>, x: T, tail: seq<T>, before: (T, T) -> bool)
    requires StrictWeak(before) && SortedBy(rest, before) && multiset(rest) == multiset{x} + multiset(tail)
    requires before(h, x) && forall i :: 0 <= i < |tail| ==> !before(tail[i], h)
    ensures SortedBy([h] + rest, before)
  {
    forall j | 0 <= j < |rest|
      ensures !before(rest[j], h)
    {
      assert rest[j] in multiset(rest);
      if rest[j] != x {
        assert rest[j] in tail;
      }
    }
  }

  lemma HeadStays<T(!new)>(x: T, s: seq<T>, before: (T, T) -> bool)
    requires StrictWeak(before) && SortedBy(s, before) && s != [] && !before(s[0], x)
    ensures SortedBy([x] + s, before)
  {
    forall j | 0 <= j < |s|
      ensures !before(s[j], x)
    {
      assert j > 0 ==> !before(s[j], s[0]);
    }
  }

  /** The result is in order. */
  lemma {:induction false} SortIsSorted<T(!new)>(s: seq<T>, before: (T, T) -> bool)
    requires StrictWeak(before)
    ensures SortedBy(SortStable(s, before), before)
  {
    if s != [] {
      SortIsSorted(s[1..], before);
      PutSorted(s[0], SortStable(s[1..], before), before);
    }
  }

  predicate Tie<T>(x: T, y: T, before: (T, T) -> bool) {
    !before(x, y) && !before(y, x)
  }

  function OneTie<T>(x: T, y: T, before: (T, T) -> bool): (r: seq<T>) {
    if Tie(x, y, before) then [y] else []
  }

  /** The elements tied with `x`, in their order. */
  function TiesWith<T>(x: T, s: seq<T>, before: (T, T) -> bool): (r: seq<T>) {
    if s == [] then [] else OneTie(x, s[0], before) + TiesWith(x, s[1..], before)
  }

  lemma TiesCons<T>(y: T, h: T, t: seq<T>, before: (T, T) -> bool)
    ensures TiesWith(y, [h] + t, before) == OneTie(y, h, before) + TiesWith(y, t, before)
  {
    assert ([h] + t)[1..] == t;
  }

  lemma NotBothTied<T(!new)>(y: T, a: T, b: T, before: (T, T) -> bool)
    requires StrictWeak(before) && before(a, b)
    ensures OneTie(y, a, before) == [] || OneTie(y, b, before) == []
  {
  }

  lemma {:induction false} PutStable<T(!new)>(x: T, s: seq<T>, y: T, before: (T, T) -> bool)
    requires StrictWeak(before)
    ensures TiesWith(y, PutFirst(x, s, before), before) == OneTie(y, x, before) + TiesWith(y, s, before)
  {
    hide StrictWeak, OneTie, TiesWith;
    if s == [] || !before(s[0], x) {
      TiesCons(y, x, s, before);
    } else {
      var h, t := s[0], s[1..];
      assert s == [h] + t;
      PutStable(x, t, y, before);
      TiesCons(y, h, t, before);
      TiesCons(y, h, PutFirst(x, t, before), before);
      NotBothTied(y, h, x, before);
    }
  }

  /** Tied elements keep their order. */
  lemma {:induction false} SortIsStable<T(!new)>(s: seq<T>, y: T, before: (T, T) -> bool)
    requires StrictWeak(before)
    ensures TiesWith(y, SortStable(s, before), before) == TiesWith(y, s, before)
  {
    if s != [] {
      SortIsStable(s[1..], y, before);
      PutStable(s[0], SortStable(s[1..], before), y, before);
    }
  }

  /** A sorted permutation of `s` with ties in the order of `s`. */
  ghost predicate StablySorted<T(!new)>(r: seq<T>, s: seq<T>, before: (T, T) -> bool) {
    multiset(r) == multiset(s) && SortedBy(r, before) && forall y :: TiesWith(y, r, before) == TiesWith(y, s, before)
  }

  lemma SortIsStablySorted<T(!new)>(s: seq<T>, before: (T, T) -> bool)
    requires StrictWeak(before)
    ensures StablySorted(SortStable(s, before), s, before)
  {
    hide SortStable, TiesWith;
    SortKeeps(s, before);
    SortIsSorted(s, before);
    forall y
      ensures TiesWith(y, SortStable(s, before), before) == TiesWith(y, s, before)
    {
      SortIsStable(s, y, before);
    }
  }

  /** The first of the least elements. */
  ghost predicate IsFirstLeast<T>(s: seq<T>, before: (T, T) -> bool, i: nat) {
    i < |s| && forall j :: 0 <= j < |s| ==> !before(s[j], s[i]) && (j < i ==> before(s[i], s[j]))
  }

  /** The head of a sorted list is the first of its least elements. */
  lemma {:induction false} HeadIsFirstLeast<T(!new)>(s: seq<T>, before: (T, T) -> bool) returns (i: nat)
    requires s != [] && StrictWeak(before)
    ensures IsFirstLeast(s, before, i) && SortStable(s, before)[0] == s[i]
  {
    i := 0;
    var x, t := s[0], s[1..];
    if t != [] {
      var k := HeadIsFirstLeast(t, before);
      HeadOfPut(x, t, before);
      if before(t[k], x) {
        i := k + 1;
        LeastLater(s, before, k);
      } else {
        LeastNow(s, before, k);
      }
    }
  }

  lemma HeadOfPut<T>(x: T, t: seq<T>, before: (T, T) -> bool)
    requires t != []
    ensures SortStable([x] + t, before)[0] == if before(SortStable(t, before)[0], x) then SortStable(t, before)[0] else x
  {
    assert ([x] + t)[1..] == t;
  }

  lemma LeastLater<T(!new)>(s: seq<T>, before: (T, T) -> bool, k: nat)
    requires StrictWeak(before) && s != [] && IsFirstLeast(s[1..], before, k) && before(s[1..][k], s[0])
    ensures IsFirstLeast(s, before, k + 1)
  {
    forall j | 0 <= j < |s|
      ensures !before(s[j], s[k + 1]) && (j < k + 1 ==> before(s[k + 1], s[j]))
    {
      if j > 0 {
        assert s[j] == s[1..][j - 1];
      }
    }
  }

  lemma LeastNow<T(!new)>(s: seq<T>, before: (T, T) -> bool, k: nat)
    requires StrictWeak(before) && s != [] && IsFirstLeast(s[1..], before, k) && !before(s[1..][k], s[0])
    ensures IsFirstLeast(s, before, 0)
  {
    forall j | 0 <= j < |s|
      ensures !before(s[j], s[0])
    {
      if j > 0 {
        assert s[j] == s[1..][j - 1] && !before(s[j], s[1..][k]);
      }
    }
  }
}
