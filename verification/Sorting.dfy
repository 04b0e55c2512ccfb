/**
  The library's stable sort. `SortBy` is one algorithm; `StableSortIsUnique` shows that every
  sorted result that keeps tied elements in order equals it, so nothing depends on the choice.
*/
module Sorting {
  import opened Values

  ghost predicate TotalPreorder<T(!new)>(le: (T, T) -> bool) {
    && (forall x, y :: le(x, y) || le(y, x))
    && (forall x, y, z :: le(x, y) && le(y, z) ==> le(x, z))
  }

  function Insert<T>(le: (T, T) -> bool, x: T, ys: seq<T>): seq<T> {
    if ys == [] || le(x, ys[0]) then [x] + ys else [ys[0]] + Insert(le, x, ys[1..])
  }

  function SortBy<T>(le: (T, T) -> bool, xs: seq<T>): seq<T> {
    if xs == [] then [] else Insert(le, xs[0], SortBy(le, xs[1..]))
  }

  ghost predicate Sorted<T>(le: (T, T) -> bool, xs: seq<T>) {
    forall i, j :: 0 <= i < j < |xs| ==> le(xs[i], xs[j])
  }

  /** The elements of `xs` tied with `x`, in order. */
  ghost function Ties<T>(le: (T, T) -> bool, x: T, xs: seq<T>): seq<T> {
    if xs == [] then [] else
    (if le(x, xs[0]) && le(xs[0], x) then [xs[0]] else []) + Ties(le, x, xs[1..])
  }

  ghost predicate StableSortOf<T(!new)>(le: (T, T) -> bool, xs: seq<T>, ys: seq<T>) {
    Sorted(le, ys) && forall x :: Ties(le, x, ys) == Ties(le, x, xs)
  }

  lemma {:induction false} InsertKeepsOrder<T(!new)>(le: (T, T) -> bool, x: T, ys: seq<T>)
    requires TotalPreorder(le) && Sorted(le, ys)
    ensures Sorted(le, Insert(le, x, ys))
    ensures multiset(Insert(le, x, ys)) == multiset{x} + multiset(ys)
    ensures |Insert(le, x, ys)| == |ys| + 1
  {
    if ys == [] {
    } else if le(x, ys[0]) {
      var r := [x] + ys;
      assert Insert(le, x, ys) == r;
      forall i, j | 0 <= i < j < |r| ensures le(r[i], r[j]) {
        if i == 0 && j > 1 {
          assert le(x, ys[0]) && le(ys[0], ys[j - 1]);
        }
      }
    } else {
      InsertKeepsOrder(le, x, ys[1..]);
      var t := Insert(le, x, ys[1..]);
      assert ys == [ys[0]] + ys[1..];
      forall k | 0 <= k < |t| ensures le(ys[0], t[k]) {
        assert t[k] in multiset(t);
        assert t[k] == x || t[k] in ys[1..];
      }
    }
  }

  lemma {:induction false} InsertKeepsTies<T(!new)>(le: (T, T) -> bool, x: T, ys: seq<T>, z: T)
    requires TotalPreorder(le)
    ensures Ties(le, z, Insert(le, x, ys)) == Ties(le, z, [x] + ys)
  {
    assert ([x] + ys)[1..] == ys;
    if ys != [] && !le(x, ys[0]) {
      InsertKeepsTies(le, x, ys[1..], z);
      var t := Insert(le, x, ys[1..]);
      assert ([ys[0]] + t)[1..] == t;
      assert ([x] + ys[1..])[1..] == ys[1..];
    }
  }

  /** Sorting orders the list, loses and invents nothing, and keeps ties in order. */
  lemma {:induction false} SortByIsStableSort<T(!new)>(le: (T, T) -> bool, xs: seq<T>)
    requires TotalPreorder(le)
    ensures StableSortOf(le, xs, SortBy(le, xs))
    ensures multiset(SortBy(le, xs)) == multiset(xs) && |SortBy(le, xs)| == |xs|
  {
    if xs != [] {
      var tail := SortBy(le, xs[1..]);
      SortByIsStableSort(le, xs[1..]);
      InsertKeepsOrder(le, xs[0], tail);
      assert xs == [xs[0]] + xs[1..];
      forall z ensures Ties(le, z, SortBy(le, xs)) == Ties(le, z, xs) {
        InsertKeepsTies(le, xs[0], tail, z);
        assert ([xs[0]] + tail)[1..] == tail;
      }
    }
  }

  lemma {:induction false} TiesMember<T(!new)>(le: (T, T) -> bool, x: T, xs: seq<T>)
    ensures Ties(le, x, xs) != [] ==> exists y :: y in xs && le(x, y) && le(y, x)
    ensures x in xs && le(x, x) ==> Ties(le, x, xs) != []
  {
    if xs != [] {
      TiesMember(le, x, xs[1..]);
      assert xs == [xs[0]] + xs[1..];
      if Ties(le, x, xs[1..]) != [] {
        var y :| y in xs[1..] && le(x, y) && le(y, x);
        assert y in xs;
      }
    }
  }

  lemma NonEmptyHasTies<T(!new)>(le: (T, T) -> bool, xs: seq<T>)
    requires TotalPreorder(le) && xs != []
    ensures exists x :: Ties(le, x, xs) != []
  {
    assert le(xs[0], xs[0]);
    TiesMember(le, xs[0], xs);
  }

  lemma TiesTail<T(!new)>(le: (T, T) -> bool, x: T, xs: seq<T>)
    requires xs != []
    ensures Ties(le, x, xs[1..]) ==
            if le(x, xs[0]) && le(xs[0], x) then Ties(le, x, xs)[1..] else Ties(le, x, xs)
  {
  }

  /** Two sorted lists with the same ties for every element are equal. */
  lemma {:induction false} SameTiesSameList<T(!new)>(le: (T, T) -> bool, ys: seq<T>, zs: seq<T>)
    requires TotalPreorder(le) && Sorted(le, ys) && Sorted(le, zs)
    requires forall x :: Ties(le, x, ys) == Ties(le, x, zs)
    ensures ys == zs
    decreases |ys|
  {
    if ys == [] {
      forall x ensures Ties(le, x, zs) == [] {
        assert Ties(le, x, ys) == [];
      }
      if zs != [] {
        NonEmptyHasTies(le, zs);
      }
    } else {
      var y := ys[0];
      assert le(y, y);
      TiesMember(le, y, ys);
      TiesMember(le, y, zs);
      var z := zs[0];
      assert le(z, z);
      TiesMember(le, z, zs);
      TiesMember(le, z, ys);
      assert le(z, y) && le(y, z);
      assert Ties(le, y, ys)[0] == y && Ties(le, y, zs)[0] == z;
      assert y == z;
      forall x ensures Ties(le, x, ys[1..]) == Ties(le, x, zs[1..]) {
        TiesTail(le, x, ys);
        TiesTail(le, x, zs);
        assert Ties(le, x, ys) == Ties(le, x, zs);
      }
      SameTiesSameList(le, ys[1..], zs[1..]);
      assert ys == [y] + ys[1..] && zs == [z] + zs[1..];
    }
  }

  /** The sort is pinned down: sorted with ties in order holds of exactly one list. */
  lemma StableSortIsUnique<T(!new)>(le: (T, T) -> bool, xs: seq<T>, ys: seq<T>)
    requires TotalPreorder(le)
    ensures StableSortOf(le, xs, ys) <==> ys == SortBy(le, xs)
  {
    SortByIsStableSort(le, xs);
    if StableSortOf(le, xs, ys) {
      forall x ensures Ties(le, x, ys) == Ties(le, x, SortBy(le, xs)) {
        assert Ties(le, x, ys) == Ties(le, x, xs);
        assert Ties(le, x, SortBy(le, xs)) == Ties(le, x, xs);
      }
      SameTiesSameList(le, ys, SortBy(le, xs));
    }
  }

  // ----- occurrences -----

  lemma {:induction false} TwiceInSequence<T>(xs: seq<T>, i: nat, j: nat)
    requires i < j < |xs| && xs[i] == xs[j]
    ensures multiset(xs)[xs[i]] >= 2
  {
    assert xs == xs[..j] + [xs[j]] + xs[j + 1..];
    assert xs[i] in xs[..j];
  }

  lemma {:induction false} OccursAtMostOnce<T>(xs: seq<T>, x: T)
    requires forall i, j :: 0 <= i < j < |xs| ==> !(xs[i] == x && xs[j] == x)
    ensures multiset(xs)[x] <= 1
  {
    if xs != [] {
      var tail := xs[1..];
      assert xs == [xs[0]] + tail;
      assert forall i :: 0 <= i < |tail| ==> tail[i] == xs[i + 1];
      OccursAtMostOnce(tail, x);
    }
  }

  /** All elements but the one at index `i`. */
  function Rest<T>(xs: seq<T>, i: nat): (r: seq<T>)
    requires i < |xs|
    ensures |r| == |xs| - 1
  {
    xs[..i] + xs[i + 1..]
  }

  lemma RestWithout<T>(xs: seq<T>, i: nat)
    requires i < |xs|
    ensures multiset(xs) == multiset(Rest(xs, i)) + multiset{xs[i]}
    ensures multiset(Rest(xs, i)) == multiset(xs) - multiset{xs[i]}
  {
    assert xs == xs[..i] + [xs[i]] + xs[i + 1..];
  }

  lemma SomeMember<T>(xs: seq<T>)
    requires xs != []
    ensures exists x :: x in xs
  {
    assert xs[0] in xs;
  }

  predicate Distinct<T(==)>(xs: seq<T>) {
    forall i, j :: 0 <= i < j < |xs| ==> xs[i] != xs[j]
  }

  lemma {:induction false} FilterDistinct<T(!new)>(p: T -> bool, xs: seq<T>)
    requires Distinct(xs)
    ensures Distinct(Filter(p, xs))
  {
    if xs != [] {
      var tail := xs[1..];
      assert forall i :: 0 <= i < |tail| ==> tail[i] == xs[i + 1];
      FilterDistinct(p, tail);
      var kept := Filter(p, tail);
      forall i | 0 <= i < |kept| ensures kept[i] != xs[0] {
        assert kept[i] in tail;
      }
    }
  }

  /** A rearrangement of distinct elements is distinct. */
  lemma DistinctRearranged<T>(xs: seq<T>, ys: seq<T>)
    requires Distinct(xs) && multiset(xs) == multiset(ys)
    ensures Distinct(ys)
  {
    forall i, j | 0 <= i < j < |ys| ensures ys[i] != ys[j] {
      if ys[i] == ys[j] {
        TwiceInSequence(ys, i, j);
        OccursAtMostOnce(xs, ys[i]);
      }
    }
  }

  function Swapped<T>(xs: seq<T>, i: nat, j: nat): (r: seq<T>)
    requires i < |xs| && j < |xs|
    ensures |r| == |xs| && r[i] == xs[j] && r[j] == xs[i]
    ensures forall k :: 0 <= k < |xs| && k != i && k != j ==> r[k] == xs[k]
  {
    xs[i := xs[j]][j := xs[i]]
  }

  /** Exchanging two tied elements keeps a list sorted and its multiset. */
  lemma SwapKeepsOrder<T(!new)>(le: (T, T) -> bool, xs: seq<T>, i: nat, j: nat)
    requires TotalPreorder(le) && Sorted(le, xs) && i < |xs| && j < |xs| && le(xs[i], xs[j]) && le(xs[j], xs[i])
    ensures Sorted(le, Swapped(xs, i, j)) && multiset(Swapped(xs, i, j)) == multiset(xs)
  {
    var r := Swapped(xs, i, j);
    forall a | 0 <= a < |xs| ensures le(r[a], xs[a]) && le(xs[a], r[a]) {
      assert le(xs[a], xs[a]);
    }
    forall a, b | 0 <= a < b < |r| ensures le(r[a], r[b]) {
      assert le(r[a], xs[a]) && le(xs[a], xs[b]) && le(xs[b], r[b]);
    }
  }
}
