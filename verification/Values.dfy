/** Small value types and sequence functions shared by the other modules. */
module Values {
  datatype Option<+T> = None | Some(value: T)

  /** A Redis hash: field name to field value. */
  type Hash = map<string, string>

  /** The elements of `xs` that satisfy `p`, in order: a list comprehension with a guard. */
  function Filter<T(!new)>(p: T -> bool, xs: seq<T>): (r: seq<T>)
    ensures forall x :: x in r <==> x in xs && p(x)
    ensures |r| <= |xs|
  {
    if xs == [] then [] else (if p(xs[0]) then [xs[0]] else []) + Filter(p, xs[1..])
  }

  /** `picks` are the indices of the elements that satisfy `p`, in order. */
  ghost predicate Picks<T(!new)>(picks: seq<nat>, p: T -> bool, xs: seq<T>) {
    && (forall j, k :: 0 <= j < k < |picks| ==> picks[j] < picks[k])
    && (forall i: nat :: i in picks <==> i < |xs| && p(xs[i]))
  }

  /** Filtering keeps the elements that satisfy `p`, each once and in order. */
  lemma {:induction false} FilterPicks<T(!new)>(p: T -> bool, xs: seq<T>) returns (picks: seq<nat>)
    ensures Picks(picks, p, xs) && |Filter(p, xs)| == |picks|
    ensures forall j :: 0 <= j < |picks| ==> picks[j] < |xs| && Filter(p, xs)[j] == xs[picks[j]]
  {
    if xs == [] {
      picks := [];
    } else {
      var tail := FilterPicks(p, xs[1..]);
      picks := PicksOfTail(p, xs, tail);
      forall j | 0 <= j < |picks| ensures picks[j] < |xs| && Filter(p, xs)[j] == xs[picks[j]] {
        assert picks[j] in picks;
      }
    }
  }

  lemma PicksOfTail<T(!new)>(p: T -> bool, xs: seq<T>, tail: seq<nat>) returns (picks: seq<nat>)
    requires xs != [] && Picks(tail, p, xs[1..])
    ensures Picks(picks, p, xs)
    ensures var first := if p(xs[0]) then 1 else 0;
            && |picks| == first + |tail| && (first == 1 ==> picks[0] == 0)
            && forall j :: 0 <= j < |tail| ==> picks[first + j] == tail[j] + 1
  {
    var shifted := seq(|tail|, j requires 0 <= j < |tail| => tail[j] + 1);
    picks := (if p(xs[0]) then [0] else []) + shifted;
    forall i: nat ensures i in picks <==> i < |xs| && p(xs[i]) {
      ShiftedMembers(tail, shifted, i);
      assert i > 0 && i < |xs| ==> xs[i] == xs[1..][i - 1];
    }
  }

  lemma ShiftedMembers(tail: seq<nat>, shifted: seq<nat>, i: nat)
    requires |shifted| == |tail| && forall j :: 0 <= j < |tail| ==> shifted[j] == tail[j] + 1
    ensures i in shifted <==> i > 0 && i - 1 in tail
  {
    if i > 0 && i - 1 in tail {
      var j :| 0 <= j < |tail| && tail[j] == i - 1;
      assert shifted[j] == i;
    }
  }

  /** One step of a guarded append loop at index i. */
  lemma FilterStep<T(!new)>(p: T -> bool, xs: seq<T>, i: nat, out: seq<T>)
    requires i < |xs|
    ensures out + Filter(p, xs[i..]) == (if p(xs[i]) then out + [xs[i]] else out) + Filter(p, xs[i + 1..])
  {
    assert xs[i..][1..] == xs[i + 1..];
  }

  lemma {:induction false} FilterNone<T(!new)>(p: T -> bool, xs: seq<T>)
    requires forall x :: x in xs ==> !p(x)
    ensures Filter(p, xs) == []
  {
    if xs != [] {
      FilterNone(p, xs[1..]);
    }
  }

  /** Guards that agree on the elements keep the same ones. */
  lemma {:induction false} FilterAgree<T(!new)>(p: T -> bool, q: T -> bool, xs: seq<T>)
    requires forall x :: x in xs ==> p(x) == q(x)
    ensures Filter(p, xs) == Filter(q, xs)
  {
    if xs != [] {
      FilterAgree(p, q, xs[1..]);
    }
  }

  /** `n` moved into the range from 0 to `hi`, as slice bounds are. */
  function Clamp(n: int, hi: nat): (r: nat)
    ensures r <= hi
    ensures 0 <= n <= hi ==> r == n
  {
    if n < 0 then 0 else if n > hi then hi else n
  }
}
