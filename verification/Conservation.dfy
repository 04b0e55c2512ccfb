/**
  The context of a turn comes from two reads of the message store. Records of equal time come back
  in scan order, so the reads can differ; this module says exactly when that matters.
*/
module Conservation {
  import opened Values
  import opened Text
  import opened Sorting
  import opened SessionStores
  import opened Transcript
  import opened Context
  import opened ContextLaws

  // ----- sorted lists of the same hashes -----

  predicate Earlier(h: Hash, time: string) {
    !AtMost(time, CreatedAt(h))
  }

  lemma {:induction false} EarlierPrefix(xs: seq<Hash>, time: string) returns (p: nat)
    requires Sorted(NotLater, xs)
    ensures p <= |xs|
    ensures forall i :: 0 <= i < |xs| ==> (Earlier(xs[i], time) <==> i < p)
  {
    if xs == [] {
      p := 0;
    } else if Earlier(xs[0], time) {
      var tail := xs[1..];
      var q := EarlierPrefix(tail, time);
      p := q + 1;
      forall i | 0 <= i < |xs| ensures Earlier(xs[i], time) <==> i < p {
        if i > 0 {
          assert xs[i] == tail[i - 1];
        }
      }
    } else {
      p := 0;
      forall i | 0 <= i < |xs| ensures !Earlier(xs[i], time) {
        if i > 0 {
          assert NotLater(xs[0], xs[i]);
          AtMostTransitive(time, CreatedAt(xs[0]), CreatedAt(xs[i]));
        }
      }
    }
  }

  /** The earlier hashes come first, and they are the same ones in both lists. */
  lemma SameEarlier(xs: seq<Hash>, ys: seq<Hash>, time: string, p: nat, q: nat)
    requires multiset(xs) == multiset(ys) && p <= |xs| && q <= |ys|
    requires forall i :: 0 <= i < |xs| ==> (Earlier(xs[i], time) <==> i < p)
    requires forall i :: 0 <= i < |ys| ==> (Earlier(ys[i], time) <==> i < q)
    ensures multiset(xs[..p]) == multiset(ys[..q]) && p == q
  {
    forall x ensures multiset(xs[..p])[x] == multiset(ys[..q])[x] {
      CountEarlier(xs, time, p, x);
      CountEarlier(ys, time, q, x);
    }
    assert |multiset(xs[..p])| == p && |multiset(ys[..q])| == q;
  }

  lemma CountEarlier(xs: seq<Hash>, time: string, p: nat, x: Hash)
    requires p <= |xs| && forall i :: 0 <= i < |xs| ==> (Earlier(xs[i], time) <==> i < p)
    ensures multiset(xs[..p])[x] == if Earlier(x, time) then multiset(xs)[x] else 0
  {
    assert xs == xs[..p] + xs[p..];
    if Earlier(x, time) {
      assert x !in xs[p..];
    } else {
      assert x !in xs[..p];
    }
  }

  lemma {:induction false} TimesNotLater(xs: seq<Hash>, ys: seq<Hash>, k: nat)
    requires Sorted(NotLater, xs) && Sorted(NotLater, ys) && multiset(xs) == multiset(ys)
    requires k < |xs| == |ys|
    ensures NotLater(xs[k], ys[k])
  {
    var time := CreatedAt(xs[k]);
    AtMostTotal(time, time);
    var p := EarlierPrefix(xs, time);
    var q := EarlierPrefix(ys, time);
    SameEarlier(xs, ys, time, p, q);
    assert !Earlier(xs[k], time);
  }

  /** Whatever the order of ties, position k always holds the same time. */
  lemma SameTimes(xs: seq<Hash>, ys: seq<Hash>, k: nat)
    requires Sorted(NotLater, xs) && Sorted(NotLater, ys) && multiset(xs) == multiset(ys)
    requires k < |xs| == |ys|
    ensures CreatedAt(xs[k]) == CreatedAt(ys[k])
  {
    TimesNotLater(xs, ys, k);
    TimesNotLater(ys, xs, k);
    AtMostAntisymmetric(CreatedAt(xs[k]), CreatedAt(ys[k]));
  }

  /** Two messages with different blocks share the time on both sides of the cut. */
  ghost predicate MixedTieAt(xs: seq<Hash>, k: int) {
    && 0 < k < |xs|
    && CreatedAt(xs[k - 1]) == CreatedAt(xs[k])
    && exists u, m :: u in xs && m in xs && CreatedAt(u) == CreatedAt(m) == CreatedAt(xs[k]) && BlockOf(u) != BlockOf(m)
  }

  /** From the first message of the time at the cut up to the cut: all of that time. */
  lemma TiedUpToCut(xs: seq<Hash>, k: nat, p: nat, i: nat)
    requires Sorted(NotLater, xs) && p <= i <= k < |xs|
    requires forall j :: 0 <= j < |xs| ==> (Earlier(xs[j], CreatedAt(xs[k])) <==> j < p)
    ensures CreatedAt(xs[i]) == CreatedAt(xs[k])
  {
    AtMostTotal(CreatedAt(xs[k]), CreatedAt(xs[k]));
    assert i < k ==> NotLater(xs[i], xs[k]);
    AtMostAntisymmetric(CreatedAt(xs[k]), CreatedAt(xs[i]));
  }

  /** Without a mixed tie both lists have the same blocks before the cut. */
  lemma {:induction false} SameBlocksBeforeCut(xs: seq<Hash>, ys: seq<Hash>, k: nat)
    requires Sorted(NotLater, xs) && Sorted(NotLater, ys) && multiset(xs) == multiset(ys)
    requires k <= |xs| == |ys| && !MixedTieAt(xs, k)
    ensures multiset(Blocks(xs[..k])) == multiset(Blocks(ys[..k]))
  {
    if k == |xs| {
      assert xs[..k] == xs && ys[..k] == ys;
      SameHashesSameBlocks(xs, ys);
    } else if k > 0 {
      var time := CreatedAt(xs[k]);
      SameTimes(xs, ys, k);
      var p := EarlierPrefix(xs, time);
      var q := EarlierPrefix(ys, time);
      SameEarlier(xs, ys, time, p, q);
      AtMostTotal(time, time);
      assert !Earlier(xs[k], time);
      SameHashesSameBlocks(xs[..p], ys[..p]);
      TiedBlocksAgree(xs, ys, k, p);
      assert xs[..k] == xs[..p] + xs[p..k] && ys[..k] == ys[..p] + ys[p..k];
      BlocksAppend(xs[..p], xs[p..k]);
      BlocksAppend(ys[..p], ys[p..k]);
    }
  }

  lemma TiedBlocksAgree(xs: seq<Hash>, ys: seq<Hash>, k: nat, p: nat)
    requires Sorted(NotLater, xs) && Sorted(NotLater, ys) && multiset(xs) == multiset(ys)
    requires 0 < k < |xs| == |ys| && p <= k && !MixedTieAt(xs, k) && CreatedAt(xs[k]) == CreatedAt(ys[k])
    requires forall j :: 0 <= j < |xs| ==> (Earlier(xs[j], CreatedAt(xs[k])) <==> j < p)
    requires forall j :: 0 <= j < |ys| ==> (Earlier(ys[j], CreatedAt(xs[k])) <==> j < p)
    ensures Blocks(xs[p..k]) == Blocks(ys[p..k])
  {
    forall i | p <= i < k ensures BlockOf(xs[i]) == BlockOf(ys[i]) {
      TiedUpToCut(xs, k, p, k - 1);
      TiedUpToCut(xs, k, p, i);
      TiedUpToCut(ys, k, p, i);
      assert ys[i] in multiset(ys);
      assert ys[i] in xs && xs[i] in xs;
    }
  }

  // ----- the reads of one database -----

  lemma {:induction false} SameKeysSameHashes(db: Database, ks: seq<string>, ks': seq<string>)
    requires Distinct(ks) && Distinct(ks') && forall key :: key in ks <==> key in ks'
    ensures multiset(HashesAt(db, ks)) == multiset(HashesAt(db, ks')) && |ks| == |ks'|
    decreases |ks|
  {
    if ks == [] {
      if ks' != [] {
        SomeMember(ks');
      }
    } else {
      assert ks[0] in ks;
      var i :| 0 <= i < |ks'| && ks'[i] == ks[0];
      RestMembers(ks, 0);
      RestMembers(ks', i);
      HashesWithout(db, ks, 0);
      HashesWithout(db, ks', i);
      SameKeysSameHashes(db, Rest(ks, 0), Rest(ks', i));
    }
  }

  lemma RestMembers(ks: seq<string>, i: nat)
    requires Distinct(ks) && i < |ks|
    ensures Distinct(Rest(ks, i))
    ensures forall key :: key in Rest(ks, i) <==> key in ks && key != ks[i]
  {
    assert ks == ks[..i] + [ks[i]] + ks[i + 1..];
  }

  lemma HashesWithout(db: Database, ks: seq<string>, i: nat)
    requires i < |ks|
    ensures multiset(HashesAt(db, ks)) ==
            multiset{HGetAll(db, ks[i])} + multiset(HashesAt(db, Rest(ks, i)))
  {
    var hs := HashesAt(db, ks);
    assert HashesAt(db, Rest(ks, i)) == Rest(hs, i);
    RestWithout(hs, i);
  }

  /** Two scans of a database read the same messages, in possibly different orders. */
  lemma ReadsAgree(db: Database, prefix: string, sid: string, scan: seq<string>, again: seq<string>)
    requires IsScan(db, prefix, scan) && IsScan(db, prefix, again)
    ensures var xs, ys := Messages(db, scan, sid), Messages(db, again, sid);
            multiset(xs) == multiset(ys) && |xs| == |ys| && Sorted(NotLater, xs) && Sorted(NotLater, ys)
  {
    var ks := ReadIsSortedPermutation(db, prefix, scan, sid);
    var ks' := ReadIsSortedPermutation(db, prefix, again, sid);
    SameKeysSameHashes(db, ks, ks');
  }

  // ----- scans that differ at a mixed tie -----

  function ByTime(db: Database): (string, string) -> bool {
    (a, b) => NotLater(HGetAll(db, a), HGetAll(db, b))
  }

  lemma ByTimeIsPreorder(db: Database)
    ensures TotalPreorder(ByTime(db))
  {
    AtMostIsPreorder();
    var le := ByTime(db);
    forall a, b ensures le(a, b) || le(b, a) {
      assert NotLater(HGetAll(db, a), HGetAll(db, b)) || NotLater(HGetAll(db, b), HGetAll(db, a));
    }
    forall a, b, c | le(a, b) && le(b, c) ensures le(a, c) {
      assert NotLater(HGetAll(db, a), HGetAll(db, b)) && NotLater(HGetAll(db, b), HGetAll(db, c));
    }
  }

  lemma {:induction false} GatheredAppend(db: Database, xs: seq<string>, ys: seq<string>, sid: string)
    ensures Gathered(db, xs + ys, sid) == Gathered(db, xs, sid) + Gathered(db, ys, sid)
    decreases |ys|
  {
    if ys == [] {
      assert xs + ys == xs;
    } else {
      assert (xs + ys)[..|xs + ys| - 1] == xs + ys[..|ys| - 1];
      GatheredAppend(db, xs, ys[..|ys| - 1], sid);
    }
  }

  lemma {:induction false} GatheredOwn(db: Database, keys: seq<string>, sid: string)
    requires forall key :: key in keys ==> OfSession(HGetAll(db, key), sid)
    ensures Gathered(db, keys, sid) == HashesAt(db, keys)
  {
    if keys != [] {
      var front, last := keys[..|keys| - 1], keys[|keys| - 1];
      GatheredOwn(db, front, sid);
      assert last in keys;
      assert HashesAt(db, keys) == HashesAt(db, front) + [HGetAll(db, last)];
    }
  }

  lemma {:induction false} GatheredForeign(db: Database, keys: seq<string>, sid: string)
    requires forall key :: key in keys ==> !OfSession(HGetAll(db, key), sid)
    ensures Gathered(db, keys, sid) == []
  {
    if keys != [] {
      assert keys[|keys| - 1] in keys;
      GatheredForeign(db, keys[..|keys| - 1], sid);
    }
  }

  /** Any time-ordered arrangement of the session's keys is what some scan reads. */
  lemma {:induction false} ArrangementIsRead(db: Database, prefix: string, sid: string, scan: seq<string>,
                                             keys: seq<string>)
    returns (arranged: seq<string>)
    requires IsScan(db, prefix, scan)
    requires Distinct(keys) && forall key :: key in keys <==> key in scan && OfSession(HGetAll(db, key), sid)
    requires Sorted(ByTime(db), keys)
    ensures IsScan(db, prefix, arranged) && Messages(db, arranged, sid) == HashesAt(db, keys)
  {
    var others := Filter(key => !OfSession(HGetAll(db, key), sid), scan);
    FilterDistinct(key => !OfSession(HGetAll(db, key), sid), scan);
    arranged := keys + others;
    forall i, j | 0 <= i < j < |arranged| ensures arranged[i] != arranged[j] {
      if i < |keys| <= j {
        assert arranged[i] in keys && arranged[j] in others;
      }
    }
    GatheredAppend(db, keys, others, sid);
    GatheredOwn(db, keys, sid);
    GatheredForeign(db, others, sid);
    var hs := HashesAt(db, keys);
    forall i, j | 0 <= i < j < |hs| ensures NotLater(hs[i], hs[j]) {
      assert ByTime(db)(keys[i], keys[j]);
    }
    AtMostIsPreorder();
    StableSortIsUnique(NotLater, hs, hs);
    assert hs + [] == hs;
  }

  /** The session's keys in time order. */
  lemma OrderedKeys(db: Database, sid: string, scan: seq<string>) returns (keys: seq<string>)
    requires Distinct(scan)
    ensures Distinct(keys) && Sorted(ByTime(db), keys)
    ensures forall key :: key in keys <==> key in scan && OfSession(HGetAll(db, key), sid)
  {
    var gathered := GatheredKeys(db, scan, sid);
    ByTimeIsPreorder(db);
    SortByIsStableSort(ByTime(db), gathered);
    keys := SortBy(ByTime(db), gathered);
    DistinctRearranged(gathered, keys);
    SameMembers(gathered, keys);
  }

  lemma SameMembers(xs: seq<string>, ys: seq<string>)
    requires multiset(xs) == multiset(ys)
    ensures forall x :: x in xs <==> x in ys
  {
    forall x ensures x in xs <==> x in ys {
      assert x in xs <==> x in multiset(xs);
      assert x in ys <==> x in multiset(ys);
    }
  }

  /** Move the key at index `i` to index `k` among keys of its time. */
  lemma MoveKey(db: Database, keys: seq<string>, i: nat, k: nat) returns (moved: seq<string>)
    requires Distinct(keys) && Sorted(ByTime(db), keys) && i < |keys| && k < |keys|
    requires CreatedAt(HGetAll(db, keys[i])) == CreatedAt(HGetAll(db, keys[k]))
    ensures moved == Swapped(keys, i, k)
    ensures Distinct(moved) && Sorted(ByTime(db), moved) && forall key :: key in moved <==> key in keys
  {
    moved := Swapped(keys, i, k);
    ByTimeIsPreorder(db);
    var time := CreatedAt(HGetAll(db, keys[i]));
    AtMostTotal(time, time);
    SwapKeepsOrder(ByTime(db), keys, i, k);
    DistinctRearranged(keys, moved);
    SameMembers(keys, moved);
  }

  /** At a mixed tie some arrangement has the two messages on the two sides of the cut. */
  lemma {:induction false} TieArranged(db: Database, prefix: string, sid: string, scan: seq<string>, k: nat)
    returns (keys: seq<string>)
    requires IsScan(db, prefix, scan) && MixedTieAt(Messages(db, scan, sid), k)
    ensures Distinct(keys) && Sorted(ByTime(db), keys)
    ensures forall key :: key in keys <==> key in scan && OfSession(HGetAll(db, key), sid)
    ensures 0 < k < |keys|
    ensures CreatedAt(HGetAll(db, keys[k - 1])) == CreatedAt(HGetAll(db, keys[k]))
    ensures BlockOf(HGetAll(db, keys[k - 1])) != BlockOf(HGetAll(db, keys[k]))
  {
    var read := Messages(db, scan, sid);
    var time := CreatedAt(read[k]);
    keys := OrderedKeys(db, sid, scan);
    var ordered := ArrangementIsRead(db, prefix, sid, scan, keys);
    ReadsAgree(db, prefix, sid, scan, ordered);
    SameTimes(read, Messages(db, ordered, sid), k - 1);
    SameTimes(read, Messages(db, ordered, sid), k);
    var u, m :| u in read && m in read && CreatedAt(u) == CreatedAt(m) == time && BlockOf(u) != BlockOf(m);
    var i := KeyOf(db, keys, read, u);
    var j := KeyOf(db, keys, read, m);
    var moved := MoveKey(db, keys, i, k - 1);
    keys := MoveKey(db, moved, if j == k - 1 then i else j, k);
  }

  lemma KeyOf(db: Database, keys: seq<string>, read: seq<Hash>, h: Hash) returns (i: nat)
    requires multiset(HashesAt(db, keys)) == multiset(read) && h in read
    ensures i < |keys| && HGetAll(db, keys[i]) == h
  {
    assert h in multiset(HashesAt(db, keys));
    i :| 0 <= i < |HashesAt(db, keys)| && HashesAt(db, keys)[i] == h;
  }

  /** At a mixed tie two scans put different blocks before the cut. */
  lemma {:induction false} MixedTieSplits(db: Database, prefix: string, sid: string, scan: seq<string>, k: nat)
    returns (first: seq<string>, second: seq<string>)
    requires IsScan(db, prefix, scan) && MixedTieAt(Messages(db, scan, sid), k)
    ensures IsScan(db, prefix, first) && IsScan(db, prefix, second)
    ensures var xs, ys := Messages(db, first, sid), Messages(db, second, sid);
            k <= |xs| == |ys| && multiset(Blocks(xs[..k])) != multiset(Blocks(ys[..k]))
  {
    var keys := TieArranged(db, prefix, sid, scan, k);
    first := ArrangementIsRead(db, prefix, sid, scan, keys);
    var swapped := MoveKey(db, keys, k - 1, k);
    second := ArrangementIsRead(db, prefix, sid, scan, swapped);
    DifferentAtCut(HashesAt(db, keys), HashesAt(db, swapped), k);
  }

  lemma DifferentAtCut(xs: seq<Hash>, ys: seq<Hash>, k: nat)
    requires 0 < k <= |xs| == |ys| && xs[..k - 1] == ys[..k - 1] && BlockOf(xs[k - 1]) != BlockOf(ys[k - 1])
    ensures multiset(Blocks(xs[..k])) != multiset(Blocks(ys[..k]))
  {
    var common, x, y := multiset(Blocks(xs[..k - 1])), BlockOf(xs[k - 1]), BlockOf(ys[k - 1]);
    assert Blocks(xs[..k]) == Blocks(xs[..k - 1]) + [x];
    assert Blocks(ys[..k]) == Blocks(ys[..k - 1]) + [y];
    assert (common + multiset{x})[x] == common[x] + 1 && (common + multiset{y})[x] == common[x];
  }

  // ----- conservation -----

  /** Nothing is lost or repeated, whatever the orders of the two scans. */
  ghost predicate AllScansConserve(db: Database, prefix: string, sid: string, words: WordSet, query: string,
                                   docs: seq<string>, n: int) {
    forall first, second :: IsScan(db, prefix, first) && IsScan(db, prefix, second) ==>
      Conserves(words, query, Messages(db, first, sid), Messages(db, second, sid), docs, n)
  }

  /**
    Whatever the order of the two reads of a turn, nothing is lost or repeated: this holds for
    all pairs of scans exactly when, for non-negative n, no two messages with different blocks
    tie across the cut, and for negative n when the slice passes the whole list.
  */
  lemma {:induction false} ConservedByAllScansIff(db: Database, prefix: string, sid: string, scan: seq<string>,
                                                  words: WordSet, query: string, docs: seq<string>, n: int)
    requires IsScan(db, prefix, scan)
    ensures var read := Messages(db, scan, sid);
            AllScansConserve(db, prefix, sid, words, query, docs, n) <==>
            if n < 0 then |read| <= -n else !MixedTieAt(read, Cut(|read|, n))
  {
    var read := Messages(db, scan, sid);
    var good := if n < 0 then |read| <= -n else !MixedTieAt(read, Cut(|read|, n));
    if good {
      forall first, second | IsScan(db, prefix, first) && IsScan(db, prefix, second)
        ensures Conserves(words, query, Messages(db, first, sid), Messages(db, second, sid), docs, n)
      {
        ScansConserve(db, prefix, sid, scan, first, second, words, query, docs, n);
      }
    } else {
      var first, second := scan, scan;
      if n >= 0 {
        first, second := MixedTieSplits(db, prefix, sid, scan, Cut(|read|, n));
      }
      ReadsAgree(db, prefix, sid, scan, first);
      ReadsAgree(db, prefix, sid, first, second);
      ConservesIff(words, query, Messages(db, first, sid), Messages(db, second, sid), docs, n);
      assert !Conserves(words, query, Messages(db, first, sid), Messages(db, second, sid), docs, n);
    }
  }

  /** One direction, for given scans: the tie may be looked up in any read. */
  lemma {:induction false} ScansConserve(db: Database, prefix: string, sid: string, scan: seq<string>,
                                         first: seq<string>, second: seq<string>,
                                         words: WordSet, query: string, docs: seq<string>, n: int)
    requires IsScan(db, prefix, scan) && IsScan(db, prefix, first) && IsScan(db, prefix, second)
    requires var read := Messages(db, scan, sid);
             if n < 0 then |read| <= -n else !MixedTieAt(read, Cut(|read|, n))
    ensures Conserves(words, query, Messages(db, first, sid), Messages(db, second, sid), docs, n)
  {
    var read, xs, ys := Messages(db, scan, sid), Messages(db, first, sid), Messages(db, second, sid);
    ReadsAgree(db, prefix, sid, scan, first);
    ReadsAgree(db, prefix, sid, scan, second);
    if n >= 0 {
      SameBlocksBeforeCut(read, xs, Cut(|read|, n));
      SameBlocksBeforeCut(read, ys, Cut(|read|, n));
    }
    ConservesIff(words, query, xs, ys, docs, n);
  }
}
