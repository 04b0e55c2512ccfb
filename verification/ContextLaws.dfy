/** What the context builder promises about every successful build. */
module ContextLaws {
  import opened Values
  import opened Sessions
  import opened Sorting
  import opened Context

  // ----- the bound -----

  /**
    A successful build stays within its limit exactly when the model's window is positive, and
    reserves that do not add up to less than nothing are enough for that: the limit is then
    positive, so the trim never takes its non-positive escape.
  */
  lemma {:induction false} BuildStaysWithinLimitIff(
      s: Settings, session: Option<Session>, messages: seq<Hash>, store: Option<seq<Hash>>, docs: seq<string>,
      query: string, r: Reserve, modelOverride: Option<string>)
    ensures var b := BuiltContext(s, session, messages, store, docs, query, r, modelOverride);
            b.Context? ==>
              && (Tokens(Chars, b.serialized, CHARS_PER_TOKEN) <= EffectiveLimit(s, r) <==> ModelTokens(s) > 0)
              && (r.minSemantic + r.minDocumentation >= 0 ==> ModelTokens(s) > 0)
              && (ModelTokens(s) > 0 ==> EffectiveLimit(s, r) > 0)
  {
    var b := BuiltContext(s, session, messages, store, docs, query, r, modelOverride);
    if b.Context? && EffectiveLimit(s, r) > 0 {
      var i := TrimCuts(Chars, Ordered(b.parts), EffectiveLimit(s, r), CHARS_PER_TOKEN);
    }
  }

  /** The other side is inhabited: with window -1 and semantic reserve -1 the build succeeds. */
  lemma NegativeWindowBuilds(s: Settings, session: Session, messages: seq<Hash>, r: Reserve, query: string)
    requires s.modelContextTokens == Some(-1) && r.minSemantic == -1 && r.minDocumentation == 0
    requires EffectiveModel(session, None) != ""
    ensures var b := BuiltContext(s, Some(session), messages, None, [], query, r, None);
            b.Context? && b.serialized == Ordered(b.parts)
  {
  }

  /** The result is what is left of standards, rules, last n and relevance, in that order. */
  lemma {:induction false} SerializedIsASuffix(s: Settings, session: Option<Session>, messages: seq<Hash>,
                                               store: Option<seq<Hash>>, docs: seq<string>, query: string,
                                               r: Reserve, modelOverride: Option<string>)
    ensures var b := BuiltContext(s, session, messages, store, docs, query, r, modelOverride);
            b.Context? ==> exists i :: 0 <= i <= |Ordered(b.parts)| && b.serialized == Ordered(b.parts)[i..]
  {
    var b := BuiltContext(s, session, messages, store, docs, query, r, modelOverride);
    if b.Context? {
      var ordered := Ordered(b.parts);
      assert ordered[0..] == ordered;
      if EffectiveLimit(s, r) > 0 {
        var i := TrimCuts(Chars, ordered, EffectiveLimit(s, r), CHARS_PER_TOKEN);
      }
    }
  }

  lemma SlotsOfBuilt(s: Settings, session: Session, messages: seq<Hash>, store: Option<seq<Hash>>, docs: seq<string>,
                     query: string, r: Reserve, modelOverride: Option<string>)
    ensures var b := BuiltContext(s, Some(session), messages, store, docs, query, r, modelOverride);
            b.Context? ==>
              && b.parts.lastN == Blocks(LastN(messages, r.lastN))
              && b.parts.relevance == FillSlot(s.words, query, store, docs, r.lastN)
  {
  }

  // ----- relevance order -----

  lemma Ratio(part: nat, whole: nat)
    requires part <= whole && whole > 0
    ensures var r := part as real / whole as real;
            0.0 <= r <= 1.0 && (r == 0.0 <==> part == 0) && (r == 1.0 <==> part == whole)
  {
    var r := part as real / whole as real;
    assert r * whole as real == part as real;
  }

  /** Scores lie between 0 and 1: 0 for no common word, 1 when every query word occurs. */
  lemma ScoreInUnitInterval(query: set<string>, words: set<string>)
    ensures 0.0 <= Score(query, words) <= 1.0
    ensures query != {} && words != {} ==>
              (Score(query, words) == 0.0 <==> query !! words) && (Score(query, words) == 1.0 <==> query <= words)
  {
    if query != {} && words != {} {
      var common := query * words;
      CardinalityOfSubset(common, query);
      if query !! words { assert common == {}; } else { var x :| x in query && x in words; assert x in common; }
      Ratio(|common|, |query|);
      assert query <= words <==> common == query;
    }
  }

  lemma {:induction false} CardinalityOfSubset(a: set<string>, b: set<string>)
    requires a <= b
    ensures |a| <= |b| && (|a| == |b| <==> a == b)
  {
    if a != {} {
      var x :| x in a;
      CardinalityOfSubset(a - {x}, b - {x});
      assert a == a - {x} + {x} && b == b - {x} + {x};
    } else {
      assert |b| == 0 <==> b == {};
    }
  }

  lemma {:induction false} AllTiedStays(le: (Block, Block) -> bool, xs: seq<Block>)
    requires forall a, b :: le(a, b)
    ensures SortBy(le, xs) == xs
  {
    if xs != [] {
      AllTiedStays(le, xs[1..]);
      assert xs == [xs[0]] + xs[1..];
    }
  }

  /**
    The slot is the one stable sort of the candidates by descending score: a permutation of
    them, with tied candidates in gathered order. A query without words keeps that order throughout.
  */
  lemma SlotIsStablePermutation(words: WordSet, query: string, store: Option<seq<Hash>>, docs: seq<string>, n: int,
                                slot: seq<Block>)
    ensures StableSortOf(ByRelevance(words, words(query)), Candidates(store, docs, n), slot) <==>
            slot == FillSlot(words, query, store, docs, n)
    ensures multiset(FillSlot(words, query, store, docs, n)) == multiset(Candidates(store, docs, n))
    ensures words(query) == {} ==> FillSlot(words, query, store, docs, n) == Candidates(store, docs, n)
  {
    var le := ByRelevance(words, words(query));
    assert TotalPreorder(le);
    StableSortIsUnique(le, Candidates(store, docs, n), slot);
    SortByIsStableSort(le, Candidates(store, docs, n));
    if words(query) == {} {
      AllTiedStays(le, Candidates(store, docs, n));
    }
  }

  // ----- nothing lost, nothing repeated -----

  /** The older blocks that the slot leaves out. */
  function Dropped(messages: seq<Hash>, n: int): seq<Block> {
    Filter((b: Block) => !NonEmpty(b), Blocks(Older(messages, n)))
  }

  lemma {:induction false} FilterSplits(blocks: seq<Block>)
    ensures multiset(Filter(NonEmpty, blocks)) + multiset(Filter((b: Block) => !NonEmpty(b), blocks))
            == multiset(blocks)
  {
    if blocks != [] {
      var b, tail := blocks[0], blocks[1..];
      FilterSplits(tail);
      assert blocks == [b] + tail;
      assert multiset(blocks) == multiset{b} + multiset(tail);
      if NonEmpty(b) {
        assert Filter(NonEmpty, blocks) == [b] + Filter(NonEmpty, tail);
      } else {
        assert Filter(NonEmpty, blocks) == Filter(NonEmpty, tail);
      }
    }
  }

  /**
    Last n of the builder's read, the slot over the relevance builder's read and the empty-bodied
    messages it drops together are the session's messages and the documentation: nothing is lost
    and nothing repeated.
  */
  ghost predicate Conserves(words: WordSet, query: string, read: seq<Hash>, again: seq<Hash>, docs: seq<string>,
                            n: int) {
    multiset(Blocks(LastN(read, n))) + multiset(FillSlot(words, query, Some(again), docs, n))
    + multiset(Dropped(again, n))
    == multiset(Blocks(read)) + multiset(Filter(NonEmpty, UserBlocks(docs)))
  }

  /** Where the last n messages begin. */
  function Cut(count: nat, n: int): nat {
    Clamp(count - n, count)
  }

  /**
    Two reads of the same messages, in whatever orders, conserve them exactly when, for
    non-negative n, both have the same blocks before the cut, and for negative n when the slice
    passes the whole list.
  */
  lemma {:induction false} ConservesIff(words: WordSet, query: string, read: seq<Hash>, again: seq<Hash>,
                                        docs: seq<string>, n: int)
    requires multiset(read) == multiset(again) && |read| == |again|
    ensures Conserves(words, query, read, again, docs, n) <==>
            if n < 0 then |read| <= -n
            else multiset(Blocks(read[..Cut(|read|, n)])) == multiset(Blocks(again[..Cut(|read|, n)]))
  {
    var older := Older(again, n);
    var texts := Filter(NonEmpty, UserBlocks(docs));
    var slot := FillSlot(words, query, Some(again), docs, n);
    SlotIsStablePermutation(words, query, Some(again), docs, n, slot);
    FilterSplits(Blocks(older));
    LastAndOlder(read, again, n);
    Regroup(multiset(Blocks(LastN(read, n))), multiset(slot), multiset(Dropped(again, n)),
            multiset(Blocks(older)), multiset(Blocks(read)), multiset(texts));
  }

  lemma Regroup(last: multiset<Block>, slot: multiset<Block>, dropped: multiset<Block>,
                older: multiset<Block>, all: multiset<Block>, texts: multiset<Block>)
    requires slot + dropped == older + texts
    ensures last + slot + dropped == all + texts <==> last + older == all
  {
    assert last + slot + dropped == last + (slot + dropped) == last + (older + texts) == (last + older) + texts;
    if (last + older) + texts == all + texts {
      assert last + older == ((last + older) + texts) - texts;
      assert all == (all + texts) - texts;
    }
  }

  lemma {:induction false} LastAndOlder(read: seq<Hash>, again: seq<Hash>, n: int)
    requires multiset(read) == multiset(again) && |read| == |again|
    ensures multiset(Blocks(LastN(read, n))) + multiset(Blocks(Older(again, n))) == multiset(Blocks(read)) <==>
            if n < 0 then |read| <= -n
            else multiset(Blocks(read[..Cut(|read|, n)])) == multiset(Blocks(again[..Cut(|read|, n)]))
  {
    var last := multiset(Blocks(LastN(read, n)));
    if n < 0 {
      SameHashesSameBlocks(read, again);
      TooMany(last, multiset(Blocks(read)));
      assert LastN(read, n) == [] <==> |read| <= -n;
    } else {
      var k := Cut(|read|, n);
      assert LastN(read, n) == read[k..] && Older(again, n) == again[..k];
      assert read == read[..k] + read[k..];
      BlocksAppend(read[..k], read[k..]);
      CancelLast(last, multiset(Blocks(again[..k])), multiset(Blocks(read[..k])));
    }
  }

  lemma CancelLast(last: multiset<Block>, a: multiset<Block>, b: multiset<Block>)
    ensures last + a == b + last <==> a == b
  {
    if last + a == b + last {
      assert a == (last + a) - last;
      assert b == (b + last) - last;
    }
  }

  lemma BlocksAppend(xs: seq<Hash>, ys: seq<Hash>)
    ensures multiset(Blocks(xs + ys)) == multiset(Blocks(xs)) + multiset(Blocks(ys))
  {
    assert Blocks(xs + ys) == Blocks(xs) + Blocks(ys);
  }

  lemma TooMany(extra: multiset<Block>, all: multiset<Block>)
    ensures extra + all == all <==> |extra| == 0
  {
    assert |extra + all| == |extra| + |all|;
    if |extra| == 0 {
      assert extra == multiset{};
    }
  }

  /** Blocks depend on the hashes only. */
  lemma {:induction false} SameHashesSameBlocks(xs: seq<Hash>, ys: seq<Hash>)
    requires multiset(xs) == multiset(ys)
    ensures multiset(Blocks(xs)) == multiset(Blocks(ys))
    decreases |xs|
  {
    if xs == [] {
      assert |multiset(ys)| == 0;
    } else {
      assert xs[0] in multiset(ys);
      var i :| 0 <= i < |ys| && ys[i] == xs[0];
      RestWithout(xs, 0);
      RestWithout(ys, i);
      SameHashesSameBlocks(Rest(xs, 0), Rest(ys, i));
      BlocksWithout(xs, 0);
      BlocksWithout(ys, i);
    }
  }

  lemma BlocksWithout(ys: seq<Hash>, i: nat)
    requires i < |ys|
    ensures multiset(Blocks(ys)) == multiset(Blocks(Rest(ys, i))) + multiset{BlockOf(ys[i])}
  {
    assert Blocks(Rest(ys, i)) == Rest(Blocks(ys), i);
    RestWithout(Blocks(ys), i);
  }

  /** One tie at the cut is enough: read in two orders, one of two messages is lost, the other repeated. */
  lemma TwoOrdersLoseAMessage(words: WordSet, query: string, u: Hash, m: Hash)
    requires BlockOf(u) != BlockOf(m)
    ensures !Conserves(words, query, [u, m], [m, u], [], 1)
  {
    PairCut(u, m);
    ConservesIff(words, query, [u, m], [m, u], [], 1);
    assert Cut(2, 1) == 1;
  }

  lemma PairCut(u: Hash, m: Hash)
    requires BlockOf(u) != BlockOf(m)
    ensures multiset([u, m]) == multiset([m, u])
    ensures multiset(Blocks([u, m][..1])) != multiset(Blocks([m, u][..1]))
  {
    assert [u, m] == [u] + [m] && [m, u] == [m] + [u];
    assert [u, m][..1] == [u] && [m, u][..1] == [m];
    assert Blocks([u]) == [BlockOf(u)] && Blocks([m]) == [BlockOf(m)];
    assert multiset([BlockOf(u)])[BlockOf(u)] == 1;
  }
}
