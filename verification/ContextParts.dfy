/** What a built context holds, said without the functions that build it. */
module ContextParts {
  import opened Values
  import opened Text
  import opened Sessions
  import opened Sorting
  import opened Context
  import opened ContextLaws

  // ----- standards and rules -----

  /** The file's text, when there is one, and then every entry, each as a system block, in order. */
  ghost predicate SystemList(blocks: seq<Block>, file: Option<string>, entries: seq<string>) {
    var first := if file.Some? && file.value != "" then 1 else 0;
    && |blocks| == first + |entries|
    && (first == 1 ==> blocks[0] == Block("system", file.value))
    && forall i :: 0 <= i < |entries| ==> blocks[first + i] == Block("system", entries[i])
  }

  lemma FileThenEntries(file: Option<string>, entries: seq<string>)
    ensures SystemList(SystemBlocks(WithFile(file, entries)), file, entries)
  {
    var texts := WithFile(file, entries);
    if file.Some? && file.value != "" {
      assert forall i :: 0 <= i < |entries| ==> texts[i + 1] == entries[i];
    }
  }

  // ----- messages -----

  /** A stored text, or the given one when it is missing or empty. */
  predicate TextIs(m: Hash, key: string, otherwise: string, text: string) {
    && (key in m && m[key] != "" ==> text == m[key])
    && (!(key in m && m[key] != "") ==> text == otherwise)
  }

  /** The block of a stored message: its source, or user, and its body. */
  predicate Shows(b: Block, m: Hash) {
    TextIs(m, "source", "user", b.role) && TextIs(m, "body", "", b.content)
  }

  /** The last messages: `n` of them or all, and for negative `n` all but the first -n. */
  ghost predicate LastMessages(blocks: seq<Block>, messages: seq<Hash>, n: int) {
    && |blocks| <= |messages|
    && (0 <= n <= |messages| ==> |blocks| == n)
    && (n > |messages| ==> |blocks| == |messages|)
    && (-|messages| <= n < 0 ==> |blocks| == |messages| + n)
    && (n < -|messages| ==> blocks == [])
    && forall i :: 0 <= i < |blocks| ==> Shows(blocks[i], messages[|messages| - |blocks| + i])
  }

  lemma LastBlocks(messages: seq<Hash>, n: int)
    ensures LastMessages(Blocks(LastN(messages, n)), messages, n)
  {
    var last := LastN(messages, n);
    assert forall i :: 0 <= i < |last| ==> last[i] == messages[|messages| - |last| + i];
  }

  // ----- the relevance slot -----

  /** Number of messages before the last `n`; a negative `n` counts as none. */
  function OlderCount(count: nat, n: int): nat {
    if n <= 0 then count else if n >= count then 0 else count - n
  }

  /**
    The candidates: the older messages with a body, then the documentation texts that are not
    empty, each once and in order. `picks` and `docPicks` are their indices.
  */
  ghost predicate Collected(blocks: seq<Block>, messages: seq<Hash>, docs: seq<string>, n: int,
                            picks: seq<nat>, docPicks: seq<nat>)
  {
    && |blocks| == |picks| + |docPicks|
    && (forall j, k :: 0 <= j < k < |picks| ==> picks[j] < picks[k])
    && (forall j, k :: 0 <= j < k < |docPicks| ==> docPicks[j] < docPicks[k])
    && (forall i: nat :: i in picks <==>
          i < OlderCount(|messages|, n) <= |messages| && "body" in messages[i] && messages[i]["body"] != "")
    && (forall i: nat :: i in docPicks <==> i < |docs| && docs[i] != "")
    && (forall j :: 0 <= j < |picks| && picks[j] < |messages| ==> Shows(blocks[j], messages[picks[j]]))
    && (forall j :: 0 <= j < |docPicks| && docPicks[j] < |docs| ==>
          blocks[|picks| + j] == Block("user", docs[docPicks[j]]))
  }

  lemma CandidatesAreCollected(messages: seq<Hash>, docs: seq<string>, n: int)
    returns (picks: seq<nat>, docPicks: seq<nat>)
    ensures Collected(Candidates(Some(messages), docs, n), messages, docs, n, picks, docPicks)
  {
    OlderAreFirst(messages, n);
    picks := FilterPicks(NonEmpty, Blocks(Older(messages, n)));
    docPicks := FilterPicks(NonEmpty, UserBlocks(docs));
    PickedMessages(messages, n, picks);
    PickedDocs(docs, docPicks);
  }

  lemma OlderAreFirst(messages: seq<Hash>, n: int)
    ensures var older := Older(messages, n);
            |older| == OlderCount(|messages|, n) <= |messages|
            && forall i :: 0 <= i < |older| ==> older[i] == messages[i]
  {
  }

  lemma PickedMessages(messages: seq<Hash>, n: int, picks: seq<nat>)
    requires Picks(picks, NonEmpty, Blocks(Older(messages, n)))
    ensures forall i: nat :: i in picks <==>
              i < OlderCount(|messages|, n) <= |messages| && "body" in messages[i] && messages[i]["body"] != ""
    ensures forall j :: 0 <= j < |picks| ==>
              picks[j] < |Older(messages, n)| && Shows(Blocks(Older(messages, n))[picks[j]], messages[picks[j]])
  {
    OlderAreFirst(messages, n);
    forall j | 0 <= j < |picks|
      ensures picks[j] < |Older(messages, n)| && Shows(Blocks(Older(messages, n))[picks[j]], messages[picks[j]])
    {
      assert picks[j] in picks;
    }
  }

  lemma PickedDocs(docs: seq<string>, docPicks: seq<nat>)
    requires Picks(docPicks, NonEmpty, UserBlocks(docs))
    ensures forall i: nat :: i in docPicks <==> i < |docs| && docs[i] != ""
  {
  }

  /** Words of the query that occur in the block. */
  function Common(words: WordSet, query: string, b: Block): nat {
    |words(query) * words(b.content)|
  }

  /** Along the slot the number of query words that occur never increases. */
  ghost predicate ByCommonWords(words: WordSet, query: string, slot: seq<Block>) {
    forall i, j :: 0 <= i < j < |slot| ==> Common(words, query, slot[i]) >= Common(words, query, slot[j])
  }

  lemma ScoreCounts(words: WordSet, query: string, a: Block, b: Block)
    ensures RelevanceTo(words, words(query), a) >= RelevanceTo(words, words(query), b) <==>
            Common(words, query, a) >= Common(words, query, b)
  {
    var q := words(query);
    if q == {} {
      assert q * words(a.content) == {} && q * words(b.content) == {};
    } else {
      ScoreIsShare(q, words(a.content));
      ScoreIsShare(q, words(b.content));
      Quotients(Common(words, query, a), Common(words, query, b), |q|);
    }
  }

  lemma ScoreIsShare(query: set<string>, words: set<string>)
    requires query != {}
    ensures Score(query, words) == |query * words| as real / |query| as real
  {
    if words == {} {
      assert query * words == {};
    }
  }

  lemma Quotients(a: nat, b: nat, c: nat)
    requires c > 0
    ensures a as real / c as real >= b as real / c as real <==> a >= b
  {
    var x, y := a as real / c as real, b as real / c as real;
    assert x * c as real == a as real && y * c as real == b as real;
  }

  /**
    The slot is a rearrangement of the collected candidates by the number of query words that
    occur in them, and candidates with equally many keep their order.
  */
  ghost predicate RelevanceList(words: WordSet, query: string, slot: seq<Block>, store: Option<seq<Hash>>,
                                docs: seq<string>, n: int)
  {
    && (store.None? ==> slot == [])
    && (store.Some? ==>
          && ByCommonWords(words, query, slot)
          && exists collected, picks, docPicks ::
               && Collected(collected, store.value, docs, n, picks, docPicks)
               && multiset(slot) == multiset(collected)
               && forall b :: SameCount(words, query, b, slot) == SameCount(words, query, b, collected))
  }

  /** The blocks with as many common words as `b`, in order. */
  ghost function SameCount(words: WordSet, query: string, b: Block, xs: seq<Block>): seq<Block> {
    if xs == [] then [] else
    (if Common(words, query, xs[0]) == Common(words, query, b) then [xs[0]] else [])
    + SameCount(words, query, b, xs[1..])
  }

  lemma {:induction false} TiesAreSameCount(words: WordSet, query: string, b: Block, xs: seq<Block>)
    ensures Ties(ByRelevance(words, words(query)), b, xs) == SameCount(words, query, b, xs)
  {
    if xs != [] {
      TiesAreSameCount(words, query, b, xs[1..]);
      ScoreCounts(words, query, b, xs[0]);
      ScoreCounts(words, query, xs[0], b);
    }
  }

  lemma {:induction false} SlotIsRelevanceList(words: WordSet, query: string, store: Option<seq<Hash>>,
                                               docs: seq<string>, n: int)
    ensures RelevanceList(words, query, FillSlot(words, query, store, docs, n), store, docs, n)
  {
    var slot, collected := FillSlot(words, query, store, docs, n), Candidates(store, docs, n);
    SlotIsStablePermutation(words, query, store, docs, n, slot);
    if store.Some? {
      var picks, docPicks := CandidatesAreCollected(store.value, docs, n);
      forall i, j | 0 <= i < j < |slot| ensures Common(words, query, slot[i]) >= Common(words, query, slot[j]) {
        ScoreCounts(words, query, slot[i], slot[j]);
        assert ByRelevance(words, words(query))(slot[i], slot[j]);
      }
      forall b ensures SameCount(words, query, b, slot) == SameCount(words, query, b, collected) {
        TiesAreSameCount(words, query, b, slot);
        TiesAreSameCount(words, query, b, collected);
      }
    }
  }

  // ----- the list handed on -----

  function ContentLength(blocks: seq<Block>): nat {
    if blocks == [] then 0 else |blocks[0].content| + ContentLength(blocks[1..])
  }

  lemma {:induction false} CharsAreContent(blocks: seq<Block>)
    ensures TotalChars(Chars, blocks) == ContentLength(blocks)
  {
    if blocks != [] {
      CharsAreContent(blocks[1..]);
    }
  }

  /** The limit: the window, by default 4096, or the asked number, at least 1, when that is smaller. */
  predicate LimitIs(window: Option<int>, asked: int, limit: int) {
    var w := if window.Some? && window.value != 0 then window.value else 4096;
    && limit <= w && limit <= (if asked < 1 then 1 else asked)
    && (limit == w || limit == asked || (limit == 1 && asked < 1))
  }

  /** The longest suffix of `all` whose characters make at most `limit` tokens of four, if `limit` is positive. */
  ghost predicate LongestWithin(serialized: seq<Block>, all: seq<Block>, limit: int) {
    exists i :: 0 <= i <= |all| && SuffixFrom(all, i) == serialized
      && (limit <= 0 ==> i == 0)
      && (limit > 0 ==> ContentLength(SuffixFrom(all, i)) < 4 * (limit + 1))
      && (limit > 0 ==> forall j :: 0 <= j < i ==> ContentLength(SuffixFrom(all, j)) >= 4 * (limit + 1))
  }

  function SuffixFrom(all: seq<Block>, i: nat): seq<Block>
    requires i <= |all|
  {
    all[i..]
  }

  lemma TrimmedIsLongest(all: seq<Block>, limit: int)
    ensures LongestWithin(Trimmed(Chars, all, limit, CHARS_PER_TOKEN), all, limit)
  {
    if limit > 0 {
      var i := TrimCuts(Chars, all, limit, CHARS_PER_TOKEN);
      CharsAreContent(all[i..]);
      assert SuffixFrom(all, i) == Trimmed(Chars, all, limit, CHARS_PER_TOKEN);
      forall j | 0 <= j < i ensures ContentLength(SuffixFrom(all, j)) >= 4 * (limit + 1) {
        CharsAreContent(all[j..]);
        assert Tokens(Chars, all[j..], CHARS_PER_TOKEN) > limit;
      }
    } else {
      assert SuffixFrom(all, 0) == all;
    }
  }

  // ----- the whole build -----

  /** The model to build for: the override, or else the session's, without outer white space. */
  predicate ModelIs(session: Session, modelOverride: Option<string>, model: string) {
    && (modelOverride.Some? && modelOverride.value != "" ==> model == Strip(modelOverride.value))
    && (!(modelOverride.Some? && modelOverride.value != "") && session.model.Some? ==>
          model == Strip(session.model.value))
    && (!(modelOverride.Some? && modelOverride.value != "") && session.model.None? ==> model == "")
  }

  /** What `build` answers for a session, given the model and the limit, part by part. */
  ghost predicate BuiltWith(s: Settings, session: Session, messages: seq<Hash>, store: Option<seq<Hash>>,
                            docs: seq<string>, query: string, r: Reserve, model: string, limit: int, b: BuildResult)
  {
    if model == "" then b == ModelMissing
    else if limit < r.minSemantic + r.minDocumentation then b == RemainderNegative
    else
      && b.Context?
      && SystemList(b.parts.standards, s.fileStandards, session.standards)
      && SystemList(b.parts.rules, s.fileRules, session.rules)
      && LastMessages(b.parts.lastN, messages, r.lastN)
      && RelevanceList(s.words, query, b.parts.relevance, store, docs, r.lastN)
      && LongestWithin(b.serialized, b.parts.standards + b.parts.rules + b.parts.lastN + b.parts.relevance, limit)
  }

  /** It fails for a missing session, then for a blank model, then when the limit does not cover the reserves. */
  ghost predicate Built(s: Settings, session: Option<Session>, messages: seq<Hash>, store: Option<seq<Hash>>,
                        docs: seq<string>, query: string, r: Reserve, modelOverride: Option<string>, b: BuildResult)
  {
    if session.None? then b == SessionMissing
    else exists model, limit ::
      && ModelIs(session.value, modelOverride, model) && LimitIs(s.modelContextTokens, r.maxContextTokens, limit)
      && BuiltWith(s, session.value, messages, store, docs, query, r, model, limit, b)
  }

  /**
    A build gives the file's text and the session's own entries as system blocks, the last
    messages, the older ones by common words, and of all that the longest end within the limit.
  */
  lemma {:induction false} BuildIsBuilt(s: Settings, session: Option<Session>, messages: seq<Hash>,
                                        store: Option<seq<Hash>>, docs: seq<string>, query: string, r: Reserve,
                                        modelOverride: Option<string>)
    ensures Built(s, session, messages, store, docs, query, r, modelOverride,
                  BuiltContext(s, session, messages, store, docs, query, r, modelOverride))
  {
    if session.Some? {
      StripFixed("");
      assert ModelIs(session.value, modelOverride, EffectiveModel(session.value, modelOverride));
      assert LimitIs(s.modelContextTokens, r.maxContextTokens, EffectiveLimit(s, r));
      PartsAreBuilt(s, session.value, messages, store, docs, query, r, modelOverride);
    }
  }

  lemma PartsAreBuilt(s: Settings, session: Session, messages: seq<Hash>, store: Option<seq<Hash>>, docs: seq<string>,
                      query: string, r: Reserve, modelOverride: Option<string>)
    ensures BuiltWith(s, session, messages, store, docs, query, r, EffectiveModel(session, modelOverride),
                      EffectiveLimit(s, r),
                      BuiltContext(s, Some(session), messages, store, docs, query, r, modelOverride))
  {
    var b := BuiltContext(s, Some(session), messages, store, docs, query, r, modelOverride);
    if b.Context? {
      FileThenEntries(s.fileStandards, session.standards);
      FileThenEntries(s.fileRules, session.rules);
      LastBlocks(messages, r.lastN);
      SlotIsRelevanceList(s.words, query, store, docs, r.lastN);
      TrimmedIsLongest(Ordered(b.parts), EffectiveLimit(s, r));
    }
  }
}
