/**
  Building the model context: standards, rules, the last n messages and a relevance slot with
  the older ones, then trimmed from the front to a token limit.
*/
module Context {
  import opened Values
  import opened Text
  import opened Sessions
  import opened Sorting

  const CHARS_PER_TOKEN := 4
  const DEFAULT_MODEL_CONTEXT_TOKENS := 4096

  // ----- trimming -----

  function TotalChars<T>(chars: T -> nat, messages: seq<T>): nat {
    if messages == [] then 0 else chars(messages[0]) + TotalChars(chars, messages[1..])
  }

  /** Python's `a // b`, which rounds down. */
  function FloorDiv(a: nat, b: int): (q: int)
    requires b != 0
    ensures b > 0 ==> q * b <= a < (q + 1) * b
    ensures b < 0 ==> q * b >= a > (q + 1) * b
    ensures b < 0 ==> q <= 0
    ensures a == 0 ==> q == 0
  {
    if b > 0 then a / b else
    var n, m := -b, a - b - 1;
    assert m == m / n * n + m % n;
    -(m / n)
  }

  /** Estimated tokens: total characters floor-divided by the characters per token. */
  function Tokens<T>(chars: T -> nat, messages: seq<T>, rate: int): int
    requires rate != 0
  {
    FloorDiv(TotalChars(chars, messages), rate)
  }

  /** Drop from the front until the rest fits. */
  function Trimmed<T>(chars: T -> nat, messages: seq<T>, maxTokens: int, rate: int): seq<T>
    requires rate != 0
  {
    if maxTokens <= 0 || messages == [] || Tokens(chars, messages, rate) <= maxTokens then messages
    else Trimmed(chars, messages[1..], maxTokens, rate)
  }

  /** None is the ZeroDivisionError for zero characters per token. */
  function TrimResult<T>(chars: T -> nat, messages: seq<T>, maxTokens: int, rate: int): Option<seq<T>> {
    if maxTokens <= 0 || messages == [] then Some(messages)
    else if rate == 0 then None
    else Some(Trimmed(chars, messages, maxTokens, rate))
  }

  method TrimToTokenLimit<T>(chars: T -> nat, messages: seq<T>, maxTokens: int, rate: int) returns (out: Option<seq<T>>)
    ensures out == TrimResult(chars, messages, maxTokens, rate)
  {
    if maxTokens <= 0 || messages == [] {
      return Some(messages);
    }
    var running := TotalChars(chars, messages);
    if rate == 0 {
      return None;
    }
    if FloorDiv(running, rate) <= maxTokens {
      return Some(messages);
    }
    var i := 0;
    assert messages[0..] == messages;
    while i < |messages| && FloorDiv(running, rate) > maxTokens
      invariant 0 <= i <= |messages|
      invariant running == TotalChars(chars, messages[i..])
      invariant Trimmed(chars, messages[i..], maxTokens, rate) == Trimmed(chars, messages, maxTokens, rate)
    {
      running := running - chars(messages[i]);
      assert messages[i..][1..] == messages[i + 1..];
      i := i + 1;
    }
    out := Some(messages[i..]);
  }

  /** The suffix from i fits, and every longer one does not. */
  ghost predicate CutAt<T>(chars: T -> nat, messages: seq<T>, maxTokens: int, rate: int, i: int)
    requires rate != 0
  {
    && 0 <= i <= |messages|
    && Tokens(chars, messages[i..], rate) <= maxTokens
    && forall j :: 0 <= j < i ==> Tokens(chars, messages[j..], rate) > maxTokens
  }

  ghost predicate LongestFittingSuffix<T>(chars: T -> nat, messages: seq<T>, maxTokens: int, rate: int, out: seq<T>)
    requires rate != 0
  {
    exists i :: CutAt(chars, messages, maxTokens, rate, i) && out == messages[i..]
  }

  lemma {:induction false} TrimCuts<T>(chars: T -> nat, messages: seq<T>, maxTokens: int, rate: int) returns (i: nat)
    requires rate != 0 && maxTokens > 0
    ensures CutAt(chars, messages, maxTokens, rate, i)
    ensures Trimmed(chars, messages, maxTokens, rate) == messages[i..]
  {
    assert messages[0..] == messages;
    if messages == [] || Tokens(chars, messages, rate) <= maxTokens {
      i := 0;
    } else {
      var tail := messages[1..];
      var k := TrimCuts(chars, tail, maxTokens, rate);
      i := k + 1;
      assert tail[k..] == messages[i..];
      forall j | 0 <= j < i ensures Tokens(chars, messages[j..], rate) > maxTokens {
        if j > 0 {
          assert tail[j - 1..] == messages[j..];
          assert Tokens(chars, tail[j - 1..], rate) > maxTokens;
        }
      }
    }
  }

  /**
    For a positive limit the trim is the one longest suffix that fits; trimming again changes
    nothing, and a larger limit keeps at least as much. A non-positive limit trims nothing, and
    neither does a negative number of characters per token.
  */
  lemma {:induction false} TrimIsOptimal<T>(chars: T -> nat, messages: seq<T>, maxTokens: int, larger: int, rate: int,
                                            out: seq<T>)
    requires rate != 0
    ensures var t := Trimmed(chars, messages, maxTokens, rate);
            && (maxTokens > 0 ==> (LongestFittingSuffix(chars, messages, maxTokens, rate, out) <==> out == t))
            && (maxTokens <= 0 || rate < 0 ==> t == messages)
            && Trimmed(chars, t, maxTokens, rate) == t
            && (0 < maxTokens <= larger ==> |t| <= |Trimmed(chars, messages, larger, rate)|)
  {
    if maxTokens > 0 {
      var i := TrimCuts(chars, messages, maxTokens, rate);
      if LongestFittingSuffix(chars, messages, maxTokens, rate, out) {
        var k :| CutAt(chars, messages, maxTokens, rate, k) && out == messages[k..];
        assert i == k;
      }
      if maxTokens <= larger {
        var k := TrimCuts(chars, messages, larger, rate);
        assert k <= i;
      }
    }
  }

  // ----- stored messages as context blocks -----

  datatype Block = Block(role: string, content: string)

  function FieldOr(h: Hash, key: string, default: string): string {
    if key in h && h[key] != "" then h[key] else default
  }

  function BlockOf(m: Hash): Block {
    Block(FieldOr(m, "source", "user"), FieldOr(m, "body", ""))
  }

  function Blocks(messages: seq<Hash>): (r: seq<Block>)
    ensures |r| == |messages|
    ensures forall i :: 0 <= i < |r| ==> r[i] == BlockOf(messages[i])
  {
    seq(|messages|, i requires 0 <= i < |messages| => BlockOf(messages[i]))
  }

  function SystemBlocks(texts: seq<string>): seq<Block> {
    seq(|texts|, i requires 0 <= i < |texts| => Block("system", texts[i]))
  }

  function UserBlocks(texts: seq<string>): seq<Block> {
    seq(|texts|, i requires 0 <= i < |texts| => Block("user", texts[i]))
  }

  /** Python's `messages[-n:] if n else []`; for negative n the slice drops the first -n instead. */
  function LastN(messages: seq<Hash>, n: int): seq<Hash> {
    if n == 0 then []
    else if n > 0 then messages[Clamp(|messages| - n, |messages|)..]
    else messages[Clamp(-n, |messages|)..]
  }

  /** Python's `messages[:-n] if n else messages` with n first raised to 0. */
  function Older(messages: seq<Hash>, n: int): seq<Hash> {
    if n <= 0 then messages else messages[..Clamp(|messages| - n, |messages|)]
  }

  // ----- the relevance slot -----

  /** Lower-cased words of a text; the empty text has none. */
  type WordSet = string -> set<string>

  function Score(query: set<string>, words: set<string>): real {
    if query == {} || words == {} then 0.0 else |query * words| as real / |query| as real
  }

  predicate NonEmpty(b: Block) { b.content != "" }

  /** Non-empty older messages, then non-empty documentation. No store: no candidates at all. */
  function Candidates(store: Option<seq<Hash>>, docs: seq<string>, n: int): seq<Block> {
    if store.None? then []
    else Filter(NonEmpty, Blocks(Older(store.value, n))) + Filter(NonEmpty, UserBlocks(docs))
  }

  /** The gathering loop: blocks without content are skipped. */
  method KeepNonEmpty(blocks: seq<Block>) returns (out: seq<Block>)
    ensures out == Filter(NonEmpty, blocks)
  {
    out := [];
    for i := 0 to |blocks|
      invariant out + Filter(NonEmpty, blocks[i..]) == Filter(NonEmpty, blocks)
    {
      FilterStep(NonEmpty, blocks, i, out);
      if blocks[i].content != "" {
        out := out + [blocks[i]];
      }
    }
  }

  method GatherCandidates(store: Option<seq<Hash>>, docs: seq<string>, n: int) returns (out: seq<Block>)
    ensures out == Candidates(store, docs, n)
  {
    if store.None? {
      return [];
    }
    out := KeepNonEmpty(Blocks(Older(store.value, n)));
    var texts := KeepNonEmpty(UserBlocks(docs));
    out := out + texts;
  }

  function RelevanceTo(words: WordSet, query: set<string>, b: Block): real {
    Score(query, words(b.content))
  }

  /** Descending score: the order of the slot. */
  function ByRelevance(words: WordSet, query: set<string>): (Block, Block) -> bool {
    (a, b) => RelevanceTo(words, query, a) >= RelevanceTo(words, query, b)
  }

  /** `fill_slot`: candidates by descending word overlap with the query. */
  function FillSlot(words: WordSet, query: string, store: Option<seq<Hash>>, docs: seq<string>, n: int): seq<Block> {
    SortBy(ByRelevance(words, words(query)), Candidates(store, docs, n))
  }

  // ----- build -----

  datatype Settings = Settings(
    modelContextTokens: Option<int>,
    fileStandards: Option<string>,
    fileRules: Option<string>,
    words: WordSet)

  datatype Reserve = Reserve(maxContextTokens: int, lastN: int, minSemantic: int, minDocumentation: int)

  datatype Trimming = Trimming(standards: seq<Block>, rules: seq<Block>, lastN: seq<Block>, relevance: seq<Block>)

  datatype BuildResult = Context(parts: Trimming, serialized: seq<Block>)
                       | SessionMissing | ModelMissing | RemainderNegative

  /** `model_context_tokens or 4096`. */
  function ModelTokens(s: Settings): int {
    if s.modelContextTokens.None? || s.modelContextTokens.value == 0 then DEFAULT_MODEL_CONTEXT_TOKENS
    else s.modelContextTokens.value
  }

  function EffectiveLimit(s: Settings, r: Reserve): int {
    var asked := if r.maxContextTokens > 1 then r.maxContextTokens else 1;
    if ModelTokens(s) < asked then ModelTokens(s) else asked
  }

  /** The file's text first, when there is one, then the session's own list. */
  function WithFile(file: Option<string>, texts: seq<string>): seq<string> {
    if file.Some? && file.value != "" then [file.value] + texts else texts
  }

  function EffectiveModel(session: Session, modelOverride: Option<string>): string {
    Strip(if modelOverride.Some? && modelOverride.value != "" then modelOverride.value
          else if session.model.Some? then session.model.value else "")
  }

  function Chars(b: Block): nat { |b.content| }

  function Ordered(t: Trimming): seq<Block> {
    t.standards + t.rules + t.lastN + t.relevance
  }

  function Parts(s: Settings, session: Session, messages: seq<Hash>, store: Option<seq<Hash>>, docs: seq<string>,
                 query: string, r: Reserve): Trimming
  {
    Trimming(SystemBlocks(WithFile(s.fileStandards, session.standards)),
             SystemBlocks(WithFile(s.fileRules, session.rules)),
             Blocks(LastN(messages, r.lastN)),
             FillSlot(s.words, query, store, docs, r.lastN))
  }

  /**
    `messages` is what the builder's message store holds for the session, `store` what the
    relevance builder's store holds, None when it has no store.
  */
  method Build(s: Settings, session: Option<Session>, messages: seq<Hash>, store: Option<seq<Hash>>, docs: seq<string>,
               query: string, r: Reserve, modelOverride: Option<string>) returns (result: BuildResult)
    ensures result == BuiltContext(s, session, messages, store, docs, query, r, modelOverride)
  {
    if session.None? {
      return SessionMissing;
    }
    if EffectiveModel(session.value, modelOverride) == "" {
      return ModelMissing;
    }
    var limit := EffectiveLimit(s, r);
    var lastN := Blocks(LastN(messages, r.lastN));
    var remainder := limit;
    remainder := remainder - r.minSemantic;
    remainder := remainder - r.minDocumentation;
    if remainder < 0 {
      return RemainderNegative;
    }
    var candidates := GatherCandidates(store, docs, r.lastN);
    var relevance := SortBy(ByRelevance(s.words, s.words(query)), candidates);
    var standards := SystemBlocks(WithFile(s.fileStandards, session.value.standards));
    var rules := SystemBlocks(WithFile(s.fileRules, session.value.rules));
    var parts := Trimming(standards, rules, lastN, relevance);
    var serialized := TrimToTokenLimit(Chars, Ordered(parts), limit, CHARS_PER_TOKEN);
    result := Context(parts, serialized.value);
  }

  function BuiltContext(s: Settings, session: Option<Session>, messages: seq<Hash>, store: Option<seq<Hash>>,
                        docs: seq<string>, query: string, r: Reserve, modelOverride: Option<string>): BuildResult
  {
    if session.None? then SessionMissing
    else if EffectiveModel(session.value, modelOverride) == "" then ModelMissing
    else if EffectiveLimit(s, r) - r.minSemantic - r.minDocumentation < 0 then RemainderNegative
    else
      var parts := Parts(s, session.value, messages, store, docs, query, r);
      Context(parts, Trimmed(Chars, Ordered(parts), EffectiveLimit(s, r), CHARS_PER_TOKEN))
  }
}
