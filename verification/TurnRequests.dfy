/** The first request of a turn, from the session, the config and the stored messages. */
module TurnRequests {
  import opened Values
  import opened Text
  import opened Sessions
  import opened SessionStores
  import Chat = ChatFlow
  import Ctx = Context
  import opened ContextParts
  import opened Transcript
  import opened SessionTurn

  /** The first of the three models that is not empty, without outer white space. */
  predicate ModelFor(cfg: Config, s: Session, t: Turn, model: string) {
    if t.model.Some? && t.model.value != "" then model == Strip(t.model.value)
    else if s.model.Some? && s.model.value != "" then model == Strip(s.model.value)
    else model == Strip(cfg.defaultModel)
  }

  /** The blocks one by one, and the user's message after them. */
  ghost predicate Says(history: seq<Chat.Message>, blocks: seq<Ctx.Block>, content: string) {
    && |history| == |blocks| + 1
    && (forall i :: 0 <= i < |blocks| ==> history[i] == Chat.RoleMessage(blocks[i].role, blocks[i].content, []))
    && history[|blocks|] == Chat.RoleMessage("user", content, [])
  }

  /**
    The blocks of the trimmed context: from standards, rules, last messages and relevance, the
    longest end within the limit.
  */
  ghost predicate TrimmedContext(db: Database, cfg: Config, s: Session, t: Turn, limit: int, blocks: seq<Ctx.Block>) {
    exists parts: Ctx.Trimming ::
      && SystemList(parts.standards, cfg.fileStandards, s.standards)
      && SystemList(parts.rules, cfg.fileRules, s.rules)
      && LastMessages(parts.lastN, Messages(db, t.builderScan, t.sessionId), cfg.lastN)
      && RelevanceList(cfg.words, t.content, parts.relevance, Some(Messages(db, t.relevanceScan, t.sessionId)), [],
                       cfg.lastN)
      && LongestWithin(blocks, parts.standards + parts.rules + parts.lastN + parts.relevance, limit)
  }

  /** All stored messages of the session, in the order of the read. */
  ghost predicate StoredBlocks(db: Database, t: Turn, blocks: seq<Ctx.Block>) {
    var read := Messages(db, t.fallbackScan, t.sessionId);
    |blocks| == |read| && forall i :: 0 <= i < |read| ==> Shows(blocks[i], read[i])
  }

  /**
    What the model is first asked: the trimmed context when a model is set and the limit covers
    256 tokens and the documentation reserve, otherwise all stored messages; then the user's message.
  */
  lemma {:induction false} RequestOfTurn(db: Database, cfg: Config, s: Session, t: Turn)
    returns (model: string, limit: int, blocks: seq<Ctx.Block>)
    ensures ModelFor(cfg, s, t, model) && LimitIs(Some(cfg.maxContextTokens), cfg.maxContextTokens, limit)
    ensures Says(HistoryOf(db, cfg, s, t), blocks, t.content)
    ensures if model != "" && limit >= 256 + cfg.minDocumentation then TrimmedContext(db, cfg, s, t, limit, blocks)
            else StoredBlocks(db, t, blocks)
  {
    model, limit := BuiltForTurn(db, cfg, s, t);
    var built := ContextOf(db, cfg, s, t);
    blocks := if built.Context? then built.serialized else Ctx.Blocks(Messages(db, t.fallbackScan, t.sessionId));
    HistorySays(db, cfg, s, t);
    if built.Context? {
      BuiltIsTrimmed(db, cfg, s, t, model, limit);
    } else {
      FallbackIsStored(db, t);
      NotBuilt(db, cfg, s, t, model, limit);
    }
  }

  lemma NotBuilt(db: Database, cfg: Config, s: Session, t: Turn, model: string, limit: int)
    requires BuiltFor(db, cfg, s, t, model, limit) && !ContextOf(db, cfg, s, t).Context?
    ensures model == "" || limit < 256 + cfg.minDocumentation
  {
  }

  lemma FallbackIsStored(db: Database, t: Turn)
    ensures StoredBlocks(db, t, Ctx.Blocks(Messages(db, t.fallbackScan, t.sessionId)))
  {
  }

  lemma BuiltForTurn(db: Database, cfg: Config, s: Session, t: Turn) returns (model: string, limit: int)
    ensures ModelFor(cfg, s, t, model) && LimitIs(Some(cfg.maxContextTokens), cfg.maxContextTokens, limit)
    ensures BuiltFor(db, cfg, s, t, model, limit)
  {
    BuildIsBuilt(SettingsOf(cfg), Some(s), Messages(db, t.builderScan, t.sessionId),
                 Some(Messages(db, t.relevanceScan, t.sessionId)), [], t.content, ReserveOf(cfg),
                 Some(UseModel(cfg, s, t.model)));
    model, limit :|
      && ModelIs(s, Some(UseModel(cfg, s, t.model)), model)
      && LimitIs(SettingsOf(cfg).modelContextTokens, ReserveOf(cfg).maxContextTokens, limit)
      && BuiltWith(SettingsOf(cfg), s, Messages(db, t.builderScan, t.sessionId),
                   Some(Messages(db, t.relevanceScan, t.sessionId)), [], t.content, ReserveOf(cfg), model, limit,
                   ContextOf(db, cfg, s, t));
    ModelOfTurn(cfg, s, t, model);
  }

  lemma ModelOfTurn(cfg: Config, s: Session, t: Turn, model: string)
    requires ModelIs(s, Some(UseModel(cfg, s, t.model)), model)
    ensures ModelFor(cfg, s, t, model)
  {
    StripFixed("");
  }

  ghost predicate BuiltFor(db: Database, cfg: Config, s: Session, t: Turn, model: string, limit: int) {
    BuiltWith(SettingsOf(cfg), s, Messages(db, t.builderScan, t.sessionId),
              Some(Messages(db, t.relevanceScan, t.sessionId)), [], t.content, ReserveOf(cfg), model, limit,
              ContextOf(db, cfg, s, t))
  }

  lemma BuiltIsTrimmed(db: Database, cfg: Config, s: Session, t: Turn, model: string, limit: int)
    requires BuiltFor(db, cfg, s, t, model, limit) && ContextOf(db, cfg, s, t).Context?
    ensures model != "" && limit >= 256 + cfg.minDocumentation
    ensures TrimmedContext(db, cfg, s, t, limit, ContextOf(db, cfg, s, t).serialized)
  {
  }

  lemma HistorySays(db: Database, cfg: Config, s: Session, t: Turn)
    ensures var built := ContextOf(db, cfg, s, t);
            var blocks := if built.Context? then built.serialized
                          else Ctx.Blocks(Messages(db, t.fallbackScan, t.sessionId));
            Says(HistoryOf(db, cfg, s, t), blocks, t.content)
  {
  }

  /** No message before the last ones is later than one of them. */
  lemma {:induction false} LastAreLatest(db: Database, prefix: string, scan: seq<string>, sid: string, i: nat, j: nat)
    requires IsScan(db, prefix, scan) && i < j < |Messages(db, scan, sid)|
    ensures var read := Messages(db, scan, sid);
            !EarlierTime(CreatedAt(read[j]), CreatedAt(read[i]))
  {
    var read := Messages(db, scan, sid);
    var keys := ReadIsSortedPermutation(db, prefix, scan, sid);
    if CreatedAt(read[i]) != CreatedAt(read[j]) {
      ReadOrder(read, j, i);
    } else {
      EarlierTimeIff(CreatedAt(read[j]), CreatedAt(read[i]));
    }
  }
}
