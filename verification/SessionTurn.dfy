/**
  One session turn of `mwps_chat`: load the session, build the context, discover commands, build
  the tools, run the chat loop, and persist the user message and the reply.
*/
module SessionTurn {
  import opened Values
  import opened Sessions
  import opened SessionStores
  import opened ToolList
  import opened Discovery
  import Chat = ChatFlow
  import Ctx = Context
  import opened Transcript

  const MIN_SEMANTIC_TOKENS := 256

  datatype Config = Config(
    prefix: string,
    maxContextTokens: int,
    lastN: int,
    minDocumentation: int,
    fileStandards: Option<string>,
    fileRules: Option<string>,
    words: Ctx.WordSet,
    defaultModel: string,
    policy: PolicyConfig,
    preferred: Option<string>)

  /** One request, together with what the outside world answers during it. */
  datatype Turn = Turn(
    sessionId: string,
    content: string,
    model: Option<string>,
    maxRounds: int,
    // scan orders of the reads by the context builder, the relevance builder and the fallback
    builderScan: seq<string>, relevanceScan: seq<string>, fallbackScan: seq<string>,
    listing: Listing,
    provider: (nat, seq<Chat.Message>) -> Chat.ProviderResult,
    proxy: (nat, Chat.ProxyCall) -> Chat.ProxyResult,
    format: Chat.Raw -> string,
    dumps: Chat.Raw -> string,
    now: string, userUuid: string, modelUuid: string,
    // how many of the two writes succeed before one fails
    writes: nat)

  datatype TurnResult = Replied(message: string, history: seq<Chat.Message>)
                      | SessionNotFound | ChatError(message: string) | PersistError | Raised

  // ----- the stages -----

  /** `model or session.model or config.mwps_model`. */
  function UseModel(cfg: Config, s: Session, model: Option<string>): string {
    if model.Some? && model.value != "" then model.value
    else if s.model.Some? && s.model.value != "" then s.model.value
    else cfg.defaultModel
  }

  function AsMessages(blocks: seq<Ctx.Block>): seq<Chat.Message> {
    seq(|blocks|, i requires 0 <= i < |blocks| => Chat.RoleMessage(blocks[i].role, blocks[i].content, []))
  }

  function SettingsOf(cfg: Config): Ctx.Settings {
    Ctx.Settings(Some(cfg.maxContextTokens), cfg.fileStandards, cfg.fileRules, cfg.words)
  }

  function ReserveOf(cfg: Config): Ctx.Reserve {
    Ctx.Reserve(cfg.maxContextTokens, cfg.lastN, MIN_SEMANTIC_TOKENS, cfg.minDocumentation)
  }

  function ContextOf(db: Database, cfg: Config, s: Session, t: Turn): Ctx.BuildResult {
    Ctx.BuiltContext(SettingsOf(cfg), Some(s), Messages(db, t.builderScan, t.sessionId),
                     Some(Messages(db, t.relevanceScan, t.sessionId)), [], t.content, ReserveOf(cfg),
                     Some(UseModel(cfg, s, t.model)))
  }

  /** The trimmed context, or on a context error all stored messages; then the user's message. */
  function HistoryOf(db: Database, cfg: Config, s: Session, t: Turn): seq<Chat.Message> {
    var built := ContextOf(db, cfg, s, t);
    var blocks := if built.Context? then built.serialized else Ctx.Blocks(Messages(db, t.fallbackScan, t.sessionId));
    AsMessages(blocks) + [Chat.RoleMessage("user", t.content, [])]
  }

  /** The ids behind the tools of the turn: none when discovery or the builder raises. */
  function TurnIds(cfg: Config, s: Session, listing: Listing): seq<string> {
    if Escaping(listing, []) then [] else
    var kept := KeptIds(s, cfg.policy, Refreshed(listing, []), cfg.preferred);
    if Registrable(kept) then kept else []
  }

  /** Name of `MODEL_HELP_TOOL`. */
  const HELP := "help"

  /** The names handed to the provider: the turn's commands, and always the help tool last. */
  function ShownNames(cfg: Config, s: Session, listing: Listing): seq<string> {
    Names(TurnIds(cfg, s, listing)) + [HELP]
  }

  function WorldOf(cfg: Config, s: Session, t: Turn): Chat.World {
    Chat.World(t.provider, t.proxy, t.format, t.dumps, Some(RegistryOf(TurnIds(cfg, s, t.listing))))
  }

  function ChatOf(db: Database, cfg: Config, s: Session, t: Turn): Chat.Outcome {
    Chat.Flow(WorldOf(cfg, s, t), HistoryOf(db, cfg, s, t), t.maxRounds)
  }

  function UserRecord(t: Turn): Record {
    Record(t.userUuid, t.now, "user", t.content, t.sessionId)
  }

  function ModelRecord(t: Turn, reply: string): Record {
    Record(t.modelUuid, t.now, "model", reply, t.sessionId)
  }

  function Written(db: Database, keyPrefix: string, r: Record): Database {
    HSet(db, RecordKey(MessagePrefix(keyPrefix), r.uuid), RecordHash(r))
  }

  /** The database after the two writes, the second one only if the first succeeded. */
  function Persisted(db: Database, keyPrefix: string, t: Turn, reply: string): Database {
    if t.writes == 0 then db
    else if t.writes == 1 then Written(db, keyPrefix, UserRecord(t))
    else Written(Written(db, keyPrefix, UserRecord(t)), keyPrefix, ModelRecord(t, reply))
  }

  /** The chat result is persisted: it returned, with no error or with an empty error text. */
  predicate Persistable(r: Chat.FlowResult) {
    r.Returned? && (r.error.None? || r.error.value == "")
  }

  function TurnAnswer(r: Chat.FlowResult, t: Turn): TurnResult {
    if r.Escaped? then Raised
    else if !Persistable(r) then ChatError(r.error.value)
    else if t.writes < 2 then PersistError
    else Replied(r.message, r.history)
  }

  /** Database and answer after the turn. */
  function TurnStep(db: Database, session: Option<Session>, cfg: Config, t: Turn): (Database, TurnResult) {
    if session.None? then (db, SessionNotFound) else
    var r := ChatOf(db, cfg, session.value, t).result;
    (if Persistable(r) then Persisted(db, cfg.prefix, t, r.message) else db, TurnAnswer(r, t))
  }

  // ----- the command -----

  method BuildHistory(client: RedisClient, cfg: Config, s: Session, t: Turn) returns (history: seq<Chat.Message>)
    ensures history == HistoryOf(client.db, cfg, s, t)
  {
    var messageStore := new RedisMessageStore(client, cfg.prefix);
    var messages := messageStore.GetMessages(t.sessionId, t.builderScan);
    var forRelevance := messageStore.GetMessages(t.sessionId, t.relevanceScan);
    var built := Ctx.Build(SettingsOf(cfg), Some(s), messages, Some(forRelevance), [], t.content, ReserveOf(cfg),
                           Some(UseModel(cfg, s, t.model)));
    if built.Context? {
      history := AsMessages(built.serialized) + [Chat.RoleMessage("user", t.content, [])];
    } else {
      var raw := messageStore.GetMessages(t.sessionId, t.fallbackScan);
      history := AsMessages(Ctx.Blocks(raw)) + [Chat.RoleMessage("user", t.content, [])];
    }
  }

  /** The names shown to the model, and the registry behind them. */
  method BuildTools(cfg: Config, s: Session, listing: Listing) returns (names: seq<string>, registry: ToolCallRegistry)
    ensures names == ShownNames(cfg, s, listing)
    ensures registry.mapping == RegistryOf(TurnIds(cfg, s, listing))
  {
    registry := new ToolCallRegistry();
    names := [HELP];
    var discovery := new CommandDiscovery();
    var escaped := discovery.Refresh(listing);
    if escaped {
      return;
    }
    var built := Build(s, cfg.policy, discovery.DiscoveredCommands(false), cfg.preferred);
    if built.ValueError? {
      return;
    }
    registry := built.registry;
    names := ToolNames(built.tools) + [HELP];
    ToolNamesOf(TurnIds(cfg, s, listing), SchemaOf(Available(discovery.cache)));
  }

  /** A store that refuses the id raises, and the turn with it. */
  method ExecuteSessionMode(client: RedisClient, store: SessionStore, cfg: Config, t: Turn)
    returns (r: TurnResult, tools: seq<string>, calls: seq<Chat.ProxyCall>)
    modifies client
    ensures var answer := old(store.Get(t.sessionId));
            && (answer.Found? ==> (client.db, r) == TurnStep(old(client.db), answer.session, cfg, t))
            && (!answer.Found? ==> client.db == old(client.db) && r == Raised)
            && (answer.Found? && answer.session.Some? ==>
                  && tools == ShownNames(cfg, answer.session.value, t.listing)
                  && calls == ChatOf(old(client.db), cfg, answer.session.value, t).calls)
  {
    var answer := store.Get(t.sessionId);
    if !answer.Found? {
      return Raised, [], [];
    }
    var session := answer.session;
    if session.None? {
      return SessionNotFound, [], [];
    }
    var history := BuildHistory(client, cfg, session.value, t);
    var registry;
    tools, registry := BuildTools(cfg, session.value, t.listing);
    var world := Chat.World(t.provider, t.proxy, t.format, t.dumps, Some(registry.mapping));
    var result, asked;
    result, calls, asked := Chat.RunChatFlow(world, history, t.maxRounds, registry);
    if result.Escaped? {
      return Raised, tools, calls;
    }
    if result.error.Some? && result.error.value != "" {
      return ChatError(result.error.value), tools, calls;
    }
    var reply := result.message;
    var writer := new MessageStreamWriter(client, cfg.prefix);
    var ok := writer.Write(UserRecord(t), t.writes == 0);
    if !ok {
      return PersistError, tools, calls;
    }
    ok := writer.Write(ModelRecord(t, reply), t.writes == 1);
    if !ok {
      return PersistError, tools, calls;
    }
    r := Replied(reply, result.history);
  }
}
