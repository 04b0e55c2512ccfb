/** What whole turns and runs of turns guarantee. */
module TurnLaws {
  import opened Values
  import opened Text
  import opened CommandIds
  import opened Sessions
  import opened SessionStores
  import opened ToolList
  import opened Discovery
  import opened DiscoveryBlocks
  import opened DiscoveryRuns
  import Chat = ChatFlow
  import opened ChatRuns
  import Ctx = Context
  import opened ContextLaws
  import opened Conservation
  import opened Transcript
  import opened SessionCommands
  import opened CommandRuns
  import opened SessionFields
  import opened SessionTurn

  // ----- routing, from the listing to the proxy -----

  /** (command, server) of a call through the registry. */
  function TargetOf(call: Chat.ProxyCall): Target
    requires call.CallServer? || (call.Help? && call.topic.Word?)
  {
    if call.CallServer? then (call.command, call.server) else (call.topic.text, call.server)
  }

  ghost predicate Permitted(cfg: Config, s: Session, t: Turn, call: Chat.ProxyCall) {
    && (call.CallServer? || (call.Help? && call.topic.Word?))
    && var id := MakeId(TargetOf(call).0, TargetOf(call).1);
       && ParseId(id) == TargetOf(call)
       && Reachable(s, cfg.policy, Refreshed(t.listing, []), id)
       && exists e: Entry :: e.id == id && ParsedFrom(t.listing, e)
  }

  lemma DiscoveredIdsHaveDots(listing: Listing, id: string)
    requires Discovered(Refreshed(listing, []), id)
    ensures '.' in id && exists e: Entry :: e.id == id && ParsedFrom(listing, e)
  {
    var e :| e in Refreshed(listing, []) && e.available && e.id == id;
    assert [listing][..0] == [];
    assert Run([listing], []) == Refreshed(listing, []);
    CacheIsWellFormed([listing], e);
    var name, server :| e.id == MakeId(name, server);
    assert id[|name|] == '.';
    AvailableIsFresh([listing], e);
  }

  lemma {:induction false} TurnIdsAreReachable(cfg: Config, s: Session, listing: Listing, id: string)
    ensures id in TurnIds(cfg, s, listing) ==> Reachable(s, cfg.policy, Refreshed(listing, []), id)
  {
    EffectiveIdsAreTheReachable(s, cfg.policy, Refreshed(listing, []), cfg.preferred, id);
  }

  /**
    Every proxy call of a turn, whatever names the model invents and however the turn ends,
    targets a command whose id was parsed as available from this turn's listing, is not
    forbidden by the session, and passes both filters or is a vectorization id.
  */
  lemma {:induction false} EveryCallIsPermitted(db: Database, cfg: Config, s: Session, t: Turn)
    ensures forall call :: call in ChatOf(db, cfg, s, t).calls ==> Permitted(cfg, s, t, call)
  {
    var w := WorldOf(cfg, s, t);
    var ids := TurnIds(cfg, s, t.listing);
    EveryCallIsRouted(w, HistoryOf(db, cfg, s, t), t.maxRounds);
    RegistryKeys(ids);
    forall call | call in ChatOf(db, cfg, s, t).calls ensures Permitted(cfg, s, t, call) {
      assert Proper(w, call);
      var key :| key in RegistryOf(ids) && RegistryOf(ids)[key] == TargetOf(call);
      var id :| id in ids && RegistryOf(ids)[key] == ParseId(id);
      TurnIdsAreReachable(cfg, s, t.listing, id);
      TargetIsPermitted(cfg, s, t, call, id);
    }
  }

  lemma {:induction false} TargetIsPermitted(cfg: Config, s: Session, t: Turn, call: Chat.ProxyCall, id: string)
    requires call.CallServer? || (call.Help? && call.topic.Word?)
    requires ParseId(id) == TargetOf(call)
    requires Reachable(s, cfg.policy, Refreshed(t.listing, []), id)
    ensures Permitted(cfg, s, t, call)
  {
    DiscoveredIdsHaveDots(t.listing, id);
    MakeAfterParse(id);
  }

  // ----- what the session and the config let through -----

  /** Both filters: forbidden ids never pass, and an allow-list, or a denying config, lets only its ids pass. */
  predicate PassesFilters(s: Session, policy: PolicyConfig, id: string) {
    && id !in s.forbidden && id !in policy.forbidden
    && (s.allowed != [] ==> id in s.allowed)
    && (policy.allowed != [] || policy.policy == DenyByDefault ==> id in policy.allowed)
  }

  /** The two vectorization commands pass unless the session forbids them. */
  predicate LetThrough(s: Session, policy: PolicyConfig, id: string) {
    || PassesFilters(s, policy, id)
    || (id !in s.forbidden && (id == "embed_execute.embedding-service" || id == "embed.embedding-service"))
  }

  lemma ReachableIsLetThrough(s: Session, policy: PolicyConfig, discovered: seq<Entry>, id: string)
    ensures Reachable(s, policy, discovered, id) <==>
            LetThrough(s, policy, id) && exists e :: e in discovered && e.available && e.id == id
  {
  }

  /** The id of a proxy call: command, dot and server. */
  function CalledId(call: Chat.ProxyCall): string {
    match call
    case CallServer(server, command, _) => command + "." + server
    case Help(server, Word(command)) => command + "." + server
    case _ => ""
  }

  /** No proxy call of a turn, for help or to run a command, gets past the session's lists and the config. */
  lemma {:induction false} CallsObeyFilters(db: Database, cfg: Config, s: Session, t: Turn)
    ensures forall call :: call in ChatOf(db, cfg, s, t).calls ==> LetThrough(s, cfg.policy, CalledId(call))
  {
    EveryCallIsPermitted(db, cfg, s, t);
    forall call | call in ChatOf(db, cfg, s, t).calls ensures LetThrough(s, cfg.policy, CalledId(call)) {
      PermittedIsLetThrough(cfg, s, t, call);
    }
  }

  lemma PermittedIsLetThrough(cfg: Config, s: Session, t: Turn, call: Chat.ProxyCall)
    requires Permitted(cfg, s, t, call)
    ensures LetThrough(s, cfg.policy, CalledId(call))
  {
    ReachableIsLetThrough(s, cfg.policy, Refreshed(t.listing, []), CalledId(call));
  }

  /**
    A turn of a created session never calls what it was created to forbid, and with a non-empty
    allow-list only what is on it, or a vectorization command.
  */
  lemma {:induction false} CreatedListsAreObeyed(st: StoreState, attrs: Attrs, uuid: string, db: Database, cfg: Config,
                                                 t: Turn)
    requires Reliable(st) && IdFor(attrs, uuid, t.sessionId) && Strip(t.sessionId) != ""
    requires st.RedisState? || Stripped(t.sessionId)
    ensures var st' := st.Create(attrs, uuid).0;
            && Known(st', t.sessionId)
            && forall call :: call in ChatOf(db, cfg, st'.Get(t.sessionId).session.value, t).calls ==>
                 && (attrs.forbidden.Given? ==> CalledId(call) !in attrs.forbidden.value)
                 && (attrs.allowed.Given? && attrs.allowed.value != [] ==>
                       || CalledId(call) in attrs.allowed.value
                       || CalledId(call) == "embed_execute.embedding-service"
                       || CalledId(call) == "embed.embedding-service")
  {
    CreatedIsReadBack(st, attrs, uuid, t.sessionId);
    CallsObeyFilters(db, cfg, st.Create(attrs, uuid).0.Get(t.sessionId).session.value, t);
  }

  /** With dot-free server ids the call goes to a server that this turn's listing names. */
  lemma {:induction false} CallsGoToListedServers(db: Database, cfg: Config, s: Session, t: Turn, call: Chat.ProxyCall)
    requires t.listing.Servers? && DotFree(t.listing.servers)
    ensures call in ChatOf(db, cfg, s, t).calls ==>
              Permitted(cfg, s, t, call) && Lists(t.listing.servers, TargetOf(call).1)
  {
    EveryCallIsPermitted(db, cfg, s, t);
    if call in ChatOf(db, cfg, s, t).calls {
      var e: Entry :| e.id == MakeId(TargetOf(call).0, TargetOf(call).1) && ParsedFrom(t.listing, e);
      ParsedOnListedServer(t.listing, e);
    }
  }

  lemma ParsedOnListedServer(listing: Listing, e: Entry)
    requires listing.Servers? && DotFree(listing.servers) && ParsedFrom(listing, e)
    ensures Lists(listing.servers, ServerOf(e.id))
  {
    var srv, server :| srv in listing.servers && FromRow(srv, server, e);
    var cmd :| cmd in CommandsOf(srv.commands).value && ParseCommand(cmd, server) == Parsed(e.id, e.schema);
    var name :| e.id == MakeId(name, server);
    ParseAfterMake(name, server);
  }

  /**
    A turn never calls a command whose last accepted change in its session was a removal, in
    either store and whatever commands ran on it before.
  */
  lemma {:induction false} RemovedCommandIsNeverCalled(db: Database, cfg: Config, st: StoreState,
                                                       commands: seq<Command>, t: Turn, id: string)
    requires Reliable(st)
    requires LastChange(ChangesTo(commands, Strip(t.sessionId)), id) == Some(Remove(id))
    ensures var answer := RunCommands(st, commands).0.Get(t.sessionId);
            answer.Found? && answer.session.Some? ==>
              forall call :: call in ChatOf(db, cfg, answer.session.value, t).calls ==>
                Permitted(cfg, answer.session.value, t, call) && MakeId(TargetOf(call).0, TargetOf(call).1) != id
  {
    var sid, after := Strip(t.sessionId), RunCommands(st, commands).0;
    StripFixed(t.sessionId);
    StripFixed(sid);
    SessionAfterCommands(st, commands, sid);
    assert after.Get(t.sessionId) == after.Get(sid);
    if after.Get(sid).Found? && after.Get(sid).session.Some? {
      LastChangeDecides(st.Get(sid).session.value, ChangesTo(commands, sid), id);
      EveryCallIsPermitted(db, cfg, after.Get(sid).session.value, t);
    }
  }

  // ----- bare command names -----

  /** The change gives the session its first allowed id or takes its only one. */
  predicate TogglesAllowList(s: Session, change: Change) {
    if change.Add? then s.allowed == [] else OnlyAllows(s, change.id)
  }

  lemma BareNameListsAlike(s: Session, change: Change, ids: seq<string>)
    requires '.' !in change.id && !TogglesAllowList(s, change)
    requires forall c :: c in ids ==> '.' in c
    ensures ListAlike(Apply(s, change), s, ids)
  {
    if change.Remove? && s.allowed != [] {
      var c :| c in s.allowed && c != change.id;
      assert c in Apply(s, change).allowed;
    }
  }

  lemma AllIdsHaveDots(listing: Listing)
    ensures forall c :: c in Ids(Available(Refreshed(listing, []))) + VECTORIZATION_IDS ==> '.' in c
  {
    forall c | c in Ids(Available(Refreshed(listing, []))) ensures '.' in c {
      DiscoveredIds(Refreshed(listing, []), c);
      DiscoveredIdsHaveDots(listing, c);
    }
    assert VECTORIZATION_IDS[0][13] == '.' && VECTORIZATION_IDS[1][5] == '.';
  }

  lemma SameHistory(db: Database, cfg: Config, s: Session, s': Session, t: Turn)
    requires s'.(allowed := s.allowed, forbidden := s.forbidden) == s
    ensures HistoryOf(db, cfg, s, t) == HistoryOf(db, cfg, s', t)
  {
  }

  /**
    Both commands accept a bare command name. Every discovered id has a dot, so such a change
    leaves the tools, the chat and the outcome of a turn as they were, unless it toggles the
    session's allow-list.
  */
  lemma {:induction false} BareNameChangesNothing(db: Database, cfg: Config, s: Session, t: Turn, change: Change)
    requires '.' !in change.id && !TogglesAllowList(s, change)
    ensures ShownNames(cfg, Apply(s, change), t.listing) == ShownNames(cfg, s, t.listing)
    ensures ChatOf(db, cfg, Apply(s, change), t) == ChatOf(db, cfg, s, t)
    ensures TurnStep(db, Some(Apply(s, change)), cfg, t) == TurnStep(db, Some(s), cfg, t)
  {
    BareNameKeepsTools(cfg, s, t.listing, change);
    SameHistory(db, cfg, s, Apply(s, change), t);
    assert WorldOf(cfg, Apply(s, change), t) == WorldOf(cfg, s, t);
    assert ChatOf(db, cfg, Apply(s, change), t) == ChatOf(db, cfg, s, t);
  }

  lemma BareNameKeepsTools(cfg: Config, s: Session, listing: Listing, change: Change)
    requires '.' !in change.id && !TogglesAllowList(s, change)
    ensures TurnIds(cfg, Apply(s, change), listing) == TurnIds(cfg, s, listing)
  {
    var discovered := Refreshed(listing, []);
    AllIdsHaveDots(listing);
    BareNameListsAlike(s, change, Ids(Available(discovered)) + VECTORIZATION_IDS);
    KeptAlike(Apply(s, change), s, cfg.policy, discovered, cfg.preferred);
  }

  /**
    And when it does: adding a first bare name leaves only vectorization ids within reach, and
    removing the only one lets in whatever the config permits and the session does not forbid.
  */
  lemma {:induction false} BareNameTogglesReach(cfg: Config, s: Session, listing: Listing, change: Change,
                                                other: string)
    requires '.' !in change.id && TogglesAllowList(s, change)
    ensures Reachable(Apply(s, change), cfg.policy, Refreshed(listing, []), other) <==>
            && Discovered(Refreshed(listing, []), other) && other !in s.forbidden
            && (other in VECTORIZATION_IDS || (change.Remove? && cfg.policy.Permits(other)))
  {
    var discovered := Refreshed(listing, []);
    if Discovered(discovered, other) {
      DiscoveredIdsHaveDots(listing, other);
    }
    ReachableAfterAdd(s, cfg.policy, discovered, change.id, other);
    ReachableAfterRemove(s, cfg.policy, discovered, change.id, other);
  }

  /** Likewise for any run of such changes. */
  lemma {:induction false} BareNamesChangeNothing(db: Database, cfg: Config, s: Session, t: Turn, changes: seq<Change>)
    requires forall k :: 0 <= k < |changes| ==>
               '.' !in changes[k].id && !TogglesAllowList(ApplyAll(s, changes[..k]), changes[k])
    ensures ShownNames(cfg, ApplyAll(s, changes), t.listing) == ShownNames(cfg, s, t.listing)
    ensures TurnStep(db, Some(ApplyAll(s, changes)), cfg, t) == TurnStep(db, Some(s), cfg, t)
  {
    if changes != [] {
      var front, last := changes[..|changes| - 1], changes[|changes| - 1];
      forall k | 0 <= k < |front|
        ensures '.' !in front[k].id && !TogglesAllowList(ApplyAll(s, front[..k]), front[k])
      {
        assert front[..k] == changes[..k];
      }
      BareNamesChangeNothing(db, cfg, s, t, front);
      BareNameChangesNothing(db, cfg, ApplyAll(s, front), t, last);
    }
  }

  // ----- clean names -----

  lemma DiscoveredIsClean(listing: Listing, id: string)
    requires listing.Servers? ==> DotFree(listing.servers)
    requires Discovered(Refreshed(listing, []), id)
    ensures CleanName(id)
  {
    var e :| e in Refreshed(listing, []) && e.available && e.id == id;
    assert [listing][..0] == [];
    assert Run([listing], []) == Refreshed(listing, []);
    CachedIdsSplitCleanly([listing], e);
  }

  lemma {:induction false} TurnIdIsClean(cfg: Config, s: Session, listing: Listing, id: string)
    requires listing.Servers? ==> DotFree(listing.servers)
    ensures id in TurnIds(cfg, s, listing) ==> CleanName(id)
  {
    TurnIdsAreReachable(cfg, s, listing, id);
    if id in TurnIds(cfg, s, listing) {
      DiscoveredIsClean(listing, id);
    }
  }

  // ----- the context of a turn -----

  /**
    The first request ends with the user's message. What precedes it is the trimmed context,
    within the token limit, exactly when a model is set and the limit covers the reserves;
    otherwise it is every stored message of the session, whatever their size.
  */
  lemma {:induction false} FirstRequest(db: Database, cfg: Config, s: Session, t: Turn)
    ensures var history := HistoryOf(db, cfg, s, t);
            var built := ContextOf(db, cfg, s, t);
            var limit := Ctx.EffectiveLimit(SettingsOf(cfg), ReserveOf(cfg));
            && history != [] && history[|history| - 1] == Chat.RoleMessage("user", t.content, [])
            && (built.Context? <==>
                  Strip(UseModel(cfg, s, t.model)) != "" && limit >= MIN_SEMANTIC_TOKENS + cfg.minDocumentation)
            && (built.Context? ==>
                  && history == AsMessages(built.serialized) + [Chat.RoleMessage("user", t.content, [])]
                  && (Ctx.Tokens(Ctx.Chars, built.serialized, Ctx.CHARS_PER_TOKEN) <= limit <==>
                        cfg.maxContextTokens >= 0))
            && (!built.Context? ==>
                  history == AsMessages(Ctx.Blocks(Messages(db, t.fallbackScan, t.sessionId)))
                             + [Chat.RoleMessage("user", t.content, [])])
  {
    StripFixed("");
    BuildStaysWithinLimitIff(SettingsOf(cfg), Some(s), Messages(db, t.builderScan, t.sessionId),
                             Some(Messages(db, t.relevanceScan, t.sessionId)), [], t.content, ReserveOf(cfg),
                             Some(UseModel(cfg, s, t.model)));
  }

  /** The two slots and the empty-bodied messages the second one drops are the session's messages, each once. */
  ghost predicate ContextConserves(db: Database, cfg: Config, s: Session, t: Turn) {
    var built := ContextOf(db, cfg, s, t);
    var read, again := Messages(db, t.builderScan, t.sessionId), Messages(db, t.relevanceScan, t.sessionId);
    built.Context? ==>
      multiset(built.parts.lastN) + multiset(built.parts.relevance) + multiset(Dropped(again, cfg.lastN))
      == multiset(Ctx.Blocks(read))
  }

  /** The turn with other scan orders in its two reads. */
  function Scanned(t: Turn, first: seq<string>, second: seq<string>): Turn {
    t.(builderScan := first, relevanceScan := second)
  }

  lemma ContextIsTwoReads(db: Database, cfg: Config, s: Session, t: Turn)
    requires ContextOf(db, cfg, s, t).Context?
    ensures ContextConserves(db, cfg, s, t) <==> ReadsConserve(db, cfg, t, t.builderScan, t.relevanceScan)
  {
    var read, again := Messages(db, t.builderScan, t.sessionId), Messages(db, t.relevanceScan, t.sessionId);
    PartsOfContext(db, cfg, s, t);
    assert Filter(Ctx.NonEmpty, Ctx.UserBlocks([])) == [];
    assert multiset(Ctx.Blocks(read)) + multiset([]) == multiset(Ctx.Blocks(read));
  }

  lemma PartsOfContext(db: Database, cfg: Config, s: Session, t: Turn)
    requires ContextOf(db, cfg, s, t).Context?
    ensures var read, again := Messages(db, t.builderScan, t.sessionId), Messages(db, t.relevanceScan, t.sessionId);
            var parts := ContextOf(db, cfg, s, t).parts;
            && parts.lastN == Ctx.Blocks(Ctx.LastN(read, cfg.lastN))
            && parts.relevance == Ctx.FillSlot(cfg.words, t.content, Some(again), [], cfg.lastN)
  {
    SlotsOfBuilt(SettingsOf(cfg), s, Messages(db, t.builderScan, t.sessionId),
                 Some(Messages(db, t.relevanceScan, t.sessionId)), [], t.content, ReserveOf(cfg),
                 Some(UseModel(cfg, s, t.model)));
  }

  lemma ContextDespiteScans(db: Database, cfg: Config, s: Session, t: Turn, first: seq<string>, second: seq<string>)
    ensures ContextOf(db, cfg, s, Scanned(t, first, second)).Context? <==> ContextOf(db, cfg, s, t).Context?
  {
    FirstRequest(db, cfg, s, t);
    FirstRequest(db, cfg, s, Scanned(t, first, second));
  }

  ghost predicate ReadsConserve(db: Database, cfg: Config, t: Turn, first: seq<string>, second: seq<string>) {
    Conserves(cfg.words, t.content, Messages(db, first, t.sessionId), Messages(db, second, t.sessionId), [], cfg.lastN)
  }

  lemma ScannedIsTwoReads(db: Database, cfg: Config, s: Session, t: Turn, first: seq<string>, second: seq<string>)
    requires ContextOf(db, cfg, s, t).Context?
    ensures ContextConserves(db, cfg, s, Scanned(t, first, second)) <==> ReadsConserve(db, cfg, t, first, second)
  {
    ContextDespiteScans(db, cfg, s, t, first, second);
    ContextIsTwoReads(db, cfg, s, Scanned(t, first, second));
  }

  /** `t'` is the turn `t` with some orders of its two scans. */
  ghost predicate Rescanned(db: Database, cfg: Config, t: Turn, t': Turn) {
    && t' == Scanned(t, t'.builderScan, t'.relevanceScan)
    && IsScan(db, MessagePrefix(cfg.prefix), t'.builderScan)
    && IsScan(db, MessagePrefix(cfg.prefix), t'.relevanceScan)
  }

  /** Whatever the orders of the turn's two scans, its context conserves the session's messages. */
  ghost predicate AlwaysConserves(db: Database, cfg: Config, s: Session, t: Turn) {
    forall t' {:trigger ContextConserves(db, cfg, s, t')} ::
      Rescanned(db, cfg, t, t') ==> ContextConserves(db, cfg, s, t')
  }

  lemma TurnByReads(db: Database, cfg: Config, s: Session, t: Turn, t': Turn)
    requires ContextOf(db, cfg, s, t).Context? && Rescanned(db, cfg, t, t')
    requires AllScansConserve(db, MessagePrefix(cfg.prefix), t.sessionId, cfg.words, t.content, [], cfg.lastN)
    ensures ContextConserves(db, cfg, s, t')
  {
    ScannedIsTwoReads(db, cfg, s, t, t'.builderScan, t'.relevanceScan);
  }

  lemma ReadsByTurn(db: Database, cfg: Config, s: Session, t: Turn, first: seq<string>, second: seq<string>)
    requires ContextOf(db, cfg, s, t).Context? && AlwaysConserves(db, cfg, s, t)
    requires IsScan(db, MessagePrefix(cfg.prefix), first) && IsScan(db, MessagePrefix(cfg.prefix), second)
    ensures ReadsConserve(db, cfg, t, first, second)
  {
    assert Rescanned(db, cfg, t, Scanned(t, first, second));
    assert ContextConserves(db, cfg, s, Scanned(t, first, second));
    ScannedIsTwoReads(db, cfg, s, t, first, second);
  }

  /**
    A turn that builds a context always conserves the session's messages exactly when no messages
    with different blocks tie across the cut, or, for a negative number of last messages, when the
    slice passes the whole list.
  */
  lemma {:induction false} TurnContextConservesIff(db: Database, cfg: Config, s: Session, t: Turn)
    requires IsScan(db, MessagePrefix(cfg.prefix), t.builderScan)
    ensures var read, n := Messages(db, t.builderScan, t.sessionId), cfg.lastN;
            ContextOf(db, cfg, s, t).Context? ==>
              (AlwaysConserves(db, cfg, s, t) <==> if n < 0 then |read| <= -n else !MixedTieAt(read, Cut(|read|, n)))
  {
    if ContextOf(db, cfg, s, t).Context? {
      BuiltContextConservesIff(db, cfg, s, t);
    }
  }

  lemma BuiltContextConservesIff(db: Database, cfg: Config, s: Session, t: Turn)
    requires IsScan(db, MessagePrefix(cfg.prefix), t.builderScan)
    requires ContextOf(db, cfg, s, t).Context?
    ensures var read, n := Messages(db, t.builderScan, t.sessionId), cfg.lastN;
            AlwaysConserves(db, cfg, s, t) <==> if n < 0 then |read| <= -n else !MixedTieAt(read, Cut(|read|, n))
  {
    ConservedByAllScansIff(db, MessagePrefix(cfg.prefix), t.sessionId, t.builderScan, cfg.words, t.content, [],
                           cfg.lastN);
    if AlwaysConserves(db, cfg, s, t) {
      forall first, second
        | IsScan(db, MessagePrefix(cfg.prefix), first) && IsScan(db, MessagePrefix(cfg.prefix), second)
        ensures Conserves(cfg.words, t.content, Messages(db, first, t.sessionId), Messages(db, second, t.sessionId),
                          [], cfg.lastN)
      {
        ReadsByTurn(db, cfg, s, t, first, second);
      }
    }
    if AllScansConserve(db, MessagePrefix(cfg.prefix), t.sessionId, cfg.words, t.content, [], cfg.lastN) {
      forall t' | Rescanned(db, cfg, t, t') ensures ContextConserves(db, cfg, s, t') {
        TurnByReads(db, cfg, s, t, t');
      }
    }
  }

  // ----- exceptions -----

  lemma BlocksAreSummarisable(db: Database, cfg: Config, s: Session, t: Turn)
    ensures !Chat.Unsummarisable(HistoryOf(db, cfg, s, t))
  {
    var history := HistoryOf(db, cfg, s, t);
    forall m | m in history && m.RoleMessage? ensures m.toolCalls == [] {
      var i :| 0 <= i < |history| && history[i] == m;
    }
  }

  /**
    A turn of a known session raises exactly when some round that is reached gets a reply with
    proper functions and arguments that are not an object; every other failure is answered.
  */
  lemma {:induction false} TurnRaisesIff(db: Database, cfg: Config, s: Session, t: Turn)
    ensures TurnStep(db, Some(s), cfg, t).1 == Raised <==>
            exists n: nat ::
              n < t.maxRounds && BadRound(WorldOf(cfg, s, t), 0, Chat.State(HistoryOf(db, cfg, s, t), []), n)
    ensures TurnStep(db, Some(s), cfg, t).1 == Raised ==> TurnStep(db, Some(s), cfg, t).0 == db
  {
    BlocksAreSummarisable(db, cfg, s, t);
    EscapesIff(WorldOf(cfg, s, t), HistoryOf(db, cfg, s, t), t.maxRounds);
  }
}
