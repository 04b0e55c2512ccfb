/** The tools a turn shows to the model, and what a call of each of them does. */
module ShownTools {
  import opened Values
  import opened Text
  import opened Sorting
  import opened CommandIds
  import opened Sessions
  import opened ToolList
  import opened Discovery
  import opened DiscoveryBlocks
  import opened SessionStores
  import Chat = ChatFlow
  import opened ChatRuns
  import opened SessionTurn
  import opened TurnLaws

  // ----- the shown list -----

  lemma DistinctAppended(ids: seq<string>, name: string)
    requires DistinctNames(ids)
    ensures Distinct(Names(ids) + [name]) <==> name !in Names(ids)
  {
    var shown := Names(ids) + [name];
    if name in Names(ids) {
      var i :| 0 <= i < |ids| && Names(ids)[i] == name;
      assert shown[i] == shown[|ids|];
    }
  }

  lemma ReachableIsClean(cfg: Config, s: Session, listing: Listing)
    requires listing.Servers? ==> DotFree(listing.servers)
    ensures forall id :: Reachable(s, cfg.policy, Refreshed(listing, []), id) ==> CleanName(id)
  {
    forall id | Reachable(s, cfg.policy, Refreshed(listing, []), id) ensures CleanName(id) {
      DiscoveredIsClean(listing, id);
    }
  }

  /**
    With dot-free server ids the registry agrees with the list on every command. No name is
    shown twice unless a command is called help; that happens exactly when the discovery does
    not fail and the model may reach an id with that name.
  */
  lemma {:induction false} ShownToolsResolve(cfg: Config, s: Session, listing: Listing)
    requires listing.Servers? ==> DotFree(listing.servers)
    ensures var ids := TurnIds(cfg, s, listing);
            && DistinctNames(ids) && Agrees(ids)
            && (!Escaping(listing, []) ==> ids == KeptIds(s, cfg.policy, Refreshed(listing, []), cfg.preferred))
            && (Distinct(ShownNames(cfg, s, listing)) <==> HELP !in Names(ids))
            && (HELP in Names(ids) <==>
                  && !Escaping(listing, [])
                  && exists id :: Reachable(s, cfg.policy, Refreshed(listing, []), id) && NameOf(id) == HELP)
  {
    ReachableIsClean(cfg, s, listing);
    ToolListAndRegistryAgree(s, cfg.policy, Refreshed(listing, []), cfg.preferred);
    DistinctAppended(TurnIds(cfg, s, listing), HELP);
  }

  /** A listing of one server with one command. */
  function OneCommand(server: string, url: string, name: string): Listing {
    Servers([Server(Word(server), Falsy, Word(url), Falsy,
                    Fetched([Cmd(Word(name), Falsy, Falsy, Falsy, NoParams, NoParams)]))])
  }

  lemma OneCommandFound(server: string, url: string, name: string)
    requires server != "" && Stripped(server) && url != "" && Stripped(url) && name != "" && Stripped(name)
    ensures Refreshed(OneCommand(server, url, name), []) == [Entry(MakeId(name, server), Schema(name, "", "{}"), true)]
    ensures !Escaping(OneCommand(server, url, name), [])
  {
    var e := Entry(MakeId(name, server), Schema(name, "", "{}"), true);
    var srv := OneCommand(server, url, name).servers[0];
    StripFixed(server);
    StripFixed(url);
    OneCommandParsed(server, name);
    assert BlockOf(srv, []) == Block(server, [e], false);
    assert [srv][..0] == [];
    assert Rebuilt([srv][..0], []) == Some([]);
    assert [] + [e] == [e];
    assert Rebuilt([srv], []) == Some([e]);
  }

  lemma OneCommandParsed(server: string, name: string)
    requires name != "" && Stripped(name)
    ensures var cmds := [Cmd(Word(name), Falsy, Falsy, Falsy, NoParams, NoParams)];
            ParseAll(cmds, server) == ([Entry(MakeId(name, server), Schema(name, "", "{}"), true)], false)
  {
    var cmds := [Cmd(Word(name), Falsy, Falsy, Falsy, NoParams, NoParams)];
    StripFixed(name);
    StripFixed("");
    assert FirstText(Falsy, Falsy) == Some("") && FirstText(Word(name), Falsy) == Some(name);
    assert ParseCommand(cmds[0], server) == Parsed(MakeId(name, server), Schema(name, "", "{}"));
    ParseStep(cmds, 0, server);
    var e := Entry(MakeId(name, server), Schema(name, "", "{}"), true);
    assert [] + [e] == [e];
    assert ParseNext(([], false), Parsed(e.id, e.schema)) == ([e], false);
    assert cmds[..0] == [] && cmds[..1] == cmds;
    assert ParseAll(cmds[..0], server) == ([], false);
  }

  /** A command is shown exactly when an entry of its name was discovered, is available and is let through. */
  lemma {:induction false} CommandIsShownIff(cfg: Config, s: Session, listing: Listing, name: string)
    requires listing.Servers? ==> DotFree(listing.servers)
    ensures name in Names(TurnIds(cfg, s, listing)) <==>
            && !Escaping(listing, [])
            && exists e: Entry ::
                 e in Refreshed(listing, []) && e.available && NameOf(e.id) == name && LetThrough(s, cfg.policy, e.id)
  {
    var discovered := Refreshed(listing, []);
    ReachableIsClean(cfg, s, listing);
    ToolListAndRegistryAgree(s, cfg.policy, discovered, cfg.preferred);
    if e: Entry :| e in discovered && e.available && NameOf(e.id) == name && LetThrough(s, cfg.policy, e.id) {
      ReachableIsLetThrough(s, cfg.policy, discovered, e.id);
    }
    if id :| Reachable(s, cfg.policy, discovered, id) && NameOf(id) == name {
      ReachableIsLetThrough(s, cfg.policy, discovered, id);
    }
  }

  /** One server that offers a command called help is enough for the name to be shown twice. */
  lemma HelpCommandIsShownTwice(cfg: Config, s: Session, server: string, url: string)
    requires server != "" && Stripped(server) && '.' !in server && url != "" && Stripped(url)
    requires cfg.policy.Permits(MakeId(HELP, server)) && SessionPermits(s, MakeId(HELP, server))
    ensures !Distinct(ShownNames(cfg, s, OneCommand(server, url, HELP)))
  {
    var listing, id := OneCommand(server, url, HELP), MakeId(HELP, server);
    OneCommandFound(server, url, HELP);
    ParseAfterMake(HELP, server);
    assert Refreshed(listing, [])[0].id == id;
    assert Reachable(s, cfg.policy, Refreshed(listing, []), id);
    StripFixed(server);
    ShownToolsResolve(cfg, s, listing);
  }

  // ----- who answers to a name -----

  /** Entry `k` is the first available one of its name that passes both filters. */
  ghost predicate EarliestNamed(s: Session, policy: PolicyConfig, discovered: seq<Entry>, name: string, k: nat) {
    && k < |discovered| && Offers(s, policy, discovered[k], name)
    && forall j :: 0 <= j < k ==> !Offers(s, policy, discovered[j], name)
  }

  predicate Offers(s: Session, policy: PolicyConfig, e: Entry, name: string) {
    e.available && NameOf(e.id) == name && PassesFilters(s, policy, e.id)
  }

  lemma {:induction false} FilterTwice(p: string -> bool, q: string -> bool, both: string -> bool, xs: seq<string>)
    requires forall x :: both(x) == (p(x) && q(x))
    ensures Filter(q, Filter(p, xs)) == Filter(both, xs)
  {
    if xs != [] {
      var x, tail := xs[0], xs[1..];
      FilterTwice(p, q, both, tail);
      var kept := Filter(p, tail);
      FilterHead(q, x, kept);
      if p(x) {
        assert Filter(p, xs) == [x] + kept;
      } else {
        assert Filter(p, xs) == kept;
      }
    }
  }

  lemma FilterHead(p: string -> bool, x: string, rest: seq<string>)
    ensures Filter(p, [x] + rest) == (if p(x) then [x] else []) + Filter(p, rest)
  {
    assert ([x] + rest)[1..] == rest;
  }

  lemma ConfigIsFilter(policy: PolicyConfig, ids: seq<string>)
    ensures policy.FilterCandidates(ids) == Filter(id => policy.Permits(id), ids)
  {
    var config := id => policy.Permits(id);
    if policy.policy == DenyByDefault || policy.allowed != [] {
      FilterTwice(c => c !in policy.forbidden, c => c in policy.allowed, config, ids);
    } else {
      FilterAgree(c => c !in policy.forbidden, config, ids);
    }
  }

  lemma SessionIsFilter(s: Session, policy: PolicyConfig, ids: seq<string>)
    ensures var effective := Filter(c => c !in s.forbidden, Filter(id => policy.Permits(id), ids));
            (if s.allowed != [] then Filter(c => c in s.allowed, effective) else effective)
            == Filter(id => PassesFilters(s, policy, id), ids)
  {
    var config := id => policy.Permits(id);
    var unforbidden := id => policy.Permits(id) && id !in s.forbidden;
    var passes := id => PassesFilters(s, policy, id);
    FilterTwice(config, c => c !in s.forbidden, unforbidden, ids);
    if s.allowed != [] {
      FilterTwice(unforbidden, c => c in s.allowed, passes, ids);
    } else {
      FilterAgree(unforbidden, passes, ids);
    }
  }

  lemma PermittedIsFilter(s: Session, policy: PolicyConfig, discovered: seq<Entry>)
    ensures PermittedIds(s, policy, discovered)
            == Filter(id => PassesFilters(s, policy, id), Ids(Available(discovered)))
  {
    ConfigIsFilter(policy, Ids(Available(discovered)));
    SessionIsFilter(s, policy, Ids(Available(discovered)));
  }

  lemma {:induction false} EarliestIsFirst(s: Session, policy: PolicyConfig, discovered: seq<Entry>, name: string,
                                           k: nat)
    requires EarliestNamed(s, policy, discovered, name, k)
    ensures FirstNamed(Filter(id => PassesFilters(s, policy, id), Ids(Available(discovered))), name)
            == Some(discovered[k].id)
  {
    var head, tail := discovered[0], discovered[1..];
    var passes := id => PassesFilters(s, policy, id);
    AvailableIds(discovered);
    FirstOfHead(passes, head, Ids(Available(tail)), name);
    if k > 0 {
      assert !Offers(s, policy, discovered[0], name);
      forall j | 0 <= j < k - 1 ensures !Offers(s, policy, tail[j], name) {
        assert tail[j] == discovered[j + 1];
      }
      EarliestIsFirst(s, policy, tail, name, k - 1);
    }
  }

  lemma FirstOfHead(p: string -> bool, head: Entry, rest: seq<string>, name: string)
    ensures FirstNamed(Filter(p, (if head.available then [head.id] else []) + rest), name)
            == if head.available && p(head.id) && NameOf(head.id) == name then Some(head.id)
               else FirstNamed(Filter(p, rest), name)
  {
    if head.available {
      FilterHead(p, head.id, rest);
      FirstNamedAppend([head.id], Filter(p, rest), name);
      assert [] + Filter(p, rest) == Filter(p, rest);
    } else {
      assert [] + rest == rest;
    }
  }

  lemma AvailableIds(discovered: seq<Entry>)
    requires discovered != []
    ensures Ids(Available(discovered))
            == (if discovered[0].available then [discovered[0].id] else []) + Ids(Available(discovered[1..]))
  {
  }

  /** The earliest permitted entry of a name is the first permitted id of that name. */
  lemma {:induction false} FirstPermittedIsEarliest(s: Session, policy: PolicyConfig, discovered: seq<Entry>,
                                                    name: string)
    ensures var first := FirstNamed(PermittedIds(s, policy, discovered), name);
            && (first.Some? <==> exists k: nat :: EarliestNamed(s, policy, discovered, name, k))
            && forall k: nat :: EarliestNamed(s, policy, discovered, name, k) ==> first == Some(discovered[k].id)
  {
    var first := FirstNamed(PermittedIds(s, policy, discovered), name);
    PermittedIsFilter(s, policy, discovered);
    forall k: nat | EarliestNamed(s, policy, discovered, name, k) ensures first == Some(discovered[k].id) {
      EarliestIsFirst(s, policy, discovered, name, k);
    }
    if first.Some? {
      PermittedMembers(s, policy, discovered, first.value);
      DiscoveredIds(discovered, first.value);
      var e: Entry :| e in discovered && e.available && e.id == first.value;
      var i :| 0 <= i < |discovered| && discovered[i] == e;
      var k := EarliestUpTo(s, policy, discovered, name, i);
    }
  }

  lemma {:induction false} EarliestUpTo(s: Session, policy: PolicyConfig, discovered: seq<Entry>, name: string, i: nat)
    returns (k: nat)
    requires i < |discovered| && Offers(s, policy, discovered[i], name)
    ensures EarliestNamed(s, policy, discovered, name, k)
    decreases i
  {
    if j: nat :| j < i && Offers(s, policy, discovered[j], name) {
      k := EarliestUpTo(s, policy, discovered, name, j);
    } else {
      k := i;
    }
  }

  /** The preferred server has an available command of this name that passes both filters. */
  ghost predicate PreferredOffers(cfg: Config, s: Session, discovered: seq<Entry>, name: string) {
    cfg.preferred.Some? && cfg.preferred.value != "" &&
    exists e: Entry :: e in discovered && Offers(s, cfg.policy, e, name) && ServerOf(e.id) == cfg.preferred.value
  }

  /**
    The command that a name resolves to: the preferred server's when that passes both filters,
    else the one discovered first among those that do, else a vectorization command that missed
    the filters, and nothing when there is none of these.
  */
  lemma {:induction false} NamePriorityInTurn(cfg: Config, s: Session, listing: Listing, name: string)
    requires listing.Servers? ==> DotFree(listing.servers)
    ensures var discovered, own := Refreshed(listing, []), Strip(name);
            var target := Lookup(RegistryOf(TurnIds(cfg, s, listing)), name);
            if Escaping(listing, []) then target == None
            else if PreferredOffers(cfg, s, discovered, own) then target == Some((own, cfg.preferred.value))
            else if exists k: nat :: EarliestNamed(s, cfg.policy, discovered, own, k) then
              forall k: nat :: EarliestNamed(s, cfg.policy, discovered, own, k) ==>
                target == Some(ParseId(discovered[k].id))
            else
              && (target.Some? ==> exists vid :: vid in VECTORIZATION_IDS && target.value == ParseId(vid))
              && (target.Some? <==> exists vid :: vid in VECTORIZATION_IDS && NameOf(vid) == own
                                      && Reachable(s, cfg.policy, discovered, vid))
  {
    var discovered, own := Refreshed(listing, []), Strip(name);
    if !Escaping(listing, []) {
      PriorityByFirst(cfg, s, listing, name);
      FirstPermittedIsEarliest(s, cfg.policy, discovered, own);
      PreferredPermittedIff(cfg, s, discovered, own);
    }
  }

  lemma PreferredPermittedIff(cfg: Config, s: Session, discovered: seq<Entry>, name: string)
    ensures PreferredOffers(cfg, s, discovered, name) <==>
            HasPreferred(cfg.preferred)
            && exists c :: c in PermittedIds(s, cfg.policy, discovered) && ParseId(c) == (name, cfg.preferred.value)
  {
    if HasPreferred(cfg.preferred) {
      if e: Entry :| e in discovered && Offers(s, cfg.policy, e, name) && ServerOf(e.id) == cfg.preferred.value {
        DiscoveredIds(discovered, e.id);
        PermittedMembers(s, cfg.policy, discovered, e.id);
        assert ParseId(e.id) == (name, cfg.preferred.value);
      }
      if c :| c in PermittedIds(s, cfg.policy, discovered) && ParseId(c) == (name, cfg.preferred.value) {
        DiscoveredIds(discovered, c);
        PermittedMembers(s, cfg.policy, discovered, c);
        var e: Entry :| e in discovered && e.available && e.id == c;
        assert Offers(s, cfg.policy, e, name);
      }
    }
  }

  lemma PriorityByFirst(cfg: Config, s: Session, listing: Listing, name: string)
    requires listing.Servers? ==> DotFree(listing.servers)
    requires !Escaping(listing, [])
    ensures var discovered, own := Refreshed(listing, []), Strip(name);
            var permitted := PermittedIds(s, cfg.policy, discovered);
            var target := Lookup(RegistryOf(TurnIds(cfg, s, listing)), name);
            if HasPreferred(cfg.preferred)
               && exists c :: c in permitted && ParseId(c) == (own, cfg.preferred.value) then
              target == Some((own, cfg.preferred.value))
            else if FirstNamed(permitted, own).Some? then target == Some(ParseId(FirstNamed(permitted, own).value))
            else
              && (target.Some? ==> exists vid :: vid in VECTORIZATION_IDS && target.value == ParseId(vid))
              && (target.Some? <==> exists vid :: vid in VECTORIZATION_IDS && NameOf(vid) == own
                                      && Reachable(s, cfg.policy, discovered, vid))
  {
    var discovered, own := Refreshed(listing, []), Strip(name);
    var ids := EffectiveIds(s, cfg.policy, discovered, cfg.preferred);
    ReachableIsClean(cfg, s, listing);
    ToolListAndRegistryAgree(s, cfg.policy, discovered, cfg.preferred);
    NamePriority(s, cfg.policy, discovered, cfg.preferred, own);
    forall id ensures id in ids <==> Reachable(s, cfg.policy, discovered, id) {
      EffectiveIdsAreTheReachable(s, cfg.policy, discovered, cfg.preferred, id);
    }
    NamesSurvive(ids, own);
  }

  // ----- what a call does -----

  lemma RegistryKnowsNames(cfg: Config, s: Session, listing: Listing, name: string)
    requires listing.Servers? ==> DotFree(listing.servers)
    ensures var ids := TurnIds(cfg, s, listing);
            && (Lookup(RegistryOf(ids), name).Some? <==> Strip(name) in Names(ids))
            && (Strip(name) in Names(ids) ==>
                  Lookup(RegistryOf(ids), name).value.0 == Strip(name)
                  && exists id :: id in ids && ParseId(id) == Lookup(RegistryOf(ids), name).value)
  {
    var ids := TurnIds(cfg, s, listing);
    RegistryKeys(ids);
    NameMembers(ids, Strip(name));
    forall id | id in ids ensures Strip(NameOf(id)) == NameOf(id) {
      TurnIdIsClean(cfg, s, listing, id);
      StripFixed(NameOf(id));
    }
  }

  /** The text that names a command: of a help call what it asks about, if that is text. */
  function SoughtText(tc: Chat.ToolCall): Option<string> {
    if Chat.NameOfCall(tc) != HELP then Some(Chat.NameOfCall(tc)) else
    var topic := FirstTruthy(Chat.Arg(Chat.ArgsOf(tc), "command_name"), Chat.Arg(Chat.ArgsOf(tc), "cmdname"));
    if topic.Word? then Some(topic.text) else None
  }

  /** The name whose entry in the list decides whether the call reaches the proxy. */
  function Sought(tc: Chat.ToolCall): Option<string> {
    if SoughtText(tc).Some? then Some(Strip(SoughtText(tc).value)) else None
  }

  /** What the proxy is asked about a command: to run it, or for help on it. */
  function RequestTo(tc: Chat.ToolCall, target: Target): Chat.ProxyCall {
    if Chat.NameOfCall(tc) == HELP then Chat.Help(target.1, Word(target.0))
    else Chat.CallServer(target.1, target.0, Chat.ArgsOf(tc) - {"copy_number"})
  }

  /**
    A tool call reaches the proxy exactly when a listed command has the name it seeks: its own
    stripped name, or for help the command asked about. The one call is then the command of that
    listed id, or help on it; a call of help never runs a command, whatever the list holds.
  */
  lemma {:induction false} ForwardedIffShown(cfg: Config, s: Session, t: Turn, tc: Chat.ToolCall,
                                             calls: seq<Chat.ProxyCall>)
    requires t.listing.Servers? ==> DotFree(t.listing.servers)
    ensures var after := Chat.RunCall(WorldOf(cfg, s, t), tc, calls).1;
            var ids := TurnIds(cfg, s, t.listing);
            if Sought(tc).Some? && Sought(tc).value in Names(ids)
            then exists id :: id in ids && NameOf(id) == Sought(tc).value
                              && after == calls + [RequestTo(tc, ParseId(id))]
            else after == calls
  {
    var ids := TurnIds(cfg, s, t.listing);
    if Sought(tc).Some? {
      var name := Sought(tc).value;
      RegistryKnowsNames(cfg, s, t.listing, name);
      StripFixed(SoughtText(tc).value);
      StripFixed(name);
      CallBySought(WorldOf(cfg, s, t), RegistryOf(ids), tc, calls);
      if name in Names(ids) {
        var id :| id in ids && ParseId(id) == Lookup(RegistryOf(ids), name).value;
      }
    }
  }

  lemma CallBySought(w: Chat.World, mapping: map<string, Target>, tc: Chat.ToolCall, calls: seq<Chat.ProxyCall>)
    requires w.registry == Some(mapping) && Sought(tc).Some? && Strip(Sought(tc).value) == Sought(tc).value
    ensures var target := Lookup(mapping, Sought(tc).value);
            if target.None? || (Chat.NameOfCall(tc) == HELP && Sought(tc).value == "")
            then Chat.RunCall(w, tc, calls).1 == calls
            else Chat.RunCall(w, tc, calls).1 == calls + [RequestTo(tc, target.value)]
  {
  }

  /**
    A call under the very name of a listed command runs that command, on its own server and with
    the model's arguments, exactly when the command is not called help.
  */
  lemma {:induction false} ListedCommandRunsIff(cfg: Config, s: Session, t: Turn, tc: Chat.ToolCall,
                                                calls: seq<Chat.ProxyCall>, id: string)
    requires t.listing.Servers? ==> DotFree(t.listing.servers)
    ensures id in TurnIds(cfg, s, t.listing) && Chat.NameOfCall(tc) == NameOf(id) ==>
              (Chat.RunCall(WorldOf(cfg, s, t), tc, calls).1
               == calls + [Chat.CallServer(ServerOf(id), NameOf(id), Chat.ArgsOf(tc) - {"copy_number"})]
               <==> NameOf(id) != HELP)
  {
    if id in TurnIds(cfg, s, t.listing) && Chat.NameOfCall(tc) == NameOf(id) {
      if NameOf(id) == HELP {
        HelpRunsNothing(WorldOf(cfg, s, t), tc, calls);
      } else {
        ListedCommandRuns(cfg, s, t, tc, calls, id);
      }
    }
  }

  lemma ListedCommandRuns(cfg: Config, s: Session, t: Turn, tc: Chat.ToolCall, calls: seq<Chat.ProxyCall>, id: string)
    requires t.listing.Servers? ==> DotFree(t.listing.servers)
    requires id in TurnIds(cfg, s, t.listing) && Chat.NameOfCall(tc) == NameOf(id) != HELP
    ensures Chat.RunCall(WorldOf(cfg, s, t), tc, calls).1 == calls + [RequestTo(tc, ParseId(id))]
  {
    OwnNameIsSought(cfg, s, t, tc, id);
    ForwardedIffShown(cfg, s, t, tc, calls);
  }

  /** A call of help asks the proxy for help at most once, whatever is registered. */
  lemma HelpRunsNothing(w: Chat.World, tc: Chat.ToolCall, calls: seq<Chat.ProxyCall>)
    requires w.registry.Some? && Chat.NameOfCall(tc) == HELP
    ensures var after := Chat.RunCall(w, tc, calls).1;
            && calls <= after && |after| <= |calls| + 1
            && (after != calls ==> after[|calls|].Help?)
            && forall server, command, params :: after != calls + [Chat.CallServer(server, command, params)]
  {
    var after := Chat.RunCall(w, tc, calls).1;
    forall server, command, params ensures after != calls + [Chat.CallServer(server, command, params)] {
      assert (calls + [Chat.CallServer(server, command, params)])[|calls|].CallServer?;
    }
  }

  lemma OwnNameIsSought(cfg: Config, s: Session, t: Turn, tc: Chat.ToolCall, id: string)
    requires t.listing.Servers? ==> DotFree(t.listing.servers)
    requires id in TurnIds(cfg, s, t.listing) && Chat.NameOfCall(tc) == NameOf(id) != HELP
    ensures Sought(tc) == Some(NameOf(id)) && NameOf(id) in Names(TurnIds(cfg, s, t.listing))
    ensures forall c :: c in TurnIds(cfg, s, t.listing) && NameOf(c) == NameOf(id) ==> c == id
  {
    ShownToolsResolve(cfg, s, t.listing);
    TurnIdIsClean(cfg, s, t.listing, id);
    StripFixed(NameOf(id));
    NameMembers(TurnIds(cfg, s, t.listing), NameOf(id));
  }

  /** The call does not run a command named help. */
  predicate RunsNoHelp(call: Chat.ProxyCall) {
    call.CallServer? ==> call.command != HELP
  }

  lemma CallRunsNoHelp(cfg: Config, s: Session, t: Turn, tc: Chat.ToolCall, calls: seq<Chat.ProxyCall>)
    requires t.listing.Servers? ==> DotFree(t.listing.servers)
    requires Stripped(Chat.NameOfCall(tc)) && AllOf(RunsNoHelp, calls)
    ensures AllOf(RunsNoHelp, Chat.RunCall(WorldOf(cfg, s, t), tc, calls).1)
  {
    var after := Chat.RunCall(WorldOf(cfg, s, t), tc, calls).1;
    if Chat.NameOfCall(tc) == HELP {
      HelpRunsNothing(WorldOf(cfg, s, t), tc, calls);
      assert after == calls || after == calls + [after[|calls|]];
    } else {
      StripFixed(Chat.NameOfCall(tc));
      ForwardedIffShown(cfg, s, t, tc, calls);
    }
  }

  /**
    So a listed command named help never runs in a whole turn, unless the model writes a tool
    name with outer white space.
  */
  lemma {:induction false} HelpCommandNeverRuns(db: Database, cfg: Config, s: Session, t: Turn)
    requires t.listing.Servers? ==> DotFree(t.listing.servers)
    requires Requests(WorldOf(cfg, s, t), tc => Stripped(Chat.NameOfCall(tc)))
    ensures AllOf(RunsNoHelp, ChatOf(db, cfg, s, t).calls)
  {
    var w := WorldOf(cfg, s, t);
    forall tc, calls | Stripped(Chat.NameOfCall(tc)) && AllOf(RunsNoHelp, calls)
      ensures AllOf(RunsNoHelp, Chat.RunCall(w, tc, calls).1)
    {
      CallRunsNoHelp(cfg, s, t, tc, calls);
    }
    EveryCallOfARun(w, tc => Stripped(Chat.NameOfCall(tc)), RunsNoHelp, HistoryOf(db, cfg, s, t), t.maxRounds);
  }
}
