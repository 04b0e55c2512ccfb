/** What one refresh puts into the discovery cache: one block per listed server. */
module DiscoveryBlocks {
  import opened Values
  import opened Text
  import opened CommandIds
  import opened ToolList
  import opened Discovery

  /** The listing row names server `server` and gives it a URL. */
  predicate Contributes(srv: Server, server: string) {
    && srv.Server?
    && server != ""
    && FirstText(srv.serverId, srv.id) == Some(server)
    && FirstText(srv.serverUrl, srv.url).Some?
    && FirstText(srv.serverUrl, srv.url) != Some("")
  }

  predicate Lists(servers: seq<Server>, server: string) {
    exists srv :: srv in servers && Contributes(srv, server)
  }

  /** The row yields at least one command for `server` before any of them raises. */
  predicate Yields(srv: Server, server: string) {
    && Contributes(srv, server)
    && CommandsOf(srv.commands).Some?
    && ParseAll(CommandsOf(srv.commands).value, server).0 != []
  }

  ghost predicate Holds(cache: seq<Entry>, server: string) {
    exists e :: e in cache && OnServer(e.id, server)
  }

  // ----- one block -----

  /** `e` was parsed from a command of this row. */
  predicate FromRow(srv: Server, server: string, e: Entry) {
    && Contributes(srv, server)
    && CommandsOf(srv.commands).Some?
    && exists cmd :: cmd in CommandsOf(srv.commands).value && ParseCommand(cmd, server) == Parsed(e.id, e.schema)
  }

  lemma RowBlock(srv: Server, server: string, before: seq<Entry>)
    requires Contributes(srv, server) && !BlockOf(srv, before).Escapes?
    ensures CommandsOf(srv.commands).Some?
    ensures BlockOf(srv, before) == BlockFor(CommandsOf(srv.commands).value, server, before)
  {
  }

  lemma BlockRow(srv: Server, before: seq<Entry>)
    requires BlockOf(srv, before).Block?
    ensures Contributes(srv, BlockOf(srv, before).server)
  {
  }

  lemma MarkDownMembers(parsed: seq<Entry>)
    ensures forall e :: e in MarkDown(parsed) <==> exists o :: o in parsed && e == Unavailable(o)
  {
    forall e | e in MarkDown(parsed) ensures exists o :: o in parsed && e == Unavailable(o) {
      var i :| 0 <= i < |parsed| && MarkDown(parsed)[i] == e;
      assert parsed[i] in parsed;
    }
    forall o | o in parsed ensures Unavailable(o) in MarkDown(parsed) {
      var i :| 0 <= i < |parsed| && parsed[i] == o;
      assert MarkDown(parsed)[i] == Unavailable(o);
    }
  }

  /**
    A block is all available or all unavailable; every entry of it is on the block's server; it
    is empty exactly when nothing was parsed and nothing was cached for the server.
  */
  lemma {:induction false} BlockShape(cmds: seq<Cmd>, server: string, before: seq<Entry>)
    ensures var entries := BlockFor(cmds, server, before).entries;
            && (forall e :: e in entries ==> OnServer(e.id, server))
            && ((forall e :: e in entries ==> e.available) || (forall e :: e in entries ==> !e.available))
            && (entries != [] <==> ParseAll(cmds, server).0 != [] || Holds(before, server))
  {
    StaleMembers(before, server);
    ParsedMembers(cmds, server);
    MarkDownMembers(ParseAll(cmds, server).0);
    var entries := BlockFor(cmds, server, before).entries;
    if ParseAll(cmds, server).1 {
      assert entries == MarkDown(ParseAll(cmds, server).0) + Stale(before, server);
      assert |entries| == |ParseAll(cmds, server).0| + |Stale(before, server)|;
    }
  }

  /** An entry of a block was parsed from one of the commands, or is an old one kept as unavailable. */
  lemma {:induction false} BlockEntryOrigin(cmds: seq<Cmd>, server: string, before: seq<Entry>, e: Entry)
    requires e in BlockFor(cmds, server, before).entries
    ensures (exists cmd :: cmd in cmds && ParseCommand(cmd, server) == Parsed(e.id, e.schema))
         || (exists o :: o in before && e == Unavailable(o))
  {
    StaleMembers(before, server);
    ParsedMembers(cmds, server);
    MarkDownMembers(ParseAll(cmds, server).0);
  }

  /** The row hands over commands, and none of them raises. */
  predicate Delivers(srv: Server, server: string) {
    && Yields(srv, server)
    && !ParseAll(CommandsOf(srv.commands).value, server).1
  }

  /** An old entry stays in a block exactly when it passes the suffix test and nothing was delivered. */
  lemma {:induction false} OldEntryInBlock(cmds: seq<Cmd>, server: string, before: seq<Entry>, e: Entry)
    requires e in before
    ensures Unavailable(e) in BlockFor(cmds, server, before).entries <==>
            OnServer(e.id, server) && (ParseAll(cmds, server).1 || ParseAll(cmds, server).0 == [])
  {
    BlockShape(cmds, server, before);
    ParsedMembers(cmds, server);
    StaleMembers(before, server);
    if OnServer(e.id, server) {
      assert Unavailable(e) in Stale(before, server);
    }
  }

  // ----- what a block is, without the algorithm -----

  /** `picks` are the chosen indices below `n`, in order. */
  ghost predicate PicksBelow(picks: seq<nat>, n: nat, chosen: nat -> bool) {
    && (forall j, k :: 0 <= j < k < |picks| ==> picks[j] < picks[k])
    && (forall i: nat :: i in picks <==> i < n && chosen(i))
  }

  lemma PickOneMore(picks: seq<nat>, n: nat, chosen: nat -> bool)
    requires PicksBelow(picks, n, chosen)
    ensures PicksBelow(if chosen(n) then picks + [n] else picks, n + 1, chosen)
    ensures forall j :: 0 <= j < |picks| ==> picks[j] < n
  {
    forall j | 0 <= j < |picks| ensures picks[j] < n {
      assert picks[j] in picks;
    }
    forall i: nat ensures i in picks + [n] <==> i in picks || i == n {}
  }

  function ParsedAt(cmds: seq<Cmd>, server: string): nat -> bool {
    (i: nat) => i < |cmds| && ParseCommand(cmds[i], server).Parsed?
  }

  function OnServerAt(before: seq<Entry>, server: string): nat -> bool {
    (i: nat) => i < |before| && OnServer(before[i].id, server)
  }

  /** No command before `n` raises, and the one at `n`, if any, does. */
  ghost predicate FirstRaise(cmds: seq<Cmd>, server: string, n: nat) {
    && n <= |cmds|
    && (forall i :: 0 <= i < n ==> !ParseCommand(cmds[i], server).Raises?)
    && (n < |cmds| ==> ParseCommand(cmds[n], server).Raises?)
  }

  /** `parsed` are the parsed ones of the first `n` commands, each once, in order. */
  ghost predicate ParsedInOrder(parsed: seq<Entry>, picks: seq<nat>, cmds: seq<Cmd>, server: string, n: nat)
    requires n <= |cmds|
  {
    && |picks| == |parsed| && PicksBelow(picks, n, ParsedAt(cmds, server))
    && (forall j :: 0 <= j < |picks| && picks[j] < n ==>
          ParseCommand(cmds[picks[j]], server) == Parsed(parsed[j].id, parsed[j].schema))
  }

  /** `stale` are those of the first `n` old entries that pass the suffix test, each once, in order, unavailable. */
  ghost predicate StaleInOrder(stale: seq<Entry>, picks: seq<nat>, before: seq<Entry>, server: string, n: nat)
    requires n <= |before|
  {
    && |picks| == |stale| && PicksBelow(picks, n, OnServerAt(before, server))
    && (forall j :: 0 <= j < |picks| && picks[j] < n ==> stale[j] == Unavailable(before[picks[j]]))
  }

  /**
    The block of a server: what was parsed before the first exception, available if there was
    none; after an exception, and also when nothing was parsed, the old entries as unavailable.
  */
  ghost predicate IsBlock(entries: seq<Entry>, cmds: seq<Cmd>, server: string, before: seq<Entry>) {
    exists n: nat, parsed: seq<Entry>, stale: seq<Entry>, parsedPicks: seq<nat>, stalePicks: seq<nat> ::
      && FirstRaise(cmds, server, n)
      && ParsedInOrder(parsed, parsedPicks, cmds, server, n)
      && StaleInOrder(stale, stalePicks, before, server, |before|)
      && (forall e :: e in parsed ==> e.available == (n == |cmds|))
      && entries == if n == |cmds| && parsed != [] then parsed else parsed + stale
  }

  lemma {:induction false} ParsedBelow(cmds: seq<Cmd>, server: string, n: nat) returns (picks: seq<nat>)
    requires n <= |cmds| && forall i :: 0 <= i < n ==> !ParseCommand(cmds[i], server).Raises?
    ensures !ParseAll(cmds[..n], server).1
    ensures ParsedInOrder(ParseAll(cmds[..n], server).0, picks, cmds, server, n)
  {
    if n == 0 {
      picks := [];
    } else {
      picks := ParsedBelow(cmds, server, n - 1);
      ParseStep(cmds, n - 1, server);
      PickOneMore(picks, n - 1, ParsedAt(cmds, server));
      if ParseCommand(cmds[n - 1], server).Parsed? {
        picks := picks + [n - 1];
      }
    }
  }

  lemma {:induction false} FindRaise(cmds: seq<Cmd>, server: string, from: nat) returns (n: nat)
    requires from <= |cmds| && forall i :: 0 <= i < from ==> !ParseCommand(cmds[i], server).Raises?
    ensures FirstRaise(cmds, server, n)
    decreases |cmds| - from
  {
    if from == |cmds| || ParseCommand(cmds[from], server).Raises? {
      n := from;
    } else {
      n := FindRaise(cmds, server, from + 1);
    }
  }

  lemma {:induction false} ParsedPicks(cmds: seq<Cmd>, server: string) returns (n: nat, picks: seq<nat>)
    ensures FirstRaise(cmds, server, n)
    ensures ParsedInOrder(ParseAll(cmds, server).0, picks, cmds, server, n)
    ensures ParseAll(cmds, server).1 <==> n < |cmds|
  {
    n := FindRaise(cmds, server, 0);
    picks := ParsedBelow(cmds, server, n);
    if n < |cmds| {
      ParseStep(cmds, n, server);
      ParseStopped(cmds, n + 1, server);
    } else {
      assert cmds[..n] == cmds;
    }
  }

  lemma StaleOneMore(stale: seq<Entry>, picks: seq<nat>, before: seq<Entry>, server: string, n: nat)
    requires n < |before| && StaleInOrder(stale, picks, before, server, n)
    ensures if OnServer(before[n].id, server)
            then StaleInOrder(stale + [Unavailable(before[n])], picks + [n], before, server, n + 1)
            else StaleInOrder(stale, picks, before, server, n + 1)
  {
    PickOneMore(picks, n, OnServerAt(before, server));
  }

  lemma {:induction false} StaleBelow(before: seq<Entry>, server: string, n: nat) returns (picks: seq<nat>)
    requires n <= |before|
    ensures StaleInOrder(Stale(before[..n], server), picks, before, server, n)
  {
    if n == 0 {
      picks := [];
    } else {
      picks := StaleBelow(before, server, n - 1);
      StaleStep(before, n - 1, server);
      StaleOneMore(Stale(before[..n - 1], server), picks, before, server, n - 1);
      if OnServer(before[n - 1].id, server) {
        picks := picks + [n - 1];
      }
    }
  }

  lemma {:induction false} BlockForIsBlock(cmds: seq<Cmd>, server: string, before: seq<Entry>)
    ensures IsBlock(BlockFor(cmds, server, before).entries, cmds, server, before)
  {
    var n, parsedPicks := ParsedPicks(cmds, server);
    var stalePicks := StaleBelow(before, server, |before|);
    assert before[..|before|] == before;
    ParsedMembers(cmds, server);
    var (all, raised) := ParseAll(cmds, server);
    var parsed := if raised then MarkDown(all) else all;
    MarkDownMembers(all);
    assert ParsedInOrder(parsed, parsedPicks, cmds, server, n);
    assert parsed == [] ==> parsed + Stale(before, server) == Stale(before, server);
  }

  // ----- one refresh -----

  /** Whether a refresh is abandoned does not depend on the cache it started from. */
  lemma {:induction false} AbandonedAnyway(servers: seq<Server>, a: seq<Entry>, b: seq<Entry>)
    ensures Rebuilt(servers, a).Some? <==> Rebuilt(servers, b).Some?
  {
    if servers != [] {
      AbandonedAnyway(servers[..|servers| - 1], a, b);
    }
  }

  ghost predicate InBlock(srv: Server, before: seq<Entry>, e: Entry) {
    e in BlockOf(srv, before).Contents()
  }

  lemma {:induction false} RowEntryOrigin(srv: Server, before: seq<Entry>, e: Entry)
    requires BlockOf(srv, before).Block? && InBlock(srv, before, e)
    ensures FromRow(srv, BlockOf(srv, before).server, e) || exists o :: o in before && e == Unavailable(o)
  {
    BlockRow(srv, before);
    RowBlock(srv, BlockOf(srv, before).server, before);
    BlockEntryOrigin(CommandsOf(srv.commands).value, BlockOf(srv, before).server, before, e);
  }

  lemma {:induction false} NoneEscapes(servers: seq<Server>, before: seq<Entry>)
    requires Rebuilt(servers, before).Some?
    ensures forall srv :: srv in servers ==> !BlockOf(srv, before).Escapes?
  {
    if servers != [] {
      var front, last := servers[..|servers| - 1], servers[|servers| - 1];
      NoneEscapes(front, before);
      assert servers == front + [last];
    }
  }

  lemma LastBlock(servers: seq<Server>, before: seq<Entry>)
    requires servers != [] && Rebuilt(servers, before).Some?
    ensures var front := Rebuilt(servers[..|servers| - 1], before);
            front.Some? && Rebuilt(servers, before).value
            == front.value + BlockOf(servers[|servers| - 1], before).Contents()
  {
  }

  lemma {:induction false} RebuiltMembers(servers: seq<Server>, before: seq<Entry>, e: Entry)
    requires Rebuilt(servers, before).Some?
    ensures e in Rebuilt(servers, before).value <==> exists srv :: srv in servers && InBlock(srv, before, e)
  {
    if servers != [] {
      var front, last := servers[..|servers| - 1], servers[|servers| - 1];
      LastBlock(servers, before);
      RebuiltMembers(front, before, e);
      assert servers == front + [last];
      assert last in servers;
      if srv :| srv in front && InBlock(srv, before, e) {
        assert srv in servers;
      }
    }
  }

  lemma ExtendedAppends(x: Option<seq<Entry>>, y: Option<seq<Entry>>, xy: Option<seq<Entry>>, b: Block)
    requires xy == if x.Some? && y.Some? then Some(x.value + y.value) else None
    ensures Extended(xy, b) == if x.Some? && Extended(y, b).Some? then Some(x.value + Extended(y, b).value) else None
  {
    if xy.Some? && !b.Escapes? {
      assert x.value + y.value + b.Contents() == x.value + (y.value + b.Contents());
    }
  }

  /** The new cache is one block per listed server, concatenated in listing order. */
  lemma {:induction false} BlocksInListingOrder(xs: seq<Server>, ys: seq<Server>, before: seq<Entry>)
    ensures Rebuilt(xs + ys, before) ==
            if Rebuilt(xs, before).Some? && Rebuilt(ys, before).Some?
            then Some(Rebuilt(xs, before).value + Rebuilt(ys, before).value) else None
    decreases |ys|
  {
    if ys == [] {
      assert xs + ys == xs;
      assert Rebuilt(xs, before).Some? ==> Rebuilt(xs, before).value + [] == Rebuilt(xs, before).value;
    } else {
      var front, last := ys[..|ys| - 1], ys[|ys| - 1];
      assert (xs + ys)[..|xs + ys| - 1] == xs + front;
      BlocksInListingOrder(xs, front, before);
      ExtendedAppends(Rebuilt(xs, before), Rebuilt(front, before), Rebuilt(xs + front, before), BlockOf(last, before));
    }
  }

  function Flatten(blocks: seq<seq<Entry>>): seq<Entry> {
    if blocks == [] then [] else Flatten(blocks[..|blocks| - 1]) + blocks[|blocks| - 1]
  }

  /** What a listed row puts into the cache: its server's block, or nothing without id and URL. */
  ghost predicate IsContribution(entries: seq<Entry>, srv: Server, before: seq<Entry>) {
    if exists server :: Contributes(srv, server) then
      CommandsOf(srv.commands).Some? &&
      forall server :: Contributes(srv, server) ==> IsBlock(entries, CommandsOf(srv.commands).value, server, before)
    else entries == []
  }

  lemma {:induction false} RowContribution(srv: Server, before: seq<Entry>)
    requires !BlockOf(srv, before).Escapes?
    ensures IsContribution(BlockOf(srv, before).Contents(), srv, before)
  {
    if server :| Contributes(srv, server) {
      RowBlock(srv, server, before);
      BlockForIsBlock(CommandsOf(srv.commands).value, server, before);
    } else if BlockOf(srv, before).Block? {
      BlockRow(srv, before);
    }
  }

  ghost predicate AreContributions(blocks: seq<seq<Entry>>, servers: seq<Server>, before: seq<Entry>) {
    && |blocks| == |servers|
    && forall i :: 0 <= i < |servers| ==> IsContribution(blocks[i], servers[i], before)
  }

  lemma OneMoreContribution(blocks: seq<seq<Entry>>, entries: seq<Entry>, servers: seq<Server>, before: seq<Entry>)
    requires servers != [] && AreContributions(blocks, servers[..|servers| - 1], before)
    requires IsContribution(entries, servers[|servers| - 1], before)
    ensures AreContributions(blocks + [entries], servers, before)
    ensures Flatten(blocks + [entries]) == Flatten(blocks) + entries
  {
    assert (blocks + [entries])[..|blocks|] == blocks;
    forall i | 0 <= i < |servers| ensures IsContribution((blocks + [entries])[i], servers[i], before) {
      if i < |servers| - 1 {
        assert servers[i] == servers[..|servers| - 1][i];
      }
    }
  }

  /** After a refresh the cache is, row by row in listing order, what each row contributes. */
  lemma {:induction false} RefreshIsBlocks(servers: seq<Server>, before: seq<Entry>) returns (blocks: seq<seq<Entry>>)
    requires Rebuilt(servers, before).Some?
    ensures AreContributions(blocks, servers, before) && Rebuilt(servers, before).value == Flatten(blocks)
  {
    blocks := [];
    if servers != [] {
      var front, last := servers[..|servers| - 1], servers[|servers| - 1];
      LastBlock(servers, before);
      NoneEscapes(servers, before);
      assert last in servers;
      blocks := RefreshIsBlocks(front, before);
      RowContribution(last, before);
      OneMoreContribution(blocks, BlockOf(last, before).Contents(), servers, before);
      blocks := blocks + [BlockOf(last, before).Contents()];
    }
  }

  /** A listed server that had an entry still has one. */
  lemma {:induction false} ListedServerKeepsEntries(servers: seq<Server>, before: seq<Entry>, server: string)
    requires Rebuilt(servers, before).Some? && Lists(servers, server)
    requires Holds(before, server) || exists srv :: srv in servers && Yields(srv, server)
    ensures Holds(Rebuilt(servers, before).value, server)
  {
    NoneEscapes(servers, before);
    var srv :| srv in servers && Contributes(srv, server) && (Holds(before, server) || Yields(srv, server));
    RowBlock(srv, server, before);
    BlockShape(CommandsOf(srv.commands).value, server, before);
    var e := BlockOf(srv, before).entries[0];
    assert e in BlockOf(srv, before).entries && InBlock(srv, before, e);
    RebuiltMembers(servers, before, e);
  }

  predicate DotFree(servers: seq<Server>) {
    forall srv :: srv in servers ==>
      (srv.Server? && FirstText(srv.serverId, srv.id).Some? ==> '.' !in FirstText(srv.serverId, srv.id).value)
  }

  /**
    With dot-free server ids, a server has entries after a refresh exactly when it is listed with
    a URL and either yields a command now or had an entry before.
  */
  lemma {:induction false} WhoHasEntries(servers: seq<Server>, before: seq<Entry>, server: string)
    requires Rebuilt(servers, before).Some? && DotFree(servers) && '.' !in server
    ensures Holds(Rebuilt(servers, before).value, server) <==>
            Lists(servers, server) && (Holds(before, server) || exists srv :: srv in servers && Yields(srv, server))
  {
    if Holds(Rebuilt(servers, before).value, server) {
      var e :| e in Rebuilt(servers, before).value && OnServer(e.id, server);
      RebuiltMembers(servers, before, e);
      var srv :| srv in servers && InBlock(srv, before, e);
      var own := BlockOf(srv, before).server;
      BlockRow(srv, before);
      RowBlock(srv, own, before);
      BlockShape(CommandsOf(srv.commands).value, own, before);
      SuffixTestIsServerTest(e.id, server);
      SuffixTestIsServerTest(e.id, own);
    }
    if Lists(servers, server) && (Holds(before, server) || exists srv :: srv in servers && Yields(srv, server)) {
      ListedServerKeepsEntries(servers, before, server);
    }
  }

  /**
    An entry of the old cache stays, as unavailable, exactly when some listed server passes its
    suffix test and hands over no usable commands.
  */
  lemma {:induction false} OldEntryStaysIff(servers: seq<Server>, before: seq<Entry>, e: Entry)
    requires Rebuilt(servers, before).Some? && e in before
    ensures Unavailable(e) in Rebuilt(servers, before).value <==>
            exists srv, server ::
              srv in servers && Contributes(srv, server) && OnServer(e.id, server) && !Delivers(srv, server)
  {
    RebuiltMembers(servers, before, Unavailable(e));
    NoneEscapes(servers, before);
    if srv :| srv in servers && InBlock(srv, before, Unavailable(e)) {
      var server := BlockOf(srv, before).server;
      BlockRow(srv, before);
      RowBlock(srv, server, before);
      OldEntryInBlock(CommandsOf(srv.commands).value, server, before, e);
    }
    if srv, server :| srv in servers && Contributes(srv, server) && OnServer(e.id, server) && !Delivers(srv, server) {
      RowBlock(srv, server, before);
      OldEntryInBlock(CommandsOf(srv.commands).value, server, before, e);
      assert InBlock(srv, before, Unavailable(e));
    }
  }

  /**
    Servers mixed up: with dot-free listed ids, an entry built for a server that is not listed
    stays exactly when that server's id ends in a dot and the id of a listed one that delivers nothing.
  */
  lemma {:induction false} ForeignEntryStaysIff(servers: seq<Server>, before: seq<Entry>, name: string, other: string,
                                                schema: Schema, available: bool)
    requires Rebuilt(servers, before).Some? && DotFree(servers) && !Lists(servers, other)
    requires Entry(MakeId(name, other), schema, available) in before
    ensures Entry(MakeId(name, other), schema, false) in Rebuilt(servers, before).value <==>
            exists srv, server ::
              srv in servers && Contributes(srv, server) && EndsWith(other, "." + server) && !Delivers(srv, server)
  {
    var e := Entry(MakeId(name, other), schema, available);
    OldEntryStaysIff(servers, before, e);
    forall srv, server | srv in servers && Contributes(srv, server)
      ensures OnServer(e.id, server) <==> EndsWith(other, "." + server)
    {
      SuffixTestOnBuiltId(name, other, server);
    }
  }
}
