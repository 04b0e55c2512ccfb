/**
  The discovery cache: rebuilt from a server listing, keeping the old entries of servers that
  yield nothing as unavailable.
*/
module Discovery {
  import opened Values
  import opened Text
  import opened CommandIds
  import opened ToolList

  /** A JSON field read as an object, given by its serialised form. */
  datatype ParamField = NoParams | ParamObject(json: string) | OddParams

  /** `(a or b or "").strip()`; None when the chosen value has no `strip`. */
  function FirstText(a: Field, b: Field): (t: Option<string>)
    ensures t.Some? ==> Stripped(t.value)
  {
    match FirstTruthy(a, b)
    case Word(text) => StripFixed(text); Some(Strip(text))
    case Odd(_) => None
  }

  /** `a or b or {}`, and `{}` when that is not an object. */
  function FirstParams(a: ParamField, b: ParamField): string {
    var chosen := if a == NoParams || a == ParamObject("{}") then b else a;
    if chosen.ParamObject? then chosen.json else "{}"
  }

  datatype Cmd = NotAnObject
               | Cmd(name: Field, command: Field, description: Field, summary: Field,
                     parameters: ParamField, params: ParamField)

  datatype Info = NoInfo | Info(summary: Field, description: Field, parameters: ParamField, params: ParamField)

  /**
    Where a server's commands come from: the listing itself, or a fetch from the server. A fetch
    yields a list, or raises when the body is not an object.
  */
  datatype Commands = Listed(items: seq<(string, Info)>) | Fetched(cmds: seq<Cmd>) | FetchRaises

  datatype Server = NotAServer
                  | Server(serverId: Field, id: Field, serverUrl: Field, url: Field, commands: Commands)

  /** The answer to `list_servers`: a proxy error, another exception, or the extracted list. */
  datatype Listing = ProxyError | OtherError | Servers(servers: seq<Server>)

  // ----- one command -----

  datatype Parse = Raises | Nothing | Parsed(id: string, schema: Schema)

  function ParseCommand(cmd: Cmd, server: string): (r: Parse)
    ensures r.Parsed? ==>
              exists name :: r.id == MakeId(name, server) && name != "" && Stripped(name) && r.schema.name == name
  {
    if cmd.NotAnObject? then Nothing else
    var name := FirstText(cmd.name, cmd.command);
    if name.None? then Raises
    else if name.value == "" then Nothing else
    var description := FirstText(cmd.description, cmd.summary);
    if description.None? then Raises else
    Parsed(MakeId(name.value, server), Schema(name.value, description.value, FirstParams(cmd.parameters, cmd.params)))
  }

  /** `_commands_dict_to_list`; None when a summary cannot be stripped. */
  function DictToList(items: seq<(string, Info)>): (r: Option<seq<Cmd>>) {
    if items == [] then Some([]) else
    var (name, info) := items[|items| - 1];
    var front := DictToList(items[..|items| - 1]);
    if front.None? || name == "" || info.NoInfo? then front else
    var description := FirstText(info.summary, info.description);
    if description.None? then None else
    Some(front.value + [Cmd(Word(name), Falsy, Word(description.value), Falsy,
                            ParamObject(FirstParams(info.parameters, info.params)), NoParams)])
  }

  method CommandsDictToList(items: seq<(string, Info)>) returns (r: Option<seq<Cmd>>)
    ensures r == DictToList(items)
  {
    var out: seq<Cmd> := [];
    for i := 0 to |items|
      invariant DictToList(items[..i]) == Some(out)
    {
      assert items[..i + 1][..i] == items[..i];
      var (name, info) := items[i];
      if name != "" && info != NoInfo {
        var description := FirstText(info.summary, info.description);
        if description == None {
          DictRaises(items, i + 1);
          return None;
        }
        out := out + [Cmd(Word(name), Falsy, Word(description.value), Falsy,
                          ParamObject(FirstParams(info.parameters, info.params)), NoParams)];
      }
    }
    assert items[..|items|] == items;
    r := Some(out);
  }

  lemma {:induction false} DictRaises(items: seq<(string, Info)>, i: nat)
    requires i <= |items| && DictToList(items[..i]).None?
    ensures DictToList(items).None?
    decreases |items| - i
  {
    if i < |items| {
      assert items[..i + 1][..i] == items[..i];
      DictRaises(items, i + 1);
    } else {
      assert items[..i] == items;
    }
  }

  // ----- one server -----

  /** The entries parsed before the first raising command, and whether one raised. */
  function ParseAll(cmds: seq<Cmd>, server: string): (seq<Entry>, bool) {
    if cmds == [] then ([], false)
    else ParseNext(ParseAll(cmds[..|cmds| - 1], server), ParseCommand(cmds[|cmds| - 1], server))
  }

  function ParseNext(front: (seq<Entry>, bool), p: Parse): (seq<Entry>, bool) {
    if front.1 then front else
    match p
    case Raises => (front.0, true)
    case Nothing => front
    case Parsed(id, schema) => (front.0 + [Entry(id, schema, true)], false)
  }

  lemma ParseStep(cmds: seq<Cmd>, i: nat, server: string)
    requires i < |cmds|
    ensures ParseAll(cmds[..i + 1], server) == ParseNext(ParseAll(cmds[..i], server), ParseCommand(cmds[i], server))
  {
    assert cmds[..i + 1][..i] == cmds[..i];
  }

  lemma {:induction false} ParsedMembers(cmds: seq<Cmd>, server: string)
    ensures forall e :: e in ParseAll(cmds, server).0 ==>
              exists cmd :: cmd in cmds && ParseCommand(cmd, server) == Parsed(e.id, e.schema)
    ensures forall e :: e in ParseAll(cmds, server).0 ==> e.available && OnServer(e.id, server)
  {
    if cmds != [] {
      var front, last := cmds[..|cmds| - 1], cmds[|cmds| - 1];
      ParsedMembers(front, server);
      assert cmds == front + [last];
      if ParseCommand(last, server).Parsed? {
        ParsedIsOnServer(last, server);
        assert last in cmds;
      }
    }
  }

  lemma ParsedIsOnServer(cmd: Cmd, server: string)
    requires ParseCommand(cmd, server).Parsed?
    ensures OnServer(ParseCommand(cmd, server).id, server)
  {
    var name :| ParseCommand(cmd, server).id == MakeId(name, server);
    MadeIdIsOnServer(name, server);
  }

  function Unavailable(e: Entry): Entry { e.(available := false) }

  function MarkDown(entries: seq<Entry>): (r: seq<Entry>)
    ensures |r| == |entries|
    ensures forall i :: 0 <= i < |r| ==> r[i] == Unavailable(entries[i])
  {
    seq(|entries|, i requires 0 <= i < |entries| => Unavailable(entries[i]))
  }

  /** The old entries that pass the suffix test for `server`, as unavailable. */
  function Stale(before: seq<Entry>, server: string): seq<Entry> {
    if before == [] then [] else
    var last := before[|before| - 1];
    Stale(before[..|before| - 1], server) + (if OnServer(last.id, server) then [Unavailable(last)] else [])
  }

  lemma {:induction false} StaleMembers(before: seq<Entry>, server: string)
    ensures forall e :: e in Stale(before, server) <==>
              exists o :: o in before && OnServer(o.id, server) && e == Unavailable(o)
    ensures Stale(before, server) != [] <==> exists o :: o in before && OnServer(o.id, server)
  {
    if before != [] {
      var front, last := before[..|before| - 1], before[|before| - 1];
      StaleMembers(front, server);
      assert before == front + [last];
      assert last in before;
    }
  }

  lemma StaleStep(before: seq<Entry>, i: nat, server: string)
    requires i < |before|
    ensures Stale(before[..i + 1], server) ==
            Stale(before[..i], server) + (if OnServer(before[i].id, server) then [Unavailable(before[i])] else [])
  {
    assert before[..i + 1][..i] == before[..i];
  }

  /**
    What one listed server contributes. `Escapes`: an exception outside the guarded part, which
    abandons the whole refresh.
  */
  datatype Block = Skipped | Escapes | Block(server: string, entries: seq<Entry>, down: bool) {
    function Contents(): seq<Entry> {
      if Block? then entries else []
    }
  }

  function CommandsOf(c: Commands): Option<seq<Cmd>> {
    match c
    case Listed(items) => DictToList(items)
    case Fetched(cmds) => Some(cmds)
    case FetchRaises => None
  }

  function BlockOf(srv: Server, before: seq<Entry>): (b: Block)
    ensures b.Block? ==> b.server != ""
  {
    if srv.NotAServer? then Skipped else
    var server := FirstText(srv.serverId, srv.id);
    if server.None? then Escapes else if server.value == "" then Skipped else
    var url := FirstText(srv.serverUrl, srv.url);
    if url.None? then Escapes else if url.value == "" then Skipped else
    var cmds := CommandsOf(srv.commands);
    if cmds.None? then Escapes else
    BlockFor(cmds.value, server.value, before)
  }

  /** The guarded part: what the commands of a server with id and URL contribute. */
  function BlockFor(cmds: seq<Cmd>, server: string, before: seq<Entry>): Block {
    var (parsed, raised) := ParseAll(cmds, server);
    var stale := Stale(before, server);
    if raised then Block(server, MarkDown(parsed) + stale, true)
    else if parsed == [] then Block(server, stale, stale != [])
    else Block(server, parsed, false)
  }

  // ----- a whole refresh -----

  /** One more block, unless the refresh was or is abandoned. */
  function Extended(cache: Option<seq<Entry>>, b: Block): Option<seq<Entry>> {
    if cache.None? || b.Escapes? then None else Some(cache.value + b.Contents())
  }

  /** The new cache: one block per listed server, in order. None when the refresh is abandoned. */
  function Rebuilt(servers: seq<Server>, before: seq<Entry>): (r: Option<seq<Entry>>) {
    if servers == [] then Some([])
    else Extended(Rebuilt(servers[..|servers| - 1], before), BlockOf(servers[|servers| - 1], before))
  }

  /** Servers marked unavailable by the time the refresh ends or is abandoned. */
  function DownServers(servers: seq<Server>, before: seq<Entry>): set<string> {
    if servers == [] then {} else
    var front := servers[..|servers| - 1];
    if Rebuilt(front, before).None? then DownServers(front, before) else
    match BlockOf(servers[|servers| - 1], before)
    case Block(server, _, true) => DownServers(front, before) + {server}
    case _ => DownServers(front, before)
  }

  /** The cache after a refresh that got `listing`. */
  function Refreshed(listing: Listing, cache: seq<Entry>): seq<Entry> {
    if listing.Servers? && listing.servers != [] && Rebuilt(listing.servers, cache).Some? then
      Rebuilt(listing.servers, cache).value
    else cache
  }

  predicate Escaping(listing: Listing, cache: seq<Entry>) {
    listing.OtherError? || (listing.Servers? && Rebuilt(listing.servers, cache).None?)
  }

  class CommandDiscovery {
    var cache: seq<Entry>
    var unavailableServers: set<string>

    constructor ()
      ensures cache == [] && unavailableServers == {}
    {
      cache, unavailableServers := [], {};
    }

    method Refresh(listing: Listing) returns (escaped: bool)
      modifies this
      ensures escaped == Escaping(listing, old(cache))
      ensures cache == Refreshed(listing, old(cache))
      ensures unavailableServers == old(unavailableServers) +
              (if listing.Servers? then DownServers(listing.servers, old(cache)) else {})
    {
      match listing {
        case ProxyError => return false;
        case OtherError => return true;
        case Servers(servers) =>
          if servers == [] {
            return false;
          }
          var newCache;
          newCache, escaped := RebuildCache(servers);
          if !escaped {
            cache := newCache;
          }
          return;
      }
    }

    /** The loop over servers, growing one list. */
    method RebuildCache(servers: seq<Server>) returns (newCache: seq<Entry>, escaped: bool)
      modifies this`unavailableServers
      ensures escaped <==> Rebuilt(servers, cache).None?
      ensures !escaped ==> Rebuilt(servers, cache) == Some(newCache)
      ensures unavailableServers == old(unavailableServers) + DownServers(servers, cache)
    {
      newCache, escaped := [], false;
      for i := 0 to |servers|
        invariant !escaped && Rebuilt(servers[..i], cache) == Some(newCache)
        invariant unavailableServers == old(unavailableServers) + DownServers(servers[..i], cache)
      {
        assert servers[..i + 1][..i] == servers[..i];
        newCache, escaped := AddServer(servers[i], newCache);
        if escaped {
          AbandonedAt(servers, i + 1, cache);
          return;
        }
      }
      assert servers[..|servers|] == servers;
    }

    /** The body of that loop; `out` is the same list after it. */
    method AddServer(srv: Server, newCache: seq<Entry>) returns (out: seq<Entry>, escaped: bool)
      modifies this`unavailableServers
      ensures escaped == BlockOf(srv, cache).Escapes?
      ensures !escaped ==> out == newCache + BlockOf(srv, cache).Contents()
      ensures unavailableServers == old(unavailableServers) +
              (if BlockOf(srv, cache).Block? && BlockOf(srv, cache).down then {BlockOf(srv, cache).server} else {})
    {
      out, escaped := newCache, false;
      if srv == NotAServer {
        return;
      }
      var server := FirstText(srv.serverId, srv.id);
      if server == None {
        return out, true;
      }
      if server.value == "" {
        return;
      }
      var url := FirstText(srv.serverUrl, srv.url);
      if url == None {
        return out, true;
      }
      if url.value == "" {
        return;
      }
      var commands;
      match srv.commands {
        case Listed(items) => commands := CommandsDictToList(items);
        case Fetched(cmds) => commands := Some(cmds);
        case FetchRaises => return out, true;
      }
      if commands == None {
        return out, true;
      }
      out := AddCommands(commands.value, server.value, newCache);
    }

    /** The guarded part, on the growing list from `startLen` on. */
    method AddCommands(cmds: seq<Cmd>, server: string, newCache: seq<Entry>) returns (out: seq<Entry>)
      modifies this`unavailableServers
      ensures out == newCache + BlockFor(cmds, server, cache).entries
      ensures unavailableServers
              == old(unavailableServers) + (if BlockFor(cmds, server, cache).down then {server} else {})
    {
      var startLen := |newCache|;
      var raised;
      StaleMembers(cache, server);
      out, raised := ParseInto(cmds, server, newCache);
      if raised {
        unavailableServers := unavailableServers + {server};
        ParsedMembers(cmds, server);
        out := MarkUnavailable(out, startLen, server);
        assert out == newCache + MarkDown(ParseAll(cmds, server).0);
        out := AppendStale(out, server);
      }
      if |out| == startLen {
        out := AppendStale(out, server);
        if exists e :: e in cache && OnServer(e.id, server) {
          unavailableServers := unavailableServers + {server};
        }
      }
    }

    /** The parse loop: appends until a command raises. */
    method ParseInto(cmds: seq<Cmd>, server: string, newCache: seq<Entry>) returns (out: seq<Entry>, raised: bool)
      ensures out == newCache + ParseAll(cmds, server).0 && raised == ParseAll(cmds, server).1
    {
      out, raised := newCache, false;
      for i := 0 to |cmds|
        invariant !raised && out == newCache + ParseAll(cmds[..i], server).0 && !ParseAll(cmds[..i], server).1
      {
        ParseStep(cmds, i, server);
        match ParseCommand(cmds[i], server)
        case Raises =>
          ParseStopped(cmds, i + 1, server);
          return out, true;
        case Nothing =>
        case Parsed(id, schema) =>
          out := out + [Entry(id, schema, true)];
      }
      assert cmds[..|cmds|] == cmds;
    }

    /** The loop that rewrites the indices from `startLen` on. */
    method MarkUnavailable(list: seq<Entry>, startLen: nat, server: string) returns (out: seq<Entry>)
      requires startLen <= |list|
      ensures |out| == |list|
      ensures forall k :: 0 <= k < |list| ==>
                out[k] == if startLen <= k && OnServer(list[k].id, server) then Unavailable(list[k]) else list[k]
    {
      out := list;
      for i := startLen to |list|
        invariant |out| == |list|
        invariant forall k :: 0 <= k < |list| ==>
                    out[k] == if startLen <= k < i && OnServer(list[k].id, server) then Unavailable(list[k])
                              else list[k]
      {
        if OnServer(out[i].id, server) {
          out := out[i := Unavailable(out[i])];
        }
      }
    }

    /** The loop that appends the old entries of a server. */
    method AppendStale(list: seq<Entry>, server: string) returns (out: seq<Entry>)
      ensures out == list + Stale(cache, server)
    {
      out := list;
      for i := 0 to |cache|
        invariant out == list + Stale(cache[..i], server)
      {
        StaleStep(cache, i, server);
        if OnServer(cache[i].id, server) {
          out := out + [Unavailable(cache[i])];
        }
      }
      assert cache[..|cache|] == cache;
    }

    function DiscoveredCommands(availableOnly: bool): seq<Entry>
      reads this
    {
      if availableOnly then Available(cache) else cache
    }
  }

  lemma {:induction false} ParseStopped(cmds: seq<Cmd>, i: nat, server: string)
    requires i <= |cmds| && ParseAll(cmds[..i], server).1
    ensures ParseAll(cmds, server) == ParseAll(cmds[..i], server)
    decreases |cmds| - i
  {
    if i < |cmds| {
      ParseStep(cmds, i, server);
      ParseStopped(cmds, i + 1, server);
    } else {
      assert cmds[..i] == cmds;
    }
  }

  lemma {:induction false} AbandonedAt(servers: seq<Server>, i: nat, before: seq<Entry>)
    requires i <= |servers| && Rebuilt(servers[..i], before).None?
    ensures Rebuilt(servers, before).None? && DownServers(servers, before) == DownServers(servers[..i], before)
    decreases |servers| - i
  {
    if i < |servers| {
      assert servers[..i + 1][..i] == servers[..i];
      AbandonedAt(servers, i + 1, before);
    } else {
      assert servers[..i] == servers;
    }
  }
}
