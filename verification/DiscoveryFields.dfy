/** What discovery takes from each field of a listing, and when it gives up or marks a server down. */
module DiscoveryFields {
  import opened Values
  import opened Text
  import opened ToolList
  import opened Discovery
  import opened DiscoveryBlocks
  import opened DiscoveryRuns

  // ----- fields -----

  predicate Skipped(f: Field) {
    f == Falsy || f == Word("")
  }

  /** The text of the first field, or of the second when the first is missing or empty; None when it is not text. */
  predicate PickedText(a: Field, b: Field, text: Option<string>) {
    var f := if Skipped(a) then b else a;
    match f
    case Falsy => text == Some("")
    case Word(t) => text == Some(Strip(t))
    case Odd(_) => text == None
  }

  lemma FirstTextIsPicked(a: Field, b: Field)
    ensures PickedText(a, b, FirstText(a, b))
  {
    StripFixed("");
  }

  /** The first object, or the second when the first is missing or empty; anything else counts as empty. */
  predicate PickedParams(a: ParamField, b: ParamField, json: string) {
    match a
    case OddParams => json == "{}"
    case ParamObject(text) =>
      if text != "{}" then json == text else if b.ParamObject? then json == b.json else json == "{}"
    case NoParams => if b.ParamObject? then json == b.json else json == "{}"
  }

  // ----- one command -----

  /** The schema has the command's own name, description and parameters. */
  predicate DescribedBy(schema: Schema, cmd: Cmd) {
    && cmd.Cmd?
    && PickedText(cmd.name, cmd.command, Some(schema.name))
    && PickedText(cmd.description, cmd.summary, Some(schema.description))
    && PickedParams(cmd.parameters, cmd.params, schema.parameters)
  }

  /**
    A command is parsed exactly when its name is a non-blank text and its description is text, and
    it raises exactly when the name is not text, or it has a name and the description is not text.
  */
  lemma ParseIff(cmd: Cmd, server: string, id: string, schema: Schema)
    ensures ParseCommand(cmd, server) == Parsed(id, schema) <==>
            schema.name != "" && DescribedBy(schema, cmd) && id == schema.name + "." + server
    ensures ParseCommand(cmd, server).Raises? <==>
            cmd.Cmd? && (PickedText(cmd.name, cmd.command, None)
                         || (!PickedText(cmd.name, cmd.command, Some(""))
                             && PickedText(cmd.description, cmd.summary, None)))
  {
    if cmd.Cmd? {
      FirstTextIsPicked(cmd.name, cmd.command);
      FirstTextIsPicked(cmd.description, cmd.summary);
    }
  }

  // ----- the proxy's dictionary of commands -----

  predicate Usable(item: (string, Info)) {
    item.0 != "" && item.1.Info?
  }

  /** The command made of a dictionary item. */
  predicate MadeOf(cmd: Cmd, item: (string, Info)) {
    && Usable(item) && cmd.Cmd? && cmd.name == Word(item.0)
    && cmd.description.Word? && PickedText(item.1.summary, item.1.description, Some(cmd.description.text))
    && cmd.parameters.ParamObject? && PickedParams(item.1.parameters, item.1.params, cmd.parameters.json)
  }

  /**
    A dictionary becomes the commands of its usable items, each once and in order; it raises
    exactly when one of them has a summary, or for lack of it a description, that is not text.
  */
  lemma {:induction false} DictIsTakenOver(items: seq<(string, Info)>) returns (picks: seq<nat>)
    ensures DictToList(items).None? <==>
            exists item :: item in items && Usable(item) && PickedText(item.1.summary, item.1.description, None)
    ensures DictToList(items).Some? ==>
              var cmds := DictToList(items).value;
              && |picks| == |cmds|
              && (forall j, k :: 0 <= j < k < |picks| ==> picks[j] < picks[k])
              && (forall i: nat :: i in picks <==> i < |items| && Usable(items[i]))
              && (forall j :: 0 <= j < |picks| ==> picks[j] < |items| && MadeOf(cmds[j], items[picks[j]]))
  {
    picks := [];
    if items != [] {
      var front, last := items[..|items| - 1], items[|items| - 1];
      picks := DictIsTakenOver(front);
      LastItem(items);
      if Usable(last) && DictToList(items).Some? {
        OneMorePick(picks, front);
        picks := picks + [|front|];
      }
    }
  }

  lemma LastItem(items: seq<(string, Info)>)
    requires items != []
    ensures var front, last := items[..|items| - 1], items[|items| - 1];
            var odd := Usable(last) && PickedText(last.1.summary, last.1.description, None);
            && (DictToList(items).None? <==> DictToList(front).None? || odd)
            && (DictToList(items).Some? ==>
                  if Usable(last) then
                    exists cmd :: MadeOf(cmd, last) && DictToList(items).value == DictToList(front).value + [cmd]
                  else DictToList(items) == DictToList(front))
            && forall item :: item in items <==> item in front || item == last
  {
    var front, last := items[..|items| - 1], items[|items| - 1];
    assert items == front + [last];
    if Usable(last) {
      FirstTextIsPicked(last.1.summary, last.1.description);
      if DictToList(items).Some? {
        var cmd := DictToList(items).value[|DictToList(front).value|];
        assert MadeOf(cmd, last);
      }
    }
  }

  lemma OneMorePick(picks: seq<nat>, front: seq<(string, Info)>)
    requires forall i: nat :: i in picks <==> i < |front| && Usable(front[i])
    ensures forall j :: 0 <= j < |picks| ==> picks[j] < |front|
    ensures forall i: nat :: i in picks + [|front|] <==> i in picks || i == |front|
  {
    forall j | 0 <= j < |picks| ensures picks[j] < |front| {
      assert picks[j] in picks;
    }
  }

  // ----- rows -----

  /** The row has this server id, from either field, and a URL, from either field. */
  lemma ContributesIff(srv: Server, server: string)
    ensures Contributes(srv, server) <==>
            && srv.Server? && server != "" && PickedText(srv.serverId, srv.id, Some(server))
            && !PickedText(srv.serverUrl, srv.url, None) && !PickedText(srv.serverUrl, srv.url, Some(""))
  {
    if srv.Server? {
      FirstTextIsPicked(srv.serverId, srv.id);
      FirstTextIsPicked(srv.serverUrl, srv.url);
    }
  }

  /** The row makes the refresh fail: an id or URL that is not text, a failed fetch, or an odd dictionary. */
  predicate RowFails(srv: Server) {
    && srv.Server?
    && (PickedText(srv.serverId, srv.id, None)
        || (!PickedText(srv.serverId, srv.id, Some(""))
            && (PickedText(srv.serverUrl, srv.url, None)
                || (!PickedText(srv.serverUrl, srv.url, Some("")) && CommandsFail(srv.commands)))))
  }

  predicate CommandsFail(c: Commands) {
    match c
    case FetchRaises => true
    case Fetched(_) => false
    case Listed(items) =>
      exists item :: item in items && Usable(item) && PickedText(item.1.summary, item.1.description, None)
  }

  lemma RowFailsIff(srv: Server, before: seq<Entry>)
    ensures BlockOf(srv, before).Escapes? <==> RowFails(srv)
  {
    if srv.Server? {
      FirstTextIsPicked(srv.serverId, srv.id);
      FirstTextIsPicked(srv.serverUrl, srv.url);
      if srv.commands.Listed? {
        var picks := DictIsTakenOver(srv.commands.items);
      }
    }
  }

  lemma {:induction false} AbandonedIff(servers: seq<Server>, before: seq<Entry>)
    ensures Rebuilt(servers, before).None? <==> exists srv :: srv in servers && RowFails(srv)
  {
    if servers != [] {
      var front, last := servers[..|servers| - 1], servers[|servers| - 1];
      AbandonedIff(front, before);
      RowFailsIff(last, before);
      assert servers == front + [last];
    }
  }

  /**
    A refresh raises exactly when listing the servers does, other than by the proxy's own error,
    or some row fails; otherwise an answer with rows replaces the cache, and any other leaves it.
  */
  lemma {:induction false} RefreshRaisesIff(listing: Listing, cache: seq<Entry>)
    ensures Escaping(listing, cache) <==>
            listing == OtherError || (listing.Servers? && exists srv :: srv in listing.servers && RowFails(srv))
  {
    if listing.Servers? {
      AbandonedIff(listing.servers, cache);
    }
  }

  // ----- servers marked unavailable -----

  predicate SomeCommandRaises(srv: Server, server: string) {
    srv.Server? && CommandsOf(srv.commands).Some? &&
    exists cmd :: cmd in CommandsOf(srv.commands).value && ParseCommand(cmd, server).Raises?
  }

  /** The row marks its server: a command of it raises, or it has none and an old entry passes the suffix test. */
  ghost predicate MarksDown(srv: Server, server: string, before: seq<Entry>) {
    && Contributes(srv, server)
    && (SomeCommandRaises(srv, server) || (!Yields(srv, server) && Holds(before, server)))
  }

  lemma {:induction false} RaisesSomewhere(cmds: seq<Cmd>, server: string)
    ensures ParseAll(cmds, server).1 <==> exists cmd :: cmd in cmds && ParseCommand(cmd, server).Raises?
  {
    if cmds != [] {
      var front, last := cmds[..|cmds| - 1], cmds[|cmds| - 1];
      RaisesSomewhere(front, server);
      assert cmds == front + [last];
    }
  }

  lemma {:induction false} MarkIff(srv: Server, server: string, before: seq<Entry>)
    requires !BlockOf(srv, before).Escapes?
    ensures MarksDown(srv, server, before) <==>
            BlockOf(srv, before).Block? && BlockOf(srv, before).down && BlockOf(srv, before).server == server
  {
    if Contributes(srv, server) {
      RowBlock(srv, server, before);
      RaisesSomewhere(CommandsOf(srv.commands).value, server);
      StaleMembers(before, server);
    } else if BlockOf(srv, before).Block? {
      BlockRow(srv, before);
    }
  }

  /** Row `k` marks the server and no row up to it fails. */
  ghost predicate MarkedAt(servers: seq<Server>, before: seq<Entry>, server: string, k: int) {
    0 <= k < |servers| && MarksDown(servers[k], server, before) && forall j :: 0 <= j <= k ==> !RowFails(servers[j])
  }

  /**
    The servers a refresh marks as unavailable: those of the rows before the first failing one
    that mark their server down.
  */
  lemma {:induction false} MarkedDownIff(servers: seq<Server>, before: seq<Entry>, server: string)
    ensures server in DownServers(servers, before) <==> exists k :: MarkedAt(servers, before, server, k)
  {
    if servers != [] {
      var front, last := servers[..|servers| - 1], servers[|servers| - 1];
      MarkedDownIff(front, before, server);
      AbandonedIff(front, before);
      RowFailsIff(last, before);
      MarkedByFront(servers, before, server);
      MarkedByLast(servers, before, server);
      if Rebuilt(front, before).Some? && !RowFails(last) {
        MarkIff(last, server, before);
      }
      if k :| MarkedAt(front, before, server, k) {
        assert MarkedAt(servers, before, server, k);
      }
    }
  }

  lemma MarkedByFront(servers: seq<Server>, before: seq<Entry>, server: string)
    requires servers != []
    ensures forall k :: k != |servers| - 1 ==>
              (MarkedAt(servers, before, server, k) <==> MarkedAt(servers[..|servers| - 1], before, server, k))
  {
    var front := servers[..|servers| - 1];
    assert forall k :: 0 <= k < |front| ==> front[k] == servers[k];
  }

  lemma MarkedByLast(servers: seq<Server>, before: seq<Entry>, server: string)
    requires servers != []
    ensures var front, last := servers[..|servers| - 1], servers[|servers| - 1];
            MarkedAt(servers, before, server, |servers| - 1) <==>
              && MarksDown(last, server, before) && !RowFails(last)
              && !exists srv :: srv in front && RowFails(srv)
  {
    var front := servers[..|servers| - 1];
    assert forall k :: 0 <= k < |front| ==> front[k] == servers[k];
    if srv :| srv in front && RowFails(srv) {
      var j :| 0 <= j < |front| && front[j] == srv;
    }
    assert forall j :: 0 <= j < |front| ==> front[j] in front;
  }

  // ----- the schema of a listed id -----

  lemma {:induction false} SchemaIsLatest(entries: seq<Entry>, k: nat)
    requires k < |entries| && forall j :: k < j < |entries| ==> entries[j].id != entries[k].id
    ensures entries[k].id in SchemaOf(entries) && SchemaOf(entries)[entries[k].id] == entries[k].schema
  {
    if k < |entries| - 1 {
      var front := entries[..|entries| - 1];
      assert forall j :: 0 <= j < |front| ==> front[j] == entries[j];
      SchemaIsLatest(front, k);
    }
  }

  /**
    The schema behind an id that a first refresh found is the one of a command of some listed
    row: its name, description and parameters, and the id is that name on that row's server.
  */
  lemma {:induction false} SchemaDescribesCommand(listing: Listing, id: string)
    ensures var found := Available(Refreshed(listing, []));
            id in SchemaOf(found) ==>
              exists srv, server, cmd ::
                && listing.Servers? && srv in listing.servers && Contributes(srv, server)
                && CommandsOf(srv.commands).Some? && cmd in CommandsOf(srv.commands).value
                && DescribedBy(SchemaOf(found)[id], cmd) && id == SchemaOf(found)[id].name + "." + server
  {
    var found := Available(Refreshed(listing, []));
    if id in SchemaOf(found) {
      var e: Entry :| e in found && e == Entry(id, SchemaOf(found)[id], e.available);
      assert [listing][..0] == [] && Run([listing], []) == Refreshed(listing, []);
      AvailableIsFresh([listing], e);
      var srv, server :| srv in listing.servers && FromRow(srv, server, e);
      var cmd :| cmd in CommandsOf(srv.commands).value && ParseCommand(cmd, server) == Parsed(e.id, e.schema);
      ParseIff(cmd, server, e.id, e.schema);
    }
  }
}
