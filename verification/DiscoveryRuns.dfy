/** What the discovery cache keeps over any run of refreshes. */
module DiscoveryRuns {
  import opened Text
  import opened CommandIds
  import opened ToolList
  import opened Discovery
  import opened DiscoveryBlocks

  /** A refresh that replaces the cache. */
  predicate Effective(listing: Listing) {
    listing.Servers? && listing.servers != [] && Rebuilt(listing.servers, []).Some?
  }

  function Run(listings: seq<Listing>, cache: seq<Entry>): seq<Entry> {
    if listings == [] then cache
    else Refreshed(listings[|listings| - 1], Run(listings[..|listings| - 1], cache))
  }

  /** Once a server has an entry, it keeps one as long as every effective refresh lists it. */
  lemma {:induction false} EntriesPersist(listings: seq<Listing>, cache: seq<Entry>, server: string)
    requires Holds(cache, server)
    requires forall l :: l in listings && Effective(l) ==> Lists(l.servers, server)
    ensures Holds(Run(listings, cache), server)
  {
    if listings != [] {
      var front, last := listings[..|listings| - 1], listings[|listings| - 1];
      EntriesPersist(front, cache, server);
      if Effective(last) {
        AbandonedAnyway(last.servers, [], Run(front, cache));
        ListedServerKeepsEntries(last.servers, Run(front, cache), server);
      } else {
        IneffectiveKeepsCache(last, Run(front, cache));
      }
    }
  }

  /** `e` was parsed from a command of `listing`. */
  ghost predicate ParsedFrom(listing: Listing, e: Entry) {
    listing.Servers? && exists srv, server :: srv in listing.servers && FromRow(srv, server, e)
  }

  ghost predicate LatestEffective(listings: seq<Listing>, k: int) {
    && 0 <= k < |listings| && Effective(listings[k])
    && forall j :: k < j < |listings| ==> !Effective(listings[j])
  }

  lemma IneffectiveKeepsCache(listing: Listing, cache: seq<Entry>)
    requires !Effective(listing)
    ensures Refreshed(listing, cache) == cache
  {
    if listing.Servers? {
      AbandonedAnyway(listing.servers, [], cache);
    }
  }

  lemma RefreshedIsFresh(listing: Listing, cache: seq<Entry>, e: Entry)
    requires Effective(listing) && e in Refreshed(listing, cache) && e.available
    ensures ParsedFrom(listing, e)
  {
    AbandonedAnyway(listing.servers, [], cache);
    RebuiltMembers(listing.servers, cache, e);
    var srv :| srv in listing.servers && InBlock(srv, cache, e);
    RowEntryOrigin(srv, cache, e);
  }

  /** Starting from an empty cache, what is available was parsed in the latest effective refresh. */
  lemma {:induction false} AvailableIsFresh(listings: seq<Listing>, e: Entry)
    requires e in Run(listings, []) && e.available
    ensures exists k :: LatestEffective(listings, k) && ParsedFrom(listings[k], e)
  {
    var n := |listings| - 1;
    var front, last := listings[..n], listings[n];
    if Effective(last) {
      RefreshedIsFresh(last, Run(front, []), e);
      assert LatestEffective(listings, n);
    } else {
      IneffectiveKeepsCache(last, Run(front, []));
      AvailableIsFresh(front, e);
      var k :| LatestEffective(front, k) && ParsedFrom(front[k], e);
      LatestEffectiveExtends(listings, k);
    }
  }

  lemma {:induction false} LatestEffectiveExtends(listings: seq<Listing>, k: int)
    requires listings != [] && !Effective(listings[|listings| - 1])
    requires LatestEffective(listings[..|listings| - 1], k)
    ensures LatestEffective(listings, k)
  {
    var front := listings[..|listings| - 1];
    assert forall j :: 0 <= j < |front| ==> front[j] == listings[j];
  }

  /** An id built from a stripped, non-empty command name and a server of the listings. */
  ghost predicate WellFormedEntry(listings: seq<Listing>, e: Entry) {
    exists name, server ::
      && e.id == MakeId(name, server)
      && name != "" && Stripped(name) && e.schema.name == name
      && exists l :: l in listings && l.Servers? && Lists(l.servers, server)
  }

  lemma FromRowIsWellFormed(listings: seq<Listing>, l: Listing, srv: Server, server: string, e: Entry)
    requires l in listings && l.Servers? && srv in l.servers && FromRow(srv, server, e)
    ensures WellFormedEntry(listings, e)
  {
    var cmd :| cmd in CommandsOf(srv.commands).value && ParseCommand(cmd, server) == Parsed(e.id, e.schema);
    assert Lists(l.servers, server);
    var name :| e.id == MakeId(name, server) && name != "" && Stripped(name) && e.schema.name == name;
  }

  /** Every cached entry, stale ones included, came from some listing of the run. */
  lemma {:induction false} CacheIsWellFormed(listings: seq<Listing>, e: Entry)
    requires e in Run(listings, [])
    ensures WellFormedEntry(listings, e)
    decreases listings
  {
    var front, last := listings[..|listings| - 1], listings[|listings| - 1];
    var before := Run(front, []);
    assert listings == front + [last];
    if e in before {
      CacheIsWellFormed(front, e);
    } else {
      RebuiltMembers(last.servers, before, e);
      var srv :| srv in last.servers && InBlock(srv, before, e);
      RowEntryOrigin(srv, before, e);
      if FromRow(srv, BlockOf(srv, before).server, e) {
        FromRowIsWellFormed(listings, last, srv, BlockOf(srv, before).server, e);
      } else {
        var o :| o in before && e == Unavailable(o);
        CacheIsWellFormed(front, o);
      }
    }
  }

  /** With dot-free server ids every cached id splits into its command and its own server. */
  lemma CachedIdsSplitCleanly(listings: seq<Listing>, e: Entry)
    requires e in Run(listings, [])
    requires forall l :: l in listings && l.Servers? ==> DotFree(l.servers)
    ensures CleanName(e.id) && NameOf(e.id) == e.schema.name
    ensures exists l :: l in listings && l.Servers? && Lists(l.servers, ServerOf(e.id))
  {
    CacheIsWellFormed(listings, e);
    var name, server :|
      && e.id == MakeId(name, server)
      && name != "" && Stripped(name) && e.schema.name == name
      && exists l :: l in listings && l.Servers? && Lists(l.servers, server);
    var l :| l in listings && l.Servers? && Lists(l.servers, server);
    ParseAfterMake(name, server);
  }
}
