/** add_command_to_session and remove_command_from_session. */
module SessionCommands {
  import opened Values
  import opened Text
  import opened Sessions
  import opened SessionStores
  import opened ToolList
  import Sorting

  function Added(s: Session, id: string): Session {
    s.(allowed := if id in s.allowed then s.allowed else s.allowed + [id],
       forbidden := Filter(c => c != id, s.forbidden))
  }

  function Removed(s: Session, id: string): Session {
    s.(allowed := Filter(c => c != id, s.allowed), forbidden := s.forbidden + [id])
  }

  datatype CommandResult = Done | Failed(message: string)

  const REQUIRED := "session_id and command_id are required"
  const NOT_FOUND := "Session not found"

  function ForbiddenByConfig(id: string): string {
    "command " + id + " is forbidden by config and cannot be added to session"
  }

  function ListsAttrs(allowed: seq<string>, forbidden: seq<string>): Attrs {
    Attrs(Absent, Absent, Given(allowed), Given(forbidden), Absent, Absent, Absent, Absent)
  }

  datatype Change = Add(id: string) | Remove(id: string)

  function Apply(s: Session, c: Change): Session {
    if c.Add? then Added(s, c.id) else Removed(s, c.id)
  }

  /** `configForbidden` is None when there is no config, it does not load or it has no policy. */
  datatype Command = AddTo(sessionId: string, commandId: string, configForbidden: Option<seq<string>>)
                   | RemoveFrom(sessionId: string, commandId: string) {
    function Target(): string {
      Strip(sessionId)
    }

    function Change(): Change {
      if AddTo? then Add(Strip(commandId)) else Remove(Strip(commandId))
    }

    /** Why the command is refused before it looks up the session. */
    function Refusal(): Option<string> {
      if Target() == "" || Strip(commandId) == "" then Some(REQUIRED)
      else if AddTo? && configForbidden.Some? && Strip(commandId) in configForbidden.value then
        Some(ForbiddenByConfig(Strip(commandId)))
      else None
    }
  }

  /** Refused commands and unknown sessions change nothing; otherwise the session is changed in place. */
  function CommandStep(st: StoreState, c: Command): (StoreState, CommandResult) {
    if c.Refusal().Some? then (st, Failed(c.Refusal().value)) else
    match st.Get(c.Target())
    case Found(Some(s)) => (st.With(c.Target(), Apply(s, c.Change())), Done)
    case _ => (st, Failed(NOT_FOUND))
  }

  lemma ReadOfGivenId(st: StoreState, id: string)
    ensures Strip(Strip(id)) == Strip(id) && Strip(Strip(Strip(id))) == Strip(id)
    ensures Strip(id) != "" ==> st.Get(Strip(id)).Found?
  {
    StripFixed(id);
    StripFixed(Strip(id));
  }

  /** Updating both lists of a session writes just that change. */
  lemma ListsUpdate(st: StoreState, sid: string, c: Change)
    requires Strip(sid) == sid && st.Get(sid).Found? && st.Get(sid).session.Some?
    ensures var s := Apply(st.Get(sid).session.value, c);
            st.Update(sid, ListsAttrs(s.allowed, s.forbidden)) == (st.With(sid, s), Found(Some(s)))
  {
  }

  method AddCommand(store: SessionStore, sessionId: string, commandId: string, configForbidden: Option<seq<string>>)
    returns (r: CommandResult)
    modifies store.Objects()
    ensures (store.State(), r) == CommandStep(old(store.State()), AddTo(sessionId, commandId, configForbidden))
  {
    var sid, id := Strip(sessionId), Strip(commandId);
    if sid == "" || id == "" {
      return Failed(REQUIRED);
    }
    if configForbidden.Some? && id in configForbidden.value {
      return Failed(ForbiddenByConfig(id));
    }
    ReadOfGivenId(store.State(), sessionId);
    var session := store.Get(sid);
    if session == Found(None) {
      return Failed(NOT_FOUND);
    }
    var s := session.session.value;
    var allowed := s.allowed;
    if id !in allowed {
      allowed := allowed + [id];
    }
    var forbidden := Filter(c => c != id, s.forbidden);
    ListsUpdate(store.State(), sid, Add(id));
    var updated := store.Update(sid, ListsAttrs(allowed, forbidden));
    r := Done;
  }

  method RemoveCommand(store: SessionStore, sessionId: string, commandId: string) returns (r: CommandResult)
    modifies store.Objects()
    ensures (store.State(), r) == CommandStep(old(store.State()), RemoveFrom(sessionId, commandId))
  {
    var sid, id := Strip(sessionId), Strip(commandId);
    if sid == "" || id == "" {
      return Failed(REQUIRED);
    }
    ReadOfGivenId(store.State(), sessionId);
    var session := store.Get(sid);
    if session == Found(None) {
      return Failed(NOT_FOUND);
    }
    var s := session.session.value;
    var allowed := Filter(c => c != id, s.allowed);
    var forbidden := s.forbidden + [id];
    ListsUpdate(store.State(), sid, Remove(id));
    var updated := store.Update(sid, ListsAttrs(allowed, forbidden));
    r := Done;
  }

  // ----- runs of the two commands -----

  function ApplyAll(s: Session, changes: seq<Change>): Session {
    if changes == [] then s
    else Apply(ApplyAll(s, changes[..|changes| - 1]), changes[|changes| - 1])
  }

  /** The last change of `id` in the run. */
  function LastChange(changes: seq<Change>, id: string): Option<Change> {
    if changes == [] then None
    else if changes[|changes| - 1].id == id then Some(changes[|changes| - 1])
    else LastChange(changes[..|changes| - 1], id)
  }

  predicate DisjointLists(s: Session) {
    forall c :: c in s.allowed ==> c !in s.forbidden
  }

  /** The last command on an id decides which list has it; ids not named stay where they were. */
  lemma {:induction false} LastChangeDecides(s: Session, changes: seq<Change>, id: string)
    ensures var t := ApplyAll(s, changes);
            match LastChange(changes, id)
            case None => (id in t.allowed <==> id in s.allowed) && (id in t.forbidden <==> id in s.forbidden)
            case Some(Add(_)) => id in t.allowed && id !in t.forbidden
            case Some(Remove(_)) => id !in t.allowed && id in t.forbidden
  {
    if changes != [] {
      LastChangeDecides(s, changes[..|changes| - 1], id);
    }
  }

  /** Disjoint lists stay disjoint, and the other session fields never change. */
  lemma {:induction false} ListsStayDisjoint(s: Session, changes: seq<Change>)
    requires DisjointLists(s)
    ensures DisjointLists(ApplyAll(s, changes))
    ensures ApplyAll(s, changes).(allowed := s.allowed, forbidden := s.forbidden) == s
  {
    if changes != [] {
      ListsStayDisjoint(s, changes[..|changes| - 1]);
    }
  }

  /** Occurrences of the id among the forbidden ones, `before` at first: removals since its last addition. */
  function Removals(changes: seq<Change>, id: string, before: nat): nat {
    if changes == [] then before else
    var front, last := changes[..|changes| - 1], changes[|changes| - 1];
    if last == Add(id) then 0
    else Removals(front, id, before) + (if last == Remove(id) then 1 else 0)
  }

  /**
    The allow-list never lists an id twice unless it did so before, and keeps its order; the
    forbidden list grows by one entry with each removal of an id, however often it is there.
  */
  lemma {:induction false} ListsAfterChanges(s: Session, changes: seq<Change>, id: string)
    ensures var t := ApplyAll(s, changes);
            && (Sorting.Distinct(s.allowed) ==> Sorting.Distinct(t.allowed))
            && multiset(t.forbidden)[id] == Removals(changes, id, multiset(s.forbidden)[id])
  {
    if changes != [] {
      var front, last := changes[..|changes| - 1], changes[|changes| - 1];
      ListsAfterChanges(s, front, id);
      ListsAfterOne(ApplyAll(s, front), last, id);
    }
  }

  lemma ListsAfterOne(s: Session, c: Change, id: string)
    ensures var t := Apply(s, c);
            && (Sorting.Distinct(s.allowed) ==> Sorting.Distinct(t.allowed))
            && multiset(t.forbidden)[id] == Removals([c], id, multiset(s.forbidden)[id])
            && (c.Add? && c.id !in s.allowed ==> t.allowed == s.allowed + [c.id])
            && (c.Add? && c.id in s.allowed ==> t.allowed == s.allowed)
            && (c.Remove? ==> t.forbidden == s.forbidden + [c.id])
  {
    ForbiddenAfterOne(s, c, id);
    if Sorting.Distinct(s.allowed) {
      Sorting.FilterDistinct(x => x != c.id, s.allowed);
    }
  }

  lemma ForbiddenAfterOne(s: Session, c: Change, id: string)
    ensures multiset(Apply(s, c).forbidden)[id] == Removals([c], id, multiset(s.forbidden)[id])
  {
    assert [c][..0] == [];
    if c.Add? {
      FilterCounts(x => x != c.id, s.forbidden, id);
    }
  }

  lemma {:induction false} FilterCounts(p: string -> bool, xs: seq<string>, x: string)
    ensures multiset(Filter(p, xs))[x] == if p(x) then multiset(xs)[x] else 0
  {
    if xs != [] {
      FilterCounts(p, xs[1..], x);
      assert xs == [xs[0]] + xs[1..];
    }
  }

  // ----- what one command does to what the session permits -----

  /** Adding permits the id; with an empty allow-list it also revokes every other id. */
  lemma WhatAddPermits(s: Session, id: string, other: string)
    ensures SessionPermits(Added(s, id), other) <==>
            other == id || (SessionPermits(s, other) && s.allowed != [])
  {
  }

  predicate OnlyAllows(s: Session, id: string) {
    s.allowed != [] && forall c :: c in s.allowed ==> c == id
  }

  /** Removing revokes the id; when it was the only allowed one, everything not forbidden is let in. */
  lemma WhatRemovePermits(s: Session, id: string, other: string)
    ensures SessionPermits(Removed(s, id), other) <==>
            other != id && (if OnlyAllows(s, id) then other !in s.forbidden else SessionPermits(s, other))
  {
    if OnlyAllows(s, id) {
      FilterNone(c => c != id, s.allowed);
    } else if s.allowed != [] {
      var c :| c in s.allowed && c != id;
      assert c in Removed(s, id).allowed;
    }
  }

  /** So remove drops just that id exactly when it does not empty a non-empty allow-list. */
  lemma RemoveDropsOnlyThatIdIff(s: Session, id: string)
    ensures (forall other :: SessionPermits(Removed(s, id), other) <==> SessionPermits(s, other) && other != id)
            <==> !OnlyAllows(s, id)
  {
    if OnlyAllows(s, id) {
      var other := FreshString(s.allowed + s.forbidden + [id]);
      WhatRemovePermits(s, id, other);
    } else {
      forall other ensures SessionPermits(Removed(s, id), other) <==> SessionPermits(s, other) && other != id {
        WhatRemovePermits(s, id, other);
      }
    }
  }

  /** And add extends what is permitted exactly when the session already had an allow-list. */
  lemma AddKeepsTheRestIff(s: Session, id: string)
    ensures (forall other :: SessionPermits(Added(s, id), other) <==> SessionPermits(s, other) || other == id)
            <==> s.allowed != []
  {
    if s.allowed == [] {
      var other := FreshString(s.forbidden + [id]);
      WhatAddPermits(s, id, other);
    } else {
      forall other ensures SessionPermits(Added(s, id), other) <==> SessionPermits(s, other) || other == id {
        WhatAddPermits(s, id, other);
      }
    }
  }

  /**
    The same at the level of the tool list, config filter and vectorization included: what a
    removal leaves within the model's reach.
  */
  lemma ReachableAfterRemove(s: Session, cfg: PolicyConfig, discovered: seq<Entry>, id: string, other: string)
    ensures Reachable(Removed(s, id), cfg, discovered, other) <==>
            && other != id && other !in s.forbidden && Discovered(discovered, other)
            && (other in VECTORIZATION_IDS || (cfg.Permits(other) && (OnlyAllows(s, id) || SessionPermits(s, other))))
  {
    WhatRemovePermits(s, id, other);
  }

  /** And what an addition leaves within reach: the config filter still applies to the added id. */
  lemma ReachableAfterAdd(s: Session, cfg: PolicyConfig, discovered: seq<Entry>, id: string, other: string)
    ensures Reachable(Added(s, id), cfg, discovered, other) <==>
            && (other == id || other !in s.forbidden) && Discovered(discovered, other)
            && (other in VECTORIZATION_IDS
                || (cfg.Permits(other) && (other == id || (s.allowed != [] && SessionPermits(s, other)))))
  {
    WhatAddPermits(s, id, other);
  }
}
