/** Runs of the add and remove commands over the session stores. */
module CommandRuns {
  import opened Values
  import opened Text
  import opened Sessions
  import opened SessionStores
  import opened StoreLaws
  import opened SessionCommands

  function RunCommands(st: StoreState, commands: seq<Command>): (StoreState, seq<CommandResult>) {
    if commands == [] then (st, []) else
    var (st', results) := RunCommands(st, commands[..|commands| - 1]);
    var (st'', r) := CommandStep(st', commands[|commands| - 1]);
    (st'', results + [r])
  }

  /** The Redis store holds exactly the sessions of the memory store, up to empty texts. */
  ghost predicate Alike(st: StoreState, st': StoreState) {
    && st.MemoryState? && st'.RedisState? && Lossless(st'.codec)
    && Mirrors(st'.codec, st'.prefix, st.sessions, st'.db)
  }

  lemma AcceptedStep(st: StoreState, command: Command)
    requires command.Refusal().None?
    ensures var target := command.Target();
            && target != "" && Strip(target) == target
            && match st.Get(target)
               case Found(Some(s)) => CommandStep(st, command) == (st.With(target, Apply(s, command.Change())), Done)
               case _ => CommandStep(st, command) == (st, Failed(NOT_FOUND))
  {
    StripFixed(command.sessionId);
  }

  lemma ChangeMirrors(st: StoreState, st': StoreState, target: string, change: Change)
    requires Alike(st, st') && Strip(target) == target
    ensures match st.Get(target)
            case Found(Some(s)) =>
              && st'.Get(target) == Found(Some(Presented(s)))
              && Alike(st.With(target, Apply(s, change)), st'.With(target, Apply(Presented(s), change)))
            case _ => st'.Get(target) == Found(None)
  {
    var m := st.sessions;
    assert MirrorsAt(st'.codec, st'.prefix, m, st'.db, target);
    assert Keyed(m, target);
    if target in m {
      WriteMirrors(st'.codec, st'.prefix, m, st'.db, Apply(m[target], change), Apply(Presented(m[target]), change));
    }
  }

  lemma CommandStepAgrees(st: StoreState, st': StoreState, command: Command)
    requires Alike(st, st')
    ensures CommandStep(st, command).1 == CommandStep(st', command).1
    ensures Alike(CommandStep(st, command).0, CommandStep(st', command).0)
  {
    if command.Refusal().None? {
      AcceptedStep(st, command);
      AcceptedStep(st', command);
      ChangeMirrors(st, st', command.Target(), command.Change());
    }
  }

  /** Mirrored stores answer any run of the two commands alike and stay mirrored. */
  lemma {:induction false} CommandsAgreeOverStores(st: StoreState, st': StoreState, commands: seq<Command>)
    requires Alike(st, st')
    ensures RunCommands(st, commands).1 == RunCommands(st', commands).1
    ensures Alike(RunCommands(st, commands).0, RunCommands(st', commands).0)
  {
    if commands != [] {
      var front := commands[..|commands| - 1];
      CommandsAgreeOverStores(st, st', front);
      CommandStepAgrees(RunCommands(st, front).0, RunCommands(st', front).0, commands[|commands| - 1]);
    }
  }

  /** The change that the command makes to session `sid`, if it is accepted. */
  function ChangeOf(command: Command, sid: string): seq<Change> {
    if command.Refusal().None? && command.Target() == sid then [command.Change()] else []
  }

  /** The changes that the accepted commands make to session `sid`, in order. */
  function ChangesTo(commands: seq<Command>, sid: string): seq<Change> {
    if commands == [] then [] else
    var last := commands[|commands| - 1];
    ChangesTo(commands[..|commands| - 1], sid) + ChangeOf(last, sid)
  }

  ghost predicate Reliable(st: StoreState) {
    st.RedisState? ==> Lossless(st.codec)
  }

  lemma WriteIsRead(st: StoreState, sid: string, s: Session, id: string)
    requires Reliable(st) && sid != "" && Strip(sid) == sid && Strip(id) == id
    requires st.RedisState? ==> s.id == sid && Presented(s) == s
    ensures st.With(sid, s).Get(id) == if id == sid then Found(Some(s)) else st.Get(id)
  {
    if st.RedisState? {
      GetAfterWrite(st.codec, st.prefix, st.db, s, id);
    }
  }

  lemma ReadIsPresented(st: StoreState, sid: string)
    requires st.RedisState? && st.Get(sid).Found? && st.Get(sid).session.Some?
    ensures var s := st.Get(sid).session.value;
            s.id == Strip(sid) && Presented(s) == s
  {
  }

  /** The answer with the changes applied to its session, if it has one. */
  function Changed(a: Answer, changes: seq<Change>): Answer {
    if a.Found? && a.session.Some? then Found(Some(ApplyAll(a.session.value, changes))) else a
  }

  lemma ApplyKeeps(s: Session, change: Change)
    ensures Apply(s, change).id == s.id
    ensures Presented(s) == s ==> Presented(Apply(s, change)) == Apply(s, change)
    ensures ApplyAll(s, [change]) == Apply(s, change)
  {
    assert [change][..0] == [];
  }

  lemma ChangeIsRead(st: StoreState, target: string, s: Session, change: Change, sid: string)
    requires Reliable(st) && target != "" && Strip(target) == target && Strip(sid) == sid
    requires st.Get(target) == Found(Some(s))
    ensures st.With(target, Apply(s, change)).Get(sid)
            == if sid == target then Found(Some(ApplyAll(s, [change]))) else st.Get(sid)
  {
    if st.RedisState? {
      ReadIsPresented(st, target);
    }
    ApplyKeeps(s, change);
    WriteIsRead(st, target, Apply(s, change), sid);
  }

  lemma CommandStepReads(st: StoreState, command: Command, sid: string)
    requires Reliable(st) && Strip(sid) == sid
    ensures Reliable(CommandStep(st, command).0)
    ensures CommandStep(st, command).0.Get(sid) == Changed(st.Get(sid), ChangeOf(command, sid))
  {
    if command.Refusal().None? {
      var target := command.Target();
      AcceptedStep(st, command);
      match st.Get(target)
      case Found(Some(s)) => ChangeIsRead(st, target, s, command.Change(), sid);
      case _ =>
    }
  }

  lemma AppliedInTwoParts(s: Session, changes: seq<Change>, more: seq<Change>)
    requires |more| <= 1
    ensures ApplyAll(s, changes + more) == ApplyAll(ApplyAll(s, changes), more)
  {
    if more == [] {
      assert changes + more == changes;
    } else {
      assert (changes + more)[..|changes|] == changes && more[..0] == [];
      assert ApplyAll(ApplyAll(s, changes), more) == Apply(ApplyAll(s, changes), more[0]);
    }
  }

  lemma ChangedTwice(a: Answer, changes: seq<Change>, more: seq<Change>)
    requires |more| <= 1
    ensures Changed(a, changes + more) == Changed(Changed(a, changes), more)
  {
    if a.Found? && a.session.Some? {
      AppliedInTwoParts(a.session.value, changes, more);
    }
  }

  /**
    In either store, after any run of commands on any sessions, a session reads back as its
    accepted changes applied in order, and an unknown one stays unknown.
  */
  lemma {:induction false} SessionAfterCommands(st: StoreState, commands: seq<Command>, sid: string)
    requires Reliable(st) && Strip(sid) == sid
    ensures Reliable(RunCommands(st, commands).0)
    ensures RunCommands(st, commands).0.Get(sid) == Changed(st.Get(sid), ChangesTo(commands, sid))
  {
    if commands != [] {
      var front := commands[..|commands| - 1];
      SessionAfterCommands(st, front, sid);
      CommandStepReads(RunCommands(st, front).0, commands[|commands| - 1], sid);
      ChangedTwice(st.Get(sid), ChangesTo(front, sid), ChangeOf(commands[|commands| - 1], sid));
    }
  }

  // ----- what is accepted -----

  /** The store has a session under the id. */
  predicate Known(st: StoreState, sid: string) {
    st.Get(sid).Found? && st.Get(sid).session.Some?
  }

  /**
    An addition is accepted exactly when both ids are non-blank, the config at hand does not forbid
    the command and the session exists; each refusal has its own text and changes nothing.
  */
  lemma {:induction false} AdditionAcceptedIff(st: StoreState, sessionId: string, commandId: string,
                                               config: Option<seq<string>>)
    ensures var sid, id := Strip(sessionId), Strip(commandId);
            var (st', r) := CommandStep(st, AddTo(sessionId, commandId, config));
            && (r == Done <==>
                  sid != "" && id != "" && (config.Some? ==> id !in config.value) && Known(st, sid))
            && (r == Failed("session_id and command_id are required") <==> sid == "" || id == "")
            && (r == Failed("command " + id + " is forbidden by config and cannot be added to session") <==>
                  sid != "" && id != "" && config.Some? && id in config.value)
            && (r == Failed("Session not found") <==>
                  sid != "" && id != "" && (config.Some? ==> id !in config.value) && !Known(st, sid))
            && (r != Done ==> st' == st)
  {
    TextsDiffer(Strip(commandId));
  }

  lemma TextsDiffer(id: string)
    ensures ForbiddenByConfig(id) != REQUIRED && ForbiddenByConfig(id) != NOT_FOUND && REQUIRED != NOT_FOUND
  {
    assert ForbiddenByConfig(id)[0] == 'c' && REQUIRED[0] == 's' && NOT_FOUND[0] == 'S';
  }

  /** A removal needs non-blank ids and an existing session; the config has no say. */
  lemma {:induction false} RemovalAcceptedIff(st: StoreState, sessionId: string, commandId: string)
    ensures var (st', r) := CommandStep(st, RemoveFrom(sessionId, commandId));
            && (r == Done <==> Strip(sessionId) != "" && Strip(commandId) != "" && Known(st, Strip(sessionId)))
            && (r != Done ==> st' == st)
  {
    TextsDiffer(Strip(commandId));
  }

  /** The config at hand forbids the id whenever one of the commands would add it. */
  predicate AlwaysForbidden(commands: seq<Command>, id: string) {
    forall c :: c in commands && c.AddTo? && Strip(c.commandId) == id ==>
      c.configForbidden.Some? && id in c.configForbidden.value
  }

  lemma {:induction false} NeverAdded(commands: seq<Command>, sid: string, id: string)
    requires AlwaysForbidden(commands, id)
    ensures LastChange(ChangesTo(commands, sid), id) != Some(Add(id))
  {
    if commands != [] {
      var front, last := commands[..|commands| - 1], commands[|commands| - 1];
      assert commands == front + [last];
      NeverAdded(front, sid, id);
      var changes := ChangesTo(commands, sid);
      if ChangeOf(last, sid) != [] {
        assert changes[..|changes| - 1] == ChangesTo(front, sid);
        assert last in commands;
      } else {
        assert changes == ChangesTo(front, sid);
      }
    }
  }

  /**
    What the config forbids at every addition, and a session did not allow, it never allows, in
    either store and after any run of commands on any sessions.
  */
  lemma {:induction false} ForbiddenIsNeverAllowed(st: StoreState, commands: seq<Command>, sid: string, id: string)
    requires Reliable(st) && Strip(sid) == sid && AlwaysForbidden(commands, id)
    ensures var before, after := st.Get(sid), RunCommands(st, commands).0.Get(sid);
            before.Found? && before.session.Some? && id !in before.session.value.allowed ==>
              after.Found? && after.session.Some? && id !in after.session.value.allowed
  {
    SessionAfterCommands(st, commands, sid);
    NeverAdded(commands, sid, id);
    if st.Get(sid).Found? && st.Get(sid).session.Some? {
      LastChangeDecides(st.Get(sid).session.value, ChangesTo(commands, sid), id);
      LastChangeNames(ChangesTo(commands, sid), id);
    }
  }

  lemma {:induction false} LastChangeNames(changes: seq<Change>, id: string)
    ensures LastChange(changes, id).Some? ==> LastChange(changes, id).value.id == id
  {
    if changes != [] {
      LastChangeNames(changes[..|changes| - 1], id);
    }
  }
}
