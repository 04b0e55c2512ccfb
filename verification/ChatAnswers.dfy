/**
  What a run tells the model: every entry of a history is what the provider answered to the
  history before it, and every tool message is what the answer to its own call amounts to.
*/
module ChatAnswers {
  import opened Values
  import opened Text
  import opened ToolList
  import opened ChatFlow
  import opened ChatRuns

  // ----- one tool call -----

  /** An argument that Python's `or` does not skip. */
  function Truthy(args: Args, key: string): Option<Field> {
    if key in args && args[key] != Falsy && args[key] != Word("") then Some(args[key]) else None
  }

  ghost predicate GivenArgs(tc: ToolCall, args: Args) {
    match tc
    case ToolCall(_, ObjectArgs(given)) => args == given
    case ToolCall(_, TextOfObject(given)) => args == given
    case _ => args == map[]
  }

  /** Nothing is asked of the proxy. */
  predicate NoCall(before: seq<ProxyCall>, after: seq<ProxyCall>) {
    after == before
  }

  /** A session tool's call, and its result, or the error, as the representation formats it. */
  ghost predicate SessionTold(w: World, mapping: map<string, Target>, name: string, args: Args, content: string,
                              before: seq<ProxyCall>, after: seq<ProxyCall>)
  {
    if Strip(name) !in mapping then NoCall(before, after) && content == w.format(Error("Unknown tool: " + name))
    else
      var call := CallServer(mapping[Strip(name)].1, mapping[Strip(name)].0, args - {"copy_number"});
      && after == before + [call]
      && match w.proxy(|before|, call)
         case Output(text) => content == w.format(Result(text))
         case KeyError(_) => content == w.format(Error("Unknown tool: " + name))
         case ClientError(message, status) => content == w.format(ErrorStatus(message, status))
         case OtherError(text) => content == w.format(Error(text))
  }

  /** Help on the command named by `command_name`, or else by `cmdname`, or the general reference. */
  ghost predicate HelpTold(w: World, mapping: map<string, Target>, args: Args, content: string,
                           before: seq<ProxyCall>, after: seq<ProxyCall>)
  {
    var topic := if Truthy(args, "command_name").Some? then Truthy(args, "command_name") else Truthy(args, "cmdname");
    match topic
    case None => NoCall(before, after) && content == w.format(HelpReference)
    case Some(Odd(error)) => NoCall(before, after) && content == w.format(Error(error))
    case Some(Falsy) => false
    case Some(Word(text)) =>
      if Strip(text) == "" then NoCall(before, after) && content == w.format(HelpReference)
      else if Strip(text) !in mapping then
        NoCall(before, after) && content == w.format(Error("Unknown command: " + Strip(text)))
      else
        var call := Help(mapping[Strip(text)].1, Word(mapping[Strip(text)].0));
        && after == before + [call]
        && match w.proxy(|before|, call)
           case Output(text) => content == w.format(Result(text))
           case KeyError(text) => content == w.format(Error(text))
           case ClientError(message, _) => content == w.format(Error(message))
           case OtherError(text) => content == w.format(Error(text))
  }

  /** A direct call, its result as the representation formats it, its errors as plain JSON. */
  ghost predicate Direct(w: World, call: ProxyCall, content: string, before: seq<ProxyCall>, after: seq<ProxyCall>) {
    && after == before + [call]
    && match w.proxy(|before|, call)
       case Output(text) => content == w.format(Result(text))
       case ClientError(message, status) => content == w.dumps(ErrorStatus(message, status))
       case KeyError(text) => content == w.dumps(Error(text))
       case OtherError(text) => content == w.dumps(Error(text))
  }

  ghost predicate Refused(w: World, error: string, content: string, before: seq<ProxyCall>, after: seq<ProxyCall>) {
    NoCall(before, after) && content == w.dumps(Error(error))
  }

  /** A missing argument passes for a blank one. */
  predicate Blank(f: Option<Field>) {
    f.None? || (f.value.Word? && Strip(f.value.text) == "")
  }

  predicate IsOdd(f: Option<Field>) {
    f.Some? && f.value.Odd?
  }

  /** An argument passed on as it is. */
  predicate PassedOn(args: Args, key: string, f: Field) {
    f == if key in args then args[key] else Falsy
  }

  ghost predicate CallServerTold(w: World, args: Args, content: string, before: seq<ProxyCall>, after: seq<ProxyCall>) {
    var server, command := Truthy(args, "server_id"), Truthy(args, "command");
    if IsOdd(server) then Refused(w, server.value.error, content, before, after)
    else if IsOdd(command) then Refused(w, command.value.error, content, before, after)
    else if Blank(server) then
      Refused(w, "call_server requires server_id (from list_servers).", content, before, after)
    else if Blank(command) then Refused(w, "call_server requires command name.", content, before, after)
    else
      server.value.Word? && command.value.Word? &&
      exists params :: PassedOn(args, "params", params) &&
        Direct(w, DirectCall(Strip(server.value.text), Strip(command.value.text), params), content, before, after)
  }

  ghost predicate DirectHelpTold(w: World, args: Args, content: string, before: seq<ProxyCall>, after: seq<ProxyCall>) {
    var server := Truthy(args, "server_id");
    if IsOdd(server) then Refused(w, server.value.error, content, before, after)
    else if Blank(server) then
      Refused(w, "help requires server_id (from list_servers). Call list_servers first to get server_id values.",
              content, before, after)
    else
      server.value.Word? &&
      exists topic :: PassedOn(args, "command", topic) &&
        Direct(w, Help(Strip(server.value.text), topic), content, before, after)
  }

  ghost predicate ListServersTold(w: World, args: Args, content: string, before: seq<ProxyCall>,
                                  after: seq<ProxyCall>)
  {
    exists page, size, enabled ::
      && PassedOn(args, "page", page) && PassedOn(args, "page_size", size)
      && PassedOn(args, "filter_enabled", enabled)
      && Direct(w, ListServers(page, size, enabled), content, before, after)
  }

  /** The flow without a registry. */
  ghost predicate DirectTold(w: World, name: string, args: Args, content: string, before: seq<ProxyCall>,
                             after: seq<ProxyCall>)
  {
    if name == "list_servers" then ListServersTold(w, args, content, before, after)
    else if name == "call_server" then CallServerTold(w, args, content, before, after)
    else if name == "help" then DirectHelpTold(w, args, content, before, after)
    else Refused(w, "Unknown tool: " + name, content, before, after)
  }

  /** `m` answers the tool call; a call without a function or name is known as "unknown". */
  ghost predicate Told(w: World, tc: ToolCall, m: Message, before: seq<ProxyCall>, after: seq<ProxyCall>) {
    && m.ToolMessage?
    && m.toolName == (if tc.ToolCall? && tc.name != "" then tc.name else "unknown")
    && exists args :: GivenArgs(tc, args) &&
         if w.registry.None? then DirectTold(w, m.toolName, args, m.content, before, after)
         else if m.toolName == "help" then HelpTold(w, w.registry.value, args, m.content, before, after)
         else SessionTold(w, w.registry.value, m.toolName, args, m.content, before, after)
  }

  lemma SessionToolTells(w: World, mapping: map<string, Target>, name: string, args: Args, calls: seq<ProxyCall>)
    ensures var (content, after) := SessionTool(w, mapping, name, args, calls);
            SessionTold(w, mapping, name, args, content, calls, after)
  {
  }

  lemma HelpToolTells(w: World, mapping: map<string, Target>, args: Args, calls: seq<ProxyCall>)
    ensures var (content, after) := HelpTool(w, mapping, args, calls);
            HelpTold(w, mapping, args, content, calls, after)
  {
    StripFixed("");
    var topic := FirstTruthy(Arg(args, "command_name"), Arg(args, "cmdname"));
    if topic.Word? {
      StripFixed(topic.text);
    }
  }

  lemma TruthyText(args: Args, key: string)
    ensures match Truthy(args, key)
            case None => FirstTruthy(Arg(args, key), Falsy) == Word("")
            case Some(f) => FirstTruthy(Arg(args, key), Falsy) == f
  {
  }

  lemma DirectToolTells(w: World, name: string, args: Args, calls: seq<ProxyCall>)
    ensures var (content, after) := DirectTool(w, name, args, calls);
            DirectTold(w, name, args, content, calls, after)
  {
    StripFixed("");
    TruthyText(args, "server_id");
    TruthyText(args, "command");
    var (content, after) := DirectTool(w, name, args, calls);
    assert PassedOn(args, "page", Arg(args, "page")) && PassedOn(args, "page_size", Arg(args, "page_size"));
    assert PassedOn(args, "filter_enabled", Arg(args, "filter_enabled"));
    assert PassedOn(args, "params", Arg(args, "params")) && PassedOn(args, "command", Arg(args, "command"));
  }

  lemma CallTells(w: World, tc: ToolCall, calls: seq<ProxyCall>)
    ensures var (content, after) := RunCall(w, tc, calls);
            Told(w, tc, ToolMessage(NameOfCall(tc), content), calls, after)
  {
    var name, args := NameOfCall(tc), ArgsOf(tc);
    assert GivenArgs(tc, args);
    if w.registry.None? {
      DirectToolTells(w, name, args, calls);
    } else {
      HelpToolTells(w, w.registry.value, args, calls);
      SessionToolTells(w, w.registry.value, name, args, calls);
    }
  }

  // ----- one round -----

  function Front<T>(xs: seq<T>): (r: seq<T>)
    requires xs != []
    ensures |r| == |xs| - 1
  {
    xs[..|xs| - 1]
  }

  function Last<T>(xs: seq<T>): T
    requires xs != []
  {
    xs[|xs| - 1]
  }

  /** The messages answer the tool calls one by one, each with the proxy calls made so far. */
  ghost predicate AllTold(w: World, tcs: seq<ToolCall>, messages: seq<Message>, before: seq<ProxyCall>,
                          after: seq<ProxyCall>)
    decreases |tcs|
  {
    if tcs == [] then messages == [] && after == before
    else
      && messages != []
      && exists middle ::
           && AllTold(w, Front(tcs), Front(messages), before, middle)
           && Told(w, Last(tcs), Last(messages), middle, after)
  }

  lemma {:induction false} CallsTell(w: World, tcs: seq<ToolCall>, calls: seq<ProxyCall>)
    ensures AllTold(w, tcs, RunCalls(w, tcs, calls).0, calls, RunCalls(w, tcs, calls).1)
  {
    if tcs != [] {
      var (front, middle) := RunCalls(w, tcs[..|tcs| - 1], calls);
      CallsTell(w, tcs[..|tcs| - 1], calls);
      CallTells(w, tcs[|tcs| - 1], middle);
      var messages := RunCalls(w, tcs, calls).0;
      assert Front(messages) == front && Front(tcs) == tcs[..|tcs| - 1];
    }
  }

  /** The entry for a reply; a missing role is the assistant's. */
  ghost predicate EntryFor(r: ProviderResult, entry: Message) {
    && r.Reply? && entry.RoleMessage?
    && (r.role.Some? ==> entry.role == r.role.value) && (r.role.None? ==> entry.role == "assistant")
    && entry.content == r.content && entry.toolCalls == r.toolCalls && NullFunction !in r.toolCalls
  }

  /** Round k: the provider's reply to the history with its tool calls, and what they tell. */
  ghost predicate RoundPlayed(w: World, k: nat, from: State, to: State) {
    exists entry, messages ::
      && EntryFor(w.provider(k, from.history), entry) && entry.toolCalls != []
      && AllTold(w, entry.toolCalls, messages, from.calls, to.calls)
      && to.history == from.history + [entry] + messages
  }

  /** From round `k` on, `n` complete rounds lead from one state to the other. */
  ghost predicate Played(w: World, k: nat, n: nat, from: State, to: State)
    decreases n
  {
    if n == 0 then from == to
    else exists next :: RoundPlayed(w, k, from, next) && Played(w, k + 1, n - 1, next, to)
  }

  // ----- whole runs -----

  /** Some entry of the history has a tool call whose function is null. */
  ghost predicate HoldsNull(history: seq<Message>) {
    exists m :: m in history && m.RoleMessage? && NullFunction in m.toolCalls
  }

  /** The ways of a run to end in round `k`, from the provider's answer to its state `s`. */
  ghost predicate EndsInRound(w: World, k: nat, s: State, o: Outcome) {
    if HoldsNull(s.history) then o.result.Escaped? && o.asked == k
    else
      && o.asked == k + 1
      && match w.provider(k, s.history)
         case Failure(error) => o.result == Returned("", s.history, Some(error))
         case Reply(_, content, toolCalls) =>
           if NullFunction in toolCalls then
             o.result == Returned("", s.history, Some("'NoneType' object has no attribute 'get'"))
           else if toolCalls != [] then
             o.result.Escaped? && exists name :: ToolCall(name, NotAnObject) in toolCalls
           else
             && o.result.Returned? && o.result.message == content && o.result.error == None
             && exists entry ::
                  EntryFor(w.provider(k, s.history), entry) && o.result.history == s.history + [entry]
  }

  /**
    How a run that has come to `s` before round `k` ends there: with all rounds used, with the
    content of the last message; otherwise with the provider's error, its final reply or an exception.
  */
  ghost predicate Finishes(w: World, k: nat, limit: int, s: State, o: Outcome) {
    && o.calls == s.calls
    && if k < limit then EndsInRound(w, k, s, o)
       else
         && o.result.Returned? && o.asked == k && o.result.history == s.history && o.result.error == None
         && (s.history == [] ==> o.result.message == "")
         && (s.history != [] ==> o.result.message == s.history[|s.history| - 1].content)
  }

  lemma RoundIsPlayed(w: World, k: nat, s: State)
    requires NextState(w, k, s).Some?
    ensures RoundPlayed(w, k, s, NextState(w, k, s).value)
  {
    var reply := w.provider(k, s.history);
    var entry := RoleMessage(Role(reply), reply.content, reply.toolCalls);
    assert EntryFor(reply, entry);
    CallsTell(w, reply.toolCalls, s.calls);
  }

  lemma OneRoundMore(w: World, k: nat, n: nat, from: State, next: State, to: State)
    requires RoundPlayed(w, k, from, next) && Played(w, k + 1, n, next, to)
    ensures Played(w, k, n + 1, from, to)
  {
  }

  lemma RunGoesOn(w: World, k: nat, limit: int, s: State)
    requires k < limit && NextState(w, k, s).Some?
    ensures var next := NextState(w, k, s).value;
            Rounds(w, k, limit, s.history, s.calls) == Rounds(w, k + 1, limit, next.history, next.calls)
  {
  }

  lemma RunFinishes(w: World, k: nat, limit: int, s: State)
    requires k >= limit || NextState(w, k, s).None?
    ensures Finishes(w, k, limit, s, Rounds(w, k, limit, s.history, s.calls))
  {
    var reply := w.provider(k, s.history);
    assert HoldsNull(s.history) <==> Unsummarisable(s.history);
    if k < limit && reply.Reply? && !HasNullFunction(reply.toolCalls) {
      assert EntryFor(reply, RoleMessage(Role(reply), reply.content, reply.toolCalls));
      if tc :| tc in reply.toolCalls && tc.ToolCall? && tc.args == NotAnObject {
        assert ToolCall(tc.name, NotAnObject) in reply.toolCalls;
      }
    }
  }

  /** From round `k` on: some complete rounds up to round `j`, in which the run ends with `o`. */
  ghost predicate Ran(w: World, k: nat, limit: int, s: State, o: Outcome) {
    exists n: nat, j: nat, last ::
      Played(w, k, n, s, last) && Finishes(w, j, limit, last, o) && j == k + n && (n > 0 ==> j <= limit)
  }

  lemma RanLater(w: World, k: nat, limit: int, s: State, next: State, o: Outcome)
    requires k < limit && RoundPlayed(w, k, s, next) && Ran(w, k + 1, limit, next, o)
    ensures Ran(w, k, limit, s, o)
  {
    var n: nat, j: nat, last :|
      Played(w, k + 1, n, next, last) && Finishes(w, j, limit, last, o) && j == k + 1 + n && (n > 0 ==> j <= limit);
    OneRoundMore(w, k, n, s, next, last);
    assert Played(w, k, n + 1, s, last);
  }

  lemma RanAtOnce(w: World, k: nat, limit: int, s: State, o: Outcome)
    requires Finishes(w, k, limit, s, o)
    ensures Ran(w, k, limit, s, o)
  {
    assert Played(w, k, 0, s, s);
  }

  lemma {:induction false} RoundsArePlayed(w: World, k: nat, limit: int, s: State)
    ensures Ran(w, k, limit, s, Rounds(w, k, limit, s.history, s.calls))
    decreases limit - k
  {
    if k < limit && NextState(w, k, s).Some? {
      var next := NextState(w, k, s).value;
      RoundIsPlayed(w, k, s);
      RunGoesOn(w, k, limit, s);
      RoundsArePlayed(w, k + 1, limit, next);
      RanLater(w, k, limit, s, next, Rounds(w, k + 1, limit, next.history, next.calls));
    } else {
      RunFinishes(w, k, limit, s);
      RanAtOnce(w, k, limit, s, Rounds(w, k, limit, s.history, s.calls));
    }
  }

  /**
    However a run ends, it got there by complete rounds in which every entry is the provider's
    reply to the history so far and every tool message is the formatted answer to the call that
    its tool call made, or the error that applies when it made none; and it ends accordingly.
  */
  lemma {:induction false} RunIsPlayed(w: World, messages: seq<Message>, limit: int)
    ensures Ran(w, 0, limit, State(messages, []), Flow(w, messages, limit))
  {
    RoundsArePlayed(w, 0, limit, State(messages, []));
  }
}
