/** What every run of the chat loop guarantees, whatever the provider and the proxy answer. */
module ChatRuns {
  import opened Values
  import opened Text
  import opened ToolList
  import opened ChatFlow

  // ----- the grammar of the history -----

  /** Exactly one tool message per tool call, in order and under its name. */
  ghost predicate Answers(tcs: seq<ToolCall>, replies: seq<Message>) {
    && |replies| == |tcs|
    && forall i :: 0 <= i < |tcs| ==> replies[i].ToolMessage? && replies[i].toolName == NameOfCall(tcs[i])
  }

  /**
    `s` is `n` rounds: each a model entry followed by the answers to its tool calls. Only a last
    entry may have no tool calls, and it has none exactly when `answered`.
  */
  ghost predicate Conversation(s: seq<Message>, n: int, answered: bool)
    decreases |s|
  {
    if s == [] then n == 0 && !answered
    else
      && s[0].RoleMessage?
      && var width := |s[0].toolCalls|;
         if width == 0 then |s| == 1 && n == 1 && answered
         else width < |s| && Answers(s[0].toolCalls, s[1..width + 1]) && Conversation(s[width + 1..], n - 1, answered)
  }

  lemma {:induction false} OneAnswerPerCall(w: World, tcs: seq<ToolCall>, calls: seq<ProxyCall>)
    ensures Answers(tcs, RunCalls(w, tcs, calls).0)
  {
    if tcs != [] {
      OneAnswerPerCall(w, tcs[..|tcs| - 1], calls);
    }
  }

  /** A complete round in front of a conversation. */
  lemma RoundFirst(entry: Message, replies: seq<Message>, rest: seq<Message>, n: int, answered: bool)
    requires entry.RoleMessage? && entry.toolCalls != [] && Answers(entry.toolCalls, replies)
    requires Conversation(rest, n, answered)
    ensures Conversation([entry] + replies + rest, n + 1, answered)
  {
    var s := [entry] + replies + rest;
    assert s[1..|replies| + 1] == replies && s[|replies| + 1..] == rest;
  }

  /** How the part of the history added in `rounds` provider requests, up to the `asked`-th, may end. */
  ghost predicate Ending(o: Outcome, added: seq<Message>, rounds: int, atMost: int)
    requires o.result.Returned?
  {
    if o.result.error.Some? then
      // provider error: complete rounds only, the failed request leaves no trace
      Conversation(added, rounds - 1, false) && o.result.message == "" && o.asked <= atMost
    else
      || (Conversation(added, rounds, true) && o.asked <= atMost && o.result.message == added[|added| - 1].content)
      || (Conversation(added, rounds, false) && o.asked == atMost && o.result.message == LastContent(o.result.history))
  }

  /** How a run that returns may end: `asked` requests were made before, `history` was there before. */
  ghost predicate Ends(o: Outcome, history: seq<Message>, asked: int, limit: int) {
    && o.result.Returned?
    && history <= o.result.history
    && Ending(o, o.result.history[|history|..], o.asked - asked, if limit > asked then limit else asked)
  }

  lemma {:induction false} RoundsEnd(w: World, k: nat, limit: int, history: seq<Message>, calls: seq<ProxyCall>)
    requires Rounds(w, k, limit, history, calls).result.Returned?
    ensures Ends(Rounds(w, k, limit, history, calls), history, k, limit)
    decreases limit - k
  {
    var o := Rounds(w, k, limit, history, calls);
    if k >= limit {
      assert history[|history|..] == [];
    } else {
      var reply := w.provider(k, history);
      if reply.Failure? || HasNullFunction(reply.toolCalls) {
        assert history[|history|..] == [];
      } else {
        var entry := RoleMessage(Role(reply), reply.content, reply.toolCalls);
        var extended := history + [entry];
        if reply.toolCalls == [] {
          assert extended[|history|..] == [entry];
        } else {
          var (messages, calls') := RunCalls(w, reply.toolCalls, calls);
          RoundsEnd(w, k + 1, limit, extended + messages, calls');
          OneAnswerPerCall(w, reply.toolCalls, calls);
          NextRoundEnds(o, history, entry, messages, k, limit);
        }
      }
    }
  }

  lemma NextRoundEnds(o: Outcome, history: seq<Message>, entry: Message, messages: seq<Message>, k: nat, limit: int)
    requires k < limit && entry.RoleMessage? && entry.toolCalls != [] && Answers(entry.toolCalls, messages)
    requires Ends(o, history + [entry] + messages, k + 1, limit)
    ensures Ends(o, history, k, limit)
  {
    var h := o.result.history;
    var longer := history + [entry] + messages;
    var rest := h[|longer|..];
    assert h == longer + rest;
    assert h[|history|..] == [entry] + messages + rest;
    RoundThenEnding(o, entry, messages, rest, o.asked - k - 1, limit);
  }

  lemma RoundThenEnding(o: Outcome, entry: Message, messages: seq<Message>, rest: seq<Message>, rounds: int,
                        atMost: int)
    requires entry.RoleMessage? && entry.toolCalls != [] && Answers(entry.toolCalls, messages)
    requires o.result.Returned? && Ending(o, rest, rounds, atMost)
    ensures Ending(o, [entry] + messages + rest, rounds + 1, atMost)
  {
    if o.result.error.Some? {
      RoundFirst(entry, messages, rest, rounds - 1, false);
    } else if Conversation(rest, rounds, true) {
      RoundFirst(entry, messages, rest, rounds, true);
      assert ([entry] + messages + rest)[|[entry] + messages + rest| - 1] == rest[|rest| - 1];
    } else {
      RoundFirst(entry, messages, rest, rounds, false);
    }
  }

  /**
    Every returned history is the caller's messages followed by complete rounds, one per
    provider request (an erring request adds nothing); the provider is asked at most `limit`
    times; without an error the message is either the content of a final entry without tool
    calls, or, with every round used, the last content of the history.
  */
  lemma HistoryGrammar(w: World, messages: seq<Message>, limit: int)
    ensures var o := Flow(w, messages, limit);
            o.result.Returned? ==> Ends(o, messages, 0, limit)
  {
    if Flow(w, messages, limit).result.Returned? {
      RoundsEnd(w, 0, limit, messages, []);
    }
  }

  lemma {:induction false} AskedAtMost(w: World, k: nat, limit: int, history: seq<Message>, calls: seq<ProxyCall>)
    ensures k <= Rounds(w, k, limit, history, calls).asked <= if limit > k then limit else k
    decreases limit - k
  {
    if k < limit && !Unsummarisable(history) {
      var reply := w.provider(k, history);
      if reply.Reply? && !HasNullFunction(reply.toolCalls) && reply.toolCalls != [] && !Unloggable(reply.toolCalls) {
        var (messages, calls') := RunCalls(w, reply.toolCalls, calls);
        var entry := RoleMessage(Role(reply), reply.content, reply.toolCalls);
        AskedAtMost(w, k + 1, limit, history + [entry] + messages, calls');
      }
    }
  }

  // ----- exceptions -----

  /** The start of the next round, if round `k` does not end the run. */
  function NextState(w: World, k: nat, s: State): Option<State> {
    if Unsummarisable(s.history) then None else
    var reply := w.provider(k, s.history);
    if reply.Failure? || HasNullFunction(reply.toolCalls) || reply.toolCalls == []
       || Unloggable(reply.toolCalls) then None else
    var (messages, calls) := RunCalls(w, reply.toolCalls, s.calls);
    Some(State(s.history + [RoleMessage(Role(reply), reply.content, reply.toolCalls)] + messages, calls))
  }

  /** The start of round `k + n` in a run that is at `s` in round `k`, if that round is reached. */
  function Reached(w: World, k: nat, s: State, n: nat): Option<State>
    decreases n
  {
    if n == 0 then Some(s) else
    var next := NextState(w, k, s);
    if next.None? then None else Reached(w, k + 1, next.value, n - 1)
  }

  /** The reply to this history has only proper functions, and arguments that are not an object. */
  predicate BadReply(w: World, k: nat, history: seq<Message>) {
    var reply := w.provider(k, history);
    reply.Reply? && !HasNullFunction(reply.toolCalls) && Unloggable(reply.toolCalls)
  }

  ghost predicate BadRound(w: World, k: nat, s: State, n: nat) {
    Reached(w, k, s, n).Some? && BadReply(w, k + n, Reached(w, k, s, n).value.history)
  }

  lemma {:induction false} StaysSummarisable(w: World, k: nat, s: State)
    requires !Unsummarisable(s.history) && NextState(w, k, s).Some?
    ensures !Unsummarisable(NextState(w, k, s).value.history)
  {
    var reply := w.provider(k, s.history);
    OneAnswerPerCall(w, reply.toolCalls, s.calls);
  }

  lemma {:induction false} RoundsEscapeIff(w: World, k: nat, limit: int, s: State)
    requires !Unsummarisable(s.history)
    ensures Rounds(w, k, limit, s.history, s.calls).result.Escaped? <==>
            exists n: nat :: k + n < limit && BadRound(w, k, s, n)
    decreases limit - k
  {
    if k < limit {
      var next := NextState(w, k, s);
      assert BadRound(w, k, s, 0) <==> BadReply(w, k, s.history);
      forall n: nat | n > 0 ensures BadRound(w, k, s, n) <==> next.Some? && BadRound(w, k + 1, next.value, n - 1) {}
      if next.Some? {
        StaysSummarisable(w, k, s);
        var k' := k + 1;
        RoundsEscapeIff(w, k', limit, next.value);
        if n: nat :| k' + n < limit && BadRound(w, k', next.value, n) {
          assert BadRound(w, k, s, n + 1);
        }
      }
    }
  }

  /**
    An exception leaves the loop exactly when a round is played and the caller's messages hold a
    null function, or some round that is reached gets a reply with proper functions and arguments
    that are not an object. Provider, proxy and tool failures never do it.
  */
  lemma EscapesIff(w: World, messages: seq<Message>, limit: int)
    ensures Flow(w, messages, limit).result.Escaped? <==>
            || (limit > 0 && Unsummarisable(messages))
            || (exists n: nat :: n < limit && BadRound(w, 0, State(messages, []), n))
  {
    if Unsummarisable(messages) {
      forall n: nat | n > 0 ensures !BadRound(w, 0, State(messages, []), n) {}
    } else {
      RoundsEscapeIff(w, 0, limit, State(messages, []));
    }
  }

  /** The provider never sends arguments that are not an object. */
  ghost predicate ObjectArguments(w: World) {
    forall k, h :: var r := w.provider(k, h); r.Reply? ==> !Unloggable(r.toolCalls)
  }

  /** In particular, with object arguments only a null function in the caller's messages does it. */
  lemma EscapesOnlyOnNullFunctions(w: World, messages: seq<Message>, limit: int)
    requires ObjectArguments(w)
    ensures Flow(w, messages, limit).result.Escaped? <==> limit > 0 && Unsummarisable(messages)
  {
    EscapesIff(w, messages, limit);
  }

  // ----- routing -----

  /** The call targets a registered pair; model-supplied copy numbers never get through. */
  ghost predicate Routed(mapping: map<string, Target>, call: ProxyCall) {
    || (call.CallServer? && "copy_number" !in call.params
        && exists key :: key in mapping && mapping[key] == (call.command, call.server))
    || (call.Help? && call.topic.Word?
        && exists key :: key in mapping && mapping[key] == (call.topic.text, call.server))
  }

  /** Without a registry: a listing, or a request whose server, and for a call command, is stripped and not empty. */
  predicate Explicit(call: ProxyCall) {
    match call
    case ListServers(_, _, _) => true
    case DirectCall(server, command, _) => server != "" && Stripped(server) && command != "" && Stripped(command)
    case Help(server, _) => server != "" && Stripped(server)
    case CallServer(_, _, _) => false
  }

  ghost predicate Proper(w: World, call: ProxyCall) {
    if w.registry.Some? then Routed(w.registry.value, call) else Explicit(call)
  }

  ghost predicate AllProper(w: World, calls: seq<ProxyCall>) {
    forall c :: c in calls ==> Proper(w, c)
  }

  lemma LookupIsRegistered(mapping: map<string, Target>, name: string)
    ensures Lookup(mapping, name).Some? ==> exists key :: key in mapping && mapping[key] == Lookup(mapping, name).value
  {
    if Lookup(mapping, name).Some? {
      assert Strip(name) in mapping;
    }
  }

  lemma DirectRequestIsExplicit(name: string, args: Args)
    ensures var (call, refused) := DirectRequest(name, args); refused.None? ==> Explicit(call)
  {
    var server, command := FirstTruthy(Arg(args, "server_id"), Falsy), FirstTruthy(Arg(args, "command"), Falsy);
    if server.Word? {
      StripFixed(server.text);
    }
    if command.Word? {
      StripFixed(command.text);
    }
  }

  lemma {:induction false} RunCallRoutes(w: World, tc: ToolCall, calls: seq<ProxyCall>)
    requires AllProper(w, calls)
    ensures AllProper(w, RunCall(w, tc, calls).1)
    ensures calls <= RunCall(w, tc, calls).1 && |RunCall(w, tc, calls).1| <= |calls| + 1
  {
    if w.registry.None? {
      DirectRequestIsExplicit(NameOfCall(tc), ArgsOf(tc));
    } else if NameOfCall(tc) == "help" {
      var chosen := FirstTruthy(Arg(ArgsOf(tc), "command_name"), Arg(ArgsOf(tc), "cmdname"));
      if chosen.Word? {
        LookupIsRegistered(w.registry.value, Strip(chosen.text));
      }
    } else {
      LookupIsRegistered(w.registry.value, NameOfCall(tc));
    }
  }

  // ----- what holds of every proxy call of a run -----

  ghost predicate AllOf(p: ProxyCall -> bool, calls: seq<ProxyCall>) {
    forall c :: c in calls ==> p(c)
  }

  /** A tool call that satisfies `q` makes only proxy calls that satisfy `p`. */
  ghost predicate Makes(w: World, q: ToolCall -> bool, p: ProxyCall -> bool) {
    forall tc, calls :: q(tc) && AllOf(p, calls) ==> AllOf(p, RunCall(w, tc, calls).1)
  }

  /** The provider only requests tool calls that satisfy `q`. */
  ghost predicate Requests(w: World, q: ToolCall -> bool) {
    forall k, h :: w.provider(k, h).Reply? ==> forall tc :: tc in w.provider(k, h).toolCalls ==> q(tc)
  }

  lemma {:induction false} RunCallsMake(w: World, q: ToolCall -> bool, p: ProxyCall -> bool, tcs: seq<ToolCall>,
                                        calls: seq<ProxyCall>)
    requires Makes(w, q, p) && AllOf(p, calls) && forall tc :: tc in tcs ==> q(tc)
    ensures AllOf(p, RunCalls(w, tcs, calls).1)
  {
    if tcs != [] {
      RunCallsMake(w, q, p, tcs[..|tcs| - 1], calls);
      assert q(tcs[|tcs| - 1]);
    }
  }

  lemma {:induction false} RoundsMake(w: World, q: ToolCall -> bool, p: ProxyCall -> bool, k: nat, limit: int,
                                      history: seq<Message>, calls: seq<ProxyCall>)
    requires Makes(w, q, p) && Requests(w, q) && AllOf(p, calls)
    ensures AllOf(p, Rounds(w, k, limit, history, calls).calls)
    decreases limit - k
  {
    if k < limit && !Unsummarisable(history) {
      var reply := w.provider(k, history);
      if reply.Reply? && !HasNullFunction(reply.toolCalls) && reply.toolCalls != [] && !Unloggable(reply.toolCalls) {
        var (messages, calls') := RunCalls(w, reply.toolCalls, calls);
        RunCallsMake(w, q, p, reply.toolCalls, calls);
        var entry := RoleMessage(Role(reply), reply.content, reply.toolCalls);
        RoundsMake(w, q, p, k + 1, limit, history + [entry] + messages, calls');
      }
    }
  }

  /** What holds of the proxy calls of each requested tool call holds of those of the whole run. */
  lemma EveryCallOfARun(w: World, q: ToolCall -> bool, p: ProxyCall -> bool, messages: seq<Message>, limit: int)
    requires Makes(w, q, p) && Requests(w, q)
    ensures AllOf(p, Flow(w, messages, limit).calls)
  {
    RoundsMake(w, q, p, 0, limit, messages, []);
  }

  /**
    Every proxy call of any run, however it ends: with a registry it targets a registered pair,
    without one it names a server (and command) that is stripped and not empty, or lists servers.
  */
  lemma EveryCallIsRouted(w: World, messages: seq<Message>, limit: int)
    ensures AllProper(w, Flow(w, messages, limit).calls)
  {
    var p: ProxyCall -> bool := c => Proper(w, c);
    forall tc, calls | AllOf(p, calls) ensures AllOf(p, RunCall(w, tc, calls).1) {
      assert AllProper(w, calls);
      RunCallRoutes(w, tc, calls);
    }
    EveryCallOfARun(w, tc => true, p, messages, limit);
  }
}
