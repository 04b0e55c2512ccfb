/**
  The chat loop: ask the provider, append its reply, run the requested tools, append one tool
  message each, and go round again, at most `limit` times.
*/
module ChatFlow {
  import opened Values
  import opened Text
  import opened ToolList

  type Args = map<string, Field>

  /**
    The `arguments` of a tool call: absent or falsy, an object, a string holding an object, a
    string that does not parse, or something that is not an object in the end.
  */
  datatype RawArgs = NoArgs | ObjectArgs(obj: Args) | TextOfObject(obj: Args) | Unparsable | NotAnObject

  /** A requested tool call; `NullFunction` has an explicit null under "function". */
  datatype ToolCall = NullFunction | ToolCall(name: string, args: RawArgs)

  datatype Message = RoleMessage(role: string, content: string, toolCalls: seq<ToolCall>)
                   | ToolMessage(toolName: string, content: string)

  /** What the provider client does in one round. */
  datatype ProviderResult = Failure(error: string)
                          | Reply(role: Option<string>, content: string, toolCalls: seq<ToolCall>)

  /** `DirectCall` is `call_server` as the model wrote it; `CallServer` goes through the registry. */
  datatype ProxyCall = ListServers(page: Field, pageSize: Field, filterEnabled: Field)
                     | CallServer(server: string, command: string, params: Args)
                     | DirectCall(server: string, command: string, rawParams: Field)
                     | Help(server: string, topic: Field)

  datatype ProxyResult = Output(text: string) | ClientError(message: string, status: Option<int>)
                       | KeyError(text: string) | OtherError(text: string)

  /** What is handed to a formatter. */
  datatype Raw = Result(text: string) | HelpReference
               | Error(text: string) | ErrorStatus(text: string, status: Option<int>)

  /**
    The outside world of one run. `provider(k, history)` is the outcome of round k, `proxy(n, c)`
    the outcome of the n-th proxy call; `format` is the representation's `format_tool_result`
    and `dumps` is `json.dumps`. `registry` is None when the flow runs without one.
  */
  datatype World = World(
    provider: (nat, seq<Message>) -> ProviderResult,
    proxy: (nat, ProxyCall) -> ProxyResult,
    format: Raw -> string,
    dumps: Raw -> string,
    registry: Option<map<string, Target>>)

  const NULL_FUNCTION_ERROR := "'NoneType' object has no attribute 'get'"

  // ----- tool calls -----

  function NameOfCall(tc: ToolCall): string {
    if tc.NullFunction? || tc.name == "" then "unknown" else tc.name
  }

  function ArgsOf(tc: ToolCall): Args {
    if tc.ToolCall? && (tc.args.ObjectArgs? || tc.args.TextOfObject?) then tc.args.obj else map[]
  }

  function Arg(args: Args, key: string): Field {
    if key in args then args[key] else Falsy
  }

  /** `_run_session_tool`: through the registry, without `copy_number`. */
  function SessionTool(w: World, mapping: map<string, Target>, name: string, args: Args,
                       calls: seq<ProxyCall>): (string, seq<ProxyCall>)
  {
    var unknown := Error("Unknown tool: " + name);
    match Lookup(mapping, name)
    case None => (w.format(unknown), calls)
    case Some((command, server)) =>
      var call := CallServer(server, command, args - {"copy_number"});
      var raw := match w.proxy(|calls|, call)
        case Output(text) => Result(text)
        case KeyError(_) => unknown
        case ClientError(message, status) => ErrorStatus(message, status)
        case OtherError(text) => Error(text);
      (w.format(raw), calls + [call])
  }

  /** `_run_help_for_model`, together with the handler around it for a name that cannot be stripped. */
  function HelpTool(w: World, mapping: map<string, Target>, args: Args, calls: seq<ProxyCall>): (string, seq<ProxyCall>)
  {
    match FirstTruthy(Arg(args, "command_name"), Arg(args, "cmdname"))
    case Odd(error) => (w.format(Error(error)), calls)
    case Word(text) =>
      var name := Strip(text);
      if name == "" then (w.format(HelpReference), calls) else
      match Lookup(mapping, name)
      case None => (w.format(Error("Unknown command: " + name)), calls)
      case Some((command, server)) =>
        var call := Help(server, Word(command));
        var raw := match w.proxy(|calls|, call)
          case Output(text) => Result(text)
          case KeyError(text) => Error(text)
          case ClientError(message, _) => Error(message)
          case OtherError(text) => Error(text);
        (w.format(raw), calls + [call])
  }

  const NO_SERVER_FOR_CALL := "call_server requires server_id (from list_servers)."
  const NO_COMMAND := "call_server requires command name."
  const NO_SERVER_FOR_HELP :=
    "help requires server_id (from list_servers). Call list_servers first to get server_id values."

  /** What `_run_tool` asks of the proxy, or the error it reports without asking. */
  function DirectRequest(name: string, args: Args): (ProxyCall, Option<string>) {
    var list := ListServers(Arg(args, "page"), Arg(args, "page_size"), Arg(args, "filter_enabled"));
    if name == "list_servers" then (list, None)
    else if name == "call_server" then
      match (FirstTruthy(Arg(args, "server_id"), Falsy), FirstTruthy(Arg(args, "command"), Falsy))
      case (Odd(error), _) => (list, Some(error))
      case (_, Odd(error)) => (list, Some(error))
      case (Word(s), Word(c)) =>
        if Strip(s) == "" then (list, Some(NO_SERVER_FOR_CALL))
        else if Strip(c) == "" then (list, Some(NO_COMMAND))
        else (DirectCall(Strip(s), Strip(c), Arg(args, "params")), None)
    else if name == "help" then
      match FirstTruthy(Arg(args, "server_id"), Falsy)
      case Odd(error) => (list, Some(error))
      case Word(s) =>
        if Strip(s) == "" then (list, Some(NO_SERVER_FOR_HELP))
        else (Help(Strip(s), Arg(args, "command")), None)
    else (list, Some("Unknown tool: " + name))
  }

  /** `_run_tool`: the flow without a registry. */
  function DirectTool(w: World, name: string, args: Args, calls: seq<ProxyCall>): (string, seq<ProxyCall>) {
    var (call, refused) := DirectRequest(name, args);
    if refused.Some? then (w.dumps(Error(refused.value)), calls) else
    var content := match w.proxy(|calls|, call)
      case Output(text) => w.format(Result(text))
      case ClientError(message, status) => w.dumps(ErrorStatus(message, status))
      case KeyError(text) => w.dumps(Error(text))
      case OtherError(text) => w.dumps(Error(text));
    (content, calls + [call])
  }

  function RunCall(w: World, tc: ToolCall, calls: seq<ProxyCall>): (string, seq<ProxyCall>) {
    var name, args := NameOfCall(tc), ArgsOf(tc);
    if w.registry.None? then DirectTool(w, name, args, calls)
    else if name == "help" then HelpTool(w, w.registry.value, args, calls)
    else SessionTool(w, w.registry.value, name, args, calls)
  }

  /** The tool messages of one round. */
  function RunCalls(w: World, tcs: seq<ToolCall>, calls: seq<ProxyCall>): (seq<Message>, seq<ProxyCall>) {
    if tcs == [] then ([], calls) else
    var (front, calls') := RunCalls(w, tcs[..|tcs| - 1], calls);
    var tc := tcs[|tcs| - 1];
    var (content, calls'') := RunCall(w, tc, calls');
    (front + [ToolMessage(NameOfCall(tc), content)], calls'')
  }

  // ----- rounds -----

  predicate HasNullFunction(tcs: seq<ToolCall>) {
    NullFunction in tcs
  }

  /** Logging a summary of this history raises. */
  predicate Unsummarisable(history: seq<Message>) {
    exists m :: m in history && m.RoleMessage? && HasNullFunction(m.toolCalls)
  }

  /** Logging these tool calls raises: some arguments are not an object. */
  predicate Unloggable(tcs: seq<ToolCall>) {
    exists tc :: tc in tcs && tc.ToolCall? && tc.args == NotAnObject
  }

  function LastContent(history: seq<Message>): string {
    if history == [] then "" else history[|history| - 1].content
  }

  /** `error` is present on the provider-error exits only. `Escaped`: an exception left the loop. */
  datatype FlowResult = Returned(message: string, history: seq<Message>, error: Option<string>) | Escaped

  /** The result, the proxy calls made, and how often the provider was asked. */
  datatype Outcome = Outcome(result: FlowResult, calls: seq<ProxyCall>, asked: nat)

  function Role(r: ProviderResult): string
    requires r.Reply?
  {
    if r.role.Some? then r.role.value else "assistant"
  }

  /** What a round starts from. */
  datatype State = State(history: seq<Message>, calls: seq<ProxyCall>)

  function Rounds(w: World, k: nat, limit: int, history: seq<Message>, calls: seq<ProxyCall>): Outcome
    decreases limit - k
  {
    if k >= limit then Outcome(Returned(LastContent(history), history, None), calls, k)
    else if Unsummarisable(history) then Outcome(Escaped, calls, k)
    else
      var reply := w.provider(k, history);
      if reply.Failure? then Outcome(Returned("", history, Some(reply.error)), calls, k + 1)
      else if HasNullFunction(reply.toolCalls) then
        Outcome(Returned("", history, Some(NULL_FUNCTION_ERROR)), calls, k + 1)
      else
        var extended := history + [RoleMessage(Role(reply), reply.content, reply.toolCalls)];
        if reply.toolCalls == [] then Outcome(Returned(reply.content, extended, None), calls, k + 1)
        else if Unloggable(reply.toolCalls) then Outcome(Escaped, calls, k + 1)
        else
          var (messages, calls') := RunCalls(w, reply.toolCalls, calls);
          Rounds(w, k + 1, limit, extended + messages, calls')
  }

  function Flow(w: World, messages: seq<Message>, limit: int): Outcome {
    Rounds(w, 0, limit, messages, [])
  }

  // ----- the loop itself -----

  class ProxyClient {
    const answer: (nat, ProxyCall) -> ProxyResult
    var log: seq<ProxyCall>

    constructor (answer: (nat, ProxyCall) -> ProxyResult)
      ensures this.answer == answer && log == []
    {
      this.answer, log := answer, [];
    }

    method Send(call: ProxyCall) returns (r: ProxyResult)
      modifies this
      ensures r == answer(|old(log)|, call) && log == old(log) + [call]
    {
      r := answer(|log|, call);
      log := log + [call];
    }
  }

  method RunSessionTool(w: World, proxy: ProxyClient, registry: ToolCallRegistry, name: string, args: Args)
    returns (content: string)
    requires proxy.answer == w.proxy
    modifies proxy
    ensures (content, proxy.log) == SessionTool(w, registry.mapping, name, args, old(proxy.log))
    ensures registry.mapping == old(registry.mapping)
  {
    var target := registry.Resolve(name);
    if target.None? {
      return w.format(Error("Unknown tool: " + name));
    }
    var (command, server) := target.value;
    var raw := proxy.Send(CallServer(server, command, args - {"copy_number"}));
    match raw
    case Output(text) => content := w.format(Result(text));
    case KeyError(_) => content := w.format(Error("Unknown tool: " + name));
    case ClientError(message, status) => content := w.format(ErrorStatus(message, status));
    case OtherError(text) => content := w.format(Error(text));
  }

  method RunHelpForModel(w: World, proxy: ProxyClient, registry: ToolCallRegistry, args: Args)
    returns (content: string)
    requires proxy.answer == w.proxy
    modifies proxy
    ensures (content, proxy.log) == HelpTool(w, registry.mapping, args, old(proxy.log))
    ensures registry.mapping == old(registry.mapping)
  {
    var chosen := FirstTruthy(Arg(args, "command_name"), Arg(args, "cmdname"));
    if chosen.Odd? {
      return w.format(Error(chosen.error));
    }
    var name := Strip(chosen.text);
    if name == "" {
      return w.format(HelpReference);
    }
    var target := registry.Resolve(name);
    StripFixed(chosen.text);
    if target.None? {
      return w.format(Error("Unknown command: " + name));
    }
    var (command, server) := target.value;
    var raw := proxy.Send(Help(server, Word(command)));
    match raw
    case Output(text) => content := w.format(Result(text));
    case KeyError(text) => content := w.format(Error(text));
    case ClientError(message, _) => content := w.format(Error(message));
    case OtherError(text) => content := w.format(Error(text));
  }

  method RunTool(w: World, proxy: ProxyClient, name: string, args: Args) returns (content: string)
    requires proxy.answer == w.proxy
    modifies proxy
    ensures (content, proxy.log) == DirectTool(w, name, args, old(proxy.log))
  {
    var (call, refused) := DirectRequest(name, args);
    if refused.Some? {
      return w.dumps(Error(refused.value));
    }
    var raw := proxy.Send(call);
    match raw
    case Output(text) => content := w.format(Result(text));
    case ClientError(message, status) => content := w.dumps(ErrorStatus(message, status));
    case KeyError(text) => content := w.dumps(Error(text));
    case OtherError(text) => content := w.dumps(Error(text));
  }

  ghost function MappingOf(registry: ToolCallRegistry?): Option<map<string, Target>>
    reads registry
  {
    if registry == null then None else Some(registry.mapping)
  }

  /** The inner loop: one tool message per tool call, appended to the history. */
  method RunToolCalls(w: World, proxy: ProxyClient, registry: ToolCallRegistry?, tcs: seq<ToolCall>)
    returns (messages: seq<Message>)
    requires proxy.answer == w.proxy && w.registry == MappingOf(registry)
    modifies proxy
    ensures (messages, proxy.log) == RunCalls(w, tcs, old(proxy.log))
    ensures MappingOf(registry) == old(MappingOf(registry))
  {
    messages := [];
    for i := 0 to |tcs|
      invariant (messages, proxy.log) == RunCalls(w, tcs[..i], old(proxy.log))
      invariant w.registry == MappingOf(registry)
    {
      assert tcs[..i + 1][..i] == tcs[..i];
      var name, args := NameOfCall(tcs[i]), ArgsOf(tcs[i]);
      var content;
      if registry == null {
        content := RunTool(w, proxy, name, args);
      } else if name == "help" {
        content := RunHelpForModel(w, proxy, registry, args);
      } else {
        content := RunSessionTool(w, proxy, registry, name, args);
      }
      messages := messages + [ToolMessage(name, content)];
    }
    assert tcs[..|tcs|] == tcs;
  }

  method RunChatFlow(w: World, messages: seq<Message>, limit: int, registry: ToolCallRegistry?)
    returns (result: FlowResult, calls: seq<ProxyCall>, asked: nat)
    requires w.registry == MappingOf(registry)
    ensures Outcome(result, calls, asked) == Flow(w, messages, limit)
  {
    var history := messages;
    var proxy := new ProxyClient(w.proxy);
    var k := 0;
    while k < limit
      invariant proxy.answer == w.proxy && w.registry == MappingOf(registry)
      invariant fresh(proxy)
      invariant Rounds(w, k, limit, history, proxy.log) == Flow(w, messages, limit)
    {
      if Unsummarisable(history) {
        return Escaped, proxy.log, k;
      }
      var reply := w.provider(k, history);
      if reply.Failure? {
        return Returned("", history, Some(reply.error)), proxy.log, k + 1;
      }
      if HasNullFunction(reply.toolCalls) {
        return Returned("", history, Some(NULL_FUNCTION_ERROR)), proxy.log, k + 1;
      }
      history := history + [RoleMessage(Role(reply), reply.content, reply.toolCalls)];
      if reply.toolCalls == [] {
        return Returned(reply.content, history, None), proxy.log, k + 1;
      }
      if Unloggable(reply.toolCalls) {
        return Escaped, proxy.log, k + 1;
      }
      var toolMessages := RunToolCalls(w, proxy, registry, reply.toolCalls);
      history := history + toolMessages;
      k := k + 1;
    }
    return Returned(LastContent(history), history, None), proxy.log, k;
  }
}
