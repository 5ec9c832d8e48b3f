/** The tools/call handler as a function of the session state: which handler a call
    reaches, the text or the protocol-level error it produces, and the logging mode
    the session is left in. The server class runs exactly this, one call at a time. */
module Dispatcher {
  import opened Arguments
  import opened Catalog
  import Executor

  /** A call either throws (the protocol library turns that into an error response)
      or returns a result whose single content block is the given text. A text
      result may itself describe a recovered error. */
  datatype CallResult = ProtocolError(message: string) | Text(text: string)

  /** The result of one call and the value of `verboseLogging` after it. */
  datatype Reply = Reply(result: CallResult, verbose: bool)

  /** One tools/call request, with the two things the handlers take from the
      environment: the clock reading and what the shell does with the command. */
  datatype Call = Call(name: string, args: Args, now: string, outcome: Executor.CommandOutcome)

  const Greeting := "! This is a greeting from the MCP server."
  const ModeError := "Error: Mode must be either 'verbose' or 'quiet'"

  /** The message of the TypeError a template literal throws for a value that has
      no primitive value (V8's wording). */
  const ConversionError := "Cannot convert object to primitive value"

  function GreetHello(args: Args): (r: CallResult)
    ensures r.ProtocolError? <==> Unprintable(args, "name")
    ensures r.ProtocolError? ==> r.message == ConversionError
    ensures !Present(args, "name") ==> r == Text("Hello, World" + Greeting)
    ensures Present(args, "name") && Display(args["name"]).Some?
            ==> r == Text("Hello, " + Display(args["name"]).value + Greeting)
  {
    if !Present(args, "name") then Text("Hello, World" + Greeting)
    else match Display(args["name"])
      case None => ProtocolError(ConversionError)
      case Some(personName) => Text("Hello, " + personName + Greeting)
  }

  function ReportTime(now: string): (r: CallResult)
    ensures r.Text? && "Current time: " <= r.text && r.text[|"Current time: "|..] == now
  {
    Text("Current time: " + now)
  }

  /** execute_bash. A command that cannot be interpolated is never a string, so
      `exec` rejects it; the `catch` block's template then throws in turn. */
  function RunCommand(args: Args, outcome: Executor.CommandOutcome): (r: CallResult)
    ensures r.ProtocolError? <==> !Present(args, "command") || Unprintable(args, "command")
    ensures !Present(args, "command") ==> r == ProtocolError("Command is required")
    ensures Unprintable(args, "command") ==> r == ProtocolError(ConversionError)
    ensures Present(args, "command") && Display(args["command"]).Some?
            ==> r == Text(Executor.Render(Display(args["command"]).value, outcome))
  {
    if !Present(args, "command") then ProtocolError("Command is required")
    else match Display(args["command"])
      case None => ProtocolError(ConversionError)
      case Some(command) => Text(Executor.Render(command, outcome))
  }

  /** The check set_logging_mode makes: `mode` is truthy and one of the two mode
      strings (`includes` compares strictly, so only strings can pass). */
  predicate AcceptsMode(args: Args)
  {
    Present(args, "mode") && args["mode"] in [Str("verbose"), Str("quiet")]
  }

  /** The word `${verboseLogging ? "verbose" : "quiet"}` writes for a mode. */
  function ModeName(verbose: bool): string
  {
    if verbose then "verbose" else "quiet"
  }

  const SetLabel := "Logging mode set to: "
  const ReportLabel := "Current logging mode: "

  /** What each mode does, as a confirmation and as a report say it. */
  const WillBeVerbose := "Will show detailed process steps."
  const WillBeQuiet := "Will return only final answers."
  const IsVerbose := "Showing detailed process steps."
  const IsQuiet := "Returning only final answers."

  /** The text that confirms a mode change to `mode`. */
  function Confirmation(mode: string): string
  {
    SetLabel + mode + ". " + (if mode == "verbose" then WillBeVerbose else WillBeQuiet)
  }

  /** The longest prefix of `s` without a full stop. */
  function UpToDot(s: string): (word: string)
    ensures word <= s && '.' !in word
    ensures |word| < |s| ==> s[|word|] == '.'
  {
    if s == [] || s[0] == '.' then [] else [s[0]] + UpToDot(s[1..])
  }

  lemma {:induction false} UpToDotStopsAtDot(word: string, rest: string)
    requires '.' !in word && rest != [] && rest[0] == '.'
    ensures UpToDot(word + rest) == word
  {
    if word != [] {
      assert (word + rest)[1..] == word[1..] + rest;
      UpToDotStopsAtDot(word[1..], rest);
    }
  }

  /** How a reader of a mode report finds the mode it names: the word between
      `heading` and the next full stop. */
  function WordAfter(heading: string, text: string): Option<string>
  {
    if heading <= text then Some(UpToDot(text[|heading|..])) else None
  }

  lemma ReadsWord(heading: string, word: string, tail: string)
    requires '.' !in word
    ensures WordAfter(heading, heading + word + ". " + tail) == Some(word)
  {
    var text := heading + word + ". " + tail;
    assert text[|heading|..] == word + (". " + tail);
    UpToDotStopsAtDot(word, ". " + tail);
  }

  function ChangeLoggingMode(args: Args, verbose: bool): (r: Reply)
    ensures r.result.Text?
    ensures !AcceptsMode(args) ==> r == Reply(Text(ModeError), verbose)
    ensures AcceptsMode(args) ==> r.verbose == (args["mode"] == Str("verbose"))
    ensures AcceptsMode(args) ==> WordAfter(SetLabel, r.result.text) == Some(args["mode"].s)
    ensures AcceptsMode(args) ==>
              |SetLabel| + |args["mode"].s| <= |r.result.text| &&
              r.result.text[|SetLabel| + |args["mode"].s|..] == ". " + if r.verbose then WillBeVerbose else WillBeQuiet
  {
    if !AcceptsMode(args) then Reply(Text(ModeError), verbose)
    else
      var mode := args["mode"].s;
      var effect := if mode == "verbose" then WillBeVerbose else WillBeQuiet;
      assert mode == ModeName(mode == "verbose");
      ReadsWord(SetLabel, mode, effect);
      assert (SetLabel + mode + ". " + effect)[|SetLabel| + |mode|..] == ". " + effect;
      Reply(Text(Confirmation(mode)), mode == "verbose")
  }

  function ReportLoggingMode(verbose: bool): (r: CallResult)
    ensures r.Text?
    ensures WordAfter(ReportLabel, r.text) == Some("verbose") <==> verbose
    ensures WordAfter(ReportLabel, r.text) == Some("quiet") <==> !verbose
    ensures |ReportLabel| + |ModeName(verbose)| <= |r.text|
    ensures r.text[|ReportLabel| + |ModeName(verbose)|..] == ". " + if verbose then IsVerbose else IsQuiet
  {
    var effect := if verbose then IsVerbose else IsQuiet;
    ReadsWord(ReportLabel, ModeName(verbose), effect);
    assert "verbose" != "quiet";
    assert (ReportLabel + ModeName(verbose) + ". " + effect)[|ReportLabel| + |ModeName(verbose)|..] == ". " + effect;
    Text(ReportLabel + ModeName(verbose) + ". " + effect)
  }

  /** The `switch (name)` of the tools/call handler, given the session's mode. */
  function Dispatch(verbose: bool, call: Call): Reply
  {
    match call.name
    case "say_hello" => Reply(GreetHello(call.args), verbose)
    case "get_time" => Reply(ReportTime(call.now), verbose)
    case "execute_bash" => Reply(RunCommand(call.args, call.outcome), verbose)
    case "set_logging_mode" => ChangeLoggingMode(call.args, verbose)
    case "get_logging_mode" => Reply(ReportLoggingMode(verbose), verbose)
    case _ => Reply(ProtocolError("Unknown tool: " + call.name), verbose)
  }

  /** A call is a valid mode change: the only kind of call that writes the mode. */
  predicate SetsMode(call: Call)
  {
    call.name == SetLoggingMode && AcceptsMode(call.args)
  }

  /** The dispatcher answers "Unknown tool" exactly for the names the catalog does
      not list, and such a call leaves the mode alone. */
  lemma UnknownToolIffNotListed(verbose: bool, call: Call)
    ensures Dispatch(verbose, call).result == ProtocolError("Unknown tool: " + call.name)
            <==> call.name !in ToolNames
    ensures call.name !in ToolNames ==> Dispatch(verbose, call).verbose == verbose
  {
    if call.name == ExecuteBash {
      assert "Command is required" != "Unknown tool: " + call.name by {
        assert |"Command is required"| != |"Unknown tool: " + call.name|;
      }
    }
  }

  /** Which failures are protocol-level: an unknown tool name, execute_bash without
      a truthy command, and a say_hello name or execute_bash command that cannot be
      interpolated. Every other call returns text. */
  lemma ProtocolErrorIff(verbose: bool, call: Call)
    ensures Dispatch(verbose, call).result.ProtocolError?
            <==> || call.name !in ToolNames
                 || (call.name == SayHello && Unprintable(call.args, "name"))
                 || (call.name == ExecuteBash && (!Present(call.args, "command") || Unprintable(call.args, "command")))
  {
  }

  /** The mode after any call: the requested one after a valid set_logging_mode,
      the old one after every other call, errors included. */
  lemma ModeChangesOnlyOnValidSet(verbose: bool, call: Call)
    ensures Dispatch(verbose, call).verbose
            == if SetsMode(call) then call.args["mode"] == Str("verbose") else verbose
  {
  }

  /** Repeating any call right after itself gives the same result and the same mode:
      in particular set_logging_mode is idempotent. */
  lemma {:induction false} EveryCallIdempotent(verbose: bool, call: Call)
    ensures Dispatch(Dispatch(verbose, call).verbose, call) == Dispatch(verbose, call)
  {
    ModeChangesOnlyOnValidSet(verbose, call);
    if SetsMode(call) {
      var after := Dispatch(verbose, call).verbose;
      ModeChangesOnlyOnValidSet(after, call);
    }
  }

  /** get_logging_mode reports the session's mode and leaves it as it was. */
  lemma ReadsModeOnly(verbose: bool, call: Call)
    requires call.name == GetLoggingMode
    ensures Dispatch(verbose, call) == Reply(ReportLoggingMode(verbose), verbose)
  {
  }

  /** set_logging_mode followed by get_logging_mode reports the mode just set. */
  lemma SetThenGetReports(verbose: bool, setCall: Call, getCall: Call, m: string)
    requires setCall.name == SetLoggingMode && "mode" in setCall.args && setCall.args["mode"] == Str(m)
    requires m in Modes
    requires getCall.name == GetLoggingMode
    ensures Dispatch(Dispatch(verbose, setCall).verbose, getCall).result
         == ReportLoggingMode(m == "verbose")
  {
    assert AcceptsMode(setCall.args);
    ModeChangesOnlyOnValidSet(verbose, setCall);
    ReadsModeOnly(Dispatch(verbose, setCall).verbose, getCall);
  }

  /** The `mode` values set_logging_mode accepts are exactly those its catalog
      schema admits: there validation agrees with the declared `enum`. */
  lemma ModeSchemaAgreesWithCheck(args: Args)
    ensures Conforms(SetLoggingModeTool.inputSchema, args) <==> AcceptsMode(args)
  {
    var schema := SetLoggingModeTool.inputSchema;
    assert schema.required == ["mode"] && schema.properties == [ModeProperty];
    if AcceptsMode(args) {
      assert args["mode"].s in Modes;
    }
  }

  /** execute_bash's schema and its check disagree both ways: the empty command
      conforms but is refused with a protocol error, a truthy non-string command
      that converts to text does not conform but gets a text result: `exec`
      throws its type error inside the `try`, and the `catch` reports it. */
  lemma CommandCheckDiffersFromSchema(verbose: bool, now: string, outcome: Executor.CommandOutcome, display: string)
    ensures Conforms(ExecuteBashTool.inputSchema, map["command" := Str("")])
    ensures Dispatch(verbose, Call(ExecuteBash, map["command" := Str("")], now, outcome)).result.ProtocolError?
    ensures !Conforms(ExecuteBashTool.inputSchema, map["command" := NonString(Some(display), true)])
    ensures Dispatch(verbose, Call(ExecuteBash, map["command" := NonString(Some(display), true)], now, outcome)).result.Text?
  {
    var schema := ExecuteBashTool.inputSchema;
    assert schema.required == ["command"] && schema.properties == [CommandProperty];
  }

  /** say_hello's `required` is advisory: a call without `name` does not conform to
      its schema and is answered with the default greeting all the same. */
  lemma NameIsOptional(verbose: bool, now: string, outcome: Executor.CommandOutcome)
    ensures !Conforms(SayHelloTool.inputSchema, map[])
    ensures Dispatch(verbose, Call(SayHello, map[], now, outcome)).result == Text("Hello, World" + Greeting)
  {
    assert "name" in SayHelloTool.inputSchema.required;
  }

  /** The mode after a sequence of calls, one at a time from `verbose`. */
  function Run(verbose: bool, calls: seq<Call>): bool
    decreases |calls|
  {
    if calls == [] then verbose else Run(Dispatch(verbose, calls[0]).verbose, calls[1..])
  }

  /** The results the calls observe, in order. */
  function Results(verbose: bool, calls: seq<Call>): (rs: seq<CallResult>)
    ensures |rs| == |calls|
    decreases |calls|
  {
    if calls == [] then []
    else [Dispatch(verbose, calls[0]).result] + Results(Dispatch(verbose, calls[0]).verbose, calls[1..])
  }

  /** The mode the last valid set_logging_mode in `calls` asked for, if there is one. */
  function LastModeSet(calls: seq<Call>): Option<bool>
  {
    if calls == [] then None
    else if SetsMode(calls[|calls| - 1]) then Some(calls[|calls| - 1].args["mode"] == Str("verbose"))
    else LastModeSet(calls[..|calls| - 1])
  }

  /** The mode a session that started in `initial` should be in after `calls`. */
  function ModeAfter(initial: bool, calls: seq<Call>): bool
  {
    match LastModeSet(calls)
    case Some(m) => m
    case None => initial
  }

  lemma {:induction false} RunSnoc(verbose: bool, calls: seq<Call>, last: Call)
    ensures Run(verbose, calls + [last]) == Dispatch(Run(verbose, calls), last).verbose
    decreases |calls|
  {
    if calls != [] {
      assert (calls + [last])[1..] == calls[1..] + [last];
      RunSnoc(Dispatch(verbose, calls[0]).verbose, calls[1..], last);
    }
  }

  /** After any sequence of calls the mode is the one the last valid
      set_logging_mode asked for, or the starting mode when there was none. */
  lemma {:induction false} RunFollowsLastSet(verbose: bool, calls: seq<Call>)
    ensures Run(verbose, calls) == ModeAfter(verbose, calls)
    decreases |calls|
  {
    if calls != [] {
      var init, last := calls[..|calls| - 1], calls[|calls| - 1];
      assert calls == init + [last];
      RunSnoc(verbose, init, last);
      RunFollowsLastSet(verbose, init);
      ModeChangesOnlyOnValidSet(Run(verbose, init), last);
    }
  }

  /** The i-th call is dispatched in the mode the calls before it left. */
  lemma {:induction false} ResultsAt(verbose: bool, calls: seq<Call>, i: nat)
    requires i < |calls|
    ensures Results(verbose, calls)[i] == Dispatch(Run(verbose, calls[..i]), calls[i]).result
    decreases i
  {
    if i > 0 {
      var next := Dispatch(verbose, calls[0]).verbose;
      ResultsAt(next, calls[1..], i - 1);
      assert calls[1..][..i - 1] == calls[..i][1..];
    }
  }

  /** Every call is dispatched in the mode the last valid set_logging_mode before
      it asked for, or in the starting mode when there was none. */
  lemma EachCallSeesLastSet(verbose: bool, calls: seq<Call>, i: nat)
    requires i < |calls|
    ensures Results(verbose, calls)[i] == Dispatch(ModeAfter(verbose, calls[..i]), calls[i]).result
  {
    ResultsAt(verbose, calls, i);
    RunFollowsLastSet(verbose, calls[..i]);
  }

  /** In a session that starts quiet, every get_logging_mode reports the mode of the
      latest valid set_logging_mode before it, or quiet when there was none: no call
      observes a mode that was never set. */
  lemma ObservedModeWasSet(calls: seq<Call>, i: nat)
    requires i < |calls| && calls[i].name == GetLoggingMode
    ensures Results(false, calls)[i]
         == ReportLoggingMode(ModeAfter(false, calls[..i]))
  {
    EachCallSeesLastSet(false, calls, i);
    ReadsModeOnly(ModeAfter(false, calls[..i]), calls[i]);
  }
}
