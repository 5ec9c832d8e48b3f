/** The MCPServer object: the session's one piece of mutable state, the logging
    mode, and the tools/call handler that reads and writes it. */
module McpServer {
  import opened Arguments
  import opened Catalog
  import opened Dispatcher
  import Executor

  class Server {
    /** `verboseLogging`: quiet when the process starts; only a valid
        set_logging_mode call writes it. */
    var verboseLogging: bool

    constructor ()
      ensures !verboseLogging
    {
      verboseLogging := false;
    }

    /** The tools/call handler. `now` is the clock reading get_time formats and
        `outcome` is what the shell does with execute_bash's command. */
    method CallTool(name: string, args: Args, now: string, outcome: Executor.CommandOutcome)
      returns (result: CallResult)
      modifies this
      ensures Reply(result, verboseLogging) == Dispatch(old(verboseLogging), Call(name, args, now, outcome))
      ensures verboseLogging != old(verboseLogging) ==> name == SetLoggingMode && AcceptsMode(args)
    {
      match name
      case "say_hello" =>
        result := GreetHello(args);
      case "get_time" =>
        result := ReportTime(now);
      case "execute_bash" =>
        result := RunCommand(args, outcome);
      case "set_logging_mode" =>
        if !AcceptsMode(args) {
          result := Text(ModeError);
        } else {
          var mode := args["mode"].s;
          verboseLogging := mode == "verbose";
          result := Text(Confirmation(mode));
        }
      case "get_logging_mode" =>
        result := ReportLoggingMode(verboseLogging);
      case _ =>
        result := ProtocolError("Unknown tool: " + name);
    }

    /** `getVerboseLogging`: the current mode, read without changing it. */
    method GetVerboseLogging() returns (verbose: bool)
      ensures verbose == verboseLogging
    {
      verbose := verboseLogging;
    }
  }
}
