# terminal-mcp server: tool registry and call dispatcher

A Dafny model of the `MCPServer` class of terminal-mcp, a Model Context Protocol
server that offers five tools over stdio: `say_hello`, `get_time`, `execute_bash`,
`set_logging_mode` and `get_logging_mode`. The model covers these parts:

- the tools/list catalog (`Catalog`). This is the ordered list of five tool
  descriptors, each with an input schema.
- the tools/call dispatcher (`Dispatcher`). It is a pure function from the
  session's logging mode and one call to the call's result and the new mode.
- the rendering of a shell command's outcome into the text `execute_bash` returns
  (`Executor`).
- the server object (`McpServer.Server`). It holds the one mutable field,
  `verboseLogging`. Its `CallTool` method runs the `switch` on the tool name in
  place and is proved to agree with the pure dispatcher.

Call arguments are JSON values (`Arguments.Value`). A string stays a string. Any
other JSON value keeps only what the handlers observe of it: whether JavaScript
treats it as truthy, and what a template literal turns it into. That conversion
can throw a TypeError, for an object whose `toString` is not callable such as
`{"toString": 0}`, so it is partial. This is how the model follows
`args?.name || "World"`, `!command` and `["verbose", "quiet"].includes(mode)`: the
empty string, `0` and `false` are all "missing", and a non-string `mode` is never
accepted. A `name` or `command` that cannot be converted makes its template throw,
so the call ends in a protocol error.

A call's result is either `ProtocolError(message)` (the handler throws) or
`Text(text)` (a single text content block). Some text results describe an error
that the server recovered from. Running the shell command and reading the clock
are not modelled. `CallTool` takes their results as parameters: a
`CommandOutcome` and an opaque timestamp string. The outcome is
`Completed(stdout, stderr)` for exit status 0. It is `Failed(message)` for every
error the `try` block at src/server.ts:142-151 catches: a rejection of `exec`, and
also the type error `exec` throws at once for a command that is not a string.

## Model

| member | source | states |
|---|---|---|
| Catalog.ListTools | src/server.ts:44-108 | The catalog lists exactly `say_hello`, `get_time`, `execute_bash`, `set_logging_mode`, `get_logging_mode`, in that order. The names are pairwise distinct. Every schema is self-consistent: its property names are distinct, every `required` name is a declared property, and every `enum` is non-empty. |
| Catalog.ToolNamesDistinct | src/server.ts:48-99 | No two of the five tool names are equal. |
| Catalog.SchemasConsistent | src/server.ts:50-104 | Each of the four distinct input schemas is self-consistent. |
| Catalog.FindsEachTool | src/server.ts:46-106 | Looking up each of the five names in the catalog finds that tool's own descriptor, so a name identifies its descriptor. The server never performs such a lookup. |
| Catalog.FindsDeclaredTool | src/server.ts:46-106 | In a list with distinct names, a lookup by a listed tool's name returns the tool at that position. |
| Executor.Render | src/server.ts:142-161 | Every report starts with `Command: <command>` and a newline. A completed command continues with `Output:` and a newline. A failed one continues with `Error: `. |
| Executor.KindsDiffer | src/server.ts:148-157 | A completed report never reads as a failure report, and a failure report never reads as a completed one. |
| Executor.FailureRoundTrip | src/server.ts:152-160 | A reader who knows the command gets back exactly the error message from a failure report. That report does not read as a completed command. |
| Executor.CompletedRoundTrip | src/server.ts:143-151 | A reader who knows the command gets back stdout, followed by the stderr segment, from a completed report. That report does not read as a failure. |
| Executor.ErrorSegmentIffStderr | src/server.ts:148 | A completed report is the header, the `Output:` line and stdout with nothing after them exactly when stderr is empty. |
| Executor.StreamsIndistinguishable | src/server.ts:148 | A command that writes `e` (non-empty) to stderr is reported exactly like one whose stdout ends with a newline, `Error:`, a newline and `e`. The format does not keep the two streams apart. |
| Dispatcher.GreetHello | src/server.ts:115-124 | `say_hello` throws exactly when `name` is truthy but cannot be converted to text, with the TypeError's message. A missing or falsy `name` yields `Hello, World! This is a greeting from the MCP server.`. A truthy name that converts to `n` yields the same sentence with `n` in place of `World`. |
| Dispatcher.ReportTime | src/server.ts:126-134 | `get_time` returns text. The text is `Current time: ` followed by exactly the timestamp. |
| Dispatcher.RunCommand | src/server.ts:136-161 | `execute_bash` throws `Command is required` when `command` is missing or falsy. It throws the TypeError's message when `command` cannot be converted to text. Otherwise it returns exactly the rendering of the command and its outcome, whatever the outcome. |
| Dispatcher.ChangeLoggingMode | src/server.ts:162-183 | `set_logging_mode` always returns text. A missing, falsy, non-string or unknown `mode` gives `Error: Mode must be either 'verbose' or 'quiet'` and keeps the mode. A valid one sets the mode to `mode == "verbose"`. The confirmation names that mode after `Logging mode set to: `, and after the mode comes `. ` and then `Will show detailed process steps.` for verbose and `Will return only final answers.` for quiet. |
| Dispatcher.ReportLoggingMode | src/server.ts:185-193 | `get_logging_mode` returns text. The word after `Current logging mode: ` is `verbose` exactly when the mode is verbose, and `quiet` exactly when it is quiet. After the word comes `. ` and then `Showing detailed process steps.` for verbose and `Returning only final answers.` for quiet. |
| Dispatcher.UnknownToolIffNotListed | src/server.ts:195-196 | The result is the protocol error `Unknown tool: <name>` exactly when the name is not one of the five listed tools. Such a call leaves the mode unchanged. |
| Dispatcher.ProtocolErrorIff | src/server.ts:114-197 | A call ends in a protocol error exactly in three cases: the tool is unknown; it is `say_hello` with a truthy `name` that cannot be converted to text; or it is `execute_bash` whose `command` is missing, falsy or cannot be converted. Every other call returns text, recovered errors included. |
| Dispatcher.ModeChangesOnlyOnValidSet | src/server.ts:163-175 | After any call the mode is `mode == "verbose"` if the call was a valid `set_logging_mode`, and unchanged otherwise. |
| Dispatcher.EveryCallIdempotent | src/server.ts:162-193 | Repeating any call right after itself, with the same clock reading and command outcome, gives the same result and the same mode. In particular, `set_logging_mode` is idempotent. In the program, repeating `get_time` or `execute_bash` can give a different result, because the clock or the shell answers differently. |
| Dispatcher.ReadsModeOnly | src/server.ts:185-193 | `get_logging_mode` reports the current mode and leaves it unchanged. |
| Dispatcher.SetThenGetReports | src/server.ts:175-193 | A valid `set_logging_mode` to `m`, followed by `get_logging_mode`, reports `m`. |
| Dispatcher.ModeSchemaAgreesWithCheck | src/server.ts:84-173 | The arguments that conform to `set_logging_mode`'s declared schema are exactly those its handler accepts. |
| Dispatcher.CommandCheckDiffersFromSchema | src/server.ts:70-140 | `execute_bash` refuses the empty command, although it conforms to the schema. A truthy non-string command that converts to text does not conform, yet the call returns text: the failure report of the type error `exec` throws. |
| Dispatcher.NameIsOptional | src/server.ts:47-124 | An empty arguments object does not conform to `say_hello`'s schema (`name` is required), yet the call returns the default greeting. |
| Dispatcher.RunFollowsLastSet | src/server.ts:162-193 | After any sequence of calls, the mode is the one the last valid `set_logging_mode` asked for, or the starting mode when there was none. |
| Dispatcher.EachCallSeesLastSet | src/server.ts:111-197 | Each call in a sequence is handled in the mode the last valid `set_logging_mode` before it asked for, or in the starting mode. |
| Dispatcher.ObservedModeWasSet | src/server.ts:175-190 | In a session that starts quiet, every `get_logging_mode` reports the mode of the latest valid `set_logging_mode` before it, or quiet. No call observes a mode that was never set. |
| McpServer.Server.constructor | src/server.ts:24 | A new server is in quiet mode. |
| McpServer.Server.CallTool | src/server.ts:111-197 | Each call's result and the new `verboseLogging` are exactly what the dispatcher gives for the old mode. The field changes only on a valid `set_logging_mode`. |
| McpServer.Server.GetVerboseLogging | src/server.ts:202-204 | Returns the current `verboseLogging` and changes nothing. |

## Left out

- Spawning the shell through `child_process.exec` and `promisify` (src/server.ts:12-15, 143) is foreign I/O. Its result is the `CommandOutcome` parameter. Which commands complete, and with what streams or messages, is not modelled.
- RunCommand: for a non-string command, `exec` always throws its type error, so in the program the outcome is then always `Failed`. The model does not tie the `outcome` parameter to the command's type.
- The TypeError's message is V8's wording, `Cannot convert object to primitive value`. Another JavaScript engine may word it differently.
- Reading the clock and formatting it with `toISOString` (src/server.ts:131) is not modelled. The timestamp is an opaque string parameter, so whether it is valid ISO-8601 is not stated.
- The protocol library: constructing the SDK `Server`, registering the handlers, the stdio transport and `start()` (src/server.ts:27-44, 111, 213-217). These are library plumbing and I/O. How a thrown error becomes an error response is the library's concern.
- The private `log` method (src/server.ts:207-211) only writes to the console. It reads `verboseLogging` and changes nothing.
- `async` handlers and promises. Calls are modelled as running one at a time, in the order they arrive.
- The tool descriptions are carried as data, and no property is stated about them. Every input schema has `type: "object"`; the model leaves that field implicit and does not represent it.
- A result's `content` is always a list holding one text block. The model keeps only that block's text.
- src/index.ts (command-line dispatch and process start-up) is not part of this model.
