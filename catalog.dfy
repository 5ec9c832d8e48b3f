/** The tools/list handler: the fixed, ordered catalog of the five tools the server
    advertises, each with a JSON-Schema-like description of its arguments. */
module Catalog {
  import opened Arguments

  /** One declared argument: its name, its JSON type, its description and, when the
      schema has an `enum`, the values it allows. */
  datatype Property = Property(name: string, jsonType: string, description: string, allowed: Option<seq<string>>)

  /** An `inputSchema` of type "object": its declared properties, in order, and the
      names listed under `required` (absent `required` is the empty list). */
  datatype Schema = Schema(properties: seq<Property>, required: seq<string>)

  datatype Tool = Tool(name: string, description: string, inputSchema: Schema)

  const SayHello := "say_hello"
  const GetTime := "get_time"
  const ExecuteBash := "execute_bash"
  const SetLoggingMode := "set_logging_mode"
  const GetLoggingMode := "get_logging_mode"

  /** The names the call dispatcher routes, in catalog order. */
  const ToolNames: seq<string> := [SayHello, GetTime, ExecuteBash, SetLoggingMode, GetLoggingMode]

  /** The allowed values of `set_logging_mode`'s `mode` argument. */
  const Modes: seq<string> := ["verbose", "quiet"]

  function Names(tools: seq<Tool>): (names: seq<string>)
    ensures |names| == |tools|
    ensures forall i :: 0 <= i < |tools| ==> names[i] == tools[i].name
  {
    if tools == [] then [] else [tools[0].name] + Names(tools[1..])
  }

  function PropertyNames(properties: seq<Property>): seq<string>
  {
    seq(|properties|, i requires 0 <= i < |properties| => properties[i].name)
  }

  predicate Distinct(names: seq<string>)
  {
    forall i, j :: 0 <= i < j < |names| ==> names[i] != names[j]
  }

  /** A schema is self-consistent when its property names are distinct, every
      required name is a declared property, and every `enum` is non-empty. */
  predicate SelfConsistent(schema: Schema)
  {
    && Distinct(PropertyNames(schema.properties))
    && (forall r :: r in schema.required ==> r in PropertyNames(schema.properties))
    && (forall p :: p in schema.properties && p.allowed.Some? ==> p.allowed.value != [])
  }

  /** JSON-Schema validation of an arguments object (additional properties allowed):
      every required key is present, and every declared key that is present holds a
      string, one of the `enum` values when the property has one. */
  predicate Conforms(schema: Schema, args: Args)
  {
    && (forall r :: r in schema.required ==> r in args)
    && (forall p :: p in schema.properties && p.name in args ==>
          args[p.name].Str? && (p.allowed.Some? ==> args[p.name].s in p.allowed.value))
  }

  const NameProperty := Property("name", "string", "The name of the person to greet", None)
  const CommandProperty := Property("command", "string", "The bash command to execute", None)
  const ModeProperty := Property("mode", "string",
    "Logging mode: 'verbose' shows detailed process steps, 'quiet' returns only final answers", Some(Modes))

  const SayHelloSchema := Schema([NameProperty], ["name"])
  const ExecuteBashSchema := Schema([CommandProperty], ["command"])
  const SetLoggingModeSchema := Schema([ModeProperty], ["mode"])
  const NoArguments := Schema([], [])

  const SayHelloTool := Tool(SayHello, "Says hello to a person", SayHelloSchema)
  const GetTimeTool := Tool(GetTime, "Gets the current time", NoArguments)
  const ExecuteBashTool := Tool(ExecuteBash, "Executes a bash command and returns the output", ExecuteBashSchema)
  const SetLoggingModeTool := Tool(SetLoggingMode,
    "Control the verbosity of responses - choose between verbose logging or concise answers", SetLoggingModeSchema)
  const GetLoggingModeTool := Tool(GetLoggingMode, "Get the current logging mode setting", NoArguments)

  lemma ToolNamesDistinct()
    ensures Distinct(ToolNames)
  {
    assert SetLoggingMode[0] != GetLoggingMode[0];
    forall i, j | 0 <= i < j < |ToolNames| ensures ToolNames[i] != ToolNames[j] {
      if |ToolNames[i]| == |ToolNames[j]| {
        assert i == 3 && j == 4;
      }
    }
  }

  lemma SchemasConsistent()
    ensures SelfConsistent(SayHelloSchema) && SelfConsistent(ExecuteBashSchema)
    ensures SelfConsistent(SetLoggingModeSchema) && SelfConsistent(NoArguments)
  {
    assert PropertyNames(SayHelloSchema.properties) == ["name"];
    assert PropertyNames(ExecuteBashSchema.properties) == ["command"];
    assert PropertyNames(SetLoggingModeSchema.properties) == ["mode"];
  }

  /** The list_tools response, in declaration order. */
  function ListTools(): (tools: seq<Tool>)
    ensures Names(tools) == ToolNames
    ensures Distinct(Names(tools))
    ensures forall t :: t in tools ==> SelfConsistent(t.inputSchema)
  {
    ToolNamesDistinct();
    SchemasConsistent();
    [SayHelloTool, GetTimeTool, ExecuteBashTool, SetLoggingModeTool, GetLoggingModeTool]
  }

  /** The catalog entry under a name, if any. The server itself never looks a tool
      up; this function and the two lemmas after it show that in the catalog a
      tool's name identifies its descriptor. */
  function Find(tools: seq<Tool>, name: string): (found: Option<Tool>)
    ensures found.Some? <==> name in Names(tools)
    ensures found.Some? ==> found.value in tools && found.value.name == name
  {
    if tools == [] then None
    else if tools[0].name == name then Some(tools[0])
    else Find(tools[1..], name)
  }

  /** Each tool name leads to its own catalog entry. */
  lemma FindsEachTool()
    ensures Find(ListTools(), SayHello) == Some(SayHelloTool)
    ensures Find(ListTools(), GetTime) == Some(GetTimeTool)
    ensures Find(ListTools(), ExecuteBash) == Some(ExecuteBashTool)
    ensures Find(ListTools(), SetLoggingMode) == Some(SetLoggingModeTool)
    ensures Find(ListTools(), GetLoggingMode) == Some(GetLoggingModeTool)
  {
    var tools := ListTools();
    FindsDeclaredTool(tools, 0);
    FindsDeclaredTool(tools, 1);
    FindsDeclaredTool(tools, 2);
    FindsDeclaredTool(tools, 3);
    FindsDeclaredTool(tools, 4);
  }

  /** Every tool the catalog advertises is found under its own name, and it is the
      one declared at that position. */
  lemma {:induction false} FindsDeclaredTool(tools: seq<Tool>, i: nat)
    requires i < |tools| && Distinct(Names(tools))
    ensures Find(tools, tools[i].name) == Some(tools[i])
  {
    if i > 0 {
      assert Names(tools)[0] != Names(tools)[i];
      assert Distinct(Names(tools[1..])) by {
        forall a, b | 0 <= a < b < |tools| - 1 ensures Names(tools[1..])[a] != Names(tools[1..])[b] {
          assert Names(tools)[a + 1] != Names(tools)[b + 1];
        }
      }
      FindsDeclaredTool(tools[1..], i - 1);
    }
  }
}
