/** Registration of tools, and one tool call: what reaches the tool and what comes back. */
module Tools {
  import opened Json
  import opened Types
  import opened Schema

  datatype ToolSpec = ToolSpec(name: string, description: string, inputSchema: Json, providerOptions: Json)

  /** `tool` identifies the shared tool object, which several clients may register. */
  datatype Offer = Offer(tool: nat, spec: ToolSpec)

  datatype Registered = Registered(tool: nat, schema: Json)

  type Registry = map<string, Registered>

  predicate NameCharacter(c: char)
  {
    'A' <= c <= 'Z' || 'a' <= c <= 'z' || '0' <= c <= '9' || c == '_' || c == '-'
  }

  predicate ValidToolName(name: string)
  {
    name != [] && |name| <= 64 && forall i | 0 <= i < |name| :: NameCharacter(name[i])
  }

  /** Which names tools may have, by the codes of their characters: one to sixty-four letters,
      digits, underscores and hyphens of ASCII. */
  lemma {:induction false} ToolNamesExactly(name: string)
    ensures ValidToolName(name) <==>
              && 1 <= |name| <= 64
              && forall i | 0 <= i < |name| ::
                   var code := name[i] as int;
                   65 <= code <= 90 || 97 <= code <= 122 || 48 <= code <= 57 || code == 95 || code == 45
  {
  }

  predicate ObjectSchema(schema: Json)
  {
    WellFormed(schema) && Find(schema, "type") == Some(Str("object"))
  }

  predicate ValidSpec(spec: ToolSpec)
  {
    ValidToolName(spec.name) && spec.description != [] && ObjectSchema(spec.inputSchema) && spec.providerOptions.Obj?
  }

  /** The validation a client makes of a tool's declaration. */
  method ValidateToolSpec(spec: ToolSpec) returns (ok: bool)
    ensures ok <==> ValidSpec(spec)
    ensures !ok <==>
              || !ValidToolName(spec.name) || |spec.description| == 0
              || !WellFormed(spec.inputSchema)
              || !(spec.inputSchema.Obj? && "type" in spec.inputSchema.members
                   && spec.inputSchema.members["type"] == Str("object"))
              || !spec.providerOptions.Obj?
  {
    if !ValidToolName(spec.name) || spec.description == [] { return false; }
    DefinitionAccepted(spec.inputSchema, "tool '" + spec.name + "' input_schema");
    hide WellFormed, CheckDefinition;
    var complaint := CheckDefinition(spec.inputSchema, "tool '" + spec.name + "' input_schema");
    if complaint.Some? || !spec.providerOptions.Obj? { return false; }
    var root := Find(spec.inputSchema, "type");
    ok := root == Some(Str("object"));
  }

  predicate Distinct(offers: seq<Option<Offer>>)
  {
    forall i, j | 0 <= i < j < |offers| :: offers[i].Some? && offers[j].Some? ==> Name(offers[i]) != Name(offers[j])
  }

  function Name(offer: Option<Offer>): (name: string)
    requires offer.Some?
  {
    offer.value.spec.name
  }

  ghost predicate RegistryOk(registry: Registry)
  {
    forall name | name in registry :: ObjectSchema(registry[name].schema)
  }

  /** Construction of a client accepts its tools exactly when none is null, every declaration
      is valid, no two share a name, and the model takes tools unless there are none; the
      registry then holds exactly the offered tools. */
  method Register(offers: seq<Option<Offer>>, toolSupport: bool) returns (registry: Option<Registry>)
    ensures registry.Some? <==>
              && (forall i | 0 <= i < |offers| :: offers[i].Some? && ValidSpec(offers[i].value.spec))
              && Distinct(offers)
              && (toolSupport || offers == [])
    ensures registry.Some? ==>
              && RegistryOk(registry.value)
              && registry.value.Keys == (set i | 0 <= i < |offers| :: Name(offers[i]))
              && forall i | 0 <= i < |offers| ::
                   registry.value[Name(offers[i])] == Registered(offers[i].value.tool, offers[i].value.spec.inputSchema)
  {
    hide ValidSpec, ObjectSchema;
    var tools: Registry := map[];
    for n := 0 to |offers|
      invariant forall i | 0 <= i < n :: offers[i].Some? && ValidSpec(offers[i].value.spec)
      invariant forall i, j | 0 <= i < j < n :: Name(offers[i]) != Name(offers[j])
      invariant tools.Keys == (set i | 0 <= i < n :: Name(offers[i]))
      invariant forall i | 0 <= i < n ::
                  tools[Name(offers[i])] == Registered(offers[i].value.tool, offers[i].value.spec.inputSchema)
    {
      if offers[n].None? { return None; }
      var spec := offers[n].value.spec;
      var valid := ValidateToolSpec(spec);
      if !valid { return None; }
      if spec.name in tools {
        var i :| 0 <= i < n && Name(offers[i]) == spec.name;
        return None;
      }
      tools := tools[spec.name := Registered(offers[n].value.tool, spec.inputSchema)];
    }
    if tools != map[] && !toolSupport { return None; }
    assert RegistryOk(tools) by {
      forall name | name in tools ensures ObjectSchema(tools[name].schema) {
        var i :| 0 <= i < |offers| && Name(offers[i]) == name;
        SpecSchema(offers[i].value.spec);
      }
    }
    assert offers != [] ==> Name(offers[0]) in tools;
    registry := Some(tools);
  }

  lemma {:induction false} SpecSchema(spec: ToolSpec)
    requires ValidSpec(spec)
    ensures ObjectSchema(spec.inputSchema)
  {
  }

  // ---- one call ----

  datatype ToolOutput = ToolOutput(contents: seq<Content>, isError: bool)

  /** What invoking the tool's code comes to. */
  datatype Invocation = Gave(output: ToolOutput) | Raised

  function ErrorOutput(text: string): (output: ToolOutput)
  {
    ToolOutput([Text(text)], true)
  }

  /** What becomes of a call before any tool code runs. `Escapes` is a type error in the
      argument check, which nothing would catch. */
  datatype Admission = Refused(text: string) | Admitted(tool: nat) | Escapes

  function Admit(registry: Registry, call: ToolCall): (admission: Admission)
  {
    if call.name !in registry then Refused("unknown tool: " + call.name)
    else if !call.argumentsValid then
      Refused("invalid JSON arguments for tool '" + call.name + "': " + call.rawArguments)
    else
      match Validate(call.arguments, registry[call.name].schema, "$")
      case TypeError => Escapes
      case Message(text) =>
        if text != [] then Refused("invalid arguments for tool '" + call.name + "': " + text)
        else Admitted(registry[call.name].tool)
  }

  function Conclude(call: ToolCall, admission: Admission, invocation: Invocation): (output: ToolOutput)
  {
    match admission
    case Admitted(_) =>
      (match invocation
       case Raised => ErrorOutput("tool '" + call.name + "' failed")
       case Gave(output) =>
         if output.contents == [] then ErrorOutput("tool '" + call.name + "' returned no content") else output)
    case Refused(text) => ErrorOutput(text)
    case Escapes => ErrorOutput("")
  }

  /** A call of a registered tool whose arguments parsed and conform to the schema it was
      registered with. */
  ghost predicate Conforming(registry: Registry, call: ToolCall)
  {
    call.name in registry && call.argumentsValid && Conforms(call.arguments, registry[call.name].schema)
  }

  /** Tool code runs exactly for conforming calls; their arguments are then an object. Nothing
      escapes the argument check. */
  lemma {:induction false} AdmittedExactly(registry: Registry, call: ToolCall)
    requires RegistryOk(registry)
    ensures !Admit(registry, call).Escapes?
    ensures Admit(registry, call).Admitted? <==> Conforming(registry, call)
    ensures Admit(registry, call).Admitted? ==>
              && Admit(registry, call).tool == registry[call.name].tool
              && call.arguments.Obj?
  {
    hide WellFormed, Validate;
    if call.name in registry {
      assert ObjectSchema(registry[call.name].schema);
      ValidateDecides(call.arguments, registry[call.name].schema, "$");
    }
  }

  /** The tool ran and gave something. */
  ghost predicate Worked(registry: Registry, call: ToolCall, invocation: Invocation)
  {
    Conforming(registry, call) && invocation.Gave? && invocation.output.contents != []
  }

  /** Why a call did not work: the text that says so. */
  ghost predicate Explains(registry: Registry, call: ToolCall, invocation: Invocation, text: string)
  {
    if call.name !in registry then text == "unknown tool: " + call.name
    else if !call.argumentsValid then
      text == "invalid JSON arguments for tool '" + call.name + "': " + call.rawArguments
    else if !Conforming(registry, call) then
      exists complaint ::
        && Complains(call.arguments, registry[call.name].schema, "$", complaint)
        && text == "invalid arguments for tool '" + call.name + "': " + complaint
    else if invocation.Raised? then text == "tool '" + call.name + "' failed"
    else text == "tool '" + call.name + "' returned no content"
  }

  /** What a call comes to: just what the tool gave if it worked, and otherwise an error of one
      text that says why. */
  ghost predicate ComesTo(registry: Registry, call: ToolCall, invocation: Invocation, contents: seq<Content>,
                          isError: bool)
  {
    if Worked(registry, call, invocation) then
      contents == invocation.output.contents && (isError <==> invocation.output.isError)
    else
      && isError && |contents| == 1 && contents[0].Text?
      && Explains(registry, call, invocation, contents[0].value)
  }

  /** The complaint about arguments that do not conform is a true one, about the arguments. */
  lemma {:induction false} RefusedArguments(registry: Registry, call: ToolCall)
    requires RegistryOk(registry) && call.name in registry
    ensures var verdict := Validate(call.arguments, registry[call.name].schema, "$");
            && verdict.Message?
            && (verdict.text != [] ==>
                  Complains(call.arguments, registry[call.name].schema, "$", verdict.text))
  {
    var schema := registry[call.name].schema;
    assert ObjectSchema(schema);
    hide Complains, Validate, WellFormed;
    ValidateDecides(call.arguments, schema, "$");
    var verdict := Validate(call.arguments, schema, "$");
    if verdict.text != [] {
      ComplaintIsTrue(call.arguments, schema, "$");
    }
  }

  /** So it is for every call. In particular the output is an error exactly when the call did
      not work or the tool says so. */
  lemma {:induction false} OutputExactly(registry: Registry, call: ToolCall, invocation: Invocation)
    requires RegistryOk(registry)
    ensures var output := Conclude(call, Admit(registry, call), invocation);
            && ComesTo(registry, call, invocation, output.contents, output.isError)
            && (output.isError <==> !Worked(registry, call, invocation) || invocation.output.isError)
            && output.contents != []
  {
    AdmittedExactly(registry, call);
    hide WellFormed, Validate, Conforming, RegistryOk, Complains;
    if call.name in registry && call.argumentsValid {
      RefusedArguments(registry, call);
    }
  }
}
