/** The `MessageCommand` factory (src/commands/MessageCommand.ts). */
module MessageCommandFactory {
  import opened Wrappers
  import opened Js
  import opened Errors
  import opened Guards
  import opened Definitions
  import opened CommandFactory

  const ContextNames: seq<string> := ["BotDM", "Guild"]
  const ContextValues: seq<Val> := [Str("BotDM"), Str("Guild")]

  /** The guards `MessageCommand` runs before delegating to `Command`, in order. */
  function MessageGuards(o: Val): seq<Guard> {
    var aliases := Prop(o, "aliases");
    var usage := Prop(o, "usage");
    var contexts := Prop(o, "contexts");
    var execute := Prop(o, "execute");
    var devOnly := Prop(o, "devOnly");
    [ Guard(!IsNullish(o), PropertyReadError(o, "aliases")),
      Guard(!Truthy(aliases) || aliases.Arr?, TypeErr(InvalidType("aliases", "array", TypeOf(aliases)))),
      Guard(!Truthy(usage) || usage.Str?, TypeErr(InvalidType("usage", "string", TypeOf(usage)))),
      Guard(!Truthy(contexts) || contexts.Arr?, TypeErr(InvalidType("contexts", "array", TypeOf(contexts)))),
      Guard(OptionalList(contexts, ContextValues), Error(InvalidValues("contexts", ContextNames))),
      Guard(Truthy(execute), Error(InvalidOption("execute"))),
      Guard(execute.Func?, TypeErr(InvalidType("execute", "function", TypeOf(execute)))),
      Guard(devOnly.Undefined? || devOnly.Bool?, TypeErr(InvalidType("devOnly", "boolean", TypeOf(devOnly))))
    ]
  }

  /** The options after the defaults are written into them: contexts ['Guild'], devOnly false. */
  function MessageDefaults(o: Val): Val {
    var withContexts := WithDefault(o, "contexts", Arr([Str("Guild")]));
    if Prop(withContexts, "devOnly").Undefined? then SetProp(withContexts, "devOnly", Bool(false)) else withContexts
  }

  /** What `MessageCommand` accepts, stated property by property. */
  predicate ValidMessageOptions(o: Val, isResolvable: Val -> bool) {
    && o.Obj?
    && (!Truthy(Prop(o, "aliases")) || Prop(o, "aliases").Arr?)
    && (!Truthy(Prop(o, "usage")) || Prop(o, "usage").Str?)
    && OptionalList(Prop(o, "contexts"), ContextValues)
    && Prop(o, "execute").Func?
    && (Prop(o, "devOnly").Undefined? || Prop(o, "devOnly").Bool?)
    && ValidCommandOptions(WithCommandType(MessageDefaults(o), "Message"), isResolvable)
  }

  lemma MessageGuardsPassIffValid(o: Val)
    ensures AllPass(MessageGuards(o)) <==>
      && o.Obj?
      && (!Truthy(Prop(o, "aliases")) || Prop(o, "aliases").Arr?)
      && (!Truthy(Prop(o, "usage")) || Prop(o, "usage").Str?)
      && OptionalList(Prop(o, "contexts"), ContextValues)
      && Prop(o, "execute").Func?
      && (Prop(o, "devOnly").Undefined? || Prop(o, "devOnly").Bool?)
  {
    var g := MessageGuards(o);
    if AllPass(g) {
      assert g[0].ok && g[1].ok && g[2].ok && g[3].ok && g[4].ok && g[5].ok && g[6].ok && g[7].ok;
    }
  }

  /** `MessageCommand(options)`: the message guards, the defaults, then `Command` with type Message. */
  function MessageCommand(o: Val, isResolvable: Val -> bool): (r: Result<Definitions.Command, Cause>)
    ensures r.Success? <==> ValidMessageOptions(o, isResolvable)
    ensures FirstFailure(MessageGuards(o)).Some? ==> r == Failure(FirstFailure(MessageGuards(o)).value)
  {
    var g := MessageGuards(o);
    FirstFailureSpec(g);
    MessageGuardsPassIffValid(o);
    match FirstFailure(g)
    case Some(e) => Failure(e)
    case None => CommandFactory.Command(WithCommandType(MessageDefaults(o), "Message"), isResolvable)
  }

  /**
   * Once the message guards pass, the result is whatever `Command` makes of the
   * options with the defaults and type Message: a failure is the error of the
   * first of `Command`'s own guards that fails.
   */
  lemma MessageCommandDelegates(o: Val, isResolvable: Val -> bool)
    requires FirstFailure(MessageGuards(o)).None?
    ensures o.Obj?
    ensures MessageCommand(o, isResolvable) == CommandFactory.Command(WithCommandType(MessageDefaults(o), "Message"), isResolvable)
    ensures var spread := WithCommandType(MessageDefaults(o), "Message");
      MessageCommand(o, isResolvable).Failure? ==>
        exists i :: FailsFirstAt(CommandGuards(spread, isResolvable), i)
                 && MessageCommand(o, isResolvable).error == CommandGuards(spread, isResolvable)[i].error
  {
    FirstFailureSpec(MessageGuards(o));
    MessageGuardsPassIffValid(o);
  }

  /** Options that pass the message guards but have no name fail in `Command` with InvalidOption("name"). */
  lemma MessageNameRequired(fields: map<string, Val>, isResolvable: Val -> bool)
    requires FirstFailure(MessageGuards(Obj(fields))).None?
    requires !Truthy(Get(fields, "name"))
    ensures MessageCommand(Obj(fields), isResolvable) == Failure(Error(InvalidOption("name")))
  {
    var o := Obj(fields);
    MessageCommandDelegates(o, isResolvable);
    MessageSpread(o);
    CommandNameRequired(WithCommandType(MessageDefaults(o), "Message").fields, isResolvable);
  }

  lemma MessageSpread(o: Val)
    requires o.Obj?
    ensures var spread := WithCommandType(MessageDefaults(o), "Message");
      && Prop(spread, "contexts") == (if Truthy(Prop(o, "contexts")) then Prop(o, "contexts") else Arr([Str("Guild")]))
      && Prop(spread, "devOnly") == (if Prop(o, "devOnly").Undefined? then Bool(false) else Prop(o, "devOnly"))
      && Prop(spread, "commandType") == Str("Message")
      && Prop(spread, "aliases") == Prop(o, "aliases")
      && Prop(spread, "name") == Prop(o, "name")
  {
  }

  lemma DelegatedCommand(o: Val, isResolvable: Val -> bool)
    requires o.Obj? && ValidCommandOptions(WithCommandType(MessageDefaults(o), "Message"), isResolvable)
    ensures CommandFactory.Command(WithCommandType(MessageDefaults(o), "Message"), isResolvable).Success?
    ensures var c := CommandFactory.Command(WithCommandType(MessageDefaults(o), "Message"), isResolvable).value;
      && c.commandType == Definitions.Message
      && Str(c.name) == Prop(o, "name") && c.id == "Message:" + c.name
      && c.Field("contexts") == (if Truthy(Prop(o, "contexts")) then Prop(o, "contexts") else Arr([Str("Guild")]))
      && c.Field("devOnly") == (if Prop(o, "devOnly").Undefined? then Bool(false) else Prop(o, "devOnly"))
      && c.Field("aliases") == Prop(o, "aliases")
  {
    MessageSpread(o);
    CommandResult(WithCommandType(MessageDefaults(o), "Message"), isResolvable);
  }

  /**
   * An accepted message command has type Message, id `Message:<name>`, its
   * aliases, contexts ['Guild'] unless given, and devOnly false unless given.
   */
  lemma MessageCommandResult(o: Val, isResolvable: Val -> bool)
    requires ValidMessageOptions(o, isResolvable)
    ensures MessageCommand(o, isResolvable).Success?
    ensures var c := MessageCommand(o, isResolvable).value;
      && c.commandType == Definitions.Message
      && Str(c.name) == Prop(o, "name") && c.id == "Message:" + c.name
      && c.Field("contexts") == (if Truthy(Prop(o, "contexts")) then Prop(o, "contexts") else Arr([Str("Guild")]))
      && c.Field("devOnly") == (if Prop(o, "devOnly").Undefined? then Bool(false) else Prop(o, "devOnly"))
      && c.Field("aliases") == Prop(o, "aliases")
  {
    MessageGuardsPassIffValid(o);
    FirstFailureSpec(MessageGuards(o));
    MessageCommandDelegates(o, isResolvable);
    DelegatedCommand(o, isResolvable);
  }

  /** The message-specific checks come first: bad contexts are reported even when the name is missing. */
  lemma MessageChecksFirst(fields: map<string, Val>, isResolvable: Val -> bool)
    requires !Truthy(Get(fields, "aliases")) && !Truthy(Get(fields, "usage"))
    requires Get(fields, "contexts").Arr? && !AllIn(Get(fields, "contexts"), ContextValues)
    ensures MessageCommand(Obj(fields), isResolvable) == Failure(Error(InvalidValues("contexts", ContextNames)))
  {
    var g := MessageGuards(Obj(fields));
    assert g[..4] == [g[0], g[1], g[2], g[3]];
    FirstFailureAt(g, 4);
  }

  /** `devOnly` must be a boolean when it is given at all: null is rejected. */
  lemma MessageDevOnlyChecked(fields: map<string, Val>, isResolvable: Val -> bool)
    requires ValidMessageOptions(Obj(fields), isResolvable)
    ensures MessageCommand(Obj(fields["devOnly" := Null]), isResolvable)
            == Failure(TypeErr(InvalidType("devOnly", "boolean", "object")))
  {
    var o := Obj(fields["devOnly" := Null]);
    var g := MessageGuards(o);
    assert g[..7] == [g[0], g[1], g[2], g[3], g[4], g[5], g[6]];
    FirstFailureAt(g, 7);
  }
}
