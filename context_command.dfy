/** The `ContextCommand` factory (src/commands/ContextCommand.ts). */
module ContextCommandFactory {
  import opened Wrappers
  import opened Js
  import opened Errors
  import opened Guards
  import opened Definitions
  import opened Utils
  import opened CommandFactory
  import SlashCommandFactory

  const ContextTypeNames: seq<string> := ["ContextUser", "ContextMessage"]
  const ContextTypeValues: seq<Val> := [Str("ContextUser"), Str("ContextMessage")]
  const IntegrationValueNames: seq<string> := ["GuildInstall", "UserInstall", "0", "1"]

  /** The guards `ContextCommand` runs before delegating to `Command`, in order. */
  function ContextGuards(o: Val): seq<Guard> {
    var commandType := Prop(o, "commandType");
    var scope := Prop(o, "commandScope");
    var contexts := Prop(o, "commandContexts");
    var types := Prop(o, "integrationTypes");
    var execute := Prop(o, "execute");
    [ Guard(!IsNullish(o), PropertyReadError(o, "commandType")),
      Guard(Truthy(commandType), Error(InvalidOption("commandType"))),
      // the scope's type is checked here, so a missing scope is reported against commandType
      Guard(scope.Str? && commandType in ContextTypeValues, Error(InvalidValue("commandType", ContextTypeNames))),
      Guard(Truthy(scope), Error(InvalidOption("commandScope"))),
      Guard(scope.Str? && scope in SlashCommandFactory.ScopeValues, Error(InvalidValue("commandScope", SlashCommandFactory.ScopeNames))),
      Guard(!Truthy(contexts) || contexts.Arr?, TypeErr(InvalidType("commandContexts", "Array", TypeOf(contexts)))),
      Guard(OptionalList(contexts, ContextValues), Error(InvalidValues("commandContexts", SlashCommandFactory.ContextValueNames))),
      Guard(!Truthy(types) || types.Arr?, TypeErr(InvalidType("integrationTypes", "Array", TypeOf(types)))),
      Guard(OptionalList(types, IntegrationValues), Error(InvalidValues("integrationTypes", IntegrationValueNames))),
      Guard(Truthy(execute), Error(InvalidOption("execute"))),
      Guard(execute.Func?, TypeErr(InvalidType("execute", "function", TypeOf(execute))))
    ]
  }

  /** The object `Command` receives: the defaults written into the options, and their own command type. */
  function ContextSpread(o: Val): Val {
    var withDefaults := SlashCommandFactory.SlashDefaults(o);
    Obj((if withDefaults.Obj? then withDefaults.fields else map[])["commandType" := Prop(o, "commandType")])
  }

  /** What `ContextCommand` accepts, stated property by property. */
  predicate ValidContextOptions(o: Val, isResolvable: Val -> bool) {
    && o.Obj?
    && Prop(o, "commandType") in ContextTypeValues
    && Prop(o, "commandScope") in SlashCommandFactory.ScopeValues
    && OptionalList(Prop(o, "commandContexts"), ContextValues)
    && OptionalList(Prop(o, "integrationTypes"), IntegrationValues)
    && Prop(o, "execute").Func?
    && ValidCommandOptions(ContextSpread(o), isResolvable)
  }

  lemma ContextGuardsPassIffValid(o: Val)
    ensures AllPass(ContextGuards(o)) <==>
      && o.Obj?
      && Prop(o, "commandType") in ContextTypeValues
      && Prop(o, "commandScope") in SlashCommandFactory.ScopeValues
      && OptionalList(Prop(o, "commandContexts"), ContextValues)
      && OptionalList(Prop(o, "integrationTypes"), IntegrationValues)
      && Prop(o, "execute").Func?
  {
    var g := ContextGuards(o);
    if AllPass(g) {
      assert g[0].ok && g[1].ok && g[2].ok && g[3].ok && g[4].ok && g[5].ok;
      assert g[6].ok && g[7].ok && g[8].ok && g[9].ok && g[10].ok;
    }
  }

  /** `ContextCommand(options)`: the context guards, the defaults, then `Command` with the given type. */
  function ContextCommand(o: Val, isResolvable: Val -> bool): (r: Result<Definitions.Command, Cause>)
    ensures r.Success? <==> ValidContextOptions(o, isResolvable)
    ensures FirstFailure(ContextGuards(o)).Some? ==> r == Failure(FirstFailure(ContextGuards(o)).value)
  {
    var g := ContextGuards(o);
    FirstFailureSpec(g);
    ContextGuardsPassIffValid(o);
    match FirstFailure(g)
    case Some(e) => Failure(e)
    case None => CommandFactory.Command(ContextSpread(o), isResolvable)
  }

  /**
   * Once the context guards pass, the result is whatever `Command` makes of the
   * options with the defaults: a failure is the error of the first of
   * `Command`'s own guards that fails.
   */
  lemma ContextCommandDelegates(o: Val, isResolvable: Val -> bool)
    requires FirstFailure(ContextGuards(o)).None?
    ensures o.Obj?
    ensures ContextCommand(o, isResolvable) == CommandFactory.Command(ContextSpread(o), isResolvable)
    ensures ContextCommand(o, isResolvable).Failure? ==>
      exists i :: FailsFirstAt(CommandGuards(ContextSpread(o), isResolvable), i)
               && ContextCommand(o, isResolvable).error == CommandGuards(ContextSpread(o), isResolvable)[i].error
  {
    FirstFailureSpec(ContextGuards(o));
    ContextGuardsPassIffValid(o);
  }

  /** Options that pass the context guards but have no name fail in `Command` with InvalidOption("name"). */
  lemma ContextNameRequired(fields: map<string, Val>, isResolvable: Val -> bool)
    requires FirstFailure(ContextGuards(Obj(fields))).None?
    requires !Truthy(Get(fields, "name"))
    ensures ContextCommand(Obj(fields), isResolvable) == Failure(Error(InvalidOption("name")))
  {
    var o := Obj(fields);
    ContextCommandDelegates(o, isResolvable);
    ContextSpreadProps(o);
    CommandNameRequired(ContextSpread(o).fields, isResolvable);
  }

  lemma ContextSpreadProps(o: Val)
    requires o.Obj?
    ensures var spread := ContextSpread(o);
      && Prop(spread, "commandContexts") == (if Truthy(Prop(o, "commandContexts")) then Prop(o, "commandContexts") else Arr([Num(0)]))
      && Prop(spread, "integrationTypes") == (if Truthy(Prop(o, "integrationTypes")) then Prop(o, "integrationTypes") else Arr([Num(0)]))
      && Prop(spread, "commandType") == Prop(o, "commandType")
      && Prop(spread, "commandScope") == Prop(o, "commandScope")
      && Prop(spread, "name") == Prop(o, "name")
      && Prop(spread, "memberPermissions") == Prop(o, "memberPermissions")
  {
  }

  lemma DelegatedCommand(o: Val, isResolvable: Val -> bool)
    requires o.Obj? && ValidCommandOptions(ContextSpread(o), isResolvable)
    ensures CommandFactory.Command(ContextSpread(o), isResolvable).Success?
    ensures var c := CommandFactory.Command(ContextSpread(o), isResolvable).value;
      && Str(TypeName(c.commandType)) == Prop(o, "commandType")
      && Str(c.name) == Prop(o, "name") && c.id == TypeName(c.commandType) + ":" + c.name
      && c.Field("commandScope") == Prop(o, "commandScope")
      && c.Field("commandContexts") == (if Truthy(Prop(o, "commandContexts")) then Prop(o, "commandContexts") else Arr([Num(0)]))
      && c.Field("integrationTypes") == (if Truthy(Prop(o, "integrationTypes")) then Prop(o, "integrationTypes") else Arr([Num(0)]))
      && c.memberPermissions == Coalesce(Prop(o, "memberPermissions"), Undefined)
  {
    ContextSpreadProps(o);
    CommandResult(ContextSpread(o), isResolvable);
  }

  /**
   * An accepted context-menu command is a ContextUser or ContextMessage
   * command with id `<type>:<name>`, its scope, and the default [Guild] /
   * [GuildInstall] lists where none were given.
   */
  lemma ContextCommandResult(o: Val, isResolvable: Val -> bool)
    requires ValidContextOptions(o, isResolvable)
    ensures ContextCommand(o, isResolvable).Success?
    ensures var c := ContextCommand(o, isResolvable).value;
      && (c.commandType == ContextUser || c.commandType == ContextMessage)
      && Str(TypeName(c.commandType)) == Prop(o, "commandType")
      && Str(c.name) == Prop(o, "name") && c.id == TypeName(c.commandType) + ":" + c.name
      && c.Field("commandScope") == Prop(o, "commandScope")
      && c.Field("commandContexts") == (if Truthy(Prop(o, "commandContexts")) then Prop(o, "commandContexts") else Arr([Num(0)]))
      && c.Field("integrationTypes") == (if Truthy(Prop(o, "integrationTypes")) then Prop(o, "integrationTypes") else Arr([Num(0)]))
      && c.memberPermissions == Coalesce(Prop(o, "memberPermissions"), Undefined)
  {
    ContextGuardsPassIffValid(o);
    FirstFailureSpec(ContextGuards(o));
    ContextCommandDelegates(o, isResolvable);
    DelegatedCommand(o, isResolvable);
    ContextTypeOnly(ContextCommand(o, isResolvable).value.commandType);
  }

  /** Only the two context-menu types are named by an accepted `commandType`. */
  lemma ContextTypeOnly(t: CommandType)
    ensures Str(TypeName(t)) in ContextTypeValues <==> t == ContextUser || t == ContextMessage
  {
  }

  /** Without a string scope the error is InvalidValue on commandType, even for a valid command type. */
  lemma MissingScopeReportedAsCommandType(fields: map<string, Val>, isResolvable: Val -> bool)
    requires Truthy(Get(fields, "commandType")) && !Get(fields, "commandScope").Str?
    ensures ContextCommand(Obj(fields), isResolvable) == Failure(Error(InvalidValue("commandType", ContextTypeNames)))
  {
    var g := ContextGuards(Obj(fields));
    assert g[..2] == [g[0], g[1]];
    FirstFailureAt(g, 2);
  }

  /** A missing command type is an InvalidOption; a bad element in integrationTypes an InvalidValues. */
  lemma ContextChecks(fields: map<string, Val>, isResolvable: Val -> bool)
    ensures !Truthy(Get(fields, "commandType")) ==>
      ContextCommand(Obj(fields), isResolvable) == Failure(Error(InvalidOption("commandType")))
    ensures Get(fields, "commandType") in ContextTypeValues && Get(fields, "commandScope") in SlashCommandFactory.ScopeValues
            && OptionalList(Get(fields, "commandContexts"), ContextValues)
            && Get(fields, "integrationTypes").Arr? && !AllIn(Get(fields, "integrationTypes"), IntegrationValues) ==>
      ContextCommand(Obj(fields), isResolvable) == Failure(Error(InvalidValues("integrationTypes", IntegrationValueNames)))
  {
    var g := ContextGuards(Obj(fields));
    if !Truthy(Get(fields, "commandType")) {
      assert g[..1] == [g[0]];
      FirstFailureAt(g, 1);
    } else if Get(fields, "commandType") in ContextTypeValues && Get(fields, "commandScope") in SlashCommandFactory.ScopeValues
              && OptionalList(Get(fields, "commandContexts"), ContextValues)
              && Get(fields, "integrationTypes").Arr? && !AllIn(Get(fields, "integrationTypes"), IntegrationValues) {
      assert g[..8] == [g[0], g[1], g[2], g[3], g[4], g[5], g[6], g[7]];
      FirstFailureAt(g, 8);
    }
  }
}
