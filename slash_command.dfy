/** The `SlashCommand` factory (src/commands/SlashCommand.ts). */
module SlashCommandFactory {
  import opened Wrappers
  import opened Text
  import opened Js
  import opened Errors
  import opened Guards
  import opened Definitions
  import opened Utils
  import opened CommandFactory

  const ScopeNames: seq<string> := ["default", "guild", "global"]
  const ScopeValues: seq<Val> := [Str("default"), Str("guild"), Str("global")]
  const ContextValueNames: seq<string> := ["Guild", "BotDM", "PrivateChannel", "0", "1", "2"]

  /** The guards `SlashCommand` runs before delegating to `Command`, in order. */
  function SlashGuards(o: Val): seq<Guard> {
    var scope := Prop(o, "commandScope");
    var contexts := Prop(o, "commandContexts");
    var types := Prop(o, "integrationTypes");
    var execute := Prop(o, "execute");
    [ Guard(!IsNullish(o), PropertyReadError(o, "commandScope")),
      Guard(Truthy(scope), Error(InvalidOption("commandScope"))),
      Guard(scope.Str? && scope in ScopeValues, Error(InvalidValue("commandScope", ScopeNames))),
      Guard(!Truthy(contexts) || contexts.Arr?, TypeErr(InvalidType("commandContexts", "Array", TypeOf(contexts)))),
      Guard(OptionalList(contexts, ContextValues), Error(InvalidValues("commandContexts", ContextValueNames))),
      Guard(!Truthy(types) || types.Arr?, TypeErr(InvalidType("integrationTypes", "Array", TypeOf(types)))),
      // a bad element is reported under the InvalidType id with the list as the expected type
      Guard(OptionalList(types, IntegrationValues),
            Error(InvalidType("integrationTypes", "GuildInstall,UserInstall,0,1", "undefined"))),
      Guard(Truthy(execute), Error(InvalidOption("execute"))),
      Guard(execute.Func?, TypeErr(InvalidType("execute", "function", TypeOf(execute))))
    ]
  }

  /** The options after the defaults are written into them: [Guild] contexts, [GuildInstall] integration types. */
  function SlashDefaults(o: Val): Val {
    WithDefault(WithDefault(o, "commandContexts", Arr([Num(0)])), "integrationTypes", Arr([Num(0)]))
  }

  /** What `SlashCommand` accepts, stated property by property. */
  predicate ValidSlashOptions(o: Val, isResolvable: Val -> bool) {
    && o.Obj?
    && Prop(o, "commandScope") in ScopeValues
    && OptionalList(Prop(o, "commandContexts"), ContextValues)
    && OptionalList(Prop(o, "integrationTypes"), IntegrationValues)
    && Prop(o, "execute").Func?
    && ValidCommandOptions(WithCommandType(SlashDefaults(o), "Slash"), isResolvable)
  }

  lemma SlashGuardsPassIffValid(o: Val)
    ensures AllPass(SlashGuards(o)) <==>
      && o.Obj?
      && Prop(o, "commandScope") in ScopeValues
      && OptionalList(Prop(o, "commandContexts"), ContextValues)
      && OptionalList(Prop(o, "integrationTypes"), IntegrationValues)
      && Prop(o, "execute").Func?
  {
    var g := SlashGuards(o);
    if AllPass(g) {
      assert g[0].ok && g[1].ok && g[2].ok && g[3].ok && g[4].ok && g[5].ok && g[6].ok && g[7].ok && g[8].ok;
    }
  }

  /** `SlashCommand(options)`: the slash guards, the defaults, then `Command` with type Slash. */
  function SlashCommand(o: Val, isResolvable: Val -> bool): (r: Result<Definitions.Command, Cause>)
    ensures r.Success? <==> ValidSlashOptions(o, isResolvable)
    ensures FirstFailure(SlashGuards(o)).Some? ==> r == Failure(FirstFailure(SlashGuards(o)).value)
  {
    var g := SlashGuards(o);
    FirstFailureSpec(g);
    SlashGuardsPassIffValid(o);
    match FirstFailure(g)
    case Some(e) => Failure(e)
    case None => CommandFactory.Command(WithCommandType(SlashDefaults(o), "Slash"), isResolvable)
  }

  /**
   * An accepted slash command has type Slash, id `Slash:<name>`, its scope and
   * handler, and the default [Guild] / [GuildInstall] lists where none were given.
   */
  lemma SlashCommandResult(o: Val, isResolvable: Val -> bool)
    requires ValidSlashOptions(o, isResolvable)
    ensures SlashCommand(o, isResolvable).Success?
    ensures var c := SlashCommand(o, isResolvable).value;
      && c.commandType == Slash
      && Str(c.name) == Prop(o, "name") && c.id == "Slash:" + c.name
      && c.Field("commandScope") == Prop(o, "commandScope")
      && c.Field("commandContexts") == (if Truthy(Prop(o, "commandContexts")) then Prop(o, "commandContexts") else Arr([Num(0)]))
      && c.Field("integrationTypes") == (if Truthy(Prop(o, "integrationTypes")) then Prop(o, "integrationTypes") else Arr([Num(0)]))
      && c.Field("execute") == Prop(o, "execute")
      && c.memberPermissions == Coalesce(Prop(o, "memberPermissions"), Undefined)
      && c.Field("options") == Prop(o, "options")
  {
    SlashGuardsPassIffValid(o);
    FirstFailureSpec(SlashGuards(o));
    SlashCommandDelegates(o, isResolvable);
    DelegatedCommand(o, isResolvable);
  }

  lemma DelegatedCommand(o: Val, isResolvable: Val -> bool)
    requires o.Obj? && ValidCommandOptions(WithCommandType(SlashDefaults(o), "Slash"), isResolvable)
    ensures CommandFactory.Command(WithCommandType(SlashDefaults(o), "Slash"), isResolvable).Success?
    ensures CommandFactory.Command(WithCommandType(SlashDefaults(o), "Slash"), isResolvable).value.commandType == Slash
    ensures var c := CommandFactory.Command(WithCommandType(SlashDefaults(o), "Slash"), isResolvable).value;
      Str(c.name) == Prop(o, "name") && c.id == "Slash:" + c.name
    ensures CommandFactory.Command(WithCommandType(SlashDefaults(o), "Slash"), isResolvable).value.Field("commandScope") == Prop(o, "commandScope")
    ensures CommandFactory.Command(WithCommandType(SlashDefaults(o), "Slash"), isResolvable).value.Field("commandContexts")
            == (if Truthy(Prop(o, "commandContexts")) then Prop(o, "commandContexts") else Arr([Num(0)]))
    ensures CommandFactory.Command(WithCommandType(SlashDefaults(o), "Slash"), isResolvable).value.Field("integrationTypes")
            == (if Truthy(Prop(o, "integrationTypes")) then Prop(o, "integrationTypes") else Arr([Num(0)]))
    ensures CommandFactory.Command(WithCommandType(SlashDefaults(o), "Slash"), isResolvable).value.Field("execute") == Prop(o, "execute")
    ensures CommandFactory.Command(WithCommandType(SlashDefaults(o), "Slash"), isResolvable).value.memberPermissions
            == Coalesce(Prop(o, "memberPermissions"), Undefined)
    ensures CommandFactory.Command(WithCommandType(SlashDefaults(o), "Slash"), isResolvable).value.Field("options") == Prop(o, "options")
  {
    var spread := WithCommandType(SlashDefaults(o), "Slash");
    SlashSpread(o);
    CommandResult(spread, isResolvable);
  }

  /**
   * Once the slash guards pass, the result is whatever `Command` makes of the
   * options with the defaults and type Slash: in particular, a failure is the
   * error of the first of `Command`'s own guards that fails.
   */
  lemma SlashCommandDelegates(o: Val, isResolvable: Val -> bool)
    requires FirstFailure(SlashGuards(o)).None?
    ensures o.Obj?
    ensures SlashCommand(o, isResolvable) == CommandFactory.Command(WithCommandType(SlashDefaults(o), "Slash"), isResolvable)
    ensures var spread := WithCommandType(SlashDefaults(o), "Slash");
      SlashCommand(o, isResolvable).Failure? ==>
        exists i :: FailsFirstAt(CommandGuards(spread, isResolvable), i)
                 && SlashCommand(o, isResolvable).error == CommandGuards(spread, isResolvable)[i].error
  {
    FirstFailureSpec(SlashGuards(o));
    SlashGuardsPassIffValid(o);
  }

  /** Options that pass the slash guards but have no name fail in `Command` with InvalidOption("name"). */
  lemma SlashNameRequired(fields: map<string, Val>, isResolvable: Val -> bool)
    requires FirstFailure(SlashGuards(Obj(fields))).None?
    requires !Truthy(Get(fields, "name"))
    ensures SlashCommand(Obj(fields), isResolvable) == Failure(Error(InvalidOption("name")))
  {
    var o := Obj(fields);
    SlashCommandDelegates(o, isResolvable);
    var spread := WithCommandType(SlashDefaults(o), "Slash");
    SlashSpread(o);
    CommandNameRequired(spread.fields, isResolvable);
  }

  /** The object `Command` receives: the defaults written in, type Slash, everything else as given. */
  lemma SlashSpread(o: Val)
    requires o.Obj?
    ensures var spread := WithCommandType(SlashDefaults(o), "Slash");
      && Prop(spread, "commandContexts") == (if Truthy(Prop(o, "commandContexts")) then Prop(o, "commandContexts") else Arr([Num(0)]))
      && Prop(spread, "integrationTypes") == (if Truthy(Prop(o, "integrationTypes")) then Prop(o, "integrationTypes") else Arr([Num(0)]))
      && Prop(spread, "commandType") == Str("Slash")
      && Prop(spread, "commandScope") == Prop(o, "commandScope")
      && Prop(spread, "execute") == Prop(o, "execute")
      && Prop(spread, "name") == Prop(o, "name")
      && Prop(spread, "memberPermissions") == Prop(o, "memberPermissions")
      && Prop(spread, "options") == Prop(o, "options")
  {
  }

  /** A missing scope is an InvalidOption; one outside default/guild/global an InvalidValue listing the three. */
  lemma SlashScopeChecked(fields: map<string, Val>, isResolvable: Val -> bool)
    ensures !Truthy(Get(fields, "commandScope")) ==>
      SlashCommand(Obj(fields), isResolvable) == Failure(Error(InvalidOption("commandScope")))
    ensures Truthy(Get(fields, "commandScope")) && Get(fields, "commandScope") !in ScopeValues ==>
      SlashCommand(Obj(fields), isResolvable) == Failure(Error(InvalidValue("commandScope", ScopeNames)))
  {
    var g := SlashGuards(Obj(fields));
    if !Truthy(Get(fields, "commandScope")) {
      assert g[..1] == [g[0]];
      FirstFailureAt(g, 1);
    } else if Get(fields, "commandScope") !in ScopeValues {
      assert g[..2] == [g[0], g[1]];
      FirstFailureAt(g, 2);
    }
  }

  /** A context outside the allowed values is an InvalidValues listing them; a bad integration type is reported as InvalidType. */
  lemma SlashListsChecked(fields: map<string, Val>, isResolvable: Val -> bool)
    requires Get(fields, "commandScope") in ScopeValues
    ensures Get(fields, "commandContexts").Arr? && !AllIn(Get(fields, "commandContexts"), ContextValues) ==>
      SlashCommand(Obj(fields), isResolvable) == Failure(Error(InvalidValues("commandContexts", ContextValueNames)))
    ensures OptionalList(Get(fields, "commandContexts"), ContextValues)
            && Get(fields, "integrationTypes").Arr? && !AllIn(Get(fields, "integrationTypes"), IntegrationValues) ==>
      SlashCommand(Obj(fields), isResolvable)
      == Failure(Framework(FrameworkError(PlainError, InvalidType("integrationTypes", "GuildInstall,UserInstall,0,1", "undefined"))))
  {
    var g := SlashGuards(Obj(fields));
    var contexts := Get(fields, "commandContexts");
    var types := Get(fields, "integrationTypes");
    if contexts.Arr? && !AllIn(contexts, ContextValues) {
      assert g[..4] == [g[0], g[1], g[2], g[3]];
      FirstFailureAt(g, 4);
    } else if OptionalList(contexts, ContextValues) && types.Arr? && !AllIn(types, IntegrationValues) {
      assert g[..6] == [g[0], g[1], g[2], g[3], g[4], g[5]];
      FirstFailureAt(g, 6);
    }
  }

  /** An explicitly empty contexts list is kept, not replaced by the default. */
  lemma SlashEmptyContextsKept(o: Val, isResolvable: Val -> bool)
    requires ValidSlashOptions(o, isResolvable) && Prop(o, "commandContexts") == Arr([])
    ensures SlashCommand(o, isResolvable).value.Field("commandContexts") == Arr([])
  {
    SlashCommandResult(o, isResolvable);
  }
}
