/** The base `Command` factory (src/commands/Command.ts). */
module CommandFactory {
  import opened Wrappers
  import opened Js
  import opened Errors
  import opened Guards
  import opened Definitions

  const CommandTypeNames: seq<string> := ["Slash", "Message", "ContextMessage", "ContextUser"]

  /** The guards `Command` runs, in order. `isResolvable` is the Discord library's permission check. */
  function CommandGuards(o: Val, isResolvable: Val -> bool): seq<Guard> {
    var name := Prop(o, "name");
    var description := Prop(o, "description");
    var commandType := Prop(o, "commandType");
    var member := Prop(o, "memberPermissions");
    var client := Prop(o, "clientPermissions");
    var cooldown := Prop(o, "cooldown");
    var disabled := Prop(o, "disabled");
    [ Guard(Truthy(o), Error(NoOptions)),
      Guard(TypeOf(o) == "object", TypeErr(InvalidType("options", "object", TypeOf(o)))),
      Guard(Truthy(name) && Truthy(Prop(name, "length")), Error(InvalidOption("name"))),
      Guard(name.Str?, TypeErr(InvalidType("name", "string", TypeOf(name)))),
      Guard(Truthy(description) && Truthy(Prop(description, "length")), Error(InvalidOption("description"))),
      // the type reported is that of `name`, as the source does
      Guard(description.Str?, TypeErr(InvalidType("description", "string", TypeOf(name)))),
      Guard(Truthy(commandType), Error(InvalidOption("commandType"))),
      Guard(commandType in [Str("Slash"), Str("Message"), Str("ContextMessage"), Str("ContextUser")],
            Error(InvalidValue("commandType", CommandTypeNames))),
      Guard(member.Undefined? || isResolvable(member),
            TypeErr(InvalidType("memberPermissions", "PermissionResolvable", TypeOf(member)))),
      Guard(client.Undefined? || isResolvable(client),
            TypeErr(InvalidType("clientPermissions", "PermissionResolvable", TypeOf(client)))),
      Guard(!Truthy(cooldown) || cooldown.Num?, TypeErr(InvalidType("cooldown", "number", TypeOf(cooldown)))),
      Guard(disabled.Undefined? || disabled.Bool?, TypeErr(InvalidType("disabled", "boolean", TypeOf(disabled))))
    ]
  }

  predicate NonEmptyString(v: Val) { v.Str? && v.s != "" }

  /** The TypeError the runtime throws when a property of `undefined` or `null` is read. */
  function PropertyReadError(v: Val, key: string): Cause {
    Foreign("TypeError: Cannot read properties of " + Display(v) + " (reading '" + key + "')")
  }

  /** Every element of the array is one of `allowed`. */
  predicate AllIn(v: Val, allowed: seq<Val>) {
    v.Arr? && forall i :: 0 <= i < |v.items| ==> v.items[i] in allowed
  }

  /** An optional list option: absent (falsy), or an array over `allowed`. */
  predicate OptionalList(v: Val, allowed: seq<Val>) {
    !Truthy(v) || AllIn(v, allowed)
  }

  /** `if (!options[key]) options[key] = fallback` */
  function WithDefault(o: Val, key: string, fallback: Val): Val {
    if Truthy(Prop(o, key)) then o else SetProp(o, key, fallback)
  }

  /** `{ ...options, commandType: t }` */
  function WithCommandType(o: Val, t: string): Val {
    Obj((if o.Obj? then o.fields else map[])["commandType" := Str(t)])
  }

  /** What `Command` accepts, stated property by property. */
  predicate ValidCommandOptions(o: Val, isResolvable: Val -> bool) {
    && o.Obj?
    && NonEmptyString(Prop(o, "name"))
    && NonEmptyString(Prop(o, "description"))
    && CommandTypeOf(Prop(o, "commandType")).Some?
    && (Prop(o, "memberPermissions").Undefined? || isResolvable(Prop(o, "memberPermissions")))
    && (Prop(o, "clientPermissions").Undefined? || isResolvable(Prop(o, "clientPermissions")))
    && (!Truthy(Prop(o, "cooldown")) || Prop(o, "cooldown").Num?)
    && (Prop(o, "disabled").Undefined? || Prop(o, "disabled").Bool?)
  }

  lemma GuardsPassIffValid(o: Val, isResolvable: Val -> bool)
    ensures AllPass(CommandGuards(o, isResolvable)) <==> ValidCommandOptions(o, isResolvable)
  {
    var g := CommandGuards(o, isResolvable);
    if AllPass(g) {
      assert g[0].ok && g[1].ok && g[2].ok && g[3].ok && g[4].ok && g[5].ok;
      assert g[6].ok && g[7].ok && g[8].ok && g[9].ok && g[10].ok && g[11].ok;
    }
  }

  /** The command record built from accepted options. */
  function BuildCommand(o: Val): Definitions.Command
    requires o.Obj? && Prop(o, "name").Str? && Prop(o, "description").Str? && CommandTypeOf(Prop(o, "commandType")).Some?
  {
    var t := CommandTypeOf(Prop(o, "commandType")).value;
    var name := Prop(o, "name").s;
    Definitions.Command(
      id := TypeName(t) + ":" + name,
      name := name,
      description := Prop(o, "description").s,
      commandType := t,
      memberPermissions := Coalesce(Prop(o, "memberPermissions"), Undefined),
      clientPermissions := Coalesce(Prop(o, "clientPermissions"), Undefined),
      cooldown := Coalesce(Prop(o, "cooldown"), Undefined),
      disabled := Prop(o, "disabled") == Bool(true),
      filepath := "",
      fields := o.fields)
  }

  /** `Command(options)`: the first failing guard's error, or the normalised command. */
  function Command(o: Val, isResolvable: Val -> bool): (r: Result<Definitions.Command, Cause>)
    ensures r.Success? <==> ValidCommandOptions(o, isResolvable)
    ensures r.Failure? ==> exists i :: FailsFirstAt(CommandGuards(o, isResolvable), i)
                                  && r.error == CommandGuards(o, isResolvable)[i].error
  {
    var g := CommandGuards(o, isResolvable);
    FirstFailureSpec(g);
    GuardsPassIffValid(o, isResolvable);
    match FirstFailure(g)
    case Some(e) => Failure(e)
    case None => Success(BuildCommand(o))
  }

  /**
   * An accepted command gets the id `<commandType>:<name>`, keeps its name,
   * description and type, has `disabled` false unless it was true, a nullish
   * cooldown becomes undefined, and every other option is copied through.
   */
  lemma CommandResult(o: Val, isResolvable: Val -> bool)
    requires ValidCommandOptions(o, isResolvable)
    ensures var c := Command(o, isResolvable).value;
      && c.id == Prop(o, "commandType").s + ":" + Prop(o, "name").s
      && Str(TypeName(c.commandType)) == Prop(o, "commandType")
      && c.name == Prop(o, "name").s && c.name != ""
      && c.description == Prop(o, "description").s
      && c.disabled == (Prop(o, "disabled") == Bool(true))
      && c.filepath == ""
      && (IsNullish(Prop(o, "cooldown")) ==> c.cooldown == Undefined)
      && (!IsNullish(Prop(o, "cooldown")) ==> c.cooldown == Prop(o, "cooldown"))
      && c.memberPermissions == Coalesce(Prop(o, "memberPermissions"), Undefined)
      && c.clientPermissions == Coalesce(Prop(o, "clientPermissions"), Undefined)
      && (forall k :: c.Field(k) == Prop(o, k))
  {
    var g := CommandGuards(o, isResolvable);
    GuardsPassIffValid(o, isResolvable);
    FirstFailureSpec(g);
    assert Command(o, isResolvable) == Success(BuildCommand(o));
  }

  /** A falsy options value is reported as NoOptions, a non-object as InvalidType. */
  lemma CommandOptionsRequired(o: Val, isResolvable: Val -> bool)
    ensures !Truthy(o) ==> Command(o, isResolvable) == Failure(Error(NoOptions))
    ensures Truthy(o) && TypeOf(o) != "object" ==>
      Command(o, isResolvable) == Failure(TypeErr(InvalidType("options", "object", TypeOf(o))))
  {
    var g := CommandGuards(o, isResolvable);
    if !Truthy(o) {
      FirstFailureAt(g, 0);
    } else if TypeOf(o) != "object" {
      assert g[..1] == [g[0]];
      FirstFailureAt(g, 1);
    }
  }

  /** A missing or empty name is an InvalidOption, reported before its type is checked. */
  lemma CommandNameRequired(fields: map<string, Val>, isResolvable: Val -> bool)
    requires !Truthy(Get(fields, "name")) || !Truthy(Prop(Get(fields, "name"), "length"))
    ensures Command(Obj(fields), isResolvable) == Failure(Error(InvalidOption("name")))
  {
    var g := CommandGuards(Obj(fields), isResolvable);
    assert g[..2] == [g[0], g[1]];
    FirstFailureAt(g, 2);
  }

  /**
   * Given a valid name, a missing or empty description is an InvalidOption; a
   * description that is not a string is an InvalidType that reports the type
   * of the name, "string".
   */
  lemma CommandDescriptionChecks(fields: map<string, Val>, isResolvable: Val -> bool)
    requires NonEmptyString(Get(fields, "name"))
    ensures !Truthy(Get(fields, "description")) || !Truthy(Prop(Get(fields, "description"), "length")) ==>
      Command(Obj(fields), isResolvable) == Failure(Error(InvalidOption("description")))
    ensures Truthy(Get(fields, "description")) && Truthy(Prop(Get(fields, "description"), "length"))
            && !Get(fields, "description").Str? ==>
      Command(Obj(fields), isResolvable) == Failure(TypeErr(InvalidType("description", "string", "string")))
  {
    var g := CommandGuards(Obj(fields), isResolvable);
    if !Truthy(Get(fields, "description")) || !Truthy(Prop(Get(fields, "description"), "length")) {
      assert g[..4] == [g[0], g[1], g[2], g[3]];
      FirstFailureAt(g, 4);
    } else if !Get(fields, "description").Str? {
      assert g[..5] == [g[0], g[1], g[2], g[3], g[4]];
      FirstFailureAt(g, 5);
    }
  }

  /** Given a valid name and description, an unknown command type is an InvalidValue listing all four types. */
  lemma CommandTypeChecked(fields: map<string, Val>, isResolvable: Val -> bool)
    requires NonEmptyString(Get(fields, "name")) && NonEmptyString(Get(fields, "description"))
    requires Truthy(Get(fields, "commandType")) && CommandTypeOf(Get(fields, "commandType")).None?
    ensures Command(Obj(fields), isResolvable) == Failure(Error(InvalidValue("commandType", CommandTypeNames)))
  {
    var g := CommandGuards(Obj(fields), isResolvable);
    assert g[..7] == [g[0], g[1], g[2], g[3], g[4], g[5], g[6]];
    FirstFailureAt(g, 7);
  }

  /** A falsy cooldown is never type-checked; a truthy one must be a number. */
  lemma CommandCooldownChecked(o: Val, isResolvable: Val -> bool)
    requires ValidCommandOptions(o, isResolvable)
    ensures var o' := Obj(o.fields["cooldown" := Str("")]);
      Command(o', isResolvable).Success? && Command(o', isResolvable).value.cooldown == Str("")
    ensures var o' := Obj(o.fields["cooldown" := Str("5s")]);
      Command(o', isResolvable) == Failure(TypeErr(InvalidType("cooldown", "number", "string")))
  {
    var o' := Obj(o.fields["cooldown" := Str("5s")]);
    var g := CommandGuards(o', isResolvable);
    assert g[..10] == [g[0], g[1], g[2], g[3], g[4], g[5], g[6], g[7], g[8], g[9]];
    FirstFailureAt(g, 10);
  }
}
