/**
 * Which commands `publishGlobal` and `publishGuild` register with Discord and
 * the application-command data `_getCommandData` builds for each
 * (src/commands/CommandsModule.ts).
 */
module CommandsPublish {
  import opened Wrappers
  import opened Js
  import opened Errors
  import opened Definitions
  import opened Utils
  import opened CommandFactory
  import SlashCommandFactory
  import ContextCommandFactory

  /** The application-command payload of one command. `options` is present only for slash commands. */
  datatype CommandData = CommandData(
    name: string,
    description: string,
    commandType: int,
    defaultMemberPermissions: Val,
    contexts: seq<Val>,
    integrationTypes: seq<Val>,
    nameLocalizations: Val,
    descriptionLocalizations: Val,
    options: Option<Val>)

  /** What `contexts.map(...)` throws in `resolveCommandContexts` when the contexts have a length but are no array. */
  const ContextsMapError: Cause := Foreign("TypeError: contexts.map is not a function")
  /** What `types.map(...)` throws in `resolveIntegrationTypes` when the types have a length but are no array. */
  const TypesMapError: Cause := Foreign("TypeError: types.map is not a function")

  /** A value `list?.length ? list.map(...) : [...]` throws on: it has a truthy length and is no array. */
  predicate Unmappable(list: Val) {
    Truthy(Prop(list, "length")) && !list.Arr?
  }

  /**
   * `_getCommandData(command)`. The contexts are resolved before the
   * integration types, so bad contexts are reported even when both lists are bad.
   */
  function CommandDataOf(c: Command): (r: Result<CommandData, Cause>)
    ensures r.Failure? <==> Unmappable(c.Field("commandContexts")) || Unmappable(c.Field("integrationTypes"))
    ensures Unmappable(c.Field("commandContexts")) ==> r == Failure(ContextsMapError)
    ensures !Unmappable(c.Field("commandContexts")) && Unmappable(c.Field("integrationTypes")) ==> r == Failure(TypesMapError)
  {
    var contexts := ResolveCommandContexts(c.Field("commandContexts"));
    var types := ResolveIntegrationTypes(c.Field("integrationTypes"));
    if contexts.None? then Failure(ContextsMapError)
    else if types.None? then Failure(TypesMapError)
    else Success(CommandData(
      name := c.name,
      description := c.description,
      commandType := ResolveCommandType(c.commandType),
      defaultMemberPermissions := Coalesce(c.memberPermissions, Null),
      contexts := contexts.value,
      integrationTypes := types.value,
      nameLocalizations := c.Field("nameLocalizations"),
      descriptionLocalizations := c.Field("descriptionLocalizations"),
      options := if c.commandType == Slash then Some(Coalesce(c.Field("options"), Arr([]))) else None))
  }

  /** Where a publish call registers: the application (global) or one guild. */
  datatype Target = Global | Guild

  /** The filter of `publishGlobal` / `publishGuild`: application commands that are enabled and not scoped to the other target. */
  predicate Published(c: Command, target: Target) {
    && !c.commandType.Message?
    && c.Field("commandScope") != Str(if target == Global then "guild" else "global")
    && !c.disabled
  }

  /**
   * The payload a publish call sends: the data of every selected command, or
   * the error that building the data of one of them throws. The table has no
   * order, so among several failing commands the contexts error is preferred.
   */
  function PublishData(commands: map<string, Command>, target: Target): (r: Result<map<string, CommandData>, Cause>)
    ensures r.Success? <==> forall id :: id in commands && Published(commands[id], target) ==> CommandDataOf(commands[id]).Success?
    ensures r.Success? ==> r.value.Keys == set id | id in commands && Published(commands[id], target)
    ensures r.Success? ==> forall id :: id in r.value ==> Success(r.value[id]) == CommandDataOf(commands[id])
    ensures r.Failure? ==> exists id :: id in commands && Published(commands[id], target) && CommandDataOf(commands[id]) == Failure(r.error)
  {
    if forall id :: id in commands && Published(commands[id], target) ==> CommandDataOf(commands[id]).Success? then
      Success(map id | id in commands && Published(commands[id], target) :: CommandDataOf(commands[id]).value)
    else if exists id :: id in commands && Published(commands[id], target) && CommandDataOf(commands[id]) == Failure(ContextsMapError) then
      Failure(ContextsMapError)
    else Failure(TypesMapError)
  }

  /**
   * A scope of "guild" keeps a command out of the global set, "global" keeps it
   * out of every guild set, and any other scope (such as "default") puts it in
   * both; message commands and disabled commands are never published.
   */
  lemma PublishScopes(c: Command)
    ensures c.commandType.Message? || c.disabled ==> !Published(c, Global) && !Published(c, Guild)
    ensures !c.commandType.Message? && !c.disabled ==>
      && (Published(c, Global) <==> c.Field("commandScope") != Str("guild"))
      && (Published(c, Guild) <==> c.Field("commandScope") != Str("global"))
    ensures Published(c, Global) || Published(c, Guild) <== !c.commandType.Message? && !c.disabled
  {
  }

  /** A resolved list of accepted contexts holds codes 0 to 2 only, and is never empty. */
  lemma {:induction false} AcceptedContextsResolve(v: Val)
    requires OptionalList(v, ContextValues) && Truthy(v)
    ensures ResolveCommandContexts(v).Some?
    ensures |ResolveCommandContexts(v).value| > 0
    ensures forall x :: x in ResolveCommandContexts(v).value ==> x in [Num(0), Num(1), Num(2)]
  {
    if |v.items| > 0 {
      ValidatedContextsResolve(v);
    }
  }

  /** A resolved list of accepted integration types holds codes 0 and 1 only, and is never empty. */
  lemma {:induction false} AcceptedIntegrationsResolve(v: Val)
    requires OptionalList(v, IntegrationValues) && Truthy(v)
    ensures ResolveIntegrationTypes(v).Some?
    ensures |ResolveIntegrationTypes(v).value| > 0
    ensures forall x :: x in ResolveIntegrationTypes(v).value ==> x in [Num(0), Num(1)]
  {
    if |v.items| > 0 {
      var r := ResolveIntegrationTypes(v).value;
      forall x | x in r ensures x in [Num(0), Num(1)] {
        var i :| 0 <= i < |r| && r[i] == x;
        IntegrationCodes(v.items[i]);
      }
    }
  }

  /**
   * Every slash command the factory accepts has publishable data: type code 1
   * (chat input), context codes within 0..2, integration codes within 0..1,
   * the given member permissions (null when none were given) and the given
   * options list (empty when none was given).
   */
  lemma SlashCommandPublishable(o: Val, isResolvable: Val -> bool)
    requires SlashCommandFactory.ValidSlashOptions(o, isResolvable)
    ensures SlashCommandFactory.SlashCommand(o, isResolvable).Success?
    ensures var data := CommandDataOf(SlashCommandFactory.SlashCommand(o, isResolvable).value);
      && data.Success?
      && data.value.commandType == ChatInputCode
      && (forall x :: x in data.value.contexts ==> x in [Num(0), Num(1), Num(2)])
      && (forall x :: x in data.value.integrationTypes ==> x in [Num(0), Num(1)])
      && data.value.defaultMemberPermissions == Coalesce(Prop(o, "memberPermissions"), Null)
      && data.value.options == Some(Coalesce(Prop(o, "options"), Arr([])))
  {
    SlashCommandFactory.SlashCommandResult(o, isResolvable);
    var c := SlashCommandFactory.SlashCommand(o, isResolvable).value;
    DefaultedListAccepted(Prop(o, "commandContexts"), ContextValues);
    DefaultedListAccepted(Prop(o, "integrationTypes"), IntegrationValues);
    AcceptedListsPublish(c);
  }

  /** An accepted optional list, or the default [0] in its place, is a given and accepted list. */
  lemma DefaultedListAccepted(v: Val, allowed: seq<Val>)
    requires OptionalList(v, allowed) && Num(0) in allowed
    ensures var d := if Truthy(v) then v else Arr([Num(0)]);
      OptionalList(d, allowed) && Truthy(d)
  {
  }

  /**
   * Every context-menu command the factory accepts has publishable data with
   * type code 2 (user) or 3 (message), the given member permissions (null
   * when none were given) and no options list.
   */
  lemma ContextCommandPublishable(o: Val, isResolvable: Val -> bool)
    requires ContextCommandFactory.ValidContextOptions(o, isResolvable)
    ensures ContextCommandFactory.ContextCommand(o, isResolvable).Success?
    ensures var c := ContextCommandFactory.ContextCommand(o, isResolvable).value;
      var data := CommandDataOf(c);
      && data.Success?
      && data.value.commandType == (if c.commandType == ContextUser then UserCode else MessageCode)
      && (forall x :: x in data.value.contexts ==> x in [Num(0), Num(1), Num(2)])
      && (forall x :: x in data.value.integrationTypes ==> x in [Num(0), Num(1)])
      && data.value.defaultMemberPermissions == Coalesce(Prop(o, "memberPermissions"), Null)
      && data.value.options.None?
  {
    ContextCommandFactory.ContextCommandResult(o, isResolvable);
    var c := ContextCommandFactory.ContextCommand(o, isResolvable).value;
    DefaultedListAccepted(Prop(o, "commandContexts"), ContextValues);
    DefaultedListAccepted(Prop(o, "integrationTypes"), IntegrationValues);
    AcceptedListsPublish(c);
  }

  /**
   * A command whose context and integration lists are given and accepted has
   * publishable data with context codes within 0..2, integration codes within
   * 0..1, its type's code, its member permissions (null when none) and, for a
   * slash command only, its options (empty when none).
   */
  lemma AcceptedListsPublish(c: Command)
    requires OptionalList(c.Field("commandContexts"), ContextValues) && Truthy(c.Field("commandContexts"))
    requires OptionalList(c.Field("integrationTypes"), IntegrationValues) && Truthy(c.Field("integrationTypes"))
    ensures var data := CommandDataOf(c);
      && data.Success?
      && data.value.commandType == ResolveCommandType(c.commandType)
      && (forall x :: x in data.value.contexts ==> x in [Num(0), Num(1), Num(2)])
      && (forall x :: x in data.value.integrationTypes ==> x in [Num(0), Num(1)])
      && data.value.defaultMemberPermissions == Coalesce(c.memberPermissions, Null)
      && data.value.options == (if c.commandType == Slash then Some(Coalesce(c.Field("options"), Arr([]))) else None)
  {
    AcceptedContextsResolve(c.Field("commandContexts"));
    AcceptedIntegrationsResolve(c.Field("integrationTypes"));
  }

  // ------------------------------------------------------- guild registration

  /** What `publishGuild` answers, and the guild command sets once it has run. */
  datatype GuildPublish = GuildPublish(result: Result<(), Cause>, registered: map<string, map<string, CommandData>>)

  /**
   * `publishGuild(guildId, commands)`: the payload is built first; `fetched` is
   * the outcome of fetching the guild (`false` when none is found).
   */
  function PublishToGuild(registered: map<string, map<string, CommandData>>, guildId: string, commands: map<string, Command>, fetched: Result<bool, Cause>): GuildPublish {
    var data := PublishData(commands, Guild);
    if data.Failure? then GuildPublish(Failure(data.error), registered)
    else match fetched
      case Failure(e) => GuildPublish(Failure(e), registered)
      case Success(found) => GuildPublish(Success(()), if found then registered[guildId := data.value] else registered)
  }

  /**
   * `publishGuild` fails exactly when the payload cannot be built (with that
   * error) or the fetch throws (with what it threw), and registers the
   * payload exactly for a guild that was found.
   */
  lemma PublishToGuildEffect(registered: map<string, map<string, CommandData>>, guildId: string, commands: map<string, Command>, fetched: Result<bool, Cause>)
    ensures var out := PublishToGuild(registered, guildId, commands, fetched);
      var data := PublishData(commands, Guild);
      && (out.result.Failure? <==> data.Failure? || fetched.Failure?)
      && (data.Failure? ==> out.result == Failure(data.error))
      && (data.Success? && fetched.Failure? ==> out.result == Failure(fetched.error))
      && out.registered == (if data.Success? && fetched == Success(true) then registered[guildId := data.value] else registered)
  {
  }

  /** The guild command sets and the client's `error` payloads a registration walk works on. */
  datatype Registration = Registration(registered: map<string, map<string, CommandData>>, errors: seq<FrameworkError>)

  /** `registerOnStart(guildIds, commands)`: a failing guild is reported as AppCommandRegister and the walk goes on. */
  function RegisterGuilds(s: Registration, guildIds: seq<string>, commands: map<string, Command>, fetches: string -> Result<bool, Cause>): Registration
    decreases |guildIds|
  {
    if guildIds == [] then s
    else
      var before := RegisterGuilds(s, guildIds[..|guildIds| - 1], commands, fetches);
      var g := guildIds[|guildIds| - 1];
      var out := PublishToGuild(before.registered, g, commands, fetches(g));
      Registration(out.registered,
                   before.errors + if out.result.Failure? then [FrameworkError(PlainError, AppCommandRegister(out.result.error, Some(g)))] else [])
  }

  /**
   * Registration tries every guild: each guild that was found gets the guild
   * payload, every new error is an AppCommandRegister that names one of the
   * guilds, and earlier errors are kept.
   */
  lemma {:induction false} RegisterGuildsCovers(s: Registration, guildIds: seq<string>, commands: map<string, Command>, fetches: string -> Result<bool, Cause>)
    ensures var r := RegisterGuilds(s, guildIds, commands, fetches);
      && |r.errors| >= |s.errors| && r.errors[..|s.errors|] == s.errors
      && (forall i :: |s.errors| <= i < |r.errors| ==>
            r.errors[i].info.AppCommandRegister? && r.errors[i].info.guildId.Some? && r.errors[i].info.guildId.value in guildIds)
      && (PublishData(commands, Guild).Success? ==>
            r.registered.Keys == s.registered.Keys + (set g | g in guildIds && fetches(g) == Success(true))
            && forall g :: g in guildIds && fetches(g) == Success(true) ==> r.registered[g] == PublishData(commands, Guild).value)
      && (PublishData(commands, Guild).Failure? ==>
            r.registered == s.registered && |r.errors| == |s.errors| + |guildIds|)
    decreases |guildIds|
  {
    if guildIds != [] {
      var front := guildIds[..|guildIds| - 1];
      var g := guildIds[|guildIds| - 1];
      RegisterGuildsCovers(s, front, commands, fetches);
      RegisterGuildsLast(s, guildIds, commands, fetches);
      var mid := RegisterGuilds(s, front, commands, fetches);
      PublishToGuildEffect(mid.registered, g, commands, fetches(g));
      assert forall x :: x in guildIds <==> x in front || x == g;
    }
  }

  /** The guilds of `guildIds` whose fetch throws, in order. */
  function FetchFailures(guildIds: seq<string>, fetches: string -> Result<bool, Cause>): (r: seq<string>)
    ensures |r| <= |guildIds|
    ensures forall g :: g in r <==> g in guildIds && fetches(g).Failure?
    decreases |guildIds|
  {
    if guildIds == [] then []
    else
      var g := guildIds[|guildIds| - 1];
      assert forall x :: x in guildIds <==> x in guildIds[..|guildIds| - 1] || x == g;
      FetchFailures(guildIds[..|guildIds| - 1], fetches) + if fetches(g).Failure? then [g] else []
  }

  /** The guild sets and error events after the last guild of `guildIds`, from those after the others. */
  lemma RegisterGuildsLast(s: Registration, guildIds: seq<string>, commands: map<string, Command>, fetches: string -> Result<bool, Cause>)
    requires guildIds != []
    ensures var n := |guildIds| - 1;
      var mid := RegisterGuilds(s, guildIds[..n], commands, fetches);
      var out := PublishToGuild(mid.registered, guildIds[n], commands, fetches(guildIds[n]));
      && RegisterGuilds(s, guildIds, commands, fetches).registered == out.registered
      && RegisterGuilds(s, guildIds, commands, fetches).errors
           == mid.errors + if out.result.Failure? then [FrameworkError(PlainError, AppCommandRegister(out.result.error, Some(guildIds[n])))] else []
  {
  }

  /**
   * With a payload that builds, the error events registration adds are, in
   * order, one AppCommandRegister per guild whose fetch throws, carrying what
   * it threw and the guild's id.
   */
  lemma {:induction false} RegisterGuildsReports(s: Registration, guildIds: seq<string>, commands: map<string, Command>, fetches: string -> Result<bool, Cause>)
    requires PublishData(commands, Guild).Success?
    ensures var r := RegisterGuilds(s, guildIds, commands, fetches);
      var failed := FetchFailures(guildIds, fetches);
      && |r.errors| == |s.errors| + |failed|
      && r.errors[..|s.errors|] == s.errors
      && forall i :: 0 <= i < |failed| ==>
           r.errors[|s.errors| + i] == FrameworkError(PlainError, AppCommandRegister(fetches(failed[i]).error, Some(failed[i])))
    decreases |guildIds|
  {
    if guildIds != [] {
      var n := |guildIds| - 1;
      RegisterGuildsReports(s, guildIds[..n], commands, fetches);
      RegisterGuildsLast(s, guildIds, commands, fetches);
    }
  }

  /**
   * With a payload that cannot be built, registration adds one
   * AppCommandRegister per guild, in order, each carrying the error building
   * the payload threw and the guild's id.
   */
  lemma {:induction false} RegisterGuildsReportsBadPayload(s: Registration, guildIds: seq<string>, commands: map<string, Command>, fetches: string -> Result<bool, Cause>)
    requires PublishData(commands, Guild).Failure?
    ensures var r := RegisterGuilds(s, guildIds, commands, fetches);
      && |r.errors| == |s.errors| + |guildIds|
      && r.errors[..|s.errors|] == s.errors
      && forall i :: 0 <= i < |guildIds| ==>
           r.errors[|s.errors| + i] == FrameworkError(PlainError, AppCommandRegister(PublishData(commands, Guild).error, Some(guildIds[i])))
    decreases |guildIds|
  {
    if guildIds != [] {
      var n := |guildIds| - 1;
      RegisterGuildsReportsBadPayload(s, guildIds[..n], commands, fetches);
      RegisterGuildsLast(s, guildIds, commands, fetches);
    }
  }
}