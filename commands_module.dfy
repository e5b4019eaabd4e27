/**
 * `CommandsModule` (src/commands/CommandsModule.ts) as a class over the
 * client's state. Each method's contract ties the state it leaves to the
 * functions of `CommandsRegistry`, `CommandsPublish` and `CommandsDispatch`,
 * whose properties are proved there.
 */
module Commands {
  import opened Wrappers
  import opened Js
  import opened Errors
  import opened Definitions
  import opened Utils
  import opened CommandsRegistry
  import opened CommandsPublish
  import opened CommandsDispatch
  import opened Client

  /** The keys `setHandler` accepts. */
  datatype HandlerName = OnCooldown | OnMemberPermissions | OnClientPermissions

  class CommandsModule {
    const client: FrameworkClient
    var handlers: Handlers
    /** What the module has emitted, replied and called so far, in order. */
    var trace: seq<Step>
    /** Rejections nobody awaits: a failed `load` inside `reload`, a throwing dispatch. */
    var rejections: seq<Cause>

    constructor(client: FrameworkClient)
      ensures this.client == client && handlers == NoHandlers && trace == [] && rejections == []
    {
      this.client := client;
      handlers := NoHandlers;
      trace := [];
      rejections := [];
    }

    /** The client state a dispatch reads. */
    function ViewOf(): View
      reads this, client
    {
      View(client.commands, client.aliases, client.cooldowns, client.prefix, client.developers, client.selfId, handlers)
    }

    /** `setHandler(key, callback)` installs one handler and keeps the others. */
    method SetHandler(key: HandlerName)
      modifies this`handlers
      ensures handlers == match key
        case OnCooldown => old(handlers).(onCooldown := true)
        case OnMemberPermissions => old(handlers).(onMemberPermissions := true)
        case OnClientPermissions => old(handlers).(onClientPermissions := true)
    {
      match key {
        case OnCooldown => handlers := handlers.(onCooldown := true);
        case OnMemberPermissions => handlers := handlers.(onMemberPermissions := true);
        case OnClientPermissions => handlers := handlers.(onClientPermissions := true);
      }
    }

    method SetMessageInterceptor()
      modifies this`handlers
      ensures handlers == old(handlers).(messageInterceptor := true)
    {
      handlers := handlers.(messageInterceptor := true);
    }

    method SetInteractionInterceptor()
      modifies this`handlers
      ensures handlers == old(handlers).(interactionInterceptor := true)
    {
      handlers := handlers.(interactionInterceptor := true);
    }

    /** `load(filepath, reload)`, where importing the file gives `imported`. */
    method Load(filepath: string, reload: bool, imported: ImportResult<Command>) returns (r: Result<bool, Cause>)
      modifies client`commands, client`aliases
      ensures LoadOutcome(r, Tables(client.commands, client.aliases))
           == LoadCommand(Tables(old(client.commands), old(client.aliases)), filepath, reload, imported)
    {
      if imported.ImportFailed? {
        return Failure(imported.cause);
      }
      var e := Resolve(imported.exports);
      if !e.Definition? || e.value.name == "" || e.value.disabled {
        return Success(false);
      }
      var c := e.value;
      if !reload && c.id in client.commands {
        return Failure(Error(ComponentAlreadyLoaded("command", c.id)));
      }
      client.commands := client.commands[c.id := c.(filepath := filepath)];
      if c.commandType.Message? && c.Field("aliases").Arr? {
        var list := c.Field("aliases").items;
        var aliases := client.aliases;
        for i := 0 to |list|
          invariant aliases == AddAliases(client.aliases, list[..i], c.id)
        {
          var alias := list[i];
          if alias.Str? && (alias.s !in aliases || aliases[alias.s] == "") {
            aliases := aliases[alias.s := c.id];
          }
          assert list[..i + 1][..i] == list[..i];
        }
        assert list[..|list|] == list == DeclaredAliases(c);
        client.aliases := aliases;
      } else {
        assert DeclaredAliases(c) == [];
      }
      assert Loadable(e) == Some(c);
      return Success(true);
    }

    /** `unload(id, reload)` */
    method Unload(id: string, reload: bool) returns (r: Result<(), Cause>)
      modifies client`commands
      ensures var u := UnloadCommand(old(client.commands), id, reload);
        && (r.Failure? <==> u.Failure?)
        && (u.Failure? ==> r.error == u.error && client.commands == old(client.commands))
        && (u.Success? ==> client.commands == u.value)
    {
      if id !in client.commands {
        return Failure(Error(UnknownComponent("commands", id)));
      }
      if !reload {
        client.commands := client.commands - {id};
      }
      return Success(());
    }

    /**
     * `reload(id)`: an unknown id throws; otherwise the command file is loaded
     * again with `reload` set. That load is not awaited, so what it throws is
     * a rejection and `reload` itself returns normally.
     */
    method Reload(id: string, imported: ImportResult<Command>) returns (r: Result<(), Cause>)
      modifies client`commands, client`aliases, this`rejections
      ensures id !in old(client.commands) ==>
        && r == Failure(Error(UnknownComponent("commands", id)))
        && client.commands == old(client.commands) && client.aliases == old(client.aliases)
        && rejections == old(rejections)
      ensures id in old(client.commands) ==>
        var out := LoadCommand(Tables(old(client.commands), old(client.aliases)), old(client.commands)[id].filepath, true, imported);
        && r == Success(())
        && Tables(client.commands, client.aliases) == out.tables
        && rejections == old(rejections) + (if out.result.Failure? then [out.result.error] else [])
    {
      if id !in client.commands {
        return Failure(Error(UnknownComponent("commands", id)));
      }
      var filepath := client.commands[id].filepath;
      var _ := Unload(id, true);
      var loaded := Load(filepath, true, imported);
      if loaded.Failure? {
        rejections := rejections + [loaded.error];
      }
      return Success(());
    }

    /**
     * `loadAll()`: `listing` is what reading `<rootDir>/commands` yields and
     * `imports(f)` what importing `f` gives.
     */
    method LoadAll(listing: Option<seq<Entry>>, imports: string -> ImportResult<Command>)
      modifies client`commands, client`aliases, client`errors
      ensures var files := if listing.None? then [] else Collect(JoinPath(client.rootDir, "commands"), listing.value);
        Registry(Tables(client.commands, client.aliases), client.errors)
          == LoadFiles(Registry(Tables(old(client.commands), old(client.aliases)), old(client.errors)), files, imports)
    {
      var files := ListFiles(JoinPath(client.rootDir, "commands"), listing);
      ghost var start := Registry(Tables(client.commands, client.aliases), client.errors);
      for i := 0 to |files|
        invariant Registry(Tables(client.commands, client.aliases), client.errors) == LoadFiles(start, files[..i], imports)
      {
        var file := files[i];
        var r := Load(file, false, imports(file));
        if r.Failure? {
          client.errors := client.errors + [FrameworkError(PlainError, ComponentLoadError("commands", r.error))];
        }
        assert files[..i + 1][..i] == files[..i];
      }
      assert files[..|files|] == files;
    }

    /**
     * `publishGlobal(commands)`: without an application it answers `false`;
     * otherwise the global command set becomes the payload, or building the
     * payload throws and nothing is set.
     */
    method PublishGlobal(commands: Option<map<string, Command>>, hasApplication: bool) returns (r: Result<bool, Cause>)
      modifies client`globalCommands
      ensures !hasApplication ==> r == Success(false) && client.globalCommands == old(client.globalCommands)
      ensures hasApplication ==>
        var data := PublishData(commands.GetOr(client.commands), Global);
        && (data.Failure? ==> r == Failure(data.error) && client.globalCommands == old(client.globalCommands))
        && (data.Success? ==> r == Success(true) && client.globalCommands == Some(data.value))
    {
      if !hasApplication {
        return Success(false);
      }
      var data := PublishData(commands.GetOr(client.commands), Global);
      if data.Failure? {
        return Failure(data.error);
      }
      client.globalCommands := Some(data.value);
      return Success(true);
    }

    /** `publishGuild(guildId, commands)`, where fetching the guild gives `fetched`. */
    method PublishGuild(guildId: string, commands: Option<map<string, Command>>, fetched: Result<bool, Cause>) returns (r: Result<(), Cause>)
      modifies client`guildCommands
      ensures GuildPublish(r, client.guildCommands)
           == PublishToGuild(old(client.guildCommands), guildId, commands.GetOr(client.commands), fetched)
    {
      var data := PublishData(commands.GetOr(client.commands), Guild);
      if data.Failure? {
        return Failure(data.error);
      }
      if fetched.Failure? {
        return Failure(fetched.error);
      }
      if fetched.value {
        client.guildCommands := client.guildCommands[guildId := data.value];
      }
      return Success(());
    }

    /** `registerOnStart(guildIds, commands)`, where fetching guild `g` gives `fetches(g)`. */
    method RegisterOnStart(guildIds: seq<string>, commands: Option<map<string, Command>>, fetches: string -> Result<bool, Cause>)
      modifies client`guildCommands, client`errors
      ensures Registration(client.guildCommands, client.errors)
           == RegisterGuilds(Registration(old(client.guildCommands), old(client.errors)), guildIds, commands.GetOr(client.commands), fetches)
    {
      ghost var start := Registration(client.guildCommands, client.errors);
      for i := 0 to |guildIds|
        invariant Registration(client.guildCommands, client.errors) == RegisterGuilds(start, guildIds[..i], commands.GetOr(client.commands), fetches)
      {
        var g := guildIds[i];
        var r := PublishGuild(g, commands, fetches(g));
        if r.Failure? {
          client.errors := client.errors + [FrameworkError(PlainError, AppCommandRegister(r.error, Some(g)))];
        }
        assert guildIds[..i + 1][..i] == guildIds[..i];
      }
      assert guildIds[..|guildIds|] == guildIds;
    }

    /**
     * `_handleMessage(message)`: `allows` is the message interceptor's answer,
     * `resolve` turns a permission requirement into flags, `now` is the clock
     * and `outcome` what the command's `execute` throws, if anything.
     */
    method HandleMessage(m: Msg, allows: bool, resolve: Val -> Permissions, now: int, outcome: Option<Cause>)
      modifies this`trace, this`rejections, client`cooldowns
      ensures var d := CommandsDispatch.HandleMessage(old(ViewOf()), m, allows, resolve, now, outcome);
        && trace == old(trace) + d.steps
        && client.cooldowns == d.cooldowns
        && rejections == old(rejections) + (if d.rejection.Some? then [d.rejection.value] else [])
    {
      var d := CommandsDispatch.HandleMessage(ViewOf(), m, allows, resolve, now, outcome);
      trace := trace + d.steps;
      client.cooldowns := d.cooldowns;
      if d.rejection.Some? {
        rejections := rejections + [d.rejection.value];
      }
    }

    /** `_handleInteraction(interaction)`, with the same parameters as `HandleMessage`. */
    method HandleInteraction(i: Interaction, allows: bool, resolve: Val -> Permissions, now: int, outcome: Option<Cause>)
      modifies this`trace, this`rejections, client`cooldowns
      ensures var d := CommandsDispatch.HandleInteraction(old(ViewOf()), i, allows, resolve, now, outcome);
        && trace == old(trace) + d.steps
        && client.cooldowns == d.cooldowns
        && rejections == old(rejections) + (if d.rejection.Some? then [d.rejection.value] else [])
    {
      var d := CommandsDispatch.HandleInteraction(ViewOf(), i, allows, resolve, now, outcome);
      trace := trace + d.steps;
      client.cooldowns := d.cooldowns;
      if d.rejection.Some? {
        rejections := rejections + [d.rejection.value];
      }
    }

    /** The timer set beside a counted call: it deletes the user's entry again. */
    method ExpireCooldown(key: string, user: string)
      modifies client`cooldowns
      ensures client.cooldowns == CommandsDispatch.ExpireCooldown(old(client.cooldowns), key, user)
    {
      if key in client.cooldowns {
        client.cooldowns := client.cooldowns[key := client.cooldowns[key] - {user}];
      }
    }
  }
}
