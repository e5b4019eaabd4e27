# guardbot framework core in Dafny

This project models the core of the guardbot Discord bot framework in Dafny
and proves properties of the model. The core covers:

- **Component factories.** `Command`, `SlashCommand`, `ContextCommand`,
  `MessageCommand`, `Listener` and `Autocompleter` validate an options object
  and return a normalised definition, or throw the framework error of the
  first check that fails.
- **Three component modules:**
  - `CommandsModule` loads commands and their aliases, publishes application
    commands, and dispatches messages and command interactions.
  - `AutocompleteModule` loads autocompleters and answers autocomplete
    interactions.
  - `ListenerModule` loads listeners and subscribes their wrapper functions to
    client events.
- **Helpers.** The listing, timestamp and enum helpers of `src/utils/utils.ts`,
  and the error kinds and messages of `src/utils/errors.ts`.

How the model is built:

- **Factories** take a dynamic JavaScript value (`Js.Val`) as input. Their
  checks are a fixed list of guards (`Guards`), and each factory is proved
  against a property-by-property definition of what it accepts.
- **Client state.** The state the modules share is the class
  `Client.FrameworkClient`; each module is a class over it.
- **Methods.** Every module method is proved to leave exactly the state that
  a function of the old state describes (`CommandsRegistry`,
  `CommandsPublish`, `CommandsDispatch`, `AutocompleteRegistry`,
  `ListenersRegistry`). The properties the framework promises are proved as
  lemmas about those functions.
- **Inputs from outside.** Everything the core receives from outside becomes a
  parameter:
  - what importing a file gives, and what reading a directory yields;
  - the interceptors' answers and the clock;
  - what a permission value resolves to;
  - whether `execute` throws;
  - whether a guild fetch succeeds.
- **Dispatch traces.** A dispatch produces the sequence of steps the module
  takes (events emitted, handlers called, replies sent), the cooldown table
  after it, and any rejection it throws.

Some of the code's behaviour is modelled as written and stated as lemmas:

- Aliases are stored under the bare alias but looked up under
  `Message:<alias>`.
- The bot's permissions are checked guild-wide but the missing ones are listed
  from the channel.
- A configured prefix with an upper-case letter never matches.
- The last second of every cooldown is not enforced.
- `ContextCommand` reports a missing scope as a bad `commandType`.
- `SlashCommand` reports a bad integration type as `InvalidType`.

## Model

| member | source | states |
|---|---|---|
| Guards.FirstFailureSpec | src/commands/Command.ts:9-25 | a guard list throws nothing exactly when every guard passes; otherwise it throws the error of the first failing guard |
| Guards.FirstFailureAt | src/commands/Command.ts:9-25 | a guard that fails after all earlier ones passed decides the error |
| CommandFactory.GuardsPassIffValid | src/commands/Command.ts:9-25 | the guards of `Command` all pass iff the options meet the property-by-property acceptance predicate |
| CommandFactory.Command | src/commands/Command.ts:7-39 | success iff the options are acceptable; a failure is the error of the first guard that fails |
| CommandFactory.CommandResult | src/commands/Command.ts:28-38 | the definition has id `<commandType>:<name>`, keeps name, description and type, `disabled` is true only if given true, nullish cooldown and permissions become undefined, and every other option is copied through |
| CommandFactory.CommandOptionsRequired | src/commands/Command.ts:9-10 | falsy options throw NoOptions; a non-object throws an InvalidType on "options" |
| CommandFactory.CommandNameRequired | src/commands/Command.ts:12 | a missing or empty name throws InvalidOption("name") |
| CommandFactory.CommandDescriptionChecks | src/commands/Command.ts:15-16 | a missing description throws InvalidOption; a non-string one throws an InvalidType that reports the name's type |
| CommandFactory.CommandTypeChecked | src/commands/Command.ts:18-19 | an unknown command type throws an InvalidValue that lists all four types |
| CommandFactory.CommandCooldownChecked | src/commands/Command.ts:24 | a falsy cooldown such as the empty string is accepted and kept; a truthy string such as "5s" throws an InvalidType on cooldown |
| SlashCommandFactory.SlashGuardsPassIffValid | src/commands/SlashCommand.ts:14-24 | the slash guards pass iff scope, lists and handler are acceptable |
| SlashCommandFactory.SlashCommand | src/commands/SlashCommand.ts:12-33 | success iff the options are acceptable; a failing slash guard decides the error before `Command` is reached |
| SlashCommandFactory.SlashCommandResult | src/commands/SlashCommand.ts:26-32 | an accepted command has type Slash, id `Slash:<name>`, its scope, handler, member permissions and options, and the [Guild] / [GuildInstall] defaults when no lists were given |
| SlashCommandFactory.SlashCommandDelegates | src/commands/SlashCommand.ts:29-32 | once the slash guards pass, the result is `Command` applied to the options with defaults and type Slash, so a failure is the error of the first failing `Command` guard |
| SlashCommandFactory.SlashNameRequired | src/commands/SlashCommand.ts:29-32 | options that pass the slash guards but have no name fail in `Command` with InvalidOption("name") |
| SlashCommandFactory.SlashScopeChecked | src/commands/SlashCommand.ts:14-15 | a missing scope throws InvalidOption; one outside default/guild/global throws an InvalidValue that lists the three |
| SlashCommandFactory.SlashListsChecked | src/commands/SlashCommand.ts:17-21 | a bad context throws InvalidValues; a bad integration type throws InvalidType |
| SlashCommandFactory.SlashEmptyContextsKept | src/commands/SlashCommand.ts:26 | an explicitly empty contexts list is kept, not replaced by the default |
| ContextCommandFactory.ContextGuardsPassIffValid | src/commands/ContextCommand.ts:14-27 | the context-menu guards pass iff type, scope, lists and handler are acceptable |
| ContextCommandFactory.ContextCommand | src/commands/ContextCommand.ts:12-36 | success iff the options are acceptable; a failing context guard decides the error |
| ContextCommandFactory.ContextCommandResult | src/commands/ContextCommand.ts:29-35 | an accepted command has type ContextUser or ContextMessage, id `<type>:<name>`, its member permissions, and the list defaults |
| ContextCommandFactory.ContextCommandDelegates | src/commands/ContextCommand.ts:32-35 | once the context guards pass, the result is `Command` applied to the options with defaults, so a failure is the error of the first failing `Command` guard |
| ContextCommandFactory.ContextNameRequired | src/commands/ContextCommand.ts:32-35 | options that pass the context guards but have no name fail in `Command` with InvalidOption("name") |
| ContextCommandFactory.MissingScopeReportedAsCommandType | src/commands/ContextCommand.ts:15 | without a string scope the error is an InvalidValue on commandType, even when the type is valid |
| ContextCommandFactory.ContextChecks | src/commands/ContextCommand.ts:14-24 | a missing type throws InvalidOption; a bad integration type throws InvalidValues |
| MessageCommandFactory.MessageGuardsPassIffValid | src/commands/MessageCommand.ts:11-19 | the message guards pass iff aliases, usage, contexts, handler and devOnly are acceptable |
| MessageCommandFactory.MessageCommand | src/commands/MessageCommand.ts:9-28 | success iff the options are acceptable; a failing message guard decides the error |
| MessageCommandFactory.MessageCommandResult | src/commands/MessageCommand.ts:21-27 | an accepted command has type Message, id `Message:<name>`, its aliases, contexts ['Guild'] unless given, and devOnly false unless given |
| MessageCommandFactory.MessageCommandDelegates | src/commands/MessageCommand.ts:24-27 | once the message guards pass, the result is `Command` applied to the options with defaults and type Message, so a failure is the error of the first failing `Command` guard |
| MessageCommandFactory.MessageNameRequired | src/commands/MessageCommand.ts:24-27 | options that pass the message guards but have no name fail in `Command` with InvalidOption("name") |
| MessageCommandFactory.MessageChecksFirst | src/commands/MessageCommand.ts:14-15 | bad contexts are reported even when the name is missing |
| MessageCommandFactory.MessageDevOnlyChecked | src/commands/MessageCommand.ts:19 | a null devOnly is rejected with an InvalidType |
| ListenerFactory.ListenerGuardsPassIffValid | src/listeners/Listener.ts:8-18 | the listener guards pass iff the options are acceptable |
| ListenerFactory.Listener | src/listeners/Listener.ts:6-27 | success iff acceptable; the result is exactly {id `Client:<name>`, name, once, disabled, execute}; a failure is the first failing guard's error |
| ListenerFactory.ListenerOptionChecks | src/listeners/Listener.ts:8-11 | falsy options throw NoOptions, a non-object throws InvalidType, a missing name throws InvalidOption |
| ListenerFactory.ListenerOnceChecked | src/listeners/Listener.ts:17 | a `once` that is not a boolean throws an InvalidType |
| AutocompleterFactory.AutocompleterGuardsPassIffValid | src/autocomplete/Autocompleter.ts:7-15 | the completer guards pass iff the options are acceptable |
| AutocompleterFactory.Autocompleter | src/autocomplete/Autocompleter.ts:5-23 | success iff acceptable; the result is exactly {id = name, name, disabled, execute}; a failure is the first failing guard's error |
| AutocompleterFactory.AutocompleterOptionChecks | src/autocomplete/Autocompleter.ts:7-14 | falsy options throw NoOptions, a non-object throws InvalidType, a missing handler throws InvalidOption |
| Definitions.CommandTypeOf | src/commands/Command.ts:6-19 | a value names a command type iff it is one of the four type strings, and that string is the type's name |
| Errors.NameRoundTrip | src/utils/errors.ts:19-33 | the class and the error id can be read back from an error's name |
| Errors.InvalidValueMessage | src/utils/errors.ts:8 | the message names the option first, then lists every allowed value quoted and in order |
| Errors.InvalidValuesMessage | src/utils/errors.ts:9 | the message names the option first, then lists every allowed value quoted and in order |
| Errors.InvalidTypeMessage | src/utils/errors.ts:7 | the message names the option, the expected type and the actual type, in that order |
| Errors.UnknownComponentMessage | src/utils/errors.ts:11 | the message embeds the component kind and the id |
| Errors.ComponentAlreadyLoadedMessage | src/utils/errors.ts:13 | the message embeds the component kind and the id |
| Errors.ComponentMessagesDiffer | src/utils/errors.ts:11-13 | an UnknownComponent message never equals a ComponentAlreadyLoaded message |
| Errors.AppCommandRegisterGuildClause | src/utils/errors.ts:15 | an empty guild id is omitted; the message with a guild is the message without one, with the guild clause inserted after the header |
| Utils.ListFiles | src/utils/utils.ts:6-18 | a missing directory gives []; otherwise the result is the collected source files of the listing |
| Utils.ListEntries | src/utils/utils.ts:9-17 | the loop collects exactly the files of the entries, recursing into directories |
| Utils.CollectIsSourceFiles | src/utils/utils.ts:12-16 | the listed files are exactly the `.js`/`.ts` files of the whole tree, in listing order |
| Utils.CollectedPathsAreSources | src/utils/utils.ts:13-15 | every listed path lies under the directory and ends in `.js` or `.ts` |
| Utils.UnixTimestampRoundTrip | src/utils/utils.ts:29-31 | the markup can be parsed back to the floor of the instant in seconds and the style |
| Utils.UnixTimestampDefaultStyle | src/utils/utils.ts:29 | the style defaults to 'f' |
| Utils.ResolveCommandType | src/utils/utils.ts:33-35 | Slash gives 1, ContextUser gives 2, and every other type gives 3 |
| Utils.ResolveList | src/utils/utils.ts:37-43 | an absent or empty list gives the single code 0; an array is mapped element by element; a non-array with a length throws |
| Utils.ContextCodes | src/utils/utils.ts:38 | each accepted context resolves to its code: Guild 0, BotDM 1, PrivateChannel 2 |
| Utils.IntegrationCodes | src/utils/utils.ts:42 | each accepted integration type resolves to its code: GuildInstall 0, UserInstall 1 |
| Utils.ValidatedContextsResolve | src/utils/utils.ts:37-39 | a contexts list the factories accepted resolves to codes 0 to 2 only |
| Utils.ReverseMapping | src/utils/utils.ts:37-43 | a numeric string looks up the member name, and an unknown name gives undefined |
| CommandsRegistry.AddAliasesBinds | src/commands/CommandsModule.ts:52-54 | an alias is bound by the first command that declares it, and a binding is never moved or dropped |
| CommandsRegistry.LoadEffect | src/commands/CommandsModule.ts:42-56 | a load fails iff the import throws (with what it threw) or the id is taken without reload (with ComponentAlreadyLoaded); an export it does not accept gives `false`; only a `true` load changes the table, filing the definition with its path |
| CommandsRegistry.DuplicateLoadRejected | src/commands/CommandsModule.ts:47 | loading the same definition twice without reload throws ComponentAlreadyLoaded("command", id) |
| CommandsRegistry.ReloadReplaces | src/commands/CommandsModule.ts:47-50 | with reload the same definition loads again and now carries the new path |
| CommandsRegistry.AliasOwnerKept | src/commands/CommandsModule.ts:53 | an alias held by another command keeps its owner |
| CommandsRegistry.AliasBound | src/commands/CommandsModule.ts:52-53 | a free alias that a loaded message command declares now names that command |
| CommandsRegistry.UnloadCommand | src/commands/CommandsModule.ts:82-88 | an unknown id throws UnknownComponent("commands", id); otherwise the entry is removed unless reloading, and other entries are unchanged |
| CommandsRegistry.LoadFilesCovers | src/commands/CommandsModule.ts:59-70 | afterwards the table holds the old ids plus the id of every loadable file; old error events are kept and each new one is a ComponentLoadError of kind "commands" |
| CommandsRegistry.LoadFilesReportsImportFailures | src/commands/CommandsModule.ts:59-70 | loadAll emits at most one error event per file, and a ComponentLoadError carrying the thrown error for every file whose import throws |
| CommandsRegistry.LoadFilesReportsTaken | src/commands/CommandsModule.ts:59-70 | loadAll emits a ComponentLoadError wrapping ComponentAlreadyLoaded for every loadable definition whose id was already filed or was brought by an earlier file |
| CommandsPublish.CommandDataOf | src/commands/CommandsModule.ts:258-270 | building a command's data throws exactly when its contexts or its integration types have a truthy length but are no array; bad contexts give `contexts.map is not a function` even when the types are bad too, bad types alone give `types.map is not a function` |
| CommandsPublish.PublishData | src/commands/CommandsModule.ts:102-112 | the payload succeeds iff the data of every selected command succeeds; it maps exactly the selected ids to their data; a failure is the error the data of one selected command throws |
| CommandsPublish.PublishScopes | src/commands/CommandsModule.ts:102-112 | "guild" excludes a command from the global set and "global" from every guild set; message commands and disabled commands are never published |
| CommandsPublish.AcceptedContextsResolve | src/commands/CommandsModule.ts:264 | contexts the factories accepted resolve to a non-empty list of codes 0 to 2 |
| CommandsPublish.AcceptedIntegrationsResolve | src/commands/CommandsModule.ts:265 | integration types the factories accepted resolve to a non-empty list of codes 0 and 1 |
| CommandsPublish.SlashCommandPublishable | src/commands/CommandsModule.ts:258-270 | every accepted slash command has publishable data: type 1, valid context and integration codes, its member permissions (null if none) and its options (empty if none) |
| CommandsPublish.ContextCommandPublishable | src/commands/CommandsModule.ts:258-270 | every accepted context command has publishable data: type 2 or 3, valid codes, its member permissions (null if none), and no options list |
| CommandsPublish.RegisterGuildsCovers | src/commands/CommandsModule.ts:91-99 | every guild is tried; each found guild gets the guild payload; every new error is an AppCommandRegister naming a listed guild; earlier errors are kept |
| CommandsPublish.RegisterGuildsReportsBadPayload | src/commands/CommandsModule.ts:91-99 | when the guild payload cannot be built, every guild adds exactly one AppCommandRegister event carrying that error and its id |
| CommandsPublish.FetchFailures | src/commands/CommandsModule.ts:91-99 | the guilds whose fetch throws: exactly the listed guilds with a failing fetch |
| CommandsPublish.RegisterGuildsReports | src/commands/CommandsModule.ts:91-99 | the new error events are exactly one AppCommandRegister per guild whose fetch throws, in order, carrying that error and the guild id (the bad-payload case is RegisterGuildsReportsBadPayload) |
| CommandsDispatch.CooldownGateSpec | src/commands/CommandsModule.ts:165-183 | the gate holds a call back iff a cooldown above 1 s is set, the user called before, and more than 1 s is left; passing records the call at `now` and changes no other entry |
| CommandsDispatch.CooldownWindow | src/commands/CommandsModule.ts:171-173 | after a recorded call at t, the next call is held back exactly while it comes before t + cooldown − 1000 |
| CommandsDispatch.HalfSecondOfOneAndAHalf | src/commands/CommandsModule.ts:165-180 | a 1.5 s cooldown holds a second call back for only half a second |
| CommandsDispatch.ExpireCooldown | src/commands/CommandsModule.ts:181 | the timer deletes exactly the user's entry |
| CommandsDispatch.ExpiredCooldownPasses | src/commands/CommandsModule.ts:181 | once the entry has expired, the user passes the gate again |
| CommandsDispatch.MatchedPrefix | src/commands/CommandsModule.ts:122-125 | a matched prefix starts the lower-cased content and is no longer than it |
| CommandsDispatch.MessageRunsOnlyAfterGates | src/commands/CommandsModule.ts:115-192 | a message command runs only when every gate passed, then exactly once between `execute` and its outcome, and the call is recorded under the typed id |
| CommandsDispatch.MessageRunsWhenGatesPass | src/commands/CommandsModule.ts:115-192 | the converse: a message that passes every gate and the cooldown runs the named command exactly once with its arguments, the call is recorded and nothing is thrown |
| CommandsDispatch.MessageCooldownWaits | src/commands/CommandsModule.ts:165-178 | a message that passes every gate but meets a running cooldown gets the handler's or the reply's cooldown notice with the expiry time; nothing runs and no cooldown changes |
| CommandsDispatch.MessageReachesCall | src/commands/CommandsModule.ts:116-129 | a message that runs a command has content, comes from a non-bot author, has the interceptor's consent, and names a command after a prefix |
| CommandsDispatch.CallReachesGates | src/commands/CommandsModule.ts:131-134 | a command that runs was found and is an enabled message command, allowed for the author and in this kind of channel |
| CommandsDispatch.MessageGatesRun | src/commands/CommandsModule.ts:137-191 | the permission and cooldown gates end in a run only when each let the call through |
| CommandsDispatch.MessageWithoutRunKeepsCooldowns | src/commands/CommandsModule.ts:115-183 | a message that runs no command changes no cooldown and takes at most one step |
| CommandsDispatch.CommandNameIgnoresCase | src/commands/CommandsModule.ts:123-128 | the case of the message never changes whether a command is named or which one |
| CommandsDispatch.UpperCasePrefixNeverMatches | src/commands/CommandsModule.ts:122-123 | a configured prefix with an upper-case letter never matches |
| CommandsDispatch.AliasLookupMisses | src/commands/CommandsModule.ts:52-134 | for one table: an alias `h` bound as usual does not find its command under `Message:h` (the general rule is BareAliasesChangeNoLookup) |
| CommandsDispatch.PrefixedAliasFinds | src/commands/CommandsModule.ts:132 | for one table: an alias declared as `Message:h` finds its command (the general rule is PrefixedAliasesFound) |
| CommandsDispatch.ClientPermissionsListedFromChannel | src/commands/CommandsModule.ts:151-161 | for one member pair: a bot barred only guild-wide is turned away with nothing listed as missing (the general rule is MessageClientDenied) |
| CommandsDispatch.BareAliasesChangeNoLookup | src/commands/CommandsModule.ts:52-134 | binding aliases never changes what `Message:<a>` finds unless `Message:<a>` itself was declared |
| CommandsDispatch.PrefixedAliasesFound | src/commands/CommandsModule.ts:52-134 | a free alias declared as `Message:<a>` makes the name `a` find the declaring command |
| CommandsDispatch.MessageMemberDenied | src/commands/CommandsModule.ts:137-149 | a member lacking channel permissions gets the handler or the fixed reply with exactly the lacking permissions; nothing runs and no cooldown changes |
| CommandsDispatch.MessageClientDenied | src/commands/CommandsModule.ts:151-163 | a bot lacking guild-wide permissions is turned away with the permissions its channel lacks, which is empty iff the channel grants them all |
| CommandsDispatch.ContextsWithoutIncludesReject | src/commands/CommandsModule.ts:134 | a `contexts` that is neither array nor string makes the handler throw (a property read of undefined or null, else not a function) with nothing emitted |
| CommandsDispatch.InteractionIdsMatchPublishedTypes | src/commands/CommandsModule.ts:250-255 | an interaction's id prefix names exactly the command type whose published code the interaction carries |
| CommandsDispatch.InteractionOutcome | src/commands/CommandsModule.ts:195-247 | past the interceptor, `unknown` is emitted iff no enabled application command is filed under `<kind>:<name>`; a command runs only when the bot holds its permissions (in a guild channel) and the cooldown lets it through, then exactly once; nothing is thrown (an 'error' listener is assumed) |
| CommandsDispatch.InteractionRunsWhenGatesPass | src/commands/CommandsModule.ts:195-247 | the converse: a command interaction that passes the interceptor, the lookup, the bot's permissions and the cooldown runs the command exactly once, the call is recorded and nothing is thrown |
| CommandsDispatch.InteractionCooldownWaits | src/commands/CommandsModule.ts:222-234 | a command interaction that passes every gate but meets a running cooldown gets the handler's or the ephemeral reply's cooldown notice with the expiry time; nothing runs and no cooldown changes |
| CommandsDispatch.InteractionClientDenied | src/commands/CommandsModule.ts:211-220 | in a non-DM guild channel, a bot lacking permissions gets the handler or an ephemeral reply with exactly the permissions it lacks; nothing runs and no cooldown changes |
| CommandsDispatch.OnlyCommandInteractions | src/commands/CommandsModule.ts:197 | an interaction that is not a command changes nothing |
| Commands.CommandsModule.constructor | src/commands/CommandsModule.ts:18-26 | a new module has no handlers or interceptors installed |
| Commands.CommandsModule.SetHandler | src/commands/CommandsModule.ts:29-31 | installs exactly one handler and keeps the others |
| Commands.CommandsModule.SetMessageInterceptor | src/commands/CommandsModule.ts:33-35 | installs the message interceptor and keeps the handlers |
| Commands.CommandsModule.SetInteractionInterceptor | src/commands/CommandsModule.ts:37-39 | installs the interaction interceptor and keeps the handlers |
| Commands.CommandsModule.Load | src/commands/CommandsModule.ts:42-56 | the answer and the new command and alias tables are those of `LoadCommand` on the old tables |
| Commands.CommandsModule.Unload | src/commands/CommandsModule.ts:82-88 | the answer and the new table are those of `UnloadCommand` |
| Commands.CommandsModule.Reload | src/commands/CommandsModule.ts:73-79 | an unknown id throws and changes nothing; otherwise the tables are those of a reload-load from the stored path, and what that load throws is kept as a rejection |
| Commands.CommandsModule.LoadAll | src/commands/CommandsModule.ts:59-70 | the tables and the error events are those of `LoadFiles` over the listed files |
| Commands.CommandsModule.PublishGlobal | src/commands/CommandsModule.ts:102-106 | without an application the answer is false; otherwise the global set becomes the payload, or building it throws and nothing is set |
| Commands.CommandsModule.PublishGuild | src/commands/CommandsModule.ts:108-112 | the answer and the guild sets are those of `PublishToGuild` |
| Commands.CommandsModule.RegisterOnStart | src/commands/CommandsModule.ts:91-99 | the guild sets and the error events are those of `RegisterGuilds` |
| Commands.CommandsModule.HandleMessage | src/commands/CommandsModule.ts:115-192 | the trace, the cooldowns and the rejections are extended by the steps of `CommandsDispatch.HandleMessage` on the old state |
| Commands.CommandsModule.HandleInteraction | src/commands/CommandsModule.ts:195-247 | the trace, the cooldowns and the rejections are extended by the steps of `CommandsDispatch.HandleInteraction` on the old state |
| Commands.CommandsModule.ExpireCooldown | src/commands/CommandsModule.ts:181 | the cooldown table becomes `ExpireCooldown` of the old table |
| AutocompleteRegistry.LoadCompleterEffect | src/autocomplete/AutocompleteModule.ts:26-36 | a load fails iff the import throws (with what it threw) or the id is taken without reload (with ComponentAlreadyLoaded); an export it does not accept gives `false`; only a `true` load changes the table |
| AutocompleteRegistry.UnloadCompleter | src/autocomplete/AutocompleteModule.ts:59-65 | an unknown id throws UnknownComponent("autocomplete", id); otherwise the entry is removed unless reloading |
| AutocompleteRegistry.ReloadCompleterSpec | src/autocomplete/AutocompleteModule.ts:51-57 | an unknown id throws; otherwise the reload fails only when the import throws, and a loadable definition replaces the entry with the old path |
| AutocompleteRegistry.LoadCompleterFilesCovers | src/autocomplete/AutocompleteModule.ts:38-49 | afterwards the table holds the old ids plus every loadable id; each new error is a ComponentLoadError of kind "autocomplete" |
| AutocompleteRegistry.LoadCompleterFilesReportsImportFailures | src/autocomplete/AutocompleteModule.ts:38-49 | loadAll emits at most one error event per file, and a ComponentLoadError carrying the thrown error for every file whose import throws |
| AutocompleteRegistry.LoadCompleterFilesReportsTaken | src/autocomplete/AutocompleteModule.ts:38-49 | loadAll emits a ComponentLoadError wrapping ComponentAlreadyLoaded for every loadable completer whose id was already filed or was brought by an earlier file |
| AutocompleteRegistry.AutocompleteOutcome | src/autocomplete/AutocompleteModule.ts:68-101 | only autocomplete interactions are answered; an enabled completer wins, even over a disabled command, then the command's own handler; at most one handler runs, and an error is reported through `success` |
| Autocompletion.AutocompleteModule.Load | src/autocomplete/AutocompleteModule.ts:26-36 | the answer and the new table are those of `LoadCompleter` |
| Autocompletion.AutocompleteModule.Unload | src/autocomplete/AutocompleteModule.ts:59-65 | the answer and the new table are those of `UnloadCompleter` |
| Autocompletion.AutocompleteModule.Reload | src/autocomplete/AutocompleteModule.ts:51-57 | the new table is that of `ReloadCompleter`; the call throws what that reload throws and otherwise answers nothing, not the load's boolean |
| Autocompletion.AutocompleteModule.LoadAll | src/autocomplete/AutocompleteModule.ts:38-49 | the table and the error events are those of `LoadCompleterFiles` |
| Autocompletion.AutocompleteModule.HandleInteraction | src/autocomplete/AutocompleteModule.ts:68-101 | the trace is extended by the steps of `HandleAutocomplete` |
| ListenersRegistry.UnloadListener | src/listeners/ListenersModule.ts:51-58 | an unknown id throws UnknownComponent("listener", id); otherwise the entry is removed unless reloading |
| ListenersRegistry.OffRemoves | src/listeners/ListenersModule.ts:55 | `off` removes exactly the wrapper's subscription to the event and keeps the rest distinct |
| ListenersRegistry.EmptyValid | src/FrameworkClient.ts:21 | the client starts in the invariant state |
| ListenersRegistry.LoadListenerValid | src/listeners/ListenersModule.ts:15-28 | a load keeps the invariant; it fails iff the import throws or the id is taken without reload (with ComponentAlreadyLoaded), gives `false` for an export it does not accept; a `true` load subscribes exactly one fresh wrapper, with `once` as the listener asks and to its event, and files the listener carrying it |
| ListenersRegistry.LoadListenerEffect | src/listeners/ListenersModule.ts:15-28 | a load fails iff the import throws (with what it threw) or the id is taken without reload (with ComponentAlreadyLoaded); an export it does not accept gives `false`; only a `true` load changes the state, filing the listener with a fresh wrapper subscribed last |
| ListenersRegistry.UnloadListenerValid | src/listeners/ListenersModule.ts:51-58 | an unload keeps the invariant and unsubscribes exactly the listener's wrapper |
| ListenersRegistry.ReloadListenerSpec | src/listeners/ListenersModule.ts:43-58 | a reload unsubscribes the old wrapper; a loadable definition is subscribed under a fresh wrapper; a disabled or broken one leaves the old entry with no live subscription |
| ListenersRegistry.LoadListenerFilesValid | src/listeners/ListenersModule.ts:30-41 | loadAll keeps the invariant; each fresh wrapper is subscribed once, at most one per file; old error events stay and each new one is a ComponentLoadError of kind "listener" |
| ListenersRegistry.LoadListenerFilesCovers | src/listeners/ListenersModule.ts:30-41 | afterwards the listener table holds the old ids plus the id of every loadable file |
| ListenersRegistry.LoadListenerFilesReportsImportFailures | src/listeners/ListenersModule.ts:30-41 | loadAll emits at most one error event per file, and a ComponentLoadError carrying the thrown error for every file whose import throws |
| ListenersRegistry.LoadListenerFilesReportsTaken | src/listeners/ListenersModule.ts:30-41 | loadAll emits a ComponentLoadError wrapping ComponentAlreadyLoaded for every loadable listener whose id was already filed or was brought by an earlier file |
| ListenersRegistry.OnceFiresOnce | src/listeners/ListenersModule.ts:25 | a `once` listener fires on the first emit and is gone after it; an `on` listener stays |
| ListenersRegistry.AfterFireKeepsOn | src/listeners/ListenersModule.ts:25 | after an emit, only `on` subscriptions to that event are left |
| Listeners.ListenerModule.Load | src/listeners/ListenersModule.ts:15-28 | the answer and the new state are those of `LoadListener`, and the invariant is kept |
| Listeners.ListenerModule.Unload | src/listeners/ListenersModule.ts:51-58 | the answer and the new state are those of `UnloadListener`, and the invariant is kept |
| Listeners.ListenerModule.Reload | src/listeners/ListenersModule.ts:43-49 | the new state is that of `ReloadListener` and keeps the invariant; the call throws what that reload throws and otherwise answers nothing, not the load's boolean |
| Listeners.ListenerModule.LoadAll | src/listeners/ListenersModule.ts:30-41 | the state and the error events are those of `LoadListenerFiles`, and the invariant is kept |
| Client.FrameworkClient.constructor | src/FrameworkClient.ts:14-24 | the prefix defaults to "!" and the developers to none; every table starts empty |

## Left out

- Unicode: lower-casing covers ASCII letters only. Case changes that alter a string's length are not modelled.
- Numbers are integers; floating-point cooldowns and timestamps are not modelled. A cooldown that is not a number counts as no cooldown.
- Clock reads: the cooldown check and the recorded call read the clock twice in the source; the model reads it once, as `now`.
- Timers: the reply-deletion timers are left out. The cooldown-expiry timer appears only as the explicit `ExpireCooldown` step.
- Concurrency: the awaits inside a dispatch and the relative order of concurrent dispatches are not modelled.
- `Commands.CommandsModule.Reload`: the un-awaited load's effects are applied before `reload` returns, not later as in the source.
- Module caches: deleting `require.cache` entries and the ESM import cache are not modelled. What a reload imports is a parameter, so a reload that still sees the cached module is the caller's choice of that parameter. `require.resolve` failing on a missing file is left out.
- Path resolution: `path.resolve` and `pathToFileURL` are left out; a listed path is used as is.
- Regular-expression escaping of the prefix is left out: the prefix is matched as a literal string.
- `util.inspect` output is left out: foreign errors are kept by their text.
- The bot's client-permission reply: its wording includes the bot's display name with permission names split into words. Only the missing set and the ephemeral flag are modelled.
- Interceptors and handlers: their answers are inputs. An interceptor or handler that throws is not modelled.
- Permission resolution (`PermissionsBitField.resolve`, administrator overrides) is abstracted by the `resolve` and `isResolvable` parameters.
- The Discord API: which guild exists, whether `commands.set` succeeds, and its response are inputs or left out. `Commands.CommandsModule.PublishGlobal` answers `true` where the source returns the API's promise. A guild `commands.set` is not awaited, so its failure is not modelled.
- Autocomplete focused option: a focused option is always present, because `getFocused(true)` throws otherwise. The `!option` test in the source therefore never fires.
- `src/extensions/Message.ts`, the rest of the `FrameworkClient` bootstrap (the button, menu and modal event fan-out, `start`, `login`), and `isPermissionResolvable` are not part of this model.
- The client's `rootDir` default (`./src` when that directory exists, else `./`) depends on the file system, so the root directory is a constructor parameter.
- Publishing: the order of commands in a published payload is not modelled (they are keyed by id).
- PublishData: the command table has no order, so when several selected commands fail with different errors the contexts error is reported; the source reports the error of the first failing command in the collection's insertion order.
- Unheard 'error' events: the model assumes that the client and the commands module each have an 'error' listener, so every emitted error is recorded and the operation goes on. Node's EventEmitter throws the emitted value when nothing listens for 'error'; without a listener, each loadAll would stop and reject at the first failing file, registerOnStart at the first failing guild, and a dispatch whose command throws would reject.
- Exports: a file's export is taken to be a well-formed definition record (a string id and name, a boolean `disabled`) or to be no object at all. A plain object missing an id, or with a non-string name or a non-boolean `disabled`, which `load` would still accept, is not expressible.
- `contexts` objects: an object carrying its own `includes` method is treated like any other non-array, whose `includes` call throws. Likewise an object with a truthy `length` and its own `map` method, passed as contexts or integration types, is treated as throwing.
