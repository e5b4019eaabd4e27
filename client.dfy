/**
 * The state of `FrameworkClient` (src/FrameworkClient.ts) that the three
 * component modules read and update: the component tables, the cooldown
 * table, the live event subscriptions, the payloads of the client's `error`
 * events, and the application commands registered with Discord.
 */
module Client {
  import opened Wrappers
  import opened Errors
  import opened Definitions
  import opened CommandsPublish
  import opened ListenersRegistry

  class FrameworkClient {
    const rootDir: string
    const prefix: string
    const developers: seq<string>
    /** The bot user's id, which a mention prefix names. */
    const selfId: string

    var commands: map<string, Command>
    var aliases: map<string, string>
    /** `cooldowns`: command key, then user id, then the time of the user's last counted call. */
    var cooldowns: map<string, map<string, int>>
    var autocomplete: map<string, Autocompleter>
    var events: map<string, Listener>
    /** The client's listener list for framework listeners, in subscription order. */
    var subscriptions: seq<Subscription>
    /** The number the next wrapper function gets. */
    var nextWrapper: nat
    /** Payloads of the `error` events emitted on the client, in order. */
    var errors: seq<FrameworkError>
    /** The application commands last set globally (`None` before any global publish). */
    var globalCommands: Option<map<string, CommandData>>
    /** The application commands last set in each guild. */
    var guildCommands: map<string, map<string, CommandData>>

    /** A client's prefix defaults to "!" and its developer list to none; every table starts empty. */
    constructor(rootDir: string, prefix: Option<string>, developers: Option<seq<string>>, selfId: string)
      ensures this.rootDir == rootDir && this.selfId == selfId
      ensures this.prefix == if prefix.Some? then prefix.value else "!"
      ensures this.developers == if developers.Some? then developers.value else []
      ensures commands == map[] && aliases == map[] && cooldowns == map[]
      ensures autocomplete == map[] && events == map[] && subscriptions == [] && nextWrapper == 0
      ensures errors == [] && globalCommands == None && guildCommands == map[]
    {
      this.rootDir := rootDir;
      this.prefix := prefix.GetOr("!");
      this.developers := developers.GetOr([]);
      this.selfId := selfId;
      commands := map[];
      aliases := map[];
      cooldowns := map[];
      autocomplete := map[];
      events := map[];
      subscriptions := [];
      nextWrapper := 0;
      errors := [];
      globalCommands := None;
      guildCommands := map[];
    }
  }
}
