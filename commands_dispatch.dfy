/**
 * How `CommandsModule` answers a message (`_handleMessage`) and a command
 * interaction (`_handleInteraction`) in src/commands/CommandsModule.ts: the
 * gates a command must pass, the shared cooldown rule, and what the module
 * emits, replies or calls on the way. Each dispatch is a function of the
 * client's state and the incoming event; the `Commands` module's methods
 * apply it to the live state.
 */
module CommandsDispatch {
  import opened Wrappers
  import opened Text
  import opened Js
  import opened Errors
  import opened Definitions
  import opened Utils
  import CommandFactory
  import CommandsRegistry

  /** Permission flag names (`PermissionsString`). */
  type Permissions = set<string>

  /** Which handlers and interceptors `setHandler` and the interceptor setters installed. */
  datatype Handlers = Handlers(
    onCooldown: bool,
    onMemberPermissions: bool,
    onClientPermissions: bool,
    messageInterceptor: bool,
    interactionInterceptor: bool)

  const NoHandlers: Handlers := Handlers(false, false, false, false, false)

  /** A guild member's permissions: guild-wide, and in the event's channel when the library can compute them. */
  datatype Member = Member(guildWide: Permissions, inChannel: Option<Permissions>)

  /** `permissionsIn(channel) ?? permissions` */
  function ChannelPermissions(m: Member): Permissions {
    m.inChannel.GetOr(m.guildWide)
  }

  /** A message from a guild: the author's member and the bot's own member there. */
  datatype GuildSide = GuildSide(executor: Member, me: Member)

  datatype Msg = Msg(content: string, authorId: string, authorIsBot: bool, guild: Option<GuildSide>)

  /**
   * What the module does on the way: the events it emits on itself, the
   * handlers it calls, the replies it sends, and the command's own `execute`.
   * Every step names the command by its id.
   */
  datatype Step =
    | Execute(commandId: string)
    | Ran(commandId: string, args: Option<seq<string>>)
    | Succeeded(commandId: string)
    | Failed(commandId: string, error: Cause)
    | Unknown(commandName: string)
    | MemberPermissionsHandled(commandId: string, missing: Permissions)
    | ClientPermissionsHandled(commandId: string, missing: Permissions)
    | CooldownHandled(commandId: string, expiry: int)
    | Reply(content: string, ephemeral: bool)
    | ClientPermissionsReply(missing: Permissions, ephemeral: bool)

  /** The steps a dispatch took, the cooldown table after it, and what it rejected with when it threw. */
  datatype Dispatch = Dispatch(steps: seq<Step>, cooldowns: map<string, map<string, int>>, rejection: Option<Cause>)

  /** The client state a dispatch reads. */
  datatype View = View(
    commands: map<string, Command>,
    aliases: map<string, string>,
    cooldowns: map<string, map<string, int>>,
    prefix: string,
    developers: seq<string>,
    selfId: string,
    handlers: Handlers)

  function Quiet(cooldowns: map<string, map<string, int>>): Dispatch {
    Dispatch([], cooldowns, None)
  }

  const MemberDeniedText: string := "❌ You don't have the required permission(s) to use this command."

  function CooldownText(expiry: int): string {
    "❌ Slow down and try the Command Again **" + UnixTimestamp(expiry, 'R') + "**."
  }

  // ------------------------------------------------------------ the cooldown

  /** The cooldown check either lets the call through or names when the user may call again. */
  datatype Gate = Pass(cooldowns: map<string, map<string, int>>) | Wait(expiry: int)

  /** The cooldown a command enforces: a number of milliseconds above one second. */
  predicate Enforced(cooldown: Val) {
    cooldown.Num? && cooldown.n > 1000
  }

  /**
   * The cooldown block both dispatch paths share: `key` is the looked-up
   * command id, `user` the caller and `now` the clock.
   */
  function CooldownGate(cooldowns: map<string, map<string, int>>, key: string, user: string, cooldown: Val, now: int): Gate {
    if !Enforced(cooldown) then Pass(cooldowns)
    else
      var inner := if key in cooldowns then cooldowns[key] else map[];
      if user in inner && inner[user] + cooldown.n - now > 1000 then Wait(inner[user] + cooldown.n)
      else Pass(cooldowns[key := inner[user := now]])
  }

  /**
   * The gate waits exactly when a cooldown above one second is set, the caller
   * used the command before, and more than one second of the cooldown is left.
   * Passing an enforced cooldown records the call at `now` and touches no
   * other entry; a cooldown of a second or less changes nothing.
   */
  lemma CooldownGateSpec(cooldowns: map<string, map<string, int>>, key: string, user: string, cooldown: Val, now: int)
    ensures var g := CooldownGate(cooldowns, key, user, cooldown, now);
      && (g.Wait? <==> (Enforced(cooldown) && key in cooldowns && user in cooldowns[key]
                        && now < cooldowns[key][user] + cooldown.n - 1000))
      && (g.Wait? ==> g.expiry == cooldowns[key][user] + cooldown.n)
      && (g.Pass? && !Enforced(cooldown) ==> g.cooldowns == cooldowns)
      && (g.Pass? && Enforced(cooldown) ==>
            && key in g.cooldowns && user in g.cooldowns[key] && g.cooldowns[key][user] == now
            && g.cooldowns.Keys == cooldowns.Keys + {key}
            && (forall k :: k in cooldowns && k != key ==> g.cooldowns[k] == cooldowns[k])
            && (forall u :: key in cooldowns && u in cooldowns[key] && u != user ==>
                  u in g.cooldowns[key] && g.cooldowns[key][u] == cooldowns[key][u]))
  {
  }

  /**
   * After a call passes at time `t`, the next call by the same user is held
   * back exactly while it comes before `t + cooldown - 1000`: the last second
   * of every cooldown is not enforced.
   */
  lemma {:induction false} CooldownWindow(cooldowns: map<string, map<string, int>>, key: string, user: string, n: int, t: int, later: int)
    requires n > 1000
    requires CooldownGate(cooldowns, key, user, Num(n), t).Pass?
    ensures var after := CooldownGate(cooldowns, key, user, Num(n), t).cooldowns;
      && (CooldownGate(after, key, user, Num(n), later).Wait? <==> later < t + n - 1000)
      && (CooldownGate(after, key, user, Num(n), later).Wait? ==> CooldownGate(after, key, user, Num(n), later).expiry == t + n)
  {
    var after := CooldownGate(cooldowns, key, user, Num(n), t).cooldowns;
    CooldownGateSpec(cooldowns, key, user, Num(n), t);
    CooldownGateSpec(after, key, user, Num(n), later);
  }

  /** A 1.5 s cooldown holds a second call back for half a second only. */
  lemma HalfSecondOfOneAndAHalf(cooldowns: map<string, map<string, int>>)
    requires "Message:ping" !in cooldowns
    ensures var first := CooldownGate(cooldowns, "Message:ping", "42", Num(1500), 0);
      && first.Pass?
      && CooldownGate(first.cooldowns, "Message:ping", "42", Num(1500), 499) == Wait(1500)
      && CooldownGate(first.cooldowns, "Message:ping", "42", Num(1500), 500).Pass?
  {
    CooldownWindow(cooldowns, "Message:ping", "42", 1500, 0, 499);
    CooldownWindow(cooldowns, "Message:ping", "42", 1500, 0, 500);
  }

  /** When the timer set beside a recorded call fires, the user's entry is deleted. */
  function ExpireCooldown(cooldowns: map<string, map<string, int>>, key: string, user: string): (r: map<string, map<string, int>>)
    ensures r.Keys == cooldowns.Keys
    ensures key in r ==> user !in r[key] && r[key].Keys == cooldowns[key].Keys - {user}
    ensures forall k :: k in r && k != key ==> r[k] == cooldowns[k]
  {
    if key in cooldowns then cooldowns[key := cooldowns[key] - {user}] else cooldowns
  }

  /** Once the entry has expired the user passes the gate again, whatever the time. */
  lemma ExpiredCooldownPasses(cooldowns: map<string, map<string, int>>, key: string, user: string, cooldown: Val, now: int)
    ensures CooldownGate(ExpireCooldown(cooldowns, key, user), key, user, cooldown, now).Pass?
  {
  }

  function WaitSteps(h: Handlers, commandId: string, expiry: int, ephemeral: bool): seq<Step> {
    if h.onCooldown then [CooldownHandled(commandId, expiry)] else [Reply(CooldownText(expiry), ephemeral)]
  }

  /** The `try` block: `execute` is emitted, the command runs, and `success` or `error` follows. */
  function RunSteps(commandId: string, args: Option<seq<string>>, outcome: Option<Cause>): seq<Step> {
    [Execute(commandId), Ran(commandId, args), if outcome.None? then Succeeded(commandId) else Failed(commandId, outcome.value)]
  }

  // -------------------------------------------------------- message commands

  /**
   * The part of the message the prefix pattern matches, tried in order on the
   * lower-cased content: a mention of the bot with `!`, one without, then the
   * configured prefix (exactly as configured) when it is not empty.
   */
  function MatchedPrefix(content: string, selfId: string, prefix: string): (r: Option<string>)
    ensures r.Some? ==> StartsWith(ToLower(content), r.value) && |r.value| <= |content|
  {
    var lower := ToLower(content);
    if StartsWith(lower, "<@!" + selfId + ">") then Some("<@!" + selfId + ">")
    else if StartsWith(lower, "<@" + selfId + ">") then Some("<@" + selfId + ">")
    else if prefix != "" && StartsWith(lower, prefix) then Some(prefix)
    else None
  }

  /** The command name (lower-cased first word after the prefix) and the remaining words as typed. */
  function ParseInvocation(content: string, selfId: string, prefix: string): Option<(string, seq<string>)> {
    var p := MatchedPrefix(content, selfId, prefix);
    if p.None? then None
    else
      var words := SplitSpaces(Trim(content[|p.value|..]));
      var name := ToLower(words[0]);
      if name == "" then None else Some((name, words[1..]))
  }

  /** `commands.get(id) || commands.get(aliases.get(id) || '')` */
  function FindMessageCommand(commands: map<string, Command>, aliases: map<string, string>, id: string): Option<Command> {
    if id in commands then Some(commands[id])
    else
      var target := if id in aliases then aliases[id] else "";
      if target in commands then Some(commands[target]) else None
  }

  /**
   * `list.includes(x)` on an array or a string. Reading `includes` of
   * `undefined` or `null` throws, and so does calling it on any other value,
   * which has no such method.
   */
  function Includes(list: Val, x: string): Result<bool, Cause> {
    match list
    case Arr(items) => Success(Str(x) in items)
    case Str(s) => Success(Contains(s, x))
    case Undefined => Failure(CommandFactory.PropertyReadError(list, "includes"))
    case Null => Failure(CommandFactory.PropertyReadError(list, "includes"))
    case _ => Failure(ContextsTypeError)
  }

  predicate DevOnly(c: Command) { Truthy(c.Field("devOnly")) }

  /** The gates from the permission checks on, and the call, for a message command that was found. */
  function MessageGates(v: View, m: Msg, c: Command, id: string, args: seq<string>, resolve: Val -> Permissions, now: int, outcome: Option<Cause>): Dispatch {
    var memberRequired := resolve(c.memberPermissions);
    var clientRequired := resolve(c.clientPermissions);
    if m.guild.Some? && Truthy(c.memberPermissions) && !(memberRequired <= ChannelPermissions(m.guild.value.executor)) then
      var missing := memberRequired - ChannelPermissions(m.guild.value.executor);
      Dispatch(if v.handlers.onMemberPermissions then [MemberPermissionsHandled(c.id, missing)] else [Reply(MemberDeniedText, false)],
               v.cooldowns, None)
    // the check uses the guild-wide permissions, the missing list the channel's
    else if m.guild.Some? && Truthy(c.clientPermissions) && !(clientRequired <= m.guild.value.me.guildWide) then
      var missing := clientRequired - ChannelPermissions(m.guild.value.me);
      Dispatch(if v.handlers.onClientPermissions then [ClientPermissionsHandled(c.id, missing)] else [ClientPermissionsReply(missing, false)],
               v.cooldowns, None)
    else
      match CooldownGate(v.cooldowns, id, m.authorId, c.cooldown, now)
      case Wait(expiry) => Dispatch(WaitSteps(v.handlers, c.id, expiry, false), v.cooldowns, None)
      case Pass(after) => Dispatch(RunSteps(c.id, Some(args), outcome), after, None)
  }

  /**
   * `_handleMessage`. `allows` is the interceptor's answer, `resolve` what a
   * permission value stands for, `now` the clock and `outcome` what the
   * command's `execute` throws, if anything.
   */
  function HandleMessage(v: View, m: Msg, allows: bool, resolve: Val -> Permissions, now: int, outcome: Option<Cause>): Dispatch {
    if m.content == "" || m.authorIsBot then Quiet(v.cooldowns)
    else if v.handlers.messageInterceptor && !allows then Quiet(v.cooldowns)
    else
      match ParseInvocation(m.content, v.selfId, v.prefix)
      case None => Quiet(v.cooldowns)
      case Some((name, args)) => MessageCommandCall(v, m, name, args, resolve, now, outcome)
  }

  /** From the command lookup on, for the command name and arguments a message spelled out. */
  function MessageCommandCall(v: View, m: Msg, name: string, args: seq<string>, resolve: Val -> Permissions, now: int, outcome: Option<Cause>): Dispatch {
    var id := "Message:" + name;
    match FindMessageCommand(v.commands, v.aliases, id)
    case None => Quiet(v.cooldowns)
    case Some(c) =>
      if !c.commandType.Message? || c.disabled || (DevOnly(c) && m.authorId !in v.developers) then Quiet(v.cooldowns)
      else
        match Includes(c.Field("contexts"), if m.guild.Some? then "Guild" else "BotDM")
        case Failure(e) => Dispatch([], v.cooldowns, Some(e))
        case Success(false) => Quiet(v.cooldowns)
        case Success(true) => MessageGates(v, m, c, id, args, resolve, now, outcome)
  }

  /** What calling `includes` on a `contexts` value that has none throws. */
  const ContextsTypeError: Cause := Foreign("TypeError: command.contexts.includes is not a function")

  /**
   * A message command runs only when every gate passed: a non-bot author, the
   * interceptor's consent, a prefix and a command name, an enabled message
   * command (developer-only ones for developers only) allowed in this kind of
   * channel, the member's channel permissions and the bot's guild-wide
   * permissions, and no cooldown left. It then runs exactly once, between
   * `execute` and its outcome, and the call is recorded under the typed id.
   */
  lemma MessageRunsOnlyAfterGates(v: View, m: Msg, allows: bool, resolve: Val -> Permissions, now: int, outcome: Option<Cause>)
    requires Executes(HandleMessage(v, m, allows, resolve, now, outcome).steps)
    ensures var d := HandleMessage(v, m, allows, resolve, now, outcome);
      && m.content != "" && !m.authorIsBot
      && (v.handlers.messageInterceptor ==> allows)
      && ParseInvocation(m.content, v.selfId, v.prefix).Some?
      && var (name, args) := ParseInvocation(m.content, v.selfId, v.prefix).value;
         var id := "Message:" + name;
         && FindMessageCommand(v.commands, v.aliases, id).Some?
         && var c := FindMessageCommand(v.commands, v.aliases, id).value;
            && c.commandType.Message? && !c.disabled
            && (DevOnly(c) ==> m.authorId in v.developers)
            && Includes(c.Field("contexts"), if m.guild.Some? then "Guild" else "BotDM") == Success(true)
            && (m.guild.Some? && Truthy(c.memberPermissions) ==> resolve(c.memberPermissions) <= ChannelPermissions(m.guild.value.executor))
            && (m.guild.Some? && Truthy(c.clientPermissions) ==> resolve(c.clientPermissions) <= m.guild.value.me.guildWide)
            && CooldownGate(v.cooldowns, id, m.authorId, c.cooldown, now).Pass?
            && d.steps == RunSteps(c.id, Some(args), outcome)
            && d.cooldowns == CooldownGate(v.cooldowns, id, m.authorId, c.cooldown, now).cooldowns
            && d.rejection.None?
  {
    MessageReachesCall(v, m, allows, resolve, now, outcome);
    var (name, args) := ParseInvocation(m.content, v.selfId, v.prefix).value;
    CallReachesGates(v, m, name, args, resolve, now, outcome);
    var id := "Message:" + name;
    var c := FindMessageCommand(v.commands, v.aliases, id).value;
    MessageGatesRun(v, m, c, id, args, resolve, now, outcome);
  }

  /**
   * Every gate of `_handleMessage` before the cooldown lets the message
   * through: a non-bot author, the interceptor's consent, a prefix and a
   * command name, an enabled message command (developer-only ones for
   * developers only) allowed in this kind of channel, the member's channel
   * permissions and the bot's guild-wide permissions.
   */
  predicate MessagePassesGates(v: View, m: Msg, allows: bool, resolve: Val -> Permissions) {
    && m.content != "" && !m.authorIsBot
    && (v.handlers.messageInterceptor ==> allows)
    && ParseInvocation(m.content, v.selfId, v.prefix).Some?
    && var id := "Message:" + ParseInvocation(m.content, v.selfId, v.prefix).value.0;
       && FindMessageCommand(v.commands, v.aliases, id).Some?
       && var c := FindMessageCommand(v.commands, v.aliases, id).value;
          && c.commandType.Message? && !c.disabled
          && (DevOnly(c) ==> m.authorId in v.developers)
          && Includes(c.Field("contexts"), if m.guild.Some? then "Guild" else "BotDM") == Success(true)
          && (m.guild.Some? && Truthy(c.memberPermissions) ==> resolve(c.memberPermissions) <= ChannelPermissions(m.guild.value.executor))
          && (m.guild.Some? && Truthy(c.clientPermissions) ==> resolve(c.clientPermissions) <= m.guild.value.me.guildWide)
  }

  /**
   * The converse of `MessageRunsOnlyAfterGates`: a message that passes every
   * gate and the cooldown runs the named command exactly once, with its
   * arguments, records the call and throws nothing.
   */
  lemma MessageRunsWhenGatesPass(v: View, m: Msg, allows: bool, resolve: Val -> Permissions, now: int, outcome: Option<Cause>)
    requires MessagePassesGates(v, m, allows, resolve)
    requires var (name, args) := ParseInvocation(m.content, v.selfId, v.prefix).value;
      var c := FindMessageCommand(v.commands, v.aliases, "Message:" + name).value;
      CooldownGate(v.cooldowns, "Message:" + name, m.authorId, c.cooldown, now).Pass?
    ensures var (name, args) := ParseInvocation(m.content, v.selfId, v.prefix).value;
      var c := FindMessageCommand(v.commands, v.aliases, "Message:" + name).value;
      var d := HandleMessage(v, m, allows, resolve, now, outcome);
      && Executes(d.steps)
      && d.steps == RunSteps(c.id, Some(args), outcome)
      && d.cooldowns == CooldownGate(v.cooldowns, "Message:" + name, m.authorId, c.cooldown, now).cooldowns
      && d.rejection.None?
  {
  }

  /**
   * A message that passes every gate but meets a running cooldown gets the
   * cooldown notice (to the handler, or as a reply) with the expiry time;
   * nothing runs and no cooldown changes.
   */
  lemma MessageCooldownWaits(v: View, m: Msg, allows: bool, resolve: Val -> Permissions, now: int, outcome: Option<Cause>)
    requires MessagePassesGates(v, m, allows, resolve)
    requires var (name, args) := ParseInvocation(m.content, v.selfId, v.prefix).value;
      var c := FindMessageCommand(v.commands, v.aliases, "Message:" + name).value;
      CooldownGate(v.cooldowns, "Message:" + name, m.authorId, c.cooldown, now).Wait?
    ensures var (name, args) := ParseInvocation(m.content, v.selfId, v.prefix).value;
      var c := FindMessageCommand(v.commands, v.aliases, "Message:" + name).value;
      var expiry := CooldownGate(v.cooldowns, "Message:" + name, m.authorId, c.cooldown, now).expiry;
      HandleMessage(v, m, allows, resolve, now, outcome) == Dispatch(WaitSteps(v.handlers, c.id, expiry, false), v.cooldowns, None)
  {
  }

  /** A dispatch runs a command when its first step is `execute`. */
  predicate Executes(steps: seq<Step>) {
    |steps| > 0 && steps[0].Execute?
  }

  /** The permission and cooldown gates end in a run only when each let the call through. */
  lemma MessageGatesRun(v: View, m: Msg, c: Command, id: string, args: seq<string>, resolve: Val -> Permissions, now: int, outcome: Option<Cause>)
    requires Executes(MessageGates(v, m, c, id, args, resolve, now, outcome).steps)
    ensures var d := MessageGates(v, m, c, id, args, resolve, now, outcome);
      && (m.guild.Some? && Truthy(c.memberPermissions) ==> resolve(c.memberPermissions) <= ChannelPermissions(m.guild.value.executor))
      && (m.guild.Some? && Truthy(c.clientPermissions) ==> resolve(c.clientPermissions) <= m.guild.value.me.guildWide)
      && CooldownGate(v.cooldowns, id, m.authorId, c.cooldown, now).Pass?
      && d.steps == RunSteps(c.id, Some(args), outcome)
      && d.cooldowns == CooldownGate(v.cooldowns, id, m.authorId, c.cooldown, now).cooldowns
      && d.rejection.None?
  {
  }

  /** Before the command lookup: which message gets as far as naming a command. */
  lemma MessageReachesCall(v: View, m: Msg, allows: bool, resolve: Val -> Permissions, now: int, outcome: Option<Cause>)
    requires Executes(HandleMessage(v, m, allows, resolve, now, outcome).steps)
    ensures m.content != "" && !m.authorIsBot && (v.handlers.messageInterceptor ==> allows)
    ensures ParseInvocation(m.content, v.selfId, v.prefix).Some?
    ensures var p := ParseInvocation(m.content, v.selfId, v.prefix).value;
      HandleMessage(v, m, allows, resolve, now, outcome) == MessageCommandCall(v, m, p.0, p.1, resolve, now, outcome)
  {
  }

  /** From the lookup to the permission checks: which command a message reaches. */
  lemma CallReachesGates(v: View, m: Msg, name: string, args: seq<string>, resolve: Val -> Permissions, now: int, outcome: Option<Cause>)
    requires Executes(MessageCommandCall(v, m, name, args, resolve, now, outcome).steps)
    ensures FindMessageCommand(v.commands, v.aliases, "Message:" + name).Some?
    ensures var c := FindMessageCommand(v.commands, v.aliases, "Message:" + name).value;
      && c.commandType.Message? && !c.disabled
      && (DevOnly(c) ==> m.authorId in v.developers)
      && Includes(c.Field("contexts"), if m.guild.Some? then "Guild" else "BotDM") == Success(true)
      && MessageCommandCall(v, m, name, args, resolve, now, outcome) == MessageGates(v, m, c, "Message:" + name, args, resolve, now, outcome)
  {
  }

  /** A message that runs no command changes no cooldown and takes at most one step (a reply or a handler call). */
  lemma MessageWithoutRunKeepsCooldowns(v: View, m: Msg, allows: bool, resolve: Val -> Permissions, now: int, outcome: Option<Cause>)
    requires !Executes(HandleMessage(v, m, allows, resolve, now, outcome).steps)
    ensures HandleMessage(v, m, allows, resolve, now, outcome).cooldowns == v.cooldowns
    ensures |HandleMessage(v, m, allows, resolve, now, outcome).steps| <= 1
  {
    var p := ParseInvocation(m.content, v.selfId, v.prefix);
    if !(m.content == "" || m.authorIsBot) && !(v.handlers.messageInterceptor && !allows) && p.Some? {
      assert HandleMessage(v, m, allows, resolve, now, outcome) == MessageCommandCall(v, m, p.value.0, p.value.1, resolve, now, outcome);
      CallQuiet(v, m, p.value.0, p.value.1, resolve, now, outcome);
    }
  }

  lemma CallQuiet(v: View, m: Msg, name: string, args: seq<string>, resolve: Val -> Permissions, now: int, outcome: Option<Cause>)
    ensures !Executes(MessageCommandCall(v, m, name, args, resolve, now, outcome).steps) ==>
      MessageCommandCall(v, m, name, args, resolve, now, outcome).cooldowns == v.cooldowns
      && |MessageCommandCall(v, m, name, args, resolve, now, outcome).steps| <= 1
  {
    var c := FindMessageCommand(v.commands, v.aliases, "Message:" + name);
    if c.Some? {
      MessageGatesQuiet(v, m, c.value, "Message:" + name, args, resolve, now, outcome);
    }
  }

  lemma MessageGatesQuiet(v: View, m: Msg, c: Command, id: string, args: seq<string>, resolve: Val -> Permissions, now: int, outcome: Option<Cause>)
    ensures !Executes(MessageGates(v, m, c, id, args, resolve, now, outcome).steps) ==>
      MessageGates(v, m, c, id, args, resolve, now, outcome).cooldowns == v.cooldowns
      && |MessageGates(v, m, c, id, args, resolve, now, outcome).steps| <= 1
  {
  }

  /**
   * The prefix is matched against the lower-cased message and the command
   * name is lower-cased, so the case of the message never changes which
   * command is looked up.
   */
  lemma CommandNameIgnoresCase(content: string, selfId: string, prefix: string)
    ensures ParseInvocation(content, selfId, prefix).Some? <==> ParseInvocation(ToLower(content), selfId, prefix).Some?
    ensures ParseInvocation(content, selfId, prefix).Some? ==>
      ParseInvocation(content, selfId, prefix).value.0 == ParseInvocation(ToLower(content), selfId, prefix).value.0
  {
    MatchedPrefixLower(content, selfId, prefix);
    var p := MatchedPrefix(content, selfId, prefix);
    var lc := ToLower(content);
    if p.Some? {
      var k := |p.value|;
      var rest := content[k..];
      ToLowerSlice(content, k, |content|);
      assert content[k..|content|] == rest && lc[k..|content|] == lc[k..];
      var lrest := lc[k..];
      assert lrest == ToLower(rest);
      FirstWordLower(rest);
      var word := ToLower(SplitSpaces(Trim(rest))[0]);
      assert ParseInvocation(content, selfId, prefix) == if word == "" then None else Some((word, SplitSpaces(Trim(rest))[1..]));
      assert ParseInvocation(lc, selfId, prefix) == if word == "" then None else Some((word, SplitSpaces(Trim(lrest))[1..]));
    }
  }

  lemma MatchedPrefixLower(content: string, selfId: string, prefix: string)
    ensures MatchedPrefix(ToLower(content), selfId, prefix) == MatchedPrefix(content, selfId, prefix)
  {
    ToLowerIdempotent(content);
  }

  /** The lower-cased first word does not depend on the case of the text it is taken from. */
  lemma FirstWordLower(rest: string)
    ensures ToLower(SplitSpaces(Trim(ToLower(rest)))[0]) == ToLower(SplitSpaces(Trim(rest))[0])
  {
    TrimLower(rest);
    var x := Trim(rest);
    IndexOfSpaceLower(x);
    var i := IndexOf(x, ' ');
    ToLowerSlice(x, 0, i);
    assert x[0..i] == x[..i] && ToLower(x)[0..i] == ToLower(x)[..i];
    assert SplitSpaces(ToLower(x))[0] == ToLower(x[..i]);
    ToLowerIdempotent(x[..i]);
  }

  /** A configured prefix with an upper-case letter never matches: the content it is compared with is lower-cased. */
  lemma UpperCasePrefixNeverMatches(content: string, selfId: string, prefix: string, i: int)
    requires 0 <= i < |prefix| && 'A' <= prefix[i] <= 'Z'
    ensures MatchedPrefix(content, selfId, prefix) == MatchedPrefix(content, selfId, "")
  {
  }

  /**
   * Aliases are stored under the bare alias but looked up under
   * `Message:<alias>`: for one table, an alias bound as usual does not find
   * its command.
   */
  lemma AliasLookupMisses(c: Command)
    ensures FindMessageCommand(map["Message:help" := c], map["h" := "Message:help"], "Message:h") == None
  {
  }

  /** For one table: an alias declared as `Message:<alias>` finds its command. */
  lemma PrefixedAliasFinds(c: Command)
    ensures FindMessageCommand(map["Message:help" := c], map["Message:h" := "Message:help"], "Message:h") == Some(c)
  {
  }

  /**
   * The bot's permissions are checked guild-wide but the missing ones are
   * listed from the channel: for one member pair, a bot barred only
   * guild-wide is turned away with nothing listed as missing.
   */
  lemma ClientPermissionsListedFromChannel(v: View, c: Command, resolve: Val -> Permissions, now: int, outcome: Option<Cause>)
    requires !v.handlers.onClientPermissions
    requires c.clientPermissions == Str("SendMessages") && resolve(Str("SendMessages")) == {"SendMessages"}
    requires !Truthy(c.memberPermissions)
    ensures var m := Msg("!x", "42", false, Some(GuildSide(Member({}, None), Member({}, Some({"SendMessages"})))));
      MessageGates(v, m, c, "Message:x", [], resolve, now, outcome)
      == Dispatch([ClientPermissionsReply({}, false)], v.cooldowns, None)
  {
    assert {"SendMessages"} - {"SendMessages"} == {};
  }

  /**
   * Binding bare aliases never changes what a message command name finds:
   * the lookup under `Message:<a>` gives the same after the alias walk as
   * before, unless `Message:<a>` itself was declared as an alias.
   */
  lemma BareAliasesChangeNoLookup(commands: map<string, Command>, aliases: map<string, string>, list: seq<Val>, id: string, a: string)
    requires Str("Message:" + a) !in list
    ensures FindMessageCommand(commands, CommandsRegistry.AddAliases(aliases, list, id), "Message:" + a)
         == FindMessageCommand(commands, aliases, "Message:" + a)
  {
    CommandsRegistry.AddAliasesBinds(aliases, list, id, "Message:" + a);
  }

  /**
   * A free alias declared as `Message:<a>` makes the name `a` find the
   * declaring command, when no command is filed under `Message:<a>` itself.
   */
  lemma PrefixedAliasesFound(commands: map<string, Command>, aliases: map<string, string>, list: seq<Val>, id: string, a: string)
    requires id in commands && "Message:" + a !in commands
    requires "Message:" + a !in aliases && Str("Message:" + a) in list
    ensures FindMessageCommand(commands, CommandsRegistry.AddAliases(aliases, list, id), "Message:" + a) == Some(commands[id])
  {
    CommandsRegistry.AddAliasesBinds(aliases, list, id, "Message:" + a);
  }

  /**
   * A guild member who lacks some of a command's member permissions in the
   * channel is turned away before the bot's check and the cooldown: the
   * handler (or the fixed reply) gets exactly the permissions the member
   * lacks, nothing runs and no cooldown changes.
   */
  lemma MessageMemberDenied(v: View, m: Msg, c: Command, id: string, args: seq<string>, resolve: Val -> Permissions, now: int, outcome: Option<Cause>)
    requires m.guild.Some? && Truthy(c.memberPermissions)
    requires !(resolve(c.memberPermissions) <= ChannelPermissions(m.guild.value.executor))
    ensures var d := MessageGates(v, m, c, id, args, resolve, now, outcome);
      var missing := resolve(c.memberPermissions) - ChannelPermissions(m.guild.value.executor);
      && missing != {}
      && (forall p :: p in missing <==> p in resolve(c.memberPermissions) && p !in ChannelPermissions(m.guild.value.executor))
      && d.steps == (if v.handlers.onMemberPermissions then [MemberPermissionsHandled(c.id, missing)] else [Reply(MemberDeniedText, false)])
      && d.cooldowns == v.cooldowns && d.rejection.None?
  {
    var p :| p in resolve(c.memberPermissions) && p !in ChannelPermissions(m.guild.value.executor);
    assert p in resolve(c.memberPermissions) - ChannelPermissions(m.guild.value.executor);
  }

  /**
   * A bot that lacks some of a command's client permissions guild-wide is
   * turned away once the member check passed. What it is told is missing is
   * taken from its channel permissions instead, so the list is empty exactly
   * when the channel grants everything required.
   */
  lemma MessageClientDenied(v: View, m: Msg, c: Command, id: string, args: seq<string>, resolve: Val -> Permissions, now: int, outcome: Option<Cause>)
    requires m.guild.Some? && Truthy(c.clientPermissions)
    requires Truthy(c.memberPermissions) ==> resolve(c.memberPermissions) <= ChannelPermissions(m.guild.value.executor)
    requires !(resolve(c.clientPermissions) <= m.guild.value.me.guildWide)
    ensures var d := MessageGates(v, m, c, id, args, resolve, now, outcome);
      var missing := resolve(c.clientPermissions) - ChannelPermissions(m.guild.value.me);
      && (missing == {} <==> resolve(c.clientPermissions) <= ChannelPermissions(m.guild.value.me))
      && d.steps == (if v.handlers.onClientPermissions then [ClientPermissionsHandled(c.id, missing)] else [ClientPermissionsReply(missing, false)])
      && d.cooldowns == v.cooldowns && d.rejection.None?
  {
    var missing := resolve(c.clientPermissions) - ChannelPermissions(m.guild.value.me);
    if missing == {} {
      forall p | p in resolve(c.clientPermissions) ensures p in ChannelPermissions(m.guild.value.me) {
        assert p !in missing;
      }
    }
  }

  /**
   * A message command whose `contexts` is neither an array nor a string makes
   * the handler throw, with nothing emitted and no cooldown started: reading
   * `includes` of `undefined` or `null` fails, and any other value has no
   * `includes` to call.
   */
  lemma ContextsWithoutIncludesReject(v: View, m: Msg, name: string, args: seq<string>, resolve: Val -> Permissions, now: int, outcome: Option<Cause>)
    requires FindMessageCommand(v.commands, v.aliases, "Message:" + name).Some?
    requires var c := FindMessageCommand(v.commands, v.aliases, "Message:" + name).value;
      && c.commandType.Message? && !c.disabled && (DevOnly(c) ==> m.authorId in v.developers)
      && !c.Field("contexts").Arr? && !c.Field("contexts").Str?
    ensures var contexts := FindMessageCommand(v.commands, v.aliases, "Message:" + name).value.Field("contexts");
      MessageCommandCall(v, m, name, args, resolve, now, outcome)
      == Dispatch([], v.cooldowns, Some(if IsNullish(contexts) then CommandFactory.PropertyReadError(contexts, "includes") else ContextsTypeError))
  {
  }

  // ---------------------------------------------------- command interactions

  /** The kinds of interaction the dispatchers tell apart. */
  datatype InteractionKind = ChatInput | UserContextMenu | MessageContextMenu | AutocompleteKind | OtherKind

  datatype Channel = Channel(dmBased: bool, sendable: bool)

  /**
   * An interaction: its kind, command name and user, the bot's member when it
   * comes from a guild, its channel, and (for autocomplete) the focused option.
   */
  datatype Interaction = Interaction(
    kind: InteractionKind,
    commandName: string,
    userId: string,
    guild: Option<Member>,
    channel: Option<Channel>,
    focusedName: string,
    focusedValue: string)

  /** `_getCommandId`: the command-type prefix of the id an interaction is dispatched to. */
  function CommandIdPrefix(kind: InteractionKind): string {
    match kind
    case ChatInput => "Slash"
    case UserContextMenu => "ContextUser"
    case MessageContextMenu => "ContextMessage"
    case _ => "unknown"
  }

  predicate IsCommandInteraction(kind: InteractionKind) {
    kind.ChatInput? || kind.UserContextMenu? || kind.MessageContextMenu?
  }

  /** The application-command type code an interaction of this kind carries. */
  function KindCode(kind: InteractionKind): int
    requires IsCommandInteraction(kind)
  {
    match kind
    case ChatInput => ChatInputCode
    case UserContextMenu => UserCode
    case MessageContextMenu => MessageCode
  }

  /**
   * An interaction reaches the command that was registered with its type
   * code: the id prefix of the interaction's kind is the type name of the
   * one interaction command type whose published code the interaction carries.
   */
  lemma InteractionIdsMatchPublishedTypes(kind: InteractionKind, t: CommandType)
    requires IsCommandInteraction(kind) && !t.Message?
    ensures CommandIdPrefix(kind) == TypeName(t) <==> ResolveCommandType(t) == KindCode(kind)
  {
  }

  /** The bot's permissions as the interaction check sees them: in a sendable channel, else guild-wide. */
  function BotPermissions(i: Interaction): Permissions {
    if i.guild.Some? && i.channel.Some? && i.channel.value.sendable then ChannelPermissions(i.guild.value)
    else if i.guild.Some? then i.guild.value.guildWide else {}
  }

  /** The bot's permissions are checked in a guild channel that is not a DM, for a command that names some. */
  predicate ChecksBotPermissions(i: Interaction, c: Command) {
    i.guild.Some? && i.channel.Some? && !i.channel.value.dmBased && Truthy(c.clientPermissions)
  }

  /** The gates from the bot's permissions on, and the call, for an interaction command that was found. */
  function InteractionGates(v: View, i: Interaction, c: Command, id: string, resolve: Val -> Permissions, now: int, outcome: Option<Cause>): Dispatch {
    var required := resolve(c.clientPermissions);
    var held := BotPermissions(i);
    if ChecksBotPermissions(i, c) && !(required <= held) then
      Dispatch(if v.handlers.onClientPermissions then [ClientPermissionsHandled(c.id, required - held)] else [ClientPermissionsReply(required - held, true)],
               v.cooldowns, None)
    else
      match CooldownGate(v.cooldowns, id, i.userId, c.cooldown, now)
      case Wait(expiry) => Dispatch(WaitSteps(v.handlers, c.id, expiry, true), v.cooldowns, None)
      case Pass(after) => Dispatch(RunSteps(c.id, None, outcome), after, None)
  }

  /**
   * In a guild channel that is not a DM, a bot lacking some of a command's
   * client permissions is turned away before the cooldown: the handler (or
   * the ephemeral reply) gets exactly the permissions it lacks, nothing runs
   * and no cooldown changes.
   */
  lemma InteractionClientDenied(v: View, i: Interaction, c: Command, id: string, resolve: Val -> Permissions, now: int, outcome: Option<Cause>)
    requires ChecksBotPermissions(i, c) && !(resolve(c.clientPermissions) <= BotPermissions(i))
    ensures var d := InteractionGates(v, i, c, id, resolve, now, outcome);
      var missing := resolve(c.clientPermissions) - BotPermissions(i);
      && missing != {}
      && (forall p :: p in missing <==> p in resolve(c.clientPermissions) && p !in BotPermissions(i))
      && d.steps == (if v.handlers.onClientPermissions then [ClientPermissionsHandled(c.id, missing)] else [ClientPermissionsReply(missing, true)])
      && d.cooldowns == v.cooldowns && d.rejection.None?
  {
    var p :| p in resolve(c.clientPermissions) && p !in BotPermissions(i);
    assert p in resolve(c.clientPermissions) - BotPermissions(i);
  }

  /** `_handleInteraction` of the commands module; the parameters are those of `HandleMessage`. */
  function HandleInteraction(v: View, i: Interaction, allows: bool, resolve: Val -> Permissions, now: int, outcome: Option<Cause>): Dispatch {
    if !IsCommandInteraction(i.kind) then Quiet(v.cooldowns)
    else if v.handlers.interactionInterceptor && !allows then Quiet(v.cooldowns)
    else
      var id := CommandIdPrefix(i.kind) + ":" + i.commandName;
      if id !in v.commands || v.commands[id].disabled || v.commands[id].commandType.Message? then
        Dispatch([Unknown(i.commandName)], v.cooldowns, None)
      else InteractionGates(v, i, v.commands[id], id, resolve, now, outcome)
  }

  /**
   * Once a command interaction gets past the interceptor, `unknown` is
   * emitted exactly when no enabled application command is filed under
   * `<kind prefix>:<name>`. A command runs only after the bot's permission
   * check and the cooldown let it through, and then exactly once.
   */
  lemma InteractionOutcome(v: View, i: Interaction, allows: bool, resolve: Val -> Permissions, now: int, outcome: Option<Cause>)
    requires IsCommandInteraction(i.kind) && (v.handlers.interactionInterceptor ==> allows)
    ensures var id := CommandIdPrefix(i.kind) + ":" + i.commandName;
      var d := HandleInteraction(v, i, allows, resolve, now, outcome);
      && (d.steps == [Unknown(i.commandName)] <==>
            id !in v.commands || v.commands[id].disabled || v.commands[id].commandType.Message?)
      && (Executes(d.steps) ==>
            && id in v.commands && !v.commands[id].disabled && !v.commands[id].commandType.Message?
            && (ChecksBotPermissions(i, v.commands[id]) ==> resolve(v.commands[id].clientPermissions) <= BotPermissions(i))
            && CooldownGate(v.cooldowns, id, i.userId, v.commands[id].cooldown, now).Pass?
            && d.steps == RunSteps(v.commands[id].id, None, outcome)
            && d.cooldowns == CooldownGate(v.cooldowns, id, i.userId, v.commands[id].cooldown, now).cooldowns)
      && d.rejection.None?
  {
    var id := CommandIdPrefix(i.kind) + ":" + i.commandName;
    var d := HandleInteraction(v, i, allows, resolve, now, outcome);
    if id in v.commands && !v.commands[id].disabled && !v.commands[id].commandType.Message? {
      var c := v.commands[id];
      if Executes(d.steps) {
        var k :| 0 <= k < |d.steps| && d.steps[k].Execute?;
      }
    }
  }

  /**
   * Every gate of `_handleInteraction` before the cooldown lets a command
   * interaction through: the interceptor's consent, an enabled application
   * command filed under the interaction's typed id, and the bot's permissions
   * where they are checked.
   */
  predicate InteractionPassesGates(v: View, i: Interaction, allows: bool, resolve: Val -> Permissions) {
    && IsCommandInteraction(i.kind) && (v.handlers.interactionInterceptor ==> allows)
    && var id := CommandIdPrefix(i.kind) + ":" + i.commandName;
       && id in v.commands && !v.commands[id].disabled && !v.commands[id].commandType.Message?
       && (ChecksBotPermissions(i, v.commands[id]) ==> resolve(v.commands[id].clientPermissions) <= BotPermissions(i))
  }

  /**
   * The converse of the run clause of `InteractionOutcome`: a command
   * interaction that passes every gate and the cooldown runs the command
   * exactly once, records the call and throws nothing.
   */
  lemma InteractionRunsWhenGatesPass(v: View, i: Interaction, allows: bool, resolve: Val -> Permissions, now: int, outcome: Option<Cause>)
    requires InteractionPassesGates(v, i, allows, resolve)
    requires var id := CommandIdPrefix(i.kind) + ":" + i.commandName;
      CooldownGate(v.cooldowns, id, i.userId, v.commands[id].cooldown, now).Pass?
    ensures var id := CommandIdPrefix(i.kind) + ":" + i.commandName;
      var d := HandleInteraction(v, i, allows, resolve, now, outcome);
      && Executes(d.steps)
      && d.steps == RunSteps(v.commands[id].id, None, outcome)
      && d.cooldowns == CooldownGate(v.cooldowns, id, i.userId, v.commands[id].cooldown, now).cooldowns
      && d.rejection.None?
  {
  }

  /**
   * A command interaction that passes every gate but meets a running
   * cooldown gets the ephemeral cooldown notice (or the handler does) with the
   * expiry time; nothing runs and no cooldown changes.
   */
  lemma InteractionCooldownWaits(v: View, i: Interaction, allows: bool, resolve: Val -> Permissions, now: int, outcome: Option<Cause>)
    requires InteractionPassesGates(v, i, allows, resolve)
    requires var id := CommandIdPrefix(i.kind) + ":" + i.commandName;
      CooldownGate(v.cooldowns, id, i.userId, v.commands[id].cooldown, now).Wait?
    ensures var id := CommandIdPrefix(i.kind) + ":" + i.commandName;
      var expiry := CooldownGate(v.cooldowns, id, i.userId, v.commands[id].cooldown, now).expiry;
      HandleInteraction(v, i, allows, resolve, now, outcome) == Dispatch(WaitSteps(v.handlers, v.commands[id].id, expiry, true), v.cooldowns, None)
  {
  }

  /** Neither dispatcher of the commands module reacts to an interaction that is not a command. */
  lemma OnlyCommandInteractions(v: View, i: Interaction, allows: bool, resolve: Val -> Permissions, now: int, outcome: Option<Cause>)
    requires !IsCommandInteraction(i.kind)
    ensures HandleInteraction(v, i, allows, resolve, now, outcome) == Quiet(v.cooldowns)
  {
  }
}
