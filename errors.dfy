/**
 * The framework's error kinds and how their names and messages are formatted
 * (src/utils/errors.ts).
 */
module Errors {
  import opened Wrappers
  import opened Text

  /** `FrameworkError` extends `Error`; `FrameworkTypeError` extends `TypeError`. */
  datatype ErrorClass = PlainError | TypeError

  /** An error id together with the values its message is formatted from. */
  datatype ErrorInfo =
    | NoOptions
    | InvalidOption(name: string)
    | InvalidType(name: string, expected: string, actual: string)
    | InvalidValue(name: string, allowed: seq<string>)
    | InvalidValues(name: string, allowed: seq<string>)
    | UnknownComponent(kind: string, id: string)
    | ComponentLoadError(kind: string, cause: Cause)
    | ComponentAlreadyLoaded(kind: string, id: string)
    | AppCommandRegister(cause: Cause, guildId: Option<string>)

  datatype FrameworkError = FrameworkError(errorClass: ErrorClass, info: ErrorInfo)

  /**
   * Anything a call can throw: a framework error, or an error raised elsewhere
   * (evaluating a module, a handler, the platform), known only by its inspected text.
   */
  datatype Cause = Framework(error: FrameworkError) | Foreign(text: string)

  /** `new FrameworkError(id, ...)` */
  function Error(info: ErrorInfo): Cause {
    Framework(FrameworkError(PlainError, info))
  }

  /** `new FrameworkTypeError(id, ...)` */
  function TypeErr(info: ErrorInfo): Cause {
    Framework(FrameworkError(TypeError, info))
  }

  /** The id the error was constructed with. */
  function IdOf(info: ErrorInfo): string {
    match info
    case NoOptions => "NoOptions"
    case InvalidOption(_) => "InvalidOption"
    case InvalidType(_, _, _) => "InvalidType"
    case InvalidValue(_, _) => "InvalidValue"
    case InvalidValues(_, _) => "InvalidValues"
    case UnknownComponent(_, _) => "UnknownComponent"
    case ComponentLoadError(_, _) => "ComponentLoadError"
    case ComponentAlreadyLoaded(_, _) => "ComponentAlreadyLoaded"
    case AppCommandRegister(_, _) => "AppCommandRegister"
  }

  /** The `name` property the constructors set. */
  function Name(e: FrameworkError): string {
    (if e.errorClass == PlainError then "Error [ " else "TypeError [ ") + IdOf(e.info) + " ]"
  }

  /** Reads the class and the id back out of a name. */
  function ParseName(s: string): Option<(ErrorClass, string)> {
    if |s| >= 10 && s[..8] == "Error [ " && s[|s| - 2..] == " ]" then Some((PlainError, s[8..|s| - 2]))
    else if |s| >= 14 && s[..12] == "TypeError [ " && s[|s| - 2..] == " ]" then Some((TypeError, s[12..|s| - 2]))
    else None
  }

  lemma NameRoundTrip(e: FrameworkError)
    ensures ParseName(Name(e)) == Some((e.errorClass, IdOf(e.info)))
  {
    var id := IdOf(e.info);
    var s := Name(e);
    assert |id| >= 9;
    if e.errorClass == PlainError {
      assert s[..8] == "Error [ " && s[8..|s| - 2] == id && s[|s| - 2..] == " ]";
    } else {
      assert s[..8] != "Error [ " by { assert s[0] == 'T'; }
      assert s[..12] == "TypeError [ " && s[12..|s| - 2] == id && s[|s| - 2..] == " ]";
    }
  }

  function Quoted(s: string): string {
    "\"" + s + "\""
  }

  /** `values.map(v => `"${v}"`).join(' | ')` */
  function QuotedList(values: seq<string>): string {
    Join(seq(|values|, i requires 0 <= i < |values| => Quoted(values[i])), " | ")
  }

  /** Where the i-th value's quoted form starts in QuotedList(values). */
  function QuotedOffset(values: seq<string>, i: nat): nat
    requires i <= |values|
  {
    if i == 0 then 0 else QuotedOffset(values, i - 1) + |values[i - 1]| + 5
  }

  lemma {:induction false} QuotedListShape(values: seq<string>)
    requires |values| > 1
    ensures QuotedList(values) == Quoted(values[0]) + " | " + QuotedList(values[1..])
  {
    var qs := seq(|values|, i requires 0 <= i < |values| => Quoted(values[i]));
    var rest := seq(|values| - 1, i requires 0 <= i < |values| - 1 => Quoted(values[1..][i]));
    assert qs[1..] == rest;
  }

  lemma {:induction false} QuotedOffsetShift(values: seq<string>, i: nat)
    requires 0 < i <= |values|
    ensures QuotedOffset(values, i) == |Quoted(values[0])| + 3 + QuotedOffset(values[1..], i - 1)
  {
    if i > 1 {
      QuotedOffsetShift(values, i - 1);
    }
  }

  /** Every allowed value appears, quoted, at its own offset, and the offsets increase with the position. */
  lemma {:induction false} QuotedListInOrder(values: seq<string>, i: nat)
    requires i < |values|
    ensures OccursAt(QuotedList(values), Quoted(values[i]), QuotedOffset(values, i))
    ensures i + 1 < |values| ==> QuotedOffset(values, i) < QuotedOffset(values, i + 1)
  {
    var q0 := Quoted(values[0]);
    if |values| == 1 {
      assert QuotedList(values) == q0;
    } else {
      QuotedListShape(values);
      var tail := QuotedList(values[1..]);
      if i == 0 {
        assert QuotedList(values)[0..|q0|] == q0;
      } else {
        QuotedListInOrder(values[1..], i - 1);
        QuotedOffsetShift(values, i);
        var off := QuotedOffset(values[1..], i - 1);
        var q := Quoted(values[i]);
        assert tail[off..off + |q|] == q;
        assert QuotedList(values) == (q0 + " | ") + tail;
        assert QuotedList(values)[|q0| + 3 + off..|q0| + 3 + off + |q|] == tail[off..off + |q|];
      }
    }
  }

  function InspectedGuild(guildId: Option<string>): string {
    if guildId.Some? && guildId.value != "" then "to guild " + Quoted(guildId.value) else ""
  }

  /** The message text `messages[id](...values)` formats. */
  function Message(info: ErrorInfo): string
    decreases info, 1
  {
    match info
    case NoOptions => "No options object was provided."
    case InvalidOption(n) => "No " + Quoted(n) + " option was provided."
    case InvalidType(n, e, a) => "Expected " + Quoted(n) + " to be of type " + Quoted(e) + ", but got " + Quoted(a) + "."
    case InvalidValue(n, vs) => "Expected " + Quoted(n) + " to be any one of the listed values: " + QuotedList(vs)
    case InvalidValues(n, vs) => "Expected " + Quoted(n) + " to contain only the listed values: " + QuotedList(vs)
    case UnknownComponent(t, id) => "Encountered an error as there is no " + Quoted(t) + " loaded with the id " + Quoted(id) + "."
    case ComponentLoadError(t, c) => "Encountered an error while loading the " + Quoted(t) + ": \n" + Inspect(c)
    case ComponentAlreadyLoaded(t, id) => "Encountered an error as a " + Quoted(t) + " with the id " + Quoted(id) + " is already loaded."
    case AppCommandRegister(c, g) => "Encountered an error while registering commands " + InspectedGuild(g) + ": \n" + Inspect(c)
  }

  /** `util.inspect(error)`, without the stack trace. */
  function Inspect(c: Cause): string
    decreases c, 0
  {
    match c
    case Framework(e) => Name(e) + ": " + Message(e.info)
    case Foreign(t) => t
  }

  /** InvalidValue names the option first and then lists every allowed value, quoted, in order. */
  lemma InvalidValueMessage(n: string, values: seq<string>, i: nat)
    requires i < |values|
    ensures StartsWith(Message(InvalidValue(n, values)), "Expected " + Quoted(n))
    ensures OccursAt(Message(InvalidValue(n, values)), Quoted(values[i]), 48 + |n| + QuotedOffset(values, i))
  {
    var pre := "Expected " + Quoted(n);
    var mid := " to be any one of the listed values: ";
    QuotedListInOrder(values, i);
    HeaderThenList(pre, mid, QuotedList(values), Quoted(values[i]), QuotedOffset(values, i));
  }

  /** InvalidValues names the option first and then lists every allowed value, quoted, in order. */
  lemma InvalidValuesMessage(n: string, values: seq<string>, i: nat)
    requires i < |values|
    ensures StartsWith(Message(InvalidValues(n, values)), "Expected " + Quoted(n))
    ensures OccursAt(Message(InvalidValues(n, values)), Quoted(values[i]), 47 + |n| + QuotedOffset(values, i))
  {
    var pre := "Expected " + Quoted(n);
    var mid := " to contain only the listed values: ";
    QuotedListInOrder(values, i);
    HeaderThenList(pre, mid, QuotedList(values), Quoted(values[i]), QuotedOffset(values, i));
  }

  lemma HeaderThenList(pre: string, mid: string, list: string, t: string, off: int)
    requires OccursAt(list, t, off)
    ensures StartsWith(pre + mid + list, pre)
    ensures OccursAt(pre + mid + list, t, |pre| + |mid| + off)
  {
    assert pre + mid + list == pre + (mid + list);
    PrefixOfConcat(pre, mid + list);
    assert (pre + mid + list)[|pre| + |mid| + off..|pre| + |mid| + off + |t|] == list[off..off + |t|];
  }

  /** InvalidType names the option, the expected type and the actual type, in that order. */
  lemma InvalidTypeMessage(n: string, expected: string, actual: string)
    ensures var m := Message(InvalidType(n, expected, actual));
      && OccursAt(m, Quoted(n), 9)
      && OccursAt(m, Quoted(expected), 26 + |n|)
      && OccursAt(m, Quoted(actual), 38 + |n| + |expected|)
  {
    ThreeSlots("Expected ", Quoted(n), " to be of type ", Quoted(expected), ", but got ", Quoted(actual), ".");
  }

  /** UnknownComponent embeds the kind and the id. */
  lemma UnknownComponentMessage(kind: string, id: string)
    ensures OccursAt(Message(UnknownComponent(kind, id)), Quoted(kind), 36)
    ensures OccursAt(Message(UnknownComponent(kind, id)), Quoted(id), 58 + |kind|)
  {
    var m := Message(UnknownComponent(kind, id));
    var a := "Encountered an error as there is no ";
    var b := a + Quoted(kind) + " loaded with the id ";
    assert m == a + Quoted(kind) + (" loaded with the id " + Quoted(id) + ".");
    ContainsInConcat(a, Quoted(kind), " loaded with the id " + Quoted(id) + ".");
    assert m == b + Quoted(id) + ".";
    ContainsInConcat(b, Quoted(id), ".");
  }

  /** ComponentAlreadyLoaded embeds the kind and the id. */
  lemma ComponentAlreadyLoadedMessage(kind: string, id: string)
    ensures OccursAt(Message(ComponentAlreadyLoaded(kind, id)), Quoted(kind), 26)
    ensures OccursAt(Message(ComponentAlreadyLoaded(kind, id)), Quoted(id), 41 + |kind|)
  {
    var m := Message(ComponentAlreadyLoaded(kind, id));
    var a := "Encountered an error as a ";
    var b := a + Quoted(kind) + " with the id ";
    assert m == a + Quoted(kind) + (" with the id " + Quoted(id) + " is already loaded.");
    ContainsInConcat(a, Quoted(kind), " with the id " + Quoted(id) + " is already loaded.");
    assert m == b + Quoted(id) + " is already loaded.";
    ContainsInConcat(b, Quoted(id), " is already loaded.");
  }

  /** The two component messages cannot be mistaken for each other. */
  lemma ComponentMessagesDiffer(kind: string, id: string, kind': string, id': string)
    ensures Message(UnknownComponent(kind, id)) != Message(ComponentAlreadyLoaded(kind', id'))
  {
    var u := Message(UnknownComponent(kind, id));
    var a := Message(ComponentAlreadyLoaded(kind', id'));
    assert u == "Encountered an error as there is no " + (Quoted(kind) + " loaded with the id " + Quoted(id) + ".");
    assert a == "Encountered an error as a " + (Quoted(kind') + " with the id " + Quoted(id') + " is already loaded.");
    assert u[24] == 't';
    assert a[24] == 'a';
  }

  /**
   * AppCommandRegister mentions the guild only when a non-empty guild id is
   * given: the message with a guild is the message without one with the guild
   * clause inserted after the fixed header.
   */
  lemma AppCommandRegisterGuildClause(c: Cause, guildId: string)
    ensures var without := Message(AppCommandRegister(c, None));
      && StartsWith(without, "Encountered an error while registering commands : \n")
      && Message(AppCommandRegister(c, Some(""))) == without
      && (guildId != "" ==>
            Message(AppCommandRegister(c, Some(guildId)))
            == without[..48] + "to guild " + Quoted(guildId) + without[48..])
  {
    var h := "Encountered an error while registering commands ";
    var tail := ": \n" + Inspect(c);
    var without := Message(AppCommandRegister(c, None));
    assert without == h + tail;
    assert |h| == 48;
    assert without[..48] == h;
    assert without[48..] == tail;
    assert without == (h + ": \n") + Inspect(c);
    PrefixOfConcat(h + ": \n", Inspect(c));
  }
}
