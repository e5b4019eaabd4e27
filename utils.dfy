/**
 * The helpers of src/utils/utils.ts: recursive listing of component files,
 * Discord timestamp markup, and the enum resolution used when publishing
 * application commands.
 */
module Utils {
  import opened Wrappers
  import opened Text
  import opened Js
  import opened Definitions

  // ---------------------------------------------------------------- listFiles

  /** A directory entry: a file, or a sub-directory with its own entries in listing order. */
  datatype Entry = File(name: string) | Directory(name: string, items: seq<Entry>)

  /** `path.join(dir, name)` for a plain entry name. */
  function JoinPath(dir: string, name: string): string {
    dir + "/" + name
  }

  predicate IsSourceFile(name: string) {
    EndsWith(name, ".js") || EndsWith(name, ".ts")
  }

  /** The files `listFiles` collects from the given entries of `dir`, in listing order. */
  function Collect(dir: string, items: seq<Entry>): seq<string>
    decreases items
  {
    if |items| == 0 then []
    else Collect(dir, items[..|items| - 1]) + CollectEntry(dir, items[|items| - 1])
  }

  function CollectEntry(dir: string, e: Entry): seq<string>
    decreases e
  {
    match e
    case Directory(n, sub) => Collect(JoinPath(dir, n), sub)
    case File(n) => if IsSourceFile(n) then [JoinPath(dir, n)] else []
  }

  /**
   * `listFiles(dir)`; `listing` is what reading `dir` yields, `None` when the
   * directory does not exist.
   */
  method ListFiles(dir: string, listing: Option<seq<Entry>>) returns (files: seq<string>)
    ensures listing.None? ==> files == []
    ensures listing.Some? ==> files == Collect(dir, listing.value)
  {
    if listing.None? {
      return [];
    }
    files := ListEntries(dir, listing.value);
  }

  method ListEntries(dir: string, items: seq<Entry>) returns (files: seq<string>)
    ensures files == Collect(dir, items)
    decreases items
  {
    files := [];
    var i := 0;
    while i < |items|
      invariant 0 <= i <= |items|
      invariant files == Collect(dir, items[..i])
    {
      var item := items[i];
      assert items[..i + 1][..i] == items[..i];
      match item {
        case Directory(n, sub) =>
          var inner := ListEntries(JoinPath(dir, n), sub);
          files := files + inner;
        case File(n) =>
          if EndsWith(n, ".js") || EndsWith(n, ".ts") {
            files := files + [JoinPath(dir, n)];
          }
      }
      i := i + 1;
    }
    assert items[..i] == items;
  }

  /** Every file of the tree, in listing order, as (path, entry name); an independent description of the walk. */
  function AllFiles(dir: string, items: seq<Entry>): seq<(string, string)>
    decreases items
  {
    if |items| == 0 then []
    else EntryFiles(dir, items[0]) + AllFiles(dir, items[1..])
  }

  function EntryFiles(dir: string, e: Entry): seq<(string, string)>
    decreases e
  {
    match e
    case Directory(n, sub) => AllFiles(JoinPath(dir, n), sub)
    case File(n) => [(JoinPath(dir, n), n)]
  }

  /** The paths of the files whose name ends in `.js` or `.ts`, in order. */
  function SourcePaths(files: seq<(string, string)>): seq<string> {
    if |files| == 0 then []
    else (if IsSourceFile(files[0].1) then [files[0].0] else []) + SourcePaths(files[1..])
  }

  lemma {:induction false} SourcePathsConcat(a: seq<(string, string)>, b: seq<(string, string)>)
    ensures SourcePaths(a + b) == SourcePaths(a) + SourcePaths(b)
  {
    if |a| > 0 {
      assert (a + b)[0] == a[0];
      assert (a + b)[1..] == a[1..] + b;
      SourcePathsConcat(a[1..], b);
    } else {
      assert a + b == b;
    }
  }

  lemma {:induction false} AllFilesSnoc(dir: string, items: seq<Entry>)
    requires |items| > 0
    ensures AllFiles(dir, items) == AllFiles(dir, items[..|items| - 1]) + EntryFiles(dir, items[|items| - 1])
    decreases |items|
  {
    if |items| > 1 {
      AllFilesSnoc(dir, items[1..]);
      assert items[1..][..|items[1..]| - 1] == items[..|items| - 1][1..];
    }
  }

  /**
   * `listFiles` returns exactly the files of the whole tree whose name ends in
   * `.js` or `.ts`, descending into every sub-directory, in listing order.
   */
  lemma {:induction false} CollectIsSourceFiles(dir: string, items: seq<Entry>)
    ensures Collect(dir, items) == SourcePaths(AllFiles(dir, items))
    decreases items
  {
    if |items| > 0 {
      var init := items[..|items| - 1];
      var last := items[|items| - 1];
      CollectIsSourceFiles(dir, init);
      AllFilesSnoc(dir, items);
      SourcePathsConcat(AllFiles(dir, init), EntryFiles(dir, last));
      match last {
        case Directory(n, sub) =>
          CollectIsSourceFiles(JoinPath(dir, n), sub);
        case File(n) =>
      }
    }
  }

  /** Every listed path lies under `dir` and names a `.js` or `.ts` file. */
  lemma {:induction false} CollectedPathsAreSources(dir: string, items: seq<Entry>, k: int)
    requires 0 <= k < |Collect(dir, items)|
    ensures StartsWith(Collect(dir, items)[k], dir + "/")
    ensures EndsWith(Collect(dir, items)[k], ".js") || EndsWith(Collect(dir, items)[k], ".ts")
    decreases items
  {
    var init := items[..|items| - 1];
    var last := items[|items| - 1];
    var head := Collect(dir, init);
    if k < |head| {
      CollectedPathsAreSources(dir, init, k);
    } else {
      match last {
        case Directory(n, sub) =>
          CollectedPathsAreSources(JoinPath(dir, n), sub, k - |head|);
          var p := Collect(JoinPath(dir, n), sub)[k - |head|];
          assert p[..|dir + "/"|] == (JoinPath(dir, n) + "/")[..|dir + "/"|];
        case File(n) =>
          var p := JoinPath(dir, n);
          assert p[..|dir + "/"|] == dir + "/";
          assert p[|p| - 3..] == n[|n| - 3..];
      }
    }
  }

  // ------------------------------------------------------------- unixTimestamp

  /** The Discord timestamp styles `unixTimestamp` accepts. */
  type TimestampStyle = c: char | c in "fFdDtTR" witness 'f'

  /** `<t:SECONDS:STYLE>` for an instant given in milliseconds; seconds round down. */
  function UnixTimestamp(ms: int, style: TimestampStyle := 'f'): string {
    "<t:" + IntToString(ms / 1000) + ":" + [style] + ">"
  }

  /** Reads the seconds and the style back out of timestamp markup. */
  function ParseTimestamp(s: string): Option<(int, char)> {
    if |s| >= 6 && s[..3] == "<t:" && s[|s| - 3] == ':' && s[|s| - 1] == '>' then
      var secs :- ParseInt(s[3..|s| - 3]);
      Some((secs, s[|s| - 2]))
    else None
  }

  /** The markup carries the style and the floor of the instant in seconds. */
  lemma UnixTimestampRoundTrip(ms: int, style: TimestampStyle)
    ensures ParseTimestamp(UnixTimestamp(ms, style)) == Some((ms / 1000, style))
    ensures (ms / 1000) * 1000 <= ms < (ms / 1000) * 1000 + 1000
  {
    var digits := IntToString(ms / 1000);
    var s := UnixTimestamp(ms, style);
    IntToStringRoundTrip(ms / 1000);
    assert s == "<t:" + digits + ":" + [style] + ">";
    assert s[..3] == "<t:";
    assert s[3..|s| - 3] == digits;
  }

  /** The style defaults to 'f'. */
  lemma UnixTimestampDefaultStyle(ms: int)
    ensures UnixTimestamp(ms) == UnixTimestamp(ms, 'f')
    ensures ParseTimestamp(UnixTimestamp(ms)) == Some((ms / 1000, 'f'))
  {
    UnixTimestampRoundTrip(ms, 'f');
  }

  // ------------------------------------------------------- enum resolution

  /** `ApplicationCommandType` codes. */
  const ChatInputCode := 1
  const UserCode := 2
  const MessageCode := 3

  /** `resolveCommandType`: the application command type a command registers as. */
  function ResolveCommandType(t: CommandType): (code: int)
    ensures code == ChatInputCode <==> t == Slash
    ensures code == UserCode <==> t == ContextUser
    ensures code == MessageCode <==> t.Message? || t.ContextMessage?
  {
    if t == Slash then ChatInputCode else if t == ContextUser then UserCode else MessageCode
  }

  /** `InteractionContextType` member names, in code order. */
  const ContextNames: seq<string> := ["Guild", "BotDM", "PrivateChannel"]
  /** `ApplicationIntegrationType` member names, in code order. */
  const IntegrationNames: seq<string> := ["GuildInstall", "UserInstall"]

  /**
   * `Enum[key]` on a numeric TypeScript enum: a member name gives its code, a
   * code written as a string gives the member name back, anything else undefined.
   */
  function EnumLookup(names: seq<string>, key: string): (r: Val)
    ensures forall i :: 0 <= i < |names| && names[i] == key && (forall j :: 0 <= j < i ==> names[j] != key) ==> r == Num(i)
  {
    EnumLookupFrom(names, key, 0)
  }

  function EnumLookupFrom(names: seq<string>, key: string, i: nat): (r: Val)
    requires i <= |names|
    ensures forall k :: i <= k < |names| && names[k] == key && (forall j :: i <= j < k ==> names[j] != key) ==> r == Num(k)
    decreases |names| - i
  {
    if i == |names| then ReverseLookup(names, key)
    else if names[i] == key then Num(i)
    else EnumLookupFrom(names, key, i + 1)
  }

  function ReverseLookup(names: seq<string>, key: string): Val {
    var code := ParseInt(key);
    if code.Some? && 0 <= code.value < |names| && IntToString(code.value) == key then Str(names[code.value]) else Undefined
  }

  /** One element of a contexts or integration-types list: strings are looked up, anything else passes through. */
  function ResolveMember(names: seq<string>, v: Val): Val {
    if v.Str? then EnumLookup(names, v.s) else v
  }

  /**
   * `list?.length ? list.map(resolve) : [fallback]`. `None` is the TypeError
   * `map` throws on a value with a non-zero length that is not an array.
   */
  function ResolveList(names: seq<string>, list: Val): (r: Option<seq<Val>>)
    ensures !Truthy(Prop(list, "length")) ==> r == Some([Num(0)])
    ensures list.Arr? && |list.items| > 0 ==>
      r.Some? && |r.value| == |list.items|
      && forall i :: 0 <= i < |list.items| ==> r.value[i] == ResolveMember(names, list.items[i])
    ensures r.None? <==> Truthy(Prop(list, "length")) && !list.Arr?
  {
    if !Truthy(Prop(list, "length")) then Some([Num(0)])
    else if list.Arr? then Some(seq(|list.items|, i requires 0 <= i < |list.items| => ResolveMember(names, list.items[i])))
    else None
  }

  /** `resolveCommandContexts`: an absent or empty list means [Guild]. */
  function ResolveCommandContexts(contexts: Val): Option<seq<Val>> {
    ResolveList(ContextNames, contexts)
  }

  /** `resolveIntegrationTypes`: an absent or empty list means [GuildInstall]. */
  function ResolveIntegrationTypes(types: Val): Option<seq<Val>> {
    ResolveList(IntegrationNames, types)
  }

  /** The values the validating factories accept in `commandContexts`. */
  const ContextValues: seq<Val> := [Str("Guild"), Str("BotDM"), Str("PrivateChannel"), Num(0), Num(1), Num(2)]
  /** The values the validating factories accept in `integrationTypes`. */
  const IntegrationValues: seq<Val> := [Str("GuildInstall"), Str("UserInstall"), Num(0), Num(1)]

  /** Each accepted context resolves to its code: Guild 0, BotDM 1, PrivateChannel 2. */
  lemma ContextCodes(v: Val)
    requires v in ContextValues
    ensures ResolveMember(ContextNames, v) == (if v.Str? then Num(if v.s == "Guild" then 0 else if v.s == "BotDM" then 1 else 2) else v)
    ensures ResolveMember(ContextNames, v) in [Num(0), Num(1), Num(2)]
  {
  }

  /** Each accepted integration type resolves to its code: GuildInstall 0, UserInstall 1. */
  lemma IntegrationCodes(v: Val)
    requires v in IntegrationValues
    ensures ResolveMember(IntegrationNames, v) == (if v.Str? then Num(if v.s == "GuildInstall" then 0 else 1) else v)
    ensures ResolveMember(IntegrationNames, v) in [Num(0), Num(1)]
  {
  }

  /** A list the factories accepted resolves to codes only. */
  lemma {:induction false} ValidatedContextsResolve(list: Val)
    requires list.Arr? && forall i :: 0 <= i < |list.items| ==> list.items[i] in ContextValues
    ensures ResolveCommandContexts(list).Some?
    ensures forall x :: x in ResolveCommandContexts(list).value ==> x in [Num(0), Num(1), Num(2)]
  {
    forall i | 0 <= i < |list.items| {
      ContextCodes(list.items[i]);
    }
  }

  /** The string "0" looks the name back up, as the enum's reverse mapping does. */
  lemma ReverseMapping()
    ensures ResolveMember(ContextNames, Str("0")) == Str("Guild")
    ensures ResolveMember(IntegrationNames, Str("1")) == Str("UserInstall")
    ensures ResolveMember(ContextNames, Str("Nowhere")) == Undefined
  {
    IntToStringRoundTrip(0);
    IntToStringRoundTrip(1);
  }
}
