/**
 * What `CommandsModule.load`, `unload` and `loadAll` do to the client's
 * command and alias tables (src/commands/CommandsModule.ts), as functions of
 * the tables before the call. The `Commands` module's methods are proved to
 * leave exactly these tables behind.
 */
module CommandsRegistry {
  import opened Wrappers
  import opened Js
  import opened Errors
  import opened Definitions

  /** `client.commands` (keyed by command id) and `client.aliases` (alias to command id). */
  datatype Tables = Tables(commands: map<string, Command>, aliases: map<string, string>)

  /** `load`'s answer (`true` loaded, `false` skipped, or what it throws) and the tables after it. */
  datatype LoadOutcome = LoadOutcome(result: Result<bool, Cause>, tables: Tables)

  /**
   * The definition `load` accepts out of a resolved export: an object whose
   * `name` is non-empty and which is not disabled.
   */
  function Loadable(e: Export<Command>): Option<Command> {
    if e.Definition? && e.value.name != "" && !e.value.disabled then Some(e.value) else None
  }

  /** The aliases `load` walks: those of a message command whose `aliases` is an array. */
  function DeclaredAliases(c: Command): seq<Val> {
    if c.commandType.Message? && c.Field("aliases").Arr? then c.Field("aliases").items else []
  }

  /** One step of the alias walk: a string alias that has no (truthy) binding yet is bound to `id`. */
  function AddAlias(aliases: map<string, string>, alias: Val, id: string): map<string, string> {
    if alias.Str? && (alias.s !in aliases || aliases[alias.s] == "") then aliases[alias.s := id] else aliases
  }

  /** The alias walk over `list`, in order. */
  function AddAliases(aliases: map<string, string>, list: seq<Val>, id: string): map<string, string>
    decreases |list|
  {
    if list == [] then aliases
    else AddAlias(AddAliases(aliases, list[..|list| - 1], id), list[|list| - 1], id)
  }

  /** `load(filepath, reload)` where importing the file gives `imported`. */
  function LoadCommand(t: Tables, filepath: string, reload: bool, imported: ImportResult<Command>): LoadOutcome {
    match imported
    case ImportFailed(cause) => LoadOutcome(Failure(cause), t)
    case Imported(exports) =>
      var found := Loadable(Resolve(exports));
      if found.None? then LoadOutcome(Success(false), t)
      else
        var c := found.value;
        if !reload && c.id in t.commands then
          LoadOutcome(Failure(Error(ComponentAlreadyLoaded("command", c.id))), t)
        else
          var loaded := c.(filepath := filepath);
          LoadOutcome(Success(true), Tables(t.commands[c.id := loaded], AddAliases(t.aliases, DeclaredAliases(c), c.id)))
  }

  /** An alias is bound by the first command that declares it; a binding is never moved or dropped. */
  lemma {:induction false} AddAliasesBinds(aliases: map<string, string>, list: seq<Val>, id: string, x: string)
    ensures x in AddAliases(aliases, list, id) <==> x in aliases || Str(x) in list
    ensures x in aliases && aliases[x] != "" ==> AddAliases(aliases, list, id)[x] == aliases[x]
    ensures (x !in aliases || aliases[x] == "") && Str(x) in list ==> AddAliases(aliases, list, id)[x] == id
    ensures x in aliases && Str(x) !in list ==> AddAliases(aliases, list, id)[x] == aliases[x]
    decreases |list|
  {
    if list != [] {
      var front := list[..|list| - 1];
      assert list == front + [list[|list| - 1]];
      AddAliasesBinds(aliases, front, id, x);
    }
  }

  /**
   * A load either fails and changes nothing, skips and changes nothing, or
   * files the definition under its id with the load's path; every other
   * command keeps its entry. It fails with what the import throws, or with
   * ComponentAlreadyLoaded for a taken id, and answers `false` for an export
   * it does not accept.
   */
  lemma LoadEffect(t: Tables, filepath: string, reload: bool, imported: ImportResult<Command>)
    ensures var out := LoadCommand(t, filepath, reload, imported);
      && (out.result.Failure? <==>
            imported.ImportFailed?
            || (Loadable(Resolve(imported.exports)).Some? && !reload
                && Loadable(Resolve(imported.exports)).value.id in t.commands))
      && (imported.ImportFailed? ==> out.result == Failure(imported.cause))
      && (out.result.Failure? && imported.Imported? ==>
            out.result.error == Error(ComponentAlreadyLoaded("command", Loadable(Resolve(imported.exports)).value.id)))
      && (imported.Imported? && Loadable(Resolve(imported.exports)).None? ==> out.result == Success(false))
      && (out.result != Success(true) ==> out.tables == t)
      && (out.result == Success(true) ==>
            var c := Loadable(Resolve(imported.exports)).value;
            && out.tables.commands.Keys == t.commands.Keys + {c.id}
            && out.tables.commands[c.id] == c.(filepath := filepath)
            && (forall id :: id in t.commands && id != c.id ==> out.tables.commands[id] == t.commands[id]))
  {
  }

  /** Loading a command file twice without `reload` fails the second time with ComponentAlreadyLoaded. */
  lemma DuplicateLoadRejected(t: Tables, first: string, second: string, imported: ImportResult<Command>)
    requires LoadCommand(t, first, false, imported).result == Success(true)
    ensures var once := LoadCommand(t, first, false, imported).tables;
      var c := Loadable(Resolve(imported.exports)).value;
      LoadCommand(once, second, false, imported) == LoadOutcome(Failure(Error(ComponentAlreadyLoaded("command", c.id))), once)
  {
  }

  /** With `reload` the same file loads again, and the entry now carries the new path. */
  lemma ReloadReplaces(t: Tables, first: string, second: string, imported: ImportResult<Command>)
    requires LoadCommand(t, first, false, imported).result == Success(true)
    ensures var once := LoadCommand(t, first, false, imported).tables;
      var c := Loadable(Resolve(imported.exports)).value;
      var twice := LoadCommand(once, second, true, imported);
      twice.result == Success(true) && twice.tables.commands == once.commands[c.id := c.(filepath := second)]
  {
  }

  /**
   * A message command's aliases are bound to its id only where no command
   * holds them yet: an alias another command already owns keeps its owner.
   */
  lemma AliasOwnerKept(t: Tables, filepath: string, reload: bool, imported: ImportResult<Command>, alias: string)
    requires alias in t.aliases && t.aliases[alias] != ""
    ensures alias in LoadCommand(t, filepath, reload, imported).tables.aliases
    ensures LoadCommand(t, filepath, reload, imported).tables.aliases[alias] == t.aliases[alias]
  {
    var out := LoadCommand(t, filepath, reload, imported);
    if out.result == Success(true) {
      var c := Loadable(Resolve(imported.exports)).value;
      AddAliasesBinds(t.aliases, DeclaredAliases(c), c.id, alias);
    }
  }

  /** A free alias that a loaded message command declares now names that command. */
  lemma AliasBound(t: Tables, filepath: string, reload: bool, imported: ImportResult<Command>, alias: string)
    requires LoadCommand(t, filepath, reload, imported).result == Success(true)
    requires alias !in t.aliases
    requires Str(alias) in DeclaredAliases(Loadable(Resolve(imported.exports)).value)
    ensures var c := Loadable(Resolve(imported.exports)).value;
      var after := LoadCommand(t, filepath, reload, imported).tables;
      alias in after.aliases && after.aliases[alias] == c.id && c.commandType.Message?
  {
    var c := Loadable(Resolve(imported.exports)).value;
    AddAliasesBinds(t.aliases, DeclaredAliases(c), c.id, alias);
  }

  // ----------------------------------------------------------------- unload

  /** `unload(id, reload)`: an unknown id throws; otherwise the entry goes unless reloading. */
  function UnloadCommand(commands: map<string, Command>, id: string, reload: bool): (r: Result<map<string, Command>, Cause>)
    ensures r.Failure? <==> id !in commands
    ensures r.Failure? ==> r.error == Error(UnknownComponent("commands", id))
    ensures r.Success? ==> r.value.Keys == (if reload then commands.Keys else commands.Keys - {id})
    ensures r.Success? ==> forall k :: k in r.value ==> r.value[k] == commands[k]
  {
    if id !in commands then Failure(Error(UnknownComponent("commands", id)))
    else if reload then Success(commands)
    else Success(commands - {id})
  }

  // ---------------------------------------------------------------- loadAll

  /** The tables together with the payloads of the client's `error` events. */
  datatype Registry = Registry(tables: Tables, errors: seq<FrameworkError>)

  /** One file of `loadAll`: a failed load is reported as ComponentLoadError and the walk goes on. */
  function LoadStep(s: Registry, file: string, imported: ImportResult<Command>): Registry {
    var out := LoadCommand(s.tables, file, false, imported);
    if out.result.Failure? then
      Registry(out.tables, s.errors + [FrameworkError(PlainError, ComponentLoadError("commands", out.result.error))])
    else Registry(out.tables, s.errors)
  }

  /** `loadAll` over `files`, where `imports(f)` is what importing `f` gives. */
  function LoadFiles(s: Registry, files: seq<string>, imports: string -> ImportResult<Command>): Registry
    decreases |files|
  {
    if files == [] then s
    else
      var last := files[|files| - 1];
      LoadStep(LoadFiles(s, files[..|files| - 1], imports), last, imports(last))
  }

  /** The ids of the definitions the files hold that `load` accepts. */
  function LoadableIds(files: seq<string>, imports: string -> ImportResult<Command>): set<string> {
    set k, c | 0 <= k < |files| && c == LoadableAt(files, imports, k) && c.Some? :: c.value.id
  }

  function LoadableAt(files: seq<string>, imports: string -> ImportResult<Command>, k: int): Option<Command>
    requires 0 <= k < |files|
  {
    var imported := imports(files[k]);
    if imported.Imported? then Loadable(Resolve(imported.exports)) else None
  }

  /** A load adds the id of the definition it accepts, if any, to the table's ids, and no other. */
  lemma LoadKeys(t: Tables, filepath: string, reload: bool, imported: ImportResult<Command>)
    ensures var found := if imported.Imported? then Loadable(Resolve(imported.exports)) else None;
      LoadCommand(t, filepath, reload, imported).tables.commands.Keys
        == t.commands.Keys + (if found.Some? then {found.value.id} else {})
  {
  }

  /** The loadable ids of `files` are those of all but the last file, and the last file's. */
  lemma LoadableIdsLast(files: seq<string>, imports: string -> ImportResult<Command>)
    requires files != []
    ensures var here := LoadableAt(files, imports, |files| - 1);
      LoadableIds(files, imports) == LoadableIds(files[..|files| - 1], imports) + (if here.Some? then {here.value.id} else {})
  {
    var front := files[..|files| - 1];
    var idsFront := LoadableIds(front, imports);
    var ids := LoadableIds(files, imports);
    assert forall k :: 0 <= k < |front| ==> LoadableAt(front, imports, k) == LoadableAt(files, imports, k);
    var here := LoadableAt(files, imports, |files| - 1);
    assert ids == idsFront + (if here.Some? then {here.value.id} else {}) by {
      forall id | id in ids ensures id in idsFront || (here.Some? && id == here.value.id) {
        var k, c :| 0 <= k < |files| && c == LoadableAt(files, imports, k) && c.Some? && c.value.id == id;
        if k < |front| {
          assert LoadableAt(front, imports, k) == c;
        }
      }
      forall id | id in idsFront ensures id in ids {
        var k, c :| 0 <= k < |front| && c == LoadableAt(front, imports, k) && c.Some? && c.value.id == id;
        assert LoadableAt(files, imports, k) == c;
      }
    }
  }

  /**
   * `loadAll` tries every file: afterwards the table holds exactly the ids it
   * held before and those of every loadable definition, including the ones
   * whose load failed because the id was already taken. The earlier error
   * events stay and every new one is a ComponentLoadError of kind "commands".
   */
  lemma {:induction false} LoadFilesCovers(s: Registry, files: seq<string>, imports: string -> ImportResult<Command>)
    ensures LoadFiles(s, files, imports).tables.commands.Keys == s.tables.commands.Keys + LoadableIds(files, imports)
    ensures |LoadFiles(s, files, imports).errors| >= |s.errors|
    ensures LoadFiles(s, files, imports).errors[..|s.errors|] == s.errors
    ensures forall i :: |s.errors| <= i < |LoadFiles(s, files, imports).errors| ==>
      LoadFiles(s, files, imports).errors[i].info.ComponentLoadError?
      && LoadFiles(s, files, imports).errors[i].info.kind == "commands"
    decreases |files|
  {
    if files != [] {
      var front := files[..|files| - 1];
      var last := files[|files| - 1];
      LoadFilesCovers(s, front, imports);
      var mid := LoadFiles(s, front, imports);
      LoadKeys(mid.tables, last, false, imports(last));
      LoadableIdsLast(files, imports);
    }
  }

  /** The error event `loadAll` emits for a file whose definition's id is already taken. */
  function TakenReport(id: string): FrameworkError {
    FrameworkError(PlainError, ComponentLoadError("commands", Error(ComponentAlreadyLoaded("command", id))))
  }

  /** The error events the last file of `files` adds after the others. */
  lemma LoadFilesLast(s: Registry, files: seq<string>, imports: string -> ImportResult<Command>)
    requires files != []
    ensures var n := |files| - 1;
      var mid := LoadFiles(s, files[..n], imports);
      var out := LoadCommand(mid.tables, files[n], false, imports(files[n]));
      LoadFiles(s, files, imports).errors
        == mid.errors + if out.result.Failure? then [FrameworkError(PlainError, ComponentLoadError("commands", out.result.error))] else []
  {
  }

  /**
   * The error events the walk adds keep those it added over the files before
   * the last, and gain the last file's report when its load fails.
   */
  lemma LoadFilesAdded(s: Registry, files: seq<string>, imports: string -> ImportResult<Command>)
    requires files != []
    requires |s.errors| <= |LoadFiles(s, files[..|files| - 1], imports).errors|
    ensures var n := |files| - 1;
      var mid := LoadFiles(s, files[..n], imports);
      var out := LoadCommand(mid.tables, files[n], false, imports(files[n]));
      var added := LoadFiles(s, files, imports).errors[|s.errors|..];
      && |LoadFiles(s, files, imports).errors| <= |mid.errors| + 1
      && (forall e :: e in mid.errors[|s.errors|..] ==> e in added)
      && (out.result.Failure? ==> FrameworkError(PlainError, ComponentLoadError("commands", out.result.error)) in added)
  {
    LoadFilesLast(s, files, imports);
    var n := |files| - 1;
    var mid := LoadFiles(s, files[..n], imports);
    var out := LoadCommand(mid.tables, files[n], false, imports(files[n]));
    var tail := if out.result.Failure? then [FrameworkError(PlainError, ComponentLoadError("commands", out.result.error))] else [];
    assert LoadFiles(s, files, imports).errors[|s.errors|..] == mid.errors[|s.errors|..] + tail;
  }

  /**
   * `loadAll` emits at most one error event per file, and one for each file
   * whose import throws, carrying what it threw.
   */
  lemma {:induction false} LoadFilesReportsImportFailures(s: Registry, files: seq<string>, imports: string -> ImportResult<Command>)
    ensures var r := LoadFiles(s, files, imports);
      && |s.errors| <= |r.errors| <= |s.errors| + |files|
      && (forall k | 0 <= k < |files| && imports(files[k]).ImportFailed? ::
            FrameworkError(PlainError, ComponentLoadError("commands", imports(files[k]).cause)) in r.errors[|s.errors|..])
    decreases |files|
  {
    if files != [] {
      var n := |files| - 1;
      LoadFilesReportsImportFailures(s, files[..n], imports);
      LoadFilesAdded(s, files, imports);
      var mid := LoadFiles(s, files[..n], imports);
      LoadEffect(mid.tables, files[n], false, imports(files[n]));
      assert forall k :: 0 <= k < n ==> files[..n][k] == files[k];
    }
  }

  /** After `loadAll` the table still holds every id it held, and the id of every loadable file. */
  lemma LoadFilesFiled(s: Registry, files: seq<string>, imports: string -> ImportResult<Command>)
    ensures s.tables.commands.Keys <= LoadFiles(s, files, imports).tables.commands.Keys
    ensures forall k | 0 <= k < |files| && LoadableAt(files, imports, k).Some? ::
      LoadableAt(files, imports, k).value.id in LoadFiles(s, files, imports).tables.commands
  {
    LoadFilesCovers(s, files, imports);
    forall k | 0 <= k < |files| && LoadableAt(files, imports, k).Some?
      ensures LoadableAt(files, imports, k).value.id in LoadableIds(files, imports)
    {
    }
  }

  /** Without `reload`, a loadable definition whose id is filed is refused with ComponentAlreadyLoaded. */
  lemma LoadTakenFails(t: Tables, filepath: string, imported: ImportResult<Command>)
    requires imported.Imported? && Loadable(Resolve(imported.exports)).Some?
    requires Loadable(Resolve(imported.exports)).value.id in t.commands
    ensures LoadCommand(t, filepath, false, imported).result
      == Failure(Error(ComponentAlreadyLoaded("command", Loadable(Resolve(imported.exports)).value.id)))
  {
  }

  /**
   * `loadAll` emits a ComponentAlreadyLoaded report for each loadable
   * definition whose id the table held before, and for each loadable
   * definition whose id an earlier file already brought.
   */
  lemma {:induction false} LoadFilesReportsTaken(s: Registry, files: seq<string>, imports: string -> ImportResult<Command>)
    ensures var r := LoadFiles(s, files, imports);
      && |s.errors| <= |r.errors|
      && (forall k | 0 <= k < |files| && LoadableAt(files, imports, k).Some?
                     && LoadableAt(files, imports, k).value.id in s.tables.commands ::
            TakenReport(LoadableAt(files, imports, k).value.id) in r.errors[|s.errors|..])
      && (forall j, k | 0 <= j < k < |files| && LoadableAt(files, imports, j).Some? && LoadableAt(files, imports, k).Some?
                        && LoadableAt(files, imports, j).value.id == LoadableAt(files, imports, k).value.id ::
            TakenReport(LoadableAt(files, imports, k).value.id) in r.errors[|s.errors|..])
    decreases |files|
  {
    if files != [] {
      var n := |files| - 1;
      var front := files[..n];
      LoadFilesReportsTaken(s, front, imports);
      LoadFilesFiled(s, front, imports);
      LoadFilesAdded(s, files, imports);
      var mid := LoadFiles(s, front, imports);
      var added := LoadFiles(s, files, imports).errors[|s.errors|..];
      var here := LoadableAt(files, imports, n);
      if here.Some? && here.value.id in mid.tables.commands {
        LoadTakenFails(mid.tables, files[n], imports(files[n]));
        assert TakenReport(here.value.id) in added;
      }
      forall k | 0 <= k < |files| && LoadableAt(files, imports, k).Some? && LoadableAt(files, imports, k).value.id in s.tables.commands
        ensures TakenReport(LoadableAt(files, imports, k).value.id) in added
      {
        if k < n {
          assert LoadableAt(front, imports, k) == LoadableAt(files, imports, k);
        }
      }
      forall j, k | 0 <= j < k < |files| && LoadableAt(files, imports, j).Some? && LoadableAt(files, imports, k).Some?
                    && LoadableAt(files, imports, j).value.id == LoadableAt(files, imports, k).value.id
        ensures TakenReport(LoadableAt(files, imports, k).value.id) in added
      {
        assert LoadableAt(front, imports, j) == LoadableAt(files, imports, j);
        if k < n {
          assert LoadableAt(front, imports, k) == LoadableAt(files, imports, k);
        }
      }
    }
  }
}