/**
 * What `AutocompleteModule` (src/autocomplete/AutocompleteModule.ts) does to
 * the client's completer table, and how it answers an autocomplete
 * interaction, as functions of the state before.
 */
module AutocompleteRegistry {
  import opened Wrappers
  import opened Errors
  import opened Definitions
  import opened Js
  import CommandsDispatch

  /** `load`'s answer and the completer table after it. */
  datatype CompleterLoad = CompleterLoad(result: Result<bool, Cause>, completers: map<string, Autocompleter>)

  /** The completer `load` accepts out of a resolved export: one with a non-empty name that is not disabled. */
  function Loadable(e: Export<Autocompleter>): Option<Autocompleter> {
    if e.Definition? && e.value.name != "" && !e.value.disabled then Some(e.value) else None
  }

  /** `load(filepath, reload)` where loading the file gives `imported`. */
  function LoadCompleter(completers: map<string, Autocompleter>, filepath: string, reload: bool, imported: ImportResult<Autocompleter>): CompleterLoad {
    match imported
    case ImportFailed(cause) => CompleterLoad(Failure(cause), completers)
    case Imported(exports) =>
      var found := Loadable(Resolve(exports));
      if found.None? then CompleterLoad(Success(false), completers)
      else if !reload && found.value.id in completers then
        CompleterLoad(Failure(Error(ComponentAlreadyLoaded("autocomplete", found.value.id))), completers)
      else CompleterLoad(Success(true), completers[found.value.id := found.value.(filepath := filepath)])
  }

  /**
   * A load fails exactly when the import throws (with what it threw) or,
   * without `reload`, the id is taken (with ComponentAlreadyLoaded); an export
   * it does not accept gives `false`. Only a load that answers `true` changes
   * the table, and then only the entry under the loaded id.
   */
  lemma LoadCompleterEffect(completers: map<string, Autocompleter>, filepath: string, reload: bool, imported: ImportResult<Autocompleter>)
    ensures var out := LoadCompleter(completers, filepath, reload, imported);
      && (out.result.Failure? <==>
            imported.ImportFailed?
            || (Loadable(Resolve(imported.exports)).Some? && !reload && Loadable(Resolve(imported.exports)).value.id in completers))
      && (imported.ImportFailed? ==> out.result == Failure(imported.cause))
      && (out.result.Failure? && imported.Imported? ==>
            out.result.error == Error(ComponentAlreadyLoaded("autocomplete", Loadable(Resolve(imported.exports)).value.id)))
      && (imported.Imported? && Loadable(Resolve(imported.exports)).None? ==> out.result == Success(false))
      && (out.result != Success(true) ==> out.completers == completers)
      && (out.result == Success(true) ==>
            var c := Loadable(Resolve(imported.exports)).value;
            out.completers == completers[c.id := c.(filepath := filepath)])
  {
  }

  /** `unload(id, reload)`: an unknown id throws; otherwise the entry goes unless reloading. */
  function UnloadCompleter(completers: map<string, Autocompleter>, id: string, reload: bool): (r: Result<map<string, Autocompleter>, Cause>)
    ensures r.Failure? <==> id !in completers
    ensures r.Failure? ==> r.error == Error(UnknownComponent("autocomplete", id))
    ensures r.Success? ==> r.value.Keys == (if reload then completers.Keys else completers.Keys - {id})
    ensures r.Success? ==> forall k :: k in r.value ==> r.value[k] == completers[k]
  {
    if id !in completers then Failure(Error(UnknownComponent("autocomplete", id)))
    else if reload then Success(completers)
    else Success(completers - {id})
  }

  /**
   * `reload(id)`: an unknown id throws; otherwise the completer's file is
   * loaded again with `reload` set, and since that load is awaited what it
   * throws is what `reload` throws.
   */
  function ReloadCompleter(completers: map<string, Autocompleter>, id: string, imported: ImportResult<Autocompleter>): CompleterLoad {
    match UnloadCompleter(completers, id, true)
    case Failure(e) => CompleterLoad(Failure(e), completers)
    case Success(kept) => LoadCompleter(kept, completers[id].filepath, true, imported)
  }

  /**
   * Reloading never meets ComponentAlreadyLoaded: it fails only for an unknown
   * id or a throwing import. A loadable definition replaces the entry under
   * its own id with the old entry's path, and anything else leaves the table
   * as it was.
   */
  lemma ReloadCompleterSpec(completers: map<string, Autocompleter>, id: string, imported: ImportResult<Autocompleter>)
    ensures var out := ReloadCompleter(completers, id, imported);
      && (id !in completers ==> out == CompleterLoad(Failure(Error(UnknownComponent("autocomplete", id))), completers))
      && (id in completers ==>
            && (out.result.Failure? <==> imported.ImportFailed?)
            && (out.result == Success(true) ==>
                  var c := Loadable(Resolve(imported.exports)).value;
                  out.completers == completers[c.id := c.(filepath := completers[id].filepath)])
            && (out.result != Success(true) ==> out.completers == completers))
  {
  }

  // ---------------------------------------------------------------- loadAll

  /** The completer table together with the payloads of the client's `error` events. */
  datatype CompleterRegistry = CompleterRegistry(completers: map<string, Autocompleter>, errors: seq<FrameworkError>)

  /** `loadAll` over `files`: a failed load is reported as ComponentLoadError and the walk goes on. */
  function LoadCompleterFiles(s: CompleterRegistry, files: seq<string>, imports: string -> ImportResult<Autocompleter>): CompleterRegistry
    decreases |files|
  {
    if files == [] then s
    else
      var before := LoadCompleterFiles(s, files[..|files| - 1], imports);
      var last := files[|files| - 1];
      var out := LoadCompleter(before.completers, last, false, imports(last));
      CompleterRegistry(out.completers,
                        before.errors + if out.result.Failure? then [FrameworkError(PlainError, ComponentLoadError("autocomplete", out.result.error))] else [])
  }

  function LoadableAt(files: seq<string>, imports: string -> ImportResult<Autocompleter>, k: int): Option<Autocompleter>
    requires 0 <= k < |files|
  {
    var imported := imports(files[k]);
    if imported.Imported? then Loadable(Resolve(imported.exports)) else None
  }

  /** The ids of the completers the files hold that `load` accepts. */
  function LoadableIds(files: seq<string>, imports: string -> ImportResult<Autocompleter>): set<string> {
    set k, c | 0 <= k < |files| && c == LoadableAt(files, imports, k) && c.Some? :: c.value.id
  }

  /** A load adds the id of the completer it accepts, if any, to the table's ids, and no other. */
  lemma LoadCompleterKeys(completers: map<string, Autocompleter>, filepath: string, reload: bool, imported: ImportResult<Autocompleter>)
    ensures var found := if imported.Imported? then Loadable(Resolve(imported.exports)) else None;
      LoadCompleter(completers, filepath, reload, imported).completers.Keys
        == completers.Keys + (if found.Some? then {found.value.id} else {})
  {
  }

  /** The loadable ids of `files` are those of all but the last file, and the last file's. */
  lemma LoadableIdsLast(files: seq<string>, imports: string -> ImportResult<Autocompleter>)
    requires files != []
    ensures var here := LoadableAt(files, imports, |files| - 1);
      LoadableIds(files, imports) == LoadableIds(files[..|files| - 1], imports) + (if here.Some? then {here.value.id} else {})
  {
    var front := files[..|files| - 1];
    var idsFront := LoadableIds(front, imports);
    var ids := LoadableIds(files, imports);
    assert forall k :: 0 <= k < |front| ==> LoadableAt(front, imports, k) == LoadableAt(files, imports, k);
    var here := LoadableAt(files, imports, |files| - 1);
    assert ids == idsFront + (if here.Some? then {here.value.id} else {}) by {
      forall id | id in ids ensures id in idsFront || (here.Some? && id == here.value.id) {
        var k, c :| 0 <= k < |files| && c == LoadableAt(files, imports, k) && c.Some? && c.value.id == id;
        if k < |front| {
          assert LoadableAt(front, imports, k) == c;
        }
      }
      forall id | id in idsFront ensures id in ids {
        var k, c :| 0 <= k < |front| && c == LoadableAt(front, imports, k) && c.Some? && c.value.id == id;
        assert LoadableAt(files, imports, k) == c;
      }
    }
  }

  /**
   * `loadAll` tries every file: the table ends up holding exactly the ids it
   * held before and those of every loadable completer; earlier error events
   * stay and every new one is a ComponentLoadError of kind "autocomplete".
   */
  lemma {:induction false} LoadCompleterFilesCovers(s: CompleterRegistry, files: seq<string>, imports: string -> ImportResult<Autocompleter>)
    ensures LoadCompleterFiles(s, files, imports).completers.Keys == s.completers.Keys + LoadableIds(files, imports)
    ensures |LoadCompleterFiles(s, files, imports).errors| >= |s.errors|
    ensures LoadCompleterFiles(s, files, imports).errors[..|s.errors|] == s.errors
    ensures forall i :: |s.errors| <= i < |LoadCompleterFiles(s, files, imports).errors| ==>
      LoadCompleterFiles(s, files, imports).errors[i].info.ComponentLoadError?
      && LoadCompleterFiles(s, files, imports).errors[i].info.kind == "autocomplete"
    decreases |files|
  {
    if files != [] {
      var front := files[..|files| - 1];
      var last := files[|files| - 1];
      LoadCompleterFilesCovers(s, front, imports);
      var mid := LoadCompleterFiles(s, front, imports);
      LoadCompleterKeys(mid.completers, last, false, imports(last));
      LoadableIdsLast(files, imports);
    }
  }

  /** The error event `loadAll` emits for a file whose completer's id is already taken. */
  function TakenReport(id: string): FrameworkError {
    FrameworkError(PlainError, ComponentLoadError("autocomplete", Error(ComponentAlreadyLoaded("autocomplete", id))))
  }

  /**
   * The error events the walk adds keep those it added over the files before
   * the last, and gain the last file's report when its load fails.
   */
  lemma LoadCompleterFilesAdded(s: CompleterRegistry, files: seq<string>, imports: string -> ImportResult<Autocompleter>)
    requires files != []
    requires |s.errors| <= |LoadCompleterFiles(s, files[..|files| - 1], imports).errors|
    ensures var n := |files| - 1;
      var mid := LoadCompleterFiles(s, files[..n], imports);
      var out := LoadCompleter(mid.completers, files[n], false, imports(files[n]));
      var added := LoadCompleterFiles(s, files, imports).errors[|s.errors|..];
      && |LoadCompleterFiles(s, files, imports).errors| <= |mid.errors| + 1
      && (forall e :: e in mid.errors[|s.errors|..] ==> e in added)
      && (out.result.Failure? ==> FrameworkError(PlainError, ComponentLoadError("autocomplete", out.result.error)) in added)
  {
    var n := |files| - 1;
    var mid := LoadCompleterFiles(s, files[..n], imports);
    var out := LoadCompleter(mid.completers, files[n], false, imports(files[n]));
    var tail := if out.result.Failure? then [FrameworkError(PlainError, ComponentLoadError("autocomplete", out.result.error))] else [];
    assert LoadCompleterFiles(s, files, imports).errors == mid.errors + tail;
    assert LoadCompleterFiles(s, files, imports).errors[|s.errors|..] == mid.errors[|s.errors|..] + tail;
  }

  /**
   * `loadAll` emits at most one error event per file, and one for each file
   * whose import throws, carrying what it threw.
   */
  lemma {:induction false} LoadCompleterFilesReportsImportFailures(s: CompleterRegistry, files: seq<string>, imports: string -> ImportResult<Autocompleter>)
    ensures var r := LoadCompleterFiles(s, files, imports);
      && |s.errors| <= |r.errors| <= |s.errors| + |files|
      && (forall k | 0 <= k < |files| && imports(files[k]).ImportFailed? ::
            FrameworkError(PlainError, ComponentLoadError("autocomplete", imports(files[k]).cause)) in r.errors[|s.errors|..])
    decreases |files|
  {
    if files != [] {
      var n := |files| - 1;
      LoadCompleterFilesReportsImportFailures(s, files[..n], imports);
      LoadCompleterFilesAdded(s, files, imports);
      var mid := LoadCompleterFiles(s, files[..n], imports);
      LoadCompleterEffect(mid.completers, files[n], false, imports(files[n]));
      assert forall k :: 0 <= k < n ==> files[..n][k] == files[k];
    }
  }

  /** After `loadAll` the table still holds every id it held, and the id of every loadable file. */
  lemma LoadCompleterFilesFiled(s: CompleterRegistry, files: seq<string>, imports: string -> ImportResult<Autocompleter>)
    ensures s.completers.Keys <= LoadCompleterFiles(s, files, imports).completers.Keys
    ensures forall k | 0 <= k < |files| && LoadableAt(files, imports, k).Some? ::
      LoadableAt(files, imports, k).value.id in LoadCompleterFiles(s, files, imports).completers
  {
    LoadCompleterFilesCovers(s, files, imports);
    forall k | 0 <= k < |files| && LoadableAt(files, imports, k).Some?
      ensures LoadableAt(files, imports, k).value.id in LoadableIds(files, imports)
    {
    }
  }

  /** Without `reload`, a loadable definition whose id is filed is refused with ComponentAlreadyLoaded. */
  lemma LoadCompleterTakenFails(completers: map<string, Autocompleter>, filepath: string, imported: ImportResult<Autocompleter>)
    requires imported.Imported? && Loadable(Resolve(imported.exports)).Some?
    requires Loadable(Resolve(imported.exports)).value.id in completers
    ensures LoadCompleter(completers, filepath, false, imported).result
      == Failure(Error(ComponentAlreadyLoaded("autocomplete", Loadable(Resolve(imported.exports)).value.id)))
  {
  }

  /**
   * `loadAll` emits a ComponentAlreadyLoaded report for each loadable
   * completer whose id the table held before, and for each loadable
   * completer whose id an earlier file already brought.
   */
  lemma {:induction false} LoadCompleterFilesReportsTaken(s: CompleterRegistry, files: seq<string>, imports: string -> ImportResult<Autocompleter>)
    ensures var r := LoadCompleterFiles(s, files, imports);
      && |s.errors| <= |r.errors|
      && (forall k | 0 <= k < |files| && LoadableAt(files, imports, k).Some?
                     && LoadableAt(files, imports, k).value.id in s.completers ::
            TakenReport(LoadableAt(files, imports, k).value.id) in r.errors[|s.errors|..])
      && (forall j, k | 0 <= j < k < |files| && LoadableAt(files, imports, j).Some? && LoadableAt(files, imports, k).Some?
                        && LoadableAt(files, imports, j).value.id == LoadableAt(files, imports, k).value.id ::
            TakenReport(LoadableAt(files, imports, k).value.id) in r.errors[|s.errors|..])
    decreases |files|
  {
    if files != [] {
      var n := |files| - 1;
      var front := files[..n];
      LoadCompleterFilesReportsTaken(s, front, imports);
      LoadCompleterFilesFiled(s, front, imports);
      LoadCompleterFilesAdded(s, files, imports);
      var mid := LoadCompleterFiles(s, front, imports);
      var added := LoadCompleterFiles(s, files, imports).errors[|s.errors|..];
      var here := LoadableAt(files, imports, n);
      if here.Some? && here.value.id in mid.completers {
        LoadCompleterTakenFails(mid.completers, files[n], imports(files[n]));
        assert TakenReport(here.value.id) in added;
      }
      forall k | 0 <= k < |files| && LoadableAt(files, imports, k).Some? && LoadableAt(files, imports, k).value.id in s.completers
        ensures TakenReport(LoadableAt(files, imports, k).value.id) in added
      {
        if k < n {
          assert LoadableAt(front, imports, k) == LoadableAt(files, imports, k);
        }
      }
      forall j, k | 0 <= j < k < |files| && LoadableAt(files, imports, j).Some? && LoadableAt(files, imports, k).Some?
                    && LoadableAt(files, imports, j).value.id == LoadableAt(files, imports, k).value.id
        ensures TakenReport(LoadableAt(files, imports, k).value.id) in added
      {
        assert LoadableAt(front, imports, j) == LoadableAt(files, imports, j);
        if k < n {
          assert LoadableAt(front, imports, k) == LoadableAt(files, imports, k);
        }
      }
    }
  }

  // --------------------------------------------------------------- dispatch

  /** Which handler answers: a loaded completer (by id) or the command's own `autocomplete`. */
  datatype Handler = Completer(id: string) | Inline

  /** What the module emits and calls while answering. */
  datatype CompletionStep =
    | Execute(commandId: string, handler: Handler)
    | Ran(handler: Handler, focusedValue: Option<string>)
    | Succeeded(commandId: string, handler: Handler, error: Option<Cause>)
    | Unknown(commandName: string)

  /** A handler's run: `execute`, the call, then `success`, which also carries an error the call threw. */
  function RunCompletion(commandId: string, h: Handler, value: Option<string>, outcome: Option<Cause>): seq<CompletionStep> {
    [Execute(commandId, h), Ran(h, value), Succeeded(commandId, h, outcome)]
  }

  /**
   * `_handleInteraction(interaction)`: `commands` and `completers` are the
   * client's tables and `outcome` what the handler throws, if anything.
   */
  function HandleAutocomplete(commands: map<string, Command>, completers: map<string, Autocompleter>,
                              i: CommandsDispatch.Interaction, outcome: Option<Cause>): seq<CompletionStep> {
    if !i.kind.AutocompleteKind? then []
    else
      var id := "Slash:" + i.commandName;
      if id !in commands || !commands[id].commandType.Slash? then [Unknown(i.commandName)]
      else
        var c := commands[id];
        if i.focusedName in completers && !completers[i.focusedName].disabled then
          RunCompletion(c.id, Completer(i.focusedName), Some(i.focusedValue), outcome)
        else if c.Field("autocomplete").Func? && !c.disabled then
          RunCompletion(c.id, Inline, None, outcome)
        else [Unknown(i.commandName)]
  }

  /**
   * Only autocomplete interactions are answered. Without a slash command
   * under `Slash:<name>` the answer is `unknown`. Otherwise an enabled
   * completer registered under the focused option's name wins, even over a
   * disabled command; then the command's own enabled `autocomplete`; and
   * failing both the answer is `unknown`. At most one handler runs, with the
   * focused value passed to a completer only, and a throwing handler is still
   * reported through `success`.
   */
  lemma AutocompleteOutcome(commands: map<string, Command>, completers: map<string, Autocompleter>,
                            i: CommandsDispatch.Interaction, outcome: Option<Cause>)
    ensures var r := HandleAutocomplete(commands, completers, i, outcome);
      var id := "Slash:" + i.commandName;
      var completerReady := i.focusedName in completers && !completers[i.focusedName].disabled;
      && (!i.kind.AutocompleteKind? ==> r == [])
      && (i.kind.AutocompleteKind? && (id !in commands || !commands[id].commandType.Slash?) ==> r == [Unknown(i.commandName)])
      && (i.kind.AutocompleteKind? && id in commands && commands[id].commandType.Slash? ==>
            && (completerReady ==> r == RunCompletion(commands[id].id, Completer(i.focusedName), Some(i.focusedValue), outcome))
            && (!completerReady && commands[id].Field("autocomplete").Func? && !commands[id].disabled ==>
                  r == RunCompletion(commands[id].id, Inline, None, outcome))
            && (!completerReady && !(commands[id].Field("autocomplete").Func? && !commands[id].disabled) ==>
                  r == [Unknown(i.commandName)]))
      && (r == [] || r == [Unknown(i.commandName)] || (|r| == 3 && r[2].Succeeded? && r[2].error == outcome))
  {
  }
}
