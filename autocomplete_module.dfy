/**
 * `AutocompleteModule` (src/autocomplete/AutocompleteModule.ts) as a class
 * over the client's completer table; each method leaves the state the
 * functions of `AutocompleteRegistry` describe.
 */
module Autocompletion {
  import opened Wrappers
  import opened Errors
  import opened Definitions
  import opened Utils
  import opened AutocompleteRegistry
  import opened Client
  import CommandsDispatch

  class AutocompleteModule {
    const client: FrameworkClient
    /** What the module has emitted and called so far, in order. */
    var trace: seq<CompletionStep>

    constructor(client: FrameworkClient)
      ensures this.client == client && trace == []
    {
      this.client := client;
      trace := [];
    }

    /** `load(filepath, reload)`, where loading the file gives `imported`. */
    method Load(filepath: string, reload: bool, imported: ImportResult<Autocompleter>) returns (r: Result<bool, Cause>)
      modifies client`autocomplete
      ensures CompleterLoad(r, client.autocomplete) == LoadCompleter(old(client.autocomplete), filepath, reload, imported)
    {
      if imported.ImportFailed? {
        return Failure(imported.cause);
      }
      var e := Resolve(imported.exports);
      if !e.Definition? || e.value.name == "" || e.value.disabled {
        return Success(false);
      }
      var completer := e.value;
      if !reload && completer.id in client.autocomplete {
        return Failure(Error(ComponentAlreadyLoaded("autocomplete", completer.id)));
      }
      client.autocomplete := client.autocomplete[completer.id := completer.(filepath := filepath)];
      return Success(true);
    }

    /** `unload(id, reload)` */
    method Unload(id: string, reload: bool) returns (r: Result<(), Cause>)
      modifies client`autocomplete
      ensures var u := UnloadCompleter(old(client.autocomplete), id, reload);
        && (r.Failure? <==> u.Failure?)
        && (u.Failure? ==> r.error == u.error && client.autocomplete == old(client.autocomplete))
        && (u.Success? ==> client.autocomplete == u.value)
    {
      if id !in client.autocomplete {
        return Failure(Error(UnknownComponent("autocomplete", id)));
      }
      if !reload {
        client.autocomplete := client.autocomplete - {id};
      }
      return Success(());
    }

    /**
     * `reload(id)`, where loading the completer's file again gives `imported`: it
     * throws what the unload or that load throws, and otherwise resolves to
     * nothing, whatever the load answered.
     */
    method Reload(id: string, imported: ImportResult<Autocompleter>) returns (r: Result<(), Cause>)
      modifies client`autocomplete
      ensures var out := ReloadCompleter(old(client.autocomplete), id, imported);
        && client.autocomplete == out.completers
        && r == (if out.result.Failure? then Failure(out.result.error) else Success(()))
    {
      if id !in client.autocomplete {
        return Failure(Error(UnknownComponent("autocomplete", id)));
      }
      var filepath := client.autocomplete[id].filepath;
      var _ := Unload(id, true);
      // `reload` awaits the load but does not hand on its answer
      var loaded := Load(filepath, true, imported);
      r := if loaded.Failure? then Failure(loaded.error) else Success(());
    }

    /**
     * `loadAll()`: `listing` is what reading `<rootDir>/autocomplete` yields
     * and `imports(f)` what importing `f` gives.
     */
    method LoadAll(listing: Option<seq<Entry>>, imports: string -> ImportResult<Autocompleter>)
      modifies client`autocomplete, client`errors
      ensures var files := if listing.None? then [] else Collect(JoinPath(client.rootDir, "autocomplete"), listing.value);
        CompleterRegistry(client.autocomplete, client.errors)
          == LoadCompleterFiles(CompleterRegistry(old(client.autocomplete), old(client.errors)), files, imports)
    {
      var files := ListFiles(JoinPath(client.rootDir, "autocomplete"), listing);
      ghost var start := CompleterRegistry(client.autocomplete, client.errors);
      for i := 0 to |files|
        invariant CompleterRegistry(client.autocomplete, client.errors) == LoadCompleterFiles(start, files[..i], imports)
      {
        var file := files[i];
        var r := Load(file, false, imports(file));
        if r.Failure? {
          client.errors := client.errors + [FrameworkError(PlainError, ComponentLoadError("autocomplete", r.error))];
        }
        assert files[..i + 1][..i] == files[..i];
      }
      assert files[..|files|] == files;
    }

    /** `_handleInteraction(interaction)`; `outcome` is what the chosen handler throws, if anything. */
    method HandleInteraction(i: CommandsDispatch.Interaction, outcome: Option<Cause>)
      modifies this`trace
      ensures trace == old(trace) + HandleAutocomplete(client.commands, client.autocomplete, i, outcome)
    {
      trace := trace + HandleAutocomplete(client.commands, client.autocomplete, i, outcome);
    }
  }
}
