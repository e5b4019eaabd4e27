/**
 * `ListenerModule` (src/listeners/ListenersModule.ts) as a class over the
 * client's listener table and subscriptions; each method leaves the state
 * the functions of `ListenersRegistry` describe and keeps its invariant.
 */
module Listeners {
  import opened Wrappers
  import opened Errors
  import opened Definitions
  import opened Utils
  import opened ListenersRegistry
  import opened Client

  class ListenerModule {
    const client: FrameworkClient

    constructor(client: FrameworkClient)
      ensures this.client == client
    {
      this.client := client;
    }

    /** The part of the client this module works on. */
    function HubOf(): Hub
      reads client
    {
      Hub(client.events, client.subscriptions, client.nextWrapper)
    }

    /** `load(filepath, reload)`, where loading the file gives `imported`. */
    method Load(filepath: string, reload: bool, imported: ImportResult<Listener>) returns (r: Result<bool, Cause>)
      modifies client`events, client`subscriptions, client`nextWrapper
      ensures ListenerLoad(r, HubOf()) == LoadListener(old(HubOf()), filepath, reload, imported)
      ensures Valid(old(HubOf())) ==> Valid(HubOf())
    {
      if Valid(HubOf()) {
        LoadListenerValid(HubOf(), filepath, reload, imported);
      }
      if imported.ImportFailed? {
        return Failure(imported.cause);
      }
      var e := Resolve(imported.exports);
      if !e.Definition? || e.value.name == "" || e.value.disabled {
        return Success(false);
      }
      var listener := e.value;
      if !reload && listener.id in client.events {
        return Failure(Error(ComponentAlreadyLoaded("listener", listener.id)));
      }
      var w := client.nextWrapper;
      client.nextWrapper := w + 1;
      client.subscriptions := client.subscriptions + [Subscription(listener.name, w, listener.once)];
      client.events := client.events[listener.id := listener.(filepath := filepath, wrapper := Some(w))];
      return Success(true);
    }

    /** `unload(id, reload)`: `off` for the listener's wrapper, then the entry goes unless reloading. */
    method Unload(id: string, reload: bool) returns (r: Result<(), Cause>)
      modifies client`events, client`subscriptions
      ensures var u := UnloadListener(old(HubOf()), id, reload);
        && (r.Failure? <==> u.Failure?)
        && (u.Failure? ==> r.error == u.error && HubOf() == old(HubOf()))
        && (u.Success? ==> HubOf() == u.value)
      ensures Valid(old(HubOf())) ==> Valid(HubOf())
    {
      if id !in client.events {
        return Failure(Error(UnknownComponent("listener", id)));
      }
      if Valid(HubOf()) {
        UnloadListenerValid(HubOf(), id, reload);
      }
      var listener := client.events[id];
      if listener.wrapper.Some? {
        client.subscriptions := Off(client.subscriptions, listener.name, listener.wrapper.value);
      }
      if !reload {
        client.events := client.events - {id};
      }
      return Success(());
    }

    /**
     * `reload(id)`, where loading the listener's file again gives `imported`: it
     * throws what the unload or that load throws, and otherwise resolves to
     * nothing, whatever the load answered.
     */
    method Reload(id: string, imported: ImportResult<Listener>) returns (r: Result<(), Cause>)
      modifies client`events, client`subscriptions, client`nextWrapper
      ensures var out := ReloadListener(old(HubOf()), id, imported);
        && HubOf() == out.hub
        && r == (if out.result.Failure? then Failure(out.result.error) else Success(()))
      ensures Valid(old(HubOf())) ==> Valid(HubOf())
    {
      if Valid(HubOf()) {
        ReloadListenerSpec(HubOf(), id, imported);
      }
      if id !in client.events {
        return Failure(Error(UnknownComponent("listener", id)));
      }
      var filepath := client.events[id].filepath;
      var _ := Unload(id, true);
      // `reload` awaits the load but does not hand on its answer
      var loaded := Load(filepath, true, imported);
      r := if loaded.Failure? then Failure(loaded.error) else Success(());
    }

    /**
     * `loadAll()`: `listing` is what reading `<rootDir>/listeners` yields and
     * `imports(f)` what importing `f` gives.
     */
    method LoadAll(listing: Option<seq<Entry>>, imports: string -> ImportResult<Listener>)
      modifies client`events, client`subscriptions, client`nextWrapper, client`errors
      ensures var files := if listing.None? then [] else Collect(JoinPath(client.rootDir, "listeners"), listing.value);
        ListenerRegistry(HubOf(), client.errors)
          == LoadListenerFiles(ListenerRegistry(old(HubOf()), old(client.errors)), files, imports)
      ensures Valid(old(HubOf())) ==> Valid(HubOf())
    {
      var files := ListFiles(JoinPath(client.rootDir, "listeners"), listing);
      ghost var start := ListenerRegistry(HubOf(), client.errors);
      if Valid(HubOf()) {
        LoadListenerFilesValid(start, files, imports);
      }
      for i := 0 to |files|
        invariant ListenerRegistry(HubOf(), client.errors) == LoadListenerFiles(start, files[..i], imports)
      {
        var file := files[i];
        var r := Load(file, false, imports(file));
        if r.Failure? {
          client.errors := client.errors + [FrameworkError(PlainError, ComponentLoadError("listener", r.error))];
        }
        assert files[..i + 1][..i] == files[..i];
      }
      assert files[..|files|] == files;
    }
  }
}
