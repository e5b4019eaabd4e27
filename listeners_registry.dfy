/**
 * What `ListenerModule` (src/listeners/ListenersModule.ts) does to the
 * client's listener table and to the client's own event subscriptions, as
 * functions of the state before. Each loaded listener gets a fresh wrapper
 * function (`_execute`), represented by a number, and that wrapper is what
 * is subscribed with `on` or `once` and later removed with `off`.
 */
module ListenersRegistry {
  import opened Wrappers
  import opened Errors
  import opened Definitions

  /** One live subscription of a listener's wrapper to a client event. */
  datatype Subscription = Subscription(event: string, wrapper: nat, once: bool)

  /** `client.events`, the client's subscriptions of wrappers in order, and the number the next wrapper gets. */
  datatype Hub = Hub(events: map<string, Listener>, subscriptions: seq<Subscription>, nextWrapper: nat)

  /** `load`'s answer and the state after it. */
  datatype ListenerLoad = ListenerLoad(result: Result<bool, Cause>, hub: Hub)

  /** The listener `load` accepts out of a resolved export: one with a non-empty name that is not disabled. */
  function Loadable(e: Export<Listener>): Option<Listener> {
    if e.Definition? && e.value.name != "" && !e.value.disabled then Some(e.value) else None
  }

  /** `load(filepath, reload)` where loading the file gives `imported`. */
  function LoadListener(h: Hub, filepath: string, reload: bool, imported: ImportResult<Listener>): ListenerLoad {
    match imported
    case ImportFailed(cause) => ListenerLoad(Failure(cause), h)
    case Imported(exports) =>
      var found := Loadable(Resolve(exports));
      if found.None? then ListenerLoad(Success(false), h)
      else if !reload && found.value.id in h.events then
        ListenerLoad(Failure(Error(ComponentAlreadyLoaded("listener", found.value.id))), h)
      else
        var l := found.value;
        var w := h.nextWrapper;
        ListenerLoad(Success(true), Hub(
          h.events[l.id := l.(filepath := filepath, wrapper := Some(w))],
          h.subscriptions + [Subscription(l.name, w, l.once)],
          w + 1))
  }

  /** `client.off(event, wrapper)`: the most recently added matching subscription is removed. */
  function Off(subs: seq<Subscription>, event: string, w: nat): seq<Subscription>
    decreases |subs|
  {
    if subs == [] then []
    else
      var last := subs[|subs| - 1];
      if last.event == event && last.wrapper == w then subs[..|subs| - 1]
      else Off(subs[..|subs| - 1], event, w) + [last]
  }

  /** `unload(id, reload)`: an unknown id throws; otherwise the wrapper is unsubscribed and the entry goes unless reloading. */
  function UnloadListener(h: Hub, id: string, reload: bool): (r: Result<Hub, Cause>)
    ensures r.Failure? <==> id !in h.events
    ensures r.Failure? ==> r.error == Error(UnknownComponent("listener", id))
    ensures r.Success? ==> r.value.events == (if reload then h.events else h.events - {id})
    ensures r.Success? ==> r.value.nextWrapper == h.nextWrapper
  {
    if id !in h.events then Failure(Error(UnknownComponent("listener", id)))
    else
      var l := h.events[id];
      var subs := if l.wrapper.Some? then Off(h.subscriptions, l.name, l.wrapper.value) else h.subscriptions;
      Success(Hub(if reload then h.events else h.events - {id}, subs, h.nextWrapper))
  }

  /**
   * `reload(id)`: an unknown id throws; otherwise the wrapper is
   * unsubscribed, the entry kept, and the listener's file loaded again with
   * `reload` set. The load is awaited, so what it throws `reload` throws.
   */
  function ReloadListener(h: Hub, id: string, imported: ImportResult<Listener>): ListenerLoad {
    match UnloadListener(h, id, true)
    case Failure(e) => ListenerLoad(Failure(e), h)
    case Success(kept) => LoadListener(kept, h.events[id].filepath, true, imported)
  }

  // -------------------------------------------------------------- invariant

  /** No wrapper is subscribed twice. */
  predicate Distinct(subs: seq<Subscription>) {
    forall i, j :: 0 <= i < j < |subs| ==> subs[i].wrapper != subs[j].wrapper
  }

  /**
   * The state `load` and `unload` keep: wrappers are numbered below
   * `nextWrapper` and subscribed at most once, every loaded listener carries
   * a wrapper, and a subscribed wrapper that a listener carries is subscribed
   * to that listener's event with its `once` flag.
   */
  predicate Valid(h: Hub) {
    && Distinct(h.subscriptions)
    && (forall s :: s in h.subscriptions ==> s.wrapper < h.nextWrapper)
    && (forall id :: id in h.events ==> h.events[id].wrapper.Some? && h.events[id].wrapper.value < h.nextWrapper)
    && (forall id, s :: id in h.events && s in h.subscriptions && h.events[id].wrapper == Some(s.wrapper) ==>
          s.event == h.events[id].name && s.once == h.events[id].once)
  }

  /** `off` removes exactly the subscription of the wrapper to the event, if any, and keeps the rest. */
  lemma {:induction false} OffRemoves(subs: seq<Subscription>, event: string, w: nat)
    requires Distinct(subs)
    ensures Distinct(Off(subs, event, w))
    ensures forall s :: s in Off(subs, event, w) <==> s in subs && !(s.event == event && s.wrapper == w)
    decreases |subs|
  {
    if subs != [] {
      var front := subs[..|subs| - 1];
      var last := subs[|subs| - 1];
      assert subs == front + [last];
      assert Distinct(front);
      if last.event == event && last.wrapper == w {
        forall s | s in front ensures s.wrapper != w {
          var i :| 0 <= i < |front| && front[i] == s;
          assert subs[i] == s;
        }
      } else {
        OffRemoves(front, event, w);
        var rest := Off(front, event, w);
        forall s | s in rest ensures s.wrapper != last.wrapper {
          var i :| 0 <= i < |front| && front[i] == s;
          assert subs[i] == s;
        }
        var r := rest + [last];
        forall i, j | 0 <= i < j < |r| ensures r[i].wrapper != r[j].wrapper {
          if j == |r| - 1 {
            assert r[i] in rest;
          } else {
            assert r[i] == rest[i] && r[j] == rest[j];
          }
        }
      }
    }
  }

  /**
   * A load fails exactly when the import throws (with what it threw) or,
   * without `reload`, the id is taken (with ComponentAlreadyLoaded); an export
   * it does not accept gives `false`. Only a load that answers `true` changes
   * the state: the listener is filed under its id with the load's path and a
   * fresh wrapper, which is subscribed after the existing subscriptions.
   */
  lemma LoadListenerEffect(h: Hub, filepath: string, reload: bool, imported: ImportResult<Listener>)
    ensures var out := LoadListener(h, filepath, reload, imported);
      && (out.result.Failure? <==>
            imported.ImportFailed?
            || (Loadable(Resolve(imported.exports)).Some? && !reload && Loadable(Resolve(imported.exports)).value.id in h.events))
      && (imported.ImportFailed? ==> out.result == Failure(imported.cause))
      && (out.result.Failure? && imported.Imported? ==>
            out.result.error == Error(ComponentAlreadyLoaded("listener", Loadable(Resolve(imported.exports)).value.id)))
      && (imported.Imported? && Loadable(Resolve(imported.exports)).None? ==> out.result == Success(false))
      && (out.result != Success(true) ==> out.hub == h)
      && (out.result == Success(true) ==>
            var l := Loadable(Resolve(imported.exports)).value;
            && out.hub.events == h.events[l.id := l.(filepath := filepath, wrapper := Some(h.nextWrapper))]
            && out.hub.subscriptions == h.subscriptions + [Subscription(l.name, h.nextWrapper, l.once)]
            && out.hub.nextWrapper == h.nextWrapper + 1)
  {
  }

  /** The client starts with no listeners and no subscriptions. */
  lemma EmptyValid()
    ensures Valid(Hub(map[], [], 0))
  {
  }

  /**
   * A load keeps the invariant, with or without `reload`. It fails exactly
   * when the import throws or, without `reload`, the id is taken, and answers
   * `false` for an export it does not accept. When it answers
   * `true` it subscribes exactly one new wrapper, with `once` exactly when the
   * listener asks for it, to the listener's event, and files the listener
   * under its id carrying that wrapper.
   */
  lemma LoadListenerValid(h: Hub, filepath: string, reload: bool, imported: ImportResult<Listener>)
    requires Valid(h)
    ensures var out := LoadListener(h, filepath, reload, imported);
      && Valid(out.hub)
      && (out.result.Failure? <==>
            imported.ImportFailed?
            || (Loadable(Resolve(imported.exports)).Some? && !reload && Loadable(Resolve(imported.exports)).value.id in h.events))
      && (out.result.Failure? && imported.Imported? ==>
            out.result.error == Error(ComponentAlreadyLoaded("listener", Loadable(Resolve(imported.exports)).value.id)))
      && (imported.Imported? && Loadable(Resolve(imported.exports)).None? ==> out.result == Success(false))
      && (out.result != Success(true) ==> out.hub == h)
      && (out.result == Success(true) ==>
            var l := Loadable(Resolve(imported.exports)).value;
            && out.hub.subscriptions == h.subscriptions + [Subscription(l.name, h.nextWrapper, l.once)]
            && out.hub.events == h.events[l.id := l.(filepath := filepath, wrapper := Some(h.nextWrapper))])
  {
    var out := LoadListener(h, filepath, reload, imported);
    if out.result == Success(true) {
      var l := Loadable(Resolve(imported.exports)).value;
      var s' := out.hub.subscriptions;
      assert forall i :: 0 <= i < |h.subscriptions| ==> s'[i] == h.subscriptions[i];
      assert forall s :: s in s' ==> s in h.subscriptions || s == Subscription(l.name, h.nextWrapper, l.once);
      forall i | 0 <= i < |h.subscriptions| ensures h.subscriptions[i].wrapper < h.nextWrapper {
        assert h.subscriptions[i] in h.subscriptions;
      }
    }
  }

  /** An unload keeps the invariant, and the unloaded listener's wrapper is no longer subscribed to its event. */
  lemma UnloadListenerValid(h: Hub, id: string, reload: bool)
    requires Valid(h)
    requires id in h.events
    ensures var r := UnloadListener(h, id, reload).value;
      && Valid(r)
      && (forall s :: s in r.subscriptions <==> s in h.subscriptions && s.wrapper != h.events[id].wrapper.value)
  {
    var l := h.events[id];
    OffRemoves(h.subscriptions, l.name, l.wrapper.value);
  }

  /**
   * Reloading unsubscribes the old wrapper before loading again. A loadable
   * new definition is subscribed once under a fresh wrapper; a reloaded file
   * whose value is disabled or nameless, or whose import throws, leaves the
   * old entry in place with no live subscription.
   */
  lemma ReloadListenerSpec(h: Hub, id: string, imported: ImportResult<Listener>)
    requires Valid(h)
    ensures var out := ReloadListener(h, id, imported);
      && Valid(out.hub)
      && (id !in h.events ==> out == ListenerLoad(Failure(Error(UnknownComponent("listener", id))), h))
      && (id in h.events ==>
            var previous := h.events[id].wrapper.value;
            && (out.result.Failure? <==> imported.ImportFailed?)
            && (forall s :: s in out.hub.subscriptions ==> s.wrapper != previous)
            && (out.result != Success(true) ==> out.hub.events == h.events)
            && (out.result == Success(true) ==>
                  var l := Loadable(Resolve(imported.exports)).value;
                  && out.hub.events[l.id].wrapper == Some(h.nextWrapper)
                  && Subscription(l.name, h.nextWrapper, l.once) in out.hub.subscriptions))
  {
    if id in h.events {
      UnloadListenerValid(h, id, true);
      var kept := UnloadListener(h, id, true).value;
      LoadListenerValid(kept, h.events[id].filepath, true, imported);
      var previous := h.events[id].wrapper.value;
      assert previous < h.nextWrapper;
    }
  }

  // ---------------------------------------------------------------- loadAll

  /** The listener state together with the payloads of the client's `error` events. */
  datatype ListenerRegistry = ListenerRegistry(hub: Hub, errors: seq<FrameworkError>)

  /** `loadAll` over `files`: a failed load is reported as ComponentLoadError and the walk goes on. */
  function LoadListenerFiles(s: ListenerRegistry, files: seq<string>, imports: string -> ImportResult<Listener>): ListenerRegistry
    decreases |files|
  {
    if files == [] then s
    else
      var before := LoadListenerFiles(s, files[..|files| - 1], imports);
      var last := files[|files| - 1];
      var out := LoadListener(before.hub, last, false, imports(last));
      ListenerRegistry(out.hub,
                       before.errors + if out.result.Failure? then [FrameworkError(PlainError, ComponentLoadError("listener", out.result.error))] else [])
  }

  /**
   * `loadAll` keeps the invariant and subscribes one wrapper per loaded file;
   * earlier error events stay and every new one is a ComponentLoadError of
   * kind "listener".
   */
  lemma {:induction false} LoadListenerFilesValid(s: ListenerRegistry, files: seq<string>, imports: string -> ImportResult<Listener>)
    requires Valid(s.hub)
    ensures var r := LoadListenerFiles(s, files, imports);
      && Valid(r.hub)
      && r.hub.nextWrapper - s.hub.nextWrapper == |r.hub.subscriptions| - |s.hub.subscriptions| <= |files|
      && |r.errors| >= |s.errors| && r.errors[..|s.errors|] == s.errors
      && (forall i :: |s.errors| <= i < |r.errors| ==> r.errors[i].info.ComponentLoadError? && r.errors[i].info.kind == "listener")
    decreases |files|
  {
    if files != [] {
      var front := files[..|files| - 1];
      var last := files[|files| - 1];
      LoadListenerFilesValid(s, front, imports);
      var mid := LoadListenerFiles(s, front, imports);
      LoadListenerValid(mid.hub, last, false, imports(last));
    }
  }

  function LoadableAt(files: seq<string>, imports: string -> ImportResult<Listener>, k: int): Option<Listener>
    requires 0 <= k < |files|
  {
    var imported := imports(files[k]);
    if imported.Imported? then Loadable(Resolve(imported.exports)) else None
  }

  /** The ids of the listeners the files hold that `load` accepts. */
  function LoadableIds(files: seq<string>, imports: string -> ImportResult<Listener>): set<string> {
    set k, l | 0 <= k < |files| && l == LoadableAt(files, imports, k) && l.Some? :: l.value.id
  }

  /** A load adds the id of the listener it accepts, if any, to the table's ids, and no other. */
  lemma LoadListenerKeys(h: Hub, filepath: string, reload: bool, imported: ImportResult<Listener>)
    ensures var found := if imported.Imported? then Loadable(Resolve(imported.exports)) else None;
      LoadListener(h, filepath, reload, imported).hub.events.Keys
        == h.events.Keys + (if found.Some? then {found.value.id} else {})
  {
  }

  /** The loadable ids of `files` are those of all but the last file, and the last file's. */
  lemma LoadableIdsLast(files: seq<string>, imports: string -> ImportResult<Listener>)
    requires files != []
    ensures var here := LoadableAt(files, imports, |files| - 1);
      LoadableIds(files, imports) == LoadableIds(files[..|files| - 1], imports) + (if here.Some? then {here.value.id} else {})
  {
    var front := files[..|files| - 1];
    var idsFront := LoadableIds(front, imports);
    var ids := LoadableIds(files, imports);
    assert forall k :: 0 <= k < |front| ==> LoadableAt(front, imports, k) == LoadableAt(files, imports, k);
    var here := LoadableAt(files, imports, |files| - 1);
    assert ids == idsFront + (if here.Some? then {here.value.id} else {}) by {
      forall id | id in ids ensures id in idsFront || (here.Some? && id == here.value.id) {
        var k, l :| 0 <= k < |files| && l == LoadableAt(files, imports, k) && l.Some? && l.value.id == id;
        if k < |front| {
          assert LoadableAt(front, imports, k) == l;
        }
      }
      forall id | id in idsFront ensures id in ids {
        var k, l :| 0 <= k < |front| && l == LoadableAt(front, imports, k) && l.Some? && l.value.id == id;
        assert LoadableAt(files, imports, k) == l;
      }
    }
  }

  /**
   * `loadAll` tries every file: the listener table ends up holding exactly
   * the ids it held before and those of every loadable listener.
   */
  lemma {:induction false} LoadListenerFilesCovers(s: ListenerRegistry, files: seq<string>, imports: string -> ImportResult<Listener>)
    ensures LoadListenerFiles(s, files, imports).hub.events.Keys == s.hub.events.Keys + LoadableIds(files, imports)
    decreases |files|
  {
    if files != [] {
      var front := files[..|files| - 1];
      var last := files[|files| - 1];
      LoadListenerFilesCovers(s, front, imports);
      var mid := LoadListenerFiles(s, front, imports);
      LoadListenerKeys(mid.hub, last, false, imports(last));
      LoadableIdsLast(files, imports);
    }
  }

  /** The error event `loadAll` emits for a file whose listener's id is already taken. */
  function TakenReport(id: string): FrameworkError {
    FrameworkError(PlainError, ComponentLoadError("listener", Error(ComponentAlreadyLoaded("listener", id))))
  }

  /**
   * The error events the walk adds keep those it added over the files before
   * the last, and gain the last file's report when its load fails.
   */
  lemma LoadListenerFilesAdded(s: ListenerRegistry, files: seq<string>, imports: string -> ImportResult<Listener>)
    requires files != []
    requires |s.errors| <= |LoadListenerFiles(s, files[..|files| - 1], imports).errors|
    ensures var n := |files| - 1;
      var mid := LoadListenerFiles(s, files[..n], imports);
      var out := LoadListener(mid.hub, files[n], false, imports(files[n]));
      var added := LoadListenerFiles(s, files, imports).errors[|s.errors|..];
      && |LoadListenerFiles(s, files, imports).errors| <= |mid.errors| + 1
      && (forall e :: e in mid.errors[|s.errors|..] ==> e in added)
      && (out.result.Failure? ==> FrameworkError(PlainError, ComponentLoadError("listener", out.result.error)) in added)
  {
    var n := |files| - 1;
    var mid := LoadListenerFiles(s, files[..n], imports);
    var out := LoadListener(mid.hub, files[n], false, imports(files[n]));
    var tail := if out.result.Failure? then [FrameworkError(PlainError, ComponentLoadError("listener", out.result.error))] else [];
    assert LoadListenerFiles(s, files, imports).errors == mid.errors + tail;
    assert LoadListenerFiles(s, files, imports).errors[|s.errors|..] == mid.errors[|s.errors|..] + tail;
  }

  /**
   * `loadAll` emits at most one error event per file, and one for each file
   * whose import throws, carrying what it threw.
   */
  lemma {:induction false} LoadListenerFilesReportsImportFailures(s: ListenerRegistry, files: seq<string>, imports: string -> ImportResult<Listener>)
    ensures var r := LoadListenerFiles(s, files, imports);
      && |s.errors| <= |r.errors| <= |s.errors| + |files|
      && (forall k | 0 <= k < |files| && imports(files[k]).ImportFailed? ::
            FrameworkError(PlainError, ComponentLoadError("listener", imports(files[k]).cause)) in r.errors[|s.errors|..])
    decreases |files|
  {
    if files != [] {
      var n := |files| - 1;
      LoadListenerFilesReportsImportFailures(s, files[..n], imports);
      LoadListenerFilesAdded(s, files, imports);
      var mid := LoadListenerFiles(s, files[..n], imports);
      LoadListenerEffect(mid.hub, files[n], false, imports(files[n]));
      assert forall k :: 0 <= k < n ==> files[..n][k] == files[k];
    }
  }

  /** After `loadAll` the table still holds every id it held, and the id of every loadable file. */
  lemma LoadListenerFilesFiled(s: ListenerRegistry, files: seq<string>, imports: string -> ImportResult<Listener>)
    ensures s.hub.events.Keys <= LoadListenerFiles(s, files, imports).hub.events.Keys
    ensures forall k | 0 <= k < |files| && LoadableAt(files, imports, k).Some? ::
      LoadableAt(files, imports, k).value.id in LoadListenerFiles(s, files, imports).hub.events
  {
    LoadListenerFilesCovers(s, files, imports);
    forall k | 0 <= k < |files| && LoadableAt(files, imports, k).Some?
      ensures LoadableAt(files, imports, k).value.id in LoadableIds(files, imports)
    {
    }
  }

  /** Without `reload`, a loadable definition whose id is filed is refused with ComponentAlreadyLoaded. */
  lemma LoadListenerTakenFails(h: Hub, filepath: string, imported: ImportResult<Listener>)
    requires imported.Imported? && Loadable(Resolve(imported.exports)).Some?
    requires Loadable(Resolve(imported.exports)).value.id in h.events
    ensures LoadListener(h, filepath, false, imported).result
      == Failure(Error(ComponentAlreadyLoaded("listener", Loadable(Resolve(imported.exports)).value.id)))
  {
  }

  /**
   * `loadAll` emits a ComponentAlreadyLoaded report for each loadable
   * listener whose id the table held before, and for each loadable listener
   * whose id an earlier file already brought.
   */
  lemma {:induction false} LoadListenerFilesReportsTaken(s: ListenerRegistry, files: seq<string>, imports: string -> ImportResult<Listener>)
    ensures var r := LoadListenerFiles(s, files, imports);
      && |s.errors| <= |r.errors|
      && (forall k | 0 <= k < |files| && LoadableAt(files, imports, k).Some?
                     && LoadableAt(files, imports, k).value.id in s.hub.events ::
            TakenReport(LoadableAt(files, imports, k).value.id) in r.errors[|s.errors|..])
      && (forall j, k | 0 <= j < k < |files| && LoadableAt(files, imports, j).Some? && LoadableAt(files, imports, k).Some?
                        && LoadableAt(files, imports, j).value.id == LoadableAt(files, imports, k).value.id ::
            TakenReport(LoadableAt(files, imports, k).value.id) in r.errors[|s.errors|..])
    decreases |files|
  {
    if files != [] {
      var n := |files| - 1;
      var front := files[..n];
      LoadListenerFilesReportsTaken(s, front, imports);
      LoadListenerFilesFiled(s, front, imports);
      LoadListenerFilesAdded(s, files, imports);
      var mid := LoadListenerFiles(s, front, imports);
      var added := LoadListenerFiles(s, files, imports).errors[|s.errors|..];
      var here := LoadableAt(files, imports, n);
      if here.Some? && here.value.id in mid.hub.events {
        LoadListenerTakenFails(mid.hub, files[n], imports(files[n]));
        assert TakenReport(here.value.id) in added;
      }
      forall k | 0 <= k < |files| && LoadableAt(files, imports, k).Some? && LoadableAt(files, imports, k).value.id in s.hub.events
        ensures TakenReport(LoadableAt(files, imports, k).value.id) in added
      {
        if k < n {
          assert LoadableAt(front, imports, k) == LoadableAt(files, imports, k);
        }
      }
      forall j, k | 0 <= j < k < |files| && LoadableAt(files, imports, j).Some? && LoadableAt(files, imports, k).Some?
                    && LoadableAt(files, imports, j).value.id == LoadableAt(files, imports, k).value.id
        ensures TakenReport(LoadableAt(files, imports, k).value.id) in added
      {
        assert LoadableAt(front, imports, j) == LoadableAt(files, imports, j);
        if k < n {
          assert LoadableAt(front, imports, k) == LoadableAt(files, imports, k);
        }
      }
    }
  }

  // ------------------------------------------------------------ event firing

  /** The wrappers an emit of `event` calls, in subscription order. */
  function Fired(subs: seq<Subscription>, event: string): seq<nat>
    decreases |subs|
  {
    if subs == [] then []
    else Fired(subs[..|subs| - 1], event) + if subs[|subs| - 1].event == event then [subs[|subs| - 1].wrapper] else []
  }

  /** The subscriptions left after an emit of `event`: those made with `once` for it are gone. */
  function AfterFire(subs: seq<Subscription>, event: string): seq<Subscription>
    decreases |subs|
  {
    if subs == [] then []
    else
      var last := subs[|subs| - 1];
      AfterFire(subs[..|subs| - 1], event) + if last.event == event && last.once then [] else [last]
  }

  /**
   * A wrapper subscribed with `once` is called by the first emit of its event
   * and by none after it; one subscribed with `on` is called by both.
   */
  lemma {:induction false} OnceFiresOnce(subs: seq<Subscription>, s: Subscription)
    requires s in subs
    ensures s.wrapper in Fired(subs, s.event)
    ensures s.once ==> s !in AfterFire(subs, s.event)
    ensures !s.once ==> s in AfterFire(subs, s.event)
    decreases |subs|
  {
    var front := subs[..|subs| - 1];
    var last := subs[|subs| - 1];
    assert subs == front + [last];
    if s in front {
      OnceFiresOnce(front, s);
    }
    if s.once {
      AfterFireWithout(front, s);
    }
  }

  lemma {:induction false} AfterFireWithout(subs: seq<Subscription>, s: Subscription)
    requires s.once
    ensures s !in AfterFire(subs, s.event)
    decreases |subs|
  {
    if subs != [] {
      AfterFireWithout(subs[..|subs| - 1], s);
    }
  }

  /** Whatever is left after an emit fires again only if made with `on`. */
  lemma {:induction false} AfterFireKeepsOn(subs: seq<Subscription>, event: string)
    ensures forall s :: s in AfterFire(subs, event) ==> s in subs && (s.event == event ==> !s.once)
    decreases |subs|
  {
    if subs != [] {
      AfterFireKeepsOn(subs[..|subs| - 1], event);
    }
  }
}
