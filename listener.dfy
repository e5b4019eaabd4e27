/** The `Listener` factory (src/listeners/Listener.ts). */
module ListenerFactory {
  import opened Wrappers
  import opened Js
  import opened Errors
  import opened Guards
  import opened Definitions
  import opened CommandFactory

  /** The guards `Listener` runs, in order. */
  function ListenerGuards(o: Val): seq<Guard> {
    var name := Prop(o, "name");
    var execute := Prop(o, "execute");
    var once := Prop(o, "once");
    var disabled := Prop(o, "disabled");
    [ Guard(Truthy(o), Error(NoOptions)),
      Guard(TypeOf(o) == "object", TypeErr(InvalidType("options", "object", TypeOf(o)))),
      Guard(Truthy(name) && Truthy(Prop(name, "length")), Error(InvalidOption("name"))),
      Guard(name.Str?, TypeErr(InvalidType("name", "string", TypeOf(name)))),
      Guard(Truthy(execute), Error(InvalidOption("execute"))),
      Guard(execute.Func?, TypeErr(InvalidType("execute", "function", TypeOf(execute)))),
      Guard(once.Undefined? || once.Bool?, TypeErr(InvalidType("once", "boolean", TypeOf(once)))),
      Guard(disabled.Undefined? || disabled.Bool?, TypeErr(InvalidType("disabled", "boolean", TypeOf(disabled))))
    ]
  }

  /** What `Listener` accepts, stated property by property. */
  predicate ValidListenerOptions(o: Val) {
    && o.Obj?
    && NonEmptyString(Prop(o, "name"))
    && Prop(o, "execute").Func?
    && (Prop(o, "once").Undefined? || Prop(o, "once").Bool?)
    && (Prop(o, "disabled").Undefined? || Prop(o, "disabled").Bool?)
  }

  lemma ListenerGuardsPassIffValid(o: Val)
    ensures AllPass(ListenerGuards(o)) <==> ValidListenerOptions(o)
  {
    var g := ListenerGuards(o);
    if AllPass(g) {
      assert g[0].ok && g[1].ok && g[2].ok && g[3].ok && g[4].ok && g[5].ok && g[6].ok && g[7].ok;
    }
  }

  /**
   * `Listener(options)`: exactly the record {id `Client:<name>`, name, once
   * (default false), disabled (default false), execute}; nothing else of the
   * options is kept.
   */
  function Listener(o: Val): (r: Result<Definitions.Listener, Cause>)
    ensures r.Success? <==> ValidListenerOptions(o)
    ensures r.Success? ==> r.value == Definitions.Listener(
      id := "Client:" + Prop(o, "name").s,
      name := Prop(o, "name").s,
      once := Prop(o, "once") == Bool(true),
      disabled := Prop(o, "disabled") == Bool(true),
      execute := Prop(o, "execute"),
      filepath := "",
      wrapper := None)
    ensures r.Failure? ==> exists i :: FailsFirstAt(ListenerGuards(o), i) && r.error == ListenerGuards(o)[i].error
  {
    var g := ListenerGuards(o);
    FirstFailureSpec(g);
    ListenerGuardsPassIffValid(o);
    match FirstFailure(g)
    case Some(e) => Failure(e)
    case None =>
      var name := Prop(o, "name").s;
      Success(Definitions.Listener("Client:" + name, name, Prop(o, "once") == Bool(true),
                                   Prop(o, "disabled") == Bool(true), Prop(o, "execute"), "", None))
  }

  /** A falsy options value is NoOptions and a non-object InvalidType; a missing name is InvalidOption. */
  lemma ListenerOptionChecks(o: Val)
    ensures !Truthy(o) ==> Listener(o) == Failure(Error(NoOptions))
    ensures Truthy(o) && TypeOf(o) != "object" ==> Listener(o) == Failure(TypeErr(InvalidType("options", "object", TypeOf(o))))
    ensures o.Obj? && !Truthy(Prop(o, "name")) ==> Listener(o) == Failure(Error(InvalidOption("name")))
  {
    var g := ListenerGuards(o);
    if !Truthy(o) {
      FirstFailureAt(g, 0);
    } else if TypeOf(o) != "object" {
      assert g[..1] == [g[0]];
      FirstFailureAt(g, 1);
    } else if o.Obj? && !Truthy(Prop(o, "name")) {
      assert g[..2] == [g[0], g[1]];
      FirstFailureAt(g, 2);
    }
  }

  /** Given a valid name and handler, a `once` that is not a boolean is an InvalidType. */
  lemma ListenerOnceChecked(fields: map<string, Val>)
    requires NonEmptyString(Get(fields, "name")) && Get(fields, "execute").Func?
    requires !Get(fields, "once").Undefined? && !Get(fields, "once").Bool?
    ensures Listener(Obj(fields)) == Failure(TypeErr(InvalidType("once", "boolean", TypeOf(Get(fields, "once")))))
  {
    var g := ListenerGuards(Obj(fields));
    assert g[..6] == [g[0], g[1], g[2], g[3], g[4], g[5]];
    FirstFailureAt(g, 6);
  }
}
