/** The `Autocompleter` factory (src/autocomplete/Autocompleter.ts). */
module AutocompleterFactory {
  import opened Wrappers
  import opened Js
  import opened Errors
  import opened Guards
  import opened Definitions
  import opened CommandFactory

  /** The guards `Autocompleter` runs, in order. */
  function AutocompleterGuards(o: Val): seq<Guard> {
    var name := Prop(o, "name");
    var execute := Prop(o, "execute");
    var disabled := Prop(o, "disabled");
    [ Guard(Truthy(o), Error(NoOptions)),
      Guard(TypeOf(o) == "object", TypeErr(InvalidType("options", "object", TypeOf(o)))),
      Guard(Truthy(name) && Truthy(Prop(name, "length")), Error(InvalidOption("name"))),
      Guard(name.Str?, TypeErr(InvalidType("name", "string", TypeOf(name)))),
      Guard(Truthy(execute), Error(InvalidOption("execute"))),
      Guard(execute.Func?, TypeErr(InvalidType("execute", "function", TypeOf(execute)))),
      Guard(disabled.Undefined? || disabled.Bool?, TypeErr(InvalidType("disabled", "boolean", TypeOf(disabled))))
    ]
  }

  /** What `Autocompleter` accepts, stated property by property. */
  predicate ValidAutocompleterOptions(o: Val) {
    && o.Obj?
    && NonEmptyString(Prop(o, "name"))
    && Prop(o, "execute").Func?
    && (Prop(o, "disabled").Undefined? || Prop(o, "disabled").Bool?)
  }

  lemma AutocompleterGuardsPassIffValid(o: Val)
    ensures AllPass(AutocompleterGuards(o)) <==> ValidAutocompleterOptions(o)
  {
    var g := AutocompleterGuards(o);
    if AllPass(g) {
      assert g[0].ok && g[1].ok && g[2].ok && g[3].ok && g[4].ok && g[5].ok && g[6].ok;
    }
  }

  /** `Autocompleter(options)`: the record {id = name, name, disabled (default false), execute}. */
  function Autocompleter(o: Val): (r: Result<Definitions.Autocompleter, Cause>)
    ensures r.Success? <==> ValidAutocompleterOptions(o)
    ensures r.Success? ==> r.value == Definitions.Autocompleter(
      id := Prop(o, "name").s,
      name := Prop(o, "name").s,
      disabled := Prop(o, "disabled") == Bool(true),
      execute := Prop(o, "execute"),
      filepath := "")
    ensures r.Failure? ==> exists i :: FailsFirstAt(AutocompleterGuards(o), i) && r.error == AutocompleterGuards(o)[i].error
  {
    var g := AutocompleterGuards(o);
    FirstFailureSpec(g);
    AutocompleterGuardsPassIffValid(o);
    match FirstFailure(g)
    case Some(e) => Failure(e)
    case None =>
      var name := Prop(o, "name").s;
      Success(Definitions.Autocompleter(name, name, Prop(o, "disabled") == Bool(true), Prop(o, "execute"), ""))
  }

  /** A falsy options value is NoOptions, a non-object InvalidType, a missing handler InvalidOption. */
  lemma AutocompleterOptionChecks(o: Val)
    ensures !Truthy(o) ==> Autocompleter(o) == Failure(Error(NoOptions))
    ensures Truthy(o) && TypeOf(o) != "object" ==> Autocompleter(o) == Failure(TypeErr(InvalidType("options", "object", TypeOf(o))))
    ensures o.Obj? && NonEmptyString(Prop(o, "name")) && !Truthy(Prop(o, "execute")) ==>
      Autocompleter(o) == Failure(Error(InvalidOption("execute")))
  {
    var g := AutocompleterGuards(o);
    if !Truthy(o) {
      FirstFailureAt(g, 0);
    } else if TypeOf(o) != "object" {
      assert g[..1] == [g[0]];
      FirstFailureAt(g, 1);
    } else if o.Obj? && NonEmptyString(Prop(o, "name")) && !Truthy(Prop(o, "execute")) {
      assert g[..4] == [g[0], g[1], g[2], g[3]];
      FirstFailureAt(g, 4);
    }
  }
}
