/**
 * The records the factories produce and the registries hold (src/types), the
 * shapes a component module may export them in, and the outcome of importing
 * a module file.
 */
module Definitions {
  import opened Wrappers
  import opened Js
  import opened Errors

  datatype CommandType = Slash | Message | ContextMessage | ContextUser

  function TypeName(t: CommandType): string {
    match t
    case Slash => "Slash"
    case Message => "Message"
    case ContextMessage => "ContextMessage"
    case ContextUser => "ContextUser"
  }

  /** The command type a `commandType` option value names, if it names one. */
  function CommandTypeOf(v: Val): (r: Option<CommandType>)
    ensures r.Some? <==> v.Str? && v.s in ["Slash", "Message", "ContextMessage", "ContextUser"]
    ensures r.Some? ==> v == Str(TypeName(r.value))
  {
    if v == Str("Slash") then Some(Slash)
    else if v == Str("Message") then Some(Message)
    else if v == Str("ContextMessage") then Some(ContextMessage)
    else if v == Str("ContextUser") then Some(ContextUser)
    else None
  }

  /**
   * A command definition as `Command` returns it: the options' own properties
   * spread into a new object, with the normalised properties written over
   * them. The normalised properties are typed; `fields` keeps the options'
   * properties, which the record carries for every other key. `filepath` is
   * empty until the command is loaded.
   */
  datatype Command = Command(
    id: string,
    name: string,
    description: string,
    commandType: CommandType,
    memberPermissions: Val,
    clientPermissions: Val,
    cooldown: Val,
    disabled: bool,
    filepath: string,
    fields: map<string, Val>)
  {
    /** A property copied through from the options (for a key `Command` does not normalise). */
    function Field(key: string): Val { Get(fields, key) }
  }

  /** A listener definition; `wrapper` is the handle of its `_execute` subscription once loaded. */
  datatype Listener = Listener(
    id: string,
    name: string,
    once: bool,
    disabled: bool,
    execute: Val,
    filepath: string,
    wrapper: Option<nat>)

  datatype Autocompleter = Autocompleter(
    id: string,
    name: string,
    disabled: bool,
    execute: Val,
    filepath: string)

  /** A value a module exports: not an object, an object without a `name`, or a definition. */
  datatype Export<T> = NotAnObject | NamelessObject | Definition(value: T)

  /**
   * The exports of a component module: the kind-specific named export
   * (`command`, `listener`, `autocomplete`), `default.default`, `default`, and
   * the module namespace itself. `None` stands for an undefined or null export.
   */
  datatype ModuleExports<T> = ModuleExports(
    named: Option<Export<T>>,
    nestedDefault: Option<Export<T>>,
    defaultExport: Option<Export<T>>,
    namespace: Export<T>)

  /** `m.named ?? m.default?.default ?? m.default ?? m`: the first export that is not nullish. */
  function Resolve<T>(m: ModuleExports<T>): Export<T> {
    if m.named.Some? then m.named.value
    else if m.nestedDefault.Some? then m.nestedDefault.value
    else if m.defaultExport.Some? then m.defaultExport.value
    else m.namespace
  }

  /** Importing a module file either yields its exports or throws while evaluating it. */
  datatype ImportResult<T> = Imported(exports: ModuleExports<T>) | ImportFailed(cause: Cause)
}
