/**
 * The JavaScript values the validating factories inspect, and the operators
 * they use on them: truthiness, `typeof`, property reads, `??`, `Array.isArray`
 * and `includes`.
 */
module Js {
  import opened Text

  /**
   * A JavaScript value. Numbers are integers; a function carries an identity and
   * its declared arity (its `length`); an object carries its own properties.
   */
  datatype Val =
    | Undefined
    | Null
    | Bool(b: bool)
    | Num(n: int)
    | Str(s: string)
    | Arr(items: seq<Val>)
    | Func(ref: nat, arity: nat)
    | Obj(fields: map<string, Val>)

  /** JavaScript's truthiness (`!!v`). */
  predicate Truthy(v: Val) {
    match v
    case Undefined => false
    case Null => false
    case Bool(b) => b
    case Num(n) => n != 0
    case Str(s) => s != ""
    case _ => true
  }

  predicate IsNullish(v: Val) { v.Undefined? || v.Null? }

  /** `typeof v` */
  function TypeOf(v: Val): string {
    match v
    case Undefined => "undefined"
    case Null => "object"
    case Bool(_) => "boolean"
    case Num(_) => "number"
    case Str(_) => "string"
    case Arr(_) => "object"
    case Func(_, _) => "function"
    case Obj(_) => "object"
  }

  function Get(fields: map<string, Val>, key: string): Val {
    if key in fields then fields[key] else Undefined
  }

  /** `v?.[key]`: the value of an own property, or `length` of a string, array or function. */
  function Prop(v: Val, key: string): Val {
    match v
    case Obj(f) => Get(f, key)
    case Str(s) => if key == "length" then Num(|s|) else Undefined
    case Arr(items) => if key == "length" then Num(|items|) else Undefined
    case Func(_, arity) => if key == "length" then Num(arity) else Undefined
    case _ => Undefined
  }

  /** `target[key] = x` on an object; other values are not changed. */
  function SetProp(target: Val, key: string, x: Val): (r: Val)
    ensures target.Obj? ==> r.Obj? && Prop(r, key) == x
    ensures target.Obj? ==> forall k :: k != key ==> Prop(r, k) == Prop(target, k)
  {
    if target.Obj? then Obj(target.fields[key := x]) else target
  }

  /** `v ?? fallback` */
  function Coalesce(v: Val, fallback: Val): Val {
    if IsNullish(v) then fallback else v
  }

  /** `Array.isArray(v) && v.includes(x)` for primitive `x`. */
  predicate ArrayIncludes(v: Val, x: Val) {
    v.Arr? && x in v.items
  }

  /** `String(v)`, as a template literal renders a value. */
  function Display(v: Val): string
    decreases v, 0
  {
    match v
    case Undefined => "undefined"
    case Null => "null"
    case Bool(b) => if b then "true" else "false"
    case Num(n) => IntToString(n)
    case Str(s) => s
    case Arr(items) => Join(seq(|items|, i requires 0 <= i < |items| => JoinPart(items[i])), ",")
    case Func(_, _) => "function"
    case Obj(_) => "[object Object]"
  }

  /** How `Array.prototype.join` renders one element. */
  function JoinPart(v: Val): string
    decreases v, 1
  {
    if IsNullish(v) then "" else Display(v)
  }
}
