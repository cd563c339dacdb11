/** The slice of JavaScript semantics that the reservation service relies on:
    plain values and objects, object literals with spread, and `new Date(...)`
    together with the `>=` comparison of two dates. */
module JsSemantics {

  datatype Option<+T> = None | Some(value: T)

  /** A scalar value as it can appear in a JSON request body or on a plain object. */
  datatype Value = Undefined | Null | Bool(b: bool) | Num(n: int) | Str(s: string)

  /** A plain object: its own enumerable properties, by name. */
  type Object = map<string, Value>

  /** Property read `o.k`: an own property the object lacks, and that
      `Object.prototype` does not define, reads as undefined. The keys the
      service reads (`startTime`, `endTime`, `userId`, `id`) are all of that
      kind; prototype properties are not modelled. */
  function Get(o: Object, k: string): Value
  {
    if k in o then o[k] else Undefined
  }

  // ---------------------------------------------------------------------------
  // Object literals
  // ---------------------------------------------------------------------------

  /** One entry of an object literal: `...source` or `key: value`. */
  datatype PropertyDefinition = Spread(source: Object) | Property(key: string, value: Value)

  /** Evaluates an object literal: its entries are applied left to right, and
      each one (re)defines the properties it names on the object built so far. */
  function EvalObjectLiteral(defs: seq<PropertyDefinition>): Object
    decreases |defs|
  {
    if defs == [] then map[]
    else
      var soFar := EvalObjectLiteral(defs[..|defs| - 1]);
      match defs[|defs| - 1]
      case Spread(source) => soFar + source
      case Property(k, v) => soFar[k := v]
  }

  /** Whether entry `d` defines property `k`. */
  predicate Defines(d: PropertyDefinition, k: string)
  {
    match d
    case Spread(source) => k in source
    case Property(key, _) => key == k
  }

  /** The value entry `d` gives property `k`. */
  function DefinedValue(d: PropertyDefinition, k: string): Value
    requires Defines(d, k)
  {
    match d
    case Spread(source) => source[k]
    case Property(_, v) => v
  }

  /** Entry `i` is the last entry of `defs` that defines `k`. */
  predicate LastDefiner(defs: seq<PropertyDefinition>, k: string, i: int)
  {
    0 <= i < |defs| && Defines(defs[i], k) &&
    forall j :: i < j < |defs| ==> !Defines(defs[j], k)
  }

  /** An object literal has exactly the properties that some entry defines. */
  lemma {:induction false} LiteralHasDefinedProperties(defs: seq<PropertyDefinition>, k: string)
    ensures k in EvalObjectLiteral(defs) <==> exists i :: 0 <= i < |defs| && Defines(defs[i], k)
    decreases |defs|
  {
    if defs != [] {
      var n := |defs| - 1;
      LiteralHasDefinedProperties(defs[..n], k);
      assert forall i :: 0 <= i < n ==> defs[..n][i] == defs[i];
    }
  }

  /** Each property of an object literal takes the value of the LAST entry that
      defines it. */
  lemma {:induction false} LastDefinitionWins(defs: seq<PropertyDefinition>, k: string, i: int)
    requires LastDefiner(defs, k, i)
    ensures k in EvalObjectLiteral(defs) && EvalObjectLiteral(defs)[k] == DefinedValue(defs[i], k)
    decreases |defs|
  {
    var n := |defs| - 1;
    if i < n {
      var prefix := defs[..n];
      assert LastDefiner(prefix, k, i);
      LastDefinitionWins(prefix, k, i);
    }
  }

  // ---------------------------------------------------------------------------
  // Dates
  // ---------------------------------------------------------------------------

  /** The largest magnitude of an ECMAScript time value, in milliseconds from the epoch. */
  const MaxTimeValue: int := 8_640_000_000_000_000

  /** ECMAScript TimeClip on an integral number of milliseconds: a value out of
      range becomes NaN, written None. */
  function TimeClip(t: int): Option<int>
  {
    if -MaxTimeValue <= t <= MaxTimeValue then Some(t) else None
  }

  /** The time value of `new Date(v)`; None is an Invalid Date (time value NaN).
      A string goes through `parse`, the host's `Date.parse`, whose grammar is
      not part of this model. */
  function NewDate(v: Value, parse: string -> Option<int>): (t: Option<int>)
    ensures t.Some? ==> -MaxTimeValue <= t.value <= MaxTimeValue
    ensures v.Undefined? ==> t.None?
  {
    match v
    case Undefined => None
    case Null => Some(0)
    case Bool(b) => Some(if b then 1 else 0)
    case Num(n) => TimeClip(n)
    case Str(s) => if parse(s).Some? then TimeClip(parse(s).value) else None
  }

  /** `a >= b` on two Date objects: both are compared by their time values.
      Between two valid dates it is the negation of `a < b`; every comparison
      that involves NaN is false. */
  function DateAtLeast(a: Option<int>, b: Option<int>): (r: bool)
    ensures a.None? || b.None? ==> !r
    ensures a.Some? && b.Some? ==> (r <==> !(a.value < b.value))
  {
    a.Some? && b.Some? && a.value >= b.value
  }
}
