/**
 * The JavaScript values that cross the frame boundary (structured-clone data)
 * and the few language rules the plugin relies on: truthiness, reading a named
 * property, object spread, and the text a template literal produces.
 * An absent property (`undefined`) is not a value here: it is a missing map key
 * or `None`.
 */
module Json {
  import opened Wrappers
  import Text

  datatype Value =
    | Null
    | Bool(b: bool)
    | Num(n: int)
    | Str(s: string)
    | Arr(items: seq<Value>)
    | Obj(fields: map<string, Value>)

  /** JavaScript truthiness: `null`, `false`, `0` and `""` are falsy. */
  predicate Truthy(v: Value)
  {
    match v
    case Null => false
    case Bool(b) => b
    case Num(n) => n != 0
    case Str(s) => s != ""
    case Arr(_) => true
    case Obj(_) => true
  }

  /** Optional `undefined` counts as falsy too. */
  predicate TruthyOpt(v: Option<Value>)
  {
    v.Some? && Truthy(v.value)
  }

  /** `v.name` for a non-index name; only objects carry such own properties. */
  function Property(v: Value, name: string): (r: Option<Value>)
    requires v != Null
    ensures r.Some? <==> v.Obj? && name in v.fields
    ensures r.Some? ==> r.value == v.fields[name]
  {
    if v.Obj? && name in v.fields then Some(v.fields[name]) else None
  }

  /** A destructured field `{name = dflt}`: the default replaces only `undefined`. */
  function FieldOr(m: map<string, Value>, name: string, dflt: Value): (r: Value)
    ensures name in m ==> r == m[name]
    ensures name !in m ==> r == dflt
  {
    if name in m then m[name] else dflt
  }

  predicate IsIndexKey(k: string)
  {
    |k| >= 1 && forall i :: 0 <= i < |k| ==> '0' <= k[i] <= '9'
  }

  /** Own enumerable index properties `"0"`, `"1"`, ... of an array. */
  function IndexFields(items: seq<Value>): (m: map<string, Value>)
    ensures forall k :: k in m ==> IsIndexKey(k)
    ensures |m| <= |items|
  {
    if |items| == 0 then map[]
    else
      var n := |items| - 1;
      IndexFields(items[..n])[Text.NatToString(n) := items[n]]
  }

  /** The fields `{...v}` contributes to an object literal. */
  function Spread(v: Value): (m: map<string, Value>)
    ensures v.Obj? ==> m == v.fields
    ensures !v.Obj? ==> forall k :: k in m ==> IsIndexKey(k)
    ensures (v.Null? || v.Bool? || v.Num?) ==> m == map[]
  {
    match v
    case Obj(f) => f
    case Arr(items) => IndexFields(items)
    case Str(s) => IndexFields(seq(|s|, i requires 0 <= i < |s| => Str([s[i]])))
    case _ => map[]
  }

  /** Decimal text of an integer, as `String(n)` gives it for a safe integer. */
  function IntToString(n: int): (s: string)
    ensures |s| >= 1
  {
    if n >= 0 then Text.NatToString(n) else "-" + Text.NatToString(-n)
  }

  /** The text `${v}` yields inside a template literal. */
  function ToText(v: Value): string
    decreases v
  {
    match v
    case Null => "null"
    case Bool(b) => if b then "true" else "false"
    case Num(n) => IntToString(n)
    case Str(s) => s
    case Arr(items) =>
      Text.Join(seq(|items|, i requires 0 <= i < |items| =>
        if items[i].Null? then "" else ToText(items[i])), ',')
    case Obj(_) => "[object Object]"
  }
}
