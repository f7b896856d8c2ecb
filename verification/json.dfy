/**
 * The values `JSON.parse` produces, with the JavaScript notions the state
 * repair relies on: truthiness, `typeof v === 'object'`, and reading and
 * writing a named property. The planner's script runs in sloppy mode, so a
 * property written on a primitive is silently dropped; an array is an object
 * and can carry named properties beside its items.
 */
module Json {
  import opened Wrappers

  datatype Value =
    | Null
    | Bool(b: bool)
    | Num(n: int)
    | Str(s: string)
    | Arr(items: seq<Value>, props: map<string, Value>)
    | Obj(props: map<string, Value>)

  /** `v && typeof v === 'object'`: arrays and objects. */
  predicate IsObject(v: Value) {
    v.Arr? || v.Obj?
  }

  /** JavaScript truthiness: `null`, `false`, `0` and `""` are falsy; arrays and objects are truthy. */
  predicate Truthy(v: Value) {
    match v
    case Null => false
    case Bool(b) => b
    case Num(n) => n != 0
    case Str(s) => s != ""
    case Arr(_, _) => true
    case Obj(_) => true
  }

  /** `v[k]`, with `None` for `undefined`. */
  function Get(v: Value, k: string): (o: Option<Value>)
    ensures o.Some? <==> IsObject(v) && k in v.props
  {
    if IsObject(v) && k in v.props then Some(v.props[k]) else None
  }

  /** `v[k]` holds a truthy value. */
  predicate TruthyAt(v: Value, k: string) {
    Get(v, k).Some? && Truthy(Get(v, k).value)
  }

  /** `v[k] = x`: sets the property on an object or array; on a primitive nothing happens. */
  function Put(v: Value, k: string, x: Value): (r: Value)
    ensures IsObject(v) ==> Get(r, k) == Some(x)
    ensures forall j :: j != k ==> Get(r, j) == Get(v, j)
    ensures !IsObject(v) ==> r == v
    ensures r.Arr? <==> v.Arr?
    ensures r.Arr? ==> r.items == v.items
  {
    if IsObject(v) then v.(props := v.props[k := x]) else v
  }

  /** `o || d` for a property read `o`. */
  function Filled(o: Option<Value>, d: Value): (r: Value)
    ensures o.Some? && Truthy(o.value) ==> r == o.value
    ensures !(o.Some? && Truthy(o.value)) ==> r == d
  {
    if o.Some? && Truthy(o.value) then o.value else d
  }

  function EmptyObj(): Value {
    Obj(map[])
  }

  function EmptyArr(): Value {
    Arr([], map[])
  }
}
