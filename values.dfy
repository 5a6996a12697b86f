/** Values held in the preference store and carried by messages from the hosted page. */
module Values {

  datatype Option<+T> = None | Some(value: T)

  /** Window geometry as the windowing toolkit reports it; an opaque record here. */
  datatype Bounds = Bounds(x: int, y: int, width: int, height: int)

  /** A JavaScript value as the settings store keeps it. */
  datatype Value =
    | Null
    | Bool(b: bool)
    | Num(n: int)
    | Str(s: string)
    | Rect(r: Bounds)
    | Opaque(id: nat)   // any other object or array: only its identity matters here

  /** The persisted settings: key to value. A missing key reads as `undefined`. */
  type Store = map<string, Value>

  const VisibleKey: string := "visible"
  const LastUrlKey: string := "lastUrl"
  const BoundsKey: string := "windowBounds"
  const ToHostKey: string := "toHost"

  /** The four keys the controller ever writes. */
  const KnownKeys: set<string> := {VisibleKey, LastUrlKey, BoundsKey, ToHostKey}

  /** Reading a key: `None` stands for JavaScript's `undefined`. */
  function Get(store: Store, key: string): (r: Option<Value>)
    ensures r.Some? <==> key in store
    ensures r.Some? ==> store[key] == r.value
  {
    if key in store then Some(store[key]) else None
  }

  /** JavaScript truthiness of a stored value, as `if (visible)` tests it. */
  function Truthy(v: Value): (r: bool)
    ensures !r <==> v == Null || v == Bool(false) || v == Num(0) || v == Str("")
  {
    match v
    case Null => false
    case Bool(b) => b
    case Num(n) => n != 0
    case Str(s) => s != ""
    case Rect(_) => true
    case Opaque(_) => true
  }
}
