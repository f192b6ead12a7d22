/**
 * The JSON values the merge engine works on, and the small vocabulary of
 * shape tests the engine applies to them (Python's `isinstance`, truthiness
 * and `dict.get`).
 */
module JsonValue {

  datatype Option<+T> = None | Some(value: T)

  /** A decoded JSON value. Numbers are integers; objects are unordered maps. */
  datatype Json =
    | Null
    | Bool(b: bool)
    | Num(n: int)
    | Str(s: string)
    | Arr(elems: seq<Json>)
    | Obj(fields: map<string, Json>)

  /** The error kinds the engine raises and then swallows for the whole event. */
  datatype Fault =
    | NotAnObject        // `.get` called on an operation or envelope that is not an object
    | PointerNotText     // `.strip` called on a truthy path that is not a string
    | StructureMismatch  // a container of the wrong kind on the way to, or at, the target
    | ReplaceOutOfRange  // index `replace` against a non-list or past the end of a list

  /**
   * The document after an operation, and the fault it raised, if any. A fault
   * does not roll back: `doc` holds every change made before the raise.
   */
  datatype Outcome = Outcome(doc: Json, fault: Option<Fault>)

  /** Python truthiness of a JSON value. */
  predicate Truthy(j: Json)
  {
    match j
    case Null => false
    case Bool(b) => b
    case Num(n) => n != 0
    case Str(s) => s != ""
    case Arr(e) => e != []
    case Obj(f) => f != map[]
  }

  /** `d.get(key)`: the value at `key`, or None (JSON null) when the key is absent. */
  function Lookup(fields: map<string, Json>, key: string): (r: Json)
    ensures key !in fields ==> r == Null
    ensures key in fields ==> r == fields[key]
  {
    if key in fields then fields[key] else Null
  }

  /** Whether `j` is the container kind a child must have: a list when `wantList`, else a dict. */
  predicate Fits(j: Json, wantList: bool)
  {
    if wantList then j.Arr? else j.Obj?
  }

  /** A fresh empty container of the kind the lookahead asks for. */
  function EmptyContainer(wantList: bool): (r: Json)
    ensures Fits(r, wantList)
    ensures r == Arr([]) || r == Obj(map[])
  {
    if wantList then Arr([]) else Obj(map[])
  }
}
