/** The dynamically typed values the backend reads from API responses and
    simulation results, with the few Python operations applied to them: dictionary
    lookup with a default, truthiness, `str()` and hashing into an integer-keyed
    dictionary. */
module PyValues {
  import opened Results
  import opened PyStr

  /** A JSON-like Python value. A float carries the text `str()` gives it; a
      dictionary keeps its members in insertion order. */
  datatype Value =
    | NoneV
    | BoolV(b: bool)
    | IntV(i: int)
    | RealV(r: real, text: string)
    | StrV(s: string)
    | ListV(items: seq<Value>)
    | DictV(entries: seq<(string, Value)>)

  /** The members of a dictionary, in insertion order. */
  type Entries = seq<(string, Value)>

  predicate HasKey(entries: Entries, key: string) {
    exists j :: 0 <= j < |entries| && entries[j].0 == key
  }

  /** `d.get(key)`: the value under `key`, `None` when it is missing. */
  function Get(entries: Entries, key: string): (r: Option<Value>)
    ensures r.Some? <==> HasKey(entries, key)
    ensures r.Some? ==> exists j :: 0 <= j < |entries| && entries[j] == (key, r.value)
  {
    if entries == [] then None
    else if entries[0].0 == key then Some(entries[0].1)
    else
      var r := Get(entries[1..], key);
      if r.Some? then
        var j :| 0 <= j < |entries[1..]| && entries[1..][j] == (key, r.value);
        assert entries[j + 1] == (key, r.value);
        r
      else
        assert forall j :: 1 <= j < |entries| ==> entries[j] == entries[1..][j - 1];
        r
  }

  /** `d.get(key, default)`. */
  function GetOr(entries: Entries, key: string, default: Value): Value {
    Get(entries, key).GetOr(default)
  }

  /** `type(v).__name__`. */
  function TypeName(v: Value): string {
    match v
    case NoneV => "NoneType"
    case BoolV(_) => "bool"
    case IntV(_) => "int"
    case RealV(_, _) => "float"
    case StrV(_) => "str"
    case ListV(_) => "list"
    case DictV(_) => "dict"
  }

  /** Python truthiness: `None`, `False`, zero and empty containers are false. */
  predicate Truthy(v: Value) {
    match v
    case NoneV => false
    case BoolV(b) => b
    case IntV(i) => i != 0
    case RealV(r, _) => r != 0.0
    case StrV(s) => s != ""
    case ListV(items) => items != []
    case DictV(entries) => entries != []
  }

  /** `str(v)` for a scalar. Lists and dictionaries print as the empty text here:
      their Python rendering is not modelled. */
  function Str(v: Value): string {
    match v
    case NoneV => "None"
    case BoolV(b) => if b then "True" else "False"
    case IntV(i) => IntToString(i)
    case RealV(_, text) => text
    case StrV(s) => s
    case ListV(_) => ""
    case DictV(_) => ""
  }

  /** Why a lookup in a dictionary with integer keys cannot be made. */
  datatype HashError = Unhashable

  /** The integer a value equals as a dictionary key (`True == 1`, `2.0 == 2`), if any;
      lists and dictionaries cannot be hashed. */
  function IntKey(v: Value): (r: Result<Option<int>, HashError>)
    ensures r.Err? <==> v.ListV? || v.DictV?
    ensures v.IntV? ==> r == Ok(Some(v.i))
    ensures v.StrV? || v.NoneV? ==> r == Ok(None)
  {
    match v
    case IntV(i) => Ok(Some(i))
    case BoolV(b) => Ok(Some(if b then 1 else 0))
    case RealV(r, _) => if r == r.Floor as real then Ok(Some(r.Floor)) else Ok(None)
    case ListV(_) => Err(Unhashable)
    case DictV(_) => Err(Unhashable)
    case _ => Ok(None)
  }
}
