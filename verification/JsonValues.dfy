/** A value read from gui_state.json, and the Python questions asked of it. */
module JsonValues {
  import opened Wrappers

  datatype Json =
    | Null
    | Bool(flag: bool)
    | Number(value: real)
    | Str(text: string)
    | Arr(items: seq<Json>)
    | Obj(fields: map<string, Json>)

  /** What str() makes of a value that is not a string. It is never empty; nothing
      else about it matters, so every statement holds for any such rendering. */
  type Rendering = f: Json -> string | forall j :: f(j) != "" witness (j: Json) => "?"

  /** bool(value). */
  predicate Truthy(j: Json) {
    match j
    case Null => false
    case Bool(b) => b
    case Number(n) => n != 0.0
    case Str(s) => s != ""
    case Arr(items) => items != []
    case Obj(fields) => fields != map[]
  }

  /** The six values that count as nothing. */
  lemma FalsyValues(j: Json)
    ensures !Truthy(j) <==>
            || j == Null || j == Bool(false) || j == Number(0.0) || j == Str("") || j == Arr([]) || j == Obj(map[])
  {}

  /** str(value). */
  function PyStr(j: Json, render: Rendering): string {
    if j.Str? then j.text else render(j)
  }

  /** str(value or ""). */
  function StrOrEmpty(j: Json, render: Rendering): string {
    if Truthy(j) then PyStr(j, render) else ""
  }

  lemma TextsOf(j: Json, render: Rendering)
    ensures j.Str? ==> PyStr(j, render) == j.text && StrOrEmpty(j, render) == j.text
    ensures !j.Str? ==> PyStr(j, render) == render(j) && StrOrEmpty(j, render) == if Truthy(j) then render(j) else ""
  {}

  /** dict.get(key). */
  function Get(fields: map<string, Json>, key: string): Json {
    if key in fields then fields[key] else Null
  }

  /** The dictionary a value is, or the empty one when it is anything else. */
  function AsDict(j: Json): map<string, Json> {
    if j.Obj? then j.fields else map[]
  }

  /** str(value) if value else None. */
  function StrOrNone(j: Json, render: Rendering): Option<string> {
    if Truthy(j) then Some(PyStr(j, render)) else None
  }

  function OptStr(s: Option<string>): Json {
    match s
    case None => Null
    case Some(text) => Str(text)
  }
}
