/** The override store (kicadstamp/field_overrides.py): our own value for a symbol's Role or
    Cluster, which wins over the board's. */
module FieldOverrides {
  import opened PyText
  import opened Wrappers

  datatype Field = RoleField | ClusterField

  type Store = map<(string, Field), string>

  /** FieldOverrides.get. */
  function Lookup(store: Store, symbol: string, f: Field): Option<string> {
    if symbol != "" && (symbol, f) in store then Some(store[(symbol, f)]) else None
  }

  /** FieldOverrides.set: the key is stripped; a blank one is refused. */
  function Set(store: Store, symbol: string, f: Field, value: string): Result<Store, string> {
    var key := Strip(symbol);
    if key == "" then Failure("no symbol uuid") else Success(store[(key, f) := value])
  }
}
