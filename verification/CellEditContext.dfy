/** What the GUI remembers of a cell (gui/cell_edit_context.py): the context it was last
    edited in, the identified refs, and the role table, each under its root config and
    its name, in two nested dictionaries of the state file. */
module CellEditContext {
  import opened Wrappers
  import opened JsonValues
  import opened PyText
  import opened Sequences
  import S = Settings

  const CONTEXT_KEY := "cell_edit_context"
  const TABLE_KEY := "cell_role_table"

  // ---- The nested dictionary {root: {cell: entry}} ----

  /** _state(key): the map under the key, or an empty one. */
  function StateOf(contents: map<string, Json>, key: string): map<string, Json> { AsDict(Get(contents, key)) }

  /** What a reader finds for a cell: anything out of shape is nothing. */
  function EntryOf(state: map<string, Json>, root: string, cell: string): Json {
    Get(AsDict(Get(state, root)), cell)
  }

  /** The slot of a root is free or a dictionary. Under anything else the assignment
      raises, the exception is swallowed, and nothing is ever written for this root. */
  predicate Writable(state: map<string, Json>, root: string) { root in state ==> state[root].Obj? }

  /** state.setdefault(root, {})[cell] = entry. */
  function Put(state: map<string, Json>, root: string, cell: string, entry: Json): map<string, Json> {
    state[root := Obj(AsDict(Get(state, root))[cell := entry])]
  }

  /** Pop the cell, and the root with it when nothing is left there. */
  function Drop(state: map<string, Json>, root: string, cell: string): map<string, Json> {
    var cells := AsDict(Get(state, root)) - {cell};
    if cells == map[] then state - {root} else state[root := Obj(cells)]
  }

  lemma PutReadsBack(state: map<string, Json>, root: string, cell: string, entry: Json, root2: string, cell2: string)
    ensures EntryOf(Put(state, root, cell, entry), root2, cell2) ==
            if root2 == root && cell2 == cell then entry else EntryOf(state, root2, cell2)
  {}

  lemma DropReadsBack(state: map<string, Json>, root: string, cell: string, root2: string, cell2: string)
    ensures EntryOf(Drop(state, root, cell), root2, cell2) ==
            if root2 == root && cell2 == cell then Null else EntryOf(state, root2, cell2)
  {
    var cells := AsDict(Get(state, root)) - {cell};
    if cells == map[] && root2 == root && cell2 != cell {
      assert cell2 in AsDict(Get(state, root)) ==> cell2 in cells;
    }
  }

  // ---- Entries ----

  function ContextEntry(cluster: string, sheet: Option<string>): map<string, Json> {
    map["cluster" := Str(cluster), "sheet" := OptStr(if sheet == Some("") then None else sheet)]
  }

  /** {str(role): str(ref)} without blanks. */
  function CleanRefs(refs: map<string, string>): map<string, string> {
    map role | role in refs && role != "" && refs[role] != "" :: refs[role]
  }

  function RefsJson(refs: map<string, string>): Json { Obj(map role | role in refs :: Str(refs[role])) }

  function InstanceEntry(cluster: string, sheet: Option<string>, refs: map<string, string>): map<string, Json> {
    if CleanRefs(refs) == map[] then ContextEntry(cluster, sheet)
    else ContextEntry(cluster, sheet)["refs" := RefsJson(CleanRefs(refs))]
  }

  /** One row of a table as it is kept; a row without a refdes is not. */
  function CleanRow(entry: Json, render: Rendering): seq<Json> {
    if !entry.Obj? then []
    else
      var ref := Strip(StrOrEmpty(Get(entry.fields, "ref"), render));
      if ref == "" then []
      else [Obj(map["ref" := Str(ref), "role" := Str(StrOrEmpty(Get(entry.fields, "role"), render)),
                    "cluster" := Str(StrOrEmpty(Get(entry.fields, "cluster"), render))])]
  }

  function CleanParts(entries: seq<Json>, render: Rendering): seq<seq<Json>> {
    seq(|entries|, i requires 0 <= i < |entries| => CleanRow(entries[i], render))
  }

  function CleanRows(entries: seq<Json>, render: Rendering): seq<Json> { Flat(CleanParts(entries, render)) }

  lemma CleanRowIsClean(entry: Json, render: Rendering)
    ensures forall row :: row in CleanRow(entry, render) ==> CleanRow(row, render) == [row]
  {
    if entry.Obj? {
      var ref := Strip(StrOrEmpty(Get(entry.fields, "ref"), render));
      assert Strip(ref) == ref;
      if ref != "" {
        var row := CleanRow(entry, render)[0];
        assert Get(row.fields, "ref") == Str(ref);
        assert Get(row.fields, "role") == Str(StrOrEmpty(Get(entry.fields, "role"), render));
        assert Get(row.fields, "cluster") == Str(StrOrEmpty(Get(entry.fields, "cluster"), render));
      }
    }
  }

  /** What was cleaned on the way in is not changed on the way out. */
  lemma {:induction false} CleaningTwiceIsCleaning(entries: seq<Json>, render: Rendering)
    ensures CleanRows(CleanRows(entries, render), render) == CleanRows(entries, render)
  {
    var rows := CleanRows(entries, render);
    forall i | 0 <= i < |rows| ensures CleanParts(rows, render)[i] == [rows[i]] {
      var k := PartOf(CleanParts(entries, render), rows[i]);
      CleanRowIsClean(entries[k], render);
    }
    FlatOfSingletons(CleanParts(rows, render), rows);
  }

  /** `for entry in (table.get("rows") or ())`: None when that raises. Strings and
      dictionaries can be walked but hold no rows. */
  function RowsToWalk(table: Json): Option<seq<Json>> {
    var rows := Get(AsDict(table), "rows");
    if rows.Arr? then Some(rows.items)
    else if Truthy(rows) && (rows.Number? || rows.Bool?) then None
    else Some([])
  }

  function TableEntry(table: Json, rows: seq<Json>, render: Rendering): Json {
    Obj(map["cluster" := Str(StrOrEmpty(Get(AsDict(table), "cluster"), render)), "rows" := Arr(rows)])
  }

  // ---- Writing ----

  datatype Op =
    | RememberContext(root: Option<string>, cell: string, cluster: string, sheet: Option<string>)
    | RememberInstance(root: Option<string>, cell: string, cluster: string, sheet: Option<string>,
                       refs: map<string, string>)
    | RememberTable(root: Option<string>, cell: string, table: Json)

  function KeyOf(op: Op): string { if op.RememberTable? then TABLE_KEY else CONTEXT_KEY }

  /** The guards before the try block. */
  predicate Asks(op: Op) { op.root.Some? && op.cell != "" && (!op.RememberTable? ==> op.cluster != "") }

  /** The new dictionary under the operation's key, or None when nothing is written. */
  function Written(state: map<string, Json>, op: Op, render: Rendering): Option<map<string, Json>> {
    if !Asks(op) || !Writable(state, op.root.value) then None
    else
      match op
      case RememberContext(root, cell, cluster, sheet) =>
        Some(Put(state, root.value, cell, Obj(ContextEntry(cluster, sheet))))
      case RememberInstance(root, cell, cluster, sheet, refs) =>
        Some(Put(state, root.value, cell, Obj(InstanceEntry(cluster, sheet, refs))))
      case RememberTable(root, cell, table) =>
        if RowsToWalk(table).None? then None
        else
          var rows := CleanRows(RowsToWalk(table).value, render);
          Some(if rows == [] then Drop(state, root.value, cell)
               else Put(state, root.value, cell, TableEntry(table, rows, render)))
  }

  /** The state file after the operation, when nothing goes wrong. */
  function After(contents: map<string, Json>, op: Op, render: Rendering): map<string, Json> {
    var w := Written(StateOf(contents, KeyOf(op)), op, render);
    if w.Some? then contents[KeyOf(op) := Obj(w.value)] else contents
  }

  /** What _state() returns: a file that cannot be read is an empty map. */
  function View(contents: map<string, Json>, key: string, readable: bool): map<string, Json> {
    if readable then StateOf(contents, key) else map[]
  }

  /** One call: `readable` is whether _state() could read the file, `fate` how the write went,
      with the read of its own that a set begins with. */
  datatype Call = Call(op: Op, readable: bool, fate: S.Fate)

  /** The state file after a call, whatever went wrong. */
  function AfterCall(contents: map<string, Json>, call: Call, render: Rendering): map<string, Json> {
    var w := Written(View(contents, KeyOf(call.op), call.readable), call.op, render);
    if w.None? || call.fate.Stops? then contents
    else (if call.fate.readable then contents else map[])[KeyOf(call.op) := Obj(w.value)]
  }

  /** The three remember_ functions. They never raise. */
  method Remember(state: S.Settings, op: Op, render: Rendering, readable: bool, fate: S.Fate)
    requires state.Valid()
    modifies state
    ensures state.Valid()
    ensures state.Contents() == AfterCall(old(state.Contents()), Call(op, readable, fate), render)
  {
    if op.root.None? || op.cell == "" || (!op.RememberTable? && op.cluster == "") {
      return;
    }
    var raw := state.Get(KeyOf(op), Obj(map[]), readable);
    var stored := if raw.Success? then AsDict(raw.value) else map[];
    ghost var contents := state.Contents();
    assert stored == View(contents, KeyOf(op), readable);
    var next := WithEntry(stored, op, render);
    if next.Some? {
      var r := state.Set(KeyOf(op), Obj(next.value), fate);
    }
  }

  /** The body of the three between reading and setting; None when it raises. */
  method WithEntry(stored: map<string, Json>, op: Op, render: Rendering) returns (next: Option<map<string, Json>>)
    requires Asks(op)
    ensures next == Written(stored, op, render)
  {
    var root, cell := op.root.value, op.cell;
    if root in stored && !stored[root].Obj? {
      return None;
    }
    match op {
      case RememberContext(_, _, cluster, sheet) =>
        next := Some(Put(stored, root, cell, Obj(ContextEntry(cluster, sheet))));
      case RememberInstance(_, _, cluster, sheet, refs) =>
        next := Some(Put(stored, root, cell, Obj(InstanceEntry(cluster, sheet, refs))));
      case RememberTable(_, _, table) =>
        var entries := RowsToWalk(table);
        if entries.None? {
          return None;
        }
        var rows := KeepRows(entries.value, render);
        next := Some(if rows == [] then Drop(stored, root, cell)
                     else Put(stored, root, cell, TableEntry(table, rows, render)));
    }
  }

  /** The loop that keeps the rows with a refdes. */
  method KeepRows(entries: seq<Json>, render: Rendering) returns (rows: seq<Json>)
    ensures rows == CleanRows(entries, render)
  {
    rows := [];
    for i := 0 to |entries|
      invariant rows == Flat(CleanParts(entries, render)[..i])
    {
      FlatOfOneMore(CleanParts(entries, render), i);
      rows := rows + CleanRow(entries[i], render);
    }
    assert CleanParts(entries, render)[..|entries|] == CleanParts(entries, render);
  }

  // ---- Reading: total on any state whatever ----

  function RememberedContext(contents: map<string, Json>, root: string, cell: string, render: Rendering)
    : (Option<string>, Option<string>) {
    var entry := AsDict(EntryOf(StateOf(contents, CONTEXT_KEY), root, cell));
    if cell == "" then (None, None)
    else (StrOrNone(Get(entry, "cluster"), render), StrOrNone(Get(entry, "sheet"), render))
  }

  function RememberedRefs(contents: map<string, Json>, root: string, cell: string, render: Rendering)
    : Option<map<string, string>> {
    var cleaned := RefsIn(EntryOf(StateOf(contents, CONTEXT_KEY), root, cell), render);
    if cell == "" || cleaned == map[] then None else Some(cleaned)
  }

  function RememberedTable(contents: map<string, Json>, root: string, cell: string, render: Rendering): Option<Json> {
    var entry := EntryOf(StateOf(contents, TABLE_KEY), root, cell);
    var rows := Get(AsDict(entry), "rows");
    if cell == "" || !rows.Arr? then None
    else
      var cleaned := CleanRows(rows.items, render);
      if cleaned == [] then None else Some(TableEntry(entry, cleaned, render))
  }

  // ---- One write, then any read ----

  function Blank(s: Option<string>): Option<string> { if s == Some("") then None else s }

  function NonEmpty(refs: map<string, string>): Option<map<string, string>> {
    if refs == map[] then None else Some(refs)
  }

  /** A context write is read back, erases the identified refs of that cell, and changes
      nothing of any other cell or root. */
  lemma ContextReadsBack(contents: map<string, Json>, op: Op, root: string, cell: string, render: Rendering)
    requires op.RememberContext? && Written(StateOf(contents, CONTEXT_KEY), op, render).Some? && cell != ""
    ensures var after := After(contents, op, render);
            if op.root == Some(root) && op.cell == cell then
              RememberedContext(after, root, cell, render) == (Some(op.cluster), Blank(op.sheet)) &&
                  RememberedRefs(after, root, cell, render) == None
            else
              RememberedContext(after, root, cell, render) == RememberedContext(contents, root, cell, render)
              && RememberedRefs(after, root, cell, render) == RememberedRefs(contents, root, cell, render)
  {
    var entry := Obj(ContextEntry(op.cluster, op.sheet));
    PutReadsBack(StateOf(contents, CONTEXT_KEY), op.root.value, op.cell, entry, root, cell);
    assert StateOf(After(contents, op, render), CONTEXT_KEY) ==
           Put(StateOf(contents, CONTEXT_KEY), op.root.value, op.cell, entry);
    assert Get(entry.fields, "refs") == Null;
    assert RefsIn(entry, render) == map[];
  }

  /** An identified instance is read back with its refs, blanks left out. */
  lemma InstanceReadsBack(contents: map<string, Json>, op: Op, root: string, cell: string, render: Rendering)
    requires op.RememberInstance? && Written(StateOf(contents, CONTEXT_KEY), op, render).Some? && cell != ""
    ensures var after := After(contents, op, render);
            if op.root == Some(root) && op.cell == cell then
              RememberedContext(after, root, cell, render) == (Some(op.cluster), Blank(op.sheet))
              && RememberedRefs(after, root, cell, render) == NonEmpty(CleanRefs(op.refs))
            else
              RememberedContext(after, root, cell, render) == RememberedContext(contents, root, cell, render)
              && RememberedRefs(after, root, cell, render) == RememberedRefs(contents, root, cell, render)
  {
    var entry := Obj(InstanceEntry(op.cluster, op.sheet, op.refs));
    var state := Put(StateOf(contents, CONTEXT_KEY), op.root.value, op.cell, entry);
    PutReadsBack(StateOf(contents, CONTEXT_KEY), op.root.value, op.cell, entry, root, cell);
    assert StateOf(After(contents, op, render), CONTEXT_KEY) == state;
    InstanceEntryReads(op.cluster, op.sheet, op.refs, render);
  }

  function RefsIn(entry: Json, render: Rendering): map<string, string> {
    var refs := AsDict(Get(AsDict(entry), "refs"));
    map role | role in refs && role != "" && Truthy(refs[role]) :: PyStr(refs[role], render)
  }

  lemma InstanceEntryReads(cluster: string, sheet: Option<string>, refs: map<string, string>, render: Rendering)
    ensures var entry := InstanceEntry(cluster, sheet, refs);
            && Get(entry, "cluster") == Str(cluster) && Get(entry, "sheet") == OptStr(Blank(sheet))
            && RefsIn(Obj(entry), render) == CleanRefs(refs)
  {
    var entry := InstanceEntry(cluster, sheet, refs);
    if CleanRefs(refs) == map[] {
      assert Get(entry, "refs") == Null;
    } else {
      assert Get(entry, "refs") == RefsJson(CleanRefs(refs));
      RefsReadBack(CleanRefs(refs), render);
    }
  }

  lemma RefsReadBack(refs: map<string, string>, render: Rendering)
    requires forall role :: role in refs ==> role != "" && refs[role] != ""
    ensures RefsIn(Obj(map["refs" := RefsJson(refs)]), render) == refs
  {}

  /** What a table reads back as: its rows with a refdes, or nothing. */
  function Kept(table: Json, render: Rendering): Option<Json>
    requires RowsToWalk(table).Some?
  {
    var rows := CleanRows(RowsToWalk(table).value, render);
    if rows == [] then None else Some(TableEntry(table, rows, render))
  }

  lemma {:induction false} TableReadsBack(contents: map<string, Json>, op: Op, root: string, cell: string,
      render: Rendering)
    requires op.RememberTable? && Written(StateOf(contents, TABLE_KEY), op, render).Some? && cell != ""
    ensures RememberedTable(After(contents, op, render), root, cell, render) ==
            if op.root == Some(root) && op.cell == cell then Kept(op.table, render)
            else RememberedTable(contents, root, cell, render)
  {
    var state := StateOf(contents, TABLE_KEY);
    var rows := CleanRows(RowsToWalk(op.table).value, render);
    var entry := TableEntry(op.table, rows, render);
    if rows == [] {
      DropReadsBack(state, op.root.value, op.cell, root, cell);
      assert StateOf(After(contents, op, render), TABLE_KEY) == Drop(state, op.root.value, op.cell);
    } else {
      PutReadsBack(state, op.root.value, op.cell, entry, root, cell);
      assert StateOf(After(contents, op, render), TABLE_KEY) == Put(state, op.root.value, op.cell, entry);
      CleaningTwiceIsCleaning(RowsToWalk(op.table).value, render);
      TableEntryReads(op.table, rows, render);
    }
  }

  lemma TableEntryReads(table: Json, rows: seq<Json>, render: Rendering)
    ensures var entry := TableEntry(table, rows, render);
            Get(entry.fields, "rows") == Arr(rows) && TableEntry(entry, rows, render) == entry
  {}

  /** The two keys do not touch each other: no context write erases a table, no table
      write a context. */
  lemma TheTwoKeysAreIndependent(contents: map<string, Json>, op: Op, root: string, cell: string, render: Rendering)
    ensures var after := After(contents, op, render);
            if op.RememberTable? then
              RememberedContext(after, root, cell, render) == RememberedContext(contents, root, cell, render)
              && RememberedRefs(after, root, cell, render) == RememberedRefs(contents, root, cell, render)
            else RememberedTable(after, root, cell, render) == RememberedTable(contents, root, cell, render)
  {
    assert StateOf(After(contents, op, render), CONTEXT_KEY) == StateOf(contents, CONTEXT_KEY) || !op.RememberTable?;
    assert StateOf(After(contents, op, render), TABLE_KEY) == StateOf(contents, TABLE_KEY) || op.RememberTable?;
  }

  // ---- Any sequence of writes: a map on (root, cell) per key ----

  function AfterAll(contents: map<string, Json>, ops: seq<Op>, render: Rendering): map<string, Json> {
    if ops == [] then contents else After(AfterAll(contents, ops[..|ops| - 1], render), ops[|ops| - 1], render)
  }

  /** Both dictionaries hold only dictionaries, as everything written here does. */
  ghost predicate WellShaped(contents: map<string, Json>) {
    forall key, root :: key in {CONTEXT_KEY, TABLE_KEY} ==> Writable(StateOf(contents, key), root)
  }

  lemma {:induction false} StaysWellShaped(contents: map<string, Json>, ops: seq<Op>, render: Rendering)
    requires WellShaped(contents)
    ensures WellShaped(AfterAll(contents, ops, render))
  {
    if ops != [] {
      StaysWellShaped(contents, ops[..|ops| - 1], render);
      OneWriteStaysWellShaped(AfterAll(contents, ops[..|ops| - 1], render), ops[|ops| - 1], render);
    }
  }

  lemma OneWriteStaysWellShaped(contents: map<string, Json>, op: Op, render: Rendering)
    requires WellShaped(contents)
    ensures WellShaped(After(contents, op, render))
  {
    var after := After(contents, op, render);
    forall key, root | key in {CONTEXT_KEY, TABLE_KEY} ensures Writable(StateOf(after, key), root) {
      assert Writable(StateOf(contents, key), root);
      assert key != KeyOf(op) ==> StateOf(after, key) == StateOf(contents, key);
    }
  }

  /** The last operation of the sequence that wrote this cell's entry under the key. */
  function LastFor(ops: seq<Op>, key: string, root: string, cell: string): (last: Option<Op>)
    ensures last.Some? ==> KeyOf(last.value) == key
    ensures last.Some? && last.value.RememberTable? ==> RowsToWalk(last.value.table).Some?
  {
    if ops == [] then None
    else
      var op := ops[|ops| - 1];
      if KeyOf(op) == key && Asks(op) && op.root == Some(root) && op.cell == cell &&
          (op.RememberTable? ==> RowsToWalk(op.table).Some?)
      then Some(op)
      else LastFor(ops[..|ops| - 1], key, root, cell)
  }

  function ContextOf(op: Op): (Option<string>, Option<string>)
    requires !op.RememberTable?
  {
    (Some(op.cluster), Blank(op.sheet))
  }

  function RefsOf(op: Op): Option<map<string, string>>
    requires !op.RememberTable?
  {
    if op.RememberInstance? then NonEmpty(CleanRefs(op.refs)) else None
  }

  /** Through any sequence of writes of all three kinds, a cell's context and refs are
      those of the last context or instance written for it, and nothing written for
      other cells, or as a table, shows. */
  lemma {:induction false} ContextIsTheLastWritten(contents: map<string, Json>, ops: seq<Op>, root: string,
      cell: string, render: Rendering)
    requires WellShaped(contents) && cell != ""
    ensures var last, after := LastFor(ops, CONTEXT_KEY, root, cell), AfterAll(contents, ops, render);
            if last.Some? then
              RememberedContext(after, root, cell, render) == ContextOf(last.value)
              && RememberedRefs(after, root, cell, render) == RefsOf(last.value)
            else
              RememberedContext(after, root, cell, render) == RememberedContext(contents, root, cell, render)
              && RememberedRefs(after, root, cell, render) == RememberedRefs(contents, root, cell, render)
  {
    hide RememberedContext, RememberedRefs;
    if ops != [] {
      var front, op := ops[..|ops| - 1], ops[|ops| - 1];
      ContextIsTheLastWritten(contents, front, root, cell, render);
      StaysWellShaped(contents, front, render);
      var before := AfterAll(contents, front, render);
      if op.RememberTable? {
        TheTwoKeysAreIndependent(before, op, root, cell, render);
      } else if Asks(op) {
        assert Writable(StateOf(before, CONTEXT_KEY), op.root.value);
        if op.RememberContext? { ContextReadsBack(before, op, root, cell, render); }
        else { InstanceReadsBack(before, op, root, cell, render); }
      }
    }
  }

  /** The same for the table: it survives every context write, and every table of
      another cell. */
  lemma {:induction false} TableIsTheLastWritten(contents: map<string, Json>, ops: seq<Op>, root: string,
      cell: string, render: Rendering)
    requires WellShaped(contents) && cell != ""
    ensures var last, after := LastFor(ops, TABLE_KEY, root, cell), AfterAll(contents, ops, render);
            RememberedTable(after, root, cell, render) ==
            if last.Some? then Kept(last.value.table, render)
            else RememberedTable(contents, root, cell, render)
  {
    if ops != [] {
      var front, op := ops[..|ops| - 1], ops[|ops| - 1];
      TableIsTheLastWritten(contents, front, root, cell, render);
      StaysWellShaped(contents, front, render);
      var before := AfterAll(contents, front, render);
      if !op.RememberTable? {
        TheTwoKeysAreIndependent(before, op, root, cell, render);
      } else if Asks(op) && RowsToWalk(op.table).Some? {
        assert Writable(StateOf(before, TABLE_KEY), op.root.value);
        TableReadsBack(before, op, root, cell, render);
      }
    }
  }

  // ---- Remembering what is remembered already ----

  /** The file holds this already, in this very shape. */
  predicate Already(contents: map<string, Json>, op: Op, render: Rendering)
    requires Accepted(op)
  {
    var state, root := StateOf(contents, KeyOf(op)), op.root.value;
    var entry := EntryFor(op, render);
    && KeyOf(op) in contents && contents[KeyOf(op)].Obj?
    && if entry == Null then root in state ==> AsDict(state[root]) != map[] && op.cell !in AsDict(state[root])
       else EntryOf(state, root, op.cell) == entry
  }

  /** A call that meets no failure leaves the file as it was exactly when it is refused by a
      guard, or the cell's entry is there already. */
  lemma {:induction false} FileIsUnchangedIff(contents: map<string, Json>, op: Op, render: Rendering)
    requires WellShaped(contents)
    ensures After(contents, op, render) == contents <==> !Accepted(op) || Already(contents, op, render)
  {
    if Accepted(op) {
      var key, root := KeyOf(op), op.root.value;
      var state := StateOf(contents, key);
      assert Writable(state, root);
      var next := if EntryFor(op, render) == Null then Drop(state, root, op.cell)
                  else Put(state, root, op.cell, EntryFor(op, render));
      WrittenIsTheEntry(state, op, render);
      assert After(contents, op, render) == contents[key := Obj(next)];
      assert After(contents, op, render) == contents <==> key in contents && contents[key] == Obj(next);
      if EntryFor(op, render) == Null { DropsNothingIff(state, root, op.cell); }
      else { PutsNothingNewIff(state, root, op.cell, EntryFor(op, render)); }
    }
  }

  lemma PutsNothingNewIff(state: map<string, Json>, root: string, cell: string, entry: Json)
    requires Writable(state, root) && entry != Null
    ensures Put(state, root, cell, entry) == state <==> EntryOf(state, root, cell) == entry
  {
    if EntryOf(state, root, cell) == entry {
      var cells := state[root].fields;
      assert cells[cell := entry] == cells;
    } else if Put(state, root, cell, entry) == state {
      PutReadsBack(state, root, cell, entry, root, cell);
    }
  }

  lemma DropsNothingIff(state: map<string, Json>, root: string, cell: string)
    requires Writable(state, root)
    ensures Drop(state, root, cell) == state <==>
            (root in state ==> AsDict(state[root]) != map[] && cell !in AsDict(state[root]))
  {
    if root in state {
      var cells := state[root].fields;
      if cell in cells {
        var next := Drop(state, root, cell);
        assert root in next ==> cell !in AsDict(next[root]);
      } else {
        assert cells - {cell} == cells;
      }
    } else {
      assert AsDict(Get(state, root)) - {cell} == map[];
      assert state - {root} == state;
    }
  }

  // ---- Any sequence of calls, with any of them failing in any way ----

  /** The guards pass, and a table's rows can be walked. */
  predicate Accepted(op: Op) { Asks(op) && (op.RememberTable? ==> RowsToWalk(op.table).Some?) }

  /** The entry an accepted operation leaves for its cell; Null is none. */
  function EntryFor(op: Op, render: Rendering): Json
    requires Accepted(op)
  {
    match op
    case RememberContext(_, _, cluster, sheet) => Obj(ContextEntry(cluster, sheet))
    case RememberInstance(_, _, cluster, sheet, refs) => Obj(InstanceEntry(cluster, sheet, refs))
    case RememberTable(_, _, table) =>
      var rows := CleanRows(RowsToWalk(table).value, render);
      if rows == [] then Null else TableEntry(table, rows, render)
  }

  lemma WrittenIsTheEntry(state: map<string, Json>, op: Op, render: Rendering)
    requires Accepted(op) && Writable(state, op.root.value)
    ensures Written(state, op, render) ==
            Some(if EntryFor(op, render) == Null then Drop(state, op.root.value, op.cell)
                 else Put(state, op.root.value, op.cell, EntryFor(op, render)))
  {}

  predicate Own(op: Op, root: string, cell: string) { op.root == Some(root) && op.cell == cell }

  /** What a call says about a cell's entry under a key: its own entry, if it is the cell's
      and the key's; nothing, if it leaves that alone; and Null, if it loses it, because it
      replaces a map, or a file, that it could not read. */
  function Says(call: Call, key: string, root: string, cell: string, render: Rendering): Option<Json> {
    if !Accepted(call.op) || call.fate.Stops? then None
    else if KeyOf(call.op) != key then (if call.fate.readable then None else Some(Null))
    else if Own(call.op, root, cell) then Some(EntryFor(call.op, render))
    else if call.readable then None
    else Some(Null)
  }

  function AfterCalls(contents: map<string, Json>, calls: seq<Call>, render: Rendering): map<string, Json> {
    if calls == [] then contents
    else AfterCall(AfterCalls(contents, calls[..|calls| - 1], render), calls[|calls| - 1], render)
  }

  function LastSaid(calls: seq<Call>, key: string, root: string, cell: string, render: Rendering): Option<Json> {
    if calls == [] then None
    else
      var said := Says(calls[|calls| - 1], key, root, cell, render);
      if said.Some? then said else LastSaid(calls[..|calls| - 1], key, root, cell, render)
  }

  lemma OneCallStaysWellShaped(contents: map<string, Json>, call: Call, render: Rendering)
    requires WellShaped(contents)
    ensures WellShaped(AfterCall(contents, call, render))
  {
    var after := AfterCall(contents, call, render);
    forall key, root | key in {CONTEXT_KEY, TABLE_KEY} ensures Writable(StateOf(after, key), root) {
      assert Writable(StateOf(contents, key), root);
      assert key != KeyOf(call.op) ==> StateOf(after, key) == StateOf(contents, key) || StateOf(after, key) == map[];
    }
  }

  lemma OneCallSays(contents: map<string, Json>, call: Call, key: string, root: string, cell: string, render: Rendering)
    requires WellShaped(contents) && key in {CONTEXT_KEY, TABLE_KEY}
    ensures EntryOf(StateOf(AfterCall(contents, call, render), key), root, cell) ==
            if Says(call, key, root, cell, render).Some? then Says(call, key, root, cell, render).value
            else EntryOf(StateOf(contents, key), root, cell)
  {
    var op, after := call.op, AfterCall(contents, call, render);
    if Accepted(op) && call.fate.Completes? {
      var state := View(contents, KeyOf(op), call.readable);
      assert Writable(StateOf(contents, KeyOf(op)), op.root.value);
      WrittenIsTheEntry(state, op, render);
      if KeyOf(op) == key {
        assert StateOf(after, key) == Written(state, op, render).value;
        PutReadsBack(state, op.root.value, op.cell, EntryFor(op, render), root, cell);
        DropReadsBack(state, op.root.value, op.cell, root, cell);
      }
    }
  }

  /** Through any sequence of calls, every way of failing included, a cell's entry under
      either key is what the last call that spoke of it said. */
  lemma {:induction false} EntryIsTheLastSaid(
    contents: map<string, Json>, calls: seq<Call>, key: string, root: string, cell: string, render: Rendering)
    requires WellShaped(contents) && key in {CONTEXT_KEY, TABLE_KEY}
    ensures var last := LastSaid(calls, key, root, cell, render);
            EntryOf(StateOf(AfterCalls(contents, calls, render), key), root, cell) ==
            if last.Some? then last.value else EntryOf(StateOf(contents, key), root, cell)
    ensures WellShaped(AfterCalls(contents, calls, render))
  {
    if calls != [] {
      var front, call := calls[..|calls| - 1], calls[|calls| - 1];
      EntryIsTheLastSaid(contents, front, key, root, cell, render);
      OneCallSays(AfterCalls(contents, front, render), call, key, root, cell, render);
      OneCallStaysWellShaped(AfterCalls(contents, front, render), call, render);
    }
  }

  /** The entries of all cells but the operation's own are the same in both maps. */
  ghost predicate SameElsewhere(before: map<string, Json>, after: map<string, Json>, op: Op) {
    forall root, cell :: !Own(op, root, cell) ==> EntryOf(after, root, cell) == EntryOf(before, root, cell)
  }

  ghost predicate NothingElsewhere(state: map<string, Json>, op: Op) {
    forall root, cell :: !Own(op, root, cell) ==> EntryOf(state, root, cell) == Null
  }

  /** One call leaves all other cells under its key alone exactly when _state() could read the
      file, or nothing was written, or there were no others; and it leaves the other key's
      map alone exactly when the set could read the file, or nothing was written, or that
      map was empty. */
  lemma {:induction false} OtherCellsSurviveIff(contents: map<string, Json>, call: Call, render: Rendering)
    ensures var key, after := KeyOf(call.op), AfterCall(contents, call, render);
            var nothing := call.fate.Stops? || Written(View(contents, key, call.readable), call.op, render).None?;
            && (SameElsewhere(StateOf(contents, key), StateOf(after, key), call.op) <==>
                call.readable || nothing || NothingElsewhere(StateOf(contents, key), call.op))
            && (StateOf(after, OtherKey(key)) == StateOf(contents, OtherKey(key)) <==>
                call.fate.readable || nothing || StateOf(contents, OtherKey(key)) == map[])
  {
    var op, key, after := call.op, KeyOf(call.op), AfterCall(contents, call, render);
    var state := View(contents, key, call.readable);
    var w := Written(state, op, render);
    if w.Some? && call.fate.Completes? {
      assert StateOf(after, key) == w.value;
      WrittenIsTheEntry(state, op, render);
      forall root, cell | !Own(op, root, cell) ensures EntryOf(w.value, root, cell) == EntryOf(state, root, cell) {
        PutReadsBack(state, op.root.value, op.cell, EntryFor(op, render), root, cell);
        DropReadsBack(state, op.root.value, op.cell, root, cell);
      }
    }
  }

  function OtherKey(key: string): string { if key == TABLE_KEY then CONTEXT_KEY else TABLE_KEY }

  /** A state where another cell is forgotten: the file could not be read for a moment, and
      could be written the next. */
  lemma AnotherCellIsForgotten(render: Rendering)
    ensures var held := RememberContext(Some("/p"), "a", "PWR", None);
            var before := After(map[], held, render);
            var call := Call(RememberContext(Some("/p"), "b", "PWR", None), false, S.Completes(true));
            && RememberedContext(before, "/p", "a", render) == (Some("PWR"), None)
            && RememberedContext(AfterCall(before, call, render), "/p", "a", render) == (None, None)
  {
    var held := RememberContext(Some("/p"), "a", "PWR", None);
    ContextReadsBack(map[], held, "/p", "a", render);
    var before := After(map[], held, render);
    var call := Call(RememberContext(Some("/p"), "b", "PWR", None), false, S.Completes(true));
    assert WellShaped(map[]);
    OneWriteStaysWellShaped(map[], held, render);
    OneCallSays(before, call, CONTEXT_KEY, "/p", "a", render);
  }

  // ---- What is written, and what is kept of it ----

  /** The slot of the root in the map is taken by something that is no dictionary. */
  ghost predicate TakenByAnother(state: map<string, Json>, root: string) {
    root in state && !state[root].Obj?
  }

  /** An operation writes exactly when it names a root and a cell, a context or an instance also a
      cluster, no other value stands in the root's slot, and a table's rows can be walked:
      they are neither a number nor true. Then it changes its own cell of its own key only. */
  lemma WritesIff(contents: map<string, Json>, op: Op, render: Rendering)
    ensures Written(StateOf(contents, KeyOf(op)), op, render).Some? <==>
            && op.root.Some? && op.cell != "" && (op.RememberTable? || op.cluster != "")
            && !TakenByAnother(StateOf(contents, KeyOf(op)), op.root.value)
            && (op.RememberTable? ==>
                  var rows := Get(AsDict(op.table), "rows");
                  rows == Bool(true) || (rows.Number? && rows.value != 0.0) ==> false)
    ensures KeyOf(op) == if op.RememberTable? then "cell_role_table" else "cell_edit_context"
  {}

  /** The refs that are kept are those of a named role with a named part. */
  lemma KeptRefsAre(refs: map<string, string>, role: string)
    ensures role in CleanRefs(refs) <==> role in refs && role != "" && refs[role] != ""
    ensures role in CleanRefs(refs) ==> CleanRefs(refs)[role] == refs[role]
  {}

  /** One entry of a table is kept exactly when it is a dictionary with a refdes, blanks around
      that taken away, and then as three texts, what counts as nothing being the empty one. */
  lemma KeptRowIs(entry: Json, render: Rendering)
    ensures var named := entry.Obj? && Strip(StrOrEmpty(Get(entry.fields, "ref"), render)) != "";
            CleanRow(entry, render) ==
            if !named then []
            else [Obj(map["ref" := Str(Strip(StrOrEmpty(Get(entry.fields, "ref"), render))),
                          "role" := Str(StrOrEmpty(Get(entry.fields, "role"), render)),
                          "cluster" := Str(StrOrEmpty(Get(entry.fields, "cluster"), render))])]
  {}

  /** A table that is kept reads back with its cluster and its rows in their order; without any
      row nothing is kept, and when it was the root's last table the root goes too. */
  lemma KeptTableHasItsCluster(table: Json, render: Rendering)
    requires RowsToWalk(table).Some?
    ensures var kept, rows := Kept(table, render), CleanRows(RowsToWalk(table).value, render);
            && (kept.None? <==> rows == [])
            && (kept.Some? ==>
                  && kept.value.Obj? && Get(kept.value.fields, "rows") == Arr(rows)
                  && Get(kept.value.fields, "cluster") == Str(StrOrEmpty(Get(AsDict(table), "cluster"), render)))
    ensures var rows := Get(AsDict(table), "rows");
            RowsToWalk(table).value == if rows.Arr? then rows.items else []
  {}

  lemma AnEmptiedRootGoes(state: map<string, Json>, root: string, cell: string)
    requires Writable(state, root)
    ensures root in Drop(state, root, cell) <==>
              root in state && exists other :: other in state[root].fields && other != cell
  {
    var cells := AsDict(Get(state, root)) - {cell};
    if root in state {
      if other :| other in state[root].fields && other != cell {
        assert other in cells;
      } else {
        assert cells.Keys == {};
      }
    }
  }

  /** What any entry reads as, whoever wrote it: a blank or missing cluster, sheet or ref is none, and
      whatever else stands there counts as its text. */
  lemma AnyEntryReadsAs(contents: map<string, Json>, root: string, cell: string, render: Rendering, role: string)
    requires cell != ""
    ensures var entry := AsDict(EntryOf(StateOf(contents, CONTEXT_KEY), root, cell));
            var refs := AsDict(Get(entry, "refs"));
            var context, found := RememberedContext(contents, root, cell, render),
                RememberedRefs(contents, root, cell, render);
            && context.0 == (if Truthy(Get(entry, "cluster")) then Some(PyStr(Get(entry, "cluster"), render)) else None)
            && context.1 == (if Truthy(Get(entry, "sheet")) then Some(PyStr(Get(entry, "sheet"), render)) else None)
            && (found.Some? && role in found.value <==> role in refs && role != "" && Truthy(refs[role]))
            && (found.Some? && role in found.value ==> found.value[role] == PyStr(refs[role], render))
  {
    var cleaned := RefsIn(EntryOf(StateOf(contents, CONTEXT_KEY), root, cell), render);
    assert role in cleaned ==> cleaned != map[];
  }

  /** What any table entry reads as: nothing, unless it has a list of rows of which some has a refdes;
      and else its cluster and those rows. */
  lemma AnyTableReadsAs(contents: map<string, Json>, root: string, cell: string, render: Rendering)
    requires cell != ""
    ensures var entry := AsDict(EntryOf(StateOf(contents, TABLE_KEY), root, cell));
            var rows := Get(entry, "rows");
            var kept := if rows.Arr? then CleanRows(rows.items, render) else [];
            RememberedTable(contents, root, cell, render) ==
            if kept == [] then None
            else Some(Obj(map["cluster" := Str(StrOrEmpty(Get(entry, "cluster"), render)), "rows" := Arr(kept)]))
    ensures RememberedTable(contents, root, "", render) == None && RememberedRefs(contents, root, "", render) == None
            && RememberedContext(contents, root, "", render) == (None, None)
  {}

  // ---- A root that is no dictionary ----

  /** The root's slot holds something else, a list say. */
  predicate Misshapen(contents: map<string, Json>, key: string, root: string) {
    var state := StateOf(contents, key);
    root in state && !state[root].Obj?
  }

  /** Every cell of such a root is forgotten, its context, its refs and its table. */
  lemma AMisshapenRootRemembersNothing(contents: map<string, Json>, key: string, root: string, cell: string,
      render: Rendering)
    requires Misshapen(contents, key, root)
    ensures key == CONTEXT_KEY ==> RememberedContext(contents, root, cell, render) == (None, None)
                                   && RememberedRefs(contents, root, cell, render) == None
    ensures key == TABLE_KEY ==> RememberedTable(contents, root, cell, render) == None
  {
    assert EntryOf(StateOf(contents, key), root, cell) == Null;
  }

  /** The call writes a map, or a file, that it could not read. */
  predicate WritesUnread(contents: map<string, Json>, call: Call, key: string, render: Rendering) {
    && call.fate.Completes? && Written(View(contents, KeyOf(call.op), call.readable), call.op, render).Some?
    && if KeyOf(call.op) == key then !call.readable else !call.fate.readable
  }

  /** No call about such a root changes anything while the file can be read; and a call, about
      whatever root, leaves it misshapen exactly when it does not write what it could not read. */
  lemma {:induction false} AMisshapenRootStaysIff(contents: map<string, Json>, call: Call, key: string, root: string,
      render: Rendering)
    requires Misshapen(contents, key, root) && key in {CONTEXT_KEY, TABLE_KEY}
    ensures Misshapen(AfterCall(contents, call, render), key, root) <==> !WritesUnread(contents, call, key, render)
    ensures call.readable && KeyOf(call.op) == key && call.op.root == Some(root) ==>
              AfterCall(contents, call, render) == contents
  {
    var op, after := call.op, AfterCall(contents, call, render);
    var state := View(contents, KeyOf(op), call.readable);
    var w := Written(state, op, render);
    if call.fate.Completes? && w.Some? {
      WrittenIsTheEntry(state, op, render);
      if KeyOf(op) == key {
        assert StateOf(after, key) == w.value;
      } else {
        assert StateOf(after, key) == if call.fate.readable then StateOf(contents, key) else map[];
      }
    } else {
      assert after == contents;
    }
  }

  /** At no moment of the run so far is the root anything but misshapen. */
  predicate MisshapenThroughout(contents: map<string, Json>, calls: seq<Call>, key: string, root: string,
                                render: Rendering) {
    && Misshapen(AfterCalls(contents, calls, render), key, root)
    && (calls != [] ==> MisshapenThroughout(contents, calls[..|calls| - 1], key, root, render))
  }

  predicate UnreadIsWritten(contents: map<string, Json>, calls: seq<Call>, key: string, render: Rendering) {
    && calls != []
    && var front := calls[..|calls| - 1];
       UnreadIsWritten(contents, front, key, render) ||
       WritesUnread(AfterCalls(contents, front, render), calls[|calls| - 1], key, render)
  }

  /** Through any run of calls about any cells a misshapen root stays so, and none of its cells
      is ever remembered, exactly when no call writes what it could not read: nothing but such
      a failure ever repairs it. */
  lemma {:induction false} AMisshapenRootIsNeverWrittenIff(contents: map<string, Json>, calls: seq<Call>, key: string,
      root: string, render: Rendering)
    requires Misshapen(contents, key, root) && key in {CONTEXT_KEY, TABLE_KEY}
    ensures MisshapenThroughout(contents, calls, key, root, render) <==> !UnreadIsWritten(contents, calls, key, render)
  {
    if calls != [] {
      var front := calls[..|calls| - 1];
      AMisshapenRootIsNeverWrittenIff(contents, front, key, root, render);
      if MisshapenThroughout(contents, front, key, root, render) {
        AMisshapenRootStaysIff(AfterCalls(contents, front, render), calls[|calls| - 1], key, root, render);
      }
    }
  }
}
