/** Saving the role table to the GUI state and restoring it (gui/role_table_model.py,
    table_to_state and rows_from_state). Cells that say nothing new are not saved; what
    is proved is that the batch survives all the same, and when it does not. */
module RoleTableState {
  import opened FieldOverrides
  import opened JsonValues
  import opened PyText
  import opened RoleTable
  import opened Sequences
  import opened Wrappers

  // ---- Saving ----

  function SavedCell(row: RoleRow, f: Field): string { if Differs(row, f) then Typed(row, f) else "" }

  function SavedRow(row: RoleRow): Json {
    Obj(map["ref" := Str(row.ref), "role" := Str(SavedCell(row, RoleField)),
        "cluster" := Str(SavedCell(row, ClusterField))])
  }

  function SavedParts(rows: seq<RoleRow>): seq<seq<Json>> {
    seq(|rows|, i requires 0 <= i < |rows| => if Strip(rows[i].ref) == "" then [] else [SavedRow(rows[i])])
  }

  /** Every row with a refdes, in order. */
  function SavedRows(rows: seq<RoleRow>): seq<Json> { Flat(SavedParts(rows)) }

  function TableToState(rows: seq<RoleRow>, cluster: string): Json {
    Obj(map["cluster" := Str(cluster), "rows" := Arr(SavedRows(rows))])
  }

  /** table_to_state. */
  method SaveTable(rows: seq<RoleRow>, cluster: string) returns (state: Json)
    ensures state == TableToState(rows, cluster)
  {
    var saved := [];
    for i := 0 to |rows|
      invariant saved == Flat(SavedParts(rows)[..i])
    {
      FlatOfOneMore(SavedParts(rows), i);
      if Strip(rows[i].ref) != "" {
        saved := saved + [SavedRow(rows[i])];
      }
    }
    assert SavedParts(rows)[..|rows|] == SavedParts(rows);
    state := Obj(map["cluster" := Str(cluster), "rows" := Arr(saved)]);
  }

  // ---- Restoring ----

  /** records_by_ref(...).get(ref): the last record of that refdes. */
  function RecordOf(records: seq<BoardRecord>, ref: string): Option<BoardRecord> {
    if records == [] || ref == "" then None
    else if records[|records| - 1].ref == ref then Some(records[|records| - 1])
    else RecordOf(records[..|records| - 1], ref)
  }

  function RecordValue(record: BoardRecord, f: Field): Option<string> {
    if f.RoleField? then record.role else record.cluster
  }

  /** A cell the state left empty takes the snapshot's value. */
  function RestoredCell(saved: string, record: Option<BoardRecord>, f: Field): string {
    if saved == "" && record.Some? then OrEmpty(RecordValue(record.value, f)) else saved
  }

  function TruthyKey(symbol: Option<string>): Option<string> {
    if symbol == Some("") then None else symbol
  }

  function RowFrom(ref: string, role: string, cluster: string, record: Option<BoardRecord>): RoleRow {
    match record
    case None => RoleRow(ref, role, cluster, None, None, false, None, None, None)
    case Some(r) =>
      RoleRow(ref, RestoredCell(role, record, RoleField), RestoredCell(cluster, record, ClusterField),
              r.role, r.cluster, true, TruthyKey(r.symbol), None, None)
  }

  /** One entry of the saved list; anything that is not a row with a refdes is skipped. */
  function RestoredEntry(entry: Json, records: seq<BoardRecord>, render: Rendering): seq<RoleRow> {
    if !entry.Obj? then []
    else
      var ref := Strip(StrOrEmpty(Get(entry.fields, "ref"), render));
      if ref == "" then []
      else [RowFrom(ref, StrOrEmpty(Get(entry.fields, "role"), render),
          StrOrEmpty(Get(entry.fields, "cluster"), render),
                    RecordOf(records, ref))]
  }

  function RestoredParts(entries: seq<Json>, records: seq<BoardRecord>, render: Rendering): seq<seq<RoleRow>> {
    seq(|entries|, i requires 0 <= i < |entries| => RestoredEntry(entries[i], records, render))
  }

  function RestoredRows(entries: seq<Json>, records: seq<BoardRecord>, render: Rendering): seq<RoleRow> {
    Flat(RestoredParts(entries, records, render))
  }

  /** The list of rows in a state of any shape. */
  function EntriesOf(state: Json): seq<Json> {
    var rows := Get(AsDict(state), "rows");
    if rows.Arr? then rows.items else []
  }

  /** rows_from_state. It answers for any JSON at all; what is no table is an empty one. */
  method RowsFromState(state: Json, records: seq<BoardRecord>, render: Rendering)
    returns (rows: seq<RoleRow>, cluster: string)
    ensures rows == RestoredRows(EntriesOf(state), records, render)
    ensures cluster ==
            if state.Obj? && Get(state.fields, "rows").Arr? then StrOrEmpty(Get(state.fields, "cluster"), render)
            else ""
  {
    rows, cluster := [], "";
    if !state.Obj? {
      return;
    }
    var saved := Get(state.fields, "rows");
    if !saved.Arr? {
      return;
    }
    ghost var parts := RestoredParts(saved.items, records, render);
    for i := 0 to |saved.items|
      invariant rows == Flat(parts[..i])
    {
      FlatOfOneMore(parts, i);
      var entry := saved.items[i];
      if !entry.Obj? {
        continue;
      }
      var ref := Strip(StrOrEmpty(Get(entry.fields, "ref"), render));
      if ref == "" {
        continue;
      }
      rows := rows + [RowFrom(ref, StrOrEmpty(Get(entry.fields, "role"), render),
                              StrOrEmpty(Get(entry.fields, "cluster"), render), RecordOf(records, ref))];
    }
    assert parts[..|saved.items|] == parts;
    cluster := StrOrEmpty(Get(state.fields, "cluster"), render);
  }

  // ---- There and back ----

  /** The table was filled from these records: the refdes is clean, and the row's board
      columns and key are the record's. */
  predicate Matches(row: RoleRow, records: seq<BoardRecord>) {
    && row.ref != "" && Strip(row.ref) == row.ref
    && match RecordOf(records, row.ref)
       case None => !row.onBoard
       case Some(r) => row.onBoard && row.boardRole == r.role && row.boardCluster == r.cluster
                       && TruthyKey(row.symbol) == TruthyKey(r.symbol)
  }

  function Restored(row: RoleRow, records: seq<BoardRecord>): RoleRow {
    RowFrom(row.ref, SavedCell(row, RoleField), SavedCell(row, ClusterField), RecordOf(records, row.ref))
  }

  lemma OneRowComesBack(row: RoleRow, records: seq<BoardRecord>, render: Rendering)
    requires row.ref != "" && Strip(row.ref) == row.ref
    ensures RestoredEntry(SavedRow(row), records, render) == [Restored(row, records)]
  {
    var fields := SavedRow(row).fields;
    assert Get(fields, "ref") == Str(row.ref);
    assert Get(fields, "role") == Str(SavedCell(row, RoleField));
    assert Get(fields, "cluster") == Str(SavedCell(row, ClusterField));
  }

  function RestoredAll(rows: seq<RoleRow>, records: seq<BoardRecord>): seq<RoleRow> {
    seq(|rows|, i requires 0 <= i < |rows| => Restored(rows[i], records))
  }

  /** No row is dropped and the order is kept. */
  lemma {:induction false} EveryRowComesBack(rows: seq<RoleRow>, cluster: string, records: seq<BoardRecord>,
      render: Rendering)
    requires forall i :: 0 <= i < |rows| ==> Matches(rows[i], records)
    ensures RestoredRows(EntriesOf(TableToState(rows, cluster)), records, render) == RestoredAll(rows, records)
  {
    assert EntriesOf(TableToState(rows, cluster)) == SavedRows(rows);
    var saved := seq(|rows|, i requires 0 <= i < |rows| => SavedRow(rows[i]));
    FlatOfSingletons(SavedParts(rows), saved);
    forall i | 0 <= i < |rows| ensures RestoredParts(saved, records, render)[i] == [RestoredAll(rows, records)[i]] {
      OneRowComesBack(rows[i], records, render);
    }
    FlatOfSingletons(RestoredParts(saved, records, render), RestoredAll(rows, records));
  }

  /** The one way a saved cell comes back saying something else: it was not saved, and
      the snapshot's value is neither blank nor the value in force. */
  predicate Resurfaces(row: RoleRow, records: seq<BoardRecord>, f: Field) {
    && Recordable(row) && SavedCell(row, f) == ""
    && var r := RecordOf(records, row.ref);
       r.Some? && Strip(OrEmpty(RecordValue(r.value, f))) != "" &&
           Strip(OrEmpty(RecordValue(r.value, f))) != OrEmpty(Base(row, f))
  }

  /** One cell of one row, saved, restored and overlaid with the store again. */
  lemma RestoredFieldUpdates(row: RoleRow, records: seq<BoardRecord>, store: Option<Store>, f: Field)
    requires Matches(row, records) && row == WithOverrides(row, store)
    ensures var back := WithOverrides(Restored(row, records), store);
            && Recordable(back) == Recordable(row) && RowSkips(back) == RowSkips(row)
            && (Resurfaces(row, records, f) ==> FieldUpdates(row, f) == [] && |FieldUpdates(back, f)| == 1)
            && (!Resurfaces(row, records, f) ==> FieldUpdates(back, f) == FieldUpdates(row, f))
  {
    var back := WithOverrides(Restored(row, records), store);
    match f {
      case RoleField => assert Recordable(row) ==> Base(back, f) == Base(row, f);
      case ClusterField => assert Recordable(row) ==> Base(back, f) == Base(row, f);
    }
  }

  /** The table saved, restored from its state, and overlaid with the store again. */
  function Back(rows: seq<RoleRow>, records: seq<BoardRecord>, store: Option<Store>, render: Rendering): seq<RoleRow> {
    ApplyOverrides(RestoredRows(EntriesOf(TableToState(rows, "")), records, render), store)
  }

  predicate RowResurfaces(row: RoleRow, records: seq<BoardRecord>) {
    Resurfaces(row, records, RoleField) || Resurfaces(row, records, ClusterField)
  }

  predicate NothingResurfaces(rows: seq<RoleRow>, records: seq<BoardRecord>) {
    forall i :: 0 <= i < |rows| ==> !RowResurfaces(rows[i], records)
  }

  lemma {:induction false} RestoredRowUpdates(row: RoleRow, records: seq<BoardRecord>, store: Option<Store>)
    requires Matches(row, records) && row == WithOverrides(row, store)
    ensures var back := WithOverrides(Restored(row, records), store);
            && RowSkips(back) == RowSkips(row)
            && (if RowResurfaces(row, records) then |RowUpdates(back)| > |RowUpdates(row)|
                else RowUpdates(back) == RowUpdates(row))
  {
    RestoredFieldUpdates(row, records, store, RoleField);
    RestoredFieldUpdates(row, records, store, ClusterField);
  }

  lemma BatchOfTheRestored(rows: seq<RoleRow>, back: seq<RoleRow>, resurfacing: seq<bool>)
    requires |back| == |rows| == |resurfacing|
    requires forall i :: 0 <= i < |rows| ==> RowSkips(back[i]) == RowSkips(rows[i])
    requires forall i :: 0 <= i < |rows| ==>
               if resurfacing[i] then |RowUpdates(back[i])| > |RowUpdates(rows[i])|
               else RowUpdates(back[i]) == RowUpdates(rows[i])
    ensures Skips(back) == Skips(rows)
    ensures Updates(back) == Updates(rows) <==> forall i :: 0 <= i < |resurfacing| ==> !resurfacing[i]
  {
    assert SkipParts(back) == SkipParts(rows);
    FlatGrowsWithAPart(UpdateParts(rows), UpdateParts(back), resurfacing);
  }

  /** After saving and restoring, the batch is the same, updates and refusals in order,
      exactly when nothing resurfaces. */
  lemma {:induction false} RestoredBatchIsTheSameIff(rows: seq<RoleRow>, records: seq<BoardRecord>,
      store: Option<Store>, render: Rendering)
    requires forall i :: 0 <= i < |rows| ==> Matches(rows[i], records)
    requires rows == ApplyOverrides(rows, store)
    ensures Skips(Back(rows, records, store, render)) == Skips(rows)
    ensures Updates(Back(rows, records, store, render)) == Updates(rows) <==> NothingResurfaces(rows, records)
  {
    hide RowUpdates, RowSkips, Resurfaces, Matches, WithOverrides, Restored;
    EveryRowComesBack(rows, "", records, render);
    var back := ApplyOverrides(RestoredAll(rows, records), store);
    var resurfacing := seq(|rows|, i requires 0 <= i < |rows| => RowResurfaces(rows[i], records));
    forall i | 0 <= i < |rows|
      ensures RowSkips(back[i]) == RowSkips(rows[i])
      ensures if resurfacing[i] then |RowUpdates(back[i])| > |RowUpdates(rows[i])|
              else RowUpdates(back[i]) == RowUpdates(rows[i])
    {
      assert rows[i] == ApplyOverrides(rows, store)[i];
      RestoredRowUpdates(rows[i], records, store);
    }
    BatchOfTheRestored(rows, back, resurfacing);
  }

  /** The snapshot shows the values in force, and they have no blanks around them. */
  predicate SnapshotInForce(rows: seq<RoleRow>, records: seq<BoardRecord>) {
    forall i, f :: 0 <= i < |rows| && RecordOf(records, rows[i].ref).Some? ==>
      var v := OrEmpty(RecordValue(RecordOf(records, rows[i].ref).value, f));
      Strip(v) == v && v == OrEmpty(Base(rows[i], f))
  }

  /** With such a snapshot saving and restoring loses nothing of the batch. */
  lemma {:induction false} SaveAndRestoreKeepsTheBatch(rows: seq<RoleRow>, records: seq<BoardRecord>,
      store: Option<Store>, render: Rendering)
    requires forall i :: 0 <= i < |rows| ==> Matches(rows[i], records)
    requires rows == ApplyOverrides(rows, store) && SnapshotInForce(rows, records)
    ensures Updates(Back(rows, records, store, render)) == Updates(rows)
    ensures Skips(Back(rows, records, store, render)) == Skips(rows)
  {
    RestoredBatchIsTheSameIff(rows, records, store, render);
    forall i | 0 <= i < |rows| ensures !RowResurfaces(rows[i], records) {
      NotResurfacing(rows, records, i, RoleField);
      NotResurfacing(rows, records, i, ClusterField);
    }
  }

  lemma NotResurfacing(rows: seq<RoleRow>, records: seq<BoardRecord>, i: nat, f: Field)
    requires i < |rows| && SnapshotInForce(rows, records)
    ensures !Resurfaces(rows[i], records, f)
  {
    var r := RecordOf(records, rows[i].ref);
    if r.Some? {
      var v := OrEmpty(RecordValue(r.value, f));
      assert Strip(v) == v && v == OrEmpty(Base(rows[i], f));
    }
  }

  lemma TheseAreStripped()
    ensures Strip("ours") == "ours" && Strip("theirs") == "theirs" && Strip("C1") == "C1" && Strip("") == ""
  {}

  /** Without it a cell can come back: our store says one thing, the board another, and
      the row, which had nothing to record, has something to record after a restart. */
  lemma {:induction false} BoardValueResurfaces(render: Rendering)
    ensures var row := RoleRow("C1", "ours", "", Some("theirs"), None, true, Some("u"), Some("ours"), None);
            var records := [BoardRecord("C1", Some("theirs"), None, Some("u"))];
            var store: Option<Store> := Some(map[("u", RoleField) := "ours"]);
            Updates([row]) == [] && Updates(Back([row], records, store, render)) != []
  {
    hide Strip;
    var row := RoleRow("C1", "ours", "", Some("theirs"), None, true, Some("u"), Some("ours"), None);
    var records := [BoardRecord("C1", Some("theirs"), None, Some("u"))];
    var store: Option<Store> := Some(map[("u", RoleField) := "ours"]);
    assert RecordOf(records, "C1") == Some(records[0]);
    TheseAreStripped();
    FlatOfSingletons(UpdateParts([]), []);
    assert UpdateParts([row]) == [RowUpdates(row)] && RowUpdates(row) == [];
    assert [RowUpdates(row)][..0] == [] && Updates([row]) == Flat([]) + RowUpdates(row);
    assert Resurfaces(row, records, RoleField);
    assert [row] == ApplyOverrides([row], store);
    RestoredBatchIsTheSameIff([row], records, store, render);
  }

  // ---- What comes back, text by text ----

  lemma {:induction false} RecordOfIsTheLast(records: seq<BoardRecord>, ref: string) returns (k: nat)
    requires ref != ""
    ensures k <= |records| && RecordOf(records, ref) == (if k < |records| then Some(records[k]) else None)
    ensures k < |records| ==> records[k].ref == ref && forall j :: k < j < |records| ==> records[j].ref != ref
    ensures k == |records| ==> forall j :: 0 <= j < |records| ==> records[j].ref != ref
  {
    if records == [] {
      k := 0;
    } else if records[|records| - 1].ref == ref {
      k := |records| - 1;
    } else {
      var n := |records| - 1;
      k := RecordOfIsTheLast(records[..n], ref);
      if k == n {
        k := n + 1;
      }
    }
  }

  /** The text a cell comes back with. What says something else than the value in force comes back
      as it was typed; a cell that does not takes what the snapshot says of the part, or is
      empty when the part is not in it. */
  lemma TextComesBack(row: RoleRow, records: seq<BoardRecord>)
    ensures var back, r := Restored(row, records), RecordOf(records, row.ref);
            && back.ref == row.ref && back.onBoard == r.Some?
            && back.role == (if Differs(row, RoleField) && row.role != "" then row.role
                             else if r.Some? && r.value.role.Some? then r.value.role.value else "")
            && back.cluster == (if Differs(row, ClusterField) && row.cluster != "" then row.cluster
                                else if r.Some? && r.value.cluster.Some? then r.value.cluster.value else "")
            && (r.Some? ==> back.boardRole == r.value.role && back.boardCluster == r.value.cluster
                            && back.symbol == TruthyKey(r.value.symbol))
            && back.storeRole.None? && back.storeCluster.None?
  {}

  /** The cluster above the table comes back too. */
  lemma ClusterComesBack(rows: seq<RoleRow>, cluster: string, render: Rendering)
    ensures var state := TableToState(rows, cluster);
            && state.Obj? && StrOrEmpty(Get(state.fields, "cluster"), render) == cluster
            && Get(state.fields, "rows") == Arr(SavedRows(rows))
  {
    hide SavedRows;
    assert "cluster" != "rows";
  }

  /** The rows without a refdes are the only ones that are not saved. */
  lemma {:induction false} EveryRowWithARefIsSaved(rows: seq<RoleRow>)
    ensures forall i :: 0 <= i < |rows| && Strip(rows[i].ref) != "" ==> SavedRow(rows[i]) in SavedRows(rows)
    ensures forall entry :: entry in SavedRows(rows) ==> IsSaved(rows, entry)
  {
    hide SavedRow, Strip;
    forall i | 0 <= i < |rows| && Strip(rows[i].ref) != "" ensures SavedRow(rows[i]) in SavedRows(rows) {
      InFlat(SavedParts(rows), i, SavedRow(rows[i]));
    }
    forall entry | entry in SavedRows(rows) ensures IsSaved(rows, entry) {
      var i := PartOf(SavedParts(rows), entry);
    }
  }

  ghost predicate IsSaved(rows: seq<RoleRow>, entry: Json) {
    exists i :: 0 <= i < |rows| && Strip(rows[i].ref) != "" && entry == SavedRow(rows[i])
  }

  /** And what is saved of a row: the refdes, and of a cell the text that says something else than the
      value in force. */
  lemma SavedRowIs(row: RoleRow)
    ensures SavedRow(row) ==
            Obj(map["ref" := Str(row.ref),
                    "role" := Str(if Strip(row.role) != OrEmpty(Base(row, RoleField)) then row.role else ""),
                    "cluster" := Str(if Strip(row.cluster) != OrEmpty(Base(row, ClusterField))
                                     then row.cluster else "")])
  {}

  /** What an entry of the saved list becomes, whatever it is: no row unless it is a dictionary with a
      refdes; and else one row of that refdes, each text as saved, or from the snapshot where
      nothing was saved. */
  lemma RestoredEntryIs(entry: Json, records: seq<BoardRecord>, render: Rendering)
    ensures var ref := if entry.Obj? then Strip(StrOrEmpty(Get(entry.fields, "ref"), render)) else "";
            var rows, r := RestoredEntry(entry, records, render), RecordOf(records, ref);
            if ref == "" then rows == []
            else
              var role := StrOrEmpty(Get(entry.fields, "role"), render);
              var cluster := StrOrEmpty(Get(entry.fields, "cluster"), render);
              && |rows| == 1 && rows[0].ref == ref && rows[0].onBoard == r.Some?
              && rows[0].role == (if role == "" && r.Some? && r.value.role.Some? then r.value.role.value else role)
              && rows[0].cluster == (if cluster == "" && r.Some? && r.value.cluster.Some? then r.value.cluster.value
                                     else cluster)
              && rows[0].symbol == (if r.Some? && r.value.symbol != Some("") then r.value.symbol else None)
              && rows[0].boardRole == (if r.Some? then r.value.role else None)
              && rows[0].boardCluster == (if r.Some? then r.value.cluster else None)
  {}
}
