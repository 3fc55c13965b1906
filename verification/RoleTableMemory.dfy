/** The whole way of a role table: gui/role_table_model.py makes a state of it,
    gui/cell_edit_context.py keeps that in the state file among those of other cells and
    gives it back, and the model makes a table of it again. */
module RoleTableMemory {
  import C = CellEditContext
  import opened CellEditContext
  import opened FieldOverrides
  import opened JsonValues
  import opened PyText
  import opened RoleTable
  import opened RoleTableState
  import opened Sequences
  import opened Wrappers

  /** rows_from_state of what remembered_role_table gives; nothing remembered is no table. */
  function RowsBack(remembered: Option<Json>, records: seq<BoardRecord>, render: Rendering): seq<RoleRow> {
    RestoredRows(EntriesOf(if remembered.Some? then remembered.value else Null), records, render)
  }

  predicate CleanRefdes(rows: seq<RoleRow>) {
    forall i :: 0 <= i < |rows| ==> rows[i].ref != "" && Strip(rows[i].ref) == rows[i].ref
  }

  lemma SavedRowIsKept(row: RoleRow, render: Rendering)
    requires row.ref != "" && Strip(row.ref) == row.ref
    ensures CleanRow(SavedRow(row), render) == [SavedRow(row)]
  {
    var fields := SavedRow(row).fields;
    assert Get(fields, "ref") == Str(row.ref);
    assert Get(fields, "role") == Str(SavedCell(row, RoleField));
    assert Get(fields, "cluster") == Str(SavedCell(row, ClusterField));
  }

  lemma SavedRowsAreKept(rows: seq<RoleRow>, render: Rendering)
    requires CleanRefdes(rows)
    ensures CleanRows(SavedRows(rows), render) == SavedRows(rows) && |SavedRows(rows)| == |rows|
  {
    var saved := seq(|rows|, i requires 0 <= i < |rows| => SavedRow(rows[i]));
    FlatOfSingletons(SavedParts(rows), saved);
    forall i | 0 <= i < |saved| ensures CleanParts(saved, render)[i] == [saved[i]] {
      SavedRowIsKept(rows[i], render);
    }
    FlatOfSingletons(CleanParts(saved, render), saved);
  }

  /** Keeping a saved table changes nothing about its rows; an empty one is not kept at all. */
  lemma KeptTableReads(rows: seq<RoleRow>, cluster: string, records: seq<BoardRecord>, render: Rendering)
    requires CleanRefdes(rows)
    ensures RowsToWalk(TableToState(rows, cluster)).Some?
    ensures RowsBack(Kept(TableToState(rows, cluster), render), records, render) ==
            RestoredRows(EntriesOf(TableToState(rows, cluster)), records, render)
  {
    var table := TableToState(rows, cluster);
    assert Get(AsDict(table), "rows") == Arr(SavedRows(rows));
    SavedRowsAreKept(rows, render);
    assert EntriesOf(table) == SavedRows(rows) && EntriesOf(Null) == [];
    if SavedRows(rows) != [] {
      var entry := TableEntry(table, SavedRows(rows), render);
      assert Get(AsDict(entry), "rows") == Arr(SavedRows(rows));
    }
  }

  /** The table of a cell was remembered as the last one of it, among any number of contexts,
      instances and tables of this and other cells. */
  ghost predicate LastRemembered(ops: seq<Op>, root: string, cell: string, table: Json) {
    C.LastFor(ops, TABLE_KEY, root, cell) == Some(RememberTable(Some(root), cell, table))
  }

  /** From a table to the state file and back to a table, with any other remembering before and
      after: the batch it records is the same, updates and refusals in order, exactly when
      no board value resurfaces. */
  lemma {:induction false} RememberedBatchIsTheSameIff(
    contents: map<string, Json>, ops: seq<Op>, root: string, cell: string,
    rows: seq<RoleRow>, cluster: string, records: seq<BoardRecord>, store: Option<Store>, render: Rendering)
    requires WellShaped(contents) && cell != ""
    requires LastRemembered(ops, root, cell, TableToState(rows, cluster))
    requires forall i :: 0 <= i < |rows| ==> Matches(rows[i], records)
    requires rows == ApplyOverrides(rows, store)
    ensures var remembered := RememberedTable(AfterAll(contents, ops, render), root, cell, render);
            var back := ApplyOverrides(RowsBack(remembered, records, render), store);
            && Skips(back) == Skips(rows)
            && (Updates(back) == Updates(rows) <==> NothingResurfaces(rows, records))
  {
    KeptTableReads(rows, cluster, records, render);
    TableIsTheLastWritten(contents, ops, root, cell, render);
    EveryRowComesBack(rows, cluster, records, render);
    EveryRowComesBack(rows, "", records, render);
    RestoredBatchIsTheSameIff(rows, records, store, render);
  }
}
