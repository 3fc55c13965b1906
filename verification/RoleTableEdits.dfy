/** Building and editing the role table (gui/role_table_model.py, the middle of the file):
    what the user typed survives every later board read, no refdes gets two rows, and a
    refreshed table meets the premise of saving and restoring, with one exception. */
module RoleTableEdits {
  import opened FieldOverrides
  import opened JsonValues
  import opened PyText
  import opened RoleTable
  import opened RoleTableState
  import opened Sequences
  import opened Wrappers

  // ---- The edits ----

  function RowFromRecord(r: BoardRecord): RoleRow {
    RoleRow(r.ref, OrEmpty(r.role), OrEmpty(r.cluster), r.role, r.cluster, true, r.symbol, None, None)
  }

  /** _with_board: the board's columns read again; a key once known is not unlearned. */
  function WithBoard(row: RoleRow, r: BoardRecord): RoleRow {
    row.(boardRole := r.role, boardCluster := r.cluster, onBoard := true,
         symbol := if TruthyKey(r.symbol).Some? then r.symbol else row.symbol)
  }

  function Taken(records: seq<BoardRecord>): seq<RoleRow> {
    seq(|records|, i requires 0 <= i < |records| => RowFromRecord(records[i]))
  }

  predicate HasRef(rows: seq<RoleRow>, ref: string) { exists i :: 0 <= i < |rows| && rows[i].ref == ref }

  function Appended(rows: seq<RoleRow>, records: seq<BoardRecord>): seq<RoleRow> {
    if records == [] then rows
    else
      var before, last := Appended(rows, records[..|records| - 1]), records[|records| - 1];
      if HasRef(before, last.ref) then before else before + [RowFromRecord(last)]
  }

  function Removed(rows: seq<RoleRow>, refs: set<string>): seq<RoleRow> {
    Filter(rows, (row: RoleRow) => row.ref !in refs)
  }

  /** add_ref; the refusals leave the table as it was. */
  function RefAdded(rows: seq<RoleRow>, typed: string, records: seq<BoardRecord>): seq<RoleRow> {
    var ref := Strip(typed);
    if ref == "" || HasRef(rows, ref) || RecordOf(records, ref).None? then rows
    else rows + [RowFromRecord(RecordOf(records, ref).value)]
  }

  function RefreshedRow(row: RoleRow, record: Option<BoardRecord>): RoleRow {
    match record
    case None => row.(boardRole := None, boardCluster := None, onBoard := false)
    case Some(r) => WithBoard(row, r)
  }

  function Refreshed(rows: seq<RoleRow>, records: seq<BoardRecord>): seq<RoleRow> {
    seq(|rows|, i requires 0 <= i < |rows| => RefreshedRow(rows[i], RecordOf(records, rows[i].ref)))
  }

  function TypedInto(row: RoleRow, ref: string, f: Field, text: string): RoleRow {
    if row.ref != ref then row else if f.RoleField? then row.(role := text) else row.(cluster := text)
  }

  function CellTyped(rows: seq<RoleRow>, ref: string, f: Field, text: string): seq<RoleRow> {
    seq(|rows|, i requires 0 <= i < |rows| => TypedInto(rows[i], ref, f, text))
  }

  datatype Edit =
    | Take(records: seq<BoardRecord>)
    | Append(records: seq<BoardRecord>)
    | Remove(refs: set<string>)
    | AddRef(typed: string, records: seq<BoardRecord>)
    | Refresh(records: seq<BoardRecord>)
    | Overlay(store: Option<Store>)
    | TypeCell(ref: string, f: Field, text: string)

  function Apply(rows: seq<RoleRow>, e: Edit): seq<RoleRow> {
    match e
    case Take(records) => Taken(records)
    case Append(records) => Appended(rows, records)
    case Remove(refs) => Removed(rows, refs)
    case AddRef(typed, records) => RefAdded(rows, typed, records)
    case Refresh(records) => Refreshed(rows, records)
    case Overlay(store) => ApplyOverrides(rows, store)
    case TypeCell(ref, f, text) => CellTyped(rows, ref, f, text)
  }

  function ApplyAll(rows: seq<RoleRow>, es: seq<Edit>): seq<RoleRow> {
    if es == [] then rows else Apply(ApplyAll(rows, es[..|es| - 1]), es[|es| - 1])
  }

  // ---- The loops ----

  /** append_rows. */
  method AppendRows(rows: seq<RoleRow>, records: seq<BoardRecord>) returns (out: seq<RoleRow>)
    ensures out == Appended(rows, records)
  {
    out := rows;
    var known := set i | 0 <= i < |rows| :: rows[i].ref;
    for n := 0 to |records|
      invariant out == Appended(rows, records[..n])
      invariant forall ref :: ref in known <==> HasRef(out, ref)
    {
      assert records[..n + 1][..n] == records[..n];
      if records[n].ref !in known {
        RefsOfOneMore(out, RowFromRecord(records[n]));
        out := out + [RowFromRecord(records[n])];
        known := known + {records[n].ref};
      }
    }
    assert records[..|records|] == records;
  }

  lemma RefsOfOneMore(rows: seq<RoleRow>, row: RoleRow)
    ensures forall ref :: HasRef(rows + [row], ref) <==> HasRef(rows, ref) || ref == row.ref
  {
    forall ref ensures HasRef(rows + [row], ref) <==> HasRef(rows, ref) || ref == row.ref {
      if ref == row.ref { assert (rows + [row])[|rows|].ref == ref; }
      if i :| 0 <= i < |rows| && rows[i].ref == ref { assert (rows + [row])[i].ref == ref; }
    }
  }

  /** refresh_board_values. */
  method RefreshBoardValues(rows: seq<RoleRow>, records: seq<BoardRecord>) returns (out: seq<RoleRow>)
    ensures out == Refreshed(rows, records)
  {
    out := [];
    for i := 0 to |rows|
      invariant |out| == i && forall j :: 0 <= j < i ==> out[j] == RefreshedRow(rows[j], RecordOf(records, rows[j].ref))
    {
      var row := rows[i];
      match RecordOf(records, row.ref) {
        case None => out := out + [row.(boardRole := None, boardCluster := None, onBoard := false)];
        case Some(record) => out := out + [WithBoard(row, record)];
      }
    }
  }

  // ---- No refdes has two rows ----

  predicate OneRowPerRef(rows: seq<RoleRow>) {
    forall i, j :: 0 <= i < j < |rows| ==> rows[i].ref != rows[j].ref
  }

  lemma {:induction false} AppendingKeepsOneRow(rows: seq<RoleRow>, records: seq<BoardRecord>)
    requires OneRowPerRef(rows)
    ensures OneRowPerRef(Appended(rows, records)) && rows <= Appended(rows, records)
  {
    if records != [] {
      AppendingKeepsOneRow(rows, records[..|records| - 1]);
    }
  }

  lemma {:induction false} RemovingKeepsOneRow(rows: seq<RoleRow>, refs: set<string>)
    requires OneRowPerRef(rows)
    ensures OneRowPerRef(Removed(rows, refs))
    ensures forall row :: row in Removed(rows, refs) <==> row in rows && row.ref !in refs
  {
    if rows != [] {
      var n := |rows| - 1;
      assert rows == rows[..n] + [rows[n]];
      RemovingKeepsOneRow(rows[..n], refs);
      forall row | row in Removed(rows[..n], refs) ensures row.ref != rows[n].ref {
        var i :| 0 <= i < n && rows[i] == row;
      }
    }
  }

  predicate DistinctRecords(records: seq<BoardRecord>) {
    forall i, j :: 0 <= i < j < |records| ==> records[i].ref != records[j].ref
  }

  lemma {:induction false} RecordsAreOfTheRef(records: seq<BoardRecord>, ref: string)
    ensures RecordOf(records, ref).Some? ==> RecordOf(records, ref).value.ref == ref
  {
    if records != [] {
      RecordsAreOfTheRef(records[..|records| - 1], ref);
    }
  }

  /** One edit keeps one row per refdes; taking a selection, which forgets the table, does so
      exactly when the selection names no refdes twice. */
  lemma EditKeepsOneRowIff(rows: seq<RoleRow>, e: Edit)
    requires OneRowPerRef(rows)
    ensures OneRowPerRef(Apply(rows, e)) <==> (e.Take? ==> DistinctRecords(e.records))
  {
    match e
    case Append(records) => AppendingKeepsOneRow(rows, records);
    case Remove(refs) => RemovingKeepsOneRow(rows, refs);
    case Take(records) =>
      if !DistinctRecords(records) {
        var i, j :| 0 <= i < j < |records| && records[i].ref == records[j].ref;
        assert Taken(records)[i].ref == Taken(records)[j].ref;
      }
    case AddRef(typed, records) => RecordsAreOfTheRef(records, Strip(typed));
    case Refresh(_) =>
    case Overlay(_) =>
    case TypeCell(_, _, _) =>
  }

  /** Over any run of edits whose selections name no refdes twice, neither does the table. */
  lemma {:induction false} EveryTableHasOneRowPerRef(es: seq<Edit>)
    requires forall e :: e in es && e.Take? ==> DistinctRecords(e.records)
    ensures OneRowPerRef(ApplyAll([], es))
  {
    if es != [] {
      var n := |es| - 1;
      assert es == es[..n] + [es[n]];
      EveryTableHasOneRowPerRef(es[..n]);
      EditKeepsOneRowIff(ApplyAll([], es[..n]), es[n]);
    }
  }

  // ---- What was typed survives ----

  /** The cell of this refdes' row holds this text. */
  ghost predicate Holds(rows: seq<RoleRow>, ref: string, f: Field, text: string) {
    exists i :: 0 <= i < |rows| && rows[i].ref == ref && Typed(rows[i], f) == text
  }

  /** What was last typed into the cell, or what it held before. */
  function LastTyped(es: seq<Edit>, ref: string, f: Field, before: string): string {
    if es == [] then before
    else
      var e := es[|es| - 1];
      if e.TypeCell? && e.ref == ref && e.f == f then e.text else LastTyped(es[..|es| - 1], ref, f, before)
  }

  predicate Spares(e: Edit, ref: string) { !e.Take? && (e.Remove? ==> ref !in e.refs) }

  lemma EditKeepsTheText(rows: seq<RoleRow>, e: Edit, ref: string, f: Field, text: string)
    requires OneRowPerRef(rows) && Holds(rows, ref, f, text) && Spares(e, ref)
    ensures Holds(Apply(rows, e), ref, f, if e.TypeCell? && e.ref == ref && e.f == f then e.text else text)
  {
    var i :| 0 <= i < |rows| && rows[i].ref == ref && Typed(rows[i], f) == text;
    var after := Apply(rows, e);
    match e
    case Append(records) =>
      AppendingKeepsOneRow(rows, records);
      assert after[i] == rows[i];
    case Remove(refs) =>
      RemovingKeepsOneRow(rows, refs);
      assert rows[i] in after;
      var k :| 0 <= k < |after| && after[k] == rows[i];
    case AddRef(_, _) => assert after[i] == rows[i];
    case Refresh(_) => assert after[i].ref == ref && Typed(after[i], f) == text;
    case Overlay(_) => assert after[i].ref == ref && Typed(after[i], f) == text;
    case TypeCell(_, _, _) => assert after[i].ref == ref;
  }

  /** Through any number of board reads, overlays, additions and removals of others, a
      cell holds what the user last typed into it: a read never overwrites it, and a row
      whose part left the board keeps it too. */
  lemma {:induction false} TypedTextSurvives(rows: seq<RoleRow>, es: seq<Edit>, ref: string, f: Field, text: string)
    requires OneRowPerRef(rows) && Holds(rows, ref, f, text)
    requires forall e :: e in es ==> Spares(e, ref)
    ensures OneRowPerRef(ApplyAll(rows, es)) && Holds(ApplyAll(rows, es), ref, f, LastTyped(es, ref, f, text))
  {
    if es != [] {
      var n := |es| - 1;
      assert es == es[..n] + [es[n]];
      TypedTextSurvives(rows, es[..n], ref, f, text);
      EditKeepsOneRowIff(ApplyAll(rows, es[..n]), es[n]);
      EditKeepsTheText(ApplyAll(rows, es[..n]), es[n], ref, f, LastTyped(es[..n], ref, f, text));
    }
  }

  // ---- A refreshed table can be saved and restored ----

  /** A refresh keeps the key of a row whose part the new read has no key for. */
  predicate StaleKey(row: RoleRow, records: seq<BoardRecord>) {
    var r := RecordOf(records, row.ref);
    r.Some? && TruthyKey(r.value.symbol).None? && HasKey(row)
  }

  /** A refreshed row matches the read it was refreshed from exactly when its key is not
      stale. */
  lemma RefreshedRowMatchesIff(row: RoleRow, records: seq<BoardRecord>)
    requires row.ref != "" && Strip(row.ref) == row.ref
    ensures Matches(RefreshedRow(row, RecordOf(records, row.ref)), records) <==> !StaleKey(row, records)
  {}

  /** So after a refresh the batch survives saving and restoring exactly when nothing
      resurfaces, for every table with clean refdes and no stale key. */
  lemma {:induction false} RefreshThenSaveKeepsTheBatchIff(rows: seq<RoleRow>, records: seq<BoardRecord>,
      store: Option<Store>, render: Rendering)
    requires forall i :: 0 <= i < |rows| ==>
               rows[i].ref != "" && Strip(rows[i].ref) == rows[i].ref && !StaleKey(rows[i], records)
    ensures var shown := ApplyOverrides(Refreshed(rows, records), store);
            && (Updates(Back(shown, records, store, render)) == Updates(shown) <==> NothingResurfaces(shown, records))
            && Skips(Back(shown, records, store, render)) == Skips(shown)
  {
    var shown := ApplyOverrides(Refreshed(rows, records), store);
    forall i | 0 <= i < |shown| ensures Matches(shown[i], records) {
      RefreshedRowMatchesIff(rows[i], records);
    }
    assert shown == ApplyOverrides(shown, store);
    RestoredBatchIsTheSameIff(shown, records, store, render);
  }

  /** And a row with a stale key can be recorded before, and is refused after. */
  lemma StaleKeyIsRefusedAfterRestoring(row: RoleRow, records: seq<BoardRecord>, store: Option<Store>)
    requires row.ref != "" && Strip(row.ref) == row.ref && StaleKey(row, records)
    ensures var shown := WithOverrides(RefreshedRow(row, RecordOf(records, row.ref)), store);
            && RowSkips(shown) == []
            && RowSkips(WithOverrides(Restored(shown, records), store)) == [(row.ref, NoSymbolUuid)]
  {}

  // ---- What each edit leaves ----

  /** A row of its own for a part: what the board says, as text and as board columns, with the part's
      key, and nothing of ours yet. */
  ghost predicate IsNewRowOf(row: RoleRow, r: BoardRecord) {
    && row.ref == r.ref && row.onBoard && row.symbol == r.symbol
    && row.role == (if r.role.Some? then r.role.value else "") && row.boardRole == r.role
    && row.cluster == (if r.cluster.Some? then r.cluster.value else "") && row.boardCluster == r.cluster
    && row.storeRole.None? && row.storeCluster.None?
  }

  lemma TakingIs(rows: seq<RoleRow>, records: seq<BoardRecord>)
    ensures var after := Apply(rows, Take(records));
            |after| == |records| && forall i :: 0 <= i < |records| ==> IsNewRowOf(after[i], records[i])
  {}

  /** It is the new row of one of the records. */
  ghost predicate IsNewRowOfOne(row: RoleRow, records: seq<BoardRecord>) {
    exists r :: r in records && IsNewRowOf(row, r)
  }

  /** The rows there were, and behind them new rows of the records, none for a refdes that stands
      before it. */
  ghost predicate ExtendsBy(rows: seq<RoleRow>, after: seq<RoleRow>, records: seq<BoardRecord>) {
    && rows <= after
    && forall i :: |rows| <= i < |after| ==>
         IsNewRowOfOne(after[i], records) && !HasRef(after[..i], after[i].ref)
  }

  lemma ExtendsByOneMore(rows: seq<RoleRow>, before: seq<RoleRow>, records: seq<BoardRecord>, r: BoardRecord)
    requires ExtendsBy(rows, before, records)
    ensures var after := if HasRef(before, r.ref) then before else before + [RowFromRecord(r)];
            ExtendsBy(rows, after, records + [r]) && HasRef(after, r.ref)
            && forall ref :: HasRef(before, ref) ==> HasRef(after, ref)
  {
    hide HasRef, IsNewRowOf;
    var after := if HasRef(before, r.ref) then before else before + [RowFromRecord(r)];
    RefsOfOneMore(before, RowFromRecord(r));
    NewRowIs(r);
    forall i | |rows| <= i < |after|
      ensures IsNewRowOfOne(after[i], records + [r]) && !HasRef(after[..i], after[i].ref)
    {
      if i < |before| {
        assert after[i] == before[i] && after[..i] == before[..i] && IsNewRowOfOne(before[i], records);
        var q :| q in records && IsNewRowOf(before[i], q);
        assert q in records + [r];
      } else {
        assert after[..i] == before && after[i] == RowFromRecord(r) && r in records + [r];
      }
    }
  }

  lemma NewRowIs(r: BoardRecord)
    ensures IsNewRowOf(RowFromRecord(r), r) && RowFromRecord(r).ref == r.ref
  {}

  /** Appending leaves the rows there are, and adds a new row for every part that has none yet, once. */
  lemma {:induction false} AppendingIs(rows: seq<RoleRow>, records: seq<BoardRecord>)
    ensures var after := Apply(rows, Append(records));
            ExtendsBy(rows, after, records) && forall i :: 0 <= i < |records| ==> HasRef(after, records[i].ref)
  {
    hide ExtendsBy, HasRef;
    if records == [] {
      NothingAppended(rows);
    } else {
      var n := |records| - 1;
      AppendingIs(rows, records[..n]);
      ExtendsByOneMore(rows, Appended(rows, records[..n]), records[..n], records[n]);
      assert records[..n] + [records[n]] == records;
      forall i | 0 <= i < |records| ensures HasRef(Appended(rows, records), records[i].ref) {
        assert i < n ==> records[..n][i] == records[i];
      }
    }
  }

  lemma NothingAppended(rows: seq<RoleRow>)
    ensures ExtendsBy(rows, rows, [])
  {}

  /** A typed refdes gets a row exactly when it is not blank, has none yet, and is in the last read;
      the table is otherwise as it was. */
  lemma AddingARefIs(rows: seq<RoleRow>, typed: string, records: seq<BoardRecord>)
    ensures var ref, after := Strip(typed), Apply(rows, AddRef(typed, records));
            if ref == "" || HasRef(rows, ref) || forall r :: r in records ==> r.ref != ref then after == rows
            else |after| == |rows| + 1 && rows <= after && after[|rows|].ref == ref
                 && exists r :: r in records && IsNewRowOf(after[|rows|], r)
  {
    var ref := Strip(typed);
    if ref != "" {
      var k := RecordOfIsTheLast(records, ref);
      if k < |records| {
        assert records[k] in records;
        if !HasRef(rows, ref) {
          assert IsNewRowOf(Apply(rows, AddRef(typed, records))[|rows|], records[k]);
        }
      } else {
        assert forall r :: r in records ==> r.ref != ref;
      }
    }
  }

  /** A refresh reads the board columns again and touches nothing the user typed; a part that is no
      longer there keeps its row, and its key. */
  lemma RefreshingIs(rows: seq<RoleRow>, records: seq<BoardRecord>, i: nat)
    requires i < |rows| && rows[i].ref != ""
    ensures var after, r := Apply(rows, Refresh(records)), RecordOf(records, rows[i].ref);
            && |after| == |rows|
            && after[i].ref == rows[i].ref && after[i].role == rows[i].role && after[i].cluster == rows[i].cluster
            && after[i].storeRole == rows[i].storeRole && after[i].storeCluster == rows[i].storeCluster
            && after[i].onBoard == r.Some?
            && after[i].boardRole == (if r.Some? then r.value.role else None)
            && after[i].boardCluster == (if r.Some? then r.value.cluster else None)
            && after[i].symbol == (if r.Some? && r.value.symbol.Some? && r.value.symbol.value != ""
                                   then r.value.symbol else rows[i].symbol)
  {}

  /** Typing into a cell changes that cell of that row, and nothing else of the table; removing takes
      exactly the rows named. */
  lemma TypingAndRemovingAre(rows: seq<RoleRow>, ref: string, f: Field, text: string, refs: set<string>, i: nat)
    requires i < |rows|
    ensures var after := Apply(rows, TypeCell(ref, f, text));
            && |after| == |rows|
            && after[i] == if rows[i].ref != ref then rows[i]
                           else if f == RoleField then rows[i].(role := text) else rows[i].(cluster := text)
    ensures rows[i] in Apply(rows, Remove(refs)) <==> rows[i].ref !in refs
  {}
}
