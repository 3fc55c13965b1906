/** The role table of the cell editor (gui/role_table_model.py): its rows, the batch it
    records in the override store, and what survives saving and restoring it. */
module RoleTable {
  import opened FieldOverrides
  import opened PyText
  import opened Sequences
  import opened Wrappers

  datatype BoardRecord = BoardRecord(
    ref: string, role: Option<string>, cluster: Option<string>, symbol: Option<string>)

  /** `role` and `cluster` are the cells as typed; the rest is what the board and our
      store say. */
  datatype RoleRow = RoleRow(
    ref: string, role: string, cluster: string,
    boardRole: Option<string>, boardCluster: Option<string>, onBoard: bool, symbol: Option<string>,
    storeRole: Option<string>, storeCluster: Option<string>)

  function Typed(row: RoleRow, f: Field): string { if f.RoleField? then row.role else row.cluster }

  function BoardValue(row: RoleRow, f: Field): Option<string> {
    if f.RoleField? then row.boardRole else row.boardCluster
  }

  function StoreValue(row: RoleRow, f: Field): Option<string> {
    if f.RoleField? then row.storeRole else row.storeCluster
  }

  function OrEmpty(v: Option<string>): string { if v.Some? then v.value else "" }

  /** base_role and base_cluster: the value in force, ours before the board's. */
  function Base(row: RoleRow, f: Field): Option<string> {
    if StoreValue(row, f).Some? then StoreValue(row, f) else BoardValue(row, f)
  }

  function Cell(row: RoleRow, f: Field): string { Strip(Typed(row, f)) }

  predicate Differs(row: RoleRow, f: Field) { Cell(row, f) != OrEmpty(Base(row, f)) }

  predicate HasKey(row: RoleRow) { row.symbol.Some? && row.symbol.value != "" }

  /** Something can be recorded for this row. */
  predicate Recordable(row: RoleRow) { row.onBoard && HasKey(row) }

  // ---- The store over the rows ----

  function WithOverrides(row: RoleRow, store: Option<Store>): RoleRow {
    if store.None? || !HasKey(row) then row.(storeRole := None, storeCluster := None)
    else row.(storeRole := Lookup(store.value, row.symbol.value, RoleField),
              storeCluster := Lookup(store.value, row.symbol.value, ClusterField))
  }

  function ApplyOverrides(rows: seq<RoleRow>, store: Option<Store>): seq<RoleRow> {
    seq(|rows|, i requires 0 <= i < |rows| => WithOverrides(rows[i], store))
  }

  method ApplyOverridesLoop(rows: seq<RoleRow>, store: Option<Store>) returns (out: seq<RoleRow>)
    ensures out == ApplyOverrides(rows, store)
  {
    out := [];
    for i := 0 to |rows|
      invariant |out| == i && forall j :: 0 <= j < i ==> out[j] == WithOverrides(rows[j], store)
    {
      var row := rows[i];
      if store.None? || !HasKey(row) {
        row := row.(storeRole := None, storeCluster := None);
      } else {
        row := row.(storeRole := Lookup(store.value, row.symbol.value, RoleField),
                    storeCluster := Lookup(store.value, row.symbol.value, ClusterField));
      }
      out := out + [row];
    }
  }

  // ---- The batch ----

  datatype Update = Update(symbol: string, field: Field, value: string)

  datatype Reason = NotOnBoard | NoSymbolUuid

  datatype TagPlan = TagPlan(updates: seq<Update>, skipped: seq<(string, Reason)>)

  /** The row's cell goes into the batch: it says something, and something new. */
  predicate Writes(row: RoleRow, f: Field) { Recordable(row) && Cell(row, f) != "" && Differs(row, f) }

  function FieldUpdates(row: RoleRow, f: Field): seq<Update> {
    if Writes(row, f) then [Update(row.symbol.value, f, Cell(row, f))] else []
  }

  function RowUpdates(row: RoleRow): seq<Update> { FieldUpdates(row, RoleField) + FieldUpdates(row, ClusterField) }

  function RowSkips(row: RoleRow): seq<(string, Reason)> {
    if !row.onBoard then [(row.ref, NotOnBoard)] else if !HasKey(row) then [(row.ref, NoSymbolUuid)] else []
  }

  function UpdateParts(rows: seq<RoleRow>): seq<seq<Update>> {
    seq(|rows|, i requires 0 <= i < |rows| => RowUpdates(rows[i]))
  }

  function SkipParts(rows: seq<RoleRow>): seq<seq<(string, Reason)>> {
    seq(|rows|, i requires 0 <= i < |rows| => RowSkips(rows[i]))
  }

  function Updates(rows: seq<RoleRow>): seq<Update> { Flat(UpdateParts(rows)) }

  function Skips(rows: seq<RoleRow>): seq<(string, Reason)> { Flat(SkipParts(rows)) }

  /** build_override_updates: one row ... */
  method PlanRow(row: RoleRow) returns (updates: seq<Update>, skipped: seq<(string, Reason)>)
    ensures updates == RowUpdates(row) && skipped == RowSkips(row)
  {
    updates, skipped := [], [];
    var role, cluster := Strip(row.role), Strip(row.cluster);
    if !row.onBoard {
      skipped := [(row.ref, NotOnBoard)];
    } else if !HasKey(row) {
      skipped := [(row.ref, NoSymbolUuid)];
    } else {
      if role != "" && role != OrEmpty(Base(row, RoleField)) {
        updates := [Update(row.symbol.value, RoleField, role)];
      }
      if cluster != "" && cluster != OrEmpty(Base(row, ClusterField)) {
        updates := updates + [Update(row.symbol.value, ClusterField, cluster)];
      }
    }
  }

  /** ... and the loop over the rows. */
  method BuildOverrideUpdates(rows: seq<RoleRow>) returns (plan: TagPlan)
    ensures plan == TagPlan(Updates(rows), Skips(rows))
  {
    var updates, skipped := [], [];
    ghost var us, ss := UpdateParts(rows), SkipParts(rows);
    for i := 0 to |rows|
      invariant updates == Flat(us[..i]) && skipped == Flat(ss[..i])
    {
      FlatOfOneMore(us, i);
      FlatOfOneMore(ss, i);
      var u, s := PlanRow(rows[i]);
      updates, skipped := updates + u, skipped + s;
    }
    assert us[..|rows|] == us && ss[..|rows|] == ss;
    plan := TagPlan(updates, skipped);
  }

  /** This row puts this update into the batch. */
  predicate Asks(row: RoleRow, u: Update) {
    Writes(row, u.field) && row.symbol.value == u.symbol && Cell(row, u.field) == u.value
  }

  lemma RowUpdatesAreAsked(row: RoleRow, u: Update)
    ensures u in RowUpdates(row) <==> Asks(row, u)
  {
    match u.field case RoleField => case ClusterField =>
  }

  /** The batch holds only what some row asks for ... */
  lemma {:induction false} UpdateHasItsRow(rows: seq<RoleRow>, u: Update) returns (i: nat)
    requires u in Updates(rows)
    ensures i < |rows| && Asks(rows[i], u)
  {
    i := PartOf(UpdateParts(rows), u);
    RowUpdatesAreAsked(rows[i], u);
  }

  /** ... and all of it. */
  lemma AskedIsInTheBatch(rows: seq<RoleRow>, i: nat, u: Update)
    requires i < |rows| && Asks(rows[i], u)
    ensures u in Updates(rows)
  {
    RowUpdatesAreAsked(rows[i], u);
    InFlat(UpdateParts(rows), i, u);
  }

  // ---- What the batch says, cell by cell ----

  /** What counts for a cell: our entry if the row has one, else what stands on the board, else
      nothing; and the typed text without the blanks around it. */
  lemma InForceIs(row: RoleRow)
    ensures OrEmpty(Base(row, RoleField)) ==
            if row.storeRole.Some? then row.storeRole.value
            else if row.boardRole.Some? then row.boardRole.value else ""
    ensures OrEmpty(Base(row, ClusterField)) ==
            if row.storeCluster.Some? then row.storeCluster.value
            else if row.boardCluster.Some? then row.boardCluster.value else ""
    ensures Cell(row, RoleField) == Strip(row.role) && Cell(row, ClusterField) == Strip(row.cluster)
  {}

  /** A row overlaid with the store shows, per field, the store's entry for its symbol, and where
      there is none, the values of its own board columns stay in force, field by field. */
  lemma OverlaidRowShows(row: RoleRow, store: Option<Store>)
    ensures var shown := WithOverrides(row, store);
            var keyed := store.Some? && row.symbol.Some? && row.symbol.value != "";
            && shown == row.(storeRole := shown.storeRole, storeCluster := shown.storeCluster)
            && shown.storeRole == (if keyed && (row.symbol.value, RoleField) in store.value
                                   then Some(store.value[(row.symbol.value, RoleField)]) else None)
            && shown.storeCluster == (if keyed && (row.symbol.value, ClusterField) in store.value
                                      then Some(store.value[(row.symbol.value, ClusterField)]) else None)
            && (shown.storeRole.None? ==> Base(shown, RoleField) == row.boardRole)
            && (shown.storeCluster.None? ==> Base(shown, ClusterField) == row.boardCluster)
  {}

  /** The batch of one row: nothing but a refusal for a part that is not on the board, or has no
      symbol uuid, in this order; and else the role and then the cluster, each if it is not
      blank and not what is in force already. */
  lemma RowBatchIs(row: RoleRow)
    ensures var key := if row.symbol.Some? then row.symbol.value else "";
            var role, cluster := Strip(row.role), Strip(row.cluster);
            && RowSkips(row) == (if !row.onBoard then [(row.ref, NotOnBoard)]
                                 else if key == "" then [(row.ref, NoSymbolUuid)] else [])
            && RowUpdates(row) ==
               (if !row.onBoard || key == "" then []
                else (if role != "" && role != OrEmpty(Base(row, RoleField))
                      then [Update(key, RoleField, role)] else [])
                     + (if cluster != "" && cluster != OrEmpty(Base(row, ClusterField))
                        then [Update(key, ClusterField, cluster)] else []))
  {
    assert FieldUpdates(row, RoleField) + [] == FieldUpdates(row, RoleField);
  }

  // ---- Recording ----

  /** The loop that records a batch; it stops at the first refused key. */
  function Record(store: Store, updates: seq<Update>): Result<Store, string> {
    if updates == [] then Success(store)
    else
      var before, u := Record(store, updates[..|updates| - 1]), updates[|updates| - 1];
      if before.Failure? then before else Set(before.value, u.symbol, u.field, u.value)
  }

  /** The uuid of every row that has something to record carries no blanks around it. */
  predicate CleanKeys(rows: seq<RoleRow>) {
    forall i, f :: 0 <= i < |rows| && Writes(rows[i], f) ==> Strip(rows[i].symbol.value) == rows[i].symbol.value
  }

  predicate CleanUpdates(updates: seq<Update>) {
    forall i :: 0 <= i < |updates| ==> updates[i].symbol != "" && Strip(updates[i].symbol) == updates[i].symbol
  }

  /** The value of the last update under this key. */
  function LastFor(updates: seq<Update>, symbol: string, f: Field): Option<string> {
    if updates == [] then None
    else
      var u := updates[|updates| - 1];
      if u.symbol == symbol && u.field == f then Some(u.value) else LastFor(updates[..|updates| - 1], symbol, f)
  }

  lemma {:induction false} LastIsOneOfThem(updates: seq<Update>, symbol: string, f: Field)
    ensures LastFor(updates, symbol, f).Some? ==> Update(symbol, f, LastFor(updates, symbol, f).value) in updates
    ensures LastFor(updates, symbol, f).None? ==> forall v :: Update(symbol, f, v) !in updates
  {
    if updates != [] {
      var n := |updates| - 1;
      LastIsOneOfThem(updates[..n], symbol, f);
      assert updates == updates[..n] + [updates[n]];
    }
  }

  function At(store: Store, symbol: string, f: Field): Option<string> {
    if (symbol, f) in store then Some(store[(symbol, f)]) else None
  }

  lemma {:induction false} RecordedValues(store: Store, updates: seq<Update>, symbol: string, f: Field)
    requires CleanUpdates(updates)
    ensures Record(store, updates).Success?
    ensures At(Record(store, updates).value, symbol, f) ==
            if LastFor(updates, symbol, f).Some? then LastFor(updates, symbol, f) else At(store, symbol, f)
  {
    if updates != [] {
      RecordedValues(store, updates[..|updates| - 1], symbol, f);
    }
  }

  /** The rows show what the store holds. */
  predicate Shows(rows: seq<RoleRow>, store: Store) { rows == ApplyOverrides(rows, Some(store)) }

  /** Both rows are of one symbol, and both say something in this field. */
  predicate SpeakOfOne(a: RoleRow, b: RoleRow, f: Field) {
    Recordable(a) && Recordable(b) && a.symbol == b.symbol && Cell(a, f) != "" && Cell(b, f) != ""
  }

  predicate Clash(a: RoleRow, b: RoleRow, f: Field) {
    Writes(a, f) && SpeakOfOne(a, b, f) && Cell(a, f) != Cell(b, f)
  }

  /** Rows of one symbol that bear on a recorded field ask for one value. */
  predicate Agree(rows: seq<RoleRow>) {
    forall i, j, f :: 0 <= i < |rows| && 0 <= j < |rows| ==> !Clash(rows[i], rows[j], f)
  }

  lemma BatchKeysAreClean(rows: seq<RoleRow>)
    requires CleanKeys(rows)
    ensures CleanUpdates(Updates(rows))
  {
    var us := Updates(rows);
    forall k | 0 <= k < |us| ensures us[k].symbol != "" && Strip(us[k].symbol) == us[k].symbol {
      var i := UpdateHasItsRow(rows, us[k]);
    }
  }

  ghost function AfterRecording(rows: seq<RoleRow>, store: Store): (store': Store)
    requires CleanKeys(rows)
    ensures Record(store, Updates(rows)) == Success(store')
  {
    BatchKeysAreClean(rows);
    RecordedValues(store, Updates(rows), "", RoleField);
    Record(store, Updates(rows)).value
  }

  /** A recorded entry is what some row asked for under that key; an entry no row asks
      for is as it was. */
  lemma RecordingIsTheBatchAndNothingElse(rows: seq<RoleRow>, store: Store, symbol: string, f: Field)
    requires CleanKeys(rows)
    ensures var now := At(AfterRecording(rows, store), symbol, f);
            || (now.Some? && exists i :: 0 <= i < |rows| && Asks(rows[i], Update(symbol, f, now.value)))
            || (now == At(store, symbol, f) && forall i, v :: 0 <= i < |rows| ==> !Asks(rows[i], Update(symbol, f, v)))
  {
    var us := Updates(rows);
    BatchKeysAreClean(rows);
    RecordedValues(store, us, symbol, f);
    LastIsOneOfThem(us, symbol, f);
    var last := LastFor(us, symbol, f);
    if last.Some? {
      var i := UpdateHasItsRow(rows, Update(symbol, f, last.value));
    } else {
      forall i, v | 0 <= i < |rows| && Asks(rows[i], Update(symbol, f, v)) ensures false {
        AskedIsInTheBatch(rows, i, Update(symbol, f, v));
      }
    }
  }

  /** The row after the store changed, in terms of the row before. */
  lemma BaseAfter(row: RoleRow, store: Store, store': Store, f: Field)
    requires Recordable(row) && row == WithOverrides(row, Some(store))
    ensures Base(WithOverrides(row, Some(store')), f) ==
            (var v := At(store', row.symbol.value, f); if v.Some? then v else BoardValue(row, f))
    ensures At(store', row.symbol.value, f) == At(store, row.symbol.value, f) ==>
              Base(WithOverrides(row, Some(store')), f) == Base(row, f)
    ensures Cell(WithOverrides(row, Some(store')), f) == Cell(row, f)
  {
    match f case RoleField => case ClusterField =>
  }

  /** If the rows agree, every cell that says something is in force after recording. */
  lemma AgreedCellsAreInForce(rows: seq<RoleRow>, store: Store, j: nat, f: Field)
    requires CleanKeys(rows) && Shows(rows, store) && Agree(rows)
    requires j < |rows| && Recordable(rows[j]) && Cell(rows[j], f) != ""
    ensures Base(WithOverrides(rows[j], Some(AfterRecording(rows, store))), f) == Some(Cell(rows[j], f))
  {
    var us, symbol, store' := Updates(rows), rows[j].symbol.value, AfterRecording(rows, store);
    assert rows[j] == WithOverrides(rows[j], Some(store));
    BaseAfter(rows[j], store, store', f);
    BatchKeysAreClean(rows);
    RecordedValues(store, us, symbol, f);
    LastIsOneOfThem(us, symbol, f);
    var last := LastFor(us, symbol, f);
    if last.Some? {
      var i := UpdateHasItsRow(rows, Update(symbol, f, last.value));
      assert !Clash(rows[i], rows[j], f);
    } else if Writes(rows[j], f) {
      AskedIsInTheBatch(rows, j, Update(symbol, f, Cell(rows[j], f)));
    }
  }

  /** If two rows clash, one of them still has something to record afterwards. */
  lemma ClashNeverSettles(rows: seq<RoleRow>, store: Store, i: nat, j: nat, f: Field)
    requires CleanKeys(rows) && Shows(rows, store)
    requires i < |rows| && j < |rows| && Clash(rows[i], rows[j], f)
    ensures Updates(ApplyOverrides(rows, Some(AfterRecording(rows, store)))) != []
  {
    var symbol, store' := rows[i].symbol.value, AfterRecording(rows, store);
    var rows' := ApplyOverrides(rows, Some(store'));
    assert rows[i] == WithOverrides(rows[i], Some(store)) && rows[j] == WithOverrides(rows[j], Some(store));
    BaseAfter(rows[i], store, store', f);
    BaseAfter(rows[j], store, store', f);
    RecordingIsTheBatchAndNothingElse(rows, store, symbol, f);
    assert Asks(rows[i], Update(symbol, f, Cell(rows[i], f)));
    assert At(store', symbol, f).Some?;
    var k := if Writes(rows'[i], f) then i else j;
    assert Writes(rows'[k], f);
    AskedIsInTheBatch(rows', k, Update(rows'[k].symbol.value, f, Cell(rows'[k], f)));
  }

  lemma AgreementSettles(rows: seq<RoleRow>, store: Store)
    requires CleanKeys(rows) && Shows(rows, store) && Agree(rows)
    ensures Updates(ApplyOverrides(rows, Some(AfterRecording(rows, store)))) == []
  {
    var store' := AfterRecording(rows, store);
    var rows' := ApplyOverrides(rows, Some(store'));
    if Updates(rows') != [] {
      var u := Updates(rows')[0];
      var j := UpdateHasItsRow(rows', u);
      assert rows'[j] == WithOverrides(rows[j], Some(store'));
      assert rows[j] == WithOverrides(rows[j], Some(store));
      BaseAfter(rows[j], store, store', u.field);
      AgreedCellsAreInForce(rows, store, j, u.field);
      assert false;
    }
  }

  /** A padded key is never written, so what is looked up under it stays. */
  lemma {:induction false} PaddedKeysStay(store: Store, updates: seq<Update>, symbol: string, f: Field)
    requires Strip(symbol) != symbol && Record(store, updates).Success?
    ensures At(Record(store, updates).value, symbol, f) == At(store, symbol, f)
  {
    if updates != [] {
      var u := updates[|updates| - 1];
      PaddedKeysStay(store, updates[..|updates| - 1], symbol, f);
      assert Strip(Strip(u.symbol)) == Strip(u.symbol);
    }
  }

  lemma PaddedNeverSettles(rows: seq<RoleRow>, store: Store, i: nat, f: Field)
    requires Shows(rows, store) && Record(store, Updates(rows)).Success?
    requires i < |rows| && Writes(rows[i], f) && Strip(rows[i].symbol.value) != rows[i].symbol.value
    ensures Updates(ApplyOverrides(rows, Some(Record(store, Updates(rows)).value))) != []
  {
    var store' := Record(store, Updates(rows)).value;
    var rows' := ApplyOverrides(rows, Some(store'));
    assert rows[i] == WithOverrides(rows[i], Some(store));
    PaddedKeysStay(store, Updates(rows), rows[i].symbol.value, f);
    BaseAfter(rows[i], store, store', f);
    assert Writes(rows'[i], f);
    AskedIsInTheBatch(rows', i, Update(rows'[i].symbol.value, f, Cell(rows'[i], f)));
  }

  /** The batch is recorded whole, and the table then has nothing more to record. */
  predicate Settles(rows: seq<RoleRow>, store: Store) {
    var r := Record(store, Updates(rows));
    r.Success? && Updates(ApplyOverrides(rows, Some(r.value))) == []
  }

  /** Recording is a fixed point, the next batch being empty, exactly when no row that has
      something to record has a padded uuid, and no two rows of one symbol clash. */
  lemma {:induction false} RecordingSettlesIff(rows: seq<RoleRow>, store: Store)
    requires Shows(rows, store)
    ensures Settles(rows, store) <==> CleanKeys(rows) && Agree(rows)
  {
    var r := Record(store, Updates(rows));
    if CleanKeys(rows) {
      assert r == Success(AfterRecording(rows, store));
      if Agree(rows) {
        AgreementSettles(rows, store);
      } else {
        var i, j, f :| 0 <= i < |rows| && 0 <= j < |rows| && Clash(rows[i], rows[j], f);
        ClashNeverSettles(rows, store, i, j, f);
      }
    } else if r.Success? {
      var i, f :| 0 <= i < |rows| && Writes(rows[i], f) && Strip(rows[i].symbol.value) != rows[i].symbol.value;
      PaddedNeverSettles(rows, store, i, f);
    }
  }

  /** Whatever is recorded, the rows that cannot be are named again as before. */
  lemma RefusalsStay(rows: seq<RoleRow>, store: Option<Store>)
    ensures Skips(ApplyOverrides(rows, store)) == Skips(rows)
  {
    SkipsDependOnTheBoard(rows, ApplyOverrides(rows, store));
  }

  /** A table with a padded uuid, and one with two rows of one symbol: neither settles. */
  lemma SomeTablesNeverSettle()
    ensures var padded := [RoleRow("C1", "IN", "", None, None, true, Some(" u"), None, None)];
            Shows(padded, map[]) && !Settles(padded, map[])
    ensures var twice := [RoleRow("C1", "IN", "", None, None, true, Some("u"), None, None),
                          RoleRow("C2", "OUT", "", None, None, true, Some("u"), None, None)];
            Shows(twice, map[]) && !Settles(twice, map[])
  {
    var padded := [RoleRow("C1", "IN", "", None, None, true, Some(" u"), None, None)];
    var twice := [RoleRow("C1", "IN", "", None, None, true, Some("u"), None, None),
                  RoleRow("C2", "OUT", "", None, None, true, Some("u"), None, None)];
    assert Strip("IN") == "IN" && Strip("OUT") == "OUT" && |Strip(" u")| <= 1;
    assert Writes(padded[0], RoleField) && Clash(twice[0], twice[1], RoleField);
    assert padded == ApplyOverrides(padded, Some(map[]));
    assert twice == ApplyOverrides(twice, Some(map[]));
    RecordingSettlesIff(padded, map[]);
    RecordingSettlesIff(twice, map[]);
  }

  lemma SkipsDependOnTheBoard(rows: seq<RoleRow>, rows': seq<RoleRow>)
    requires |rows| == |rows'|
    requires forall i :: 0 <= i < |rows| ==>
               rows[i].ref == rows'[i].ref && rows[i].onBoard == rows'[i].onBoard && HasKey(rows[i]) == HasKey(rows'[i])
    ensures Skips(rows) == Skips(rows')
  {
    assert SkipParts(rows) == SkipParts(rows');
  }

  /** Why the condition on the keys: the store strips a key when it records and not
      when it looks up. A recorded value comes into force exactly when the uuid has no
      blanks around it (or was in force before); for a padded uuid nothing changes, so
      it is asked for again for ever. */
  lemma RecordedValueTakesEffectIff(row: RoleRow, store: Store, f: Field, value: string)
    requires Recordable(row) && Strip(row.symbol.value) != "" && row == WithOverrides(row, Some(store))
    ensures var r := Set(store, row.symbol.value, f, value);
            && r.Success?
            && (Base(WithOverrides(row, Some(r.value)), f) == Some(value) <==>
                Strip(row.symbol.value) == row.symbol.value || Base(row, f) == Some(value))
            && (Strip(row.symbol.value) != row.symbol.value ==> WithOverrides(row, Some(r.value)) == row)
  {
    match f case RoleField => case ClusterField =>
  }
}
