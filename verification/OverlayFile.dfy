/** The key map inside the state file (migrate_legacy_state, _mapping and _store of
    gui/overlay_markers.py): what a read of the map makes of the file when any of its
    openings fails, and where the entries of the map can come from over any run. */
module OverlayFile {
  import opened BoardOverlay
  import opened JsonValues
  import opened OverlayKeys
  import opened OverlayMarkers
  import S = Settings

  /** How the state file behaves during one operation. A _mapping() opens it for the new key,
      perhaps for the older one, and for the new key again: three flags say which of these
      can read it. `migrate` is the write of the migration, if there is one, and `store` the
      final one; each of them reads the file once more. */
  datatype StateIo = StateIo(marker: bool, legacy: bool, again: bool, migrate: S.Fate, store: S.Fate)

  ghost function LegacyOf(contents: map<string, Json>, render: Rendering): map<Key, Uuid> {
    Rekeyed(FilledSlots(Get(contents, LEGACY_KEY), render))
  }

  ghost function AfterStore(contents: map<string, Json>, m: map<Key, Uuid>, fate: S.Fate): map<string, Json> {
    if fate.Completes? then (if fate.readable then contents else map[])[MARKERS_KEY := Encoded(m)] else contents
  }

  /** The migration finds no new map, whether there is none or it could not be read, and
      something in the older one. */
  ghost predicate Migrates(contents: map<string, Json>, io: StateIo, render: Rendering) {
    && (io.marker ==> Get(contents, MARKERS_KEY) == Null)
    && io.legacy && FilledSlots(Get(contents, LEGACY_KEY), render) != map[]
  }

  ghost function AfterMigrate(contents: map<string, Json>, io: StateIo, render: Rendering): map<string, Json> {
    if Migrates(contents, io, render) then AfterStore(contents, LegacyOf(contents, render), io.migrate) else contents
  }

  /** What _mapping() returns. */
  ghost function ReadMap(contents: map<string, Json>, io: StateIo, render: Rendering): map<Key, Uuid> {
    if io.again then Normalised(Get(AfterMigrate(contents, io, render), MARKERS_KEY), render) else map[]
  }

  // ---- The file as the world of OverlayMarkers ----

  const NO_BOARD := Board([], map[], map[])

  ghost function BareWorld(contents: map<string, Json>, render: Rendering): World {
    World(MappingOf(contents, render), LegacyOf(contents, render), NO_BOARD, {})
  }

  /** The last opening shows the map in force; it does not when there is no new map and the
      migration did not write one either. */
  ghost predicate Sees(contents: map<string, Json>, io: StateIo, render: Rendering) {
    var after := AfterMigrate(contents, io, render);
    io.again && (Get(after, MARKERS_KEY) == Null ==> LegacyOf(after, render) == map[])
  }

  ghost function ReadOf(contents: map<string, Json>, io: StateIo, render: Rendering): MapRead {
    MapRead(Migrates(contents, io, render) && io.migrate.Completes?, !io.migrate.readable, Sees(contents, io, render))
  }

  function SavingOf(fate: S.Fate): Saving {
    if fate.Completes? then Saved(!fate.readable) else Unsaved
  }

  lemma RekeyedHas(filled: map<Slot, Uuid>, s: Slot)
    requires DistinctKeys(filled) && s in filled
    ensures KeyOf(s) in Rekeyed(filled) && Rekeyed(filled)[KeyOf(s)] == filled[s]
  {
    assert KeyOf(s) in KeysOf(filled.Keys);
    assert SlotOfKey(filled, KeyOf(s)) == s;
  }

  lemma RekeyedIsEmptyIff(filled: map<Slot, Uuid>)
    ensures Rekeyed(filled) == map[] <==> filled == map[]
  {
    if filled != map[] {
      var s :| s in filled;
      assert KeyOf(s) in Rekeyed(filled);
    } else {
      assert Rekeyed(filled).Keys == {};
    }
  }

  lemma RekeyedHasNoBlank(legacy: Json, render: Rendering)
    ensures NoBlank(Rekeyed(FilledSlots(legacy, render)))
  {}

  lemma NothingOlder(contents: map<string, Json>, render: Rendering)
    requires Get(contents, LEGACY_KEY) == Null
    ensures LegacyOf(contents, render) == map[]
  {
    RekeyedIsEmptyIff(FilledSlots(Null, render));
  }

  lemma NormalisedHasNoBlank(raw: Json, render: Rendering)
    ensures NoBlank(Normalised(raw, render))
    ensures raw == Null ==> Normalised(raw, render) == map[]
  {}

  /** A completed store is the map from then on, and leaves the older map only if its own read
      found the file. */
  lemma StoringSetsTheMap(contents: map<string, Json>, m: map<Key, Uuid>, fate: S.Fate, render: Rendering)
    requires NoBlank(m)
    ensures BareWorld(AfterStore(contents, m, fate), render) ==
            Save(BareWorld(contents, render), m, SavingOf(fate))
  {
    hide MappingOf, LegacyOf, NoBlank, Encoded;
    StoredMapReadsBack(contents, m, render);
    StoredMapReadsBack(map[], m, render);
    NothingOlder(map[][MARKERS_KEY := Encoded(m)], render);
    StoringKeepsTheOlderMap(contents, m, render);
  }

  lemma StoringKeepsTheOlderMap(contents: map<string, Json>, m: map<Key, Uuid>, render: Rendering)
    ensures LegacyOf(contents[MARKERS_KEY := Encoded(m)], render) == LegacyOf(contents, render)
  {
    assert Get(contents[MARKERS_KEY := Encoded(m)], LEGACY_KEY) == Get(contents, LEGACY_KEY);
  }

  lemma MigratingIs(contents: map<string, Json>, io: StateIo, render: Rendering)
    ensures BareWorld(AfterMigrate(contents, io, render), render) ==
            AfterRead(BareWorld(contents, render), ReadOf(contents, io, render))
  {
    RekeyedIsEmptyIff(FilledSlots(Get(contents, LEGACY_KEY), render));
    if Migrates(contents, io, render) {
      RekeyedHasNoBlank(Get(contents, LEGACY_KEY), render);
      StoringSetsTheMap(contents, LegacyOf(contents, render), io.migrate, render);
    }
  }

  /** A read of the map does to the file what OverlayMarkers says a read does, and returns the
      map in force, or nothing. */
  lemma {:induction false} ReadingIs(contents: map<string, Json>, io: StateIo, render: Rendering)
    ensures var after, read := BareWorld(AfterMigrate(contents, io, render), render), ReadOf(contents, io, render);
            && after == AfterRead(BareWorld(contents, render), read)
            && ReadMap(contents, io, render) == View(after, read.seen)
            && NoBlank(ReadMap(contents, io, render))
  {
    MigratingIs(contents, io, render);
    NormalisedHasNoBlank(Get(AfterMigrate(contents, io, render), MARKERS_KEY), render);
  }

  // ---- When a read replaces the map ----

  /** The new key exists but could not be read, the older map could and has something else,
      and the migration's write went through. */
  ghost predicate Overwrites(contents: map<string, Json>, io: StateIo, render: Rendering) {
    && Get(contents, MARKERS_KEY) != Null && !io.marker && io.legacy
    && FilledSlots(Get(contents, LEGACY_KEY), render) != map[] && io.migrate.Completes?
    && MappingOf(contents, render) != LegacyOf(contents, render)
  }

  /** A read of the map, by whatever operation, changes the map in force exactly then; the
      older map is in force from then on. */
  lemma {:induction false} OneReadReplacesTheMapIff(contents: map<string, Json>, io: StateIo, render: Rendering)
    ensures var before, after := MappingOf(contents, render), MappingOf(AfterMigrate(contents, io, render), render);
            && (after != before <==> Overwrites(contents, io, render))
            && (Overwrites(contents, io, render) ==> after == LegacyOf(contents, render))
  {
    ReadingIs(contents, io, render);
    RekeyedIsEmptyIff(FilledSlots(Get(contents, LEGACY_KEY), render));
  }

  // ---- The state file over a run ----

  /** What can happen to the state file: the owner reads its map, migrating if need be, and
      stores it with a key more, with some keys less, or empty; some other component sets
      a key of its own. */
  datatype FileEvent =
    | OwnerReads(io: StateIo)
    | OwnerDraws(key: Key, uuid: Uuid, io: StateIo)
    | OwnerDrops(keys: set<Key>, io: StateIo)
    | OwnerClears(io: StateIo)
    | OtherKeySet(name: string, value: Json, fate: S.Fate)

  ghost function FileStep(contents: map<string, Json>, e: FileEvent, render: Rendering): map<string, Json> {
    match e
    case OwnerReads(io) => AfterMigrate(contents, io, render)
    case OwnerDraws(key, uuid, io) =>
      AfterStore(AfterMigrate(contents, io, render), ReadMap(contents, io, render)[key := uuid], io.store)
    case OwnerDrops(keys, io) =>
      AfterStore(AfterMigrate(contents, io, render), ReadMap(contents, io, render) - keys, io.store)
    case OwnerClears(io) => AfterStore(AfterMigrate(contents, io, render), map[], io.store)
    case OtherKeySet(name, value, fate) =>
      if fate.Completes? then (if fate.readable then contents else map[])[name := value] else contents
  }

  ghost function FileRun(contents: map<string, Json>, events: seq<FileEvent>, render: Rendering): map<string, Json> {
    if events == [] then contents
    else FileStep(FileRun(contents, events[..|events| - 1], render), events[|events| - 1], render)
  }

  /** The two keys are the owner's own, and the board gives out no blank uuid. */
  predicate Proper(e: FileEvent) {
    && (e.OtherKeySet? ==> e.name != MARKERS_KEY && e.name != LEGACY_KEY)
    && (e.OwnerDraws? ==> e.uuid != "")
  }

  ghost predicate AllProper(events: seq<FileEvent>) { forall e :: e in events ==> Proper(e) }

  /** The same event as OverlayMarkers sees it, on the map and the older map only. */
  ghost function BareStep(w: World, e: FileEvent, read: MapRead): World {
    var now := AfterRead(w, read);
    match e
    case OwnerReads(_) => now
    case OwnerDraws(key, uuid, io) => Save(now, View(now, read.seen)[key := uuid], SavingOf(io.store))
    case OwnerDrops(keys, io) => Save(now, View(now, read.seen) - keys, SavingOf(io.store))
    case OwnerClears(io) => Save(now, map[], SavingOf(io.store))
    case OtherKeySet(_, _, fate) => Step(w, OthersSet(fate == S.Completes(false)))
  }

  ghost function ReadOfEvent(contents: map<string, Json>, e: FileEvent, render: Rendering): MapRead {
    if e.OtherKeySet? then UNREAD else ReadOf(contents, e.io, render)
  }

  lemma FileStepIs(contents: map<string, Json>, e: FileEvent, render: Rendering)
    requires Proper(e)
    ensures BareWorld(FileStep(contents, e, render), render) ==
            BareStep(BareWorld(contents, render), e, ReadOfEvent(contents, e, render))
  {
    if e.OtherKeySet? {
      OtherSetIs(contents, e, render);
    } else {
      var at, read := AfterMigrate(contents, e.io, render), ReadMap(contents, e.io, render);
      ReadingIs(contents, e.io, render);
      match e
      case OwnerReads(_) =>
      case OwnerDraws(key, uuid, io) => StoringSetsTheMap(at, read[key := uuid], io.store, render);
      case OwnerDrops(keys, io) => StoringSetsTheMap(at, read - keys, io.store, render);
      case OwnerClears(io) => StoringSetsTheMap(at, map[], io.store, render);
    }
  }

  lemma OtherSetIs(contents: map<string, Json>, e: FileEvent, render: Rendering)
    requires e.OtherKeySet? && Proper(e)
    ensures BareWorld(FileStep(contents, e, render), render) ==
            Step(BareWorld(contents, render), OthersSet(e.fate == S.Completes(false)))
  {
    var wipes, after := e.fate == S.Completes(false), FileStep(contents, e, render);
    SettingIsAStep(BareWorld(contents, render), wipes);
    if wipes {
      NothingOlder(after, render);
    } else {
      assert Get(after, MARKERS_KEY) == Get(contents, MARKERS_KEY);
      assert Get(after, LEGACY_KEY) == Get(contents, LEGACY_KEY);
    }
  }

  lemma SettingIsAStep(w: World, wipes: bool)
    ensures Step(w, OthersSet(wipes)) == if wipes then w.(mapping := map[], legacy := map[]) else w
  {}

  // ---- Where the entries come from ----

  /** The event records this very shape. */
  predicate Draws(e: FileEvent, key: Key, uuid: Uuid) { e.OwnerDraws? && e.key == key && e.uuid == uuid }

  ghost predicate DrawnIn(events: seq<FileEvent>, key: Key, uuid: Uuid) {
    events != [] && (DrawnIn(events[..|events| - 1], key, uuid) || Draws(events[|events| - 1], key, uuid))
  }

  ghost predicate OverwritesAt(contents: map<string, Json>, e: FileEvent, render: Rendering) {
    !e.OtherKeySet? && Overwrites(contents, e.io, render)
  }

  /** Some read of the run replaces the map. */
  ghost predicate OverwrittenIn(contents: map<string, Json>, events: seq<FileEvent>, render: Rendering) {
    && events != []
    && var front := events[..|events| - 1];
       OverwrittenIn(contents, front, render) ||
       OverwritesAt(FileRun(contents, front, render), events[|events| - 1], render)
  }

  /** At every event of the run that reads the map, the map in force is the one before. */
  ghost predicate ReadsKeepTheMap(contents: map<string, Json>, events: seq<FileEvent>, render: Rendering) {
    events == [] ||
    (var front, e := events[..|events| - 1], events[|events| - 1];
     var at := FileRun(contents, front, render);
     && ReadsKeepTheMap(contents, front, render)
     && (!e.OtherKeySet? ==> MappingOf(AfterMigrate(at, e.io, render), render) == MappingOf(at, render)))
  }

  /** Over any run no read ever replaces the map in force exactly when at none of them the new
      key exists and cannot be read, while an older map that differs can be read and written. */
  lemma {:induction false} EveryReadKeepsTheMapIff(contents: map<string, Json>, events: seq<FileEvent>,
      render: Rendering)
    ensures ReadsKeepTheMap(contents, events, render) <==> !OverwrittenIn(contents, events, render)
  {
    if events != [] {
      var front, e := events[..|events| - 1], events[|events| - 1];
      EveryReadKeepsTheMapIff(contents, front, render);
      if !e.OtherKeySet? {
        OneReadReplacesTheMapIff(FileRun(contents, front, render), e.io, render);
      }
    }
  }

  predicate HasEntry(m: map<Key, Uuid>, k: Key, u: Uuid) { k in m && m[k] == u }

  lemma StepInventsNothing(w: World, e: FileEvent, read: MapRead, k: Key, u: Uuid)
    ensures HasEntry(BareStep(w, e, read).mapping, k, u) ==>
              HasEntry(w.mapping, k, u) || HasEntry(AfterRead(w, read).mapping, k, u) || Draws(e, k, u)
    ensures BareStep(w, e, read).legacy == w.legacy || BareStep(w, e, read).legacy == map[]
  {
    if e.OtherKeySet? {
      SettingIsAStep(w, e.fate == S.Completes(false));
    }
  }

  /** After one event, whatever fails, every entry of the map was there before, or has just been
      drawn, or is one of an older map that a read brought back; and the older map is as it
      was, or gone. */
  lemma FileStepInventsNothing(contents: map<string, Json>, e: FileEvent, k: Key, u: Uuid, render: Rendering)
    requires Proper(e)
    ensures HasEntry(MappingOf(FileStep(contents, e, render), render), k, u) ==>
              || HasEntry(MappingOf(contents, render), k, u) || Draws(e, k, u)
              || (OverwritesAt(contents, e, render) && HasEntry(LegacyOf(contents, render), k, u))
    ensures var older := LegacyOf(FileStep(contents, e, render), render);
            older == LegacyOf(contents, render) || older == map[]
  {
    hide FileStep, ReadOf, AfterMigrate, MappingOf, LegacyOf, BareStep;
    FileStepIs(contents, e, render);
    StepInventsNothing(BareWorld(contents, render), e, ReadOfEvent(contents, e, render), k, u);
    if !e.OtherKeySet? {
      OneReadReplacesTheMapIff(contents, e.io, render);
      MigratingIs(contents, e.io, render);
    }
  }

  /** Over any run of owner operations and other components' sets, with any of the openings and
      writes failing, every entry of the map was in force at the start, or has been drawn
      since, or is one of the older map and some read of the run replaced the map by it. */
  lemma {:induction false} EntriesComeFrom(contents: map<string, Json>, events: seq<FileEvent>, k: Key, u: Uuid,
      render: Rendering)
    requires AllProper(events)
    ensures HasEntry(MappingOf(FileRun(contents, events, render), render), k, u) ==>
              || HasEntry(MappingOf(contents, render), k, u) || DrawnIn(events, k, u)
              || (OverwrittenIn(contents, events, render) && HasEntry(LegacyOf(contents, render), k, u))
    ensures var older := LegacyOf(FileRun(contents, events, render), render);
            older == LegacyOf(contents, render) || older == map[]
  {
    hide FileStep, MappingOf, LegacyOf, Overwrites;
    if events != [] {
      var front, e := events[..|events| - 1], events[|events| - 1];
      EntriesComeFrom(contents, front, k, u, render);
      FileStepInventsNothing(FileRun(contents, front, render), e, k, u, render);
    }
  }

  lemma ClearingLeavesNothing(contents: map<string, Json>, io: StateIo, render: Rendering)
    requires io.store.Completes?
    ensures var cleared := FileStep(contents, OwnerClears(io), render);
            && MappingOf(cleared, render) == map[]
            && (LegacyOf(cleared, render) == LegacyOf(contents, render) || LegacyOf(cleared, render) == map[])
  {
    hide FileStep, ReadOf, MappingOf, LegacyOf;
    FileStepIs(contents, OwnerClears(io), render);
  }

  /** In particular, after forget_all on any state file whatever, no entry that is not drawn anew
      comes back, unless a read replaces the map by the older one, which forget_all leaves. */
  lemma AfterForgettingAllOnlyTheseReturn(contents: map<string, Json>, io: StateIo, events: seq<FileEvent>,
      k: Key, u: Uuid, render: Rendering)
    requires io.store.Completes? && AllProper(events)
    ensures var cleared := FileStep(contents, OwnerClears(io), render);
            HasEntry(MappingOf(FileRun(cleared, events, render), render), k, u) ==>
              || DrawnIn(events, k, u)
              || (OverwrittenIn(cleared, events, render) && HasEntry(LegacyOf(contents, render), k, u))
  {
    hide FileStep, MappingOf, LegacyOf, Overwrites;
    EntriesComeFrom(FileStep(contents, OwnerClears(io), render), events, k, u, render);
    ClearingLeavesNothing(contents, io, render);
  }

  const WELL := StateIo(true, true, true, S.Completes(true), S.Completes(true))

  /** And then it does: with an older map around, a forget_all in which everything goes well and
      a look at the map whose first opening alone fails bring every older entry back. */
  lemma {:induction false} AClearedEntryComesBack(contents: map<string, Json>, s: Slot, render: Rendering)
    requires SlashFreeCells(Get(contents, LEGACY_KEY)) && Filled(Get(contents, LEGACY_KEY), s)
    ensures var cleared := FileStep(contents, OwnerClears(WELL), render);
            var looked := FileStep(cleared, OwnerReads(WELL.(marker := false)), render);
            && MappingOf(cleared, render) == map[]
            && HasEntry(MappingOf(looked, render), KeyOf(s), PyStr(ValueOf(Get(contents, LEGACY_KEY), s), render))
  {
    var legacy := Get(contents, LEGACY_KEY);
    var cleared := FileStep(contents, OwnerClears(WELL), render);
    FileStepIs(contents, OwnerClears(WELL), render);
    assert Get(cleared, LEGACY_KEY) == legacy by {
      assert Get(AfterMigrate(contents, WELL, render), LEGACY_KEY) == legacy;
    }
    SlashFreeSlotsHaveDistinctKeys(legacy, render);
    RekeyedHas(FilledSlots(legacy, render), s);
    OneReadReplacesTheMapIff(cleared, WELL.(marker := false), render);
  }
}
