/** The owner itself (class OverlayMarkerOwner of gui/overlay_markers.py): each method
    does to the state file and to the live board exactly what the function of the same
    operation in OverlayMarkers says. */
module OverlayOwner {
  import opened Wrappers
  import opened JsonValues
  import opened OverlayKeys
  import opened BoardOverlay
  import opened OverlayFile
  import opened OverlayMarkers
  import opened Sequences
  import M = OverlayMarkers
  import S = Settings

  /** How the board takes the creation of a shape. */
  datatype CreateIo = Creates(uuid: Uuid) | CreatesButRepaintFails(uuid: Uuid) | CreateFails

  /** What reconcile() returns; or looking the layer up raised, which it does not catch. */
  datatype Report = Skipped | Raised | Reconciled(dropped: nat, orphans: nat)

  // ---- Counting orphan spots ----

  /** The positions of the shapes without a centre. */
  ghost function Centreless(orphans: seq<OverlayShape>): set<nat> {
    set i: nat | i < |orphans| && orphans[i].center.None?
  }

  predicate Apart(spots: seq<Point>, tol: real) {
    forall i, j :: 0 <= i < j < |spots| ==> !Near(spots[i], spots[j], tol)
  }

  /** The point is one of the spots, or one of them is within tolerance of it. */
  ghost predicate NearASpot(c: Point, spots: seq<Point>, tol: real) {
    exists j :: 0 <= j < |spots| && (spots[j] == c || Near(spots[j], c, tol))
  }

  ghost predicate Covered(orphans: seq<OverlayShape>, spots: seq<Point>, tol: real) {
    forall i :: 0 <= i < |orphans| && orphans[i].center.Some? ==> NearASpot(orphans[i].center.value, spots, tol)
  }

  ghost predicate IsACentre(p: Point, orphans: seq<OverlayShape>) {
    exists i :: 0 <= i < |orphans| && orphans[i].center == Some(p)
  }

  ghost predicate AtCentres(orphans: seq<OverlayShape>, spots: seq<Point>) {
    forall j :: 0 <= j < |spots| ==> IsACentre(spots[j], orphans)
  }

  /** The count is the shapes without a centre and some spots, which lie at centres, pairwise farther
      apart than the tolerance, and cover every centre. */
  ghost predicate CountsSpots(count: nat, orphans: seq<OverlayShape>, spots: seq<Point>, tol: real) {
    && count == |Centreless(orphans)| + |spots|
    && Apart(spots, tol) && Covered(orphans, spots, tol) && AtCentres(orphans, spots)
  }

  lemma CentrelessOneMore(orphans: seq<OverlayShape>, s: OverlayShape)
    ensures |Centreless(orphans + [s])| == |Centreless(orphans)| + if s.center.None? then 1 else 0
  {
    var n: nat := |orphans|;
    assert Centreless(orphans + [s]) == Centreless(orphans) + if s.center.None? then {n} else {};
  }

  lemma NearASpotStays(c: Point, spots: seq<Point>, spot: Point, tol: real)
    ensures NearASpot(c, spots, tol) ==> NearASpot(c, spots + [spot], tol)
    ensures NearASpot(spot, spots + [spot], tol)
  {
    var longer := spots + [spot];
    assert longer[|spots|] == spot;
    if j :| 0 <= j < |spots| && (spots[j] == c || Near(spots[j], c, tol)) {
      assert longer[j] == spots[j];
    }
  }

  lemma CentreStays(p: Point, orphans: seq<OverlayShape>, s: OverlayShape)
    ensures IsACentre(p, orphans) ==> IsACentre(p, orphans + [s])
    ensures s.center.Some? ==> IsACentre(s.center.value, orphans + [s])
  {
    var more := orphans + [s];
    assert more[|orphans|] == s;
    if i :| 0 <= i < |orphans| && orphans[i].center == Some(p) {
      assert more[i] == orphans[i];
    }
  }

  lemma OneMoreOrphan(count: nat, orphans: seq<OverlayShape>, spots: seq<Point>, tol: real, s: OverlayShape)
    requires CountsSpots(count, orphans, spots, tol)
    ensures s.center.None? ==> CountsSpots(count + 1, orphans + [s], spots, tol)
    ensures s.center.Some? ==>
              if exists q :: q in spots && Near(q, s.center.value, tol)
              then CountsSpots(count, orphans + [s], spots, tol)
              else CountsSpots(count + 1, orphans + [s], spots + [s.center.value], tol)
  {
    hide Centreless, Near, NearASpot, IsACentre;
    CentrelessOneMore(orphans, s);
    forall p ensures IsACentre(p, orphans) ==> IsACentre(p, orphans + [s]) {
      CentreStays(p, orphans, s);
    }
    if s.center.Some? {
      var c := s.center.value;
      CentreStays(c, orphans, s);
      if q :| q in spots && Near(q, c, tol) {
        NearOneIsNearASpot(q, c, spots, tol);
      }
      forall p ensures (NearASpot(p, spots, tol) ==> NearASpot(p, spots + [c], tol)) && NearASpot(c, spots + [c], tol) {
        NearASpotStays(p, spots, c, tol);
      }
    }
  }

  lemma NearOneIsNearASpot(q: Point, c: Point, spots: seq<Point>, tol: real)
    requires q in spots && Near(q, c, tol)
    ensures NearASpot(c, spots, tol)
  {
    var j :| 0 <= j < |spots| && spots[j] == q;
  }

  lemma NothingToCount(tol: real)
    ensures CountsSpots(0, [], [], tol)
  {
    assert Centreless([]) == {};
  }

  /** _distinct_orphan_positions: a shape without a centre counts by itself, a circle
      counts unless it is within tolerance (in both coordinates) of a counted one. */
  method DistinctOrphanPositions(orphans: seq<OverlayShape>, tol: real) returns (count: nat, spots: seq<Point>)
    ensures CountsSpots(count, orphans, spots, tol)
  {
    hide CountsSpots, Near;
    count, spots := 0, [];
    NothingToCount(tol);
    assert orphans[..0] == [];
    for n := 0 to |orphans|
      invariant CountsSpots(count, orphans[..n], spots, tol)
    {
      OneMoreOrphan(count, orphans[..n], spots, tol, orphans[n]);
      assert orphans[..n] + [orphans[n]] == orphans[..n + 1];
      if orphans[n].center.None? {
        count := count + 1;
      } else {
        var c := orphans[n].center.value;
        if !exists p :: p in spots && Near(p, c, tol) {
          spots := spots + [c];
          count := count + 1;
        }
      }
    }
    assert orphans[..|orphans|] == orphans;
  }

  // ---- Popping keys ----

  lemma UuidsOfOneMore(view: map<Key, Uuid>, keys: set<Key>, key: Key)
    ensures Uuids(view, keys + {key}) == Uuids(view, keys) + OwnShape(view, key)
  {}

  lemma NoUuidsOfNoKeys(view: map<Key, Uuid>, keys: set<Key>)
    ensures Uuids(view, keys) == {} <==> keys * view.Keys == {}
  {
    if keys * view.Keys != {} {
      var k :| k in keys * view.Keys;
      assert view[k] in Uuids(view, keys);
    } else {
      forall k | k in keys ensures k !in view {
        assert k in view ==> k in keys * view.Keys;
      }
    }
  }

  lemma WithoutNothing(board: Board, gone: set<Uuid>)
    ensures Without(board, {} * gone) == board
  {
    assert board.shapes - {} == board.shapes;
  }

  lemma UuidsOfOneKey(view: map<Key, Uuid>, key: Key)
    ensures Uuids(view, {key}) == OwnShape(view, key)
    ensures key in view ==> Elements([view[key]]) == OwnShape(view, key)
  {}

  lemma ForgettingOneKey(w: World, view: map<Key, Uuid>, key: Key, saving: Saving)
    ensures Forget(w, view, {key}, saving) == if key in view then Save(w, view - {key}, saving) else w
  {
    if key in view {
      assert key in {key} * view.Keys;
    } else {
      assert {key} * view.Keys == {};
    }
  }

  lemma ForgettingAScope(w: World, view: map<Key, Uuid>, scope: Key, uuids: seq<Uuid>, saving: Saving)
    requires Elements(uuids) == Uuids(view, KeysUnder(view, scope))
    ensures uuids == [] <==> KeysUnder(view, scope) == {}
    ensures Forget(w, view, KeysUnder(view, scope), saving) ==
            if uuids != [] then Save(w, view - KeysUnder(view, scope), saving) else w
  {
    var keys := KeysUnder(view, scope);
    assert keys * view.Keys == keys;
    NoUuidsOfNoKeys(view, keys);
    NoElements(uuids);
  }

  /** The map gives the shape to one of these keys. */
  ghost predicate OwnedIn(view: map<Key, Uuid>, keys: iset<Key>, u: Uuid) {
    exists k :: k in view && k in keys && view[k] == u
  }

  lemma ViewOfASeenMap(w: World)
    ensures View(w, true) == w.mapping
  {}

  lemma UnderTheScope(view: map<Key, Uuid>, scope: Key)
    ensures forall k :: k in view ==> (k in KeysUnder(view, scope) <==> k in Under(scope))
  {
    forall k | k in view ensures k in KeysUnder(view, scope) <==> k in Under(scope) {
      InScopeIff(k, scope);
    }
  }

  lemma UuidsAreOwned(view: map<Key, Uuid>, keys: set<Key>, wanted: iset<Key>)
    requires forall k :: k in view ==> (k in keys <==> k in wanted)
    ensures forall u :: u in Uuids(view, keys) <==> OwnedIn(view, wanted, u)
  {
    forall u ensures u in Uuids(view, keys) <==> OwnedIn(view, wanted, u) {
      if u in Uuids(view, keys) {
        var k := UuidHasItsKey(view, keys, u);
      }
    }
  }

  lemma AllUuids(view: map<Key, Uuid>)
    ensures Uuids(view, view.Keys) == view.Values
  {}

  lemma LiveIsWithoutTheDead(view: map<Key, Uuid>, board: Board, layer: Layer)
    ensures var live := LiveKeys(view, board, layer); live == view - (view.Keys - live.Keys)
  {}

  lemma ElementsOfAppend<T>(s: seq<T>, x: T)
    ensures Elements(s + [x]) == Elements(s) + {x}
  {}

  lemma NoElements<T>(s: seq<T>)
    ensures Elements(s) == {} <==> s == []
  {
    if s != [] { assert s[0] in Elements(s); }
  }

  lemma RemovedOneMore(view: map<Key, Uuid>, keys: set<Key>, key: Key)
    ensures (view - keys) - {key} == view - (keys + {key})
  {}

  /** The loop of forget_scope and _remove_keys: pop each key, collect the uuids. A key
      the map does not have is passed over. */
  method PopAll(view: map<Key, Uuid>, keys: set<Key>) returns (rest: map<Key, Uuid>, uuids: seq<Uuid>)
    ensures rest == view - keys
    ensures Elements(uuids) == Uuids(view, keys)
  {
    rest, uuids := view, [];
    var left := keys;
    ghost var popped: set<Key> := {};
    while left != {}
      invariant popped == keys - left && left <= keys
      invariant rest == view - popped && Elements(uuids) == Uuids(view, popped)
      decreases |left|
    {
      var key :| key in left;
      UuidsOfOneMore(view, popped, key);
      RemovedOneMore(view, popped, key);
      if key in rest {
        ElementsOfAppend(uuids, rest[key]);
        uuids := uuids + [rest[key]];
      }
      rest := rest - {key};
      popped, left := popped + {key}, left - {key};
    }
  }

  // ---- Writing the migrated map ----

  lemma StoringKeepsLegacySlashFree(contents: map<string, Json>, m: map<Key, Uuid>, fate: S.Fate)
    requires SlashFreeCells(Get(contents, LEGACY_KEY))
    ensures SlashFreeCells(Get(AfterStore(contents, m, fate), LEGACY_KEY))
  {
    var legacy := Get(AfterStore(contents, m, fate), LEGACY_KEY);
    assert legacy == Get(contents, LEGACY_KEY) || legacy == Null;
  }

  lemma {:induction false} MigrationIsRekeyed(legacy: Json, migrated: map<Key, Uuid>, render: Rendering)
    requires SlashFreeCells(legacy) && Carries(migrated, FilledSlots(legacy, render))
    ensures migrated == Rekeyed(FilledSlots(legacy, render))
    ensures |migrated| == |FilledSlots(legacy, render)|
    ensures migrated == map[] <==> FilledSlots(legacy, render) == map[]
  {
    SlashFreeSlotsHaveDistinctKeys(legacy, render);
    CarriesIsRekeyed(migrated, FilledSlots(legacy, render));
  }

  lemma NothingFilledInNothing(render: Rendering)
    ensures FilledSlots(Null, render) == map[]
  {}

  /** What the migration has in hand, once it did not find the new key. */
  lemma WhatMigratingWrites(contents: map<string, Json>, legacy: Json, migrated: map<Key, Uuid>, io: StateIo,
      render: Rendering)
    requires io.marker ==> Get(contents, MARKERS_KEY) == Null
    requires legacy == if io.legacy then Get(contents, LEGACY_KEY) else Null
    requires migrated == Rekeyed(FilledSlots(legacy, render))
    requires migrated == map[] <==> FilledSlots(legacy, render) == map[]
    ensures Migrates(contents, io, render) <==> migrated != map[]
    ensures AfterMigrate(contents, io, render) ==
            if migrated == map[] then contents else AfterStore(contents, migrated, io.migrate)
  {
    NothingFilledInNothing(render);
  }

  // ---- The events of these operations ----

  lemma DroppingAKeyIs(w: World, key: Key, withBoard: bool, fate: ForgetFate)
    ensures M.Step(w, DropKey(key, withBoard, fate)) == M.RemoveKey(w, key, withBoard, fate)
  {}

  lemma DroppingAScopeIs(w: World, scope: Key, withBoard: bool, fate: ForgetFate)
    ensures M.Step(w, DropScope(scope, withBoard, fate)) == M.RemoveScope(w, scope, withBoard, fate)
  {}

  lemma DroppingANamespaceIs(w: World, namespace: Key, withBoard: bool, fate: ForgetFate)
    ensures M.Step(w, DropNamespace(namespace, withBoard, fate)) == M.RemoveNamespace(w, namespace, withBoard, fate)
  {}

  lemma DroppingAllIs(w: World, withBoard: bool, fate: ForgetFate)
    ensures M.Step(w, DropAll(withBoard, fate)) == M.ForgetAll(w, withBoard, fate)
  {}

  lemma DrawingAMarkerIs(w: World, key: Key, at: Point, layerName: string, radius: real, stroke: real, fate: DrawFate)
    ensures M.Step(w, DrawMarker(key, at, layerName, radius, stroke, fate)) ==
            M.EnsureMarker(w, key, at, layerName, radius, stroke, fate)
  {}

  lemma DrawingABboxIs(w: World, key: Key, a: Point, b: Point, layerName: string, stroke: real, fate: DrawFate)
    ensures M.Step(w, DrawBbox(key, a, b, layerName, stroke, fate)) ==
            M.EnsureBbox(w, key, a, b, layerName, stroke, fate)
  {}

  lemma ReconcilingIs(w: World, layerName: string, fate: ReconcileFate)
    ensures M.Step(w, Reconciling(layerName, fate)) == M.Reconcile(w, layerName, fate)
  {}

  // ---- The owner ----

  /** No two keys share a shape, in the map or in the older one; and, with a board, both and the
      board hold only uuids the board has given out, those of shapes deleted long ago included. */
  ghost predicate SaneWorld(w: World, hasBoard: bool) {
    && Injective(w.mapping) && NoBlank(w.mapping) && Injective(w.legacy) && NoBlank(w.legacy)
    && (hasBoard ==> Inv(w))
  }

  predicate NeedsNoBoard(e: M.Event) {
    e.DropKey? || e.DropScope? || e.DropNamespace? || e.DropAll? || e.Looking?
  }

  /** A world in which the board has given out just the uuids of the two maps. */
  ghost function AsIfIssued(w: World): World {
    World(w.mapping, w.legacy, NO_BOARD, w.mapping.Values + w.legacy.Values)
  }

  predicate SameMaps(w: World, at: World) { w.mapping == at.mapping && w.legacy == at.legacy }

  lemma IssuedDoesNotMatterToAKey(w: World, key: Key, withBoard: bool, fate: ForgetFate)
    ensures SameMaps(M.RemoveKey(w, key, withBoard, fate), M.RemoveKey(AsIfIssued(w), key, withBoard, fate))
  {}

  lemma IssuedDoesNotMatterToAScope(w: World, scope: Key, withBoard: bool, fate: ForgetFate)
    ensures SameMaps(M.RemoveScope(w, scope, withBoard, fate), M.RemoveScope(AsIfIssued(w), scope, withBoard, fate))
  {}

  lemma IssuedDoesNotMatterToANamespace(w: World, namespace: Key, withBoard: bool, fate: ForgetFate)
    ensures SameMaps(M.RemoveNamespace(w, namespace, withBoard, fate),
                     M.RemoveNamespace(AsIfIssued(w), namespace, withBoard, fate))
  {
    hide AfterRead;
    var at := AsIfIssued(w);
    IssuedDoesNotMatterToARead(w, at, fate.read);
    IssuedDoesNotMatterToARead(AfterRead(w, fate.read), AfterRead(at, fate.read), fate.again);
  }

  lemma IssuedDoesNotMatterToARead(w: World, at: World, read: MapRead)
    requires SameMaps(w, at)
    ensures SameMaps(AfterRead(w, read), AfterRead(at, read))
  {}

  lemma IssuedDoesNotMatter(w: World, e: M.Event)
    requires NeedsNoBoard(e)
    ensures SameMaps(M.Step(w, e), M.Step(AsIfIssued(w), e))
  {
    hide M.RemoveKey, M.RemoveScope, M.RemoveNamespace, M.EnsureMarker, M.EnsureBbox, M.Reconcile;
    match e
    case DropKey(key, withBoard, fate) => IssuedDoesNotMatterToAKey(w, key, withBoard, fate);
    case DropScope(scope, withBoard, fate) => IssuedDoesNotMatterToAScope(w, scope, withBoard, fate);
    case DropNamespace(namespace, withBoard, fate) => IssuedDoesNotMatterToANamespace(w, namespace, withBoard, fate);
    case DropAll(withBoard, fate) =>
    case Looking(_) =>
  }

  lemma StepKeepsSane(w: World, e: M.Event, hasBoard: bool)
    requires SaneWorld(w, hasBoard) && M.Possible(w, e)
    requires !hasBoard ==> NeedsNoBoard(e)
    ensures SaneWorld(M.Step(w, e), hasBoard)
  {
    if hasBoard {
      M.StepKeepsInv(w, e);
    } else {
      IssuedDoesNotMatter(w, e);
      M.StepKeepsInv(AsIfIssued(w), e);
    }
  }

  class OverlayMarkerOwner {
    const state: S.Settings
    const render: Rendering

    constructor (state: S.Settings, render: Rendering)
      ensures this.state == state && this.render == render
    {
      this.state, this.render := state, render;
    }

    /** The state file holds a dictionary, and the cells of the older map, if it is
        still there, have slash-free names (they are slugs). */
    ghost predicate Valid()
      reads this, state
    {
      state.Valid() && SlashFreeCells(Get(state.Contents(), LEGACY_KEY))
    }

    /** The owner's world without a board. */
    ghost function Bare(): World
      reads this, state
    {
      BareWorld(state.Contents(), render)
    }

    /** The owner's world with this adapter, or without any. */
    ghost function WorldWith(adapter: BoardAdapter?): World
      reads this, state, adapter
    {
      if adapter == null then Bare() else Bare().(board := adapter.board, issued := adapter.issued)
    }

    ghost predicate Sane(adapter: BoardAdapter?)
      reads this, state, adapter
    {
      SaneWorld(WorldWith(adapter), adapter != null)
    }

    ghost method StaysSane(w: World, e: M.Event, adapter: BoardAdapter?)
      requires WorldWith(adapter) == M.Step(w, e) && M.Possible(w, e)
      requires adapter == null ==> NeedsNoBoard(e)
      ensures SaneWorld(w, adapter != null) ==> Sane(adapter)
    {
      if SaneWorld(w, adapter != null) {
        StepKeepsSane(w, e, adapter != null);
      }
    }

    /** What _mapping() returns. */
    ghost function Read(io: StateIo): map<Key, Uuid>
      reads this, state
    {
      ReadMap(state.Contents(), io, render)
    }

    /** How _mapping() goes. */
    ghost function ReadFate(io: StateIo): MapRead
      reads this, state
    {
      ReadOf(state.Contents(), io, render)
    }

    lemma ReadIs(io: StateIo)
      ensures Read(io) == View(AfterRead(Bare(), ReadFate(io)), ReadFate(io).seen) && NoBlank(Read(io))
    {
      ReadingIs(state.Contents(), io, render);
    }

    /** The state file after this event. */
    ghost function File(e: FileEvent): map<string, Json>
      reads this, state
    {
      FileStep(state.Contents(), e, render)
    }

    /** Of the map as this read left it, exactly these keys are forgotten, if it was seen and the rest
        written; and with a board exactly their shapes are gone that it let go. */
    ghost predicate Loses(w: World, read: MapRead, keys: iset<Key>, store: S.Fate, adapter: BoardAdapter?,
                          gone: set<Uuid>)
      reads this, state, adapter
    {
      var now := AfterRead(w, read);
      && Less(now.mapping, Bare().mapping, if read.seen && store.Completes? then keys else NoKeys())
      && (adapter != null ==> ShapesGo(View(now, read.seen), keys, w.board, adapter.board, gone))
    }

    ghost function ForgetFateOf(io: StateIo, gone: set<Uuid>): ForgetFate
      reads this, state
    {
      ForgetFate(ReadFate(io), UNREAD, SavingOf(io.store), gone)
    }

    /** migrate_legacy_state: writes when it does not find the new key and finds something under
        the older one. Returns how many keys were written. */
    method Migrate(io: StateIo) returns (written: nat)
      requires Valid()
      modifies state
      ensures Valid() && state.Contents() == AfterMigrate(old(state.Contents()), io, render)
      ensures written == if old(Migrates(state.Contents(), io, render)) && io.migrate.Completes? then
                           |FilledSlots(Get(old(state.Contents()), LEGACY_KEY), render)| else 0
    {
      var raw := state.Get(MARKERS_KEY, Null, io.marker);
      if raw != Success(Null) {
        return 0;
      }
      var legacy := state.Get(LEGACY_KEY, Null, io.legacy);
      var migrated := MigrateLegacy(legacy.value, render);
      MigrationIsRekeyed(legacy.value, migrated, render);
      WhatMigratingWrites(state.Contents(), legacy.value, migrated, io, render);
      written := WriteMigrated(migrated, io);
    }

    /** state.set(OVERLAY_MARKERS_KEY, mapping). */
    method SetMap(m: map<Key, Uuid>, fate: S.Fate)
      requires Valid()
      modifies state
      ensures Valid() && state.Contents() == AfterStore(old(state.Contents()), m, fate)
    {
      ghost var before := state.Contents();
      StoringKeepsLegacySlashFree(before, m, fate);
      var r := state.Set(MARKERS_KEY, Encoded(m), fate);
      assert state.Contents() == AfterStore(before, m, fate);
    }

    /** The tail of migrate_legacy_state: nothing is written for nothing. */
    method WriteMigrated(migrated: map<Key, Uuid>, io: StateIo) returns (written: nat)
      requires Valid()
      modifies state
      ensures Valid()
      ensures state.Contents() ==
              if migrated == map[] then old(state.Contents())
              else AfterStore(old(state.Contents()), migrated, io.migrate)
      ensures written == if migrated != map[] && io.migrate.Completes? then |migrated| else 0
    {
      if migrated == map[] {
        return 0;
      }
      SetMap(migrated, io.migrate);
      written := if io.migrate.Completes? then |migrated| else 0;
    }

    /** _mapping(): migrate if need be, then read. */
    method Mapping(io: StateIo) returns (m: map<Key, Uuid>)
      requires Valid()
      modifies state
      ensures Valid() && Bare() == AfterRead(old(Bare()), old(ReadFate(io)))
      ensures m == old(Read(io)) == View(Bare(), old(ReadFate(io)).seen) && NoBlank(m)
      ensures state.Contents() == AfterMigrate(old(state.Contents()), io, render)
    {
      ReadingIs(state.Contents(), io, render);
      var written := Migrate(io);
      var raw := state.Get(MARKERS_KEY, Obj(map[]), io.again);
      m := if raw.Success? then Normalised(raw.value, render) else map[];
    }

    /** _store(): best effort. */
    method Store(mapping: map<Key, Uuid>, fate: S.Fate)
      requires Valid() && NoBlank(mapping)
      modifies state
      ensures Valid() && Bare() == Save(old(Bare()), mapping, SavingOf(fate))
      ensures state.Contents() == AfterStore(old(state.Contents()), mapping, fate)
    {
      StoringSetsTheMap(state.Contents(), mapping, fate, render);
      SetMap(mapping, fate);
    }

    // ---- Forgetting and removing ----

    /** forget_key: pop the key, tell its uuid, leave the board alone. */
    method ForgetKey(key: Key, io: StateIo) returns (uuid: Option<Uuid>)
      requires Valid()
      modifies state
      ensures Valid()
      ensures Bare() == Forget(AfterRead(old(Bare()), old(ReadFate(io))), old(Read(io)), {key}, SavingOf(io.store))
      ensures Less(AfterRead(old(Bare()), old(ReadFate(io))).mapping, Bare().mapping,
                   if old(ReadFate(io)).seen && io.store.Completes? then iset{key} else NoKeys())
      ensures state.Contents() == old(File(if key in Read(io) then OwnerDrops({key}, io) else OwnerReads(io)))
      ensures uuid == if key in old(Read(io)) then Some(old(Read(io))[key]) else None
    {
      hide BareWorld, ReadMap, ReadOf, AfterMigrate, AfterStore, Less, Under;
      var mapping := Mapping(io);
      ForgettingIsLess(Bare(), old(ReadFate(io)).seen, {key}, SavingOf(io.store), iset{key});
      ForgettingOneKey(Bare(), mapping, key, SavingOf(io.store));
      if key !in mapping {
        return None;
      }
      Store(mapping - {key}, io.store);
      uuid := Some(mapping[key]);
    }

    /** What dropping a scope does to the state file: nothing is stored for nothing. */
    ghost function ScopeDrop(scope: Key, io: StateIo): FileEvent
      reads this, state
    {
      var keys := KeysUnder(Read(io), scope);
      if keys == {} then OwnerReads(io) else OwnerDrops(keys, io)
    }

    /** forget_scope: the same for every key at or under the scope. */
    method ForgetScope(scope: Key, io: StateIo) returns (uuids: seq<Uuid>)
      requires Valid()
      modifies state
      ensures Valid()
      ensures Bare() == Forget(AfterRead(old(Bare()), old(ReadFate(io))), old(Read(io)),
                               KeysUnder(old(Read(io)), scope), SavingOf(io.store))
      ensures state.Contents() == old(File(ScopeDrop(scope, io)))
      ensures Elements(uuids) == Uuids(old(Read(io)), KeysUnder(old(Read(io)), scope))
      ensures Less(AfterRead(old(Bare()), old(ReadFate(io))).mapping, Bare().mapping,
                   if old(ReadFate(io)).seen && io.store.Completes? then Under(scope) else NoKeys())
      ensures forall u :: u in uuids <==> OwnedIn(old(Read(io)), Under(scope), u)
    {
      hide BareWorld, ReadMap, ReadOf, AfterMigrate, AfterStore, Less, Under;
      var mapping := Mapping(io);
      var keys := set k | k in mapping && InScope(k, scope);
      assert keys == KeysUnder(mapping, scope);
      var rest;
      rest, uuids := PopAll(mapping, keys);
      UnderTheScope(mapping, scope);
      UuidsAreOwned(mapping, keys, Under(scope));
      ForgettingIsLess(Bare(), old(ReadFate(io)).seen, keys, SavingOf(io.store), Under(scope));
      ForgettingAScope(Bare(), mapping, scope, uuids, SavingOf(io.store));
      if uuids != [] {
        Store(rest, io.store);
      }
    }

    /** remove_key: forget, then delete if there is a board. */
    method RemoveKey(adapter: BoardAdapter?, key: Key, io: StateIo, gone: set<Uuid>)
      requires Valid()
      modifies state, adapter
      ensures Valid()
      ensures WorldWith(adapter) ==
              M.RemoveKey(old(WorldWith(adapter)), key, adapter != null, old(ForgetFateOf(io, gone)))
      ensures Loses(old(WorldWith(adapter)), old(ReadFate(io)), iset{key}, io.store, adapter, gone)
      ensures state.Contents() == old(File(if key in Read(io) then OwnerDrops({key}, io) else OwnerReads(io)))
      ensures old(Sane(adapter)) ==> Sane(adapter)
    {
      ghost var w, fate := WorldWith(adapter), ForgetFateOf(io, gone);
      hide BareWorld, ReadMap, ReadOf, AfterMigrate, AfterStore, SaneWorld, Step, Less, ShapesGo, Under;
      ReadIs(io);
      UuidsOfOneKey(Read(io), key);
      var uuid := ForgetKey(key, io);
      if adapter != null {
        if uuid.Some? {
          RemoveOverlay(adapter, [uuid.value], gone);
        } else {
          WithoutNothing(adapter.board, gone);
        }
      }
      RemovingAKeyForgetsIt(w, key, adapter != null, fate);
      DroppingAKeyIs(w, key, adapter != null, fate);
      StaysSane(w, DropKey(key, adapter != null, fate), adapter);
    }

    /** remove_scope. */
    method RemoveScope(adapter: BoardAdapter?, scope: Key, io: StateIo, gone: set<Uuid>)
      requires Valid()
      modifies state, adapter
      ensures Valid()
      ensures WorldWith(adapter) ==
              M.RemoveScope(old(WorldWith(adapter)), scope, adapter != null, old(ForgetFateOf(io, gone)))
      ensures Loses(old(WorldWith(adapter)), old(ReadFate(io)), Under(scope), io.store, adapter, gone)
      ensures state.Contents() == old(File(ScopeDrop(scope, io)))
      ensures old(Sane(adapter)) ==> Sane(adapter)
    {
      hide BareWorld, ReadMap, ReadOf, AfterMigrate, AfterStore, SaneWorld, Step, Less, ShapesGo, Under;
      ghost var w, fate := WorldWith(adapter), ForgetFateOf(io, gone);
      ReadIs(io);
      var uuids := ForgetScope(scope, io);
      if adapter != null {
        NoElements(uuids);
        if uuids != [] {
          RemoveOverlay(adapter, uuids, gone);
        } else {
          WithoutNothing(adapter.board, gone);
        }
      }
      RemovingAScopeForgetsWhatIsUnder(w, scope, adapter != null, fate);
      DroppingAScopeIs(w, scope, adapter != null, fate);
      StaysSane(w, DropScope(scope, adapter != null, fate), adapter);
    }

    /** The second read of remove_namespace finds the file as the first one left it. */
    ghost function NamespaceFateOf(io: StateIo, again: StateIo, gone: set<Uuid>): ForgetFate
      reads this, state
    {
      ForgetFate(ReadFate(io), ReadOf(AfterMigrate(state.Contents(), io, render), again, render),
                 SavingOf(again.store), gone)
    }

    /** What removing a namespace does to the state file. */
    ghost function FileWithoutNamespace(namespace: Key, io: StateIo, again: StateIo): map<string, Json>
      reads this, state
    {
      var keys := KeysUnder(Read(io), namespace);
      if keys == {} then File(OwnerReads(io)) else FileStep(File(OwnerReads(io)), OwnerDrops(keys, again), render)
    }

    /** remove_namespace: the keys are chosen on one read of the map and popped from a
        second one. */
    method RemoveNamespace(adapter: BoardAdapter?, namespace: Key, io: StateIo, again: StateIo, gone: set<Uuid>)
      requires Valid()
      modifies state, adapter
      ensures Valid()
      ensures WorldWith(adapter) ==
              M.RemoveNamespace(old(WorldWith(adapter)), namespace, adapter != null,
                  old(NamespaceFateOf(io, again, gone)))
      ensures old(NamespaceFateOf(io, again, gone).read.seen && NamespaceFateOf(io, again, gone).again.seen)
              && !old(TakesOver(AfterRead(WorldWith(adapter), ReadFate(io)),
                                NamespaceFateOf(io, again, gone).again)) ==>
                Loses(old(WorldWith(adapter)), old(ReadFate(io)), Under(namespace), again.store, adapter, gone)
      ensures state.Contents() == old(FileWithoutNamespace(namespace, io, again))
      ensures old(Sane(adapter)) ==> Sane(adapter)
    {
      hide BareWorld, ReadMap, ReadOf, AfterMigrate, AfterStore, SaneWorld, Step, Less, ShapesGo, Under;
      hide AfterRead, View, M.RemoveNamespace;
      ghost var w, fate := WorldWith(adapter), NamespaceFateOf(io, again, gone);
      DropNamespace(adapter, namespace, io, again, gone);
      if fate.read.seen && fate.again.seen && !TakesOver(AfterRead(w, fate.read), fate.again) {
        RemovingANamespaceForgetsIt(w, namespace, adapter != null, fate);
        ViewOfASeenMap(AfterRead(w, fate.read));
      }
      DroppingANamespaceIs(w, namespace, adapter != null, fate);
      StaysSane(w, M.DropNamespace(namespace, adapter != null, fate), adapter);
    }

    /** The two reads of remove_namespace, and what is done with them. */
    method DropNamespace(adapter: BoardAdapter?, namespace: Key, io: StateIo, again: StateIo, gone: set<Uuid>)
      requires Valid()
      modifies state, adapter
      ensures Valid()
      ensures WorldWith(adapter) ==
              M.RemoveNamespace(old(WorldWith(adapter)), namespace, adapter != null,
                  old(NamespaceFateOf(io, again, gone)))
      ensures state.Contents() == old(FileWithoutNamespace(namespace, io, again))
    {
      hide BareWorld, ReadMap, ReadOf, AfterMigrate, AfterStore;
      ReadIs(io);
      var first := Mapping(io);
      var keys := set k | k in first && InScope(k, namespace);
      assert keys == KeysUnder(first, namespace);
      ReadIs(again);
      if keys != {} {
        RemoveKeys(adapter, keys, again, gone);
      }
    }

    /** _remove_keys. */
    method RemoveKeys(adapter: BoardAdapter?, keys: set<Key>, io: StateIo, gone: set<Uuid>)
      requires Valid()
      modifies state, adapter
      ensures Valid()
      ensures var view, now := old(Read(io)), AfterRead(old(WorldWith(adapter)), old(ReadFate(io)));
              WorldWith(adapter) == Erase(Save(now, view - keys, SavingOf(io.store)), Uuids(view, keys),
                                          adapter != null, gone)
      ensures state.Contents() == old(File(OwnerDrops(keys, io)))
    {
      hide BareWorld, ReadMap, ReadOf, AfterMigrate, AfterStore, SaneWorld, Step, Less, ShapesGo, Under;
      var mapping := Mapping(io);
      var rest, uuids := PopAll(mapping, keys);
      Store(rest, io.store);
      if adapter != null {
        RemoveOverlay(adapter, uuids, gone);
      }
    }

    /** forget_all. */
    method ForgetAll(adapter: BoardAdapter?, io: StateIo, gone: set<Uuid>) returns (uuids: seq<Uuid>)
      requires Valid()
      modifies state, adapter
      ensures Valid()
      ensures WorldWith(adapter) == M.ForgetAll(old(WorldWith(adapter)), adapter != null, old(ForgetFateOf(io, gone)))
      ensures Elements(uuids) == old(Read(io)).Values
      ensures state.Contents() == old(File(OwnerClears(io)))
      ensures old(Sane(adapter)) ==> Sane(adapter)
    {
      hide BareWorld, ReadMap, ReadOf, AfterMigrate, AfterStore, SaneWorld, Step, Less, ShapesGo, Under;
      ghost var w, fate := WorldWith(adapter), ForgetFateOf(io, gone);
      uuids := ClearMap(io);
      if adapter != null {
        RemoveOverlay(adapter, uuids, gone);
      }
      DroppingAllIs(w, adapter != null, fate);
      StaysSane(w, DropAll(adapter != null, fate), adapter);
    }

    /** The map of forget_all: every uuid it had, and an empty map stored. */
    method ClearMap(io: StateIo) returns (uuids: seq<Uuid>)
      requires Valid()
      modifies state
      ensures Valid() && Bare() == Save(AfterRead(old(Bare()), old(ReadFate(io))), map[], SavingOf(io.store))
      ensures Elements(uuids) == old(Read(io)).Values
      ensures old(Read(io)) == View(AfterRead(old(Bare()), old(ReadFate(io))), old(ReadFate(io)).seen)
      ensures state.Contents() == old(File(OwnerClears(io)))
    {
      hide BareWorld, ReadMap, ReadOf, AfterMigrate, AfterStore, Less, Under;
      var mapping := Mapping(io);
      var rest;
      rest, uuids := PopAll(mapping, mapping.Keys);
      AllUuids(mapping);
      Store(map[], io.store);
    }

    // ---- Drawing ----

    ghost function DrawFateOf(io: StateIo, scanned: bool, gone: set<Uuid>, create: CreateIo): DrawFate
      reads this, state
    {
      DrawFate(ReadFate(io), scanned, gone, DrawingOf(create, io.store))
    }

    /** What a draw that found its layer does to the state file: only a shape that was drawn is
        recorded. */
    ghost function DrawEvent(key: Key, io: StateIo, create: CreateIo): FileEvent {
      if create.Creates? then OwnerDraws(key, create.uuid, io) else OwnerReads(io)
    }

    /** ensure_marker: Failure is the fatal "enable the layer first"; None is "no board",
        or a draw that raised. */
    method EnsureMarker(adapter: BoardAdapter?, key: Key, at: Point, layerName: string, radius: real, stroke: real,
                        io: StateIo, scanned: bool, gone: set<Uuid>, create: CreateIo)
      returns (r: Result<Option<Uuid>, ()>)
      requires Valid()
      requires adapter != null && !create.CreateFails? ==> create.uuid != "" && create.uuid !in adapter.issued
      modifies state, adapter
      ensures Valid()
      ensures adapter == null ==> r == Success(None) && WorldWith(adapter) == old(WorldWith(adapter))
      ensures adapter != null ==>
                WorldWith(adapter) == M.EnsureMarker(old(WorldWith(adapter)), key, at, layerName, radius, stroke,
                                                     old(DrawFateOf(io, scanned, gone, create)))
      ensures adapter != null ==> (r.Failure? <==> ResolveOverlayLayer(old(adapter.board), layerName).None?)
      ensures adapter != null && r.Success? ==> r.value == if create.Creates? then Some(create.uuid) else None
      ensures adapter != null && r.Success? && !create.CreateFails? ==>
                create.uuid in adapter.board.shapes && IsMarkerAt(adapter.board.shapes[create.uuid], at, radius,
                    ResolveOverlayLayer(old(adapter.board), layerName).value, stroke)
      ensures state.Contents() ==
              if adapter == null || r.Failure? then old(state.Contents()) else old(File(DrawEvent(key, io, create)))
      ensures old(Sane(adapter)) ==> Sane(adapter)
    {
      hide BareWorld, ReadMap, ReadOf, AfterMigrate, AfterStore, SaneWorld, Step, Less, ShapesGo, Under;
      if adapter == null {
        return Success(None);
      }
      var layer := ResolveOverlayLayer(adapter.board, layerName);
      if layer.None? {
        return Failure(());
      }
      ghost var w, fate := WorldWith(adapter), DrawFateOf(io, scanned, gone, create);
      var uuid := ReplaceMarker(adapter, layer.value, key, at, radius, stroke, io, scanned, gone, create);
      r := Success(uuid);
      DrawingAMarkerIs(w, key, at, layerName, radius, stroke, fate);
      StaysSane(w, DrawMarker(key, at, layerName, radius, stroke, fate), adapter);
    }

    /** The rest of ensure_marker, once its layer is found. */
    method ReplaceMarker(adapter: BoardAdapter, layer: Layer, key: Key, at: Point, radius: real, stroke: real,
                         io: StateIo, scanned: bool, gone: set<Uuid>, create: CreateIo)
      returns (uuid: Option<Uuid>)
      requires Valid()
      requires !create.CreateFails? ==> create.uuid != "" && create.uuid !in adapter.issued
      modifies state, adapter
      ensures Valid()
      ensures uuid == if create.Creates? then Some(create.uuid) else None
      ensures var fate := old(DrawFateOf(io, scanned, gone, create));
              var now := AfterRead(old(WorldWith(adapter)), fate.read);
              WorldWith(adapter) == Replace(now, key, MakeMarker(at.x, at.y, radius, layer, stroke),
                                            DoomedByMarker(now, key, at, radius, layer, fate), fate)
      ensures !create.CreateFails? ==> create.uuid in adapter.board.shapes
                                       && IsMarkerAt(adapter.board.shapes[create.uuid], at, radius, layer, stroke)
      ensures state.Contents() == old(File(DrawEvent(key, io, create)))
    {
      hide BareWorld, ReadMap, ReadOf, AfterMigrate, AfterStore, SaneWorld, Step, Less, ShapesGo, Under;
      ghost var fate := DrawFateOf(io, scanned, gone, create);
      var mapping := Mapping(io);
      var doomed := if key in mapping then [mapping[key]] else [];
      OwnShapeAsList(mapping, key);
      var orphans := OrphanCircleUuids(adapter, layer, mapping, at, Tolerance(radius), scanned);
      ElementsOfSum(doomed, orphans);
      var shape := MakeMarker(at.x, at.y, radius, layer, stroke);
      MarkerIsWhereAsked(at.x, at.y, radius, layer, stroke);
      uuid := ReplaceShape(adapter, key, mapping, doomed + orphans, shape, io, gone, create, fate);
    }

    /** The common end of both draws: delete the doomed shapes, draw, record. */
    method ReplaceShape(adapter: BoardAdapter, key: Key, mapping: map<Key, Uuid>, doomed: seq<Uuid>, shape: Shape,
                        io: StateIo, gone: set<Uuid>, create: CreateIo, ghost fate: DrawFate)
      returns (uuid: Option<Uuid>)
      requires Valid() && NoBlank(mapping)
      requires mapping == View(WorldWith(adapter), fate.read.seen)
      requires fate.gone == gone && fate.drawing == DrawingOf(create, io.store)
      requires !create.CreateFails? ==> create.uuid != "" && create.uuid !in adapter.issued
      modifies state, adapter
      ensures Valid()
      ensures uuid == if create.Creates? then Some(create.uuid) else None
      ensures WorldWith(adapter) == Replace(old(WorldWith(adapter)), key, shape, Elements(doomed), fate)
      ensures !create.CreateFails? ==> create.uuid in adapter.board.shapes
                                       && adapter.board.shapes[create.uuid] == shape
      ensures state.Contents() ==
              if create.Creates? then AfterStore(old(state.Contents()), mapping[key := create.uuid], io.store)
              else old(state.Contents())
    {
      hide BareWorld, ReadMap, ReadOf, AfterMigrate, AfterStore, SaneWorld, Step, Less, ShapesGo, Under;
      RemoveOverlay(adapter, doomed, gone);
      uuid := Draw(adapter, shape, create);
      if uuid.Some? {
        Store(mapping[key := uuid.value], io.store);
      }
    }

    /** ensure_bbox: the same replacement, without the scan for leftovers. */
    method EnsureBbox(adapter: BoardAdapter?, key: Key, a: Point, b: Point, layerName: string, stroke: real,
                      io: StateIo, gone: set<Uuid>, create: CreateIo)
      returns (r: Result<Option<Uuid>, ()>)
      requires Valid()
      requires adapter != null && !create.CreateFails? ==> create.uuid != "" && create.uuid !in adapter.issued
      modifies state, adapter
      ensures Valid()
      ensures adapter == null ==> r == Success(None) && WorldWith(adapter) == old(WorldWith(adapter))
      ensures adapter != null ==>
                WorldWith(adapter) == M.EnsureBbox(old(WorldWith(adapter)), key, a, b, layerName, stroke,
                                                   old(DrawFateOf(io, false, gone, create)))
      ensures adapter != null ==> (r.Failure? <==> ResolveOverlayLayer(old(adapter.board), layerName).None?)
      ensures adapter != null && r.Success? ==> r.value == if create.Creates? then Some(create.uuid) else None
      ensures adapter != null && r.Success? && !create.CreateFails? ==>
                create.uuid in adapter.board.shapes && IsBoxBetween(adapter.board.shapes[create.uuid], a, b,
                    ResolveOverlayLayer(old(adapter.board), layerName).value, stroke)
      ensures state.Contents() ==
              if adapter == null || r.Failure? then old(state.Contents()) else old(File(DrawEvent(key, io, create)))
      ensures old(Sane(adapter)) ==> Sane(adapter)
    {
      hide BareWorld, ReadMap, ReadOf, AfterMigrate, AfterStore, SaneWorld, Step, Less, ShapesGo, Under;
      if adapter == null {
        return Success(None);
      }
      var layer := ResolveOverlayLayer(adapter.board, layerName);
      if layer.None? {
        return Failure(());
      }
      ghost var w, fate := WorldWith(adapter), DrawFateOf(io, false, gone, create);
      var mapping := Mapping(io);
      OwnShapeAsList(mapping, key);
      var uuid := ReplaceShape(adapter, key, mapping, if key in mapping then [mapping[key]] else [],
                               MakeRectangle(a.x, a.y, b.x, b.y, layer.value, stroke),
                               io, gone, create, fate);
      BoxIsWhereAsked(a.x, a.y, b.x, b.y, layer.value, stroke);
      r := Success(uuid);
      DrawingABboxIs(w, key, a, b, layerName, stroke, fate);
      StaysSane(w, DrawBbox(key, a, b, layerName, stroke, fate), adapter);
    }

    // ---- Reconciliation ----

    /** What a reconciliation does to the state file: nothing is stored when nothing is dead. */
    ghost function ReconcileEvent(view: map<Key, Uuid>, live: map<Key, Uuid>, io: StateIo): FileEvent {
      if live == view then OwnerReads(io) else OwnerDrops(view.Keys - live.Keys, io)
    }

    ghost function ReconciledFile(board: Board, layerName: string, io: StateIo): map<string, Json>
      reads this, state
    {
      match ResolveOverlayLayer(board, layerName)
      case None => state.Contents()
      case Some(layer) => File(ReconcileEvent(Read(io), LiveKeys(Read(io), board, layer), io))
    }

    /** What reconcile() answers when there is a board. */
    ghost predicate ReportIs(report: Report, board: Board, layerName: string, resolves: bool, scanned: bool,
                             view: map<Key, Uuid>, tol: real) {
      var layer := ResolveOverlayLayer(board, layerName);
      match report
      case Raised => !resolves
      case Skipped => resolves && (layer.None? || !scanned)
      case Reconciled(dropped, orphans) =>
        && resolves && scanned && layer.Some?
        && dropped == |view| - |LiveKeys(view, board, layer.value)|
        && CountsOrphans(orphans, board, layer.value, view.Values, tol)
    }

    /** The keys whose shape is not on the layer leave the map. */
    method DropDead(adapter: BoardAdapter, layer: Layer, io: StateIo)
      returns (mapping: map<Key, Uuid>, live: map<Key, Uuid>)
      requires Valid()
      modifies state
      ensures Valid()
      ensures mapping == old(Read(io)) && live == LiveKeys(mapping, adapter.board, layer)
      ensures var now := AfterRead(old(Bare()), old(ReadFate(io)));
              && mapping == View(now, old(ReadFate(io)).seen)
              && Bare() == if live != mapping then Save(now, live, SavingOf(io.store)) else now
      ensures state.Contents() == old(File(ReconcileEvent(Read(io), LiveKeys(Read(io), adapter.board, layer), io)))
    {
      hide BareWorld, ReadMap, ReadOf, AfterMigrate, AfterStore, Less, Under;
      mapping := Mapping(io);
      live := LiveKeys(mapping, adapter.board, layer);
      LiveIsWithoutTheDead(mapping, adapter.board, layer);
      if live != mapping {
        Store(live, io.store);
      }
    }

    /** reconcile: drop the keys whose shape is not on the layer, count the shapes no key
        owns, touch nothing on the board. Looking the layer up stands before the try. */
    method Reconcile(adapter: BoardAdapter?, layerName: string, radius: real, io: StateIo, resolves: bool,
                     scanned: bool)
      returns (report: Report)
      requires Valid()
      modifies state
      ensures Valid()
      ensures WorldWith(adapter) ==
              if adapter == null then old(WorldWith(adapter))
              else M.Reconcile(old(WorldWith(adapter)), layerName,
                               ReconcileFate(old(ReadFate(io)), resolves && scanned, SavingOf(io.store)))
      ensures if adapter == null then report == Skipped
              else ReportIs(report, adapter.board, layerName, resolves, scanned, old(Read(io)), Tolerance(radius))
      ensures state.Contents() == if report.Reconciled? then old(ReconciledFile(adapter.board, layerName, io))
                                  else old(state.Contents())
      ensures old(Sane(adapter)) ==> Sane(adapter)
    {
      hide BareWorld, ReadMap, ReadOf, AfterMigrate, AfterStore, SaneWorld, Step, Less, ShapesGo, Under;
      hide Lists, CountsOrphans, LiveKeys, ResolveOverlayLayer;
      if adapter == null {
        return Skipped;
      }
      if !resolves {
        return Raised;
      }
      var layer := ResolveOverlayLayer(adapter.board, layerName);
      if layer.None? || !scanned {
        return Skipped;
      }
      ghost var w := WorldWith(adapter);
      ghost var fate := ReconcileFate(ReadFate(io), scanned, SavingOf(io.store));
      var shapes := ListOverlayShapes(adapter, layer.value);
      var mapping, live := DropDead(adapter, layer.value, io);
      ReconcilingIs(w, layerName, fate);
      StaysSane(w, Reconciling(layerName, fate), adapter);
      var count := CountOrphans(shapes, adapter.board, layer.value, mapping, Tolerance(radius));
      LiveKeysAreFewer(mapping, adapter.board, layer.value);
      report := Reconciled(|mapping| - |live|, count);
    }
  }

  lemma LiveKeysAreFewer(view: map<Key, Uuid>, board: Board, layer: Layer)
    ensures |LiveKeys(view, board, layer)| <= |view|
  {
    var live := LiveKeys(view, board, layer);
    SubsetIsNoLarger(live.Keys, view.Keys);
    assert |live| == |live.Keys| && |view| == |view.Keys|;
  }

  lemma {:induction false} SubsetIsNoLarger<T>(a: set<T>, b: set<T>)
    requires a <= b
    ensures |a| <= |b|
  {
    if a != {} {
      var x :| x in a;
      SubsetIsNoLarger(a - {x}, b - {x});
    }
  }

  /** The orphans reported for a layer: of some listing of its unkeyed shapes, the ones
      without a centre and a set of spots, pairwise farther apart than the tolerance,
      that covers every circle. */
  ghost predicate CountsOrphans(count: nat, board: Board, layer: Layer, keyed: set<Uuid>, tol: real) {
    exists list, spots :: Lists(list, board, layer) && CountsSpots(count, Unkeyed(list, keyed), spots, tol)
  }

  /** The count at the end of reconcile. */
  method CountOrphans(shapes: seq<OverlayShape>, board: Board, layer: Layer, mapping: map<Key, Uuid>, tol: real)
    returns (count: nat)
    requires Lists(shapes, board, layer)
    ensures CountsOrphans(count, board, layer, mapping.Values, tol)
  {
    var orphans := Unkeyed(shapes, mapping.Values);
    var spots;
    count, spots := DistinctOrphanPositions(orphans, tol);
  }

  function Unkeyed(list: seq<OverlayShape>, keyed: set<Uuid>): seq<OverlayShape> {
    Filter(list, (s: OverlayShape) => s.uuid !in keyed)
  }

  // ---- The steps of a draw ----

  function DrawingOf(create: CreateIo, store: S.Fate): Drawing {
    match create
    case Creates(uuid) => Drawn(uuid, SavingOf(store))
    case CreatesButRepaintFails(uuid) => RepaintFailed(uuid)
    case CreateFails => CreateFailed
  }

  lemma OwnShapeAsList(view: map<Key, Uuid>, key: Key)
    ensures Elements(if key in view then [view[key]] else []) == OwnShape(view, key)
  {}

  lemma ElementsOfSum<T>(s: seq<T>, t: seq<T>)
    ensures Elements(s + t) == Elements(s) + Elements(t)
  {}

  /** draw_marker and draw_bbox: create, then repaint; None when either raised. */
  method Draw(adapter: BoardAdapter, shape: Shape, create: CreateIo) returns (uuid: Option<Uuid>)
    requires !create.CreateFails? ==> create.uuid !in adapter.issued
    modifies adapter
    ensures uuid == if create.Creates? then Some(create.uuid) else None
    ensures if create.CreateFails? then adapter.board == old(adapter.board) && adapter.issued == old(adapter.issued)
            else adapter.board == old(adapter.board).(shapes := old(adapter.board).shapes[create.uuid := shape])
                 && adapter.issued == old(adapter.issued) + {create.uuid}
  {
    if create.CreateFails? {
      return None;
    }
    adapter.CreateItem(shape, create.uuid);
    uuid := if create.Creates? then Some(create.uuid) else None;
  }

  /** _orphan_circle_uuids: none when the layer cannot be read. */
  method OrphanCircleUuids(adapter: BoardAdapter, layer: Layer, mapping: map<Key, Uuid>, at: Point, tol: real,
      scanned: bool)
    returns (found: seq<Uuid>)
    ensures Elements(found) == if scanned then OrphansNear(mapping.Values, adapter.board, layer, at, tol) else {}
  {
    found := [];
    if !scanned {
      return;
    }
    var shapes := ListOverlayShapes(adapter, layer);
    for n := 0 to |shapes|
      invariant forall u :: u in found ==> u in OrphansNear(mapping.Values, adapter.board, layer, at, tol)
      invariant forall i :: 0 <= i < n ==>
                  shapes[i].uuid in OrphansNear(mapping.Values, adapter.board, layer, at, tol) ==>
                  shapes[i].uuid in found
    {
      var s := shapes[n];
      if s.uuid !in mapping.Values && s.kind == CircleKind && s.center.Some? && Near(s.center.value, at, tol) {
        found := found + [s.uuid];
      }
    }
    forall u | u in OrphansNear(mapping.Values, adapter.board, layer, at, tol) ensures u in found {
      var i :| 0 <= i < |shapes| && shapes[i].uuid == u;
    }
  }

  /** board_overlay.remove_overlay. */
  method RemoveOverlay(adapter: BoardAdapter, uuids: seq<Uuid>, gone: set<Uuid>)
    modifies adapter`board
    ensures adapter.board == Without(old(adapter.board), Elements(uuids) * gone)
  {
    if uuids == [] {
      assert Without(adapter.board, {}) == adapter.board;
      return;
    }
    adapter.RemoveByIds(uuids, gone);
  }
}
