/** What every operation of the overlay marker owner does to the key map and to the
    board (gui/overlay_markers.py), with the ways the board and the state file can
    fail, and what stays true over any run of these operations and of the user's own
    edits. The operations themselves are in OverlayMarkerOwner. */
module OverlayMarkers {
  import opened BoardOverlay
  import opened OverlayKeys
  import opened Wrappers

  /** The persistent key map, the older map as the migration would write it, which is read and
      never deleted, the live board, and every uuid the board ever gave out. */
  datatype World = World(mapping: map<Key, Uuid>, legacy: map<Key, Uuid>, board: Board, issued: set<Uuid>)

  // ---- What can go wrong, and how it went ----

  /** How one _mapping() went; it opens the state file up to four times. `revives`: the
      migration ran and its write went through, because the new map is not there or
      could not be read; `wipes`: the read inside that write failed, so that it left nothing
      else in the file; `seen`: the last read gave the map (otherwise it reads as empty). */
  datatype MapRead = MapRead(revives: bool, wipes: bool, seen: bool)

  /** How a store went; `wipes` as above. */
  datatype Saving = Unsaved | Saved(wipes: bool)

  /** How the drawing of the new shape went: created, and recorded or not; created but
      the repaint raised, so never recorded; or not created. */
  datatype Drawing =
    | Drawn(uuid: Uuid, saving: Saving)
    | RepaintFailed(uuid: Uuid)
    | CreateFailed

  /** `scanned`: the layer could be listed; `gone`: the deletions the board carried out. */
  datatype DrawFate = DrawFate(read: MapRead, scanned: bool, gone: set<Uuid>, drawing: Drawing)

  /** The read writes the older map over the map in force. */
  predicate TakesOver(w: World, r: MapRead) { r.revives && w.legacy != map[] }

  function AfterRead(w: World, r: MapRead): World {
    if TakesOver(w, r) then w.(mapping := w.legacy, legacy := if r.wipes then map[] else w.legacy) else w
  }

  function Save(w: World, m: map<Key, Uuid>, saving: Saving): World {
    match saving
    case Unsaved => w
    case Saved(wipes) => w.(mapping := m, legacy := if wipes then map[] else w.legacy)
  }

  /** What the read gives, in the world it leaves. */
  function View(w: World, seen: bool): map<Key, Uuid> {
    if seen then w.mapping else map[]
  }

  function Tolerance(radius: real): real { radius / 2.0 }

  predicate Near(a: Point, b: Point, tol: real) {
    -tol <= a.x - b.x <= tol && -tol <= a.y - b.y <= tol
  }

  predicate CircleNear(board: Board, uuid: Uuid, layer: Layer, at: Point, tol: real) {
    && On(board, uuid, layer) && board.shapes[uuid].geometry.Circle?
    && Near(Point(ToMm(board.shapes[uuid].geometry.cx), ToMm(board.shapes[uuid].geometry.cy)), at, tol)
  }

  /** Circles of the layer near the point that no key of the map owns. */
  function OrphansNear(keyed: set<Uuid>, board: Board, layer: Layer, at: Point, tol: real): set<Uuid> {
    set u | u in board.shapes && u !in keyed && CircleNear(board, u, layer, at, tol)
  }

  function OwnShape(view: map<Key, Uuid>, key: Key): set<Uuid> {
    if key in view then {view[key]} else {}
  }

  function DoomedByMarker(w: World, key: Key, at: Point, radius: real, layer: Layer, fate: DrawFate): set<Uuid> {
    var view := View(w, fate.read.seen);
    OwnShape(view, key) + if fate.scanned then OrphansNear(view.Values, w.board, layer, at, Tolerance(radius)) else {}
  }

  /** Replace the doomed shapes by a new one and record it under the key. */
  function Replace(w: World, key: Key, shape: Shape, doomed: set<Uuid>, fate: DrawFate): World {
    var cleared := Without(w.board, doomed * fate.gone);
    match fate.drawing
    case CreateFailed => w.(board := cleared)
    case RepaintFailed(uuid) => Put(w.(board := cleared), uuid, shape)
    case Drawn(uuid, saving) =>
      Save(Put(w.(board := cleared), uuid, shape), View(w, fate.read.seen)[key := uuid], saving)
  }

  function Put(w: World, uuid: Uuid, shape: Shape): World {
    w.(board := w.board.(shapes := w.board.shapes[uuid := shape]), issued := w.issued + {uuid})
  }

  function EnsureMarker(w: World, key: Key, at: Point, layerName: string, radius: real, stroke: real,
      fate: DrawFate): World {
    match ResolveOverlayLayer(w.board, layerName)
    case None => w
    case Some(layer) =>
      var now := AfterRead(w, fate.read);
      var shape := MakeMarker(at.x, at.y, radius, layer, stroke);
      Replace(now, key, shape, DoomedByMarker(now, key, at, radius, layer, fate), fate)
  }

  function EnsureBbox(w: World, key: Key, a: Point, b: Point, layerName: string, stroke: real, fate: DrawFate): World {
    match ResolveOverlayLayer(w.board, layerName)
    case None => w
    case Some(layer) =>
      var now := AfterRead(w, fate.read);
      var shape := MakeRectangle(a.x, a.y, b.x, b.y, layer, stroke);
      Replace(now, key, shape, OwnShape(View(now, fate.read.seen), key), fate)
  }

  /** `again` is the second read of the map, where there is one. */
  datatype ForgetFate = ForgetFate(read: MapRead, again: MapRead, saving: Saving, gone: set<Uuid>)

  function Uuids(view: map<Key, Uuid>, keys: set<Key>): set<Uuid> {
    set k | k in keys && k in view :: view[k]
  }

  function KeysUnder(view: map<Key, Uuid>, scope: Key): set<Key> {
    set k | k in view && InScope(k, scope)
  }

  /** What is left of the map is stored, unless there was nothing to forget. */
  function Forget(w: World, view: map<Key, Uuid>, keys: set<Key>, saving: Saving): World {
    if keys * view.Keys != {} then Save(w, view - keys, saving) else w
  }

  function Erase(w: World, uuids: set<Uuid>, withBoard: bool, gone: set<Uuid>): World {
    if withBoard then w.(board := Without(w.board, uuids * gone)) else w
  }

  /** remove_key; without a board this is forget_key. */
  function RemoveKey(w: World, key: Key, withBoard: bool, fate: ForgetFate): World {
    var now := AfterRead(w, fate.read);
    var view := View(now, fate.read.seen);
    Erase(Forget(now, view, {key}, fate.saving), OwnShape(view, key), withBoard, fate.gone)
  }

  /** remove_scope; without a board this is forget_scope. */
  function RemoveScope(w: World, scope: Key, withBoard: bool, fate: ForgetFate): World {
    var now := AfterRead(w, fate.read);
    var view := View(now, fate.read.seen);
    var keys := KeysUnder(view, scope);
    Erase(Forget(now, view, keys, fate.saving), Uuids(view, keys), withBoard, fate.gone)
  }

  /** The keys remove_namespace chooses on its first read. */
  function Chosen(w: World, namespace: Key, fate: ForgetFate): set<Key> {
    KeysUnder(View(AfterRead(w, fate.read), fate.read.seen), namespace)
  }

  /** The keys are chosen on one read of the map and dropped on another. */
  function RemoveNamespace(w: World, namespace: Key, withBoard: bool, fate: ForgetFate): World {
    var first, keys := AfterRead(w, fate.read), Chosen(w, namespace, fate);
    if keys == {} then first
    else
      var second := AfterRead(first, fate.again);
      var view := View(second, fate.again.seen);
      Erase(Save(second, view - keys, fate.saving), Uuids(view, keys), withBoard, fate.gone)
  }

  function ForgetAll(w: World, withBoard: bool, fate: ForgetFate): World {
    var now := AfterRead(w, fate.read);
    Erase(Save(now, map[], fate.saving), View(now, fate.read.seen).Values, withBoard, fate.gone)
  }

  function LiveKeys(view: map<Key, Uuid>, board: Board, layer: Layer): map<Key, Uuid> {
    map k | k in view && On(board, view[k], layer) :: view[k]
  }

  datatype ReconcileFate = ReconcileFate(read: MapRead, scanned: bool, saving: Saving)

  /** The map is read only after the layer was found and listed. */
  function Reconcile(w: World, layerName: string, fate: ReconcileFate): World {
    match ResolveOverlayLayer(w.board, layerName)
    case None => w
    case Some(layer) =>
      if !fate.scanned then w
      else
        var now := AfterRead(w, fate.read);
        var view := View(now, fate.read.seen);
        var live := LiveKeys(view, now.board, layer);
        if live != view then Save(now, live, fate.saving) else now
  }

  // ---- Runs ----

  datatype Event =
    | DrawMarker(key: Key, at: Point, layerName: string, radius: real, stroke: real, draw: DrawFate)
    | DrawBbox(key: Key, a: Point, b: Point, layerName: string, stroke: real, draw: DrawFate)
    | DropKey(key: Key, withBoard: bool, forget: ForgetFate)
    | DropScope(scope: Key, withBoard: bool, forget: ForgetFate)
    | DropNamespace(namespace: Key, withBoard: bool, forget: ForgetFate)
    | DropAll(withBoard: bool, forget: ForgetFate)
    | Reconciling(layerName: string, reconcile: ReconcileFate)
    | Looking(read: MapRead)                 // has_key, uuid_for, keys, all_uuids
    | OthersSet(wipes: bool)                  // another component sets a key of its own
    | Sweep(layer: Layer, gone: set<Uuid>)
    | UserEdit(board: Board)

  ghost function Step(w: World, e: Event): World {
    match e
    case DrawMarker(key, at, layerName, radius, stroke, fate) =>
      EnsureMarker(w, key, at, layerName, radius, stroke, fate)
    case DrawBbox(key, a, b, layerName, stroke, fate) => EnsureBbox(w, key, a, b, layerName, stroke, fate)
    case DropKey(key, withBoard, fate) => RemoveKey(w, key, withBoard, fate)
    case DropScope(scope, withBoard, fate) => RemoveScope(w, scope, withBoard, fate)
    case DropNamespace(namespace, withBoard, fate) => RemoveNamespace(w, namespace, withBoard, fate)
    case DropAll(withBoard, fate) => ForgetAll(w, withBoard, fate)
    case Reconciling(layerName, fate) => Reconcile(w, layerName, fate)
    case Looking(read) => AfterRead(w, read)
    case OthersSet(wipes) => if wipes then w.(mapping := map[], legacy := map[]) else w
    case Sweep(layer, gone) => w.(board := Swept(w.board, layer, gone))
    case UserEdit(board) => w.(board := board, issued := w.issued + board.shapes.Keys)
  }

  /** The board never gives a shape the uuid of an earlier one. The user may do
      anything, including bringing a deleted shape back with Undo. */
  predicate Possible(w: World, e: Event) {
    (e.DrawMarker? || e.DrawBbox?) && !e.draw.drawing.CreateFailed? ==>
      e.draw.drawing.uuid != "" && e.draw.drawing.uuid !in w.issued
  }

  ghost function RunAll(w: World, events: seq<Event>): World {
    if events == [] then w else Step(RunAll(w, events[..|events| - 1]), events[|events| - 1])
  }

  ghost predicate PossibleRun(w: World, events: seq<Event>) {
    forall i :: 0 <= i < |events| ==> Possible(RunAll(w, events[..i]), events[i])
  }

  // ---- One shape has at most one key, always ----

  ghost predicate Injective(m: map<Key, Uuid>) {
    forall j, k :: j in m && k in m && m[j] == m[k] ==> j == k
  }

  /** Everything but that the older map itself gives no shape to two keys. */
  ghost predicate Clean(w: World) {
    && Injective(w.mapping) && NoBlank(w.mapping) && NoBlank(w.legacy)
    && w.mapping.Values <= w.issued && w.legacy.Values <= w.issued && w.board.shapes.Keys <= w.issued
  }

  ghost predicate Inv(w: World) { Clean(w) && Injective(w.legacy) }

  lemma NewKeyKeepsInjective(m: map<Key, Uuid>, key: Key, uuid: Uuid, issued: set<Uuid>)
    requires Injective(m) && m.Values <= issued && uuid !in issued
    ensures Injective(m[key := uuid]) && m[key := uuid].Values <= issued + {uuid}
  {
    var m' := m[key := uuid];
    forall k | k in m' ensures k != key ==> m'[k] in m.Values {}
  }

  lemma AfterReadKeepsInv(w: World, r: MapRead)
    requires Inv(w)
    ensures Inv(AfterRead(w, r)) && AfterRead(w, r).issued == w.issued && AfterRead(w, r).board == w.board
  {}

  lemma SavingKeepsInv(w: World, m: map<Key, Uuid>, saving: Saving)
    requires Inv(w) && Injective(m) && NoBlank(m) && m.Values <= w.issued
    ensures Inv(Save(w, m, saving))
  {}

  lemma ReplaceKeepsInv(w: World, key: Key, shape: Shape, doomed: set<Uuid>, fate: DrawFate)
    requires Inv(w)
    requires !fate.drawing.CreateFailed? ==> fate.drawing.uuid != "" && fate.drawing.uuid !in w.issued
    ensures Inv(Replace(w, key, shape, doomed, fate))
  {
    if fate.drawing.Drawn? {
      var uuid, view := fate.drawing.uuid, View(w, fate.read.seen);
      NewKeyKeepsInjective(view, key, uuid, w.issued);
      var put := Put(w.(board := Without(w.board, doomed * fate.gone)), uuid, shape);
      SavingKeepsInv(put, view[key := uuid], fate.drawing.saving);
    }
  }

  lemma EraseKeepsInv(w: World, uuids: set<Uuid>, withBoard: bool, gone: set<Uuid>)
    requires Inv(w)
    ensures Inv(Erase(w, uuids, withBoard, gone))
  {}

  lemma LessKeepsInv(w: World, seen: bool, keys: set<Key>, saving: Saving)
    requires Inv(w)
    ensures Inv(Save(w, View(w, seen) - keys, saving)) && Inv(Forget(w, View(w, seen), keys, saving))
  {
    var view := View(w, seen);
    assert (view - keys).Values <= view.Values by {
      forall u | u in (view - keys).Values ensures u in view.Values {
        var k :| k in view - keys && (view - keys)[k] == u;
        assert k in view && view[k] == u;
      }
    }
    SavingKeepsInv(w, view - keys, saving);
  }

  lemma DrawKeepsInv(w: World, e: Event)
    requires Inv(w) && Possible(w, e) && (e.DrawMarker? || e.DrawBbox?)
    ensures Inv(Step(w, e))
  {
    var r := ResolveOverlayLayer(w.board, e.layerName);
    var now := AfterRead(w, e.draw.read);
    AfterReadKeepsInv(w, e.draw.read);
    if r.Some? {
      match e
      case DrawMarker(key, at, _, radius, stroke, fate) =>
        var shape := MakeMarker(at.x, at.y, radius, r.value, stroke);
        ReplaceKeepsInv(now, key, shape, DoomedByMarker(now, key, at, radius, r.value, fate), fate);
      case DrawBbox(key, a, b, _, stroke, fate) =>
        var shape := MakeRectangle(a.x, a.y, b.x, b.y, r.value, stroke);
        ReplaceKeepsInv(now, key, shape, OwnShape(View(now, fate.read.seen), key), fate);
    }
  }

  lemma DropKeepsInv(w: World, e: Event)
    requires Inv(w) && (e.DropKey? || e.DropScope? || e.DropNamespace? || e.DropAll?)
    ensures Inv(Step(w, e))
  {
    var read, saving := e.forget.read, e.forget.saving;
    var now := AfterRead(w, read);
    AfterReadKeepsInv(w, read);
    match e
    case DropKey(key, withBoard, fate) => LessKeepsInv(now, read.seen, {key}, saving);
    case DropScope(scope, withBoard, fate) =>
      LessKeepsInv(now, read.seen, KeysUnder(View(now, read.seen), scope), saving);
    case DropNamespace(namespace, withBoard, fate) =>
      AfterReadKeepsInv(now, fate.again);
      LessKeepsInv(AfterRead(now, fate.again), fate.again.seen, Chosen(w, namespace, fate), saving);
    case DropAll(withBoard, fate) => SavingKeepsInv(now, map[], saving);
  }

  lemma ReconcileKeepsInv(w: World, layerName: string, fate: ReconcileFate)
    requires Inv(w)
    ensures Inv(Reconcile(w, layerName, fate))
  {
    var r := ResolveOverlayLayer(w.board, layerName);
    AfterReadKeepsInv(w, fate.read);
    if r.Some? && fate.scanned {
      var now := AfterRead(w, fate.read);
      var view := View(now, fate.read.seen);
      var live := LiveKeys(view, now.board, r.value);
      assert live == view - (view.Keys - live.Keys);
      LessKeepsInv(now, fate.read.seen, view.Keys - live.Keys, fate.saving);
    }
  }

  lemma {:induction false} StepKeepsInv(w: World, e: Event)
    requires Inv(w) && Possible(w, e)
    ensures Inv(Step(w, e))
  {
    match e
    case DrawMarker(_, _, _, _, _, _) => DrawKeepsInv(w, e);
    case DrawBbox(_, _, _, _, _, _) => DrawKeepsInv(w, e);
    case DropKey(_, _, _) => DropKeepsInv(w, e);
    case DropScope(_, _, _) => DropKeepsInv(w, e);
    case DropNamespace(_, _, _) => DropKeepsInv(w, e);
    case DropAll(_, _) => DropKeepsInv(w, e);
    case Reconciling(layerName, fate) => ReconcileKeepsInv(w, layerName, fate);
    case Looking(read) => AfterReadKeepsInv(w, read);
    case _ =>
  }

  /** However the owner's operations, their failures, sweeps, other components' sets and the
      user's edits are interleaved, no shape ever belongs to two keys. */
  lemma {:induction false} EveryRunKeepsInv(w: World, events: seq<Event>)
    requires Inv(w) && PossibleRun(w, events)
    ensures Inv(RunAll(w, events))
  {
    if events != [] {
      var n := |events| - 1;
      assert forall i :: 0 <= i < n ==> events[..n][..i] == events[..i];
      EveryRunKeepsInv(w, events[..n]);
      StepKeepsInv(RunAll(w, events[..n]), events[n]);
    }
  }

  ghost predicate AlwaysInjective(w: World) {
    forall events :: PossibleRun(w, events) ==> Injective(RunAll(w, events).mapping)
  }

  /** What this rests on: from a clean start the map stays injective through every run exactly
      when the older map, which a failed read can bring back, is injective too. */
  lemma {:induction false} AlwaysInjectiveIff(w: World)
    requires Clean(w)
    ensures AlwaysInjective(w) <==> Injective(w.legacy)
  {
    if Injective(w.legacy) {
      forall events | PossibleRun(w, events) ensures Injective(RunAll(w, events).mapping) {
        EveryRunKeepsInv(w, events);
      }
    }
    if AlwaysInjective(w) {
      var look := Looking(MapRead(true, false, true));
      assert [look][..0] == [] && RunAll(w, []) == w;
      assert RunAll(w, [look]) == Step(w, look);
      assert PossibleRun(w, [look]);
      assert w.legacy == map[] || Step(w, look).mapping == w.legacy;
    }
  }

  // ---- The map an event works on ----

  /** The operation is about this key: its own key, or one under its scope. */
  predicate About(e: Event, k: Key) {
    match e
    case DrawMarker(key, _, _, _, _, _) => k == key
    case DrawBbox(key, _, _, _, _, _) => k == key
    case DropKey(key, _, _) => k == key
    case DropScope(scope, _, _) => InScope(k, scope)
    case DropNamespace(namespace, _, _) => InScope(k, namespace)
    case DropAll(_, _) => true
    case _ => false
  }

  predicate IsDraw(e: Event) { e.DrawMarker? || e.DrawBbox? }

  /** The world once the event has read the map, as often as it does. */
  function AfterReads(w: World, e: Event): World {
    match e
    case DrawMarker(_, _, name, _, _, fate) =>
      if ResolveOverlayLayer(w.board, name).Some? then AfterRead(w, fate.read) else w
    case DrawBbox(_, _, _, name, _, fate) =>
      if ResolveOverlayLayer(w.board, name).Some? then AfterRead(w, fate.read) else w
    case DropKey(_, _, fate) => AfterRead(w, fate.read)
    case DropScope(_, _, fate) => AfterRead(w, fate.read)
    case DropNamespace(namespace, _, fate) =>
      var first := AfterRead(w, fate.read);
      if Chosen(w, namespace, fate) == {} then first else AfterRead(first, fate.again)
    case DropAll(_, fate) => AfterRead(w, fate.read)
    case Reconciling(name, fate) =>
      if ResolveOverlayLayer(w.board, name).Some? && fate.scanned then AfterRead(w, fate.read) else w
    case Looking(read) => AfterRead(w, read)
    case _ => w
  }

  /** One of the event's reads writes the older map over the map in force. */
  predicate Revives(w: World, e: Event) {
    match e
    case DrawMarker(_, _, name, _, _, fate) => ResolveOverlayLayer(w.board, name).Some? && TakesOver(w, fate.read)
    case DrawBbox(_, _, _, name, _, fate) => ResolveOverlayLayer(w.board, name).Some? && TakesOver(w, fate.read)
    case DropKey(_, _, fate) => TakesOver(w, fate.read)
    case DropScope(_, _, fate) => TakesOver(w, fate.read)
    case DropNamespace(namespace, _, fate) =>
      TakesOver(w, fate.read) || (Chosen(w, namespace, fate) != {} && TakesOver(w, fate.again))
    case DropAll(_, fate) => TakesOver(w, fate.read)
    case Reconciling(name, fate) =>
      ResolveOverlayLayer(w.board, name).Some? && fate.scanned && TakesOver(w, fate.read)
    case Looking(read) => TakesOver(w, read)
    case _ => false
  }

  lemma AfterReadsIs(w: World, e: Event)
    ensures var now := AfterReads(w, e);
            && now.mapping == (if Revives(w, e) then w.legacy else w.mapping)
            && now.board == w.board && now.issued == w.issued
  {}

  // ---- Which shapes can disappear ----

  ghost function Deleted(w: World, e: Event): set<Uuid> {
    w.board.shapes.Keys - Step(w, e).board.shapes.Keys
  }

  /** The uuids the map, as the operation read it, gives to the keys it is about. */
  function Own(w: World, e: Event): set<Uuid> {
    var now := AfterReads(w, e);
    match e
    case DrawMarker(key, _, name, _, _, fate) =>
      if ResolveOverlayLayer(w.board, name).Some? then OwnShape(View(now, fate.read.seen), key) else {}
    case DrawBbox(key, _, _, name, _, fate) =>
      if ResolveOverlayLayer(w.board, name).Some? then OwnShape(View(now, fate.read.seen), key) else {}
    case DropKey(key, _, fate) => OwnShape(View(now, fate.read.seen), key)
    case DropScope(scope, _, fate) => Uuids(View(now, fate.read.seen), KeysUnder(View(now, fate.read.seen), scope))
    case DropNamespace(namespace, _, fate) => Uuids(View(now, fate.again.seen), Chosen(w, namespace, fate))
    case DropAll(_, fate) => View(now, fate.read.seen).Values
    case _ => {}
  }

  /** A circle an EnsureMarker draw takes for a leftover of its own point. */
  predicate TakenForLeftover(w: World, e: Event, u: Uuid) {
    && e.DrawMarker? && e.draw.scanned && u !in View(AfterReads(w, e), e.draw.read.seen).Values
    && var r := ResolveOverlayLayer(w.board, e.layerName);
       r.Some? && CircleNear(w.board, u, r.value, e.at, Tolerance(e.radius))
  }

  predicate IsSwept(w: World, e: Event, u: Uuid) {
    e.Sweep? && e.layer in w.board.enabled && IsUserLayer(e.layer) && On(w.board, u, e.layer)
  }

  /** The deletions the board carries out, of those it is asked for. */
  function Gone(e: Event): set<Uuid> {
    match e
    case DrawMarker(_, _, _, _, _, fate) => fate.gone
    case DrawBbox(_, _, _, _, _, fate) => fate.gone
    case DropKey(_, withBoard, fate) => if withBoard then fate.gone else {}
    case DropScope(_, withBoard, fate) => if withBoard then fate.gone else {}
    case DropNamespace(_, withBoard, fate) => if withBoard then fate.gone else {}
    case DropAll(withBoard, fate) => if withBoard then fate.gone else {}
    case Sweep(_, gone) => gone
    case _ => {}
  }

  lemma ReplaceDeletes(w: World, key: Key, shape: Shape, doomed: set<Uuid>, fate: DrawFate, u: Uuid)
    requires u in w.board.shapes && (!fate.drawing.CreateFailed? ==> fate.drawing.uuid !in w.board.shapes)
    ensures u !in Replace(w, key, shape, doomed, fate).board.shapes <==> u in doomed && u in fate.gone
  {}

  lemma EraseDeletes(w: World, uuids: set<Uuid>, withBoard: bool, gone: set<Uuid>, u: Uuid)
    requires u in w.board.shapes
    ensures u !in Erase(w, uuids, withBoard, gone).board.shapes <==> withBoard && u in uuids && u in gone
  {}

  lemma DrawDeletes(w: World, e: Event, u: Uuid)
    requires Clean(w) && Possible(w, e) && IsDraw(e) && u in w.board.shapes
    ensures u in Deleted(w, e) <==> u in Gone(e) && (u in Own(w, e) || TakenForLeftover(w, e, u))
  {
    var r, now := ResolveOverlayLayer(w.board, e.layerName), AfterReads(w, e);
    AfterReadsIs(w, e);
    if r.Some? {
      match e
      case DrawMarker(key, at, _, radius, stroke, fate) =>
        var shape := MakeMarker(at.x, at.y, radius, r.value, stroke);
        ReplaceDeletes(now, key, shape, DoomedByMarker(now, key, at, radius, r.value, fate), fate, u);
      case DrawBbox(key, a, b, _, stroke, fate) =>
        var shape := MakeRectangle(a.x, a.y, b.x, b.y, r.value, stroke);
        ReplaceDeletes(now, key, shape, OwnShape(View(now, fate.read.seen), key), fate, u);
    }
  }

  lemma DropDeletes(w: World, e: Event, u: Uuid)
    requires (e.DropKey? || e.DropScope? || e.DropNamespace? || e.DropAll?) && u in w.board.shapes
    ensures u in Deleted(w, e) <==> u in Gone(e) && u in Own(w, e)
  {
    AfterReadsIs(w, e);
    if e.DropNamespace? && Chosen(w, e.namespace, e.forget) == {} {
      assert Own(w, e) == {};
    }
  }

  /** Exactly what the program deletes: of the uuids that the map, as the operation read it,
      gives to the keys it is about, of the circles it takes for leftovers, and of the
      shapes on a swept, enabled user layer, those the board carries out. */
  lemma {:induction false} OnlyTheseAreDeleted(w: World, e: Event, u: Uuid)
    requires Clean(w) && Possible(w, e) && !e.UserEdit? && u in w.board.shapes
    ensures u in Deleted(w, e) <==>
            u in Gone(e) && (u in Own(w, e) || TakenForLeftover(w, e, u) || IsSwept(w, e, u))
  {
    match e
    case DrawMarker(_, _, _, _, _, _) => DrawDeletes(w, e, u);
    case DrawBbox(_, _, _, _, _, _) => DrawDeletes(w, e, u);
    case DropKey(_, _, _) => DropDeletes(w, e, u);
    case DropScope(_, _, _) => DropDeletes(w, e, u);
    case DropNamespace(_, _, _) => DropDeletes(w, e, u);
    case DropAll(_, _) => DropDeletes(w, e, u);
    case Reconciling(_, _) => AfterReadsIs(w, e);
    case Looking(_) =>
    case OthersSet(_) =>
    case Sweep(_, _) =>
  }

  lemma UuidHasItsKey(view: map<Key, Uuid>, keys: set<Key>, u: Uuid) returns (k: Key)
    requires u in Uuids(view, keys)
    ensures k in keys && k in view && view[k] == u
  {
    k :| k in keys && k in view && view[k] == u;
  }

  /** Own uuids are those of keys the operation is about, in the map it read. */
  lemma OwnHasItsKey(w: World, e: Event, u: Uuid) returns (k: Key)
    requires u in Own(w, e)
    ensures var m := AfterReads(w, e).mapping; About(e, k) && k in m && m[k] == u
  {
    var now := AfterReads(w, e);
    match e
    case DrawMarker(key, _, _, _, _, _) => k := key;
    case DrawBbox(key, _, _, _, _, _) => k := key;
    case DropKey(key, _, _) => k := key;
    case DropScope(scope, _, fate) =>
      k := UuidHasItsKey(View(now, fate.read.seen), KeysUnder(View(now, fate.read.seen), scope), u);
    case DropNamespace(namespace, _, fate) =>
      k := UuidHasItsKey(View(now, fate.again.seen), Chosen(w, namespace, fate), u);
    case DropAll(_, fate) => k :| k in View(now, fate.read.seen) && now.mapping[k] == u;
  }

  /** A live shape of a key the operation is not about is lost exactly when the board carries
      its deletion out, and either it is a circle in the tolerance box of a marker, and the
      map as read does not name it, because it could not be read or is the older one; or
      the older map came back and gives the shape to a key the operation is about. With
      a readable map that stays in force it is never lost. */
  lemma {:induction false} ForeignShapeIsLostIff(w: World, e: Event, k: Key)
    requires Inv(w) && Possible(w, e) && !e.UserEdit? && !e.Sweep?
    requires k in w.mapping && w.mapping[k] in w.board.shapes && !About(e, k)
    ensures w.mapping[k] in Deleted(w, e) <==> LosesTheShape(w, e, k)
    ensures (IsDraw(e) ==> e.draw.read.seen) && !Revives(w, e) ==> !LosesTheShape(w, e, k)
  {
    var u := w.mapping[k];
    OnlyTheseAreDeleted(w, e, u);
    AfterReadsIs(w, e);
    if u in Own(w, e) && !Revives(w, e) {
      var j := OwnHasItsKey(w, e, u);
      assert false;
    }
  }

  predicate LosesTheShape(w: World, e: Event, k: Key)
    requires k in w.mapping
  {
    var u := w.mapping[k];
    u in Gone(e) && (TakenForLeftover(w, e, u) || (Revives(w, e) && u in Own(w, e)))
  }

  // ---- Which keys can be forgotten ----

  /** A read of the event brings back an older map that does not give the key this shape. */
  predicate RevivesOver(w: World, e: Event, k: Key)
    requires k in w.mapping
  {
    Revives(w, e) && !(k in w.legacy && w.legacy[k] == w.mapping[k])
  }

  /** A draw recorded its shape in a map it could not read. */
  predicate DrawsOverAnUnreadMap(w: World, e: Event) {
    && IsDraw(e) && !e.draw.read.seen && e.draw.drawing.Drawn? && e.draw.drawing.saving.Saved?
    && ResolveOverlayLayer(w.board, e.layerName).Some?
  }

  /** A namespace was removed, the first read of the map went well and the second did not. */
  predicate RemovesFromAnUnreadMap(w: World, e: Event) {
    && e.DropNamespace? && !e.forget.again.seen && e.forget.saving.Saved?
    && Chosen(w, e.namespace, e.forget) != {}
  }

  /** A reconciliation found the key's shape gone from the layer. */
  predicate ReconcilesAway(w: World, e: Event, k: Key)
    requires k in w.mapping
  {
    && e.Reconciling? && e.reconcile.read.seen && e.reconcile.scanned && e.reconcile.saving.Saved?
    && var r := ResolveOverlayLayer(w.board, e.layerName); r.Some? && !On(w.board, w.mapping[k], r.value)
  }

  /** Some other component's set could not read the file it then wrote. */
  predicate LosesTheFile(e: Event) { e.OthersSet? && e.wipes }

  predicate Forgets(w: World, e: Event, k: Key)
    requires k in w.mapping
  {
    || RevivesOver(w, e, k) || DrawsOverAnUnreadMap(w, e) || RemovesFromAnUnreadMap(w, e)
    || ReconcilesAway(w, e, k) || LosesTheFile(e)
  }

  predicate Same(m: map<Key, Uuid>, m': map<Key, Uuid>, k: Key) {
    (k in m <==> k in m') && (k in m ==> m[k] == m'[k])
  }

  lemma ReplaceForgetsIff(w: World, key: Key, shape: Shape, doomed: set<Uuid>, fate: DrawFate, k: Key)
    requires k != key
    ensures var after := Replace(w, key, shape, doomed, fate).mapping;
            if !fate.read.seen && fate.drawing.Drawn? && fate.drawing.saving.Saved? then k !in after
            else Same(w.mapping, after, k)
  {}

  lemma DrawForgetsIff(w: World, e: Event, k: Key)
    requires IsDraw(e) && !About(e, k)
    ensures if DrawsOverAnUnreadMap(w, e) then k !in Step(w, e).mapping
            else Same(AfterReads(w, e).mapping, Step(w, e).mapping, k)
  {
    var r, now := ResolveOverlayLayer(w.board, e.layerName), AfterReads(w, e);
    if r.Some? {
      match e
      case DrawMarker(key, at, _, radius, stroke, fate) =>
        var shape := MakeMarker(at.x, at.y, radius, r.value, stroke);
        ReplaceForgetsIff(now, key, shape, DoomedByMarker(now, key, at, radius, r.value, fate), fate, k);
      case DrawBbox(key, a, b, _, stroke, fate) =>
        var shape := MakeRectangle(a.x, a.y, b.x, b.y, r.value, stroke);
        ReplaceForgetsIff(now, key, shape, OwnShape(View(now, fate.read.seen), key), fate, k);
    }
  }

  lemma ForgettingKeepsOthers(w: World, seen: bool, keys: set<Key>, saving: Saving, k: Key)
    requires k !in keys
    ensures Same(w.mapping, Forget(w, View(w, seen), keys, saving).mapping, k)
  {}

  lemma NamespaceForgetsIff(w: World, e: Event, k: Key)
    requires e.DropNamespace? && !About(e, k)
    ensures if RemovesFromAnUnreadMap(w, e) then k !in Step(w, e).mapping
            else Same(AfterReads(w, e).mapping, Step(w, e).mapping, k)
  {
    assert k !in Chosen(w, e.namespace, e.forget);
  }

  lemma ReconcileForgetsIff(w: World, e: Event, k: Key)
    requires e.Reconciling?
    ensures var now := AfterReads(w, e);
            if k in now.mapping && ReconcilesAway(now, e, k) then k !in Step(w, e).mapping
            else Same(now.mapping, Step(w, e).mapping, k)
  {
    var r, now := ResolveOverlayLayer(w.board, e.layerName), AfterReads(w, e);
    AfterReadsIs(w, e);
    if r.Some? && e.reconcile.scanned {
      var view := View(now, e.reconcile.read.seen);
      var live := LiveKeys(view, now.board, r.value);
      assert k in live <==> k in view && On(now.board, view[k], r.value);
      assert view == map[] ==> live == map[];
    }
  }

  /** The key has the same uuid before and after. */
  predicate Kept(w: World, w': World, k: Key)
    requires k in w.mapping
  {
    k in w'.mapping && w'.mapping[k] == w.mapping[k]
  }

  /** A key the operation is not about loses its uuid in exactly these five cases. All but
      the reconciliation are failures of the state file, and take the other keys along. */
  lemma {:induction false} ForeignKeyIsForgottenIff(w: World, e: Event, k: Key)
    requires k in w.mapping && !About(e, k)
    ensures !Kept(w, Step(w, e), k) <==> Forgets(w, e, k)
  {
    var now := AfterReads(w, e);
    AfterReadsIs(w, e);
    match e
    case DrawMarker(_, _, _, _, _, _) => DrawForgetsIff(w, e, k);
    case DrawBbox(_, _, _, _, _, _) => DrawForgetsIff(w, e, k);
    case DropKey(key, _, fate) => ForgettingKeepsOthers(now, fate.read.seen, {key}, fate.saving, k);
    case DropScope(scope, _, fate) =>
      ForgettingKeepsOthers(now, fate.read.seen, KeysUnder(View(now, fate.read.seen), scope), fate.saving, k);
    case DropNamespace(_, _, _) => NamespaceForgetsIff(w, e, k);
    case Reconciling(_, _) => ReconcileForgetsIff(w, e, k);
    case Looking(_) =>
    case OthersSet(_) =>
    case Sweep(_, _) =>
    case UserEdit(_) =>
  }

  ghost predicate NoneAbout(events: seq<Event>, k: Key) {
    forall i :: 0 <= i < |events| ==> !About(events[i], k)
  }

  /** After every event so far the key had the uuid it has at the start. */
  ghost predicate KeptThroughout(w: World, events: seq<Event>, k: Key)
    requires k in w.mapping
  {
    events == [] || (KeptThroughout(w, events[..|events| - 1], k) && Kept(w, RunAll(w, events), k))
  }

  /** Some event of the run, when its turn comes, forgets the key. */
  ghost predicate ForgottenIn(w: World, events: seq<Event>, k: Key) {
    && events != []
    && var front, at := events[..|events| - 1], RunAll(w, events[..|events| - 1]);
       ForgottenIn(w, front, k) || (k in at.mapping && Forgets(at, events[|events| - 1], k))
  }

  /** Over any run of operations on other keys, reads, sweeps, other components' sets and user
      edits, a key has its uuid throughout exactly when none of the five happens. */
  lemma {:induction false} ForeignKeyIsForgottenInRunIff(w: World, events: seq<Event>, k: Key)
    requires k in w.mapping && NoneAbout(events, k)
    ensures KeptThroughout(w, events, k) <==> !ForgottenIn(w, events, k)
  {
    if events != [] {
      var n := |events| - 1;
      var at := RunAll(w, events[..n]);
      ForeignKeyIsForgottenInRunIff(w, events[..n], k);
      if KeptThroughout(w, events[..n], k) {
        assert Kept(w, at, k) by {
          if n == 0 { assert at == w; }
        }
        ForeignKeyIsForgottenIff(at, events[n], k);
      }
    }
  }

  // ---- Which keys keep a live shape ----

  ghost predicate HoldsLive(w: World, k: Key, u: Uuid) {
    k in w.mapping && w.mapping[k] == u && u in w.board.shapes
  }

  /** The event takes the key's uuid, or its shape, away. */
  ghost predicate Loses(w: World, e: Event, k: Key)
    requires k in w.mapping
  {
    || Forgets(w, e, k)
    || (match e
        case UserEdit(board) => w.mapping[k] !in board.shapes
        case Sweep(_, gone) => w.mapping[k] in gone && IsSwept(w, e, w.mapping[k])
        case _ => LosesTheShape(w, e, k))
  }

  /** One event that is not about a key leaves it its uuid and the shape on the board (moved
      by the user or not) exactly when it does neither. */
  lemma {:induction false} StepKeepsTheShapeIff(w: World, e: Event, k: Key, u: Uuid)
    requires Inv(w) && Possible(w, e) && HoldsLive(w, k, u) && !About(e, k)
    ensures HoldsLive(Step(w, e), k, u) <==> !Loses(w, e, k)
  {
    ForeignKeyIsForgottenIff(w, e, k);
    if !e.UserEdit? {
      OnlyTheseAreDeleted(w, e, u);
      if !e.Sweep? {
        ForeignShapeIsLostIff(w, e, k);
      }
    }
  }

  ghost predicate HoldsThroughout(w: World, events: seq<Event>, k: Key, u: Uuid) {
    events == [] || (HoldsThroughout(w, events[..|events| - 1], k, u) && HoldsLive(RunAll(w, events), k, u))
  }

  ghost predicate LostIn(w: World, events: seq<Event>, k: Key) {
    && events != []
    && var front, at := events[..|events| - 1], RunAll(w, events[..|events| - 1]);
       LostIn(w, front, k) || (k in at.mapping && Loses(at, events[|events| - 1], k))
  }

  /** Through any run of events about other things a key has its shape, live, throughout
      exactly when no event of the run takes the uuid or the shape away. */
  lemma {:induction false} KeyKeepsItsShapeIff(w: World, events: seq<Event>, k: Key, u: Uuid)
    requires Inv(w) && PossibleRun(w, events) && HoldsLive(w, k, u) && NoneAbout(events, k)
    ensures HoldsThroughout(w, events, k, u) <==> !LostIn(w, events, k)
  {
    if events != [] {
      var n := |events| - 1;
      var at := RunAll(w, events[..n]);
      assert forall i :: 0 <= i < n ==> events[..n][..i] == events[..i];
      KeyKeepsItsShapeIff(w, events[..n], k, u);
      EveryRunKeepsInv(w, events[..n]);
      if HoldsThroughout(w, events[..n], k, u) {
        assert HoldsLive(at, k, u) by {
          if n == 0 { assert at == w; }
        }
        StepKeepsTheShapeIff(at, events[n], k, u);
      }
    }
  }

  // ---- Failures of the state file, in one small world ----

  const LAYER: Layer := "BL_Dwgs_User"
  const GOOD := MapRead(false, false, true)
  const UNREAD := MapRead(false, false, false)

  /** A circle at this whole number of nanometres along the x axis. */
  function CircleAt(x: int): Shape { Shape(LAYER, Circle(x, 0, x + 1, 0, 1)) }

  /** One circle of "check/R1" at the origin, and one of "point" far from it; and an older map
      that knows another shape. */
  function SmallWorld(): World {
    World(map["check/R1" := "u1", "point" := "u2"], map["old" := "u4"],
          Board([LAYER], map[], map["u1" := CircleAt(0), "u2" := CircleAt(50000000)]), {"u1", "u2", "u4"})
  }

  lemma SmallWorldIsSound(w: World)
    requires w == SmallWorld()
    ensures Inv(w) && "u3" !in w.issued
    ensures ResolveOverlayLayer(w.board, LAYER) == Some(LAYER)
  {
    assert w.mapping.Values == {w.mapping["check/R1"], w.mapping["point"]};
    assert w.legacy.Values == {w.legacy["old"]};
    OnlyEnabledUserLayersResolve(w.board, LAYER);
    assert LAYER in w.board.enabled && IsUserLayer(LAYER) && DisplayName(w.board, LAYER) == LAYER;
    assert "u1"[1] == '1' && "u2"[1] == '2' && "u3"[1] == '3' && "u4"[1] == '4';
  }

  lemma OtherNamesAreOther()
    ensures "check/R1" != "check/R9" && !InScope("check/R1", "point") && InScope("point", "point")
    ensures "check/R1" != "old" && "point" != "old"
  {
    assert "check/R1"[7] == '1' && "check/R9"[7] == '9';
    assert "check/R1"[0] == 'c' && "point/"[0] == 'p' && "old"[0] == 'o';
  }

  /** A mere look at the map, whose first read fails and the others do not, forgets every key
      and brings the older map back. */
  lemma ALookCanBringTheOlderMapBack(w: World, e: Event)
    requires w == SmallWorld() && e == Looking(MapRead(true, false, true))
    ensures Inv(w) && Possible(w, e)
    ensures Step(w, e).mapping == map["old" := "u4"] && "check/R1" !in Step(w, e).mapping
  {
    SmallWorldIsSound(w);
    OtherNamesAreOther();
    assert "old" in w.legacy;
  }

  lemma DrawOverAnUnreadMap(w: World, e: Event)
    requires e.DrawMarker? && DrawsOverAnUnreadMap(w, e) && e.draw.gone == {}
    ensures Step(w, e).mapping == map[e.key := e.draw.drawing.uuid]
    ensures w.board.shapes.Keys <= Step(w, e).board.shapes.Keys
  {
    assert View(w, false)[e.key := e.draw.drawing.uuid] == map[e.key := e.draw.drawing.uuid];
  }

  /** A draw, while the map cannot be read, forgets every other key; their shapes stay on the
      board as orphans. */
  lemma ADrawCanForgetEveryOtherKey(w: World, e: Event)
    requires w == SmallWorld()
    requires e == DrawMarker("check/R9", Point(90.0, 0.0), LAYER, 1.0, 0.1,
                             DrawFate(UNREAD, true, {}, Drawn("u3", Saved(false))))
    ensures Inv(w) && Possible(w, e)
    ensures Step(w, e).mapping == map["check/R9" := "u3"] && w.board.shapes.Keys <= Step(w, e).board.shapes.Keys
  {
    SmallWorldIsSound(w);
    DrawOverAnUnreadMap(w, e);
  }

  /** Removing the namespace "point" while the second read fails takes "check/R1" along. */
  lemma ANamespaceCanTakeAnotherAlong(w: World, e: Event)
    requires w == SmallWorld() && e == DropNamespace("point", true, ForgetFate(GOOD, UNREAD, Saved(false), {}))
    ensures Inv(w) && Possible(w, e) && !About(e, "check/R1")
    ensures "check/R1" in w.mapping && "check/R1" !in Step(w, e).mapping
  {
    SmallWorldIsSound(w);
    OtherNamesAreOther();
    assert "point" in Chosen(w, "point", e.forget);
    NamespaceForgetsIff(w, e, "check/R1");
  }

  /** A draw at the spot of another key's circle, while the map cannot be read, deletes it. */
  lemma ADrawCanDeleteAForeignCircle(w: World, e: Event)
    requires w == SmallWorld()
    requires e == DrawMarker("check/R9", Point(0.0, 0.0), LAYER, 1.0, 0.1,
                             DrawFate(UNREAD, true, {"u1"}, Drawn("u3", Saved(false))))
    ensures Inv(w) && Possible(w, e) && !About(e, "check/R1")
    ensures "check/R1" in w.mapping && w.mapping["check/R1"] in Deleted(w, e)
  {
    SmallWorldIsSound(w);
    OtherNamesAreOther();
    assert ToMm(0) == 0.0;
    assert CircleNear(w.board, "u1", LAYER, Point(0.0, 0.0), Tolerance(1.0));
    UnreadCircleIsDeleted(w, e, "u1");
  }

  lemma UnreadCircleIsDeleted(w: World, e: Event, u: Uuid)
    requires Inv(w) && Possible(w, e)
    requires e.DrawMarker? && !e.draw.read.seen && e.draw.scanned && u in e.draw.gone
    requires ResolveOverlayLayer(w.board, e.layerName).Some?
    requires CircleNear(w.board, u, ResolveOverlayLayer(w.board, e.layerName).value, e.at, Tolerance(e.radius))
    ensures u in Deleted(w, e)
  {
    assert TakenForLeftover(w, e, u);
    DrawDeletes(w, e, u);
  }

  // ---- What a removal forgets and deletes ----

  /** `after` is `before` less these keys, if they are forgotten at all. */
  ghost predicate Less(before: map<Key, Uuid>, after: map<Key, Uuid>, keys: iset<Key>) {
    forall k :: (k in after <==> k in before && k !in keys) && (k in after ==> after[k] == before[k])
  }

  /** Of the shapes of these keys those are gone that the board let go, and no other shape. */
  ghost predicate ShapesGo(m: map<Key, Uuid>, keys: iset<Key>, before: Board, after: Board, gone: set<Uuid>) {
    forall u :: u in before.shapes ==>
      (u !in after.shapes <==> u in gone && exists k :: k in m && k in keys && m[k] == u)
  }

  /** The keys at or under a scope. */
  ghost function Under(scope: Key): iset<Key> { iset k | IsUnder(k, scope) }

  ghost predicate IsUnder(k: Key, scope: Key) { k == scope || exists rest: string :: k == scope + "/" + rest }

  ghost function NoKeys(): iset<Key> { iset{} }

  ghost function KeysIn(view: map<Key, Uuid>): iset<Key> { iset k | k in view }

  lemma ForgettingIsLess(w: World, seen: bool, keys: set<Key>, saving: Saving, wanted: iset<Key>)
    requires forall k :: k in keys && k in View(w, seen) <==> k in wanted && k in View(w, seen)
    ensures Less(w.mapping, Forget(w, View(w, seen), keys, saving).mapping,
                 if seen && saving.Saved? then wanted else NoKeys())
  {
    var view := View(w, seen);
    if keys * view.Keys == {} {
      forall k | k in view ensures k !in keys {
        assert k !in keys * view.Keys;
      }
    } else {
      var k :| k in keys * view.Keys;
      assert seen;
    }
  }

  lemma ErasingIsShapesGo(w: World, view: map<Key, Uuid>, keys: set<Key>, withBoard: bool, gone: set<Uuid>,
      wanted: iset<Key>)
    requires forall k :: k in view ==> (k in keys <==> k in wanted)
    ensures ShapesGo(view, wanted, w.board, Erase(w, Uuids(view, keys), withBoard, gone).board,
                     if withBoard then gone else {})
  {
    var uuids := Uuids(view, keys);
    forall u ensures u in uuids <==> exists k :: k in view && k in wanted && view[k] == u {
      if u in uuids {
        var k := UuidHasItsKey(view, keys, u);
        assert k in wanted;
      }
      if k :| k in view && k in wanted && view[k] == u {
        assert k in keys;
      }
    }
  }

  /** Removing a key takes it from the map as read, and its shape from the board. */
  lemma {:induction false} RemovingAKeyForgetsIt(w: World, key: Key, withBoard: bool, fate: ForgetFate)
    ensures var now, after := AfterRead(w, fate.read), RemoveKey(w, key, withBoard, fate);
            && Less(now.mapping, after.mapping, if fate.read.seen && fate.saving.Saved? then iset{key} else NoKeys())
            && ShapesGo(View(now, fate.read.seen), iset{key}, w.board, after.board, if withBoard then fate.gone else {})
  {
    var now := AfterRead(w, fate.read);
    var view := View(now, fate.read.seen);
    var forgot := Forget(now, view, {key}, fate.saving);
    ForgettingIsLess(now, fate.read.seen, {key}, fate.saving, iset{key});
    ErasingIsShapesGo(forgot, view, {key}, withBoard, fate.gone, iset{key});
    assert OwnShape(view, key) == Uuids(view, {key});
  }

  /** Removing a scope takes exactly the keys at or under it from the map as read, when that could be
      read and the rest written, and their shapes from the board. */
  lemma {:induction false} RemovingAScopeForgetsWhatIsUnder(w: World, scope: Key, withBoard: bool, fate: ForgetFate)
    ensures var now, after := AfterRead(w, fate.read), RemoveScope(w, scope, withBoard, fate);
            && Less(now.mapping, after.mapping,
                    if fate.read.seen && fate.saving.Saved? then Under(scope) else NoKeys())
            && ShapesGo(View(now, fate.read.seen), Under(scope), w.board, after.board,
                        if withBoard then fate.gone else {})
  {
    var now := AfterRead(w, fate.read);
    var view := View(now, fate.read.seen);
    var keys := KeysUnder(view, scope);
    forall k | k in view ensures k in keys <==> k in Under(scope) {
      InScopeIff(k, scope);
    }
    var forgot := Forget(now, view, keys, fate.saving);
    ForgettingIsLess(now, fate.read.seen, keys, fate.saving, Under(scope));
    ErasingIsShapesGo(forgot, view, keys, withBoard, fate.gone, Under(scope));
  }

  /** Removing a namespace takes exactly its keys from the map, when both reads give it, the second
      one leaves it in force and the rest is written; their shapes go that the board lets go. */
  lemma {:induction false} RemovingANamespaceForgetsIt(w: World, namespace: Key, withBoard: bool, fate: ForgetFate)
    requires fate.read.seen && fate.again.seen && !TakesOver(AfterRead(w, fate.read), fate.again)
    ensures var now, after := AfterRead(w, fate.read), RemoveNamespace(w, namespace, withBoard, fate);
            && Less(now.mapping, after.mapping, if fate.saving.Saved? then Under(namespace) else NoKeys())
            && ShapesGo(now.mapping, Under(namespace), w.board, after.board, if withBoard then fate.gone else {})
  {
    var now, keys := AfterRead(w, fate.read), Chosen(w, namespace, fate);
    forall k | k in now.mapping ensures k in keys <==> k in Under(namespace) {
      InScopeIff(k, namespace);
    }
    ErasingIsShapesGo(Save(now, now.mapping - keys, fate.saving), now.mapping, keys, withBoard, fate.gone,
                      Under(namespace));
  }

  /** The same with a second read of its own: what it gives loses the keys the first one found in the
      namespace, and when the first found none nothing more is read or written. */
  lemma {:induction false} RemovingANamespaceWithTwoReads(w: World, namespace: Key, withBoard: bool, fate: ForgetFate)
    ensures var first, after := AfterRead(w, fate.read), RemoveNamespace(w, namespace, withBoard, fate);
            var second := AfterRead(first, fate.again);
            var found := iset k | k in View(first, fate.read.seen) && k in Under(namespace);
            var view := View(second, fate.again.seen);
            if found == NoKeys() then after == first
            else
              && (if fate.saving.Saved? then Less(view, after.mapping, found) else after.mapping == second.mapping)
              && ShapesGo(view, found, w.board, after.board, if withBoard then fate.gone else {})
  {
    var first, keys := AfterRead(w, fate.read), Chosen(w, namespace, fate);
    var seen := View(first, fate.read.seen);
    var found := iset k | k in seen && k in Under(namespace);
    forall k ensures k in keys <==> k in found {
      InScopeIff(k, namespace);
    }
    if keys != {} {
      var k :| k in keys;
      assert k in found;
      var second := AfterRead(first, fate.again);
      var view := View(second, fate.again.seen);
      ErasingIsShapesGo(Save(second, view - keys, fate.saving), view, keys, withBoard, fate.gone, found);
    } else {
      assert found == NoKeys();
    }
  }

  /** Forgetting all empties the map when that is written, and takes every shape of the map read. */
  lemma {:induction false} ForgettingAllForgetsAll(w: World, withBoard: bool, fate: ForgetFate)
    ensures var now, after := AfterRead(w, fate.read), ForgetAll(w, withBoard, fate);
            var view := View(now, fate.read.seen);
            && after.mapping == (if fate.saving.Saved? then map[] else now.mapping)
            && ShapesGo(view, KeysIn(view), w.board, after.board, if withBoard then fate.gone else {})
  {
    var now := AfterRead(w, fate.read);
    var view := View(now, fate.read.seen);
    ErasingIsShapesGo(Save(now, map[], fate.saving), view, view.Keys, withBoard, fate.gone, KeysIn(view));
    assert Uuids(view, view.Keys) == view.Values;
  }

  // ---- Drawing ----

  /** The shapes a draw asks to delete, and the one it puts there. */
  function Doomed(w: World, e: Event, layer: Layer): set<Uuid>
    requires IsDraw(e)
  {
    if e.DrawMarker? then DoomedByMarker(w, e.key, e.at, e.radius, layer, e.draw)
    else OwnShape(View(w, e.draw.read.seen), e.key)
  }

  function DrawnShape(e: Event, layer: Layer): Shape
    requires IsDraw(e)
  {
    if e.DrawMarker? then MakeMarker(e.at.x, e.at.y, e.radius, layer, e.stroke)
    else MakeRectangle(e.a.x, e.a.y, e.b.x, e.b.y, layer, e.stroke)
  }

  /** The draw, of a marker or of a rectangle, found the layer and the map in force, the board
      deleted what it was asked to, and the new shape was created and recorded. */
  ghost predicate Succeeds(w: World, e: Event) {
    && IsDraw(e) && e.draw.read.seen && !Revives(w, e) && (e.DrawMarker? ==> e.draw.scanned)
    && e.draw.drawing.Drawn? && e.draw.drawing.saving.Saved?
    && var r := ResolveOverlayLayer(w.board, e.layerName);
       r.Some? && Doomed(w, e, r.value) <= e.draw.gone
  }

  /** After a successful draw the key owns one live shape, the requested one; its previous
      shape is gone; every other shape and key is as it was, but for the unkeyed circles of
      the layer within tolerance of a marker, of which none is left. */
  lemma DrawIsExact(w: World, e: Event)
    requires Inv(w) && Possible(w, e) && Succeeds(w, e)
    ensures var w', layer, u := Step(w, e), ResolveOverlayLayer(w.board, e.layerName).value, e.draw.drawing.uuid;
            && w'.mapping == w.mapping[e.key := u]
            && u in w'.board.shapes && w'.board.shapes[u] == DrawnShape(e, layer)
            && (e.key in w.mapping ==> w.mapping[e.key] !in w'.board.shapes)
            && w'.board.shapes.Keys - {u} == w.board.shapes.Keys - Doomed(w, e, layer)
            && (forall v :: v in w'.board.shapes && v != u ==> w'.board.shapes[v] == w.board.shapes[v])
            && (e.DrawMarker? ==>
                  OrphansNear(w'.mapping.Values, w'.board, layer, e.at, Tolerance(e.radius)) == {})
  {
    if e.DrawMarker? {
      NoOrphanIsLeft(w, e);
    }
  }

  /** A circle of the layer that no key of the map owns, whose centre is no farther than half the
      radius from the point in either coordinate. */
  ghost predicate IsLeftover(m: map<Key, Uuid>, board: Board, layer: Layer, at: Point, radius: real, v: Uuid) {
    && v in board.shapes && (forall k :: k in m ==> m[k] != v)
    && board.shapes[v].layer == layer && board.shapes[v].geometry.Circle?
    && var dx := board.shapes[v].geometry.cx as real / 1000000.0 - at.x;
       var dy := board.shapes[v].geometry.cy as real / 1000000.0 - at.y;
       -radius <= dx * 2.0 <= radius && -radius <= dy * 2.0 <= radius
  }

  lemma LeftoversAre(m: map<Key, Uuid>, board: Board, layer: Layer, at: Point, radius: real, v: Uuid)
    ensures v in OrphansNear(m.Values, board, layer, at, Tolerance(radius)) <==>
            IsLeftover(m, board, layer, at, radius, v)
    ensures v !in m.Values && v in board.shapes && CircleNear(board, v, layer, at, Tolerance(radius)) <==>
            IsLeftover(m, board, layer, at, radius, v)
  {
    assert v in m.Values <==> exists k :: k in m && m[k] == v;
  }

  ghost predicate IsAsAsked(shape: Shape, e: Event, layer: Layer)
    requires IsDraw(e)
  {
    if e.DrawMarker? then IsMarkerAt(shape, e.at, e.radius, layer, e.stroke)
    else IsBoxBetween(shape, e.a, e.b, layer, e.stroke)
  }

  ghost predicate IsReplaced(w: World, e: Event, layer: Layer, v: Uuid)
    requires IsDraw(e)
  {
    || (e.key in w.mapping && w.mapping[e.key] == v)
    || (e.DrawMarker? && IsLeftover(w.mapping, w.board, layer, e.at, e.radius, v))
  }

  /** What a successful draw leaves to see: under the key the marker or the rectangle that was asked
      for, at its place to the nanometre, on the first enabled drawing layer of that name; and
      of the shapes there were exactly the key's own one and the leftovers are gone. */
  lemma {:induction false} DrawShowsWhatWasAsked(w: World, e: Event)
    requires Inv(w) && Possible(w, e) && Succeeds(w, e)
    ensures var w', layer := Step(w, e), ResolveOverlayLayer(w.board, e.layerName).value;
            && e.key in w'.mapping && w'.mapping[e.key] in w'.board.shapes
            && IsAsAsked(w'.board.shapes[w'.mapping[e.key]], e, layer)
            && forall v :: v in w.board.shapes ==> (v !in w'.board.shapes <==> IsReplaced(w, e, layer, v))
  {
    hide MakeMarker, MakeRectangle, IsMarkerAt, IsBoxBetween, OrphansNear, IsLeftover, Step, ResolveOverlayLayer, Inv;
    DrawIsExact(w, e);
    var layer := ResolveOverlayLayer(w.board, e.layerName).value;
    if e.DrawMarker? {
      MarkerIsWhereAsked(e.at.x, e.at.y, e.radius, layer, e.stroke);
      forall v ensures v in OrphansNear(w.mapping.Values, w.board, layer, e.at, Tolerance(e.radius)) <==>
                       IsLeftover(w.mapping, w.board, layer, e.at, e.radius, v) {
        LeftoversAre(w.mapping, w.board, layer, e.at, e.radius, v);
      }
    } else {
      BoxIsWhereAsked(e.a.x, e.a.y, e.b.x, e.b.y, layer, e.stroke);
    }
    NewIsNotOld(w, e);
    forall v | v in w.board.shapes ensures v !in Step(w, e).board.shapes <==> IsReplaced(w, e, layer, v) {
      assert v in Doomed(w, e, layer) <==> IsReplaced(w, e, layer, v);
      assert v in w.board.shapes.Keys - Doomed(w, e, layer) <==>
             v in Step(w, e).board.shapes.Keys - {e.draw.drawing.uuid};
    }
  }

  lemma NewIsNotOld(w: World, e: Event)
    requires Inv(w) && Possible(w, e) && IsDraw(e) && !e.draw.drawing.CreateFailed?
    ensures e.draw.drawing.uuid !in w.board.shapes
  {}

  lemma NoOrphanIsLeft(w: World, e: Event)
    requires Inv(w) && Possible(w, e) && Succeeds(w, e) && e.DrawMarker?
    ensures var w', layer := Step(w, e), ResolveOverlayLayer(w.board, e.layerName).value;
            OrphansNear(w'.mapping.Values, w'.board, layer, e.at, Tolerance(e.radius)) == {}
  {
    var w', layer, u := Step(w, e), ResolveOverlayLayer(w.board, e.layerName).value, e.draw.drawing.uuid;
    forall v | v in w'.board.shapes && CircleNear(w'.board, v, layer, e.at, Tolerance(e.radius))
      ensures v in w'.mapping.Values
    {
      if v == u {
        assert w'.mapping[e.key] == u;
      } else {
        assert v in w.mapping.Values by {
          assert v !in OrphansNear(w.mapping.Values, w.board, layer, e.at, Tolerance(e.radius));
        }
        var k :| k in w.mapping && w.mapping[k] == v;
        assert k != e.key && w'.mapping[k] == v;
      }
    }
  }

  /** A run of one or more successful draws, all for one key. */
  ghost predicate DrawsOf(w: World, events: seq<Event>, key: Key) {
    && events != []
    && var before, e := events[..|events| - 1], events[|events| - 1];
       && (before == [] || DrawsOf(w, before, key))
       && Possible(RunAll(w, before), e) && Succeeds(RunAll(w, before), e) && e.key == key
  }

  /** Two shapes for one key are impossible: of any number of successful draws for one key,
      markers and rectangles mixed, only the last shape is on the board. */
  lemma {:induction false} RepeatedDrawsLeaveOneShape(w: World, events: seq<Event>, key: Key)
    requires Inv(w) && DrawsOf(w, events, key)
    ensures var w', u := RunAll(w, events), events[|events| - 1].draw.drawing.uuid;
            && Inv(w') && w.issued <= w'.issued
            && key in w'.mapping && w'.mapping[key] == u
            && w'.board.shapes.Keys - w.board.shapes.Keys == {u}
  {
    var before, e := events[..|events| - 1], events[|events| - 1];
    if before != [] {
      RepeatedDrawsLeaveOneShape(w, before, key);
    }
    var at := RunAll(w, before);
    StepKeepsInv(at, e);
    DrawAddsOne(at, e, w.board.shapes.Keys);
  }

  lemma DrawAddsOne(w: World, e: Event, earlier: set<Uuid>)
    requires Inv(w) && Possible(w, e) && Succeeds(w, e)
    requires earlier <= w.issued
    requires w.board.shapes.Keys - earlier <= OwnShape(w.mapping, e.key)
    ensures var w', u := Step(w, e), e.draw.drawing.uuid;
            && e.key in w'.mapping && w'.mapping[e.key] == u
            && w'.board.shapes.Keys - earlier == {u} && w.issued <= w'.issued
  {
    DrawIsExact(w, e);
  }

  /** The draw recorded its shape. */
  predicate Records(e: Event)
    requires IsDraw(e)
  {
    e.draw.drawing.Drawn? && e.draw.drawing.saving.Saved?
  }

  /** The old shapes but the doomed ones, as they were, and the new one if it was created. */
  ghost predicate TouchesOnly(before: Board, after: Board, doomed: set<Uuid>, d: Drawing) {
    && (forall v :: v in before.shapes && v !in doomed ==> v in after.shapes && after.shapes[v] == before.shapes[v])
    && (forall v :: v in after.shapes && v !in before.shapes ==> !d.CreateFailed? && v == d.uuid)
  }

  lemma ReplaceTouchesOnlyTheDoomed(w: World, key: Key, shape: Shape, doomed: set<Uuid>, fate: DrawFate)
    requires w.board.shapes.Keys <= w.issued
    requires !fate.drawing.CreateFailed? ==> fate.drawing.uuid !in w.issued
    ensures TouchesOnly(w.board, Replace(w, key, shape, doomed, fate).board, doomed, fate.drawing)
  {}

  lemma DrawTouchesOnlyTheDoomed(w: World, e: Event)
    requires Inv(w) && Possible(w, e) && IsDraw(e) && ResolveOverlayLayer(w.board, e.layerName).Some?
    ensures var layer := ResolveOverlayLayer(w.board, e.layerName).value;
            TouchesOnly(w.board, Step(w, e).board, Doomed(AfterReads(w, e), e, layer), e.draw.drawing)
  {
    hide Replace, TouchesOnly, ResolveOverlayLayer, MakeMarker, MakeRectangle, OrphansNear;
    var layer, now := ResolveOverlayLayer(w.board, e.layerName).value, AfterReads(w, e);
    AfterReadsIs(w, e);
    ReplaceTouchesOnlyTheDoomed(now, e.key, DrawnShape(e, layer), Doomed(now, e, layer), e.draw);
  }

  /** The worst a draw can do when the board or the state file fails under it. Nothing
      but the doomed shapes is touched and at most one shape is added. Unless the new
      shape is recorded the map is as the read left it, so the new shape, if any, is an
      orphan and the key is dead if its old shape was deleted. The other keys are as they
      were exactly when, if the draw recorded over a map it could not read, there were none,
      and otherwise the read did not bring an older map back that has others. */
  lemma {:induction false} FailedDrawIsContained(w: World, e: Event)
    requires Inv(w) && Possible(w, e) && IsDraw(e) && ResolveOverlayLayer(w.board, e.layerName).Some?
    ensures var now, w', d := AfterReads(w, e), Step(w, e), e.draw.drawing;
            var layer := ResolveOverlayLayer(w.board, e.layerName).value;
            && Inv(w')
            && TouchesOnly(w.board, w'.board, Doomed(now, e, layer), d)
            && (!Records(e) ==> w'.mapping == now.mapping && (!d.CreateFailed? ==> d.uuid !in w'.mapping.Values))
            && (w'.mapping - {e.key} == w.mapping - {e.key} <==>
                if Records(e) && !e.draw.read.seen then w.mapping.Keys <= {e.key}
                else Revives(w, e) ==> w.legacy - {e.key} == w.mapping - {e.key})
  {
    hide ResolveOverlayLayer, Step, Doomed;
    DrawTouchesOnlyTheDoomed(w, e);
    DrawKeepsInv(w, e);
    AfterReadsIs(w, e);
    AfterReadKeepsInv(w, e.draw.read);
    DrawLeavesTheMap(w, e);
    OthersStayIff(w, e);
  }

  /** The map after a draw, of which the other keys are a part of the map read, or of none. */
  lemma DrawLeavesTheMap(w: World, e: Event)
    requires IsDraw(e) && ResolveOverlayLayer(w.board, e.layerName).Some?
    ensures Step(w, e).mapping ==
            var now := AfterReads(w, e);
            if Records(e) then View(now, e.draw.read.seen)[e.key := e.draw.drawing.uuid] else now.mapping
  {
    hide ResolveOverlayLayer, DoomedByMarker, MakeMarker, MakeRectangle, OwnShape;
  }

  lemma OthersStayIff(w: World, e: Event)
    requires IsDraw(e) && ResolveOverlayLayer(w.board, e.layerName).Some?
    ensures var w' := Step(w, e);
            w'.mapping - {e.key} == w.mapping - {e.key} <==>
            if Records(e) && !e.draw.read.seen then w.mapping.Keys <= {e.key}
            else Revives(w, e) ==> w.legacy - {e.key} == w.mapping - {e.key}
  {
    var now, w', key := AfterReads(w, e), Step(w, e), e.key;
    AfterReadsIs(w, e);
    DrawLeavesTheMap(w, e);
    if Records(e) && !e.draw.read.seen {
      assert (w'.mapping - {key}).Keys == {};
      assert (w.mapping - {key}).Keys == w.mapping.Keys - {key};
      if w.mapping.Keys <= {key} {
        assert (w.mapping - {key}).Keys == {};
      } else {
        var k :| k in w.mapping && k != key;
        assert k in (w.mapping - {key}).Keys;
      }
    } else {
      assert w'.mapping - {key} == now.mapping - {key};
    }
  }

  // ---- Reconciliation ----

  /** Afterwards the map and the layer agree, the board is untouched, of the map as read
      exactly the keys whose shape is not on the layer are gone, and a second reconciliation
      that reads the map in force has nothing to drop. */
  lemma ReconcileRestoresAgreement(w: World, layerName: string, fate: ReconcileFate, second: ReconcileFate)
    requires fate.read.seen && fate.scanned && fate.saving.Saved? && ResolveOverlayLayer(w.board, layerName).Some?
    requires second.read.seen && !second.read.revives
    ensures var w', layer := Reconcile(w, layerName, fate), ResolveOverlayLayer(w.board, layerName).value;
            var read := AfterRead(w, fate.read).mapping;
            && w'.board == w.board
            && (forall k :: k in w'.mapping <==> k in read && On(w.board, read[k], layer))
            && (forall k :: k in w'.mapping ==> w'.mapping[k] == read[k])
            && w'.mapping.Values <= ShapesOn(w'.board, layer)
            && LiveKeys(w'.mapping, w'.board, layer) == w'.mapping
            && Reconcile(w', layerName, second) == w'
  {
    var w', layer := Reconcile(w, layerName, fate), ResolveOverlayLayer(w.board, layerName).value;
    assert w'.mapping == LiveKeys(AfterRead(w, fate.read).mapping, w.board, layer);
  }
}
