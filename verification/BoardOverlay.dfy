/** The low-level overlay layer (gui/board_overlay.py): what a live board holds, which
    layers may be drawn on and swept, and the adapter through which it is changed. */
module BoardOverlay {
  import opened Sequences
  import opened Wrappers

  type Uuid = string

  /** A layer is named by its kipy enum member; the display name belongs to the user. */
  type Layer = string

  const MM := 1000000.0
  const USER_LAYERS: set<Layer> := {"BL_Dwgs_User", "BL_Cmts_User", "BL_Eco1_User", "BL_Eco2_User"}

  /** A position in millimetres. */
  datatype Point = Point(x: real, y: real)

  /** What is drawn, in KiCad's whole nanometres. */
  datatype Geometry =
    | Circle(cx: int, cy: int, rx: int, ry: int, stroke: int)
    | Rectangle(x1: int, y1: int, x2: int, y2: int, stroke: int)
    | OtherGraphic

  datatype Shape = Shape(layer: Layer, geometry: Geometry)

  datatype Board = Board(enabled: seq<Layer>, names: map<Layer, string>, shapes: map<Uuid, Shape>)

  /** int(v * MM): truncation toward zero. */
  function ToNm(v: real): int {
    if v >= 0.0 then (v * MM).Floor else -((-v * MM).Floor)
  }

  function ToMm(v: int): real { v as real / MM }

  function MakeMarker(x: real, y: real, radius: real, layer: Layer, stroke: real): Shape {
    Shape(layer, Circle(ToNm(x), ToNm(y), ToNm(x + radius), ToNm(y), ToNm(stroke)))
  }

  function MakeRectangle(x1: real, y1: real, x2: real, y2: real, layer: Layer, stroke: real): Shape {
    Shape(layer, Rectangle(ToNm(x1), ToNm(y1), ToNm(x2), ToNm(y2), ToNm(stroke)))
  }

  // ---- Where a drawn shape is ----

  /** `nm` are the whole nanometres of `mm`: less than one short of the length, and on the side
      of zero, whatever its sign. */
  predicate CutTo(mm: real, nm: int) {
    if mm >= 0.0 then nm as real <= mm * 1000000.0 < nm as real + 1.0
    else nm as real - 1.0 < mm * 1000000.0 <= nm as real
  }

  /** A circle of the layer around the point, through the point `radius` to its right. */
  predicate IsMarkerAt(s: Shape, at: Point, radius: real, layer: Layer, stroke: real) {
    && s.layer == layer && s.geometry.Circle?
    && CutTo(at.x, s.geometry.cx) && CutTo(at.y, s.geometry.cy)
    && CutTo(at.x + radius, s.geometry.rx) && CutTo(at.y, s.geometry.ry) && CutTo(stroke, s.geometry.stroke)
  }

  /** A rectangle of the layer with these corners. */
  predicate IsBoxBetween(s: Shape, a: Point, b: Point, layer: Layer, stroke: real) {
    && s.layer == layer && s.geometry.Rectangle?
    && CutTo(a.x, s.geometry.x1) && CutTo(a.y, s.geometry.y1)
    && CutTo(b.x, s.geometry.x2) && CutTo(b.y, s.geometry.y2) && CutTo(stroke, s.geometry.stroke)
  }

  lemma NmIsCut(v: real)
    ensures CutTo(v, ToNm(v))
  {}

  /** A marker is drawn at the point asked for, to the nanometre. */
  lemma MarkerIsWhereAsked(x: real, y: real, radius: real, layer: Layer, stroke: real)
    ensures IsMarkerAt(MakeMarker(x, y, radius, layer, stroke), Point(x, y), radius, layer, stroke)
  {
    hide ToNm, CutTo;
    NmIsCut(x);
    NmIsCut(y);
    NmIsCut(x + radius);
    NmIsCut(stroke);
  }

  lemma BoxIsWhereAsked(x1: real, y1: real, x2: real, y2: real, layer: Layer, stroke: real)
    ensures IsBoxBetween(MakeRectangle(x1, y1, x2, y2, layer, stroke), Point(x1, y1), Point(x2, y2), layer, stroke)
  {
    hide ToNm, CutTo;
    NmIsCut(x1);
    NmIsCut(y1);
    NmIsCut(x2);
    NmIsCut(y2);
    NmIsCut(stroke);
  }

  /** And a listing finds it there again: its centre is read back to less than a nanometre; a
      rectangle has none. */
  lemma DrawnShapesAreSeenWhereAsked(uuid: Uuid, a: Point, b: Point, radius: real, layer: Layer, stroke: real)
    ensures var seen := Seen(uuid, MakeMarker(a.x, a.y, radius, layer, stroke));
            && seen.uuid == uuid && seen.kind.CircleKind? && seen.center.Some?
            && -0.000001 < seen.center.value.x - a.x < 0.000001
            && -0.000001 < seen.center.value.y - a.y < 0.000001
    ensures Seen(uuid, MakeRectangle(a.x, a.y, b.x, b.y, layer, stroke)) == OverlayShape(uuid, RectKind, None)
  {
    MarkerIsWhereAsked(a.x, a.y, radius, layer, stroke);
  }

  // ---- Layers ----

  predicate IsUserLayer(layer: Layer) { "BL_User_" <= layer || layer in USER_LAYERS }

  function DisplayName(board: Board, layer: Layer): string {
    if layer in board.names then board.names[layer] else layer
  }

  /** The enabled user layers, in the board's order. */
  function OverlayLayers(layers: seq<Layer>): seq<Layer> { Filter(layers, IsUserLayer) }

  /** The first enabled user layer the user sees under this name. */
  function ResolveIn(board: Board, layers: seq<Layer>, wanted: string): (r: Option<Layer>)
    ensures r.Some? ==> r.value in layers && DisplayName(board, r.value) == wanted
    ensures r.None? ==> forall l :: l in layers ==> DisplayName(board, l) != wanted
  {
    if layers == [] then None
    else if DisplayName(board, layers[0]) == wanted then Some(layers[0])
    else ResolveIn(board, layers[1..], wanted)
  }

  function ResolveOverlayLayer(board: Board, wanted: string): Option<Layer> {
    ResolveIn(board, OverlayLayers(board.enabled), wanted)
  }

  /** A name never resolves to copper, silkscreen or the board edge. */
  lemma OnlyEnabledUserLayersResolve(board: Board, wanted: string)
    ensures var r := ResolveOverlayLayer(board, wanted);
            && (r.Some? ==> r.value in board.enabled && IsUserLayer(r.value) && DisplayName(board, r.value) == wanted)
            && (r.None? <==> forall l :: l in board.enabled && IsUserLayer(l) ==> DisplayName(board, l) != wanted)
  {
    var known := OverlayLayers(board.enabled);
    assert forall l :: l in known <==> l in board.enabled && IsUserLayer(l);
  }

  /** A layer of the board itself, by its name: copper, silkscreen, mask, paste, glue, courtyard
      or fabrication of a side, inner copper, the edge, the margin. */
  predicate IsBoardLayer(layer: Layer) {
    "BL_F_" <= layer || "BL_B_" <= layer || "BL_In" <= layer || layer == "BL_Edge_Cuts" || layer == "BL_Margin"
  }

  /** A layer for the user's drawings, by its name. */
  ghost predicate IsDrawingLayer(layer: Layer) {
    || layer == "BL_Dwgs_User" || layer == "BL_Cmts_User" || layer == "BL_Eco1_User" || layer == "BL_Eco2_User"
    || exists suffix: string :: layer == "BL_User_" + suffix
  }

  lemma UserLayersAreTheDrawingLayers(layer: Layer)
    ensures IsUserLayer(layer) <==> IsDrawingLayer(layer)
    ensures IsBoardLayer(layer) ==> !IsUserLayer(layer)
  {
    if "BL_User_" <= layer {
      assert layer == "BL_User_" + layer[8..];
    }
    assert IsBoardLayer(layer) ==> |layer| > 4 && layer[3] in {'F', 'B', 'I', 'E', 'M'};
    assert "BL_User_"[3] == 'U' && "BL_Dwgs_User"[3] == 'D' && "BL_Cmts_User"[3] == 'C';
    assert "BL_Eco1_User"[4] == 'c' && "BL_Eco2_User"[4] == 'c' && "BL_Edge_Cuts"[4] == 'd';
  }

  /** The user sees the layer under this name: its own, or the one given to it. */
  ghost predicate ShownAs(board: Board, layer: Layer, name: string) {
    if layer in board.names then board.names[layer] == name else layer == name
  }

  lemma {:induction false} ResolveOneMore(board: Board, layers: seq<Layer>, last: Layer, wanted: string)
    ensures ResolveIn(board, layers + [last], wanted) ==
            if ResolveIn(board, layers, wanted).Some? then ResolveIn(board, layers, wanted)
            else if DisplayName(board, last) == wanted then Some(last) else None
  {
    if layers == [] {
      assert ([] + [last])[1..] == [];
    } else {
      assert (layers + [last])[0] == layers[0] && (layers + [last])[1..] == layers[1..] + [last];
      ResolveOneMore(board, layers[1..], last, wanted);
    }
  }

  lemma OverlayLayersOneMore(layers: seq<Layer>)
    ensures OverlayLayers(layers) ==
            if layers == [] then []
            else if IsUserLayer(layers[|layers| - 1])
            then OverlayLayers(layers[..|layers| - 1]) + [layers[|layers| - 1]]
            else OverlayLayers(layers[..|layers| - 1])
  {}

  /** It is a drawing layer the user sees under this name. */
  ghost predicate Wanted(board: Board, layer: Layer, wanted: string) {
    IsDrawingLayer(layer) && ShownAs(board, layer, wanted)
  }

  lemma {:induction false} ResolvesToTheFirst(board: Board, layers: seq<Layer>, wanted: string) returns (i: nat)
    ensures i <= |layers| && forall j :: 0 <= j < i ==> !Wanted(board, layers[j], wanted)
    ensures ResolveIn(board, OverlayLayers(layers), wanted) == if i < |layers| then Some(layers[i]) else None
    ensures i < |layers| ==> Wanted(board, layers[i], wanted)
  {
    hide IsDrawingLayer, IsUserLayer, OverlayLayers, ResolveIn;
    OverlayLayersOneMore(layers);
    if layers == [] {
      ResolveInNothing(board, wanted);
      return 0;
    }
    var n := |layers| - 1;
    i := ResolvesToTheFirst(board, layers[..n], wanted);
    UserLayersAreTheDrawingLayers(layers[n]);
    ResolveOneMore(board, OverlayLayers(layers[..n]), layers[n], wanted);
    if i == n && !Wanted(board, layers[n], wanted) {
      i := n + 1;
    }
  }

  lemma ResolveInNothing(board: Board, wanted: string)
    ensures ResolveIn(board, [], wanted) == None
  {}

  /** A display name leads to the first enabled drawing layer shown under it, in the board's order,
      and so, whatever the user calls the layers, never to a layer of the board itself. */
  lemma {:induction false} NameLeadsToTheFirstDrawingLayer(board: Board, wanted: string) returns (i: nat)
    ensures i <= |board.enabled| && forall j :: 0 <= j < i ==> !Wanted(board, board.enabled[j], wanted)
    ensures i < |board.enabled| ==> Wanted(board, board.enabled[i], wanted) && !IsBoardLayer(board.enabled[i])
    ensures ResolveOverlayLayer(board, wanted) == if i < |board.enabled| then Some(board.enabled[i]) else None
  {
    i := ResolvesToTheFirst(board, board.enabled, wanted);
    if i < |board.enabled| {
      UserLayersAreTheDrawingLayers(board.enabled[i]);
    }
  }

  // ---- The one traversal of a layer ----

  datatype Kind = CircleKind | RectKind | OtherKind

  datatype OverlayShape = OverlayShape(uuid: Uuid, kind: Kind, center: Option<Point>)

  function Seen(uuid: Uuid, shape: Shape): OverlayShape {
    match shape.geometry
    case Circle(cx, cy, _, _, _) => OverlayShape(uuid, CircleKind, Some(Point(ToMm(cx), ToMm(cy))))
    case Rectangle(_, _, _, _, _) => OverlayShape(uuid, RectKind, None)
    case OtherGraphic => OverlayShape(uuid, OtherKind, None)
  }

  predicate On(board: Board, uuid: Uuid, layer: Layer) {
    uuid in board.shapes && board.shapes[uuid].layer == layer
  }

  /** The list names every visited shape of the layer once, in some order, and
      nothing else. */
  ghost predicate ListsAmong(list: seq<OverlayShape>, board: Board, layer: Layer, visited: set<Uuid>) {
    && (forall i :: 0 <= i < |list| ==> list[i].uuid in visited && On(board, list[i].uuid, layer))
    && (forall i :: 0 <= i < |list| ==> list[i] == Seen(list[i].uuid, board.shapes[list[i].uuid]))
    && (forall u :: u in visited && On(board, u, layer) ==> exists i :: 0 <= i < |list| && list[i].uuid == u)
    && (forall i, j :: 0 <= i < j < |list| ==> list[i].uuid != list[j].uuid)
  }

  ghost predicate Lists(list: seq<OverlayShape>, board: Board, layer: Layer) {
    ListsAmong(list, board, layer, board.shapes.Keys)
  }

  ghost function ShapesOn(board: Board, layer: Layer): set<Uuid> {
    set u | u in board.shapes && On(board, u, layer)
  }

  function Elements<T>(s: seq<T>): set<T> { set x | x in s }

  function Without(board: Board, uuids: set<Uuid>): Board {
    board.(shapes := board.shapes - uuids)
  }

  // ---- The adapter ----

  class BoardAdapter {
    var board: Board
    /** Every uuid any shape of this board has ever had. */
    ghost var issued: set<Uuid>

    /** `ever` has the uuids of all shapes so far, those deleted before this session too. */
    constructor (board: Board, ghost ever: set<Uuid>)
      requires board.shapes.Keys <= ever
      ensures this.board == board && issued == ever
    {
      this.board, issued := board, ever;
    }

    /** Deletes by uuid; one that is gone already is no error. `gone` says which
        deletions KiCad carries out: it may refuse any of them, or all. */
    method RemoveByIds(uuids: seq<Uuid>, gone: set<Uuid>)
      modifies this`board
      ensures board == Without(old(board), Elements(uuids) * gone)
    {
      board := Without(board, Elements(uuids) * gone);
    }

    /** Puts one shape on the board under a uuid no shape has had before. */
    method CreateItem(shape: Shape, uuid: Uuid)
      requires uuid !in issued
      modifies this
      ensures board == old(board).(shapes := old(board).shapes[uuid := shape])
      ensures issued == old(issued) + {uuid}
    {
      board := board.(shapes := board.shapes[uuid := shape]);
      issued := issued + {uuid};
    }

    /** Every shape of the board once, in whatever order KiCad gives. */
    method GetShapes() returns (list: seq<(Uuid, Shape)>)
      ensures forall i :: 0 <= i < |list| ==> list[i].0 in board.shapes && list[i].1 == board.shapes[list[i].0]
      ensures forall u :: u in board.shapes ==> exists i :: 0 <= i < |list| && list[i].0 == u
      ensures forall i, j :: 0 <= i < j < |list| ==> list[i].0 != list[j].0
    {
      list := [];
      var rest := board.shapes.Keys;
      while rest != {}
        invariant rest <= board.shapes.Keys
        invariant forall i :: 0 <= i < |list| ==>
                    list[i].0 in board.shapes && list[i].0 !in rest && list[i].1 == board.shapes[list[i].0]
        invariant forall u :: u in board.shapes && u !in rest ==> exists i :: 0 <= i < |list| && list[i].0 == u
        invariant forall i, j :: 0 <= i < j < |list| ==> list[i].0 != list[j].0
        decreases |rest|
      {
        var u :| u in rest;
        ghost var before := list;
        list := list + [(u, board.shapes[u])];
        assert list[|before|].0 == u;
        assert forall i :: 0 <= i < |before| ==> list[i] == before[i];
        rest := rest - {u};
      }
    }
  }

  /** The shapes of one layer. Read-only. */
  method ListOverlayShapes(adapter: BoardAdapter, layer: Layer) returns (list: seq<OverlayShape>)
    ensures Lists(list, adapter.board, layer)
  {
    var all := adapter.GetShapes();
    list := [];
    ghost var visited: set<Uuid> := {};
    for n := 0 to |all|
      invariant forall m :: 0 <= m < |all| ==> (all[m].0 in visited <==> m < n)
      invariant ListsAmong(list, adapter.board, layer, visited)
    {
      var (uuid, shape) := all[n];
      if shape.layer == layer {
        ListsOneMore(list, adapter.board, layer, visited, uuid);
        list := list + [Seen(uuid, shape)];
      }
      visited := visited + {uuid};
    }
  }

  lemma ListsOneMore(list: seq<OverlayShape>, board: Board, layer: Layer, visited: set<Uuid>, uuid: Uuid)
    requires ListsAmong(list, board, layer, visited) && uuid !in visited && On(board, uuid, layer)
    ensures ListsAmong(list + [Seen(uuid, board.shapes[uuid])], board, layer, visited + {uuid})
  {
    var longer := list + [Seen(uuid, board.shapes[uuid])];
    assert longer[|list|].uuid == uuid;
    forall u | u in visited && On(board, u, layer) ensures exists i :: 0 <= i < |longer| && longer[i].uuid == u {
      var i :| 0 <= i < |list| && list[i].uuid == u;
      assert longer[i].uuid == u;
    }
  }

  /** Deletes every shape of a layer, refusing any layer that is not an enabled user
      layer. Returns how many were there, whatever KiCad made of the request. */
  method SweepLayer(adapter: BoardAdapter, layer: Layer, gone: set<Uuid>) returns (r: Result<nat, ()>)
    modifies adapter`board
    ensures r.Failure? <==> !(layer in old(adapter.board).enabled && IsUserLayer(layer))
    ensures adapter.board == Swept(old(adapter.board), layer, gone)
    ensures r.Success? ==> r.value == |ShapesOn(old(adapter.board), layer)|
  {
    var known := OverlayLayers(adapter.board.enabled);
    if layer !in known {
      return Failure(());
    }
    var list := ListOverlayShapes(adapter, layer);
    var uuids := seq(|list|, i requires 0 <= i < |list| => list[i].uuid);
    ListedUuidsAreTheShapes(list, uuids, adapter.board, layer);
    if |list| == 0 {
      assert ShapesOn(adapter.board, layer) == {};
      return Success(0);
    }
    adapter.RemoveByIds(uuids, gone);
    r := Success(|list|);
  }

  ghost function Swept(board: Board, layer: Layer, gone: set<Uuid>): Board {
    if layer in board.enabled && IsUserLayer(layer) then Without(board, ShapesOn(board, layer) * gone) else board
  }

  /** A sweep takes the shapes of its layer that KiCad lets go, and nothing from any other; a layer
      of the board itself is never swept. */
  lemma SweepingTakesTheLayer(board: Board, layer: Layer, gone: set<Uuid>, u: Uuid)
    requires u in board.shapes
    ensures var after := Swept(board, layer, gone);
            && (u !in after.shapes <==>
                u in gone && board.shapes[u].layer == layer && layer in board.enabled && IsDrawingLayer(layer))
            && (u in after.shapes ==> after.shapes[u] == board.shapes[u])
            && (IsBoardLayer(layer) ==> after == board)
            && after.enabled == board.enabled && after.names == board.names && after.shapes.Keys <= board.shapes.Keys
  {
    UserLayersAreTheDrawingLayers(layer);
  }

  lemma ListedUuidsAreTheShapes(list: seq<OverlayShape>, uuids: seq<Uuid>, board: Board, layer: Layer)
    requires Lists(list, board, layer)
    requires |uuids| == |list| && forall i :: 0 <= i < |list| ==> uuids[i] == list[i].uuid
    ensures Elements(uuids) == ShapesOn(board, layer)
    ensures |ShapesOn(board, layer)| == |list|
  {
    forall u | On(board, u, layer) ensures u in uuids {
      var i :| 0 <= i < |list| && list[i].uuid == u;
      assert uuids[i] == u;
    }
    assert Elements(uuids) == ShapesOn(board, layer);
    DistinctElementsCount(uuids);
  }

  lemma {:induction false} DistinctElementsCount(s: seq<Uuid>)
    requires forall i, j :: 0 <= i < j < |s| ==> s[i] != s[j]
    ensures |Elements(s)| == |s|
  {
    if s != [] {
      var n := |s| - 1;
      DistinctElementsCount(s[..n]);
      assert s == s[..n] + [s[n]];
      assert Elements(s) == Elements(s[..n]) + {s[n]};
    }
  }
}
