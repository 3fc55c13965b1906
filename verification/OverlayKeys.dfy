/** The namespaced keys of the overlay markers and the one-time migration of the
    older nested map (gui/overlay_markers.py, top of the file). */
module OverlayKeys {
  import opened BoardOverlay
  import opened JsonValues
  import opened PyText

  type Key = string

  const MARKERS_KEY := "overlay_markers"
  const LEGACY_KEY := "cell_anchor_overlay"
  const SLOTS := ["marker", "bbox"]

  function CellAnchorScope(root: string, cell: string): Key {
    "cell-anchor/" + root + "/" + cell
  }

  function CellAnchorKey(root: string, cell: string, slot: string): Key {
    CellAnchorScope(root, cell) + "/" + slot
  }

  /** The scope itself or anything strictly under it; a namespace is the scope of
      one segment. */
  predicate InScope(key: Key, scope: Key) {
    key == scope || StartsWith(key, scope + "/")
  }

  /** The scope, or the scope, a slash and anything after it. */
  lemma InScopeIff(key: Key, scope: Key)
    ensures InScope(key, scope) <==> key == scope || exists rest: string :: key == scope + "/" + rest
  {
    if StartsWith(key, scope + "/") {
      assert key == scope + "/" + key[|scope| + 1..];
    }
  }

  // ---- Keys say who they belong to ----

  /** Two slots get one key exactly when their root and cell read the same once
      joined; with slash-free cell names that means the same root and the same cell,
      however many slashes the root path has. */
  lemma CellAnchorKeysCollideIff(r1: string, c1: string, s1: string, r2: string, c2: string, s2: string)
    requires Free(s1, '/') && Free(s2, '/')
    ensures CellAnchorKey(r1, c1, s1) == CellAnchorKey(r2, c2, s2) <==>
            r1 + "/" + c1 == r2 + "/" + c2 && s1 == s2
    ensures Free(c1, '/') && Free(c2, '/') ==>
            (CellAnchorKey(r1, c1, s1) == CellAnchorKey(r2, c2, s2) <==> r1 == r2 && c1 == c2 && s1 == s2)
  {
    var p1, p2 := CellAnchorScope(r1, c1), CellAnchorScope(r2, c2);
    ScopeIsPrefixPlusPair(r1, c1);
    ScopeIsPrefixPlusPair(r2, c2);
    if p1 + "/" + s1 == p2 + "/" + s2 {
      JoinIsInjective(p1, s1, p2, s2, '/');
    }
    if r1 + "/" + c1 == r2 + "/" + c2 && Free(c1, '/') && Free(c2, '/') {
      JoinIsInjective(r1, c1, r2, c2, '/');
    }
  }

  lemma ScopeIsPrefixPlusPair(r: string, c: string)
    ensures CellAnchorScope(r, c) == "cell-anchor/" + (r + "/" + c)
    ensures CellAnchorScope(r, c)[|"cell-anchor/"|..] == r + "/" + c
  {}

  function FirstSegment(s: string): string {
    if s == "" || s[0] == '/' then "" else [s[0]] + FirstSegment(s[1..])
  }

  lemma {:induction false} FirstSegmentIsTheScope(s: string, segment: string)
    requires Free(segment, '/') && InScope(s, segment)
    ensures FirstSegment(s) == segment
  {
    if segment != "" {
      assert segment == [segment[0]] + segment[1..];
      assert s != segment ==> StartsWith(s[1..], segment[1..] + "/");
      FirstSegmentIsTheScope(s[1..], segment[1..]);
    }
  }

  /** No key is at or under the scopes of two different slash-free cells of one root. */
  lemma ScopesOfOneRootAreDisjoint(root: string, c1: string, c2: string, key: Key)
    requires Free(c1, '/') && Free(c2, '/') && c1 != c2
    ensures !(InScope(key, CellAnchorScope(root, c1)) && InScope(key, CellAnchorScope(root, c2)))
  {
    if InScope(key, CellAnchorScope(root, c1)) && InScope(key, CellAnchorScope(root, c2)) {
      var p := "cell-anchor/" + root + "/";
      assert CellAnchorScope(root, c1) == p + c1 && CellAnchorScope(root, c2) == p + c2;
      FirstSegmentIsTheScope(key[|p|..], c1);
      FirstSegmentIsTheScope(key[|p|..], c2);
    }
  }

  /** Across roots a scope can reach into another's keys, and exactly when the other
      root path goes through it: forgetting cell "x" of root "/p" also forgets every
      cell of a root "/p/x" or under it. */
  lemma ScopeReachesIff(r1: string, c1: string, r2: string, c2: string, slot: string)
    requires Free(c1, '/') && Free(c2, '/') && Free(slot, '/')
    ensures InScope(CellAnchorKey(r2, c2, slot), CellAnchorScope(r1, c1)) <==>
            (r1 == r2 && c1 == c2) || InScope(r2, r1 + "/" + c1)
            || (r1 == r2 + "/" + c2 && c1 == slot)
  {
    var pair, full := r1 + "/" + c1, r2 + "/" + c2 + "/" + slot;
    ScopeIsPrefixPlusPair(r1, c1);
    ScopeIsPrefixPlusPair(r2, c2);
    var key, scope := CellAnchorKey(r2, c2, slot), CellAnchorScope(r1, c1);
    assert key == "cell-anchor/" + full && scope == "cell-anchor/" + pair;
    assert StartsWith(key, scope + "/") <==> StartsWith(full, pair + "/") by {
      assert scope + "/" == "cell-anchor/" + (pair + "/");
      if StartsWith(key, scope + "/") { assert full == key[12..]; assert (pair + "/") == (scope + "/")[12..]; }
    }
    assert key == scope <==> full == pair by {
      assert key[12..] == full && scope[12..] == pair;
    }
    if full == pair {
      JoinIsInjective(r1, c1, r2 + "/" + c2, slot, '/');
    }
    UnderThePairIff(r1, c1, r2, c2, slot);
  }

  lemma UnderThePairIff(r1: string, c1: string, r2: string, c2: string, slot: string)
    requires Free(c1, '/') && Free(c2, '/') && Free(slot, '/')
    ensures StartsWith(r2 + "/" + c2 + "/" + slot, r1 + "/" + c1 + "/") <==>
            (r1 == r2 && c1 == c2) || InScope(r2, r1 + "/" + c1)
  {
    var pair, full := r1 + "/" + c1, r2 + "/" + c2 + "/" + slot;
    if StartsWith(full, pair + "/") {
      UnderThePair(r1, c1, r2, c2, slot);
    }
    if InScope(r2, pair) {
      assert full == r2 + ("/" + c2 + "/" + slot);
      if r2 != pair { assert full[..|pair| + 1] == r2[..|pair| + 1]; }
      else { assert full[..|pair| + 1] == pair + "/"; }
    }
    if r1 == r2 && c1 == c2 {
      assert full[..|pair| + 1] == pair + "/";
    }
  }

  lemma UnderThePair(r1: string, c1: string, r2: string, c2: string, slot: string)
    requires Free(c1, '/') && Free(c2, '/') && Free(slot, '/')
    requires StartsWith(r2 + "/" + c2 + "/" + slot, r1 + "/" + c1 + "/")
    ensures (r1 == r2 && c1 == c2) || InScope(r2, r1 + "/" + c1)
  {
    var pair, full := r1 + "/" + c1, r2 + "/" + c2 + "/" + slot;
    if |pair| <= |r2| {
      assert r2[..|pair|] == full[..|pair|] == pair;
      assert |pair| < |r2| ==> r2[..|pair| + 1] == full[..|pair| + 1] == pair + "/";
    } else {
      // The separator ending the pair stands after root 2: it is the one before the slot.
      var m := |r2| + 1;
      assert full[|r2|] == '/' && pair[|r2|] == '/' && full[|pair|] == '/';
      assert |pair| == m + |c2|;
      assert pair == full[..|pair|] == r2 + "/" + c2;
      JoinIsInjective(r1, c1, r2, c2, '/');
    }
  }

  /** A root under another one's cell. */
  lemma AScopeCanReachAnotherRoot()
    ensures InScope(CellAnchorKey("/p/x", "y", "marker"), CellAnchorScope("/p", "x"))
  {
    assert "/p" + "/" + "x" == "/p/x";
    ScopeReachesIff("/p", "x", "/p/x", "y", "marker");
  }

  // ---- The older map {root: {cell: {"marker": uuid, "bbox": uuid}}} ----

  datatype Slot = Slot(root: string, cell: string, slot: string)

  function KeyOf(s: Slot): Key { CellAnchorKey(s.root, s.cell, s.slot) }

  function SlotsOf(legacy: Json, root: string, cell: string): map<string, Json> {
    AsDict(Get(AsDict(Get(AsDict(legacy), root)), cell))
  }

  function ValueOf(legacy: Json, s: Slot): Json { Get(SlotsOf(legacy, s.root, s.cell), s.slot) }

  predicate Filled(legacy: Json, s: Slot) {
    && s.root in AsDict(legacy) && s.cell in AsDict(AsDict(legacy)[s.root])
    && s.slot in SLOTS && Truthy(ValueOf(legacy, s))
  }

  /** The filled slots of the older map, with their uuids. */
  ghost function FilledSlots(legacy: Json, render: Rendering): (filled: map<Slot, Uuid>)
    ensures forall s :: s in filled <==> Filled(legacy, s)
    ensures forall s :: s in filled ==> filled[s] == PyStr(ValueOf(legacy, s), render) != ""
  {
    var slots := set root, cell, slot | root in AsDict(legacy) && cell in AsDict(AsDict(legacy)[root]) && slot in SLOTS
      && Filled(legacy, Slot(root, cell, slot)) :: Slot(root, cell, slot);
    map s | s in slots :: PyStr(ValueOf(legacy, s), render)
  }

  ghost predicate SlashFreeCells(legacy: Json) {
    forall root, cell :: root in AsDict(legacy) && cell in AsDict(AsDict(legacy)[root]) ==> Free(cell, '/')
  }

  /** `m` has exactly the keys of the slots, each with the uuid of a slot of that key. */
  ghost predicate Carries(m: map<Key, Uuid>, filled: map<Slot, Uuid>) {
    && (forall s :: s in filled ==> KeyOf(s) in m)
    && (forall k :: k in m ==> exists s :: s in filled && KeyOf(s) == k && m[k] == filled[s])
  }

  ghost predicate DistinctKeys(filled: map<Slot, Uuid>) {
    forall s, t :: s in filled && t in filled && KeyOf(s) == KeyOf(t) ==> s == t
  }

  ghost function KeysOf(slots: set<Slot>): set<Key> { set s | s in slots :: KeyOf(s) }

  ghost function SlotOfKey(filled: map<Slot, Uuid>, k: Key): (s: Slot)
    requires k in KeysOf(filled.Keys)
    ensures s in filled && KeyOf(s) == k
  {
    var s :| s in filled && KeyOf(s) == k; s
  }

  /** The slots' uuids under their keys. */
  ghost function Rekeyed(filled: map<Slot, Uuid>): map<Key, Uuid> {
    map k | k in KeysOf(filled.Keys) :: filled[SlotOfKey(filled, k)]
  }

  lemma {:induction false} SlashFreeSlotsHaveDistinctKeys(legacy: Json, render: Rendering)
    requires SlashFreeCells(legacy)
    ensures DistinctKeys(FilledSlots(legacy, render))
  {
    forall s, t | Filled(legacy, s) && Filled(legacy, t) && KeyOf(s) == KeyOf(t) ensures s == t {
      CellAnchorKeysCollideIff(s.root, s.cell, s.slot, t.root, t.cell, t.slot);
    }
  }

  lemma CarriesIsRekeyed(m: map<Key, Uuid>, filled: map<Slot, Uuid>)
    requires DistinctKeys(filled) && Carries(m, filled)
    ensures m == Rekeyed(filled)
    ensures forall s :: s in filled ==> m[KeyOf(s)] == filled[s]
    ensures |m| == |filled|
  {
    CarriedKeysAreTheirs(m, filled);
    forall s | s in filled ensures m[KeyOf(s)] == filled[s] {
      CarriedValue(m, filled, s);
    }
    forall k | k in m ensures m[k] == Rekeyed(filled)[k] {
      CarriedValue(m, filled, SlotOfKey(filled, k));
    }
    ImageHasTheSize(filled.Keys);
    assert |m| == |m.Keys| && |filled| == |filled.Keys|;
  }

  lemma CarriedKeysAreTheirs(m: map<Key, Uuid>, filled: map<Slot, Uuid>)
    requires Carries(m, filled)
    ensures m.Keys == KeysOf(filled.Keys)
  {
    forall k | k in m ensures k in KeysOf(filled.Keys) {
      var s :| s in filled && KeyOf(s) == k;
    }
  }

  lemma CarriedValue(m: map<Key, Uuid>, filled: map<Slot, Uuid>, s: Slot)
    requires DistinctKeys(filled) && Carries(m, filled) && s in filled
    ensures m[KeyOf(s)] == filled[s]
  {
    var t :| t in filled && KeyOf(t) == KeyOf(s) && m[KeyOf(s)] == filled[t];
    assert s == t;
  }

  lemma {:induction false} ImageHasTheSize(slots: set<Slot>)
    requires forall s, t :: s in slots && t in slots && KeyOf(s) == KeyOf(t) ==> s == t
    ensures |KeysOf(slots)| == |slots|
  {
    if slots != {} {
      var s :| s in slots;
      ImageHasTheSize(slots - {s});
      assert KeysOf(slots) == KeysOf(slots - {s}) + {KeyOf(s)};
    }
  }

  /** Nothing is lost: whatever the loops of the migration return, every filled slot
      of the older map has a key of its own, and under it its own uuid; nothing is
      invented, so the number of keys written is the number of filled slots. */
  lemma {:induction false} MigrationLosesNothing(legacy: Json, render: Rendering, m: map<Key, Uuid>)
    requires SlashFreeCells(legacy) && Carries(m, FilledSlots(legacy, render))
    ensures forall s :: Filled(legacy, s) ==> KeyOf(s) in m && m[KeyOf(s)] == PyStr(ValueOf(legacy, s), render)
    ensures |m| == |FilledSlots(legacy, render)|
  {
    SlashFreeSlotsHaveDistinctKeys(legacy, render);
    CarriesIsRekeyed(m, FilledSlots(legacy, render));
  }

  lemma CarriesOneMore(m: map<Key, Uuid>, filled: map<Slot, Uuid>, s: Slot, uuid: Uuid)
    requires Carries(m, filled) && s !in filled
    ensures Carries(m[KeyOf(s) := uuid], filled[s := uuid])
  {
    var m', filled' := m[KeyOf(s) := uuid], filled[s := uuid];
    forall k | k in m' ensures exists t :: t in filled' && KeyOf(t) == k && m'[k] == filled'[t] {
      if k == KeyOf(s) {
        assert s in filled';
      } else {
        var t :| t in filled && KeyOf(t) == k && m[k] == filled[t];
        assert t in filled';
      }
    }
  }

  /** `filled` is `sofar` and the filled ones of these slots of the cell. */
  ghost predicate FilledBy(filled: map<Slot, Uuid>, sofar: map<Slot, Uuid>, legacy: Json, root: string, cell: string,
                           slots: seq<string>, render: Rendering) {
    && (forall s :: s in filled <==>
          s in sofar || (s.root == root && s.cell == cell && s.slot in slots && Filled(legacy, s)))
    && (forall s :: s in filled ==> filled[s] == if s in sofar then sofar[s] else PyStr(ValueOf(legacy, s), render))
  }

  lemma FilledByOneMore(filled: map<Slot, Uuid>, sofar: map<Slot, Uuid>, legacy: Json, root: string, cell: string,
                        slots: seq<string>, name: string, render: Rendering)
    requires root in AsDict(legacy) && cell in AsDict(AsDict(legacy)[root]) && name in SLOTS && name !in slots
    requires forall s :: s in sofar ==> !(s.root == root && s.cell == cell)
    requires FilledBy(filled, sofar, legacy, root, cell, slots, render)
    ensures var slot := Slot(root, cell, name);
            && slot !in filled
            && var value := ValueOf(legacy, slot);
               var filled' := if Truthy(value) then filled[slot := PyStr(value, render)] else filled;
               FilledBy(filled', sofar, legacy, root, cell, slots + [name], render)
  {
    assert Filled(legacy, Slot(root, cell, name)) <==> Truthy(ValueOf(legacy, Slot(root, cell, name)));
  }

  /** The innermost loop of migrate_legacy_state: the two slots of one cell. */
  method MigrateCell(legacy: Json, root: string, cell: string, before: map<Key, Uuid>,
                     ghost sofar: map<Slot, Uuid>, render: Rendering)
    returns (migrated: map<Key, Uuid>, ghost filled: map<Slot, Uuid>)
    requires root in AsDict(legacy) && cell in AsDict(AsDict(legacy)[root])
    requires Carries(before, sofar)
    requires forall s :: s in sofar ==> !(s.root == root && s.cell == cell)
    ensures Carries(migrated, filled)
    ensures forall s :: s in filled <==> s in sofar || (s.root == root && s.cell == cell && Filled(legacy, s))
    ensures forall s :: s in filled ==> filled[s] == if s in sofar then sofar[s] else PyStr(ValueOf(legacy, s), render)
  {
    migrated, filled := before, sofar;
    for i := 0 to |SLOTS|
      invariant Carries(migrated, filled)
      invariant FilledBy(filled, sofar, legacy, root, cell, SLOTS[..i], render)
    {
      var slot := Slot(root, cell, SLOTS[i]);
      assert slot.slot !in SLOTS[..i] && SLOTS[..i + 1] == SLOTS[..i] + [SLOTS[i]];
      FilledByOneMore(filled, sofar, legacy, root, cell, SLOTS[..i], SLOTS[i], render);
      if Truthy(ValueOf(legacy, slot)) {
        var uuid := PyStr(ValueOf(legacy, slot), render);
        CarriesOneMore(migrated, filled, slot, uuid);
        migrated, filled := migrated[KeyOf(slot) := uuid], filled[slot := uuid];
      }
    }
  }

  /** The middle loop: the cells of one root, in no particular order. */
  method MigrateRoot(legacy: Json, root: string, before: map<Key, Uuid>, ghost sofar: map<Slot, Uuid>,
      render: Rendering)
    returns (migrated: map<Key, Uuid>, ghost filled: map<Slot, Uuid>)
    requires root in AsDict(legacy)
    requires Carries(before, sofar)
    requires forall s :: s in sofar ==> s.root != root && sofar[s] == PyStr(ValueOf(legacy, s), render)
    ensures Carries(migrated, filled)
    ensures forall s :: s in filled <==> s in sofar || (s.root == root && Filled(legacy, s))
    ensures forall s :: s in filled ==> filled[s] == PyStr(ValueOf(legacy, s), render)
  {
    migrated, filled := before, sofar;
    var all := AsDict(AsDict(legacy)[root]).Keys;
    var cells := all;
    while cells != {}
      invariant cells <= all
      invariant Carries(migrated, filled)
      invariant forall s :: s in filled <==> s in sofar || (s.root == root && s.cell !in cells && Filled(legacy, s))
      invariant forall s :: s in filled ==> filled[s] == PyStr(ValueOf(legacy, s), render)
      decreases |cells|
    {
      var cell :| cell in cells;
      migrated, filled := MigrateCell(legacy, root, cell, migrated, filled, render);
      cells := cells - {cell};
    }
  }

  /** The outer loop of migrate_legacy_state. A value that is not a dictionary where
      one is expected is skipped. */
  method MigrateLegacy(legacy: Json, render: Rendering) returns (migrated: map<Key, Uuid>)
    ensures Carries(migrated, FilledSlots(legacy, render))
  {
    migrated := map[];
    ghost var filled: map<Slot, Uuid> := map[];
    var all := AsDict(legacy).Keys;
    var roots := all;
    while roots != {}
      invariant roots <= all
      invariant Carries(migrated, filled)
      invariant forall s :: s in filled <==> s.root !in roots && Filled(legacy, s)
      invariant forall s :: s in filled ==> filled[s] == PyStr(ValueOf(legacy, s), render)
      decreases |roots|
    {
      var root :| root in roots;
      migrated, filled := MigrateRoot(legacy, root, migrated, filled, render);
      roots := roots - {root};
    }
    AllFilled(legacy, filled, render);
  }

  lemma AllFilled(legacy: Json, filled: map<Slot, Uuid>, render: Rendering)
    requires forall s :: s in filled <==> Filled(legacy, s)
    requires forall s :: s in filled ==> filled[s] == PyStr(ValueOf(legacy, s), render)
    ensures filled == FilledSlots(legacy, render)
  {}

  /** Both slots of a cell, each by its name: whatever the older map holds for a marker or a bbox,
      unless it counts as nothing, stands in the migrated map under its own key; and the map
      has no other key. */
  lemma {:induction false} MarkerAndBboxAreMigrated(legacy: Json, render: Rendering, m: map<Key, Uuid>, k: Key)
    requires SlashFreeCells(legacy) && Carries(m, FilledSlots(legacy, render))
    ensures k in m <==> exists root, cell, slot :: IsOldSlot(legacy, root, cell, slot, k)
    ensures forall root, cell, slot :: IsOldSlot(legacy, root, cell, slot, k) ==>
              k in m && m[k] == PyStr(legacy.fields[root].fields[cell].fields[slot], render)
  {
    MigrationLosesNothing(legacy, render, m);
    forall root, cell, slot | IsOldSlot(legacy, root, cell, slot, k)
      ensures k in m && m[k] == PyStr(legacy.fields[root].fields[cell].fields[slot], render)
    {
      OldSlotIsFilled(legacy, root, cell, slot, k);
    }
    if k in m {
      var s :| s in FilledSlots(legacy, render) && KeyOf(s) == k;
      FilledIsOldSlot(legacy, s);
    }
  }

  /** The older map holds something for this slot of this cell, and this is the slot's key. */
  ghost predicate IsOldSlot(legacy: Json, root: string, cell: string, slot: string, k: Key) {
    && (slot == "marker" || slot == "bbox") && k == "cell-anchor/" + root + "/" + cell + "/" + slot
    && legacy.Obj? && root in legacy.fields
    && legacy.fields[root].Obj? && cell in legacy.fields[root].fields
    && legacy.fields[root].fields[cell].Obj? && slot in legacy.fields[root].fields[cell].fields
    && Truthy(legacy.fields[root].fields[cell].fields[slot])
  }

  lemma OldSlotIsFilled(legacy: Json, root: string, cell: string, slot: string, k: Key)
    requires IsOldSlot(legacy, root, cell, slot, k)
    ensures Filled(legacy, Slot(root, cell, slot)) && KeyOf(Slot(root, cell, slot)) == k
    ensures ValueOf(legacy, Slot(root, cell, slot)) == legacy.fields[root].fields[cell].fields[slot]
  {
    assert SLOTS[0] == "marker" && SLOTS[1] == "bbox";
  }

  lemma FilledIsOldSlot(legacy: Json, s: Slot)
    requires Filled(legacy, s)
    ensures IsOldSlot(legacy, s.root, s.cell, s.slot, KeyOf(s))
  {}

  // ---- The map in force ----

  /** {str(k): str(v) for k, v in raw.items() if v}, of anything that is a dictionary. */
  function Normalised(raw: Json, render: Rendering): map<Key, Uuid> {
    map k | k in AsDict(raw) && Truthy(AsDict(raw)[k]) :: PyStr(AsDict(raw)[k], render)
  }

  function Encoded(m: map<Key, Uuid>): Json {
    Obj(map k | k in m :: Str(m[k]))
  }

  ghost predicate NoBlank(m: map<Key, Uuid>) { forall k :: k in m ==> m[k] != "" }

  /** What _mapping() returns when the state can be read. */
  ghost function MappingOf(data: map<string, Json>, render: Rendering): map<Key, Uuid> {
    if Get(data, MARKERS_KEY) != Null then Normalised(data[MARKERS_KEY], render)
    else Rekeyed(FilledSlots(Get(data, LEGACY_KEY), render))
  }

  lemma MappingHasNoBlank(data: map<string, Json>, render: Rendering)
    ensures NoBlank(MappingOf(data, render))
  {}

  /** What is stored reads back as itself. */
  lemma StoredMapReadsBack(data: map<string, Json>, m: map<Key, Uuid>, render: Rendering)
    requires NoBlank(m)
    ensures MappingOf(data[MARKERS_KEY := Encoded(m)], render) == m
  {
    assert Normalised(Encoded(m), render).Keys == m.Keys;
  }

  /** The map is the dictionary under "overlay_markers", without what counts as nothing, when there is
      anything under it; and else what the migration would make of "cell_anchor_overlay". */
  lemma TheMapIsUnderItsKey(data: map<string, Json>, render: Rendering, k: Key)
    requires "overlay_markers" in data && data["overlay_markers"] != Null
    ensures var raw, m := data["overlay_markers"], MappingOf(data, render);
            && (k in m <==> raw.Obj? && k in raw.fields && Truthy(raw.fields[k]))
            && (k in m ==> m[k] == PyStr(raw.fields[k], render))
  {}

  lemma TheOlderMapIsUnderItsKey(data: map<string, Json>, render: Rendering)
    requires "overlay_markers" !in data && "cell_anchor_overlay" in data
    ensures MappingOf(data, render) == Rekeyed(FilledSlots(data["cell_anchor_overlay"], render))
  {}
}
