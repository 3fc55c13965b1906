/** The copper layers of a read (gui/board_layers.py): their stackup order, the dialog's
    opening state, what of its answer is remembered, the filter and its report. */
module BoardLayers {
  import opened JsonValues
  import opened Sequences
  import opened Sorting
  import opened Wrappers
  import S = Settings

  // ---- Stackup order ----

  const F_CU := 3
  const IN1_CU := 4
  const IN30_CU := 33
  const B_CU := 34

  predicate IsCopper(layer: int) { layer == F_CU || IN1_CU <= layer <= IN30_CU || layer == B_CU }

  predicate InnerCopper(layer: int) { IN1_CU <= layer <= IN30_CU }

  function Number(layer: int): real { layer as real }

  function Times(s: seq<int>, x: int): nat {
    if s == [] then 0 else Times(s[..|s| - 1], x) + if s[|s| - 1] == x then 1 else 0
  }

  /** copper_layer_order: the front, the inner ones ascending, the back. */
  function CopperLayerOrder(layers: seq<int>): seq<int> {
    Filter(layers, (l: int) => l == F_CU)
    + Sorted(Filter(layers, (l: int) => InnerCopper(l)), Number)
    + Filter(layers, (l: int) => l == B_CU)
  }

  lemma {:induction false} TimesOfSum(s: seq<int>, t: seq<int>, x: int)
    ensures Times(s + t, x) == Times(s, x) + Times(t, x)
    decreases |t|
  {
    if t == [] {
      assert s + t == s;
    } else {
      assert (s + t)[..|s + t| - 1] == s + t[..|t| - 1];
      TimesOfSum(s, t[..|t| - 1], x);
    }
  }

  lemma {:induction false} TimesOfPick(s: seq<int>, keep: int -> bool, x: int)
    ensures Times(Filter(s, keep), x) == if keep(x) then Times(s, x) else 0
  {
    if s != [] {
      var front, last := s[..|s| - 1], s[|s| - 1];
      TimesOfPick(front, keep, x);
      assert [last][..0] == [];
      TimesOfSum(Filter(front, keep), if keep(last) then [last] else [], x);
    }
  }

  lemma {:induction false} TimesOfInsert(s: seq<int>, y: int, x: int)
    requires Ascending(s, Number)
    ensures Times(Insert(s, y, Number), x) == Times(s, x) + if x == y then 1 else 0
  {
    if s == [] || s[|s| - 1] <= y {
      assert (s + [y])[..|s|] == s;
    } else {
      var n := |s| - 1;
      TimesOfInsert(s[..n], y, x);
      assert (Insert(s[..n], y, Number) + [s[n]])[..n + 1] == Insert(s[..n], y, Number);
    }
  }

  lemma {:induction false} TimesOfSorted(s: seq<int>, x: int)
    ensures Times(Sorted(s, Number), x) == Times(s, x)
  {
    if s != [] {
      TimesOfSorted(s[..|s| - 1], x);
      TimesOfInsert(Sorted(s[..|s| - 1], Number), s[|s| - 1], x);
    }
  }

  lemma {:induction false} OccursIffTimes(s: seq<int>, x: int)
    ensures x in s <==> Times(s, x) > 0
  {
    if s != [] {
      OccursIffTimes(s[..|s| - 1], x);
      assert s == s[..|s| - 1] + [s[|s| - 1]];
    }
  }

  /** The order holds every copper layer of the board as often as the board does, and
      nothing else, from the front through the inner layers to the back. */
  lemma CopperOrderIsTheStackup(layers: seq<int>, x: int)
    ensures Times(CopperLayerOrder(layers), x) == if IsCopper(x) then Times(layers, x) else 0
    ensures Ascending(CopperLayerOrder(layers), Number)
  {
    var front, inner, back := Filter(layers, (l: int) => l == F_CU), Filter(layers, (l: int) => InnerCopper(l)),
        Filter(layers, (l: int) => l == B_CU);
    hide Times, Filter, Sorted;
    TimesOfPick(layers, (l: int) => l == F_CU, x);
    TimesOfPick(layers, (l: int) => InnerCopper(l), x);
    TimesOfPick(layers, (l: int) => l == B_CU, x);
    TimesOfSorted(inner, x);
    TimesOfSum(front, Sorted(inner, Number), x);
    TimesOfSum(front + Sorted(inner, Number), back, x);
    OrderAscends(layers);
  }

  lemma OrderAscends(layers: seq<int>)
    ensures Ascending(CopperLayerOrder(layers), Number)
  {
    hide Times, Filter, Sorted;
    var front, inner, back := Filter(layers, (l: int) => l == F_CU), Filter(layers, (l: int) => InnerCopper(l)),
        Filter(layers, (l: int) => l == B_CU);
    forall l | l in Sorted(inner, Number) ensures InnerCopper(l) {
      OccursIffTimes(Sorted(inner, Number), l);
      TimesOfSorted(inner, l);
      OccursIffTimes(inner, l);
    }
    OfOneValueAscends(front, F_CU);
    OfOneValueAscends(back, B_CU);
    AscendingSum(front, Sorted(inner, Number), F_CU);
    AscendingSum(front + Sorted(inner, Number), back, IN30_CU);
  }

  lemma OfOneValueAscends(s: seq<int>, v: int)
    requires forall l :: l in s ==> l == v
    ensures Ascending(s, Number)
  {
    assert forall i :: 0 <= i < |s| ==> s[i] in s;
  }

  lemma AscendingSum(s: seq<int>, t: seq<int>, bound: int)
    requires Ascending(s, Number) && Ascending(t, Number)
    requires (forall l :: l in s ==> l <= bound) && (forall l :: l in t ==> bound <= l)
    ensures Ascending(s + t, Number)
  {
    forall i, j | 0 <= i < j < |s + t| ensures (s + t)[i] <= (s + t)[j] {
      if i < |s| <= j {
        assert s[i] in s && t[j - |s|] in t;
      }
    }
  }

  // ---- The remembered choice ----

  /** One row of the dialog: a layer by its canonical name. */
  datatype LayerChoice = LayerChoice(name: string, checked: bool, empty: bool, autoUnchecked: bool)

  /** The memory: nothing yet, or the names last confirmed. */
  type Memory = Option<set<string>>

  predicate Remembers(memory: Memory, name: string) { memory.None? || name in memory.value }

  function ChoiceOf(name: string, memory: Memory, present: set<string>): LayerChoice {
    var empty := name !in present;
    LayerChoice(name, Remembers(memory, name) && !empty, empty, Remembers(memory, name) && empty)
  }

  function LayerChoices(names: seq<string>, memory: Memory, present: set<string>): seq<LayerChoice> {
    seq(|names|, i requires 0 <= i < |names| => ChoiceOf(names[i], memory, present))
  }

  /** layer_choices. */
  method OpenDialog(names: seq<string>, memory: Memory, present: set<string>) returns (rows: seq<LayerChoice>)
    ensures rows == LayerChoices(names, memory, present)
    ensures |rows| == |names| && forall i :: 0 <= i < |rows| ==>
              var remembered := memory.None? || names[i] in memory.value;
              && rows[i].name == names[i] && (rows[i].empty <==> names[i] !in present)
              && (rows[i].checked <==> remembered && names[i] in present)
              && (rows[i].autoUnchecked <==> remembered && names[i] !in present)
  {
    rows := [];
    for i := 0 to |names|
      invariant |rows| == i && forall j :: 0 <= j < i ==> rows[j] == ChoiceOf(names[j], memory, present)
    {
      var empty := names[i] !in present;
      var remembered := memory.None? || names[i] in memory.value;
      rows := rows + [LayerChoice(names[i], remembered && !empty, empty, remembered && empty)];
    }
  }

  /** layers_to_remember: what OK stores. */
  function LayersToRemember(choices: seq<LayerChoice>, checked: set<string>, touched: set<string>): set<string> {
    set c | c in choices && (c.name in checked || (c.autoUnchecked && c.name !in touched)) :: c.name
  }

  /** One confirmed dialog: the board's layers, the layers with copper in the selection, the
      final checkboxes and the boxes the user toggled; whether the memory could be read when
      it opened, and whether the new one could be written. */
  datatype Dialog = Dialog(names: seq<string>, present: set<string>, checked: set<string>, touched: set<string>,
                           seen: bool, saved: bool)

  /** What a dialog opens on: a file that cannot be read reads as nothing remembered. */
  function OpensOn(memory: Memory, d: Dialog): Memory { if d.seen then memory else None }

  /** A box the user did not touch is as the dialog opened it. */
  predicate Honest(memory: Memory, d: Dialog) {
    forall i :: 0 <= i < |d.names| && d.names[i] !in d.touched ==>
      (d.names[i] in d.checked <==> ChoiceOf(d.names[i], OpensOn(memory, d), d.present).checked)
  }

  /** What OK stores. */
  function Chosen(memory: Memory, d: Dialog): set<string> {
    LayersToRemember(LayerChoices(d.names, OpensOn(memory, d), d.present), d.checked, d.touched)
  }

  function Confirm(memory: Memory, d: Dialog): Memory {
    if d.saved then Some(Chosen(memory, d)) else memory
  }

  /** Afterwards a layer is remembered exactly when, if the choice was stored, it is one of this
      board's, and its box is checked if the user touched it, and else the dialog opened on a
      memory of it: what was empty this time makes no difference. */
  lemma ConfirmKeepsTheUsersWord(memory: Memory, d: Dialog, name: string)
    requires Honest(memory, d)
    ensures Remembers(Confirm(memory, d), name) <==>
            if !d.saved then Remembers(memory, name)
            else name in d.names && (if name in d.touched then name in d.checked
                                     else d.seen ==> Remembers(memory, name))
  {
    var choices := LayerChoices(d.names, OpensOn(memory, d), d.present);
    if name in d.names {
      var i :| 0 <= i < |d.names| && d.names[i] == name;
      assert choices[i] in choices && choices[i] == ChoiceOf(name, OpensOn(memory, d), d.present);
    }
  }

  /** When an OK changes the memory of a layer whose box the user left alone: it was stored, and
      the board does not have the remembered layer, or the memory, which was a no, could not
      be read. */
  lemma UntouchedLayerChangesIff(memory: Memory, d: Dialog, name: string)
    requires Honest(memory, d) && name !in d.touched
    ensures Remembers(Confirm(memory, d), name) != Remembers(memory, name) <==>
            d.saved && if name in d.names then !d.seen && !Remembers(memory, name) else Remembers(memory, name)
  {
    ConfirmKeepsTheUsersWord(memory, d, name);
  }

  /** A confirmed dialog, or some other component's set that could not read the file it then
      wrote, which leaves no memory. */
  datatype Happening = Confirmed(dialog: Dialog) | FileLost

  function After(memory: Memory, h: Happening): Memory {
    if h.Confirmed? then Confirm(memory, h.dialog) else None
  }

  function AfterAll(memory: Memory, happenings: seq<Happening>): Memory {
    if happenings == [] then memory
    else After(AfterAll(memory, happenings[..|happenings| - 1]), happenings[|happenings| - 1])
  }

  /** Every dialog of the sequence opened on what was there when its turn came. */
  predicate AllHonest(memory: Memory, happenings: seq<Happening>) {
    happenings == [] ||
    (var front, h := happenings[..|happenings| - 1], happenings[|happenings| - 1];
     AllHonest(memory, front) && (h.Confirmed? ==> Honest(AfterAll(memory, front), h.dialog)))
  }

  /** The last word on a layer: of the stored dialogs, the checkbox of the last one where the user
      touched it, and before any such dialog the memory there was; but a dialog on a board
      that does not have the layer says no, and one that could not read the memory, or the
      loss of the file, says yes. */
  function LastWord(memory: Memory, happenings: seq<Happening>, name: string): bool {
    if happenings == [] then Remembers(memory, name)
    else
      var front, h := happenings[..|happenings| - 1], happenings[|happenings| - 1];
      match h
      case FileLost => true
      case Confirmed(d) =>
        if !d.saved then LastWord(memory, front, name)
        else if name !in d.names then false
        else if name in d.touched then name in d.checked
        else !d.seen || LastWord(memory, front, name)
  }

  /** Over any sequence of dialogs on any boards and of losses of the file, whatever the
      selections were, the memory of a layer is the last word on it. */
  lemma {:induction false} MemoryIsTheLastWord(memory: Memory, happenings: seq<Happening>, name: string)
    requires AllHonest(memory, happenings)
    ensures Remembers(AfterAll(memory, happenings), name) <==> LastWord(memory, happenings, name)
  {
    if happenings != [] {
      var front, h := happenings[..|happenings| - 1], happenings[|happenings| - 1];
      MemoryIsTheLastWord(memory, front, name);
      if h.Confirmed? {
        ConfirmKeepsTheUsersWord(AfterAll(memory, front), h.dialog, name);
      }
    }
  }

  /** One untouched dialog on a board of two layers forgets a remembered inner one. */
  lemma AnotherBoardForgetsTheLayer()
    ensures var memory: Memory := Some({"F.Cu", "In1.Cu"});
            var d := Dialog(["F.Cu", "B.Cu"], {"F.Cu"}, {"F.Cu"}, {}, true, true);
            && Honest(memory, d) && Remembers(memory, "In1.Cu")
            && !Remembers(Confirm(memory, d), "In1.Cu") && Remembers(Confirm(memory, d), "F.Cu")
  {
    var memory: Memory := Some({"F.Cu", "In1.Cu"});
    var d := Dialog(["F.Cu", "B.Cu"], {"F.Cu"}, {"F.Cu"}, {}, true, true);
    assert "B.Cu"[0] == 'B' && "F.Cu"[0] == 'F' && "In1.Cu"[0] == 'I';
    ConfirmKeepsTheUsersWord(memory, d, "In1.Cu");
    ConfirmKeepsTheUsersWord(memory, d, "F.Cu");
    assert d.names[0] == "F.Cu";
  }

  /** One untouched dialog that cannot read the memory erases the user's no, on a layer that has
      no copper in the selection and so is not even checked. */
  lemma AnUnreadMemoryErasesTheNo()
    ensures var memory: Memory := Some({"F.Cu"});
            var d := Dialog(["F.Cu", "B.Cu"], {"F.Cu"}, {"F.Cu"}, {}, false, true);
            && Honest(memory, d) && "B.Cu" !in d.checked
            && !Remembers(memory, "B.Cu") && Remembers(Confirm(memory, d), "B.Cu")
  {
    var memory: Memory := Some({"F.Cu"});
    var d := Dialog(["F.Cu", "B.Cu"], {"F.Cu"}, {"F.Cu"}, {}, false, true);
    assert "B.Cu"[0] == 'B' && "F.Cu"[0] == 'F';
    assert d.names[1] == "B.Cu";
    ConfirmKeepsTheUsersWord(memory, d, "B.Cu");
  }

  // ---- The memory in the state file ----

  const READ_LAYERS_KEY := "cell_read_layers"

  /** What a stored value remembers: anything but a list is nothing. */
  function Remembered(raw: Json, render: Rendering): Memory {
    if raw.Arr? then Some(set j | j in raw.items :: PyStr(j, render)) else None
  }

  function MemoryIn(contents: map<string, Json>, render: Rendering): Memory {
    Remembered(Get(contents, READ_LAYERS_KEY), render)
  }

  /** remember_read_layers, of the names as a list in some order. */
  function AfterRemembering(contents: map<string, Json>, names: seq<string>, fate: S.Fate): map<string, Json> {
    var list := Arr(seq(|names|, i requires 0 <= i < |names| => Str(names[i])));
    if fate.Completes? then (if fate.readable then contents else map[])[READ_LAYERS_KEY := list] else contents
  }

  /** Confirming a dialog does to the memory in the file what Confirm says, the read inside the
      write failing or not; and a set of another key keeps the memory, or loses it when its
      own read fails. */
  lemma ConfirmingInTheFile(contents: map<string, Json>, d: Dialog, names: seq<string>, fate: S.Fate,
      render: Rendering)
    requires d.saved == fate.Completes?
    requires (set n | n in names) == Chosen(MemoryIn(contents, render), d)
    ensures MemoryIn(AfterRemembering(contents, names, fate), render) == Confirm(MemoryIn(contents, render), d)
  {
    var list := Arr(seq(|names|, i requires 0 <= i < |names| => Str(names[i])));
    forall n | n in names ensures n in Remembered(list, render).value {
      var i :| 0 <= i < |names| && names[i] == n;
      assert list.items[i] in list.items && PyStr(list.items[i], render) == n;
    }
    assert Remembered(list, render).value == set n | n in names;
  }

  lemma OtherSetsAndTheMemory(contents: map<string, Json>, key: string, value: Json, fate: S.Fate, render: Rendering)
    requires key != READ_LAYERS_KEY
    ensures var after := if fate.Completes? then (if fate.readable then contents else map[])[key := value]
                         else contents;
            MemoryIn(after, render) ==
            if fate == S.Completes(false) then After(MemoryIn(contents, render), FileLost)
            else MemoryIn(contents, render)
  {}

  // ---- The filter and its report ----

  /** A track by identity, with the canonical name of its layer if that is copper. */
  datatype Track = Track(id: nat, layerName: Option<string>)

  /** The layer set of a read: all copper, or these names. */
  datatype LayerSet = AllCopper | Only(names: set<string>)

  predicate Allows(layers: LayerSet, t: Track) {
    layers.AllCopper? || (t.layerName.Some? && t.layerName.value in layers.names)
  }

  /** filter_tracks_by_layers. */
  function FilterTracks(tracks: seq<Track>, layers: LayerSet): (r: seq<Track>)
    ensures |r| <= |tracks|
    ensures forall t :: t in r <==>
              t in tracks && (layers.AllCopper? || (t.layerName.Some? && t.layerName.value in layers.names))
    ensures (forall t :: t in tracks ==> Allows(layers, t)) ==> r == tracks
    ensures (exists t :: t in tracks && !Allows(layers, t)) ==> |r| < |tracks|
  {
    FilterDropsIff(tracks, (t: Track) => Allows(layers, t));
    Filter(tracks, (t: Track) => Allows(layers, t))
  }

  function NamesOf(tracks: seq<Track>): set<string> {
    set t | t in tracks && t.layerName.Some? && t.layerName.value != "" :: t.layerName.value
  }

  datatype Report = Report(read: set<string>, skippedManual: set<string>, skippedEmpty: set<string>)

  function LayerReport(seen: seq<Track>, read: seq<Track>, empty: set<string>): Report {
    var dropped := NamesOf(seen) - NamesOf(read);
    Report(NamesOf(read), dropped, empty - NamesOf(read) - dropped)
  }

  /** The report of a filtered read splits the layers seen by the chosen set, and calls
      none of them empty. */
  lemma ReportSplitsTheLayersSeen(seen: seq<Track>, layers: LayerSet, empty: set<string>)
    ensures var r, names := LayerReport(seen, FilterTracks(seen, layers), empty), NamesOf(seen);
            && r.read + r.skippedManual == names && r.read !! r.skippedManual && r.skippedEmpty !! names
            && (layers.AllCopper? ==> r.read == names)
            && (layers.Only? ==> r.read == names * layers.names && r.skippedManual == names - layers.names)
  {
    var read := FilterTracks(seen, layers);
    forall name | name in NamesOf(seen) ensures name in NamesOf(read) <==> layers.AllCopper? || name in layers.names {
      var t :| t in seen && t.layerName == Some(name);
      assert Allows(layers, t) ==> t in read;
    }
    assert NamesOf(read) <= NamesOf(seen);
  }

  /** Whose names the report has: a layer was read when a track of it is among those read, skipped
      when one was seen and none read, and empty when it was called so and none was seen. */
  lemma ReportNamesAre(seen: seq<Track>, read: seq<Track>, empty: set<string>, name: string)
    requires forall t :: t in read ==> t in seen
    ensures var r := LayerReport(seen, read, empty);
            && (name in r.read <==> name != "" && exists i :: 0 <= i < |read| && read[i].layerName == Some(name))
            && (name in r.skippedManual <==>
                && name != "" && (exists i :: 0 <= i < |seen| && seen[i].layerName == Some(name))
                && forall i :: 0 <= i < |read| ==> read[i].layerName != Some(name))
            && (name in r.skippedEmpty <==>
                name in empty && (name == "" || forall i :: 0 <= i < |seen| ==> seen[i].layerName != Some(name)))
  {
    NamesOfAre(seen, name);
    NamesOfAre(read, name);
    if i :| 0 <= i < |read| && read[i].layerName == Some(name) {
      assert read[i] in seen;
      var j :| 0 <= j < |seen| && seen[j] == read[i];
      assert seen[j].layerName == Some(name);
    }
  }

  lemma NamesOfAre(tracks: seq<Track>, name: string)
    ensures name in NamesOf(tracks) <==>
            name != "" && exists i :: 0 <= i < |tracks| && tracks[i].layerName == Some(name)
  {
    if name in NamesOf(tracks) {
      var t :| t in tracks && t.layerName.Some? && t.layerName.value == name;
      var i :| 0 <= i < |tracks| && tracks[i] == t;
      assert tracks[i].layerName == Some(name);
    }
    if i :| 0 <= i < |tracks| && tracks[i].layerName == Some(name) {
      assert tracks[i] in tracks;
    }
  }

  /** The front is layer 3, the back 34 and the inner ones are 4 to 33; the memory has its own key. */
  lemma TheseAreCopper(layer: int)
    ensures IsCopper(layer) <==> 3 <= layer <= 34
    ensures READ_LAYERS_KEY == "cell_read_layers"
  {}
}
