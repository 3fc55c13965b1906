/** The accounting of one read (gui/read_outcome.py): how many of the selected items were
    read, how many were not, and the reasons given. */
module ReadOutcome {
  import L = BoardLayers

  datatype Reason = AnotherCluster | AnotherRecord | InterNode | LayerOff | NotRead

  datatype Outcome = Outcome(items: seq<nat>, selected: nat, read: nat, skipped: nat, parts: seq<(Reason, nat)>)

  /** The live selection and what the read goes on with, every item by its identity. */
  datatype Reading = Reading(
    footprints: seq<nat>, vias: seq<nat>, rawTracks: seq<L.Track>,
    planFootprints: seq<nat>, planVias: seq<nat>, planTracks: seq<L.Track>)

  function Selected(r: Reading): nat { |r.footprints| + |r.vias| + |r.rawTracks| }

  function Read(r: Reading): nat { |r.planFootprints| + |r.planVias| + |r.planTracks| }

  function Positive(a: int): nat { if a > 0 then a else 0 }

  /** Selected components the plan does not hold. */
  function Others(footprints: seq<nat>, plan: seq<nat>): nat {
    if footprints == [] then 0
    else Others(footprints[..|footprints| - 1], plan) + if footprints[|footprints| - 1] in plan then 0 else 1
  }

  function LayerOffCount(r: Reading, report: L.Report): nat {
    if report.skippedManual == {} then 0 else Positive(|r.rawTracks| - |r.planTracks|)
  }

  function Sum(parts: seq<(Reason, nat)>): nat {
    if parts == [] then 0 else Sum(parts[..|parts| - 1]) + parts[|parts| - 1].1
  }

  function Part(reason: Reason, count: nat): seq<(Reason, nat)> { if count > 0 then [(reason, count)] else [] }

  /** The reasons a caller can name. */
  function Known(r: Reading, otherRecords: nat, interNode: nat, report: L.Report): seq<(Reason, nat)> {
    Part(AnotherCluster, Others(r.footprints, r.planFootprints)) + Part(AnotherRecord, otherRecords)
    + Part(InterNode, interNode) + Part(LayerOff, LayerOffCount(r, report))
  }

  /** _skip_parts: appended one by one, then the remainder nobody explained. */
  method SkipParts(r: Reading, otherRecords: nat, interNode: nat, report: L.Report, skipped: nat)
    returns (parts: seq<(Reason, nat)>)
    ensures parts == Known(r, otherRecords, interNode, report)
                     + Part(NotRead, Positive(skipped - Sum(Known(r, otherRecords, interNode, report))))
  {
    var otherCluster := CountOthers(r.footprints, r.planFootprints);
    parts := AppendPart([], AnotherCluster, otherCluster);
    parts := AppendPart(parts, AnotherRecord, otherRecords);
    parts := AppendPart(parts, InterNode, interNode);
    parts := AppendPart(parts, LayerOff, LayerOffCount(r, report));
    assert [] + Part(AnotherCluster, otherCluster) == Part(AnotherCluster, otherCluster);
    assert parts == Known(r, otherRecords, interNode, report);
    parts := AppendPart(parts, NotRead, Positive(skipped - Sum(parts)));
  }

  method CountOthers(footprints: seq<nat>, plan: seq<nat>) returns (count: nat)
    ensures count == Others(footprints, plan)
  {
    count := 0;
    for i := 0 to |footprints|
      invariant count == Others(footprints[..i], plan)
    {
      assert footprints[..i + 1][..i] == footprints[..i];
      if footprints[i] !in plan {
        count := count + 1;
      }
    }
    assert footprints[..|footprints|] == footprints;
  }

  /** `if count: parts.append((reason, count))`. */
  method AppendPart(parts: seq<(Reason, nat)>, reason: Reason, count: nat) returns (longer: seq<(Reason, nat)>)
    ensures longer == parts + Part(reason, count)
  {
    longer := parts;
    if count > 0 {
      longer := longer + [(reason, count)];
    }
  }

  function Ids(tracks: seq<L.Track>): (ids: seq<nat>)
    ensures |ids| == |tracks|
  {
    seq(|tracks|, i requires 0 <= i < |tracks| => tracks[i].id)
  }

  /** read_outcome. The items go on as footprints, vias and tracks, in the plan's order. */
  method OutcomeOf(r: Reading, otherRecords: nat, interNode: nat, report: L.Report) returns (o: Outcome)
    ensures o.selected == Selected(r) &&
            (Selected(r) > 0 ==> o.read == Read(r) && o.skipped == Positive(Selected(r) - Read(r)))
    ensures o.selected == |r.footprints| + |r.vias| + |r.rawTracks|
    ensures o.selected > 0 ==>
              var taken := |r.planFootprints| + |r.planVias| + |r.planTracks|;
              o.read == taken && o.skipped == if o.selected > taken then o.selected - taken else 0
    ensures |o.items| == Read(r)
    ensures o.items == r.planFootprints + r.planVias + Ids(r.planTracks)
    ensures Selected(r) == 0 ==> o.read == 0 && o.skipped == 0 && o.parts == []
    ensures Selected(r) > 0 ==> o.parts == Reasons(r, otherRecords, interNode, report)
  {
    var items := r.planFootprints + r.planVias + Ids(r.planTracks);
    if Selected(r) == 0 {
      return Outcome(items, 0, 0, 0, []);
    }
    var skipped := Positive(Selected(r) - Read(r));
    var parts := SkipParts(r, otherRecords, interNode, report, skipped);
    o := Outcome(items, Selected(r), Read(r), skipped, parts);
  }

  function Reasons(r: Reading, otherRecords: nat, interNode: nat, report: L.Report): seq<(Reason, nat)> {
    var known := Known(r, otherRecords, interNode, report);
    known + Part(NotRead, Positive(Positive(Selected(r) - Read(r)) - Sum(known)))
  }

  lemma {:induction false} SumOfSum(a: seq<(Reason, nat)>, b: seq<(Reason, nat)>)
    ensures Sum(a + b) == Sum(a) + Sum(b)
    decreases |b|
  {
    if b == [] {
      assert a + b == a;
    } else {
      assert (a + b)[..|a + b| - 1] == a + b[..|b| - 1];
      SumOfSum(a, b[..|b| - 1]);
    }
  }

  // ---- Which reason has which count ----

  /** How much the parts give for a reason. */
  function Given(parts: seq<(Reason, nat)>, reason: Reason): nat {
    if parts == [] then 0
    else
      var last := parts[|parts| - 1];
      Given(parts[..|parts| - 1], reason) + if last.0 == reason then last.1 else 0
  }

  lemma {:induction false} GivenOfSum(a: seq<(Reason, nat)>, b: seq<(Reason, nat)>, reason: Reason)
    ensures Given(a + b, reason) == Given(a, reason) + Given(b, reason)
    decreases |b|
  {
    if b == [] {
      assert a + b == a;
    } else {
      assert (a + b)[..|a + b| - 1] == a + b[..|b| - 1];
      GivenOfSum(a, b[..|b| - 1], reason);
    }
  }

  lemma GivenOfPart(own: Reason, count: nat, reason: Reason)
    ensures Given(Part(own, count), reason) == if own == reason then count else 0
  {
    assert [(own, count)][..0] == [];
  }

  /** The positions of the selected components that the plan does not hold. */
  ghost function OtherPositions(footprints: seq<nat>, plan: seq<nat>): set<nat> {
    set i: nat | i < |footprints| && footprints[i] !in plan
  }

  lemma {:induction false} OthersAreCounted(footprints: seq<nat>, plan: seq<nat>)
    ensures Others(footprints, plan) == |OtherPositions(footprints, plan)|
  {
    if footprints == [] {
      assert OtherPositions(footprints, plan) == {};
    } else {
      var n := |footprints| - 1;
      OthersAreCounted(footprints[..n], plan);
      assert OtherPositions(footprints, plan) ==
             OtherPositions(footprints[..n], plan) + if footprints[n] !in plan then {n as nat} else {};
    }
  }

  /** Each reason by itself: the components the plan does not hold are of another cluster; the copper
      of other records and between nodes is as the caller counted it; when the report names a
      layer that was seen and not read, the tracks that fell out are off; and what is still
      missing from the items not read was not read. */
  lemma {:induction false} EachReasonHasItsCount(r: Reading, otherRecords: nat, interNode: nat, report: L.Report)
    ensures var parts := Reasons(r, otherRecords, interNode, report);
            var selected := |r.footprints| + |r.vias| + |r.rawTracks|;
            var read := |r.planFootprints| + |r.planVias| + |r.planTracks|;
            var others := |OtherPositions(r.footprints, r.planFootprints)|;
            var fellOut := if |r.rawTracks| > |r.planTracks| then |r.rawTracks| - |r.planTracks| else 0;
            var off := if report.skippedManual == {} then 0 else fellOut;
            var missing := selected - read - others - otherRecords - interNode - off;
            && Given(parts, AnotherCluster) == others
            && Given(parts, AnotherRecord) == otherRecords && Given(parts, InterNode) == interNode
            && Given(parts, LayerOff) == off
            && Given(parts, NotRead) == if selected > read && missing > 0 then missing else 0
  {
    OthersAreCounted(r.footprints, r.planFootprints);
    KnownCounts(r, otherRecords, interNode, report);
    forall reason ensures Given(Reasons(r, otherRecords, interNode, report), reason) ==
                          GivenByParts(r, otherRecords, interNode, report, reason) {
      GivenIs(r, otherRecords, interNode, report, reason);
    }
  }

  ghost function GivenByParts(r: Reading, otherRecords: nat, interNode: nat, report: L.Report, reason: Reason): nat {
    match reason
    case AnotherCluster => Others(r.footprints, r.planFootprints)
    case AnotherRecord => otherRecords
    case InterNode => interNode
    case LayerOff => LayerOffCount(r, report)
    case NotRead => Positive(Positive(Selected(r) - Read(r)) - Sum(Known(r, otherRecords, interNode, report)))
  }

  lemma GivenIs(r: Reading, otherRecords: nat, interNode: nat, report: L.Report, reason: Reason)
    ensures Given(Reasons(r, otherRecords, interNode, report), reason) ==
            GivenByParts(r, otherRecords, interNode, report, reason)
  {
    var a, b := Part(AnotherCluster, Others(r.footprints, r.planFootprints)), Part(AnotherRecord, otherRecords);
    var c, d := Part(InterNode, interNode), Part(LayerOff, LayerOffCount(r, report));
    var rest := Positive(Positive(Selected(r) - Read(r)) - Sum(Known(r, otherRecords, interNode, report)));
    hide Part, Given, Others, LayerOffCount, Sum;
    GivenOfPart(AnotherCluster, Others(r.footprints, r.planFootprints), reason);
    GivenOfPart(AnotherRecord, otherRecords, reason);
    GivenOfPart(InterNode, interNode, reason);
    GivenOfPart(LayerOff, LayerOffCount(r, report), reason);
    GivenOfPart(NotRead, rest, reason);
    GivenOfSum(a, b, reason);
    GivenOfSum(a + b, c, reason);
    GivenOfSum(a + b + c, d, reason);
    GivenOfSum(a + b + c + d, Part(NotRead, rest), reason);
  }

  /** The reasons are given in this order, and each at most once. */
  function Rank(reason: Reason): nat {
    match reason
    case AnotherCluster => 0
    case AnotherRecord => 1
    case InterNode => 2
    case LayerOff => 3
    case NotRead => 4
  }

  lemma ReasonsComeInOrder(r: Reading, otherRecords: nat, interNode: nat, report: L.Report)
    ensures var parts := Reasons(r, otherRecords, interNode, report);
            forall i, j :: 0 <= i < j < |parts| ==> Rank(parts[i].0) < Rank(parts[j].0)
  {}

  predicate NoneForNothing(parts: seq<(Reason, nat)>) { forall i :: 0 <= i < |parts| ==> parts[i].1 > 0 }

  lemma PartCounts(reason: Reason, count: nat)
    ensures Sum(Part(reason, count)) == count && NoneForNothing(Part(reason, count))
  {
    if count > 0 {
      assert [(reason, count)][..0] == [];
    }
  }

  lemma KnownCounts(r: Reading, otherRecords: nat, interNode: nat, report: L.Report)
    ensures NoneForNothing(Known(r, otherRecords, interNode, report))
    ensures Sum(Known(r, otherRecords, interNode, report)) ==
            Others(r.footprints, r.planFootprints) + otherRecords + interNode + LayerOffCount(r, report)
  {
    var a, b := Part(AnotherCluster, Others(r.footprints, r.planFootprints)), Part(AnotherRecord, otherRecords);
    var c, d := Part(InterNode, interNode), Part(LayerOff, LayerOffCount(r, report));
    PartCounts(AnotherCluster, Others(r.footprints, r.planFootprints));
    PartCounts(AnotherRecord, otherRecords);
    PartCounts(InterNode, interNode);
    PartCounts(LayerOff, LayerOffCount(r, report));
    SumOfSum(a, b);
    SumOfSum(a + b, c);
    SumOfSum(a + b + c, d);
  }

  /** Whatever was subtracted and whyever, the counts given add up to the items not read,
      or to what the caller knows of when that is more; and no reason is given for nothing. */
  lemma ReasonsAddUp(r: Reading, otherRecords: nat, interNode: nat, report: L.Report)
    ensures var parts, skipped := Reasons(r, otherRecords, interNode, report), Positive(Selected(r) - Read(r));
            var known := Others(r.footprints, r.planFootprints) + otherRecords + interNode + LayerOffCount(r, report);
            Sum(parts) == (if known > skipped then known else skipped) && NoneForNothing(parts)
  {
    var known := Known(r, otherRecords, interNode, report);
    var rest := Positive(Positive(Selected(r) - Read(r)) - Sum(known));
    hide Known, Part, Others, LayerOffCount;
    KnownCounts(r, otherRecords, interNode, report);
    PartCounts(NotRead, rest);
    SumOfSum(known, Part(NotRead, rest));
  }

  /** A read without the mixed-selection prelude goes on with the selection itself, less
      the tracks the layer filter dropped. */
  function WithoutPrelude(footprints: seq<nat>, vias: seq<nat>, tracks: seq<L.Track>, layers: L.LayerSet): Reading {
    Reading(footprints, vias, tracks, footprints, vias, L.FilterTracks(tracks, layers))
  }

  lemma {:induction false} NoOthersInThePlanItself(footprints: seq<nat>, plan: seq<nat>)
    requires forall f :: f in footprints ==> f in plan
    ensures Others(footprints, plan) == 0
  {
    if footprints != [] {
      assert footprints == footprints[..|footprints| - 1] + [footprints[|footprints| - 1]];
      NoOthersInThePlanItself(footprints[..|footprints| - 1], plan);
    }
  }

  /** Every track lies on a named copper layer. */
  predicate AllCopper(tracks: seq<L.Track>) {
    forall t :: t in tracks ==> t.layerName.Some? && t.layerName.value != ""
  }

  /** Some copper on a named layer was dropped exactly when the report names a layer; on
      all-copper tracks that is as soon as anything was dropped. */
  lemma DroppedCopperIsReported(tracks: seq<L.Track>, layers: L.LayerSet, empty: set<string>)
    ensures var read := L.FilterTracks(tracks, layers);
            AllCopper(tracks) && |read| < |tracks| ==>
              L.LayerReport(tracks, read, empty).skippedManual != {}
    ensures |L.FilterTracks(tracks, layers)| == |tracks| ==>
              L.LayerReport(tracks, L.FilterTracks(tracks, layers), empty).skippedManual == {}
  {
    var read := L.FilterTracks(tracks, layers);
    if |read| < |tracks| {
      var t :| t in tracks && !L.Allows(layers, t);
      if t.layerName.Some? && t.layerName.value != "" {
        L.ReportSplitsTheLayersSeen(tracks, layers, empty);
        assert t.layerName.value in L.NamesOf(tracks);
        assert t.layerName.value in L.LayerReport(tracks, read, empty).skippedManual;
      }
    }
  }

  /** Then nothing is lost from the count, and there is one reason for all that was not
      read: "layer off" as soon as a named layer was dropped, as it always is when every
      track is copper; "not read" if every dropped track lies on no copper layer. */
  lemma WithoutPreludeOneReason(footprints: seq<nat>, vias: seq<nat>, tracks: seq<L.Track>, layers: L.LayerSet,
      empty: set<string>)
    ensures var r := WithoutPrelude(footprints, vias, tracks, layers);
            var report, skipped := L.LayerReport(tracks, r.planTracks, empty), Positive(Selected(r) - Read(r));
            && Read(r) + skipped == Selected(r)
            && Reasons(r, 0, 0, report) ==
               (if skipped == 0 then [] else [(if report.skippedManual != {} then LayerOff else NotRead, skipped)])
            && (AllCopper(tracks) && skipped > 0 ==> report.skippedManual != {})
  {
    var r := WithoutPrelude(footprints, vias, tracks, layers);
    NoOthersInThePlanItself(footprints, footprints);
    DroppedCopperIsReported(tracks, layers, empty);
    OneReason(r, L.LayerReport(tracks, r.planTracks, empty), |tracks| - |r.planTracks|);
  }

  lemma OneReason(r: Reading, report: L.Report, dropped: nat)
    requires Others(r.footprints, r.planFootprints) == 0
    requires Selected(r) - Read(r) == |r.rawTracks| - |r.planTracks| == dropped
    requires dropped == 0 ==> report.skippedManual == {}
    ensures Reasons(r, 0, 0, report) ==
            if dropped == 0 then [] else [(if report.skippedManual != {} then LayerOff else NotRead, dropped)]
  {
    var off := LayerOffCount(r, report);
    KnownWithoutOthers(r, report);
    PartCounts(LayerOff, off);
    var rest := Part(NotRead, Positive(dropped - off));
    assert Reasons(r, 0, 0, report) == Part(LayerOff, off) + rest;
    if report.skippedManual == {} {
      assert off == 0 && Part(LayerOff, 0) + rest == rest;
    } else {
      assert off == dropped && rest == [];
    }
  }

  lemma KnownWithoutOthers(r: Reading, report: L.Report)
    requires Others(r.footprints, r.planFootprints) == 0
    ensures Known(r, 0, 0, report) == Part(LayerOff, LayerOffCount(r, report))
  {
    assert Part(AnotherCluster, 0) + Part(AnotherRecord, 0) + Part(InterNode, 0) == [];
  }
}
