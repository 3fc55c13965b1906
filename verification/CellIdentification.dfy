/** Which instance of a cell a selection pins down (gui/cell_identification.py). The
    project's string rule for cluster families and its grouping of a selection by sheet
    are parameters: `family(tag, wanted)` and `sheetOf(component)`. */
module CellIdentification {
  import opened Sequences
  import opened Wrappers

  datatype Component = Component(ref: string, role: Option<string>, cluster: Option<string>, sheet: seq<string>)

  type Family = (string, string) -> bool
  type SheetOf = Component -> Option<string>

  datatype Kind = ClusterKind | SpokeKind

  datatype Identification = Identification(
    cluster: string, sheet: Option<string>, roleToRef: map<string, string>, kind: Kind, members: seq<string>)

  datatype Refusal =
    | NothingSelected
    | NoRole
    | RoleTwice
    | SeveralClusters
    | NoCluster
    | SeveralSheets
    | ForeignRole
    | NotOnePerRole

  function Role(c: Component): string { if c.role.Some? then c.role.value else "" }

  function Tag(c: Component): string { if c.cluster.Some? then c.cluster.value else "" }

  // ---- The steps ----

  /** The mixed-selection prelude: of a selection spanning several clusters keep the
      components of the cell's own ones, unless none is left or none would go. */
  function Narrowed(selected: seq<Component>, cellClusters: set<string>, family: Family): seq<Component> {
    if SpansClusters(selected) && cellClusters - {""} != {} then
      var kept := Filter(selected, (s: Component) =>
        Tag(s) != "" && exists cc :: cc in cellClusters && cc != "" && family(Tag(s), cc));
      if kept != [] then kept else selected
    else selected
  }

  predicate SpansClusters(selected: seq<Component>) {
    exists i, j :: 0 <= i < |selected| && 0 <= j < |selected| && Tag(selected[i]) != "" && Tag(selected[j]) != ""
                   && Tag(selected[i]) != Tag(selected[j])
  }

  /** The member belongs to the identified instance. */
  predicate InInstance(m: Component, cluster: string, sheet: Option<string>, family: Family) {
    && (Tag(m) == "" || family(Tag(m), cluster))
    && (sheet.None? || sheet.value == "" || sheet.value in m.sheet)
  }

  function Members(all: seq<Component>, cluster: string, sheet: Option<string>, family: Family): seq<Component> {
    Filter(all, (m: Component) => InInstance(m, cluster, sheet, family))
  }

  function CountRole(s: seq<Component>, role: string): nat {
    if s == [] then 0
    else CountRole(s[..|s| - 1], role) + if s[|s| - 1].role == Some(role) then 1 else 0
  }

  /** Some role of the cell occurs more than once in the instance. */
  predicate IsSpoke(members: seq<Component>, cellRoles: set<string>) {
    exists role :: role in cellRoles && CountRole(members, role) > 1
  }

  predicate DistinctRoles(selected: seq<Component>) {
    forall i, j :: 0 <= i < j < |selected| ==> selected[i].role != selected[j].role
  }

  function RolesOf(selected: seq<Component>): set<string> { set c | c in selected :: Role(c) }

  /** The first of the refusals that applies, in the order the code asks. */
  function Refuses(selected: seq<Component>, cellRoles: set<string>, all: seq<Component>, family: Family,
      sheetOf: SheetOf): Option<Refusal> {
    if selected == [] then Some(NothingSelected)
    else if exists c :: c in selected && Role(c) == "" then Some(NoRole)
    else if !DistinctRoles(selected) then Some(RoleTwice)
    else if exists c :: c in selected && c.cluster != selected[0].cluster then Some(SeveralClusters)
    else if Tag(selected[0]) == "" then Some(NoCluster)
    else if exists c :: c in selected && sheetOf(c) != sheetOf(selected[0]) then Some(SeveralSheets)
    else if exists c :: c in selected && Role(c) !in cellRoles then Some(ForeignRole)
    else if IsSpoke(Members(all, Tag(selected[0]), sheetOf(selected[0]), family), cellRoles)
            && (cellRoles - RolesOf(selected) != {} || |selected| != |cellRoles|) then Some(NotOnePerRole)
    else None
  }

  /** {role: ref} of these components, the first one of a role winning. */
  function FirstRefs(s: seq<Component>, roles: set<string>): map<string, string> {
    if s == [] then map[]
    else
      var before, last := FirstRefs(s[..|s| - 1], roles), s[|s| - 1];
      if last.role.Some? && last.role.value in roles && last.role.value !in before
      then before[last.role.value := last.ref]
      else before
  }

  /** {s.role: s.ref for s in selected}: the last one wins. */
  function SelectedRefs(s: seq<Component>): map<string, string> {
    if s == [] then map[] else SelectedRefs(s[..|s| - 1])[Role(s[|s| - 1]) := s[|s| - 1].ref]
  }

  /** The clicked refs are authoritative; the other roles are taken from the instance. */
  function Filled(clicked: map<string, string>, instance: map<string, string>, roles: set<string>)
    : map<string, string> {
    (map r | r in roles && r in instance :: instance[r]) + clicked
  }

  function RefsOf(s: seq<Component>): seq<string> {
    seq(|s|, i requires 0 <= i < |s| => s[i].ref)
  }

  function Identify(selection: seq<Component>, cellRoles: set<string>, all: seq<Component>, cellClusters: set<string>,
                    family: Family, sheetOf: SheetOf): Result<Identification, Refusal> {
    Pinned(Narrowed(selection, cellClusters, family), cellRoles, all, family, sheetOf)
  }

  /** The identification by a selection that is narrowed already. */
  function Pinned(selected: seq<Component>, cellRoles: set<string>, all: seq<Component>, family: Family,
      sheetOf: SheetOf)
    : Result<Identification, Refusal> {
    var refusal := Refuses(selected, cellRoles, all, family, sheetOf);
    if refusal.Some? then Failure(refusal.value)
    else
      var cluster, sheet := Tag(selected[0]), sheetOf(selected[0]);
      var members := Members(all, cluster, sheet, family);
      if IsSpoke(members, cellRoles)
      then Success(Identification(cluster, sheet, SelectedRefs(selected), SpokeKind, RefsOf(members)))
      else
        Success(Identification(cluster, sheet, Filled(SelectedRefs(selected), FirstRefs(members, cellRoles), cellRoles),
                               ClusterKind, RefsOf(members)))
  }

  // ---- The loops at the end ----

  /** {s.role: s.ref for s in selected}. */
  method ClickedRefs(selected: seq<Component>) returns (clicked: map<string, string>)
    ensures clicked == SelectedRefs(selected)
  {
    clicked := map[];
    for i := 0 to |selected|
      invariant clicked == SelectedRefs(selected[..i])
    {
      assert selected[..i + 1][..i] == selected[..i];
      clicked := clicked[Role(selected[i]) := selected[i].ref];
    }
    assert selected[..|selected|] == selected;
  }

  /** The first member of every role of the cell. */
  method RefsInCluster(members: seq<Component>, cellRoles: set<string>) returns (inCluster: map<string, string>)
    ensures inCluster == FirstRefs(members, cellRoles)
  {
    inCluster := map[];
    for i := 0 to |members|
      invariant inCluster == FirstRefs(members[..i], cellRoles)
    {
      assert members[..i + 1][..i] == members[..i];
      var m := members[i];
      if m.role.Some? && m.role.value in cellRoles && m.role.value !in inCluster {
        inCluster := inCluster[m.role.value := m.ref];
      }
    }
    assert members[..|members|] == members;
  }

  lemma FilledOneMore(clicked: map<string, string>, instance: map<string, string>, roles: set<string>, role: string)
    ensures var before, after := Filled(clicked, instance, roles), Filled(clicked, instance, roles + {role});
            after == if role !in before && role in instance then before[role := instance[role]] else before
  {}

  /** The roles that were not clicked are filled in from the instance. */
  method FillRoles(clicked: map<string, string>, inCluster: map<string, string>, cellRoles: set<string>)
    returns (roleToRef: map<string, string>)
    ensures roleToRef == Filled(clicked, inCluster, cellRoles)
  {
    roleToRef := clicked;
    var rest := cellRoles;
    while rest != {}
      invariant rest <= cellRoles
      invariant roleToRef == Filled(clicked, inCluster, cellRoles - rest)
      decreases |rest|
    {
      var role :| role in rest;
      FilledOneMore(clicked, inCluster, cellRoles - rest, role);
      if role !in roleToRef && role in inCluster {
        roleToRef := roleToRef[role := inCluster[role]];
      }
      assert cellRoles - (rest - {role}) == (cellRoles - rest) + {role};
      rest := rest - {role};
    }
    assert cellRoles - {} == cellRoles;
  }

  method IdentifyCellInstance(selection: seq<Component>, cellRoles: set<string>,
                              all: seq<Component>, cellClusters: set<string>,
                              family: Family, sheetOf: SheetOf) returns (r: Result<Identification, Refusal>)
    ensures r == Identify(selection, cellRoles, all, cellClusters, family, sheetOf)
    ensures r.Success? <==> PinsOne(Narrowed(selection, cellClusters, family), cellRoles, all, family, sheetOf)
    ensures r == Failure(NothingSelected) <==> |selection| == 0
  {
    AcceptedIff(Narrowed(selection, cellClusters, family), cellRoles, all, family, sheetOf);
    RefusedBecause(Narrowed(selection, cellClusters, family), cellRoles, all, family, sheetOf);
    NarrowedIs(selection, cellClusters, family);
    var selected := Narrowed(selection, cellClusters, family);
    var refusal := Refuses(selected, cellRoles, all, family, sheetOf);
    if refusal.Some? {
      return Failure(refusal.value);
    }
    var cluster, sheet := Tag(selected[0]), sheetOf(selected[0]);
    var members := Members(all, cluster, sheet, family);
    if IsSpoke(members, cellRoles) {
      return Success(Identification(cluster, sheet, SelectedRefs(selected), SpokeKind, RefsOf(members)));
    }
    var clicked := ClickedRefs(selected);
    var inCluster := RefsInCluster(members, cellRoles);
    var roleToRef := FillRoles(clicked, inCluster, cellRoles);
    r := Success(Identification(cluster, sheet, roleToRef, ClusterKind, RefsOf(members)));
  }

  // ---- What an accepted selection yields ----

  predicate Tagged(s: seq<Component>) { forall i :: 0 <= i < |s| ==> Role(s[i]) != "" }

  lemma {:induction false} DistinctRolesCount(s: seq<Component>)
    requires DistinctRoles(s) && Tagged(s)
    ensures |RolesOf(s)| == |s|
  {
    if s != [] {
      var n := |s| - 1;
      DistinctRolesCount(s[..n]);
      LastRoleIsNew(s);
    }
  }

  lemma LastRoleIsNew(s: seq<Component>)
    requires s != [] && DistinctRoles(s) && Tagged(s)
    ensures var n := |s| - 1; RolesOf(s) == RolesOf(s[..n]) + {Role(s[n])} && Role(s[n]) !in RolesOf(s[..n])
  {
    var n := |s| - 1;
    assert s == s[..n] + [s[n]];
    forall i | 0 <= i < n ensures Role(s[i]) != Role(s[n]) {
      assert s[i].role != s[n].role;
    }
  }

  lemma {:induction false} SelectedRefsNamesEachOnce(s: seq<Component>)
    requires DistinctRoles(s) && Tagged(s)
    ensures SelectedRefs(s).Keys == RolesOf(s)
    ensures forall i :: 0 <= i < |s| ==> Role(s[i]) in SelectedRefs(s) && SelectedRefs(s)[Role(s[i])] == s[i].ref
  {
    if s != [] {
      var n := |s| - 1;
      SelectedRefsNamesEachOnce(s[..n]);
      LastRoleIsNew(s);
      forall i | 0 <= i < n ensures Role(s[i]) in SelectedRefs(s) && SelectedRefs(s)[Role(s[i])] == s[i].ref {
        assert s[..n][i] == s[i] && s[i].role != s[n].role;
      }
    }
  }

  lemma NoneMissing(wanted: set<string>, there: set<string>)
    requires wanted - there == {}
    ensures wanted <= there
  {
    forall r | r in wanted ensures r in there {
      assert r !in wanted - there;
    }
  }

  /** After the earlier refusals the test of the number of components never decides
      anything: no role missing already means one component per role. */
  lemma LengthTestNeverFiresAlone(selected: seq<Component>, cellRoles: set<string>)
    requires DistinctRoles(selected) && Tagged(selected)
    requires forall c :: c in selected ==> Role(c) in cellRoles
    requires cellRoles - RolesOf(selected) == {}
    ensures |selected| == |cellRoles|
  {
    DistinctRolesCount(selected);
    NoneMissing(cellRoles, RolesOf(selected));
    assert RolesOf(selected) == cellRoles;
  }

  lemma AcceptedMeans(selected: seq<Component>, cellRoles: set<string>, all: seq<Component>, family: Family,
      sheetOf: SheetOf)
    requires Refuses(selected, cellRoles, all, family, sheetOf).None?
    ensures selected != [] && DistinctRoles(selected) && Tagged(selected)
    ensures forall c :: c in selected ==>
              Role(c) != "" && Role(c) in cellRoles && c.cluster == selected[0].cluster &&
                  sheetOf(c) == sheetOf(selected[0])
  {}

  /** A spoke's map is a one-to-one pairing of the cell's roles with the selected
      components, and takes nothing from the members. */
  lemma SpokeMapPairsRolesWithTheSelection(
    selection: seq<Component>, cellRoles: set<string>, all: seq<Component>, cellClusters: set<string>,
    family: Family, sheetOf: SheetOf)
    requires var r := Identify(selection, cellRoles, all, cellClusters, family, sheetOf);
             r.Success? && r.value.kind.SpokeKind?
    ensures var id, selected := Identify(selection, cellRoles, all, cellClusters, family, sheetOf).value,
            Narrowed(selection, cellClusters, family);
            && id.roleToRef.Keys == cellRoles == RolesOf(selected)
            && |selected| == |cellRoles|
            && (forall c :: c in selected ==> id.roleToRef[Role(c)] == c.ref)
            && (forall role :: role in cellRoles ==>
                  exists c :: c in selected && Role(c) == role && id.roleToRef[role] == c.ref)
  {
    var selected := Narrowed(selection, cellClusters, family);
    AcceptedMeans(selected, cellRoles, all, family, sheetOf);
    SelectedRefsNamesEachOnce(selected);
    NoneMissing(cellRoles, RolesOf(selected));
    assert RolesOf(selected) <= cellRoles;
  }

  // ---- Any part of the instance identifies the same instance ----

  predicate AtMostOnePerRole(members: seq<Component>, roles: set<string>) {
    forall i, j :: 0 <= i < j < |members| && members[i].role == members[j].role && members[i].role.Some? ==>
      members[i].role.value !in roles
  }

  lemma {:induction false} OccursThenCounts(s: seq<Component>, role: string, i: nat)
    requires i < |s| && s[i].role == Some(role)
    ensures CountRole(s, role) >= 1
    ensures forall j :: 0 <= j < |s| && j != i && s[j].role == Some(role) ==> CountRole(s, role) >= 2
  {
    var n := |s| - 1;
    if i < n {
      OccursThenCounts(s[..n], role, i);
    }
    forall j | 0 <= j < |s| && j != i && s[j].role == Some(role) ensures CountRole(s, role) >= 2 {
      if i == n {
        OccursThenCounts(s[..n], role, j);
      } else if j < n {
        assert s[..n][j].role == Some(role);
      }
    }
  }

  lemma OrdinaryHasOnePerRole(members: seq<Component>, cellRoles: set<string>)
    requires !IsSpoke(members, cellRoles)
    ensures AtMostOnePerRole(members, cellRoles)
  {
    forall i, j | 0 <= i < j < |members| && members[i].role == members[j].role && members[i].role.Some?
      ensures members[i].role.value !in cellRoles
    {
      OccursThenCounts(members, members[i].role.value, i);
    }
  }

  /** With one member per role, the map of an instance has the ref of that member. */
  lemma {:induction false} FirstRefsIsTheInstance(members: seq<Component>, roles: set<string>)
    requires AtMostOnePerRole(members, roles)
    ensures forall role :: role in FirstRefs(members, roles) <==>
              role in roles && exists c :: c in members && c.role == Some(role)
    ensures forall c :: c in members && c.role.Some? && c.role.value in roles ==>
              FirstRefs(members, roles)[c.role.value] == c.ref
  {
    if members != [] {
      var n := |members| - 1;
      var front, last := members[..n], members[n];
      assert members == front + [last];
      FirstRefsIsTheInstance(front, roles);
      if last.role.Some? && last.role.value in roles {
        assert last.role.value !in FirstRefs(front, roles) by {
          assert forall i :: 0 <= i < n ==> members[i] == front[i] && members[i].role != members[n].role;
        }
      }
    }
  }

  /** The selection is part of the instance it identifies. */
  predicate DrawnFrom(selected: seq<Component>, members: seq<Component>) {
    forall c :: c in selected ==> c in members
  }

  predicate PartOf(selected: seq<Component>, all: seq<Component>, cluster: string, sheet: Option<string>,
      family: Family) {
    forall c :: c in selected ==> c in all && InInstance(c, cluster, sheet, family)
  }

  /** For an ordinary cluster the result does not depend on what was clicked: it is the
      instance's own map, each role of the cell that occurs with the one ref it has. */
  lemma OrdinaryMapIsTheInstance(selected: seq<Component>, members: seq<Component>, cellRoles: set<string>)
    requires DistinctRoles(selected) && Tagged(selected) && forall c :: c in selected ==> Role(c) in cellRoles
    requires DrawnFrom(selected, members) && !IsSpoke(members, cellRoles)
    ensures Filled(SelectedRefs(selected), FirstRefs(members, cellRoles), cellRoles) == FirstRefs(members, cellRoles)
  {
    OrdinaryHasOnePerRole(members, cellRoles);
    FirstRefsIsTheInstance(members, cellRoles);
    SelectedRefsNamesEachOnce(selected);
    var clicked, instance := SelectedRefs(selected), FirstRefs(members, cellRoles);
    forall role | role in clicked ensures role in instance && clicked[role] == instance[role] {
      var c :| c in selected && Role(c) == role;
      assert c in members && c.role == Some(role);
    }
    assert Filled(clicked, instance, cellRoles).Keys == instance.Keys;
  }

  // ---- ... whatever order the members were read in ----

  lemma {:induction false} FilterCounts(s: seq<Component>, keep: Component -> bool, c: Component)
    ensures multiset(Filter(s, keep))[c] == if keep(c) then multiset(s)[c] else 0
  {
    if s != [] {
      var n := |s| - 1;
      FilterCounts(s[..n], keep, c);
      assert s == s[..n] + [s[n]];
    }
  }

  lemma MembersArePermuted(s: seq<Component>, t: seq<Component>, cluster: string, sheet: Option<string>, family: Family)
    requires multiset(s) == multiset(t)
    ensures multiset(Members(s, cluster, sheet, family)) == multiset(Members(t, cluster, sheet, family))
  {
    var keep := (m: Component) => InInstance(m, cluster, sheet, family);
    forall c: Component
      ensures multiset(Members(s, cluster, sheet, family))[c] == multiset(Members(t, cluster, sheet, family))[c]
    {
      FilterCounts(s, keep, c);
      FilterCounts(t, keep, c);
    }
  }

  lemma {:induction false} CountOfSum(s: seq<Component>, t: seq<Component>, role: string)
    ensures CountRole(s + t, role) == CountRole(s, role) + CountRole(t, role)
    decreases |t|
  {
    if t == [] {
      assert s + t == s;
    } else {
      var n := |t| - 1;
      assert (s + t)[..|s + t| - 1] == s + t[..n];
      CountOfSum(s, t[..n], role);
    }
  }

  /** The last element of one order stands somewhere in the other, and what is left of
      both is again the same in two orders. */
  lemma TakeOut(s: seq<Component>, t: seq<Component>) returns (before: seq<Component>, after: seq<Component>)
    requires s != [] && multiset(s) == multiset(t)
    ensures t == before + ([s[|s| - 1]] + after)
    ensures multiset(s[..|s| - 1]) == multiset(before + after)
  {
    var n := |s| - 1;
    assert s[n] in multiset(t);
    var k :| 0 <= k < |t| && t[k] == s[n];
    before, after := t[..k], t[k + 1..];
    WithoutOne(s, n);
    WithoutOne(t, k);
    assert s[..n] + s[n + 1..] == s[..n];
  }

  lemma WithoutOne(s: seq<Component>, k: nat)
    requires k < |s|
    ensures multiset(s[..k] + s[k + 1..]) == multiset(s) - multiset{s[k]}
    ensures s == s[..k] + ([s[k]] + s[k + 1..])
  {
    var before, after := s[..k], s[k + 1..];
    assert s == before + ([s[k]] + after);
    assert multiset(s) == multiset(before) + (multiset{s[k]} + multiset(after));
  }

  lemma {:induction false} CountIsPermuted(s: seq<Component>, t: seq<Component>, role: string)
    requires multiset(s) == multiset(t)
    ensures CountRole(s, role) == CountRole(t, role)
    decreases |s|
  {
    if s == [] {
      assert |multiset(t)| == 0;
    } else {
      var last := s[|s| - 1];
      var before, after := TakeOut(s, t);
      CountIsPermuted(s[..|s| - 1], before + after, role);
      CountOfSum(before, [last] + after, role);
      CountOfSum([last], after, role);
      CountOfSum(before, after, role);
      assert [last][..0] == [];
    }
  }

  /** Any part of an instance identifies it: two accepted selections (narrowed already), each
      part of the instance it names, that name the same cluster and sheet have the same kind
      and members, and for an ordinary cluster the same map, whatever was clicked, in whatever
      order, and in whatever order the members were read. */
  lemma {:induction false} AnyPartIdentifiesTheInstance(
    sel1: seq<Component>, sel2: seq<Component>, all1: seq<Component>, all2: seq<Component>,
    cellRoles: set<string>, family: Family, sheetOf: SheetOf, id1: Identification, id2: Identification)
    requires multiset(all1) == multiset(all2)
    requires Pinned(sel1, cellRoles, all1, family, sheetOf) == Success(id1)
    requires Pinned(sel2, cellRoles, all2, family, sheetOf) == Success(id2)
    requires id1.cluster == id2.cluster && id1.sheet == id2.sheet
    requires PartOf(sel1, all1, id1.cluster, id1.sheet, family) && PartOf(sel2, all2, id2.cluster, id2.sheet, family)
    ensures id1.kind == id2.kind
    ensures id1.kind.ClusterKind? ==> id1.roleToRef == id2.roleToRef
    ensures forall ref :: ref in id1.members <==> ref in id2.members
  {
    var m1, m2 := Members(all1, id1.cluster, id1.sheet, family), Members(all2, id1.cluster, id1.sheet, family);
    MembersArePermuted(all1, all2, id1.cluster, id1.sheet, family);
    forall role | role in cellRoles ensures CountRole(m1, role) == CountRole(m2, role) {
      CountIsPermuted(m1, m2, role);
    }
    SameMembersSameRefs(m1, m2);
    SameMembersSameRefs(m2, m1);
    AcceptedMeans(sel1, cellRoles, all1, family, sheetOf);
    AcceptedMeans(sel2, cellRoles, all2, family, sheetOf);
    if !IsSpoke(m1, cellRoles) {
      OrdinaryMapIsTheInstance(sel1, m1, cellRoles);
      OrdinaryMapIsTheInstance(sel2, m2, cellRoles);
      PermutedInstancesHaveOneMap(m1, m2, cellRoles);
    }
  }

  lemma SameMembersSameRefs(m1: seq<Component>, m2: seq<Component>)
    requires multiset(m1) == multiset(m2)
    ensures forall ref :: ref in RefsOf(m1) ==> ref in RefsOf(m2)
  {
    forall ref | ref in RefsOf(m1) ensures ref in RefsOf(m2) {
      var i :| 0 <= i < |m1| && RefsOf(m1)[i] == ref;
      assert m1[i] in multiset(m2);
      var j :| 0 <= j < |m2| && m2[j] == m1[i];
      assert RefsOf(m2)[j] == ref;
    }
  }

  lemma PermutedInstancesHaveOneMap(m1: seq<Component>, m2: seq<Component>, roles: set<string>)
    requires multiset(m1) == multiset(m2) && !IsSpoke(m1, roles) && !IsSpoke(m2, roles)
    ensures FirstRefs(m1, roles) == FirstRefs(m2, roles)
  {
    OrdinaryHasOnePerRole(m1, roles);
    OrdinaryHasOnePerRole(m2, roles);
    RefsOfTheSameMembers(m1, m2, roles);
    RefsOfTheSameMembers(m2, m1, roles);
    assert FirstRefs(m1, roles).Keys == FirstRefs(m2, roles).Keys;
  }

  lemma RefsOfTheSameMembers(m1: seq<Component>, m2: seq<Component>, roles: set<string>)
    requires multiset(m1) == multiset(m2) && AtMostOnePerRole(m1, roles) && AtMostOnePerRole(m2, roles)
    ensures forall role :: role in FirstRefs(m1, roles) ==>
              role in FirstRefs(m2, roles) && FirstRefs(m1, roles)[role] == FirstRefs(m2, roles)[role]
  {
    FirstRefsIsTheInstance(m1, roles);
    FirstRefsIsTheInstance(m2, roles);
    forall role | role in FirstRefs(m1, roles)
      ensures role in FirstRefs(m2, roles) && FirstRefs(m1, roles)[role] == FirstRefs(m2, roles)[role]
    {
      var c :| c in m1 && c.role == Some(role);
      assert c in multiset(m1) && c in multiset(m2);
    }
  }

  // ---- Which selections are accepted ----

  /** The component belongs to the instance: its tag, if it has one, is of the cluster's family, and
      the sheet, if there is one, is in its chain. */
  ghost predicate Belongs(c: Component, cluster: string, sheet: Option<string>, family: Family) {
    && (c.cluster.None? || c.cluster == Some("") || family(c.cluster.value, cluster))
    && (sheet.None? || sheet == Some("") || sheet.value in c.sheet)
  }

  lemma MembersBelong(all: seq<Component>, cluster: string, sheet: Option<string>, family: Family)
    ensures forall c :: c in Members(all, cluster, sheet, family) <==> c in all && Belongs(c, cluster, sheet, family)
  {
    forall c: Component ensures InInstance(c, cluster, sheet, family) <==> Belongs(c, cluster, sheet, family) {}
  }

  /** Component `i` belongs to the instance and has this role. */
  ghost predicate Plays(all: seq<Component>, i: int, role: string, cluster: string, sheet: Option<string>,
                        family: Family) {
    0 <= i < |all| && all[i].role == Some(role) && Belongs(all[i], cluster, sheet, family)
  }

  /** Two of the components belong to the instance and have this role. */
  ghost predicate Twins(all: seq<Component>, role: string, cluster: string, sheet: Option<string>, family: Family) {
    exists i, j :: i < j && Plays(all, i, role, cluster, sheet, family) && Plays(all, j, role, cluster, sheet, family)
  }

  lemma CountOfOneMore(all: seq<Component>, role: string, cluster: string, sheet: Option<string>, family: Family)
    requires all != []
    ensures var n := |all| - 1;
            CountRole(Members(all, cluster, sheet, family), role) ==
            CountRole(Members(all[..n], cluster, sheet, family), role)
            + if Plays(all, n, role, cluster, sheet, family) then 1 else 0
  {
    var n := |all| - 1;
    var front := Members(all[..n], cluster, sheet, family);
    assert Members(all, cluster, sheet, family) ==
           front + if InInstance(all[n], cluster, sheet, family) then [all[n]] else [];
    assert InInstance(all[n], cluster, sheet, family) <==> Belongs(all[n], cluster, sheet, family);
    assert (front + [all[n]])[..|front|] == front && front + [] == front;
  }

  lemma PlaysInFront(all: seq<Component>, i: int, role: string, cluster: string, sheet: Option<string>,
                     family: Family)
    requires all != []
    ensures Plays(all[..|all| - 1], i, role, cluster, sheet, family) <==>
            i < |all| - 1 && Plays(all, i, role, cluster, sheet, family)
    ensures Plays(all, i, role, cluster, sheet, family) ==> i <= |all| - 1
  {}

  lemma NobodyPlays(role: string, cluster: string, sheet: Option<string>, family: Family)
    ensures CountRole(Members([], cluster, sheet, family), role) == 0
    ensures forall i :: !Plays([], i, role, cluster, sheet, family)
  {}

  /** The count of a role in the instance says whether it occurs, and whether it has twins. */
  lemma {:induction false} CountsAreOccurrences(all: seq<Component>, role: string, cluster: string,
      sheet: Option<string>, family: Family)
    ensures CountRole(Members(all, cluster, sheet, family), role) >= 1 <==>
            exists i :: Plays(all, i, role, cluster, sheet, family)
    ensures CountRole(Members(all, cluster, sheet, family), role) >= 2 <==> Twins(all, role, cluster, sheet, family)
  {
    hide CountRole, Members, Plays;
    if all == [] {
      NobodyPlays(role, cluster, sheet, family);
    } else {
      var n := |all| - 1;
      var front := all[..n];
      CountsAreOccurrences(front, role, cluster, sheet, family);
      CountOfOneMore(all, role, cluster, sheet, family);
      forall i ensures Plays(front, i, role, cluster, sheet, family) <==>
                       i < n && Plays(all, i, role, cluster, sheet, family) {
        PlaysInFront(all, i, role, cluster, sheet, family);
      }
      forall i | Plays(all, i, role, cluster, sheet, family) ensures i <= n {
        PlaysInFront(all, i, role, cluster, sheet, family);
      }
    }
  }

  /** One instance of the cell is pinned down. Something is selected; every component has a role of
      the cell, each another one; all have the same cluster, which is not blank, and stand on one
      sheet; and if some role of the cell occurs twice in that instance, every role of the cell
      is selected. */
  ghost predicate PinsOne(selected: seq<Component>, cellRoles: set<string>, all: seq<Component>, family: Family,
                          sheetOf: SheetOf) {
    && |selected| > 0
    && (forall c :: c in selected ==> c.role.Some? && c.role.value != "" && c.role.value in cellRoles)
    && (forall i, j :: 0 <= i < j < |selected| ==> selected[i].role != selected[j].role)
    && selected[0].cluster.Some? && selected[0].cluster.value != ""
    && (forall c :: c in selected ==> c.cluster == selected[0].cluster && sheetOf(c) == sheetOf(selected[0]))
    && (IsSpokeInstance(cellRoles, all, selected[0].cluster.value, sheetOf(selected[0]), family) ==>
          Complete(selected, cellRoles))
  }

  ghost predicate IsSpokeInstance(cellRoles: set<string>, all: seq<Component>, cluster: string,
                                  sheet: Option<string>, family: Family) {
    exists role :: role in cellRoles && Twins(all, role, cluster, sheet, family)
  }

  ghost predicate Complete(selected: seq<Component>, cellRoles: set<string>) {
    forall role :: role in cellRoles ==> exists c :: c in selected && c.role == Some(role)
  }

  lemma SpokesHaveTwins(cellRoles: set<string>, all: seq<Component>, cluster: string, sheet: Option<string>,
      family: Family)
    ensures IsSpoke(Members(all, cluster, sheet, family), cellRoles) <==>
            IsSpokeInstance(cellRoles, all, cluster, sheet, family)
  {
    forall role | role in cellRoles
      ensures CountRole(Members(all, cluster, sheet, family), role) > 1 <==> Twins(all, role, cluster, sheet, family)
    {
      CountsAreOccurrences(all, role, cluster, sheet, family);
    }
  }

  lemma CompleteMeansNoneMissing(selected: seq<Component>, cellRoles: set<string>)
    requires Tagged(selected) && DistinctRoles(selected) && forall c :: c in selected ==> Role(c) in cellRoles
    ensures Complete(selected, cellRoles) <==> cellRoles - RolesOf(selected) == {} && |selected| == |cellRoles|
  {
    if Complete(selected, cellRoles) {
      forall role | role in cellRoles ensures role in RolesOf(selected) {
        var c :| c in selected && c.role == Some(role);
        assert Role(c) == role;
      }
      LengthTestNeverFiresAlone(selected, cellRoles);
    }
    if cellRoles - RolesOf(selected) == {} {
      NoneMissing(cellRoles, RolesOf(selected));
      forall role | role in cellRoles ensures exists c :: c in selected && c.role == Some(role) {
        var c :| c in selected && Role(c) == role;
        var i :| 0 <= i < |selected| && selected[i] == c;
        assert Role(selected[i]) != "";
      }
    }
  }

  /** A selection (narrowed already) is accepted exactly when it pins one instance down. */
  lemma {:induction false} AcceptedIff(selected: seq<Component>, cellRoles: set<string>, all: seq<Component>,
      family: Family, sheetOf: SheetOf)
    ensures Pinned(selected, cellRoles, all, family, sheetOf).Success? <==>
            PinsOne(selected, cellRoles, all, family, sheetOf)
  {
    if selected != [] {
      assert selected[0] in selected;
      SpokesHaveTwins(cellRoles, all, Tag(selected[0]), sheetOf(selected[0]), family);
      if Tagged(selected) && DistinctRoles(selected) && forall c :: c in selected ==> Role(c) in cellRoles {
        CompleteMeansNoneMissing(selected, cellRoles);
      }
      assert (forall c :: c in selected ==> Role(c) != "") <==> Tagged(selected);
    }
  }

  /** Why it is refused: each refusal has its own reason, and is given when none asked before it
      applies. */
  lemma {:induction false} RefusedBecause(selected: seq<Component>, cellRoles: set<string>, all: seq<Component>,
      family: Family, sheetOf: SheetOf)
    ensures var r := Pinned(selected, cellRoles, all, family, sheetOf);
            && (r == Failure(NothingSelected) <==> |selected| == 0)
            && (r == Failure(NoRole) <==> |selected| > 0 && Untagged(selected))
            && (r == Failure(RoleTwice) <==> |selected| > 0 && !Untagged(selected) && Repeats(selected))
            && (r == Failure(SeveralClusters) <==> Sound(selected) && MixesClusters(selected))
            && (r == Failure(NoCluster) <==> Sound(selected) && !MixesClusters(selected) && Untold(selected[0]))
            && (r == Failure(SeveralSheets) <==> Located(selected) && MixesSheets(selected, sheetOf))
            && (r == Failure(ForeignRole) <==>
                Located(selected) && !MixesSheets(selected, sheetOf) && HasForeign(selected, cellRoles))
            && (r == Failure(NotOnePerRole) <==>
                && Located(selected) && !MixesSheets(selected, sheetOf) && !HasForeign(selected, cellRoles)
                && IsSpokeInstance(cellRoles, all, selected[0].cluster.value, sheetOf(selected[0]), family)
                && !Complete(selected, cellRoles))
  {
    if selected != [] {
      SpokesHaveTwins(cellRoles, all, Tag(selected[0]), sheetOf(selected[0]), family);
      assert Untagged(selected) <==> !Tagged(selected);
      if Tagged(selected) && DistinctRoles(selected) && !HasForeign(selected, cellRoles) {
        CompleteMeansNoneMissing(selected, cellRoles);
      }
    }
  }

  ghost predicate Untagged(selected: seq<Component>) {
    exists c :: c in selected && (c.role.None? || c.role == Some(""))
  }

  ghost predicate Repeats(selected: seq<Component>) {
    exists i, j :: 0 <= i < j < |selected| && selected[i].role == selected[j].role
  }

  ghost predicate Sound(selected: seq<Component>) { |selected| > 0 && !Untagged(selected) && !Repeats(selected) }

  ghost predicate MixesClusters(selected: seq<Component>)
    requires |selected| > 0
  {
    exists c :: c in selected && c.cluster != selected[0].cluster
  }

  ghost predicate Untold(c: Component) { c.cluster.None? || c.cluster == Some("") }

  ghost predicate Located(selected: seq<Component>) {
    Sound(selected) && !MixesClusters(selected) && !Untold(selected[0])
  }

  ghost predicate MixesSheets(selected: seq<Component>, sheetOf: SheetOf)
    requires |selected| > 0
  {
    exists c :: c in selected && sheetOf(c) != sheetOf(selected[0])
  }

  ghost predicate HasForeign(selected: seq<Component>, cellRoles: set<string>) {
    exists c :: c in selected && c.role.Some? && c.role.value !in cellRoles
  }

  lemma RolesSelected(s: seq<Component>)
    requires DistinctRoles(s) && Tagged(s)
    ensures forall role :: role in SelectedRefs(s) <==> exists c :: c in s && c.role == Some(role)
  {
    SelectedRefsNamesEachOnce(s);
    forall role ensures role in SelectedRefs(s) <==> exists c :: c in s && c.role == Some(role) {
      if c :| c in s && c.role == Some(role) {
        assert Role(c) == role;
      }
      if role in SelectedRefs(s) {
        var c :| c in s && Role(c) == role;
        assert c.role == Some(role);
      }
    }
  }

  /** What an accepted selection says: the cluster, the sheet and the refs of the instance in the order
      they were read; a spoke exactly when a role of the cell has twins in it; each selected
      component under its role; and for an ordinary cluster every other role of the cell that
      occurs in it, with the ref that has it. */
  lemma {:induction false} IdentifiedIs(selected: seq<Component>, cellRoles: set<string>, all: seq<Component>,
      family: Family, sheetOf: SheetOf, id: Identification)
    requires Pinned(selected, cellRoles, all, family, sheetOf) == Success(id)
    ensures |selected| > 0 && selected[0].cluster == Some(id.cluster) && id.sheet == sheetOf(selected[0])
    ensures id.members == RefsOf(Members(all, id.cluster, id.sheet, family))
    ensures id.kind.SpokeKind? <==> IsSpokeInstance(cellRoles, all, id.cluster, id.sheet, family)
    ensures forall c :: c in selected && c.role.Some? ==>
              c.role.value in id.roleToRef && id.roleToRef[c.role.value] == c.ref
    ensures forall role :: role in id.roleToRef <==>
              || (exists c :: c in selected && c.role == Some(role))
              || (id.kind.ClusterKind? && role in cellRoles
                  && exists i :: Plays(all, i, role, id.cluster, id.sheet, family))
    ensures id.kind.ClusterKind? ==>
              forall i, role :: role in cellRoles && Plays(all, i, role, id.cluster, id.sheet, family)
                                && (forall c :: c in selected ==> c.role != Some(role)) ==>
                role in id.roleToRef && id.roleToRef[role] == all[i].ref
  {
    AcceptedIff(selected, cellRoles, all, family, sheetOf);
    AcceptedMeans(selected, cellRoles, all, family, sheetOf);
    SelectedRefsNamesEachOnce(selected);
    SpokesHaveTwins(cellRoles, all, id.cluster, id.sheet, family);
    RolesSelected(selected);
    if id.kind.ClusterKind? {
      FilledFromTheInstance(selected, cellRoles, all, family, id);
    }
  }

  lemma FilledFromTheInstance(selected: seq<Component>, cellRoles: set<string>, all: seq<Component>, family: Family,
      id: Identification)
    requires var members := Members(all, id.cluster, id.sheet, family);
             !IsSpoke(members, cellRoles)
             && id.roleToRef == Filled(SelectedRefs(selected), FirstRefs(members, cellRoles), cellRoles)
    ensures forall role :: role in id.roleToRef <==>
              || role in SelectedRefs(selected)
              || (role in cellRoles && exists i :: Plays(all, i, role, id.cluster, id.sheet, family))
    ensures forall i, role :: role in cellRoles && Plays(all, i, role, id.cluster, id.sheet, family)
                              && role !in SelectedRefs(selected) ==>
              role in id.roleToRef && id.roleToRef[role] == all[i].ref
  {
    var members := Members(all, id.cluster, id.sheet, family);
    OrdinaryHasOnePerRole(members, cellRoles);
    FirstRefsIsTheInstance(members, cellRoles);
    MembersBelong(all, id.cluster, id.sheet, family);
    forall role | role in cellRoles
      ensures role in FirstRefs(members, cellRoles) <==>
              exists i :: Plays(all, i, role, id.cluster, id.sheet, family)
    {
      if i :| Plays(all, i, role, id.cluster, id.sheet, family) {
        assert all[i] in members;
      }
      if c :| c in members && c.role == Some(role) {
        var i :| 0 <= i < |all| && all[i] == c;
        assert Plays(all, i, role, id.cluster, id.sheet, family);
      }
    }
    forall i, role | role in cellRoles && Plays(all, i, role, id.cluster, id.sheet, family)
      ensures role in FirstRefs(members, cellRoles) && FirstRefs(members, cellRoles)[role] == all[i].ref
    {
      assert all[i] in members;
    }
  }

  /** An ordinary cluster can be identified from any part of it: of a selection that pins down an
      instance which is no spoke, every part that names somebody, and nobody twice, pins
      down the same one. */
  lemma {:induction false} EveryPartIsAccepted(selected: seq<Component>, part: seq<Component>, cellRoles: set<string>,
      all: seq<Component>, family: Family, sheetOf: SheetOf, id: Identification)
    requires Pinned(selected, cellRoles, all, family, sheetOf) == Success(id) && id.kind.ClusterKind?
    requires part != [] && forall c :: c in part ==> c in selected
    requires forall i, j :: 0 <= i < j < |part| ==> part[i] != part[j]
    ensures var r := Pinned(part, cellRoles, all, family, sheetOf);
            && r.Success? && r.value.cluster == id.cluster && r.value.sheet == id.sheet
            && r.value.kind == id.kind && r.value.members == id.members
  {
    AcceptedIff(selected, cellRoles, all, family, sheetOf);
    IdentifiedIs(selected, cellRoles, all, family, sheetOf, id);
    assert part[0] in selected && selected[0] in selected;
    forall i, j | 0 <= i < j < |part| ensures part[i].role != part[j].role {
      assert part[i] in selected && part[j] in selected;
      var k :| 0 <= k < |selected| && selected[k] == part[i];
      var l :| 0 <= l < |selected| && selected[l] == part[j];
      assert k < l || l < k;
    }
    AcceptedIff(part, cellRoles, all, family, sheetOf);
    IdentifiedIs(part, cellRoles, all, family, sheetOf, Pinned(part, cellRoles, all, family, sheetOf).value);
  }

  /** What a mixed selection is narrowed to: when it spans two clusters, and some component is of the
      family of a cluster of the cell, exactly those components, as often as they were selected;
      otherwise itself. Nothing selected stays nothing, and something stays something. */
  lemma {:induction false} NarrowedIs(selected: seq<Component>, cellClusters: set<string>, family: Family)
    ensures var narrowed := Narrowed(selected, cellClusters, family);
            && (narrowed == [] <==> selected == [])
            && if SpansTwo(selected) && exists c :: c in selected && OfTheCell(c, cellClusters, family)
               then forall c :: multiset(narrowed)[c] ==
                                if OfTheCell(c, cellClusters, family) then multiset(selected)[c] else 0
               else narrowed == selected
  {
    var keep := (s: Component) => Tag(s) != "" && exists cc :: cc in cellClusters && cc != "" && family(Tag(s), cc);
    forall c: Component ensures keep(c) <==> OfTheCell(c, cellClusters, family) {}
    SpansIff(selected);
    if cellClusters - {""} == {} {
      forall cc | cc in cellClusters ensures cc == "" {
        assert cc !in cellClusters - {""};
      }
    } else if c :| c in selected && OfTheCell(c, cellClusters, family) {
      assert c in Filter(selected, keep);
    }
    forall c { FilterCounts(selected, keep, c); }
    if Filter(selected, keep) != [] {
      assert OfTheCell(Filter(selected, keep)[0], cellClusters, family);
    }
  }

  /** Two of the components have different clusters, neither of them blank. */
  ghost predicate SpansTwo(selected: seq<Component>) {
    exists c, d :: c in selected && d in selected && !Untold(c) && !Untold(d) && c.cluster != d.cluster
  }

  lemma SpansIff(selected: seq<Component>)
    ensures SpansClusters(selected) <==> SpansTwo(selected)
  {
    if SpansTwo(selected) {
      var c, d :| c in selected && d in selected && !Untold(c) && !Untold(d) && c.cluster != d.cluster;
      var i :| 0 <= i < |selected| && selected[i] == c;
      var j :| 0 <= j < |selected| && selected[j] == d;
      assert Tag(selected[i]) != Tag(selected[j]);
    }
    if SpansClusters(selected) {
      var i, j :| 0 <= i < |selected| && 0 <= j < |selected| && Tag(selected[i]) != "" && Tag(selected[j]) != ""
        && Tag(selected[i]) != Tag(selected[j]);
      assert !Untold(selected[i]) && !Untold(selected[j]) && selected[i].cluster != selected[j].cluster;
    }
  }

  ghost predicate OfTheCell(c: Component, cellClusters: set<string>, family: Family) {
    !Untold(c) && exists cc :: cc in cellClusters && cc != "" && family(c.cluster.value, cc)
  }
}
