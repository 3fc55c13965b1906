/** The lifecycle of the one board connection (gui/connection.py, BoardConnection), with
    as much of the board's own caches (kicadstamp/explore.py) as its snapshot rests on:
    the footprints last read, the values in force resolved from them, the adapters
    opened and closed, and the latency windows. */
module BoardConnection {
  import opened FieldOverrides
  import opened Latency
  import opened Wrappers

  // ---- The board and the values in force ----

  /** One footprint as last read: its refdes, its key in the override store, and what
      the board itself says. */
  datatype Footprint = Footprint(ref: string, symbol: Option<string>, role: Option<string>, cluster: Option<string>)

  datatype Selected = Selected(ref: string, role: Option<string>, cluster: Option<string>)

  function OnBoard(fp: Footprint, field: Field): Option<string> {
    if field.RoleField? then fp.role else fp.cluster
  }

  /** Our stored value when there is one, else the board's. */
  function InForce(fp: Footprint, field: Field, store: Option<Store>): Option<string> {
    if store.Some? && fp.symbol.Some? && Lookup(store.value, fp.symbol.value, field).Some?
    then Lookup(store.value, fp.symbol.value, field)
    else OnBoard(fp, field)
  }

  function Resolve(fp: Footprint, store: Option<Store>): Selected {
    Selected(fp.ref, InForce(fp, RoleField, store), InForce(fp, ClusterField, store))
  }

  /** What a snapshot is meant to be: every footprint last read, resolved under the
      store now bound. */
  function ResolveAll(fps: seq<Footprint>, store: Option<Store>): seq<Selected> {
    seq(|fps|, i requires 0 <= i < |fps| => Resolve(fps[i], store))
  }

  type Cache = map<(string, Field), Option<string>>

  /** The board behind the door. The caches are keyed by refdes. */
  datatype LiveBoard = LiveBoard(
    adapter: nat, footprints: seq<Footprint>, bound: Option<Store>, cache: Cache, canForget: bool, canBind: bool)

  /** _role and _cluster: ask once per refdes. */
  function FillField(cache: Cache, fp: Footprint, field: Field, store: Option<Store>): Cache {
    if (fp.ref, field) in cache then cache else cache[(fp.ref, field) := InForce(fp, field, store)]
  }

  function FillOne(cache: Cache, fp: Footprint, store: Option<Store>): Cache {
    FillField(FillField(cache, fp, RoleField, store), fp, ClusterField, store)
  }

  function Fill(cache: Cache, fps: seq<Footprint>, store: Option<Store>): Cache {
    if fps == [] then cache else FillOne(Fill(cache, fps[..|fps| - 1], store), fps[|fps| - 1], store)
  }

  function Cached(cache: Cache, ref: string, field: Field): Option<string> {
    if (ref, field) in cache then cache[(ref, field)] else None
  }

  function Row(cache: Cache, fp: Footprint): Selected {
    Selected(fp.ref, Cached(cache, fp.ref, RoleField), Cached(cache, fp.ref, ClusterField))
  }

  function Rows(cache: Cache, fps: seq<Footprint>): seq<Selected> {
    seq(|fps|, i requires 0 <= i < |fps| => Row(cache, fps[i]))
  }

  predicate Holds(cache: Cache, ref: string) { (ref, RoleField) in cache && (ref, ClusterField) in cache }

  lemma FillingOneKeepsTheRows(cache: Cache, fp: Footprint, store: Option<Store>)
    ensures var filled := FillOne(cache, fp, store);
            && Holds(filled, fp.ref)
            && forall other: Footprint :: Holds(cache, other.ref) ==>
                 Holds(filled, other.ref) && Row(filled, other) == Row(cache, other)
  {}

  predicate HoldsAll(cache: Cache, fps: seq<Footprint>) { forall i :: 0 <= i < |fps| ==> Holds(cache, fps[i].ref) }

  lemma RowsOfOneMore(cache: Cache, fps: seq<Footprint>, fp: Footprint, store: Option<Store>)
    requires HoldsAll(cache, fps)
    ensures var filled := FillOne(cache, fp, store);
            HoldsAll(filled, fps + [fp]) && Rows(filled, fps + [fp]) == Rows(cache, fps) + [Row(filled, fp)]
  {
    FillingOneKeepsTheRows(cache, fp, store);
  }

  /** Board.select() with no filter, through the caches. */
  method Select(fps: seq<Footprint>, store: Option<Store>, before: Cache) returns (rows: seq<Selected>, cache: Cache)
    ensures cache == Fill(before, fps, store) && rows == Rows(cache, fps)
  {
    rows, cache := [], before;
    for i := 0 to |fps|
      invariant cache == Fill(before, fps[..i], store)
      invariant rows == Rows(cache, fps[..i]) && HoldsAll(cache, fps[..i])
    {
      assert fps[..i + 1][..i] == fps[..i];
      RowsOfOneMore(cache, fps[..i], fps[i], store);
      assert fps[..i] + [fps[i]] == fps[..i + 1];
      cache := FillOne(cache, fps[i], store);
      rows := rows + [Row(cache, fps[i])];
    }
    assert fps[..|fps|] == fps;
  }

  /** Footprints of one refdes have the same values in force. A refdes that stands on the
      board once agrees with itself. */
  ghost predicate Agree(fps: seq<Footprint>, store: Option<Store>) {
    forall i, j, field :: 0 <= i < j < |fps| && fps[i].ref == fps[j].ref ==>
      InForce(fps[i], field, store) == InForce(fps[j], field, store)
  }

  /** Whatever is cached is a value in force now. */
  ghost predicate CacheSound(cache: Cache, fps: seq<Footprint>, store: Option<Store>) {
    forall i, field :: 0 <= i < |fps| && (fps[i].ref, field) in cache ==>
      cache[(fps[i].ref, field)] == InForce(fps[i], field, store)
  }

  lemma FillFieldKeepsSound(cache: Cache, fps: seq<Footprint>, store: Option<Store>, k: nat, f: Field)
    requires k < |fps| && Agree(fps, store) && CacheSound(cache, fps, store)
    ensures CacheSound(FillField(cache, fps[k], f, store), fps, store)
  {
    var filled := FillField(cache, fps[k], f, store);
    forall i, field | 0 <= i < |fps| && (fps[i].ref, field) in filled
      ensures filled[(fps[i].ref, field)] == InForce(fps[i], field, store)
    {
      if (fps[i].ref, field) !in cache {
        assert fps[i].ref == fps[k].ref && field == f;
        assert i < k || i == k || k < i;
      }
    }
  }

  lemma {:induction false} FillKeepsSound(cache: Cache, fps: seq<Footprint>, store: Option<Store>, k: nat)
    requires k <= |fps| && Agree(fps, store) && CacheSound(cache, fps, store)
    ensures CacheSound(Fill(cache, fps[..k], store), fps, store)
    ensures forall i :: 0 <= i < k ==> Holds(Fill(cache, fps[..k], store), fps[i].ref)
  {
    if k > 0 {
      FillKeepsSound(cache, fps, store, k - 1);
      assert fps[..k][..k - 1] == fps[..k - 1];
      var before := Fill(cache, fps[..k - 1], store);
      FillFieldKeepsSound(before, fps, store, k - 1, RoleField);
      FillFieldKeepsSound(FillField(before, fps[k - 1], RoleField, store), fps, store, k - 1, ClusterField);
      FillingOneKeepsTheRows(before, fps[k - 1], store);
    }
  }

  /** From a sound cache, an empty one say, the select resolves every footprint under the
      store bound now exactly when footprints of one refdes have the same values in force:
      the caches are keyed by refdes, and what was asked first speaks for all. */
  lemma {:induction false} SelectResolvesAllIff(cache: Cache, fps: seq<Footprint>, store: Option<Store>)
    requires CacheSound(cache, fps, store)
    ensures Rows(Fill(cache, fps, store), fps) == ResolveAll(fps, store) <==> Agree(fps, store)
  {
    var rows := Rows(Fill(cache, fps, store), fps);
    if Agree(fps, store) {
      FillKeepsSound(cache, fps, store, |fps|);
      assert fps[..|fps|] == fps;
      assert forall i :: 0 <= i < |fps| ==> rows[i] == Resolve(fps[i], store);
    }
    if rows == ResolveAll(fps, store) {
      forall i, j, field | 0 <= i < j < |fps| && fps[i].ref == fps[j].ref
        ensures InForce(fps[i], field, store) == InForce(fps[j], field, store)
      {
        assert rows[i] == rows[j] && rows[i] == Resolve(fps[i], store) && rows[j] == Resolve(fps[j], store);
        match field case RoleField => case ClusterField =>
      }
    }
  }

  /** A board where it fails: two footprints of one refdes with different roles. */
  lemma DuplicateRefsBreakTheSnapshot(a: Footprint, b: Footprint)
    requires a.ref == b.ref && a.role != b.role
    ensures Rows(Fill(map[], [a, b], None), [a, b]) != ResolveAll([a, b], None)
  {
    var fps := [a, b];
    assert fps[0].ref == fps[1].ref && InForce(fps[0], RoleField, None) != InForce(fps[1], RoleField, None);
    SelectResolvesAllIff(map[], fps, None);
  }

  // ---- The connection, and what each of its methods does ----

  /** `closes` counts the close() calls every adapter ever obtained has had. */
  datatype Conn = Conn(
    board: Option<LiveBoard>, snapshot: seq<Selected>, version: nat, config: Option<string>,
    closes: map<nat, nat>, fast: seq<real>, slow: seq<real>)

  /** disconnect: close first, then let go, and drop the latency samples. */
  function Disconnect(c: Conn): Conn {
    c.(board := None,
       closes := if c.board.Some? then c.closes[c.board.value.adapter := Closes(c, c.board.value.adapter) + 1]
                 else c.closes,
       fast := [], slow := [])
  }

  function Closes(c: Conn, adapter: nat): nat {
    if adapter in c.closes then c.closes[adapter] else 0
  }

  /** _rebuild_snapshot, when the select does not raise. */
  function Rebuild(c: Conn): Conn
    requires c.board.Some?
  {
    var b := c.board.value;
    var cache := Fill(b.cache, b.footprints, b.bound);
    c.(board := Some(b.(cache := cache)), snapshot := Rows(cache, b.footprints), version := c.version + 1)
  }

  /** How a dial ends: with an error before an adapter was opened; with an error or a timeout
      after that, the adapter `closed` by the dial thread, or by nobody; or with a board. */
  datatype Dialing = Fails | FailsWith(adapter: nat, closed: bool) | Connects(board: LiveBoard)

  function Connect(c: Conn, dial: Dialing, selectRaises: bool): Conn {
    var dropped := Disconnect(c);
    match dial
    case Fails => dropped
    case FailsWith(adapter, closed) => dropped.(closes := dropped.closes[adapter := if closed then 1 else 0])
    case Connects(board) =>
      var held := dropped.(board := Some(board), closes := dropped.closes[board.adapter := 0]);
      if selectRaises then Disconnect(held) else Rebuild(held)
  }

  /** `read` is what the board answered, None when it raised. */
  function Refresh(c: Conn, read: Option<seq<Footprint>>, selectRaises: bool): Conn {
    if c.board.None? then c
    else if read.None? then Disconnect(c)
    else
      var reread := c.(board := Some(c.board.value.(footprints := read.value, cache := map[])));
      if selectRaises then Disconnect(reread) else Rebuild(reread)
  }

  /** The answer to "which board is open now": none, the known one, or another, in which
      case the board is read again. */
  datatype Identity = Unanswered | SameBoard | OtherBoard(read: Option<seq<Footprint>>, selectRaises: bool)

  function RefreshIfBoardChanged(c: Conn, identity: Identity): Conn {
    if c.board.Some? && identity.OtherBoard? then Refresh(c, identity.read, identity.selectRaises) else c
  }

  /** _reproject_snapshot_after_store_change; an exception of the select goes on to the
      caller and leaves everything where it was. */
  function Reproject(c: Conn, selectRaises: bool): Conn
    requires c.board.Some?
  {
    var b := c.board.value;
    if !b.canForget then c
    else
      var forgot := c.(board := Some(b.(cache := map[])));
      if selectRaises then forgot else Rebuild(forgot)
  }

  type Profile = Result<Option<Store>, ()>

  function Rebind(c: Conn, store: Option<Store>, selectRaises: bool): Conn
    requires c.board.Some?
  {
    Reproject(c.(board := Some(c.board.value.(bound := store))), selectRaises)
  }

  /** `profile` is the store of the new profile, if it has one; Failure when reading it
      raised. The path is set by then, and nothing else has changed. */
  function SetProjectConfig(c: Conn, config: Option<string>, profile: Profile, selectRaises: bool): Conn {
    var named := c.(config := config);
    if c.board.None? || !c.board.value.canBind then named
    else if config.None? then Rebind(named, None, selectRaises)
    else if profile.Failure? then named
    else Rebind(named, profile.value, selectRaises)
  }

  /** The file of the bound store: it has none, reading it raised, or this is what it says. */
  datatype StoreFile = NoPath | Unreadable | Loaded(store: Store)

  function ReloadStore(c: Conn, file: StoreFile, selectRaises: bool): Conn {
    if c.board.None? || !c.board.value.canBind || c.board.value.bound.None? || !file.Loaded? then c
    else Rebind(c, Some(file.store), selectRaises)
  }

  /** What a filtered select asks: one field of one footprint after another, the role of
      all that pass the refdes filter, the cluster of those that pass the role filter too. */
  function Asked(cache: Cache, fps: seq<Footprint>, asked: seq<(nat, Field)>, store: Option<Store>): Cache {
    if asked == [] then cache
    else
      var before := Asked(cache, fps, asked[..|asked| - 1], store);
      var (i, field) := asked[|asked| - 1];
      if i < |fps| then FillField(before, fps[i], field, store) else before
  }

  /** Somebody else's filtered select fills some of the caches. */
  function Peek(c: Conn, asked: seq<(nat, Field)>): Conn {
    if c.board.None? then c
    else
      var b := c.board.value;
      c.(board := Some(b.(cache := Asked(b.cache, b.footprints, asked, b.bound))))
  }

  datatype Kind = Fast | Slow

  function RecordLatency(c: Conn, kind: Kind, seconds: Option<real>): Conn {
    if kind.Fast? then c.(fast := Record(c.fast, seconds)) else c.(slow := Record(c.slow, seconds))
  }

  datatype Event =
    | Connecting(dial: Dialing, selectRaises: bool)
    | Refreshing(read: Option<seq<Footprint>>, selectRaises: bool)
    | CheckingIdentity(identity: Identity)
    | Disconnecting
    | SettingProject(config: Option<string>, profile: Profile, selectRaises: bool)
    | ReloadingStore(file: StoreFile, selectRaises: bool)
    | Peeking(asked: seq<(nat, Field)>)
    | Measuring(kind: Kind, seconds: Option<real>)

  function Step(c: Conn, e: Event): Conn {
    match e
    case Connecting(dial, selectRaises) => Connect(c, dial, selectRaises)
    case Refreshing(read, selectRaises) => Refresh(c, read, selectRaises)
    case CheckingIdentity(identity) => RefreshIfBoardChanged(c, identity)
    case Disconnecting => Disconnect(c)
    case SettingProject(config, profile, selectRaises) => SetProjectConfig(c, config, profile, selectRaises)
    case ReloadingStore(file, selectRaises) => ReloadStore(c, file, selectRaises)
    case Peeking(asked) => Peek(c, asked)
    case Measuring(kind, seconds) => RecordLatency(c, kind, seconds)
  }

  const INITIAL := Conn(None, [], 0, None, map[], [], [])

  function Run(c: Conn, events: seq<Event>): Conn {
    if events == [] then c else Step(Run(c, events[..|events| - 1]), events[|events| - 1])
  }

  /** Every dial opens an adapter of its own, with empty caches. */
  predicate Possible(c: Conn, e: Event) {
    && (e.Connecting? && e.dial.Connects? ==> e.dial.board.adapter !in c.closes && e.dial.board.cache == map[])
    && (e.Connecting? && e.dial.FailsWith? ==> e.dial.adapter !in c.closes)
  }

  ghost predicate PossibleRun(c: Conn, events: seq<Event>) {
    forall i :: 0 <= i < |events| ==> Possible(Run(c, events[..i]), events[i])
  }

  // ---- Adapters ----

  /** The event is a dial that failed and left its adapter open. */
  predicate Abandons(e: Event) { e.Connecting? && e.dial.FailsWith? && !e.dial.closed }

  /** The adapters such dials opened. */
  function Abandoned(events: seq<Event>): set<nat> {
    set i | 0 <= i < |events| && Abandons(events[i]) :: events[i].dial.adapter
  }

  /** The adapter behind the door has not been closed, nor have the abandoned ones; every
      other one has been closed once. */
  ghost predicate Owned(c: Conn, abandoned: set<nat>) {
    && abandoned <= c.closes.Keys && (c.board.Some? ==> c.board.value.adapter in c.closes.Keys - abandoned)
    && forall a :: a in c.closes ==>
         c.closes[a] == if (c.board.Some? && c.board.value.adapter == a) || a in abandoned then 0 else 1
  }

  predicate CurrentOrClosedOnce(c: Conn) {
    && (c.board.Some? ==> c.board.value.adapter in c.closes && c.closes[c.board.value.adapter] == 0)
    && forall a :: a in c.closes ==> (c.board.Some? && c.board.value.adapter == a) || c.closes[a] == 1
  }

  /** Every adapter ever opened is the current one, or has been closed exactly once, or was
      opened by a dial that failed and is never closed; so the first two cover all of them
      exactly when no dial of the run failed with its adapter open. */
  lemma {:induction false} EveryAdapterIsCurrentOrClosedOnceIff(events: seq<Event>)
    requires PossibleRun(INITIAL, events)
    ensures Owned(Run(INITIAL, events), Abandoned(events))
    ensures CurrentOrClosedOnce(Run(INITIAL, events)) <==> forall e :: e in events ==> !Abandons(e)
  {
    EveryRunIsOwned(events);
    var c := Run(INITIAL, events);
    if e :| e in events && Abandons(e) {
      var i :| 0 <= i < |events| && events[i] == e;
      assert e.dial.adapter in Abandoned(events);
      assert e.dial.adapter in c.closes && c.closes[e.dial.adapter] == 0;
    }
  }

  lemma {:induction false} EveryRunIsOwned(events: seq<Event>)
    requires PossibleRun(INITIAL, events)
    ensures Owned(Run(INITIAL, events), Abandoned(events))
  {
    if events != [] {
      var n := |events| - 1;
      var front, e := events[..n], events[n];
      assert forall i :: 0 <= i < n ==> front[..i] == events[..i];
      EveryRunIsOwned(front);
      StepKeepsOwned(Run(INITIAL, front), e, Abandoned(front));
      AbandonedByOneMore(front, e);
      assert events == front + [e];
    }
  }

  lemma AbandonedByOneMore(events: seq<Event>, e: Event)
    ensures Abandoned(events + [e]) == Abandoned(events) + AbandonedBy(e)
  {
    var more := events + [e];
    assert more[|events|] == e;
    forall a | a in Abandoned(events) ensures a in Abandoned(more) {
      var i :| 0 <= i < |events| && Abandons(events[i]) && events[i].dial.adapter == a;
      assert more[i] == events[i];
    }
  }

  function AbandonedBy(e: Event): set<nat> { if Abandons(e) then {e.dial.adapter} else {} }

  /** The close() counts once the adapter behind the door, if any, is closed and let go. */
  function ClosesWithout(c: Conn): map<nat, nat> {
    if c.board.None? then c.closes else c.closes[c.board.value.adapter := Closes(c, c.board.value.adapter) + 1]
  }

  /** What an event does to the account: it closes the adapter it lets go of, and a dial opens one,
      closed again at once when the select on it raises. */
  lemma AccountAfter(c: Conn, e: Event)
    ensures var c' := Step(c, e);
            && (!e.Connecting? ==>
                  if c'.board.Some?
                  then c.board.Some? && c'.board.value.adapter == c.board.value.adapter && c'.closes == c.closes
                  else c'.closes == ClosesWithout(c))
            && (e.Connecting? ==>
                  match e.dial
                  case Fails => c'.board.None? && c'.closes == ClosesWithout(c)
                  case FailsWith(adapter, closed) =>
                    c'.board.None? && c'.closes == ClosesWithout(c)[adapter := if closed then 1 else 0]
                  case Connects(board) =>
                    && c'.closes == ClosesWithout(c)[board.adapter := if e.selectRaises then 1 else 0]
                    && (c'.board.Some? <==> !e.selectRaises)
                    && (c'.board.Some? ==> c'.board.value.adapter == board.adapter))
  {
    hide Fill, Rows, Asked, Record;
    if e.Connecting? && e.dial.Connects? && e.selectRaises {
      var held := ClosesWithout(c)[e.dial.board.adapter := 0];
      assert held[e.dial.board.adapter := 1] == ClosesWithout(c)[e.dial.board.adapter := 1];
    }
  }

  lemma StepKeepsOwned(c: Conn, e: Event, abandoned: set<nat>)
    requires Owned(c, abandoned) && Possible(c, e)
    ensures Owned(Step(c, e), abandoned + AbandonedBy(e))
  {
    hide Step;
    AccountAfter(c, e);
  }

  // ---- The snapshot ----

  /** While a board is held, the snapshot is what it is meant to be. */
  ghost predicate Coherent(c: Conn) {
    c.board.Some? ==> c.snapshot == ResolveAll(c.board.value.footprints, c.board.value.bound)
  }

  /** The event bound a store under the board. */
  predicate Rebinds(c: Conn, e: Event) {
    && c.board.Some? && c.board.value.canBind
    && (|| (e.SettingProject? && (e.config.None? || e.profile.Success?))
        || (e.ReloadingStore? && c.board.value.bound.Some? && e.file.Loaded?))
  }

  /** What an event says of the store under the board: which one it is from now on, or nothing. */
  function Binds(c: Conn, e: Event): Option<Option<Store>> {
    match e
    case Connecting(dial, _) => if dial.Connects? then Some(dial.board.bound) else None
    case SettingProject(config, profile, _) =>
      if c.board.None? || !c.board.value.canBind then None
      else if config.None? then Some(None)
      else if profile.Success? then Some(profile.value) else None
    case ReloadingStore(file, _) =>
      if c.board.Some? && c.board.value.canBind && c.board.value.bound.Some? && file.Loaded?
      then Some(Some(file.store)) else None
    case _ => None
  }

  /** A board that is held afterwards has the store the event says: the one just read again, the
      new profile's or none, or the one the dial brought; and else the store it had. */
  lemma BoundStoreIsTheOneSaid(c: Conn, e: Event)
    ensures var c' := Step(c, e);
            c'.board.Some? ==>
              if Binds(c, e).Some? then c'.board.value.bound == Binds(c, e).value
              else c.board.Some? && c'.board.value.bound == c.board.value.bound
    ensures Rebinds(c, e) <==> Binds(c, e).Some? && !e.Connecting?
    ensures Rebinds(c, e) ==> Step(c, e).board.Some?
    ensures Step(c, e).config == if e.SettingProject? then e.config else c.config
  {}

  /** The board an event leaves: none, the one there was, or one read anew. */
  datatype Reading = Gone | Kept | Anew(adapter: nat, footprints: seq<Footprint>)

  function Reads(c: Conn, e: Event): Reading {
    match e
    case Connecting(dial, selectRaises) =>
      if dial.Connects? && !selectRaises then Anew(dial.board.adapter, dial.board.footprints) else Gone
    case Disconnecting => Gone
    case Refreshing(read, selectRaises) =>
      if c.board.None? || read.None? || selectRaises then Gone else Anew(c.board.value.adapter, read.value)
    case CheckingIdentity(OtherBoard(read, selectRaises)) =>
      if c.board.None? || read.None? || selectRaises then Gone else Anew(c.board.value.adapter, read.value)
    case _ => Kept
  }

  /** A board is held afterwards exactly when the event leaves one, and then it has the adapter
      and the footprints of that reading. */
  lemma HeldBoardIsTheOneRead(c: Conn, e: Event)
    ensures var c' := Step(c, e);
            match Reads(c, e)
            case Gone => c'.board.None?
            case Kept => (c'.board.Some? <==> c.board.Some?)
                         && (c.board.Some? ==> c'.board.value.adapter == c.board.value.adapter
                                               && c'.board.value.footprints == c.board.value.footprints)
            case Anew(adapter, fps) =>
              c'.board.Some? && c'.board.value.adapter == adapter && c'.board.value.footprints == fps
  {}

  /** The adapter and the footprints of the last reading of the run, if it still counts. */
  function LastReading(events: seq<Event>): Option<(nat, seq<Footprint>)> {
    if events == [] then None
    else
      match Reads(Run(INITIAL, events[..|events| - 1]), events[|events| - 1])
      case Gone => None
      case Kept => LastReading(events[..|events| - 1])
      case Anew(adapter, fps) => Some((adapter, fps))
  }

  /** "The footprints last read" are, after any run, those of the last connect, refresh or board
      switch that went through, unless the connection was dropped since. */
  lemma {:induction false} HeldBoardIsTheLastRead(events: seq<Event>)
    ensures var c := Run(INITIAL, events);
            LastReading(events) ==
            if c.board.Some? then Some((c.board.value.adapter, c.board.value.footprints)) else None
  {
    if events != [] {
      HeldBoardIsTheLastRead(events[..|events| - 1]);
      HeldBoardIsTheOneRead(Run(INITIAL, events[..|events| - 1]), events[|events| - 1]);
    }
  }

  /** The last store the run spoke of. */
  function LastBound(events: seq<Event>): Option<Option<Store>> {
    if events == [] then None
    else
      var before, e := events[..|events| - 1], events[|events| - 1];
      if Binds(Run(INITIAL, before), e).Some? then Binds(Run(INITIAL, before), e) else LastBound(before)
  }

  /** "The store now bound" is, after any run, the one last loaded again, named with a profile, or
      brought by a connect. */
  lemma {:induction false} BoundStoreIsTheLastSaid(events: seq<Event>)
    ensures var c := Run(INITIAL, events);
            c.board.Some? ==> LastBound(events) == Some(c.board.value.bound)
  {
    if events != [] {
      BoundStoreIsTheLastSaid(events[..|events| - 1]);
      BoundStoreIsTheOneSaid(Run(INITIAL, events[..|events| - 1]), events[|events| - 1]);
    }
  }

  /** The value in force of a field: our entry for the footprint's symbol, if the store that is
      bound has one, and else what stands on the board. */
  lemma OurEntryIsInForce(fp: Footprint, field: Field, store: Option<Store>)
    ensures store.Some? && fp.symbol.Some? && fp.symbol.value != "" && (fp.symbol.value, field) in store.value ==>
              InForce(fp, field, store) == Some(store.value[(fp.symbol.value, field)])
    ensures store.None? || fp.symbol.None? || fp.symbol.value == "" || (fp.symbol.value, field) !in store.value ==>
              InForce(fp, field, store) == if field == RoleField then fp.role else fp.cluster
    ensures Resolve(fp, store).ref == fp.ref && Resolve(fp, store).role == InForce(fp, RoleField, store)
            && Resolve(fp, store).cluster == InForce(fp, ClusterField, store)
  {}

  /** The event replaced the snapshot by a new one. */
  predicate Rebuilds(c: Conn, e: Event) {
    match e
    case Connecting(dial, selectRaises) => dial.Connects? && !selectRaises
    case Refreshing(read, selectRaises) => c.board.Some? && read.Some? && !selectRaises
    case CheckingIdentity(identity) =>
      c.board.Some? && identity.OtherBoard? && identity.read.Some? && !identity.selectRaises
    case SettingProject(_, _, selectRaises) => Rebinds(c, e) && c.board.value.canForget && !selectRaises
    case ReloadingStore(_, selectRaises) => Rebinds(c, e) && c.board.value.canForget && !selectRaises
    case _ => false
  }

  /** The version counts the rebuilds, one by one, and a snapshot with the same version
      is the same snapshot. */
  lemma VersionCountsRebuilds(c: Conn, e: Event)
    ensures Step(c, e).version == c.version + if Rebuilds(c, e) then 1 else 0
    ensures Step(c, e).version == c.version ==> Step(c, e).snapshot == c.snapshot
  {}

  /** The snapshot is what a select through empty caches gives now. */
  ghost predicate Projected(c: Conn) {
    c.board.Some? ==>
      var b := c.board.value; c.snapshot == Rows(Fill(map[], b.footprints, b.bound), b.footprints)
  }

  lemma ProjectedIsCoherentIff(c: Conn)
    requires Projected(c) && c.board.Some?
    ensures Coherent(c) <==> Agree(c.board.value.footprints, c.board.value.bound)
  {
    SelectResolvesAllIff(map[], c.board.value.footprints, c.board.value.bound);
  }

  /** Every rebuild, after a connect, a refresh, a board switch or a store change, finds the
      caches empty. Whatever the snapshot was before, it is coherent then exactly when the
      footprints of each refdes agree. */
  lemma RebuiltIsCoherentIff(c: Conn, e: Event)
    requires Possible(c, e) && Rebuilds(c, e)
    ensures var c' := Step(c, e);
            c'.board.Some? && Projected(c') &&
                (Coherent(c') <==> Agree(c'.board.value.footprints, c'.board.value.bound))
  {
    ProjectedIsCoherentIff(Step(c, e));
  }

  /** A store change on a coherent snapshot ends coherent exactly when, if the board can
      forget and the select does not raise, the footprints of each refdes agree under the
      new store; and otherwise, when the change leaves every value in force as it was. */
  lemma StoreChangeIsCoherentIff(c: Conn, store: Option<Store>, selectRaises: bool)
    requires c.board.Some? && Coherent(c)
    ensures var b := c.board.value;
            Coherent(Rebind(c, store, selectRaises)) <==>
            if b.canForget && !selectRaises then Agree(b.footprints, store)
            else SameInForce(b.footprints, b.bound, store)
  {
    var b, c' := c.board.value, Rebind(c, store, selectRaises);
    if b.canForget && !selectRaises {
      ProjectedIsCoherentIff(c');
    } else {
      assert c'.snapshot == c.snapshot && c'.board.value.footprints == b.footprints;
      if Coherent(c') {
        forall i, field | 0 <= i < |b.footprints|
          ensures InForce(b.footprints[i], field, b.bound) == InForce(b.footprints[i], field, store)
        {
          assert ResolveAll(b.footprints, b.bound)[i] == ResolveAll(b.footprints, store)[i];
          match field case RoleField => case ClusterField =>
        }
      }
    }
  }

  ghost predicate SameInForce(fps: seq<Footprint>, old_: Option<Store>, new_: Option<Store>) {
    forall i, field :: 0 <= i < |fps| ==> InForce(fps[i], field, old_) == InForce(fps[i], field, new_)
  }

  /** A board that cannot forget keeps showing the previous store. */
  lemma AStoreChangeCanLeaveTheSnapshotStale()
    ensures var fp := Footprint("C1", Some("u"), Some("theirs"), None);
            var b := LiveBoard(0, [fp], None, map[], false, true);
            var c := Conn(Some(b), ResolveAll([fp], None), 1, None, map[0 := 0], [], []);
            Coherent(c) && !Coherent(Rebind(c, Some(map[("u", RoleField) := "ours"]), false))
  {
    var fp := Footprint("C1", Some("u"), Some("theirs"), None);
    var ours: Option<Store> := Some(map[("u", RoleField) := "ours"]);
    assert ResolveAll([fp], None)[0].role == Some("theirs");
    assert ResolveAll([fp], ours)[0].role == Some("ours");
  }

  ghost predicate SnapshotInv(c: Conn) {
    Projected(c) && (c.board.Some? ==> c.board.value.canForget)
  }

  /** Boards can forget, and no select raises just after a store change. */
  predicate Reprojects(c: Conn, e: Event) {
    && (e.Connecting? && e.dial.Connects? ==> e.dial.board.canForget)
    && (Rebinds(c, e) ==> !e.selectRaises)
  }

  ghost predicate ReprojectingRun(c: Conn, events: seq<Event>) {
    forall i :: 0 <= i < |events| ==> Reprojects(Run(c, events[..i]), events[i])
  }

  /** In such a run the snapshot is at every moment the footprints last read resolved under
      the store now bound, exactly when the footprints of each refdes agree under it. */
  lemma {:induction false} ReprojectingRunIsCoherentIff(events: seq<Event>)
    requires PossibleRun(INITIAL, events) && ReprojectingRun(INITIAL, events)
    ensures var c := Run(INITIAL, events);
            && SnapshotInv(c)
            && (Coherent(c) <==> (c.board.Some? ==> Agree(c.board.value.footprints, c.board.value.bound)))
  {
    if events != [] {
      var n := |events| - 1;
      assert forall i :: 0 <= i < n ==> events[..n][..i] == events[..i];
      ReprojectingRunIsCoherentIff(events[..n]);
      StepKeepsSnapshotInv(Run(INITIAL, events[..n]), events[n]);
    }
    var c := Run(INITIAL, events);
    if c.board.Some? {
      ProjectedIsCoherentIff(c);
    }
  }

  lemma StepKeepsSnapshotInv(c: Conn, e: Event)
    requires SnapshotInv(c) && Possible(c, e) && Reprojects(c, e)
    ensures SnapshotInv(Step(c, e))
  {
    if Rebuilds(c, e) {
      RebuiltIsCoherentIff(c, e);
    }
  }

  // ---- The snapshot over any run ----

  /** The footprint of a refdes that is asked first. */
  function FirstOf(fps: seq<Footprint>, ref: string): (fp: Footprint)
    requires exists i :: 0 <= i < |fps| && fps[i].ref == ref
    ensures fp in fps && fp.ref == ref
  {
    if fps[0].ref == ref then fps[0] else FirstOf(fps[1..], ref)
  }

  /** Every row with the values of the first footprint of its refdes. */
  function ByFirst(fps: seq<Footprint>, store: Option<Store>): seq<Selected> {
    seq(|fps|, i requires 0 <= i < |fps| => Resolve(FirstOf(fps, fps[i].ref), store))
  }

  lemma {:induction false} FirstOfMore(fps: seq<Footprint>, fp: Footprint, ref: string)
    requires exists i :: 0 <= i < |fps| && fps[i].ref == ref
    ensures exists i :: 0 <= i < |fps + [fp]| && (fps + [fp])[i].ref == ref
    ensures FirstOf(fps + [fp], ref) == FirstOf(fps, ref)
  {
    var k :| 0 <= k < |fps| && fps[k].ref == ref;
    assert (fps + [fp])[k].ref == ref && (fps + [fp])[0] == fps[0];
    if fps[0].ref != ref {
      assert fps[1..][k - 1].ref == ref;
      FirstOfMore(fps[1..], fp, ref);
      assert (fps + [fp])[1..] == fps[1..] + [fp];
    }
  }

  lemma {:induction false} FirstOfNew(fps: seq<Footprint>, fp: Footprint)
    requires forall i :: 0 <= i < |fps| ==> fps[i].ref != fp.ref
    ensures (fps + [fp])[|fps|].ref == fp.ref && FirstOf(fps + [fp], fp.ref) == fp
  {
    assert (fps + [fp])[|fps|] == fp;
    if fps != [] {
      FirstOfNew(fps[1..], fp);
      assert (fps + [fp])[1..] == fps[1..] + [fp] && (fps + [fp])[0] == fps[0];
    }
  }

  /** Through empty caches every entry is the value of the first footprint of its refdes. */
  ghost predicate FilledByFirst(cache: Cache, fps: seq<Footprint>, store: Option<Store>) {
    && (forall key :: key in cache ==> exists i :: 0 <= i < |fps| && fps[i].ref == key.0)
    && (forall i :: 0 <= i < |fps| ==> Holds(cache, fps[i].ref)
                                       && Row(cache, fps[i]) == Resolve(FirstOf(fps, fps[i].ref), store))
  }

  lemma {:induction false} FillIsByFirst(fps: seq<Footprint>, store: Option<Store>)
    ensures FilledByFirst(Fill(map[], fps, store), fps, store)
  {
    if fps != [] {
      var front, fp := fps[..|fps| - 1], fps[|fps| - 1];
      assert fps == front + [fp];
      FillIsByFirst(front, store);
      FillOneIsByFirst(Fill(map[], front, store), front, fp, store);
    }
  }

  lemma FillOneIsByFirst(cache: Cache, fps: seq<Footprint>, fp: Footprint, store: Option<Store>)
    requires FilledByFirst(cache, fps, store)
    ensures FilledByFirst(FillOne(cache, fp, store), fps + [fp], store)
  {
    var filled, more := FillOne(cache, fp, store), fps + [fp];
    FillingOneKeepsTheRows(cache, fp, store);
    assert more[|fps|] == fp;
    forall i | 0 <= i < |more|
      ensures Holds(filled, more[i].ref) && Row(filled, more[i]) == Resolve(FirstOf(more, more[i].ref), store)
    {
      assert more[i] == fp || fps[i] == more[i];
      if j :| 0 <= j < |fps| && fps[j].ref == more[i].ref {
        var other := fps[j];
        FirstOfMore(fps, fp, other.ref);
        assert Holds(cache, other.ref) && Row(cache, other) == Resolve(FirstOf(fps, other.ref), store);
        assert Row(filled, more[i]) == Row(filled, other);
      } else {
        FirstOfNew(fps, fp);
        assert (fp.ref, RoleField) !in cache && (fp.ref, ClusterField) !in cache;
      }
    }
    forall key | key in filled ensures exists i :: 0 <= i < |more| && more[i].ref == key.0 {
      if key in cache {
        var i :| 0 <= i < |fps| && fps[i].ref == key.0;
        assert more[i].ref == key.0;
      }
    }
  }

  lemma {:induction false} SelectIsByFirst(fps: seq<Footprint>, store: Option<Store>)
    ensures Rows(Fill(map[], fps, store), fps) == ByFirst(fps, store)
  {
    FillIsByFirst(fps, store);
    var rows := Rows(Fill(map[], fps, store), fps);
    assert forall i :: 0 <= i < |fps| ==> rows[i] == ByFirst(fps, store)[i];
  }

  /** What a rebuild went by. */
  datatype Basis = Basis(footprints: seq<Footprint>, store: Option<Store>)

  /** The footprints and the store of the last rebuild of the run. */
  function LastRebuild(c: Conn, events: seq<Event>): Option<Basis> {
    if events == [] then None
    else
      var before, e := events[..|events| - 1], events[|events| - 1];
      if Rebuilds(Run(c, before), e) && Run(c, events).board.Some?
      then Some(Basis(Run(c, events).board.value.footprints, Run(c, events).board.value.bound))
      else LastRebuild(c, before)
  }

  /** The snapshot shows what it went by, and a board that is held has those footprints. */
  ghost predicate ShowsBasis(c: Conn, basis: Option<Basis>) {
    && c.snapshot == (if basis.Some? then ByFirst(basis.value.footprints, basis.value.store) else [])
    && (c.board.Some? ==> basis.Some? && basis.value.footprints == c.board.value.footprints)
  }

  lemma StepShowsBasis(c: Conn, e: Event, basis: Option<Basis>)
    requires ShowsBasis(c, basis) && Possible(c, e)
    ensures var c' := Step(c, e);
            ShowsBasis(c', if Rebuilds(c, e) && c'.board.Some?
                           then Some(Basis(c'.board.value.footprints, c'.board.value.bound)) else basis)
  {
    if Rebuilds(c, e) {
      RebuiltIsCoherentIff(c, e);
      var b := Step(c, e).board.value;
      SelectIsByFirst(b.footprints, b.bound);
    } else {
      VersionCountsRebuilds(c, e);
      assert Step(c, e).board.Some? ==>
               c.board.Some? && Step(c, e).board.value.footprints == c.board.value.footprints;
    }
  }

  /** Some footprint shows a value that is not in force for it now: the one its refdes had under
      the store of the last rebuild, by the first footprint of that refdes. */
  ghost predicate Misleads(fps: seq<Footprint>, went: Option<Store>, now: Option<Store>) {
    exists i, field :: 0 <= i < |fps| && InForce(FirstOf(fps, fps[i].ref), field, went) != InForce(fps[i], field, now)
  }

  lemma ByFirstIsResolvedIff(fps: seq<Footprint>, went: Option<Store>, now: Option<Store>)
    ensures ByFirst(fps, went) == ResolveAll(fps, now) <==> !Misleads(fps, went, now)
  {
    var shown, meant := ByFirst(fps, went), ResolveAll(fps, now);
    if shown == meant {
      forall i, field | 0 <= i < |fps|
        ensures InForce(FirstOf(fps, fps[i].ref), field, went) == InForce(fps[i], field, now)
      {
        assert shown[i] == meant[i];
        match field case RoleField => case ClusterField =>
      }
    }
    if !Misleads(fps, went, now) {
      forall i | 0 <= i < |fps| ensures shown[i] == meant[i] {
        assert InForce(FirstOf(fps, fps[i].ref), RoleField, went) == InForce(fps[i], RoleField, now);
        assert InForce(FirstOf(fps, fps[i].ref), ClusterField, went) == InForce(fps[i], ClusterField, now);
      }
    }
  }

  /** At every moment of every run, whatever failed, the snapshot is the select's answer for the
      footprints and the store of the last rebuild: each row has the values the first footprint
      of its refdes had under that store. So it is what it is meant to be, every footprint
      resolved under the store now bound, exactly when each of those values is in force. */
  lemma {:induction false} EveryRunIsCoherentIff(events: seq<Event>)
    requires PossibleRun(INITIAL, events)
    ensures var c, basis := Run(INITIAL, events), LastRebuild(INITIAL, events);
            && ShowsBasis(c, basis)
            && (Coherent(c) <==>
                (c.board.Some? ==> !Misleads(c.board.value.footprints, basis.value.store, c.board.value.bound)))
  {
    if events != [] {
      var n := |events| - 1;
      assert forall i :: 0 <= i < n ==> events[..n][..i] == events[..i];
      EveryRunIsCoherentIff(events[..n]);
      StepShowsBasis(Run(INITIAL, events[..n]), events[n], LastRebuild(INITIAL, events[..n]));
    }
    var c, basis := Run(INITIAL, events), LastRebuild(INITIAL, events);
    if c.board.Some? {
      ByFirstIsResolvedIff(c.board.value.footprints, basis.value.store, c.board.value.bound);
    }
  }

  /** Somebody else's select, whatever it filters by, leaves the snapshot alone, and as long as
      the footprints of each refdes agree it leaves in the caches only values in force. */
  lemma {:induction false} PeekKeepsSound(c: Conn, asked: seq<(nat, Field)>)
    requires c.board.Some? && CacheSound(c.board.value.cache, c.board.value.footprints, c.board.value.bound)
    requires Agree(c.board.value.footprints, c.board.value.bound)
    ensures var c' := Peek(c, asked);
            && c'.board.Some? && c'.snapshot == c.snapshot && c'.version == c.version
            && c'.board.value.footprints == c.board.value.footprints && c'.board.value.bound == c.board.value.bound
            && CacheSound(c'.board.value.cache, c.board.value.footprints, c.board.value.bound)
  {
    var b := c.board.value;
    if asked != [] {
      var front := asked[..|asked| - 1];
      var (i, field) := asked[|asked| - 1];
      PeekKeepsSound(c, front);
      if i < |b.footprints| {
        FillFieldKeepsSound(Asked(b.cache, b.footprints, front, b.bound), b.footprints, b.bound, i, field);
      }
    }
  }

  // ---- The latency windows over a run ----

  predicate Drops(c: Conn, e: Event) {
    match e
    case Connecting(_, _) => true
    case Refreshing(read, selectRaises) => c.board.Some? && (read.None? || selectRaises)
    case CheckingIdentity(identity) =>
      c.board.Some? && identity.OtherBoard? && (identity.read.None? || identity.selectRaises)
    case Disconnecting => true
    case _ => false
  }

  /** The samples of one kind measured since the connection was last dropped. */
  function SinceDrop(c: Conn, events: seq<Event>, kind: Kind): seq<Option<real>> {
    if events == [] then []
    else
      var before, e := events[..|events| - 1], events[|events| - 1];
      if Drops(Run(c, before), e) then []
      else SinceDrop(c, before, kind) + if e.Measuring? && e.kind == kind then [e.seconds] else []
  }

  function Window(c: Conn, kind: Kind): seq<real> { if kind.Fast? then c.fast else c.slow }

  lemma StepOfAWindow(c: Conn, e: Event, kind: Kind)
    ensures Window(Step(c, e), kind) ==
            if Drops(c, e) then []
            else if e.Measuring? && e.kind == kind then Record(Window(c, kind), e.seconds)
            else Window(c, kind)
  {}

  lemma {:induction false} WindowRecordsSinceDrop(events: seq<Event>, kind: Kind)
    ensures Window(Run(INITIAL, events), kind) == RecordAll([], SinceDrop(INITIAL, events, kind))
  {
    if events != [] {
      var before, e := events[..|events| - 1], events[|events| - 1];
      WindowRecordsSinceDrop(before, kind);
      StepOfAWindow(Run(INITIAL, before), e, kind);
      var samples := SinceDrop(INITIAL, before, kind);
      if e.Measuring? && e.kind == kind {
        assert (samples + [e.seconds])[..|samples|] == samples;
      } else {
        assert samples + [] == samples;
      }
    }
  }

  /** After any run each window holds the last forty valid samples of its kind since the
      connection was last dropped, in order, so its numbers are never an earlier
      session's; there are numbers exactly when there is such a sample. */
  lemma {:induction false} WindowsHoldThisSession(events: seq<Event>, kind: Kind)
    ensures var window, samples := Window(Run(INITIAL, events), kind), ValidOnes(SinceDrop(INITIAL, events, kind));
            window == LastN(samples, WINDOW_SIZE) && (Stats(window).None? <==> samples == [])
  {
    WindowRecordsSinceDrop(events, kind);
    WindowIsTheLastForty(SinceDrop(INITIAL, events, kind));
  }
}
