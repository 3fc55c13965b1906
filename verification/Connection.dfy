/** The connection object itself: every method of BoardConnection (gui/connection.py)
    leaves the state that the function of the same name in module BoardConnection says, and
    so keeps what is proved there of every run. */
module Connection {
  import opened FieldOverrides
  import opened Latency
  import opened Wrappers
  import M = BoardConnection

  class BoardConnection {
    var board: Option<M.LiveBoard>
    var snapshot: seq<M.Selected>
    var version: nat
    var config: Option<string>
    var fast: seq<real>
    var slow: seq<real>
    /** How often each adapter ever obtained has been closed. */
    var closes: map<nat, nat>
    /** The ones that dials opened which then failed, and which nobody closes. */
    ghost var abandoned: set<nat>

    constructor ()
      ensures State() == M.INITIAL && abandoned == {} && Valid()
    {
      board, snapshot, version, config, fast, slow, closes := None, [], 0, None, [], [], map[];
      abandoned := {};
    }

    function State(): M.Conn
      reads this
    {
      M.Conn(board, snapshot, version, config, closes, fast, slow)
    }

    /** Every adapter but the current one and the abandoned ones has been closed once, and the
        snapshot is the select's answer for the footprints last read and the store now bound. */
    ghost predicate Valid()
      reads this
    {
      M.Owned(State(), abandoned) && M.SnapshotInv(State())
    }

    /** The event can happen here, on boards that can forget and without a select that raises
        just after a store change. */
    ghost predicate Keeps(e: M.Event)
      reads this
    {
      Valid() && M.Possible(State(), e) && M.Reprojects(State(), e)
    }

    ghost method StaysValid(c: M.Conn, e: M.Event, before: set<nat>)
      requires State() == M.Step(c, e) && abandoned == before + M.AbandonedBy(e)
      ensures M.Owned(c, before) && M.SnapshotInv(c) && M.Possible(c, e) && M.Reprojects(c, e) ==> Valid()
    {
      if M.Owned(c, before) && M.SnapshotInv(c) && M.Possible(c, e) && M.Reprojects(c, e) {
        M.StepKeepsOwned(c, e, before);
        M.StepKeepsSnapshotInv(c, e);
      }
    }

    method Disconnect()
      modifies this
      ensures State() == M.Disconnect(old(State())) && abandoned == old(abandoned)
      ensures old(Valid()) ==> Valid()
    {
      if board.Some? {
        var adapter := board.value.adapter;
        closes := closes[adapter := (if adapter in closes then closes[adapter] else 0) + 1];
      }
      board := None;
      fast, slow := [], [];
    }

    /** Returns whether the select went through; if it raised nothing has changed. */
    method RebuildSnapshot(selectRaises: bool) returns (ok: bool)
      requires board.Some?
      modifies this
      ensures ok == !selectRaises
      ensures State() == if selectRaises then old(State()) else M.Rebuild(old(State()))
      ensures abandoned == old(abandoned)
    {
      if selectRaises {
        return false;
      }
      var b := board.value;
      var rows, cache := M.Select(b.footprints, b.bound, b.cache);
      board := Some(b.(cache := cache));
      snapshot := rows;
      version := version + 1;
      ok := true;
    }

    /** Returns whether it connected. */
    method Connect(dial: M.Dialing, selectRaises: bool) returns (ok: bool)
      modifies this
      ensures State() == M.Connect(old(State()), dial, selectRaises)
      ensures abandoned == old(abandoned) + M.AbandonedBy(M.Connecting(dial, selectRaises))
      ensures ok == (dial.Connects? && !selectRaises) == board.Some?
      ensures old(Keeps(M.Connecting(dial, selectRaises))) ==> Valid()
    {
      ghost var before := State();
      Disconnect();
      ghost var was := abandoned;
      abandoned := was + M.AbandonedBy(M.Connecting(dial, selectRaises));
      if !dial.Connects? {
        if dial.FailsWith? {
          closes := closes[dial.adapter := if dial.closed then 1 else 0];
        }
        StaysValid(before, M.Connecting(dial, selectRaises), was);
        return false;
      }
      closes := closes[dial.board.adapter := 0];
      board := Some(dial.board);
      ok := RebuildSnapshot(selectRaises);
      if !ok {
        Disconnect();
      }
      StaysValid(before, M.Connecting(dial, selectRaises), was);
    }

    /** Returns whether the board is still held and was read. */
    method Refresh(read: Option<seq<M.Footprint>>, selectRaises: bool) returns (ok: bool)
      modifies this
      ensures State() == M.Refresh(old(State()), read, selectRaises) && abandoned == old(abandoned)
      ensures ok == M.Rebuilds(old(State()), M.Refreshing(read, selectRaises))
      ensures old(Valid()) ==> Valid()
    {
      ghost var before := State();
      if board.None? {
        return false;
      }
      if read.None? {
        Disconnect();
        return false;
      }
      board := Some(board.value.(footprints := read.value, cache := map[]));
      ok := RebuildSnapshot(selectRaises);
      if !ok {
        Disconnect();
      }
      StaysValid(before, M.Refreshing(read, selectRaises), abandoned);
    }

    /** (changed, failed): one identity request, and a refresh only for another board. */
    method RefreshIfBoardChanged(identity: M.Identity) returns (changed: bool, failed: bool)
      modifies this
      ensures State() == M.RefreshIfBoardChanged(old(State()), identity) && abandoned == old(abandoned)
      ensures changed == (old(board).Some? && identity.OtherBoard?)
      ensures failed ==> changed && board.None?
      ensures !changed ==> State() == old(State())
      ensures old(Valid()) ==> Valid()
    {
      if board.None? || !identity.OtherBoard? {
        return false, false;
      }
      var ok := Refresh(identity.read, identity.selectRaises);
      changed, failed := true, !ok;
    }

    /** Rebind the store of the held board and project the snapshot again. Returns
        whether an exception went on to the caller. */
    method Rebind(store: Option<Store>, selectRaises: bool) returns (raised: bool)
      requires board.Some?
      modifies this
      ensures State() == M.Rebind(old(State()), store, selectRaises) && abandoned == old(abandoned)
      ensures raised == (old(board).value.canForget && selectRaises)
      ensures board.Some? && board.value.bound == store && board.value.canBind == old(board).value.canBind
      ensures old(board).value.canForget && !selectRaises ==>
                snapshot == M.ByFirst(old(board).value.footprints, store)
    {
      M.SelectIsByFirst(board.value.footprints, store);
      board := Some(board.value.(bound := store));
      if !board.value.canForget {
        return false;
      }
      board := Some(board.value.(cache := map[]));
      var ok := RebuildSnapshot(selectRaises);
      raised := !ok;
    }

    /** `profile` is Failure when reading the profile's store raised. */
    method SetProjectConfig(config: Option<string>, profile: M.Profile, selectRaises: bool) returns (raised: bool)
      modifies this
      ensures State() == M.SetProjectConfig(old(State()), config, profile, selectRaises) && abandoned == old(abandoned)
      ensures this.config == config && (board.Some? <==> old(board).Some?)
      ensures board.Some? && board.value.canBind && (config.None? || profile.Success?) ==>
                board.value.bound == (if config.None? then None else profile.value)
                && (old(board).value.canForget && !selectRaises ==>
                      snapshot == M.ByFirst(old(board).value.footprints, board.value.bound))
      ensures board.Some? && (!board.value.canBind || (config.Some? && profile.Failure?)) ==>
                board == old(board) && snapshot == old(snapshot)
      ensures raised == (old(board).Some? && old(board).value.canBind
                         && ((config.Some? && profile.Failure?) || (old(board).value.canForget && selectRaises)))
      ensures old(Keeps(M.SettingProject(config, profile, selectRaises))) ==> Valid()
    {
      ghost var before := State();
      this.config := config;
      if board.None? || !board.value.canBind {
        return false;
      }
      if config.Some? && profile.Failure? {
        return true;
      }
      raised := Rebind(if config.Some? then profile.value else None, selectRaises);
      StaysValid(before, M.SettingProject(config, profile, selectRaises), abandoned);
    }

    /** A bound store that has no file of its own is left alone. */
    method ReloadStore(file: M.StoreFile, selectRaises: bool) returns (raised: bool)
      modifies this
      ensures State() == M.ReloadStore(old(State()), file, selectRaises) && abandoned == old(abandoned)
      ensures old(board).Some? && old(board).value.canBind && old(board).value.bound.Some? && file.Loaded? ==>
                board.Some? && board.value.bound == Some(file.store)
                && (old(board).value.canForget && !selectRaises ==>
                      snapshot == M.ByFirst(old(board).value.footprints, Some(file.store)))
      ensures !(old(board).Some? && old(board).value.canBind && old(board).value.bound.Some? && file.Loaded?) ==>
                State() == old(State())
      ensures raised == (old(board).Some? && old(board).value.canBind && old(board).value.bound.Some?
                         && (file.Unreadable? || (file.Loaded? && old(board).value.canForget && selectRaises)))
      ensures old(Keeps(M.ReloadingStore(file, selectRaises))) ==> Valid()
    {
      ghost var before := State();
      if board.None? || !board.value.canBind || board.value.bound.None? {
        return false;
      }
      match file {
        case NoPath => return false;
        case Unreadable => return true;
        case Loaded(store) =>
          raised := Rebind(Some(store), selectRaises);
          StaysValid(before, M.ReloadingStore(file, selectRaises), abandoned);
      }
    }

    method RecordLatency(kind: M.Kind, seconds: Option<real>)
      modifies this
      ensures State() == M.RecordLatency(old(State()), kind, seconds) && abandoned == old(abandoned)
      ensures old(Valid()) ==> Valid()
    {
      if seconds.None? || seconds.value < 0.0 {
        return;
      }
      match kind {
        case Fast => fast := LastN(fast + [seconds.value], WINDOW_SIZE);
        case Slow => slow := LastN(slow + [seconds.value], WINDOW_SIZE);
      }
    }
  }
}
