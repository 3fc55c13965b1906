/** Connecting with an external timeout (gui/connection.py, _connect_with_timeout): the
    caller's thread and a throwaway dial thread, one step of either at a time. */
module ConnectTimeout {
  import opened Wrappers

  /** What Board.connect() does on the dial thread: blocks for ever, returns a board,
      raises an Exception, or leaves by something that is not an Exception (SystemExit),
      which the thread's handler does not catch. */
  datatype Dial = Hangs | Succeeds | Raises | Escapes

  /** Where the dial thread stands: before each of its steps, done but still alive, or gone. */
  datatype Worker = Dialing | CheckingGaveUp | Closing | Appending | RecordingError | Leaving | Exited

  /** Where the caller stands: in join(), at is_alive(), at gave_up.set(), at the reading
      of the two lists, or finished in one of four ways. */
  datatype Caller = Joining | TestingAlive | GivingUp | Collecting | Returned | RaisedError | TimedOut | IndexedEmpty

  datatype Race = Race(
    dial: Dial, worker: Worker, caller: Caller,
    gaveUp: bool, results: nat, errors: nat, closed: nat,
    clock: nat, checkedAt: Option<nat>, exitedAt: Option<nat>, aliveAt: Option<nat>, gaveUpAt: Option<nat>)

  function Start(dial: Dial): Race {
    Race(dial, Dialing, Joining, false, 0, 0, 0, 0, None, None, None, None)
  }

  /** One step of the dial thread, or of the caller; `timeUp` is whether the caller's
      join has waited long enough. */
  datatype Move = WorkerMoves | CallerMoves(timeUp: bool)

  function WorkerStep(r: Race): Race {
    match r.worker
    case Dialing =>
      (match r.dial
       case Hangs => r
       case Succeeds => r.(worker := CheckingGaveUp)
       case Raises => r.(worker := RecordingError)
       case Escapes => r.(worker := Leaving))
    case CheckingGaveUp => r.(worker := if r.gaveUp then Closing else Appending, checkedAt := Some(r.clock))
    case Closing => r.(worker := Leaving, closed := r.closed + 1)
    case Appending => r.(worker := Leaving, results := r.results + 1)
    case RecordingError => r.(worker := Leaving, errors := r.errors + 1)
    case Leaving => r.(worker := Exited, exitedAt := Some(r.clock))
    case Exited => r
  }

  function CallerStep(r: Race, timeUp: bool): Race {
    match r.caller
    case Joining => if r.worker.Exited? || timeUp then r.(caller := TestingAlive) else r
    case TestingAlive => if r.worker.Exited? then r.(caller := Collecting)
                         else r.(caller := GivingUp, aliveAt := Some(r.clock))
    case GivingUp => r.(caller := TimedOut, gaveUp := true, gaveUpAt := Some(r.clock))
    case Collecting =>
      r.(caller := if r.errors > 0 then RaisedError else if r.results > 0 then Returned else IndexedEmpty)
    case _ => r
  }

  function Do(r: Race, m: Move): Race {
    var after := if m.WorkerMoves? then WorkerStep(r) else CallerStep(r, m.timeUp);
    after.(clock := r.clock + 1)
  }

  function Play(r: Race, moves: seq<Move>): Race {
    if moves == [] then r else Do(Play(r, moves[..|moves| - 1]), moves[|moves| - 1])
  }

  predicate LetThrough(c: Caller) { c.Collecting? || c.Returned? || c.RaisedError? || c.IndexedEmpty? }

  predicate CallerDone(r: Race) { r.caller.TimedOut? || (LetThrough(r.caller) && !r.caller.Collecting?) }

  /** The dial thread has done what it came for; is_alive() may still say yes. */
  predicate Finished(w: Worker) { w.Leaving? || w.Exited? }

  predicate Over(r: Race) { CallerDone(r) && r.worker.Exited? }

  // ---- What holds after every schedule ----

  predicate Before(a: Option<nat>, b: Option<nat>) { a.Some? && b.Some? && a.value < b.value }

  predicate Inv(r: Race) {
    // The dial thread has done at most one thing, and only what its dial allows.
    && (r.worker == CheckingGaveUp || r.worker == Closing || r.worker == Appending ==> r.dial.Succeeds?)
    && (r.worker == RecordingError ==> r.dial.Raises?)
    && (Finished(r.worker) ==> !r.dial.Hangs?)
    && r.closed == (if Finished(r.worker) && r.dial.Succeeds? && Before(r.gaveUpAt, r.checkedAt) then 1 else 0)
    && r.results == (if Finished(r.worker) && r.dial.Succeeds? && !Before(r.gaveUpAt, r.checkedAt) then 1 else 0)
    && r.errors == (if Finished(r.worker) && r.dial.Raises? then 1 else 0)
    && (r.worker == Closing ==> Before(r.gaveUpAt, r.checkedAt))
    && (r.worker == Appending ==> !Before(r.gaveUpAt, r.checkedAt))
    && (r.checkedAt.Some? <==> r.dial.Succeeds? && (r.worker.Closing? || r.worker.Appending? || Finished(r.worker)))
    && (r.exitedAt.Some? <==> r.worker.Exited?)
    // The caller gives up exactly when it saw the thread alive.
    && (r.gaveUp <==> r.gaveUpAt.Some?) && (r.gaveUp <==> r.caller == TimedOut)
    && (r.aliveAt.Some? <==> r.caller.GivingUp? || r.caller.TimedOut?)
    && (LetThrough(r.caller) ==> r.worker.Exited?)
    && (r.caller == Returned ==> r.dial.Succeeds?)
    && (r.caller == RaisedError ==> r.dial.Raises?)
    && (r.caller == IndexedEmpty ==> r.dial.Escapes?)
    // Times lie in the past; two events never share one.
    && (r.checkedAt.Some? ==> r.checkedAt.value < r.clock) && (r.exitedAt.Some? ==> r.exitedAt.value < r.clock)
    && (r.aliveAt.Some? ==> r.aliveAt.value < r.clock) && (r.gaveUpAt.Some? ==> r.gaveUpAt.value < r.clock)
    && (r.checkedAt.Some? && r.gaveUpAt.Some? ==> r.checkedAt.value != r.gaveUpAt.value)
    && (r.aliveAt.Some? && r.exitedAt.Some? ==> r.aliveAt.value < r.exitedAt.value)
    && (r.aliveAt.Some? && r.gaveUpAt.Some? ==> r.aliveAt.value < r.gaveUpAt.value)
  }

  lemma WorkerKeepsInv(r: Race)
    requires Inv(r)
    ensures Inv(Do(r, WorkerMoves)) && Do(r, WorkerMoves).dial == r.dial
  {}

  lemma CallerKeepsInv(r: Race, timeUp: bool)
    requires Inv(r)
    ensures Inv(Do(r, CallerMoves(timeUp))) && Do(r, CallerMoves(timeUp)).dial == r.dial
  {}

  lemma {:induction false} EveryScheduleKeepsInv(dial: Dial, moves: seq<Move>)
    ensures Inv(Play(Start(dial), moves)) && Play(Start(dial), moves).dial == dial
  {
    hide Do;
    if moves != [] {
      var before, m := Play(Start(dial), moves[..|moves| - 1]), moves[|moves| - 1];
      EveryScheduleKeepsInv(dial, moves[..|moves| - 1]);
      if m.WorkerMoves? {
        WorkerKeepsInv(before);
      } else {
        CallerKeepsInv(before, m.timeUp);
      }
    }
  }

  /** The caller reads an empty result list exactly when it was let through and the
      dial left by something other than an Exception; for a dial that returns, raises
      an Exception or hangs this never happens. */
  lemma EmptyResultIsIndexedIff(dial: Dial, moves: seq<Move>)
    ensures var r := Play(Start(dial), moves);
            r.caller == IndexedEmpty <==> CallerDone(r) && !r.gaveUp && dial.Escapes?
  {
    EveryScheduleKeepsInv(dial, moves);
  }

  lemma OneMoreMove(r: Race, moves: seq<Move>, m: Move)
    ensures Play(r, moves + [m]) == Do(Play(r, moves), m)
  {
    assert (moves + [m])[..|moves|] == moves;
  }

  lemma ThreeMoreMoves(r: Race, moves: seq<Move>, a: Move, b: Move, c: Move)
    ensures Play(r, moves + [a, b, c]) == Do(Do(Do(Play(r, moves), a), b), c)
  {
    hide Do, Play;
    OneMoreMove(r, moves, a);
    OneMoreMove(r, moves + [a], b);
    OneMoreMove(r, moves + [a] + [b], c);
    assert moves + [a] + [b] + [c] == moves + [a, b, c];
  }

  lemma TwoMoves(r: Race, a: Move, b: Move)
    ensures Play(r, [a, b]) == Do(Do(r, a), b)
  {
    OneMoreMove(r, [], a);
    OneMoreMove(r, [] + [a], b);
    assert [] + [a] + [b] == [a, b];
  }

  /** Such a schedule: the dial thread is gone before the caller looks. */
  lemma TheEmptyIndexingScheduleExists()
    ensures var w, c := WorkerMoves, CallerMoves(false);
            Play(Start(Escapes), [w, w, c, c, c]).caller == IndexedEmpty
  {
    var r, w, c := Start(Escapes), WorkerMoves, CallerMoves(false);
    TwoMoves(r, w, w);
    ThreeMoreMoves(r, [w, w], c, c, c);
    assert [w, w] + [c, c, c] == [w, w, c, c, c];
  }

  /** No schedule both hands the board to the caller and closes it, and it is closed at
      most once. */
  lemma NeverReturnedAndClosed(dial: Dial, moves: seq<Move>)
    ensures var r := Play(Start(dial), moves);
            r.closed <= 1 && !(r.caller == Returned && r.closed > 0)
            && (r.closed > 0 ==> r.gaveUp && Before(r.gaveUpAt, r.checkedAt))
            && (r.caller == Returned ==> r.results == 1 && r.errors == 0)
  {
    EveryScheduleKeepsInv(dial, moves);
  }

  /** A board that was built, and is neither in the caller's hands nor closed. */
  predicate Leaked(r: Race) { r.dial.Succeeds? && r.caller != Returned && r.closed == 0 }

  /** The dial thread looked at gave_up before the caller set it, and was not gone yet when the
      caller looked at the thread: its check and its end straddle the timeout. */
  predicate Straddles(r: Race) { Before(r.checkedAt, r.gaveUpAt) && Before(r.aliveAt, r.exitedAt) }

  /** When both threads are done, a successful dial has ended in one of three ways, and
      the order of the two threads' steps says which: a board is lost in exactly the
      interleavings in which the check and the end of the thread straddle the timeout. */
  lemma BoardIsLostIffThreadStraddlesTimeout(moves: seq<Move>)
    ensures var r := Play(Start(Succeeds), moves);
            Over(r) ==>
              && (Leaked(r) <==> Straddles(r))
              && (r.caller == Returned <==> !r.gaveUp)
              && (r.closed == 1 <==> Before(r.gaveUpAt, r.checkedAt))
              && (r.closed == 1 || r.caller == Returned || Straddles(r))
  {
    EveryScheduleKeepsInv(Succeeds, moves);
  }

  /** One such interleaving: the caller gives up between the check and the append. */
  lemma ABoardIsLostBeforeTheAppend()
    ensures var w, c := WorkerMoves, CallerMoves(true);
            var r := Play(Start(Succeeds), [w, w, c, c, c, w, w]);
            Over(r) && Leaked(r)
  {
    var r, w, c := Start(Succeeds), WorkerMoves, CallerMoves(true);
    TwoMoves(r, w, w);
    ThreeMoreMoves(r, [w, w], c, c, c);
    var moves := [w, w] + [c, c, c];
    OneMoreMove(r, moves, w);
    OneMoreMove(r, moves + [w], w);
    assert moves + [w] + [w] == [w, w, c, c, c, w, w];
  }

  /** Another one: the board is appended in time, and the caller finds the thread still alive. */
  lemma ABoardIsLostAfterTheAppend()
    ensures var w, c := WorkerMoves, CallerMoves(true);
            var r := Play(Start(Succeeds), [w, w, w, c, c, c, w]);
            Over(r) && Leaked(r) && Play(Start(Succeeds), [w, w, w]).results == 1
  {
    var r, w, c := Start(Succeeds), WorkerMoves, CallerMoves(true);
    TwoMoves(r, w, w);
    OneMoreMove(r, [w, w], w);
    assert [w, w] + [w] == [w, w, w];
    ThreeMoreMoves(r, [w, w, w], c, c, c);
    OneMoreMove(r, [w, w, w] + [c, c, c], w);
    assert [w, w, w] + [c, c, c] + [w] == [w, w, w, c, c, c, w];
  }

  /** What the caller ends with says how the dial ended, unless it gave up; a hung dial is given up. */
  lemma WhatTheCallerGets(dial: Dial, moves: seq<Move>)
    ensures var r := Play(Start(dial), moves);
            CallerDone(r) ==>
              if r.gaveUp then r.caller == TimedOut
              else
                match dial
                case Hangs => false
                case Succeeds => r.caller == Returned
                case Raises => r.caller == RaisedError
                case Escapes => r.caller == IndexedEmpty
  {
    EveryScheduleKeepsInv(dial, moves);
  }

  // ---- Both threads come to their end ----

  function DialSteps(moves: seq<Move>): nat {
    if moves == [] then 0
    else DialSteps(moves[..|moves| - 1]) + if moves[|moves| - 1].WorkerMoves? then 1 else 0
  }

  function Headway(w: Worker): nat {
    match w
    case Dialing => 0
    case CheckingGaveUp => 1
    case Closing => 2
    case Appending => 2
    case RecordingError => 2
    case Leaving => 3
    case Exited => 4
  }

  /** Unless the dial hangs, four steps of its thread end it, whatever the caller does meanwhile. */
  lemma {:induction false} ADialThatEndsEndsItsThread(dial: Dial, moves: seq<Move>)
    ensures var w := Play(Start(dial), moves).worker;
            if dial.Hangs? then w.Dialing? else Headway(w) >= if DialSteps(moves) < 4 then DialSteps(moves) else 4
    ensures !dial.Hangs? && DialSteps(moves) >= 4 ==> Play(Start(dial), moves).worker.Exited?
  {
    if moves != [] {
      ADialThatEndsEndsItsThread(dial, moves[..|moves| - 1]);
      EveryScheduleKeepsInv(dial, moves[..|moves| - 1]);
    }
  }

  /** A dial thread that is gone is not waited for: three steps of the caller, and it has its
      answer, time up or not; and if it was still waiting, it does not give up. */
  lemma AnEndedDialIsCollected(dial: Dial, moves: seq<Move>, a: bool, b: bool, c: bool)
    requires Play(Start(dial), moves).worker.Exited?
    ensures var r := Play(Start(dial), moves + [CallerMoves(a), CallerMoves(b), CallerMoves(c)]);
            CallerDone(r) && (Play(Start(dial), moves).caller.Joining? ==> !r.gaveUp)
  {
    hide Play;
    ThreeMoreMoves(Start(dial), moves, CallerMoves(a), CallerMoves(b), CallerMoves(c));
    EveryScheduleKeepsInv(dial, moves);
  }


  function TimeUps(moves: seq<Move>): nat {
    if moves == [] then 0
    else TimeUps(moves[..|moves| - 1]) + if moves[|moves| - 1] == CallerMoves(true) then 1 else 0
  }

  function Progress(c: Caller): nat {
    match c
    case Joining => 0
    case TestingAlive => 1
    case GivingUp => 2
    case Collecting => 2
    case _ => 3
  }

  /** Whatever the dial thread does, a hung dial included, three steps of the caller
      after its time is up are enough for it to return or raise. */
  lemma {:induction false} CallerAlwaysComesBack(dial: Dial, moves: seq<Move>)
    ensures Progress(Play(Start(dial), moves).caller) >= if TimeUps(moves) < 3 then TimeUps(moves) else 3
    ensures TimeUps(moves) >= 3 ==> CallerDone(Play(Start(dial), moves))
  {
    if moves != [] {
      CallerAlwaysComesBack(dial, moves[..|moves| - 1]);
    }
  }
}
