/** The two-question way out of the program (gui/exit_guard.py, gui/explode_wiring.py and
    the window's closeEvent). A way out is one attempt to leave; it may be cancelled, hide
    the window, quit, or wait for a restore of the clusters that re-enters it. */
module ExitProtocol {

  /** What the user and the board answer to the questions of one call. */
  datatype Answers = Answers(unsaved: bool, clusters: bool, connected: bool)

  /** What a way out did, in order. Quit notes whether the clusters were still exploded. */
  datatype Act = Hidden | Unsaved(pass: bool) | Clusters(yes: bool) | Restored | Quit(exploded: bool)
  datatype Entry = Entry(way: nat, act: Act)

  /** A restore in flight: the user's own "Put back", or one a way out waits for. `closing`
      tells whether it continues with the window's close or with the plain quit. */
  datatype Restore = PutBack | WaitedFor(way: nat, closing: bool)

  datatype State = State(
    exitOk: bool, active: bool, tray: bool, running: bool,
    pending: seq<Restore>, trace: seq<Entry>, ways: nat)

  datatype Event =
    | Close(answers: Answers)               // the title-bar X
    | QuitMenu(answers: Answers)            // the tray's Quit and File > Quit
    | AskPutBack(connected: bool)           // the "Put back" button
    | Succeeds(i: nat, answers: Answers)    // the i-th restore in flight ends well
    | Fails(i: nat)                         // ... or fails, or is refused a busy socket
    | ReadJournal(present: bool)
    | ReadUnknown
    | SetTray(on: bool)

  function Log(s: State, w: nat, act: Act): State {
    s.(trace := s.trace + [Entry(w, act)])
  }

  /** exit_guard.confirm_unsaved_before_exit */
  function Confirm(s: State, w: nat, a: Answers): (State, bool) {
    if s.exitOk then (s, true) else (Log(s, w, Unsaved(a.unsaved)), a.unsaved)
  }

  /** explode_wiring.return_clusters_before_quit with explode_page.request_restore */
  function ReturnClusters(s: State, w: nat, closing: bool, a: Answers): (State, bool) {
    if !s.active || s.exitOk then (s, true)
    else
      var asked := Log(s, w, Clusters(a.clusters));
      if a.clusters && a.connected
      then (asked.(pending := s.pending + [WaitedFor(w, closing)]), false)
      else (asked, false)
  }

  function DoQuit(s: State, w: nat): State {
    Log(s, w, Quit(s.active)).(running := false)
  }

  /** exit_guard.quit, and the real-quit branch of closeEvent */
  function Leave(s: State, w: nat, closing: bool, a: Answers): State {
    var (asked, pass) := Confirm(s, w, a);
    if !pass then asked
    else
      var (returned, go) := ReturnClusters(asked, w, closing, a);
      if go then DoQuit(returned, w) else returned
  }

  function CloseEvent(s: State, w: nat, a: Answers): State {
    if s.tray then Log(s, w, Hidden) else Leave(s, w, true, a)
  }

  function Without<T>(q: seq<T>, i: nat): seq<T>
    requires i < |q|
  {
    q[..i] + q[i + 1..]
  }

  /** The restore succeeded: the lock is cleared, and a way out that waited goes on. */
  function Succeed(s: State, i: nat, a: Answers): State
    requires i < |s.pending|
  {
    var back := s.(active := false, pending := Without(s.pending, i));
    match s.pending[i]
    case PutBack => back
    case WaitedFor(w, closing) =>
      var ok := Log(back, w, Restored).(exitOk := true);
      if closing then CloseEvent(ok, w, a) else DoQuit(ok, w)
  }

  /** Once the event loop has stopped nothing more happens. */
  function Step(s: State, e: Event): State {
    if !s.running then s
    else match e
      case Close(a) => CloseEvent(s.(ways := s.ways + 1), s.ways, a)
      case QuitMenu(a) => Leave(s.(ways := s.ways + 1), s.ways, false, a)
      case AskPutBack(connected) => if connected then s.(pending := s.pending + [PutBack]) else s
      case Succeeds(i, a) => if i < |s.pending| then Succeed(s, i, a) else s
      case Fails(i) => if i < |s.pending| then s.(pending := Without(s.pending, i)) else s
      case ReadJournal(present) => s.(active := present)
      case ReadUnknown => s
      case SetTray(on) => s.(tray := on)
  }

  function Run(s: State, es: seq<Event>): State {
    if es == [] then s else Step(Run(s, es[..|es| - 1]), es[|es| - 1])
  }

  ghost predicate Started(s: State) {
    s.running && !s.exitOk && s.pending == [] && s.trace == [] && s.ways == 0
  }

  // ---- the story of one way out ----

  function Story(t: seq<Entry>, w: nat): seq<Act> {
    if t == [] then []
    else
      var n := |t| - 1;
      if t[n].way == w then Story(t[..n], w) + [t[n].act] else Story(t[..n], w)
  }

  /** The stories the design allows. The unsaved changes are asked about once and first;
      the quit comes after a pass, and with the clusters inactive or put back. */
  ghost predicate Proper(story: seq<Act>) {
    || story == []
    || story == [Hidden]
    || story == [Unsaved(false)]
    || story == [Unsaved(true), Quit(false)]
    || story == [Unsaved(true), Clusters(false)]
    || story == [Unsaved(true), Clusters(true)]
    || story == [Unsaved(true), Clusters(true), Restored, Quit(false)]
  }

  /** The guard of the branch that breaks it: a close is re-entered with the tray on. */
  predicate ReentersUnderTheTray(s: State, e: Event) {
    && s.running && s.tray
    && e.Succeeds? && e.i < |s.pending|
    && s.pending[e.i].WaitedFor? && s.pending[e.i].closing
  }

  predicate ReentersInTheRun(s: State, es: seq<Event>) {
    && es != []
    && (|| ReentersInTheRun(s, es[..|es| - 1])
        || ReentersUnderTheTray(Run(s, es[..|es| - 1]), es[|es| - 1]))
  }

  // ---- one entry at a time ----

  lemma StoryOfOneMore(t: seq<Entry>, e: Entry, w: nat)
    ensures Story(t + [e], w) == if e.way == w then Story(t, w) + [e.act] else Story(t, w)
  {
    assert (t + [e])[..|t|] == t;
  }

  /** The stories after `acts` were logged for way `v`. */
  ghost predicate Extends(before: State, after: State, v: nat, acts: seq<Act>) {
    forall w: nat :: Story(after.trace, w)
      == if w == v then Story(before.trace, w) + acts else Story(before.trace, w)
  }

  lemma LogExtends(s: State, v: nat, act: Act)
    ensures Extends(s, Log(s, v, act), v, [act])
  {
    forall w: nat ensures Story(Log(s, v, act).trace, w)
      == if w == v then Story(s.trace, w) + [act] else Story(s.trace, w)
    {
      StoryOfOneMore(s.trace, Entry(v, act), w);
    }
  }

  lemma ExtendsTwice(s: State, m: State, t: State, v: nat, a: seq<Act>, b: seq<Act>)
    requires Extends(s, m, v, a) && Extends(m, t, v, b)
    ensures Extends(s, t, v, a + b)
  {
    forall w: nat ensures Story(t.trace, w)
      == if w == v then Story(s.trace, w) + (a + b) else Story(s.trace, w)
    {
      assert Story(s.trace, v) + a + b == Story(s.trace, v) + (a + b);
    }
  }

  /** What a way out does in one go, from a state whose exit flag is down. */
  function ActsOf(s: State, a: Answers): seq<Act> {
    if !a.unsaved then [Unsaved(false)]
    else if s.active then [Unsaved(true), Clusters(a.clusters)]
    else [Unsaved(true), Quit(false)]
  }

  lemma LeaveExtends(s: State, v: nat, closing: bool, a: Answers)
    requires !s.exitOk
    ensures Extends(s, Leave(s, v, closing, a), v, ActsOf(s, a))
  {
    var asked := Log(s, v, Unsaved(a.unsaved));
    LogExtends(s, v, Unsaved(a.unsaved));
    if a.unsaved {
      var act := if s.active then Clusters(a.clusters) else Quit(false);
      LogExtends(asked, v, act);
      ExtendsTwice(s, asked, Log(asked, v, act), v, [Unsaved(true)], [act]);
      assert [Unsaved(true)] + [act] == ActsOf(s, a);
      assert Leave(s, v, closing, a).trace == Log(asked, v, act).trace;
    }
  }

  // ---- the invariant of the good runs ----

  ghost predicate Stories(s: State) {
    && (forall w: nat :: Proper(Story(s.trace, w)))
    && (forall w: nat :: s.ways <= w ==> Story(s.trace, w) == [])
  }

  /** A way that a restore is running for has asked both questions and waits; no two
      restores run for one way. */
  ghost predicate Waiting(s: State) {
    && (forall i :: 0 <= i < |s.pending| && s.pending[i].WaitedFor? ==>
          && s.pending[i].way < s.ways
          && Story(s.trace, s.pending[i].way) == [Unsaved(true), Clusters(true)])
    && (forall i, j :: 0 <= i < j < |s.pending| && s.pending[i].WaitedFor? && s.pending[j].WaitedFor? ==>
          s.pending[i].way != s.pending[j].way)
  }

  ghost predicate Inv(s: State) {
    Stories(s) && (s.running ==> !s.exitOk && Waiting(s))
  }

  lemma LeavingKeepsInv(s: State, closing: bool, a: Answers)
    requires Inv(s) && s.running
    ensures Inv(Leave(s.(ways := s.ways + 1), s.ways, closing, a))
  {
    var s' := s.(ways := s.ways + 1);
    LeaveExtends(s', s.ways, closing, a);
    assert [] + ActsOf(s', a) == ActsOf(s', a);
  }

  lemma HidingKeepsInv(s: State)
    requires Inv(s) && s.running
    ensures Inv(Log(s.(ways := s.ways + 1), s.ways, Hidden))
  {
    LogExtends(s.(ways := s.ways + 1), s.ways, Hidden);
  }

  /** A waited-for restore ends in exactly one quit, with the clusters back. */
  lemma ReturningKeepsInv(s: State, i: nat, a: Answers)
    requires Inv(s) && s.running && i < |s.pending| && s.pending[i].WaitedFor?
    requires !ReentersUnderTheTray(s, Succeeds(i, a))
    ensures Inv(Succeed(s, i, a))
  {
    var w := s.pending[i].way;
    var back := s.(active := false, pending := Without(s.pending, i));
    var ok := Log(back, w, Restored).(exitOk := true);
    LogExtends(back, w, Restored);
    LogExtends(ok, w, Quit(false));
    assert Extends(back, ok, w, [Restored]);
    ExtendsTwice(back, ok, Log(ok, w, Quit(false)), w, [Restored], [Quit(false)]);
    assert Succeed(s, i, a).trace == Log(ok, w, Quit(false)).trace;
    assert Story(s.trace, w) + ([Restored] + [Quit(false)])
        == [Unsaved(true), Clusters(true), Restored, Quit(false)];
  }

  /** A restore that fails, or one nobody waits for, tells no story. */
  lemma DroppingKeepsInv(s: State, i: nat, active: bool)
    requires Inv(s) && s.running && i < |s.pending|
    ensures Inv(s.(pending := Without(s.pending, i), active := active))
  {
    var rest := Without(s.pending, i);
    assert forall k :: 0 <= k < |rest| ==> rest[k] == s.pending[if k < i then k else k + 1];
  }

  lemma SucceedingKeepsInv(s: State, i: nat, a: Answers)
    requires Inv(s) && s.running && i < |s.pending| && !ReentersUnderTheTray(s, Succeeds(i, a))
    ensures Inv(Succeed(s, i, a))
  {
    if s.pending[i].WaitedFor? {
      ReturningKeepsInv(s, i, a);
    } else {
      DroppingKeepsInv(s, i, false);
    }
  }

  lemma AskingPutBackKeepsInv(s: State)
    requires Inv(s) && s.running
    ensures Inv(s.(pending := s.pending + [PutBack]))
  {}

  lemma {:induction false} StepKeepsInv(s: State, e: Event)
    requires Inv(s) && !ReentersUnderTheTray(s, e)
    ensures Inv(Step(s, e))
  {
    hide Leave, Succeed, Story, Proper;
    if s.running {
      match e
      case Close(a) =>
        if s.tray { HidingKeepsInv(s); } else { LeavingKeepsInv(s, true, a); }
      case QuitMenu(a) => LeavingKeepsInv(s, false, a);
      case Succeeds(i, a) =>
        if i < |s.pending| { SucceedingKeepsInv(s, i, a); }
      case AskPutBack(_) => AskingPutBackKeepsInv(s);
      case Fails(i) =>
        if i < |s.pending| { DroppingKeepsInv(s, i, s.active); }
      case ReadJournal(_) =>
      case ReadUnknown =>
      case SetTray(_) =>
    }
  }

  lemma {:induction false} GoodRunKeepsInv(s: State, es: seq<Event>)
    requires Started(s) && !ReentersInTheRun(s, es)
    ensures Inv(Run(s, es))
  {
    if es != [] {
      GoodRunKeepsInv(s, es[..|es| - 1]);
      StepKeepsInv(Run(s, es[..|es| - 1]), es[|es| - 1]);
    }
  }

  // ---- the run that is not good ----

  lemma StepGrowsTheTrace(s: State, e: Event)
    ensures s.trace <= Step(s, e).trace
  {
  }

  lemma {:induction false} StoryGrows(t: seq<Entry>, u: seq<Entry>, w: nat)
    requires t <= u
    ensures Story(t, w) <= Story(u, w)
    decreases |u|
  {
    if t == u {
    } else {
      assert t == u[..|t|];
      StoryGrows(t, u[..|u| - 1], w);
    }
  }

  /** The story of a way that was hidden after its clusters were put back. */
  const BROKEN: seq<Act> := [Unsaved(true), Clusters(true), Restored, Hidden]

  ghost predicate Breaks(s: State, w: nat) {
    BROKEN <= Story(s.trace, w)
  }

  lemma BreaksIsImproper(s: State, w: nat)
    requires Breaks(s, w)
    ensures !Proper(Story(s.trace, w))
  {
    assert Story(s.trace, w)[..4] == BROKEN;
    assert Story(s.trace, w)[3] == BROKEN[3];
  }

  lemma ReenteringBreaks(s: State, e: Event)
    requires Inv(s) && ReentersUnderTheTray(s, e)
    ensures Breaks(Step(s, e), s.pending[e.i].way)
    ensures Step(s, e).running && Step(s, e).exitOk
  {
    var w := s.pending[e.i].way;
    var back := s.(active := false, pending := Without(s.pending, e.i));
    var ok := Log(back, w, Restored).(exitOk := true);
    LogExtends(back, w, Restored);
    LogExtends(ok, w, Hidden);
    assert Extends(back, ok, w, [Restored]);
    ExtendsTwice(back, ok, Log(ok, w, Hidden), w, [Restored], [Hidden]);
    assert Story(s.trace, w) + ([Restored] + [Hidden]) == BROKEN;
  }

  /** Nothing lowers the exit flag again. */
  lemma FlagStays(s: State, e: Event)
    requires s.exitOk
    ensures Step(s, e).exitOk
  {
  }

  lemma {:induction false} BadRunBreaks(s: State, es: seq<Event>) returns (w: nat)
    requires Started(s) && ReentersInTheRun(s, es)
    ensures Breaks(Run(s, es), w)
    ensures Run(s, es).exitOk
  {
    var before := Run(s, es[..|es| - 1]);
    var e := es[|es| - 1];
    if ReentersInTheRun(s, es[..|es| - 1]) {
      w := BadRunBreaks(s, es[..|es| - 1]);
      StepGrowsTheTrace(before, e);
      StoryGrows(before.trace, Step(before, e).trace, w);
      FlagStays(before, e);
    } else {
      GoodRunKeepsInv(s, es[..|es| - 1]);
      ReenteringBreaks(before, e);
      w := before.pending[e.i].way;
    }
  }

  // ---- the main results ----

  /** Over every run, every way out follows the design exactly when no close was re-entered
      with the tray switched on meanwhile. */
  lemma {:induction false} EveryWayIsProperIff(s: State, es: seq<Event>)
    requires Started(s)
    ensures (forall w: nat :: Proper(Story(Run(s, es).trace, w))) <==> !ReentersInTheRun(s, es)
  {
    if ReentersInTheRun(s, es) {
      var w := BadRunBreaks(s, es);
      BreaksIsImproper(Run(s, es), w);
    } else {
      GoodRunKeepsInv(s, es);
    }
  }

  /** In a program still running, the next Quit asks nothing at all and leaves at once exactly
      when that has happened: the flag is then up for good. Every other run asks afresh. */
  lemma {:induction false} NextExitAsksNothingIff(s: State, es: seq<Event>, a: Answers)
    requires Started(s) && Run(s, es).running
    ensures (Run(s, es + [QuitMenu(a)]).trace
               == Run(s, es).trace + [Entry(Run(s, es).ways, Quit(Run(s, es).active))])
            <==> ReentersInTheRun(s, es)
    ensures !ReentersInTheRun(s, es) ==>
              var now, next := Run(s, es).trace, Run(s, es + [QuitMenu(a)]).trace;
              |now| < |next| && next[..|now|] == now && next[|now|] == Entry(Run(s, es).ways, Unsaved(a.unsaved))
  {
    assert (es + [QuitMenu(a)])[..|es|] == es;
    var now := Run(s, es);
    if ReentersInTheRun(s, es) {
      var _ := BadRunBreaks(s, es);
    } else {
      GoodRunKeepsInv(s, es);
      assert Run(s, es + [QuitMenu(a)]).trace[|now.trace|] == Entry(now.ways, Unsaved(a.unsaved));
    }
  }

  /** Such a program can quit with the clusters exploded and no question asked. */
  lemma {:induction false} QuitWhileExplodedIsReachable(s: State, yes: Answers)
    requires Started(s) && s.active && !s.tray && yes == Answers(true, true, true)
    ensures var es := [Close(yes), SetTray(true), Succeeds(0, yes), ReadJournal(true), QuitMenu(yes)];
            && |Run(s, es).trace| > 0
            && Run(s, es).trace[|Run(s, es).trace| - 1] == Entry(1, Quit(true))
  {
    var es := [Close(yes), SetTray(true), Succeeds(0, yes), ReadJournal(true), QuitMenu(yes)];
    var s1 := Step(s, es[0]);
    var s2 := Step(s1, es[1]);
    var s3 := Step(s2, es[2]);
    assert s3.exitOk && s3.running && s3.ways == 1;
    var s4 := Step(s3, es[3]);
    assert es[..1] == [es[0]] && es[..2] == [es[0], es[1]] && es[..3] == [es[0], es[1], es[2]];
    assert es[..4] == [es[0], es[1], es[2], es[3]];
    assert Run(s, es[..0]) == s;
    assert es[..1][..0] == es[..0] && es[..2][..1] == es[..1];
    assert es[..3][..2] == es[..2] && es[..4][..3] == es[..3];
    assert Run(s, es[..1]) == s1;
    assert Run(s, es[..2]) == s2;
    assert Run(s, es[..3]) == s3;
    assert Run(s, es[..4]) == s4;
    assert Run(s, es) == Step(s4, es[4]);
  }

  /** What ends a run that follows the design: a way out whose unsaved question passed with
      the lock down, or the success of a restore that a way out waited for. Cancelling either
      question, a failed restore and every other event leave the program running. */
  lemma {:induction false} OnlyAPassedWayQuits(s: State, es: seq<Event>, e: Event)
    requires Started(s) && !ReentersInTheRun(s, es + [e])
    requires Run(s, es).running && !Run(s, es + [e]).running
    ensures var now := Run(s, es);
            || (e.Close? && !now.tray && e.answers.unsaved && !now.active)
            || (e.QuitMenu? && e.answers.unsaved && !now.active)
            || (e.Succeeds? && e.i < |now.pending| && now.pending[e.i].WaitedFor?)
  {
    assert (es + [e])[..|es|] == es;
    GoodRunKeepsInv(s, es);
  }

  // ---- what each event leaves ----

  /** The lock follows the journal and falls when the clusters are put back; the restores in flight
      are those asked for that have neither succeeded nor failed; the tray is as last set. */
  lemma WhatAnEventLeaves(s: State, e: Event)
    requires s.running
    ensures Step(s, e).active == if e.Succeeds? && e.i < |s.pending| then false
                                 else if e.ReadJournal? then e.present else s.active
    ensures Step(s, e).tray == if e.SetTray? then e.on else s.tray
    ensures (e.Succeeds? || e.Fails?) && e.i < |s.pending| ==> Step(s, e).pending == Without(s.pending, e.i)
    ensures e.AskPutBack? ==> Step(s, e).pending == s.pending + if e.connected then [PutBack] else []
    ensures e.Close? || e.QuitMenu? ==> Step(s, e).ways == s.ways + 1
  {
    assert s.pending + [] == s.pending;
  }

  lemma WithoutIs<T>(q: seq<T>, i: nat)
    requires i < |q|
    ensures |Without(q, i)| == |q| - 1 && Without(q, i)[..i] == q[..i] && Without(q, i)[i..] == q[i + 1..]
  {}

  /** An event that is no way out and ends none tells no story, and leaves the program running and the
      flag as it is; a close under the tray only hides the window. */
  lemma WhatAnEventLeavesAlone(s: State, e: Event)
    requires s.running
    ensures e.ReadJournal? || e.ReadUnknown? || e.SetTray? || e.AskPutBack? || e.Fails?
            || (e.Succeeds? && e.i < |s.pending| && s.pending[e.i].PutBack?) ==>
              Step(s, e).trace == s.trace && Step(s, e).running && Step(s, e).exitOk == s.exitOk
    ensures e.ReadJournal? || e.ReadUnknown? || e.SetTray? ==> Step(s, e).pending == s.pending
    ensures e.Close? && s.tray ==> Step(s, e).trace == s.trace + [Entry(s.ways, Hidden)] && Step(s, e).running
  {
    hide Leave;
  }

  // ---- what a passed question leads to ----

  /** Where one call of a way out ends, once for each pair of answers: with "no" to the unsaved
      changes nothing happens; with the clusters inactive the program ends; with them exploded
      it stays, and a restore that this way waits for is started by "Put back and quit" on a
      connected board, whether the way is a close or a quit, and by nothing else. */
  lemma LeavingEndsOrStartsTheRestore(s: State, w: nat, closing: bool, a: Answers)
    requires !s.exitOk
    ensures var s' := Leave(s, w, closing, a);
            && s'.running == (s.running && (!a.unsaved || s.active))
            && s'.pending == s.pending + (if a.unsaved && s.active && a.clusters && a.connected
                                          then [WaitedFor(w, closing)] else [])
            && s'.active == s.active && !s'.exitOk && s'.tray == s.tray && s'.ways == s.ways
            && s'.trace == s.trace + [Entry(w, Unsaved(a.unsaved))]
                           + (if !a.unsaved then []
                              else if s.active then [Entry(w, Clusters(a.clusters))] else [Entry(w, Quit(false))])
  {
    assert s.pending + [] == s.pending;
    var t := s.trace + [Entry(w, Unsaved(a.unsaved))];
    assert t + [] == t;
  }

  /** "Put back and quit" was answered on a connected board: File > Quit, or a close with the tray
      off, while the clusters are exploded. */
  predicate PutsBackAndQuits(s: State, e: Event) {
    && s.running && s.active
    && ((e.QuitMenu? && e.answers == Answers(true, true, true))
        || (e.Close? && !s.tray && e.answers == Answers(true, true, true)))
  }

  /** Then the program stays, and a restore is in flight that this very way waits for. */
  lemma {:induction false} PuttingBackStartsTheRestore(s: State, es: seq<Event>, e: Event)
    requires Started(s) && !ReentersInTheRun(s, es) && PutsBackAndQuits(Run(s, es), e)
    ensures var now, next := Run(s, es), Run(s, es + [e]);
            next.running && next.pending == now.pending + [WaitedFor(now.ways, e.Close?)]
            && Story(next.trace, now.ways) == [Unsaved(true), Clusters(true)]
  {
    assert (es + [e])[..|es|] == es;
    GoodRunKeepsInv(s, es);
    var now := Run(s, es);
    var begun := now.(ways := now.ways + 1);
    LeaveExtends(begun, now.ways, e.Close?, e.answers);
    LeavingEndsOrStartsTheRestore(begun, now.ways, e.Close?, e.answers);
  }

  /** And whatever happens meanwhile, when a restore that a way waits for succeeds, the program
      ends there, with the clusters back, unless the way is a close and the tray is on by then. */
  lemma {:induction false} TheRestoreEndsTheProgram(s: State, es: seq<Event>, i: nat, a: Answers)
    requires Started(s) && !ReentersInTheRun(s, es) && Run(s, es).running
    requires i < |Run(s, es).pending| && Run(s, es).pending[i].WaitedFor?
    requires Run(s, es).pending[i].closing ==> !Run(s, es).tray
    ensures var w, end := Run(s, es).pending[i].way, Run(s, es + [Succeeds(i, a)]);
            && !end.running && !end.active
            && Story(end.trace, w) == [Unsaved(true), Clusters(true), Restored, Quit(false)]
  {
    assert (es + [Succeeds(i, a)])[..|es|] == es;
    GoodRunKeepsInv(s, es);
    var now := Run(s, es);
    var w := now.pending[i].way;
    var back := now.(active := false, pending := Without(now.pending, i));
    var ok := Log(back, w, Restored).(exitOk := true);
    LogExtends(back, w, Restored);
    LogExtends(ok, w, Quit(false));
    assert Extends(back, ok, w, [Restored]);
    ExtendsTwice(back, ok, Log(ok, w, Quit(false)), w, [Restored], [Quit(false)]);
    assert Succeed(now, i, a).trace == Log(ok, w, Quit(false)).trace;
    assert [Unsaved(true), Clusters(true)] + ([Restored] + [Quit(false)])
        == [Unsaved(true), Clusters(true), Restored, Quit(false)];
  }

  /** Together: "Put back and quit", and the success of that restore, end the program. */
  lemma {:induction false} PutBackAndQuitEndsTheProgram(s: State, es: seq<Event>, e: Event, a: Answers)
    requires Started(s) && !ReentersInTheRun(s, es) && PutsBackAndQuits(Run(s, es), e)
    ensures var i, w := |Run(s, es).pending|, Run(s, es).ways;
            var end := Run(s, es + [e] + [Succeeds(i, a)]);
            && !end.running && !end.active
            && Story(end.trace, w) == [Unsaved(true), Clusters(true), Restored, Quit(false)]
  {
    PuttingBackStartsTheRestore(s, es, e);
    assert (es + [e])[..|es|] == es;
    TheRestoreEndsTheProgram(s, es + [e], |Run(s, es).pending|, a);
  }

  // ---- the window ----

  class Window {
    var exitOk: bool
    var active: bool
    var tray: bool
    var running: bool
    var pending: seq<Restore>
    var trace: seq<Entry>
    var ways: nat

    ghost function Value(): State
      reads this
    {
      State(exitOk, active, tray, running, pending, trace, ways)
    }

    constructor (exploded: bool, trayOn: bool)
      ensures Started(Value()) && active == exploded && tray == trayOn
    {
      exitOk, active, tray, running, pending, trace, ways := false, exploded, trayOn, true, [], [], 0;
    }

    method Note(w: nat, act: Act)
      modifies this`trace
      ensures Value() == Log(old(Value()), w, act)
    {
      trace := trace + [Entry(w, act)];
    }

    method ConfirmUnsaved(w: nat, a: Answers) returns (pass: bool)
      modifies this`trace
      ensures (Value(), pass) == Confirm(old(Value()), w, a)
    {
      if exitOk {
        return true;
      }
      Note(w, Unsaved(a.unsaved));
      return a.unsaved;
    }

    method ReturnClustersBeforeQuit(w: nat, closing: bool, a: Answers) returns (go: bool)
      modifies this`trace, this`pending
      ensures (Value(), go) == ReturnClusters(old(Value()), w, closing, a)
      ensures go == (!active || exitOk)
      ensures pending == old(pending) + if !go && a.clusters && a.connected then [WaitedFor(w, closing)] else []
      ensures trace == old(trace) + if go then [] else [Entry(w, Clusters(a.clusters))]
    {
      if !active || exitOk {
        return true;
      }
      Note(w, Clusters(a.clusters));
      if !a.clusters {
        return false;
      }
      if a.connected {
        pending := pending + [WaitedFor(w, closing)];
      }
      return false;
    }

    method PersistAndQuit(w: nat)
      modifies this`trace, this`running
      ensures Value() == DoQuit(old(Value()), w)
    {
      Note(w, Quit(active));
      running := false;
    }

    method GoOut(w: nat, closing: bool, a: Answers)
      modifies this`trace, this`pending, this`running
      ensures Value() == Leave(old(Value()), w, closing, a)
    {
      var pass := ConfirmUnsaved(w, a);
      if !pass {
        return;
      }
      var go := ReturnClustersBeforeQuit(w, closing, a);
      if !go {
        return;
      }
      PersistAndQuit(w);
    }

    method OnCloseEvent(w: nat, a: Answers)
      modifies this`trace, this`pending, this`running
      ensures Value() == CloseEvent(old(Value()), w, a)
    {
      if tray {
        Note(w, Hidden);
        return;
      }
      GoOut(w, true, a);
    }

    method PressClose(a: Answers)
      requires running
      modifies this
      ensures Value() == Step(old(Value()), Close(a))
      ensures old(tray) ==> running && trace == old(trace) + [Entry(old(ways), Hidden)] && pending == old(pending)
      ensures old(!tray && !exitOk) ==>
                running == (!a.unsaved || active)
                && pending == old(pending) + if a.unsaved && active && a.clusters && a.connected
                                             then [WaitedFor(old(ways), true)] else []
    {
      ways := ways + 1;
      if !tray && !exitOk {
        LeavingEndsOrStartsTheRestore(Value(), ways - 1, true, a);
      }
      OnCloseEvent(ways - 1, a);
    }

    method PressQuit(a: Answers)
      requires running
      modifies this
      ensures Value() == Step(old(Value()), QuitMenu(a))
      ensures old(!exitOk) ==>
                running == (!a.unsaved || active)
                && pending == old(pending) + if a.unsaved && active && a.clusters && a.connected
                                             then [WaitedFor(old(ways), false)] else []
    {
      ways := ways + 1;
      if !exitOk {
        LeavingEndsOrStartsTheRestore(Value(), ways - 1, false, a);
      }
      GoOut(ways - 1, false, a);
    }

    /** The success callback of the i-th restore: the lock first, then the way out. */
    method RestoreSucceeded(i: nat, a: Answers)
      requires running && i < |pending|
      modifies this
      ensures Value() == Step(old(Value()), Succeeds(i, a))
    {
      var done := pending[i];
      pending := pending[..i] + pending[i + 1..];
      active := false;
      if done.WaitedFor? {
        Note(done.way, Restored);
        exitOk := true;
        if done.closing {
          OnCloseEvent(done.way, a);
        } else {
          PersistAndQuit(done.way);
        }
      }
    }

    method RestoreFailed(i: nat)
      requires running && i < |pending|
      modifies this`pending
      ensures Value() == Step(old(Value()), Fails(i))
    {
      pending := pending[..i] + pending[i + 1..];
    }
  }
}
