/** The "clusters are exploded" lock (gui/explode_guard.py), what the window does with its
    signal, and the one worker gate that several guards may install and take down. */
module ExplodeGuard {
  import opened Wrappers

  type Journal = map<string, string>
  type Page = nat

  /** What a guard is told. An empty journal is falsy in the source and counts as none. */
  datatype Word =
    | Told(journal: Option<Journal>)   // apply_journal and set_from_journal
    | Unknown                          // apply_unknown: the board's identity could not be read
    | Taken                            // take_journal
    | Switch(page: Page)               // the user turns the Config right view to a page

  /** The guard, the signals it emitted, and the page the Config right view shows. */
  datatype Lock = Lock(journal: Option<Journal>, active: bool, signals: seq<bool>, page: Page)

  function OrNone(j: Option<Journal>): Option<Journal> {
    if j.Some? && j.value == map[] then None else j
  }

  /** set_from_journal, with the window's apply_lock answering the signal. */
  function SetFromJournal(l: Lock, j: Option<Journal>, entity: Page): Lock {
    var now := OrNone(j).Some?;
    if now == l.active then l.(journal := OrNone(j))
    else Lock(OrNone(j), now, l.signals + [now], if now then entity else l.page)
  }

  function Step(l: Lock, w: Word, entity: Page): Lock {
    match w
    case Told(j) => SetFromJournal(l, j, entity)
    case Unknown => l
    case Taken => SetFromJournal(l, None, entity)
    case Switch(p) => l.(page := if l.active then entity else p)
  }

  function Run(l: Lock, ws: seq<Word>, entity: Page): Lock {
    if ws == [] then l else Step(Run(l, ws[..|ws| - 1], entity), ws[|ws| - 1], entity)
  }

  /** The guard of gui/explode_guard.py, with the page pin of gui/explode_wiring.py. */
  class Guard {
    var journal: Option<Journal>
    var active: bool
    var signals: seq<bool>
    var page: Page
    const entityPage: Page

    ghost function Value(): Lock
      reads this
    {
      Lock(journal, active, signals, page)
    }

    constructor (entity: Page, shown: Page)
      ensures Value() == Lock(None, false, [], shown) && entityPage == entity
    {
      journal, active, signals, page, entityPage := None, false, [], shown, entity;
    }

    method Emit(on: bool)
      modifies this`signals, this`page
      ensures signals == old(signals) + [on]
      ensures page == if on then entityPage else old(page)
    {
      signals := signals + [on];
      if on {
        page := entityPage;
      }
    }

    method SetFromJournal(j: Option<Journal>) returns (now: bool)
      modifies this
      ensures Value() == Step(old(Value()), Told(j), entityPage)
      ensures now == active
    {
      journal := OrNone(j);
      var exploded := journal.Some?;
      if exploded != active {
        active := exploded;
        Emit(exploded);
      }
      return active;
    }

    method ApplyUnknown() returns (now: bool)
      ensures Value() == Step(old(Value()), Unknown, entityPage)
      ensures now == active
    {
      return active;
    }

    method TakeJournal() returns (taken: Option<Journal>)
      modifies this
      ensures Value() == Step(old(Value()), Taken, entityPage)
      ensures taken == old(journal)
    {
      taken := journal;
      var _ := SetFromJournal(None);
    }

    /** The view has already turned to `index` when the handler runs. */
    method PinRightPage(index: Page) returns (pinned: bool)
      requires page == index
      modifies this`page
      ensures pinned == (active && index != entityPage)
      ensures Value() == Step(old(Value()), Switch(index), entityPage)
    {
      if !active || index == entityPage {
        return false;
      }
      page := entityPage;
      return true;
    }
  }

  // ---- every run of words ----

  ghost predicate Born(l: Lock) {
    l.journal.None? && !l.active && l.signals == []
  }

  /** What the last word about the journal was; unknowns and page switches say nothing. */
  function LastTold(ws: seq<Word>): Option<Journal> {
    if ws == [] then None
    else match ws[|ws| - 1]
      case Told(j) => if j.Some? && |j.value| > 0 then j else None
      case Taken => None
      case Unknown => LastTold(ws[..|ws| - 1])
      case Switch(_) => LastTold(ws[..|ws| - 1])
  }

  /** The lock is up exactly when the last word about the journal named one: an unknown
      answer neither raises nor clears it, wherever it falls in the run. */
  lemma {:induction false} LockIsTheLastWord(l: Lock, ws: seq<Word>, entity: Page)
    requires Born(l)
    ensures Run(l, ws, entity).journal == LastTold(ws)
    ensures Run(l, ws, entity).active == LastTold(ws).Some?
  {
    if ws != [] {
      LockIsTheLastWord(l, ws[..|ws| - 1], entity);
    }
  }

  /** The signals alternate, starting with "exploded", and their number tells the state:
      one signal a flip, and no flip without its signal. */
  lemma {:induction false} SignalsAreTheFlips(l: Lock, ws: seq<Word>, entity: Page)
    requires Born(l)
    ensures var s := Run(l, ws, entity);
            && s.active == (|s.signals| % 2 == 1)
            && forall i :: 0 <= i < |s.signals| ==> s.signals[i] == (i % 2 == 0)
  {
    if ws != [] {
      SignalsAreTheFlips(l, ws[..|ws| - 1], entity);
    }
  }

  /** While the clusters are exploded the view cannot be left off the entity page. */
  lemma {:induction false} ThePageIsPinned(l: Lock, ws: seq<Word>, entity: Page)
    requires Born(l)
    ensures Run(l, ws, entity).active ==> Run(l, ws, entity).page == entity
  {
    if ws != [] {
      ThePageIsPinned(l, ws[..|ws| - 1], entity);
    }
  }

  /** The page shown: turning to one shows it, unless the clusters are exploded; the lock going up
      shows the entity page, and nothing else turns a page. */
  lemma ThePageIs(l: Lock, w: Word, entity: Page)
    ensures var l' := Step(l, w, entity);
            && (w.Switch? ==> l'.page == if l.active then entity else w.page)
            && (!w.Switch? ==> l'.page == if !l.active && l'.active then entity else l.page)
            && (w.Switch? || w.Unknown? ==> l'.journal == l.journal && l'.active == l.active && l'.signals == l.signals)
            && l'.signals == l.signals + (if l'.active == l.active then [] else [l'.active])
  {
    assert l.signals + [] == l.signals;
  }

  // ---- the one worker gate (gui/worker.py) and the guards that share it ----

  type GuardId = nat
  datatype GateEvent = Installed(guard: GuardId) | Detached(guard: GuardId)

  /** A guard installs its gate when it is built, and takes down only its own. */
  function GateStep(gate: Option<GuardId>, e: GateEvent): Option<GuardId> {
    match e
    case Installed(g) => Some(g)
    case Detached(g) => if gate == Some(g) then None else gate
  }

  function GateRun(es: seq<GateEvent>): Option<GuardId> {
    if es == [] then None else GateStep(GateRun(es[..|es| - 1]), es[|es| - 1])
  }

  /** The i-th event installed g, nobody was installed after it, and g was not taken down. */
  ghost predicate HoldsSince(es: seq<GateEvent>, g: GuardId, i: nat)
    requires i < |es|
  {
    && es[i] == Installed(g)
    && forall j :: i < j < |es| ==> es[j].Detached? && es[j].guard != g
  }

  /** The gate in force is that of the youngest guard, until that very guard is detached:
      tearing an older window down never opens the gate of a newer one. */
  lemma {:induction false} GateIsTheYoungestGuards(es: seq<GateEvent>, g: GuardId)
    ensures GateRun(es) == Some(g) <==> exists i: nat :: i < |es| && HoldsSince(es, g, i)
  {
    if es != [] {
      var n := |es| - 1;
      var before := es[..n];
      GateIsTheYoungestGuards(before, g);
      if GateRun(es) == Some(g) {
        if es[n] == Installed(g) {
          assert HoldsSince(es, g, n);
        } else {
          var i: nat :| i < |before| && HoldsSince(before, g, i);
          assert HoldsSince(es, g, i);
        }
      }
      if i: nat :| i < |es| && HoldsSince(es, g, i) {
        if i < n {
          assert HoldsSince(before, g, i);
        }
      }
    }
  }
}
