/** The guard in the door to the live board (gui/connection.py): a read from the UI
    thread needs a sign, signs are counted per thread, and every offending site is
    reported once. Threads interleave freely; each step below is atomic, as the sign's
    depth is thread-local and the set of reported sites is changed under a lock. */
module ReadGuard {
  import opened Wrappers

  type Thread = nat
  type Site = string

  datatype Refusal = Raise | Log

  /** The state of a thread inside `with ui_thread_board_read(...)` blocks: the counter,
      and the value each open block remembered on entry and will put back on exit. */
  datatype Signs = Signs(depth: nat, remembered: seq<nat>)

  datatype Guard = Guard(
    boardHeld: bool, uiThread: Option<Thread>, refusal: Refusal,
    signs: map<Thread, Signs>, reportedSites: set<Site>, log: seq<Site>)

  datatype Answer = Absent | Board | Refused(site: Site)

  datatype Event =
    | Sign(thread: Thread)
    | Unsign(thread: Thread)                       // the block is left, normally or by an exception
    | ReadBoard(thread: Thread, site: Site, own: bool)
    | SetBoard(held: bool)

  function SignsOf(g: Guard, t: Thread): Signs {
    if t in g.signs then g.signs[t] else Signs(0, [])
  }

  function Enter(s: Signs): Signs { Signs(s.depth + 1, s.remembered + [s.depth]) }

  function Leave(s: Signs): Signs
    requires s.remembered != []
  {
    var n := |s.remembered| - 1;
    Signs(s.remembered[n], s.remembered[..n])
  }

  /** The board getter: what it answers. `own` is a caller in the connection's own file. */
  function AnswerTo(g: Guard, t: Thread, site: Site, own: bool): Answer {
    if !g.boardHeld then Absent
    else if g.uiThread != Some(t) then Board
    else if SignsOf(g, t).depth > 0 then Board
    else if own then Board
    else if g.refusal.Raise? then Refused(site)
    else Board
  }

  /** _report_ui_thread_read: one line per site. */
  function Report(g: Guard, site: Site): Guard {
    if site in g.reportedSites then g
    else g.(reportedSites := g.reportedSites + {site}, log := g.log + [site])
  }

  function Step(g: Guard, e: Event): Guard {
    match e
    case Sign(t) => g.(signs := g.signs[t := Enter(SignsOf(g, t))])
    case Unsign(t) => if SignsOf(g, t).remembered == [] then g else g.(signs := g.signs[t := Leave(SignsOf(g, t))])
    case ReadBoard(t, site, own) =>
      if g.boardHeld && g.uiThread == Some(t) && SignsOf(g, t).depth == 0 && !own then Report(g, site) else g
    case SetBoard(held) => g.(boardHeld := held)
  }

  function Run(g: Guard, events: seq<Event>): Guard {
    if events == [] then g else Step(Run(g, events[..|events| - 1]), events[|events| - 1])
  }

  function Armed(uiThread: Option<Thread>, refusal: Refusal): Guard {
    Guard(false, uiThread, refusal, map[], {}, [])
  }

  // ---- Stated without the counter: what happened so far ----

  /** The signs a thread has open after these events. */
  function OpenSigns(events: seq<Event>, t: Thread): nat {
    if events == [] then 0
    else
      var before, e := OpenSigns(events[..|events| - 1], t), events[|events| - 1];
      if e == Sign(t) then before + 1
      else if e == Unsign(t) && before > 0 then before - 1
      else before
  }

  function Held(events: seq<Event>): bool {
    if events == [] then false
    else if events[|events| - 1].SetBoard? then events[|events| - 1].held
    else Held(events[..|events| - 1])
  }

  /** A read that breaks the rule: a board is there, the reader is the UI thread, it has
      no sign open, and it is not the connection itself. */
  predicate Offends(uiThread: Option<Thread>, before: seq<Event>, e: Event) {
    e.ReadBoard? && Held(before) && uiThread == Some(e.thread) && OpenSigns(before, e.thread) == 0 && !e.own
  }

  function OffendingSites(uiThread: Option<Thread>, events: seq<Event>): set<Site> {
    if events == [] then {}
    else
      var before, e := events[..|events| - 1], events[|events| - 1];
      OffendingSites(uiThread, before) + if Offends(uiThread, before, e) then {e.site} else {}
  }

  predicate CountsUp(remembered: seq<nat>) { forall i :: 0 <= i < |remembered| ==> remembered[i] == i }

  /** However the threads interleave, a thread's depth is the number of its own open
      signs; leaving an inner block, by an exception too, does not clear an outer one. */
  lemma {:induction false} DepthIsTheNumberOfOpenSigns(uiThread: Option<Thread>, refusal: Refusal, events: seq<Event>,
      t: Thread)
    ensures var s := SignsOf(Run(Armed(uiThread, refusal), events), t);
            s.depth == OpenSigns(events, t) == |s.remembered| && CountsUp(s.remembered)
  {
    if events != [] {
      DepthIsTheNumberOfOpenSigns(uiThread, refusal, events[..|events| - 1], t);
    }
  }

  predicate OncePerSite(log: seq<Site>) { forall i, j :: 0 <= i < j < |log| ==> log[i] != log[j] }

  /** The log names exactly the sites that ever broke the rule, each of them once. */
  lemma {:induction false} EveryOffendingSiteIsReportedOnce(uiThread: Option<Thread>, refusal: Refusal,
      events: seq<Event>)
    ensures var g := Run(Armed(uiThread, refusal), events);
            && g.boardHeld == Held(events) && g.uiThread == uiThread && g.refusal == refusal
            && g.reportedSites == OffendingSites(uiThread, events)
            && (forall site :: site in g.log <==> site in OffendingSites(uiThread, events))
            && OncePerSite(g.log)
  {
    if events != [] {
      var before, e := events[..|events| - 1], events[|events| - 1];
      EveryOffendingSiteIsReportedOnce(uiThread, refusal, before);
      if e.ReadBoard? {
        DepthIsTheNumberOfOpenSigns(uiThread, refusal, before, e.thread);
      }
    }
  }

  /** A read is refused exactly when it breaks the rule under the "raise" mode; it is
      told "no connection" exactly when there is none; otherwise it gets the board. */
  lemma ReadIsRefusedIffItOffends(uiThread: Option<Thread>, refusal: Refusal, before: seq<Event>, t: Thread,
      site: Site, own: bool)
    ensures var a := AnswerTo(Run(Armed(uiThread, refusal), before), t, site, own);
            && (a.Absent? <==> !Held(before))
            && (a.Refused? <==> refusal.Raise? && Offends(uiThread, before, ReadBoard(t, site, own)))
            && (a.Refused? ==> a.site == site)
  {
    EveryOffendingSiteIsReportedOnce(uiThread, refusal, before);
    DepthIsTheNumberOfOpenSigns(uiThread, refusal, before, t);
  }

  // ---- The door as an object ----

  class Door {
    var guard: Guard

    constructor (uiThread: Option<Thread>, refusal: Refusal)
      ensures guard == Armed(uiThread, refusal)
    {
      guard := Armed(uiThread, refusal);
    }

    method EnterSign(t: Thread)
      modifies this
      ensures guard == Step(old(guard), Sign(t))
    {
      var s := SignsOf(guard, t);
      guard := guard.(signs := guard.signs[t := Signs(s.depth + 1, s.remembered + [s.depth])]);
    }

    method LeaveSign(t: Thread)
      modifies this
      ensures guard == Step(old(guard), Unsign(t))
    {
      var s := SignsOf(guard, t);
      if s.remembered != [] {
        guard := guard.(signs := guard.signs[t := Leave(s)]);
      }
    }

    method GetBoard(t: Thread, site: Site, own: bool) returns (answer: Answer)
      modifies this
      ensures guard == Step(old(guard), ReadBoard(t, site, own))
      ensures answer == AnswerTo(old(guard), t, site, own)
    {
      if !guard.boardHeld {
        return Absent;
      }
      if guard.uiThread != Some(t) || SignsOf(guard, t).depth > 0 || own {
        return Board;
      }
      if site !in guard.reportedSites {
        guard := guard.(reportedSites := guard.reportedSites + {site}, log := guard.log + [site]);
      }
      answer := if guard.refusal.Raise? then Refused(site) else Board;
    }
  }
}
