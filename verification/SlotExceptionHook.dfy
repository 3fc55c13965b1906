/** The excepthook that keeps a session alive (gui/slot_exception_hook.py): how many
    lines a storm of failures may write, which failures count as one, and where the
    report goes. */
module SlotExceptionHook {
  import opened Wrappers
  import opened PyText

  /** One frame of a traceback, outermost first. */
  datatype Frame = Frame(file: string, line: nat)

  datatype Failure = Failure(stack: seq<Frame>, kind: string, interpreters: bool)

  // ---- Sites and identities ----

  function Site(f: Frame): string { f.file + ":" + Decimal(f.line) }

  /** stack_sites. */
  method StackSites(stack: seq<Frame>) returns (sites: seq<string>)
    ensures sites == Sites(stack)
  {
    sites := [];
    for i := 0 to |stack|
      invariant |sites| == i && forall j :: 0 <= j < i ==> sites[j] == Site(stack[j])
    {
      sites := sites + [Site(stack[i])];
    }
  }

  function Sites(stack: seq<Frame>): seq<string> {
    seq(|stack|, i requires 0 <= i < |stack| => Site(stack[i]))
  }

  const WRAPPER_FILE := "gui/worker.py"

  /** The last two parts of the path are gui and worker.py. */
  predicate IsWrapper(f: Frame) {
    f.file == WRAPPER_FILE
    || (|f.file| > |WRAPPER_FILE| && f.file[|f.file| - |WRAPPER_FILE| - 1..] == "/" + WRAPPER_FILE)
  }

  const UNKNOWN := "<unknown>"

  /** The first frame outside the wrapper. */
  function FirstOutside(stack: seq<Frame>): Option<Frame> {
    if stack == [] then None else if IsWrapper(stack[0]) then FirstOutside(stack[1..]) else Some(stack[0])
  }

  function EntryOf(stack: seq<Frame>): string {
    if FirstOutside(stack).Some? then Site(FirstOutside(stack).value)
    else if stack == [] then UNKNOWN
    else Site(stack[0])
  }

  /** entry_site. */
  method EntrySite(stack: seq<Frame>) returns (site: string)
    ensures site == EntryOf(stack)
  {
    var i := 0;
    while i < |stack|
      invariant 0 <= i <= |stack|
      invariant FirstOutside(stack) == FirstOutside(stack[i..])
    {
      if !IsWrapper(stack[i]) {
        return Site(stack[i]);
      }
      i := i + 1;
    }
    site := if stack == [] then UNKNOWN else Site(stack[0]);
  }

  /** failing_site. */
  method FailingSite(stack: seq<Frame>) returns (site: string)
    ensures site == FailingOf(stack)
  {
    var i := 0;
    while i + 1 < |stack|
      invariant 0 <= i && (stack != [] ==> i < |stack|)
    {
      i := i + 1;
    }
    site := if stack == [] then UNKNOWN else Site(stack[i]);
  }

  function FailingOf(stack: seq<Frame>): string { if stack == [] then UNKNOWN else Site(stack[|stack| - 1]) }

  type Identity = (seq<string>, string)

  /** dedup_key: every frame of the stack, and the type of the exception. */
  function IdentityOf(f: Failure): Identity { (Sites(f.stack), f.kind) }

  lemma SiteIsInjective(f: Frame, g: Frame)
    requires Site(f) == Site(g)
    ensures f == g
  {
    assert Free(Decimal(f.line), ':') && Free(Decimal(g.line), ':');
    JoinIsInjective(f.file, Decimal(f.line), g.file, Decimal(g.line), ':');
    DecimalIsInjective(f.line, g.line);
  }

  /** Failures are counted as one exactly when they have one stack and one type, so
      whatever is counted as one is shown under one pair of addresses. */
  lemma OneIdentityIsOneFailure(f: Failure, g: Failure)
    ensures IdentityOf(f) == IdentityOf(g) <==> f.stack == g.stack && f.kind == g.kind
    ensures IdentityOf(f) == IdentityOf(g) ==>
              EntryOf(f.stack) == EntryOf(g.stack) && FailingOf(f.stack) == FailingOf(g.stack)
  {
    if IdentityOf(f) == IdentityOf(g) {
      assert |Sites(f.stack)| == |Sites(g.stack)|;
      forall i | 0 <= i < |f.stack| ensures f.stack[i] == g.stack[i] {
        assert Sites(f.stack)[i] == Sites(g.stack)[i];
        SiteIsInjective(f.stack[i], g.stack[i]);
      }
      assert f.stack == g.stack;
    }
  }

  /** A frame of the worker wrapper: its file is gui/worker.py, here or below any directory. */
  ghost predicate InTheWrapper(f: Frame) {
    f.file == "gui/worker.py" || exists directory: string :: f.file == directory + "/gui/worker.py"
  }

  lemma WrapperIs(f: Frame)
    ensures IsWrapper(f) <==> InTheWrapper(f)
  {
    if IsWrapper(f) && f.file != WRAPPER_FILE {
      var n := |f.file| - |WRAPPER_FILE| - 1;
      assert f.file == f.file[..n] + ("/" + WRAPPER_FILE);
      assert "/" + WRAPPER_FILE == "/gui/worker.py";
    }
    if directory: string :| f.file == directory + "/gui/worker.py" {
      assert f.file[|directory|..] == "/gui/worker.py" == "/" + WRAPPER_FILE;
    }
  }

  /** The address of the action: file, colon and line of the first frame that is not the wrapper's, of
      the outermost frame when all are, and a placeholder for no frame at all. */
  lemma {:induction false} EntryIs(stack: seq<Frame>) returns (i: nat)
    ensures stack == [] ==> EntryOf(stack) == "<unknown>"
    ensures stack != [] ==>
              && i < |stack| && EntryOf(stack) == stack[i].file + ":" + Decimal(stack[i].line)
              && (if forall j :: 0 <= j < |stack| ==> InTheWrapper(stack[j]) then i == 0
                  else !InTheWrapper(stack[i]) && forall j :: 0 <= j < i ==> InTheWrapper(stack[j]))
    ensures stack != [] ==>
              FailingOf(stack) == stack[|stack| - 1].file + ":" + Decimal(stack[|stack| - 1].line)
  {
    i := 0;
    if stack != [] {
      var k := FirstOutsideIs(stack);
      if k < |stack| {
        i := k;
      }
    }
  }

  lemma {:induction false} FirstOutsideIs(stack: seq<Frame>) returns (k: nat)
    ensures k <= |stack| && FirstOutside(stack) == (if k < |stack| then Some(stack[k]) else None)
    ensures forall j :: 0 <= j < k ==> InTheWrapper(stack[j])
    ensures k < |stack| ==> !InTheWrapper(stack[k])
  {
    hide InTheWrapper;
    if stack == [] {
      k := 0;
    } else {
      WrapperIs(stack[0]);
      if IsWrapper(stack[0]) {
        k := FirstOutsideIs(stack[1..]);
        assert forall j :: 0 < j <= k && j < |stack| ==> stack[j] == stack[1..][j - 1];
        k := k + 1;
      } else {
        k := 0;
      }
    }
  }

  // ---- Counting and logging ----

  const REPEAT_STEPS: set<nat> := {10, 100, 1000, 10000, 100000, 1000000}

  datatype Line = Critical(id: Identity) | Repeat(id: Identity, count: nat)

  /** What the hook has counted and done so far. */
  datatype Hook = Hook(counts: map<Identity, nat>, log: seq<Line>, reports: nat, passedOn: nat)

  const FRESH := Hook(map[], [], 0, 0)

  function CountOf(h: Hook, id: Identity): nat { if id in h.counts then h.counts[id] else 0 }

  /** _handle: SystemExit and KeyboardInterrupt go to the previous hook; the first of an
      identity gets a report and a critical line, a later one a line at a power of ten. */
  function HandleOne(h: Hook, f: Failure): Hook {
    if f.interpreters then h.(passedOn := h.passedOn + 1)
    else
      var id := IdentityOf(f);
      var n := CountOf(h, id) + 1;
      var counted := h.(counts := h.counts[id := n]);
      if n == 1 then counted.(log := h.log + [Critical(id)], reports := h.reports + 1)
      else if n in REPEAT_STEPS then counted.(log := h.log + [Repeat(id, n)])
      else counted
  }

  function HandleAll(failures: seq<Failure>): Hook {
    if failures == [] then FRESH else HandleOne(HandleAll(failures[..|failures| - 1]), failures[|failures| - 1])
  }

  function Occurrences(failures: seq<Failure>, id: Identity): nat {
    if failures == [] then 0
    else
      var f := failures[|failures| - 1];
      Occurrences(failures[..|failures| - 1], id) + if !f.interpreters && IdentityOf(f) == id then 1 else 0
  }

  function Identities(failures: seq<Failure>): set<Identity> {
    if failures == [] then {}
    else
      var f := failures[|failures| - 1];
      Identities(failures[..|failures| - 1]) + if f.interpreters then {} else {IdentityOf(f)}
  }

  function Criticals(log: seq<Line>, id: Identity): nat {
    if log == [] then 0 else Criticals(log[..|log| - 1], id) + if log[|log| - 1] == Critical(id) then 1 else 0
  }

  function Repeats(log: seq<Line>, id: Identity): nat {
    if log == [] then 0
    else Repeats(log[..|log| - 1], id) + if log[|log| - 1].Repeat? && log[|log| - 1].id == id then 1 else 0
  }

  /** floor(log10 n). */
  function Log10(n: nat): nat { if n < 10 then 0 else 1 + Log10(n / 10) }

  function Least(a: nat, b: nat): nat { if a < b then a else b }

  lemma LogStepsAtPowers(n: nat)
    requires n >= 1
    ensures Least(6, Log10(n + 1)) == Least(6, Log10(n)) + if n + 1 in REPEAT_STEPS then 1 else 0
  {
    PowersBound(n);
    PowersBound(n + 1);
  }

  function StepsUpTo(n: nat): nat {
    if n >= 1000000 then 6 else if n >= 100000 then 5 else if n >= 10000 then 4
    else if n >= 1000 then 3 else if n >= 100 then 2 else if n >= 10 then 1 else 0
  }

  lemma PowersBound(n: nat)
    ensures Least(6, Log10(n)) == StepsUpTo(n)
  {
    if n >= 10 {
      var m := n / 10;
      if m >= 10 {
        PowersBound(m);
      }
    }
  }

  /** What one failure adds to the lines of an identity. */
  lemma LinesOfOneMore(h: Hook, f: Failure, id: Identity)
    ensures var h', n, its := HandleOne(h, f), CountOf(h, id) + 1, !f.interpreters && IdentityOf(f) == id;
            && CountOf(h', id) == (if its then n else CountOf(h, id))
            && Criticals(h'.log, id) == Criticals(h.log, id) + (if its && n == 1 then 1 else 0)
            && Repeats(h'.log, id) == Repeats(h.log, id) + if its && n != 1 && n in REPEAT_STEPS then 1 else 0
  {
    var h' := HandleOne(h, f);
    if h'.log != h.log {
      assert h'.log[..|h.log|] == h.log;
    }
  }

  /** In any sequence of failures of however many identities: an identity seen n times
      has one critical line if n >= 1 and exactly min(6, floor(log10 n)) repeat lines. */
  lemma {:induction false} LinesPerIdentity(failures: seq<Failure>, id: Identity)
    ensures var h, n := HandleAll(failures), Occurrences(failures, id);
            && CountOf(h, id) == n
            && Criticals(h.log, id) == (if n >= 1 then 1 else 0)
            && Repeats(h.log, id) == if n >= 1 then Least(6, Log10(n)) else 0
  {
    if failures != [] {
      var front, f := failures[..|failures| - 1], failures[|failures| - 1];
      LinesPerIdentity(front, id);
      LinesOfOneMore(HandleAll(front), f, id);
      if !f.interpreters && IdentityOf(f) == id && Occurrences(front, id) >= 1 {
        LogStepsAtPowers(Occurrences(front, id));
      }
    }
  }

  lemma ReportOfOneMore(h: Hook, f: Failure)
    requires forall id :: id in h.counts ==> h.counts[id] >= 1
    ensures var h' := HandleOne(h, f);
            && h'.counts.Keys == h.counts.Keys + (if f.interpreters then {} else {IdentityOf(f)})
            && h'.reports == h.reports + (if f.interpreters || IdentityOf(f) in h.counts then 0 else 1)
            && forall id :: id in h'.counts ==> h'.counts[id] >= 1
  {}

  /** One report is attempted per identity, and exactly the failures that are the
      interpreter's own business are handed on. */
  lemma {:induction false} OneReportPerIdentity(failures: seq<Failure>)
    ensures var h := HandleAll(failures);
            h.reports == |Identities(failures)| && h.counts.Keys == Identities(failures)
            && forall id :: id in h.counts ==> h.counts[id] >= 1
  {
    if failures != [] {
      var front, f := failures[..|failures| - 1], failures[|failures| - 1];
      OneReportPerIdentity(front);
      ReportOfOneMore(HandleAll(front), f);
    }
  }

  /** How many of the failures are the interpreter's own. */
  function HandedOn(failures: seq<Failure>): nat {
    if failures == [] then 0
    else HandedOn(failures[..|failures| - 1]) + if failures[|failures| - 1].interpreters then 1 else 0
  }

  /** Exactly the interpreter's own failures are handed on to the hook that was there before; every
      other one is counted here. */
  lemma {:induction false} TheInterpretersAreHandedOn(failures: seq<Failure>)
    ensures HandleAll(failures).passedOn == HandedOn(failures)
  {
    if failures != [] {
      TheInterpretersAreHandedOn(failures[..|failures| - 1]);
    }
  }

  /** What one failure makes the hook do, by the number of its identity's occurrences: the first is
      reported and logged as critical, the 10th, 100th, up to the 1000000th are logged with that
      number, and the others are only counted. */
  lemma OneFailureDoes(h: Hook, f: Failure)
    ensures var h', id := HandleOne(h, f), IdentityOf(f);
            var n := (if id in h.counts then h.counts[id] else 0) + 1;
            if f.interpreters then h' == h.(passedOn := h.passedOn + 1)
            else
              && h'.counts == h.counts[id := n] && h'.passedOn == h.passedOn
              && h'.reports == h.reports + (if n == 1 then 1 else 0)
              && h'.log == h.log + (if n == 1 then [Critical(id)]
                                    else if n in {10, 100, 1000, 10000, 100000, 1000000}
                                    then [Repeat(id, n)] else [])
  {
    assert h.log + [] == h.log;
  }

  /** The hook as an object; the counting is done under a lock, so one call at a time. */
  class ExceptHook {
    var counts: map<Identity, nat>
    var log: seq<Line>
    var reports: nat
    var passedOn: nat

    constructor ()
      ensures State() == FRESH
    {
      counts, log, reports, passedOn := map[], [], 0, 0;
    }

    function State(): Hook
      reads this
    {
      Hook(counts, log, reports, passedOn)
    }

    method Handle(f: Failure) returns (entry: string, site: string)
      modifies this
      ensures State() == HandleOne(old(State()), f)
      ensures !f.interpreters ==> entry == EntryOf(f.stack) && site == FailingOf(f.stack)
    {
      entry, site := UNKNOWN, UNKNOWN;
      if f.interpreters {
        passedOn := passedOn + 1;
        return;
      }
      entry := EntrySite(f.stack);
      site := FailingSite(f.stack);
      var sites := StackSites(f.stack);
      var id := (sites, f.kind);
      var repeats := (if id in counts then counts[id] else 0) + 1;
      counts := counts[id := repeats];
      if repeats == 1 {
        reports := reports + 1;
        log := log + [Critical(id)];
      } else if repeats in REPEAT_STEPS {
        log := log + [Repeat(id, repeats)];
      }
    }
  }

  // ---- The report's name ----

  function Ending(attempt: nat): string {
    if attempt == 1 then ".txt" else "_" + Decimal(attempt) + ".txt"
  }

  function NameOf(stamp: string, attempt: nat): string { "slot_exception_" + stamp + Ending(attempt) }

  lemma NameTellsTheAttempt(stamp: string, a: nat, b: nat)
    requires NameOf(stamp, a) == NameOf(stamp, b)
    ensures a == b
  {
    var n := |"slot_exception_" + stamp|;
    assert Ending(a) == NameOf(stamp, a)[n..] == NameOf(stamp, b)[n..] == Ending(b);
    assert Ending(a)[0] == if a == 1 then '.' else '_';
    assert Ending(b)[0] == if b == 1 then '.' else '_';
    if a != 1 && b != 1 {
      assert Decimal(a) == Ending(a)[1..|Ending(a)| - 4];
      assert Decimal(b) == Ending(b)[1..|Ending(b)| - 4];
      DecimalIsInjective(a, b);
    }
  }

  /** The names tried before this attempt. */
  ghost function Tried(stamp: string, attempt: nat): set<string> {
    if attempt <= 1 then {} else Tried(stamp, attempt - 1) + {NameOf(stamp, attempt - 1)}
  }

  /** No name is tried twice, so each attempt uses up a file of its own. */
  lemma {:induction false} LaterNameIsUntried(stamp: string, attempt: nat, later: nat)
    requires attempt <= later
    ensures NameOf(stamp, later) !in Tried(stamp, attempt)
  {
    if attempt > 1 {
      LaterNameIsUntried(stamp, attempt - 1, later);
      if NameOf(stamp, later) == NameOf(stamp, attempt - 1) {
        NameTellsTheAttempt(stamp, later, attempt - 1);
      }
    }
  }

  /** The loop that picks a name: it ends, and on the first name no file has. */
  method ReportName(files: set<string>, stamp: string) returns (name: string, attempt: nat)
    ensures attempt >= 1 && name == NameOf(stamp, attempt) && name !in files
    ensures attempt == 1 ==> name == "slot_exception_" + stamp + ".txt"
    ensures attempt > 1 ==> name == "slot_exception_" + stamp + ("_" + Decimal(attempt) + ".txt")
    ensures Tried(stamp, attempt) <= files
  {
    attempt := 1;
    name := NameOf(stamp, 1);
    while name in files
      invariant attempt >= 1 && name == NameOf(stamp, attempt)
      invariant Tried(stamp, attempt) <= files
      decreases |files - Tried(stamp, attempt)|
    {
      LaterNameIsUntried(stamp, attempt, attempt);
      assert files - Tried(stamp, attempt) == (files - Tried(stamp, attempt + 1)) + {name};
      attempt := attempt + 1;
      name := NameOf(stamp, attempt);
    }
  }

  // ---- Installing ----

  datatype HookFunction = Interpreters | Ours | Somebodys(id: nat)

  datatype Installation = Installation(current: HookFunction, installed: bool, previous: Option<HookFunction>)

  datatype InstallStep = Install(enabled: bool) | Uninstall | SomebodySets(hook: HookFunction)

  const NOT_INSTALLED := Installation(Interpreters, false, None)

  function DoInstall(s: Installation, step: InstallStep): Installation {
    match step
    case Install(enabled) => if enabled && !s.installed then Installation(Ours, true, Some(s.current)) else s
    case Uninstall =>
      var before := if s.previous.Some? then s.previous.value else Interpreters;
      Installation(if s.installed && s.current.Ours? then before else s.current, false, None)
    case SomebodySets(hook) => s.(current := hook)
  }

  function DoInstalls(steps: seq<InstallStep>): Installation {
    if steps == [] then NOT_INSTALLED else DoInstall(DoInstalls(steps[..|steps| - 1]), steps[|steps| - 1])
  }

  /** Installing twice is installing once; taking the hook down puts back what was there
      before; and a hook somebody put on top of ours is left alone. */
  lemma InstallUninstallRestores(s: Installation)
    requires !s.installed
    ensures DoInstall(s, Install(true)) == Installation(Ours, true, Some(s.current))
    ensures DoInstall(s, Install(false)) == s
    ensures DoInstall(DoInstall(s, Install(true)), Install(true)) == DoInstall(s, Install(true))
    ensures DoInstall(DoInstall(s, Install(true)), Uninstall).current == s.current
    ensures forall id ::
              var covered := DoInstall(DoInstall(s, Install(true)), SomebodySets(Somebodys(id)));
              DoInstall(covered, Uninstall).current == Somebodys(id)
  {}

  /** At some point of the run the hook's previous one is the hook itself. */
  predicate WrapsItself(steps: seq<InstallStep>) {
    && steps != []
    && (WrapsItself(steps[..|steps| - 1]) || DoInstalls(steps).previous == Some(Ours))
  }

  /** At some point of the run it is installed, while it stands there uninstalled. */
  predicate InstallsOverItself(steps: seq<InstallStep>) {
    && steps != []
    && var front, before := steps[..|steps| - 1], DoInstalls(steps[..|steps| - 1]);
       InstallsOverItself(front) || (steps[|steps| - 1] == Install(true) && !before.installed && before.current.Ours?)
  }

  /** Over every run: the hook comes to wrap itself exactly when an install that is not
      switched off finds it in place uninstalled. */
  lemma {:induction false} WrapsItselfIff(steps: seq<InstallStep>)
    ensures WrapsItself(steps) <==> InstallsOverItself(steps)
    ensures !WrapsItself(steps) ==> DoInstalls(steps).previous != Some(Ours)
  {
    if steps != [] {
      WrapsItselfIff(steps[..|steps| - 1]);
    }
  }

  /** In particular never, provided nobody else puts it in place. */
  lemma {:induction false} NeverWrapsItself(steps: seq<InstallStep>)
    requires forall step :: step in steps ==> step != SomebodySets(Ours)
    ensures !WrapsItself(steps)
    ensures var s := DoInstalls(steps);
            s.previous != Some(Ours) && (s.current.Ours? ==> s.installed) && (s.previous.Some? <==> s.installed)
  {
    WrapsItselfIff(steps);
    if steps != [] {
      var front := steps[..|steps| - 1];
      assert forall step :: step in front ==> step in steps;
      assert steps[|steps| - 1] in steps;
      NeverWrapsItself(front);
      WrapsItselfIff(front);
    }
  }

  /** Somebody who saved our hook and puts it back after an uninstall brings that about. */
  lemma PuttingOursBackWrapsIt()
    ensures var steps := [Install(true), SomebodySets(Somebodys(1)), Uninstall, SomebodySets(Ours), Install(true)];
            DoInstalls(steps).previous == Some(Ours)
  {
    var a, b, c, d := Install(true), SomebodySets(Somebodys(1)), Uninstall, SomebodySets(Ours);
    assert [a, b, c, d, a][..4] == [a, b, c, d] && [a, b, c, d][..3] == [a, b, c] && [a, b, c][..2] == [a, b] &&
           [a, b][..1] == [a] && [a][..0] == [];
    assert DoInstalls([a]) == DoInstall(NOT_INSTALLED, a);
    assert DoInstalls([a, b]) == DoInstall(DoInstalls([a]), b);
    assert DoInstalls([a, b, c]) == DoInstall(DoInstalls([a, b]), c);
    assert DoInstalls([a, b, c, d]) == DoInstall(DoInstalls([a, b, c]), d);
  }
}
