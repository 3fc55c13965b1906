/** Several threads that write the state file at once (_write of gui/settings.py): each write
    opens the one temporary file, dumps its text into it piece by piece, and puts it in the
    place of the state file. Files are what POSIX makes of them: a handle stays with the file
    it opened, whatever name that file has by now. */
module ConcurrentWrites {
  import opened Wrappers
  import Settings

  /** The contents of all files, and which of them go by the two names. */
  datatype Files = Files(contents: seq<string>, target: Option<nat>, tmp: Option<nat>)

  /** A write: not begun; `file` opened, the first `dumped` characters written, the handle
      standing behind them; or ended, the text of the file it put in place, None when there was
      none to put. */
  datatype Phase = Waiting | Open(file: nat, dumped: nat) | Ended(installed: Option<string>)

  datatype Writer = Writer(text: string, phase: Phase)

  datatype State = State(files: Files, writers: seq<Writer>)

  predicate IsFile(files: Files, n: Option<nat>) { n.Some? ==> n.value < |files.contents| }

  predicate Valid(s: State) {
    && IsFile(s.files, s.files.target) && IsFile(s.files, s.files.tmp)
    && (s.files.tmp.Some? ==> s.files.target != s.files.tmp)
    && forall i :: 0 <= i < |s.writers| && s.writers[i].phase.Open? ==>
         s.writers[i].phase.file < |s.files.contents| && s.writers[i].phase.dumped <= |s.writers[i].text|
  }

  /** One character at a position of a file; a gap is filled with NUL. */
  function WrittenAt(content: string, at: nat, c: char): string {
    if at < |content| then content[at := c] else content + seq(at - |content|, _ => '\0') + [c]
  }

  lemma OneCharacterIsWritten(content: string, at: nat, c: char)
    ensures var written := WrittenAt(content, at, c);
            && |written| == (if at < |content| then |content| else at + 1) && written[at] == c
            && forall i :: 0 <= i < |written| && i != at ==>
                 written[i] == if i < |content| then content[i] else '\0'
  {}

  /** open(tmp, "w"): the file of that name is emptied, or a new one made. */
  function Opened(files: Files): (r: (Files, nat))
    requires IsFile(files, files.tmp)
    ensures r.1 < |r.0.contents| && r.0.tmp == Some(r.1) && r.0.contents[r.1] == ""
  {
    match files.tmp
    case Some(n) => (files.(contents := files.contents[n := ""]), n)
    case None => (files.(contents := files.contents + [""], tmp := Some(|files.contents|)), |files.contents|)
  }

  /** The next step of one write. When there is no temporary file to put in place, os.replace
      raises, and the handler finds nothing to unlink either. */
  function Move(s: State, i: nat): (s': State)
    requires Valid(s)
    ensures Valid(s') && |s'.writers| == |s.writers|
  {
    if i >= |s.writers| then s
    else
      var w := s.writers[i];
      match w.phase
      case Waiting =>
        var (files, n) := Opened(s.files);
        State(files, s.writers[i := w.(phase := Open(n, 0))])
      case Open(n, k) =>
        if k < |w.text| then
          var content := WrittenAt(s.files.contents[n], k, w.text[k]);
          State(s.files.(contents := s.files.contents[n := content]), s.writers[i := w.(phase := Open(n, k + 1))])
        else (
          match s.files.tmp
          case None => s.(writers := s.writers[i := w.(phase := Ended(None))])
          case Some(t) =>
            State(s.files.(target := Some(t), tmp := None),
                  s.writers[i := w.(phase := Ended(Some(s.files.contents[t])))]))
      case Ended(_) => s
  }

  function MoveAll(s: State, moves: seq<nat>): (s': State)
    requires Valid(s)
    ensures Valid(s') && |s'.writers| == |s.writers|
  {
    if moves == [] then s else Move(MoveAll(s, moves[..|moves| - 1]), moves[|moves| - 1])
  }

  predicate InFlight(s: State, i: nat) { i < |s.writers| && s.writers[i].phase.Open? }

  /** The next step of `i` opens the temporary file of a write that has not ended. */
  predicate Collides(s: State, i: nat) {
    && i < |s.writers| && s.writers[i].phase.Waiting?
    && exists j: nat :: j < |s.writers| && InFlight(s, j)
  }

  /** Two writes of the schedule are under way at the same time. */
  predicate Overlap(s: State, moves: seq<nat>)
    requires Valid(s)
  {
    && moves != []
    && var before := moves[..|moves| - 1];
       Overlap(s, before) || Collides(MoveAll(s, before), moves[|moves| - 1])
  }

  predicate NoneBegun(s: State) { forall i :: 0 <= i < |s.writers| ==> s.writers[i].phase.Waiting? }

  predicate AllEnded(s: State) { forall i :: 0 <= i < |s.writers| ==> s.writers[i].phase.Ended? }

  /** The write put a file with exactly its own text in place. */
  predicate Landed(w: Writer) { w.phase == Ended(Some(w.text)) }

  predicate AllLanded(s: State) { forall i :: 0 <= i < |s.writers| ==> Landed(s.writers[i]) }

  /** What a reader of the state file gets. */
  function Target(files: Files): Option<string>
    requires IsFile(files, files.target)
  {
    match files.target
    case None => None
    case Some(n) => Some(files.contents[n])
  }

  // ---- Without overlap ----

  /** At most one write is under way; it has the temporary file to itself, with the text it has
      dumped so far; and the writes that ended landed. */
  ghost predicate Orderly(s: State)
    requires Valid(s)
  {
    && (forall i, j :: 0 <= i < |s.writers| && 0 <= j < |s.writers| && InFlight(s, i) && InFlight(s, j) ==> i == j)
    && (forall i :: 0 <= i < |s.writers| ==> WriterIsOrderly(s, s.writers[i]))
  }

  ghost predicate WriterIsOrderly(s: State, w: Writer)
    requires Valid(s)
  {
    match w.phase
    case Waiting => true
    case Open(n, k) => s.files.tmp == Some(n) && n < |s.files.contents| && k <= |w.text| &&
                       s.files.contents[n] == w.text[..k]
    case Ended(_) => Landed(w)
  }

  /** The file is the one at the start or the whole text of a write that landed. */
  ghost predicate Whole(s: State, start: Option<string>)
    requires Valid(s)
  {
    || Target(s.files) == start
    || exists i :: 0 <= i < |s.writers| && Landed(s.writers[i]) && Target(s.files) == Some(s.writers[i].text)
  }

  /** Nothing is known of the other writers but that they stay, and that none is under way. */
  lemma OrderlyWhenAlone(s: State, s': State, i: nat)
    requires Valid(s) && Orderly(s) && Valid(s') && i < |s.writers| && |s'.writers| == |s.writers|
    requires forall j: nat :: j < |s.writers| && j != i ==> s'.writers[j] == s.writers[j] && !InFlight(s, j)
    requires WriterIsOrderly(s', s'.writers[i])
    ensures Orderly(s')
  {
    forall j: nat | j < |s'.writers| && j != i ensures WriterIsOrderly(s', s'.writers[j]) && !InFlight(s', j) {
      assert WriterIsOrderly(s, s.writers[j]) && !InFlight(s, j);
    }
  }

  lemma StaysWhole(s: State, s': State, i: nat, start: Option<string>)
    requires Valid(s) && Valid(s') && Whole(s, start) && i < |s.writers| && |s'.writers| == |s.writers|
    requires forall j: nat :: j < |s.writers| && j != i ==> s'.writers[j] == s.writers[j]
    requires Target(s'.files) == Target(s.files) && !s.writers[i].phase.Ended?
    ensures Whole(s', start)
  {
    if Target(s.files) != start {
      var j: nat :| j < |s.writers| && Landed(s.writers[j]) && Target(s.files) == Some(s.writers[j].text);
      assert Landed(s'.writers[j]);
    }
  }

  lemma OnlyOneInFlight(s: State, i: nat, j: nat)
    requires Valid(s) && Orderly(s) && !Collides(s, i) && i < |s.writers| && !s.writers[i].phase.Ended?
    requires j < |s.writers| && j != i
    ensures !InFlight(s, j)
  {
    assert s.writers[i].phase.Open? ==> InFlight(s, i);
  }

  /** The step of a write that has the temporary file to itself. */
  lemma MoveAlone(s: State, i: nat)
    requires Valid(s) && i < |s.writers| && !s.writers[i].phase.Ended? && WriterIsOrderly(s, s.writers[i])
    ensures var s' := Move(s, i);
            && WriterIsOrderly(s', s'.writers[i])
            && (Target(s'.files) == Target(s.files)
                || (Landed(s'.writers[i]) && Target(s'.files) == Some(s'.writers[i].text)))
            && forall j: nat :: j < |s.writers| && j != i ==> s'.writers[j] == s.writers[j]
  {
    var w := s.writers[i];
    if w.phase.Open? {
      var k := w.phase.dumped;
      if k < |w.text| {
        assert |w.text[..k]| == k && w.text[..k] + [] + [w.text[k]] == w.text[..k + 1];
        assert WrittenAt(w.text[..k], k, w.text[k]) == w.text[..k + 1];
      } else {
        assert w.text[..|w.text|] == w.text;
      }
    }
  }

  lemma OrderlyMove(s: State, i: nat, start: Option<string>)
    requires Valid(s) && Orderly(s) && !Collides(s, i) && Whole(s, start)
    ensures Orderly(Move(s, i)) && Whole(Move(s, i), start)
  {
    if i < |s.writers| && !s.writers[i].phase.Ended? {
      var s' := Move(s, i);
      MoveAlone(s, i);
      forall j: nat | j < |s.writers| && j != i ensures !InFlight(s, j) {
        OnlyOneInFlight(s, i, j);
      }
      OrderlyWhenAlone(s, s', i);
      if Target(s'.files) == Target(s.files) {
        StaysWhole(s, s', i, start);
      }
    }
  }

  // ---- With overlap ----

  /** There are fewer temporary files than writes that will want to put one in place, or one of
      them has found none. */
  ghost predicate Doomed(s: State) {
    || (exists i :: 0 <= i < |s.writers| && s.writers[i].phase == Ended(None))
    || (s.files.tmp.None? && exists i :: 0 <= i < |s.writers| && InFlight(s, i))
    || exists i, j :: 0 <= i < j < |s.writers| && InFlight(s, i) && InFlight(s, j)
  }

  lemma CollisionDooms(s: State, i: nat)
    requires Valid(s) && Collides(s, i)
    ensures Doomed(Move(s, i))
  {
    var j: nat :| j < |s.writers| && InFlight(s, j);
    var s' := Move(s, i);
    assert InFlight(s', i) && InFlight(s', j) && i != j;
  }

  lemma DoomedMove(s: State, i: nat)
    requires Valid(s) && Doomed(s)
    ensures Doomed(Move(s, i))
  {
    var s' := Move(s, i);
    if j :| 0 <= j < |s.writers| && s.writers[j].phase == Ended(None) {
      assert s'.writers[j].phase == Ended(None);
    } else if s.files.tmp.None? {
      var j :| 0 <= j < |s.writers| && InFlight(s, j);
      if i < |s.writers| && s.writers[i].phase.Waiting? {
        assert InFlight(s', i) && InFlight(s', j) && i != j;
      } else if i == j {
        assert InFlight(s', j) || s'.writers[j].phase == Ended(None);
      } else {
        assert InFlight(s', j);
      }
    } else {
      var j, k :| 0 <= j < k < |s.writers| && InFlight(s, j) && InFlight(s, k);
      if i == j {
        assert InFlight(s', k) && (InFlight(s', j) || s'.files.tmp.None?);
      } else if i == k {
        assert InFlight(s', j) && (InFlight(s', k) || s'.files.tmp.None?);
      } else {
        assert InFlight(s', j) && InFlight(s', k);
      }
    }
  }

  lemma {:induction false} OrderlyOrDoomed(s: State, moves: seq<nat>)
    requires Valid(s) && NoneBegun(s)
    ensures var at := MoveAll(s, moves);
            if Overlap(s, moves) then Doomed(at) else Orderly(at) && Whole(at, Target(s.files))
  {
    if moves != [] {
      var before, i := moves[..|moves| - 1], moves[|moves| - 1];
      var at := MoveAll(s, before);
      OrderlyOrDoomed(s, before);
      if Overlap(s, before) {
        DoomedMove(at, i);
      } else if Collides(at, i) {
        CollisionDooms(at, i);
      } else {
        OrderlyMove(at, i, Target(s.files));
      }
    }
  }

  /** Of any number of writes, in any schedule and whatever lay in the temporary file, every
      one puts exactly its own text in place if and only if no two of them overlap; if two do,
      some write finds nothing to put in place and is lost. */
  lemma {:induction false} EveryWriteLandsIff(s: State, moves: seq<nat>)
    requires Valid(s) && NoneBegun(s) && AllEnded(MoveAll(s, moves))
    ensures AllLanded(MoveAll(s, moves)) <==> !Overlap(s, moves)
    ensures Overlap(s, moves) ==>
              exists i :: 0 <= i < |s.writers| && MoveAll(s, moves).writers[i].phase == Ended(None)
  {
    OrderlyOrDoomed(s, moves);
    var at := MoveAll(s, moves);
    if Overlap(s, moves) {
      var i :| 0 <= i < |at.writers| && at.writers[i].phase == Ended(None);
      assert !Landed(at.writers[i]);
    }
  }

  /** A reader never sees a half-written file, at any moment of any schedule without overlap. */
  lemma WithoutOverlapTheFileIsWhole(s: State, moves: seq<nat>)
    requires Valid(s) && NoneBegun(s) && !Overlap(s, moves)
    ensures Whole(MoveAll(s, moves), Target(s.files))
  {
    OrderlyOrDoomed(s, moves);
  }

  // ---- Two schedules in which it does ----

  lemma OneMore(s: State, moves: seq<nat>, i: nat)
    requires Valid(s)
    ensures MoveAll(s, moves + [i]) == Move(MoveAll(s, moves), i)
  {
    assert (moves + [i])[..|moves|] == moves;
  }

  /** Two writes, of "a" and of "b", over a state file; the temporary file is file 1. */
  function Two(contents: seq<string>, target: nat, tmp: Option<nat>, first: Phase, second: Phase): State {
    State(Files(contents, Some(target), tmp), [Writer("a", first), Writer("b", second)])
  }

  lemma FirstOpens(s: State)
    requires s == Two(["old"], 0, None, Waiting, Waiting)
    ensures Valid(s) && Move(s, 0) == Two(["old", ""], 0, Some(1), Open(1, 0), Waiting)
  {}

  lemma SecondOpens(s: State, text: string, first: Phase)
    requires s == Two(["old", text], 0, Some(1), first, Waiting) && Valid(s)
    ensures Move(s, 1) == Two(["old", ""], 0, Some(1), first, Open(1, 0))
  {}

  lemma FirstDumps(s: State, second: Phase)
    requires s == Two(["old", ""], 0, Some(1), Open(1, 0), second) && Valid(s)
    ensures Move(s, 0) == Two(["old", "a"], 0, Some(1), Open(1, 1), second)
  {
    assert |"a"| == 1 && WrittenAt("", 0, "a"[0]) == "a";
  }

  lemma FirstReplaces(s: State, text: string, second: Phase)
    requires s == Two(["old", text], 0, Some(1), Open(1, 1), second) && Valid(s)
    ensures Move(s, 0) == Two(["old", text], 1, None, Ended(Some(text)), second)
  {
    assert |"a"| == 1;
  }

  lemma SecondDumpsAndFails(s: State, first: Phase)
    requires s == Two(["old", "a"], 1, None, first, Open(1, 0)) && Valid(s)
    ensures Move(s, 1) == Two(["old", "b"], 1, None, first, Open(1, 1))
    ensures Move(Move(s, 1), 1) == Two(["old", "b"], 1, None, first, Ended(None))
  {
    assert |"b"| == 1 && WrittenAt("a", 0, "b"[0]) == "b";
  }

  /** The first write is ready to put its file in place when the second one empties it: readers
      then find an empty state file. */
  lemma AWriteCanInstallAnotherOnesText(s: State)
    requires s == Two(["old"], 0, None, Waiting, Waiting)
    ensures Valid(s) && NoneBegun(s) && Overlap(s, [0, 0, 1])
    ensures Target(MoveAll(s, [0, 0, 1, 0]).files) == Some("")
    ensures MoveAll(s, [0, 0, 1, 0]).writers[0].phase == Ended(Some(""))
  {
    hide Move;
    FirstOpens(s);
    var s1 := Move(s, 0);
    FirstDumps(s1, Waiting);
    var s2 := Move(s1, 0);
    assert InFlight(s2, 0) && Collides(s2, 1);
    SecondOpens(s2, "a", Open(1, 1));
    FirstReplaces(Move(s2, 1), "", Open(1, 0));
    OneMore(s, [], 0);
    OneMore(s, [0], 0);
    OneMore(s, [0, 0], 1);
    OneMore(s, [0, 0, 1], 0);
    assert [] + [0] == [0] && [0] + [0] == [0, 0] && [0, 0] + [1] == [0, 0, 1] && [0, 0, 1] + [0] == [0, 0, 1, 0];
    assert [0, 0, 1][..2] == [0, 0];
  }

  /** And one that puts its whole text in place while another has the file open: the other goes
      on writing into what is now the state file, and then finds nothing to put in place. */
  lemma AWriteCanGoOnInTheStateFile(s: State)
    requires s == Two(["old"], 0, None, Waiting, Waiting)
    ensures Valid(s) && Landed(MoveAll(s, [0, 1, 0, 0]).writers[0])
    ensures Target(MoveAll(s, [0, 1, 0, 0]).files) == Some("a")
    ensures Target(MoveAll(s, [0, 1, 0, 0, 1]).files) == Some("b")
    ensures MoveAll(s, [0, 1, 0, 0, 1, 1]).writers[1].phase == Ended(None)
  {
    hide Move;
    FirstOpens(s);
    var s1 := Move(s, 0);
    SecondOpens(s1, "", Open(1, 0));
    var s2 := Move(s1, 1);
    FirstDumps(s2, Open(1, 0));
    var s3 := Move(s2, 0);
    FirstReplaces(s3, "a", Open(1, 0));
    SecondDumpsAndFails(Move(s3, 0), Ended(Some("a")));
    OneMore(s, [], 0);
    OneMore(s, [0], 1);
    OneMore(s, [0, 1], 0);
    OneMore(s, [0, 1, 0], 0);
    OneMore(s, [0, 1, 0, 0], 1);
    OneMore(s, [0, 1, 0, 0, 1], 1);
    assert [] + [0] == [0] && [0] + [1] == [0, 1] && [0, 1] + [0] == [0, 1, 0] && [0, 1, 0] + [0] == [0, 1, 0, 0];
    assert [0, 1, 0, 0] + [1] == [0, 1, 0, 0, 1] && [0, 1, 0, 0, 1] + [1] == [0, 1, 0, 0, 1, 1];
  }

  // ---- The same steps as those of one write ----

  /** The two names and what they stand for, as Settings sees them. */
  function AsDisk(files: Files): Settings.Disk
    requires IsFile(files, files.target) && IsFile(files, files.tmp)
  {
    Settings.Disk(Target(files), if files.tmp.Some? then Some(files.contents[files.tmp.value]) else None)
  }

  /** The next step of the write program. */
  function NextStep(w: Writer): Settings.FileStep
    requires !w.phase.Ended? && (w.phase.Open? ==> w.phase.dumped <= |w.text|)
  {
    if w.phase.Waiting? then Settings.OpenTmp
    else if w.phase.dumped < |w.text| then Settings.Dump(w.text[w.phase.dumped])
    else Settings.Replace
  }

  /** Without overlap a step here is the step of the write program in Settings, whose crash
      safety is proved there. */
  lemma OrderlyMoveIsTheProgramsStep(s: State, i: nat)
    requires Valid(s) && Orderly(s) && i < |s.writers| && !s.writers[i].phase.Ended?
    ensures AsDisk(Move(s, i).files) == Settings.Do(AsDisk(s.files), NextStep(s.writers[i]))
  {
    var w := s.writers[i];
    assert WriterIsOrderly(s, w);
    if w.phase.Open? && w.phase.dumped < |w.text| {
      var k := w.phase.dumped;
      assert WrittenAt(w.text[..k], k, w.text[k]) == w.text[..k] + [w.text[k]];
    }
  }
}
