/** The one GUI state file (gui/settings.py): a read-modify-write of gui_state.json
    through a temporary file and an atomic replace. */
module Settings {
  import opened Wrappers
  import opened JsonValues

  // ---- The two files, and the steps a write is made of ----

  /** The state file and the temporary file next to it; None is "does not exist". */
  datatype Disk = Disk(target: Option<string>, tmp: Option<string>)

  datatype FileStep = OpenTmp | Dump(c: char) | Replace | Unlink

  function Do(d: Disk, step: FileStep): Disk {
    match step
    case OpenTmp => d.(tmp := Some(""))
    case Dump(c) => if d.tmp.Some? then d.(tmp := Some(d.tmp.value + [c])) else d
    case Replace => if d.tmp.Some? then Disk(d.tmp, None) else d
    case Unlink => d.(tmp := None)
  }

  function DoAll(d: Disk, steps: seq<FileStep>): Disk {
    if steps == [] then d else Do(DoAll(d, steps[..|steps| - 1]), steps[|steps| - 1])
  }

  /** The whole of one successful write. json.dump hands the text over in pieces;
      one character at a time is the finest way to cut it. */
  function WriteProgram(text: string): seq<FileStep> {
    [OpenTmp] + seq(|text|, i requires 0 <= i < |text| => Dump(text[i])) + [Replace]
  }

  /** How far one set got. `readable` says whether the read that precedes the write
      could open the file. A write that stops has run some of its steps but not the
      last; then the process died, or an OSError was caught and the temporary file is
      unlinked, unless that fails too. */
  datatype Fate =
    | Completes(readable: bool)
    | Stops(readable: bool, steps: nat, unlinks: bool)

  function StepsRun(text: string, fate: Fate): nat {
    var all := |WriteProgram(text)|;
    if fate.Completes? then all else if fate.steps < all then fate.steps else all - 1
  }

  function Executed(text: string, fate: Fate): seq<FileStep> {
    WriteProgram(text)[..StepsRun(text, fate)] + if fate.Stops? && fate.unlinks then [Unlink] else []
  }

  // ---- Reading ----

  /** json.dump and json.load, of which only this is assumed: what was dumped whole
      loads back. */
  datatype Codec = Codec(dump: Json -> string, load: string -> Option<Json>)

  ghost predicate Faithful(codec: Codec) {
    forall j :: codec.load(codec.dump(j)) == Some(j)
  }

  /** What _read returns: a dictionary, or some other JSON value, on which both
      .get() and item assignment raise. */
  datatype Content = Dict(fields: map<string, Json>) | NotADict

  function Read(target: Option<string>, codec: Codec, readable: bool): Content {
    if target.None? || !readable then Dict(map[])
    else
      match codec.load(target.value)
      case None => Dict(map[])
      case Some(j) => if j.Obj? then Dict(j.fields) else NotADict
  }

  /** A missing file, one that cannot be opened and one that cannot be decoded read as an empty
      dictionary; a dictionary reads as itself, and any other value as none. */
  lemma WhatAReaderGets(target: Option<string>, codec: Codec, readable: bool)
    ensures target.None? || !readable || codec.load(target.value).None? ==> Read(target, codec, readable) == Dict(map[])
    ensures target.Some? && readable && codec.load(target.value).Some? ==>
              var j := codec.load(target.value).value;
              Read(target, codec, readable) == if j.Obj? then Dict(j.fields) else NotADict
  {}

  /** The state as a reader that can open the file sees it. */
  function Data(d: Disk, codec: Codec): map<string, Json> {
    var content := Read(d.target, codec, true);
    if content.Dict? then content.fields else map[]
  }

  predicate HoldsDict(d: Disk, codec: Codec) { Read(d.target, codec, true).Dict? }

  /** The disk after Settings.set(key, value) with the given fate. */
  function AfterSet(d: Disk, codec: Codec, key: string, value: Json, fate: Fate): Disk {
    match Read(d.target, codec, fate.readable)
    case NotADict => d
    case Dict(fields) => DoAll(d, Executed(codec.dump(Obj(fields[key := value])), fate))
  }

  /** The text Settings.set(key, value) tries to write. */
  function TextOfSet(d: Disk, codec: Codec, key: string, value: Json, fate: Fate): string {
    var content := Read(d.target, codec, fate.readable);
    codec.dump(Obj((if content.Dict? then content.fields else map[])[key := value]))
  }

  predicate SetCommits(d: Disk, codec: Codec, fate: Fate) {
    Read(d.target, codec, fate.readable).Dict? && fate.Completes?
  }

  // ---- The object ----

  class Settings {
    var target: Option<string>
    var tmp: Option<string>
    const codec: Codec

    constructor (codec: Codec, target: Option<string>, tmp: Option<string>)
      ensures this.codec == codec && OnDisk() == Disk(target, tmp)
    {
      this.codec, this.target, this.tmp := codec, target, tmp;
    }

    function OnDisk(): Disk
      reads this
    {
      Disk(target, tmp)
    }

    ghost predicate Valid()
      reads this
    {
      Faithful(codec) && HoldsDict(OnDisk(), codec)
    }

    ghost function Contents(): map<string, Json>
      reads this
    {
      Data(OnDisk(), codec)
    }

    /** Settings.get(key, default): Failure is the AttributeError of a top level that
        is not a dictionary. */
    method Get(key: string, default: Json, readable: bool) returns (r: Result<Json, ()>)
      ensures r.Failure? <==> readable && !HoldsDict(OnDisk(), codec)
      ensures r.Success? && readable ==> r.value == if key in Contents() then Contents()[key] else default
      ensures !readable || target.None? || codec.load(target.value).None? ==> r == Success(default)
      ensures readable && target.Some? && codec.load(target.value).Some? ==>
                var j := codec.load(target.value).value;
                r == if !j.Obj? then Failure(()) else Success(if key in j.fields then j.fields[key] else default)
    {
      var content := Read(target, codec, readable);
      match content {
        case NotADict => r := Failure(());
        case Dict(fields) => r := Success(if key in fields then fields[key] else default);
      }
    }

    /** _write: the steps one by one, so that stopping after any of them is a case. */
    method Write(text: string, fate: Fate)
      modifies this
      ensures OnDisk() == DoAll(old(OnDisk()), Executed(text, fate))
    {
      var program := WriteProgram(text);
      var i, n := 0, StepsRun(text, fate);
      while i < n
        invariant 0 <= i <= n <= |program|
        invariant OnDisk() == DoAll(old(OnDisk()), program[..i])
      {
        assert program[..i + 1][..i] == program[..i];
        match program[i] {
          case OpenTmp => tmp := Some("");
          case Dump(c) => if tmp.Some? { tmp := Some(tmp.value + [c]); }
          case Replace => if tmp.Some? { target, tmp := tmp, None; }
          case Unlink => tmp := None;
        }
        i := i + 1;
      }
      if fate.Stops? && fate.unlinks {
        tmp := None;
        assert (program[..n] + [Unlink])[..n] == program[..n];
      } else {
        assert program[..n] + [] == program[..n];
      }
    }

    /** Settings.set(key, value): Failure is the TypeError of a top level that is not
        a dictionary; a write that fails is only logged. */
    method Set(key: string, value: Json, fate: Fate) returns (r: Result<(), ()>)
      modifies this
      ensures OnDisk() == AfterSet(old(OnDisk()), codec, key, value, fate)
      ensures r == if fate.readable && !HoldsDict(old(OnDisk()), codec) then Failure(()) else Success(())
      ensures old(Valid()) ==> Valid()
      ensures old(Valid()) && fate.Stops? ==> Contents() == old(Contents())
      ensures old(Valid()) && fate.Completes? ==>
                Contents() == (if fate.readable then old(Contents()) else map[])[key := value]
    {
      var content := Read(target, codec, fate.readable);
      match content {
        case NotADict => r := Failure(());
        case Dict(fields) =>
          FailedWriteIsInvisible(OnDisk(), codec.dump(Obj(fields[key := value])), fate);
          Write(codec.dump(Obj(fields[key := value])), fate);
          r := Success(());
      }
    }
  }

  // ---- One write is all or nothing ----

  lemma {:induction false} DumpsAppend(d: Disk, text: string, k: nat)
    requires k <= |text|
    ensures DoAll(d, WriteProgram(text)[..k + 1]) == d.(tmp := Some(text[..k]))
  {
    var program := WriteProgram(text);
    if k == 0 {
      assert program[..1] == [OpenTmp] && [OpenTmp][..0] == [];
    } else {
      DumpsAppend(d, text, k - 1);
      assert program[..k + 1][..k] == program[..k] && program[k] == Dump(text[k - 1]);
      assert text[..k - 1] + [text[k - 1]] == text[..k];
    }
  }

  /** Whatever was left behind in the temporary file, and wherever the write stops,
      the state file holds the whole old text or the whole new one, and it holds the
      new one exactly when the last step, the replace, ran. */
  lemma {:induction false} CrashLeavesOldOrNew(d: Disk, text: string, k: nat)
    requires k <= |WriteProgram(text)|
    ensures DoAll(d, WriteProgram(text)[..k]).target ==
            if k == |WriteProgram(text)| then Some(text) else d.target
  {
    var program := WriteProgram(text);
    if k == |program| {
      DumpsAppend(d, text, |text|);
      assert program[..k][..k - 1] == program[..|text| + 1] && text[..|text|] == text;
    } else if k > 0 {
      DumpsAppend(d, text, k - 1);
    } else {
      assert program[..0] == [];
    }
  }

  /** The same for a write ended by a caught error, after which the temporary file
      may or may not have been removed. */
  lemma FailedWriteIsInvisible(d: Disk, text: string, fate: Fate)
    ensures DoAll(d, Executed(text, fate)).target == if fate.Completes? then Some(text) else d.target
  {
    var program, n := WriteProgram(text), StepsRun(text, fate);
    CrashLeavesOldOrNew(d, text, n);
    assert (program[..n] + [Unlink])[..n] == program[..n];
    assert program[..n] + [] == program[..n];
  }

  /** Every place where a write can stop is a case: a fate that stops after k steps has run the first k
      of the program, so that the temporary file holds the text up to there, or what lay in it
      before, or was removed again. */
  lemma EveryStopIsACase(d: Disk, text: string, k: nat, readable: bool, unlinks: bool)
    requires k < |WriteProgram(text)|
    ensures |WriteProgram(text)| == |text| + 2
    ensures DoAll(d, Executed(text, Stops(readable, k, unlinks))) ==
            d.(tmp := if unlinks then None else if k == 0 then d.tmp else Some(text[..k - 1]))
  {
    var program := WriteProgram(text);
    if k > 0 {
      DumpsAppend(d, text, k - 1);
    } else {
      assert program[..0] == [];
    }
    assert (program[..k] + [Unlink])[..k] == program[..k];
    assert program[..k] + [] == program[..k];
  }

  // ---- One set merges one key ----

  /** A set that could read the file changes its own key and nothing else, or nothing
      at all when it did not commit. */
  lemma SetMergesOneKey(d: Disk, codec: Codec, key: string, value: Json, fate: Fate)
    requires Faithful(codec) && fate.readable
    ensures var d' := AfterSet(d, codec, key, value, fate);
            && HoldsDict(d', codec) == HoldsDict(d, codec)
            && Data(d', codec) ==
               if SetCommits(d, codec, fate) then Data(d, codec)[key := value] else Data(d, codec)
  {
    FailedWriteIsInvisible(d, TextOfSet(d, codec, key, value, fate), fate);
  }

  /** The read inside set() turns an unreadable file into an empty dictionary, so the
      merge then loses the rest of the state. Every other key survives exactly when
      the file could be read, or the write did not go through, or there was no other
      key to lose. */
  lemma OtherKeysSurviveIff(d: Disk, codec: Codec, key: string, value: Json, fate: Fate)
    requires Faithful(codec) && HoldsDict(d, codec)
    ensures var d' := AfterSet(d, codec, key, value, fate);
            (Data(d', codec) - {key} == Data(d, codec) - {key}) <==>
            (fate.readable || !SetCommits(d, codec, fate) || Data(d, codec).Keys <= {key})
  {
    var d' := AfterSet(d, codec, key, value, fate);
    FailedWriteIsInvisible(d, TextOfSet(d, codec, key, value, fate), fate);
    if fate.readable {
      SetMergesOneKey(d, codec, key, value, fate);
    } else if SetCommits(d, codec, fate) {
      assert Data(d', codec) == map[key := value];
      assert (Data(d', codec) - {key}).Keys == {};
      if !(Data(d, codec).Keys <= {key}) {
        var k :| k in Data(d, codec) && k != key;
        assert k in (Data(d, codec) - {key}).Keys;
      } else {
        assert (Data(d, codec) - {key}).Keys == {};
      }
    }
  }

  /** A state where they do not: the file holds one key, cannot be opened for reading at the
      moment another is set, and can be written. */
  lemma AnUnreadableFileLosesTheOtherKeys(codec: Codec, v: Json, w: Json)
    requires Faithful(codec)
    ensures var d := Disk(Some(codec.dump(Obj(map["a" := v]))), None);
            var d' := AfterSet(d, codec, "b", w, Completes(false));
            Data(d, codec) == map["a" := v] && Data(d', codec) == map["b" := w]
  {
    var d := Disk(Some(codec.dump(Obj(map["a" := v]))), None);
    assert codec.load(d.target.value) == Some(Obj(map["a" := v]));
    FailedWriteIsInvisible(d, TextOfSet(d, codec, "b", w, Completes(false)), Completes(false));
    assert codec.load(codec.dump(Obj(map["b" := w]))) == Some(Obj(map["b" := w]));
  }

  // ---- Any sequence of sets ----

  datatype SetCall = SetCall(key: string, value: Json, fate: Fate)

  function AfterSets(d: Disk, codec: Codec, calls: seq<SetCall>): Disk {
    if calls == [] then d
    else
      var c := calls[|calls| - 1];
      AfterSet(AfterSets(d, codec, calls[..|calls| - 1]), codec, c.key, c.value, c.fate)
  }

  /** What a call says of a key: the value it stores under it, or that it is gone, because the
      call's own read failed and its write then left its own key alone in the file; or nothing. */
  datatype Word = Nothing | Stored(value: Json) | Lost

  function Says(d: Disk, codec: Codec, c: SetCall, key: string): Word {
    if !SetCommits(d, codec, c.fate) then Nothing
    else if c.key == key then Stored(c.value)
    else if c.fate.readable then Nothing
    else Lost
  }

  /** The last word on a key in a run of calls. */
  function LastWord(d: Disk, codec: Codec, calls: seq<SetCall>, key: string): Word {
    if calls == [] then Nothing
    else
      var before := calls[..|calls| - 1];
      var word := Says(AfterSets(d, codec, before), codec, calls[|calls| - 1], key);
      if word.Nothing? then LastWord(d, codec, before, key) else word
  }

  lemma SetSays(d: Disk, codec: Codec, c: SetCall, key: string)
    requires Faithful(codec) && HoldsDict(d, codec)
    ensures var d' := AfterSet(d, codec, c.key, c.value, c.fate);
            && HoldsDict(d', codec)
            && match Says(d, codec, c, key)
               case Stored(v) => key in Data(d', codec) && Data(d', codec)[key] == v
               case Lost => key !in Data(d', codec)
               case Nothing => SameEntry(Data(d', codec), Data(d, codec), key)
  {
    FailedWriteIsInvisible(d, TextOfSet(d, codec, c.key, c.value, c.fate), c.fate);
  }

  predicate SameEntry(data: map<string, Json>, data': map<string, Json>, key: string) {
    (key in data <==> key in data') && (key in data ==> data[key] == data'[key])
  }

  /** After any sequence of sets, with any of their reads and writes failing and leaving debris
      behind, a key holds the value last stored under it, is gone when a set that could not
      read the file was the last to say so, and is as it was when none said anything. */
  lemma {:induction false} EveryKeyHoldsItsLastWrite(d: Disk, codec: Codec, calls: seq<SetCall>, key: string)
    requires Faithful(codec) && HoldsDict(d, codec)
    ensures HoldsDict(AfterSets(d, codec, calls), codec)
    ensures var data := Data(AfterSets(d, codec, calls), codec);
            match LastWord(d, codec, calls, key)
            case Stored(v) => key in data && data[key] == v
            case Lost => key !in data
            case Nothing => SameEntry(data, Data(d, codec), key)
  {
    if calls != [] {
      var c, before := calls[|calls| - 1], calls[..|calls| - 1];
      EveryKeyHoldsItsLastWrite(d, codec, before, key);
      SetSays(AfterSets(d, codec, before), codec, c, key);
    }
  }

  // ---- Sets whose read and write are separated by another's ----

  datatype Half = ReadHalf(who: nat) | WriteHalf(who: nat, key: string, value: Json)

  /** The file's dictionary, the number of writes so far, and what each writer last
      read, with the number of writes at that moment. */
  datatype Shared = Shared(data: map<string, Json>, writes: nat, held: map<nat, (map<string, Json>, nat)>)

  /** What a writer read last, or nothing. */
  function Held(s: Shared, who: nat): map<string, Json> {
    if who in s.held then s.held[who].0 else map[]
  }

  function Interleave(s: Shared, h: Half): Shared {
    match h
    case ReadHalf(who) => s.(held := s.held[who := (s.data, s.writes)])
    case WriteHalf(who, key, value) =>
      s.(data := Held(s, who)[key := value], writes := s.writes + 1)
  }

  function InterleaveAll(s: Shared, halves: seq<Half>): Shared {
    if halves == [] then s else Interleave(InterleaveAll(s, halves[..|halves| - 1]), halves[|halves| - 1])
  }

  function MergeWrites(data: map<string, Json>, halves: seq<Half>): map<string, Json> {
    if halves == [] then data
    else
      var h, merged := halves[|halves| - 1], MergeWrites(data, halves[..|halves| - 1]);
      if h.WriteHalf? then merged[h.key := h.value] else merged
  }

  /** After every step the file is the merge of all the writes so far, in their order: no
      component ever clobbers a key of another. */
  predicate NeverClobbers(s: Shared, halves: seq<Half>) {
    halves == [] ||
    (NeverClobbers(s, halves[..|halves| - 1]) && InterleaveAll(s, halves).data == MergeWrites(s.data, halves))
  }

  /** Every writing half finds each key but its own as its reading half saw it. */
  predicate OtherKeysStill(s: Shared, halves: seq<Half>) {
    halves == [] ||
    (var before, h := halves[..|halves| - 1], halves[|halves| - 1];
     var at := InterleaveAll(s, before);
     OtherKeysStill(s, before) && (h.WriteHalf? ==> Held(at, h.who) - {h.key} == at.data - {h.key}))
  }

  lemma WriteMergesIff(held: map<string, Json>, data: map<string, Json>, key: string, value: Json)
    ensures held[key := value] == data[key := value] <==> held - {key} == data - {key}
  {
    assert (held[key := value]) - {key} == held - {key};
    assert (data[key := value]) - {key} == data - {key};
    assert held[key := value] == (held - {key})[key := value];
    assert data[key := value] == (data - {key})[key := value];
  }

  /** Exactly which schedules of reading and writing halves keep the promise that components
      sharing the file never clobber each other's keys, from any start. */
  lemma {:induction false} NeverClobbersIff(s: Shared, halves: seq<Half>)
    ensures NeverClobbers(s, halves) <==> OtherKeysStill(s, halves)
  {
    if halves != [] {
      var before, h := halves[..|halves| - 1], halves[|halves| - 1];
      NeverClobbersIff(s, before);
      var at := InterleaveAll(s, before);
      if NeverClobbers(s, before) {
        assert at.data == MergeWrites(s.data, before) by {
          if before == [] { assert at == s; }
        }
        if h.WriteHalf? {
          WriteMergesIff(Held(at, h.who), at.data, h.key, h.value);
        }
      }
    }
  }

  /** No other write came between the reading and the writing half of any set. */
  predicate Undisturbed(s: Shared, halves: seq<Half>) {
    halves == [] ||
    (var before, h := halves[..|halves| - 1], halves[|halves| - 1];
     var at := InterleaveAll(s, before);
     Undisturbed(s, before) && (h.WriteHalf? ==> h.who in at.held && at.held[h.who].1 == at.writes))
  }

  lemma {:induction false} HeldIsCurrentWhenUndisturbed(s: Shared, halves: seq<Half>, who: nat)
    requires forall w :: w in s.held ==>
               s.held[w].1 <= s.writes && (s.held[w].1 == s.writes ==> s.held[w].0 == s.data)
    ensures var at := InterleaveAll(s, halves);
            who in at.held ==>
              at.held[who].1 <= at.writes && (at.held[who].1 == at.writes ==> at.held[who].0 == at.data)
  {
    if halves != [] {
      HeldIsCurrentWhenUndisturbed(s, halves[..|halves| - 1], who);
    }
  }

  /** In particular a set that no other write interrupts clobbers nothing. */
  lemma {:induction false} UndisturbedSetsNeverClobber(s: Shared, halves: seq<Half>)
    requires s.held == map[] && Undisturbed(s, halves)
    ensures NeverClobbers(s, halves)
    ensures InterleaveAll(s, halves).data == MergeWrites(s.data, halves)
  {
    UndisturbedFindsTheOthersStill(s, halves);
    NeverClobbersIff(s, halves);
  }

  lemma {:induction false} UndisturbedFindsTheOthersStill(s: Shared, halves: seq<Half>)
    requires s.held == map[] && Undisturbed(s, halves)
    ensures OtherKeysStill(s, halves)
  {
    if halves != [] {
      var before, h := halves[..|halves| - 1], halves[|halves| - 1];
      UndisturbedFindsTheOthersStill(s, before);
      if h.WriteHalf? {
        HeldIsCurrentWhenUndisturbed(s, before, h.who);
      }
    }
  }

  lemma OneMoreHalf(s: Shared, halves: seq<Half>, h: Half)
    ensures InterleaveAll(s, halves + [h]) == Interleave(InterleaveAll(s, halves), h)
    ensures MergeWrites(s.data, halves + [h]) ==
            if h.WriteHalf? then MergeWrites(s.data, halves)[h.key := h.value] else MergeWrites(s.data, halves)
  {
    assert (halves + [h])[..|halves|] == halves;
  }

  /** A schedule that breaks it: two components on two threads, each writing its own key,
      and the first one's key is gone. */
  lemma InterleavedSetsLoseAnUpdate(data: map<string, Json>, v: Json, w: Json)
    requires "a" !in data
    ensures var halves := [ReadHalf(1), ReadHalf(2), WriteHalf(1, "a", v), WriteHalf(2, "b", w)];
            "a" !in InterleaveAll(Shared(data, 0, map[]), halves).data && "a" in MergeWrites(data, halves)
  {
    var s0 := Shared(data, 0, map[]);
    var h1, h2, h3, h4 := ReadHalf(1), ReadHalf(2), WriteHalf(1, "a", v), WriteHalf(2, "b", w);
    OneMoreHalf(s0, [], h1);
    OneMoreHalf(s0, [h1], h2);
    OneMoreHalf(s0, [h1, h2], h3);
    OneMoreHalf(s0, [h1, h2, h3], h4);
    assert [] + [h1] == [h1] && [h1] + [h2] == [h1, h2];
    assert [h1, h2] + [h3] == [h1, h2, h3] && [h1, h2, h3] + [h4] == [h1, h2, h3, h4];
  }
}
