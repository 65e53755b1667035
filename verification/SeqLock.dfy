/** The sequence lock that publishes telemetry snapshots: one writer, any number of readers, a payload that is
    copied word by word in any order. Every load and store is a step (sequentially consistent memory).
    The counter is 32 bits wide; `clock` is the same counter without the wrap. */
module SeqLock {

  type Word = int
  type Payload = seq<Word>

  const WRAP: nat := 0x1_0000_0000
  const MAX_TRIES: nat := 1000

  datatype Writer = Resting | Copying(value: Payload, todo: set<nat>)

  datatype ReaderPc = Outside | LoadSeq | CopyOut(todo: set<nat>)

  /** A read that returned true. `version` numbers the publication current at its first load, `span` is how far
      the counter moved between its two loads, `floor` the newest version anyone had got when it started. */
  datatype Got = Got(value: Payload, version: nat, span: int, floor: nat)

  datatype Reader = Reader(pc: ReaderPc, tries: nat, s1: nat, loadedAt: nat, out: Payload, floor: nat, log: seq<Got>)

  datatype State = State(
    clock: nat,
    data: Payload,
    writer: Writer,
    published: seq<Payload>,  // version k is published[k]
    newest: nat,              // the newest version a read has returned
    readers: map<nat, Reader>)

  function Seq32(s: State): nat { s.clock % WRAP }

  datatype Step =
    | WriteBegin(v: Payload) | WriteWord(i: nat) | WriteEnd
    | ReadBegin(r: nat) | ReadLoad(r: nat) | ReadWord(r: nat, i: nat) | ReadCheck(r: nat)

  function AllIndices(n: nat): (r: set<nat>)
    ensures forall i: nat :: i in r <==> i < n
  {
    if n == 0 then {} else AllIndices(n - 1) + {n - 1}
  }

  function Initial(v: Payload): State { State(0, v, Resting, [v], 0, map[]) }

  function ReaderOf(s: State, r: nat): Reader {
    if r in s.readers then s.readers[r] else Reader(Outside, 0, 0, 0, s.data, 0, [])
  }

  predicate Enabled(s: State, a: Step) {
    match a
    case WriteBegin(v) => s.writer.Resting? && |v| == |s.data|
    case WriteWord(i) => s.writer.Copying? && i in s.writer.todo && i < |s.data| && i < |s.writer.value|
    case WriteEnd => s.writer.Copying? && s.writer.todo == {}
    case ReadBegin(r) => ReaderOf(s, r).pc.Outside?
    case ReadLoad(r) => ReaderOf(s, r).pc.LoadSeq?
    case ReadWord(r, i) =>
      var rd := ReaderOf(s, r);
      rd.pc.CopyOut? && i in rd.pc.todo && i < |s.data| && i < |rd.out|
    case ReadCheck(r) => ReaderOf(s, r).pc.CopyOut? && ReaderOf(s, r).pc.todo == {}
  }

  /** Another turn of the reader's loop, or giving up. */
  function Retry(rd: Reader): Reader {
    if rd.tries + 1 < MAX_TRIES then rd.(pc := LoadSeq, tries := rd.tries + 1) else rd.(pc := Outside)
  }

  function Do(s: State, a: Step): State
    requires Enabled(s, a)
  {
    match a
    case WriteBegin(v) => s.(clock := s.clock + 1, writer := Copying(v, AllIndices(|s.data|)))
    case WriteWord(i) =>
      s.(data := s.data[i := s.writer.value[i]], writer := Copying(s.writer.value, s.writer.todo - {i}))
    case WriteEnd => s.(clock := s.clock + 1, published := s.published + [s.writer.value], writer := Resting)
    case ReadBegin(r) =>
      s.(readers := s.readers[r := ReaderOf(s, r).(pc := LoadSeq, tries := 0, floor := s.newest)])
    case ReadLoad(r) =>
      var rd := ReaderOf(s, r);
      var next := if Seq32(s) % 2 == 1 then Retry(rd)
                  else rd.(s1 := Seq32(s), loadedAt := s.clock, pc := CopyOut(AllIndices(|s.data|)));
      s.(readers := s.readers[r := next])
    case ReadWord(r, i) =>
      var rd := ReaderOf(s, r);
      s.(readers := s.readers[r := rd.(out := rd.out[i := s.data[i]], pc := CopyOut(rd.pc.todo - {i}))])
    case ReadCheck(r) =>
      var rd := ReaderOf(s, r);
      if Seq32(s) != rd.s1 then s.(readers := s.readers[r := Retry(rd)])
      else
        var got := Got(rd.out, rd.loadedAt / 2, s.clock - rd.loadedAt, rd.floor);
        s.(readers := s.readers[r := rd.(pc := Outside, log := rd.log + [got])],
           newest := if got.span < WRAP && got.version > s.newest then got.version else s.newest)
  }

  predicate Executable(s: State, run: seq<Step>)
    decreases |run|
  {
    run == [] || (Enabled(s, run[0]) && Executable(Do(s, run[0]), run[1..]))
  }

  function Exec(s: State, run: seq<Step>): State
    requires Executable(s, run)
    decreases |run|
  {
    if run == [] then s else Exec(Do(s, run[0]), run[1..])
  }

  // ---------------------------------------------------------------- the invariant

  ghost predicate WriterInv(s: State) {
    && |s.published| == s.clock / 2 + 1
    && s.newest <= s.clock / 2
    && (s.writer.Resting? <==> s.clock % 2 == 0)
    && (s.writer.Resting? ==> s.data == s.published[s.clock / 2])
    && (forall v :: v in s.published ==> |v| == |s.data|)
    && (s.writer.Copying? ==>
          && |s.writer.value| == |s.data|
          && forall i: nat :: i < |s.data| && i !in s.writer.todo ==> s.data[i] == s.writer.value[i])
  }

  ghost predicate GotInv(s: State, g: Got) {
    g.span < WRAP ==>
      g.version < |s.published| && g.value == s.published[g.version] && g.floor <= g.version <= s.newest
  }

  ghost predicate LogInv(s: State, log: seq<Got>) {
    && (forall i :: 0 <= i < |log| ==> GotInv(s, log[i]))
    && (forall i, j :: 0 <= i < j < |log| && log[i].span < WRAP && log[j].span < WRAP ==>
          log[i].version <= log[j].version)
  }

  ghost predicate ReaderInv(s: State, rd: Reader) {
    && |rd.out| == |s.data|
    && LogInv(s, rd.log)
    && (!rd.pc.Outside? ==>
          && rd.floor <= s.newest
          && forall i :: 0 <= i < |rd.log| && rd.log[i].span < WRAP ==> rd.log[i].version <= rd.floor)
    && (rd.pc.CopyOut? ==>
          && rd.loadedAt % 2 == 0 && rd.s1 == rd.loadedAt % WRAP
          && 2 * rd.floor <= rd.loadedAt <= s.clock
          && (s.clock == rd.loadedAt ==>
                forall i: nat :: i < |s.data| && i !in rd.pc.todo ==> rd.out[i] == s.data[i]))
  }

  ghost predicate Inv(s: State) {
    WriterInv(s) && forall r :: r in s.readers ==> ReaderInv(s, s.readers[r])
  }

  lemma WriterStepKeepsInv(s: State, a: Step)
    requires Inv(s) && Enabled(s, a) && (a.WriteBegin? || a.WriteWord? || a.WriteEnd?)
    ensures Inv(Do(s, a))
  {
    var t := Do(s, a);
    if a.WriteEnd? {
      assert t.data == s.writer.value;
    }
    forall r | r in t.readers ensures ReaderInv(t, t.readers[r]) {
      var rd := s.readers[r];
      assert ReaderInv(s, rd);
      forall i | 0 <= i < |rd.log| ensures GotInv(t, rd.log[i]) {
        assert GotInv(s, rd.log[i]);
      }
    }
  }

  /** What a reader knows survives every step that leaves the shared payload and counter alone. */
  lemma ReaderFrame(s: State, t: State, rd: Reader)
    requires ReaderInv(s, rd)
    requires t.clock == s.clock && t.data == s.data && t.published == s.published && t.newest >= s.newest
    ensures ReaderInv(t, rd)
  {
    forall i | 0 <= i < |rd.log| ensures GotInv(t, rd.log[i]) {
      assert GotInv(s, rd.log[i]);
    }
  }

  lemma BeginAndLoad(s: State, a: Step)
    requires WriterInv(s) && Enabled(s, a) && (a.ReadBegin? || a.ReadLoad?)
    requires ReaderInv(s, ReaderOf(s, a.r))
    ensures var t := Do(s, a); ReaderInv(t, ReaderOf(t, a.r))
  {
    ReaderFrame(s, Do(s, a), ReaderOf(s, a.r));
    EvenClock(s.clock);
  }

  lemma EvenClock(c: nat)
    ensures (c % WRAP) % 2 == c % 2
  {
    assert c == (c / WRAP) * WRAP + c % WRAP;
  }

  lemma CopyWord(s: State, r: nat, i: nat)
    requires WriterInv(s) && Enabled(s, ReadWord(r, i))
    requires ReaderInv(s, ReaderOf(s, r))
    ensures var t := Do(s, ReadWord(r, i)); ReaderInv(t, ReaderOf(t, r))
  {
    ReaderFrame(s, Do(s, ReadWord(r, i)), ReaderOf(s, r));
  }

  lemma ReaderStepKeepsInv(s: State, a: Step)
    requires Inv(s) && Enabled(s, a) && (a.ReadBegin? || a.ReadLoad? || a.ReadWord? || a.ReadCheck?)
    ensures Inv(Do(s, a))
  {
    var t := Do(s, a);
    assert ReaderInv(s, ReaderOf(s, a.r));
    if a.ReadWord? {
      CopyWord(s, a.r, a.i);
    } else if a.ReadCheck? {
      ReaderAfterCheck(s, a.r);
    } else {
      BeginAndLoad(s, a);
    }
    forall r | r in t.readers ensures ReaderInv(t, t.readers[r]) {
      if r != a.r { ReaderFrame(s, t, s.readers[r]); }
    }
  }

  lemma SameResidue(a: nat, b: nat)
    requires a <= b && a % WRAP == b % WRAP && b - a < WRAP
    ensures a == b
  {
    assert b == a + (b - a);
    assert (b - a) % WRAP == b - a;
    ModOfDifference(a, b);
  }

  lemma ModOfDifference(a: nat, b: nat)
    requires a <= b && a % WRAP == b % WRAP
    ensures (b - a) % WRAP == 0
  {
    assert b - a == WRAP * (b / WRAP - a / WRAP);
  }

  /** The log grows only by a result that is right and no older than all before it. */
  lemma CheckSucceeds(s: State, rd: Reader, t: State, got: Got)
    requires WriterInv(s) && ReaderInv(s, rd) && rd.pc.CopyOut? && rd.pc.todo == {}
    requires Seq32(s) == rd.s1
    requires got == Got(rd.out, rd.loadedAt / 2, s.clock - rd.loadedAt, rd.floor)
    requires t == s.(readers := t.readers,
                     newest := if got.span < WRAP && got.version > s.newest then got.version else s.newest)
    ensures LogInv(t, rd.log + [got])
  {
    ReaderFrame(s, t, rd);
    if got.span < WRAP {
      SameResidue(rd.loadedAt, s.clock);
      assert rd.out == s.data;
    }
    assert GotInv(t, got);
  }

  lemma ReaderAfterCheck(s: State, r: nat)
    requires WriterInv(s) && Enabled(s, ReadCheck(r)) && ReaderInv(s, ReaderOf(s, r))
    ensures var t := Do(s, ReadCheck(r)); ReaderInv(t, ReaderOf(t, r)) && t.newest <= s.clock / 2
  {
    var t := Do(s, ReadCheck(r));
    var rd := ReaderOf(s, r);
    ReaderFrame(s, t, rd);
    if Seq32(s) == rd.s1 {
      CheckSucceeds(s, rd, t, Got(rd.out, rd.loadedAt / 2, s.clock - rd.loadedAt, rd.floor));
    }
  }

  lemma StepKeepsInv(s: State, a: Step)
    requires Inv(s) && Enabled(s, a)
    ensures Inv(Do(s, a))
  {
    if a.WriteBegin? || a.WriteWord? || a.WriteEnd? {
      WriterStepKeepsInv(s, a);
    } else {
      ReaderStepKeepsInv(s, a);
    }
  }

  lemma {:induction false} RunKeepsInv(s: State, run: seq<Step>)
    requires Inv(s) && Executable(s, run)
    ensures Inv(Exec(s, run))
    decreases |run|
  {
    if run != [] {
      StepKeepsInv(s, run[0]);
      RunKeepsInv(Do(s, run[0]), run[1..]);
    }
  }

  // ---------------------------------------------------------------- what it means

  /** A read that returns true yields exactly one value the writer published, never a mixture, and none older
      than what any read had returned before it began; unless the writer went through 2^31 whole writes
      between the reader's two loads of the counter. */
  lemma ReadsAreAtomic(v: Payload, run: seq<Step>, r: nat, i: nat)
    requires Executable(Initial(v), run)
    requires i < |ReaderOf(Exec(Initial(v), run), r).log|
    ensures var s := Exec(Initial(v), run);
            var g := ReaderOf(s, r).log[i];
            g.span < WRAP ==>
              g.version < |s.published| && g.value == s.published[g.version] && g.floor <= g.version
  {
    RunKeepsInv(Initial(v), run);
    var s := Exec(Initial(v), run);
    assert ReaderInv(s, s.readers[r]);
    assert GotInv(s, s.readers[r].log[i]);
  }

  /** Successive reads by one reader never go back to an older value. */
  lemma ReadsNeverGoBack(v: Payload, run: seq<Step>, r: nat, i: nat, j: nat)
    requires Executable(Initial(v), run)
    requires i < j < |ReaderOf(Exec(Initial(v), run), r).log|
    ensures var log := ReaderOf(Exec(Initial(v), run), r).log;
            log[i].span < WRAP && log[j].span < WRAP ==> log[i].version <= log[j].version
  {
    RunKeepsInv(Initial(v), run);
    var s := Exec(Initial(v), run);
    assert ReaderInv(s, s.readers[r]);
  }

  // ---------------------------------------------------------------- the wrap is a real limit

  lemma {:induction false} ExecAppend(s: State, a: seq<Step>, b: seq<Step>)
    requires Executable(s, a) && Executable(Exec(s, a), b)
    ensures Executable(s, a + b) && Exec(s, a + b) == Exec(Exec(s, a), b)
    decreases |a|
  {
    if a == [] {
      assert a + b == b;
    } else {
      assert (a + b)[0] == a[0] && (a + b)[1..] == a[1..] + b;
      ExecAppend(Do(s, a[0]), a[1..], b);
    }
  }

  const WRITE_TWO: seq<Step> := [WriteBegin([1, 1]), WriteWord(0), WriteWord(1), WriteEnd]

  lemma OneWrite(s: State)
    requires s.writer.Resting? && |s.data| == 2
    ensures Executable(s, WRITE_TWO)
    ensures var t := Exec(s, WRITE_TWO);
            t == s.(clock := s.clock + 2, data := [1, 1], published := s.published + [[1, 1]])
  {
    var s1 := Do(s, WriteBegin([1, 1]));
    assert 0 in s1.writer.todo && 1 in s1.writer.todo;
    var s2 := Do(s1, WriteWord(0));
    var s3 := Do(s2, WriteWord(1));
    assert s3.writer.todo == {};
    assert s3.data == [1, 1];
    var s4 := Do(s3, WriteEnd);
    assert WRITE_TWO[1..] == [WriteWord(0), WriteWord(1), WriteEnd];
    assert WRITE_TWO[1..][1..] == [WriteWord(1), WriteEnd];
    assert WRITE_TWO[1..][1..][1..] == [WriteEnd];
    assert WRITE_TWO[1..][1..][1..][1..] == [];
  }

  lemma {:induction false} ManyWrites(s: State, n: nat) returns (run: seq<Step>)
    requires s.writer.Resting? && |s.data| == 2
    ensures Executable(s, run)
    ensures var t := Exec(s, run);
            t.clock == s.clock + 2 * n && t.readers == s.readers && t.newest == s.newest
            && t.writer.Resting? && t.data == if n == 0 then s.data else [1, 1]
    decreases n
  {
    if n == 0 {
      run := [];
    } else {
      OneWrite(s);
      var rest := ManyWrites(Exec(s, WRITE_TWO), n - 1);
      ExecAppend(s, WRITE_TWO, rest);
      run := WRITE_TWO + rest;
    }
  }

  /** With 2^31 writes between its two loads a read does return a mixture: one word of the value [0, 0] it
      started with and one of [1, 1]. */
  lemma WrapTearsARead() returns (run: seq<Step>)
    ensures Executable(Initial([0, 0]), run)
    ensures var log := ReaderOf(Exec(Initial([0, 0]), run), 0).log;
            |log| == 1 && log[0].value == [0, 1] && log[0].span == WRAP
  {
    var s0 := Initial([0, 0]);
    var s1 := Do(s0, ReadBegin(0));
    var s2 := Do(s1, ReadLoad(0));
    assert 0 in ReaderOf(s2, 0).pc.todo && 1 in ReaderOf(s2, 0).pc.todo;
    var s3 := Do(s2, ReadWord(0, 0));
    var before := [ReadBegin(0), ReadLoad(0), ReadWord(0, 0)];
    assert before[1..] == [ReadLoad(0), ReadWord(0, 0)] && before[1..][1..] == [ReadWord(0, 0)];
    assert before[1..][1..][1..] == [];
    assert Executable(s0, before) && Exec(s0, before) == s3;
    var writes := ManyWrites(s3, 0x8000_0000);
    var s4 := Exec(s3, writes);
    var s5 := Do(s4, ReadWord(0, 1));
    assert ReaderOf(s5, 0).pc.todo == {};
    assert Seq32(s5) == 0;
    var after := [ReadWord(0, 1), ReadCheck(0)];
    assert after[1..] == [ReadCheck(0)] && after[1..][1..] == [];
    assert Executable(s4, after);
    ExecAppend(s3, writes, after);
    ExecAppend(s0, before, writes + after);
    run := before + (writes + after);
  }
}
