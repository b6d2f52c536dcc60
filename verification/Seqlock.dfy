/**
 The shared price pair and its sequence lock: one writer and any number of readers, every load and every
 store a step of its own, all loads and stores in one order.
 */
module Seqlock {
  import opened Types

  datatype Pair = Pair(curr: real, last: real)

  datatype Memory = Memory(sequence: nat, curr: real, last: real)

  /** Where the writer stands inside update_price; each name says what it has just done. */
  datatype WriterPc = Idle | LoadedSeq | Marked | LoadedCurr | StoredLast | StoredCurr

  datatype Writer = Writer(pc: WriterPc, number: nat, held: real, price: real)

  /** What the reader is about to load inside read_price. */
  datatype ReaderPc = Outside | First | Curr | Last | Second

  /**
   A finished call: what it returned, the moments it began, loaded `seq1` and ended, and those of its last
   loads of the two prices; None if it loaded none.
   */
  datatype Result = Result(
    number: nat, pair: Pair, startedAt: nat, loadedAt: nat, endedAt: nat, priceLoads: Option<(nat, nat)>)

  datatype Reader = Reader(
    pc: ReaderPc, seq1: nat, seq2: nat, out: Pair, startedAt: nat, loadedAt: nat,
    currAt: nat, priceLoads: Option<(nat, nat)>, results: seq<Result>)

  /** `history[k]` is the pair published with sequence number 2k; `clock` counts the steps. */
  datatype State = State(mem: Memory, writer: Writer, readers: seq<Reader>, history: seq<Pair>, clock: nat)

  /**
   The loop as its comment intends it, which starts over on an odd number, and as it is written, where
   `continue` jumps to the loop's test and compares with whatever `seq2` holds.
   */
  datatype Protocol = Intended | AsWritten

  /** `stale` is what the uninitialised `seq2` happens to hold, `out` what the caller's variables hold. */
  datatype Action =
    | BeginUpdate(price: real)
    | WriterStep
    | BeginRead(reader: nat, stale: nat, out: Pair)
    | ReaderStep(reader: nat)

  function Latest(s: State): Pair
    requires s.history != []
  {
    s.history[|s.history| - 1]
  }

  // ----- the steps

  function StepWriter(s: State): State {
    var w, m := s.writer, s.mem;
    match w.pc
    case Idle => s
    case LoadedSeq => s.(mem := m.(sequence := w.number + 1), writer := w.(pc := Marked))
    case Marked => s.(writer := w.(pc := LoadedCurr, held := m.curr))
    case LoadedCurr => s.(mem := m.(last := w.held), writer := w.(pc := StoredLast))
    case StoredLast => s.(mem := m.(curr := w.price), writer := w.(pc := StoredCurr))
    case StoredCurr =>
      s.(mem := m.(sequence := w.number + 2), writer := w.(pc := Idle),
         history := s.history + [Pair(m.curr, m.last)])
  }

  function Begin(r: Reader, stale: nat, out: Pair, now: nat): Reader {
    r.(pc := First, seq2 := stale, out := out, startedAt := now, priceLoads := None)
  }

  function Finish(r: Reader, now: nat): Reader {
    r.(pc := Outside, results := r.results + [Result(r.seq1, r.out, r.startedAt, r.loadedAt, now, r.priceLoads)])
  }

  function StepReader(p: Protocol, m: Memory, r: Reader, now: nat): Reader {
    match r.pc
    case Outside => r
    case First =>
      var r' := r.(seq1 := m.sequence, loadedAt := now);
      if m.sequence % 2 == 0 then r'.(pc := Curr)
      else if p == AsWritten && r'.seq1 == r'.seq2 then Finish(r', now + 1)
      else r'
    case Curr => r.(pc := Last, out := r.out.(curr := m.curr), currAt := now)
    case Last => r.(pc := Second, out := r.out.(last := m.last), priceLoads := Some((r.currAt, now)))
    case Second =>
      var r' := r.(seq2 := m.sequence);
      if r'.seq1 == r'.seq2 then Finish(r', now + 1) else r'.(pc := First)
  }

  /** One step of the whole system. An action that is not possible changes nothing. */
  function Step(p: Protocol, s: State, a: Action): State {
    var t := match a
      case BeginUpdate(price) =>
        if s.writer.pc == Idle then s.(writer := Writer(LoadedSeq, s.mem.sequence, 0.0, price)) else s
      case WriterStep => StepWriter(s)
      case BeginRead(i, stale, out) =>
        if i < |s.readers| && s.readers[i].pc == Outside then
          var r := Begin(s.readers[i], stale, out, s.clock);
          s.(readers := s.readers[i := r])
        else s
      case ReaderStep(i) =>
        if i < |s.readers| then
          s.(readers := s.readers[i := StepReader(p, s.mem, s.readers[i], s.clock)])
        else s;
    t.(clock := s.clock + 1)
  }

  function Init(pair: Pair, readers: nat): State {
    State(Memory(0, pair.curr, pair.last), Writer(Idle, 0, 0.0, 0.0),
          seq(readers, _ => Reader(Outside, 0, 0, pair, 0, 0, 0, None, [])), [pair], 0)
  }

  /** The state after a schedule of actions. */
  function Run(p: Protocol, init: State, schedule: seq<Action>): State {
    if schedule == [] then init
    else Step(p, Run(p, init, schedule[..|schedule| - 1]), schedule[|schedule| - 1])
  }

  // ----- the invariant

  /** Memory against the history: between stores of an update the sequence number is odd. */
  ghost predicate WriterInv(s: State) {
    && s.history != []
    && var w, m, n := s.writer, s.mem, 2 * (|s.history| - 1);
       match w.pc
       case Idle => m == Memory(n, Latest(s).curr, Latest(s).last)
       case LoadedSeq => m == Memory(n, Latest(s).curr, Latest(s).last) && w.number == n
       case Marked => m == Memory(n + 1, Latest(s).curr, Latest(s).last) && w.number == n
       case LoadedCurr => m == Memory(n + 1, Latest(s).curr, Latest(s).last) && w.number == n && w.held == m.curr
       case StoredLast => m == Memory(n + 1, Latest(s).curr, Latest(s).curr) && w.number == n
       case StoredCurr => m == Memory(n + 1, w.price, Latest(s).curr) && w.number == n
  }

  /**
   With `number` in memory: what a reader has loaded so far is the published pair as long as the number
   has not moved, and every even result is a published pair.
   */
  ghost predicate ReaderInv(number: nat, history: seq<Pair>, r: Reader) {
    && (r.pc == Curr || r.pc == Last || r.pc == Second ==>
          r.seq1 % 2 == 0 && r.seq1 <= number && r.seq1 / 2 < |history|)
    && (r.pc == Last && r.seq1 == number ==> r.out.curr == history[r.seq1 / 2].curr)
    && (r.pc == Second && r.seq1 == number ==> r.out == history[r.seq1 / 2])
    && (forall k :: 0 <= k < |r.results| && r.results[k].number % 2 == 0 ==>
          r.results[k].number / 2 < |history| && r.results[k].pair == history[r.results[k].number / 2])
  }

  ghost predicate Inv(s: State) {
    WriterInv(s) && forall i :: 0 <= i < |s.readers| ==> ReaderInv(s.mem.sequence, s.history, s.readers[i])
  }

  /** An even number means that memory holds exactly the latest publication, and which one it is. */
  lemma EvenMeansPublished(s: State)
    requires WriterInv(s) && s.mem.sequence % 2 == 0
    ensures s.mem == Memory(s.mem.sequence, Latest(s).curr, Latest(s).last)
    ensures |s.history| == s.mem.sequence / 2 + 1
  {
  }

  lemma WriterStepKeepsInv(s: State)
    requires WriterInv(s)
    ensures WriterInv(StepWriter(s)) && s.history <= StepWriter(s).history
    ensures s.mem.sequence <= StepWriter(s).mem.sequence
    ensures forall r :: ReaderInv(s.mem.sequence, s.history, r) ==>
              ReaderInv(StepWriter(s).mem.sequence, StepWriter(s).history, r)
  {
    assert |s.history| >= 1 && s.mem.sequence >= 2 * (|s.history| - 1);
  }

  lemma ReaderStepKeepsInv(p: Protocol, s: State, r: Reader, now: nat)
    requires WriterInv(s) && ReaderInv(s.mem.sequence, s.history, r)
    ensures ReaderInv(s.mem.sequence, s.history, StepReader(p, s.mem, r, now))
  {
  }

  lemma UpdatedReaderKeepsInv(s: State, i: nat, r: Reader)
    requires Inv(s) && i < |s.readers| && ReaderInv(s.mem.sequence, s.history, r)
    ensures Inv(s.(readers := s.readers[i := r], clock := s.clock + 1))
  {
  }

  lemma StepKeepsInv(p: Protocol, s: State, a: Action)
    requires Inv(s)
    ensures Inv(Step(p, s, a))
    ensures s.history <= Step(p, s, a).history && s.mem.sequence <= Step(p, s, a).mem.sequence
  {
    match a
    case BeginUpdate(price) =>
    case WriterStep => WriterStepKeepsInv(s);
    case BeginRead(i, stale, out) =>
      if i < |s.readers| && s.readers[i].pc == Outside {
        var r := Begin(s.readers[i], stale, out, s.clock);
        assert ReaderInv(s.mem.sequence, s.history, s.readers[i]);
        UpdatedReaderKeepsInv(s, i, r);
      }
    case ReaderStep(i) =>
      if i < |s.readers| {
        ReaderStepKeepsInv(p, s, s.readers[i], s.clock);
        UpdatedReaderKeepsInv(s, i, StepReader(p, s.mem, s.readers[i], s.clock));
      }
  }

  lemma {:induction false} RunInv(p: Protocol, pair: Pair, readers: nat, schedule: seq<Action>)
    ensures Inv(Run(p, Init(pair, readers), schedule))
  {
    if schedule != [] {
      RunInv(p, pair, readers, schedule[..|schedule| - 1]);
      StepKeepsInv(p, Run(p, Init(pair, readers), schedule[..|schedule| - 1]), schedule[|schedule| - 1]);
    }
  }

  /** Earlier states have a smaller sequence number and a shorter history. */
  lemma {:induction false} RunMonotonic(p: Protocol, pair: Pair, readers: nat, schedule: seq<Action>, k: nat)
    requires k <= |schedule|
    ensures var s, t := Run(p, Init(pair, readers), schedule[..k]), Run(p, Init(pair, readers), schedule);
            s.history <= t.history && s.mem.sequence <= t.mem.sequence
  {
    if k == |schedule| {
      assert schedule[..k] == schedule;
    } else {
      var front := schedule[..|schedule| - 1];
      assert front[..k] == schedule[..k];
      RunMonotonic(p, pair, readers, front, k);
      RunInv(p, pair, readers, front);
      StepKeepsInv(p, Run(p, Init(pair, readers), front), schedule[|schedule| - 1]);
    }
  }

  // ----- the recorded moments are true

  /** The sequence number in memory when step `k` of the schedule was about to be taken. */
  function NumberAt(p: Protocol, init: State, schedule: seq<Action>, k: nat): nat
    requires k <= |schedule|
  {
    Run(p, init, schedule[..k]).mem.sequence
  }

  /** A finished call loaded its number between its start and its end, and the calls do not overlap. */
  ghost predicate ResultsTimed(p: Protocol, init: State, schedule: seq<Action>, results: seq<Result>) {
    && (forall k :: 0 <= k < |results| ==>
          && results[k].startedAt <= results[k].loadedAt < results[k].endedAt <= |schedule|
          && NumberAt(p, init, schedule, results[k].loadedAt) == results[k].number)
    && (forall j, k :: 0 <= j < k < |results| ==> results[j].endedAt <= results[k].startedAt)
  }

  ghost predicate Timed(p: Protocol, init: State, schedule: seq<Action>, r: Reader) {
    && ResultsTimed(p, init, schedule, r.results)
    && (r.pc != Outside ==>
          && r.startedAt <= |schedule|
          && forall k :: 0 <= k < |r.results| ==> r.results[k].endedAt <= r.startedAt)
    && (r.pc == Curr || r.pc == Last || r.pc == Second ==>
          && r.startedAt <= r.loadedAt < |schedule|
          && NumberAt(p, init, schedule, r.loadedAt) == r.seq1)
  }

  /** What was true of a schedule's moments stays true when the schedule goes on. */
  lemma TimedExtends(p: Protocol, init: State, front: seq<Action>, a: Action, r: Reader)
    requires Timed(p, init, front, r)
    ensures Timed(p, init, front + [a], r)
  {
    assert forall k :: 0 <= k <= |front| ==> (front + [a])[..k] == front[..k];
    assert forall k :: 0 <= k <= |front| ==> NumberAt(p, init, front + [a], k) == NumberAt(p, init, front, k);
  }

  lemma FinishTimed(p: Protocol, init: State, front: seq<Action>, a: Action, r: Reader)
    requires ResultsTimed(p, init, front + [a], r.results)
    requires forall k :: 0 <= k < |r.results| ==> r.results[k].endedAt <= r.startedAt
    requires r.startedAt <= r.loadedAt <= |front|
    requires NumberAt(p, init, front + [a], r.loadedAt) == r.seq1
    ensures ResultsTimed(p, init, front + [a], Finish(r, |front| + 1).results)
  {
  }

  lemma ReaderStepTimed(p: Protocol, init: State, front: seq<Action>, a: Action, r: Reader)
    requires Timed(p, init, front, r) && Timed(p, init, front + [a], r)
    ensures Timed(p, init, front + [a], StepReader(p, Run(p, init, front).mem, r, |front|))
  {
    assert (front + [a])[..|front|] == front;
    var m := Run(p, init, front).mem;
    assert NumberAt(p, init, front + [a], |front|) == m.sequence;
    match r.pc
    case First => FinishTimed(p, init, front, a, r.(seq1 := m.sequence, loadedAt := |front|));
    case Second => FinishTimed(p, init, front, a, r.(seq2 := m.sequence));
    case _ =>
  }

  lemma {:induction false} RunTimed(p: Protocol, pair: Pair, readers: nat, schedule: seq<Action>)
    ensures Run(p, Init(pair, readers), schedule).clock == |schedule|
    ensures var s := Run(p, Init(pair, readers), schedule);
            forall i :: 0 <= i < |s.readers| ==> Timed(p, Init(pair, readers), schedule, s.readers[i])
  {
    if schedule != [] {
      var init, front, a := Init(pair, readers), schedule[..|schedule| - 1], schedule[|schedule| - 1];
      RunTimed(p, pair, readers, front);
      var s, t := Run(p, init, front), Run(p, init, schedule);
      assert front + [a] == schedule;
      forall i | 0 <= i < |t.readers| ensures Timed(p, init, schedule, t.readers[i]) {
        var r := s.readers[i];
        TimedExtends(p, init, front, a, r);
        ReaderStepTimed(p, init, front, a, r);
      }
    }
  }

  // ----- main results

  /** An even result against the state its number was loaded in, and any later state. */
  lemma EvenResult(at: State, s: State, r: Reader, k: nat)
    requires WriterInv(at) && at.history <= s.history
    requires ReaderInv(s.mem.sequence, s.history, r)
    requires k < |r.results| && r.results[k].number % 2 == 0 && at.mem.sequence == r.results[k].number
    ensures r.results[k].number / 2 < |s.history| && r.results[k].pair == s.history[r.results[k].number / 2]
    ensures at.mem == Memory(r.results[k].number, r.results[k].pair.curr, r.results[k].pair.last)
    ensures at.history == s.history[..r.results[k].number / 2 + 1]
  {
    EvenMeansPublished(at);
  }

  /** The moments recorded in one result. */
  lemma LoadMoment(p: Protocol, pair: Pair, readers: nat, schedule: seq<Action>, i: nat, k: nat)
    requires i < |Run(p, Init(pair, readers), schedule).readers|
    requires k < |Run(p, Init(pair, readers), schedule).readers[i].results|
    ensures var r := Run(p, Init(pair, readers), schedule).readers[i].results[k];
            && r.startedAt <= r.loadedAt < r.endedAt <= |schedule|
            && Run(p, Init(pair, readers), schedule[..r.loadedAt]).mem.sequence == r.number
  {
    var init := Init(pair, readers);
    RunTimed(p, pair, readers, schedule);
    assert Timed(p, init, schedule, Run(p, init, schedule).readers[i]);
    var r := Run(p, init, schedule).readers[i].results[k];
    assert NumberAt(p, init, schedule, r.loadedAt) == r.number;
  }

  /**
   Every call that exits on an even number, in every interleaving and under either reading of the loop,
   returns exactly publication number/2, and that publication was in memory, whole and the latest, at the
   moment the call loaded its number.
   */
  lemma EvenExitIsLinearizable(p: Protocol, pair: Pair, readers: nat, schedule: seq<Action>, i: nat, k: nat)
    requires i < |Run(p, Init(pair, readers), schedule).readers|
    requires k < |Run(p, Init(pair, readers), schedule).readers[i].results|
    requires Run(p, Init(pair, readers), schedule).readers[i].results[k].number % 2 == 0
    ensures var s := Run(p, Init(pair, readers), schedule);
            var r := s.readers[i].results[k];
            && r.startedAt <= r.loadedAt < r.endedAt <= |schedule|
            && r.number / 2 < |s.history| && r.pair == s.history[r.number / 2]
            && var at := Run(p, Init(pair, readers), schedule[..r.loadedAt]);
               && at.mem == Memory(r.number, r.pair.curr, r.pair.last)
               && at.history == s.history[..r.number / 2 + 1]
  {
    var init := Init(pair, readers);
    var s := Run(p, init, schedule);
    var r := s.readers[i].results[k];
    LoadMoment(p, pair, readers, schedule, i, k);
    RunInv(p, pair, readers, schedule);
    assert ReaderInv(s.mem.sequence, s.history, s.readers[i]);
    RunInv(p, pair, readers, schedule[..r.loadedAt]);
    RunMonotonic(p, pair, readers, schedule, r.loadedAt);
    EvenResult(Run(p, init, schedule[..r.loadedAt]), s, s.readers[i], k);
  }

  /** One reader's successive results never go back in the writer's history. */
  lemma ResultsNeverGoBack(p: Protocol, pair: Pair, readers: nat, schedule: seq<Action>, i: nat, j: nat, k: nat)
    requires i < |Run(p, Init(pair, readers), schedule).readers|
    requires j < k < |Run(p, Init(pair, readers), schedule).readers[i].results|
    ensures var results := Run(p, Init(pair, readers), schedule).readers[i].results;
            results[j].number <= results[k].number
  {
    var init := Init(pair, readers);
    var results := Run(p, init, schedule).readers[i].results;
    RunTimed(p, pair, readers, schedule);
    assert Timed(p, init, schedule, Run(p, init, schedule).readers[i]);
    var later := schedule[..results[k].loadedAt];
    assert later[..results[j].loadedAt] == schedule[..results[j].loadedAt];
    RunMonotonic(p, pair, readers, later, results[j].loadedAt);
  }

  ghost predicate ExitsEven(r: Reader) {
    forall k :: 0 <= k < |r.results| ==> r.results[k].number % 2 == 0
  }

  ghost predicate AllExitsEven(rs: seq<Reader>) {
    forall i :: 0 <= i < |rs| ==> ExitsEven(rs[i])
  }

  lemma IntendedStepEven(s: State, a: Action)
    requires AllExitsEven(s.readers) && Inv(s)
    ensures AllExitsEven(Step(Intended, s, a).readers)
  {
    if a.ReaderStep? && a.reader < |s.readers| {
      assert ReaderInv(s.mem.sequence, s.history, s.readers[a.reader]);
    }
  }

  /** The intended loop only ever exits on an even number, so all its results are linearizable. */
  lemma {:induction false} IntendedExitsEven(pair: Pair, readers: nat, schedule: seq<Action>)
    ensures AllExitsEven(Run(Intended, Init(pair, readers), schedule).readers)
  {
    if schedule != [] {
      var front := schedule[..|schedule| - 1];
      IntendedExitsEven(pair, readers, front);
      RunInv(Intended, pair, readers, front);
      IntendedStepEven(Run(Intended, Init(pair, readers), front), schedule[|schedule| - 1]);
    }
  }

  /** The loop as written finds an odd number that equals the value `seq2` still holds. */
  predicate StaleOdd(s: State, a: Action) {
    && a.ReaderStep? && a.reader < |s.readers| && s.readers[a.reader].pc == First
    && s.mem.sequence % 2 == 1 && s.readers[a.reader].seq2 == s.mem.sequence
  }

  /** The loop as written takes the intended step except on a stale odd number, where it returns. */
  lemma CodeDeviatesExactlyOnStaleOdd(s: State, a: Action)
    ensures Step(AsWritten, s, a) == Step(Intended, s, a) <==> !StaleOdd(s, a)
  {
    if a.ReaderStep? && a.reader < |s.readers| {
      var r := s.readers[a.reader];
      var code, intended := StepReader(AsWritten, s.mem, r, s.clock), StepReader(Intended, s.mem, r, s.clock);
      assert Step(AsWritten, s, a).readers[a.reader] == code;
      assert Step(Intended, s, a).readers[a.reader] == intended;
    }
  }

  /** One step of one reader, as written: only a stale odd number adds an odd exit. */
  lemma ReaderStepExits(m: Memory, history: seq<Pair>, r: Reader, now: nat)
    requires ReaderInv(m.sequence, history, r)
    ensures ExitsEven(StepReader(AsWritten, m, r, now)) <==>
            ExitsEven(r) && !(r.pc == First && m.sequence % 2 == 1 && r.seq2 == m.sequence)
  {
    var t := StepReader(AsWritten, m, r, now);
    if t.results != r.results {
      var n := |r.results|;
      assert t.results[..n] == r.results;
      assert forall k :: 0 <= k < n ==> t.results[k] == r.results[k];
      assert t.results[n].number == if r.pc == First then m.sequence else r.seq1;
    }
  }

  lemma UpdatedReaderExits(rs: seq<Reader>, i: nat, r: Reader, even: bool)
    requires i < |rs| && (ExitsEven(r) <==> ExitsEven(rs[i]) && even)
    ensures even ==> (AllExitsEven(rs[i := r]) <==> AllExitsEven(rs))
    ensures !even ==> !AllExitsEven(rs[i := r])
  {
    hide ExitsEven;
    assert rs[i := r][i] == r;
    assert forall j :: 0 <= j < |rs| && j != i ==> rs[i := r][j] == rs[j];
  }

  lemma SameExits(r: Reader, t: Reader)
    requires r.results == t.results
    ensures ExitsEven(r) <==> ExitsEven(t)
  {
  }

  lemma WriterKeepsReaders(s: State)
    ensures StepWriter(s).readers == s.readers
  {
  }

  lemma CodeStepExits(s: State, a: Action)
    requires Inv(s)
    ensures AllExitsEven(Step(AsWritten, s, a).readers) <==> AllExitsEven(s.readers) && !StaleOdd(s, a)
  {
    hide AllExitsEven, ExitsEven, WriterInv, StepReader, StepWriter, ReaderInv;
    var t := Step(AsWritten, s, a);
    match a
    case BeginUpdate(_) =>
    case WriterStep => WriterKeepsReaders(s);
    case ReaderStep(i) =>
      if i < |s.readers| {
        var r := StepReader(AsWritten, s.mem, s.readers[i], s.clock);
        ReaderStepExits(s.mem, s.history, s.readers[i], s.clock);
        UpdatedReaderExits(s.readers, i, r, !StaleOdd(s, a));
      }
    case BeginRead(i, stale, out) =>
      if i < |s.readers| && s.readers[i].pc == Outside {
        var r := Begin(s.readers[i], stale, out, s.clock);
        SameExits(r, s.readers[i]);
        UpdatedReaderExits(s.readers, i, r, true);
      }
  }

  /** No step of the run, as written, meets a stale odd number. */
  ghost predicate NeverStaleOdd(init: State, schedule: seq<Action>) {
    forall k :: 0 <= k < |schedule| ==> !StaleOdd(Run(AsWritten, init, schedule[..k]), schedule[k])
  }

  lemma NeverStaleOddNext(init: State, schedule: seq<Action>)
    requires schedule != []
    ensures var front, last := schedule[..|schedule| - 1], schedule[|schedule| - 1];
            NeverStaleOdd(init, schedule) <==>
            NeverStaleOdd(init, front) && !StaleOdd(Run(AsWritten, init, front), last)
  {
    hide Run, StaleOdd;
    var n := |schedule| - 1;
    assert forall k :: 0 <= k < n ==> schedule[..n][..k] == schedule[..k];
  }

  lemma NoExitsYet(pair: Pair, readers: nat)
    ensures AllExitsEven(Init(pair, readers).readers)
  {
  }

  /**
   Over every run of the loop as written: all calls exit on even numbers exactly if no step of the run ever
   meets a stale odd number; it is then a run of the intended loop, and all calls return publications.
   */
  lemma {:induction false} CodeExitsEvenIff(pair: Pair, readers: nat, schedule: seq<Action>)
    ensures AllExitsEven(Run(AsWritten, Init(pair, readers), schedule).readers) <==>
            NeverStaleOdd(Init(pair, readers), schedule)
    ensures NeverStaleOdd(Init(pair, readers), schedule) ==>
            Run(AsWritten, Init(pair, readers), schedule) == Run(Intended, Init(pair, readers), schedule)
  {
    if schedule == [] {
      NoExitsYet(pair, readers);
    } else {
      hide AllExitsEven, NeverStaleOdd, StaleOdd, Step, Init;
      var init, front, last := Init(pair, readers), schedule[..|schedule| - 1], schedule[|schedule| - 1];
      CodeExitsEvenIff(pair, readers, front);
      RunInv(AsWritten, pair, readers, front);
      NeverStaleOddNext(init, schedule);
      CodeStepExits(Run(AsWritten, init, front), last);
      CodeDeviatesExactlyOnStaleOdd(Run(AsWritten, init, front), last);
    }
  }

  // ----- what an exit returns, odd or even

  /** The publications made so far, and the one that an update in progress is going to make. */
  function Coming(s: State): seq<Pair>
    requires s.history != []
  {
    s.history + if s.writer.pc == Idle then [] else [Pair(s.writer.price, Latest(s).curr)]
  }

  /** The publications that the two prices in memory belong to: within an update they can differ by one. */
  function CurrVersion(s: State): nat
    requires s.history != []
  {
    |s.history| - 1 + if s.writer.pc == StoredCurr then 1 else 0
  }

  function LastVersion(s: State): nat
    requires s.history != []
  {
    |s.history| - 1 + if s.writer.pc == StoredLast || s.writer.pc == StoredCurr then 1 else 0
  }

  lemma MemoryIsOfVersions(s: State)
    requires WriterInv(s)
    ensures CurrVersion(s) <= LastVersion(s) < |Coming(s)|
    ensures s.mem.curr == Coming(s)[CurrVersion(s)].curr && s.mem.last == Coming(s)[LastVersion(s)].last
  {
  }

  lemma WriterVersionsRise(s: State)
    requires WriterInv(s)
    ensures WriterInv(StepWriter(s)) && Coming(s) <= Coming(StepWriter(s))
    ensures CurrVersion(s) <= CurrVersion(StepWriter(s)) && LastVersion(s) <= LastVersion(StepWriter(s))
  {
  }

  lemma VersionsRise(p: Protocol, s: State, a: Action)
    requires WriterInv(s)
    ensures Step(p, s, a).history != [] && Coming(s) <= Coming(Step(p, s, a))
    ensures CurrVersion(s) <= CurrVersion(Step(p, s, a)) && LastVersion(s) <= LastVersion(Step(p, s, a))
  {
    hide StepReader, StepWriter, Begin;
    match a
    case WriterStep => WriterVersionsRise(s);
    case _ =>
  }

  lemma {:induction false} RunVersionsRise(p: Protocol, pair: Pair, readers: nat, schedule: seq<Action>, k: nat)
    requires k <= |schedule|
    ensures var s, t := Run(p, Init(pair, readers), schedule[..k]), Run(p, Init(pair, readers), schedule);
            && WriterInv(s) && WriterInv(t) && Coming(s) <= Coming(t)
            && CurrVersion(s) <= CurrVersion(t) && LastVersion(s) <= LastVersion(t)
  {
    RunInv(p, pair, readers, schedule);
    if k == |schedule| {
      assert schedule[..k] == schedule;
    } else {
      hide WriterInv, Coming, CurrVersion, LastVersion, Step, Init;
      var front := schedule[..|schedule| - 1];
      assert front[..k] == schedule[..k];
      RunVersionsRise(p, pair, readers, front, k);
      VersionsRise(p, Run(p, Init(pair, readers), front), schedule[|schedule| - 1]);
    }
  }

  /** The memory when step `k` of the schedule was about to be taken. */
  function MemoryAt(p: Protocol, init: State, schedule: seq<Action>, k: nat): Memory
    requires k <= |schedule|
  {
    Run(p, init, schedule[..k]).mem
  }

  /** The two prices are those in memory at the two moments of their loads. */
  predicate LoadedThen(
      p: Protocol, init: State, schedule: seq<Action>, out: Pair, startedAt: nat, loads: (nat, nat), end: nat)
  {
    && startedAt <= loads.0 < loads.1 < end <= |schedule|
    && MemoryAt(p, init, schedule, loads.0).curr == out.curr
    && MemoryAt(p, init, schedule, loads.1).last == out.last
  }

  predicate ResultLoaded(p: Protocol, init: State, schedule: seq<Action>, r: Result) {
    && (r.number % 2 == 0 ==> r.priceLoads.Some?)
    && (r.priceLoads.Some? ==>
          LoadedThen(p, init, schedule, r.pair, r.startedAt, r.priceLoads.value, r.endedAt))
  }

  predicate AllLoaded(p: Protocol, init: State, schedule: seq<Action>, results: seq<Result>) {
    forall k :: 0 <= k < |results| ==> ResultLoaded(p, init, schedule, results[k])
  }

  predicate ReaderLoaded(p: Protocol, init: State, schedule: seq<Action>, r: Reader) {
    && AllLoaded(p, init, schedule, r.results)
    && (r.pc != Outside ==> r.startedAt <= |schedule|)
    && (r.pc == Curr || r.pc == Last || r.pc == Second ==> r.seq1 % 2 == 0)
    && (r.pc == Last ==>
          r.startedAt <= r.currAt < |schedule| && MemoryAt(p, init, schedule, r.currAt).curr == r.out.curr)
    && (r.pc == Second ==> r.priceLoads.Some?)
    && (r.pc == First || r.pc == Curr || r.pc == Second ==>
          r.priceLoads.Some? ==>
            LoadedThen(p, init, schedule, r.out, r.startedAt, r.priceLoads.value, |schedule|))
  }

  lemma EarlierMemory(p: Protocol, init: State, front: seq<Action>, a: Action)
    ensures forall k :: 0 <= k <= |front| ==> MemoryAt(p, init, front + [a], k) == MemoryAt(p, init, front, k)
  {
    assert forall k :: 0 <= k <= |front| ==> (front + [a])[..k] == front[..k];
  }

  lemma LoadedExtends(p: Protocol, init: State, front: seq<Action>, a: Action, r: Reader)
    requires ReaderLoaded(p, init, front, r)
    ensures ReaderLoaded(p, init, front + [a], r)
  {
    hide MemoryAt;
    EarlierMemory(p, init, front, a);
    forall k | 0 <= k < |r.results| ensures ResultLoaded(p, init, front + [a], r.results[k]) {
      assert ResultLoaded(p, init, front, r.results[k]);
    }
  }

  lemma FinishLoaded(p: Protocol, init: State, schedule: seq<Action>, r: Reader)
    requires AllLoaded(p, init, schedule, r.results) && (r.seq1 % 2 == 0 ==> r.priceLoads.Some?)
    requires r.priceLoads.Some? ==> LoadedThen(p, init, schedule, r.out, r.startedAt, r.priceLoads.value, |schedule|)
    ensures AllLoaded(p, init, schedule, Finish(r, |schedule|).results)
  {
  }

  lemma ReaderStepLoaded(p: Protocol, init: State, front: seq<Action>, a: Action, r: Reader)
    requires ReaderLoaded(p, init, front + [a], r) && (r.pc != Outside ==> r.startedAt <= |front|)
    requires r.pc == Last ==> r.currAt < |front|
    ensures ReaderLoaded(p, init, front + [a], StepReader(p, Run(p, init, front).mem, r, |front|))
  {
    var m := Run(p, init, front).mem;
    assert MemoryAt(p, init, front + [a], |front|) == m by {
      assert (front + [a])[..|front|] == front;
    }
    hide MemoryAt, AllLoaded;
    match r.pc
    case First =>
      if m.sequence % 2 != 0 {
        FinishLoaded(p, init, front + [a], r.(seq1 := m.sequence, loadedAt := |front|));
      }
    case Second => FinishLoaded(p, init, front + [a], r.(seq2 := m.sequence));
    case _ =>
  }

  lemma {:induction false} RunLoaded(p: Protocol, pair: Pair, readers: nat, schedule: seq<Action>)
    ensures var s := Run(p, Init(pair, readers), schedule);
            forall i :: 0 <= i < |s.readers| ==> ReaderLoaded(p, Init(pair, readers), schedule, s.readers[i])
  {
    if schedule != [] {
      var init, front, a := Init(pair, readers), schedule[..|schedule| - 1], schedule[|schedule| - 1];
      RunLoaded(p, pair, readers, front);
      RunTimed(p, pair, readers, front);
      assert front + [a] == schedule;
      var s, t := Run(p, init, front), Run(p, init, schedule);
      hide Timed, AllLoaded, LoadedThen, MemoryAt, StepReader, Init;
      forall i | 0 <= i < |t.readers| ensures ReaderLoaded(p, init, schedule, t.readers[i]) {
        var r := s.readers[i];
        LoadedExtends(p, init, front, a, r);
        ReaderStepLoaded(p, init, front, a, r);
      }
    }
  }

  /**
   Every call that loads the prices, under either reading of the loop and on whatever number it exits,
   returns the current price of one publication and the last price of the same or a later one, made or in
   the making: those in memory at its two loads. So an odd exit is whole whenever the writer has not stored a
   new last price before the second load while the first still found the price before it.
   */
  lemma ExitIsOfItsLoads(p: Protocol, pair: Pair, readers: nat, schedule: seq<Action>, i: nat, k: nat)
    requires i < |Run(p, Init(pair, readers), schedule).readers|
    requires k < |Run(p, Init(pair, readers), schedule).readers[i].results|
    requires Run(p, Init(pair, readers), schedule).readers[i].results[k].priceLoads.Some?
    ensures var s := Run(p, Init(pair, readers), schedule);
            var r := s.readers[i].results[k];
            var (c, l) := r.priceLoads.value;
            && r.startedAt <= c < l < r.endedAt <= |schedule|
            && var atCurr := Run(p, Init(pair, readers), schedule[..c]);
               var atLast := Run(p, Init(pair, readers), schedule[..l]);
               && s.history != [] && atCurr.history != [] && atLast.history != []
               && CurrVersion(atCurr) <= LastVersion(atLast) < |Coming(s)|
               && r.pair == Pair(Coming(s)[CurrVersion(atCurr)].curr, Coming(s)[LastVersion(atLast)].last)
               && (CurrVersion(atCurr) == LastVersion(atLast) ==> r.pair == Coming(s)[CurrVersion(atCurr)])
  {
    var init := Init(pair, readers);
    var s := Run(p, init, schedule);
    var r := s.readers[i].results[k];
    RunLoaded(p, pair, readers, schedule);
    assert ReaderLoaded(p, init, schedule, s.readers[i]) && ResultLoaded(p, init, schedule, r);
    var c, l := r.priceLoads.value.0, r.priceLoads.value.1;
    hide Run, Coming, CurrVersion, LastVersion, WriterInv, Init;
    RunVersionsRise(p, pair, readers, schedule, c);
    RunVersionsRise(p, pair, readers, schedule, l);
    assert schedule[..l][..c] == schedule[..c];
    RunVersionsRise(p, pair, readers, schedule[..l], c);
    MemoryIsOfVersions(Run(p, init, schedule[..c]));
    MemoryIsOfVersions(Run(p, init, schedule[..l]));
  }

  // ----- runs given step by step

  /** A run is its list of states. */
  lemma {:induction false} RunSteps(p: Protocol, states: seq<State>, acts: seq<Action>)
    requires |states| == |acts| + 1
    requires forall i :: 0 <= i < |acts| ==> states[i + 1] == Step(p, states[i], acts[i])
    ensures Run(p, states[0], acts) == states[|acts|]
  {
    if acts != [] {
      RunSteps(p, states[..|acts|], acts[..|acts| - 1]);
    }
  }

  lemma {:induction false} RunConcat(p: Protocol, s: State, a: seq<Action>, b: seq<Action>)
    ensures Run(p, s, a + b) == Run(p, Run(p, s, a), b)
  {
    if b == [] {
      assert a + b == a;
    } else {
      assert (a + b)[..|a + b| - 1] == a + b[..|b| - 1];
      RunConcat(p, s, a, b[..|b| - 1]);
    }
  }

  /** Without interference a call takes four steps and returns the latest publication. */
  lemma QuietReadReturnsLatest(p: Protocol, s: State, i: nat, stale: nat, out: Pair)
    requires Inv(s) && s.mem.sequence % 2 == 0
    requires i < |s.readers| && s.readers[i].pc == Outside
    ensures var t := Run(p, s, [BeginRead(i, stale, out), ReaderStep(i), ReaderStep(i), ReaderStep(i), ReaderStep(i)]);
            && t.mem == s.mem && |t.readers| == |s.readers| && t.readers[i].pc == Outside
            && |t.readers[i].results| == |s.readers[i].results| + 1
            && t.readers[i].results[|s.readers[i].results|].pair == Latest(s)
  {
    var call := [BeginRead(i, stale, out), ReaderStep(i), ReaderStep(i), ReaderStep(i), ReaderStep(i)];
    EvenMeansPublished(s);
    var s1 := Step(p, s, call[0]);
    var s2 := Step(p, s1, call[1]);
    var s3 := Step(p, s2, call[2]);
    var s4 := Step(p, s3, call[3]);
    RunSteps(p, [s, s1, s2, s3, s4, Step(p, s4, call[4])], call);
    assert s2.readers[i].pc == Curr && s2.readers[i].seq1 == s.mem.sequence;
    assert s3.readers[i].out.curr == s.mem.curr;
    assert s4.readers[i].out == Pair(s.mem.curr, s.mem.last);
  }

  function UpdateSteps(price: real): seq<Action> {
    [BeginUpdate(price), WriterStep, WriterStep, WriterStep, WriterStep, WriterStep]
  }

  /** One whole update advances the number by two, shifts the prices by one and publishes the new pair. */
  lemma UpdateStepsPublish(p: Protocol, s: State, price: real)
    requires s.writer.pc == Idle
    ensures var t := Run(p, s, UpdateSteps(price));
            && t.mem == Memory(s.mem.sequence + 2, price, s.mem.curr)
            && t.history == s.history + [Pair(price, s.mem.curr)]
            && t.readers == s.readers && t.writer.pc == Idle
  {
    var acts := UpdateSteps(price);
    var s1 := Step(p, s, acts[0]);
    var s2 := Step(p, s1, acts[1]);
    var s3 := Step(p, s2, acts[2]);
    var s4 := Step(p, s3, acts[3]);
    var s5 := Step(p, s4, acts[4]);
    var s6 := Step(p, s5, acts[5]);
    RunSteps(p, [s, s1, s2, s3, s4, s5, s6], acts);
  }

  // ----- the odd exit

  /** The reader loads the current price, then the writer stores the new last price. */
  function Overtaken(price: real, out: Pair): seq<Action> {
    [BeginRead(0, 0, out), ReaderStep(0), ReaderStep(0), BeginUpdate(price), WriterStep, WriterStep, WriterStep]
  }

  /** The schedule of the torn read: an update overtakes the read, and the reader finds its odd number twice. */
  function TornSchedule(price: real, out: Pair): seq<Action> {
    Overtaken(price, out) + ([ReaderStep(0), ReaderStep(0), ReaderStep(0)] + [WriterStep, WriterStep])
  }

  lemma OvertakenState(s: State, price: real, out: Pair)
    requires s.writer.pc == Idle && s.mem.sequence % 2 == 0
    requires |s.readers| == 1 && s.readers[0].pc == Outside && s.readers[0].results == []
    ensures var t := Run(AsWritten, s, Overtaken(price, out));
            && t.mem == Memory(s.mem.sequence + 1, s.mem.curr, s.mem.curr) && t.history == s.history
            && t.writer.pc == StoredLast && t.writer.number == s.mem.sequence && t.writer.price == price
            && |t.readers| == 1 && t.readers[0].pc == Last && t.readers[0].seq1 == s.mem.sequence
            && t.readers[0].out == Pair(s.mem.curr, out.last) && t.readers[0].results == []
  {
    var acts := Overtaken(price, out);
    var s1 := Step(AsWritten, s, acts[0]);
    var s2 := Step(AsWritten, s1, acts[1]);
    var s3 := Step(AsWritten, s2, acts[2]);
    assert s3.mem == s.mem && s3.history == s.history && s3.writer == s.writer;
    assert s3.readers[0].pc == Last && s3.readers[0].out == Pair(s.mem.curr, out.last);
    var s4 := Step(AsWritten, s3, acts[3]);
    var s5 := Step(AsWritten, s4, acts[4]);
    var s6 := Step(AsWritten, s5, acts[5]);
    var s7 := Step(AsWritten, s6, acts[6]);
    assert s7.readers == s3.readers;
    RunSteps(AsWritten, [s, s1, s2, s3, s4, s5, s6, s7], acts);
  }

  lemma OnlyReaderSteps(s: State, r: Reader)
    requires s.readers == [r]
    ensures Step(AsWritten, s, ReaderStep(0))
         == s.(readers := [StepReader(AsWritten, s.mem, r, s.clock)], clock := s.clock + 1)
  {
    hide StepReader;
    assert [r][0 := StepReader(AsWritten, s.mem, r, s.clock)] == [StepReader(AsWritten, s.mem, r, s.clock)];
  }

  /** The last three steps of the torn read: the second load of the odd number meets the first. */
  lemma TornReaderExits(s: State, r: Reader)
    requires s.readers == [r] && r.pc == Last && r.results == []
    requires r.seq1 % 2 == 0 && s.mem.sequence == r.seq1 + 1
    ensures var t := Run(AsWritten, s, [ReaderStep(0), ReaderStep(0), ReaderStep(0)]);
            && t.mem == s.mem && t.writer == s.writer && t.history == s.history
            && |t.readers| == 1 && |t.readers[0].results| == 1
            && t.readers[0].results[0].number == s.mem.sequence
            && t.readers[0].results[0].pair == Pair(r.out.curr, s.mem.last)
  {
    hide Step;
    var s1 := Step(AsWritten, s, ReaderStep(0));
    OnlyReaderSteps(s, r);
    var r1 := StepReader(AsWritten, s.mem, r, s.clock);
    assert r1 == r.(pc := Second, out := Pair(r.out.curr, s.mem.last), priceLoads := Some((r.currAt, s.clock)));
    var s2 := Step(AsWritten, s1, ReaderStep(0));
    OnlyReaderSteps(s1, r1);
    var r2 := StepReader(AsWritten, s.mem, r1, s1.clock);
    assert r2 == r1.(pc := First, seq2 := s.mem.sequence);
    OnlyReaderSteps(s2, r2);
    RunSteps(AsWritten, [s, s1, s2, Step(AsWritten, s2, ReaderStep(0))],
             [ReaderStep(0), ReaderStep(0), ReaderStep(0)]);
  }

  lemma WriterPublishes(s: State)
    requires s.writer.pc == StoredLast
    ensures var t := Run(AsWritten, s, [WriterStep, WriterStep]);
            t.readers == s.readers && t.history == s.history + [Pair(s.writer.price, s.mem.last)]
  {
    var s1 := Step(AsWritten, s, WriterStep);
    RunSteps(AsWritten, [s, s1, Step(AsWritten, s1, WriterStep)], [WriterStep, WriterStep]);
  }

  /** From any moment between two updates, the schedule makes a call return the current price twice. */
  lemma TornRead(s: State, price: real, out: Pair)
    requires s.writer.pc == Idle && s.mem.sequence % 2 == 0
    requires |s.readers| == 1 && s.readers[0].pc == Outside && s.readers[0].results == []
    ensures var t := Run(AsWritten, s, TornSchedule(price, out));
            && t.history == s.history + [Pair(price, s.mem.curr)]
            && |t.readers| == 1 && |t.readers[0].results| == 1
            && t.readers[0].results[0].number == s.mem.sequence + 1
            && t.readers[0].results[0].pair == Pair(s.mem.curr, s.mem.curr)
  {
    hide Run;
    var loads, stores := [ReaderStep(0), ReaderStep(0), ReaderStep(0)], [WriterStep, WriterStep];
    OvertakenState(s, price, out);
    var o := Run(AsWritten, s, Overtaken(price, out));
    RunConcat(AsWritten, s, Overtaken(price, out), loads + stores);
    RunConcat(AsWritten, o, loads, stores);
    TornReaderExits(o, o.readers[0]);
    WriterPublishes(Run(AsWritten, o, loads));
  }

  /**
   The odd exit is real: the two prices start out equal, as they do in the program; one update changes the
   price, a second one changes it again, and a read overtaken by the second returns a pair that the writer
   never publishes, before or after.
   */
  lemma OddExitReturnsTornPair(start: real, first: real, second: real, out: Pair)
    requires first != start && second != first
    ensures var s := Run(AsWritten, Init(Pair(start, start), 1), UpdateSteps(first) + TornSchedule(second, out));
            && s.history == [Pair(start, start), Pair(first, start), Pair(second, first)]
            && |s.readers| == 1 && |s.readers[0].results| == 1
            && s.readers[0].results[0].number == 3
            && s.readers[0].results[0].pair == Pair(first, first)
            && s.readers[0].results[0].pair !in s.history
  {
    hide Run;
    var init := Init(Pair(start, start), 1);
    UpdateStepsPublish(AsWritten, init, first);
    RunConcat(AsWritten, init, UpdateSteps(first), TornSchedule(second, out));
    TornRead(Run(AsWritten, init, UpdateSteps(first)), second, out);
  }

  /** Both prices are loaded before an update begins, and its odd number is met twice after that. */
  function WholeSchedule(price: real, out: Pair): seq<Action> {
    [BeginRead(0, 0, out), ReaderStep(0), ReaderStep(0), ReaderStep(0)]
    + [BeginUpdate(price), WriterStep, ReaderStep(0), ReaderStep(0)]
  }

  lemma LoadsBoth(s: State, out: Pair)
    requires s.mem.sequence % 2 == 0 && s.writer.pc == Idle
    requires |s.readers| == 1 && s.readers[0].pc == Outside && s.readers[0].results == []
    ensures var t := Run(AsWritten, s, [BeginRead(0, 0, out), ReaderStep(0), ReaderStep(0), ReaderStep(0)]);
            && t.mem == s.mem && t.writer == s.writer && t.history == s.history && |t.readers| == 1
            && t.readers[0].pc == Second && t.readers[0].seq1 == s.mem.sequence && t.readers[0].results == []
            && t.readers[0].out == Pair(s.mem.curr, s.mem.last)
  {
    var acts := [BeginRead(0, 0, out), ReaderStep(0), ReaderStep(0), ReaderStep(0)];
    var s1 := Step(AsWritten, s, acts[0]);
    var s2 := Step(AsWritten, s1, acts[1]);
    var s3 := Step(AsWritten, s2, acts[2]);
    RunSteps(AsWritten, [s, s1, s2, s3, Step(AsWritten, s3, acts[3])], acts);
  }

  lemma UpdateMarks(s: State, price: real)
    requires s.writer.pc == Idle
    ensures var t := Step(AsWritten, Step(AsWritten, s, BeginUpdate(price)), WriterStep);
            t.readers == s.readers && t.history == s.history && t.mem.sequence == s.mem.sequence + 1
  {
  }

  lemma MeetsOddTwice(s: State, r: Reader, price: real)
    requires s.mem.sequence % 2 == 0 && s.writer.pc == Idle && s.readers == [r]
    requires r.pc == Second && r.seq1 == s.mem.sequence && r.results == []
    ensures var t := Run(AsWritten, s, [BeginUpdate(price), WriterStep, ReaderStep(0), ReaderStep(0)]);
            && t.history == s.history && |t.readers| == 1 && |t.readers[0].results| == 1
            && t.readers[0].results[0].number == s.mem.sequence + 1
            && t.readers[0].results[0].pair == r.out
  {
    hide Step;
    var s1 := Step(AsWritten, s, BeginUpdate(price));
    var s2 := Step(AsWritten, s1, WriterStep);
    UpdateMarks(s, price);
    OnlyReaderSteps(s2, r);
    var r3 := StepReader(AsWritten, s2.mem, r, s2.clock);
    assert r3 == r.(pc := First, seq2 := s2.mem.sequence);
    var s3 := Step(AsWritten, s2, ReaderStep(0));
    OnlyReaderSteps(s3, r3);
    RunSteps(AsWritten, [s, s1, s2, s3, Step(AsWritten, s3, ReaderStep(0))],
             [BeginUpdate(price), WriterStep, ReaderStep(0), ReaderStep(0)]);
  }

  /** Not every odd exit is torn: here a call exits on 1 with the latest publication. */
  lemma OddExitCanBeWhole(pair: Pair, price: real, out: Pair)
    ensures var s := Run(AsWritten, Init(pair, 1), WholeSchedule(price, out));
            && s.history == [pair] && |s.readers| == 1 && |s.readers[0].results| == 1
            && s.readers[0].results[0].number == 1 && s.readers[0].results[0].pair == pair
  {
    hide Run;
    var init := Init(pair, 1);
    var loads := [BeginRead(0, 0, out), ReaderStep(0), ReaderStep(0), ReaderStep(0)];
    LoadsBoth(init, out);
    RunConcat(AsWritten, init, loads, [BeginUpdate(price), WriterStep, ReaderStep(0), ReaderStep(0)]);
    MeetsOddTwice(Run(AsWritten, init, loads), Run(AsWritten, init, loads).readers[0], price);
  }

  /** The steps of an update that follow its marking of the number. */
  const REST_OF_UPDATE := [WriterStep, WriterStep, WriterStep, WriterStep]

  lemma RestOfUpdatePublishes(s: State)
    requires s.writer.pc == Marked
    ensures var t := Run(AsWritten, s, REST_OF_UPDATE);
            t.readers == s.readers && t.history == s.history + [Pair(s.writer.price, s.mem.curr)]
  {
    var s1 := Step(AsWritten, s, WriterStep);
    var s2 := Step(AsWritten, s1, WriterStep);
    var s3 := Step(AsWritten, s2, WriterStep);
    RunSteps(AsWritten, [s, s1, s2, s3, Step(AsWritten, s3, WriterStep)], REST_OF_UPDATE);
  }

  /** An update begins, and a call starts with the odd number in its uninitialised `seq2`. */
  function Unread(price: real, out: Pair): seq<Action> {
    [BeginUpdate(price), WriterStep, BeginRead(0, 1, out), ReaderStep(0)]
  }

  lemma UnreadState(pair: Pair, price: real, out: Pair)
    ensures var s := Run(AsWritten, Init(pair, 1), Unread(price, out));
            && s.history == [pair] && s.mem.curr == pair.curr
            && s.writer.pc == Marked && s.writer.price == price
            && |s.readers| == 1 && |s.readers[0].results| == 1 && s.readers[0].results[0].pair == out
  {
    var acts := Unread(price, out);
    var s0 := Init(pair, 1);
    var s1 := Step(AsWritten, s0, acts[0]);
    var s2 := Step(AsWritten, s1, acts[1]);
    var s3 := Step(AsWritten, s2, acts[2]);
    RunSteps(AsWritten, [s0, s1, s2, s3, Step(AsWritten, s3, acts[3])], acts);
  }

  /**
   The odd exit needs no earlier iteration: if the uninitialised `seq2` happens to hold the odd number of a
   write in progress, the first test already succeeds and the caller's variables are returned untouched. They
   are a publication only if they were one, the former or the coming, to begin with.
   */
  lemma OddExitReturnsNothingRead(pair: Pair, price: real, out: Pair)
    ensures var s := Run(AsWritten, Init(pair, 1), Unread(price, out) + REST_OF_UPDATE);
            && s.history == [pair, Pair(price, pair.curr)]
            && |s.readers| == 1 && |s.readers[0].results| == 1
            && s.readers[0].results[0].pair == out
            && (s.readers[0].results[0].pair in s.history <==> out == pair || out == Pair(price, pair.curr))
  {
    hide Run;
    UnreadState(pair, price, out);
    RunConcat(AsWritten, Init(pair, 1), Unread(price, out), REST_OF_UPDATE);
    RestOfUpdatePublishes(Run(AsWritten, Init(pair, 1), Unread(price, out)));
  }

  // ----- the reader's code: each load finds the memory as it is by then

  /** A call that has just begun. */
  function Begun(stale: nat, out: Pair): Reader {
    Reader(First, 0, stale, out, 0, 0, 0, None, [])
  }

  /** The reader's steps against the memories its loads find, until it exits or they run out. */
  function ReadAlong(r: Reader, views: seq<Memory>, now: nat): Reader
    decreases |views|
  {
    if views == [] || r.pc == Outside then r
    else ReadAlong(StepReader(AsWritten, views[0], r, now), views[1..], now + 1)
  }

  /** What a call returned, with the number it exited on; None while it is still looping. */
  function Outcome(r: Reader): Option<(nat, Pair)> {
    if r.results == [] then None else Some((r.results[0].number, r.results[0].pair))
  }

  lemma ReadOne(r: Reader, views: seq<Memory>, i: nat)
    requires i < |views| && r.pc != Outside
    ensures ReadAlong(r, views[i..], i) == ReadAlong(StepReader(AsWritten, views[i], r, i), views[i + 1..], i + 1)
  {
    assert views[i..][1..] == views[i + 1..];
  }

  /**
   The loop as written. `views[i]` is the memory as load number i finds it, whatever the writer does in
   between; `stale` and `out` are what `seq2` and the caller's variables hold at the start.
   */
  method ReadPrice(views: seq<Memory>, stale: nat, out: Pair) returns (result: Option<(nat, Pair)>)
    ensures result == Outcome(ReadAlong(Begun(stale, out), views, 0))
  {
    var seq1, seq2, curr, last, i := 0, stale, out.curr, out.last, 0;
    ghost var r := Begun(stale, out);
    assert views[0..] == views;
    while true
      invariant i <= |views|
      invariant r.pc == First && r.seq2 == seq2 && r.out == Pair(curr, last) && r.results == []
      invariant ReadAlong(Begun(stale, out), views, 0) == ReadAlong(r, views[i..], i)
      decreases |views| - i
    {
      if i == |views| { return None; }
      seq1 := views[i].sequence;
      ReadOne(r, views, i);
      r, i := StepReader(AsWritten, views[i], r, i), i + 1;
      if seq1 % 2 == 0 {
        if i == |views| { return None; }
        curr := views[i].curr;
        ReadOne(r, views, i);
        r, i := StepReader(AsWritten, views[i], r, i), i + 1;
        if i == |views| { return None; }
        last := views[i].last;
        ReadOne(r, views, i);
        r, i := StepReader(AsWritten, views[i], r, i), i + 1;
        if i == |views| { return None; }
        seq2 := views[i].sequence;
        ReadOne(r, views, i);
        r, i := StepReader(AsWritten, views[i], r, i), i + 1;
      }
      if seq1 == seq2 {
        return Some((seq1, Pair(curr, last)));
      }
    }
  }

  // ----- the writer's code on the object itself

  class SharedMarketData {
    var sequence: nat
    var currPrice: real
    var lastPrice: real

    function Contents(): Memory
      reads this
    {
      Memory(sequence, currPrice, lastPrice)
    }

    constructor ()
      ensures Contents() == Memory(0, 0.0, 0.0)
    {
      sequence, currPrice, lastPrice := 0, 0.0, 0.0;
    }

    /** The stores of update_price in their order; undisturbed, they are the writer's six steps above. */
    method UpdatePrice(newPrice: real)
      modifies this
      ensures forall s: State :: s.mem == old(Contents()) && s.writer.pc == Idle ==>
                Contents() == Run(Intended, s, UpdateSteps(newPrice)).mem
    {
      var number := sequence;
      sequence := number + 1;
      lastPrice := currPrice;
      currPrice := newPrice;
      sequence := number + 2;
      forall s: State | s.mem == old(Contents()) && s.writer.pc == Idle
        ensures Run(Intended, s, UpdateSteps(newPrice)).mem == Contents()
      {
        UpdateStepsPublish(Intended, s, newPrice);
      }
    }
  }
}
