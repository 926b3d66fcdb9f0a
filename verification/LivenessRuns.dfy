/**
 Long runs of the liveness mirror: the longest line is one a reader really returns, and
 a sequence that wraps during one read deceives it (kernel/src/debug/liveness.rs:285-591).
 */
module LivenessRuns {
  import opened Wrappers
  import opened LivenessSeqlock
  import opened LivenessFormat

  const AT_FIRST: Placement := Placement(0, 0, 0, false, false, NO_CPU)

  const WIDE: Placement := Placement(U64_MAX, U32_MAX, U32_MAX, false, false, NO_CPU)

  // ----- Publications, any number of them -----

  /** The identity fields with the first `k - 1` of them stored. */
  function Partly(from: Identity, to: Identity, k: nat): Identity {
    Identity(if k > 1 then to.thread else from.thread, if k > 2 then to.process else from.process, if k > 3 then to.root else from.root,
             if k > 4 then to.context else from.context, if k > 5 then to.stack else from.stack)
  }

  /** From an idle state: a publication of `id` begun and about to make store `k`. */
  function Busy(s: State, id: Identity, k: nat): State {
    s.(cell := s.cell.(sequence := Bump(s.cell.sequence), id := Partly(s.cell.id, id, k), event := if k > 6 then 0 else s.cell.event,
                       publications := if k > 7 then Bump(s.cell.publications) else s.cell.publications),
       writer := Some(Writer(id, 0, k)), ticks := s.ticks + 1)
  }

  /** The same publication completed. */
  function Published(s: State, id: Identity): State {
    s.(cell := s.cell.(sequence := Bump(Bump(s.cell.sequence)), id := id, event := 0, publications := Bump(s.cell.publications)),
       ticks := s.ticks + 2, history := s.history + [id])
  }

  function Many(s: State, id: Identity, n: nat): State {
    if n == 0 then s else Published(Many(s, id, n - 1), id)
  }

  lemma BusyBegins(s: State, id: Identity)
    requires s.writer.None? && IdentityFits(id)
    ensures Enabled(s, BeginPublish(id, 0)) && Apply(s, BeginPublish(id, 0)) == Busy(s, id, 1)
  {
  }

  lemma BusyGoesOn(s: State, id: Identity, k: nat)
    requires 1 <= k < 8
    ensures Enabled(Busy(s, id, k), Store) && Apply(Busy(s, id, k), Store) == Busy(s, id, k + 1)
  {
  }

  lemma BusyEnds(s: State, id: Identity)
    requires s.writer.None?
    ensures Enabled(Busy(s, id, 8), Store) && Apply(Busy(s, id, 8), Store) == Published(s, id)
  {
  }

  lemma Extend(states: seq<State>, steps: seq<Step>, step: Step)
    requires Run(states, steps) && Enabled(states[|steps|], step)
    ensures Run(states + [Apply(states[|steps|], step)], steps + [step])
  {
    hide Enabled, Apply, Initial;
    var longer, more := states + [Apply(states[|steps|], step)], steps + [step];
    forall i | 0 <= i < |more| ensures Enabled(longer[i], more[i]) && longer[i + 1] == Apply(longer[i], more[i]) {
      if i < |steps| { RunStep(states, steps, i); }
    }
  }

  lemma PublishesOnce(before: seq<State>, taken: seq<Step>, id: Identity) returns (states: seq<State>, steps: seq<Step>)
    requires Run(before, taken) && before[|taken|].writer.None? && IdentityFits(id)
    ensures Run(states, steps) && states[|steps|] == Published(before[|taken|], id)
  {
    RunSize(before, taken);
    hide Run, Apply, Enabled, Busy, Published, IdentityFits;
    var s := before[|taken|];
    BusyBegins(s, id);
    Extend(before, taken, BeginPublish(id, 0));
    states, steps := before + [Busy(s, id, 1)], taken + [BeginPublish(id, 0)];
    var k := 1;
    while k < 8
      invariant 1 <= k <= 8 && |states| == |steps| + 1 && Run(states, steps) && states[|steps|] == Busy(s, id, k)
    {
      BusyGoesOn(s, id, k);
      Extend(states, steps, Store);
      states, steps := states + [Busy(s, id, k + 1)], steps + [Store];
      k := k + 1;
    }
    BusyEnds(s, id);
    Extend(states, steps, Store);
    states, steps := states + [Published(s, id)], steps + [Store];
  }

  /** From any idle state of a run, any number of publications can follow, whatever the reader is doing. */
  lemma {:induction false} Publishes(before: seq<State>, taken: seq<Step>, id: Identity, n: nat) returns (states: seq<State>, steps: seq<Step>)
    requires Run(before, taken) && before[|taken|].writer.None? && IdentityFits(id)
    ensures Run(states, steps) && states[|steps|] == Many(before[|taken|], id, n)
    decreases n
  {
    RunSize(before, taken);
    ManyFacts(before[|taken|], id, n);
    hide Run, Published, IdentityFits;
    if n == 0 {
      states, steps := before, taken;
    } else {
      states, steps := Publishes(before, taken, id, n - 1);
      ManyFacts(before[|taken|], id, n - 1);
      RunSize(states, steps);
      states, steps := PublishesOnce(states, steps, id);
    }
  }

  /** What many publications leave. */
  lemma {:induction false} ManyFacts(s: State, id: Identity, n: nat)
    ensures var m := Many(s, id, n);
            && m.writer == s.writer && m.reader == s.reader && m.ticks == s.ticks + 2 * n && m.cell.placement == s.cell.placement
            && (n > 0 ==> m.cell.id == id && m.cell.event == 0 && Latest(m.history) == id)
            && (n == 0 ==> m == s)
            && |m.history| == |s.history| + n && forall i :: 0 <= i < |m.history| ==> m.history[i] == id || m.history[i] in s.history
  {
    if n > 0 { ManyFacts(s, id, n - 1); }
  }

  lemma {:induction false} ManyCounts(s: State, id: Identity, n: nat)
    requires s.cell.sequence == s.ticks % WORD
    ensures Many(s, id, n).cell.sequence == (s.ticks + 2 * n) % WORD
    ensures s.cell.publications < WORD ==> Many(s, id, n).cell.publications == (s.cell.publications + n) % WORD
  {
    if n > 0 {
      ManyCounts(s, id, n - 1);
      BumpTicks(s.ticks + 2 * n - 2);
      BumpTicks(s.ticks + 2 * n - 1);
      BumpTicks(s.cell.publications + n - 1);
    }
  }

  const START: State := State(Cell(0, ZERO, 0, 0, AT_FIRST), None, Starting(0), 0, [])

  /** Idle after `n` publications of the zero identity. */
  function Idle(n: nat, p: Placement, reader: Reader): State {
    State(Cell(2 * n % WORD, ZERO, 0, n % WORD, p), None, reader, 2 * n, Many(START, ZERO, n).history)
  }

  lemma ManyIsIdle(n: nat)
    ensures Many(START, ZERO, n) == Idle(n, AT_FIRST, Starting(0))
  {
    ManyFacts(START, ZERO, n);
    ManyCounts(START, ZERO, n);
  }

  lemma StartsIdle()
    ensures Run([START], [])
  {
  }

  lemma RunSize(states: seq<State>, steps: seq<Step>)
    requires Run(states, steps)
    ensures |states| == |steps| + 1
  {
  }

  // ----- The read -----

  /** What the reader holds at stage `k` if it held `p` at stage `from` and the cell did not change since. */
  function Gather(c: Cell, p: Record, from: nat, k: nat): Record
    decreases k
  {
    if k <= from then p else Load(Gather(c, p, from, k - 1), c, k - 1)
  }

  /** Field by field: loaded from the cell since `from`, or held before. */
  predicate Took(r: Record, c: Cell, p: Record, from: nat, k: nat) {
    TookIdentity(r.id, c.id, p.id, from, k) && TookCounts(r, c, p, from, k) && TookPlacement(r.placement, c.placement, p.placement, from, k)
  }

  predicate TookIdentity(r: Identity, c: Identity, p: Identity, from: nat, k: nat) {
    && r.thread == (if from <= 0 < k then c.thread else p.thread)
    && r.process == (if from <= 1 < k then c.process else p.process)
    && r.root == (if from <= 2 < k then c.root else p.root)
    && r.context == (if from <= 3 < k then c.context else p.context)
    && r.stack == (if from <= 4 < k then c.stack else p.stack)
  }

  predicate TookCounts(r: Record, c: Cell, p: Record, from: nat, k: nat) {
    && r.consistent == p.consistent
    && r.event == (if from <= 5 < k then c.event else p.event)
    && r.publications == (if from <= 6 < k then c.publications else p.publications)
  }

  predicate TookPlacement(r: Placement, c: Placement, p: Placement, from: nat, k: nat) {
    && r.generation == (if from <= 7 < k then c.generation else p.generation)
    && r.runnable == (if from <= 8 < k then c.runnable else p.runnable)
    && r.queue == (if from <= 9 < k then c.queue else p.queue)
    && r.reschedule == (if from <= 10 < k then c.reschedule else p.reschedule)
    && r.quantum == (if from <= 11 < k then c.quantum else p.quantum)
    && r.wakeTarget == (if from <= 12 < k then c.wakeTarget else p.wakeTarget)
  }

  lemma LoadTakesIdentity(r: Record, c: Cell, p: Record, from: nat, k: nat)
    requires from <= k < FIELDS && TookIdentity(r.id, c.id, p.id, from, k)
    ensures TookIdentity(Load(r, c, k).id, c.id, p.id, from, k + 1)
  {
  }

  lemma LoadTakesCounts(r: Record, c: Cell, p: Record, from: nat, k: nat)
    requires from <= k < FIELDS && TookCounts(r, c, p, from, k)
    ensures TookCounts(Load(r, c, k), c, p, from, k + 1)
  {
  }

  lemma LoadTakesPlacement(r: Record, c: Cell, p: Record, from: nat, k: nat)
    requires from <= k < FIELDS && TookPlacement(r.placement, c.placement, p.placement, from, k)
    ensures TookPlacement(Load(r, c, k).placement, c.placement, p.placement, from, k + 1)
  {
  }

  lemma {:induction false} GatherTakes(c: Cell, p: Record, from: nat, k: nat)
    requires from <= k <= FIELDS
    ensures Took(Gather(c, p, from, k), c, p, from, k)
    decreases k
  {
    if k > from {
      hide Load, TookIdentity, TookCounts, TookPlacement;
      GatherTakes(c, p, from, k - 1);
      LoadTakesIdentity(Gather(c, p, from, k - 1), c, p, from, k - 1);
      LoadTakesCounts(Gather(c, p, from, k - 1), c, p, from, k - 1);
      LoadTakesPlacement(Gather(c, p, from, k - 1), c, p, from, k - 1);
    }
  }

  lemma GatherAll(c: Cell)
    ensures Gather(c, BLANK, 0, FIELDS) == Record(c.id, c.event, c.publications, c.placement, false)
  {
    hide Gather;
    GatherTakes(c, BLANK, 0, FIELDS);
  }

  lemma ReadsOn(s: State)
    requires s.reader.Loading? && s.reader.stage < FIELDS
    ensures Enabled(s, ReadStep)
    ensures Apply(s, ReadStep) == s.(reader := s.reader.(stage := s.reader.stage + 1, partial := Load(s.reader.partial, s.cell, s.reader.stage)))
  {
    hide Load;
  }

  /** The reader goes through all its field loads while nothing else happens. */
  lemma ReadsAll(before: seq<State>, taken: seq<Step>) returns (states: seq<State>, steps: seq<Step>)
    requires Run(before, taken) && before[|taken|].reader.Loading? && before[|taken|].reader.stage <= FIELDS
    ensures var s := before[|taken|];
            Run(states, steps) && states[|steps|] ==
              s.(reader := s.reader.(stage := FIELDS, partial := Gather(s.cell, s.reader.partial, s.reader.stage, FIELDS)))
  {
    RunSize(before, taken);
    hide Run, Load, Apply, Enabled;
    var s := before[|taken|];
    states, steps := before, taken;
    var k := s.reader.stage;
    while k < FIELDS
      invariant s.reader.stage <= k <= FIELDS && |states| == |steps| + 1 && Run(states, steps)
      invariant states[|steps|] == s.(reader := s.reader.(stage := k, partial := Gather(s.cell, s.reader.partial, s.reader.stage, k)))
    {
      ReadsOn(states[|steps|]);
      Extend(states, steps, ReadStep);
      states, steps := states + [Apply(states[|steps|], ReadStep)], steps + [ReadStep];
      k := k + 1;
    }
  }

  lemma ReadsLast(s: State)
    requires s.reader.Loading? && s.reader.stage == FIELDS && s.reader.attempt < ATTEMPTS && s.cell.sequence == s.reader.before
    ensures Enabled(s, ReadStep) && Apply(s, ReadStep) == s.(reader := Finished(s.reader.partial.(consistent := true)))
  {
  }

  /** From an idle mirror, a placement store and an undisturbed read return exactly the cell. */
  lemma ReadsBack(n: nat, p: Placement) returns (run: ReadRun)
    requires PlacementFits(p)
    ensures Returned(run) && RecordOf(run) == Record(ZERO, 0, n % WORD, p, true)
  {
    hide Run, Gather, Load;
    var cell := Idle(n, p, Starting(0)).cell;
    StartsIdle();
    var states, steps := Publishes([START], [], ZERO, n);
    ManyIsIdle(n);
    RunSize(states, steps);
    Extend(states, steps, StorePlacement(p));
    states, steps := states + [Idle(n, p, Starting(0))], steps + [StorePlacement(p)];
    ParityOfWord(2 * n);
    Extend(states, steps, ReadStep);
    states, steps := states + [Idle(n, p, Loading(0, 2 * n % WORD, 2 * n, 0, BLANK))], steps + [ReadStep];
    states, steps := ReadsAll(states, steps);
    RunSize(states, steps);
    GatherAll(cell);
    ReadsLast(states[|steps|]);
    Extend(states, steps, ReadStep);
    states, steps := states + [Apply(states[|steps|], ReadStep)], steps + [ReadStep];
    run := ReadRun(states, steps, |steps|);
  }

  // ----- The sequence wraps -----

  const OTHER: Identity := Identity(7, 7, 7, 7, 7)

  /** The reader has loaded one field of the initial cell. */
  lemma HalfRead() returns (states: seq<State>, steps: seq<Step>)
    ensures Run(states, steps) && states[|steps|] == START.(reader := Loading(0, 0, 0, 1, BLANK))
  {
    StartsIdle();
    Extend([START], [], ReadStep);
    var s1 := START.(reader := Loading(0, 0, 0, 0, BLANK));
    ReadsOn(s1);
    hide Run;
    Extend([START, s1], [ReadStep], ReadStep);
    states, steps := [START, s1, Apply(s1, ReadStep)], [ReadStep, ReadStep];
  }

  /**
   The wrap is real: after exactly 2^64 sequence stores between its two loads a reader
   marks as consistent a record whose identity nobody ever published.
   */
  lemma WrapIsBelieved() returns (states: seq<State>, steps: seq<Step>, n: nat)
    ensures Run(states, steps) && n < |steps| && states[n].reader.Loading? && states[n + 1].reader.Finished?
    ensures states[n].ticks == states[n].reader.start + WORD
    ensures var r := states[n + 1].reader.record;
            r.consistent && r.id != ZERO && r.id !in states[n].history && r.id != Latest(states[n].history)
  {
    hide Run, Gather, Load, Many;
    states, steps := HalfRead();
    RunSize(states, steps);
    var half := states[|steps|];
    states, steps := Publishes(states, steps, OTHER, WORD / 2);
    RunSize(states, steps);
    ManyFacts(half, OTHER, WORD / 2);
    ManyCounts(half, OTHER, WORD / 2);
    var wrapped := states[|steps|];
    states, steps := ReadsAll(states, steps);
    RunSize(states, steps);
    GatherTakes(wrapped.cell, BLANK, 1, FIELDS);
    n := |steps|;
    ReadsLast(states[n]);
    Extend(states, steps, ReadStep);
    states, steps := states + [Apply(states[n], ReadStep)], steps + [ReadStep];
  }

  // ----- The longest line -----

  /** The bound of 297 bytes is met by a line that a reader of the mirror can return, nine bytes over the 288 allowed it. */
  lemma LongestLine() returns (run: ReadRun)
    ensures Returned(run) && |Line(0, RecordOf(run))| == 297
  {
    hide Returned, Line;
    run := ReadsBack(U64_MAX, WIDE);
    LongNumbers();
    var r := RecordOf(run);
    assert r == Record(ZERO, 0, U64_MAX, WIDE, true);
    WideDigits(r);
    LineLength(0, r);
  }

  lemma WideDigits(r: Record)
    requires r == Record(ZERO, 0, U64_MAX, WIDE, true)
    ensures RecordFits(r) && CounterDigits(r) == 60 && Saved(r) == 0
  {
    hide Dec;
    LongNumbers();
  }
}
