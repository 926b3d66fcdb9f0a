/**
 The per-CPU liveness mirror: a sequence-locked cell with one publisher, separate
 scheduler stores, and a reader that retries a bounded number of times
 (kernel/src/debug/liveness.rs:285-452).  Each atomic access is one step.
 */
module LivenessSeqlock {
  import opened Wrappers

  const WORD: nat := 0x1_0000_0000_0000_0000
  const CPU_CAPACITY: nat := 4
  const NO_CPU: nat := U32_MAX
  const ATTEMPTS: nat := 8
  const LAST_EVENT: nat := 9

  datatype Identity = Identity(thread: nat, process: nat, root: nat, context: nat, stack: nat)

  /** Facts the scheduler stores outside the sequence lock. */
  datatype Placement = Placement(generation: nat, runnable: nat, queue: nat, reschedule: bool, quantum: bool, wakeTarget: nat)

  datatype Cell = Cell(sequence: nat, id: Identity, event: nat, publications: nat, placement: Placement)

  /** A publication in progress: `stage` names the next store. */
  datatype Writer = Writer(pending: Identity, event: nat, stage: nat)

  datatype Record = Record(id: Identity, event: nat, publications: nat, placement: Placement, consistent: bool)

  /** `start` remembers how many sequence stores had happened when `before` was loaded. */
  datatype Reader =
    | Starting(attempt: nat)
    | Loading(attempt: nat, before: nat, start: nat, stage: nat, partial: Record)
    | Finished(record: Record)

  /** `ticks` counts sequence stores without wrapping, `history` the completed publications. */
  datatype State = State(cell: Cell, writer: Option<Writer>, reader: Reader, ticks: nat, history: seq<Identity>)

  datatype Step =
    | BeginPublish(id: Identity, event: nat)
    | Store
    | StorePlacement(placement: Placement)
    | StoreEvent(event: nat)
    | ReadStep

  const ZERO: Identity := Identity(0, 0, 0, 0, 0)

  const BLANK: Record := Record(ZERO, 0, 0, Placement(0, 0, 0, false, false, 0), false)

  ghost predicate Initial(s: State) {
    && s.cell == Cell(0, ZERO, 0, 0, Placement(0, 0, 0, false, false, NO_CPU))
    && s.writer == None && s.reader == Starting(0) && s.ticks == 0 && s.history == []
  }

  predicate IdentityFits(id: Identity) {
    id.thread <= U64_MAX && id.process <= U64_MAX && id.root <= U64_MAX && id.context <= U64_MAX && id.stack <= U64_MAX
  }

  predicate PlacementFits(p: Placement) {
    && p.generation <= U64_MAX && p.runnable <= U32_MAX && p.queue <= U32_MAX
    && (p.wakeTarget == NO_CPU || p.wakeTarget < CPU_CAPACITY)
  }

  predicate Enabled(s: State, step: Step) {
    match step
    case BeginPublish(id, event) => s.writer.None? && IdentityFits(id) && event <= LAST_EVENT
    case Store => s.writer.Some?
    case StorePlacement(p) => PlacementFits(p)
    case StoreEvent(event) => event <= LAST_EVENT
    case ReadStep => !s.reader.Finished?
  }

  function Bump(n: nat): nat { (n + 1) % WORD }

  /** The stores of one publication, in order; the last makes the sequence even again. */
  function DoStore(s: State): State
    requires s.writer.Some?
  {
    var w, c := s.writer.value, s.cell;
    var next := s.(writer := Some(w.(stage := w.stage + 1)));
    match w.stage
    case 1 => next.(cell := c.(id := c.id.(thread := w.pending.thread)))
    case 2 => next.(cell := c.(id := c.id.(process := w.pending.process)))
    case 3 => next.(cell := c.(id := c.id.(root := w.pending.root)))
    case 4 => next.(cell := c.(id := c.id.(context := w.pending.context)))
    case 5 => next.(cell := c.(id := c.id.(stack := w.pending.stack)))
    case 6 => next.(cell := c.(event := w.event))
    case 7 => next.(cell := c.(publications := Bump(c.publications)))
    case _ =>
      s.(cell := c.(sequence := Bump(c.sequence)), writer := None, ticks := s.ticks + 1, history := s.history + [w.pending])
  }

  /** The field loads of one attempt, in order. */
  function Load(r: Record, c: Cell, stage: nat): Record {
    match stage
    case 0 => r.(id := r.id.(thread := c.id.thread))
    case 1 => r.(id := r.id.(process := c.id.process))
    case 2 => r.(id := r.id.(root := c.id.root))
    case 3 => r.(id := r.id.(context := c.id.context))
    case 4 => r.(id := r.id.(stack := c.id.stack))
    case 5 => r.(event := c.event)
    case 6 => r.(publications := c.publications)
    case 7 => r.(placement := r.placement.(generation := c.placement.generation))
    case 8 => r.(placement := r.placement.(runnable := c.placement.runnable))
    case 9 => r.(placement := r.placement.(queue := c.placement.queue))
    case 10 => r.(placement := r.placement.(reschedule := c.placement.reschedule))
    case 11 => r.(placement := r.placement.(quantum := c.placement.quantum))
    case _ => r.(placement := r.placement.(wakeTarget := c.placement.wakeTarget))
  }

  const FIELDS: nat := 13

  /** One load of the reader.  After the last attempt it reads once more without checking and says so. */
  function DoRead(s: State): State
    requires !s.reader.Finished?
  {
    match s.reader
    case Starting(attempt) =>
      if attempt < ATTEMPTS && s.cell.sequence % 2 == 1 then s.(reader := Starting(attempt + 1))
      else s.(reader := Loading(attempt, s.cell.sequence, s.ticks, 0, BLANK))
    case Loading(attempt, before, start, stage, partial) =>
      if stage < FIELDS then s.(reader := Loading(attempt, before, start, stage + 1, Load(partial, s.cell, stage)))
      else if attempt >= ATTEMPTS then s.(reader := Finished(partial.(consistent := false)))
      else if s.cell.sequence == before then s.(reader := Finished(partial.(consistent := true)))
      else s.(reader := Starting(attempt + 1))
  }

  function Apply(s: State, step: Step): State
    requires Enabled(s, step)
  {
    match step
    case BeginPublish(id, event) =>
      s.(cell := s.cell.(sequence := Bump(s.cell.sequence)), writer := Some(Writer(id, event, 1)), ticks := s.ticks + 1)
    case Store => DoStore(s)
    case StorePlacement(p) => s.(cell := s.cell.(placement := p))
    case StoreEvent(event) => s.(cell := s.cell.(event := event))
    case ReadStep => DoRead(s)
  }

  ghost predicate Run(states: seq<State>, steps: seq<Step>) {
    && |states| == |steps| + 1
    && Initial(states[0])
    && forall i :: 0 <= i < |steps| ==> Enabled(states[i], steps[i]) && states[i + 1] == Apply(states[i], steps[i])
  }

  // ----- The invariant -----

  function Latest(history: seq<Identity>): Identity {
    if history == [] then ZERO else history[|history| - 1]
  }

  /** How far the publication in progress has got. */
  ghost predicate WriterOk(s: State) {
    && s.cell.sequence == s.ticks % WORD
    && match s.writer
       case None =>
         s.ticks == 2 * |s.history| && s.cell.id == Latest(s.history) && s.cell.publications == |s.history| % WORD
       case Some(w) =>
         && s.ticks == 2 * |s.history| + 1 && 1 <= w.stage <= 8 && IdentityFits(w.pending) && w.event <= LAST_EVENT
         && (w.stage > 1 ==> s.cell.id.thread == w.pending.thread)
         && (w.stage > 2 ==> s.cell.id.process == w.pending.process)
         && (w.stage > 3 ==> s.cell.id.root == w.pending.root)
         && (w.stage > 4 ==> s.cell.id.context == w.pending.context)
         && (w.stage > 5 ==> s.cell.id.stack == w.pending.stack)
         && s.cell.publications == (if w.stage > 7 then |s.history| + 1 else |s.history|) % WORD
  }

  /** What the reader has loaded so far is what the cell still holds. */
  predicate Loaded(r: Record, c: Cell, stage: nat) {
    && (stage > 0 ==> r.id.thread == c.id.thread)
    && (stage > 1 ==> r.id.process == c.id.process)
    && (stage > 2 ==> r.id.root == c.id.root)
    && (stage > 3 ==> r.id.context == c.id.context)
    && (stage > 4 ==> r.id.stack == c.id.stack)
    && (stage > 6 ==> r.publications == c.publications)
  }

  predicate CellFits(c: Cell) {
    IdentityFits(c.id) && c.event <= LAST_EVENT && c.publications <= U64_MAX && PlacementFits(c.placement)
  }

  predicate RecordFits(r: Record) {
    IdentityFits(r.id) && r.event <= LAST_EVENT && r.publications <= U64_MAX && PlacementFits(r.placement)
  }

  /** An attempt that no publication has disturbed has loaded one publication's fields. */
  ghost predicate ReaderOk(s: State) {
    match s.reader
    case Starting(attempt) => attempt <= ATTEMPTS
    case Loading(attempt, before, start, stage, partial) =>
      && attempt <= ATTEMPTS && stage <= FIELDS && start <= s.ticks && before == start % WORD && RecordFits(partial)
      && (attempt < ATTEMPTS ==> before % 2 == 0)
      && (start == s.ticks && s.writer.None? ==> Loaded(partial, s.cell, stage))
    case Finished(record) => RecordFits(record)
  }

  ghost predicate Inv(s: State) { WriterOk(s) && ReaderOk(s) && CellFits(s.cell) }

  lemma BumpTicks(ticks: nat)
    ensures Bump(ticks % WORD) == (ticks + 1) % WORD
  {
  }

  lemma ParityOfWord(ticks: nat)
    ensures ticks % WORD % 2 == ticks % 2
  {
  }

  lemma InitialInv(s: State)
    requires Initial(s)
    ensures Inv(s)
  {
  }

  lemma StoreKeeps(s: State)
    requires Inv(s) && s.writer.Some?
    ensures Inv(DoStore(s))
  {
    BumpTicks(s.ticks);
    BumpTicks(|s.history|);
    StoreKeepsReader(s);
    hide ReaderOk, Loaded;
  }

  lemma StoreKeepsReader(s: State)
    requires WriterOk(s) && ReaderOk(s) && s.writer.Some?
    ensures ReaderOk(DoStore(s))
  {
    if s.reader.Loading? { ParityOfWord(s.reader.start); }
  }

  lemma ReadKeeps(s: State)
    requires Inv(s) && !s.reader.Finished?
    ensures Inv(DoRead(s))
  {
    ReadKeepsReader(s);
    hide ReaderOk;
  }

  lemma ReadKeepsReader(s: State)
    requires Inv(s) && !s.reader.Finished?
    ensures ReaderOk(DoRead(s))
  {
  }

  lemma BeginKeeps(s: State, id: Identity, event: nat)
    requires Inv(s) && Enabled(s, BeginPublish(id, event))
    ensures Inv(Apply(s, BeginPublish(id, event)))
  {
    BumpTicks(s.ticks);
  }

  lemma Preserved(s: State, step: Step)
    requires Inv(s) && Enabled(s, step)
    ensures Inv(Apply(s, step))
  {
    hide DoStore, DoRead;
    match step
    case BeginPublish(id, event) => BeginKeeps(s, id, event);
    case Store => StoreKeeps(s);
    case StorePlacement(_) =>
    case StoreEvent(_) =>
    case ReadStep => ReadKeeps(s);
  }

  lemma {:induction false} RunInv(states: seq<State>, steps: seq<Step>, n: nat)
    requires Run(states, steps) && n < |states|
    ensures Inv(states[n])
  {
    hide Inv, Enabled, Apply, Initial;
    if n == 0 {
      InitialInv(states[0]);
    } else {
      RunInv(states, steps, n - 1);
      RunStep(states, steps, n - 1);
      Preserved(states[n - 1], steps[n - 1]);
    }
  }

  lemma RunStep(states: seq<State>, steps: seq<Step>, i: nat)
    requires Run(states, steps) && i < |steps|
    ensures Enabled(states[i], steps[i]) && states[i + 1] == Apply(states[i], steps[i])
  {
  }

  // ----- What a reader can believe -----

  lemma SameResidue(a: nat, b: nat)
    requires a <= b < a + WORD && a % WORD == b % WORD
    ensures a == b
  {
  }

  lemma {:induction false} WrapsApart(a: nat, b: nat)
    requires a <= b && a % WORD == b % WORD
    ensures (b - a) % WORD == 0
  {
  }

  /**
   A record marked consistent comes from one publication, or the sequence wrapped while
   it was read.  With no sequence store between its two sequence loads its identity is
   that of the last completed publication, or the initial one, and its count is the
   number of publications so far.  Otherwise the stores between them are a positive
   multiple of 2^64, so fewer than 2^64 of them rule it out.
   */
  lemma ConsistentIsOnePublication(states: seq<State>, steps: seq<Step>, n: nat)
    requires Run(states, steps) && n < |steps| && states[n + 1].reader.Finished? && states[n].reader.Loading?
    requires states[n + 1].reader.record.consistent
    ensures var s, r := states[n], states[n + 1].reader.record;
            var stores := s.ticks - s.reader.start;
            && 0 <= stores && stores % WORD == 0
            && (stores < WORD ==> s.writer.None? && r.id == Latest(s.history) && r.publications == |s.history| % WORD)
  {
    hide Enabled, Apply, Initial;
    RunInv(states, steps, n);
    RunLast(states, steps, n);
    var s := states[n];
    WrapsApart(s.reader.start, s.ticks);
    if s.ticks < s.reader.start + WORD { SameResidue(s.reader.start, s.ticks); }
    ParityOfWord(s.ticks);
  }

  lemma RunLast(states: seq<State>, steps: seq<Step>, n: nat)
    requires Run(states, steps) && n < |steps| && states[n + 1].reader.Finished? && states[n].reader.Loading?
    ensures states[n + 1] == DoRead(states[n])
  {
    RunStep(states, steps, n);
    FinishIsRead(states[n], steps[n]);
  }

  lemma FinishIsRead(s: State, step: Step)
    requires Enabled(s, step) && s.reader.Loading? && Apply(s, step).reader.Finished?
    ensures step == ReadStep
  {
  }

  /** Whatever the reader returns, consistent or not, every field is in the range its stores allow. */
  lemma EveryRecordFits(states: seq<State>, steps: seq<Step>, n: nat)
    requires Run(states, steps) && n < |states| && states[n].reader.Finished?
    ensures RecordFits(states[n].reader.record)
  {
    hide Run;
    RunInv(states, steps, n);
  }

  /** This load of the sequence shows a publication in progress, or one since the attempt began. */
  predicate Disturbed(s: State, step: Step) {
    step == ReadStep &&
    match s.reader
    case Starting(_) => s.cell.sequence % 2 == 1
    case Loading(_, before, _, stage, _) => stage == 13 && s.cell.sequence != before
    case Finished(_) => false
  }

  /** Attempts that failed in the first `n` steps, of the eight that are checked. */
  function Failures(states: seq<State>, steps: seq<Step>, n: nat): nat
    requires n <= |steps| && n <= |states|
  {
    if n == 0 then 0
    else
      var f := Failures(states, steps, n - 1);
      if f < 8 && Disturbed(states[n - 1], steps[n - 1]) then f + 1 else f
  }

  lemma {:induction false} AttemptsCounted(states: seq<State>, steps: seq<Step>, n: nat)
    requires Run(states, steps) && n < |states|
    ensures states[n].reader.Starting? ==> states[n].reader.attempt == Failures(states, steps, n)
    ensures states[n].reader.Loading? ==> states[n].reader.attempt == Failures(states, steps, n)
    ensures Failures(states, steps, n) <= 8
  {
    if n > 0 {
      AttemptsCounted(states, steps, n - 1);
      RunInv(states, steps, n - 1);
      RunStep(states, steps, n - 1);
      hide Run, Inv, Load;
      CountStep(states[n - 1], steps[n - 1], Failures(states, steps, n - 1));
    }
  }

  lemma CountStep(s: State, step: Step, f: nat)
    requires ReaderOk(s) && Enabled(s, step) && f <= 8
    requires (s.reader.Starting? || s.reader.Loading?) ==> s.reader.attempt == f
    ensures var s', f' := Apply(s, step), if f < 8 && Disturbed(s, step) then f + 1 else f;
            (s'.reader.Starting? || s'.reader.Loading?) ==> s'.reader.attempt == f'
  {
    hide Load;
  }

  /**
   The reader gives up exactly after eight disturbed attempts: what it returns is marked
   consistent if and only if fewer than eight have failed before.
   */
  lemma TornAfterEight(states: seq<State>, steps: seq<Step>, n: nat)
    requires Run(states, steps) && n < |steps| && states[n].reader.Loading? && states[n + 1].reader.Finished?
    ensures states[n + 1].reader.record.consistent <==> Failures(states, steps, n) < 8
  {
    AttemptsCounted(states, steps, n);
    RunLast(states, steps, n);
  }

  /** How many loads the reader makes in steps `i` to `m`. */
  function Reads(steps: seq<Step>, i: nat, m: nat): nat
    requires i <= m <= |steps|
    decreases m - i
  {
    if i == m then 0 else Reads(steps, i, m - 1) + (if steps[m - 1] == ReadStep then 1 else 0)
  }

  /** Where an attempt begun in `from` stands after `loads` loads that no publication disturbed. */
  ghost predicate Calm(from: State, s: State, attempt: nat, loads: nat) {
    && s.writer.None? && s.ticks == from.ticks && s.history == from.history
    && match s.reader
       case Starting(a) => a == attempt && loads == 0
       case Loading(a, before, start, stage, _) =>
         a == attempt && before == s.cell.sequence && start == s.ticks && loads == stage + 1
       case Finished(r) =>
         loads == FIELDS + 2 && r.consistent && r.id == Latest(from.history) && r.publications == |from.history| % WORD
  }

  lemma CalmStep(from: State, s: State, attempt: nat, loads: nat, step: Step)
    requires Inv(s) && Calm(from, s, attempt, loads) && attempt < ATTEMPTS && Enabled(s, step) && !step.BeginPublish?
    ensures Calm(from, Apply(s, step), attempt, loads + if step == ReadStep then 1 else 0)
  {
    ParityOfWord(s.ticks);
  }

  lemma {:induction false} StaysCalm(states: seq<State>, steps: seq<Step>, i: nat, m: nat)
    requires Run(states, steps) && i <= m < |states| && states[i].writer.None? && states[i].reader.Starting?
    requires states[i].reader.attempt < ATTEMPTS && forall k :: i <= k < m ==> !steps[k].BeginPublish?
    ensures Calm(states[i], states[m], states[i].reader.attempt, Reads(steps, i, m))
    decreases m - i
  {
    hide Inv, Enabled, Apply, Initial;
    if i < m {
      StaysCalm(states, steps, i, m - 1);
      RunInv(states, steps, m - 1);
      RunStep(states, steps, m - 1);
      CalmStep(states[i], states[m - 1], states[i].reader.attempt, Reads(steps, i, m - 1), steps[m - 1]);
    }
  }

  /**
   An attempt that starts on an idle publisher, with no publication begun before it
   ends, returns after exactly fifteen loads, and what it returns is consistent and is
   the last completed publication.  The bounded retry gives up only under interference.
   */
  lemma UndisturbedAttemptSucceeds(states: seq<State>, steps: seq<Step>, i: nat, m: nat)
    requires Run(states, steps) && i <= m < |states| && states[i].writer.None? && states[i].reader.Starting?
    requires states[i].reader.attempt < ATTEMPTS && forall k :: i <= k < m ==> !steps[k].BeginPublish?
    ensures Reads(steps, i, m) <= FIELDS + 2
    ensures states[m].reader.Finished? <==> Reads(steps, i, m) == FIELDS + 2
    ensures states[m].reader.Finished? ==>
              var r := states[m].reader.record;
              r.consistent && r.id == Latest(states[i].history) && r.publications == |states[i].history| % WORD
  {
    hide Run, Initial, Enabled, Apply;
    StaysCalm(states, steps, i, m);
    RunInv(states, steps, m);
  }
}
