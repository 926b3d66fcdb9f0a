/**
 First registered, first claimed, over every run of atomic_wait32 and atomic_wake
 (kernel/src/atomic_wait.rs:143-198, 238-308).
 */
module AtomicWaitFifo {
  import opened Wrappers
  import opened BlockedLedger
  import opened AtomicWaitIndex
  import opened AtomicWaitQueue
  import opened AtomicWaitMachine
  import opened AtomicWaitInvariant
  import opened AtomicWaitPreservation
  import opened AtomicWaitRuns

  /** In a reachable state no two live entries belong to one blocked generation. */
  lemma WakesAreDistinct(s: State)
    requires Inv(s)
    ensures Sequenced(s.index.slots) && DistinctWakes(s.index.slots)
  {
    var slots := s.index.slots;
    forall i, j | 0 <= i < j < |slots| && slots[i].entry.Some? && slots[j].entry.Some?
      ensures slots[i].entry.value.wake != slots[j].entry.value.wake
    {
      assert SlotOwned(s, i) && SlotOwned(s, j);
    }
  }

  /** In every reachable state a wake hands out the first `count` waiters of its key that have no winner, or all of them. */
  lemma BatchIsFirst(s: State, key: AtomicWaitKey, count: nat)
    requires Inv(s)
    ensures TakesFirst(Batch(s, Wake(key, count)), Unclaimed(Queue(s.index.slots, key), s.winners), count)
  {
    hide Inv, Claim, Queue, Unclaimed, TakesFirst;
    WakesAreDistinct(s);
    ClaimTakesFirst(s.index.slots, s.winners, key, count);
  }

  // ----- Entries keep the number they were registered under -----

  /** The step puts `wake` into the index on `key`. */
  ghost predicate Enqueues(s: State, step: Step, key: AtomicWaitKey, wake: BlockWakeKey) {
    && step.Reread? && At(s, step.t, Armed) && s.waiters[step.t].key == key && s.waiters[step.t].wake == wake
    && Word(s, key) == s.waiters[step.t].expected && Register(s.index, key, wake).1.Success?
  }

  predicate SlotFrom(before: Slot, after: Slot) { after.entry.Some? ==> after.entry == before.entry }

  /** Every entry after a step was there before it, or was put there by it. */
  ghost predicate EntriesFrom(s: State, step: Step, s': State) {
    && |s'.index.slots| == |s.index.slots|
    && forall j :: 0 <= j < |s.index.slots| ==>
         || SlotFrom(s.index.slots[j], s'.index.slots[j])
         || (&& step.Reread? && At(s, step.t, Armed)
             && Enqueues(s, step, s.waiters[step.t].key, s.waiters[step.t].wake)
             && s'.index.slots[j].entry == Some(Entry(s.waiters[step.t].key, s.waiters[step.t].wake, s.index.nextSequence)))
  }

  lemma WakeEntries(s: State, key: AtomicWaitKey, count: nat)
    ensures var s' := DoWake(s, key, count);
            && |s'.index.slots| == |s.index.slots| && s'.index.nextSequence == s.index.nextSequence
            && forall j :: 0 <= j < |s.index.slots| ==> SlotFrom(s.index.slots[j], s'.index.slots[j])
  {
    hide Claim, Limit;
    var limit := Limit(count, |s.index.slots|);
    ClaimHasSlotEffect(s.index.slots, s.winners, key, limit);
    forall j | 0 <= j < |s.index.slots| ensures SlotFrom(s.index.slots[j], Claim(s.index.slots, s.winners, key, limit).slots[j]) {
      assert KeptOrTaken(s.index.slots[j], Claim(s.index.slots, s.winners, key, limit).slots[j], key);
    }
  }

  lemma StepEntries(s: State, step: Step)
    requires Inv(s) && Enabled(s, step)
    ensures EntriesFrom(s, step, Apply(s, step)) && s.index.nextSequence <= Apply(s, step).index.nextSequence
    ensures step.Reread? && Enqueues(s, step, s.waiters[step.t].key, s.waiters[step.t].wake) ==>
              s.index.nextSequence < Apply(s, step).index.nextSequence
  {
    hide Inv, Enabled, Apply, DoWake, DoReread, DoCleanIndex, StepFacts, Enqueues;
    match step
    case Reread(t) =>
      RereadEntries(s, t);
      RereadApplies(s, t);
    case CleanIndex(t) =>
      CancelEntries(s, t);
      CancelApplies(s, t);
    case Wake(key, count) =>
      WakeEntries(s, key, count);
      WakeApplies(s, key, count);
    case _ =>
      StepIsLocal(s, step);
      SameIndex(s, Apply(s, step), step);
  }

  lemma RereadApplies(s: State, t: Thread)
    requires Enabled(s, Reread(t))
    ensures t in s.waiters && Apply(s, Reread(t)) == DoReread(s, t)
  {
  }

  lemma CancelApplies(s: State, t: Thread)
    requires Enabled(s, CleanIndex(t))
    ensures Apply(s, CleanIndex(t)) == DoCleanIndex(s, t)
  {
  }

  lemma WakeApplies(s: State, key: AtomicWaitKey, count: nat)
    ensures Apply(s, Wake(key, count)) == DoWake(s, key, count)
  {
  }

  lemma RereadEntries(s: State, t: Thread)
    requires Enabled(s, Reread(t))
    ensures EntriesFrom(s, Reread(t), DoReread(s, t)) && s.index.nextSequence <= DoReread(s, t).index.nextSequence
    ensures Enqueues(s, Reread(t), s.waiters[t].key, s.waiters[t].wake) ==>
              s.index.nextSequence < DoReread(s, t).index.nextSequence
  {
  }

  lemma CancelEntries(s: State, t: Thread)
    requires Enabled(s, CleanIndex(t))
    ensures EntriesFrom(s, CleanIndex(t), DoCleanIndex(s, t)) && DoCleanIndex(s, t).index.nextSequence == s.index.nextSequence
  {
  }

  /** The generation `wake` has been through its one registration. */
  ghost predicate Past(s: State, wake: BlockWakeKey) {
    && wake.token < s.nextToken
    && (Known(s, wake) ==> !s.waiters[wake.thread].stage.Prepared? && !s.waiters[wake.thread].stage.InLedger?
                           && !s.waiters[wake.thread].stage.Armed?)
  }

  /** What one step may do to a waiter: it moves on under its generation, or is given its generation. */
  predicate MovesOn(s: State, w: Waiter, w': Waiter) {
    || (w'.wake == w.wake && (Late(w.stage) ==> Late(w'.stage)) && KeepsDeadline(w, w'))
    || (w'.wake.token == s.nextToken && w.stage.Observed?)
  }

  predicate Late(stage: Stage) { !stage.Prepared? && !stage.InLedger? && !stage.Armed? }

  /** From the arming of its deadline to the end of its sleep. */
  predicate InForce(stage: Stage) { stage in {Armed, InIndex, Published, Checked, Committed, Suspended} }

  /** A waiter that has armed keeps its deadline until it cleans up, and cleaning up is for good. */
  predicate KeepsDeadline(w: Waiter, w': Waiter) {
    && (InForce(w.stage) ==> w'.stage.Cleaning? || (InForce(w'.stage) && w'.deadline == w.deadline))
    && (w.stage.Cleaning? ==> w'.stage.Cleaning?)
  }

  /** A waiter either moves on, or is new and far from registering. */
  ghost predicate OnlyForward(s: State, s': State, u: Thread) {
    && s.nextToken <= s'.nextToken
    && (u in s'.waiters ==> if u in s.waiters then MovesOn(s, s.waiters[u], s'.waiters[u]) else Late(s'.waiters[u].stage))
  }

  lemma FirstSteps(s: State, step: Step)
    requires Enabled(s, step) && (step.Begin? || step.Prepare?)
    ensures OnlyForward(s, Apply(s, step), step.t)
  {
  }

  /** Storing a waiter that keeps its generation and does not go back. */
  lemma PutForward(s: State, base: State, t: Thread, w: Waiter)
    requires t in s.waiters && base.nextToken == s.nextToken && w.wake == s.waiters[t].wake
    requires (Late(s.waiters[t].stage) ==> Late(w.stage)) && KeepsDeadline(s.waiters[t], w)
    ensures OnlyForward(s, Put(base, t, w), t)
  {
  }

  lemma EnterForward(s: State, t: Thread, ok: bool)
    requires At(s, t, Prepared)
    ensures OnlyForward(s, DoEnter(s, t, ok), t)
  {
    hide OnlyForward, Put;
    var w := s.waiters[t];
    PutForward(s, s.(winners := s.winners[w.wake := None]), t, w.(stage := InLedger, ledger := true));
    PutForward(s, s, t, Clean(w, Cancelled));
  }

  lemma ArmForward(s: State, t: Thread, arming: Arming)
    requires At(s, t, InLedger)
    ensures OnlyForward(s, DoArm(s, t, arming), t)
  {
    hide OnlyForward, Put;
    var w := s.waiters[t];
    match arming
    case Infinite => PutForward(s, s, t, w.(stage := Armed));
    case Finite => PutForward(s, s.(deadlines := s.deadlines + {w.wake}), t, w.(stage := Armed, deadline := true));
    case Expired => PutForward(s, s, t, Clean(w, Timeout));
    case Refused => PutForward(s, s, t, Clean(w, Cancelled));
  }

  lemma RereadForward(s: State, t: Thread)
    requires At(s, t, Armed)
    ensures OnlyForward(s, DoReread(s, t), t)
  {
    hide OnlyForward, Put, Register;
    var w := s.waiters[t];
    var (index, r) := Register(s.index, w.key, w.wake);
    PutForward(s, s, t, Clean(w, Cancelled));
    PutForward(s, s.(index := index), t, Clean(w, Cancelled));
    if r.Success? { PutForward(s, s.(index := index), t, w.(stage := InIndex, reg := Some(r.value))); }
  }

  lemma PublishForward(s: State, step: Step)
    requires Enabled(s, step) && (step.Publish? || step.Check?)
    ensures OnlyForward(s, Apply(s, step), step.t)
  {
    hide OnlyForward, Put, PublishFits;
    var t, w := step.t, s.waiters[step.t];
    if step.Check? {
      PutForward(s, s, t, w.(stage := Checked));
      if s.winners[w.wake].Some? { PutForward(s, s.(ops := s.ops - {t}), t, Clean(w, s.winners[w.wake].value).(op := false)); }
    } else {
      PutForward(s, s.(ops := s.ops[t := Operation(w.wake, w.pin, w.reg.value, w.deadline)]), t, w.(stage := Published, op := true));
      PutForward(s, s, t, Clean(w, Cancelled));
    }
  }

  lemma SleepForward(s: State, step: Step)
    requires Enabled(s, step) && (step.Commit? || step.Replay?)
    ensures OnlyForward(s, Apply(s, step), step.t)
  {
  }

  lemma WakeForward(s: State, step: Step)
    requires Enabled(s, step) && (step.Resume? || step.Terminate?)
    ensures OnlyForward(s, Apply(s, step), step.t)
  {
  }

  lemma CancelForward(s: State, t: Thread)
    requires CleaningAt(s, t) && s.waiters[t].reg.Some?
    ensures OnlyForward(s, DoCleanIndex(s, t), t)
  {
    hide OnlyForward, Put, Cancel;
    PutForward(s, s.(index := Cancel(s.index, s.waiters[t].reg.value).0), t, s.waiters[t].(reg := None));
  }

  lemma LedgerForward(s: State, t: Thread)
    requires CleaningAt(s, t) && s.waiters[t].wake in s.winners
    ensures OnlyForward(s, DoCleanLedger(s, t), t)
  {
    hide OnlyForward, Put;
    var w := s.waiters[t];
    match w.stage.plan
    case Fixed(_) => PutForward(s, s.(winners := s.winners - {w.wake}), t, w.(ledger := false));
    case TerminalLookup =>
      PutForward(s, s, t, w.(stage := Cleaning(TerminalClaim)));
      if s.winners[w.wake].Some? { PutForward(s, s, t, w.(stage := Cleaning(Fixed(s.winners[w.wake].value)))); }
    case TerminalClaim =>
      PutForward(s, s.(winners := s.winners[w.wake := Some(Terminal)]), t, w.(stage := Cleaning(Fixed(Terminal))));
  }

  lemma LeaveForward(s: State, step: Step)
    requires Enabled(s, step) && (step.CleanDeadline? || step.CleanBlock? || step.Return?)
    ensures OnlyForward(s, Apply(s, step), step.t)
  {
  }

  lemma OtherSteps(s: State, step: Step)
    requires Enabled(s, step) && (step.Store? || step.Wake? || step.Deliver? || step.Rival?)
    ensures Apply(s, step).waiters == s.waiters && Apply(s, step).nextToken == s.nextToken
  {
    hide Claim, Limit;
  }

  lemma OwnStep(s: State, step: Step)
    requires Enabled(s, step) && !step.Store? && !step.Wake? && !step.Deliver? && !step.Rival?
    ensures OnlyForward(s, Apply(s, step), step.t)
  {
    hide OnlyForward, DoEnter, DoArm, DoReread, DoCleanIndex, DoCleanLedger;
    if step.Begin? || step.Prepare? {
      FirstSteps(s, step);
    } else if step.Enter? {
      EnterForward(s, step.t, step.ok);
    } else if step.Arm? {
      ArmForward(s, step.t, step.arming);
    } else if step.Reread? {
      RereadForward(s, step.t);
    } else if step.Publish? || step.Check? {
      PublishForward(s, step);
    } else if step.Commit? || step.Replay? {
      SleepForward(s, step);
    } else if step.Resume? || step.Terminate? {
      WakeForward(s, step);
    } else if step.CleanIndex? {
      CancelForward(s, step.t);
    } else if step.CleanLedger? {
      LedgerForward(s, step.t);
    } else {
      LeaveForward(s, step);
    }
  }

  lemma ForeignStep(s: State, s': State, step: Step, wake: BlockWakeKey)
    requires StepFacts(s, s', step) && Actor(step) != wake.thread && Past(s, wake)
    ensures Past(s', wake)
  {
    hide Inv, Follows, StaysSettled, Calm, WakeSame;
    assert ThreadSame(s, s', wake.thread);
  }

  lemma PastStays(s: State, step: Step, wake: BlockWakeKey)
    requires Inv(s) && Enabled(s, step) && Past(s, wake)
    ensures Past(Apply(s, step), wake)
  {
    hide Inv, Enabled, Apply, StepFacts;
    if step.Store? || step.Wake? || step.Deliver? || step.Rival? {
      OtherSteps(s, step);
    } else if step.t == wake.thread {
      OwnStep(s, step);
    } else {
      StepIsLocal(s, step);
      ForeignStep(s, Apply(s, step), step, wake);
    }
  }

  // ----- The numbers over a run -----

  /** Any live entry of this generation is the one registered under `sequence`. */
  ghost predicate Numbered(s: State, key: AtomicWaitKey, wake: BlockWakeKey, sequence: nat) {
    forall j :: 0 <= j < |s.index.slots| && s.index.slots[j].entry.Some? && s.index.slots[j].entry.value.wake == wake ==>
      s.index.slots[j].entry == Some(Entry(key, wake, sequence))
  }

  /** A waiter about to register has a real generation of its own and nothing in the index. */
  lemma ArmedIsFresh(s: State, t: Thread)
    requires Inv(s) && At(s, t, Armed)
    ensures s.waiters[t].wake.thread == t && Numbered(s, s.waiters[t].key, s.waiters[t].wake, s.index.nextSequence)
  {
    assert WaiterOk(s, t);
    forall j | 0 <= j < |s.index.slots| && s.index.slots[j].entry.Some? ensures s.index.slots[j].entry.value.wake != s.waiters[t].wake {
      assert SlotOwned(s, j);
    }
  }

  lemma StaysNumbered(s: State, step: Step, key: AtomicWaitKey, wake: BlockWakeKey, sequence: nat)
    requires Inv(s) && Enabled(s, step) && Past(s, wake) && Numbered(s, key, wake, sequence)
    ensures Numbered(Apply(s, step), key, wake, sequence)
  {
    hide Inv, Enabled, Apply;
    StepEntries(s, step);
    if step.Reread? && At(s, step.t, Armed) { OwnThread(s, step.t); }
    var s' := Apply(s, step);
    forall j | 0 <= j < |s'.index.slots| && s'.index.slots[j].entry.Some? && s'.index.slots[j].entry.value.wake == wake
      ensures s'.index.slots[j].entry == Some(Entry(key, wake, sequence))
    {
      assert SlotFrom(s.index.slots[j], s'.index.slots[j]);
    }
  }

  lemma RegistrationIsPast(s: State, step: Step, key: AtomicWaitKey, wake: BlockWakeKey)
    requires Enabled(s, step) && Enqueues(s, step, key, wake) && wake.thread == step.t && wake.token < s.nextToken
    ensures Past(Apply(s, step), wake)
  {
    hide Register;
    RereadApplies(s, step.t);
  }

  lemma RegistrationNumbers(s: State, step: Step, key: AtomicWaitKey, wake: BlockWakeKey)
    requires Inv(s) && Enabled(s, step) && Enqueues(s, step, key, wake)
    ensures Past(Apply(s, step), wake) && Numbered(Apply(s, step), key, wake, s.index.nextSequence)
    ensures s.index.nextSequence < Apply(s, step).index.nextSequence
  {
    ArmedIsFresh(s, step.t);
    assert WaiterOk(s, step.t);
    hide Inv, WaiterOk, Enabled, Apply, Past, Register;
    RegistrationIsPast(s, step, key, wake);
    StepEntries(s, step);
    var s' := Apply(s, step);
    forall j | 0 <= j < |s'.index.slots| && s'.index.slots[j].entry.Some? && s'.index.slots[j].entry.value.wake == wake
      ensures s'.index.slots[j].entry == Some(Entry(key, wake, s.index.nextSequence))
    {
      assert SlotFrom(s.index.slots[j], s'.index.slots[j]) ==> s'.index.slots[j].entry == s.index.slots[j].entry;
    }
  }

  /** A generation that was registered once is past it, and its entry keeps the number. */
  lemma {:induction false} KeepsNumber(states: seq<State>, steps: seq<Step>, i: nat, n: nat, key: AtomicWaitKey, wake: BlockWakeKey)
    requires Run(states, steps) && i < n < |states| && Enqueues(states[i], steps[i], key, wake)
    ensures Past(states[n], wake) && Numbered(states[n], key, wake, states[i].index.nextSequence)
    ensures states[i].index.nextSequence < states[n].index.nextSequence
    decreases n
  {
    hide Inv, Enabled, Apply, Initial, Past, Numbered, Enqueues;
    RunInv(states, steps, n - 1);
    RunStep(states, steps, n - 1);
    if i + 1 == n {
      RegistrationNumbers(states[i], steps[i], key, wake);
    } else {
      KeepsNumber(states, steps, i, n - 1, key, wake);
      PastStays(states[n - 1], steps[n - 1], wake);
      StaysNumbered(states[n - 1], steps[n - 1], key, wake, states[i].index.nextSequence);
      StepEntries(states[n - 1], steps[n - 1]);
    }
  }

  // ----- Order inside one claim -----

  lemma {:induction false} UnclaimedFrom(q: seq<Entry>, winners: WinnerMap, wake: BlockWakeKey)
    requires wake in Unclaimed(q, winners)
    ensures exists b :: 0 <= b < |q| && q[b].wake == wake
  {
    if q != [] && !(Claimable(winners, q[0].wake) && q[0].wake == wake) {
      UnclaimedFrom(q[1..], winners, wake);
      var b :| 0 <= b < |q[1..]| && q[1..][b].wake == wake;
      assert q[b + 1].wake == wake;
    }
  }

  lemma {:induction false} UnclaimedHas(q: seq<Entry>, winners: WinnerMap, b: nat)
    requires b < |q| && Claimable(winners, q[b].wake)
    ensures q[b].wake in Unclaimed(q, winners)
  {
    if b > 0 { UnclaimedHas(q[1..], winners, b - 1); }
  }

  /** Queue order is batch order. */
  lemma {:induction false} UnclaimedBefore(q: seq<Entry>, winners: WinnerMap, a: nat, b: nat) returns (x: nat, y: nat)
    requires a < b < |q| && Claimable(winners, q[a].wake) && Claimable(winners, q[b].wake)
    ensures x < y < |Unclaimed(q, winners)|
    ensures Unclaimed(q, winners)[x] == q[a].wake && Unclaimed(q, winners)[y] == q[b].wake
  {
    var rest := Unclaimed(q[1..], winners);
    if a == 0 {
      UnclaimedHas(q[1..], winners, b - 1);
      var k :| 0 <= k < |rest| && rest[k] == q[b].wake;
      x, y := 0, k + 1;
    } else {
      x, y := UnclaimedBefore(q[1..], winners, a - 1, b - 1);
      if Claimable(winners, q[0].wake) { x, y := x + 1, y + 1; }
    }
  }

  /** Two live entries of one key, both without a winner: if a claim takes the later number, it took the earlier one first. */
  lemma ClaimTakesEarlierFirst(slots: seq<Slot>, winners: WinnerMap, key: AtomicWaitKey, limit: nat, e: Entry, f: Entry)
    returns (x: nat, y: nat)
    requires Sequenced(slots) && DistinctWakes(slots) && Live(slots, e) && Live(slots, f) && e.key == key && f.key == key
    requires e.sequence < f.sequence && Claimable(winners, e.wake) && f.wake in Claim(slots, winners, key, limit).batch
    ensures var batch := Claim(slots, winners, key, limit).batch;
            x < y < |batch| && batch[x] == e.wake && batch[y] == f.wake
  {
    hide Claim, Queue, Unclaimed;
    var q := Queue(slots, key);
    QueueIsQueue(slots, key);
    var popped := ClaimIsFifo(slots, winners, key, limit);
    ClaimHasWinnerEffect(slots, winners, key, limit);
    var a :| 0 <= a < |q| && q[a] == e;
    UnclaimedFrom(q[..popped], winners, f.wake);
    var b :| 0 <= b < popped && q[..popped][b].wake == f.wake;
    SameWakeSameEntry(slots, key, q, b, f);
    assert a < b;
    assert q[..popped][a] == e;
    x, y := UnclaimedBefore(q[..popped], winners, a, b);
  }

  lemma SameWakeSameEntry(slots: seq<Slot>, key: AtomicWaitKey, q: seq<Entry>, b: nat, f: Entry)
    requires DistinctWakes(slots) && IsQueue(slots, key, q) && b < |q| && q[b].wake == f.wake && Live(slots, f)
    ensures q[b] == f
  {
    assert q[b] in q;
    var i :| 0 <= i < |slots| && slots[i].entry == Some(q[b]);
    var j :| 0 <= j < |slots| && slots[j].entry == Some(f);
  }

  // ----- Order over a run -----

  /** The waiter of this generation is in the index and nobody has won it yet. */
  ghost predicate Waits(s: State, wake: BlockWakeKey) {
    Known(s, wake) && s.waiters[wake.thread].reg.Some? && Claimable(s.winners, wake)
  }

  lemma WaitsLive(s: State, wake: BlockWakeKey, key: AtomicWaitKey, sequence: nat)
    requires Inv(s) && Waits(s, wake) && Numbered(s, key, wake, sequence)
    ensures Live(s.index.slots, Entry(key, wake, sequence))
  {
    assert WaiterOk(s, wake.thread);
    var j := s.waiters[wake.thread].reg.value.slot;
    assert s.index.slots[j].entry == Some(Entry(key, wake, sequence));
  }

  lemma BatchedLive(s: State, key: AtomicWaitKey, count: nat, wake: BlockWakeKey, on: AtomicWaitKey, sequence: nat)
    requires Numbered(s, on, wake, sequence) && wake in Batch(s, Wake(key, count))
    ensures on == key && Live(s.index.slots, Entry(key, wake, sequence))
  {
    hide Claim;
    var limit := Limit(count, |s.index.slots|);
    ClaimHasSlotEffect(s.index.slots, s.winners, key, limit);
    var j: nat :| TakenAt(s.index.slots, Claim(s.index.slots, s.winners, key, limit).slots, key, wake, j);
    assert s.index.slots[j].entry == Some(Entry(on, wake, sequence));
  }

  /**
   Of two waiters on one word, the one that registered first is claimed first: if a
   wake takes the later one while the earlier is still waiting, it took the earlier
   one too, and before it.
   */
  lemma FirstRegisteredFirstClaimed(states: seq<State>, steps: seq<Step>, i: nat, j: nat, n: nat,
                                    key: AtomicWaitKey, v: BlockWakeKey, w: BlockWakeKey) returns (x: nat, y: nat)
    requires Run(states, steps) && i < j < n < |steps|
    requires Enqueues(states[i], steps[i], key, v) && Enqueues(states[j], steps[j], key, w)
    requires Waits(states[n], v) && w in Batch(states[n], steps[n])
    ensures var batch := Batch(states[n], steps[n]); x < y < |batch| && batch[x] == v && batch[y] == w
  {
    assert |states| == |steps| + 1;
    hide Run, Inv, Enqueues, Waits, Numbered, Past, Sequenced, DistinctWakes, Live;
    RunInv(states, steps, n);
    KeepsNumber(states, steps, i, n, key, v);
    KeepsNumber(states, steps, i, j, key, v);
    KeepsNumber(states, steps, j, n, key, w);
    var s := states[n];
    WakesAreDistinct(s);
    WaitsLive(s, v, key, states[i].index.nextSequence);
    BatchedLive(s, steps[n].key, steps[n].count, w, key, states[j].index.nextSequence);
    WaitsClaimable(s, v);
    x, y := ClaimTakesEarlierFirst(s.index.slots, s.winners, key, Limit(steps[n].count, |s.index.slots|),
                                   Entry(key, v, states[i].index.nextSequence), Entry(key, w, states[j].index.nextSequence));
  }

  lemma WaitsClaimable(s: State, wake: BlockWakeKey)
    requires Waits(s, wake)
    ensures Claimable(s.winners, wake)
  {
  }
}
