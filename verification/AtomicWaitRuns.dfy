/**
 What holds over every run of atomic_wait32 and atomic_wake
 (kernel/src/atomic_wait.rs:143-198, 238-278, 601-910).
 */
module AtomicWaitRuns {
  import opened Wrappers
  import opened BlockedLedger
  import opened AtomicWaitIndex
  import opened AtomicWaitQueue
  import opened AtomicWaitTokens
  import opened AtomicWaitMachine
  import opened AtomicWaitInvariant
  import opened AtomicWaitPreservation

  lemma RunStep(states: seq<State>, steps: seq<Step>, i: nat)
    requires Run(states, steps) && i < |steps|
    ensures Enabled(states[i], steps[i]) && states[i + 1] == Apply(states[i], steps[i])
  {
    hide Enabled, Apply, Initial;
  }

  lemma {:induction false} RunInv(states: seq<State>, steps: seq<Step>, i: nat)
    requires Run(states, steps) && i < |states|
    ensures Inv(states[i])
  {
    hide Enabled, Apply, Inv, Initial;
    if i == 0 {
      InitialInv(states[0]);
    } else {
      RunInv(states, steps, i - 1);
      RunStep(states, steps, i - 1);
      Preserved(states[i - 1], steps[i - 1]);
    }
  }

  // ----- Ownership between calls -----

  ghost predicate Resting(s: State) {
    forall t :: t in s.waiters ==> s.waiters[t].stage.Suspended?
  }

  /** Some slot holds an entry of this wake key. */
  ghost predicate Indexed(s: State, wake: BlockWakeKey) {
    exists j :: 0 <= j < |s.index.slots| && s.index.slots[j].entry.Some? && s.index.slots[j].entry.value.wake == wake
  }

  /**
   Between calls, in every reachable state: each live index entry belongs to
   exactly one published operation, with the same token and wake key; each published
   operation has its live entry or a recorded winner; and each pin ever handed in
   sits in exactly one operation or has come back exactly once.
   */
  lemma OwnershipBetweenCalls(states: seq<State>, steps: seq<Step>, i: nat)
    requires Run(states, steps) && i < |states| && Resting(states[i])
    ensures var s := states[i];
            && (forall j :: 0 <= j < |s.index.slots| && s.index.slots[j].entry.Some? ==>
                  var e := s.index.slots[j].entry.value;
                  e.wake.thread in s.ops && s.ops[e.wake.thread].wake == e.wake
                  && s.ops[e.wake.thread].reg == Registration(s.index.domain, j, s.index.slots[j].generation, e.key, e.wake))
            && (forall t :: t in s.ops ==>
                  var o := s.ops[t];
                  && o.wake.thread == t && o.wake in s.winners
                  && (s.winners[o.wake].Some? || (OwnLive(s.index, o.reg) && s.index.slots[o.reg.slot].entry.value.wake == o.wake)))
            && (forall p :: p in s.issued ==> (p in s.returned) != (exists t :: t in s.ops && s.ops[t].pin == p))
            && (forall t, u :: t in s.ops && u in s.ops && t != u ==> s.ops[t].pin != s.ops[u].pin)
            && (forall a, b :: 0 <= a < b < |s.returned| ==> s.returned[a] != s.returned[b])
  {
    var s := states[i];
    RunInv(states, steps, i);
    forall t | t in s.waiters ensures t in s.ops && s.ops[t].pin == s.waiters[t].pin { assert WaiterOk(s, t); }
    forall j | 0 <= j < |s.index.slots| && s.index.slots[j].entry.Some?
      ensures var e := s.index.slots[j].entry.value;
              e.wake.thread in s.ops && s.ops[e.wake.thread].wake == e.wake
              && s.ops[e.wake.thread].reg == Registration(s.index.domain, j, s.index.slots[j].generation, e.key, e.wake)
    {
      assert SlotOwned(s, j);
      assert WaiterOk(s, s.index.slots[j].entry.value.wake.thread);
    }
    forall t | t in s.ops
      ensures var o := s.ops[t];
              && o.wake.thread == t && o.wake in s.winners
              && (s.winners[o.wake].Some? || (OwnLive(s.index, o.reg) && s.index.slots[o.reg.slot].entry.value.wake == o.wake))
    {
      assert WaiterOk(s, t);
    }
    hide AllOk, WaiterOk, NoOrphans;
    forall p | p in s.issued ensures (p in s.returned) != (exists t :: t in s.ops && s.ops[t].pin == p) {
      if p !in s.returned {
        var t :| t in s.waiters && s.waiters[t].pin == p;
        assert t in s.ops && s.ops[t].pin == p;
      }
    }
  }

  // ----- The transaction -----

  lemma IndexedIsKnown(s: State, w: BlockWakeKey)
    requires (forall j :: 0 <= j < |s.index.slots| ==> SlotOwned(s, j)) && Indexed(s, w)
    ensures Known(s, w)
  {
    var j :| 0 <= j < |s.index.slots| && s.index.slots[j].entry.Some? && s.index.slots[j].entry.value.wake == w;
    assert SlotOwned(s, j);
  }

  /** Nothing in any authority is recorded under thread `t`. */
  ghost predicate Traceless(s: State, t: Thread) {
    && t !in s.pending && t !in s.ops
    && forall w: BlockWakeKey :: w.thread == t ==> w !in s.winners && w !in s.deadlines && w !in s.blocked && !Indexed(s, w)
  }

  /**
   Rollback is complete: whenever a thread is outside the wait code, however it got
   out and whatever others did meanwhile, no authority remembers it.
   */
  lemma ExitLeavesNoTrace(states: seq<State>, steps: seq<Step>, i: nat, t: Thread)
    requires Run(states, steps) && i < |states| && t !in states[i].waiters
    ensures Traceless(states[i], t)
  {
    var s := states[i];
    RunInv(states, steps, i);
    hide AllOk, PinsOk;
    forall w: BlockWakeKey | w.thread == t ensures w !in s.winners && w !in s.deadlines && w !in s.blocked && !Indexed(s, w) {
      if Indexed(s, w) { IndexedIsKnown(s, w); }
    }
  }

  /**
   `Suspended` leaves one operation, one ledger entry, one index registration, the
   deadline it armed and no block reservation, all under one wake key of the thread.
   */
  lemma SuspendedHoldsOneOfEach(states: seq<State>, steps: seq<Step>, i: nat, t: Thread)
    requires Run(states, steps) && i < |states| && At(states[i], t, Suspended)
    ensures var s := states[i];
            && t in s.ops && t !in s.pending
            && var o := s.ops[t];
               && o.wake.thread == t && o.reg.wake == o.wake
               && o.wake in s.winners && (o.deadline <==> o.wake in s.deadlines)
               && (s.winners[o.wake].None? ==> OwnLive(s.index, o.reg) && o.wake in s.blocked)
               && (forall w: BlockWakeKey :: w.thread == t && w != o.wake ==>
                     w !in s.winners && w !in s.deadlines && w !in s.blocked && !Indexed(s, w))
  {
    var s := states[i];
    RunInv(states, steps, i);
    assert WaiterOk(s, t);
    hide AllOk, PinsOk;
    forall w: BlockWakeKey | w.thread == t && w != s.ops[t].wake
      ensures w !in s.winners && w !in s.deadlines && w !in s.blocked && !Indexed(s, w)
    {
      if Indexed(s, w) { IndexedIsKnown(s, w); }
    }
  }

  lemma StepFactsOf(states: seq<State>, steps: seq<Step>, i: nat)
    requires Run(states, steps) && i < |steps| && !steps[i].Wake?
    ensures Inv(states[i]) && StepFacts(states[i], states[i + 1], steps[i])
  {
    hide Inv, StepFacts, Enabled, Apply, Initial;
    RunInv(states, steps, i);
    RunStep(states, steps, i);
    StepIsLocal(states[i], steps[i]);
  }

  /** The step by which a thread leaves hands back the very pin it came with, and it had not come back before. */
  lemma PinComesBackOnce(states: seq<State>, steps: seq<Step>, i: nat, t: Thread)
    requires Run(states, steps) && i < |steps|
    requires t in states[i].waiters && t !in states[i + 1].waiters
    ensures states[i + 1].returned == states[i].returned + [states[i].waiters[t].pin]
    ensures states[i].waiters[t].pin !in states[i].returned
    ensures Traceless(states[i + 1], t)
  {
    hide Inv, Traceless, Enabled, Initial, Claim, Frame, Follows, Calm, StaysSettled;
    RunInv(states, steps, i);
    InvParts(states[i]);
    ExitLeavesNoTrace(states, steps, i + 1, t);
    RunStep(states, steps, i);
    if !steps[i].Wake? {
      StepFactsOf(states, steps, i);
      OthersStay(states[i], states[i + 1], Actor(steps[i]), t);
    }
  }

  lemma OthersStay(s: State, s': State, actor: Thread, t: Thread)
    requires Frame(s, s', actor) && t in s.waiters && t !in s'.waiters
    ensures t == actor
  {
    assert t != actor ==> ThreadSame(s, s', t);
  }

  // ----- Which expectations can fail -----

  /** The cleanup step the code runs next. */
  function NextCleanup(w: Waiter, t: Thread): Step {
    if w.reg.Some? then CleanIndex(t)
    else if w.ledger then CleanLedger(t)
    else if w.deadline then CleanDeadline(t)
    else if w.block then CleanBlock(t)
    else Return(t)
  }

  lemma SleepersNeverTrip(s: State, t: Thread)
    requires t in s.waiters && WaiterOk(s, t)
    ensures At(s, t, Checked) ==> Enabled(s, Commit(t))
    ensures At(s, t, Committed) ==> Enabled(s, Replay(t))
    ensures At(s, t, Suspended) ==> Enabled(s, Terminate(t))
    ensures At(s, t, Suspended) && s.waiters[t].wake !in s.blocked ==> Enabled(s, Resume(t))
  {
    hide TokenOk;
  }

  lemma CleanupTripsIff(s: State, t: Thread)
    requires CleaningAt(s, t) && WaiterOk(s, t)
    ensures var w := s.waiters[t];
            Enabled(s, NextCleanup(w, t)) <==> w.reg.Some? || !w.ledger || PlanAdmits(w.stage.plan, Recorded(s, t))
  {
    hide SleepOk;
  }

  lemma CheckTripsIff(s: State, t: Thread)
    requires At(s, t, Published) && WaiterOk(s, t)
    ensures Enabled(s, Check(t)) <==> Recorded(s, t) in {None, Some(AtomicWake), Some(Timeout)}
  {
    hide SleepOk, TokenOk;
  }

  /**
   Of all the `expect`s and asserts in begin, finish and terminal cleanup, only a
   foreign winner can trip one, and exactly then: index cancels, deadline and block
   cancels, the commit, the operation lookup and the resumed thread's winner lookup
   never fail.
   */
  lemma OnlyForeignWinnersTrip(s: State, t: Thread)
    requires Inv(s) && t in s.waiters
    ensures At(s, t, Published) ==> (Enabled(s, Check(t)) <==> Recorded(s, t) in {None, Some(AtomicWake), Some(Timeout)})
    ensures At(s, t, Checked) ==> Enabled(s, Commit(t))
    ensures At(s, t, Committed) ==> Enabled(s, Replay(t))
    ensures At(s, t, Suspended) ==> Enabled(s, Terminate(t))
    ensures At(s, t, Suspended) && s.waiters[t].wake !in s.blocked ==> Enabled(s, Resume(t))
    ensures CleaningAt(s, t) ==>
              var w := s.waiters[t];
              (Enabled(s, NextCleanup(w, t)) <==> w.reg.Some? || !w.ledger || PlanAdmits(w.stage.plan, Recorded(s, t)))
  {
    assert WaiterOk(s, t);
    hide Inv, WaiterOk, Enabled, Recorded, NextCleanup, PlanAdmits;
    SleepersNeverTrip(s, t);
    if CleaningAt(s, t) { CleanupTripsIff(s, t); }
    if At(s, t, Published) { CheckTripsIff(s, t); }
  }

  ghost predicate AllUncontested(s: State) {
    forall t :: t in s.waiters ==> Uncontested(s, t)
  }

  lemma LocalStepKeepsCalm(s: State, s': State, step: Step)
    requires Inv(s) && AllUncontested(s) && Polite(s, step) && StepFacts(s, s', step)
    ensures AllUncontested(s')
  {
    forall u | u in s'.waiters ensures Uncontested(s', u) {
      if u != Actor(step) {
        assert ThreadSame(s, s', u);
        assert WaiterOk(s, u);
        assert WakeSame(s, s', s.waiters[u].wake);
        assert Recorded(s', u) == Recorded(s, u);
      }
    }
  }

  lemma WakeCalmAt(s: State, s': State, key: AtomicWaitKey, c: Claimed, u: Thread)
    requires Wakes(s, s', key, c) && u in s.waiters && Uncontested(s, u) && s.waiters[u].wake.thread == u && Shape(s.waiters[u])
    requires forall j :: 0 <= j < |s.index.slots| ==> SlotOwned(s, j)
    ensures Uncontested(s', u)
  {
    var w := s.waiters[u];
    if w.wake in c.batch {
      var j :| TakenAt(s.index.slots, c.slots, key, w.wake, j);
      assert SlotOwned(s, j);
      assert w.reg.Some?;
    }
  }

  lemma WakeKeepsCalm(s: State, s': State, key: AtomicWaitKey, c: Claimed)
    requires Inv(s) && AllUncontested(s) && Wakes(s, s', key, c)
    ensures AllUncontested(s')
  {
    assert s'.waiters == s.waiters;
    forall u | u in s.waiters ensures s.waiters[u].wake.thread == u && Shape(s.waiters[u]) { assert WaiterOk(s, u); }
    hide Inv, Wakes, Uncontested, SlotOwned, Shape;
    InvSlots(s);
    forall u | u in s'.waiters ensures Uncontested(s', u) { WakeCalmAt(s, s', key, c, u); }
  }

  lemma CalmPreserved(s: State, step: Step)
    requires Inv(s) && Enabled(s, step) && AllUncontested(s) && Polite(s, step)
    ensures AllUncontested(Apply(s, step))
  {
    hide Inv, Enabled, AllUncontested, Polite, StepFacts, Claim, SlotEffect, WinnerEffect;
    if step.Wake? {
      var limit := Limit(step.count, |s.index.slots|);
      ClaimHasSlotEffect(s.index.slots, s.winners, step.key, limit);
      ClaimHasWinnerEffect(s.index.slots, s.winners, step.key, limit);
      WakeKeepsCalm(s, Apply(s, step), step.key, Claim(s.index.slots, s.winners, step.key, limit));
    } else {
      StepIsLocal(s, step);
      LocalStepKeepsCalm(s, Apply(s, step), step);
    }
  }

  lemma InitialCalm(s: State)
    requires Initial(s)
    ensures AllUncontested(s)
  {
  }

  ghost predicate PoliteRun(states: seq<State>, steps: seq<Step>) {
    Run(states, steps) && forall k :: 0 <= k < |steps| ==> Polite(states[k], steps[k])
  }

  lemma {:induction false} RunIsCalm(states: seq<State>, steps: seq<Step>, i: nat)
    requires PoliteRun(states, steps) && i < |states|
    ensures AllUncontested(states[i])
  {
    hide Inv, Enabled, Apply, AllUncontested, Polite, Initial;
    if i == 0 {
      InitialCalm(states[0]);
    } else {
      RunIsCalm(states, steps, i - 1);
      RunInv(states, steps, i - 1);
      RunStep(states, steps, i - 1);
      CalmPreserved(states[i - 1], steps[i - 1]);
    }
  }

  /**
   When rivals keep to the window the code leaves them (a timeout once the waiter
   is indexed, anyone once the final check has passed), nothing the transaction
   expects ever fails: a waiter can always take its next step.
   */
  lemma PoliteRunsNeverTrip(states: seq<State>, steps: seq<Step>, i: nat, t: Thread)
    requires PoliteRun(states, steps) && i < |states| && t in states[i].waiters
    ensures At(states[i], t, Published) ==> Enabled(states[i], Check(t))
    ensures At(states[i], t, Checked) ==> Enabled(states[i], Commit(t))
    ensures At(states[i], t, Committed) ==> Enabled(states[i], Replay(t))
    ensures At(states[i], t, Suspended) && states[i].waiters[t].wake !in states[i].blocked ==> Enabled(states[i], Resume(t))
    ensures CleaningAt(states[i], t) ==> Enabled(states[i], NextCleanup(states[i].waiters[t], t))
  {
    hide Inv, Enabled, NextCleanup, Initial, Polite;
    RunInv(states, steps, i);
    RunIsCalm(states, steps, i);
    OnlyForeignWinnersTrip(states[i], t);
    assert Uncontested(states[i], t);
  }

  /** The shortest rude run: the armed deadline fires before the reread sees a changed word. */
  function RudeSteps(t: Thread, key: AtomicWaitKey, pin: Pin, token: nat): seq<Step> {
    [Begin(t, key, 0, false, pin), Prepare(t, true), Enter(t, true), Arm(t, Finite),
     Rival(BlockWakeKey(token, t), Timeout), Store(key, 1), Reread(t)]
  }

  /** Where that run stands with its deadline armed and `recorded` in the ledger. */
  ghost predicate ArmedWith(s: State, s0: State, t: Thread, key: AtomicWaitKey, pin: Pin, recorded: Option<Winner>) {
    var w := BlockWakeKey(s0.nextToken, t);
    && t in s.waiters && s.waiters[t] == Waiter(Armed, key, 0, pin, w, true, true, true, None, false)
    && w in s.winners && s.winners[w] == recorded && s.words == s0.words
  }

  lemma RudeStart(s0: State, t: Thread, key: AtomicWaitKey, pin: Pin) returns (s1: State, s2: State, s3: State, s4: State)
    requires Initial(s0) && s0.capacity > 0 && Word(s0, key) == 0
    ensures Enabled(s0, Begin(t, key, 0, false, pin)) && s1 == Apply(s0, Begin(t, key, 0, false, pin))
    ensures Enabled(s1, Prepare(t, true)) && s2 == Apply(s1, Prepare(t, true))
    ensures Enabled(s2, Enter(t, true)) && s3 == Apply(s2, Enter(t, true))
    ensures Enabled(s3, Arm(t, Finite)) && s4 == Apply(s3, Arm(t, Finite))
    ensures ArmedWith(s4, s0, t, key, pin, None)
  {
    s1 := Apply(s0, Begin(t, key, 0, false, pin));
    s2 := Apply(s1, Prepare(t, true));
    s3 := Apply(s2, Enter(t, true));
    s4 := Apply(s3, Arm(t, Finite));
  }

  lemma RudeRace(s0: State, s4: State, t: Thread, key: AtomicWaitKey, pin: Pin) returns (s5: State, s6: State)
    requires ArmedWith(s4, s0, t, key, pin, None)
    ensures var rival := Rival(BlockWakeKey(s0.nextToken, t), Timeout); Enabled(s4, rival) && s5 == Apply(s4, rival)
    ensures Enabled(s5, Store(key, 1)) && s6 == Apply(s5, Store(key, 1))
    ensures ArmedWith(s6.(words := s0.words), s0, t, key, pin, Some(Timeout)) && Word(s6, key) == 1
  {
    hide Register, Claim;
    s5 := Apply(s4, Rival(BlockWakeKey(s0.nextToken, t), Timeout));
    s6 := Apply(s5, Store(key, 1));
  }

  lemma RudeEnd(s0: State, s6: State, t: Thread, key: AtomicWaitKey, pin: Pin) returns (s7: State)
    requires ArmedWith(s6.(words := s0.words), s0, t, key, pin, Some(Timeout)) && Word(s6, key) == 1
    ensures Enabled(s6, Reread(t)) && s7 == Apply(s6, Reread(t))
    ensures CleaningAt(s7, t) && s7.waiters[t].stage.plan == Fixed(Cancelled) && Recorded(s7, t) == Some(Timeout)
    ensures !Enabled(s7, NextCleanup(s7.waiters[t], t))
  {
    hide Register, Claim;
    s7 := DoReread(s6, t);
    assert NextCleanup(s7.waiters[t], t) == CleanLedger(t);
  }

  /**
   Politeness cannot be dropped: if the timer claims between arming the deadline and
   the reread, and the reread then finds the word changed, the cleanup's
   `complete(Cancelled)` finds `Timeout` recorded and the waiter is stuck on its `expect`.
   */
  lemma RudeTimeoutTrips(s0: State, t: Thread, key: AtomicWaitKey, pin: Pin) returns (states: seq<State>)
    requires Initial(s0) && s0.capacity > 0 && Word(s0, key) == 0
    ensures Run(states, RudeSteps(t, key, pin, s0.nextToken)) && states[0] == s0
    ensures CleaningAt(states[7], t) && states[7].waiters[t].stage.plan == Fixed(Cancelled)
    ensures Recorded(states[7], t) == Some(Timeout)
    ensures !Enabled(states[7], NextCleanup(states[7].waiters[t], t))
  {
    hide Initial, Enabled, Apply, ArmedWith, Recorded, NextCleanup, Word;
    assert Word(s0, key) == 0;
    var s1, s2, s3, s4 := RudeStart(s0, t, key, pin);
    var s5, s6 := RudeRace(s0, s4, t, key, pin);
    var s7 := RudeEnd(s0, s6, t, key, pin);
    states := [s0, s1, s2, s3, s4, s5, s6, s7];
  }

  // ----- No lost wake -----

  /** The count lets a claim take every entry there can be. */
  predicate WakesAll(s: State, count: nat) { count == WAKE_ALL || count >= |s.index.slots| }

  /** No entry of `key` in the index belongs to a waiter that expects `e`. */
  ghost predicate NoneIndexed(s: State, key: AtomicWaitKey, e: nat) {
    forall j :: 0 <= j < |s.index.slots| && Matches(s.index.slots[j], key) ==>
      var t := s.index.slots[j].entry.value.wake.thread;
      t in s.waiters && s.waiters[t].expected != e
  }

  lemma KeepsExpected(s: State, s': State, step: Step, u: Thread)
    requires Frame(s, s', Actor(step)) && Follows(s, s', Actor(step)) && u in s.waiters && u in s'.waiters
    ensures s'.waiters[u].expected == s.waiters[u].expected
  {
    if u != Actor(step) { assert ThreadSame(s, s', u); }
  }

  lemma LocalStepIndexesNone(s: State, s': State, step: Step, key: AtomicWaitKey, e: nat)
    requires Inv(s) && StepFacts(s, s', step) && s'.index.slots == s.index.slots && NoneIndexed(s, key, e)
    ensures NoneIndexed(s', key, e)
  {
    hide Frame, Follows, Calm, StaysSettled, AllOk, PinsOk, Wf;
    forall j | 0 <= j < |s'.index.slots| && Matches(s'.index.slots[j], key)
      ensures var t := s'.index.slots[j].entry.value.wake.thread; t in s'.waiters && s'.waiters[t].expected != e
    {
      assert SlotOwned(s', j);
      KeepsExpected(s, s', step, s.index.slots[j].entry.value.wake.thread);
    }
  }

  lemma RegisteredIndexesNone(s: State, s': State, t: Thread, reg: Registration, key: AtomicWaitKey, e: nat)
    requires NoneIndexed(s, key, e) && t in s.waiters && t in s'.waiters && s.waiters[t].wake.thread == t
    requires Registers(s.index, s'.index, s.waiters[t], reg) && (s.waiters[t].key == key ==> s.waiters[t].expected != e)
    requires s'.waiters == s.waiters[t := s'.waiters[t]] && s'.waiters[t].expected == s.waiters[t].expected
    ensures NoneIndexed(s', key, e)
  {
  }

  lemma AbandonedIndexesNone(s: State, s': State, t: Thread, key: AtomicWaitKey, e: nat)
    requires NoneIndexed(s, key, e) && t in s.waiters && t in s'.waiters && s'.index.slots == s.index.slots
    requires s'.waiters == s.waiters[t := s'.waiters[t]] && s'.waiters[t].expected == s.waiters[t].expected
    ensures NoneIndexed(s', key, e)
  {
  }

  /** The reread keeps every slot, or puts one entry of the waiter into an empty one. */
  lemma RereadShape(s: State, t: Thread, s': State)
    requires t in s.waiters && Wf(s.index) && s' == DoReread(s, t)
    ensures t in s'.waiters && s'.waiters == s.waiters[t := s'.waiters[t]] && s'.waiters[t].expected == s.waiters[t].expected
    ensures || s'.index.slots == s.index.slots
            || (&& Word(s, s.waiters[t].key) == s.waiters[t].expected
                && Register(s.index, s.waiters[t].key, s.waiters[t].wake).1.Success?
                && Registers(s.index, s'.index, s.waiters[t], Register(s.index, s.waiters[t].key, s.waiters[t].wake).1.value))
  {
    hide Register, Wf, Registers;
    RegisterRegisters(s.index, s.waiters[t]);
  }

  lemma RereadIndexesNone(s: State, t: Thread, key: AtomicWaitKey, e: nat)
    requires t in s.waiters && NoneIndexed(s, key, e) && Word(s, key) != e && Wf(s.index) && s.waiters[t].wake.thread == t
    ensures NoneIndexed(DoReread(s, t), key, e)
  {
    hide DoReread, Wf, Registers, NoneIndexed, Register;
    var s' := DoReread(s, t);
    RereadShape(s, t, s');
    if s'.index.slots == s.index.slots {
      AbandonedIndexesNone(s, s', t, key, e);
    } else {
      RegisteredIndexesNone(s, s', t, Register(s.index, s.waiters[t].key, s.waiters[t].wake).1.value, key, e);
    }
  }

  lemma CancelIndexesNone(s: State, t: Thread, key: AtomicWaitKey, e: nat)
    requires Enabled(s, CleanIndex(t)) && NoneIndexed(s, key, e)
    ensures NoneIndexed(DoCleanIndex(s, t), key, e)
  {
  }

  lemma WakeIndexesNone(s: State, s': State, on: AtomicWaitKey, c: Claimed, key: AtomicWaitKey, e: nat)
    requires Wakes(s, s', on, c) && NoneIndexed(s, key, e)
    ensures NoneIndexed(s', key, e)
  {
    assert forall j :: 0 <= j < |c.slots| ==> KeptOrTaken(s.index.slots[j], c.slots[j], on);
    hide SlotEffect, WinnerEffect;
  }

  /** While the word differs from `e`, nobody who expects `e` gets into the index. */
  lemma StepIndexesNone(s: State, step: Step, key: AtomicWaitKey, e: nat)
    requires Inv(s) && Enabled(s, step) && NoneIndexed(s, key, e) && Word(s, key) != e
    ensures NoneIndexed(Apply(s, step), key, e)
  {
    hide Inv, StepFacts, Claim, SlotEffect, WinnerEffect, NoneIndexed, Register, Cancel, Wf, WaiterOk, Word;
    if step.Wake? {
      var limit := Limit(step.count, |s.index.slots|);
      ClaimHasSlotEffect(s.index.slots, s.winners, step.key, limit);
      ClaimHasWinnerEffect(s.index.slots, s.winners, step.key, limit);
      WakeIndexesNone(s, Apply(s, step), step.key, Claim(s.index.slots, s.winners, step.key, limit), key, e);
    } else if step.Reread? {
      InvParts(s);
      InvIsLocal(s, step.t);
      OwnThread(s, step.t);
      RereadIndexesNone(s, step.t, key, e);
    } else if step.CleanIndex? {
      CancelIndexesNone(s, step.t, key, e);
    } else {
      StepIsLocal(s, step);
      SameIndex(s, Apply(s, step), step);
      LocalStepIndexesNone(s, Apply(s, step), step, key, e);
    }
  }

  lemma OwnThread(s: State, t: Thread)
    requires Inv(s) && t in s.waiters
    ensures s.waiters[t].wake.thread == t
  {
    assert WaiterOk(s, t);
  }

  lemma SameIndex(s: State, s': State, step: Step)
    requires StepFacts(s, s', step) && !step.Reread? && !step.CleanIndex?
    ensures s'.index == s.index
  {
  }

  lemma {:induction false} StaysUnindexed(states: seq<State>, steps: seq<Step>, key: AtomicWaitKey, e: nat, i: nat, j: nat)
    requires Run(states, steps) && i <= j < |states| && NoneIndexed(states[i], key, e)
    requires forall k :: i <= k < j ==> Word(states[k], key) != e
    ensures NoneIndexed(states[j], key, e)
  {
    hide Inv, Enabled, Apply, NoneIndexed, Initial, Word;
    if i < j {
      StaysUnindexed(states, steps, key, e, i, j - 1);
      assert Word(states[j - 1], key) != e;
      RunInv(states, steps, j - 1);
      RunStep(states, steps, j - 1);
      StepIndexesNone(states[j - 1], steps[j - 1], key, e);
    }
  }

  lemma WakeAllIndexesNone(s: State, key: AtomicWaitKey, count: nat, e: nat)
    requires WakesAll(s, count)
    ensures NoneIndexed(DoWake(s, key, count), key, e)
  {
    hide Claim;
    ClaimNeverOverflows(s.index.slots, s.winners, key, count);
  }

  /**
   No lost wake.  Take any run in which the word of `key` stops being `e` and some
   time later a wake-all on `key` goes through; as long as the word is not set back,
   whoever is still asleep expecting `e` there has already been given a winner, and
   the wake for it is on its way: in a dispatcher's hands, or about to be replayed
   by the waiter's own commit.
   */
  lemma NoLostWake(states: seq<State>, steps: seq<Step>, key: AtomicWaitKey, e: nat, stored: nat, woken: nat, now: nat, t: Thread)
    requires Run(states, steps) && stored <= woken < now < |states|
    requires forall k :: stored <= k <= now ==> Word(states[k], key) != e
    requires steps[woken].Wake? && steps[woken].key == key && WakesAll(states[woken], steps[woken].count)
    requires t in states[now].waiters
    requires states[now].waiters[t].key == key && states[now].waiters[t].expected == e && states[now].waiters[t].wake in states[now].blocked
    ensures var s := states[now];
            var w := s.waiters[t];
            && Recorded(s, t).Some?
            && (w.wake in s.undelivered || w.stage.Committed?)
  {
    hide Inv, Enabled, Apply, NoneIndexed, Initial, Word, Recorded;
    RunStep(states, steps, woken);
    AfterWakeAll(states[woken], steps[woken], e);
    StaysUnindexed(states, steps, key, e, woken + 1, now);
    RunInv(states, steps, now);
    SleeperHasWinner(states[now], key, e, t);
  }

  lemma AfterWakeAll(s: State, step: Step, e: nat)
    requires step.Wake? && WakesAll(s, step.count) && Enabled(s, step)
    ensures NoneIndexed(Apply(s, step), step.key, e)
  {
    hide NoneIndexed, DoWake;
    WakeAllIndexesNone(s, step.key, step.count, e);
  }

  lemma SleeperHasWinner(s: State, key: AtomicWaitKey, e: nat, t: Thread)
    requires Inv(s) && NoneIndexed(s, key, e)
    requires t in s.waiters && s.waiters[t].key == key && s.waiters[t].expected == e && s.waiters[t].wake in s.blocked
    ensures Recorded(s, t).Some? && (s.waiters[t].wake in s.undelivered || s.waiters[t].stage.Committed?)
  {
    assert WaiterOk(s, t);
    hide Inv;
  }

  /** Once every dispatched wake has landed and nobody is between commit and replay, nobody is asleep on the old value. */
  lemma NobodyOversleeps(states: seq<State>, steps: seq<Step>, key: AtomicWaitKey, e: nat, stored: nat, woken: nat, now: nat, t: Thread)
    requires Run(states, steps) && stored <= woken < now < |states|
    requires forall k :: stored <= k <= now ==> Word(states[k], key) != e
    requires steps[woken].Wake? && steps[woken].key == key && WakesAll(states[woken], steps[woken].count)
    requires states[now].undelivered == {} && t in states[now].waiters && !states[now].waiters[t].stage.Committed?
    requires states[now].waiters[t].key == key && states[now].waiters[t].expected == e
    ensures states[now].waiters[t].wake !in states[now].blocked
  {
    hide Run;
    if states[now].waiters[t].wake in states[now].blocked {
      NoLostWake(states, steps, key, e, stored, woken, now, t);
    }
  }

  // ----- One wake per block generation -----

  lemma SettledStays(s: State, step: Step, w: BlockWakeKey)
    requires Inv(s) && Enabled(s, step) && Settled(s, w)
    ensures Settled(Apply(s, step), w)
  {
    hide Inv, Claim, Frame, Follows, Calm, Enabled, SlotEffect;
    if step.Wake? {
      ClaimHasWinnerEffect(s.index.slots, s.winners, step.key, Limit(step.count, |s.index.slots|));
    } else {
      StepIsLocal(s, step);
      if w.thread != Actor(step) { ForeignSettled(s, Apply(s, step), Actor(step), w); }
    }
  }

  lemma ForeignSettled(s: State, s': State, t: Thread, w: BlockWakeKey)
    requires Frame(s, s', t) && w.thread != t && Settled(s, w)
    ensures Settled(s', w)
  {
    assert WakeSame(s, s', w) && ThreadSame(s, s', w.thread);
  }

  lemma {:induction false} SettledForGood(states: seq<State>, steps: seq<Step>, i: nat, j: nat, w: BlockWakeKey)
    requires Run(states, steps) && i <= j < |states| && Settled(states[i], w)
    ensures Settled(states[j], w)
  {
    hide Inv, Enabled, Apply, Settled, Initial;
    if i < j {
      SettledForGood(states, steps, i, j - 1, w);
      RunInv(states, steps, j - 1);
      RunStep(states, steps, j - 1);
      SettledStays(states[j - 1], steps[j - 1], w);
    }
  }

  /** The wakes one step hands out. */
  ghost function Batch(s: State, step: Step): seq<BlockWakeKey> {
    if step.Wake? then Claim(s.index.slots, s.winners, step.key, Limit(step.count, |s.index.slots|)).batch else []
  }

  /** Over a whole run a block generation is handed to at most one wake, and to that one once. */
  lemma AtMostOneWake(states: seq<State>, steps: seq<Step>, i: nat, j: nat, w: BlockWakeKey)
    requires Run(states, steps) && i < j < |steps| && w in Batch(states[i], steps[i])
    ensures w !in Batch(states[j], steps[j])
    ensures forall a, b :: 0 <= a < b < |Batch(states[i], steps[i])| ==> Batch(states[i], steps[i])[a] != Batch(states[i], steps[i])[b]
  {
    hide Enabled, Apply, Inv, Settled, Initial, Batch;
    RunStep(states, steps, i);
    RunInv(states, steps, i);
    BatchSettles(states[i], steps[i], w);
    SettledForGood(states, steps, i + 1, j, w);
    SettledUnclaimable(states[j], steps[j], w);
  }

  lemma BatchSettles(s: State, step: Step, w: BlockWakeKey)
    requires Inv(s) && Enabled(s, step) && w in Batch(s, step)
    ensures Settled(Apply(s, step), w)
    ensures forall a, b :: 0 <= a < b < |Batch(s, step)| ==> Batch(s, step)[a] != Batch(s, step)[b]
  {
    hide Claim;
    ClaimHasWinnerEffect(s.index.slots, s.winners, step.key, Limit(step.count, |s.index.slots|));
    assert w in s.winners;
    assert Known(s, w);
    assert WaiterOk(s, w.thread);
  }

  lemma SettledUnclaimable(s: State, step: Step, w: BlockWakeKey)
    requires Settled(s, w)
    ensures w !in Batch(s, step)
  {
    hide Claim;
    if step.Wake? { ClaimHasWinnerEffect(s.index.slots, s.winners, step.key, Limit(step.count, |s.index.slots|)); }
  }

  /** A waiter that is in the index without a winner is in the batch of any wake-all on its key. */
  lemma WakeAllReaches(s: State, key: AtomicWaitKey, count: nat, t: Thread)
    requires Inv(s) && WakesAll(s, count)
    requires t in s.waiters && s.waiters[t].key == key && s.waiters[t].reg.Some? && s.waiters[t].ledger && Recorded(s, t).None?
    ensures s.waiters[t].wake in Batch(s, Wake(key, count))
  {
    var w := s.waiters[t];
    assert WaiterOk(s, t);
    hide Inv, Claim, WaiterOk, SleepOk;
    var limit := Limit(count, |s.index.slots|);
    ClaimHasSlotEffect(s.index.slots, s.winners, key, limit);
    ClaimNeverOverflows(s.index.slots, s.winners, key, count);
    var j := w.reg.value.slot;
    assert Matches(s.index.slots[j], key);
  }
}
