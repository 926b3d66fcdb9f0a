/**
 A run of the wait protocol from end to end, and what a wake-all does for each waiter
 it finds registered (kernel/src/atomic_wait.rs:143-278, 601-910).
 */
module AtomicWaitWitness {
  import opened Wrappers
  import opened BlockedLedger
  import opened AtomicWaitIndex
  import opened AtomicWaitMachine
  import opened AtomicWaitInvariant
  import opened AtomicWaitPreservation
  import opened AtomicWaitRuns

  // ----- Every waiter a wake-all finds is decided for good -----

  lemma RegisteredIsSettled(s: State, t: Thread)
    requires Inv(s) && t in s.waiters && s.waiters[t].reg.Some? && Recorded(s, t).Some?
    ensures Settled(s, s.waiters[t].wake)
  {
    assert WaiterOk(s, t);
  }

  lemma UndecidedIsReached(s: State, key: AtomicWaitKey, count: nat, t: Thread)
    requires Inv(s) && WakesAll(s, count) && t in s.waiters
    requires s.waiters[t].reg.Some? && s.waiters[t].key == key && Recorded(s, t).None?
    ensures s.waiters[t].wake in Batch(s, Wake(key, count))
  {
    assert WaiterOk(s, t);
    hide Inv, WaiterOk, Batch;
    WakeAllReaches(s, key, count, t);
  }

  /**
   A waiter that was registered when a wake-all went through is decided from then on,
   whatever is stored in the word afterwards; and while it is still asleep its wake is
   in a dispatcher's hands or about to be replayed by its own commit.
   */
  lemma WakeAllDecides(states: seq<State>, steps: seq<Step>, woken: nat, now: nat, t: Thread)
    requires Run(states, steps) && woken < now < |states|
    requires steps[woken].Wake? && WakesAll(states[woken], steps[woken].count)
    requires t in states[woken].waiters && states[woken].waiters[t].reg.Some? && states[woken].waiters[t].key == steps[woken].key
    ensures var s, wake := states[now], states[woken].waiters[t].wake;
            && (wake in s.winners ==> s.winners[wake].Some?)
            && (wake in s.blocked ==> wake in s.winners && Known(s, wake) && (wake in s.undelivered || s.waiters[wake.thread].stage.Committed?))
  {
    hide Enabled, Apply, Inv, Settled, Initial, Batch, Recorded, WakesAll;
    var s, step, wake := states[woken], steps[woken], states[woken].waiters[t].wake;
    RunInv(states, steps, woken);
    RunStep(states, steps, woken);
    if Recorded(s, t).Some? {
      RegisteredIsSettled(s, t);
      SettledForGood(states, steps, woken, now, wake);
    } else {
      UndecidedIsReached(s, step.key, step.count, t);
      BatchSettles(s, step, wake);
      SettledForGood(states, steps, woken + 1, now, wake);
    }
    RunInv(states, steps, now);
    SettledSleeper(states[now], wake);
  }

  lemma SettledSleeper(s: State, wake: BlockWakeKey)
    requires Inv(s) && Settled(s, wake)
    ensures wake in s.winners ==> s.winners[wake].Some?
    ensures wake in s.blocked ==> wake in s.winners && Known(s, wake) && (wake in s.undelivered || s.waiters[wake.thread].stage.Committed?)
  {
    if wake in s.blocked {
      assert Known(s, wake);
      assert WaiterOk(s, wake.thread);
    }
  }

  // ----- One whole wait -----

  /** Room for one wait, and a word that holds what it expects. */
  ghost predicate Ready(s0: State, key: AtomicWaitKey) {
    && Initial(s0) && s0.capacity > 0 && Word(s0, key) == 0
    && |s0.index.slots| > 0 && Open(s0.index.slots[0]) && s0.index.nextSequence < U64_MAX
  }

  function WakeOf(s0: State, t: Thread): BlockWakeKey { BlockWakeKey(s0.nextToken, t) }

  function RegOf(s0: State, t: Thread, key: AtomicWaitKey): Registration
    requires |s0.index.slots| > 0
  {
    Registration(s0.index.domain, 0, s0.index.slots[0].generation + 1, key, WakeOf(s0, t))
  }

  function IndexOf(s0: State, t: Thread, key: AtomicWaitKey): Index
    requires |s0.index.slots| > 0
  {
    Index(s0.index.domain,
          s0.index.slots[0 := Slot(s0.index.slots[0].generation + 1, Some(Entry(key, WakeOf(s0, t), s0.index.nextSequence)))],
          s0.index.nextSequence + 1)
  }

  /** The lone waiter at this stage. */
  function WaiterAt(s0: State, t: Thread, key: AtomicWaitKey, pin: Pin, stage: Stage): Waiter
    requires |s0.index.slots| > 0
  {
    var early := stage in {Observed, Prepared, InLedger, Armed};
    Waiter(stage, key, 0, pin, if stage == Observed then BlockWakeKey(0, t) else WakeOf(s0, t),
           stage in {Prepared, InLedger, Armed, InIndex, Published, Checked}, stage !in {Observed, Prepared}, false,
           if early then None else Some(RegOf(s0, t, key)), !early && stage != InIndex)
  }

  /** The whole state with the lone waiter at this stage. */
  function Along(s0: State, t: Thread, key: AtomicWaitKey, pin: Pin, stage: Stage): State
    requires |s0.index.slots| > 0
  {
    var w := WaiterAt(s0, t, key, pin, stage);
    s0.(issued := {pin}, waiters := map[t := w],
        nextToken := if stage == Observed then s0.nextToken else s0.nextToken + 1,
        pending := if w.block then map[t := w.wake] else map[],
        winners := if w.ledger then map[w.wake := None] else map[],
        index := if w.reg.Some? then IndexOf(s0, t, key) else s0.index,
        ops := if w.op then map[t := Operation(w.wake, pin, w.reg.value, false)] else map[],
        blocked := if stage in {Committed, Suspended} then {w.wake} else {})
  }

  ghost predicate Takes(s: State, step: Step, s': State) { Enabled(s, step) && Apply(s, step) == s' }

  lemma TakesBegin(s0: State, t: Thread, key: AtomicWaitKey, pin: Pin)
    requires Ready(s0, key)
    ensures Takes(s0, Begin(t, key, 0, false, pin), Along(s0, t, key, pin, Observed))
  {
  }

  lemma TakesPrepare(s0: State, t: Thread, key: AtomicWaitKey, pin: Pin)
    requires Ready(s0, key)
    ensures Takes(Along(s0, t, key, pin, Observed), Prepare(t, true), Along(s0, t, key, pin, Prepared))
  {
  }

  lemma TakesEnter(s0: State, t: Thread, key: AtomicWaitKey, pin: Pin)
    requires Ready(s0, key)
    ensures Takes(Along(s0, t, key, pin, Prepared), Enter(t, true), Along(s0, t, key, pin, InLedger))
  {
  }

  lemma TakesArm(s0: State, t: Thread, key: AtomicWaitKey, pin: Pin)
    requires Ready(s0, key)
    ensures Takes(Along(s0, t, key, pin, InLedger), Arm(t, Infinite), Along(s0, t, key, pin, Armed))
  {
  }

  lemma RegistersFirst(s0: State, t: Thread, key: AtomicWaitKey)
    requires Ready(s0, key)
    ensures Register(s0.index, key, WakeOf(s0, t)) == (IndexOf(s0, t, key), Success(RegOf(s0, t, key)))
  {
    assert FirstOpen(s0.index.slots, 0) == Some(0);
  }

  lemma TakesReread(s0: State, t: Thread, key: AtomicWaitKey, pin: Pin)
    requires Ready(s0, key)
    ensures Takes(Along(s0, t, key, pin, Armed), Reread(t), Along(s0, t, key, pin, InIndex))
  {
    RegistersFirst(s0, t, key);
    hide Register, IndexOf, RegOf;
  }

  lemma TakesPublish(s0: State, t: Thread, key: AtomicWaitKey, pin: Pin)
    requires Ready(s0, key)
    ensures Takes(Along(s0, t, key, pin, InIndex), Publish(t), Along(s0, t, key, pin, Published))
  {
    hide IndexOf, RegOf;
  }

  lemma TakesCheck(s0: State, t: Thread, key: AtomicWaitKey, pin: Pin)
    requires Ready(s0, key)
    ensures Takes(Along(s0, t, key, pin, Published), Check(t), Along(s0, t, key, pin, Checked))
  {
    hide IndexOf, RegOf;
  }

  lemma TakesCommit(s0: State, t: Thread, key: AtomicWaitKey, pin: Pin)
    requires Ready(s0, key)
    ensures Takes(Along(s0, t, key, pin, Checked), Commit(t), Along(s0, t, key, pin, Committed))
  {
    hide IndexOf, RegOf;
  }

  lemma TakesReplay(s0: State, t: Thread, key: AtomicWaitKey, pin: Pin)
    requires Ready(s0, key)
    ensures Takes(Along(s0, t, key, pin, Committed), Replay(t), Along(s0, t, key, pin, Suspended))
  {
    hide IndexOf, RegOf;
  }

  function WaitSteps(t: Thread, key: AtomicWaitKey, pin: Pin): seq<Step> {
    [Begin(t, key, 0, false, pin), Prepare(t, true), Enter(t, true), Arm(t, Infinite), Reread(t), Publish(t), Check(t), Commit(t),
     Replay(t), Store(key, 1), Wake(key, WAKE_ALL)]
  }

  lemma TakesStore(s0: State, t: Thread, key: AtomicWaitKey, pin: Pin)
    requires Ready(s0, key)
    ensures var asleep := Along(s0, t, key, pin, Suspended);
            Takes(asleep, Store(key, 1), asleep.(words := s0.words[key := 1]))
  {
    hide IndexOf, RegOf, WaiterAt;
  }

  /** A wake moves no waiter and changes no word. */
  lemma WakeMovesNobody(s: State, key: AtomicWaitKey, count: nat)
    ensures Enabled(s, Wake(key, count))
    ensures var s' := Apply(s, Wake(key, count)); s'.waiters == s.waiters && s'.blocked == s.blocked && s'.words == s.words
  {
    hide Claim, Limit;
  }

  /**
   Such a run exists: a thread goes to sleep on a word, the word changes, a wake-all
   goes through while it sleeps, and the wake that is then on its way ends the sleep.
   */
  lemma SleeperIsWoken(s0: State, t: Thread, key: AtomicWaitKey, pin: Pin) returns (states: seq<State>)
    requires Ready(s0, key)
    ensures Run(states, WaitSteps(t, key, pin) + [Deliver(WakeOf(s0, t))]) && states[0] == s0
    ensures Word(states[9], key) == 0 && Word(states[10], key) == Word(states[11], key) == 1 && WakesAll(states[10], WAKE_ALL)
    ensures t in states[11].waiters && states[11].waiters[t].key == key && states[11].waiters[t].expected == 0
    ensures states[11].waiters[t].wake == WakeOf(s0, t) && WakeOf(s0, t) in states[11].blocked && Recorded(states[11], t).Some?
    ensures WakeOf(s0, t) !in states[12].blocked
  {
    hide Enabled, Apply, Inv, Recorded, Along;
    var asleep := Along(s0, t, key, pin, Suspended);
    var stored := asleep.(words := s0.words[key := 1]);
    AlongTakes(s0, t, key, pin);
    AsleepShows(s0, t, key, pin);
    WakeMovesNobody(stored, key, WAKE_ALL);
    var woken := Apply(stored, Wake(key, WAKE_ALL));
    var first := [s0, Along(s0, t, key, pin, Observed), Along(s0, t, key, pin, Prepared), Along(s0, t, key, pin, InLedger),
                  Along(s0, t, key, pin, Armed), Along(s0, t, key, pin, InIndex), Along(s0, t, key, pin, Published),
                  Along(s0, t, key, pin, Checked), Along(s0, t, key, pin, Committed), asleep, stored, woken];
    var steps := WaitSteps(t, key, pin);
    TakesIsRun(first, steps);
    NoLostWake(first, steps, key, 0, 10, 10, 11, t);
    DeliverEnds(woken, WakeOf(s0, t));
    states := first + [Apply(woken, Deliver(WakeOf(s0, t)))];
    TakesIsRun(states, steps + [Deliver(WakeOf(s0, t))]);
  }

  /** All the steps up to the store. */
  lemma AlongTakes(s0: State, t: Thread, key: AtomicWaitKey, pin: Pin)
    requires Ready(s0, key)
    ensures Takes(s0, Begin(t, key, 0, false, pin), Along(s0, t, key, pin, Observed))
    ensures Takes(Along(s0, t, key, pin, Observed), Prepare(t, true), Along(s0, t, key, pin, Prepared))
    ensures Takes(Along(s0, t, key, pin, Prepared), Enter(t, true), Along(s0, t, key, pin, InLedger))
    ensures Takes(Along(s0, t, key, pin, InLedger), Arm(t, Infinite), Along(s0, t, key, pin, Armed))
    ensures Takes(Along(s0, t, key, pin, Armed), Reread(t), Along(s0, t, key, pin, InIndex))
    ensures Takes(Along(s0, t, key, pin, InIndex), Publish(t), Along(s0, t, key, pin, Published))
    ensures Takes(Along(s0, t, key, pin, Published), Check(t), Along(s0, t, key, pin, Checked))
    ensures Takes(Along(s0, t, key, pin, Checked), Commit(t), Along(s0, t, key, pin, Committed))
    ensures Takes(Along(s0, t, key, pin, Committed), Replay(t), Along(s0, t, key, pin, Suspended))
    ensures var asleep := Along(s0, t, key, pin, Suspended); Takes(asleep, Store(key, 1), asleep.(words := s0.words[key := 1]))
  {
    hide Takes, Along, Ready;
    TakesBegin(s0, t, key, pin);
    TakesPrepare(s0, t, key, pin);
    TakesEnter(s0, t, key, pin);
    TakesArm(s0, t, key, pin);
    TakesReread(s0, t, key, pin);
    TakesPublish(s0, t, key, pin);
    TakesCheck(s0, t, key, pin);
    TakesCommit(s0, t, key, pin);
    TakesReplay(s0, t, key, pin);
    TakesStore(s0, t, key, pin);
  }

  lemma AsleepShows(s0: State, t: Thread, key: AtomicWaitKey, pin: Pin)
    requires |s0.index.slots| > 0
    ensures var s := Along(s0, t, key, pin, Suspended);
            && t in s.waiters && s.waiters[t].stage == Suspended && s.waiters[t].key == key && s.waiters[t].expected == 0
            && s.waiters[t].wake == WakeOf(s0, t) && WakeOf(s0, t) in s.blocked && s.words == s0.words
  {
  }

  lemma DeliverEnds(s: State, wake: BlockWakeKey)
    requires wake in s.undelivered
    ensures Enabled(s, Deliver(wake)) && wake !in Apply(s, Deliver(wake)).blocked
  {
  }

  lemma TakesIsRun(states: seq<State>, steps: seq<Step>)
    requires |states| == |steps| + 1 && Initial(states[0])
    requires forall i :: 0 <= i < |steps| ==> Takes(states[i], steps[i], states[i + 1])
    ensures Run(states, steps)
  {
    hide Enabled, Apply, Initial;
    forall i | 0 <= i < |steps| ensures Enabled(states[i], steps[i]) && states[i + 1] == Apply(states[i], steps[i]) {
      assert Takes(states[i], steps[i], states[i + 1]);
    }
  }
}
