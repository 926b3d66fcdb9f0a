/**
 What a suspended thread waits for, over every interleaving
 (kernel/src/atomic_wait.rs:601-800).
 */
module AtomicWaitAsked {
  import opened Wrappers
  import opened BlockedLedger
  import opened AtomicWaitMachine
  import opened AtomicWaitInvariant
  import opened AtomicWaitPreservation
  import opened AtomicWaitRuns
  import opened AtomicWaitFifo

  predicate Begins(step: Step, t: Thread) { step.Begin? && step.t == t }

  /** Only a begin makes a thread a waiter, and no step changes what a waiter asked for. */
  lemma StepAsks(s: State, step: Step, t: Thread)
    requires Inv(s) && Enabled(s, step) && t in Apply(s, step).waiters && !Begins(step, t)
    ensures t in s.waiters
    ensures var w, w' := s.waiters[t], Apply(s, step).waiters[t]; w'.key == w.key && w'.expected == w.expected && w'.pin == w.pin
  {
    hide Inv, Enabled, Apply, Frame, Follows, Calm, StaysSettled;
    if step.Store? || step.Wake? || step.Deliver? || step.Rival? {
      OtherSteps(s, step);
    } else {
      StepIsLocal(s, step);
      if step.t == t {
        OwnIsThere(s, step);
        FollowsShows(s, Apply(s, step), t);
      } else {
        FrameShows(s, Apply(s, step), step.t, t);
      }
    }
  }

  lemma OwnIsThere(s: State, step: Step)
    requires Enabled(s, step) && !step.Store? && !step.Wake? && !step.Deliver? && !step.Rival? && !step.Begin?
    ensures step.t in s.waiters
  {
  }

  lemma FollowsShows(s: State, s': State, t: Thread)
    requires Follows(s, s', t) && t in s.waiters && t in s'.waiters
    ensures var w, w' := s.waiters[t], s'.waiters[t]; w'.key == w.key && w'.expected == w.expected && w'.pin == w.pin
  {
  }

  lemma FrameShows(s: State, s': State, actor: Thread, t: Thread)
    requires Frame(s, s', actor) && t != actor && t in s'.waiters
    ensures t in s.waiters && s'.waiters[t] == s.waiters[t]
  {
    assert ThreadSame(s, s', t);
  }

  lemma {:induction false} KeepsAsking(states: seq<State>, steps: seq<Step>, i: nat, n: nat, t: Thread)
    requires Run(states, steps) && i <= n < |states| && t in states[n].waiters && forall k :: i <= k < n ==> !Begins(steps[k], t)
    ensures t in states[i].waiters
    ensures var w, w' := states[i].waiters[t], states[n].waiters[t]; w'.key == w.key && w'.expected == w.expected && w'.pin == w.pin
    decreases n
  {
    hide Inv, Enabled, Apply, Initial, Begins;
    if i < n {
      RunInv(states, steps, n - 1);
      RunStep(states, steps, n - 1);
      StepAsks(states[n - 1], steps[n - 1], t);
      KeepsAsking(states, steps, i, n - 1, t);
    }
  }

  /** The deadline of a waiter in force is the one it armed. */
  ghost predicate ArmedAs(s: State, t: Thread, finite: bool) {
    t in s.waiters ==> s.waiters[t].stage.Cleaning? || (InForce(s.waiters[t].stage) && s.waiters[t].deadline == finite)
  }

  lemma StepKeepsDeadline(s: State, step: Step, t: Thread, finite: bool)
    requires Inv(s) && Enabled(s, step) && t in s.waiters && ArmedAs(s, t, finite) && !Begins(step, t)
    ensures ArmedAs(Apply(s, step), t, finite)
  {
    hide Inv, Enabled, Apply, StepFacts, Frame;
    if step.Store? || step.Wake? || step.Deliver? || step.Rival? {
      OtherSteps(s, step);
    } else if step.t == t {
      OwnStep(s, step);
    } else {
      StepIsLocal(s, step);
      ForeignKeepsDeadline(s, Apply(s, step), step, t, finite);
    }
  }

  lemma ForeignKeepsDeadline(s: State, s': State, step: Step, t: Thread, finite: bool)
    requires StepFacts(s, s', step) && Actor(step) != t && ArmedAs(s, t, finite)
    ensures ArmedAs(s', t, finite)
  {
    hide Inv, Follows, StaysSettled, Calm, WakeSame;
    assert ThreadSame(s, s', t);
  }

  lemma ArmSets(s: State, t: Thread, arming: Arming)
    requires Inv(s) && Enabled(s, Arm(t, arming))
    ensures ArmedAs(Apply(s, Arm(t, arming)), t, arming == Finite)
  {
    assert WaiterOk(s, t);
    hide Inv, WaiterOk;
    assert Apply(s, Arm(t, arming)) == DoArm(s, t, arming);
  }

  lemma {:induction false} KeepsDeadlineOver(states: seq<State>, steps: seq<Step>, a: nat, n: nat, t: Thread)
    requires Run(states, steps) && a < n < |states| && steps[a].Arm? && steps[a].t == t
    requires t in states[n].waiters && forall k :: a < k < n ==> !Begins(steps[k], t)
    ensures ArmedAs(states[n], t, steps[a].arming == Finite)
    decreases n
  {
    hide Inv, Enabled, Apply, Initial, ArmedAs;
    RunInv(states, steps, n - 1);
    RunStep(states, steps, n - 1);
    if a + 1 == n {
      ArmSets(states[a], t, steps[a].arming);
    } else {
      KeepsAsking(states, steps, n - 1, n, t);
      KeepsDeadlineOver(states, steps, a, n - 1, t);
      StepKeepsDeadline(states[n - 1], steps[n - 1], t, steps[a].arming == Finite);
    }
  }

  lemma BeginAsks(s: State, step: Step)
    requires Enabled(s, step) && step.Begin? && step.t in Apply(s, step).waiters
    ensures var w := Apply(s, step).waiters[step.t]; w.key == step.key && w.expected == step.expected && w.pin == step.pin
  {
  }

  /** The entry of an undecided sleeper is in the index, on its own word. */
  lemma SleeperIsIndexed(s: State, t: Thread)
    requires Inv(s) && t in s.waiters && s.waiters[t].stage.Suspended?
    ensures var w := s.waiters[t];
            && (w.wake in s.deadlines <==> w.deadline)
            && (Recorded(s, t).None? ==>
                  && w.reg.Some? && w.reg.value.slot < |s.index.slots|
                  && s.index.slots[w.reg.value.slot].entry.Some?
                  && s.index.slots[w.reg.value.slot].entry.value.key == w.key
                  && s.index.slots[w.reg.value.slot].entry.value.wake == w.wake)
  {
    assert WaiterOk(s, t);
  }

  /**
   A suspended thread waits for what its begin asked for, over every interleaving: the
   word, the value and the pin are those of its begin; a deadline is armed exactly if its
   arming was finite; and while it is undecided its entry is in the index under that word.
   */
  lemma SuspendedAsAsked(states: seq<State>, steps: seq<Step>, b: nat, a: nat, n: nat, t: Thread)
    requires Run(states, steps) && b < a < n < |states| && Begins(steps[b], t) && steps[a].Arm? && steps[a].t == t
    requires At(states[n], t, Suspended) && forall k :: b < k < n ==> !Begins(steps[k], t)
    ensures var s, w := states[n], states[n].waiters[t];
            && w.key == steps[b].key && w.expected == steps[b].expected && w.pin == steps[b].pin
            && (w.wake in s.deadlines <==> steps[a].arming == Finite)
            && (Recorded(s, t).None? ==>
                  exists j :: 0 <= j < |s.index.slots| && s.index.slots[j].entry.Some?
                              && s.index.slots[j].entry.value.key == steps[b].key && s.index.slots[j].entry.value.wake == w.wake)
  {
    hide Inv, Enabled, Apply, Initial, Recorded;
    KeepsAsking(states, steps, b + 1, n, t);
    RunStep(states, steps, b);
    BeginAsks(states[b], steps[b]);
    KeepsDeadlineOver(states, steps, a, n, t);
    RunInv(states, steps, n);
    SleeperIsIndexed(states[n], t);
  }
}
