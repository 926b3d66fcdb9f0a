/**
 The ownership invariant of the atomic-wait machine and its preservation by every step
 (kernel/src/atomic_wait.rs:204-278, 429-495, 601-891).
 */
module AtomicWaitInvariant {
  import opened Wrappers
  import opened BlockedLedger
  import opened AtomicWaitIndex
  import opened AtomicWaitQueue
  import opened AtomicWaitTokens
  import opened AtomicWaitMachine

  /** Which move-only values a waiter holds at each stage. */
  predicate Shape(w: Waiter) {
    match w.stage
    case Observed => !w.block && !w.ledger && !w.deadline && w.reg.None? && !w.op
    case Prepared => w.block && !w.ledger && !w.deadline && w.reg.None? && !w.op
    case InLedger => w.block && w.ledger && !w.deadline && w.reg.None? && !w.op
    case Armed => w.block && w.ledger && w.reg.None? && !w.op
    case InIndex => w.block && w.ledger && w.reg.Some? && !w.op
    case Published => w.block && w.ledger && w.reg.Some? && w.op
    case Checked => w.block && w.ledger && w.reg.Some? && w.op
    case Committed => !w.block && w.ledger && w.reg.Some? && w.op
    case Suspended => !w.block && w.ledger && w.reg.Some? && w.op
    case Cleaning(_) => !w.op && (w.reg.Some? ==> w.ledger)
  }

  /** What the waiter believes it holds is what the authorities have recorded for it. */
  ghost predicate Owns(s: State, t: Thread, w: Waiter) {
    && w.wake.thread == t && w.wake.token < s.nextToken
    && (w.block <==> t in s.pending) && (w.block ==> s.pending[t] == w.wake)
    && (w.ledger <==> w.wake in s.winners)
    && (w.deadline <==> w.wake in s.deadlines)
    && (w.op <==> t in s.ops)
    && (w.op ==> w.reg.Some? && s.ops[t] == Operation(w.wake, w.pin, w.reg.value, w.deadline))
  }

  /** The waiter's index token is exact, and its entry is live as long as nobody has won. */
  ghost predicate TokenOk(s: State, w: Waiter) {
    w.reg.Some? ==>
      && w.reg.value.domain == s.index.domain && w.reg.value.slot < |s.index.slots|
      && w.reg.value.key == w.key && w.reg.value.wake == w.wake
      && s.index.slots[w.reg.value.slot].generation >= w.reg.value.generation
      && (OwnLive(s.index, w.reg.value) ==>
            var e := s.index.slots[w.reg.value.slot].entry.value; e.key == w.key && e.wake == w.wake)
      && (w.wake in s.winners && s.winners[w.wake].None? ==> OwnLive(s.index, w.reg.value))
  }

  predicate Sleeping(w: Waiter) { w.stage.Committed? || w.stage.Suspended? }

  /** Nobody sleeps on a decided generation unless a wake for it is still on its way. */
  ghost predicate SleepOk(s: State, w: Waiter) {
    && (w.wake in s.blocked ==> Sleeping(w))
    && (Sleeping(w) && w.wake !in s.blocked ==> w.wake in s.winners && s.winners[w.wake].Some?)
    && (w.wake in s.blocked && w.wake in s.winners && s.winners[w.wake].Some? ==> w.wake in s.undelivered || w.stage.Committed?)
    && (w.wake in s.undelivered && w.wake in s.winners ==> s.winners[w.wake].Some?)
    && (w.stage.Prepared? ==> w.wake !in s.undelivered)
  }

  ghost predicate WaiterOk(s: State, t: Thread)
    requires t in s.waiters
  {
    var w := s.waiters[t];
    Shape(w) && Owns(s, t, w) && TokenOk(s, w) && SleepOk(s, w)
  }

  ghost predicate AllOk(s: State) {
    forall t :: t in s.waiters ==> WaiterOk(s, t)
  }

  /** The wake key belongs to a current waiter. */
  ghost predicate Known(s: State, wake: BlockWakeKey) {
    wake.thread in s.waiters && s.waiters[wake.thread].wake == wake
  }

  /** The occupant of slot `j` belongs to the waiter that holds the matching token. */
  ghost predicate SlotOwned(s: State, j: nat)
    requires j < |s.index.slots|
  {
    var slot := s.index.slots[j];
    slot.entry.Some? ==>
      var e := slot.entry.value;
      Known(s, e.wake) && s.waiters[e.wake.thread].reg == Some(Registration(s.index.domain, j, slot.generation, e.key, e.wake))
  }

  /** Every recorded resource has an owner. */
  ghost predicate NoOrphans(s: State) {
    && (forall t :: t in s.pending ==> t in s.waiters)
    && (forall t :: t in s.ops ==> t in s.waiters)
    && (forall w :: w in s.winners ==> Known(s, w))
    && (forall w :: w in s.deadlines ==> Known(s, w))
    && (forall w :: w in s.blocked ==> Known(s, w))
    && (forall w :: w in s.undelivered ==> w.token < s.nextToken)
    && (forall j :: 0 <= j < |s.index.slots| ==> SlotOwned(s, j))
  }

  /** Each pin handed in is with exactly one waiter or has come back, once. */
  ghost predicate PinsOk(s: State) {
    && (forall t :: t in s.waiters ==> s.waiters[t].pin in s.issued && s.waiters[t].pin !in s.returned)
    && (forall t, u :: t in s.waiters && u in s.waiters && t != u ==> s.waiters[t].pin != s.waiters[u].pin)
    && (forall p :: p in s.returned ==> p in s.issued)
    && (forall i, j :: 0 <= i < j < |s.returned| ==> s.returned[i] != s.returned[j])
    && (forall p :: p in s.issued ==> p in s.returned || exists t :: t in s.waiters && s.waiters[t].pin == p)
  }

  ghost predicate Inv(s: State) {
    AllOk(s) && NoOrphans(s) && PinsOk(s) && Wf(s.index) && |s.winners| <= s.capacity && s.nextToken > 0
  }

  lemma InitialInv(s: State)
    requires Initial(s)
    ensures Inv(s)
  {
  }

  // ----- Frames -----

  /** Nothing that bears on waiter `u` got worse between the two states. */
  ghost predicate SameFor(s: State, s': State, u: Thread, w: Waiter) {
    && s.nextToken <= s'.nextToken
    && (u in s.pending <==> u in s'.pending) && (u in s.pending ==> s'.pending[u] == s.pending[u])
    && (u in s.ops <==> u in s'.ops) && (u in s.ops ==> s'.ops[u] == s.ops[u])
    && (w.wake in s.winners <==> w.wake in s'.winners)
    && (w.wake in s.winners ==> s'.winners[w.wake] == s.winners[w.wake])
    && (w.wake in s.deadlines <==> w.wake in s'.deadlines)
    && (w.wake in s.blocked <==> w.wake in s'.blocked)
    && (w.wake in s.undelivered <==> w.wake in s'.undelivered)
    && TokenKept(s, s', w)
  }

  /** The waiter's index token is as good in `s'` as it was in `s`. */
  ghost predicate TokenKept(s: State, s': State, w: Waiter) {
    w.reg.Some? ==>
      && s'.index.domain == s.index.domain && |s'.index.slots| == |s.index.slots|
      && (w.reg.value.slot < |s.index.slots| ==>
            var slot, slot' := s.index.slots[w.reg.value.slot], s'.index.slots[w.reg.value.slot];
            || slot' == slot
            || (!OwnLive(s'.index, w.reg.value) && slot.generation <= slot'.generation
                && (w.wake in s'.winners ==> s'.winners[w.wake].Some?)))
  }

  lemma KeepOk(s: State, s': State, u: Thread)
    requires u in s.waiters && WaiterOk(s, u)
    requires u in s'.waiters && s'.waiters[u] == s.waiters[u]
    requires SameFor(s, s', u, s.waiters[u])
    ensures WaiterOk(s', u)
  {
  }

  /** A step that moves only waiter `t` (or removes it) leaves every other waiter sound. */
  lemma OthersOk(s: State, s': State, t: Thread)
    requires AllOk(s)
    requires forall u :: u in s'.waiters && u != t ==> u in s.waiters && s'.waiters[u] == s.waiters[u] && SameFor(s, s', u, s.waiters[u])
    requires t in s'.waiters ==> WaiterOk(s', t)
    ensures AllOk(s')
  {
    forall u | u in s'.waiters ensures WaiterOk(s', u) {
      if u != t { KeepOk(s, s', u); }
    }
  }

  /** Two waiters never name the same live slot. */
  lemma TokensApart(s: State, t: Thread, u: Thread)
    requires Inv(s) && t in s.waiters && u in s.waiters && t != u
    requires s.waiters[t].reg.Some? && s.waiters[u].reg.Some?
    requires s.waiters[t].reg.value.slot == s.waiters[u].reg.value.slot
    ensures OwnLive(s.index, s.waiters[t].reg.value) ==> !OwnLive(s.index, s.waiters[u].reg.value)
  {
    assert WaiterOk(s, t) && WaiterOk(s, u);
  }

  // ----- Winners nobody contests -----

  /** What the ledger has recorded for this waiter. */
  function Recorded(s: State, t: Thread): Option<Winner> {
    if t in s.waiters && s.waiters[t].wake in s.winners then s.winners[s.waiters[t].wake] else None
  }

  /** A rival may claim only once the operation is published, and only a timeout before the check. */
  ghost predicate Polite(s: State, step: Step) {
    step.Rival? ==>
      var t := step.wake.thread;
      t in s.waiters &&
      match s.waiters[t].stage
      case InIndex => step.winner == Timeout
      case Published => step.winner == Timeout
      case Checked => true
      case Committed => true
      case Suspended => true
      case _ => false
  }

  predicate PlanUncontested(plan: Plan, recorded: Option<Winner>, token: bool) {
    match plan
    case Fixed(winner) => recorded == Some(winner) || (recorded.None? && !token)
    case TerminalLookup => true
    case TerminalClaim => recorded.None? && !token
  }

  /** What a polite environment leaves in the ledger at each stage. */
  ghost predicate Uncontested(s: State, t: Thread)
    requires t in s.waiters
  {
    var w := s.waiters[t];
    match w.stage
    case InLedger => Recorded(s, t).None?
    case Armed => Recorded(s, t).None?
    case InIndex => Recorded(s, t) in {None, Some(AtomicWake), Some(Timeout)}
    case Published => Recorded(s, t) in {None, Some(AtomicWake), Some(Timeout)}
    case Cleaning(plan) => w.ledger ==> PlanUncontested(plan, Recorded(s, t), w.reg.Some?)
    case _ => true
  }

  // ----- Room for every operation -----

  lemma {:induction false} ImageSize(wakes: set<BlockWakeKey>, threads: set<Thread>)
    requires forall t :: t in threads ==> exists w :: w in wakes && w.thread == t
    ensures |threads| <= |wakes|
  {
    if threads != {} {
      var t :| t in threads;
      var w :| w in wakes && w.thread == t;
      forall u | u in threads - {t} ensures exists v :: v in wakes - {w} && v.thread == u {
        var v :| v in wakes && v.thread == u;
        assert v in wakes - {w};
      }
      ImageSize(wakes - {w}, threads - {t});
    }
  }

  lemma LedgerKnows(s: State, u: Thread)
    requires Inv(s) && (u in s.ops || At(s, u, InIndex))
    ensures u in s.waiters && s.waiters[u].wake in s.winners && s.waiters[u].wake.thread == u
  {
    assert u in s.waiters && WaiterOk(s, u);
  }

  lemma UnpublishedHasNone(s: State, t: Thread)
    requires Inv(s) && At(s, t, InIndex)
    ensures t !in s.ops && |s.winners| <= s.capacity
  {
    assert WaiterOk(s, t);
  }

  /**
   Operation publication never fails: an operation slot is free whenever the ledger
   had room for the thread, so the roll-back path behind it is dead.
   */
  lemma PublicationNeverFails(s: State, t: Thread)
    requires Inv(s) && At(s, t, InIndex)
    ensures PublishFits(s, t)
  {
    hide Inv, WaiterOk;
    UnpublishedHasNone(s, t);
    var threads := s.ops.Keys + {t};
    forall u | u in threads ensures exists w :: w in s.winners.Keys && w.thread == u {
      LedgerKnows(s, u);
      assert s.waiters[u].wake in s.winners.Keys;
    }
    ImageSize(s.winners.Keys, threads);
    assert |threads| == |s.ops.Keys| + 1;
  }
}
