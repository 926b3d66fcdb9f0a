/**
 Every step of the atomic-wait machine keeps the ownership invariant.

 A step of thread `t` touches only what `t` owns; `LocalMove` turns that, plus the
 soundness of `t` itself, into the whole invariant.
 */
module AtomicWaitPreservation {
  import opened Wrappers
  import opened BlockedLedger
  import opened AtomicWaitIndex
  import opened AtomicWaitQueue
  import opened AtomicWaitTokens
  import opened AtomicWaitMachine
  import opened AtomicWaitInvariant

  predicate Agree<K, V(==)>(m: map<K, V>, m': map<K, V>, k: K) {
    (k in m <==> k in m') && (k in m ==> m[k] == m'[k])
  }

  ghost predicate ThreadSame(s: State, s': State, u: Thread) {
    Agree(s.waiters, s'.waiters, u) && Agree(s.pending, s'.pending, u) && Agree(s.ops, s'.ops, u)
  }

  ghost predicate WakeSame(s: State, s': State, w: BlockWakeKey) {
    && Agree(s.winners, s'.winners, w)
    && (w in s.deadlines <==> w in s'.deadlines)
    && (w in s.blocked <==> w in s'.blocked)
    && (w in s.undelivered <==> w in s'.undelivered)
  }

  /** The step changed nothing that belongs to another thread, and minted no pin. */
  ghost predicate Frame(s: State, s': State, t: Thread) {
    && (forall u {:trigger ThreadSame(s, s', u)} :: u != t ==> ThreadSame(s, s', u))
    && (forall w: BlockWakeKey {:trigger WakeSame(s, s', w)} :: w.thread != t ==> WakeSame(s, s', w))
    && s.nextToken <= s'.nextToken && |s'.winners| <= s'.capacity
    && (forall w: BlockWakeKey :: w in s'.undelivered && w.thread == t ==> w.token < s'.nextToken)
  }

  /** Everything recorded under thread `t` is recorded under its current wake key. */
  ghost predicate OnlyCurrent(s: State, t: Thread) {
    forall w: BlockWakeKey :: w.thread == t && (w in s.winners || w in s.deadlines || w in s.blocked) ==> Known(s, w)
  }

  ghost predicate IndexKept(s: State, s': State, t: Thread) {
    && Wf(s'.index)
    && (forall u :: u in s.waiters && u != t ==> TokenKept(s, s', s.waiters[u]))
    && (forall j :: 0 <= j < |s'.index.slots| ==> SlotOwned(s', j))
  }

  /** What the invariant says about one thread. */
  ghost predicate LocalOk(s: State, t: Thread) {
    && (t in s.waiters ==> WaiterOk(s, t))
    && (t !in s.waiters ==> t !in s.pending && t !in s.ops)
    && OnlyCurrent(s, t) && |s.winners| <= s.capacity && s.nextToken > 0
    && (forall w :: w in s.undelivered ==> w.token < s.nextToken)
  }

  lemma InvIsLocal(s: State, t: Thread)
    requires Inv(s)
    ensures LocalOk(s, t)
  {
  }

  /** A step of `t` that leaves the others alone and `t` sound. */
  ghost predicate Moves(s: State, s': State, t: Thread) {
    && Frame(s, s', t) && OnlyCurrent(s', t)
    && (t in s'.waiters ==> WaiterOk(s', t))
    && (t in s'.waiters || (t !in s'.pending && t !in s'.ops))
  }

  /** The waiter keeps what it waits for; only a reread that saw the expected word gives it a token. */
  ghost predicate Follows(s: State, s': State, t: Thread) {
    t in s.waiters && t in s'.waiters ==>
      var w, w' := s.waiters[t], s'.waiters[t];
      && w'.key == w.key && w'.expected == w.expected && w'.pin == w.pin
      && (w'.reg == w.reg || w'.reg.None? || Word(s, w.key) == w.expected)
  }

  /** This generation can take no further winner: it has one, or its entry is gone for good. */
  ghost predicate Settled(s: State, w: BlockWakeKey) {
    && w.token < s.nextToken
    && (w in s.winners ==> s.winners[w].Some?)
    && (w !in s.winners ==> !(Known(s, w) && s.waiters[w.thread].stage.Prepared?))
  }

  /** Settled generations of the thread stay settled. */
  ghost predicate StaysSettled(s: State, s': State, t: Thread) {
    forall w: BlockWakeKey :: w.thread == t && Settled(s, w) ==> Settled(s', w)
  }

  /** The step brings no contested winner. */
  ghost predicate Calm(s: State, s': State, t: Thread) {
    t in s'.waiters && (t in s.waiters ==> Uncontested(s, t)) ==> Uncontested(s', t)
  }

  /** Such a step that also leaves the index, the pins and the waiter's token where they were. */
  ghost predicate PlainMove(s: State, s': State, t: Thread) {
    && Moves(s, s', t) && Follows(s, s', t) && Calm(s, s', t) && StaysSettled(s, s', t)
    && t in s.waiters && t in s'.waiters && s'.waiters[t].pin == s.waiters[t].pin
    && s'.issued == s.issued && s'.returned == s.returned && s'.index == s.index
    && (s.waiters[t].reg.None? || (s'.waiters[t].reg == s.waiters[t].reg && s'.waiters[t].wake == s.waiters[t].wake))
  }

  ghost predicate FullMove(s: State, s': State, t: Thread) {
    Moves(s, s', t) && Follows(s, s', t) && Calm(s, s', t) && StaysSettled(s, s', t)
  }

  lemma OthersSound(s: State, s': State, t: Thread)
    requires AllOk(s) && Frame(s, s', t)
    requires forall u :: u in s.waiters && u != t ==> TokenKept(s, s', s.waiters[u])
    requires t in s'.waiters ==> WaiterOk(s', t)
    ensures AllOk(s')
  {
    forall u | u in s'.waiters ensures WaiterOk(s', u) {
      if u != t {
        assert ThreadSame(s, s', u);
        assert WaiterOk(s, u);
        assert WakeSame(s, s', s.waiters[u].wake);
        KeepOk(s, s', u);
      }
    }
  }

  lemma OrphansNone(s: State, s': State, t: Thread)
    requires NoOrphans(s) && Frame(s, s', t) && OnlyCurrent(s', t)
    requires forall j :: 0 <= j < |s'.index.slots| ==> SlotOwned(s', j)
    requires t in s'.waiters || (t !in s'.pending && t !in s'.ops)
    ensures NoOrphans(s')
  {
    forall u | u in s'.pending || u in s'.ops ensures u in s'.waiters {
      if u != t { assert ThreadSame(s, s', u); }
    }
    forall w | w in s'.winners || w in s'.deadlines || w in s'.blocked ensures Known(s', w) {
      if w.thread != t {
        assert WakeSame(s, s', w);
        assert Known(s, w);
        assert ThreadSame(s, s', w.thread);
      }
    }
    forall w | w in s'.undelivered ensures w.token < s'.nextToken {
      if w.thread != t { assert WakeSame(s, s', w); }
    }
  }

  /** Pins are untouched when no waiter comes or goes. */
  lemma PinsStay(s: State, s': State, t: Thread)
    requires PinsOk(s) && s'.issued == s.issued && s'.returned == s.returned
    requires forall u {:trigger ThreadSame(s, s', u)} :: u != t ==> ThreadSame(s, s', u)
    requires t in s.waiters && t in s'.waiters && s'.waiters[t].pin == s.waiters[t].pin
    ensures PinsOk(s')
  {
    forall u | u in s.waiters || u in s'.waiters ensures u in s.waiters && u in s'.waiters && s'.waiters[u].pin == s.waiters[u].pin {
      if u != t { assert ThreadSame(s, s', u); }
    }
    forall p | p in s'.issued && p !in s'.returned ensures exists u :: u in s'.waiters && s'.waiters[u].pin == p {
      var u :| u in s.waiters && s.waiters[u].pin == p;
      assert u in s'.waiters;
    }
  }

  /** A waiter that leaves hands its pin back, and nobody had it. */
  lemma PinComesBack(s: State, s': State, t: Thread)
    requires PinsOk(s) && t in s.waiters
    requires s'.issued == s.issued && s'.waiters == s.waiters - {t} && s'.returned == s.returned + [s.waiters[t].pin]
    ensures PinsOk(s')
  {
    forall p | p in s'.issued && p !in s'.returned ensures exists u :: u in s'.waiters && s'.waiters[u].pin == p {
      var u :| u in s.waiters && s.waiters[u].pin == p;
      assert u != t;
      assert u in s'.waiters;
    }
  }

  /** A new waiter brings a new pin; a refused one has it back at once. */
  lemma PinComesIn(s: State, s': State, t: Thread, pin: Pin)
    requires PinsOk(s) && t !in s.waiters && pin !in s.issued
    requires s'.issued == s.issued + {pin}
    requires || (s'.waiters == s.waiters && s'.returned == s.returned + [pin])
             || (t in s'.waiters && s'.waiters == s.waiters[t := s'.waiters[t]] && s'.waiters[t].pin == pin && s'.returned == s.returned)
    ensures PinsOk(s')
  {
    forall p | p in s'.issued && p !in s'.returned ensures exists u :: u in s'.waiters && s'.waiters[u].pin == p {
      if p == pin {
        assert t in s'.waiters;
      } else {
        var u :| u in s.waiters && s.waiters[u].pin == p;
        assert u in s'.waiters;
      }
    }
  }

  /** An unchanged index keeps every token and every slot owner. */
  lemma IndexUnchanged(s: State, s': State, t: Thread)
    requires NoOrphans(s) && Frame(s, s', t) && Wf(s.index) && s'.index == s.index
    requires t in s.waiters ==> s.waiters[t].reg.None? || (t in s'.waiters && s'.waiters[t].reg == s.waiters[t].reg && s'.waiters[t].wake == s.waiters[t].wake)
    ensures IndexKept(s, s', t)
  {
    forall j | 0 <= j < |s'.index.slots| ensures SlotOwned(s', j) {
      assert SlotOwned(s, j);
      if s.index.slots[j].entry.Some? {
        var u := s.index.slots[j].entry.value.wake.thread;
        if u != t { assert ThreadSame(s, s', u); }
      }
    }
  }

  /** The invariant from a step's local facts. */
  lemma LocalMove(s: State, s': State, t: Thread)
    requires Inv(s) && Moves(s, s', t) && IndexKept(s, s', t) && PinsOk(s')
    ensures Inv(s')
  {
    assert |s'.winners| <= s'.capacity && s'.nextToken > 0;
    hide WaiterOk, Frame, OnlyCurrent, PinsOk, SlotOwned, TokenKept, Known;
    OthersSound(s, s', t);
    OrphansNone(s, s', t);
  }

  lemma PlainMoveKeepsInv(s: State, s': State, t: Thread)
    requires Inv(s) && PlainMove(s, s', t)
    ensures Inv(s')
  {
    hide Inv, WaiterOk, Frame, OnlyCurrent, SlotOwned, TokenKept, Known, IndexKept, PinsOk, AllOk;
    assert PinsOk(s') by { InvParts(s); FrameThreads(s, s', t); PinsStay(s, s', t); }
    assert IndexKept(s, s', t) by { InvParts(s); IndexUnchanged(s, s', t); }
    LocalMove(s, s', t);
  }

  lemma InvParts(s: State)
    requires Inv(s)
    ensures AllOk(s) && NoOrphans(s) && PinsOk(s) && Wf(s.index)
  {
  }

  lemma FrameThreads(s: State, s': State, t: Thread)
    requires Frame(s, s', t)
    ensures forall u {:trigger ThreadSame(s, s', u)} :: u != t ==> ThreadSame(s, s', u)
  {
  }

  // ----- The steps of one waiter, seen from that waiter alone -----

  lemma PrepareMoves(s: State, t: Thread)
    requires LocalOk(s, t) && At(s, t, Observed)
    ensures PlainMove(s, DoPrepare(s, t, true), t)
  {
  }

  lemma EnterMoves(s: State, t: Thread, ok: bool)
    requires LocalOk(s, t) && Enabled(s, Enter(t, ok))
    ensures PlainMove(s, DoEnter(s, t, ok), t)
  {
  }

  lemma ArmMoves(s: State, t: Thread, arming: Arming)
    requires LocalOk(s, t) && At(s, t, InLedger)
    ensures PlainMove(s, DoArm(s, t, arming), t)
  {
  }

  lemma PublishMoves(s: State, t: Thread)
    requires LocalOk(s, t) && At(s, t, InIndex) && s.waiters[t].reg.Some? && PublishFits(s, t)
    ensures PlainMove(s, DoPublish(s, t), t)
  {
  }

  lemma CheckMoves(s: State, t: Thread)
    requires LocalOk(s, t) && Enabled(s, Check(t))
    ensures PlainMove(s, DoCheck(s, t), t)
  {
  }

  lemma CommitMoves(s: State, t: Thread)
    requires LocalOk(s, t) && Enabled(s, Commit(t))
    ensures PlainMove(s, DoCommit(s, t), t)
  {
  }

  lemma ReplayMoves(s: State, t: Thread)
    requires LocalOk(s, t) && Enabled(s, Replay(t))
    ensures PlainMove(s, DoReplay(s, t), t)
  {
  }

  lemma ResumeMoves(s: State, t: Thread)
    requires LocalOk(s, t) && Enabled(s, Resume(t))
    ensures PlainMove(s, DoResume(s, t), t)
  {
  }

  lemma TerminateMoves(s: State, t: Thread)
    requires LocalOk(s, t) && Enabled(s, Terminate(t))
    ensures PlainMove(s, DoTerminate(s, t), t)
  {
  }

  lemma CompleteMoves(s: State, t: Thread)
    requires LocalOk(s, t) && Enabled(s, CleanLedger(t)) && s.waiters[t].stage.plan.Fixed?
    ensures PlainMove(s, DoCleanLedger(s, t), t)
  {
    assert DoCleanLedger(s, t).winners.Keys <= s.winners.Keys;
    SubsetSize(DoCleanLedger(s, t).winners.Keys, s.winners.Keys);
  }

  lemma TerminalLookupMoves(s: State, t: Thread)
    requires LocalOk(s, t) && Enabled(s, CleanLedger(t)) && s.waiters[t].stage.plan.TerminalLookup?
    ensures PlainMove(s, DoCleanLedger(s, t), t)
  {
  }

  lemma TerminalClaimMoves(s: State, t: Thread)
    requires LocalOk(s, t) && Enabled(s, CleanLedger(t)) && s.waiters[t].stage.plan.TerminalClaim?
    ensures PlainMove(s, DoCleanLedger(s, t), t)
  {
    assert DoCleanLedger(s, t).winners.Keys == s.winners.Keys;
  }

  lemma {:induction false} SubsetSize<T>(a: set<T>, b: set<T>)
    requires a <= b
    ensures |a| <= |b|
  {
    if a != {} {
      var x :| x in a;
      SubsetSize(a - {x}, b - {x});
    }
  }

  lemma CleanDeadlineMoves(s: State, t: Thread)
    requires LocalOk(s, t) && Enabled(s, CleanDeadline(t))
    ensures PlainMove(s, Apply(s, CleanDeadline(t)), t)
  {
  }

  lemma CleanBlockMoves(s: State, t: Thread)
    requires LocalOk(s, t) && Enabled(s, CleanBlock(t))
    ensures PlainMove(s, Apply(s, CleanBlock(t)), t)
  {
  }

  // ----- Steps that add or remove a waiter -----

  lemma ReturnAtOnceMoves(s: State, t: Thread, pin: Pin)
    requires LocalOk(s, t)
    ensures FullMove(s, s.(issued := s.issued + {pin}, returned := s.returned + [pin]), t)
  {
  }

  lemma ObserveMoves(s: State, t: Thread, w: Waiter)
    requires LocalOk(s, t) && t !in s.waiters
    requires w == Waiter(Observed, w.key, w.expected, w.pin, BlockWakeKey(0, t), false, false, false, None, false)
    ensures FullMove(s, Put(s.(issued := s.issued + {w.pin}), t, w), t)
  {
    var s' := Put(s.(issued := s.issued + {w.pin}), t, w);
    assert forall k: BlockWakeKey :: k.thread == t ==> k !in s.winners && k !in s.deadlines && k !in s.blocked;
  }

  lemma BeginMoves(s: State, step: Step)
    requires step.Begin? && LocalOk(s, step.t) && Enabled(s, step)
    ensures var s' := Apply(s, step);
            && FullMove(s, s', step.t) && Moves(s, s', step.t) && s'.index == s.index && step.t !in s.waiters
            && (step.t in s'.waiters ==> s'.waiters[step.t].reg.None?)
  {
    hide LocalOk, Moves, Follows, Calm, StaysSettled;
    if Word(s, step.key) != step.expected || step.now {
      ReturnAtOnceMoves(s, step.t, step.pin);
    } else {
      ObserveMoves(s, step.t, Waiter(Observed, step.key, step.expected, step.pin, BlockWakeKey(0, step.t), false, false, false, None, false));
    }
  }

  lemma BeginPins(s: State, step: Step)
    requires step.Begin? && Enabled(s, step) && PinsOk(s)
    ensures PinsOk(Apply(s, step))
  {
    hide PinsOk;
    PinComesIn(s, Apply(s, step), step.t, step.pin);
  }

  lemma StepBegin(s: State, step: Step)
    requires Inv(s) && step.Begin? && Enabled(s, step)
    ensures Inv(Apply(s, step))
  {
    hide *;
    InvIsLocal(s, step.t);
    InvParts(s);
    BeginMoves(s, step);
    BeginPins(s, step);
    MovesFrame(s, Apply(s, step), step.t);
    IndexUnchanged(s, Apply(s, step), step.t);
    LocalMove(s, Apply(s, step), step.t);
  }

  lemma LeaveMoves(s: State, t: Thread)
    requires LocalOk(s, t) && t in s.waiters
    requires var w := s.waiters[t]; !w.block && !w.ledger && !w.deadline && w.reg.None? && !w.op
    ensures Moves(s, s.(waiters := s.waiters - {t}, returned := s.returned + [s.waiters[t].pin]), t)
  {
  }

  /** A waiter that holds nothing any more leaves, and its pin comes back. */
  lemma Leave(s: State, t: Thread)
    requires Inv(s) && t in s.waiters
    requires var w := s.waiters[t]; !w.block && !w.ledger && !w.deadline && w.reg.None? && !w.op
    ensures Inv(s.(waiters := s.waiters - {t}, returned := s.returned + [s.waiters[t].pin]))
  {
    hide Inv, WaiterOk, Frame, OnlyCurrent, SlotOwned, TokenKept, Known, IndexKept, PinsOk, AllOk, Moves, LocalOk;
    var s' := s.(waiters := s.waiters - {t}, returned := s.returned + [s.waiters[t].pin]);
    InvIsLocal(s, t);
    LeaveMoves(s, t);
    assert PinsOk(s') by { InvParts(s); PinComesBack(s, s', t); }
    assert IndexKept(s, s', t) by { InvParts(s); MovesFrame(s, s', t); IndexUnchanged(s, s', t); }
    LocalMove(s, s', t);
  }

  lemma MovesFrame(s: State, s': State, t: Thread)
    requires Moves(s, s', t)
    ensures Frame(s, s', t)
  {
  }

  // ----- Steps that leave every waiter where it is -----

  lemma QuietKeepsInv(s: State, s': State, t: Thread)
    requires Inv(s) && Moves(s, s', t)
    requires s'.waiters == s.waiters && s'.issued == s.issued && s'.returned == s.returned && s'.index == s.index
    ensures Inv(s')
  {
    assert PinsOk(s');
    hide Inv, WaiterOk, Frame, OnlyCurrent, SlotOwned, TokenKept, Known, IndexKept, PinsOk, AllOk, Moves;
    assert IndexKept(s, s', t) by { InvParts(s); MovesFrame(s, s', t); IndexUnchanged(s, s', t); }
    LocalMove(s, s', t);
  }

  lemma StoreMoves(s: State, key: AtomicWaitKey, value: nat)
    requires LocalOk(s, 0)
    ensures Moves(s, s.(words := s.words[key := value]), 0)
  {
  }

  lemma DeliverMoves(s: State, wake: BlockWakeKey)
    requires LocalOk(s, wake.thread) && wake in s.undelivered
    ensures Moves(s, s.(undelivered := s.undelivered - {wake}, blocked := s.blocked - {wake}), wake.thread)
  {
  }

  lemma RivalMoves(s: State, wake: BlockWakeKey, winner: Winner)
    requires LocalOk(s, wake.thread) && wake in s.winners && s.winners[wake].None?
    ensures var s' := s.(winners := s.winners[wake := Some(winner)], undelivered := s.undelivered + {wake});
            Moves(s, s', wake.thread) && StaysSettled(s, s', wake.thread)
  {
    assert s.winners[wake := Some(winner)].Keys == s.winners.Keys;
  }

  // ----- Steps that change the index -----

  /** `after` is `ix` with waiter `w` registered under `reg`, in a slot that was empty. */
  ghost predicate Registers(ix: Index, after: Index, w: Waiter, reg: Registration) {
    && after.domain == ix.domain == reg.domain && reg.key == w.key && reg.wake == w.wake
    && reg.slot < |ix.slots| && ix.slots[reg.slot].entry.None? && ix.slots[reg.slot].generation < reg.generation
    && after.slots == ix.slots[reg.slot := Slot(reg.generation, Some(Entry(w.key, w.wake, ix.nextSequence)))]
  }

  lemma RegisterRegisters(ix: Index, w: Waiter)
    requires Wf(ix)
    ensures var (after, r) := Register(ix, w.key, w.wake);
            && Wf(after)
            && (r.Success? ==> Registers(ix, after, w, r.value))
            && (r.Failure? ==> after.slots == ix.slots && after.domain == ix.domain)
  {
    if Register(ix, w.key, w.wake).1.Success? {
      RegisterEnqueues(ix, w.key, w.wake, w.key);
    } else {
      RegisterRefusalKeepsSlots(ix, w.key, w.wake);
    }
  }

  lemma RegisterMoves(s: State, t: Thread, after: Index, reg: Registration)
    requires LocalOk(s, t) && At(s, t, Armed) && Registers(s.index, after, s.waiters[t], reg)
    requires Word(s, s.waiters[t].key) == s.waiters[t].expected
    ensures FullMove(s, Put(s.(index := after), t, s.waiters[t].(stage := InIndex, reg := Some(reg))), t)
  {
    hide Register, Cancel;
  }

  lemma AbandonMoves(s: State, t: Thread, after: Index)
    requires LocalOk(s, t) && At(s, t, Armed)
    ensures FullMove(s, Put(s.(index := after), t, Clean(s.waiters[t], Cancelled)), t)
  {
    hide Register, Cancel;
  }

  /** A fresh registration takes an empty slot, so nobody's live entry moves. */
  lemma RegisterKeepsIndex(s: State, s': State, t: Thread, reg: Registration)
    requires AllOk(s) && (forall j :: 0 <= j < |s.index.slots| ==> SlotOwned(s, j)) && Wf(s'.index) && At(s, t, Armed)
    requires Registers(s.index, s'.index, s.waiters[t], reg)
    requires s' == Put(s.(index := s'.index), t, s.waiters[t].(stage := InIndex, reg := Some(reg)))
    ensures IndexKept(s, s', t)
  {
    hide SleepOk, Register, Cancel, Wf;
    forall u | u in s.waiters && u != t ensures TokenKept(s, s', s.waiters[u]) { assert WaiterOk(s, u); }
    assert WaiterOk(s, t);
    hide WaiterOk, AllOk;
    forall j | 0 <= j < |s'.index.slots| ensures SlotOwned(s', j) { assert SlotOwned(s, j); }
  }

  lemma AbandonKeepsIndex(s: State, s': State, t: Thread)
    requires AllOk(s) && (forall j :: 0 <= j < |s.index.slots| ==> SlotOwned(s, j)) && Wf(s'.index) && At(s, t, Armed)
    requires s'.index.slots == s.index.slots && s'.index.domain == s.index.domain
    requires s' == Put(s.(index := s'.index), t, Clean(s.waiters[t], Cancelled))
    ensures IndexKept(s, s', t)
  {
    hide SleepOk, Register, Cancel, Wf;
    assert WaiterOk(s, t);
    hide WaiterOk, AllOk;
    forall j | 0 <= j < |s'.index.slots| ensures SlotOwned(s', j) { assert SlotOwned(s, j); }
  }

  lemma CancelMoves(s: State, t: Thread)
    requires LocalOk(s, t) && Enabled(s, CleanIndex(t))
    ensures FullMove(s, DoCleanIndex(s, t), t)
  {
  }

  /** `after` is `ix` with the token's own entry gone, or `ix` itself. */
  ghost predicate Cancels(ix: Index, after: Index, reg: Registration) {
    if OwnLive(ix, reg) then after == ix.(slots := Cleared(ix.slots, reg.slot)) else after == ix
  }

  lemma CancelCancels(s: State, t: Thread)
    requires LocalOk(s, t) && Enabled(s, CleanIndex(t))
    ensures Cancels(s.index, DoCleanIndex(s, t).index, s.waiters[t].reg.value)
  {
    hide SleepOk, Owns, OnlyCurrent;
  }

  lemma CancelKeepsTokens(s: State, s': State, t: Thread, u: Thread)
    requires Inv(s) && t in s.waiters && u in s.waiters && u != t && s'.winners == s.winners
    requires s.waiters[t].reg.Some? && Cancels(s.index, s'.index, s.waiters[t].reg.value)
    ensures TokenKept(s, s', s.waiters[u])
  {
    assert WaiterOk(s, t) && WaiterOk(s, u);
    if s.waiters[u].reg.Some? && s.waiters[u].reg.value.slot == s.waiters[t].reg.value.slot { TokensApart(s, t, u); }
    hide Inv, AllOk, WaiterOk;
  }

  lemma CancelKeepsSlots(s: State, s': State, t: Thread)
    requires (forall j :: 0 <= j < |s.index.slots| ==> SlotOwned(s, j)) && Wf(s.index)
    requires t in s.waiters && s.waiters[t].reg.Some? && Cancels(s.index, s'.index, s.waiters[t].reg.value)
    requires s'.waiters == s.waiters[t := s.waiters[t].(reg := None)]
    ensures Wf(s'.index) && forall j :: 0 <= j < |s'.index.slots| ==> SlotOwned(s', j)
  {
    forall j | 0 <= j < |s'.index.slots| ensures SlotOwned(s', j) { assert SlotOwned(s, j); }
  }

  /** A cancel empties its own slot or nothing. */
  lemma CancelKeepsIndex(s: State, t: Thread)
    requires Inv(s) && Enabled(s, CleanIndex(t))
    ensures IndexKept(s, DoCleanIndex(s, t), t)
  {
    hide Inv, LocalOk, NoOrphans, AllOk, PinsOk, SlotOwned, TokenKept, Cancels, Wf, Cancel;
    var s' := DoCleanIndex(s, t);
    InvIsLocal(s, t);
    InvSlots(s);
    InvParts(s);
    CancelCancels(s, t);
    CancelKeepsSlots(s, s', t);
    forall u | u in s.waiters && u != t ensures TokenKept(s, s', s.waiters[u]) { CancelKeepsTokens(s, s', t, u); }
  }

  /** A step of `t` that may change the index but keeps its pin. */
  lemma IndexMoveKeepsInv(s: State, s': State, t: Thread)
    requires Inv(s) && Moves(s, s', t) && IndexKept(s, s', t)
    requires t in s.waiters && t in s'.waiters && s'.waiters[t].pin == s.waiters[t].pin
    requires s'.issued == s.issued && s'.returned == s.returned
    ensures Inv(s')
  {
    hide Inv, WaiterOk, Frame, OnlyCurrent, SlotOwned, TokenKept, Known, IndexKept, PinsOk, AllOk, Moves;
    assert PinsOk(s') by { InvParts(s); MovesFrame(s, s', t); FrameThreads(s, s', t); PinsStay(s, s', t); }
    LocalMove(s, s', t);
  }

  lemma InvSlots(s: State)
    requires Inv(s)
    ensures forall j :: 0 <= j < |s.index.slots| ==> SlotOwned(s, j)
  {
  }

  lemma StepReread(s: State, t: Thread)
    requires Inv(s) && At(s, t, Armed)
    ensures Inv(DoReread(s, t)) && FullMove(s, DoReread(s, t), t)
  {
    hide Inv, WaiterOk, IndexKept, Moves, LocalOk, AllOk, NoOrphans, PinsOk, Register, Registers, SlotOwned, Wf;
    var s' := DoReread(s, t);
    var w := s.waiters[t];
    InvIsLocal(s, t);
    InvParts(s);
    InvSlots(s);
    RegisterRegisters(s.index, w);
    if Word(s, w.key) == w.expected && Register(s.index, w.key, w.wake).1.Success? {
      var reg := Register(s.index, w.key, w.wake).1.value;
      RegisterMoves(s, t, s'.index, reg);
      RegisterKeepsIndex(s, s', t, reg);
    } else {
      AbandonMoves(s, t, s'.index);
      AbandonKeepsIndex(s, s', t);
    }
    IndexMoveKeepsInv(s, s', t);
  }

  lemma StepCleanIndex(s: State, t: Thread)
    requires Inv(s) && Enabled(s, CleanIndex(t))
    ensures Inv(DoCleanIndex(s, t)) && FullMove(s, DoCleanIndex(s, t), t)
  {
    hide Inv, WaiterOk, IndexKept, Moves, LocalOk, AllOk, NoOrphans, PinsOk, Cancel;
    InvIsLocal(s, t);
    CancelMoves(s, t);
    CancelKeepsIndex(s, t);
    IndexMoveKeepsInv(s, DoCleanIndex(s, t), t);
  }

  // ----- A wake, which may decide several waiters at once -----

  ghost predicate Wakes(s: State, s': State, key: AtomicWaitKey, c: Claimed) {
    && SlotEffect(s.index.slots, s.winners, key, c) && WinnerEffect(s.winners, c)
    && s' == s.(index := s.index.(slots := c.slots), winners := c.winners, undelivered := s.undelivered + (set w | w in c.batch))
  }

  lemma WakeKeepsToken(s: State, s': State, key: AtomicWaitKey, c: Claimed, w: Waiter)
    requires Wakes(s, s', key, c) && TokenOk(s, w)
    ensures TokenOk(s', w)
  {
    if w.reg.Some? {
      assert KeptOrTaken(s.index.slots[w.reg.value.slot], c.slots[w.reg.value.slot], key);
    }
  }

  lemma WakeKeepsWaiter(s: State, s': State, key: AtomicWaitKey, c: Claimed, u: Thread)
    requires Wakes(s, s', key, c) && u in s.waiters && WaiterOk(s, u)
    ensures WaiterOk(s', u)
  {
    WakeKeepsToken(s, s', key, c, s.waiters[u]);
    hide TokenOk, SlotEffect;
  }

  lemma WakeKeepsOwners(s: State, s': State, key: AtomicWaitKey, c: Claimed)
    requires Wakes(s, s', key, c) && AllOk(s) && NoOrphans(s)
    ensures NoOrphans(s')
  {
    hide Shape, SleepOk, TokenOk;
    forall w | w in c.batch ensures w.token < s.nextToken { assert Known(s, w); assert WaiterOk(s, w.thread); }
    hide AllOk, WaiterOk, Owns;
    forall j | 0 <= j < |s'.index.slots| ensures SlotOwned(s', j) {
      assert SlotOwned(s, j);
      assert KeptOrTaken(s.index.slots[j], c.slots[j], key);
    }
  }

  lemma WakeKeepsWf(s: State, s': State, key: AtomicWaitKey, c: Claimed)
    requires Wakes(s, s', key, c) && Wf(s.index)
    ensures Wf(s'.index)
  {
    assert forall j :: 0 <= j < |c.slots| ==> KeptOrTaken(s.index.slots[j], c.slots[j], key);
  }

  lemma WakeKeepsRest(s: State, s': State, key: AtomicWaitKey, c: Claimed)
    requires Wakes(s, s', key, c) && PinsOk(s) && |s.winners| <= s.capacity && s.nextToken > 0
    ensures PinsOk(s') && |s'.winners| <= s'.capacity && s'.nextToken > 0
  {
    hide SlotEffect;
    assert |s'.winners| == |s'.winners.Keys| == |s.winners.Keys| == |s.winners|;
  }

  lemma StepWake(s: State, key: AtomicWaitKey, count: nat)
    requires Inv(s)
    ensures Inv(DoWake(s, key, count))
  {
    var s' := DoWake(s, key, count);
    var limit := Limit(count, |s.index.slots|);
    var c := Claim(s.index.slots, s.winners, key, limit);
    hide Claim, SlotEffect, WinnerEffect, WaiterOk, NoOrphans, PinsOk, Wf;
    ClaimHasSlotEffect(s.index.slots, s.winners, key, limit);
    ClaimHasWinnerEffect(s.index.slots, s.winners, key, limit);
    assert Wakes(s, s', key, c);
    hide Wakes;
    forall u | u in s'.waiters ensures WaiterOk(s', u) { WakeKeepsWaiter(s, s', key, c, u); }
    WakeKeepsOwners(s, s', key, c);
    WakeKeepsWf(s, s', key, c);
    WakeKeepsRest(s, s', key, c);
  }

  // ----- All steps -----

  /** The thread a step belongs to. */
  function Actor(step: Step): Thread {
    if step.Store? || step.Wake? then 0
    else if step.Deliver? || step.Rival? then step.wake.thread
    else step.t
  }

  /** What any step other than a wake does. */
  ghost predicate StepFacts(s: State, s': State, step: Step) {
    var t := Actor(step);
    && Inv(s') && Frame(s, s', t) && Follows(s, s', t) && StaysSettled(s, s', t)
    && (!step.Reread? && !step.CleanIndex? ==> s'.index == s.index)
    && (Polite(s, step) ==> Calm(s, s', t))
    && (t in s.waiters && t !in s'.waiters ==> s'.returned == s.returned + [s.waiters[t].pin])
    && (t !in s.waiters && t in s'.waiters ==> s'.waiters[t].reg.None?)
  }

  lemma PlainMoveIsStep(s: State, s': State, step: Step)
    requires Inv(s) && PlainMove(s, s', Actor(step))
    ensures StepFacts(s, s', step)
  {
    PlainMoveFacts(s, s', Actor(step));
    hide Inv, PlainMove, Frame, Follows, Calm, StaysSettled;
    PlainMoveKeepsInv(s, s', Actor(step));
  }

  lemma PlainMoveFacts(s: State, s': State, t: Thread)
    requires PlainMove(s, s', t)
    ensures Frame(s, s', t) && Follows(s, s', t) && Calm(s, s', t) && StaysSettled(s, s', t)
    ensures t in s.waiters && t in s'.waiters && s'.index == s.index
  {
  }

  lemma LeaveIsStep(s: State, step: Step)
    requires Inv(s) && Actor(step) in s.waiters
    requires var w := s.waiters[Actor(step)]; !w.block && !w.ledger && !w.deadline && w.reg.None? && !w.op
    ensures var t := Actor(step);
            StepFacts(s, s.(waiters := s.waiters - {t}, returned := s.returned + [s.waiters[t].pin]), step)
  {
    var t := Actor(step);
    hide Inv, WaiterOk, Moves, LocalOk, Frame;
    InvIsLocal(s, t);
    LeaveMoves(s, t);
    MovesFrame(s, s.(waiters := s.waiters - {t}, returned := s.returned + [s.waiters[t].pin]), t);
    Leave(s, t);
  }

  lemma LocalWaiter(s: State, t: Thread)
    requires LocalOk(s, t) && t in s.waiters
    ensures WaiterOk(s, t)
  {
  }

  lemma PlainStep(s: State, step: Step)
    requires Inv(s) && Enabled(s, step)
    requires step.Prepare? || step.Enter? || step.Arm? || step.Publish? || step.Check? || step.Commit?
    ensures StepFacts(s, Apply(s, step), step)
  {
    hide Inv, LocalOk, PlainMove, StepFacts, PublishFits;
    InvIsLocal(s, step.t);
    match step
    case Prepare(t, ok) =>
      if ok {
        PrepareMoves(s, t);
        PlainMoveIsStep(s, DoPrepare(s, t, true), step);
      } else {
        assert WaiterOk(s, t) by { LocalWaiter(s, t); }
        LeaveIsStep(s, step);
      }
    case Enter(t, ok) => EnterMoves(s, t, ok); PlainMoveIsStep(s, DoEnter(s, t, ok), step);
    case Arm(t, arming) => ArmMoves(s, t, arming); PlainMoveIsStep(s, DoArm(s, t, arming), step);
    case Publish(t) => PublicationNeverFails(s, t); PublishMoves(s, t); PlainMoveIsStep(s, DoPublish(s, t), step);
    case Check(t) => CheckMoves(s, t); PlainMoveIsStep(s, DoCheck(s, t), step);
    case Commit(t) => CommitMoves(s, t); PlainMoveIsStep(s, DoCommit(s, t), step);
  }

  lemma SleepStep(s: State, step: Step)
    requires Inv(s) && Enabled(s, step) && (step.Replay? || step.Resume? || step.Terminate?)
    ensures StepFacts(s, Apply(s, step), step)
  {
    hide Inv, LocalOk, PlainMove, StepFacts;
    InvIsLocal(s, step.t);
    match step
    case Replay(t) => ReplayMoves(s, t); PlainMoveIsStep(s, DoReplay(s, t), step);
    case Resume(t) => ResumeMoves(s, t); PlainMoveIsStep(s, DoResume(s, t), step);
    case Terminate(t) => TerminateMoves(s, t); PlainMoveIsStep(s, DoTerminate(s, t), step);
  }

  lemma CleanupStep(s: State, step: Step)
    requires Inv(s) && Enabled(s, step) && (step.CleanLedger? || step.CleanDeadline? || step.CleanBlock? || step.Return?)
    ensures StepFacts(s, Apply(s, step), step)
  {
    hide Inv, LocalOk, PlainMove, StepFacts;
    InvIsLocal(s, step.t);
    match step
    case CleanLedger(t) =>
      match s.waiters[t].stage.plan {
        case Fixed(_) => CompleteMoves(s, t);
        case TerminalLookup => TerminalLookupMoves(s, t);
        case TerminalClaim => TerminalClaimMoves(s, t);
      }
      PlainMoveIsStep(s, DoCleanLedger(s, t), step);
    case CleanDeadline(t) => CleanDeadlineMoves(s, t); PlainMoveIsStep(s, Apply(s, step), step);
    case CleanBlock(t) => CleanBlockMoves(s, t); PlainMoveIsStep(s, Apply(s, step), step);
    case Return(t) =>
      assert WaiterOk(s, t) by { LocalWaiter(s, t); }
      LeaveIsStep(s, step);
  }

  lemma BeginStep(s: State, step: Step)
    requires Inv(s) && Enabled(s, step) && step.Begin?
    ensures StepFacts(s, Apply(s, step), step)
  {
    hide Inv, LocalOk, Frame, Moves, FullMove, Follows, Calm, StaysSettled, Enabled, Apply;
    StepBegin(s, step);
    InvIsLocal(s, step.t);
    BeginMoves(s, step);
    FullMoveFrame(s, Apply(s, step), step.t);
  }

  lemma IndexStep(s: State, step: Step)
    requires Inv(s) && Enabled(s, step) && (step.Reread? || step.CleanIndex?)
    ensures StepFacts(s, Apply(s, step), step)
  {
    hide Inv, Moves, Follows, Calm, StaysSettled, Frame, Register, Cancel;
    match step {
      case Reread(t) => StepReread(s, t);
      case CleanIndex(t) => StepCleanIndex(s, t);
    }
    FullMoveFrame(s, Apply(s, step), step.t);
  }

  lemma FullMoveFrame(s: State, s': State, t: Thread)
    requires FullMove(s, s', t)
    ensures Frame(s, s', t) && Follows(s, s', t) && Calm(s, s', t) && StaysSettled(s, s', t)
  {
  }

  lemma RivalCalm(s: State, step: Step)
    requires step.Rival? && LocalOk(s, step.wake.thread) && Enabled(s, step)
    ensures Polite(s, step) ==> Calm(s, Apply(s, step), step.wake.thread)
  {
    hide SleepOk, TokenOk, OnlyCurrent;
  }

  lemma OutsideStep(s: State, step: Step)
    requires Inv(s) && Enabled(s, step) && (step.Store? || step.Deliver? || step.Rival?)
    ensures StepFacts(s, Apply(s, step), step)
  {
    hide Inv, LocalOk, Moves, Frame;
    var s' := Apply(s, step);
    InvIsLocal(s, Actor(step));
    match step {
      case Store(key, value) => StoreMoves(s, key, value);
      case Deliver(wake) => DeliverMoves(s, wake);
      case Rival(wake, winner) => RivalMoves(s, wake, winner); RivalCalm(s, step);
    }
    MovesFrame(s, s', Actor(step));
    QuietKeepsInv(s, s', Actor(step));
  }

  lemma StepIsLocal(s: State, step: Step)
    requires Inv(s) && Enabled(s, step) && !step.Wake?
    ensures StepFacts(s, Apply(s, step), step)
  {
    hide *;
    if step.Begin? {
      BeginStep(s, step);
    } else if step.Prepare? || step.Enter? || step.Arm? || step.Publish? || step.Check? || step.Commit? {
      PlainStep(s, step);
    } else if step.Reread? || step.CleanIndex? {
      IndexStep(s, step);
    } else if step.Store? || step.Deliver? || step.Rival? {
      OutsideStep(s, step);
    } else if step.Replay? || step.Resume? || step.Terminate? {
      SleepStep(s, step);
    } else {
      CleanupStep(s, step);
    }
  }

  lemma StepFactsInv(s: State, s': State, step: Step)
    requires StepFacts(s, s', step)
    ensures Inv(s')
  {
  }

  /** No step of the machine breaks the ownership invariant. */
  lemma Preserved(s: State, step: Step)
    requires Inv(s) && Enabled(s, step)
    ensures Inv(Apply(s, step))
  {
    hide Inv, Enabled, StepFacts;
    if step.Wake? {
      StepWake(s, step.key, step.count);
    } else {
      StepIsLocal(s, step);
      StepFactsInv(s, Apply(s, step), step);
    }
  }
}
