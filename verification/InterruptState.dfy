/**
 The typed state of one Interrupt: delivery, acknowledgement and the waiters that
 race with them (kernel/src/device/interrupt.rs:489-496, 614-724, 865-947).
 */
module InterruptState {
  import opened Wrappers
  import opened InterruptPlatform

  datatype IntState =
    | Creating
    | Armed
    | Pending(coalesced: bool)
    | AckPrepared(raced: bool)
    | Finalizing

  datatype Disposition = Rejected | FirstPending | CoalescedPending | AckRace

  predicate Live(s: IntState) { !s.Creating? && !s.Finalizing? }

  predicate Signaled(s: IntState) { s.Pending? || s.AckPrepared? }

  function Delivered(s: IntState): (IntState, Disposition) {
    match s
    case Armed => (Pending(false), FirstPending)
    case Pending(_) => (Pending(true), CoalescedPending)
    case AckPrepared(_) => (AckPrepared(true), AckRace)
    case _ => (s, Rejected)
  }

  /** A coalesced fact is consumed at once; otherwise the platform must still rearm. */
  datatype AckKind = Coalesced | Rearm

  function PrepareAck(s: IntState): Option<(IntState, AckKind)> {
    match s
    case Pending(true) => Some((Pending(false), Coalesced))
    case Pending(false) => Some((AckPrepared(false), Rearm))
    case _ => None
  }

  function FinishAck(s: IntState): (IntState, AckOutcome)
    requires s.AckPrepared?
  {
    if s.raced then (Pending(false), PendingAfterRace) else (Armed, Rearmed)
  }

  function RestorePending(s: IntState): IntState {
    match s
    case AckPrepared(raced) => Pending(raced)
    case _ => s
  }

  // ----- One interrupt, its waiters, and everything that races on it -----

  type Waiter = nat

  /**
   Accepted deliveries are numbered.  `due` holds those that have changed the state but
   not yet asked for the wakes they owe, `told` the registered waiters some delivery has
   already put in a batch.
   */
  datatype Line = Line(state: IntState, ackInFlight: bool, registered: set<Waiter>, told: set<Waiter>, accepted: nat, due: set<nat>)

  datatype Event =
    | Deliver
    | ReadyWakes(delivery: nat)
    | Prepare
    | Finish
    | Restore
    | RegisterWait(w: Waiter)
    | CancelWait(w: Waiter)

  predicate Possible(l: Line, e: Event) {
    match e
    case ReadyWakes(d) => d in l.due
    case Finish => l.ackInFlight && l.state.AckPrepared?
    case Restore => l.ackInFlight
    case RegisterWait(w) => w !in l.registered
    case CancelWait(w) => w in l.registered
    case _ => true
  }

  function Next(l: Line, e: Event): Line
    requires Possible(l, e)
  {
    match e
    case Deliver =>
      var (state, disposition) := Delivered(l.state);
      if disposition == Rejected then l
      else l.(state := state, accepted := l.accepted + 1, due := l.due + {l.accepted})
    case ReadyWakes(d) => l.(told := l.told + l.registered, due := l.due - {d})
    case Prepare =>
      (match PrepareAck(l.state)
       case None => l
       case Some((state, kind)) => l.(state := state, ackInFlight := l.ackInFlight || kind == Rearm))
    case Finish => l.(state := FinishAck(l.state).0, ackInFlight := false)
    case Restore => l.(state := RestorePending(l.state), ackInFlight := false)
    case RegisterWait(w) => if l.state.Armed? then l.(registered := l.registered + {w}) else l
    case CancelWait(w) => l.(registered := l.registered - {w}, told := l.told - {w})
  }

  /** What `register_wait` answers in a live state. */
  datatype WaitOutcome = Ready | Registered | InvalidWait

  function WaitAnswer(s: IntState): WaitOutcome {
    if Signaled(s) then Ready else if Live(s) then Registered else InvalidWait
  }

  ghost predicate LineRun(lines: seq<Line>, events: seq<Event>) {
    && |lines| == |events| + 1
    && lines[0] == Line(Armed, false, {}, {}, 0, {})
    && forall i :: 0 <= i < |events| ==> Possible(lines[i], events[i]) && lines[i + 1] == Next(lines[i], events[i])
  }

  // ----- Delivery facts are conserved -----

  /** An Interrupt seen from outside: deliveries not yet acknowledged, at most two, and whether an acknowledgement is under way. */
  datatype Tally = Tally(count: nat, acking: bool)

  function Tallied(t: Tally, e: Event): Tally {
    match e
    case Deliver => t.(count := if t.count == 0 then 1 else 2)
    case Prepare =>
      if t.acking || t.count == 0 then t
      else if t.count == 2 then Tally(1, false)
      else Tally(1, true)
    case Finish => Tally(if t.count == 0 then 0 else t.count - 1, false)
    case Restore => t.(acking := false)
    case _ => t
  }

  function TallyOf(events: seq<Event>, n: nat): Tally
    requires n <= |events|
  {
    if n == 0 then Tally(0, false) else Tallied(TallyOf(events, n - 1), events[n - 1])
  }

  /** Accepted deliveries minus successful acknowledgements, saturating at two. */
  function Facts(events: seq<Event>, n: nat): nat
    requires n <= |events|
  {
    TallyOf(events, n).count
  }

  function Count(s: IntState): nat {
    match s
    case Pending(coalesced) => if coalesced then 2 else 1
    case AckPrepared(raced) => if raced then 2 else 1
    case _ => 0
  }

  lemma {:induction false} RunStaysLive(lines: seq<Line>, events: seq<Event>, n: nat)
    requires LineRun(lines, events) && n <= |events|
    ensures Live(lines[n].state) && (lines[n].state.AckPrepared? <==> lines[n].ackInFlight)
  {
    if n > 0 {
      RunStaysLive(lines, events, n - 1);
      assert Possible(lines[n - 1], events[n - 1]) && lines[n] == Next(lines[n - 1], events[n - 1]);
    }
  }

  /**
   A live Interrupt is a counter saturating at two.  Every accepted delivery adds
   one, every successful acknowledgement takes one, a failed acknowledgement takes
   none, and the object is signaled exactly while the count is positive.
   */
  lemma {:induction false} DeliveryFactsConserved(lines: seq<Line>, events: seq<Event>, n: nat)
    requires LineRun(lines, events) && n <= |events|
    ensures Count(lines[n].state) == Facts(events, n) && lines[n].ackInFlight == TallyOf(events, n).acking
    ensures Signaled(lines[n].state) <==> Facts(events, n) > 0
  {
    if n > 0 {
      DeliveryFactsConserved(lines, events, n - 1);
      RunStaysLive(lines, events, n - 1);
      assert Possible(lines[n - 1], events[n - 1]) && lines[n] == Next(lines[n - 1], events[n - 1]);
    }
  }

  /**
   What each call answers, over every run, from the tally alone: an acknowledgement is
   accepted exactly while a delivery is unacknowledged and none is under way, and at
   once exactly if there are two; a delivery is the first, coalesced or racing exactly
   by the count and whether an acknowledgement is under way, and is never rejected.
   */
  lemma AnswersFollowTheTally(lines: seq<Line>, events: seq<Event>, n: nat)
    requires LineRun(lines, events) && n <= |events|
    ensures var t, s := TallyOf(events, n), lines[n].state;
            && (PrepareAck(s).Some? <==> t.count > 0 && !t.acking)
            && (PrepareAck(s).Some? ==> (PrepareAck(s).value.1 == Coalesced <==> t.count == 2))
            && Delivered(s).1 == (if t.acking then AckRace else if t.count == 0 then FirstPending else CoalescedPending)
            && (t.acking ==> (FinishAck(s).1 == PendingAfterRace <==> t.count == 2))
  {
    RunStaysLive(lines, events, n);
    DeliveryFactsConserved(lines, events, n);
  }

  /** The delivery has not been looked at by any acknowledgement prepared after it. */
  predicate Unseen(s: IntState) { s.Pending? || s == AckPrepared(true) }

  /**
   An acknowledgement prepared before a delivery never clears that delivery: until
   some acknowledgement is prepared after it, the object stays signaled and, with no
   acknowledgement in flight, ready to be acknowledged.
   */
  lemma {:induction false} EarlierAckNeverClears(lines: seq<Line>, events: seq<Event>, i: nat, k: nat)
    requires LineRun(lines, events) && i < k <= |events|
    requires events[i] == Deliver && forall j :: i < j < k ==> events[j] != Prepare
    ensures Unseen(lines[k].state)
    ensures !lines[k].ackInFlight ==> PrepareAck(lines[k].state).Some?
    decreases k
  {
    RunStaysLive(lines, events, k - 1);
    RunStaysLive(lines, events, k);
    assert Possible(lines[k - 1], events[k - 1]) && lines[k] == Next(lines[k - 1], events[k - 1]);
    if k > i + 1 {
      EarlierAckNeverClears(lines, events, i, k - 1);
    }
  }

  // ----- No missed signal -----

  /** Every registered waiter of a signaled object is in a batch, or a batch is still due. */
  lemma {:induction false} NoMissedSignal(lines: seq<Line>, events: seq<Event>, n: nat, w: Waiter)
    requires LineRun(lines, events) && n <= |events|
    requires w in lines[n].registered && Signaled(lines[n].state)
    ensures w in lines[n].told || lines[n].due != {}
  {
    if n > 0 {
      RunStaysLive(lines, events, n - 1);
      var l, e := lines[n - 1], events[n - 1];
      assert Possible(l, e) && lines[n] == Next(l, e);
      if w in l.registered && Signaled(l.state) {
        NoMissedSignal(lines, events, n - 1, w);
      }
    }
  }

  /** Deliveries are numbered in the order they were accepted, and only accepted ones owe wakes. */
  lemma {:induction false} DueWereAccepted(lines: seq<Line>, events: seq<Event>, i: nat, n: nat)
    requires LineRun(lines, events) && i <= n <= |events|
    ensures lines[i].accepted <= lines[n].accepted && forall d :: d in lines[n].due ==> d < lines[n].accepted
    decreases n
  {
    if n > 0 {
      DueWereAccepted(lines, events, if i < n then i else n - 1, n - 1);
      assert Possible(lines[n - 1], events[n - 1]) && lines[n] == Next(lines[n - 1], events[n - 1]);
    }
  }

  /** A registered waiter stays registered until it cancels. */
  lemma {:induction false} StaysRegistered(lines: seq<Line>, events: seq<Event>, j: nat, k: nat, w: Waiter)
    requires LineRun(lines, events) && j <= k <= |events| && w in lines[j].registered
    requires forall m :: j <= m < k ==> events[m] != CancelWait(w)
    ensures w in lines[k].registered
    decreases k
  {
    if j < k {
      StaysRegistered(lines, events, j, k - 1, w);
      assert Possible(lines[k - 1], events[k - 1]) && lines[k] == Next(lines[k - 1], events[k - 1]);
    }
  }

  /**
   No waiter falls between a delivery's state change and its wakes.  Take a delivery
   accepted at `i` whose own wakes are collected at `k`, and a waiter that comes in at
   any `j` before that, early or late, and does not cancel meanwhile: it is told Ready
   at once, or it is registered when those wakes are collected and is among them.  It is
   told Ready exactly when a delivery is still unacknowledged, so certainly if it comes
   after this one and no acknowledgement was prepared in between.
   */
  lemma RacingWaiterIsServed(lines: seq<Line>, events: seq<Event>, i: nat, j: nat, k: nat, w: Waiter)
    requires LineRun(lines, events) && i < |events| && j < k < |events|
    requires events[i] == Deliver && events[k] == ReadyWakes(lines[i].accepted) && events[j] == RegisterWait(w)
    requires forall m :: j < m < k ==> events[m] != CancelWait(w)
    ensures i < k
    ensures WaitAnswer(lines[j].state) == Ready || (w in lines[k].registered && w in lines[k + 1].told)
    ensures WaitAnswer(lines[j].state) == Ready <==> Facts(events, j) > 0
    ensures i < j && (forall m :: i < m < j ==> events[m] != Prepare) ==> WaitAnswer(lines[j].state) == Ready
  {
    RunStaysLive(lines, events, j);
    DeliveryFactsConserved(lines, events, j);
    assert Possible(lines[k], events[k]) && lines[k + 1] == Next(lines[k], events[k]);
    DueWereAccepted(lines, events, k, k);
    if k <= i { DueWereAccepted(lines, events, k, i); }
    assert Possible(lines[j], events[j]) && lines[j + 1] == Next(lines[j], events[j]);
    if WaitAnswer(lines[j].state) != Ready {
      StaysRegistered(lines, events, j + 1, k, w);
    }
    if i < j && forall m :: i < m < j ==> events[m] != Prepare {
      EarlierAckNeverClears(lines, events, i, j);
    }
  }

  /** Once every batch has been collected nobody is left waiting on a signaled object. */
  lemma QuiescentMeansServed(lines: seq<Line>, events: seq<Event>, n: nat, w: Waiter)
    requires LineRun(lines, events) && n <= |events| && lines[n].due == {}
    requires w in lines[n].registered && w !in lines[n].told
    ensures Facts(events, n) == 0 && lines[n].state == Armed
  {
    RunStaysLive(lines, events, n);
    DeliveryFactsConserved(lines, events, n);
    if Signaled(lines[n].state) { NoMissedSignal(lines, events, n, w); }
  }
}
