/**
 The blocked-operation registry: the one winner ledger shared by every blocking
 syscall (kernel/src/task/blocked_operation.rs).  One entry per blocked thread;
 the first claim on an entry decides how that block generation ends.
 */
module BlockedLedger {
  import opened Wrappers

  /** Exact scheduler block generation. `token` is never minted twice. */
  datatype BlockWakeKey = BlockWakeKey(token: nat, thread: nat)

  datatype Winner =
    | Signal(item: nat, observed: nat)
    | AtomicWake
    | Timeout
    | Cancelled
    | Terminal

  /** What the ledger says about each live block generation. */
  type WinnerMap = map<BlockWakeKey, Option<Winner>>

  datatype LedgerEntry = LedgerEntry(process: nat, thread: nat, wake: BlockWakeKey, winner: Option<Winner>)

  datatype LedgerSlot = LedgerSlot(generation: nat, entry: Option<LedgerEntry>)

  datatype LedgerError =
    | LedgerCapacity
    | LedgerDuplicateThread
    | ForeignReservation
    | StaleReservation
    | WinnerMismatch

  datatype Reservation = Reservation(domain: nat, slot: nat, generation: nat, process: nat, thread: nat, wake: BlockWakeKey)

  predicate Holds(slot: LedgerSlot, wake: BlockWakeKey) {
    slot.entry.Some? && slot.entry.value.wake == wake
  }

  predicate Vacant(slot: LedgerSlot) {
    slot.entry.None? && slot.generation < U32_MAX
  }

  /** No two live entries share a thread, and a wake key names its own thread. */
  ghost predicate WellFormed(slots: seq<LedgerSlot>) {
    && (forall i :: 0 <= i < |slots| ==> slots[i].generation <= U32_MAX)
    && (forall i :: 0 <= i < |slots| && slots[i].entry.Some? ==>
          slots[i].entry.value.wake.thread == slots[i].entry.value.thread)
    && (forall i, j :: 0 <= i < j < |slots| && slots[i].entry.Some? && slots[j].entry.Some? ==>
          slots[i].entry.value.thread != slots[j].entry.value.thread)
  }

  ghost predicate HasThread(slots: seq<LedgerSlot>, thread: nat) {
    exists i :: 0 <= i < |slots| && slots[i].entry.Some? && slots[i].entry.value.thread == thread
  }

  /** What a slot array says, folded from the first slot to the last. */
  ghost function Winners(slots: seq<LedgerSlot>): WinnerMap {
    if slots == [] then map[]
    else
      var rest := Winners(slots[..|slots| - 1]);
      match slots[|slots| - 1].entry
      case None => rest
      case Some(e) => rest[e.wake := e.winner]
  }

  /** In a well-formed ledger the slot that holds a wake key decides what the map says. */
  lemma {:induction false} WinnersAt(slots: seq<LedgerSlot>, i: nat)
    requires WellFormed(slots) && i < |slots| && slots[i].entry.Some?
    ensures slots[i].entry.value.wake in Winners(slots)
    ensures Winners(slots)[slots[i].entry.value.wake] == slots[i].entry.value.winner
  {
    if i < |slots| - 1 { WinnersAt(slots[..|slots| - 1], i); }
  }

  /** Every key of the map is held by some slot. */
  lemma {:induction false} WinnersFrom(slots: seq<LedgerSlot>, wake: BlockWakeKey)
    requires wake in Winners(slots)
    ensures exists i :: 0 <= i < |slots| && Holds(slots[i], wake)
  {
    var last := |slots| - 1;
    if !Holds(slots[last], wake) {
      WinnersFrom(slots[..last], wake);
      var i :| 0 <= i < |slots[..last]| && Holds(slots[..last][i], wake);
      assert Holds(slots[i], wake);
    }
  }

  /** Replacing the winner of one entry updates exactly one key of the map. */
  lemma {:induction false} ClaimUpdates(slots: seq<LedgerSlot>, i: nat, winner: Winner)
    requires WellFormed(slots) && i < |slots| && slots[i].entry.Some?
    ensures var e := slots[i].entry.value;
            var after := slots[i := slots[i].(entry := Some(e.(winner := Some(winner))))];
            WellFormed(after) && Winners(after) == Winners(slots)[e.wake := Some(winner)]
  {
    var last := |slots| - 1;
    var e := slots[i].entry.value;
    var after := slots[i := slots[i].(entry := Some(e.(winner := Some(winner))))];
    if i == last {
      assert after[..last] == slots[..last];
    } else {
      ClaimUpdates(slots[..last], i, winner);
      assert after[..last] == slots[..last][i := after[i]];
    }
  }

  /** Emptying one slot forgets exactly one key of the map. */
  lemma {:induction false} RemoveUpdates(slots: seq<LedgerSlot>, i: nat)
    requires WellFormed(slots) && i < |slots| && slots[i].entry.Some?
    ensures var after := slots[i := slots[i].(entry := None)];
            WellFormed(after) && Winners(after) == Winners(slots) - {slots[i].entry.value.wake}
  {
    var last := |slots| - 1;
    var wake := slots[i].entry.value.wake;
    var after := slots[i := slots[i].(entry := None)];
    if i == last {
      assert after[..last] == slots[..last];
      if wake in Winners(slots[..last]) {
        WinnersFrom(slots[..last], wake);
        assert false;
      }
    } else {
      RemoveUpdates(slots[..last], i);
      assert after[..last] == slots[..last][i := after[i]];
    }
  }

  lemma InsertWellFormed(slots: seq<LedgerSlot>, i: nat, process: nat, thread: nat, wake: BlockWakeKey)
    requires WellFormed(slots) && i < |slots| && Vacant(slots[i]) && !HasThread(slots, thread) && wake.thread == thread
    ensures WellFormed(slots[i := LedgerSlot(slots[i].generation + 1, Some(LedgerEntry(process, thread, wake, None)))])
    ensures wake !in Winners(slots)
  {
    hide Winners;
    if wake in Winners(slots) {
      WinnersFrom(slots, wake);
      assert false;
    }
  }

  lemma {:induction false} InsertWinners(slots: seq<LedgerSlot>, i: nat, slot: LedgerSlot)
    requires i < |slots| && slots[i].entry.None? && slot.entry.Some? && slot.entry.value.wake !in Winners(slots)
    ensures Winners(slots[i := slot]) == Winners(slots)[slot.entry.value.wake := slot.entry.value.winner]
  {
    var last := |slots| - 1;
    var after := slots[i := slot];
    if i == last {
      assert after[..last] == slots[..last];
    } else {
      assert after[..last] == slots[..last][i := slot];
      WinnersStep(slots, slot.entry.value.wake);
      InsertWinners(slots[..last], i, slot);
    }
  }

  lemma WinnersStep(slots: seq<LedgerSlot>, wake: BlockWakeKey)
    requires |slots| > 0 && wake !in Winners(slots)
    ensures wake !in Winners(slots[..|slots| - 1])
    ensures slots[|slots| - 1].entry.Some? ==> slots[|slots| - 1].entry.value.wake != wake
  {
  }

  /** Filling a vacant slot adds exactly one key, with no winner. */
  lemma InsertUpdates(slots: seq<LedgerSlot>, i: nat, process: nat, thread: nat, wake: BlockWakeKey)
    requires WellFormed(slots) && i < |slots| && Vacant(slots[i])
    requires !HasThread(slots, thread) && wake.thread == thread
    ensures var after := slots[i := LedgerSlot(slots[i].generation + 1, Some(LedgerEntry(process, thread, wake, None)))];
            WellFormed(after) && wake !in Winners(slots) && Winners(after) == Winners(slots)[wake := None]
  {
    hide Winners, WellFormed;
    InsertWellFormed(slots, i, process, thread, wake);
    InsertWinners(slots, i, LedgerSlot(slots[i].generation + 1, Some(LedgerEntry(process, thread, wake, None))));
  }

  /** The slot a reservation would take. */
  ghost predicate FirstVacant(slots: seq<LedgerSlot>, i: nat) {
    i < |slots| && Vacant(slots[i]) && forall j :: 0 <= j < i ==> !Vacant(slots[j])
  }

  /** A reservation of this thread would fill a slot whose number does not fit in 16 bits. */
  ghost predicate Strands(slots: seq<LedgerSlot>, thread: nat) {
    !HasThread(slots, thread) && exists i: nat :: FirstVacant(slots, i) && i > U16_MAX
  }

  ghost predicate Admits(slots: seq<LedgerSlot>, thread: nat) {
    !HasThread(slots, thread) && exists i: nat :: FirstVacant(slots, i) && i <= U16_MAX
  }

  lemma {:induction false} LowestVacant(slots: seq<LedgerSlot>, i: nat) returns (k: nat)
    requires i < |slots| && Vacant(slots[i])
    ensures FirstVacant(slots, k) && k <= i
    decreases i
  {
    if j :| 0 <= j < i && Vacant(slots[j]) {
      k := LowestVacant(slots, j);
    } else {
      k := i;
    }
  }

  /** A thread is admitted exactly when it is not in the ledger and a slot with a 16-bit number is empty and not used up. */
  lemma AdmitsMeans(slots: seq<LedgerSlot>, thread: nat)
    ensures Admits(slots, thread) <==>
            && (forall i :: 0 <= i < |slots| && slots[i].entry.Some? ==> slots[i].entry.value.thread != thread)
            && exists i: nat :: i < |slots| && i <= 0xffff && slots[i].entry.None? && slots[i].generation < 0xffff_ffff
  {
    if i: nat :| i < |slots| && i <= U16_MAX && Vacant(slots[i]) {
      var k := LowestVacant(slots, i);
    }
  }

  /** A ledger whose slot numbers fit in 16 bits strands nobody. */
  lemma NeverStrands(slots: seq<LedgerSlot>, thread: nat)
    requires |slots| <= U16_MAX + 1
    ensures !Strands(slots, thread)
  {
  }

  /** No ledger both admits a thread and strands it. */
  lemma StrandsOrAdmits(slots: seq<LedgerSlot>, thread: nat)
    ensures !(Strands(slots, thread) && Admits(slots, thread))
  {
  }

  /** A stranding ledger: every slot a 16-bit number can name is held by some other thread, and one more is vacant. */
  lemma StrandingLedger() returns (slots: seq<LedgerSlot>, thread: nat)
    ensures |slots| == U16_MAX + 2 && WellFormed(slots) && Strands(slots, thread)
    ensures forall i :: 0 <= i <= U16_MAX ==> slots[i].entry.Some? && slots[i].entry.value.thread != thread
  {
    thread := U16_MAX + 1;
    slots := seq(U16_MAX + 2, (i: nat) => if i > U16_MAX then LedgerSlot(0, None)
                                          else LedgerSlot(1, Some(LedgerEntry(0, i, BlockWakeKey(i, i), None))));
    assert FirstVacant(slots, U16_MAX + 1);
  }

  /** The ledger itself: a fixed array of generation-counted slots. */
  class BlockedOperationRegistry {
    const domain: nat
    const slots: array<LedgerSlot>

    ghost predicate Valid() reads this, slots { WellFormed(slots[..]) }

    ghost function View(): WinnerMap reads this, slots { Winners(slots[..]) }

    constructor (domain: nat, capacity: nat)
      ensures Valid() && fresh(slots) && this.domain == domain && slots.Length == capacity
      ensures View() == map[]
    {
      this.domain := domain;
      slots := new LedgerSlot[capacity](_ => LedgerSlot(0, None));
      new;
      forall w | w in View() ensures false { WinnersFrom(slots[..], w); }
    }

    /** Whether this reservation still owns its slot. */
    ghost predicate Owns(r: Reservation) reads this, slots {
      && r.domain == domain && r.slot < slots.Length
      && slots[r.slot].generation == r.generation
      && slots[r.slot].entry.Some?
      && slots[r.slot].entry.value.process == r.process
      && slots[r.slot].entry.value.thread == r.thread
      && slots[r.slot].entry.value.wake == r.wake
    }

    /** All reservations that own their slot. */
    ghost function Owned(): iset<Reservation> reads this, slots { iset q | Owns(q) }

    /**
     Admits one thread.  The slot number is narrowed to 16 bits only after the slot was
     filled, so a refusal leaves the ledger as it was except when the first vacant slot
     lies past that range: then the refused entry stays behind.
     */
    method Reserve(process: nat, thread: nat, wake: BlockWakeKey) returns (r: Result<Reservation, LedgerError>)
      requires Valid() && wake.thread == thread
      modifies slots
      ensures Valid()
      ensures r == Failure(LedgerDuplicateThread) <==> old(HasThread(slots[..], thread))
      ensures r.Success? <==> old(Admits(slots[..], thread))
      ensures r.Failure? ==> r.error in {LedgerDuplicateThread, LedgerCapacity}
      ensures r.Failure? && !old(Strands(slots[..], thread)) ==>
                slots[..] == old(slots[..]) && View() == old(View()) && Owned() == old(Owned())
      ensures r.Failure? && old(Strands(slots[..], thread)) ==> wake !in old(View()) && View() == old(View())[wake := None]
      ensures r.Success? ==> wake !in old(View()) && View() == old(View())[wake := None]
      ensures r.Success? ==> Owns(r.value) && r.value.wake == wake && r.value.thread == thread
      ensures r.Success? ==> r.value !in old(Owned()) && Owned() == old(Owned()) + iset{r.value}
      ensures old(Owned()) <= Owned()
      ensures r.Success? ==>
                var i := r.value.slot;
                && i <= U16_MAX && i < slots.Length && old(slots[i]).entry.None? && old(slots[i]).generation < U32_MAX
                && (forall j :: 0 <= j < i ==> old(slots[j]).entry.Some? || old(slots[j]).generation >= U32_MAX)
                && r.value == Reservation(domain, i, old(slots[i]).generation + 1, process, thread, wake)
                && slots[..] == old(slots[..])[i := LedgerSlot(r.value.generation, Some(LedgerEntry(process, thread, wake, None)))]
    {
      var i := 0;
      while i < slots.Length
        invariant i <= slots.Length
        invariant forall j :: 0 <= j < i && slots[j].entry.Some? ==> slots[j].entry.value.thread != thread
      {
        if slots[i].entry.Some? && slots[i].entry.value.thread == thread {
          return Failure(LedgerDuplicateThread);
        }
        i := i + 1;
      }
      assert !HasThread(slots[..], thread);
      i := 0;
      while i < slots.Length && !Vacant(slots[i])
        invariant i <= slots.Length
        invariant forall j :: 0 <= j < i ==> !Vacant(slots[j])
      {
        i := i + 1;
      }
      if i == slots.Length {
        assert forall k: nat :: !FirstVacant(slots[..], k);
        return Failure(LedgerCapacity);
      }
      assert FirstVacant(slots[..], i) && forall k: nat :: FirstVacant(slots[..], k) ==> k == i;
      var reservation := Fill(i, process, thread, wake);
      if i > U16_MAX {
        return Failure(LedgerCapacity);
      }
      r := Success(reservation);
    }

    /** Fills a vacant slot under its next generation. */
    method Fill(i: nat, process: nat, thread: nat, wake: BlockWakeKey) returns (r: Reservation)
      requires Valid() && wake.thread == thread && i < slots.Length && Vacant(slots[i]) && !HasThread(slots[..], thread)
      modifies slots
      ensures Valid() && wake !in old(View()) && View() == old(View())[wake := None]
      ensures r == Reservation(domain, i, old(slots[i]).generation + 1, process, thread, wake)
      ensures Owns(r) && r !in old(Owned()) && Owned() == old(Owned()) + iset{r}
      ensures slots[..] == old(slots[..])[i := LedgerSlot(r.generation, Some(LedgerEntry(process, thread, wake, None)))]
    {
      InsertUpdates(slots[..], i, process, thread, wake);
      var generation := slots[i].generation + 1;
      ghost var before := slots[..];
      slots[i] := LedgerSlot(generation, Some(LedgerEntry(process, thread, wake, None)));
      assert slots[..] == before[i := slots[i]];
      r := Reservation(domain, i, generation, process, thread, wake);
    }

    method FindWake(wake: BlockWakeKey) returns (found: Option<nat>)
      ensures found.Some? ==> found.value < slots.Length && Holds(slots[found.value], wake)
      ensures found.None? ==> forall i :: 0 <= i < slots.Length ==> !Holds(slots[i], wake)
    {
      var i := 0;
      while i < slots.Length
        invariant i <= slots.Length
        invariant forall j :: 0 <= j < i ==> !Holds(slots[j], wake)
      {
        if Holds(slots[i], wake) {
          return Some(i);
        }
        i := i + 1;
      }
      found := None;
    }

    /** First claim wins; a later claim is told so and changes nothing. */
    method TryClaimWinner(wake: BlockWakeKey, winner: Winner) returns (r: Result<bool, LedgerError>)
      requires Valid()
      modifies slots
      ensures Valid()
      ensures wake !in old(View()) ==> r == Failure(StaleReservation)
      ensures wake in old(View()) ==> r == Success(old(View())[wake].None?)
      ensures View() == (if r == Success(true) then old(View())[wake := Some(winner)] else old(View()))
      ensures Owned() == old(Owned())
      ensures forall i :: 0 <= i < slots.Length ==> slots[i].generation == old(slots[i]).generation
    {
      var found := FindWake(wake);
      if found.None? {
        if wake in View() { WinnersFrom(slots[..], wake); }
        return Failure(StaleReservation);
      }
      var i := found.value;
      WinnersAt(slots[..], i);
      var e := slots[i].entry.value;
      if e.winner.Some? {
        return Success(false);
      }
      ClaimUpdates(slots[..], i, winner);
      ghost var before := slots[..];
      slots[i] := slots[i].(entry := Some(e.(winner := Some(winner))));
      assert slots[..] == before[i := slots[i]];
      r := Success(true);
    }

    method WinnerOf(wake: BlockWakeKey) returns (r: Result<Option<Winner>, LedgerError>)
      requires Valid()
      ensures wake in View() ==> r == Success(View()[wake])
      ensures wake !in View() ==> r == Failure(StaleReservation)
    {
      var found := FindWake(wake);
      if found.None? {
        if wake in View() { WinnersFrom(slots[..], wake); }
        return Failure(StaleReservation);
      }
      WinnersAt(slots[..], found.value);
      r := Success(slots[found.value].entry.value.winner);
    }

    /**
     Ends one block generation with `winner`.  It succeeds exactly when nobody
     else has claimed the generation or the recorded winner is the same one.
     */
    method CompleteWith(reservation: Reservation, winner: Winner) returns (r: Result<(), LedgerError>)
      requires Valid() && Owns(reservation)
      modifies slots
      ensures Valid()
      ensures reservation.wake in old(View())
      ensures r.Success? <==> old(View())[reservation.wake] in {None, Some(winner)}
      ensures r.Success? ==> View() == old(View()) - {reservation.wake} && Owned() == old(Owned()) - iset{reservation}
      ensures r.Failure? ==> r.error == WinnerMismatch && View() == old(View()) && Owned() == old(Owned())
      ensures forall i :: 0 <= i < slots.Length ==> slots[i].generation == old(slots[i]).generation
    {
      WinnersAt(slots[..], reservation.slot);
      assert reservation in Owned();
      var claimed := TryClaimWinner(reservation.wake, winner);
      if claimed == Success(false) {
        var recorded := WinnerOf(reservation.wake);
        if recorded != Success(Some(winner)) {
          return Failure(WinnerMismatch);
        }
      }
      assert reservation in Owned();
      Vacate(reservation);
      r := Success(());
    }

    /** Empties an owned slot; its generation stays. */
    method Vacate(reservation: Reservation)
      requires Valid() && Owns(reservation)
      modifies slots
      ensures Valid() && View() == old(View()) - {reservation.wake} && Owned() == old(Owned()) - iset{reservation}
      ensures forall i :: 0 <= i < slots.Length ==> slots[i].generation == old(slots[i]).generation
    {
      RemoveUpdates(slots[..], reservation.slot);
      ghost var before := slots[..];
      slots[reservation.slot] := slots[reservation.slot].(entry := None);
      assert slots[..] == before[reservation.slot := slots[reservation.slot]];
    }
  }
}
