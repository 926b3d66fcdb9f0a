/**
 The registry of suspended operations and the wait transaction as the kernel runs it,
 in place over the index, the ledger, the deadline service and the scheduler
 (kernel/src/atomic_wait.rs:330-495, 601-891).
 */
module AtomicWaitOperations {
  import opened Wrappers
  import opened BlockedLedger
  import opened AtomicWaitIndex
  import opened AtomicWaitTable
  import opened AtomicWaitMachine

  /** A suspended operation with the ledger reservation it owns. */
  datatype Held = Held(thread: Thread, operation: Operation, reservation: Reservation)

  type Operations = map<Thread, Held>

  class AtomicWaitOperationRegistry {
    const entries: array<Option<Held>>
    ghost var table: Operations
    ghost var place: map<Thread, nat>

    ghost predicate Valid() reads this, entries {
      && table.Keys == place.Keys
      && (forall t :: t in place ==> place[t] < entries.Length && entries[place[t]] == Some(table[t]) && table[t].thread == t)
      && (forall i :: 0 <= i < entries.Length && entries[i].Some? ==>
            entries[i].value.thread in place && place[entries[i].value.thread] == i)
    }

    ghost predicate HasRoom() reads this, entries {
      exists i :: 0 <= i < entries.Length && entries[i].None?
    }

    constructor (capacity: nat)
      ensures Valid() && fresh(entries) && entries.Length == capacity && table == map[]
    {
      entries := new Option<Held>[capacity](_ => None);
      table, place := map[], map[];
    }

    method FindThread(thread: Thread) returns (found: Option<nat>)
      requires Valid()
      ensures found.Some? <==> thread in table
      ensures found.Some? ==> found.value == place[thread]
    {
      var i := 0;
      while i < entries.Length
        invariant i <= entries.Length
        invariant forall j :: 0 <= j < i && entries[j].Some? ==> entries[j].value.thread != thread
      {
        if entries[i].Some? && entries[i].value.thread == thread {
          return Some(i);
        }
        i := i + 1;
      }
      found := None;
    }

    method FindOpen() returns (found: Option<nat>)
      ensures found.Some? ==> found.value < entries.Length && entries[found.value].None?
      ensures found.None? ==> forall i :: 0 <= i < entries.Length ==> entries[i].Some?
    {
      var i := 0;
      while i < entries.Length
        invariant i <= entries.Length
        invariant forall j :: 0 <= j < i ==> entries[j].Some?
      {
        if entries[i].None? {
          return Some(i);
        }
        i := i + 1;
      }
      found := None;
    }

    /** One operation per thread; a duplicate is reported before a full table. */
    method Publish(held: Held) returns (r: Result<(), WaitError>)
      requires Valid()
      modifies this, entries
      ensures Valid()
      ensures r == Failure(DuplicateThread) <==> held.thread in old(table)
      ensures r == Failure(Capacity) <==> held.thread !in old(table) && !old(HasRoom())
      ensures r.Failure? ==> r.error in {DuplicateThread, Capacity} && table == old(table) && entries[..] == old(entries[..])
      ensures r.Success? ==> table == old(table)[held.thread := held]
    {
      var twin := FindThread(held.thread);
      if twin.Some? {
        return Failure(DuplicateThread);
      }
      var open := FindOpen();
      if open.None? {
        return Failure(Capacity);
      }
      entries[open.value] := Some(held);
      table := table[held.thread := held];
      place := place[held.thread := open.value];
      r := Success(());
    }

    method Remove(i: nat) returns (held: Held)
      requires Valid() && i < entries.Length && entries[i].Some?
      modifies this, entries
      ensures Valid() && held == old(entries[i].value)
      ensures held.thread in old(table) && old(table)[held.thread] == held && table == old(table) - {held.thread}
    {
      held := entries[i].value;
      entries[i] := None;
      table := table - {held.thread};
      place := place - {held.thread};
    }

    method TakeThread(thread: Thread) returns (r: Option<Held>)
      requires Valid()
      modifies this, entries
      ensures Valid()
      ensures r == (if thread in old(table) then Some(old(table)[thread]) else None)
      ensures r.Some? ==> r.value.thread == thread
      ensures table == old(table) - {thread}
    {
      var found := FindThread(thread);
      if found.None? {
        assert table == table - {thread};
        return None;
      }
      var held := Remove(found.value);
      r := Some(held);
    }

    method TakeWake(wake: BlockWakeKey) returns (r: Result<Held, WaitError>)
      requires Valid()
      modifies this, entries
      ensures Valid()
      ensures r.Failure? ==>
                r.error == StaleRegistration && table == old(table) && forall t :: t in table ==> table[t].operation.wake != wake
      ensures r.Success? ==>
                && r.value.operation.wake == wake && r.value.thread in old(table) && old(table)[r.value.thread] == r.value
                && table == old(table) - {r.value.thread}
    {
      var i := 0;
      while i < entries.Length
        invariant i <= entries.Length && Valid() && table == old(table)
        invariant forall j :: 0 <= j < i && entries[j].Some? ==> entries[j].value.operation.wake != wake
      {
        if entries[i].Some? && entries[i].value.operation.wake == wake {
          var held := Remove(i);
          return Success(held);
        }
        i := i + 1;
      }
      r := Failure(StaleRegistration);
    }
  }

  /** The scheduler's block reservations and blocked threads, and the armed deadlines. */
  class WaitDomain {
    var pending: map<Thread, BlockWakeKey>
    var blocked: set<BlockWakeKey>
    var deadlines: set<BlockWakeKey>
    var nextToken: nat

    ghost predicate Valid() reads this {
      && (forall w :: w in deadlines ==> w.token < nextToken)
      && (forall w :: w in blocked ==> w.token < nextToken)
    }

    constructor ()
      ensures Valid() && pending == map[] && blocked == {} && deadlines == {}
    {
      pending, blocked, deadlines, nextToken := map[], {}, {}, 1;
    }
  }

  /** Slot generations may have moved on, but the same entries are in the same slots. */
  ghost predicate SameEntries(a: seq<Slot>, b: seq<Slot>) {
    |a| == |b| && forall i :: 0 <= i < |a| ==> a[i].entry == b[i].entry && a[i].generation <= b[i].generation
  }

  /** Exactly one entry, in a slot that was empty, was added. */
  ghost predicate OneEntryMore(a: seq<Slot>, b: seq<Slot>, reg: Registration) {
    && |a| == |b| && reg.slot < |a| && a[reg.slot].entry.None?
    && a[reg.slot].generation < b[reg.slot].generation == reg.generation && b[reg.slot].entry.Some?
    && b[reg.slot].entry.value.key == reg.key && b[reg.slot].entry.value.wake == reg.wake
    && forall i :: 0 <= i < |a| && i != reg.slot ==> b[i] == a[i]
  }

  lemma RegisterAdds(ix: Index, key: AtomicWaitKey, wake: BlockWakeKey)
    ensures var (after, r) := Register(ix, key, wake);
            && after.domain == ix.domain
            && (r.Failure? ==> after.slots == ix.slots)
            && (r.Success? ==> OneEntryMore(ix.slots, after.slots, r.value) && r.value.domain == ix.domain
                               && r.value.key == key && r.value.wake == wake)
  {
  }

  /** The added entry is there, or has been taken out again and its slot not reused. */
  ghost predicate Undoable(before: seq<Slot>, now: seq<Slot>, reg: Registration) {
    || OneEntryMore(before, now, reg)
    || (&& SameEntries(before, now) && reg.slot < |before| && before[reg.slot].entry.None?
        && now[reg.slot].generation == reg.generation)
  }

  lemma AddedIsUndoable(before: seq<Slot>, now: seq<Slot>, reg: Registration)
    requires OneEntryMore(before, now, reg)
    ensures Undoable(before, now, reg)
  {
  }

  /** Cancelling the one entry that was added gives the old entries back; cancelling it again changes nothing. */
  lemma CancelUndoes(before: seq<Slot>, ix: Index, reg: Registration)
    requires reg.domain == ix.domain
    requires Undoable(before, ix.slots, reg)
    ensures Cancel(ix, reg).1.Success? && SameEntries(before, Cancel(ix, reg).0.slots)
  {
  }

  /** What other parties do between publication and the final check. */
  datatype Hook = Quiet | WokenUp | DeadlineFires

  datatype BeginResult =
    | BeginMismatch(pin: Pin)
    | BeginTimedOut(pin: Pin)
    | BeginReady(pin: Pin)
    | BeginFailed(pin: Pin)
    | BeginSuspended(wake: BlockWakeKey)

  /** Ends a claim on the ledger, drops its deadline and gives the block reservation back. */
  method Abandon(ledger: BlockedOperationRegistry, domain: WaitDomain, reservation: Reservation, winner: Winner)
    requires ledger.Valid() && domain.Valid() && ledger.Owns(reservation)
    requires reservation.wake in ledger.View() && ledger.View()[reservation.wake] in {None, Some(winner)}
    modifies ledger.slots, domain
    ensures ledger.Valid() && domain.Valid()
    ensures ledger.View() == old(ledger.View()) - {reservation.wake} && ledger.Owned() == old(ledger.Owned()) - iset{reservation}
    ensures domain.pending == old(domain.pending) - {reservation.thread}
    ensures domain.deadlines == old(domain.deadlines) - {reservation.wake}
    ensures domain.blocked == old(domain.blocked) && domain.nextToken == old(domain.nextToken)
  {
    hide BlockedOperationRegistry.Valid, BlockedOperationRegistry.View, BlockedOperationRegistry.Owns, BlockedOperationRegistry.Owned;
    var completed := ledger.CompleteWith(reservation, winner);
    domain.deadlines := domain.deadlines - {reservation.wake};
    domain.pending := domain.pending - {reservation.thread};
  }

  /** The rival winner of the hook: a wake also takes the entry out of the index, a deadline does not. */
  method RunHook(index: AtomicWaitRegistry, ledger: BlockedOperationRegistry, reg: Registration, hook: Hook,
                 ghost before: seq<Slot>, reservation: Reservation)
    requires ledger.Valid() && ledger.Owns(reservation) && reservation.wake in ledger.View() && ledger.View()[reservation.wake] == None
    requires reg.domain == index.domain && OneEntryMore(before, index.slots[..], reg)
    modifies index.slots, ledger.slots
    ensures ledger.Valid() && ledger.Owned() == old(ledger.Owned())
    ensures hook == Quiet ==> ledger.View() == old(ledger.View()) && OneEntryMore(before, index.slots[..], reg)
    ensures hook == WokenUp ==> ledger.View() == old(ledger.View())[reservation.wake := Some(AtomicWake)]
    ensures hook == DeadlineFires ==> ledger.View() == old(ledger.View())[reservation.wake := Some(Timeout)]
    ensures Undoable(before, index.slots[..], reg)
  {
    hide BlockedOperationRegistry.Valid, BlockedOperationRegistry.View, BlockedOperationRegistry.Owns;
    match hook
    case Quiet =>
    case WokenUp =>
      var claimed := ledger.TryClaimWinner(reservation.wake, AtomicWake);
      var cancelled := index.CancelIfLive(reg);
    case DeadlineFires =>
      var claimed := ledger.TryClaimWinner(reservation.wake, Timeout);
  }

  // ----- The transaction -----

  /** Everything the transaction touches. */
  datatype Snapshot = Snapshot(
    domain: nat,
    slots: seq<Slot>,
    winners: WinnerMap,
    owned: iset<Reservation>,
    operations: Operations,
    pending: map<Thread, BlockWakeKey>,
    blocked: set<BlockWakeKey>,
    deadlines: set<BlockWakeKey>)

  ghost function Snap(index: AtomicWaitRegistry, ledger: BlockedOperationRegistry, operations: AtomicWaitOperationRegistry, domain: WaitDomain): Snapshot
    reads index, index.slots, ledger, ledger.slots, operations, domain
  {
    Snapshot(index.domain, index.slots[..], ledger.View(), ledger.Owned(), operations.table, domain.pending, domain.blocked, domain.deadlines)
  }

  /** Nothing is left behind: entries, ledger, operations, deadlines and block reservations are as they were. */
  ghost predicate Restored(a: Snapshot, b: Snapshot) {
    && b.domain == a.domain && SameEntries(a.slots, b.slots)
    && b.winners == a.winners && b.owned == a.owned && b.operations == a.operations
    && b.pending == a.pending && b.blocked == a.blocked && b.deadlines == a.deadlines
  }

  /** What one wait asks for: on whose behalf, on which word, and whether with a deadline. */
  datatype Request = Request(process: nat, wake: BlockWakeKey, pin: Pin, key: AtomicWaitKey, deadline: bool)

  /**
   Exactly one entry, one undecided ledger key, one operation and one blocked thread
   more, all under one wake key; the entry is on the requested word, the ledger entry is
   the requesting process's, and a deadline is armed exactly if one was requested.
   */
  ghost predicate OneOfEach(a: Snapshot, b: Snapshot, q: Request) {
    var thread, wake := q.wake.thread, q.wake;
    && b.domain == a.domain && wake !in a.winners && b.winners == a.winners[wake := None]
    && thread !in a.operations && thread in b.operations && b.operations == a.operations[thread := b.operations[thread]]
    && wake !in a.blocked && b.blocked == a.blocked + {wake} && b.pending == a.pending
    && wake !in a.deadlines && b.deadlines == (if q.deadline then a.deadlines + {wake} else a.deadlines)
    && var held := b.operations[thread];
       var reg, reservation := held.operation.reg, held.reservation;
       && held.thread == thread && held.operation == Operation(wake, q.pin, reg, q.deadline)
       && reservation.process == q.process && reservation.thread == thread && reservation.wake == wake
       && reservation !in a.owned && b.owned == a.owned + iset{reservation}
       && OneEntryMore(a.slots, b.slots, reg) && reg.domain == a.domain && reg.key == q.key && reg.wake == wake
  }

  /** A block reservation is held and nothing else. */
  ghost predicate BlockHeld(a: Snapshot, b: Snapshot, thread: Thread, wake: BlockWakeKey) {
    && thread !in a.pending && wake !in a.blocked && wake !in a.deadlines
    && b == a.(pending := a.pending[thread := wake])
  }

  /** The ledger entry and, if there is one, the deadline are held as well. */
  ghost predicate LedgerHeld(a: Snapshot, b: Snapshot, reservation: Reservation, deadline: bool) {
    var thread, wake := reservation.thread, reservation.wake;
    && wake.thread == thread && reservation !in a.owned
    && thread !in a.pending && wake !in a.blocked && wake !in a.deadlines && wake !in a.winners
    && b == a.(pending := a.pending[thread := wake], winners := a.winners[wake := None], owned := a.owned + iset{reservation},
               deadlines := if deadline then a.deadlines + {wake} else a.deadlines)
  }

  /** Giving everything back in turn restores the state before the block reservation. */
  lemma Unwound(a: Snapshot, b: Snapshot, reservation: Reservation, recorded: Option<Winner>)
    requires var thread, wake := reservation.thread, reservation.wake;
             && thread !in a.pending && wake !in a.deadlines && wake !in a.winners && reservation !in a.owned
             && b.pending == a.pending[thread := wake] - {thread}
             && (b.deadlines == a.deadlines + {wake} - {wake} || b.deadlines == a.deadlines - {wake})
             && b.winners == a.winners[wake := recorded] - {wake} && b.owned == a.owned + iset{reservation} - iset{reservation}
             && b.domain == a.domain && b.blocked == a.blocked && b.operations == a.operations && SameEntries(a.slots, b.slots)
    ensures Restored(a, b)
  {
    assert b.pending == a.pending;
    assert b.winners == a.winners;
    assert b.deadlines == a.deadlines;
    assert b.owned == a.owned;
  }

  /** The index entry, the ledger key, the deadline and the block reservation go, in that order. */
  method Unwind(index: AtomicWaitRegistry, ledger: BlockedOperationRegistry, operations: AtomicWaitOperationRegistry,
                domain: WaitDomain, reservation: Reservation, reg: Registration, winner: Winner,
                ghost recorded: Option<Winner>, ghost deadline: bool, ghost base: Snapshot)
    requires ledger.Valid() && operations.Valid() && domain.Valid() && ledger.Owns(reservation)
    requires reg.domain == index.domain && recorded in {None, Some(winner)}
    requires Undoable(base.slots, index.slots[..], reg)
    requires LedgerHeld(base, Snap(index, ledger, operations, domain).(slots := base.slots, winners := base.winners[reservation.wake := None]),
                        reservation, deadline)
    requires ledger.View() == base.winners[reservation.wake := recorded]
    modifies index.slots, ledger.slots, domain
    ensures ledger.Valid() && operations.Valid() && domain.Valid()
    ensures Restored(base, Snap(index, ledger, operations, domain))
  {
    hide BlockedOperationRegistry.Valid, BlockedOperationRegistry.View, BlockedOperationRegistry.Owns,
         BlockedOperationRegistry.Owned, AtomicWaitOperationRegistry.Valid, Undoable, SameEntries, Restored, Cancel;
    CancelUndoes(base.slots, index.View(), reg);
    var cancelled := index.CancelIfLive(reg);
    Abandon(ledger, domain, reservation, winner);
    Unwound(base, Snap(index, ledger, operations, domain), reservation, recorded);
  }

  /** An operation that already has its winner is taken back before it ever sleeps. */
  method FinishNow(index: AtomicWaitRegistry, ledger: BlockedOperationRegistry, operations: AtomicWaitOperationRegistry,
                   domain: WaitDomain, reservation: Reservation, reg: Registration, winner: Winner,
                   ghost deadline: bool, ghost base: Snapshot)
    requires ledger.Valid() && operations.Valid() && domain.Valid() && ledger.Owns(reservation)
    requires reg.domain == index.domain && Undoable(base.slots, index.slots[..], reg)
    requires reservation.thread !in base.operations && operations.table - {reservation.thread} == base.operations
    requires LedgerHeld(base, Snap(index, ledger, operations, domain).(slots := base.slots, operations := base.operations,
                                   winners := base.winners[reservation.wake := None]), reservation, deadline)
    requires ledger.View() == base.winners[reservation.wake := Some(winner)]
    modifies index.slots, ledger.slots, operations, operations.entries, domain
    ensures ledger.Valid() && operations.Valid() && domain.Valid()
    ensures Restored(base, Snap(index, ledger, operations, domain))
  {
    hide BlockedOperationRegistry.Valid, BlockedOperationRegistry.View, BlockedOperationRegistry.Owns,
         BlockedOperationRegistry.Owned, AtomicWaitOperationRegistry.Valid, Undoable, Restored;
    var taken := operations.TakeThread(reservation.thread);
    Unwind(index, ledger, operations, domain, reservation, reg, winner, Some(winner), deadline, base);
  }

  /** The published operation is the only thing held beyond the ledger entry and the block. */
  ghost predicate PublishedHeld(base: Snapshot, now: Snapshot, pin: Pin, reservation: Reservation, reg: Registration, deadline: bool) {
    var thread := reservation.thread;
    && thread !in base.operations && reg.wake == reservation.wake && OneEntryMore(base.slots, now.slots, reg)
    && now.operations == base.operations[thread := Held(thread, Operation(reservation.wake, pin, reg, deadline), reservation)]
    && LedgerHeld(base, now.(slots := base.slots, operations := base.operations), reservation, deadline)
  }

  /** How the transaction ends once the operation is published. */
  function HookResult(hook: Hook, wake: BlockWakeKey, pin: Pin): BeginResult {
    match hook
    case Quiet => BeginSuspended(wake)
    case WokenUp => BeginReady(pin)
    case DeadlineFires => BeginTimedOut(pin)
  }

  lemma OwnsIsOwned(ledger: BlockedOperationRegistry, reservation: Reservation)
    ensures ledger.Owns(reservation) <==> reservation in ledger.Owned()
  {
  }

  /** After publication: let others act, then suspend, or finish at once if somebody won. */
  method Decide(index: AtomicWaitRegistry, ledger: BlockedOperationRegistry, operations: AtomicWaitOperationRegistry,
                domain: WaitDomain, pin: Pin, reservation: Reservation, reg: Registration,
                ghost deadline: bool, hook: Hook, ghost base: Snapshot)
    returns (r: BeginResult)
    requires ledger.Valid() && operations.Valid() && domain.Valid() && ledger.Owns(reservation)
    requires reg.domain == index.domain && reservation.wake.token < domain.nextToken
    requires PublishedHeld(base, Snap(index, ledger, operations, domain), pin, reservation, reg, deadline)
    modifies index.slots, ledger.slots, operations, operations.entries, domain
    ensures ledger.Valid() && operations.Valid() && domain.Valid()
    ensures Outcome(base, Snap(index, ledger, operations, domain), Request(reservation.process, reservation.wake, pin, reg.key, deadline), r)
    ensures r == HookResult(hook, reservation.wake, pin)
  {
    hide BlockedOperationRegistry.Valid, BlockedOperationRegistry.View, BlockedOperationRegistry.Owns,
         BlockedOperationRegistry.Owned, AtomicWaitOperationRegistry.Valid, OneEntryMore, Undoable, Restored;
    OwnsIsOwned(ledger, reservation);
    RunHook(index, ledger, reg, hook, base.slots, reservation);
    OwnsIsOwned(ledger, reservation);
    if hook == Quiet {
      domain.pending := domain.pending - {reservation.thread};
      domain.blocked := domain.blocked + {reservation.wake};
      assert domain.pending == base.pending;
      return BeginSuspended(reservation.wake);
    }
    assert operations.table - {reservation.thread} == base.operations;
    FinishNow(index, ledger, operations, domain, reservation, reg, if hook == WokenUp then AtomicWake else Timeout, deadline, base);
    r := if hook == WokenUp then BeginReady(pin) else BeginTimedOut(pin);
  }

  /** From a live registration on: publish the operation, or undo everything if it cannot be published. */
  method BeginRegistered(index: AtomicWaitRegistry, ledger: BlockedOperationRegistry, operations: AtomicWaitOperationRegistry,
                         domain: WaitDomain, pin: Pin, reservation: Reservation, reg: Registration,
                         deadline: bool, hook: Hook, ghost base: Snapshot)
    returns (r: BeginResult)
    requires ledger.Valid() && operations.Valid() && domain.Valid() && ledger.Owns(reservation)
    requires reg.domain == index.domain && reg.wake == reservation.wake && reservation.wake.token < domain.nextToken
    requires OneEntryMore(base.slots, index.slots[..], reg)
    requires LedgerHeld(base, Snap(index, ledger, operations, domain).(slots := base.slots), reservation, deadline)
    modifies index.slots, ledger.slots, operations, operations.entries, domain
    ensures ledger.Valid() && operations.Valid() && domain.Valid()
    ensures Outcome(base, Snap(index, ledger, operations, domain), Request(reservation.process, reservation.wake, pin, reg.key, deadline), r)
    ensures r == if reservation.thread !in old(operations.table) && old(operations.HasRoom())
                 then HookResult(hook, reservation.wake, pin) else BeginFailed(pin)
  {
    hide BlockedOperationRegistry.Valid, BlockedOperationRegistry.View, BlockedOperationRegistry.Owns,
         BlockedOperationRegistry.Owned, AtomicWaitOperationRegistry.Valid, OneEntryMore, Undoable, Restored, OneOfEach;
    var published := operations.Publish(Held(reservation.thread, Operation(reservation.wake, pin, reg, deadline), reservation));
    if published.Failure? {
      AddedIsUndoable(base.slots, index.slots[..], reg);
      Unwind(index, ledger, operations, domain, reservation, reg, Cancelled, None, deadline, base);
      return BeginFailed(pin);
    }
    r := Decide(index, ledger, operations, domain, pin, reservation, reg, deadline, hook, base);
  }

  /** Suspended leaves exactly one of each; every other exit returns the pin and leaves nothing. */
  ghost predicate Outcome(base: Snapshot, now: Snapshot, q: Request, r: BeginResult) {
    if r.BeginSuspended? then r.wake == q.wake && OneOfEach(base, now, q)
    else r.pin == q.pin && Restored(base, now)
  }

  /** The index takes the registration and the operation registry has room for this thread. */
  ghost predicate CanPublish(index: AtomicWaitRegistry, operations: AtomicWaitOperationRegistry, key: AtomicWaitKey, wake: BlockWakeKey)
    reads index, index.slots, operations, operations.entries
  {
    Register(index.View(), key, wake).1.Success? && wake.thread !in operations.table && operations.HasRoom()
  }

  /** From a held ledger entry on: read the word again under the index lock and register. */
  method BeginArmed(index: AtomicWaitRegistry, ledger: BlockedOperationRegistry, operations: AtomicWaitOperationRegistry,
                    domain: WaitDomain, pin: Pin, reservation: Reservation, key: AtomicWaitKey,
                    expected: nat, second: nat, deadline: bool, hook: Hook, ghost base: Snapshot)
    returns (r: BeginResult)
    requires ledger.Valid() && operations.Valid() && domain.Valid() && ledger.Owns(reservation)
    requires reservation.wake.token < domain.nextToken
    requires LedgerHeld(base, Snap(index, ledger, operations, domain), reservation, deadline)
    modifies index, index.slots, ledger.slots, operations, operations.entries, domain
    ensures ledger.Valid() && operations.Valid() && domain.Valid()
    ensures Outcome(base, Snap(index, ledger, operations, domain), Request(reservation.process, reservation.wake, pin, key, deadline), r)
    ensures r == if second != expected then BeginMismatch(pin)
                 else if old(CanPublish(index, operations, key, reservation.wake)) then HookResult(hook, reservation.wake, pin)
                 else BeginFailed(pin)
  {
    hide BlockedOperationRegistry.Valid, BlockedOperationRegistry.View, BlockedOperationRegistry.Owns,
         BlockedOperationRegistry.Owned, AtomicWaitOperationRegistry.Valid, OneEntryMore, SameEntries, Restored, OneOfEach, Register;
    RegisterAdds(index.View(), key, reservation.wake);
    var registered := index.RegisterIfExpected(key, reservation.wake, expected, second);
    if registered.Success? && registered.value.Registered? {
      r := BeginRegistered(index, ledger, operations, domain, pin, reservation, registered.value.registration, deadline, hook, base);
      return;
    }
    SameIsSame(base.slots);
    Abandon(ledger, domain, reservation, Cancelled);
    Unwound(base, Snap(index, ledger, operations, domain), reservation, None);
    r := if registered.Success? then BeginMismatch(pin) else BeginFailed(pin);
  }

  lemma SameIsSame(slots: seq<Slot>)
    ensures SameEntries(slots, slots)
  {
  }

  /** Everything is as it was except one undecided ledger key that nobody owns. */
  ghost predicate KeyLeft(a: Snapshot, b: Snapshot, wake: BlockWakeKey) {
    wake !in a.winners && a.owned <= b.owned && b == a.(winners := a.winners[wake := None], owned := b.owned)
  }

  /** From a held block on: enter the ledger and arm the deadline. */
  method BeginPrepared(index: AtomicWaitRegistry, ledger: BlockedOperationRegistry, operations: AtomicWaitOperationRegistry,
                       domain: WaitDomain, process: nat, thread: Thread, wake: BlockWakeKey, pin: Pin, key: AtomicWaitKey,
                       expected: nat, second: nat, arming: Arming, hook: Hook, ghost base: Snapshot)
    returns (r: BeginResult)
    requires ledger.Valid() && operations.Valid() && domain.Valid()
    requires wake.thread == thread && wake.token < domain.nextToken
    requires BlockHeld(base, Snap(index, ledger, operations, domain), thread, wake)
    modifies index, index.slots, ledger.slots, operations, operations.entries, domain
    ensures ledger.Valid() && operations.Valid() && domain.Valid()
    ensures !old(Strands(ledger.slots[..], thread)) ==>
              Outcome(base, Snap(index, ledger, operations, domain), Request(process, wake, pin, key, arming == Finite), r)
    ensures old(Strands(ledger.slots[..], thread)) ==> r == BeginFailed(pin) && KeyLeft(base, Snap(index, ledger, operations, domain), wake)
    ensures r == if !old(Admits(ledger.slots[..], thread)) || arming == Arming.Refused then BeginFailed(pin)
                 else if arming == Expired then BeginTimedOut(pin)
                 else if second != expected then BeginMismatch(pin)
                 else if old(CanPublish(index, operations, key, wake)) then HookResult(hook, wake, pin)
                 else BeginFailed(pin)
  {
    hide BlockedOperationRegistry.Valid, BlockedOperationRegistry.View, BlockedOperationRegistry.Owns,
         BlockedOperationRegistry.Owned, AtomicWaitOperationRegistry.Valid, SameEntries, OneOfEach, Strands, Admits;
    SameIsSame(base.slots);
    StrandsOrAdmits(ledger.slots[..], thread);
    var reserved := ledger.Reserve(process, thread, wake);
    if reserved.Failure? {
      domain.pending := domain.pending - {thread};
      assert domain.pending == base.pending;
      return BeginFailed(pin);
    }
    if arming == Expired || arming == Arming.Refused {
      Abandon(ledger, domain, reserved.value, if arming == Expired then Timeout else Cancelled);
      Unwound(base, Snap(index, ledger, operations, domain), reserved.value, None);
      return if arming == Expired then BeginTimedOut(pin) else BeginFailed(pin);
    }
    if arming == Finite {
      domain.deadlines := domain.deadlines + {wake};
    }
    r := BeginArmed(index, ledger, operations, domain, pin, reserved.value, key, expected, second, arming == Finite, hook, base);
  }

  /**
   The whole wait transaction.  `first` and `second` are the two loads of the word,
   `mayBlock` and `arming` the answers of the scheduler and the deadline service, and
   `hook` what other parties do once the operation is published.  Suspended leaves
   exactly one index entry, ledger key, operation and blocked thread under one wake
   key; every other exit returns the pin and leaves every authority as it was, except
   exactly when the attempt reaches a ledger that strands it.
   */
  method BeginAtomicWait(index: AtomicWaitRegistry, ledger: BlockedOperationRegistry, operations: AtomicWaitOperationRegistry,
                         domain: WaitDomain, process: nat, thread: Thread, pin: Pin, key: AtomicWaitKey, expected: nat,
                         now: bool, first: nat, second: nat, mayBlock: bool, arming: Arming, hook: Hook)
    returns (r: BeginResult)
    requires ledger.Valid() && operations.Valid() && domain.Valid()
    modifies index, index.slots, ledger.slots, operations, operations.entries, domain
    ensures ledger.Valid() && operations.Valid() && domain.Valid()
    ensures var before, after, wake := old(Snap(index, ledger, operations, domain)), Snap(index, ledger, operations, domain),
                                       BlockWakeKey(old(domain.nextToken), thread);
            if first == expected && !now && mayBlock && thread !in before.pending && old(Strands(ledger.slots[..], thread))
            then r == BeginFailed(pin) && KeyLeft(before, after, wake)
            else Outcome(before, after, Request(process, wake, pin, key, arming == Finite), r)
    ensures old(AllSound(Snap(index, ledger, operations, domain))) ==> AllSound(Snap(index, ledger, operations, domain))
    ensures r.BeginSuspended? ==>
              && thread in operations.table && Sound(Snap(index, ledger, operations, domain), operations.table[thread])
              && var reg := operations.table[thread].operation.reg;
                 && reg.slot < index.slots.Length && index.slots[reg.slot].entry.Some?
                 && index.slots[reg.slot].entry.value.key == key
                 && index.slots[reg.slot].entry.value.wake == BlockWakeKey(old(domain.nextToken), thread)
    ensures r.BeginSuspended? ==> (BlockWakeKey(old(domain.nextToken), thread) in domain.deadlines <==> arming == Finite)
    ensures var wake := BlockWakeKey(old(domain.nextToken), thread);
            var enters := first == expected && !now && mayBlock && old(thread !in domain.pending && Admits(ledger.slots[..], thread));
            var armed := enters && arming in {Infinite, Finite};
            var published := armed && second == expected && old(CanPublish(index, operations, key, wake));
            && (r.BeginSuspended? <==> published && hook == Quiet)
            && (r.BeginReady? <==> published && hook == WokenUp)
            && (r.BeginTimedOut? <==> first == expected && (now || (enters && arming == Expired) || (published && hook == DeadlineFires)))
            && (r.BeginMismatch? <==> first != expected || (armed && second != expected))
  {
    hide BlockedOperationRegistry.Valid, BlockedOperationRegistry.View, BlockedOperationRegistry.Owned, AtomicWaitOperationRegistry.Valid,
         SameEntries, OneOfEach, CanPublish, Admits, Strands, Sound, AllSound;
    ghost var base := Snap(index, ledger, operations, domain);
    SameIsSame(base.slots);
    if first != expected {
      return BeginMismatch(pin);
    }
    if now {
      return BeginTimedOut(pin);
    }
    if !mayBlock || thread in domain.pending {
      return BeginFailed(pin);
    }
    var wake := BlockWakeKey(domain.nextToken, thread);
    domain.nextToken := domain.nextToken + 1;
    domain.pending := domain.pending[thread := wake];
    r := BeginPrepared(index, ledger, operations, domain, process, thread, wake, pin, key, expected, second, arming, hook, base);
    ghost var after := Snap(index, ledger, operations, domain);
    ghost var q := Request(process, wake, pin, key, arming == Finite);
    if AllSound(base) { BeginKeepsSound(base, after, q, r); }
    if r.BeginSuspended? { NewIsSound(base, after, q); }
  }

  // ----- Sound operations, and finishing one -----

  /** The slots with this registration withdrawn, if its own entry is still in them. */
  function Withdrawn(slots: seq<Slot>, reg: Registration): seq<Slot> {
    Cancel(Index(reg.domain, slots, 0), reg).0.slots
  }

  /**
   A suspended operation owns its ledger entry, under its own wake key, and its
   registration can be withdrawn from this index without an error.
   */
  ghost predicate Sound(s: Snapshot, held: Held) {
    && held.reservation in s.owned && held.operation.wake in s.winners
    && held.reservation.wake == held.operation.wake && held.operation.wake.thread == held.reservation.thread == held.thread
    && Cancel(Index(s.domain, s.slots, 0), held.operation.reg).1.Success?
  }

  ghost predicate AllSound(s: Snapshot) {
    forall t :: t in s.operations ==> s.operations[t].thread == t && Sound(s, s.operations[t])
  }

  /** Exactly what the operation held is given up: its ledger key, its deadline and its own entry if still live. */
  ghost predicate Ended(a: Snapshot, b: Snapshot, held: Held) {
    && held.thread in a.operations && a.operations[held.thread] == held && b.operations == a.operations - {held.thread}
    && b.winners == a.winners - {held.operation.wake} && b.deadlines == a.deadlines - {held.operation.wake}
    && b.owned == a.owned - iset{held.reservation} && b.pending == a.pending && b.blocked == a.blocked
    && b.domain == a.domain && b.slots == Withdrawn(a.slots, held.operation.reg)
  }

  /** Slots only move on: a generation that stays keeps its entry or loses it. */
  ghost predicate MovedOn(a: seq<Slot>, b: seq<Slot>) {
    && |a| == |b|
    && forall i :: 0 <= i < |a| ==>
         a[i].generation <= b[i].generation && (a[i].generation == b[i].generation ==> b[i].entry.None? || b[i] == a[i])
  }

  lemma StillWithdrawable(domain: nat, a: seq<Slot>, b: seq<Slot>, reg: Registration)
    requires MovedOn(a, b) && Cancel(Index(domain, a, 0), reg).1.Success?
    ensures Cancel(Index(domain, b, 0), reg).1.Success?
  {
  }

  lemma SnapshotsMoveOn(a: seq<Slot>, b: seq<Slot>, reg: Registration)
    ensures SameEntries(a, b) || OneEntryMore(a, b, reg) ==> MovedOn(a, b)
    ensures MovedOn(a, Withdrawn(a, reg))
  {
  }

  /** An operation stays sound as long as slots move on and nobody takes its reservation or its key. */
  lemma StaysSound(a: Snapshot, b: Snapshot, held: Held)
    requires Sound(a, held) && b.domain == a.domain && MovedOn(a.slots, b.slots)
    requires held.reservation in b.owned && held.operation.wake in b.winners
    ensures Sound(b, held)
  {
    hide Cancel, MovedOn;
    StillWithdrawable(a.domain, a.slots, b.slots, held.operation.reg);
  }

  /** Whatever way a begin ends, the operations already there stay sound, and a new one is sound. */
  lemma BeginKeepsSound(a: Snapshot, b: Snapshot, q: Request, r: BeginResult)
    requires AllSound(a) && (Outcome(a, b, q, r) || KeyLeft(a, b, q.wake))
    ensures AllSound(b)
  {
    hide Cancel, MovedOn, OneEntryMore, SameEntries, Sound;
    SameIsSame(a.slots);
    if q.wake.thread in b.operations {
      SnapshotsMoveOn(a.slots, b.slots, b.operations[q.wake.thread].operation.reg);
    } else {
      SnapshotsMoveOn(a.slots, b.slots, Registration(0, 0, 0, q.key, q.wake));
    }
    if Outcome(a, b, q, r) && r.BeginSuspended? { NewIsSound(a, b, q); }
    forall t | t in a.operations ensures a.operations[t].thread == t && Sound(b, a.operations[t]) {
      SoundHolds(a, a.operations[t]);
      StaysSound(a, b, a.operations[t]);
    }
  }

  lemma SoundHolds(s: Snapshot, held: Held)
    requires Sound(s, held)
    ensures held.reservation in s.owned && held.operation.wake in s.winners
  {
  }

  lemma NewIsSound(a: Snapshot, b: Snapshot, q: Request)
    requires OneOfEach(a, b, q)
    ensures q.wake.thread in b.operations && Sound(b, b.operations[q.wake.thread])
    ensures var reg := b.operations[q.wake.thread].operation.reg;
            && reg.slot < |b.slots| && b.slots[reg.slot].entry.Some?
            && b.slots[reg.slot].entry.value.key == q.key && b.slots[reg.slot].entry.value.wake == q.wake
    ensures q.wake in b.deadlines <==> q.deadline
  {
  }

  /** Finishing one operation leaves every other one sound. */
  lemma FinishKeepsSound(a: Snapshot, b: Snapshot, held: Held)
    requires AllSound(a) && Ended(a, b, held)
    ensures AllSound(b)
  {
    hide Cancel, MovedOn, Withdrawn;
    SnapshotsMoveOn(a.slots, b.slots, held.operation.reg);
    forall t | t in b.operations ensures b.operations[t].thread == t && Sound(b, b.operations[t]) {
      assert Sound(a, a.operations[t]) && Sound(a, held);
      StaysSound(a, b, a.operations[t]);
    }
  }

  /**
   A finish undoes a begin: once the operation has its winner, and whether or not the
   wake already took its entry, finishing it restores what was there before the begin.
   */
  lemma FinishUndoesBegin(a: Snapshot, b: Snapshot, c: Snapshot, d: Snapshot, q: Request, winner: Winner)
    requires OneOfEach(a, b, q)
    requires Undoable(a.slots, c.slots, b.operations[q.wake.thread].operation.reg)
    requires c == b.(slots := c.slots, winners := b.winners[q.wake := Some(winner)], blocked := b.blocked - {q.wake})
    requires Ended(c, d, b.operations[q.wake.thread])
    ensures Restored(a, d)
  {
    hide Cancel, Undoable, SameEntries, OneEntryMore;
    var reg := b.operations[q.wake.thread].operation.reg;
    CancelUndoes(a.slots, Index(a.domain, c.slots, 0), reg);
    assert d.winners == a.winners;
    assert d.owned == a.owned;
    assert d.operations == a.operations;
    assert d.blocked == a.blocked;
    assert d.deadlines == a.deadlines;
  }

  lemma CancelIgnoresSequence(ix: Index, reg: Registration)
    ensures Cancel(ix, reg).1 == Cancel(Index(ix.domain, ix.slots, 0), reg).1
    ensures Cancel(ix, reg).1.Success? ==> Cancel(ix, reg).0.slots == Withdrawn(ix.slots, reg)
  {
  }

  method CleanUp(index: AtomicWaitRegistry, ledger: BlockedOperationRegistry, operations: AtomicWaitOperationRegistry,
                 domain: WaitDomain, held: Held, winner: Winner, ghost base: Snapshot)
    requires ledger.Valid() && operations.Valid() && domain.Valid() && Sound(base, held)
    requires held.operation.wake in ledger.View() && ledger.View()[held.operation.wake] in {None, Some(winner)}
    requires held.thread in base.operations && base.operations[held.thread] == held
    requires Snap(index, ledger, operations, domain).(winners := base.winners) == base.(operations := base.operations - {held.thread})
    requires ledger.View() - {held.operation.wake} == base.winners - {held.operation.wake}
    modifies index.slots, ledger.slots, domain
    ensures ledger.Valid() && operations.Valid() && domain.Valid()
    ensures Ended(base, Snap(index, ledger, operations, domain), held)
  {
    hide BlockedOperationRegistry.Valid, BlockedOperationRegistry.View, BlockedOperationRegistry.Owns,
         BlockedOperationRegistry.Owned, AtomicWaitOperationRegistry.Valid, Cancel, Withdrawn;
    CancelIgnoresSequence(index.View(), held.operation.reg);
    OwnsIsOwned(ledger, held.reservation);
    var cancelled := index.CancelIfLive(held.operation.reg);
    var completed := ledger.CompleteWith(held.reservation, winner);
    domain.deadlines := domain.deadlines - {held.operation.wake};
  }

  /** A resumed waiter collects its pin and its winner. */
  method FinishAtomicWait(index: AtomicWaitRegistry, ledger: BlockedOperationRegistry, operations: AtomicWaitOperationRegistry,
                          domain: WaitDomain, wake: BlockWakeKey)
    returns (r: Result<(Pin, Winner), WaitError>)
    requires ledger.Valid() && operations.Valid() && domain.Valid()
    requires AllSound(Snap(index, ledger, operations, domain))
    requires wake in ledger.View() ==> ledger.View()[wake].Some?
    modifies index.slots, ledger.slots, operations, operations.entries, domain
    ensures ledger.Valid() && operations.Valid() && domain.Valid() && AllSound(Snap(index, ledger, operations, domain))
    ensures r.Failure? ==>
              && r.error == StaleRegistration
              && (forall t :: t in old(operations.table) ==> old(operations.table)[t].operation.wake != wake)
              && Snap(index, ledger, operations, domain) == old(Snap(index, ledger, operations, domain))
    ensures r.Success? ==>
              exists t :: t in old(operations.table)
                && var held := old(operations.table)[t];
                   && held.operation.wake == wake && r.value.0 == held.operation.pin
                   && wake in old(ledger.View()) && old(ledger.View())[wake] == Some(r.value.1)
                   && Ended(old(Snap(index, ledger, operations, domain)), Snap(index, ledger, operations, domain), held)
  {
    hide BlockedOperationRegistry.Valid, BlockedOperationRegistry.View, BlockedOperationRegistry.Owns,
         BlockedOperationRegistry.Owned, AtomicWaitOperationRegistry.Valid, Cancel, Ended;
    ghost var base := Snap(index, ledger, operations, domain);
    var taken := operations.TakeWake(wake);
    if taken.Failure? {
      return Failure(taken.error);
    }
    var winner := ledger.WinnerOf(wake);
    CleanUp(index, ledger, operations, domain, taken.value, winner.value.value, base);
    FinishKeepsSound(base, Snap(index, ledger, operations, domain), taken.value);
    assert old(operations.table)[taken.value.thread].operation.wake == wake;
    r := Success((taken.value.operation.pin, winner.value.value));
  }

  /** Thread death: the recorded winner stands, and an undecided wait is claimed as Terminal first. */
  method FinishTerminal(index: AtomicWaitRegistry, ledger: BlockedOperationRegistry, operations: AtomicWaitOperationRegistry,
                        domain: WaitDomain, thread: Thread)
    returns (r: Option<(Pin, Winner)>)
    requires ledger.Valid() && operations.Valid() && domain.Valid()
    requires AllSound(Snap(index, ledger, operations, domain))
    modifies index.slots, ledger.slots, operations, operations.entries, domain
    ensures ledger.Valid() && operations.Valid() && domain.Valid() && AllSound(Snap(index, ledger, operations, domain))
    ensures r.None? <==> thread !in old(operations.table)
    ensures r.None? ==> Snap(index, ledger, operations, domain) == old(Snap(index, ledger, operations, domain))
    ensures r.Some? ==>
              var held := old(operations.table)[thread];
              && r.value.0 == held.operation.pin && held.operation.wake in old(ledger.View())
              && r.value.1 == (match old(ledger.View())[held.operation.wake] case Some(winner) => winner case None => Terminal)
              && Ended(old(Snap(index, ledger, operations, domain)), Snap(index, ledger, operations, domain), held)
  {
    hide BlockedOperationRegistry.Valid, BlockedOperationRegistry.View, BlockedOperationRegistry.Owns,
         BlockedOperationRegistry.Owned, AtomicWaitOperationRegistry.Valid, Cancel, Ended;
    ghost var base := Snap(index, ledger, operations, domain);
    var taken := operations.TakeThread(thread);
    if taken.None? {
      return None;
    }
    var held := taken.value;
    var recorded := ledger.WinnerOf(held.operation.wake);
    var winner := Terminal;
    if recorded.value.Some? {
      winner := recorded.value.value;
    } else {
      var claimed := ledger.TryClaimWinner(held.operation.wake, Terminal);
    }
    CleanUp(index, ledger, operations, domain, held, winner, base);
    FinishKeepsSound(base, Snap(index, ledger, operations, domain), held);
    r := Some((held.operation.pin, winner));
  }
}
