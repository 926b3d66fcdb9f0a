/**
 The slot array refines one FIFO queue per wait key, and registration tokens stay
 exact across slot reuse (kernel/src/atomic_wait.rs:143-308).
 */
module AtomicWaitQueue {
  import opened Wrappers
  import opened BlockedLedger
  import opened AtomicWaitIndex

  ghost predicate Live(slots: seq<Slot>, e: Entry) {
    exists j :: 0 <= j < |slots| && slots[j].entry == Some(e)
  }

  /** No two live entries carry the same sequence number. */
  ghost predicate Sequenced(slots: seq<Slot>) {
    forall i, j :: 0 <= i < j < |slots| && slots[i].entry.Some? && slots[j].entry.Some? ==>
      slots[i].entry.value.sequence != slots[j].entry.value.sequence
  }

  ghost predicate DistinctWakes(slots: seq<Slot>) {
    forall i, j :: 0 <= i < j < |slots| && slots[i].entry.Some? && slots[j].entry.Some? ==>
      slots[i].entry.value.wake != slots[j].entry.value.wake
  }

  /** The index invariant: every live sequence was minted, once. */
  ghost predicate Wf(ix: Index) {
    && Sequenced(ix.slots)
    && forall j :: 0 <= j < |ix.slots| && ix.slots[j].entry.Some? ==> ix.slots[j].entry.value.sequence < ix.nextSequence
  }

  // ----- The queue -----

  /** Independent description: the live entries of the key, by increasing sequence. */
  ghost predicate IsQueue(slots: seq<Slot>, key: AtomicWaitKey, q: seq<Entry>) {
    && (forall i, j :: 0 <= i < j < |q| ==> q[i].sequence < q[j].sequence)
    && (forall e :: e in q <==> Live(slots, e) && e.key == key)
  }

  /** The queue that popping the oldest entry over and over produces. */
  function Queue(slots: seq<Slot>, key: AtomicWaitKey): seq<Entry>
    decreases LiveCount(slots)
  {
    match Oldest(slots, key)
    case None => []
    case Some(i) =>
      ClearingDropsOne(slots, i);
      [slots[i].entry.value] + Queue(Cleared(slots, i), key)
  }

  lemma ClearedLive(slots: seq<Slot>, i: nat, e: Entry)
    requires i < |slots| && slots[i].entry.Some? && Sequenced(slots)
    ensures Sequenced(Cleared(slots, i))
    ensures Live(Cleared(slots, i), e) <==> Live(slots, e) && e != slots[i].entry.value
  {
    if Live(slots, e) && e != slots[i].entry.value {
      var j :| 0 <= j < |slots| && slots[j].entry == Some(e);
      assert Cleared(slots, i)[j].entry == Some(e);
    }
    if Live(Cleared(slots, i), e) {
      var j :| 0 <= j < |slots| && Cleared(slots, i)[j].entry == Some(e);
      assert slots[j].entry == Some(e);
    }
  }

  lemma {:induction false} QueueIsQueue(slots: seq<Slot>, key: AtomicWaitKey)
    requires Sequenced(slots)
    ensures IsQueue(slots, key, Queue(slots, key))
    decreases LiveCount(slots)
  {
    match Oldest(slots, key)
    case None =>
    case Some(i) =>
      var first := slots[i].entry.value;
      var rest := Queue(Cleared(slots, i), key);
      ClearingDropsOne(slots, i);
      ClearedLive(slots, i, first);
      QueueIsQueue(Cleared(slots, i), key);
      forall e ensures e in [first] + rest <==> Live(slots, e) && e.key == key {
        ClearedLive(slots, i, e);
        if e == first { assert Live(slots, e); }
      }
      forall e | e in rest ensures first.sequence < e.sequence {
        ClearedLive(slots, i, e);
        var j :| 0 <= j < |slots| && slots[j].entry == Some(e);
        assert Matches(slots[j], key) && j != i;
      }
  }

  /** A queue is determined by its description. */
  lemma {:induction false} QueueUnique(p: seq<Entry>, q: seq<Entry>)
    requires forall i, j :: 0 <= i < j < |p| ==> p[i].sequence < p[j].sequence
    requires forall i, j :: 0 <= i < j < |q| ==> q[i].sequence < q[j].sequence
    requires forall e :: e in p <==> e in q
    ensures p == q
  {
    assert p != [] ==> p[0] in q;
    assert q != [] ==> q[0] in p;
    if p != [] {
      assert p[0] == q[0];
      forall e ensures e in p[1..] <==> e in q[1..] {
        assert e in p[1..] ==> e in p && e != p[0];
        assert e in q[1..] ==> e in q && e != q[0];
      }
      QueueUnique(p[1..], q[1..]);
    }
  }

  lemma QueueFrom(slots: seq<Slot>, key: AtomicWaitKey, q: seq<Entry>)
    requires Sequenced(slots) && IsQueue(slots, key, q)
    ensures Queue(slots, key) == q
  {
    QueueIsQueue(slots, key);
    QueueUnique(Queue(slots, key), q);
  }

  /** Filling an empty slot adds one live entry. */
  lemma FilledLive(slots: seq<Slot>, i: nat, slot: Slot, e: Entry)
    requires i < |slots| && slots[i].entry.None? && slot.entry.Some?
    ensures Live(slots[i := slot], e) <==> Live(slots, e) || e == slot.entry.value
  {
    var after := slots[i := slot];
    if Live(slots, e) {
      var j :| 0 <= j < |slots| && slots[j].entry == Some(e);
      assert after[j].entry == Some(e);
    }
    assert after[i].entry == slot.entry;
    if Live(after, e) {
      var j :| 0 <= j < |slots| && after[j].entry == Some(e);
      assert j != i ==> slots[j].entry == Some(e);
    }
  }

  /** Registration fills one empty slot with the newest sequence number. */
  lemma RegisterFills(ix: Index, key: AtomicWaitKey, wake: BlockWakeKey)
    requires Wf(ix) && Register(ix, key, wake).1.Success?
    ensures var after := Register(ix, key, wake).0;
            && Wf(after)
            && forall e :: Live(after.slots, e) <==> Live(ix.slots, e) || e == Entry(key, wake, ix.nextSequence)
  {
    var after := Register(ix, key, wake).0;
    var i := FirstOpen(ix.slots, 0).value;
    forall e ensures Live(after.slots, e) <==> Live(ix.slots, e) || e == Entry(key, wake, ix.nextSequence) {
      FilledLive(ix.slots, i, after.slots[i], e);
    }
  }

  lemma NewestIsLast(ix: Index, key: AtomicWaitKey)
    requires Wf(ix)
    ensures forall e :: e in Queue(ix.slots, key) ==> e.sequence < ix.nextSequence
  {
    QueueIsQueue(ix.slots, key);
    hide Queue;
    forall e | e in Queue(ix.slots, key) ensures e.sequence < ix.nextSequence {
      var j :| 0 <= j < |ix.slots| && ix.slots[j].entry == Some(e);
    }
  }

  /** Registration is enqueue at the tail of its own key, and touches no other key. */
  lemma RegisterEnqueues(ix: Index, key: AtomicWaitKey, wake: BlockWakeKey, other: AtomicWaitKey)
    requires Wf(ix) && Register(ix, key, wake).1.Success?
    ensures var after := Register(ix, key, wake).0;
            var entry := Entry(key, wake, ix.nextSequence);
            && Wf(after)
            && Queue(after.slots, key) == Queue(ix.slots, key) + [entry]
            && (other != key ==> Queue(after.slots, other) == Queue(ix.slots, other))
  {
    hide Register, FirstOpen, Queue, Live;
    var after := Register(ix, key, wake).0;
    RegisterFills(ix, key, wake);
    QueueIsQueue(ix.slots, key);
    QueueIsQueue(ix.slots, other);
    NewestIsLast(ix, key);
    QueueFrom(after.slots, key, Queue(ix.slots, key) + [Entry(key, wake, ix.nextSequence)]);
    if other != key { QueueFrom(after.slots, other, Queue(ix.slots, other)); }
  }

  /** A refused registration leaves every queue as it was. */
  lemma RegisterRefusalKeepsSlots(ix: Index, key: AtomicWaitKey, wake: BlockWakeKey)
    requires Wf(ix)
    ensures var r := Register(ix, key, wake);
            && Wf(r.0)
            && (r.1.Failure? ==> r.1.error == Capacity && r.0.slots == ix.slots)
            && (r.1.Failure? <==> (forall j :: 0 <= j < |ix.slots| ==> !Open(ix.slots[j]))
                                  || ix.nextSequence >= U64_MAX
                                  || (|ix.slots| > U16_MAX && forall j :: 0 <= j <= U16_MAX ==> !Open(ix.slots[j])))
  {
    if FirstOpen(ix.slots, 0).Some? && FirstOpen(ix.slots, 0).value <= U16_MAX {
      assert Open(ix.slots[FirstOpen(ix.slots, 0).value]);
    }
  }

  /** Taking position `at` out of a sorted queue keeps it sorted and drops only that element. */
  lemma RemoveAt(q: seq<Entry>, at: nat)
    requires at < |q| && forall i, j :: 0 <= i < j < |q| ==> q[i].sequence < q[j].sequence
    ensures var rest := q[..at] + q[at + 1..];
            && (forall i, j :: 0 <= i < j < |rest| ==> rest[i].sequence < rest[j].sequence)
            && (forall e :: e in rest <==> e in q && e != q[at])
  {
    var rest := q[..at] + q[at + 1..];
    assert forall k :: 0 <= k < |rest| ==> rest[k] == if k < at then q[k] else q[k + 1];
    forall e | e in q && e != q[at] ensures e in rest {
      var k :| 0 <= k < |q| && q[k] == e;
      assert rest[if k < at then k else k - 1] == e;
    }
  }

  /** Cancelling takes exactly one entry out of its queue, wherever it stands, and closes the gap. */
  lemma CancelDequeues(ix: Index, reg: Registration, other: AtomicWaitKey) returns (at: nat)
    requires Wf(ix) && Cancel(ix, reg).1 == Success(true)
    ensures var after := Cancel(ix, reg).0;
            var q := Queue(ix.slots, reg.key);
            && Wf(after)
            && at < |q| && q[at] == ix.slots[reg.slot].entry.value && q[at].wake == reg.wake
            && Queue(after.slots, reg.key) == q[..at] + q[at + 1..]
            && (other != reg.key ==> Queue(after.slots, other) == Queue(ix.slots, other))
  {
    var slots, after := ix.slots, Cleared(ix.slots, reg.slot);
    var gone := slots[reg.slot].entry.value;
    var q := Queue(slots, reg.key);
    QueueIsQueue(slots, reg.key);
    assert Live(slots, gone);
    at :| 0 <= at < |q| && q[at] == gone;
    forall e ensures Live(after, e) <==> Live(slots, e) && e != gone { ClearedLive(slots, reg.slot, e); }
    ClearedLive(slots, reg.slot, gone);
    RemoveAt(q, at);
    QueueFrom(after, reg.key, q[..at] + q[at + 1..]);
    if other != reg.key {
      QueueIsQueue(slots, other);
      QueueFrom(after, other, Queue(slots, other));
    }
  }

  // ----- What one claim does -----

  /** What a claim may do to one slot. */
  ghost predicate KeptOrTaken(before: Slot, after: Slot, key: AtomicWaitKey) {
    || after == before
    || (Matches(before, key) && after == Slot(before.generation, None))
  }

  /** The slot of this entry was emptied by the claim. */
  ghost predicate TakenAt(slots: seq<Slot>, after: seq<Slot>, key: AtomicWaitKey, wake: BlockWakeKey, j: nat)
    requires |slots| == |after|
  {
    j < |slots| && Matches(slots[j], key) && slots[j].entry.value.wake == wake && after[j].entry.None?
  }

  /** Slots of other keys are untouched; a taken entry was claimed or was no longer claimable. */
  ghost predicate SlotEffect(slots: seq<Slot>, winners: WinnerMap, key: AtomicWaitKey, c: Claimed) {
    && |c.slots| == |slots|
    && (forall j :: 0 <= j < |slots| ==> KeptOrTaken(slots[j], c.slots[j], key))
    && (forall j :: 0 <= j < |slots| && slots[j].entry.Some? && c.slots[j].entry.None? ==>
          slots[j].entry.value.wake in c.batch || !Claimable(winners, slots[j].entry.value.wake))
    && (forall w :: w in c.batch ==> exists j :: TakenAt(slots, c.slots, key, w, j))
    && |c.batch| + LiveCount(c.slots) <= LiveCount(slots)
  }

  /** Exactly the batch gets the `AtomicWake` winner, each member once, and each had none before. */
  ghost predicate WinnerEffect(winners: WinnerMap, c: Claimed) {
    && c.winners.Keys == winners.Keys
    && (forall w :: w in winners ==> c.winners[w] == if w in c.batch then Some(AtomicWake) else winners[w])
    && (forall w :: w in c.batch ==> Claimable(winners, w))
    && (forall i, j :: 0 <= i < j < |c.batch| ==> c.batch[i] != c.batch[j])
  }

  lemma {:induction false} ClaimHasSlotEffect(slots: seq<Slot>, winners: WinnerMap, key: AtomicWaitKey, limit: nat)
    ensures SlotEffect(slots, winners, key, Claim(slots, winners, key, limit))
    decreases LiveCount(slots)
  {
    if limit > 0 && Oldest(slots, key).Some? {
      var i := Oldest(slots, key).value;
      var wake := slots[i].entry.value.wake;
      var mid := Cleared(slots, i);
      ClearingDropsOne(slots, i);
      var winners' := if Claimable(winners, wake) then winners[wake := Some(AtomicWake)] else winners;
      var limit' := if Claimable(winners, wake) then limit - 1 else limit;
      var r := Claim(mid, winners', key, limit');
      ClaimHasSlotEffect(mid, winners', key, limit');
      SlotEffectGrows(slots, winners, winners', key, i, r);
    }
  }

  lemma SlotEffectGrows(slots: seq<Slot>, winners: WinnerMap, winners': WinnerMap, key: AtomicWaitKey, i: nat, r: Claimed)
    requires i < |slots| && Matches(slots[i], key)
    requires SlotEffect(Cleared(slots, i), winners', key, r)
    requires var wake := slots[i].entry.value.wake;
             winners' == if Claimable(winners, wake) then winners[wake := Some(AtomicWake)] else winners
    ensures var wake := slots[i].entry.value.wake;
            SlotEffect(slots, winners, key, if Claimable(winners, wake) then r.(batch := [wake] + r.batch) else r)
  {
    var wake := slots[i].entry.value.wake;
    var mid := Cleared(slots, i);
    var c := if Claimable(winners, wake) then r.(batch := [wake] + r.batch) else r;
    ClearingDropsOne(slots, i);
    assert KeptOrTaken(mid[i], r.slots[i], key);
    assert forall j :: 0 <= j < |slots| && j != i ==> mid[j] == slots[j];
    forall w | w in c.batch ensures exists j :: TakenAt(slots, c.slots, key, w, j) {
      if w in r.batch {
        var j :| TakenAt(mid, r.slots, key, w, j);
        assert TakenAt(slots, c.slots, key, w, j);
      } else {
        assert TakenAt(slots, c.slots, key, w, i);
      }
    }
  }

  lemma {:induction false} ClaimHasWinnerEffect(slots: seq<Slot>, winners: WinnerMap, key: AtomicWaitKey, limit: nat)
    ensures WinnerEffect(winners, Claim(slots, winners, key, limit))
    decreases LiveCount(slots)
  {
    if limit > 0 && Oldest(slots, key).Some? {
      var i := Oldest(slots, key).value;
      var wake := slots[i].entry.value.wake;
      var mid := Cleared(slots, i);
      ClearingDropsOne(slots, i);
      if Claimable(winners, wake) {
        var winners' := winners[wake := Some(AtomicWake)];
        var r := Claim(mid, winners', key, limit - 1);
        ClaimHasWinnerEffect(mid, winners', key, limit - 1);
        assert !Claimable(winners', wake);
        assert forall w :: w in [wake] + r.batch <==> w == wake || w in r.batch;
      } else {
        ClaimHasWinnerEffect(mid, winners, key, limit);
      }
    }
  }

  /** A claim that stops short of its limit has emptied the key. */
  lemma {:induction false} ClaimExhausts(slots: seq<Slot>, winners: WinnerMap, key: AtomicWaitKey, limit: nat)
    ensures var c := Claim(slots, winners, key, limit);
            && |c.batch| <= limit
            && (|c.batch| < limit ==> forall j :: 0 <= j < |c.slots| ==> !Matches(c.slots[j], key))
    decreases LiveCount(slots)
  {
    if limit > 0 && Oldest(slots, key).Some? {
      var i := Oldest(slots, key).value;
      var wake := slots[i].entry.value.wake;
      ClearingDropsOne(slots, i);
      if Claimable(winners, wake) {
        ClaimExhausts(Cleared(slots, i), winners[wake := Some(AtomicWake)], key, limit - 1);
      } else {
        ClaimExhausts(Cleared(slots, i), winners, key, limit);
      }
    }
  }

  /** A wake count at or above the capacity wakes everyone, like `WAKE_ALL`, and still fits the batch. */
  lemma ClaimNeverOverflows(slots: seq<Slot>, winners: WinnerMap, key: AtomicWaitKey, count: nat)
    ensures var c := Claim(slots, winners, key, Limit(count, |slots|));
            && |c.batch| <= |slots| == |c.slots|
            && (count == WAKE_ALL || count >= |slots| ==> forall j :: 0 <= j < |slots| ==> !Matches(c.slots[j], key))
  {
    var limit := Limit(count, |slots|);
    var c := Claim(slots, winners, key, limit);
    ClaimHasSlotEffect(slots, winners, key, limit);
    ClaimExhausts(slots, winners, key, limit);
    LiveCountBounded(slots);
    forall j | 0 <= j < |slots| && Matches(c.slots[j], key) ensures limit < |slots| {
      ClearingDropsOne(c.slots, j);
    }
  }

  // ----- FIFO -----

  /** Wakes of the queue that still have no winner, in registration order. */
  function Unclaimed(q: seq<Entry>, winners: WinnerMap): seq<BlockWakeKey> {
    if q == [] then []
    else if Claimable(winners, q[0].wake) then [q[0].wake] + Unclaimed(q[1..], winners)
    else Unclaimed(q[1..], winners)
  }

  lemma {:induction false} UnclaimedFrame(q: seq<Entry>, before: WinnerMap, after: WinnerMap)
    requires forall e :: e in q ==> (Claimable(before, e.wake) <==> Claimable(after, e.wake))
    ensures Unclaimed(q, before) == Unclaimed(q, after)
  {
    if q != [] {
      assert q[0] in q;
      UnclaimedFrame(q[1..], before, after);
    }
  }

  function FirstOf<T>(s: seq<T>, n: nat): seq<T> {
    if |s| <= n then s else s[..n]
  }

  /** Behind the oldest entry the queue names no one with the same wake. */
  lemma TailWakesDiffer(slots: seq<Slot>, key: AtomicWaitKey, i: nat)
    requires Sequenced(slots) && DistinctWakes(slots) && i < |slots| && slots[i].entry.Some?
    ensures Sequenced(Cleared(slots, i)) && DistinctWakes(Cleared(slots, i))
    ensures forall e :: e in Queue(Cleared(slots, i), key) ==> e.wake != slots[i].entry.value.wake
  {
    ClearedLive(slots, i, slots[i].entry.value);
    QueueIsQueue(Cleared(slots, i), key);
    forall e | e in Queue(Cleared(slots, i), key) ensures e.wake != slots[i].entry.value.wake {
      var j :| 0 <= j < |slots| && Cleared(slots, i)[j].entry == Some(e);
      assert slots[j].entry == Some(e) && j != i;
    }
  }

  /** How many entries a claim pops off the queue. */
  function Pops(q: seq<Entry>, winners: WinnerMap, limit: nat): (n: nat)
    ensures n <= |q|
  {
    if limit == 0 || q == [] then 0
    else 1 + Pops(q[1..], winners, if Claimable(winners, q[0].wake) then limit - 1 else limit)
  }

  lemma {:induction false} PopsFrame(q: seq<Entry>, before: WinnerMap, after: WinnerMap, limit: nat)
    requires forall e :: e in q ==> (Claimable(before, e.wake) <==> Claimable(after, e.wake))
    ensures Pops(q, before, limit) == Pops(q, after, limit)
  {
    if limit > 0 && q != [] {
      assert q[0] in q;
      PopsFrame(q[1..], before, after, if Claimable(before, q[0].wake) then limit - 1 else limit);
    }
  }

  /**
   What popping means: the popped prefix holds exactly the first `limit`
   unclaimed wakes and ends at the last of them, or is the whole queue.
   */
  lemma {:induction false} PopsReachLimit(q: seq<Entry>, winners: WinnerMap, limit: nat)
    ensures var n := Pops(q, winners, limit);
            && Unclaimed(q[..n], winners) == FirstOf(Unclaimed(q, winners), limit)
            && (|Unclaimed(q, winners)| < limit ==> n == |q|)
            && (0 < n && limit <= |Unclaimed(q, winners)| ==> Claimable(winners, q[n - 1].wake))
  {
    if limit > 0 && q != [] {
      var limit' := if Claimable(winners, q[0].wake) then limit - 1 else limit;
      var n := Pops(q[1..], winners, limit');
      PopsReachLimit(q[1..], winners, limit');
      assert q[..n + 1][1..] == q[1..][..n];
    }
  }

  /** One pop: the head goes, and is claimed exactly when it still has no winner. */
  lemma PopsHead(head: Entry, tail: seq<Entry>, winners: WinnerMap, limit: nat)
    requires limit > 0
    ensures var q := [head] + tail;
            var taken := Claimable(winners, head.wake);
            var n := Pops(tail, winners, if taken then limit - 1 else limit);
            && Pops(q, winners, limit) == n + 1
            && q[n + 1..] == tail[n..]
            && Unclaimed(q[..n + 1], winners) == (if taken then [head.wake] else []) + Unclaimed(tail[..n], winners)
  {
    var q := [head] + tail;
    assert q[1..] == tail;
    var n := Pops(q, winners, limit) - 1;
    assert q[..n + 1][1..] == tail[..n];
  }

  /** Popping slots by least sequence and popping the queue are the same thing. */
  lemma {:induction false} ClaimPopsQueue(slots: seq<Slot>, winners: WinnerMap, key: AtomicWaitKey, limit: nat)
    requires Sequenced(slots) && DistinctWakes(slots)
    ensures var c := Claim(slots, winners, key, limit);
            var q := Queue(slots, key);
            var n := Pops(q, winners, limit);
            Queue(c.slots, key) == q[n..] && c.batch == Unclaimed(q[..n], winners)
    decreases LiveCount(slots)
  {
    var q := Queue(slots, key);
    if limit > 0 && Oldest(slots, key).Some? {
      var i := Oldest(slots, key).value;
      var wake := slots[i].entry.value.wake;
      var mid := Cleared(slots, i);
      ClearingDropsOne(slots, i);
      TailWakesDiffer(slots, key, i);
      var tail := Queue(mid, key);
      assert q == [slots[i].entry.value] + tail;
      var winners' := if Claimable(winners, wake) then winners[wake := Some(AtomicWake)] else winners;
      var limit' := if Claimable(winners, wake) then limit - 1 else limit;
      ClaimPopsQueue(mid, winners', key, limit');
      PopsFrame(tail, winners, winners', limit');
      var n := Pops(tail, winners, limit');
      UnclaimedFrame(tail[..n], winners, winners');
      PopsHead(slots[i].entry.value, tail, winners, limit);
    }
  }

  /**
   `claim_wake` is a FIFO: it hands out the first `limit` waiters of the key that
   still have no winner, in registration order.  It drops the head of the queue up
   to the last one it claimed and nothing behind it, so the only entries it
   discards without a wake are already-won ones ahead of that point.
   */
  lemma ClaimIsFifo(slots: seq<Slot>, winners: WinnerMap, key: AtomicWaitKey, limit: nat) returns (popped: nat)
    requires Sequenced(slots) && DistinctWakes(slots)
    ensures var c := Claim(slots, winners, key, limit);
            var q := Queue(slots, key);
            && popped <= |q|
            && Queue(c.slots, key) == q[popped..]
            && c.batch == FirstOf(Unclaimed(q, winners), limit)
            && c.batch == Unclaimed(q[..popped], winners)
            && (|c.batch| < limit ==> popped == |q|)
            && (popped > 0 && |c.batch| == limit ==> Claimable(winners, q[popped - 1].wake))
  {
    popped := Pops(Queue(slots, key), winners, limit);
    ClaimPopsQueue(slots, winners, key, limit);
    PopsReachLimit(Queue(slots, key), winners, limit);
  }

  /** The batch is the first `count` of the waiting, or all of them: for the wake-all count, or if there are no more. */
  ghost predicate TakesFirst(batch: seq<BlockWakeKey>, waiting: seq<BlockWakeKey>, count: nat) {
    && batch <= waiting
    && (count == 0xffff_ffff || |waiting| <= count ==> batch == waiting)
    && (count != 0xffff_ffff && count < |waiting| ==> |batch| == count)
  }

  lemma {:induction false} QueueLength(slots: seq<Slot>, key: AtomicWaitKey)
    ensures |Queue(slots, key)| <= LiveCount(slots)
    decreases LiveCount(slots)
  {
    match Oldest(slots, key)
    case None =>
    case Some(i) =>
      ClearingDropsOne(slots, i);
      QueueLength(Cleared(slots, i), key);
  }

  lemma {:induction false} UnclaimedLength(q: seq<Entry>, winners: WinnerMap)
    ensures |Unclaimed(q, winners)| <= |q|
  {
    if q != [] { UnclaimedLength(q[1..], winners); }
  }

  /** What the count means: that many waiters without a winner, the longest waiting first, and everyone for the wake-all count. */
  lemma ClaimTakesFirst(slots: seq<Slot>, winners: WinnerMap, key: AtomicWaitKey, count: nat)
    ensures var batch := Claim(slots, winners, key, Limit(count, |slots|)).batch;
            && |batch| <= |slots| && (count != WAKE_ALL ==> |batch| <= count)
            && (Sequenced(slots) && DistinctWakes(slots) ==> TakesFirst(batch, Unclaimed(Queue(slots, key), winners), count))
  {
    hide Claim, Queue, Unclaimed;
    ClaimNeverOverflows(slots, winners, key, count);
    ClaimExhausts(slots, winners, key, Limit(count, |slots|));
    QueueLength(slots, key);
    LiveCountBounded(slots);
    UnclaimedLength(Queue(slots, key), winners);
    if Sequenced(slots) && DistinctWakes(slots) {
      var popped := ClaimIsFifo(slots, winners, key, Limit(count, |slots|));
    }
  }

  /** A claim on one key leaves the queue of every other key alone. */
  lemma ClaimKeepsOtherKeys(slots: seq<Slot>, winners: WinnerMap, key: AtomicWaitKey, limit: nat, other: AtomicWaitKey)
    requires Sequenced(slots) && other != key
    ensures Queue(Claim(slots, winners, key, limit).slots, other) == Queue(slots, other)
  {
    var c := Claim(slots, winners, key, limit);
    ClaimHasSlotEffect(slots, winners, key, limit);
    forall e: Entry | e.key == other ensures Live(c.slots, e) <==> Live(slots, e) {
      if Live(slots, e) {
        var j :| 0 <= j < |slots| && slots[j].entry == Some(e);
        assert KeptOrTaken(slots[j], c.slots[j], key);
        assert c.slots[j].entry == Some(e);
      }
      if Live(c.slots, e) {
        var j :| 0 <= j < |slots| && c.slots[j].entry == Some(e);
        assert KeptOrTaken(slots[j], c.slots[j], key);
      }
    }
    assert Sequenced(c.slots) by {
      assert forall j :: 0 <= j < |slots| ==> KeptOrTaken(slots[j], c.slots[j], key);
    }
    QueueIsQueue(slots, other);
    QueueFrom(c.slots, other, Queue(slots, other));
  }
}
