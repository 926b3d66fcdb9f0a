/**
 Bindings over whole runs of the interrupt source table
 (kernel/src/device/interrupt.rs:257-367).

 Generations are counted per slot.  Whether a binding can come back after its source
 was released therefore depends on the capacity, and exactly on it.
 */
module InterruptSlots {
  import opened Wrappers
  import opened InterruptPlatform

  /** A run of the table from its initial state: slot arrays joined by operations. */
  ghost predicate SlotRun(domain: nat, capacity: nat, arrays: seq<seq<SourceSlot>>, ops: seq<SlotOp>) {
    && |arrays| == |ops| + 1
    && arrays[0] == seq(capacity, _ => SourceSlot(0, None))
    && forall i :: 0 <= i < |ops| ==> arrays[i + 1] == AfterOp(domain, arrays[i], ops[i])
  }

  /** Operation `i` of the run reserves a source and is given this binding. */
  ghost predicate Issues(domain: nat, arrays: seq<seq<SourceSlot>>, ops: seq<SlotOp>, i: nat, b: Binding) {
    i < |ops| && i < |arrays| && ops[i].ReserveOp? && ReserveAnswer(domain, arrays[i], ops[i].source) == Success(b)
  }

  /** Two reservations of the run are given the same binding. */
  ghost predicate Recurs(domain: nat, arrays: seq<seq<SourceSlot>>, ops: seq<SlotOp>, i: nat, j: nat) {
    i < j && exists b :: Issues(domain, arrays, ops, i, b) && Issues(domain, arrays, ops, j, b)
  }

  // ----- Two slots or more -----

  /** Reserve, give up, let another source take the first slot, and reserve again. */
  function RecurringOps(domain: nat): seq<SlotOp> {
    [ReserveOp(5), CancelOp(Binding(domain, 5, 1)), ReserveOp(6), ReserveOp(5)]
  }

  function Fresh(n: nat): (slots: seq<SourceSlot>)
    ensures |slots| == n && forall i :: 0 <= i < n ==> slots[i] == SourceSlot(0, None)
  {
    seq(n, _ => SourceSlot(0, None))
  }

  /** The first reservation takes the first slot. */
  lemma FirstReserve(domain: nat, slots: seq<SourceSlot>, source: nat)
    requires |slots| > 0 && OpenSlot(slots[0]) && !ReservedSource(source)
    requires forall i :: 0 <= i < |slots| ==> slots[i].record.None?
    ensures ReserveAnswer(domain, slots, source) == Success(Binding(domain, source, slots[0].generation + 1))
    ensures var g := slots[0].generation + 1;
            AfterOp(domain, slots, ReserveOp(source)) == slots[0 := SourceSlot(g, Some(SourceRecord(source, g, SrcReserved)))]
  {
    assert FirstOpen(slots, 0) == Some(0);
  }

  /** With the first slot taken by another source, the second is used. */
  lemma SecondReserve(domain: nat, slots: seq<SourceSlot>, source: nat)
    requires |slots| > 1 && slots[0].record.Some? && slots[0].record.value.source != source && OpenSlot(slots[1]) && !ReservedSource(source)
    requires forall i :: 1 <= i < |slots| ==> slots[i].record.None?
    ensures ReserveAnswer(domain, slots, source) == Success(Binding(domain, source, slots[1].generation + 1))
    ensures var g := slots[1].generation + 1;
            AfterOp(domain, slots, ReserveOp(source)) == slots[1 := SourceSlot(g, Some(SourceRecord(source, g, SrcReserved)))]
  {
    assert FirstOpen(slots, 1) == Some(1);
    assert FirstOpen(slots, 0) == Some(1);
  }

  lemma CancelFirst(domain: nat, slots: seq<SourceSlot>, source: nat, g: nat)
    requires |slots| > 0 && slots[0] == SourceSlot(g, Some(SourceRecord(source, g, SrcReserved)))
    ensures AfterOp(domain, slots, CancelOp(Binding(domain, source, g))) == slots[0 := SourceSlot(g, None)]
  {
    assert FirstHolding(slots, Binding(domain, source, g), 0) == Some(0);
  }

  /** For every capacity of at least two a run gives the same binding twice. */
  lemma BindingRecurs(domain: nat, capacity: nat) returns (arrays: seq<seq<SourceSlot>>, ops: seq<SlotOp>)
    requires capacity >= 2
    ensures SlotRun(domain, capacity, arrays, ops) && Recurs(domain, arrays, ops, 0, 3)
  {
    hide AfterOp, ReserveAnswer;
    ops := RecurringOps(domain);
    var a0 := Fresh(capacity);
    var a1 := AfterOp(domain, a0, ops[0]);
    FirstReserve(domain, a0, 5);
    var a2 := AfterOp(domain, a1, ops[1]);
    CancelFirst(domain, a1, 5, 1);
    var a3 := AfterOp(domain, a2, ops[2]);
    FirstReserve(domain, a2, 6);
    var a4 := AfterOp(domain, a3, ops[3]);
    SecondReserve(domain, a3, 5);
    arrays := [a0, a1, a2, a3, a4];
    assert Issues(domain, arrays, ops, 0, Binding(domain, 5, 1)) && Issues(domain, arrays, ops, 3, Binding(domain, 5, 1));
  }

  // ----- What a recurring binding lets through -----

  /** A table of this capacity with only its first two slots used. */
  function Two(capacity: nat, x: SourceSlot, y: SourceSlot): (slots: seq<SourceSlot>)
    requires capacity >= 2
    ensures |slots| == capacity && slots[0] == x && slots[1] == y && forall i :: 2 <= i < capacity ==> slots[i] == SourceSlot(0, None)
  {
    [x, y] + Fresh(capacity - 2)
  }

  /** The operation finds the record of `b` in slot 0 or 1, in one of these states. */
  lemma FoundInTwo(domain: nat, capacity: nat, x: SourceSlot, y: SourceSlot, b: Binding, states: set<SourceState>, i: nat)
    requires capacity >= 2 && b.domain == domain && i < 2
    requires var slots := Two(capacity, x, y);
             HoldsBinding(slots[i], b) && slots[i].record.value.state in states && (i == 1 ==> !HoldsBinding(slots[0], b))
    ensures FindIn(domain, Two(capacity, x, y), b, states) == Some(i)
  {
    var slots := Two(capacity, x, y);
    if i == 1 { assert FirstHolding(slots, b, 1) == Some(1); }
    assert FirstHolding(slots, b, 0) == Some(i);
  }

  /**
   For every capacity of at least two: a source is reserved, committed, masked and
   released; its slot goes to another source; it is reserved and committed again; and a
   delivery made out to the first binding is accepted by the second.
   */
  lemma StaleDeliveryMatches(domain: nat, capacity: nat) returns (arrays: seq<seq<SourceSlot>>, ops: seq<SlotOp>)
    requires capacity >= 2
    ensures SlotRun(domain, capacity, arrays, ops) && |ops| == 8 && Recurs(domain, arrays, ops, 0, 5)
    ensures Issues(domain, arrays, ops, 0, Binding(domain, 5, 1)) && Issues(domain, arrays, ops, 5, Binding(domain, 5, 1))
    ensures ops[3] == ReleaseOp(Binding(domain, 5, 1)) && forall slot :: slot in arrays[4] ==> slot.record.None?
    ensures ops[7] == DeliverOp(Binding(domain, 5, 1)) && |arrays[7]| == |arrays[8]| == capacity
    ensures arrays[7][1].record == Some(SourceRecord(5, 1, SrcArmed)) && arrays[8][1].record == Some(SourceRecord(5, 1, SrcMasked))
  {
    hide AfterOp, ReserveAnswer, FindIn;
    var b, none := Binding(domain, 5, 1), SourceSlot(0, None);
    ops := [ReserveOp(5), CommitOp(b), MaskOp(b), ReleaseOp(b), ReserveOp(6), ReserveOp(5), CommitOp(b), DeliverOp(b)];
    var a0 := Fresh(capacity);
    var a1 := Two(capacity, At(5, 1, SrcReserved), none);
    FirstReserve(domain, a0, 5);
    assert a1 == a0[0 := At(5, 1, SrcReserved)];
    var a2, a3, a4 := Two(capacity, At(5, 1, SrcArmed), none), Two(capacity, At(5, 1, SrcMasked), none), Two(capacity, SourceSlot(1, None), none);
    LifeInFirst(domain, capacity, b);
    var a5 := Two(capacity, At(6, 2, SrcReserved), none);
    FirstReserve(domain, a4, 6);
    assert a5 == a4[0 := At(6, 2, SrcReserved)];
    var a6, a7, a8 := Two(capacity, At(6, 2, SrcReserved), At(5, 1, SrcReserved)), Two(capacity, At(6, 2, SrcReserved), At(5, 1, SrcArmed)),
                      Two(capacity, At(6, 2, SrcReserved), At(5, 1, SrcMasked));
    SecondReserve(domain, a5, 5);
    assert a6 == a5[1 := At(5, 1, SrcReserved)];
    LifeInSecond(domain, capacity, b);
    arrays := [a0, a1, a2, a3, a4, a5, a6, a7, a8];
    assert Issues(domain, arrays, ops, 0, b) && Issues(domain, arrays, ops, 5, b);
  }

  function At(source: nat, generation: nat, state: SourceState): SourceSlot {
    SourceSlot(generation, Some(SourceRecord(source, generation, state)))
  }

  lemma LifeInFirst(domain: nat, capacity: nat, b: Binding)
    requires capacity >= 2 && b == Binding(domain, 5, 1)
    ensures var none := SourceSlot(0, None);
            && AfterOp(domain, Two(capacity, At(5, 1, SrcReserved), none), CommitOp(b)) == Two(capacity, At(5, 1, SrcArmed), none)
            && AfterOp(domain, Two(capacity, At(5, 1, SrcArmed), none), MaskOp(b)) == Two(capacity, At(5, 1, SrcMasked), none)
            && AfterOp(domain, Two(capacity, At(5, 1, SrcMasked), none), ReleaseOp(b)) == Two(capacity, SourceSlot(1, None), none)
  {
    hide FindIn;
    var none := SourceSlot(0, None);
    FoundInTwo(domain, capacity, At(5, 1, SrcReserved), none, b, {SrcReserved}, 0);
    FoundInTwo(domain, capacity, At(5, 1, SrcArmed), none, b, {SrcArmed, SrcMasked}, 0);
    FoundInTwo(domain, capacity, At(5, 1, SrcMasked), none, b, {SrcMasked}, 0);
  }

  lemma LifeInSecond(domain: nat, capacity: nat, b: Binding)
    requires capacity >= 2 && b == Binding(domain, 5, 1)
    ensures var other := At(6, 2, SrcReserved);
            && AfterOp(domain, Two(capacity, other, At(5, 1, SrcReserved)), CommitOp(b)) == Two(capacity, other, At(5, 1, SrcArmed))
            && AfterOp(domain, Two(capacity, other, At(5, 1, SrcArmed)), DeliverOp(b)) == Two(capacity, other, At(5, 1, SrcMasked))
  {
    hide FindIn;
    var other := At(6, 2, SrcReserved);
    FoundInTwo(domain, capacity, other, At(5, 1, SrcReserved), b, {SrcReserved}, 1);
    FoundInTwo(domain, capacity, other, At(5, 1, SrcArmed), b, {SrcArmed, SrcMasked}, 1);
  }

  // ----- One slot or none -----

  lemma OpKeepsOneSlot(domain: nat, slots: seq<SourceSlot>, op: SlotOp)
    requires |slots| <= 1
    ensures var after := AfterOp(domain, slots, op);
            && |after| == |slots|
            && (|slots| == 1 ==> slots[0].generation <= after[0].generation)
            && (op.ReserveOp? && ReserveAnswer(domain, slots, op.source).Success? ==>
                  |slots| == 1 && after[0].generation == slots[0].generation + 1
                  && ReserveAnswer(domain, slots, op.source).value.generation == after[0].generation)
  {
  }

  /** With one slot its generation only grows, and it is the generation of every binding issued so far or later. */
  lemma {:induction false} OneSlotGrows(domain: nat, capacity: nat, arrays: seq<seq<SourceSlot>>, ops: seq<SlotOp>, i: nat, j: nat)
    requires SlotRun(domain, capacity, arrays, ops) && capacity <= 1 && i <= j <= |ops|
    ensures |arrays[i]| == |arrays[j]| == capacity
    ensures capacity == 1 ==> arrays[i][0].generation <= arrays[j][0].generation
    decreases j
  {
    hide AfterOp;
    if i < j {
      OneSlotGrows(domain, capacity, arrays, ops, i, j - 1);
      assert arrays[j - 1 + 1] == AfterOp(domain, arrays[j - 1], ops[j - 1]);
      OpKeepsOneSlot(domain, arrays[j - 1], ops[j - 1]);
    } else if j > 0 {
      OneSlotGrows(domain, capacity, arrays, ops, i - 1, j - 1);
      assert arrays[j - 1 + 1] == AfterOp(domain, arrays[j - 1], ops[j - 1]);
      OpKeepsOneSlot(domain, arrays[j - 1], ops[j - 1]);
    }
  }

  /** With at most one slot no run ever gives a binding twice. */
  lemma OneSlotNeverRecurs(domain: nat, capacity: nat, arrays: seq<seq<SourceSlot>>, ops: seq<SlotOp>, i: nat, j: nat)
    requires SlotRun(domain, capacity, arrays, ops) && capacity <= 1
    ensures !Recurs(domain, arrays, ops, i, j)
  {
    hide AfterOp, ReserveAnswer;
    if i < j < |ops| {
      OneSlotGrows(domain, capacity, arrays, ops, i, i);
      OneSlotGrows(domain, capacity, arrays, ops, i + 1, j);
      assert arrays[i + 1] == AfterOp(domain, arrays[i], ops[i]);
      OpKeepsOneSlot(domain, arrays[i], ops[i]);
      OpKeepsOneSlot(domain, arrays[j], ops[j]);
    }
  }

  /** A binding can come back exactly when the table has at least two slots. */
  lemma RecurrenceNeedsTwoSlots(domain: nat, capacity: nat)
    ensures (exists arrays, ops, i, j :: SlotRun(domain, capacity, arrays, ops) && Recurs(domain, arrays, ops, i, j)) <==> capacity >= 2
  {
    hide SlotRun, Recurs;
    if capacity >= 2 {
      var arrays, ops := BindingRecurs(domain, capacity);
    } else {
      forall arrays, ops, i: nat, j: nat | SlotRun(domain, capacity, arrays, ops) ensures !Recurs(domain, arrays, ops, i, j) {
        OneSlotNeverRecurs(domain, capacity, arrays, ops, i, j);
      }
    }
  }
}
