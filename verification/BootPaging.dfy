/**
 The paging carrier: its frame list, the roles its frames must avoid, and the memory
 record that must own each of them (kernel/src/boot/validation.rs:165-402).
 */
module BootPaging {
  import opened Wrappers
  import opened LittleEndian
  import opened BootMemory
  import opened Pages
  import opened BootRecords

  const HANDOFF_SIZE: nat := 112
  const HANDOFF_MAX: nat := 2160
  const FRAME_STRIDE: nat := 8
  const MIN_FRAMES: nat := 4
  const MAX_FRAMES: nat := 256
  const TEMPORARY_ADDRESS: nat := 18446742974197923840
  const PML4_INDEX: nat := 510

  datatype Paging = Paging(width: nat, required: seq<nat>, frames: seq<nat>)

  /** Every power of two from 4096 on is a whole number of pages. */
  lemma {:induction false} LimitIsAligned(width: nat)
    requires width >= 12
    ensures Pow2(width) % PAGE_SIZE == 0
  {
    if width == 12 {
      assert Pow2(6) == 64;
      assert Pow2(12) == 4096;
    } else {
      LimitIsAligned(width - 1);
    }
  }

  predicate FrameOk(frame: nat, limit: nat) { frame != 0 && frame % PAGE_SIZE == 0 && frame < limit }

  function FrameRange(frame: nat): Range { Range(frame, PAGE_SIZE) }

  ghost predicate Ascending(frames: seq<nat>) {
    forall i, j :: 0 <= i < j < |frames| ==> frames[i] < frames[j]
  }

  ghost predicate FramesOk(frames: seq<nat>, limit: nat) {
    Ascending(frames) && forall i :: 0 <= i < |frames| ==> FrameOk(frames[i], limit)
  }

  ghost predicate RequiredOk(required: seq<nat>, frames: seq<nat>, limit: nat) {
    && (forall i :: 0 <= i < |required| ==> FrameOk(required[i], limit) && required[i] in frames)
    && (forall i, j :: 0 <= i < j < |required| ==> required[i] != required[j])
  }

  // ----- The header -----

  /** All fixed fields of the carrier header. */
  predicate HeaderOk(b: seq<Byte>)
    requires |b| >= HANDOFF_SIZE
  {
    && U32At(b, 0) == HANDOFF_SIZE && U32At(b, 4) == 1 && U32At(b, 8) == 0 && U32At(b, 44) == 0
    && U64At(b, 88) == 0 && U64At(b, 96) == 0 && U64At(b, 104) == 0
    && U32At(b, 40) == 2 && U64At(b, 48) == TEMPORARY_ADDRESS
    && U16At(b, 56) == PML4_INDEX && U16At(b, 58) == 0 && U16At(b, 60) == 0 && U16At(b, 62) == 0
    && 12 <= U32At(b, 12) <= 52
    && U32At(b, 24) == HANDOFF_SIZE && U32At(b, 32) == FRAME_STRIDE && MIN_FRAMES <= U32At(b, 28) <= MAX_FRAMES
    && U32At(b, 36) == HANDOFF_SIZE + U32At(b, 28) * FRAME_STRIDE == |b|
  }

  /** The header checks, in the order the parser makes them. */
  method CheckHeader(b: seq<Byte>) returns (ok: bool)
    requires |b| >= HANDOFF_SIZE
    ensures ok <==> HeaderOk(b)
  {
    if U32At(b, 0) != HANDOFF_SIZE || U32At(b, 4) != 1 || U32At(b, 8) != 0 || U32At(b, 44) != 0 {
      return false;
    }
    if U64At(b, 88) != 0 || U64At(b, 96) != 0 || U64At(b, 104) != 0 {
      return false;
    }
    if U32At(b, 40) != 2 || U64At(b, 48) != TEMPORARY_ADDRESS {
      return false;
    }
    if U16At(b, 56) != PML4_INDEX || U16At(b, 58) != 0 || U16At(b, 60) != 0 || U16At(b, 62) != 0 {
      return false;
    }
    if U32At(b, 12) < 12 || U32At(b, 12) > 52 {
      return false;
    }
    if U32At(b, 24) != HANDOFF_SIZE || U32At(b, 32) != FRAME_STRIDE || U32At(b, 28) < MIN_FRAMES || U32At(b, 28) > MAX_FRAMES {
      return false;
    }
    var exact := U32At(b, 24) + U32At(b, 28) * U32At(b, 32);
    ok := U32At(b, 36) == exact && |b| == exact;
  }

  function FrameCount(b: seq<Byte>): nat
    requires |b| >= HANDOFF_SIZE
  {
    U32At(b, 28)
  }

  function FrameAt(b: seq<Byte>, i: nat): nat
    requires |b| >= HANDOFF_SIZE && HeaderOk(b) && i < FrameCount(b)
  {
    U64At(b, HANDOFF_SIZE + i * FRAME_STRIDE)
  }

  function Limit(b: seq<Byte>): nat
    requires |b| >= HANDOFF_SIZE
  {
    Pow2(U32At(b, 12))
  }

  function Required(b: seq<Byte>): seq<nat>
    requires |b| >= HANDOFF_SIZE
  {
    [U64At(b, 16), U64At(b, 64), U64At(b, 72), U64At(b, 80)]
  }

  method ReadFrames(b: seq<Byte>) returns (frames: seq<nat>)
    requires |b| >= HANDOFF_SIZE && HeaderOk(b)
    ensures |frames| == FrameCount(b) && forall i :: 0 <= i < |frames| ==> frames[i] == FrameAt(b, i)
  {
    frames := [];
    var i := 0;
    while i < FrameCount(b)
      invariant i == |frames| <= FrameCount(b)
      invariant forall j :: 0 <= j < i ==> frames[j] == FrameAt(b, j)
    {
      frames := frames + [U64At(b, HANDOFF_SIZE + i * FRAME_STRIDE)];
      i := i + 1;
    }
  }

  /** Comparing neighbours orders the whole list. */
  lemma {:induction false} NeighboursAscend(frames: seq<nat>, i: nat, j: nat)
    requires forall k :: 0 <= k < |frames| - 1 ==> frames[k] < frames[k + 1]
    requires i < j < |frames|
    ensures frames[i] < frames[j]
    decreases j - i
  {
    if i + 1 < j {
      NeighboursAscend(frames, i, j - 1);
      assert frames[j - 1] < frames[j - 1 + 1];
    }
  }

  /** The neighbour test and the per-frame tests decide the list. */
  method CheckFrames(frames: seq<nat>, limit: nat) returns (ok: bool)
    ensures ok <==> FramesOk(frames, limit)
  {
    var i := 0;
    while i + 1 < |frames|
      invariant i <= |frames| && (|frames| > 0 ==> i < |frames|)
      invariant forall k :: 0 <= k < i ==> frames[k] < frames[k + 1]
    {
      if frames[i] >= frames[i + 1] {
        assert !Ascending(frames);
        return false;
      }
      i := i + 1;
    }
    assert Ascending(frames) by {
      forall a, c | 0 <= a < c < |frames| ensures frames[a] < frames[c] { NeighboursAscend(frames, a, c); }
    }
    i := 0;
    while i < |frames|
      invariant i <= |frames| && forall k :: 0 <= k < i ==> FrameOk(frames[k], limit)
    {
      if !FrameOk(frames[i], limit) {
        return false;
      }
      i := i + 1;
    }
    ok := true;
  }

  method CheckRequired(required: seq<nat>, frames: seq<nat>, limit: nat) returns (ok: bool)
    ensures ok <==> RequiredOk(required, frames, limit)
  {
    var i := 0;
    while i < |required|
      invariant i <= |required|
      invariant forall k :: 0 <= k < i ==> FrameOk(required[k], limit) && required[k] in frames
      invariant forall k, l :: 0 <= k < l < i ==> required[k] != required[l]
    {
      if !FrameOk(required[i], limit) || required[i] in required[..i] || required[i] !in frames {
        return false;
      }
      i := i + 1;
    }
    ok := true;
  }

  /** The carrier in memory is well formed and says exactly this. */
  ghost predicate CarrierIs(memory: Memory, m: Module, p: Paging) {
    && m.flags == FLAG_READ_ONLY && HANDOFF_SIZE <= m.length <= HANDOFF_MAX
    && ReadExact(memory, m.start, m.length).Some?
    && BytesSay(ReadExact(memory, m.start, m.length).value, p)
  }

  ghost predicate BytesSay(b: seq<Byte>, p: Paging) {
    && |b| >= HANDOFF_SIZE && HeaderOk(b)
    && p.width == U32At(b, 12) && p.required == Required(b) && |p.frames| == FrameCount(b)
    && (forall i :: 0 <= i < |p.frames| ==> p.frames[i] == FrameAt(b, i))
    && FramesOk(p.frames, Limit(b)) && RequiredOk(p.required, p.frames, Limit(b))
  }

  /** Parses the carrier; it accepts exactly the well-formed ones. */
  method ParsePagingHandoff(memory: Memory, m: Module) returns (r: Result<Paging, BootError>)
    ensures r.Success? ==> CarrierIs(memory, m, r.value)
    ensures r.Failure? ==> forall p :: !CarrierIs(memory, m, p)
    ensures r.Failure? ==> r.error in {ReadFailed, InvalidPagingHandoff}
    ensures r == Failure(ReadFailed) ==> ReadExact(memory, m.start, m.length).None?
  {
    hide ReadExact, HeaderOk, FramesOk, RequiredOk, FrameAt, FrameCount, Limit, Required;
    if m.flags != FLAG_READ_ONLY || m.length < HANDOFF_SIZE || m.length > HANDOFF_MAX {
      return Failure(InvalidPagingHandoff);
    }
    var read := ReadExact(memory, m.start, m.length);
    if read.None? {
      return Failure(ReadFailed);
    }
    var b := read.value;
    var ok := CheckHeader(b);
    if !ok {
      return Failure(InvalidPagingHandoff);
    }
    var frames := ReadFrames(b);
    forall p | BytesSay(b, p) ensures p.frames == frames { SameFrames(b, p, frames); }
    ok := CheckFrames(frames, Limit(b));
    if !ok {
      return Failure(InvalidPagingHandoff);
    }
    ok := CheckRequired(Required(b), frames, Limit(b));
    if !ok {
      return Failure(InvalidPagingHandoff);
    }
    r := Success(Paging(U32At(b, 12), Required(b), frames));
  }

  lemma SameFrames(b: seq<Byte>, p: Paging, frames: seq<nat>)
    requires BytesSay(b, p) && |frames| == FrameCount(b) && forall i :: 0 <= i < |frames| ==> frames[i] == FrameAt(b, i)
    ensures p.frames == frames
  {
    hide HeaderOk, FrameAt, FrameCount, FramesOk, RequiredOk;
  }

  // ----- Reservation -----

  predicate Meets(m: MemoryRecord, frame: Range) { !Clear(frame, MemoryRange(m)) }

  /** The record is RESERVED and holds the whole frame. */
  predicate Owns(m: MemoryRecord, frame: Range) {
    && m.kind == KIND_RESERVED_MEMORY && MemoryRange(m).start <= frame.start
    && frame.start + frame.length <= MemoryRange(m).start + MemoryRange(m).length
  }

  /** Record `k` owns the frame and no other record meets it. */
  ghost predicate OnlyOwner(records: seq<MemoryRecord>, frame: Range, k: nat) {
    && k < |records| && Owns(records[k], frame) && Meets(records[k], frame)
    && forall j :: 0 <= j < |records| && j != k ==> !Meets(records[j], frame)
  }

  ghost predicate Covered(records: seq<MemoryRecord>, frame: Range) {
    exists k :: OnlyOwner(records, frame, k)
  }

  ghost predicate RecordsFit(records: seq<MemoryRecord>) {
    forall i :: 0 <= i < |records| ==> FitsU64(MemoryRange(records[i]))
  }

  /**
   Counts the records that meet the frame.  With every range addressable it passes
   exactly when one record does and that one owns the frame.
   */
  method CheckCoverage(records: seq<MemoryRecord>, frame: Range) returns (r: Result<(), BootError>)
    ensures r.Success? <==> FitsU64(frame) && RecordsFit(records) && Covered(records, frame)
    ensures r.Failure? && FitsU64(frame) && RecordsFit(records) ==> r.error == FrameNotReserved
  {
    hide FitsU64, Clear;
    if !FitsU64(frame) {
      return Failure(Overflow);
    }
    var covering := 0;
    ghost var first, second := 0, 0;
    var i := 0;
    while i < |records|
      invariant i <= |records| && forall j :: 0 <= j < i ==> FitsU64(MemoryRange(records[j]))
      invariant covering == 0 ==> forall j :: 0 <= j < i ==> !Meets(records[j], frame)
      invariant covering == 1 ==> first < i && Meets(records[first], frame) && Owns(records[first], frame)
      invariant covering == 1 ==> forall j :: 0 <= j < i && j != first ==> !Meets(records[j], frame)
      invariant covering >= 2 ==> first < second < i && Meets(records[first], frame) && Meets(records[second], frame)
    {
      if !FitsU64(MemoryRange(records[i])) {
        return Failure(Overflow);
      }
      if Meets(records[i], frame) {
        if !Owns(records[i], frame) {
          return Failure(FrameNotReserved);
        }
        if covering == 0 {
          first := i;
        } else if covering == 1 {
          second := i;
        }
        covering := covering + 1;
      }
      i := i + 1;
    }
    if covering != 1 {
      return Failure(FrameNotReserved);
    }
    assert OnlyOwner(records, frame, first);
    r := Success(());
  }

  // ----- Roles -----

  /** Everything else the handoff describes. */
  datatype Roles = Roles(
    bootInfo: Range,
    memoryMap: Table,
    modules: Table,
    commandLine: Option<Range>,
    entropy: Option<Range>,
    framebuffer: Option<Range>,
    rsdp: nat)

  /** The longest extent an RSDP at this address may have: one base page (section 5.2.5.3 of the ACPI specification). */
  function RsdpRange(address: nat): Range { Range(address, PAGE_SIZE) }

  predicate ClearOf(frame: Range, other: Option<Range>) { other.Some? ==> Clear(frame, other.value) }

  predicate RolesClear(frame: Range, s: Roles) {
    && Clear(frame, s.bootInfo) && Clear(frame, TableRange(s.memoryMap)) && Clear(frame, TableRange(s.modules))
    && ClearOf(frame, s.commandLine) && ClearOf(frame, s.entropy) && ClearOf(frame, s.framebuffer)
    && (s.rsdp != 0 ==> Clear(frame, RsdpRange(s.rsdp)))
  }

  ghost predicate FramePlaced(frame: nat, s: Roles, modules: seq<Module>, records: seq<MemoryRecord>) {
    && RolesClear(FrameRange(frame), s)
    && (forall i :: 0 <= i < |modules| ==> Clear(FrameRange(frame), ModuleRange(modules[i])))
    && RecordsFit(records) && Covered(records, FrameRange(frame))
  }

  method CheckModules(frame: Range, modules: seq<Module>) returns (ok: bool)
    ensures ok <==> forall i :: 0 <= i < |modules| ==> Clear(frame, ModuleRange(modules[i]))
  {
    var i := 0;
    while i < |modules|
      invariant i <= |modules| && forall j :: 0 <= j < i ==> Clear(frame, ModuleRange(modules[j]))
    {
      if !Clear(frame, ModuleRange(modules[i])) {
        return false;
      }
      i := i + 1;
    }
    ok := true;
  }

  /** The largest RSDP extent must itself be addressable. */
  predicate RsdpFits(s: Roles) { s.rsdp != 0 ==> s.rsdp % 8 == 0 && FitsU64(RsdpRange(s.rsdp)) }

  /** Checks every frame against every role and its owner; it passes exactly when all are placed. */
  method CheckRoles(p: Paging, s: Roles, modules: seq<Module>, records: seq<MemoryRecord>) returns (r: Result<(), BootError>)
    ensures r.Success? <==>
            RsdpFits(s) && forall i :: 0 <= i < |p.frames| ==> FramePlaced(p.frames[i], s, modules, records)
  {
    hide RolesClear, Covered, RecordsFit, FitsU64, Clear;
    if s.rsdp != 0 {
      var range := CheckedRange(s.rsdp, PAGE_SIZE, 8);
      if range.Failure? {
        RsdpRefused(s);
        return Failure(range.error);
      }
    }
    RsdpAccepted(s);
    var i := 0;
    while i < |p.frames|
      invariant i <= |p.frames| && forall j :: 0 <= j < i ==> FramePlaced(p.frames[j], s, modules, records)
    {
      var frame := FrameRange(p.frames[i]);
      if !RolesClear(frame, s) {
        return Failure(FrameRoleOverlap);
      }
      ClearFits(frame, s);
      var clear := CheckModules(frame, modules);
      if !clear {
        return Failure(FrameRoleOverlap);
      }
      r := CheckCoverage(records, frame);
      if r.Failure? {
        return;
      }
      i := i + 1;
    }
    r := Success(());
  }

  lemma ClearFits(frame: Range, s: Roles)
    requires RolesClear(frame, s)
    ensures FitsU64(frame)
  {
  }

  lemma RsdpRefused(s: Roles)
    ensures s.rsdp != 0 && CheckedRange(s.rsdp, PAGE_SIZE, 8).Failure? ==> !RsdpFits(s)
  {
  }

  lemma RsdpAccepted(s: Roles)
    ensures s.rsdp == 0 || CheckedRange(s.rsdp, PAGE_SIZE, 8).Success? ==> RsdpFits(s)
  {
  }

  // ----- What a placed frame means -----

  ghost predicate Avoids(frame: Range, other: Option<Range>) { other.Some? ==> Disjoint(frame, other.value) }

  /** The end-point tests against all roles together decide byte disjointness from every one of them. */
  lemma RolesClearMeans(frame: Range, s: Roles)
    requires FitsU64(frame) && frame.length > 0 && FitsU64(s.bootInfo) && s.bootInfo.length > 0
    requires FitsU64(TableRange(s.memoryMap)) && TableRange(s.memoryMap).length > 0
    requires FitsU64(TableRange(s.modules)) && TableRange(s.modules).length > 0
    requires s.commandLine.Some? ==> FitsU64(s.commandLine.value) && s.commandLine.value.length > 0
    requires s.entropy.Some? ==> FitsU64(s.entropy.value) && s.entropy.value.length > 0
    requires s.framebuffer.Some? ==> FitsU64(s.framebuffer.value) && s.framebuffer.value.length > 0
    requires RsdpFits(s)
    ensures RolesClear(frame, s) <==>
            && Disjoint(frame, s.bootInfo) && Disjoint(frame, TableRange(s.memoryMap)) && Disjoint(frame, TableRange(s.modules))
            && Avoids(frame, s.commandLine) && Avoids(frame, s.entropy) && Avoids(frame, s.framebuffer)
            && (s.rsdp != 0 ==> Disjoint(frame, Range(s.rsdp, 4096)))
  {
    hide Disjoint, Clear, TableRange;
    ClearIsDisjoint(frame, s.bootInfo);
    ClearIsDisjoint(frame, TableRange(s.memoryMap));
    ClearIsDisjoint(frame, TableRange(s.modules));
    if s.commandLine.Some? { ClearIsDisjoint(frame, s.commandLine.value); }
    if s.entropy.Some? { ClearIsDisjoint(frame, s.entropy.value); }
    if s.framebuffer.Some? { ClearIsDisjoint(frame, s.framebuffer.value); }
    if s.rsdp != 0 { ClearIsDisjoint(frame, RsdpRange(s.rsdp)); }
  }

  /** A whole frame under an aligned limit. */
  lemma FrameUnderLimit(frame: nat, width: nat)
    requires FrameOk(frame, Pow2(width)) && width >= 12
    ensures frame + PAGE_SIZE <= Pow2(width)
  {
    LimitIsAligned(width);
  }
}
