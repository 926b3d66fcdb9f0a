/**
 A handoff in memory that validation accepts and module selection refuses: its
 bootstrap module starts at physical address zero
 (kernel/src/boot/mod.rs:374-560, kernel/src/boot/primordial.rs:94-170).
 */
module BootWitness {
  import opened Wrappers
  import opened LittleEndian
  import opened BootMemory
  import opened Pages
  import opened BootRecords
  import opened BootPaging
  import opened BootIntake
  import opened BootModules
  import BootGrants

  // ----- Reading fields out of longer byte strings -----

  lemma Scaled(p: nat, d: nat)
    ensures 256 * (p * d) == (256 * p) * d
  {
  }

  lemma {:induction false} DecodeConcat(x: seq<Byte>, y: seq<Byte>)
    ensures Decode(x + y) == Decode(x) + Pow256(|x|) * Decode(y)
  {
    if |x| == 0 {
      assert x + y == y;
    } else {
      DecodeConcat(x[1..], y);
      assert (x + y)[1..] == x[1..] + y;
      Scaled(Pow256(|x| - 1), Decode(y));
    }
  }

  /** A double word is its low word and its high word. */
  lemma Halves(b: seq<Byte>, o: nat)
    requires o + 8 <= |b|
    ensures U64At(b, o) == U32At(b, o) + 0x1_0000_0000 * U32At(b, o + 4)
  {
    hide Decode, Pow256;
    DecodeConcat(b[o..o + 4], b[o + 4..o + 8]);
    Widths();
    assert b[o..o + 4] + b[o + 4..o + 8] == b[o..o + 8];
  }

  lemma Quarters(b: seq<Byte>, o: nat)
    requires o + 4 <= |b|
    ensures U32At(b, o) == U16At(b, o) + 0x1_0000 * U16At(b, o + 2)
  {
    hide Decode, Pow256;
    DecodeConcat(b[o..o + 2], b[o + 2..o + 4]);
    Widths();
    assert b[o..o + 2] + b[o + 2..o + 4] == b[o..o + 4];
  }

  lemma Words(x: seq<Byte>, y: seq<Byte>, o: nat)
    ensures o + 4 <= |x| ==> U32At(x + y, o) == U32At(x, o)
    ensures o + 8 <= |x| ==> U64At(x + y, o) == U64At(x, o)
    ensures o + 8 <= |y| ==> U64At(x + y, |x| + o) == U64At(y, o)
  {
    if o + 4 <= |x| { assert (x + y)[o..o + 4] == x[o..o + 4]; }
    if o + 8 <= |x| { assert (x + y)[o..o + 8] == x[o..o + 8]; }
    if o + 8 <= |y| { assert (x + y)[|x| + o..|x| + o + 8] == y[o..o + 8]; }
  }

  lemma {:induction false} ZeroDecodes(b: seq<Byte>)
    requires AllZero(b)
    ensures Decode(b) == 0
  {
    if |b| > 0 { ZeroDecodes(b[1..]); }
  }

  // ----- Memory made of pieces -----

  datatype Piece = Piece(at: nat, bytes: seq<Byte>)

  predicate Within(p: Piece, a: nat) { p.at <= a < p.at + |p.bytes| }

  function Region(p: Piece): Memory {
    map a: nat | p.at <= a < p.at + |p.bytes| && Within(p, a) :: p.bytes[a - p.at]
  }

  function Image(pieces: seq<Piece>): Memory {
    if |pieces| == 0 then map[] else Image(pieces[..|pieces| - 1]) + Region(pieces[|pieces| - 1])
  }

  ghost predicate Holds(memory: Memory, at: nat, bytes: seq<Byte>) {
    forall a: nat :: at <= a < at + |bytes| ==> a in memory && memory[a] == bytes[a - at]
  }

  ghost predicate Apart(a: Piece, b: Piece) { a.at + |a.bytes| <= b.at || b.at + |b.bytes| <= a.at }

  lemma {:induction false} ReadHeld(memory: Memory, at: nat, bytes: seq<Byte>)
    requires Holds(memory, at, bytes)
    ensures ReadExact(memory, at, |bytes|) == Some(bytes)
    decreases |bytes|
  {
    if |bytes| > 0 {
      ReadHeld(memory, at + 1, bytes[1..]);
      assert bytes == [memory[at]] + bytes[1..];
    }
  }

  /** Adding a piece elsewhere keeps what is held. */
  lemma RegionApart(memory: Memory, p: Piece, q: Piece)
    requires Holds(memory, q.at, q.bytes) && Apart(q, p)
    ensures Holds(memory + Region(p), q.at, q.bytes)
  {
  }

  lemma {:induction false} ImageHolds(pieces: seq<Piece>, k: nat)
    requires k < |pieces| && forall i, j :: 0 <= i < j < |pieces| ==> Apart(pieces[i], pieces[j])
    ensures Holds(Image(pieces), pieces[k].at, pieces[k].bytes)
  {
    var last := |pieces| - 1;
    if k < last {
      ImageHolds(pieces[..last], k);
      assert Apart(pieces[k], pieces[last]);
      RegionApart(Image(pieces[..last]), pieces[last], pieces[k]);
    }
  }

  // ----- The handoff -----

  const START: nat := 0x10_0000

  const MODULES: seq<Module> := [
    Module(KIND_BOOTSTRAP, 0, 0, PAGE_SIZE),
    Module(KIND_BOOTFS, FLAG_READ_ONLY, PAGE_SIZE, PAGE_SIZE),
    Module(KIND_PAGING, FLAG_READ_ONLY, 2 * PAGE_SIZE, 144)]

  const RESERVED: MemoryRecord := MemoryRecord(KIND_RESERVED_MEMORY, 0x20_0000, 4)

  const ROLES: Roles :=
    Roles(Range(START, BOOT_INFO_SIZE), Table(0x10_1000, 1, RECORD_BYTES), Table(0x10_2000, 3, RECORD_BYTES), None, None, None, 0)

  const FRAMES: seq<nat> := [0x20_0000, 0x20_1000, 0x20_2000, 0x20_3000]

  const PAGING: Paging := Paging(52, FRAMES, FRAMES)

  function Zeros(n: nat): seq<Byte> { seq(n, _ => 0) }

  /** Both tables are named by their address, count and stride; every other field is zero. */
  function HeaderBytes(): (h: seq<Byte>)
    ensures |h| == BOOT_INFO_SIZE
  {
    EncodeRecord((BOOT_INFO_SIZE, 1, 0, 0), 0x10_1000, 1, (RECORD_BYTES, 0x10_2000, 3, RECORD_BYTES)) + Zeros(248)
  }

  function ModuleBytes(m: Module): (b: seq<Byte>)
    ensures |b| == RECORD_BYTES
  {
    EncodeRecord((RECORD_BYTES, 1, m.kind, m.flags), m.start, m.length, (0, 0, 0, 0))
  }

  function RecordBytes(m: MemoryRecord): (b: seq<Byte>)
    ensures |b| == RECORD_BYTES
  {
    EncodeRecord((RECORD_BYTES, 1, m.kind, 0), m.start, m.pages, (0, 0, 0, 0))
  }

  function CarrierHead(): (b: seq<Byte>)
    ensures |b| == 64
  {
    EncodeRecord((HANDOFF_SIZE, 1, 0, 52), FRAMES[0], HANDOFF_SIZE + 0x1_0000_0000 * 4,
                 (FRAME_STRIDE + 0x1_0000_0000 * 144, 2, TEMPORARY_ADDRESS, PML4_INDEX))
  }

  function CarrierMiddle(): (b: seq<Byte>)
    ensures |b| == 64
  {
    EncodeRecord((FRAMES[1], 0, FRAMES[2], 0), FRAMES[3], 0, (0, 0, FRAMES[0], FRAMES[1]))
  }

  function CarrierBytes(): (b: seq<Byte>)
    ensures |b| == 144
  {
    CarrierHead() + (CarrierMiddle() + (Encode(FRAMES[2], 8) + Encode(FRAMES[3], 8)))
  }

  function Pieces(): seq<Piece> {
    [Piece(START, HeaderBytes()), Piece(0x10_1000, RecordBytes(RESERVED)),
     Piece(0x10_2000, ModuleBytes(MODULES[0])), Piece(0x10_2040, ModuleBytes(MODULES[1])), Piece(0x10_2080, ModuleBytes(MODULES[2])),
     Piece(2 * PAGE_SIZE, CarrierBytes())]
  }

  function WitnessMemory(): Memory { Image(Pieces()) }

  lemma PieceRead(k: nat)
    requires k < 6
    ensures var p := Pieces()[k]; ReadExact(WitnessMemory(), p.at, |p.bytes|) == Some(p.bytes)
  {
    hide HeaderBytes, RecordBytes, ModuleBytes, CarrierBytes, ReadExact, Image;
    ImageHolds(Pieces(), k);
    ReadHeld(WitnessMemory(), Pieces()[k].at, Pieces()[k].bytes);
  }

  lemma HeaderNumbers()
    ensures var h := HeaderBytes();
            && U32At(h, 0) == BOOT_INFO_SIZE && U32At(h, 4) == 1 && U64At(h, 8) == 0
            && U64At(h, 16) == 0x10_1000 && U64At(h, 24) == 1 && U32At(h, 32) == RECORD_BYTES && U32At(h, 36) == 0
            && U64At(h, 40) == 0x10_2000 && U64At(h, 48) == 3 && U32At(h, 56) == RECORD_BYTES && U32At(h, 60) == 0
  {
    hide EncodeRecord, U32At, U64At, Zeros;
    var r := EncodeRecord((BOOT_INFO_SIZE, 1, 0, 0), 0x10_1000, 1, (RECORD_BYTES, 0x10_2000, 3, RECORD_BYTES));
    RecordFields((BOOT_INFO_SIZE, 1, 0, 0), 0x10_1000, 1, (RECORD_BYTES, 0x10_2000, 3, RECORD_BYTES));
    Words(r, Zeros(248), 0);
    Words(r, Zeros(248), 4);
    Words(r, Zeros(248), 8);
    Words(r, Zeros(248), 12);
    Words(r, Zeros(248), 16);
    Words(r, Zeros(248), 24);
    Words(r, Zeros(248), 32);
    Words(r, Zeros(248), 40);
    Words(r, Zeros(248), 48);
    Words(r, Zeros(248), 56);
    Halves(HeaderBytes(), 8);
    Halves(HeaderBytes(), 32);
    Halves(HeaderBytes(), 56);
  }

  lemma HeaderZeros()
    ensures var h := HeaderBytes();
            && U64At(h, 64) == 0 && U64At(h, 168) == 0 && U64At(h, 176) == 0
            && AllZero(h[72..168]) && AllZero(h[184..248]) && AllZero(h[248..312])
  {
    hide EncodeRecord;
    var h := HeaderBytes();
    ZeroDecodes(h[64..72]);
    ZeroDecodes(h[168..176]);
    ZeroDecodes(h[176..184]);
  }

  lemma HeaderSpeaks()
    ensures HeaderIs(WitnessMemory(), START, MAX_MEMORY_ENTRIES, MAX_MODULES, ROLES)
  {
    hide HeaderBytes, ReadExact, U32At, U64At, AllZero;
    PieceRead(0);
    HeaderNumbers();
    HeaderZeros();
  }

  lemma ModuleSpeaks(i: nat)
    requires i < 3
    ensures ModuleEntryIs(WitnessMemory(), ROLES.modules, i, MODULES[i])
  {
    hide ReadExact, EncodeRecord, ModuleSays, WitnessMemory;
    PieceRead(i + 2);
    ModuleRoundTrip(MODULES[i], RECORD_BYTES);
    assert Pieces()[i + 2].at == EntryAt(ROLES.modules, i);
    assert Pieces()[i + 2].bytes == ModuleBytes(MODULES[i]);
  }

  lemma TablesSpeak()
    ensures MapIs(WitnessMemory(), ROLES.memoryMap, [RESERVED]) && ModulesAre(WitnessMemory(), ROLES.modules, MODULES)
  {
    hide ReadExact, EncodeRecord, MemorySays, ModuleEntryIs, WitnessMemory;
    PieceRead(1);
    MemoryRoundTrip(RESERVED, 0, RECORD_BYTES);
    forall i | 0 <= i < 3 ensures ModuleEntryIs(WitnessMemory(), ROLES.modules, i, MODULES[i]) { ModuleSpeaks(i); }
  }

  // ----- The paging carrier -----

  lemma CarrierStart()
    ensures var b := CarrierHead();
            && U32At(b, 0) == HANDOFF_SIZE && U32At(b, 4) == 1 && U32At(b, 8) == 0 && U32At(b, 12) == 52
            && U64At(b, 16) == FRAMES[0] && U32At(b, 24) == HANDOFF_SIZE && U32At(b, 28) == 4
            && U32At(b, 32) == FRAME_STRIDE && U32At(b, 36) == 144 && U32At(b, 40) == 2 && U32At(b, 44) == 0
            && U64At(b, 48) == TEMPORARY_ADDRESS
            && U16At(b, 56) == PML4_INDEX && U16At(b, 58) == 0 && U16At(b, 60) == 0 && U16At(b, 62) == 0
  {
    hide EncodeRecord, U16At, U32At, U64At;
    RecordFields((HANDOFF_SIZE, 1, 0, 52), FRAMES[0], HANDOFF_SIZE + 0x1_0000_0000 * 4,
                 (FRAME_STRIDE + 0x1_0000_0000 * 144, 2, TEMPORARY_ADDRESS, PML4_INDEX));
    var b := CarrierHead();
    Halves(b, 24);
    Halves(b, 32);
    Halves(b, 40);
    Halves(b, 56);
    Quarters(b, 56);
    Quarters(b, 60);
  }

  lemma CarrierRest()
    ensures var b := CarrierMiddle() + (Encode(FRAMES[2], 8) + Encode(FRAMES[3], 8));
            && U64At(b, 0) == FRAMES[1] && U64At(b, 8) == FRAMES[2] && U64At(b, 16) == FRAMES[3]
            && U64At(b, 24) == 0 && U64At(b, 32) == 0 && U64At(b, 40) == 0
            && U64At(b, 48) == FRAMES[0] && U64At(b, 56) == FRAMES[1] && U64At(b, 64) == FRAMES[2] && U64At(b, 72) == FRAMES[3]
  {
    hide EncodeRecord, Encode, Decode, Pow256, U32At;
    RecordFields((FRAMES[1], 0, FRAMES[2], 0), FRAMES[3], 0, (0, 0, FRAMES[0], FRAMES[1]));
    var m, t := CarrierMiddle(), Encode(FRAMES[2], 8) + Encode(FRAMES[3], 8);
    Halves(m, 0);
    Halves(m, 8);
    Widths();
    DecodeEncode(FRAMES[2], 8);
    DecodeEncode(FRAMES[3], 8);
    assert t[0..8] == Encode(FRAMES[2], 8) && t[8..16] == Encode(FRAMES[3], 8);
    Words(m, t, 0);
    Words(m, t, 8);
    Words(m, t, 16);
    Words(m, t, 24);
    Words(m, t, 32);
    Words(m, t, 40);
    Words(m, t, 48);
    Words(m, t, 56);
  }

  lemma CarrierNumbers()
    ensures var b := CarrierBytes();
            && HeaderOk(b) && U32At(b, 12) == 52 && Required(b) == FRAMES && FrameCount(b) == 4
            && U64At(b, 112) == FRAMES[0] && U64At(b, 120) == FRAMES[1] && U64At(b, 128) == FRAMES[2] && U64At(b, 136) == FRAMES[3]
  {
    hide U16At, U32At, U64At, Encode, CarrierHead, CarrierMiddle;
    var x, y := CarrierHead(), CarrierMiddle() + (Encode(FRAMES[2], 8) + Encode(FRAMES[3], 8));
    CarrierStart();
    CarrierRest();
    FrontWords(x, y);
    BackWords(x, y);
  }

  lemma FrontWords(x: seq<Byte>, y: seq<Byte>)
    requires |x| == 64
    ensures forall o :: 0 <= o <= 62 ==> U16At(x + y, o) == U16At(x, o)
    ensures forall o :: 0 <= o <= 60 ==> U32At(x + y, o) == U32At(x, o)
    ensures forall o :: 0 <= o <= 56 ==> U64At(x + y, o) == U64At(x, o)
  {
    forall o | 0 <= o <= 62 ensures U16At(x + y, o) == U16At(x, o) { assert (x + y)[o..o + 2] == x[o..o + 2]; }
    forall o | 0 <= o <= 60 ensures U32At(x + y, o) == U32At(x, o) { assert (x + y)[o..o + 4] == x[o..o + 4]; }
    forall o | 0 <= o <= 56 ensures U64At(x + y, o) == U64At(x, o) { assert (x + y)[o..o + 8] == x[o..o + 8]; }
  }

  lemma BackWords(x: seq<Byte>, y: seq<Byte>)
    requires |x| == 64 && |y| == 80
    ensures forall o :: 64 <= o <= 136 ==> U64At(x + y, o) == U64At(y, o - 64)
  {
    forall o | 64 <= o <= 136 ensures U64At(x + y, o) == U64At(y, o - 64) {
      assert (x + y)[o..o + 8] == y[o - 64..o - 64 + 8];
    }
  }

  lemma FramesFitPaging()
    ensures PagingOk(PAGING)
  {
    hide Pow2;
    WidestLimit();
    assert forall i :: 0 <= i < 4 ==> FRAMES[i] == 0x20_0000 + i * PAGE_SIZE;
  }

  lemma FramesInCarrier(i: nat)
    requires i < 4 && HeaderOk(CarrierBytes()) && FrameCount(CarrierBytes()) == 4
    ensures FRAMES[i] == FrameAt(CarrierBytes(), i)
  {
    hide CarrierBytes, HeaderOk, FrameCount, U64At;
    CarrierNumbers();
    assert HANDOFF_SIZE + i * FRAME_STRIDE == 112 + 8 * i;
  }

  lemma CarrierBytesSay()
    ensures BytesSay(CarrierBytes(), PAGING)
  {
    hide CarrierBytes, U32At, U64At, HeaderOk, Required, FrameCount, FrameAt, FramesOk, RequiredOk, Pow2;
    CarrierNumbers();
    FramesFitPaging();
    forall i | 0 <= i < 4 ensures FRAMES[i] == FrameAt(CarrierBytes(), i) { FramesInCarrier(i); }
  }

  lemma CarrierRead()
    ensures ReadExact(WitnessMemory(), 2 * PAGE_SIZE, 144) == Some(CarrierBytes())
  {
    hide HeaderBytes, RecordBytes, ModuleBytes, CarrierBytes, ReadExact, WitnessMemory;
    PieceRead(5);
  }

  lemma CarrierSpeaks()
    ensures CarriedBy(WitnessMemory(), MODULES, PAGING)
  {
    hide CarrierBytes, ReadExact, BytesSay, WitnessMemory, CarrierIs;
    assert CarrierIs(WitnessMemory(), MODULES[2], PAGING) by { CarrierHolds(); }
    assert OnlyOf(MODULES, KIND_PAGING, 2);
  }

  lemma CarrierHolds()
    ensures CarrierIs(WitnessMemory(), MODULES[2], PAGING)
  {
    hide CarrierBytes, ReadExact, BytesSay, WitnessMemory;
    CarrierRead();
    CarrierBytesSay();
  }

  // ----- Contents -----

  lemma ModulesListed()
    ensures Classified(MODULES) && ModulesApart(MODULES) && NoneOf(MODULES, KIND_DEVICE_TABLE) && !ExtentsOk(MODULES)
  {
    assert OnlyOf(MODULES, KIND_BOOTSTRAP, 0) && OnlyOf(MODULES, KIND_BOOTFS, 1) && OnlyOf(MODULES, KIND_PAGING, 2);
    assert !ExtentOk(MODULES[0]);
  }

  lemma FramesPlaced(i: nat)
    requires i < 4
    ensures FramePlaced(FRAMES[i], ROLES, MODULES, [RESERVED])
  {
    assert FRAMES[i] == 0x20_0000 + i * PAGE_SIZE;
    assert OnlyOwner([RESERVED], FrameRange(FRAMES[i]), 0);
  }

  /** Bytes in memory that pass every check of the intake, with the bootstrap module at address zero. */
  lemma ZeroStartHandoff()
    ensures HandoffIs(WitnessMemory(), START, MAX_MEMORY_ENTRIES, MAX_MODULES, ROLES, [RESERVED], MODULES, PAGING)
    ensures GrantsFrom(WitnessMemory(), MODULES, []) && !ExtentsOk(MODULES)
  {
    hide WitnessMemory, HeaderIs, MapIs, ModulesAre, Classified, ModulesApart, CarriedBy, FramePlaced, ExtentsOk;
    HeaderSpeaks();
    TablesSpeak();
    CarrierSpeaks();
    ModulesListed();
    forall i | 0 <= i < |PAGING.frames| ensures FramePlaced(PAGING.frames[i], ROLES, MODULES, [RESERVED]) { FramesPlaced(i); }
  }

  lemma OnlyHandoff(roles: Roles, records: seq<MemoryRecord>, modules: seq<Module>, p: Paging)
    requires HandoffIs(WitnessMemory(), START, MAX_MEMORY_ENTRIES, MAX_MODULES, roles, records, modules, p)
    ensures modules == MODULES
  {
    hide WitnessMemory, HeaderIs, MapIs, ModulesAre, ContentsOk;
    ZeroStartHandoff();
    OneHeader(WitnessMemory(), START, MAX_MEMORY_ENTRIES, MAX_MODULES, ROLES);
    OneModuleList(WitnessMemory(), ROLES.modules, modules, MODULES);
  }

  /** On this memory, under any mint, validation succeeds and the selection that follows refuses the extent. */
  method ZeroStartIsAcceptedThenRefused(mint: BootGrants.GrantMint)
    returns (accepted: Result<BootInfo, BootError>, selected: Result<(Primordial, Primordial), ModuleError>)
    requires mint.Valid()
    modifies mint
    ensures accepted.Success? && accepted.value.modules == MODULES && accepted.value.grants == []
    ensures selected == Failure(InvalidModuleExtent)
  {
    hide WitnessMemory, ContentsOk, HeaderIs, MapIs, ModulesAre, ExtentsOk, Validated, TableOf, TableRefused;
    accepted := ValidateBootInfo(WitnessMemory(), START, MAX_MEMORY_ENTRIES, MAX_MODULES, mint);
    ZeroStartHandoff();
    ModulesListed();
    forall roles, records, modules, p | HandoffIs(WitnessMemory(), START, MAX_MEMORY_ENTRIES, MAX_MODULES, roles, records, modules, p)
      ensures modules == MODULES
    {
      OnlyHandoff(roles, records, modules, p);
    }
    selected := PrimordialModules(accepted.value);
  }
}
