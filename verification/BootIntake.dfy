/**
 Boot intake: table snapshots, module classification, pairwise overlap, the paging
 carrier and the device table, composed
 (kernel/src/boot/mod.rs:374-560, kernel/src/boot/validation.rs:14-55).
 */
module BootIntake {
  import opened Wrappers
  import opened LittleEndian
  import opened BootMemory
  import opened Pages
  import opened BootRecords
  import opened BootPaging
  import BootGrants
  import DeviceTable

  const MAX_MEMORY_ENTRIES: nat := 128
  const MAX_MODULES: nat := 16

  // ----- Modules by kind -----

  /** The flags each module kind must carry. */
  predicate FlagsOk(m: Module) {
    if m.kind == KIND_BOOTSTRAP then m.flags == 0 else m.flags == FLAG_READ_ONLY
  }

  predicate KnownKind(m: Module) { KIND_BOOTSTRAP <= m.kind <= KIND_DEVICE_TABLE }

  ghost predicate NoneOf(modules: seq<Module>, kind: nat) {
    forall i :: 0 <= i < |modules| ==> modules[i].kind != kind
  }

  /** Module `k` is the only one of its kind. */
  ghost predicate OnlyOf(modules: seq<Module>, kind: nat, k: nat) {
    && k < |modules| && modules[k].kind == kind
    && forall i :: 0 <= i < |modules| && i != k ==> modules[i].kind != kind
  }

  ghost predicate ExactlyOne(modules: seq<Module>, kind: nat) {
    exists k :: OnlyOf(modules, kind, k)
  }

  ghost predicate AtMostOneOf(modules: seq<Module>, kind: nat) {
    forall i, j :: 0 <= i < j < |modules| && modules[i].kind == kind ==> modules[j].kind != kind
  }

  /** The module list has the right kinds, flags and multiplicities. */
  ghost predicate Classified(modules: seq<Module>) {
    && (forall i :: 0 <= i < |modules| ==> KnownKind(modules[i]) && FlagsOk(modules[i]))
    && ExactlyOne(modules, KIND_BOOTSTRAP) && ExactlyOne(modules, KIND_BOOTFS) && ExactlyOne(modules, KIND_PAGING)
    && AtMostOneOf(modules, KIND_DEVICE_TABLE)
  }

  /** How many modules of the list have this kind. */
  function CountOf(modules: seq<Module>, kind: nat): nat {
    if modules == [] then 0 else CountOf(modules[..|modules| - 1], kind) + if modules[|modules| - 1].kind == kind then 1 else 0
  }

  lemma {:induction false} CountMeans(modules: seq<Module>, kind: nat)
    ensures CountOf(modules, kind) == 0 <==> NoneOf(modules, kind)
    ensures CountOf(modules, kind) == 1 <==> ExactlyOne(modules, kind)
    ensures CountOf(modules, kind) <= 1 <==> AtMostOneOf(modules, kind)
  {
    if modules != [] {
      var rest, last := modules[..|modules| - 1], |modules| - 1;
      CountMeans(rest, kind);
      CountStep(modules, kind);
    }
  }

  lemma CountStep(modules: seq<Module>, kind: nat)
    requires |modules| > 0
    ensures var rest, last := modules[..|modules| - 1], modules[|modules| - 1];
            if last.kind == kind then
              && !NoneOf(modules, kind)
              && (ExactlyOne(modules, kind) <==> NoneOf(rest, kind)) && (AtMostOneOf(modules, kind) <==> NoneOf(rest, kind))
            else
              && (NoneOf(modules, kind) <==> NoneOf(rest, kind))
              && (ExactlyOne(modules, kind) <==> ExactlyOne(rest, kind)) && (AtMostOneOf(modules, kind) <==> AtMostOneOf(rest, kind))
  {
    var n := |modules| - 1;
    var rest := modules[..n];
    if modules[n].kind == kind {
      if NoneOf(rest, kind) {
        assert OnlyOf(modules, kind, n);
      } else {
        var i :| 0 <= i < n && rest[i].kind == kind;
        assert modules[i].kind == kind;
      }
    } else {
      if ExactlyOne(rest, kind) {
        var k :| OnlyOf(rest, kind, k);
        assert OnlyOf(modules, kind, k);
      }
      if ExactlyOne(modules, kind) {
        var k :| OnlyOf(modules, kind, k);
        assert OnlyOf(rest, kind, k);
      }
      assert forall i :: 0 <= i < n ==> rest[i] == modules[i];
    }
  }

  /** The list in numbers: one writable bootstrap, one read-only bootfs and carrier, at most one read-only table, nothing else. */
  lemma ClassifiedMeans(modules: seq<Module>)
    ensures Classified(modules) <==>
            && (forall i :: 0 <= i < |modules| ==> (modules[i].kind, modules[i].flags) in {(1, 0), (2, 1), (3, 1), (4, 1)})
            && CountOf(modules, 1) == 1 && CountOf(modules, 2) == 1 && CountOf(modules, 3) == 1 && CountOf(modules, 4) <= 1
  {
    hide ExactlyOne, AtMostOneOf, CountOf;
    CountMeans(modules, 1);
    CountMeans(modules, 2);
    CountMeans(modules, 3);
    CountMeans(modules, 4);
  }

  ghost predicate ModulesApart(modules: seq<Module>) {
    forall i, j :: 0 <= i < j < |modules| ==> Clear(ModuleRange(modules[i]), ModuleRange(modules[j]))
  }

  /** The options filled so far point at the only module of each kind seen so far. */
  ghost predicate Tracks(modules: seq<Module>, n: nat, kind: nat, found: Option<nat>)
    requires n <= |modules|
  {
    match found
    case None => NoneOf(modules[..n], kind)
    case Some(k) => OnlyOf(modules[..n], kind, k)
  }

  lemma TrackStep(modules: seq<Module>, n: nat, kind: nat, found: Option<nat>)
    requires n < |modules| && Tracks(modules, n, kind, found)
    ensures modules[n].kind != kind ==> Tracks(modules, n + 1, kind, found)
    ensures modules[n].kind == kind && found.None? ==> Tracks(modules, n + 1, kind, Some(n))
    ensures modules[n].kind == kind && found.Some? ==> !AtMostOneOf(modules, kind)
  {
    assert modules[..n + 1] == modules[..n] + [modules[n]];
    if modules[n].kind == kind && found.Some? {
      assert modules[found.value] == modules[..n][found.value];
    }
  }

  lemma OneIsAtMostOne(modules: seq<Module>, kind: nat)
    ensures ExactlyOne(modules, kind) ==> AtMostOneOf(modules, kind)
  {
  }

  datatype Found = Found(bootstrap: Option<nat>, bootfs: Option<nat>, paging: Option<nat>, device: Option<nat>)

  function Slot(f: Found, kind: nat): Option<nat> {
    if kind == KIND_BOOTSTRAP then f.bootstrap
    else if kind == KIND_BOOTFS then f.bootfs
    else if kind == KIND_PAGING then f.paging
    else f.device
  }

  function Fill(f: Found, kind: nat, k: nat): Found {
    if kind == KIND_BOOTSTRAP then f.(bootstrap := Some(k))
    else if kind == KIND_BOOTFS then f.(bootfs := Some(k))
    else if kind == KIND_PAGING then f.(paging := Some(k))
    else f.(device := Some(k))
  }

  ghost predicate AllTrack(modules: seq<Module>, n: nat, f: Found)
    requires n <= |modules|
  {
    && Tracks(modules, n, KIND_BOOTSTRAP, f.bootstrap) && Tracks(modules, n, KIND_BOOTFS, f.bootfs)
    && Tracks(modules, n, KIND_PAGING, f.paging) && Tracks(modules, n, KIND_DEVICE_TABLE, f.device)
  }

  lemma AllTrackStep(modules: seq<Module>, n: nat, f: Found)
    requires n < |modules| && AllTrack(modules, n, f) && KnownKind(modules[n])
    ensures Slot(f, modules[n].kind).None? ==> AllTrack(modules, n + 1, Fill(f, modules[n].kind, n))
    ensures Slot(f, modules[n].kind).Some? ==> !Classified(modules)
  {
    hide Tracks, ExactlyOne, AtMostOneOf;
    TrackStep(modules, n, KIND_BOOTSTRAP, f.bootstrap);
    TrackStep(modules, n, KIND_BOOTFS, f.bootfs);
    TrackStep(modules, n, KIND_PAGING, f.paging);
    TrackStep(modules, n, KIND_DEVICE_TABLE, f.device);
    OneIsAtMostOne(modules, modules[n].kind);
  }

  lemma TracksAll(modules: seq<Module>, kind: nat, found: Option<nat>)
    requires Tracks(modules, |modules|, kind, found)
    ensures found.Some? <==> ExactlyOne(modules, kind)
    ensures found.Some? ==> OnlyOf(modules, kind, found.value)
    ensures AtMostOneOf(modules, kind)
    ensures found.None? ==> NoneOf(modules, kind)
  {
    assert modules[..|modules|] == modules;
    if found.Some? { assert OnlyOf(modules, kind, found.value); }
  }

  /** The first `n` modules are known, rightly flagged and of different kinds. */
  ghost predicate GoodPrefix(modules: seq<Module>, n: nat)
    requires n <= |modules|
  {
    && (forall i :: 0 <= i < n ==> KnownKind(modules[i]) && FlagsOk(modules[i]))
    && forall i, j :: 0 <= i < j < n ==> modules[i].kind != modules[j].kind
  }

  /** `error` names the fault of the first module that does not fit behind the ones before it, or of the list that lacks one. */
  ghost predicate ClassFault(modules: seq<Module>, error: BootError) {
    || (error == MissingRequiredModule && GoodPrefix(modules, |modules|))
    || exists n: nat ::
         n < |modules| && GoodPrefix(modules, n) &&
         var m, again := modules[n], exists i :: 0 <= i < n && modules[i].kind == modules[n].kind;
         match error
         case UnknownModuleKind => !KnownKind(m)
         case InvalidModuleFlags => KnownKind(m) && !FlagsOk(m)
         case DuplicateDeviceModule => KnownKind(m) && FlagsOk(m) && again && m.kind == 4
         case DuplicateRequiredModule => KnownKind(m) && FlagsOk(m) && again && m.kind != 4
         case _ => false
  }

  lemma TrackedTwice(modules: seq<Module>, n: nat, f: Found)
    requires n < |modules| && AllTrack(modules, n, f) && KnownKind(modules[n])
    ensures Slot(f, modules[n].kind).Some? <==> exists i :: 0 <= i < n && modules[i].kind == modules[n].kind
  {
    var kind := modules[n].kind;
    var found := Slot(f, kind);
    assert Tracks(modules, n, kind, found);
    if found.Some? { assert modules[found.value] == modules[..n][found.value]; }
    forall i | 0 <= i < n ensures modules[..n][i] == modules[i] {}
  }

  /** One pass fills an option per kind; it succeeds exactly on classified lists, and names the first fault of the others. */
  method Classify(modules: seq<Module>) returns (r: Result<Found, BootError>)
    ensures r.Success? <==> Classified(modules)
    ensures r.Failure? ==> ClassFault(modules, r.error)
    ensures r.Success? ==>
              && r.value.paging.Some? && OnlyOf(modules, KIND_PAGING, r.value.paging.value)
              && (r.value.device.Some? ==> OnlyOf(modules, KIND_DEVICE_TABLE, r.value.device.value))
              && (r.value.device.None? ==> NoneOf(modules, KIND_DEVICE_TABLE))
  {
    hide Tracks, ExactlyOne, AtMostOneOf;
    var f := Found(None, None, None, None);
    EmptyTracks(modules);
    var i := 0;
    while i < |modules|
      invariant i <= |modules| && AllTrack(modules, i, f)
      invariant GoodPrefix(modules, i)
    {
      if !KnownKind(modules[i]) {
        return Failure(UnknownModuleKind);
      }
      if !FlagsOk(modules[i]) {
        return Failure(InvalidModuleFlags);
      }
      AllTrackStep(modules, i, f);
      TrackedTwice(modules, i, f);
      if Slot(f, modules[i].kind).Some? {
        return Failure(if modules[i].kind == KIND_DEVICE_TABLE then DuplicateDeviceModule else DuplicateRequiredModule);
      }
      f := Fill(f, modules[i].kind, i);
      i := i + 1;
    }
    TracksAll(modules, KIND_BOOTSTRAP, f.bootstrap);
    TracksAll(modules, KIND_BOOTFS, f.bootfs);
    TracksAll(modules, KIND_PAGING, f.paging);
    TracksAll(modules, KIND_DEVICE_TABLE, f.device);
    if f.bootstrap.None? || f.bootfs.None? || f.paging.None? {
      return Failure(MissingRequiredModule);
    }
    r := Success(f);
  }

  lemma EmptyTracks(modules: seq<Module>)
    ensures AllTrack(modules, 0, Found(None, None, None, None))
  {
  }

  method CheckModulePairs(modules: seq<Module>) returns (ok: bool)
    ensures ok <==> ModulesApart(modules)
  {
    var i := 0;
    while i < |modules|
      invariant i <= |modules|
      invariant forall a, b :: 0 <= a < i && a < b < |modules| ==> Clear(ModuleRange(modules[a]), ModuleRange(modules[b]))
    {
      var j := i + 1;
      while j < |modules|
        invariant i < j <= |modules|
        invariant forall b :: i < b < j ==> Clear(ModuleRange(modules[i]), ModuleRange(modules[b]))
      {
        if !Clear(ModuleRange(modules[i]), ModuleRange(modules[j])) {
          return false;
        }
        j := j + 1;
      }
      i := i + 1;
    }
    ok := true;
  }

  // ----- Snapshots of the two tables -----

  predicate MemoryEntryIs(memory: Memory, t: Table, i: nat, m: MemoryRecord) {
    && ReadExact(memory, EntryAt(t, i), RECORD_BYTES).Some?
    && MemorySays(ReadExact(memory, EntryAt(t, i), RECORD_BYTES).value, t.stride, m)
  }

  predicate ModuleEntryIs(memory: Memory, t: Table, i: nat, m: Module) {
    && ReadExact(memory, EntryAt(t, i), RECORD_BYTES).Some?
    && ModuleSays(ReadExact(memory, EntryAt(t, i), RECORD_BYTES).value, t.stride, m)
  }

  /** The memory map in memory is exactly this list. */
  ghost predicate MapIs(memory: Memory, t: Table, records: seq<MemoryRecord>) {
    |records| == t.count && forall i :: 0 <= i < |records| ==> MemoryEntryIs(memory, t, i, records[i])
  }

  ghost predicate ModulesAre(memory: Memory, t: Table, modules: seq<Module>) {
    |modules| == t.count && forall i :: 0 <= i < |modules| ==> ModuleEntryIs(memory, t, i, modules[i])
  }

  ghost predicate NoMemoryEntry(memory: Memory, t: Table, i: nat) {
    forall m :: !MemoryEntryIs(memory, t, i, m)
  }

  ghost predicate NoModuleEntry(memory: Memory, t: Table, i: nat) {
    forall m :: !ModuleEntryIs(memory, t, i, m)
  }

  lemma MapReadsEach(memory: Memory, t: Table)
    ensures forall records, i :: MapIs(memory, t, records) && 0 <= i < t.count ==> !NoMemoryEntry(memory, t, i)
  {
    forall records, i | MapIs(memory, t, records) && 0 <= i < t.count ensures !NoMemoryEntry(memory, t, i) {
      assert MemoryEntryIs(memory, t, i, records[i]);
    }
  }

  lemma ModulesReadEach(memory: Memory, t: Table)
    ensures forall modules, i :: ModulesAre(memory, t, modules) && 0 <= i < t.count ==> !NoModuleEntry(memory, t, i)
  {
    forall modules, i | ModulesAre(memory, t, modules) && 0 <= i < t.count ensures !NoModuleEntry(memory, t, i) {
      assert ModuleEntryIs(memory, t, i, modules[i]);
    }
  }

  /** Each table says at most one thing. */
  lemma OneMap(memory: Memory, t: Table, a: seq<MemoryRecord>, b: seq<MemoryRecord>)
    requires MapIs(memory, t, a) && MapIs(memory, t, b)
    ensures a == b
  {
    forall i | 0 <= i < |a| ensures a[i] == b[i] {
      assert MemoryEntryIs(memory, t, i, a[i]) && MemoryEntryIs(memory, t, i, b[i]);
    }
  }

  lemma OneModuleList(memory: Memory, t: Table, a: seq<Module>, b: seq<Module>)
    requires ModulesAre(memory, t, a) && ModulesAre(memory, t, b)
    ensures a == b
  {
    forall i | 0 <= i < |a| ensures a[i] == b[i] {
      assert ModuleEntryIs(memory, t, i, a[i]) && ModuleEntryIs(memory, t, i, b[i]);
    }
  }

  method ReadMemoryMap(memory: Memory, t: Table) returns (r: Result<seq<MemoryRecord>, BootError>)
    ensures r.Success? ==> MapIs(memory, t, r.value)
    ensures r.Failure? ==> forall records :: !MapIs(memory, t, records)
    ensures r.Success? ==> forall i :: 0 <= i < t.count ==> MemoryOk(r.value[i])
  {
    hide ReadExact, MemoryOk;
    var records: seq<MemoryRecord> := [];
    var i := 0;
    while i < t.count
      invariant i == |records| <= t.count
      invariant forall j :: 0 <= j < i ==> MemoryEntryIs(memory, t, j, records[j]) && MemoryOk(records[j])
    {
      var bytes := ReadExact(memory, EntryAt(t, i), RECORD_BYTES);
      if bytes.None? {
        assert NoMemoryEntry(memory, t, i);
        MapReadsEach(memory, t);
        return Failure(ReadFailed);
      }
      var parsed := ParseMemoryRange(bytes.value, t.stride);
      if parsed.Failure? {
        assert NoMemoryEntry(memory, t, i);
        MapReadsEach(memory, t);
        return Failure(parsed.error);
      }
      records := records + [parsed.value];
      i := i + 1;
    }
    r := Success(records);
  }

  method ReadModules(memory: Memory, t: Table) returns (r: Result<seq<Module>, BootError>)
    ensures r.Success? ==> ModulesAre(memory, t, r.value)
    ensures r.Failure? ==> forall modules :: !ModulesAre(memory, t, modules)
    ensures r.Success? ==> forall i :: 0 <= i < t.count ==> ModuleOk(r.value[i])
  {
    hide ReadExact, ModuleOk;
    var modules: seq<Module> := [];
    var i := 0;
    while i < t.count
      invariant i == |modules| <= t.count
      invariant forall j :: 0 <= j < i ==> ModuleEntryIs(memory, t, j, modules[j]) && ModuleOk(modules[j])
    {
      var bytes := ReadExact(memory, EntryAt(t, i), RECORD_BYTES);
      if bytes.None? {
        assert NoModuleEntry(memory, t, i);
        ModulesReadEach(memory, t);
        return Failure(ReadFailed);
      }
      var parsed := ParseModule(bytes.value, t.stride);
      if parsed.Failure? {
        assert NoModuleEntry(memory, t, i);
        ModulesReadEach(memory, t);
        return Failure(parsed.error);
      }
      modules := modules + [parsed.value];
      i := i + 1;
    }
    r := Success(modules);
  }

  // ----- The header -----

  /** The command line, RSDP, framebuffer and entropy words of the header say these roles. */
  predicate PayloadsSay(h: seq<Byte>, s: Roles)
    requires |h| == BOOT_INFO_SIZE
  {
    && OptionalSays(U64At(h, 168), U64At(h, 176), s.commandLine)
    && s.rsdp == U64At(h, 64) && s.rsdp % 8 == 0
    && FramebufferSays(U64At(h, 8) % 2 == 1, h[72..168], s.framebuffer)
    && EntropySays(h[184..248], s.entropy)
  }

  /** The bytes are a version 1 header at `start`, with its spare words zero, and say exactly these roles. */
  predicate HeaderSays(h: seq<Byte>, start: nat, maxMemory: nat, maxModules: nat, s: Roles)
    requires |h| == BOOT_INFO_SIZE
  {
    && U32At(h, 0) >= BOOT_INFO_SIZE && U32At(h, 4) == 1 && U64At(h, 8) <= 1
    && AllZero(h[248..312]) && U32At(h, 36) == 0 && U32At(h, 60) == 0
    && s.bootInfo == Range(start, U32At(h, 0)) && start % 8 == 0 && FitsU64(s.bootInfo)
    && s.memoryMap == Table(U64At(h, 16), U64At(h, 24), U32At(h, 32)) && TableOk(s.memoryMap, maxMemory)
    && s.modules == Table(U64At(h, 40), U64At(h, 48), U32At(h, 56)) && TableOk(s.modules, maxModules)
    && PayloadsSay(h, s)
  }

  /** Everything the header itself says, checked in the order the intake checks it. */
  function ParseHeader(h: seq<Byte>, start: nat, maxMemory: nat, maxModules: nat): (r: Result<Roles, BootError>)
    requires |h| == BOOT_INFO_SIZE
    ensures r.Success? ==> HeaderSays(h, start, maxMemory, maxModules, r.value)
    ensures r.Failure? ==> forall s :: !HeaderSays(h, start, maxMemory, maxModules, s)
  {
    match RecordHeader(U32At(h, 0), U32At(h, 4), BOOT_INFO_SIZE, 1, None)
    case Failure(e) => Failure(e)
    case Success(_) =>
      match CheckedRange(start, U32At(h, 0), 8)
      case Failure(e) => Failure(e)
      case Success(range) =>
        if !AllZero(h[248..312]) || U32At(h, 36) != 0 || U32At(h, 60) != 0 then Failure(NonZeroReserved)
        else if U64At(h, 8) > 1 then Failure(UnknownFlags)
        else
          match ValidateTable(U64At(h, 16), U64At(h, 24), U32At(h, 32), maxMemory)
          case Failure(e) => Failure(e)
          case Success(memoryMap) =>
            match ValidateTable(U64At(h, 40), U64At(h, 48), U32At(h, 56), maxModules)
            case Failure(e) => Failure(e)
            case Success(modules) => ParsePayloads(h, range, memoryMap, modules)
  }

  function ParsePayloads(h: seq<Byte>, range: Range, memoryMap: Table, modules: Table): (r: Result<Roles, BootError>)
    requires |h| == BOOT_INFO_SIZE
    ensures r.Success? ==>
              && r.value.bootInfo == range && r.value.memoryMap == memoryMap && r.value.modules == modules
              && PayloadsSay(h, r.value)
    ensures r.Failure? ==> forall s :: !PayloadsSay(h, s)
  {
    match OptionalRange(U64At(h, 168), U64At(h, 176), InvalidCommandLine)
    case Failure(e) => Failure(e)
    case Success(commandLine) =>
      if U64At(h, 64) % 8 != 0 then Failure(UnalignedAddress)
      else
        match ValidateFramebuffer(U64At(h, 8) % 2 == 1, h[72..168])
        case Failure(e) => Failure(e)
        case Success(framebuffer) =>
          match ValidateEntropy(h[184..248])
          case Failure(e) => Failure(e)
          case Success(entropy) =>
            Success(Roles(range, memoryMap, modules, commandLine, entropy, framebuffer, U64At(h, 64)))
  }

  predicate PayloadOk(r: Option<Range>) { r.Some? ==> FitsU64(r.value) && r.value.length > 0 }

  predicate RolesOk(s: Roles, maxMemory: nat, maxModules: nat) {
    && FitsU64(s.bootInfo) && s.bootInfo.length >= BOOT_INFO_SIZE
    && TableOk(s.memoryMap, maxMemory) && TableOk(s.modules, maxModules)
    && PayloadOk(s.commandLine) && PayloadOk(s.entropy) && PayloadOk(s.framebuffer) && s.rsdp % 8 == 0
  }

  lemma SaidFramebufferOk(present: bool, b: seq<Byte>, r: Option<Range>)
    requires |b| == 96 && FramebufferSays(present, b, r)
    ensures PayloadOk(r)
  {
    hide MasksBad, AllZero, Decode;
  }

  lemma SaidEntropyOk(b: seq<Byte>, r: Option<Range>)
    requires |b| == 64 && EntropySays(b, r)
    ensures PayloadOk(r)
  {
    hide AllZero, Decode;
  }

  lemma SaidRolesOk(h: seq<Byte>, start: nat, maxMemory: nat, maxModules: nat, s: Roles)
    requires |h| == BOOT_INFO_SIZE && HeaderSays(h, start, maxMemory, maxModules, s)
    ensures RolesOk(s, maxMemory, maxModules)
  {
    hide TableOk, FramebufferSays, EntropySays, AllZero, Decode;
    SaidFramebufferOk(U64At(h, 8) % 2 == 1, h[72..168], s.framebuffer);
    SaidEntropyOk(h[184..248], s.entropy);
  }

  /** The header bytes say at most one thing. */
  lemma OneSaying(h: seq<Byte>, start: nat, maxMemory: nat, maxModules: nat, a: Roles, b: Roles)
    requires |h| == BOOT_INFO_SIZE
    requires HeaderSays(h, start, maxMemory, maxModules, a) && HeaderSays(h, start, maxMemory, maxModules, b)
    ensures a == b
  {
    hide TableOk, FramebufferOk, EntropyOk, AllZero, U16At, U32At, U64At;
  }

  // ----- The whole intake -----

  datatype BootInfo = BootInfo(
    roles: Roles,
    records: seq<MemoryRecord>,
    modules: seq<Module>,
    paging: Paging,
    grants: seq<BootGrants.Grant>)

  /** What a validated handoff guarantees, in terms of the records alone. */
  ghost predicate Validated(info: BootInfo) {
    && RolesOk(info.roles, MAX_MEMORY_ENTRIES, MAX_MODULES)
    && |info.records| == info.roles.memoryMap.count && |info.modules| == info.roles.modules.count
    && (forall i :: 0 <= i < |info.records| ==> MemoryOk(info.records[i]))
    && (forall i :: 0 <= i < |info.modules| ==> ModuleOk(info.modules[i]))
    && Classified(info.modules) && ModulesApart(info.modules)
    && PagingOk(info.paging) && RsdpFits(info.roles)
    && (forall i :: 0 <= i < |info.paging.frames| ==> FramePlaced(info.paging.frames[i], info.roles, info.modules, info.records))
    && BootGrants.Minted(info.grants)
  }

  ghost predicate PagingOk(p: Paging) {
    && 12 <= p.width <= 52 && |p.required| == 4 && MIN_FRAMES <= |p.frames| <= MAX_FRAMES
    && FramesOk(p.frames, Pow2(p.width)) && RequiredOk(p.required, p.frames, Pow2(p.width))
  }

  lemma CarrierIsOk(memory: Memory, m: Module, p: Paging)
    requires CarrierIs(memory, m, p)
    ensures PagingOk(p)
  {
    hide ReadExact, FramesOk, RequiredOk, Pow2;
  }

  lemma {:induction false} Pow2Grows(a: nat, b: nat)
    requires a <= b
    ensures Pow2(a) <= Pow2(b)
  {
    if a < b { Pow2Grows(a, b - 1); }
  }

  lemma FramesFit(p: Paging)
    requires PagingOk(p)
    ensures forall i :: 0 <= i < |p.frames| ==> FitsU64(FrameRange(p.frames[i]))
  {
    hide Pow2, RequiredOk;
    Pow2Grows(p.width, 52);
    WidestLimit();
  }

  lemma WidestLimit()
    ensures Pow2(52) == 0x10_0000_0000_0000
  {
    assert Pow2(13) == 8192;
    assert Pow2(26) == 0x400_0000;
    assert Pow2(39) == 0x80_0000_0000;
  }

  /** The only paging module of the list carries `p`. */
  ghost predicate CarriedBy(memory: Memory, modules: seq<Module>, p: Paging) {
    exists k: nat :: OnlyOf(modules, KIND_PAGING, k) && CarrierIs(memory, modules[k], p)
  }

  /** Modules, carrier and frames all pass. */
  ghost predicate ContentsOk(memory: Memory, roles: Roles, records: seq<MemoryRecord>, modules: seq<Module>, p: Paging) {
    && Classified(modules) && ModulesApart(modules) && RsdpFits(roles) && CarriedBy(memory, modules, p)
    && forall i :: 0 <= i < |p.frames| ==> FramePlaced(p.frames[i], roles, modules, records)
  }

  lemma CarrierOnly(memory: Memory, modules: seq<Module>, k: nat)
    requires OnlyOf(modules, KIND_PAGING, k)
    ensures forall p :: CarriedBy(memory, modules, p) <==> CarrierIs(memory, modules[k], p)
  {
    hide CarrierIs;
  }

  /** The modules and the paging carrier, after both tables were read; it accepts exactly what is ContentsOk. */
  method CheckContents(memory: Memory, roles: Roles, records: seq<MemoryRecord>, modules: seq<Module>)
    returns (r: Result<(Paging, Option<nat>), BootError>)
    ensures r.Success? ==>
              && ContentsOk(memory, roles, records, modules, r.value.0) && PagingOk(r.value.0)
              && (r.value.1.Some? ==> OnlyOf(modules, KIND_DEVICE_TABLE, r.value.1.value))
              && (r.value.1.None? ==> NoneOf(modules, KIND_DEVICE_TABLE))
    ensures r.Failure? ==> forall p :: !ContentsOk(memory, roles, records, modules, p)
  {
    hide MemoryOk, Classified, ModulesApart, PagingOk, RsdpFits, FramePlaced, CarrierIs, CarriedBy;
    var found := Classify(modules);
    if found.Failure? {
      return Failure(found.error);
    }
    var apart := CheckModulePairs(modules);
    if !apart {
      return Failure(OverlappingModules);
    }
    var carrier := found.value.paging.value;
    var paging := ParsePagingHandoff(memory, modules[carrier]);
    CarrierOnly(memory, modules, carrier);
    if paging.Failure? {
      return Failure(paging.error);
    }
    CarrierIsOk(memory, modules[carrier], paging.value);
    OneCarrier(memory, modules[carrier], paging.value);
    var placed := CheckRoles(paging.value, roles, modules, records);
    if placed.Failure? {
      return Failure(placed.error);
    }
    r := Success((paging.value, found.value.device));
  }

  /** A module's bytes say at most one thing. */
  lemma OneCarrier(memory: Memory, m: Module, p: Paging)
    requires CarrierIs(memory, m, p)
    ensures forall q :: CarrierIs(memory, m, q) ==> q == p
  {
    forall q | CarrierIs(memory, m, q) ensures q == p {
      SameFrames(ReadExact(memory, m.start, m.length).value, q, p.frames);
    }
  }

  /** The handoff at `start` is readable, its header passes, and its tables and contents are these. */
  ghost predicate HandoffIs(memory: Memory, start: nat, maxMemory: nat, maxModules: nat,
                            roles: Roles, records: seq<MemoryRecord>, modules: seq<Module>, p: Paging) {
    && HeaderIs(memory, start, maxMemory, maxModules, roles)
    && MapIs(memory, roles.memoryMap, records) && ModulesAre(memory, roles.modules, modules)
    && ContentsOk(memory, roles, records, modules, p)
  }

  ghost predicate HeaderIs(memory: Memory, start: nat, maxMemory: nat, maxModules: nat, roles: Roles) {
    && maxMemory <= MAX_MEMORY_ENTRIES && maxModules <= MAX_MODULES
    && start != 0 && start % 8 == 0 && start + BOOT_INFO_SIZE <= U64_MAX
    && ReadExact(memory, start, BOOT_INFO_SIZE).Some?
    && HeaderSays(ReadExact(memory, start, BOOT_INFO_SIZE).value, start, maxMemory, maxModules, roles)
  }

  /** Nothing in memory at `start` is an acceptable handoff. */
  ghost predicate NoHandoff(memory: Memory, start: nat, maxMemory: nat, maxModules: nat) {
    forall roles, records, modules, p :: !HandoffIs(memory, start, maxMemory, maxModules, roles, records, modules, p)
  }

  /** The grants are those of the device table, or none when there is no such module. */
  ghost predicate GrantsFrom(memory: Memory, modules: seq<Module>, grants: seq<BootGrants.Grant>) {
    || (NoneOf(modules, KIND_DEVICE_TABLE) && grants == [])
    || exists k: nat :: OnlyOf(modules, KIND_DEVICE_TABLE, k) && TableOf(memory, modules[k], grants)
  }

  /** The grants carry, in order, the descriptors the module's table holds. */
  ghost predicate TableOf(memory: Memory, m: Module, grants: seq<BootGrants.Grant>) {
    exists ds: seq<BootGrants.Descriptor> ::
      && DeviceTable.Acceptable(memory, m.start, m.length, ds) && |grants| == |ds|
      && forall i :: 0 <= i < |ds| ==> grants[i].descriptor == ds[i]
  }

  /** The module's table is unacceptable, or needs more grant names than are left from `next` on. */
  ghost predicate TableRefused(memory: Memory, m: Module, next: nat) {
    forall ds :: DeviceTable.Acceptable(memory, m.start, m.length, ds) ==> next + |ds| > U64_MAX
  }

  /** Everything passes except the device table. */
  ghost predicate DeviceRefused(memory: Memory, start: nat, maxMemory: nat, maxModules: nat, next: nat) {
    exists roles, records, modules, p, k: nat ::
      && HandoffIs(memory, start, maxMemory, maxModules, roles, records, modules, p)
      && OnlyOf(modules, KIND_DEVICE_TABLE, k) && TableRefused(memory, modules[k], next)
  }

  /** Mints the grants of one device-table module. */
  method ParseDeviceModule(memory: Memory, m: Module, mint: BootGrants.GrantMint) returns (r: Result<seq<BootGrants.Grant>, BootError>)
    requires mint.Valid()
    modifies mint
    ensures mint.Valid()
    ensures r.Failure? ==> mint.next == old(mint.next) && mint.issued == old(mint.issued)
    ensures r.Failure? ==> r.error == InvalidDeviceTable && TableRefused(memory, m, old(mint.next))
    ensures r.Success? ==> BootGrants.Minted(r.value) && TableOf(memory, m, r.value) && !TableRefused(memory, m, old(mint.next))
    ensures r.Success? ==> BootGrants.Advanced(old(mint.next), old(mint.issued), mint.next, mint.issued, r.value)
  {
    hide DeviceTable.Acceptable;
    var parsed, ds := DeviceTable.ParseBootResourceGrants(memory, m.start, m.length, mint);
    if parsed.Failure? {
      if parsed.error == DeviceTable.GenerationsUsedUp {
        DeviceTable.OneAcceptable(memory, m.start, m.length, ds);
      }
      return Failure(InvalidDeviceTable);
    }
    r := Success(parsed.value);
  }

  method ReadHeader(memory: Memory, start: nat, maxMemory: nat, maxModules: nat) returns (r: Result<Roles, BootError>)
    ensures r.Success? ==> HeaderIs(memory, start, maxMemory, maxModules, r.value)
    ensures r.Success? ==> RolesOk(r.value, maxMemory, maxModules)
    ensures r.Failure? ==> forall roles :: !HeaderIs(memory, start, maxMemory, maxModules, roles)
  {
    hide RolesOk, ReadExact, HeaderSays;
    if maxMemory > MAX_MEMORY_ENTRIES || maxModules > MAX_MODULES {
      return Failure(EntryCountLimitExceeded);
    }
    if start == 0 {
      return Failure(EmptyRange);
    }
    var headerRange := CheckedRange(start, BOOT_INFO_SIZE, 8);
    if headerRange.Failure? {
      return Failure(headerRange.error);
    }
    var bytes := ReadExact(memory, start, BOOT_INFO_SIZE);
    if bytes.None? {
      return Failure(ReadFailed);
    }
    r := ParseHeader(bytes.value, start, maxMemory, maxModules);
    if r.Success? { SaidRolesOk(bytes.value, start, maxMemory, maxModules, r.value); }
  }

  /**
   Validates a handoff.  It accepts exactly the handoffs whose header, tables and
   contents pass and whose device table, if there is one, can be minted.  What it
   accepts is Validated, and a refusal mints no grant.
   */
  method ValidateBootInfo(memory: Memory, start: nat, maxMemory: nat, maxModules: nat, mint: BootGrants.GrantMint)
    returns (r: Result<BootInfo, BootError>)
    requires mint.Valid()
    modifies mint
    ensures mint.Valid()
    ensures r.Failure? ==> mint.next == old(mint.next) && mint.issued == old(mint.issued)
    ensures r.Success? ==> Validated(r.value)
    ensures r.Success? ==>
              HandoffIs(memory, start, maxMemory, maxModules, r.value.roles, r.value.records, r.value.modules, r.value.paging)
    ensures r.Success? ==> GrantsFrom(memory, r.value.modules, r.value.grants)
    ensures r.Success? ==> !DeviceRefused(memory, start, maxMemory, maxModules, old(mint.next))
    ensures r.Success? ==> BootGrants.Advanced(old(mint.next), old(mint.issued), mint.next, mint.issued, r.value.grants)
    ensures r.Failure? ==>
              || NoHandoff(memory, start, maxMemory, maxModules)
              || (r.error == InvalidDeviceTable && DeviceRefused(memory, start, maxMemory, maxModules, old(mint.next)))
  {
    hide RolesOk, PagingOk, RsdpFits, FramePlaced, MemoryOk, ModuleOk, BootGrants.Minted, HeaderIs, MapIs, ModulesAre,
         Classified, ModulesApart, CarriedBy, TableOf, TableRefused;
    var roles := ReadHeader(memory, start, maxMemory, maxModules);
    if roles.Failure? {
      return Failure(roles.error);
    }
    LimitsGrow(roles.value, maxMemory, maxModules, memory, start);
    OneHeader(memory, start, maxMemory, maxModules, roles.value);
    var records := ReadMemoryMap(memory, roles.value.memoryMap);
    if records.Failure? {
      return Failure(records.error);
    }
    forall other | MapIs(memory, roles.value.memoryMap, other) ensures other == records.value {
      OneMap(memory, roles.value.memoryMap, other, records.value);
    }
    var modules := ReadModules(memory, roles.value.modules);
    if modules.Failure? {
      return Failure(modules.error);
    }
    forall other | ModulesAre(memory, roles.value.modules, other) ensures other == modules.value {
      OneModuleList(memory, roles.value.modules, other, modules.value);
    }
    SnapshotSizes(memory, roles.value, records.value, modules.value);
    var contents := CheckContents(memory, roles.value, records.value, modules.value);
    if contents.Failure? {
      return Failure(contents.error);
    }
    NoGrants();
    var grants: seq<BootGrants.Grant> := [];
    if contents.value.1.Some? {
      var parsed := ParseDeviceModule(memory, modules.value[contents.value.1.value], mint);
      if parsed.Failure? {
        return Failure(parsed.error);
      }
      grants := parsed.value;
    }
    r := Success(BootInfo(roles.value, records.value, modules.value, contents.value.0, grants));
  }

  lemma SnapshotSizes(memory: Memory, roles: Roles, records: seq<MemoryRecord>, modules: seq<Module>)
    requires MapIs(memory, roles.memoryMap, records) && ModulesAre(memory, roles.modules, modules)
    ensures |records| == roles.memoryMap.count && |modules| == roles.modules.count
  {
  }

  lemma OneHeader(memory: Memory, start: nat, maxMemory: nat, maxModules: nat, roles: Roles)
    requires HeaderIs(memory, start, maxMemory, maxModules, roles)
    ensures forall other :: HeaderIs(memory, start, maxMemory, maxModules, other) ==> other == roles
  {
    hide HeaderSays, ReadExact;
    forall other | HeaderIs(memory, start, maxMemory, maxModules, other) ensures other == roles {
      OneSaying(ReadExact(memory, start, BOOT_INFO_SIZE).value, start, maxMemory, maxModules, other, roles);
    }
  }

  lemma NoGrants()
    ensures BootGrants.Minted([]) && forall next, issued :: BootGrants.Advanced(next, issued, next, issued, [])
  {
  }

  lemma LimitsGrow(s: Roles, maxMemory: nat, maxModules: nat, memory: Memory, start: nat)
    requires RolesOk(s, maxMemory, maxModules) && HeaderIs(memory, start, maxMemory, maxModules, s)
    ensures RolesOk(s, MAX_MEMORY_ENTRIES, MAX_MODULES)
  {
  }
}
