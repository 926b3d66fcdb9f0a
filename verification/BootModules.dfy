/**
 Module selection after validation, and what validation proves about the paging
 frames (kernel/src/boot/primordial.rs:94-170, kernel/src/boot/mod.rs:451-526).
 */
module BootModules {
  import opened Wrappers
  import opened Pages
  import opened BootRecords
  import opened BootPaging
  import opened BootIntake

  datatype ModuleError =
    | Missing
    | Duplicate
    | InvalidBootstrapFlags
    | InvalidBootfsFlags
    | InvalidModuleExtent
    | ModulePageOverlap

  datatype Primordial = Primordial(range: Range, rounded: nat)

  function PrimordialModule(m: Module): (r: Result<Primordial, ModuleError>)
    ensures r.Success? ==> r.value == Primordial(ModuleRange(m), RoundUp(m.length))
    ensures r.Failure? ==> r.error == InvalidModuleExtent
  {
    if m.start == 0 || m.length == 0 || m.start % PAGE_SIZE != 0 then Failure(InvalidModuleExtent)
    else
      match AlignUp(m.length)
      case None => Failure(InvalidModuleExtent)
      case Some(rounded) =>
        if m.start + rounded > U64_MAX then Failure(InvalidModuleExtent)
        else Success(Primordial(ModuleRange(m), rounded))
  }

  predicate PageOverlap(a: Primordial, b: Primordial) {
    a.range.start < b.range.start + b.rounded && b.range.start < a.range.start + a.rounded
  }

  /** The module's page-rounded extent is addressable and not at address zero. */
  predicate ExtentOk(m: Module) {
    m.start != 0 && m.start + RoundUp(m.length) <= U64_MAX && m.length + (PAGE_SIZE - 1) <= U64_MAX
  }

  lemma ExtentDecides(m: Module)
    requires ModuleOk(m)
    ensures PrimordialModule(m).Success? <==> ExtentOk(m)
  {
  }

  /** Page rounding of an aligned range never reaches into a range that starts on a page. */
  lemma RoundingStaysApart(a: Module, b: Module)
    requires ModuleOk(a) && ModuleOk(b) && Clear(ModuleRange(a), ModuleRange(b))
    ensures !PageOverlap(Primordial(ModuleRange(a), RoundUp(a.length)), Primordial(ModuleRange(b), RoundUp(b.length)))
  {
    if a.start + a.length <= b.start {
      RoundUpShift(a.start, a.length);
      RoundUpLeast(a.start + a.length, b.start);
    } else {
      RoundUpShift(b.start, b.length);
      RoundUpLeast(b.start + b.length, a.start);
    }
  }

  /** The first `n` modules hold at most one of each selected kind, and all those have usable extents. */
  ghost predicate Taken(modules: seq<Module>, n: nat, kind: nat, found: Option<Primordial>)
    requires n <= |modules|
  {
    match found
    case None => forall i :: 0 <= i < n ==> modules[i].kind != kind
    case Some(p) =>
      exists k :: 0 <= k < n && modules[k].kind == kind && ExtentOk(modules[k])
                  && p == Primordial(ModuleRange(modules[k]), RoundUp(modules[k].length))
  }

  /** Bootstrap and bootfs of this list have usable extents. */
  ghost predicate ExtentsOk(modules: seq<Module>) {
    forall i :: 0 <= i < |modules| && modules[i].kind in {KIND_BOOTSTRAP, KIND_BOOTFS} ==> ExtentOk(modules[i])
  }

  /** The module list of a validated handoff. */
  ghost predicate ListOk(modules: seq<Module>) {
    Classified(modules) && ModulesApart(modules) && forall i :: 0 <= i < |modules| ==> ModuleOk(modules[i])
  }

  /** A second module of a selected kind cannot occur in a validated list. */
  lemma NoSecond(modules: seq<Module>, kind: nat, i: nat, k: nat)
    requires Classified(modules) && kind in {KIND_BOOTSTRAP, KIND_BOOTFS}
    requires i < |modules| && k < |modules| && modules[i].kind == kind && modules[k].kind == kind
    ensures i == k
  {
    assert ExactlyOne(modules, kind);
    var o :| OnlyOf(modules, kind, o);
  }

  lemma TakenNext(modules: seq<Module>, n: nat, kind: nat, found: Option<Primordial>)
    requires n < |modules| && Taken(modules, n, kind, found) && modules[n].kind != kind
    ensures Taken(modules, n + 1, kind, found)
  {
  }

  lemma TakenHere(modules: seq<Module>, n: nat, kind: nat, found: Option<Primordial>)
    requires ListOk(modules) && n < |modules| && Taken(modules, n, kind, found)
    requires modules[n].kind == kind && kind in {KIND_BOOTSTRAP, KIND_BOOTFS}
    ensures found.None?
    ensures ExtentOk(modules[n]) ==> Taken(modules, n + 1, kind, Some(Primordial(ModuleRange(modules[n]), RoundUp(modules[n].length))))
  {
    if found.Some? {
      var k :| 0 <= k < n && modules[k].kind == kind;
      NoSecond(modules, kind, n, k);
    }
  }

  lemma TakenAll(modules: seq<Module>, kind: nat, found: Option<Primordial>)
    requires Classified(modules) && Taken(modules, |modules|, kind, found) && kind in {KIND_BOOTSTRAP, KIND_BOOTFS}
    ensures found.Some?
  {
    assert ExactlyOne(modules, kind);
    var o :| OnlyOf(modules, kind, o);
  }

  lemma FoundApart(modules: seq<Module>, a: Primordial, b: Primordial)
    requires ListOk(modules)
    requires Taken(modules, |modules|, KIND_BOOTSTRAP, Some(a)) && Taken(modules, |modules|, KIND_BOOTFS, Some(b))
    ensures !PageOverlap(a, b)
  {
    var i :| 0 <= i < |modules| && modules[i].kind == KIND_BOOTSTRAP && a == Primordial(ModuleRange(modules[i]), RoundUp(modules[i].length));
    var j :| 0 <= j < |modules| && modules[j].kind == KIND_BOOTFS && b == Primordial(ModuleRange(modules[j]), RoundUp(modules[j].length));
    hide Classified, RoundUp;
    if i < j {
      RoundingStaysApart(modules[i], modules[j]);
    } else {
      RoundingStaysApart(modules[j], modules[i]);
    }
  }

  /**
   Selects the bootstrap and bootfs modules.  On a validated list only a page-rounded
   extent that starts at zero or runs past the address space makes it fail: flags,
   duplicates, absence and page overlap are already ruled out.
   */
  method Select(modules: seq<Module>) returns (r: Result<(Primordial, Primordial), ModuleError>)
    ensures ListOk(modules) ==> (r.Success? <==> ExtentsOk(modules))
    ensures ListOk(modules) && r.Failure? ==> r.error == InvalidModuleExtent
    ensures ListOk(modules) && r.Success? ==>
              && Taken(modules, |modules|, KIND_BOOTSTRAP, Some(r.value.0)) && Taken(modules, |modules|, KIND_BOOTFS, Some(r.value.1))
              && !PageOverlap(r.value.0, r.value.1)
  {
    hide Classified, ModulesApart, Taken, ExtentOk, PageOverlap, RoundUp, ModuleOk;
    var bootstrap, bootfs: Option<Primordial> := None, None;
    NothingTaken(modules);
    var i := 0;
    while i < |modules|
      invariant i <= |modules|
      invariant ListOk(modules) ==> Taken(modules, i, KIND_BOOTSTRAP, bootstrap) && Taken(modules, i, KIND_BOOTFS, bootfs)
      invariant ListOk(modules) ==>
                  forall j :: 0 <= j < i && modules[j].kind in {KIND_BOOTSTRAP, KIND_BOOTFS} ==> ExtentOk(modules[j])
    {
      var m := modules[i];
      if ListOk(modules) { OneTurn(modules, i, bootstrap, bootfs); }
      if m.kind == KIND_BOOTSTRAP {
        if m.flags != 0 {
          return Failure(InvalidBootstrapFlags);
        }
        var p := PrimordialModule(m);
        if p.Failure? {
          return Failure(p.error);
        }
        if bootstrap.Some? {
          return Failure(Duplicate);
        }
        bootstrap := Some(p.value);
      } else if m.kind == KIND_BOOTFS {
        if m.flags != FLAG_READ_ONLY {
          return Failure(InvalidBootfsFlags);
        }
        var p := PrimordialModule(m);
        if p.Failure? {
          return Failure(p.error);
        }
        if bootfs.Some? {
          return Failure(Duplicate);
        }
        bootfs := Some(p.value);
      }
      i := i + 1;
    }
    if ListOk(modules) {
      TakenAll(modules, KIND_BOOTSTRAP, bootstrap);
      TakenAll(modules, KIND_BOOTFS, bootfs);
    }
    if bootstrap.None? || bootfs.None? {
      return Failure(Missing);
    }
    if ListOk(modules) { FoundApart(modules, bootstrap.value, bootfs.value); }
    if PageOverlap(bootstrap.value, bootfs.value) {
      return Failure(ModulePageOverlap);
    }
    r := Success((bootstrap.value, bootfs.value));
  }

  lemma NothingTaken(modules: seq<Module>)
    ensures Taken(modules, 0, KIND_BOOTSTRAP, None) && Taken(modules, 0, KIND_BOOTFS, None)
  {
  }

  /** What one turn of the selection loop may rely on in a validated list. */
  lemma OneTurn(modules: seq<Module>, i: nat, bootstrap: Option<Primordial>, bootfs: Option<Primordial>)
    requires ListOk(modules) && i < |modules| && Taken(modules, i, KIND_BOOTSTRAP, bootstrap) && Taken(modules, i, KIND_BOOTFS, bootfs)
    ensures modules[i].kind == KIND_BOOTSTRAP ==>
              && modules[i].flags == 0 && bootstrap.None? && Taken(modules, i + 1, KIND_BOOTFS, bootfs)
              && (ExtentOk(modules[i]) ==>
                    Taken(modules, i + 1, KIND_BOOTSTRAP, Some(Primordial(ModuleRange(modules[i]), RoundUp(modules[i].length)))))
    ensures modules[i].kind == KIND_BOOTFS ==>
              && modules[i].flags == FLAG_READ_ONLY && bootfs.None? && Taken(modules, i + 1, KIND_BOOTSTRAP, bootstrap)
              && (ExtentOk(modules[i]) ==>
                    Taken(modules, i + 1, KIND_BOOTFS, Some(Primordial(ModuleRange(modules[i]), RoundUp(modules[i].length)))))
    ensures modules[i].kind !in {KIND_BOOTSTRAP, KIND_BOOTFS} ==>
              Taken(modules, i + 1, KIND_BOOTSTRAP, bootstrap) && Taken(modules, i + 1, KIND_BOOTFS, bootfs)
    ensures PrimordialModule(modules[i]).Success? <==> ExtentOk(modules[i])
  {
    ExtentDecides(modules[i]);
    assert FlagsOk(modules[i]);
    hide Taken, ExtentOk, RoundUp, PrimordialModule;
    if modules[i].kind == KIND_BOOTSTRAP {
      TakenHere(modules, i, KIND_BOOTSTRAP, bootstrap);
      TakenNext(modules, i, KIND_BOOTFS, bootfs);
    } else if modules[i].kind == KIND_BOOTFS {
      TakenHere(modules, i, KIND_BOOTFS, bootfs);
      TakenNext(modules, i, KIND_BOOTSTRAP, bootstrap);
    } else {
      TakenNext(modules, i, KIND_BOOTFS, bootfs);
      TakenNext(modules, i, KIND_BOOTSTRAP, bootstrap);
    }
  }

  /** The result is the range of a module of this kind, with its length rounded up to whole pages. */
  ghost predicate IsModule(modules: seq<Module>, kind: nat, p: Primordial) {
    exists k :: 0 <= k < |modules| && modules[k].kind == kind && p.range == Range(modules[k].start, modules[k].length)
                && p.rounded % 4096 == 0 && modules[k].length <= p.rounded < modules[k].length + 4096
  }

  lemma TakenIsModule(modules: seq<Module>, kind: nat, p: Primordial)
    requires Taken(modules, |modules|, kind, Some(p))
    ensures IsModule(modules, kind, p)
  {
    hide ExtentOk;
  }

  lemma ValidatedList(info: BootInfo)
    requires Validated(info)
    ensures ListOk(info.modules)
  {
    hide RolesOk, PagingOk, FramePlaced, Classified, ModulesApart, MemoryOk, ModuleOk;
  }

  /**
   Validation implies selection: from a validated handoff the selection succeeds
   exactly when both modules have usable page-rounded extents, and can fail with
   nothing but an invalid extent.
   */
  method PrimordialModules(info: BootInfo) returns (r: Result<(Primordial, Primordial), ModuleError>)
    requires Validated(info)
    ensures r.Success? <==> ExtentsOk(info.modules)
    ensures r.Failure? ==> r.error == InvalidModuleExtent
    ensures r.Success? ==> !PageOverlap(r.value.0, r.value.1)
    ensures r.Success? ==> IsModule(info.modules, 1, r.value.0) && IsModule(info.modules, 2, r.value.1)
  {
    hide Validated, ListOk, ExtentsOk, Taken, PageOverlap;
    ValidatedList(info);
    r := Select(info.modules);
    if r.Success? {
      TakenIsModule(info.modules, KIND_BOOTSTRAP, r.value.0);
      TakenIsModule(info.modules, KIND_BOOTFS, r.value.1);
    }
  }

  // ----- Paging frames -----

  /** The frame list is globally ascending and holds four distinct required frames, all whole frames under the limit. */
  lemma FramesListed(info: BootInfo, i: nat, j: nat)
    requires Validated(info) && i < |info.paging.frames|
    ensures j < |info.paging.frames| && i < j ==> info.paging.frames[i] < info.paging.frames[j]
    ensures info.paging.frames[i] > 0 && info.paging.frames[i] % PAGE_SIZE == 0
    ensures info.paging.frames[i] + PAGE_SIZE <= Pow2(info.paging.width)
    ensures |info.paging.required| == 4
    ensures forall a, b :: 0 <= a < b < 4 ==> info.paging.required[a] != info.paging.required[b]
    ensures forall a :: 0 <= a < 4 ==> info.paging.required[a] in info.paging.frames
  {
    hide RolesOk, FramePlaced, Classified, ModulesApart, MemoryOk, ModuleOk, Pow2;
    assert FrameOk(info.paging.frames[i], Pow2(info.paging.width));
    FrameUnderLimit(info.paging.frames[i], info.paging.width);
  }

  lemma FramePlacedAt(info: BootInfo, i: nat)
    requires Validated(info) && i < |info.paging.frames|
    ensures FramePlaced(info.paging.frames[i], info.roles, info.modules, info.records)
    ensures FitsU64(FrameRange(info.paging.frames[i]))
  {
    hide RolesOk, FramePlaced, Classified, ModulesApart, MemoryOk, ModuleOk, PagingOk, FitsU64;
    FramesFit(info.paging);
  }

  /** Exactly one memory record touches the frame, byte for byte; it is RESERVED and holds the whole frame. */
  lemma FrameHasOneOwner(info: BootInfo, i: nat) returns (k: nat)
    requires Validated(info) && i < |info.paging.frames|
    ensures k < |info.records| && info.records[k].kind == KIND_RESERVED_MEMORY
    ensures var frame := FrameRange(info.paging.frames[i]);
            && (forall a: nat :: InRange(frame, a) ==> InRange(MemoryRange(info.records[k]), a))
            && (forall j :: 0 <= j < |info.records| && j != k ==> Disjoint(frame, MemoryRange(info.records[j])))
  {
    hide RolesOk, RolesClear, Classified, ModulesApart, ModuleOk, PagingOk;
    FramePlacedAt(info, i);
    var frame := FrameRange(info.paging.frames[i]);
    k :| OnlyOwner(info.records, frame, k);
    forall j | 0 <= j < |info.records| && j != k ensures Disjoint(frame, MemoryRange(info.records[j])) {
      assert !Meets(info.records[j], frame);
      ClearIsDisjoint(frame, MemoryRange(info.records[j]));
    }
  }

  /** The frame shares no byte with anything else the handoff describes. */
  lemma FrameAvoidsRoles(info: BootInfo, i: nat)
    requires Validated(info) && i < |info.paging.frames|
    ensures var frame, s := FrameRange(info.paging.frames[i]), info.roles;
            && Disjoint(frame, s.bootInfo) && Disjoint(frame, TableRange(s.memoryMap)) && Disjoint(frame, TableRange(s.modules))
            && (s.commandLine.Some? ==> Disjoint(frame, s.commandLine.value))
            && (s.entropy.Some? ==> Disjoint(frame, s.entropy.value))
            && (s.framebuffer.Some? ==> Disjoint(frame, s.framebuffer.value))
            && (s.rsdp != 0 ==> Disjoint(frame, RsdpRange(s.rsdp)))
            && (forall j :: 0 <= j < |info.modules| ==> Disjoint(frame, ModuleRange(info.modules[j])))
  {
    hide Classified, ModulesApart, PagingOk, Covered, Disjoint;
    FramePlacedAt(info, i);
    var frame, s := FrameRange(info.paging.frames[i]), info.roles;
    ClearIsDisjoint(frame, s.bootInfo);
    ClearIsDisjoint(frame, TableRange(s.memoryMap));
    ClearIsDisjoint(frame, TableRange(s.modules));
    if s.commandLine.Some? { ClearIsDisjoint(frame, s.commandLine.value); }
    if s.entropy.Some? { ClearIsDisjoint(frame, s.entropy.value); }
    if s.framebuffer.Some? { ClearIsDisjoint(frame, s.framebuffer.value); }
    if s.rsdp != 0 { ClearIsDisjoint(frame, RsdpRange(s.rsdp)); }
    forall j | 0 <= j < |info.modules| ensures Disjoint(frame, ModuleRange(info.modules[j])) {
      assert ModuleOk(info.modules[j]);
      ClearIsDisjoint(frame, ModuleRange(info.modules[j]));
    }
  }
}
