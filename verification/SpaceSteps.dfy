/** The memory part of the system calls, one address space at a time, in the terms of the whole
    kernel: what each call holds on to, and which spaces it is confined to. */
module SpaceSteps {
  import opened Address
  import opened Frames
  import opened FrameAllocator
  import opened PageTables
  import opened UserAccess
  import opened Areas
  import opened Layout
  import opened MemorySets
  import opened Fork
  import opened Loader
  import opened Pids
  import opened MemorySyscalls
  import opened Isolation
  import opened Worlds
  import opened Traps
  import Tasks

  ghost function Of(sp: MemorySet): Space
    reads sp, sp.pt
  {
    Space(sp.pt.id, sp.pt.tables, sp.pt.frames, sp.areas)
  }

  ghost predicate Rooted(sp: MemorySet)
    reads sp.pt
  {
    Root in sp.pt.tables && sp.pt.root == sp.pt.tables[Root]
  }

  lemma {:induction false} ToLive(sp: MemorySet)
    requires sp.pt.m.Valid() && sp.trampoline < sp.pt.m.base && Rooted(sp)
    requires LiveSpace(Of(sp), sp.pt.m.S(), TrampolineEntry(sp.trampoline))
    ensures sp.Live()
  {
    hide Tree, View, Holds, OwnsPages, Machine.Valid, Agrees, Pages, TrampolineEntry;
  }

  lemma {:induction false} FromLive(sp: MemorySet)
    requires sp.Live()
    ensures Rooted(sp) && LiveSpace(Of(sp), sp.pt.m.S(), TrampolineEntry(sp.trampoline))
    ensures sp.pt.m.Valid() && sp.Budget() == sp.pt.m.Free() + Holding(Of(sp))
  {
    hide View, Holds, OwnsPages, Machine.Valid, Agrees, Pages, TrampolineEntry;
    RootThere(sp.pt.id, sp.pt.m.S(), sp.pt.tables);
  }

  lemma {:induction false} LiveBase(sp: MemorySet)
    requires sp.Live()
    ensures sp.trampoline < sp.pt.m.base
  {
  }

  lemma {:induction false} LiveIsHeld(sp: MemorySet)
    requires sp.Live()
    ensures sp.Held()
  {
    hide PageTable.Valid, OwnsPages, Entries;
  }

  lemma {:induction false} FromDead(sp: MemorySet)
    requires sp.Held() && sp.areas == [] && OwnsPages(sp.pt.id, sp.pt.m.owner, map[])
    ensures Rooted(sp) && DeadSpace(Of(sp), sp.pt.m.S())
    ensures sp.pt.m.Valid() && Holding(Of(sp)) == |sp.pt.tables| && sp.Budget() == sp.pt.m.Free() + Holding(Of(sp))
  {
    hide View, Holds, OwnsPages, Machine.Valid;
    RootThere(sp.pt.id, sp.pt.m.S(), sp.pt.tables);
  }

  lemma {:induction false} ToHeld(sp: MemorySet)
    requires sp.pt.m.Valid() && Rooted(sp) && DeadSpace(Of(sp), sp.pt.m.S())
    ensures sp.Held() && sp.Budget() == sp.pt.m.Free() + Holding(Of(sp))
  {
    hide Tree, View, Holds, OwnsPages, Machine.Valid;
  }

  lemma {:induction false} DeadHolding(p: Space, s: Store)
    requires DeadSpace(p, s)
    ensures p.areas == [] && Holding(p) == |p.tables|
  {
  }

  // A space across a step confined to other spaces.
  lemma {:induction false} Survives(sp: MemorySet, ids: set<nat>, s: Store)
    requires sp.pt.id !in ids && sp.pt.m.Valid() && sp.trampoline < sp.pt.m.base && Rooted(sp)
    requires Confined(ids, s, sp.pt.m.S()) && LiveSpace(Of(sp), s, TrampolineEntry(sp.trampoline))
    ensures sp.Live()
  {
    hide Machine.Valid, Confined, LiveSpace, MemorySet.Live, TrampolineEntry;
    KeepLive(ids, Of(sp), s, sp.pt.m.S(), TrampolineEntry(sp.trampoline));
    ToLive(sp);
  }

  // The areas from_elf builds: the segments with their bytes, then stack, heap and trap context.
  ghost predicate Program(areas: seq<MapArea>, segs: seq<Segment>, mem: Memory) {
    var n := |segs|;
    |areas| == n + 3 && AllLoaded(areas[..n], segs, mem) && UserTail(areas[n], areas[n + 1], areas[n + 2], MaxEnd(segs))
  }

  // The program is loaded and its trap context makes it start at its entry point.
  ghost predicate Started(areas: seq<MapArea>, segs: seq<Segment>, mem: Memory, init: TrapInit, kernelSp: nat) {
    && Program(areas, segs, mem) && init.AppStart?
    && TRAP_VPN in areas[|segs| + 2].data && HoldsContext(At(mem, areas[|segs| + 2].data[TRAP_VPN]), init, kernelSp)
  }

  ghost predicate HoldsContext(page: Page, init: TrapInit, kernelSp: nat)
    requires init.AppStart?
  {
    && StartsAt(page, init.entry, init.sp, init.satp, kernelSp, init.handler)
    && UserBits(init.status, Word(page, 32))
  }

  // A loaded program has its trap page, and no segment lies over it.
  lemma {:induction false} TrapMapped(p: Space, segs: seq<Segment>, s: Store, tramp: nat)
    requires Program(p.areas, segs, s.mem) && LiveSpace(p, s, tramp)
    ensures TRAP_VPN in View(s.mem, p.tables) && TRAP_VPN in p.areas[|segs| + 2].data
    ensures forall i :: 0 <= i < |segs| ==> TRAP_VPN !in p.areas[i].data
  {
    hide OwnsPages, Pages, Agrees, Tree, View, Holds, Entries, AllLoaded, Entry;
    AgreesOk(View(s.mem, p.tables), p.areas, tramp);
    AreaInView(View(s.mem, p.tables), p.areas, tramp, |segs| + 2);
    forall i | 0 <= i < |segs| ensures TRAP_VPN !in p.areas[i].data {
      assert Apart(p.areas[i], p.areas[|segs| + 2]) && AreaOk(p.areas[i]);
    }
  }

  // The loaded program after the stores into its trap context.
  lemma {:induction false} ProgramKept(p: Space, segs: seq<Segment>, s1: Store, s2: Store, tramp: nat, init: TrapInit,
                                       kernelSp: nat)
    requires Program(p.areas, segs, s1.mem) && OnlyTrap(p.id, s1, s2, init, kernelSp) && LiveSpace(p, s1, tramp)
    requires init.AppStart?
    ensures Started(p.areas, segs, s2.mem, init, kernelSp)
  {
    hide OwnsPages, Pages, Agrees, Disjoint, AllOk, Tree, View, Holds, UserTail, Overlay, ZeroPage, Word, StartsAt,
         UserBits;
    TrapMapped(p, segs, s1, tramp);
    AgreesOk(View(s1.mem, p.tables), p.areas, tramp);
    forall i | 0 <= i < |segs| ensures Loaded(p.areas[..|segs|][i], segs[i], s2.mem) {
      assert Loaded(p.areas[..|segs|][i], segs[i], s1.mem);
      AreaFrames(p.id, s1.owner, p.areas, i);
    }
    AreaFrames(p.id, s1.owner, p.areas, |segs| + 2);
    assert p.areas[|segs| + 2].data[TRAP_VPN] in s1.owner;
  }

  // The memory part of exec: load the program into a new space, then drop the old one.
  method Reload(sp: MemorySet, ghost id: nat, segs: seq<Segment>) returns (o: Outcome, ns: MemorySet)
    requires sp.pt.id != id && (forall f :: f in sp.pt.m.owner ==> sp.pt.m.owner[f].id != id) && sp.Live()
    modifies sp, sp.pt.m
    ensures o.Fine? ==> fresh(ns) && fresh(ns.pt) && ns.pt.m == sp.pt.m && ns.pt.id == id
    ensures o.Fine? ==> ns.trampoline == sp.trampoline
    ensures o.Fine? ==> ns.Live() && AllFramed(ns.areas)
    ensures o.Fine? ==> sp.pt.m.Free() + Holding(Of(ns)) == old(sp.pt.m.Free() + Holding(Of(sp)))
    ensures o.Fine? ==> Confined({sp.pt.id, id}, old(sp.pt.m.S()), sp.pt.m.S())
    ensures o.Fine? ==> forall f :: f in sp.pt.m.owner ==> sp.pt.m.owner[f].id != sp.pt.id
    ensures o.Fine? ==> Program(ns.areas, segs, sp.pt.m.mem)
    ensures GoodLayout(segs) ==> o in {Fine, OutOfFrames}
    ensures o.OutOfFrames? ==> old(sp.pt.m.Free()) < ProgramFrames(segs)
    ensures o.Fine? ==> old(sp.pt.m.Free()) >= ProgramFrames(segs)
  {
    hide Machine.Valid, Machine.Free, MemorySet.Held, MemorySet.Budget, PageTable.Valid, AllFramed, Confined, Extended,
         Released, LiveSpace, Holding, TrampolineEntry, GoodLayout, AllLoaded, UserTail, MaxEnd, Loader.StackTop,
         Agrees, OwnsPages, Pages, ProgramFrames;
    var m := sp.pt.m;
    FromLive(sp);
    ghost var s0 := m.S();
    var r, userSp;
    o, r, userSp := FromElf(m, id, sp.trampoline, segs);
    ns := sp;
    if !o.Fine? { return; }
    ns := r.value;
    ghost var s1 := m.S();
    ExtendedConfines(id, s0, s1);
    FromLive(ns);
    Survives(sp, {id}, s0);
    LiveIsHeld(sp);
    FromLive(sp);
    sp.Drop();
    ReleasedConfines(sp.pt.id, s1, m.S());
    ConfinedTransitive({id}, {sp.pt.id}, s0, s1, m.S());
    assert {id} + {sp.pt.id} == {sp.pt.id, id};
    Survives(ns, {sp.pt.id}, s1);
    FromLive(ns);
  }

  // exec: the program in a new space in place of the old one, and the trap context it starts from.
  method Restart(sp: MemorySet, ghost id: nat, segs: seq<Segment>, i: TrapInit, kernelSp: nat)
      returns (o: Outcome, ns: MemorySet)
    requires sp.pt.id != id && (forall f :: f in sp.pt.m.owner ==> sp.pt.m.owner[f].id != id) && sp.Live()
    requires i.AppStart? && Words(i) && kernelSp < WORD
    modifies sp, sp.pt.m
    ensures o.Fine? ==> fresh(ns) && fresh(ns.pt) && ns.pt.m == sp.pt.m && ns.pt.id == id
    ensures o.Fine? ==> ns.trampoline == sp.trampoline
    ensures o.Fine? ==> ns.Live() && AllFramed(ns.areas)
    ensures o.Fine? ==> sp.pt.m.Free() + Holding(Of(ns)) == old(sp.pt.m.Free() + Holding(Of(sp)))
    ensures o.Fine? ==> Confined({sp.pt.id, id}, old(sp.pt.m.S()), sp.pt.m.S())
    ensures o.Fine? ==> forall f :: f in sp.pt.m.owner ==> sp.pt.m.owner[f].id != sp.pt.id
    ensures o.Fine? ==> Started(ns.areas, segs, sp.pt.m.mem, i, kernelSp)
    ensures GoodLayout(segs) ==> o in {Fine, OutOfFrames}
    ensures o.OutOfFrames? ==> old(sp.pt.m.Free()) < ProgramFrames(segs)
    ensures o.Fine? ==> old(sp.pt.m.Free()) >= ProgramFrames(segs)
  {
    hide Machine.Valid, Machine.Free, MemorySet.Live, AllFramed, Confined, LiveSpace, Holding, TrampolineEntry,
         GoodLayout, Program, Started, OnlyTrap, Words, View, ProgramFrames;
    o, ns := Reload(sp, id, segs);
    if !o.Fine? { return; }
    FromLive(ns);
    ghost var s1 := sp.pt.m.S();
    TrapMapped(Of(ns), segs, s1, TrampolineEntry(ns.trampoline));
    assert TRAP_VPN in ns.pt.Map();
    o := WriteTrap(ns, i, kernelSp);
    ProgramKept(Of(ns), segs, s1, sp.pt.m.S(), TrampolineEntry(ns.trampoline), i, kernelSp);
    ConfinedTransitive({sp.pt.id, id}, {id}, old(sp.pt.m.S()), s1, sp.pt.m.S());
    assert {sp.pt.id, id} + {id} == {sp.pt.id, id};
  }

  lemma {:induction false} SomeConfined(less: bool, id: nat, s: Store, s': Store)
    requires if less then Released(id, s, s') else Extended(id, s, s')
    ensures Confined({id}, s, s')
  {
    hide Released, Extended, Confined;
    if less { ReleasedConfines(id, s, s'); } else { ExtendedConfines(id, s, s'); }
  }

  lemma {:induction false} KeptFramed(areas: seq<MapArea>, s: nat, e: nat)
    requires AllFramed(areas)
    ensures AllFramed(Kept(areas, s, e))
  {
    if areas != [] { KeptFramed(areas[..|areas| - 1], s, e); }
  }

  lemma {:induction false} ResizedFramed(xs: seq<MapArea>, ys: seq<MapArea>, heapBottom: nat, brk: nat,
                                         view: map<nat, nat>, view': map<nat, nat>)
    requires AllFramed(xs) && (xs == ys || Resized(xs, ys, heapBottom, brk, view, view'))
    ensures AllFramed(ys)
  {
    hide First;
  }

  lemma {:induction false} MappedFramed(xs: seq<MapArea>, ys: seq<MapArea>, lo: nat, hi: nat, perm: Perm, mem: Memory)
    requires AllFramed(xs)
    ensures Mapped39(xs, ys, lo, hi, perm, mem) ==> AllFramed(ys)
  {
    if Mapped39(xs, ys, lo, hi, perm, mem) {
      forall i | 0 <= i < |ys| ensures ys[i].kind.Framed? { if i < |xs| { assert ys[i] == ys[..|xs|][i]; } }
    }
  }

  // change_program_brk on a user space, in the terms of the whole kernel.
  method Rebreak(sp: MemorySet, heapBottom: nat, brk: nat, size: int) returns (o: Outcome, r: Option<nat>, newBrk: nat)
    requires heapBottom < BRK_LIMIT && brk < BRK_LIMIT && -0x8000_0000 <= size < 0x8000_0000 && AllFramed(sp.areas)
    requires sp.Live()
    modifies sp, sp.pt, sp.pt.m
    ensures o in {Fine, OutOfFrames, MappedBefore, ReversedRange}
    ensures o.Fine? ==> sp.Live() && AllFramed(sp.areas) && sp.Budget() == old(sp.Budget())
    ensures o.Fine? ==> Confined({sp.pt.id}, old(sp.pt.m.S()), sp.pt.m.S())
    ensures o.Fine? && size < 0 ==> Released(sp.pt.id, old(sp.pt.m.S()), sp.pt.m.S())
    ensures o.Fine? && size >= 0 ==> Extended(sp.pt.id, old(sp.pt.m.S()), sp.pt.m.S())
    ensures r.Some? ==> o.Fine? && r.value == brk && newBrk == brk + size < BRK_LIMIT
    ensures r.Some? ==> Resized(old(sp.areas), sp.areas, heapBottom, newBrk, old(sp.pt.Map()), sp.pt.Map())
    ensures r.Some? ==> NewZeros(old(sp.areas), sp.areas, heapBottom, sp.pt.m.mem)
    ensures BrkOutcome(o, size, brk + size, old(sp.pt.m.Free()), old(sp.pt.tables).Keys, old(sp.pt.Map()),
                       old(sp.areas), heapBottom)
    ensures o.Fine? && r.None? ==> sp.areas == old(sp.areas) && sp.pt.m.S() == old(sp.pt.m.S()) && newBrk == brk
    ensures o.Fine? && r.None? ==> sp.pt.Map() == old(sp.pt.Map()) && Of(sp) == old(Of(sp))
    ensures o.Fine? ==> (r.None? <==> brk + size < heapBottom || First(old(sp.areas), Floor(heapBottom)).None?)
    ensures HeapOk(old(sp.areas), heapBottom, brk) ==> !o.ReversedRange?
    ensures HeapOk(old(sp.areas), heapBottom, brk) ==> (o.Fine? ==> HeapOk(sp.areas, heapBottom, newBrk))
  {
    hide MemorySet.Live, MemorySet.Budget, AllFramed, Confined, Extended, Released, Resized, HeapOk, First, Floor, Ceil,
         BrkOutcome, NewZeros;
    o, r, newBrk := ChangeProgramBrk(sp, heapBottom, brk, size);
    if o.Fine? {
      SomeConfined(size < 0, sp.pt.id, old(sp.pt.m.S()), sp.pt.m.S());
      ResizedFramed(old(sp.areas), sp.areas, heapBottom, newBrk, old(sp.pt.Map()), sp.pt.Map());
    }
  }

  // A page user code may store to: the hardware takes its entry, and W and U are set.
  ghost predicate Writable(view: map<nat, nat>, v: nat) {
    v in view && Usable(view[v]) && Has(FlagsOf(view[v]), W) && Has(FlagsOf(view[v]), U)
  }

  // The memory after a store of b to address va of a space with this mapping.
  ghost function Poked(mem: Memory, view: map<nat, nat>, va: nat, b: Byte): Memory {
    if Floor(va) !in view then mem else var f := PpnOf(view[Floor(va)]); mem[f := At(mem, f)[Offset(va) := b]]
  }

  lemma {:induction false} TrampolineReadOnly(ppn: nat)
    ensures !Has(FlagsOf(TrampolineEntry(ppn)), W)
  {
    PteFlags(ppn, WithV(R + X));
  }

  lemma {:induction false} FloorBound(va: nat)
    requires va < VA_SPACE
    ensures Floor(va) < VPNS
  {
  }

  lemma {:induction false} WalkMappedOr(id: nat, s: Store, t: Tables, v: nat)
    requires Tree(id, s, t) && v < VPNS
    ensures Root in t
    ensures v in View(s.mem, t) <==> Walk(s.mem, t[Root], v).Some? && IsValid(Walk(s.mem, t[Root], v).value)
    ensures v in View(s.mem, t) ==> Walk(s.mem, t[Root], v) == Some(View(s.mem, t)[v])
  {
    hide Tree, View, Walk, LeafWord, IsValid;
    InSpace(v);
    RootThere(id, s, t);
    WalkFindsLeaf(id, s, t, v);
    LeafInView(s.mem, t, v);
  }

  lemma {:induction false} OwnWrite(id: nat, s: Store, f: nat, page: Page)
    requires f in s.owner && s.owner[f].id == id
    ensures Confined({id}, s, Store(s.mem[f := page], s.owner))
  {
  }

  // A store of user code through the space: it goes through exactly on writable user pages, and
  // then lands in the frame of the hardware's walk, which only this page of this space holds.
  method StoreByte(sp: MemorySet, va: nat, b: Byte) returns (ok: bool)
    requires va < VA_SPACE && AllFramed(sp.areas) && sp.Live()
    modifies sp.pt.m`mem
    ensures sp.Live() && sp.pt.Map() == old(sp.pt.Map()) && (ok <==> Writable(sp.pt.Map(), Floor(va)))
    ensures ok ==> Floor(va) != TRAMPOLINE_VPN
    ensures ok ==> Hardware(sp.pt.m.mem, sp.pt.root, Floor(va), 2) == Some(PpnOf(sp.pt.Map()[Floor(va)]))
    ensures Confined({sp.pt.id}, old(sp.pt.m.S()), sp.pt.m.S()) && (!ok ==> sp.pt.m.mem == old(sp.pt.m.mem))
    ensures ok ==> sp.pt.m.mem == Poked(old(sp.pt.m.mem), sp.pt.Map(), va, b)
  {
    hide Tree, View, Holds, Walk, OwnsPages, Machine.Valid, PpnOf, FlagsOf, Has, Agrees, Pages, TrampolineEntry,
         AllFramed, Confined, Floor, Hardware, Usable;
    var m, v := sp.pt.m, Floor(va);
    FloorBound(va);
    ConfinedSame({sp.pt.id}, m.S());
    WalkMappedOr(sp.pt.id, m.S(), sp.pt.tables, v);
    var e := FindPte(m.mem, sp.pt.root, v);
    if e.None? || !IsValid(e.value) || !Usable(e.value) { return false; }
    if !Has(FlagsOf(e.value), W) || !Has(FlagsOf(e.value), U) { return false; }
    ghost var tramp := TrampolineEntry(sp.trampoline);
    TrampolineReadOnly(sp.trampoline);
    TrampolineThere(sp.pt.Map(), sp.areas, tramp);
    PageOwner(m.owner, sp.pt.id, sp.areas, sp.pt.Map(), tramp, v);
    var f := PpnOf(e.value);
    OwnWrite(sp.pt.id, m.S(), f, At(m.mem, f)[Offset(va) := b]);
    StoreFrame(sp.pt, f, At(m.mem, f)[Offset(va) := b]);
    HardwareAgrees(sp.pt.id, m.S(), sp.pt.tables, v);
    return true;
  }

  // The trampoline's leaf table covers the trap page, so the walk there never ends early.
  lemma {:induction false} TrapWalk(id: nat, s: Store, t: Tables)
    requires Tree(id, s, t) && TRAMPOLINE_VPN in View(s.mem, t)
    ensures Root in t
    ensures Walk(s.mem, t[Root], TRAP_VPN) == Some(if TRAP_VPN in View(s.mem, t) then View(s.mem, t)[TRAP_VPN] else 0)
  {
    hide Tree, View, Walk, LeafWord, IsValid;
    RootThere(id, s, t);
    assert LeafPath(TRAP_VPN) == LeafPath(TRAMPOLINE_VPN);
    LeafInView(s.mem, t, TRAMPOLINE_VPN);
    LeafInView(s.mem, t, TRAP_VPN);
    WalkFindsLeaf(id, s, t, TRAP_VPN);
    if TRAP_VPN !in View(s.mem, t) { UnmappedIsZero(id, s, t, TRAP_VPN); }
  }

  lemma {:induction false} FrameNotZero(m: Machine, f: nat)
    requires m.Valid() && f in m.owner
    ensures f != 0
  {
  }

  lemma {:induction false} ZeroEntry()
    ensures PpnOf(0) == 0
  {
  }

  lemma {:induction false} TrapOnly(id: nat, s: Store, f: nat, i: TrapInit, kernelSp: nat, pages: map<nat, nat>)
    requires f in s.owner && s.owner[f] == Data(id, TRAP_VPN) && OwnsPages(id, s.owner, pages)
    requires Words(i) && kernelSp < WORD
    ensures OnlyTrap(id, s, Store(s.mem[f := TrapPage(At(s.mem, f), i, kernelSp)], s.owner), i, kernelSp)
  {
    hide TrapPage, Stored;
    TrapPageStored(At(s.mem, f), i, kernelSp);
  }

  // get_trap_cx and the stores that follow it.  A task whose trap page is unmapped panics here.
  method WriteTrap(sp: MemorySet, i: TrapInit, kernelSp: nat) returns (o: Outcome)
    requires Words(i) && kernelSp < WORD && AllFramed(sp.areas) && sp.Live()
    modifies sp.pt.m`mem
    ensures o == if TRAP_VPN in old(sp.pt.Map()) then Fine else NullPointer
    ensures sp.Live() && sp.pt.Map() == old(sp.pt.Map()) && Confined({sp.pt.id}, old(sp.pt.m.S()), sp.pt.m.S())
    ensures o.Fine? ==> OnlyTrap(sp.pt.id, old(sp.pt.m.S()), sp.pt.m.S(), i, kernelSp)
    ensures !o.Fine? ==> sp.pt.m.mem == old(sp.pt.m.mem)
  {
    hide Tree, View, Holds, Walk, OwnsPages, Machine.Valid, PpnOf, Agrees, Pages, TrampolineEntry, AllFramed, Confined,
         TrapPage, OnlyTrap, Words;
    var m := sp.pt.m;
    ghost var tramp := TrampolineEntry(sp.trampoline);
    ConfinedSame({sp.pt.id}, m.S());
    TrampolineThere(sp.pt.Map(), sp.areas, tramp);
    TrapWalk(sp.pt.id, m.S(), sp.pt.tables);
    ZeroEntry();
    if TRAP_VPN in sp.pt.Map() {
      PageOwner(m.owner, sp.pt.id, sp.areas, sp.pt.Map(), tramp, TRAP_VPN);
      FrameNotZero(m, PpnOf(sp.pt.Map()[TRAP_VPN]));
    }
    var e := FindPte(m.mem, sp.pt.root, TRAP_VPN);
    o := if e.None? then NotTranslated else if PpnOf(e.value) == 0 then NullPointer else Fine;
    if o.Fine? {
      var f := PpnOf(e.value);
      TrapOnly(sp.pt.id, m.S(), f, i, kernelSp, Pages(sp.areas));
      OwnWrite(sp.pt.id, m.S(), f, TrapPage(At(m.mem, f), i, kernelSp));
      StoreFrame(sp.pt, f, TrapPage(At(m.mem, f), i, kernelSp));
    }
  }

  lemma {:induction false} TrapAfter(id: nat, s: Store, s1: Store, s2: Store, i: TrapInit, kernelSp: nat)
    requires id != 0 && Confined({0}, s, s1) && OnlyTrap(id, s1, s2, i, kernelSp)
    ensures OnlyTrap(id, s, s2, i, kernelSp)
  {
    hide Stored;
  }

  // How the store of an exit code at va ends, from the translation of the pointer.
  function StoreOutcome(pa: Option<nat>, base: nat, end: nat, va: nat): Outcome {
    if pa.None? then NotTranslated
    else if pa.value == 0 then NullPointer
    else if Floor(pa.value) < base then StoreFault
    else if Offset(va) > 4092 then if Floor(pa.value) + 1 < end then WildStore else StoreFault
    else if HitsGuard(va, va + 4) then TrapStore
    else Fine
  }

  lemma {:induction false} PaParts(ppn: nat, va: nat)
    ensures Floor(ppn * PAGE_SIZE + Offset(va)) == ppn && Offset(ppn * PAGE_SIZE + Offset(va)) == Offset(va)
  {
  }

  // The frame a pointer of a live space leads to: that of the page, the trampoline, or frame 0.
  lemma {:induction false} PointerFrame(p: Space, s: Store, tramp: nat, vpn: nat)
    requires LiveSpace(p, s, tramp) && AllFramed(p.areas) && Walk(s.mem, p.tables[Root], vpn).Some?
    ensures var f, view, v := PpnOf(Walk(s.mem, p.tables[Root], vpn).value), View(s.mem, p.tables), vpn % VPNS;
            if v !in view then f == 0 else if v == TRAMPOLINE_VPN then f == PpnOf(tramp)
            else f in s.owner && s.owner[f] == Data(p.id, v)
  {
    hide Tree, View, Holds, Walk, OwnsPages, PpnOf, Agrees, Pages, AllFramed, LeafWord;
    var v := vpn % VPNS;
    RootThere(p.id, s, p.tables);
    WalkFindsLeaf(p.id, s, p.tables, vpn);
    LeafInView(s.mem, p.tables, vpn);
    ZeroEntry();
    if v !in View(s.mem, p.tables) {
      UnmappedIsZero(p.id, s, p.tables, vpn);
    } else if v == TRAMPOLINE_VPN {
      TrampolineThere(View(s.mem, p.tables), p.areas, tramp);
    } else {
      PageOwner(s.owner, p.id, p.areas, View(s.mem, p.tables), tramp, v);
    }
  }

  // In a live space no address translates into a page table of the space.
  lemma {:induction false} LiveOffTables(sp: MemorySet, lo: nat, hi: nat)
    requires AllFramed(sp.areas) && sp.Live()
    ensures Root in sp.pt.tables && OffTables(sp.pt.id, sp.pt.m.S(), sp.pt.tables, lo, hi)
  {
    hide Tree, View, Holds, Walk, OwnsPages, PpnOf, Agrees, Pages, AllFramed, Machine.Valid, TrampolineEntry, LiveSpace;
    var s := sp.pt.m.S();
    FromLive(sp);
    LiveBase(sp);
    TrampolineFrame(sp.pt.m, sp.trampoline);
    BelowBaseFree(sp.pt.m, 0);
    forall vpn: nat | lo <= vpn < hi && Walk(s.mem, sp.pt.tables[Root], vpn).Some?
      ensures !TableFrame(sp.pt.id, s.owner, PpnOf(Walk(s.mem, sp.pt.tables[Root], vpn).value)) {
      PointerFrame(Of(sp), s, TrampolineEntry(sp.trampoline), vpn);
    }
  }

  lemma {:induction false} BelowBaseFree(m: Machine, f: nat)
    requires m.Valid() && f < m.base
    ensures f !in m.owner
  {
  }

  // Address k of a run of stores lies in the data frame of page Floor(ptr + k) of space id.
  ghost predicate Landed(owner: Owners, id: nat, ptr: nat, a: seq<nat>) {
    forall k :: 0 <= k < |a| ==> LandedAt(owner, id, ptr + k, a[k])
  }

  ghost predicate LandedAt(owner: Owners, id: nat, x: nat, pa: nat) {
    Floor(pa) in owner && owner[Floor(pa)] == Data(id, Floor(x)) && Offset(pa) == Offset(x)
  }

  // Such stores miss all page tables and other spaces.
  lemma {:induction false} PokesHome(s: Store, a: seq<nat>, d: seq<Byte>, id: nat, ptr: nat)
    requires |a| == |d| && Landed(s.owner, id, ptr, a)
    ensures SameNodes(s, Store(Pokes(s.mem, a, d), s.owner))
    ensures Confined({id}, s, Store(Pokes(s.mem, a, d), s.owner))
  {
    hide Floor, Offset, Pokes;
    forall f | f in s.owner && (s.owner[f].id != id || s.owner[f].Node?)
      ensures At(Pokes(s.mem, a, d), f) == At(s.mem, f) {
      forall k | 0 <= k < |a| ensures Floor(a[k]) != f { assert LandedAt(s.owner, id, ptr + k, a[k]); }
      PokesElsewhere(s.mem, a, d, f);
    }
  }

  // And unless they hit them, the bytes traps rely on.
  lemma {:induction false} PokesMissGuards(s: Store, a: seq<nat>, d: seq<Byte>, id: nat, ptr: nat)
    requires |a| == |d| && Landed(s.owner, id, ptr, a) && !HitsGuard(ptr, ptr + |a|)
    ensures SameGuards(s, Store(Pokes(s.mem, a, d), s.owner))
  {
    hide Floor, Offset, Pokes, Peek;
    var mem' := Pokes(s.mem, a, d);
    forall f | f in s.owner && s.owner[f].Data? && s.owner[f].vpn == TRAP_VPN
      ensures SameGuard(At(s.mem, f), At(mem', f))
    {
      forall o: nat | Guarded(o) ensures At(mem', f)[o] == At(s.mem, f)[o] {
        GuardByte(s, a, d, id, ptr, f, o);
      }
    }
  }

  lemma {:induction false} GuardByte(s: Store, a: seq<nat>, d: seq<Byte>, id: nat, ptr: nat, f: nat, o: nat)
    requires |a| == |d| && Landed(s.owner, id, ptr, a) && !HitsGuard(ptr, ptr + |a|)
    requires f in s.owner && s.owner[f].Data? && s.owner[f].vpn == TRAP_VPN
    requires Guarded(o)
    ensures At(Pokes(s.mem, a, d), f)[o] == At(s.mem, f)[o]
  {
    hide Pokes;
    var x := f * PAGE_SIZE + o;
    AddressSplit(f, o);
    forall k | 0 <= k < |a| ensures a[k] != x {
      assert LandedAt(s.owner, id, ptr + k, a[k]);
      assert ptr + k == Floor(ptr + k) * PAGE_SIZE + Offset(ptr + k) != TRAP_VPN * PAGE_SIZE + o;
    }
    PokesFrame(s.mem, a, d, x);
  }

  lemma {:induction false} CodeLands(owner: Owners, id: nat, v: nat, pa: nat, va: nat)
    requires Offset(va) <= 4092 && Offset(pa) == Offset(va) && Floor(va) == v
    requires Floor(pa) in owner && owner[Floor(pa)] == Data(id, v)
    ensures Landed(owner, id, va, [pa, pa + 1, pa + 2, pa + 3])
  {
    var a := [pa, pa + 1, pa + 2, pa + 3];
    forall k | 0 <= k < 4 ensures LandedAt(owner, id, va + k, a[k]) {
      assert a[k] == pa + k;
      SamePage(pa, k);
      SamePage(va, k);
    }
  }

  lemma {:induction false} SamePage(x: nat, k: nat)
    requires Offset(x) <= 4092 && k < 4
    ensures Floor(x + k) == Floor(x) && Offset(x + k) == Offset(x) + k
  {
  }

  // Four bytes in one frame of space id.
  ghost predicate Within4(owner: Owners, id: nat, pa: nat) {
    Offset(pa) <= 4092 && Floor(pa) in owner && owner[Floor(pa)].id == id
  }

  // A code stored there is still there after steps of other spaces.
  lemma {:induction false} CodeSurvives(ids: set<nat>, s: Store, s': Store, id: nat, pa: nat, code: int)
    requires Within4(s.owner, id, pa) && id !in ids && Confined(ids, s, s') && HoldsCode(s.mem, pa, code)
    ensures HoldsCode(s'.mem, pa, code)
  {
    hide Floor, Offset;
    SamePage(pa, 1);
    SamePage(pa, 2);
    SamePage(pa, 3);
  }

  // The store of a child's exit code through the pointer of its parent.  Nothing checks the pointer.  The
  // kernel's own mapping refuses the trampoline, frame 0 and what lies past the end of memory; four bytes at
  // the end of a page run on into the next frame, whoever holds that; and the trap page, which the user
  // cannot write, takes the store.
  method StoreExitCode(sp: MemorySet, ptr: Usize, code: int) returns (o: Outcome, ghost pa: Option<nat>)
    requires AllFramed(sp.areas) && sp.Live()
    modifies sp.pt.m`mem
    ensures pa == TranslateVa(old(sp.pt.m.mem), sp.pt.root, VirtAddr(ptr))
    ensures o == StoreOutcome(pa, sp.pt.m.base, sp.pt.m.end, VirtAddr(ptr))
    ensures pa.Some? ==> var v := Floor(VirtAddr(ptr));
            Floor(pa.value) < sp.pt.m.base <==> v !in old(sp.pt.Map()) || v == TRAMPOLINE_VPN
    ensures o in {Fine, WildStore, TrapStore} ==> pa.Some?
    ensures o in {Fine, WildStore, TrapStore} ==> sp.pt.m.mem == StoreCode(old(sp.pt.m.mem), pa.value, code)
    ensures o in {Fine, WildStore, TrapStore} ==>
      HoldsCode(sp.pt.m.mem, pa.value, code) && OnlyCode(old(sp.pt.m.mem), sp.pt.m.mem, pa.value)
    ensures o.Fine? ==> Within4(sp.pt.m.owner, sp.pt.id, pa.value)
    ensures o !in {Fine, WildStore, TrapStore} ==> sp.pt.m.mem == old(sp.pt.m.mem)
    ensures o.Fine? ==> sp.Live() && sp.pt.Map() == old(sp.pt.Map()) && SameNodes(old(sp.pt.m.S()), sp.pt.m.S())
    ensures o.Fine? ==> SameGuards(old(sp.pt.m.S()), sp.pt.m.S())
    ensures o.Fine? ==> Confined({sp.pt.id}, old(sp.pt.m.S()), sp.pt.m.S())
  {
    hide Tree, View, Holds, Walk, OwnsPages, Machine.Valid, PpnOf, Agrees, Pages, TrampolineEntry, AllFramed, LiveSpace,
         Confined, Floor, Offset, VirtAddr, SameNodes, SameGuards, HitsGuard, Landed, Pokes, CodeBytes,
         HoldsCode, OnlyCode;
    var m, va := sp.pt.m, VirtAddr(ptr);
    ghost var s0, tramp := m.S(), TrampolineEntry(sp.trampoline);
    FromLive(sp);
    LiveBase(sp);
    FloorBound(va);
    var e := FindPte(m.mem, sp.pt.root, Floor(va));
    if e.None? { return NotTranslated, None; }
    var at := PpnOf(e.value) * PAGE_SIZE + Offset(va);
    pa := Some(at);
    PaParts(PpnOf(e.value), va);
    InSpace(Floor(va));
    PointerFrame(Of(sp), s0, tramp, Floor(va));
    TrampolineFrame(m, sp.trampoline);
    if PpnOf(e.value) in m.owner { m.Managed(PpnOf(e.value)); }
    if at == 0 { return NullPointer, pa; }
    if PpnOf(e.value) < m.base || (Offset(va) > 4092 && PpnOf(e.value) + 1 >= m.end) { return StoreFault, pa; }
    o := if Offset(va) > 4092 then WildStore else if HitsGuard(va, va + 4) then TrapStore else Fine;
    if o.Fine? {
      CodeLands(s0.owner, sp.pt.id, Floor(va), at, va);
      PokesHome(s0, [at, at + 1, at + 2, at + 3], CodeBytes(code), sp.pt.id, va);
      PokesMissGuards(s0, [at, at + 1, at + 2, at + 3], CodeBytes(code), sp.pt.id, va);
    }
    CodeAbove(m.mem, m.base, at, code);
    CodeStored(m.mem, at, code);
    m.Replace(StoreCode(m.mem, at, code));
    if o.Fine? {
      KeepStored(Of(sp), s0, m.S(), tramp);
      ToLive(sp);
    }
  }

  lemma {:induction false} TrampolineFrame(m: Machine, ppn: nat)
    requires m.Valid() && ppn < m.base
    ensures PpnOf(TrampolineEntry(ppn)) == ppn && ppn !in m.owner && 0 < m.base && 0 !in m.owner
  {
    PteRoundTrip(ppn, WithV(R + X));
  }

  lemma {:induction false} CodeAbove(mem: Memory, base: nat, pa: nat, code: int)
    requires base <= Floor(pa)
    ensures forall f: nat :: f < base ==> At(StoreCode(mem, pa, code), f) == At(mem, f)
  {
    hide StoreCode, Floor;
    TouchedPages(pa);
    forall f: nat | f < base ensures At(StoreCode(mem, pa, code), f) == At(mem, f) { StoreElsewhere(mem, pa, code, f); }
  }

  // Where the kernel can store through a user address, it stores in the data frame of that page.
  lemma {:induction false} LandsHome(p: Space, s: Store, tramp: nat, base: nat, ptr: nat, a: seq<nat>)
    requires AllFramed(p.areas) && PpnOf(tramp) < base && 0 < base && (a != [] ==> ptr + |a| <= VA_SPACE)
    requires LiveSpace(p, s, tramp)
    requires Translates(s.mem, p.tables[Root], ptr, a) && AllStorable(s.mem, p.tables[Root], base, ptr, ptr + |a|)
    ensures Landed(s.owner, p.id, ptr, a)
  {
    hide Tree, View, Holds, Walk, OwnsPages, PpnOf, Agrees, Pages, AllFramed, Floor, Offset;
    RootThere(p.id, s, p.tables);
    forall k | 0 <= k < |a| ensures LandedAt(s.owner, p.id, ptr + k, a[k]) {
      assert TranslateVa(s.mem, p.tables[Root], ptr + k) == Some(a[ptr + k - ptr]);
      assert Storable(s.mem, p.tables[Root], base, ptr + k);
      PaParts(PpnOf(Walk(s.mem, p.tables[Root], Floor(ptr + k)).value), ptr + k);
      FloorBound(ptr + k);
      InSpace(Floor(ptr + k));
      PointerFrame(p, s, tramp, Floor(ptr + k));
    }
  }

  lemma {:induction false} RootBound(sp: MemorySet)
    requires sp.Live()
    ensures sp.pt.root < PPNS && Tree(sp.pt.id, sp.pt.m.S(), sp.pt.tables) && sp.pt.root == sp.pt.tables[Root]
  {
    hide View, Holds, OwnsPages, Machine.Valid, Agrees, Pages, TrampolineEntry;
  }

  // A result the kernel writes into a user buffer.  Whatever the pointer, it stays in the data frames of
  // the space; it panics exactly if some byte is not storable.
  method WriteUser(sp: MemorySet, ptr: Usize, data: seq<Byte>) returns (o: Outcome, ghost a: seq<nat>)
    requires |data| < WORD && AllFramed(sp.areas) && sp.Live()
    modifies sp.pt.m`mem
    ensures o in {Fine, NotTranslated, StoreFault, TrapStore, Stuck}
    ensures o.Stuck? <==> RunsOn(ptr, (ptr + |data|) % WORD)
    ensures o.NotTranslated? || o.StoreFault? <==>
      && ptr + |data| < WORD && !RunsOn(ptr, (ptr + |data|) % WORD)
      && !AllStorable(old(sp.pt.m.mem), sp.pt.root, sp.pt.m.base, ptr, ptr + |data|)
    ensures o.TrapStore? <==>
      && ptr + |data| < WORD && !RunsOn(ptr, (ptr + |data|) % WORD) && HitsGuard(ptr, ptr + |data|)
      && AllStorable(old(sp.pt.m.mem), sp.pt.root, sp.pt.m.base, ptr, ptr + |data|)
    ensures o.Fine? ==> sp.Live() && sp.pt.Map() == old(sp.pt.Map()) && SameNodes(old(sp.pt.m.S()), sp.pt.m.S())
    ensures o.Fine? ==> SameGuards(old(sp.pt.m.S()), sp.pt.m.S())
    ensures o.Fine? ==> Confined({sp.pt.id}, old(sp.pt.m.S()), sp.pt.m.S())
    ensures |a| <= |data| && Translates(old(sp.pt.m.mem), sp.pt.root, ptr, a)
    ensures sp.pt.m.mem == Pokes(old(sp.pt.m.mem), a, data[..|a|])
    ensures o in {Fine, TrapStore} ==> |a| == if ptr + |data| < WORD then |data| else 0
    ensures o.NotTranslated? ==> |a| < |data| && TranslateVa(old(sp.pt.m.mem), sp.pt.root, ptr + |a|).None?
    ensures o.StoreFault? ==> |a| < |data| && TranslateVa(old(sp.pt.m.mem), sp.pt.root, ptr + |a|).Some?
  {
    hide Tree, View, Holds, Walk, OwnsPages, Machine.Valid, Agrees, Pages, TrampolineEntry, AllFramed, LiveSpace,
         MemorySet.Live, Confined, Pokes, Floor, Ceil, Translates, SameNodes, OffTables, Token, TokenRoot, HitsGuard,
         PpnOf, SameGuards, Landed, AllStorable, Storable;
    var m := sp.pt.m;
    ghost var s0, tramp := m.S(), TrampolineEntry(sp.trampoline);
    FromLive(sp);
    LiveBase(sp);
    RootBound(sp);
    TokenRoundTrip(sp.pt.root);
    LiveOffTables(sp, Floor(ptr), Ceil(ptr + |data|));
    TrampolineFrame(m, sp.trampoline);
    var r;
    r, a := TranslatedAndWriteBytes(m, Token(sp.pt.root), ptr, data, sp.pt.id, sp.pt.tables);
    o := match r {
      case Done => if ptr + |data| < WORD && HitsGuard(ptr, ptr + |data|) then TrapStore else Fine
      case Untranslated => NotTranslated
      case Faults => StoreFault
      case NoReturn => Stuck
    };
    if o.Fine? {
      if ptr + |data| >= WORD { NoGuard(ptr); }
      LandsHome(Of(sp), s0, tramp, m.base, ptr, a);
      PokesHome(s0, a, data[..|a|], sp.pt.id, ptr);
      PokesMissGuards(s0, a, data[..|a|], sp.pt.id, ptr);
      KeepStored(Of(sp), s0, m.S(), tramp);
      ToLive(sp);
    }
  }

  lemma {:induction false} NoGuard(ptr: nat)
    ensures !HitsGuard(ptr, ptr)
  {
  }

  // The child's areas are twins of the parent's and show the bytes those had before the fork, apart
  // from two words of the trap context: x10 is 0 and kernel_sp is its own.
  ghost predicate CopyOf(xs: seq<MapArea>, ys: seq<MapArea>, mem0: Memory, mem: Memory, kernelSp: nat) {
    && |xs| == |ys|
    && (forall i :: 0 <= i < |ys| ==> Twin(xs[i], ys[i]))
    && (forall i :: 0 <= i < |ys| ==> Resumes(xs[i], ys[i], mem0, mem, kernelSp))
  }

  ghost predicate Resumes(a: MapArea, b: MapArea, mem0: Memory, mem: Memory, kernelSp: nat) {
    forall v :: v in a.data && v in b.data ==>
      if v == TRAP_VPN then Stored(At(mem0, a.data[v]), At(mem, b.data[v]), ForkReturn, kernelSp)
      else At(mem, b.data[v]) == At(mem0, a.data[v])
  }

  // The copy after the stores into its trap context.
  lemma {:induction false} CopyKept(p: Space, xs: seq<MapArea>, s0: Store, s1: Store, s2: Store, tramp: nat,
                                    kernelSp: nat)
    requires Cloned(p.id, xs, p.areas, s0, s1) && |xs| == |p.areas| && LiveSpace(p, s1, tramp)
    requires OnlyTrap(p.id, s1, s2, ForkReturn, kernelSp)
    ensures CopyOf(xs, p.areas, s0.mem, s2.mem, kernelSp)
  {
    hide OwnsPages, Pages, Agrees, Extended, Disjoint, AllOk, Tree, View, Holds, Stored;
    AgreesOk(View(s1.mem, p.tables), p.areas, tramp);
    forall i | 0 <= i < |p.areas| ensures Resumes(xs[i], p.areas[i], s0.mem, s2.mem, kernelSp) {
      AreaFrames(p.id, s1.owner, p.areas, i);
      assert Shows(xs[i], p.areas[i], s0.mem, s1.mem);
    }
  }

  lemma {:induction false} ClonedFramed(id: nat, xs: seq<MapArea>, ys: seq<MapArea>, s0: Store, s: Store)
    requires Cloned(id, xs, ys, s0, s) && AllFramed(xs)
    ensures AllFramed(ys) && Extended(id, s0, s)
  {
    hide Extended, Shows;
    forall i | 0 <= i < |ys| ensures ys[i].kind.Framed? { assert Twin(xs[i], ys[i]); }
  }

  lemma {:induction false} SpBound(segs: seq<Segment>)
    ensures Loader.StackTop(MaxEnd(segs)) < BRK_LIMIT
  {
    if segs != [] { CeilBound(VirtAddr((segs[|segs| - 1].vaddr + segs[|segs| - 1].memsz) % WORD)); }
  }

  // pid_alloc and KernelStack::new, beside another space ns.
  method GiveStack(kspace: MemorySet, pids: PidAllocator, ns: MemorySet, ghost sections: seq<MapArea>, ghost floor: nat,
                   ghost ps: seq<nat>,
                   ghost tcbs: map<nat, Tasks.Tcb>, ghost total: nat) returns (o: Outcome, pid: nat)
    requires kspace != ns && kspace.pt != ns.pt && kspace.pt.m == ns.pt.m && kspace.pt.id == 0 != ns.pt.id
    requires pids.Valid()
    requires PidsGood(pids.Live(), pids.current, ps, tcbs, kspace.areas, sections, floor, total) && kspace.Live()
    requires ns.Live()
    modifies pids, kspace, kspace.pt, kspace.pt.m
    ensures o in {Fine, OutOfFrames} && pid !in PidSet(tcbs) && pid !in old(pids.Live()) && pids.Valid()
    ensures pids.Live() == old(pids.Live()) + {pid}
    ensures pids.current == old(pids.current) || forall p :: 0 <= p < pids.current ==> p in pids.Live()
    ensures o.OutOfFrames? ==> old(kspace.pt.m.Free()) < 6
    ensures o.Fine? ==> kspace.Live() && ns.Live() && Confined({0}, old(kspace.pt.m.S()), kspace.pt.m.S())
    ensures o.Fine? ==> Stacked(kspace.areas, sections, floor, ps + [pid])
    ensures o.Fine? ==> kspace.pt.m.Free() + Holding(Of(kspace)) == old(kspace.pt.m.Free() + Holding(Of(kspace)))
    ensures o.Fine? ==> Weight(kspace.areas) == old(Weight(kspace.areas)) + 2
  {
    hide Machine.Valid, Machine.Free, MemorySet.Live, MemorySet.Budget, Confined, Extended, LiveSpace, Holding,
         TrampolineEntry, Stacked, PidSet, Weight;
    FromLive(kspace);
    FromLive(ns);
    ghost var s1 := kspace.pt.m.S();
    pid := pids.Alloc();
    NewPidFits(pid, old(pids.current), floor, total);
    LiveBase(ns);
    o := NewStack(kspace, pid, sections, floor, ps);
    if o.Fine? {
      ExtendedConfines(0, s1, kspace.pt.m.S());
      FromLive(kspace);
      Survives(ns, {0}, s1);
    }
  }

  // pid_alloc, KernelStack::new and the trap context of the new space ns.
  method Equip(kspace: MemorySet, pids: PidAllocator, ns: MemorySet, i: TrapInit, ghost sections: seq<MapArea>,
               ghost floor: nat, ghost ps: seq<nat>, ghost tcbs: map<nat, Tasks.Tcb>,
               ghost total: nat) returns (o: Outcome, pid: nat)
    requires kspace != ns && kspace.pt != ns.pt && kspace.pt.m == ns.pt.m && kspace.pt.id == 0 != ns.pt.id
    requires Words(i) && pids.Valid() && AllFramed(ns.areas)
    requires PidsGood(pids.Live(), pids.current, ps, tcbs, kspace.areas, sections, floor, total)
    requires kspace.Live() && ns.Live()
    modifies pids, kspace, kspace.pt, kspace.pt.m
    ensures o in {Fine, OutOfFrames, NullPointer} && pid !in PidSet(tcbs)
    ensures pids.Valid() && pid !in old(pids.Live()) && pids.Live() == old(pids.Live()) + {pid}
    ensures pids.current == old(pids.current) || forall p :: 0 <= p < pids.current ==> p in pids.Live()
    ensures o.OutOfFrames? ==> old(kspace.pt.m.Free()) < 6
    ensures if TRAP_VPN in old(ns.pt.Map()) then !o.NullPointer? else !o.Fine?
    ensures o.Fine? ==> kspace.Live() && ns.Live() && Stacked(kspace.areas, sections, floor, ps + [pid])
    ensures o.Fine? ==> Confined({0, ns.pt.id}, old(kspace.pt.m.S()), kspace.pt.m.S())
    ensures o.Fine? ==> OnlyTrap(ns.pt.id, old(kspace.pt.m.S()), kspace.pt.m.S(), i, Pids.StackTop(pid))
    ensures o.Fine? ==> kspace.pt.m.Free() + Holding(Of(kspace)) == old(kspace.pt.m.Free() + Holding(Of(kspace)))
    ensures o.Fine? ==> Weight(kspace.areas) == old(Weight(kspace.areas)) + 2
    ensures o.Fine? ==> ns.pt.Map() == old(ns.pt.Map())
  {
    hide Machine.Valid, Machine.Free, MemorySet.Live, MemorySet.Budget, Confined, LiveSpace, Holding, AllFramed,
         TrampolineEntry, Stacked, PidSet, Weight, View, OnlyTrap, PidsGood, Words;
    ghost var s0 := kspace.pt.m.S();
    FromLive(ns);
    LiveBase(kspace);
    o, pid := GiveStack(kspace, pids, ns, sections, floor, ps, tcbs, total);
    if !o.Fine? { return; }
    ghost var s1 := kspace.pt.m.S();
    KeepLive({0}, Of(ns), s0, s1, TrampolineEntry(ns.trampoline));
    FromLive(kspace);
    o := WriteTrap(ns, i, Pids.StackTop(pid));
    if !o.Fine? { return; }
    FromLive(ns);
    Survives(kspace, {ns.pt.id}, s1);
    TrapAfter(ns.pt.id, s0, s1, kspace.pt.m.S(), i, Pids.StackTop(pid));
    ConfinedTransitive({0}, {ns.pt.id}, s0, s1, kspace.pt.m.S());
    assert {0} + {ns.pt.id} == {0, ns.pt.id};
  }

  // What is left of a reaped child is dropped: pid, kernel stack, page tables.
  method Bury(kspace: MemorySet, pids: PidAllocator, sp: MemorySet, pid: nat, ghost sections: seq<MapArea>,
              ghost floor: nat, ghost ps: seq<nat>, ghost k: nat)
    requires kspace != sp && kspace.pt != sp.pt && kspace.pt.m == sp.pt.m && kspace.pt.id == 0 != sp.pt.id
    requires pids.Valid() && pid in pids.Live()
    requires k < |ps| && ps[k] == pid && Fits(pid, 0) && Stacked(kspace.areas, sections, floor, ps) && kspace.Live()
    requires Rooted(sp) && DeadSpace(Of(sp), sp.pt.m.S())
    modifies pids, kspace, kspace.pt, sp, kspace.pt.m
    ensures pids.Valid() && pids.Live() == old(pids.Live()) - {pid} && pids.current == old(pids.current)
    ensures kspace.Live() && Stacked(kspace.areas, sections, floor, ps[..k] + ps[k + 1..])
    ensures kspace.pt.tables == old(kspace.pt.tables)
    ensures Confined({sp.pt.id, 0}, old(sp.pt.m.S()), sp.pt.m.S())
    ensures forall f :: f in sp.pt.m.owner ==> sp.pt.m.owner[f].id != sp.pt.id
    ensures sp.pt.m.Free() == old(sp.pt.m.Free() + |sp.pt.tables|) + 2
    ensures sp.pt.m.Free() + Holding(Of(kspace)) == old(sp.pt.m.Free() + Holding(Of(kspace)) + Holding(Of(sp)))
  {
    hide Machine.Valid, Machine.Free, MemorySet.Live, MemorySet.Held, MemorySet.Budget, Confined, Released, LiveSpace,
         DeadSpace, TrampolineEntry, Stacked, Weight;
    ghost var s0 := sp.pt.m.S();
    DeadHolding(Of(sp), s0);
    FromLive(kspace);
    LiveBase(kspace);
    var ok := pids.Dealloc(pid);
    DropStack(kspace, pid, sections, floor, ps, k);
    ghost var s1 := sp.pt.m.S();
    FromLive(kspace);
    ReleasedConfines(0, s0, s1);
    KeepDead({0}, Of(sp), s0, s1);
    ToHeld(sp);
    sp.Drop();
    ReleasedConfines(sp.pt.id, s1, sp.pt.m.S());
    Survives(kspace, {sp.pt.id}, s1);
    ConfinedTransitive({0}, {sp.pt.id}, s0, s1, sp.pt.m.S());
    assert {0} + {sp.pt.id} == {sp.pt.id, 0};
  }
}
