/** The trap page of a space across the memory calls: which of them keep it, and which do not. */
module TrapPages {
  import opened Address
  import opened Frames
  import opened FrameAllocator
  import opened PageTables
  import opened UserAccess
  import opened Areas
  import opened Layout
  import opened MemorySets
  import opened Fork
  import opened Loader
  import opened MemorySyscalls
  import opened Isolation
  import opened Traps
  import opened Worlds
  import opened SpaceSteps
  import Pids

  // No data page held in s is written.
  ghost predicate KeepsData(s: Store, s': Store) {
    forall f :: f in s.owner && s.owner[f].Data? ==> At(s'.mem, f) == At(s.mem, f)
  }

  lemma {:induction false} ExtendedKeepsData(id: nat, s: Store, s': Store)
    requires Extended(id, s, s')
    ensures KeepsData(s, s')
  {
  }

  lemma {:induction false} ReleasedKeepsData(id: nat, s: Store, s': Store)
    requires Released(id, s, s')
    ensures KeepsData(s, s')
  {
  }

  // The same entry, and no data page written: the context is as before.
  lemma {:induction false} SameTrap(p: Space, p': Space, s: Store, s': Store, tramp: nat, env: TrapEnv, kernelSp: nat)
    requires LiveSpace(p, s, tramp) && AllFramed(p.areas) && TrapReady(p, s, env, kernelSp) && KeepsData(s, s')
    requires HasTrap(p'.areas) && TRAP_VPN in View(s'.mem, p'.tables)
    requires View(s'.mem, p'.tables)[TRAP_VPN] == View(s.mem, p.tables)[TRAP_VPN]
    ensures TrapReady(p', s', env, kernelSp)
  {
    hide LiveSpace, View, AllFramed, PpnOf, TrapWords, HasTrap;
    TrapFrame(p, s, tramp, env, kernelSp);
  }

  // The trap area of both lists is the same one.
  lemma {:induction false} SameArea(view: map<nat, nat>, view': map<nat, nat>, xs: seq<MapArea>, ys: seq<MapArea>,
                                    tramp: nat, i: nat, j: nat)
    requires Agrees(view, xs, tramp) && Agrees(view', ys, tramp) && i < |xs| && j < |ys| && xs[i] == ys[j]
    requires xs[i].start <= TRAP_VPN < xs[i].end
    ensures TRAP_VPN in view && TRAP_VPN in view' && view'[TRAP_VPN] == view[TRAP_VPN]
  {
    hide Agrees, Entry, Pages;
    AreaInView(view, xs, tramp, i);
    AreaInView(view', ys, tramp, j);
  }

  lemma {:induction false} AnyTrap(areas: seq<MapArea>) returns (i: nat)
    requires HasTrap(areas)
    ensures i < |areas| && areas[i].start == TRAP_VPN && areas[i].end == TRAMPOLINE_VPN
  {
    i :| 0 <= i < |areas| && areas[i].start == TRAP_VPN && areas[i].end == TRAMPOLINE_VPN;
  }

  // mmap keeps the trap page.
  lemma {:induction false} MmapKeepsTrap(view: map<nat, nat>, view': map<nat, nat>, xs: seq<MapArea>, ys: seq<MapArea>,
                                         tramp: nat, lo: nat, hi: nat, perm: Perm, mem: Memory)
    requires Agrees(view, xs, tramp) && Agrees(view', ys, tramp) && Mapped39(xs, ys, lo, hi, perm, mem) && HasTrap(xs)
    ensures HasTrap(ys) && TRAP_VPN in view && TRAP_VPN in view' && view'[TRAP_VPN] == view[TRAP_VPN]
  {
    hide Agrees, Filled;
    var i := AnyTrap(xs);
    assert ys[i] == ys[..|xs|][i];
    SameArea(view, view', xs, ys, tramp, i, i);
  }

  // Any area over the trap page is the trap area.
  lemma {:induction false} OneTrap(areas: seq<MapArea>, i: nat, j: nat)
    requires Disjoint(areas) && i < |areas| && j < |areas| && areas[i].start <= TRAP_VPN < areas[i].end
    requires areas[j].start <= TRAP_VPN < areas[j].end
    ensures i == j
  {
  }

  lemma {:induction false} KeptIn(areas: seq<MapArea>, lo: nat, hi: nat, a: MapArea)
    requires a in areas && !(hi <= a.end && lo >= a.start)
    ensures a in Kept(areas, lo, hi)
  {
    var n := |areas| - 1;
    if a != areas[n] {
      assert a in areas[..n];
      KeptIn(areas[..n], lo, hi, a);
    }
  }

  // munmap keeps the trap page if and only if the range does not lie on it.
  lemma {:induction false} MunmapKeepsTrap(view: map<nat, nat>, view': map<nat, nat>, xs: seq<MapArea>, tramp: nat,
                                           lo: nat, hi: nat)
    requires Agrees(view, xs, tramp) && Agrees(view', Kept(xs, lo, hi), tramp) && HasTrap(xs)
    ensures TRAP_VPN in view' <==> !(TRAP_VPN <= lo && hi <= TRAMPOLINE_VPN)
    ensures TRAP_VPN in view' ==> HasTrap(Kept(xs, lo, hi)) && TRAP_VPN in view && view'[TRAP_VPN] == view[TRAP_VPN]
  {
    hide Kept, Entries, AllOk, Disjoint;
    var i := AnyTrap(xs);
    var ys := Kept(xs, lo, hi);
    if !(TRAP_VPN <= lo && hi <= TRAMPOLINE_VPN) {
      KeptIn(xs, lo, hi, xs[i]);
      var j :| 0 <= j < |ys| && ys[j] == xs[i];
      SameArea(view, view', xs, ys, tramp, i, j);
    } else if TRAP_VPN in view' {
      TrapGone(view', xs, tramp, lo, hi, i);
    }
  }

  lemma {:induction false} TrapGone(view': map<nat, nat>, xs: seq<MapArea>, tramp: nat, lo: nat, hi: nat, i: nat)
    requires i < |xs| && xs[i].start == TRAP_VPN && xs[i].end == TRAMPOLINE_VPN && Disjoint(xs)
    requires TRAP_VPN <= lo && hi <= TRAMPOLINE_VPN && Agrees(view', Kept(xs, lo, hi), tramp)
    ensures TRAP_VPN !in view'
  {
    hide Kept, Entries, AllOk, Disjoint;
    var ys := Kept(xs, lo, hi);
    EntriesKeys(ys, TRAP_VPN);
    forall j | 0 <= j < |ys| ensures !(ys[j].start <= TRAP_VPN < ys[j].end) {
      KeptSome(xs, lo, hi, ys[j]);
      KeptStays(xs, lo, hi, ys[j]);
      var k :| 0 <= k < |xs| && xs[k] == ys[j];
      NotThere(xs, i, k);
    }
  }

  lemma {:induction false} NotThere(xs: seq<MapArea>, i: nat, k: nat)
    requires i < |xs| && k < |xs| && xs[i].start == TRAP_VPN && xs[i].end == TRAMPOLINE_VPN && Disjoint(xs)
    ensures k == i || !(xs[k].start <= TRAP_VPN < xs[k].end)
  {
    if xs[k].start <= TRAP_VPN < xs[k].end { OneTrap(xs, i, k); }
  }

  // The area sbrk works on is the trap area: possible only with a heap bottom kept over an exec.
  ghost predicate HeapIsTrap(areas: seq<MapArea>, heapBottom: nat) {
    var k := First(areas, Floor(heapBottom));
    k.Some? && Floor(heapBottom) == TRAP_VPN && areas[k.value].end == TRAMPOLINE_VPN
  }

  // sbrk keeps the trap page unless it works on just that page and gives it up.
  lemma {:induction false} BreakKeepsTrap(view: map<nat, nat>, view': map<nat, nat>, xs: seq<MapArea>, ys: seq<MapArea>,
                                          tramp: nat, heapBottom: nat, brk: nat)
    requires Agrees(view, xs, tramp) && Agrees(view', ys, tramp) && HasTrap(xs)
    requires Resized(xs, ys, heapBottom, brk, view, view')
    ensures TRAP_VPN in view' <==> !(HeapIsTrap(xs, heapBottom) && Ceil(brk) <= TRAP_VPN)
    ensures TRAP_VPN in view' ==> HasTrap(ys) && TRAP_VPN in view && view'[TRAP_VPN] == view[TRAP_VPN]
  {
    hide First, Floor, Ceil, Entries, Disjoint;
    var i := AnyTrap(xs);
    var k := First(xs, Floor(heapBottom)).value;
    AreaInView(view, xs, tramp, i);
    TrampolineThere(view, xs, tramp);
    NotThere(xs, i, k);
    assert AreaOk(ys[k]);
    assert k != i ==> ys[i] == xs[i];
    if k == i { assert Ceil(brk) <= TRAMPOLINE_VPN; }
  }

  // ---- the calls of the running task ----

  lemma {:induction false} MmapReady(p: Space, p': Space, s: Store, s': Store, tramp: nat, env: TrapEnv, kernelSp: nat,
                                     lo: nat, hi: nat, perm: Perm)
    requires LiveSpace(p, s, tramp) && LiveSpace(p', s', tramp) && AllFramed(p.areas) && Extended(p.id, s, s')
    requires TrapReady(p, s, env, kernelSp)
    requires Mapped39(p.areas, p'.areas, lo, hi, perm, s'.mem)
          || (p'.areas == p.areas && View(s'.mem, p'.tables) == View(s.mem, p.tables))
    ensures TrapReady(p', s', env, kernelSp)
  {
    hide View, AllFramed, PpnOf, TrapWords, HasTrap, Extended, Mapped39, Tree, Holds, OwnsPages, Agrees, Pages,
         KeepsData;
    ExtendedKeepsData(p.id, s, s');
    if Mapped39(p.areas, p'.areas, lo, hi, perm, s'.mem) {
      MmapKeepsTrap(View(s.mem, p.tables), View(s'.mem, p'.tables), p.areas, p'.areas, tramp, lo, hi, perm, s'.mem);
    }
    SameTrap(p, p', s, s', tramp, env, kernelSp);
  }

  lemma {:induction false} MunmapReady(p: Space, p': Space, s: Store, s': Store, tramp: nat, env: TrapEnv,
                                       kernelSp: nat, lo: nat, hi: nat)
    requires LiveSpace(p, s, tramp) && LiveSpace(p', s', tramp) && AllFramed(p.areas) && Released(p.id, s, s')
    requires TrapReady(p, s, env, kernelSp) && p'.areas == Kept(p.areas, lo, hi)
    ensures TRAP_VPN in View(s'.mem, p'.tables) <==> !(TRAP_VPN <= lo && hi <= TRAMPOLINE_VPN)
    ensures TRAP_VPN in View(s'.mem, p'.tables) ==> TrapReady(p', s', env, kernelSp)
  {
    hide View, AllFramed, PpnOf, TrapWords, HasTrap, Released, Kept, Tree, Holds, OwnsPages, Agrees, Pages, KeepsData;
    ReleasedKeepsData(p.id, s, s');
    MunmapKeepsTrap(View(s.mem, p.tables), View(s'.mem, p'.tables), p.areas, tramp, lo, hi);
    if TRAP_VPN in View(s'.mem, p'.tables) { SameTrap(p, p', s, s', tramp, env, kernelSp); }
  }

  lemma {:induction false} BreakReady(p: Space, p': Space, s: Store, s': Store, tramp: nat, env: TrapEnv, kernelSp: nat,
                                      heapBottom: nat, brk: nat)
    requires LiveSpace(p, s, tramp) && LiveSpace(p', s', tramp) && AllFramed(p.areas) && KeepsData(s, s')
    requires TrapReady(p, s, env, kernelSp)
    requires Resized(p.areas, p'.areas, heapBottom, brk, View(s.mem, p.tables), View(s'.mem, p'.tables))
    ensures TRAP_VPN in View(s'.mem, p'.tables) <==> !(HeapIsTrap(p.areas, heapBottom) && Ceil(brk) <= TRAP_VPN)
    ensures TRAP_VPN in View(s'.mem, p'.tables) ==> TrapReady(p', s', env, kernelSp)
  {
    hide View, AllFramed, PpnOf, TrapWords, HasTrap, Resized, HeapIsTrap, Tree, Holds, OwnsPages, Agrees, Pages,
         KeepsData, Ceil;
    BreakKeepsTrap(View(s.mem, p.tables), View(s'.mem, p'.tables), p.areas, p'.areas, tramp, heapBottom, brk);
    if TRAP_VPN in View(s'.mem, p'.tables) { SameTrap(p, p', s, s', tramp, env, kernelSp); }
  }

  // A store of user code: the trap page is out of its reach.
  lemma {:induction false} StoreReady(p: Space, s: Store, s': Store, tramp: nat, env: TrapEnv, kernelSp: nat, va: nat,
                                      b: Byte)
    requires LiveSpace(p, s, tramp) && AllFramed(p.areas) && TrapReady(p, s, env, kernelSp)
    requires Writable(View(s.mem, p.tables), Floor(va)) && s'.mem == Poked(s.mem, View(s.mem, p.tables), va, b)
    requires Floor(va) != TRAMPOLINE_VPN
    requires View(s'.mem, p.tables) == View(s.mem, p.tables)
    ensures TrapReady(p, s', env, kernelSp)
  {
    hide Tree, View, Holds, OwnsPages, Agrees, Pages, AllFramed, PpnOf, TrapWords, HasTrap, FlagsOf, Has, Usable, Floor;
    var view, v := View(s.mem, p.tables), Floor(va);
    TrapFrame(p, s, tramp, env, kernelSp);
    PageOwner(s.owner, p.id, p.areas, view, tramp, v);
  }

  // __restore: the return to user mode reads the trap page through the user's mapping.  Without the page
  // it faults, and so does the trap that follows, for ever.
  method CanReturn(sp: MemorySet) returns (ok: bool)
    requires sp.Live()
    ensures ok <==> TRAP_VPN in sp.pt.Map()
  {
    hide Tree, View, MemorySet.Live;
    RootBound(sp);
    InSpace(TRAP_VPN);
    ok := FindVpn(sp.pt.m.mem, sp.pt.root, TRAP_VPN, sp.pt.id, sp.pt.m.S(), sp.pt.tables);
  }

  // The arguments of a munmap that gives up the trap page, alone or as the place of an empty range.
  predicate DropsTrap(start: nat, len: nat) {
    start % PAGE_SIZE == 0 && TRAP_VPN <= First39(start) <= Last39(start, len) <= TRAMPOLINE_VPN
  }

  // A new break that gives up the trap page: the heap bottom, kept over an exec, is that page.
  ghost predicate GivesTrap(areas: seq<MapArea>, heapBottom: nat, newBrk: int) {
    heapBottom <= newBrk && HeapIsTrap(areas, heapBottom) && Ceil(newBrk) <= TRAP_VPN
  }

  // The range given up lies on the trap page, which is mapped.
  lemma {:induction false} DropsWhat(view: map<nat, nat>, start: nat, len: nat)
    requires TRAP_VPN in view
    ensures DropsTrap(start, len) ==> AllMapped(view, First39(start), Last39(start, len))
  {
    hide First39, Last39;
  }

  // sys_munmap and the return to user mode.
  method UnmapUser(sp: MemorySet, start: nat, len: nat, ghost env: TrapEnv, ghost top: nat) returns (o: Outcome, r: int)
    requires AllFramed(sp.areas) && sp.Live() && TrapReady(Of(sp), sp.pt.m.S(), env, top)
    modifies sp, sp.pt, sp.pt.m
    ensures o in {Fine, ReversedRange, Stuck} && sp.Live() && AllFramed(sp.areas) && sp.Budget() == old(sp.Budget())
    ensures Confined({sp.pt.id}, old(sp.pt.m.S()), sp.pt.m.S())
    ensures KeepsData(old(sp.pt.m.S()), sp.pt.m.S())
    ensures o.ReversedRange? <==> start % PAGE_SIZE == 0 && First39(start) > Last39(start, len)
    ensures (o.Stuck? <==> DropsTrap(start, len)) && (o.Fine? ==> r in {0, -1}) && (!o.Fine? ==> r == 0)
    ensures !o.Stuck? ==> TrapReady(Of(sp), sp.pt.m.S(), env, top)
    ensures o.Fine? ==>
      (r == -1 <==> start % PAGE_SIZE != 0 || !AllMapped(old(sp.pt.Map()), First39(start), Last39(start, len)))
    ensures o.ReversedRange? || r == -1 ==> sp.areas == old(sp.areas) && sp.pt.m.S() == old(sp.pt.m.S())
    ensures o.ReversedRange? || r == -1 ==> Of(sp) == old(Of(sp))
    ensures o.Fine? && r == 0 ==> sp.areas == Kept(old(sp.areas), First39(start), Last39(start, len))
  {
    hide MemorySet.Live, MemorySet.Budget, AllFramed, Confined, Released, TrapReady, LiveSpace, TrampolineEntry, View,
         Kept, AllMapped, First39, Last39, Holding, KeepsData;
    FromLive(sp);
    ghost var p, s0, tramp := Of(sp), sp.pt.m.S(), TrampolineEntry(sp.trampoline);
    TrapThere(p, s0, env, top);
    DropsWhat(sp.pt.Map(), start, len);
    o, r := SysMunmap(sp, start, len);
    FromLive(sp);
    ReleasedConfines(sp.pt.id, s0, sp.pt.m.S());
    ReleasedKeepsData(sp.pt.id, s0, sp.pt.m.S());
    KeptFramed(p.areas, First39(start), Last39(start, len));
    if o.Fine? && r == 0 {
      MunmapReady(p, Of(sp), s0, sp.pt.m.S(), tramp, env, top, First39(start), Last39(start, len));
    } else {
      SameReady(p, Of(sp), s0, sp.pt.m.S(), env, top);
    }
    var ok := CanReturn(sp);
    if o.ReversedRange? { r := 0; } else if !ok { o, r := Stuck, 0; }
  }

  lemma {:induction false} SameReady(p: Space, p': Space, s: Store, s': Store, env: TrapEnv, top: nat)
    requires p'.areas == p.areas && View(s'.mem, p'.tables) == View(s.mem, p.tables) && s'.mem == s.mem
    requires TrapReady(p, s, env, top)
    ensures TrapReady(p', s', env, top) && TRAP_VPN in View(s'.mem, p'.tables)
  {
  }

  // sys_sbrk and the return to user mode.
  method BreakUser(sp: MemorySet, heapBottom: nat, brk: nat, size: int, ghost env: TrapEnv, ghost top: nat)
      returns (o: Outcome, r: Option<nat>, newBrk: nat)
    requires heapBottom < BRK_LIMIT && brk < BRK_LIMIT && -0x8000_0000 <= size < 0x8000_0000 && AllFramed(sp.areas)
    requires sp.Live() && TrapReady(Of(sp), sp.pt.m.S(), env, top)
    modifies sp, sp.pt, sp.pt.m
    ensures o in {Fine, OutOfFrames, MappedBefore, ReversedRange, Stuck}
    ensures o.Stuck? ==> GivesTrap(old(sp.areas), heapBottom, brk + size)
    ensures o.Fine? ==> !GivesTrap(old(sp.areas), heapBottom, brk + size) && TrapReady(Of(sp), sp.pt.m.S(), env, top)
    ensures o.Fine? ==> sp.Live() && AllFramed(sp.areas) && sp.Budget() == old(sp.Budget())
    ensures o.Fine? ==> Confined({sp.pt.id}, old(sp.pt.m.S()), sp.pt.m.S())
    ensures r.Some? ==> o.Fine? && r.value == brk && newBrk == brk + size < BRK_LIMIT
    ensures r.Some? ==> Resized(old(sp.areas), sp.areas, heapBottom, newBrk, old(sp.pt.Map()), sp.pt.Map())
    ensures r.Some? ==> NewZeros(old(sp.areas), sp.areas, heapBottom, sp.pt.m.mem)
    ensures BrkOutcome(if o.Stuck? then Fine else o, size, brk + size, old(sp.pt.m.Free()), old(sp.pt.tables).Keys,
                       old(sp.pt.Map()), old(sp.areas), heapBottom)
    ensures o.Fine? ==> KeepsData(old(sp.pt.m.S()), sp.pt.m.S())
    ensures o.Fine? && r.None? ==> sp.areas == old(sp.areas) && sp.pt.m.S() == old(sp.pt.m.S()) && newBrk == brk
    ensures o.Fine? && r.None? ==> Of(sp) == old(Of(sp))
    ensures o.Fine? ==> (r.None? <==> brk + size < heapBottom || First(old(sp.areas), Floor(heapBottom)).None?)
    ensures HeapOk(old(sp.areas), heapBottom, brk) ==> !o.ReversedRange?
    ensures HeapOk(old(sp.areas), heapBottom, brk) ==> (o.Fine? ==> HeapOk(sp.areas, heapBottom, newBrk))
  {
    hide MemorySet.Live, MemorySet.Budget, AllFramed, Confined, Released, Extended, TrapReady, LiveSpace,
         TrampolineEntry, View, Resized, HeapOk, First, Holding, Ceil, BrkOutcome, NewZeros, KeepsData;
    FromLive(sp);
    ghost var p, s0, tramp := Of(sp), sp.pt.m.S(), TrampolineEntry(sp.trampoline);
    o, r, newBrk := Rebreak(sp, heapBottom, brk, size);
    if !o.Fine? { return; }
    FromLive(sp);
    KeepsBoth(size < 0, sp.pt.id, s0, sp.pt.m.S());
    BrokenReady(p, Of(sp), s0, sp.pt.m.S(), tramp, env, top, heapBottom, r, newBrk);
    var ok := CanReturn(sp);
    if !ok { return Stuck, None, brk; }
  }

  // ---- setting a context up ----

  // The trap page is mapped out of the user's reach, and the stores `i` make its context ready.
  ghost predicate Trappable(p: Space, s: Store, i: TrapInit, env: TrapEnv, kernelSp: nat) {
    var view := View(s.mem, p.tables);
    && HasTrap(p.areas) && TRAP_VPN in view && KernelOnly(view[TRAP_VPN])
    && Sound(At(s.mem, PpnOf(view[TRAP_VPN])), i, env, kernelSp)
  }

  lemma {:induction false} TrapSet(p: Space, s: Store, s': Store, tramp: nat, i: TrapInit, env: TrapEnv, kernelSp: nat)
    requires LiveSpace(p, s, tramp) && AllFramed(p.areas) && Trappable(p, s, i, env, kernelSp)
    requires OnlyTrap(p.id, s, s', i, kernelSp) && View(s'.mem, p.tables) == View(s.mem, p.tables)
    requires Words(i) && kernelSp < WORD
    ensures TrapReady(p, s', env, kernelSp)
  {
    hide Tree, View, Holds, OwnsPages, Agrees, Pages, AllFramed, PpnOf, TrapWords, HasTrap, Sound, TrapPage, Words;
    PageOwner(s.owner, p.id, p.areas, View(s.mem, p.tables), tramp, TRAP_VPN);
    var f := PpnOf(View(s.mem, p.tables)[TRAP_VPN]);
    TrapPageSound(At(s.mem, f), At(s'.mem, f), i, env, kernelSp);
  }

  // from_elf maps the trap page readable and writable, for the kernel alone.
  lemma {:induction false} ProgramTrappable(p: Space, segs: seq<Segment>, s: Store, tramp: nat, i: TrapInit,
                                            env: TrapEnv, kernelSp: nat)
    requires Program(p.areas, segs, s.mem) && LiveSpace(p, s, tramp) && AllFramed(p.areas)
    requires i.AppStart? && i.satp == env.satp && i.handler == env.handler
    ensures Trappable(p, s, i, env, kernelSp)
  {
    hide OwnsPages, Pages, Agrees, Tree, View, Holds, Entries, AllLoaded, Entry, AllFramed, PpnOf, FlagsOf;
    var n := |segs| + 2;
    AreaInView(View(s.mem, p.tables), p.areas, tramp, n);
    AgreesOk(View(s.mem, p.tables), p.areas, tramp);
    AreaFrames(p.id, s.owner, p.areas, n);
    HasPage(p.areas[n], TRAP_VPN);
    EntryFrame(p.areas[n], TRAP_VPN);
  }

  lemma {:induction false} StartedReady(p: Space, segs: seq<Segment>, s: Store, tramp: nat, i: TrapInit, env: TrapEnv,
                                        kernelSp: nat)
    requires Started(p.areas, segs, s.mem, i, kernelSp) && LiveSpace(p, s, tramp) && AllFramed(p.areas)
    requires i.satp == env.satp && i.handler == env.handler
    ensures TrapReady(p, s, env, kernelSp)
  {
    hide OwnsPages, Pages, Agrees, Tree, View, Holds, Entries, AllLoaded, Entry, AllFramed, PpnOf, FlagsOf, Word;
    var n := |segs| + 2;
    ProgramTrappable(p, segs, s, tramp, i, env, kernelSp);
    AreaInView(View(s.mem, p.tables), p.areas, tramp, n);
    AgreesOk(View(s.mem, p.tables), p.areas, tramp);
    AreaFrames(p.id, s.owner, p.areas, n);
    EntryFrame(p.areas[n], TRAP_VPN);
    var page := At(s.mem, p.areas[n].data[TRAP_VPN]);
    assert HoldsContext(page, i, kernelSp);
  }

  // A fork copies a ready context.
  lemma {:induction false} ForkTrappable(p: Space, q: Space, s0: Store, s: Store, tramp: nat, env: TrapEnv,
                                         kernelSp: nat, anySp: nat)
    requires Cloned(q.id, p.areas, q.areas, s0, s) && |p.areas| == |q.areas| && AllFramed(p.areas) && p.id != q.id
    requires LiveSpace(p, s0, tramp) && LiveSpace(q, s, tramp) && TrapReady(p, s0, env, kernelSp)
    ensures Trappable(q, s, ForkReturn, env, anySp)
  {
    hide OwnsPages, Pages, Agrees, Tree, View, Holds, AllFramed, PpnOf, FlagsOf, TrapWords, Cloned;
    var i := AnyTrap(p.areas);
    TwinAt(q.id, p.areas, q.areas, s0, s, i);
    ForkIsExactCopy(q.id, p.id, p.areas, q.areas, View(s0.mem, p.tables), View(s.mem, q.tables), tramp, s0, s,
                    TRAP_VPN);
  }

  lemma {:induction false} TwinAt(id: nat, xs: seq<MapArea>, ys: seq<MapArea>, s0: Store, s: Store, i: nat)
    requires Cloned(id, xs, ys, s0, s) && i < |ys|
    ensures i < |xs| && Twin(xs[i], ys[i])
  {
  }

  // A new task's context, for whatever pid it got.
  lemma {:induction false} NewTrap(p: Space, s: Store, s': Store, tramp: nat, i: TrapInit, env: TrapEnv, pid: nat)
    requires LiveSpace(p, s, tramp) && AllFramed(p.areas) && Trappable(p, s, i, env, 0) && !i.Save? && Words(i)
    requires OnlyTrap(p.id, s, s', i, Pids.StackTop(pid)) && View(s'.mem, p.tables) == View(s.mem, p.tables)
    ensures TrapReady(p, s', env, Pids.StackTop(pid))
  {
    hide LiveSpace, AllFramed, OnlyTrap, View, TrapWords, HasTrap, PpnOf, FlagsOf, Has;
    TrapSet(p, s, s', tramp, i, env, Pids.StackTop(pid));
  }

  lemma {:induction false} MappedTrap(p: Space, s: Store, i: TrapInit, env: TrapEnv)
    requires Trappable(p, s, i, env, 0)
    ensures TRAP_VPN in View(s.mem, p.tables)
  {
  }

  lemma {:induction false} TrapThere(p: Space, s: Store, env: TrapEnv, kernelSp: nat)
    requires TrapReady(p, s, env, kernelSp)
    ensures TRAP_VPN in View(s.mem, p.tables)
  {
  }

  // What a trap saves leaves the context ready.
  lemma {:induction false} SavedReady(p: Space, s: Store, s': Store, tramp: nat, env: TrapEnv, kernelSp: nat,
                                      regs: seq<Usize>)
    requires LiveSpace(p, s, tramp) && AllFramed(p.areas) && TrapReady(p, s, env, kernelSp) && kernelSp < WORD
    requires OnlyTrap(p.id, s, s', Save(regs), 0) && View(s'.mem, p.tables) == View(s.mem, p.tables)
    ensures TrapReady(p, s', env, kernelSp)
  {
    hide LiveSpace, AllFramed, View, TrapWords, HasTrap, PpnOf, FlagsOf, Has, TrapPage;
    TrapFrame(p, s, tramp, env, kernelSp);
    var f := PpnOf(View(s.mem, p.tables)[TRAP_VPN]);
    TrapPageSound(At(s.mem, f), At(s'.mem, f), Save(regs), env, kernelSp);
  }

  lemma {:induction false} KeepsBoth(less: bool, id: nat, s: Store, s': Store)
    requires if less then Released(id, s, s') else Extended(id, s, s')
    ensures KeepsData(s, s')
  {
    hide Released, Extended, KeepsData;
    if less { ReleasedKeepsData(id, s, s'); } else { ExtendedKeepsData(id, s, s'); }
  }

  // sbrk, granted or refused.
  lemma {:induction false} BrokenReady(p: Space, p': Space, s: Store, s': Store, tramp: nat, env: TrapEnv,
                                       kernelSp: nat, heapBottom: nat, r: Option<nat>, brk: nat)
    requires LiveSpace(p, s, tramp) && LiveSpace(p', s', tramp) && AllFramed(p.areas) && KeepsData(s, s')
    requires TrapReady(p, s, env, kernelSp)
    requires r.Some? ==> Resized(p.areas, p'.areas, heapBottom, brk, View(s.mem, p.tables), View(s'.mem, p'.tables))
    requires r.None? ==> p'.areas == p.areas && View(s'.mem, p'.tables) == View(s.mem, p.tables)
    ensures TRAP_VPN in View(s'.mem, p'.tables)
       <==> !(r.Some? && HeapIsTrap(p.areas, heapBottom) && Ceil(brk) <= TRAP_VPN)
    ensures TRAP_VPN in View(s'.mem, p'.tables) ==> TrapReady(p', s', env, kernelSp)
  {
    hide LiveSpace, AllFramed, KeepsData, Resized, View, HeapIsTrap, Ceil, TrapWords, HasTrap, PpnOf, FlagsOf, Has;
    if r.Some? {
      BreakReady(p, p', s, s', tramp, env, kernelSp, heapBottom, brk);
    } else {
      SameTrap(p, p', s, s', tramp, env, kernelSp);
    }
  }
}
