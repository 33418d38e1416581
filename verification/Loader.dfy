/** Building a user space from the Load segments of an ELF file (src/mm/memory_set.rs:207-303). */
module Loader {
  import opened Address
  import opened Frames
  import opened FrameAllocator
  import opened PageTables
  import opened UserAccess
  import opened Areas
  import opened Layout
  import opened MemorySets
  import opened Fork

  // A program header of type Load: its address range, the file bytes, the R/W/X flags.
  datatype Segment = Segment(vaddr: nat, memsz: nat, data: seq<Byte>, r: bool, w: bool, x: bool)

  function SegPerm(g: Segment): Perm {
    U + (if g.r then R else 0) + (if g.w then W else 0) + (if g.x then X else 0)
  }

  lemma {:induction false} SegRights(g: Segment)
    ensures Rights(WithV(SegPerm(g)), g.r, g.w, g.x, true)
  {
  }

  function SegStart(g: Segment): nat { Floor(VirtAddr(g.vaddr)) }

  function SegEnd(g: Segment): nat { Ceil(VirtAddr((g.vaddr + g.memsz) % WORD)) }

  // The file part of the segment fits its pages.
  predicate FileFits(g: Segment) { SegStart(g) <= SegEnd(g) && |g.data| <= (SegEnd(g) - SegStart(g)) * PAGE_SIZE }

  lemma {:induction false} SegmentBounds(g: Segment)
    ensures SegStart(g) <= TRAMPOLINE_VPN && SegEnd(g) <= VPNS
  {
  }

  // Area b is segment g, loaded.
  ghost predicate Loaded(b: MapArea, g: Segment, mem: Memory) {
    && b.start == SegStart(g) && b.end == SegEnd(g) && b.kind.Framed?
    && Rights(WithV(b.perm), g.r, g.w, g.x, true)
    && Filled(b, Some(g.data), mem)
  }

  ghost predicate AllLoaded(areas: seq<MapArea>, segs: seq<Segment>, mem: Memory) {
    |areas| <= |segs| && forall i :: 0 <= i < |areas| ==> Loaded(areas[i], segs[i], mem)
  }

  // Later pushes leave loaded bytes alone.
  lemma {:induction false} LoadedKept(id: nat, areas: seq<MapArea>, n: nat, segs: seq<Segment>, s: Store, s': Store)
    requires n <= |areas| && AllLoaded(areas[..n], segs, s.mem) && AllOk(areas) && Disjoint(areas)
    requires OwnsPages(id, s.owner, Pages(areas)) && Extended(id, s, s')
    ensures AllLoaded(areas[..n], segs, s'.mem)
  {
    hide OwnsPages, AllOk, Disjoint, Pages, ZeroPage, Overlay, SegStart, SegEnd, Rights;
    forall i | 0 <= i < n ensures Loaded(areas[..n][i], segs[i], s'.mem) {
      AreaFrames(id, s.owner, areas, i);
      assert Loaded(areas[..n][i], segs[i], s.mem);
    }
  }

  // File sizes are at most memory sizes, as the System V gABI (chapter 5, Program Header) demands of
  // PT_LOAD; the segments start on page boundaries, follow each other without sharing a page, are not
  // empty, and leave room for the guard page and the stack below the trap context.
  ghost predicate GoodLayout(segs: seq<Segment>) {
    && (forall i :: 0 <= i < |segs| ==> |segs[i].data| <= segs[i].memsz && segs[i].memsz > 0)
    && (forall i :: 0 <= i < |segs| ==> segs[i].vaddr % PAGE_SIZE == 0 && segs[i].vaddr + segs[i].memsz < VA_SPACE)
    && (forall i :: 0 < i < |segs| ==> SegEnd(segs[i - 1]) <= SegStart(segs[i]))
    && (|segs| > 0 ==> SegEnd(segs[|segs| - 1]) + 3 <= VPNS - 2)
  }

  lemma {:induction false} CeilBelow(v: nat, e: nat)
    ensures v < Ceil(e) <==> v * 4096 < e
  {
  }

  // A text segment and a data segment behind it make such a layout.
  lemma {:induction false} GoodWitness(text: seq<Byte>, data: seq<Byte>)
    requires 0 < |text| <= 0x10_0000 && 0 < |data| <= 0x10_0000
    ensures GoodLayout([Segment(0x10000, |text|, text, true, false, true),
                        Segment(0x20_0000, |data|, data, true, true, false)])
  {
    hide SegStart, SegEnd, Ceil;
    GoodSegment(Segment(0x10000, |text|, text, true, false, true));
    GoodSegment(Segment(0x20_0000, |data|, data, true, true, false));
    CeilBelow(0x110, 0x10000 + |text|);
    CeilBelow(0x300, 0x20_0000 + |data|);
  }

  // Where the mapped pages of a space under construction end.
  ghost predicate Below(view: map<nat, nat>, hi: nat) {
    forall v :: v in view ==> v == TRAMPOLINE_VPN || v < hi
  }

  // A well-placed segment has at least one page, and its first byte is the first byte of that page.
  lemma {:induction false} GoodSegment(g: Segment)
    requires g.vaddr % PAGE_SIZE == 0 && g.memsz > 0 && g.vaddr + g.memsz < VA_SPACE
    ensures SegStart(g) < SegEnd(g) <= VPNS && SegStart(g) * PAGE_SIZE == g.vaddr
    ensures SegEnd(g) == Ceil(g.vaddr + g.memsz)
  {
    assert VirtAddr(g.vaddr) == g.vaddr;
    assert (g.vaddr + g.memsz) % WORD == g.vaddr + g.memsz;
    assert VirtAddr(g.vaddr + g.memsz) == g.vaddr + g.memsz;
  }

  lemma {:induction false} BelowAfter(view: map<nat, nat>, b: MapArea, hi: nat)
    requires Below(view, hi) && hi <= b.end
    ensures Below(view + EntriesOf(b), b.end)
  {
    hide Entry;
  }

  // The areas from_elf is going to build, and the frames they take.
  function SegArea(g: Segment): MapArea { MapArea(SegStart(g), SegEnd(g), map[], Framed, SegPerm(g)) }

  function TailAreas(maxEnd: nat): seq<MapArea> {
    var top := StackTop(maxEnd);
    [MapArea(Floor(VirtAddr(top - USER_STACK_SIZE)), Ceil(VirtAddr(top)), map[], Framed, R + W + U),
     MapArea(Floor(VirtAddr(top)), Ceil(VirtAddr(top)), map[], Framed, R + W + U),
     MapArea(VPNS - 2, TRAMPOLINE_VPN, map[], Framed, R + W)]
  }

  function Plan(segs: seq<Segment>): seq<MapArea> {
    seq(|segs|, i requires 0 <= i < |segs| => SegArea(segs[i])) + TailAreas(MaxEnd(segs))
  }

  ghost function ProgramFrames(segs: seq<Segment>): nat { SpaceFrames(Plan(segs)) }

  // Pushing the next area follows the plan.
  twostate lemma Pushes(new plan: seq<MapArea>, ms: MemorySet, new o: Outcome)
    requires |old(ms.areas)| < |plan| && old(OnPlan(ms, plan))
    requires plan[|old(ms.areas)|].start <= plan[|old(ms.areas)|].end
    requires o.OutOfFrames? ==> var a := plan[|old(ms.areas)|];
             old(ms.pt.m.Free()) < Takes(old(ms.pt.tables).Keys, a, a.start, a.end)
    requires o.Fine? ==> |ms.areas| == |old(ms.areas)| + 1 && ms.areas[..|old(ms.areas)|] == old(ms.areas)
    requires o.Fine? ==> var n := |old(ms.areas)|; ms.areas[n] == plan[n].(data := ms.areas[n].data)
    requires o.Fine? ==> var a := plan[|old(ms.areas)|];
             ms.pt.tables.Keys == old(ms.pt.tables).Keys + PathsIn(a.start, a.end)
    ensures o.OutOfFrames? ==> old(ms.Budget()) < SpaceFrames(plan)
    ensures o.Fine? ==> OnPlan(ms, plan)
  {
    hide TreeFor, PathsIn, PathsOf, Weight, SpaceFrames, Machine.Free;
    if o.OutOfFrames? { PlanShort(plan, old(ms.areas), old(ms.pt.tables).Keys, old(ms.pt.m.Free())); }
    if o.Fine? { PlanNext(plan, old(ms.areas), ms.areas, old(ms.pt.tables).Keys); }
  }

  // The same for a framed area.
  twostate lemma Follows(new plan: seq<MapArea>, ms: MemorySet, new o: Outcome)
    requires |old(ms.areas)| < |plan| && old(OnPlan(ms, plan)) && plan[|old(ms.areas)|].kind.Framed?
    requires plan[|old(ms.areas)|].start <= plan[|old(ms.areas)|].end
    requires o.OutOfFrames? ==> var a := plan[|old(ms.areas)|];
             old(ms.pt.m.Free()) < NewFrames(old(ms.pt.tables).Keys, a.start, a.end)
    requires o.Fine? ==> |ms.areas| == |old(ms.areas)| + 1 && ms.areas[..|old(ms.areas)|] == old(ms.areas)
    requires o.Fine? ==> var n := |old(ms.areas)|; ms.areas[n] == plan[n].(data := ms.areas[n].data)
    requires o.Fine? ==> var a := plan[|old(ms.areas)|];
             ms.pt.tables.Keys == old(ms.pt.tables).Keys + PathsIn(a.start, a.end)
    ensures o.OutOfFrames? ==> old(ms.Budget()) < SpaceFrames(plan)
    ensures o.Fine? ==> OnPlan(ms, plan)
  {
    hide TreeFor, PathsIn, PathsOf, Weight, SpaceFrames, Machine.Free, OnPlan, MemorySet.Budget;
    Pushes(plan, ms, o);
  }

  // One segment of the loop of from_elf.
  method LoadOne(ms: MemorySet, g: Segment, ghost segs: seq<Segment>) returns (o: Outcome)
    requires |ms.areas| < |segs| && g == segs[|ms.areas|] && ms.Live() && AllLoaded(ms.areas, segs, ms.pt.m.mem)
    requires OnPlan(ms, Plan(segs))
    modifies ms, ms.pt, ms.pt.m
    ensures ms.pt.m.Valid() && (o.OutOfFrames? ==> ms.pt.m.Free() == 0 && old(ms.Budget()) < ProgramFrames(segs))
    ensures o.Fine? ==> OnPlan(ms, Plan(segs))
    ensures SegStart(g) < SegEnd(g) <= TRAMPOLINE_VPN && FileFits(g) && Below(old(ms.pt.Map()), SegStart(g)) ==>
      o in {Fine, OutOfFrames}
    ensures o.Fine? ==> ms.Live() && |ms.areas| == |old(ms.areas)| + 1 && AllLoaded(ms.areas, segs, ms.pt.m.mem)
    ensures o.Fine? ==> ms.Budget() == old(ms.Budget())
    ensures o.Fine? ==> SegStart(g) <= SegEnd(g)
    ensures o.Fine? ==> (Below(old(ms.pt.Map()), SegStart(g)) ==> Below(ms.pt.Map(), SegEnd(g)))
    ensures o.Fine? ==> Extended(ms.pt.id, old(ms.pt.m.S()), ms.pt.m.S())
  {
    hide Tree, View, Holds, Extended, OwnsPages, Machine.Valid, Machine.Free, Agrees, Pages, Weight, TrampolineEntry,
         EntriesOf, Filled, Ceil, Floor, VirtAddr, SegPerm, NewFrames, Rights, WithV,
         OnPlan, SpaceFrames, TailAreas, PathsIn;
    ghost var s0, n := ms.pt.m.S(), |ms.areas|;
    AgreesOk(ms.pt.Map(), ms.areas, TrampolineEntry(ms.trampoline));
    o := ms.PushNew(VirtAddr(g.vaddr), VirtAddr((g.vaddr + g.memsz) % WORD), SegPerm(g), Some(g.data));
    if o.Fine? || o.OutOfFrames? { Follows(Plan(segs), ms, o); }
    if o.Fine? {
      SegRights(g);
      assert old(ms.areas)[..n] == old(ms.areas);
      LoadedKept(ms.pt.id, old(ms.areas), n, segs, s0, ms.pt.m.S());
      assert ms.areas[..n] == old(ms.areas);
      assert forall i :: 0 <= i < n ==> ms.areas[i] == old(ms.areas)[i];
      if Below(old(ms.pt.Map()), SegStart(g)) {
        BelowAfter(old(ms.pt.Map()), ms.areas[n], SegStart(g));
      }
    }
  }

  // The loop of from_elf over the Load segments.
  method LoadSegments(ms: MemorySet, segs: seq<Segment>) returns (o: Outcome, maxEnd: nat)
    requires ms.areas == [] && ms.Live() && OnPlan(ms, Plan(segs))
    modifies ms, ms.pt, ms.pt.m
    ensures ms.pt.m.Valid() && (o.OutOfFrames? ==> ms.pt.m.Free() == 0 && old(ms.Budget()) < ProgramFrames(segs))
    ensures o.Fine? ==> OnPlan(ms, Plan(segs))
    ensures GoodLayout(segs) ==> o in {Fine, OutOfFrames}
    ensures o.Fine? ==> ms.Live() && |ms.areas| == |segs| && AllLoaded(ms.areas, segs, ms.pt.m.mem)
    ensures o.Fine? ==> ms.Budget() == old(ms.Budget())
    ensures o.Fine? ==> maxEnd == (if segs == [] then 0 else SegEnd(segs[|segs| - 1])) <= VPNS
    ensures o.Fine? && GoodLayout(segs) ==> Below(ms.pt.Map(), maxEnd)
    ensures o.Fine? ==> Extended(ms.pt.id, old(ms.pt.m.S()), ms.pt.m.S())
  {
    hide Tree, View, Holds, Extended, OwnsPages, Machine.Valid, Machine.Free, Agrees, Pages, Weight, TrampolineEntry,
         SegEnd, SegStart, Loaded, Below, OnPlan, Plan, SpaceFrames;
    maxEnd := 0;
    var i := 0;
    Reflexive(ms.pt.id, ms.pt.m.S());
    NothingBelow(ms.pt.Map(), TrampolineEntry(ms.trampoline));
    while i < |segs|
      invariant 0 <= i <= |segs| && ms.Live() && |ms.areas| == i && ms.Budget() == old(ms.Budget())
      invariant AllLoaded(ms.areas, segs, ms.pt.m.mem) && OnPlan(ms, Plan(segs))
      invariant maxEnd == (if i == 0 then 0 else SegEnd(segs[i - 1])) <= VPNS
      invariant GoodLayout(segs) ==> Below(ms.pt.Map(), maxEnd)
      invariant Extended(ms.pt.id, old(ms.pt.m.S()), ms.pt.m.S())
    {
      ghost var s0 := ms.pt.m.S();
      var g := segs[i];
      ghost var good := GoodLayout(segs);
      if good {
        FitsPages(g);
        LayoutOrder(segs, i);
        BelowMore(ms.pt.Map(), maxEnd, SegStart(g));
      }
      o := LoadOne(ms, g, segs);
      if !o.Fine? {
        return;
      }
      SegmentBounds(g);
      ExtendedTransitive(ms.pt.id, old(ms.pt.m.S()), s0, ms.pt.m.S());
      maxEnd := SegEnd(g);
      i := i + 1;
    }
    o := Fine;
  }

  lemma {:induction false} LayoutOrder(segs: seq<Segment>, i: nat)
    requires i < |segs| && GoodLayout(segs)
    ensures SegEnd(segs[i]) + 3 <= VPNS - 2
    decreases |segs| - i
  {
    hide SegEnd, SegStart;
    if i + 1 < |segs| {
      LayoutOrder(segs, i + 1);
      GoodSegment(segs[i + 1]);
    }
  }

  lemma {:induction false} BelowMore(view: map<nat, nat>, lo: nat, hi: nat)
    requires Below(view, lo) && lo <= hi
    ensures Below(view, hi)
  {
  }

  lemma {:induction false} NothingBelow(view: map<nat, nat>, tramp: nat)
    requires Agrees(view, [], tramp)
    ensures Below(view, 0)
  {
  }

  // ---- stack, heap and trap context ----

  function StackTop(maxEnd: nat): nat { maxEnd * PAGE_SIZE + PAGE_SIZE + USER_STACK_SIZE }

  // The last three areas of a user space whose segments end at page maxEnd.
  ghost predicate UserTail(stack: MapArea, heap: MapArea, trap: MapArea, maxEnd: nat) {
    var top := StackTop(maxEnd);
    && stack.start == Floor(VirtAddr(top - USER_STACK_SIZE)) && stack.end == Ceil(VirtAddr(top))
    && stack.perm == R + W + U
    && heap.start == Floor(VirtAddr(top)) && heap.end == Ceil(VirtAddr(top)) && heap.perm == R + W + U
    && trap.start == VPNS - 2 && trap.end == TRAMPOLINE_VPN && trap.perm == R + W
    && stack.kind.Framed? && heap.kind.Framed? && trap.kind.Framed?
  }

  lemma {:induction false} TailPlaces(maxEnd: nat)
    ensures Floor(VirtAddr(TRAP_CONTEXT_BASE)) == VPNS - 2 && Ceil(VirtAddr(TRAMPOLINE)) == TRAMPOLINE_VPN
    ensures maxEnd + 3 <= VPNS - 2 ==>
      var top := StackTop(maxEnd);
      && Floor(VirtAddr(top - USER_STACK_SIZE)) == maxEnd + 1
      && Ceil(VirtAddr(top)) == maxEnd + 3 && Floor(VirtAddr(top)) == maxEnd + 3
  {
    assert VirtAddr(TRAP_CONTEXT_BASE) == (VPNS - 2) * PAGE_SIZE;
    assert VirtAddr(TRAMPOLINE) == (VPNS - 1) * PAGE_SIZE;
    if maxEnd + 3 <= VPNS - 2 {
      assert VirtAddr(StackTop(maxEnd)) == (maxEnd + 3) * PAGE_SIZE;
      assert VirtAddr(StackTop(maxEnd) - USER_STACK_SIZE) == (maxEnd + 1) * PAGE_SIZE;
    }
  }

  method PushTail(ms: MemorySet, maxEnd: nat, ghost plan: seq<MapArea>) returns (o: Outcome)
    requires maxEnd <= VPNS && ms.Live()
    requires |plan| == |ms.areas| + 3 && plan[|ms.areas|..] == TailAreas(maxEnd) && OnPlan(ms, plan)
    modifies ms, ms.pt, ms.pt.m
    ensures ms.pt.m.Valid() && (o.OutOfFrames? ==> ms.pt.m.Free() == 0 && old(ms.Budget()) < SpaceFrames(plan))
    ensures o.Fine? ==> OnPlan(ms, plan)
    ensures maxEnd + 3 <= VPNS - 2 && Below(old(ms.pt.Map()), maxEnd) ==> o in {Fine, OutOfFrames}
    ensures o.Fine? ==> ms.Live() && |ms.areas| == |old(ms.areas)| + 3 && ms.areas[..|ms.areas| - 3] == old(ms.areas)
    ensures o.Fine? ==> ms.Budget() == old(ms.Budget())
    ensures o.Fine? ==> UserTail(ms.areas[|ms.areas| - 3], ms.areas[|ms.areas| - 2], ms.areas[|ms.areas| - 1], maxEnd)
    ensures o.Fine? && maxEnd + 3 <= VPNS - 2 && Below(old(ms.pt.Map()), maxEnd) ==> maxEnd !in ms.pt.Map()
    ensures o.Fine? ==> Extended(ms.pt.id, old(ms.pt.m.S()), ms.pt.m.S())
  {
    hide Tree, View, Holds, Extended, OwnsPages, Machine.Valid, Machine.Free, Agrees, Pages, Weight, TrampolineEntry,
         Filled, Ceil, Floor, VirtAddr, Entry, NewFrames, OnPlan, SpaceFrames, PathsIn, MemorySet.Budget, EntriesOf,
         Below, MemorySet.Live, UserTail, TailAreas, StackTop;
    ghost var n := |ms.areas|;
    TailPlaces(maxEnd);
    TailAt(plan, n, maxEnd);
    var bottom := maxEnd * PAGE_SIZE + PAGE_SIZE;
    var top := bottom + USER_STACK_SIZE;
    ghost var good, view := maxEnd + 3 <= VPNS - 2 && Below(ms.pt.Map(), maxEnd), ms.pt.Map();
    if good { NothingAt(view, maxEnd, maxEnd + 1, maxEnd + 3); }
    o := ms.PushNew(VirtAddr(bottom), VirtAddr(top), R + W + U, None);
    if o.Fine? || o.OutOfFrames? { Follows(plan, ms, o); }
    if !o.Fine? {
      return;
    }
    if good { GuardLeft(view, maxEnd, maxEnd, ms.areas[n]); }
    ghost var s1 := ms.pt.m.S();
    label Stack:
    view := ms.pt.Map();
    o := ms.PushNew(VirtAddr(top), VirtAddr(top), R + W + U, None);
    if o.Fine? || o.OutOfFrames? { Follows@Stack(plan, ms, o); }
    if !o.Fine? {
      return;
    }
    if good {
      GuardLeft(view, maxEnd, maxEnd + 3, ms.areas[n + 1]);
      NothingAt(ms.pt.Map(), maxEnd + 3, VPNS - 2, TRAMPOLINE_VPN);
    }
    ghost var s2 := ms.pt.m.S();
    ExtendedTransitive(ms.pt.id, old(ms.pt.m.S()), s1, s2);
    label Heap:
    view := ms.pt.Map();
    o := ms.PushNew(VirtAddr(TRAP_CONTEXT_BASE), VirtAddr(TRAMPOLINE), R + W, None);
    if o.Fine? || o.OutOfFrames? { Follows@Heap(plan, ms, o); }
    if !o.Fine? {
      return;
    }
    if good { GuardLeft(view, maxEnd, maxEnd + 3, ms.areas[n + 2]); }
    ExtendedTransitive(ms.pt.id, old(ms.pt.m.S()), s2, ms.pt.m.S());
    TailIs(ms.areas[n], ms.areas[n + 1], ms.areas[n + 2], maxEnd);
  }

  lemma {:induction false} TailAt(plan: seq<MapArea>, n: nat, maxEnd: nat)
    requires |plan| == n + 3 && plan[n..] == TailAreas(maxEnd)
    ensures var bottom := maxEnd * PAGE_SIZE + PAGE_SIZE; var top := bottom + USER_STACK_SIZE;
            && plan[n] == MapArea(Floor(VirtAddr(bottom)), Ceil(VirtAddr(top)), map[], Framed, R + W + U)
            && plan[n + 1] == MapArea(Floor(VirtAddr(top)), Ceil(VirtAddr(top)), map[], Framed, R + W + U)
            && plan[n + 2] == MapArea(VPNS - 2, TRAMPOLINE_VPN, map[], Framed, R + W)
    ensures StackTop(maxEnd) == maxEnd * PAGE_SIZE + PAGE_SIZE + USER_STACK_SIZE
  {
    hide Floor, Ceil, VirtAddr;
    assert plan[n] == plan[n..][0] && plan[n + 1] == plan[n..][1] && plan[n + 2] == plan[n..][2];
  }

  lemma {:induction false} TailIs(stack: MapArea, heap: MapArea, trap: MapArea, maxEnd: nat)
    requires var bottom := maxEnd * PAGE_SIZE + PAGE_SIZE; var top := bottom + USER_STACK_SIZE;
             && stack == MapArea(Floor(VirtAddr(bottom)), Ceil(VirtAddr(top)), stack.data, Framed, R + W + U)
             && heap == MapArea(Floor(VirtAddr(top)), Ceil(VirtAddr(top)), heap.data, Framed, R + W + U)
             && trap == MapArea(VPNS - 2, TRAMPOLINE_VPN, trap.data, Framed, R + W)
    ensures UserTail(stack, heap, trap, maxEnd)
  {
    hide Floor, Ceil, VirtAddr;
  }

  // Nothing is mapped at [lo, hi), above what is mapped so far.
  lemma {:induction false} NothingAt(view: map<nat, nat>, top: nat, lo: nat, hi: nat)
    requires Below(view, top) && top <= lo && hi <= TRAMPOLINE_VPN
    ensures (forall v :: lo <= v < hi ==> v !in view) && (top < TRAMPOLINE_VPN ==> top !in view)
  {
  }

  // The next area ends above all others, and the guard page stays unmapped.
  lemma {:induction false} GuardLeft(view: map<nat, nat>, guard: nat, top: nat, b: MapArea)
    requires Below(view, top) && top <= b.end && guard < b.start && guard !in view
    ensures Below(view + EntriesOf(b), b.end) && guard !in view + EntriesOf(b)
  {
    hide Entry;
  }

  function MaxEnd(segs: seq<Segment>): nat { if segs == [] then 0 else SegEnd(segs[|segs| - 1]) }

  // MemorySet::from_elf.  The end of the segments is that of the last one, not the greatest.
  // For well laid out segments the only panic is running out of frames, and the page below the
  // stack stays unmapped.
  method FromElf(m: Machine, ghost id: nat, trampoline: nat, segs: seq<Segment>) returns (o: Outcome,
                 r: Option<MemorySet>, userSp: nat)
    requires m.Valid() && trampoline < m.base && (forall f :: f in m.owner ==> m.owner[f].id != id)
    modifies m
    ensures m.Valid() && (o.Fine? <==> r.Some?) && (o.OutOfFrames? ==> m.Free() == 0)
    ensures GoodLayout(segs) ==> o in {Fine, OutOfFrames}
    ensures o.OutOfFrames? ==> old(m.Free()) < ProgramFrames(segs)
    ensures o.Fine? ==> m.Free() == old(m.Free()) - ProgramFrames(segs)
    ensures r.Some? ==> fresh(r.value) && fresh(r.value.pt) && r.value.pt.m == m && r.value.pt.id == id
    ensures r.Some? ==> r.value.Live() && r.value.trampoline == trampoline && r.value.Budget() == old(m.Free())
    ensures r.Some? ==> var n, s := |segs|, r.value;
            && userSp == StackTop(MaxEnd(segs)) && |s.areas| == n + 3 && AllFramed(s.areas)
            && AllLoaded(s.areas[..n], segs, m.mem)
            && UserTail(s.areas[n], s.areas[n + 1], s.areas[n + 2], MaxEnd(segs))
    ensures r.Some? && GoodLayout(segs) ==> MaxEnd(segs) !in r.value.pt.Map()
    ensures r.Some? ==> Extended(id, old(m.S()), m.S())
  {
    hide Tree, View, Holds, Extended, OwnsPages, Machine.Valid, Machine.Free, Agrees, Pages, Weight, TrampolineEntry,
         Loaded, SegEnd, SegStart, Below, PathsOf, AllLoaded, Disjoint, AllOk, StackTop, SpaceFrames, TreeFor,
         MemorySet.Budget, TailAreas, UserTail, Plan, MaxEnd, OnPlan, MemorySet.Live;
    userSp := 0;
    PlanStarts(Plan(segs));
    PlanTail(segs);
    o, r := NewSpace(m, id, trampoline);
    if r.None? {
      return;
    }
    var ms := r.value;
    ghost var s1 := m.S();
    StartsPlan(ms, Plan(segs));
    var maxEnd;
    o, maxEnd := LoadSegments(ms, segs);
    if !o.Fine? {
      return o, None, 0;
    }
    ghost var s2, loaded := m.S(), ms.areas;
    ExtendedTransitive(id, old(m.S()), s1, s2);
    LiveApart(ms);
    o := PushTail(ms, maxEnd, Plan(segs));
    if !o.Fine? {
      return o, None, 0;
    }
    Whole(ms, Plan(segs));
    ExtendedTransitive(id, old(m.S()), s2, m.S());
    assert loaded[..|segs|] == loaded && ms.areas[..|segs|] == loaded;
    LoadedKept(id, loaded, |segs|, segs, s2, m.S());
    FramedThroughout(ms.areas, segs, m.mem, maxEnd);
    return Fine, Some(ms), StackTop(maxEnd);
  }

  lemma {:induction false} PlanTail(segs: seq<Segment>)
    ensures |Plan(segs)| == |segs| + 3 && Plan(segs)[|segs|..] == TailAreas(MaxEnd(segs))
    ensures MaxEnd(segs) == if segs == [] then 0 else SegEnd(segs[|segs| - 1])
  {
    hide TailAreas, SegEnd, SegArea;
    assert |TailAreas(MaxEnd(segs))| == 3 by { ThreeAreas(MaxEnd(segs)); }
  }

  lemma {:induction false} ThreeAreas(maxEnd: nat)
    ensures |TailAreas(maxEnd)| == 3
  {
  }

  lemma {:induction false} StartsPlan(ms: MemorySet, plan: seq<MapArea>)
    requires ms.areas == [] && ms.pt.tables.Keys == TreeFor(plan[..0])
    ensures OnPlan(ms, plan)
  {
    hide TreeFor;
  }

  lemma {:induction false} LiveApart(ms: MemorySet)
    requires ms.Live()
    ensures AllOk(ms.areas) && Disjoint(ms.areas) && OwnsPages(ms.pt.id, ms.pt.m.owner, Pages(ms.areas))
  {
    hide Tree, View, Holds, OwnsPages, Machine.Valid, Pages, TrampolineEntry, Entries;
  }

  lemma {:induction false} Whole(ms: MemorySet, plan: seq<MapArea>)
    requires OnPlan(ms, plan) && |ms.areas| == |plan|
    ensures ms.Budget() == ms.pt.m.Free() + SpaceFrames(plan)
  {
    hide TreeFor, Machine.Free;
    assert plan[..|plan|] == plan;
  }

  lemma {:induction false} FramedThroughout(areas: seq<MapArea>, segs: seq<Segment>, mem: Memory, maxEnd: nat)
    requires |areas| == |segs| + 3 && AllLoaded(areas[..|segs|], segs, mem)
    requires UserTail(areas[|segs|], areas[|segs| + 1], areas[|segs| + 2], maxEnd)
    ensures AllFramed(areas)
  {
    hide SegStart, SegEnd, Rights, Filled;
    forall i | 0 <= i < |segs| ensures areas[i].kind.Framed? {
      assert Loaded(areas[..|segs|][i], segs[i], mem);
    }
  }

  // ---- what a loaded program sees ----

  lemma {:induction false} OverlayByte(data: seq<Byte>, p: nat, k: nat)
    requires k < PAGE_SIZE
    ensures Overlay(data, p, ZeroPage())[k] == if p * PAGE_SIZE + k < |data| then data[p * PAGE_SIZE + k] else 0
  {
  }

  // Byte q of page p of a loaded segment's area.
  lemma {:induction false} LoadedPage(id: nat, s: Store, view: map<nat, nat>, areas: seq<MapArea>, tramp: nat,
                                      segs: seq<Segment>, n: nat, i: nat, p: nat, q: nat)
    requires i < n <= |areas| && n <= |segs| && SegStart(segs[i]) + p < SegEnd(segs[i]) && q < PAGE_SIZE
    requires AllLoaded(areas[..n], segs, s.mem) && Agrees(view, areas, tramp) && OwnsPages(id, s.owner, Pages(areas))
    ensures var v, g, k := SegStart(segs[i]) + p, segs[i], p * PAGE_SIZE + q;
            && v in view && Rights(FlagsOf(view[v]), g.r, g.w, g.x, true)
            && At(s.mem, PpnOf(view[v]))[q] == if k < |g.data| then g.data[k] else 0
  {
    hide OwnsPages, Agrees, Pages, SegStart, SegEnd, Overlay, ZeroPage, Entry, PpnOf, FlagsOf, Rights, WithV;
    var g, a := segs[i], areas[i];
    assert areas[..n][i] == a && Loaded(a, g, s.mem);
    AgreesOk(view, areas, tramp);
    AreaInView(view, areas, tramp, i);
    AreaFrames(id, s.owner, areas, i);
    EntryFrame(a, SegStart(g) + p);
    OverlayByte(g.data, p, q);
  }

  // The user finds byte b at address va, on a page with the rights of segment g.
  ghost predicate ShowsByte(mem: Memory, view: map<nat, nat>, va: nat, g: Segment, b: Byte) {
    var v := Floor(va);
    && v in view && Rights(FlagsOf(view[v]), g.r, g.w, g.x, true)
    && Peek(mem, PpnOf(view[v]) * PAGE_SIZE + Offset(va)) == b
  }

  // Byte k of a loaded segment's area, counted from the start of its first page, is byte k of the
  // file, and zero past the end of the file data.
  lemma {:induction false} LoadedByte(id: nat, s: Store, view: map<nat, nat>, areas: seq<MapArea>, tramp: nat,
                                      segs: seq<Segment>, n: nat, i: nat, k: nat)
    requires i < n <= |areas| && n <= |segs| && SegStart(segs[i]) <= SegEnd(segs[i])
    requires k < (SegEnd(segs[i]) - SegStart(segs[i])) * PAGE_SIZE
    requires AllLoaded(areas[..n], segs, s.mem) && Agrees(view, areas, tramp) && OwnsPages(id, s.owner, Pages(areas))
    ensures ShowsByte(s.mem, view, SegStart(segs[i]) * PAGE_SIZE + k, segs[i],
                      if k < |segs[i].data| then segs[i].data[k] else 0)
  {
    hide OwnsPages, Agrees, Pages, SegStart, SegEnd, AllLoaded, Floor, Offset, PpnOf, FlagsOf, Rights, Peek;
    var p, q := PageSplit(SegStart(segs[i]), SegEnd(segs[i]), k);
    LoadedPage(id, s, view, areas, tramp, segs, n, i, p, q);
    PeekAt(s.mem, PpnOf(view[SegStart(segs[i]) + p]), q);
  }

  lemma {:induction false} PeekAt(mem: Memory, f: nat, q: nat)
    requires q < PAGE_SIZE
    ensures Peek(mem, f * PAGE_SIZE + q) == At(mem, f)[q]
  {
    AddressSplit(f, q);
  }

  // Byte k of the pages from x on.
  lemma {:induction false} PageSplit(x: nat, e: nat, k: nat) returns (p: nat, q: nat)
    requires x <= e && k < (e - x) * PAGE_SIZE
    ensures q < PAGE_SIZE && p * PAGE_SIZE + q == k && x + p < e
    ensures Floor(x * PAGE_SIZE + k) == x + p && Offset(x * PAGE_SIZE + k) == q
  {
    p, q := k / PAGE_SIZE, k % PAGE_SIZE;
    assert x * PAGE_SIZE + k == (x + p) * PAGE_SIZE + q;
    AddressSplit(x + p, q);
  }

  // So a page-aligned segment has file byte k at vaddr + k, zero-filled up to its memory size.
  lemma {:induction false} LoadedAligned(id: nat, s: Store, view: map<nat, nat>, areas: seq<MapArea>, tramp: nat,
                                         segs: seq<Segment>, n: nat, i: nat, k: nat)
    requires i < n <= |areas| && n <= |segs| && k < segs[i].memsz
    requires segs[i].vaddr % PAGE_SIZE == 0 && segs[i].vaddr + segs[i].memsz < VA_SPACE
    requires AllLoaded(areas[..n], segs, s.mem) && Agrees(view, areas, tramp) && OwnsPages(id, s.owner, Pages(areas))
    ensures ShowsByte(s.mem, view, segs[i].vaddr + k, segs[i],
                      if k < |segs[i].data| then segs[i].data[k] else 0)
  {
    hide OwnsPages, Agrees, Pages, AllLoaded, Peek, SegStart, SegEnd, Floor, Offset, PpnOf, FlagsOf, Rights;
    GoodSegment(segs[i]);
    FitsPages(segs[i]);
    LoadedByte(id, s, view, areas, tramp, segs, n, i, k);
  }

  lemma {:induction false} FitsPages(g: Segment)
    requires g.vaddr % PAGE_SIZE == 0 && g.memsz > 0 && g.vaddr + g.memsz < VA_SPACE
    ensures SegStart(g) < SegEnd(g) && g.memsz <= (SegEnd(g) - SegStart(g)) * PAGE_SIZE
    ensures |g.data| <= g.memsz ==> FileFits(g)
  {
    GoodSegment(g);
  }
}
