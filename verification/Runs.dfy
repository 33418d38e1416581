/** Booting the kernel and running it: the invariant of every reachable state, and what it says. */
module Runs {
  import opened Address
  import opened Frames
  import opened FrameAllocator
  import opened PageTables
  import opened UserAccess
  import opened Areas
  import opened Layout
  import opened MemorySets
  import opened Fork
  import opened Loader
  import opened Tasks
  import opened TaskTables
  import opened Pids
  import opened MemorySyscalls
  import opened Isolation
  import opened Worlds
  import opened SpaceSteps
  import opened TaskSteps
  import opened Kernels
  import opened Traps
  import opened TrapPages
  import opened Sights
  import opened Calls
  import Effects
  import Lifecycle

  // The kernel space right after boot: every frame that is out is its own, and all its areas lie
  // below page `floor`, far enough below the trampoline for all kernel stacks memory has room for.
  ghost predicate Booted(kspace: MemorySet, floor: nat)
    reads kspace, kspace.pt, kspace.pt.m
  {
    var m := kspace.pt.m;
    && kspace.Live() && kspace.pt.id == 0 && m.base <= m.end && kspace.Budget() == m.end - m.base
    && (forall f :: f in m.owner ==> m.owner[f].id == 0)
    && Stacked(kspace.areas, kspace.areas, floor, []) && floor + 3 * ((m.end - m.base) / 2) + 3 <= VPNS
  }

  // A section of the kernel image, mapped at its own address.
  datatype Section = Section(start: nat, end: nat, perm: Perm)

  ghost predicate BelowFloor(g: Section, floor: nat) {
    Floor(VirtAddr(g.start)) < floor && Ceil(VirtAddr(g.end)) <= floor
  }

  function SectionArea(g: Section): MapArea {
    MapArea(Floor(VirtAddr(g.start)), Ceil(VirtAddr(g.end)), map[], Identical, g.perm)
  }

  function ImageAreas(image: seq<Section>): seq<MapArea> {
    seq(|image|, i requires 0 <= i < |image| => SectionArea(image[i]))
  }

  // No section ends before it starts, and no two have a page in common.
  ghost predicate LaidOut(image: seq<Section>) {
    && (forall i :: 0 <= i < |image| ==> SectionArea(image[i]).start <= SectionArea(image[i]).end)
    && (forall i, j :: 0 <= i < j < |image| ==> Apart(SectionArea(image[i]), SectionArea(image[j])))
  }

  // The first areas are those of the sections.
  ghost predicate OfImage(areas: seq<MapArea>, image: seq<Section>) {
    && |areas| <= |image|
    && forall i :: 0 <= i < |areas| ==> var g := image[i];
         areas[i] == MapArea(Floor(VirtAddr(g.start)), Ceil(VirtAddr(g.end)), areas[i].data, Identical, g.perm)
  }

  lemma {:induction false} ImageLaidOut(view: map<nat, nat>, areas: seq<MapArea>, tramp: nat, image: seq<Section>)
    requires |areas| == |image| && OfImage(areas, image) && Agrees(view, areas, tramp)
    ensures LaidOut(image)
  {
    hide Floor, Ceil, VirtAddr, Entries;
    forall i | 0 <= i < |image| ensures SectionArea(image[i]).start <= SectionArea(image[i]).end {
      assert AreaOk(areas[i]);
    }
    forall i, j | 0 <= i < j < |image| ensures Apart(SectionArea(image[i]), SectionArea(image[j])) {
      assert Apart(areas[i], areas[j]);
    }
  }

  // A page of the next section is already mapped: the sections overlap.
  lemma {:induction false} ImageOverlaps(view: map<nat, nat>, areas: seq<MapArea>, tramp: nat, image: seq<Section>,
                                         v: nat)
    requires |areas| < |image| && OfImage(areas, image) && Agrees(view, areas, tramp) && v in view
    requires v != TRAMPOLINE_VPN
    requires SectionArea(image[|areas|]).start <= v < SectionArea(image[|areas|]).end
    ensures !LaidOut(image)
  {
    hide Floor, Ceil, VirtAddr, Entries;
    EntriesKeys(areas, v);
    var i :| 0 <= i < |areas| && areas[i].start <= v < areas[i].end;
    assert !Apart(SectionArea(image[i]), SectionArea(image[|areas|]));
  }

  // MemorySet::new_kernel on a machine of which nothing is used yet.  Lack of frames apart, it panics
  // exactly if the sections are not laid out apart from each other.
  method NewKernel(m: Machine, trampoline: nat, image: seq<Section>, ghost floor: nat)
      returns (o: Outcome, r: Option<MemorySet>)
    requires trampoline < m.base && m.owner == map[] && m.Valid() && floor + 3 * ((m.end - m.base) / 2) + 3 <= VPNS
    requires forall i :: 0 <= i < |image| ==> BelowFloor(image[i], floor)
    modifies m
    ensures o in {Fine, OutOfFrames, ReversedRange, MappedBefore} && (o.Fine? <==> r.Some?)
    ensures if LaidOut(image) then o in {Fine, OutOfFrames} else !o.Fine?
    ensures o.OutOfFrames? ==> old(m.Free()) < SpaceFrames(ImageAreas(image))
    ensures o.Fine? ==> m.Free() == old(m.Free()) - SpaceFrames(ImageAreas(image))
    ensures r.Some? ==> Booted(r.value, floor) && r.value.pt.m == m && fresh(r.value) && fresh(r.value.pt)
    ensures r.Some? ==> |r.value.areas| == |image| && OfImage(r.value.areas, image)
  {
    hide Machine.Valid, Machine.Free, PageTable.Valid, MemorySet.Budget, Extended, Filled, EntriesOf, Floor, Ceil,
         VirtAddr, Stacked, LaidOut, Agrees, OwnsPages, Holds, View, Pages, TrampolineEntry, Takes, PathsIn, PathsOf,
         Weight, TreeFor, SpaceFrames, OnPlan;
    ghost var s0, plan := m.S(), ImageAreas(image);
    PlanStarts(plan);
    AllFree(m);
    o, r := NewSpace(m, 0, trampoline);
    if !o.Fine? { return; }
    var space := r.value;
    StartsPlan(space, plan);
    var i := 0;
    while i < |image|
      invariant 0 <= i <= |image| && space.Live() && |space.areas| == i && space.Budget() == old(m.Free())
      invariant forall j :: 0 <= j < i ==> space.areas[j].start < floor && space.areas[j].end <= floor
      invariant OfImage(space.areas, image) && Extended(0, s0, m.S()) && OnPlan(space, plan)
    {
      assert BelowFloor(image[i], floor);
      var a := SectionArea(image[i]);
      if a.start > a.end {
        assert !LaidOut(image) by { Reversed(image, i); }
        return ReversedRange, None;
      }
      FloorBound(VirtAddr(image[i].start));
      ghost var s1, before, view := m.S(), space.areas, space.pt.Map();
      label Before:
      o := space.Push(a, None);
      if o.Fine? || o.OutOfFrames? { Pushes@Before(plan, space, o); }
      if !o.Fine? {
        if v :| o.MappedBefore? && a.start <= v < a.end && v in view {
          ImageOverlaps(view, before, TrampolineEntry(trampoline), image, v);
        }
        return o, None;
      }
      ExtendedTransitive(0, s0, s1, m.S());
      assert forall j :: 0 <= j < i ==> space.areas[j] == space.areas[..i][j] == before[j];
      i := i + 1;
    }
    OnlyZero(s0, m.S());
    NoStacks(space.areas, floor);
    Whole(space, plan);
    ImageLaidOut(space.pt.Map(), space.areas, TrampolineEntry(trampoline), image);
    o, r := Fine, Some(space);
  }

  lemma {:induction false} Reversed(image: seq<Section>, i: nat)
    requires i < |image| && SectionArea(image[i]).start > SectionArea(image[i]).end
    ensures !LaidOut(image)
  {
  }

  lemma {:induction false} AllFree(m: Machine)
    requires m.Valid() && m.owner == map[]
    ensures m.base <= m.end && m.Free() == m.end - m.base
  {
  }

  lemma {:induction false} NoStacks(areas: seq<MapArea>, floor: nat)
    requires forall j :: 0 <= j < |areas| ==> areas[j].start < floor && areas[j].end <= floor
    ensures Stacked(areas, areas, floor, [])
  {
    assert areas[..|areas|] == areas;
  }

  lemma {:induction false} OnlyZero(s: Store, s': Store)
    requires Extended(0, s, s') && s.owner == map[]
    ensures forall f :: f in s'.owner ==> s'.owner[f].id == 0
  {
  }

  // The space and the kernel stack of the first task.
  ghost predicate FirstReady(kspace: MemorySet, ns: MemorySet, pids: PidAllocator, pid: nat, sections: seq<MapArea>,
                             floor: nat)
    reads kspace, kspace.pt, kspace.pt.m, ns, ns.pt, ns.pt.m, pids
  {
    var m := kspace.pt.m;
    && kspace.Live() && ns.Live() && AllFramed(ns.areas) && kspace != ns && ns.pt.m == m
    && ns.trampoline == kspace.trampoline
    && kspace.pt.id == 0 && ns.pt.id == 1 && m.base <= m.end && (forall f :: f in m.owner ==> m.owner[f].id in {0, 1})
    && m.Free() + Holding(Of(kspace)) + Holding(Of(ns)) == m.end - m.base
    && pids.Valid() && pids.Live() == {pid}
    && (pids.current == 0 || forall p :: 0 <= p < pids.current ==> p in pids.Live())
    && Stacked(kspace.areas, sections, floor, [pid]) && floor + 3 * ((m.end - m.base) / 2) + 3 <= VPNS
  }

  method FirstSpace(kspace: MemorySet, ghost floor: nat, segs: seq<Segment>, entry: Usize, status: Usize,
                    handler: Usize)
    returns (o: Outcome, ns: MemorySet, pids: PidAllocator, pid: nat, userSp: nat)
    requires Booted(kspace, floor)
    modifies kspace, kspace.pt, kspace.pt.m
    ensures GoodLayout(segs) ==> o in {Fine, OutOfFrames}
    ensures o.OutOfFrames? ==> old(kspace.pt.m.Free()) < ProgramFrames(segs) + 6
    ensures o.Fine? ==> FirstReady(kspace, ns, pids, pid, old(kspace.areas), floor)
    ensures o.Fine? ==> userSp == Loader.StackTop(MaxEnd(segs)) < BRK_LIMIT
    ensures o.Fine? ==> var i := AppStart(entry, userSp, Token(kspace.pt.root), status, handler);
            Started(ns.areas, segs, kspace.pt.m.mem, i, Pids.StackTop(pid))
  {
    hide Machine.Valid, Machine.Free, MemorySet.Live, MemorySet.Budget, AllFramed, Confined, Extended, LiveSpace,
         Holding, TrampolineEntry, GoodLayout, AllLoaded, UserTail, MaxEnd, Loader.StackTop, Stacked, PidSet, Weight,
         PidsGood, OnlyTrap, Started, View, ProgramFrames;
    var m := kspace.pt.m;
    ghost var sections, total, s0 := kspace.areas, m.end - m.base, m.S();
    FromLive(kspace);
    LiveBase(kspace);
    pids := new PidAllocator();
    NoPids(sections, floor, total);
    SpBound(segs);
    KernelToken(kspace);
    var n;
    o, n, userSp := FromElf(m, 1, kspace.trampoline, segs);
    ns, pid := kspace, 0;
    if !o.Fine? { return; }
    ns := n.value;
    ghost var s1 := m.S();
    ExtendedConfines(1, s0, s1);
    Survives(kspace, {1}, s0);
    FromLive(ns);
    ghost var p := Of(ns);
    TrapMapped(p, segs, s1, TrampolineEntry(ns.trampoline));
    var i := AppStart(entry, userSp, Token(kspace.pt.root), status, handler);
    o, pid := Equip(kspace, pids, ns, i, sections, floor, [], map[], total);
    if o.Fine? {
      ProgramKept(p, segs, s1, m.S(), TrampolineEntry(ns.trampoline), i, Pids.StackTop(pid));
      ConfinedTransitive({1}, {0, 1}, s0, s1, m.S());
      OwnersNow(s0, m.S());
      assert [] + [pid] == [pid];
    }
  }

  lemma {:induction false} KernelToken(kspace: MemorySet)
    requires kspace.Live()
    ensures Token(kspace.pt.root) < WORD
  {
    hide View, Holds, OwnsPages, Machine.Valid, Agrees, Pages, TrampolineEntry;
    TokenRoundTrip(kspace.pt.root);
  }

  // INITPROC and add_initproc.
  method Boot(kspace: MemorySet, ghost floor: nat, segs: seq<Segment>, entry: Usize, status: Usize, handler: Usize)
    returns (o: Outcome, k: Option<Kernel>)
    requires Booted(kspace, floor)
    modifies kspace, kspace.pt, kspace.pt.m
    ensures o.Fine? <==> k.Some?
    ensures GoodLayout(segs) ==> o in {Fine, OutOfFrames}
    ensures o.OutOfFrames? ==> old(kspace.pt.m.Free()) < ProgramFrames(segs) + 6
    ensures k.Some? ==> k.value.Good() && k.value.kspace == kspace && fresh(k.value)
    ensures k.Some? ==> Lifecycle.Start(k.value.tasks.S())
    ensures k.Some? ==> k.value.handler == handler && 0 in k.value.snap && 0 in k.value.tasks.tcbs
    ensures k.Some? ==>
      var i := AppStart(entry, Loader.StackTop(MaxEnd(segs)), Token(kspace.pt.root), status, handler);
      Started(k.value.snap[0].areas, segs, k.value.m.mem, i, Pids.StackTop(k.value.tasks.tcbs[0].pid))
  {
    hide Booted, TrapReady, Pids.StackTop, LiveSpace, TrampolineEntry, MemorySet.Live, AllFramed, Holding, GoodLayout,
         Stacked, Inv, Machine.Free, Kernel.Good, Started, MaxEnd, Loader.StackTop, ProgramFrames;
    var ns, pids, pid, userSp;
    ghost var sections := kspace.areas;
    o, ns, pids, pid, userSp := FirstSpace(kspace, floor, segs, entry, status, handler);
    if !o.Fine? { return o, None; }
    var tasks := new TaskTable(pid, userSp);
    var kernel := new Kernel(kspace.pt.m, kspace, tasks, pids, ns, handler, sections, floor, pid);
    FromLive(ns);
    var i := kernel.StartContext(segs, entry, status);
    StartedReady(Of(ns), segs, kernel.m.S(), TrampolineEntry(ns.trampoline), i, kernel.Env(), Pids.StackTop(pid));
    FirstKernel(kernel, ns, pid, userSp);
    k := Some(kernel);
  }

  lemma {:induction false} OwnersNow(s: Store, s': Store)
    requires Confined({1} + {0, 1}, s, s') && forall f :: f in s.owner ==> s.owner[f].id == 0
    ensures forall f :: f in s'.owner ==> s'.owner[f].id in {0, 1}
  {
  }

  lemma {:induction false} FirstKernel(k: Kernel, ns: MemorySet, pid: nat, userSp: nat)
    requires k.spaces == map[0 := ns] && k.snap == map[0 := Of(ns)] && k.sets == {ns} && k.tables == {ns.pt}
    requires k.ps == [pid] && k.nextId == 2
    requires k.trampoline == k.kspace.trampoline == ns.trampoline && k.kspace.pt.m == k.m == ns.pt.m
    requires k.kspace.pt.id == 0 && ns.pt.id == 1
    requires k.kspace != ns && k.m.base <= k.m.end && (forall f :: f in k.m.owner ==> k.m.owner[f].id in {0, 1})
    requires k.m.Free() + Holding(Of(k.kspace)) + Holding(Of(ns)) == k.m.end - k.m.base && userSp < BRK_LIMIT
    requires Inv(k.tasks.S()) && k.tasks.tcbs == map[0 := Tcb(pid, Ready, None, [], 0, userSp, userSp, 16, 0)]
    requires k.tasks.next == 1
    requires k.pids.Valid() && k.pids.Live() == {pid}
    requires k.pids.current == 0 || forall p :: 0 <= p < k.pids.current ==> p in k.pids.Live()
    requires Stacked(k.kspace.areas, k.sections, k.floor, [pid]) && k.floor + 3 * ((k.m.end - k.m.base) / 2) + 3 <= VPNS
    requires k.kspace.Live() && ns.Live() && AllFramed(ns.areas)
    requires TrapReady(Of(ns), k.m.S(), k.Env(), Pids.StackTop(pid))
    ensures k.Good()
  {
    hide Inv, Machine.Valid, Machine.Free, MemorySet.Live, MemorySet.Budget, AllFramed, WorldOk, LiveSpace,
         TrapReady, Pids.StackTop, TrampolineEntry, Stacked, Holding, Weight;
    FromLive(ns);
    FromLive(k.kspace);
    LiveBase(ns);
    assert k.TiedOne(0);
    FirstWorld(k.W(), Of(ns));
    KernelFits(k.W());
    assert PidSet(k.tasks.tcbs) == {pid} by { assert k.tasks.tcbs[0].pid == pid; }
    if k.pids.current != 0 {
      forall p | 0 <= p < k.pids.current ensures p in [pid] { assert p in k.pids.Live(); }
      CounterBound(k.pids.current, [pid], k.kspace.areas, k.sections, k.floor, k.Total());
    }
  }

  lemma {:induction false} NoPids(sections: seq<MapArea>, floor: nat, total: nat)
    requires Stacked(sections, sections, floor, []) && floor + 3 * (total / 2) + 3 <= VPNS
    ensures PidsGood({}, 0, [], map[], sections, sections, floor, total)
  {
  }

  // ---- any sequence of calls ----

  // What happened to the task table: nothing, or one step of the task machine.
  ghost predicate Moves(s: State, s': State, e: Option<Lifecycle.Event>) {
    if e.None? then s' == s else Lifecycle.Enabled(s, e.value) && s' == Lifecycle.Step(s, e.value)
  }

  lemma {:induction false} Created(s: State, pid: nat, heapBottom: nat, programBrk: nat, prio: nat)
    requires s.current.Some? && s.current.value in s.tcbs && Inv(s) && Inv(Birth(s, pid, heapBottom, programBrk, prio))
    ensures var e := Lifecycle.Creates(pid, heapBottom, programBrk, prio);
            Moves(s, Birth(s, pid, heapBottom, programBrk, prio), Some(e))
    ensures forall u :: u in s.tcbs ==> s.tcbs[u].pid != pid
  {
    hide Family;
    var s' := Birth(s, pid, heapBottom, programBrk, prio);
    assert PlaceOk(s', s.next) && s'.tcbs[s.next].prio == prio;
    forall t | t in s.tcbs ensures s.tcbs[t].pid != pid { assert s'.tcbs[t].pid != s'.tcbs[s.next].pid; }
  }

  lemma {:induction false} Forked(s: State, s': State, pid: nat) returns (e: Lifecycle.Event)
    requires ForkTasks(s, s', pid) && Inv(s) && Inv(s')
    ensures Moves(s, s', Some(e)) && (forall u :: u in s.tcbs ==> s.tcbs[u].pid != pid)
    ensures var b := s.tcbs[s.current.value]; e == Lifecycle.Creates(pid, b.heapBottom, b.programBrk, b.prio)
  {
    hide Inv, Birth, Moves;
    var b := s.tcbs[s.current.value];
    Created(s, pid, b.heapBottom, b.programBrk, b.prio);
    e := Lifecycle.Creates(pid, b.heapBottom, b.programBrk, b.prio);
  }

  // A step of the task machine has its effect, field by field.
  lemma {:induction false} MovesHappen(w: World, w': World, e: Option<Lifecycle.Event>)
    requires Moves(w.tasks, w'.tasks, e) && Inv(w.tasks)
    ensures Stepped(w, w', e)
  {
    hide Inv, Effects.Happened, Lifecycle.Step, Lifecycle.Enabled;
    if e.Some? { Effects.StepHappens(w.tasks, e.value); }
  }

  lemma {:induction false} Parts(k: Kernel)
    ensures var w := k.W(); w.s == k.m.S() && w.free == k.m.Free() && w.tasks == k.tasks.S() && w.spaces == k.snap
    ensures var w := k.W(); w.nextId == k.nextId && w.env == TrapEnv(Token(k.kspace.pt.root), k.handler)
    ensures k.W().tramp == TrampolineEntry(k.trampoline)
  {
  }

  // The running task as the world has it.
  lemma {:induction false} Here(k: Kernel)
    requires k.tasks.current.Some? && k.Good()
    ensures var w, t := k.W(), k.tasks.current.value;
            && Calling(w, t) && k.CurrentId() == w.spaces[t].id && k.CurrentAreas() == w.spaces[t].areas
            && k.CurrentMap() == MapOf(w, t) && k.CurrentPaths() == w.spaces[t].tables.Keys
            && k.CurrentRoot() == w.spaces[t].tables[Root]
            && k.CurrentBottom() == w.tasks.tcbs[t].heapBottom && k.CurrentBreak() == w.tasks.tcbs[t].programBrk
  {
    hide LiveSpace, AllGood, Owned, Conserved, PidsGood, Family, DistinctPids, Machine.Valid, View;
    assert k.TiedOne(k.tasks.current.value);
  }

  lemma {:induction false} TasksOk(k: Kernel)
    requires k.Good()
    ensures Inv(k.tasks.S()) && (k.tasks.current.Some? ==> k.tasks.current.value in k.tasks.tcbs)
  {
    hide Kernel.Tied, LiveSpace, AllGood, Owned, Conserved, PidsGood, Family, DistinctPids;
  }

  lemma {:induction false} Caller(k: Kernel)
    requires k.tasks.current.Some? && k.Good()
    ensures WorldOk(k.W()) && k.tasks.current.value in k.snap && k.snap[k.tasks.current.value].id == k.CurrentId()
    ensures k.tasks.next !in k.snap
  {
    hide LiveSpace, AllGood, Owned, Conserved, PidsGood, Family, DistinctPids, Machine.Valid;
    assert k.TiedOne(k.tasks.current.value);
  }

  // The code of the trampoline is still that of the kernel image.
  lemma {:induction false} Trampoline(k: Kernel)
    requires k.Good()
    ensures At(k.m.mem, PpnOf(k.W().tramp)) == At(k.m.image, PpnOf(k.W().tramp)) && PpnOf(k.W().tramp) == k.trampoline
  {
    hide Kernel.TiedSpaces, WorldOk, PidsGood, TrampolineEntry, PpnOf;
    TrampolineFrame(k.m, k.trampoline);
  }

  // Every live task maps that code at the last page, to be read and executed by the kernel alone.
  lemma {:induction false} TrampolineMapped(k: Kernel, t: nat)
    requires Alive(k.W(), t) && k.Good()
    ensures var view := View(k.m.mem, k.snap[t].tables);
            && 0x7ff_ffff in view && PpnOf(view[0x7ff_ffff]) == k.trampoline
            && Rights(FlagsOf(view[0x7ff_ffff]), true, false, true, false)
            && At(k.m.mem, k.trampoline) == At(k.m.image, k.trampoline)
  {
    hide Kernel.Good, Inv, Tree, View, Holds, OwnsPages, Agrees, Pages, Owned, Conserved, AllFramed, PpnOf, TrapReady,
         Kernel.W;
    Parts(k);
    WorldNow(k);
    Trampoline(k);
    var w := k.W();
    var p := w.spaces[t];
    assert SpaceGood(p, w.tasks.tcbs[t], w.s, w.tramp, w.env);
    TrampolineThere(View(w.s.mem, p.tables), p.areas, w.tramp);
    TrampolineRights(k.trampoline);
  }

  lemma {:induction false} TrampolineRights(ppn: nat)
    ensures Rights(FlagsOf(TrampolineEntry(ppn)), true, false, true, false)
  {
    PteFlags(ppn, WithV(R + X));
  }

  // ---- one call ----

  method RunFork(k: Kernel) returns (o: Outcome, ghost e: Option<Lifecycle.Event>)
    requires k.tasks.current.Some? && k.Good()
    modifies k, k.m, k.tasks, k.pids, k.kspace, k.kspace.pt
    ensures Ends(DoFork, old(k.W()), o, k.m.base, k.m.end)
    ensures o.Fine? ==> k.Good() && fresh(k.sets - old(k.sets)) && fresh(k.tables - old(k.tables))
    ensures o.Fine? ==> Moves(old(k.tasks.S()), k.tasks.S(), e) && Beside(old(k.W()), k.W())
    ensures o.Fine? ==> Did(DoFork, old(k.W()), k.W(), e)
  {
    hide Kernel.Good, Confined, Birth, CopyOf, ForkTasks, Inv, Moves, Beside, WorldOk, Kernel.CurrentAreas,
         Kernel.CurrentMap, Holding, Machine.Free, PidAllocator.Live, Kernel.W, SpaceFrames, Stepped, View,
         Kernel.CurrentId, Kernel.CurrentRoot, Kernel.CurrentPaths, OnlyOne, Pids.StackTop, Did, Ends, ForkDone;
    TasksOk(k);
    Caller(k);
    Parts(k);
    Here(k);
    Trampoline(k);
    e := None;
    var pid;
    o, pid := k.Fork();
    ForkEnds(old(k.W()), o, k.m.base, k.m.end);
    if o.Fine? {
      Parts(k);
      TasksOk(k);
      ghost var ev := Forked(old(k.tasks.S()), k.tasks.S(), pid);
      e := Some(ev);
      MovesHappen(old(k.W()), k.W(), e);
      Trampoline(k);
      CameAlone(old(k.W()), k.W(), old(k.tasks.next));
      CallerStep(old(k.W()), k.W(), {old(k.nextId), 0}, old(k.tasks.next));
      ForkDid(old(k.W()), k.W(), pid, old(k.tasks.current.value));
    }
  }

  lemma {:induction false} ForkEnds(w: World, o: Outcome, base: nat, end: nat)
    requires w.tasks.current.Some? && Calling(w, w.tasks.current.value) && o in {Fine, OutOfFrames}
    requires o.OutOfFrames? ==> w.free < SpaceFrames(w.spaces[w.tasks.current.value].areas) + 6
    ensures Ends(DoFork, w, o, base, end)
  {
    hide SpaceFrames;
  }

  lemma {:induction false} ForkDid(w: World, w': World, pid: nat, t: nat)
    requires Calling(w, t) && OnlySpace(w, w', w.tasks.next, {w.nextId, 0})
    requires forall u :: u in w.tasks.tcbs ==> w.tasks.tcbs[u].pid != pid
    requires CopyOf(w.spaces[t].areas, w'.spaces[w.tasks.next].areas, w.s.mem, w'.s.mem, Pids.StackTop(pid))
    requires var b := w.tasks.tcbs[t];
             Stepped(w, w', Some(Lifecycle.Creates(pid, b.heapBottom, b.programBrk, b.prio)))
    ensures var b := w.tasks.tcbs[t];
            Did(DoFork, w, w', Some(Lifecycle.Creates(pid, b.heapBottom, b.programBrk, b.prio)))
  {
    hide CopyOf, Stepped, OnlySpace, Pids.StackTop;
  }

  lemma {:induction false} CameAlone(w: World, w': World, n: nat)
    requires OnlyOne(w.spaces, w'.spaces, n)
    ensures n in w'.spaces && w'.spaces == w.spaces[n := w'.spaces[n]]
  {
  }

  method RunSpawn(k: Kernel, segs: seq<Segment>, entry: Usize, status: Usize)
      returns (o: Outcome, ghost e: Option<Lifecycle.Event>)
    requires k.tasks.current.Some? && k.Good()
    modifies k, k.m, k.tasks, k.pids, k.kspace, k.kspace.pt
    ensures Ends(DoSpawn(segs, entry, status), old(k.W()), o, k.m.base, k.m.end)
    ensures o.Fine? ==> k.Good() && fresh(k.sets - old(k.sets)) && fresh(k.tables - old(k.tables))
    ensures o.Fine? ==> Moves(old(k.tasks.S()), k.tasks.S(), e) && Beside(old(k.W()), k.W())
    ensures o.Fine? ==> Did(DoSpawn(segs, entry, status), old(k.W()), k.W(), e)
  {
    hide Kernel.Good, Confined, Birth, GoodLayout, Loader.StackTop, MaxEnd, Inv, Moves, Beside, WorldOk, Started,
         Kernel.CurrentAreas, Kernel.CurrentMap, Holding, Machine.Free, PidAllocator.Live, Kernel.W, ProgramFrames,
         Stepped, View, Kernel.CurrentId, Kernel.CurrentRoot, Kernel.CurrentPaths, OnlyOne, Pids.StackTop, Token;
    TasksOk(k);
    Caller(k);
    Parts(k);
    Here(k);
    Trampoline(k);
    e := None;
    var pid;
    o, pid := k.Spawn(segs, entry, status);
    if o.Fine? {
      Parts(k);
      TasksOk(k);
      ghost var sp := Loader.StackTop(MaxEnd(segs));
      Created(old(k.tasks.S()), pid, sp, sp, 16);
      e := Some(Lifecycle.Creates(pid, sp, sp, 16));
      MovesHappen(old(k.W()), k.W(), e);
      Trampoline(k);
      CameAlone(old(k.W()), k.W(), old(k.tasks.next));
      CallerStep(old(k.W()), k.W(), {old(k.nextId), 0}, old(k.tasks.next));
    }
  }

  method RunExec(k: Kernel, segs: seq<Segment>, entry: Usize, status: Usize) returns (o: Outcome)
    requires k.tasks.current.Some? && k.Good()
    modifies k, k.m, k.sets
    ensures Ends(DoExec(segs, entry, status), old(k.W()), o, k.m.base, k.m.end)
    ensures o.Fine? ==> k.Good() && fresh(k.sets - old(k.sets)) && fresh(k.tables - old(k.tables))
    ensures o.Fine? ==> Beside(old(k.W()), k.W()) && Did(DoExec(segs, entry, status), old(k.W()), k.W(), None)
  {
    hide Kernel.Good, Confined, GoodLayout, Loader.StackTop, MaxEnd, Beside, WorldOk, Started, Kernel.CurrentAreas,
         Kernel.CurrentMap, Machine.Free, Kernel.W, ProgramFrames, View, Kernel.CurrentId, Kernel.CurrentRoot,
         Kernel.CurrentPaths, OnlyOne, Pids.StackTop, Token;
    Caller(k);
    Parts(k);
    Here(k);
    Trampoline(k);
    ghost var t := k.tasks.current.value;
    o := k.Exec(segs, entry, status);
    if o.Fine? {
      Parts(k);
      Here(k);
      Trampoline(k);
      CameAlone(old(k.W()), k.W(), t);
      CallerStep(old(k.W()), k.W(), {old(k.CurrentId()), old(k.nextId)}, t);
    }
  }

  method RunMmap(k: Kernel, start: nat, len: nat, port: nat) returns (o: Outcome)
    requires k.tasks.current.Some? && k.Good()
    modifies k`snap, k.m, k.sets, k.tables
    ensures Ends(DoMmap(start, len, port), old(k.W()), o, k.m.base, k.m.end)
    ensures o.Fine? ==> k.Good() && Beside(old(k.W()), k.W())
    ensures o.Fine? ==> Did(DoMmap(start, len, port), old(k.W()), k.W(), None)
  {
    hide Kernel.Good, Confined, Mapped39, BadMmap, First39, Last39, MmapPerm, WorldOk, Beside, Kernel.CurrentMap,
         Kernel.CurrentAreas, Kernel.CurrentId, Kernel.CurrentPaths, Kernel.CurrentRoot, Kernel.W, View, KeepsData,
         Granted, Overlaps, MmapShort, OnlyOne, Machine.Free;
    Caller(k);
    Parts(k);
    Here(k);
    Trampoline(k);
    var r;
    o, r := k.Mmap(start, len, port);
    if o.Fine? {
      Parts(k);
      Here(k);
      Trampoline(k);
      CameAlone(old(k.W()), k.W(), k.tasks.current.value);
      CallerStep(old(k.W()), k.W(), {old(k.CurrentId())}, k.tasks.current.value);
    }
  }

  method RunMunmap(k: Kernel, start: nat, len: nat) returns (o: Outcome)
    requires k.tasks.current.Some? && k.Good()
    modifies k`snap, k.m, k.sets, k.tables
    ensures Ends(DoMunmap(start, len), old(k.W()), o, k.m.base, k.m.end)
    ensures o.Fine? ==> k.Good() && Beside(old(k.W()), k.W())
    ensures o.Fine? ==> Did(DoMunmap(start, len), old(k.W()), k.W(), None)
  {
    hide Kernel.Good, Confined, First39, Last39, WorldOk, Beside, Kernel.CurrentMap, Kernel.CurrentAreas,
         Kernel.CurrentId, Kernel.CurrentPaths, Kernel.CurrentRoot, Kernel.W, View, KeepsData, AllMapped, Kept,
         DropsTrap, OnlyOne, Machine.Free;
    Caller(k);
    Parts(k);
    Here(k);
    Trampoline(k);
    var r;
    o, r := k.Munmap(start, len);
    if o.Fine? {
      Parts(k);
      Here(k);
      Trampoline(k);
      CameAlone(old(k.W()), k.W(), k.tasks.current.value);
      CallerStep(old(k.W()), k.W(), {old(k.CurrentId())}, k.tasks.current.value);
    }
  }

  method RunStore(k: Kernel, va: nat, b: Byte) returns (o: Outcome)
    requires k.tasks.current.Some? && WellTyped(DoStore(va, b)) && k.Good()
    modifies k.m`mem
    ensures Ends(DoStore(va, b), old(k.W()), o, k.m.base, k.m.end)
    ensures o.Fine? ==> k.Good() && Beside(old(k.W()), k.W()) && Did(DoStore(va, b), old(k.W()), k.W(), None)
  {
    hide Kernel.Good, Confined, WorldOk, Beside, Kernel.CurrentMap, Kernel.CurrentAreas, Kernel.CurrentId,
         Kernel.CurrentPaths, Kernel.CurrentRoot, Kernel.W, View, Machine.Free, TrampolineEntry, PpnOf,
         Floor, Offset, Has, FlagsOf, Usable;
    Caller(k);
    Parts(k);
    Here(k);
    Trampoline(k);
    ghost var t := k.tasks.current.value;
    var ok := k.UserStore(va, b);
    o := Fine;
    Parts(k);
    if o.Fine? {
      Trampoline(k);
      assert k.W().spaces == old(k.W()).spaces[t := k.W().spaces[t]];
      CallerStep(old(k.W()), k.W(), {old(k.CurrentId())}, t);
    }
  }

  method RunFill(k: Kernel, ptr: Usize, data: seq<Byte>) returns (o: Outcome)
    requires k.tasks.current.Some? && WellTyped(DoFill(ptr, data)) && k.Good()
    modifies k.m`mem
    ensures Ends(DoFill(ptr, data), old(k.W()), o, k.m.base, k.m.end)
    ensures o.Fine? ==> k.Good() && Beside(old(k.W()), k.W()) && Did(DoFill(ptr, data), old(k.W()), k.W(), None)
  {
    hide Kernel.Good, Confined, WorldOk, Beside, Kernel.CurrentMap, Kernel.CurrentAreas, Kernel.CurrentId,
         Kernel.CurrentPaths, Kernel.CurrentRoot, Kernel.W, View, Machine.Free, TrampolineEntry, PpnOf,
         RunsOn, AllStorable, HitsGuard, Translates, Pokes, TranslateVa;
    Caller(k);
    Parts(k);
    Here(k);
    Trampoline(k);
    ghost var t := k.tasks.current.value;
    ghost var a;
    o, a := k.WriteBuffer(ptr, data);
    Parts(k);
    if o.Fine? {
      Trampoline(k);
      assert k.W().spaces == old(k.W()).spaces[t := k.W().spaces[t]];
      CallerStep(old(k.W()), k.W(), {old(k.CurrentId())}, t);
      assert FillDone(old(k.W()), k.W(), t, ptr, data, a);
    }
  }

  method RunTrap(k: Kernel, regs: seq<Usize>) returns (o: Outcome)
    requires k.tasks.current.Some? && WellTyped(DoTrap(regs)) && k.Good()
    modifies k.m`mem
    ensures Ends(DoTrap(regs), old(k.W()), o, k.m.base, k.m.end)
    ensures o.Fine? ==> k.Good() && Beside(old(k.W()), k.W()) && Did(DoTrap(regs), old(k.W()), k.W(), None)
  {
    hide Kernel.Good, Confined, WorldOk, Beside, Kernel.CurrentMap, Kernel.CurrentAreas, Kernel.CurrentId,
         Kernel.CurrentPaths, Kernel.CurrentRoot, Kernel.W, View, Machine.Free, TrampolineEntry, PpnOf, OnlyTrap;
    Caller(k);
    Parts(k);
    Here(k);
    Trampoline(k);
    ghost var t := k.tasks.current.value;
    k.SaveContext(regs);
    o := Fine;
    Parts(k);
    if o.Fine? {
      Trampoline(k);
      assert k.W().spaces == old(k.W()).spaces[t := k.W().spaces[t]];
      CallerStep(old(k.W()), k.W(), {old(k.CurrentId())}, t);
    }
  }

  // The calls that change the caller's task control block alone, and the idle loop.
  method Tick(k: Kernel, c: Call) returns (ghost e: Option<Lifecycle.Event>)
    requires if c.FetchTask? then k.tasks.current.None? else (c.DoYield? || c.DoSetPrio?) && k.tasks.current.Some?
    requires k.Good()
    modifies k.tasks
    ensures Ends(c, old(k.W()), Fine, k.m.base, k.m.end)
    ensures k.Good() && Moves(old(k.tasks.S()), k.tasks.S(), e) && Beside(old(k.W()), k.W())
    ensures Did(c, old(k.W()), k.W(), e)
  {
    hide Kernel.Good, Dispatch, Yield, SetPrio, Inv, Beside, Kernel.Tied, Kernel.W, View, Stepped, Machine.Free,
         Kernel.CurrentMap, Kernel.CurrentAreas, Kernel.CurrentId, Kernel.CurrentPaths, Kernel.CurrentRoot;
    TasksOk(k);
    Parts(k);
    if k.tasks.current.Some? { Here(k); }
    match c {
      case FetchTask => k.Fetch(); e := Some(Lifecycle.Fetch);
      case DoYield => k.YieldNow(); e := Some(Lifecycle.Yields);
      case DoSetPrio(prio) => var r := k.SetPriority(prio); e := Some(Lifecycle.Prio(prio));
    }
    Parts(k);
    MovesHappen(old(k.W()), k.W(), e);
    TableStep(old(k.W()), k.W());
  }

  method RunSbrk(k: Kernel, size: int) returns (o: Outcome, ghost e: Option<Lifecycle.Event>)
    requires k.tasks.current.Some? && WellTyped(DoSbrk(size)) && k.Good()
    modifies k`snap, k.m, k.tasks, k.sets, k.tables
    ensures Ends(DoSbrk(size), old(k.W()), o, k.m.base, k.m.end)
    ensures o.Fine? ==> k.Good() && Moves(old(k.tasks.S()), k.tasks.S(), e) && Beside(old(k.W()), k.W())
    ensures o.Fine? ==> Did(DoSbrk(size), old(k.W()), k.W(), e)
  {
    hide Kernel.Good, Confined, SetBrk, Inv, Machine.Free, Resized, Kernel.CurrentMap, Kernel.CurrentAreas,
         Kernel.CurrentBottom, Kernel.CurrentBreak, Kernel.CurrentId, Kernel.CurrentPaths, Kernel.CurrentRoot, WorldOk,
         Beside, Kernel.W, View, KeepsData, BrkOutcome, NewZeros, NoBreak, GivesTrap, OnlyOne, Stepped, Moves, HeapOk;
    o, e := Fine, None;
    TasksOk(k);
    Caller(k);
    Parts(k);
    Here(k);
    Trampoline(k);
    var r;
    o, r := k.Sbrk(size);
    if o.Fine? {
      Parts(k);
      BrkMoves(old(k.tasks.S()), k.tasks.S(), r, size);
      if r >= 0 { e := Some(Lifecycle.Brk(r + size)); }
      MovesHappen(old(k.W()), k.W(), e);
      Here(k);
      Trampoline(k);
      CameAlone(old(k.W()), k.W(), old(k.tasks.current.value));
      CallerStep(old(k.W()), k.W(), {old(k.CurrentId())}, old(k.tasks.current.value));
    }
  }

  lemma {:induction false} BrkMoves(s: State, s': State, r: int, size: int)
    requires s.current.Some? && s.current.value in s.tcbs
    requires if r < 0 then s' == s else r + size >= 0 && s' == SetBrk(s, r + size)
    ensures Moves(s, s', if r < 0 then None else Some(Lifecycle.Brk(r + size))) && s'.current == s.current
  {
  }

  method RunExit(k: Kernel, code: int) returns (o: Outcome, ghost e: Option<Lifecycle.Event>)
    requires k.tasks.current.Some? && k.Good()
    modifies k`snap, k.m, k.tasks, k.sets, k.tables
    ensures Ends(DoExit(code), old(k.W()), o, k.m.base, k.m.end)
    ensures o.Fine? ==> k.Good() && Moves(old(k.tasks.S()), k.tasks.S(), e) && Beside(old(k.W()), k.W())
    ensures o.Fine? ==> Did(DoExit(code), old(k.W()), k.W(), e)
  {
    hide Kernel.Good, Confined, Tasks.Exit, Inv, Machine.Free, Kernel.CurrentMap, Kernel.CurrentAreas, Kernel.CurrentId,
         Kernel.CurrentPaths, Kernel.CurrentRoot, Kernel.CurrentWeight, WorldOk, Beside, Kernel.W, View, Stepped,
         OnlyOne;
    TasksOk(k);
    Caller(k);
    Parts(k);
    Here(k);
    Trampoline(k);
    if k.tasks.current.value == k.tasks.init { return DoubleBorrow, None; }
    k.Exit(code);
    o, e := Fine, Some(Lifecycle.Exits(code));
    Parts(k);
    MovesHappen(old(k.W()), k.W(), e);
    Trampoline(k);
    CameAlone(old(k.W()), k.W(), old(k.tasks.current.value));
    CallerStep(old(k.W()), k.W(), {old(k.CurrentId())}, old(k.tasks.current.value));
  }

  method RunWait(k: Kernel, pid: int, ptr: Usize) returns (o: Outcome)
    requires k.tasks.current.Some? && k.Good()
    modifies k, k.m, k.tasks, k.pids, k.kspace, k.kspace.pt, k.sets
    ensures k.sets == old(k.sets) && k.tables == old(k.tables)
    ensures Ends(DoWait(pid, ptr), old(k.W()), o, k.m.base, k.m.end)
    ensures o.Fine? ==> k.Good() && Beside(old(k.W()), k.W())
    ensures o.Fine? ==> Moves(old(k.tasks.S()), k.tasks.S(), Some(Lifecycle.Waits(pid)))
    ensures o.Fine? ==> Did(DoWait(pid, ptr), old(k.W()), k.W(), Some(Lifecycle.Waits(pid)))
  {
    hide Kernel.Good, Confined, WaitPid, Inv, Machine.Free, Kernel.CurrentId, WorldOk, Beside, StoreOutcome, StoreCode,
         Kernel.Target, PidAllocator.Live, Kernel.CurrentMap, Kernel.CurrentAreas, Kernel.CurrentPaths,
         Kernel.CurrentRoot, Kernel.W, View, Stepped, HoldsCode, OnlyCode, Effects.Waited, TranslateVa, VirtAddr,
         Kernel.WithCode, Pointed;
    TasksOk(k);
    Caller(k);
    Parts(k);
    Here(k);
    Leads(k, ptr);
    Trampoline(k);
    NotAlive(k.tasks.S(), pid);
    Effects.WaitDoes(k.tasks.S(), pid);
    var r;
    o, r := k.Wait(pid, ptr);
    if o.Fine? {
      Parts(k);
      MovesHappen(old(k.W()), k.W(), Some(Lifecycle.Waits(pid)));
      Trampoline(k);
      if r.Reaped? { ReapStep(old(k.W()), k.W(), r.tid); } else { TableStep(old(k.W()), k.W()); }
      assert WaitDone(old(k.W()), k.W(), old(k.tasks.current.value), pid, ptr, r);
    }
  }

  // Where a pointer of the running task leads, and memory with a code stored there.
  lemma {:induction false} Leads(k: Kernel, ptr: Usize)
    requires k.tasks.current.Some? && k.Good()
    ensures Calling(k.W(), k.tasks.current.value) && k.Target(ptr) == Pointed(k.W(), k.tasks.current.value, ptr)
    ensures forall code: int :: k.Target(ptr).Some? ==>
              k.WithCode(ptr, code) == Store(StoreCode(k.W().s.mem, k.Target(ptr).value, code), k.W().s.owner)
  {
    hide Kernel.Good, StoreCode, TranslateVa, View, Kernel.W, Kernel.CurrentRoot;
    Here(k);
    Parts(k);
  }

  lemma {:induction false} NotAlive(s: State, pid: int)
    requires s.current.Some? && Inv(s)
    ensures var w := WaitPid(s, pid).1; w.Reaped? ==> w.tid in s.tcbs && s.tcbs[w.tid].status == Zombie
  {
    hide WaitPid, Inv, Gone, BreaksOk;
    WaitFolk(s, pid);
  }

  // One step.  A call without a running task, or a fetch with one, does not happen.  A call that is made ends
  // as Ends says and does what Did says, and no other live task sees anything of it.
  method Do(k: Kernel, c: Call) returns (o: Outcome, ghost e: Option<Lifecycle.Event>)
    requires WellTyped(c) && k.Good()
    modifies k, k.m, k.tasks, k.pids, k.kspace, k.kspace.pt, k.sets, k.tables
    ensures if Able(c, old(k.W())) then Ends(c, old(k.W()), o, k.m.base, k.m.end) else o.Fine?
    ensures o.Fine? ==> k.Good() && fresh(k.sets - old(k.sets)) && fresh(k.tables - old(k.tables))
    ensures o.Fine? ==> Moves(old(k.tasks.S()), k.tasks.S(), e) && Beside(old(k.W()), k.W())
    ensures o.Fine? ==> Went(c, old(k.W()), k.W(), e)
  {
    hide Kernel.Good, Moves, Beside, Kernel.W, WellTyped, Did, Ends;
    o, e := Fine, None;
    Still(k);
    Parts(k);
    if k.tasks.current.None? != c.FetchTask? { return; }
    match c {
      case DoFork => o, e := RunFork(k);
      case DoSpawn(segs, entry, status) => o, e := RunSpawn(k, segs, entry, status);
      case DoExec(segs, entry, status) => o := RunExec(k, segs, entry, status);
      case DoExit(code) => o, e := RunExit(k, code);
      case DoWait(pid, ptr) =>
        o := RunWait(k, pid, ptr);
        e := Some(Lifecycle.Waits(pid));
      case DoMmap(start, len, port) => o := RunMmap(k, start, len, port);
      case DoMunmap(start, len) => o := RunMunmap(k, start, len);
      case DoSbrk(size) => o, e := RunSbrk(k, size);
      case DoStore(va, b) => o := RunStore(k, va, b);
      case DoFill(ptr, data) => o := RunFill(k, ptr, data);
      case DoTrap(regs) => o := RunTrap(k, regs);
      case FetchTask => e := Tick(k, c);
      case DoYield => e := Tick(k, c);
      case DoSetPrio(_) => e := Tick(k, c);
    }
    if o.Fine? && e.None? { SameTable(old(k.W()), k.W(), c); }
  }

  // A call without an event leaves the task table as it is.
  lemma {:induction false} SameTable(w: World, w': World, c: Call)
    requires Did(c, w, w', None)
    ensures Moves(w.tasks, w'.tasks, None)
  {
    hide Does;
  }

  lemma {:induction false} Still(k: Kernel)
    ensures Moves(k.tasks.S(), k.tasks.S(), None) && Beside(k.W(), k.W())
  {
    TableStep(k.W(), k.W());
  }

  // A script, call by call: world i + 1 is what call i makes of world i, with event i of the task machine.
  ghost predicate Ran(script: seq<Call>, ws: seq<World>, es: seq<Option<Lifecycle.Event>>) {
    && |es| <= |script| && |ws| == |es| + 1
    && (forall i :: 0 <= i < |es| ==> Went(script[i], ws[i], ws[i + 1], es[i]))
    && forall i :: 0 <= i < |ws| ==> WorldOk(ws[i])
  }

  ghost function Events(es: seq<Option<Lifecycle.Event>>): seq<Lifecycle.Event> {
    if es == [] then []
    else
      var e := es[|es| - 1];
      Events(es[..|es| - 1]) + if e.Some? then [e.value] else []
  }

  // Any script.  Every world it goes through satisfies the invariant and follows from the one before by the
  // call that was made, and the events make a run of the task machine.  It ends early only at a call that
  // does not return, and that ends as Ends says.
  method Run(k: Kernel, script: seq<Call>)
      returns (o: Outcome, ghost ws: seq<World>, ghost es: seq<Option<Lifecycle.Event>>, ghost ss: seq<State>)
    requires (forall i :: 0 <= i < |script| ==> WellTyped(script[i])) && Lifecycle.Start(k.tasks.S()) && k.Good()
    modifies k, k.m, k.tasks, k.pids, k.kspace, k.kspace.pt, k.sets, k.tables
    ensures Ran(script, ws, es) && ws[0] == old(k.W()) && ss != []
    ensures Lifecycle.Run(ss, Events(es)) && ss[0] == old(k.tasks.S()) && ss[|ss| - 1] == ws[|es|].tasks
    ensures o.Fine? ==> |es| == |script| && ws[|es|] == k.W() && k.Good()
    ensures !o.Fine? ==> |es| < |script| && Able(script[|es|], ws[|es|])
    ensures !o.Fine? ==> Ends(script[|es|], ws[|es|], o, k.m.base, k.m.end)
  {
    hide Kernel.Good, WellTyped, Lifecycle.Start, Lifecycle.Run, Moves, Went, Ends, WorldOk, Kernel.W, Beside, Able,
         Events, Ran;
    o, ws, es, ss := Fine, [k.W()], [], [k.tasks.S()];
    NoSteps(k.tasks.S());
    WorldNow(k);
    Parts(k);
    NoneRan(script, k.W());
    for i := 0 to |script|
      invariant o.Fine? && k.Good() && fresh(k.sets - old(k.sets)) && fresh(k.tables - old(k.tables))
      invariant Ran(script, ws, es) && |es| == i && |ws| == i + 1 && ws[0] == old(k.W()) && ws[i] == k.W()
      invariant Lifecycle.Run(ss, Events(es)) && |ss| == |Events(es)| + 1 && ss[0] == old(k.tasks.S())
      invariant ss[|ss| - 1] == k.tasks.S() == ws[i].tasks
    {
      ghost var e;
      o, e := Do(k, script[i]);
      if !o.Fine? { return; }
      WorldNow(k);
      Parts(k);
      RunOn(script, ws, es, ss, k.W(), e);
      ss := if e.Some? then ss + [k.W().tasks] else ss;
      ws, es := ws + [k.W()], es + [e];
    }
  }

  lemma {:induction false} RunOn(script: seq<Call>, ws: seq<World>, es: seq<Option<Lifecycle.Event>>, ss: seq<State>,
                                 w: World, e: Option<Lifecycle.Event>)
    requires Ran(script, ws, es) && |es| < |script| && Went(script[|es|], ws[|es|], w, e) && WorldOk(w)
    requires |ss| == |Events(es)| + 1 && ss[|ss| - 1] == ws[|es|].tasks && Moves(ws[|es|].tasks, w.tasks, e)
    requires Lifecycle.Run(ss, Events(es))
    ensures Ran(script, ws + [w], es + [e])
    ensures var ss', es' := if e.Some? then ss + [w.tasks] else ss, Events(es + [e]);
            |ss'| == |es'| + 1 && Lifecycle.Run(ss', es') && ss'[|ss'| - 1] == w.tasks && ss'[0] == ss[0]
  {
    hide Went, WorldOk, Lifecycle.Run, Moves, Events, Ran;
    RanOn(script, ws, es, w, e);
    OneMore(ss, Events(es), w.tasks, e);
    if e.None? {
      NotMoved(ss[|ss| - 1], w.tasks, e);
      assert Events(es) + [] == Events(es);
    }
  }

  lemma {:induction false} NoneRan(script: seq<Call>, w: World)
    requires WorldOk(w)
    ensures Ran(script, [w], []) && Events([]) == []
  {
    hide WorldOk;
  }

  lemma {:induction false} RanOn(script: seq<Call>, ws: seq<World>, es: seq<Option<Lifecycle.Event>>, w: World,
                                 e: Option<Lifecycle.Event>)
    requires Ran(script, ws, es) && |es| < |script| && Went(script[|es|], ws[|es|], w, e) && WorldOk(w)
    ensures Ran(script, ws + [w], es + [e])
    ensures Events(es + [e]) == Events(es) + if e.Some? then [e.value] else []
  {
    hide Went, WorldOk;
    assert (es + [e])[..|es|] == es;
  }

  lemma {:induction false} NoSteps(s: State)
    requires Lifecycle.Start(s)
    ensures Lifecycle.Run([s], [])
  {
  }

  lemma {:induction false} NotMoved(s: State, s': State, e: Option<Lifecycle.Event>)
    requires Moves(s, s', e) && e.None?
    ensures s' == s
  {
  }

  lemma {:induction false} OneMore(ss: seq<State>, es: seq<Lifecycle.Event>, s': State, e: Option<Lifecycle.Event>)
    requires Lifecycle.Run(ss, es) && Moves(ss[|es|], s', e)
    ensures e.Some? ==> Lifecycle.Run(ss + [s'], es + [e.value])
  {
    hide Lifecycle.Start, Lifecycle.Step, Lifecycle.Enabled;
  }

  // ---- isolation over a run ----

  // A task that is not running neither exits nor goes.
  lemma {:induction false} StaysAlive(w: World, w': World, e: Option<Lifecycle.Event>, t: nat)
    requires Alive(w, t) && w.tasks.current != Some(t) && WorldOk(w) && WorldOk(w')
    requires Moves(w.tasks, w'.tasks, e) && SameSight(w, w', t)
    ensures Alive(w', t)
  {
    hide Inv, SameSight, LiveSpace, AllGood, Owned, Conserved, Lifecycle.Enabled, Lifecycle.Step;
    assert t in w'.spaces by { Seen(w, w', t); }
    if e.Some? && w'.tasks.tcbs[t].status == Zombie { Lifecycle.StepZombie(w.tasks, e.value, t); }
  }

  lemma {:induction false} Seen(w: World, w': World, t: nat)
    requires SameSight(w, w', t)
    ensures t in w'.spaces
  {
  }

  lemma {:induction false} WorldNow(k: Kernel)
    requires k.Good()
    ensures WorldOk(k.W())
  {
  }

  // Any stretch of a run in which task t is not current: whatever the others do, t still has its space,
  // its mapping and its bytes at the end.  The stretch ends when t is fetched.
  method Away(k: Kernel, script: seq<Call>, t: nat)
      returns (o: Outcome, ghost ws: seq<World>, ghost es: seq<Option<Lifecycle.Event>>)
    requires (forall i :: 0 <= i < |script| ==> WellTyped(script[i])) && k.tasks.current != Some(t)
    requires Alive(k.W(), t) && k.Good()
    modifies k, k.m, k.tasks, k.pids, k.kspace, k.kspace.pt, k.sets, k.tables
    ensures Ran(script, ws, es) && ws[0] == old(k.W())
    ensures forall i :: 0 <= i < |es| ==> ws[i].tasks.current != Some(t)
    ensures forall i :: 0 <= i < |ws| ==> Alive(ws[i], t) && SameSight(old(k.W()), ws[i], t)
    ensures o.Fine? ==> k.Good() && ws[|es|] == k.W() && (|es| < |script| ==> k.tasks.current == Some(t))
    ensures !o.Fine? ==> |es| < |script| && Able(script[|es|], ws[|es|])
    ensures !o.Fine? ==> Ends(script[|es|], ws[|es|], o, k.m.base, k.m.end)
  {
    hide Kernel.Good, WellTyped, Moves, SameSight, Alive, Kernel.W, Beside, WorldOk, Went, Ends, Able;
    o, ws, es := Fine, [k.W()], [];
    SameNow(k.W(), t);
    WorldNow(k);
    var n := 0;
    while n < |script| && k.tasks.current != Some(t)
      invariant n == |es| <= |script| && o.Fine? && k.Good() && Ran(script, ws, es) && ws[0] == old(k.W())
      invariant ws[|es|] == k.W() && forall i :: 0 <= i < |es| ==> ws[i].tasks.current != Some(t)
      invariant forall i :: 0 <= i < |ws| ==> Alive(ws[i], t) && SameSight(old(k.W()), ws[i], t)
      invariant fresh(k.sets - old(k.sets)) && fresh(k.tables - old(k.tables))
    {
      ghost var w, e := k.W(), None;
      WorldNow(k);
      SameTasks(k);
      o, e := Do(k, script[n]);
      if !o.Fine? { return; }
      WorldNow(k);
      SameTasks(k);
      AwayStep(old(k.W()), w, k.W(), e, t);
      RanOn(script, ws, es, k.W(), e);
      ws, es, n := ws + [k.W()], es + [e], n + 1;
    }
  }

  lemma {:induction false} SameNow(w: World, t: nat)
    requires Alive(w, t)
    ensures SameSight(w, w, t)
  {
    hide View, PpnOf;
  }

  lemma {:induction false} SameTasks(k: Kernel)
    ensures k.W().tasks == k.tasks.S()
  {
  }

  lemma {:induction false} AwayStep(w0: World, w: World, w': World, e: Option<Lifecycle.Event>, t: nat)
    requires Alive(w, t) && w.tasks.current != Some(t) && WorldOk(w) && WorldOk(w')
    requires Moves(w.tasks, w'.tasks, e) && Beside(w, w') && SameSight(w0, w, t)
    ensures SameSight(w0, w', t) && Alive(w', t)
  {
    hide Alive, WorldOk, Moves, SameSight;
    StaysAlive(w, w', e, t);
    SightTransitive(w0, w, w', t);
  }

  // ---- a process lifetime ----

  // The scheduler at work: n fetches and yields.
  method Idle(k: Kernel, n: nat)
    requires k.Good()
    modifies k.tasks
    ensures k.Good() && Resting(old(k.tasks.S()), k.tasks.S()) && k.tasks.S() == Idled(old(k.tasks.S()), n)
  {
    hide Kernel.Good, Dispatch, Yield, Inv, SameTask;
    assert Resting(k.tasks.S(), k.tasks.S()) by { RestsNow(k.tasks.S()); }
    for i := 0 to n
      invariant k.Good() && Resting(old(k.tasks.S()), k.tasks.S()) && k.tasks.S() == Idled(old(k.tasks.S()), i)
    {
      TasksOk(k);
      ghost var s := k.tasks.S();
      TurnRests(s);
      if k.tasks.current.None? { k.Fetch(); } else { k.YieldNow(); }
      RestsOn(old(k.tasks.S()), s, k.tasks.S());
    }
  }

  // Task t came and only its space changed.
  lemma {:induction false} CameAndChanged(a: map<nat, Space>, b: map<nat, Space>, c: map<nat, Space>, t: nat)
    requires t !in a && OnlyOne(a, b, t) && OnlyOne(b, c, t)
    ensures t in c && c - {t} == a
  {
  }

  // A pointer of a live task leads to the same place after steps confined to other spaces.
  lemma {:induction false} PointerKept(w: World, w': World, ids: set<nat>, t: nat, va: nat)
    requires Alive(w, t) && t in w'.spaces && w'.spaces[t] == w.spaces[t] && w.spaces[t].id !in ids
    requires Confined(ids, w.s, w'.s) && WorldOk(w)
    ensures Root in w.spaces[t].tables
    ensures var root := w.spaces[t].tables[Root]; TranslateVa(w'.s.mem, root, va) == TranslateVa(w.s.mem, root, va)
  {
    hide Inv, Tree, View, Holds, OwnsPages, Agrees, Pages, Owned, Conserved, AllFramed, PpnOf, Walk, TrapReady;
    var p := w.spaces[t];
    assert SpaceGood(p, w.tasks.tcbs[t], w.s, w.tramp, w.env);
    RootThere(p.id, w.s, p.tables);
    assert SameTables(p.id, w.s, w'.s);
    TreeFrame(p.id, w.s, p.tables, w'.s);
  }

  lemma {:induction false} ParentKept(k: Kernel, w: World, ptr: Usize)
    requires w.tasks.current.Some? && Calling(w, w.tasks.current.value) && Alive(w, w.tasks.current.value) && WorldOk(w)
    requires k.tasks.current == w.tasks.current && k.Good() && Confined({w.nextId, 0}, w.s, k.m.S())
    requires w.tasks.current.value in k.snap && k.snap[w.tasks.current.value] == w.spaces[w.tasks.current.value]
    ensures k.Target(ptr) == Pointed(w, w.tasks.current.value, ptr)
  {
    hide Kernel.Good, WorldOk, Confined, Alive, TranslateVa, VirtAddr, View, Kernel.W, Kernel.Target;
    var t := w.tasks.current.value;
    Here(k);
    Parts(k);
    Leads(k, ptr);
    Numbers2(w, t);
    PointerKept(w, k.W(), {w.nextId, 0}, t, VirtAddr(ptr));
  }

  lemma {:induction false} Numbers2(w: World, t: nat)
    requires t in w.spaces && WorldOk(w)
    ensures w.spaces[t].id !in {w.nextId, 0}
  {
    hide Inv, LiveSpace, AllGood, Owned, Conserved;
  }

  // The running task forks, and n fetches and yields follow.
  method ForkAndTurn(k: Kernel, n: nat) returns (o: Outcome, pid: nat, ghost s1: State)
    requires k.tasks.current.Some? && k.Good()
    modifies k, k.m, k.tasks, k.pids, k.kspace, k.kspace.pt
    ensures o in {Fine, OutOfFrames} && (o.Fine? ==> k.Good())
    ensures o.OutOfFrames? ==> old(k.m.Free()) < SpaceFrames(old(k.CurrentAreas())) + 6
    ensures o.Fine? ==> ForkTasks(old(k.tasks.S()), s1, pid)
    ensures o.Fine? ==> k.tasks.S() == Idled(s1, n) && Resting(s1, k.tasks.S())
    ensures o.Fine? ==> OnlyOne(old(k.snap), k.snap, old(k.tasks.next)) && k.snap[old(k.tasks.next)].id == old(k.nextId)
    ensures o.Fine? ==> fresh(k.sets - old(k.sets)) && fresh(k.tables - old(k.tables))
    ensures o.Fine? ==> pid !in old(k.pids.Live()) && k.pids.Live() == old(k.pids.Live()) + {pid}
    ensures o.Fine? ==> k.Frames() + Holding(k.snap[old(k.tasks.next)]) + 2 == old(k.Frames())
    ensures o.Fine? ==> Confined({old(k.nextId), 0}, old(k.m.S()), k.m.S())
  {
    hide Kernel.Good, Confined, Inv, Machine.Free, Kernel.CurrentId, WorldOk, PidAllocator.Live, CopyOf, ForkTasks,
         Weight, Kernel.CurrentAreas, Kernel.CurrentMap, Resting, OnlyOne, Idled, SpaceFrames, Holding;
    s1 := k.tasks.S();
    o, pid := k.Fork();
    if !o.Fine? { return; }
    s1 := k.tasks.S();
    Idle(k, n);
  }

  lemma {:induction false} HoldingIs(p: Space)
    ensures Holding(p) == |p.tables| + Weight(p.areas)
  {
  }

  // The running task forks, fetches and yields follow, and the child exits.  It does so exactly if the
  // scheduler has brought it to run.
  method ChildLives(k: Kernel, n: nat, code: int)
      returns (o: Outcome, done: bool, c: nat, pid: nat, ghost s1: State, ghost s2: State)
    requires k.tasks.current.Some? && k.Good()
    modifies k, k.m, k.tasks, k.pids, k.kspace, k.kspace.pt, k.sets, k.tables
    ensures c == old(k.tasks.next) && o in {Fine, OutOfFrames} && (o.Fine? ==> k.Good())
    ensures o.OutOfFrames? ==> old(k.m.Free()) < SpaceFrames(old(k.CurrentAreas())) + 6
    ensures o.Fine? ==> ForkTasks(old(k.tasks.S()), s1, pid) && s2 == Idled(s1, n)
    ensures o.Fine? ==> (done <==> s2.current == Some(c) && c in s2.tcbs && c != s2.init)
    ensures o.Fine? && done ==> Resting(s1, s2) && k.tasks.S() == Tasks.Exit(s2, code)
    ensures o.Fine? && done ==> c in k.snap && k.snap - {c} == old(k.snap)
    ensures o.Fine? && done ==> fresh(k.sets - old(k.sets)) && fresh(k.tables - old(k.tables))
    ensures o.Fine? && done ==> pid !in old(k.pids.Live()) && k.pids.Live() == old(k.pids.Live()) + {pid}
    ensures o.Fine? && done ==> k.Frames() + |k.snap[c].tables| + 2 == old(k.Frames())
    ensures o.Fine? && done ==> Confined({old(k.nextId), 0}, old(k.m.S()), k.m.S())
  {
    hide Kernel.Good, Confined, Inv, Machine.Free, Kernel.CurrentId, WorldOk, PidAllocator.Live, ForkTasks, Weight,
         Kernel.CurrentAreas, Kernel.CurrentMap, Tasks.Exit, Resting, OnlyOne, Idled, SpaceFrames, Holding, Kernel.W;
    done, s2 := false, k.tasks.S();
    Caller(k);
    c := k.tasks.next;
    o, pid, s1 := ForkAndTurn(k, n);
    if !o.Fine? { return; }
    ghost var snap1, mem1 := k.snap, k.m.S();
    TasksOk(k);
    s2 := k.tasks.S();
    if k.tasks.current != Some(c) || c == k.tasks.init { return; }
    Caller(k);
    HoldingIs(k.snap[c]);
    k.Exit(code);
    CameAndChanged(old(k.snap), snap1, k.snap, c);
    ConfinedTransitive({old(k.nextId), 0}, {old(k.nextId)}, old(k.m.S()), mem1, k.m.S());
    assert {old(k.nextId), 0} + {old(k.nextId)} == {old(k.nextId), 0};
    done := true;
  }

  // A process comes and goes: fork, exit of the child, waitpid by the parent, with only fetches and
  // yields in between.  Exactly if the scheduler brings the child and then the parent to run, the parent
  // reaps this child with its code, which lies where its pointer led from the start; the pid, every space
  // and every frame are back, except for page-table nodes the kernel space has gained.
  method Lifetime(k: Kernel, n: nat, code: int, n': nat, ptr: Usize)
      returns (o: Outcome, done: bool, r: Tasks.Wait, pid: nat)
    requires k.tasks.current.Some? && k.Good()
    modifies k, k.m, k.tasks, k.pids, k.kspace, k.kspace.pt, k.sets, k.tables
    ensures o.Fine? ==> k.Good()
    ensures o.OutOfFrames? ==> old(k.m.Free()) < SpaceFrames(old(k.CurrentAreas())) + 6
    ensures !o.OutOfFrames? ==> (done <==> Meets(old(k.tasks.S()), pid, n, code, n'))
    ensures !o.OutOfFrames? ==>
      o == if done then StoreOutcome(old(k.Target(ptr)), k.m.base, k.m.end, VirtAddr(ptr)) else Fine
    ensures !o.OutOfFrames? && done ==> r == Reaped(old(k.tasks.next), pid, code) && pid !in old(k.pids.Live())
    ensures o.Fine? && done ==> old(k.Target(ptr)).Some? && HoldsCode(k.m.mem, old(k.Target(ptr)).value, code)
    ensures o.Fine? && done ==> k.snap == old(k.snap) && k.pids.Live() == old(k.pids.Live())
    ensures o.Fine? && done ==> k.tasks.tcbs.Keys == old(k.tasks.tcbs.Keys)
    ensures o.Fine? && done ==> k.Frames() == old(k.Frames())
  {
    hide Kernel.Good, Confined, WaitPid, Inv, Machine.Free, Kernel.CurrentId, WorldOk, StoreOutcome, StoreCode,
         Kernel.Target, PidAllocator.Live, ForkTasks, Tasks.Exit, Resting, Idled, SpaceFrames, Kernel.CurrentAreas,
         HoldsCode, OnlyCode, Kernel.W, Alive, Kernel.CurrentRoot, Kernel.CurrentPaths, Kernel.CurrentMap, View, Meets,
         Pointed, Kernel.WithCode, TranslateVa, VirtAddr;
    done, r := false, NoChild;
    TasksOk(k);
    Parts(k);
    Here(k);
    WorldNow(k);
    RunningAlive(k);
    Leads(k, ptr);
    ghost var s0 := k.tasks.S();
    var p, lived, c := k.tasks.current, false, 0;
    ghost var s1, s2;
    o, lived, c, pid, s1, s2 := ChildLives(k, n, code);
    if !o.Fine? { return; }
    MeetsIs(s0, s1, pid, n, code, n');
    if !lived { return; }
    ghost var s3 := k.tasks.S();
    Idle(k, n');
    if k.tasks.current != p { return; }
    TasksOk(k);
    ChildIsFound(s0, s1, s2, s3, k.tasks.S(), pid, code);
    ParentKept(k, old(k.W()), ptr);
    NoFrames(k.Target(ptr), k.m.base, k.m.end, VirtAddr(ptr));
    o, r := k.Wait(pid, ptr);
    done := true;
  }

  lemma {:induction false} NoFrames(pa: Option<nat>, base: nat, end: nat, va: nat)
    ensures !StoreOutcome(pa, base, end, va).OutOfFrames?
  {
  }

  lemma {:induction false} MeetsIs(s: State, s1: State, pid: nat, n: nat, code: int, n': nat)
    requires ForkTasks(s, s1, pid)
    ensures var s2 := Idled(s1, n);
            Meets(s, pid, n, code, n') <==>
              s2.current == Some(s.next) && s.next in s2.tcbs && s.next != s2.init
              && Idled(Tasks.Exit(s2, code), n').current == s.current
  {
    hide Idled, Tasks.Exit, Birth;
  }

  lemma {:induction false} RunningAlive(k: Kernel)
    requires k.tasks.current.Some? && k.Good()
    ensures Alive(k.W(), k.tasks.current.value)
  {
    hide Kernel.Good, Inv;
    Parts(k);
    Caller(k);
    TasksOk(k);
    RunningIsLive(k.tasks.S());
  }

  // ---- what the invariant says ----

  ghost predicate SpaceOfWorld(w: World, p: Space) { p == w.kernel || exists t :: t in w.spaces && w.spaces[t] == p }

  // The tracker of frame f sits in slot x of space p: a page-table node, or a page of an area.
  ghost predicate Sits(p: Space, x: Slot, f: nat) {
    && x.id == p.id
    && match x
       case Node(_, path) => path in p.tables && p.tables[path] == f
       case Data(_, v) => v in Pages(p.areas) && Pages(p.areas)[v] == f
  }

  // Every allocated frame has exactly one holder: its tracker sits in the slot on record, in the space
  // of the kernel or of some task, and in no other slot of any space.
  lemma {:induction false} OneHolder(w: World, f: nat)
    requires f in w.s.owner && WorldOk(w)
    ensures exists p :: SpaceOfWorld(w, p) && Sits(p, w.s.owner[f], f)
    ensures forall p, x :: SpaceOfWorld(w, p) && Sits(p, x, f) ==> x == w.s.owner[f]
    ensures forall p, q :: SpaceOfWorld(w, p) && SpaceOfWorld(w, q) && p.id == q.id ==> p == q
  {
    hide Inv, LiveSpace, Conserved, Pages, Sits, AllGood;
    assert HasSpace(w.spaces, w.s.owner[f].id);
    var p := w.kernel;
    if w.s.owner[f].id != 0 {
      var t :| t in w.spaces && w.spaces[t].id == w.s.owner[f].id;
      p := w.spaces[t];
    }
    HolderSits(w, p, f);
    forall q, x | SpaceOfWorld(w, q) && Sits(q, x, f) ensures x == w.s.owner[f] { SitsOnce(w, q, x, f); }
  }

  lemma {:induction false} HoldsFrames(w: World, p: Space)
    requires WorldOk(w) && SpaceOfWorld(w, p)
    ensures PageTables.Placed(p.id, w.s.owner, p.tables) && OwnsPages(p.id, w.s.owner, Pages(p.areas))
  {
    hide Inv, Holds, Agrees, OwnsPages, Conserved, Owned, PageTables.Placed;
    if p != w.kernel {
      var t :| t in w.spaces && w.spaces[t] == p;
      assert SpaceGood(p, w.tasks.tcbs[t], w.s, w.tramp, w.env);
    }
  }

  lemma {:induction false} HolderSits(w: World, p: Space, f: nat)
    requires WorldOk(w) && SpaceOfWorld(w, p) && f in w.s.owner && w.s.owner[f].id == p.id
    ensures Sits(p, w.s.owner[f], f)
  {
    hide WorldOk, Pages;
    HoldsFrames(w, p);
  }

  lemma {:induction false} SitsOnce(w: World, p: Space, x: Slot, f: nat)
    requires WorldOk(w) && SpaceOfWorld(w, p) && Sits(p, x, f)
    ensures f in w.s.owner && x == w.s.owner[f]
  {
    hide WorldOk, Pages;
    HoldsFrames(w, p);
  }

  // The trap context of a live task, as the hardware finds it.
  lemma {:induction false} TrapContext(w: World, t: nat)
    requires Alive(w, t) && WorldOk(w)
    ensures Root in w.spaces[t].tables && TRAP_VPN in View(w.s.mem, w.spaces[t].tables)
    ensures var f := PpnOf(View(w.s.mem, w.spaces[t].tables)[TRAP_VPN]);
            && Hardware(w.s.mem, w.spaces[t].tables[Root], TRAP_VPN, 2) == Some(f)
            && TrapWords(At(w.s.mem, f), w.env, Pids.StackTop(w.tasks.tcbs[t].pid))
  {
    hide Inv, Holds, OwnsPages, Pages, Owned, Conserved, AllFramed, PpnOf, Tree, View, Agrees, Hardware, FlagsOf, Has,
         Pids.StackTop, HasTrap, TrapWords, Usable;
    var p := w.spaces[t];
    assert SpaceGood(p, w.tasks.tcbs[t], w.s, w.tramp, w.env);
    RootThere(p.id, w.s, p.tables);
    HardwareAgrees(p.id, w.s, p.tables, TRAP_VPN);
  }

  // Every trap of every live task enters the kernel: the hardware finds the trap page, and the context on
  // it names the kernel's page table, the handler, and the top of the task's own kernel stack, whose
  // pages the kernel space maps; the way back ends in user mode.
  lemma {:induction false} TrapEntersKernel(k: Kernel, t: nat)
    requires Alive(k.W(), t) && k.Good()
    ensures Root in k.snap[t].tables && TRAP_VPN in View(k.m.mem, k.snap[t].tables)
    ensures var f := PpnOf(View(k.m.mem, k.snap[t].tables)[TRAP_VPN]);
            && Hardware(k.m.mem, k.snap[t].tables[Root], TRAP_VPN, 2) == Some(f)
            && TokenRoot(Word(At(k.m.mem, f), KERNEL_SATP)) == k.kspace.pt.root
            && Word(At(k.m.mem, f), TRAP_HANDLER) == k.handler
            && Word(At(k.m.mem, f), KERNEL_SP) == WORD - 4096 - 12288 * k.tasks.tcbs[t].pid
            && Quiet(Word(At(k.m.mem, f), SSTATUS))
    ensures Pids.Fits(k.tasks.tcbs[t].pid, 0)
    ensures var v := Pids.StackStart(k.tasks.tcbs[t].pid); v in k.kspace.pt.Map() && v + 1 in k.kspace.pt.Map()
  {
    hide Kernel.Good, WorldOk, View, Hardware, PpnOf, Word, Pids.StackTop, Pids.StackStart, Token, TokenRoot;
    WorldNow(k);
    TrapContext(k.W(), t);
    KernelRoot(k);
    k.OpenGood();
    StackMapped(k.W(), k.pids.Live(), k.pids.current, k.ps, k.sections, k.floor, k.Total(), t);
    StackPosition(k.tasks.tcbs[t].pid);
  }

  lemma {:induction false} KernelRoot(k: Kernel)
    requires k.Good()
    ensures TokenRoot(Token(k.kspace.pt.root)) == k.kspace.pt.root
  {
    hide Inv, AllGood, Owned, Conserved, Numbered, PidsGood, BreaksOk, Kernel.TiedSpaces, Agrees, Holds, OwnsPages;
    TokenRoundTrip(k.kspace.pt.root);
  }

  lemma {:induction false} StackMapped(w: World, live: set<nat>, current: nat, ps: seq<nat>, sections: seq<MapArea>,
                                       floor: nat, total: nat, t: nat)
    requires t in w.tasks.tcbs && WorldOk(w)
    requires PidsGood(live, current, ps, w.tasks.tcbs, w.kernel.areas, sections, floor, total)
    ensures Pids.Fits(w.tasks.tcbs[t].pid, 0)
    ensures var v, view := Pids.StackStart(w.tasks.tcbs[t].pid), View(w.s.mem, w.kernel.tables);
            v in view && v + 1 in view
  {
    hide Inv, AllGood, Owned, Conserved, Numbered, Agrees, Holds, OwnsPages, Tree, View, Pids.StackStart, Entry, Pages;
    var pid := w.tasks.tcbs[t].pid;
    assert pid in PidSet(w.tasks.tcbs);
    var i :| 0 <= i < |ps| && ps[i] == pid;
    assert Pids.IsStack(w.kernel.areas[|sections| + i], pid);
    AreaInView(View(w.s.mem, w.kernel.tables), w.kernel.areas, w.tramp, |sections| + i);
  }

  // Two live tasks map no frame in common but the trampoline, and no mapped page is a page table.
  lemma {:induction false} NothingShared(w: World, t: nat, u: nat, v: nat, x: nat)
    requires WorldOk(w) && t in w.spaces && u in w.spaces && t != u && t in w.tasks.tcbs && u in w.tasks.tcbs
    requires w.tasks.tcbs[t].status != Zombie && w.tasks.tcbs[u].status != Zombie
    requires v in View(w.s.mem, w.spaces[t].tables) && x in View(w.s.mem, w.spaces[u].tables) && v != TRAMPOLINE_VPN
    requires x != TRAMPOLINE_VPN
    ensures PpnOf(View(w.s.mem, w.spaces[t].tables)[v]) != PpnOf(View(w.s.mem, w.spaces[u].tables)[x])
    ensures var f := PpnOf(View(w.s.mem, w.spaces[t].tables)[v]);
            f in w.s.owner && w.s.owner[f] == Data(w.spaces[t].id, v)
  {
    hide Inv, Tree, View, Holds, OwnsPages, Agrees, Pages, Owned, Conserved, AllFramed, PpnOf;
    var p, q := w.spaces[t], w.spaces[u];
    assert SpaceGood(p, w.tasks.tcbs[t], w.s, w.tramp, w.env) && SpaceGood(q, w.tasks.tcbs[u], w.s, w.tramp, w.env);
    NoSharedFrame(w.s.owner, p.id, q.id, p.areas, q.areas, View(w.s.mem, p.tables), View(w.s.mem, q.tables), w.tramp,
                  w.tramp, v, x);
  }

  // A zombie holds page-table nodes only.
  lemma {:induction false} ZombieHolds(w: World, c: nat, f: nat)
    requires WorldOk(w) && c in w.spaces && c in w.tasks.tcbs && w.tasks.tcbs[c].status == Zombie
    requires f in w.s.owner && w.s.owner[f].id == w.spaces[c].id
    ensures w.s.owner[f].Node?
  {
    hide Inv, Tree, View, Holds, Owned, Conserved, LiveSpace;
    assert SpaceGood(w.spaces[c], w.tasks.tcbs[c], w.s, w.tramp, w.env);
  }

  // Frame conservation over lifetimes: whenever the same spaces are back, with as many pids out,
  // all frames are back too, except for page-table nodes the kernel space has gained.
  lemma {:induction false} FramesComeBack(w: World, w': World, sections: seq<MapArea>, floor: nat, ps: seq<nat>,
                                          ps': seq<nat>)
    requires WorldOk(w) && WorldOk(w') && w.total == w'.total && Holdings(w.spaces) == Holdings(w'.spaces)
    requires Stacked(w.kernel.areas, sections, floor, ps) && Stacked(w'.kernel.areas, sections, floor, ps')
    requires |ps| == |ps'|
    ensures w'.free + |w'.kernel.tables| == w.free + |w.kernel.tables|
  {
    hide LiveSpace, AllGood, Owned, Stacked, Weight, Sum, Inv, Family, DistinctPids;
    StackWeight(w.kernel.areas, sections, floor, ps);
    StackWeight(w'.kernel.areas, sections, floor, ps');
    HoldingKeys(w);
    HoldingKeys(w');
    if w.tasks.next <= w'.tasks.next {
      SumEnds(Holdings(w.spaces), w.tasks.next, w'.tasks.next);
    } else {
      SumEnds(Holdings(w.spaces), w'.tasks.next, w.tasks.next);
    }
  }

  lemma {:induction false} HoldingKeys(w: World)
    requires WorldOk(w)
    ensures forall t :: t in Holdings(w.spaces) ==> t < w.tasks.next
  {
    hide LiveSpace, AllGood, Owned, Conserved, Family, DistinctPids, PlaceOk;
  }

  lemma {:induction false} SumEnds(h: map<nat, nat>, n: nat, n': nat)
    requires n <= n' && forall t :: t in h ==> t < n
    ensures Sum(h, n') == Sum(h, n)
    decreases n'
  {
    if n < n' { SumEnds(h, n, n' - 1); }
  }
}
