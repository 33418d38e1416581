/** The whole kernel: one machine, the kernel space, the task table, the pids and one address
    space per task (src/syscall/process.rs, src/task/task.rs). */
module Kernels {
  import opened Address
  import opened Frames
  import opened FrameAllocator
  import opened PageTables
  import opened UserAccess
  import opened Areas
  import opened Layout
  import opened MemorySets
  import opened Fork
  import opened Loader
  import opened Stride
  import opened Tasks
  import opened TaskTables
  import opened Pids
  import opened MemorySyscalls
  import opened Isolation
  import opened Worlds
  import opened SpaceSteps
  import opened Traps
  import opened TrapPages
  import opened TaskSteps

  // The same spaces, but for that of task t.
  ghost predicate OnlyOne(a: map<nat, Space>, b: map<nat, Space>, t: nat) {
    t in b && b == a[t := b[t]]
  }

  // The new break would lie below the heap, or there is no heap area.
  ghost predicate NoBreak(areas: seq<MapArea>, heapBottom: nat, newBrk: int) {
    newBrk < heapBottom || First(areas, Floor(heapBottom)).None?
  }

  class Kernel {
    const m: Machine
    const kspace: MemorySet
    const tasks: TaskTable
    const pids: PidAllocator
    const trampoline: nat
    const handler: Usize               // address of trap_handler
    var spaces: map<nat, MemorySet>    // memory_set of every task

    ghost var snap: map<nat, Space>    // the same spaces as values
    ghost var sets: set<MemorySet>
    ghost var tables: set<PageTable>
    ghost const sections: seq<MapArea> // areas of the kernel space at boot
    ghost const floor: nat             // all of them lie below this page
    ghost var ps: seq<nat>             // pids in the order of their kernel stacks
    ghost var nextId: nat              // space numbers are used once

    ghost predicate TiedOne(t: nat)
      requires t in spaces && t in snap
      reads this, sets, tables
    {
      var sp := spaces[t];
      && sp in sets && sp.pt in tables && sp.pt.m == m && sp.trampoline == trampoline
      && Rooted(sp) && Of(sp) == snap[t]
    }

    ghost predicate TiedSpaces()
      reads this, sets, tables
    {
      && kspace !in sets && kspace.pt !in tables && snap.Keys == spaces.Keys
      && forall t :: t in spaces ==> TiedOne(t)
    }

    ghost predicate Tied()
      reads this, sets, tables, kspace, kspace.pt
    {
      && kspace.pt.m == m && kspace.trampoline == trampoline < m.base <= m.end && Rooted(kspace) && TiedSpaces()
    }

    ghost function Total(): nat { if m.base <= m.end then m.end - m.base else 0 }

    // What every trap context must lead to.
    function Env(): TrapEnv { TrapEnv(Token(kspace.pt.root), handler) }

    ghost function W(): World
      reads this, m, tasks, kspace, kspace.pt
    {
      World(m.S(), m.Free(), tasks.S(), Of(kspace), snap, nextId, TrampolineEntry(trampoline), Env(), Total())
    }

    ghost predicate Good()
      reads this, m, tasks, pids, sets, tables, kspace, kspace.pt
    {
      && Tied() && m.Valid() && pids.Valid() && WorldOk(W()) && BreaksOk(tasks.tcbs)
      && PidsGood(pids.Live(), pids.current, ps, tasks.tcbs, kspace.areas, sections, floor, Total())
    }

    // The areas of the running task.
    ghost function CurrentAreas(): seq<MapArea>
      reads this, tasks
    {
      if tasks.current.Some? && tasks.current.value in snap then snap[tasks.current.value].areas else []
    }

    // The mapping of the running task.
    ghost function CurrentMap(): map<nat, nat>
      reads this, tasks, m
    {
      if tasks.current.Some? && tasks.current.value in snap then View(m.mem, snap[tasks.current.value].tables)
      else map[]
    }

    // The heap bottom of the running task.
    ghost function CurrentBottom(): nat
      reads tasks
    {
      if tasks.current.Some? && tasks.current.value in tasks.tcbs then tasks.tcbs[tasks.current.value].heapBottom else 0
    }

    // Its break.
    ghost function CurrentBreak(): nat
      reads tasks
    {
      if tasks.current.Some? && tasks.current.value in tasks.tcbs then tasks.tcbs[tasks.current.value].programBrk else 0
    }

    // Its heap area ends where its break does.
    ghost predicate HeapFine()
      reads this, tasks
    {
      HeapOk(CurrentAreas(), CurrentBottom(), CurrentBreak())
    }

    // The page tables of the running task.
    ghost function CurrentPaths(): set<Path>
      reads this, tasks
    {
      if tasks.current.Some? && tasks.current.value in snap then snap[tasks.current.value].tables.Keys else {}
    }

    // The free frames and the kernel's own page tables.
    ghost function Frames(): nat
      reads m, kspace.pt
    {
      m.Free() + |kspace.pt.tables|
    }

    // The data frames of the running task.
    ghost function CurrentWeight(): nat
      reads this, tasks
    {
      if tasks.current.Some? && tasks.current.value in snap then Weight(snap[tasks.current.value].areas) else 0
    }

    lemma {:induction false} OpenGood()
      requires Good()
      ensures Tied() && m.Valid() && pids.Valid() && WorldOk(W()) && BreaksOk(tasks.tcbs) && kspace.pt.m == m
      ensures PidsGood(pids.Live(), pids.current, ps, tasks.tcbs, kspace.areas, sections, floor, Total())
      ensures forall t :: t in tasks.tcbs ==> tasks.tcbs[t].prio >= 2
    {
      hide TiedSpaces, LiveSpace, AllGood, Owned, Conserved, Numbered, PidsGood, Family, DistinctPids, BreaksOk;
      forall t | t in tasks.tcbs ensures tasks.tcbs[t].prio >= 2 { assert PlaceOk(tasks.S(), t); }
    }

    lemma {:induction false} BelowBase()
      requires Good()
      ensures trampoline < m.base && kspace.pt.m == m && kspace.trampoline == trampoline && Rooted(kspace)
      ensures kspace.pt.id == 0 && 0 < nextId
      ensures forall t :: t in spaces ==> spaces[t].pt.id < nextId
    {
      hide Inv, LiveSpace, Owned, Conserved, AllGood;
      forall t | t in spaces ensures spaces[t].pt.id < nextId { assert TiedOne(t); }
    }

    // The number of the running task's space.
    ghost function CurrentId(): nat
      reads this, tasks
    {
      if tasks.current.Some? && tasks.current.value in spaces then spaces[tasks.current.value].pt.id else 0
    }

    // The trap context of a fresh program, apart from its kernel stack pointer.
    function StartContext(segs: seq<Segment>, entry: Usize, status: Usize): TrapInit {
      AppStart(entry, Loader.StackTop(MaxEnd(segs)), Token(kspace.pt.root), status, handler)
    }

    lemma {:induction false} StartWords(segs: seq<Segment>, entry: Usize, status: Usize)
      requires Good()
      ensures Words(StartContext(segs, entry, status)) && StartContext(segs, entry, status).AppStart?
      ensures var i := StartContext(segs, entry, status); i.satp == Env().satp && i.handler == Env().handler
    {
      hide Inv, AllGood, Owned, Conserved, Numbered, PidsGood, BreaksOk, TiedSpaces, Agrees, Holds, OwnsPages, MaxEnd,
           Loader.StackTop;
      SpBound(segs);
      TokenRoundTrip(kspace.pt.root);
    }

    constructor (m: Machine, kspace: MemorySet, tasks: TaskTable, pids: PidAllocator, first: MemorySet, handler: Usize,
                 ghost sections: seq<MapArea>, ghost floor: nat, ghost pid: nat)
      ensures this.m == m && this.kspace == kspace && this.tasks == tasks && this.pids == pids
      ensures trampoline == kspace.trampoline && this.handler == handler
      ensures spaces == map[tasks.init := first] && snap == map[tasks.init := Of(first)] && sets == {first}
      ensures tables == {first.pt}
      ensures this.sections == sections && this.floor == floor && ps == [pid] && nextId == 2
    {
      this.m, this.kspace, this.tasks, this.pids, trampoline := m, kspace, tasks, pids, kspace.trampoline;
      spaces, snap, sets, tables := map[tasks.init := first], map[tasks.init := Of(first)], {first}, {first.pt};
      this.handler, this.sections, this.floor, ps, nextId := handler, sections, floor, [pid], 2;
    }

    // The space of the running task, ready for use.
    lemma {:induction false} Running(t: nat)
      requires tasks.current == Some(t) && Good()
      ensures t in spaces && t in snap && t in tasks.tcbs && tasks.tcbs[t].status == Tasks.Running && Inv(tasks.S())
      ensures spaces[t].Live() && AllFramed(spaces[t].areas) && spaces[t].pt.m == m
      ensures spaces[t].trampoline == trampoline
      ensures spaces[t] in sets && spaces[t].pt in tables && Of(spaces[t]) == snap[t]
      ensures spaces[t] != kspace && spaces[t].pt != kspace.pt && tasks.tcbs[t].heapBottom < BRK_LIMIT
      ensures tasks.tcbs[t].programBrk < BRK_LIMIT
      ensures TrapReady(Of(spaces[t]), m.S(), Env(), Pids.StackTop(tasks.tcbs[t].pid))
      ensures forall f :: f in m.owner ==> m.owner[f].id != nextId
      ensures forall u :: u in spaces && u != t ==> spaces[u] != spaces[t] && spaces[u].pt != spaces[t].pt
    {
      hide LiveSpace, Owned, Conserved, AllFramed, TrapReady, Pids.StackTop;
      RunningIsLive(tasks.S());
      FreshId(W());
      assert TiedOne(t);
      forall u | u in spaces && u != t ensures spaces[u].pt != spaces[t].pt { assert TiedOne(u); }
      ToLive(spaces[t]);
    }

    // The objects still match the values after a step of task t's space.
    twostate lemma Retied(t: nat)
      requires old(Tied()) && t in spaces && spaces == old(spaces) && sets == old(sets) && tables == old(tables)
      requires unchanged(kspace) && unchanged(kspace.pt)
      requires forall u :: u in spaces && u != t ==> unchanged(spaces[u]) && unchanged(spaces[u].pt)
      requires snap == old(snap)[t := Of(spaces[t])] && Rooted(spaces[t])
      ensures Tied()
    {
      assert old(TiedOne(t));
      forall u | u in spaces ensures TiedOne(u) { if u != t { assert old(TiedOne(u)); } }
    }

    // The invariant after a step of task t's space and of the task table.
    twostate lemma Settled(t: nat)
      requires old(Good()) && t in spaces && t in snap && t in tasks.tcbs && t in old(snap)
      requires spaces == old(spaces) && sets == old(sets) && tables == old(tables) && ps == old(ps)
      requires nextId == old(nextId)
      requires unchanged(kspace) && unchanged(kspace.pt) && unchanged(pids)
      requires forall u :: u in spaces && u != t ==> unchanged(spaces[u]) && unchanged(spaces[u].pt)
      requires snap == old(snap)[t := Of(spaces[t])] && Rooted(spaces[t]) && m.Valid()
      requires Inv(tasks.S()) && BreaksOk(tasks.tcbs) && PidSet(tasks.tcbs) == old(PidSet(tasks.tcbs))
      requires tasks.next == old(tasks.next)
      requires tasks.tcbs.Keys == old(tasks.tcbs.Keys) && SameZombies(old(tasks.tcbs), tasks.tcbs, t)
      requires Confined({spaces[t].pt.id}, old(m.S()), m.S())
      requires SpaceGood(snap[t], tasks.tcbs[t], m.S(), TrampolineEntry(trampoline), Env())
      requires m.Free() + Holding(snap[t]) == old(m.Free() + Holding(snap[t]))
      ensures Good()
    {
      hide Inv, Machine.Valid, Machine.Free, Confined, WorldOk, SpaceGood, Tied, PidsGood, SameZombies, BreaksOk,
           PidSet, Holding, TrampolineEntry;
      OwnId(t);
      Retied(t);
      PidsKept(pids.Live(), pids.current, ps, old(tasks.tcbs), tasks.tcbs, kspace.areas, sections, floor, Total());
      StepOne(old(W()), W(), t);
    }

    // The same when the task table did not change.
    twostate lemma SettledMemory(t: nat)
      requires old(Good()) && t in spaces && t in snap && t in tasks.tcbs && t in old(snap)
      requires spaces == old(spaces) && sets == old(sets) && tables == old(tables) && ps == old(ps)
      requires nextId == old(nextId)
      requires unchanged(kspace) && unchanged(kspace.pt) && unchanged(pids) && unchanged(tasks)
      requires forall u :: u in spaces && u != t ==> unchanged(spaces[u]) && unchanged(spaces[u].pt)
      requires snap == old(snap)[t := Of(spaces[t])] && Rooted(spaces[t]) && m.Valid()
      requires Confined({spaces[t].pt.id}, old(m.S()), m.S())
      requires SpaceGood(snap[t], tasks.tcbs[t], m.S(), TrampolineEntry(trampoline), Env())
      requires m.Free() + Holding(snap[t]) == old(m.Free() + Holding(snap[t]))
      ensures Good()
    {
      hide Inv, Machine.Valid, Machine.Free, Confined, SpaceGood, Tied, PidsGood, BreaksOk, PidSet, Holding,
           TrampolineEntry, Numbered, LiveSpace, AllGood, Owned, Conserved;
      Settled(t);
    }

    twostate lemma OwnId(t: nat)
      requires old(Tied()) && t in old(spaces) && t in old(snap)
      ensures old(snap)[t].id == old(spaces)[t].pt.id
    {
      assert old(TiedOne(t));
    }

    // sys_mmap for the running task.
    method Mmap(start: nat, len: nat, port: nat) returns (o: Outcome, r: int)
      requires tasks.current.Some? && Good()
      modifies this`snap, m, sets, tables
      ensures o in {Fine, OutOfFrames, ReversedRange}
      ensures o.Fine? ==> Good() && Confined({old(CurrentId())}, old(m.S()), m.S()) && r in {0, -1}
      ensures o.Fine? && r == 0 ==>
        Mapped39(old(CurrentAreas()), CurrentAreas(), First39(start), Last39(start, len), MmapPerm(port), m.mem)
      ensures o.Fine? && r == 0 ==> Granted(CurrentMap(), First39(start), Last39(start, len), port)
      ensures o.ReversedRange? <==> !BadMmap(start, port) && First39(start) > Last39(start, len)
      ensures o.Fine? ==> KeepsData(old(m.S()), m.S())
      ensures o.Fine? && r == -1 ==> CurrentAreas() == old(CurrentAreas()) && m.S() == old(m.S()) && snap == old(snap)
      ensures o.OutOfFrames? ==> MmapShort(old(m.Free()), old(CurrentPaths()), start, len)
      ensures o.Fine? && r == 0 ==> !MmapShort(old(m.Free()), old(CurrentPaths()), start, len)
      ensures o.Fine? ==> OnlyOne(old(snap), snap, old(tasks.current.value))
      ensures o.Fine? ==> (r == -1 <==> BadMmap(start, port) || Overlaps(old(CurrentMap()), start, len))
    {
      hide Good, Inv, Machine.Valid, Machine.Free, MemorySet.Live, MemorySet.Held, MemorySet.Budget, AllFramed,
           Confined, Extended, Released, LiveSpace, Holding, TrampolineEntry, View, Mapped39, BadMmap, First39, Last39,
           MmapPerm, MmapShort, TrapReady, Pids.StackTop, Granted, KeepsData;
      var t := tasks.current.value;
      Running(t);
      var sp := spaces[t];
      FromLive(sp);
      ghost var p, top := Of(sp), Pids.StackTop(tasks.tcbs[t].pid);
      assert CurrentMap() == sp.pt.Map();
      o, r := SysMmap(sp, start, len, port);
      if o.Fine? {
        FromLive(sp);
        snap := snap[t := Of(sp)];
        ExtendedConfines(sp.pt.id, old(m.S()), m.S());
        ExtendedKeepsData(sp.pt.id, old(m.S()), m.S());
        assert CurrentMap() == sp.pt.Map();
        MappedFramed(old(sp.areas), sp.areas, First39(start), Last39(start, len), MmapPerm(port), m.mem);
        MmapReady(p, Of(sp), old(m.S()), m.S(), TrampolineEntry(trampoline), Env(), top, First39(start),
                  Last39(start, len), MmapPerm(port));
        SettledMemory(t);
      }
    }

    // sys_munmap for the running task.  Giving up the trap page is the end: the task cannot return.
    method Munmap(start: nat, len: nat) returns (o: Outcome, r: int)
      requires tasks.current.Some? && Good()
      modifies this`snap, m, sets, tables
      ensures o in {Fine, ReversedRange, Stuck} && (!o.Stuck? ==> Good()) && (o.Fine? ==> r in {0, -1})
      ensures Confined({old(CurrentId())}, old(m.S()), m.S()) && OnlyOne(old(snap), snap, old(tasks.current.value))
      ensures o.Stuck? <==> DropsTrap(start, len)
      ensures o.ReversedRange? <==> start % PAGE_SIZE == 0 && First39(start) > Last39(start, len)
      ensures KeepsData(old(m.S()), m.S())
      ensures o.Fine? && r == 0 ==> CurrentAreas() == Kept(old(CurrentAreas()), First39(start), Last39(start, len))
      ensures o.ReversedRange? || r == -1 ==> CurrentAreas() == old(CurrentAreas()) && m.S() == old(m.S())
      ensures o.ReversedRange? || r == -1 ==> snap == old(snap)
      ensures o.Fine? ==>
        (r == -1 <==> start % PAGE_SIZE != 0 || !AllMapped(old(CurrentMap()), First39(start), Last39(start, len)))
    {
      hide Good, Inv, Machine.Valid, Machine.Free, MemorySet.Live, MemorySet.Held, MemorySet.Budget, AllFramed,
           Confined, Extended, Released, LiveSpace, Holding, TrampolineEntry, View, Kept, AllMapped, First39, Last39,
           TrapReady, Pids.StackTop, DropsTrap, KeepsData;
      var t := tasks.current.value;
      Running(t);
      var sp := spaces[t];
      FromLive(sp);
      assert CurrentMap() == sp.pt.Map();
      o, r := UnmapUser(sp, start, len, Env(), Pids.StackTop(tasks.tcbs[t].pid));
      FromLive(sp);
      snap := snap[t := Of(sp)];
      if !o.Stuck? { SettledMemory(t); }
    }

    // The memory part of change_program_brk for the running task.
    method MoveBreak(size: int) returns (o: Outcome, r: Option<nat>, brk: nat)
      requires tasks.current.Some? && -0x8000_0000 <= size < 0x8000_0000 && Good()
      modifies this`snap, m, sets, tables
      ensures o.Fine? ==> Good() && Confined({old(CurrentId())}, old(m.S()), m.S())
      ensures r.Some? ==> o.Fine? && brk == r.value + size < BRK_LIMIT
      ensures r.Some? ==>
        Resized(old(CurrentAreas()), CurrentAreas(), CurrentBottom(), brk, old(CurrentMap()), CurrentMap())
      ensures r.Some? ==> NewZeros(old(CurrentAreas()), CurrentAreas(), CurrentBottom(), m.mem)
      ensures o.Fine? ==> KeepsData(old(m.S()), m.S())
      ensures BrkOutcome(if o.Stuck? then Fine else o, size, CurrentBreak() + size, old(m.Free()), old(CurrentPaths()),
                         old(CurrentMap()), old(CurrentAreas()), CurrentBottom())
      ensures o.Fine? && r.None? ==> CurrentAreas() == old(CurrentAreas()) && m.S() == old(m.S()) && snap == old(snap)
      ensures o.Fine? && r.None? ==> brk == CurrentBreak()
      ensures o.Fine? ==> OnlyOne(old(snap), snap, old(tasks.current.value)) && (r.Some? ==> r.value == CurrentBreak())
      ensures o.Fine? ==> (r.None? <==> NoBreak(old(CurrentAreas()), CurrentBottom(), CurrentBreak() + size))
      ensures old(HeapFine()) ==> !o.ReversedRange? && (o.Fine? ==> HeapOk(CurrentAreas(), CurrentBottom(), brk))
      ensures o.Stuck? ==> GivesTrap(old(CurrentAreas()), CurrentBottom(), CurrentBreak() + size)
      ensures o.Fine? ==> !GivesTrap(old(CurrentAreas()), CurrentBottom(), CurrentBreak() + size)
    {
      hide Good, Inv, Machine.Valid, Machine.Free, MemorySet.Live, MemorySet.Held, MemorySet.Budget, AllFramed,
           Confined, Extended, Released, LiveSpace, Holding, TrampolineEntry, HeapOk, First, Resized, TrapReady,
           Pids.StackTop, View, GivesTrap, BrkOutcome, NewZeros, KeepsData;
      var t := tasks.current.value;
      Running(t);
      var sp := spaces[t];
      FromLive(sp);
      assert CurrentMap() == sp.pt.Map();
      ghost var top := Pids.StackTop(tasks.tcbs[t].pid);
      o, r, brk := BreakUser(sp, tasks.tcbs[t].heapBottom, tasks.tcbs[t].programBrk, size, Env(), top);
      if !o.Fine? { return; }
      FromLive(sp);
      snap := snap[t := Of(sp)];
      SettledMemory(t);
    }

    // Setting the break moves neither the current slot nor the heap bottom.
    twostate lemma SameCurrent(brk: nat)
      requires old(tasks.current.Some? && tasks.current.value in tasks.tcbs) && tasks.S() == SetBrk(old(tasks.S()), brk)
      requires unchanged(this) && unchanged(m)
      ensures CurrentAreas() == old(CurrentAreas()) && CurrentMap() == old(CurrentMap())
      ensures CurrentBottom() == old(CurrentBottom()) && CurrentBreak() == brk
    {
    }

    // sys_sbrk: the old break, or -1 and nothing has changed.
    method Sbrk(size: int) returns (o: Outcome, r: int)
      requires tasks.current.Some? && -0x8000_0000 <= size < 0x8000_0000 && Good()
      modifies this`snap, m, tasks, sets, tables
      ensures o.Fine? ==> Good() && Confined({old(CurrentId())}, old(m.S()), m.S())
      ensures o.Fine? ==> old(tasks.current.value in tasks.tcbs)
      ensures o.Fine? ==> OnlyOne(old(snap), snap, old(tasks.current.value))
      ensures o.Fine? && r < 0 ==> r == -1 && tasks.S() == old(tasks.S())
      ensures o.Fine? && r >= 0 ==> r + size >= 0 && tasks.S() == SetBrk(old(tasks.S()), r + size)
      ensures o.Fine? && r < 0 ==> CurrentAreas() == old(CurrentAreas()) && m.S() == old(m.S()) && snap == old(snap)
      ensures o.Fine? && r >= 0 ==> r + size >= 0
      ensures o.Fine? && r >= 0 ==>
        Resized(old(CurrentAreas()), CurrentAreas(), old(CurrentBottom()), r + size, old(CurrentMap()), CurrentMap())
      ensures o.Fine? && r >= 0 ==> NewZeros(old(CurrentAreas()), CurrentAreas(), old(CurrentBottom()), m.mem)
      ensures o.Fine? ==> KeepsData(old(m.S()), m.S())
      ensures BrkOutcome(if o.Stuck? then Fine else o, size, old(CurrentBreak()) + size, old(m.Free()),
                         old(CurrentPaths()), old(CurrentMap()), old(CurrentAreas()), old(CurrentBottom()))
      ensures o.Fine? ==> (r < 0 <==> NoBreak(old(CurrentAreas()), old(CurrentBottom()), old(CurrentBreak()) + size))
      ensures o.Fine? && r >= 0 ==> r == old(CurrentBreak())
      ensures old(HeapFine()) ==> !o.ReversedRange? && (o.Fine? ==> HeapFine())
      ensures o.Stuck? ==> GivesTrap(old(CurrentAreas()), old(CurrentBottom()), old(CurrentBreak()) + size)
      ensures o.Fine? ==> !GivesTrap(old(CurrentAreas()), old(CurrentBottom()), old(CurrentBreak()) + size)
    {
      hide Good, Inv, Machine.Valid, Tied, PidsGood, WorldOk, BreaksOk, Confined, Resized, View, Plain, SetBrk,
           CurrentMap, CurrentAreas, CurrentBottom, CurrentBreak, CurrentId, OnlyOne, MemorySet.Live, AllFramed, HeapOk,
           NoBreak, GivesTrap, TrapReady, Pids.StackTop, BrkOutcome, NewZeros, KeepsData;
      Running(tasks.current.value);
      var res, brk;
      o, res, brk := MoveBreak(size);
      if res.None? { return o, -1; }
      OpenGood();
      SetBrkPlain(tasks.S(), brk);
      label Moved:
      tasks.SetBreak(brk);
      SameCurrent@Moved(brk);
      PlainStep@Moved(old@Moved(W()));
      return o, res.value;
    }

    // The invariant after a step of the task table alone.
    twostate lemma PlainStep(w: World)
      requires old(Good()) && unchanged(m) && unchanged(kspace) && unchanged(kspace.pt) && unchanged(pids)
      requires unchanged(this) && unchanged(sets) && unchanged(tables)
      requires w == old(W()) && Inv(tasks.S()) && Plain(w.tasks, tasks.S()) && BreaksOk(tasks.tcbs)
      ensures Good()
    {
      hide Inv, Machine.Valid, WorldOk, TiedOne, Stacked, PidSet, BreaksOk;
      SamePids(w.tasks.tcbs, tasks.tcbs);
      StepTasks(w, W());
      forall t | t in spaces ensures TiedOne(t) { assert old(TiedOne(t)); }
    }

    // One turn of the idle loop.
    method Fetch()
      requires tasks.current.None? && Good()
      modifies tasks
      ensures Good() && tasks.S() == Dispatch(old(tasks.S()))
    {
      hide Machine.Valid, Tied, PidsGood, Owned, LiveSpace, AllGood, Conserved, Inv, Dispatch;
      ghost var w := W();
      DispatchPlain(tasks.S());
      var found := tasks.RunNext();
      PlainStep(w);
    }

    // sys_yield.
    method YieldNow()
      requires tasks.current.Some? && Good()
      modifies tasks
      ensures Good() && old(tasks.current.value in tasks.tcbs) && tasks.S() == Yield(old(tasks.S()))
    {
      hide Machine.Valid, Tied, PidsGood, Owned, LiveSpace, AllGood, Conserved, Inv;
      ghost var w := W();
      RunningIsLive(tasks.S());
      YieldPlain(tasks.S());
      tasks.Suspend();
      PlainStep(w);
    }

    // sys_set_prio.
    method SetPriority(prio: int) returns (r: int)
      requires tasks.current.Some? && Good()
      modifies tasks
      ensures Good() && old(tasks.current.value in tasks.tcbs) && tasks.S() == SetPrio(old(tasks.S()), prio)
      ensures r == if prio <= 1 then -1 else prio
    {
      hide Machine.Valid, Tied, PidsGood, Owned, LiveSpace, AllGood, Conserved, Inv;
      ghost var w := W();
      RunningIsLive(tasks.S());
      SetPrioPlain(tasks.S(), prio);
      r := tasks.SetPriority(prio);
      PlainStep(w);
    }

    // exit_current_and_run_next: the data frames come back at once, the page tables stay.
    method Exit(code: int)
      requires tasks.current.Some? && tasks.current.value != tasks.init && Good()
      modifies this`snap, m, tasks, sets, tables
      ensures Good() && Confined({old(CurrentId())}, old(m.S()), m.S()) && m.Free() == old(m.Free() + CurrentWeight())
      ensures old(tasks.current.value in tasks.tcbs) && tasks.S() == Tasks.Exit(old(tasks.S()), code)
      ensures OnlyOne(old(snap), snap, old(tasks.current.value)) && kspace.pt.tables == old(kspace.pt.tables)
      ensures var t := old(tasks.current.value);
              t in old(snap) && snap[t].tables == old(snap)[t].tables && snap[t].areas == []
    {
      hide Good, Inv, Machine.Valid, Machine.Free, MemorySet.Live, MemorySet.Held, MemorySet.Budget, AllFramed,
           Confined, Extended, Released, LiveSpace, TrampolineEntry, Weight, DeadSpace, SameZombies, Tasks.Exit,
           TrapReady, Pids.StackTop, OwnsPages, PageTable.Valid, PidSet, BreaksOk, WorldOk, Tied, PidsGood;
      var t := tasks.current.value;
      Running(t);
      var sp := spaces[t];
      FromLive(sp);
      LiveIsHeld(sp);
      ExitFolk(tasks.S(), code);
      OpenGood();
      tasks.ExitCurrent(code);
      sp.RecycleDataPages();
      FromDead(sp);
      snap := snap[t := Of(sp)];
      ReleasedConfines(sp.pt.id, old(m.S()), m.S());
      Settled(t);
    }

    // The objects still match the values after ns became the space of task t.
    twostate lemma RetiedNew(t: nat, new ns: MemorySet)
      requires old(Tied()) && spaces == old(spaces)[t := ns] && snap == old(snap)[t := Of(ns)]
      requires sets == old(sets) + {ns} && tables == old(tables) + {ns.pt}
      requires Rooted(kspace) && forall u :: u in old(spaces) && u != t ==> unchanged(old(spaces)[u])
      requires Rooted(kspace) && forall u :: u in old(spaces) && u != t ==> unchanged(old(spaces)[u].pt)
      requires Rooted(ns) && ns.pt.m == m && ns.trampoline == trampoline && ns != kspace && ns.pt != kspace.pt
      ensures Tied()
    {
      forall u | u in spaces ensures TiedOne(u) { if u != t { assert old(TiedOne(u)); } }
    }

    // The invariant after a task got the new space ns and its old one was dropped.
    twostate lemma Swapped(t: nat, new ns: MemorySet)
      requires old(Good()) && t in old(spaces) && t in old(snap) && t in tasks.tcbs
      requires spaces == old(spaces)[t := ns] && snap == old(snap)[t := Of(ns)] && sets == old(sets) + {ns}
      requires tables == old(tables) + {ns.pt}
      requires ps == old(ps) && nextId == old(nextId) + 1 && unchanged(kspace) && unchanged(kspace.pt)
      requires unchanged(pids) && unchanged(tasks)
      requires forall u :: u in old(spaces) && u != t ==> unchanged(old(spaces)[u]) && unchanged(old(spaces)[u].pt)
      requires Rooted(ns) && m.Valid() && ns.pt.m == m && ns.trampoline == trampoline && ns.pt.id == old(nextId)
      requires ns != kspace && ns.pt != kspace.pt
      requires Confined({old(spaces)[t].pt.id, old(nextId)}, old(m.S()), m.S())
      requires forall f :: f in m.owner ==> m.owner[f].id != old(spaces)[t].pt.id
      requires SpaceGood(Of(ns), tasks.tcbs[t], m.S(), TrampolineEntry(trampoline), Env())
      requires m.Free() + Holding(Of(ns)) == old(m.Free() + Holding(snap[t]))
      ensures Good()
    {
      hide Inv, Machine.Valid, Machine.Free, Confined, WorldOk, SpaceGood, PidsGood, BreaksOk, Holding, TrampolineEntry,
           TiedOne;
      OwnId(t);
      RetiedNew(t, ns);
      StepSwap(old(W()), W(), t, Of(ns));
    }

    // The memory part of exec: the running task's space goes, ns is there in its place.
    method NewImage(segs: seq<Segment>, i: TrapInit, kernelSp: nat) returns (o: Outcome, ns: MemorySet)
      requires tasks.current.Some? && tasks.current.value in tasks.tcbs && i.AppStart? && Words(i)
      requires i.satp == Env().satp && i.handler == Env().handler
      requires kernelSp == Pids.StackTop(tasks.tcbs[tasks.current.value].pid) && Good()
      modifies m, sets
      ensures GoodLayout(segs) ==> o in {Fine, OutOfFrames}
      ensures o.OutOfFrames? ==> old(m.Free()) < ProgramFrames(segs)
      ensures o.Fine? ==> old(m.Free()) >= ProgramFrames(segs)
      ensures tasks.current.value in spaces && tasks.current.value in tasks.tcbs && tasks.current.value in snap
      ensures forall u :: u in spaces && u != tasks.current.value ==> unchanged(spaces[u])
      ensures unchanged(kspace)
      ensures o.Fine? ==> fresh(ns) && fresh(ns.pt) && ns.pt.m == m && ns.pt.id == nextId && ns.trampoline == trampoline
      ensures o.Fine? ==> Rooted(ns) && m.Valid() && ns.pt != kspace.pt
      ensures o.Fine? ==> SpaceGood(Of(ns), tasks.tcbs[tasks.current.value], m.S(), TrampolineEntry(trampoline), Env())
      ensures o.Fine? ==> m.Free() + Holding(Of(ns)) == old(m.Free() + Holding(snap[tasks.current.value]))
      ensures o.Fine? ==> Confined({CurrentId(), nextId}, old(m.S()), m.S())
      ensures o.Fine? ==> forall f :: f in m.owner ==> m.owner[f].id != CurrentId()
      ensures o.Fine? ==> Started(ns.areas, segs, m.mem, i, kernelSp)
    {
      hide Good, Inv, Machine.Valid, Machine.Free, MemorySet.Live, MemorySet.Budget, AllFramed, Confined, LiveSpace,
           Holding, TrampolineEntry, Started, View, Words, GoodLayout, ProgramFrames;
      var t := tasks.current.value;
      Running(t);
      BelowBase();
      o, ns := Restart(spaces[t], nextId, segs, i, kernelSp);
      if o.Fine? {
        FromLive(ns);
        StartedReady(Of(ns), segs, m.S(), TrampolineEntry(trampoline), i, Env(), kernelSp);
      }
    }

    // exec with the given trap context.
    method Replace(segs: seq<Segment>, i: TrapInit, kernelSp: nat) returns (o: Outcome, ns: MemorySet)
      requires tasks.current.Some? && tasks.current.value in tasks.tcbs && i.AppStart? && Words(i)
      requires i.satp == Env().satp && i.handler == Env().handler
      requires kernelSp == Pids.StackTop(tasks.tcbs[tasks.current.value].pid) && Good()
      modifies this, m, sets
      ensures GoodLayout(segs) ==> o in {Fine, OutOfFrames}
      ensures o.OutOfFrames? ==> old(m.Free()) < ProgramFrames(segs)
      ensures o.Fine? ==> old(m.Free()) >= ProgramFrames(segs)
      ensures o.Fine? ==> Good() && Confined({old(CurrentId()), old(nextId)}, old(m.S()), m.S())
      ensures o.Fine? ==> sets == old(sets) + {ns} && tables == old(tables) + {ns.pt} && fresh(ns) && fresh(ns.pt)
      ensures o.Fine? ==> OnlyOne(old(snap), snap, old(tasks.current.value))
      ensures o.Fine? ==> Started(CurrentAreas(), segs, m.mem, i, kernelSp)
    {
      hide Good, Inv, Machine.Valid, Machine.Free, SpaceGood, AllFramed, Confined, Holding, TrampolineEntry, Started,
           Words, GoodLayout, ProgramFrames;
      o, ns := NewImage(segs, i, kernelSp);
      if !o.Fine? { return; }
      var t := tasks.current.value;
      spaces, snap, sets, tables, nextId :=
        spaces[t := ns], snap[t := Of(ns)], sets + {ns}, tables + {ns.pt}, nextId + 1;
      Swapped(t, ns);
    }

    // TaskControlBlock::exec.
    method Exec(segs: seq<Segment>, entry: Usize, status: Usize) returns (o: Outcome)
      requires tasks.current.Some? && Good()
      modifies this, m, sets
      ensures GoodLayout(segs) ==> o in {Fine, OutOfFrames}
      ensures o.OutOfFrames? ==> old(m.Free()) < ProgramFrames(segs)
      ensures o.Fine? ==> old(m.Free()) >= ProgramFrames(segs)
      ensures o.Fine? ==> Good() && Confined({old(CurrentId()), old(nextId)}, old(m.S()), m.S())
      ensures o.Fine? ==> fresh(sets - old(sets)) && fresh(tables - old(tables))
      ensures o.Fine? ==> OnlyOne(old(snap), snap, old(tasks.current.value)) && old(tasks.current.value in tasks.tcbs)
      ensures o.Fine? ==>
        var i := AppStart(entry, Loader.StackTop(MaxEnd(segs)), Token(kspace.pt.root), status, handler);
        Started(CurrentAreas(), segs, m.mem, i, Pids.StackTop(old(tasks.tcbs[tasks.current.value].pid)))
    {
      hide Good, Confined, Started, Words, GoodLayout, Loader.StackTop, MaxEnd, Token, OnlyOne, CurrentId,
           CurrentAreas, MemorySet.Live, AllFramed, Inv, ProgramFrames;
      Running(tasks.current.value);
      StartWords(segs, entry, status);
      var ns;
      o, ns := Replace(segs, StartContext(segs, entry, status), Pids.StackTop(tasks.tcbs[tasks.current.value].pid));
    }

    // The kernel with a finished space ns that no task has yet: the world is still w, except that ns
    // took frames.
    ghost predicate Pending(w: World, ns: MemorySet)
      reads this, m, tasks, pids, sets, tables, kspace, kspace.pt, ns, ns.pt, ns.pt.m
    {
      && Tied() && m.Valid() && pids.Valid() && WorldOk(w) && BreaksOk(tasks.tcbs)
      && PidsGood(pids.Live(), pids.current, ps, tasks.tcbs, kspace.areas, sections, floor, Total())
      && W() == w.(s := m.S(), free := m.Free()) && Confined({nextId}, w.s, m.S())
      && ns.Live() && AllFramed(ns.areas) && ns.pt.m == m && ns.pt.id == nextId && ns.trampoline == trampoline
      && m.Free() + Holding(Of(ns)) == w.free
      && ns != kspace && ns.pt != kspace.pt && ns !in sets && ns.pt !in tables
    }

    lemma {:induction false} PendingFacts(w: World, ns: MemorySet)
      requires Pending(w, ns)
      ensures Inv(tasks.S()) && w.tasks == tasks.S() && BreaksOk(tasks.tcbs) && AllFramed(ns.areas) && ns.pt.m == m
      ensures ns.pt.id == nextId
      ensures ns != kspace && ns.pt != kspace.pt && kspace.pt.m == m && kspace.pt.id == 0 < nextId
      ensures kspace.trampoline == trampoline < m.base && Rooted(kspace) && ns.trampoline == trampoline && WorldOk(w)
      ensures Tied() && LiveSpace(Of(kspace), w.s, TrampolineEntry(trampoline)) && Confined({nextId}, w.s, m.S())
      ensures m.Valid() && pids.Valid()
      ensures ns.Live() && m.Free() + Holding(Of(ns)) == w.free && ns !in sets && ns.pt !in tables && kspace !in sets
      ensures kspace.pt !in tables
      ensures W() == w.(s := m.S(), free := m.Free())
      ensures PidsGood(pids.Live(), pids.current, ps, tasks.tcbs, kspace.areas, sections, floor, Total())
    {
      hide Inv, LiveSpace, AllGood, Owned, Conserved, BreaksOk, PidsGood, TiedOne, Confined, AllFramed;
    }

    // The invariant after the pending space ns became that of the new task t.
    lemma {:induction false} Registered(w: World, t: nat, pid: nat, ns: MemorySet, live: set<nat>, current: nat,
                                        qs: seq<nat>, areas: seq<MapArea>)
      requires t == w.tasks.next && WorldOk(w)
      requires PidsGood(live, current, qs, w.tasks.tcbs, areas, sections, floor, Total())
      requires W() == w.(s := m.S(), free := m.Free(), tasks := tasks.S(), kernel := Of(kspace),
                         spaces := w.spaces[t := Of(ns)], nextId := w.nextId + 1)
      requires ps == qs + [pid] && pids.Valid() && pids.Live() == live + {pid}
      requires pids.current == current || forall p :: 0 <= p < pids.current ==> p in pids.Live()
      requires Tied() && ns.pt.id == w.nextId && ns.trampoline == trampoline && ns.pt.m == m
      requires ns.Live() && kspace.Live() && Confined({w.nextId, 0}, w.s, m.S())
      requires Stacked(kspace.areas, sections, floor, ps)
      requires Inv(tasks.S()) && Born(w.tasks, tasks.S(), pid) && BreaksOk(tasks.tcbs) && AllFramed(ns.areas)
      requires m.Free() + Holding(Of(kspace)) + Holding(Of(ns)) == w.free + Holding(w.kernel) && kspace.pt.id == 0
      requires TrapReady(Of(ns), m.S(), Env(), Pids.StackTop(pid))
      ensures Good()
    {
      hide Inv, Machine.Valid, Machine.Free, MemorySet.Live, MemorySet.Budget, AllFramed, Confined, WorldOk, LiveSpace,
           TrampolineEntry, Stacked, PidSet, BreaksOk, Holding, SameZombies, PidsGood, TiedOne;
      FromLive(ns);
      FromLive(kspace);
      StepCreate(w, W(), t, Of(ns));
      KernelFits(W());
      PidsGrown(live, current, pids.Live(), pids.current, pid, qs, w.tasks.tcbs, tasks.tcbs, areas, kspace.areas,
                sections, floor, Total());
    }

    // Like Pending, with pid and kernel stack in place; live, current and areas are from before.
    ghost predicate Staffed(w: World, ns: MemorySet, pid: nat, live: set<nat>, current: nat, areas: seq<MapArea>)
      reads this, m, tasks, pids, sets, tables, kspace, kspace.pt, ns, ns.pt, ns.pt.m
    {
      && Tied() && WorldOk(w) && BreaksOk(tasks.tcbs)
      && PidsGood(live, current, ps, tasks.tcbs, areas, sections, floor, Total())
      && W() == w.(s := m.S(), free := m.Free(), kernel := Of(kspace)) && Confined({nextId, 0}, w.s, m.S())
      && pids.Valid() && pids.Live() == live + {pid} && pid !in PidSet(tasks.tcbs)
      && (pids.current == current || forall p :: 0 <= p < pids.current ==> p in pids.Live())
      && ns.Live() && AllFramed(ns.areas) && ns.pt.m == m && ns.pt.id == nextId && ns.trampoline == trampoline
      && kspace.Live() && kspace.pt.id == 0 && Stacked(kspace.areas, sections, floor, ps + [pid])
      && m.Free() + Holding(Of(kspace)) + Holding(Of(ns)) == w.free + Holding(w.kernel)
      && ns != kspace && ns.pt != kspace.pt && TrapReady(Of(ns), m.S(), Env(), Pids.StackTop(pid))
    }

    lemma {:induction false} StaffedFacts(w: World, ns: MemorySet, pid: nat, live: set<nat>, current: nat,
                                          areas: seq<MapArea>)
      requires Staffed(w, ns, pid, live, current, areas)
      ensures w.tasks == tasks.S() && BreaksOk(tasks.tcbs) && pid !in PidSet(tasks.tcbs)
    {
      hide WorldOk, Tied, Confined, PidsGood, MemorySet.Live, Stacked, BreaksOk;
    }

    twostate lemma Enlisted(new w: World, new ns: MemorySet, new pid: nat, new live: set<nat>, new current: nat,
                            new areas: seq<MapArea>)
      requires old(allocated(ns)) && old(allocated(ns.pt)) && old(Staffed(w, ns, pid, live, current, areas))
      requires unchanged(m) && unchanged(pids) && unchanged(kspace) && unchanged(kspace.pt) && unchanged(ns)
      requires unchanged(ns.pt)
      requires forall u :: u in old(spaces) ==> unchanged(old(spaces)[u]) && unchanged(old(spaces)[u].pt)
      requires spaces == old(spaces)[old(tasks.next) := ns] && snap == old(snap)[old(tasks.next) := Of(ns)]
      requires sets == old(sets) + {ns} && tables == old(tables) + {ns.pt} && ps == old(ps) + [pid]
      requires nextId == old(nextId) + 1
      requires Inv(tasks.S()) && Born(old(tasks.S()), tasks.S(), pid) && BreaksOk(tasks.tcbs)
      ensures Good()
    {
      hide Good, Inv, Machine.Valid, Machine.Free, MemorySet.Live, AllFramed, Confined, Holding, Stacked, PidSet,
           BreaksOk, Born, WorldOk, PidsGood, TiedSpaces, TrampolineEntry, LiveSpace;
      FromLive(ns);
      RetiedNew(old(tasks.next), ns);
      Registered(w, old(tasks.next), pid, ns, live, current, old(ps), areas);
    }

    // Task control block, child list, ready queue.
    method Enlist(ghost w: World, ns: MemorySet, pid: nat, ghost live: set<nat>, ghost current: nat,
                  ghost areas: seq<MapArea>,
                  heapBottom: nat, programBrk: nat, prio: nat)
      requires tasks.current.Some? && prio >= 2 && heapBottom < BRK_LIMIT && programBrk < BRK_LIMIT && Inv(tasks.S())
      requires Staffed(w, ns, pid, live, current, areas)
      modifies this, tasks
      ensures Good() && w.tasks == old(tasks.S()) && old(tasks.current.value in tasks.tcbs)
      ensures tasks.S() == Birth(old(tasks.S()), pid, heapBottom, programBrk, prio)
      ensures spaces == old(spaces)[old(tasks.next) := ns] && snap == old(snap)[old(tasks.next) := Of(ns)]
      ensures sets == old(sets) + {ns} && tables == old(tables) + {ns.pt}
    {
      hide Good, Staffed, Inv, PidSet, BreaksOk, Birth, Born;
      StaffedFacts(w, ns, pid, live, current, areas);
      BirthFolk(tasks.S(), heapBottom, programBrk, prio);
      NoSuchPid(tasks.tcbs, pid);
      var t := tasks.AddChild(pid, heapBottom, programBrk, prio);
      spaces, snap, sets, tables, ps, nextId :=
        spaces[t := ns], snap[t := Of(ns)], sets + {ns}, tables + {ns.pt}, ps + [pid], nextId + 1;
      Enlisted(w, ns, pid, live, current, areas);
    }

    // The rest of fork and spwan: pid, kernel stack, trap context, task control block, child list,
    // ready queue.
    method Register(ghost w: World, ns: MemorySet, i: TrapInit, heapBottom: nat, programBrk: nat, prio: nat)
        returns (o: Outcome, pid: nat)
      requires tasks.current.Some? && prio >= 2 && heapBottom < BRK_LIMIT && programBrk < BRK_LIMIT && !i.Save?
      requires Words(i) && Trappable(Of(ns), m.S(), i, Env(), 0) && Pending(w, ns)
      modifies this, pids, tasks, kspace, kspace.pt, m
      ensures o in {Fine, OutOfFrames} && (o.OutOfFrames? ==> old(m.Free()) < 6)
      ensures o.Fine? ==> Good() && Confined({old(nextId), 0}, w.s, m.S()) && w.tasks == old(tasks.S())
      ensures o.Fine? ==> old(tasks.current.value in tasks.tcbs)
      ensures o.Fine? ==> OnlyTrap(old(nextId), old(m.S()), m.S(), i, Pids.StackTop(pid))
      ensures o.Fine? ==> tasks.S() == Birth(old(tasks.S()), pid, heapBottom, programBrk, prio)
      ensures o.Fine? ==> spaces == old(spaces)[old(tasks.next) := ns] && snap == old(snap)[old(tasks.next) := Of(ns)]
      ensures o.Fine? ==> sets == old(sets) + {ns} && tables == old(tables) + {ns.pt}
      ensures o.Fine? ==> pids.Live() == old(pids.Live()) + {pid} && pid !in old(pids.Live())
      ensures o.Fine? ==> m.Free() + |kspace.pt.tables| + 2 + Holding(Of(ns)) == w.free + |w.kernel.tables|
    {
      hide Good, Pending, Inv, Machine.Valid, Machine.Free, MemorySet.Live, AllFramed, Confined, Stacked, PidSet,
           BreaksOk, Birth, WorldOk, PidsGood, TiedSpaces, TrampolineEntry, LiveSpace, OnlyTrap, View,
           PidAllocator.Live, PidAllocator.Valid, Weight, Words, TrapReady, Trappable, Pids.StackTop;
      PendingFacts(w, ns);
      Survives(kspace, {nextId}, w.s);
      FromLive(ns);
      ghost var p, s1 := Of(ns), m.S();
      MappedTrap(p, s1, i, Env());
      assert TRAP_VPN in ns.pt.Map();
      o, pid := Equip(kspace, pids, ns, i, sections, floor, ps, tasks.tcbs, Total());
      if o.Fine? {
        ConfinedTransitive({nextId}, {0, nextId}, w.s, s1, m.S());
        assert {nextId} + {0, nextId} == {nextId, 0};
        FromLive(kspace);
        NewTrap(p, s1, m.S(), TrampolineEntry(trampoline), i, Env(), pid);
        Enlist(w, ns, pid, old(pids.Live()), old(pids.current), old(kspace.areas), heapBottom, programBrk, prio);
      }
    }

    lemma {:induction false} ToPending(w: World, ns: MemorySet)
      requires Tied() && m.Valid() && pids.Valid() && WorldOk(w) && BreaksOk(tasks.tcbs)
      requires PidsGood(pids.Live(), pids.current, ps, tasks.tcbs, kspace.areas, sections, floor, Total())
      requires W() == w.(s := m.S(), free := m.Free()) && ns.Live() && AllFramed(ns.areas) && ns.pt.m == m
      requires ns.pt.id == nextId
      requires ns.trampoline == trampoline && ns.Budget() == w.free && ns != kspace && ns.pt != kspace.pt && ns !in sets
      requires ns.pt !in tables
      requires Extended(nextId, w.s, m.S())
      ensures Pending(w, ns)
    {
      hide Tied, WorldOk, BreaksOk, PidsGood, MemorySet.Live, MemorySet.Budget, AllFramed, Confined, Extended, Holding,
           Machine.Valid, Machine.Free;
      FromLive(ns);
      ExtendedConfines(nextId, w.s, m.S());
    }

    // The first half of fork: a copy of the running task's space, still without a task.
    method Duplicate() returns (o: Outcome, ns: MemorySet)
      requires tasks.current.Some? && Good()
      modifies m
      ensures o in {Fine, OutOfFrames} && tasks.current.value in tasks.tcbs
      ensures o.OutOfFrames? <==> old(m.Free()) < SpaceFrames(CurrentAreas())
      ensures o.Fine? ==> m.Free() == old(m.Free()) - SpaceFrames(CurrentAreas())
      ensures o.Fine? ==> Holding(Of(ns)) == SpaceFrames(CurrentAreas())
      ensures o.Fine? ==> Pending(old(W()), ns) && fresh(ns) && fresh(ns.pt) && 0 < nextId == ns.pt.id
      ensures o.Fine? ==> LiveSpace(Of(ns), m.S(), TrampolineEntry(trampoline)) && |ns.areas| == |CurrentAreas()|
      ensures o.Fine? ==> Cloned(nextId, CurrentAreas(), ns.areas, old(m.S()), m.S())
      ensures o.Fine? ==> Trappable(Of(ns), m.S(), ForkReturn, Env(), 0)
      ensures var b := tasks.tcbs[tasks.current.value];
              b.prio >= 2 && b.heapBottom < BRK_LIMIT && b.programBrk < BRK_LIMIT
    {
      hide Good, Inv, Machine.Valid, Machine.Free, MemorySet.Live, MemorySet.Budget, AllFramed, Confined, Extended,
           WorldOk, BreaksOk, PidsGood, Tied, Pending, SameBytes, Cloned, LiveSpace, TrampolineEntry, View, TrapReady,
           Trappable, Pids.StackTop, SpaceFrames,
           Holding;
      var t := tasks.current.value;
      Running(t);
      OpenGood();
      BelowBase();
      var sp := spaces[t];
      FromLive(sp);
      ghost var w, p := W(), Of(sp);
      var n;
      o, n := FromExistedUser(sp, nextId);
      ns := sp;
      if o.Fine? {
        ns := n.value;
        FromLive(ns);
        ClonedFramed(nextId, sp.areas, ns.areas, w.s, m.S());
        ForkTrappable(p, Of(ns), w.s, m.S(), TrampolineEntry(trampoline), Env(), Pids.StackTop(tasks.tcbs[t].pid), 0);
        ToPending(w, ns);
      }
    }

    // sys_fork.  The child runs on a copy of the parent's pages, with its own kernel stack and return
    // value 0 in its trap context.
    method Fork() returns (o: Outcome, r: nat)
      requires tasks.current.Some? && Good()
      modifies this, pids, tasks, kspace, kspace.pt, m
      ensures o in {Fine, OutOfFrames}
      ensures o.Fine? ==> Good() && Confined({old(nextId), 0}, old(m.S()), m.S())
      ensures o.Fine? ==> ForkTasks(old(tasks.S()), tasks.S(), r)
      ensures o.Fine? ==> old(tasks.next) in spaces && spaces == old(spaces)[old(tasks.next) := spaces[old(tasks.next)]]
      ensures o.Fine? ==> OnlyOne(old(snap), snap, old(tasks.next)) && snap[old(tasks.next)].id == old(nextId)
      ensures o.Fine? ==> Of(spaces[old(tasks.next)]) == snap[old(tasks.next)]
      ensures o.Fine? ==> fresh(sets - old(sets)) && fresh(tables - old(tables))
      ensures o.Fine? ==> CopyOf(old(CurrentAreas()), snap[old(tasks.next)].areas, old(m.mem), m.mem, Pids.StackTop(r))
      ensures o.Fine? ==> pids.Live() == old(pids.Live()) + {r} && r !in old(pids.Live())
      ensures o.Fine? ==> Holding(snap[old(tasks.next)]) == SpaceFrames(old(CurrentAreas()))
      ensures o.Fine? ==> Frames() + 2 + SpaceFrames(old(CurrentAreas())) == old(Frames())
      ensures o.OutOfFrames? ==> old(m.Free()) < SpaceFrames(old(CurrentAreas())) + 6
    {
      hide Good, SpaceFrames, CopyOf, Inv, Confined, Pending, Cloned, LiveSpace, TrampolineEntry, Birth, View, OnlyTrap,
           Holding, PidSet, PidAllocator.Live, Machine.Free;
      r := 0;
      var ns;
      o, ns := Duplicate();
      if !o.Fine? { return; }
      ghost var p, s1 := Of(ns), m.S();
      var b := tasks.tcbs[tasks.current.value];
      o, r := Register(old(W()), ns, ForkReturn, b.heapBottom, b.programBrk, b.prio);
      if o.Fine? {
        CopyKept(p, old(CurrentAreas()), old(m.S()), s1, m.S(), TrampolineEntry(trampoline), Pids.StackTop(r));
      }
    }

    // The first half of spwan: the program in a space of its own, still without a task.
    method Load(segs: seq<Segment>) returns (o: Outcome, ns: MemorySet, userSp: nat)
      requires tasks.current.Some? && Good()
      modifies m
      ensures GoodLayout(segs) ==> o in {Fine, OutOfFrames}
      ensures o.OutOfFrames? ==> old(m.Free()) < ProgramFrames(segs)
      ensures o.Fine? ==> m.Free() == old(m.Free()) - ProgramFrames(segs)
      ensures o.Fine? ==> Pending(old(W()), ns) && fresh(ns) && fresh(ns.pt)
      ensures o.Fine? ==> userSp == Loader.StackTop(MaxEnd(segs)) < BRK_LIMIT
      ensures o.Fine? && GoodLayout(segs) ==> HeapOk(ns.areas, userSp, userSp)
      ensures o.Fine? ==> AllFramed(ns.areas) && Program(ns.areas, segs, m.mem)
      ensures o.Fine? ==> LiveSpace(Of(ns), m.S(), TrampolineEntry(trampoline))
      ensures o.Fine? ==> ns.pt.id == nextId && ns.pt.m == m
    {
      hide Good, LiveSpace, TrampolineEntry, Inv, Machine.Valid, Machine.Free, MemorySet.Live, MemorySet.Budget,
           AllFramed, Confined, Extended, WorldOk, BreaksOk, PidsGood, Tied, Pending, GoodLayout, AllLoaded, UserTail,
           MaxEnd, Loader.StackTop, HeapOk, ProgramFrames;
      Running(tasks.current.value);
      OpenGood();
      BelowBase();
      ghost var w := W();
      var n;
      o, n, userSp := FromElf(m, nextId, trampoline, segs);
      ns := kspace;
      if o.Fine? {
        ns := n.value;
        SpBound(segs);
        FromLive(ns);
        ToPending(w, ns);
        if GoodLayout(segs) { FreshHeap(ns.areas, segs, m.mem); }
      }
    }

    // sys_spawn: priority 16, an empty heap at the top of the stack, and a fresh trap context.
    method Spawn(segs: seq<Segment>, entry: Usize, status: Usize) returns (o: Outcome, r: nat)
      requires tasks.current.Some? && Good()
      modifies this, pids, tasks, kspace, kspace.pt, m
      ensures GoodLayout(segs) ==> o in {Fine, OutOfFrames}
      ensures o.OutOfFrames? ==> old(m.Free()) < ProgramFrames(segs) + 6
      ensures o.Fine? ==> old(m.Free()) >= ProgramFrames(segs)
      ensures o.Fine? ==> Good() && Confined({old(nextId), 0}, old(m.S()), m.S())
      ensures o.Fine? ==> old(tasks.current.value in tasks.tcbs)
      ensures o.Fine? ==> var sp := Loader.StackTop(MaxEnd(segs)); tasks.S() == Birth(old(tasks.S()), r, sp, sp, 16)
      ensures o.Fine? ==> fresh(sets - old(sets)) && fresh(tables - old(tables))
      ensures o.Fine? ==> old(tasks.next) in spaces && spaces == old(spaces)[old(tasks.next) := spaces[old(tasks.next)]]
      ensures o.Fine? ==> OnlyOne(old(snap), snap, old(tasks.next))
      ensures o.Fine? ==> Of(spaces[old(tasks.next)]) == snap[old(tasks.next)]
      ensures o.Fine? ==>
        var i := AppStart(entry, Loader.StackTop(MaxEnd(segs)), Token(kspace.pt.root), status, handler);
        Started(snap[old(tasks.next)].areas, segs, m.mem, i, Pids.StackTop(r))
      ensures o.Fine? ==> pids.Live() == old(pids.Live()) + {r} && r !in old(pids.Live())
      ensures o.Fine? ==> Frames() + 2 + Holding(snap[old(tasks.next)]) == old(Frames())
    {
      hide Good, Inv, Confined, Pending, Birth, GoodLayout, MaxEnd, Loader.StackTop, HeapOk, Program, LiveSpace,
           Trappable, TrampolineEntry, Started, OnlyTrap, Words, View, Holding, PidSet, PidAllocator.Live, Machine.Free,
           ProgramFrames;
      r := 0;
      var ns, userSp;
      StartWords(segs, entry, status);
      o, ns, userSp := Load(segs);
      if !o.Fine? { return; }
      ghost var p, s1, tramp := Of(ns), m.S(), TrampolineEntry(trampoline);
      var i := StartContext(segs, entry, status);
      ProgramTrappable(p, segs, s1, tramp, i, Env(), 0);
      o, r := Register(old(W()), ns, i, userSp, userSp, 16);
      if o.Fine? { ProgramKept(p, segs, s1, m.S(), tramp, i, Pids.StackTop(r)); }
    }

    lemma {:induction false} OpenFolk(pid: int)
      requires tasks.current.Some? && Good()
      ensures Inv(tasks.S()) && tasks.current.value in tasks.tcbs && Plain(tasks.S(), tasks.S()) && BreaksOk(tasks.tcbs)
      ensures var (s', w) := WaitPid(tasks.S(), pid); if w.Reaped? then
                && w.tid in tasks.tcbs && tasks.tcbs[w.tid].status == Zombie && w.pid == tasks.tcbs[w.tid].pid
                && Gone(tasks.S(), s', w.tid) && BreaksOk(s'.tcbs)
              else s' == tasks.S()
    {
      hide Inv, Tied, LiveSpace, AllGood, Owned, Conserved, Numbered, PidsGood, BreaksOk, WaitPid, Gone;
      WaitFolk(tasks.S(), pid);
    }

    // Task c is out of the table and what it still held is to be dropped; w is the world with c in it.
    ghost predicate Reaping(w: World, c: nat)
      reads this, m, tasks, pids, sets, tables, kspace, kspace.pt
    {
      && Tied() && m.Valid() && pids.Valid() && W() == w.(tasks := tasks.S())
      && c in w.tasks.tcbs && w.tasks.tcbs[c].status == Zombie && Gone(w.tasks, tasks.S(), c)
      && Inv(tasks.S()) && BreaksOk(tasks.tcbs) && WorldOk(w)
      && PidsGood(pids.Live(), pids.current, ps, w.tasks.tcbs, kspace.areas, sections, floor, Total())
    }

    // A zombie's space, pid and kernel stack.
    lemma {:induction false} ZombieFacts(w: World, c: nat) returns (k: nat)
      requires Reaping(w, c)
      ensures c in spaces && c in snap && Of(spaces[c]) == snap[c] && Rooted(spaces[c]) && DeadSpace(snap[c], m.S())
      ensures spaces[c].pt.m == m && spaces[c].pt.id != 0 && kspace.pt.id == 0 && spaces[c] != kspace
      ensures spaces[c].pt != kspace.pt && spaces[c] in sets && spaces[c].pt in tables
      ensures forall u :: u in spaces && u != c ==> spaces[u] != spaces[c] && spaces[u].pt != spaces[c].pt
      ensures forall u :: u in spaces && u != c ==> spaces[u] != kspace && spaces[u].pt != kspace.pt
      ensures k < |ps| && ps[k] == w.tasks.tcbs[c].pid && ps[k] in pids.Live() && Fits(ps[k], 0)
      ensures pids.Valid() && kspace.Live() && kspace.pt.m == m && Stacked(kspace.areas, sections, floor, ps)
    {
      hide LiveSpace, DeadSpace, Owned, Conserved, AllFramed, Inv, BreaksOk, Gone;
      assert TiedOne(c);
      forall u | u in spaces && u != c ensures spaces[u].pt != spaces[c].pt && spaces[u].pt != kspace.pt {
        assert TiedOne(u);
      }
      ToLive(kspace);
      assert w.tasks.tcbs[c].pid in PidSet(w.tasks.tcbs);
      k :| 0 <= k < |ps| && ps[k] == w.tasks.tcbs[c].pid;
    }

    // The invariant after task c went, with its space, its pid and its kernel stack.
    twostate lemma Buried(c: nat, new w: World, new k: nat)
      requires old(Reaping(w, c)) && k < |old(ps)| && old(ps)[k] == w.tasks.tcbs[c].pid
      requires c in old(spaces) && spaces == old(spaces) - {c} && snap == old(snap) - {c} && sets == old(sets)
      requires tables == old(tables)
      requires ps == old(ps)[..k] + old(ps)[k + 1..] && nextId == old(nextId) && unchanged(tasks)
      requires forall u :: u in spaces ==> unchanged(old(spaces)[u]) && unchanged(old(spaces)[u].pt)
      requires pids.Valid() && pids.Live() == old(pids.Live()) - {old(ps)[k]} && pids.current == old(pids.current)
      requires kspace.Live() && Stacked(kspace.areas, sections, floor, ps)
      requires Confined({old(spaces)[c].pt.id, 0}, old(m.S()), m.S())
      requires forall f :: f in m.owner ==> m.owner[f].id != old(spaces)[c].pt.id
      requires m.Free() + Holding(Of(kspace)) == old(m.Free() + Holding(Of(kspace)) + Holding(Of(spaces[c])))
      ensures Good()
    {
      hide Inv, Machine.Valid, Machine.Free, MemorySet.Live, MemorySet.Budget, Confined, WorldOk, LiveSpace,
           TrampolineEntry, Stacked, PidSet, BreaksOk, Holding, SameZombies, PidsGood;
      FromLive(kspace);
      assert old(TiedOne(c));
      KernelIsZero(w);
      forall u | u in spaces ensures TiedOne(u) { assert old(TiedOne(u)); }
      StepReap(w, W(), c);
      PidsShrunk(old(pids.Live()), pids.current, old(ps), k, w.tasks.tcbs, tasks.tcbs, old(kspace.areas), kspace.areas,
                 sections, floor, Total());
    }

    // The last reference to a reaped child goes: pid, kernel stack and page tables.
    method Reap(c: nat, pid: nat, ghost w: World)
      requires Reaping(w, c) && pid == w.tasks.tcbs[c].pid
      modifies this, pids, kspace, kspace.pt, sets, m
      ensures Good() && sets == old(sets) && tables == old(tables) && kspace.pt.tables == old(kspace.pt.tables)
      ensures c in old(snap) && spaces == old(spaces) - {c} && snap == old(snap) - {c}
      ensures pid in old(pids.Live()) && pids.Live() == old(pids.Live()) - {pid}
      ensures m.Free() == old(m.Free()) + |old(snap)[c].tables| + 2
      ensures Confined({old(snap)[c].id, 0}, old(m.S()), m.S())
    {
      hide Good, Reaping, Machine.Valid, Machine.Free, MemorySet.Live, Confined, Holding, Stacked, DeadSpace,
           PidAllocator.Live, PidAllocator.Valid;
      ghost var k := ZombieFacts(w, c);
      Bury(kspace, pids, spaces[c], pid, sections, floor, ps, k);
      spaces, snap, ps := spaces - {c}, snap - {c}, ps[..k] + ps[k + 1..];
      Buried(c, w, k);
    }

    // The root page table of the running task.
    ghost function CurrentRoot(): nat
      reads this, tasks
    {
      if tasks.current.Some? && tasks.current.value in spaces then spaces[tasks.current.value].pt.root else 0
    }

    // Where a pointer of the running task leads.
    ghost function Target(ptr: Usize): Option<nat>
      reads this, tasks, m
    {
      TranslateVa(m.mem, CurrentRoot(), VirtAddr(ptr))
    }

    // Memory after a store of the code through that pointer.
    ghost function WithCode(ptr: Usize, code: int): Store
      reads this, tasks, m
    {
      Store(if Target(ptr).Some? then StoreCode(m.mem, Target(ptr).value, code) else m.mem, m.owner)
    }

    lemma {:induction false} ToReaping(w: World, c: nat)
      requires Tied() && m.Valid() && pids.Valid() && WorldOk(w) && SameNodes(w.s, m.S()) && SameGuards(w.s, m.S())
      requires W() == w.(s := m.S(), tasks := tasks.S()) && c in w.tasks.tcbs && w.tasks.tcbs[c].status == Zombie
      requires Gone(w.tasks, tasks.S(), c) && Inv(tasks.S()) && BreaksOk(tasks.tcbs)
      requires PidsGood(pids.Live(), pids.current, ps, w.tasks.tcbs, kspace.areas, sections, floor, Total())
      ensures Reaping(w.(s := m.S()), c)
    {
      hide Tied, Machine.Valid, PidAllocator.Valid, WorldOk, SameNodes, SameGuards, Gone, Inv, BreaksOk, PidsGood;
      StepStore(w, m.S());
    }

    // The first half of sys_waitpid: the child leaves the table, and its exit code goes through the
    // caller's pointer.
    method Collect(pid: int, ptr: Usize) returns (o: Outcome, r: Tasks.Wait)
      requires tasks.current.Some? && Good()
      modifies tasks, m`mem
      ensures old(tasks.current.value in tasks.tcbs) && r == WaitPid(old(tasks.S()), pid).1
      ensures o == if r.Reaped? then StoreOutcome(old(Target(ptr)), m.base, m.end, VirtAddr(ptr)) else Fine
      ensures tasks.S() == WaitPid(old(tasks.S()), pid).0
      ensures !r.Reaped? ==> Good() && m.S() == old(m.S())
      ensures o.Fine? && r.Reaped? ==> Reaping(old(W()).(s := m.S()), r.tid)
      ensures o.Fine? && r.Reaped? ==> old(W()).tasks.tcbs[r.tid].pid == r.pid
      ensures o.Fine? && r.Reaped? ==> Confined({old(CurrentId())}, old(m.S()), m.S())
      ensures r.Reaped? && o in {Fine, WildStore, TrapStore} ==> m.S() == old(WithCode(ptr, r.code))
      ensures r.Reaped? && o in {Fine, WildStore, TrapStore} ==> old(Target(ptr)).Some?
      ensures r.Reaped? && o in {Fine, WildStore, TrapStore} ==>
        var pa := old(Target(ptr)).value; HoldsCode(m.mem, pa, r.code) && OnlyCode(old(m.mem), m.mem, pa)
      ensures o.Fine? && r.Reaped? ==> Within4(m.owner, old(CurrentId()), old(Target(ptr)).value)
    {
      hide Good, Reaping, Inv, Machine.Valid, Machine.Free, MemorySet.Live, Confined, BreaksOk, WaitPid, Gone,
           PidAllocator.Live, PidAllocator.Valid, Plain, SameNodes, StoreCode, StoreOutcome, TranslateVa, View,
           PidsGood, WorldOk, AllFramed, TiedSpaces, SameGuards, TrapReady, Pids.StackTop, VirtAddr,
           Rooted, LiveSpace, Holding;
      OpenFolk(pid);
      OpenGood();
      Running(tasks.current.value);
      var sp := spaces[tasks.current.value];
      r := tasks.Wait(pid);
      if !r.Reaped? {
        PlainStep(old(W()));
        return Fine, r;
      }
      ghost var pa;
      o, pa := StoreExitCode(sp, ptr, r.code);
      if o.Fine? {
        FromLive(sp);
        ToReaping(old(W()), r.tid);
      }
    }

    // The caller, its child and the kernel have spaces of their own.
    lemma {:induction false} OtherIds(pid: int)
      requires tasks.current.Some? && Good()
      ensures tasks.current.value in tasks.tcbs
      ensures var w := WaitPid(tasks.S(), pid).1;
              w.Reaped? ==> w.tid in snap && CurrentId() !in {snap[w.tid].id, 0}
    {
      hide Inv, LiveSpace, AllGood, Owned, Conserved, PidsGood, BreaksOk, WaitPid, Gone, Plain;
      OpenFolk(pid);
      Running(tasks.current.value);
      assert TiedOne(tasks.current.value);
    }

    // sys_waitpid.  The exit code goes through the caller's pointer before the child is dropped.
    method Wait(pid: int, ptr: Usize) returns (o: Outcome, r: Tasks.Wait)
      requires tasks.current.Some? && Good()
      modifies this, pids, tasks, kspace, kspace.pt, sets, m
      ensures old(tasks.current.value in tasks.tcbs) && r == WaitPid(old(tasks.S()), pid).1
      ensures o == if r.Reaped? then StoreOutcome(old(Target(ptr)), m.base, m.end, VirtAddr(ptr)) else Fine
      ensures tasks.S() == WaitPid(old(tasks.S()), pid).0 && sets == old(sets) && tables == old(tables)
      ensures o.Fine? ==> Good()
      ensures !r.Reaped? ==> m.S() == old(m.S()) && snap == old(snap) && spaces == old(spaces)
      ensures !r.Reaped? ==> pids.Live() == old(pids.Live())
      ensures o.Fine? && r.Reaped? ==> r.tid in old(snap) && snap == old(snap) - {r.tid}
      ensures o.Fine? && r.Reaped? ==> spaces == old(spaces) - {r.tid}
      ensures o.Fine? && r.Reaped? ==> r.pid in old(pids.Live()) && pids.Live() == old(pids.Live()) - {r.pid}
      ensures o.Fine? && r.Reaped? ==> kspace.pt.tables == old(kspace.pt.tables)
      ensures o.Fine? && r.Reaped? ==> m.Free() == old(m.Free()) + |old(snap)[r.tid].tables| + 2
      ensures o.Fine? && r.Reaped? ==> Confined({old(CurrentId()), old(snap)[r.tid].id, 0}, old(m.S()), m.S())
      ensures o.Fine? && r.Reaped? ==> Confined({old(snap)[r.tid].id, 0}, old(WithCode(ptr, r.code)), m.S())
      ensures o in {WildStore, TrapStore} ==> m.S() == old(WithCode(ptr, r.code))
      ensures r.Reaped? && o in {Fine, WildStore, TrapStore} ==>
        old(Target(ptr)).Some? && HoldsCode(m.mem, old(Target(ptr)).value, r.code)
      ensures o in {WildStore, TrapStore} ==> OnlyCode(old(m.mem), m.mem, old(Target(ptr)).value)
    {
      hide Good, Reaping, Confined, WaitPid, Machine.Free, Machine.Valid, PidAllocator.Live, PidAllocator.Valid,
           StoreCode, StoreOutcome, TranslateVa, WithCode, Target, W, CurrentId, HoldsCode, OnlyCode, Within4;
      OtherIds(pid);
      o, r := Collect(pid, ptr);
      if o.Fine? && r.Reaped? {
        ghost var s1 := m.S();
        Reap(r.tid, r.pid, old(W()).(s := s1));
        ConfinedTransitive({old(CurrentId())}, {old(snap)[r.tid].id, 0}, old(m.S()), s1, m.S());
        assert {old(CurrentId())} + {old(snap)[r.tid].id, 0} == {old(CurrentId()), old(snap)[r.tid].id, 0};
        CodeSurvives({old(snap)[r.tid].id, 0}, s1, m.S(), old(CurrentId()), old(Target(ptr)).value, r.code);
      }
    }

    // User code of the running task stores a byte.
    method UserStore(va: nat, b: Byte) returns (ok: bool)
      requires tasks.current.Some? && va < VA_SPACE && Good()
      modifies m`mem
      ensures Good() && Confined({CurrentId()}, old(m.S()), m.S()) && CurrentMap() == old(CurrentMap())
      ensures ok <==> Writable(CurrentMap(), Floor(va))
      ensures m.mem == if ok then Poked(old(m.mem), CurrentMap(), va, b) else old(m.mem)
    {
      hide Good, Inv, Machine.Valid, Machine.Free, MemorySet.Live, MemorySet.Held, MemorySet.Budget, AllFramed,
           Confined, LiveSpace, Holding, TrampolineEntry, Writable, Floor, Poked, View, TrapReady, Pids.StackTop;
      var t := tasks.current.value;
      Running(t);
      var sp := spaces[t];
      FromLive(sp);
      ghost var top := Pids.StackTop(tasks.tcbs[t].pid);
      assert CurrentMap() == sp.pt.Map();
      ok := StoreByte(sp, va, b);
      FromLive(sp);
      if ok { StoreReady(Of(sp), old(m.S()), m.S(), TrampolineEntry(trampoline), Env(), top, va, b); }
      assert snap == snap[t := Of(sp)];
      SettledMemory(t);
    }

    // What sys_get_time, sys_task_info and sys_fstat do to memory: a result goes into the caller's buffer.
    method WriteBuffer(ptr: Usize, data: seq<Byte>) returns (o: Outcome, ghost a: seq<nat>)
      requires tasks.current.Some? && |data| < WORD && Good()
      modifies m`mem
      ensures o in {Fine, NotTranslated, StoreFault, TrapStore, Stuck}
      ensures o.Stuck? <==> RunsOn(ptr, (ptr + |data|) % WORD)
      ensures o.NotTranslated? || o.StoreFault? <==>
        && ptr + |data| < WORD && !RunsOn(ptr, (ptr + |data|) % WORD)
        && !AllStorable(old(m.mem), CurrentRoot(), m.base, ptr, ptr + |data|)
      ensures o.TrapStore? <==>
        && ptr + |data| < WORD && !RunsOn(ptr, (ptr + |data|) % WORD) && HitsGuard(ptr, ptr + |data|)
        && AllStorable(old(m.mem), CurrentRoot(), m.base, ptr, ptr + |data|)
      ensures o.Fine? ==> Good() && Confined({CurrentId()}, old(m.S()), m.S()) && CurrentMap() == old(CurrentMap())
      ensures |a| <= |data| && Translates(old(m.mem), CurrentRoot(), ptr, a)
      ensures m.mem == Pokes(old(m.mem), a, data[..|a|])
      ensures o in {Fine, TrapStore} ==> |a| == if ptr + |data| < WORD then |data| else 0
      ensures o.NotTranslated? ==> |a| < |data| && TranslateVa(old(m.mem), CurrentRoot(), ptr + |a|).None?
      ensures o.StoreFault? ==> |a| < |data| && TranslateVa(old(m.mem), CurrentRoot(), ptr + |a|).Some?
    {
      hide Good, Inv, Machine.Valid, Machine.Free, MemorySet.Live, MemorySet.Held, MemorySet.Budget, AllFramed,
           Confined, LiveSpace, Holding, TrampolineEntry, View, RunsOn, Pokes, Translates, TrapReady, Pids.StackTop,
           AllStorable, HitsGuard, SameNodes, SameGuards, TranslateVa;
      var t := tasks.current.value;
      Running(t);
      var sp := spaces[t];
      FromLive(sp);
      ghost var top := Pids.StackTop(tasks.tcbs[t].pid);
      assert CurrentMap() == sp.pt.Map();
      o, a := WriteUser(sp, ptr, data);
      if o.Fine? {
        FromLive(sp);
        KeepGuarded(Of(sp), old(m.S()), m.S(), TrampolineEntry(trampoline), Env(), top);
        assert snap == snap[t := Of(sp)];
        SettledMemory(t);
      }
    }

    // A trap of the running task, and what the handler stores on its way back: registers, sstatus and sepc
    // of its context take any values.
    method SaveContext(regs: seq<Usize>)
      requires tasks.current.Some? && Good()
      modifies m`mem
      ensures Good() && Confined({CurrentId()}, old(m.S()), m.S()) && CurrentMap() == old(CurrentMap())
      ensures OnlyTrap(CurrentId(), old(m.S()), m.S(), Save(regs), 0)
    {
      hide Good, Inv, Machine.Valid, Machine.Free, MemorySet.Live, MemorySet.Held, MemorySet.Budget, AllFramed,
           Confined, LiveSpace, Holding, TrampolineEntry, View, TrapReady, Trappable, Pids.StackTop, OnlyTrap;
      var t := tasks.current.value;
      Running(t);
      var sp := spaces[t];
      FromLive(sp);
      ghost var top := Pids.StackTop(tasks.tcbs[t].pid);
      assert CurrentMap() == sp.pt.Map();
      TrapThere(Of(sp), m.S(), Env(), top);
      KernelTop(tasks.tcbs[t].pid);
      var o := WriteTrap(sp, Save(regs), 0);
      FromLive(sp);
      SavedReady(Of(sp), old(m.S()), m.S(), TrampolineEntry(trampoline), Env(), top, regs);
      assert snap == snap[t := Of(sp)];
      SettledMemory(t);
    }
  }

  lemma {:induction false} KernelTop(pid: nat)
    ensures Pids.StackTop(pid) < WORD
  {
  }

  lemma {:induction false} KernelIsZero(w: World)
    requires WorldOk(w)
    ensures w.kernel.id == 0
  {
  }

  lemma {:induction false} KernelFits(w: World)
    requires WorldOk(w)
    ensures Weight(w.kernel.areas) <= w.total
  {
    hide Inv, LiveSpace, AllGood, Numbered, Owned, Weight, Sum;
  }
}
