/** The calls of a running task and of the idle loop, and what each of them does to the whole kernel: to the
    task table, to the caller's space and to its bytes. */
module Calls {
  import opened Address
  import opened Frames
  import opened FrameAllocator
  import opened PageTables
  import opened UserAccess
  import opened Areas
  import opened Layout
  import opened MemorySets
  import opened Fork
  import opened Loader
  import opened Tasks
  import opened MemorySyscalls
  import opened Isolation
  import opened Worlds
  import opened SpaceSteps
  import opened Traps
  import opened TrapPages
  import opened Kernels
  import opened Effects
  import Lifecycle
  import Pids

  // What the idle loop or the running task may do next, with any arguments.
  datatype Call =
    | FetchTask
    | DoYield
    | DoFork
    | DoSpawn(program: seq<Segment>, entry: Usize, status: Usize)
    | DoExec(program: seq<Segment>, entry: Usize, status: Usize)
    | DoExit(code: int)
    | DoWait(pid: int, ptr: Usize)
    | DoMmap(start: nat, len: nat, port: nat)
    | DoMunmap(start: nat, len: nat)
    | DoSbrk(size: int)
    | DoSetPrio(prio: int)
    | DoStore(va: nat, byte: Byte)
    | DoFill(ptr: Usize, data: seq<Byte>)
    | DoTrap(regs: seq<Usize>)

  // Argument types: an i32, a 39-bit address, a length in a usize.
  predicate WellTyped(c: Call) {
    match c
    case DoSbrk(size) => -0x8000_0000 <= size < 0x8000_0000
    case DoStore(va, _) => va < VA_SPACE
    case DoFill(_, data) => |data| < WORD
    case _ => true
  }

  // The idle loop fetches when nothing runs; all else is done by the running task.
  ghost predicate Able(c: Call, w: World) { c.FetchTask? <==> w.tasks.current.None? }

  // The running task, its space and its control block are there.
  ghost predicate Calling(w: World, t: nat) {
    w.tasks.current == Some(t) && t in w.spaces && t in w.tasks.tcbs && Root in w.spaces[t].tables
  }

  ghost function MapOf(w: World, t: nat): map<nat, nat>
    requires t in w.spaces
  {
    View(w.s.mem, w.spaces[t].tables)
  }

  // No space and no byte changed.
  ghost predicate Untouched(w: World, w': World) { w'.s == w.s && w'.spaces == w.spaces }

  // Of the spaces only that of t changed, and of the frames only those of the spaces ids.
  ghost predicate OnlySpace(w: World, w': World, t: nat, ids: set<nat>) {
    OnlyOne(w.spaces, w'.spaces, t) && Confined(ids, w.s, w'.s)
  }

  // The task table made the step e, or none.
  ghost predicate Stepped(w: World, w': World, e: Option<Lifecycle.Event>) {
    if e.None? then w'.tasks == w.tasks else Happened(w.tasks, w'.tasks, e.value)
  }

  // ---- creating and ending ----

  ghost predicate NewPid(w: World, pid: nat) { forall u :: u in w.tasks.tcbs ==> w.tasks.tcbs[u].pid != pid }

  // The child has the caller's breaks and priority, and a copy of its pages.
  ghost predicate ForkDone(w: World, w': World, e: Option<Lifecycle.Event>, t: nat)
    requires Calling(w, t)
  {
    var b, n := w.tasks.tcbs[t], w.tasks.next;
    && e.Some? && e.value.Creates? && NewPid(w, e.value.pid)
    && e.value == Lifecycle.Creates(e.value.pid, b.heapBottom, b.programBrk, b.prio)
    && OnlySpace(w, w', n, {w.nextId, 0})
    && CopyOf(w.spaces[t].areas, w'.spaces[n].areas, w.s.mem, w'.s.mem, Pids.StackTop(e.value.pid))
  }

  // The child starts the program, with priority 16 and both breaks at its stack top.
  ghost predicate SpawnDone(w: World, w': World, e: Option<Lifecycle.Event>, segs: seq<Segment>, entry: Usize,
                          status: Usize) {
    var n, sp := w.tasks.next, Loader.StackTop(MaxEnd(segs));
    && e.Some? && e.value.Creates? && NewPid(w, e.value.pid) && e.value == Lifecycle.Creates(e.value.pid, sp, sp, 16)
    && OnlySpace(w, w', n, {w.nextId, 0})
    && Started(w'.spaces[n].areas, segs, w'.s.mem, AppStart(entry, sp, w.env.satp, status, w.env.handler),
               Pids.StackTop(e.value.pid))
  }

  // The caller itself starts the program.
  ghost predicate ExecDone(w: World, w': World, t: nat, segs: seq<Segment>, entry: Usize, status: Usize)
    requires Calling(w, t)
  {
    var sp := Loader.StackTop(MaxEnd(segs));
    && OnlySpace(w, w', t, {w.spaces[t].id, w.nextId})
    && Started(w'.spaces[t].areas, segs, w'.s.mem, AppStart(entry, sp, w.env.satp, status, w.env.handler),
               Pids.StackTop(w.tasks.tcbs[t].pid))
  }

  // The caller has given up its pages and keeps its page tables.
  ghost predicate ExitDone(w: World, w': World, t: nat)
    requires Calling(w, t)
  {
    OnlySpace(w, w', t, {w.spaces[t].id}) && w'.spaces[t].areas == [] && w'.spaces[t].tables == w.spaces[t].tables
  }

  // Where a pointer of task t leads.
  ghost function Pointed(w: World, t: nat, ptr: Usize): Option<nat>
    requires Calling(w, t)
  {
    TranslateVa(w.s.mem, w.spaces[t].tables[Root], VirtAddr(ptr))
  }

  // A reaped child is gone, and its code is where the pointer leads; an answer without one touches nothing.
  ghost predicate WaitDone(w: World, w': World, t: nat, pid: int, ptr: Usize, r: Wait)
    requires Calling(w, t)
  {
    && Waited(w.tasks, w'.tasks, t, pid, r)
    && if !r.Reaped? then Untouched(w, w')
       else
         var pa := Pointed(w, t, ptr);
         && r.tid in w.spaces && w'.spaces == w.spaces - {r.tid}
         && pa.Some? && HoldsCode(w'.s.mem, pa.value, r.code)
         && Confined({w.spaces[r.tid].id, 0}, Store(StoreCode(w.s.mem, pa.value, r.code), w.s.owner), w'.s)
  }

  // ---- memory ----

  ghost predicate MmapDone(w: World, w': World, t: nat, start: nat, len: nat, port: nat)
    requires Calling(w, t)
  {
    var lo, hi := First39(start), Last39(start, len);
    if BadMmap(start, port) || Overlaps(MapOf(w, t), start, len) then Untouched(w, w')
    else
      && OnlySpace(w, w', t, {w.spaces[t].id}) && KeepsData(w.s, w'.s)
      && Mapped39(w.spaces[t].areas, w'.spaces[t].areas, lo, hi, MmapPerm(port), w'.s.mem)
      && Granted(MapOf(w', t), lo, hi, port)
  }

  ghost predicate MunmapDone(w: World, w': World, t: nat, start: nat, len: nat)
    requires Calling(w, t)
  {
    var lo, hi := First39(start), Last39(start, len);
    if start % PAGE_SIZE != 0 || !AllMapped(MapOf(w, t), lo, hi) then Untouched(w, w')
    else
      && OnlySpace(w, w', t, {w.spaces[t].id}) && KeepsData(w.s, w'.s)
      && w'.spaces[t].areas == Kept(w.spaces[t].areas, lo, hi)
  }

  ghost predicate BreakDone(w: World, w': World, e: Option<Lifecycle.Event>, t: nat, size: int)
    requires Calling(w, t)
  {
    var b := w.tasks.tcbs[t];
    var to := b.programBrk + size;
    if NoBreak(w.spaces[t].areas, b.heapBottom, to) then e == None && Untouched(w, w')
    else
      && to >= 0 && e == Some(Lifecycle.Brk(to)) && OnlySpace(w, w', t, {w.spaces[t].id}) && KeepsData(w.s, w'.s)
      && Resized(w.spaces[t].areas, w'.spaces[t].areas, b.heapBottom, to, MapOf(w, t), MapOf(w', t))
      && NewZeros(w.spaces[t].areas, w'.spaces[t].areas, b.heapBottom, w'.s.mem)
  }

  // A store of user code changes one byte where the page is writable, and nothing else.
  ghost predicate StoreDone(w: World, w': World, t: nat, va: nat, byte: Byte)
    requires Calling(w, t)
  {
    var view, v := MapOf(w, t), Floor(va);
    if !Writable(view, v) then Untouched(w, w')
    else
      var f := PpnOf(view[v]);
      w'.spaces == w.spaces && w'.s == Store(w.s.mem[f := At(w.s.mem, f)[Offset(va) := byte]], w.s.owner)
  }

  // The data lies at the translations of ptr, ptr + 1, ..., and nothing else changed; a sum that wraps
  // writes nothing.
  ghost predicate FillDone(w: World, w': World, t: nat, ptr: Usize, data: seq<Byte>, a: seq<nat>)
    requires Calling(w, t)
  {
    && |a| == (if ptr + |data| < WORD then |data| else 0) && Translates(w.s.mem, w.spaces[t].tables[Root], ptr, a)
    && w'.spaces == w.spaces && w'.s == Store(Pokes(w.s.mem, a, data[..|a|]), w.s.owner)
  }

  ghost predicate TrapDone(w: World, w': World, t: nat, regs: seq<Usize>)
    requires Calling(w, t)
  {
    && w'.spaces == w.spaces && w'.s.owner == w.s.owner && Confined({w.spaces[t].id}, w.s, w'.s)
    && OnlyTrap(w.spaces[t].id, w.s, w'.s, Save(regs), 0)
  }

  // ---- all calls ----

  // What a call that returns has done.
  ghost predicate Did(c: Call, w: World, w': World, e: Option<Lifecycle.Event>) {
    && Stepped(w, w', e)
    && if c.FetchTask? then e == Some(Lifecycle.Fetch) && Untouched(w, w')
       else w.tasks.current.Some? && Calling(w, w.tasks.current.value) && Does(c, w, w', e, w.tasks.current.value)
  }

  ghost predicate Does(c: Call, w: World, w': World, e: Option<Lifecycle.Event>, t: nat)
    requires Calling(w, t)
  {
    match c
    case FetchTask => false
    case DoYield => e == Some(Lifecycle.Yields) && Untouched(w, w')
    case DoSetPrio(p) => e == Some(Lifecycle.Prio(p)) && Untouched(w, w')
    case DoFork => ForkDone(w, w', e, t)
    case DoSpawn(segs, entry, status) => SpawnDone(w, w', e, segs, entry, status)
    case DoExec(segs, entry, status) => e == None && ExecDone(w, w', t, segs, entry, status)
    case DoExit(code) => e == Some(Lifecycle.Exits(code)) && ExitDone(w, w', t)
    case DoWait(pid, ptr) => e == Some(Lifecycle.Waits(pid)) && exists r :: WaitDone(w, w', t, pid, ptr, r)
    case DoMmap(start, len, port) => e == None && MmapDone(w, w', t, start, len, port)
    case DoMunmap(start, len) => e == None && MunmapDone(w, w', t, start, len)
    case DoSbrk(size) => BreakDone(w, w', e, t, size)
    case DoStore(va, b) => e == None && StoreDone(w, w', t, va, b)
    case DoFill(ptr, data) => e == None && exists a :: FillDone(w, w', t, ptr, data, a)
    case DoTrap(regs) => e == None && TrapDone(w, w', t, regs)
  }

  // How a call can end, on a machine that manages the frames [base, end).
  ghost predicate Ends(c: Call, w: World, o: Outcome, base: nat, end: nat) {
    if c.FetchTask? then o.Fine?
    else
      w.tasks.current.Some? && var t := w.tasks.current.value; Calling(w, t) && EndsFor(c, w, o, base, end, t)
  }

  ghost predicate EndsFor(c: Call, w: World, o: Outcome, base: nat, end: nat, t: nat)
    requires Calling(w, t)
  {
    var p, b := w.spaces[t], w.tasks.tcbs[t];
    match c
    case FetchTask => false
    case DoYield => o.Fine?
    case DoSetPrio(_) => o.Fine?
    case DoStore(_, _) => o.Fine?
    case DoTrap(_) => o.Fine?
    case DoFork => o in {Fine, OutOfFrames} && (o.OutOfFrames? ==> w.free < SpaceFrames(p.areas) + 6)
    case DoSpawn(segs, _, _) =>
      (GoodLayout(segs) ==> o in {Fine, OutOfFrames}) && (o.OutOfFrames? ==> w.free < ProgramFrames(segs) + 6)
    case DoExec(segs, _, _) =>
      (GoodLayout(segs) ==> o in {Fine, OutOfFrames}) && (o.OutOfFrames? ==> w.free < ProgramFrames(segs))
    case DoExit(_) => o == if t == w.tasks.init then DoubleBorrow else Fine
    case DoWait(pid, ptr) =>
      o == if WaitPid(w.tasks, pid).1.Reaped? then StoreOutcome(Pointed(w, t, ptr), base, end, VirtAddr(ptr)) else Fine
    case DoMmap(start, len, port) =>
      && o in {Fine, OutOfFrames, ReversedRange}
      && (o.ReversedRange? <==> !BadMmap(start, port) && First39(start) > Last39(start, len))
      && (o.OutOfFrames? ==> MmapShort(w.free, p.tables.Keys, start, len))
    case DoMunmap(start, len) =>
      && o in {Fine, ReversedRange, Stuck} && (o.Stuck? <==> DropsTrap(start, len))
      && (o.ReversedRange? <==> start % PAGE_SIZE == 0 && First39(start) > Last39(start, len))
    case DoSbrk(size) =>
      var to := b.programBrk + size;
      && BrkOutcome(if o.Stuck? then Fine else o, size, to, w.free, p.tables.Keys, MapOf(w, t), p.areas, b.heapBottom)
      && (o.Stuck? ==> GivesTrap(p.areas, b.heapBottom, to)) && (o.Fine? ==> !GivesTrap(p.areas, b.heapBottom, to))
    case DoFill(ptr, data) => FillEnds(w, o, base, t, ptr, data)
  }

  ghost predicate FillEnds(w: World, o: Outcome, base: nat, t: nat, ptr: Usize, data: seq<Byte>)
    requires Calling(w, t)
  {
    var on := RunsOn(ptr, (ptr + |data|) % WORD);
    var all := AllStorable(w.s.mem, w.spaces[t].tables[Root], base, ptr, ptr + |data|);
    && o in {Fine, NotTranslated, StoreFault, TrapStore, Stuck} && (o.Stuck? <==> on)
    && (o.NotTranslated? || o.StoreFault? <==> ptr + |data| < WORD && !on && !all)
    && (o.TrapStore? <==> ptr + |data| < WORD && !on && HitsGuard(ptr, ptr + |data|) && all)
  }

  // One step of a run: the call is made if there is a task to make it, and returns.
  ghost predicate Went(c: Call, w: World, w': World, e: Option<Lifecycle.Event>) {
    if Able(c, w) then Did(c, w, w', e) else w' == w && e == None
  }
}
