/** The state of the whole kernel as one value: every address space, every task and every frame,
    with the invariant that all steps keep. */
module Worlds {
  import opened Address
  import opened Frames
  import opened FrameAllocator
  import opened PageTables
  import opened UserAccess
  import opened Areas
  import opened Layout
  import opened MemorySets
  import opened Fork
  import opened Tasks
  import opened Isolation
  import opened Traps
  import Pids

  // An address space, apart from the bytes of its frames.
  datatype Space = Space(id: nat, tables: Tables, frames: seq<nat>, areas: seq<MapArea>)

  // `tramp` is the trampoline entry all spaces share, `env` what their trap contexts must lead to, `total`
  // the number of managed frames.
  datatype World = World(s: Store, free: nat, tasks: State, kernel: Space, spaces: map<nat, Space>, nextId: nat,
                         tramp: nat, env: TrapEnv, total: nat)

  ghost predicate LiveSpace(p: Space, s: Store, tramp: nat) {
    |p.frames| == |p.tables| && SpaceOk(p.id, s, p.tables, p.frames, p.areas, tramp)
  }

  // What exit leaves: page-table nodes and nothing else.
  ghost predicate DeadSpace(p: Space, s: Store) {
    && p.areas == [] && |p.frames| == |p.tables|
    && Tree(p.id, s, p.tables) && Holds(p.frames, p.id, s.owner) && OwnsPages(p.id, s.owner, map[])
  }

  // An area of its own for the trap page.
  ghost predicate HasTrap(areas: seq<MapArea>) {
    exists i :: 0 <= i < |areas| && areas[i].start == TRAP_VPN && areas[i].end == TRAMPOLINE_VPN
  }

  // An entry the hardware takes, for loads and stores outside user mode.
  predicate KernelOnly(e: nat) {
    Usable(e) && Has(FlagsOf(e), W) && !Has(FlagsOf(e), U)
  }

  // The trap page is mapped, out of the user's reach, and its context leads into the kernel.
  ghost predicate TrapReady(p: Space, s: Store, env: TrapEnv, kernelSp: nat) {
    var view := View(s.mem, p.tables);
    && HasTrap(p.areas) && TRAP_VPN in view && KernelOnly(view[TRAP_VPN])
    && TrapWords(At(s.mem, PpnOf(view[TRAP_VPN])), env, kernelSp)
  }

  // The space of a task: live, with framed areas only and ready for a trap, or dead if the task is a
  // zombie.
  ghost predicate SpaceGood(p: Space, b: Tcb, s: Store, tramp: nat, env: TrapEnv) {
    if b.status == Zombie then DeadSpace(p, s)
    else LiveSpace(p, s, tramp) && AllFramed(p.areas) && TrapReady(p, s, env, Pids.StackTop(b.pid))
  }

  ghost predicate Numbered(w: World) {
    && w.spaces.Keys == w.tasks.tcbs.Keys && w.kernel.id == 0 && 0 < w.nextId
    && (forall t :: t in w.spaces ==> 0 < w.spaces[t].id < w.nextId)
    && (forall t, u :: t in w.spaces && u in w.spaces && t != u ==> w.spaces[t].id != w.spaces[u].id)
  }

  ghost predicate HasSpace(spaces: map<nat, Space>, id: nat) {
    id == 0 || exists t :: t in spaces && spaces[t].id == id
  }

  // Every allocated frame is held by the kernel or by the space of some task in the table.
  ghost predicate Owned(owner: Owners, spaces: map<nat, Space>) {
    forall f :: f in owner ==> HasSpace(spaces, owner[f].id)
  }

  ghost function Holding(p: Space): nat { |p.tables| + Weight(p.areas) }

  ghost function Holdings(spaces: map<nat, Space>): map<nat, nat> { map t | t in spaces :: Holding(spaces[t]) }

  // Every managed frame is free, or counted once: in the kernel space or in that of one task.
  ghost predicate Conserved(w: World) {
    w.free + Holding(w.kernel) + Sum(Holdings(w.spaces), w.tasks.next) == w.total
  }

  ghost predicate AllGood(w: World)
    requires w.spaces.Keys == w.tasks.tcbs.Keys
  {
    forall t :: t in w.spaces ==> SpaceGood(w.spaces[t], w.tasks.tcbs[t], w.s, w.tramp, w.env)
  }

  ghost predicate WorldOk(w: World) {
    && Inv(w.tasks) && Numbered(w) && LiveSpace(w.kernel, w.s, w.tramp) && AllGood(w)
    && Owned(w.s.owner, w.spaces) && Conserved(w)
  }

  // ---- the spaces a step does not touch ----

  lemma {:induction false} KeepSpace(ids: set<nat>, p: Space, b: Tcb, s: Store, s': Store, tramp: nat, env: TrapEnv)
    requires p.id !in ids && Confined(ids, s, s')
    ensures LiveSpace(p, s, tramp) ==> LiveSpace(p, s', tramp) && View(s'.mem, p.tables) == View(s.mem, p.tables)
    ensures SpaceGood(p, b, s, tramp, env) ==> SpaceGood(p, b, s', tramp, env)
  {
    hide Tree, View, Holds, OwnsPages, Agrees, Pages, Confined, AllFramed, TrapReady, Pids.StackTop;
    if LiveSpace(p, s, tramp) {
      ConfinedOther(ids, p.id, s, s', p.tables, p.frames, Pages(p.areas));
    }
    if SpaceGood(p, b, s, tramp, env) && b.status != Zombie {
      KeepTrap(ids, p, s, s', tramp, env, Pids.StackTop(b.pid));
    }
    if DeadSpace(p, s) {
      ConfinedOther(ids, p.id, s, s', p.tables, p.frames, map[]);
    }
  }

  // The frame behind the trap page is held as just that page.
  lemma {:induction false} TrapFrame(p: Space, s: Store, tramp: nat, env: TrapEnv, kernelSp: nat)
    requires LiveSpace(p, s, tramp) && AllFramed(p.areas) && TrapReady(p, s, env, kernelSp)
    ensures var f := PpnOf(View(s.mem, p.tables)[TRAP_VPN]); f in s.owner && s.owner[f] == Data(p.id, TRAP_VPN)
  {
    hide Tree, View, Holds, OwnsPages, Agrees, Pages, AllFramed, PpnOf, TrapWords, HasTrap;
    PageOwner(s.owner, p.id, p.areas, View(s.mem, p.tables), tramp, TRAP_VPN);
  }

  lemma {:induction false} KeepTrap(ids: set<nat>, p: Space, s: Store, s': Store, tramp: nat, env: TrapEnv,
                                    kernelSp: nat)
    requires p.id !in ids && Confined(ids, s, s') && LiveSpace(p, s, tramp) && AllFramed(p.areas)
    requires TrapReady(p, s, env, kernelSp)
    ensures TrapReady(p, s', env, kernelSp)
  {
    hide LiveSpace, View, AllFramed, PpnOf, TrapWords, HasTrap;
    TrapFrame(p, s, tramp, env, kernelSp);
    KeepLive(ids, p, s, s', tramp);
  }

  lemma {:induction false} KeepLive(ids: set<nat>, p: Space, s: Store, s': Store, tramp: nat)
    requires p.id !in ids && Confined(ids, s, s') && LiveSpace(p, s, tramp)
    ensures LiveSpace(p, s', tramp) && View(s'.mem, p.tables) == View(s.mem, p.tables)
  {
    hide Tree, View, Holds, OwnsPages, Agrees, Pages, Confined;
    ConfinedOther(ids, p.id, s, s', p.tables, p.frames, Pages(p.areas));
  }

  lemma {:induction false} KeepDead(ids: set<nat>, p: Space, s: Store, s': Store)
    requires p.id !in ids && Confined(ids, s, s') && DeadSpace(p, s)
    ensures DeadSpace(p, s')
  {
    hide Tree, View, Holds, OwnsPages, Confined;
    ConfinedOther(ids, p.id, s, s', p.tables, p.frames, map[]);
  }

  // Same holders, and the same bytes in every page table.
  ghost predicate SameNodes(s: Store, s': Store) {
    s'.owner == s.owner && forall f :: f in s.owner && s.owner[f].Node? ==> At(s'.mem, f) == At(s.mem, f)
  }

  // A store that misses all page tables.
  lemma {:induction false} KeepStored(p: Space, s: Store, s': Store, tramp: nat)
    requires SameNodes(s, s')
    ensures LiveSpace(p, s, tramp) ==> LiveSpace(p, s', tramp) && View(s'.mem, p.tables) == View(s.mem, p.tables)
    ensures DeadSpace(p, s) ==> DeadSpace(p, s')
  {
    hide Tree, View, Holds, OwnsPages, Agrees, Pages;
    assert SameTables(p.id, s, s');
    if LiveSpace(p, s, tramp) || DeadSpace(p, s) { TreeFrame(p.id, s, p.tables, s'); }
  }

  // The bytes of trap contexts that traps rely on are the same.
  ghost predicate SameGuards(s: Store, s': Store) {
    forall f :: f in s.owner && s.owner[f].Data? && s.owner[f].vpn == TRAP_VPN ==>
      SameGuard(At(s.mem, f), At(s'.mem, f))
  }

  lemma {:induction false} KeepGuarded(p: Space, s: Store, s': Store, tramp: nat, env: TrapEnv, kernelSp: nat)
    requires SameNodes(s, s') && SameGuards(s, s') && LiveSpace(p, s, tramp) && AllFramed(p.areas)
    requires TrapReady(p, s, env, kernelSp)
    ensures TrapReady(p, s', env, kernelSp)
  {
    hide LiveSpace, View, AllFramed, PpnOf, TrapWords, HasTrap, SameNodes, SameGuard;
    TrapFrame(p, s, tramp, env, kernelSp);
    KeepStored(p, s, s', tramp);
    var f := PpnOf(View(s.mem, p.tables)[TRAP_VPN]);
    GuardKeeps(At(s.mem, f), At(s'.mem, f), env, kernelSp);
  }

  // A store that misses all page tables and what traps rely on.
  lemma {:induction false} StepStore(w: World, s': Store)
    requires WorldOk(w) && SameNodes(w.s, s') && SameGuards(w.s, s')
    ensures WorldOk(w.(s := s'))
  {
    hide Inv, LiveSpace, DeadSpace, AllFramed, SameNodes, Sum, Holding, TrapReady, SameGuards, Pids.StackTop;
    assert s'.owner == w.s.owner by { SameHolders(w.s, s'); }
    KeepStored(w.kernel, w.s, s', w.tramp);
    forall t | t in w.spaces ensures SpaceGood(w.spaces[t], w.tasks.tcbs[t], s', w.tramp, w.env) {
      KeepStored(w.spaces[t], w.s, s', w.tramp);
      assert SpaceGood(w.spaces[t], w.tasks.tcbs[t], w.s, w.tramp, w.env);
      if w.tasks.tcbs[t].status != Zombie {
        KeepGuarded(w.spaces[t], w.s, s', w.tramp, w.env, Pids.StackTop(w.tasks.tcbs[t].pid));
      }
    }
  }

  lemma {:induction false} SameHolders(s: Store, s': Store)
    requires SameNodes(s, s')
    ensures s'.owner == s.owner
  {
  }

  lemma {:induction false} KeepOwners(ids: set<nat>, s: Store, s': Store, spaces: map<nat, Space>,
                                      spaces': map<nat, Space>)
    requires Owned(s.owner, spaces) && Confined(ids, s, s')
    requires forall t :: t in spaces && spaces[t].id !in ids ==> t in spaces' && spaces'[t].id == spaces[t].id
    requires forall f :: f in s'.owner && s'.owner[f].id in ids ==> HasSpace(spaces', s'.owner[f].id)
    ensures Owned(s'.owner, spaces')
  {
    forall f | f in s'.owner ensures HasSpace(spaces', s'.owner[f].id) {
      if s'.owner[f].id !in ids {
        assert HasSpace(spaces, s.owner[f].id);
      }
    }
  }

  // The same zombies and pids, except perhaps for t.
  ghost predicate SameZombies(a: map<nat, Tcb>, b: map<nat, Tcb>, t: nat) {
    forall u :: u in a && u in b && u != t ==>
      (a[u].status == Zombie <==> b[u].status == Zombie) && a[u].pid == b[u].pid
  }

  // ---- steps ----

  // A step of one space, together with any bookkeeping in the task table.
  lemma {:induction false} StepOne(w: World, w': World, t: nat)
    requires WorldOk(w) && t in w.spaces && t in w.tasks.tcbs && t in w'.spaces && t in w'.tasks.tcbs
    requires w' == w.(s := w'.s, free := w'.free, tasks := w'.tasks, spaces := w.spaces[t := w'.spaces[t]])
    requires Inv(w'.tasks) && w'.tasks.next == w.tasks.next && w'.tasks.tcbs.Keys == w.tasks.tcbs.Keys
    requires SameZombies(w.tasks.tcbs, w'.tasks.tcbs, t)
    requires w'.spaces[t].id == w.spaces[t].id && Confined({w.spaces[t].id}, w.s, w'.s)
    requires SpaceGood(w'.spaces[t], w'.tasks.tcbs[t], w'.s, w'.tramp, w'.env)
    requires w'.free + Holding(w'.spaces[t]) == w.free + Holding(w.spaces[t])
    ensures WorldOk(w')
  {
    hide Inv, Confined, LiveSpace, SpaceGood, AllGood, Holding, Holdings, Sum, Owned, Numbered, SameZombies;
    TaskOld(w.tasks, t);
    SamePlace(w, w', t);
    KeepSpace({w.spaces[t].id}, w.kernel, w.tasks.tcbs[t], w.s, w'.s, w.tramp, w.env);
    OthersGood(w, w', t, {w.spaces[t].id});
    KeepOwners({w.spaces[t].id}, w.s, w'.s, w.spaces, w'.spaces);
    PutHolding(w.spaces, w.tasks.next, t, w'.spaces[t]);
  }

  lemma {:induction false} SamePlace(w: World, w': World, t: nat)
    requires Numbered(w) && t in w.spaces && t in w'.spaces && w'.spaces == w.spaces[t := w'.spaces[t]]
    requires w'.spaces[t].id == w.spaces[t].id
    requires w'.kernel == w.kernel && w'.nextId == w.nextId && w'.tasks.tcbs.Keys == w.tasks.tcbs.Keys
    ensures Numbered(w') && w.spaces[t].id != w.kernel.id && HasSpace(w'.spaces, w.spaces[t].id)
    ensures forall u :: u in w.spaces && u != t ==> w.spaces[u].id != w.spaces[t].id
    ensures w.spaces.Keys == w.tasks.tcbs.Keys == w'.spaces.Keys
  {
    hide HasSpace;
    SpaceOf(w'.spaces, t);
    forall u | u in w'.spaces ensures u in w.spaces && w'.spaces[u].id == w.spaces[u].id {}
  }

  // All spaces but that of t come through a step confined to other numbers.
  lemma {:induction false} OthersGood(w: World, w': World, t: nat, ids: set<nat>)
    requires w.spaces.Keys == w.tasks.tcbs.Keys && w'.spaces.Keys == w'.tasks.tcbs.Keys
    requires w'.tramp == w.tramp && w'.env == w.env
    requires forall u :: u in w'.spaces && u != t ==>
      u in w.spaces && w'.spaces[u] == w.spaces[u] && w.spaces[u].id !in ids
    requires SameZombies(w.tasks.tcbs, w'.tasks.tcbs, t) && Confined(ids, w.s, w'.s) && AllGood(w)
    requires t in w'.spaces ==> SpaceGood(w'.spaces[t], w'.tasks.tcbs[t], w'.s, w'.tramp, w'.env)
    ensures AllGood(w')
  {
    hide Confined, LiveSpace, SpaceGood;
    forall u | u in w'.spaces ensures SpaceGood(w'.spaces[u], w'.tasks.tcbs[u], w'.s, w'.tramp, w'.env) {
      if u != t {
        KeepSpace(ids, w.spaces[u], w.tasks.tcbs[u], w.s, w'.s, w.tramp, w.env);
        SameStatus(w.spaces[u], w.tasks.tcbs[u], w'.tasks.tcbs[u], w'.s, w'.tramp, w'.env);
      }
    }
  }

  lemma {:induction false} PutHolding(spaces: map<nat, Space>, n: nat, t: nat, p: Space)
    requires t < n
    ensures Sum(Holdings(spaces[t := p]), n) + (if t in spaces then Holding(spaces[t]) else 0)
      == Sum(Holdings(spaces), n) + Holding(p)
  {
    hide Holding, Sum;
    SumPut(Holdings(spaces), n, t, Holding(p));
    assert Holdings(spaces[t := p]) == Holdings(spaces)[t := Holding(p)];
  }

  // A new task with a space of its own and a kernel stack.
  lemma {:induction false} StepCreate(w: World, w': World, t: nat, p: Space)
    requires WorldOk(w) && t == w.tasks.next && p.id == w.nextId
    requires w' == w.(s := w'.s, free := w'.free, tasks := w'.tasks, kernel := w'.kernel,
                      spaces := w.spaces[t := p], nextId := w.nextId + 1)
    requires Inv(w'.tasks) && w'.tasks.next == t + 1 && w'.tasks.tcbs.Keys == w.tasks.tcbs.Keys + {t}
    requires SameZombies(w.tasks.tcbs, w'.tasks.tcbs, t)
    requires w'.kernel.id == 0 && Confined({w.nextId, 0}, w.s, w'.s)
    requires SpaceGood(p, w'.tasks.tcbs[t], w'.s, w'.tramp, w'.env) && LiveSpace(w'.kernel, w'.s, w'.tramp)
    requires w'.free + Holding(w'.kernel) + Holding(p) == w.free + Holding(w.kernel)
    ensures WorldOk(w')
  {
    hide Inv, Confined, LiveSpace, SpaceGood, AllGood, Holding, Holdings, Sum, Owned, Numbered, SameZombies;
    NewPlace(w, w', t, p);
    OthersGood(w, w', t, {w.nextId, 0});
    KeepOwners({w.nextId, 0}, w.s, w'.s, w.spaces, w'.spaces);
    PutHolding(w.spaces, t + 1, t, p);
    NextSum(w.spaces, t);
  }

  lemma {:induction false} NewPlace(w: World, w': World, t: nat, p: Space)
    requires Numbered(w) && t == w.tasks.next && Inv(w.tasks) && p.id == w.nextId
    requires w'.spaces == w.spaces[t := p] && w'.kernel.id == 0 && w'.nextId == w.nextId + 1
    requires w'.tasks.tcbs.Keys == w.tasks.tcbs.Keys + {t}
    ensures w.spaces.Keys == w.tasks.tcbs.Keys && w'.spaces.Keys == w'.tasks.tcbs.Keys && Numbered(w') && t !in w.spaces
    ensures HasSpace(w'.spaces, w.nextId) && HasSpace(w'.spaces, 0)
    ensures forall u :: u in w.spaces ==> w.spaces[u].id !in {w.nextId, 0}
  {
    hide PlaceOk, Family, DistinctPids;
    SpaceOf(w'.spaces, t);
  }

  lemma {:induction false} NextSum(spaces: map<nat, Space>, n: nat)
    requires n !in spaces
    ensures Sum(Holdings(spaces), n + 1) == Sum(Holdings(spaces), n)
  {
    hide Holding;
  }

  // exec: a task gets a new space and the old one is dropped.
  lemma {:induction false} StepSwap(w: World, w': World, t: nat, p: Space)
    requires WorldOk(w) && t in w.spaces && t in w.tasks.tcbs && p.id == w.nextId
    requires w' == w.(s := w'.s, free := w'.free, spaces := w.spaces[t := p], nextId := w.nextId + 1)
    requires Confined({w.spaces[t].id, w.nextId}, w.s, w'.s)
    requires forall f :: f in w'.s.owner ==> w'.s.owner[f].id != w.spaces[t].id
    requires SpaceGood(p, w.tasks.tcbs[t], w'.s, w'.tramp, w'.env)
    requires w'.free + Holding(p) == w.free + Holding(w.spaces[t])
    ensures WorldOk(w')
  {
    hide Inv, Confined, LiveSpace, SpaceGood, AllGood, Holding, Holdings, Sum, Owned, Numbered;
    TaskOld(w.tasks, t);
    SwapPlace(w, w', t, p);
    KeepSpace({w.spaces[t].id, w.nextId}, w.kernel, w.tasks.tcbs[t], w.s, w'.s, w.tramp, w.env);
    OthersGood(w, w', t, {w.spaces[t].id, w.nextId});
    KeepOwners({w.spaces[t].id, w.nextId}, w.s, w'.s, w.spaces, w'.spaces);
    PutHolding(w.spaces, w.tasks.next, t, p);
  }

  lemma {:induction false} SwapPlace(w: World, w': World, t: nat, p: Space)
    requires Numbered(w) && t in w.spaces && p.id == w.nextId
    requires w'.spaces == w.spaces[t := p] && w'.kernel == w.kernel && w'.nextId == w.nextId + 1 && w'.tasks == w.tasks
    ensures w.spaces.Keys == w.tasks.tcbs.Keys == w'.spaces.Keys && Numbered(w') && HasSpace(w'.spaces, w.nextId)
    ensures w.kernel.id !in {w.spaces[t].id, w.nextId}
    ensures forall u :: u in w.spaces && u != t ==> w.spaces[u].id !in {w.spaces[t].id, w.nextId}
  {
    SpaceOf(w'.spaces, t);
  }

  // waitpid: a task, its space and its kernel stack go.
  lemma {:induction false} StepReap(w: World, w': World, c: nat)
    requires WorldOk(w) && c in w.spaces && c in w.tasks.tcbs
    requires w' == w.(s := w'.s, free := w'.free, tasks := w'.tasks, kernel := w'.kernel, spaces := w.spaces - {c})
    requires Inv(w'.tasks) && w'.tasks.next == w.tasks.next && w'.tasks.tcbs.Keys == w.tasks.tcbs.Keys - {c}
    requires SameZombies(w.tasks.tcbs, w'.tasks.tcbs, c)
    requires w'.kernel.id == 0 && Confined({w.spaces[c].id, 0}, w.s, w'.s)
    requires forall f :: f in w'.s.owner ==> w'.s.owner[f].id != w.spaces[c].id
    requires LiveSpace(w'.kernel, w'.s, w'.tramp)
    requires w'.free + Holding(w'.kernel) == w.free + Holding(w.kernel) + Holding(w.spaces[c])
    ensures WorldOk(w')
  {
    hide Inv, Confined, LiveSpace, SpaceGood, AllGood, Holding, Holdings, Sum, Owned, Numbered, SameZombies;
    TaskOld(w.tasks, c);
    LostPlace(w, w', c);
    OthersGood(w, w', c, {w.spaces[c].id, 0});
    KeepOwners({w.spaces[c].id, 0}, w.s, w'.s, w.spaces, w'.spaces);
    DropHolding(w.spaces, w.tasks.next, c);
  }

  lemma {:induction false} LostPlace(w: World, w': World, c: nat)
    requires Numbered(w) && c in w.spaces && w'.spaces == w.spaces - {c} && w'.kernel.id == 0 && w'.nextId == w.nextId
    requires w'.tasks.tcbs.Keys == w.tasks.tcbs.Keys - {c}
    ensures w.spaces.Keys == w.tasks.tcbs.Keys && w'.spaces.Keys == w'.tasks.tcbs.Keys && Numbered(w')
    ensures HasSpace(w'.spaces, 0)
    ensures forall u :: u in w.spaces && u != c ==> w.spaces[u].id !in {w.spaces[c].id, 0}
  {
  }

  lemma {:induction false} DropHolding(spaces: map<nat, Space>, n: nat, c: nat)
    requires c < n && c in spaces
    ensures Sum(Holdings(spaces - {c}), n) + Holding(spaces[c]) == Sum(Holdings(spaces), n)
  {
    hide Holding, Sum;
    SumDrop(Holdings(spaces), n, c);
    assert Holdings(spaces - {c}) == Holdings(spaces) - {c};
  }

  lemma {:induction false} TaskOld(s: State, t: nat)
    requires t in s.tcbs && Inv(s)
    ensures t < s.next
  {
  }

  lemma {:induction false} SameStatus(p: Space, a: Tcb, b: Tcb, s: Store, tramp: nat, env: TrapEnv)
    requires (a.status == Zombie <==> b.status == Zombie) && a.pid == b.pid && SpaceGood(p, a, s, tramp, env)
    ensures SpaceGood(p, b, s, tramp, env)
  {
  }

  lemma {:induction false} SpaceOf(spaces: map<nat, Space>, t: nat)
    requires t in spaces
    ensures HasSpace(spaces, spaces[t].id)
  {
  }

  // The next space number is unused.
  lemma {:induction false} FreshId(w: World)
    requires WorldOk(w)
    ensures forall f :: f in w.s.owner ==> w.s.owner[f].id != w.nextId
  {
    hide Inv, LiveSpace, AllGood, Conserved;
    forall f | f in w.s.owner ensures w.s.owner[f].id != w.nextId { assert HasSpace(w.spaces, w.s.owner[f].id); }
  }

  // A step of the task table that keeps the tasks and the zombies.
  lemma {:induction false} StepTasks(w: World, w': World)
    requires WorldOk(w) && w' == w.(tasks := w'.tasks) && Inv(w'.tasks) && w'.tasks.next == w.tasks.next
    requires w'.tasks.tcbs.Keys == w.tasks.tcbs.Keys && w'.tasks.init == w.tasks.init
    requires forall u :: u in w.tasks.tcbs ==> w.tasks.tcbs[u].pid == w'.tasks.tcbs[u].pid
    requires forall u :: u in w.tasks.tcbs ==> (w.tasks.tcbs[u].status == Zombie <==> w'.tasks.tcbs[u].status == Zombie)
    ensures WorldOk(w')
  {
    hide Inv, LiveSpace, SpaceGood, Owned, Conserved, Confined;
    var t := w.tasks.init;
    InitThere(w.tasks);
    SameStatus(w.spaces[t], w.tasks.tcbs[t], w'.tasks.tcbs[t], w.s, w.tramp, w.env);
    ConfinedSame({w.spaces[t].id}, w.s);
    assert w.spaces == w.spaces[t := w.spaces[t]];
    StepOne(w, w', t);
  }

  lemma {:induction false} ConfinedSame(ids: set<nat>, s: Store)
    ensures Confined(ids, s, s)
  {
  }

  lemma {:induction false} InitThere(s: State)
    requires Inv(s)
    ensures s.init in s.tcbs
  {
  }

  // ---- boot ----

  // One task with one space on a machine whose other frames are free or the kernel's.
  lemma {:induction false} FirstWorld(w: World, p: Space)
    requires Inv(w.tasks) && w.tasks.tcbs.Keys == {0} && w.tasks.next == 1 && w.tasks.tcbs[0].status != Zombie
    requires w.spaces == map[0 := p] && p.id == 1 && w.nextId == 2 && w.kernel.id == 0
    requires LiveSpace(w.kernel, w.s, w.tramp) && LiveSpace(p, w.s, w.tramp) && AllFramed(p.areas)
    requires TrapReady(p, w.s, w.env, Pids.StackTop(w.tasks.tcbs[0].pid))
    requires forall f :: f in w.s.owner ==> w.s.owner[f].id in {0, 1}
    requires w.free + Holding(w.kernel) + Holding(p) == w.total
    ensures WorldOk(w)
  {
    hide Inv, LiveSpace, AllFramed, Holding, TrapReady, Pids.StackTop;
    SpaceOf(w.spaces, 0);
    assert Sum(Holdings(w.spaces), 1) == Sum(Holdings(w.spaces), 0) + Holding(p);
  }
}
