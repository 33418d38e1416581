/** The store of an exit code and the invariant of the whole kernel: exactly which stores keep it. */
module KernelStores {
  import opened Address
  import opened Frames
  import opened FrameAllocator
  import opened PageTables
  import opened UserAccess
  import opened Areas
  import opened Layout
  import opened MemorySets
  import opened Fork
  import opened Tasks
  import opened Isolation
  import opened Traps
  import opened Worlds
  import opened SpaceSteps
  import opened Sights
  import opened Runs
  import Lifecycle
  import Pids

  ghost function AfterStore(w: World, pa: nat, code: int): World {
    w.(s := Store(StoreCode(w.s.mem, pa, code), w.s.owner))
  }

  // Whatever the code, the store keeps the invariant.
  ghost predicate KeepsWorld(w: World, pa: nat) {
    forall code: int :: WorldOk(AfterStore(w, pa, code))
  }

  // A store at offset off of page v, in frame f: past the end of the page it must not run into a page table,
  // and on the trap page it must miss what traps rely on.
  ghost predicate Harmless(owner: Owners, v: nat, f: nat, off: nat) {
    if off > 4092 then f + 1 in owner ==> owner[f + 1].Data?
    else !HitsGuard(v * PAGE_SIZE + off, v * PAGE_SIZE + off + 4)
  }

  // ---- harmless stores ----

  lemma {:induction false} SpillKeepsNodes(s: Store, f: nat, off: nat, code: int)
    requires 4092 < off < PAGE_SIZE && f in s.owner && s.owner[f].Data? && (f + 1 in s.owner ==> s.owner[f + 1].Data?)
    ensures SameNodes(s, Store(StoreCode(s.mem, f * PAGE_SIZE + off, code), s.owner))
  {
    hide StoreCode;
    var pa := f * PAGE_SIZE + off;
    AddressSplit(f, off);
    TouchedPages(pa);
    forall g | g in s.owner && s.owner[g].Node? ensures At(StoreCode(s.mem, pa, code), g) == At(s.mem, g) {
      StoreElsewhere(s.mem, pa, code, g);
    }
  }

  lemma {:induction false} SpillKeepsGuards(s: Store, f: nat, off: nat, code: int)
    requires 4092 < off < PAGE_SIZE
    ensures SameGuards(s, Store(StoreCode(s.mem, f * PAGE_SIZE + off, code), s.owner))
  {
    hide StoreCode, CodeBytes, Pokes, Peek;
    var pa := f * PAGE_SIZE + off;
    var mem' := StoreCode(s.mem, pa, code);
    forall g: nat, o: nat | STATUS_LO <= o < GUARD_HI ensures At(mem', g)[o] == At(s.mem, g)[o] {
      UntouchedByte(s.mem, f, off, code, g, o);
    }
  }

  lemma {:induction false} UntouchedByte(mem: Memory, f: nat, off: nat, code: int, g: nat, o: nat)
    requires 4092 < off < PAGE_SIZE && STATUS_LO <= o < GUARD_HI
    ensures At(StoreCode(mem, f * PAGE_SIZE + off, code), g)[o] == At(mem, g)[o]
  {
    hide CodeBytes, Pokes;
    var pa, x := f * PAGE_SIZE + off, g * PAGE_SIZE + o;
    AddressSplit(g, o);
    PokesFrame(mem, [pa, pa + 1, pa + 2, pa + 3], CodeBytes(code), x);
  }

  // The page of a live task and its frame.
  ghost predicate Page39(w: World, t: nat, v: nat, f: nat) {
    && Alive(w, t) && v in View(w.s.mem, w.spaces[t].tables) && v != TRAMPOLINE_VPN
    && PpnOf(View(w.s.mem, w.spaces[t].tables)[v]) == f
  }

  lemma {:induction false} PageFrame(w: World, t: nat, v: nat, f: nat)
    requires Page39(w, t, v, f) && WorldOk(w)
    ensures t in w.spaces && t in w.tasks.tcbs && v < VPNS
    ensures f in w.s.owner && w.s.owner[f] == Data(w.spaces[t].id, v)
  {
    hide Inv, Tree, Holds, OwnsPages, Agrees, Pages, Owned, Conserved, AllFramed, PpnOf, TrapReady, LeafWord;
    var p := w.spaces[t];
    assert SpaceGood(p, w.tasks.tcbs[t], w.s, w.tramp, w.env);
    PageOwner(w.s.owner, p.id, p.areas, View(w.s.mem, p.tables), w.tramp, v);
  }

  lemma {:induction false} HarmlessKeeps(w: World, t: nat, v: nat, f: nat, off: nat, code: int)
    requires Page39(w, t, v, f) && off < PAGE_SIZE && Harmless(w.s.owner, v, f, off) && WorldOk(w)
    ensures WorldOk(AfterStore(w, f * PAGE_SIZE + off, code))
  {
    hide WorldOk, Page39, CodeBytes, Pokes, SameNodes, SameGuards, Landed, HitsGuard;
    PageFrame(w, t, v, f);
    var pa, va, id := f * PAGE_SIZE + off, v * PAGE_SIZE + off, w.spaces[t].id;
    if off > 4092 {
      SpillKeepsNodes(w.s, f, off, code);
      SpillKeepsGuards(w.s, f, off, code);
    } else {
      AddressSplit(f, off);
      AddressSplit(v, off);
      CodeLands(w.s.owner, id, v, pa, va);
      PokesHome(w.s, [pa, pa + 1, pa + 2, pa + 3], CodeBytes(code), id, va);
      PokesMissGuards(w.s, [pa, pa + 1, pa + 2, pa + 3], CodeBytes(code), id, va);
    }
    StepStore(w, AfterStore(w, pa, code).s);
  }

  // ---- the others ----

  lemma {:induction false} LowByte(page: Page)
    ensures Word(page, 0) % 256 == page[0]
  {
    assert page[0..8][0] == page[0];
  }

  lemma {:induction false} LinkByte(f: nat)
    ensures Pte(f, V) % 256 == 1
  {
    PteFlags(f, V);
  }

  // A byte that makes a page table wrong, put first in it.
  lemma {:induction false} WrongByte(s: Store, t: Tables, path: Path) returns (b: Byte)
    requires path in t
    ensures forall mem: Memory :: At(mem, t[path])[0] == b ==>
              if path.Leaf? then !Blank(mem, t, path, 0) else !Link(mem, t, path, 0)
  {
    b := if path.Leaf? then 2 else if Child(path, 0) in t then 0 else 1;
    forall mem: Memory | At(mem, t[path])[0] == b
      ensures if path.Leaf? then !Blank(mem, t, path, 0) else !Link(mem, t, path, 0) {
      LowByte(At(mem, t[path]));
      if !path.Leaf? && Child(path, 0) in t { LinkByte(t[Child(path, 0)]); }
    }
  }

  lemma {:induction false} TreeOf(w: World, p: Space)
    requires SpaceOfWorld(w, p) && WorldOk(w)
    ensures Tree(p.id, w.s, p.tables)
  {
    hide Inv, Holds, Agrees, OwnsPages, Conserved, Owned, Tree, TrapReady;
    if p != w.kernel {
      var t :| t in w.spaces && w.spaces[t] == p;
      assert SpaceGood(p, w.tasks.tcbs[t], w.s, w.tramp, w.env);
    }
  }

  // Running into a page table, some code breaks it.
  lemma {:induction false} SpillBreaks(w: World, f: nat, off: nat) returns (code: int)
    requires 4092 < off < PAGE_SIZE && f + 1 in w.s.owner && w.s.owner[f + 1].Node? && WorldOk(w)
    ensures !WorldOk(AfterStore(w, f * PAGE_SIZE + off, code))
  {
    hide WorldOk, StoreCode, CodeBytes, Peek, Tree, Pages;
    OneHolder(w, f + 1);
    var p :| SpaceOfWorld(w, p) && Sits(p, w.s.owner[f + 1], f + 1);
    var path := w.s.owner[f + 1].path;
    var b := WrongByte(w.s, p.tables, path);
    code := Loud(b);
    var pa, k := f * PAGE_SIZE + off, PAGE_SIZE - off;
    LoudBytes(b);
    StoredByte(w.s.mem, pa, code, k);
    FirstByte(StoreCode(w.s.mem, pa, code), f + 1, pa + k);
    var w' := AfterStore(w, pa, code);
    if WorldOk(w') { SoundTable(w', p, path); }
  }

  lemma {:induction false} FirstByte(mem: Memory, g: nat, a: nat)
    requires a == g * PAGE_SIZE
    ensures Peek(mem, a) == At(mem, g)[0]
  {
    AddressSplit(g, 0);
  }

  lemma {:induction false} SoundTable(w: World, p: Space, path: Path)
    requires SpaceOfWorld(w, p) && path in p.tables && WorldOk(w)
    ensures if path.Leaf? then Blank(w.s.mem, p.tables, path, 0) else Link(w.s.mem, p.tables, path, 0)
  {
    hide WorldOk, Word, Blank, Link;
    TreeOf(w, p);
  }

  // Equal words are equal bytes.
  lemma {:induction false} LittleInjective(a: seq<Byte>, b: seq<Byte>)
    requires |a| == |b| && FromLittle(a) == FromLittle(b)
    ensures a == b
  {
    if a != [] {
      assert a[0] == FromLittle(a) % 256 && b[0] == FromLittle(b) % 256;
      LittleInjective(a[1..], b[1..]);
      assert a == [a[0]] + a[1..] && b == [b[0]] + b[1..];
    }
  }

  lemma {:induction false} SameWords(p: Page, q: Page, e: TrapEnv, kernelSp: nat, o: nat)
    requires TrapWords(p, e, kernelSp) && TrapWords(q, e, kernelSp) && GUARD_LO <= o < GUARD_HI
    ensures p[o] == q[o]
  {
    var k := o / 8;
    LittleInjective(p[8 * k .. 8 * k + 8], q[8 * k .. 8 * k + 8]);
    assert p[o] == p[8 * k .. 8 * k + 8][o - 8 * k] && q[o] == q[8 * k .. 8 * k + 8][o - 8 * k];
  }

  // The guarded byte a store at off meets, and a value that spoils it.
  lemma {:induction false} SpoilingByte(p: Page, off: nat, e: TrapEnv, kernelSp: nat) returns (o: nat, b: Byte)
    requires off <= 4092 && TrapWords(p, e, kernelSp)
    requires HitsGuard(TRAP_VPN * PAGE_SIZE + off, TRAP_VPN * PAGE_SIZE + off + 4)
    ensures off <= o < off + 4 && o < PAGE_SIZE
    ensures forall q: Page :: q[o] == b ==> !TrapWords(q, e, kernelSp)
  {
    hide Word;
    if off < STATUS_HI && STATUS_LO < off + 4 {
      o := if off <= STATUS_LO then STATUS_LO else off;
      b := 3;
      forall q: Page | q[o] == b ensures !TrapWords(q, e, kernelSp) { StatusBits(q); }
    } else {
      o := if off < GUARD_LO then GUARD_LO else off;
      b := if p[o] == 0 then 1 else 0;
      forall q: Page | q[o] == b ensures !TrapWords(q, e, kernelSp) {
        if TrapWords(q, e, kernelSp) { SameWords(p, q, e, kernelSp, o); }
      }
    }
  }

  // On the trap page, where traps rely on it, some code spoils the context.
  lemma {:induction false} TrapBreaks(w: World, t: nat, f: nat, off: nat) returns (code: int)
    requires Page39(w, t, TRAP_VPN, f) && off <= 4092 && WorldOk(w)
    requires HitsGuard(TRAP_VPN * PAGE_SIZE + off, TRAP_VPN * PAGE_SIZE + off + 4)
    ensures !WorldOk(AfterStore(w, f * PAGE_SIZE + off, code))
  {
    hide WorldOk, StoreCode, CodeBytes, Peek, HitsGuard, TrapWords, Alive, View, Hardware, PpnOf;
    PageFrame(w, t, TRAP_VPN, f);
    TrapContext(w, t);
    var env, top, pa := w.env, Pids.StackTop(w.tasks.tcbs[t].pid), f * PAGE_SIZE + off;
    var o, b := SpoilingByte(At(w.s.mem, f), off, env, top);
    code := Loud(b);
    LoudBytes(b);
    StoredByte(w.s.mem, pa, code, o - off);
    var w' := AfterStore(w, pa, code);
    ByteAt(w'.s.mem, f, o, pa + (o - off));
    if WorldOk(w') {
      SameView(w, t, f, off, code);
      TrapContext(w', t);
    }
  }

  lemma {:induction false} ByteAt(mem: Memory, f: nat, o: nat, a: nat)
    requires o < PAGE_SIZE && a == f * PAGE_SIZE + o
    ensures Peek(mem, a) == At(mem, f)[o]
  {
    AddressSplit(f, o);
  }

  lemma {:induction false} SameView(w: World, t: nat, f: nat, off: nat, code: int)
    requires Page39(w, t, TRAP_VPN, f) && off <= 4092 && WorldOk(w)
    ensures var w' := AfterStore(w, f * PAGE_SIZE + off, code);
            View(w'.s.mem, w.spaces[t].tables) == View(w.s.mem, w.spaces[t].tables) && Alive(w', t)
  {
    hide WorldOk, CodeBytes, Pokes, SameNodes, Landed, LiveSpace, View;
    PageFrame(w, t, TRAP_VPN, f);
    LiveNow(w, t);
    var pa, va, id := f * PAGE_SIZE + off, TRAP_VPN * PAGE_SIZE + off, w.spaces[t].id;
    AddressSplit(f, off);
    AddressSplit(TRAP_VPN, off);
    CodeLands(w.s.owner, id, TRAP_VPN, pa, va);
    PokesHome(w.s, [pa, pa + 1, pa + 2, pa + 3], CodeBytes(code), id, va);
    KeepStored(w.spaces[t], w.s, AfterStore(w, pa, code).s, w.tramp);
  }

  lemma {:induction false} LiveNow(w: World, t: nat)
    requires Alive(w, t) && WorldOk(w)
    ensures LiveSpace(w.spaces[t], w.s, w.tramp)
  {
    hide Inv, LiveSpace, Owned, Conserved, TrapReady;
    assert SpaceGood(w.spaces[t], w.tasks.tcbs[t], w.s, w.tramp, w.env);
  }

  // Exactly the harmless stores keep the invariant of the whole kernel, whatever the code.
  lemma {:induction false} KeepsWorldExactly(w: World, t: nat, v: nat, f: nat, off: nat)
    requires Page39(w, t, v, f) && off < PAGE_SIZE && WorldOk(w)
    ensures KeepsWorld(w, f * PAGE_SIZE + off) <==> Harmless(w.s.owner, v, f, off)
  {
    hide WorldOk, AfterStore;
    var pa := f * PAGE_SIZE + off;
    if Harmless(w.s.owner, v, f, off) {
      forall code: int ensures WorldOk(AfterStore(w, pa, code)) { HarmlessKeeps(w, t, v, f, off, code); }
    } else if off > 4092 {
      var code := SpillBreaks(w, f, off);
      assert !WorldOk(AfterStore(w, pa, code));
    } else {
      OnTrapPage(v, off);
      var code := TrapBreaks(w, t, f, off);
      assert !WorldOk(AfterStore(w, pa, code));
    }
  }

  lemma {:induction false} OnTrapPage(v: nat, off: nat)
    requires off <= 4092 && HitsGuard(v * PAGE_SIZE + off, v * PAGE_SIZE + off + 4)
    ensures v == TRAP_VPN
  {
  }

  // ---- a kernel with one task ----

  // The tables of an empty space, in three frames in a row.
  ghost function ThreeTables(f: nat): Tables { map[Root := f, Mid(511) := f + 1, Leaf(511, 511) := f + 2] }

  ghost function ThreeHeld(owner: Owners, id: nat, f: nat): Owners {
    owner[f := Node(id, Root)][f + 1 := Node(id, Mid(511))][f + 2 := Node(id, Leaf(511, 511))]
  }

  lemma {:induction false} ThreeLevels(s: Store, id: nat, f: nat) returns (mem: Memory)
    requires f + 2 < PPNS && (forall g :: g in s.owner ==> s.owner[g].id != id)
    requires f !in s.owner && f + 1 !in s.owner && f + 2 !in s.owner
    ensures var s' := Store(mem, ThreeHeld(s.owner, id, f));
            && Tree(id, s', ThreeTables(f)) && View(mem, ThreeTables(f)) == map[] && Grown(id, s, s')
            && Holds([f, f + 1, f + 2], id, s'.owner)
  {
    hide Tree, View, Holds, Grown, ZeroPage, WithTable, Pte;
    var s1, t1 := Store(s.mem[f := ZeroPage()], s.owner[f := Node(id, Root)]), map[Root := f];
    FreshTree(id, s, f);
    var s2 := Store(WithTable(s1.mem, t1, Root, 511, f + 1), s1.owner[f + 1 := Node(id, Mid(511))]);
    var t2 := t1[Mid(511) := f + 1];
    NewTable(id, s1, t1, [f], Root, 511, f + 1);
    mem := WithTable(s2.mem, t2, Mid(511), 511, f + 2);
    NewTable(id, s2, t2, [f] + [f + 1], Mid(511), 511, f + 2);
    assert t2[Leaf(511, 511) := f + 2] == ThreeTables(f) && [f] + [f + 1] + [f + 2] == [f, f + 1, f + 2];
    GrownTransitive(id, s, s1, s2);
    GrownTransitive(id, s, s2, Store(mem, ThreeHeld(s.owner, id, f)));
  }

  // A space that maps the trampoline.
  lemma {:induction false} EmptyOne(s: Store, id: nat, f: nat, tramp: nat) returns (mem: Memory)
    requires f + 2 < PPNS && tramp < PPNS && (forall g :: g in s.owner ==> s.owner[g].id != id)
    requires f !in s.owner && f + 1 !in s.owner && f + 2 !in s.owner
    ensures var p, s' := Space(id, ThreeTables(f), [f, f + 1, f + 2], []), Store(mem, ThreeHeld(s.owner, id, f));
            LiveSpace(p, s', TrampolineEntry(tramp)) && Extended(id, s, s')
  {
    hide Tree, View, Holds, OwnsPages, Agrees, Pages, Extended, Grown, WithLeaf, Pte, ThreeHeld;
    var mem3 := ThreeLevels(s, id, f);
    var s3, t := Store(mem3, ThreeHeld(s.owner, id, f)), ThreeTables(f);
    LastLeaf();
    WriteTramp(id, s3, t, TrampolineEntry(tramp), tramp);
    mem := WithLeaf(mem3, t, TRAMPOLINE_VPN, TrampolineEntry(tramp));
    GrownTransitive(id, s, s3, Store(mem, s3.owner));
    EmptySpace(id, s, Store(mem, s3.owner), tramp);
    assert |t| == 3;
  }

  lemma {:induction false} LastLeaf()
    ensures LeafPath(TRAMPOLINE_VPN) == Leaf(511, 511) == LeafPath(TRAP_VPN)
  {
  }

  lemma {:induction false} WriteTramp(id: nat, s: Store, t: Tables, e: nat, tramp: nat)
    requires LeafPath(TRAMPOLINE_VPN) in t && View(s.mem, t) == map[] && e == TrampolineEntry(tramp) && Tree(id, s, t)
    ensures var s' := Store(WithLeaf(s.mem, t, TRAMPOLINE_VPN, e), s.owner);
            Tree(id, s', t) && View(s'.mem, t) == map[TRAMPOLINE_VPN := e] && Grown(id, s, s')
  {
    hide Tree, View;
    PteFlags(tramp, WithV(R + X));
    InSpace(TRAMPOLINE_VPN);
    LeafWriteKeepsTree(id, s, t, TRAMPOLINE_VPN, e);
    LeafWriteView(id, s, t, TRAMPOLINE_VPN, e);
    TableOwned(id, s, t, LeafPath(TRAMPOLINE_VPN));
  }

  function TrapArea(g: nat): MapArea { MapArea(TRAP_VPN, TRAMPOLINE_VPN, map[TRAP_VPN := g], Framed, R + W) }

  // The same space with a trap page in frame g.
  lemma {:induction false} WithTrap(p: Space, s: Store, tramp: nat, g: nat, page: Page) returns (mem: Memory)
    requires p.areas == [] && LeafPath(TRAP_VPN) in p.tables && g !in s.owner && g < PPNS && LiveSpace(p, s, tramp)
    ensures var p', s' := p.(areas := [TrapArea(g)]), Store(mem, s.owner[g := Data(p.id, TRAP_VPN)]);
            && LiveSpace(p', s', tramp) && At(mem, g) == page && Confined({p.id}, s, s')
            && TRAP_VPN in View(mem, p.tables) && View(mem, p.tables)[TRAP_VPN] == Entry(TrapArea(g), TRAP_VPN)
  {
    hide Tree, View, Holds, OwnsPages, Agrees, Pages, WithLeaf, Entry, TrapArea;
    var s1 := Store(s.mem[g := page], s.owner[g := Data(p.id, TRAP_VPN)]);
    assert SameTables(p.id, s, s1);
    TreeFrame(p.id, s, p.tables, s1);
    HoldsFrame(p.frames, p.id, s, s1);
    NoTrapYet(View(s.mem, p.tables), tramp);
    mem := WithLeaf(s1.mem, p.tables, TRAP_VPN, Entry(TrapArea(g), TRAP_VPN));
    TrapLeaf(p.id, s1, p.tables, g, page);
    TrapAgrees(View(s.mem, p.tables), tramp, g);
    TrapOwned(p.id, s.owner, g);
    var s2 := Store(mem, s1.owner);
    assert Confined({p.id}, s, s1);
    assert Confined({p.id}, s1, s2);
    assert Holds(p.frames, p.id, s2.owner);
  }

  lemma {:induction false} NoTrapYet(view: map<nat, nat>, tramp: nat)
    requires Agrees(view, [], tramp)
    ensures TRAP_VPN !in view
  {
  }

  // The leaf entry of the trap page.
  lemma {:induction false} TrapLeaf(id: nat, s: Store, t: Tables, g: nat, page: Page)
    requires LeafPath(TRAP_VPN) in t && g in s.owner && s.owner[g].Data? && At(s.mem, g) == page && Tree(id, s, t)
    ensures var e := Entry(TrapArea(g), TRAP_VPN); var mem := WithLeaf(s.mem, t, TRAP_VPN, e);
            && Tree(id, Store(mem, s.owner), t) && View(mem, t) == View(s.mem, t)[TRAP_VPN := e]
            && At(mem, g) == page && Confined({id}, s, Store(mem, s.owner))
  {
    hide Tree, View;
    var e := Entry(TrapArea(g), TRAP_VPN);
    PteFlags(g, WithV(R + W));
    InSpace(TRAP_VPN);
    LeafWriteKeepsTree(id, s, t, TRAP_VPN, e);
    LeafWriteView(id, s, t, TRAP_VPN, e);
    TableOwned(id, s, t, LeafPath(TRAP_VPN));
  }

  lemma {:induction false} TrapAgrees(view: map<nat, nat>, tramp: nat, g: nat)
    requires Agrees(view, [], tramp)
    ensures Agrees(view[TRAP_VPN := Entry(TrapArea(g), TRAP_VPN)], [TrapArea(g)], tramp)
    ensures Pages([TrapArea(g)]) == map[TRAP_VPN := g]
  {
    hide Entry;
    var a := TrapArea(g);
    PushOk(view, [], tramp, a);
    assert [] + [a] == [a];
    assert view + EntriesOf(a) == view[TRAP_VPN := Entry(a, TRAP_VPN)];
  }

  lemma {:induction false} TrapOwned(id: nat, owner: Owners, g: nat)
    requires OwnsPages(id, owner, Pages([])) && g !in owner && g < PPNS
    ensures OwnsPages(id, owner[g := Data(id, TRAP_VPN)], map[TRAP_VPN := g])
  {
  }

  // The kernel space in frames 10..12, the task's tables in 14..16, its trap page in 13; the trampoline is
  // frame 5.
  ghost function LoneStart(): TrapInit { AppStart(0, 0, Token(10), 0, 0) }

  ghost function LonePage(): Page { TrapPage(ZeroPage(), LoneStart(), Pids.StackTop(0)) }

  ghost function LoneTasks(): State { State(map[0 := Tcb(0, Ready, None, [], 0, 0, 0, 16, 0)], [0], None, 0, 1) }

  ghost function LoneOwners(): Owners { ThreeHeld(ThreeHeld(map[], 0, 10), 1, 14)[13 := Data(1, TRAP_VPN)] }

  ghost function LoneKernel(): Space { Space(0, ThreeTables(10), [10, 11, 12], []) }

  ghost function LoneSpace(): Space { Space(1, ThreeTables(14), [14, 15, 16], [TrapArea(13)]) }

  ghost function LoneWorld(mem: Memory): World {
    World(Store(mem, LoneOwners()), 0, LoneTasks(), LoneKernel(), map[0 := LoneSpace()], 2, TrampolineEntry(5),
          TrapEnv(Token(10), 0), 7)
  }

  lemma {:induction false} LoneSpaces() returns (mem: Memory)
    ensures LiveSpace(LoneKernel(), Store(mem, LoneOwners()), TrampolineEntry(5))
    ensures LiveSpace(LoneSpace(), Store(mem, LoneOwners()), TrampolineEntry(5)) && At(mem, 13) == LonePage()
    ensures TRAP_VPN in View(mem, ThreeTables(14))
    ensures View(mem, ThreeTables(14))[TRAP_VPN] == Entry(TrapArea(13), TRAP_VPN)
  {
    hide LiveSpace, View, Confined, Extended, Entry, TrapArea, TrampolineEntry, TrapPage;
    var s0 := Store(map[], map[]);
    var mem1 := EmptyOne(s0, 0, 10, 5);
    var s1 := Store(mem1, ThreeHeld(map[], 0, 10));
    var mem2 := EmptyOne(s1, 1, 14, 5);
    var s2 := Store(mem2, ThreeHeld(s1.owner, 1, 14));
    ExtendedConfines(1, s1, s2);
    KeepLive({1}, LoneKernel(), s1, s2, TrampolineEntry(5));
    LastLeaf();
    mem := WithTrap(LoneSpace().(areas := []), s2, TrampolineEntry(5), 13, LonePage());
    KeepLive({1}, LoneKernel(), s2, Store(mem, LoneOwners()), TrampolineEntry(5));
  }

  lemma {:induction false} LoneReady(mem: Memory)
    requires At(mem, 13) == LonePage() && TRAP_VPN in View(mem, ThreeTables(14))
    requires View(mem, ThreeTables(14))[TRAP_VPN] == Entry(TrapArea(13), TRAP_VPN)
    ensures TrapReady(LoneSpace(), Store(mem, LoneOwners()), TrapEnv(Token(10), 0), Pids.StackTop(0))
    ensures PpnOf(View(mem, ThreeTables(14))[TRAP_VPN]) == 13
  {
    hide View, Entry, TrapPage, TrapWords, ZeroPage, LoneOwners, PpnOf, FlagsOf, Stored;
    EntryFrame(TrapArea(13), TRAP_VPN);
    TokenRoundTrip(10);
    TrapPageStored(ZeroPage(), LoneStart(), Pids.StackTop(0));
    TrapPageSound(ZeroPage(), LonePage(), LoneStart(), TrapEnv(Token(10), 0), Pids.StackTop(0));
    assert LoneSpace().areas[0] == TrapArea(13);
  }

  lemma {:induction false} LoneHolds()
    ensures Holding(LoneKernel()) == 3 && Holding(LoneSpace()) == 4
  {
    assert |ThreeTables(10)| == 3 && |ThreeTables(14)| == 3;
    assert Weight([TrapArea(13)][..0]) == 0;
  }

  // One task, whose trap page lies right below its root page table.
  lemma {:induction false} Lone() returns (w: World)
    ensures WorldOk(w) && Page39(w, 0, TRAP_VPN, 13) && w.s.owner == LoneOwners() && w.s.owner[14] == Node(1, Root)
  {
    hide LiveSpace, View, Entry, TrapReady, Holding, Inv, LonePage, Pids.StackTop, TrampolineEntry;
    var mem := LoneSpaces();
    w := LoneWorld(mem);
    LoneReady(mem);
    LoneHolds();
    Lifecycle.StartGood(LoneTasks());
    FirstWorld(w, LoneSpace());
  }

  // At offset 4094 of that page the store runs into the root table: some code breaks the invariant.
  lemma {:induction false} SpillWitness() returns (w: World, code: int)
    ensures WorldOk(w) && Page39(w, 0, TRAP_VPN, 13) && !WorldOk(AfterStore(w, 13 * PAGE_SIZE + 4094, code))
  {
    hide WorldOk, AfterStore, Page39;
    w := Lone();
    code := SpillBreaks(w, 13, 4094);
  }

  // At offset 288 of the trap page the store changes where the next trap goes.
  lemma {:induction false} TrapWitness() returns (w: World, code: int)
    ensures WorldOk(w) && Page39(w, 0, TRAP_VPN, 13) && !WorldOk(AfterStore(w, 13 * PAGE_SIZE + 288, code))
  {
    hide WorldOk, AfterStore, Page39;
    w := Lone();
    code := TrapBreaks(w, 0, 13, 288);
  }
}
