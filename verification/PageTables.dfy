/** The three-level Sv39 page table (src/mm/page_table.rs).

    `Tree` is the representation invariant of a table stored in physical frames; `View` is
    the finite map it stands for, from page numbers below 2^27 to valid leaf entries. */
module PageTables {
  import opened Address
  import opened Frames
  import opened FrameAllocator

  type Tables = map<Path, nat>

  // ---- the tree ----

  predicate WellFormed(p: Path) {
    match p
    case Root => true
    case Mid(i) => i < 512
    case Leaf(i, j) => i < 512 && j < 512
  }

  // Entry i of interior table p: a pointer carrying V alone if the child exists, else invalid.
  ghost predicate Link(mem: Memory, t: Tables, p: Path, i: nat)
    requires p in t && !p.Leaf? && i < 512
  {
    var e := Word(At(mem, t[p]), i);
    if Child(p, i) in t then e == Pte(t[Child(p, i)], V) else !IsValid(e)
  }

  // Entry i of a leaf table: valid, or zero.  Nothing else is ever stored there.
  ghost predicate Blank(mem: Memory, t: Tables, p: Path, i: nat)
    requires p in t && i < 512
  {
    var e := Word(At(mem, t[p]), i);
    IsValid(e) || e == 0
  }

  // Each table of the tree sits in its own frame, whose tracker is in that very slot.
  ghost predicate Placed(id: nat, owner: Owners, t: Tables) {
    && (forall p :: p in t ==> t[p] < PPNS && t[p] in owner && owner[t[p]] == Node(id, p))
    && (forall f :: f in owner && owner[f].Node? && owner[f].id == id ==> owner[f].path in t && t[owner[f].path] == f)
  }

  ghost predicate Tree(id: nat, s: Store, t: Tables) {
    && Root in t
    && (forall p :: p in t ==> WellFormed(p) && (p.Leaf? ==> Mid(p.i) in t))
    && Placed(id, s.owner, t)
    && (forall p, i :: p in t && !p.Leaf? && 0 <= i < 512 ==> Link(s.mem, t, p, i))
    && (forall p, i :: p in t && p.Leaf? && 0 <= i < 512 ==> Blank(s.mem, t, p, i))
  }

  // ---- what it stands for ----

  function LeafWord(mem: Memory, t: Tables, vpn: nat): nat
    requires LeafPath(vpn) in t
  {
    Word(At(mem, t[LeafPath(vpn)]), Low(vpn))
  }

  ghost predicate Mapped(mem: Memory, t: Tables, vpn: nat) {
    LeafPath(vpn) in t && IsValid(LeafWord(mem, t, vpn))
  }

  ghost function View(mem: Memory, t: Tables): map<nat, nat> {
    map v | 0 <= v < VPNS && Mapped(mem, t, v) :: LeafWord(mem, t, v)
  }

  // PageTable::find_pte as a function of raw memory: it trusts whatever root it is given.
  function Walk(mem: Memory, root: nat, vpn: nat): Option<nat> {
    var e0 := Word(At(mem, root), Top(vpn));
    if !IsValid(e0) then None else
    var e1 := Word(At(mem, PpnOf(e0)), Second(vpn));
    if !IsValid(e1) then None else
    Some(Word(At(mem, PpnOf(e1)), Low(vpn)))
  }

  lemma {:induction false} TableOwned(id: nat, s: Store, t: Tables, p: Path)
    requires Tree(id, s, t) && p in t
    ensures t[p] in s.owner && s.owner[t[p]] == Node(id, p) && t[p] < PPNS
  {
  }

  lemma {:induction false} RootThere(id: nat, s: Store, t: Tables)
    requires Tree(id, s, t)
    ensures Root in t
    ensures forall p :: p in t && p.Leaf? ==> Mid(p.i) in t
  {
  }

  // Following entry i of an interior table leads to its child, and to a child only.
  lemma {:induction false} LinkAt(id: nat, s: Store, t: Tables, p: Path, i: nat)
    requires Tree(id, s, t) && p in t && !p.Leaf? && i < 512
    ensures IsValid(Word(At(s.mem, t[p]), i)) <==> Child(p, i) in t
    ensures Child(p, i) in t ==> PpnOf(Word(At(s.mem, t[p]), i)) == t[Child(p, i)]
    ensures Child(p, i) in t ==> Word(At(s.mem, t[p]), i) == Pte(t[Child(p, i)], V)
  {
    hide Word;
    assert Link(s.mem, t, p, i);
    if Child(p, i) in t {
      PteRoundTrip(t[Child(p, i)], V);
    }
  }

  // The walk is total on the tree: it finds the leaf word when the leaf table exists, valid or not.
  lemma {:induction false} WalkFindsLeaf(id: nat, s: Store, t: Tables, vpn: nat)
    requires Tree(id, s, t)
    ensures Walk(s.mem, t[Root], vpn) == if LeafPath(vpn) in t then Some(LeafWord(s.mem, t, vpn)) else None
  {
    hide Top, Second, Low, Tree, Word;
    RootThere(id, s, t);
    LinkAt(id, s, t, Root, Top(vpn));
    if Mid(Top(vpn)) in t {
      LinkAt(id, s, t, Mid(Top(vpn)), Second(vpn));
    }
  }

  // A page that translates without being mapped translates to an empty entry.
  lemma {:induction false} UnmappedIsZero(id: nat, s: Store, t: Tables, vpn: nat)
    requires Tree(id, s, t) && vpn % VPNS !in View(s.mem, t)
    ensures Walk(s.mem, t[Root], vpn) in {None, Some(0)}
  {
    hide Top, Second, Low, Word, Walk, View;
    WalkFindsLeaf(id, s, t, vpn);
    LeafInView(s.mem, t, vpn);
    if LeafPath(vpn) in t { assert Blank(s.mem, t, LeafPath(vpn), Low(vpn)); }
  }

  // The leaf word of any page number decides membership of its 27-bit remainder in the view.
  lemma {:induction false} LeafInView(mem: Memory, t: Tables, vpn: nat)
    ensures LeafPath(vpn) in t ==> (vpn % VPNS in View(mem, t) <==> IsValid(LeafWord(mem, t, vpn)))
    ensures vpn % VPNS in View(mem, t) ==> LeafPath(vpn) in t && View(mem, t)[vpn % VPNS] == LeafWord(mem, t, vpn)
  {
    hide Top, Second, Low, Word;
    Recompose(vpn);
  }

  // ---- the two writes ----

  // Only frames of this tree change, nothing is released, and new trackers go into its tables.
  ghost predicate Grown(id: nat, s: Store, s': Store) {
    && (forall f :: f in s.owner ==> f in s'.owner && s'.owner[f] == s.owner[f])
    && (forall f :: f in s'.owner && f !in s.owner ==> s'.owner[f].Node? && s'.owner[f].id == id)
    && (forall f :: At(s'.mem, f) == At(s.mem, f) || (f in s'.owner && s'.owner[f].Node? && s'.owner[f].id == id))
  }

  lemma {:induction false} GrownReflexive(id: nat, s: Store)
    ensures Grown(id, s, s)
  {
  }

  lemma {:induction false} GrownTransitive(id: nat, s: Store, s1: Store, s2: Store)
    requires Grown(id, s, s1) && Grown(id, s1, s2)
    ensures Grown(id, s, s2)
  {
  }

  // Memory after table p of the tree gets a fresh zeroed child at index i.
  function WithTable(mem: Memory, t: Tables, p: Path, i: nat, f: nat): Memory
    requires p in t && i < 512
  {
    mem[f := ZeroPage()][t[p] := SetWord(At(mem, t[p]), i, Pte(f, V))]
  }

  lemma {:induction false} NewTableKeepsTree(id: nat, s: Store, t: Tables, p: Path, i: nat, f: nat)
    requires Tree(id, s, t) && p in t && !p.Leaf? && i < 512 && Child(p, i) !in t
    requires f !in s.owner && f < PPNS
    ensures Tree(id, Store(WithTable(s.mem, t, p, i, f), s.owner[f := Node(id, Child(p, i))]), t[Child(p, i) := f])
  {
    var mem', t' := WithTable(s.mem, t, p, i, f), t[Child(p, i) := f];
    forall q, k | q in t' && !q.Leaf? && 0 <= k < 512 ensures Link(mem', t', q, k) {
      WordOfZeroPage(k);
      if q in t {
        assert Link(s.mem, t, q, k);
        WordAfterSet(At(s.mem, t[p]), i, Pte(f, V), k);
      }
    }
    forall q, k | q in t' && q.Leaf? && 0 <= k < 512 ensures Blank(mem', t', q, k) {
      WordOfZeroPage(k);
      if q in t { assert Blank(s.mem, t, q, k); }
    }
  }

  lemma {:induction false} NewTableAt(id: nat, s: Store, t: Tables, p: Path, i: nat, f: nat, v: nat)
    requires Tree(id, s, t) && p in t && !p.Leaf? && i < 512 && Child(p, i) !in t
    requires f !in s.owner && f < PPNS
    ensures Mapped(WithTable(s.mem, t, p, i, f), t[Child(p, i) := f], v) <==> Mapped(s.mem, t, v)
    ensures Mapped(s.mem, t, v) ==>
      LeafWord(WithTable(s.mem, t, p, i, f), t[Child(p, i) := f], v) == LeafWord(s.mem, t, v)
  {
    hide Top, Second, Low, Word;
    WordOfZeroPage(Low(v));
  }

  lemma {:induction false} NewTableKeepsView(id: nat, s: Store, t: Tables, p: Path, i: nat, f: nat)
    requires Tree(id, s, t) && p in t && !p.Leaf? && i < 512 && Child(p, i) !in t
    requires f !in s.owner && f < PPNS
    ensures View(WithTable(s.mem, t, p, i, f), t[Child(p, i) := f]) == View(s.mem, t)
  {
    hide Tree, LeafWord, Top, Second, Low, WithTable;
    var mem', t' := WithTable(s.mem, t, p, i, f), t[Child(p, i) := f];
    forall v | 0 <= v < VPNS ensures Mapped(mem', t', v) <==> Mapped(s.mem, t, v)
      ensures Mapped(s.mem, t, v) ==> LeafWord(mem', t', v) == LeafWord(s.mem, t, v)
    {
      NewTableAt(id, s, t, p, i, f, v);
    }
  }

  function WithLeaf(mem: Memory, t: Tables, vpn: nat, e: nat): Memory
    requires LeafPath(vpn) in t
  {
    mem[t[LeafPath(vpn)] := SetWord(At(mem, t[LeafPath(vpn)]), Low(vpn), e)]
  }

  lemma {:induction false} LeafWriteKeepsTree(id: nat, s: Store, t: Tables, vpn: nat, e: nat)
    requires Tree(id, s, t) && LeafPath(vpn) in t && e < WORD && (IsValid(e) || e == 0)
    ensures Tree(id, Store(WithLeaf(s.mem, t, vpn, e), s.owner), t)
  {
    hide Top, Second, Low, Word, SetWord;
    var mem' := WithLeaf(s.mem, t, vpn, e);
    forall q, k | q in t && !q.Leaf? && 0 <= k < 512 ensures Link(mem', t, q, k) {
      assert Link(s.mem, t, q, k);
    }
    forall q, k | q in t && q.Leaf? && 0 <= k < 512 ensures Blank(mem', t, q, k) {
      assert Blank(s.mem, t, q, k);
      WordAfterSet(At(s.mem, t[LeafPath(vpn)]), Low(vpn), e, k);
    }
  }

  lemma {:induction false} LeafWriteAt(id: nat, s: Store, t: Tables, vpn: nat, e: nat, v: nat)
    requires Tree(id, s, t) && LeafPath(vpn) in t && e < WORD && v < VPNS && LeafPath(v) in t
    ensures LeafWord(WithLeaf(s.mem, t, vpn, e), t, v) == if v == vpn % VPNS then e else LeafWord(s.mem, t, v)
  {
    Recompose(vpn);
    WordAfterSet(At(s.mem, t[LeafPath(vpn)]), Low(vpn), e, Low(v));
    if LeafPath(v) == LeafPath(vpn) && Low(v) == Low(vpn) {
      SameLeafSlot(v, vpn % VPNS);
    }
  }

  // Writing one leaf word changes the view at exactly one page number.
  lemma {:induction false} LeafWriteView(id: nat, s: Store, t: Tables, vpn: nat, e: nat)
    requires Tree(id, s, t) && LeafPath(vpn) in t && e < WORD
    ensures View(WithLeaf(s.mem, t, vpn, e), t)
         == if IsValid(e) then View(s.mem, t)[vpn % VPNS := e] else View(s.mem, t) - {vpn % VPNS}
  {
    Recompose(vpn);
    forall v | 0 <= v < VPNS && LeafPath(v) in t
      ensures LeafWord(WithLeaf(s.mem, t, vpn, e), t, v) == if v == vpn % VPNS then e else LeafWord(s.mem, t, v)
    {
      LeafWriteAt(id, s, t, vpn, e, v);
    }
    ViewUpdate(s.mem, WithLeaf(s.mem, t, vpn, e), t, vpn % VPNS, e);
  }

  lemma {:induction false} ViewUpdate(mem: Memory, mem': Memory, t: Tables, x: nat, e: nat)
    requires x < VPNS && LeafPath(x) in t
    requires forall v :: 0 <= v < VPNS && LeafPath(v) in t ==>
               LeafWord(mem', t, v) == if v == x then e else LeafWord(mem, t, v)
    ensures View(mem', t) == if IsValid(e) then View(mem, t)[x := e] else View(mem, t) - {x}
  {
    hide Top, Second, Low, Word;
  }

  // ---- framing ----

  // Another state that holds the same trackers in the same table slots, with the same bytes.
  ghost predicate SameTables(id: nat, s: Store, s': Store) {
    && (forall f :: f in s.owner && s.owner[f].Node? && s.owner[f].id == id ==>
          f in s'.owner && s'.owner[f] == s.owner[f] && At(s'.mem, f) == At(s.mem, f))
    && (forall f :: f in s'.owner && s'.owner[f].Node? && s'.owner[f].id == id ==>
        f in s.owner && s.owner[f] == s'.owner[f])
  }

  lemma {:induction false} TreeFrame(id: nat, s: Store, t: Tables, s': Store)
    requires Tree(id, s, t) && SameTables(id, s, s')
    ensures Tree(id, s', t) && View(s'.mem, t) == View(s.mem, t)
    ensures forall vpn :: Walk(s'.mem, t[Root], vpn) == Walk(s.mem, t[Root], vpn)
  {
    hide Top, Second, Low, Word, Walk, WellFormed;
    forall p, i | p in t && !p.Leaf? && 0 <= i < 512 ensures Link(s'.mem, t, p, i) {
      assert Link(s.mem, t, p, i);
    }
    forall p, i | p in t && p.Leaf? && 0 <= i < 512 ensures Blank(s'.mem, t, p, i) {
      assert Blank(s.mem, t, p, i);
    }
    forall vpn: nat ensures Walk(s'.mem, t[Root], vpn) == Walk(s.mem, t[Root], vpn) {
      WalkFindsLeaf(id, s, t, vpn);
      WalkFindsLeaf(id, s', t, vpn);
    }
  }

  // A zeroed frame is an empty table.
  lemma {:induction false} FreshTree(id: nat, s: Store, f: nat)
    requires f !in s.owner && f < PPNS && (forall g :: g in s.owner ==> s.owner[g].id != id)
    ensures var s', t := Store(s.mem[f := ZeroPage()], s.owner[f := Node(id, Root)]), map[Root := f];
            Tree(id, s', t) && View(s'.mem, t) == map[] && Holds([f], id, s'.owner) && Grown(id, s, s')
  {
    hide Top, Second, Low, Word, ZeroPage, LeafWord;
    var mem', t := s.mem[f := ZeroPage()], map[Root := f];
    forall i | 0 <= i < 512 ensures Link(mem', t, Root, i) {
      WordOfZeroPage(i);
    }
  }

  // ---- the table itself ----

  // How many tables find_pte_create still has to allocate on the way to `vpn`.
  ghost function Missing(t: Tables, vpn: nat): nat {
    if Mid(Top(vpn)) !in t then 2 else if LeafPath(vpn) !in t then 1 else 0
  }

  lemma {:induction false} AllPaths(id: nat, s: Store, t: Tables, vpn: nat)
    requires Tree(id, s, t) && LeafPath(vpn) in t
    ensures PathsOf(vpn) <= t.Keys
  {
    hide Top, Second, Word, Link, Blank;
  }

  // The tables on the way to `vpn`.
  ghost function PathsOf(vpn: nat): set<Path> { {Root, Mid(Top(vpn)), LeafPath(vpn)} }

  lemma {:induction false} MissingCount(id: nat, s: Store, t: Tables, vpn: nat)
    requires Tree(id, s, t)
    ensures |t.Keys + PathsOf(vpn)| == |t.Keys| + Missing(t, vpn)
  {
    hide Top, Second, Word, Link, Blank;
    var k := t.Keys;
    if Mid(Top(vpn)) !in t {
      assert k + PathsOf(vpn) == (k + {Mid(Top(vpn))}) + {LeafPath(vpn)};
    } else if LeafPath(vpn) !in t {
      assert k + PathsOf(vpn) == k + {LeafPath(vpn)};
    } else {
      assert k + PathsOf(vpn) == k;
    }
  }

  // `frames` holds the trackers of exactly this tree's tables, each once.
  ghost predicate Holds(frames: seq<nat>, id: nat, owner: Owners) {
    && (forall i, j :: 0 <= i < j < |frames| ==> frames[i] != frames[j])
    && (forall f :: f in frames <==> f in owner && owner[f].Node? && owner[f].id == id)
  }

  lemma {:induction false} NewTable(id: nat, s: Store, t: Tables, frames: seq<nat>, p: Path, i: nat, f: nat)
    requires Tree(id, s, t) && p in t && !p.Leaf? && i < 512 && Child(p, i) !in t
    requires f !in s.owner && f < PPNS && Holds(frames, id, s.owner)
    ensures var s', t' := Store(WithTable(s.mem, t, p, i, f), s.owner[f := Node(id, Child(p, i))]), t[Child(p, i) := f];
            && Tree(id, s', t') && View(s'.mem, t') == View(s.mem, t)
            && Grown(id, s, s') && Holds(frames + [f], id, s'.owner)
  {
    hide View, SetWord, Pte, Word;
    NewTableKeepsTree(id, s, t, p, i, f);
    NewTableKeepsView(id, s, t, p, i, f);
  }

  class PageTable {
    const m: Machine
    ghost const id: nat
    const root: nat
    var frames: seq<nat>
    ghost var tables: Tables

    ghost predicate Valid()
      reads this, m
    {
      && m.Valid()
      && Tree(id, m.S(), tables)
      && root == tables[Root]
      && Holds(frames, id, m.owner) && |frames| == |tables|
    }

    ghost function Map(): map<nat, nat>
      reads this, m
    {
      View(m.mem, tables)
    }

    constructor (m: Machine, ghost id: nat, f: nat)
      ensures this.m == m && this.id == id && root == f && frames == [f] && tables == map[Root := f]
    {
      this.m, this.id := m, id;
      root, frames, tables := f, [f], map[Root := f];
    }

    // Interior step of find_pte_create: hangs a fresh table below `p` at index i.
    method AddTable(ghost p: Path, ppn: nat, i: nat) returns (r: Option<nat>)
      requires Valid() && p in tables && !p.Leaf? && i < 512 && Child(p, i) !in tables && ppn == tables[p]
      modifies this, m
      ensures m.Valid() && (r.None? <==> old(m.Free()) == 0) && (r.None? ==> m.Free() == 0)
      ensures r.Some? ==> Valid() && m.Free() == old(m.Free()) - 1
      ensures r.Some? ==> tables == old(tables)[Child(p, i) := r.value] && Map() == old(Map())
      ensures r.Some? ==> |tables| == |old(tables)| + 1
      ensures r.Some? ==> Grown(id, old(m.S()), m.S())
    {
      hide Tree, View, SetWord, Pte, Grown, Holds, Machine.Valid, Machine.Free, ZeroPage;
      TableOwned(id, m.S(), tables, p);
      r := m.FrameAlloc(Node(id, Child(p, i)));
      if r.Some? {
        var f := r.value;
        NewTable(id, old(m.S()), tables, frames, p, i, f);
        m.Managed(ppn);
        m.Put(ppn, SetWord(At(m.mem, ppn), i, Pte(f, V)));
        assert m.mem == WithTable(old(m.mem), tables, p, i, f);
        frames := frames + [f];
        tables := tables[Child(p, i) := f];
      }
    }

    // PageTable::find_pte_create.  Returns the frame of the leaf table; the entry is its word
    // Low(vpn).  None is the panic of frame_alloc().unwrap(), hit exactly when fewer frames are
    // left than tables are missing.  The view is untouched either way a table is created.
    method FindPteCreate(vpn: nat) returns (r: Option<nat>)
      requires Valid()
      modifies this, m
      ensures m.Valid() && (r.None? <==> old(m.Free()) < Missing(old(tables), vpn))
      ensures r.None? ==> m.Free() == 0
      ensures r.Some? ==> Valid() && LeafPath(vpn) in tables && r.value == tables[LeafPath(vpn)]
      ensures r.Some? ==> Map() == old(Map()) && tables.Keys == old(tables).Keys + PathsOf(vpn)
      ensures r.Some? ==> m.Free() == old(m.Free()) - Missing(old(tables), vpn)
      ensures r.Some? ==> m.Free() + |tables| == old(m.Free() + |tables|)
      ensures Missing(old(tables), vpn) == 0 ==> tables == old(tables) && m.owner == old(m.owner) && m.mem == old(m.mem)
      ensures r.Some? ==> Grown(id, old(m.S()), m.S())
    {
      hide Top, Second, Low, Tree, View, Pte, Word, Grown, Holds, Machine.Valid, Machine.Free;
      var idxs := Indexes(vpn);
      var ppn := root;
      r := None;
      var i := 0;
      RootThere(id, m.S(), tables);
      GrownReflexive(id, m.S());
      while i < 3
        invariant 0 <= i <= 2
        invariant Valid() && WalkPath(vpn, i) in tables && ppn == tables[WalkPath(vpn, i)]
        invariant Map() == old(Map()) && old(tables).Keys <= tables.Keys <= old(tables).Keys + PathsOf(vpn)
        invariant m.Free() == old(m.Free()) - Missing(old(tables), vpn) + Missing(tables, vpn)
        invariant m.Free() + |tables| == old(m.Free() + |tables|)
        invariant Grown(id, old(m.S()), m.S())
        invariant Missing(old(tables), vpn) == 0 ==> tables == old(tables) && m.owner == old(m.owner)
        invariant Missing(old(tables), vpn) == 0 ==> m.mem == old(m.mem)
      {
        var pte := Word(At(m.mem, ppn), idxs[i]);
        RootThere(id, m.S(), tables);
        if i == 2 {
          r := Some(ppn);
          AllPaths(id, m.S(), tables, vpn);
          break;
        }
        ghost var p := WalkPath(vpn, i);
        LinkAt(id, m.S(), tables, p, idxs[i]);
        if !IsValid(pte) {
          ghost var s0 := m.S();
          var f := AddTable(p, ppn, idxs[i]);
          if f.None? {
            return None;
          }
          GrownTransitive(id, old(m.S()), s0, m.S());
          LinkAt(id, m.S(), tables, p, idxs[i]);
        }
        ppn := PpnOf(Word(At(m.mem, ppn), idxs[i]));
        i := i + 1;
      }
    }

    // The final store of map and unmap, through the entry find_pte_create found.
    method WriteLeaf(vpn: nat, f: nat, e: nat)
      requires Valid() && LeafPath(vpn) in tables && f == tables[LeafPath(vpn)] && e < WORD && (IsValid(e) || e == 0)
      modifies m`mem
      ensures Valid()
      ensures Map() == if IsValid(e) then old(Map())[vpn % VPNS := e] else old(Map()) - {vpn % VPNS}
      ensures Grown(id, old(m.S()), m.S())
    {
      hide Top, Second, Low, Tree, View, Word, SetWord, Holds, Machine.Valid;
      TableOwned(id, m.S(), tables, LeafPath(vpn));
      LeafWriteKeepsTree(id, m.S(), tables, vpn, e);
      LeafWriteView(id, m.S(), tables, vpn, e);
      m.Managed(f);
      m.Put(f, SetWord(At(m.mem, f), Low(vpn), e));
    }

    // PageTable::map adds exactly one entry, with V set; every other page number below 2^27
    // keeps its entry, also when interior tables had to be created.
    method MapPage(vpn: nat, ppn: nat, flags: nat) returns (o: Outcome)
      requires Valid() && flags < 256
      modifies this, m
      ensures m.Valid()
      ensures o == if old(m.Free()) < Missing(old(tables), vpn) then OutOfFrames
                   else if vpn % VPNS in old(Map()) then MappedBefore else Fine
      ensures o.OutOfFrames? ==> m.Free() == 0
      ensures o.Fine? ==> Valid() && Map() == old(Map())[vpn % VPNS := Pte(ppn, WithV(flags))]
      ensures o.Fine? ==> tables.Keys == old(tables).Keys + PathsOf(vpn)
      ensures o.Fine? ==> m.Free() == old(m.Free()) - Missing(old(tables), vpn)
      ensures o.Fine? ==> m.Free() + |tables| == old(m.Free() + |tables|)
      ensures o.Fine? ==> Grown(id, old(m.S()), m.S())
    {
      hide Top, Second, Low, Tree, View, Word, Pte, Grown, Holds, Missing, Machine.Valid, Machine.Free, PathsOf;
      var r := FindPteCreate(vpn);
      if r.None? {
        return OutOfFrames;
      }
      LeafInView(m.mem, tables, vpn);
      if IsValid(Word(At(m.mem, r.value), Low(vpn))) {
        return MappedBefore;
      }
      PteFlags(ppn, WithV(flags));
      ghost var s0 := m.S();
      WriteLeaf(vpn, r.value, Pte(ppn, WithV(flags)));
      GrownTransitive(id, old(m.S()), s0, m.S());
      return Fine;
    }

    // PageTable::unmap removes exactly one entry.  For a mapped page it allocates nothing.
    method UnmapPage(vpn: nat) returns (o: Outcome)
      requires Valid()
      modifies this, m
      ensures m.Valid()
      ensures o == if old(m.Free()) < Missing(old(tables), vpn) then OutOfFrames
                   else if vpn % VPNS in old(Map()) then Fine else NotMapped
      ensures vpn % VPNS in old(Map()) ==> o.Fine?
      ensures o.Fine? ==> Valid() && Map() == old(Map()) - {vpn % VPNS}
      ensures o.Fine? ==> m.Free() == old(m.Free()) && m.owner == old(m.owner) && tables == old(tables)
      ensures o.Fine? ==> Grown(id, old(m.S()), m.S())
    {
      hide Top, Second, Low, Tree, View, Word, Pte, Grown, Holds, Machine.Valid, Machine.Free;
      LeafInView(m.mem, tables, vpn);
      RootThere(id, m.S(), tables);
      var r := FindPteCreate(vpn);
      if r.None? {
        return OutOfFrames;
      }
      LeafInView(m.mem, tables, vpn);
      if !IsValid(Word(At(m.mem, r.value), Low(vpn))) {
        return NotMapped;
      }
      ghost var s0 := m.S();
      WriteLeaf(vpn, r.value, 0);
      GrownTransitive(id, old(m.S()), s0, m.S());
      return Fine;
    }
  }

  // PageTable::new; None is the panic of frame_alloc().unwrap().
  method NewPageTable(m: Machine, ghost id: nat) returns (r: Option<PageTable>)
    requires m.Valid() && forall f :: f in m.owner ==> m.owner[f].id != id
    modifies m
    ensures m.Valid() && (r.None? <==> old(m.Free()) == 0)
    ensures r.None? ==> m.Free() == 0
    ensures r.Some? ==> fresh(r.value) && r.value.m == m && r.value.id == id && r.value.Valid()
    ensures r.Some? ==> r.value.Map() == map[]
    ensures r.Some? ==> Grown(id, old(m.S()), m.S()) && m.Free() + |r.value.tables| == old(m.Free())
    ensures r.Some? ==> r.value.tables.Keys == {Root}
  {
    hide Tree, View, Grown, Holds, Machine.Valid, Machine.Free, ZeroPage;
    var f := m.FrameAlloc(Node(id, Root));
    if f.None? {
      return None;
    }
    FreshTree(id, old(m.S()), f.value);
    var pt := new PageTable(m, id, f.value);
    return Some(pt);
  }
}
