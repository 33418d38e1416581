/** Creating spaces and copying them for fork (src/mm/memory_set.rs:75-80, 328-334, 371-394). */
module Fork {
  import opened Address
  import opened Frames
  import opened FrameAllocator
  import opened PageTables
  import opened UserAccess
  import opened Areas
  import opened Layout
  import opened MemorySets

  // MemorySet::new_bare and map_trampoline.
  method NewSpace(m: Machine, ghost id: nat, trampoline: nat) returns (o: Outcome, r: Option<MemorySet>)
    requires m.Valid() && trampoline < m.base && forall f :: f in m.owner ==> m.owner[f].id != id
    modifies m
    ensures m.Valid() && o in {Fine, OutOfFrames} && (o.Fine? <==> r.Some?)
    ensures (o.OutOfFrames? <==> old(m.Free()) < 3) && (o.OutOfFrames? ==> m.Free() == 0)
    ensures r.Some? ==> fresh(r.value) && fresh(r.value.pt) && r.value.pt.m == m && r.value.pt.id == id
    ensures r.Some? ==> r.value.Live() && r.value.areas == [] && r.value.trampoline == trampoline
    ensures r.Some? ==> r.value.pt.tables.Keys == PathsOf(TRAMPOLINE_VPN)
    ensures r.Some? ==> r.value.Budget() == old(m.Free())
    ensures r.Some? ==> Extended(id, old(m.S()), m.S())
  {
    hide Tree, View, Holds, Extended, Grown, OwnsPages, Machine.Valid, Machine.Free, Pages, Weight, Agrees,
         TrampolineEntry, Top, Second;
    var p := NewPageTable(m, id);
    if p.None? {
      return OutOfFrames, None;
    }
    var pt := p.value;
    InSpace(TRAMPOLINE_VPN);
    ghost var s1 := m.S();
    o := pt.MapPage(TRAMPOLINE_VPN, trampoline, R + X);
    if !o.Fine? {
      return o, None;
    }
    GrownTransitive(id, old(m.S()), s1, m.S());
    var s := new MemorySet(pt, trampoline);
    EmptySpace(id, old(m.S()), m.S(), trampoline);
    return Fine, Some(s);
  }

  lemma {:induction false} EmptySpace(id: nat, s: Store, s': Store, trampoline: nat)
    requires Grown(id, s, s') && forall f :: f in s.owner ==> s.owner[f].id != id
    ensures Extended(id, s, s') && OwnsPages(id, s'.owner, Pages([])) && Weight([]) == 0
    ensures Agrees(map[TRAMPOLINE_VPN := Pte(trampoline, WithV(R + X))], [], TrampolineEntry(trampoline))
  {
  }

  // ---- copying one area ----

  // The first n pages of area b show what the same pages of area a showed in mem0; nothing else changed.
  ghost predicate Mirrors(a: MapArea, b: MapArea, n: nat, mem0: Memory, mem: Memory) {
    && (forall v :: a.start <= v < a.start + n && v in a.data && v in b.data ==>
        At(mem, b.data[v]) == At(mem0, a.data[v]))
    && (forall f :: At(mem, f) != At(mem0, f) ==>
        exists v :: a.start <= v < a.start + n && v in b.data && b.data[v] == f)
  }

  lemma {:induction false} MirrorNone(a: MapArea, b: MapArea, mem: Memory)
    ensures Mirrors(a, b, 0, mem, mem)
  {
  }

  lemma {:induction false} MirrorStep(idA: nat, idB: nat, owner: Owners, pa: map<nat, nat>, pb: map<nat, nat>,
                                      a: MapArea, b: MapArea, n: nat, mem0: Memory, mem: Memory)
    requires a.start + n in a.data && a.start + n in b.data && idA != idB
    requires forall v :: v in a.data ==> v in pa && pa[v] == a.data[v]
    requires forall v :: v in b.data ==> v in pb && pb[v] == b.data[v]
    requires OwnsPages(idA, owner, pa) && OwnsPages(idB, owner, pb) && Mirrors(a, b, n, mem0, mem)
    ensures var f, g := a.data[a.start + n], b.data[a.start + n]; Mirrors(a, b, n + 1, mem0, mem[g := At(mem, f)])
  {
    var f, g := a.data[a.start + n], b.data[a.start + n];
    DistinctData(idB, owner, pb, b);
    DistinctData(idA, owner, pa, a);
    hide OwnsPages;
    assert At(mem, f) == At(mem0, f);
    var mem' := mem[g := At(mem, f)];
    forall h | At(mem', h) != At(mem0, h)
      ensures exists v :: a.start <= v < a.start + n + 1 && v in b.data && b.data[v] == h {
      if h == g {
        assert b.data[a.start + n] == h;
      }
    }
  }

  // A space and a table built by the same machine stay valid when a data frame of another is stored.
  lemma {:induction false} OtherTableKept(id: nat, s: Store, t: Tables, frames: seq<nat>, g: nat, page: Page)
    requires g in s.owner && s.owner[g].Data? && Tree(id, s, t) && Holds(frames, id, s.owner)
    ensures Tree(id, s.(mem := s.mem[g := page]), t) && View(s.mem[g := page], t) == View(s.mem, t)
  {
    hide Tree, View;
    TreeFrame(id, s, t, s.(mem := s.mem[g := page]));
  }

  // One page of the inner loop of from_existed_user.
  method CopyOnePage(src: PageTable, dst: PageTable, a: MapArea, b: MapArea, vpn: nat, ghost pa: map<nat, nat>,
                     ghost pb: map<nat, nat>)
    requires src.m == dst.m && src.Valid() && dst.Valid()
    requires vpn in a.data && vpn in b.data && vpn < VPNS
    requires vpn in src.Map() && src.Map()[vpn] == Entry(a, vpn) && vpn in dst.Map() && dst.Map()[vpn] == Entry(b, vpn)
    requires forall v :: v in a.data ==> v in pa && pa[v] == a.data[v]
    requires forall v :: v in b.data ==> v in pb && pb[v] == b.data[v]
    requires OwnsPages(src.id, src.m.owner, pa) && OwnsPages(dst.id, src.m.owner, pb)
    modifies src.m`mem
    ensures src.Valid() && dst.Valid() && src.Map() == old(src.Map()) && dst.Map() == old(dst.Map())
    ensures src.m.mem == old(src.m.mem)[b.data[vpn] := At(old(src.m.mem), a.data[vpn])]
  {
    hide Tree, View, Holds, Walk, OwnsPages, Machine.Valid, PpnOf, Entry;
    var m := src.m;
    DistinctData(src.id, m.owner, pa, a);
    DistinctData(dst.id, m.owner, pb, b);
    WalkMapped(src.id, m.S(), src.tables, vpn);
    WalkMapped(dst.id, m.S(), dst.tables, vpn);
    EntryFrame(a, vpn);
    EntryFrame(b, vpn);
    var e := FindPte(m.mem, src.root, vpn);
    var g := FindPte(m.mem, dst.root, vpn);
    var page := At(m.mem, PpnOf(e.value));
    OtherTableKept(src.id, m.S(), src.tables, src.frames, PpnOf(g.value), page);
    StoreFrame(dst, PpnOf(g.value), page);
  }

  // The inner loop of from_existed_user.
  method CopyArea(src: PageTable, dst: PageTable, a: MapArea, b: MapArea, ghost pa: map<nat, nat>,
                  ghost pb: map<nat, nat>)
    requires src.m == dst.m && src.Valid() && dst.Valid() && src.id != dst.id
    requires a.start == b.start && a.end == b.end && a.kind.Framed? && b.kind.Framed? && AreaOk(a) && AreaOk(b)
    requires forall v :: a.start <= v < a.end ==> v in src.Map() && src.Map()[v] == Entry(a, v)
    requires forall v :: a.start <= v < a.end ==> v in dst.Map() && dst.Map()[v] == Entry(b, v)
    requires forall v :: v in a.data ==> v in pa && pa[v] == a.data[v]
    requires forall v :: v in b.data ==> v in pb && pb[v] == b.data[v]
    requires OwnsPages(src.id, src.m.owner, pa) && OwnsPages(dst.id, src.m.owner, pb)
    modifies src.m`mem
    ensures src.Valid() && dst.Valid() && src.Map() == old(src.Map()) && dst.Map() == old(dst.Map())
    ensures Mirrors(a, b, a.end - a.start, old(src.m.mem), src.m.mem)
  {
    hide Tree, View, Holds, OwnsPages, Machine.Valid, Entry, Mirrors;
    var v := a.start;
    MirrorNone(a, b, src.m.mem);
    while v != a.end
      invariant a.start <= v <= a.end && src.Valid() && dst.Valid()
      invariant src.Map() == old(src.Map()) && dst.Map() == old(dst.Map())
      invariant Mirrors(a, b, v - a.start, old(src.m.mem), src.m.mem)
      decreases a.end - v
    {
      MirrorStep(src.id, dst.id, src.m.owner, pa, pb, a, b, v - a.start, old(src.m.mem), src.m.mem);
      CopyOnePage(src, dst, a, b, v, pa, pb);
      v := v + 1;
    }
  }

  // ---- copying a space ----

  predicate Twin(a: MapArea, b: MapArea) {
    b.start == a.start && b.end == a.end && b.kind == a.kind && b.perm == a.perm
  }

  // Page for page, area b shows in mem what area a showed in mem0.
  ghost predicate Shows(a: MapArea, b: MapArea, mem0: Memory, mem: Memory) {
    forall v :: v in a.data && v in b.data ==> At(mem, b.data[v]) == At(mem0, a.data[v])
  }

  ghost predicate SameBytes(xs: seq<MapArea>, ys: seq<MapArea>, mem0: Memory, mem: Memory) {
    && |ys| <= |xs|
    && (forall i :: 0 <= i < |ys| ==> Twin(xs[i], ys[i]))
    && (forall i :: 0 <= i < |ys| ==> Shows(xs[i], ys[i], mem0, mem))
  }

  // What an operation of space `id` leaves of another space.
  lemma {:induction false} OthersKept(id: nat, other: nat, s: Store, s': Store, t: Tables, frames: seq<nat>,
                                      pages: map<nat, nat>)
    requires other != id && Extended(id, s, s')
    requires Tree(other, s, t) && Holds(frames, other, s.owner) && OwnsPages(other, s.owner, pages)
    ensures Tree(other, s', t) && Holds(frames, other, s'.owner) && OwnsPages(other, s'.owner, pages)
    ensures View(s'.mem, t) == View(s.mem, t)
    ensures forall f :: f in s.owner && s.owner[f].id == other ==> At(s'.mem, f) == At(s.mem, f)
  {
    hide Tree, View;
    assert SameTables(other, s, s');
    TreeFrame(other, s, t, s');
  }

  lemma {:induction false} AreaFrames(id: nat, owner: Owners, areas: seq<MapArea>, i: nat)
    requires i < |areas| && AllOk(areas) && Disjoint(areas) && OwnsPages(id, owner, Pages(areas))
    ensures forall v :: v in areas[i].data ==>
      areas[i].data[v] < PPNS && areas[i].data[v] in owner && owner[areas[i].data[v]] == Data(id, v)
  {
    hide Pages, AllOk, Disjoint;
    forall v | v in areas[i].data ensures v in Pages(areas) && Pages(areas)[v] == areas[i].data[v] {
      PagesHas(areas, i, v);
    }
  }

  // Pushing the next area keeps the bytes already copied.
  lemma {:induction false} BytesAfterPush(id: nat, xs: seq<MapArea>, ys: seq<MapArea>, mem0: Memory, s: Store,
                                          s': Store)
    requires |ys| < |xs| && AllOk(ys) && Disjoint(ys) && OwnsPages(id, s.owner, Pages(ys))
    requires SameBytes(xs, ys, mem0, s.mem) && Extended(id, s, s')
    ensures SameBytes(xs, ys, mem0, s'.mem)
  {
    hide OwnsPages, AllOk, Disjoint, Pages;
    forall i | 0 <= i < |ys| ensures Shows(xs[i], ys[i], mem0, s'.mem) {
      AreaFrames(id, s.owner, ys, i);
      assert Shows(xs[i], ys[i], mem0, s.mem);
    }
  }

  // Copying the pages of the last area completes its bytes and keeps the others.
  lemma {:induction false} BytesAfterCopy(id: nat, xs: seq<MapArea>, ys: seq<MapArea>, a: MapArea, b: MapArea,
                                          owner: Owners, mem0: Memory, mem1: Memory, mem2: Memory)
    requires |ys| < |xs| && a == xs[|ys|] && Twin(a, b) && AreaOk(a) && AllOk(ys + [b]) && Disjoint(ys + [b])
    requires forall v :: v in a.data ==> At(mem1, a.data[v]) == At(mem0, a.data[v])
    requires SameBytes(xs, ys, mem0, mem1) && Mirrors(a, b, a.end - a.start, mem1, mem2)
    requires OwnsPages(id, owner, Pages(ys + [b]))
    ensures SameBytes(xs, ys + [b], mem0, mem2)
  {
    hide OwnsPages, Pages, AllOk, Disjoint, Mirrors, AreaOk, Shows;
    AreaBounds(a);
    var bs := ys + [b];
    forall i | 0 <= i < |bs| ensures Shows(xs[i], bs[i], mem0, mem2) {
      if i < |ys| {
        EarlierAreaKept(id, xs[i], bs, owner, i, a, mem0, mem1, mem2);
      } else {
        LastAreaCopied(a, b, mem0, mem1, mem2);
      }
    }
  }

  lemma {:induction false} LastAreaCopied(a: MapArea, b: MapArea, mem0: Memory, mem1: Memory, mem2: Memory)
    requires AreaOk(a) && Mirrors(a, b, a.end - a.start, mem1, mem2)
    requires forall v :: v in a.data ==> At(mem1, a.data[v]) == At(mem0, a.data[v])
    ensures Shows(a, b, mem0, mem2)
  {
  }

  lemma {:induction false} EarlierAreaKept(id: nat, x: MapArea, bs: seq<MapArea>, owner: Owners, i: nat, a: MapArea,
                                           mem0: Memory, mem1: Memory, mem2: Memory)
    requires 0 <= i < |bs| - 1 && AllOk(bs) && Disjoint(bs) && a.start <= a.end && Shows(x, bs[i], mem0, mem1)
    requires OwnsPages(id, owner, Pages(bs)) && Mirrors(a, bs[|bs| - 1], a.end - a.start, mem1, mem2)
    ensures Shows(x, bs[i], mem0, mem2)
  {
    hide OwnsPages, Pages;
    AreaFrames(id, owner, bs, i);
    AreaFrames(id, owner, bs, |bs| - 1);
    assert Apart(bs[i], bs[|bs| - 1]) && AreaOk(bs[i]) && AreaOk(bs[|bs| - 1]);
  }

  // Stores into frames that are new since s keep the extension.
  lemma {:induction false} MirrorExtends(id: nat, s: Store, s1: Store, mem2: Memory, a: MapArea, b: MapArea, n: nat)
    requires Extended(id, s, s1) && Mirrors(a, b, n, s1.mem, mem2)
    requires forall v :: v in b.data ==> b.data[v] in s1.owner && s1.owner[b.data[v]].id == id && b.data[v] !in s.owner
    ensures Extended(id, s, s1.(mem := mem2))
  {
  }

  ghost predicate AllFramed(areas: seq<MapArea>) {
    forall i :: 0 <= i < |areas| ==> areas[i].kind.Framed?
  }

  // The first areas of the parent have twins with the same bytes, made of frames new since s0.
  ghost predicate Cloned(id: nat, xs: seq<MapArea>, ys: seq<MapArea>, s0: Store, s: Store) {
    && SameBytes(xs, ys, s0.mem, s.mem) && Extended(id, s0, s)
    && (forall f :: f in s0.owner ==> s0.owner[f].id != id)
  }

  // A twin of the parent's next area is unmapped in the child.
  lemma {:induction false} TwinUnmapped(view: map<nat, nat>, xs: seq<MapArea>, ys: seq<MapArea>, tramp: nat, v: nat)
    requires |ys| < |xs| && AllOk(xs) && Disjoint(xs) && (forall i :: 0 <= i < |ys| ==> Twin(xs[i], ys[i]))
    requires xs[|ys|].start <= v < xs[|ys|].end && Agrees(view, ys, tramp)
    ensures v !in view
  {
    hide Entries;
    assert AreaOk(xs[|ys|]);
    EntriesKeys(ys, v);
  }

  lemma {:induction false} PushTwin(id: nat, xs: seq<MapArea>, ys: seq<MapArea>, s0: Store, s: Store, s': Store)
    requires |ys| < |xs| && AllOk(ys) && Disjoint(ys) && OwnsPages(id, s.owner, Pages(ys))
    requires Cloned(id, xs, ys, s0, s) && Extended(id, s, s')
    ensures SameBytes(xs, ys, s0.mem, s'.mem) && Extended(id, s0, s')
  {
    hide OwnsPages, Pages, AllOk, Disjoint, Extended, SameBytes;
    BytesAfterPush(id, xs, ys, s0.mem, s, s');
    ExtendedTransitive(id, s0, s, s');
  }

  lemma {:induction false} CopyTwin(id: nat, parent: nat, xs: seq<MapArea>, ys: seq<MapArea>, a: MapArea, b: MapArea,
                                    s0: Store, s1: Store, mem2: Memory)
    requires |ys| < |xs| && a == xs[|ys|] && Twin(a, b) && AreaOk(a) && AllOk(ys + [b]) && Disjoint(ys + [b])
    requires parent != id
    requires SameBytes(xs, ys, s0.mem, s1.mem) && Mirrors(a, b, a.end - a.start, s1.mem, mem2)
    requires forall v :: v in a.data ==> a.data[v] in s1.owner && s1.owner[a.data[v]].id == parent
    requires OwnsPages(id, s1.owner, Pages(ys + [b])) && Extended(id, s0, s1)
    requires forall f :: f in s0.owner ==> s0.owner[f].id != id
    ensures Cloned(id, xs, ys + [b], s0, s1.(mem := mem2))
  {
    hide OwnsPages, Pages, AllOk, Disjoint, SameBytes, Mirrors;
    BytesAfterCopy(id, xs, ys, a, b, s1.owner, s0.mem, s1.mem, mem2);
    AreaFrames(id, s1.owner, ys + [b], |ys|);
    assert (ys + [b])[|ys|] == b;
    MirrorExtends(id, s0, s1, mem2, a, b, a.end - a.start);
  }

  lemma {:induction false} AgreesOk(view: map<nat, nat>, areas: seq<MapArea>, tramp: nat)
    requires Agrees(view, areas, tramp)
    ensures AllOk(areas) && Disjoint(areas)
  {
  }

  // The parent across an operation of the child.
  lemma {:induction false} ParentKept(id: nat, s: Store, s': Store, pid: nat, t: Tables, frames: seq<nat>,
                                      areas: seq<MapArea>, tramp: nat)
    requires pid != id && Extended(id, s, s') && SpaceOk(pid, s, t, frames, areas, tramp)
    ensures SpaceOk(pid, s', t, frames, areas, tramp) && View(s'.mem, t) == View(s.mem, t)
    ensures forall f :: f in s.owner && s.owner[f].id == pid ==> At(s'.mem, f) == At(s.mem, f)
  {
    hide Tree, View, Agrees, Extended, OwnsPages, Holds;
    OthersKept(id, pid, s, s', t, frames, Pages(areas));
  }

  // One area of from_existed_user: push its twin, then copy the pages.
  method CloneArea(user: MemorySet, child: MemorySet, a: MapArea, ghost s0: Store) returns (o: Outcome)
    requires user.pt.m == child.pt.m && user.pt.id != child.pt.id && child != user && child.pt != user.pt
    requires |child.areas| < |user.areas| && a == user.areas[|child.areas|] && a.kind.Framed?
    requires user.Live() && child.Live() && Cloned(child.pt.id, user.areas, child.areas, s0, user.pt.m.S())
    modifies child, child.pt, child.pt.m
    ensures child.pt.m.Valid() && o in {Fine, OutOfFrames} && a.start <= a.end
    ensures o.OutOfFrames? ==> child.pt.m.Free() == 0
    ensures o.OutOfFrames? ==> old(child.pt.m.Free()) < Takes(old(child.pt.tables).Keys, a, a.start, a.end)
    ensures o.Fine? ==> child.pt.tables.Keys == old(child.pt.tables).Keys + PathsIn(a.start, a.end)
    ensures o.Fine? ==> user.Live() && child.Live() && user.pt.Map() == old(user.pt.Map())
    ensures o.Fine? ==> child.Budget() == old(child.Budget())
    ensures o.Fine? ==> |child.areas| == |old(child.areas)| + 1
    ensures o.Fine? ==> Cloned(child.pt.id, user.areas, child.areas, s0, user.pt.m.S())
  {
    hide Tree, View, Holds, Extended, OwnsPages, Machine.Valid, Machine.Free, Agrees, Pages, Weight, TrampolineEntry,
         Mirrors, SameBytes, Entry, PathsIn;
    ghost var s1, ys, i := user.pt.m.S(), child.areas, |child.areas|;
    ghost var trampU, trampC := TrampolineEntry(user.trampoline), TrampolineEntry(child.trampoline);
    AreaInView(user.pt.Map(), user.areas, trampU, i);
    AreaBounds(a);
    o := child.Push(MapArea(a.start, a.end, map[], a.kind, a.perm), None);
    NeverMappedBefore(old(child.pt.Map()), user.areas, ys, trampC, old(user.pt.Map()), trampU, s0.mem, s1.mem);
    if !o.Fine? {
      return;
    }
    var b := child.areas[|child.areas| - 1];
    assert child.areas == ys + [b];
    ParentKept(child.pt.id, s1, user.pt.m.S(), user.pt.id, user.pt.tables, user.pt.frames, user.areas, trampU);
    ghost var s2 := user.pt.m.S();
    AgreesOk(user.pt.Map(), user.areas, trampU);
    AgreesOk(child.pt.Map(), child.areas, trampC);
    AgreesOk(old(child.pt.Map()), ys, trampC);
    PushTwin(child.pt.id, user.areas, ys, s0, s1, s2);
    AreaInView(child.pt.Map(), child.areas, trampC, i);
    AreaFrames(user.pt.id, user.pt.m.owner, user.areas, i);
    CopyArea(user.pt, child.pt, a, b, Pages(user.areas), Pages(child.areas));
    CopyTwin(child.pt.id, user.pt.id, user.areas, ys, a, b, s0, s2, user.pt.m.mem);
  }

  lemma {:induction false} NeverMappedBefore(view: map<nat, nat>, xs: seq<MapArea>, ys: seq<MapArea>, tramp: nat,
                                             viewU: map<nat, nat>, trampU: nat, mem0: Memory, mem: Memory)
    requires |ys| < |xs| && Agrees(view, ys, tramp) && Agrees(viewU, xs, trampU) && SameBytes(xs, ys, mem0, mem)
    ensures forall v :: xs[|ys|].start <= v < xs[|ys|].end ==> v !in view
  {
    forall v | xs[|ys|].start <= v < xs[|ys|].end ensures v !in view {
      hide Entries, Shows;
      TwinUnmapped(view, xs, ys, tramp, v);
    }
  }

  // MemorySet::from_existed_user.  The only panic is running out of frames.
  method FromExistedUser(user: MemorySet, ghost id: nat) returns (o: Outcome, r: Option<MemorySet>)
    requires user.Live() && AllFramed(user.areas) && forall f :: f in user.pt.m.owner ==> user.pt.m.owner[f].id != id
    modifies user.pt.m
    ensures user.pt.m.Valid() && o in {Fine, OutOfFrames} && (o.Fine? <==> r.Some?)
    ensures o.OutOfFrames? ==> user.pt.m.Free() == 0
    ensures o.OutOfFrames? <==> old(user.pt.m.Free()) < SpaceFrames(user.areas)
    ensures r.Some? ==> user.pt.m.Free() == old(user.pt.m.Free()) - SpaceFrames(user.areas)
    ensures r.Some? ==> fresh(r.value) && fresh(r.value.pt) && r.value.pt.m == user.pt.m
    ensures r.Some? ==> r.value.pt.id == id != user.pt.id
    ensures r.Some? ==> r.value.Live() && r.value.trampoline == user.trampoline && |r.value.areas| == |user.areas|
    ensures r.Some? ==> user.Live() && user.pt.Map() == old(user.pt.Map()) && r.value.Budget() == old(user.pt.m.Free())
    ensures r.Some? ==> Cloned(id, user.areas, r.value.areas, old(user.pt.m.S()), user.pt.m.S())
  {
    hide Tree, View, Holds, Extended, OwnsPages, Machine.Valid, Machine.Free, Agrees, Pages, Weight, TrampolineEntry,
         Cloned, TreeFor, PathsOf, PathsIn;
    ghost var s0 := user.pt.m.S();
    SpaceGrows(user.areas, 0);
    RootThere(user.pt.id, s0, user.pt.tables);
    TableOwned(user.pt.id, s0, user.pt.tables, Root);
    o, r := NewSpace(user.pt.m, id, user.trampoline);
    if r.None? {
      return;
    }
    var child := r.value;
    ParentKept(id, s0, user.pt.m.S(), user.pt.id, user.pt.tables, user.pt.frames, user.areas,
               TrampolineEntry(user.trampoline));
    NothingCloned(id, user.areas, s0, user.pt.m.S());
    var i := 0;
    while i < |user.areas|
      invariant 0 <= i <= |user.areas| && |child.areas| == i && user.Live() && child.Live()
      invariant user.pt.Map() == old(user.pt.Map()) && child.Budget() == old(user.pt.m.Free())
      invariant Cloned(id, user.areas, child.areas, s0, user.pt.m.S())
      invariant child.pt.tables.Keys == TreeFor(user.areas[..i])
    {
      TwinsWeigh(id, user.areas, child.areas, s0, user.pt.m.S());
      SpaceGrows(user.areas, i);
      o := CloneArea(user, child, user.areas[i], s0);
      if !o.Fine? {
        return o, None;
      }
      i := i + 1;
    }
    TwinsWeigh(id, user.areas, child.areas, s0, user.pt.m.S());
    assert user.areas[..i] == user.areas;
    return Fine, Some(child);
  }

  // The tables of a space with these areas, and all its frames.
  ghost function TreeFor(xs: seq<MapArea>): set<Path> {
    if xs == [] then PathsOf(TRAMPOLINE_VPN)
    else var a := xs[|xs| - 1]; TreeFor(xs[..|xs| - 1]) + PathsIn(a.start, a.end)
  }

  ghost function SpaceFrames(xs: seq<MapArea>): nat { |TreeFor(xs)| + Weight(xs) }

  lemma {:induction false} TreeGrows(xs: seq<MapArea>, i: nat)
    requires i <= |xs|
    ensures TreeFor(xs[..i]) <= TreeFor(xs) && Weight(xs[..i]) <= Weight(xs)
  {
    hide PathsOf, PathsIn;
    if i < |xs| {
      var n := |xs| - 1;
      TreeGrows(xs[..n], i);
      assert xs[..n][..i] == xs[..i];
    } else {
      assert xs[..i] == xs;
    }
  }

  // Three frames come first, then those of each area; together they are those of the space.
  lemma {:induction false} SpaceGrows(xs: seq<MapArea>, i: nat)
    requires i <= |xs|
    ensures SpaceFrames(xs[..i]) <= SpaceFrames(xs) && TreeFor(xs[..0]) == PathsOf(TRAMPOLINE_VPN)
    ensures 3 <= SpaceFrames(xs)
    ensures i < |xs| && xs[i].start <= xs[i].end ==>
      && TreeFor(xs[..i + 1]) == TreeFor(xs[..i]) + PathsIn(xs[i].start, xs[i].end)
      && SpaceFrames(xs[..i]) + Takes(TreeFor(xs[..i]), xs[i], xs[i].start, xs[i].end) <= SpaceFrames(xs)
  {
    hide PathsIn;
    TreeGrows(xs, i);
    CardMono(TreeFor(xs[..i]), TreeFor(xs));
    TreeGrows(xs, 0);
    CardMono(TreeFor(xs[..0]), TreeFor(xs));
    assert |PathsOf(TRAMPOLINE_VPN)| == 3;
    if i < |xs| {
      TreeGrows(xs, i + 1);
      CardMono(TreeFor(xs[..i + 1]), TreeFor(xs));
      assert xs[..i + 1][..i] == xs[..i];
    }
  }

  // A space under construction that follows a list of areas to come.
  ghost predicate OnPlan(ms: MemorySet, plan: seq<MapArea>)
    reads ms, ms.pt
  {
    && |ms.areas| <= |plan| && ms.pt.tables.Keys == TreeFor(plan[..|ms.areas|])
    && Weight(ms.areas) == Weight(plan[..|ms.areas|])
  }

  // The next area is there.
  lemma {:induction false} PlanNext(plan: seq<MapArea>, xs: seq<MapArea>, ys: seq<MapArea>, paths: set<Path>)
    requires |ys| == |xs| + 1 <= |plan| && ys[..|xs|] == xs && paths == TreeFor(plan[..|xs|])
    requires Weight(xs) == Weight(plan[..|xs|]) && ys[|xs|] == plan[|xs|].(data := ys[|xs|].data)
    ensures TreeFor(plan[..|ys|]) == paths + PathsIn(plan[|xs|].start, plan[|xs|].end)
    ensures Weight(ys) == Weight(plan[..|ys|])
  {
    hide PathsIn, PathsOf;
    assert plan[..|ys|][..|xs|] == plan[..|xs|] && ys[..|ys| - 1] == xs;
  }

  // Too few frames for the next area are too few for the plan.
  lemma {:induction false} PlanShort(plan: seq<MapArea>, xs: seq<MapArea>, paths: set<Path>, free: nat)
    requires |xs| < |plan| && paths == TreeFor(plan[..|xs|]) && Weight(xs) == Weight(plan[..|xs|])
    requires var a := plan[|xs|]; a.start <= a.end && free < Takes(paths, a, a.start, a.end)
    ensures free + |paths| + Weight(xs) < SpaceFrames(plan)
  {
    hide TreeFor, Takes;
    SpaceGrows(plan, |xs|);
  }

  lemma {:induction false} PlanStarts(plan: seq<MapArea>)
    ensures TreeFor(plan[..0]) == PathsOf(TRAMPOLINE_VPN) && Weight(plan[..0]) == 0 && 3 <= SpaceFrames(plan)
  {
    hide PathsOf;
    SpaceGrows(plan, 0);
  }

  lemma {:induction false} TwinsWeigh(id: nat, xs: seq<MapArea>, ys: seq<MapArea>, s0: Store, s: Store)
    requires Cloned(id, xs, ys, s0, s)
    ensures |ys| <= |xs| && Weight(ys) == Weight(xs[..|ys|])
  {
    hide Extended, Shows;
    if ys != [] {
      var n := |ys| - 1;
      assert Twin(xs[n], ys[n]);
      TwinsWeigh(id, xs, ys[..n], s0, s);
      assert xs[..n + 1][..n] == xs[..n];
    }
  }

  lemma {:induction false} NothingCloned(id: nat, xs: seq<MapArea>, s0: Store, s: Store)
    requires Extended(id, s0, s) && forall f :: f in s0.owner ==> s0.owner[f].id != id
    ensures Cloned(id, xs, [], s0, s)
  {
  }

  // ---- what fork gives the child ----

  // The child maps the same pages with the same flags, shows the same bytes, and does so in
  // frames nobody held before; nothing the parent (or anyone else) held has changed.
  lemma {:induction false} ForkIsExactCopy(id: nat, parent: nat, xs: seq<MapArea>, ys: seq<MapArea>,
                                           viewU: map<nat, nat>, viewC: map<nat, nat>,
                        tramp: nat, s0: Store, s: Store, v: nat)
    requires |xs| == |ys| && Agrees(viewU, xs, tramp) && Agrees(viewC, ys, tramp) && AllFramed(xs) && parent != id
    requires OwnsPages(parent, s0.owner, Pages(xs)) && OwnsPages(id, s.owner, Pages(ys)) && Cloned(id, xs, ys, s0, s)
    ensures v in viewC <==> v in viewU
    ensures v in viewU ==> FlagsOf(viewC[v]) == FlagsOf(viewU[v])
    ensures v in viewU && v != TRAMPOLINE_VPN ==>
      && At(s.mem, PpnOf(viewC[v])) == At(s0.mem, PpnOf(viewU[v]))
      && PpnOf(viewC[v]) !in s0.owner && PpnOf(viewU[v]) in s0.owner
    ensures forall f :: f in s0.owner ==> f in s.owner && s.owner[f] == s0.owner[f] && At(s.mem, f) == At(s0.mem, f)
  {
    hide Entries, Pages, OwnsPages, Entry, FlagsOf, PpnOf;
    EntriesKeys(xs, v);
    EntriesKeys(ys, v);
    if v in viewU && v != TRAMPOLINE_VPN {
      var i :| 0 <= i < |xs| && xs[i].start <= v < xs[i].end;
      CopiedPage(id, parent, xs, ys, viewU, viewC, tramp, s0, s, v, i);
    } else if v in viewC && v != TRAMPOLINE_VPN {
      var i :| 0 <= i < |ys| && ys[i].start <= v < ys[i].end;
      CopiedPage(id, parent, xs, ys, viewU, viewC, tramp, s0, s, v, i);
    }
  }

  lemma {:induction false} CopiedPage(id: nat, parent: nat, xs: seq<MapArea>, ys: seq<MapArea>, viewU: map<nat, nat>,
                                      viewC: map<nat, nat>,
                   tramp: nat, s0: Store, s: Store, v: nat, i: nat)
    requires i < |xs| == |ys| && xs[i].start <= v < xs[i].end && AllFramed(xs) && parent != id
    requires Agrees(viewU, xs, tramp) && Agrees(viewC, ys, tramp)
    requires OwnsPages(parent, s0.owner, Pages(xs)) && OwnsPages(id, s.owner, Pages(ys)) && Cloned(id, xs, ys, s0, s)
    ensures v in viewU && v in viewC && FlagsOf(viewC[v]) == FlagsOf(viewU[v])
    ensures At(s.mem, PpnOf(viewC[v])) == At(s0.mem, PpnOf(viewU[v])) && PpnOf(viewC[v]) !in s0.owner
    ensures PpnOf(viewU[v]) in s0.owner
  {
    hide Entries, Pages, OwnsPages, Entry, FlagsOf, PpnOf, WithV;
    assert Twin(xs[i], ys[i]) && Shows(xs[i], ys[i], s0.mem, s.mem);
    AreaInView(viewU, xs, tramp, i);
    AreaInView(viewC, ys, tramp, i);
    AreaFrames(parent, s0.owner, xs, i);
    AreaFrames(id, s.owner, ys, i);
    EntryFrame(xs[i], v);
    EntryFrame(ys[i], v);
  }

  // Isolation: no page of the child shares its frame with a page of the parent, except the trampoline.
  lemma {:induction false} ForkIsolates(id: nat, parent: nat, xs: seq<MapArea>, ys: seq<MapArea>, viewU: map<nat, nat>,
                                        viewC: map<nat, nat>,
                     tramp: nat, s0: Store, s: Store, v: nat, w: nat, page: Page)
    requires |xs| == |ys| && Agrees(viewU, xs, tramp) && Agrees(viewC, ys, tramp) && AllFramed(xs) && parent != id
    requires OwnsPages(parent, s0.owner, Pages(xs)) && OwnsPages(id, s.owner, Pages(ys)) && Cloned(id, xs, ys, s0, s)
    requires v in viewC && v != TRAMPOLINE_VPN && w in viewU && w != TRAMPOLINE_VPN
    ensures At(s.mem[PpnOf(viewC[v]) := page], PpnOf(viewU[w])) == At(s.mem, PpnOf(viewU[w]))
    ensures At(s.mem[PpnOf(viewU[w]) := page], PpnOf(viewC[v])) == At(s.mem, PpnOf(viewC[v]))
  {
    hide Agrees, Pages, OwnsPages, Cloned, FlagsOf, PpnOf;
    ForkIsExactCopy(id, parent, xs, ys, viewU, viewC, tramp, s0, s, v);
    ForkIsExactCopy(id, parent, xs, ys, viewU, viewC, tramp, s0, s, w);
  }
}
