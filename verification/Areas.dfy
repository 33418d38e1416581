/** A contiguous area of an address space and the loops that map and unmap its pages
    (src/mm/memory_set.rs:36-51, 425-588). */
module Areas {
  import opened Address
  import opened Frames
  import opened FrameAllocator
  import opened PageTables
  import opened UserAccess

  datatype MapType = Identical | Framed

  // MapPermission, as bits of an entry.
  type Perm = p: nat | p < 256

  // `data` holds the frame trackers of a framed area, by page number.
  datatype MapArea = MapArea(start: nat, end: nat, data: map<nat, nat>, kind: MapType, perm: Perm)

  ghost predicate AreaOk(a: MapArea) {
    && a.start <= a.end <= TRAMPOLINE_VPN
    && (forall v :: v in a.data <==> a.kind.Framed? && a.start <= v < a.end)
  }

  // What the page table must hold for page v of the area.
  function Entry(a: MapArea, v: nat): nat {
    Pte(if v in a.data then a.data[v] else v, WithV(a.perm))
  }

  ghost function EntriesIn(a: MapArea, lo: nat, hi: nat): map<nat, nat> {
    map v | lo <= v < hi :: Entry(a, v)
  }

  // Data frames that n pages of the area take.
  function Cost(a: MapArea, n: nat): nat { if a.kind.Framed? then n else 0 }

  // ---- how many frames a run of pages takes ----

  // The tables on the way to the pages [lo, hi).
  ghost function PathsIn(lo: nat, hi: nat): set<Path> {
    if hi <= lo then {} else PathsIn(lo, hi - 1) + PathsOf(hi - 1)
  }

  // What mapping [lo, hi) as part of area a takes, in a tree with these tables.
  ghost function Takes(paths: set<Path>, a: MapArea, lo: nat, hi: nat): int
    requires lo <= hi
  {
    |paths + PathsIn(lo, hi)| - |paths| + Cost(a, hi - lo)
  }

  lemma {:induction false} PathsGrow(lo: nat, v: nat, hi: nat)
    requires v <= hi
    ensures PathsIn(lo, v) <= PathsIn(lo, hi)
    decreases hi
  {
    hide PathsOf;
    if v < hi { PathsGrow(lo, v, hi - 1); }
  }

  lemma {:induction false} CardMono<T>(a: set<T>, b: set<T>)
    requires a <= b
    ensures |a| <= |b|
  {
    assert b == a + (b - a);
  }

  // No page takes more than three frames.
  lemma {:induction false} ThreePerPage(paths: set<Path>, a: MapArea, lo: nat, hi: nat)
    requires Root in paths && lo <= hi
    ensures Cost(a, hi - lo) <= Takes(paths, a, lo, hi) <= 3 * (hi - lo)
  {
    CardMono(paths, paths + PathsIn(lo, hi));
    TwoPerPage(paths, lo, hi);
  }

  lemma {:induction false} TwoPerPage(paths: set<Path>, lo: nat, hi: nat)
    requires Root in paths && lo <= hi
    ensures |paths + PathsIn(lo, hi)| <= |paths| + 2 * (hi - lo)
    decreases hi
  {
    if lo < hi {
      TwoPerPage(paths, lo, hi - 1);
      var q := paths + PathsIn(lo, hi - 1);
      assert paths + PathsIn(lo, hi) == (q + {Mid(Top(hi - 1))}) + {LeafPath(hi - 1)};
    } else {
      assert paths + PathsIn(lo, hi) == paths;
    }
  }

  // Running out on page v: the whole run takes more than there was.
  lemma {:induction false} RanOut(paths: set<Path>, a: MapArea, lo: nat, v: nat, hi: nat)
    requires lo <= v < hi
    ensures |(paths + PathsIn(lo, v)) + PathsOf(v)| - |paths| + Cost(a, v + 1 - lo) <= Takes(paths, a, lo, hi)
  {
    hide PathsOf;
    PathsGrow(lo, v + 1, hi);
    assert (paths + PathsIn(lo, v)) + PathsOf(v) == paths + PathsIn(lo, v + 1);
    CardMono(paths + PathsIn(lo, v + 1), paths + PathsIn(lo, hi));
  }

  // ---- who holds the data frames of space `id` ----

  ghost predicate OwnsPages(id: nat, owner: Owners, pages: map<nat, nat>) {
    && (forall v :: v in pages ==> pages[v] < PPNS && pages[v] in owner && owner[pages[v]] == Data(id, v))
    && (forall f :: f in owner && owner[f].Data? && owner[f].id == id ==>
        owner[f].vpn in pages && pages[owner[f].vpn] == f)
  }

  // Frames only come in: new trackers belong to space `id`, and only its tables and the new
  // frames are written.
  ghost predicate Extended(id: nat, s: Store, s': Store) {
    && (forall f :: f in s.owner ==> f in s'.owner && s'.owner[f] == s.owner[f])
    && (forall f :: f in s'.owner && f !in s.owner ==> s'.owner[f].id == id)
    && (forall f :: At(s'.mem, f) != At(s.mem, f) ==>
        f in s'.owner && s'.owner[f].id == id && (f !in s.owner || s'.owner[f].Node?))
  }

  // Frames only go back: no tracker moves, and only tables of space `id` are written.
  ghost predicate Released(id: nat, s: Store, s': Store) {
    && (forall f :: f in s'.owner ==> f in s.owner && s'.owner[f] == s.owner[f])
    && (forall f :: f in s.owner && f !in s'.owner ==> s.owner[f].id == id)
    && (forall f :: At(s'.mem, f) == At(s.mem, f) || (f in s.owner && s.owner[f].id == id && s.owner[f].Node?))
  }

  lemma {:induction false} ExtendedTransitive(id: nat, s: Store, s1: Store, s2: Store)
    requires Extended(id, s, s1) && Extended(id, s1, s2)
    ensures Extended(id, s, s2)
  {
  }

  lemma {:induction false} ReleasedTransitive(id: nat, s: Store, s1: Store, s2: Store)
    requires Released(id, s, s1) && Released(id, s1, s2)
    ensures Released(id, s, s2)
  {
  }

  lemma {:induction false} Reflexive(id: nat, s: Store)
    ensures Extended(id, s, s) && Released(id, s, s)
  {
  }

  lemma {:induction false} GrownExtends(id: nat, s: Store, s': Store, pages: map<nat, nat>)
    requires Grown(id, s, s') && OwnsPages(id, s.owner, pages)
    ensures Extended(id, s, s') && OwnsPages(id, s'.owner, pages)
    ensures forall v :: v in pages ==> At(s'.mem, pages[v]) == At(s.mem, pages[v])
  {
  }

  // ---- one page ----

  lemma {:induction false} NewPage(id: nat, s: Store, pages: map<nat, nat>, v: nat, f: nat)
    requires OwnsPages(id, s.owner, pages) && v !in pages && f !in s.owner && f < PPNS
    ensures var s' := Store(s.mem[f := ZeroPage()], s.owner[f := Data(id, v)]);
            OwnsPages(id, s'.owner, pages[v := f]) && Extended(id, s, s')
  {
  }

  lemma {:induction false} NewFrameKeepsTables(id: nat, s: Store, v: nat, f: nat)
    requires f !in s.owner
    ensures SameTables(id, s, Store(s.mem[f := ZeroPage()], s.owner[f := Data(id, v)]))
  {
  }

  // The part of a framed area's trackers that is new since `before`: zeroed pages at [lo, hi).
  ghost predicate FreshPages(a: MapArea, lo: nat, hi: nat, mem: Memory) {
    a.kind.Framed? ==> forall v :: lo <= v < hi ==> v in a.data && At(mem, a.data[v]) == ZeroPage()
  }

  lemma {:induction false} InSpace(v: nat)
    requires v < VPNS
    ensures v % VPNS == v
  {
  }

  // MapArea::map_one.
  method MapOne(pt: PageTable, a: MapArea, vpn: nat, ghost pages: map<nat, nat>) returns (o: Outcome, b: MapArea)
    requires pt.Valid() && vpn < VPNS && vpn !in a.data
    requires OwnsPages(pt.id, pt.m.owner, pages) && pages.Keys <= pt.Map().Keys
    modifies pt, pt.m
    ensures pt.m.Valid() && b == a.(data := b.data)
    ensures o in {Fine, OutOfFrames, MappedBefore} && (o.OutOfFrames? ==> pt.m.Free() == 0)
    ensures o.OutOfFrames? <==> old(pt.m.Free()) < Cost(a, 1) + Missing(old(pt.tables), vpn)
    ensures o.Fine? ==> pt.tables.Keys == old(pt.tables).Keys + PathsOf(vpn)
    ensures vpn in old(pt.Map()) ==> !o.Fine?
    ensures o.MappedBefore? ==> vpn in old(pt.Map())
    ensures o.Fine? ==> pt.Valid() && pt.Map() == old(pt.Map())[vpn := Entry(b, vpn)]
    ensures o.Fine? && a.kind.Identical? ==> b == a && OwnsPages(pt.id, pt.m.owner, pages)
    ensures o.Fine? && a.kind.Framed? ==> vpn in b.data && b.data == a.data[vpn := b.data[vpn]]
    ensures o.Fine? && a.kind.Framed? ==> OwnsPages(pt.id, pt.m.owner, pages[vpn := b.data[vpn]])
    ensures o.Fine? && a.kind.Framed? ==> At(pt.m.mem, b.data[vpn]) == ZeroPage()
    ensures o.Fine? ==> pt.m.Free() + |pt.tables| + Cost(a, 1) == old(pt.m.Free() + |pt.tables|)
    ensures o.Fine? ==> Extended(pt.id, old(pt.m.S()), pt.m.S())
  {
    hide Tree, View, Holds, Grown, Extended, OwnsPages, SameTables, Machine.Valid, Machine.Free, Missing, ZeroPage,
         WithV, Pte, PathsOf;
    b := a;
    var m := pt.m;
    var ppn := vpn;
    InSpace(vpn);
    ghost var p := pages;
    Reflexive(pt.id, m.S());
    if a.kind.Framed? {
      var r := m.FrameAlloc(Data(pt.id, vpn));
      if r.None? {
        return OutOfFrames, b;
      }
      ppn := r.value;
      NewFrameKeepsTables(pt.id, old(m.S()), vpn, ppn);
      TreeFrame(pt.id, old(m.S()), pt.tables, m.S());
      HoldsFrame(pt.frames, pt.id, old(m.S()), m.S());
      b := b.(data := b.data[vpn := ppn]);
      p := p[vpn := ppn];
    }
    ghost var s1 := m.S();
    o := pt.MapPage(vpn, ppn, a.perm);
    if o.Fine? {
      if a.kind.Framed? {
        NewPage(pt.id, old(m.S()), pages, vpn, ppn);
      }
      GrownExtends(pt.id, s1, m.S(), p);
      ExtendedTransitive(pt.id, old(m.S()), s1, m.S());
    }
  }

  lemma {:induction false} HoldsFrame(frames: seq<nat>, id: nat, s: Store, s': Store)
    requires Holds(frames, id, s.owner) && SameTables(id, s, s')
    ensures Holds(frames, id, s'.owner)
  {
  }

  // ---- a run of pages ----

  // The trackers of area b at or above page lo.
  ghost function PagesFrom(b: MapArea, lo: nat): map<nat, nat> {
    map v | v in b.data && lo <= v :: b.data[v]
  }

  // Pages [lo, v) of area a have been mapped, turning it into b and the view0 of the table into view.
  ghost predicate MappedUpTo(id: nat, a: MapArea, b: MapArea, lo: nat, v: nat, pages: map<nat, nat>,
                             view0: map<nat, nat>, view: map<nat, nat>, s: Store)
  {
    && b == a.(data := b.data)
    && (forall k :: k in b.data <==> k in a.data || (a.kind.Framed? && lo <= k < v))
    && (forall k :: k in a.data ==> b.data[k] == a.data[k])
    && (forall k :: lo <= k < v ==> k !in view0)
    && view == view0 + EntriesIn(b, lo, v)
    && OwnsPages(id, s.owner, pages + PagesFrom(b, lo))
    && FreshPages(b, lo, v, s.mem)
  }

  lemma {:induction false} MappedNone(id: nat, a: MapArea, lo: nat, pages: map<nat, nat>, view: map<nat, nat>, s: Store)
    requires OwnsPages(id, s.owner, pages) && (forall k :: k in a.data ==> k < lo)
    ensures MappedUpTo(id, a, a, lo, lo, pages, view, view, s)
  {
    assert pages + PagesFrom(a, lo) == pages;
    assert view + EntriesIn(a, lo, lo) == view;
  }

  lemma {:induction false} MappedOneMore(id: nat, a: MapArea, b: MapArea, c: MapArea, lo: nat, v: nat,
                                         pages: map<nat, nat>,
                      view0: map<nat, nat>, view: map<nat, nat>, view': map<nat, nat>,
                      s: Store, s': Store)
    requires lo <= v && v !in view0 && c == b.(data := c.data)
    requires a.kind.Framed? ==> v in c.data && c.data == b.data[v := c.data[v]]
    requires a.kind.Framed? ==> At(s'.mem, c.data[v]) == ZeroPage()
    requires a.kind.Framed? ==> OwnsPages(id, s'.owner, (pages + PagesFrom(b, lo))[v := c.data[v]])
    requires a.kind.Identical? ==> c == b && OwnsPages(id, s'.owner, pages + PagesFrom(b, lo))
    requires view' == view[v := Entry(c, v)] && Extended(id, s, s')
    requires MappedUpTo(id, a, b, lo, v, pages, view0, view, s)
    requires forall k :: k in a.data ==> k < lo
    ensures MappedUpTo(id, a, c, lo, v + 1, pages, view0, view', s')
  {
    hide ZeroPage, OwnsPages, Extended, Entry, FreshPages, PagesFrom, EntriesIn;
    KeysOneMore(a, b, c, lo, v);
    ViewOneMore(b, c, lo, v, view0);
    FreshOneMore(id, b, c, lo, v, pages, s, s');
    if a.kind.Framed? {
      PagesOneMore(b, c, lo, v, pages);
    }
  }

  lemma {:induction false} KeysOneMore(a: MapArea, b: MapArea, c: MapArea, lo: nat, v: nat)
    requires lo <= v && (forall k :: k in a.data ==> k < lo) && b.kind == a.kind
    requires forall k :: k in b.data <==> k in a.data || (a.kind.Framed? && lo <= k < v)
    requires forall k :: k in a.data ==> b.data[k] == a.data[k]
    requires if a.kind.Framed? then v in c.data && c.data == b.data[v := c.data[v]] else c == b
    ensures forall k :: k in c.data <==> k in a.data || (a.kind.Framed? && lo <= k < v + 1)
    ensures forall k :: k in a.data ==> c.data[k] == a.data[k]
  {
  }

  lemma {:induction false} ViewOneMore(b: MapArea, c: MapArea, lo: nat, v: nat, view0: map<nat, nat>)
    requires lo <= v && c == b.(data := c.data)
    requires c == b || (v in c.data && c.data == b.data[v := c.data[v]])
    ensures view0 + EntriesIn(c, lo, v + 1) == (view0 + EntriesIn(b, lo, v))[v := Entry(c, v)]
  {
    hide Pte, WithV;
    assert forall k :: lo <= k < v ==> Entry(c, k) == Entry(b, k);
    hide Entry;
  }

  lemma {:induction false} PagesOneMore(b: MapArea, c: MapArea, lo: nat, v: nat, pages: map<nat, nat>)
    requires lo <= v && v in c.data && c.data == b.data[v := c.data[v]]
    ensures pages + PagesFrom(c, lo) == (pages + PagesFrom(b, lo))[v := c.data[v]]
  {
  }

  lemma {:induction false} FreshOneMore(id: nat, b: MapArea, c: MapArea, lo: nat, v: nat, pages: map<nat, nat>,
                     s: Store, s': Store)
    requires lo <= v && FreshPages(b, lo, v, s.mem) && OwnsPages(id, s.owner, pages + PagesFrom(b, lo))
    requires Extended(id, s, s') && c == b.(data := c.data)
    requires b.kind.Framed? ==> v in c.data && c.data == b.data[v := c.data[v]] && At(s'.mem, c.data[v]) == ZeroPage()
    ensures FreshPages(c, lo, v + 1, s'.mem)
  {
    hide ZeroPage;
    if b.kind.Framed? {
      forall k | lo <= k < v ensures At(s'.mem, c.data[k]) == ZeroPage() {
        assert k in PagesFrom(b, lo) && (pages + PagesFrom(b, lo))[k] == b.data[k];
      }
    }
  }

  // The loop of MapArea::map and MapArea::append_to.  The trampoline page is always mapped, so a
  // run that would reach it (or lie beyond the address space) stops there.
  method MapRange(pt: PageTable, a: MapArea, lo: nat, hi: nat, ghost pages: map<nat, nat>)
      returns (o: Outcome, b: MapArea)
    requires pt.Valid() && lo <= hi && lo <= TRAMPOLINE_VPN && TRAMPOLINE_VPN in pt.Map()
    requires OwnsPages(pt.id, pt.m.owner, pages) && pages.Keys <= pt.Map().Keys && (forall k :: k in a.data ==> k < lo)
    modifies pt, pt.m
    ensures pt.m.Valid() && o in {Fine, OutOfFrames, MappedBefore}
    ensures o.OutOfFrames? ==> pt.m.Free() == 0 && old(pt.m.Free()) < Takes(old(pt.tables).Keys, a, lo, hi)
    ensures o.MappedBefore? ==> exists v :: lo <= v < hi && v in old(pt.Map())
    ensures o.Fine? ==> hi <= TRAMPOLINE_VPN && pt.Valid() && pt.tables.Keys == old(pt.tables).Keys + PathsIn(lo, hi)
    ensures o.Fine? ==> pt.m.Free() == old(pt.m.Free()) - Takes(old(pt.tables).Keys, a, lo, hi)
    ensures o.Fine? ==> pt.m.Free() + |pt.tables| + Cost(a, hi - lo) == old(pt.m.Free() + |pt.tables|)
    ensures o.Fine? ==> MappedUpTo(pt.id, a, b, lo, hi, pages, old(pt.Map()), pt.Map(), pt.m.S())
    ensures o.Fine? ==> Extended(pt.id, old(pt.m.S()), pt.m.S())
  {
    hide Tree, View, Holds, Extended, OwnsPages, Machine.Valid, Machine.Free, MappedUpTo, PathsOf, Missing;
    b := a;
    var v := lo;
    ghost var view0 := pt.Map();
    MappedNone(pt.id, a, lo, pages, pt.Map(), pt.m.S());
    Reflexive(pt.id, pt.m.S());
    while v != hi
      invariant lo <= v <= hi && v <= TRAMPOLINE_VPN && pt.Valid()
      invariant MappedUpTo(pt.id, a, b, lo, v, pages, view0, pt.Map(), pt.m.S())
      invariant Extended(pt.id, old(pt.m.S()), pt.m.S())
      invariant pt.m.Free() + |pt.tables| + Cost(a, v - lo) == old(pt.m.Free() + |pt.tables|)
      invariant pt.tables.Keys == old(pt.tables).Keys + PathsIn(lo, v)
      decreases hi - v
    {
      ghost var s0 := pt.m.S();
      MissingCount(pt.id, s0, pt.tables, v);
      RanOut(old(pt.tables).Keys, a, lo, v, hi);
      o, b := MapNext(pt, a, b, lo, v, pages, view0);
      if !o.Fine? {
        return;
      }
      ExtendedTransitive(pt.id, old(pt.m.S()), s0, pt.m.S());
      v := v + 1;
    }
    o := Fine;
  }

  // One round of that loop.
  method MapNext(pt: PageTable, ghost a: MapArea, b: MapArea, ghost lo: nat, v: nat, ghost pages: map<nat, nat>,
                 ghost view0: map<nat, nat>)
      returns (o: Outcome, c: MapArea)
    requires pt.Valid() && lo <= v <= TRAMPOLINE_VPN && TRAMPOLINE_VPN in view0
    requires pages.Keys <= view0.Keys && (forall k :: k in a.data ==> k < lo)
    requires MappedUpTo(pt.id, a, b, lo, v, pages, view0, pt.Map(), pt.m.S())
    modifies pt, pt.m
    ensures pt.m.Valid() && o in {Fine, OutOfFrames, MappedBefore} && (o.OutOfFrames? ==> pt.m.Free() == 0)
    ensures o.OutOfFrames? <==> old(pt.m.Free()) < Cost(a, 1) + Missing(old(pt.tables), v)
    ensures o.Fine? ==> pt.tables.Keys == old(pt.tables).Keys + PathsOf(v)
    ensures o.MappedBefore? ==> v in view0
    ensures o.Fine? ==> v < TRAMPOLINE_VPN && pt.Valid()
    ensures o.Fine? ==> MappedUpTo(pt.id, a, c, lo, v + 1, pages, view0, pt.Map(), pt.m.S())
    ensures o.Fine? ==> Extended(pt.id, old(pt.m.S()), pt.m.S())
    ensures o.Fine? ==> pt.m.Free() + |pt.tables| + Cost(a, 1) == old(pt.m.Free() + |pt.tables|)
  {
    hide Tree, View, Holds, Extended, OwnsPages, Machine.Valid, Machine.Free, ZeroPage, Entry, PagesFrom, MappedUpTo,
         PathsOf, Missing;
    ghost var s0, view := pt.m.S(), pt.Map();
    MappedFacts(pt.id, a, b, lo, v, pages, view0, view, s0);
    o, c := MapOne(pt, b, v, pages + PagesFrom(b, lo));
    if o.Fine? {
      MappedOneMore(pt.id, a, b, c, lo, v, pages, view0, view, pt.Map(), s0, pt.m.S());
    }
  }

  lemma {:induction false} MappedFacts(id: nat, a: MapArea, b: MapArea, lo: nat, v: nat, pages: map<nat, nat>,
                    view0: map<nat, nat>, view: map<nat, nat>, s: Store)
    requires MappedUpTo(id, a, b, lo, v, pages, view0, view, s)
    requires lo <= v && pages.Keys <= view0.Keys && (forall k :: k in a.data ==> k < lo)
    ensures b == a.(data := b.data) && v !in b.data && (pages + PagesFrom(b, lo)).Keys <= view.Keys
    ensures OwnsPages(id, s.owner, pages + PagesFrom(b, lo)) && (v in view <==> v in view0)
    ensures forall k :: k >= v ==> (k in view <==> k in view0)
  {
    hide Entry, OwnsPages, FreshPages;
  }

  predicate Within(lo: nat, v: nat, hi: nat) { lo <= v < hi }

  ghost function Range(lo: nat, hi: nat): set<nat> { set v | lo <= v < hi && Within(lo, v, hi) }

  lemma {:induction false} DropPage(id: nat, s: Store, pages: map<nat, nat>, v: nat)
    requires OwnsPages(id, s.owner, pages) && v in pages
    ensures pages[v] in s.owner
    ensures var s' := s.(owner := s.owner - {pages[v]});
            OwnsPages(id, s'.owner, pages - {v}) && Released(id, s, s') && SameTables(id, s, s')
  {
  }

  lemma {:induction false} GrownReleases(id: nat, s: Store, s': Store)
    requires Grown(id, s, s') && s'.owner == s.owner
    ensures Released(id, s, s')
  {
  }

  // MapArea::unmap_one on a page of the area: never panics, gives the page's frame back.
  method UnmapOne(pt: PageTable, a: MapArea, vpn: nat, ghost pages: map<nat, nat>) returns (b: MapArea)
    requires pt.Valid() && vpn < VPNS && vpn in pt.Map() && OwnsPages(pt.id, pt.m.owner, pages)
    requires a.kind.Framed? ==> vpn in a.data && vpn in pages && pages[vpn] == a.data[vpn]
    modifies pt, pt.m
    ensures pt.Valid() && pt.Map() == old(pt.Map()) - {vpn} && pt.tables == old(pt.tables)
    ensures b == if a.kind.Framed? then a.(data := a.data - {vpn}) else a
    ensures OwnsPages(pt.id, pt.m.owner, if a.kind.Framed? then pages - {vpn} else pages)
    ensures pt.m.Free() == old(pt.m.Free()) + if a.kind.Framed? then 1 else 0
    ensures Released(pt.id, old(pt.m.S()), pt.m.S())
  {
    hide Tree, View, Holds, Grown, Released, OwnsPages, SameTables, Machine.Valid, Machine.Free, Missing, At;
    InSpace(vpn);
    b := a;
    var m := pt.m;
    Reflexive(pt.id, m.S());
    if a.kind.Framed? {
      DropPage(pt.id, m.S(), pages, vpn);
      ghost var s' := m.S().(owner := m.owner - {a.data[vpn]});
      TreeFrame(pt.id, m.S(), pt.tables, s');
      HoldsFrame(pt.frames, pt.id, m.S(), s');
      m.FrameDrop(a.data[vpn]);
      b := a.(data := a.data - {vpn});
    }
    ghost var s1 := m.S();
    var o := pt.UnmapPage(vpn);
    GrownReleases(pt.id, s1, m.S());
    ReleasedTransitive(pt.id, old(m.S()), s1, m.S());
  }

  // The loop of MapArea::unmap and MapArea::shrink_to over pages of the area.
  method UnmapRange(pt: PageTable, a: MapArea, lo: nat, hi: nat, ghost pages: map<nat, nat>) returns (b: MapArea)
    requires pt.Valid() && lo <= hi <= VPNS && OwnsPages(pt.id, pt.m.owner, pages)
    requires forall v :: lo <= v < hi ==> v in pt.Map()
    requires a.kind.Framed? ==> forall v :: lo <= v < hi ==> v in a.data && v in pages && pages[v] == a.data[v]
    modifies pt, pt.m
    ensures pt.Valid() && pt.Map() == old(pt.Map()) - Range(lo, hi) && pt.tables == old(pt.tables)
    ensures b == if a.kind.Framed? then a.(data := a.data - Range(lo, hi)) else a
    ensures OwnsPages(pt.id, pt.m.owner, if a.kind.Framed? then pages - Range(lo, hi) else pages)
    ensures pt.m.Free() == old(pt.m.Free()) + if a.kind.Framed? then hi - lo else 0
    ensures Released(pt.id, old(pt.m.S()), pt.m.S())
  {
    hide Tree, View, Holds, Released, OwnsPages, Machine.Valid, Machine.Free;
    b := a;
    var v := lo;
    var m := pt.m;
    Reflexive(pt.id, m.S());
    ghost var p := pages;
    NoRange(pages, lo);
    NoRange(a.data, lo);
    NoRange(pt.Map(), lo);
    while v != hi
      invariant lo <= v <= hi && pt.Valid() && pt.Map() == old(pt.Map()) - Range(lo, v) && pt.tables == old(pt.tables)
      invariant b == if a.kind.Framed? then a.(data := a.data - Range(lo, v)) else a
      invariant p == (if a.kind.Framed? then pages - Range(lo, v) else pages) && OwnsPages(pt.id, m.owner, p)
      invariant m.Free() == old(m.Free()) + if a.kind.Framed? then v - lo else 0
      invariant Released(pt.id, old(m.S()), m.S())
      decreases hi - v
    {
      ghost var s0 := m.S();
      b := UnmapOne(pt, b, v, p);
      p := if a.kind.Framed? then p - {v} else p;
      OneMoreOut(old(pt.Map()), lo, v);
      OneMoreOut(a.data, lo, v);
      OneMoreOut(pages, lo, v);
      ReleasedTransitive(pt.id, old(m.S()), s0, m.S());
      v := v + 1;
    }
  }

  lemma {:induction false} NoRange(x: map<nat, nat>, lo: nat)
    ensures x - Range(lo, lo) == x
  {
  }

  lemma {:induction false} OneMoreOut(x: map<nat, nat>, lo: nat, v: nat)
    requires lo <= v
    ensures x - Range(lo, v) - {v} == x - Range(lo, v + 1)
  {
  }

  method DropTracker(m: Machine, f: nat, ghost id: nat, ghost pages: map<nat, nat>, ghost v: nat)
    requires m.Valid() && OwnsPages(id, m.owner, pages) && v in pages && pages[v] == f
    modifies m
    ensures m.Valid() && m.mem == old(m.mem) && m.Free() == old(m.Free()) + 1 && OwnsPages(id, m.owner, pages - {v})
    ensures Released(id, old(m.S()), m.S()) && SameTables(id, old(m.S()), m.S())
  {
    hide Machine.Valid, Machine.Free, OwnsPages, Released, SameTables;
    DropPage(id, m.S(), pages, v);
    m.FrameDrop(f);
  }

  // Dropping an area: every tracker it holds goes back; the table is not touched.
  method DropData(m: Machine, a: MapArea, ghost id: nat, ghost pages: map<nat, nat>)
    requires m.Valid() && AreaOk(a) && OwnsPages(id, m.owner, pages)
    requires forall v :: v in a.data ==> v in pages && pages[v] == a.data[v]
    modifies m
    ensures m.Valid() && m.mem == old(m.mem) && OwnsPages(id, m.owner, pages - a.data.Keys)
    ensures Released(id, old(m.S()), m.S()) && SameTables(id, old(m.S()), m.S())
    ensures m.Free() == old(m.Free()) + Cost(a, a.end - a.start)
  {
    hide Machine.Valid, Machine.Free, OwnsPages, Released, SameTables, Range, AreaOk;
    DataKeys(a, pages);
    Reflexive(id, m.S());
    SameTablesReflexive(id, m.S());
    if a.data == map[] {
      return;
    }
    var v := a.start;
    NoRange(pages, v);
    while v != a.end
      invariant a.start <= v <= a.end && m.Valid() && m.mem == old(m.mem)
      invariant OwnsPages(id, m.owner, pages - Range(a.start, v))
      invariant Released(id, old(m.S()), m.S()) && SameTables(id, old(m.S()), m.S())
      invariant m.Free() == old(m.Free()) + (v - a.start)
      decreases a.end - v
    {
      ghost var s0, p := m.S(), pages - Range(a.start, v);
      OneMoreOut(pages, a.start, v);
      NotYetOut(pages, a.start, v);
      DropTracker(m, a.data[v], id, p, v);
      ReleasedTransitive(id, old(m.S()), s0, m.S());
      SameTablesTransitive(id, old(m.S()), s0, m.S());
      v := v + 1;
    }
  }

  lemma {:induction false} DataKeys(a: MapArea, pages: map<nat, nat>)
    requires AreaOk(a)
    ensures a.data == map[] ==> pages - a.data.Keys == pages && Cost(a, a.end - a.start) == 0
    ensures a.data != map[] ==> a.kind.Framed? && pages - a.data.Keys == pages - Range(a.start, a.end)
    ensures a.start <= a.end && (a.data != map[] ==> forall v :: a.start <= v < a.end ==> v in a.data)
  {
    if a.kind.Framed? {
      assert a.data.Keys == Range(a.start, a.end);
      if a.start < a.end {
        assert a.start in a.data;
      }
    }
  }

  lemma {:induction false} NotYetOut(x: map<nat, nat>, lo: nat, v: nat)
    requires v in x
    ensures v in x - Range(lo, v)
  {
  }

  // Dropping the trackers of a page table, one after the other.
  method DropTables(m: Machine, frames: seq<nat>, ghost id: nat, ghost pages: map<nat, nat>)
    requires m.Valid() && Holds(frames, id, m.owner) && OwnsPages(id, m.owner, pages)
    modifies m
    ensures m.Valid() && m.mem == old(m.mem) && OwnsPages(id, m.owner, pages) && m.Free() == old(m.Free()) + |frames|
    ensures Released(id, old(m.S()), m.S()) && forall f :: f in m.owner ==> !(m.owner[f].Node? && m.owner[f].id == id)
  {
    hide Machine.Valid, Machine.Free;
    var k := 0;
    while k < |frames|
      invariant 0 <= k <= |frames| && m.Valid() && m.mem == old(m.mem) && m.Free() == old(m.Free()) + k
      invariant forall f :: f in m.owner <==> f in old(m.owner) && f !in frames[..k]
      invariant forall f :: f in m.owner ==> m.owner[f] == old(m.owner)[f]
    {
      assert frames[k] in old(m.owner) && frames[k] !in frames[..k];
      m.FrameDrop(frames[k]);
      assert frames[..k + 1] == frames[..k] + [frames[k]];
      k := k + 1;
    }
    assert frames[..k] == frames;
  }

  // ---- bytes ----

  // A store into a frame that holds no table leaves the table and its view alone.
  method StoreFrame(pt: PageTable, f: nat, page: Page)
    requires pt.Valid() && f in pt.m.owner && !(pt.m.owner[f].Node? && pt.m.owner[f].id == pt.id)
    modifies pt.m`mem
    ensures pt.Valid() && pt.Map() == old(pt.Map()) && pt.m.mem == old(pt.m.mem)[f := page]
  {
    hide Tree, View, Machine.Valid;
    TreeFrame(pt.id, pt.m.S(), pt.tables, Store(pt.m.mem[f := page], pt.m.owner));
    pt.m.Managed(f);
    pt.m.Put(f, page);
  }

  function Min(a: nat, b: nat): nat { if a < b then a else b }

  // The i-th page-sized piece of the data, laid over a page.
  function Overlay(data: seq<Byte>, i: nat, page: Page): Page {
    var lo, hi := Min(i * PAGE_SIZE, |data|), Min((i + 1) * PAGE_SIZE, |data|);
    data[lo..hi] + page[hi - lo..]
  }

  // Pages [a.start, a.start + n) of the area show the data over what they held in mem0; all
  // other frames are as in mem0.
  ghost predicate Copied(a: MapArea, data: seq<Byte>, n: nat, mem0: Memory, mem: Memory) {
    && (forall v :: a.start <= v < a.start + n && v in a.data ==>
        At(mem, a.data[v]) == Overlay(data, v - a.start, At(mem0, a.data[v])))
    && (forall f :: At(mem, f) != At(mem0, f) ==>
        exists v :: a.start <= v < a.start + n && v in a.data && a.data[v] == f)
  }

  lemma {:induction false} CopiedNone(a: MapArea, data: seq<Byte>, mem: Memory)
    ensures Copied(a, data, 0, mem, mem)
  {
  }

  lemma {:induction false} CopiedStep(id: nat, owner: Owners, pages: map<nat, nat>, a: MapArea, data: seq<Byte>, n: nat,
                                      mem0: Memory, mem: Memory)
    requires OwnsPages(id, owner, pages) && (forall v :: v in a.data ==> v in pages && pages[v] == a.data[v])
    requires Copied(a, data, n, mem0, mem) && a.start + n in a.data
    ensures var f := a.data[a.start + n]; Copied(a, data, n + 1, mem0, mem[f := Overlay(data, n, At(mem, f))])
  {
    hide Overlay;
    var f := a.data[a.start + n];
    var mem' := mem[f := Overlay(data, n, At(mem, f))];
    forall v | v in a.data && v != a.start + n ensures a.data[v] != f {
      assert pages[v] in owner && owner[pages[v]] == Data(id, v) && owner[f] == Data(id, a.start + n);
    }
    assert At(mem, f) == At(mem0, f);
    forall g | At(mem', g) != At(mem0, g)
      ensures exists v :: a.start <= v < a.start + n + 1 && v in a.data && a.data[v] == g {
      if g == f {
        assert a.data[a.start + n] == g;
      }
    }
  }

  lemma {:induction false} CopiedRest(a: MapArea, data: seq<Byte>, n: nat, k: nat, mem0: Memory, mem: Memory)
    requires Copied(a, data, n, mem0, mem) && |data| <= n * PAGE_SIZE && n <= k
    requires forall v, w :: v in a.data && w in a.data && v != w ==> a.data[v] != a.data[w]
    ensures Copied(a, data, k, mem0, mem)
  {
    forall v | a.start + n <= v && v in a.data
      ensures Overlay(data, v - a.start, At(mem0, a.data[v])) == At(mem0, a.data[v]) {
      assert (v - a.start) * PAGE_SIZE >= n * PAGE_SIZE;
    }
    hide Overlay;
  }

  lemma {:induction false} WalkMapped(id: nat, s: Store, t: Tables, v: nat)
    requires Tree(id, s, t) && v < VPNS && v in View(s.mem, t)
    ensures Root in t && Walk(s.mem, t[Root], v) == Some(View(s.mem, t)[v])
  {
    hide Tree, View, Walk, LeafWord, IsValid;
    InSpace(v);
    RootThere(id, s, t);
    WalkFindsLeaf(id, s, t, v);
    LeafInView(s.mem, t, v);
  }

  lemma {:induction false} DistinctData(id: nat, owner: Owners, pages: map<nat, nat>, a: MapArea)
    requires OwnsPages(id, owner, pages) && (forall v :: v in a.data ==> v in pages && pages[v] == a.data[v])
    ensures forall v, w :: v in a.data && w in a.data && v != w ==> a.data[v] != a.data[w]
    ensures forall v :: v in a.data ==> a.data[v] < PPNS && a.data[v] in owner && owner[a.data[v]] == Data(id, v)
  {
  }

  // One round of copy_data: the n-th piece of the data goes to the n-th page of the area.
  method CopyPage(pt: PageTable, a: MapArea, data: seq<Byte>, n: nat, ghost pages: map<nat, nat>, ghost mem0: Memory)
    requires pt.Valid() && AreaOk(a) && OwnsPages(pt.id, pt.m.owner, pages)
    requires forall v :: v in a.data ==> v in pages && pages[v] == a.data[v]
    requires a.start + n in a.data && a.start + n in pt.Map() && pt.Map()[a.start + n] == Entry(a, a.start + n)
    requires Copied(a, data, n, mem0, pt.m.mem)
    modifies pt.m`mem
    ensures pt.Valid() && pt.Map() == old(pt.Map()) && Copied(a, data, n + 1, mem0, pt.m.mem)
  {
    hide Tree, View, Walk, Holds, OwnsPages, Machine.Valid, Copied, Entry, PpnOf;
    var m := pt.m;
    DistinctData(pt.id, m.owner, pages, a);
    WalkMapped(pt.id, m.S(), pt.tables, a.start + n);
    EntryFrame(a, a.start + n);
    CopiedStep(pt.id, m.owner, pages, a, data, n, mem0, m.mem);
    var e := FindPte(m.mem, pt.root, a.start + n);
    var f := PpnOf(e.value);
    var src := data[Min(n * PAGE_SIZE, |data|) .. Min((n + 1) * PAGE_SIZE, |data|)];
    assert Overlay(data, n, At(m.mem, f)) == src + At(m.mem, f)[|src|..];
    StoreFrame(pt, f, src + At(m.mem, f)[|src|..]);
  }

  // MapArea::copy_data.  File byte i lands in byte i % 4096 of page i / 4096 of the area, whatever the
  // page offset of the segment.  Data longer than the area runs on into the pages behind it: a panic
  // where they do not translate or lead below the managed frames, else a wild store.  With no page at
  // all the source still unwraps the translation of the first page number, and for no data copies zero
  // bytes.
  method CopyData(pt: PageTable, a: MapArea, data: seq<Byte>, ghost pages: map<nat, nat>) returns (o: Outcome)
    requires pt.Valid() && AreaOk(a) && a.kind.Framed? && OwnsPages(pt.id, pt.m.owner, pages)
    requires forall v :: v in a.data ==> v in pages && pages[v] == a.data[v]
    requires forall v :: a.start <= v < a.end ==> v in pt.Map() && pt.Map()[v] == Entry(a, v)
    modifies pt.m`mem
    ensures o in {Fine, NotTranslated, StoreFault, WildStore}
    ensures |data| > (a.end - a.start) * PAGE_SIZE ==> o in {NotTranslated, StoreFault, WildStore}
    ensures |data| <= (a.end - a.start) * PAGE_SIZE ==> o in {Fine, NotTranslated} && (a.start < a.end ==> o.Fine?)
    ensures o.Fine? ==> pt.Valid() && pt.Map() == old(pt.Map())
    ensures o.Fine? ==> Copied(a, data, a.end - a.start, old(pt.m.mem), pt.m.mem)
    ensures pt.m.Valid()
  {
    hide Tree, View, Walk, Holds, OwnsPages, Machine.Valid, Copied, Entry;
    CopiedNone(a, data, pt.m.mem);
    DistinctData(pt.id, pt.m.owner, pages, a);
    var start, n := 0, 0;
    while true
      invariant a.start + n <= a.end && start == n * PAGE_SIZE && (n > 0 ==> start < |data|)
      invariant pt.Valid() && pt.Map() == old(pt.Map()) && Copied(a, data, n, old(pt.m.mem), pt.m.mem)
      decreases a.end - n
    {
      if a.start + n == a.end {
        var e := FindPte(pt.m.mem, pt.root, a.end);
        if e.None? { return NotTranslated; }
        if start >= |data| { return Fine; }
        return if PpnOf(e.value) < pt.m.base then StoreFault else WildStore;
      }
      CopyPage(pt, a, data, n, pages, old(pt.m.mem));
      start, n := start + PAGE_SIZE, n + 1;
      if start >= |data| {
        CopiedRest(a, data, n, a.end - a.start, old(pt.m.mem), pt.m.mem);
        return Fine;
      }
    }
  }

  // The entry of a framed page names the frame whose tracker the area holds.
  lemma {:induction false} EntryFrame(a: MapArea, v: nat)
    requires v in a.data && a.data[v] < PPNS
    ensures PpnOf(Entry(a, v)) == a.data[v] && FlagsOf(Entry(a, v)) == WithV(a.perm)
  {
    PteRoundTrip(a.data[v], WithV(a.perm));
  }
}
