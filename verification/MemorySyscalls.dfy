/** mmap, munmap and sbrk on the space of the running task
    (src/syscall/process.rs:100-156, 230-243, src/task/task.rs:275-304, src/mm/memory_set.rs:533-550). */
module MemorySyscalls {
  import opened Address
  import opened Frames
  import opened FrameAllocator
  import opened PageTables
  import opened UserAccess
  import opened Areas
  import opened Layout
  import opened MemorySets
  import opened Fork
  import opened Loader

  // ---- mmap and munmap ----

  // MapArea::check_mapping: is some page of the range mapped?
  method CheckMapping(space: MemorySet, lo: nat, hi: nat) returns (found: bool)
    requires space.pt.Valid() && hi <= VPNS
    ensures found <==> exists v :: lo <= v < hi && v in space.pt.Map()
  {
    hide Tree, View, Holds, Machine.Valid;
    var v := lo;
    while v < hi
      invariant lo <= v && forall w :: lo <= w < v ==> w !in space.pt.Map()
    {
      InSpace(v);
      var f := FindVpn(space.pt.m.mem, space.pt.root, v, space.pt.id, space.pt.m.S(), space.pt.tables);
      if f {
        assert v in space.pt.Map();
        return true;
      }
      v := v + 1;
    }
    return false;
  }

  ghost predicate AllMapped(view: map<nat, nat>, lo: nat, hi: nat) { forall v :: lo <= v < hi ==> v in view }

  // MapArea::check_unmapping: is some page of the range not mapped?
  method CheckUnmapping(space: MemorySet, lo: nat, hi: nat) returns (found: bool)
    requires space.pt.Valid() && hi <= VPNS
    ensures found <==> !AllMapped(space.pt.Map(), lo, hi)
  {
    hide Tree, View, Holds, Machine.Valid;
    var v := lo;
    while v < hi
      invariant lo <= v && forall w :: lo <= w < v ==> w in space.pt.Map()
    {
      InSpace(v);
      var f := FindVpn(space.pt.m.mem, space.pt.root, v, space.pt.id, space.pt.m.S(), space.pt.tables);
      if !f { return true; }
      v := v + 1;
    }
    return false;
  }

  predicate BadMmap(start: nat, port: nat) { port % 8 == 0 || port / 8 != 0 || start % PAGE_SIZE != 0 }

  // mmap takes the ports 1 to 7 and a page-aligned start.
  lemma {:induction false} GoodMmap(start: nat, port: nat)
    ensures BadMmap(start, port) <==> !(1 <= port <= 7 && start % 4096 == 0)
  {
  }

  // The permission bits of an mmap: user, plus what the three low bits of the port ask for.
  function MmapPerm(port: nat): Perm {
    U + (if port % 2 == 1 then R else 0) + (if port / 2 % 2 == 1 then W else 0) + (if port / 4 % 2 == 1 then X else 0)
  }

  lemma {:induction false} MmapRights(port: nat)
    ensures Rights(WithV(MmapPerm(port)), port % 2 == 1, port / 2 % 2 == 1, port / 4 % 2 == 1, true)
  {
  }

  // Every page of the range is the user's, and may be read, written and executed as bits 0, 1 and 2 of
  // the port say.
  ghost predicate Granted(view: map<nat, nat>, lo: nat, hi: nat, port: nat) {
    forall v :: lo <= v < hi ==>
      v in view && Rights(FlagsOf(view[v]), port % 2 == 1, port / 2 % 2 == 1, port / 4 % 2 == 1, true)
  }

  // The page range of mmap and munmap: both ends truncated to 39 bits, the sum on machine words.
  function First39(start: nat): nat { Floor(VirtAddr(start)) }

  function Last39(start: nat, len: nat): (r: nat)
    ensures r <= VPNS
  {
    Ceil(VirtAddr((start + len) % WORD))
  }

  // For an aligned start and an end below 2^39 these are the pages that hold the bytes [start, start + len).
  lemma {:induction false} PlainRange(start: nat, len: nat, v: nat)
    requires start % 4096 == 0 && start + len < 0x80_0000_0000
    ensures First39(start) <= v < Last39(start, len) <==> start <= v * 4096 < start + len
  {
    hide Ceil;
    CeilBelow(v, start + len);
    assert VirtAddr(start) == start && VirtAddr(start + len) == start + len;
    assert First39(start) * 4096 == start;
  }

  // Some page of the range is mapped.
  ghost predicate Overlaps(view: map<nat, nat>, start: nat, len: nat) {
    exists v :: First39(start) <= v < Last39(start, len) && v in view
  }

  // Too few frames are free for this range.
  ghost predicate MmapShort(free: nat, paths: set<Path>, start: nat, len: nat) {
    First39(start) <= Last39(start, len) && free < NewFrames(paths, First39(start), Last39(start, len))
  }

  // sys_mmap.  Refused without any effect exactly for bad arguments or a page already mapped;
  // reversed ranges (after truncation) and memory exhaustion panic; the mapped-before assertion
  // cannot fire.
  method SysMmap(space: MemorySet, start: nat, len: nat, port: nat) returns (o: Outcome, r: int)
    requires space.Live()
    modifies space, space.pt, space.pt.m
    ensures space.pt.m.Valid() && o in {Fine, OutOfFrames, ReversedRange} && (o.OutOfFrames? ==> space.pt.m.Free() == 0)
    ensures o.ReversedRange? <==> !BadMmap(start, port) && First39(start) > Last39(start, len)
    ensures o.OutOfFrames? ==> MmapShort(old(space.pt.m.Free()), old(space.pt.tables).Keys, start, len)
    ensures o.Fine? && r == 0 ==> !MmapShort(old(space.pt.m.Free()), old(space.pt.tables).Keys, start, len)
    ensures o.Fine? ==> r in {0, -1} && space.Live() && space.Budget() == old(space.Budget())
    ensures o.Fine? ==> (r == -1 <==> BadMmap(start, port) || Overlaps(old(space.pt.Map()), start, len))
    ensures o.Fine? && r == -1 ==> space.areas == old(space.areas) && space.pt.m.S() == old(space.pt.m.S())
    ensures o.Fine? && r == -1 ==> space.pt.Map() == old(space.pt.Map()) && unchanged(space) && unchanged(space.pt)
    ensures o.Fine? && r == 0 ==>
      Mapped39(old(space.areas), space.areas, First39(start), Last39(start, len), MmapPerm(port), space.pt.m.mem)
    ensures o.Fine? && r == 0 ==> Granted(space.pt.Map(), First39(start), Last39(start, len), port)
    ensures o.Fine? ==> Extended(space.pt.id, old(space.pt.m.S()), space.pt.m.S())
  {
    hide Tree, View, Holds, Extended, OwnsPages, Machine.Valid, Machine.Free, Agrees, Pages, Weight, TrampolineEntry,
         EntriesOf, Filled, MmapPerm, BadMmap, Floor, Ceil, Offset, NewFrames;
    Reflexive(space.pt.id, space.pt.m.S());
    if BadMmap(start, port) { return Fine, -1; }
    var startVa, endVa := VirtAddr(start), VirtAddr((start + len) % WORD);
    CeilBound(endVa);
    if Floor(startVa) > Ceil(endVa) { return ReversedRange, 0; }
    var found := CheckMapping(space, Floor(startVa), Ceil(endVa));
    if found { return Fine, -1; }
    o := space.PushNew(startVa, endVa, MmapPerm(port), None);
    if o.Fine? { PushedGrants(space, Floor(startVa), Ceil(endVa), port); }
    return o, 0;
  }

  lemma {:induction false} PushedGrants(space: MemorySet, lo: nat, hi: nat, port: nat)
    requires space.areas != [] && space.Live()
    requires var b := space.areas[|space.areas| - 1]; b.start == lo && b.end == hi && b.perm == MmapPerm(port)
    ensures Granted(space.pt.Map(), lo, hi, port)
  {
    hide Tree, View, Holds, OwnsPages, Machine.Valid, Agrees, Pages, Weight, TrampolineEntry, MmapPerm, Rights, FlagsOf;
    var b := space.areas[|space.areas| - 1];
    MmapRights(port);
    AreaInView(space.pt.Map(), space.areas, TrampolineEntry(space.trampoline), |space.areas| - 1);
    forall v | lo <= v < hi ensures FlagsOf(space.pt.Map()[v]) == WithV(b.perm) { EntryFlags(b, v); }
  }

  lemma {:induction false} EntryFlags(a: MapArea, v: nat)
    ensures FlagsOf(Entry(a, v)) == WithV(a.perm)
  {
    PteFlags(if v in a.data then a.data[v] else v, WithV(a.perm));
  }

  lemma {:induction false} CeilBound(va: nat)
    requires va < VA_SPACE
    ensures Ceil(va) <= VPNS
  {
  }

  // One more area at the end of the list: [lo, hi), framed, zero-filled.
  ghost predicate Mapped39(xs: seq<MapArea>, ys: seq<MapArea>, lo: nat, hi: nat, perm: Perm, mem: Memory) {
    && |ys| == |xs| + 1 && ys[..|xs|] == xs
    && var b := ys[|xs|]; b == MapArea(lo, hi, b.data, Framed, perm) && Filled(b, None, mem)
  }

  // sys_munmap.  Refused exactly for an unaligned start or a page that is not mapped; otherwise
  // every area that contains the whole range goes, and nothing else.
  method SysMunmap(space: MemorySet, start: nat, len: nat) returns (o: Outcome, r: int)
    requires space.Live()
    modifies space, space.pt, space.pt.m
    ensures o in {Fine, ReversedRange} && space.Live() && space.Budget() == old(space.Budget())
    ensures space.pt.tables == old(space.pt.tables)
    ensures o.ReversedRange? <==> start % PAGE_SIZE == 0 && First39(start) > Last39(start, len)
    ensures o.Fine? ==> r in {0, -1}
    ensures o.Fine? ==>
      (r == -1 <==> start % PAGE_SIZE != 0 || !AllMapped(old(space.pt.Map()), First39(start), Last39(start, len)))
    ensures !o.Fine? || r == -1 ==> space.areas == old(space.areas) && space.pt.m.S() == old(space.pt.m.S())
    ensures !o.Fine? || r == -1 ==> unchanged(space) && unchanged(space.pt)
    ensures o.Fine? && r == 0 ==> space.areas == Kept(old(space.areas), First39(start), Last39(start, len))
    ensures Released(space.pt.id, old(space.pt.m.S()), space.pt.m.S())
  {
    hide Tree, View, Holds, Released, OwnsPages, Machine.Valid, Machine.Free, Agrees, Pages, Weight, TrampolineEntry,
         Floor, Ceil, Offset, Kept;
    Reflexive(space.pt.id, space.pt.m.S());
    if start % PAGE_SIZE != 0 { return Fine, -1; }
    var startVa, endVa := VirtAddr(start), VirtAddr((start + len) % WORD);
    CeilBound(endVa);
    if Floor(startVa) > Ceil(endVa) { return ReversedRange, 0; }
    var found := CheckUnmapping(space, Floor(startVa), Ceil(endVa));
    if found { return Fine, -1; }
    space.MunmapArea(startVa, endVa);
    return Fine, 0;
  }

  // ---- mmap then munmap ----

  lemma {:induction false} KeptAll(areas: seq<MapArea>, s: nat, e: nat)
    ensures |Kept(areas, s, e)| <= |areas|
    ensures Kept(areas, s, e) == areas <==> forall i :: 0 <= i < |areas| ==> !(e <= areas[i].end && s >= areas[i].start)
  {
    if areas != [] {
      var n := |areas| - 1;
      KeptAll(areas[..n], s, e);
      assert areas == areas[..n] + [areas[n]];
      if e <= areas[n].end && s >= areas[n].start {
        assert |Kept(areas, s, e)| < |areas|;
      } else {
        var k := Kept(areas[..n], s, e);
        assert Kept(areas, s, e) == k + [areas[n]];
        forall i | 0 <= i < n ensures areas[..n][i] == areas[i] {}
        if k + [areas[n]] == areas { assert k == (k + [areas[n]])[..n] == areas[..n]; }
      }
    }
  }

  // Unmapping the range of the area pushed last takes exactly that area out again, unless the
  // range is empty and touches an older area.
  lemma {:induction false} MunmapUndoesMmap(view: map<nat, nat>, xs: seq<MapArea>, ys: seq<MapArea>, tramp: nat,
                                            lo: nat, hi: nat, perm: Perm, mem: Memory)
    requires lo <= hi && Agrees(view, ys, tramp) && Mapped39(xs, ys, lo, hi, perm, mem)
    ensures Kept(ys, lo, hi) == xs <==> lo < hi || forall i :: 0 <= i < |xs| ==> !(xs[i].start <= lo <= xs[i].end)
  {
    hide Entries, Filled, AllOk;
    KeptAll(xs, lo, hi);
    var n := |xs|;
    assert ys[..|ys| - 1] == xs;
    forall i | 0 <= i < n ensures xs[i] == ys[i] && Apart(ys[i], ys[n]) { assert xs[i] == ys[..n][i]; }
  }

  lemma {:induction false} PushedIsMapped(view: map<nat, nat>, xs: seq<MapArea>, ys: seq<MapArea>, tramp: nat, lo: nat,
                                          hi: nat, perm: Perm, mem: Memory, v: nat)
    requires Within(lo, v, hi) && Agrees(view, ys, tramp) && Mapped39(xs, ys, lo, hi, perm, mem)
    ensures v in view
  {
    hide Agrees, Filled;
    AreaInView(view, ys, tramp, |xs|);
  }

  lemma {:induction false} AgreesDetermines(v: map<nat, nat>, w: map<nat, nat>, areas: seq<MapArea>, tramp: nat)
    requires Agrees(v, areas, tramp) && Agrees(w, areas, tramp)
    ensures v == w
  {
  }

  // An area that contains the non-empty range is the only one that goes.
  lemma {:induction false} KeptWithout(areas: seq<MapArea>, i: nat, lo: nat, hi: nat)
    requires i < |areas| && Disjoint(areas) && areas[i].start <= lo < hi <= areas[i].end
    ensures Kept(areas, lo, hi) == Without(areas, i)
  {
    var n := |areas| - 1;
    if i == n {
      KeptAll(areas[..n], lo, hi);
      forall k | 0 <= k < n ensures !(hi <= areas[..n][k].end && lo >= areas[..n][k].start) {
        assert Apart(areas[k], areas[n]);
      }
      assert Without(areas, i) == areas[..n];
    } else {
      KeptWithout(areas[..n], i, lo, hi);
      assert Apart(areas[i], areas[n]);
      assert Without(areas, i) == Without(areas[..n], i) + [areas[n]];
    }
  }

  lemma {:induction false} OneContainer(areas: seq<MapArea>, i: nat, k: nat, lo: nat, hi: nat)
    requires i < |areas| && k < |areas| && lo < hi && Disjoint(areas)
    requires areas[i].start <= lo && hi <= areas[i].end && areas[k].start <= lo && hi <= areas[k].end
    ensures i == k
  {
  }

  // munmap exactly: on a mapped, non-empty range it takes out just that range if and only if the range
  // is one whole area.  Otherwise it takes out a larger area, or nothing.
  lemma {:induction false} MunmapExactly(view: map<nat, nat>, view': map<nat, nat>, areas: seq<MapArea>, tramp: nat,
                                         lo: nat, hi: nat)
    requires lo < hi && AllMapped(view, lo, hi) && Agrees(view, areas, tramp)
    requires Agrees(view', Kept(areas, lo, hi), tramp)
    ensures view' == view - Range(lo, hi) <==>
      exists i :: 0 <= i < |areas| && areas[i].start == lo && areas[i].end == hi
  {
    hide Entries, Entry, Kept, AllOk;
    assert lo in view && lo in Range(lo, hi);
    if i :| 0 <= i < |areas| && areas[i].start <= lo && hi <= areas[i].end {
      var a := areas[i];
      KeptWithout(areas, i, lo, hi);
      RemoveOk(view, areas, tramp, i);
      AgreesDetermines(view', view - Range(a.start, a.end), Without(areas, i), tramp);
      AreaInView(view, areas, tramp, i);
      if a.start < lo {
        assert a.start in Range(a.start, a.end) && a.start !in Range(lo, hi) && a.start in view;
      } else if hi < a.end {
        assert hi in Range(a.start, a.end) && hi !in Range(lo, hi) && hi in view;
      }
      forall k | 0 <= k < |areas| && areas[k].start == lo && areas[k].end == hi ensures k == i {
        OneContainer(areas, k, i, lo, hi);
      }
    } else {
      KeptAll(areas, lo, hi);
      AgreesDetermines(view', view, areas, tramp);
    }
  }

  // A successful mmap followed by munmap of the same non-empty range: the areas and the abstract
  // mapping are those of before, and what is not free again went into page-table nodes.
  method MmapThenMunmap(space: MemorySet, start: nat, len: nat, port: nat) returns (o: Outcome, r: int)
    requires space.Live() && First39(start) < Last39(start, len)
    modifies space, space.pt, space.pt.m
    ensures o in {Fine, OutOfFrames}
    ensures o.OutOfFrames? ==> MmapShort(old(space.pt.m.Free()), old(space.pt.tables).Keys, start, len)
    ensures o.Fine? ==> space.Live() && space.areas == old(space.areas) && space.pt.Map() == old(space.pt.Map())
    ensures o.Fine? ==> space.pt.m.Free() + |space.pt.tables| == old(space.pt.m.Free() + |space.pt.tables|)
    ensures o.Fine? ==> (r == -1 <==> BadMmap(start, port) || Overlaps(old(space.pt.Map()), start, len))
  {
    hide Tree, View, Holds, Extended, Released, OwnsPages, Machine.Valid, Machine.Free, Agrees, Pages, Weight,
         TrampolineEntry, Filled, MmapPerm, Mapped39, First39, Last39, Kept, NewFrames, Granted;
    o, r := SysMmap(space, start, len, port);
    if !o.Fine? || r == -1 { return; }
    ghost var lo, hi, view, ys, mem := First39(start), Last39(start, len), space.pt.Map(), space.areas, space.pt.m.mem;
    ghost var tramp := TrampolineEntry(space.trampoline);
    MunmapUndoesMmap(view, old(space.areas), ys, tramp, lo, hi, MmapPerm(port), mem);
    forall v | Within(lo, v, hi) ensures v in view {
      PushedIsMapped(view, old(space.areas), ys, tramp, lo, hi, MmapPerm(port), mem, v);
    }
    o, r := SysMunmap(space, start, len);
    AgreesDetermines(old(space.pt.Map()), space.pt.Map(), space.areas, tramp);
  }

  // ---- sbrk ----

  // The heap is the first area that starts at the page of heap_bottom, and reaches program_brk.
  ghost predicate HeapOk(areas: seq<MapArea>, heapBottom: nat, brk: nat) {
    && heapBottom <= brk < VA_SPACE
    && var i := First(areas, Floor(heapBottom)); i.Some? && areas[i.value].end == Ceil(brk)
  }

  // No user stack top lies beyond this, so the signed sum of break and size never overflows.
  const BRK_LIMIT := 2 * VA_SPACE

  // Area i ends at page e instead, and the mapping changes between the two ends and nowhere else.
  ghost predicate Moved(a: MapArea, b: MapArea, e: nat, view: map<nat, nat>, view': map<nat, nat>) {
    && b == a.(end := e, data := b.data)
    && (forall v :: a.end <= v < e ==> v !in view && v in view')
    && (forall v :: e <= v < a.end ==> v !in view')
    && (forall v :: !(a.end <= v < e) && !(e <= v < a.end) ==>
          (v in view' <==> v in view) && (v in view ==> view'[v] == view[v]))
  }

  ghost predicate Resized(xs: seq<MapArea>, ys: seq<MapArea>, heapBottom: nat, brk: nat, view: map<nat, nat>,
                          view': map<nat, nat>) {
    var i := First(xs, Floor(heapBottom));
    && i.Some? && |ys| == |xs| && ys == xs[i.value := ys[i.value]]
    && Moved(xs[i.value], ys[i.value], Ceil(brk), view, view')
  }

  lemma {:induction false} ShrunkMoves(a: MapArea, e: nat, view: map<nat, nat>)
    requires e <= a.end
    ensures Moved(a, a.(end := e, data := a.data - Range(e, a.end)), e, view, view - Range(e, a.end))
  {
    forall v ensures v in Range(e, a.end) <==> e <= v < a.end {}
  }

  lemma {:induction false} GrownMoves(a: MapArea, b: MapArea, e: nat, view: map<nat, nat>)
    requires a.end <= e && b == a.(end := e, data := b.data) && forall v :: a.end <= v < e ==> v !in view
    ensures Moved(a, b, e, view, view + EntriesIn(b, a.end, e))
  {
    hide Entry;
  }

  // The heap stays the first area that starts there.
  lemma {:induction false} FirstStays(xs: seq<MapArea>, i: nat, b: MapArea, start: nat)
    requires First(xs, start) == Some(i) && b.start == start
    ensures First(xs[i := b], start) == Some(i)
  {
    hide First;
    assert xs[i := b][i].start == start;
  }

  lemma {:induction false} PageOrder(a: nat, b: nat)
    requires a <= b
    ensures Floor(a) <= Ceil(b) && Ceil(a) <= Ceil(b)
  {
  }

  // A break that a live area reaches is a 39-bit address.
  lemma {:induction false} BrkBound(view: map<nat, nat>, areas: seq<MapArea>, tramp: nat, i: nat, brk: nat)
    requires i < |areas| && areas[i].end == Ceil(brk) && Agrees(view, areas, tramp)
    ensures brk < VA_SPACE
  {
    assert AreaOk(areas[i]);
    hide Entries;
  }

  // How a move of the break by `size` to `to` ends.  Refused below the heap or without a heap area.  A move
  // down is fine if the area reaches that far; a move up needs the area to end there or below, frames, and
  // pages that are not mapped.
  ghost predicate BrkOutcome(o: Outcome, size: int, to: int, free: nat, paths: set<Path>, view: map<nat, nat>,
                             areas: seq<MapArea>, heapBottom: nat) {
    var i := First(areas, Floor(heapBottom));
    if to < heapBottom || i.None? then o.Fine?
    else
      var a, e := areas[i.value], Ceil(to);
      if size < 0 then o == if e <= a.end then Fine else ReversedRange
      else if e < a.end then o == ReversedRange
      else
        && o in {Fine, OutOfFrames, MappedBefore}
        && (o.OutOfFrames? ==> free < Takes(paths, a, a.end, e))
        && (o.MappedBefore? ==> exists v :: a.end <= v < e && v in view)
        && (o.Fine? ==> free >= Takes(paths, a, a.end, e) && forall v :: a.end <= v < e ==> v !in view)
  }

  // The pages the heap area has gained show zeros.
  ghost predicate NewZeros(xs: seq<MapArea>, ys: seq<MapArea>, heapBottom: nat, mem: Memory) {
    var i := First(xs, Floor(heapBottom));
    i.Some? && i.value < |ys| && FreshPages(ys[i.value], xs[i.value].end, ys[i.value].end, mem)
  }

  // change_program_brk; `brk` is the current break and `newBrk` the break after the call.  A
  // refused call changes nothing; a granted one moves the end of the heap area and returns the
  // old break.  While HeapOk holds, it is kept and no range assertion fires.
  method ChangeProgramBrk(space: MemorySet, heapBottom: nat, brk: nat, size: int) returns (o: Outcome, r: Option<nat>,
                          newBrk: nat)
    requires heapBottom < BRK_LIMIT && brk < BRK_LIMIT && -0x8000_0000 <= size < 0x8000_0000 && space.Live()
    modifies space, space.pt, space.pt.m
    ensures space.pt.m.Valid() && o in {Fine, OutOfFrames, MappedBefore, ReversedRange}
    ensures o.OutOfFrames? ==> space.pt.m.Free() == 0
    ensures o.Fine? ==> space.Live() && space.Budget() == old(space.Budget())
    ensures o.Fine? ==> (r.None? <==> brk + size < heapBottom || First(old(space.areas), Floor(heapBottom)).None?)
    ensures r.None? ==> newBrk == brk
    ensures o.Fine? && r.None? ==> space.areas == old(space.areas) && space.pt.m.S() == old(space.pt.m.S())
    ensures o.Fine? && r.None? ==> space.pt.Map() == old(space.pt.Map()) && unchanged(space) && unchanged(space.pt)
    ensures r.Some? ==> o.Fine? && r.value == brk && newBrk == brk + size < VA_SPACE
    ensures r.Some? ==> Resized(old(space.areas), space.areas, heapBottom, newBrk, old(space.pt.Map()), space.pt.Map())
    ensures r.Some? ==> NewZeros(old(space.areas), space.areas, heapBottom, space.pt.m.mem)
    ensures BrkOutcome(o, size, brk + size, old(space.pt.m.Free()), old(space.pt.tables).Keys, old(space.pt.Map()),
                       old(space.areas), heapBottom)
    ensures HeapOk(old(space.areas), heapBottom, brk) ==> !o.ReversedRange?
    ensures HeapOk(old(space.areas), heapBottom, brk) ==> (o.Fine? ==> HeapOk(space.areas, heapBottom, newBrk))
    ensures o.Fine? && size < 0 ==> Released(space.pt.id, old(space.pt.m.S()), space.pt.m.S())
    ensures o.Fine? && size >= 0 ==> Extended(space.pt.id, old(space.pt.m.S()), space.pt.m.S())
  {
    hide Tree, View, Holds, Extended, Released, OwnsPages, Machine.Valid, Machine.Free, Agrees, Pages, Weight,
         TrampolineEntry, Floor, Ceil, First, EntriesIn, Range, Moved, Takes;
    Reflexive(space.pt.id, space.pt.m.S());
    if brk + size < heapBottom { return Fine, None, brk; }
    var to := brk + size;
    ghost var i := First(space.areas, Floor(heapBottom));
    PageOrder(heapBottom, to);
    var found;
    if size < 0 {
      PageOrder(to, brk);
      o, found := space.ShrinkTo(heapBottom, to);
      if o.Fine? && found { ShrunkMoves(old(space.areas)[i.value], Ceil(to), old(space.pt.Map())); }
    } else {
      PageOrder(brk, to);
      o, found := space.AppendTo(heapBottom, to);
      if o.Fine? && found {
        GrownMoves(old(space.areas)[i.value], space.areas[i.value], Ceil(to), old(space.pt.Map()));
      }
    }
    if !o.Fine? || !found { return o, None, brk; }
    FirstStays(old(space.areas), i.value, space.areas[i.value], Floor(heapBottom));
    BrkBound(space.pt.Map(), space.areas, TrampolineEntry(space.trampoline), i.value, to);
    return Fine, Some(brk), to;
  }

  // Growing by n and shrinking by n restores the abstract mapping.
  lemma {:induction false} GrowThenShrink(xs: seq<MapArea>, ys: seq<MapArea>, zs: seq<MapArea>, heapBottom: nat,
                                          brk: nat, n: nat,
                                          v0: map<nat, nat>, v1: map<nat, nat>, v2: map<nat, nat>)
    requires HeapOk(xs, heapBottom, brk)
    requires Resized(xs, ys, heapBottom, brk + n, v0, v1) && Resized(ys, zs, heapBottom, brk, v1, v2)
    ensures v2 == v0
  {
    hide First, Floor, Ceil;
    PageOrder(brk, brk + n);
    var i := First(xs, Floor(heapBottom)).value;
    FirstStays(xs, i, ys[i], Floor(heapBottom));
    forall v ensures (v in v2 <==> v in v0) && (v in v0 ==> v2[v] == v0[v]) {
      if Within(Ceil(brk), v, Ceil(brk + n)) { assert v !in v0 && v !in v2; }
    }
  }

  // The break after some calls of sbrk: each moves it by its size, unless it would fall below the heap.
  function BreakAfter(heapBottom: nat, brk: nat, sizes: seq<int>): (r: nat)
    ensures heapBottom <= brk ==> heapBottom <= r
  {
    if sizes == [] then brk
    else
      var b := BreakAfter(heapBottom, brk, sizes[..|sizes| - 1]);
      var to := b + sizes[|sizes| - 1];
      if to < heapBottom then b else to
  }

  // Any sequence of sbrk calls keeps the heap invariant and ends at that break; the only panics left are
  // running out of frames and running into another mapping.
  method SbrkAll(space: MemorySet, heapBottom: nat, brk: nat, sizes: seq<int>) returns (o: Outcome, newBrk: nat)
    requires forall k :: 0 <= k < |sizes| ==> -0x8000_0000 <= sizes[k] < 0x8000_0000
    requires HeapOk(space.areas, heapBottom, brk) && space.Live()
    modifies space, space.pt, space.pt.m
    ensures o in {Fine, OutOfFrames, MappedBefore}
    ensures o.Fine? ==> space.Live() && HeapOk(space.areas, heapBottom, newBrk) && space.Budget() == old(space.Budget())
    ensures o.Fine? ==> newBrk == BreakAfter(heapBottom, brk, sizes)
    ensures o.OutOfFrames? ==> space.pt.m.Free() == 0
    ensures !o.Fine? ==> exists k :: 0 <= k < |sizes| && sizes[k] > 0
  {
    hide MemorySet.Live, MemorySet.Budget, HeapOk, Resized, First, Takes, Machine.Free, Ceil, Floor, BrkOutcome,
         NewZeros, BreakAfter;
    newBrk := brk;
    assert sizes[..0] == [];
    BreakNone(heapBottom, brk);
    HeapBound(space.areas, heapBottom, brk);
    for k := 0 to |sizes|
      invariant space.Live() && HeapOk(space.areas, heapBottom, newBrk) && newBrk < VA_SPACE
      invariant space.Budget() == old(space.Budget()) && newBrk == BreakAfter(heapBottom, brk, sizes[..k])
    {
      HeapThere(space.areas, heapBottom, newBrk);
      BreakNext(heapBottom, brk, sizes, k);
      var r;
      ghost var xs, free, paths, view := space.areas, space.pt.m.Free(), space.pt.tables.Keys, space.pt.Map();
      ghost var b := newBrk;
      o, r, newBrk := ChangeProgramBrk(space, heapBottom, newBrk, sizes[k]);
      if !o.Fine? {
        NoneNeeded(o, sizes[k], free, paths, view, xs, heapBottom, b);
        return;
      }
    }
    assert sizes[..|sizes|] == sizes;
    o := Fine;
  }

  lemma {:induction false} BreakNone(heapBottom: nat, brk: nat)
    ensures BreakAfter(heapBottom, brk, []) == brk
  {
  }

  lemma {:induction false} BreakNext(heapBottom: nat, brk: nat, sizes: seq<int>, k: nat)
    requires k < |sizes|
    ensures var b := BreakAfter(heapBottom, brk, sizes[..k]);
            BreakAfter(heapBottom, brk, sizes[..k + 1]) == if b + sizes[k] < heapBottom then b else b + sizes[k]
  {
    assert sizes[..k + 1][..k] == sizes[..k];
  }

  lemma {:induction false} HeapThere(areas: seq<MapArea>, heapBottom: nat, brk: nat)
    requires HeapOk(areas, heapBottom, brk)
    ensures First(areas, Floor(heapBottom)).Some? && areas[First(areas, Floor(heapBottom)).value].end == Ceil(brk)
  {
  }

  // Without growth nothing is lacking.
  lemma {:induction false} NoneNeeded(o: Outcome, size: int, free: nat, paths: set<Path>, view: map<nat, nat>,
                                      areas: seq<MapArea>, heapBottom: nat, brk: nat)
    requires BrkOutcome(o, size, brk + size, free, paths, view, areas, heapBottom) && HeapOk(areas, heapBottom, brk)
    ensures size <= 0 ==> o.Fine?
  {
    hide First;
    if size < 0 && brk + size >= heapBottom { PageOrder(brk + size, brk); }
    assert size == 0 ==> PathsIn(Ceil(brk), Ceil(brk)) == {} && paths + {} == paths;
  }

  lemma {:induction false} HeapBound(areas: seq<MapArea>, heapBottom: nat, brk: nat)
    requires HeapOk(areas, heapBottom, brk)
    ensures heapBottom <= brk < VA_SPACE
  {
  }

  // ---- the heap of a fresh program ----

  lemma {:induction false} SegmentsBelow(segs: seq<Segment>, i: nat)
    requires i < |segs| && GoodLayout(segs)
    ensures SegStart(segs[i]) < SegEnd(segs[i]) <= MaxEnd(segs)
    decreases |segs| - i
  {
    hide SegEnd, SegStart;
    GoodSegment(segs[i]);
    if i + 1 < |segs| { SegmentsBelow(segs, i + 1); }
  }

  // from_elf on a good layout leaves an empty heap at the top of the stack.
  lemma {:induction false} FreshHeap(areas: seq<MapArea>, segs: seq<Segment>, mem: Memory)
    requires GoodLayout(segs) && |areas| == |segs| + 3 && AllLoaded(areas[..|segs|], segs, mem)
    requires UserTail(areas[|segs|], areas[|segs| + 1], areas[|segs| + 2], MaxEnd(segs))
    ensures HeapOk(areas, StackTop(MaxEnd(segs)), StackTop(MaxEnd(segs)))
  {
    hide SegEnd, SegStart, First, Filled;
    var n, e := |segs|, MaxEnd(segs);
    if n > 0 { LayoutOrder(segs, n - 1); }
    TailPlaces(e);
    assert Floor(StackTop(e)) == e + 3 == Ceil(StackTop(e));
    forall k | 0 <= k < n ensures areas[k].start != e + 3 {
      SegmentsBelow(segs, k);
      assert Loaded(areas[..n][k], segs[k], mem);
    }
  }

  // ---- which calls keep the heap ----

  lemma {:induction false} FirstConcat(xs: seq<MapArea>, a: MapArea, start: nat)
    ensures First(xs + [a], start)
         == if First(xs, start).Some? then First(xs, start) else if a.start == start then Some(|xs|) else None
  {
    hide First;
    var ys := xs + [a];
    assert ys[|xs|] == a && forall k :: 0 <= k < |xs| ==> ys[k] == xs[k];
    var i, k := First(xs, start), First(ys, start);
    if i.Some? { assert ys[i.value].start == start; }
  }

  // mmap puts its area behind the heap.
  lemma {:induction false} MmapKeepsHeap(xs: seq<MapArea>, ys: seq<MapArea>, lo: nat, hi: nat, perm: Perm, mem: Memory,
                                         heapBottom: nat, brk: nat)
    requires Mapped39(xs, ys, lo, hi, perm, mem) && HeapOk(xs, heapBottom, brk)
    ensures HeapOk(ys, heapBottom, brk)
  {
    hide First, Filled, Floor, Ceil;
    assert ys == xs + [ys[|xs|]];
    FirstConcat(xs, ys[|xs|], Floor(heapBottom));
  }

  lemma {:induction false} KeptSome(areas: seq<MapArea>, lo: nat, hi: nat, a: MapArea)
    requires a in Kept(areas, lo, hi)
    ensures a in areas
  {
    if areas != [] && a in Kept(areas[..|areas| - 1], lo, hi) { KeptSome(areas[..|areas| - 1], lo, hi, a); }
  }

  // The first area that starts at a page stays the first one there unless it goes itself.
  lemma {:induction false} KeptFirst(areas: seq<MapArea>, lo: nat, hi: nat, start: nat)
    requires var i := First(areas, start); i.Some? ==> !(hi <= areas[i.value].end && lo >= areas[i.value].start)
    ensures var i, k := First(areas, start), First(Kept(areas, lo, hi), start);
            i.Some? <==> k.Some?
    ensures var i, k := First(areas, start), First(Kept(areas, lo, hi), start);
            i.Some? && k.Some? ==> Kept(areas, lo, hi)[k.value] == areas[i.value]
  {
    hide First;
    var i, k := First(areas, start), First(Kept(areas, lo, hi), start);
    if areas != [] {
      var n := |areas| - 1;
      var front, a := areas[..n], areas[n];
      assert areas == front + [a];
      FirstConcat(front, a, start);
      KeptFirst(front, lo, hi, start);
      FirstConcat(Kept(front, lo, hi), a, start);
      assert Kept(areas, lo, hi)
          == if hi <= a.end && lo >= a.start then Kept(front, lo, hi) else Kept(front, lo, hi) + [a];
    }
  }

  // munmap keeps a non-empty heap if and only if the range does not lie inside it.
  lemma {:induction false} MunmapKeepsHeap(view: map<nat, nat>, areas: seq<MapArea>, tramp: nat, lo: nat, hi: nat,
                                           heapBottom: nat, brk: nat)
    requires HeapOk(areas, heapBottom, brk) && Floor(heapBottom) < Ceil(brk) && Agrees(view, areas, tramp)
    ensures HeapOk(Kept(areas, lo, hi), heapBottom, brk) <==> !(hi <= Ceil(brk) && lo >= Floor(heapBottom))
  {
    hide First, Floor, Ceil, Kept, Entries, AllOk;
    var start := Floor(heapBottom);
    var i := First(areas, start).value;
    if !(hi <= Ceil(brk) && lo >= start) {
      KeptFirst(areas, lo, hi, start);
    } else {
      HeapGone(areas, i, lo, hi);
    }
  }

  // Once a non-empty area went, nothing left starts and ends where it did.
  lemma {:induction false} HeapGone(areas: seq<MapArea>, i: nat, lo: nat, hi: nat)
    requires i < |areas| && Disjoint(areas) && areas[i].start < areas[i].end && hi <= areas[i].end
    requires lo >= areas[i].start
    ensures forall a :: a in Kept(areas, lo, hi) ==> !(a.start == areas[i].start && a.end == areas[i].end)
  {
    forall a | a in Kept(areas, lo, hi) ensures !(a.start == areas[i].start && a.end == areas[i].end) {
      KeptSome(areas, lo, hi, a);
      KeptStays(areas, lo, hi, a);
      var k :| 0 <= k < |areas| && areas[k] == a;
    }
  }

  lemma {:induction false} KeptStays(areas: seq<MapArea>, lo: nat, hi: nat, a: MapArea)
    requires a in Kept(areas, lo, hi)
    ensures !(hi <= a.end && lo >= a.start)
  {
    if areas != [] && a in Kept(areas[..|areas| - 1], lo, hi) { KeptStays(areas[..|areas| - 1], lo, hi, a); }
  }

  // The child of a fork has the same heap.
  lemma {:induction false} ForkKeepsHeap(xs: seq<MapArea>, ys: seq<MapArea>, heapBottom: nat, brk: nat)
    requires |xs| == |ys| && (forall i :: 0 <= i < |xs| ==> Twin(xs[i], ys[i])) && HeapOk(xs, heapBottom, brk)
    ensures HeapOk(ys, heapBottom, brk)
  {
    hide First, Floor, Ceil;
    var i, k := First(xs, Floor(heapBottom)).value, First(ys, Floor(heapBottom));
    assert Twin(xs[i], ys[i]);
    if k.Some? { assert Twin(xs[k.value], ys[k.value]); }
  }

  // exec keeps heap_bottom and program_brk: for bounds above the new stack and below the trap context,
  // the new heap is where they say if and only if both lie on the page of the new stack top.
  lemma {:induction false} ExecKeepsHeap(areas: seq<MapArea>, segs: seq<Segment>, mem: Memory, heapBottom: nat,
                                         brk: nat)
    requires GoodLayout(segs) && |areas| == |segs| + 3 && AllLoaded(areas[..|segs|], segs, mem)
    requires UserTail(areas[|segs|], areas[|segs| + 1], areas[|segs| + 2], MaxEnd(segs))
    requires StackTop(MaxEnd(segs)) <= heapBottom <= brk && Floor(heapBottom) < VPNS - 2
    ensures HeapOk(areas, heapBottom, brk) <==>
              Floor(heapBottom) == Floor(StackTop(MaxEnd(segs))) && Ceil(brk) == Floor(StackTop(MaxEnd(segs)))
  {
    hide SegEnd, SegStart, First, Filled;
    var n, e := |segs|, MaxEnd(segs);
    if n > 0 { LayoutOrder(segs, n - 1); }
    TailPlaces(e);
    assert Floor(StackTop(e)) == e + 3 == Ceil(StackTop(e)) && Floor(heapBottom) >= e + 3;
    forall k | 0 <= k < n ensures areas[k].start < e + 3 {
      SegmentsBelow(segs, k);
      assert Loaded(areas[..n][k], segs[k], mem);
    }
    var i := First(areas, Floor(heapBottom));
    assert areas[n + 1].start == e + 3;
    if i.Some? { assert i.value == n + 1; }
  }
}
