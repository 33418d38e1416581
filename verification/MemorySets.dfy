/** Address spaces: a page table and a list of areas (src/mm/memory_set.rs:67-423). */
module MemorySets {
  import opened Address
  import opened Frames
  import opened FrameAllocator
  import opened PageTables
  import opened Areas
  import opened Layout

  function TrampolineEntry(ppn: nat): nat { Pte(ppn, WithV(R + X)) }

  // What a live space looks like, on plain values.
  ghost predicate SpaceOk(id: nat, s: Store, t: Tables, frames: seq<nat>, areas: seq<MapArea>, tramp: nat) {
    && Tree(id, s, t)
    && Holds(frames, id, s.owner)
    && Agrees(View(s.mem, t), areas, tramp)
    && OwnsPages(id, s.owner, Pages(areas))
  }

  // The frames that framed pages [lo, hi) take: one each, and one for every table on the way that is
  // not there yet.
  ghost function NewFrames(paths: set<Path>, lo: nat, hi: nat): int
    requires lo <= hi
  {
    hi - lo + |paths + PathsIn(lo, hi)| - |paths|
  }

  class MemorySet {
    const pt: PageTable
    const trampoline: nat   // physical page of the trampoline code, part of the kernel image
    var areas: seq<MapArea>

    ghost predicate Live()
      reads this, pt, pt.m
    {
      && pt.Valid() && trampoline < pt.m.base
      && Agrees(pt.Map(), areas, TrampolineEntry(trampoline))
      && OwnsPages(pt.id, pt.m.owner, Pages(areas))
    }

    // The frames this space holds and the free ones.  Every operation on the space keeps this sum.
    ghost function Budget(): nat
      reads this, pt, pt.m
    {
      pt.m.Free() + |pt.tables| + Weight(areas)
    }

    constructor (pt: PageTable, trampoline: nat)
      ensures this.pt == pt && this.trampoline == trampoline && areas == []
    {
      this.pt, this.trampoline, areas := pt, trampoline, [];
    }

    // MemorySet::push: maps the area, fills in the data, appends it to the list.
    method Push(a: MapArea, data: Option<seq<Byte>>) returns (o: Outcome)
      requires Live() && a.data == map[] && a.start <= a.end && a.start <= TRAMPOLINE_VPN
      requires data.Some? ==> a.kind.Framed?
      modifies this, pt, pt.m
      ensures pt.m.Valid()
      ensures o.OutOfFrames? ==> pt.m.Free() == 0 && old(pt.m.Free()) < Takes(old(pt.tables).Keys, a, a.start, a.end)
      ensures o.Fine? ==> old(pt.m.Free()) >= Takes(old(pt.tables).Keys, a, a.start, a.end)
      ensures o.Fine? ==> pt.tables.Keys == old(pt.tables).Keys + PathsIn(a.start, a.end)
      ensures o.MappedBefore? ==> exists v :: a.start <= v < a.end && v in old(pt.Map())
      ensures o.NotTranslated? ==> data.Some? && (a.start == a.end || |data.value| > (a.end - a.start) * PAGE_SIZE)
      ensures o in {StoreFault, WildStore} ==> data.Some? && |data.value| > (a.end - a.start) * PAGE_SIZE
      ensures o in {Fine, OutOfFrames, MappedBefore, NotTranslated, StoreFault, WildStore}
      ensures o.Fine? && data.Some? ==> |data.value| <= (a.end - a.start) * PAGE_SIZE
      ensures o.Fine? ==> Live() && |areas| == |old(areas)| + 1 && areas[..|areas| - 1] == old(areas)
      ensures o.Fine? ==> areas[|areas| - 1] == a.(data := areas[|areas| - 1].data)
      ensures o.Fine? ==> pt.Map() == old(pt.Map()) + EntriesOf(areas[|areas| - 1])
      ensures o.Fine? ==> forall v :: a.start <= v < a.end ==> v !in old(pt.Map())
      ensures o.Fine? ==> Extended(pt.id, old(pt.m.S()), pt.m.S())
      ensures o.Fine? ==> Filled(areas[|areas| - 1], data, pt.m.mem) && Budget() == old(Budget())
    {
      hide Tree, View, Holds, Extended, OwnsPages, Machine.Valid, Machine.Free, Agrees, Pages, MappedUpTo,
           TrampolineEntry, Copied, Weight, EntriesIn, Filled, AreaOk, Takes, PathsIn;
      ghost var tramp := TrampolineEntry(trampoline);
      TrampolineThere(pt.Map(), areas, tramp);
      PagesInView(pt.Map(), areas, tramp);
      var b;
      o, b := MapRange(pt, a, a.start, a.end, Pages(areas));
      if !o.Fine? {
        return;
      }
      PushedArea(pt.id, a, b, Pages(areas), old(pt.Map()), pt.Map(), pt.m.S());
      PushOk(old(pt.Map()), areas, tramp, b);
      ghost var s1 := pt.m.S();
      if data.Some? {
        AreaInView(pt.Map(), areas + [b], tramp, |areas|);
        o := CopyData(pt, b, data.value, Pages(areas + [b]));
        if !o.Fine? {
          return;
        }
        CopyExtends(pt.id, b, data.value, old(pt.m.S()), s1, pt.m.mem, Pages(areas), Pages(areas + [b]));
      }
      WeightPush(areas, b);
      areas := areas + [b];
      assert areas[..|areas| - 1] == old(areas);
    }

    // MapArea::new on two addresses, then push.  With no data this is insert_framed_area.
    method PushNew(startVa: nat, endVa: nat, perm: Perm, data: Option<seq<Byte>>) returns (o: Outcome)
      requires startVa < VA_SPACE && Live()
      modifies this, pt, pt.m
      ensures pt.m.Valid()
      ensures o in {Fine, OutOfFrames, MappedBefore, NotTranslated, StoreFault, WildStore, ReversedRange}
      ensures o.ReversedRange? <==> Floor(startVa) > Ceil(endVa)
      ensures o.OutOfFrames? ==> pt.m.Free() == 0
      ensures Floor(startVa) <= Ceil(endVa) ==>
        var n := NewFrames(old(pt.tables).Keys, Floor(startVa), Ceil(endVa));
        && (o.OutOfFrames? ==> old(pt.m.Free()) < n)
        && (o.Fine? ==> old(pt.m.Free()) >= n)
      ensures o.Fine? ==> pt.tables.Keys == old(pt.tables).Keys + PathsIn(Floor(startVa), Ceil(endVa))
      ensures o.MappedBefore? ==> exists v :: Floor(startVa) <= v < Ceil(endVa) && v in old(pt.Map())
      ensures o in {NotTranslated, StoreFault, WildStore} ==>
        data.Some? && (Floor(startVa) == Ceil(endVa) || |data.value| > (Ceil(endVa) - Floor(startVa)) * PAGE_SIZE)
      ensures o.Fine? && data.Some? ==> |data.value| <= (Ceil(endVa) - Floor(startVa)) * PAGE_SIZE
      ensures o.Fine? ==> Live() && |areas| == |old(areas)| + 1 && areas[..|areas| - 1] == old(areas)
      ensures o.Fine? ==> Budget() == old(Budget())
      ensures o.Fine? ==> var b := areas[|areas| - 1];
              && b == MapArea(Floor(startVa), Ceil(endVa), b.data, Framed, perm) && Filled(b, data, pt.m.mem)
              && pt.Map() == old(pt.Map()) + EntriesOf(b)
      ensures o.Fine? ==> forall v :: Floor(startVa) <= v < Ceil(endVa) ==> v !in old(pt.Map())
      ensures o.Fine? ==> Extended(pt.id, old(pt.m.S()), pt.m.S())
    {
      hide Tree, View, Holds, Extended, OwnsPages, Machine.Valid, Machine.Free, Agrees, Pages, Weight, TrampolineEntry,
           EntriesOf, Filled, Ceil, PathsIn;
      if Floor(startVa) > Ceil(endVa) {
        return ReversedRange;
      }
      o := Push(MapArea(Floor(startVa), Ceil(endVa), map[], Framed, perm), data);
    }

    // area.unmap followed by removal from the list.
    method RemoveAt(i: nat)
      requires Live() && i < |areas|
      modifies this, pt, pt.m
      ensures Live() && areas == Without(old(areas), i) && pt.tables == old(pt.tables)
      ensures pt.Map() == old(pt.Map()) - Range(old(areas[i]).start, old(areas[i]).end)
      ensures Budget() == old(Budget())
      ensures Released(pt.id, old(pt.m.S()), pt.m.S())
    {
      hide Tree, View, Holds, Released, OwnsPages, Machine.Valid, Machine.Free, Agrees, Pages, TrampolineEntry, Range,
           Entry;
      ghost var tramp := TrampolineEntry(trampoline);
      var a := areas[i];
      AreaInView(pt.Map(), areas, tramp, i);
      var b := UnmapRange(pt, a, a.start, a.end, Pages(areas));
      RemoveOk(old(pt.Map()), areas, tramp, i);
      WeightAt(areas, i);
      areas := Without(areas, i);
    }

    // MemorySet::munmap_area: drops every area that contains the whole range, and only those.
    // It never panics.
    method MunmapArea(startVa: nat, endVa: nat)
      requires Live()
      modifies this, pt, pt.m
      ensures Live() && areas == Kept(old(areas), Floor(startVa), Ceil(endVa)) && pt.tables == old(pt.tables)
      ensures Budget() == old(Budget())
      ensures Released(pt.id, old(pt.m.S()), pt.m.S())
    {
      hide Tree, View, Holds, Released, OwnsPages, Machine.Valid, Machine.Free, Agrees, Pages, TrampolineEntry, Range,
           Floor, Ceil, Live, Budget;
      var s, e := Floor(startVa), Ceil(endVa);
      var i := 0;
      ghost var k := 0;
      Reflexive(pt.id, pt.m.S());
      while i < |areas|
        invariant 0 <= i <= |areas| && 0 <= k <= |old(areas)| && Live() && pt.tables == old(pt.tables)
        invariant areas[..i] == Kept(old(areas)[..k], s, e) && areas[i..] == old(areas)[k..]
        invariant Budget() == old(Budget())
        invariant Released(pt.id, old(pt.m.S()), pt.m.S())
        decreases |old(areas)| - k
      {
        assert areas[i] == areas[i..][0] == old(areas)[k];
        assert old(areas)[..k + 1][..k] == old(areas)[..k];
        ghost var areas0 := areas;
        if e <= areas[i].end && s >= areas[i].start {
          ghost var s0 := pt.m.S();
          RemoveAt(i);
          ReleasedTransitive(pt.id, old(pt.m.S()), s0, pt.m.S());
          assert areas[..i] == areas0[..i] && areas[i..] == areas0[i..][1..];
        } else {
          i := i + 1;
          assert areas[..i] == areas0[..i - 1] + [areas0[i - 1]] && areas[i..] == areas0[i - 1..][1..];
        }
        k := k + 1;
      }
      assert areas[..i] == areas && old(areas)[..k] == old(areas);
    }

    // The `find` of remove_area_with_start_vpn, shrink_to and append_to: the first match.
    method FindArea(start: nat) returns (r: Option<nat>)
      ensures r == First(areas, start)
    {
      var i := 0;
      while i < |areas|
        invariant 0 <= i <= |areas| && First(areas, start) == FirstFrom(areas, start, i)
      {
        if areas[i].start == start {
          return Some(i);
        }
        i := i + 1;
      }
      return None;
    }

    // MemorySet::remove_area_with_start_vpn.
    method RemoveAreaWithStartVpn(start: nat)
      requires Live()
      modifies this, pt, pt.m
      ensures Live() && pt.tables == old(pt.tables)
      ensures match First(old(areas), start)
              case None => areas == old(areas) && pt.Map() == old(pt.Map())
              case Some(i) =>
                && areas == Without(old(areas), i)
                && pt.Map() == old(pt.Map()) - Range(old(areas)[i].start, old(areas)[i].end)
      ensures Budget() == old(Budget())
      ensures Released(pt.id, old(pt.m.S()), pt.m.S())
    {
      hide Tree, View, Holds, Released, OwnsPages, Machine.Valid, Machine.Free, Agrees, Pages, TrampolineEntry, Range;
      Reflexive(pt.id, pt.m.S());
      var r := FindArea(start);
      if r.Some? {
        RemoveAt(r.value);
      }
    }

    // MemorySet::append_to.  Reports whether the area exists; without it nothing happens.
    method AppendTo(startVa: nat, newEndVa: nat) returns (o: Outcome, found: bool)
      requires Live()
      modifies this, pt, pt.m
      ensures pt.m.Valid() && o in {Fine, OutOfFrames, MappedBefore, ReversedRange}
      ensures found == First(old(areas), Floor(startVa)).Some?
      ensures !found ==> o.Fine? && Live() && areas == old(areas) && pt.Map() == old(pt.Map())
      ensures !found ==> pt.m.owner == old(pt.m.owner) && pt.m.mem == old(pt.m.mem) && unchanged(this) && unchanged(pt)
      ensures found ==>
        var i := First(old(areas), Floor(startVa)).value; var a := old(areas)[i]; var e := Ceil(newEndVa);
              && (o.ReversedRange? <==> e < a.end)
              && (o.MappedBefore? ==> exists v :: a.end <= v < e && v in old(pt.Map()))
              && (o.OutOfFrames? ==> pt.m.Free() == 0)
              && (o.OutOfFrames? ==> a.end <= e && old(pt.m.Free()) < Takes(old(pt.tables).Keys, a, a.end, e))
              && (o.Fine? ==> a.end <= e && old(pt.m.Free()) >= Takes(old(pt.tables).Keys, a, a.end, e))
              && (o.Fine? ==> i < |areas| && FreshPages(areas[i], a.end, e, pt.m.mem))
              && (o.Fine? ==> Live() && |areas| == |old(areas)| && areas == old(areas)[i := areas[i]]
                              && areas[i] == a.(end := e, data := areas[i].data)
                              && pt.Map() == old(pt.Map()) + EntriesIn(areas[i], a.end, e)
                              && (forall v :: a.end <= v < e ==> v !in old(pt.Map())))
      ensures o.Fine? ==> Budget() == old(Budget())
      ensures o.Fine? ==> Extended(pt.id, old(pt.m.S()), pt.m.S())
    {
      hide Tree, View, Holds, Extended, OwnsPages, Machine.Valid, Machine.Free, Agrees, Pages, TrampolineEntry,
           MappedUpTo, Floor, Ceil, First, EntriesIn, Takes, FreshPages;
      Reflexive(pt.id, pt.m.S());
      var r := FindArea(Floor(startVa));
      if r.None? {
        return Fine, false;
      }
      var i, e := r.value, Ceil(newEndVa);
      if e < areas[i].end {
        return ReversedRange, true;
      }
      o := Append(i, e);
      return o, true;
    }

    // MapArea::append_to on area i.
    method Append(i: nat, e: nat) returns (o: Outcome)
      requires Live() && i < |areas| && areas[i].end <= e
      modifies this, pt, pt.m
      ensures pt.m.Valid() && o in {Fine, OutOfFrames, MappedBefore}
      ensures o.OutOfFrames? ==> pt.m.Free() == 0
      ensures o.OutOfFrames? ==> old(pt.m.Free()) < Takes(old(pt.tables).Keys, old(areas)[i], old(areas)[i].end, e)
      ensures o.Fine? ==> old(pt.m.Free()) >= Takes(old(pt.tables).Keys, old(areas)[i], old(areas)[i].end, e)
      ensures o.MappedBefore? ==> exists v :: old(areas)[i].end <= v < e && v in old(pt.Map())
      ensures o.Fine? ==> Live() && |areas| == |old(areas)| && areas == old(areas)[i := areas[i]]
      ensures o.Fine? ==> areas[i] == old(areas)[i].(end := e, data := areas[i].data)
      ensures o.Fine? ==> FreshPages(areas[i], old(areas)[i].end, e, pt.m.mem)
      ensures o.Fine? ==> pt.Map() == old(pt.Map()) + EntriesIn(areas[i], old(areas)[i].end, e)
      ensures o.Fine? ==> forall v :: old(areas)[i].end <= v < e ==> v !in old(pt.Map())
      ensures o.Fine? ==> Budget() == old(Budget())
      ensures o.Fine? ==> Extended(pt.id, old(pt.m.S()), pt.m.S())
    {
      hide Tree, View, Holds, Extended, OwnsPages, Machine.Valid, Machine.Free, Agrees, Pages, TrampolineEntry,
           MappedUpTo, EntriesIn, AreaOk, Takes, FreshPages;
      ghost var tramp := TrampolineEntry(trampoline);
      var a := areas[i];
      TrampolineThere(pt.Map(), areas, tramp);
      PagesInView(pt.Map(), areas, tramp);
      AreaInView(pt.Map(), areas, tramp, i);
      AreaBounds(a);
      var b;
      o, b := MapRange(pt, a, a.end, e, Pages(areas));
      if !o.Fine? {
        return;
      }
      AppendedArea(pt.id, a, b, e, Pages(areas), old(pt.Map()), pt.Map(), pt.m.S());
      GrowOk(old(pt.Map()), areas, tramp, i, b.(end := e));
      WeightReplace(areas, i, b.(end := e));
      areas := areas[i := b.(end := e)];
    }

    // MemorySet::shrink_to.
    method ShrinkTo(startVa: nat, newEndVa: nat) returns (o: Outcome, found: bool)
      requires Live()
      modifies this, pt, pt.m
      ensures pt.m.Valid() && o in {Fine, ReversedRange} && pt.tables == old(pt.tables)
      ensures found == First(old(areas), Floor(startVa)).Some?
      ensures !found ==> o.Fine? && Live() && areas == old(areas) && pt.Map() == old(pt.Map())
      ensures !found ==> pt.m.owner == old(pt.m.owner) && pt.m.mem == old(pt.m.mem) && unchanged(this) && unchanged(pt)
      ensures found ==>
        var i := First(old(areas), Floor(startVa)).value; var a := old(areas)[i]; var e := Ceil(newEndVa);
              && (o.Fine? <==> a.start <= e <= a.end)
              && (o.Fine? ==> Live() && areas == old(areas)[i := a.(end := e, data := a.data - Range(e, a.end))]
                              && pt.Map() == old(pt.Map()) - Range(e, a.end))
      ensures o.Fine? ==> Budget() == old(Budget())
      ensures o.Fine? ==> Released(pt.id, old(pt.m.S()), pt.m.S())
    {
      hide Tree, View, Holds, Released, OwnsPages, Machine.Valid, Machine.Free, Agrees, Pages, TrampolineEntry, Floor,
           Ceil, First, Range;
      Reflexive(pt.id, pt.m.S());
      var r := FindArea(Floor(startVa));
      if r.None? {
        return Fine, false;
      }
      var i, e := r.value, Ceil(newEndVa);
      // Below the start, the source unmaps what it can and then trips over the range check.
      if e > areas[i].end || e < areas[i].start {
        return ReversedRange, true;
      }
      Shrink(i, e);
      return Fine, true;
    }

    // MapArea::shrink_to on area i.
    method Shrink(i: nat, e: nat)
      requires Live() && i < |areas| && areas[i].start <= e <= areas[i].end
      modifies this, pt, pt.m
      ensures Live() && pt.tables == old(pt.tables)
      ensures areas
        == old(areas)[i := old(areas)[i].(end := e, data := old(areas)[i].data - Range(e, old(areas)[i].end))]
      ensures pt.Map() == old(pt.Map()) - Range(e, old(areas)[i].end) && Budget() == old(Budget())
      ensures Released(pt.id, old(pt.m.S()), pt.m.S())
    {
      hide Tree, View, Holds, Released, OwnsPages, Machine.Valid, Machine.Free, Agrees, Pages, TrampolineEntry, Range,
           Entry;
      ghost var tramp := TrampolineEntry(trampoline);
      var a := areas[i];
      AreaInView(pt.Map(), areas, tramp, i);
      var b := UnmapRange(pt, a, e, a.end, Pages(areas));
      ShrinkOk(old(pt.Map()), areas, tramp, i, e);
      IdenticalHoldsNothing(a, e);
      WeightReplace(areas, i, b.(end := e));
      areas := areas[i := b.(end := e)];
    }

    // A space that still holds its frames, whether or not its table agrees with its areas.
    ghost predicate Held()
      reads this, pt, pt.m
    {
      pt.Valid() && AllOk(areas) && Disjoint(areas) && OwnsPages(pt.id, pt.m.owner, Pages(areas))
    }

    // MemorySet::recycle_data_pages: all data frames go back and the table keeps stale entries,
    // so that a zombie holds its page-table nodes and nothing else.
    method RecycleDataPages()
      requires Held()
      modifies this, pt.m
      ensures Held() && areas == [] && pt.Map() == old(pt.Map()) && pt.m.mem == old(pt.m.mem)
      ensures Budget() == old(Budget()) && OwnsPages(pt.id, pt.m.owner, map[])
      ensures Released(pt.id, old(pt.m.S()), pt.m.S())
    {
      hide Tree, View, Holds, Released, OwnsPages, Machine.Valid, Machine.Free, SameTables, AllOk, Disjoint, Pages,
           Weight, AreaOk;
      Reflexive(pt.id, pt.m.S());
      while areas != []
        invariant Held() && pt.Map() == old(pt.Map()) && pt.m.mem == old(pt.m.mem) && Budget() == old(Budget())
        invariant Released(pt.id, old(pt.m.S()), pt.m.S())
        decreases |areas|
      {
        ghost var s0 := pt.m.S();
        TakeFirst(areas);
        DropData(pt.m, areas[0], pt.id, Pages(areas));
        TreeFrame(pt.id, s0, pt.tables, pt.m.S());
        HoldsFrame(pt.frames, pt.id, s0, pt.m.S());
        ReleasedTransitive(pt.id, old(pt.m.S()), s0, pt.m.S());
        areas := areas[1..];
      }
      NoPages();
    }

    // Dropping the whole space, table first: afterwards nobody holds a frame under its number.
    method Drop()
      requires Held()
      modifies this, pt.m
      ensures pt.m.Valid() && pt.m.mem == old(pt.m.mem) && pt.m.Free() == old(Budget())
      ensures Released(pt.id, old(pt.m.S()), pt.m.S()) && forall f :: f in pt.m.owner ==> pt.m.owner[f].id != pt.id
    {
      hide Tree, View, Holds, Released, OwnsPages, Machine.Valid, Machine.Free, SameTables, AllOk, Disjoint, Pages,
           Weight, AreaOk;
      DropTables(pt.m, pt.frames, pt.id, Pages(areas));
      while areas != []
        invariant pt.m.Valid() && AllOk(areas) && Disjoint(areas) && OwnsPages(pt.id, pt.m.owner, Pages(areas))
        invariant pt.m.mem == old(pt.m.mem) && pt.m.Free() + Weight(areas) == old(Budget())
        invariant Released(pt.id, old(pt.m.S()), pt.m.S())
        invariant forall f :: f in pt.m.owner ==> !(pt.m.owner[f].Node? && pt.m.owner[f].id == pt.id)
        decreases |areas|
      {
        ghost var s0 := pt.m.S();
        TakeFirst(areas);
        DropData(pt.m, areas[0], pt.id, Pages(areas));
        ReleasedTransitive(pt.id, old(pt.m.S()), s0, pt.m.S());
        NoNewOwners(pt.id, s0, pt.m.S());
        areas := areas[1..];
      }
      NoPages();
      NothingOwned(pt.id, pt.m.owner);
    }
  }

  lemma {:induction false} TakeFirst(areas: seq<MapArea>)
    requires areas != [] && AllOk(areas) && Disjoint(areas)
    ensures AllOk(areas[1..]) && Disjoint(areas[1..]) && AreaOk(areas[0])
    ensures forall v :: v in areas[0].data ==> v in Pages(areas) && Pages(areas)[v] == areas[0].data[v]
    ensures Pages(areas) - areas[0].data.Keys == Pages(areas[1..])
    ensures Weight(areas) == Weight(areas[1..]) + Cost(areas[0], areas[0].end - areas[0].start)
  {
    hide Pages, Entries, Weight, Apart;
    assert Without(areas, 0) == areas[1..];
    WithoutOk(areas, 0);
    Extract(areas, 0);
    WeightAt(areas, 0);
  }

  lemma {:induction false} NoPages()
    ensures Pages([]) == map[] && Weight([]) == 0
  {
  }

  lemma {:induction false} NoNewOwners(id: nat, s: Store, s': Store)
    requires Released(id, s, s') && forall f :: f in s.owner ==> !(s.owner[f].Node? && s.owner[f].id == id)
    ensures forall f :: f in s'.owner ==> !(s'.owner[f].Node? && s'.owner[f].id == id)
  {
  }

  lemma {:induction false} NothingOwned(id: nat, owner: Owners)
    requires OwnsPages(id, owner, map[]) && forall f :: f in owner ==> !(owner[f].Node? && owner[f].id == id)
    ensures forall f :: f in owner ==> owner[f].id != id
  {
  }

  lemma {:induction false} IdenticalHoldsNothing(a: MapArea, e: nat)
    requires AreaOk(a)
    ensures a.kind.Identical? ==> a.data - Range(e, a.end) == a.data
  {
  }

  lemma {:induction false} AreaBounds(a: MapArea)
    requires AreaOk(a)
    ensures a.start <= a.end <= TRAMPOLINE_VPN && forall v :: v in a.data ==> v < a.end
  {
  }

  lemma {:induction false} AppendedArea(id: nat, a: MapArea, b: MapArea, e: nat, pages: map<nat, nat>,
                                        view0: map<nat, nat>, view: map<nat, nat>, s: Store)
    requires AreaOk(a) && a.end <= e <= TRAMPOLINE_VPN
    requires MappedUpTo(id, a, b, a.end, e, pages, view0, view, s)
    ensures var c := b.(end := e);
            && AreaOk(c) && c == a.(end := e, data := b.data) && view == view0 + EntriesIn(c, a.end, e)
            && OwnsPages(id, s.owner, pages + PagesFrom(c, a.end))
            && (forall v :: v in a.data ==> v in c.data && c.data[v] == a.data[v]) && FreshPages(c, a.end, e, s.mem)
    ensures forall v :: a.end <= v < e ==> v !in view0
  {
    hide OwnsPages, Pte, WithV;
    assert PagesFrom(b.(end := e), a.end) == PagesFrom(b, a.end);
    assert EntriesIn(b.(end := e), a.end, e) == EntriesIn(b, a.end, e);
  }

  // retain_mut in munmap_area: an area stays unless it contains the whole page range [s, e).
  ghost function Kept(areas: seq<MapArea>, s: nat, e: nat): seq<MapArea> {
    if areas == [] then []
    else
      var a := areas[|areas| - 1];
      Kept(areas[..|areas| - 1], s, e) + if e <= a.end && s >= a.start then [] else [a]
  }

  // The first area that starts at page `start`.
  ghost function First(areas: seq<MapArea>, start: nat): (r: Option<nat>)
    ensures r.Some? ==> r.value < |areas| && areas[r.value].start == start
    ensures r.Some? ==> forall k :: 0 <= k < r.value ==> areas[k].start != start
    ensures r.None? ==> forall k :: 0 <= k < |areas| ==> areas[k].start != start
  {
    FirstFrom(areas, start, 0)
  }

  ghost function FirstFrom(areas: seq<MapArea>, start: nat, i: nat): (r: Option<nat>)
    requires i <= |areas|
    ensures r.Some? ==> i <= r.value < |areas| && areas[r.value].start == start
    ensures r.Some? ==> forall k :: i <= k < r.value ==> areas[k].start != start
    ensures r.None? ==> forall k :: i <= k < |areas| ==> areas[k].start != start
    decreases |areas| - i
  {
    if i == |areas| then None else if areas[i].start == start then Some(i) else FirstFrom(areas, start, i + 1)
  }

  // The bytes of a freshly pushed framed area: the data from its first byte on, then zeros.
  ghost predicate Filled(a: MapArea, data: Option<seq<Byte>>, mem: Memory) {
    a.kind.Framed? ==> forall v :: a.start <= v < a.end && v in a.data ==>
      At(mem, a.data[v]) == if data.None? then ZeroPage() else Overlay(data.value, v - a.start, ZeroPage())
  }

  lemma {:induction false} TrampolineThere(view: map<nat, nat>, areas: seq<MapArea>, tramp: nat)
    requires Agrees(view, areas, tramp)
    ensures TRAMPOLINE_VPN in view && view[TRAMPOLINE_VPN] == tramp
  {
  }

  lemma {:induction false} PushedArea(id: nat, a: MapArea, b: MapArea, pages: map<nat, nat>, view0: map<nat, nat>,
                                      view: map<nat, nat>, s: Store)
    requires a.data == map[] && a.start <= a.end <= TRAMPOLINE_VPN
    requires MappedUpTo(id, a, b, a.start, a.end, pages, view0, view, s)
    ensures AreaOk(b) && b == a.(data := b.data) && view == view0 + EntriesOf(b)
    ensures OwnsPages(id, s.owner, pages + b.data)
    ensures forall v :: a.start <= v < a.end ==> v !in view0
    ensures forall v :: v in b.data ==> v !in view0
    ensures Filled(b, None, s.mem)
  {
    hide OwnsPages, Entry, ZeroPage;
    assert PagesFrom(b, a.start) == b.data;
  }

  lemma {:induction false} CopyExtends(id: nat, b: MapArea, data: seq<Byte>, s: Store, s1: Store, mem2: Memory,
                                       pages: map<nat, nat>, pages': map<nat, nat>)
    requires Extended(id, s, s1) && AreaOk(b) && Copied(b, data, b.end - b.start, s1.mem, mem2)
    requires OwnsPages(id, s.owner, pages) && OwnsPages(id, s1.owner, pages') && pages' == pages + b.data
    requires Filled(b, None, s1.mem) && b.kind.Framed? && (forall v :: v in b.data ==> v !in pages)
    ensures Extended(id, s, s1.(mem := mem2)) && Filled(b, Some(data), mem2)
  {
    hide ZeroPage, Overlay;
    forall f | At(mem2, f) != At(s1.mem, f) ensures f in s1.owner && s1.owner[f].id == id && f !in s.owner {
      var v :| b.start <= v < b.start + (b.end - b.start) && v in b.data && b.data[v] == f;
      assert pages'[v] == f;
      assert s1.owner[f] == Data(id, v);
    }
  }
}
