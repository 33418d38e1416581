/** Lists of areas and their agreement with a page table (src/mm/memory_set.rs:67-423). */
module Layout {
  import opened Address
  import opened Frames
  import opened FrameAllocator
  import opened PageTables
  import opened Areas

  // ---- the areas of a space, taken together ----

  // All frame trackers of the areas, by page number.
  ghost function Pages(areas: seq<MapArea>): map<nat, nat> {
    if areas == [] then map[] else Pages(areas[..|areas| - 1]) + areas[|areas| - 1].data
  }

  ghost function EntriesOf(a: MapArea): map<nat, nat> { EntriesIn(a, a.start, a.end) }

  // All table entries the areas call for.
  ghost function Entries(areas: seq<MapArea>): map<nat, nat> {
    if areas == [] then map[] else Entries(areas[..|areas| - 1]) + EntriesOf(areas[|areas| - 1])
  }

  predicate Apart(a: MapArea, b: MapArea) {
    a.end <= b.start || b.end <= a.start || a.start >= a.end || b.start >= b.end
  }

  ghost predicate Disjoint(areas: seq<MapArea>) {
    forall i, j :: 0 <= i < j < |areas| ==> Apart(areas[i], areas[j])
  }

  ghost predicate AllOk(areas: seq<MapArea>) {
    forall i :: 0 <= i < |areas| ==> AreaOk(areas[i])
  }

  // The table holds exactly the disjoint union of the areas, and the trampoline.
  ghost predicate Agrees(view: map<nat, nat>, areas: seq<MapArea>, tramp: nat) {
    AllOk(areas) && Disjoint(areas) && view == Entries(areas)[TRAMPOLINE_VPN := tramp]
  }

  lemma {:induction false} EntriesKeys(areas: seq<MapArea>, v: nat)
    ensures v in Entries(areas) ==> exists i :: 0 <= i < |areas| && areas[i].start <= v < areas[i].end
    ensures v in Pages(areas) ==> exists i :: 0 <= i < |areas| && v in areas[i].data
  {
    hide Entry;
    if areas != [] {
      var n := |areas| - 1;
      EntriesKeys(areas[..n], v);
      if v in Entries(areas) && v !in EntriesOf(areas[n]) {
        var i :| 0 <= i < n && areas[..n][i].start <= v < areas[..n][i].end;
        assert areas[i].start <= v < areas[i].end;
      }
      if v in Pages(areas) && v !in areas[n].data {
        var i :| 0 <= i < n && v in areas[..n][i].data;
        assert v in areas[i].data;
      }
    }
  }

  lemma {:induction false} EntriesHas(areas: seq<MapArea>, i: nat, v: nat)
    requires i < |areas| && areas[i].start <= v < areas[i].end && Disjoint(areas)
    ensures v in Entries(areas) && Entries(areas)[v] == Entry(areas[i], v)
  {
    hide Entry;
    var n := |areas| - 1;
    if i < n {
      EntriesHas(areas[..n], i, v);
      assert Apart(areas[i], areas[n]);
    }
  }

  lemma {:induction false} PagesHas(areas: seq<MapArea>, i: nat, v: nat)
    requires i < |areas| && v in areas[i].data && Disjoint(areas) && AllOk(areas)
    ensures v in Pages(areas) && Pages(areas)[v] == areas[i].data[v]
  {
    var n := |areas| - 1;
    assert AreaOk(areas[i]) && AreaOk(areas[n]);
    if i < n {
      PagesHas(areas[..n], i, v);
      assert Apart(areas[i], areas[n]);
    }
  }

  // ---- counting ----

  function Size(a: MapArea): nat { if a.kind.Framed? && a.start <= a.end then a.end - a.start else 0 }

  // How many frames the areas hold.
  ghost function Weight(areas: seq<MapArea>): nat {
    if areas == [] then 0 else Weight(areas[..|areas| - 1]) + Size(areas[|areas| - 1])
  }

  lemma {:induction false} WeightAt(areas: seq<MapArea>, i: nat)
    requires i < |areas|
    ensures Weight(areas) == Weight(Without(areas, i)) + Size(areas[i])
  {
    hide Size;
    var n := |areas| - 1;
    if i < n {
      WeightAt(areas[..n], i);
      assert Without(areas[..n], i) == Without(areas, i)[..n - 1];
    } else {
      assert Without(areas, i) == areas[..n];
    }
  }

  lemma {:induction false} WeightPush(areas: seq<MapArea>, b: MapArea)
    ensures Weight(areas + [b]) == Weight(areas) + Size(b)
  {
    assert (areas + [b])[..|areas|] == areas;
  }

  lemma {:induction false} WeightReplace(areas: seq<MapArea>, i: nat, b: MapArea)
    requires i < |areas|
    ensures Weight(areas[i := b]) + Size(areas[i]) == Weight(areas) + Size(b)
  {
    hide Size, Weight;
    WeightAt(areas, i);
    WeightAt(areas[i := b], i);
    assert Without(areas[i := b], i) == Without(areas, i);
  }

  // ---- taking one area out ----

  function Without(areas: seq<MapArea>, i: nat): seq<MapArea>
    requires i < |areas|
  {
    areas[..i] + areas[i + 1..]
  }

  lemma {:induction false} WithoutOk(areas: seq<MapArea>, i: nat)
    requires i < |areas| && AllOk(areas) && Disjoint(areas)
    ensures AllOk(Without(areas, i)) && Disjoint(Without(areas, i))
    ensures forall k :: 0 <= k < |areas| - 1 ==> Without(areas, i)[k] == areas[if k < i then k else k + 1]
    ensures forall k :: 0 <= k < |areas| - 1 ==> Apart(Without(areas, i)[k], areas[i])
  {
    hide AreaOk, Apart;
    forall k | 0 <= k < |areas| - 1 ensures Apart(Without(areas, i)[k], areas[i]) {
      ApartSymmetric(areas[k], areas[i]);
      ApartSymmetric(areas[k + 1], areas[i]);
    }
  }

  lemma {:induction false} ApartSymmetric(a: MapArea, b: MapArea)
    ensures Apart(a, b) <==> Apart(b, a)
  {
  }

  lemma {:induction false} ApartKeys(a: MapArea, b: MapArea)
    requires AreaOk(a) && AreaOk(b) && Apart(a, b)
    ensures EntriesOf(a).Keys !! EntriesOf(b).Keys && a.data.Keys !! b.data.Keys
  {
    hide Entry;
  }

  lemma {:induction false} MergeSwap(x: map<nat, nat>, a: map<nat, nat>, l: map<nat, nat>)
    requires a.Keys !! l.Keys && x.Keys !! a.Keys
    ensures x + a + l == x + l + a && (x + l).Keys !! a.Keys
  {
  }

  // An area can be taken out of the list, wherever it stands, without disturbing the others.
  lemma {:induction false} Extract(areas: seq<MapArea>, i: nat)
    requires i < |areas| && AllOk(areas) && Disjoint(areas)
    ensures var ws, a := Without(areas, i), areas[i];
            && Entries(areas) == Entries(ws) + EntriesOf(a) && Entries(ws).Keys !! EntriesOf(a).Keys
            && Pages(areas) == Pages(ws) + a.data && Pages(ws).Keys !! a.data.Keys
    decreases |areas|, i
  {
    hide EntriesOf, AreaOk, Apart, Entries, Pages;
    var n := |areas| - 1;
    var ws, a := Without(areas, i), areas[i];
    Last(areas);
    if i < n {
      Extract(areas[..n], i);
      assert Without(areas[..n], i) == ws[..n - 1];
      assert Apart(a, areas[n]);
      ApartKeys(a, areas[n]);
      Last(ws);
      MergeSwap(Entries(ws[..n - 1]), EntriesOf(a), EntriesOf(areas[n]));
      MergeSwap(Pages(ws[..n - 1]), a.data, areas[n].data);
    } else {
      assert ws == areas[..n];
      LastApart(ws, a);
    }
  }

  lemma {:induction false} Last(areas: seq<MapArea>)
    requires areas != []
    ensures Entries(areas) == Entries(areas[..|areas| - 1]) + EntriesOf(areas[|areas| - 1])
    ensures Pages(areas) == Pages(areas[..|areas| - 1]) + areas[|areas| - 1].data
  {
    hide EntriesOf;
  }

  lemma {:induction false} LastApart(ws: seq<MapArea>, a: MapArea)
    requires AllOk(ws) && AreaOk(a) && forall k :: 0 <= k < |ws| ==> Apart(ws[k], a)
    ensures Entries(ws).Keys !! EntriesOf(a).Keys && Pages(ws).Keys !! a.data.Keys
  {
    hide EntriesOf, AreaOk, Apart;
    if ws != [] {
      LastApart(ws[..|ws| - 1], a);
      ApartKeys(ws[|ws| - 1], a);
    }
  }

  // ---- what the operations do to the agreement ----

  lemma {:induction false} AreaInView(view: map<nat, nat>, areas: seq<MapArea>, tramp: nat, i: nat)
    requires Agrees(view, areas, tramp) && i < |areas|
    ensures AreaOk(areas[i])
    ensures forall v :: areas[i].start <= v < areas[i].end ==> v in view && view[v] == Entry(areas[i], v)
    ensures forall v :: v in areas[i].data ==> v in Pages(areas) && Pages(areas)[v] == areas[i].data[v]
  {
    hide Entries, Entry, Pages;
    forall v | areas[i].start <= v < areas[i].end ensures v in view && view[v] == Entry(areas[i], v) {
      EntriesHas(areas, i, v);
    }
    forall v | v in areas[i].data ensures v in Pages(areas) && Pages(areas)[v] == areas[i].data[v] {
      PagesHas(areas, i, v);
    }
  }

  lemma {:induction false} PagesInView(view: map<nat, nat>, areas: seq<MapArea>, tramp: nat)
    requires Agrees(view, areas, tramp)
    ensures Pages(areas).Keys <= view.Keys
  {
    hide Entries, Entry, Pages;
    forall v | v in Pages(areas) ensures v in view {
      EntriesKeys(areas, v);
      var i :| 0 <= i < |areas| && v in areas[i].data;
      assert AreaOk(areas[i]);
      EntriesHas(areas, i, v);
    }
  }

  // An area none of whose pages is in the view is apart from every area of the space.
  lemma {:induction false} UnmappedApart(view: map<nat, nat>, areas: seq<MapArea>, tramp: nat, b: MapArea, k: nat)
    requires Agrees(view, areas, tramp) && k < |areas| && forall v :: b.start <= v < b.end ==> v !in view
    ensures Apart(areas[k], b)
  {
    hide Entries, Entry, Pages;
    AreaInView(view, areas, tramp, k);
    var v := if b.start < areas[k].start then areas[k].start else b.start;
    assert Within(b.start, v, b.end) ==> v !in view;
  }

  lemma {:induction false} PushOk(view: map<nat, nat>, areas: seq<MapArea>, tramp: nat, b: MapArea)
    requires Agrees(view, areas, tramp) && AreaOk(b) && forall v :: b.start <= v < b.end ==> v !in view
    ensures Agrees(view + EntriesOf(b), areas + [b], tramp) && Pages(areas + [b]) == Pages(areas) + b.data
  {
    hide Entry, AreaOk, Apart;
    var bs := areas + [b];
    assert bs[..|bs| - 1] == areas;
    forall i, j | 0 <= i < j < |bs| ensures Apart(bs[i], bs[j]) {
      if j == |areas| {
        UnmappedApart(view, areas, tramp, b, i);
      }
    }
    BelowTrampoline(b);
  }

  lemma {:induction false} BelowTrampoline(b: MapArea)
    requires AreaOk(b)
    ensures TRAMPOLINE_VPN !in EntriesOf(b)
  {
    hide Entry;
  }

  lemma {:induction false} RemoveOk(view: map<nat, nat>, areas: seq<MapArea>, tramp: nat, i: nat)
    requires Agrees(view, areas, tramp) && i < |areas|
    ensures var a := areas[i];
            && Agrees(view - Range(a.start, a.end), Without(areas, i), tramp)
            && Pages(Without(areas, i)) == if a.kind.Framed? then Pages(areas) - Range(a.start, a.end) else Pages(areas)
  {
    hide Entry, Entries, Pages, Disjoint, Apart;
    Extract(areas, i);
    WithoutOk(areas, i);
    BelowTrampoline(areas[i]);
    assert AreaOk(areas[i]);
    MergeOut(Entries(Without(areas, i)), areas[i], tramp);
    MergePages(Pages(Without(areas, i)), areas[i]);
  }

  lemma {:induction false} MergeOut(x: map<nat, nat>, a: MapArea, tramp: nat)
    requires x.Keys !! EntriesOf(a).Keys && a.end <= TRAMPOLINE_VPN
    ensures (x + EntriesOf(a))[TRAMPOLINE_VPN := tramp] - Range(a.start, a.end) == x[TRAMPOLINE_VPN := tramp]
  {
    hide Entry;
    assert forall v :: a.start <= v < a.end ==> v in EntriesOf(a);
  }

  lemma {:induction false} MergePages(x: map<nat, nat>, a: MapArea)
    requires x.Keys !! a.data.Keys && AreaOk(a)
    ensures x == if a.kind.Framed? then (x + a.data) - Range(a.start, a.end) else x + a.data
  {
    if a.kind.Framed? {
      assert a.data.Keys == Range(a.start, a.end);
    }
  }

  // Replacing area i by one that is apart from all the others.
  lemma {:induction false} ReplaceOk(view: map<nat, nat>, areas: seq<MapArea>, tramp: nat, i: nat, b: MapArea)
    requires Agrees(view, areas, tramp) && i < |areas| && AreaOk(b)
    requires forall k :: 0 <= k < |areas| && k != i ==> Apart(areas[k], b)
    ensures var a := areas[i];
            && Agrees(view - Range(a.start, a.end) + EntriesOf(b), areas[i := b], tramp)
            && Pages(areas[i := b]) == Pages(Without(areas, i)) + b.data
  {
    hide Entry, Entries, Pages, Apart, Range;
    var bs := areas[i := b];
    forall j, k | 0 <= j < k < |bs| ensures Apart(bs[j], bs[k]) {
      if k != i {
        ApartSymmetric(areas[k], b);
      }
    }
    assert Without(bs, i) == Without(areas, i);
    RemoveOk(view, areas, tramp, i);
    Extract(bs, i);
    BelowTrampoline(b);
    assert Entries(Without(areas, i))[TRAMPOLINE_VPN := tramp] + EntriesOf(b)
      == (Entries(Without(areas, i)) + EntriesOf(b))[TRAMPOLINE_VPN := tramp];
  }

  // append_to: pages [a.end, end) were unmapped and now belong to the area.
  lemma {:induction false} GrowOk(view: map<nat, nat>, areas: seq<MapArea>, tramp: nat, i: nat, b: MapArea)
    requires Agrees(view, areas, tramp) && i < |areas| && AreaOk(b)
    requires b.start == areas[i].start && areas[i].end <= b.end && b.kind == areas[i].kind && b.perm == areas[i].perm
    requires forall v :: v in areas[i].data ==> v in b.data && b.data[v] == areas[i].data[v]
    requires forall v :: areas[i].end <= v < b.end ==> v !in view
    ensures Agrees(view + EntriesIn(b, areas[i].end, b.end), areas[i := b], tramp)
    ensures Pages(areas[i := b]) == Pages(areas) + PagesFrom(b, areas[i].end)
  {
    hide Entries, Pages, Range, Entry, Apart, EntriesIn, PagesFrom;
    var a := areas[i];
    forall k | 0 <= k < |areas| && k != i ensures Apart(areas[k], b) {
      GrowApart(view, areas, tramp, i, b, k);
    }
    ReplaceOk(view, areas, tramp, i, b);
    AreaInView(view, areas, tramp, i);
    Extract(areas, i);
    GrownView(view, a, b);
    GrownPages(Pages(Without(areas, i)), a, b);
  }

  lemma {:induction false} GrowApart(view: map<nat, nat>, areas: seq<MapArea>, tramp: nat, i: nat, b: MapArea, k: nat)
    requires Agrees(view, areas, tramp) && i < |areas| && k < |areas| && k != i
    requires b.start == areas[i].start && areas[i].end <= b.end
    requires forall v :: areas[i].end <= v < b.end ==> v !in view
    ensures Apart(areas[k], b)
  {
    hide Entries, Pages, Entry;
    var a := areas[i];
    UnmappedApart(view, areas, tramp, b.(start := a.end), k);
    assert if k < i then Apart(areas[k], a) else Apart(a, areas[k]);
    assert AreaOk(areas[k]) && AreaOk(a);
  }

  lemma {:induction false} GrownPages(x: map<nat, nat>, a: MapArea, b: MapArea)
    requires AreaOk(a) && AreaOk(b) && a.kind == b.kind && b.start == a.start && a.end <= b.end
    requires forall v :: v in a.data ==> v in b.data && b.data[v] == a.data[v]
    ensures x + b.data == x + a.data + PagesFrom(b, a.end)
  {
  }

  lemma {:induction false} GrownView(view: map<nat, nat>, a: MapArea, b: MapArea)
    requires b.start == a.start <= a.end <= b.end && b.perm == a.perm && AreaOk(a) && AreaOk(b) && a.kind == b.kind
    requires forall v :: v in a.data ==> v in b.data && b.data[v] == a.data[v]
    requires forall v :: a.start <= v < a.end ==> v in view && view[v] == Entry(a, v)
    ensures view - Range(a.start, a.end) + EntriesOf(b) == view + EntriesIn(b, a.end, b.end)
  {
    hide Pte, WithV;
    assert forall v :: a.start <= v < a.end ==> Entry(b, v) == Entry(a, v);
  }

  // shrink_to: pages [end, a.end) leave the area.
  lemma {:induction false} ShrinkOk(view: map<nat, nat>, areas: seq<MapArea>, tramp: nat, i: nat, end: nat)
    requires Agrees(view, areas, tramp) && i < |areas| && areas[i].start <= end <= areas[i].end
    ensures var b := areas[i].(end := end, data := areas[i].data - Range(end, areas[i].end));
            && Agrees(view - Range(end, areas[i].end), areas[i := b], tramp)
            && Pages(areas[i := b]) == if b.kind.Framed? then Pages(areas) - Range(end, areas[i].end) else Pages(areas)
  {
    hide Entries, Pages;
    var a := areas[i];
    assert AreaOk(a);
    var b := a.(end := end, data := a.data - Range(end, a.end));
    forall k | 0 <= k < |areas| && k != i ensures Apart(areas[k], b) {
      ApartSymmetric(areas[k], a);
      assert if k < i then Apart(areas[k], a) else Apart(a, areas[k]);
    }
    ReplaceOk(view, areas, tramp, i, b);
    AreaInView(view, areas, tramp, i);
    Extract(areas, i);
    ShrunkView(view, a, b);
    ShrunkPages(Pages(Without(areas, i)), a, b);
  }

  lemma {:induction false} ShrunkView(view: map<nat, nat>, a: MapArea, b: MapArea)
    requires b.start == a.start <= b.end <= a.end && b.perm == a.perm && AreaOk(a) && AreaOk(b)
    requires a.kind == b.kind && (forall v :: v in b.data ==> v in a.data && b.data[v] == a.data[v])
    requires forall v :: a.start <= v < a.end ==> v in view && view[v] == Entry(a, v)
    ensures view - Range(a.start, a.end) + EntriesOf(b) == view - Range(b.end, a.end)
  {
    hide Pte, WithV;
    assert forall v :: b.start <= v < b.end ==> Entry(b, v) == Entry(a, v);
  }

  lemma {:induction false} ShrunkPages(x: map<nat, nat>, a: MapArea, b: MapArea)
    requires AreaOk(a) && AreaOk(b) && x.Keys !! a.data.Keys && b.data == a.data - Range(b.end, a.end)
    requires a.kind == b.kind
    requires a.start <= b.end <= a.end
    ensures x + b.data == if a.kind.Framed? then (x + a.data) - Range(b.end, a.end) else x + a.data
  {
    if a.kind.Framed? {
      assert forall v :: Within(b.end, v, a.end) ==> v in a.data;
    } else {
      assert a.data == map[];
    }
  }
}
