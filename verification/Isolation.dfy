/** Many address spaces on one machine: what an operation of one leaves of the others, and how
    their holdings add up. */
module Isolation {
  import opened Address
  import opened Frames
  import opened FrameAllocator
  import opened PageTables
  import opened Areas
  import opened Layout
  import opened MemorySets
  import opened Fork

  // Frames held by spaces outside ids keep their holder and their bytes, and no such holder is new.
  ghost predicate Confined(ids: set<nat>, s: Store, s': Store) {
    && (forall f :: f in s.owner && s.owner[f].id !in ids ==>
        f in s'.owner && s'.owner[f] == s.owner[f] && At(s'.mem, f) == At(s.mem, f))
    && (forall f :: f in s'.owner && s'.owner[f].id !in ids ==> f in s.owner && s.owner[f] == s'.owner[f])
  }

  lemma {:induction false} ExtendedConfines(id: nat, s: Store, s': Store)
    requires Extended(id, s, s')
    ensures Confined({id}, s, s')
  {
  }

  lemma {:induction false} ReleasedConfines(id: nat, s: Store, s': Store)
    requires Released(id, s, s')
    ensures Confined({id}, s, s')
  {
  }

  lemma {:induction false} ConfinedTransitive(a: set<nat>, b: set<nat>, s: Store, s1: Store, s2: Store)
    requires Confined(a, s, s1) && Confined(b, s1, s2)
    ensures Confined(a + b, s, s2)
  {
  }

  // The rest of a space: tables, data frames, mapping and bytes.
  lemma {:induction false} ConfinedOther(ids: set<nat>, other: nat, s: Store, s': Store, t: Tables, frames: seq<nat>,
                                         pages: map<nat, nat>)
    requires other !in ids && Confined(ids, s, s')
    requires Tree(other, s, t) && Holds(frames, other, s.owner) && OwnsPages(other, s.owner, pages)
    ensures Tree(other, s', t) && Holds(frames, other, s'.owner) && OwnsPages(other, s'.owner, pages)
    ensures View(s'.mem, t) == View(s.mem, t)
  {
    hide Tree, View;
    assert SameTables(other, s, s');
    TreeFrame(other, s, t, s');
  }

  // Two live spaces map no frame in common, apart from the trampoline.
  lemma {:induction false} NoSharedFrame(owner: Owners, id1: nat, id2: nat, xs: seq<MapArea>, ys: seq<MapArea>,
                                         view1: map<nat, nat>, view2: map<nat, nat>, tramp1: nat, tramp2: nat,
                                         v: nat, w: nat)
    requires id1 != id2 && AllFramed(xs) && AllFramed(ys)
    requires OwnsPages(id1, owner, Pages(xs)) && OwnsPages(id2, owner, Pages(ys))
    requires Agrees(view1, xs, tramp1) && Agrees(view2, ys, tramp2)
    requires v in view1 && w in view2 && v != TRAMPOLINE_VPN && w != TRAMPOLINE_VPN
    ensures PpnOf(view1[v]) != PpnOf(view2[w])
    ensures PpnOf(view1[v]) in owner && owner[PpnOf(view1[v])] == Data(id1, v)
  {
    hide Agrees, OwnsPages, Pages, PpnOf, AllFramed;
    PageOwner(owner, id1, xs, view1, tramp1, v);
    PageOwner(owner, id2, ys, view2, tramp2, w);
  }

  // The frame behind a mapped user page is held by that page of that space: in particular it is
  // no page-table node.
  lemma {:induction false} PageOwner(owner: Owners, id: nat, xs: seq<MapArea>, view: map<nat, nat>, tramp: nat, v: nat)
    requires AllFramed(xs) && OwnsPages(id, owner, Pages(xs)) && Agrees(view, xs, tramp) && v in view
    requires v != TRAMPOLINE_VPN
    ensures PpnOf(view[v]) in owner && owner[PpnOf(view[v])] == Data(id, v)
  {
    hide Entries, Pages, OwnsPages, Entry, PpnOf, AllOk, Disjoint;
    EntriesKeys(xs, v);
    var i :| 0 <= i < |xs| && xs[i].start <= v < xs[i].end;
    AreaInView(view, xs, tramp, i);
    AgreesOk(view, xs, tramp);
    AreaFrames(id, owner, xs, i);
    HasPage(xs[i], v);
    EntryFrame(xs[i], v);
  }

  lemma {:induction false} HasPage(a: MapArea, v: nat)
    requires AreaOk(a) && a.kind.Framed? && a.start <= v < a.end
    ensures v in a.data && v < VPNS
  {
  }

  // ---- adding up ----

  // What is listed under the numbers below n.
  ghost function Sum(h: map<nat, nat>, n: nat): nat {
    if n == 0 then 0 else Sum(h, n - 1) + if n - 1 in h then h[n - 1] else 0
  }

  lemma {:induction false} SumPut(h: map<nat, nat>, n: nat, k: nat, x: nat)
    requires k < n
    ensures Sum(h[k := x], n) + (if k in h then h[k] else 0) == Sum(h, n) + x
  {
    if n - 1 != k { SumPut(h, n - 1, k, x); } else { SumAbove(h, n - 1, k, x); }
  }

  lemma {:induction false} SumAbove(h: map<nat, nat>, n: nat, k: nat, x: nat)
    requires n <= k
    ensures Sum(h[k := x], n) == Sum(h, n) && Sum(h - {k}, n) == Sum(h, n)
  {
    if n > 0 { SumAbove(h, n - 1, k, x); }
  }

  lemma {:induction false} SumDrop(h: map<nat, nat>, n: nat, k: nat)
    requires k < n && k in h
    ensures Sum(h - {k}, n) + h[k] == Sum(h, n)
  {
    if n - 1 != k { SumDrop(h, n - 1, k); } else { SumAbove(h, n - 1, k, 0); }
  }
}
