/** What a task sees of memory, and what a step of another task leaves of it. */
module Sights {
  import opened Address
  import opened Frames
  import opened FrameAllocator
  import opened PageTables
  import opened Areas
  import opened Layout
  import opened MemorySets
  import opened Fork
  import opened Tasks
  import opened Isolation
  import opened Worlds
  import opened Traps

  ghost predicate Alive(w: World, t: nat) {
    t in w.spaces && t in w.tasks.tcbs && w.tasks.tcbs[t].status != Zombie
  }

  // Task t has the same space, the same mapping, and the same bytes on every page it maps.
  ghost predicate SameSight(w: World, w': World, t: nat) {
    && t in w.spaces && t in w'.spaces && w'.spaces[t] == w.spaces[t]
    && View(w'.s.mem, w.spaces[t].tables) == View(w.s.mem, w.spaces[t].tables)
    && SameBytesSeen(w.s.mem, w'.s.mem, View(w.s.mem, w.spaces[t].tables))
  }

  ghost predicate SameBytesSeen(mem: Memory, mem': Memory, view: map<nat, nat>) {
    forall v :: v in view ==> At(mem', PpnOf(view[v])) == At(mem, PpnOf(view[v]))
  }

  // No live task but the running one sees the step from w to w'.
  ghost predicate Beside(w: World, w': World) {
    forall t: nat :: Alive(w, t) && w.tasks.current != Some(t) ==> SameSight(w, w', t)
  }

  // The trampoline is the same code.
  ghost predicate SameTrampoline(w: World, w': World) {
    At(w'.s.mem, PpnOf(w.tramp)) == At(w.s.mem, PpnOf(w.tramp))
  }

  // What a task sees is untouched by any step confined to other spaces.
  lemma {:induction false} Unobserved(w: World, w': World, ids: set<nat>, t: nat)
    requires Alive(w, t) && t in w'.spaces && w'.spaces[t] == w.spaces[t] && w.spaces[t].id !in ids
    requires Confined(ids, w.s, w'.s) && SameTrampoline(w, w') && WorldOk(w)
    ensures SameSight(w, w', t)
  {
    hide Inv, Tree, View, Holds, OwnsPages, Agrees, Pages, Owned, Conserved, AllFramed, PpnOf;
    var p := w.spaces[t];
    assert SpaceGood(p, w.tasks.tcbs[t], w.s, w.tramp, w.env);
    KeepLive(ids, p, w.s, w'.s, w.tramp);
    var view := View(w.s.mem, p.tables);
    TrampolineThere(view, p.areas, w.tramp);
    forall v | v in view ensures At(w'.s.mem, PpnOf(view[v])) == At(w.s.mem, PpnOf(view[v])) {
      if v != TRAMPOLINE_VPN { PageOwner(w.s.owner, p.id, p.areas, view, w.tramp, v); }
    }
  }

  lemma {:induction false} Numbers(w: World, t: nat, u: nat)
    requires WorldOk(w) && t in w.spaces && u in w.spaces && t != u
    ensures w.spaces[t].id !in {w.spaces[u].id, w.nextId, 0}
  {
    hide Inv, LiveSpace, AllGood, Owned, Conserved;
  }

  // A step of the caller's space, of a new space and of the kernel's.
  lemma {:induction false} CallerStep(w: World, w': World, ids: set<nat>, t: nat)
    requires w.tasks.current.Some? && w.tasks.current.value in w.spaces
    requires ids <= {w.spaces[w.tasks.current.value].id, w.nextId, 0}
    requires (t == w.tasks.current.value || t !in w.spaces) && t in w'.spaces
    requires w'.spaces == w.spaces[t := w'.spaces[t]]
    requires Confined(ids, w.s, w'.s) && SameTrampoline(w, w') && WorldOk(w)
    ensures Beside(w, w')
  {
    hide WorldOk, Confined, SameSight;
    forall u: nat | Alive(w, u) && w.tasks.current != Some(u) ensures SameSight(w, w', u) {
      Numbers(w, u, w.tasks.current.value);
      Unobserved(w, w', ids, u);
    }
  }

  // A child is reaped.
  lemma {:induction false} ReapStep(w: World, w': World, c: nat)
    requires w.tasks.current.Some? && w.tasks.current.value in w.spaces && c in w.spaces && !Alive(w, c)
    requires w'.spaces == w.spaces - {c} && SameTrampoline(w, w') && WorldOk(w)
    requires Confined({w.spaces[w.tasks.current.value].id, w.spaces[c].id, 0}, w.s, w'.s)
    ensures Beside(w, w')
  {
    hide WorldOk, Confined, SameSight;
    forall u: nat | Alive(w, u) && w.tasks.current != Some(u) ensures SameSight(w, w', u) {
      Numbers(w, u, w.tasks.current.value);
      Numbers(w, u, c);
      Unobserved(w, w', {w.spaces[w.tasks.current.value].id, w.spaces[c].id, 0}, u);
    }
  }

  // A step of the task table.
  lemma {:induction false} TableStep(w: World, w': World)
    requires w'.spaces == w.spaces && w'.s == w.s
    ensures Beside(w, w')
  {
  }

  lemma {:induction false} SightTransitive(w: World, w1: World, w2: World, t: nat)
    requires SameSight(w, w1, t) && SameSight(w1, w2, t)
    ensures SameSight(w, w2, t)
  {
    hide View, PpnOf;
  }

  // The exit code at offset `off` of a page of task t, when child c goes: whatever the code, no one else
  // is touched if and only if the four bytes end within the page, or the next frame is free or belongs
  // to the caller, the child or the kernel.
  lemma {:induction false} SpillsExactly(w: World, t: nat, v: nat, off: nat, c: nat)
    requires Alive(w, t) && c in w.spaces && off < PAGE_SIZE && v != TRAMPOLINE_VPN && WorldOk(w)
    requires v in View(w.s.mem, w.spaces[t].tables)
    ensures var f, ids := PpnOf(View(w.s.mem, w.spaces[t].tables)[v]), {w.spaces[t].id, w.spaces[c].id, 0};
            StaysHome(ids, w.s, f * PAGE_SIZE + off) <==>
              off <= 4092 || f + 1 !in w.s.owner || w.s.owner[f + 1].id in ids
  {
    hide Inv, Tree, View, Holds, OwnsPages, Agrees, Pages, Owned, Conserved, AllFramed, PpnOf, StaysHome;
    var p := w.spaces[t];
    assert SpaceGood(p, w.tasks.tcbs[t], w.s, w.tramp, w.env);
    PageOwner(w.s.owner, p.id, p.areas, View(w.s.mem, p.tables), w.tramp, v);
    SpillsAt({p.id, w.spaces[c].id, 0}, w.s, PpnOf(View(w.s.mem, p.tables)[v]), off);
  }
}
