/** Process numbers and kernel stacks (src/task/pid.rs). */
module Pids {
  import opened Address
  import opened Frames
  import opened FrameAllocator
  import opened PageTables
  import opened Areas
  import opened Layout
  import opened MemorySets
  import Tasks

  class PidAllocator {
    var current: nat
    var recycled: seq<nat>

    ghost predicate Valid()
      reads this
    {
      Tasks.NoDup(recycled) && forall p :: p in recycled ==> p < current
    }

    // The pids that are out.
    ghost function Live(): set<nat>
      reads this
    {
      set p | 0 <= p < current && p !in recycled
    }

    constructor ()
      ensures Valid() && Live() == {} && current == 0
    {
      current, recycled := 0, [];
    }

    // A pid nobody has.  The counter only moves when every pid below it is out.
    method Alloc() returns (pid: nat)
      requires Valid()
      modifies this
      ensures Valid() && pid !in old(Live()) && Live() == old(Live()) + {pid}
      ensures current == old(current) || (current == old(current) + 1 && pid == old(current) && recycled == [])
      ensures pid < current
    {
      if |recycled| > 0 {
        pid := recycled[|recycled| - 1];
        recycled := recycled[..|recycled| - 1];
        assert old(recycled) == recycled + [pid];
        assert pid in old(recycled) && pid !in recycled;
        assert forall p :: p in recycled ==> p in old(recycled);
      } else {
        current := current + 1;
        pid := current - 1;
      }
    }

    // Returns false where one of the two assertions fires: exactly for pids that are not out.
    method Dealloc(pid: nat) returns (ok: bool)
      requires Valid()
      modifies this
      ensures Valid() && (ok <==> pid in old(Live())) && current == old(current)
      ensures Live() == old(Live()) - {pid}
    {
      if pid >= current || pid in recycled {
        return false;
      }
      recycled := recycled + [pid];
      return true;
    }
  }

  // ---- kernel_stack_position ----

  // Both subtractions wrap on machine words.
  function StackTop(pid: nat): nat { (TRAMPOLINE - pid * (KERNEL_STACK_SIZE + PAGE_SIZE)) % WORD }

  function StackBottom(pid: nat): nat { (StackTop(pid) - KERNEL_STACK_SIZE) % WORD }

  // The stack of this pid does not wrap below page `floor`.
  predicate Fits(pid: nat, floor: nat) { floor + 3 * pid + 3 <= VPNS }

  // First page of the stack; two pages long, the third is the guard page above the next stack.
  function StackStart(pid: nat): nat
    requires Fits(pid, 0)
  {
    VPNS - 3 - 3 * pid
  }

  // After truncation to 39 bits the stack is still the two pages below the guard page.
  lemma {:induction false} StackPosition(pid: nat)
    requires Fits(pid, 0)
    ensures Floor(VirtAddr(StackBottom(pid))) == StackStart(pid)
    ensures Ceil(VirtAddr(StackTop(pid))) == StackStart(pid) + 2
    ensures StackBottom(pid) + KERNEL_STACK_SIZE == StackTop(pid) == WORD - 4096 - 12288 * pid
  {
    var top := TRAMPOLINE - 12288 * pid;
    assert 0 <= top - 8192 && top < WORD;
    assert StackTop(pid) == top && StackBottom(pid) == top - 8192;
    var k := VA_SPACE * (WORD / VA_SPACE - 1);
    assert top - k == 4096 * (StackStart(pid) + 2) && 0 <= top - k - 8192 && top - k < VA_SPACE;
    Truncated(top, WORD / VA_SPACE - 1);
    Truncated(top - 8192, WORD / VA_SPACE - 1);
  }

  lemma {:induction false} Truncated(v: nat, k: nat)
    requires 0 <= v - VA_SPACE * k < VA_SPACE
    ensures VirtAddr(v) == v - VA_SPACE * k
  {
  }

  // Stacks of different pids are apart, with a page between them.
  lemma {:induction false} StacksApart(p: nat, q: nat)
    requires Fits(p, 0) && Fits(q, 0) && p != q
    ensures StackStart(p) + 2 < StackStart(q) || StackStart(q) + 2 < StackStart(p)
  {
  }

  // ---- the kernel space ----

  predicate IsStack(a: MapArea, pid: nat) {
    Fits(pid, 0) && a.start == StackStart(pid) && a.end == StackStart(pid) + 2 && a.kind.Framed? && a.perm == R + W
  }

  // The areas of the kernel space: the sections mapped at boot, all below page `floor`, and then
  // one stack for every pid of ps.
  ghost predicate Stacked(areas: seq<MapArea>, sections: seq<MapArea>, floor: nat, ps: seq<nat>) {
    && |areas| == |sections| + |ps| && areas[..|sections|] == sections && Tasks.NoDup(ps)
    && (forall i :: 0 <= i < |sections| ==> areas[i].start < floor && areas[i].end <= floor)
    && (forall k :: 0 <= k < |ps| ==> Fits(ps[k], floor))
    && (forall k :: 0 <= k < |ps| ==> IsStack(areas[|sections| + k], ps[k]))
  }

  // A page at or above the floor belongs to some stack, or to nothing.
  lemma {:induction false} OnlyStacks(view: map<nat, nat>, areas: seq<MapArea>, tramp: nat, sections: seq<MapArea>,
                                      floor: nat, ps: seq<nat>, v: nat)
    requires Agrees(view, areas, tramp) && Stacked(areas, sections, floor, ps) && floor <= v && v != TRAMPOLINE_VPN
    ensures v in view ==> exists k :: 0 <= k < |ps| && Fits(ps[k], 0) && StackStart(ps[k]) <= v < StackStart(ps[k]) + 2
  {
    hide Entries, AllOk, Disjoint;
    EntriesKeys(areas, v);
    if v in view {
      var i :| 0 <= i < |areas| && areas[i].start <= v < areas[i].end;
      var k := i - |sections|;
      assert IsStack(areas[|sections| + k], ps[k]);
    }
  }

  // The guard page above a stack is never mapped (above the first one lies the trampoline).
  lemma {:induction false} GuardPage(view: map<nat, nat>, areas: seq<MapArea>, tramp: nat, sections: seq<MapArea>,
                                     floor: nat, ps: seq<nat>, pid: nat)
    requires Agrees(view, areas, tramp) && Stacked(areas, sections, floor, ps) && pid > 0 && Fits(pid, floor)
    ensures StackStart(pid) + 2 !in view
  {
    hide Agrees, Stacked;
    OnlyStacks(view, areas, tramp, sections, floor, ps, StackStart(pid) + 2);
  }

  // A pid without a stack finds both pages of its stack free.
  lemma {:induction false} StackFree(view: map<nat, nat>, areas: seq<MapArea>, tramp: nat, sections: seq<MapArea>,
                                     floor: nat, ps: seq<nat>, pid: nat, v: nat)
    requires Agrees(view, areas, tramp) && Stacked(areas, sections, floor, ps) && pid !in ps && Fits(pid, floor)
    requires StackStart(pid) <= v < StackStart(pid) + 2
    ensures v !in view
  {
    hide Agrees, Stacked;
    OnlyStacks(view, areas, tramp, sections, floor, ps, v);
  }

  // Where First finds the stack of ps[k].
  lemma {:induction false} StackFound(areas: seq<MapArea>, sections: seq<MapArea>, floor: nat, ps: seq<nat>, k: nat)
    requires k < |ps| && Stacked(areas, sections, floor, ps)
    ensures First(areas, StackStart(ps[k])) == Some(|sections| + k)
  {
    hide First;
    var r := First(areas, StackStart(ps[k]));
    assert IsStack(areas[|sections| + k], ps[k]);
    if r.Some? {
      var i := r.value;
      if |sections| <= i {
        assert IsStack(areas[|sections| + (i - |sections|)], ps[i - |sections|]);
      }
    }
  }

  // KernelStack::new.  For a pid without a stack the only panic is running out of frames.
  method NewStack(space: MemorySet, pid: nat, ghost sections: seq<MapArea>, ghost floor: nat,
                  ghost ps: seq<nat>) returns (o: Outcome)
    requires pid !in ps && Fits(pid, floor) && Stacked(space.areas, sections, floor, ps) && space.Live()
    modifies space, space.pt, space.pt.m
    ensures space.pt.m.Valid() && o in {Fine, OutOfFrames}
    ensures o.OutOfFrames? ==> space.pt.m.Free() == 0 && old(space.pt.m.Free()) < 6
    ensures o.Fine? ==> space.Live() && space.Budget() == old(space.Budget())
    ensures o.Fine? ==> Stacked(space.areas, sections, floor, ps + [pid])
    ensures o.Fine? ==> Weight(space.areas) == Weight(old(space.areas)) + 2
    ensures o.Fine? ==> space.pt.Map().Keys == old(space.pt.Map()).Keys + {StackStart(pid), StackStart(pid) + 1}
    ensures o.Fine? ==> Extended(space.pt.id, old(space.pt.m.S()), space.pt.m.S())
  {
    hide Tree, View, Holds, Extended, OwnsPages, Machine.Valid, Machine.Free, Agrees, Pages, Weight, TrampolineEntry,
         Filled, StackTop, StackBottom, VirtAddr, Floor, Ceil, Entry, Stacked, PathsIn;
    StackPosition(pid);
    forall v | StackStart(pid) <= v < StackStart(pid) + 2 ensures v !in space.pt.Map() {
      StackFree(space.pt.Map(), space.areas, TrampolineEntry(space.trampoline), sections, floor, ps, pid, v);
    }
    RootThere(space.pt.id, space.pt.m.S(), space.pt.tables);
    TwoPerPage(space.pt.tables.Keys, StackStart(pid), StackStart(pid) + 2);
    o := space.PushNew(VirtAddr(StackBottom(pid)), VirtAddr(StackTop(pid)), R + W, None);
    if o.Fine? {
      ghost var b := space.areas[|space.areas| - 1];
      assert space.areas == old(space.areas) + [b];
      WeightPush(old(space.areas), b);
      StackPushed(old(space.areas), b, sections, floor, ps, pid);
      assert EntriesOf(b).Keys == {StackStart(pid), StackStart(pid) + 1};
    }
  }

  lemma {:induction false} StackPushed(areas: seq<MapArea>, b: MapArea, sections: seq<MapArea>, floor: nat,
                                       ps: seq<nat>, pid: nat)
    requires Stacked(areas, sections, floor, ps) && pid !in ps && Fits(pid, floor) && IsStack(b, pid)
    ensures Stacked(areas + [b], sections, floor, ps + [pid])
  {
    var c := areas + [b];
    assert c[..|sections|] == areas[..|sections|];
  }

  // Drop for KernelStack: removes exactly the two pages of its own stack.
  method DropStack(space: MemorySet, pid: nat, ghost sections: seq<MapArea>, ghost floor: nat, ghost ps: seq<nat>,
                   ghost k: nat)
    requires k < |ps| && ps[k] == pid && Fits(pid, 0) && Stacked(space.areas, sections, floor, ps) && space.Live()
    modifies space, space.pt, space.pt.m
    ensures space.Live() && space.Budget() == old(space.Budget()) && space.pt.tables == old(space.pt.tables)
    ensures Stacked(space.areas, sections, floor, ps[..k] + ps[k + 1..])
    ensures Weight(old(space.areas)) == Weight(space.areas) + 2
    ensures space.pt.Map() == old(space.pt.Map()) - {StackStart(pid), StackStart(pid) + 1}
    ensures Released(space.pt.id, old(space.pt.m.S()), space.pt.m.S())
  {
    hide Tree, View, Holds, Released, OwnsPages, Machine.Valid, Machine.Free, Agrees, Pages, Weight, TrampolineEntry,
         StackTop, StackBottom, VirtAddr, Floor, First, Stacked;
    StackPosition(pid);
    StackFound(space.areas, sections, floor, ps, k);
    StackRemoved(space.areas, sections, floor, ps, k);
    WeightAt(space.areas, |sections| + k);
    space.RemoveAreaWithStartVpn(Floor(VirtAddr(StackBottom(pid))));
    assert Range(StackStart(pid), StackStart(pid) + 2) == {StackStart(pid), StackStart(pid) + 1};
  }

  lemma {:induction false} StackRemoved(areas: seq<MapArea>, sections: seq<MapArea>, floor: nat, ps: seq<nat>, k: nat)
    requires k < |ps| && Stacked(areas, sections, floor, ps)
    ensures Stacked(Without(areas, |sections| + k), sections, floor, ps[..k] + ps[k + 1..])
    ensures IsStack(areas[|sections| + k], ps[k])
  {
    var i := |sections| + k;
    var b, qs := Without(areas, i), ps[..k] + ps[k + 1..];
    Tasks.RemoveKeepsRest(ps, k);
    assert b[..|sections|] == areas[..|sections|];
    forall j | 0 <= j < |qs| ensures IsStack(b[|sections| + j], qs[j]) && Fits(qs[j], floor) {
      var j0 := if j < k then j else j + 1;
      assert qs[j] == ps[j0] && b[|sections| + j] == areas[|sections| + j0];
      assert IsStack(areas[|sections| + j0], ps[j0]) && Fits(ps[j0], floor);
    }
  }

  // ---- pids, tasks and stacks together ----

  ghost function PidSet(tcbs: map<nat, Tasks.Tcb>): set<nat> { set t | t in tcbs :: tcbs[t].pid }

  // A pid is out if and only if some task has it, and then it has a kernel stack.  All stacks that
  // ever existed fit, because each of `current` pids once had its two frames out of `total`.
  ghost predicate PidsGood(live: set<nat>, current: nat, ps: seq<nat>, tcbs: map<nat, Tasks.Tcb>,
                           areas: seq<MapArea>, sections: seq<MapArea>, floor: nat, total: nat) {
    && live == PidSet(tcbs) && (forall p :: p in ps <==> p in live) && Stacked(areas, sections, floor, ps)
    && 2 * current <= total && floor + 3 * (total / 2) + 3 <= VPNS
  }

  lemma {:induction false} StackWeight(areas: seq<MapArea>, sections: seq<MapArea>, floor: nat, ps: seq<nat>)
    requires Stacked(areas, sections, floor, ps)
    ensures Weight(areas) == Weight(sections) + 2 * |ps|
  {
    if ps == [] {
      assert areas == areas[..|sections|];
    } else {
      var n, k := |areas| - 1, |ps| - 1;
      assert areas[..n][..|sections|] == areas[..|sections|];
      assert IsStack(areas[|sections| + k], ps[k]);
      forall j | 0 <= j < k ensures IsStack(areas[..n][|sections| + j], ps[..k][j]) {
        assert IsStack(areas[|sections| + j], ps[j]);
      }
      StackWeight(areas[..n], sections, floor, ps[..k]);
    }
  }

  lemma {:induction false} SetOfSeq(s: seq<nat>, n: nat)
    requires forall p :: 0 <= p < n ==> p in s
    ensures n <= |s|
  {
    if n > 0 {
      assert n - 1 in s;
      var k :| 0 <= k < |s| && s[k] == n - 1;
      var r := s[..k] + s[k + 1..];
      forall p | 0 <= p < n - 1 ensures p in r {
        assert p in s;
        var i :| 0 <= i < |s| && s[i] == p;
        assert r[if i < k then i else i - 1] == p;
      }
      SetOfSeq(r, n - 1);
    }
  }

  // A pid just handed out has room for its stack.
  lemma {:induction false} NewPidFits(pid: nat, current: nat, floor: nat, total: nat)
    requires pid <= current && 2 * current <= total && floor + 3 * (total / 2) + 3 <= VPNS
    ensures Fits(pid, floor)
  {
  }

  // The bound on the counter survives handing out a pid: when the counter moves, all pids below it
  // are out, and their stacks are all in the kernel space.
  lemma {:induction false} CounterBound(current: nat, ps: seq<nat>, areas: seq<MapArea>, sections: seq<MapArea>,
                                        floor: nat, total: nat)
    requires Stacked(areas, sections, floor, ps) && (forall p :: 0 <= p < current ==> p in ps) && Weight(areas) <= total
    ensures 2 * current <= total
  {
    hide Stacked, Weight;
    StackWeight(areas, sections, floor, ps);
    SetOfSeq(ps, current);
  }

  lemma {:induction false} PidsKept(live: set<nat>, current: nat, ps: seq<nat>, a: map<nat, Tasks.Tcb>,
                                    b: map<nat, Tasks.Tcb>,
                                    areas: seq<MapArea>, sections: seq<MapArea>, floor: nat, total: nat)
    requires PidSet(a) == PidSet(b) && PidsGood(live, current, ps, a, areas, sections, floor, total)
    ensures PidsGood(live, current, ps, b, areas, sections, floor, total)
  {
  }

  // A pid just handed out goes to a new task and gets a stack.
  lemma {:induction false} PidsGrown(live: set<nat>, current: nat, live': set<nat>, current': nat, pid: nat,
                                     ps: seq<nat>,
                                     a: map<nat, Tasks.Tcb>, b: map<nat, Tasks.Tcb>,
                                     areas: seq<MapArea>, areas': seq<MapArea>, sections: seq<MapArea>,
                                     floor: nat, total: nat)
    requires PidsGood(live, current, ps, a, areas, sections, floor, total) && live' == live + {pid}
    requires PidSet(b) == PidSet(a) + {pid}
    requires current' == current || forall p :: 0 <= p < current' ==> p in live'
    requires Weight(areas') <= total && Stacked(areas', sections, floor, ps + [pid])
    ensures PidsGood(live', current', ps + [pid], b, areas', sections, floor, total)
  {
    hide Stacked, Weight, PidSet;
    assert forall p :: p in ps + [pid] <==> p in ps || p == pid;
    if current' != current {
      forall p | 0 <= p < current' ensures p in ps + [pid] { assert p in live'; }
      CounterBound(current', ps + [pid], areas', sections, floor, total);
    }
  }

  // A pid goes back together with its task and its stack.
  lemma {:induction false} PidsShrunk(live: set<nat>, current: nat, ps: seq<nat>, k: nat, a: map<nat, Tasks.Tcb>,
                                      b: map<nat, Tasks.Tcb>,
                                      areas: seq<MapArea>, areas': seq<MapArea>, sections: seq<MapArea>,
                                      floor: nat, total: nat)
    requires k < |ps| && PidsGood(live, current, ps, a, areas, sections, floor, total)
    requires PidSet(b) == PidSet(a) - {ps[k]}
    requires Stacked(areas', sections, floor, ps[..k] + ps[k + 1..])
    ensures PidsGood(live - {ps[k]}, current, ps[..k] + ps[k + 1..], b, areas', sections, floor, total)
  {
    hide PidSet;
    Tasks.RemoveKeepsRest(ps, k);
  }
}
