/** The task machine as the kernel runs it: fields updated in place, loops over queues and child
    lists.  Every method is one step of module Tasks. */
module TaskTables {
  import opened FrameAllocator
  import opened Stride
  import opened Tasks

  class TaskTable {
    var tcbs: map<nat, Tcb>
    var ready: seq<nat>          // TASK_MANAGER
    var current: Option<nat>     // PROCESSOR
    const init: nat              // INITPROC
    var next: nat

    ghost function S(): State
      reads this
    {
      State(tcbs, ready, current, init, next)
    }

    // INITPROC and add_initproc.
    constructor (pid: nat, heapBottom: nat)
      ensures Inv(S()) && init == 0 && next == 1 && current == None && ready == [0]
      ensures tcbs == map[0 := Tcb(pid, Ready, None, [], 0, heapBottom, heapBottom, 16, 0)]
    {
      init, next, current, ready := 0, 1, None, [0];
      tcbs := map[0 := Tcb(pid, Ready, None, [], 0, heapBottom, heapBottom, 16, 0)];
      new;
      assert PlaceOk(S(), 0) && ListOk(tcbs, 0);
    }

    // One iteration of run_tasks, with TaskManager::fetch inside.
    method RunNext() returns (found: bool)
      requires current.None? && Inv(S())
      modifies this
      ensures Inv(S()) && S() == Dispatch(old(S())) && (found <==> current.Some?)
    {
      hide Family, DistinctPids, PlaceOk, Advance, Pick;
      DispatchKeeps(S());
      var pick := Scan(JobsOf(tcbs, ready));
      found := pick.Some?;
      if found {
        var i := pick.value;
        var t := ready[i];
        var b := tcbs[t];
        tcbs := tcbs[t := b.(stride := Advance(JobOf(tcbs, t)).stride, status := Running)];
        ready := ready[..i] + ready[i + 1..];
        current := Some(t);
      }
    }

    // suspend_current_and_run_next, up to the switch to the idle loop.
    method Suspend()
      requires current.Some? && Inv(S())
      modifies this
      ensures Inv(S()) && S() == Yield(old(S()))
    {
      hide Family, DistinctPids, PlaceOk;
      YieldKeeps(S());
      var t := current.value;
      current := None;
      tcbs := tcbs[t := tcbs[t].(status := Ready)];
      ready := ready + [t];
    }

    // The task part of fork and spwan, and add_task.
    method AddChild(pid: nat, heapBottom: nat, programBrk: nat, prio: nat) returns (t: nat)
      requires current.Some? && prio >= 2 && (forall u :: u in tcbs ==> tcbs[u].pid != pid) && Inv(S())
      modifies this
      ensures Inv(S()) && t == old(next) && S() == Birth(old(S()), pid, heapBottom, programBrk, prio)
    {
      hide Family, DistinctPids, PlaceOk;
      BirthKeeps(S(), pid, heapBottom, programBrk, prio);
      var p := current.value;
      t := next;
      next := next + 1;
      tcbs := tcbs[t := Tcb(pid, Ready, Some(p), [], 0, heapBottom, programBrk, prio, 0)];
      tcbs := tcbs[p := tcbs[p].(child := tcbs[p].child + [t])];
      ready := ready + [t];
    }

    // exit_current_and_run_next without the memory part.
    method ExitCurrent(code: int)
      requires current.Some? && current.value != init && Inv(S())
      modifies this
      ensures Inv(S()) && S() == Exit(old(S()), code)
    {
      hide Family, DistinctPids, PlaceOk, Adopt;
      ExitKeeps(S(), code);
      var t := current.value;
      current := None;
      tcbs := tcbs[t := tcbs[t].(status := Zombie, exitCode := code)];
      ghost var marked := tcbs;
      var cs := tcbs[t].child;
      ChildrenThere(old(S()), t);
      var i := 0;
      AdoptNone(marked, init, cs[..0]);
      while i < |cs|
        invariant 0 <= i <= |cs| && tcbs == Adopt(marked, init, cs[..i])
        invariant current == None && ready == old(ready) && next == old(next)
      {
        AdoptOne(marked, init, cs, i);
        tcbs := tcbs[cs[i] := tcbs[cs[i]].(parent := Some(init))];
        tcbs := tcbs[init := tcbs[init].(child := tcbs[init].child + [cs[i]])];
        i := i + 1;
      }
      assert cs[..i] == cs;
      AdoptOther(marked, init, cs, t);
      tcbs := tcbs[t := tcbs[t].(child := [])];
    }

    // sys_waitpid without the write of the exit code.
    method Wait(pid: int) returns (w: Wait)
      requires current.Some? && Inv(S())
      modifies this
      ensures Inv(S()) && S() == WaitPid(old(S()), pid).0 && w == WaitPid(old(S()), pid).1
    {
      hide Family, DistinctPids, PlaceOk, Matches, Reapable, FirstReapable;
      WaitKeeps(S(), pid);
      ReapedChild(S(), pid);
      var p := current.value;
      var cs := tcbs[p].child;
      var any := AnyMatch(tcbs, cs, pid);
      if !any { return NoChild; }
      var k := FindZombie(tcbs, cs, pid);
      if k.None? { return Busy; }
      var c := cs[k.value];
      w := Reaped(c, tcbs[c].pid, tcbs[c].exitCode);
      tcbs := (tcbs - {c})[p := tcbs[p].(child := cs[..k.value] + cs[k.value + 1..])];
    }

    // sys_set_prio.
    method SetPriority(prio: int) returns (r: int)
      requires current.Some? && Inv(S())
      modifies this
      ensures Inv(S()) && S() == SetPrio(old(S()), prio) && r == if prio <= 1 then -1 else prio
    {
      hide Family, DistinctPids, PlaceOk;
      SetPrioKeeps(S(), prio);
      if prio <= 1 { return -1; }
      tcbs := tcbs[current.value := tcbs[current.value].(prio := prio)];
      return prio;
    }

    // The assignment to program_brk in change_program_brk.
    method SetBreak(brk: nat)
      requires current.Some? && Inv(S())
      modifies this
      ensures Inv(S()) && S() == SetBrk(old(S()), brk)
    {
      hide Family, DistinctPids, PlaceOk;
      SetBrkKeeps(S(), brk);
      tcbs := tcbs[current.value := tcbs[current.value].(programBrk := brk)];
    }
  }

  lemma {:induction false} ChildrenThere(s: State, t: nat)
    requires t in s.tcbs && Inv(s)
    ensures NoDup(s.tcbs[t].child) && s.init in s.tcbs
    ensures forall c :: c in s.tcbs[t].child ==> c in s.tcbs && c != s.init && c != t
  {
    assert ListOk(s.tcbs, t);
  }

  lemma {:induction false} AdoptNone(m: map<nat, Tcb>, init: nat, cs: seq<nat>)
    requires cs == []
    ensures Adopt(m, init, cs) == m
  {
    forall u | u in m ensures Adopt(m, init, cs)[u] == m[u] { assert m[u].child + cs == m[u].child; }
  }

  lemma {:induction false} AdoptOther(m: map<nat, Tcb>, init: nat, cs: seq<nat>, t: nat)
    requires t in m && t != init && t !in cs
    ensures t in Adopt(m, init, cs) && Adopt(m, init, cs)[t] == m[t]
  {
  }

  lemma {:induction false} AdoptOne(m: map<nat, Tcb>, init: nat, cs: seq<nat>, i: nat)
    requires i < |cs| && NoDup(cs) && init in m && forall c :: c in cs ==> c in m && c != init
    ensures var a := Adopt(m, init, cs[..i]);
            cs[i] in a && init in a &&
            var b := a[cs[i] := a[cs[i]].(parent := Some(init))];
            Adopt(m, init, cs[..i + 1]) == b[init := b[init].(child := b[init].child + [cs[i]])]
  {
    assert cs[..i + 1] == cs[..i] + [cs[i]];
    assert (m[init].child + cs[..i]) + [cs[i]] == m[init].child + cs[..i + 1];
  }

  // The `any` test of sys_waitpid.
  method AnyMatch(tcbs: map<nat, Tcb>, cs: seq<nat>, pid: int) returns (any: bool)
    ensures any <==> exists i :: 0 <= i < |cs| && Matches(tcbs, cs[i], pid)
  {
    hide Matches;
    var i := 0;
    while i < |cs|
      invariant 0 <= i <= |cs| && forall k :: 0 <= k < i ==> !Matches(tcbs, cs[k], pid)
    {
      if Matches(tcbs, cs[i], pid) { return true; }
      i := i + 1;
    }
    return false;
  }

  // The `find` of sys_waitpid: the first zombie child that matches.
  method FindZombie(tcbs: map<nat, Tcb>, cs: seq<nat>, pid: int) returns (r: Option<nat>)
    ensures r == FirstReapable(tcbs, cs, pid, 0)
  {
    hide Reapable;
    var i := 0;
    while i < |cs|
      invariant 0 <= i <= |cs| && FirstReapable(tcbs, cs, pid, 0) == FirstReapable(tcbs, cs, pid, i)
    {
      if Reapable(tcbs, cs[i], pid) { return Some(i); }
      i := i + 1;
    }
    return None;
  }
}
