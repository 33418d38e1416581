/** What each step of the task machine does to the set of tasks, their pids and the zombies. */
module TaskSteps {
  import opened FrameAllocator
  import opened Stride
  import opened Tasks
  import opened Pids
  import opened MemorySyscalls
  import opened Worlds

  ghost predicate BreaksOk(tcbs: map<nat, Tcb>) {
    forall t :: t in tcbs ==> tcbs[t].heapBottom < BRK_LIMIT && tcbs[t].programBrk < BRK_LIMIT
  }

  // The same tasks, pids and zombies.
  ghost predicate Plain(s: State, s': State) {
    && s'.next == s.next && s'.init == s.init && s'.tcbs.Keys == s.tcbs.Keys
    && forall u :: u in s.tcbs ==>
        s'.tcbs[u].pid == s.tcbs[u].pid && (s.tcbs[u].status == Zombie <==> s'.tcbs[u].status == Zombie)
  }

  lemma {:induction false} DispatchPlain(s: State)
    requires Inv(s) && s.current.None?
    ensures Plain(s, Dispatch(s)) && (BreaksOk(s.tcbs) ==> BreaksOk(Dispatch(s).tcbs))
  {
    hide Pick, Advance, Family, DistinctPids;
    var r := Pick(JobsOf(s.tcbs, s.ready));
    if r.Some? { assert PlaceOk(s, s.ready[r.value]); }
  }

  lemma {:induction false} YieldPlain(s: State)
    requires s.current.Some? && Inv(s)
    ensures Plain(s, Yield(s)) && (BreaksOk(s.tcbs) ==> BreaksOk(Yield(s).tcbs))
  {
    hide Family, DistinctPids;
    assert PlaceOk(s, s.current.value);
  }

  lemma {:induction false} SetPrioPlain(s: State, prio: int)
    requires s.current.Some? && Inv(s)
    ensures Plain(s, SetPrio(s, prio)) && (BreaksOk(s.tcbs) ==> BreaksOk(SetPrio(s, prio).tcbs))
  {
    hide Family, DistinctPids;
  }

  lemma {:induction false} SetBrkPlain(s: State, brk: nat)
    requires s.current.Some? && Inv(s) && brk < BRK_LIMIT
    ensures Plain(s, SetBrk(s, brk)) && (BreaksOk(s.tcbs) ==> BreaksOk(SetBrk(s, brk).tcbs))
  {
    hide Family, DistinctPids;
  }

  // One more task, ready, with this pid; nothing else about pids and zombies changed.
  ghost predicate Born(s: State, s': State, pid: nat) {
    && s'.next == s.next + 1 && s'.init == s.init && s'.tcbs.Keys == s.tcbs.Keys + {s.next}
    && SameZombies(s.tcbs, s'.tcbs, s.next) && s'.tcbs[s.next].status != Zombie && s'.tcbs[s.next].pid == pid
    && PidSet(s'.tcbs) == PidSet(s.tcbs) + {pid}
  }

  lemma {:induction false} BirthFolk(s: State, heapBottom: nat, programBrk: nat, prio: nat)
    requires s.current.Some? && heapBottom < BRK_LIMIT && programBrk < BRK_LIMIT && Inv(s)
    ensures s.current.value in s.tcbs
    ensures forall pid: nat :: Born(s, Birth(s, pid, heapBottom, programBrk, prio), pid)
                               && (BreaksOk(s.tcbs) ==> BreaksOk(Birth(s, pid, heapBottom, programBrk, prio).tcbs))
  {
    forall pid: nat ensures Born(s, Birth(s, pid, heapBottom, programBrk, prio), pid)
                            && (BreaksOk(s.tcbs) ==> BreaksOk(Birth(s, pid, heapBottom, programBrk, prio).tcbs)) {
      BornOne(s, pid, heapBottom, programBrk, prio);
    }
  }

  lemma {:induction false} BornOne(s: State, pid: nat, heapBottom: nat, programBrk: nat, prio: nat)
    requires s.current.Some? && heapBottom < BRK_LIMIT && programBrk < BRK_LIMIT && Inv(s)
    ensures Born(s, Birth(s, pid, heapBottom, programBrk, prio), pid)
    ensures BreaksOk(s.tcbs) ==> BreaksOk(Birth(s, pid, heapBottom, programBrk, prio).tcbs)
  {
    hide Family, DistinctPids;
    var s' := Birth(s, pid, heapBottom, programBrk, prio);
    assert PlaceOk(s, s.current.value);
    forall p | p in PidSet(s'.tcbs) ensures p in PidSet(s.tcbs) + {pid} {
      var u :| u in s'.tcbs && s'.tcbs[u].pid == p;
      if u != s.next { assert s.tcbs[u].pid == p; }
    }
    forall p | p in PidSet(s.tcbs) + {pid} ensures p in PidSet(s'.tcbs) {
      if p in PidSet(s.tcbs) {
        var u :| u in s.tcbs && s.tcbs[u].pid == p;
        assert s'.tcbs[u].pid == p;
      } else {
        assert s'.tcbs[s.next].pid == p;
      }
    }
  }

  lemma {:induction false} NoSuchPid(tcbs: map<nat, Tcb>, pid: nat)
    requires pid !in PidSet(tcbs)
    ensures forall u :: u in tcbs ==> tcbs[u].pid != pid
  {
    forall u | u in tcbs ensures tcbs[u].pid != pid { assert tcbs[u].pid in PidSet(tcbs); }
  }

  // fork passes on the parent's breaks and priority.
  ghost predicate ForkTasks(s: State, s': State, pid: nat) {
    s.current.Some? && s.current.value in s.tcbs && var b := s.tcbs[s.current.value];
    s' == Birth(s, pid, b.heapBottom, b.programBrk, b.prio)
  }

  // One task fewer, and its pid with it.
  ghost predicate Gone(s: State, s': State, c: nat)
    requires c in s.tcbs
  {
    && s'.next == s.next && s'.init == s.init && s'.tcbs.Keys == s.tcbs.Keys - {c}
    && SameZombies(s.tcbs, s'.tcbs, c) && PidSet(s'.tcbs) == PidSet(s.tcbs) - {s.tcbs[c].pid}
  }

  lemma {:induction false} WaitFolk(s: State, pid: int)
    requires s.current.Some? && Inv(s)
    ensures s.current.value in s.tcbs
    ensures var (s', w) := WaitPid(s, pid); if w.Reaped? then
              && w.tid in s.tcbs && s.tcbs[w.tid].status == Zombie && w.pid == s.tcbs[w.tid].pid
              && Gone(s, s', w.tid) && (BreaksOk(s.tcbs) ==> BreaksOk(s'.tcbs))
            else s' == s
  {
    hide Family, FirstReapable, PlaceOk, Matches, Mine;
    WaitAnswers(s, pid);
    ReapedChild(s, pid);
    var (s', w) := WaitPid(s, pid);
    if w.Reaped? {
      MineIsTask(s, pid, w.tid);
      forall p | p in PidSet(s'.tcbs) ensures p in PidSet(s.tcbs) - {w.pid} {
        var u :| u in s'.tcbs && s'.tcbs[u].pid == p;
        assert s.tcbs[u].pid == p;
      }
      forall p | p in PidSet(s.tcbs) - {w.pid} ensures p in PidSet(s'.tcbs) {
        var u :| u in s.tcbs && s.tcbs[u].pid == p;
        assert s'.tcbs[u].pid == p;
      }
    }
  }

  lemma {:induction false} MineIsTask(s: State, pid: int, t: nat)
    requires s.current.Some? && t in Mine(s, pid)
    ensures t in s.tcbs
  {
  }

  lemma {:induction false} ExitFolk(s: State, code: int)
    requires s.current.Some? && s.current.value != s.init && Inv(s)
    ensures var t, s' := s.current.value, Tasks.Exit(s, code);
            && s'.next == s.next && s'.init == s.init && s'.tcbs.Keys == s.tcbs.Keys && SameZombies(s.tcbs, s'.tcbs, t)
            && s'.tcbs[t].status == Zombie && PidSet(s'.tcbs) == PidSet(s.tcbs)
            && (BreaksOk(s.tcbs) ==> BreaksOk(s'.tcbs))
  {
    hide Family, DistinctPids, PlaceOk;
    var s' := Tasks.Exit(s, code);
    forall u | u in s.tcbs ensures s'.tcbs[u].pid == s.tcbs[u].pid {}
    SamePids(s.tcbs, s'.tcbs);
  }

  lemma {:induction false} SamePids(a: map<nat, Tcb>, b: map<nat, Tcb>)
    requires a.Keys == b.Keys && forall u :: u in a ==> a[u].pid == b[u].pid
    ensures PidSet(a) == PidSet(b)
  {
    forall p | p in PidSet(a) ensures p in PidSet(b) {
      var u :| u in a && a[u].pid == p;
      assert b[u].pid == p;
    }
    forall p | p in PidSet(b) ensures p in PidSet(a) {
      var u :| u in b && b[u].pid == p;
      assert a[u].pid == p;
    }
  }

  lemma {:induction false} RunningIsLive(s: State)
    requires s.current.Some? && Inv(s)
    ensures s.current.value in s.tcbs && s.tcbs[s.current.value].status == Tasks.Running
  {
    assert PlaceOk(s, s.current.value);
  }

  // ---- a process lifetime ----

  // The same tasks with the same pids, relatives and exit codes.
  ghost predicate Resting(s: State, s': State) {
    && s'.next == s.next && s'.init == s.init && s'.tcbs.Keys == s.tcbs.Keys
    && forall u :: u in s.tcbs ==> SameTask(s.tcbs[u], s'.tcbs[u])
  }

  ghost predicate SameTask(a: Tcb, b: Tcb) {
    && b.pid == a.pid && b.parent == a.parent && b.child == a.child && b.exitCode == a.exitCode
    && (b.status == Zombie <==> a.status == Zombie)
  }

  lemma {:induction false} TurnRests(s: State)
    requires Inv(s)
    ensures if s.current.None? then Resting(s, Dispatch(s)) else s.current.value in s.tcbs && Resting(s, Yield(s))
  {
    hide Pick, Advance, Family, DistinctPids;
    var r := Pick(JobsOf(s.tcbs, s.ready));
    if s.current.None? && r.Some? { assert PlaceOk(s, s.ready[r.value]); }
    if s.current.Some? { assert PlaceOk(s, s.current.value); }
  }

  // The task table after n turns of the idle loop and the running task: fetch when nothing runs, else yield.
  ghost function Idled(s: State, n: nat): State {
    if n == 0 then s
    else
      var r := Idled(s, n - 1);
      if r.current.None? then Dispatch(r) else if r.current.value in r.tcbs then Yield(r) else r
  }

  // The scheduler brings the child of a fork to run after n turns, and the parent back n' turns after the
  // child's exit.
  ghost predicate Meets(s: State, pid: nat, n: nat, code: int, n': nat) {
    && s.current.Some? && s.current.value in s.tcbs
    && var b := s.tcbs[s.current.value];
    && var s2 := Idled(Birth(s, pid, b.heapBottom, b.programBrk, b.prio), n);
    && s2.current == Some(s.next) && s.next in s2.tcbs && s.next != s2.init
    && Idled(Tasks.Exit(s2, code), n').current == s.current
  }

  lemma {:induction false} RestsNow(s: State)
    ensures Resting(s, s)
  {
  }

  lemma {:induction false} RestsOn(a: State, b: State, c: State)
    requires Resting(a, b) && Resting(b, c)
    ensures Resting(a, c)
  {
  }

  // What fork, then fetches and yields, then the child's exit, then fetches and yields make of the task
  // table: waitpid finds the child, with its code.
  lemma {:induction false} ChildIsFound(s0: State, s1: State, s2: State, s3: State, s4: State, pid: nat, code: int)
    requires Inv(s0) && ForkTasks(s0, s1, pid) && Resting(s1, s2) && s2.current == Some(s0.next) && s0.next != s2.init
    requires s0.next in s2.tcbs && s3 == Tasks.Exit(s2, code) && Resting(s3, s4) && s4.current == s0.current && Inv(s4)
    ensures WaitPid(s4, pid).1 == Reaped(s0.next, pid, code)
    ensures WaitPid(s4, pid).0.tcbs.Keys == s0.tcbs.Keys
  {
    hide WaitPid, Family, PlaceOk, DistinctPids, Mine;
    var p, c := s0.current.value, s0.next;
    assert s1.tcbs[c].pid == pid && s1.tcbs[c].parent == Some(p) && s1.tcbs[c].child == [];
    assert SameTask(s1.tcbs[c], s2.tcbs[c]);
    assert s3.tcbs[c] == s2.tcbs[c].(status := Zombie, exitCode := code);
    assert SameTask(s3.tcbs[c], s4.tcbs[c]);
    WaitAnswers(s4, pid);
    OnlyMine(s4, pid, c);
  }

  lemma {:induction false} OnlyMine(s: State, pid: nat, c: nat)
    requires c in s.tcbs && s.current.Some? && s.tcbs[c].parent == s.current && s.tcbs[c].pid == pid
    requires DistinctPids(s.tcbs)
    ensures Mine(s, pid) == {c}
  {
  }
}
