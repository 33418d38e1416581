/** Whole runs of the task machine: invariants of every reachable state, exactly-once reaping, and
    the link from yielding tasks to the rounds of the scheduler. */
module Lifecycle {
  import opened FrameAllocator
  import opened Stride
  import opened Tasks

  datatype Event =
    | Fetch
    | Yields
    | Creates(pid: nat, heapBottom: nat, programBrk: nat, prio: nat)
    | Exits(code: int)
    | Waits(want: int)
    | Prio(value: int)
    | Brk(brk: nat)

  // The idle loop fetches when nothing runs; everything else is done by the running task.  A pid
  // handed out is one that no task holds, and init never exits.
  ghost predicate Enabled(s: State, e: Event) {
    if e.Fetch? then s.current.None?
    else
      && s.current.Some? && s.current.value in s.tcbs
      && (e.Exits? ==> s.current.value != s.init)
      && (e.Creates? ==> e.prio >= 2 && forall t :: t in s.tcbs ==> s.tcbs[t].pid != e.pid)
  }

  ghost function Step(s: State, e: Event): State
    requires Enabled(s, e)
  {
    match e
    case Fetch => Dispatch(s)
    case Yields => Yield(s)
    case Creates(pid, h, b, p) => Birth(s, pid, h, b, p)
    case Exits(code) => Exit(s, code)
    case Waits(pid) => WaitPid(s, pid).0
    case Prio(p) => SetPrio(s, p)
    case Brk(b) => SetBrk(s, b)
  }

  lemma {:induction false} StepKeeps(s: State, e: Event)
    requires Enabled(s, e) && Inv(s)
    ensures Inv(Step(s, e)) && s.next <= Step(s, e).next && Step(s, e).init == s.init
  {
    hide Inv;
    match e
    case Fetch => DispatchKeeps(s);
    case Yields => YieldKeeps(s);
    case Creates(pid, h, b, p) => BirthKeeps(s, pid, h, b, p);
    case Exits(code) => ExitKeeps(s, code);
    case Waits(pid) => WaitKeeps(s, pid);
    case Prio(p) => SetPrioKeeps(s, p);
    case Brk(b) => SetBrkKeeps(s, b);
  }

  // add_initproc: init alone, ready.
  ghost predicate Start(s: State) {
    s.init < s.next && s.ready == [s.init] && s.current == None && s.tcbs.Keys == {s.init}
    && var b := s.tcbs[s.init]; b.status == Ready && b.parent == None && b.child == [] && b.prio >= 2
  }

  ghost predicate Run(ss: seq<State>, es: seq<Event>) {
    && |ss| == |es| + 1 && Start(ss[0])
    && forall i :: 0 <= i < |es| ==> Enabled(ss[i], es[i]) && ss[i + 1] == Step(ss[i], es[i])
  }

  lemma {:induction false} StartGood(s: State)
    requires Start(s)
    ensures Inv(s)
  {
    assert PlaceOk(s, s.init) && ListOk(s.tcbs, s.init);
  }

  // Placement, process tree and distinct pids hold in every reachable state.
  lemma {:induction false} RunKeeps(ss: seq<State>, es: seq<Event>, i: nat)
    requires i < |ss| && Run(ss, es)
    ensures Inv(ss[i])
  {
    hide Inv, Step, Start, Enabled;
    if i == 0 {
      StartGood(ss[0]);
    } else {
      RunKeeps(ss, es, i - 1);
      StepKeeps(ss[i - 1], es[i - 1]);
    }
  }

  // ---- exactly-once reaping ----

  ghost predicate ReapsAt(ss: seq<State>, es: seq<Event>, i: nat, t: nat, code: int)
    requires Run(ss, es)
  {
    i < |es| && es[i].Waits? && var w := WaitPid(ss[i], es[i].want).1; w.Reaped? && w.tid == t && w.code == code
  }

  ghost predicate ExitsAt(ss: seq<State>, es: seq<Event>, i: nat, t: nat, code: int)
    requires Run(ss, es)
  {
    i < |es| && es[i] == Exits(code) && ss[i].current == Some(t)
  }

  // A number that left the table never comes back.
  lemma {:induction false} StepTasks(s: State, e: Event, t: nat)
    requires Enabled(s, e) && t < s.next && t in Step(s, e).tcbs
    requires Inv(s)
    ensures t in s.tcbs
  {
    hide Inv, Pick, JobsOf, FirstReapable;
    if e.Waits? { StepWaits(s, e.want, t); }
  }

  lemma {:induction false} StepWaits(s: State, pid: int, t: nat)
    requires s.current.Some? && s.current.value in s.tcbs && t in WaitPid(s, pid).0.tcbs
    ensures t in s.tcbs
  {
    hide FirstReapable, Matches;
  }

  lemma {:induction false} GoneForGood(ss: seq<State>, es: seq<Event>, i: nat, j: nat, t: nat)
    requires i <= j < |ss| && Run(ss, es) && t < ss[i].next && t !in ss[i].tcbs
    ensures t < ss[j].next && t !in ss[j].tcbs
  {
    hide Inv, Step, Start, Enabled;
    if i < j {
      GoneForGood(ss, es, i, j - 1, t);
      RunKeeps(ss, es, j - 1);
      StepKeeps(ss[j - 1], es[j - 1]);
      if t in ss[j].tcbs { StepTasks(ss[j - 1], es[j - 1], t); }
    }
  }

  // Only exit makes a zombie, and nothing touches its code afterwards.
  lemma {:induction false} StepZombie(s: State, e: Event, t: nat)
    requires Enabled(s, e)
    requires t in Step(s, e).tcbs && Step(s, e).tcbs[t].status == Zombie
    requires Inv(s)
    ensures (t in s.tcbs && s.tcbs[t].status == Zombie && s.tcbs[t].exitCode == Step(s, e).tcbs[t].exitCode)
         || (e == Exits(Step(s, e).tcbs[t].exitCode) && s.current == Some(t))
  {
    hide Family, DistinctPids, Pick, JobsOf, FirstReapable, Matches, AsUsize;
    if t in s.tcbs { assert PlaceOk(s, t); }
    if e.Exits? { StepExit(s, e.code, t); }
  }

  lemma {:induction false} StepExit(s: State, code: int, t: nat)
    requires s.current.Some? && s.current.value in s.tcbs && s.current.value != s.init
    ensures t in Exit(s, code).tcbs ==> t in s.tcbs
    ensures t in s.tcbs && s.current != Some(t) ==>
              Exit(s, code).tcbs[t].status == s.tcbs[t].status && Exit(s, code).tcbs[t].exitCode == s.tcbs[t].exitCode
    ensures s.current == Some(t) ==> Exit(s, code).tcbs[t].exitCode == code
  {
  }

  lemma {:induction false} ZombieHasExited(ss: seq<State>, es: seq<Event>, i: nat, t: nat) returns (j: nat)
    requires i < |ss| && Run(ss, es) && t in ss[i].tcbs && ss[i].tcbs[t].status == Zombie
    ensures j < i && ExitsAt(ss, es, j, t, ss[i].tcbs[t].exitCode)
  {
    hide Inv, Step, Enabled;
    if i == 0 {
      assert false;
    } else {
      RunKeeps(ss, es, i - 1);
      StepZombie(ss[i - 1], es[i - 1], t);
      if es[i - 1] == Exits(ss[i].tcbs[t].exitCode) && ss[i - 1].current == Some(t) {
        j := i - 1;
      } else {
        j := ZombieHasExited(ss, es, i - 1, t);
      }
    }
  }

  lemma {:induction false} ReapRemoves(s: State, pid: int)
    requires s.current.Some? && Inv(s) && WaitPid(s, pid).1.Reaped?
    ensures var (s', w) := WaitPid(s, pid);
            w.tid in s.tcbs && w.tid < s.next && w.tid !in s'.tcbs
            && s.tcbs[w.tid].status == Zombie && w.code == s.tcbs[w.tid].exitCode
  {
    hide WaitPid, Mine, Family, DistinctPids, PlaceOk;
    WaitAnswers(s, pid);
    MineIsLive(s, pid, WaitPid(s, pid).1.tid);
  }

  lemma {:induction false} MineIsLive(s: State, pid: int, t: nat)
    requires s.current.Some? && t in Mine(s, pid) && Inv(s)
    ensures t in s.tcbs && t < s.next
  {
  }

  // Every reaping hands out the code of an earlier exit of the same task, and no task is reaped at
  // two different steps of a run.
  lemma {:induction false} ReapedOnce(ss: seq<State>, es: seq<Event>, i: nat, t: nat, code: int)
    requires Run(ss, es) && ReapsAt(ss, es, i, t, code)
    ensures exists j :: 0 <= j < i && ExitsAt(ss, es, j, t, code)
    ensures forall k, c :: 0 <= k && k != i ==> !ReapsAt(ss, es, k, t, c)
  {
    hide Inv, Step, Start;
    RunKeeps(ss, es, i);
    ReapRemoves(ss[i], es[i].want);
    var j := ZombieHasExited(ss, es, i, t);
    forall k, c | 0 <= k && k != i ensures !ReapsAt(ss, es, k, t, c) {
      if ReapsAt(ss, es, k, t, c) { NotTwice(ss, es, if i < k then i else k, if i < k then k else i, t); }
    }
  }

  lemma {:induction false} NotTwice(ss: seq<State>, es: seq<Event>, i: nat, k: nat, t: nat)
    requires i < k < |es| && Run(ss, es) && es[i].Waits? && es[k].Waits?
    requires ss[i].current.Some? && ss[i].current.value in ss[i].tcbs && ss[k].current.Some?
    requires ss[k].current.value in ss[k].tcbs
    requires var w := WaitPid(ss[i], es[i].want).1; w.Reaped? && w.tid == t
    ensures var w := WaitPid(ss[k], es[k].want).1; w.Reaped? ==> w.tid != t
  {
    hide Inv, Start, WaitPid;
    RunKeeps(ss, es, i);
    RunKeeps(ss, es, k);
    ReapRemoves(ss[i], es[i].want);
    StepKeeps(ss[i], es[i]);
    GoneForGood(ss, es, i + 1, k, t);
    if WaitPid(ss[k], es[k].want).1.Reaped? { ReapRemoves(ss[k], es[k].want); }
  }

  // The exact reference count of every task in every reachable state.
  lemma {:induction false} CountsInRun(ss: seq<State>, es: seq<Event>, i: nat, t: nat)
    requires i < |ss| && Run(ss, es)
    ensures Refs(ss[i], t) == if t !in ss[i].tcbs then 0 else if ss[i].tcbs[t].status == Zombie then 1 else 2
  {
    hide Run, Inv, Refs;
    RunKeeps(ss, es, i);
    StrongCount(ss[i], t);
  }

  // A task that has exited is a zombie until it is reaped: it never runs or exits again.
  lemma {:induction false} DeadStaysDead(ss: seq<State>, es: seq<Event>, i: nat, k: nat, t: nat, code: int)
    requires i < k < |ss| && Run(ss, es) && ExitsAt(ss, es, i, t, code)
    ensures t in ss[k].tcbs ==> ss[k].tcbs[t].status == Zombie && ss[k].tcbs[t].exitCode == code
    decreases k
  {
    hide Inv, Start, Exit, WaitPid, Dispatch, Birth, Yield, SetPrio, SetBrk;
    RunKeeps(ss, es, k - 1);
    if k == i + 1 {
      ExitedIs(ss[i], code);
    } else {
      DeadStaysDead(ss, es, i, k - 1, t, code);
      ExitedIsOld(ss, es, i, k - 1, t, code);
      if t in ss[k].tcbs {
        StepTasks(ss[k - 1], es[k - 1], t);
        ZombieStep(ss[k - 1], es[k - 1], t);
      }
    }
  }

  lemma {:induction false} ExitedIs(s: State, code: int)
    requires s.current.Some? && s.current.value in s.tcbs && s.current.value != s.init
    ensures var t := s.current.value;
            t in Exit(s, code).tcbs && Exit(s, code).tcbs[t].status == Zombie && Exit(s, code).tcbs[t].exitCode == code
  {
  }

  lemma {:induction false} ExitedIsOld(ss: seq<State>, es: seq<Event>, i: nat, k: nat, t: nat, code: int)
    requires i <= k < |ss| && Run(ss, es) && ExitsAt(ss, es, i, t, code)
    ensures t < ss[k].next
    decreases k
  {
    hide Inv, Start, Step;
    RunKeeps(ss, es, k);
    if i < k {
      ExitedIsOld(ss, es, i, k - 1, t, code);
      RunKeeps(ss, es, k - 1);
      StepKeeps(ss[k - 1], es[k - 1]);
    } else {
      CurrentIsOld(ss[i], t);
    }
  }

  lemma {:induction false} CurrentIsOld(s: State, t: nat)
    requires s.current == Some(t) && Inv(s)
    ensures t < s.next
  {
  }

  lemma {:induction false} ZombieStep(s: State, e: Event, t: nat)
    requires Enabled(s, e) && t in Step(s, e).tcbs && t in s.tcbs && s.tcbs[t].status == Zombie
    requires Inv(s)
    ensures Step(s, e).tcbs[t].status == Zombie && Step(s, e).tcbs[t].exitCode == s.tcbs[t].exitCode
  {
    hide Family, DistinctPids, Advance, FirstReapable, Matches, AsUsize;
    assert PlaceOk(s, t);
    if e.Exits? { StepExit(s, e.code, t); }
  }

  // ---- yielding tasks are the rounds of the scheduler ----

  // One turn of the processor: fetch a task, let it yield.
  ghost function Turn(s: State): State {
    var d := Dispatch(s);
    if d.current.None? || d.current.value !in d.tcbs then s else Yield(d)
  }

  ghost function Turns(s: State, k: nat): State {
    if k == 0 then s else Turn(Turns(s, k - 1))
  }

  lemma {:induction false} TurnIsRound(s: State)
    requires s.current.None? && Inv(s)
    ensures Inv(Turn(s)) && Turn(s).current.None?
    ensures JobsOf(Turn(s).tcbs, Turn(s).ready) == Round(JobsOf(s.tcbs, s.ready))
  {
    hide Family, DistinctPids, ListOk, HomeOk, PlaceOk, Pick, Pass;
    DispatchKeeps(s);
    var q := JobsOf(s.tcbs, s.ready);
    if Pick(q).Some? {
      var i := Pick(q).value;
      YieldKeeps(Dispatch(s));
      var t, s' := s.ready[i], Turn(s);
      assert s'.ready == s.ready[..i] + s.ready[i + 1..] + [t];
      assert JobsOf(s'.tcbs, s'.ready) == q[..i] + q[i + 1..] + [Advance(q[i])];
    }
  }

  lemma {:induction false} TurnsAreRounds(s: State, k: nat)
    requires s.current.None? && Inv(s)
    ensures Inv(Turns(s, k)) && Turns(s, k).current.None?
    ensures JobsOf(Turns(s, k).tcbs, Turns(s, k).ready) == Rounds(JobsOf(s.tcbs, s.ready), k)
  {
    hide Inv, Turn, Round, JobsOf;
    if k > 0 {
      TurnsAreRounds(s, k - 1);
      TurnIsRound(Turns(s, k - 1));
    }
  }

  // How often task t is made current in the first k turns.
  ghost function Served(s: State, k: nat, t: nat): nat {
    if k == 0 then 0 else Served(s, k - 1, t) + if Dispatch(Turns(s, k - 1)).current == Some(t) then 1 else 0
  }

  lemma {:induction false} ServedIsPicks(s: State, k: nat, t: nat)
    requires s.current.None? && Inv(s)
    ensures Served(s, k, t) == Picks(JobsOf(s.tcbs, s.ready), k, t)
  {
    hide Inv, JobsOf, Turns, Round, Rounds, Dispatch;
    if k > 0 {
      ServedIsPicks(s, k - 1, t);
      TurnsAreRounds(s, k - 1);
      DispatchPicks(Turns(s, k - 1), t);
    }
  }

  lemma {:induction false} DispatchPicks(s: State, t: nat)
    requires s.current.None? && Inv(s)
    ensures Picked(JobsOf(s.tcbs, s.ready), t) == if Dispatch(s).current == Some(t) then 1 else 0
  {
    hide Family, DistinctPids, PlaceOk, Pick, Advance;
    var r := Pick(JobsOf(s.tcbs, s.ready));
    if r.Some? { assert s.ready[r.value] in s.ready; }
  }

  lemma {:induction false} ReadyJobs(s: State, t: nat)
    requires t in s.ready && Inv(s)
    ensures var q := JobsOf(s.tcbs, s.ready);
            && t in s.tcbs && Distinct(q) && Prios(q) && JobOf(s.tcbs, t) in q
            && Lookup(q, t) == Some(JobOf(s.tcbs, t)) && |q| == |s.ready|
    ensures forall j :: j in JobsOf(s.tcbs, s.ready) ==> j.tid in s.ready && j == JobOf(s.tcbs, j.tid)
  {
    hide Family, DistinctPids, Lookup;
    var q := JobsOf(s.tcbs, s.ready);
    forall i | 0 <= i < |q| ensures q[i].prio >= 2 && q[i].tid == s.ready[i] && q[i] == JobOf(s.tcbs, q[i].tid) {
      assert s.ready[i] in s.ready;
      assert PlaceOk(s, s.ready[i]);
    }
    var i :| 0 <= i < |s.ready| && s.ready[i] == t;
    LookupAt(q, i);
  }

  // Proportional share of the processor: tasks that start level and take turns are served in
  // proportion to BIG_STRIDE / prio, up to one pass, over any number of turns before a stride can wrap.
  lemma {:induction false} FairTurns(s: State, k: nat, a: nat, b: nat)
    requires s.current.None? && a in s.ready && b in s.ready && 125 * k < MAX && Inv(s)
    requires forall t :: t in s.ready && t in s.tcbs ==> s.tcbs[t].stride == 0
    ensures a in s.tcbs && b in s.tcbs && s.tcbs[a].prio >= 2 && s.tcbs[b].prio >= 2
    ensures var pa, pb := 250 / s.tcbs[a].prio, 250 / s.tcbs[b].prio;
            var na, nb := Served(s, k, a), Served(s, k, b);
            na * pa <= nb * pb + pa && nb * pb <= na * pa + pb && pa <= 125 && pb <= 125
  {
    hide Inv, Served, Picks, Lookup, Distinct, Prios, JobsOf, Pass;
    ReadyJobs(s, a);
    ReadyJobs(s, b);
    InTable(s);
    ServedIsPicks(s, k, a);
    ServedIsPicks(s, k, b);
    ProportionalShare(JobsOf(s.tcbs, s.ready), k, a, b);
  }

  // Each turn serves exactly one task: after k turns the services of all ready tasks add up to k.
  ghost function ServedAll(s: State, k: nat, ts: seq<nat>): nat {
    if ts == [] then 0 else ServedAll(s, k, ts[..|ts| - 1]) + Served(s, k, ts[|ts| - 1])
  }

  lemma {:induction false} TurnsAddUp(s: State, k: nat)
    requires s.current.None? && s.ready != [] && Inv(s)
    requires forall t :: t in s.ready && t in s.tcbs ==> s.tcbs[t].stride + 125 * k < MAX
    ensures ServedAll(s, k, s.ready) == k
  {
    hide Inv, Served, Turns, Turn;
    if k == 0 {
      NoneYet(s, s.ready);
    } else {
      TurnsAddUp(s, k - 1);
      SameQueue(s, k - 1);
      var t := SomeoneServed(s, k - 1);
      NoDupReady(s);
      OneMoreServed(s, k, s.ready, t);
    }
  }

  lemma {:induction false} NoneYet(s: State, ts: seq<nat>)
    ensures ServedAll(s, 0, ts) == 0
  {
    if ts != [] { NoneYet(s, ts[..|ts| - 1]); }
  }

  lemma {:induction false} NoDupReady(s: State)
    requires Inv(s)
    ensures NoDup(s.ready)
  {
  }

  // The turn adds one for the task it serves, if that is among ts.
  lemma {:induction false} OneMoreServed(s: State, k: nat, ts: seq<nat>, t: nat)
    requires k > 0 && NoDup(ts) && Dispatch(Turns(s, k - 1)).current == Some(t)
    ensures ServedAll(s, k, ts) == ServedAll(s, k - 1, ts) + if t in ts then 1 else 0
  {
    hide Dispatch, Turns;
    if ts != [] {
      var n := |ts| - 1;
      OneMoreServed(s, k, ts[..n], t);
      assert ts == ts[..n] + [ts[n]];
      if ts[n] == t { assert t !in ts[..n]; }
    }
  }

  // Turns change the order of the ready queue and nothing else of it.
  lemma {:induction false} SameQueue(s: State, k: nat)
    requires s.current.None? && Inv(s)
    ensures Inv(Turns(s, k)) && Turns(s, k).current.None?
    ensures |Turns(s, k).ready| == |s.ready| && forall t :: t in Turns(s, k).ready <==> t in s.ready
  {
    hide Inv, Turn;
    TurnsAreRounds(s, k);
    if k > 0 {
      SameQueue(s, k - 1);
      OneTurn(Turns(s, k - 1));
    }
  }

  lemma {:induction false} OneTurn(s: State)
    requires s.current.None? && Inv(s)
    ensures |Turn(s).ready| == |s.ready| && forall t :: t in Turn(s).ready <==> t in s.ready
  {
    hide Family, DistinctPids, PlaceOk, Pick, Pass, Advance;
    var r := Pick(JobsOf(s.tcbs, s.ready));
    if r.Some? {
      RemoveKeepsRest(s.ready, r.value);
      assert Turn(s).ready == s.ready[..r.value] + s.ready[r.value + 1..] + [s.ready[r.value]];
    }
  }

  lemma {:induction false} SomeoneServed(s: State, k: nat) returns (t: nat)
    requires s.current.None? && s.ready != [] && Inv(s)
    requires forall t :: t in s.ready && t in s.tcbs ==> s.tcbs[t].stride + 125 * (k + 1) < MAX
    ensures t in s.ready && Dispatch(Turns(s, k)).current == Some(t)
  {
    hide Inv, Turns, Turn, Round, Rounds, Dispatch, Pick, Picked, JobsOf, Pass;
    SameQueue(s, k);
    InTable(s);
    var q := JobsOf(s.tcbs, s.ready);
    AllReady(s);
    RoundsStay(q, k);
    var r := Rounds(q, k);
    TurnsAreRounds(s, k);
    assert r[0] in r && r[0].stride < MAX;
    t := PickedTid(Turns(s, k));
  }

  lemma {:induction false} AllReady(s: State)
    requires Inv(s)
    ensures var q := JobsOf(s.tcbs, s.ready);
            && |q| == |s.ready| && Distinct(q) && Prios(q)
            && forall i :: 0 <= i < |q| ==> q[i] == JobOf(s.tcbs, s.ready[i])
  {
    hide Family, DistinctPids;
    var q := JobsOf(s.tcbs, s.ready);
    forall i | 0 <= i < |q| ensures q[i].prio >= 2 && q[i].tid == s.ready[i] {
      assert s.ready[i] in s.ready;
      assert PlaceOk(s, s.ready[i]);
    }
  }

  lemma {:induction false} PickedTid(s: State) returns (t: nat)
    requires s.current.None? && Inv(s) && exists j :: j in JobsOf(s.tcbs, s.ready) && j.stride < MAX
    ensures t in s.ready && Dispatch(s).current == Some(t)
  {
    hide Family, DistinctPids, PlaceOk, Pick, Advance;
    var q := JobsOf(s.tcbs, s.ready);
    var r := Pick(q);
    var j :| j in q && j.stride < MAX;
    var i :| 0 <= i < |q| && q[i] == j;
    t := s.ready[r.value];
  }

  // After k rounds every stride has grown by at most 125 a round.
  lemma {:induction false} RoundsStay(q: Jobs, k: nat)
    requires q != [] && Distinct(q) && Prios(q) && forall j :: j in q ==> j.stride + 125 * (k + 1) < MAX
    ensures var r := Rounds(q, k);
            r != [] && Distinct(r) && Prios(r) && forall j :: j in r ==> j.stride + 125 < MAX
  {
    RoomStays(q, k, 1);
  }

  lemma {:induction false} InTable(s: State)
    requires Inv(s)
    ensures forall t :: t in s.ready ==> t in s.tcbs
  {
  }

  lemma {:induction false} FetchedIsServed(s: State, k: nat, n: nat, t: nat)
    requires s.current.None? && Inv(s) && Fetched(Rounds(JobsOf(s.tcbs, s.ready), k), n, t)
    ensures Served(s, k + n, t) > Served(s, k, t)
    decreases n
  {
    hide Inv, JobsOf, Turns, Round, Dispatch;
    TurnsAreRounds(s, k);
    DispatchPicks(Turns(s, k), t);
    if Picked(Rounds(JobsOf(s.tcbs, s.ready), k), t) == 1 {
      ServedGrows(s, k + 1, k + n, t);
    } else {
      FetchedIsServed(s, k + 1, n - 1, t);
      ServedGrows(s, k, k + 1, t);
    }
  }

  lemma {:induction false} ServedGrows(s: State, k: nat, n: nat, t: nat)
    requires k <= n
    ensures Served(s, k, t) <= Served(s, n, t)
    decreases n
  {
    hide Turns, Dispatch;
    if k < n { ServedGrows(s, k, n - 1, t); }
  }

  // No starvation: with priorities in 2..250 and strides within 125 of that of t, task t runs within
  // 126 * (N - 1) + 1 turns of N ready tasks.
  lemma {:induction false} ServedInTime(s: State, t: nat)
    requires s.current.None? && t in s.ready && Inv(s) && t in s.tcbs && s.tcbs[t].stride + 125 < MAX
    requires forall u :: u in s.ready && u in s.tcbs ==>
      s.tcbs[u].prio <= 250 && s.tcbs[t].stride <= s.tcbs[u].stride + 125
    ensures Served(s, 126 * (|s.ready| - 1) + 1, t) > 0
  {
    hide Inv, Served, Lookup, Distinct, JobsOf, Fetched;
    ReadyJobs(s, t);
    InTable(s);
    var q := JobsOf(s.tcbs, s.ready);
    NoStarvation(q, JobOf(s.tcbs, t));
    FetchedIsServed(s, 0, 126 * (|s.ready| - 1) + 1, t);
  }

  lemma {:induction false} ServedIsFetched(s: State, k: nat, n: nat, t: nat)
    requires s.current.None? && Inv(s) && Served(s, k + n, t) > Served(s, k, t)
    ensures Fetched(Rounds(JobsOf(s.tcbs, s.ready), k), n, t)
    decreases n
  {
    hide Inv, JobsOf, Turns, Round, Dispatch;
    TurnsAreRounds(s, k);
    DispatchPicks(Turns(s, k), t);
    if n > 0 && Picked(Rounds(JobsOf(s.tcbs, s.ready), k), t) != 1 {
      ServedIsFetched(s, k + 1, n - 1, t);
    }
  }

  // Starvation exactly, for tasks that take turns: a ready task runs some time if and only if no ready
  // task with a smaller stride has a priority above 250.
  lemma {:induction false} ServedExactly(s: State, t: nat)
    requires s.current.None? && t in s.ready && Inv(s) && t in s.tcbs && s.tcbs[t].stride + 125 < MAX
    ensures (exists k :: Served(s, k, t) > 0)
       <==> forall u :: u in s.ready && u in s.tcbs && s.tcbs[u].stride < s.tcbs[t].stride ==> s.tcbs[u].prio <= 250
  {
    hide Inv, Served, Lookup, Distinct, JobsOf, Fetched, Lag;
    var q := JobsOf(s.tcbs, s.ready);
    ReadyJobs(s, t);
    InTable(s);
    var i :| 0 <= i < |q| && q[i] == JobOf(s.tcbs, t);
    FetchedExactly(q, i);
    forall u | u in s.ready
      ensures JobOf(s.tcbs, u) in q && s.tcbs[u].prio >= 2 && (Pass(s.tcbs[u].prio) > 0 <==> s.tcbs[u].prio <= 250) {
      ReadyJobs(s, u);
      PassZero(s.tcbs[u].prio);
    }
    ServedNone(s, t);
    if Unblocked(q, q[i]) {
      var k := Lag(q, q[i].tid, q[i].stride) + i + 1;
      FetchedIsServed(s, 0, k, t);
    }
    forall k: nat | Served(s, k, t) > 0 ensures Fetched(q, k, t) { ServedIsFetched(s, 0, k, t); }
  }

  lemma {:induction false} ServedNone(s: State, t: nat)
    ensures Served(s, 0, t) == 0
  {
  }
}
