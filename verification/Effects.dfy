/** What each step of the task machine does, field by field, from the state before it and its arguments. */
module Effects {
  import opened Address
  import opened FrameAllocator
  import opened Stride
  import opened Tasks
  import opened Lifecycle

  // The tasks of s outside ts are as they were.
  ghost predicate OthersSame(s: State, s': State, ts: set<nat>) {
    forall u :: u in s.tcbs && u !in ts ==> u in s'.tcbs && s'.tcbs[u] == s.tcbs[u]
  }

  // Queue entry i is fetched: it has the least stride, and is the first to have it.
  ghost predicate Fetches(s: State, s': State, i: nat) {
    && i < |s.ready| && s.ready[i] in s.tcbs && s'.ready == s.ready[..i] + s.ready[i + 1..]
    && var t := s.ready[i]; var b := s.tcbs[t];
    && b.stride < 0xffff_ffff_ffff_ffff && b.prio > 0
    && (forall k :: 0 <= k < |s.ready| && s.ready[k] in s.tcbs ==> b.stride <= s.tcbs[s.ready[k]].stride)
    && (forall k :: 0 <= k < i && s.ready[k] in s.tcbs ==> b.stride < s.tcbs[s.ready[k]].stride)
    && s'.current == Some(t) && s'.tcbs.Keys == s.tcbs.Keys && OthersSame(s, s', {t})
    && s'.tcbs[t] == Tcb(b.pid, Running, b.parent, b.child, b.exitCode, b.heapBottom, b.programBrk, b.prio,
                         (b.stride + 250 / b.prio) % 0x1_0000_0000_0000_0000)
  }

  // The first task of least stride runs, its stride advanced by 250 / prio; without any below usize::MAX,
  // nothing happens.
  ghost predicate Dispatched(s: State, s': State) {
    if forall t :: t in s.ready && t in s.tcbs ==> s.tcbs[t].stride >= 0xffff_ffff_ffff_ffff then s' == s
    else s'.init == s.init && s'.next == s.next && exists i: nat :: Fetches(s, s', i)
  }

  ghost predicate Yielded(s: State, s': State, t: nat)
    requires t in s.tcbs
  {
    var b := s.tcbs[t];
    && s'.ready == s.ready + [t] && s'.current == None && s'.init == s.init && s'.next == s.next
    && s'.tcbs.Keys == s.tcbs.Keys && OthersSame(s, s', {t})
    && s'.tcbs[t] == Tcb(b.pid, Ready, b.parent, b.child, b.exitCode, b.heapBottom, b.programBrk, b.prio, b.stride)
  }

  // A new task with number s.next: a ready child of p at stride 0.
  ghost predicate Created(s: State, s': State, p: nat, pid: nat, heapBottom: nat, programBrk: nat, prio: nat)
    requires p in s.tcbs
  {
    var b, t := s.tcbs[p], s.next;
    && s'.ready == s.ready + [t] && s'.current == s.current && s'.init == s.init && s'.next == t + 1
    && s'.tcbs.Keys == s.tcbs.Keys + {t} && OthersSame(s, s', {p, t})
    && s'.tcbs[t] == Tcb(pid, Ready, Some(p), [], 0, heapBottom, programBrk, prio, 0)
    && s'.tcbs[p] == Tcb(b.pid, b.status, b.parent, b.child + [t], b.exitCode, b.heapBottom, b.programBrk, b.prio,
                         b.stride)
  }

  // Task t is a zombie with its code and no children; these are now the last children of init, in order.
  ghost predicate Exited(s: State, s': State, t: nat, code: int)
    requires t in s.tcbs && s.init in s.tcbs
  {
    var b, z := s.tcbs[t], s.tcbs[s.init];
    && s'.ready == s.ready && s'.current == None && s'.init == s.init && s'.next == s.next
    && s'.tcbs.Keys == s.tcbs.Keys
    && s'.tcbs[t] == Tcb(b.pid, Zombie, b.parent, [], code, b.heapBottom, b.programBrk, b.prio, b.stride)
    && s'.tcbs[s.init] == Tcb(z.pid, z.status, z.parent, z.child + b.child, z.exitCode, z.heapBottom, z.programBrk,
                              z.prio, z.stride)
    && (forall c :: c in b.child ==> c in s.tcbs && s'.tcbs[c] == s.tcbs[c].(parent := Some(s.init)))
    && forall u :: u in s.tcbs && u != t && u != s.init && u !in b.child ==> s'.tcbs[u] == s.tcbs[u]
  }

  // Child c of the matching ones is the first zombie in the list of p; it goes, and nothing else changes.
  ghost predicate ReapsFirst(s: State, s': State, p: nat, pid: int, w: Wait)
    requires p in s.tcbs && s.current == Some(p)
  {
    var b := s.tcbs[p];
    && w.Reaped? && w.tid in s.tcbs && w.pid == s.tcbs[w.tid].pid && w.code == s.tcbs[w.tid].exitCode
    && s'.ready == s.ready && s'.current == s.current && s'.init == s.init && s'.next == s.next
    && s'.tcbs.Keys == s.tcbs.Keys - {w.tid} && OthersSame(s, s', {p, w.tid})
    && w.tid in Mine(s, pid) && s.tcbs[w.tid].status == Zombie && p != w.tid
    && exists i: nat :: FirstOf(s, b.child, pid, i, w.tid) && s'.tcbs[p] == b.(child := b.child[..i] + b.child[i + 1..])
  }

  // Entry i is c, and no matching zombie comes before it.
  ghost predicate FirstOf(s: State, cs: seq<nat>, pid: int, i: nat, c: nat)
    requires s.current.Some?
  {
    && i < |cs| && cs[i] == c
    && forall k :: 0 <= k < i && cs[k] in Mine(s, pid) ==> s.tcbs[cs[k]].status != Zombie
  }

  ghost predicate Waited(s: State, s': State, p: nat, pid: int, w: Wait)
    requires p in s.tcbs && s.current == Some(p)
  {
    if Mine(s, pid) == {} then w == NoChild && s' == s
    else if forall c :: c in Mine(s, pid) ==> s.tcbs[c].status != Zombie then w == Busy && s' == s
    else ReapsFirst(s, s', p, pid, w)
  }

  // One field of the running task changed.
  ghost predicate Updated(s: State, s': State, t: nat, b: Tcb) {
    && s'.ready == s.ready && s'.current == s.current && s'.init == s.init && s'.next == s.next
    && s'.tcbs.Keys == s.tcbs.Keys && OthersSame(s, s', {t}) && t in s'.tcbs && s'.tcbs[t] == b
  }

  ghost predicate Happened(s: State, s': State, e: Event) {
    if e.Fetch? then s.current.None? && Dispatched(s, s')
    else
      && s.current.Some? && s.current.value in s.tcbs && s.init in s.tcbs
      && var t := s.current.value; var b := s.tcbs[t];
      match e
      case Yields => Yielded(s, s', t)
      case Creates(pid, heapBottom, programBrk, prio) => Created(s, s', t, pid, heapBottom, programBrk, prio)
      case Exits(code) => t != s.init && Exited(s, s', t, code)
      case Waits(pid) => exists w :: Waited(s, s', t, pid, w)
      case Prio(p) => if p <= 1 then s' == s else Updated(s, s', t, b.(prio := p))
      case Brk(brk) => Updated(s, s', t, b.(programBrk := brk))
      case Fetch => false
  }

  // ---- each step has its effect ----

  lemma {:induction false} DispatchDoes(s: State)
    requires s.current.None? && Inv(s)
    ensures Dispatched(s, Dispatch(s))
  {
    hide Family, DistinctPids, Pick, Pass;
    var q := JobsOf(s.tcbs, s.ready);
    var r := Pick(q);
    forall i | 0 <= i < |s.ready| ensures s.ready[i] in s.tcbs && q[i].stride == s.tcbs[s.ready[i]].stride {}
    if r.None? {
      forall t | t in s.ready && t in s.tcbs ensures s.tcbs[t].stride >= MAX {
        var i :| 0 <= i < |s.ready| && s.ready[i] == t;
        assert q[i].stride >= MAX;
      }
    } else {
      assert PlaceOk(s, s.ready[r.value]);
      PassExact(s.tcbs[s.ready[r.value]].prio);
      assert Fetches(s, Dispatch(s), r.value);
    }
  }

  lemma {:induction false} YieldDoes(s: State)
    requires s.current.Some? && s.current.value in s.tcbs
    ensures Yielded(s, Yield(s), s.current.value)
  {
  }

  lemma {:induction false} BirthDoes(s: State, pid: nat, heapBottom: nat, programBrk: nat, prio: nat)
    requires s.current.Some? && Inv(s)
    ensures s.current.value in s.tcbs
    ensures Created(s, Birth(s, pid, heapBottom, programBrk, prio), s.current.value, pid, heapBottom, programBrk, prio)
  {
    hide Family, DistinctPids, PlaceOk;
  }

  lemma {:induction false} ExitDoes(s: State, code: int)
    requires s.current.Some? && s.current.value != s.init && Inv(s)
    ensures s.current.value in s.tcbs && s.init in s.tcbs && Exited(s, Exit(s, code), s.current.value, code)
  {
    hide DistinctPids, PlaceOk;
    assert ListOk(s.tcbs, s.current.value);
  }

  lemma {:induction false} WaitDoes(s: State, pid: int)
    requires s.current.Some? && Inv(s)
    ensures s.current.value in s.tcbs
    ensures Waited(s, WaitPid(s, pid).0, s.current.value, pid, WaitPid(s, pid).1)
  {
    hide Family, DistinctPids, PlaceOk, Mine;
    WaitAnswers(s, pid);
    var (s', w) := WaitPid(s, pid);
    if w.Reaped? { FirstGoes(s, pid); }
  }

  lemma {:induction false} FirstGoes(s: State, pid: int)
    requires s.current.Some? && Inv(s) && WaitPid(s, pid).1.Reaped?
    ensures s.current.value in s.tcbs
    ensures ReapsFirst(s, WaitPid(s, pid).0, s.current.value, pid, WaitPid(s, pid).1)
  {
    hide Family, DistinctPids, PlaceOk, Mine, AsUsize;
    WaitAnswers(s, pid);
    ReapedChild(s, pid);
    MineListed(s, pid);
    var p := s.current.value;
    var cs := s.tcbs[p].child;
    var i := FirstReapable(s.tcbs, cs, pid, 0).value;
    forall k | 0 <= k < i && cs[k] in Mine(s, pid) ensures s.tcbs[cs[k]].status != Zombie {
      assert !Reapable(s.tcbs, cs[k], pid);
    }
    assert FirstOf(s, cs, pid, i, WaitPid(s, pid).1.tid);
  }

  lemma {:induction false} UpdateDoes(s: State, prio: int, brk: nat)
    requires s.current.Some? && s.current.value in s.tcbs
    ensures var t := s.current.value; var b := s.tcbs[t];
            && (if prio <= 1 then SetPrio(s, prio) == s else Updated(s, SetPrio(s, prio), t, b.(prio := prio)))
            && Updated(s, SetBrk(s, brk), t, b.(programBrk := brk))
  {
  }

  // Every step of the task machine does what its event says, and nothing else.
  lemma {:induction false} StepHappens(s: State, e: Event)
    requires Enabled(s, e) && Inv(s)
    ensures Happened(s, Step(s, e), e)
  {
    hide Inv, Dispatched, Yielded, Created, Exited, Waited, Updated, Dispatch, Yield, Birth, Exit, WaitPid, SetPrio,
         SetBrk;
    InitThere(s);
    match e
    case Fetch => DispatchDoes(s);
    case Yields => YieldDoes(s);
    case Creates(pid, h, b, p) => BirthDoes(s, pid, h, b, p);
    case Exits(code) => ExitDoes(s, code);
    case Waits(pid) => WaitDoes(s, pid);
    case Prio(p) => UpdateDoes(s, p, 0);
    case Brk(b) => UpdateDoes(s, 0, b);
  }

  lemma {:induction false} InitThere(s: State)
    requires Inv(s)
    ensures s.init in s.tcbs
  {
    hide Placed, DistinctPids;
  }
}
