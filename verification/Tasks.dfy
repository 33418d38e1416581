/** Task life cycle: fetch, yield, fork/spawn, exit and waitpid as steps of one machine
    (src/task/task.rs, src/task/mod.rs, src/task/processor.rs, src/syscall/process.rs).

    An `Arc<TaskControlBlock>` is a task number naming an entry of the table; numbers are never
    reused, so they play the part of the heap addresses.  Dropping the last reference removes
    the entry. */
module Tasks {
  import opened Address
  import opened FrameAllocator
  import opened Stride

  datatype Status = UnInit | Ready | Running | Zombie

  datatype Tcb = Tcb(pid: nat, status: Status, parent: Option<nat>, child: seq<nat>, exitCode: int,
                     heapBottom: nat, programBrk: nat, prio: nat, stride: nat)

  // The task table, the ready queue, the current slot, INITPROC, and the next unused number.
  datatype State = State(tcbs: map<nat, Tcb>, ready: seq<nat>, current: Option<nat>, init: nat, next: nat)

  // ---- invariants ----

  predicate NoDup(s: seq<nat>) { forall i, j :: 0 <= i < j < |s| ==> s[i] != s[j] }

  // Where a task is says what its status is: Ready in the ready queue, Running in the current
  // slot, Zombie in neither.  Priorities stay at 2 or more, so update_stride never divides by 0.
  ghost predicate PlaceOk(s: State, t: nat)
    requires t in s.tcbs
  {
    s.tcbs[t].prio >= 2 && match s.tcbs[t].status
    case UnInit => false
    case Ready => t in s.ready && s.current != Some(t)
    case Running => t !in s.ready && s.current == Some(t)
    case Zombie => t !in s.ready && s.current != Some(t)
  }

  ghost predicate Placed(s: State) {
    && NoDup(s.ready)
    && (forall t :: t in s.ready ==> t in s.tcbs)
    && (s.current.Some? ==> s.current.value in s.tcbs)
    && (forall t {:trigger PlaceOk(s, t)} :: t in s.tcbs ==> PlaceOk(s, t))
    && (forall t :: t in s.tcbs ==> t < s.next)
  }

  // t's child list: no repetition, every member is younger and names t as its parent; empty for a
  // zombie.
  ghost predicate ListOk(tcbs: map<nat, Tcb>, t: nat)
    requires t in tcbs
  {
    && NoDup(tcbs[t].child)
    && (forall c :: c in tcbs[t].child ==> c in tcbs && tcbs[c].parent == Some(t) && t < c)
    && (tcbs[t].status == Zombie ==> tcbs[t].child == [])
  }

  // c is in the child list of its parent, which is in the table.
  ghost predicate HomeOk(tcbs: map<nat, Tcb>, c: nat)
    requires c in tcbs
  {
    tcbs[c].parent.Some? && tcbs[c].parent.value in tcbs && c in tcbs[tcbs[c].parent.value].child
  }

  // Child lists and parent links say the same thing: every task but init is in exactly one child
  // list, that of its parent, once; init is alive and nobody's child.
  ghost predicate Family(tcbs: map<nat, Tcb>, init: nat) {
    && init in tcbs && tcbs[init].parent == None && tcbs[init].status != Zombie
    && (forall t :: t in tcbs ==> init <= t)
    && (forall t {:trigger ListOk(tcbs, t)} :: t in tcbs ==> ListOk(tcbs, t))
    && (forall c {:trigger HomeOk(tcbs, c)} :: c in tcbs && c != init ==> HomeOk(tcbs, c))
  }

  ghost predicate DistinctPids(tcbs: map<nat, Tcb>) {
    forall t, u :: t in tcbs && u in tcbs && t != u ==> tcbs[t].pid != tcbs[u].pid
  }

  ghost predicate Inv(s: State) { Placed(s) && Family(s.tcbs, s.init) && DistinctPids(s.tcbs) }

  // ---- steps ----

  function JobOf(tcbs: map<nat, Tcb>, t: nat): Job {
    if t in tcbs then Job(t, tcbs[t].prio, tcbs[t].stride) else Job(t, 0, 0)
  }

  function JobsOf(tcbs: map<nat, Tcb>, ready: seq<nat>): Jobs {
    seq(|ready|, i requires 0 <= i < |ready| => JobOf(tcbs, ready[i]))
  }

  // One turn of run_tasks: fetch, update the stride, mark Running.
  ghost function Dispatch(s: State): State {
    var r := Pick(JobsOf(s.tcbs, s.ready));
    if r.None? || s.ready[r.value] !in s.tcbs then s
    else
      var t := s.ready[r.value];
      var b := s.tcbs[t];
      s.(tcbs := s.tcbs[t := b.(stride := Advance(JobOf(s.tcbs, t)).stride, status := Running)],
         ready := s.ready[..r.value] + s.ready[r.value + 1..], current := Some(t))
  }

  // suspend_current_and_run_next.
  function Yield(s: State): State
    requires s.current.Some? && s.current.value in s.tcbs
  {
    var t := s.current.value;
    s.(tcbs := s.tcbs[t := s.tcbs[t].(status := Ready)], ready := s.ready + [t], current := None)
  }

  // The tail of fork and spwan plus add_task: a new Ready child of the current task.
  function Birth(s: State, pid: nat, heapBottom: nat, programBrk: nat, prio: nat): State
    requires s.current.Some? && s.current.value in s.tcbs
  {
    var p, t := s.current.value, s.next;
    s.(tcbs := s.tcbs[t := Tcb(pid, Ready, Some(p), [], 0, heapBottom, programBrk, prio, 0)]
                     [p := s.tcbs[p].(child := s.tcbs[p].child + [t])],
       ready := s.ready + [t], next := s.next + 1)
  }

  // Moving children to init: their parent link changes and init's list grows.
  function Adopt(tcbs: map<nat, Tcb>, init: nat, cs: seq<nat>): map<nat, Tcb> {
    map u | u in tcbs :: if u == init then tcbs[u].(child := tcbs[u].child + cs)
                         else if u in cs then tcbs[u].(parent := Some(init)) else tcbs[u]
  }

  // exit_current_and_run_next.
  function Exit(s: State, code: int): State
    requires s.current.Some? && s.current.value in s.tcbs && s.current.value != s.init
  {
    var t := s.current.value;
    var z := s.tcbs[t].(status := Zombie, exitCode := code);
    s.(tcbs := Adopt(s.tcbs[t := z], s.init, z.child)[t := z.(child := [])], current := None)
  }

  // `pid as usize` for an isize.
  function AsUsize(pid: int): int { if pid < 0 then pid + WORD else pid }

  // Does child c match the argument of waitpid?
  predicate Matches(tcbs: map<nat, Tcb>, c: nat, pid: int) {
    c in tcbs && (pid == -1 || tcbs[c].pid == AsUsize(pid))
  }

  predicate Reapable(tcbs: map<nat, Tcb>, c: nat, pid: int) {
    Matches(tcbs, c, pid) && tcbs[c].status == Zombie
  }

  datatype Wait = NoChild | Busy | Reaped(tid: nat, pid: nat, code: int)

  function FirstReapable(tcbs: map<nat, Tcb>, cs: seq<nat>, pid: int, i: nat): (r: Option<nat>)
    requires i <= |cs|
    ensures r.Some? ==> i <= r.value < |cs| && Reapable(tcbs, cs[r.value], pid)
    ensures r.Some? ==> forall k :: i <= k < r.value ==> !Reapable(tcbs, cs[k], pid)
    ensures r.None? ==> forall k :: i <= k < |cs| ==> !Reapable(tcbs, cs[k], pid)
    decreases |cs| - i
  {
    if i == |cs| then None else if Reapable(tcbs, cs[i], pid) then Some(i) else FirstReapable(tcbs, cs, pid, i + 1)
  }

  // sys_waitpid: -1 without a matching child, -2 while none of them has exited.
  function WaitPid(s: State, pid: int): (State, Wait)
    requires s.current.Some? && s.current.value in s.tcbs
  {
    var p := s.current.value;
    var cs := s.tcbs[p].child;
    if !exists i :: 0 <= i < |cs| && Matches(s.tcbs, cs[i], pid) then (s, NoChild)
    else
      var r := FirstReapable(s.tcbs, cs, pid, 0);
      if r.None? then (s, Busy)
      else
        var c := cs[r.value];
        (s.(tcbs := (s.tcbs - {c})[p := s.tcbs[p].(child := cs[..r.value] + cs[r.value + 1..])]),
         Reaped(c, s.tcbs[c].pid, s.tcbs[c].exitCode))
  }

  // sys_set_prio.
  function SetPrio(s: State, prio: int): State
    requires s.current.Some? && s.current.value in s.tcbs
  {
    if prio <= 1 then s else s.(tcbs := s.tcbs[s.current.value := s.tcbs[s.current.value].(prio := prio)])
  }

  // The bookkeeping part of sbrk.
  function SetBrk(s: State, brk: nat): State
    requires s.current.Some? && s.current.value in s.tcbs
  {
    s.(tcbs := s.tcbs[s.current.value := s.tcbs[s.current.value].(programBrk := brk)])
  }

  // ---- every step keeps the invariant ----

  // An update of one task that leaves its family links alone.
  ghost predicate SameLinks(a: Tcb, b: Tcb) {
    a.pid == b.pid && a.parent == b.parent && a.child == b.child && (a.status == Zombie <==> b.status == Zombie)
  }

  lemma {:induction false} SameLinksKeepFamily(tcbs: map<nat, Tcb>, init: nat, t: nat, b: Tcb)
    requires t in tcbs && SameLinks(tcbs[t], b)
    requires Family(tcbs, init) && DistinctPids(tcbs)
    ensures Family(tcbs[t := b], init) && DistinctPids(tcbs[t := b])
  {
    var m := tcbs[t := b];
    forall u | u in m ensures ListOk(m, u) { assert ListOk(tcbs, u); }
    forall c | c in m && c != init ensures HomeOk(m, c) { assert HomeOk(tcbs, c); }
  }

  lemma {:induction false} DispatchKeeps(s: State)
    requires Inv(s) && s.current.None?
    ensures Inv(Dispatch(s))
  {
    hide Advance, Pick, Family, DistinctPids, JobOf, ListOk, HomeOk;
    var r := Pick(JobsOf(s.tcbs, s.ready));
    var s' := Dispatch(s);
    if r.Some? {
      var t := s.ready[r.value];
      RemoveKeepsRest(s.ready, r.value);
      assert PlaceOk(s, t);
      SameLinksKeepFamily(s.tcbs, s.init, t, s'.tcbs[t]);
      forall u | u in s'.tcbs ensures PlaceOk(s', u) { assert PlaceOk(s, u); }
    }
  }

  lemma {:induction false} RemoveKeepsRest(s: seq<nat>, i: nat)
    requires NoDup(s) && i < |s|
    ensures var r := s[..i] + s[i + 1..];
            NoDup(r) && forall t :: t in r <==> t in s && t != s[i]
  {
    var r := s[..i] + s[i + 1..];
    forall t | t in s && t != s[i] ensures t in r {
      var k :| 0 <= k < |s| && s[k] == t;
      assert r[if k < i then k else k - 1] == t;
    }
  }

  lemma {:induction false} YieldKeeps(s: State)
    requires s.current.Some? && Inv(s)
    ensures Inv(Yield(s))
  {
    hide Family, DistinctPids, ListOk, HomeOk;
    var t, s' := s.current.value, Yield(s);
    assert PlaceOk(s, t);
    SameLinksKeepFamily(s.tcbs, s.init, t, s'.tcbs[t]);
    forall u | u in s'.tcbs ensures PlaceOk(s', u) { assert PlaceOk(s, u); }
  }

  lemma {:induction false} SetPrioKeeps(s: State, prio: int)
    requires s.current.Some? && Inv(s)
    ensures Inv(SetPrio(s, prio))
  {
    hide Family, DistinctPids, ListOk, HomeOk;
    var t, s' := s.current.value, SetPrio(s, prio);
    SameLinksKeepFamily(s.tcbs, s.init, t, s'.tcbs[t]);
    forall u | u in s'.tcbs ensures PlaceOk(s', u) { assert PlaceOk(s, u); }
  }

  lemma {:induction false} BirthKeeps(s: State, pid: nat, heapBottom: nat, programBrk: nat, prio: nat)
    requires s.current.Some? && prio >= 2 && forall t :: t in s.tcbs ==> s.tcbs[t].pid != pid
    requires Inv(s)
    ensures Inv(Birth(s, pid, heapBottom, programBrk, prio))
  {
    hide ListOk, HomeOk;
    var p, t, s' := s.current.value, s.next, Birth(s, pid, heapBottom, programBrk, prio);
    assert PlaceOk(s, p);
    forall u | u in s'.tcbs ensures PlaceOk(s', u) { if u != t { assert PlaceOk(s, u); } }
    BirthFamily(s.tcbs, s.init, p, t, s'.tcbs[t]);
  }

  lemma {:induction false} BirthFamily(tcbs: map<nat, Tcb>, init: nat, p: nat, t: nat, b: Tcb)
    requires p in tcbs && tcbs[p].status != Zombie && p < t && t !in tcbs && b.parent == Some(p) && b.child == []
    requires Family(tcbs, init)
    ensures Family(tcbs[t := b][p := tcbs[p].(child := tcbs[p].child + [t])], init)
  {
    var m := tcbs[t := b][p := tcbs[p].(child := tcbs[p].child + [t])];
    forall u | u in m ensures ListOk(m, u) { if u != t { assert ListOk(tcbs, u); } }
    forall c | c in m && c != init ensures HomeOk(m, c) {
      if c == t { assert m[p].child[|m[p].child| - 1] == t; } else { assert HomeOk(tcbs, c); }
    }
  }

  lemma {:induction false} ExitKeeps(s: State, code: int)
    requires s.current.Some? && s.current.value != s.init
    requires Inv(s)
    ensures Inv(Exit(s, code))
  {
    hide ListOk, HomeOk, Family;
    var t, s' := s.current.value, Exit(s, code);
    assert PlaceOk(s, t);
    forall u | u in s'.tcbs ensures PlaceOk(s', u) { assert PlaceOk(s, u); }
    AdoptFamily(s.tcbs, s.init, t, code);
  }

  lemma {:induction false} AdoptFamily(tcbs: map<nat, Tcb>, init: nat, t: nat, code: int)
    requires t in tcbs && t != init
    requires Family(tcbs, init)
    ensures var z := tcbs[t].(status := Zombie, exitCode := code);
            Family(Adopt(tcbs[t := z], init, z.child)[t := z.(child := [])], init)
  {
    hide ListOk, HomeOk;
    var z := tcbs[t].(status := Zombie, exitCode := code);
    var m := Adopt(tcbs[t := z], init, z.child)[t := z.(child := [])];
    forall u | u in m ensures ListOk(m, u) { AdoptList(tcbs, init, t, z, u); }
    forall c | c in m && c != init ensures HomeOk(m, c) { AdoptHome(tcbs, init, t, z, c); }
  }

  lemma {:induction false} NoDupConcat(a: seq<nat>, b: seq<nat>)
    requires NoDup(a) && NoDup(b) && forall x :: x in a ==> x !in b
    ensures NoDup(a + b)
  {
    forall i, j | 0 <= i < j < |a + b| ensures (a + b)[i] != (a + b)[j] {
      if i < |a| && |a| <= j { assert a[i] in a && b[j - |a|] in b; }
    }
  }

  lemma {:induction false} AdoptList(tcbs: map<nat, Tcb>, init: nat, t: nat, z: Tcb, u: nat)
    requires t in tcbs && t != init && u in tcbs && z.child == tcbs[t].child && z.parent == tcbs[t].parent
    requires Family(tcbs, init)
    ensures ListOk(Adopt(tcbs[t := z], init, z.child)[t := z.(child := [])], u)
  {
    assert ListOk(tcbs, t) && ListOk(tcbs, u);
    var m := Adopt(tcbs[t := z], init, z.child)[t := z.(child := [])];
    forall c | c in m[u].child ensures c in m && m[c].parent == Some(u) && u < c {}
    if u == init { NoDupConcat(tcbs[init].child, z.child); }
  }

  lemma {:induction false} AdoptHome(tcbs: map<nat, Tcb>, init: nat, t: nat, z: Tcb, c: nat)
    requires t in tcbs && t != init && c in tcbs && c != init && z.child == tcbs[t].child && z.parent == tcbs[t].parent
    requires Family(tcbs, init)
    ensures HomeOk(Adopt(tcbs[t := z], init, z.child)[t := z.(child := [])], c)
  {
    assert HomeOk(tcbs, c) && ListOk(tcbs, t);
  }

  lemma {:induction false} WaitKeeps(s: State, pid: int)
    requires s.current.Some? && Inv(s)
    ensures Inv(WaitPid(s, pid).0)
  {
    hide ListOk, HomeOk, Family, Matches, Reapable, FirstReapable;
    var p, s' := s.current.value, WaitPid(s, pid).0;
    var cs := s.tcbs[p].child;
    var r := FirstReapable(s.tcbs, cs, pid, 0);
    assert PlaceOk(s, p);
    if s' != s {
      ReapedChild(s, pid);
      var c := cs[r.value];
      assert PlaceOk(s, c);
      forall u | u in s'.tcbs ensures PlaceOk(s', u) { assert PlaceOk(s, u); }
      ReapFamily(s.tcbs, s.init, p, r.value);
    }
  }

  // What waitpid takes out is a zombie child other than the caller.
  lemma {:induction false} ReapedChild(s: State, pid: int)
    requires s.current.Some? && Inv(s)
    ensures var p := s.current.value; var cs := s.tcbs[p].child; var r := FirstReapable(s.tcbs, cs, pid, 0);
            r.Some? ==> cs[r.value] in s.tcbs && cs[r.value] != p && cs[r.value] != s.init
                        && s.tcbs[cs[r.value]].status == Zombie
  {
    assert ListOk(s.tcbs, s.current.value);
  }

  lemma {:induction false} ReapFamily(tcbs: map<nat, Tcb>, init: nat, p: nat, k: nat)
    requires p in tcbs && k < |tcbs[p].child| && tcbs[p].child[k] in tcbs && tcbs[p].child[k] != p
    requires tcbs[tcbs[p].child[k]].status == Zombie
    requires Family(tcbs, init)
    ensures var cs := tcbs[p].child;
            Family((tcbs - {cs[k]})[p := tcbs[p].(child := cs[..k] + cs[k + 1..])], init)
  {
    hide ListOk, HomeOk;
    var cs := tcbs[p].child;
    var m := (tcbs - {cs[k]})[p := tcbs[p].(child := cs[..k] + cs[k + 1..])];
    forall u | u in m ensures ListOk(m, u) { ReapList(tcbs, init, p, k, u); }
    forall c | c in m && c != init ensures HomeOk(m, c) { ReapHome(tcbs, init, p, k, c); }
  }

  lemma {:induction false} ReapList(tcbs: map<nat, Tcb>, init: nat, p: nat, k: nat, u: nat)
    requires p in tcbs && k < |tcbs[p].child| && u in tcbs && u != tcbs[p].child[k] && tcbs[p].child[k] != p
    requires Family(tcbs, init)
    ensures var cs := tcbs[p].child;
            ListOk((tcbs - {cs[k]})[p := tcbs[p].(child := cs[..k] + cs[k + 1..])], u)
  {
    assert ListOk(tcbs, p) && ListOk(tcbs, u);
    RemoveKeepsRest(tcbs[p].child, k);
  }

  lemma {:induction false} ReapHome(tcbs: map<nat, Tcb>, init: nat, p: nat, k: nat, c: nat)
    requires p in tcbs && k < |tcbs[p].child| && tcbs[p].child[k] in tcbs && tcbs[p].child[k] != p
    requires tcbs[tcbs[p].child[k]].status == Zombie
    requires c in tcbs && c != tcbs[p].child[k] && c != init
    requires Family(tcbs, init)
    ensures var cs := tcbs[p].child;
            HomeOk((tcbs - {cs[k]})[p := tcbs[p].(child := cs[..k] + cs[k + 1..])], c)
  {
    assert HomeOk(tcbs, c) && ListOk(tcbs, p) && ListOk(tcbs, tcbs[p].child[k]);
    RemoveKeepsRest(tcbs[p].child, k);
  }

  lemma {:induction false} SetBrkKeeps(s: State, brk: nat)
    requires s.current.Some? && Inv(s)
    ensures Inv(SetBrk(s, brk))
  {
    hide Family, DistinctPids, ListOk, HomeOk;
    var t, s' := s.current.value, SetBrk(s, brk);
    SameLinksKeepFamily(s.tcbs, s.init, t, s'.tcbs[t]);
    forall u | u in s'.tcbs ensures PlaceOk(s', u) { assert PlaceOk(s, u); }
  }

  // ---- the process tree ----

  // Following parent links from t ends at init.
  ghost predicate LeadsToInit(tcbs: map<nat, Tcb>, init: nat, t: nat)
    decreases t
  {
    t in tcbs
    && (t == init
        || (tcbs[t].parent.Some? && tcbs[t].parent.value < t && LeadsToInit(tcbs, init, tcbs[t].parent.value)))
  }

  lemma {:induction false} TreeIsRooted(tcbs: map<nat, Tcb>, init: nat, t: nat)
    requires t in tcbs && Family(tcbs, init)
    ensures LeadsToInit(tcbs, init, t)
    decreases t
  {
    if t != init {
      assert HomeOk(tcbs, t) && ListOk(tcbs, tcbs[t].parent.value);
      TreeIsRooted(tcbs, init, tcbs[t].parent.value);
    }
  }

  // ---- reference counts ----

  // References to task t in the child lists of tasks 0..n.
  ghost function ListRefs(tcbs: map<nat, Tcb>, n: nat, t: nat): nat {
    if n == 0 then 0
    else ListRefs(tcbs, n - 1, t) + (if n - 1 in tcbs then multiset(tcbs[n - 1].child)[t] else 0)
  }

  // Arc::strong_count of task t between system calls: the ready queue, the processor, INITPROC and
  // every child list.  Parent links are Weak and do not count.
  ghost function Refs(s: State, t: nat): nat {
    multiset(s.ready)[t] + (if s.current == Some(t) then 1 else 0) + (if t == s.init then 1 else 0)
    + ListRefs(s.tcbs, s.next, t)
  }

  lemma {:induction false} NoDupCount(s: seq<nat>, t: nat)
    requires NoDup(s)
    ensures multiset(s)[t] == if t in s then 1 else 0
  {
    if s != [] {
      NoDupCount(s[..|s| - 1], t);
      assert s == s[..|s| - 1] + [s[|s| - 1]];
    }
  }

  lemma {:induction false} ListRefsExact(tcbs: map<nat, Tcb>, init: nat, n: nat, t: nat)
    requires Family(tcbs, init)
    ensures ListRefs(tcbs, n, t)
         == if t in tcbs && t != init && tcbs[t].parent.Some? && tcbs[t].parent.value < n then 1 else 0
  {
    if n > 0 {
      ListRefsExact(tcbs, init, n - 1, t);
      if n - 1 in tcbs {
        assert ListOk(tcbs, n - 1);
        NoDupCount(tcbs[n - 1].child, t);
      }
      if t in tcbs && t != init { assert HomeOk(tcbs, t); }
    }
  }

  // The reference count of every task in every good state: one from the tree (INITPROC for init),
  // one more while it is ready or running, none once it is out of the table.
  lemma {:induction false} StrongCount(s: State, t: nat)
    requires Inv(s)
    ensures Refs(s, t) == if t !in s.tcbs then 0 else if s.tcbs[t].status == Zombie then 1 else 2
  {
    hide ListOk, ListRefs, DistinctPids;
    ListRefsExact(s.tcbs, s.init, s.next, t);
    NoDupCount(s.ready, t);
    if t in s.tcbs {
      assert PlaceOk(s, t);
      if t != s.init { assert HomeOk(s.tcbs, t); }
    }
  }

  // waitpid's assert_eq!(Arc::strong_count(&child), 1) holds: once the entry is out of the child
  // list no reference is left but the local one.
  lemma {:induction false} ReapedIsUnreferenced(s: State, pid: int)
    requires s.current.Some? && Inv(s) && WaitPid(s, pid).1.Reaped?
    ensures var c := WaitPid(s, pid).1.tid;
            Refs(s, c) == 1 && Refs(WaitPid(s, pid).0, c) == 0
  {
    hide Family, ListOk, HomeOk, ListRefs, Refs;
    var (s', w) := WaitPid(s, pid);
    WaitKeeps(s, pid);
    ReapedChild(s, pid);
    StrongCount(s, w.tid);
    StrongCount(s', w.tid);
  }

  // The tasks waitpid(pid) is about, named by parent links and pids alone.
  ghost function Mine(s: State, pid: int): set<nat>
    requires s.current.Some?
  {
    set c | c in s.tcbs && s.tcbs[c].parent == s.current
            && (pid == -1 || s.tcbs[c].pid == if pid < 0 then 0x1_0000_0000_0000_0000 + pid else pid)
  }

  lemma {:induction false} MineListed(s: State, pid: int)
    requires s.current.Some? && Inv(s)
    ensures Mine(s, pid) == set c | c in s.tcbs[s.current.value].child && Matches(s.tcbs, c, pid)
  {
    hide PlaceOk, DistinctPids;
    assert ListOk(s.tcbs, s.current.value);
    forall c | c in Mine(s, pid) ensures c in s.tcbs[s.current.value].child { assert c == s.init || HomeOk(s.tcbs, c); }
  }

  // The three answers of waitpid: -1 if and only if no child matches, -2 if and only if some match
  // and none has exited, and otherwise one matching zombie goes, with the code it left.
  lemma {:induction false} WaitAnswers(s: State, pid: int)
    requires s.current.Some? && Inv(s)
    ensures var (s', w) := WaitPid(s, pid); var mine := Mine(s, pid);
            && (w.NoChild? <==> mine == {})
            && (w.Busy? <==> mine != {} && forall c :: c in mine ==> s.tcbs[c].status != Zombie)
            && (w.Reaped? ==> w.tid in mine && s.tcbs[w.tid].status == Zombie && w.pid == s.tcbs[w.tid].pid
                              && w.code == s.tcbs[w.tid].exitCode && s'.tcbs.Keys == s.tcbs.Keys - {w.tid})
            && (!w.Reaped? ==> s' == s)
  {
    hide FirstReapable, Mine, Family, ListOk, HomeOk, PlaceOk, DistinctPids;
    var p := s.current.value;
    var cs := s.tcbs[p].child;
    var r := FirstReapable(s.tcbs, cs, pid, 0);
    MineListed(s, pid);
    ReapedChild(s, pid);
    if i :| 0 <= i < |cs| && Matches(s.tcbs, cs[i], pid) {
      assert cs[i] in Mine(s, pid);
    }
    if r.None? {
      forall c | c in Mine(s, pid) ensures s.tcbs[c].status != Zombie {
        var i :| 0 <= i < |cs| && cs[i] == c;
        assert !Reapable(s.tcbs, cs[i], pid);
      }
    }
  }
}
