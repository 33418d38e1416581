/** The stride scheduler (src/task/manager.rs, src/task/task.rs:307-311, src/task/scheduler.rs). */
module Stride {
  import opened Address
  import opened FrameAllocator

  const BIG_STRIDE := 250
  const MAX := WORD - 1      // usize::MAX

  // What the scheduler sees of a task.
  datatype Job = Job(tid: nat, prio: nat, stride: nat)

  // sys_set_prio refuses priorities below 2, and tasks start with 16, so a priority is never 0.
  type Jobs = seq<Job>

  function Pass(prio: nat): nat { if prio == 0 then 0 else BIG_STRIDE / prio }

  // TaskControlBlock::update_stride, on wrapping machine words.
  function Advance(j: Job): Job { j.(stride := (j.stride + Pass(j.prio)) % WORD) }

  // ---- selection ----

  // The index fetch ends up with: the first task of least stride.  A stride of usize::MAX never wins.
  ghost function Pick(q: Jobs): (r: Option<nat>)
    ensures r.Some? ==> r.value < |q|
    ensures r.Some? ==> q[r.value].stride < MAX
    ensures r.Some? ==> forall k :: 0 <= k < |q| ==> q[r.value].stride <= q[k].stride
    ensures r.Some? ==> forall k :: 0 <= k < r.value ==> q[r.value].stride < q[k].stride
    ensures r.None? ==> forall k :: 0 <= k < |q| ==> q[k].stride >= MAX
  {
    if q == [] then None
    else
      var n := |q| - 1;
      var p := Pick(q[..n]);
      assert q == q[..n] + [q[n]];
      if (if p.None? then MAX else q[p.value].stride) > q[n].stride then Some(n) else p
  }

  // The scan of TaskManager::fetch.
  method Scan(q: Jobs) returns (r: Option<nat>)
    ensures r == Pick(q)
  {
    var minStride := MAX;
    var minIdx: Option<nat> := None;
    var i := 0;
    while i < |q|
      invariant 0 <= i <= |q| && minIdx == Pick(q[..i])
      invariant minStride == if minIdx.None? then MAX else q[minIdx.value].stride
    {
      assert q[..i + 1][..i] == q[..i];
      if minStride > q[i].stride {
        minIdx, minStride := Some(i), q[i].stride;
      }
      i := i + 1;
    }
    assert q[..i] == q;
    return minIdx;
  }

  // ---- rounds: fetch one task, run it, put it back at the end of the queue ----

  ghost function Round(q: Jobs): Jobs {
    if Pick(q).None? then q
    else
      var i := Pick(q).value;
      q[..i] + q[i + 1..] + [Advance(q[i])]
  }

  ghost predicate Distinct(q: Jobs) {
    forall i, j :: 0 <= i < j < |q| ==> q[i].tid != q[j].tid
  }

  ghost function Lookup(q: Jobs, t: nat): (r: Option<Job>)
    ensures r.Some? ==> r.value in q && r.value.tid == t
    ensures r.None? ==> forall j :: j in q ==> j.tid != t
  {
    if q == [] then None
    else
      assert q == q[..|q| - 1] + [q[|q| - 1]];
      if q[|q| - 1].tid == t then Some(q[|q| - 1]) else Lookup(q[..|q| - 1], t)
  }

  lemma {:induction false} LookupAt(q: Jobs, i: nat)
    requires i < |q| && Distinct(q)
    ensures Lookup(q, q[i].tid) == Some(q[i])
  {
    var j := Lookup(q, q[i].tid).value;
    var k :| 0 <= k < |q| && q[k] == j;
    assert k == i;
  }

  // The jobs after a round: the same tasks in another order, the picked one advanced.
  lemma {:induction false} RoundJobs(q: Jobs)
    requires Pick(q).Some? && Distinct(q)
    ensures |Round(q)| == |q| && Distinct(Round(q))
    ensures forall j :: j in Round(q) <==> j == Advance(q[Pick(q).value]) || (j in q && j != q[Pick(q).value])
  {
    var i := Pick(q).value;
    var r := Round(q);
    forall k | 0 <= k < |q| - 1 ensures r[k] == q[if k < i then k else k + 1] {
    }
    forall j | j in q && j != q[i] ensures j in r {
      var k :| 0 <= k < |q| && q[k] == j;
      assert r[if k < i then k else k - 1] == j;
    }
    assert r[|q| - 1] == Advance(q[i]);
  }

  lemma {:induction false} RoundLookup(q: Jobs, t: nat)
    requires Pick(q).Some? && Distinct(q)
    ensures var p := q[Pick(q).value];
            Lookup(Round(q), t) == if t == p.tid then Some(Advance(p)) else Lookup(q, t)
  {
    RoundJobs(q);
    var p, r := q[Pick(q).value], Round(q);
    hide Pick, Round, Advance;
    if t == p.tid {
      var k :| 0 <= k < |r| && r[k] == Advance(p);
      LookupAt(r, k);
    } else if Lookup(q, t).Some? {
      var j := Lookup(q, t).value;
      var k :| 0 <= k < |r| && r[k] == j;
      LookupAt(r, k);
    }
  }

  ghost function Rounds(q: Jobs, k: nat): Jobs {
    if k == 0 then q else Round(Rounds(q, k - 1))
  }

  ghost function Picked(q: Jobs, t: nat): nat {
    if Pick(q).Some? && q[Pick(q).value].tid == t then 1 else 0
  }

  // How often task t is fetched in the first k rounds.
  ghost function Picks(q: Jobs, k: nat, t: nat): nat {
    if k == 0 then 0 else Picks(q, k - 1, t) + Picked(Rounds(q, k - 1), t)
  }

  // No task can wrap its stride within n more rounds.
  ghost predicate Room(q: Jobs, n: nat) {
    forall j :: j in q ==> j.stride + 125 * n < MAX
  }

  ghost predicate Prios(q: Jobs) {
    forall j :: j in q ==> j.prio >= 2
  }

  // The pass is 250 / prio, rounded down: prio passes make 250, up to one more for each.
  lemma {:induction false} PassExact(prio: nat)
    requires prio >= 2
    ensures Pass(prio) * prio <= 250 < (Pass(prio) + 1) * prio && Pass(prio) == 250 / prio
  {
    assert BIG_STRIDE == Pass(prio) * prio + BIG_STRIDE % prio;
  }

  lemma {:induction false} PassBound(prio: nat)
    requires prio >= 2
    ensures Pass(prio) <= 125 && (prio <= 250 ==> Pass(prio) >= 1)
  {
    PassExact(prio);
    assert Pass(prio) * prio >= Pass(prio) * 2;
  }

  // ---- proportional share ----

  // No stride is ahead of another by more than its own pass.
  ghost predicate Spread(q: Jobs) {
    forall i, j :: i in q && j in q ==> i.stride <= j.stride + Pass(i.prio)
  }

  lemma {:induction false} RoundKeepsSpread(q: Jobs, n: nat)
    requires q != [] && n > 0 && Distinct(q) && Prios(q) && Room(q, n) && Spread(q)
    ensures Pick(q).Some? && Distinct(Round(q)) && Prios(Round(q)) && Room(Round(q), n - 1) && Spread(Round(q))
    ensures Round(q) != []
    ensures var p := q[Pick(q).value]; Advance(p) == p.(stride := p.stride + Pass(p.prio))
  {
    hide Pass, Pick, Round;
    assert q[0] in q;
    var p := q[Pick(q).value];
    assert p in q;
    PassBound(p.prio);
    NoWrap(p);
    RoundJobs(q);
    hide Advance;
    assert Spread(Round(q)) by {
      forall i, j | i in Round(q) && j in Round(q) ensures i.stride <= j.stride + Pass(i.prio) {
        if i in q && j in q {
        } else if j in q {
          assert p.stride <= j.stride;
        } else if i in q {
          assert i.stride <= p.stride + Pass(i.prio);
        }
      }
    }
  }

  lemma {:induction false} NoWrap(p: Job)
    requires p.stride + Pass(p.prio) < WORD
    ensures Advance(p) == p.(stride := p.stride + Pass(p.prio))
  {
    hide Pass;
  }

  lemma {:induction false} RoundsKeepSpread(q: Jobs, k: nat, n: nat)
    requires q != [] && Distinct(q) && Prios(q) && Room(q, k + n) && Spread(q)
    ensures var r := Rounds(q, k); r != [] && Distinct(r) && Prios(r) && Room(r, n) && Spread(r)
  {
    hide Pass, Spread, Room, Pick, Round, Distinct, Prios;
    if k > 0 {
      RoundsKeepSpread(q, k - 1, n + 1);
      RoundKeepsSpread(Rounds(q, k - 1), n + 1);
    }
  }

  // A round uses up room for one fetch, whatever the spread.
  lemma {:induction false} RoomStays(q: Jobs, k: nat, n: nat)
    requires q != [] && Distinct(q) && Prios(q) && Room(q, k + n)
    ensures var r := Rounds(q, k); r != [] && Distinct(r) && Prios(r) && Room(r, n)
  {
    hide Pass, Pick, Round, Distinct, Prios, Room;
    if k > 0 {
      RoomStays(q, k - 1, n + 1);
      RoundKeepsRoom(Rounds(q, k - 1), n + 1);
    }
  }

  lemma {:induction false} RoundKeepsRoom(q: Jobs, n: nat)
    requires q != [] && n > 0 && Distinct(q) && Prios(q) && Room(q, n)
    ensures Distinct(Round(q)) && Prios(Round(q)) && Room(Round(q), n - 1) && Round(q) != []
  {
    hide Pass, Pick, Round;
    assert q[0] in q;
    var p := q[Pick(q).value];
    assert p in q;
    PassBound(p.prio);
    NoWrap(p);
    RoundJobs(q);
  }

  ghost function Times(n: nat, p: nat): nat { if n == 0 then 0 else Times(n - 1, p) + p }

  lemma {:induction false} TimesIsProduct(n: nat, p: nat)
    ensures Times(n, p) == n * p
  {
    if n > 0 {
      TimesIsProduct(n - 1, p);
    }
  }

  // After k rounds a task's stride is what it was plus its pass for every time it was fetched.
  lemma {:induction false} StrideCounts(q: Jobs, k: nat, n: nat, t: nat)
    requires q != [] && Distinct(q) && Prios(q) && Room(q, k + n) && Spread(q) && Lookup(q, t).Some?
    ensures var j := Lookup(q, t).value;
            Lookup(Rounds(q, k), t) == Some(j.(stride := j.stride + Times(Picks(q, k, t), Pass(j.prio))))
  {
    hide Pass, Spread, Room, Pick, Round, Distinct, Prios, Advance, Lookup;
    if k > 0 {
      StrideCounts(q, k - 1, n + 1, t);
      RoundsKeepSpread(q, k - 1, n + 1);
      var r := Rounds(q, k - 1);
      RoundKeepsSpread(r, n + 1);
      RoundLookup(r, t);
      if r[Pick(r).value].tid == t {
        LookupPick(r, t);
      }
    }
  }

  lemma {:induction false} LookupPick(q: Jobs, t: nat)
    requires Pick(q).Some? && Distinct(q) && q[Pick(q).value].tid == t
    ensures Lookup(q, t) == Some(q[Pick(q).value])
  {
    hide Pick;
    LookupAt(q, Pick(q).value);
  }

  // Every task gets its share: over any k rounds of a fixed set of tasks that start level, the
  // numbers of fetches weighted by 250 / prio differ by at most the larger of these, hence by at most
  // 125.  Strides are machine words; k stays below the first possible wrap.
  lemma {:induction false} ProportionalShare(q: Jobs, k: nat, a: nat, b: nat)
    requires Distinct(q) && Prios(q) && 125 * k < MAX && (forall j :: j in q ==> j.stride == 0)
    requires Lookup(q, a).Some? && Lookup(q, b).Some?
    ensures Lookup(q, a).value.prio >= 2 && Lookup(q, b).value.prio >= 2
    ensures var pa, pb := 250 / Lookup(q, a).value.prio, 250 / Lookup(q, b).value.prio;
            var na, nb := Picks(q, k, a), Picks(q, k, b);
            na * pa <= nb * pb + pa && nb * pb <= na * pa + pb && pa <= 125 && pb <= 125
  {
    hide Pass, Picks, Rounds, Lookup, Times;
    RoundsKeepSpread(q, k, 0);
    StrideCounts(q, k, 0, a);
    StrideCounts(q, k, 0, b);
    TimesIsProduct(Picks(q, k, a), Pass(Lookup(q, a).value.prio));
    TimesIsProduct(Picks(q, k, b), Pass(Lookup(q, b).value.prio));
    PassBound(Lookup(q, a).value.prio);
    PassBound(Lookup(q, b).value.prio);
    PassExact(Lookup(q, a).value.prio);
    PassExact(Lookup(q, b).value.prio);
    assert Lookup(Rounds(q, k), a).value in Rounds(q, k) && Lookup(Rounds(q, k), b).value in Rounds(q, k);
  }

  // The bound on k is needed.  While no stride is ahead of another by more than its own pass, one more
  // fetch keeps it so if and only if the fetched stride does not wrap.
  lemma {:induction false} WrapBreaksShare(q: Jobs)
    requires |q| >= 2 && Distinct(q) && Prios(q) && Spread(q) && (forall j :: j in q ==> j.stride < MAX)
    ensures Pick(q).Some?
    ensures Spread(Round(q)) <==> q[Pick(q).value].stride + Pass(q[Pick(q).value].prio) < WORD
  {
    hide Pass, Pick, Round;
    assert q[0] in q && q[1] in q;
    var p := q[Pick(q).value];
    var o := if Pick(q).value == 0 then q[1] else q[0];
    PassBound(p.prio);
    PassBound(o.prio);
    RoundJobs(q);
    assert o in Round(q) && Advance(p) in Round(q) && p in q;
    if p.stride + Pass(p.prio) < WORD {
      NoWrap(p);
      forall i, j | i in Round(q) && j in Round(q) ensures i.stride <= j.stride + Pass(i.prio) {
        if j in q && i !in q { assert p.stride <= j.stride; }
        if i in q { assert i.stride <= p.stride + Pass(i.prio); }
      }
    } else {
      assert Advance(p).stride == p.stride + Pass(p.prio) - WORD && Advance(p).prio == p.prio;
      assert !(o.stride <= Advance(p).stride + Pass(o.prio));
    }
  }

  // Such a wrap can come: two tasks of priority 2 just below the end of the number range.
  lemma {:induction false} WrapWitness()
    ensures var q := [Job(0, 2, MAX - 1), Job(1, 2, MAX - 1)];
            Distinct(q) && Prios(q) && Spread(q) && Pick(q) == Some(0) && !Spread(Round(q))
  {
    var q := [Job(0, 2, MAX - 1), Job(1, 2, MAX - 1)];
    assert q[0] in q && q[1] in q;
    assert Pass(2) == 125;
    WrapBreaksShare(q);
  }

  // ---- no starvation ----

  // How far the other tasks are behind stride s, counted so that a task at s still counts 1.
  ghost function Behind(j: Job, t: nat, s: nat): nat {
    if j.tid != t && j.stride <= s then s + 1 - j.stride else 0
  }

  ghost function Lag(q: Jobs, t: nat, s: nat): nat {
    if q == [] then 0 else Lag(q[..|q| - 1], t, s) + Behind(q[|q| - 1], t, s)
  }

  lemma {:induction false} LagConcat(a: Jobs, b: Jobs, t: nat, s: nat)
    ensures Lag(a + b, t, s) == Lag(a, t, s) + Lag(b, t, s)
  {
    hide Behind;
    if b == [] {
      assert a + b == a;
    } else {
      LagConcat(a, b[..|b| - 1], t, s);
      assert (a + b)[..|a + b| - 1] == a + b[..|b| - 1];
    }
  }

  lemma {:induction false} RoundLag(q: Jobs, t: nat, s: nat)
    requires Pick(q).Some?
    ensures var p := q[Pick(q).value];
            Lag(Round(q), t, s) + Behind(p, t, s) == Lag(q, t, s) + Behind(Advance(p), t, s)
  {
    hide Behind, Pick, Advance;
    var i := Pick(q).value;
    assert q == q[..i] + ([q[i]] + q[i + 1..]);
    LagConcat(q[..i], [q[i]] + q[i + 1..], t, s);
    LagConcat([q[i]], q[i + 1..], t, s);
    LagConcat(q[..i] + q[i + 1..], [Advance(q[i])], t, s);
    LagConcat(q[..i], q[i + 1..], t, s);
    assert [q[i]][..0] == [] && [Advance(q[i])][..0] == [];
  }

  ghost predicate Moving(q: Jobs) {
    forall j :: j in q ==> 2 <= j.prio <= 250
  }

  // A round that does not fetch t brings the others at least one step closer.
  lemma {:induction false} LagShrinks(q: Jobs, j: Job)
    requires j in q && Distinct(q) && Moving(q) && j.stride + 125 < MAX
    ensures Pick(q).Some? && Distinct(Round(q)) && Moving(Round(q))
    ensures q[Pick(q).value].tid != j.tid ==> j in Round(q) && Lag(Round(q), j.tid, j.stride) < Lag(q, j.tid, j.stride)
  {
    hide Pass, Pick, Round, Lag;
    var p := q[Pick(q).value];
    assert p in q && p.stride <= j.stride;
    PassBound(p.prio);
    NoWrap(p);
    RoundJobs(q);
    RoundLag(q, j.tid, j.stride);
  }

  // A ready task is fetched within Lag + 1 rounds, whatever the strides are.
  lemma {:induction false} FetchedWithinLag(q: Jobs, j: Job, k: nat)
    requires j in q && Distinct(q) && Moving(q) && j.stride + 125 < MAX && k > Lag(q, j.tid, j.stride)
    ensures Fetched(q, k, j.tid)
    decreases k
  {
    hide Pass, Pick, Round, Lag, Distinct, Moving;
    LagShrinks(q, j);
    if q[Pick(q).value].tid != j.tid {
      FetchedWithinLag(Round(q), j, k - 1);
    }
  }

  // Some of the next k rounds fetches task t.
  ghost predicate Fetched(q: Jobs, k: nat, t: nat)
    decreases k
  {
    k > 0 && (Picked(q, t) == 1 || Fetched(Round(q), k - 1, t))
  }

  lemma {:induction false} LagBound(q: Jobs, t: nat, s: nat)
    requires Distinct(q) && (forall j :: j in q ==> s <= j.stride + 125)
    ensures Lag(q, t, s) <= 126 * (if exists j :: j in q && j.tid == t then |q| - 1 else |q|)
  {
    if q != [] {
      var r, l := q[..|q| - 1], q[|q| - 1];
      assert q == r + [l];
      LagBound(r, t, s);
      if l.tid != t && exists j :: j in q && j.tid == t {
        var j :| j in q && j.tid == t;
        assert j in r;
      }
      if l.tid == t {
        assert forall j :: j in r ==> j.tid != t;
      }
    }
  }

  // Strides within 125 of each other, as ProportionalShare keeps them: no task of n waits longer
  // than 126 * (n - 1) + 1 fetches.
  lemma {:induction false} NoStarvation(q: Jobs, j: Job)
    requires j in q && Distinct(q) && Moving(q) && j.stride + 125 < MAX
    requires forall i :: i in q ==> j.stride <= i.stride + 125
    ensures Fetched(q, 126 * (|q| - 1) + 1, j.tid)
  {
    hide Pass, Pick, Round, Lag, Fetched;
    LagBound(q, j.tid, j.stride);
    FetchedWithinLag(q, j, 126 * (|q| - 1) + 1);
  }

  // No task behind j stands still.
  ghost predicate Unblocked(q: Jobs, j: Job) {
    forall z :: z in q && z.stride < j.stride ==> Pass(z.prio) > 0
  }

  // A round that does not fetch j = q[i] brings it forward: the others come closer, or j moves up the
  // queue; and it stays unblocked.
  lemma {:induction false} ComesForward(q: Jobs, i: nat)
    requires i < |q| && Distinct(q) && Prios(q) && q[i].stride + 125 < MAX && Unblocked(q, q[i])
    ensures Pick(q).Some? && Distinct(Round(q)) && Prios(Round(q)) && |Round(q)| == |q|
    ensures var p, j := Pick(q).value, q[i]; p != i ==>
              var i' := if p < i then i - 1 else i;
              Round(q)[i'] == j && Unblocked(Round(q), j)
              && Lag(Round(q), j.tid, j.stride) + i' < Lag(q, j.tid, j.stride) + i
  {
    hide Pass, Pick, Lag;
    var j, p := q[i], q[Pick(q).value];
    assert j in q && p in q && p.stride <= j.stride;
    PassBound(p.prio);
    NoWrap(p);
    RoundJobs(q);
    RoundLag(q, j.tid, j.stride);
    if Pick(q).value != i { assert p.tid != j.tid; }
  }

  // An unblocked ready task is fetched within its lag plus its place in the queue.
  lemma {:induction false} FetchedWhenUnblocked(q: Jobs, i: nat, k: nat)
    requires i < |q| && Distinct(q) && Prios(q) && q[i].stride + 125 < MAX && Unblocked(q, q[i])
    requires k > Lag(q, q[i].tid, q[i].stride) + i
    ensures Fetched(q, k, q[i].tid)
    decreases k
  {
    hide Pass, Pick, Round, Lag, Distinct, Prios, Unblocked;
    ComesForward(q, i);
    if Pick(q).value != i {
      FetchedWhenUnblocked(Round(q), if Pick(q).value < i then i - 1 else i, k - 1);
    }
  }

  // Starvation exactly: a ready task is fetched some time if and only if no task behind it has pass 0,
  // that is, a priority above 250.
  lemma {:induction false} FetchedExactly(q: Jobs, i: nat)
    requires i < |q| && Distinct(q) && Prios(q) && q[i].stride + 125 < MAX
    ensures (exists k :: Fetched(q, k, q[i].tid)) <==> Unblocked(q, q[i])
    ensures Unblocked(q, q[i]) ==> Fetched(q, Lag(q, q[i].tid, q[i].stride) + i + 1, q[i].tid)
    ensures !Unblocked(q, q[i]) ==> forall k :: !Fetched(q, k, q[i].tid)
  {
    hide Pass, Pick, Round, Lag, Fetched, Distinct, Prios;
    if Unblocked(q, q[i]) {
      FetchedWhenUnblocked(q, i, Lag(q, q[i].tid, q[i].stride) + i + 1);
    } else {
      var z :| z in q && z.stride < q[i].stride && Pass(z.prio) == 0;
      assert q[i] in q;
      forall k: nat ensures !Fetched(q, k, q[i].tid) { PassZeroStarves(q, z, q[i], k); }
    }
  }

  // Pass 0 means a priority above 250.
  lemma {:induction false} PassZero(prio: nat)
    requires prio >= 2
    ensures Pass(prio) > 0 <==> prio <= 250
  {
    PassBound(prio);
  }

  // A priority above 250 gives pass 0, and then the bound fails for good: a task with a greater
  // stride than such a task is never fetched again.
  lemma {:induction false} PassZeroStarves(q: Jobs, z: Job, j: Job, k: nat)
    requires Distinct(q) && z in q && j in q && Pass(z.prio) == 0 && z.stride < j.stride < WORD
    ensures !Fetched(q, k, j.tid)
    decreases k
  {
    hide Pass, Pick, Round;
    if k > 0 {
      var p := q[Pick(q).value];
      assert p in q && p.stride <= z.stride;
      NoWrap(z);
      RoundJobs(q);
      assert z in Round(q) && j in Round(q);
      PassZeroStarves(Round(q), z, j, k - 1);
    }
  }
}
