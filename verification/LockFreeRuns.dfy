/**
What the lock-free map guarantees in every run.

A run is a schedule: a sequence of ticks, each naming the thread that steps and what the scheduler
and the allocator decide.  Every theorem is about every number of buckets and every schedule.
*/
module LockFreeRuns {
  import opened Buckets
  import opened Options
  import opened LockFreeMap
  import opened LockFreeSteps

  lemma InitInv(n: nat)
    ensures Inv(Init(n))
  {
    assert forall t :: At(Init(n), t) == Idle;
  }

  /** The state after a schedule. */
  ghost function Run(n: nat, sched: seq<Tick>): (s: State)
    ensures Inv(s) && |s.mem.heads| == n && s.time == |sched|
    decreases |sched|
  {
    InitInv(n);
    if sched == [] then Init(n) else Next(Run(n, sched[..|sched| - 1]), sched[|sched| - 1]).0
  }

  ghost function Next(s: State, tick: Tick): (r: (State, Event))
    requires Inv(s)
    ensures Inv(r.0) && Grows(s.mem, r.0.mem) && r.0.time == s.time + 1
  {
    hide *;
    StepKeepsInv(s, tick);
    StepTicks(s, tick);
    Step(s, tick)
  }

  /** Every step takes one unit of time. */
  lemma StepTicks(s: State, tick: Tick)
    requires Addressable(s.mem, At(s, tick.t))
    ensures Step(s, tick).0.time == s.time + 1
  {
  }

  ghost function StateAt(n: nat, sched: seq<Tick>, i: nat): (s: State)
    requires i <= |sched|
    ensures Inv(s) && |s.mem.heads| == n && s.time == i
  {
    Run(n, sched[..i])
  }

  ghost function EventAt(n: nat, sched: seq<Tick>, i: nat): Event
    requires i < |sched|
  {
    Next(StateAt(n, sched, i), sched[i]).1
  }

  lemma Unfold(n: nat, sched: seq<Tick>, i: nat)
    requires i < |sched|
    ensures StateAt(n, sched, i + 1) == Next(StateAt(n, sched, i), sched[i]).0
  {
    assert sched[..i + 1][..i] == sched[..i];
  }

  lemma GrowsReflexive(s: State)
    requires Inv(s)
    ensures Grows(s.mem, s.mem)
  {
  }

  lemma GrowsTransitive(m1: Memory, s2: State, m3: Memory)
    requires Inv(s2) && Grows(m1, s2.mem) && Grows(s2.mem, m3)
    ensures Grows(m1, m3)
  {
    hide Index;
    forall b: nat, a | Published(m3, b, a) && a !in m1.stamp && b < |m1.clock| ensures m1.clock[b] <= m3.stamp[a] {
      if a in s2.mem.stamp { assert Published(s2.mem, b, a); }
    }
  }

  /** Marks, values and stamps persist along a run. */
  lemma {:induction false} GrowsAlong(n: nat, sched: seq<Tick>, i: nat, j: nat)
    requires i <= j <= |sched|
    ensures Grows(StateAt(n, sched, i).mem, StateAt(n, sched, j).mem)
    decreases j - i
  {
    hide *;
    if i < j {
      GrowsAlong(n, sched, i, j - 1);
      Unfold(n, sched, j - 1);
      GrowsTransitive(StateAt(n, sched, i).mem, StateAt(n, sched, j - 1), StateAt(n, sched, j).mem);
    } else {
      GrowsReflexive(StateAt(n, sched, i));
    }
  }

  // ---- No live node is lost ----

  /** The nodes met when the links are followed from the head of bucket `b`. */
  ghost predicate ListPath(m: Memory, b: nat, p: seq<Addr>) {
    && |p| > 0 && b < |m.heads| && m.heads[b] == Some(p[0])
    && (forall i :: 0 <= i < |p| ==> p[i] in m.heap)
    && (forall i :: 0 <= i < |p| - 1 ==> m.heap[p[i]].next == Some(p[i + 1]))
  }

  ghost predicate Reachable(m: Memory, b: nat, a: Addr) {
    exists p :: ListPath(m, b, p) && p[|p| - 1] == a
  }

  lemma {:induction false} WalkDown(m: Memory, b: nat, p: seq<Addr>, a: Addr)
    requires MemoryInv(m) && ListPath(m, b, p) && Published(m, b, p[|p| - 1])
    requires Published(m, b, a) && !m.heap[a].deleted && m.stamp[a] <= m.stamp[p[|p| - 1]]
    ensures Reachable(m, b, a)
    decreases m.stamp[p[|p| - 1]]
  {
    var x := p[|p| - 1];
    assert Snapshot(m, b, x, m.heap[x].next);
    if m.stamp[x] == m.stamp[a] {
      assert x == a;
    } else {
      assert Rank(m, m.heap[x].next) >= m.stamp[a];
      var q := p + [m.heap[x].next.value];
      assert ListPath(m, b, q);
      WalkDown(m, b, q, a);
    }
  }

  /** In every interleaving, every published node that is not marked deleted can be reached from the
      head of its bucket, whatever stale unlinks were carried out. */
  lemma LiveNodesReachable(n: nat, sched: seq<Tick>, a: Addr)
    requires var m := Run(n, sched).mem; a in m.stamp && a in m.heap && !m.heap[a].deleted
    ensures var m := Run(n, sched).mem; n > 0 && Reachable(m, BucketOf(m, a), a)
  {
    var m := Run(n, sched).mem;
    var b := BucketOf(m, a);
    assert Published(m, b, a) && HeadOk(m, b);
    var p := [m.heads[b].value];
    assert ListPath(m, b, p);
    WalkDown(m, b, p, a);
  }

  // ---- Conservation ----

  /** The published nodes holding `val` that no remove has claimed. */
  ghost function Live(m: Memory, val: int): set<Addr> {
    set a | a in m.stamp && a in m.heap && m.heap[a].val == val && !m.heap[a].deleted
  }

  ghost predicate LiveEffect(s: State, t: nat, e: Event, m': Memory, val: int) {
    match e
    case Publish(a) =>
      && a in s.mem.heap
      && a !in Live(s.mem, val)
      && Live(m', val) == Live(s.mem, val) + (if s.mem.heap[a].val == val then {a} else {})
    case Claim(a) =>
      && At(s, t).RemoveMark?
      && a in Live(s.mem, At(s, t).val)
      && Live(m', val) == Live(s.mem, val) - {a}
    case _ => Live(m', val) == Live(s.mem, val)
  }

  /** What one step does to the live nodes: the head swap of an insert adds exactly its node, the
      mark of a remove takes exactly one live node of the value it was called for, and no other step
      (an unlink in particular) changes them. */
  lemma LiveStep(s: State, tick: Tick, val: int)
    requires Inv(s)
    ensures LiveEffect(s, tick.t, Next(s, tick).1, Next(s, tick).0.mem, val)
  {
    StepKeepsInv(s, tick);
    assert LocalInv(s.mem, At(s, tick.t));
    if At(s, tick.t).InsertSwap? { assert Private(s.mem, At(s, tick.t).node); }
    if At(s, tick.t).RemoveMark? { assert Published(s.mem, Index(At(s, tick.t).val, |s.mem.heads|), At(s, tick.t).cur); }
    LiveOf(s, tick, val);
  }

  lemma LiveOf(s: State, tick: Tick, val: int)
    requires Addressable(s.mem, At(s, tick.t))
    requires At(s, tick.t).InsertLink? || At(s, tick.t).InsertSwap? ==> At(s, tick.t).node !in s.mem.stamp && !s.mem.heap[At(s, tick.t).node].deleted
    requires At(s, tick.t).RemoveMark? ==> At(s, tick.t).cur in s.mem.stamp
    requires forall a :: a in s.mem.stamp ==> a in s.mem.heap
    ensures LiveEffect(s, tick.t, Step(s, tick).1, Step(s, tick).0.mem, val)
  {
    hide Index;
  }

  ghost predicate Publishes(n: nat, sched: seq<Tick>, i: nat, val: int)
    requires i < |sched|
  {
    var e := EventAt(n, sched, i);
    e.Publish? && e.addr in StateAt(n, sched, i).mem.heap && StateAt(n, sched, i).mem.heap[e.addr].val == val
  }

  ghost predicate Claims(n: nat, sched: seq<Tick>, i: nat, val: int)
    requires i < |sched|
  {
    var e := EventAt(n, sched, i);
    e.Claim? && e.addr in StateAt(n, sched, i).mem.heap && StateAt(n, sched, i).mem.heap[e.addr].val == val
  }

  ghost function Publications(n: nat, sched: seq<Tick>, k: nat, val: int): nat
    requires k <= |sched|
  {
    if k == 0 then 0 else Publications(n, sched, k - 1, val) + (if Publishes(n, sched, k - 1, val) then 1 else 0)
  }

  ghost function Removals(n: nat, sched: seq<Tick>, k: nat, val: int): nat
    requires k <= |sched|
  {
    if k == 0 then 0 else Removals(n, sched, k - 1, val) + (if Claims(n, sched, k - 1, val) then 1 else 0)
  }

  lemma ClaimedValue(s: State, tick: Tick, val: int)
    requires Inv(s) && Next(s, tick).1.Claim?
    ensures var a := Next(s, tick).1.addr; a in s.mem.heap && (a in Live(s.mem, val) <==> s.mem.heap[a].val == val)
  {
    hide Inv, Step;
    LiveStep(s, tick, val);
  }

  lemma NothingLive(n: nat, sched: seq<Tick>, val: int)
    ensures Live(StateAt(n, sched, 0).mem, val) == {}
  {
    assert StateAt(n, sched, 0) == Init(n);
  }

  /** At every point of every run, the live nodes of a value number its publications less its claims. */
  lemma {:induction false} Conservation(n: nat, sched: seq<Tick>, k: nat, val: int)
    requires k <= |sched|
    ensures |Live(StateAt(n, sched, k).mem, val)| == Publications(n, sched, k, val) - Removals(n, sched, k, val)
  {
    hide Inv, Grows, Step, Live;
    if k == 0 {
      assert Live(StateAt(n, sched, 0).mem, val) == {} by { NothingLive(n, sched, val); }
    } else {
      Conservation(n, sched, k - 1, val);
      Unfold(n, sched, k - 1);
      LiveStep(StateAt(n, sched, k - 1), sched[k - 1], val);
      if EventAt(n, sched, k - 1).Claim? { ClaimedValue(StateAt(n, sched, k - 1), sched[k - 1], val); }
    }
  }

  /** No node is claimed by two removes. */
  lemma ClaimedOnce(n: nat, sched: seq<Tick>, i: nat, j: nat)
    requires i < j < |sched| && EventAt(n, sched, i).Claim? && EventAt(n, sched, j).Claim?
    ensures EventAt(n, sched, i).addr != EventAt(n, sched, j).addr
  {
    hide Inv, Step, Live;
    var a := EventAt(n, sched, i).addr;
    var si, sj := StateAt(n, sched, i), StateAt(n, sched, j);
    LiveStep(si, sched[i], 0);
    LiveStep(sj, sched[j], 0);
    Unfold(n, sched, i);
    MarkedDead(si, sched[i]);
    GrowsAlong(n, sched, i + 1, j);
    LiveIsUnmarked(sj, At(sj, sched[j].t).val, EventAt(n, sched, j).addr);
  }

  lemma MarkedDead(s: State, tick: Tick)
    requires Inv(s) && Next(s, tick).1.Claim?
    ensures var a := Next(s, tick).1.addr; a in Next(s, tick).0.mem.heap && Next(s, tick).0.mem.heap[a].deleted
  {
    StepKeepsInv(s, tick);
    hide Inv, Grows, Index, Continue;
    if tick.c.Go? { ClaimMarks(s, tick.t, tick.c.spurious); }
  }

  lemma ClaimMarks(s: State, t: nat, spurious: bool)
    requires Addressable(s.mem, At(s, t)) && Continue(s, t, spurious).1.Claim?
    ensures var r := Continue(s, t, spurious); r.1.addr in r.0.mem.heap && r.0.mem.heap[r.1.addr].deleted
  {
    hide Index;
  }

  lemma LiveIsUnmarked(s: State, val: int, a: Addr)
    requires a in Live(s.mem, val)
    ensures a in s.mem.heap && a in s.mem.stamp && s.mem.heap[a].val == val && !s.mem.heap[a].deleted
  {
  }

  // ---- The answers ----

  /** Thread `t` stays inside one call from just before step `j` to just before step `i`. */
  ghost predicate SameCall(n: nat, sched: seq<Tick>, t: nat, j: nat, i: nat)
    requires i <= |sched|
  {
    j <= i && forall k {:trigger StateAt(n, sched, k)} :: j <= k <= i ==> !At(StateAt(n, sched, k), t).Idle?
  }

  /** Step `j` is the head load with which thread `t`, looking for `val`, starts its traversal. */
  ghost predicate LoadsHead(n: nat, sched: seq<Tick>, t: nat, j: nat, val: int)
    requires j < |sched|
  {
    && n > 0
    && sched[j].t == t && sched[j].c.Go?
    && (At(StateAt(n, sched, j), t) == LookupLoad(val) || At(StateAt(n, sched, j), t) == RemoveLoad(val))
  }

  function Traversing(l: Local): bool {
    l.RemoveNext? || l.RemoveMark? || l.LookupTest? || l.LookupNext?
  }

  /** A thread's `since` names the step where its traversal began, or where it claimed its node. */
  ghost predicate Traced(n: nat, sched: seq<Tick>, t: nat, k: nat)
    requires k <= |sched|
  {
    var l := At(StateAt(n, sched, k), t);
    && (Traversing(l) ==>
      && l.since < k
      && LoadsHead(n, sched, t, l.since, l.val)
      && l.limit == Count(StateAt(n, sched, l.since).mem, l.val)
      && SameCall(n, sched, t, l.since, k))
    && (l.RemoveUnlink? ==>
      && l.since < k
      && sched[l.since].t == t
      && EventAt(n, sched, l.since) == Claim(l.cur)
      && Claims(n, sched, l.since, l.val)
      && SameCall(n, sched, t, l.since, k))
  }

  lemma OtherThread(s: State, tick: Tick, t: nat)
    requires Inv(s) && (tick.t != t || (tick.c.Call? && !At(s, t).Idle?))
    ensures At(Next(s, tick).0, t) == At(s, t)
  {
    hide Inv, Grows, Index, Addressable;
    StepKeepsInv(s, tick);
  }

  /** Where one step of a thread's own can lead it. */
  ghost predicate Leads(s: State, tick: Tick, l: Local, l': Local, e: Event) {
    && (Traversing(l') ==>
      || (Traversing(l) && l'.since == l.since && l'.limit == l.limit && l'.val == l.val)
      || (tick.c.Go? && (l == LookupLoad(l'.val) || l == RemoveLoad(l'.val))
          && l'.since == s.time && |s.mem.clock| == |s.mem.heads| > 0 && l'.limit == Count(s.mem, l'.val)))
    && (l'.RemoveUnlink? ==>
      && l.RemoveMark? && l.cur == l'.cur && l.val == l'.val && l'.since == s.time
      && e == Claim(l'.cur) && l.cur in s.mem.heap && s.mem.heap[l.cur].val == l.val)
  }

  lemma OwnStep(s: State, tick: Tick)
    requires Inv(s) && !(tick.c.Call? && !At(s, tick.t).Idle?)
    ensures Leads(s, tick, At(s, tick.t), At(Next(s, tick).0, tick.t), Next(s, tick).1)
  {
    StepKeepsInv(s, tick);
    hide Inv, Grows, Index;
    if tick.c.Go? { OwnMove(s, tick.t, tick.c.spurious); }
  }

  lemma OwnMove(s: State, t: nat, spurious: bool)
    requires Addressable(s.mem, At(s, t))
    ensures var r := Continue(s, t, spurious); Leads(s, Tick(t, Go(spurious)), At(s, t), At(r.0, t), r.1)
  {
    hide Index;
  }

  lemma {:induction false} TracedAlways(n: nat, sched: seq<Tick>, t: nat, k: nat)
    requires k <= |sched|
    ensures Traced(n, sched, t, k)
  {
    hide *;
    if k == 0 {
      TracedFirst(n, sched, t);
    } else {
      TracedAlways(n, sched, t, k - 1);
      TracedStep(n, sched, t, k - 1);
    }
  }

  lemma TracedFirst(n: nat, sched: seq<Tick>, t: nat)
    ensures Traced(n, sched, t, 0)
  {
    hide Inv, Next;
    assert StateAt(n, sched, 0) == Init(n);
  }

  lemma TracedStep(n: nat, sched: seq<Tick>, t: nat, k: nat)
    requires k < |sched| && Traced(n, sched, t, k)
    ensures Traced(n, sched, t, k + 1)
  {
    hide Inv, Step, Grows, Live, Index, Run;
    Unfold(n, sched, k);
    var s := StateAt(n, sched, k);
    if sched[k].t != t || (sched[k].c.Call? && !At(s, t).Idle?) {
      OtherThread(s, sched[k], t);
    } else {
      OwnStep(s, sched[k]);
    }
    var l, l' := At(s, t), At(StateAt(n, sched, k + 1), t);
    if Traversing(l') && Traversing(l) && l.since == l'.since { CallGoesOn(n, sched, t, l.since, k); }
    if Traversing(l') && !Traversing(l) { CallGoesOn(n, sched, t, k, k); }
    if l'.RemoveUnlink? && l.RemoveUnlink? { CallGoesOn(n, sched, t, l.since, k); }
    if l'.RemoveUnlink? && !l.RemoveUnlink? { CallGoesOn(n, sched, t, k, k); }
  }

  lemma CallGoesOn(n: nat, sched: seq<Tick>, t: nat, j: nat, k: nat)
    requires j <= k < |sched| && (j < k ==> SameCall(n, sched, t, j, k))
    requires !At(StateAt(n, sched, k), t).Idle? && !At(StateAt(n, sched, k + 1), t).Idle?
    ensures SameCall(n, sched, t, j, k + 1)
  {
    hide Inv, Step, Grows, Live, Index, Run;
  }

  /** A positive lookup: at the step that answers, the value is in the map. */
  lemma LookupFound(n: nat, sched: seq<Tick>, i: nat, val: int)
    requires i < |sched| && EventAt(n, sched, i) == Return(Lookup(val), 0)
    ensures Live(StateAt(n, sched, i).mem, val) != {}
    ensures Live(StateAt(n, sched, i + 1).mem, val) == Live(StateAt(n, sched, i).mem, val)
  {
    var s := StateAt(n, sched, i);
    Unfold(n, sched, i);
    LiveStep(s, sched[i], val);
    FoundNode(s, sched[i], val);
  }

  lemma FoundNode(s: State, tick: Tick, val: int)
    requires Inv(s) && Next(s, tick).1 == Return(Lookup(val), 0)
    ensures At(s, tick.t).LookupTest? && At(s, tick.t).cur in Live(s.mem, val)
  {
    StepKeepsInv(s, tick);
    assert LocalInv(s.mem, At(s, tick.t));
  }

  /** A positive remove: inside the same call the thread claimed one live node of that value. */
  lemma RemoveFound(n: nat, sched: seq<Tick>, i: nat, val: int)
    requires i < |sched| && EventAt(n, sched, i) == Return(Remove(val), 0)
    ensures exists j :: 0 <= j < i && sched[j].t == sched[i].t && Claims(n, sched, j, val) && SameCall(n, sched, sched[i].t, j, i)
  {
    TracedAlways(n, sched, sched[i].t, i);
    UnlinkReturns(StateAt(n, sched, i), sched[i], val);
  }

  lemma UnlinkReturns(s: State, tick: Tick, val: int)
    requires Inv(s) && Next(s, tick).1 == Return(Remove(val), 0)
    ensures At(s, tick.t).RemoveUnlink? && At(s, tick.t).val == val
  {
    StepKeepsInv(s, tick);
    hide Inv, Grows, Index;
  }

  /** The nodes of `val` that were published when step `j` was about to be taken. */
  ghost predicate NoneSurvives(n: nat, sched: seq<Tick>, j: nat, i: nat, val: int)
    requires j <= i <= |sched|
  {
    forall a :: a in Live(StateAt(n, sched, i).mem, val) ==> a !in StateAt(n, sched, j).mem.stamp
  }

  ghost predicate NoneBelow(m: Memory, val: int, limit: nat) {
    forall a :: a in Live(m, val) ==> a in m.stamp && limit <= m.stamp[a]
  }

  /** At the end of the list the search is complete. */
  ghost predicate SearchDone(m: Memory, l: Local, val: int) {
    && |m.clock| == |m.heads| > 0
    && (((l == LookupLoad(val) || l == RemoveLoad(val)) && NoneBelow(m, val, Count(m, val)))
        || (Traversing(l) && l.val == val && NoneBelow(m, val, l.limit)))
  }

  lemma Exhausted(s: State, tick: Tick, op: Op)
    requires Inv(s) && |s.mem.heads| > 0 && Next(s, tick).1 == Return(op, 1) && !op.Insert?
    ensures tick.c.Go? && SearchDone(s.mem, At(s, tick.t), op.val)
  {
    hide Step, Index, LocalInv, MemoryInv, SearchDone;
    StepKeepsInv(s, tick);
    EndOfList(s, tick, op);
    SearchEnds(s.mem, At(s, tick.t), op.val);
  }

  ghost predicate ListEnds(m: Memory, l: Local, val: int)
    requires Addressable(m, l)
  {
    || ((l == LookupLoad(val) || l == RemoveLoad(val)) && Head(m, val).None?)
    || (l.LookupNext? && l.val == val && m.heap[l.cur].next.None?)
    || (l.RemoveMark? && l.val == val && l.next.None? && (m.heap[l.cur].val == l.val ==> m.heap[l.cur].deleted))
  }

  lemma SearchEnds(m: Memory, l: Local, val: int)
    requires MemoryInv(m) && LocalInv(m, l) && |m.heads| > 0 && Addressable(m, l) && ListEnds(m, l, val)
    ensures SearchDone(m, l, val)
  {
    hide Index, StampsOk, Gap, Searched, NoneBelow;
    var b := Index(val, |m.heads|);
    if l.LookupNext? {
      assert Snapshot(m, b, l.cur, m.heap[l.cur].next);
      LastNode(m, b, val, l.cur, l.limit);
    } else if l.RemoveMark? {
      LastNode(m, b, val, l.cur, l.limit);
    } else {
      EmptyBucket(m, b, val);
    }
  }

  lemma EmptyBucket(m: Memory, b: nat, val: int)
    requires MemoryInv(m) && |m.heads| > 0 && b == Index(val, |m.heads|) && m.heads[b].None?
    ensures NoneBelow(m, val, m.clock[b])
  {
    assert HeadOk(m, b);
    assert forall a :: a in Live(m, val) ==> Published(m, b, a);
  }

  lemma EndOfList(s: State, tick: Tick, op: Op)
    requires Addressable(s.mem, At(s, tick.t))
    requires |s.mem.heads| > 0 && Step(s, tick).1 == Return(op, 1) && !op.Insert?
    ensures tick.c.Go? && ListEnds(s.mem, At(s, tick.t), op.val)
  {
    hide Index;
  }

  lemma LastNode(m: Memory, b: nat, val: int, cur: Addr, limit: nat)
    requires MemoryInv(m) && |m.heads| > 0 && b == Index(val, |m.heads|)
    requires Position(m, b, val, cur, limit) && Snapshot(m, b, cur, None)
    requires m.heap[cur].val == val ==> m.heap[cur].deleted
    ensures NoneBelow(m, val, limit)
  {
    forall a | a in Live(m, val) ensures limit <= m.stamp[a] {
      assert Published(m, b, a);
    }
  }

  /** A node stamped when `limit` nodes were counted has a stamp below `limit` for ever. */
  lemma OldNode(s: State, s': State, val: int, a: Addr)
    requires Inv(s) && Inv(s') && Grows(s.mem, s'.mem) && a in Live(s'.mem, val) && a in s.mem.stamp
    ensures |s.mem.clock| == |s.mem.heads| > 0 && s'.mem.stamp[a] < Count(s.mem, val)
  {
  }

  /** Where the traversal of a call that found nothing began, and what it has searched. */
  lemma SearchBegan(n: nat, sched: seq<Tick>, t: nat, i: nat, val: int) returns (j: nat)
    requires n > 0 && i < |sched| && sched[i].t == t && sched[i].c.Go? && Traced(n, sched, t, i)
    requires SearchDone(StateAt(n, sched, i).mem, At(StateAt(n, sched, i), t), val)
    ensures j <= i && LoadsHead(n, sched, t, j, val) && SameCall(n, sched, t, j, i)
    ensures var m := StateAt(n, sched, j).mem; |m.clock| == |m.heads| > 0 && NoneBelow(StateAt(n, sched, i).mem, val, Count(m, val))
  {
    hide Inv, Step, Grows, Live, Index, Run, NoneBelow, Count;
    var l := At(StateAt(n, sched, i), t);
    j := if Traversing(l) then l.since else i;
    if j == i { assert SameCall(n, sched, t, i, i); }
    ClockSize(StateAt(n, sched, j));
  }

  lemma ClockSize(s: State)
    requires Inv(s)
    ensures |s.mem.clock| == |s.mem.heads|
  {
  }

  lemma NoneLeft(s: State, s': State, val: int)
    requires Inv(s) && Inv(s') && Grows(s.mem, s'.mem) && |s.mem.clock| == |s.mem.heads| > 0
    requires NoneBelow(s'.mem, val, Count(s.mem, val))
    ensures forall a :: a in Live(s'.mem, val) ==> a !in s.mem.stamp
  {
    hide Inv, Grows, Live;
    forall a | a in Live(s'.mem, val) ensures a !in s.mem.stamp {
      if a in s.mem.stamp { OldNode(s, s', val, a); }
    }
  }

  /** A negative lookup or remove: every node of the value that was published when the traversal
      loaded the head is deleted when the call returns. */
  lemma NothingFound(n: nat, sched: seq<Tick>, i: nat, op: Op)
    requires n > 0 && i < |sched| && EventAt(n, sched, i) == Return(op, 1) && !op.Insert?
    ensures exists j :: 0 <= j <= i && LoadsHead(n, sched, sched[i].t, j, op.val) && SameCall(n, sched, sched[i].t, j, i)
                        && NoneSurvives(n, sched, j, i + 1, op.val)
  {
    hide *;
    var t, s := sched[i].t, StateAt(n, sched, i);
    TracedAlways(n, sched, t, i);
    EventIs(n, sched, i);
    Exhausted(s, sched[i], op);
    var j := SearchBegan(n, sched, t, i, op.val);
    GrowsAlong(n, sched, j, i);
    NoneLeft(StateAt(n, sched, j), s, op.val);
    Unfold(n, sched, i);
    LiveStep(s, sched[i], op.val);
    LiveReturn(s, t, op, StateAt(n, sched, i + 1).mem, op.val);
    NoneSurvivesIntro(n, sched, j, i + 1, op.val);
  }

  lemma EventIs(n: nat, sched: seq<Tick>, i: nat)
    requires i < |sched|
    ensures EventAt(n, sched, i) == Next(StateAt(n, sched, i), sched[i]).1
  {
    hide Next, Run;
  }

  lemma LiveReturn(s: State, t: nat, op: Op, m': Memory, val: int)
    requires LiveEffect(s, t, Return(op, 1), m', val)
    ensures Live(m', val) == Live(s.mem, val)
  {
    hide Live;
  }

  lemma NoneSurvivesIntro(n: nat, sched: seq<Tick>, j: nat, i: nat, val: int)
    requires j <= i <= |sched| && forall a :: a in Live(StateAt(n, sched, i).mem, val) ==> a !in StateAt(n, sched, j).mem.stamp
    ensures NoneSurvives(n, sched, j, i, val)
  {
    hide Live, Run;
  }

  /** A node that became live after step `j` was published by a step since. */
  lemma {:induction false} NewlyPublished(n: nat, sched: seq<Tick>, j: nat, i: nat, val: int, a: Addr)
    requires j <= i <= |sched| && a in Live(StateAt(n, sched, i).mem, val) && a !in StateAt(n, sched, j).mem.stamp
    ensures exists k :: j <= k < i && Publishes(n, sched, k, val) && EventAt(n, sched, k) == Publish(a)
    decreases i
  {
    hide Inv, Step, Grows, Index, Run;
    if i == j { assert false; }
    Unfold(n, sched, i - 1);
    var s := StateAt(n, sched, i - 1);
    LiveStep(s, sched[i - 1], val);
    if a in Live(s.mem, val) {
      NewlyPublished(n, sched, j, i - 1, val, a);
    } else {
      assert Publishes(n, sched, i - 1, val) && EventAt(n, sched, i - 1) == Publish(a);
    }
  }

  /** Every node of `val` published from step `j` on is already deleted at step `i`. */
  ghost predicate NewOnesGone(n: nat, sched: seq<Tick>, j: nat, i: nat, val: int)
    requires j <= i <= |sched|
  {
    forall k :: j <= k < i && Publishes(n, sched, k, val) ==> EventAt(n, sched, k).addr !in Live(StateAt(n, sched, i).mem, val)
  }

  /** When a negative answer is right: the value is absent at return if and only if no insert of it
      that published during the traversal is still unclaimed. */
  lemma AbsentExactly(n: nat, sched: seq<Tick>, i: nat, op: Op)
    requires n > 0 && i < |sched| && EventAt(n, sched, i) == Return(op, 1) && !op.Insert?
    ensures exists j :: 0 <= j <= i && LoadsHead(n, sched, sched[i].t, j, op.val) && SameCall(n, sched, sched[i].t, j, i)
                        && (Live(StateAt(n, sched, i + 1).mem, op.val) == {} <==> NewOnesGone(n, sched, j, i + 1, op.val))
  {
    hide Inv, Step, Grows, Index, Run, Live;
    NothingFound(n, sched, i, op);
    var j :| 0 <= j <= i && LoadsHead(n, sched, sched[i].t, j, op.val) && SameCall(n, sched, sched[i].t, j, i)
             && NoneSurvives(n, sched, j, i + 1, op.val);
    var live := Live(StateAt(n, sched, i + 1).mem, op.val);
    if live != {} && NewOnesGone(n, sched, j, i + 1, op.val) {
      var a :| a in live;
      NewlyPublished(n, sched, j, i + 1, op.val, a);
    }
  }

  ghost predicate Absent(n: nat, sched: seq<Tick>, k: nat, val: int)
    requires k <= |sched|
  {
    Live(StateAt(n, sched, k).mem, val) == {}
  }

  /** At some instant from step `j` to step `i` the value is absent. */
  ghost predicate AbsentWithin(n: nat, sched: seq<Tick>, j: nat, i: nat, val: int)
    requires i <= |sched|
  {
    exists k :: j <= k <= i && Absent(n, sched, k, val)
  }

  /** Some insert of the value that publishes in this time finds it absent. */
  ghost predicate PublishedAnew(n: nat, sched: seq<Tick>, j: nat, i: nat, val: int)
    requires i <= |sched|
  {
    exists k :: j <= k < i && Publishes(n, sched, k, val) && Absent(n, sched, k, val)
  }

  /** A value that was absent and is present has been published while it was absent. */
  lemma {:induction false} AbsentEnds(n: nat, sched: seq<Tick>, j: nat, i: nat, val: int)
    requires j <= i <= |sched| && Absent(n, sched, j, val) && !Absent(n, sched, i, val)
    ensures PublishedAnew(n, sched, j, i, val)
    decreases i
  {
    hide Inv, Step, Grows, Index, Run, Live;
    if i > j {
      if Absent(n, sched, i - 1, val) {
        Unfold(n, sched, i - 1);
        LiveStep(StateAt(n, sched, i - 1), sched[i - 1], val);
        assert Publishes(n, sched, i - 1, val);
      } else {
        AbsentEnds(n, sched, j, i - 1, val);
      }
    }
  }

  /** When a negative answer can be given an instant within its call: either no insert of the value that
      published during the traversal is unclaimed at return, or one of them found the value absent.  So it
      always can if no insert of the value publishes during the traversal. */
  lemma NegativeExactly(n: nat, sched: seq<Tick>, i: nat, op: Op)
    requires n > 0 && i < |sched| && EventAt(n, sched, i) == Return(op, 1) && !op.Insert?
    ensures exists j :: 0 <= j <= i && LoadsHead(n, sched, sched[i].t, j, op.val) && SameCall(n, sched, sched[i].t, j, i)
                        && (AbsentWithin(n, sched, j, i + 1, op.val)
                            <==> NewOnesGone(n, sched, j, i + 1, op.val) || PublishedAnew(n, sched, j, i + 1, op.val))
  {
    hide Inv, Step, Grows, Index, Run, Live, LoadsHead, SameCall, NewOnesGone;
    AbsentExactly(n, sched, i, op);
    var j :| 0 <= j <= i && LoadsHead(n, sched, sched[i].t, j, op.val) && SameCall(n, sched, sched[i].t, j, i)
             && (Absent(n, sched, i + 1, op.val) <==> NewOnesGone(n, sched, j, i + 1, op.val));
    if AbsentWithin(n, sched, j, i + 1, op.val) && !Absent(n, sched, i + 1, op.val) {
      var k :| j <= k <= i + 1 && Absent(n, sched, k, op.val);
      AbsentEnds(n, sched, k, i + 1, op.val);
    }
  }

  // ---- Every traversal ends ----

  function OwnSteps(sched: seq<Tick>, t: nat, j: nat, k: nat): nat
    requires k <= |sched|
  {
    if k <= j then 0
    else OwnSteps(sched, t, j, k - 1) + (if sched[k - 1].t == t && sched[k - 1].c.Go? then 1 else 0)
  }

  /** An upper bound on the steps a traversal still takes: two for each stamp at or below its own. */
  ghost function Potential(m: Memory, l: Local): int {
    if Traversing(l) && l.cur in m.stamp then
      2 * m.stamp[l.cur] + (if l.LookupTest? || l.RemoveNext? then 2 else 1)
    else 0
  }

  /** Each step of a traversal lowers its stamp or its phase, whatever other threads have done. */
  lemma OwnProgress(s: State, t: nat, spurious: bool)
    requires Inv(s) && Traversing(At(s, t)) && Addressable(s.mem, At(s, t))
    ensures var l, r := At(s, t), Continue(s, t, spurious).0; var l' := At(r, t);
      && 1 <= Potential(s.mem, l)
      && (l'.Idle? || l'.RemoveUnlink? || (Traversing(l') && Potential(r.mem, l') < Potential(s.mem, l)))
  {
    hide Index;
    assert LocalInv(s.mem, At(s, t));
  }

  lemma FirstPotential(s: State, t: nat, spurious: bool)
    requires Inv(s) && Addressable(s.mem, At(s, t)) && (At(s, t).LookupLoad? || At(s, t).RemoveLoad?)
    ensures var r := Continue(s, t, spurious).0; var l := At(r, t);
      l.Idle? || (Traversing(l) && Potential(r.mem, l) <= 2 * Count(s.mem, At(s, t).val))
  {
    hide Index;
    if Head(s.mem, At(s, t).val).Some? { Enter(s.mem, At(s, t).val); }
  }

  lemma PotentialKept(s: State, tick: Tick, l: Local)
    requires Inv(s) && LocalInv(s.mem, l) && Traversing(l)
    ensures Potential(Next(s, tick).0.mem, l) == Potential(s.mem, l)
  {
    hide Step, Index;
  }

  ghost predicate WithinBound(n: nat, sched: seq<Tick>, t: nat, j: nat, k: nat, limit: nat)
    requires j <= k <= |sched|
  {
    var s := StateAt(n, sched, k);
    var l := At(s, t);
    && (Traversing(l) || l.RemoveUnlink?)
    && OwnSteps(sched, t, j, k) + Potential(s.mem, l) <= 2 * limit + 1
  }

  lemma BoundStep(n: nat, sched: seq<Tick>, t: nat, j: nat, k: nat, limit: nat)
    requires j < k < |sched| && WithinBound(n, sched, t, j, k, limit)
    requires !At(StateAt(n, sched, k + 1), t).Idle?
    ensures WithinBound(n, sched, t, j, k + 1, limit)
  {
    hide Inv, Grows, Index, Run, Live, LocalInv, Potential, Continue, Addressable;
    Unfold(n, sched, k);
    var s := StateAt(n, sched, k);
    var l := At(s, t);
    if sched[k].t != t || sched[k].c.Call? {
      OtherThread(s, sched[k], t);
      if Traversing(l) {
        InvLocal(s, t);
        PotentialKept(s, sched[k], l);
      } else {
        NoPotential(s.mem, l);
        NoPotential(Next(s, sched[k]).0.mem, l);
      }
    } else {
      StepKeepsInv(s, sched[k]);
      if Traversing(l) {
        OwnProgress(s, t, sched[k].c.spurious);
        var l' := At(StateAt(n, sched, k + 1), t);
        if l'.RemoveUnlink? { NoPotential(StateAt(n, sched, k + 1).mem, l'); }
      } else {
        UnlinkEnds(s, t, sched[k].c.spurious);
      }
    }
  }

  lemma InvLocal(s: State, t: nat)
    requires Inv(s)
    ensures LocalInv(s.mem, At(s, t))
  {
  }

  lemma NoPotential(m: Memory, l: Local)
    requires !Traversing(l)
    ensures Potential(m, l) == 0
  {
  }

  lemma UnlinkEnds(s: State, t: nat, spurious: bool)
    requires Addressable(s.mem, At(s, t)) && At(s, t).RemoveUnlink?
    ensures At(Continue(s, t, spurious).0, t).Idle?
  {
    hide Index;
  }

  /** Under any interference, a lookup or remove ends within two steps of its own for each node that
      its bucket had published when it loaded the head, and two more. */
  lemma {:induction false} TraversalEnds(n: nat, sched: seq<Tick>, t: nat, j: nat, k: nat, val: int)
    requires j < k <= |sched| && LoadsHead(n, sched, t, j, val) && SameCall(n, sched, t, j, k)
    ensures |StateAt(n, sched, j).mem.clock| == n && WithinBound(n, sched, t, j, k, Count(StateAt(n, sched, j).mem, val))
    ensures OwnSteps(sched, t, j, k) <= 2 * Count(StateAt(n, sched, j).mem, val) + 1
    decreases k
  {
    hide Step, Grows, Index, Run, Live, LocalInv, Potential, Continue;
    var s := StateAt(n, sched, j);
    if k == j + 1 {
      Unfold(n, sched, j);
      StepKeepsInv(s, sched[j]);
      FirstPotential(s, t, sched[j].c.spurious);
      assert Next(s, sched[j]).0 == Continue(s, t, sched[j].c.spurious).0 by { NextContinues(s, sched[j]); }
      assert !At(StateAt(n, sched, k), t).Idle?;
      assert OwnSteps(sched, t, j, k) == 1;
    } else {
      assert SameCall(n, sched, t, j, k - 1);
      TraversalEnds(n, sched, t, j, k - 1, val);
      assert !At(StateAt(n, sched, k), t).Idle?;
      BoundStep(n, sched, t, j, k - 1, Count(s.mem, val));
    }
    PotentialNat(StateAt(n, sched, k).mem, At(StateAt(n, sched, k), t));
  }

  lemma NextContinues(s: State, tick: Tick)
    requires Inv(s) && tick.c.Go? && Addressable(s.mem, At(s, tick.t))
    ensures Next(s, tick) == Continue(s, tick.t, tick.c.spurious)
  {
    hide Continue, Inv;
  }

  lemma PotentialNat(m: Memory, l: Local)
    ensures 0 <= Potential(m, l)
  {
  }
}
