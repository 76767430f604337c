/**
The calls of the lock-free map over whole runs: what each call has done when it returns, what it answers,
and when the swap of an insert succeeds.
*/
module LockFreeCalls {
  import opened Buckets
  import opened Options
  import opened LockFreeMap
  import opened LockFreeSteps
  import opened LockFreeRuns

  // ---- One step of a call ----

  function Offered(memory: Link): Addr {
    if memory.Some? then memory.value else 0
  }

  /** The thread carries out this call; an insert does so with the node at `a`. */
  predicate Serves(m: Memory, l: Local, op: Op, a: Addr) {
    match op
    case Insert(v) => (l.InsertLoad? || l.InsertLink? || l.InsertSwap?) && l.node == a && a in m.heap && m.heap[a].val == v
    case Remove(v) => (l.RemoveLoad? || l.RemoveNext? || l.RemoveMark? || l.RemoveUnlink?) && l.val == v
    case Lookup(v) => (l.LookupLoad? || l.LookupTest? || l.LookupNext?) && l.val == v
  }

  /** With what event a call ends at `l`. */
  predicate EndsWith(l: Local, op: Op, a: Addr, e: Event) {
    match op
    case Insert(_) => e == Publish(a)
    case Remove(_) => e == Return(op, if l.RemoveUnlink? then 0 else 1)
    case Lookup(_) => e == Return(op, 0) || e == Return(op, 1)
  }

  /** A step of a call ends it, or leads it on; a remove claims a node exactly when it goes on to unlink. */
  lemma OwnCall(s: State, t: nat, spurious: bool, op: Op, a: Addr)
    requires Addressable(s.mem, At(s, t)) && Serves(s.mem, At(s, t), op, a)
    ensures var r := Continue(s, t, spurious); var l, l' := At(s, t), At(r.0, t);
      if l'.Idle? then EndsWith(l, op, a, r.1)
      else Serves(r.0.mem, l', op, a) && !l.RemoveUnlink? && !r.1.Return? && !r.1.Publish? && (r.1.Claim? <==> l'.RemoveUnlink?)
  {
    hide Index;
  }

  /** The first step of a call. */
  lemma FirstTick(s: State, t: nat, op: Op, memory: Link)
    ensures var r := Begin(s, t, op, memory);
      if |s.mem.heads| == 0 || (op.Insert? && NoMemory(s.mem, memory)) then At(r.0, t).Idle? && r.1 == Return(op, 1) && r.0.mem == s.mem
      else r.1 == Quiet && Serves(r.0.mem, At(r.0, t), op, Offered(memory)) && !At(r.0, t).RemoveUnlink?
  {
  }

  /** `malloc` returns null, or an address in use, which it never does. */
  predicate NoMemory(m: Memory, memory: Link) {
    memory.None? || memory.value in m.heap
  }

  lemma StillServes(m: Memory, m': Memory, l: Local, op: Op, a: Addr)
    requires Serves(m, l, op, a) && Grows(m, m')
    ensures Serves(m', l, op, a)
  {
  }

  // ---- Calls in a run ----

  /** Thread `t`, idle before, makes the call with step `j`. */
  ghost predicate Begins(n: nat, sched: seq<Tick>, t: nat, op: Op, memory: Link, j: nat)
    requires j < |sched|
  {
    sched[j] == Tick(t, Call(op, memory)) && At(StateAt(n, sched, j), t).Idle?
  }

  /** The call that begins with step `j` ends with step `i`. */
  ghost predicate WholeCall(n: nat, sched: seq<Tick>, t: nat, op: Op, memory: Link, j: nat, i: nat)
    requires j <= i < |sched|
  {
    && Begins(n, sched, t, op, memory, j)
    && (forall k {:trigger StateAt(n, sched, k)} :: j < k <= i ==> !At(StateAt(n, sched, k), t).Idle?)
    && At(StateAt(n, sched, i + 1), t).Idle?
  }

  /** Thread `t` claims a node with step `k`. */
  ghost predicate ClaimsNode(n: nat, sched: seq<Tick>, t: nat, k: nat)
    requires k < |sched|
  {
    sched[k].t == t && EventAt(n, sched, k).Claim?
  }

  /** Where a call stands before step `k`: a remove has claimed a node, with step `c`, exactly if it is about
      to unlink it. */
  ghost predicate Stands(n: nat, sched: seq<Tick>, t: nat, op: Op, a: Addr, j: nat, k: nat, c: nat)
    requires j <= k <= |sched|
  {
    var s := StateAt(n, sched, k);
    && Serves(s.mem, At(s, t), op, a)
    && (forall q :: j <= q < k && ClaimsNode(n, sched, t, q) ==> At(s, t).RemoveUnlink? && q == c)
    && (At(s, t).RemoveUnlink? ==> j <= c < k && ClaimsNode(n, sched, t, c))
  }

  /** The step of a thread that is inside a call. */
  lemma CallStep(s: State, t: nat, spurious: bool, op: Op, a: Addr)
    requires Inv(s) && Serves(s.mem, At(s, t), op, a)
    ensures var r := Next(s, Tick(t, Go(spurious))); var l, l' := At(s, t), At(r.0, t);
      if l'.Idle? then EndsWith(l, op, a, r.1)
      else Serves(r.0.mem, l', op, a) && !l.RemoveUnlink? && !r.1.Return? && !r.1.Publish? && (r.1.Claim? <==> l'.RemoveUnlink?)
  {
    StepKeepsInv(s, Tick(t, Go(spurious)));
    hide Inv, Grows, Serves, EndsWith, Continue;
    OwnCall(s, t, spurious, op, a);
  }

  /** Any other tick leaves the call where it is, and is none of its thread's claims. */
  lemma OtherStep(s: State, tick: Tick, t: nat, op: Op, a: Addr)
    requires Inv(s) && Serves(s.mem, At(s, t), op, a) && !(tick.t == t && tick.c.Go?)
    ensures var r := Next(s, tick); At(r.0, t) == At(s, t) && Serves(r.0.mem, At(s, t), op, a) && (tick.t == t ==> !r.1.Claim?)
  {
    OtherThread(s, tick, t) by { assert !At(s, t).Idle?; }
    StillServes(s.mem, Next(s, tick).0.mem, At(s, t), op, a);
    StepKeepsInv(s, tick);
    hide Inv, Grows, Serves, Continue;
    if tick.t == t { assert tick.c.Call?; Ignored(s, tick); }
  }

  lemma Ignored(s: State, tick: Tick)
    requires Addressable(s.mem, At(s, tick.t)) && tick.c.Call?
    ensures !Step(s, tick).1.Claim?
  {
  }

  lemma CallOpens(s: State, t: nat, op: Op, memory: Link)
    requires Inv(s) && At(s, t).Idle?
    ensures var r := Next(s, Tick(t, Call(op, memory)));
      if |s.mem.heads| == 0 || (op.Insert? && NoMemory(s.mem, memory)) then At(r.0, t).Idle? && r.1 == Return(op, 1) && r.0.mem == s.mem
      else r.1 == Quiet && Serves(r.0.mem, At(r.0, t), op, Offered(memory)) && !At(r.0, t).RemoveUnlink?
  {
    StepKeepsInv(s, Tick(t, Call(op, memory)));
    hide Inv, Grows, Serves;
    FirstTick(s, t, op, memory);
  }

  lemma WholeParts(n: nat, sched: seq<Tick>, t: nat, op: Op, memory: Link, j: nat, i: nat)
    requires j <= i < |sched| && WholeCall(n, sched, t, op, memory, j, i)
    ensures sched[j] == Tick(t, Call(op, memory)) && At(StateAt(n, sched, j), t).Idle? && At(StateAt(n, sched, i + 1), t).Idle?
    ensures forall k {:trigger StateAt(n, sched, k)} :: j < k <= i ==> !At(StateAt(n, sched, k), t).Idle?
  {
    hide Run;
  }

  /** What is known before each later step of a call. */
  lemma {:induction false} CallStands(n: nat, sched: seq<Tick>, t: nat, op: Op, memory: Link, j: nat, i: nat, k: nat) returns (c: nat)
    requires j < k <= i < |sched| && WholeCall(n, sched, t, op, memory, j, i)
    ensures Stands(n, sched, t, op, Offered(memory), j, k, c)
    decreases k
  {
    hide *;
    WholeParts(n, sched, t, op, memory, j, i);
    Unfold(n, sched, k - 1);
    EventIs(n, sched, k - 1);
    var s, tick := StateAt(n, sched, k - 1), sched[k - 1];
    assert !At(StateAt(n, sched, k), t).Idle?;
    if k == j + 1 {
      c := 0;
      CallOpens(s, t, op, memory);
      StandsFirst(n, sched, t, op, Offered(memory), j);
    } else {
      c := CallStands(n, sched, t, op, memory, j, i, k - 1);
      var d := c;
      StandsServes(n, sched, t, op, Offered(memory), j, k - 1, c);
      if tick.t == t && tick.c.Go? {
        IsGo(tick);
        CallStep(s, t, tick.c.spurious, op, Offered(memory));
        if At(StateAt(n, sched, k), t).RemoveUnlink? { c := k - 1; }
        StandsOwn(n, sched, t, op, Offered(memory), j, k, c, d);
      } else {
        OtherStep(s, tick, t, op, Offered(memory));
        StandsOther(n, sched, t, op, Offered(memory), j, k, c);
      }
    }
  }

  lemma IsGo(tick: Tick)
    requires tick.c.Go?
    ensures tick == Tick(tick.t, Go(tick.c.spurious))
  {
  }

  lemma StandsFirst(n: nat, sched: seq<Tick>, t: nat, op: Op, a: Addr, j: nat)
    requires j < |sched| && EventAt(n, sched, j) == Quiet
    requires var s := StateAt(n, sched, j + 1); Serves(s.mem, At(s, t), op, a) && !At(s, t).RemoveUnlink?
    ensures Stands(n, sched, t, op, a, j, j + 1, 0)
  {
    hide Run, Next, Serves;
  }

  lemma StandsServes(n: nat, sched: seq<Tick>, t: nat, op: Op, a: Addr, j: nat, k: nat, c: nat)
    requires j <= k <= |sched| && Stands(n, sched, t, op, a, j, k, c)
    ensures Serves(StateAt(n, sched, k).mem, At(StateAt(n, sched, k), t), op, a)
    ensures At(StateAt(n, sched, k), t).RemoveUnlink? ==> j <= c < k && ClaimsNode(n, sched, t, c)
  {
    hide Run, Next, Serves, ClaimsNode;
  }

  lemma StandsOwn(n: nat, sched: seq<Tick>, t: nat, op: Op, a: Addr, j: nat, k: nat, c: nat, d: nat)
    requires j < k <= |sched| && Stands(n, sched, t, op, a, j, k - 1, d) && sched[k - 1].t == t
    requires var s, s', e := StateAt(n, sched, k - 1), StateAt(n, sched, k), EventAt(n, sched, k - 1);
      Serves(s'.mem, At(s', t), op, a) && !At(s, t).RemoveUnlink? && (e.Claim? <==> At(s', t).RemoveUnlink?)
    requires At(StateAt(n, sched, k), t).RemoveUnlink? ==> c == k - 1
    ensures Stands(n, sched, t, op, a, j, k, c)
  {
    hide Run, Next, Serves, EventAt;
    assert ClaimsNode(n, sched, t, k - 1) <==> EventAt(n, sched, k - 1).Claim?;
    forall q | j <= q < k && ClaimsNode(n, sched, t, q) ensures q == k - 1 { }
  }

  lemma StandsOther(n: nat, sched: seq<Tick>, t: nat, op: Op, a: Addr, j: nat, k: nat, c: nat)
    requires j < k <= |sched| && Stands(n, sched, t, op, a, j, k - 1, c)
    requires var s, s', e := StateAt(n, sched, k - 1), StateAt(n, sched, k), EventAt(n, sched, k - 1);
      At(s', t) == At(s, t) && Serves(s'.mem, At(s', t), op, a) && (sched[k - 1].t == t ==> !e.Claim?)
    ensures Stands(n, sched, t, op, a, j, k, c)
  {
    hide Run, Next, Serves, EventAt;
    assert !ClaimsNode(n, sched, t, k - 1);
  }

  // ---- What a call has done when it returns ----

  /** Thread `t` claims a node with step `c`, and with no other step from `j` on, up to `i`. */
  ghost predicate ClaimsOnce(n: nat, sched: seq<Tick>, t: nat, j: nat, i: nat, c: nat)
    requires i < |sched|
  {
    j < c < i && forall q :: j <= q <= i ==> (ClaimsNode(n, sched, t, q) <==> q == c)
  }

  ghost predicate ClaimsNone(n: nat, sched: seq<Tick>, t: nat, j: nat, i: nat)
    requires i < |sched|
  {
    forall q :: j <= q <= i ==> !ClaimsNode(n, sched, t, q)
  }

  /** What a call does: an insert ends by publishing its node, and so answers 0; a remove answers 0 exactly if
      it claimed a node, once, and 1 otherwise; a lookup answers 0 or 1 and claims nothing. */
  ghost predicate Outcome(n: nat, sched: seq<Tick>, t: nat, op: Op, a: Addr, j: nat, i: nat)
    requires j < i < |sched|
  {
    match op
    case Insert(v) => EventAt(n, sched, i) == Publish(a) && Publishes(n, sched, i, v) && ClaimsNone(n, sched, t, j, i)
    case Remove(v) =>
      || (EventAt(n, sched, i) == Return(op, 0) && exists c :: ClaimsOnce(n, sched, t, j, i, c) && Claims(n, sched, c, v))
      || (EventAt(n, sched, i) == Return(op, 1) && ClaimsNone(n, sched, t, j, i))
    case Lookup(v) => (EventAt(n, sched, i) == Return(op, 0) || EventAt(n, sched, i) == Return(op, 1)) && ClaimsNone(n, sched, t, j, i)
  }

  /** Every call that returns, in every run: without buckets, and an insert without memory, fails at once and
      changes nothing; every other call does what it is for. */
  lemma CallEnds(n: nat, sched: seq<Tick>, t: nat, op: Op, memory: Link, j: nat, i: nat)
    requires j <= i < |sched| && WholeCall(n, sched, t, op, memory, j, i)
    ensures if n == 0 || (op.Insert? && NoMemory(StateAt(n, sched, j).mem, memory))
            then i == j && EventAt(n, sched, i) == Return(op, 1) && StateAt(n, sched, i + 1).mem == StateAt(n, sched, i).mem
            else i > j && sched[i].t == t && Outcome(n, sched, t, op, Offered(memory), j, i)
  {
    hide *;
    WholeParts(n, sched, t, op, memory, j, i);
    Unfold(n, sched, j);
    EventIs(n, sched, j);
    CallOpens(StateAt(n, sched, j), t, op, memory);
    if i == j {
      ServesAny(StateAt(n, sched, i + 1), t, op, Offered(memory));
    } else {
      var c := CallStands(n, sched, t, op, memory, j, i, i);
      StandsServes(n, sched, t, op, Offered(memory), j, i, c);
      Unfold(n, sched, i);
      EventIs(n, sched, i);
      var s, tick := StateAt(n, sched, i), sched[i];
      if tick.t == t && tick.c.Go? {
        IsGo(tick);
        CallStep(s, t, tick.c.spurious, op, Offered(memory));
        if At(s, t).RemoveUnlink? && c > j {
          var d := CallStands(n, sched, t, op, memory, j, i, c);
          StandsServes(n, sched, t, op, Offered(memory), j, c, d);
          ClaimedHere(n, sched, t, op, Offered(memory), c);
        }
        QuietFirst(n, sched, t, j);
        Concluded(n, sched, t, op, Offered(memory), j, i, c);
      } else {
        OtherStep(s, tick, t, op, Offered(memory));
      }
    }
  }

  lemma ServesAny(s: State, t: nat, op: Op, a: Addr)
    ensures Serves(s.mem, At(s, t), op, a) ==> !At(s, t).Idle?
  {
  }

  /** The first tick of a call claims nothing. */
  lemma QuietFirst(n: nat, sched: seq<Tick>, t: nat, j: nat)
    requires j < |sched|
    ensures !EventAt(n, sched, j).Claim? ==> !ClaimsNode(n, sched, t, j)
  {
    hide EventAt;
  }

  /** What a remove claims has its value. */
  lemma ClaimedHere(n: nat, sched: seq<Tick>, t: nat, op: Op, a: Addr, c: nat)
    requires c < |sched| && ClaimsNode(n, sched, t, c) && Serves(StateAt(n, sched, c).mem, At(StateAt(n, sched, c), t), op, a)
    ensures op.Remove? && Claims(n, sched, c, op.val)
  {
    hide Inv, Grows, Step, Run, Next, Live;
    var s := StateAt(n, sched, c);
    LiveStep(s, sched[c], 0);
    LiveIsUnmarked(s, At(s, t).val, EventAt(n, sched, c).addr);
  }

  lemma Concluded(n: nat, sched: seq<Tick>, t: nat, op: Op, a: Addr, j: nat, i: nat, c: nat)
    requires j < i < |sched| && Stands(n, sched, t, op, a, j, i, c) && !ClaimsNode(n, sched, t, j)
    requires EndsWith(At(StateAt(n, sched, i), t), op, a, EventAt(n, sched, i))
    requires At(StateAt(n, sched, i), t).RemoveUnlink? && c > j ==> Claims(n, sched, c, op.val)
    ensures Outcome(n, sched, t, op, a, j, i)
  {
    hide Run, Next, EventAt, Claims;
    assert !ClaimsNode(n, sched, t, i);
    if At(StateAt(n, sched, i), t).RemoveUnlink? { assert ClaimsOnce(n, sched, t, j, i, c); }
  }

  /** An insert answers 1 only at the first step of its call, and only without buckets or without memory; and
      every answer is 0 or 1. */
  lemma AnswerOne(n: nat, sched: seq<Tick>, i: nat, op: Op, r: int)
    requires i < |sched| && EventAt(n, sched, i) == Return(op, r)
    ensures r == 0 || r == 1
    ensures op.Insert? ==>
      && r == 1 && At(StateAt(n, sched, i), sched[i].t).Idle? && sched[i].c.Call? && sched[i].c.op == op
      && (n == 0 || NoMemory(StateAt(n, sched, i).mem, sched[i].c.memory))
      && StateAt(n, sched, i + 1).mem == StateAt(n, sched, i).mem
  {
    var s := StateAt(n, sched, i);
    Unfold(n, sched, i);
    StepKeepsInv(s, sched[i]);
    hide Inv, Grows, Run;
    Answered(s, sched[i], op, r);
  }

  lemma Answered(s: State, tick: Tick, op: Op, r: int)
    requires Addressable(s.mem, At(s, tick.t)) && Step(s, tick).1 == Return(op, r)
    ensures r == 0 || r == 1
    ensures op.Insert? ==>
      && r == 1 && At(s, tick.t).Idle? && tick.c.Call? && tick.c.op == op
      && (|s.mem.heads| == 0 || NoMemory(s.mem, tick.c.memory)) && Step(s, tick).0.mem == s.mem
  {
    hide Index;
  }

  // ---- When the swap of an insert succeeds ----

  /** The head of the bucket is the same before all steps from `j` to `k`. */
  ghost predicate SameHead(n: nat, sched: seq<Tick>, val: int, j: nat, k: nat)
    requires k <= |sched| && n > 0
  {
    forall q {:trigger StateAt(n, sched, q)} :: j <= q <= k ==> Head(StateAt(n, sched, q).mem, val) == Head(StateAt(n, sched, j).mem, val)
  }

  /** An insert reads the head of its bucket with step `j`, either to begin with or with a swap that failed,
      and its next swap is step `k`: it publishes the node, unless it fails spuriously or some step in between
      has changed the head.  So inserts are lock-free: a swap that fails means that another step changed the
      list. */
  lemma SwapSucceeds(n: nat, sched: seq<Tick>, t: nat, a: Addr, x: Link, j: nat, k: nat)
    requires n > 0 && j + 1 < k < |sched| && sched[j].t == t && sched[j].c.Go? && sched[k] == Tick(t, Go(false))
    requires At(StateAt(n, sched, j), t).InsertLoad? || At(StateAt(n, sched, j), t).InsertSwap?
    requires At(StateAt(n, sched, j + 1), t) == InsertLink(a, x) && At(StateAt(n, sched, k), t) == InsertSwap(a, x)
    requires a in StateAt(n, sched, j).mem.heap && SameHead(n, sched, StateAt(n, sched, j).mem.heap[a].val, j + 1, k)
    ensures EventAt(n, sched, k) == Publish(a) && At(StateAt(n, sched, k + 1), t).Idle?
  {
    hide *;
    var s, u, val := StateAt(n, sched, j), StateAt(n, sched, k), StateAt(n, sched, j).mem.heap[a].val;
    Unfold(n, sched, j);
    Unfold(n, sched, k);
    EventIs(n, sched, k);
    IsGo(sched[j]);
    GrowsAlong(n, sched, j, k);
    SameValue(s.mem, u.mem, a);
    ReadsHead(s, t, sched[j].c.spurious, a, x);
    HeadSame(n, sched, val, j + 1, k);
    Swaps(u, t, a, x);
  }

  lemma SameValue(m: Memory, m': Memory, a: Addr)
    requires Grows(m, m') && a in m.heap
    ensures a in m'.heap && m'.heap[a].val == m.heap[a].val
  {
  }

  lemma HeadSame(n: nat, sched: seq<Tick>, val: int, j: nat, k: nat)
    requires n > 0 && j <= k <= |sched| && SameHead(n, sched, val, j, k)
    ensures Head(StateAt(n, sched, k).mem, val) == Head(StateAt(n, sched, j).mem, val)
  {
    hide Run, Head;
  }

  /** An insert is about to link its node to the head it has just read. */
  lemma ReadsHead(s: State, t: nat, spurious: bool, a: Addr, x: Link)
    requires Inv(s) && |s.mem.heads| > 0 && a in s.mem.heap && (At(s, t).InsertLoad? || At(s, t).InsertSwap?)
    requires At(Next(s, Tick(t, Go(spurious))).0, t) == InsertLink(a, x)
    ensures var r := Next(s, Tick(t, Go(spurious))).0; |r.mem.heads| > 0 && x == Head(r.mem, s.mem.heap[a].val)
  {
    StepKeepsInv(s, Tick(t, Go(spurious)));
    hide Inv, Grows, Index;
  }

  lemma Swaps(s: State, t: nat, a: Addr, x: Link)
    requires Inv(s) && |s.mem.heads| > 0 && a in s.mem.heap && At(s, t) == InsertSwap(a, x) && Head(s.mem, s.mem.heap[a].val) == x
    ensures var r := Next(s, Tick(t, Go(false))); r.1 == Publish(a) && At(r.0, t).Idle?
  {
    StepKeepsInv(s, Tick(t, Go(false)));
    hide Inv, Grows, Index;
  }

  /** An unlink through a link that still leads to the node takes it out of the list. */
  lemma UnlinkTakesOut(s: State, t: nat)
    requires Inv(s) && At(s, t).RemoveUnlink? && Addressable(s.mem, At(s, t))
    requires ReadPlace(s.mem, At(s, t).val, At(s, t).at) == Some(At(s, t).cur)
    ensures var l, r := At(s, t), Next(s, Tick(t, Go(false))).0;
      Addressable(r.mem, l) && ReadPlace(r.mem, l.val, l.at) == l.next && At(r, t).Idle?
  {
    StepKeepsInv(s, Tick(t, Go(false)));
    hide Inv, Grows, Index;
  }
}
