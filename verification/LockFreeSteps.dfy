/** Every step of the lock-free map keeps the invariant. */
module LockFreeSteps {
  import opened Buckets
  import opened Options
  import opened LockFreeMap

  /** How a step may change the shared memory: values, deletion marks and stamps stay, and a node
      published later has a later stamp. */
  ghost predicate Grows(m: Memory, m': Memory) {
    && |m.clock| == |m.heads| == |m'.heads| == |m'.clock|
    && (forall a :: a in m.heap ==> a in m'.heap && m'.heap[a].val == m.heap[a].val)
    && (forall a :: a in m.heap && m.heap[a].deleted ==> m'.heap[a].deleted)
    && (forall a :: a in m.stamp ==> a in m'.stamp && m'.stamp[a] == m.stamp[a])
    && (forall b: nat, a :: Published(m', b, a) && a !in m.stamp && b < |m.clock| ==> m.clock[b] <= m'.stamp[a])
    && (forall b :: 0 <= b < |m.clock| ==> m.clock[b] <= m'.clock[b])
  }

  lemma GapKept(m: Memory, m': Memory, b: nat, lo: int, hi: int)
    requires StampsOk(m) && Grows(m, m') && Gap(m, b, lo, hi)
    requires b < |m.clock| && hi <= m.clock[b]
    ensures Gap(m', b, lo, hi)
  {
    forall a | Published(m', b, a) && lo < m'.stamp[a] < hi ensures m'.heap[a].deleted {
      assert a in m.stamp;
      assert Published(m, b, a);
    }
  }

  lemma PositionKept(m: Memory, m': Memory, b: nat, val: int, cur: Addr, limit: nat)
    requires StampsOk(m) && Grows(m, m') && Position(m, b, val, cur, limit)
    ensures Position(m', b, val, cur, limit)
  {
    forall a | Published(m', b, a) && m'.heap[a].val == val && m.stamp[cur] < m'.stamp[a] < limit ensures m'.heap[a].deleted {
      assert a in m.stamp;
      assert Published(m, b, a);
    }
  }

  lemma SnapshotKept(m: Memory, m': Memory, b: nat, cur: Addr, next: Link)
    requires StampsOk(m) && Grows(m, m') && Snapshot(m, b, cur, next)
    ensures Snapshot(m', b, cur, next)
  {
    GapKept(m, m', b, Rank(m, next), m.stamp[cur]);
  }

  lemma LocalKept(m: Memory, m': Memory, l: Local)
    requires StampsOk(m) && Grows(m, m') && LocalInv(m, l)
    requires Owned(l).Some? ==> Owned(l).value !in m'.stamp && m'.heap[Owned(l).value] == m.heap[Owned(l).value]
    ensures LocalInv(m', l)
  {
    hide Index;
    match l
    case InsertLoad(a) =>
    case InsertLink(a, seen) =>
    case InsertSwap(a, seen) =>
    case RemoveNext(val, _, cur, limit, _) => PositionKept(m, m', Index(val, |m.heads|), val, cur, limit);
    case RemoveMark(val, _, cur, next, limit, _) =>
      PositionKept(m, m', Index(val, |m.heads|), val, cur, limit);
      SnapshotKept(m, m', Index(val, |m.heads|), cur, next);
    case RemoveUnlink(val, _, cur, next, _) => SnapshotKept(m, m', Index(val, |m.heads|), cur, next);
    case LookupTest(val, cur, limit, _) => PositionKept(m, m', Index(val, |m.heads|), val, cur, limit);
    case LookupNext(val, cur, limit, _) => PositionKept(m, m', Index(val, |m.heads|), val, cur, limit);
    case _ =>
  }

  /** Thread `t` moves to `l`, and no node owned by another thread changes. */
  lemma ThreadsKept(s: State, s': State, t: nat, l: Local)
    requires Inv(s) && Grows(s.mem, s'.mem) && LocalInv(s'.mem, l)
    requires s'.threads == s.threads[t := l]
    requires forall a :: Private(s.mem, a) && Owned(At(s, t)) != Some(a) ==> a !in s'.mem.stamp && s'.mem.heap[a] == s.mem.heap[a]
    requires Owned(l).Some? ==> Owned(l) == Owned(At(s, t)) || Owned(l).value !in s.mem.heap
    ensures ThreadsOk(s')
  {
    hide Index;
    forall t' ensures LocalInv(s'.mem, At(s', t')) {
      if t' != t {
        assert At(s', t') == At(s, t');
        var l' := At(s, t');
        assert LocalInv(s.mem, l');
        if Owned(l').Some? {
          assert Private(s.mem, Owned(l').value);
          assert Owned(l') != Owned(At(s, t));
        }
        LocalKept(s.mem, s'.mem, l');
      }
    }
    forall t1, t2 | t1 != t2 && Owned(At(s', t1)).Some? ensures Owned(At(s', t1)) != Owned(At(s', t2)) {
      assert LocalInv(s.mem, At(s, t1)) && LocalInv(s.mem, At(s, t2));
    }
  }

  /** Heads and links that the step does not touch stay right. */
  lemma HeadKept(m: Memory, m': Memory, b: nat)
    requires StampsOk(m) && Grows(m, m') && b < |m.heads| && HeadOk(m, b)
    requires m'.heads[b] == m.heads[b] && m'.clock[b] == m.clock[b]
    ensures HeadOk(m', b)
  {
    GapKept(m, m', b, Rank(m, m.heads[b]), m.clock[b]);
  }

  lemma LinkKept(m: Memory, m': Memory, b: nat, a: Addr)
    requires StampsOk(m) && LinksOk(m) && Grows(m, m') && Published(m, b, a)
    requires m'.heap[a].next == m.heap[a].next
    ensures Snapshot(m', b, a, m'.heap[a].next)
  {
    SnapshotKept(m, m', b, a, m.heap[a].next);
  }

  lemma JoinGaps(m: Memory, b: nat, lo: int, mid: Addr, hi: int)
    requires StampsOk(m) && Published(m, b, mid) && m.heap[mid].deleted
    requires Gap(m, b, lo, m.stamp[mid]) && Gap(m, b, m.stamp[mid], hi)
    ensures Gap(m, b, lo, hi)
  {
    forall a | Published(m, b, a) && lo < m.stamp[a] < hi ensures m.heap[a].deleted {
      if m.stamp[a] == m.stamp[mid] { assert a == mid; }
    }
  }

  // ---- The four kinds of write ----

  /** Allocating or linking a node that only its owner knows. */
  lemma PrivateWrite(m: Memory, a: Addr, n: Node)
    requires MemoryInv(m) && a !in m.stamp && !n.deleted
    requires a in m.heap ==> n.val == m.heap[a].val
    ensures MemoryInv(SetNode(m, a, n)) && Grows(m, SetNode(m, a, n))
  {
    hide Index, Gap, Grows;
    var m' := SetNode(m, a, n);
    PrivateGrows(m, a, n);
    forall b | 0 <= b < |m.heads| ensures HeadOk(m', b) { assert HeadOk(m, b); HeadKept(m, m', b); }
    forall b, x | Published(m', b, x) ensures Snapshot(m', b, x, m'.heap[x].next) {
      assert Published(m, b, x);
      LinkKept(m, m', b, x);
    }
  }

  lemma PrivateGrows(m: Memory, a: Addr, n: Node)
    requires StampsOk(m) && a !in m.stamp && !n.deleted
    requires a in m.heap ==> n.val == m.heap[a].val
    ensures StampsOk(SetNode(m, a, n)) && Grows(m, SetNode(m, a, n))
    ensures forall b: nat, x :: Published(SetNode(m, a, n), b, x) <==> Published(m, b, x)
  {
    hide Index;
    var m' := SetNode(m, a, n);
    assert |m.heads| > 0 ==> forall x :: x in m.stamp ==> x in m'.heap && BucketOf(m', x) == BucketOf(m, x);
  }

  /** The successful head swap of an insert. */
  lemma PublishWrite(m: Memory, a: Addr)
    requires MemoryInv(m) && Private(m, a) && m.heap[a].next == Head(m, m.heap[a].val)
    ensures MemoryInv(PublishNode(m, a)) && Grows(m, PublishNode(m, a))
  {
    hide Index;
    PublishGrows(m, a);
    var m', b0 := PublishNode(m, a), BucketOf(m, a);
    assert HeadOk(m, b0);
    forall b | 0 <= b < |m.heads| ensures HeadOk(m', b) {
      assert HeadOk(m, b);
      if b != b0 { HeadKept(m, m', b); }
    }
    forall b, x | Published(m', b, x) ensures Snapshot(m', b, x, m'.heap[x].next) {
      if x == a {
        GapKept(m, m', b0, Rank(m, m.heads[b0]), m.clock[b0]);
      } else {
        assert Published(m, b, x);
        LinkKept(m, m', b, x);
      }
    }
  }

  lemma PublishGrows(m: Memory, a: Addr)
    requires StampsOk(m) && Private(m, a)
    ensures StampsOk(PublishNode(m, a)) && Grows(m, PublishNode(m, a))
  {
    hide Index;
    var m', b0 := PublishNode(m, a), BucketOf(m, a);
    forall x, y | x in m'.stamp && y in m'.stamp && BucketOf(m', x) == BucketOf(m', y) && m'.stamp[x] == m'.stamp[y]
      ensures x == y
    {
      assert x == a || BucketOf(m', x) == BucketOf(m, x);
      assert y == a || BucketOf(m', y) == BucketOf(m, y);
    }
  }

  lemma RewriteStamps(m: Memory, a: Addr, n: Node)
    requires StampsOk(m) && a in m.stamp && n.val == m.heap[a].val
    requires m.heap[a].deleted ==> n.deleted
    ensures StampsOk(SetNode(m, a, n))
    ensures forall b: nat, x :: Published(SetNode(m, a, n), b, x) <==> Published(m, b, x)
  {
    hide Index;
    var m' := SetNode(m, a, n);
    assert |m.heads| > 0 ==> forall x :: x in m.heap ==> x in m'.heap && BucketOf(m', x) == BucketOf(m, x);
  }

  /** A published node keeps its value and its stamp, and is not revived. */
  lemma RewriteGrows(m: Memory, a: Addr, n: Node)
    requires StampsOk(m) && a in m.stamp && n.val == m.heap[a].val
    requires m.heap[a].deleted ==> n.deleted
    ensures StampsOk(SetNode(m, a, n)) && Grows(m, SetNode(m, a, n))
    ensures forall b: nat, x :: Published(SetNode(m, a, n), b, x) <==> Published(m, b, x)
  {
    RewriteStamps(m, a, n);
    var m' := SetNode(m, a, n);
    assert a in m.heap && |m.clock| == |m.heads|;
    assert forall b: nat, x :: Published(m', b, x) ==> x in m.stamp by { hide Index; }
    hide StampsOk, Published, Index;
  }

  /** The successful deletion mark of a remove. */
  lemma MarkWrite(m: Memory, b0: nat, a: Addr)
    requires MemoryInv(m) && Published(m, b0, a)
    ensures MemoryInv(SetNode(m, a, m.heap[a].(deleted := true))) && Grows(m, SetNode(m, a, m.heap[a].(deleted := true)))
  {
    hide Index, Gap, Grows;
    var m' := SetNode(m, a, m.heap[a].(deleted := true));
    RewriteGrows(m, a, m'.heap[a]);
    forall b | 0 <= b < |m.heads| ensures HeadOk(m', b) { assert HeadOk(m, b); HeadKept(m, m', b); }
    forall b, x | Published(m', b, x) ensures Snapshot(m', b, x, m'.heap[x].next) {
      assert Published(m, b, x);
      LinkKept(m, m', b, x);
    }
  }

  /** The successful unlink of a remove.  The successor may be stale and the link written may lie in
      a node that is itself unlinked: the gap it leaves still holds deleted nodes only. */
  lemma UnlinkWrite(m: Memory, val: int, at: Place, cur: Addr, next: Link)
    requires MemoryInv(m) && |m.heads| > 0 && cur in m.heap
    requires PlaceOk(m, Index(val, |m.heads|), at) && Snapshot(m, Index(val, |m.heads|), cur, next) && m.heap[cur].deleted
    requires ReadPlace(m, val, at) == Some(cur)
    ensures MemoryInv(WritePlace(m, val, at, next)) && Grows(m, WritePlace(m, val, at, next))
  {
    var b0 := Index(val, |m.heads|);
    if at == Sentinel { UnlinkHead(m, b0, cur, next); } else { UnlinkNode(m, b0, at.addr, cur, next); }
  }

  lemma HeadsFree(m: Memory, m': Memory)
    requires StampsOk(m) && m' == m.(heads := m'.heads) && |m'.heads| == |m.heads|
    ensures StampsOk(m') && Grows(m, m')
    ensures forall b: nat, x :: Published(m', b, x) <==> Published(m, b, x)
  {
    assert |m.heads| > 0 ==> forall x :: x in m.heap ==> BucketOf(m', x) == BucketOf(m, x);
  }

  lemma UnlinkHead(m: Memory, b0: nat, cur: Addr, next: Link)
    requires MemoryInv(m) && b0 < |m.heads|
    requires Snapshot(m, b0, cur, next) && m.heap[cur].deleted && m.heads[b0] == Some(cur)
    ensures var m' := m.(heads := m.heads[b0 := next]); MemoryInv(m') && Grows(m, m')
  {
    hide Index, Gap, Grows;
    var m' := m.(heads := m.heads[b0 := next]);
    assert StampsOk(m') && Grows(m, m') by { HeadsFree(m, m'); }
    forall b | 0 <= b < |m.heads| ensures HeadOk(m', b) {
      assert HeadOk(m, b);
      if b == b0 {
        JoinGaps(m, b, Rank(m, next), cur, m.clock[b]);
        GapKept(m, m', b, Rank(m, next), m.clock[b]);
      } else {
        HeadKept(m, m', b);
      }
    }
    forall b, x | Published(m', b, x) ensures Snapshot(m', b, x, m'.heap[x].next) {
      assert Published(m, b, x);
      LinkKept(m, m', b, x);
    }
  }

  lemma UnlinkNode(m: Memory, b0: nat, p: Addr, cur: Addr, next: Link)
    requires MemoryInv(m) && Published(m, b0, p) && m.heap[p].next == Some(cur)
    requires Snapshot(m, b0, cur, next) && m.heap[cur].deleted
    ensures var m' := SetNode(m, p, m.heap[p].(next := next)); MemoryInv(m') && Grows(m, m')
  {
    hide Index, Gap, Grows;
    var m' := SetNode(m, p, m.heap[p].(next := next));
    RewriteGrows(m, p, m'.heap[p]);
    forall b | 0 <= b < |m.heads| ensures HeadOk(m', b) { assert HeadOk(m, b); HeadKept(m, m', b); }
    JoinGaps(m, b0, Rank(m, next), cur, m.stamp[p]);
    GapKept(m, m', b0, Rank(m, next), m.stamp[p]);
    forall b, x | Published(m', b, x) ensures Snapshot(m', b, x, m'.heap[x].next) {
      assert Published(m, b, x);
      if x != p { LinkKept(m, m', b, x); }
    }
  }

  // ---- Moving along the list ----

  lemma Enter(m: Memory, val: int)
    requires MemoryInv(m) && |m.heads| > 0 && Head(m, val).Some?
    ensures Position(m, Index(val, |m.heads|), val, Head(m, val).value, Count(m, val))
  {
    assert HeadOk(m, Index(val, |m.heads|));
  }

  lemma Arrive(m: Memory, b: nat, val: int, cur: Addr, limit: nat, next: Addr)
    requires StampsOk(m) && Position(m, b, val, cur, limit) && Snapshot(m, b, cur, Some(next))
    requires m.heap[cur].val == val ==> m.heap[cur].deleted
    ensures Position(m, b, val, next, limit)
  {
    forall a | Published(m, b, a) && m.heap[a].val == val && m.stamp[next] < m.stamp[a] < limit ensures m.heap[a].deleted {
      if m.stamp[a] == m.stamp[cur] { assert a == cur; }
    }
  }

  // ---- All steps ----

  lemma ReadStep(s: State, t: nat, l: Local)
    requires Inv(s) && LocalInv(s.mem, l)
    requires Owned(l).Some? ==> Owned(l) == Owned(At(s, t))
    ensures Inv(Goto(s, t, l))
  {
    ThreadsKept(s, Goto(s, t, l), t, l);
  }

  lemma WriteStep(s: State, m': Memory, t: nat, l: Local)
    requires Inv(s) && MemoryInv(m') && Grows(s.mem, m') && LocalInv(m', l)
    requires forall a :: Private(s.mem, a) && Owned(At(s, t)) != Some(a) ==> a !in m'.stamp && m'.heap[a] == s.mem.heap[a]
    requires Owned(l).Some? ==> Owned(l) == Owned(At(s, t)) || Owned(l).value !in s.mem.heap
    ensures Inv(Goto(s.(mem := m'), t, l))
  {
    ThreadsKept(s, Goto(s.(mem := m'), t, l), t, l);
  }

  lemma TimeStep(s: State)
    requires Inv(s)
    ensures Inv(s.(time := s.time + 1)) && Grows(s.mem, s.mem)
  {
    var s' := s.(time := s.time + 1);
    assert forall t :: At(s', t) == At(s, t);
  }

  /** Any step of any thread keeps the invariant, and dereferences allocated nodes only. */
  lemma StepKeepsInv(s: State, tick: Tick)
    requires Inv(s)
    ensures Addressable(s.mem, At(s, tick.t))
    ensures Inv(Step(s, tick).0)
    ensures Grows(s.mem, Step(s, tick).0.mem)
  {
    hide Index;
    var t, l := tick.t, At(s, tick.t);
    assert LocalInv(s.mem, l);
    if tick.c.Call? {
      if l.Idle? { BeginKeepsInv(s, t, tick.c.op, tick.c.memory); } else { TimeStep(s); }
    } else if l.InsertLoad? || l.InsertLink? || l.InsertSwap? {
      InsertKeepsInv(s, t, tick.c.spurious);
    } else if l.RemoveLoad? || l.RemoveNext? || l.RemoveMark? || l.RemoveUnlink? {
      RemoveKeepsInv(s, t, tick.c.spurious);
    } else {
      LookupKeepsInv(s, t, tick.c.spurious);
    }
  }

  lemma BeginKeepsInv(s: State, t: nat, op: Op, memory: Link)
    requires Inv(s) && At(s, t).Idle?
    ensures Inv(Begin(s, t, op, memory).0) && Grows(s.mem, Begin(s, t, op, memory).0.mem)
  {
    hide Index;
    if |s.mem.heads| == 0 {
      ReadStep(s, t, Idle);
    } else if op.Remove? {
      ReadStep(s, t, RemoveLoad(op.val));
    } else if op.Lookup? {
      ReadStep(s, t, LookupLoad(op.val));
    } else if memory.None? || memory.value in s.mem.heap {
      ReadStep(s, t, Idle);
    } else {
      var n := Node(op.val, None, false);
      PrivateWrite(s.mem, memory.value, n);
      WriteStep(s, SetNode(s.mem, memory.value, n), t, InsertLoad(memory.value));
    }
  }

  lemma InsertKeepsInv(s: State, t: nat, spurious: bool)
    requires Inv(s) && var l := At(s, t); l.InsertLoad? || l.InsertLink? || l.InsertSwap?
    ensures Addressable(s.mem, At(s, t))
    ensures Inv(Continue(s, t, spurious).0) && Grows(s.mem, Continue(s, t, spurious).0.mem)
  {
    var l, m := At(s, t), s.mem;
    var a := l.node;
    assert LocalInv(m, l);
    assert HeadOk(m, BucketOf(m, a));
    if l.InsertLink? {
      var n := m.heap[a].(next := l.seen);
      PrivateWrite(m, a, n);
      WriteStep(s, SetNode(m, a, n), t, InsertSwap(a, l.seen));
    } else if l.InsertSwap? && !spurious && Head(m, m.heap[a].val) == l.seen {
      PublishWrite(m, a);
      WriteStep(s, PublishNode(m, a), t, Idle);
    } else {
      ReadStep(s, t, InsertLink(a, Head(m, m.heap[a].val)));
    }
  }

  lemma RemoveKeepsInv(s: State, t: nat, spurious: bool)
    requires Inv(s) && var l := At(s, t); l.RemoveLoad? || l.RemoveNext? || l.RemoveMark? || l.RemoveUnlink?
    ensures Addressable(s.mem, At(s, t))
    ensures Inv(Continue(s, t, spurious).0) && Grows(s.mem, Continue(s, t, spurious).0.mem)
  {
    hide Index;
    var l, m := At(s, t), s.mem;
    assert LocalInv(m, l);
    var b := Index(l.val, |m.heads|);
    match l
    case RemoveLoad(val) =>
      if Head(m, val).None? { ReadStep(s, t, Idle); } else {
        Enter(m, val);
        ReadStep(s, t, RemoveNext(val, Sentinel, Head(m, val).value, Count(m, val), s.time));
      }
    case RemoveNext(val, at, cur, limit, since) =>
      ReadStep(s, t, RemoveMark(val, at, cur, m.heap[cur].next, limit, since));
    case RemoveMark(val, at, cur, next, limit, since) =>
      if m.heap[cur].val == val && !m.heap[cur].deleted {
        MarkStep(s, t);
      } else if next.None? {
        ReadStep(s, t, Idle);
      } else {
        Arrive(m, b, val, cur, limit, next.value);
        ReadStep(s, t, RemoveNext(val, NextOf(cur), next.value, limit, since));
      }
    case RemoveUnlink(val, at, cur, next, since) =>
      if !spurious && ReadPlace(m, val, at) == Some(cur) {
        UnlinkStep(s, t);
      } else {
        ReadStep(s, t, Idle);
      }
  }

  lemma MarkStep(s: State, t: nat)
    requires Inv(s) && At(s, t).RemoveMark? && Addressable(s.mem, At(s, t))
    requires var l := At(s, t); s.mem.heap[l.cur].val == l.val && !s.mem.heap[l.cur].deleted
    ensures Inv(Continue(s, t, false).0) && Grows(s.mem, Continue(s, t, false).0.mem)
  {
    hide Index;
    var l, m := At(s, t), s.mem;
    assert LocalInv(m, l);
    var b := Index(l.val, |m.heads|);
    var m' := SetNode(m, l.cur, m.heap[l.cur].(deleted := true));
    MarkWrite(m, b, l.cur);
    SnapshotKept(m, m', b, l.cur, l.next);
    WriteStep(s, m', t, RemoveUnlink(l.val, l.at, l.cur, l.next, s.time));
  }

  lemma UnlinkStep(s: State, t: nat)
    requires Inv(s) && At(s, t).RemoveUnlink? && Addressable(s.mem, At(s, t))
    requires var l := At(s, t); ReadPlace(s.mem, l.val, l.at) == Some(l.cur)
    ensures Inv(Continue(s, t, false).0) && Grows(s.mem, Continue(s, t, false).0.mem)
  {
    hide Index;
    var l, m := At(s, t), s.mem;
    assert LocalInv(m, l);
    UnlinkWrite(m, l.val, l.at, l.cur, l.next);
    WriteStep(s, WritePlace(m, l.val, l.at, l.next), t, Idle);
  }

  lemma LookupKeepsInv(s: State, t: nat, spurious: bool)
    requires Inv(s) && var l := At(s, t); l.Idle? || l.LookupLoad? || l.LookupTest? || l.LookupNext?
    ensures Addressable(s.mem, At(s, t))
    ensures Inv(Continue(s, t, spurious).0) && Grows(s.mem, Continue(s, t, spurious).0.mem)
  {
    hide Index;
    var l, m := At(s, t), s.mem;
    assert LocalInv(m, l);
    match l
    case Idle => TimeStep(s);
    case LookupLoad(val) =>
      if Head(m, val).None? { ReadStep(s, t, Idle); } else {
        Enter(m, val);
        ReadStep(s, t, LookupTest(val, Head(m, val).value, Count(m, val), s.time));
      }
    case LookupTest(val, cur, limit, since) =>
      if m.heap[cur].val == val && !m.heap[cur].deleted { ReadStep(s, t, Idle); }
      else { ReadStep(s, t, LookupNext(val, cur, limit, since)); }
    case LookupNext(val, cur, limit, since) =>
      if m.heap[cur].next.None? { ReadStep(s, t, Idle); } else {
        Arrive(m, Index(val, |m.heads|), val, cur, limit, m.heap[cur].next.value);
        ReadStep(s, t, LookupTest(val, m.heap[cur].next.value, limit, since));
      }
  }
}
