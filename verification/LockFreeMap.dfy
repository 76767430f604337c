/**
The lock-free hashmap as a sequentially consistent step machine.

One step is one atomic load, store or compare-and-swap of one thread, together with the local code
up to the thread's next shared access.  Nodes live in a shared heap and are named by their address;
addresses are never reused, because the source frees nodes only in `free_hashmap`.

`stamp`, `clock` and `time`, and the `limit` and `since` a traversal carries, are history: no step
takes a decision on them.  A node's stamp is its place in the order in which the nodes of its bucket
were published by a successful swap of the bucket head.
*/
module LockFreeMap {
  import opened Buckets
  import opened Options

  type Addr = nat
  type Link = Option<Addr>

  datatype Node = Node(val: int, next: Link, deleted: bool)

  /** What `cur_ptr` may point at: the head of the bucket, or the link field of a node. */
  datatype Place = Sentinel | NextOf(addr: Addr)

  datatype Op = Insert(val: int) | Remove(val: int) | Lookup(val: int)

  /** The program counter of a thread with its local variables; each name is the next shared access. */
  datatype Local =
    | Idle
    | InsertLoad(node: Addr)
    | InsertLink(node: Addr, seen: Link)
    | InsertSwap(node: Addr, seen: Link)
    | RemoveLoad(val: int)
    | RemoveNext(val: int, at: Place, cur: Addr, limit: nat, since: nat)
    | RemoveMark(val: int, at: Place, cur: Addr, next: Link, limit: nat, since: nat)
    | RemoveUnlink(val: int, at: Place, cur: Addr, next: Link, since: nat)
    | LookupLoad(val: int)
    | LookupTest(val: int, cur: Addr, limit: nat, since: nat)
    | LookupNext(val: int, cur: Addr, limit: nat, since: nat)

  /** The shared memory of the map, with the publication history of its nodes. */
  datatype Memory = Memory(
    heads: seq<Link>,
    heap: map<Addr, Node>,
    stamp: map<Addr, nat>,
    clock: seq<nat>)

  datatype State = State(mem: Memory, threads: map<nat, Local>, time: nat)

  /** What the scheduler and the allocator decide in one step: a new call (with the address `malloc`
      returns, if any), or the thread's next access (a weak swap may fail spuriously). */
  datatype Choice = Call(op: Op, memory: Link) | Go(spurious: bool)

  datatype Tick = Tick(t: nat, c: Choice)

  datatype Event = Quiet | Publish(addr: Addr) | Claim(addr: Addr) | Return(op: Op, result: int)

  // ---- The machine ----

  function At(s: State, t: nat): Local {
    if t in s.threads then s.threads[t] else Idle
  }

  function Init(n: nat): State {
    State(Memory(seq(n, _ => None), map[], map[], seq(n, _ => 0)), map[], 0)
  }

  function Goto(s: State, t: nat, l: Local): State {
    s.(threads := s.threads[t := l], time := s.time + 1)
  }

  function Begin(s: State, t: nat, op: Op, memory: Link): (State, Event) {
    if |s.mem.heads| == 0 then (Goto(s, t, Idle), Return(op, 1))
    else match op
      case Remove(val) => (Goto(s, t, RemoveLoad(val)), Quiet)
      case Lookup(val) => (Goto(s, t, LookupLoad(val)), Quiet)
      case Insert(val) =>
        if memory.None? || memory.value in s.mem.heap then (Goto(s, t, Idle), Return(op, 1))
        else
          (Goto(s.(mem := SetNode(s.mem, memory.value, Node(val, None, false))), t, InsertLoad(memory.value)), Quiet)
  }

  /** Every node a thread is about to access is allocated: no step dereferences a null pointer. */
  predicate Addressable(m: Memory, l: Local) {
    && |m.clock| == |m.heads|
    && (!l.Idle? ==> |m.heads| > 0)
    && (l.InsertLoad? || l.InsertLink? || l.InsertSwap? ==> l.node in m.heap)
    && (l.RemoveNext? || l.RemoveMark? || l.RemoveUnlink? || l.LookupTest? || l.LookupNext? ==> l.cur in m.heap)
    && (l.RemoveMark? || l.RemoveUnlink? ==> l.at.NextOf? ==> l.at.addr in m.heap)
  }

  function SetNode(m: Memory, a: Addr, n: Node): Memory {
    m.(heap := m.heap[a := n])
  }

  function Head(m: Memory, val: int): Link
    requires |m.heads| > 0
  {
    m.heads[Index(val, |m.heads|)]
  }

  /** How many nodes have been published so far in the bucket of `val`. */
  function Count(m: Memory, val: int): nat
    requires |m.clock| == |m.heads| > 0
  {
    m.clock[Index(val, |m.heads|)]
  }

  function ReadPlace(m: Memory, val: int, at: Place): Link
    requires |m.heads| > 0 && (at.NextOf? ==> at.addr in m.heap)
  {
    match at
    case Sentinel => Head(m, val)
    case NextOf(a) => m.heap[a].next
  }

  function WritePlace(m: Memory, val: int, at: Place, l: Link): Memory
    requires |m.heads| > 0 && (at.NextOf? ==> at.addr in m.heap)
  {
    match at
    case Sentinel => m.(heads := m.heads[Index(val, |m.heads|) := l])
    case NextOf(a) => SetNode(m, a, m.heap[a].(next := l))
  }

  function PublishNode(m: Memory, a: Addr): Memory
    requires a in m.heap && |m.clock| == |m.heads| > 0
  {
    var b := Index(m.heap[a].val, |m.heads|);
    m.(heads := m.heads[b := Some(a)], stamp := m.stamp[a := m.clock[b]], clock := m.clock[b := m.clock[b] + 1])
  }

  function Continue(s: State, t: nat, spurious: bool): (State, Event)
    requires Addressable(s.mem, At(s, t))
  {
    var m := s.mem;
    match At(s, t)
    case Idle => (s.(time := s.time + 1), Quiet)
    case InsertLoad(a) =>
      (Goto(s, t, InsertLink(a, Head(m, m.heap[a].val))), Quiet)
    case InsertLink(a, seen) =>
      (Goto(s.(mem := SetNode(m, a, m.heap[a].(next := seen))), t, InsertSwap(a, seen)), Quiet)
    case InsertSwap(a, seen) =>
      if !spurious && Head(m, m.heap[a].val) == seen then (Goto(s.(mem := PublishNode(m, a)), t, Idle), Publish(a))
      else (Goto(s, t, InsertLink(a, Head(m, m.heap[a].val))), Quiet)
    case RemoveLoad(val) =>
      var l := Head(m, val);
      if l.None? then (Goto(s, t, Idle), Return(Remove(val), 1))
      else (Goto(s, t, RemoveNext(val, Sentinel, l.value, Count(m, val), s.time)), Quiet)
    case RemoveNext(val, at, cur, limit, since) =>
      (Goto(s, t, RemoveMark(val, at, cur, m.heap[cur].next, limit, since)), Quiet)
    case RemoveMark(val, at, cur, next, limit, since) =>
      if m.heap[cur].val == val && !m.heap[cur].deleted then
        (Goto(s.(mem := SetNode(m, cur, m.heap[cur].(deleted := true))), t, RemoveUnlink(val, at, cur, next, s.time)), Claim(cur))
      else if next.None? then (Goto(s, t, Idle), Return(Remove(val), 1))
      else (Goto(s, t, RemoveNext(val, NextOf(cur), next.value, limit, since)), Quiet)
    case RemoveUnlink(val, at, cur, next, since) =>
      var m' := if !spurious && ReadPlace(m, val, at) == Some(cur) then WritePlace(m, val, at, next) else m;
      (Goto(s.(mem := m'), t, Idle), Return(Remove(val), 0))
    case LookupLoad(val) =>
      var l := Head(m, val);
      if l.None? then (Goto(s, t, Idle), Return(Lookup(val), 1))
      else (Goto(s, t, LookupTest(val, l.value, Count(m, val), s.time)), Quiet)
    case LookupTest(val, cur, limit, since) =>
      if m.heap[cur].val == val && !m.heap[cur].deleted then (Goto(s, t, Idle), Return(Lookup(val), 0))
      else (Goto(s, t, LookupNext(val, cur, limit, since)), Quiet)
    case LookupNext(val, cur, limit, since) =>
      var l := m.heap[cur].next;
      if l.None? then (Goto(s, t, Idle), Return(Lookup(val), 1))
      else (Goto(s, t, LookupTest(val, l.value, limit, since)), Quiet)
  }

  /** One step: a call starts only in an idle thread, and a thread inside a call goes on with it. */
  function Step(s: State, tick: Tick): (State, Event)
    requires Addressable(s.mem, At(s, tick.t))
  {
    if tick.c.Go? then Continue(s, tick.t, tick.c.spurious)
    else if At(s, tick.t).Idle? then Begin(s, tick.t, tick.c.op, tick.c.memory)
    else (s.(time := s.time + 1), Quiet)
  }

  // ---- The invariant ----

  function BucketOf(m: Memory, a: Addr): nat
    requires |m.heads| > 0 && a in m.heap
  {
    Index(m.heap[a].val, |m.heads|)
  }

  ghost predicate Published(m: Memory, b: nat, a: Addr) {
    && |m.heads| > 0
    && a in m.heap && a in m.stamp
    && BucketOf(m, a) == b
  }

  ghost predicate OnLink(m: Memory, b: nat, l: Link) {
    l.Some? ==> Published(m, b, l.value)
  }

  ghost function Rank(m: Memory, l: Link): int {
    if l.Some? && l.value in m.stamp then m.stamp[l.value] else -1
  }

  /** Every node of bucket `b` stamped strictly between the two bounds is logically deleted. */
  ghost predicate Gap(m: Memory, b: nat, lo: int, hi: int) {
    forall a :: Published(m, b, a) && lo < m.stamp[a] < hi ==> m.heap[a].deleted
  }

  /** Every node holding `val` that was published before `limit` and lies above `lo` is deleted. */
  ghost predicate Searched(m: Memory, b: nat, val: int, lo: int, limit: nat) {
    forall a :: Published(m, b, a) && m.heap[a].val == val && lo < m.stamp[a] < limit ==> m.heap[a].deleted
  }

  function Owned(l: Local): Link {
    match l
    case InsertLoad(a) => Some(a)
    case InsertLink(a, _) => Some(a)
    case InsertSwap(a, _) => Some(a)
    case _ => None
  }

  ghost predicate Private(m: Memory, a: Addr) {
    |m.heads| > 0 && a in m.heap && a !in m.stamp && !m.heap[a].deleted
  }

  /** A traversal for `val` that loaded the head when `limit` nodes were published is at `cur`. */
  ghost predicate Position(m: Memory, b: nat, val: int, cur: Addr, limit: nat) {
    && b < |m.clock|
    && Published(m, b, cur)
    && m.stamp[cur] < limit <= m.clock[b]
    && Searched(m, b, val, m.stamp[cur], limit)
  }

  ghost predicate PlaceOk(m: Memory, b: nat, at: Place) {
    at.NextOf? ==> Published(m, b, at.addr)
  }

  /** `next`, read from `cur` some time ago, still has only deleted nodes between itself and `cur`. */
  ghost predicate Snapshot(m: Memory, b: nat, cur: Addr, next: Link) {
    && Published(m, b, cur)
    && OnLink(m, b, next)
    && Rank(m, next) < m.stamp[cur]
    && Gap(m, b, Rank(m, next), m.stamp[cur])
  }

  ghost predicate LocalInv(m: Memory, l: Local) {
    && |m.clock| == |m.heads|
    && (!l.Idle? ==> |m.heads| > 0)
    && match l
       case InsertLink(a, seen) => Private(m, a) && OnLink(m, BucketOf(m, a), seen)
       case InsertSwap(a, seen) => Private(m, a) && OnLink(m, BucketOf(m, a), seen) && m.heap[a].next == seen
       case InsertLoad(a) => Private(m, a)
       case RemoveNext(val, at, cur, limit, _) =>
         var b := Index(val, |m.heads|); Position(m, b, val, cur, limit) && PlaceOk(m, b, at)
       case RemoveMark(val, at, cur, next, limit, _) =>
         var b := Index(val, |m.heads|);
         Position(m, b, val, cur, limit) && PlaceOk(m, b, at) && Snapshot(m, b, cur, next)
       case RemoveUnlink(val, at, cur, next, _) =>
         var b := Index(val, |m.heads|); PlaceOk(m, b, at) && Snapshot(m, b, cur, next) && m.heap[cur].deleted
       case LookupTest(val, cur, limit, _) => Position(m, Index(val, |m.heads|), val, cur, limit)
       case LookupNext(val, cur, limit, _) =>
         Position(m, Index(val, |m.heads|), val, cur, limit) && (m.heap[cur].val == val ==> m.heap[cur].deleted)
       case _ => true
  }

  ghost predicate StampsOk(m: Memory) {
    && |m.clock| == |m.heads|
    && (forall a :: a in m.stamp ==> |m.heads| > 0 && a in m.heap && m.stamp[a] < m.clock[BucketOf(m, a)])
    && (forall a, a' :: a in m.stamp && a' in m.stamp && BucketOf(m, a) == BucketOf(m, a') && m.stamp[a] == m.stamp[a'] ==> a == a')
    && (forall a :: a in m.heap && m.heap[a].deleted ==> a in m.stamp)
  }

  ghost predicate HeadOk(m: Memory, b: nat)
    requires b < |m.heads| == |m.clock|
  {
    OnLink(m, b, m.heads[b]) && Gap(m, b, Rank(m, m.heads[b]), m.clock[b])
  }

  ghost predicate HeadsOk(m: Memory)
    requires |m.clock| == |m.heads|
  {
    forall b :: 0 <= b < |m.heads| ==> HeadOk(m, b)
  }

  ghost predicate LinksOk(m: Memory) {
    forall b, a :: Published(m, b, a) ==> Snapshot(m, b, a, m.heap[a].next)
  }

  ghost predicate MemoryInv(m: Memory) {
    StampsOk(m) && HeadsOk(m) && LinksOk(m)
  }

  ghost predicate ThreadsOk(s: State) {
    && (forall t :: LocalInv(s.mem, At(s, t)))
    && (forall t, t' :: t != t' && Owned(At(s, t)).Some? ==> Owned(At(s, t)) != Owned(At(s, t')))
  }

  ghost predicate Inv(s: State) {
    MemoryInv(s.mem) && ThreadsOk(s)
  }
}
