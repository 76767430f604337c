/**
The lock-based hash map as a machine of atomic steps: any number of threads, each with a program counter
and local snapshots, over buckets that are guarded by a test-and-set lock.  Freed addresses may be handed
out again.  A step that touches an address which is not allocated ends in `Fault`.
*/
module LockMap {
  import opened Buckets
  import opened Options

  datatype Node = Node(val: int, next: nat)

  datatype Bucket = Bucket(locked: bool, head: nat)

  /** The link that a removal holds: the bucket's head, or the `next` field of a node. */
  datatype Link = Head | NextOf(addr: nat)

  /** Where a thread stands.  `pos` counts the nodes that a traversal has passed. */
  datatype Local =
    | Idle
    | InsertStart(val: int)
    | InsertLock(val: int, node: nat)
    | InsertLink(val: int, node: nat)
    | InsertPublish(val: int, node: nat)
    | InsertUnlock(val: int)
    | RemoveLock(val: int)
    | RemoveLoad(val: int, link: Link, pos: nat)
    | RemoveTest(val: int, link: Link, cur: nat, pos: nat)
    | RemoveNext(val: int, link: Link, cur: nat, pos: nat)
    | RemoveStore(val: int, link: Link, cur: nat, next: nat, pos: nat)
    | RemoveUnlock(val: int, cur: nat)
    | RemoveFree(val: int, cur: nat)
    | RemoveMiss(val: int)
    | LookupLock(val: int)
    | LookupHead(val: int)
    | LookupTest(val: int, cur: nat, pos: nat)
    | LookupNext(val: int, cur: nat, pos: nat)
    | LookupUnlock(val: int, found: bool)
    | Fault

  datatype State = State(nodes: map<nat, Node>, buckets: seq<Bucket>, threads: seq<Local>)

  // ---- Steps ----

  /** What one thread's step leaves behind: memory, its bucket, and where the thread stands. */
  datatype Outcome = Outcome(nodes: map<nat, Node>, bucket: Bucket, local: Local)

  /** Test-and-set: the lock is taken if it was free, otherwise the thread spins. */
  function Acquire(m: map<nat, Node>, bk: Bucket, l: Local, inside: Local): Outcome {
    if bk.locked then Outcome(m, bk, l) else Outcome(m, bk.(locked := true), inside)
  }

  function Release(m: map<nat, Node>, bk: Bucket, after: Local): Outcome {
    Outcome(m, bk.(locked := false), after)
  }

  function ReadLink(m: map<nat, Node>, bk: Bucket, link: Link): Option<nat> {
    match link
    case Head => Some(bk.head)
    case NextOf(a) => if a in m then Some(m[a].next) else None
  }

  /** One step of a thread in its bucket; `a` is the address that `malloc` returns if the step allocates. */
  function Move(m: map<nat, Node>, bk: Bucket, l: Local, a: nat): Outcome {
    match l
    case Idle => Outcome(m, bk, l)
    case Fault => Outcome(m, bk, l)
    case InsertStart(val) =>
      if a == 0 || a in m then Outcome(m, bk, Idle) else Outcome(m[a := Node(val, 0)], bk, InsertLock(val, a))
    case InsertLock(val, node) => Acquire(m, bk, l, InsertLink(val, node))
    case InsertLink(val, node) =>
      if node in m then Outcome(m[node := m[node].(next := bk.head)], bk, InsertPublish(val, node)) else Outcome(m, bk, Fault)
    case InsertPublish(val, node) => Outcome(m, bk.(head := node), InsertUnlock(val))
    case InsertUnlock(val) => Release(m, bk, Idle)
    case RemoveLock(val) => Acquire(m, bk, l, RemoveLoad(val, Head, 0))
    case RemoveLoad(val, link, pos) => (
      match ReadLink(m, bk, link)
      case None => Outcome(m, bk, Fault)
      case Some(cur) => Outcome(m, bk, if cur == 0 then RemoveMiss(val) else RemoveTest(val, link, cur, pos)))
    case RemoveTest(val, link, cur, pos) =>
      if cur !in m then Outcome(m, bk, Fault)
      else Outcome(m, bk, if m[cur].val == val then RemoveNext(val, link, cur, pos) else RemoveLoad(val, NextOf(cur), pos + 1))
    case RemoveNext(val, link, cur, pos) =>
      Outcome(m, bk, if cur in m then RemoveStore(val, link, cur, m[cur].next, pos) else Fault)
    case RemoveStore(val, link, cur, next, pos) => (
      match link
      case Head => Outcome(m, bk.(head := next), RemoveUnlock(val, cur))
      case NextOf(p) =>
        if p in m then Outcome(m[p := m[p].(next := next)], bk, RemoveUnlock(val, cur)) else Outcome(m, bk, Fault))
    case RemoveUnlock(val, cur) => Release(m, bk, RemoveFree(val, cur))
    case RemoveFree(val, cur) => if cur in m then Outcome(m - {cur}, bk, Idle) else Outcome(m, bk, Fault)
    case RemoveMiss(val) => Release(m, bk, Idle)
    case LookupLock(val) => Acquire(m, bk, l, LookupHead(val))
    case LookupHead(val) => Outcome(m, bk, LookupTest(val, bk.head, 0))
    case LookupTest(val, cur, pos) =>
      if cur == 0 then Outcome(m, bk, LookupUnlock(val, false))
      else if cur !in m then Outcome(m, bk, Fault)
      else Outcome(m, bk, if m[cur].val == val then LookupUnlock(val, true) else LookupNext(val, cur, pos))
    case LookupNext(val, cur, pos) =>
      Outcome(m, bk, if cur in m then LookupTest(val, m[cur].next, pos + 1) else Fault)
    case LookupUnlock(val, found) => Release(m, bk, Idle)
  }

  predicate Working(l: Local) {
    !l.Idle? && !l.Fault?
  }

  datatype Call = Insert(val: int) | Remove(val: int) | Lookup(val: int)

  function Begin(c: Call): Local {
    match c
    case Insert(val) => InsertStart(val)
    case Remove(val) => RemoveLock(val)
    case Lookup(val) => LookupLock(val)
  }

  /** A scheduler's choice: an idle thread makes a call, or a thread takes its next step. */
  datatype Choice = Start(t: nat, call: Call) | Go(t: nat, addr: nat)

  function BucketOf(s: State, l: Local): (b: nat)
    requires |s.buckets| > 0 && Working(l)
    ensures b < |s.buckets|
  {
    Index(l.val, |s.buckets|)
  }

  function Step(s: State, c: Choice): State
    requires |s.buckets| > 0
  {
    if c.t >= |s.threads| then s
    else
      var l := s.threads[c.t];
      match c
      case Start(t, call) => if l.Idle? then s.(threads := s.threads[t := Begin(call)]) else s
      case Go(t, a) =>
        if !Working(l) then s
        else
          var b := BucketOf(s, l);
          var o := Move(s.nodes, s.buckets[b], l, a);
          State(o.nodes, s.buckets[b := o.bucket], s.threads[t := o.local])
  }

  // ---- The invariant ----

  /** The thread is between taking the lock and releasing it. */
  predicate Inside(l: Local) {
    l.InsertLink? || l.InsertPublish? || l.InsertUnlock? || l.RemoveLoad? || l.RemoveTest? || l.RemoveNext? ||
    l.RemoveStore? || l.RemoveUnlock? || l.RemoveMiss? || l.LookupHead? || l.LookupTest? || l.LookupNext? || l.LookupUnlock?
  }

  /** The node that belongs to the thread alone: not yet published, or already unlinked. */
  function Owned(l: Local): Option<nat> {
    match l
    case InsertLock(_, node) => Some(node)
    case InsertLink(_, node) => Some(node)
    case InsertPublish(_, node) => Some(node)
    case RemoveUnlock(_, cur) => Some(cur)
    case RemoveFree(_, cur) => Some(cur)
    case _ => None
  }

  function At(chain: seq<nat>, i: nat): nat {
    if i < |chain| then chain[i] else 0
  }

  /** The list of a bucket: allocated nodes from the head to a null link, all of values that belong here. */
  ghost predicate ChainOk(m: map<nat, Node>, head: nat, chain: seq<nat>, b: nat, n: nat)
    requires n > 0
  {
    && head == At(chain, 0)
    && forall i :: 0 <= i < |chain| ==>
         chain[i] != 0 && chain[i] in m && m[chain[i]].next == At(chain, i + 1) && Index(m[chain[i]].val, n) == b
  }

  ghost predicate ChainsOk(m: map<nat, Node>, buckets: seq<Bucket>, cs: seq<seq<nat>>) {
    |cs| == |buckets| && |cs| > 0 && forall b :: 0 <= b < |cs| ==> ChainOk(m, buckets[b].head, cs[b], b, |cs|)
  }

  /** No node stands at two places. */
  ghost predicate Distinct(cs: seq<seq<nat>>) {
    && (forall b, i, j :: 0 <= b < |cs| && 0 <= i < j < |cs[b]| ==> cs[b][i] != cs[b][j])
    && (forall b, c, i, j :: 0 <= b < c < |cs| && 0 <= i < |cs[b]| && 0 <= j < |cs[c]| ==> cs[b][i] != cs[c][j])
  }

  ghost predicate InChains(cs: seq<seq<nat>>, a: nat) {
    exists b :: 0 <= b < |cs| && a in cs[b]
  }

  /** Some thread is inside bucket `b`. */
  ghost predicate Held(n: nat, threads: seq<Local>, b: nat)
    requires n > 0
  {
    exists t :: 0 <= t < |threads| && Inside(threads[t]) && Index(threads[t].val, n) == b
  }

  /** A bucket is locked exactly when a thread is inside, and then only one is. */
  ghost predicate Exclusive(buckets: seq<Bucket>, threads: seq<Local>) {
    && |buckets| > 0
    && (forall b :: 0 <= b < |buckets| ==> (buckets[b].locked <==> Held(|buckets|, threads, b)))
    && (forall t, u :: 0 <= t < u < |threads| && Inside(threads[t]) && Inside(threads[u]) ==>
          Index(threads[t].val, |buckets|) != Index(threads[u].val, |buckets|))
  }

  /** None of the first `pos` nodes holds the value. */
  ghost predicate Passed(m: map<nat, Node>, chain: seq<nat>, val: int, pos: nat) {
    pos <= |chain| && forall i :: 0 <= i < pos ==> chain[i] in m && m[chain[i]].val != val
  }

  predicate LinkAt(chain: seq<nat>, link: Link, pos: nat) {
    match link
    case Head => pos == 0
    case NextOf(a) => 0 < pos <= |chain| && a == chain[pos - 1]
  }

  /** What a thread's snapshots say about the list it works on. */
  ghost predicate SnapshotsOk(m: map<nat, Node>, chain: seq<nat>, l: Local) {
    match l
    case InsertPublish(val, node) => node in m && m[node].next == At(chain, 0)
    case RemoveLoad(val, link, pos) => LinkAt(chain, link, pos) && Passed(m, chain, val, pos)
    case RemoveTest(val, link, cur, pos) => LinkAt(chain, link, pos) && Passed(m, chain, val, pos) && pos < |chain| && cur == chain[pos]
    case RemoveNext(val, link, cur, pos) =>
      LinkAt(chain, link, pos) && Passed(m, chain, val, pos) && pos < |chain| && cur == chain[pos] && cur in m && m[cur].val == val
    case RemoveStore(val, link, cur, next, pos) =>
      && LinkAt(chain, link, pos) && Passed(m, chain, val, pos) && pos < |chain| && cur == chain[pos] && cur in m && m[cur].val == val
      && next == At(chain, pos + 1)
    case RemoveMiss(val) => Passed(m, chain, val, |chain|)
    case LookupTest(val, cur, pos) => Passed(m, chain, val, pos) && cur == At(chain, pos)
    case LookupNext(val, cur, pos) => Passed(m, chain, val, pos) && pos < |chain| && cur == chain[pos] && cur in m && m[cur].val != val
    case Fault => false
    case _ => true
  }

  ghost predicate OwnedOk(m: map<nat, Node>, cs: seq<seq<nat>>, l: Local) {
    match Owned(l)
    case None => true
    case Some(a) => a != 0 && a in m && !InChains(cs, a) && (l.InsertLock? || l.InsertLink? || l.InsertPublish? ==> m[a].val == l.val)
  }

  ghost predicate OwnersDistinct(threads: seq<Local>) {
    forall t, u :: 0 <= t < u < |threads| && Owned(threads[t]).Some? ==> Owned(threads[t]) != Owned(threads[u])
  }

  ghost predicate ThreadOk(s: State, cs: seq<seq<nat>>, l: Local)
    requires |cs| == |s.buckets| > 0
  {
    && OwnedOk(s.nodes, cs, l)
    && !l.Fault?
    && (Working(l) ==> SnapshotsOk(s.nodes, cs[BucketOf(s, l)], l))
  }

  ghost predicate Inv(s: State, cs: seq<seq<nat>>) {
    && ChainsOk(s.nodes, s.buckets, cs) && Distinct(cs)
    && Exclusive(s.buckets, s.threads)
    && OwnersDistinct(s.threads)
    && forall t :: 0 <= t < |s.threads| ==> ThreadOk(s, cs, s.threads[t])
  }

  /** A new map: free locks, empty lists, idle threads. */
  function Initial(n: nat, threads: nat): State {
    State(map[], seq(n, i => Bucket(false, 0)), seq(threads, i => Idle))
  }

  lemma InitialInv(n: nat, threads: nat)
    requires n > 0
    ensures Inv(Initial(n, threads), seq(n, i => []))
  {
  }

  // ---- The lists as they change ----

  function Without(chain: seq<nat>, pos: nat): seq<nat>
    requires pos < |chain|
  {
    chain[..pos] + chain[pos + 1..]
  }

  /** The lists after a step: publication puts a node in front, unlinking takes one out. */
  function NextChains(s: State, cs: seq<seq<nat>>, c: Choice): seq<seq<nat>>
    requires |cs| == |s.buckets| > 0
  {
    if c.t < |s.threads| && c.Go? then
      match s.threads[c.t]
      case InsertPublish(val, node) =>
        var b := Index(val, |cs|);
        cs[b := [node] + cs[b]]
      case RemoveStore(val, link, cur, next, pos) =>
        var b := Index(val, |cs|);
        if pos < |cs[b]| then cs[b := Without(cs[b], pos)] else cs
      case _ => cs
    else cs
  }
}
