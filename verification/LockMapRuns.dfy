/**
The lock-based map over whole runs: every interleaving is a run of an atomic multiset, in which each call
takes effect at one instant inside its critical section and answers accordingly; no freed node is ever
touched, none is lost, and every critical section ends.
*/
module LockMapRuns {
  import opened Buckets
  import opened Options
  import opened LockMap
  import opened LockMapSteps

  // ---- Effects ----

  datatype Effect = Nothing | Added(val: int) | Taken(val: int) | Absent(val: int) | Present(val: int)

  /** The effect that the next step of a thread has, or observes, on the multiset. */
  function EffectOf(m: map<nat, Node>, bk: Bucket, l: Local): Effect {
    match l
    case InsertPublish(val, _) => Added(val)
    case RemoveStore(val, _, _, _, _) => Taken(val)
    case RemoveLoad(val, link, _) => if ReadLink(m, bk, link) == Some(0) then Absent(val) else Nothing
    case LookupTest(val, cur, _) => if cur == 0 then Absent(val) else if cur in m && m[cur].val == val then Present(val) else Nothing
    case _ => Nothing
  }

  function StepEffect(s: State, c: Choice): Effect
    requires |s.buckets| > 0
  {
    if c.Go? && c.t < |s.threads| && Working(s.threads[c.t])
    then EffectOf(s.nodes, s.buckets[BucketOf(s, s.threads[c.t])], s.threads[c.t])
    else Nothing
  }

  // ---- What the lists hold ----

  function CountIn(m: map<nat, Node>, chain: seq<nat>, val: int): nat {
    if chain == [] then 0
    else (if chain[0] in m && m[chain[0]].val == val then 1 else 0) + CountIn(m, chain[1..], val)
  }

  function Count(s: State, cs: seq<seq<nat>>, val: int): nat
    requires |cs| > 0
  {
    CountIn(s.nodes, cs[Index(val, |cs|)], val)
  }

  /** All nodes of the list are still there, with the same values. */
  ghost predicate ValuesKept(m: map<nat, Node>, m': map<nat, Node>, chain: seq<nat>) {
    forall i :: 0 <= i < |chain| ==> chain[i] in m && chain[i] in m' && m'[chain[i]].val == m[chain[i]].val
  }

  lemma {:induction false} CountSame(m: map<nat, Node>, m': map<nat, Node>, chain: seq<nat>, val: int)
    requires ValuesKept(m, m', chain)
    ensures CountIn(m', chain, val) == CountIn(m, chain, val)
  {
    if chain != [] {
      assert forall i :: 0 <= i < |chain[1..]| ==> chain[1..][i] == chain[i + 1];
      CountSame(m, m', chain[1..], val);
    }
  }

  lemma {:induction false} CountWithout(m: map<nat, Node>, chain: seq<nat>, pos: nat, val: int)
    requires pos < |chain| && chain[pos] in m
    ensures CountIn(m, chain, val) == CountIn(m, Without(chain, pos), val) + if m[chain[pos]].val == val then 1 else 0
  {
    if pos == 0 {
      assert Without(chain, 0) == chain[1..];
    } else {
      CountWithout(m, chain[1..], pos - 1, val);
      assert Without(chain, pos)[0] == chain[0] && Without(chain, pos)[1..] == Without(chain[1..], pos - 1);
    }
  }

  lemma {:induction false} CountNone(m: map<nat, Node>, chain: seq<nat>, val: int)
    requires Passed(m, chain, val, |chain|)
    ensures CountIn(m, chain, val) == 0
  {
    if chain != [] {
      assert forall i :: 0 <= i < |chain[1..]| ==> chain[1..][i] == chain[i + 1];
      CountNone(m, chain[1..], val);
    }
  }

  lemma {:induction false} CountSome(m: map<nat, Node>, chain: seq<nat>, pos: nat, val: int)
    requires pos < |chain| && chain[pos] in m && m[chain[pos]].val == val
    ensures CountIn(m, chain, val) > 0
  {
    if pos > 0 { CountSome(m, chain[1..], pos - 1, val); }
  }

  // ---- One step ----

  /** A step of a thread changes no value of a node in a list. */
  lemma MoveKeepsValues(m: map<nat, Node>, bk: Bucket, l: Local, a: nat, chain: seq<nat>)
    requires forall i :: 0 <= i < |chain| ==> chain[i] in m && (l.RemoveFree? ==> chain[i] != l.cur)
    ensures ValuesKept(m, Move(m, bk, l, a).nodes, chain)
  {
  }

  lemma ChainNodes(s: State, cs: seq<seq<nat>>, c: nat)
    requires Inv(s, cs) && c < |cs|
    ensures |cs| == |s.buckets| && ChainOk(s.nodes, s.buckets[c].head, cs[c], c, |cs|)
  {
  }

  lemma ValuesStay(s: State, cs: seq<seq<nat>>, t: nat, a: nat, c: nat)
    requires Inv(s, cs) && t < |s.threads| && Working(s.threads[t]) && c < |cs|
    ensures |s.buckets| > 0 && ValuesKept(s.nodes, Step(s, Go(t, a)).nodes, cs[c])
  {
    ChainNodes(s, cs, c);
    var l := s.threads[t];
    var b := BucketOf(s, l);
    if l.RemoveFree? {
      OwnedApart(s, cs, t);
      forall i | 0 <= i < |cs[c]| ensures cs[c][i] != l.cur { ChainMember(cs, c, i); }
    }
    hide Inv, Move;
    MoveKeepsValues(s.nodes, s.buckets[b], l, a, cs[c]);
  }

  /** How a step changes the number of nodes with value `v`, and what it tells its thread about it. */
  ghost predicate Matches(e: Effect, before: nat, after: nat, v: int) {
    && after + (if e == Taken(v) then 1 else 0) == before + (if e == Added(v) then 1 else 0)
    && (e == Taken(v) || e == Present(v) ==> before > 0)
    && (e == Absent(v) ==> before == 0)
  }

  lemma PublishMatches(s: State, cs: seq<seq<nat>>, t: nat, a: nat, v: int)
    requires Inv(s, cs) && t < |s.threads| && s.threads[t].InsertPublish?
    ensures |s.buckets| > 0 && Matches(StepEffect(s, Go(t, a)), Count(s, cs, v), Count(Step(s, Go(t, a)), NextChains(s, cs, Go(t, a)), v), v)
  {
    StepFacts(s, cs, t);
    var l := s.threads[t];
    hide Inv, ChainOk;
    var chain := cs[Index(l.val, |cs|)];
    assert ([l.node] + chain)[1..] == chain;
    assert CountIn(s.nodes, [l.node] + chain, v) == (if v == l.val then 1 else 0) + CountIn(s.nodes, chain, v);
  }

  lemma UnlinkMatches(s: State, cs: seq<seq<nat>>, t: nat, a: nat, v: int)
    requires Inv(s, cs) && t < |s.threads| && s.threads[t].RemoveStore?
    ensures |s.buckets| > 0 && Matches(StepEffect(s, Go(t, a)), Count(s, cs, v), Count(Step(s, Go(t, a)), NextChains(s, cs, Go(t, a)), v), v)
  {
    StepFacts(s, cs, t);
    var l := s.threads[t];
    var b, c := BucketOf(s, l), Index(v, |cs|);
    ValuesStay(s, cs, t, a, c);
    hide Inv, ChainOk;
    var m' := Step(s, Go(t, a)).nodes;
    CountSame(s.nodes, m', cs[c], v);
    if c == b {
      CountWithout(s.nodes, cs[b], l.pos, v);
      WithoutValues(s.nodes, m', cs[b], l.pos);
      CountSame(s.nodes, m', Without(cs[b], l.pos), v);
    }
  }

  lemma WithoutValues(m: map<nat, Node>, m': map<nat, Node>, chain: seq<nat>, pos: nat)
    requires pos < |chain| && ValuesKept(m, m', chain)
    ensures ValuesKept(m, m', Without(chain, pos))
  {
    var ds := Without(chain, pos);
    assert forall i :: 0 <= i < |ds| ==> ds[i] == chain[if i < pos then i else i + 1];
  }

  lemma QuietMatches(s: State, cs: seq<seq<nat>>, t: nat, a: nat, v: int)
    requires Inv(s, cs) && t < |s.threads| && Working(s.threads[t]) && !s.threads[t].InsertPublish? && !s.threads[t].RemoveStore?
    ensures |s.buckets| > 0 && Matches(StepEffect(s, Go(t, a)), Count(s, cs, v), Count(Step(s, Go(t, a)), NextChains(s, cs, Go(t, a)), v), v)
  {
    StepFacts(s, cs, t);
    ValuesStay(s, cs, t, a, Index(v, |cs|));
    EffectTrue(s, cs, t, v);
    hide Inv, ChainOk, SnapshotsOk, Move, EffectOf;
    CountSame(s.nodes, Step(s, Go(t, a)).nodes, cs[Index(v, |cs|)], v);
  }

  /** What a traversal concludes at its end is true at that moment. */
  lemma EffectTrue(s: State, cs: seq<seq<nat>>, t: nat, v: int)
    requires Inv(s, cs) && t < |s.threads| && Working(s.threads[t]) && !s.threads[t].InsertPublish? && !s.threads[t].RemoveStore?
    ensures |s.buckets| == |cs| > 0
    ensures var e := EffectOf(s.nodes, s.buckets[BucketOf(s, s.threads[t])], s.threads[t]);
      && (e == Absent(v) ==> Count(s, cs, v) == 0) && (e == Present(v) ==> Count(s, cs, v) > 0)
      && (e.Nothing? || e.Absent? || e.Present?)
  {
    StepFacts(s, cs, t);
    var l := s.threads[t];
    var b := BucketOf(s, l);
    hide Inv;
    if l.RemoveLoad? && ReadLink(s.nodes, s.buckets[b], l.link) == Some(0) {
      assert At(cs[b], l.pos) == 0 && l.pos == |cs[b]|;
      CountNone(s.nodes, cs[b], l.val);
    } else if l.LookupTest? && l.cur == 0 {
      assert l.pos == |cs[b]|;
      CountNone(s.nodes, cs[b], l.val);
    } else if l.LookupTest? && l.cur in s.nodes && s.nodes[l.cur].val == l.val {
      CountSome(s.nodes, cs[b], l.pos, l.val);
    }
  }

  lemma StepMatches(s: State, cs: seq<seq<nat>>, c: Choice, v: int)
    requires Inv(s, cs)
    ensures |s.buckets| > 0 && Matches(StepEffect(s, c), Count(s, cs, v), Count(Step(s, c), NextChains(s, cs, c), v), v)
  {
    InvSize(s, cs);
    if c.Go? && c.t < |s.threads| && Working(s.threads[c.t]) {
      hide Inv, Step, StepEffect, NextChains, Matches, Count;
      if s.threads[c.t].InsertPublish? {
        PublishMatches(s, cs, c.t, c.addr, v);
      } else if s.threads[c.t].RemoveStore? {
        UnlinkMatches(s, cs, c.t, c.addr, v);
      } else {
        QuietMatches(s, cs, c.t, c.addr, v);
      }
    }
  }

  // ---- Runs ----

  function Run(s: State, cs: seq<seq<nat>>, choices: seq<Choice>): (State, seq<seq<nat>>)
    requires |cs| == |s.buckets| > 0
    decreases |choices|
  {
    if choices == [] then (s, cs) else Run(Step(s, choices[0]), NextChains(s, cs, choices[0]), choices[1..])
  }

  function Effects(s: State, choices: seq<Choice>): seq<Effect>
    requires |s.buckets| > 0
    decreases |choices|
  {
    if choices == [] then [] else [StepEffect(s, choices[0])] + Effects(Step(s, choices[0]), choices[1..])
  }

  /** The atomic multiset: what may happen to it, and what it is afterwards. */
  predicate Allowed(m: multiset<int>, e: Effect) {
    match e
    case Taken(v) => v in m
    case Present(v) => v in m
    case Absent(v) => v !in m
    case _ => true
  }

  function Applied(m: multiset<int>, e: Effect): multiset<int> {
    match e
    case Added(v) => m + multiset{v}
    case Taken(v) => m - multiset{v}
    case _ => m
  }

  predicate AtomicRun(m: multiset<int>, es: seq<Effect>)
    decreases |es|
  {
    es == [] || (Allowed(m, es[0]) && AtomicRun(Applied(m, es[0]), es[1..]))
  }

  function AppliedAll(m: multiset<int>, es: seq<Effect>): multiset<int>
    decreases |es|
  {
    if es == [] then m else AppliedAll(Applied(m, es[0]), es[1..])
  }

  /** The lists hold exactly the multiset. */
  ghost predicate Represents(s: State, cs: seq<seq<nat>>, m: multiset<int>)
    requires |cs| > 0
  {
    forall v :: m[v] == Count(s, cs, v)
  }

  lemma EffectRefines(s: State, cs: seq<seq<nat>>, c: Choice, m: multiset<int>)
    requires Inv(s, cs) && Represents(s, cs, m)
    ensures |s.buckets| > 0 && Allowed(m, StepEffect(s, c))
    ensures Represents(Step(s, c), NextChains(s, cs, c), Applied(m, StepEffect(s, c)))
  {
    InvSize(s, cs);
    var e, s', cs' := StepEffect(s, c), Step(s, c), NextChains(s, cs, c);
    hide Inv, Step, StepEffect, NextChains, Count;
    forall v ensures Applied(m, e)[v] == Count(s', cs', v) && (e == Taken(v) || e == Present(v) ==> v in m) && (e == Absent(v) ==> v !in m) {
      StepMatches(s, cs, c, v);
      assert m[v] == Count(s, cs, v);
    }
    if !e.Nothing? { assert Applied(m, e)[e.val] == Count(s', cs', e.val); }
  }

  /** Every interleaving refines the atomic multiset. */
  lemma {:induction false} Refinement(s: State, cs: seq<seq<nat>>, choices: seq<Choice>, m: multiset<int>)
    requires Inv(s, cs) && Represents(s, cs, m)
    ensures |cs| == |s.buckets| > 0
    ensures AtomicRun(m, Effects(s, choices))
    ensures var r := Run(s, cs, choices); Inv(r.0, r.1) && Represents(r.0, r.1, AppliedAll(m, Effects(s, choices)))
    decreases |choices|
  {
    InvSize(s, cs);
    if choices != [] {
      hide Inv, Step, StepEffect, NextChains, Represents, Allowed, Applied;
      StepKeepsInv(s, cs, choices[0]);
      EffectRefines(s, cs, choices[0], m);
      InvSize(Step(s, choices[0]), NextChains(s, cs, choices[0]));
      Refinement(Step(s, choices[0]), NextChains(s, cs, choices[0]), choices[1..], Applied(m, StepEffect(s, choices[0])));
      var es := Effects(s, choices);
      assert es[1..] == Effects(Step(s, choices[0]), choices[1..]);
    }
  }

  // ---- Calls and their answers ----

  /** The effect that a call has had. */
  function Had(l: Local): Effect {
    match l
    case InsertUnlock(val) => Added(val)
    case RemoveUnlock(val, _) => Taken(val)
    case RemoveFree(val, _) => Taken(val)
    case RemoveMiss(val) => Absent(val)
    case LookupUnlock(val, found) => if found then Present(val) else Absent(val)
    case _ => Nothing
  }

  /** What a call answers when its last step is done: 0 for success, 1 for failure. */
  function Answer(l: Local): int {
    match l
    case InsertStart(_) => 1
    case RemoveMiss(_) => 1
    case LookupUnlock(_, found) => if found then 0 else 1
    case _ => 0
  }

  /** How a step from `l` to `l'` with effect `e` fits the life of a call. */
  predicate Fits(l: Local, l': Local, e: Effect)
    requires Working(l)
  {
    && (e != Nothing ==> Inside(l) && Had(l) == Nothing && Had(l') == e && e.val == l.val)
    && (e == Nothing && Working(l') ==> Had(l') == Had(l))
    && (l'.Idle? ==> e == Nothing)
    && (l'.Idle? && !l.InsertStart? ==> Had(l) != Nothing && (Answer(l) == 0 <==> Had(l).Added? || Had(l).Taken? || Had(l).Present?))
    && (l'.Idle? && l.InsertStart? ==> Answer(l) == 1)
  }

  lemma MoveFits(m: map<nat, Node>, bk: Bucket, l: Local, a: nat)
    requires Working(l) && !Move(m, bk, l, a).local.Fault?
    ensures Fits(l, Move(m, bk, l, a).local, EffectOf(m, bk, l))
  {
  }

  /** One step in the life of a call: it may have the effect of the call if it is taken under the lock and the
      call has had none yet; the last step answers 0 if and only if that effect was to add, take or find. */
  lemma CallAnswers(s: State, cs: seq<seq<nat>>, t: nat, a: nat)
    requires Inv(s, cs) && t < |s.threads| && Working(s.threads[t])
    ensures |s.buckets| > 0 && |Step(s, Go(t, a)).threads| == |s.threads|
    ensures Fits(s.threads[t], Step(s, Go(t, a)).threads[t], StepEffect(s, Go(t, a)))
  {
    InvSize(s, cs);
    StepKeepsInv(s, cs, Go(t, a));
    var s' := Step(s, Go(t, a));
    assert ThreadOk(s', NextChains(s, cs, Go(t, a)), s'.threads[t]);
    hide Inv, ThreadOk, Move, EffectOf;
    MoveFits(s.nodes, s.buckets[BucketOf(s, s.threads[t])], s.threads[t], a);
  }

  /** Nobody else's step changes what a call has done. */
  lemma OthersUntouched(s: State, c: Choice, u: nat)
    requires |s.buckets| > 0 && u < |s.threads| && c.t != u
    ensures |Step(s, c).threads| == |s.threads| && Step(s, c).threads[u] == s.threads[u]
  {
  }

  // ---- Safety and progress ----

  /** From a new map, under every schedule: no thread touches a node that is not allocated, at most one
      thread is inside a bucket, and a bucket is locked only while some thread is inside. */
  lemma Safety(n: nat, threads: nat, choices: seq<Choice>)
    requires n > 0
    ensures var s := Run(Initial(n, threads), seq(n, i => []), choices).0;
      && (forall t :: 0 <= t < |s.threads| ==> !s.threads[t].Fault?)
      && Exclusive(s.buckets, s.threads)
  {
    var cs: seq<seq<nat>> := seq(n, i => []);
    InitialInv(n, threads);
    forall v ensures multiset{}[v] == Count(Initial(n, threads), cs, v) { }
    Refinement(Initial(n, threads), cs, choices, multiset{});
    var r := Run(Initial(n, threads), cs, choices);
    assert forall t :: 0 <= t < |r.0.threads| ==> ThreadOk(r.0, r.1, r.0.threads[t]);
  }

  /** The number of own steps that a thread inside still needs, at most, to release the lock. */
  function Work(length: nat, l: Local): int {
    match l
    case InsertLink(_, _) => 3
    case InsertPublish(_, _) => 2
    case InsertUnlock(_) => 1
    case RemoveLoad(_, _, pos) => 2 * (length - pos) + 4
    case RemoveTest(_, _, _, pos) => 2 * (length - pos) + 3
    case RemoveNext(_, _, _, _) => 3
    case RemoveStore(_, _, _, _, _) => 2
    case RemoveUnlock(_, _) => 1
    case RemoveMiss(_) => 1
    case LookupHead(_) => 2 * length + 3
    case LookupTest(_, _, pos) => 2 * (length - pos) + 2
    case LookupNext(_, _, pos) => 2 * (length - pos) + 1
    case LookupUnlock(_, _) => 1
    case _ => 0
  }

  /** A step inside leads closer to the release of the lock, or releases it. */
  predicate WorkFalls(length: nat, l: Local, o: Outcome) {
    && 0 < Work(length, l) <= 2 * length + 4
    && (Inside(o.local) ==> 0 < Work(length, o.local) < Work(length, l))
    && (!Inside(o.local) ==> !o.bucket.locked)
  }

  lemma InsertWork(m: map<nat, Node>, bk: Bucket, chain: seq<nat>, l: Local, a: nat)
    requires SnapshotsOk(m, chain, l) && Inside(l) && !Move(m, bk, l, a).local.Fault?
    requires l.InsertLink? || l.InsertPublish? || l.InsertUnlock?
    ensures WorkFalls(|chain|, l, Move(m, bk, l, a))
  {
  }

  lemma RemoveWork(m: map<nat, Node>, bk: Bucket, chain: seq<nat>, l: Local, a: nat)
    requires SnapshotsOk(m, chain, l) && Inside(l) && !Move(m, bk, l, a).local.Fault?
    requires l.RemoveLoad? || l.RemoveTest? || l.RemoveNext?
    ensures WorkFalls(|chain|, l, Move(m, bk, l, a))
  {
  }

  lemma UnlinkWork(m: map<nat, Node>, bk: Bucket, chain: seq<nat>, l: Local, a: nat)
    requires SnapshotsOk(m, chain, l) && Inside(l) && !Move(m, bk, l, a).local.Fault?
    requires l.RemoveStore? || l.RemoveUnlock? || l.RemoveMiss?
    ensures WorkFalls(|chain|, l, Move(m, bk, l, a))
  {
  }

  lemma LookupWork(m: map<nat, Node>, bk: Bucket, chain: seq<nat>, l: Local, a: nat)
    requires SnapshotsOk(m, chain, l) && Inside(l) && !Move(m, bk, l, a).local.Fault?
    requires l.LookupHead? || l.LookupTest? || l.LookupNext? || l.LookupUnlock?
    ensures WorkFalls(|chain|, l, Move(m, bk, l, a))
  {
  }

  lemma MoveWork(m: map<nat, Node>, bk: Bucket, chain: seq<nat>, l: Local, a: nat)
    requires SnapshotsOk(m, chain, l) && Inside(l) && !Move(m, bk, l, a).local.Fault?
    ensures WorkFalls(|chain|, l, Move(m, bk, l, a))
  {
    hide SnapshotsOk, Move, WorkFalls;
    if l.InsertLink? || l.InsertPublish? || l.InsertUnlock? {
      InsertWork(m, bk, chain, l, a);
    } else if l.RemoveLoad? || l.RemoveTest? || l.RemoveNext? {
      RemoveWork(m, bk, chain, l, a);
    } else if l.RemoveStore? || l.RemoveUnlock? || l.RemoveMiss? {
      UnlinkWork(m, bk, chain, l, a);
    } else {
      LookupWork(m, bk, chain, l, a);
    }
  }

  lemma WorkAnyLength(length: nat, other: nat, l: Local)
    requires l.InsertUnlock? || l.RemoveUnlock?
    ensures Work(length, l) == Work(other, l)
  {
  }

  /** A thread inside never waits: each of its steps brings it closer to releasing the lock. */
  lemma HolderProgress(s: State, cs: seq<seq<nat>>, t: nat, a: nat)
    requires Inv(s, cs) && t < |s.threads| && Inside(s.threads[t])
    ensures |s.buckets| == |cs| > 0 && |Step(s, Go(t, a)).threads| == |s.threads| && |NextChains(s, cs, Go(t, a))| == |cs|
    ensures var l, l', b := s.threads[t], Step(s, Go(t, a)).threads[t], BucketOf(s, s.threads[t]);
      && 0 < Work(|cs[b]|, l) <= 2 * |cs[b]| + 4
      && (Inside(l') ==> 0 < Work(|NextChains(s, cs, Go(t, a))[b]|, l') < Work(|cs[b]|, l))
      && (!Inside(l') ==> !Step(s, Go(t, a)).buckets[b].locked)
  {
    StepFacts(s, cs, t);
    StepKeepsInv(s, cs, Go(t, a));
    var l, s' := s.threads[t], Step(s, Go(t, a));
    assert ThreadOk(s', NextChains(s, cs, Go(t, a)), s'.threads[t]);
    hide Inv, ChainOk, SnapshotsOk, ThreadOk, OwnedOk;
    var b := BucketOf(s, l);
    MoveWork(s.nodes, s.buckets[b], cs[b], l, a);
    if l.InsertPublish? || l.RemoveStore? {
      WorkAnyLength(|cs[b]|, |NextChains(s, cs, Go(t, a))[b]|, s'.threads[t]);
    } else {
      hide Move, Work;
    }
  }

  /** Meanwhile nobody else changes its list. */
  lemma ListIsTheHolders(s: State, cs: seq<seq<nat>>, t: nat, c: Choice)
    requires Inv(s, cs) && t < |s.threads| && Inside(s.threads[t]) && c.t != t
    ensures |s.buckets| == |cs| > 0
    ensures var b := BucketOf(s, s.threads[t]); NextChains(s, cs, c)[b] == cs[b] && Step(s, c).buckets[b].locked
  {
    InvSize(s, cs);
    StepFacts(s, cs, t);
    if c.t < |s.threads| && Working(s.threads[c.t]) {
      StepFacts(s, cs, c.t);
      assert Inside(s.threads[c.t]) ==> BucketOf(s, s.threads[c.t]) != BucketOf(s, s.threads[t]);
    }
    hide Inv, ChainOk, SnapshotsOk;
  }

  // ---- No node is lost ----

  ghost predicate OwnedBySome(threads: seq<Local>, a: nat) {
    exists t :: 0 <= t < |threads| && Owned(threads[t]) == Some(a)
  }

  /** Every allocated node is in a list, or in the hands of a thread that will publish or free it. */
  ghost predicate Accounted(s: State, cs: seq<seq<nat>>) {
    forall a :: a in s.nodes ==> InChains(cs, a) || OwnedBySome(s.threads, a)
  }

  lemma StillOwned(threads: seq<Local>, t: nat, l': Local, a: nat)
    requires t < |threads| && OwnedBySome(threads, a) && (Owned(threads[t]) == Some(a) ==> Owned(l') == Some(a))
    ensures OwnedBySome(threads[t := l'], a)
  {
    var u :| 0 <= u < |threads| && Owned(threads[u]) == Some(a);
    assert Owned(threads[t := l'][u]) == Some(a);
  }

  lemma OwnedNow(threads: seq<Local>, t: nat, l': Local, a: nat)
    requires t < |threads| && Owned(l') == Some(a)
    ensures OwnedBySome(threads[t := l'], a)
  {
    assert Owned(threads[t := l'][t]) == Some(a);
  }

  /** Which node changes hands in one step. */
  lemma MoveOwns(m: map<nat, Node>, bk: Bucket, l: Local, a: nat)
    requires Working(l) && !Move(m, bk, l, a).local.Fault?
    ensures var o := Move(m, bk, l, a);
      && (forall x :: x in o.nodes && x !in m ==> Owned(o.local) == Some(x))
      && (forall x :: x in o.nodes && Owned(l) == Some(x) && !l.InsertPublish? ==> Owned(o.local) == Some(x))
      && (l.RemoveStore? ==> Owned(o.local) == Some(l.cur))
  {
  }

  lemma GoAccounted(s: State, cs: seq<seq<nat>>, t: nat, a: nat, x: nat)
    requires Inv(s, cs) && Accounted(s, cs) && t < |s.threads| && Working(s.threads[t])
    ensures |s.buckets| == |cs| > 0
    ensures x in Step(s, Go(t, a)).nodes ==>
      InChains(NextChains(s, cs, Go(t, a)), x) || OwnedBySome(Step(s, Go(t, a)).threads, x)
  {
    InvSize(s, cs);
    StepFacts(s, cs, t);
    StepKeepsInv(s, cs, Go(t, a));
    var l, s' := s.threads[t], Step(s, Go(t, a));
    var b := BucketOf(s, l);
    assert ThreadOk(s', NextChains(s, cs, Go(t, a)), s'.threads[t]);
    MoveOwns(s.nodes, s.buckets[b], l, a);
    InvDistinct(s, cs);
    hide Inv, ThreadOk, Move, ChainOk, InChains, OwnedBySome, Distinct;
    var l' := Move(s.nodes, s.buckets[b], l, a).local;
    if x in s'.nodes {
      if Owned(l') == Some(x) {
        OwnedNow(s.threads, t, l', x);
      } else if l.InsertPublish? {
        PublishMembers(cs, b, l.node, x);
        if x != l.node && OwnedBySome(s.threads, x) { StillOwned(s.threads, t, l', x); }
      } else {
        if l.RemoveStore? { UnlinkedOne(s, cs, t, x); }
        if OwnedBySome(s.threads, x) { StillOwned(s.threads, t, l', x); }
      }
    }
  }

  lemma UnlinkedOne(s: State, cs: seq<seq<nat>>, t: nat, x: nat)
    requires Inv(s, cs) && t < |s.threads| && s.threads[t].RemoveStore? && x != s.threads[t].cur
    ensures |s.buckets| == |cs| > 0 && (InChains(cs, x) ==> InChains(NextChains(s, cs, Go(t, 0)), x))
  {
    StepFacts(s, cs, t);
    InvDistinct(s, cs);
    var l := s.threads[t];
    hide Inv, ChainOk, InChains;
    WithoutMembers(cs, BucketOf(s, l), l.pos, x);
  }

  lemma StepAccounted(s: State, cs: seq<seq<nat>>, c: Choice)
    requires Inv(s, cs) && Accounted(s, cs)
    ensures |s.buckets| == |cs| > 0 && Accounted(Step(s, c), NextChains(s, cs, c))
  {
    InvSize(s, cs);
    hide Inv, Move, InChains, OwnedBySome;
    forall x | x in Step(s, c).nodes ensures InChains(NextChains(s, cs, c), x) || OwnedBySome(Step(s, c).threads, x) {
      if c.t < |s.threads| {
        if c.Go? && Working(s.threads[c.t]) {
          GoAccounted(s, cs, c.t, c.addr, x);
        } else if c.Start? && s.threads[c.t].Idle? && OwnedBySome(s.threads, x) {
          StillOwned(s.threads, c.t, Begin(c.call), x);
        }
      }
    }
  }

  lemma {:induction false} RunAccounted(s: State, cs: seq<seq<nat>>, choices: seq<Choice>)
    requires Inv(s, cs) && Accounted(s, cs)
    ensures |s.buckets| == |cs| > 0
    ensures var r := Run(s, cs, choices); |r.0.buckets| == |r.1| > 0 && Inv(r.0, r.1) && Accounted(r.0, r.1)
    decreases |choices|
  {
    InvSize(s, cs);
    if choices != [] {
      hide Inv, Step, NextChains, Accounted;
      StepKeepsInv(s, cs, choices[0]);
      StepAccounted(s, cs, choices[0]);
      RunAccounted(Step(s, choices[0]), NextChains(s, cs, choices[0]), choices[1..]);
    }
  }

  /** When all calls have returned, the allocated nodes are exactly those in the lists: nothing is freed
      too early, and nothing leaks. */
  lemma NothingLeaks(n: nat, threads: nat, choices: seq<Choice>)
    requires n > 0
    ensures var (s, cs) := Run(Initial(n, threads), seq(n, i => []), choices);
      (forall t :: 0 <= t < |s.threads| ==> s.threads[t].Idle?) ==> forall a :: a in s.nodes <==> InChains(cs, a)
  {
    InitialInv(n, threads);
    RunAccounted(Initial(n, threads), seq(n, i => []), choices);
    var (s, cs) := Run(Initial(n, threads), seq(n, i => []), choices);
    if forall t :: 0 <= t < |s.threads| ==> s.threads[t].Idle? {
      forall a ensures a in s.nodes <==> InChains(cs, a) {
        if InChains(cs, a) {
          var b :| 0 <= b < |cs| && a in cs[b];
          ChainNodes(s, cs, b);
        }
      }
    }
  }
}
