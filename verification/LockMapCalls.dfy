/**
The calls of the lock-based map over whole runs: each call that returns has taken effect at exactly one
instant, inside its critical section, with the effect and the answer that the atomic multiset has at that
instant; and each critical section ends within a number of own steps that its list bounds.
*/
module LockMapCalls {
  import opened Buckets
  import opened LockMap
  import opened LockMapSteps
  import opened LockMapRuns

  type Lists = seq<seq<nat>>

  /** The map and its lists before step `k` of a run. */
  ghost function StateAt(s: State, cs: Lists, choices: seq<Choice>, k: nat): (r: (State, Lists))
    requires Inv(s, cs) && k <= |choices|
    ensures Inv(r.0, r.1) && |r.1| == |r.0.buckets| == |cs| > 0 && |r.0.threads| == |s.threads|
    decreases k
  {
    hide *;
    InvSize(s, cs);
    if k == 0 then (s, cs)
    else
      var (u, ds) := StateAt(s, cs, choices, k - 1);
      StepKeepsInv(u, ds, choices[k - 1]);
      StepSizes(u, ds, choices[k - 1]);
      (Step(u, choices[k - 1]), NextChains(u, ds, choices[k - 1]))
  }

  lemma StepSizes(s: State, cs: Lists, c: Choice)
    requires |cs| == |s.buckets| > 0
    ensures |Step(s, c).buckets| == |s.buckets| && |Step(s, c).threads| == |s.threads| && |NextChains(s, cs, c)| == |cs|
  {
    hide Move;
  }

  lemma {:induction false} LaterStart(s: State, cs: Lists, choices: seq<Choice>, k: nat)
    requires Inv(s, cs) && k < |choices|
    ensures |s.buckets| == |cs| > 0 && Inv(Step(s, choices[0]), NextChains(s, cs, choices[0]))
    ensures StateAt(s, cs, choices, k + 1) == StateAt(Step(s, choices[0]), NextChains(s, cs, choices[0]), choices[1..], k)
    decreases k
  {
    InvSize(s, cs);
    StepKeepsInv(s, cs, choices[0]);
    hide Inv, Step, NextChains;
    if k > 0 { LaterStart(s, cs, choices, k - 1); }
    assert StateAt(s, cs, choices, 0) == (s, cs);
  }

  /** The effects of a run are those of its steps. */
  lemma {:induction false} EffectAt(s: State, cs: Lists, choices: seq<Choice>, k: nat)
    requires Inv(s, cs) && k < |choices|
    ensures |s.buckets| > 0 && |Effects(s, choices)| == |choices|
    ensures Effects(s, choices)[k] == StepEffect(StateAt(s, cs, choices, k).0, choices[k])
    decreases |choices|
  {
    hide *;
    InvSize(s, cs);
    StepKeepsInv(s, cs, choices[0]);
    StepSizes(s, cs, choices[0]);
    EffectCount(s, choices);
    FirstEffect(s, choices);
    StateFirst(s, cs, choices);
    if k > 0 {
      EffectAt(Step(s, choices[0]), NextChains(s, cs, choices[0]), choices[1..], k - 1);
      LaterStart(s, cs, choices, k - 1);
    }
  }

  lemma FirstEffect(s: State, choices: seq<Choice>)
    requires |s.buckets| > 0 && choices != [] && |Step(s, choices[0]).buckets| > 0
    ensures Effects(s, choices) == [StepEffect(s, choices[0])] + Effects(Step(s, choices[0]), choices[1..])
  {
    hide StepEffect, Step;
  }

  lemma StateFirst(s: State, cs: Lists, choices: seq<Choice>)
    requires Inv(s, cs)
    ensures StateAt(s, cs, choices, 0) == (s, cs)
  {
    hide Inv;
  }

  lemma {:induction false} EffectCount(s: State, choices: seq<Choice>)
    requires |s.buckets| > 0
    ensures |Effects(s, choices)| == |choices|
    decreases |choices|
  {
    if choices != [] { EffectCount(Step(s, choices[0]), choices[1..]); }
  }

  /** A run ends in the state before the step that would come next. */
  lemma {:induction false} RunEnds(s: State, cs: Lists, choices: seq<Choice>)
    requires Inv(s, cs)
    ensures |s.buckets| == |cs| > 0 && Run(s, cs, choices) == StateAt(s, cs, choices, |choices|)
    decreases |choices|
  {
    InvSize(s, cs);
    if choices != [] {
      StepKeepsInv(s, cs, choices[0]);
      hide Inv, Step, NextChains;
      RunEnds(Step(s, choices[0]), NextChains(s, cs, choices[0]), choices[1..]);
      LaterStart(s, cs, choices, |choices| - 1);
    }
  }

  // ---- One call ----

  /** The thread carries out this call. */
  predicate Serves(l: Local, call: Call) {
    match call
    case Insert(v) => (l.InsertStart? || l.InsertLock? || l.InsertLink? || l.InsertPublish? || l.InsertUnlock?) && l.val == v
    case Remove(v) =>
      (l.RemoveLock? || l.RemoveLoad? || l.RemoveTest? || l.RemoveNext? || l.RemoveStore? || l.RemoveUnlock? || l.RemoveFree? || l.RemoveMiss?)
      && l.val == v
    case Lookup(v) => (l.LookupLock? || l.LookupHead? || l.LookupTest? || l.LookupNext? || l.LookupUnlock?) && l.val == v
  }

  lemma MoveServes(m: map<nat, Node>, bk: Bucket, l: Local, a: nat, call: Call)
    requires Serves(l, call) && Working(Move(m, bk, l, a).local)
    ensures Serves(Move(m, bk, l, a).local, call)
  {
  }

  /** Step `k` is one of thread `t`, and has an effect. */
  ghost predicate Effective(s: State, cs: Lists, choices: seq<Choice>, t: nat, k: nat)
    requires Inv(s, cs) && k < |choices|
  {
    choices[k].t == t && StepEffect(StateAt(s, cs, choices, k).0, choices[k]) != Nothing
  }

  /** Thread `t` begins the call with step `j`, and is still in it before step `k`. */
  ghost predicate InCall(s: State, cs: Lists, choices: seq<Choice>, t: nat, call: Call, j: nat, k: nat)
    requires Inv(s, cs) && t < |s.threads| && j < k <= |choices|
  {
    && choices[j] == Start(t, call) && StateAt(s, cs, choices, j).0.threads[t].Idle?
    && forall q {:trigger StateAt(s, cs, choices, q)} :: j < q <= k ==> Working(StateAt(s, cs, choices, q).0.threads[t])
  }

  /** The call returns with step `i`. */
  ghost predicate Returns(s: State, cs: Lists, choices: seq<Choice>, t: nat, call: Call, j: nat, i: nat)
    requires Inv(s, cs) && t < |s.threads| && j < i < |choices|
  {
    InCall(s, cs, choices, t, call, j, i) && StateAt(s, cs, choices, i + 1).0.threads[t].Idle?
  }

  /** What one step does to a thread that carries out a call. */
  lemma CallStep(s: State, cs: Lists, t: nat, c: Choice, call: Call)
    requires Inv(s, cs) && t < |s.threads| && Serves(s.threads[t], call)
    ensures |s.buckets| > 0 && |Step(s, c).threads| == |s.threads| && Working(s.threads[t])
    ensures var l, l', e := s.threads[t], Step(s, c).threads[t], StepEffect(s, c);
      if c.t == t && c.Go? then Fits(l, l', e) && (Working(l') ==> Serves(l', call))
      else l' == l && (c.t == t ==> e == Nothing)
  {
    InvSize(s, cs);
    hide Inv, Move, EffectOf, Fits;
    if c.t != t {
      OthersUntouched(s, c, t);
    } else if c.Go? {
      CallAnswers(s, cs, t, c.addr);
      var l := s.threads[t];
      var bk := s.buckets[BucketOf(s, l)];
      if Working(Move(s.nodes, bk, l, c.addr).local) { MoveServes(s.nodes, bk, l, c.addr, call); }
    }
  }

  /** Before step `k` the call has had its one effect, at step `p`, or none. */
  ghost predicate SoFar(s: State, cs: Lists, choices: seq<Choice>, t: nat, call: Call, j: nat, k: nat, p: nat)
    requires Inv(s, cs) && t < |s.threads| && j < k <= |choices|
  {
    var l := StateAt(s, cs, choices, k).0.threads[t];
    && Serves(l, call)
    && (forall q :: j < q < k && Effective(s, cs, choices, t, q) ==> Had(l) != Nothing && q == p)
    && (Had(l) != Nothing ==>
        && j < p < k && choices[p].t == t && StepEffect(StateAt(s, cs, choices, p).0, choices[p]) == Had(l)
        && Inside(StateAt(s, cs, choices, p).0.threads[t]))
  }

  lemma {:induction false} OneEffect(s: State, cs: Lists, choices: seq<Choice>, t: nat, call: Call, j: nat, k: nat) returns (p: nat)
    requires Inv(s, cs) && t < |s.threads| && j < k <= |choices| && InCall(s, cs, choices, t, call, j, k)
    ensures SoFar(s, cs, choices, t, call, j, k, p)
    decreases k
  {
    hide Inv, StepEffect, Had, Inside, Fits, Serves;
    if k == j + 1 {
      p := j;
      Begun(StateAt(s, cs, choices, j).0, t, call);
    } else {
      p := OneEffect(s, cs, choices, t, call, j, k - 1);
      var (u, ds) := StateAt(s, cs, choices, k - 1);
      assert Working(StateAt(s, cs, choices, k).0.threads[t]);
      CallStep(u, ds, t, choices[k - 1], call);
      var l, l' := u.threads[t], StateAt(s, cs, choices, k).0.threads[t];
      if choices[k - 1].t == t && choices[k - 1].Go? {
        FitsWorking(l, l', StepEffect(u, choices[k - 1]));
        if StepEffect(u, choices[k - 1]) != Nothing { p := k - 1; }
      }
    }
  }

  lemma Begun(s: State, t: nat, call: Call)
    requires |s.buckets| > 0 && t < |s.threads| && s.threads[t].Idle?
    ensures Serves(Step(s, Start(t, call)).threads[t], call) && Had(Begin(call)) == Nothing
    ensures Step(s, Start(t, call)).threads[t] == Begin(call)
  {
  }

  lemma FitsWorking(l: Local, l': Local, e: Effect)
    requires Working(l) && Working(l') && Fits(l, l', e)
    ensures if e == Nothing then Had(l') == Had(l) else Had(l) == Nothing && Had(l') == e && Inside(l)
  {
    hide Had, Inside;
  }

  /** What the atomic multiset does and answers in one call. */
  function Atomic(call: Call, m: multiset<int>): (Effect, int) {
    match call
    case Insert(v) => (Added(v), 0)
    case Remove(v) => if v in m then (Taken(v), 0) else (Effect.Absent(v), 1)
    case Lookup(v) => if v in m then (Present(v), 0) else (Effect.Absent(v), 1)
  }

  /** Step `p` is the one step of the call that has an effect, and is taken inside. */
  ghost predicate TakesEffect(s: State, cs: Lists, choices: seq<Choice>, t: nat, j: nat, i: nat, p: nat)
    requires Inv(s, cs) && t < |s.threads| && i < |choices|
  {
    && j < p < i && Inside(StateAt(s, cs, choices, p).0.threads[t])
    && (forall q :: j < q <= i ==> (Effective(s, cs, choices, t, q) <==> q == p))
  }

  /** The effect of step `p` and the answer after step `i` are those of the atomic multiset that all
      effects before have made. */
  ghost predicate AsAtomic(s: State, cs: Lists, choices: seq<Choice>, m: multiset<int>, t: nat, call: Call, i: nat, p: nat)
    requires Inv(s, cs) && t < |s.threads| && i < |choices| && p < |choices|
    requires |s.buckets| > 0 && |Effects(s, choices)| == |choices|
  {
    (Effects(s, choices)[p], Answer(StateAt(s, cs, choices, i).0.threads[t])) == Atomic(call, AppliedAll(m, Effects(s, choices)[..p]))
  }

  /** A call that returns has had one effect; only an insert that gets no memory has none, and answers 1. */
  lemma CallDone(s: State, cs: Lists, choices: seq<Choice>, t: nat, call: Call, j: nat, i: nat) returns (p: nat)
    requires Inv(s, cs) && t < |s.threads| && j < i < |choices| && Returns(s, cs, choices, t, call, j, i)
    ensures var l := StateAt(s, cs, choices, i).0.threads[t];
      && Serves(l, call)
      && (Had(l) != Nothing ==> TakesEffect(s, cs, choices, t, j, i, p) && StepEffect(StateAt(s, cs, choices, p).0, choices[p]) == Had(l))
      && (Had(l) == Nothing ==> call.Insert? && Answer(l) == 1 && forall q :: j < q <= i ==> !Effective(s, cs, choices, t, q))
  {
    hide Inv, StepEffect, Had, Inside, Fits, Serves, Answer;
    p := OneEffect(s, cs, choices, t, call, j, i);
    var (u, ds) := StateAt(s, cs, choices, i);
    CallStep(u, ds, t, choices[i], call);
    LastOne(u.threads[t], StateAt(s, cs, choices, i + 1).0.threads[t], StepEffect(u, choices[i]), call);
    assert !Effective(s, cs, choices, t, i);
  }

  /** Step `k` is one of thread `t`, and `malloc` returns null in it, or an address in use, which it never does. */
  ghost predicate NoMemory(s: State, cs: Lists, choices: seq<Choice>, t: nat, k: nat)
    requires Inv(s, cs) && k < |choices|
  {
    exists a :: choices[k] == Go(t, a) && (a == 0 || a in StateAt(s, cs, choices, k).0.nodes)
  }

  /** Every call that returns, in every run, is linearized at exactly one of its steps; only an insert that
      gets no memory has no effect, and answers 1. */
  lemma CallLinearized(s: State, cs: Lists, choices: seq<Choice>, m: multiset<int>, t: nat, call: Call, j: nat, i: nat)
    requires Inv(s, cs) && |cs| > 0 && Represents(s, cs, m) && t < |s.threads| && j < i < |choices|
    requires Returns(s, cs, choices, t, call, j, i)
    ensures |s.buckets| > 0 && |Effects(s, choices)| == |choices| && AtomicRun(m, Effects(s, choices))
    ensures
      || (exists p :: TakesEffect(s, cs, choices, t, j, i, p) && AsAtomic(s, cs, choices, m, t, call, i, p))
      || (&& call.Insert? && Answer(StateAt(s, cs, choices, i).0.threads[t]) == 1
          && (forall q :: j < q <= i ==> !Effective(s, cs, choices, t, q))
          && NoMemory(s, cs, choices, t, i) && forall q :: j < q < i ==> !(choices[q].Go? && choices[q].t == t))
  {
    InvSize(s, cs);
    EffectCount(s, choices);
    var p := CallDone(s, cs, choices, t, call, j, i);
    if Had(StateAt(s, cs, choices, i).0.threads[t]) == Nothing { NothingHad(s, cs, choices, t, call, j, i); }
    hide *;
    Refinement(s, cs, choices, m);
    var l := StateAt(s, cs, choices, i).0.threads[t];
    if Had(l) != Nothing {
      TakenWithin(s, cs, choices, t, j, i, p);
      EffectAt(s, cs, choices, p);
      AtomicAt(m, Effects(s, choices), p);
      AnswerFits(l, call, AppliedAll(m, Effects(s, choices)[..p]));
      IsAtomic(s, cs, choices, m, t, call, i, p);
    }
  }

  /** A call that returns without an effect is an insert that got no memory with its first step. */
  lemma NothingHad(s: State, cs: Lists, choices: seq<Choice>, t: nat, call: Call, j: nat, i: nat)
    requires Inv(s, cs) && t < |s.threads| && j < i < |choices| && Returns(s, cs, choices, t, call, j, i)
    requires Serves(StateAt(s, cs, choices, i).0.threads[t], call) && Had(StateAt(s, cs, choices, i).0.threads[t]) == Nothing
    ensures NoMemory(s, cs, choices, t, i) && forall q :: j < q < i ==> !(choices[q].Go? && choices[q].t == t)
  {
    hide Inv, Had, Serves, Fits, Move;
    var (u, ds) := StateAt(s, cs, choices, i);
    InvSize(u, ds);
    EndsIdle(u, ds, t, choices[i]);
    var l := u.threads[t];
    EndPlaces(u.nodes, u.buckets[BucketOf(u, l)], l, choices[i].addr);
    NotStarted(s, cs, choices, t, call, j, i);
  }

  /** Only a step of its own thread ends a call. */
  lemma EndsIdle(s: State, cs: Lists, t: nat, c: Choice)
    requires Inv(s, cs) && t < |s.threads| && Working(s.threads[t]) && |s.buckets| > 0
    requires |Step(s, c).threads| == |s.threads| && Step(s, c).threads[t].Idle?
    ensures c == Go(t, c.addr) && Move(s.nodes, s.buckets[BucketOf(s, s.threads[t])], s.threads[t], c.addr).local.Idle?
  {
    hide Inv, Move;
  }

  lemma EndPlaces(m: map<nat, Node>, bk: Bucket, l: Local, a: nat)
    requires Working(l) && Had(l) == Nothing && Move(m, bk, l, a).local.Idle?
    ensures l.InsertStart? && (a == 0 || a in m)
  {
  }

  /** An insert that still stands at its first step has taken none. */
  lemma {:induction false} NotStarted(s: State, cs: Lists, choices: seq<Choice>, t: nat, call: Call, j: nat, k: nat)
    requires Inv(s, cs) && t < |s.threads| && j < k <= |choices| && InCall(s, cs, choices, t, call, j, k)
    requires StateAt(s, cs, choices, k).0.threads[t].InsertStart?
    ensures forall q :: j < q < k ==> !(choices[q].Go? && choices[q].t == t)
    decreases k
  {
    hide Inv, Step;
    if k > j + 1 {
      var (u, ds) := StateAt(s, cs, choices, k - 1);
      assert Working(u.threads[t]);
      InvSize(u, ds);
      if choices[k - 1].t == t {
        FirstStep(u, t, choices[k - 1]);
      } else {
        OthersUntouched(u, choices[k - 1], t);
      }
      NotStarted(s, cs, choices, t, call, j, k - 1);
    }
  }

  lemma FirstStep(s: State, t: nat, c: Choice)
    requires |s.buckets| > 0 && t < |s.threads| && c.t == t && Working(s.threads[t])
    ensures |Step(s, c).threads| == |s.threads|
    ensures Step(s, c).threads[t].InsertStart? ==> !c.Go? && Step(s, c).threads[t] == s.threads[t]
  {
  }

  /** With step `q`, the first that thread `t` takes after step `j`, `malloc` returns an address that is free. */
  ghost predicate Offered(s: State, cs: Lists, choices: seq<Choice>, t: nat, j: nat, q: nat)
    requires Inv(s, cs) && q < |choices|
  {
    && (exists a :: choices[q] == Go(t, a) && a != 0 && a !in StateAt(s, cs, choices, q).0.nodes)
    && forall r :: j < r < q ==> !(choices[r].Go? && choices[r].t == t)
  }

  /** An insert whose first step is offered memory adds its value, once, and answers 0. */
  lemma InsertSucceeds(s: State, cs: Lists, choices: seq<Choice>, m: multiset<int>, t: nat, v: int, j: nat, i: nat, q: nat)
    requires Inv(s, cs) && |cs| > 0 && Represents(s, cs, m) && t < |s.threads| && j < q <= i < |choices|
    requires Returns(s, cs, choices, t, Insert(v), j, i) && Offered(s, cs, choices, t, j, q)
    ensures |s.buckets| > 0 && |Effects(s, choices)| == |choices| && Answer(StateAt(s, cs, choices, i).0.threads[t]) == 0
    ensures exists p :: TakesEffect(s, cs, choices, t, j, i, p) && AsAtomic(s, cs, choices, m, t, Insert(v), i, p)
    ensures forall n: multiset<int> :: Atomic(Insert(v), n) == (Added(v), 0)
  {
    hide *;
    CallLinearized(s, cs, choices, m, t, Insert(v), j, i);
    if NoMemory(s, cs, choices, t, i) && (forall r :: j < r < i ==> !(choices[r].Go? && choices[r].t == t)) {
      NotOffered(s, cs, choices, t, j, q, i);
    } else {
      forall p: nat | TakesEffect(s, cs, choices, t, j, i, p) ensures p < i { TakenWithin(s, cs, choices, t, j, i, p); }
      var p :| TakesEffect(s, cs, choices, t, j, i, p) && AsAtomic(s, cs, choices, m, t, Insert(v), i, p);
      AnswersZero(s, cs, choices, m, t, v, j, i, p);
    }
    AtomicInsert(v);
  }

  lemma AtomicInsert(v: int)
    ensures forall n: multiset<int> :: Atomic(Insert(v), n) == (Added(v), 0)
  {
  }

  lemma NotOffered(s: State, cs: Lists, choices: seq<Choice>, t: nat, j: nat, q: nat, i: nat)
    requires Inv(s, cs) && j < q <= i < |choices| && Offered(s, cs, choices, t, j, q)
    ensures !(NoMemory(s, cs, choices, t, i) && forall r :: j < r < i ==> !(choices[r].Go? && choices[r].t == t))
  {
    hide Inv;
  }

  lemma AnswersZero(s: State, cs: Lists, choices: seq<Choice>, m: multiset<int>, t: nat, v: int, j: nat, i: nat, p: nat)
    requires Inv(s, cs) && t < |s.threads| && j < i < |choices| && |s.buckets| > 0 && |Effects(s, choices)| == |choices|
    requires TakesEffect(s, cs, choices, t, j, i, p) && AsAtomic(s, cs, choices, m, t, Insert(v), i, p)
    ensures Answer(StateAt(s, cs, choices, i).0.threads[t]) == 0
  {
    hide Inv, Answer, Effects, StepEffect, Inside;
  }

  lemma TakenWithin(s: State, cs: Lists, choices: seq<Choice>, t: nat, j: nat, i: nat, p: nat)
    requires Inv(s, cs) && t < |s.threads| && i < |choices| && TakesEffect(s, cs, choices, t, j, i, p)
    ensures p < i
  {
  }

  lemma IsAtomic(s: State, cs: Lists, choices: seq<Choice>, m: multiset<int>, t: nat, call: Call, i: nat, p: nat)
    requires Inv(s, cs) && t < |s.threads| && i < |choices| && p < |choices|
    requires |s.buckets| > 0 && |Effects(s, choices)| == |choices|
    requires var l := StateAt(s, cs, choices, i).0.threads[t];
      Effects(s, choices)[p] == Had(l) && (Had(l), Answer(l)) == Atomic(call, AppliedAll(m, Effects(s, choices)[..p]))
    ensures AsAtomic(s, cs, choices, m, t, call, i, p)
  {
    hide Inv, Had, Answer, Atomic, Effects;
  }

  lemma LastOne(l: Local, l': Local, e: Effect, call: Call)
    requires Working(l) && l'.Idle? && Fits(l, l', e) && Serves(l, call)
    ensures e == Nothing && (Had(l) == Nothing ==> call.Insert? && Answer(l) == 1)
  {
  }

  /** What a call that had its effect answers. */
  lemma AnswerFits(l: Local, call: Call, m: multiset<int>)
    requires Serves(l, call) && Had(l) != Nothing && Allowed(m, Had(l))
    ensures (Had(l), Answer(l)) == Atomic(call, m)
  {
  }

  lemma {:induction false} AtomicAt(m: multiset<int>, es: seq<Effect>, p: nat)
    requires AtomicRun(m, es) && p < |es|
    ensures Allowed(AppliedAll(m, es[..p]), es[p])
    decreases |es|
  {
    if p > 0 {
      AtomicAt(Applied(m, es[0]), es[1..], p - 1);
      assert es[..p][1..] == es[1..][..p - 1];
    }
  }

  // ---- Critical sections end ----

  function OwnSteps(choices: seq<Choice>, t: nat, j: nat, k: nat): nat
    requires k <= |choices|
  {
    if k <= j then 0 else OwnSteps(choices, t, j, k - 1) + (if choices[k - 1].Go? && choices[k - 1].t == t then 1 else 0)
  }

  /** Thread `t` takes the lock of bucket `b` with step `j`, and still holds it before step `k`. */
  ghost predicate Holds(s: State, cs: Lists, choices: seq<Choice>, t: nat, b: nat, j: nat, k: nat)
    requires Inv(s, cs) && t < |s.threads| && j < k <= |choices|
  {
    && !Inside(StateAt(s, cs, choices, j).0.threads[t])
    && (forall q {:trigger StateAt(s, cs, choices, q)} :: j < q <= k ==> Inside(StateAt(s, cs, choices, q).0.threads[t]))
    && b == BucketOf(StateAt(s, cs, choices, j + 1).0, StateAt(s, cs, choices, j + 1).0.threads[t])
  }

  lemma InsideSame(s: State, cs: Lists, t: nat, a: nat)
    requires Inv(s, cs) && t < |s.threads| && Inside(s.threads[t])
    ensures |s.buckets| > 0 && |Step(s, Go(t, a)).threads| == |s.threads| && |Step(s, Go(t, a)).buckets| == |s.buckets|
    ensures Inside(Step(s, Go(t, a)).threads[t]) ==> BucketOf(Step(s, Go(t, a)), Step(s, Go(t, a)).threads[t]) == BucketOf(s, s.threads[t])
  {
    InvSize(s, cs);
    hide Inv, Index;
  }

  /** How far the work has come. */
  ghost predicate WorkLeft(s: State, cs: Lists, choices: seq<Choice>, t: nat, b: nat, j: nat, k: nat, length: nat)
    requires Inv(s, cs) && t < |s.threads| && j < k <= |choices| && b < |cs|
  {
    var (u, ds) := StateAt(s, cs, choices, k);
    && Inside(u.threads[t]) && BucketOf(u, u.threads[t]) == b
    && OwnSteps(choices, t, j + 1, k) + Work(|ds[b]|, u.threads[t]) <= 2 * length + 4
  }

  lemma {:induction false} HoldsBound(s: State, cs: Lists, choices: seq<Choice>, t: nat, b: nat, j: nat, k: nat)
    requires Inv(s, cs) && t < |s.threads| && j < k <= |choices| && Holds(s, cs, choices, t, b, j, k)
    ensures b < |cs| && WorkLeft(s, cs, choices, t, b, j, k, |StateAt(s, cs, choices, j + 1).1[b]|)
    decreases k
  {
    hide Inv, Inside, Work, Step, NextChains;
    var (u, ds) := StateAt(s, cs, choices, k - 1);
    if k == j + 1 {
      var (v, es) := StateAt(s, cs, choices, k);
      HolderProgress(v, es, t, 0);
    } else {
      assert Inside(u.threads[t]);
      HoldsBound(s, cs, choices, t, b, j, k - 1);
      var c := choices[k - 1];
      if c.t != t {
        OthersUntouched(u, c, t);
        ListIsTheHolders(u, ds, t, c);
      } else if c.Go? {
        HolderProgress(u, ds, t, c.addr);
        InsideSame(u, ds, t, c.addr);
      } else {
        StartsNothing(u, ds, c);
      }
    }
  }

  lemma StartsNothing(s: State, cs: Lists, c: Choice)
    requires |cs| == |s.buckets| > 0 && c.Start? && c.t < |s.threads| && Inside(s.threads[c.t])
    ensures Step(s, c) == s && NextChains(s, cs, c) == cs
  {
  }

  /** A thread that has taken a lock over a list of `length` nodes gives it back with, at the latest, its
      (2 * `length` + 4)-th step, whatever the others do. */
  lemma SectionEnds(s: State, cs: Lists, choices: seq<Choice>, t: nat, b: nat, j: nat, k: nat)
    requires Inv(s, cs) && t < |s.threads| && j < k <= |choices| && Holds(s, cs, choices, t, b, j, k)
    ensures b < |cs|
    ensures var length := |StateAt(s, cs, choices, j + 1).1[b]|;
      && OwnSteps(choices, t, j + 1, k) < 2 * length + 4
      && (k < |choices| && !Inside(StateAt(s, cs, choices, k + 1).0.threads[t]) ==>
          OwnSteps(choices, t, j + 1, k + 1) <= 2 * length + 4 && !StateAt(s, cs, choices, k + 1).0.buckets[b].locked)
  {
    hide Inv, Inside, Work, Step, NextChains;
    HoldsBound(s, cs, choices, t, b, j, k);
    var (u, ds) := StateAt(s, cs, choices, k);
    HolderProgress(u, ds, t, 0);
    if k < |choices| && !Inside(StateAt(s, cs, choices, k + 1).0.threads[t]) {
      var c := choices[k];
      if c.t != t {
        OthersUntouched(u, c, t);
      } else if c.Go? {
        HolderProgress(u, ds, t, c.addr);
      } else {
        StartsNothing(u, ds, c);
      }
    }
  }

  // ---- Locks are taken when they are free ----

  /** The thread's next step is a test-and-set. */
  predicate AtLock(l: Local) {
    l.InsertLock? || l.RemoveLock? || l.LookupLock?
  }

  /** A thread that tries a lock that nobody holds gets it; one that tries a lock that is held stays where it
      is.  An insert needs one step to get there, other calls begin there. */
  lemma TriesLock(s: State, t: nat, a: nat)
    requires |s.buckets| > 0 && t < |s.threads| && AtLock(s.threads[t])
    ensures var l, s' := s.threads[t], Step(s, Go(t, a));
      && |s'.threads| == |s.threads| && |s'.buckets| == |s.buckets|
      && (Inside(s'.threads[t]) <==> !s.buckets[BucketOf(s, l)].locked)
      && (Inside(s'.threads[t]) ==> s'.buckets[BucketOf(s, l)].locked)
      && (!Inside(s'.threads[t]) ==> s' == s)
  {
  }

  /** The thread's next step does something. */
  predicate CanStep(s: State, t: nat)
    requires |s.buckets| > 0 && t < |s.threads|
  {
    Working(s.threads[t]) && (AtLock(s.threads[t]) ==> !s.buckets[BucketOf(s, s.threads[t])].locked)
  }

  /** Whenever some call is under way, some thread can take a step, and a thread that can is elsewhere after it. */
  lemma NoDeadlock(s: State, cs: Lists, t: nat) returns (u: nat)
    requires Inv(s, cs) && t < |s.threads| && Working(s.threads[t])
    ensures |s.buckets| > 0 && u < |s.threads| && CanStep(s, u)
    ensures forall a :: |Step(s, Go(u, a)).threads| == |s.threads| && Step(s, Go(u, a)).threads[u] != s.threads[u]
  {
    InvSize(s, cs);
    u := t;
    if !CanStep(s, t) { u := Holder(s, cs, BucketOf(s, s.threads[t])); }
    hide Inv;
    forall a ensures |Step(s, Go(u, a)).threads| == |s.threads| && Step(s, Go(u, a)).threads[u] != s.threads[u] { Moves(s, u, a); }
  }

  /** A lock that is taken is held by a thread inside. */
  lemma Holder(s: State, cs: Lists, b: nat) returns (u: nat)
    requires Inv(s, cs) && b < |s.buckets| && s.buckets[b].locked
    ensures u < |s.threads| && Inside(s.threads[u])
  {
    assert Held(|s.buckets|, s.threads, b);
    hide Inv;
    u :| 0 <= u < |s.threads| && Inside(s.threads[u]) && Index(s.threads[u].val, |s.buckets|) == b;
  }

  lemma Moves(s: State, u: nat, a: nat)
    requires |s.buckets| > 0 && u < |s.threads| && CanStep(s, u)
    ensures |Step(s, Go(u, a)).threads| == |s.threads| && Step(s, Go(u, a)).threads[u] != s.threads[u]
  {
  }
}
