/**
Progress of the allocator's machine: no schedule leaves all threads waiting, and a call leaves its arena
after a number of own steps that the length of the list and the size of the request bound.
*/
module HeapMachineProgress {
  import opened Bytes
  import opened FlatMemory
  import opened BlockLists
  import opened ArenaMemory
  import opened HeapViews
  import opened ArenaEdits
  import opened Options
  import opened HeapMachine
  import opened HeapMachineSteps
  import opened HeapMachineInv
  import opened HeapMachineRuns
  import opened HeapMachineCalls

  // ---- Blocked and free to step ----

  /** The next step of the thread does something. */
  predicate CanStep(s: State, t: nat)
    requires t < |s.threads|
  {
    match s.threads[t]
    case Idle => false
    case ReadArena(_, _) => true
    case Want(k, _, _) => k < |s.locks| && s.locks[k].None?
    case Work(_, _, _, _, pc) => pc.Wait? ==> s.sbrkLock.None?
  }

  lemma WantsArena(s: State, t: nat)
    requires Inv(s) && t < |s.threads| && s.threads[t].Want?
    ensures s.threads[t].k < ARENAS
  {
    hide Inv;
    ThreadAt(s, t);
    hide WorkOk, MineOk;
  }

  // ---- Own steps that are left ----

  /** The blocks from the header at `at` on. */
  function Behind(bs: seq<Block>, at: nat): nat {
    |bs| - IndexOf(bs, at)
  }

  function Moves(goal: Goal): nat {
    if goal.Move? then goal.n else 0
  }

  /** Own steps from `pc` until the arena is left, apart from stores that are already planned. */
  function Cost(bs: seq<Block>, l: Local, pc: Pc): nat
    requires l.Work?
  {
    var n := Moves(l.goal);
    match pc
    case Begin => |bs| + n + 30
    case Search(at) => Behind(bs, at) + n + 26
    case Mark(_) => n + 12
    case Got(_) => n + 10
    case ReadFlag => n + 25
    case TryLock => n + 24
    case MarkContended => n + 23
    case Wait => n + 22
    case ReadReserve => n + 21
    case ReadBrk(_) => n + 20
    case WriteBrk(_, _) => n + 19
    case Unlock(_) => n + 15
    case Cut(_) => n + 14
    case CopyByte(_, i) => 9 + if i < l.copy then l.copy - i else 0
    case MergeNext(_) => 7
    case MergePrev(_) => 4
    case Fit => |bs| + n + 27
    case Leave(_) => 1
    case Storing(_) => 0
  }

  function Ahead(pc: Pc): Pc {
    if pc.Storing? then pc.next else pc
  }

  function StepsLeft(a: Arena, l: Local): nat
    requires l.Work?
  {
    Cost(a.target, l, Ahead(l.pc)) + |a.todo|
  }

  /** The arena of a thread after its step. */
  ghost predicate ArenaMoved(a: Arena, act: Act, b: Arena) {
    match act
    case Plan(a', _, _, _) => b == a'
    case MakeStore => if a.todo == [] then b == a else b.target == a.target && |b.todo| == |a.todo| - 1
    case Extend(_, _) => |b.todo| == 3
    case _ => b == a
  }

  lemma WorkArena(s: State, t: nat, l: Local, act: Act)
    requires t < |s.threads| && l.Work? && l.k < |s.arenas| && l.k < |s.locks|
    ensures |Perform(s, t, l, act).arenas| == |s.arenas| && ArenaMoved(s.arenas[l.k], act, Perform(s, t, l, act).arenas[l.k])
  {
    hide Done, AfterStore, Rehomed, Grown, AfterPlan;
  }

  lemma PlanSizes(m: Mem, a: Arena, p: nat, n: nat, freed: bool)
    requires Quiet(a) && a.target == a.blocks
    ensures |SplitPlan(m, a, p, n).todo| <= 3 && |JoinPlan(m, a, p).todo| <= 2 && |FreedPlan(a, p, freed).todo| <= 1
    ensures |JoinPlan(m, a, p).target| <= |a.target|
  {
    hide Load;
  }

  lemma CostSame(bs: seq<Block>, l: Local, l': Local, pc: Pc)
    requires l.Work? && l'.Work? && l'.goal == l.goal && l'.copy == l.copy
    ensures Cost(bs, l', pc) == Cost(bs, l, pc)
  {
  }

  /** What a call that is about to change its list, or has changed it, gets nearer to its end by. */
  lemma OutsideDrops(s: State, t: nat, a: Arena, l: Local, act: Act, b: Arena)
    requires l.Work? && Outside(l.pc) && OutsideAct(a, s.mem, l, act) && ArenaMoved(a, act, b) && Quiet(a) && a.target == a.blocks
    requires (l.pc.Got? || l.pc.CopyByte?) && l.goal.Move? ==> l.copy < l.goal.n
    requires l.pc.Search? && l.pc.at != 0 && Loadable(s.mem, l.pc.at) ==> Behind(a.target, Load(s.mem, l.pc.at).next) < Behind(a.target, l.pc.at)
    ensures var l' := Moved(s, a, t, l, act); l'.Idle? || (l'.Work? && l'.k == l.k && StepsLeft(b, l') < StepsLeft(a, l))
  {
    hide OutsideAct, Moved, StepsLeft, ArenaMoved, Behind;
    if l.pc.Begin? || l.pc.Search? || l.pc.Fit? { EarlyDrops(s, t, a, l, act, b); } else { LateDrops(s, t, a, l, act, b); }
  }

  lemma EarlyDrops(s: State, t: nat, a: Arena, l: Local, act: Act, b: Arena)
    requires l.Work? && OutsideAct(a, s.mem, l, act) && ArenaMoved(a, act, b) && Quiet(a) && a.target == a.blocks
    requires l.pc.Begin? || l.pc.Search? || l.pc.Fit?
    requires l.pc.Search? && l.pc.at != 0 && Loadable(s.mem, l.pc.at) ==> Behind(a.target, Load(s.mem, l.pc.at).next) < Behind(a.target, l.pc.at)
    ensures var l' := Moved(s, a, t, l, act); l'.Work? && l'.k == l.k && StepsLeft(b, l') < StepsLeft(a, l)
  {
    var m := s.mem;
    hide SplitPlan, JoinPlan, FreedPlan, Load, IndexOf, Refuses;
    match l.pc
    case Begin => PlanSizes(m, a, Header0(Target(l.goal)), 0, true);
    case Search(at) => PlanSizes(m, a, at, Size(l.goal), true);
    case Fit => PlanSizes(m, a, Header0(Target(l.goal)), Size(l.goal), true);
    case _ => assert false;
  }

  lemma LateDrops(s: State, t: nat, a: Arena, l: Local, act: Act, b: Arena)
    requires l.Work? && Outside(l.pc) && OutsideAct(a, s.mem, l, act) && ArenaMoved(a, act, b) && Quiet(a) && a.target == a.blocks
    requires !l.pc.Begin? && !l.pc.Search? && !l.pc.Fit?
    requires (l.pc.Got? || l.pc.CopyByte?) && l.goal.Move? ==> l.copy < l.goal.n
    ensures var l' := Moved(s, a, t, l, act); l'.Idle? || (l'.Work? && l'.k == l.k && StepsLeft(b, l') < StepsLeft(a, l))
  {
    var m := s.mem;
    hide SplitPlan, JoinPlan, FreedPlan, Load, IndexOf, Refuses, Start0, Seek, Refit, Target, Size, Header0;
    match l.pc
    case Mark(q) => PlanSizes(m, a, q, 0, false);
    case Cut(base) => PlanSizes(m, a, base, Size(l.goal), true);
    case CopyByte(_, _) => PlanSizes(m, a, Header0(Target(l.goal)), 0, true);
    case MergeNext(_) => PlanSizes(m, a, Header0(Target(l.goal)), 0, true);
    case MergePrev(_) => if Loadable(m, Header0(Target(l.goal))) { PlanSizes(m, a, Load(m, Header0(Target(l.goal))).prev, 0, true); }
    case _ =>
  }

  /** The same for a call that extends the heap, or carries out its stores. */
  lemma InsideDrops(s: State, t: nat, a: Arena, l: Local, sys: Kernel, b: Arena)
    requires l.Work? && !Outside(l.pc) && ArenaMoved(a, ActOf(s, a, l, sys), b)
    requires (l.pc.Wait? ==> s.sbrkLock.None?) && (l.pc.Storing? ==> a.todo != [] && Resumes(l.pc.next)) && (l.pc.WriteBrk? ==> a.todo == [])
    requires l.pc.Unlock? && l.pc.base == 0 ==> a.todo == []
    ensures var l' := Moved(s, a, t, l, ActOf(s, a, l, sys)); l'.Idle? || (l'.Work? && l'.k == l.k && StepsLeft(b, l') < StepsLeft(a, l))
  {
    hide SplitPlan, JoinPlan, FreedPlan, Load, IndexOf, Refuses, Seek, Start0, Merge, Refit, Size, Target;
    if l.pc.Storing? {
      CostSame(b.target, l, AfterStore(l, |a.todo| == 1), l.pc.next);
    }
  }

  lemma NextBehind(k: nat, bs: seq<Block>, brk: nat, i: nat)
    requires Layout(bs, brk) && i < |bs|
    ensures Behind(bs, HeaderOf(k, bs, i).next) < Behind(bs, bs[i].addr)
  {
    IndexFound(bs, brk, i);
    if i + 1 < |bs| {
      IndexFound(bs, brk, i + 1);
    } else {
      forall j | 0 <= j < |bs| ensures bs[j].addr != 0 { BlockPlaced(bs, j, brk); }
    }
  }

  lemma InsideFacts(s: State, a: Arena, l: Local)
    requires l.Work? && WorkOk(s, a, l)
    ensures (l.pc.Storing? ==> a.todo != [] && Resumes(l.pc.next)) && (l.pc.WriteBrk? || l.pc == Unlock(0) || l.pc.Begin? ==> a.todo == [])
  {
    hide Expects, Fresh, InList;
  }

  /** Every own step of a call in its arena that is not blocked brings it nearer to its end. */
  lemma StepDrops(s: State, t: nat, sys: Kernel)
    requires Inv(s) && t < |s.threads| && s.threads[t].Work? && CanStep(s, t)
    ensures |s.arenas| == |s.locks| == ARENAS && s.threads[t].k < ARENAS
    ensures var l, s' := s.threads[t], Step(s, Go(t, sys));
      && |s'.threads| == |s.threads| && |s'.arenas| == ARENAS
      && var l' := s'.threads[t];
      l'.Idle? || (l'.Work? && l'.k == l.k && StepsLeft(s'.arenas[l.k], l') < StepsLeft(s.arenas[l.k], l))
  {
    hide *;
    WorkFacts(s, t);
    WorkStep(s, t, sys);
    var l := s.threads[t];
    var a := s.arenas[l.k];
    var act := ActOf(s, a, l, sys);
    WorkArena(s, t, l, act);
    var b := Perform(s, t, l, act).arenas[l.k];
    Place(l);
    if Outside(l.pc) {
      RestIntro(s, t);
      RestActs(s, a, l, sys);
      RestFacts(s, t);
      if l.pc.Got? || l.pc.CopyByte? { GotFacts(s, t); }
      if l.pc.Search? && l.pc.at != 0 {
        SearchFacts(s, t);
        var i := StartedBlock(a.target, l.pc.at);
        SizeLoaded(s, l.k, i);
        NextBehind(l.k, a.blocks, s.brk, i);
      }
      OutsideDrops(s, t, a, l, act, b);
    } else {
      InsideFacts(s, a, l);
      WaitsFor(s, t);
      InsideDrops(s, t, a, l, sys, b);
    }
  }

  lemma WaitsFor(s: State, t: nat)
    requires t < |s.threads| && s.threads[t].Work? && CanStep(s, t)
    ensures s.threads[t].pc.Wait? ==> s.sbrkLock.None?
  {
  }

  /** Nobody else moves the call, or changes its arena. */
  lemma OthersStay(s: State, t: nat, c: Choice)
    requires Inv(s) && t < |s.threads| && s.threads[t].Work? && !(c.Go? && c.t == t)
    ensures |s.arenas| == |s.locks| == ARENAS && s.threads[t].k < ARENAS && |Step(s, c).threads| == |s.threads| && |Step(s, c).arenas| == ARENAS
    ensures Step(s, c).threads[t] == s.threads[t] && Step(s, c).arenas[s.threads[t].k] == s.arenas[s.threads[t].k]
  {
    hide *;
    WorkFacts(s, t);
    StepThreads(s, c);
    LocalStep(s, c, t);
    if c.t < |s.threads| && c.t != t {
      OnlyHolder(s, t, c.t);
      if s.threads[c.t].Work? { WorkFacts(s, c.t); }
    }
    ArenasStep(s, c, s.threads[t].k);
  }

  lemma ArenasStep(s: State, c: Choice, j: nat)
    requires |s.arenas| == |s.locks| == ARENAS && j < ARENAS
    ensures |Step(s, c).arenas| == ARENAS
    ensures !(c.Go? && c.t < |s.threads| && s.threads[c.t].Work? && s.threads[c.t].k == j) ==> Step(s, c).arenas[j] == s.arenas[j]
  {
    hide Perform, ActOf, Approach, MayStart, MayPoke, Begun, Held0;
    if c.t < |s.threads| && c.Go? {
      var l := s.threads[c.t];
      if !l.Work? {
        ApproachShares(s, c.t);
      } else if l.k < ARENAS {
        PerformElsewhere(s, c.t, l, ActOf(s, s.arenas[l.k], l, c.sys));
      }
    }
  }

  lemma PerformElsewhere(s: State, t: nat, l: Local, act: Act)
    requires t < |s.threads| && l.Work? && l.k < |s.arenas| && l.k < |s.locks|
    ensures var s' := Perform(s, t, l, act);
      |s'.arenas| == |s.arenas| && forall j :: 0 <= j < |s.arenas| && j != l.k ==> s'.arenas[j] == s.arenas[j]
  {
    hide Done, AfterStore, Rehomed, Grown, AfterPlan, Advanced, AppendPlan;
  }

  // ---- No deadlock ----

  /** Whenever some call is under way, some thread can take a step: the locks of the arenas and the lock of
      `sbrk`, taken in this order, never deadlock.  A thread that can take a step is not where it was after it. */
  lemma NoDeadlock(s: State, t: nat) returns (u: nat)
    requires Inv(s) && t < |s.threads| && !s.threads[t].Idle?
    ensures |s.arenas| == |s.locks| == ARENAS && u < |s.threads| && CanStep(s, u)
    ensures forall sys :: Step(s, Go(u, sys)) != s
  {
    hide *;
    InvSizes(s);
    u := SomeCan(s, t);
    forall sys ensures Step(s, Go(u, sys)) != s { StepDoes(s, u, sys); }
  }

  lemma SomeCan(s: State, t: nat) returns (u: nat)
    requires Inv(s) && t < |s.threads| && !s.threads[t].Idle?
    ensures u < |s.threads| && CanStep(s, u)
  {
    InvParts(s);
    InvSizes(s);
    u := t;
    if s.threads[u].Want? {
      WantsArena(s, u);
      if s.locks[s.threads[u].k].Some? { u := s.locks[s.threads[u].k].value; }
    }
    hide Inv, ArenasOk, HomesOk, LiveOk, HandsApart, Sizes;
    if s.threads[u].Work? && s.threads[u].pc.Wait? && s.sbrkLock.Some? {
      u := s.sbrkLock.value;
    }
  }

  /** A step that is not blocked changes something. */
  lemma StepDoes(s: State, t: nat, sys: Kernel)
    requires Inv(s) && t < |s.threads| && CanStep(s, t)
    ensures |s.arenas| == |s.locks| == ARENAS && Step(s, Go(t, sys)) != s
  {
    hide *;
    InvSizes(s);
    if s.threads[t].Work? {
      StepDrops(s, t, sys);
      CannotIdle(s, t);
    } else {
      if s.threads[t].ReadArena? { ReadFacts(s, t); }
      if s.threads[t].Want? { WantsArena(s, t); }
      Approaches(s, t, sys);
    }
  }

  lemma CannotIdle(s: State, t: nat)
    ensures t < |s.threads| && CanStep(s, t) ==> !s.threads[t].Idle?
  {
  }

  lemma Approaches(s: State, t: nat, sys: Kernel)
    requires |s.arenas| == |s.locks| == ARENAS && t < |s.threads| && CanStep(s, t) && !s.threads[t].Work?
    requires s.threads[t].ReadArena? ==> Loadable(s.mem, Header0(Target(s.threads[t].goal)))
    requires s.threads[t].Want? ==> s.threads[t].k < ARENAS
    ensures Step(s, Go(t, sys)) != s
  {
    hide Load;
    assert Step(s, Go(t, sys)).threads[t] != s.threads[t];
  }

  // ---- Over whole runs ----

  /** The steps of thread `t` from step `j` on, before step `k`, that are not blocked. */
  ghost function OwnSteps(s: State, cs: seq<Choice>, t: nat, j: nat, k: nat): nat
    requires Inv(s) && t < |s.threads| && j <= k <= |cs|
    decreases k
  {
    if k == j then 0
    else OwnSteps(s, cs, t, j, k - 1) + if cs[k - 1].Go? && cs[k - 1].t == t && CanStep(StateAt(s, cs, k - 1), t) then 1 else 0
  }

  /** The thread is in its arena from step `j` to step `k`. */
  ghost predicate InArena(s: State, cs: seq<Choice>, t: nat, j: nat, k: nat)
    requires Inv(s) && t < |s.threads| && j <= k <= |cs|
  {
    forall q {:trigger StateAt(s, cs, q)} :: j <= q <= k ==> StateAt(s, cs, q).threads[t].Work?
  }

  lemma InArenaParts(s: State, cs: seq<Choice>, t: nat, j: nat, k: nat)
    requires Inv(s) && t < |s.threads| && j <= k <= |cs| && InArena(s, cs, t, j, k)
    ensures StateAt(s, cs, k).threads[t].Work? && StateAt(s, cs, j).threads[t].Work?
    ensures j < k ==> InArena(s, cs, t, j, k - 1)
  {
    hide Inv;
  }

  ghost function Left(s: State, t: nat): nat
    requires |s.arenas| == ARENAS && t < |s.threads|
  {
    if s.threads[t].Work? && s.threads[t].k < ARENAS then StepsLeft(s.arenas[s.threads[t].k], s.threads[t]) else 0
  }

  /** Each step of a run that thread `t` takes in its arena is paid for. */
  lemma OneStep(s: State, t: nat, c: Choice)
    requires Inv(s) && t < |s.threads| && s.threads[t].Work?
    ensures |s.arenas| == |s.locks| == ARENAS && |Step(s, c).arenas| == ARENAS && |Step(s, c).threads| == |s.threads|
    ensures Step(s, c).threads[t].Work? || Step(s, c).threads[t].Idle?
    ensures Left(Step(s, c), t) + (if c.Go? && c.t == t && CanStep(s, t) then 1 else 0) <= Left(s, t)
  {
    hide *;
    WorkFacts(s, t);
    if c.Go? && c.t == t {
      IsGo(c);
      if CanStep(s, t) {
        StepDrops(s, t, c.sys);
        InsideFacts(s, s.arenas[s.threads[t].k], s.threads[t]);
        StepsNeeded(s.arenas[s.threads[t].k], s.threads[t]);
        LeftLess(s, Step(s, c), t);
      } else {
        BlockedStays(s, t, c.sys);
      }
    } else {
      OthersStay(s, t, c);
      LeftSame(s, Step(s, c), t);
    }
  }

  lemma StepsNeeded(a: Arena, l: Local)
    requires l.Work? && (l.pc.Storing? ==> Resumes(l.pc.next))
    ensures StepsLeft(a, l) > 0
  {
    hide Behind;
  }

  lemma LeftLess(s: State, s': State, t: nat)
    requires |s.arenas| == |s'.arenas| == ARENAS && t < |s.threads| == |s'.threads| && s.threads[t].Work? && s.threads[t].k < ARENAS
    requires var l, l' := s.threads[t], s'.threads[t];
      l'.Idle? || (l'.Work? && l'.k == l.k && StepsLeft(s'.arenas[l.k], l') < StepsLeft(s.arenas[l.k], l))
    requires StepsLeft(s.arenas[s.threads[t].k], s.threads[t]) > 0
    ensures Left(s', t) < Left(s, t)
  {
    hide StepsLeft;
  }

  lemma LeftSame(s: State, s': State, t: nat)
    requires |s.arenas| == |s'.arenas| == ARENAS && t < |s.threads| == |s'.threads| && s.threads[t].Work? && s.threads[t].k < ARENAS
    requires s'.threads[t] == s.threads[t] && s'.arenas[s.threads[t].k] == s.arenas[s.threads[t].k]
    ensures Left(s', t) == Left(s, t)
  {
    hide StepsLeft;
  }

  /** A thread that waits in vain changes nothing. */
  lemma BlockedStays(s: State, t: nat, sys: Kernel)
    requires |s.arenas| == |s.locks| == ARENAS && t < |s.threads| && s.threads[t].Work? && s.threads[t].k < ARENAS && !CanStep(s, t)
    ensures Step(s, Go(t, sys)) == s
  {
    hide Seek, Start0, Merge, Refit, FreedPlan, SplitPlan, JoinPlan, Refuses;
  }

  lemma {:induction false} SectionSteps(s: State, cs: seq<Choice>, t: nat, j: nat, k: nat)
    requires Inv(s) && t < |s.threads| && j <= k <= |cs| && InArena(s, cs, t, j, k)
    ensures |StateAt(s, cs, j).arenas| == |StateAt(s, cs, k).arenas| == ARENAS
    ensures OwnSteps(s, cs, t, j, k) + Left(StateAt(s, cs, k), t) <= Left(StateAt(s, cs, j), t)
    decreases k
  {
    hide *;
    InvSizes(StateAt(s, cs, j));
    InvSizes(StateAt(s, cs, k));
    NextOwn(s, cs, t, j, k);
    if j < k {
      InArenaParts(s, cs, t, j, k);
      SectionSteps(s, cs, t, j, k - 1);
      InArenaParts(s, cs, t, j, k - 1);
      NextState(s, cs, k);
      OneStep(StateAt(s, cs, k - 1), t, cs[k - 1]);
    }
  }

  lemma NextOwn(s: State, cs: seq<Choice>, t: nat, j: nat, k: nat)
    requires Inv(s) && t < |s.threads| && j <= k <= |cs|
    ensures j == k ==> OwnSteps(s, cs, t, j, k) == 0
    ensures j < k ==>
      OwnSteps(s, cs, t, j, k) == OwnSteps(s, cs, t, j, k - 1) + if cs[k - 1].Go? && cs[k - 1].t == t && CanStep(StateAt(s, cs, k - 1), t) then 1 else 0
  {
    hide Inv, StateAt, CanStep;
  }

  lemma LeftAtBegin(s: State, t: nat)
    requires Inv(s) && t < |s.threads| && s.threads[t].Work? && s.threads[t].pc.Begin?
    ensures |s.arenas| == ARENAS && s.threads[t].k < ARENAS
    ensures Left(s, t) == |s.arenas[s.threads[t].k].blocks| + Moves(s.threads[t].goal) + 30
  {
    WorkFacts(s, t);
    InsideFacts(s, s.arenas[s.threads[t].k], s.threads[t]);
    QuietTarget(s, s.threads[t].k);
    hide Inv, ArenaInv, WorkOk, MineOk, Moves;
  }

  /** From the moment that a thread enters its arena with step `j`, until it leaves it with step `i` or is
      still inside after it, the number of its own steps that are not blocked is at most the length of the
      list, plus the bytes that a move asks for, plus 30, whatever others do. */
  lemma ArenaIsLeft(s: State, cs: seq<Choice>, t: nat, j: nat, i: nat)
    requires Inv(s) && t < |s.threads| && j <= i < |cs| && InArena(s, cs, t, j, i) && StateAt(s, cs, j).threads[t].pc.Begin?
    ensures var r := StateAt(s, cs, j);
      && r.threads[t].Work? && |r.arenas| == ARENAS && r.threads[t].k < ARENAS
      && OwnSteps(s, cs, t, j, i + 1) <= |r.arenas[r.threads[t].k].blocks| + Moves(r.threads[t].goal) + 30
  {
    hide *;
    InArenaParts(s, cs, t, j, i);
    SectionSteps(s, cs, t, j, i);
    LeftAtBegin(StateAt(s, cs, j), t);
    NextState(s, cs, i + 1);
    NextOwn(s, cs, t, j, i + 1);
    OneStep(StateAt(s, cs, i), t, cs[i]);
  }
}
