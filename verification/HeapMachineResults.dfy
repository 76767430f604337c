/**
What the calls of the allocator's machine hand back, under every schedule: the answer of `malloc` and
`realloc` is an allocation with room for what was asked that nobody else has, `free` hands back nothing, and
`realloc` keeps the bytes.
*/
module HeapMachineResults {
  import opened Bytes
  import opened FlatMemory
  import opened BlockLists
  import opened ArenaMemory
  import opened HeapViews
  import opened ArenaEdits
  import opened Options
  import opened HeapMachine
  import opened HeapMachineSteps
  import opened HeapMachineInv
  import opened HeapMachineRuns
  import opened HeapMachineCalls
  import opened HeapMachineProgress

  // ---- What a call has in its hands ----

  function Given(res: nat): set<nat> {
    if res != 0 then {res} else {}
  }

  /** What a call hands back: its answer, or the block that it could not move. */
  function HandedBack(goal: Goal, res: nat): set<nat> {
    if res == 0 && goal.Move? then {goal.p} else Given(res)
  }

  /** The allocations that a call answers for, by where it stands; `stored` tells whether its stores are made. */
  function HandsAt(goal: Goal, pc: Pc, stored: bool): set<nat> {
    match pc
    case Got(q) => Held0(goal) + {q + HEADER}
    case CopyByte(q, _) => Held0(goal) + {q + HEADER}
    case Cut(base) => Held0(goal) + if stored then {base + HEADER} else {}
    case MergeNext(res) => Given(res)
    case MergePrev(res) => Given(res)
    case Leave(res) => HandedBack(goal, res)
    case _ => Held0(goal)
  }

  /** Only a move has an answer when it merges, and a release never has one. */
  predicate Sensible(goal: Goal, pc: Pc) {
    && (pc.MergeNext? || pc.MergePrev? ==> (goal.Move? ==> pc.res != 0) && (goal.Release? ==> pc.res == 0))
    && (pc.Leave? ==> goal.Release? ==> pc.res == 0)
    && (!pc.Begin? && !pc.MergeNext? && !pc.MergePrev? && !pc.Leave? ==> !goal.Release?)
    && (pc.CopyByte? || pc.Fit? ==> goal.Move?)
  }

  predicate HandsOk(l: Local) {
    l.Work? ==>
      && Sensible(l.goal, Ahead(l.pc)) && l.mine == HandsAt(l.goal, Ahead(l.pc), !l.pc.Storing?)
      && (l.pc.Storing? && l.goal.Move? ==> l.pc.next != Leave(0))
  }

  lemma EarlyHands(s: State, t: nat, a: Arena, l: Local, act: Act)
    requires l.Work? && OutsideAct(a, s.mem, l, act) && HandsOk(l) && Outside(l.pc)
    requires l.pc.Begin? || l.pc.Search? || l.pc.Mark? || l.pc.Cut? || (l.pc.Fit? && Target(l.goal) != 0)
    ensures HandsOk(Moved(s, a, t, l, act))
  {
    hide SplitPlan, JoinPlan, FreedPlan, Load, Refuses, Size;
  }

  lemma LateHands(s: State, t: nat, a: Arena, l: Local, act: Act)
    requires l.Work? && OutsideAct(a, s.mem, l, act) && HandsOk(l) && Outside(l.pc)
    requires !l.pc.Begin? && !l.pc.Search? && !l.pc.Fit? && !l.pc.Mark? && !l.pc.Cut?
    requires l.pc.CopyByte? ==> l.goal.Move? && l.goal.p != l.pc.q + HEADER
    ensures HandsOk(Moved(s, a, t, l, act))
  {
    hide SplitPlan, JoinPlan, FreedPlan, Load, Refuses, Size, Start0, Seek, Refit, Header0;
  }

  lemma InsideHands(s: State, t: nat, a: Arena, l: Local, sys: Kernel)
    requires l.Work? && !Outside(l.pc) && HandsOk(l) && (l.pc.Storing? ==> Resumes(l.pc.next))
    ensures HandsOk(Moved(s, a, t, l, ActOf(s, a, l, sys)))
  {
    hide SplitPlan, JoinPlan, FreedPlan, Load, Refuses, Seek, Start0, Merge, Refit, Size;
    if l.pc.Storing? { assert !l.pc.next.Cut? ==> l.mine + Pinned(l.pc.next) == l.mine; }
  }

  lemma MovedCall(s: State, t: nat, a: Arena, l: Local, sys: Kernel)
    requires l.Work?
    ensures var l' := Moved(s, a, t, l, ActOf(s, a, l, sys)); l'.Idle? || (l'.Work? && l'.goal == l.goal && l'.k == l.k)
  {
    hide SplitPlan, JoinPlan, FreedPlan, Load, Refuses, Size, Target, Header0;
  }

  /** Every own step in the arena keeps the hands, and the call. */
  lemma WorkHands(s: State, t: nat, sys: Kernel)
    requires Inv(s) && t < |s.threads| && s.threads[t].Work? && HandsOk(s.threads[t])
    ensures |s.arenas| == |s.locks| == ARENAS && |Step(s, Go(t, sys)).threads| == |s.threads|
    ensures var l, l' := s.threads[t], Step(s, Go(t, sys)).threads[t];
      HandsOk(l') && (l'.Idle? || (l'.Work? && l'.goal == l.goal && l'.k == l.k))
  {
    hide *;
    HoldsSbrk(s, t);
    WorkStep(s, t, sys);
    var l := s.threads[t];
    var a := s.arenas[l.k];
    MovedCall(s, t, a, l, sys);
    Place(l);
    if Outside(l.pc) {
      RestIntro(s, t);
      RestActs(s, a, l, sys);
      if l.pc.CopyByte? { GotFacts(s, t); }
      if l.pc.Fit? { FitNotNull(s, t); }
      if l.pc.Begin? || l.pc.Search? || l.pc.Fit? || l.pc.Mark? || l.pc.Cut? {
        EarlyHands(s, t, a, l, ActOf(s, a, l, sys));
      } else {
        LateHands(s, t, a, l, ActOf(s, a, l, sys));
      }
    } else {
      InsideHands(s, t, a, l, sys);
    }
  }

  lemma FitNotNull(s: State, t: nat)
    requires AtRest(s, t) && s.threads[t].pc.Fit?
    ensures Target(s.threads[t].goal) != 0
  {
    hide *;
    RestIs(s, t);
    FitFacts(s, t);
    GoalParts(s.threads[t].goal);
    MineHome(s, t);
    BelowBase(s, s.threads[t].goal.p);
  }

  /** The thread carries out this call. */
  predicate Serves(l: Local, goal: Goal) {
    !l.Idle? && l.goal == goal && (!l.Work? ==> l.mine == Held0(goal)) && HandsOk(l)
  }

  lemma BegunServes(k: nat, goal: Goal)
    ensures Serves(Begun(k, goal), goal)
  {
  }

  lemma EnterServes(l: Local, l': Local, goal: Goal)
    requires Serves(l, goal) && !l.Work? && !l'.Idle? && l'.goal == l.goal && l'.mine == l.mine
    requires l'.Want? || (l.Want? && l' == Work(l.k, l.goal, l.mine, 0, Begin))
    ensures Serves(l', goal)
  {
  }

  lemma WorkServes(l: Local, l': Local, goal: Goal)
    requires l.Work? && l'.Work? && Serves(l, goal) && HandsOk(l') && l'.goal == l.goal
    ensures Serves(l', goal)
  {
    hide HandsAt;
  }

  lemma ServesParts(l: Local, goal: Goal)
    requires Serves(l, goal)
    ensures !l.Idle? && l.goal == goal && HandsOk(l) && (!l.Work? ==> l.mine == Held0(goal))
  {
    hide HandsOk;
  }

  /** A thread carries out the call that it began, until it returns. */
  lemma {:induction false} InCallServes(s: State, cs: seq<Choice>, t: nat, goal: Goal, j: nat, k: nat)
    requires Inv(s) && t < |s.threads| && j < k <= |cs| && InCall(s, cs, t, goal, j, k)
    ensures Serves(StateAt(s, cs, k).threads[t], goal)
    decreases k
  {
    hide *;
    InCallParts(s, cs, t, goal, j, k);
    NextState(s, cs, k);
    var r, c := StateAt(s, cs, k - 1), cs[k - 1];
    if c.Go? && c.t == t && r.threads[t].Work? {
      InCallServes(s, cs, t, goal, j, k - 1);
      ServesParts(r.threads[t], goal);
      IsGo(c);
      WorkHands(r, t, c.sys);
      WorkServes(r.threads[t], StateAt(s, cs, k).threads[t], goal);
    } else {
      LocalStep(r, c, t);
      if c.Start? { BegunServes(c.k, c.goal); }
      if j + 1 < k {
        InCallServes(s, cs, t, goal, j, k - 1);
        var l, l' := r.threads[t], StateAt(s, cs, k).threads[t];
        if l' != l { EnterServes(l, l', goal); }
      }
    }
  }

  /** A call returns out of its arena, and hands back its answer: null, or an allocation with room for what
      was asked, which is nobody else's.  A move that fails hands back its block, and a release nothing. */
  lemma CallReturns(s: State, cs: seq<Choice>, t: nat, goal: Goal, j: nat, i: nat) returns (res: nat)
    requires Inv(s) && t < |s.threads| && j < i < |cs| && Returns(s, cs, t, goal, j, i)
    ensures var l, r, r' := StateAt(s, cs, i).threads[t], StateAt(s, cs, i), StateAt(s, cs, i + 1);
      && l.Work? && l.goal == goal && l.pc == Leave(res) && l.k < ARENAS && |r.locks| == |r'.locks| == ARENAS
      && r'.locks == r.locks[l.k := None]
      && r'.live == r.live + HandedBack(goal, res) && HandedBack(goal, res) !! r.live
      && (goal.Release? ==> res == 0)
      && (res != 0 ==> exists n: nat :: Size(goal) <= n && InUse(r', res, n))
  {
    hide *;
    ReturnsParts(s, cs, t, goal, j, i);
    InCallServes(s, cs, t, goal, j, i);
    InCallParts(s, cs, t, goal, j, i);
    NextState(s, cs, i + 1);
    var r, c := StateAt(s, cs, i), cs[i];
    var l := r.threads[t];
    LastStep(r, c, t);
    IsGo(c);
    ServesParts(l, goal);
    res := l.pc.res;
    LeaveHands(l, res);
    FinishStep(r, t, c.sys);
    InvSizes(StateAt(s, cs, i + 1));
    OnlyHolderLive(r, t);
    MineOf(l);
    if res != 0 { Answered(r, StateAt(s, cs, i + 1), t, res); }
  }

  lemma LeaveHands(l: Local, res: nat)
    requires l.Work? && HandsOk(l) && l.pc.Leave?  && l.pc.res == res
    ensures l.pc == Leave(res) && l.mine == HandedBack(l.goal, res) && (l.goal.Release? ==> res == 0)
  {
  }

  lemma FinishStep(s: State, t: nat, sys: Kernel)
    requires |s.arenas| == |s.locks| == ARENAS && t < |s.threads| && s.threads[t].Work? && s.threads[t].pc.Leave? && s.threads[t].k < ARENAS
    ensures var l := s.threads[t];
      Step(s, Go(t, sys)) == s.(locks := s.locks[l.k := None], live := s.live + l.mine, threads := s.threads[t := Idle])
  {
  }

  lemma Answered(s: State, s': State, t: nat, res: nat)
    requires Inv(s) && t < |s.threads| && s.threads[t].Work? && s.threads[t].pc == Leave(res) && res != 0 && s.threads[t].k < ARENAS == |s.arenas|
    requires s'.home == s.home && s'.arenas == s.arenas
    ensures exists n: nat :: Size(s.threads[t].goal) <= n && InUse(s', res, n)
  {
    WorkFacts(s, t);
    LeaveFacts(s, s.arenas[s.threads[t].k], s.threads[t]);
    MineHome(s, t);
    hide Inv, ArenaInv, WorkOk, LiveIn;
    var n: nat :| Size(s.threads[t].goal) <= n && LiveIn(s.arenas[s.threads[t].k].target, res, n);
    assert InUse(s', res, n);
  }

  lemma LeaveFacts(s: State, a: Arena, l: Local)
    requires l.Work? && l.pc.Leave? && WorkOk(s, a, l)
    ensures Answers(a.target, l, l.pc.res)
  {
    hide Answers;
  }
}
