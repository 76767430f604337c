/**
The calls of the allocator's machine over whole runs: a call that extends the heap takes and releases the
lock of `sbrk` exactly once, on both ways to it.
*/
module HeapMachineCalls {
  import opened Bytes
  import opened FlatMemory
  import opened BlockLists
  import opened HeapViews
  import opened ArenaEdits
  import opened Options
  import opened HeapMachine
  import opened HeapMachineSteps
  import opened HeapMachineInv
  import opened HeapMachineRuns

  // ---- Where a step leads ----

  /** Where a thread in its arena stands after its step. */
  function Moved(s: State, a: Arena, t: nat, l: Local, act: Act): Local
    requires l.Work?
  {
    match act
    case Goto(pc) => l.(pc := pc)
    case Plan(_, _, _, _) => AfterPlan(l, act)
    case MakeStore => if a.todo == [] then l else AfterStore(l, |a.todo| == 1)
    case TakeSbrk => l.(pc := ReadReserve)
    case SetContended => l.(pc := Wait)
    case GiveSbrk(pc) => l.(pc := pc)
    case Extend(base, _) => l.(pc := Unlock(base))
    case Copy(_, _, pc) => l.(pc := pc)
    case Finish => Idle
    case Spin => l
  }

  /** The step of a thread in its arena, as far as the thread and the locks go. */
  lemma WorkStep(s: State, t: nat, sys: Kernel)
    requires |s.arenas| == |s.locks| == ARENAS && t < |s.threads| && s.threads[t].Work? && s.threads[t].k < ARENAS
    ensures var l, a, s' := s.threads[t], s.arenas[s.threads[t].k], Step(s, Go(t, sys));
      var act := ActOf(s, a, l, sys);
      && s' == Perform(s, t, l, act)
      && |s'.threads| == |s.threads| && s'.threads[t] == Moved(s, a, t, l, act)
      && s'.sbrkLock == (if act.TakeSbrk? then Some(t) else if act.GiveSbrk? then None else s.sbrkLock)
      && s'.contended == (s.contended || act.SetContended?)
  {
    hide ActOf, Done, AfterStore, Advanced, Rehomed, Grown, AppendPlan, AfterPlan;
  }

  // ---- The lock of sbrk is taken once and released once ----

  /** How far a call is with the extension of the heap. */
  datatype Stage = Before | Asking | Locked | After

  function StageOf(pc: Pc): Stage {
    match pc
    case Begin => Before
    case Search(_) => Before
    case Mark(_) => Before
    case Fit => Before
    case ReadFlag => Before
    case TryLock => Asking
    case MarkContended => Asking
    case Wait => Asking
    case ReadReserve => Locked
    case ReadBrk(_) => Locked
    case WriteBrk(_, _) => Locked
    case Unlock(_) => Locked
    case Storing(next) => StageOf(next)
    case _ => After
  }

  /** What happened in a call: visits to the extension of the heap, and how often the thread came to hold
      the lock of `sbrk`, came to hold it after waiting, and ceased to hold it. */
  datatype Tally = Tally(asked: nat, taken: nat, waited: nat, given: nat)

  function Once(b: bool): nat {
    if b then 1 else 0
  }

  predicate Takes(s: State, s': State, t: nat) {
    s.sbrkLock != Some(t) && s'.sbrkLock == Some(t)
  }

  predicate Gives(s: State, s': State, t: nat) {
    s.sbrkLock == Some(t) && s'.sbrkLock != Some(t)
  }

  predicate AtPc(s: State, c: Choice, t: nat, flag: bool) {
    c.Go? && c.t == t && t < |s.threads| && s.threads[t].Work? && if flag then s.threads[t].pc.ReadFlag? else s.threads[t].pc.Wait?
  }

  function Counted(y: Tally, s: State, c: Choice, s': State, t: nat): Tally {
    Tally(y.asked + Once(AtPc(s, c, t, true)), y.taken + Once(Takes(s, s', t)),
          y.waited + Once(Takes(s, s', t) && AtPc(s, c, t, false)), y.given + Once(Gives(s, s', t)))
  }

  /** The events of thread `t` in the steps from `j` on, before step `k`. */
  ghost function TallyOf(s: State, cs: seq<Choice>, t: nat, j: nat, k: nat): Tally
    requires Inv(s) && j <= k <= |cs|
    decreases k
  {
    if k == j then Tally(0, 0, 0, 0)
    else Counted(TallyOf(s, cs, t, j, k - 1), StateAt(s, cs, k - 1), cs[k - 1], StateAt(s, cs, k), t)
  }

  /** What has happened, by where the call stands. */
  predicate TallyOk(y: Tally, l: Local, contended: bool) {
    && y.waited <= y.taken
    && (l.Work? && l.pc.Wait? ==> contended)
    && (l.Work? && (l.pc.ReadReserve? || l.pc.ReadBrk?) && y.waited == 1 ==> contended)
    && (l.Work? && (l.pc.ReadBrk? || l.pc.WriteBrk?) && y.waited == 1 ==> l.pc.reserve == RESERVE)
    && (l.Work? && (l.pc.ReadBrk? || l.pc.WriteBrk?) ==> l.pc.reserve == 0 || (l.pc.reserve == RESERVE && contended))
    && (if !l.Work? || StageOf(l.pc) == Before then y == Tally(0, 0, 0, 0)
        else if StageOf(l.pc) == Asking then y == Tally(1, 0, 0, 0)
        else if StageOf(l.pc) == Locked then y.asked == y.taken == 1 && y.given == 0
        else y.asked == y.taken == y.given <= 1)
  }

  /** Which acts belong to which places. */
  lemma ActPlaces(s: State, a: Arena, l: Local, sys: Kernel)
    requires l.Work?
    ensures var act := ActOf(s, a, l, sys);
      && (act.TakeSbrk? <==> (l.pc.TryLock? || l.pc.Wait?) && s.sbrkLock.None?)
      && (act.GiveSbrk? <==> l.pc.Unlock?) && (act.GiveSbrk? ==> StageOf(act.pc) == After)
      && (act.SetContended? <==> l.pc.MarkContended?) && (act.Extend? <==> l.pc.WriteBrk?)
      && (act.Spin? <==> l.pc.Wait? && s.sbrkLock.Some?)
      && (act.MakeStore? <==> l.pc.Storing?) && (act.Finish? <==> l.pc.Leave?)
  {
    hide FreedPlan, SplitPlan, JoinPlan, Refuses, Size, Target, Header0, Load;
  }

  lemma PlanPlaces(s: State, a: Arena, l: Local, sys: Kernel)
    requires l.Work?
    ensures var act := ActOf(s, a, l, sys);
      act.Plan? || act.Goto? || act.Copy? ==>
        && (StageOf(act.pc) == StageOf(l.pc) || (StageOf(l.pc) == Before && StageOf(act.pc) == After) || (l.pc.ReadFlag? && StageOf(act.pc) == Asking))
        && (act.Plan? ==> !l.pc.ReadFlag?) && (l.pc.ReadFlag? ==> StageOf(act.pc) == Asking) && !act.pc.Wait? && !act.pc.ReadReserve?
        && (act.pc.ReadBrk? ==> l.pc.ReadReserve? && act.pc.reserve == if s.contended then RESERVE else 0)
        && (act.pc.WriteBrk? ==> l.pc.ReadBrk? && act.pc.reserve == l.pc.reserve)
  {
    hide FreedPlan, SplitPlan, JoinPlan, Refuses, Size, Target, Header0, Load;
  }

  /** The stage after a step. */
  ghost predicate Advances(l: Local, l': Local, act: Act) {
    && l.Work? && (act.Finish? <==> l'.Idle?) && (!act.Finish? ==> l'.Work?)
    && (act.Finish? ==> StageOf(l.pc) == After)
    && (act.TakeSbrk? ==> StageOf(l.pc) == Asking && l'.pc.ReadReserve?)
    && (act.GiveSbrk? ==> StageOf(l.pc) == Locked && StageOf(l'.pc) == After)
    && (!act.TakeSbrk? && !act.GiveSbrk? && !act.Finish? ==>
          && (if l.pc.ReadFlag? then StageOf(l'.pc) == Asking
              else StageOf(l'.pc) == StageOf(l.pc) || (StageOf(l.pc) == Before && StageOf(l'.pc) == After))
          && (l'.pc.Wait? ==> l.pc.MarkContended? || l.pc.Wait?) && !l'.pc.ReadReserve?
          && (l'.pc.WriteBrk? ==> l.pc.ReadBrk? && l'.pc.reserve == l.pc.reserve))
  }

  lemma StageMoves(s: State, a: Arena, t: nat, l: Local, sys: Kernel)
    requires l.Work? && (l.pc.Storing? ==> Resumes(l.pc.next))
    ensures var act := ActOf(s, a, l, sys);
      var l' := Moved(s, a, t, l, act);
      Advances(l, l', act) && (!act.TakeSbrk? && l'.Work? && l'.pc.ReadBrk? ==> l.pc.ReadReserve? && l'.pc.reserve == if s.contended then RESERVE else 0)
  {
    ActPlaces(s, a, l, sys);
    PlanPlaces(s, a, l, sys);
    hide ActOf;
  }

  lemma HoldsSbrk(s: State, t: nat)
    requires Inv(s) && t < |s.threads| && s.threads[t].Work?
    ensures |s.arenas| == |s.locks| == ARENAS && s.threads[t].k < ARENAS
    ensures s.threads[t].pc.Storing? ==> Resumes(s.threads[t].pc.next)
    ensures s.sbrkLock == Some(t) <==> StageOf(s.threads[t].pc) == Locked
  {
    WorkFacts(s, t);
    InvParts(s);
    hide Inv, ArenasOk, HomesOk, LiveOk, HandsApart, Sizes, LocksOk, ArenaInv, Expects, Fresh, InList, MineOk;
  }

  lemma NotHolding(s: State, t: nat)
    requires Inv(s) && t < |s.threads| && !s.threads[t].Work?
    ensures s.sbrkLock != Some(t)
  {
    InvParts(s);
    hide Inv, ArenasOk, HomesOk, LiveOk, HandsApart, Sizes, LocksOk;
  }

  /** The tally after a step of the thread in its arena. */
  lemma WorkTally(y: Tally, s: State, t: nat, sys: Kernel)
    requires Inv(s) && t < |s.threads| && s.threads[t].Work? && TallyOk(y, s.threads[t], s.contended)
    ensures |s.arenas| == |s.locks| == ARENAS && |Step(s, Go(t, sys)).threads| == |s.threads|
    ensures var s' := Step(s, Go(t, sys));
      var y' := Counted(y, s, Go(t, sys), s', t);
      if s'.threads[t].Idle? then y'.asked == y'.taken == y'.given <= 1 else TallyOk(y', s'.threads[t], s'.contended)
  {
    hide *;
    HoldsSbrk(s, t);
    WorkStep(s, t, sys);
    var l, a := s.threads[t], s.arenas[s.threads[t].k];
    StageMoves(s, a, t, l, sys);
    ActPlaces(s, a, l, sys);
    TallyMoves(y, s, Step(s, Go(t, sys)), t, sys, ActOf(s, a, l, sys));
  }

  lemma TallyMoves(y: Tally, s: State, s': State, t: nat, sys: Kernel, act: Act)
    requires t < |s.threads| == |s'.threads| && s.threads[t].Work? && TallyOk(y, s.threads[t], s.contended)
    requires s.sbrkLock == Some(t) <==> StageOf(s.threads[t].pc) == Locked
    requires s'.sbrkLock == (if act.TakeSbrk? then Some(t) else if act.GiveSbrk? then None else s.sbrkLock)
    requires s'.contended == (s.contended || act.SetContended?)
    requires var l, l' := s.threads[t], s'.threads[t];
      && Advances(l, l', act) && (act.SetContended? <==> l.pc.MarkContended?) && (act.GiveSbrk? <==> l.pc.Unlock?)
      && (act.TakeSbrk? ==> l.pc.TryLock? || l.pc.Wait?)
      && (!act.TakeSbrk? && l'.Work? && l'.pc.ReadBrk? ==> l.pc.ReadReserve? && l'.pc.reserve == if s.contended then RESERVE else 0)
    ensures var y' := Counted(y, s, Go(t, sys), s', t);
      if s'.threads[t].Idle? then y'.asked == y'.taken == y'.given <= 1 else TallyOk(y', s'.threads[t], s'.contended)
  {
    hide StageOf;
    StagesOfPcs(s.threads[t].pc);
    if s'.threads[t].Work? { StagesOfPcs(s'.threads[t].pc); }
  }

  lemma StagesOfPcs(pc: Pc)
    ensures pc.ReadFlag? ==> StageOf(pc) == Before
    ensures pc.TryLock? || pc.MarkContended? || pc.Wait? ==> StageOf(pc) == Asking
    ensures pc.ReadReserve? || pc.ReadBrk? || pc.WriteBrk? || pc.Unlock? ==> StageOf(pc) == Locked
  {
  }

  /** A step of anybody else is no event of thread `t`. */
  lemma OtherTally(y: Tally, s: State, t: nat, c: Choice)
    requires Inv(s) && t < |s.threads| && (c.t != t || !c.Go? || !s.threads[t].Work?)
    ensures |s.arenas| == |s.locks| == ARENAS
    ensures Counted(y, s, c, Step(s, c), t) == y && (s.contended ==> Step(s, c).contended)
  {
    hide *;
    InvSizes(s);
    LockStep(s, c);
    if t == c.t && !s.threads[t].Work? { NotHolding(s, t); }
    CountsNothing(y, s, c, Step(s, c), t);
  }

  lemma CountsNothing(y: Tally, s: State, c: Choice, s': State, t: nat)
    requires !(c.Go? && c.t == t && t < |s.threads| && s.threads[t].Work?) && !Takes(s, s', t) && !Gives(s, s', t)
    ensures Counted(y, s, c, s', t) == y
  {
  }

  /** Only a thread at work changes the lock of `sbrk`: it takes it when nobody has it, and gives up its own. */
  lemma LockStep(s: State, c: Choice)
    requires Inv(s)
    ensures |s.arenas| == |s.locks| == ARENAS && (s.contended ==> Step(s, c).contended)
    ensures forall t: nat :: Takes(s, Step(s, c), t) || Gives(s, Step(s, c), t) ==> c.Go? && c.t == t && t < |s.threads| && s.threads[t].Work?
  {
    hide *;
    InvSizes(s);
    if c.Go? && c.t < |s.threads| && s.threads[c.t].Work? {
      HoldsSbrk(s, c.t);
      WorkStep(s, c.t, c.sys);
      ActPlaces(s, s.arenas[s.threads[c.t].k], s.threads[c.t], c.sys);
      StageOfUnlock(s.threads[c.t].pc);
      LockMoves(s, Step(s, c), c.t, ActOf(s, s.arenas[s.threads[c.t].k], s.threads[c.t], c.sys));
    } else {
      SameSbrk(s, c);
    }
  }

  lemma StageOfUnlock(pc: Pc)
    ensures pc.Unlock? ==> StageOf(pc) == Locked
  {
  }

  lemma LockMoves(s: State, s': State, u: nat, act: Act)
    requires s'.sbrkLock == (if act.TakeSbrk? then Some(u) else if act.GiveSbrk? then None else s.sbrkLock)
    requires (act.TakeSbrk? ==> s.sbrkLock.None?) && (act.GiveSbrk? ==> s.sbrkLock == Some(u))
    ensures forall t: nat :: Takes(s, s', t) || Gives(s, s', t) ==> t == u
  {
  }

  lemma SameSbrk(s: State, c: Choice)
    requires |s.arenas| == |s.locks| == ARENAS && !(c.Go? && c.t < |s.threads| && s.threads[c.t].Work?)
    ensures s.contended ==> Step(s, c).contended
    ensures forall t: nat :: !Takes(s, Step(s, c), t) && !Gives(s, Step(s, c), t)
  {
    hide MayStart, MayPoke, Begun, Held0, Approach, Perform, ActOf;
    if c.t < |s.threads| { ApproachShares(s, c.t); }
  }

  // ---- Calls ----

  /** Thread `t` begins the call with step `j`, and is still in it before step `k`. */
  ghost predicate InCall(s: State, cs: seq<Choice>, t: nat, goal: Goal, j: nat, k: nat)
    requires Inv(s) && t < |s.threads| && j < k <= |cs|
  {
    && cs[j].Start? && cs[j].t == t && cs[j].goal == goal && StateAt(s, cs, j).threads[t].Idle?
    && forall q {:trigger StateAt(s, cs, q)} :: j < q <= k ==> !StateAt(s, cs, q).threads[t].Idle?
  }

  /** The call returns with step `i`. */
  ghost predicate Returns(s: State, cs: seq<Choice>, t: nat, goal: Goal, j: nat, i: nat)
    requires Inv(s) && t < |s.threads| && j < i < |cs|
  {
    InCall(s, cs, t, goal, j, i) && StateAt(s, cs, i + 1).threads[t].Idle?
  }

  lemma InCallParts(s: State, cs: seq<Choice>, t: nat, goal: Goal, j: nat, k: nat)
    requires Inv(s) && t < |s.threads| && j < k <= |cs| && InCall(s, cs, t, goal, j, k)
    ensures cs[j].Start? && cs[j].t == t && cs[j].goal == goal && StateAt(s, cs, j).threads[t].Idle? && !StateAt(s, cs, k).threads[t].Idle?
    ensures j + 1 < k ==> InCall(s, cs, t, goal, j, k - 1) && !StateAt(s, cs, k - 1).threads[t].Idle?
  {
    hide Inv;
  }

  /** What a step does to a thread that is not yet in its arena, or does not take the step. */
  lemma LocalStep(s: State, c: Choice, t: nat)
    requires |s.arenas| == |s.locks| == ARENAS && t < |s.threads| && !(c.Go? && c.t == t && s.threads[t].Work?)
    ensures |Step(s, c).threads| == |s.threads|
    ensures var l, l' := s.threads[t], Step(s, c).threads[t];
      || l' == l
      || (c.t == t && l.Idle? && c.Start? && l' == Begun(c.k, c.goal))
      || (c.Go? && c.t == t && !l.Idle? && !l.Work? && (l'.Want? || (l.Want? && l' == Work(l.k, l.goal, l.mine, 0, Begin))) && l'.goal == l.goal && l'.mine == l.mine)
  {
    StepThreads(s, c);
    hide MayStart, MayPoke, Begun, Perform, ActOf, Load;
  }

  /** What has happened in a call so far is told by where it stands. */
  lemma {:induction false} InCallTally(s: State, cs: seq<Choice>, t: nat, goal: Goal, j: nat, k: nat)
    requires Inv(s) && t < |s.threads| && j < k <= |cs| && InCall(s, cs, t, goal, j, k)
    ensures TallyOk(TallyOf(s, cs, t, j, k), StateAt(s, cs, k).threads[t], StateAt(s, cs, k).contended)
    decreases k
  {
    hide *;
    InCallParts(s, cs, t, goal, j, k);
    NextState(s, cs, k);
    NextTally(s, cs, t, j, k);
    var r, c := StateAt(s, cs, k - 1), cs[k - 1];
    var y := TallyOf(s, cs, t, j, k - 1);
    if j + 1 < k { InCallTally(s, cs, t, goal, j, k - 1); } else { NoTally(s, cs, t, j); }
    if c.Go? && c.t == t && r.threads[t].Work? {
      IsGo(c);
      WorkTally(y, r, t, c.sys);
    } else {
      OtherTally(y, r, t, c);
      LocalStep(r, c, t);
      BegunWaits(c);
      SameTally(y, r.threads[t], r.contended, StateAt(s, cs, k).threads[t], StateAt(s, cs, k).contended);
    }
  }

  lemma BegunWaits(c: Choice)
    ensures c.Start? ==> !Begun(c.k, c.goal).Work?
  {
  }

  lemma IsGo(c: Choice)
    requires c.Go?
    ensures c == Go(c.t, c.sys)
  {
  }

  lemma SameTally(y: Tally, l: Local, contended: bool, l': Local, contended': bool)
    requires TallyOk(y, l, contended) && (contended ==> contended')
    requires l' == l || (!l.Work? && (!l'.Work? || l'.pc.Begin?))
    ensures TallyOk(y, l', contended')
  {
  }

  lemma NextTally(s: State, cs: seq<Choice>, t: nat, j: nat, k: nat)
    requires Inv(s) && j < k <= |cs|
    ensures TallyOf(s, cs, t, j, k) == Counted(TallyOf(s, cs, t, j, k - 1), StateAt(s, cs, k - 1), cs[k - 1], StateAt(s, cs, k), t)
  {
    hide Inv, StateAt, Counted;
  }

  lemma NoTally(s: State, cs: seq<Choice>, t: nat, j: nat)
    requires Inv(s) && j <= |cs| && t < |s.threads| && StateAt(s, cs, j).threads[t].Idle?
    ensures TallyOk(TallyOf(s, cs, t, j, j), Idle, StateAt(s, cs, j).contended)
  {
    hide Inv, StateAt;
  }

  /** A call visits the extension of the heap once at most, and takes and releases the lock of `sbrk` exactly
      as often, whether it found the lock free or waited for it. */
  lemma ExactlyOnce(s: State, cs: seq<Choice>, t: nat, goal: Goal, j: nat, i: nat)
    requires Inv(s) && t < |s.threads| && j < i < |cs| && Returns(s, cs, t, goal, j, i)
    ensures var y := TallyOf(s, cs, t, j, i + 1);
      y.asked == y.taken == y.given <= 1 && y.waited <= y.taken
  {
    hide *;
    ReturnsParts(s, cs, t, goal, j, i);
    InCallTally(s, cs, t, goal, j, i);
    InCallParts(s, cs, t, goal, j, i);
    NextState(s, cs, i + 1);
    NextTally(s, cs, t, j, i + 1);
    var r, c := StateAt(s, cs, i), cs[i];
    LastStep(r, c, t);
    IsGo(c);
    WorkTally(TallyOf(s, cs, t, j, i), r, t, c.sys);
    WaitedLess(TallyOf(s, cs, t, j, i), r, c, StateAt(s, cs, i + 1), t);
  }

  lemma WaitedLess(y: Tally, s: State, c: Choice, s': State, t: nat)
    requires t < |s.threads| && TallyOk(y, s.threads[t], s.contended)
    ensures Counted(y, s, c, s', t).waited <= Counted(y, s, c, s', t).taken
  {
  }

  lemma ReturnsParts(s: State, cs: seq<Choice>, t: nat, goal: Goal, j: nat, i: nat)
    requires Inv(s) && t < |s.threads| && j < i < |cs| && Returns(s, cs, t, goal, j, i)
    ensures InCall(s, cs, t, goal, j, i) && StateAt(s, cs, i + 1).threads[t].Idle?
  {
    hide Inv, InCall;
  }

  /** A call ends with a step of its thread, out of its arena. */
  lemma LastStep(s: State, c: Choice, t: nat)
    requires Inv(s) && t < |s.threads| && !s.threads[t].Idle?
    requires |s.arenas| == |s.locks| == ARENAS && |Step(s, c).threads| == |s.threads| && Step(s, c).threads[t].Idle?
    ensures c.Go? && c.t == t && s.threads[t].Work? && s.threads[t].pc.Leave? && s.threads[t].k < ARENAS
  {
    hide *;
    if c.Go? && c.t == t && s.threads[t].Work? {
      HoldsSbrk(s, t);
      WorkStep(s, t, c.sys);
      IsGo(c);
      var l, a := s.threads[t], s.arenas[s.threads[t].k];
      StageMoves(s, a, t, l, c.sys);
      ActPlaces(s, a, l, c.sys);
      FinishIdle(l, Step(s, c).threads[t], ActOf(s, a, l, c.sys));
    } else {
      LocalStep(s, c, t);
    }
  }

  lemma FinishIdle(l: Local, l': Local, act: Act)
    requires Advances(l, l', act) && l'.Idle?
    ensures act.Finish?
  {
  }
}
