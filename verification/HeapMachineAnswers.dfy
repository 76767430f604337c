/**
What each call of the allocator's machine has done to its arena when it returns, over whole runs: exactly
what the sequential algorithm does to the list that the call found.  It answers null only if the system
refused the region at a step of the call, and between calls no two adjacent neighbours are free.
*/
module HeapMachineAnswers {
  import opened Bytes
  import opened FlatMemory
  import opened BlockLists
  import opened HeapViews
  import opened ArenaEdits
  import opened Options
  import opened HeapMachine
  import opened HeapMachineSteps
  import opened HeapMachineInv
  import opened HeapMachineRuns
  import opened HeapMachineCalls
  import opened HeapMachineProgress
  import opened HeapMachineResults
  import opened HeapMachineRefines

  // ---- The course over a run ----

  /** From the moment that a thread is in its arena it is on the course from the list that it found. */
  lemma {:induction false} RunCourse(s: State, cs: seq<Choice>, t: nat, e: nat, k: nat)
    requires Inv(s) && t < |s.threads| && e <= k <= |cs| && InArena(s, cs, t, e, k) && StateAt(s, cs, e).threads[t].pc.Begin?
    ensures var r, u := StateAt(s, cs, e), StateAt(s, cs, k);
      && r.threads[t].Work? && u.threads[t].Work? && |r.arenas| == |u.arenas| == ARENAS && u.threads[t].k == r.threads[t].k < ARENAS
      && u.threads[t].goal == r.threads[t].goal && OnCourse(r.arenas[r.threads[t].k].blocks, u.arenas[u.threads[t].k], u.threads[t])
    decreases k
  {
    hide *;
    InArenaParts(s, cs, t, e, k);
    var r := StateAt(s, cs, e);
    WorkFacts(r, t);
    if k == e {
      CourseStarts(r, t);
    } else {
      RunCourse(s, cs, t, e, k - 1);
      NextState(s, cs, k);
      InArenaParts(s, cs, t, e, k - 1);
      InvSizes(StateAt(s, cs, k));
      CourseStep(StateAt(s, cs, k - 1), cs[k - 1], t, r.arenas[r.threads[t].k].blocks);
    }
  }

  lemma CourseStarts(s: State, t: nat)
    requires Inv(s) && t < |s.threads| && s.threads[t].Work? && s.threads[t].pc.Begin?
    ensures |s.arenas| == ARENAS && s.threads[t].k < ARENAS
    ensures OnCourse(s.arenas[s.threads[t].k].blocks, s.arenas[s.threads[t].k], s.threads[t])
  {
    WorkFacts(s, t);
    InsideFacts(s, s.arenas[s.threads[t].k], s.threads[t]);
    QuietTarget(s, s.threads[t].k);
    hide Inv, ArenaInv, WorkOk, MineOk, Size, InPlace;
  }

  lemma CourseStep(s: State, c: Choice, t: nat, bs: seq<Block>)
    requires Inv(s) && t < |s.threads| && s.threads[t].Work? && s.threads[t].k < |s.arenas| == |s.locks| == ARENAS
    requires OnCourse(bs, s.arenas[s.threads[t].k], s.threads[t])
    requires |Step(s, c).threads| == |s.threads| && |Step(s, c).arenas| == ARENAS && Step(s, c).threads[t].Work?
    ensures var l, l' := s.threads[t], Step(s, c).threads[t];
      l'.k == l.k && l'.goal == l.goal && OnCourse(bs, Step(s, c).arenas[l.k], l')
  {
    hide *;
    if c.Go? && c.t == t {
      IsGo(c);
      WorkFacts(s, t);
      if s.threads[t].pc.Leave? { FinishStep(s, t, c.sys); }
      WorkCourse(s, t, c.sys, bs);
      WorkStep(s, t, c.sys);
      MovedCall(s, t, s.arenas[s.threads[t].k], s.threads[t], c.sys);
    } else {
      OthersStay(s, t, c);
    }
  }

  // ---- Refusals ----

  /** With step `q`, at which thread `t` holds the lock of `sbrk` and reads the break, the system refuses, or
      leaves the break unaligned, or header, request and reserve do not fit into memory; there is a reserve only
      after contention. */
  ghost predicate RefusedAt(s: State, cs: seq<Choice>, t: nat, n: nat, q: nat)
    requires Inv(s) && t < |s.threads| && q < |cs|
  {
    var r, c := StateAt(s, cs, q), cs[q];
    && c.Go? && c.t == t && r.threads[t].Work? && r.threads[t].pc.ReadBrk? && r.sbrkLock == Some(t)
    && var reserve := r.threads[t].pc.reserve;
    && (reserve == 0 || (reserve == 2048 && r.contended))
    && (c.sys.Deny? || c.sys.skip % 8 != 0 || r.brk + c.sys.skip + 32 + n + reserve > |r.mem|)
  }

  /** The call has been refused, or is about to return null. */
  predicate Failing(l: Local) {
    l.Work? && !l.goal.Release? && (l.pc == Unlock(0) || Ahead(l.pc) == Leave(0))
  }

  /** How a call comes to be refused. */
  lemma RefusedStep(s: State, t: nat, sys: Kernel, bs: seq<Block>)
    requires Inv(s) && t < |s.threads| && s.threads[t].Work? && !s.threads[t].pc.Leave? && s.threads[t].k < |s.arenas| == |s.locks| == ARENAS
    requires OnCourse(bs, s.arenas[s.threads[t].k], s.threads[t])
    requires |Step(s, Go(t, sys)).threads| == |s.threads| && Failing(Step(s, Go(t, sys)).threads[t])
    ensures Failing(s.threads[t]) || (s.threads[t].pc.ReadBrk? && Refuses(s, sys, Size(s.threads[t].goal) + s.threads[t].pc.reserve))
  {
    hide *;
    var l := s.threads[t];
    var a := s.arenas[l.k];
    WorkFacts(s, t);
    InsideFacts(s, a, l);
    WorkStep(s, t, sys);
    MovedCall(s, t, a, l, sys);
    Place(l);
    if Outside(l.pc) && !l.pc.Leave? {
      RestIntro(s, t);
      RestActs(s, a, l, sys);
      if l.pc.Fit? { FitNotNull(s, t); }
      OnCourseIs(bs, a, l);
      NotNull(bs, s, a, t, l, ActOf(s, a, l, sys));
    } else {
      if l.pc.WriteBrk? {
        RegionFacts(s, a, l);
        OwnerBelow(s);
      }
      InsideRefused(s, t, a, l, sys);
    }
  }

  /** A call that is not extending the heap does not come to answer null. */
  lemma NotNull(bs: seq<Block>, s: State, a: Arena, t: nat, l: Local, act: Act)
    requires l.Work? && Outside(l.pc) && !l.pc.Leave? && OutsideAct(a, s.mem, l, act) && Course(bs, l.goal, l.pc, a.target)
    requires l.pc.Fit? ==> Target(l.goal) != 0
    ensures !Failing(Moved(s, a, t, l, act))
  {
    hide SplitPlan, JoinPlan, FreedPlan, Load, Size, Header0, InPlace, TooSmall, Exchanged, Obtained, Appended, Passed, FirstFit, Where, UsedAt;
  }

  lemma InsideRefused(s: State, t: nat, a: Arena, l: Local, sys: Kernel)
    requires l.Work? && (!Outside(l.pc) || l.pc.Leave?) && (l.pc.Storing? ==> Resumes(l.pc.next)) && (l.pc.WriteBrk? ==> l.pc.base != 0)
    requires Failing(Moved(s, a, t, l, ActOf(s, a, l, sys)))
    ensures Failing(l) || (l.pc.ReadBrk? && Refuses(s, sys, Size(l.goal) + l.pc.reserve))
  {
    hide SplitPlan, JoinPlan, FreedPlan, Load, Refuses, Seek, Start0, Merge, Refit, Size, Target;
  }

  lemma RefusesMeans(s: State, sys: Kernel, n: nat, reserve: nat)
    ensures Refuses(s, sys, n + reserve) ==> sys.Deny? || sys.skip % 8 != 0 || s.brk + sys.skip + 32 + n + reserve > |s.mem|
  {
  }

  /** A call that is to answer null was refused at a step after it entered its arena. */
  lemma {:induction false} RefusedBefore(s: State, cs: seq<Choice>, t: nat, goal: Goal, j: nat, e: nat, k: nat) returns (q: nat)
    requires Inv(s) && t < |s.threads| && j < e <= k <= |cs| && InCall(s, cs, t, goal, j, k)
    requires InArena(s, cs, t, e, k) && StateAt(s, cs, e).threads[t].pc.Begin? && Failing(StateAt(s, cs, k).threads[t])
    ensures e <= q < k && RefusedAt(s, cs, t, Size(goal), q)
    decreases k
  {
    hide *;
    InArenaParts(s, cs, t, e, k);
    if k == e {
      NotYet(StateAt(s, cs, k).threads[t]);
    } else {
      InCallParts(s, cs, t, goal, j, k);
      InArenaParts(s, cs, t, e, k - 1);
      RunCourse(s, cs, t, e, k - 1);
      NextState(s, cs, k);
      var r, c := StateAt(s, cs, k - 1), cs[k - 1];
      if c.Go? && c.t == t {
        IsGo(c);
        WorkFacts(r, t);
        if r.threads[t].pc.Leave? { FinishStep(r, t, c.sys); }
        RefusedStep(r, t, c.sys, StateAt(s, cs, e).arenas[StateAt(s, cs, e).threads[t].k].blocks);
        if !Failing(r.threads[t]) {
          InCallTally(s, cs, t, goal, j, k - 1);
          InCallServes(s, cs, t, goal, j, k - 1);
          q := k - 1;
          RefusedHere(s, cs, t, goal, TallyOf(s, cs, t, j, k - 1), q);
        } else {
          q := RefusedBefore(s, cs, t, goal, j, e, k - 1);
        }
      } else {
        OthersStay(r, t, c);
        q := RefusedBefore(s, cs, t, goal, j, e, k - 1);
      }
    }
  }

  lemma NotYet(l: Local)
    requires l.Work? && l.pc.Begin?
    ensures !Failing(l)
  {
  }

  lemma RefusedHere(s: State, cs: seq<Choice>, t: nat, goal: Goal, y: Tally, q: nat)
    requires Inv(s) && t < |s.threads| && q < |cs| && cs[q].Go? && cs[q].t == t
    requires var r := StateAt(s, cs, q); var l := r.threads[t];
      && l.Work? && l.pc.ReadBrk? && Refuses(r, cs[q].sys, Size(l.goal) + l.pc.reserve)
      && TallyOk(y, l, r.contended) && Serves(l, goal)
    ensures RefusedAt(s, cs, t, Size(goal), q)
  {
    hide *;
    var r := StateAt(s, cs, q);
    var l := r.threads[t];
    ServesParts(l, goal);
    HoldsSbrk(r, t);
    StagesOfPcs(l.pc);
    RefusesMeans(r, cs[q].sys, Size(goal), l.pc.reserve);
    ReserveKnown(y, l, r.contended);
    RefusedIntro(s, cs, t, Size(goal), q);
  }

  lemma ReserveKnown(y: Tally, l: Local, contended: bool)
    requires TallyOk(y, l, contended) && l.Work? && l.pc.ReadBrk?
    ensures l.pc.reserve == 0 || (l.pc.reserve == 2048 && contended)
  {
  }

  lemma RefusedIntro(s: State, cs: seq<Choice>, t: nat, n: nat, q: nat)
    requires Inv(s) && t < |s.threads| && q < |cs|
    requires var r, c := StateAt(s, cs, q), cs[q];
      && c.Go? && c.t == t && r.threads[t].Work? && r.threads[t].pc.ReadBrk? && r.sbrkLock == Some(t)
      && (r.threads[t].pc.reserve == 0 || (r.threads[t].pc.reserve == 2048 && r.contended))
      && (c.sys.Deny? || c.sys.skip % 8 != 0 || r.brk + c.sys.skip + 32 + n + r.threads[t].pc.reserve > |r.mem|)
    ensures RefusedAt(s, cs, t, n, q)
  {
    hide Inv, StateAt;
  }

  // ---- Whole calls ----

  /** The step after which a call is in its arena. */
  lemma {:induction false} Entered(s: State, cs: seq<Choice>, t: nat, goal: Goal, j: nat, k: nat) returns (e: nat)
    requires Inv(s) && t < |s.threads| && j < k <= |cs| && InCall(s, cs, t, goal, j, k) && StateAt(s, cs, k).threads[t].Work?
    ensures j < e <= k && InArena(s, cs, t, e, k) && StateAt(s, cs, e).threads[t].Work? && StateAt(s, cs, e).threads[t].pc.Begin?
    decreases k
  {
    hide *;
    InCallParts(s, cs, t, goal, j, k);
    NextState(s, cs, k);
    var r, c := StateAt(s, cs, k - 1), cs[k - 1];
    if j + 1 < k && r.threads[t].Work? {
      e := Entered(s, cs, t, goal, j, k - 1);
      InArenaMore(s, cs, t, e, k);
    } else {
      e := k;
      LocalStep(r, c, t);
      BegunWaits(c);
      InArenaOne(s, cs, t, k);
    }
  }

  lemma InArenaOne(s: State, cs: seq<Choice>, t: nat, k: nat)
    requires Inv(s) && t < |s.threads| && k <= |cs| && StateAt(s, cs, k).threads[t].Work?
    ensures InArena(s, cs, t, k, k)
  {
    hide Inv;
  }

  lemma InArenaMore(s: State, cs: seq<Choice>, t: nat, e: nat, k: nat)
    requires Inv(s) && t < |s.threads| && e < k <= |cs| && InArena(s, cs, t, e, k - 1) && StateAt(s, cs, k).threads[t].Work?
    ensures InArena(s, cs, t, e, k)
  {
    hide Inv;
  }

  /** A call that returns has done to the list of its arena, as it found it when it got the lock, what the
      sequential algorithm does; and if it answers null, its list had no block that fits and the system refused
      the region it asked for, at a step of the call. */
  lemma CallRefines(s: State, cs: seq<Choice>, t: nat, goal: Goal, j: nat, i: nat) returns (e: nat, res: nat, q: nat)
    requires Inv(s) && t < |s.threads| && j < i < |cs| && Returns(s, cs, t, goal, j, i)
    ensures j < e <= i && InArena(s, cs, t, e, i)
    ensures var r, u, v := StateAt(s, cs, e), StateAt(s, cs, i), StateAt(s, cs, i + 1); var k := u.threads[t].k;
      && u.threads[t].pc == Leave(res) && r.threads[t].pc.Begin? && r.threads[t].k == k < ARENAS == |r.arenas| == |v.arenas|
      && Finished(r.arenas[k].blocks, goal, res, v.arenas[k].blocks)
    ensures res == 0 && !goal.Release? ==> e <= q < i && RefusedAt(s, cs, t, Size(goal), q)
  {
    hide *;
    q := 0;
    res := CallReturns(s, cs, t, goal, j, i);
    ReturnsParts(s, cs, t, goal, j, i);
    InCallParts(s, cs, t, goal, j, i);
    e := Entered(s, cs, t, goal, j, i);
    RunCourse(s, cs, t, e, i);
    NextState(s, cs, i + 1);
    var u, c := StateAt(s, cs, i), cs[i];
    LastStep(u, c, t);
    IsGo(c);
    FinishStep(u, t, c.sys);
    WorkFacts(u, t);
    LeaveQuiet(u, u.arenas[u.threads[t].k], u.threads[t]);
    QuietTarget(u, u.threads[t].k);
    CourseEnds(StateAt(s, cs, e).arenas[u.threads[t].k].blocks, u.arenas[u.threads[t].k], u.threads[t], res);
    if res == 0 && !goal.Release? {
      NullFails(u.threads[t]);
      q := RefusedBefore(s, cs, t, goal, j, e, i);
    }
  }

  lemma CourseEnds(bs: seq<Block>, a: Arena, l: Local, res: nat)
    requires OnCourse(bs, a, l) && l.pc == Leave(res)
    ensures Finished(bs, l.goal, res, a.target)
  {
    hide Finished;
  }

  lemma NullFails(l: Local)
    requires l.Work? && l.pc == Leave(0) && !l.goal.Release?
    ensures Failing(l)
  {
  }

  // ---- No two adjacent neighbours are free ----

  lemma ObtainedCoalesced(bs: seq<Block>, n: nat, q: nat, cs: seq<Block>)
    requires Coalesced(bs) && Obtained(bs, n, q, cs)
    ensures Coalesced(cs)
  {
    hide Coalesced, SplitAt, SetFreed, HasFit;
    if i :| FirstFit(bs, i, n) && bs[i].addr == q && cs == TakeAt(bs, i, n) {
      TakeCoalesced(bs, i, n);
    } else {
      var ds :| Appended(bs, n, q, ds) && cs == SplitAt(ds, |ds| - 1, n);
      var r :| Reserves(r) && ds == bs + [Block(q, n + r, false)];
      AppendCoalesced(bs, Block(q, n + r, false));
      CutCoalesced(ds, n);
    }
  }

  /** What a call does leaves no two adjacent neighbours free. */
  lemma FinishedCoalesced(bs: seq<Block>, goal: Goal, res: nat, cs: seq<Block>)
    requires Coalesced(bs) && Finished(bs, goal, res, cs)
    ensures Coalesced(cs)
  {
    hide Coalesced, SplitAt, JoinAt, FreeAt, Obtained, HasFit, Where;
    match goal
    case Give(n) => { if res != 0 { ObtainedCoalesced(bs, n, Header0(res), cs); } }
    case Release(p) => FreeCoalesced(bs, Where(bs, p));
    case Move(p, n) => {
      ResizeCoalesced(bs, Where(bs, p), n);
      if n > InPlace(bs, goal)[Where(bs, p)].size && res != 0 {
        var es :| Exchanged(bs, goal, res, es) && cs == FreeAt(es, Where(es, p));
        ObtainedCoalesced(InPlace(bs, goal), n, Header0(res), es);
        FreeCoalesced(es, Where(es, p));
      }
    }
  }

  /** The thread in an arena is on the course from a list without adjacent free neighbours. */
  ghost predicate HolderTidy(s: State, t: nat)
    requires t < |s.threads|
  {
    s.threads[t].Work? && s.threads[t].k < |s.arenas| ==> exists bs :: Coalesced(bs) && OnCourse(bs, s.arenas[s.threads[t].k], s.threads[t])
  }

  ghost predicate FreeTidy(s: State, k: nat)
    requires k < |s.arenas|
  {
    (forall t :: 0 <= t < |s.threads| ==> !Holding(s.threads[t], k)) ==> Coalesced(s.arenas[k].blocks)
  }

  ghost predicate Tidy(s: State) {
    (forall t :: 0 <= t < |s.threads| ==> HolderTidy(s, t)) && forall k :: 0 <= k < |s.arenas| ==> FreeTidy(s, k)
  }

  lemma HolderStep(s: State, c: Choice, t: nat)
    requires Inv(s) && Tidy(s) && t < |s.threads| && |s.arenas| == |s.locks| == ARENAS && Inv(Step(s, c)) && |Step(s, c).threads| == |s.threads|
    ensures HolderTidy(Step(s, c), t)
  {
    var s' := Step(s, c);
    InvSizes(s');
    hide Inv, Step, Coalesced, OnCourse, FreeTidy;
    if s'.threads[t].Work? {
      if s.threads[t].Work? {
        WorkFacts(s, t);
        assert HolderTidy(s, t);
        var bs :| Coalesced(bs) && OnCourse(bs, s.arenas[s.threads[t].k], s.threads[t]);
        CourseStep(s, c, t, bs);
      } else {
        LocalStep(s, c, t);
        BegunWaits(c);
        EntersFree(s, c, t);
        WorkFacts(s', t);
        FreeTidyIs(s, s'.threads[t].k);
        CourseStarts(s', t);
      }
    }
  }

  lemma FreeTidyIs(s: State, k: nat)
    requires Tidy(s) && k < |s.arenas|
    ensures (forall t :: 0 <= t < |s.threads| ==> !Holding(s.threads[t], k)) ==> Coalesced(s.arenas[k].blocks)
  {
    hide Coalesced, HolderTidy;
    assert FreeTidy(s, k);
  }

  /** A thread enters an arena that nobody holds, and leaves its list as it is. */
  lemma EntersFree(s: State, c: Choice, t: nat)
    requires Inv(s) && |s.arenas| == |s.locks| == ARENAS && t < |s.threads| == |Step(s, c).threads|
    requires !s.threads[t].Work? && Step(s, c).threads[t].Work?
    ensures var k := Step(s, c).threads[t].k;
      k < ARENAS && Step(s, c).arenas == s.arenas && forall u :: 0 <= u < |s.threads| ==> !Holding(s.threads[u], k)
  {
    LocalStep(s, c, t);
    BegunWaits(c);
    var k := Step(s, c).threads[t].k;
    Entering(s, c, t);
    InvParts(s);
    hide Inv, Step, ArenasOk, SbrkOk, HomesOk, LiveOk, HandsApart, Sizes;
  }

  lemma Entering(s: State, c: Choice, t: nat)
    requires |s.arenas| == |s.locks| == ARENAS && t < |s.threads| && c.Go? && c.t == t && s.threads[t].Want?
    requires |Step(s, c).threads| == |s.threads| && Step(s, c).threads[t].Work?
    ensures s.threads[t].k < ARENAS && s.locks[s.threads[t].k].None? && Step(s, c).arenas == s.arenas && Step(s, c).threads[t].k == s.threads[t].k
  {
  }

  lemma FreeStep(s: State, c: Choice, k: nat)
    requires Inv(s) && Tidy(s) && k < ARENAS == |s.arenas| == |s.locks| && |Step(s, c).threads| == |s.threads| && |Step(s, c).arenas| == ARENAS
    ensures FreeTidy(Step(s, c), k)
  {
    var s' := Step(s, c);
    hide Inv, Step, Coalesced, OnCourse, FreeTidy, HolderTidy;
    FreeTidyIs(s, k);
    ArenasStep(s, c, k);
    if forall t :: 0 <= t < |s.threads| ==> !Holding(s'.threads[t], k) {
      if t :| 0 <= t < |s.threads| && Holding(s.threads[t], k) {
        HolderLeaves(s, c, t);
      }
      assert Coalesced(s'.arenas[k].blocks);
    }
    FreeTidyIntro(s', k);
  }

  lemma FreeTidyIntro(s: State, k: nat)
    requires k < |s.arenas| && ((forall t :: 0 <= t < |s.threads| ==> !Holding(s.threads[t], k)) ==> Coalesced(s.arenas[k].blocks))
    ensures FreeTidy(s, k)
  {
    hide Coalesced;
  }

  /** A thread that leaves its arena leaves no two adjacent neighbours free. */
  lemma HolderLeaves(s: State, c: Choice, t: nat)
    requires Inv(s) && Tidy(s) && t < |s.threads| == |Step(s, c).threads| && s.threads[t].Work?
    requires |s.arenas| == |s.locks| == |Step(s, c).arenas| == ARENAS && !Holding(Step(s, c).threads[t], s.threads[t].k)
    ensures s.threads[t].k < ARENAS && Coalesced(Step(s, c).arenas[s.threads[t].k].blocks)
  {
    hide *;
    WorkFacts(s, t);
    var l := s.threads[t];
    HoldingIs(l, l.k);
    HoldingIs(Step(s, c).threads[t], l.k);
    if !(c.Go? && c.t == t) {
      OthersStay(s, t, c);
    } else {
      IsGo(c);
      var bs := HolderList(s, t);
      if !l.pc.Leave? {
        WorkCourse(s, t, c.sys, bs);
        WorkStep(s, t, c.sys);
        MovedCall(s, t, s.arenas[l.k], l, c.sys);
        OnCourseAhead(bs, Step(s, c).arenas[l.k], Step(s, c).threads[t]);
      } else {
        FinishStep(s, t, c.sys);
        LeaveQuiet(s, s.arenas[l.k], l);
        QuietTarget(s, l.k);
        CourseEnds(bs, s.arenas[l.k], l, l.pc.res);
        FinishedCoalesced(bs, l.goal, l.pc.res, s.arenas[l.k].target);
      }
    }
  }

  lemma HoldingIs(l: Local, k: nat)
    ensures Holding(l, k) <==> l.Work? && l.k == k
  {
  }

  lemma HolderList(s: State, t: nat) returns (bs: seq<Block>)
    requires Tidy(s) && t < |s.threads| && s.threads[t].Work? && s.threads[t].k < |s.arenas|
    ensures Coalesced(bs) && OnCourse(bs, s.arenas[s.threads[t].k], s.threads[t])
  {
    hide Coalesced, OnCourse, FreeTidy;
    assert HolderTidy(s, t);
    bs :| Coalesced(bs) && OnCourse(bs, s.arenas[s.threads[t].k], s.threads[t]);
  }

  lemma TidyFirst(m: Mem, brk: nat, threads: nat)
    ensures Tidy(Initial(m, brk, threads))
  {
  }

  lemma TidyStep(s: State, c: Choice)
    requires Inv(s) && Tidy(s)
    ensures |s.arenas| == |s.locks| == ARENAS && Tidy(Step(s, c))
  {
    hide *;
    InvSizes(s);
    StepKeepsInv(s, c);
    StepThreads(s, c);
    var s' := Step(s, c);
    InvSizes(s');
    forall t | 0 <= t < |s'.threads| ensures HolderTidy(s', t) { HolderStep(s, c, t); }
    forall k | 0 <= k < |s'.arenas| ensures FreeTidy(s', k) { FreeStep(s, c, k); }
    TidyIntro(s');
  }

  lemma TidyIntro(s: State)
    requires (forall t :: 0 <= t < |s.threads| ==> HolderTidy(s, t)) && forall k :: 0 <= k < |s.arenas| ==> FreeTidy(s, k)
    ensures Tidy(s)
  {
    hide HolderTidy, FreeTidy;
  }

  lemma {:induction false} TidyAlways(m: Mem, brk: nat, threads: nat, cs: seq<Choice>, i: nat)
    requires 0 < brk <= |m| <= WORD && brk % 8 == 0 && i <= |cs|
    ensures Inv(Initial(m, brk, threads)) && Tidy(StateAt(Initial(m, brk, threads), cs, i))
    decreases i
  {
    hide *;
    InitialInv(m, brk, threads);
    if i == 0 {
      TidyFirst(m, brk, threads);
      FirstState(Initial(m, brk, threads), cs);
    } else {
      TidyAlways(m, brk, threads, cs, i - 1);
      NextState(Initial(m, brk, threads), cs, i);
      TidyStep(StateAt(Initial(m, brk, threads), cs, i - 1), cs[i - 1]);
    }
  }

  lemma FirstState(s: State, cs: seq<Choice>)
    requires Inv(s)
    ensures StateAt(s, cs, 0) == s
  {
    hide Inv;
  }

  /** From the unused heap, under every schedule: an arena that nobody holds has no two adjacent free
      neighbours, and when no arena is held the heap is settled, as it is between calls that are taken one at a
      time. */
  lemma SettledAtRest(m: Mem, brk: nat, threads: nat, cs: seq<Choice>, i: nat)
    requires 0 < brk <= |m| <= WORD && brk % 8 == 0 && i <= |cs|
    ensures Inv(Initial(m, brk, threads))
    ensures var s := StateAt(Initial(m, brk, threads), cs, i);
      && |s.arenas| == ARENAS
      && (forall k :: 0 <= k < ARENAS && (forall t :: 0 <= t < |s.threads| ==> !Holding(s.threads[t], k)) ==> Coalesced(s.arenas[k].blocks))
      && ((forall t :: 0 <= t < |s.threads| ==> !s.threads[t].Work?) ==> Settled(Whole(s)))
  {
    hide *;
    Safety(m, brk, threads, cs, i);
    TidyAlways(m, brk, threads, cs, i);
    var s := StateAt(Initial(m, brk, threads), cs, i);
    InvSizes(s);
    forall k | 0 <= k < ARENAS && (forall t :: 0 <= t < |s.threads| ==> !Holding(s.threads[t], k)) ensures Coalesced(s.arenas[k].blocks) {
      FreeTidyIs(s, k);
    }
    if forall t :: 0 <= t < |s.threads| ==> !s.threads[t].Work? {
      NobodyHolds(s.threads);
      SettledIntro(s);
    }
  }

  lemma SettledIntro(s: State)
    requires |s.arenas| == ARENAS && Sound(Whole(s)) && forall k :: 0 <= k < ARENAS ==> Coalesced(s.arenas[k].blocks)
    ensures Settled(Whole(s))
  {
    hide Sound, Coalesced;
  }
}
