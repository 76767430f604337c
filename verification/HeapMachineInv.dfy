/**
The invariant of the allocator's machine holds at every step: call by call, and place by place.
*/
module HeapMachineInv {
  import opened Bytes
  import opened FlatMemory
  import opened BlockLists
  import opened ArenaMemory
  import opened HeapViews
  import opened HeapCalls
  import opened ArenaEdits
  import opened Options
  import opened HeapMachine
  import opened HeapMachineSteps

  // ---- Calls begin and end ----

  lemma InvSizes(s: State)
    requires Inv(s)
    ensures |s.arenas| == |s.locks| == ARENAS
  {
  }

  lemma NotInside(s: State, t: nat, l': Local, s': State)
    requires Inv(s) && t < |s.threads| && !s.threads[t].Work? && !l'.Work?
    requires s'.threads == s.threads[t := l'] && s'.locks == s.locks && s'.arenas == s.arenas && s'.sbrkLock == s.sbrkLock
    ensures |s'.arenas| == |s'.locks| == ARENAS && LocksOk(s') && SbrkOk(s'.sbrkLock, s'.threads)
  {
    InvParts(s);
    hide Inv, ArenasOk, HomesOk, LiveOk, HandsApart, Sizes;
  }

  /** The client's side of a call. */
  lemma StartHands(s: State, t: nat, k: nat, goal: Goal, s': State)
    requires Inv(s) && t < |s.threads| && s.threads[t].Idle? && MayStart(s, k, goal)
    requires s' == s.(live := s.live - Held0(goal), threads := s.threads[t := Begun(k, goal)])
    ensures HandsApart(s') && LiveOk(s') && (forall p :: p in Mine(Begun(k, goal)) ==> p in s.home)
  {
    hide *;
    InvParts(s);
    StartSets(s, k, goal);
    IdleHere(s.threads[t], Begun(k, goal));
    StillSame(s.threads, t, Begun(k, goal));
    LessLive(s, s');
    HandsMove(s, t, Begun(k, goal), Held0(goal), s');
  }

  lemma IdleHere(l: Local, l': Local)
    requires l.Idle?
    ensures Mine(l) == {} && !l.Work?
  {
  }

  /** Live allocations go into the hands of a thread that had none. */
  lemma HandsMove(s: State, t: nat, l': Local, taken: set<nat>, s': State)
    requires HandsApart(s) && t < |s.threads| && taken <= s.live && Mine(l') == taken
    requires s'.live == s.live - taken && s'.threads == s.threads[t := l']
    ensures HandsApart(s')
  {
    hide Mine;
    forall u | 0 <= u < |s'.threads| ensures Mine(s'.threads[u]) !! s'.live {
      if u != t { assert Mine(s.threads[u]) !! s.live; }
    }
    forall u, v | 0 <= u < v < |s'.threads| ensures Mine(s'.threads[u]) !! Mine(s'.threads[v]) {
      if u != t && v != t { assert Mine(s.threads[u]) !! Mine(s.threads[v]); }
      if u == t { assert Mine(s.threads[v]) !! s.live; }
      if v == t { assert Mine(s.threads[u]) !! s.live; }
    }
  }

  lemma StartSets(s: State, k: nat, goal: Goal)
    requires LiveOk(s) && MayStart(s, k, goal)
    ensures Mine(Begun(k, goal)) == Held0(goal) <= s.live && forall p :: p in Held0(goal) ==> p in s.home
  {
    hide StillOk;
  }

  lemma LessLive(s: State, s': State)
    requires LiveOk(s) && s'.live <= s.live && s'.arenas == s.arenas && s'.home == s.home
    requires forall p :: Still(s'.threads, p) ==> Still(s.threads, p)
    ensures LiveOk(s')
  {
    hide SameLive, Still;
  }

  lemma StartKeeps(s: State, t: nat, k: nat, goal: Goal)
    requires Inv(s) && t < |s.threads| && s.threads[t].Idle? && MayStart(s, k, goal)
    ensures Inv(s.(live := s.live - Held0(goal), threads := s.threads[t := Begun(k, goal)]))
  {
    var l', s' := Begun(k, goal), s.(live := s.live - Held0(goal), threads := s.threads[t := Begun(k, goal)]);
    NotInside(s, t, l', s');
    StartHands(s, t, k, goal, s');
    assert MayStart(s, k, goal) && !l'.Work? && WaitOk(s', l');
    StartMine(s, k, goal);
    hide *;
    InvParts(s);
    KeptShared(s, s');
    WaitThread(s', l');
    forall u | 0 <= u < |s.threads| && u != t ensures Undisturbed(s, s', s.threads[u]) {
      OtherWork(s, u);
      UndisturbedIntro(s, s', s.threads[u]);
    }
    Assemble(s, s', t, l');
  }

  lemma StartMine(s: State, k: nat, goal: Goal)
    ensures forall p :: p in Mine(Begun(k, goal)) && Begun(k, goal).Want? ==> false
  {
  }

  lemma WaitThread(s: State, l: Local)
    requires |s.arenas| == ARENAS && !l.Work? && WaitOk(s, l)
    requires forall p :: p in Mine(l) ==> p in s.home && (l.Want? ==> s.home[p] == l.k)
    ensures ThreadOk(s, l)
  {
    hide WorkOk;
  }

  /** Lists, memory and the homes of allocations are as they were. */
  lemma KeptShared(s: State, s': State)
    requires Sizes(s) && ArenasOk(s) && HomesOk(s)
    requires s'.mem == s.mem && s'.brk == s.brk && s'.owner == s.owner && s'.arenas == s.arenas && s'.home == s.home
    requires |s'.arenas| == |s'.locks| == ARENAS && LocksOk(s') && SbrkOk(s'.sbrkLock, s'.threads) && LiveOk(s') && HandsApart(s')
    ensures Shared(s')
  {
    hide ArenaInv, LocksOk, SbrkOk, LiveOk, HandsApart, AtHome;
  }

  /** The arena field of an allocation in use names its arena, whatever others are doing. */
  lemma ArenaRead(s: State, p: nat)
    requires Inv(s) && p in s.home
    ensures p >= HEADER && Loadable(s.mem, p - HEADER) && Load(s.mem, p - HEADER).arena == s.home[p] < ARENAS
  {
    HomeAt(s, p);
    hide Inv, ArenaInv, Load;
    var k := s.home[p];
    ArenaAt(s, k);
    ListParts(s.mem, s.brk, s.owner, k, s.arenas[k]);
  }

  lemma ReadKeeps(s: State, t: nat)
    requires Inv(s) && t < |s.threads| && s.threads[t].ReadArena?
    ensures |s.arenas| == |s.locks| == ARENAS && Inv(Approach(s, t))
  {
    ReadFacts(s, t);
    hide *;
    var l := s.threads[t];
    var l' := Want(Load(s.mem, Header0(Target(l.goal))).arena, l.goal, l.mine);
    var s' := s.(threads := s.threads[t := l']);
    InvParts(s);
    NotInside(s, t, l', s');
    SameHolds(l, l');
    HandsStay(s, t, l', s');
    WaitThread(s', l');
    StillSame(s.threads, t, l');
    SameLiveOk(s, s');
    KeptShared(s, s');
    forall u | 0 <= u < |s.threads| && u != t ensures Undisturbed(s, s', s.threads[u]) {
      OtherWork(s, u);
      UndisturbedIntro(s, s', s.threads[u]);
    }
    Assemble(s, s', t, l');
  }

  lemma SameHolds(l: Local, l': Local)
    requires l.ReadArena? && l'.Want? && l'.mine == l.mine
    ensures Mine(l') == Mine(l)
  {
  }

  lemma ReadFacts(s: State, t: nat)
    requires Inv(s) && t < |s.threads| && s.threads[t].ReadArena?
    ensures |s.arenas| == |s.locks| == ARENAS
    ensures var l := s.threads[t];
      && Loadable(s.mem, Header0(Target(l.goal)))
      && var l' := Want(Load(s.mem, Header0(Target(l.goal))).arena, l.goal, l.mine);
      && Approach(s, t) == s.(threads := s.threads[t := l']) && WaitOk(s.(threads := s.threads[t := l']), l')
      && forall p :: p in Mine(l') ==> p in s.home && s.home[p] == l'.k
  {
    InvParts(s);
    ThreadAt(s, t);
    var l := s.threads[t];
    var p := Target(l.goal);
    hide Inv, ArenasOk, LocksOk, SbrkOk, HomesOk, LiveOk, HandsApart, WorkOk, Load;
    assert p in Mine(l) && p in s.home;
    ArenaRead(s, p);
  }

  lemma SameLiveOk(s: State, s': State)
    requires LiveOk(s) && s'.arenas == s.arenas && s'.home == s.home && s'.live == s.live
    requires forall p :: Still(s'.threads, p) ==> Still(s.threads, p)
    ensures LiveOk(s')
  {
    hide SameLive, Still;
  }

  lemma EnterLocks(s: State, t: nat, s': State)
    requires Inv(s) && t < |s.threads| && s.threads[t].Want? && s.threads[t].k < ARENAS && |s.locks| == ARENAS && s.locks[s.threads[t].k].None?
    requires var l := s.threads[t];
      s' == s.(locks := s.locks[l.k := Some(t)], threads := s.threads[t := Work(l.k, l.goal, l.mine, 0, Begin)])
    ensures |s'.arenas| == ARENAS && LocksOk(s') && SbrkOk(s'.sbrkLock, s'.threads) && Quiet(s.arenas[s.threads[t].k])
  {
    InvParts(s);
    InvSizes(s);
    var l := s.threads[t];
    var l' := Work(l.k, l.goal, l.mine, 0, Begin);
    hide Inv, ArenasOk, HomesOk, LiveOk, HandsApart, Sizes, LocksOk, SbrkOk;
    SbrkStays(s.sbrkLock, s.threads, t, l');
    LocksEntered(s, t, l', s');
  }

  lemma LocksEntered(s: State, t: nat, l': Local, s': State)
    requires |s.arenas| == |s.locks| == ARENAS && LocksOk(s) && t < |s.threads| && s.threads[t].Want? && s.threads[t].k < ARENAS
    requires s.locks[s.threads[t].k].None? && l'.Work? && l'.k == s.threads[t].k
    requires s'.arenas == s.arenas && s'.locks == s.locks[l'.k := Some(t)] && s'.threads == s.threads[t := l']
    ensures LocksOk(s') && Quiet(s.arenas[l'.k])
  {
    hide Quiet;
    forall u | 0 <= u < |s'.threads| && s'.threads[u].Work? ensures s'.threads[u].k < ARENAS && s'.locks[s'.threads[u].k] == Some(u) {
      if u != t { assert s.threads[u].k < ARENAS && s.locks[s.threads[u].k] == Some(u); }
    }
  }

  lemma EnterKeeps(s: State, t: nat)
    requires Inv(s) && t < |s.threads| && s.threads[t].Want?
    ensures |s.arenas| == |s.locks| == ARENAS && Inv(Approach(s, t))
  {
    InvParts(s);
    ThreadAt(s, t);
    var l := s.threads[t];
    if s.locks[l.k].None? {
      var l' := Work(l.k, l.goal, l.mine, 0, Begin);
      var s' := s.(locks := s.locks[l.k := Some(t)], threads := s.threads[t := l']);
      EnterLocks(s, t, s');
      HandsStay(s, t, l', s');
      BeginOk(s', s'.arenas[l.k], l');
      assert MineOk(s, l) && l.k < ARENAS && WaitOk(s, l);
      assert Mine(l') == l.mine;
      hide Inv, ArenasOk, LocksOk, SbrkOk, HomesOk, LiveOk, HandsApart, WorkOk, Undisturbed, Still;
      StillSame(s.threads, t, l');
      SameLiveOk(s, s');
      KeptShared(s, s');
      WorkThread(s', l');
      forall u | 0 <= u < |s.threads| && u != t ensures Undisturbed(s, s', s.threads[u]) {
        OtherWork(s, u);
        UndisturbedIntro(s, s', s.threads[u]);
      }
      Assemble(s, s', t, l');
    }
  }

  lemma BeginOk(s: State, a: Arena, l: Local)
    requires l.Work? && l.pc.Begin? && Rounds(l.goal) && Quiet(a) && (!l.goal.Give? ==> Target(l.goal) in l.mine)
    ensures WorkOk(s, a, l)
  {
    hide InList, Held;
  }

  /** A call ends: its allocations are the client's, and its arena is at rest. */
  lemma FinishShared(s: State, t: nat, s': State)
    requires Inv(s) && t < |s.threads| && s.threads[t].Work? && s.threads[t].pc.Leave? && s.threads[t].k < |s.locks|
    requires s' == s.(locks := s.locks[s.threads[t].k := None], live := s.live + s.threads[t].mine, threads := s.threads[t := Idle])
    ensures Shared(s')
  {
    hide *;
    WorkFacts(s, t);
    var k := s.threads[t].k;
    LeaveQuiet(s, s.arenas[k], s.threads[t]);
    QuietTarget(s, k);
    MineHome(s, t);
    InvParts(s);
    FinishLocks(s, t, s');
    FinishHands(s, t, s');
    MoreLive(s, s', t, k);
    KeptShared(s, s');
  }

  lemma MoreLive(s: State, s': State, t: nat, k: nat)
    requires LiveOk(s) && t < |s.threads| && s.threads[t].Work? && s'.threads == s.threads[t := Idle]
    requires s'.live == s.live + s.threads[t].mine && s'.arenas == s.arenas && s'.home == s.home
    requires k < |s.arenas| && s.arenas[k].target == s.arenas[k].blocks && forall p :: p in s.threads[t].mine ==> p in s.home && s.home[p] == k
    ensures LiveOk(s')
  {
    forall p | p in s'.home && Still(s'.threads, p) ensures s'.home[p] < |s'.arenas| && SameLive(s'.arenas[s'.home[p]], p) {
      if p !in s.threads[t].mine { StillBefore(s.threads, t, Idle, p); }
    }
  }

  lemma LeaveQuiet(s: State, a: Arena, l: Local)
    requires l.Work? && l.pc.Leave? && WorkOk(s, a, l)
    ensures Quiet(a)
  {
  }

  lemma FinishLocks(s: State, t: nat, s': State)
    requires Inv(s) && t < |s.threads| && s.threads[t].Work? && s.threads[t].pc.Leave? && s.threads[t].k < |s.arenas| == |s.locks| == ARENAS
    requires Quiet(s.arenas[s.threads[t].k])
    requires s' == s.(locks := s.locks[s.threads[t].k := None], live := s.live + s.threads[t].mine, threads := s.threads[t := Idle])
    ensures LocksOk(s') && SbrkOk(s'.sbrkLock, s'.threads)
  {
    InvParts(s);
    hide Inv, ArenasOk, HomesOk, LiveOk, HandsApart, Sizes;
  }

  lemma FinishHands(s: State, t: nat, s': State)
    requires Inv(s) && t < |s.threads| && s.threads[t].Work?
    requires s'.live == s.live + s.threads[t].mine && s'.threads == s.threads[t := Idle]
    ensures HandsApart(s')
  {
    InvParts(s);
    hide Inv, ArenasOk, HomesOk, LiveOk, LocksOk, SbrkOk, Sizes;
    forall u | 0 <= u < |s'.threads| ensures Mine(s'.threads[u]) !! s'.live {
      if u < t { assert Mine(s.threads[u]) !! Mine(s.threads[t]); }
      if t < u { assert Mine(s.threads[t]) !! Mine(s.threads[u]); }
    }
  }

  lemma FinishKeeps(s: State, t: nat)
    requires Inv(s) && t < |s.threads| && s.threads[t].Work? && s.threads[t].pc.Leave? && |s.arenas| == |s.locks| == ARENAS && s.threads[t].k < ARENAS
    ensures Inv(Perform(s, t, s.threads[t], Finish))
  {
    var s' := s.(locks := s.locks[s.threads[t].k := None], live := s.live + s.threads[t].mine, threads := s.threads[t := Idle]);
    assert Perform(s, t, s.threads[t], Finish) == s';
    assert ThreadOk(s', Idle);
    hide *;
    FinishShared(s, t, s');
    forall u | 0 <= u < |s.threads| && u != t ensures Undisturbed(s, s', s.threads[u]) {
      OtherWork(s, u);
      UndisturbedIntro(s, s', s.threads[u]);
    }
    Assemble(s, s', t, Idle);
  }

  // ---- Planning at each place ----

  /** What `pc` expects depends on the call, not on where it stands. */
  lemma ExpectsCall(s: State, bs: seq<Block>, l: Local, l': Local, pc: Pc)
    requires l.Work? && l'.Work? && l'.goal == l.goal && l'.mine == l.mine && l'.copy == l.copy
    ensures Expects(s, bs, l', pc) == Expects(s, bs, l, pc)
  {
    hide Held, InList, Vacant, StartsBlock;
  }

  lemma AfterPlanOk(s: State, l: Local, act: Act)
    requires l.Work? && act.Plan? && Rounds(l.goal) && Resumes(act.pc) && !act.pc.Cut?
    requires Expects(s, act.a.target, l.(mine := act.mine, copy := act.copy), act.pc)
    ensures WorkOk(s, act.a, AfterPlan(l, act)) && !HasSbrk(AfterPlan(l, act))
  {
    ExpectsCall(s, act.a.target, l.(mine := act.mine, copy := act.copy), AfterPlan(l, act), act.pc);
    hide Expects, Fresh, InList;
  }

  lemma MayPlanIntro(s: State, l: Local, act: Act, x: nat)
    requires l.Work? && act.Plan? && |s.arenas| == ARENAS && l.k < ARENAS
    requires Quiet(s.arenas[l.k]) && Planned(s.mem, s.brk, s.owner, l.k, s.arenas[l.k], act.a, x)
    requires (forall p :: p in act.mine ==> p in l.mine || p == x) && (forall p :: p in l.mine ==> p in act.mine || p == x)
    requires x in act.mine ==> InList(s.arenas[l.k].blocks, x) && Held(act.a.target, x, 0)
    requires (x in s.home ==> x in l.mine) && (x in l.mine ==> x in s.home)
    ensures MayPlan(s, l, act, x)
  {
    hide Planned, InList, Held;
  }

  /** What a thread at rest in its arena knows. */
  lemma RestFacts(s: State, t: nat)
    requires Inv(s) && t < |s.threads| && s.threads[t].Work? && !s.threads[t].pc.Storing? && !Appending(s.threads[t].pc)
    ensures var l := s.threads[t];
      && |s.arenas| == |s.locks| == ARENAS && l.k < ARENAS && Rounds(l.goal)
      && var a := s.arenas[l.k];
      && ArenaInv(s.mem, s.brk, s.owner, l.k, a) && Quiet(a) && a.target == a.blocks && Layout(a.blocks, s.brk)
      && Expects(s, a.target, l, l.pc) && (forall p :: p in l.mine ==> p in s.home && s.home[p] == l.k)
  {
    WorkFacts(s, t);
    MineHome(s, t);
    var k := s.threads[t].k;
    QuietTarget(s, k);
    hide Inv, Expects, Fresh, InList;
    ListParts(s.mem, s.brk, s.owner, k, s.arenas[k]);
  }

  /** The allocations that a planned change leaves alone stay held. */
  lemma PlannedHeld(m: Mem, brk: nat, owner: map<int, nat>, k: nat, a: Arena, a': Arena, x: int, p: nat, n: nat)
    requires Planned(m, brk, owner, k, a, a', x) && a.target == a.blocks && Held(a.target, p, n) && p != x
    ensures Held(a'.target, p, n)
  {
    hide ArenaInv;
    HeldKept(a.blocks, a'.target, x, p, n);
  }

  lemma MoveStays(m: Mem, brk: nat, owner: map<int, nat>, k: nat, a: Arena, a': Arena, x: int, l: Local)
    requires l.Work? && MoveOk(a.target, l) && Planned(m, brk, owner, k, a, a', x) && a.target == a.blocks
    requires l.goal.Move? ==> l.goal.p != x
    ensures MoveOk(a'.target, l)
  {
    hide Planned, Held;
    if l.goal.Move? { PlannedHeld(m, brk, owner, k, a, a', x, l.goal.p, l.copy); }
  }

  lemma ReleaseBegins(s: State, t: nat)
    requires Inv(s) && t < |s.threads| && s.threads[t].Work? && s.threads[t].pc.Begin? && s.threads[t].goal.Release?
    ensures |s.arenas| == |s.locks| == ARENAS && s.threads[t].k < ARENAS
    ensures Inv(Perform(s, t, s.threads[t], Start0(s.arenas[s.threads[t].k], s.mem, s.threads[t].goal, s.threads[t].mine)))
  {
    RestFacts(s, t);
    var l := s.threads[t];
    var a, p := s.arenas[l.k], l.goal.p;
    assert p in l.mine;
    hide *;
    var act := Plan(FreedPlan(a, Header0(p), true), l.mine - {p}, 0, MergeNext(0));
    ReleaseIs(a, s.mem, l.goal, l.mine);
    FreeingPlan(s, t, p, act);
    PlanKeeps(s, t, act, p);
  }

  lemma ReleaseIs(a: Arena, m: Mem, goal: Goal, mine: set<nat>)
    requires goal.Release?
    ensures Start0(a, m, goal, mine) == Plan(FreedPlan(a, Header0(goal.p), true), mine - {goal.p}, 0, MergeNext(0))
  {
  }

  /** Marking the call's own block free. */
  lemma FreeingPlan(s: State, t: nat, p: nat, act: Act)
    requires Inv(s) && t < |s.threads| && s.threads[t].Work? && |s.arenas| == ARENAS && s.threads[t].k < ARENAS
    requires var l := s.threads[t];
      && !l.goal.Give? && p == Target(l.goal) && p in l.mine && !l.pc.Storing? && !Appending(l.pc) && !HasSbrk(l)
      && act.Plan? && act.a == FreedPlan(s.arenas[l.k], Header0(p), true) && act.mine == l.mine - {p}
      && act.pc.MergeNext? && (act.pc.res != 0 ==> act.pc.res in act.mine && Held(s.arenas[l.k].target, act.pc.res, Size(l.goal)))
    ensures MayPlan(s, s.threads[t], act, p) && WorkOk(s, act.a, AfterPlan(s.threads[t], act)) && !HasSbrk(AfterPlan(s.threads[t], act))
  {
    hide *;
    RestFacts(s, t);
    var l := s.threads[t];
    var a := s.arenas[l.k];
    HomeAt(s, p);
    var i := HeldBlock(a.blocks, p, 0);
    HeaderBefore(p, a.blocks[i].addr);
    FreedPlanned(s.mem, s.brk, s.owner, l.k, a, i, true);
    MarkFree(a.blocks, i);
    MayPlanIntro(s, l, act, p);
    if act.pc.res != 0 { PlannedHeld(s.mem, s.brk, s.owner, l.k, a, act.a, p, act.pc.res, Size(l.goal)); }
    AnswersIntro(act.a.target, l.(mine := act.mine, copy := act.copy), act.pc.res);
    MergeIntro(s, act.a.target, l.(mine := act.mine, copy := act.copy), act.pc);
    AfterPlanMerge(s, l, act);
  }

  lemma HeaderBefore(p: nat, h: nat)
    requires h + HEADER == p
    ensures Header0(p) == h
  {
  }

  lemma MergeIntro(s: State, bs: seq<Block>, l: Local, pc: Pc)
    requires l.Work? && (pc.MergeNext? || pc.MergePrev?) && !l.goal.Give? && Target(l.goal) >= HEADER
    requires Vacant(bs, Target(l.goal) - HEADER, 0) && Answers(bs, l, pc.res)
    ensures Expects(s, bs, l, pc)
  {
    hide Vacant, Answers;
  }

  lemma AnswersIntro(bs: seq<Block>, l: Local, res: nat)
    requires l.Work? && (res != 0 ==> res in l.mine && Held(bs, res, Size(l.goal)))
    ensures Answers(bs, l, res)
  {
    hide Held;
  }

  /** A change at a block that nobody uses leaves the answer in place. */
  lemma AnswersStay(s: State, t: nat, a': Arena, x: nat, l': Local, res: nat)
    requires AtRest(s, t) && x !in s.home && l'.Work? && l'.mine == s.threads[t].mine && l'.goal == s.threads[t].goal
    requires Answers(s.arenas[s.threads[t].k].target, s.threads[t], res)
    requires Planned(s.mem, s.brk, s.owner, s.threads[t].k, s.arenas[s.threads[t].k], a', x)
    ensures Answers(a'.target, l', res)
  {
    RestIs(s, t);
    RestFacts(s, t);
    var l := s.threads[t];
    hide Inv, AtRest, Planned, ArenaInv, Held, Expects, Layout;
    if res != 0 { PlannedHeld(s.mem, s.brk, s.owner, l.k, s.arenas[l.k], a', x, res, Size(l.goal)); }
  }

  lemma AfterPlanMerge(s: State, l: Local, act: Act)
    requires l.Work? && act.Plan? && Rounds(l.goal) && (act.pc.MergeNext? || act.pc.MergePrev?)
    requires Expects(s, act.a.target, l.(mine := act.mine, copy := act.copy), act.pc)
    ensures WorkOk(s, act.a, AfterPlan(l, act)) && !HasSbrk(AfterPlan(l, act))
  {
    hide Expects;
    AfterPlanOk(s, l, act);
  }

  ghost predicate AtRest(s: State, t: nat) {
    && Inv(s) && t < |s.threads| && s.threads[t].Work? && !s.threads[t].pc.Storing? && !Appending(s.threads[t].pc)
    && !HasSbrk(s.threads[t]) && |s.arenas| == |s.locks| == ARENAS && s.threads[t].k < ARENAS
  }

  lemma RestIs(s: State, t: nat)
    requires AtRest(s, t)
    ensures Inv(s) && t < |s.threads| && s.threads[t].Work? && !s.threads[t].pc.Storing? && !Appending(s.threads[t].pc)
    ensures !HasSbrk(s.threads[t]) && |s.arenas| == |s.locks| == ARENAS && s.threads[t].k < ARENAS
  {
    hide Inv;
  }

  /** A plan that neither takes nor gives up an allocation, at a block that is free. */
  lemma FreeBlockPlan(s: State, t: nat, i: nat, act: Act)
    requires AtRest(s, t) && act.Plan? && act.mine == s.threads[t].mine && i < |s.arenas[s.threads[t].k].target|
    requires s.arenas[s.threads[t].k].target[i].freed
    requires Planned(s.mem, s.brk, s.owner, s.threads[t].k, s.arenas[s.threads[t].k], act.a, s.arenas[s.threads[t].k].target[i].addr + HEADER)
    ensures MayPlan(s, s.threads[t], act, s.arenas[s.threads[t].k].target[i].addr + HEADER)
  {
    hide *;
    RestIs(s, t);
    RestFacts(s, t);
    FreeNotHome(s, s.threads[t].k, i);
    MayPlanIntro(s, s.threads[t], act, s.arenas[s.threads[t].k].target[i].addr + HEADER);
  }

  /** A plan at a block that the call holds, and goes on holding. */
  lemma OwnBlockPlan(s: State, t: nat, x: nat, act: Act)
    requires AtRest(s, t) && act.Plan? && act.mine == s.threads[t].mine && x in act.mine && Held(act.a.target, x, 0)
    requires Planned(s.mem, s.brk, s.owner, s.threads[t].k, s.arenas[s.threads[t].k], act.a, x)
    ensures MayPlan(s, s.threads[t], act, x)
  {
    hide *;
    RestIs(s, t);
    RestFacts(s, t);
    HomeAt(s, x);
    MayPlanIntro(s, s.threads[t], act, x);
  }

  /** The plan is carried out. */
  lemma PlanDone(s: State, t: nat, act: Act, x: nat)
    requires AtRest(s, t) && act.Plan? && MayPlan(s, s.threads[t], act, x) && Resumes(act.pc) && !act.pc.Cut?
    requires Expects(s, act.a.target, s.threads[t].(mine := act.mine, copy := act.copy), act.pc)
    ensures Inv(Perform(s, t, s.threads[t], act))
  {
    hide *;
    RestIs(s, t);
    RestFacts(s, t);
    AfterPlanOk(s, s.threads[t], act);
    PlanKeeps(s, t, act, x);
  }

  // ---- A move begins ----

  lemma MoveBegins(s: State, t: nat)
    requires AtRest(s, t) && s.threads[t].pc.Begin? && s.threads[t].goal.Move?
    ensures Inv(Perform(s, t, s.threads[t], Start0(s.arenas[s.threads[t].k], s.mem, s.threads[t].goal, s.threads[t].mine)))
  {
    RestIs(s, t);
    RestFacts(s, t);
    var l := s.threads[t];
    var a, p := s.arenas[l.k], l.goal.p;
    assert p in l.mine;
    hide *;
    HomeAt(s, p);
    var i := HeldBlock(a.blocks, p, 0);
    HeaderBefore(p, a.blocks[i].addr);
    SizeLoaded(s, l.k, i);
    JoinPlanned(s.mem, s.brk, s.owner, l.k, a, i);
    JoinHeld(a.blocks, i);
    var act := Plan(JoinPlan(s.mem, a, Header0(p)), l.mine, a.blocks[i].size, Fit);
    MoveIs(a, s.mem, l.goal, l.mine);
    HeldLess(act.a.target, p, a.blocks[i].size);
    OwnBlockPlan(s, t, p, act);
    FitIntro(s, act.a.target, l.(mine := act.mine, copy := act.copy));
    CanResume(act.pc);
    PlanDone(s, t, act, p);
  }

  lemma MoveIs(a: Arena, m: Mem, goal: Goal, mine: set<nat>)
    requires goal.Move? && Loadable(m, Header0(goal.p))
    ensures Start0(a, m, goal, mine) == Plan(JoinPlan(m, a, Header0(goal.p)), mine, Load(m, Header0(goal.p)).size, Fit)
  {
  }

  lemma SizeLoaded(s: State, k: nat, i: nat)
    requires Inv(s) && k < ARENAS && |s.arenas| == ARENAS && Quiet(s.arenas[k]) && i < |s.arenas[k].blocks|
    ensures var b, h := s.arenas[k].blocks[i], Load(s.mem, s.arenas[k].blocks[i].addr);
      && Loadable(s.mem, b.addr) && h == HeaderOf(k, s.arenas[k].blocks, i) && h.size == b.size && h.freed == b.freed
  {
    ArenaAt(s, k);
    QuietSolo(s.mem, s.brk, s.owner, k, s.arenas[k]);
    hide Inv, ArenaInv;
  }

  lemma FitIntro(s: State, bs: seq<Block>, l: Local)
    requires l.Work? && l.goal.Move? && l.goal.p in l.mine && Held(bs, l.goal.p, l.copy)
    ensures Expects(s, bs, l, Fit)
  {
    hide Held;
  }

  lemma CanResume(pc: Pc)
    requires pc.Mark? || pc.Got? || pc.MergeNext? || pc.MergePrev? || pc.Fit? || pc.Leave?
    ensures Resumes(pc) && !pc.Cut?
  {
  }

  // ---- First fit ----

  lemma VacantBlock(bs: seq<Block>, q: nat, n: nat) returns (i: nat)
    requires Vacant(bs, q, n)
    ensures i < |bs| && bs[i].addr == q && bs[i].freed && n <= bs[i].size
  {
    i :| 0 <= i < |bs| && bs[i].addr == q && Holds(bs[i], n);
  }

  lemma NotInHome(s: State, t: nat, x: nat)
    requires AtRest(s, t) && x !in s.home
    ensures s.threads[t].goal.Move? && s.threads[t].goal.p in s.threads[t].mine ==> s.threads[t].goal.p != x
  {
    RestIs(s, t);
    RestFacts(s, t);
    hide Inv, ArenaInv, Expects;
  }

  lemma MoveMine(bs: seq<Block>, l: Local)
    requires l.Work? && MoveOk(bs, l)
    ensures l.goal.Move? ==> l.goal.p in l.mine
  {
  }

  /** The search finds a block. */
  lemma SearchHits(s: State, t: nat, i: nat)
    requires AtRest(s, t) && s.threads[t].pc.Search? && i < |s.arenas[s.threads[t].k].target|
    requires s.arenas[s.threads[t].k].target[i].addr == s.threads[t].pc.at && Holds(s.arenas[s.threads[t].k].target[i], Size(s.threads[t].goal))
    ensures var l := s.threads[t];
      Inv(Perform(s, t, l, Plan(SplitPlan(s.mem, s.arenas[l.k], l.pc.at, Size(l.goal)), l.mine, l.copy, Mark(l.pc.at))))
  {
    RestIs(s, t);
    RestFacts(s, t);
    var l := s.threads[t];
    var a, n, x := s.arenas[l.k], Size(l.goal), l.pc.at + HEADER;
    assert SearchOk(a.target, l, l.pc.at) && Rounded(n) && a.target[i].freed;
    assert MoveOk(a.target, l);
    hide *;
    var act := Plan(SplitPlan(s.mem, a, l.pc.at, n), l.mine, l.copy, Mark(l.pc.at));
    SplitPlanned(s.mem, s.brk, s.owner, l.k, a, i, n);
    FreeBlockPlan(s, t, i, act);
    FreeNotHome(s, l.k, i);
    NotInHome(s, t, x);
    MoveMine(a.target, l);
    MoveStays(s.mem, s.brk, s.owner, l.k, a, act.a, x, l);
    SplitFree(a.blocks, i, n);
    MarkIntro(s, act.a.target, l, a.target, l.pc.at);
    CanResume(act.pc);
    PlanDone(s, t, act, x);
  }

  lemma MarkIntro(s: State, bs: seq<Block>, l: Local, old_bs: seq<Block>, q: nat)
    requires l.Work? && MoveOk(bs, l) && Vacant(bs, q, Size(l.goal)) && l.pc.Search? && SearchOk(old_bs, l, l.pc.at)
    ensures Expects(s, bs, l.(mine := l.mine, copy := l.copy), Mark(q))
  {
    hide Vacant, Held;
  }

  lemma SearchFacts(s: State, t: nat)
    requires AtRest(s, t) && s.threads[t].pc.Search?
    ensures var l := s.threads[t];
      SearchOk(s.arenas[l.k].target, l, l.pc.at) && (l.pc.at != 0 ==> StartsBlock(s.arenas[l.k].target, l.pc.at))
  {
    RestFacts(s, t);
    hide Inv, ArenaInv, StartsBlock, Held;
  }

  lemma StartedBlock(bs: seq<Block>, q: nat) returns (i: nat)
    requires StartsBlock(bs, q)
    ensures i < |bs| && bs[i].addr == q
  {
    i :| 0 <= i < |bs| && bs[i].addr == q;
  }

  /** The search goes on, or is over. */
  lemma SearchGoes(s: State, t: nat, pc: Pc)
    requires AtRest(s, t) && s.threads[t].pc.Search? && (pc.ReadFlag? || pc.Search?)
    requires pc.Search? && pc.at != 0 ==> StartsBlock(s.arenas[s.threads[t].k].target, pc.at)
    ensures Inv(Perform(s, t, s.threads[t], Goto(pc)))
  {
    SearchFacts(s, t);
    hide Inv, ArenaInv, StartsBlock, Held;
    LocalGoes(s, t, pc);
  }

  lemma SeekIs(a: Arena, m: Mem, n: nat, mine: set<nat>, copy: nat, at: nat)
    ensures at == 0 ==> Seek(a, m, n, mine, copy, at) == Goto(ReadFlag)
    ensures at != 0 && Loadable(m, at) ==>
      Seek(a, m, n, mine, copy, at) ==
        if Load(m, at).freed && Load(m, at).size >= n then Plan(SplitPlan(m, a, at, n), mine, copy, Mark(at)) else Goto(Search(Load(m, at).next))
  {
    hide Load;
  }

  lemma HoldsIs(b: Block, n: nat)
    ensures Holds(b, n) <==> b.freed && b.size >= n
  {
  }

  lemma SearchKeeps(s: State, t: nat)
    requires AtRest(s, t) && s.threads[t].pc.Search?
    ensures var l := s.threads[t];
      Inv(Perform(s, t, l, Seek(s.arenas[l.k], s.mem, Size(l.goal), l.mine, l.copy, l.pc.at)))
  {
    hide *;
    RestIs(s, t);
    RestFacts(s, t);
    SearchFacts(s, t);
    var l := s.threads[t];
    var a, n := s.arenas[l.k], Size(l.goal);
    SeekIs(a, s.mem, n, l.mine, l.copy, l.pc.at);
    if l.pc.at == 0 {
      SearchGoes(s, t, ReadFlag);
    } else {
      var i := StartedBlock(a.target, l.pc.at);
      SizeLoaded(s, l.k, i);
      HoldsIs(a.target[i], n);
      if a.target[i].freed && a.target[i].size >= n {
        SearchHits(s, t, i);
      } else {
        NextStarts(l.k, a.blocks, i);
        SearchGoes(s, t, Search(HeaderOf(l.k, a.blocks, i).next));
      }
    }
  }

  lemma NextStarts(k: nat, bs: seq<Block>, i: nat)
    requires i < |bs|
    ensures HeaderOf(k, bs, i).next != 0 ==> StartsBlock(bs, HeaderOf(k, bs, i).next)
  {
    if i + 1 < |bs| { assert bs[i + 1].addr == AddrAt(bs, i + 1); }
  }

  /** The call goes on elsewhere, with what is expected there. */
  lemma LocalGoes(s: State, t: nat, pc: Pc)
    requires AtRest(s, t) && !pc.Storing? && !Appending(pc)
    requires var l := s.threads[t]; !HasSbrk(l.(pc := pc)) && Expects(s, s.arenas[l.k].target, l.(pc := pc), pc)
    ensures Inv(Perform(s, t, s.threads[t], Goto(pc)))
  {
    RestIs(s, t);
    RestFacts(s, t);
    var l, l' := s.threads[t], s.threads[t].(pc := pc);
    InvParts(s);
    RestWork(s, s.arenas[l.k], l');
    SbrkStays(s.sbrkLock, s.threads, t, l');
    assert Perform(s, t, l, Goto(pc)) == s.(sbrkLock := s.sbrkLock, contended := s.contended, threads := s.threads[t := l']);
    hide *;
    LocalKeeps(s, t, l', s.sbrkLock, s.contended);
  }

  lemma RestWork(s: State, a: Arena, l: Local)
    requires l.Work? && Quiet(a) && Rounds(l.goal) && !l.pc.Storing? && !Appending(l.pc) && Expects(s, a.target, l, l.pc)
    ensures WorkOk(s, a, l)
  {
    hide Expects;
  }

  // ---- A block is taken ----

  lemma MarkKeeps(s: State, t: nat)
    requires AtRest(s, t) && s.threads[t].pc.Mark?
    ensures var l := s.threads[t]; var q := l.pc.q;
      Inv(Perform(s, t, l, Plan(FreedPlan(s.arenas[l.k], q, false), l.mine + {q + HEADER}, l.copy, Got(q))))
  {
    hide *;
    RestIs(s, t);
    RestFacts(s, t);
    MarkFacts(s, t);
    var l := s.threads[t];
    var a, q, n := s.arenas[l.k], l.pc.q, Size(l.goal);
    var x, act := q + HEADER, Plan(FreedPlan(a, q, false), l.mine + {q + HEADER}, l.copy, Got(q));
    var i := VacantBlock(a.target, q, n);
    FreedPlanned(s.mem, s.brk, s.owner, l.k, a, i, false);
    FreeNotHome(s, l.k, i);
    MarkHeld(a.blocks, i, n);
    HeldLess(act.a.target, x, n);
    ListedAt(a.blocks, i);
    NotInHome(s, t, x);
    MayPlanIntro(s, l, act, x);
    MoveMine(a.target, l);
    MoveStays(s.mem, s.brk, s.owner, l.k, a, act.a, x, l);
    GotIntro(s, act.a.target, l, q);
    CanResume(act.pc);
    PlanDone(s, t, act, x);
  }

  lemma ListedAt(bs: seq<Block>, i: nat)
    requires i < |bs|
    ensures InList(bs, bs[i].addr + HEADER)
  {
  }

  lemma MarkFacts(s: State, t: nat)
    requires AtRest(s, t) && s.threads[t].pc.Mark?
    ensures var l := s.threads[t];
      MoveOk(s.arenas[l.k].target, l) && !l.goal.Release? && Vacant(s.arenas[l.k].target, l.pc.q, Size(l.goal))
  {
    RestFacts(s, t);
    hide Inv, ArenaInv, Vacant, Held;
  }

  lemma GotIntro(s: State, bs: seq<Block>, l: Local, q: nat)
    requires l.Work? && MoveOk(bs, l) && !l.goal.Release? && Held(bs, q + HEADER, Size(l.goal)) && (l.goal.Move? ==> l.goal.p != q + HEADER)
    ensures Expects(s, bs, l.(mine := l.mine + {q + HEADER}, copy := l.copy), Got(q))
  {
    hide Held;
  }

  lemma CutKeeps(s: State, t: nat)
    requires AtRest(s, t) && s.threads[t].pc.Cut?
    ensures var l := s.threads[t]; var base := l.pc.base;
      Inv(Perform(s, t, l, Plan(SplitPlan(s.mem, s.arenas[l.k], base, Size(l.goal)), l.mine, l.copy, Got(base))))
  {
    hide *;
    RestIs(s, t);
    RestFacts(s, t);
    CutFacts(s, t);
    var l := s.threads[t];
    var a, base, n := s.arenas[l.k], l.pc.base, Size(l.goal);
    var x, act := base + HEADER, Plan(SplitPlan(s.mem, a, base, n), l.mine, l.copy, Got(base));
    var i := HeldBlock(a.blocks, x, n);
    SplitPlanned(s.mem, s.brk, s.owner, l.k, a, i, n);
    SplitHeld(a.blocks, i, n);
    HeldLess(act.a.target, x, n);
    OwnBlockPlan(s, t, x, act);
    MoveStays(s.mem, s.brk, s.owner, l.k, a, act.a, x, l);
    GotIntro(s, act.a.target, l, base);
    SameUnion(l.mine, x);
    CanResume(act.pc);
    PlanDone(s, t, act, x);
  }

  lemma SameUnion(mine: set<nat>, x: nat)
    requires x in mine
    ensures mine + {x} == mine
  {
  }

  lemma CutFacts(s: State, t: nat)
    requires AtRest(s, t) && s.threads[t].pc.Cut?
    ensures var l := s.threads[t];
      && MoveOk(s.arenas[l.k].target, l) && !l.goal.Release? && Held(s.arenas[l.k].target, l.pc.base + HEADER, Size(l.goal))
      && l.pc.base + HEADER in l.mine && (l.goal.Move? ==> l.goal.p != l.pc.base + HEADER) && Rounded(Size(l.goal))
  {
    RestFacts(s, t);
    hide Inv, ArenaInv, Held;
  }

  lemma GotKeeps(s: State, t: nat)
    requires AtRest(s, t) && s.threads[t].pc.Got?
    ensures var l := s.threads[t];
      Inv(Perform(s, t, l, Goto(if l.goal.Move? then CopyByte(l.pc.q, 0) else Leave(l.pc.q + HEADER))))
  {
    hide *;
    RestIs(s, t);
    RestFacts(s, t);
    GotFacts(s, t);
    var l := s.threads[t];
    if l.goal.Move? {
      CopyIntro(s, s.arenas[l.k].target, l, l.pc.q, 0);
      PlainPc(l, CopyByte(l.pc.q, 0));
      LocalGoes(s, t, CopyByte(l.pc.q, 0));
    } else {
      AnswersIntro(s.arenas[l.k].target, l.(pc := Leave(l.pc.q + HEADER)), l.pc.q + HEADER);
      LeaveIntro(s, s.arenas[l.k].target, l.(pc := Leave(l.pc.q + HEADER)), l.pc.q + HEADER);
      PlainPc(l, Leave(l.pc.q + HEADER));
      LocalGoes(s, t, Leave(l.pc.q + HEADER));
    }
  }

  lemma GotFacts(s: State, t: nat)
    requires AtRest(s, t) && (s.threads[t].pc.Got? || s.threads[t].pc.CopyByte?)
    ensures var l := s.threads[t];
      && Fresh(s.arenas[l.k].target, l, l.pc.q) && l.pc.q + HEADER in l.mine && (l.pc.CopyByte? ==> l.goal.Move?)
      && (l.goal.Move? ==> l.goal.p in l.mine && l.copy < l.goal.n && Held(s.arenas[l.k].target, l.goal.p, l.copy) && l.goal.p != l.pc.q + HEADER)
      && Held(s.arenas[l.k].target, l.pc.q + HEADER, Size(l.goal))
  {
    hide *;
    RestIs(s, t);
    RestFacts(s, t);
    GotParts(s, s.arenas[s.threads[t].k].target, s.threads[t]);
  }

  lemma GotParts(s: State, bs: seq<Block>, l: Local)
    requires l.Work? && (l.pc.Got? || l.pc.CopyByte?) && Expects(s, bs, l, l.pc)
    ensures Fresh(bs, l, l.pc.q) && l.pc.q + HEADER in l.mine && (l.pc.CopyByte? ==> l.goal.Move?)
    ensures l.goal.Move? ==> l.goal.p in l.mine && l.copy < l.goal.n && Held(bs, l.goal.p, l.copy) && l.goal.p != l.pc.q + HEADER
    ensures Held(bs, l.pc.q + HEADER, Size(l.goal))
  {
    hide Held;
  }

  lemma CopyIntro(s: State, bs: seq<Block>, l: Local, q: nat, i: nat)
    requires l.Work? && l.goal.Move? && Fresh(bs, l, q) && q + HEADER in l.mine && i <= l.copy
    ensures Expects(s, bs, l.(pc := CopyByte(q, i)), CopyByte(q, i))
  {
    hide Held;
  }

  /** A place outside the extension of the heap. */
  lemma PlainPc(l: Local, pc: Pc)
    requires l.Work? && (pc.CopyByte? || pc.Leave? || pc.Search?)
    ensures !pc.Storing? && !Appending(pc) && !HasSbrk(l.(pc := pc))
  {
  }

  // ---- Merging ----

  lemma MergeFacts(s: State, t: nat)
    requires AtRest(s, t) && (s.threads[t].pc.MergeNext? || s.threads[t].pc.MergePrev?)
    ensures var l := s.threads[t];
      && !l.goal.Give? && Target(l.goal) >= HEADER && Vacant(s.arenas[l.k].target, Target(l.goal) - HEADER, 0)
      && Answers(s.arenas[l.k].target, l, l.pc.res)
  {
    RestFacts(s, t);
    hide Inv, ArenaInv, Vacant, Answers;
  }

  lemma MergeNextKeeps(s: State, t: nat)
    requires AtRest(s, t) && s.threads[t].pc.MergeNext?
    ensures var l := s.threads[t];
      Inv(Perform(s, t, l, Plan(JoinPlan(s.mem, s.arenas[l.k], Header0(Target(l.goal))), l.mine, l.copy, MergePrev(l.pc.res))))
  {
    hide *;
    RestIs(s, t);
    RestFacts(s, t);
    MergeFacts(s, t);
    var l := s.threads[t];
    var a, p := s.arenas[l.k], Target(l.goal);
    HeaderBefore(p, p - HEADER);
    var act := Plan(JoinPlan(s.mem, a, Header0(p)), l.mine, l.copy, MergePrev(l.pc.res));
    var i := VacantBlock(a.target, p - HEADER, 0);
    JoinPlanned(s.mem, s.brk, s.owner, l.k, a, i);
    FreeBlockPlan(s, t, i, act);
    JoinFree(a.blocks, i);
    FreeNotHome(s, l.k, i);
    AnswersStay(s, t, act.a, p, l.(mine := act.mine, copy := act.copy), l.pc.res);
    MergeIntro(s, act.a.target, l.(mine := act.mine, copy := act.copy), act.pc);
    CanResume(act.pc);
    PlanDone(s, t, act, p);
  }

  lemma MergeIs(a: Arena, m: Mem, p: nat, mine: set<nat>, copy: nat, res: nat)
    requires Loadable(m, p)
    ensures var prev := Load(m, p).prev;
      && (prev == 0 ==> Merge(a, m, p, mine, copy, res) == Goto(Leave(res)))
      && (prev != 0 && Loadable(m, prev) ==>
          Merge(a, m, p, mine, copy, res) == if Load(m, prev).freed then Plan(JoinPlan(m, a, prev), mine, copy, Leave(res)) else Goto(Leave(res)))
  {
    hide Load;
  }

  lemma PrevIs0(k: nat, bs: seq<Block>, i: nat)
    requires i < |bs|
    ensures HeaderOf(k, bs, i).prev == if i > 0 then bs[i - 1].addr else 0
  {
  }

  lemma LeaveIntro(s: State, bs: seq<Block>, l: Local, res: nat)
    requires l.Work? && Answers(bs, l, res)
    ensures Expects(s, bs, l, Leave(res))
  {
    hide Answers;
  }

  lemma SameAnswer(bs: seq<Block>, l: Local, pc: Pc, res: nat)
    requires l.Work? && Answers(bs, l, res)
    ensures Answers(bs, l.(pc := pc), res)
  {
    hide Held;
  }

  lemma LeaveGoes(s: State, t: nat)
    requires AtRest(s, t) && s.threads[t].pc.MergePrev?
    ensures Inv(Perform(s, t, s.threads[t], Goto(Leave(s.threads[t].pc.res))))
  {
    hide *;
    RestIs(s, t);
    MergeFacts(s, t);
    var l := s.threads[t];
    SameAnswer(s.arenas[l.k].target, l, Leave(l.pc.res), l.pc.res);
    LeaveIntro(s, s.arenas[l.k].target, l.(pc := Leave(l.pc.res)), l.pc.res);
    PlainPc(l, Leave(l.pc.res));
    LocalGoes(s, t, Leave(l.pc.res));
  }

  lemma MergePrevKeeps(s: State, t: nat)
    requires AtRest(s, t) && s.threads[t].pc.MergePrev?
    ensures var l := s.threads[t];
      Inv(Perform(s, t, l, Merge(s.arenas[l.k], s.mem, Header0(Target(l.goal)), l.mine, l.copy, l.pc.res)))
  {
    hide *;
    RestIs(s, t);
    RestFacts(s, t);
    MergeFacts(s, t);
    var l := s.threads[t];
    var a, p := s.arenas[l.k], Target(l.goal);
    HeaderBefore(p, p - HEADER);
    var i := VacantBlock(a.target, p - HEADER, 0);
    SizeLoaded(s, l.k, i);
    PrevIs0(l.k, a.blocks, i);
    MergeIs(a, s.mem, Header0(p), l.mine, l.copy, l.pc.res);
    if i == 0 {
      LeaveGoes(s, t);
    } else {
      SizeLoaded(s, l.k, i - 1);
      BlockPlaced(a.blocks, i - 1, s.brk);
      if a.blocks[i - 1].freed {
        var act := Plan(JoinPlan(s.mem, a, a.blocks[i - 1].addr), l.mine, l.copy, Leave(l.pc.res));
        JoinPlanned(s.mem, s.brk, s.owner, l.k, a, i - 1);
        FreeBlockPlan(s, t, i - 1, act);
        FreeNotHome(s, l.k, i - 1);
        AnswersStay(s, t, act.a, a.blocks[i - 1].addr + HEADER, l.(mine := act.mine, copy := act.copy), l.pc.res);
        LeaveIntro(s, act.a.target, l.(mine := act.mine, copy := act.copy), l.pc.res);
        CanResume(act.pc);
        PlanDone(s, t, act, a.blocks[i - 1].addr + HEADER);
      } else {
        LeaveGoes(s, t);
      }
    }
  }

  // ---- Growing in place ----

  lemma FitFacts(s: State, t: nat)
    requires AtRest(s, t) && s.threads[t].pc.Fit?
    ensures var l := s.threads[t];
      l.goal.Move? && l.goal.p in l.mine && Held(s.arenas[l.k].target, l.goal.p, l.copy) && Rounded(l.goal.n)
  {
    RestFacts(s, t);
    hide Inv, ArenaInv, Held;
  }

  lemma RefitIs(a: Arena, m: Mem, p: nat, n: nat, mine: set<nat>, copy: nat)
    requires Loadable(m, Header0(p))
    ensures Refit(a, m, p, n, mine, copy) ==
      if n <= Load(m, Header0(p)).size then Plan(SplitPlan(m, a, Header0(p), n), mine, copy, Leave(p)) else Goto(Search(a.head))
  {
    hide Load;
  }

  lemma HeadStarts(s: State, k: nat)
    requires Inv(s) && k < ARENAS && |s.arenas| == ARENAS && Quiet(s.arenas[k])
    ensures s.arenas[k].head != 0 ==> StartsBlock(s.arenas[k].target, s.arenas[k].head)
  {
    ArenaAt(s, k);
    var a := s.arenas[k];
    QuietSolo(s.mem, s.brk, s.owner, k, a);
    var v := Solo(s.mem, s.brk, s.owner, k, a);
    ListEnds(v, k);
    hide Inv, ArenaInv;
    if a.head != 0 { assert a.blocks[0].addr == a.head; }
  }

  /** Growing in place is not enough: the search for another block begins. */
  lemma SearchBegins(s: State, t: nat)
    requires AtRest(s, t) && (s.threads[t].pc.Fit? || (s.threads[t].pc.Begin? && s.threads[t].goal.Give?))
    requires s.threads[t].pc.Fit? ==> s.threads[t].copy < Size(s.threads[t].goal)
    ensures Inv(Perform(s, t, s.threads[t], Goto(Search(s.arenas[s.threads[t].k].head))))
  {
    RestIs(s, t);
    RestFacts(s, t);
    HeadStarts(s, s.threads[t].k);
    hide Inv, ArenaInv, Held, StartsBlock, InList;
    LocalGoes(s, t, Search(s.arenas[s.threads[t].k].head));
  }

  lemma FitKeeps(s: State, t: nat)
    requires AtRest(s, t) && s.threads[t].pc.Fit?
    ensures var l := s.threads[t];
      Inv(Perform(s, t, l, Refit(s.arenas[l.k], s.mem, Target(l.goal), Size(l.goal), l.mine, l.copy)))
  {
    hide *;
    RestIs(s, t);
    RestFacts(s, t);
    FitFacts(s, t);
    var l := s.threads[t];
    var a, p, n := s.arenas[l.k], l.goal.p, l.goal.n;
    GoalParts(l.goal);
    var i := HeldBlock(a.blocks, p, l.copy);
    HeaderBefore(p, a.blocks[i].addr);
    SizeLoaded(s, l.k, i);
    RefitIs(a, s.mem, p, n, l.mine, l.copy);
    if n <= a.blocks[i].size {
      var act := Plan(SplitPlan(s.mem, a, Header0(p), n), l.mine, l.copy, Leave(p));
      SplitPlanned(s.mem, s.brk, s.owner, l.k, a, i, n);
      SplitHeld(a.blocks, i, n);
      HeldLess(act.a.target, p, n);
      OwnBlockPlan(s, t, p, act);
      AnswersIntro(act.a.target, l.(mine := act.mine, copy := act.copy), p);
      LeaveIntro(s, act.a.target, l.(mine := act.mine, copy := act.copy), p);
      CanResume(act.pc);
      PlanDone(s, t, act, p);
    } else {
      SearchBegins(s, t);
    }
  }

  lemma GoalParts(goal: Goal)
    ensures goal.Move? ==> Target(goal) == goal.p && Size(goal) == goal.n
  {
  }

  // ---- Copying ----

  /** The next byte of a move. */
  lemma CopyKeeps(s: State, t: nat)
    requires AtRest(s, t) && s.threads[t].pc.CopyByte? && s.threads[t].pc.i < s.threads[t].copy
    ensures var l := s.threads[t];
      Inv(Perform(s, t, l, Copy(l.pc.q + HEADER + l.pc.i, Target(l.goal) + l.pc.i, CopyByte(l.pc.q, l.pc.i + 1))))
  {
    hide *;
    RestIs(s, t);
    RestFacts(s, t);
    GotFacts(s, t);
    var l := s.threads[t];
    var q, i := l.pc.q, l.pc.i;
    CopyInside(s, t);
    var s1 := s.(mem := s.mem[q + HEADER + i := s.mem[Target(l.goal) + i]]);
    PayloadKeeps(s, l.k, q + HEADER, q + HEADER + i, s.mem[Target(l.goal) + i]);
    CopyIs(s, t, l, q + HEADER + i, Target(l.goal) + i, CopyByte(q, i + 1));
    RestIntro(s1, t);
    CopyIntro(s1, s1.arenas[l.k].target, l, q, i + 1);
    PlainPc(l, CopyByte(q, i + 1));
    LocalGoes(s1, t, CopyByte(q, i + 1));
  }

  lemma RestIntro(s: State, t: nat)
    requires Inv(s) && t < |s.threads| && s.threads[t].Work? && !s.threads[t].pc.Storing? && !Appending(s.threads[t].pc)
    requires !HasSbrk(s.threads[t]) && |s.arenas| == |s.locks| == ARENAS && s.threads[t].k < ARENAS
    ensures AtRest(s, t)
  {
    hide Inv;
  }

  lemma CopyIs(s: State, t: nat, l: Local, dst: nat, src: nat, pc: Pc)
    requires t < |s.threads| && l.Work? && l.k < |s.arenas| && l.k < |s.locks| && dst < |s.mem| && src < |s.mem|
    ensures Perform(s, t, l, Copy(dst, src, pc)) == Perform(s.(mem := s.mem[dst := s.mem[src]]), t, l, Goto(pc))
  {
  }

  lemma CopyInside(s: State, t: nat)
    requires AtRest(s, t) && s.threads[t].pc.CopyByte? && s.threads[t].pc.i < s.threads[t].copy
    ensures var l := s.threads[t];
      && InPayloads(s.arenas[l.k], l.pc.q + HEADER, l.pc.q + HEADER + l.pc.i)
      && l.pc.q + HEADER + l.pc.i < |s.mem| && Target(l.goal) + l.pc.i < |s.mem|
  {
    hide *;
    RestIs(s, t);
    RestFacts(s, t);
    GotFacts(s, t);
    var l := s.threads[t];
    GoalParts(l.goal);
    var a, q, i := s.arenas[l.k], l.pc.q, l.pc.i;
    InHeld(a, q + HEADER, Size(l.goal), i);
    InHeld(a, l.goal.p, l.copy, i);
    PayloadOwned(s.mem, s.brk, s.owner, l.k, a, q + HEADER, q + HEADER + i);
    PayloadOwned(s.mem, s.brk, s.owner, l.k, a, l.goal.p, l.goal.p + i);
  }

  lemma InHeld(a: Arena, p: nat, n: nat, i: nat)
    requires a.target == a.blocks && Held(a.target, p, n) && i < n
    ensures InPayloads(a, p, p + i)
  {
    var s: nat :| n <= s && LiveIn(a.target, p, s);
    assert LiveIn(a.blocks, p, s) && p <= p + i < p + s;
  }

  /** The copy is complete: the old block is freed. */
  lemma CopyEnds(s: State, t: nat)
    requires AtRest(s, t) && s.threads[t].pc.CopyByte?
    ensures var l := s.threads[t];
      Inv(Perform(s, t, l, Plan(FreedPlan(s.arenas[l.k], Header0(Target(l.goal)), true), l.mine - {Target(l.goal)}, l.copy, MergeNext(l.pc.q + HEADER))))
  {
    hide *;
    RestIs(s, t);
    RestFacts(s, t);
    GotFacts(s, t);
    var l := s.threads[t];
    GoalParts(l.goal);
    var act := Plan(FreedPlan(s.arenas[l.k], Header0(Target(l.goal)), true), l.mine - {Target(l.goal)}, l.copy, MergeNext(l.pc.q + HEADER));
    FreeingPlan(s, t, l.goal.p, act);
    PlanKeeps(s, t, act, l.goal.p);
  }

  // ---- Extending the heap ----

  /** Before the region is obtained, the call holds what it held. */
  lemma ExtendFacts(s: State, t: nat)
    requires Inv(s) && t < |s.threads| && s.threads[t].Work?
    requires var pc := s.threads[t].pc; pc.ReadFlag? || pc.TryLock? || pc.MarkContended? || pc.Wait? || pc.ReadReserve? || pc.ReadBrk? || pc == Unlock(0)
    ensures var l := s.threads[t];
      && |s.arenas| == |s.locks| == ARENAS && l.k < ARENAS && Quiet(s.arenas[l.k]) && Rounds(l.goal)
      && SearchOk(s.arenas[l.k].target, l, 0) && (l.pc.ReadBrk? ==> l.pc.reserve % 8 == 0)
  {
    WorkFacts(s, t);
    hide Inv, ArenaInv, Held, InList;
  }

  lemma ExtendIntro(s: State, a: Arena, l: Local, pc: Pc)
    requires l.Work? && Quiet(a) && Rounds(l.goal) && SearchOk(a.target, l, 0)
    requires pc.TryLock? || pc.MarkContended? || pc.Wait? || pc.ReadReserve? || pc.ReadBrk? || pc.WriteBrk? || pc == Unlock(0)
    requires (pc.ReadBrk? ==> pc.reserve % 8 == 0) && (pc.WriteBrk? ==> RegionOk(s, l, pc.base, pc.reserve))
    ensures WorkOk(s, a, l.(pc := pc))
  {
    hide Held, StartsBlock, InList;
  }

  /** The steps around `sbrk` that leave memory alone. */
  lemma SbrkKeeps(s: State, t: nat, pc: Pc, lock: Option<nat>, contended: bool)
    requires Inv(s) && t < |s.threads| && s.threads[t].Work?
    requires var pc0 := s.threads[t].pc; pc0.ReadFlag? || pc0.TryLock? || pc0.MarkContended? || pc0.Wait? || pc0.ReadReserve? || pc0.ReadBrk?
    requires pc.TryLock? || pc.MarkContended? || pc.Wait? || pc.ReadReserve? || pc.ReadBrk? || pc.WriteBrk? || pc == Unlock(0)
    requires (pc.ReadBrk? ==> pc.reserve % 8 == 0) && (pc.WriteBrk? ==> RegionOk(s, s.threads[t], pc.base, pc.reserve))
    requires SbrkOk(lock, s.threads[t := s.threads[t].(pc := pc)])
    ensures Inv(s.(sbrkLock := lock, contended := contended, threads := s.threads[t := s.threads[t].(pc := pc)]))
  {
    hide *;
    ExtendFacts(s, t);
    var l := s.threads[t];
    ExtendIntro(s, s.arenas[l.k], l, pc);
    LocalKeeps(s, t, l.(pc := pc), lock, contended);
  }

  lemma SbrkTaken(threads: seq<Local>, t: nat, l': Local)
    requires SbrkOk(None, threads) && t < |threads| && HasSbrk(l')
    ensures SbrkOk(Some(t), threads[t := l'])
  {
  }

  lemma SbrkGiven(lock: Option<nat>, threads: seq<Local>, t: nat, l': Local)
    requires SbrkOk(lock, threads) && t < |threads| && HasSbrk(threads[t]) && !HasSbrk(l')
    ensures SbrkOk(None, threads[t := l'])
  {
  }

  lemma FlagKeeps(s: State, t: nat, sys: Kernel)
    requires Inv(s) && t < |s.threads| && s.threads[t].Work? && |s.arenas| == |s.locks| == ARENAS && s.threads[t].k < ARENAS
    requires var pc := s.threads[t].pc; pc.ReadFlag? || pc.TryLock? || pc.MarkContended? || pc.Wait?
    ensures Inv(Perform(s, t, s.threads[t], ActOf(s, s.arenas[s.threads[t].k], s.threads[t], sys)))
  {
    hide *;
    InvParts(s);
    var l := s.threads[t];
    FlagActs(s, t, sys);
    if (l.pc.TryLock? || l.pc.Wait?) && s.sbrkLock.None? {
      FlagPlaces(l, ReadReserve);
      SbrkTaken(s.threads, t, l.(pc := ReadReserve));
      SbrkKeeps(s, t, ReadReserve, Some(t), s.contended);
    } else if !l.pc.Wait? {
      var pc := if l.pc.MarkContended? then Wait else if l.pc.ReadFlag? && !s.contended then TryLock else MarkContended;
      FlagPlaces(l, pc);
      SbrkStays(s.sbrkLock, s.threads, t, l.(pc := pc));
      SbrkKeeps(s, t, pc, s.sbrkLock, s.contended || l.pc.MarkContended?);
    }
  }

  lemma FlagPlaces(l: Local, pc: Pc)
    requires l.Work? && (l.pc.ReadFlag? || l.pc.TryLock? || l.pc.MarkContended? || l.pc.Wait?)
    ensures !HasSbrk(l) && (HasSbrk(l.(pc := pc)) <==> pc.ReadReserve? || pc.ReadBrk? || pc.WriteBrk? || pc.Unlock?)
  {
  }

  /** The steps that lead to the lock of `sbrk`. */
  lemma FlagActs(s: State, t: nat, sys: Kernel)
    requires t < |s.threads| && s.threads[t].Work? && s.threads[t].k < |s.arenas| == |s.locks|
    requires var pc := s.threads[t].pc; pc.ReadFlag? || pc.TryLock? || pc.MarkContended? || pc.Wait?
    ensures var l := s.threads[t];
      var s' := Perform(s, t, l, ActOf(s, s.arenas[l.k], l, sys));
      if (l.pc.TryLock? || l.pc.Wait?) && s.sbrkLock.None? then
        s' == s.(sbrkLock := Some(t), contended := s.contended, threads := s.threads[t := l.(pc := ReadReserve)])
      else if l.pc.Wait? then s' == s
      else
        s' == s.(sbrkLock := s.sbrkLock, contended := s.contended || l.pc.MarkContended?,
                 threads := s.threads[t := l.(pc := if l.pc.MarkContended? then Wait else if l.pc.ReadFlag? && !s.contended then TryLock else MarkContended)])
  {
  }

  lemma BreakKeeps(s: State, t: nat, sys: Kernel)
    requires Inv(s) && t < |s.threads| && s.threads[t].Work? && |s.arenas| == |s.locks| == ARENAS && s.threads[t].k < ARENAS
    requires s.threads[t].pc.ReadReserve? || s.threads[t].pc.ReadBrk?
    ensures Inv(Perform(s, t, s.threads[t], ActOf(s, s.arenas[s.threads[t].k], s.threads[t], sys)))
  {
    hide *;
    InvParts(s);
    OwnerBelow(s);
    ExtendFacts(s, t);
    var l := s.threads[t];
    var pc := AfterBreak(s, l, sys);
    BreakActs(s, t, sys);
    AskedRegion(s, l, sys);
    SbrkStays(s.sbrkLock, s.threads, t, l.(pc := pc));
    SbrkKeeps(s, t, pc, s.sbrkLock, s.contended);
  }

  /** The reserve is read, or the break is. */
  function AfterBreak(s: State, l: Local, sys: Kernel): Pc
    requires l.Work?
  {
    if !l.pc.ReadBrk? then ReadBrk(if s.contended then RESERVE else 0)
    else if Refuses(s, sys, Size(l.goal) + l.pc.reserve) then Unlock(0) else WriteBrk(s.brk + sys.skip, l.pc.reserve)
  }

  lemma BreakActs(s: State, t: nat, sys: Kernel)
    requires t < |s.threads| && s.threads[t].Work? && s.threads[t].k < |s.arenas| == |s.locks|
    requires s.threads[t].pc.ReadReserve? || s.threads[t].pc.ReadBrk?
    ensures var l := s.threads[t];
      Perform(s, t, l, ActOf(s, s.arenas[l.k], l, sys)) ==
        s.(sbrkLock := s.sbrkLock, contended := s.contended, threads := s.threads[t := l.(pc := AfterBreak(s, l, sys))])
  {
    hide Refuses, Size;
  }

  lemma AskedRegion(s: State, l: Local, sys: Kernel)
    requires l.Work? && (l.pc.ReadReserve? || l.pc.ReadBrk?) && 0 < s.brk && s.brk % 8 == 0 && (l.pc.ReadBrk? ==> l.pc.reserve % 8 == 0)
    ensures var pc := AfterBreak(s, l, sys);
      && (pc.ReadBrk? || pc.WriteBrk? || pc == Unlock(0)) && HasSbrk(l) && HasSbrk(l.(pc := pc))
      && (pc.ReadBrk? ==> pc.reserve % 8 == 0) && (pc.WriteBrk? ==> RegionOk(s, l, pc.base, pc.reserve))
  {
    hide Size;
  }

  lemma UnlockKeeps(s: State, t: nat)
    requires Inv(s) && t < |s.threads| && s.threads[t].Work? && |s.arenas| == |s.locks| == ARENAS && s.threads[t].k < ARENAS
    requires s.threads[t].pc.Unlock?
    ensures Inv(Perform(s, t, s.threads[t], GiveSbrk(if s.threads[t].pc.base == 0 then Leave(0) else Storing(Cut(s.threads[t].pc.base)))))
  {
    WorkFacts(s, t);
    InvParts(s);
    var l := s.threads[t];
    var l' := l.(pc := if l.pc.base == 0 then Leave(0) else Storing(Cut(l.pc.base)));
    UnlockedOk(s, s.arenas[l.k], l);
    SbrkGiven(s.sbrkLock, s.threads, t, l');
    hide *;
    LocalKeeps(s, t, l', None, s.contended);
  }

  lemma UnlockedOk(s: State, a: Arena, l: Local)
    requires l.Work? && l.pc.Unlock? && WorkOk(s, a, l)
    ensures WorkOk(s, a, l.(pc := if l.pc.base == 0 then Leave(0) else Storing(Cut(l.pc.base))))
  {
    hide Held, InList, StartsBlock;
  }

  // ---- Every step ----

  /** Every step of a thread in its arena keeps the invariant. */
  lemma WorkKeeps(s: State, t: nat, sys: Kernel)
    requires Inv(s) && t < |s.threads| && s.threads[t].Work? && |s.arenas| == |s.locks| == ARENAS && s.threads[t].k < ARENAS
    ensures Inv(Perform(s, t, s.threads[t], ActOf(s, s.arenas[s.threads[t].k], s.threads[t], sys)))
  {
    hide *;
    var l := s.threads[t];
    var a := s.arenas[l.k];
    Place(l);
    if Outside(l.pc) {
      RestIntro(s, t);
      RestActs(s, a, l, sys);
      OutsideKeeps(s, t, ActOf(s, a, l, sys));
    } else {
      InsideActs(s, a, l, sys);
      match l.pc {
        case WriteBrk(base, reserve) => ExtendKeeps(s, t, reserve, base);
        case Unlock(_) => UnlockKeeps(s, t);
        case Storing(_) => StoreKeeps(s, t);
        case ReadReserve => BreakKeeps(s, t, sys);
        case ReadBrk(_) => BreakKeeps(s, t, sys);
        case _ => FlagKeeps(s, t, sys);
      }
    }
  }

  /** The call is about to change its list, or has just changed it. */
  predicate Outside(pc: Pc) {
    !pc.ReadFlag? && !pc.TryLock? && !pc.MarkContended? && !pc.Wait? && !pc.ReadReserve? && !pc.ReadBrk? && !pc.WriteBrk? && !pc.Unlock? && !pc.Storing?
  }

  lemma Place(l: Local)
    requires l.Work?
    ensures Outside(l.pc) ==> !l.pc.Storing? && !Appending(l.pc) && !HasSbrk(l)
    ensures Outside(l.pc) || l.pc.ReadFlag? || l.pc.TryLock? || l.pc.MarkContended? || l.pc.Wait? || l.pc.ReadReserve? || l.pc.ReadBrk?
            || l.pc.WriteBrk? || l.pc.Unlock? || l.pc.Storing?
  {
  }

  /** What the call does outside the extension of the heap. */
  ghost predicate OutsideAct(a: Arena, m: Mem, l: Local, act: Act)
    requires l.Work?
  {
    var goal, mine, n := l.goal, l.mine, Size(l.goal);
    match l.pc
    case Begin => act == Start0(a, m, goal, mine)
    case Search(at) => act == Seek(a, m, n, mine, l.copy, at)
    case Mark(q) => act == Plan(FreedPlan(a, q, false), mine + {q + HEADER}, l.copy, Got(q))
    case Got(q) => act == Goto(if goal.Move? then CopyByte(q, 0) else Leave(q + HEADER))
    case Cut(base) => act == Plan(SplitPlan(m, a, base, n), mine, l.copy, Got(base))
    case CopyByte(q, i) =>
      act == if i < l.copy then Copy(q + HEADER + i, Target(goal) + i, CopyByte(q, i + 1))
             else Plan(FreedPlan(a, Header0(Target(goal)), true), mine - {Target(goal)}, l.copy, MergeNext(q + HEADER))
    case MergeNext(res) => act == Plan(JoinPlan(m, a, Header0(Target(goal))), mine, l.copy, MergePrev(res))
    case MergePrev(res) => act == Merge(a, m, Header0(Target(goal)), mine, l.copy, res)
    case Fit => act == Refit(a, m, Target(goal), n, mine, l.copy)
    case Leave(_) => act == Finish
    case _ => true
  }

  lemma RestActs(s: State, a: Arena, l: Local, sys: Kernel)
    requires l.Work?
    ensures OutsideAct(a, s.mem, l, ActOf(s, a, l, sys))
  {
    hide Seek, Merge, Refit, Start0, FreedPlan, SplitPlan, JoinPlan, Refuses, Size, Target, Header0;
  }

  lemma InsideActs(s: State, a: Arena, l: Local, sys: Kernel)
    requires l.Work?
    ensures l.pc.WriteBrk? ==> ActOf(s, a, l, sys) == Extend(l.pc.base, Size(l.goal) + l.pc.reserve)
    ensures l.pc.Unlock? ==> ActOf(s, a, l, sys) == GiveSbrk(if l.pc.base == 0 then Leave(0) else Storing(Cut(l.pc.base)))
    ensures l.pc.Storing? ==> ActOf(s, a, l, sys) == MakeStore
  {
    hide Seek, Merge, Refit, Start0, FreedPlan, SplitPlan, JoinPlan, Refuses, Size, Target, Header0;
  }

  lemma OutsideKeeps(s: State, t: nat, act: Act)
    requires AtRest(s, t) && Outside(s.threads[t].pc) && OutsideAct(s.arenas[s.threads[t].k], s.mem, s.threads[t], act)
    ensures Inv(Perform(s, t, s.threads[t], act))
  {
    RestIs(s, t);
    var l := s.threads[t];
    hide Inv, AtRest, Perform, Seek, Merge, Refit, Start0, FreedPlan, SplitPlan, JoinPlan, Appending, HasSbrk, Size, Target, Header0;
    match l.pc
    case Begin => BeginKeeps(s, t);
    case Search(_) => SearchKeeps(s, t);
    case Mark(_) => MarkKeeps(s, t);
    case Got(_) => GotKeeps(s, t);
    case Cut(_) => CutKeeps(s, t);
    case CopyByte(_, i) => { if i < l.copy { CopyKeeps(s, t); } else { CopyEnds(s, t); } }
    case MergeNext(_) => MergeNextKeeps(s, t);
    case MergePrev(_) => MergePrevKeeps(s, t);
    case Fit => FitKeeps(s, t);
    case Leave(_) => FinishKeeps(s, t);
    case _ => assert false;
  }

  lemma BeginKeeps(s: State, t: nat)
    requires AtRest(s, t) && s.threads[t].pc.Begin?
    ensures Inv(Perform(s, t, s.threads[t], Start0(s.arenas[s.threads[t].k], s.mem, s.threads[t].goal, s.threads[t].mine)))
  {
    hide *;
    RestIs(s, t);
    var l := s.threads[t];
    match l.goal
    case Give(_) => { GiveIs(s.arenas[l.k], s.mem, l.goal, l.mine); SearchBegins(s, t); }
    case Release(_) => ReleaseBegins(s, t);
    case Move(_, _) => MoveBegins(s, t);
  }

  lemma GiveIs(a: Arena, m: Mem, goal: Goal, mine: set<nat>)
    requires goal.Give?
    ensures Start0(a, m, goal, mine) == Goto(Search(a.head))
  {
  }

  lemma PokeKeeps(s: State, p: nat, x: nat, b: Byte)
    requires Inv(s) && x < |s.mem| && MayPoke(s, p, x)
    ensures Inv(s.(mem := s.mem[x := b]))
  {
    hide *;
    PokedLive(s, p, x);
    LiveAtHome(s, p);
    HomeAt(s, p);
    PokedInside(s, p, x);
    PayloadKeeps(s, s.home[p], p, x, b);
  }

  lemma PokedLive(s: State, p: nat, x: nat)
    requires MayPoke(s, p, x)
    ensures p in s.live
  {
  }

  lemma PokedInside(s: State, p: nat, x: nat)
    requires MayPoke(s, p, x) && p in s.home && s.home[p] < |s.arenas| && SameLive(s.arenas[s.home[p]], p)
    ensures InPayloads(s.arenas[s.home[p]], p, x)
  {
    var a := s.arenas[s.home[p]];
    var n: nat :| LiveIn(a.blocks, p, n) && p <= x < p + n;
    assert LiveIn(a.target, p, n);
  }

  /** Every step of every thread, and every write of a client, keeps the invariant. */
  lemma StepKeepsInv(s: State, c: Choice)
    requires Inv(s)
    ensures |s.arenas| == |s.locks| == ARENAS && Inv(Step(s, c))
  {
    hide Inv, MayStart, MayPoke, Perform, ActOf, Approach, Begun;
    InvSizes(s);
    if c.t < |s.threads| {
      var l := s.threads[c.t];
      match c
      case Start(t, k, goal) => if l.Idle? && MayStart(s, k, goal) { StartKeeps(s, t, k, goal); }
      case Poke(t, p, x, b) => if x < |s.mem| && MayPoke(s, p, x) { PokeKeeps(s, p, x, b); }
      case Go(t, sys) =>
        match l
        case Idle => IdleStays(s, t);
        case ReadArena(_, _) => ReadKeeps(s, t);
        case Want(_, _, _) => EnterKeeps(s, t);
        case Work(_, _, _, _, _) => if l.k < ARENAS { WorkKeeps(s, t, sys); }
    }
  }

  lemma IdleStays(s: State, t: nat)
    requires |s.arenas| == |s.locks| == ARENAS && t < |s.threads| && s.threads[t].Idle?
    ensures Approach(s, t) == s
  {
  }
}
