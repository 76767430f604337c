/**
Every step of every thread keeps the invariant of the allocator's machine.
*/
module HeapMachineSteps {
  import opened Bytes
  import opened FlatMemory
  import opened BlockLists
  import opened ArenaMemory
  import opened HeapViews
  import opened HeapCalls
  import opened ArenaEdits
  import opened Options
  import opened HeapMachine

  // ---- What changes of a list do to an allocation in it ----

  lemma HeldIs(bs: seq<Block>, i: nat, p: nat, n: nat)
    requires i < |bs| && bs[i].addr + HEADER == p && !bs[i].freed && n <= bs[i].size
    ensures Held(bs, p, n) && InList(bs, p)
  {
    assert LiveIn(bs, p, bs[i].size);
  }

  lemma HeldBlock(bs: seq<Block>, p: nat, n: nat) returns (i: nat)
    requires Held(bs, p, n)
    ensures i < |bs| && bs[i].addr + HEADER == p && !bs[i].freed && n <= bs[i].size && InList(bs, p)
  {
    var s: nat :| n <= s && LiveIn(bs, p, s);
    i :| 0 <= i < |bs| && bs[i].addr + HEADER == p && bs[i].size == s && !bs[i].freed;
  }

  lemma SplitHeld(bs: seq<Block>, i: nat, n: nat)
    requires i < |bs| && !bs[i].freed && n <= bs[i].size
    ensures Held(SplitAt(bs, i, n), bs[i].addr + HEADER, n)
  {
    HeldIs(SplitAt(bs, i, n), i, bs[i].addr + HEADER, n);
  }

  lemma SplitFree(bs: seq<Block>, i: nat, n: nat)
    requires i < |bs| && Holds(bs[i], n)
    ensures Vacant(SplitAt(bs, i, n), bs[i].addr, n)
  {
    var cs := SplitAt(bs, i, n);
    assert cs[i].addr == bs[i].addr && Holds(cs[i], n);
  }

  lemma JoinHeld(bs: seq<Block>, i: nat)
    requires i < |bs| && !bs[i].freed
    ensures Held(JoinAt(bs, i), bs[i].addr + HEADER, bs[i].size)
  {
    HeldIs(JoinAt(bs, i), i, bs[i].addr + HEADER, bs[i].size);
  }

  lemma JoinFree(bs: seq<Block>, i: nat)
    requires i < |bs| && bs[i].freed
    ensures Vacant(JoinAt(bs, i), bs[i].addr, 0)
  {
    var cs := JoinAt(bs, i);
    assert cs[i].addr == bs[i].addr && Holds(cs[i], 0);
  }

  lemma MarkFree(bs: seq<Block>, i: nat)
    requires i < |bs|
    ensures Vacant(SetFreed(bs, i, true), bs[i].addr, 0)
  {
    var cs := SetFreed(bs, i, true);
    assert cs[i].addr == bs[i].addr && Holds(cs[i], 0);
  }

  lemma MarkHeld(bs: seq<Block>, i: nat, n: nat)
    requires i < |bs| && n <= bs[i].size
    ensures Held(SetFreed(bs, i, false), bs[i].addr + HEADER, n)
  {
    HeldIs(SetFreed(bs, i, false), i, bs[i].addr + HEADER, n);
  }

  /** An allocation elsewhere in the list is held before and after. */
  lemma HeldKept(bs: seq<Block>, cs: seq<Block>, x: int, p: nat, n: nat)
    requires forall q, s: nat :: q != x ==> (LiveIn(bs, q, s) <==> LiveIn(cs, q, s))
    requires Held(bs, p, n) && p != x
    ensures Held(cs, p, n)
  {
    var s: nat :| n <= s && LiveIn(bs, p, s);
  }

  // ---- Where allocations are ----

  /** The header of an allocation that will be in the list lies in bytes of the arena. */
  lemma HeldOwned(m: Mem, brk: nat, owner: map<int, nat>, k: nat, a: Arena, p: nat)
    requires ArenaInv(m, brk, owner, k, a) && Held(a.target, p, 0)
    ensures HEADER < p <= brk && Owns(owner, k, p - HEADER)
  {
    var i := HeldBlock(a.target, p, 0);
    TargetParts(m, brk, owner, k, a);
    BlockPlaced(a.target, i, brk);
    assert InBlock(a.target[i], p - HEADER);
    assert Covers(a.target, p - HEADER);
  }

  lemma ArenaAt(s: State, k: nat)
    requires Inv(s) && k < ARENAS
    ensures |s.arenas| == |s.locks| == ARENAS && ArenaInv(s.mem, s.brk, s.owner, k, s.arenas[k])
  {
  }

  lemma HomeAt(s: State, p: nat)
    requires Inv(s) && p in s.home
    ensures s.home[p] < |s.arenas| == ARENAS && InList(s.arenas[s.home[p]].blocks, p) && Held(s.arenas[s.home[p]].target, p, 0)
  {
    assert AtHome(s.arenas, s.home[p], p);
  }

  /** An allocation in use is in no other arena. */
  lemma HomeOnly(s: State, p: nat, k: nat)
    requires Inv(s) && p in s.home && k < ARENAS && |s.arenas| == ARENAS && Held(s.arenas[k].target, p, 0)
    ensures s.home[p] == k
  {
    hide Inv, ArenaInv;
    HomeAt(s, p);
    ArenaAt(s, k);
    ArenaAt(s, s.home[p]);
    HeldOwned(s.mem, s.brk, s.owner, k, s.arenas[k], p);
    HeldOwned(s.mem, s.brk, s.owner, s.home[p], s.arenas[s.home[p]], p);
  }

  /** Nobody uses a block that is free. */
  lemma FreeNotHome(s: State, k: nat, i: nat)
    requires Inv(s) && k < ARENAS && |s.arenas| == ARENAS && i < |s.arenas[k].target| && s.arenas[k].target[i].freed
    ensures s.arenas[k].target[i].addr + HEADER !in s.home
  {
    var p, bs := s.arenas[k].target[i].addr + HEADER, s.arenas[k].target;
    hide Inv, ArenaInv;
    ArenaAt(s, k);
    TargetParts(s.mem, s.brk, s.owner, k, s.arenas[k]);
    if p in s.home {
      HomeAt(s, p);
      var j := s.home[p];
      ArenaAt(s, j);
      HeldOwned(s.mem, s.brk, s.owner, j, s.arenas[j], p);
      assert InBlock(bs[i], p - HEADER);
      assert Covers(bs, p - HEADER);
      var n := HeldBlock(bs, p, 0);
    }
  }

  // ---- The thread that steps ----

  lemma WorkFacts(s: State, t: nat)
    requires Inv(s) && t < |s.threads| && s.threads[t].Work?
    ensures var l := s.threads[t];
      && |s.arenas| == |s.locks| == ARENAS && l.k < ARENAS && s.locks[l.k] == Some(t)
      && ArenaInv(s.mem, s.brk, s.owner, l.k, s.arenas[l.k]) && WorkOk(s, s.arenas[l.k], l) && MineOk(s, l)
  {
    assert ThreadOk(s, s.threads[t]);
  }

  /** Nobody else holds the arena of thread `t`, or an allocation of its call. */
  lemma OnlyHolder(s: State, t: nat, u: nat)
    requires Inv(s) && t < |s.threads| && u < |s.threads| && u != t && s.threads[t].Work?
    ensures s.threads[u].Work? ==> s.threads[u].k != s.threads[t].k
    ensures Mine(s.threads[t]) !! Mine(s.threads[u]) && Mine(s.threads[t]) !! s.live
  {
    hide ArenasOk, HomesOk, LiveOk, ThreadOk;
    if u < t { assert Mine(s.threads[u]) !! Mine(s.threads[t]); }
  }

  // ---- Putting the parts together ----

  /** What a step leaves alone for the thread in state `l`. */
  ghost predicate Undisturbed(s: State, s': State, l: Local) {
    && (l.Work? ==> l.k < |s.arenas| == |s'.arenas| && s'.arenas[l.k] == s.arenas[l.k] && (l.pc.WriteBrk? ==> s'.brk == s.brk))
    && (forall p :: p in Mine(l) && p in s.home ==> p in s'.home && s'.home[p] == s.home[p])
  }

  lemma RegionStays(s: State, s': State, l: Local, bs: seq<Block>, pc: Pc)
    requires l.Work? && Expects(s, bs, l, pc) && |s'.mem| == |s.mem| && (pc.WriteBrk? ==> s'.brk == s.brk)
    ensures Expects(s', bs, l, pc)
  {
  }

  lemma WorkStays(s: State, s': State, l: Local, a: Arena)
    requires l.Work? && WorkOk(s, a, l) && |s'.mem| == |s.mem| && (l.pc.WriteBrk? ==> s'.brk == s.brk)
    ensures WorkOk(s', a, l)
  {
    hide Expects, Fresh, InList;
    if l.pc.Storing? {
      if !l.pc.next.Cut? { RegionStays(s, s', l, a.target, l.pc.next); }
    } else {
      RegionStays(s, s', l, a.target, l.pc);
    }
  }

  lemma OtherOk(s: State, s': State, l: Local)
    requires |s.arenas| == |s'.arenas| == ARENAS && ThreadOk(s, l) && Undisturbed(s, s', l) && |s'.mem| == |s.mem|
    ensures ThreadOk(s', l)
  {
    hide WorkOk;
    if l.Work? { WorkStays(s, s', l, s.arenas[l.k]); }
  }

  ghost predicate Shared(s: State) {
    && Sizes(s) && ArenasOk(s) && LocksOk(s) && SbrkOk(s.sbrkLock, s.threads) && HomesOk(s) && LiveOk(s) && HandsApart(s)
  }

  lemma Assemble(s: State, s': State, t: nat, l': Local)
    requires Inv(s) && t < |s.threads| && s'.threads == s.threads[t := l'] && |s'.mem| == |s.mem|
    requires Shared(s') && |s'.arenas| == ARENAS && ThreadOk(s', l')
    requires forall u :: 0 <= u < |s.threads| && u != t ==> Undisturbed(s, s', s.threads[u])
    ensures Inv(s')
  {
    hide ThreadOk, Undisturbed, ArenasOk, LocksOk, SbrkOk, HomesOk, LiveOk, HandsApart;
    forall u | 0 <= u < |s'.threads| ensures ThreadOk(s', s'.threads[u]) {
      if u != t {
        assert ThreadOk(s, s.threads[u]);
        OtherOk(s, s', s.threads[u]);
      }
    }
  }

  /** The thread stays in its arena, and nobody holds another. */
  lemma LocksStay(s: State, s': State, t: nat, l': Local)
    requires Inv(s) && t < |s.threads| && s.threads[t].Work? && l'.Work? && l'.k == s.threads[t].k
    requires s'.threads == s.threads[t := l'] && s'.locks == s.locks && |s'.arenas| == |s.arenas|
    requires forall j :: 0 <= j < |s.arenas| && j != l'.k ==> s'.arenas[j] == s.arenas[j]
    ensures |s.arenas| == |s.locks| == ARENAS && LocksOk(s')
  {
    hide ArenasOk, HomesOk, LiveOk, HandsApart, ThreadOk, SbrkOk;
  }

  lemma SbrkStays(lock: Option<nat>, threads: seq<Local>, t: nat, l': Local)
    requires SbrkOk(lock, threads) && t < |threads| && HasSbrk(l') == HasSbrk(threads[t])
    ensures SbrkOk(lock, threads[t := l'])
  {
  }

  /** No allocation is in two hands, if the call gives some up, or takes one that nobody uses. */
  lemma HandsStay(s: State, t: nat, l': Local, s': State)
    requires Inv(s) && t < |s.threads| && s'.threads == s.threads[t := l'] && s'.live == s.live
    requires forall p :: p in Mine(l') ==> p in Mine(s.threads[t]) || p !in s.home
    ensures HandsApart(s')
  {
    forall u | 0 <= u < |s.threads| ensures forall p :: p in Mine(s.threads[u]) ==> p in s.home {
      assert ThreadOk(s, s.threads[u]);
    }
    assert forall p :: p in s.live ==> p in s.home;
    hide ArenasOk, HomesOk, LiveOk, ThreadOk, SbrkOk, LocksOk;
  }

  lemma InvParts(s: State)
    requires Inv(s)
    ensures Sizes(s) && ArenasOk(s) && LocksOk(s) && SbrkOk(s.sbrkLock, s.threads) && HomesOk(s) && LiveOk(s) && HandsApart(s)
  {
  }

  // ---- Steps that change nothing but where a thread stands, and the lock of sbrk ----

  lemma LocalKeeps(s: State, t: nat, l': Local, lock: Option<nat>, contended: bool)
    requires Inv(s) && t < |s.threads| && s.threads[t].Work? && l'.Work?
    requires l' == s.threads[t].(pc := l'.pc)
    requires SbrkOk(lock, s.threads[t := l'])
    requires |s.arenas| == ARENAS && l'.k < ARENAS && WorkOk(s, s.arenas[l'.k], l')
    ensures Inv(s.(sbrkLock := lock, contended := contended, threads := s.threads[t := l']))
  {
    var s' := s.(sbrkLock := lock, contended := contended, threads := s.threads[t := l']);
    hide *;
    WorkFacts(s, t);
    LocksStay(s, s', t, l');
    SameMine(s.threads[t], l');
    HandsStay(s, t, l', s');
    InvParts(s);
    StillSame(s.threads, t, l');
    SameShared(s, s');
    WorkStays(s, s', l', s.arenas[l'.k]);
    MineHome(s, t);
    WorkThread(s', l');
    forall u | 0 <= u < |s.threads| && u != t ensures Undisturbed(s, s', s.threads[u]) {
      OtherWork(s, u);
      UndisturbedIntro(s, s', s.threads[u]);
    }
    Assemble(s, s', t, l');
  }

  lemma SameMine(l: Local, l': Local)
    requires l.Work? && l'.Work? && l' == l.(pc := l'.pc)
    ensures Mine(l') == Mine(l)
  {
  }

  lemma SameShared(s: State, s': State)
    requires Sizes(s) && ArenasOk(s) && HomesOk(s) && LiveOk(s)
    requires |s'.arenas| == |s'.locks| == ARENAS && LocksOk(s') && SbrkOk(s'.sbrkLock, s'.threads) && HandsApart(s')
    requires s'.mem == s.mem && s'.brk == s.brk && s'.owner == s.owner && s'.arenas == s.arenas && s'.home == s.home && s'.live == s.live
    requires forall p :: Still(s'.threads, p) ==> Still(s.threads, p)
    ensures Shared(s')
  {
    hide ArenaInv, LocksOk, SbrkOk, HandsApart, AtHome, SameLive, Still;
  }

  lemma StillSame(threads: seq<Local>, t: nat, l': Local)
    requires t < |threads| && (threads[t].Work? ==> l'.Work? && threads[t].mine <= l'.mine)
    ensures forall p :: Still(threads[t := l'], p) ==> Still(threads, p)
  {
    forall p | Still(threads[t := l'], p) ensures Still(threads, p) {
      assert l'.Work? ==> threads[t := l'][t].mine == l'.mine;
      StillBefore(threads, t, l', p);
    }
  }

  // ---- Planning a change ----

  /** The call gives up or takes no allocation but the one at `x`, which nobody else has. */
  ghost predicate MayPlan(s: State, l: Local, act: Act, x: nat)
    requires l.Work? && act.Plan? && |s.arenas| == ARENAS && l.k < ARENAS
  {
    var a := s.arenas[l.k];
    && Quiet(a) && Planned(s.mem, s.brk, s.owner, l.k, a, act.a, x)
    && (forall p :: p in act.mine ==> p in l.mine || p == x) && (forall p :: p in l.mine ==> p in act.mine || p == x)
    && (x in act.mine ==> InList(a.blocks, x) && Held(act.a.target, x, 0))
    && (x in s.home ==> x in l.mine) && (x in l.mine ==> x in s.home)
  }

  lemma RehomedAt(home: map<nat, nat>, k: nat, before: set<nat>, after: set<nat>, x: nat)
    requires (forall p :: p in after ==> p in before || p == x) && (forall p :: p in before ==> p in after || p == x)
    requires (x in home ==> x in before) && (x in before ==> x in home) && (x in before ==> home[x] == k)
    ensures var h := Rehomed(home, k, before, after);
      && (forall p :: p != x ==> (p in h <==> p in home) && (p in home ==> h[p] == home[p]))
      && (x in h <==> x in after) && (x in h ==> h[x] == k)
  {
  }

  /** The step plans the change `act` soundly. */
  ghost predicate Plans(s: State, t: nat, act: Act, x: nat, s': State) {
    && Inv(s) && t < |s.threads| && s.threads[t].Work? && act.Plan? && |s.arenas| == |s.locks| == ARENAS && s.threads[t].k < ARENAS
    && MayPlan(s, s.threads[t], act, x) && s' == Perform(s, t, s.threads[t], act)
  }

  lemma PlansParts(s: State, t: nat, act: Act, x: nat, s': State)
    requires Plans(s, t, act, x, s')
    ensures var l := s.threads[t];
      && Inv(s) && t < |s.threads| && l.Work? && act.Plan? && |s.arenas| == |s.locks| == ARENAS && l.k < ARENAS
      && s'.arenas == s.arenas[l.k := act.a] && s'.live == s.live && s'.locks == s.locks && s'.sbrkLock == s.sbrkLock
      && s'.mem == s.mem && s'.brk == s.brk && s'.owner == s.owner && s'.threads == s.threads[t := AfterPlan(l, act)]
      && ArenaInv(s.mem, s.brk, s.owner, l.k, act.a) && act.a.blocks == s.arenas[l.k].blocks
      && s.arenas[l.k].target == s.arenas[l.k].blocks
      && (forall q, n: nat :: q != x ==> (LiveIn(act.a.blocks, q, n) <==> LiveIn(act.a.target, q, n)))
      && (forall p :: p in act.mine ==> p in l.mine || p == x)
      && (x in act.mine ==> InList(act.a.blocks, x) && Held(act.a.target, x, 0))
  {
    hide Inv;
    QuietTarget(s, s.threads[t].k);
  }

  lemma PlansHome(s: State, t: nat, act: Act, x: nat, s': State)
    requires Plans(s, t, act, x, s')
    ensures t < |s.threads| && s.threads[t].Work? && act.Plan?
    ensures (forall p :: p != x ==> (p in s'.home <==> p in s.home) && (p in s.home ==> s'.home[p] == s.home[p]))
    ensures (x in s'.home <==> x in act.mine) && (x in s'.home ==> s'.home[x] == s.threads[t].k)
    ensures x in s.home ==> x in s.threads[t].mine
  {
    var l := s.threads[t];
    WorkFacts(s, t);
    hide Inv, Planned, ArenaInv, WorkOk, Rehomed;
    RehomedAt(s.home, l.k, l.mine, act.mine, x);
  }

  lemma PlanHome(s: State, t: nat, act: Act, x: nat, s': State, p: nat)
    requires Plans(s, t, act, x, s') && p in s'.home
    ensures AtHome(s'.arenas, s'.home[p], p)
  {
    hide *;
    PlansParts(s, t, act, x, s');
    PlansHome(s, t, act, x, s');
    var k := s.threads[t].k;
    if p != x {
      HomeAt(s, p);
      if s.home[p] == k { HeldKept(s.arenas[k].blocks, act.a.target, x, p, 0); }
    }
    AtHomeIntro(s'.arenas, s'.home[p], p);
  }

  lemma AtHomeIntro(arenas: seq<Arena>, k: nat, p: nat)
    requires k < |arenas| && InList(arenas[k].blocks, p) && Held(arenas[k].target, p, 0)
    ensures AtHome(arenas, k, p)
  {
  }

  lemma LiveStill(s: State, p: nat)
    requires HandsApart(s) && p in s.live
    ensures Still(s.threads, p)
  {
    forall t | 0 <= t < |s.threads| && s.threads[t].Work? ensures p !in s.threads[t].mine { assert Mine(s.threads[t]) !! s.live; }
  }

  lemma StillAtHome(s: State, p: nat)
    requires Inv(s) && p in s.home && Still(s.threads, p)
    ensures s.home[p] < |s.arenas| && SameLive(s.arenas[s.home[p]], p)
  {
    InvParts(s);
    hide Inv, SameLive, Still;
  }

  lemma LiveAtHome(s: State, p: nat)
    requires Inv(s) && p in s.live
    ensures p in s.home && s.home[p] < |s.arenas| && SameLive(s.arenas[s.home[p]], p) && Still(s.threads, p)
  {
    hide SameLive, Still, StillOk, HandsApart, Inv;
    InvParts(s);
    LiveStill(s, p);
    StillAtHome(s, p);
  }

  lemma PlanLive(s: State, t: nat, act: Act, x: nat, s': State, p: nat)
    requires Plans(s, t, act, x, s') && p in s.live
    ensures p in s'.home
  {
    hide *;
    PlansParts(s, t, act, x, s');
    PlansHome(s, t, act, x, s');
    LiveAtHome(s, p);
    OnlyHolderLive(s, t);
    MineOf(s.threads[t]);
  }

  lemma PlanStill(s: State, t: nat, act: Act, x: nat, s': State, p: nat)
    requires Plans(s, t, act, x, s') && p in s'.home && Still(s'.threads, p)
    ensures s'.home[p] < |s'.arenas| && SameLive(s'.arenas[s'.home[p]], p)
  {
    hide *;
    PlansParts(s, t, act, x, s');
    PlansHome(s, t, act, x, s');
    PlansMine(s, t, act, x, s');
    AfterPlanMine(s.threads[t], act);
    StillIn(s'.threads, t, p);
    StillBefore(s.threads, t, AfterPlan(s.threads[t], act), p);
    StillAtHome(s, p);
    if s.home[p] == s.threads[t].k { SameLivePlan(s.arenas[s.home[p]], act.a, x, p); }
  }

  lemma PlansMine(s: State, t: nat, act: Act, x: nat, s': State)
    requires Plans(s, t, act, x, s')
    ensures t < |s.threads| && s.threads[t].Work? && act.Plan? && forall p :: p in s.threads[t].mine ==> p in act.mine || p == x
  {
    hide Inv, Planned;
  }

  lemma AfterPlanMine(l: Local, act: Act)
    requires l.Work? && act.Plan?
    ensures AfterPlan(l, act).Work? && AfterPlan(l, act).mine == act.mine
  {
  }

  lemma StillIn(threads: seq<Local>, t: nat, p: nat)
    requires Still(threads, p) && t < |threads| && threads[t].Work?
    ensures p !in threads[t].mine
  {
  }

  lemma StillBefore(threads: seq<Local>, t: nat, l': Local, p: nat)
    requires t < |threads| && Still(threads[t := l'], p) && (threads[t].Work? ==> p !in threads[t].mine)
    ensures Still(threads, p)
  {
    forall u | 0 <= u < |threads| && threads[u].Work? ensures p !in threads[u].mine {
      if u != t { assert threads[t := l'][u] == threads[u]; }
    }
  }

  lemma MineOf(l: Local)
    ensures Mine(l) == if l.Idle? then {} else l.mine
  {
  }

  lemma SameLivePlan(a: Arena, b: Arena, x: nat, p: nat)
    requires p != x && forall q, n: nat :: q != x ==> (LiveIn(b.blocks, q, n) <==> LiveIn(b.target, q, n))
    ensures SameLive(b, p)
  {
  }

  lemma PlanHomes(s: State, t: nat, act: Act, x: nat, s': State)
    requires Plans(s, t, act, x, s')
    ensures HomesOk(s') && LiveOk(s')
  {
    hide Plans, AtHome, SameLive, Still;
    forall p | p in s'.home ensures AtHome(s'.arenas, s'.home[p], p) { PlanHome(s, t, act, x, s', p); }
    PlansParts(s, t, act, x, s');
    forall p | p in s'.live ensures p in s'.home { PlanLive(s, t, act, x, s', p); }
    forall p | p in s'.home && Still(s'.threads, p) ensures s'.home[p] < |s'.arenas| && SameLive(s'.arenas[s'.home[p]], p) { PlanStill(s, t, act, x, s', p); }
  }

  lemma PlanOther(s: State, t: nat, act: Act, x: nat, s': State, u: nat)
    requires Plans(s, t, act, x, s') && u < |s.threads| && u != t
    ensures Undisturbed(s, s', s.threads[u])
  {
    hide *;
    PlansParts(s, t, act, x, s');
    PlansHome(s, t, act, x, s');
    OnlyHolder(s, t, u);
    OtherWork(s, u);
    MineOf(s.threads[t]);
    UndisturbedIntro(s, s', s.threads[u]);
  }

  lemma UndisturbedIntro(s: State, s': State, l: Local)
    requires l.Work? ==> l.k < |s.arenas| == |s'.arenas| && s'.arenas[l.k] == s.arenas[l.k] && (l.pc.WriteBrk? ==> s'.brk == s.brk)
    requires forall p :: p in Mine(l) && p in s.home ==> p in s'.home && s'.home[p] == s.home[p]
    ensures Undisturbed(s, s', l)
  {
  }

  lemma QuietTarget(s: State, k: nat)
    requires Inv(s) && k < ARENAS
    ensures |s.arenas| == ARENAS && (Quiet(s.arenas[k]) ==> s.arenas[k].target == s.arenas[k].blocks)
  {
    ArenaAt(s, k);
  }

  lemma OnlyHolderLive(s: State, t: nat)
    requires Inv(s) && t < |s.threads|
    ensures Mine(s.threads[t]) !! s.live && forall p :: p in s.live ==> p in s.home
  {
    InvParts(s);
    hide Inv, ArenasOk, HomesOk, LocksOk, SbrkOk;
  }

  lemma PlanShared(s: State, t: nat, act: Act, x: nat, s': State)
    requires Plans(s, t, act, x, s') && !HasSbrk(s.threads[t]) && !HasSbrk(AfterPlan(s.threads[t], act))
    ensures Shared(s')
  {
    PlansParts(s, t, act, x, s');
    PlanHomes(s, t, act, x, s');
    var l' := AfterPlan(s.threads[t], act);
    PlansHome(s, t, act, x, s');
    LocksStay(s, s', t, l');
    HandsStay(s, t, l', s');
    InvParts(s);
    SbrkStays(s.sbrkLock, s.threads, t, l');
    hide Inv, ArenaInv, LocksOk, SbrkOk, HandsApart, HomesOk, LiveOk, Plans, LiveIn, InList, Held;
    assert ArenasOk(s');
  }

  lemma PlanThread(s: State, t: nat, act: Act, x: nat, s': State)
    requires Plans(s, t, act, x, s') && WorkOk(s, act.a, AfterPlan(s.threads[t], act)) && !HasSbrk(AfterPlan(s.threads[t], act))
    ensures |s'.arenas| == ARENAS && ThreadOk(s', AfterPlan(s.threads[t], act))
  {
    var l, l' := s.threads[t], AfterPlan(s.threads[t], act);
    PlansParts(s, t, act, x, s');
    PlansHome(s, t, act, x, s');
    WorkFacts(s, t);
    hide Inv, Plans, ArenaInv, LiveIn, InList, Held;
    WorkStays(s, s', l', act.a);
    hide WorkOk;
  }

  /** A change that is planned soundly keeps the invariant. */
  lemma PlanKeeps(s: State, t: nat, act: Act, x: nat)
    requires Inv(s) && t < |s.threads| && s.threads[t].Work? && act.Plan? && |s.arenas| == |s.locks| == ARENAS && s.threads[t].k < ARENAS
    requires MayPlan(s, s.threads[t], act, x)
    requires WorkOk(s, act.a, AfterPlan(s.threads[t], act)) && !HasSbrk(s.threads[t]) && !HasSbrk(AfterPlan(s.threads[t], act))
    ensures Inv(Perform(s, t, s.threads[t], act))
  {
    var s' := Perform(s, t, s.threads[t], act);
    assert Plans(s, t, act, x, s');
    hide *;
    PlansParts(s, t, act, x, s');
    PlanShared(s, t, act, x, s');
    PlanThread(s, t, act, x, s');
    forall u | 0 <= u < |s.threads| && u != t ensures Undisturbed(s, s', s.threads[u]) { PlanOther(s, t, act, x, s', u); }
    Assemble(s, s', t, AfterPlan(s.threads[t], act));
  }

  lemma OtherWork(s: State, u: nat)
    requires Inv(s) && u < |s.threads|
    ensures s.threads[u].Work? ==> s.threads[u].k < |s.arenas|
  {
    InvParts(s);
    hide ArenasOk, HomesOk, LiveOk, HandsApart;
  }

  // ---- Making a store ----

  function StoreCells(s: State, t: nat): Cells
    requires t < |s.threads| && s.threads[t].Work? && s.threads[t].k < |s.arenas| && s.arenas[s.threads[t].k].todo != []
  {
    var a := s.arenas[s.threads[t].k];
    Done(Cells(s.mem, a.head, a.tail), a.todo[0])
  }

  /** The thread makes the next store of the change under way. */
  ghost predicate Stores(s: State, t: nat, s': State) {
    && Inv(s) && t < |s.threads| && s.threads[t].Work? && s.threads[t].pc.Storing? && |s.arenas| == |s.locks| == ARENAS && s.threads[t].k < ARENAS
    && s' == Perform(s, t, s.threads[t], MakeStore)
  }

  lemma StoresParts(s: State, t: nat, s': State)
    requires Stores(s, t, s')
    ensures var l := s.threads[t];
      && Inv(s) && t < |s.threads| && l.Work? && l.pc.Storing? && |s.arenas| == |s.locks| == ARENAS && l.k < ARENAS
      && var a := s.arenas[l.k];
      && a.todo != [] && ArenaInv(s.mem, s.brk, s.owner, l.k, a) && WorkOk(s, a, l)
      && var c, l' := StoreCells(s, t), AfterStore(l, |a.todo| == 1);
      && s'.mem == c.mem && s'.arenas == s.arenas[l.k := Advanced(a, c)] && s'.home == Rehomed(s.home, l.k, l.mine, l'.mine)
      && s'.threads == s.threads[t := l'] && s'.live == s.live && s'.locks == s.locks && s'.sbrkLock == s.sbrkLock
      && s'.brk == s.brk && s'.owner == s.owner && l'.Work? && l'.k == l.k
  {
    WorkFacts(s, t);
    hide Inv, ArenaInv, Done, Advanced, Rehomed, Expects, Fresh, InList;
  }

  /** Other arenas do not notice a store. */
  lemma StoreArenas(s: State, t: nat, s': State)
    requires Stores(s, t, s')
    ensures |s'.arenas| == ARENAS && |s'.mem| == |s.mem| && ArenasOk(s')
  {
    hide Stores, Inv, ArenaInv, Done, AfterStore, WorkOk, Rehomed, Advanced;
    StoresParts(s, t, s');
    var k := s.threads[t].k;
    var a := s.arenas[k];
    StoreAdvances(s.mem, s.brk, s.owner, k, a);
    forall j | 0 <= j < ARENAS ensures ArenaInv(s'.mem, s'.brk, s'.owner, j, s'.arenas[j]) {
      ArenaAt(s, j);
      if j != k { StoreElsewhere(s.mem, s.brk, s.owner, k, a, j, s.arenas[j]); }
    }
  }

  lemma StoreElsewhere(m: Mem, brk: nat, owner: map<int, nat>, k: nat, a: Arena, j: nat, b: Arena)
    requires ArenaInv(m, brk, owner, k, a) && a.todo != [] && j != k && ArenaInv(m, brk, owner, j, b)
    ensures ArenaInv(Done(Cells(m, a.head, a.tail), a.todo[0]).mem, brk, owner, j, b)
  {
    hide ArenaInv, Done, Named, Layout, Listed;
    var m' := Done(Cells(m, a.head, a.tail), a.todo[0]).mem;
    TargetParts(m, brk, owner, j, b);
    HeadersOwned(m, brk, owner, j, b);
    forall x | 0 <= x < |m| && x in Owned(owner, j) ensures m'[x] == m[x] { StoreConfined(m, brk, owner, k, a, x); }
    assert SameOn(m, m', Owned(owner, j));
    hide SameOn;
    ArenaKept(m, m', brk, brk, owner, owner, j, b, Owned(owner, j));
  }

  /** The allocation that comes into use with the last store of an append, if this is one. */
  lemma StoreHome(s: State, t: nat, s': State)
    requires Stores(s, t, s')
    ensures t < |s.threads| && s.threads[t].Work? && s.threads[t].k < |s.arenas|
    ensures var l, a := s.threads[t], s.arenas[s.threads[t].k];
      var l' := AfterStore(l, |a.todo| == 1);
      && (forall p :: p in s.home ==> p in s'.home && s'.home[p] == s.home[p])
      && (forall p :: p in s'.home && p !in s.home ==> p in l'.mine && s'.home[p] == l.k && |a.todo| == 1 && Held(a.target, p, 0))
      && (forall p :: p in l'.mine ==> p in l.mine || p !in s.home)
      && (forall p :: p in l'.mine ==> p in s'.home && s'.home[p] == l.k)
  {
    hide *;
    StoresParts(s, t, s');
    var l, a := s.threads[t], s.arenas[s.threads[t].k];
    var l' := AfterStore(l, |a.todo| == 1);
    MineHome(s, t);
    StoringBase(s, a, l);
    if |a.todo| == 1 && l.pc.next.Cut? { BaseIsNew(s, t); }
    MoreMine(l, |a.todo| == 1);
    RehomedMore(s.home, l.k, l.mine, l'.mine);
  }

  lemma MineHome(s: State, t: nat)
    requires Inv(s) && t < |s.threads| && s.threads[t].Work?
    ensures forall p :: p in s.threads[t].mine ==> p in s.home && s.home[p] == s.threads[t].k
  {
    WorkFacts(s, t);
    hide Inv, ArenaInv, WorkOk;
  }

  lemma StoringBase(s: State, a: Arena, l: Local)
    requires l.Work? && l.pc.Storing? && WorkOk(s, a, l)
    ensures l.pc.next.Cut? ==> Appending(l.pc)
  {
    hide Expects, Fresh, InList;
  }

  /** What a store adds to the allocations of the call. */
  lemma MoreMine(l: Local, last: bool)
    requires l.Work? && l.pc.Storing?
    ensures var l' := AfterStore(l, last);
      && l'.Work? && l'.k == l.k && l.mine <= l'.mine
      && forall p :: p in l'.mine && p !in l.mine ==> last && l.pc.next.Cut? && p == NewBase(l.pc) + HEADER
  {
  }

  lemma RehomedMore(home: map<nat, nat>, k: nat, before: set<nat>, after: set<nat>)
    requires before <= after
    ensures var h := Rehomed(home, k, before, after);
      && (forall p :: p in home && (p in before || p !in after) ==> p in h && h[p] == home[p])
      && (forall p :: p in after && p !in before ==> p in h && h[p] == k)
      && (forall p :: p in h ==> p in home || p in after)
  {
  }

  /** The new block is nobody's yet. */
  lemma BaseIsNew(s: State, t: nat)
    requires Inv(s) && t < |s.threads| && s.threads[t].Work? && s.threads[t].k < |s.arenas| && Appending(s.threads[t].pc)
    ensures NewBase(s.threads[t].pc) + HEADER !in s.home && Held(s.arenas[s.threads[t].k].target, NewBase(s.threads[t].pc) + HEADER, 0)
  {
    var l := s.threads[t];
    var p := NewBase(l.pc) + HEADER;
    WorkFacts(s, t);
    BaseFacts(s, s.arenas[l.k], l);
    hide *;
    HeldLess(s.arenas[l.k].target, p, Size(l.goal));
    if p in s.home {
      HomeAt(s, p);
      HomeOnly(s, p, l.k);
    }
  }

  lemma BaseFacts(s: State, a: Arena, l: Local)
    requires l.Work? && WorkOk(s, a, l) && Appending(l.pc)
    ensures Held(a.target, NewBase(l.pc) + HEADER, Size(l.goal)) && !InList(a.blocks, NewBase(l.pc) + HEADER)
  {
    hide Expects, InList, Held;
  }

  lemma HeldLess(bs: seq<Block>, p: nat, n: nat)
    ensures Held(bs, p, n) ==> Held(bs, p, 0)
  {
    if Held(bs, p, n) {
      var i := HeldBlock(bs, p, n);
      HeldIs(bs, i, p, 0);
    }
  }

  lemma HeldListed(bs: seq<Block>, p: nat, n: nat)
    requires Held(bs, p, n)
    ensures InList(bs, p)
  {
    var i := HeldBlock(bs, p, n);
  }

  lemma AdvancedParts(a: Arena, c: Cells)
    requires a.todo != []
    ensures var b := Advanced(a, c); b.target == a.target && b.blocks == (if |a.todo| == 1 then a.target else a.blocks) && |b.todo| == |a.todo| - 1
  {
  }

  lemma StoreHomes(s: State, t: nat, s': State)
    requires Stores(s, t, s')
    ensures HomesOk(s') && LiveOk(s')
  {
    hide Stores, Inv, ArenaInv, Done, AfterStore, WorkOk, Rehomed, Advanced, StoreCells, AtHome, Held, InList, SameLive, Still;
    StoresParts(s, t, s');
    StoreHome(s, t, s');
    var k := s.threads[t].k;
    var a, b := s.arenas[k], s'.arenas[k];
    AdvancedParts(a, StoreCells(s, t));
    forall p | p in s'.home ensures AtHome(s'.arenas, s'.home[p], p) {
      if p in s.home { HomeAt(s, p); }
      if s'.home[p] == k && |a.todo| == 1 { HeldListed(a.target, p, 0); }
      AtHomeIntro(s'.arenas, s'.home[p], p);
    }
    forall p | p in s'.live ensures p in s'.home { LiveAtHome(s, p); }
    forall p | p in s'.home && Still(s'.threads, p) ensures s'.home[p] < |s'.arenas| && SameLive(s'.arenas[s'.home[p]], p) {
      StoreStill(s, t, s', p);
      StillAtHome(s, p);
      if s'.home[p] == k { SameAdvanced(a, b, p); }
    }
  }

  /** An allocation that nobody inside an arena has in hands was so before the store. */
  lemma StoreStill(s: State, t: nat, s': State, p: nat)
    requires Stores(s, t, s') && p in s'.home && Still(s'.threads, p)
    ensures p in s.home && Still(s.threads, p)
  {
    hide *;
    StoresParts(s, t, s');
    StoreHome(s, t, s');
    var l := s.threads[t];
    var l' := AfterStore(l, |s.arenas[l.k].todo| == 1);
    StillIn(s'.threads, t, p);
    MoreMine(l, |s.arenas[l.k].todo| == 1);
    StillBefore(s.threads, t, l', p);
  }

  lemma SameAdvanced(a: Arena, b: Arena, p: nat)
    requires SameLive(a, p) && b.target == a.target && (b.blocks == a.target || b.blocks == a.blocks)
    ensures SameLive(b, p)
  {
    hide LiveIn;
  }

  lemma StoreShared(s: State, t: nat, s': State)
    requires Stores(s, t, s')
    ensures |s'.mem| == |s.mem| && Shared(s')
  {
    StoreArenas(s, t, s');
    StoreHomes(s, t, s');
    StoresParts(s, t, s');
    StoreHome(s, t, s');
    var l' := s'.threads[t];
    LocksStay(s, s', t, l');
    HandsStay(s, t, l', s');
    InvParts(s);
    StoringNotSbrk(s.threads[t], |s.arenas[l'.k].todo| == 1, s, s.arenas[l'.k]);
    SbrkStays(s.sbrkLock, s.threads, t, l');
    hide Stores, Inv, ArenaInv, ArenasOk, LocksOk, SbrkOk, HandsApart, HomesOk, LiveOk, Advanced, Done, WorkOk, Rehomed, Held, InList, StoreCells, AfterStore;
  }

  lemma StoringNotSbrk(l: Local, last: bool, s: State, a: Arena)
    requires l.Work? && l.pc.Storing? && WorkOk(s, a, l)
    ensures !HasSbrk(l) && !HasSbrk(AfterStore(l, last))
  {
    hide Expects, Fresh, InList;
  }

  /** The call goes on with the new list as it was promised. */
  lemma StoreWork(s: State, t: nat, s': State)
    requires Stores(s, t, s')
    ensures t < |s'.threads| && s'.threads[t].Work? && s'.threads[t].k < |s'.arenas| && WorkOk(s', s'.arenas[s'.threads[t].k], s'.threads[t])
  {
    StoresParts(s, t, s');
    var l, a := s.threads[t], s.arenas[s.threads[t].k];
    var c, l' := StoreCells(s, t), AfterStore(l, |a.todo| == 1);
    AdvancedParts(a, c);
    hide Stores, Inv, ArenaInv, Advanced, Done, Rehomed, InList, StoreCells;
    assert |s'.mem| == |s.mem| && s'.arenas[l.k] == Advanced(a, c);
    if |a.todo| > 1 {
      StillStoring(s, s', a, Advanced(a, c), l);
    } else {
      LastStore(s, s', a, Advanced(a, c), l);
    }
  }

  lemma StillStoring(s: State, s': State, a: Arena, b: Arena, l: Local)
    requires l.Work? && l.pc.Storing? && WorkOk(s, a, l) && |s'.mem| == |s.mem| && s'.brk == s.brk
    requires b.todo != [] && b.target == a.target && b.blocks == a.blocks
    ensures WorkOk(s', b, l)
  {
    hide Expects, Fresh, InList;
    if !l.pc.next.Cut? { RegionStays(s, s', l, a.target, l.pc.next); }
  }

  lemma LastStore(s: State, s': State, a: Arena, b: Arena, l: Local)
    requires l.Work? && l.pc.Storing? && WorkOk(s, a, l) && |s'.mem| == |s.mem| && s'.brk == s.brk
    requires b.todo == [] && b.target == a.target
    ensures WorkOk(s', b, AfterStore(l, true))
  {
    hide InList, Held;
  }

  /** Every store of a change keeps the invariant. */
  lemma StoreKeeps(s: State, t: nat)
    requires Inv(s) && t < |s.threads| && s.threads[t].Work? && s.threads[t].pc.Storing? && |s.arenas| == |s.locks| == ARENAS && s.threads[t].k < ARENAS
    ensures Inv(Perform(s, t, s.threads[t], MakeStore))
  {
    var s' := Perform(s, t, s.threads[t], MakeStore);
    assert Stores(s, t, s');
    hide Inv, Stores, Perform, Shared, ThreadOk, WorkOk, Undisturbed, AfterStore, Rehomed, Advanced, StoreCells, ArenaInv, Held;
    StoresParts(s, t, s');
    StoreShared(s, t, s');
    StoreHome(s, t, s');
    StoreWork(s, t, s');
    var l' := s'.threads[t];
    WorkThread(s', l');
    forall u | 0 <= u < |s.threads| && u != t ensures Undisturbed(s, s', s.threads[u]) { StoreOther(s, t, s', u); }
    Assemble(s, s', t, l');
  }

  lemma WorkThread(s: State, l: Local)
    requires |s.arenas| == ARENAS && l.Work? && l.k < ARENAS && WorkOk(s, s.arenas[l.k], l)
    requires forall p :: p in l.mine ==> p in s.home && s.home[p] == l.k
    ensures ThreadOk(s, l)
  {
    hide WorkOk;
  }

  lemma StoreOther(s: State, t: nat, s': State, u: nat)
    requires Stores(s, t, s') && u < |s.threads| && u != t
    ensures Undisturbed(s, s', s.threads[u])
  {
    hide *;
    StoresParts(s, t, s');
    StoreHome(s, t, s');
    OnlyHolder(s, t, u);
    OtherWork(s, u);
    UndisturbedIntro(s, s', s.threads[u]);
  }

  // ---- Writing the break ----

  /** The thread writes the break, and with it obtains a region. */
  ghost predicate Extends(s: State, t: nat, reserve: nat, base: nat, s': State) {
    && Inv(s) && t < |s.threads| && s.threads[t].Work? && s.threads[t].pc == WriteBrk(base, reserve)
    && |s.arenas| == |s.locks| == ARENAS && s.threads[t].k < ARENAS
    && s' == Perform(s, t, s.threads[t], Extend(base, Size(s.threads[t].goal) + reserve))
  }

  lemma ExtendsParts(s: State, t: nat, reserve: nat, base: nat, s': State)
    requires Extends(s, t, reserve, base, s')
    ensures var l := s.threads[t];
      && Inv(s) && t < |s.threads| && l.Work? && l.pc == WriteBrk(base, reserve) && |s.arenas| == |s.locks| == ARENAS && l.k < ARENAS
      && Rounded(Size(l.goal) + reserve) && !l.goal.Release? && 0 < s.brk <= base && base % 8 == 0
      && base + HEADER + (Size(l.goal) + reserve) <= |s.mem|
      && var a, n := s.arenas[l.k], Size(l.goal) + reserve;
      && Quiet(a) && MoveOk(a.target, l)
      && s'.brk == base + (HEADER + n) && s'.owner == Grown(s.owner, base, HEADER + n, l.k)
      && s'.arenas == s.arenas[l.k := AppendPlan(l.k, a, base, n)] && s'.mem == s.mem && s'.home == s.home && s'.live == s.live
      && s'.threads == s.threads[t := l.(pc := Unlock(base))] && s'.locks == s.locks && s'.sbrkLock == s.sbrkLock
  {
    WorkFacts(s, t);
    hide Inv, ArenaInv, Grown, AppendPlan, Held, InList;
  }

  lemma OwnerBelow(s: State)
    requires Inv(s)
    ensures 0 < s.brk <= |s.mem| <= WORD && s.brk % 8 == 0
    ensures forall x :: x in s.owner ==> x < s.brk && s.owner[x] < ARENAS
  {
    InvParts(s);
    hide Inv, ArenasOk, HomesOk, LiveOk, LocksOk, SbrkOk, HandsApart;
  }

  lemma ExtendSizes(s: State, t: nat, reserve: nat, base: nat, s': State)
    requires Extends(s, t, reserve, base, s')
    ensures Sizes(s')
  {
    ExtendsParts(s, t, reserve, base, s');
    OwnerBelow(s);
    hide Extends, Inv, ArenaInv, AppendPlan, MoveOk, Grown;
  }

  lemma ExtendArena(s: State, t: nat, reserve: nat, base: nat, s': State, j: nat)
    requires Extends(s, t, reserve, base, s') && j < ARENAS
    ensures j < |s'.arenas| && ArenaInv(s'.mem, s'.brk, s'.owner, j, s'.arenas[j])
  {
    hide *;
    ExtendsParts(s, t, reserve, base, s');
    OwnerBelow(s);
    ArenaAt(s, j);
    var k, n := s.threads[t].k, Size(s.threads[t].goal) + reserve;
    if j == k {
      AppendPlanned(s.mem, s.brk, s.owner, k, s.arenas[k], base, n);
    } else {
      SizesAligned(s', base, n);
      ExtendSizes(s, t, reserve, base, s');
      GrownOwner(s.owner, base, HEADER + n, k, j);
      HeadersOwned(s.mem, s.brk, s.owner, j, s.arenas[j]);
      SameSelf(s.mem, Owned(s.owner, j));
      ArenaKept(s.mem, s.mem, s.brk, s'.brk, s.owner, s'.owner, j, s.arenas[j], Owned(s.owner, j));
    }
  }

  lemma SizesAligned(s: State, base: nat, n: nat)
    requires base % 8 == 0 && Rounded(n) && s.brk == base + (HEADER + n)
    ensures s.brk % 8 == 0
  {
  }

  lemma SameSelf(m: Mem, h: iset<int>)
    ensures SameOn(m, m, h)
  {
  }

  lemma ExtendArenas(s: State, t: nat, reserve: nat, base: nat, s': State)
    requires Extends(s, t, reserve, base, s')
    ensures |s'.arenas| == ARENAS && Sizes(s') && ArenasOk(s')
  {
    ExtendsParts(s, t, reserve, base, s');
    ExtendSizes(s, t, reserve, base, s');
    hide Extends, Inv, ArenaInv, AppendPlan, Rounded, MoveOk, Sizes;
    forall j | 0 <= j < ARENAS ensures ArenaInv(s'.mem, s'.brk, s'.owner, j, s'.arenas[j]) { ExtendArena(s, t, reserve, base, s', j); }
  }

  lemma HeldAppend(bs: seq<Block>, b: Block, p: nat, n: nat)
    requires Held(bs, p, n)
    ensures Held(bs + [b], p, n)
  {
    var i := HeldBlock(bs, p, n);
    HeldIs(bs + [b], i, p, n);
  }

  lemma BelowBase(s: State, p: nat)
    requires Inv(s) && p in s.home
    ensures HEADER < p <= s.brk
  {
    HomeAt(s, p);
    hide Inv, ArenaInv;
    ArenaAt(s, s.home[p]);
    HeldOwned(s.mem, s.brk, s.owner, s.home[p], s.arenas[s.home[p]], p);
  }

  lemma ExtendHomes(s: State, t: nat, reserve: nat, base: nat, s': State)
    requires Extends(s, t, reserve, base, s')
    ensures HomesOk(s') && LiveOk(s')
  {
    hide Extends, Inv, ArenaInv, Grown, Rounded, MoveOk, Held, InList, AtHome, SameLive, AppendPlan, Still;
    ExtendsParts(s, t, reserve, base, s');
    var l := s.threads[t];
    var k, n := l.k, Size(l.goal) + reserve;
    AppendParts(k, s.arenas[k], base, n);
    QuietTarget(s, k);
    forall p | p in s'.home ensures AtHome(s'.arenas, s'.home[p], p) {
      HomeAt(s, p);
      if s.home[p] == k { HeldAppend(s.arenas[k].target, Block(base, n, false), p, 0); }
      AtHomeIntro(s'.arenas, s'.home[p], p);
    }
    forall p | p in s'.live ensures p in s'.home { LiveAtHome(s, p); }
    StillSame(s.threads, t, l.(pc := Unlock(base)));
    forall p | p in s'.home && Still(s'.threads, p) ensures s'.home[p] < |s'.arenas| && SameLive(s'.arenas[s'.home[p]], p) {
      StillAtHome(s, p);
      BelowBase(s, p);
      if s.home[p] == k { SameLiveAppend(s.arenas[k], s'.arenas[k], Block(base, n, false), p); }
    }
  }

  lemma SameLiveAppend(a: Arena, a': Arena, b: Block, p: nat)
    requires p != b.addr + HEADER && a'.target == a.blocks + [b] && a'.blocks == a.blocks
    ensures SameLive(a', p)
  {
    forall n: nat ensures LiveIn(a'.blocks, p, n) <==> LiveIn(a'.target, p, n) { AppendLive(a.blocks, b, p, n); }
  }

  lemma ExtendWork(s: State, t: nat, reserve: nat, base: nat, s': State)
    requires Extends(s, t, reserve, base, s')
    ensures t < |s.threads| && s.threads[t].Work? && s.threads[t].k < |s'.arenas|
    ensures WorkOk(s', s'.arenas[s.threads[t].k], s.threads[t].(pc := Unlock(base)))
  {
    hide Extends, Inv, ArenaInv, Grown, Rounded, MoveOk, Held, InList, AppendPlan, Expects, Fresh;
    ExtendsParts(s, t, reserve, base, s');
    var l := s.threads[t];
    var k, n := l.k, Size(l.goal) + reserve;
    var a, b := s.arenas[k], Block(base, n, false);
    AppendParts(k, a, base, n);
    ThreeWrites(k, a.head, a.tail, base, n);
    QuietTarget(s, k);
    WorkFacts(s, t);
    NewBlock(a.blocks, b, Size(l.goal));
    NotYetListed(s, k, base);
    MineHome(s, t);
    if l.goal.Move? {
      MoveHeld(a.blocks, l);
      BelowBase(s, l.goal.p);
      HeldAppend(a.blocks, b, l.goal.p, l.copy);
    }
    UnlockOk(s', s'.arenas[k], l, base, s, a);
  }

  lemma NewBlock(bs: seq<Block>, b: Block, n: nat)
    requires !b.freed && n <= b.size
    ensures Held(bs + [b], b.addr + HEADER, n)
  {
    HeldIs(bs + [b], |bs|, b.addr + HEADER, n);
  }

  lemma NotYetListed(s: State, k: nat, base: nat)
    requires Inv(s) && k < ARENAS && s.brk <= base
    ensures |s.arenas| == ARENAS && !InList(s.arenas[k].blocks, base + HEADER)
  {
    ArenaAt(s, k);
    hide Inv;
    ListParts(s.mem, s.brk, s.owner, k, s.arenas[k]);
    hide ArenaInv;
    var bs := s.arenas[k].blocks;
    forall i | 0 <= i < |bs| ensures bs[i].addr != base { assert BlockOk(bs[i], s.brk); }
  }

  lemma MoveHeld(bs: seq<Block>, l: Local)
    requires l.Work? && MoveOk(bs, l) && l.goal.Move?
    ensures l.goal.p in l.mine && l.copy < l.goal.n && Held(bs, l.goal.p, l.copy)
  {
  }

  lemma UnlockOk(s': State, a': Arena, l: Local, base: nat, s: State, a: Arena)
    requires l.Work? && l.pc.WriteBrk? && WorkOk(s, a, l) && !l.goal.Release? && a'.todo != []
    requires l.goal.Move? ==> l.goal.p in l.mine && l.copy < l.goal.n && Held(a'.target, l.goal.p, l.copy) && l.goal.p < base + HEADER
    requires Held(a'.target, base + HEADER, Size(l.goal)) && !InList(a'.blocks, base + HEADER) && base > 0
    ensures WorkOk(s', a', l.(pc := Unlock(base)))
  {
    hide Held, InList;
  }

  /** Whoever holds the lock of `sbrk` is alone in writing the break. */
  lemma OnlyWriter(s: State, t: nat, u: nat)
    requires Inv(s) && t < |s.threads| && u < |s.threads| && u != t && s.threads[t].Work? && s.threads[t].pc.WriteBrk?
    ensures s.threads[u].Work? ==> !s.threads[u].pc.WriteBrk?
  {
    InvParts(s);
    hide Inv, Sizes, ArenasOk, LocksOk, HomesOk, LiveOk, HandsApart;
  }

  lemma ExtendKeeps(s: State, t: nat, reserve: nat, base: nat)
    requires Inv(s) && t < |s.threads| && s.threads[t].Work? && s.threads[t].pc == WriteBrk(base, reserve)
    requires |s.arenas| == |s.locks| == ARENAS && s.threads[t].k < ARENAS
    ensures Inv(Perform(s, t, s.threads[t], Extend(base, Size(s.threads[t].goal) + reserve)))
  {
    var s' := Perform(s, t, s.threads[t], Extend(base, Size(s.threads[t].goal) + reserve));
    var l' := s.threads[t].(pc := Unlock(base));
    assert Extends(s, t, reserve, base, s');
    assert HasSbrk(l') == HasSbrk(s.threads[t]);
    hide *;
    ExtendsParts(s, t, reserve, base, s');
    ExtendArenas(s, t, reserve, base, s');
    ExtendHomes(s, t, reserve, base, s');
    ExtendWork(s, t, reserve, base, s');
    LocksStay(s, s', t, l');
    SameMine(s.threads[t], l');
    HandsStay(s, t, l', s');
    InvParts(s);
    SbrkStays(s.sbrkLock, s.threads, t, l');
    SharedIntro(s');
    MineHome(s, t);
    WorkThread(s', l');
    forall u | 0 <= u < |s.threads| && u != t ensures Undisturbed(s, s', s.threads[u]) {
      OtherWork(s, u);
      OnlyHolder(s, t, u);
      OnlyWriter(s, t, u);
      UndisturbedIntro(s, s', s.threads[u]);
    }
    Assemble(s, s', t, l');
  }

  lemma SharedIntro(s: State)
    requires Sizes(s) && ArenasOk(s) && LocksOk(s) && SbrkOk(s.sbrkLock, s.threads) && HomesOk(s) && LiveOk(s) && HandsApart(s)
    ensures Shared(s)
  {
  }

  // ---- Writing a payload ----

  /** The byte at `x` lies in the allocation at `p`, before and after the change under way. */
  ghost predicate InPayloads(a: Arena, p: nat, x: nat) {
    && (exists n: nat :: LiveIn(a.blocks, p, n) && p <= x < p + n)
    && (exists n: nat :: LiveIn(a.target, p, n) && p <= x < p + n)
  }

  lemma PayloadArena(m: Mem, brk: nat, owner: map<int, nat>, k: nat, a: Arena, p: nat, x: nat, b: Byte)
    requires ArenaInv(m, brk, owner, k, a) && InPayloads(a, p, x) && x < |m|
    ensures ArenaInv(m[x := b], brk, owner, k, a)
  {
    ListParts(m, brk, owner, k, a);
    TargetParts(m, brk, owner, k, a);
    var n: nat :| LiveIn(a.blocks, p, n) && p <= x < p + n;
    PayloadApart(a.blocks, brk, p, n, x);
    var n': nat :| LiveIn(a.target, p, n') && p <= x < p + n';
    PayloadApart(a.target, brk, p, n', x);
    assert SameOn(m, m[x := b], Except(x));
    hide ArenaInv, Named, Layout, SameOn, Except, LiveIn, HeadersIn;
    ArenaKept(m, m[x := b], brk, brk, owner, owner, k, a, Except(x));
  }

  lemma PayloadOwned(m: Mem, brk: nat, owner: map<int, nat>, k: nat, a: Arena, p: nat, x: nat)
    requires ArenaInv(m, brk, owner, k, a) && InPayloads(a, p, x)
    ensures Owns(owner, k, x) && x < |m|
  {
    TargetParts(m, brk, owner, k, a);
    var n: nat :| LiveIn(a.target, p, n) && p <= x < p + n;
    var i :| 0 <= i < |a.target| && a.target[i].addr + HEADER == p && a.target[i].size == n && !a.target[i].freed;
    assert InBlock(a.target[i], x);
    assert Covers(a.target, x);
    assert BlockOk(a.target[i], brk);
  }

  lemma PayloadArenas(s: State, k: nat, p: nat, x: nat, b: Byte)
    requires Inv(s) && k < ARENAS && |s.arenas| == ARENAS && InPayloads(s.arenas[k], p, x) && x < |s.mem|
    ensures ArenasOk(s.(mem := s.mem[x := b]))
  {
    hide Inv, ArenaInv, InPayloads;
    ArenaAt(s, k);
    PayloadOwned(s.mem, s.brk, s.owner, k, s.arenas[k], p, x);
    forall j | 0 <= j < ARENAS ensures ArenaInv(s.mem[x := b], s.brk, s.owner, j, s.arenas[j]) {
      ArenaAt(s, j);
      if j == k {
        PayloadArena(s.mem, s.brk, s.owner, k, s.arenas[k], p, x, b);
      } else {
        HeadersOwned(s.mem, s.brk, s.owner, j, s.arenas[j]);
        TargetParts(s.mem, s.brk, s.owner, j, s.arenas[j]);
        assert SameOn(s.mem, s.mem[x := b], Owned(s.owner, j));
        ArenaKept(s.mem, s.mem[x := b], s.brk, s.brk, s.owner, s.owner, j, s.arenas[j], Owned(s.owner, j));
      }
    }
  }

  lemma MemoryShared(s: State, s': State)
    requires Inv(s) && s' == s.(mem := s'.mem) && |s'.mem| == |s.mem| && |s'.arenas| == ARENAS && ArenasOk(s')
    ensures Shared(s')
  {
    InvParts(s);
    hide Inv, ArenasOk, HomesOk, LiveOk, SbrkOk, HandsApart;
    SameHomes(s, s');
  }

  lemma SameHomes(s: State, s': State)
    requires s' == s.(mem := s'.mem)
    ensures HomesOk(s) ==> HomesOk(s')
    ensures LiveOk(s) ==> LiveOk(s')
    ensures HandsApart(s) ==> HandsApart(s')
  {
    hide AtHome, SameLive, Mine, Still;
  }

  /** A write to the payload of an allocation keeps the invariant. */
  lemma PayloadKeeps(s: State, k: nat, p: nat, x: nat, b: Byte)
    requires Inv(s) && k < ARENAS && |s.arenas| == ARENAS && InPayloads(s.arenas[k], p, x) && x < |s.mem|
    ensures Inv(s.(mem := s.mem[x := b]))
  {
    var s' := s.(mem := s.mem[x := b]);
    hide *;
    PayloadArenas(s, k, p, x, b);
    MemoryShared(s, s');
    forall u | 0 <= u < |s'.threads| ensures ThreadOk(s', s'.threads[u]) {
      ThreadAt(s, u);
      OtherWork(s, u);
      UndisturbedIntro(s, s', s.threads[u]);
      OtherOk(s, s', s.threads[u]);
    }
    InvIntro(s');
  }

  lemma ThreadAt(s: State, u: nat)
    requires Inv(s) && u < |s.threads|
    ensures |s.arenas| == ARENAS && ThreadOk(s, s.threads[u])
  {
  }

  lemma InvIntro(s: State)
    requires Shared(s) && |s.arenas| == ARENAS && forall u :: 0 <= u < |s.threads| ==> ThreadOk(s, s.threads[u])
    ensures Inv(s)
  {
    hide ThreadOk;
  }
}
