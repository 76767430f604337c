/**
`realloc` keeps the bytes, under every schedule: from the moment that it is called until it returns, while
other threads change headers around its blocks, the bytes that its client left in the allocation are where
the call can find them.
*/
module HeapMachineMoves {
  import opened Bytes
  import opened FlatMemory
  import opened BlockLists
  import opened ArenaMemory
  import opened HeapViews
  import opened ArenaEdits
  import opened Options
  import opened HeapMachine
  import opened HeapMachineSteps
  import opened HeapMachineInv
  import opened HeapMachineRuns
  import opened HeapMachineCalls
  import opened HeapMachineProgress
  import opened HeapMachineResults

  // ---- Where the bytes are ----

  /** The first `n` bytes of `data` are in memory at `p`. */
  ghost predicate Reads(m: Mem, p: nat, data: seq<Byte>, n: nat) {
    n <= |data| && p + n <= |m| && forall x :: p <= x < p + n ==> m[x] == data[x - p]
  }

  /** The allocation at `p` has at least `n` bytes. */
  ghost predicate Room(s: State, p: nat, n: nat) {
    exists u: nat :: n <= u && InUse(s, p, u)
  }

  function Min(a: nat, b: nat): nat {
    if a <= b then a else b
  }

  /** The bytes are still in the block that is to be moved. */
  predicate KeepsOld(l: Local) {
    l.Work? ==> !Ahead(l.pc).MergeNext? && !Ahead(l.pc).MergePrev? && (Ahead(l.pc).Leave? ==> Ahead(l.pc).res == 0)
  }

  /** Where the call has copied the bytes to, and how many of them. */
  function NewSpot(l: Local, n: nat, size: nat): (nat, nat) {
    if !l.Work? then (0, 0)
    else
      match Ahead(l.pc)
      case CopyByte(q, i) => (q + HEADER, Min(i, size))
      case MergeNext(res) => (res, Min(size, n))
      case MergePrev(res) => (res, Min(size, n))
      case Leave(res) => if res == 0 then (0, 0) else (res, Min(size, n))
      case _ => (0, 0)
  }

  /** A move has read the size of its block. */
  predicate SizeRead(l: Local) {
    l.Work? && !Ahead(l.pc).Begin? && !Ahead(l.pc).Leave?
  }

  /** The bytes of a move are where they belong. */
  ghost predicate DataOk(m: Mem, l: Local, p: nat, n: nat, data: seq<Byte>) {
    && (KeepsOld(l) ==> Reads(m, p, data, |data|))
    && (NewSpot(l, n, |data|).1 > 0 ==> Reads(m, NewSpot(l, n, |data|).0, data, NewSpot(l, n, |data|).1))
    && (SizeRead(l) ==> l.copy == |data|)
  }

  /** The block has its size until the call reads it, and room for the bytes when the call fails. */
  ghost predicate SizeOk(s: State, l: Local, p: nat, size: nat) {
    && (!l.Work? || Ahead(l.pc).Begin? ==> InUse(s, p, size))
    && (l.Work? && Ahead(l.pc) == Leave(0) ==> Room(s, p, size))
  }

  // ---- Others leave them there ----

  /** The next step copies a byte. */
  predicate Copies(l: Local) {
    l.Work? && l.pc.CopyByte? && l.pc.i < l.copy
  }

  /** Bytes of an allocation in the hands of thread `t` change by nobody's step but its own copying. */
  lemma ReadsStay(s: State, c: Choice, t: nat, p: nat, n: nat, data: seq<Byte>)
    requires Inv(s) && t < |s.threads| && p in Mine(s.threads[t]) && Room(s, p, n) && Reads(s.mem, p, data, n)
    requires !(c.Go? && c.t == t && Copies(s.threads[t]) && s.threads[t].pc.q + HEADER == p)
    ensures |s.arenas| == |s.locks| == ARENAS && Reads(Step(s, c).mem, p, data, n)
  {
    hide *;
    InvSizes(s);
    StepThreads(s, c);
    var u := RoomIs(s, p, n);
    ReadsIs(s.mem, p, data, n);
    forall x | p <= x < p + n ensures Step(s, c).mem[x] == s.mem[x] {
      InUseKept(s, c, p, u, x);
      if Step(s, c).mem[x] != s.mem[x] {
        InOneHand(s, t, c.t, p);
        CopyPlace(s, c.t, x);
      }
    }
    ReadsIs(Step(s, c).mem, p, data, n);
  }

  lemma RoomIs(s: State, p: nat, n: nat) returns (u: nat)
    requires Room(s, p, n)
    ensures n <= u && InUse(s, p, u)
  {
    u :| n <= u && InUse(s, p, u);
  }

  lemma ReadsIs(m: Mem, p: nat, data: seq<Byte>, n: nat)
    ensures Reads(m, p, data, n) <==> n <= |data| && p + n <= |m| && forall x :: p <= x < p + n ==> m[x] == data[x - p]
  {
  }

  lemma CopyPlace(s: State, u: nat, x: nat)
    ensures u < |s.threads| && WritesCopy(s, s.threads[u], x) ==> Copies(s.threads[u]) && Mine(s.threads[u]) == s.threads[u].mine
  {
  }

  lemma InOneHand(s: State, t: nat, u: nat, p: nat)
    requires Inv(s) && t < |s.threads| && p in Mine(s.threads[t])
    ensures p !in s.live && (u < |s.threads| && p in Mine(s.threads[u]) ==> u == t)
  {
    InvParts(s);
    hide Inv, ArenasOk, LocksOk, SbrkOk, HomesOk, LiveOk, Sizes;
    if u < |s.threads| {
      if u < t { assert Mine(s.threads[u]) !! Mine(s.threads[t]); }
      if t < u { assert Mine(s.threads[t]) !! Mine(s.threads[u]); }
    }
  }

  // ---- Room for the bytes ----

  lemma HeldRoom(s: State, k: nat, p: nat, n: nat, z: nat)
    requires k < |s.arenas| && Held(s.arenas[k].target, p, n) && z <= n && p in s.home && s.home[p] == k
    ensures Room(s, p, z)
  {
    var u: nat :| n <= u && LiveIn(s.arenas[k].target, p, u);
    assert InUse(s, p, u);
  }

  /** What a move at work holds. */
  lemma MoveHolds(s: State, a: Arena, l: Local)
    requires l.Work? && WorkOk(s, a, l) && l.goal.Move?
    ensures SizeRead(l) && KeepsOld(l) ==> l.goal.p in l.mine && Held(a.target, l.goal.p, l.copy)
    ensures Ahead(l.pc).CopyByte? ==>
      var q := Ahead(l.pc).q; q + HEADER in l.mine && Held(a.target, q + HEADER, l.goal.n) && l.copy < l.goal.n && Ahead(l.pc).i <= l.copy && l.goal.p != q + HEADER
    ensures (Ahead(l.pc).MergeNext? || Ahead(l.pc).MergePrev? || Ahead(l.pc).Leave?) && Ahead(l.pc).res != 0 ==>
      Ahead(l.pc).res in l.mine && Held(a.target, Ahead(l.pc).res, l.goal.n)
  {
    hide Held, InList, StartsBlock, Vacant;
  }

  lemma HandsOfMove(l: Local, p: nat, n: nat)
    requires Serves(l, Move(p, n))
    ensures l.goal == Move(p, n) && !l.Idle? && Mine(l) == l.mine && (!l.Work? || Ahead(l.pc).Begin? || Ahead(l.pc) == Leave(0) ==> p in l.mine)
    ensures l.Work? && (Ahead(l.pc).MergeNext? || Ahead(l.pc).MergePrev?) ==> Ahead(l.pc).res != 0
  {
  }

  /** The bytes lie in allocations that the call has in its hands. */
  lemma SpotsHeld(s: State, t: nat, p: nat, n: nat, data: seq<Byte>)
    requires Inv(s) && t < |s.threads| && Serves(s.threads[t], Move(p, n))
    requires DataOk(s.mem, s.threads[t], p, n, data) && SizeOk(s, s.threads[t], p, |data|)
    ensures KeepsOld(s.threads[t]) ==> p in Mine(s.threads[t]) && Room(s, p, |data|)
    ensures var (q, z) := NewSpot(s.threads[t], n, |data|); z > 0 ==> q in Mine(s.threads[t]) && Room(s, q, z)
  {
    hide *;
    var l := s.threads[t];
    HandsOfMove(l, p, n);
    Spots(s, l, p, n, data);
    if l.Work? {
      WorkFacts(s, t);
      MoveHolds(s, s.arenas[l.k], l);
      MineHome(s, t);
      var (q, z) := NewSpot(l, n, |data|);
      if KeepsOld(l) && SizeRead(l) { HeldRoom(s, l.k, p, l.copy, |data|); }
      if z > 0 { HeldRoom(s, l.k, q, n, z); }
    }
  }

  lemma Spots(s: State, l: Local, p: nat, n: nat, data: seq<Byte>)
    requires !l.Idle? && DataOk(s.mem, l, p, n, data) && SizeOk(s, l, p, |data|)
    ensures KeepsOld(l) && !SizeRead(l) ==> Room(s, p, |data|) && (!l.Work? || Ahead(l.pc).Begin? || Ahead(l.pc) == Leave(0))
    ensures SizeRead(l) ==> l.Work? && l.copy == |data|
    ensures var (q, z) := NewSpot(l, n, |data|); z > 0 ==>
      && l.Work?
      && (Ahead(l.pc).CopyByte? ==> q == Ahead(l.pc).q + HEADER && z <= Ahead(l.pc).i)
      && (!Ahead(l.pc).CopyByte? ==> (Ahead(l.pc).MergeNext? || Ahead(l.pc).MergePrev? || Ahead(l.pc).Leave?) && q == Ahead(l.pc).res && z <= n)
      && (Ahead(l.pc).Leave? ==> q != 0)
  {
    if InUse(s, p, |data|) { assert Room(s, p, |data|); }
  }

  // ---- A step that copies nothing ----

  lemma DataStays(s: State, c: Choice, t: nat, p: nat, n: nat, data: seq<Byte>)
    requires Inv(s) && t < |s.threads| && Serves(s.threads[t], Move(p, n)) && !(c.Go? && c.t == t && Copies(s.threads[t]))
    requires DataOk(s.mem, s.threads[t], p, n, data) && SizeOk(s, s.threads[t], p, |data|)
    ensures |s.arenas| == |s.locks| == ARENAS && DataOk(Step(s, c).mem, s.threads[t], p, n, data)
  {
    hide *;
    InvSizes(s);
    SpotsHeld(s, t, p, n, data);
    var l := s.threads[t];
    DataIs(s.mem, l, p, n, data);
    if KeepsOld(l) { ReadsStay(s, c, t, p, |data|, data); }
    var (q, z) := NewSpot(l, n, |data|);
    if z > 0 { ReadsStay(s, c, t, q, z, data); }
    DataIs(Step(s, c).mem, l, p, n, data);
  }

  lemma DataIs(m: Mem, l: Local, p: nat, n: nat, data: seq<Byte>)
    ensures DataOk(m, l, p, n, data) <==>
      && (KeepsOld(l) ==> Reads(m, p, data, |data|))
      && (NewSpot(l, n, |data|).1 > 0 ==> Reads(m, NewSpot(l, n, |data|).0, data, NewSpot(l, n, |data|).1))
      && (SizeRead(l) ==> l.copy == |data|)
  {
    hide Reads, KeepsOld, NewSpot, SizeRead;
  }

  lemma LessData(m: Mem, p: nat, data: seq<Byte>, n: nat, z: nat)
    requires Reads(m, p, data, n) && z <= n
    ensures Reads(m, p, data, z)
  {
  }

  /** What a thread at work knows of its bytes after a step that copies nothing. */
  lemma EarlyData(s: State, t: nat, a: Arena, l: Local, act: Act, m: Mem, p: nat, n: nat, data: seq<Byte>)
    requires l.Work? && OutsideAct(a, s.mem, l, act) && Outside(l.pc) && l.goal == Move(p, n) && DataOk(m, l, p, n, data)
    requires l.pc.Begin? || l.pc.Search? || l.pc.Fit? || l.pc.Mark? || l.pc.Cut?
    requires l.pc.Begin? ==> Loadable(s.mem, Header0(p)) && Load(s.mem, Header0(p)).size == |data|
    ensures DataOk(m, Moved(s, a, t, l, act), p, n, data)
  {
    hide SplitPlan, JoinPlan, FreedPlan, Load, Refuses, Size, Reads, Header0;
    if Reads(m, p, data, |data|) { LessData(m, p, data, |data|, Min(|data|, n)); }
  }

  lemma LateData(s: State, t: nat, a: Arena, l: Local, act: Act, m: Mem, p: nat, n: nat, data: seq<Byte>)
    requires l.Work? && OutsideAct(a, s.mem, l, act) && Outside(l.pc) && l.goal == Move(p, n) && DataOk(m, l, p, n, data)
    requires !l.pc.Begin? && !l.pc.Search? && !l.pc.Fit? && !l.pc.Mark? && !l.pc.Cut? && !Copies(l) && !l.pc.Leave?
    requires l.pc.CopyByte? ==> l.pc.i <= l.copy < n
    requires (l.pc.MergeNext? || l.pc.MergePrev?) ==> l.pc.res != 0
    ensures DataOk(m, Moved(s, a, t, l, act), p, n, data)
  {
    hide SplitPlan, JoinPlan, FreedPlan, Load, Refuses, Size, Start0, Seek, Refit, Header0, Reads;
  }

  lemma InsideData(s: State, t: nat, a: Arena, l: Local, sys: Kernel, m: Mem, p: nat, n: nat, data: seq<Byte>)
    requires l.Work? && !Outside(l.pc) && (l.pc.Storing? ==> Resumes(l.pc.next)) && DataOk(m, l, p, n, data)
    ensures DataOk(m, Moved(s, a, t, l, ActOf(s, a, l, sys)), p, n, data)
  {
    hide SplitPlan, JoinPlan, FreedPlan, Load, Refuses, Seek, Start0, Merge, Refit, Size, Target, Reads;
  }

  /** A move that is not about to copy keeps track of its bytes with its own step. */
  lemma WorkData(s: State, t: nat, sys: Kernel, p: nat, n: nat, data: seq<Byte>)
    requires Inv(s) && t < |s.threads| && Serves(s.threads[t], Move(p, n)) && s.threads[t].Work? && !Copies(s.threads[t]) && !s.threads[t].pc.Leave?
    requires DataOk(s.mem, s.threads[t], p, n, data) && SizeOk(s, s.threads[t], p, |data|)
    ensures |s.arenas| == |s.locks| == ARENAS && |Step(s, Go(t, sys)).threads| == |s.threads|
    ensures DataOk(Step(s, Go(t, sys)).mem, Step(s, Go(t, sys)).threads[t], p, n, data)
  {
    hide *;
    DataStays(s, Go(t, sys), t, p, n, data);
    HoldsSbrk(s, t);
    WorkStep(s, t, sys);
    var l, m := s.threads[t], Step(s, Go(t, sys)).mem;
    var a := s.arenas[l.k];
    HandsOfMove(l, p, n);
    AheadOf(l.pc);
    Place(l);
    if Outside(l.pc) {
      RestIntro(s, t);
      RestActs(s, a, l, sys);
      OutsideParts(l.pc);
      if l.pc.Begin? || l.pc.Search? || l.pc.Fit? || l.pc.Mark? || l.pc.Cut? {
        if l.pc.Begin? { SizeAtBegin(s, t, p, n, |data|); }
        EarlyData(s, t, a, l, ActOf(s, a, l, sys), m, p, n, data);
      } else {
        if l.pc.CopyByte? {
          GotFacts(s, t);
          WorkFacts(s, t);
          MoveHolds(s, a, l);
        }
        LateData(s, t, a, l, ActOf(s, a, l, sys), m, p, n, data);
      }
    } else {
      InsideData(s, t, a, l, sys, m, p, n, data);
    }
  }

  lemma AheadOf(pc: Pc)
    ensures !pc.Storing? ==> Ahead(pc) == pc
  {
  }

  lemma OutsideParts(pc: Pc)
    requires Outside(pc)
    ensures !pc.Storing?
  {
  }

  /** The size that a move reads is that of its block. */
  lemma SizeAtBegin(s: State, t: nat, p: nat, n: nat, size: nat)
    requires AtRest(s, t) && s.threads[t].pc.Begin? && Serves(s.threads[t], Move(p, n)) && SizeOk(s, s.threads[t], p, size)
    ensures Loadable(s.mem, Header0(p)) && Load(s.mem, Header0(p)).size == size
  {
    hide *;
    RestIs(s, t);
    RestFacts(s, t);
    var l := s.threads[t];
    HandsOfMove(l, p, n);
    AheadOf(l.pc);
    SizeAtFirst(s, l, p, size);
    var k, i := InUseBlock(s, p, size);
    HeaderBefore(p, s.arenas[k].target[i].addr);
    SizeLoaded(s, k, i);
  }

  lemma SizeAtFirst(s: State, l: Local, p: nat, size: nat)
    requires SizeOk(s, l, p, size) && (!l.Work? || l.pc.Begin?)
    ensures InUse(s, p, size)
  {
  }

  /** The next byte is copied. */
  lemma CopyData(s: State, t: nat, sys: Kernel, p: nat, n: nat, data: seq<Byte>)
    requires Inv(s) && t < |s.threads| && Serves(s.threads[t], Move(p, n)) && Copies(s.threads[t])
    requires DataOk(s.mem, s.threads[t], p, n, data) && SizeOk(s, s.threads[t], p, |data|)
    ensures |s.arenas| == |s.locks| == ARENAS && |Step(s, Go(t, sys)).threads| == |s.threads|
    ensures DataOk(Step(s, Go(t, sys)).mem, Step(s, Go(t, sys)).threads[t], p, n, data)
  {
    hide *;
    var l := s.threads[t];
    CopiesParts(l);
    HoldsSbrk(s, t);
    WorkStep(s, t, sys);
    HandsOfMove(l, p, n);
    SpotsHeld(s, t, p, n, data);
    WorkFacts(s, t);
    MoveHolds(s, s.arenas[l.k], l);
    var q, i := l.pc.q + HEADER, l.pc.i;
    DataIs(s.mem, l, p, n, data);
    CopyStep(s, t, sys, p, n);
    ReadsStay(s, Go(t, sys), t, p, |data|, data);
    InsideCopy(s, t, p, |data|, data);
    MoreData(s.mem, Step(s, Go(t, sys)).mem, p, q, i, data);
    CopiedData(Step(s, Go(t, sys)).mem, l, p, n, data);
  }

  lemma CopiesParts(l: Local)
    requires Copies(l)
    ensures l.Work? && l.pc.CopyByte? && l.pc.i < l.copy && Ahead(l.pc) == l.pc && KeepsOld(l) && SizeRead(l) && !l.pc.Leave?
    ensures forall n, size: nat :: l.pc.i <= size ==> NewSpot(l, n, size) == (l.pc.q + HEADER, l.pc.i)
  {
  }

  lemma CopyStep(s: State, t: nat, sys: Kernel, p: nat, n: nat)
    requires |s.arenas| == |s.locks| == ARENAS && t < |s.threads| && s.threads[t].Work? && s.threads[t].k < ARENAS
    requires s.threads[t].goal == Move(p, n) && s.threads[t].pc.CopyByte? && s.threads[t].pc.i < s.threads[t].copy
    ensures var l, s' := s.threads[t], Step(s, Go(t, sys));
      var dst, src := l.pc.q + HEADER + l.pc.i, p + l.pc.i;
      && |s'.threads| == |s.threads| && s'.threads[t] == l.(pc := CopyByte(l.pc.q, l.pc.i + 1))
      && s'.mem == if dst < |s.mem| && src < |s.mem| then s.mem[dst := s.mem[src]] else s.mem
  {
  }

  /** Both bytes lie in memory. */
  lemma InsideCopy(s: State, t: nat, p: nat, size: nat, data: seq<Byte>)
    requires Inv(s) && t < |s.threads| && Copies(s.threads[t]) && s.threads[t].goal.Move? && s.threads[t].goal.p == p
    ensures var l := s.threads[t]; l.Work? && l.pc.CopyByte? && l.pc.q + HEADER + l.pc.i < |s.mem| && p + l.pc.i < |s.mem|
  {
    hide *;
    var l := s.threads[t];
    CopiesParts(l);
    HoldsSbrk(s, t);
    Place(l);
    OutsideCopy(l);
    RestIntro(s, t);
    GoalParts(l.goal);
    CopyInside(s, t);
  }

  lemma MoreData(m: Mem, m': Mem, p: nat, q: nat, i: nat, data: seq<Byte>)
    requires i < |data| && Reads(m, p, data, |data|) && (i > 0 ==> Reads(m, q, data, i)) && q + i < |m|
    requires m' == m[q + i := m[p + i]]
    ensures Reads(m', q, data, i + 1)
  {
  }

  lemma CopiedData(m: Mem, l: Local, p: nat, n: nat, data: seq<Byte>)
    requires Copies(l) && l.copy == |data| && Reads(m, p, data, |data|) && Reads(m, l.pc.q + HEADER, data, l.pc.i + 1)
    ensures DataOk(m, l.(pc := CopyByte(l.pc.q, l.pc.i + 1)), p, n, data)
  {
    hide Reads;
  }

  // ---- The block that is to be moved, before the call is at work ----

  /** Nobody else changes the size of an allocation in the hands of thread `t`. */
  lemma UseStays(s: State, c: Choice, t: nat, p: nat, u: nat)
    requires Inv(s) && t < |s.threads| && p in Mine(s.threads[t]) && InUse(s, p, u) && !(c.Go? && c.t == t)
    ensures |s.arenas| == |s.locks| == ARENAS && InUse(Step(s, c), p, u)
  {
    hide *;
    InvSizes(s);
    StepKeepsInv(s, c);
    StepThreads(s, c);
    LocalStep(s, c, t);
    MineOf(s.threads[t]);
    var s' := Step(s, c);
    InUseIs(s, p, u);
    InUseIs(s', p, u);
    InOneHand(s, t, c.t, p);
    KeptInHands(s, c, t, p);
    HomeStep(s, c, p);
    if s.threads[t].Work? {
      OthersStay(s, t, c);
      MineHome(s, t);
      MineOf(s.threads[t]);
    } else {
      WaitingStill(s, t, p);
      WaitingStill(s', t, p);
      StillAtHome(s, p);
      StillAtHome(s', p);
      ListsStep(s, c, s.home[p]);
      SameSize(s.arenas[s.home[p]], s'.arenas[s.home[p]], p, u);
    }
  }

  lemma WaitingStill(s: State, t: nat, p: nat)
    requires Inv(s) && t < |s.threads| && !s.threads[t].Work? && p in Mine(s.threads[t])
    ensures Still(s.threads, p)
  {
    forall u | 0 <= u < |s.threads| && s.threads[u].Work? ensures p !in s.threads[u].mine { InOneHand(s, t, u, p); }
  }

  lemma KeptInHands(s: State, c: Choice, t: nat, p: nat)
    requires Inv(s) && |s.arenas| == |s.locks| == ARENAS && Inv(Step(s, c)) && t < |s.threads| == |Step(s, c).threads|
    requires p in Mine(s.threads[t]) && !(c.Go? && c.t == t)
    requires Step(s, c).threads[t] == s.threads[t]
    ensures p in Mine(Step(s, c).threads[t])
    ensures c.t < |s.threads| && c.Go? ==> p !in Mine(s.threads[c.t]) && p !in Mine(Step(s, c).threads[c.t])
  {
    hide Inv, Step;
    InOneHand(s, t, c.t, p);
    if p in Mine(Step(s, c).threads[t]) { InOneHand(Step(s, c), t, c.t, p); }
  }

  /** A step that the thread does not take at work leaves its block as it was. */
  lemma SizeStays(s: State, c: Choice, t: nat, p: nat, n: nat, size: nat)
    requires Inv(s) && t < |s.threads| && Serves(s.threads[t], Move(p, n)) && SizeOk(s, s.threads[t], p, size)
    requires !(c.Go? && c.t == t && s.threads[t].Work?)
    ensures |s.arenas| == |s.locks| == ARENAS && |Step(s, c).threads| == |s.threads|
    ensures SizeOk(Step(s, c), Step(s, c).threads[t], p, size)
  {
    hide *;
    InvSizes(s);
    StepThreads(s, c);
    LocalStep(s, c, t);
    var l := s.threads[t];
    HandsOfMove(l, p, n);
    if c.Go? && c.t == t {
      IsGo(c);
      ApproachUse(s, t, c.sys);
      SizeWaits(s, Step(s, c), l, Step(s, c).threads[t], p, size);
    } else {
      if !l.Work? || Ahead(l.pc).Begin? {
        SizeParts(s, l, p, size);
        UseStays(s, c, t, p, size);
      }
      if l.Work? && Ahead(l.pc) == Leave(0) {
        SizeParts(s, l, p, size);
        var u := RoomIs(s, p, size);
        UseStays(s, c, t, p, u);
        RoomIntro(Step(s, c), p, size, u);
      }
      SizeIntro(Step(s, c), l, p, size);
    }
  }

  lemma RoomIntro(s: State, p: nat, n: nat, u: nat)
    requires InUse(s, p, u) && n <= u
    ensures Room(s, p, n)
  {
  }

  lemma SizeParts(s: State, l: Local, p: nat, size: nat)
    requires SizeOk(s, l, p, size)
    ensures !l.Work? || Ahead(l.pc).Begin? ==> InUse(s, p, size)
    ensures l.Work? && Ahead(l.pc) == Leave(0) ==> Room(s, p, size)
  {
  }

  lemma SizeIntro(s: State, l: Local, p: nat, size: nat)
    requires !l.Work? || Ahead(l.pc).Begin? ==> InUse(s, p, size)
    requires l.Work? && Ahead(l.pc) == Leave(0) ==> Room(s, p, size)
    ensures SizeOk(s, l, p, size)
  {
  }

  lemma ApproachUse(s: State, t: nat, sys: Kernel)
    requires |s.arenas| == |s.locks| == ARENAS && t < |s.threads| && !s.threads[t].Work?
    ensures var s' := Step(s, Go(t, sys)); s'.arenas == s.arenas && s'.home == s.home
  {
    hide Load;
  }

  lemma SizeWaits(s: State, s': State, l: Local, l': Local, p: nat, size: nat)
    requires !l.Work? && SizeOk(s, l, p, size) && s'.arenas == s.arenas && s'.home == s.home && (l'.Work? ==> l'.pc.Begin?)
    ensures SizeOk(s', l', p, size)
  {
  }

  /** A move at work stands at the end without an answer only when the heap could not be extended. */
  lemma SizeAtWork(s: State, t: nat, sys: Kernel, p: nat, n: nat, data: seq<Byte>)
    requires Inv(s) && t < |s.threads| && Serves(s.threads[t], Move(p, n)) && s.threads[t].Work?
    requires DataOk(s.mem, s.threads[t], p, n, data) && SizeOk(s, s.threads[t], p, |data|)
    ensures |s.arenas| == |s.locks| == ARENAS && |Step(s, Go(t, sys)).threads| == |s.threads|
    ensures SizeOk(Step(s, Go(t, sys)), Step(s, Go(t, sys)).threads[t], p, |data|) || Step(s, Go(t, sys)).threads[t].Idle?
  {
    hide *;
    HoldsSbrk(s, t);
    WorkStep(s, t, sys);
    ServesParts(s.threads[t], Move(p, n));
    WorkHands(s, t, sys);
    var l := s.threads[t];
    var a := s.arenas[l.k];
    var act := ActOf(s, a, l, sys);
    var s' := Step(s, Go(t, sys));
    HandsOfMove(l, p, n);
    SpotsHeld(s, t, p, n, data);
    if l.pc.Fit? {
      Place(l);
      FitOutside(l);
      RestIntro(s, t);
      FitNotNull(s, t);
    }
    EndPlaces(s, t, a, l, sys);
    if s'.threads[t].Work? {
      NoEmptyStores(s'.threads[t]);
      if Ahead(s'.threads[t].pc) == Leave(0) {
        GivingUse(s, t, sys);
        var u := RoomIs(s, p, |data|);
        InUseIs(s, p, u);
        InUseIs(s', p, u);
        RoomIntro(s', p, |data|, u);
      }
      SizeLater(s', s'.threads[t], p, |data|);
    }
  }

  lemma FitOutside(l: Local)
    requires l.Work? && l.pc.Fit?
    ensures Outside(l.pc)
  {
  }

  lemma NoEmptyStores(l: Local)
    requires l.Work? && HandsOk(l) && l.goal.Move?
    ensures Ahead(l.pc) == Leave(0) ==> l.pc == Leave(0)
  {
    hide HandsAt, Sensible;
  }

  lemma EndPlaces(s: State, t: nat, a: Arena, l: Local, sys: Kernel)
    requires l.Work? && HandsOk(l) && l.goal.Move? && (l.pc.Storing? ==> Resumes(l.pc.next)) && (l.pc.Fit? ==> Target(l.goal) != 0)
    ensures var l' := Moved(s, a, t, l, ActOf(s, a, l, sys));
      l'.Work? ==> !Ahead(l'.pc).Begin? && (l'.pc == Leave(0) ==> l.pc == Unlock(0))
  {
    hide HandsAt, SplitPlan, JoinPlan, FreedPlan, Load, Refuses, Size, Header0;
  }

  lemma GivingUse(s: State, t: nat, sys: Kernel)
    requires |s.arenas| == |s.locks| == ARENAS && t < |s.threads| && s.threads[t].Work? && s.threads[t].k < ARENAS && s.threads[t].pc == Unlock(0)
    ensures var s' := Step(s, Go(t, sys)); s'.arenas == s.arenas && s'.home == s.home && KeepsOld(s.threads[t])
  {
  }

  lemma SizeLater(s: State, l: Local, p: nat, size: nat)
    requires l.Work? && !Ahead(l.pc).Begin? && (Ahead(l.pc) == Leave(0) ==> Room(s, p, size))
    ensures SizeOk(s, l, p, size)
  {
  }

  // ---- Over whole runs ----

  lemma BeginData(s: State, c: Choice, t: nat, p: nat, n: nat, data: seq<Byte>)
    requires |s.arenas| == |s.locks| == ARENAS && t < |s.threads| && c.Start? && c.t == t && c.goal == Move(p, n) && s.threads[t].Idle?
    requires InUse(s, p, |data|) && Reads(s.mem, p, data, |data|) && |Step(s, c).threads| == |s.threads| && !Step(s, c).threads[t].Idle?
    ensures DataOk(Step(s, c).mem, Step(s, c).threads[t], p, n, data) && SizeOk(Step(s, c), Step(s, c).threads[t], p, |data|)
  {
    hide MayStart, Reads;
  }

  lemma WaitData(m: Mem, l: Local, l': Local, p: nat, n: nat, data: seq<Byte>)
    requires DataOk(m, l, p, n, data) && (l' == l || (!l.Work? && (!l'.Work? || l'.pc.Begin?)))
    ensures DataOk(m, l', p, n, data)
  {
    hide Reads;
  }

  /** At every point of a move the bytes that its block held when it was called are where the call expects them. */
  lemma {:induction false} InCallData(s: State, cs: seq<Choice>, t: nat, p: nat, n: nat, data: seq<Byte>, j: nat, k: nat)
    requires Inv(s) && t < |s.threads| && j < k <= |cs| && InCall(s, cs, t, Move(p, n), j, k)
    requires InUse(StateAt(s, cs, j), p, |data|) && Reads(StateAt(s, cs, j).mem, p, data, |data|)
    ensures DataOk(StateAt(s, cs, k).mem, StateAt(s, cs, k).threads[t], p, n, data)
    ensures SizeOk(StateAt(s, cs, k), StateAt(s, cs, k).threads[t], p, |data|)
    decreases k
  {
    hide *;
    InCallParts(s, cs, t, Move(p, n), j, k);
    NextState(s, cs, k);
    var r, c := StateAt(s, cs, k - 1), cs[k - 1];
    if j + 1 == k {
      BeginData(r, c, t, p, n, data);
    } else {
      InCallData(s, cs, t, p, n, data, j, k - 1);
      InCallServes(s, cs, t, Move(p, n), j, k - 1);
      DataStep(r, c, t, p, n, data);
    }
  }

  lemma DataStep(s: State, c: Choice, t: nat, p: nat, n: nat, data: seq<Byte>)
    requires Inv(s) && t < |s.threads| && Serves(s.threads[t], Move(p, n))
    requires DataOk(s.mem, s.threads[t], p, n, data) && SizeOk(s, s.threads[t], p, |data|)
    requires |s.arenas| == |s.locks| == ARENAS && |Step(s, c).threads| == |s.threads| && !Step(s, c).threads[t].Idle?
    ensures DataOk(Step(s, c).mem, Step(s, c).threads[t], p, n, data) && SizeOk(Step(s, c), Step(s, c).threads[t], p, |data|)
  {
    hide *;
    var l := s.threads[t];
    if c.Go? && c.t == t && l.Work? {
      IsGo(c);
      HoldsSbrk(s, t);
      SizeAtWork(s, t, c.sys, p, n, data);
      if l.pc.Leave? { FinishStep(s, t, c.sys); }
      if Copies(l) { CopyData(s, t, c.sys, p, n, data); } else { WorkData(s, t, c.sys, p, n, data); }
    } else {
      NoCopy(l);
      DataStays(s, c, t, p, n, data);
      SizeStays(s, c, t, p, n, |data|);
      LocalStep(s, c, t);
      HandsOfMove(l, p, n);
      WaitData(Step(s, c).mem, l, Step(s, c).threads[t], p, n, data);
    }
  }

  lemma NoCopy(l: Local)
    ensures Copies(l) ==> l.Work?
  {
  }

  /** A move that returns hands back the bytes that its block held when it was called, as many as fit into
      the size that was asked; a move that fails leaves them all in its block.  This holds under every
      schedule: other threads may change the lists of any arena, header by header, at any time. */
  lemma MoveKeepsBytes(s: State, cs: seq<Choice>, t: nat, p: nat, n: nat, data: seq<Byte>, j: nat, i: nat) returns (res: nat)
    requires Inv(s) && t < |s.threads| && j < i < |cs| && Returns(s, cs, t, Move(p, n), j, i)
    requires InUse(StateAt(s, cs, j), p, |data|) && Reads(StateAt(s, cs, j).mem, p, data, |data|)
    ensures var r := StateAt(s, cs, i + 1);
      if res == 0 then p in r.live && Room(r, p, |data|) && Reads(r.mem, p, data, |data|)
      else res in r.live && Room(r, res, n) && Reads(r.mem, res, data, Min(|data|, n))
  {
    hide *;
    res := CallReturns(s, cs, t, Move(p, n), j, i);
    ReturnsParts(s, cs, t, Move(p, n), j, i);
    InCallData(s, cs, t, p, n, data, j, i);
    InCallServes(s, cs, t, Move(p, n), j, i);
    InCallParts(s, cs, t, Move(p, n), j, i);
    NextState(s, cs, i + 1);
    var r, c, r' := StateAt(s, cs, i), cs[i], StateAt(s, cs, i + 1);
    LastStep(r, c, t);
    IsGo(c);
    FinishStep(r, t, c.sys);
    HandedParts(p, n, res);
    var k, h := InUseBlock(StateAt(s, cs, j), p, |data|);
    WorkFacts(r, t);
    SomeBytes(r, r.arenas[r.threads[t].k], r.threads[t], p, n, |data|);
    DataAtEnd(r, r', r.threads[t], p, n, data, res);
  }

  lemma SomeBytes(s: State, a: Arena, l: Local, p: nat, n: nat, size: nat)
    requires l.Work? && WorkOk(s, a, l) && l.goal == Move(p, n) && 8 <= size
    ensures Min(size, n) > 0
  {
    hide Expects, Fresh, InList;
  }

  lemma HandedParts(p: nat, n: nat, res: nat)
    ensures (if res == 0 then p else res) in HandedBack(Move(p, n), res) && Size(Move(p, n)) == n
  {
  }

  lemma DataAtEnd(s: State, s': State, l: Local, p: nat, n: nat, data: seq<Byte>, res: nat)
    requires l.Work? && l.pc == Leave(res) && DataOk(s.mem, l, p, n, data) && SizeOk(s, l, p, |data|)
    requires s'.mem == s.mem && s'.home == s.home && s'.arenas == s.arenas
    requires res != 0 ==> exists u: nat :: n <= u && InUse(s', res, u)
    ensures if res == 0 then Room(s', p, |data|) && Reads(s'.mem, p, data, |data|)
            else Room(s', res, n) && (Min(|data|, n) > 0 ==> Reads(s'.mem, res, data, Min(|data|, n)))
  {
    hide Reads;
    if res == 0 {
      var u: nat :| |data| <= u && InUse(s, p, u);
      assert InUse(s', p, u);
    }
  }
}
