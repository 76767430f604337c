/**
Every call of the allocator's machine does to the list of its arena what the sequential algorithm does, as if
it were alone: first fit, splitting, extending, growing in place, freeing and merging.  A call answers null
only when its list has no block that fits and the system has refused the region it needed.
*/
module HeapMachineRefines {
  import opened Bytes
  import opened FlatMemory
  import opened BlockLists
  import opened ArenaMemory
  import opened HeapViews
  import HeapCalls
  import opened ArenaEdits
  import opened Options
  import opened HeapMachine
  import opened HeapMachineSteps
  import opened HeapMachineInv
  import opened HeapMachineRuns
  import opened HeapMachineCalls
  import opened HeapMachineProgress
  import opened HeapMachineResults

  // ---- The sequential algorithm on a list ----

  /** The place of the allocation at `p` in the list. */
  function Where(bs: seq<Block>, p: nat): nat {
    IndexOf(bs, Header0(p))
  }

  /** The first free block that is large enough. */
  predicate FirstFit(bs: seq<Block>, i: int, n: nat) {
    0 <= i < |bs| && Holds(bs[i], n) && forall j :: 0 <= j < i ==> !Holds(bs[j], n)
  }

  /** The block at `i` is cut to size and taken. */
  function TakeAt(bs: seq<Block>, i: nat, n: nat): seq<Block>
    requires i < |bs|
  {
    SetFreed(SplitAt(bs, i, n), i, false)
  }

  predicate Reserves(r: nat) {
    r == 0 || r == RESERVE
  }

  /** A region of `n` bytes and a reserve is appended, since no block fits. */
  ghost predicate Appended(bs: seq<Block>, n: nat, q: nat, cs: seq<Block>) {
    !HasFit(bs, n) && exists r :: Reserves(r) && cs == bs + [Block(q, n + r, false)]
  }

  /** The block at `q` is obtained: the first that fits, or a new one with its reserve cut off. */
  ghost predicate Obtained(bs: seq<Block>, n: nat, q: nat, cs: seq<Block>) {
    || (exists i :: FirstFit(bs, i, n) && bs[i].addr == q && cs == TakeAt(bs, i, n))
    || (exists ds :: Appended(bs, n, q, ds) && cs == SplitAt(ds, |ds| - 1, n))
  }

  /** The list when a move has tried to grow its block in place. */
  function InPlace(bs: seq<Block>, goal: Goal): seq<Block> {
    if goal.Move? && Where(bs, goal.p) < |bs| then JoinAt(bs, Where(bs, goal.p)) else bs
  }

  /** The allocation at `p` is in the list, and in use. */
  predicate UsedAt(bs: seq<Block>, p: nat) {
    Where(bs, p) < |bs| && !bs[Where(bs, p)].freed
  }

  /** A move cannot stay in place. */
  predicate TooSmall(bs: seq<Block>, goal: Goal) {
    goal.Move? ==>
      var i, cs := Where(bs, goal.p), InPlace(bs, goal);
      UsedAt(bs, goal.p) && i < |cs| && cs[i].size < goal.n
  }

  /** A move has obtained its new block, and still has the old one. */
  ghost predicate Exchanged(bs: seq<Block>, goal: Goal, res: nat, cs: seq<Block>) {
    goal.Move? && Obtained(InPlace(bs, goal), goal.n, Header0(res), cs) && UsedAt(cs, goal.p)
  }

  /** What a call has done to the list `bs` of its arena when it answers `res`. */
  ghost predicate Finished(bs: seq<Block>, goal: Goal, res: nat, cs: seq<Block>) {
    match goal
    case Give(n) => if res == 0 then cs == bs && !HasFit(bs, n) else Obtained(bs, n, Header0(res), cs)
    case Release(p) => res == 0 && UsedAt(bs, p) && cs == FreeAt(bs, Where(bs, p))
    case Move(p, n) =>
      var i, ds := Where(bs, p), InPlace(bs, goal);
      && UsedAt(bs, p) && i < |ds|
      && if n <= ds[i].size then res == p && cs == SplitAt(ds, i, n)
         else if res == 0 then cs == ds && !HasFit(ds, n)
         else exists es :: Exchanged(bs, goal, res, es) && cs == FreeAt(es, Where(es, p))
  }

  // ---- Where a call stands in it ----

  /** No block before the one at `at` fits. */
  ghost predicate Passed(bs: seq<Block>, at: nat, n: nat) {
    && (at == 0 ==> IndexOf(bs, at) == |bs|)
    && forall j :: 0 <= j < IndexOf(bs, at) ==> !Holds(bs[j], n)
  }

  /** The list that a freeing call started to free in. */
  ghost predicate Frees(bs: seq<Block>, goal: Goal, res: nat, ds: seq<Block>) {
    match goal
    case Give(_) => false
    case Release(p) => res == 0 && ds == bs && UsedAt(bs, p)
    case Move(_, _) => res != 0 && TooSmall(bs, goal) && Exchanged(bs, goal, res, ds)
  }

  /** The list `cs` of a call that goes on at `pc`, and started with `bs`. */
  ghost predicate Course(bs: seq<Block>, goal: Goal, pc: Pc, cs: seq<Block>) {
    var n, ds := Size(goal), InPlace(bs, goal);
    match pc
    case Begin => cs == bs
    case Fit => cs == ds && goal.Move? && UsedAt(bs, goal.p) && Where(bs, goal.p) < |ds|
    case Search(at) => cs == ds && !goal.Release? && TooSmall(bs, goal) && Passed(ds, at, n)
    case Mark(q) => !goal.Release? && TooSmall(bs, goal) && exists i :: FirstFit(ds, i, n) && ds[i].addr == q && cs == SplitAt(ds, i, n)
    case ReadBrk(r) => cs == ds && !goal.Release? && TooSmall(bs, goal) && !HasFit(ds, n) && Reserves(r)
    case WriteBrk(_, r) => cs == ds && !goal.Release? && TooSmall(bs, goal) && !HasFit(ds, n) && Reserves(r)
    case Unlock(q) => !goal.Release? && TooSmall(bs, goal) && if q == 0 then cs == ds && !HasFit(ds, n) else Appended(ds, n, q, cs)
    case Cut(q) => !goal.Release? && TooSmall(bs, goal) && Appended(ds, n, q, cs)
    case Got(q) => !goal.Release? && TooSmall(bs, goal) && Obtained(ds, n, q, cs)
    case CopyByte(q, _) => goal.Move? && TooSmall(bs, goal) && Obtained(ds, n, q, cs)
    case MergeNext(res) => exists es :: Frees(bs, goal, res, es) && Where(es, Target(goal)) < |es| && cs == SetFreed(es, Where(es, Target(goal)), true)
    case MergePrev(res) => exists es :: Frees(bs, goal, res, es) && Where(es, Target(goal)) < |es| && cs == JoinAt(SetFreed(es, Where(es, Target(goal)), true), Where(es, Target(goal)))
    case Leave(res) => Finished(bs, goal, res, cs)
    case Storing(_) => false
    case _ => cs == ds && !goal.Release? && TooSmall(bs, goal) && !HasFit(ds, n)
  }

  ghost predicate OnCourse(bs: seq<Block>, a: Arena, l: Local) {
    l.Work? && Course(bs, l.goal, Ahead(l.pc), a.target)
  }

  // ---- Step by step ----

  /** The list that a step leads to. */
  function NextList(a: Arena, act: Act): seq<Block> {
    if act.Plan? then act.a.target else a.target
  }

  /** The step goes on along the course. */
  ghost predicate GoesOn(bs: seq<Block>, a: Arena, l: Local, act: Act)
    requires l.Work?
  {
    (act.Plan? || act.Goto? || act.Copy?) && !act.pc.Storing? && Course(bs, l.goal, act.pc, NextList(a, act))
  }

  /** Known at rest: the list is the target, and the block at an address is where it is. */
  lemma RestList(s: State, t: nat, i: nat)
    requires AtRest(s, t) && i < |s.arenas[s.threads[t].k].blocks|
    ensures var a := s.arenas[s.threads[t].k];
      a.target == a.blocks && IndexOf(a.blocks, a.blocks[i].addr) == i && a.blocks[i].addr != 0
  {
    hide *;
    RestIs(s, t);
    RestFacts(s, t);
    var a := s.arenas[s.threads[t].k];
    IndexFound(a.blocks, s.brk, i);
    BlockPlaced(a.blocks, i, s.brk);
  }

  lemma NoneAtNull(bs: seq<Block>, brk: nat)
    requires Layout(bs, brk)
    ensures IndexOf(bs, 0) == |bs|
  {
    forall j | 0 <= j < |bs| ensures bs[j].addr != 0 { BlockPlaced(bs, j, brk); }
  }

  /** The search begins at the head. */
  lemma PassedNone(k: nat, s: State, n: nat)
    requires Inv(s) && k < ARENAS && |s.arenas| == ARENAS && Quiet(s.arenas[k])
    ensures Passed(s.arenas[k].blocks, s.arenas[k].head, n)
  {
    ArenaAt(s, k);
    var a := s.arenas[k];
    QuietSolo(s.mem, s.brk, s.owner, k, a);
    HeapCalls.ListEnds(Solo(s.mem, s.brk, s.owner, k, a), k);
    hide Inv, ArenaInv, Sound;
    if a.blocks == [] { NoneAtNull(a.blocks, s.brk); } else {
      BlockPlaced(a.blocks, 0, s.brk);
      IndexFound(a.blocks, s.brk, 0);
    }
  }

  lemma BeginCourse(s: State, t: nat, bs: seq<Block>)
    requires AtRest(s, t) && s.threads[t].pc.Begin? && OnCourse(bs, s.arenas[s.threads[t].k], s.threads[t])
    ensures var l := s.threads[t]; var a := s.arenas[l.k]; GoesOn(bs, a, l, Start0(a, s.mem, l.goal, l.mine))
  {
    hide *;
    RestIs(s, t);
    RestFacts(s, t);
    var l := s.threads[t];
    var a := s.arenas[l.k];
    CourseBegins(bs, a, l);
    BeginHolds(s, a.target, l);
    GoalTarget(l.goal);
    match l.goal
    case Give(n) => {
      GiveIs(a, s.mem, l.goal, l.mine);
      PassedNone(l.k, s, n);
      NotMoved(bs, l.goal);
      GoalParts(l.goal);
      GiveSize(l.goal);
      SearchIntro(bs, a, l, Goto(Search(a.head)), a.head);
    }
    case Release(p) => {
      ReleaseIs(a, s.mem, l.goal, l.mine);
      var i := OwnBlock(s, t);
      WhereIs(a.blocks, p);
      FreesOwn(bs, l.goal, i);
      FreedTarget(a, Header0(p), true, i);
      FreeBegins(bs, a, l, Plan(FreedPlan(a, Header0(p), true), l.mine - {p}, 0, MergeNext(0)), bs, i, 0);
    }
    case Move(p, n) => {
      var i := OwnBlock(s, t);
      SizeLoaded(s, l.k, i);
      MoveIs(a, s.mem, l.goal, l.mine);
      JoinPlanned(s.mem, s.brk, s.owner, l.k, a, i);
      FitBegins(bs, a, l, Start0(a, s.mem, l.goal, l.mine), i);
    }
  }

  lemma BeginHolds(s: State, bs: seq<Block>, l: Local)
    requires l.Work? && l.pc.Begin? && Expects(s, bs, l, l.pc)
    ensures !l.goal.Give? ==> Target(l.goal) in l.mine
  {
  }

  lemma GoalTarget(goal: Goal)
    ensures !goal.Give? ==> Target(goal) == goal.p
    ensures !goal.Release? ==> Size(goal) == goal.n
  {
  }

  /** The call's own block, while its list is at rest. */
  lemma OwnBlock(s: State, t: nat) returns (i: nat)
    requires AtRest(s, t) && !s.threads[t].goal.Give? && Target(s.threads[t].goal) in s.threads[t].mine
    ensures var l := s.threads[t]; var a := s.arenas[l.k];
      && i < |a.blocks| && a.blocks[i].addr == Header0(Target(l.goal)) && Where(a.blocks, Target(l.goal)) == i
      && a.blocks[i].addr + HEADER == Target(l.goal) && UsedAt(a.blocks, Target(l.goal))
  {
    hide *;
    RestIs(s, t);
    RestFacts(s, t);
    var l := s.threads[t];
    var a, p := s.arenas[l.k], Target(l.goal);
    HomeAt(s, p);
    i := HeldBlock(a.blocks, p, 0);
    HeaderBefore(p, a.blocks[i].addr);
    RestList(s, t, i);
    WhereIs(a.blocks, p);
    UsedIntro(a.blocks, p, i);
  }

  lemma UsedIntro(bs: seq<Block>, p: nat, i: nat)
    requires Where(bs, p) == i < |bs| && !bs[i].freed
    ensures UsedAt(bs, p)
  {
  }

  lemma WhereIs(bs: seq<Block>, p: nat)
    ensures Where(bs, p) == IndexOf(bs, Header0(p))
  {
  }

  lemma CourseBegins(bs: seq<Block>, a: Arena, l: Local)
    requires OnCourse(bs, a, l) && l.pc.Begin?
    ensures a.target == bs
  {
  }

  lemma NotMoved(bs: seq<Block>, goal: Goal)
    requires !goal.Move?
    ensures InPlace(bs, goal) == bs && TooSmall(bs, goal)
  {
  }

  lemma GiveSize(goal: Goal)
    ensures goal.Give? ==> Size(goal) == goal.n
  {
  }

  lemma SearchIntro(bs: seq<Block>, a: Arena, l: Local, act: Act, at: nat)
    requires l.Work? && !l.goal.Release? && act == Goto(Search(at)) && a.target == InPlace(bs, l.goal) && TooSmall(bs, l.goal)
    requires Passed(a.target, at, Size(l.goal))
    ensures GoesOn(bs, a, l, act)
  {
    hide Passed;
  }

  lemma FreesOwn(bs: seq<Block>, goal: Goal, i: nat)
    requires goal.Release? && Where(bs, goal.p) == i < |bs| && UsedAt(bs, goal.p)
    ensures Frees(bs, goal, 0, bs)
  {
  }

  lemma FreedTarget(a: Arena, q: nat, freed: bool, i: nat)
    requires i < |a.blocks| && IndexOf(a.blocks, q) == i
    ensures FreedPlan(a, q, freed).target == SetFreed(a.blocks, i, freed)
  {
  }

  lemma FreeBegins(bs: seq<Block>, a: Arena, l: Local, act: Act, es: seq<Block>, i: nat, res: nat)
    requires l.Work? && act.Plan? && act.pc == MergeNext(res) && Frees(bs, l.goal, res, es) && Where(es, Target(l.goal)) == i < |es|
    requires act.a.target == SetFreed(es, i, true)
    ensures GoesOn(bs, a, l, act)
  {
    hide Frees, SetFreed;
  }

  lemma FitBegins(bs: seq<Block>, a: Arena, l: Local, act: Act, i: nat)
    requires l.Work? && l.goal.Move? && act.Plan? && act.pc == Fit && Where(bs, l.goal.p) == i < |bs| && UsedAt(bs, l.goal.p) && act.a.target == JoinAt(bs, i)
    ensures GoesOn(bs, a, l, act)
  {
    JoinKeepsPrefix(bs, i);
    hide JoinAt, Where;
  }

  lemma OnCourseIs(bs: seq<Block>, a: Arena, l: Local)
    requires OnCourse(bs, a, l) && !l.pc.Storing?
    ensures l.Work? && Course(bs, l.goal, l.pc, a.target)
  {
    hide Course;
  }

  // ---- The search ----

  lemma SearchCourse(s: State, t: nat, bs: seq<Block>)
    requires AtRest(s, t) && s.threads[t].pc.Search? && OnCourse(bs, s.arenas[s.threads[t].k], s.threads[t])
    ensures var l := s.threads[t]; var a := s.arenas[l.k];
      GoesOn(bs, a, l, Seek(a, s.mem, Size(l.goal), l.mine, l.copy, l.pc.at))
  {
    hide *;
    RestIs(s, t);
    RestFacts(s, t);
    SearchFacts(s, t);
    var l := s.threads[t];
    var a, n, at := s.arenas[l.k], Size(l.goal), l.pc.at;
    OnCourseIs(bs, a, l);
    SearchOn(bs, a, l);
    SeekIs(a, s.mem, n, l.mine, l.copy, at);
    if at == 0 {
      NothingFits(bs, a, l, Seek(a, s.mem, n, l.mine, l.copy, at));
    } else {
      var i := StartedBlock(a.target, at);
      RestList(s, t, i);
      SizeLoaded(s, l.k, i);
      HoldsIs(a.target[i], n);
      if a.target[i].freed && a.target[i].size >= n {
        SplitPlanned(s.mem, s.brk, s.owner, l.k, a, i, n);
        Fits(bs, a, l, Seek(a, s.mem, n, l.mine, l.copy, at), i);
      } else {
        PassedNext(l.k, a.blocks, s.brk, i, n);
        SearchIntro(bs, a, l, Seek(a, s.mem, n, l.mine, l.copy, at), HeaderOf(l.k, a.blocks, i).next);
      }
    }
  }

  lemma SearchOn(bs: seq<Block>, a: Arena, l: Local)
    requires l.Work? && l.pc.Search? && Course(bs, l.goal, l.pc, a.target)
    ensures a.target == InPlace(bs, l.goal) && !l.goal.Release? && TooSmall(bs, l.goal) && Passed(a.target, l.pc.at, Size(l.goal))
    ensures Rounds(l.goal) ==> Rounded(Size(l.goal))
  {
    hide InPlace, TooSmall, Passed;
  }

  lemma NothingFits(bs: seq<Block>, a: Arena, l: Local, act: Act)
    requires l.Work? && act == Goto(ReadFlag) && a.target == InPlace(bs, l.goal) && !l.goal.Release? && TooSmall(bs, l.goal)
    requires Passed(a.target, 0, Size(l.goal))
    ensures GoesOn(bs, a, l, act)
  {
    hide InPlace, TooSmall, Holds;
  }

  lemma Fits(bs: seq<Block>, a: Arena, l: Local, act: Act, i: nat)
    requires l.Work? && a.target == InPlace(bs, l.goal) && !l.goal.Release? && TooSmall(bs, l.goal)
    requires l.pc.Search? && Passed(a.target, l.pc.at, Size(l.goal)) && i < |a.target| && a.target[i].addr == l.pc.at && IndexOf(a.target, l.pc.at) == i
    requires Holds(a.target[i], Size(l.goal)) && act.Plan? && act.pc == Mark(l.pc.at) && act.a.target == SplitAt(a.target, i, Size(l.goal))
    ensures GoesOn(bs, a, l, act)
  {
    hide InPlace, TooSmall, Holds, SplitAt;
    assert FirstFit(a.target, i, Size(l.goal));
  }

  lemma PassedNext(k: nat, bs: seq<Block>, brk: nat, i: nat, n: nat)
    requires Layout(bs, brk) && i < |bs| && IndexOf(bs, bs[i].addr) == i && Passed(bs, bs[i].addr, n) && !Holds(bs[i], n)
    ensures Passed(bs, HeaderOf(k, bs, i).next, n)
  {
    if i + 1 < |bs| {
      IndexFound(bs, brk, i + 1);
      BlockPlaced(bs, i + 1, brk);
    } else {
      NoneAtNull(bs, brk);
    }
  }

  // ---- Taking and cutting ----

  lemma MarkCourse(s: State, t: nat, bs: seq<Block>)
    requires AtRest(s, t) && s.threads[t].pc.Mark? && OnCourse(bs, s.arenas[s.threads[t].k], s.threads[t])
    ensures var l := s.threads[t]; var a := s.arenas[l.k];
      GoesOn(bs, a, l, Plan(FreedPlan(a, l.pc.q, false), l.mine + {l.pc.q + HEADER}, l.copy, Got(l.pc.q)))
  {
    hide *;
    RestIs(s, t);
    RestFacts(s, t);
    var l := s.threads[t];
    var a := s.arenas[l.k];
    OnCourseIs(bs, a, l);
    var i := MarkOn(bs, a, l);
    RestList(s, t, i);
    FreedTarget(a, l.pc.q, false, i);
    TakenNext(bs, a, l, Plan(FreedPlan(a, l.pc.q, false), l.mine + {l.pc.q + HEADER}, l.copy, Got(l.pc.q)), i);
  }

  lemma MarkOn(bs: seq<Block>, a: Arena, l: Local) returns (i: nat)
    requires l.Work? && l.pc.Mark? && Course(bs, l.goal, l.pc, a.target)
    ensures !l.goal.Release? && TooSmall(bs, l.goal) && i < |a.target| && a.target[i].addr == l.pc.q
    ensures var ds := InPlace(bs, l.goal); FirstFit(ds, i, Size(l.goal)) && ds[i].addr == l.pc.q && a.target == SplitAt(ds, i, Size(l.goal))
  {
    hide InPlace, TooSmall, Holds;
    var ds := InPlace(bs, l.goal);
    i :| FirstFit(ds, i, Size(l.goal)) && ds[i].addr == l.pc.q && a.target == SplitAt(ds, i, Size(l.goal));
  }

  lemma TakenNext(bs: seq<Block>, a: Arena, l: Local, act: Act, i: nat)
    requires l.Work? && l.pc.Mark? && !l.goal.Release? && TooSmall(bs, l.goal) && i < |a.target|
    requires var ds := InPlace(bs, l.goal); FirstFit(ds, i, Size(l.goal)) && ds[i].addr == l.pc.q && a.target == SplitAt(ds, i, Size(l.goal))
    requires act.Plan? && act.pc == Got(l.pc.q) && act.a.target == SetFreed(a.target, i, false)
    ensures GoesOn(bs, a, l, act)
  {
    hide InPlace, TooSmall, FirstFit, SplitAt, SetFreed;
  }

  lemma CutCourse(s: State, t: nat, bs: seq<Block>)
    requires AtRest(s, t) && s.threads[t].pc.Cut? && OnCourse(bs, s.arenas[s.threads[t].k], s.threads[t])
    ensures var l := s.threads[t]; var a := s.arenas[l.k];
      GoesOn(bs, a, l, Plan(SplitPlan(s.mem, a, l.pc.base, Size(l.goal)), l.mine, l.copy, Got(l.pc.base)))
  {
    hide *;
    RestIs(s, t);
    RestFacts(s, t);
    CutFacts(s, t);
    var l := s.threads[t];
    var a, n := s.arenas[l.k], Size(l.goal);
    OnCourseIs(bs, a, l);
    CutOn(bs, a, l);
    var i := |a.blocks| - 1;
    SplitPlanned(s.mem, s.brk, s.owner, l.k, a, i, n);
    Cuts(bs, a, l, Plan(SplitPlan(s.mem, a, l.pc.base, n), l.mine, l.copy, Got(l.pc.base)));
  }

  lemma CutOn(bs: seq<Block>, a: Arena, l: Local)
    requires l.Work? && l.pc.Cut? && Course(bs, l.goal, l.pc, a.target)
    ensures !l.goal.Release? && TooSmall(bs, l.goal) && Appended(InPlace(bs, l.goal), Size(l.goal), l.pc.base, a.target)
    ensures a.target != [] && a.target[|a.target| - 1].addr == l.pc.base
  {
    hide InPlace, TooSmall, HasFit;
  }

  lemma Cuts(bs: seq<Block>, a: Arena, l: Local, act: Act)
    requires l.Work? && l.pc.Cut? && !l.goal.Release? && TooSmall(bs, l.goal) && Appended(InPlace(bs, l.goal), Size(l.goal), l.pc.base, a.target) && a.target != []
    requires act.Plan? && act.pc == Got(l.pc.base) && act.a.target == SplitAt(a.target, |a.target| - 1, Size(l.goal))
    ensures GoesOn(bs, a, l, act)
  {
    hide InPlace, TooSmall, Appended, SplitAt;
  }

  // ---- Handing out, copying, freeing ----

  lemma GotCourse(bs: seq<Block>, a: Arena, l: Local)
    requires l.Work? && l.pc.Got? && Course(bs, l.goal, l.pc, a.target)
    ensures GoesOn(bs, a, l, Goto(if l.goal.Move? then CopyByte(l.pc.q, 0) else Leave(l.pc.q + HEADER)))
  {
    hide InPlace, TooSmall, Obtained;
    if l.goal.Give? {
      NotMovedGrown(bs, l.goal);
      assert Header0(l.pc.q + HEADER) == l.pc.q;
    }
  }

  lemma NotMovedGrown(bs: seq<Block>, goal: Goal)
    requires goal.Give?
    ensures InPlace(bs, goal) == bs
  {
  }

  lemma CopyCourse(s: State, t: nat, bs: seq<Block>)
    requires AtRest(s, t) && s.threads[t].pc.CopyByte? && OnCourse(bs, s.arenas[s.threads[t].k], s.threads[t])
    ensures var l := s.threads[t]; var a := s.arenas[l.k];
      GoesOn(bs, a, l,
        if l.pc.i < l.copy then Copy(l.pc.q + HEADER + l.pc.i, Target(l.goal) + l.pc.i, CopyByte(l.pc.q, l.pc.i + 1))
        else Plan(FreedPlan(a, Header0(Target(l.goal)), true), l.mine - {Target(l.goal)}, l.copy, MergeNext(l.pc.q + HEADER)))
  {
    hide *;
    RestIs(s, t);
    RestFacts(s, t);
    GotFacts(s, t);
    var l := s.threads[t];
    var a := s.arenas[l.k];
    OnCourseIs(bs, a, l);
    CopyOn(bs, a, l);
    GoalTarget(l.goal);
    if l.pc.i >= l.copy {
      MoveIsNotGive(l.goal);
      var i := OwnBlock(s, t);
      WhereIs(a.blocks, Target(l.goal));
      FreedTarget(a, Header0(Target(l.goal)), true, i);
      FreeBegins(bs, a, l, Plan(FreedPlan(a, Header0(Target(l.goal)), true), l.mine - {Target(l.goal)}, l.copy, MergeNext(l.pc.q + HEADER)), a.target, i, l.pc.q + HEADER)
        by { FreesMoved(bs, a, l); }
    }
  }

  lemma MoveIsNotGive(goal: Goal)
    ensures goal.Move? ==> !goal.Give?
  {
  }

  lemma CopyOn(bs: seq<Block>, a: Arena, l: Local)
    requires l.Work? && l.pc.CopyByte? && Course(bs, l.goal, l.pc, a.target)
    ensures l.goal.Move? && TooSmall(bs, l.goal) && Obtained(InPlace(bs, l.goal), Size(l.goal), l.pc.q, a.target)
    ensures GoesOn(bs, a, l, Copy(l.pc.q + HEADER + l.pc.i, Target(l.goal) + l.pc.i, CopyByte(l.pc.q, l.pc.i + 1)))
  {
    hide InPlace, TooSmall, Obtained;
  }

  lemma FreesMoved(bs: seq<Block>, a: Arena, l: Local)
    requires l.Work? && l.pc.CopyByte? && l.goal.Move? && TooSmall(bs, l.goal) && Obtained(InPlace(bs, l.goal), Size(l.goal), l.pc.q, a.target)
    requires UsedAt(a.target, l.goal.p)
    ensures Frees(bs, l.goal, l.pc.q + HEADER, a.target)
  {
    hide InPlace, TooSmall, Obtained, Where;
    assert Header0(l.pc.q + HEADER) == l.pc.q;
  }

  /** The block that is being freed, in a list in which it is free. */
  lemma FreedBlock(s: State, t: nat, es: seq<Block>) returns (i: nat)
    requires AtRest(s, t) && Target(s.threads[t].goal) >= HEADER && Vacant(s.arenas[s.threads[t].k].target, Target(s.threads[t].goal) - HEADER, 0)
    ensures var l := s.threads[t]; var a := s.arenas[l.k];
      a.target == a.blocks && i < |a.blocks| && a.blocks[i].addr == Header0(Target(l.goal)) && Where(a.blocks, Target(l.goal)) == i
  {
    hide *;
    RestIs(s, t);
    RestFacts(s, t);
    var l := s.threads[t];
    var a, p := s.arenas[l.k], Target(l.goal);
    HeaderBefore(p, p - HEADER);
    i := VacantBlock(a.target, p - HEADER, 0);
    RestList(s, t, i);
    WhereIs(a.blocks, p);
  }

  lemma MergeNextCourse(s: State, t: nat, bs: seq<Block>)
    requires AtRest(s, t) && s.threads[t].pc.MergeNext? && OnCourse(bs, s.arenas[s.threads[t].k], s.threads[t])
    ensures var l := s.threads[t]; var a := s.arenas[l.k];
      GoesOn(bs, a, l, Plan(JoinPlan(s.mem, a, Header0(Target(l.goal))), l.mine, l.copy, MergePrev(l.pc.res)))
  {
    hide *;
    RestIs(s, t);
    RestFacts(s, t);
    MergeFacts(s, t);
    var l := s.threads[t];
    var a := s.arenas[l.k];
    OnCourseIs(bs, a, l);
    var es := NextOn(bs, a, l);
    var i := FreedBlock(s, t, es);
    SameWhere(es, Target(l.goal), true);
    JoinPlanned(s.mem, s.brk, s.owner, l.k, a, i);
    NextJoined(bs, a, l, Plan(JoinPlan(s.mem, a, Header0(Target(l.goal))), l.mine, l.copy, MergePrev(l.pc.res)), es);
  }

  lemma NextOn(bs: seq<Block>, a: Arena, l: Local) returns (es: seq<Block>)
    requires l.Work? && l.pc.MergeNext? && Course(bs, l.goal, l.pc, a.target)
    ensures Frees(bs, l.goal, l.pc.res, es) && Where(es, Target(l.goal)) < |es| && a.target == SetFreed(es, Where(es, Target(l.goal)), true)
  {
    hide Frees, Where, SetFreed;
    es :| Frees(bs, l.goal, l.pc.res, es) && Where(es, Target(l.goal)) < |es| && a.target == SetFreed(es, Where(es, Target(l.goal)), true);
  }

  lemma SameIndex(bs: seq<Block>, cs: seq<Block>, q: nat)
    requires IndexOf(bs, q) < |bs| && IndexOf(bs, q) < |cs| && forall j :: 0 <= j <= IndexOf(bs, q) ==> cs[j].addr == bs[j].addr
    ensures IndexOf(cs, q) == IndexOf(bs, q)
  {
    hide IndexOf;
  }

  /** Marking a block moves nothing. */
  lemma SameWhere(es: seq<Block>, p: nat, freed: bool)
    requires Where(es, p) < |es|
    ensures Where(SetFreed(es, Where(es, p), freed), p) == Where(es, p)
  {
    var i := Where(es, p);
    var cs := SetFreed(es, i, freed);
    assert forall j :: 0 <= j < |es| ==> cs[j].addr == es[j].addr;
    SameIndex(es, cs, Header0(p));
  }

  lemma NextJoined(bs: seq<Block>, a: Arena, l: Local, act: Act, es: seq<Block>)
    requires l.Work? && l.pc.MergeNext? && Frees(bs, l.goal, l.pc.res, es) && Where(es, Target(l.goal)) < |es|
    requires act.Plan? && act.pc == MergePrev(l.pc.res)
    requires act.a.target == JoinAt(SetFreed(es, Where(es, Target(l.goal)), true), Where(es, Target(l.goal)))
    ensures GoesOn(bs, a, l, act)
  {
    hide Frees, Where, SetFreed, JoinAt;
  }

  lemma MergePrevCourse(s: State, t: nat, bs: seq<Block>)
    requires AtRest(s, t) && s.threads[t].pc.MergePrev? && OnCourse(bs, s.arenas[s.threads[t].k], s.threads[t])
    ensures var l := s.threads[t]; var a := s.arenas[l.k];
      GoesOn(bs, a, l, Merge(a, s.mem, Header0(Target(l.goal)), l.mine, l.copy, l.pc.res))
  {
    hide *;
    RestIs(s, t);
    RestFacts(s, t);
    MergeFacts(s, t);
    var l := s.threads[t];
    var a, p := s.arenas[l.k], Target(l.goal);
    OnCourseIs(bs, a, l);
    var es := PrevOn(bs, a, l);
    var i := FreedBlock(s, t, es);
    JoinedWhere(es, p, s.brk);
    SizeLoaded(s, l.k, i);
    PrevIs0(l.k, a.blocks, i);
    MergeIs(a, s.mem, Header0(p), l.mine, l.copy, l.pc.res);
    MergedList(es, p);
    if i > 0 {
      SizeLoaded(s, l.k, i - 1);
      BlockPlaced(a.blocks, i - 1, s.brk);
      JoinPlanned(s.mem, s.brk, s.owner, l.k, a, i - 1);
    }
    NextIs(a, Merge(a, s.mem, Header0(p), l.mine, l.copy, l.pc.res));
    FreedNext(bs, a, l, Merge(a, s.mem, Header0(p), l.mine, l.copy, l.pc.res), es);
  }

  lemma NextIs(a: Arena, act: Act)
    ensures NextList(a, act) == if act.Plan? then act.a.target else a.target
  {
  }

  lemma PrevOn(bs: seq<Block>, a: Arena, l: Local) returns (es: seq<Block>)
    requires l.Work? && l.pc.MergePrev? && Course(bs, l.goal, l.pc, a.target)
    ensures Frees(bs, l.goal, l.pc.res, es) && Where(es, Target(l.goal)) < |es|
    ensures a.target == JoinAt(SetFreed(es, Where(es, Target(l.goal)), true), Where(es, Target(l.goal)))
  {
    hide Frees, Where, JoinAt;
    es :| Frees(bs, l.goal, l.pc.res, es) && Where(es, Target(l.goal)) < |es|
          && a.target == JoinAt(SetFreed(es, Where(es, Target(l.goal)), true), Where(es, Target(l.goal)));
  }

  /** Merging with the next block moves nothing before it. */
  lemma JoinedWhere(es: seq<Block>, p: nat, brk: nat)
    requires Where(es, p) < |es|
    ensures var i := Where(es, p); Where(JoinAt(SetFreed(es, i, true), i), p) == i
  {
    var i := Where(es, p);
    SameWhere(es, p, true);
    var ds := SetFreed(es, i, true);
    var cs := JoinAt(ds, i);
    JoinKeepsPrefix(ds, i);
    assert forall j :: 0 <= j <= i ==> cs[j].addr == ds[j].addr;
    SameIndex(es, cs, Header0(p));
  }

  lemma MergedList(es: seq<Block>, p: nat)
    requires Where(es, p) < |es|
    ensures var i := Where(es, p); var cs := JoinAt(SetFreed(es, i, true), i);
      && i < |cs|
      && FreeAt(es, i) == if i > 0 && cs[i - 1].freed then JoinAt(cs, i - 1) else cs
  {
    var i := Where(es, p);
    JoinKeepsPrefix(SetFreed(es, i, true), i);
    hide Where, JoinAt;
  }

  lemma FreedNext(bs: seq<Block>, a: Arena, l: Local, act: Act, es: seq<Block>)
    requires l.Work? && l.pc.MergePrev? && Frees(bs, l.goal, l.pc.res, es) && Where(es, Target(l.goal)) < |es|
    requires (act.Plan? || act.Goto?) && act.pc == Leave(l.pc.res) && NextList(a, act) == FreeAt(es, Where(es, Target(l.goal)))
    ensures GoesOn(bs, a, l, act)
  {
    hide Where, FreeAt, Exchanged, NextList;
    GoalTarget(l.goal);
    if l.goal.Move? { MoveSmall(bs, l.goal); }
  }

  /** What a move that does not stay in place knows. */
  lemma MoveSmall(bs: seq<Block>, goal: Goal)
    requires goal.Move? && TooSmall(bs, goal)
    ensures var i, ds := Where(bs, goal.p), InPlace(bs, goal); UsedAt(bs, goal.p) && i < |ds| && ds[i].size < goal.n
  {
    hide Where, InPlace;
  }

  // ---- Growing in place ----

  lemma FitCourse(s: State, t: nat, bs: seq<Block>)
    requires AtRest(s, t) && s.threads[t].pc.Fit? && OnCourse(bs, s.arenas[s.threads[t].k], s.threads[t])
    ensures var l := s.threads[t]; var a := s.arenas[l.k];
      GoesOn(bs, a, l, Refit(a, s.mem, Target(l.goal), Size(l.goal), l.mine, l.copy))
  {
    hide *;
    RestIs(s, t);
    RestFacts(s, t);
    FitFacts(s, t);
    var l := s.threads[t];
    var a, p, n := s.arenas[l.k], Target(l.goal), Size(l.goal);
    OnCourseIs(bs, a, l);
    GoalTarget(l.goal);
    FitOn(bs, a, l);
    MoveIsNotGive(l.goal);
    var i := OwnBlock(s, t);
    GrownWhere(bs, l.goal);
    SizeLoaded(s, l.k, i);
    RefitIs(a, s.mem, p, n, l.mine, l.copy);
    FitNotNull(s, t);
    if n <= a.blocks[i].size {
      SplitPlanned(s.mem, s.brk, s.owner, l.k, a, i, n);
      StaysHere(bs, a, l, Refit(a, s.mem, p, n, l.mine, l.copy));
    } else {
      PassedNone(l.k, s, n);
      SmallIntro(bs, l.goal);
      MoveSearches(bs, a, l, Refit(a, s.mem, p, n, l.mine, l.copy));
    }
  }

  lemma FitOn(bs: seq<Block>, a: Arena, l: Local)
    requires l.Work? && l.pc.Fit? && Course(bs, l.goal, l.pc, a.target)
    ensures l.goal.Move? && a.target == InPlace(bs, l.goal) && Where(bs, l.goal.p) < |a.target| && UsedAt(bs, l.goal.p)
  {
    hide Where, InPlace;
  }

  /** Growing in place leaves the block where it is. */
  lemma GrownWhere(bs: seq<Block>, goal: Goal)
    requires goal.Move? && Where(InPlace(bs, goal), goal.p) < |InPlace(bs, goal)|
    requires Where(bs, goal.p) < |InPlace(bs, goal)|
    ensures Where(InPlace(bs, goal), goal.p) == Where(bs, goal.p)
  {
    var i := Where(bs, goal.p);
    if i < |bs| {
      JoinKeepsPrefix(bs, i);
      var cs := JoinAt(bs, i);
      assert forall j :: 0 <= j <= i ==> cs[j].addr == bs[j].addr;
      SameIndex(bs, cs, Header0(goal.p));
    }
  }

  lemma StaysHere(bs: seq<Block>, a: Arena, l: Local, act: Act)
    requires l.Work? && l.goal.Move? && a.target == InPlace(bs, l.goal) && Where(bs, l.goal.p) < |a.target| && UsedAt(bs, l.goal.p)
    requires Size(l.goal) == l.goal.n <= a.target[Where(bs, l.goal.p)].size
    requires act.Plan? && act.pc == Leave(l.goal.p) && act.a.target == SplitAt(a.target, Where(bs, l.goal.p), Size(l.goal))
    ensures GoesOn(bs, a, l, act)
  {
    hide Where, InPlace, SplitAt;
  }

  lemma SmallIntro(bs: seq<Block>, goal: Goal)
    requires goal.Move? && UsedAt(bs, goal.p) && Where(bs, goal.p) < |InPlace(bs, goal)| && InPlace(bs, goal)[Where(bs, goal.p)].size < goal.n
    ensures TooSmall(bs, goal)
  {
    hide Where, InPlace;
  }

  lemma MoveSearches(bs: seq<Block>, a: Arena, l: Local, act: Act)
    requires l.Work? && l.goal.Move? && act == Goto(Search(a.head)) && a.target == InPlace(bs, l.goal) && TooSmall(bs, l.goal)
    requires Passed(a.target, a.head, Size(l.goal))
    ensures GoesOn(bs, a, l, act)
  {
    hide Passed, InPlace, TooSmall;
  }

  // ---- Every step ----

  lemma Arrives(bs: seq<Block>, s: State, t: nat, a: Arena, l: Local, act: Act, b: Arena)
    requires l.Work? && GoesOn(bs, a, l, act) && ArenaMoved(a, act, b)
    ensures OnCourse(bs, b, Moved(s, a, t, l, act))
  {
    hide Course;
  }

  /** The course of a call outside the extension of the heap. */
  lemma OutsideCourse(s: State, t: nat, bs: seq<Block>, act: Act)
    requires AtRest(s, t) && Outside(s.threads[t].pc) && !s.threads[t].pc.Leave? && OnCourse(bs, s.arenas[s.threads[t].k], s.threads[t])
    requires OutsideAct(s.arenas[s.threads[t].k], s.mem, s.threads[t], act)
    ensures GoesOn(bs, s.arenas[s.threads[t].k], s.threads[t], act)
  {
    hide *;
    RestIs(s, t);
    var pc := s.threads[t].pc;
    OutsidePlaces(pc);
    if pc.Begin? || pc.Search? || pc.Mark? || pc.Cut? || pc.Fit? { EarlyCourse(s, t, bs, act); } else { LateCourse(s, t, bs, act); }
  }

  lemma OutsidePlaces(pc: Pc)
    requires Outside(pc) && !pc.Leave?
    ensures pc.Begin? || pc.Search? || pc.Mark? || pc.Cut? || pc.Fit? || pc.Got? || pc.CopyByte? || pc.MergeNext? || pc.MergePrev?
  {
  }

  lemma EarlyActs(a: Arena, m: Mem, l: Local, act: Act)
    requires l.Work? && OutsideAct(a, m, l, act)
    ensures l.pc.Begin? ==> act == Start0(a, m, l.goal, l.mine)
    ensures l.pc.Search? ==> act == Seek(a, m, Size(l.goal), l.mine, l.copy, l.pc.at)
    ensures l.pc.Mark? ==> act == Plan(FreedPlan(a, l.pc.q, false), l.mine + {l.pc.q + HEADER}, l.copy, Got(l.pc.q))
    ensures l.pc.Cut? ==> act == Plan(SplitPlan(m, a, l.pc.base, Size(l.goal)), l.mine, l.copy, Got(l.pc.base))
    ensures l.pc.Fit? ==> act == Refit(a, m, Target(l.goal), Size(l.goal), l.mine, l.copy)
  {
    hide FreedPlan, JoinPlan, Merge, Target, Header0, Seek, Start0, Refit, SplitPlan, Size;
  }

  lemma EarlyCourse(s: State, t: nat, bs: seq<Block>, act: Act)
    requires AtRest(s, t) && OnCourse(bs, s.arenas[s.threads[t].k], s.threads[t])
    requires OutsideAct(s.arenas[s.threads[t].k], s.mem, s.threads[t], act)
    requires var pc := s.threads[t].pc; pc.Begin? || pc.Search? || pc.Mark? || pc.Cut? || pc.Fit?
    ensures GoesOn(bs, s.arenas[s.threads[t].k], s.threads[t], act)
  {
    hide *;
    RestIs(s, t);
    var l := s.threads[t];
    EarlyActs(s.arenas[l.k], s.mem, l, act);
    if l.pc.Begin? { BeginCourse(s, t, bs); }
    if l.pc.Search? { SearchCourse(s, t, bs); }
    if l.pc.Mark? { MarkCourse(s, t, bs); }
    if l.pc.Cut? { CutCourse(s, t, bs); }
    if l.pc.Fit? { FitCourse(s, t, bs); }
  }

  lemma LateActs(a: Arena, m: Mem, l: Local, act: Act)
    requires l.Work? && OutsideAct(a, m, l, act)
    ensures l.pc.Got? ==> act == Goto(if l.goal.Move? then CopyByte(l.pc.q, 0) else Leave(l.pc.q + HEADER))
    ensures l.pc.CopyByte? ==>
      act == if l.pc.i < l.copy then Copy(l.pc.q + HEADER + l.pc.i, Target(l.goal) + l.pc.i, CopyByte(l.pc.q, l.pc.i + 1))
             else Plan(FreedPlan(a, Header0(Target(l.goal)), true), l.mine - {Target(l.goal)}, l.copy, MergeNext(l.pc.q + HEADER))
    ensures l.pc.MergeNext? ==> act == Plan(JoinPlan(m, a, Header0(Target(l.goal))), l.mine, l.copy, MergePrev(l.pc.res))
    ensures l.pc.MergePrev? ==> act == Merge(a, m, Header0(Target(l.goal)), l.mine, l.copy, l.pc.res)
  {
    hide FreedPlan, JoinPlan, Merge, Target, Header0, Seek, Start0, Refit, SplitPlan, Size;
  }

  lemma LateCourse(s: State, t: nat, bs: seq<Block>, act: Act)
    requires AtRest(s, t) && OnCourse(bs, s.arenas[s.threads[t].k], s.threads[t])
    requires OutsideAct(s.arenas[s.threads[t].k], s.mem, s.threads[t], act)
    requires var pc := s.threads[t].pc; pc.Got? || pc.CopyByte? || pc.MergeNext? || pc.MergePrev?
    ensures GoesOn(bs, s.arenas[s.threads[t].k], s.threads[t], act)
  {
    hide *;
    RestIs(s, t);
    var l := s.threads[t];
    LateActs(s.arenas[l.k], s.mem, l, act);
    if l.pc.Got? {
      OnCourseIs(bs, s.arenas[l.k], l);
      GotCourse(bs, s.arenas[l.k], l);
    }
    if l.pc.CopyByte? { CopyCourse(s, t, bs); }
    if l.pc.MergeNext? { MergeNextCourse(s, t, bs); }
    if l.pc.MergePrev? { MergePrevCourse(s, t, bs); }
  }

  /** The course of a call while it extends the heap or makes its stores. */
  lemma InsideCourse(s: State, t: nat, bs: seq<Block>, a: Arena, l: Local, sys: Kernel, b: Arena)
    requires l.Work? && !Outside(l.pc) && OnCourse(bs, a, l) && ArenaMoved(a, ActOf(s, a, l, sys), b)
    requires l.pc.Storing? ==> a.todo != [] && Resumes(l.pc.next)
    requires l.pc.WriteBrk? ==> l.pc.base != 0 && b.target == a.target + [Block(l.pc.base, Size(l.goal) + l.pc.reserve, false)]
    ensures OnCourse(bs, b, Moved(s, a, t, l, ActOf(s, a, l, sys)))
  {
    hide SplitPlan, JoinPlan, FreedPlan, Load, Refuses, Seek, Start0, Merge, Refit, Size, Target, InPlace, HasFit, Obtained, Exchanged, Frees, FreeAt, Passed, FirstFit, Where, TooSmall, Course, OnCourse;
    OnCourseAhead(bs, a, l);
    if l.pc.Storing? {
      CourseSame(bs, l.goal, Ahead(l.pc), b, Moved(s, a, t, l, ActOf(s, a, l, sys)));
    } else if l.pc.Unlock? && l.pc.base == 0 {
      Fails(bs, l.goal, b, Moved(s, a, t, l, ActOf(s, a, l, sys)));
    } else {
      ExtendsNext(s, bs, a, l, sys, b, Moved(s, a, t, l, ActOf(s, a, l, sys)));
    }
  }

  lemma OnCourseAhead(bs: seq<Block>, a: Arena, l: Local)
    requires OnCourse(bs, a, l)
    ensures l.Work? && Course(bs, l.goal, Ahead(l.pc), a.target)
  {
    hide Course;
  }

  lemma CourseSame(bs: seq<Block>, goal: Goal, pc: Pc, b: Arena, l': Local)
    requires Course(bs, goal, pc, b.target) && l'.Work? && l'.goal == goal && Ahead(l'.pc) == pc
    ensures OnCourse(bs, b, l')
  {
    hide Course;
  }

  /** The region was refused. */
  lemma Fails(bs: seq<Block>, goal: Goal, b: Arena, l': Local)
    requires Course(bs, goal, Unlock(0), b.target) && l'.Work? && l'.goal == goal && l'.pc == Leave(0)
    ensures OnCourse(bs, b, l')
  {
    hide HasFit, Obtained, FreeAt, Where;
    if goal.Give? { NotMovedGrown(bs, goal); }
  }

  /** One step of extending the heap. */
  lemma ExtendsNext(s: State, bs: seq<Block>, a: Arena, l: Local, sys: Kernel, b: Arena, l': Local)
    requires l.Work? && !Outside(l.pc) && !l.pc.Storing? && l.pc != Unlock(0) && Course(bs, l.goal, l.pc, a.target) && l' == Moved(s, a, 0, l, ActOf(s, a, l, sys))
    requires if l.pc.WriteBrk? then l.pc.base != 0 && b.target == a.target + [Block(l.pc.base, Size(l.goal) + l.pc.reserve, false)] else b.target == a.target
    ensures OnCourse(bs, b, l')
  {
    hide Refuses, Size, InPlace, HasFit, TooSmall, Obtained, Frees, Finished, FirstFit, Passed;
  }

  lemma ExtendList(s: State, t: nat, l: Local, base: nat, size: nat)
    requires t < |s.threads| && l.Work? && l.k < |s.arenas| && l.k < |s.locks|
    ensures var s' := Perform(s, t, l, Extend(base, size));
      |s'.arenas| == |s.arenas| && s'.arenas[l.k].target == s.arenas[l.k].blocks + [Block(base, size, false)]
  {
    hide Grown;
  }

  /** Every step of a call in its arena, but the last, goes on along the course. */
  lemma WorkCourse(s: State, t: nat, sys: Kernel, bs: seq<Block>)
    requires Inv(s) && t < |s.threads| && s.threads[t].Work? && !s.threads[t].pc.Leave? && s.threads[t].k < |s.arenas|
    requires OnCourse(bs, s.arenas[s.threads[t].k], s.threads[t])
    ensures |s.arenas| == |s.locks| == ARENAS && |Step(s, Go(t, sys)).threads| == |s.threads| && |Step(s, Go(t, sys)).arenas| == ARENAS
    ensures s.threads[t].k < ARENAS && OnCourse(bs, Step(s, Go(t, sys)).arenas[s.threads[t].k], Step(s, Go(t, sys)).threads[t])
  {
    hide *;
    WorkFacts(s, t);
    WorkStep(s, t, sys);
    var l := s.threads[t];
    var a := s.arenas[l.k];
    var act := ActOf(s, a, l, sys);
    WorkArena(s, t, l, act);
    var b := Perform(s, t, l, act).arenas[l.k];
    Place(l);
    if Outside(l.pc) {
      RestIntro(s, t);
      RestActs(s, a, l, sys);
      OutsideCourse(s, t, bs, act);
      Arrives(bs, s, t, a, l, act, b);
    } else {
      InsideFacts(s, a, l);
      if l.pc.WriteBrk? {
        InsideActs(s, a, l, sys);
        RegionFacts(s, a, l);
        OwnerBelow(s);
        QuietTarget(s, l.k);
        QuietIs(a);
        ExtendList(s, t, l, l.pc.base, Size(l.goal) + l.pc.reserve);
      }
      InsideCourse(s, t, bs, a, l, sys, b);
    }
  }

  lemma QuietIs(a: Arena)
    ensures Quiet(a) <==> a.todo == []
  {
  }
}
