/**
The allocator as a machine of atomic steps: any number of threads that call `malloc`, `free` and `realloc`
on one memory, five arenas with a lock each, and one lock around `sbrk`.

Every store to a header, to the head or tail of an arena, and of a copied byte is a step of its own, and so
are the two halves of `sbrk`: reading the break, and writing it.  The headers that a change of a list
needs are read when the change begins; nobody but the holder of the arena's lock writes them.  The arena
field of a block that is freed or resized is read before any lock is taken.

`owner`, `home`, `live`, the `blocks` and `target` of an arena, and the pointers `mine` of a call are
bookkeeping: no step of a thread depends on them but the choice of the list that a change leads to.
*/
module HeapMachine {
  import opened Bytes
  import opened FlatMemory
  import opened BlockLists
  import opened ArenaMemory
  import opened HeapViews
  import opened HeapCalls
  import opened ArenaEdits
  import opened Options

  const RESERVE: nat := 2048

  /** What a call is for, after rounding: `malloc` of `n` bytes, `free` of `p`, `realloc` of `p` to `n`. */
  datatype Goal = Give(n: nat) | Release(p: nat) | Move(p: nat, n: nat)

  /** Where a call stands once it holds its arena.  `at`, `q` and `base` are headers, `res` is the answer. */
  datatype Pc =
    | Begin
    | Search(at: nat)
    | Mark(q: nat)
    | Got(q: nat)
    | ReadFlag
    | TryLock
    | MarkContended
    | Wait
    | ReadReserve
    | ReadBrk(reserve: nat)
    | WriteBrk(base: nat, reserve: nat)
    | Unlock(base: nat)
    | Cut(base: nat)
    | CopyByte(q: nat, i: nat)
    | MergeNext(res: nat)
    | MergePrev(res: nat)
    | Fit
    | Leave(res: nat)
    | Storing(next: Pc)

  /** A thread: idle, about to read the arena field of its block, waiting for its arena, or at work in it.
      `mine` are the allocations that the call answers for, `copy` the bytes that a move preserves. */
  datatype Local =
    | Idle
    | ReadArena(goal: Goal, mine: set<nat>)
    | Want(k: nat, goal: Goal, mine: set<nat>)
    | Work(k: nat, goal: Goal, mine: set<nat>, copy: nat, pc: Pc)

  /** `home` tells the arena of every allocation in use, `live` those that no call is working on. */
  datatype State = State(mem: Mem, brk: nat, owner: map<int, nat>, arenas: seq<Arena>, locks: seq<Option<nat>>,
                         sbrkLock: Option<nat>, contended: bool, home: map<nat, nat>, live: set<nat>, threads: seq<Local>)

  /** The answer of the system when the break is read: it refuses, or others have raised the break by `skip`. */
  datatype Kernel = Deny | Grant(skip: nat)

  /** An idle thread makes a call (`k` is the arena it was given), a thread takes its next step, or a thread
      writes a byte of a live allocation. */
  datatype Choice = Start(t: nat, k: nat, goal: Goal) | Go(t: nat, sys: Kernel) | Poke(t: nat, p: nat, x: nat, b: Byte)

  // ---- One step of a thread that holds its arena ----

  /** What a step does. */
  datatype Act =
    | Goto(pc: Pc)
    | Plan(a: Arena, mine: set<nat>, copy: nat, pc: Pc)
    | MakeStore
    | TakeSbrk
    | SetContended
    | GiveSbrk(pc: Pc)
    | Extend(base: nat, size: nat)
    | Copy(dst: nat, src: nat, pc: Pc)
    | Finish
    | Spin

  function Header0(p: nat): nat {
    if p >= HEADER then p - HEADER else 0
  }

  function Start0(a: Arena, m: Mem, goal: Goal, mine: set<nat>): Act {
    match goal
    case Give(_) => Goto(Search(a.head))
    case Release(p) => Plan(FreedPlan(a, Header0(p), true), mine - {p}, 0, MergeNext(0))
    case Move(p, _) => Plan(JoinPlan(m, a, Header0(p)), mine, if Loadable(m, Header0(p)) then Load(m, Header0(p)).size else 0, Fit)
  }

  /** `first_hit`, one block at a time. */
  function Seek(a: Arena, m: Mem, n: nat, mine: set<nat>, copy: nat, at: nat): Act {
    if at == 0 || !Loadable(m, at) then Goto(ReadFlag)
    else if Load(m, at).freed && Load(m, at).size >= n then Plan(SplitPlan(m, a, at, n), mine, copy, Mark(at))
    else Goto(Search(Load(m, at).next))
  }

  predicate Refuses(s: State, sys: Kernel, size: nat) {
    sys.Deny? || sys.skip % 8 != 0 || s.brk + sys.skip + HEADER + size > |s.mem|
  }

  /** After the merge with the next block: merge the block before it with it, if that is free. */
  function Merge(a: Arena, m: Mem, p: nat, mine: set<nat>, copy: nat, res: nat): Act {
    if !Loadable(m, p) then Goto(Leave(res))
    else
      var prev := Load(m, p).prev;
      if prev != 0 && Loadable(m, prev) && Load(m, prev).freed then Plan(JoinPlan(m, a, prev), mine, copy, Leave(res)) else Goto(Leave(res))
  }

  function Refit(a: Arena, m: Mem, p: nat, n: nat, mine: set<nat>, copy: nat): Act {
    if Loadable(m, Header0(p)) && n <= Load(m, Header0(p)).size then Plan(SplitPlan(m, a, Header0(p), n), mine, copy, Leave(p))
    else Goto(Search(a.head))
  }

  function Target(goal: Goal): nat {
    match goal case Give(_) => 0 case Release(p) => p case Move(p, _) => p
  }

  function Size(goal: Goal): nat {
    match goal case Give(n) => n case Release(_) => 0 case Move(_, n) => n
  }

  function ActOf(s: State, a: Arena, l: Local, sys: Kernel): Act
    requires l.Work?
  {
    var m, goal, mine, n := s.mem, l.goal, l.mine, Size(l.goal);
    match l.pc
    case Begin => Start0(a, m, goal, mine)
    case Search(at) => Seek(a, m, n, mine, l.copy, at)
    case Mark(q) => Plan(FreedPlan(a, q, false), mine + {q + HEADER}, l.copy, Got(q))
    case Got(q) => Goto(if goal.Move? then CopyByte(q, 0) else Leave(q + HEADER))
    case ReadFlag => Goto(if s.contended then MarkContended else TryLock)
    case TryLock => if s.sbrkLock.None? then TakeSbrk else Goto(MarkContended)
    case MarkContended => SetContended
    case Wait => if s.sbrkLock.None? then TakeSbrk else Spin
    case ReadReserve => Goto(ReadBrk(if s.contended then RESERVE else 0))
    case ReadBrk(reserve) => Goto(if Refuses(s, sys, n + reserve) then Unlock(0) else WriteBrk(s.brk + sys.skip, reserve))
    case WriteBrk(base, reserve) => Extend(base, n + reserve)
    case Unlock(base) => GiveSbrk(if base == 0 then Leave(0) else Storing(Cut(base)))
    case Cut(base) => Plan(SplitPlan(m, a, base, n), mine, l.copy, Got(base))
    case CopyByte(q, i) =>
      if i < l.copy then Copy(q + HEADER + i, Target(goal) + i, CopyByte(q, i + 1))
      else Plan(FreedPlan(a, Header0(Target(goal)), true), mine - {Target(goal)}, l.copy, MergeNext(q + HEADER))
    case MergeNext(res) => Plan(JoinPlan(m, a, Header0(Target(goal))), mine, l.copy, MergePrev(res))
    case MergePrev(res) => Merge(a, m, Header0(Target(goal)), mine, l.copy, res)
    case Fit => Refit(a, m, Target(goal), n, mine, l.copy)
    case Leave(_) => Finish
    case Storing(_) => MakeStore
  }

  /** The new block counts as used once its list holds it. */
  function Pinned(next: Pc): set<nat> {
    if next.Cut? then {next.base + HEADER} else {}
  }

  /** Where the call stands after a store. */
  function AfterStore(l: Local, last: bool): Local
    requires l.Work?
  {
    if last && l.pc.Storing? then l.(pc := l.pc.next, mine := l.mine + Pinned(l.pc.next)) else l
  }

  function Rehomed(home: map<nat, nat>, k: nat, before: set<nat>, after: set<nat>): map<nat, nat> {
    (home - (before - after)) + map p | p in after - before :: k
  }

  function AfterPlan(l: Local, act: Act): Local
    requires l.Work? && act.Plan?
  {
    l.(mine := act.mine, copy := act.copy, pc := if act.a.todo == [] then act.pc else Storing(act.pc))
  }

  function Perform(s: State, t: nat, l: Local, act: Act): State
    requires t < |s.threads| && l.Work? && l.k < |s.arenas| && l.k < |s.locks|
  {
    var a := s.arenas[l.k];
    match act
    case Goto(pc) => s.(threads := s.threads[t := l.(pc := pc)])
    case Plan(a', mine, copy, pc) =>
      s.(arenas := s.arenas[l.k := a'], home := Rehomed(s.home, l.k, l.mine, mine), threads := s.threads[t := AfterPlan(l, act)])
    case MakeStore =>
      if a.todo == [] then s
      else
        var c, l' := Done(Cells(s.mem, a.head, a.tail), a.todo[0]), AfterStore(l, |a.todo| == 1);
        s.(mem := c.mem, arenas := s.arenas[l.k := Advanced(a, c)], home := Rehomed(s.home, l.k, l.mine, l'.mine), threads := s.threads[t := l'])
    case TakeSbrk => s.(sbrkLock := Some(t), threads := s.threads[t := l.(pc := ReadReserve)])
    case SetContended => s.(contended := true, threads := s.threads[t := l.(pc := Wait)])
    case GiveSbrk(pc) => s.(sbrkLock := None, threads := s.threads[t := l.(pc := pc)])
    case Extend(base, size) =>
      s.(brk := base + (HEADER + size), owner := Grown(s.owner, base, HEADER + size, l.k),
         arenas := s.arenas[l.k := AppendPlan(l.k, a, base, size)], threads := s.threads[t := l.(pc := Unlock(base))])
    case Copy(dst, src, pc) =>
      s.(mem := if dst < |s.mem| && src < |s.mem| then s.mem[dst := s.mem[src]] else s.mem, threads := s.threads[t := l.(pc := pc)])
    case Finish => s.(locks := s.locks[l.k := None], live := s.live + l.mine, threads := s.threads[t := Idle])
    case Spin => s
  }

  // ---- All steps ----

  predicate Rounds(goal: Goal) {
    goal.Release? || Rounded(Size(goal))
  }

  /** A client frees and resizes only what is live, and passes it to one call at a time. */
  predicate MayStart(s: State, k: nat, goal: Goal) {
    k < ARENAS && Rounds(goal) && (!goal.Give? ==> Target(goal) in s.live)
  }

  function Begun(k: nat, goal: Goal): Local {
    if goal.Give? then Want(k, goal, {}) else ReadArena(goal, {Target(goal)})
  }

  function Held0(goal: Goal): set<nat> {
    if goal.Give? then {} else {Target(goal)}
  }

  ghost predicate MayPoke(s: State, p: nat, x: nat) {
    && p in s.live && p in s.home && s.home[p] < |s.arenas|
    && exists n: nat :: LiveIn(s.arenas[s.home[p]].blocks, p, n) && p <= x < p + n
  }

  function Approach(s: State, t: nat): State
    requires t < |s.threads| && |s.arenas| == |s.locks| == ARENAS
  {
    var l := s.threads[t];
    match l
    case Idle => s
    case ReadArena(goal, mine) =>
      if Loadable(s.mem, Header0(Target(goal))) then s.(threads := s.threads[t := Want(Load(s.mem, Header0(Target(goal))).arena, goal, mine)]) else s
    case Want(k, goal, mine) =>
      if k < ARENAS && s.locks[k].None? then s.(locks := s.locks[k := Some(t)], threads := s.threads[t := Work(k, goal, mine, 0, Begin)]) else s
    case Work(_, _, _, _, _) => s
  }

  ghost function Step(s: State, c: Choice): State
    requires |s.arenas| == |s.locks| == ARENAS
  {
    if c.t >= |s.threads| then s
    else
      var l := s.threads[c.t];
      match c
      case Start(t, k, goal) =>
        if l.Idle? && MayStart(s, k, goal) then s.(live := s.live - Held0(goal), threads := s.threads[t := Begun(k, goal)]) else s
      case Poke(t, p, x, b) => if x < |s.mem| && MayPoke(s, p, x) then s.(mem := s.mem[x := b]) else s
      case Go(t, sys) =>
        if !l.Work? then Approach(s, t)
        else if l.k >= ARENAS then s
        else Perform(s, t, l, ActOf(s, s.arenas[l.k], l, sys))
  }

  // ---- What is true at every step ----

  ghost predicate InList(bs: seq<Block>, p: nat) {
    exists i :: 0 <= i < |bs| && bs[i].addr + HEADER == p
  }

  /** The allocation at `p` is in use, and has at least `n` bytes. */
  ghost predicate Held(bs: seq<Block>, p: nat, n: nat) {
    exists s: nat :: n <= s && LiveIn(bs, p, s)
  }

  /** The block at `q` is free, and has at least `n` bytes. */
  ghost predicate Vacant(bs: seq<Block>, q: nat, n: nat) {
    exists i :: 0 <= i < |bs| && bs[i].addr == q && Holds(bs[i], n)
  }

  /** A move still holds its block, which is too small. */
  ghost predicate MoveOk(bs: seq<Block>, l: Local)
    requires l.Work?
  {
    l.goal.Move? ==> l.goal.p in l.mine && l.copy < l.goal.n && Held(bs, l.goal.p, l.copy)
  }

  /** The new block that a call has obtained, and not yet handed out. */
  ghost predicate Fresh(bs: seq<Block>, l: Local, base: nat)
    requires l.Work?
  {
    MoveOk(bs, l) && !l.goal.Release? && Held(bs, base + HEADER, Size(l.goal)) && base + HEADER != Target(l.goal)
  }

  ghost predicate SearchOk(bs: seq<Block>, l: Local, at: nat)
    requires l.Work?
  {
    MoveOk(bs, l) && !l.goal.Release? && (at != 0 ==> StartsBlock(bs, at))
  }

  /** The answer of a call is null, or an allocation of its own with room for what was asked. */
  ghost predicate Answers(bs: seq<Block>, l: Local, res: nat)
    requires l.Work?
  {
    res != 0 ==> res in l.mine && Held(bs, res, Size(l.goal))
  }

  ghost predicate MergeOk(bs: seq<Block>, l: Local, res: nat)
    requires l.Work?
  {
    !l.goal.Give? && Target(l.goal) >= HEADER && Vacant(bs, Target(l.goal) - HEADER, 0) && Answers(bs, l, res)
  }

  predicate RegionOk(s: State, l: Local, base: nat, reserve: nat)
    requires l.Work?
  {
    base % 8 == 0 && reserve % 8 == 0 && 0 < s.brk <= base && base + HEADER + Size(l.goal) + reserve <= |s.mem|
  }

  /** What a call relies on when it goes on at `pc` with list `bs`. */
  ghost predicate Expects(s: State, bs: seq<Block>, l: Local, pc: Pc)
    requires l.Work?
  {
    match pc
    case Begin => !l.goal.Give? ==> Target(l.goal) in l.mine
    case Search(at) => SearchOk(bs, l, at)
    case Mark(q) => MoveOk(bs, l) && !l.goal.Release? && Vacant(bs, q, Size(l.goal))
    case Got(q) => Fresh(bs, l, q) && q + HEADER in l.mine
    case ReadFlag => SearchOk(bs, l, 0)
    case TryLock => SearchOk(bs, l, 0)
    case MarkContended => SearchOk(bs, l, 0)
    case Wait => SearchOk(bs, l, 0)
    case ReadReserve => SearchOk(bs, l, 0)
    case ReadBrk(reserve) => SearchOk(bs, l, 0) && reserve % 8 == 0
    case WriteBrk(base, reserve) => SearchOk(bs, l, 0) && RegionOk(s, l, base, reserve)
    case Unlock(base) => SearchOk(bs, l, 0) && (base != 0 ==> Fresh(bs, l, base))
    case Cut(base) => Fresh(bs, l, base) && base + HEADER in l.mine
    case CopyByte(q, i) => l.goal.Move? && Fresh(bs, l, q) && q + HEADER in l.mine && i <= l.copy
    case MergeNext(res) => MergeOk(bs, l, res)
    case MergePrev(res) => MergeOk(bs, l, res)
    case Fit => l.goal.Move? && l.goal.p in l.mine && Held(bs, l.goal.p, l.copy)
    case Leave(res) => Answers(bs, l, res)
    case Storing(_) => false
  }

  /** The stores of an append are under way. */
  predicate Appending(pc: Pc) {
    (pc.Unlock? && pc.base != 0) || (pc.Storing? && pc.next.Cut?)
  }

  function NewBase(pc: Pc): nat
    requires Appending(pc)
  {
    if pc.Unlock? then pc.base else pc.next.base
  }

  /** Where stores can lead. */
  predicate Resumes(pc: Pc) {
    pc.Mark? || pc.Got? || pc.Cut? || pc.MergeNext? || pc.MergePrev? || pc.Fit? || pc.Leave?
  }

  ghost predicate WorkOk(s: State, a: Arena, l: Local)
    requires l.Work?
  {
    && Rounds(l.goal)
    && (l.pc.Storing? ==> Resumes(l.pc.next))
    && (a.todo != [] <==> l.pc.Storing? || Appending(l.pc))
    && (Appending(l.pc) ==> Fresh(a.target, l, NewBase(l.pc)) && !InList(a.blocks, NewBase(l.pc) + HEADER))
    && (l.pc.Storing? && !l.pc.next.Cut? ==> Expects(s, a.target, l, l.pc.next))
    && (!l.pc.Storing? ==> Expects(s, a.target, l, l.pc))
  }

  // ---- The invariant ----

  ghost predicate Sizes(s: State) {
    && |s.arenas| == |s.locks| == ARENAS
    && 0 < s.brk <= |s.mem| <= WORD && s.brk % 8 == 0
    && forall x :: x in s.owner ==> x < s.brk && s.owner[x] < ARENAS
  }

  ghost predicate ArenasOk(s: State)
    requires |s.arenas| == ARENAS
  {
    forall k :: 0 <= k < ARENAS ==> ArenaInv(s.mem, s.brk, s.owner, k, s.arenas[k])
  }

  predicate Holding(l: Local, k: nat) {
    l.Work? && l.k == k
  }

  /** Arena locks and the threads inside name each other, and an arena that nobody holds is at rest. */
  ghost predicate LocksOk(s: State)
    requires |s.arenas| == |s.locks| == ARENAS
  {
    && (forall t :: 0 <= t < |s.threads| && s.threads[t].Work? ==> s.threads[t].k < ARENAS && s.locks[s.threads[t].k] == Some(t))
    && (forall k :: 0 <= k < ARENAS && s.locks[k].Some? ==> s.locks[k].value < |s.threads| && Holding(s.threads[s.locks[k].value], k))
    && (forall k :: 0 <= k < ARENAS && s.locks[k].None? ==> Quiet(s.arenas[k]))
  }

  predicate HasSbrk(l: Local) {
    l.Work? && (l.pc.ReadReserve? || l.pc.ReadBrk? || l.pc.WriteBrk? || l.pc.Unlock?)
  }

  ghost predicate SbrkOk(lock: Option<nat>, threads: seq<Local>) {
    && (forall t :: 0 <= t < |threads| && HasSbrk(threads[t]) ==> lock == Some(t))
    && (lock.Some? ==> lock.value < |threads| && HasSbrk(threads[lock.value]))
  }

  /** The allocation at `p` is in the list of its arena, before and after the change under way. */
  ghost predicate AtHome(arenas: seq<Arena>, k: nat, p: nat) {
    k < |arenas| && InList(arenas[k].blocks, p) && Held(arenas[k].target, p, 0)
  }

  ghost predicate HomesOk(s: State) {
    forall p :: p in s.home ==> AtHome(s.arenas, s.home[p], p)
  }

  /** No thread inside an arena has the allocation at `p` in its hands. */
  ghost predicate Still(threads: seq<Local>, p: nat) {
    forall t :: 0 <= t < |threads| && threads[t].Work? ==> p !in threads[t].mine
  }

  /** No change under way touches an allocation that no thread inside an arena has in its hands. */
  ghost predicate StillOk(s: State) {
    forall p :: p in s.home && Still(s.threads, p) ==> s.home[p] < |s.arenas| && SameLive(s.arenas[s.home[p]], p)
  }

  ghost predicate LiveOk(s: State) {
    (forall p :: p in s.live ==> p in s.home) && StillOk(s)
  }

  ghost predicate SameLive(a: Arena, p: nat) {
    forall n: nat :: LiveIn(a.blocks, p, n) <==> LiveIn(a.target, p, n)
  }

  function Mine(l: Local): set<nat> {
    if l.Idle? then {} else l.mine
  }

  /** What a thread that does not yet hold its arena has to do with it. */
  ghost predicate WaitOk(s: State, l: Local) {
    match l
    case Idle => true
    case ReadArena(goal, mine) => Rounds(goal) && !goal.Give? && mine == {Target(goal)}
    case Want(k, goal, mine) => k < ARENAS && Rounds(goal) && mine == Held0(goal)
    case Work(_, _, _, _, _) => true
  }

  ghost predicate MineOk(s: State, l: Local) {
    forall p :: p in Mine(l) ==> p in s.home && (l.Want? || l.Work? ==> s.home[p] == l.k)
  }

  /** No allocation is in the hands of two. */
  ghost predicate HandsApart(s: State) {
    && (forall t :: 0 <= t < |s.threads| ==> Mine(s.threads[t]) !! s.live)
    && (forall t, u :: 0 <= t < u < |s.threads| ==> Mine(s.threads[t]) !! Mine(s.threads[u]))
  }

  ghost predicate ThreadOk(s: State, l: Local)
    requires |s.arenas| == ARENAS
  {
    WaitOk(s, l) && MineOk(s, l) && (l.Work? && l.k < ARENAS ==> WorkOk(s, s.arenas[l.k], l))
  }

  ghost predicate Inv(s: State) {
    && Sizes(s) && ArenasOk(s) && LocksOk(s) && SbrkOk(s.sbrkLock, s.threads)
    && HomesOk(s) && LiveOk(s) && HandsApart(s)
    && forall t :: 0 <= t < |s.threads| ==> ThreadOk(s, s.threads[t])
  }
}
