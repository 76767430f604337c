/**
What holds in every state of every run of the allocator's machine, whatever the schedule: an arena that
nobody holds is a sound list over its own bytes; a holder writes no byte of another arena; allocations in
use never overlap and keep their bytes; and the header of each names its arena even while other threads are
between two stores.
*/
module HeapMachineRuns {
  import opened Bytes
  import opened FlatMemory
  import opened BlockLists
  import opened ArenaMemory
  import opened HeapViews
  import opened HeapCalls
  import opened ArenaEdits
  import opened Options
  import opened HeapMachine
  import opened HeapMachineSteps
  import opened HeapMachineInv

  // ---- Runs ----

  /** A heap that has never been used, and threads that have not called yet. */
  function Initial(m: Mem, brk: nat, threads: nat): State {
    State(m, brk, map[], seq(ARENAS, k => Arena(0, 0, [], 0, [], [])), seq(ARENAS, k => None), None, false, map[], {}, seq(threads, t => Idle))
  }

  lemma InitialInv(m: Mem, brk: nat, threads: nat)
    requires 0 < brk <= |m| <= WORD && brk % 8 == 0
    ensures Inv(Initial(m, brk, threads))
  {
    var s := Initial(m, brk, threads);
    forall k | 0 <= k < ARENAS ensures ArenaInv(m, brk, map[], k, s.arenas[k]) { UnusedArena(m, brk, k); }
    hide ArenaInv;
  }

  lemma UnusedArena(m: Mem, brk: nat, k: nat)
    requires 0 < brk <= |m| <= WORD && brk % 8 == 0 && k < ARENAS
    ensures ArenaInv(m, brk, map[], k, Arena(0, 0, [], 0, [], []))
  {
    var v := Solo(m, brk, map[], k, Arena(0, 0, [], 0, [], []));
    forall j | 0 <= j < ARENAS ensures ArenaOk(v, j) { assert v.blocks[j] == []; }
  }

  /** The state before step `k` of a run. */
  ghost function StateAt(s: State, cs: seq<Choice>, k: nat): (r: State)
    requires Inv(s) && k <= |cs|
    ensures Inv(r) && |r.threads| == |s.threads|
    decreases k
  {
    hide *;
    if k == 0 then s
    else
      var r := StateAt(s, cs, k - 1);
      StepKeepsInv(r, cs[k - 1]);
      StepThreads(r, cs[k - 1]);
      Step(r, cs[k - 1])
  }

  /** A step moves the thread that takes it, and no other. */
  lemma StepThreads(s: State, c: Choice)
    requires |s.arenas| == |s.locks| == ARENAS
    ensures |Step(s, c).threads| == |s.threads| && |Step(s, c).mem| == |s.mem|
    ensures forall u :: 0 <= u < |s.threads| && u != c.t ==> Step(s, c).threads[u] == s.threads[u]
  {
    hide Perform, ActOf, Approach, MayStart, MayPoke, Begun, Held0;
    if c.t < |s.threads| && c.Go? {
      var l := s.threads[c.t];
      if !l.Work? {
        ApproachThreads(s, c.t);
      } else if l.k < ARENAS {
        PerformThreads(s, c.t, l, ActOf(s, s.arenas[l.k], l, c.sys));
      }
    }
  }

  lemma ApproachThreads(s: State, t: nat)
    requires |s.arenas| == |s.locks| == ARENAS && t < |s.threads|
    ensures |Approach(s, t).threads| == |s.threads| && Approach(s, t).mem == s.mem
    ensures forall u :: 0 <= u < |s.threads| && u != t ==> Approach(s, t).threads[u] == s.threads[u]
  {
    hide Load;
  }

  lemma PerformThreads(s: State, t: nat, l: Local, act: Act)
    requires t < |s.threads| && l.Work? && l.k < |s.arenas| && l.k < |s.locks|
    ensures var s' := Perform(s, t, l, act);
      |s'.threads| == |s.threads| && |s'.mem| == |s.mem| && forall u :: 0 <= u < |s.threads| && u != t ==> s'.threads[u] == s.threads[u]
  {
    hide Done, AfterStore, Advanced, Rehomed, Grown, AppendPlan, AfterPlan;
  }

  // ---- Every arena that nobody holds is sound ----

  /** All arenas together, as they stand in memory. */
  function Whole(s: State): (v: View)
    requires |s.arenas| == ARENAS
    ensures |v.heads| == |v.tails| == |v.blocks| == |v.got| == ARENAS
  {
    View(s.mem, s.brk, seq(ARENAS, k requires 0 <= k < ARENAS => s.arenas[k].head), seq(ARENAS, k requires 0 <= k < ARENAS => s.arenas[k].tail),
         seq(ARENAS, k requires 0 <= k < ARENAS => s.arenas[k].blocks), s.owner, seq(ARENAS, k requires 0 <= k < ARENAS => s.arenas[k].got))
  }

  lemma QuietArena(s: State, k: nat)
    requires Inv(s) && k < ARENAS && |s.arenas| == ARENAS && Quiet(s.arenas[k])
    ensures ArenaOk(Whole(s), k)
  {
    hide Inv, ArenaInv, Sound, Listed, Layout, Total, Covers;
    ArenaAt(s, k);
    var a := s.arenas[k];
    QuietSolo(s.mem, s.brk, s.owner, k, a);
    var v := Solo(s.mem, s.brk, s.owner, k, a);
    SoundArena(v, k);
    hide Solo;
    forall x ensures Covers(a.blocks, x) <==> x in s.owner && s.owner[x] == k {
      assert Covers(v.blocks[k], x) <==> x in v.owner && v.owner[x] == k;
    }
  }

  lemma SoundArena(v: View, k: nat)
    requires Sound(v) && k < ARENAS
    ensures |v.heads| == |v.tails| == |v.blocks| == |v.got| == ARENAS && ArenaOk(v, k)
  {
    hide ArenaOk;
  }

  lemma FreeQuiet(s: State, k: nat)
    requires Inv(s) && k < ARENAS && |s.locks| == |s.arenas| == ARENAS && s.locks[k].None?
    ensures Quiet(s.arenas[k])
  {
    InvParts(s);
    hide Inv, ArenasOk, HomesOk, LiveOk, HandsApart, SbrkOk, Sizes;
  }

  /** At every point of every run each lock has one holder at most, and an arena that nobody holds is a
      sound list of its own bytes; when no arena is held, the heap is sound as a whole. */
  lemma Safety(m: Mem, brk: nat, threads: nat, cs: seq<Choice>, i: nat)
    requires 0 < brk <= |m| <= WORD && brk % 8 == 0 && i <= |cs|
    ensures Inv(Initial(m, brk, threads))
    ensures var s := StateAt(Initial(m, brk, threads), cs, i);
      && |s.threads| == threads && |s.arenas| == |s.locks| == ARENAS
      && (forall t, u :: 0 <= t < u < threads ==>
            && !(HasSbrk(s.threads[t]) && HasSbrk(s.threads[u]))
            && (s.threads[t].Work? && s.threads[u].Work? ==> s.threads[t].k != s.threads[u].k))
      && (forall k :: 0 <= k < ARENAS && (forall t :: 0 <= t < threads ==> !Holding(s.threads[t], k)) ==> ArenaOk(Whole(s), k))
      && ((forall t :: 0 <= t < threads ==> !s.threads[t].Work?) ==> Sound(Whole(s)))
  {
    hide *;
    InitialInv(m, brk, threads);
    InitialThreads(m, brk, threads);
    var s := StateAt(Initial(m, brk, threads), cs, i);
    InvSizes(s);
    forall t, u | 0 <= t < u < threads
      ensures !(HasSbrk(s.threads[t]) && HasSbrk(s.threads[u]))
      ensures s.threads[t].Work? && s.threads[u].Work? ==> s.threads[t].k != s.threads[u].k
    {
      OneHolder(s, t, u);
    }
    forall k | 0 <= k < ARENAS && (forall t :: 0 <= t < threads ==> !Holding(s.threads[t], k)) ensures ArenaOk(Whole(s), k) {
      NotHeld(s, k);
      FreeQuiet(s, k);
      QuietArena(s, k);
    }
    if forall t :: 0 <= t < threads ==> !s.threads[t].Work? {
      NobodyHolds(s.threads);
      forall k | 0 <= k < ARENAS ensures ArenaOk(Whole(s), k) {
        NotHeld(s, k);
        FreeQuiet(s, k);
        QuietArena(s, k);
      }
      OwnerBelow(s);
      WholeSound(s);
    }
  }

  lemma InitialThreads(m: Mem, brk: nat, threads: nat)
    ensures |Initial(m, brk, threads).threads| == threads
  {
  }

  lemma OneHolder(s: State, t: nat, u: nat)
    requires Inv(s) && t < |s.threads| && u < |s.threads| && t != u
    ensures !(HasSbrk(s.threads[t]) && HasSbrk(s.threads[u]))
    ensures s.threads[t].Work? && s.threads[u].Work? ==> s.threads[t].k != s.threads[u].k
  {
    InvParts(s);
    hide Inv, ArenasOk, HomesOk, LiveOk, HandsApart, Sizes;
  }

  lemma NotHeld(s: State, k: nat)
    requires Inv(s) && k < ARENAS && forall t :: 0 <= t < |s.threads| ==> !Holding(s.threads[t], k)
    ensures |s.locks| == ARENAS && s.locks[k].None?
  {
    InvParts(s);
    hide Inv, ArenasOk, HomesOk, LiveOk, HandsApart, SbrkOk;
  }

  lemma NobodyHolds(threads: seq<Local>)
    requires forall t :: 0 <= t < |threads| ==> !threads[t].Work?
    ensures forall k, t :: 0 <= t < |threads| ==> !Holding(threads[t], k)
  {
  }

  lemma WholeSound(s: State)
    requires |s.arenas| == ARENAS && 0 < s.brk <= |s.mem| <= WORD && s.brk % 8 == 0
    requires forall x :: x in s.owner ==> x < s.brk
    requires forall k :: 0 <= k < ARENAS ==> ArenaOk(Whole(s), k)
    ensures Sound(Whole(s))
  {
    hide ArenaOk;
  }

  // ---- The unlocked read ----

  /** In every state, also between two stores of other threads, the header of each allocation in use names
      its arena; so a thread that reads it without a lock goes on to wait for the right one. */
  lemma ArenaFieldAlways(s: State, p: nat)
    requires Inv(s) && p in s.home
    ensures |s.arenas| == |s.locks| == ARENAS && s.home[p] < ARENAS
    ensures p >= HEADER && Loadable(s.mem, p - HEADER) && Load(s.mem, p - HEADER).arena == s.home[p]
    ensures InList(s.arenas[s.home[p]].blocks, p) && Held(s.arenas[s.home[p]].target, p, 0)
    ensures forall t :: 0 <= t < |s.threads| && s.threads[t].ReadArena? && Target(s.threads[t].goal) == p ==>
      Approach(s, t) == s.(threads := s.threads[t := Want(s.home[p], s.threads[t].goal, s.threads[t].mine)])
  {
    hide *;
    InvSizes(s);
    ArenaRead(s, p);
    HomeAt(s, p);
    forall t | 0 <= t < |s.threads| && s.threads[t].ReadArena? && Target(s.threads[t].goal) == p
      ensures Approach(s, t) == s.(threads := s.threads[t := Want(s.home[p], s.threads[t].goal, s.threads[t].mine)])
    {
      HeaderBefore(p, p - HEADER);
      ReadIs(s, t);
    }
  }

  lemma ReadIs(s: State, t: nat)
    requires t < |s.threads| && s.threads[t].ReadArena? && |s.arenas| == |s.locks| == ARENAS
    requires Loadable(s.mem, Header0(Target(s.threads[t].goal)))
    ensures var l := s.threads[t];
      Approach(s, t) == s.(threads := s.threads[t := Want(Load(s.mem, Header0(Target(l.goal))).arena, l.goal, l.mine)])
  {
    hide Load;
  }

  // ---- Allocations in use ----

  /** The size of an allocation in use, when the change under way is complete. */
  ghost predicate InUse(s: State, p: nat, n: nat) {
    p in s.home && s.home[p] < |s.arenas| && LiveIn(s.arenas[s.home[p]].target, p, n)
  }

  /** A byte of an allocation belongs to its arena, and lies in no header. */
  lemma InUseBytes(s: State, p: nat, n: nat, x: nat)
    requires Inv(s) && InUse(s, p, n) && p <= x < p + n
    ensures |s.arenas| == ARENAS && s.home[p] < ARENAS && Owns(s.owner, s.home[p], x) && x < s.brk
    ensures forall i :: 0 <= i < |s.arenas[s.home[p]].target| ==> !InHeader(s.arenas[s.home[p]].target[i], x)
  {
    hide *;
    var k, i := InUseBlock(s, p, n);
    ArenaAt(s, k);
    TargetParts(s.mem, s.brk, s.owner, k, s.arenas[k]);
    PayloadCovered(s.arenas[k].target, s.brk, i, x);
  }

  lemma PayloadCovered(bs: seq<Block>, brk: nat, i: nat, x: nat)
    requires Layout(bs, brk) && i < |bs| && bs[i].addr + HEADER <= x < End(bs[i])
    ensures Covers(bs, x) && x < brk && forall j :: 0 <= j < |bs| ==> !InHeader(bs[j], x)
  {
    BlockPlaced(bs, i, brk);
    assert InBlock(bs[i], x);
    forall j | 0 <= j < |bs| ensures !InHeader(bs[j], x) {
      if j < i { assert End(bs[j]) <= bs[i].addr; }
      if i < j { assert End(bs[i]) <= bs[j].addr; }
    }
  }

  /** In every state, allocations in use are 8-aligned, lie below the break, and do not overlap, in whatever
      arenas they are. */
  lemma AllocationsApart(s: State, p: nat, n: nat, q: nat, u: nat)
    requires Inv(s) && InUse(s, p, n) && InUse(s, q, u)
    ensures p % 8 == 0 && 0 < p && p + n <= s.brk
    ensures if p == q then n == u else p + n <= q || q + u <= p
  {
    hide *;
    var k, i := InUseBlock(s, p, n);
    var l, j := InUseBlock(s, q, u);
    if k == l {
      InUseOrdered(s, k, i, j);
    } else if p < q + u && q < p + n {
      var x := if p < q then q else p;
      InUseBytes(s, p, n, x);
      InUseBytes(s, q, u, x);
      OwnedOnce(s.owner, k, l, x);
    }
  }

  lemma OwnedOnce(owner: map<int, nat>, k: nat, l: nat, x: int)
    requires Owns(owner, k, x) && Owns(owner, l, x)
    ensures k == l
  {
  }

  lemma InUseBlock(s: State, p: nat, n: nat) returns (k: nat, i: nat)
    requires Inv(s) && InUse(s, p, n)
    ensures p in s.home && k == s.home[p] < ARENAS && |s.arenas| == ARENAS && i < |s.arenas[k].target|
    ensures var b := s.arenas[k].target[i]; b.addr + HEADER == p && b.size == n && End(b) == p + n
    ensures p % 8 == 0 && 0 < p && p + n <= s.brk && 8 <= n
  {
    hide *;
    InvSizes(s);
    InUseIs(s, p, n);
    k := s.home[p];
    ArenaAt(s, k);
    TargetParts(s.mem, s.brk, s.owner, k, s.arenas[k]);
    i := LiveBlock(s.arenas[k].target, s.brk, p, n);
  }

  lemma InUseIs(s: State, p: nat, n: nat)
    ensures InUse(s, p, n) <==> p in s.home && s.home[p] < |s.arenas| && LiveIn(s.arenas[s.home[p]].target, p, n)
  {
  }

  lemma LiveBlock(bs: seq<Block>, brk: nat, p: nat, n: nat) returns (i: nat)
    requires Layout(bs, brk) && LiveIn(bs, p, n)
    ensures i < |bs| && bs[i].addr + HEADER == p && bs[i].size == n && !bs[i].freed && End(bs[i]) == p + n
    ensures p % 8 == 0 && 0 < p && p + n <= brk && 8 <= n
  {
    i :| 0 <= i < |bs| && bs[i].addr + HEADER == p && bs[i].size == n && !bs[i].freed;
    BlockPlaced(bs, i, brk);
  }

  lemma InUseOrdered(s: State, k: nat, i: nat, j: nat)
    requires Inv(s) && k < ARENAS && |s.arenas| == ARENAS && i < |s.arenas[k].target| && j < |s.arenas[k].target|
    ensures var b, c := s.arenas[k].target[i], s.arenas[k].target[j];
      if i == j then b == c
      else b.addr + HEADER != c.addr + HEADER && (b.addr + HEADER + b.size <= c.addr + HEADER || c.addr + HEADER + c.size <= b.addr + HEADER)
  {
    hide *;
    ArenaAt(s, k);
    TargetParts(s.mem, s.brk, s.owner, k, s.arenas[k]);
    if i != j { PayloadsOrdered(s.arenas[k].target, s.brk, i, j); }
  }

  lemma PayloadsOrdered(bs: seq<Block>, brk: nat, i: nat, j: nat)
    requires Layout(bs, brk) && i < |bs| && j < |bs| && i != j
    ensures bs[i].addr != bs[j].addr && (End(bs[i]) <= bs[j].addr || End(bs[j]) <= bs[i].addr)
    ensures var b, c := bs[i], bs[j]; b.addr + HEADER + b.size <= c.addr + HEADER || c.addr + HEADER + c.size <= b.addr + HEADER
  {
    BlockPlaced(bs, i, brk);
    BlockPlaced(bs, j, brk);
    if i < j { assert End(bs[i]) <= bs[j].addr; }
  }

  // ---- Who writes what ----

  /** The byte at `x` belongs to the allocation at `p`. */
  ghost predicate ByteOf(s: State, p: nat, x: nat) {
    exists n: nat :: InUse(s, p, n) && p <= x < p + n
  }

  /** The step is one of a thread's stores to the headers of its list. */
  ghost predicate WritesHeader(s: State, l: Local, x: nat) {
    && l.Work? && l.pc.Storing? && l.k < |s.arenas|
    && exists i :: 0 <= i < |s.arenas[l.k].target| && InHeader(s.arenas[l.k].target[i], x)
  }

  /** The step copies a byte into the new block of a move. */
  ghost predicate WritesCopy(s: State, l: Local, x: nat) {
    && l.Work? && l.pc.CopyByte? && l.pc.i < l.copy && x == l.pc.q + HEADER + l.pc.i && l.pc.q + HEADER in l.mine
    && ByteOf(s, l.pc.q + HEADER, x)
  }

  ghost predicate WritesPayload(s: State, c: Choice, x: nat) {
    c.Poke? && c.x == x && c.p in s.live && ByteOf(s, c.p, x)
  }

  /** A thread writes only bytes that its arena owns, while it holds its arena: headers of its list, or the
      copy of a move.  A client writes only to a live allocation. */
  lemma HolderWrites(s: State, c: Choice, x: nat)
    requires Inv(s) && x < |s.mem|
    ensures |s.arenas| == |s.locks| == ARENAS && |Step(s, c).mem| == |s.mem|
    ensures Step(s, c).mem[x] != s.mem[x] ==>
      && c.t < |s.threads|
      && (WritesPayload(s, c, x)
          || (var l := s.threads[c.t];
              && c.Go? && l.Work? && l.k < ARENAS && s.locks[l.k] == Some(c.t) && Owns(s.owner, l.k, x)
              && (WritesHeader(s, l, x) || WritesCopy(s, l, x))))
  {
    hide *;
    InvSizes(s);
    StepThreads(s, c);
    if Step(s, c).mem[x] != s.mem[x] {
      WritingSteps(s, c, x);
      if c.Poke? {
        PokeWrites(s, c, x);
      } else {
        var l := s.threads[c.t];
        WorkFacts(s, c.t);
        if l.pc.Storing? { StoreWrites(s, c.t, x); } else { CopyWrites(s, c.t, x); }
      }
    }
  }

  /** The only steps that write: a client's, a store, and the copying of a byte. */
  lemma WritingSteps(s: State, c: Choice, x: nat)
    requires |s.arenas| == |s.locks| == ARENAS && |Step(s, c).mem| == |s.mem| && x < |s.mem| && Step(s, c).mem[x] != s.mem[x]
    ensures c.t < |s.threads|
    ensures c.Poke? || (c.Go? && s.threads[c.t].Work? && s.threads[c.t].k < ARENAS)
    ensures c.Poke? ==> c.x == x && MayPoke(s, c.p, x)
    ensures c.Go? ==> var l := s.threads[c.t];
      if l.pc.Storing? then
        var a := s.arenas[l.k];
        a.todo != [] && Done(Cells(s.mem, a.head, a.tail), a.todo[0]).mem[x] != s.mem[x]
      else l.pc.CopyByte? && l.pc.i < l.copy && x == l.pc.q + HEADER + l.pc.i
  {
    hide Perform, ActOf, Approach, MayStart, MayPoke, Begun, Held0, Done;
    if c.Go? {
      var l := s.threads[c.t];
      if !l.Work? {
        ApproachThreads(s, c.t);
      } else if l.k < ARENAS {
        PerformWrites(s, c.t, l, ActOf(s, s.arenas[l.k], l, c.sys));
        ActWrites(s, s.arenas[l.k], l, c.sys);
      }
    }
  }

  lemma PerformWrites(s: State, t: nat, l: Local, act: Act)
    requires t < |s.threads| && l.Work? && l.k < |s.arenas| && l.k < |s.locks|
    ensures var m, a := Perform(s, t, l, act).mem, s.arenas[l.k];
      && (!act.MakeStore? && !act.Copy? ==> m == s.mem)
      && (act.MakeStore? ==> m == if a.todo == [] then s.mem else Done(Cells(s.mem, a.head, a.tail), a.todo[0]).mem)
      && (act.Copy? ==> |m| == |s.mem| && forall x :: 0 <= x < |m| && x != act.dst ==> m[x] == s.mem[x])
  {
    hide Done, AfterStore, Advanced, Rehomed, Grown, AppendPlan, AfterPlan;
  }

  lemma ActWrites(s: State, a: Arena, l: Local, sys: Kernel)
    requires l.Work?
    ensures var act := ActOf(s, a, l, sys);
      && (act.MakeStore? ==> l.pc.Storing?) && (l.pc.Storing? ==> act.MakeStore?)
      && (act.Copy? ==> l.pc.CopyByte? && l.pc.i < l.copy && act.dst == l.pc.q + HEADER + l.pc.i)
  {
    hide FreedPlan, SplitPlan, JoinPlan, Refuses, Size, Target, Header0, Load;
  }

  lemma PokeWrites(s: State, c: Choice, x: nat)
    requires Inv(s) && c.Poke? && c.x == x && MayPoke(s, c.p, x)
    ensures WritesPayload(s, c, x)
  {
    PokedLive(s, c.p, x);
    LiveAtHome(s, c.p);
    hide Inv, LiveIn;
    var a := s.arenas[s.home[c.p]];
    var n: nat :| LiveIn(a.blocks, c.p, n) && c.p <= x < c.p + n;
    assert LiveIn(a.target, c.p, n);
    assert InUse(s, c.p, n) && ByteOf(s, c.p, x);
  }

  lemma StoreWrites(s: State, t: nat, x: nat)
    requires Inv(s) && t < |s.threads| && s.threads[t].Work? && s.threads[t].pc.Storing? && |s.arenas| == ARENAS && s.threads[t].k < ARENAS
    requires var a := s.arenas[s.threads[t].k];
      a.todo != [] && x < |s.mem| && Done(Cells(s.mem, a.head, a.tail), a.todo[0]).mem[x] != s.mem[x]
    ensures Owns(s.owner, s.threads[t].k, x) && WritesHeader(s, s.threads[t], x)
  {
    var k := s.threads[t].k;
    ArenaAt(s, k);
    hide Inv, ArenaInv, Done;
    StoreConfined(s.mem, s.brk, s.owner, k, s.arenas[k], x);
  }

  lemma CopyWrites(s: State, t: nat, x: nat)
    requires Inv(s) && t < |s.threads| && s.threads[t].Work? && |s.arenas| == |s.locks| == ARENAS && s.threads[t].k < ARENAS
    requires var l := s.threads[t]; l.pc.CopyByte? && l.pc.i < l.copy && x == l.pc.q + HEADER + l.pc.i
    ensures Owns(s.owner, s.threads[t].k, x) && WritesCopy(s, s.threads[t], x)
  {
    hide *;
    Place(s.threads[t]);
    OutsideCopy(s.threads[t]);
    RestIntro(s, t);
    RestFacts(s, t);
    GotFacts(s, t);
    CopyInside(s, t);
    var l := s.threads[t];
    PayloadOwned(s.mem, s.brk, s.owner, l.k, s.arenas[l.k], l.pc.q + HEADER, x);
    CopyTarget(s, l, x);
  }

  lemma OutsideCopy(l: Local)
    requires l.Work? && l.pc.CopyByte?
    ensures Outside(l.pc)
  {
  }

  lemma CopyTarget(s: State, l: Local, x: nat)
    requires l.Work? && l.k < |s.arenas| && l.pc.CopyByte? && l.pc.i < l.copy && x == l.pc.q + HEADER + l.pc.i
    requires l.pc.q + HEADER in l.mine && l.pc.q + HEADER in s.home && s.home[l.pc.q + HEADER] == l.k
    requires InPayloads(s.arenas[l.k], l.pc.q + HEADER, x)
    ensures WritesCopy(s, l, x)
  {
    var n: nat :| LiveIn(s.arenas[l.k].target, l.pc.q + HEADER, n) && l.pc.q + HEADER <= x < l.pc.q + HEADER + n;
    assert InUse(s, l.pc.q + HEADER, n) && ByteOf(s, l.pc.q + HEADER, x);
  }

  // ---- Allocations keep their bytes ----

  /** A byte of an allocation in use changes only when its client writes it, or when the call that has the
      allocation in its hands copies into it. */
  lemma InUseKept(s: State, c: Choice, p: nat, n: nat, x: nat)
    requires Inv(s) && InUse(s, p, n) && p <= x < p + n
    ensures |s.arenas| == |s.locks| == ARENAS && x < |Step(s, c).mem| == |s.mem|
    ensures Step(s, c).mem[x] != s.mem[x] ==>
      && c.t < |s.threads|
      && ((c.Poke? && c.p == p && c.x == x && p in s.live)
          || (var l := s.threads[c.t]; c.Go? && WritesCopy(s, l, x) && p == l.pc.q + HEADER && p in l.mine))
  {
    hide *;
    InvSizes(s);
    StepThreads(s, c);
    var k, i := InUseBlock(s, p, n);
    OwnerBelow(s);
    InUseBytes(s, p, n, x);
    HolderWrites(s, c, x);
    if Step(s, c).mem[x] != s.mem[x] {
      if WritesPayload(s, c, x) {
        PayloadIs(s, c, p, n, x);
      } else {
        var l := s.threads[c.t];
        OwnedOnce(s.owner, l.k, s.home[p], x);
        if WritesHeader(s, l, x) { NotHeader(s, l, x); }
        CopyIsOwn(s, l, p, n, x);
      }
    }
  }

  lemma PayloadIs(s: State, c: Choice, p: nat, n: nat, x: nat)
    requires Inv(s) && InUse(s, p, n) && p <= x < p + n && WritesPayload(s, c, x)
    ensures c.Poke? && c.p == p && c.x == x && p in s.live
  {
    hide Inv, InUse;
    var u: nat :| InUse(s, c.p, u) && c.p <= x < c.p + u;
    AllocationsApart(s, p, n, c.p, u);
  }

  lemma NotHeader(s: State, l: Local, x: nat)
    requires WritesHeader(s, l, x)
    ensures l.Work? && l.k < |s.arenas| && exists i :: 0 <= i < |s.arenas[l.k].target| && InHeader(s.arenas[l.k].target[i], x)
  {
  }

  lemma CopyIsOwn(s: State, l: Local, p: nat, n: nat, x: nat)
    requires Inv(s) && InUse(s, p, n) && p <= x < p + n && WritesCopy(s, l, x)
    ensures l.Work? && l.pc.CopyByte? && p == l.pc.q + HEADER && p in l.mine
  {
    hide Inv, InUse;
    var u: nat :| InUse(s, l.pc.q + HEADER, u) && l.pc.q + HEADER <= x < l.pc.q + HEADER + u;
    AllocationsApart(s, p, n, l.pc.q + HEADER, u);
  }

  // ---- Over whole runs ----

  /** A step leaves every list as it was, or its goal. */
  lemma ListsStep(s: State, c: Choice, j: nat)
    requires |s.arenas| == |s.locks| == ARENAS && j < ARENAS
    ensures |Step(s, c).arenas| == |s.arenas|
    ensures var a, b := s.arenas[j], Step(s, c).arenas[j]; b.blocks == a.blocks || b.target == a.target
  {
    hide Perform, ActOf, Approach, MayStart, MayPoke, Begun, Held0;
    if c.t < |s.threads| && c.Go? {
      var l := s.threads[c.t];
      if !l.Work? {
        ApproachShares(s, c.t);
      } else if l.k < ARENAS {
        ActBlocks(s, s.arenas[l.k], l, c.sys);
        PerformLists(s, c.t, l, ActOf(s, s.arenas[l.k], l, c.sys), j);
      }
    }
  }

  lemma ApproachShares(s: State, t: nat)
    requires |s.arenas| == |s.locks| == ARENAS && t < |s.threads|
    ensures var s' := Approach(s, t);
      s' == s.(threads := s'.threads, locks := s'.locks) && |s'.threads| == |s.threads| && (!s.threads[t].Work? ==> Mine(s'.threads[t]) == Mine(s.threads[t]))
  {
    hide Load;
  }

  lemma ActBlocks(s: State, a: Arena, l: Local, sys: Kernel)
    requires l.Work?
    ensures var act := ActOf(s, a, l, sys); act.Plan? ==> act.a.blocks == a.blocks
  {
    hide Refuses, Size, Target, Header0, Load, IndexOf, SplitWrites, JoinWrites, SplitAt, JoinAt, SetFreed, NextIsFree;
  }

  lemma PerformLists(s: State, t: nat, l: Local, act: Act, j: nat)
    requires t < |s.threads| && l.Work? && l.k < |s.arenas| && l.k < |s.locks| && j < |s.arenas|
    requires act.Plan? ==> act.a.blocks == s.arenas[l.k].blocks
    ensures var s' := Perform(s, t, l, act);
      |s'.arenas| == |s.arenas| && (s'.arenas[j].blocks == s.arenas[j].blocks || s'.arenas[j].target == s.arenas[j].target)
  {
    hide Done, AfterStore, Rehomed, Grown, AfterPlan;
  }

  /** The client gives the allocation at `p` to a call that frees or resizes it. */
  predicate GivesUp(c: Choice, p: nat) {
    c.Start? && p in Held0(c.goal)
  }

  /** A live allocation stays live and keeps its size, unless its client gives it up. */
  lemma LiveStep(s: State, c: Choice, p: nat, n: nat)
    requires Inv(s) && p in s.live && InUse(s, p, n) && !GivesUp(c, p)
    ensures |s.arenas| == |s.locks| == ARENAS && p in Step(s, c).live && InUse(Step(s, c), p, n)
  {
    hide *;
    StepKeepsInv(s, c);
    var s' := Step(s, c);
    StaysLive(s, c, p);
    SameHome(s, c, p);
    LiveAtHome(s, p);
    LiveAtHome(s', p);
    InUseIs(s, p, n);
    InUseIs(s', p, n);
    ListsStep(s, c, s.home[p]);
    SameSize(s.arenas[s.home[p]], s'.arenas[s.home[p]], p, n);
  }

  lemma SameSize(a: Arena, b: Arena, p: nat, n: nat)
    requires SameLive(a, p) && SameLive(b, p) && (b.blocks == a.blocks || b.target == a.target) && LiveIn(a.target, p, n)
    ensures LiveIn(b.target, p, n)
  {
    hide LiveIn;
  }

  lemma StaysLive(s: State, c: Choice, p: nat)
    requires |s.arenas| == |s.locks| == ARENAS && p in s.live && !GivesUp(c, p)
    ensures p in Step(s, c).live
  {
    hide ActOf, MayStart, MayPoke, Begun, Held0, Done, AfterStore, Advanced, Rehomed, Grown, AppendPlan, AfterPlan, Load;
  }

  /** A step changes the home of no allocation but those in the hands of its thread. */
  lemma SameHome(s: State, c: Choice, p: nat)
    requires Inv(s) && p in s.live && |s.arenas| == |s.locks| == ARENAS && Inv(Step(s, c)) && p in Step(s, c).live
    ensures p in s.home && p in Step(s, c).home && Step(s, c).home[p] == s.home[p]
  {
    hide *;
    LiveAtHome(s, p);
    LiveAtHome(Step(s, c), p);
    StepThreads(s, c);
    if c.t < |s.threads| {
      OnlyHolderLive(s, c.t);
      OnlyHolderLive(Step(s, c), c.t);
    }
    HomeStep(s, c, p);
  }

  lemma HomeStep(s: State, c: Choice, p: nat)
    requires |s.arenas| == |s.locks| == ARENAS && |Step(s, c).threads| == |s.threads| && p in s.home
    requires c.t < |s.threads| && c.Go? ==> p !in Mine(s.threads[c.t]) && p !in Mine(Step(s, c).threads[c.t])
    ensures p in Step(s, c).home && Step(s, c).home[p] == s.home[p]
  {
    hide Perform, ActOf, Approach, MayStart, MayPoke, Begun, Held0, Mine;
    if c.t < |s.threads| && c.Go? {
      var l := s.threads[c.t];
      if !l.Work? {
        ApproachShares(s, c.t);
      } else if l.k < ARENAS {
        PerformHome(s, c.t, l, ActOf(s, s.arenas[l.k], l, c.sys), p);
      }
    }
  }

  lemma PerformHome(s: State, t: nat, l: Local, act: Act, p: nat)
    requires t < |s.threads| && l.Work? && s.threads[t] == l && l.k < |s.arenas| && l.k < |s.locks| && p in s.home && p !in Mine(l)
    requires |Perform(s, t, l, act).threads| == |s.threads| && p !in Mine(Perform(s, t, l, act).threads[t])
    ensures var s' := Perform(s, t, l, act); p in s'.home && s'.home[p] == s.home[p]
  {
    hide Done, Advanced, Grown, AppendPlan, Pinned;
  }

  /** A live allocation that its client keeps stays live, where it is and with its size, whatever other calls
      do meanwhile. */
  lemma {:induction false} AllocationKept(s: State, cs: seq<Choice>, p: nat, n: nat, i: nat, j: nat)
    requires Inv(s) && i <= j <= |cs| && p in StateAt(s, cs, i).live && InUse(StateAt(s, cs, i), p, n)
    requires forall k :: i <= k < j ==> !GivesUp(cs[k], p)
    ensures p in StateAt(s, cs, j).live && InUse(StateAt(s, cs, j), p, n)
    decreases j
  {
    hide *;
    if i < j {
      AllocationKept(s, cs, p, n, i, j - 1);
      NextState(s, cs, j);
      LiveStep(StateAt(s, cs, j - 1), cs[j - 1], p, n);
    }
  }

  /** A byte of such an allocation keeps its value until a client writes it. */
  lemma {:induction false} ByteKept(s: State, cs: seq<Choice>, p: nat, n: nat, x: nat, i: nat, j: nat)
    requires Inv(s) && i <= j <= |cs| && p in StateAt(s, cs, i).live && InUse(StateAt(s, cs, i), p, n) && p <= x < p + n
    requires forall k :: i <= k < j ==> !GivesUp(cs[k], p) && !(cs[k].Poke? && cs[k].x == x)
    ensures x < |StateAt(s, cs, i).mem| == |StateAt(s, cs, j).mem| && StateAt(s, cs, j).mem[x] == StateAt(s, cs, i).mem[x]
    decreases j
  {
    hide *;
    if i == j {
      var k, h := InUseBlock(StateAt(s, cs, i), p, n);
      OwnerBelow(StateAt(s, cs, i));
    } else {
      ByteKept(s, cs, p, n, x, i, j - 1);
      AllocationKept(s, cs, p, n, i, j - 1);
      NextState(s, cs, j);
      var r, c := StateAt(s, cs, j - 1), cs[j - 1];
      InUseKept(r, c, p, n, x);
      NotInHands(r, c.t, p);
      CopyWorks(r, c.t, x);
    }
  }

  lemma CopyWorks(s: State, t: nat, x: nat)
    ensures t < |s.threads| && WritesCopy(s, s.threads[t], x) ==> s.threads[t].Work?
  {
  }

  lemma NextState(s: State, cs: seq<Choice>, k: nat)
    requires Inv(s) && 0 < k <= |cs|
    ensures var r := StateAt(s, cs, k - 1); |r.arenas| == |r.locks| == ARENAS && StateAt(s, cs, k) == Step(r, cs[k - 1])
  {
    hide Inv, Step;
    InvSizes(StateAt(s, cs, k - 1));
  }

  lemma NotInHands(s: State, t: nat, p: nat)
    requires Inv(s) && p in s.live
    ensures t < |s.threads| && s.threads[t].Work? ==> p !in s.threads[t].mine
  {
    if t < |s.threads| {
      hide *;
      OnlyHolderLive(s, t);
      MineOf(s.threads[t]);
    }
  }

  // ---- Regions ----

  /** A step gives an arena new bytes only when its thread writes the break, with the lock of `sbrk` in its
      hands: bytes above the break, that nobody had. */
  lemma RegionFresh(s: State, c: Choice)
    requires Inv(s)
    ensures |s.arenas| == |s.locks| == ARENAS && s.brk <= Step(s, c).brk
    ensures forall x :: x in s.owner ==> x in Step(s, c).owner && Step(s, c).owner[x] == s.owner[x]
    ensures Step(s, c).owner != s.owner || Step(s, c).brk != s.brk ==>
      && c.Go? && c.t < |s.threads| && s.threads[c.t].Work? && s.threads[c.t].pc.WriteBrk? && s.sbrkLock == Some(c.t)
      && forall x :: x in Step(s, c).owner && x !in s.owner ==> s.brk <= x < Step(s, c).brk && Step(s, c).owner[x] == s.threads[c.t].k
  {
    hide *;
    InvSizes(s);
    OwnerBelow(s);
    if c.t < |s.threads| && c.Go? && s.threads[c.t].Work? && s.threads[c.t].pc.WriteBrk? {
      var l := s.threads[c.t];
      WorkFacts(s, c.t);
      RegionFacts(s, s.arenas[l.k], l);
      SbrkHeld(s, c.t);
      ExtendStep(s, c, l.pc.base, Size(l.goal) + l.pc.reserve);
      GrownAbove(s.owner, s.brk, l.pc.base, HEADER + (Size(l.goal) + l.pc.reserve), l.k);
    } else {
      SameRegions(s, c);
    }
  }

  lemma RegionFacts(s: State, a: Arena, l: Local)
    requires l.Work? && l.pc.WriteBrk? && WorkOk(s, a, l)
    ensures s.brk <= l.pc.base
  {
    hide Held, InList, StartsBlock;
  }

  lemma SbrkHeld(s: State, t: nat)
    requires Inv(s) && t < |s.threads| && s.threads[t].Work? && s.threads[t].pc.WriteBrk?
    ensures s.sbrkLock == Some(t)
  {
    InvParts(s);
    hide Inv, ArenasOk, HomesOk, LiveOk, HandsApart, Sizes, LocksOk;
  }

  lemma ExtendStep(s: State, c: Choice, base: nat, n: nat)
    requires |s.arenas| == |s.locks| == ARENAS && c.Go? && c.t < |s.threads| && s.threads[c.t].Work? && s.threads[c.t].k < ARENAS
    requires var l := s.threads[c.t]; l.pc.WriteBrk? && base == l.pc.base && n == Size(l.goal) + l.pc.reserve
    ensures Step(s, c).brk == base + (HEADER + n) && Step(s, c).owner == Grown(s.owner, base, HEADER + n, s.threads[c.t].k)
  {
    hide Size, Grown, AppendPlan;
  }

  lemma GrownAbove(owner: map<int, nat>, brk: nat, base: nat, n: nat, k: nat)
    requires brk <= base && forall x :: x in owner ==> x < brk
    ensures var o := Grown(owner, base, n, k);
      && (forall x :: x in owner ==> x in o && o[x] == owner[x])
      && (forall x :: x in o && x !in owner ==> base <= x < base + n && o[x] == k)
  {
  }

  lemma SameRegions(s: State, c: Choice)
    requires |s.arenas| == |s.locks| == ARENAS
    requires !(c.t < |s.threads| && c.Go? && s.threads[c.t].Work? && s.threads[c.t].pc.WriteBrk?)
    ensures Step(s, c).owner == s.owner && Step(s, c).brk == s.brk
  {
    hide Perform, ActOf, Approach, MayStart, MayPoke, Begun, Held0;
    if c.t < |s.threads| && c.Go? {
      var l := s.threads[c.t];
      if !l.Work? {
        ApproachShares(s, c.t);
      } else if l.k < ARENAS {
        NotExtend(s, s.arenas[l.k], l, c.sys);
        PerformRegions(s, c.t, l, ActOf(s, s.arenas[l.k], l, c.sys));
      }
    }
  }

  lemma PerformRegions(s: State, t: nat, l: Local, act: Act)
    requires t < |s.threads| && l.Work? && l.k < |s.arenas| && l.k < |s.locks| && !act.Extend?
    ensures var s' := Perform(s, t, l, act); s'.owner == s.owner && s'.brk == s.brk
  {
    hide Done, AfterStore, Advanced, Rehomed, Grown, AppendPlan, AfterPlan;
  }

  lemma NotExtend(s: State, a: Arena, l: Local, sys: Kernel)
    requires l.Work? && !l.pc.WriteBrk?
    ensures !ActOf(s, a, l, sys).Extend?
  {
    hide FreedPlan, SplitPlan, JoinPlan, Refuses, Size, Target, Header0, Load;
  }

  /** What an arena has obtained stays its own for ever. */
  lemma {:induction false} RegionsStay(s: State, cs: seq<Choice>, i: nat, j: nat)
    requires Inv(s) && i <= j <= |cs|
    ensures forall x :: x in StateAt(s, cs, i).owner ==> x in StateAt(s, cs, j).owner && StateAt(s, cs, j).owner[x] == StateAt(s, cs, i).owner[x]
    decreases j
  {
    hide *;
    if i < j {
      RegionsStay(s, cs, i, j - 1);
      NextState(s, cs, j);
      RegionFresh(StateAt(s, cs, j - 1), cs[j - 1]);
    }
  }

  /** The lock is what keeps regions apart: two threads that had both read the break before either wrote it
      would give the same bytes to two arenas. */
  lemma WithoutLock(s: State, t: nat, u: nat, base: nat)
    requires |s.arenas| == |s.locks| == ARENAS && t < |s.threads| && u < |s.threads| && t != u
    requires s.threads[t].Work? && s.threads[u].Work? && s.threads[t].k < ARENAS && s.threads[u].k < ARENAS && s.threads[t].k != s.threads[u].k
    requires s.threads[t].pc == WriteBrk(base, 0) && s.threads[u].pc == WriteBrk(base, 0)
    ensures var s1 := Step(s, Go(t, Deny));
      && |s1.arenas| == |s1.locks| == ARENAS
      && var s2 := Step(s1, Go(u, Deny));
      && |s2.arenas| == ARENAS && base in s2.owner && s2.owner[base] == s.threads[u].k
      && Covers(s2.arenas[s.threads[t].k].target, base) && Covers(s2.arenas[s.threads[u].k].target, base)
      && !Inv(s)
  {
    hide Inv, Size, Grown;
    var s1 := Step(s, Go(t, Deny));
    ExtendStep(s, Go(t, Deny), base, Size(s.threads[t].goal));
    var s2 := Step(s1, Go(u, Deny));
    ExtendStep(s1, Go(u, Deny), base, Size(s.threads[u].goal));
    LastCovers(s.arenas[s.threads[t].k].blocks, Block(base, Size(s.threads[t].goal), false));
    LastCovers(s.arenas[s.threads[u].k].blocks, Block(base, Size(s.threads[u].goal), false));
    if Inv(s) {
      SbrkHeld(s, t);
      SbrkHeld(s, u);
    }
  }

  lemma LastCovers(bs: seq<Block>, b: Block)
    ensures Covers(bs + [b], b.addr)
  {
    assert InBlock((bs + [b])[|bs|], b.addr);
  }
}
