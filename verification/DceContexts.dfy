/**
Which blocks can be swept whatever function they stand in: exactly those that do not start with a load of
the slot and end with a store to it.
*/
module DceContexts {
  import opened Options
  import opened Ir
  import opened DceRewrites
  import opened DceSimulation
  import opened DceBlocks
  import opened DcePreserve
  import opened DceMeasure
  import opened DceStores
  import opened DceSlots
  import opened DceLoops

  /** The function with the dead stores of one block to one slot removed. */
  function SweptAt(f: Function, b: Label, x: Reg): Function
    requires b in f.blocks
  {
    WithBody(f, b, Live(f.blocks[b].body, x))
  }

  ghost predicate SameAfterSweep(f: Function, b: Label, x: Reg)
    requires b in f.blocks
  {
    Closed(f) && Closed(SweptAt(f, b, x)) && Equivalent(f, SweptAt(f, b, x))
  }

  /** In every function, in every block with accesses of this shape to a slot that the pass selects, and
      whatever the block stores, sweeping the block preserves behaviour. */
  ghost predicate SafeInAnyFunction(acc: seq<Access<int>>) {
    forall f, b, x ::
      WellFormed(f) && Eligible(f, b, x) && SameShape(acc, AccessesOf(f.blocks[b].body, x)) ==> SameAfterSweep(f, b, x)
  }

  predicate LoadsThenStores(acc: seq<Access<int>>) {
    acc != [] && acc[0].Ld? && acc[|acc| - 1].St?
  }

  // ---- Sweeping store by store ----

  lemma {:induction false} AccessesSnoc(body: seq<Instr>, i: Instr, x: Reg)
    ensures AccessesOf(body + [i], x) == AccessesOf(body, x) + (if !Direct(i, x) then [] else if i.Load? then [Ld] else [St(i.val)])
  {
    if body == [] {
      assert body + [i] == [i] && [i][1..] == [];
    } else {
      assert (body + [i])[1..] == body[1..] + [i];
      AccessesSnoc(body[1..], i, x);
    }
  }

  lemma {:induction false} StoreLastIsLast(body: seq<Instr>, x: Reg)
    ensures StoreLast(body, x) <==> AccessesOf(body, x) != [] && AccessesOf(body, x)[|AccessesOf(body, x)| - 1].St?
  {
    if body != [] {
      var n := |body| - 1;
      assert body == body[..n] + [body[n]];
      AccessesSnoc(body[..n], body[n], x);
      if !Direct(body[n], x) { StoreLastIsLast(body[..n], x); }
    }
  }

  lemma {:induction false} LoadNextKept(body: seq<Instr>, k: nat, x: Reg)
    requires k < |body| && body[k].Store? && Direct(body[k], x) && !LoadNext(body[k + 1..], x)
    ensures LoadNext(Without(body, k), x) == LoadNext(body, x)
  {
    if k == 0 {
      assert Without(body, 0) == body[1..];
    } else {
      assert Without(body, k)[0] == body[0] && Without(body, k)[1..] == Without(body[1..], k - 1);
      assert body[1..][k..] == body[k + 1..];
      LoadNextKept(body[1..], k - 1, x);
    }
  }

  lemma {:induction false} StoreLastKept(body: seq<Instr>, k: nat, x: Reg)
    requires k < |body| && body[k].Store? && Direct(body[k], x) && StoreLast(Without(body, k), x)
    ensures StoreLast(body, x)
    decreases |body|
  {
    var n := |body| - 1;
    if k < n {
      assert Without(body, k)[n - 1] == body[n] && Without(body, k)[..n - 1] == Without(body[..n], k);
      if !Direct(body[n], x) { StoreLastKept(body[..n], k, x); }
    }
  }

  /** A dead store changes nothing about what the sweep keeps. */
  lemma {:induction false} LiveKept(body: seq<Instr>, k: nat, x: Reg)
    requires k < |body| && body[k].Store? && Direct(body[k], x) && !LoadNext(body[k + 1..], x)
    ensures Live(Without(body, k), x) == Live(body, x)
  {
    if k == 0 {
      assert Without(body, 0) == body[1..];
    } else {
      assert Without(body, k)[0] == body[0] && Without(body, k)[1..] == Without(body[1..], k - 1);
      assert body[1..][k..] == body[k + 1..];
      LoadNextKept(body[1..], k - 1, x);
      LiveKept(body[1..], k - 1, x);
    }
  }

  lemma {:induction false} SomeDead(body: seq<Instr>, x: Reg) returns (k: nat)
    requires |Live(body, x)| < |body|
    ensures k < |body| && body[k].Store? && Direct(body[k], x) && !LoadNext(body[k + 1..], x)
  {
    if body[0].Store? && body[0].addr == Var(x) && !LoadNext(body[1..], x) {
      k := 0;
    } else {
      k := SomeDead(body[1..], x);
      assert body[1..][k + 1..] == body[k + 2..];
      k := k + 1;
    }
  }

  lemma EquivalentTransitive(f: Function, g: Function, h: Function)
    requires Closed(f) && Closed(g) && Closed(h) && Equivalent(f, g) && Equivalent(g, h)
    requires forall r :: DefinedIn(g, r) ==> DefinedIn(f, r)
    ensures Equivalent(f, h)
  {
    hide DefinedIn, Closed;
    forall w, s | Honest(w) && Starts(f, s) ensures Shows(f, h, w, s) && Shows(h, f, w, s) {
      assert Starts(g, s);
      ShowsTransitive(f, g, h, w, s);
      ShowsTransitive(h, g, f, w, s);
    }
  }

  lemma EquivalentReflexive(f: Function)
    requires Closed(f)
    ensures Equivalent(f, f)
  {
    forall w, s | Honest(w) && Starts(f, s) ensures Shows(f, f, w, s) {
      forall n: nat ensures SameView(Run(f, w, s, n), Run(f, w, s, n)) { }
      LockStep(f, f, w, s);
    }
  }

  lemma FormedClosed(f: Function)
    requires WellFormed(f)
    ensures Closed(f)
  {
  }

  predicate SweepAllowed(body: seq<Instr>, x: Reg) {
    !(LoadNext(body, x) && StoreLast(body, x))
  }

  /** One dead store less. */
  lemma OneLess(f: Function, b: Label, k: nat, x: Reg)
    requires WellFormed(f) && HasInstr(f, b, k) && DeadStore(f, b, k, x)
    requires SweepAllowed(f.blocks[b].body, x)
    ensures WellFormed(Erase(f, b, k)) && Eligible(Erase(f, b, k), b, x)
    ensures Closed(f) && Closed(Erase(f, b, k)) && Equivalent(f, Erase(f, b, k))
    ensures forall r :: DefinedIn(Erase(f, b, k), r) ==> DefinedIn(f, r)
  {
    EligibleIsPrivate(f, b, x);
    WellFormedIsPlain(f);
    StoreFollows(f.blocks[b].body, k, x);
    DirectCounts(InstrAt(f, b, k), x);
    assert SlotInstr(f.blocks[b].body[k], x);
    assert StaleOk(f, b, k, x, {});
    StoreEquivalent(f, b, k, x, {});
    EraseWellFormed(f, b, k);
    StillEligible(f, b, k, x);
  }

  /** What is left to sweep after one dead store has gone. */
  lemma StillAllowed(f: Function, b: Label, k: nat, x: Reg)
    requires HasInstr(f, b, k) && SweepAllowed(f.blocks[b].body, x)
    requires var i := InstrAt(f, b, k); i.Store? && Direct(i, x) && !LoadNext(f.blocks[b].body[k + 1..], x)
    ensures var g := Erase(f, b, k);
      && b in g.blocks && |g.blocks[b].body| < |f.blocks[b].body| && SweepAllowed(g.blocks[b].body, x) && SweptAt(g, b, x) == SweptAt(f, b, x)
  {
    var body := f.blocks[b].body;
    LoadNextKept(body, k, x);
    if StoreLast(Without(body, k), x) { StoreLastKept(body, k, x); }
    LiveKept(body, k, x);
    hide Live, LoadNext, StoreLast, Without;
  }

  lemma IsDead(f: Function, b: Label, k: nat, x: Reg)
    requires HasInstr(f, b, k) && Eligible(f, b, x)
    requires var i := InstrAt(f, b, k); i.Store? && Direct(i, x) && !LoadNext(f.blocks[b].body[k + 1..], x)
    ensures DeadStore(f, b, k, x)
  {
  }

  /** Sweeping a block that does not load first and store last preserves behaviour in any function. */
  lemma {:induction false} SweepEquivalent(f: Function, b: Label, x: Reg)
    requires WellFormed(f) && Eligible(f, b, x) && b in f.blocks && SweepAllowed(f.blocks[b].body, x)
    ensures SameAfterSweep(f, b, x)
    decreases |f.blocks[b].body|
  {
    var body := f.blocks[b].body;
    FormedClosed(f);
    LiveShorter(body, x);
    if |Live(body, x)| == |body| {
      assert SweptAt(f, b, x) == f;
      hide WellFormed, Eligible, Live;
      EquivalentReflexive(f);
    } else {
      var k := SomeDead(body, x);
      var g := Erase(f, b, k);
      assert HasInstr(f, b, k) && InstrAt(f, b, k) == body[k];
      hide WellFormed, Closed, Equivalent, Eligible, DeadStore, Live, LoadNext, StoreLast, DefinedIn, SweepAllowed, SweptAt, Erase;
      IsDead(f, b, k, x);
      OneLess(f, b, k, x);
      StillAllowed(f, b, k, x);
      SweepEquivalent(g, b, x);
      EquivalentTransitive(f, g, SweptAt(g, b, x));
    }
  }

  lemma ShapeAllows(acc: seq<Access<int>>, body: seq<Instr>, x: Reg)
    requires SameShape(acc, AccessesOf(body, x))
    ensures SweepAllowed(body, x) <==> !LoadsThenStores(acc)
  {
    LoadNextIsFirst(body, x);
    StoreLastIsLast(body, x);
  }

  // ---- A function in which the sweep is seen ----

  const FIRST: Reg := 4
  const SHOW: Instr := Call(3, 0, [Var(FIRST)])

  /** The accesses as instructions, the load at place `i` into register `from + i`. */
  function Coded(acc: seq<Access<int>>, from: nat): (body: seq<Instr>)
    ensures |body| == |acc|
    ensures forall i :: 0 <= i < |acc| ==> body[i] == if acc[i].Ld? then Load(from + i, Var(SLOT)) else Store(Imm(Int(acc[i].v)), Var(SLOT))
  {
    if acc == [] then []
    else [if acc[0].Ld? then Load(from, Var(SLOT)) else Store(Imm(Int(acc[0].v)), Var(SLOT))] + Coded(acc[1..], from + 1)
  }

  /** `slot = alloca; loop: (the accesses); call 0(what the first load read); br loop`. */
  function Showing(acc: seq<Access<int>>): Function {
    Function([0, 1], map[
      0 := Block([Alloca(SLOT)], Br(1)),
      1 := Block(Coded(acc, FIRST) + [SHOW], Br(1))])
  }

  lemma ShowingInstr(acc: seq<Access<int>>, b: Label, k: int)
    requires HasInstr(Showing(acc), b, k)
    ensures PlainInstr(InstrAt(Showing(acc), b, k))
    ensures forall r :: Defines(InstrAt(Showing(acc), b, k), r) ==>
      r == (if b == 0 then SLOT else if k == |acc| then 3 else FIRST + k)
    ensures b == 0 ==> k == 0
    ensures b == 1 ==> k <= |acc|
    ensures b == 0 || b == 1
  {
  }

  lemma ShowingFormed(acc: seq<Access<int>>)
    ensures WellFormed(Showing(acc))
  {
    var f := Showing(acc);
    hide Coded;
    forall b, k | HasInstr(f, b, k) ensures PlainInstr(InstrAt(f, b, k)) { ShowingInstr(acc, b, k); }
    forall b, k, b', k', r | HasInstr(f, b, k) && HasInstr(f, b', k') && Defines(InstrAt(f, b, k), r) && Defines(InstrAt(f, b', k'), r)
      ensures b == b' && k == k'
    {
      ShowingInstr(acc, b, k);
      ShowingInstr(acc, b', k');
    }
  }

  lemma CodedInstr(i: Instr, r: Reg, v: int)
    requires i == Load(r, Var(SLOT)) || i == Store(Imm(Int(v)), Var(SLOT))
    ensures InstrUses(i, SLOT) == 1 && Direct(i, SLOT) && PlainInstr(i)
  {
    assert [Var(SLOT)][1..] == [] && [Imm(Int(v))][1..] == [];
    assert OperandUses([Var(SLOT)], SLOT) == 1 && OperandUses([Imm(Int(v))], SLOT) == 0;
  }

  lemma {:induction false} CodedCounts(acc: seq<Access<int>>, from: nat)
    ensures var body := Coded(acc, from) + [SHOW];
      BodyUses(body, SLOT) == |acc| && Accesses(body, SLOT) == |acc| && SameShape(acc, AccessesOf(body, SLOT))
  {
    var body := Coded(acc, from) + [SHOW];
    if acc == [] {
      assert body == [SHOW] + [];
      CountCons(SHOW, [], SLOT);
      assert [SHOW][1..] == [];
      assert OperandUses([Var(FIRST)], SLOT) == 0;
    } else {
      CodedCounts(acc[1..], from + 1);
      assert body[1..] == Coded(acc[1..], from + 1) + [SHOW];
      CodedInstr(body[0], from, if acc[0].St? then acc[0].v else 0);
    }
  }

  lemma ShowingEligible(acc: seq<Access<int>>)
    ensures Eligible(Showing(acc), 1, SLOT)
  {
    var f := Showing(acc);
    CodedCounts(acc, FIRST);
    hide Coded;
    assert f.blocks[0].body[0] == Alloca(SLOT);
    assert f.blocks[0].body == [Alloca(SLOT)] + [];
    CountCons(Alloca(SLOT), [], SLOT);
    assert f.layout[1..] == [1] && [1][1..] == [];
    assert LayoutUses(f, [1], SLOT) == |acc|;
  }

  // ---- One round of the loop ----

  /** A body that reads the slot into the first register, then only works on the slot, then shows it. */
  ghost predicate RoundBody(body: seq<Instr>) {
    && |body| >= 2 && body[0] == Load(FIRST, Var(SLOT)) && body[|body| - 1] == SHOW && AfterAlloca(body, SLOT)
    && forall k :: 0 < k < |body| - 1 ==> !body[k].Call? && !Defines(body[k], FIRST)
  }

  lemma {:induction false} MiddleKeeps(w: World, body: seq<Instr>, s: State)
    requires forall k :: 0 <= k < |body| ==> !body[k].Call? && !Defines(body[k], FIRST)
    ensures var t := ExecAll(w, body, s); t.trace == s.trace && Get(t.regs, FIRST) == Get(s.regs, FIRST)
  {
    if body != [] { MiddleKeeps(w, body[1..], Exec(w, body[0], s)); }
  }

  lemma RoundParts(body: seq<Instr>)
    requires RoundBody(body)
    ensures var middle := body[1..|body| - 1];
      && body == [body[0]] + (middle + [SHOW]) && SlotInstr(body[0], SLOT) && body[0] != Alloca(SLOT)
      && forall k :: 0 <= k < |middle| ==> !middle[k].Call? && !Defines(middle[k], FIRST)
  {
    hide SlotInstr;
  }

  lemma ShowEvent(w: World, s: State)
    ensures Exec(w, SHOW, s).trace == s.trace + [Event(0, [Get(s.regs, FIRST)])]
  {
    assert EvalAll([Var(FIRST)], s.regs) == [Get(s.regs, FIRST)];
  }

  /** A round shows what the slot held when it began. */
  lemma RoundShows(w: World, body: seq<Instr>, s: State)
    requires Honest(w) && SlotHeld(s, SLOT) && RoundBody(body)
    ensures ExecAll(w, body, s).trace == s.trace + [Event(0, [Read(s.mem, Stack(SLOT))])]
  {
    RoundParts(body);
    var middle := body[1..|body| - 1];
    ExecSlot(w, body[0], s, SLOT);
    var t := Exec(w, body[0], s);
    assert t.trace == s.trace && Get(t.regs, FIRST) == Read(s.mem, Stack(SLOT)) && Direct(body[0], SLOT);
    hide Exec, Honest, SlotHeld, RoundBody;
    ExecCons(w, body[0], middle + [SHOW], s);
    ExecAllAppend(w, middle, [SHOW], t);
    MiddleKeeps(w, middle, t);
    var u := ExecAll(w, middle, t);
    assert [SHOW] == [SHOW] + [];
    ExecCons(w, SHOW, [], u);
    ShowEvent(w, u);
  }

  // ---- The original and the swept body ----

  function Lifted(acc: seq<Access<int>>): (r: seq<Access<Value>>)
    ensures |r| == |acc| && forall k :: 0 <= k < |acc| ==> r[k] == if acc[k].Ld? then Ld else St(Int(acc[k].v))
  {
    seq(|acc|, k requires 0 <= k < |acc| => if acc[k].Ld? then Ld else St(Int(acc[k].v)))
  }

  lemma {:induction false} CodedPerforms(w: World, acc: seq<Access<int>>, from: nat, s: State)
    ensures Performed(w, Coded(acc, from) + [SHOW], SLOT, s) == Lifted(acc)
  {
    var body := Coded(acc, from) + [SHOW];
    hide Exec;
    FirstPerformed(w, body, SLOT, s);
    if acc == [] {
      assert body[1..] == [];
      assert Performed(w, [], SLOT, Exec(w, SHOW, s)) == [];
    } else {
      assert body[1..] == Coded(acc[1..], from + 1) + [SHOW];
      CodedPerforms(w, acc[1..], from + 1, Exec(w, body[0], s));
      assert Lifted(acc) == [if acc[0].Ld? then Ld else St(Int(acc[0].v))] + Lifted(acc[1..]);
    }
  }

  lemma CodedRound(acc: seq<Access<int>>)
    requires acc != [] && acc[0].Ld?
    ensures RoundBody(Coded(acc, FIRST) + [SHOW])
  {
    var body := Coded(acc, FIRST) + [SHOW];
    assert OperandUses([Var(FIRST)], SLOT) == 0;
    assert SlotInstr(SHOW, SLOT);
    forall k | 0 <= k < |body| ensures SlotInstr(body[k], SLOT) && body[k] != Alloca(SLOT) {
      if k < |acc| { CodedInstr(body[k], FIRST + k, if acc[k].St? then acc[k].v else 0); }
    }
  }

  lemma {:induction false} LiveSnoc(body: seq<Instr>, i: Instr, x: Reg)
    requires !Direct(i, x)
    ensures Live(body + [i], x) == Live(body, x) + [i] && LoadNext(body + [i], x) == LoadNext(body, x)
  {
    if body == [] {
      assert body + [i] == [i] && [i][1..] == [];
    } else {
      assert (body + [i])[1..] == body[1..] + [i];
      LiveSnoc(body[1..], i, x);
    }
  }

  /** The swept body is a round too. */
  lemma LiveRound(body: seq<Instr>)
    requires RoundBody(body)
    ensures RoundBody(Live(body, SLOT))
  {
    var front := body[..|body| - 1];
    var live := Live(body, SLOT);
    assert body == front + [SHOW];
    assert !Direct(SHOW, SLOT);
    LiveSnoc(front, SHOW, SLOT);
    LiveAfterAlloca(body, SLOT);
    LiveFirst(front, SLOT);
    hide Live, AfterAlloca;
    var middle := Live(front[1..], SLOT);
    assert front[0] == body[0] && live == [body[0]] + middle + [SHOW];
    LiveIncluded(front[1..], SLOT);
    forall k | 0 < k < |live| - 1 ensures !live[k].Call? && !Defines(live[k], FIRST) {
      assert live[k] == middle[k - 1] && middle[k - 1] in front[1..];
      var j :| 0 <= j < |front[1..]| && front[1..][j] == live[k];
      assert body[j + 1] == live[k];
    }
  }

  lemma {:induction false} LeavesEither(acc: seq<Access<Value>>, c: Value, v: Value)
    requires forall k :: 0 <= k < |acc| && acc[k].St? ==> acc[k].v == v
    ensures Leaves(Sweep(acc), c) == c || Leaves(Sweep(acc), c) == v
  {
    if acc != [] {
      var s := Sweep(acc[1..]);
      assert ([acc[0]] + s)[1..] == s;
      LeavesEither(acc[1..], if acc[0].Ld? then c else acc[0].v, v);
      LeavesEither(acc[1..], c, v);
    }
  }

  lemma TellingRound(acc: seq<Access<int>>)
    requires LoadsThenStores(acc)
    ensures var body := Coded(Telling(acc), FIRST) + [SHOW]; RoundBody(body) && RoundBody(Live(body, SLOT))
  {
    var tell := Telling(acc);
    assert |tell| == |acc| && |acc| > 1 && tell[0].Ld?;
    CodedRound(tell);
    LiveRound(Coded(tell, FIRST) + [SHOW]);
  }

  /** What the body leaves in the slot. */
  lemma RoundLeaves(acc: seq<Access<int>>, s: State)
    requires LoadsThenStores(acc) && SlotHeld(s, SLOT)
    ensures var t := ExecAll(Quiet(), Coded(Telling(acc), FIRST) + [SHOW], s);
      SlotHeld(t, SLOT) && Read(t.mem, Stack(SLOT)) == Int(1)
  {
    assert acc != [];
    hide *;
    var tell := Telling(acc);
    var body := Coded(tell, FIRST) + [SHOW];
    QuietIsHonest();
    TellingRound(acc);
    RoundFits(body);
    CodedPerforms(Quiet(), tell, FIRST, s);
    LoadedIsReads(Quiet(), body, SLOT, s);
    TellingShape(acc);
    TellingLeaves(tell, Read(s.mem, Stack(SLOT)));
  }

  /** What the swept body leaves in the slot. */
  lemma SweptLeaves(acc: seq<Access<int>>, s: State)
    requires LoadsThenStores(acc) && SlotHeld(s, SLOT)
    ensures var u := ExecAll(Quiet(), Live(Coded(Telling(acc), FIRST) + [SHOW], SLOT), s);
      SlotHeld(u, SLOT) && (Read(u.mem, Stack(SLOT)) == Read(s.mem, Stack(SLOT)) || Read(u.mem, Stack(SLOT)) == Int(0))
  {
    assert acc != [];
    hide *;
    var tell := Telling(acc);
    var body := Coded(tell, FIRST) + [SHOW];
    QuietIsHonest();
    TellingRound(acc);
    RoundFits(body);
    RoundFits(Live(body, SLOT));
    HeldTracked(s, SLOT);
    CodedPerforms(Quiet(), tell, FIRST, s);
    SweptPerformed(Quiet(), body, SLOT, s, s);
    LoadedIsReads(Quiet(), Live(body, SLOT), SLOT, s);
    TellingShape(acc);
    TellingLeaves(tell, Read(s.mem, Stack(SLOT)));
  }

  lemma TellingShape(acc: seq<Access<int>>)
    requires LoadsThenStores(acc)
    ensures var tell := Telling(acc);
      tell != [] && tell[|tell| - 1] == St(1) && forall k :: 0 <= k < |tell| - 1 && tell[k].St? ==> tell[k].v == 0
  {
  }

  lemma RoundFits(body: seq<Instr>)
    requires RoundBody(body)
    ensures AfterAlloca(body, SLOT) && SlotBody(body, SLOT)
  {
  }

  lemma TellingLeaves(tell: seq<Access<int>>, c: Value)
    requires tell != [] && tell[|tell| - 1] == St(1) && forall k :: 0 <= k < |tell| - 1 && tell[k].St? ==> tell[k].v == 0
    ensures Leaves(Lifted(tell), c) == Int(1)
    ensures Leaves(Sweep(Lifted(tell)), c) == c || Leaves(Sweep(Lifted(tell)), c) == Int(0)
  {
    var front := Lifted(tell)[..|tell| - 1];
    assert Lifted(tell) == front + [St(Int(1))];
    LeavesLast(front, c, Int(1));
    SweepLast(front, Int(1));
    LeavesEither(front, c, Int(0));
  }

  // ---- The two functions ----

  lemma Allocated()
    ensures var s := ExecAll(Quiet(), [Alloca(SLOT)], Nothing());
      s.trace == [] && SlotHeld(s, SLOT) && Read(s.mem, Stack(SLOT)) == Undef
  {
    assert [Alloca(SLOT)] == [Alloca(SLOT)] + [];
    ExecCons(Quiet(), Alloca(SLOT), [], Nothing());
  }

  lemma SweptShowing(acc: seq<Access<int>>)
    ensures var f := Showing(acc);
      SweptAt(f, 1, SLOT) == Function([0, 1], map[0 := Block([Alloca(SLOT)], Br(1)), 1 := Block(Live(Coded(acc, FIRST) + [SHOW], SLOT), Br(1))])
  {
    hide Coded, Live;
  }

  /** The swept function never shows a one. */
  lemma {:induction false} NeverOne(acc: seq<Access<int>>, n: nat)
    requires LoadsThenStores(acc)
    ensures var g := SweptAt(Showing(Telling(acc)), 1, SLOT);
      && Closed(g)
      && var c := Run(g, Quiet(), Nothing(), n);
      && c.Running? && (c.at == 0 ==> c.state == Nothing())
      && (c.at == 1 ==> SlotHeld(c.state, SLOT) && (Read(c.state.mem, Stack(SLOT)) == Undef || Read(c.state.mem, Stack(SLOT)) == Int(0)))
      && forall k :: 0 <= k < |c.state.trace| ==> c.state.trace[k] != Event(0, [Int(1)])
  {
    var body := Coded(Telling(acc), FIRST) + [SHOW];
    SweptShowing(Telling(acc));
    hide ExecAll, Coded, Live, SlotHeld, Showing, SweptAt;
    if n > 0 {
      NeverOne(acc, n - 1);
      var c := Run(SweptAt(Showing(Telling(acc)), 1, SLOT), Quiet(), Nothing(), n - 1);
      if c.at == 0 {
        Allocated();
      } else {
        TellingRound(acc);
        SweptLeaves(acc, c.state);
        QuietIsHonest();
        RoundShows(Quiet(), Live(body, SLOT), c.state);
      }
    }
  }

  /** The original shows a one in its second round. */
  lemma ThenOne(acc: seq<Access<int>>)
    requires LoadsThenStores(acc)
    ensures var f := Showing(Telling(acc));
      Closed(f) && var t := Run(f, Quiet(), Nothing(), 3).state.trace; |t| == 2 && t[1] == Event(0, [Int(1)])
  {
    var f, w := Showing(Telling(acc)), Quiet();
    var body := f.blocks[1].body;
    ShowingFormed(Telling(acc));
    FormedClosed(f);
    hide ExecAll, Coded, SlotHeld, WellFormed, Honest, RoundBody;
    Allocated();
    QuietIsHonest();
    var c0, c1 := Run(f, w, Nothing(), 0), Run(f, w, Nothing(), 1);
    assert c1 == StepBlock(f, w, c0);
    TellingRound(acc);
    RoundLeaves(acc, c1.state);
    RoundShows(w, body, c1.state);
    var c2 := Run(f, w, Nothing(), 2);
    assert c2 == StepBlock(f, w, c1);
    RoundShows(w, body, c2.state);
    assert Run(f, w, Nothing(), 3) == StepBlock(f, w, c2);
  }

  lemma SweepSeen(acc: seq<Access<int>>)
    requires LoadsThenStores(acc)
    ensures !SameAfterSweep(Showing(Telling(acc)), 1, SLOT)
  {
    var f := Showing(Telling(acc));
    var g := SweptAt(f, 1, SLOT);
    ThenOne(acc);
    NeverOne(acc, 0);
    QuietIsHonest();
    assert Starts(f, Nothing());
    hide Honest, Run, Starts, Showing, SweptAt;
    if Equivalent(f, g) {
      assert Shown(f, g, Quiet(), Nothing(), 3);
      var m: nat :| SameView(Run(f, Quiet(), Nothing(), 3), Run(g, Quiet(), Nothing(), m));
      NeverOne(acc, m);
    }
  }

  lemma ShowingShape(acc: seq<Access<int>>)
    requires LoadsThenStores(acc)
    ensures SameShape(acc, AccessesOf(Showing(Telling(acc)).blocks[1].body, SLOT))
  {
    CodedCounts(Telling(acc), FIRST);
    hide Coded;
  }

  /** A block with these accesses to a slot that the pass selects can be swept in any function, whatever it
      stores, exactly if it does not start with a load of the slot and end with a store to it. */
  lemma SweepExactly(acc: seq<Access<int>>)
    ensures SafeInAnyFunction(acc) <==> !LoadsThenStores(acc)
  {
    if LoadsThenStores(acc) {
      ShowingFormed(Telling(acc));
      ShowingEligible(Telling(acc));
      ShowingShape(acc);
      SweepSeen(acc);
    } else {
      forall f, b, x | WellFormed(f) && Eligible(f, b, x) && SameShape(acc, AccessesOf(f.blocks[b].body, x)) ensures SameAfterSweep(f, b, x) {
        ShapeAllows(acc, f.blocks[b].body, x);
        SweepEquivalent(f, b, x);
      }
    }
  }
}
