/**
Dead stores and loops.  The walk treats the end of a block as the end of the slot's life, so a value
that one run of a block leaves for its next run can be lost.  This file says what the side condition
of the pass means, shows a function on which the pass goes wrong without it, and states exactly which
blocks can be swept when they run twice.
*/
module DceLoops {
  import opened Options
  import opened Ir
  import opened DceRewrites
  import opened DceSimulation
  import opened DcePreserve

  // ---- The side condition in terms of paths ----

  ghost predicate Path(f: Function, b: Label, p: seq<Label>) {
    && |p| > 1 && p[0] == b
    && forall i :: 0 <= i < |p| - 1 ==> p[i] in f.blocks && p[i + 1] in Targets(f.blocks[p[i]].term)
  }

  ghost predicate Leads(f: Function, b: Label, c: Label) {
    exists p :: Path(f, b, p) && p[|p| - 1] == c
  }

  lemma {:induction false} PathStaysInside(f: Function, b: Label, p: seq<Label>, after: set<Label>)
    requires Path(f, b, p) && ClosedUnder(f, after) && Targets(f.blocks[b].term) <= after
    ensures p[|p| - 1] in after
    decreases |p|
  {
    if |p| > 2 {
      PathStaysInside(f, b, p[..|p| - 1], after);
      assert p[|p| - 2] == p[..|p| - 1][|p| - 2];
    }
  }

  lemma PathExtends(f: Function, b: Label, c: Label, t: Label)
    requires Leads(f, b, c) && c in f.blocks && t in Targets(f.blocks[c].term)
    ensures Leads(f, b, t)
  {
    var p :| Path(f, b, p) && p[|p| - 1] == c;
    assert Path(f, b, p + [t]) && (p + [t])[|p|] == t;
  }

  /** A block is never reentered exactly if no path of branches leads from it back to it. */
  lemma NeverReenteredExactly(f: Function, b: Label)
    requires Closed(f) && b in f.blocks
    ensures NeverReentered(f, b) <==> !Leads(f, b, b)
  {
    if NeverReentered(f, b) && Leads(f, b, b) {
      var after: set<Label> :| ClosedUnder(f, after) && b !in after && Targets(f.blocks[b].term) <= after;
      var p :| Path(f, b, p) && p[|p| - 1] == b;
      PathStaysInside(f, b, p, after);
    }
    if !Leads(f, b, b) {
      var after := set c | c in f.blocks && Leads(f, b, c);
      forall c, t | c in after && t in Targets(f.blocks[c].term) ensures t in after { PathExtends(f, b, c, t); }
      forall t | t in Targets(f.blocks[b].term) ensures t in after { assert Path(f, b, [b, t]); }
      assert ClosedUnder(f, after);
    }
  }

  // ---- A loop on which the walk is wrong ----

  const SLOT: Reg := 1
  const LOAD: Instr := Load(2, Var(SLOT))
  const CALL: Instr := Call(3, 0, [Var(2)])
  const STORE: Instr := Store(Imm(Int(7)), Var(SLOT))

  /** `slot = alloca; loop: v = load slot; call 0(v); store 7, slot; br loop`. */
  function Counting(): Function {
    Function([0, 1], map[
      0 := Block([Alloca(SLOT)], Br(1)),
      1 := Block([LOAD, CALL, STORE], Br(1))])
  }

  function Swept(): Function {
    Function([0, 1], map[
      0 := Block([Alloca(SLOT)], Br(1)),
      1 := Block([LOAD, CALL], Br(1))])
  }

  /** A world in which operations and calls return nothing and leave memory alone. */
  function Quiet(): World {
    World((op, args) => Undef, (trace, mem) => (Undef, mem))
  }

  lemma QuietIsHonest()
    ensures Honest(Quiet())
  {
  }

  function Nothing(): State {
    State(map[], map[], [])
  }

  lemma ExecCons(w: World, i: Instr, rest: seq<Instr>, s: State)
    ensures ExecAll(w, [i] + rest, s) == ExecAll(w, rest, Exec(w, i, s))
  {
    assert ([i] + rest)[1..] == rest;
  }

  lemma CountCons(i: Instr, rest: seq<Instr>, x: Reg)
    ensures BodyUses([i] + rest, x) == InstrUses(i, x) + BodyUses(rest, x)
    ensures Accesses([i] + rest, x) == (if Direct(i, x) then 1 else 0) + Accesses(rest, x)
  {
    assert ([i] + rest)[1..] == rest;
  }

  /** The removed store is one the pass removes. */
  lemma CountingDead()
    ensures HasInstr(Counting(), 1, 2) && DeadStore(Counting(), 1, 2, SLOT) && Erase(Counting(), 1, 2) == Swept()
  {
    var f := Counting();
    assert f.blocks[0].body[0] == Alloca(SLOT);
    assert IsSlot(f, SLOT);
    CountingUses();
    assert Without(f.blocks[1].body, 2) == [LOAD, CALL];
  }

  lemma CountingUses()
    ensures Uses(Counting(), SLOT) == 2 && Accesses(Counting().blocks[1].body, SLOT) == 2
  {
    var f := Counting();
    assert f.blocks[1].body == [LOAD] + ([CALL] + ([STORE] + []));
    CountCons(LOAD, [CALL] + ([STORE] + []), SLOT);
    CountCons(CALL, [STORE] + [], SLOT);
    CountCons(STORE, [], SLOT);
    assert f.blocks[0].body == [Alloca(SLOT)] + [];
    CountCons(Alloca(SLOT), [], SLOT);
    assert f.layout == [0] + [1] && [1] == [1] + [];
    assert LayoutUses(f, [], SLOT) == 0;
    assert [1][1..] == [];
    assert LayoutUses(f, [1], SLOT) == 2;
    assert f.layout[1..] == [1];
  }

  lemma CountingInstr(b: Label, k: int)
    requires HasInstr(Counting(), b, k)
    ensures PlainInstr(InstrAt(Counting(), b, k))
    ensures forall r :: Defines(InstrAt(Counting(), b, k), r) ==> r == (if b == 0 then 1 else k + 2)
    ensures b == 0 ==> k == 0
  {
  }

  lemma CountingWellFormed()
    ensures WellFormed(Counting())
  {
    var f := Counting();
    forall b, k | HasInstr(f, b, k) ensures PlainInstr(InstrAt(f, b, k)) { CountingInstr(b, k); }
    forall b, k, b', k', r | HasInstr(f, b, k) && HasInstr(f, b', k') && Defines(InstrAt(f, b, k), r) && Defines(InstrAt(f, b', k'), r)
      ensures b == b' && k == k'
    {
      CountingInstr(b, k);
      CountingInstr(b', k');
    }
  }

  lemma CountingNotSafe()
    ensures !Sweepable(Counting())
  {
    var f := Counting();
    assert Closed(f);
    assert Path(f, 1, [1, 1]) && [1, 1][1] == 1;
    NeverReenteredExactly(f, 1);
    assert f.blocks[1].body[2] == STORE && f.blocks[1].body[0] == LOAD;
    CountingDead();
    assert Carried(f, 1, SLOT);
    if Sweepable(f) { SelectedNow(f, 1, SLOT); }
  }

  lemma RoundOfSwept(s: State)
    requires Get(s.regs, SLOT) == Ptr(Stack(SLOT)) && Read(s.mem, Stack(SLOT)) == Undef
    ensures var s' := ExecAll(Quiet(), [LOAD, CALL], s);
      s'.trace == s.trace + [Event(0, [Undef])] && Get(s'.regs, SLOT) == Ptr(Stack(SLOT)) && Read(s'.mem, Stack(SLOT)) == Undef
  {
    assert [LOAD, CALL] == [LOAD] + ([CALL] + []);
    ExecCons(Quiet(), LOAD, [CALL] + [], s);
    var t := Exec(Quiet(), LOAD, s);
    ExecCons(Quiet(), CALL, [], t);
    assert EvalAll([Var(2)], t.regs) == [Undef];
  }

  lemma RoundOfLoop(s: State, v: Value)
    requires Get(s.regs, SLOT) == Ptr(Stack(SLOT)) && Read(s.mem, Stack(SLOT)) == v
    ensures var s' := ExecAll(Quiet(), [LOAD, CALL, STORE], s);
      s'.trace == s.trace + [Event(0, [v])] && Get(s'.regs, SLOT) == Ptr(Stack(SLOT)) && Read(s'.mem, Stack(SLOT)) == Int(7)
  {
    assert [LOAD, CALL, STORE] == [LOAD] + ([CALL] + ([STORE] + []));
    ExecCons(Quiet(), LOAD, [CALL] + ([STORE] + []), s);
    var t := Exec(Quiet(), LOAD, s);
    ExecCons(Quiet(), CALL, [STORE] + [], t);
    assert EvalAll([Var(2)], t.regs) == [v];
    ExecCons(Quiet(), STORE, [], Exec(Quiet(), CALL, t));
  }

  lemma FirstBlock()
    ensures var s := ExecAll(Quiet(), [Alloca(SLOT)], Nothing());
      s.trace == [] && Get(s.regs, SLOT) == Ptr(Stack(SLOT)) && Read(s.mem, Stack(SLOT)) == Undef
  {
    assert [Alloca(SLOT)] == [Alloca(SLOT)] + [];
    ExecCons(Quiet(), Alloca(SLOT), [], Nothing());
  }

  /** Everything the swept function ever passes to the call is undefined. */
  lemma {:induction false} SweptTrace(n: nat)
    ensures Closed(Swept())
    ensures var c := Run(Swept(), Quiet(), Nothing(), n);
      && c.Running?
      && (c.at == 0 ==> c.state == Nothing())
      && (c.at == 1 ==> Get(c.state.regs, SLOT) == Ptr(Stack(SLOT)) && Read(c.state.mem, Stack(SLOT)) == Undef)
      && forall k :: 0 <= k < |c.state.trace| ==> c.state.trace[k] == Event(0, [Undef])
  {
    hide ExecAll;
    if n > 0 {
      SweptTrace(n - 1);
      var c := Run(Swept(), Quiet(), Nothing(), n - 1);
      assert Swept().blocks[1].body == [LOAD, CALL];
      if c.at == 0 { FirstBlock(); } else { RoundOfSwept(c.state); }
    }
  }

  lemma CountingRun()
    ensures Closed(Counting())
    ensures Run(Counting(), Quiet(), Nothing(), 3).state.trace == [Event(0, [Undef]), Event(0, [Int(7)])]
  {
    hide ExecAll;
    var f, w := Counting(), Quiet();
    assert Closed(f);
    assert f.blocks[1].body == [LOAD, CALL, STORE];
    FirstBlock();
    var c0, c1 := Run(f, w, Nothing(), 0), Run(f, w, Nothing(), 1);
    assert c1 == StepBlock(f, w, c0);
    RoundOfLoop(c1.state, Undef);
    var c2 := Run(f, w, Nothing(), 2);
    assert c2 == StepBlock(f, w, c1);
    RoundOfLoop(c2.state, Int(7));
    assert Run(f, w, Nothing(), 3) == StepBlock(f, w, c2);
  }

  /** Without the side condition the pass can change what a function does. */
  lemma LoopCarriedCounterexample()
    ensures WellFormed(Counting()) && !Sweepable(Counting())
    ensures HasInstr(Counting(), 1, 2) && DeadStore(Counting(), 1, 2, SLOT)
    ensures Closed(Erase(Counting(), 1, 2)) && !Equivalent(Counting(), Erase(Counting(), 1, 2))
  {
    hide WellFormed, Sweepable, DeadStore, Honest, Run, Equivalent;
    CountingDead();
    CountingWellFormed();
    CountingNotSafe();
    SweptTrace(0);
    SeenApart();
  }

  lemma SeenApart()
    ensures Closed(Counting()) && Closed(Swept()) && !Equivalent(Counting(), Swept())
  {
    hide WellFormed, Honest, Run;
    var f, g := Counting(), Swept();
    CountingRun();
    SweptTrace(0);
    QuietIsHonest();
    assert Starts(f, Nothing());
    assert Run(f, Quiet(), Nothing(), 3).state.trace[1] == Event(0, [Int(7)]);
    if Equivalent(f, g) {
      assert Shown(f, g, Quiet(), Nothing(), 3);
      var m: nat :| SameView(Run(f, Quiet(), Nothing(), 3), Run(g, Quiet(), Nothing(), m));
      SweptTrace(m);
    }
  }
}
