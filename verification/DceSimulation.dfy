/** Why each rewrite preserves what can be seen of a function. */
module DceSimulation {
  import opened Options
  import opened Ir
  import opened DceRewrites

  // ---- A slot whose address is never taken stays hidden ----

  /** No register but `x`, no memory cell and no past argument holds the address of slot `x`. */
  ghost predicate Clean(s: State, x: Reg) {
    && (forall r :: r != x ==> Get(s.regs, r) != Ptr(Stack(x)))
    && CleanMem(s.mem, x) && CleanTrace(s.trace, x)
  }

  /** Two states that differ at most in register `x` and in slot `x`. */
  ghost predicate Near(s1: State, s2: State, x: Reg) {
    && s1.trace == s2.trace
    && (forall r :: r != x ==> Get(s1.regs, r) == Get(s2.regs, r))
    && SameBut(s1.mem, s2.mem, x)
    && Clean(s1, x) && Clean(s2, x)
  }

  ghost predicate SameCell(s1: State, s2: State, x: Reg) {
    Read(s1.mem, Stack(x)) == Read(s2.mem, Stack(x))
  }

  /** Register `x` is the same in both states, and it is unset or the address of slot `x`. */
  ghost predicate SlotReg(s1: State, s2: State, x: Reg) {
    Get(s1.regs, x) == Get(s2.regs, x) && (Get(s1.regs, x) == Undef || Get(s1.regs, x) == Ptr(Stack(x)))
  }

  lemma {:induction false} NoUses(os: seq<Operand>, x: Reg)
    requires OperandUses(os, x) == 0
    ensures Var(x) !in os
  {
    if os != [] { NoUses(os[1..], x); }
  }

  lemma EvalNear(o: Operand, s1: State, s2: State, x: Reg)
    requires Near(s1, s2, x) && PlainOperand(o) && o != Var(x)
    ensures Eval(o, s1.regs) == Eval(o, s2.regs) && Eval(o, s1.regs) != Ptr(Stack(x))
  {
  }

  lemma EvalAllNear(os: seq<Operand>, s1: State, s2: State, x: Reg)
    requires Near(s1, s2, x) && OperandUses(os, x) == 0 && forall k :: 0 <= k < |os| ==> PlainOperand(os[k])
    ensures EvalAll(os, s1.regs) == EvalAll(os, s2.regs) && Ptr(Stack(x)) !in EvalAll(os, s1.regs)
  {
    NoUses(os, x);
    forall k | 0 <= k < |os| ensures Eval(os[k], s1.regs) == Eval(os[k], s2.regs) && Eval(os[k], s1.regs) != Ptr(Stack(x)) {
      EvalNear(os[k], s1, s2, x);
    }
  }

  lemma DefineNear(s1: State, s2: State, x: Reg, r: Reg, v: Value)
    requires Near(s1, s2, x) && v != Ptr(Stack(x))
    ensures Near(Define(s1, r, v), Define(s2, r, v), x)
  {
    var t1, t2 := Define(s1, r, v), Define(s2, r, v);
    forall q | q != x ensures Get(t1.regs, q) == Get(t2.regs, q) && Get(t1.regs, q) != Ptr(Stack(x)) {
      assert Get(s1.regs, q) == Get(s2.regs, q) && Get(s1.regs, q) != Ptr(Stack(x));
    }
  }

  lemma WriteNear(s1: State, s2: State, x: Reg, l: Loc, v: Value)
    requires Near(s1, s2, x) && v != Ptr(Stack(x))
    ensures Near(s1.(mem := s1.mem[l := v]), s2.(mem := s2.mem[l := v]), x)
    ensures SameCell(s1, s2, x) || l == Stack(x) ==> SameCell(s1.(mem := s1.mem[l := v]), s2.(mem := s2.mem[l := v]), x)
  {
    var m1, m2 := s1.mem[l := v], s2.mem[l := v];
    forall k ensures Read(m1, k) != Ptr(Stack(x)) && Read(m2, k) != Ptr(Stack(x)) {
      assert Read(s1.mem, k) != Ptr(Stack(x)) && Read(s2.mem, k) != Ptr(Stack(x));
    }
    forall k | k != Stack(x) ensures Read(m1, k) == Read(m2, k) {
      assert Read(s1.mem, k) == Read(s2.mem, k);
    }
  }

  lemma CallNear(w: World, s1: State, s2: State, x: Reg, dst: Reg, e: Event)
    requires Honest(w) && Near(s1, s2, x) && Ptr(Stack(x)) !in e.args
    ensures Near(CallOut(w, s1, dst, e), CallOut(w, s2, dst, e), x)
    ensures SameCell(s1, s2, x) ==> SameCell(CallOut(w, s1, dst, e), CallOut(w, s2, dst, e), x)
  {
    hide CleanMem, SameBut;
    var trace := s1.trace + [e];
    assert CleanTrace(trace, x);
    var r1, r2 := w.extern(trace, s1.mem), w.extern(trace, s2.mem);
    assert Hidden(r1, r2, s1.mem, s2.mem, x);
    DefineNear(s1, s2, x, dst, r1.0);
  }

  lemma LoadNear(s1: State, s2: State, x: Reg, dst: Reg, a: Value)
    requires Near(s1, s2, x) && a != Ptr(Stack(x))
    ensures Near(Define(s1, dst, if a.Ptr? then Read(s1.mem, a.loc) else Undef),
                 Define(s2, dst, if a.Ptr? then Read(s2.mem, a.loc) else Undef), x)
  {
    if a.Ptr? { assert Read(s1.mem, a.loc) == Read(s2.mem, a.loc) && Read(s1.mem, a.loc) != Ptr(Stack(x)); }
    DefineNear(s1, s2, x, dst, if a.Ptr? then Read(s1.mem, a.loc) else Undef);
  }

  lemma AllocaNear(s1: State, s2: State, x: Reg, dst: Reg)
    requires Near(s1, s2, x)
    ensures var t1, t2 := State(s1.regs[dst := Ptr(Stack(dst))], s1.mem[Stack(dst) := Undef], s1.trace),
                          State(s2.regs[dst := Ptr(Stack(dst))], s2.mem[Stack(dst) := Undef], s2.trace);
      Near(t1, t2, x) && (SameCell(s1, s2, x) || dst == x ==> SameCell(t1, t2, x))
  {
    WriteNear(s1, s2, x, Stack(dst), Undef);
    var u1, u2 := s1.(mem := s1.mem[Stack(dst) := Undef]), s2.(mem := s2.mem[Stack(dst) := Undef]);
    var t1, t2 := Define(u1, dst, Ptr(Stack(dst))), Define(u2, dst, Ptr(Stack(dst)));
    forall q | q != x ensures Get(t1.regs, q) == Get(t2.regs, q) && Get(t1.regs, q) != Ptr(Stack(x)) {
      assert Get(s1.regs, q) == Get(s2.regs, q) && Get(s1.regs, q) != Ptr(Stack(x));
    }
  }

  /** An instruction that does not use `x` keeps the two states near. */
  lemma ExecNear(w: World, i: Instr, s1: State, s2: State, x: Reg)
    requires Honest(w) && Near(s1, s2, x) && PlainInstr(i) && InstrUses(i, x) == 0
    ensures Near(Exec(w, i, s1), Exec(w, i, s2), x)
    ensures SameCell(s1, s2, x) ==> SameCell(Exec(w, i, s1), Exec(w, i, s2), x)
  {
    match i
    case Compute(dst, op, args) =>
      EvalAllNear(args, s1, s2, x);
      DefineNear(s1, s2, x, dst, w.compute(op, EvalAll(args, s1.regs)));
    case Alloca(dst) =>
      AllocaNear(s1, s2, x, dst);
    case Load(dst, addr) =>
      NoUses([addr], x);
      EvalNear(addr, s1, s2, x);
      LoadNear(s1, s2, x, dst, Eval(addr, s1.regs));
    case Store(val, addr) =>
      NoUses([val], x);
      NoUses([addr], x);
      EvalNear(val, s1, s2, x);
      EvalNear(addr, s1, s2, x);
      var a := Eval(addr, s1.regs);
      if a.Ptr? { WriteNear(s1, s2, x, a.loc, Eval(val, s1.regs)); }
    case Call(dst, callee, args) =>
      EvalAllNear(args, s1, s2, x);
      CallNear(w, s1, s2, x, dst, Event(callee, EvalAll(args, s1.regs)));
  }

  /** The slot register keeps its meaning, and stays set, if only an `alloca` defines it. */
  lemma ExecSlotReg(w: World, i: Instr, s1: State, s2: State, x: Reg)
    requires SlotReg(s1, s2, x) && (Defines(i, x) ==> i == Alloca(x))
    ensures SlotReg(Exec(w, i, s1), Exec(w, i, s2), x)
    ensures Get(s1.regs, x) != Undef ==> Get(Exec(w, i, s1).regs, x) != Undef
    ensures i == Alloca(x) ==> SameCell(Exec(w, i, s1), Exec(w, i, s2), x)
  {
  }

  // ---- Erasing an instruction whose result is not used ----

  ghost predicate Unused(body: seq<Instr>, x: Reg) {
    forall k :: 0 <= k < |body| ==> InstrUses(body[k], x) == 0
  }

  ghost predicate Plain(body: seq<Instr>) {
    forall k :: 0 <= k < |body| ==> PlainInstr(body[k])
  }

  lemma {:induction false} ExecAllNear(w: World, body: seq<Instr>, s1: State, s2: State, x: Reg)
    requires Honest(w) && Near(s1, s2, x) && Plain(body) && Unused(body, x)
    ensures Near(ExecAll(w, body, s1), ExecAll(w, body, s2), x)
    ensures SameCell(s1, s2, x) ==> SameCell(ExecAll(w, body, s1), ExecAll(w, body, s2), x)
  {
    if body != [] {
      ExecNear(w, body[0], s1, s2, x);
      ExecAllNear(w, body[1..], Exec(w, body[0], s1), Exec(w, body[0], s2), x);
    }
  }

  lemma {:induction false} ExecAllAppend(w: World, a: seq<Instr>, b: seq<Instr>, s: State)
    ensures ExecAll(w, a + b, s) == ExecAll(w, b, ExecAll(w, a, s))
  {
    if a == [] {
      assert a + b == b;
    } else {
      assert (a + b)[1..] == a[1..] + b;
      ExecAllAppend(w, a[1..], b, Exec(w, a[0], s));
    }
  }

  lemma ExecAllAround(w: World, body: seq<Instr>, k: nat, s: State)
    requires k < |body|
    ensures ExecAll(w, body, s) == ExecAll(w, body[k + 1..], Exec(w, body[k], ExecAll(w, body[..k], s)))
    ensures ExecAll(w, Without(body, k), s) == ExecAll(w, body[k + 1..], ExecAll(w, body[..k], s))
  {
    assert body == body[..k] + ([body[k]] + body[k + 1..]);
    ExecAllAppend(w, body[..k], [body[k]] + body[k + 1..], s);
    ExecAllAppend(w, [body[k]], body[k + 1..], ExecAll(w, body[..k], s));
    assert [body[k]][1..] == [];
    assert ExecAll(w, [body[k]], ExecAll(w, body[..k], s)) == Exec(w, body[k], ExecAll(w, body[..k], s));
    ExecAllAppend(w, body[..k], body[k + 1..], s);
  }

  /** Leaving out a definition of `x` on one side. */
  lemma SkipDefinition(w: World, i: Instr, s1: State, s2: State, x: Reg)
    requires Honest(w) && Near(s1, s2, x) && PlainInstr(i) && InstrUses(i, x) == 0
    requires (i.Compute? || i.Alloca? || i.Load?) && i.dst == x
    ensures Near(Exec(w, i, s1), s2, x)
  {
  }

  lemma ErasedBody(w: World, body: seq<Instr>, k: nat, s1: State, s2: State, x: Reg)
    requires Honest(w) && Near(s1, s2, x) && k < |body| && Plain(body) && Unused(body, x)
    requires (body[k].Compute? || body[k].Alloca? || body[k].Load?) && body[k].dst == x
    ensures Near(ExecAll(w, body, s1), ExecAll(w, Without(body, k), s2), x)
  {
    ExecAllAround(w, body, k, s1);
    ExecAllAround(w, body, k, s2);
    ExecAllNear(w, body[..k], s1, s2, x);
    SkipDefinition(w, body[k], ExecAll(w, body[..k], s1), ExecAll(w, body[..k], s2), x);
    ExecAllNear(w, body[k + 1..], Exec(w, body[k], ExecAll(w, body[..k], s1)), ExecAll(w, body[..k], s2), x);
  }

  lemma LeaveNear(t: Term, s1: State, s2: State, x: Reg)
    requires Near(s1, s2, x) && PlainTerm(t) && TermUses(t, x) == 0
    ensures var c1, c2 := Leave(t, s1), Leave(t, s2);
      && c1.state == s1 && c2.state == s2
      && (c1.Running? <==> c2.Running?)
      && (c1.Running? ==> c1.at == c2.at && c1.at in Targets(t))
      && (c1.Done? ==> c1.result == c2.result)
  {
    match t
    case Br(_) =>
    case CondBr(c, _, _) => NoUses([c], x); EvalNear(c, s1, s2, x);
    case Ret(v) => NoUses([v], x); EvalNear(v, s1, s2, x);
  }

  /** Two configurations at the same block, or returned alike, with near states. */
  ghost predicate NearConfig(c1: Config, c2: Config, x: Reg) {
    && Near(c1.state, c2.state, x)
    && (c1.Running? <==> c2.Running?)
    && (c1.Running? ==> c1.at == c2.at)
    && (c1.Done? ==> c1.result == c2.result)
  }

  ghost predicate NowhereUsed(f: Function, x: Reg) {
    && (forall b :: b in f.blocks ==> Unused(f.blocks[b].body, x) && TermUses(f.blocks[b].term, x) == 0)
  }

  ghost predicate PlainFunction(f: Function) {
    forall b :: b in f.blocks ==> Plain(f.blocks[b].body) && PlainTerm(f.blocks[b].term)
  }

  lemma StartNear(f: Function, s: State, x: Reg)
    requires Starts(f, s)
    ensures Near(s, s, x) && SameCell(s, s, x)
  {
  }

  lemma NearView(c1: Config, c2: Config, x: Reg)
    requires NearConfig(c1, c2, x)
    ensures SameView(c1, c2) && SameView(c2, c1)
  {
  }

  lemma {:induction false} ErasedRun(f: Function, b: Label, k: nat, w: World, s: State, n: nat)
    requires Closed(f) && PlainFunction(f) && HasInstr(f, b, k) && Honest(w) && Starts(f, s)
    requires var i := InstrAt(f, b, k); (i.Compute? || i.Alloca? || i.Load?) && NowhereUsed(f, i.dst)
    ensures Closed(Erase(f, b, k))
    ensures NearConfig(Run(f, w, s, n), Run(Erase(f, b, k), w, s, n), InstrAt(f, b, k).dst)
  {
    var g, x := Erase(f, b, k), InstrAt(f, b, k).dst;
    ErasedClosed(f, b, k);
    if n == 0 {
      StartNear(f, s, x);
    } else {
      ErasedRun(f, b, k, w, s, n - 1);
      var c1, c2 := Run(f, w, s, n - 1), Run(g, w, s, n - 1);
      if c1.Running? {
        if c1.at == b {
          ErasedBody(w, f.blocks[b].body, k, c1.state, c2.state, x);
        } else {
          ExecAllNear(w, f.blocks[c1.at].body, c1.state, c2.state, x);
        }
        LeaveNear(f.blocks[c1.at].term, ExecAll(w, f.blocks[c1.at].body, c1.state), ExecAll(w, g.blocks[c1.at].body, c2.state), x);
      }
    }
  }

  lemma ErasedClosed(f: Function, b: Label, k: nat)
    requires Closed(f) && HasInstr(f, b, k)
    ensures Closed(Erase(f, b, k))
  {
  }

  lemma LockStep(f: Function, g: Function, w: World, s: State)
    requires Closed(f) && Closed(g) && forall n: nat :: SameView(Run(f, w, s, n), Run(g, w, s, n))
    ensures Shows(f, g, w, s) && Shows(g, f, w, s)
  {
    forall n: nat ensures Shown(f, g, w, s, n) {
      assert SameView(Run(f, w, s, n), Run(g, w, s, n));
    }
    forall n: nat ensures Shown(g, f, w, s, n) {
      assert SameView(Run(f, w, s, n), Run(g, w, s, n));
      assert SameView(Run(g, w, s, n), Run(f, w, s, n));
    }
  }

  /** Erasing a trivially dead instruction preserves behaviour. */
  lemma EraseEquivalent(f: Function, b: Label, k: nat)
    requires Closed(f) && PlainFunction(f) && HasInstr(f, b, k)
    requires var i := InstrAt(f, b, k); (i.Compute? || i.Alloca? || i.Load?) && NowhereUsed(f, i.dst)
    ensures Closed(Erase(f, b, k)) && Equivalent(f, Erase(f, b, k))
  {
    var g := Erase(f, b, k);
    ErasedClosed(f, b, k);
    forall w, s | Honest(w) && Starts(f, s) ensures Shows(f, g, w, s) && Shows(g, f, w, s) {
      forall n: nat ensures SameView(Run(f, w, s, n), Run(g, w, s, n)) {
        ErasedRun(f, b, k, w, s, n);
        NearView(Run(f, w, s, n), Run(g, w, s, n), InstrAt(f, b, k).dst);
      }
      LockStep(f, g, w, s);
    }
  }
}
