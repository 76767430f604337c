/**
A phi-free intermediate representation with registers, stack slots, calls and branches, and what its
functions do when they run.

A function runs block by block.  What an observer sees is the sequence of calls with their arguments,
the returned value, and the memory outside the function's own stack slots when it returns.
*/
module Ir {
  import opened Options

  type Reg = nat
  type Label = nat

  /** A location is a stack slot of the running function, named by the register of its `alloca`, or
      any location that exists outside the function. */
  datatype Loc = Stack(reg: Reg) | Global(id: int)

  datatype Value = Undef | Int(i: int) | Ptr(loc: Loc)

  datatype Operand = Imm(v: Value) | Var(reg: Reg)

  datatype Instr =
    | Compute(dst: Reg, op: nat, args: seq<Operand>)
    | Alloca(dst: Reg)
    | Load(dst: Reg, addr: Operand)
    | Store(val: Operand, addr: Operand)
    | Call(dst: Reg, callee: nat, args: seq<Operand>)

  datatype Term = Br(to: Label) | CondBr(cond: Operand, yes: Label, no: Label) | Ret(val: Operand)

  datatype Block = Block(body: seq<Instr>, term: Term)

  datatype Function = Function(layout: seq<Label>, blocks: map<Label, Block>)

  // ---- Execution ----

  type Mem = map<Loc, Value>

  datatype Event = Event(callee: nat, args: seq<Value>)

  datatype State = State(regs: map<Reg, Value>, mem: Mem, trace: seq<Event>)

  /** What the IR leaves to the machine and to other code: pure operations, and the effect of a call
      given everything that was called so far. */
  datatype World = World(compute: (nat, seq<Value>) -> Value, extern: (seq<Event>, Mem) -> (Value, Mem))

  datatype Config = Running(at: Label, state: State) | Done(result: Value, state: State)

  function Get(regs: map<Reg, Value>, r: Reg): Value {
    if r in regs then regs[r] else Undef
  }

  function Read(mem: Mem, l: Loc): Value {
    if l in mem then mem[l] else Undef
  }

  function Eval(o: Operand, regs: map<Reg, Value>): Value {
    match o
    case Imm(v) => v
    case Var(r) => Get(regs, r)
  }

  function EvalAll(os: seq<Operand>, regs: map<Reg, Value>): seq<Value> {
    seq(|os|, k requires 0 <= k < |os| => Eval(os[k], regs))
  }

  function Define(s: State, r: Reg, v: Value): State {
    s.(regs := s.regs[r := v])
  }

  function CallOut(w: World, s: State, dst: Reg, e: Event): State {
    var trace := s.trace + [e];
    var r := w.extern(trace, s.mem);
    State(s.regs[dst := r.0], r.1, trace)
  }

  /** A load or store whose address is not a pointer reads `Undef` or does nothing. */
  function Exec(w: World, i: Instr, s: State): State {
    match i
    case Compute(dst, op, args) => Define(s, dst, w.compute(op, EvalAll(args, s.regs)))
    case Alloca(dst) => State(s.regs[dst := Ptr(Stack(dst))], s.mem[Stack(dst) := Undef], s.trace)
    case Load(dst, addr) =>
      var a := Eval(addr, s.regs);
      Define(s, dst, if a.Ptr? then Read(s.mem, a.loc) else Undef)
    case Store(val, addr) =>
      var a := Eval(addr, s.regs);
      if a.Ptr? then s.(mem := s.mem[a.loc := Eval(val, s.regs)]) else s
    case Call(dst, callee, args) => CallOut(w, s, dst, Event(callee, EvalAll(args, s.regs)))
  }

  function ExecAll(w: World, body: seq<Instr>, s: State): State {
    if body == [] then s else ExecAll(w, body[1..], Exec(w, body[0], s))
  }

  predicate Taken(v: Value) {
    v.Int? && v.i != 0
  }

  function Leave(t: Term, s: State): Config {
    match t
    case Br(to) => Running(to, s)
    case CondBr(c, yes, no) => Running(if Taken(Eval(c, s.regs)) then yes else no, s)
    case Ret(v) => Done(Eval(v, s.regs), s)
  }

  function Targets(t: Term): set<Label> {
    match t
    case Br(to) => {to}
    case CondBr(_, yes, no) => {yes, no}
    case Ret(_) => {}
  }

  predicate Closed(f: Function) {
    && f.layout != []
    && f.layout[0] in f.blocks
    && forall b, t :: b in f.blocks && t in Targets(f.blocks[b].term) ==> t in f.blocks
  }

  function Entry(f: Function): Label
    requires f.layout != []
  {
    f.layout[0]
  }

  function StepBlock(f: Function, w: World, c: Config): Config
    requires c.Running? ==> c.at in f.blocks
  {
    if c.Running? then Leave(f.blocks[c.at].term, ExecAll(w, f.blocks[c.at].body, c.state)) else c
  }

  /** The configuration after at most `n` blocks. */
  function Run(f: Function, w: World, s: State, n: nat): (c: Config)
    requires Closed(f)
    ensures c.Running? ==> c.at in f.blocks
  {
    if n == 0 then Running(Entry(f), s) else StepBlock(f, w, Run(f, w, s, n - 1))
  }

  // ---- What other code can and cannot do ----

  /** The two memories agree on every location but slot `x`. */
  ghost predicate SameBut(m1: Mem, m2: Mem, x: Reg) {
    forall l :: l != Stack(x) ==> Read(m1, l) == Read(m2, l)
  }

  ghost predicate CleanMem(m: Mem, x: Reg) {
    forall l :: Read(m, l) != Ptr(Stack(x))
  }

  ghost predicate CleanTrace(trace: seq<Event>, x: Reg) {
    forall k :: 0 <= k < |trace| ==> Ptr(Stack(x)) !in trace[k].args
  }

  /** Pointers to stack slots cannot be made up: an operation returns one only if it was given one,
      and code outside the function neither reads, writes nor returns a slot whose address appears in
      none of the arguments it was ever passed and nowhere in memory. */
  ghost predicate Honest(w: World) {
    && (forall op, args, x :: w.compute(op, args) == Ptr(Stack(x)) ==> Ptr(Stack(x)) in args)
    && (forall trace, m1, m2, x ::
          CleanTrace(trace, x) && CleanMem(m1, x) && CleanMem(m2, x) && SameBut(m1, m2, x) ==>
            Hidden(w.extern(trace, m1), w.extern(trace, m2), m1, m2, x))
  }

  ghost predicate Hidden(r1: (Value, Mem), r2: (Value, Mem), m1: Mem, m2: Mem, x: Reg) {
    && r1.0 == r2.0 && r1.0 != Ptr(Stack(x))
    && SameBut(r1.1, r2.1, x) && CleanMem(r1.1, x) && CleanMem(r2.1, x)
    && Read(r1.1, Stack(x)) == Read(m1, Stack(x)) && Read(r2.1, Stack(x)) == Read(m2, Stack(x))
  }

  // ---- Equivalence ----

  predicate Defines(i: Instr, r: Reg) {
    !i.Store? && i.dst == r
  }

  ghost predicate DefinedIn(f: Function, r: Reg) {
    exists b, k :: b in f.blocks && 0 <= k < |f.blocks[b].body| && Defines(f.blocks[b].body[k], r)
  }

  /** The function starts with its arguments in registers that no instruction defines, and nothing
      points at its slots yet. */
  ghost predicate Starts(f: Function, s: State) {
    && (forall r :: r in s.regs ==> !DefinedIn(f, r))
    && (forall r, x :: Get(s.regs, r) != Ptr(Stack(x)))
    && (forall x :: CleanMem(s.mem, x) && CleanTrace(s.trace, x))
  }

  ghost predicate SameView(c1: Config, c2: Config) {
    && c1.state.trace == c2.state.trace
    && (c1.Done? <==> c2.Done?)
    && (c1.Done? ==> c1.result == c2.result && forall g :: Read(c1.state.mem, Global(g)) == Read(c2.state.mem, Global(g)))
  }

  ghost predicate Shown(f: Function, g: Function, w: World, s: State, n: nat)
    requires Closed(f) && Closed(g)
  {
    exists m :: SameView(Run(f, w, s, n), Run(g, w, s, m))
  }

  /** Whatever can be seen of `f` after some number of blocks can be seen of `g` after some number of
      blocks; so `g` makes the same calls, and returns, with the same result, if `f` does. */
  ghost predicate Shows(f: Function, g: Function, w: World, s: State)
    requires Closed(f) && Closed(g)
  {
    forall n :: Shown(f, g, w, s, n)
  }

  ghost predicate Equivalent(f: Function, g: Function)
    requires Closed(f) && Closed(g)
  {
    forall w, s :: Honest(w) && Starts(f, s) ==> Shows(f, g, w, s) && Shows(g, f, w, s)
  }
}
