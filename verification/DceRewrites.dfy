/**
The single changes the dead code elimination pass makes to a function, and when it makes them.
*/
module DceRewrites {
  import opened Options
  import opened Ir

  // ---- Uses ----

  function OperandUses(os: seq<Operand>, r: Reg): nat {
    if os == [] then 0 else (if os[0] == Var(r) then 1 else 0) + OperandUses(os[1..], r)
  }

  function InstrUses(i: Instr, r: Reg): nat {
    match i
    case Compute(_, _, args) => OperandUses(args, r)
    case Alloca(_) => 0
    case Load(_, addr) => OperandUses([addr], r)
    case Store(val, addr) => OperandUses([val], r) + OperandUses([addr], r)
    case Call(_, _, args) => OperandUses(args, r)
  }

  function TermUses(t: Term, r: Reg): nat {
    match t
    case Br(_) => 0
    case CondBr(c, _, _) => OperandUses([c], r)
    case Ret(v) => OperandUses([v], r)
  }

  function BodyUses(body: seq<Instr>, r: Reg): nat {
    if body == [] then 0 else InstrUses(body[0], r) + BodyUses(body[1..], r)
  }

  function LayoutUses(f: Function, layout: seq<Label>, r: Reg): nat {
    if layout == [] then 0
    else (if layout[0] in f.blocks then BodyUses(f.blocks[layout[0]].body, r) + TermUses(f.blocks[layout[0]].term, r) else 0)
         + LayoutUses(f, layout[1..], r)
  }

  /** `getNumUses`: the operands of the whole function that name the register. */
  function Uses(f: Function, r: Reg): nat {
    LayoutUses(f, f.layout, r)
  }

  // ---- Direct accesses to a slot ----

  /** A load or store whose pointer operand is the slot itself. */
  predicate Direct(i: Instr, x: Reg) {
    (i.Load? || i.Store?) && i.addr == Var(x)
  }

  function Accesses(body: seq<Instr>, x: Reg): nat {
    if body == [] then 0 else (if Direct(body[0], x) then 1 else 0) + Accesses(body[1..], x)
  }

  /** The first access to the slot is a load. */
  predicate LoadNext(body: seq<Instr>, x: Reg) {
    body != [] && if Direct(body[0], x) then body[0].Load? else LoadNext(body[1..], x)
  }

  /** The last access to the slot is a store. */
  predicate StoreLast(body: seq<Instr>, x: Reg) {
    body != [] && if Direct(body[|body| - 1], x) then body[|body| - 1].Store? else StoreLast(body[..|body| - 1], x)
  }

  predicate StoresTo(body: seq<Instr>, x: Reg) {
    exists k :: 0 <= k < |body| && body[k].Store? && body[k].addr == Var(x)
  }

  predicate IsSlot(f: Function, x: Reg) {
    exists b, k :: b in f.blocks && 0 <= k < |f.blocks[b].body| && f.blocks[b].body[k] == Alloca(x)
  }

  // ---- Well-formed functions ----

  predicate HasInstr(f: Function, b: Label, k: int) {
    b in f.blocks && 0 <= k < |f.blocks[b].body|
  }

  function InstrAt(f: Function, b: Label, k: int): Instr
    requires HasInstr(f, b, k)
  {
    f.blocks[b].body[k]
  }

  predicate PlainOperand(o: Operand) {
    o.Imm? && o.v.Ptr? ==> o.v.loc.Global?
  }

  /** The address of a slot occurs only as the register of its `alloca`. */
  predicate PlainInstr(i: Instr) {
    match i
    case Compute(_, _, args) => forall k :: 0 <= k < |args| ==> PlainOperand(args[k])
    case Alloca(_) => true
    case Load(_, addr) => PlainOperand(addr)
    case Store(val, addr) => PlainOperand(val) && PlainOperand(addr)
    case Call(_, _, args) => forall k :: 0 <= k < |args| ==> PlainOperand(args[k])
  }

  predicate PlainTerm(t: Term) {
    match t
    case Br(_) => true
    case CondBr(c, _, _) => PlainOperand(c)
    case Ret(v) => PlainOperand(v)
  }

  /** Every register is defined by at most one instruction. */
  ghost predicate SingleDefs(f: Function) {
    forall b, k, b', k', r {:trigger Defines(InstrAt(f, b, k), r), Defines(InstrAt(f, b', k'), r)} ::
      HasInstr(f, b, k) && HasInstr(f, b', k') && Defines(InstrAt(f, b, k), r) && Defines(InstrAt(f, b', k'), r)
      ==> b == b' && k == k'
  }

  ghost predicate WellFormed(f: Function) {
    && Closed(f)
    && (forall i, j :: 0 <= i < j < |f.layout| ==> f.layout[i] != f.layout[j])
    && (forall b :: b in f.layout <==> b in f.blocks)
    && SingleDefs(f)
    && (forall b, k :: HasInstr(f, b, k) ==> PlainInstr(InstrAt(f, b, k)))
    && (forall b :: b in f.blocks ==> PlainTerm(f.blocks[b].term))
  }

  // ---- The four rewrites ----

  function Without(body: seq<Instr>, k: nat): seq<Instr>
    requires k < |body|
  {
    body[..k] + body[k + 1..]
  }

  function SetBlock(f: Function, b: Label, block: Block): Function {
    f.(blocks := f.blocks[b := block])
  }

  function WithBody(f: Function, b: Label, body: seq<Instr>): Function
    requires b in f.blocks
  {
    SetBlock(f, b, f.blocks[b].(body := body))
  }

  function Erase(f: Function, b: Label, k: nat): Function
    requires HasInstr(f, b, k)
  {
    SetBlock(f, b, f.blocks[b].(body := Without(f.blocks[b].body, k)))
  }

  /** `isInstructionTriviallyDead`: nothing uses the result, and there is no other effect. */
  predicate TriviallyDead(f: Function, b: Label, k: nat)
    requires HasInstr(f, b, k)
  {
    var i := InstrAt(f, b, k);
    (i.Compute? || i.Alloca? || i.Load?) && Uses(f, i.dst) == 0
  }

  /** A conditional branch with identical successors. */
  predicate Foldable(f: Function, b: Label) {
    b in f.blocks && f.blocks[b].term.CondBr? && f.blocks[b].term.yes == f.blocks[b].term.no
  }

  function Fold(f: Function, b: Label): Function
    requires Foldable(f, b)
  {
    SetBlock(f, b, f.blocks[b].(term := Br(f.blocks[b].term.yes)))
  }

  /** An empty block, other than the entry, that branches to another block. */
  predicate Forwarder(f: Function, b: Label) {
    && b in f.blocks && f.layout != [] && b != f.layout[0]
    && f.blocks[b].body == [] && f.blocks[b].term.Br? && f.blocks[b].term.to != b
  }

  function Redirect(t: Term, b: Label, to: Label): Term {
    match t
    case Br(l) => Br(if l == b then to else l)
    case CondBr(c, yes, no) => CondBr(c, if yes == b then to else yes, if no == b then to else no)
    case Ret(v) => Ret(v)
  }

  function Drop(layout: seq<Label>, b: Label): seq<Label> {
    if layout == [] then [] else (if layout[0] == b then [] else [layout[0]]) + Drop(layout[1..], b)
  }

  /** `TryToSimplifyUncondBranchFromEmptyBlock` on a function without phis: the predecessors of the
      block branch to its successor, and the block goes. */
  function Forward(f: Function, b: Label): Function
    requires Forwarder(f, b)
  {
    var to := f.blocks[b].term.to;
    Function(Drop(f.layout, b),
             map l | l in f.blocks && l != b :: f.blocks[l].(term := Redirect(f.blocks[l].term, b, to)))
  }

  /** All uses of slot `x` are direct accesses in block `b`: `Slot->getNumUses() == Insts.size()`. */
  predicate Eligible(f: Function, b: Label, x: Reg) {
    b in f.blocks && IsSlot(f, x) && Uses(f, x) == Accesses(f.blocks[b].body, x)
  }

  /** A store to an eligible slot that no load reads before the next store or the end of the block. */
  predicate DeadStore(f: Function, b: Label, k: nat, x: Reg)
    requires HasInstr(f, b, k)
  {
    && Eligible(f, b, x)
    && InstrAt(f, b, k).Store? && InstrAt(f, b, k).addr == Var(x)
    && !LoadNext(f.blocks[b].body[k + 1..], x)
  }

  // ---- Where removing a store at the end of a block is safe ----

  /** No path leads from the end of block `b` back to it. */
  ghost predicate NeverReentered(f: Function, b: Label) {
    exists after: set<Label> :: ClosedUnder(f, after) && b !in after && b in f.blocks && Targets(f.blocks[b].term) <= after
  }

  ghost predicate ClosedUnder(f: Function, after: set<Label>) {
    forall c :: c in after && c in f.blocks ==> Targets(f.blocks[c].term) <= after
  }

  /** A block that can run again starts by loading the slot and ends by storing to it: one run of the block
      hands a value to the next. */
  ghost predicate Carried(f: Function, b: Label, x: Reg) {
    b in f.blocks && !NeverReentered(f, b) && LoadNext(f.blocks[b].body, x) && StoreLast(f.blocks[b].body, x)
  }

  /** One rewrite of the pass. */
  ghost predicate Rewrites(f: Function, g: Function) {
    || (exists b, k :: HasInstr(f, b, k) && TriviallyDead(f, b, k) && g == Erase(f, b, k))
    || (exists b :: Foldable(f, b) && g == Fold(f, b))
    || (exists b :: Forwarder(f, b) && g == Forward(f, b))
    || (exists b, k, x :: HasInstr(f, b, k) && DeadStore(f, b, k, x) && g == Erase(f, b, k))
  }

  ghost predicate Chain(fs: seq<Function>) {
    forall i :: 0 <= i < |fs| - 1 ==> Rewrites(fs[i], fs[i + 1])
  }

  /** Any number of rewrites, in any order, lead from `f` to `g`. */
  ghost predicate Derived(f: Function, g: Function) {
    exists fs :: fs != [] && Chain(fs) && fs[0] == f && fs[|fs| - 1] == g
  }

  /** No slot that the pass may come to select carries a value from one run of its block to the next. */
  ghost predicate Sweepable(f: Function) {
    forall g, b, x :: Derived(f, g) && Eligible(g, b, x) ==> !Carried(g, b, x)
  }

  ghost predicate Good(f: Function) {
    WellFormed(f) && Sweepable(f)
  }
}
