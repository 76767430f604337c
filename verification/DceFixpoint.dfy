/**
What is left when no stage of the pass has anything to do, said of the operands, branches and stores of the
function itself: no instruction without effect whose register no operand names, no branch to one place on
both sides, no block that only forwards, and no store that no load reads.
*/
module DceFixpoint {
  import opened Ir
  import opened DceRewrites
  import opened DceSimulation
  import opened DceBlocks
  import opened DcePreserve
  import opened DceStores

  // ---- What the stages look for ----

  ghost predicate NoneDead(f: Function) {
    forall b, k :: HasInstr(f, b, k) ==> !TriviallyDead(f, b, k)
  }

  ghost predicate NoneUseless(f: Function) {
    forall b :: b in f.blocks ==> !Foldable(f, b) && !Forwarder(f, b)
  }

  ghost predicate NoneStale(f: Function) {
    forall b, k, x :: HasInstr(f, b, k) ==> !DeadStore(f, b, k, x)
  }

  // ---- Operands ----

  function Operands(i: Instr): seq<Operand> {
    match i
    case Compute(_, _, args) => args
    case Alloca(_) => []
    case Load(_, addr) => [addr]
    case Store(val, addr) => [val, addr]
    case Call(_, _, args) => args
  }

  function TermOperands(t: Term): seq<Operand> {
    match t
    case Br(_) => []
    case CondBr(c, _, _) => [c]
    case Ret(v) => [v]
  }

  predicate InstrNames(i: Instr, r: Reg) {
    Var(r) in Operands(i)
  }

  predicate TermNames(t: Term, r: Reg) {
    Var(r) in TermOperands(t)
  }

  /** Some operand of the function names the register. */
  ghost predicate Named(f: Function, r: Reg) {
    || (exists b, k :: HasInstr(f, b, k) && InstrNames(InstrAt(f, b, k), r))
    || (exists b :: b in f.blocks && TermNames(f.blocks[b].term, r))
  }

  lemma {:induction false} OperandsCounted(os: seq<Operand>, r: Reg)
    ensures OperandUses(os, r) > 0 <==> Var(r) in os
  {
    if os != [] { OperandsCounted(os[1..], r); }
  }

  lemma InstrCounted(i: Instr, r: Reg)
    ensures InstrUses(i, r) > 0 <==> InstrNames(i, r)
  {
    match i
    case Compute(_, _, args) => OperandsCounted(args, r);
    case Alloca(_) =>
    case Load(_, addr) => OperandsCounted([addr], r);
    case Store(val, addr) => { OperandsCounted([val], r); OperandsCounted([addr], r); }
    case Call(_, _, args) => OperandsCounted(args, r);
  }

  lemma TermCounted(t: Term, r: Reg)
    ensures TermUses(t, r) > 0 <==> TermNames(t, r)
  {
    OperandsCounted(TermOperands(t), r);
  }

  lemma {:induction false} BodyCounted(body: seq<Instr>, r: Reg)
    ensures BodyUses(body, r) > 0 <==> exists k :: 0 <= k < |body| && InstrNames(body[k], r)
  {
    hide InstrNames, InstrUses;
    if body != [] {
      InstrCounted(body[0], r);
      BodyCounted(body[1..], r);
      forall k | 1 <= k < |body| ensures body[k] == body[1..][k - 1] { }
      if exists k :: 0 <= k < |body[1..]| && InstrNames(body[1..][k], r) {
        var k :| 0 <= k < |body[1..]| && InstrNames(body[1..][k], r);
        assert InstrNames(body[k + 1], r);
      }
    }
  }

  lemma {:induction false} LayoutCounted(f: Function, layout: seq<Label>, r: Reg)
    ensures LayoutUses(f, layout, r) > 0 <==> exists b :: b in layout && PartUses(f, b, r) > 0
  {
    hide BodyUses, TermUses;
    if layout != [] {
      LayoutCounted(f, layout[1..], r);
      assert LayoutUses(f, layout, r) == PartUses(f, layout[0], r) + LayoutUses(f, layout[1..], r);
      hide PartUses;
      if b :| b in layout && PartUses(f, b, r) > 0 { assert b == layout[0] || b in layout[1..]; }
    }
  }

  /** A register has a use exactly if some operand names it. */
  lemma UsesExactly(f: Function, r: Reg)
    requires WellFormed(f)
    ensures Uses(f, r) > 0 <==> Named(f, r)
  {
    LayoutCounted(f, f.layout, r);
    forall b | b in f.blocks ensures PartUses(f, b, r) > 0 <==> NamedIn(f, b, r) {
      BodyCounted(f.blocks[b].body, r);
      TermCounted(f.blocks[b].term, r);
      hide InstrNames, TermNames, BodyUses, TermUses;
      forall k ensures HasInstr(f, b, k) && InstrNames(InstrAt(f, b, k), r) <==> 0 <= k < |f.blocks[b].body| && InstrNames(f.blocks[b].body[k], r) { }
    }
    NamedSomewhere(f, r);
  }

  ghost predicate NamedIn(f: Function, b: Label, r: Reg) {
    b in f.blocks && ((exists k :: HasInstr(f, b, k) && InstrNames(InstrAt(f, b, k), r)) || TermNames(f.blocks[b].term, r))
  }

  lemma NamedSomewhere(f: Function, r: Reg)
    ensures Named(f, r) <==> exists b :: b in f.blocks && NamedIn(f, b, r)
  {
    hide InstrNames, TermNames;
    if exists b, k :: HasInstr(f, b, k) && InstrNames(InstrAt(f, b, k), r) {
      var b, k :| HasInstr(f, b, k) && InstrNames(InstrAt(f, b, k), r);
      assert NamedIn(f, b, r);
    }
  }

  // ---- No dead instruction ----

  /** Every instruction that neither stores nor calls defines a register that some operand names. */
  ghost predicate NothingDead(f: Function) {
    forall b, k :: HasInstr(f, b, k) && !InstrAt(f, b, k).Store? && !InstrAt(f, b, k).Call? ==> Named(f, InstrAt(f, b, k).dst)
  }

  lemma DeadExactly(f: Function)
    requires WellFormed(f)
    ensures NoneDead(f) <==> NothingDead(f)
  {
    forall b, k | HasInstr(f, b, k)
      ensures TriviallyDead(f, b, k) <==> !InstrAt(f, b, k).Store? && !InstrAt(f, b, k).Call? && !Named(f, InstrAt(f, b, k).dst)
    {
      if !InstrAt(f, b, k).Store? { UsesExactly(f, InstrAt(f, b, k).dst); }
    }
  }

  // ---- No useless branch or block ----

  /** No conditional branch has equal targets, and no block but the entry is empty and branches elsewhere. */
  ghost predicate NothingUseless(f: Function) {
    forall b :: b in f.blocks ==>
      match f.blocks[b].term
      case Br(to) => f.blocks[b].body == [] && f.layout != [] && b != f.layout[0] ==> to == b
      case CondBr(_, yes, no) => yes != no
      case Ret(_) => true
  }

  lemma UselessExactly(f: Function)
    ensures NoneUseless(f) <==> NothingUseless(f)
  {
  }

  // ---- No stale store ----

  /** All that an operand does with the address of slot `x` is to load from it and store to it in block `b`. */
  ghost predicate OwnSlot(f: Function, b: Label, x: Reg) {
    && (exists c, k :: HasInstr(f, c, k) && InstrAt(f, c, k) == Alloca(x))
    && (forall c, k :: HasInstr(f, c, k) && InstrNames(InstrAt(f, c, k), x) ==> c == b && Touches(InstrAt(f, c, k), x))
    && (forall c :: c in f.blocks ==> !TermNames(f.blocks[c].term, x))
  }

  /** A load from slot `x`, or a store of something else to it. */
  predicate Touches(i: Instr, x: Reg) {
    (i.Load? && i.addr == Var(x)) || (i.Store? && i.addr == Var(x) && i.val != Var(x))
  }

  /** A load reads the slot after the instruction at `k`, and no store to it comes in between. */
  ghost predicate ReadLater(body: seq<Instr>, k: int, x: Reg)
    requires k >= 0
  {
    exists j :: k < j < |body| && LoadsFrom(body[j], x) && forall i :: k < i < j ==> !StoresInto(body[i], x)
  }

  predicate LoadsFrom(i: Instr, x: Reg) {
    i.Load? && i.addr == Var(x)
  }

  predicate StoresInto(i: Instr, x: Reg) {
    i.Store? && i.addr == Var(x)
  }

  /** Every store to a slot of one block, whose address goes nowhere else, is followed by a load from it before
      the next store. */
  ghost predicate NothingStale(f: Function) {
    forall b, k, x :: HasInstr(f, b, k) && StoresInto(InstrAt(f, b, k), x) && OwnSlot(f, b, x) ==> ReadLater(f.blocks[b].body, k, x)
  }

  /** What eligibility counts is that the slot is the block's own. */
  lemma EligibleExactly(f: Function, b: Label, x: Reg)
    requires WellFormed(f) && b in f.blocks
    ensures Eligible(f, b, x) <==> OwnSlot(f, b, x)
  {
    if Eligible(f, b, x) { EligibleOwn(f, b, x); }
    if OwnSlot(f, b, x) { OwnEligible(f, b, x); }
  }

  lemma EligibleOwn(f: Function, b: Label, x: Reg)
    requires WellFormed(f) && Eligible(f, b, x)
    ensures OwnSlot(f, b, x)
  {
    EligibleIsPrivate(f, b, x);
    hide WellFormed, InstrNames, TermNames, InstrUses, TermUses, Uses, Accesses, PlainInstr;
    forall c, k | HasInstr(f, c, k) && InstrNames(InstrAt(f, c, k), x) ensures c == b && Touches(InstrAt(f, c, k), x) {
      var i := f.blocks[c].body[k];
      InstrCounted(i, x);
      assert SlotBody(f.blocks[c].body, x) && SlotInstr(i, x) && (c != b ==> Unused(f.blocks[c].body, x));
      if i.Store? && Direct(i, x) && InstrUses(i, x) == 1 { OtherOperand(i, x); }
    }
    forall c | c in f.blocks ensures !TermNames(f.blocks[c].term, x) { TermCounted(f.blocks[c].term, x); }
    SlotHere(f, x);
  }

  lemma SlotHere(f: Function, x: Reg)
    ensures IsSlot(f, x) <==> exists c, k :: HasInstr(f, c, k) && InstrAt(f, c, k) == Alloca(x)
  {
    if IsSlot(f, x) {
      var c, k :| c in f.blocks && 0 <= k < |f.blocks[c].body| && f.blocks[c].body[k] == Alloca(x);
      assert HasInstr(f, c, k) && InstrAt(f, c, k) == Alloca(x);
    }
  }

  lemma OwnEligible(f: Function, b: Label, x: Reg)
    requires WellFormed(f) && b in f.blocks && OwnSlot(f, b, x)
    ensures Eligible(f, b, x)
  {
    SlotHere(f, x);
    forall c | c in f.blocks ensures PartUses(f, c, x) == if c == b then Accesses(f.blocks[b].body, x) else 0 {
      OwnPart(f, b, x, c);
    }
    hide OwnSlot, PartUses, Accesses;
    OnePart(f, f.layout, b, x);
  }

  lemma OwnPart(f: Function, b: Label, x: Reg, c: Label)
    requires b in f.blocks && OwnSlot(f, b, x) && c in f.blocks
    ensures PartUses(f, c, x) == if c == b then Accesses(f.blocks[b].body, x) else 0
  {
    TermCounted(f.blocks[c].term, x);
    var body := f.blocks[c].body;
    forall k | 0 <= k < |body| ensures InstrNames(body[k], x) ==> c == b && Touches(body[k], x) { assert HasInstr(f, c, k) && InstrAt(f, c, k) == body[k]; }
    hide OwnSlot, InstrNames, Touches;
    if c == b { TouchesCounted(body, x); } else { BodyCounted(body, x); }
  }

  lemma {:induction false} TouchesCounted(body: seq<Instr>, x: Reg)
    requires forall k :: 0 <= k < |body| ==> InstrNames(body[k], x) ==> Touches(body[k], x)
    ensures BodyUses(body, x) == Accesses(body, x)
  {
    if body != [] {
      TouchesCounted(body[1..], x);
      InstrCounted(body[0], x);
      TouchedOnce(body[0], x);
    }
  }

  lemma TouchedOnce(i: Instr, x: Reg)
    requires InstrNames(i, x) ==> Touches(i, x)
    ensures InstrUses(i, x) == if Direct(i, x) then 1 else 0
  {
    InstrCounted(i, x);
    if Direct(i, x) { DirectCounts(i, x); }
    assert forall o: Operand :: OperandUses([o], x) == (if o == Var(x) then 1 else 0) + OperandUses([o][1..], x);
  }

  /** All uses lie in one block. */
  lemma {:induction false} OnePart(f: Function, layout: seq<Label>, b: Label, x: Reg)
    requires (forall i, j :: 0 <= i < j < |layout| ==> layout[i] != layout[j]) && b in f.blocks
    requires forall c :: c in f.blocks && c != b ==> PartUses(f, c, x) == 0
    ensures LayoutUses(f, layout, x) == if b in layout then PartUses(f, b, x) else 0
  {
    if layout != [] {
      OnePart(f, layout[1..], b, x);
      assert LayoutUses(f, layout, x) == PartUses(f, layout[0], x) + LayoutUses(f, layout[1..], x);
      hide PartUses;
      assert b in layout <==> b == layout[0] || b in layout[1..];
      assert layout[0] !in layout[1..];
      NoPart(f, layout[0], x);
    }
  }

  lemma NoPart(f: Function, b: Label, x: Reg)
    ensures b !in f.blocks ==> PartUses(f, b, x) == 0
  {
  }

  lemma LoadNextMeans(body: seq<Instr>, k: int, x: Reg)
    requires 0 <= k < |body|
    ensures LoadNext(body[k + 1..], x) <==> ReadLater(body, k, x)
  {
    var rest := body[k + 1..];
    LoadNextExactly(rest, x);
    hide LoadNext;
    assert forall j :: 0 <= j < |rest| ==> rest[j] == body[k + 1 + j];
    if j :| 0 <= j < |rest| && rest[j].Load? && Direct(rest[j], x) && forall i :: 0 <= i < j ==> !(rest[i].Store? && Direct(rest[i], x)) {
      assert LoadsFrom(body[k + 1 + j], x);
      forall i | k < i < k + 1 + j ensures !StoresInto(body[i], x) { assert body[i] == rest[i - k - 1]; }
    }
    if ReadLater(body, k, x) {
      var j :| k < j < |body| && LoadsFrom(body[j], x) && forall i :: k < i < j ==> !StoresInto(body[i], x);
      assert rest[j - k - 1] == body[j];
      forall i | 0 <= i < j - k - 1 ensures !(rest[i].Store? && Direct(rest[i], x)) { assert rest[i] == body[k + 1 + i] && !StoresInto(body[k + 1 + i], x); }
    }
  }

  lemma StaleExactly(f: Function)
    requires WellFormed(f)
    ensures NoneStale(f) <==> NothingStale(f)
  {
    hide WellFormed, OwnSlot, Eligible, LoadNext, ReadLater;
    forall b, k, x | HasInstr(f, b, k)
      ensures DeadStore(f, b, k, x) <==> StoresInto(InstrAt(f, b, k), x) && OwnSlot(f, b, x) && !ReadLater(f.blocks[b].body, k, x)
    {
      EligibleExactly(f, b, x);
      LoadNextMeans(f.blocks[b].body, k, x);
    }
  }

  /** The fixpoint of the pass, on every well-formed function: exactly when no stage has anything to do, every
      instruction without effect is used, no branch and no block is useless, and every store to a slot of one
      block is read. */
  lemma FixpointExactly(f: Function)
    requires WellFormed(f)
    ensures NoneDead(f) && NoneUseless(f) && NoneStale(f) <==> NothingDead(f) && NothingUseless(f) && NothingStale(f)
  {
    DeadExactly(f);
    UselessExactly(f);
    StaleExactly(f);
  }
}
