/**
A condition on the text of a function under which the pass never selects a slot that carries a value from
one run of its block to the next: every slot that a block loads first and stores to has a use elsewhere
that no rewrite removes.
*/
module DceSafety {
  import opened Options
  import opened Ir
  import opened DceRewrites
  import opened DceSimulation
  import opened DceBlocks
  import opened DcePreserve

  /** The instruction stores to a stack slot of the function: some round may remove it. */
  predicate StoresSlot(f: Function, i: Instr) {
    i.Store? && i.addr.Var? && IsSlot(f, i.addr.reg)
  }

  /** The instruction uses the register, and stays as long as the registers of `pinned` are used. */
  predicate LastingUse(f: Function, pinned: set<Reg>, i: Instr, r: Reg) {
    match i
    case Call(_, _, args) => Var(r) in args
    case Store(val, addr) => (val == Var(r) || addr == Var(r)) && !StoresSlot(f, i)
    case Compute(dst, _, args) => Var(r) in args && dst in pinned
    case Load(dst, addr) => addr == Var(r) && dst in pinned
    case Alloca(_) => false
  }

  ghost predicate UsedForGood(f: Function, pinned: set<Reg>, r: Reg) {
    || (exists c, k :: HasInstr(f, c, k) && LastingUse(f, pinned, InstrAt(f, c, k), r))
    || (exists c :: c in f.blocks && f.blocks[c].term == Ret(Var(r)))
  }

  /** Registers that keep each other in use, down to calls, returns and stores to other memory. */
  ghost predicate Pinned(f: Function, pinned: set<Reg>) {
    forall r :: r in pinned ==> UsedForGood(f, pinned, r)
  }

  /** A block that can run again starts by loading the slot, and stores to it. */
  ghost predicate LoopCarried(f: Function, b: Label, x: Reg) {
    && b in f.blocks && !NeverReentered(f, b)
    && LoadNext(f.blocks[b].body, x) && StoresTo(f.blocks[b].body, x)
  }

  /** The slot is stored to in another block too, or has a lasting use that is no access of this block. */
  ghost predicate Anchored(f: Function, pinned: set<Reg>, b: Label, x: Reg) {
    || (exists c :: c in f.blocks && c != b && StoresTo(f.blocks[c].body, x))
    || (exists c, k :: HasInstr(f, c, k) && LastingUse(f, pinned, InstrAt(f, c, k), x) && !(c == b && Direct(InstrAt(f, c, k), x)))
    || (exists c :: c in f.blocks && f.blocks[c].term == Ret(Var(x)))
  }

  ghost predicate SafeWith(f: Function, pinned: set<Reg>) {
    && Pinned(f, pinned)
    && forall b, x :: LoopCarried(f, b, x) ==> Anchored(f, pinned, b, x)
  }

  /** No slot carries a value around a loop in one block only. */
  ghost predicate LoopSafe(f: Function) {
    exists pinned: set<Reg> :: SafeWith(f, pinned)
  }

  // ---- An anchored slot is not selected ----

  lemma {:induction false} SomeUse(os: seq<Operand>, r: Reg)
    ensures Var(r) in os <==> OperandUses(os, r) > 0
  {
    if os != [] { SomeUse(os[1..], r); }
  }

  lemma UseCounts(f: Function, pinned: set<Reg>, i: Instr, r: Reg)
    requires LastingUse(f, pinned, i, r)
    ensures InstrUses(i, r) > 0
  {
    match i
    case Call(_, _, args) => SomeUse(args, r);
    case Compute(_, _, args) => SomeUse(args, r);
    case Load(_, addr) => SomeUse([addr], r);
    case Store(val, addr) =>
      SomeUse([val], r);
      SomeUse([addr], r);
  }

  lemma PrivateNotAnchored(f: Function, pinned: set<Reg>, b: Label, x: Reg)
    requires PrivateTo(f, b, x)
    ensures !Anchored(f, pinned, b, x)
  {
    forall c | c in f.blocks && c != b ensures !StoresTo(f.blocks[c].body, x) {
      forall k | 0 <= k < |f.blocks[c].body| ensures !(f.blocks[c].body[k].Store? && f.blocks[c].body[k].addr == Var(x)) {
        if Direct(f.blocks[c].body[k], x) { DirectCounts(f.blocks[c].body[k], x); }
      }
    }
    forall c, k | HasInstr(f, c, k) && LastingUse(f, pinned, InstrAt(f, c, k), x) ensures c == b && Direct(InstrAt(f, c, k), x) {
      assert SlotInstr(f.blocks[c].body[k], x);
      UseCounts(f, pinned, InstrAt(f, c, k), x);
    }
    forall c | c in f.blocks ensures f.blocks[c].term != Ret(Var(x)) {
      SomeUse([Var(x)], x);
      assert [Var(x)][0] == Var(x);
    }
  }

  lemma {:induction false} StoreLastStores(body: seq<Instr>, x: Reg)
    requires StoreLast(body, x)
    ensures StoresTo(body, x)
  {
    var n := |body| - 1;
    if !Direct(body[n], x) {
      StoreLastStores(body[..n], x);
      var k :| 0 <= k < n && body[..n][k].Store? && body[..n][k].addr == Var(x);
      assert body[k] == body[..n][k];
    } else {
      assert body[n].Store? && body[n].addr == Var(x);
    }
  }

  lemma NotCarried(f: Function, pinned: set<Reg>, b: Label, x: Reg)
    requires WellFormed(f) && SafeWith(f, pinned) && Eligible(f, b, x)
    ensures !Carried(f, b, x)
  {
    EligibleIsPrivate(f, b, x);
    PrivateNotAnchored(f, pinned, b, x);
    if Carried(f, b, x) {
      StoreLastStores(f.blocks[b].body, x);
    }
  }

  // ---- Rewrites keep lasting uses ----

  /** Every lasting use of `f` is one of `g`, at a place in the same block. */
  ghost predicate KeepsUses(f: Function, g: Function, pinned: set<Reg>) {
    && (forall c, k, r :: HasInstr(f, c, k) && LastingUse(f, pinned, InstrAt(f, c, k), r) ==> Appears(g, c, InstrAt(f, c, k)))
    && (forall x :: IsSlot(g, x) ==> IsSlot(f, x))
    && (forall c, r :: c in f.blocks && f.blocks[c].term == Ret(Var(r)) ==> c in g.blocks && g.blocks[c].term == Ret(Var(r)))
  }

  ghost predicate Appears(g: Function, c: Label, i: Instr) {
    exists k :: HasInstr(g, c, k) && InstrAt(g, c, k) == i
  }

  lemma StillLasting(f: Function, g: Function, pinned: set<Reg>, i: Instr, r: Reg)
    requires LastingUse(f, pinned, i, r) && forall x :: IsSlot(g, x) ==> IsSlot(f, x)
    ensures LastingUse(g, pinned, i, r)
  {
    hide IsSlot;
  }

  lemma StillPinned(f: Function, g: Function, pinned: set<Reg>)
    requires Pinned(f, pinned) && KeepsUses(f, g, pinned)
    ensures Pinned(g, pinned)
  {
    hide LastingUse, IsSlot;
    forall r | r in pinned ensures UsedForGood(g, pinned, r) {
      assert UsedForGood(f, pinned, r);
      if exists c, k :: HasInstr(f, c, k) && LastingUse(f, pinned, InstrAt(f, c, k), r) {
        var c, k :| HasInstr(f, c, k) && LastingUse(f, pinned, InstrAt(f, c, k), r);
        assert Appears(g, c, InstrAt(f, c, k));
        var j :| HasInstr(g, c, j) && InstrAt(g, c, j) == InstrAt(f, c, k);
        StillLasting(f, g, pinned, InstrAt(f, c, k), r);
        assert LastingUse(g, pinned, InstrAt(g, c, j), r);
      }
    }
  }

  lemma StillAnchored(f: Function, g: Function, pinned: set<Reg>, b: Label, x: Reg)
    requires Anchored(f, pinned, b, x) && KeepsUses(f, g, pinned)
    requires forall c :: c in f.blocks && StoresTo(f.blocks[c].body, x) ==> c in g.blocks && StoresTo(g.blocks[c].body, x)
    ensures Anchored(g, pinned, b, x)
  {
    hide LastingUse, IsSlot, StoresTo, Direct;
    if exists c, k :: HasInstr(f, c, k) && LastingUse(f, pinned, InstrAt(f, c, k), x) && !(c == b && Direct(InstrAt(f, c, k), x)) {
      var c, k :| HasInstr(f, c, k) && LastingUse(f, pinned, InstrAt(f, c, k), x) && !(c == b && Direct(InstrAt(f, c, k), x));
      assert Appears(g, c, InstrAt(f, c, k));
      var j :| HasInstr(g, c, j) && InstrAt(g, c, j) == InstrAt(f, c, k);
      StillLasting(f, g, pinned, InstrAt(f, c, k), x);
      assert HasInstr(g, c, j) && LastingUse(g, pinned, InstrAt(g, c, j), x) && !(c == b && Direct(InstrAt(g, c, j), x));
    }
  }

  lemma ErasedSlots(f: Function, b: Label, k: nat, x: Reg)
    requires HasInstr(f, b, k) && IsSlot(Erase(f, b, k), x)
    ensures IsSlot(f, x)
  {
    var g := Erase(f, b, k);
    var c, j :| c in g.blocks && 0 <= j < |g.blocks[c].body| && g.blocks[c].body[j] == Alloca(x);
    assert HasInstr(g, c, j);
    ErasedInstr(f, b, k, c, j);
    var i := if c == b then Before(j, k) else j;
    assert f.blocks[c].body[i] == Alloca(x);
  }

  /** Erasing an instruction that is no lasting use keeps all that are. */
  lemma EraseKeepsUses(f: Function, b: Label, k: nat, pinned: set<Reg>)
    requires HasInstr(f, b, k) && forall r :: !LastingUse(f, pinned, InstrAt(f, b, k), r)
    ensures KeepsUses(f, Erase(f, b, k), pinned)
  {
    hide LastingUse, IsSlot;
    var g := Erase(f, b, k);
    forall x | IsSlot(g, x) ensures IsSlot(f, x) { ErasedSlots(f, b, k, x); }
    forall c, j, r | HasInstr(f, c, j) && LastingUse(f, pinned, InstrAt(f, c, j), r) ensures Appears(g, c, InstrAt(f, c, j)) {
      var j' := if c == b && j > k then j - 1 else j;
      assert HasInstr(g, c, j') && InstrAt(g, c, j') == InstrAt(f, c, j);
    }
  }

  /** A dead instruction is no lasting use: its register would be used. */
  lemma DeadNotLasting(f: Function, b: Label, k: nat, pinned: set<Reg>, r: Reg)
    requires WellFormed(f) && Pinned(f, pinned) && HasInstr(f, b, k) && TriviallyDead(f, b, k)
    ensures !LastingUse(f, pinned, InstrAt(f, b, k), r)
  {
    var dst := InstrAt(f, b, k).dst;
    UnusedRegister(f, dst);
    if dst in pinned {
      assert UsedForGood(f, pinned, dst);
      if exists c, j :: HasInstr(f, c, j) && LastingUse(f, pinned, InstrAt(f, c, j), dst) {
        var c, j :| HasInstr(f, c, j) && LastingUse(f, pinned, InstrAt(f, c, j), dst);
        UseCounts(f, pinned, InstrAt(f, c, j), dst);
      } else {
        assert [Var(dst)][0] == Var(dst);
        SomeUse([Var(dst)], dst);
      }
    }
  }

  // ---- Rewrites keep the condition ----

  lemma WithoutStores(body: seq<Instr>, k: nat, x: Reg)
    requires k < |body|
    ensures StoresTo(Without(body, k), x) ==> StoresTo(body, x)
    ensures StoresTo(body, x) && !(body[k].Store? && body[k].addr == Var(x)) ==> StoresTo(Without(body, k), x)
  {
    if StoresTo(Without(body, k), x) {
      var j :| 0 <= j < |Without(body, k)| && Without(body, k)[j].Store? && Without(body, k)[j].addr == Var(x);
      assert body[Before(j, k)] == Without(body, k)[j];
    }
    if StoresTo(body, x) && !(body[k].Store? && body[k].addr == Var(x)) {
      var j :| 0 <= j < |body| && body[j].Store? && body[j].addr == Var(x);
      assert Without(body, k)[if j < k then j else j - 1] == body[j];
    }
  }

  lemma EraseLoopCarried(f: Function, b: Label, k: nat, c: Label, x: Reg)
    requires HasInstr(f, b, k) && LoopCarried(Erase(f, b, k), c, x)
    requires var i := InstrAt(f, b, k); i.Store? && i.addr == Var(x) ==> !LoadNext(f.blocks[b].body[k + 1..], x)
    ensures LoopCarried(f, c, x)
  {
    SameGraph(f, Erase(f, b, k), c);
    if c == b {
      LoadNextWithout(f.blocks[b].body, k, x);
      WithoutStores(f.blocks[b].body, k, x);
    }
  }

  lemma EraseDeadSafe(f: Function, b: Label, k: nat, pinned: set<Reg>)
    requires WellFormed(f) && SafeWith(f, pinned) && HasInstr(f, b, k) && TriviallyDead(f, b, k)
    ensures SafeWith(Erase(f, b, k), pinned)
  {
    hide LastingUse, LoopCarried, Anchored, Pinned, WellFormed;
    forall r ensures !LastingUse(f, pinned, InstrAt(f, b, k), r) { DeadNotLasting(f, b, k, pinned, r); }
    EraseKeepsUses(f, b, k, pinned);
    StillPinned(f, Erase(f, b, k), pinned);
    forall c, x | LoopCarried(Erase(f, b, k), c, x) ensures Anchored(Erase(f, b, k), pinned, c, x) {
      EraseLoopCarried(f, b, k, c, x);
      WithoutStores(f.blocks[b].body, k, x);
      StillAnchored(f, Erase(f, b, k), pinned, c, x);
    }
  }

  lemma EraseStoreSafe(f: Function, b: Label, k: nat, x: Reg, pinned: set<Reg>)
    requires WellFormed(f) && SafeWith(f, pinned) && HasInstr(f, b, k) && DeadStore(f, b, k, x)
    ensures SafeWith(Erase(f, b, k), pinned)
  {
    EligibleIsPrivate(f, b, x);
    PrivateNotAnchored(f, pinned, b, x);
    forall r ensures !LastingUse(f, pinned, InstrAt(f, b, k), r) { }
    EraseKeepsUses(f, b, k, pinned);
    StillPinned(f, Erase(f, b, k), pinned);
    forall c, y | LoopCarried(Erase(f, b, k), c, y) ensures Anchored(Erase(f, b, k), pinned, c, y) {
      EraseLoopCarried(f, b, k, c, y);
      CarriedThere(f, b, c, x, y);
      WithoutStores(f.blocks[b].body, k, y);
      hide Anchored, LoopCarried, LastingUse, KeepsUses, PrivateTo, StoresTo, Pinned, WellFormed;
      StillAnchored(f, Erase(f, b, k), pinned, c, y);
    }
  }

  lemma CarriedThere(f: Function, b: Label, c: Label, x: Reg, y: Reg)
    requires PrivateTo(f, b, x) && LoopCarried(f, c, y)
    ensures y == x ==> c == b
  {
    if c != b { UnusedNoAccess(f.blocks[c].body, x); }
  }

  /** Functions with the same nonempty bodies and the same returns have the same lasting uses. */
  lemma SameBodiesSafe(f: Function, g: Function, pinned: set<Reg>)
    requires SafeWith(f, pinned)
    requires forall d :: d in f.blocks && f.blocks[d].body != [] ==> d in g.blocks && g.blocks[d].body == f.blocks[d].body
    requires forall d :: d in g.blocks ==> d in f.blocks && g.blocks[d].body == f.blocks[d].body
    requires forall d :: d in f.blocks && f.blocks[d].term.Ret? ==> d in g.blocks && g.blocks[d].term == f.blocks[d].term
    requires forall d :: d in g.blocks && NeverReentered(f, d) ==> NeverReentered(g, d)
    ensures SafeWith(g, pinned)
  {
    hide LastingUse, NeverReentered, Pinned, Anchored;
    assert KeepsUses(f, g, pinned) by {
      forall c, k, r | HasInstr(f, c, k) && LastingUse(f, pinned, InstrAt(f, c, k), r) ensures Appears(g, c, InstrAt(f, c, k)) {
        assert HasInstr(g, c, k) && InstrAt(g, c, k) == InstrAt(f, c, k);
      }
    }
    StillPinned(f, g, pinned);
    forall c, x | LoopCarried(g, c, x) ensures Anchored(g, pinned, c, x) {
      assert LoopCarried(f, c, x);
      StillAnchored(f, g, pinned, c, x);
    }
  }

  lemma FoldSafe(f: Function, b: Label, pinned: set<Reg>)
    requires SafeWith(f, pinned) && Foldable(f, b)
    ensures SafeWith(Fold(f, b), pinned)
  {
    forall c | c in f.blocks && NeverReentered(f, c) ensures NeverReentered(Fold(f, b), c) { SameGraph(f, Fold(f, b), c); }
    hide SafeWith, NeverReentered;
    SameBodiesSafe(f, Fold(f, b), pinned);
  }

  lemma ForwardGraph(f: Function, b: Label, c: Label)
    requires Closed(f) && Forwarder(f, b) && c != b
    ensures NeverReentered(f, c) ==> NeverReentered(Forward(f, b), c)
  {
    if NeverReentered(f, c) {
      var g, to := Forward(f, b), f.blocks[b].term.to;
      var after: set<Label> :| ClosedUnder(f, after) && c !in after && c in f.blocks && Targets(f.blocks[c].term) <= after;
      forall d | (d in after - {b} || d == c) && d in g.blocks ensures Targets(g.blocks[d].term) <= after - {b} {
        forall t | t in Targets(g.blocks[d].term) ensures t in after - {b} {
          RedirectTargets(f.blocks[d].term, b, to, t);
          assert Targets(f.blocks[d].term) <= after;
          if b in Targets(f.blocks[d].term) { assert to in Targets(f.blocks[b].term); }
        }
      }
      assert ClosedUnder(g, after - {b});
    }
  }

  lemma ForwardSafe(f: Function, b: Label, pinned: set<Reg>)
    requires Closed(f) && SafeWith(f, pinned) && Forwarder(f, b)
    ensures SafeWith(Forward(f, b), pinned)
  {
    forall c | c in Forward(f, b).blocks && NeverReentered(f, c) ensures NeverReentered(Forward(f, b), c) { ForwardGraph(f, b, c); }
    hide SafeWith, NeverReentered;
    SameBodiesSafe(f, Forward(f, b), pinned);
  }

  lemma RewriteSafe(f: Function, g: Function, pinned: set<Reg>)
    requires WellFormed(f) && SafeWith(f, pinned) && Rewrites(f, g)
    ensures WellFormed(g) && SafeWith(g, pinned)
  {
    hide SafeWith, WellFormed;
    assert Closed(f) by { FormedClosed(f); }
    if b, k :| HasInstr(f, b, k) && TriviallyDead(f, b, k) && g == Erase(f, b, k) {
      EraseWellFormed(f, b, k);
      EraseDeadSafe(f, b, k, pinned);
    } else if b :| Foldable(f, b) && g == Fold(f, b) {
      FoldWellFormed(f, b);
      FoldSafe(f, b, pinned);
    } else if b :| Forwarder(f, b) && g == Forward(f, b) {
      ForwardWellFormed(f, b);
      ForwardSafe(f, b, pinned);
    } else {
      var b, k, x :| HasInstr(f, b, k) && DeadStore(f, b, k, x) && g == Erase(f, b, k);
      EraseWellFormed(f, b, k);
      EraseStoreSafe(f, b, k, x, pinned);
    }
  }

  lemma FormedClosed(f: Function)
    requires WellFormed(f)
    ensures Closed(f)
  {
  }

  lemma {:induction false} ChainSafe(fs: seq<Function>, pinned: set<Reg>, i: nat)
    requires i < |fs| && Chain(fs) && WellFormed(fs[0]) && SafeWith(fs[0], pinned)
    ensures WellFormed(fs[i]) && SafeWith(fs[i], pinned)
  {
    hide SafeWith, WellFormed, Rewrites;
    if i > 0 {
      ChainSafe(fs, pinned, i - 1);
      RewriteSafe(fs[i - 1], fs[i], pinned);
    }
  }

  /** The condition on the text suffices, whatever the pass does in whatever order. */
  lemma LoopSafeSuffices(f: Function)
    requires WellFormed(f) && LoopSafe(f)
    ensures Good(f)
  {
    hide SafeWith, WellFormed, Rewrites, Chain, Eligible, Carried;
    var pinned: set<Reg> :| SafeWith(f, pinned);
    forall g, b, x | Derived(f, g) && Eligible(g, b, x) ensures !Carried(g, b, x) {
      var fs :| fs != [] && Chain(fs) && fs[0] == f && fs[|fs| - 1] == g;
      ChainSafe(fs, pinned, |fs| - 1);
      NotCarried(g, pinned, b, x);
    }
  }

  // ---- A loop that the pass leaves alone ----

  /** `x = alloca; loop: v = load x; c = call 0(v); store 7, x; br c, loop, exit; exit: r = load x; ret r`. */
  function LoadedAfter(): Function {
    Function([0, 1, 2], map[
      0 := Block([Alloca(1)], Br(1)),
      1 := Block([Load(2, Var(1)), Call(3, 0, [Var(2)]), Store(Imm(Int(7)), Var(1))], CondBr(Var(3), 1, 2)),
      2 := Block([Load(4, Var(1))], Ret(Var(4)))])
  }

  lemma LoadedAfterInstr(b: Label, k: int)
    requires HasInstr(LoadedAfter(), b, k)
    ensures PlainInstr(InstrAt(LoadedAfter(), b, k))
    ensures forall r :: Defines(InstrAt(LoadedAfter(), b, k), r) ==> r == (if b == 0 then 1 else if b == 1 then k + 2 else 4)
    ensures b != 1 ==> k == 0
    ensures b == 1 && k == 2 ==> InstrAt(LoadedAfter(), b, k).Store?
  {
  }

  lemma LoadedAfterFormed()
    ensures WellFormed(LoadedAfter())
  {
    var f := LoadedAfter();
    forall b, k | HasInstr(f, b, k) ensures PlainInstr(InstrAt(f, b, k)) { LoadedAfterInstr(b, k); }
    forall b, k, b', k', r | HasInstr(f, b, k) && HasInstr(f, b', k') && Defines(InstrAt(f, b, k), r) && Defines(InstrAt(f, b', k'), r)
      ensures b == b' && k == k'
    {
      LoadedAfterInstr(b, k);
      LoadedAfterInstr(b', k');
    }
  }

  /** A slot that is also loaded in another block may be carried around a loop. */
  lemma LoadedAfterAllowed()
    ensures Good(LoadedAfter())
  {
    var f := LoadedAfter();
    LoadedAfterFormed();
    assert HasInstr(f, 2, 0) && LastingUse(f, {4}, InstrAt(f, 2, 0), 1);
    assert f.blocks[2].term == Ret(Var(4));
    hide NeverReentered;
    assert SafeWith(f, {4});
    hide SafeWith, WellFormed;
    LoopSafeSuffices(f);
  }
}
