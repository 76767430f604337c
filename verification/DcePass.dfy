/**
The dead code elimination pass: three stages over a function that is changed in place, repeated until
a round changes nothing.
*/
module DcePass {
  import opened Options
  import opened Ir
  import opened DceRewrites
  import opened DcePreserve
  import opened DceMeasure
  import opened DceStores
  import opened DceFixpoint

  /** Where one stage has brought the function, given where it started. */
  ghost predicate Progress(f0: Function, changed0: bool, f: Function, changed: bool) {
    Improves(f0, f) && changed == (changed0 || f != f0)
  }

  lemma Begin(f: Function, changed: bool)
    requires Good(f)
    ensures Progress(f, changed, f, changed)
  {
    ImprovesReflexive(f);
  }

  /** One more rewrite that makes the function smaller. */
  lemma Rewrite(f0: Function, changed0: bool, f: Function, changed: bool, g: Function)
    requires Progress(f0, changed0, f, changed) && Improves(f, g) && Size(g) < Size(f)
    ensures Progress(f0, changed0, g, true) && g != f0
  {
    ImprovesTransitive(f0, f, g);
  }

  lemma Then(f0: Function, changed0: bool, f: Function, changed: bool, g: Function, changed': bool)
    requires Progress(f0, changed0, f, changed) && Progress(f, changed, g, changed')
    ensures Progress(f0, changed0, g, changed') && (g == f0 ==> f == f0)
  {
    ImprovesTransitive(f0, f, g);
  }

  class DeadCodeElimination {
    var fn: Function
    var changed: bool

    constructor (f: Function)
      ensures fn == f && !changed
    {
      fn := f;
      changed := false;
    }

    method EliminateDeadInstructions()
      requires Good(fn)
      modifies this
      ensures Progress(old(fn), old(changed), fn, changed)
      ensures fn == old(fn) ==> NoneDead(fn) && NothingDead(fn)
    {
      hide Improves, Good, TriviallyDead, NothingDead;
      ghost var f0, changed0 := fn, changed;
      Begin(fn, changed);
      var i := |fn.layout|;
      while i > 0
        invariant 0 <= i <= |fn.layout| && fn.layout == f0.layout
        invariant Progress(f0, changed0, fn, changed)
        invariant fn == f0 ==> forall j, k :: i <= j < |f0.layout| && HasInstr(f0, f0.layout[j], k) ==> !TriviallyDead(f0, f0.layout[j], k)
      {
        i := i - 1;
        var b := fn.layout[i];
        GoodNow(f0, fn);
        InLayout(fn, b);
        var k := |fn.blocks[b].body|;
        while k > 0
          invariant fn.layout == f0.layout && b in fn.blocks && 0 <= k <= |fn.blocks[b].body|
          invariant Progress(f0, changed0, fn, changed)
          invariant fn == f0 ==> forall k' :: k <= k' && HasInstr(f0, b, k') ==> !TriviallyDead(f0, b, k')
          invariant fn == f0 ==> forall j, k' :: i < j < |f0.layout| && HasInstr(f0, f0.layout[j], k') ==> !TriviallyDead(f0, f0.layout[j], k')
        {
          k := k - 1;
          if TriviallyDead(fn, b, k) {
            GoodNow(f0, fn);
            EraseDeadImproves(fn, b, k);
            Rewrite(f0, changed0, fn, changed, Erase(fn, b, k));
            fn := Erase(fn, b, k);
            changed := true;
          }
        }
      }
      GoodNow(f0, fn);
      assert fn == f0 ==> NoneDead(fn) by { AllBlocks(fn); }
      StageOver(fn);
    }

    method EliminateUselessBranchesAndBlocks()
      requires Good(fn)
      modifies this
      ensures Progress(old(fn), old(changed), fn, changed)
      ensures fn == old(fn) ==> NoneUseless(fn) && NothingUseless(fn)
    {
      hide Improves, Good, Foldable, Forwarder, NothingUseless;
      ghost var f0, changed0 := fn, changed;
      Begin(fn, changed);
      var i := 0;
      while i < |fn.layout|
        invariant 0 <= i <= |fn.layout|
        invariant Progress(f0, changed0, fn, changed)
        invariant fn == f0 ==> forall j :: 0 <= j < i ==> !Foldable(f0, f0.layout[j]) && !Forwarder(f0, f0.layout[j])
        decreases |fn.layout| - i
      {
        var b := fn.layout[i];
        GoodNow(f0, fn);
        if Foldable(fn, b) {
          FoldImproves(fn, b);
          Rewrite(f0, changed0, fn, changed, Fold(fn, b));
          fn := Fold(fn, b);
          changed := true;
          GoodNow(f0, fn);
        }
        if Forwarder(fn, b) {
          ForwardImproves(fn, b);
          Rewrite(f0, changed0, fn, changed, Forward(fn, b));
          DropInLayout(fn, i);
          fn := Forward(fn, b);
          changed := true;
        } else {
          i := i + 1;
        }
      }
      GoodNow(f0, fn);
      assert fn == f0 ==> NoneUseless(fn) by { AllBlocks(fn); }
      StageOver(fn);
    }

    /** The backward walk over one slot keeps exactly the stores that a load reads before the next
        store, and everything else. */
    method EliminateDeadStoresForSlot(b: Label, x: Reg)
      requires Good(fn) && b in fn.blocks && Eligible(fn, b, x)
      modifies this
      ensures Progress(old(fn), old(changed), fn, changed)
      ensures fn == WithBody(old(fn), b, Live(old(fn).blocks[b].body, x))
    {
      hide Improves, Good, Eligible, WithBody, Live, LoadNext;
      ghost var f0, changed0 := fn, changed;
      Begin(fn, changed);
      ghost var body0 := fn.blocks[b].body;
      WalkStarts(fn, b, x);
      var valueNeeded := false;
      var k := |fn.blocks[b].body|;
      while k > 0
        invariant 0 <= k <= |body0| && b in f0.blocks && f0.blocks[b].body == body0
        invariant fn == WithBody(f0, b, body0[..k] + Live(body0[k..], x))
        invariant valueNeeded == LoadNext(body0[k..], x)
        invariant Progress(f0, changed0, fn, changed) && Eligible(fn, b, x)
      {
        k := k - 1;
        WalkStep(f0, b, k, x);
        var i := fn.blocks[b].body[k];
        if Direct(i, x) {
          if i.Load? {
            valueNeeded := true;
          } else {
            if !valueNeeded {
              GoodNow(f0, fn);
              StoreIsDead(fn, b, k, x);
              EraseStoreImproves(fn, b, k, x);
              Rewrite(f0, changed0, fn, changed, Erase(fn, b, k));
              fn := Erase(fn, b, k);
              changed := true;
            }
            valueNeeded := false;
          }
        }
      }
      assert body0[0..] == body0 && body0[..0] + Live(body0, x) == Live(body0, x);
    }

    method EliminateDeadStores()
      requires Good(fn)
      modifies this
      ensures Progress(old(fn), old(changed), fn, changed)
      ensures fn == old(fn) ==> NoneStale(fn) && NothingStale(fn)
    {
      hide Improves, Good, Eligible, IsSlot, NothingStale;
      ghost var f0, changed0 := fn, changed;
      Begin(fn, changed);
      var i := 0;
      while i < |fn.layout|
        invariant 0 <= i <= |fn.layout| && fn.layout == f0.layout
        invariant Progress(f0, changed0, fn, changed)
        invariant fn == f0 ==> forall j, k, x :: 0 <= j < i && HasInstr(f0, f0.layout[j], k) ==> !DeadStore(f0, f0.layout[j], k, x)
      {
        var b := fn.layout[i];
        GoodNow(f0, fn);
        InLayout(fn, b);
        var slots := set k | 0 <= k < |fn.blocks[b].body| && SlotAccess(fn, fn.blocks[b].body[k]) :: fn.blocks[b].body[k].addr.reg;
        ghost var left := slots;
        assert fn == f0 ==> forall k, x :: HasInstr(f0, b, k) && DeadStore(f0, b, k, x) ==> x in slots by { DeadSlots(fn, b); }
        while slots != {}
          invariant fn.layout == f0.layout && b in fn.blocks
          invariant Progress(f0, changed0, fn, changed)
          invariant fn == f0 ==> forall k, x :: HasInstr(f0, b, k) && DeadStore(f0, b, k, x) ==> x in slots
          invariant fn == f0 ==> forall j, k, x :: 0 <= j < i && HasInstr(f0, f0.layout[j], k) ==> !DeadStore(f0, f0.layout[j], k, x)
          decreases slots
        {
          var x :| x in slots;
          slots := slots - {x};
          if Eligible(fn, b, x) {
            ghost var f1, changed1 := fn, changed;
            GoodNow(f0, fn);
            EliminateDeadStoresForSlot(b, x);
            Then(f0, changed0, f1, changed1, fn, changed);
            NoneLeft(f1, b, x);
          } else {
            NotEligible(fn, b, x);
          }
        }
        i := i + 1;
      }
      GoodNow(f0, fn);
      assert fn == f0 ==> NoneStale(fn) by { AllBlocks(fn); }
      StageOver(fn);
    }

    /** The whole pass: it ends, the result behaves like the original, and no stage has anything left
        to do on it. */
    method Run()
      requires Good(fn)
      modifies this
      ensures Improves(old(fn), fn)
      ensures NoneDead(fn) && NoneUseless(fn) && NoneStale(fn)
      ensures NothingDead(fn) && NothingUseless(fn) && NothingStale(fn)
    {
      hide Improves, Good, NoneDead, NoneUseless, NoneStale, NothingDead, NothingUseless, NothingStale;
      ghost var f0 := fn;
      ImprovesReflexive(fn);
      var again := true;
      while again
        invariant Improves(f0, fn)
        invariant !again ==> NoneDead(fn) && NoneUseless(fn) && NoneStale(fn)
        decreases Size(fn), again
      {
        ghost var f1 := fn;
        GoodNow(f0, fn);
        changed := false;
        EliminateDeadInstructions();
        ghost var f2, changed2 := fn, changed;
        GoodNow(f1, fn);
        EliminateUselessBranchesAndBlocks();
        Then(f1, false, f2, changed2, fn, changed);
        ghost var f3, changed3 := fn, changed;
        GoodNow(f1, fn);
        EliminateDeadStores();
        Then(f1, false, f3, changed3, fn, changed);
        ImprovesTransitive(f0, f1, fn);
        Smaller(f1, fn);
        again := changed;
      }
      GoodNow(f0, fn);
      StageOver(fn);
    }
  }

  // ---- What an improved function does ----

  ghost predicate Returns(f: Function, w: World, s: State, result: Value, calls: seq<Event>)
    requires Closed(f)
  {
    exists n :: ReturnsAfter(f, w, s, result, calls, n)
  }

  predicate ReturnsAfter(f: Function, w: World, s: State, result: Value, calls: seq<Event>, n: nat)
    requires Closed(f)
  {
    var c := Run(f, w, s, n);
    c.Done? && c.result == result && c.state.trace == calls
  }

  ghost predicate Calls(f: Function, w: World, s: State, calls: seq<Event>)
    requires Closed(f)
  {
    exists n :: CallsAfter(f, w, s, calls, n)
  }

  predicate CallsAfter(f: Function, w: World, s: State, calls: seq<Event>, n: nat)
    requires Closed(f)
  {
    Run(f, w, s, n).state.trace == calls
  }

  /** The pass changes neither whether a function returns, nor what it returns, nor the calls it makes,
      whether it returns or runs for ever. */
  lemma SameOutcome(f: Function, g: Function, w: World, s: State, result: Value, calls: seq<Event>)
    requires Improves(f, g) && Honest(w) && Starts(f, s)
    ensures Closed(f) && Closed(g)
    ensures Returns(f, w, s, result, calls) <==> Returns(g, w, s, result, calls)
    ensures Calls(f, w, s, calls) <==> Calls(g, w, s, calls)
  {
    hide Honest, Starts, Run, Good;
    BothGood(f, g);
    Outcome(f, g, w, s, result, calls);
    Outcome(g, f, w, s, result, calls);
  }

  lemma BothGood(f: Function, g: Function)
    requires Improves(f, g)
    ensures Closed(f) && Closed(g)
  {
  }

  lemma Outcome(f: Function, g: Function, w: World, s: State, result: Value, calls: seq<Event>)
    requires Closed(f) && Closed(g) && Shows(f, g, w, s)
    ensures Returns(f, w, s, result, calls) ==> Returns(g, w, s, result, calls)
    ensures Calls(f, w, s, calls) ==> Calls(g, w, s, calls)
  {
    hide Run;
    if Returns(f, w, s, result, calls) {
      var n :| ReturnsAfter(f, w, s, result, calls, n);
      assert Shown(f, g, w, s, n);
      var m: nat :| SameView(Run(f, w, s, n), Run(g, w, s, m));
      assert ReturnsAfter(g, w, s, result, calls, m);
    }
    if Calls(f, w, s, calls) {
      var n :| CallsAfter(f, w, s, calls, n);
      assert Shown(f, g, w, s, n);
      var m: nat :| SameView(Run(f, w, s, n), Run(g, w, s, m));
      assert CallsAfter(g, w, s, calls, m);
    }
  }

  lemma GoodNow(f0: Function, f: Function)
    requires Improves(f0, f)
    ensures Good(f)
  {
  }

  lemma StageOver(f: Function)
    requires Good(f)
    ensures (NoneDead(f) <==> NothingDead(f)) && (NoneUseless(f) <==> NothingUseless(f)) && (NoneStale(f) <==> NothingStale(f))
  {
    DeadExactly(f);
    UselessExactly(f);
    StaleExactly(f);
  }

  lemma Smaller(f: Function, g: Function)
    requires Improves(f, g)
    ensures g == f || Size(g) < Size(f)
  {
  }

  lemma InLayout(f: Function, b: Label)
    requires Good(f) && b in f.layout
    ensures b in f.blocks
  {
  }

  lemma AllBlocks(f: Function)
    requires Good(f)
    ensures forall b :: b in f.blocks ==> exists i :: 0 <= i < |f.layout| && f.layout[i] == b
  {
  }

  lemma DropInLayout(f: Function, i: nat)
    requires Good(f) && i < |f.layout| && Forwarder(f, f.layout[i])
    ensures Forward(f, f.layout[i]).layout == f.layout[..i] + f.layout[i + 1..] && i > 0
  {
    assert f.layout[i] !in f.layout[..i] && f.layout[i] !in f.layout[i + 1..];
    DropAt(f.layout, i);
  }

  predicate SlotAccess(f: Function, i: Instr) {
    (i.Load? || i.Store?) && i.addr.Var? && IsSlot(f, i.addr.reg)
  }

  lemma WalkStarts(f: Function, b: Label, x: Reg)
    requires b in f.blocks
    ensures var body := f.blocks[b].body; f == WithBody(f, b, body[..|body|] + Live(body[|body|..], x)) && !LoadNext(body[|body|..], x)
  {
    var body := f.blocks[b].body;
    assert body[..|body|] + Live(body[|body|..], x) == body;
  }

  /** One step of the walk, from the end of the body to its start. */
  lemma WalkStep(f: Function, b: Label, k: nat, x: Reg)
    requires b in f.blocks && k < |f.blocks[b].body|
    ensures var body := f.blocks[b].body;
      var g := WithBody(f, b, body[..k + 1] + Live(body[k + 1..], x));
      && HasInstr(g, b, k) && InstrAt(g, b, k) == body[k]
      && LoadNext(body[k..], x) == (if Direct(body[k], x) then body[k].Load? else LoadNext(body[k + 1..], x))
      && LoadNext(g.blocks[b].body[k + 1..], x) == LoadNext(body[k + 1..], x)
      && WithBody(f, b, body[..k] + Live(body[k..], x)) ==
         (if body[k].Store? && body[k].addr == Var(x) && !LoadNext(body[k + 1..], x) then Erase(g, b, k) else g)
  {
    hide LoadNext, Live;
    WalkBodies(f.blocks[b].body, k, x);
  }

  /** The body before and after the step. */
  lemma WalkBodies(body: seq<Instr>, k: nat, x: Reg)
    requires k < |body|
    ensures var before := body[..k + 1] + Live(body[k + 1..], x);
      && k < |before| && before[k] == body[k]
      && LoadNext(body[k..], x) == (if Direct(body[k], x) then body[k].Load? else LoadNext(body[k + 1..], x))
      && LoadNext(before[k + 1..], x) == LoadNext(body[k + 1..], x)
      && body[..k] + Live(body[k..], x) ==
         (if body[k].Store? && body[k].addr == Var(x) && !LoadNext(body[k + 1..], x) then Without(before, k) else before)
  {
    var rest := body[k + 1..];
    var before := body[..k + 1] + Live(rest, x);
    assert body[k..][1..] == rest && body[k..][0] == body[k];
    LiveLoads(rest, x);
    assert before[k + 1..] == Live(rest, x);
    assert Without(before, k) == body[..k] + Live(rest, x);
    assert before == body[..k] + ([body[k]] + Live(rest, x));
  }

  lemma StoreIsDead(f: Function, b: Label, k: nat, x: Reg)
    requires Good(f) && Eligible(f, b, x) && HasInstr(f, b, k)
    requires InstrAt(f, b, k).Store? && InstrAt(f, b, k).addr == Var(x) && !LoadNext(f.blocks[b].body[k + 1..], x)
    ensures DeadStore(f, b, k, x) && Eligible(Erase(f, b, k), b, x)
  {
    StillEligible(f, b, k, x);
  }

  lemma DeadSlots(f: Function, b: Label)
    requires b in f.blocks
    ensures var slots := set k | 0 <= k < |f.blocks[b].body| && SlotAccess(f, f.blocks[b].body[k]) :: f.blocks[b].body[k].addr.reg;
      forall k, x :: HasInstr(f, b, k) && DeadStore(f, b, k, x) ==> x in slots
  {
  }

  lemma NotEligible(f: Function, b: Label, x: Reg)
    requires !Eligible(f, b, x)
    ensures forall k :: HasInstr(f, b, k) ==> !DeadStore(f, b, k, x)
  {
  }

  lemma NoneLeft(f: Function, b: Label, x: Reg)
    requires b in f.blocks
    ensures f == WithBody(f, b, Live(f.blocks[b].body, x)) ==>
      forall k :: HasInstr(f, b, k) ==> !DeadStore(f, b, k, x)
  {
    LiveShorter(f.blocks[b].body, x);
    assert f == WithBody(f, b, Live(f.blocks[b].body, x)) ==> f.blocks[b].body == Live(f.blocks[b].body, x);
  }
}
