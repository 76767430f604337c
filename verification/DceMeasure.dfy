/** The size that every rewrite lowers, and the relation that a run of rewrites establishes. */
module DceMeasure {
  import opened Options
  import opened Ir
  import opened DceRewrites
  import opened DceSimulation
  import opened DceBlocks
  import opened DcePreserve

  // ---- Size ----

  function BlockSize(b: Block): nat {
    1 + |b.body| + (if b.term.CondBr? then 1 else 0)
  }

  function LayoutSize(f: Function, layout: seq<Label>): nat {
    if layout == [] then 0
    else (if layout[0] in f.blocks then BlockSize(f.blocks[layout[0]]) else 0) + LayoutSize(f, layout[1..])
  }

  /** Instructions, plus conditional branches, plus blocks. */
  function Size(f: Function): nat {
    LayoutSize(f, f.layout)
  }

  lemma {:induction false} SizeElsewhere(f: Function, layout: seq<Label>, b: Label, block: Block)
    requires b !in layout
    ensures LayoutSize(SetBlock(f, b, block), layout) == LayoutSize(f, layout)
  {
    if layout != [] { SizeElsewhere(f, layout[1..], b, block); }
  }

  lemma {:induction false} SizeOfSet(f: Function, layout: seq<Label>, b: Label, block: Block)
    requires b in layout && b in f.blocks && forall i, j :: 0 <= i < j < |layout| ==> layout[i] != layout[j]
    ensures LayoutSize(SetBlock(f, b, block), layout) == LayoutSize(f, layout) - BlockSize(f.blocks[b]) + BlockSize(block)
  {
    if layout[0] == b { SizeElsewhere(f, layout[1..], b, block); } else { SizeOfSet(f, layout[1..], b, block); }
  }

  lemma {:induction false} SizeOfForward(f: Function, layout: seq<Label>, b: Label)
    requires Forwarder(f, b) && forall l :: l in layout ==> l in f.blocks
    ensures LayoutSize(Forward(f, b), Drop(layout, b)) <= LayoutSize(f, layout)
    ensures b in layout ==> LayoutSize(Forward(f, b), Drop(layout, b)) < LayoutSize(f, layout)
  {
    if layout != [] {
      SizeOfForward(f, layout[1..], b);
      assert Drop(layout, b) == (if layout[0] == b then [] else [layout[0]]) + Drop(layout[1..], b);
      if layout[0] == b {
        assert Drop(layout, b) == Drop(layout[1..], b);
      } else {
        assert Drop(layout, b)[1..] == Drop(layout[1..], b);
      }
    }
  }

  // ---- A run of rewrites ----

  ghost predicate SameOrSmaller(f: Function, g: Function) {
    g == f || Size(g) < Size(f)
  }

  /** What any number of rewrites makes of a good function: a good function that behaves alike and,
      unless nothing was changed, is smaller. */
  ghost predicate Improves(f: Function, g: Function) {
    && Good(f) && Good(g) && Equivalent(f, g)
    && (forall r :: DefinedIn(g, r) ==> DefinedIn(f, r))
    && SameOrSmaller(f, g)
  }

  lemma ShowsTransitive(f: Function, g: Function, h: Function, w: World, s: State)
    requires Closed(f) && Closed(g) && Closed(h) && Shows(f, g, w, s) && Shows(g, h, w, s)
    ensures Shows(f, h, w, s)
  {
    forall n: nat ensures Shown(f, h, w, s, n) {
      assert Shown(f, g, w, s, n);
      var m: nat :| SameView(Run(f, w, s, n), Run(g, w, s, m));
      assert Shown(g, h, w, s, m);
      var k: nat :| SameView(Run(g, w, s, m), Run(h, w, s, k));
      assert SameView(Run(f, w, s, n), Run(h, w, s, k));
    }
  }

  lemma ImprovesReflexive(f: Function)
    requires Good(f)
    ensures Improves(f, f)
  {
    forall w, s | Honest(w) && Starts(f, s) ensures Shows(f, f, w, s) {
      forall n: nat ensures SameView(Run(f, w, s, n), Run(f, w, s, n)) { }
      LockStep(f, f, w, s);
    }
  }

  lemma ImprovesTransitive(f: Function, g: Function, h: Function)
    requires Improves(f, g) && Improves(g, h)
    ensures Improves(f, h)
  {
    forall w, s | Honest(w) && Starts(f, s) ensures Shows(f, h, w, s) && Shows(h, f, w, s) {
      assert Starts(g, s);
      ShowsTransitive(f, g, h, w, s);
      ShowsTransitive(h, g, f, w, s);
    }
  }

  lemma EraseDeadImproves(f: Function, b: Label, k: nat)
    requires Good(f) && HasInstr(f, b, k) && TriviallyDead(f, b, k)
    ensures Improves(f, Erase(f, b, k)) && Size(Erase(f, b, k)) < Size(f)
  {
    UnusedRegister(f, InstrAt(f, b, k).dst);
    WellFormedIsPlain(f);
    EraseEquivalent(f, b, k);
    EraseGood(f, b, k);
    SizeOfSet(f, f.layout, b, f.blocks[b].(body := Without(f.blocks[b].body, k)));
  }

  lemma EraseStoreImproves(f: Function, b: Label, k: nat, x: Reg)
    requires Good(f) && HasInstr(f, b, k) && DeadStore(f, b, k, x)
    ensures Improves(f, Erase(f, b, k)) && Size(Erase(f, b, k)) < Size(f)
  {
    EligibleIsPrivate(f, b, x);
    WellFormedIsPlain(f);
    SelectedNow(f, b, x);
    var after := StoreIsStaleOk(f, b, k, x);
    DirectCounts(InstrAt(f, b, k), x);
    assert SlotInstr(f.blocks[b].body[k], x);
    StoreEquivalent(f, b, k, x, after);
    EraseGood(f, b, k);
    SizeOfSet(f, f.layout, b, f.blocks[b].(body := Without(f.blocks[b].body, k)));
  }

  lemma {:induction false} IdleRest(rest: seq<Instr>, x: Reg)
    requires !LoadNext(rest, x) && !StoresTo(rest, x)
    ensures forall j :: 0 <= j < |rest| ==> !Direct(rest[j], x)
  {
    if rest != [] {
      assert !(rest[0].Store? && rest[0].addr == Var(x));
      forall j | 0 <= j < |rest[1..]| ensures !(rest[1..][j].Store? && rest[1..][j].addr == Var(x)) { assert rest[j + 1] == rest[1..][j]; }
      IdleRest(rest[1..], x);
      forall j | 0 <= j < |rest| ensures !Direct(rest[j], x) { if j > 0 { assert rest[j] == rest[1..][j - 1]; } }
    }
  }

  lemma {:induction false} LastIs(body: seq<Instr>, k: nat, x: Reg)
    requires k < |body| && body[k].Store? && Direct(body[k], x) && forall j :: k < j < |body| ==> !Direct(body[j], x)
    ensures StoreLast(body, x)
    decreases |body|
  {
    if k < |body| - 1 { LastIs(body[..|body| - 1], k, x); }
  }

  /** A dead store that is not the last access is followed by a store. */
  lemma StoreFollows(body: seq<Instr>, k: nat, x: Reg)
    requires k < |body| && body[k].Store? && Direct(body[k], x) && !LoadNext(body[k + 1..], x)
    ensures StoresTo(body[k + 1..], x) || StoreLast(body, x)
  {
    if !StoresTo(body[k + 1..], x) {
      IdleRest(body[k + 1..], x);
      forall j | k < j < |body| ensures !Direct(body[j], x) { assert body[k + 1..][j - k - 1] == body[j]; }
      LastIs(body, k, x);
    }
  }

  /** A dead store to a slot that is not carried leaves nothing stale that a later run of the block reads. */
  lemma StoreIsStaleOk(f: Function, b: Label, k: nat, x: Reg) returns (after: set<Label>)
    requires HasInstr(f, b, k) && DeadStore(f, b, k, x) && !Carried(f, b, x)
    ensures StaleOk(f, b, k, x, after)
  {
    StoreFollows(f.blocks[b].body, k, x);
    after := {};
    if NeverReentered(f, b) {
      after :| ClosedUnder(f, after) && b !in after && b in f.blocks && Targets(f.blocks[b].term) <= after;
    }
  }

  lemma FoldImproves(f: Function, b: Label)
    requires Good(f) && Foldable(f, b)
    ensures Improves(f, Fold(f, b)) && Size(Fold(f, b)) < Size(f)
  {
    FoldEquivalent(f, b);
    FoldGood(f, b);
    SizeOfSet(f, f.layout, b, f.blocks[b].(term := Br(f.blocks[b].term.yes)));
  }

  lemma ForwardImproves(f: Function, b: Label)
    requires Good(f) && Forwarder(f, b)
    ensures Improves(f, Forward(f, b)) && Size(Forward(f, b)) < Size(f)
  {
    ForwardEquivalent(f, b);
    ForwardGood(f, b);
    SizeOfForward(f, f.layout, b);
  }
}
