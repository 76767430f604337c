/** Why removing a dead store, folding a branch and forwarding an empty block preserve behaviour. */
module DceBlocks {
  import opened Options
  import opened Ir
  import opened DceRewrites
  import opened DceSimulation

  // ---- Dead stores ----

  /** Two states that differ at most in the contents of slot `x`, and then only once it is allocated. */
  ghost predicate Tracked(s1: State, s2: State, x: Reg) {
    && Near(s1, s2, x) && SlotReg(s1, s2, x)
    && (SameCell(s1, s2, x) || Get(s1.regs, x) == Ptr(Stack(x)))
  }

  /** The instruction uses `x` at most as the address it loads from or stores to. */
  ghost predicate DirectUse(i: Instr, x: Reg) {
    InstrUses(i, x) == 0 || (Direct(i, x) && InstrUses(i, x) == 1)
  }

  ghost predicate SlotInstr(i: Instr, x: Reg) {
    PlainInstr(i) && DirectUse(i, x) && (Defines(i, x) ==> i == Alloca(x))
  }

  ghost predicate SlotBody(body: seq<Instr>, x: Reg) {
    forall k :: 0 <= k < |body| ==> SlotInstr(body[k], x)
  }

  lemma OtherOperand(i: Instr, x: Reg)
    requires i.Store? && Direct(i, x) && InstrUses(i, x) == 1
    ensures i.val != Var(x)
  {
  }

  lemma ExecTracked(w: World, i: Instr, s1: State, s2: State, x: Reg)
    requires Honest(w) && Tracked(s1, s2, x) && SlotInstr(i, x)
    requires Direct(i, x) && i.Load? ==> SameCell(s1, s2, x)
    ensures Tracked(Exec(w, i, s1), Exec(w, i, s2), x)
    ensures SameCell(s1, s2, x) || (Direct(i, x) && i.Store?) ==> SameCell(Exec(w, i, s1), Exec(w, i, s2), x)
  {
    hide Near, SameBut, Honest, CleanMem, CleanTrace;
    ExecSlotReg(w, i, s1, s2, x);
    if InstrUses(i, x) == 0 {
      ExecNear(w, i, s1, s2, x);
    } else if i.Load? {
      DirectLoad(w, i, s1, s2, x);
    } else {
      DirectStore(w, i, s1, s2, x);
    }
  }

  lemma DirectLoad(w: World, i: Instr, s1: State, s2: State, x: Reg)
    requires Tracked(s1, s2, x) && SameCell(s1, s2, x) && i.Load? && Direct(i, x)
    ensures Near(Exec(w, i, s1), Exec(w, i, s2), x) && SameCell(Exec(w, i, s1), Exec(w, i, s2), x)
  {
    assert Read(s1.mem, Stack(x)) != Ptr(Stack(x));
    DefineNear(s1, s2, x, i.dst, if Get(s1.regs, x).Ptr? then Read(s1.mem, Stack(x)) else Undef);
  }

  lemma DirectStore(w: World, i: Instr, s1: State, s2: State, x: Reg)
    requires Tracked(s1, s2, x) && i.Store? && SlotInstr(i, x) && Direct(i, x) && InstrUses(i, x) == 1
    ensures Near(Exec(w, i, s1), Exec(w, i, s2), x) && SameCell(Exec(w, i, s1), Exec(w, i, s2), x)
  {
    OtherOperand(i, x);
    EvalNear(i.val, s1, s2, x);
    if Get(s1.regs, x).Ptr? { WriteNear(s1, s2, x, Stack(x), Eval(i.val, s1.regs)); }
  }

  /** Leaving out a store on one side. */
  lemma SkipStore(w: World, i: Instr, s1: State, s2: State, x: Reg)
    requires Tracked(s1, s2, x) && i.Store? && SlotInstr(i, x) && Direct(i, x) && InstrUses(i, x) == 1
    ensures Tracked(Exec(w, i, s1), s2, x)
  {
    OtherOperand(i, x);
    EvalNear(i.val, s1, s2, x);
    var v := Eval(i.val, s1.regs);
    if Get(s1.regs, x).Ptr? {
      var m := s1.mem[Stack(x) := v];
      forall l ensures Read(m, l) != Ptr(Stack(x)) { assert Read(s1.mem, l) != Ptr(Stack(x)); }
      forall l | l != Stack(x) ensures Read(m, l) == Read(s2.mem, l) { assert Read(s1.mem, l) == Read(s2.mem, l); }
    }
  }

  lemma {:induction false} ExecAllTracked(w: World, body: seq<Instr>, s1: State, s2: State, x: Reg)
    requires Honest(w) && Tracked(s1, s2, x) && SlotBody(body, x)
    requires SameCell(s1, s2, x) || !LoadNext(body, x)
    ensures Tracked(ExecAll(w, body, s1), ExecAll(w, body, s2), x)
    ensures SameCell(s1, s2, x) || StoresTo(body, x) ==> SameCell(ExecAll(w, body, s1), ExecAll(w, body, s2), x)
  {
    hide Tracked, SameCell, Honest, SlotInstr;
    if body != [] {
      ExecTracked(w, body[0], s1, s2, x);
      ExecAllTracked(w, body[1..], Exec(w, body[0], s1), Exec(w, body[0], s2), x);
      if StoresTo(body, x) { StoresLater(body, x); }
    }
  }

  lemma StoresLater(body: seq<Instr>, x: Reg)
    requires body != [] && StoresTo(body, x)
    ensures (body[0].Store? && Direct(body[0], x)) || StoresTo(body[1..], x)
  {
    var k :| 0 <= k < |body| && body[k].Store? && body[k].addr == Var(x);
    if k > 0 { assert body[1..][k - 1] == body[k]; }
  }

  lemma {:induction false} LoadNextPrefix(body: seq<Instr>, k: nat, x: Reg)
    requires k <= |body| && LoadNext(body[..k], x)
    ensures LoadNext(body, x)
  {
    if k > 0 && !Direct(body[0], x) {
      assert body[..k][1..] == body[1..][..k - 1];
      LoadNextPrefix(body[1..], k - 1, x);
    }
  }

  lemma StoreRemoved(w: World, body: seq<Instr>, k: nat, s1: State, s2: State, x: Reg)
    requires Honest(w) && Tracked(s1, s2, x) && SlotBody(body, x) && k < |body|
    requires body[k].Store? && body[k].addr == Var(x) && InstrUses(body[k], x) == 1 && !LoadNext(body[k + 1..], x)
    requires SameCell(s1, s2, x) || !LoadNext(body, x)
    ensures Tracked(ExecAll(w, body, s1), ExecAll(w, Without(body, k), s2), x)
    ensures StoresTo(body[k + 1..], x) ==> SameCell(ExecAll(w, body, s1), ExecAll(w, Without(body, k), s2), x)
  {
    hide Tracked, SameCell, Honest, SlotInstr;
    ExecAllAround(w, body, k, s1);
    ExecAllAround(w, body, k, s2);
    if LoadNext(body[..k], x) { LoadNextPrefix(body, k, x); }
    ExecAllTracked(w, body[..k], s1, s2, x);
    SkipStore(w, body[k], ExecAll(w, body[..k], s1), ExecAll(w, body[..k], s2), x);
    ExecAllTracked(w, body[k + 1..], Exec(w, body[k], ExecAll(w, body[..k], s1)), ExecAll(w, body[..k], s2), x);
  }

  /** Slot `x` is used by direct accesses in block `b` only. */
  ghost predicate PrivateTo(f: Function, b: Label, x: Reg) {
    && b in f.blocks && DefinedIn(f, x)
    && (forall c :: c in f.blocks ==> SlotBody(f.blocks[c].body, x) && TermUses(f.blocks[c].term, x) == 0)
    && (forall c :: c in f.blocks && c != b ==> Unused(f.blocks[c].body, x))
  }

  /** Why the store at `k` to slot `x` may be left out of block `b`: the block does not load the slot first
      when it runs again, or stores to it once more at once, or it does not run again (only blocks of
      `after` run then). */
  ghost predicate StaleOk(f: Function, b: Label, k: nat, x: Reg, after: set<Label>)
    requires HasInstr(f, b, k)
  {
    && ClosedUnder(f, after) && b !in after
    && (!LoadNext(f.blocks[b].body, x) || StoresTo(f.blocks[b].body[k + 1..], x) || Targets(f.blocks[b].term) <= after)
  }

  ghost predicate TrackedConfig(f: Function, b: Label, c1: Config, c2: Config, x: Reg, after: set<Label>) {
    && NearConfig(c1, c2, x) && Tracked(c1.state, c2.state, x)
    && (c1.Running? ==>
      SameCell(c1.state, c2.state, x) || (b in f.blocks && !LoadNext(f.blocks[b].body, x)) || c1.at in after)
  }

  lemma UnusedNoAccess(body: seq<Instr>, x: Reg)
    requires Unused(body, x)
    ensures !LoadNext(body, x)
    decreases body
  {
    if body != [] {
      UnusedNoAccess(body[1..], x);
    }
  }

  lemma StoreStep(f: Function, b: Label, k: nat, x: Reg, after: set<Label>, w: World, c1: Config, c2: Config)
    requires Closed(f) && HasInstr(f, b, k) && Honest(w) && PlainFunction(f)
    requires PrivateTo(f, b, x) && StaleOk(f, b, k, x, after)
    requires var i := InstrAt(f, b, k); i.Store? && i.addr == Var(x) && InstrUses(i, x) == 1 && !LoadNext(f.blocks[b].body[k + 1..], x)
    requires TrackedConfig(f, b, c1, c2, x, after) && c1.Running? && c1.at in f.blocks
    ensures TrackedConfig(f, b, StepBlock(f, w, c1), StepBlock(Erase(f, b, k), w, c2), x, after)
  {
    hide Tracked, SameCell, Honest, Near;
    var g := Erase(f, b, k);
    var body := f.blocks[c1.at].body;
    if c1.at == b {
      StoreRemoved(w, body, k, c1.state, c2.state, x);
    } else {
      UnusedNoAccess(body, x);
      ExecAllTracked(w, body, c1.state, c2.state, x);
    }
    var t1, t2 := ExecAll(w, body, c1.state), ExecAll(w, g.blocks[c1.at].body, c2.state);
    assert Near(t1, t2, x) by { TrackedNear(t1, t2, x); }
    LeaveNear(f.blocks[c1.at].term, t1, t2, x);
  }

  lemma TrackedNear(s1: State, s2: State, x: Reg)
    requires Tracked(s1, s2, x)
    ensures Near(s1, s2, x)
  {
  }

  lemma {:induction false} StoreRun(f: Function, b: Label, k: nat, x: Reg, after: set<Label>, w: World, s: State, n: nat)
    requires Closed(f) && HasInstr(f, b, k) && Honest(w) && Starts(f, s) && PlainFunction(f)
    requires PrivateTo(f, b, x) && StaleOk(f, b, k, x, after)
    requires var i := InstrAt(f, b, k); i.Store? && i.addr == Var(x) && InstrUses(i, x) == 1 && !LoadNext(f.blocks[b].body[k + 1..], x)
    ensures Closed(Erase(f, b, k))
    ensures TrackedConfig(f, b, Run(f, w, s, n), Run(Erase(f, b, k), w, s, n), x, after)
  {
    ErasedClosed(f, b, k);
    if n == 0 {
      StartNear(f, s, x);
    } else {
      StoreRun(f, b, k, x, after, w, s, n - 1);
      var c1, c2 := Run(f, w, s, n - 1), Run(Erase(f, b, k), w, s, n - 1);
      if c1.Running? { StoreStep(f, b, k, x, after, w, c1, c2); }
    }
  }

  /** Removing a dead store preserves behaviour. */
  lemma StoreEquivalent(f: Function, b: Label, k: nat, x: Reg, after: set<Label>)
    requires Closed(f) && PlainFunction(f) && HasInstr(f, b, k)
    requires PrivateTo(f, b, x) && StaleOk(f, b, k, x, after)
    requires var i := InstrAt(f, b, k); i.Store? && i.addr == Var(x) && InstrUses(i, x) == 1 && !LoadNext(f.blocks[b].body[k + 1..], x)
    ensures Closed(Erase(f, b, k)) && Equivalent(f, Erase(f, b, k))
  {
    var g := Erase(f, b, k);
    ErasedClosed(f, b, k);
    forall w, s | Honest(w) && Starts(f, s) ensures Shows(f, g, w, s) && Shows(g, f, w, s) {
      forall n: nat ensures SameView(Run(f, w, s, n), Run(g, w, s, n)) {
        StoreRun(f, b, k, x, after, w, s, n);
        NearView(Run(f, w, s, n), Run(g, w, s, n), x);
      }
      LockStep(f, g, w, s);
    }
  }

  // ---- Branches with identical successors ----

  lemma {:induction false} FoldRun(f: Function, b: Label, w: World, s: State, n: nat)
    requires Closed(f) && Foldable(f, b)
    ensures Closed(Fold(f, b)) && Run(f, w, s, n) == Run(Fold(f, b), w, s, n)
  {
    assert Closed(Fold(f, b)) by { FoldClosed(f, b); }
    if n > 0 { FoldRun(f, b, w, s, n - 1); }
  }

  lemma FoldClosed(f: Function, b: Label)
    requires Closed(f) && Foldable(f, b)
    ensures Closed(Fold(f, b))
  {
    assert f.blocks[b].term.yes in Targets(f.blocks[b].term);
  }

  lemma FoldEquivalent(f: Function, b: Label)
    requires Closed(f) && Foldable(f, b)
    ensures Closed(Fold(f, b)) && Equivalent(f, Fold(f, b))
  {
    var g := Fold(f, b);
    FoldClosed(f, b);
    forall w, s | Honest(w) && Starts(f, s) ensures Shows(f, g, w, s) && Shows(g, f, w, s) {
      forall n: nat ensures SameView(Run(f, w, s, n), Run(g, w, s, n)) { FoldRun(f, b, w, s, n); }
      LockStep(f, g, w, s);
    }
  }

  // ---- Empty forwarding blocks ----

  lemma {:induction false} DropKeeps(layout: seq<Label>, b: Label)
    ensures forall l :: l in Drop(layout, b) <==> l in layout && l != b
    ensures layout != [] && layout[0] != b ==> Drop(layout, b) != [] && Drop(layout, b)[0] == layout[0]
  {
    if layout != [] {
      DropKeeps(layout[1..], b);
      assert forall l :: l in layout <==> l == layout[0] || l in layout[1..];
    }
  }

  lemma ForwardClosed(f: Function, b: Label)
    requires Closed(f) && Forwarder(f, b)
    ensures Closed(Forward(f, b)) && Entry(Forward(f, b)) == Entry(f)
  {
    DropKeeps(f.layout, b);
    var g, to := Forward(f, b), f.blocks[b].term.to;
    assert to in Targets(f.blocks[b].term);
    forall l, t | l in g.blocks && t in Targets(g.blocks[l].term) ensures t in g.blocks {
      RedirectTargets(f.blocks[l].term, b, to, t);
    }
  }

  lemma RedirectTargets(t: Term, b: Label, to: Label, l: Label)
    ensures l in Targets(Redirect(t, b, to)) <==> (l in Targets(t) && l != b) || (l == to && b in Targets(t))
  {
  }

  /** The two functions are at the same place, up to the forwarding block. */
  ghost predicate Follows(f: Function, b: Label, c1: Config, c2: Config)
    requires Forwarder(f, b)
  {
    if c1.Running? && c1.at == b then c2 == Running(f.blocks[b].term.to, c1.state) else c2 == c1
  }

  lemma FollowStep(f: Function, b: Label, w: World, c1: Config, c2: Config)
    requires Closed(f) && Forwarder(f, b) && Follows(f, b, c1, c2)
    requires c1.Running? ==> c1.at in f.blocks
    ensures if c1.Running? && c1.at == b then Follows(f, b, StepBlock(f, w, c1), c2) && StepBlock(f, w, c1) == c2
            else (c2.Running? ==> c2.at in Forward(f, b).blocks) && Follows(f, b, StepBlock(f, w, c1), StepBlock(Forward(f, b), w, c2))
  {
  }

  lemma {:induction false} Ahead(f: Function, b: Label, w: World, s: State, n: nat) returns (m: nat)
    requires Closed(f) && Forwarder(f, b)
    ensures Closed(Forward(f, b)) && m <= n && Follows(f, b, Run(f, w, s, n), Run(Forward(f, b), w, s, m))
  {
    ForwardClosed(f, b);
    m := 0;
    if n > 0 {
      m := Ahead(f, b, w, s, n - 1);
      var c1 := Run(f, w, s, n - 1);
      FollowStep(f, b, w, c1, Run(Forward(f, b), w, s, m));
      if !(c1.Running? && c1.at == b) { m := m + 1; }
    }
  }

  lemma {:induction false} Behind(f: Function, b: Label, w: World, s: State, m: nat) returns (n: nat)
    requires Closed(f) && Forwarder(f, b)
    ensures Closed(Forward(f, b)) && m <= n && Follows(f, b, Run(f, w, s, n), Run(Forward(f, b), w, s, m))
  {
    ForwardClosed(f, b);
    n := 0;
    if m > 0 {
      n := Behind(f, b, w, s, m - 1);
      var c2 := Run(Forward(f, b), w, s, m - 1);
      FollowStep(f, b, w, Run(f, w, s, n), c2);
      if Run(f, w, s, n).Running? && Run(f, w, s, n).at == b {
        FollowStep(f, b, w, Run(f, w, s, n + 1), c2);
        n := n + 2;
      } else {
        n := n + 1;
      }
    }
  }

  lemma ForwardShows(f: Function, b: Label, w: World, s: State)
    requires Closed(f) && Forwarder(f, b)
    ensures Closed(Forward(f, b)) && Shows(f, Forward(f, b), w, s) && Shows(Forward(f, b), f, w, s)
  {
    var g := Forward(f, b);
    ForwardClosed(f, b);
    forall n: nat ensures Shown(f, g, w, s, n) {
      var m := Ahead(f, b, w, s, n);
      assert SameView(Run(f, w, s, n), Run(g, w, s, m));
    }
    forall m: nat ensures Shown(g, f, w, s, m) {
      var n := Behind(f, b, w, s, m);
      assert SameView(Run(g, w, s, m), Run(f, w, s, n));
    }
  }

  /** Removing an empty forwarding block preserves behaviour. */
  lemma ForwardEquivalent(f: Function, b: Label)
    requires Closed(f) && Forwarder(f, b)
    ensures Closed(Forward(f, b)) && Equivalent(f, Forward(f, b))
  {
    ForwardClosed(f, b);
    forall w, s | Honest(w) && Starts(f, s) ensures Shows(f, Forward(f, b), w, s) && Shows(Forward(f, b), f, w, s) {
      ForwardShows(f, b, w, s);
    }
  }
}
