/** Each rewrite keeps functions well formed, and adds no slot that the pass may come to select. */
module DcePreserve {
  import opened Options
  import opened Ir
  import opened DceRewrites
  import opened DceSimulation
  import opened DceBlocks

  // ---- What the use counts say ----

  function PartUses(f: Function, b: Label, r: Reg): nat {
    if b in f.blocks then BodyUses(f.blocks[b].body, r) + TermUses(f.blocks[b].term, r) else 0
  }

  lemma {:induction false} PartOfUses(f: Function, layout: seq<Label>, r: Reg, b: Label)
    requires b in layout
    ensures PartUses(f, b, r) <= LayoutUses(f, layout, r)
  {
    if layout[0] != b { PartOfUses(f, layout[1..], r, b); }
  }

  lemma {:induction false} TwoPartsOfUses(f: Function, layout: seq<Label>, r: Reg, b: Label, c: Label)
    requires b in layout && c in layout && b != c
    ensures PartUses(f, b, r) + PartUses(f, c, r) <= LayoutUses(f, layout, r)
  {
    if layout[0] == b {
      PartOfUses(f, layout[1..], r, c);
    } else if layout[0] == c {
      PartOfUses(f, layout[1..], r, b);
    } else {
      TwoPartsOfUses(f, layout[1..], r, b, c);
    }
  }

  lemma {:induction false} NoBodyUses(body: seq<Instr>, r: Reg)
    requires BodyUses(body, r) == 0
    ensures Unused(body, r)
  {
    if body != [] {
      NoBodyUses(body[1..], r);
      forall k | 0 <= k < |body| ensures InstrUses(body[k], r) == 0 {
        if k > 0 { assert body[k] == body[1..][k - 1]; }
      }
    }
  }

  lemma UnusedRegister(f: Function, r: Reg)
    requires WellFormed(f) && Uses(f, r) == 0
    ensures NowhereUsed(f, r)
  {
    forall b | b in f.blocks ensures Unused(f.blocks[b].body, r) && TermUses(f.blocks[b].term, r) == 0 {
      PartOfUses(f, f.layout, r, b);
      NoBodyUses(f.blocks[b].body, r);
    }
  }

  lemma DirectCounts(i: Instr, x: Reg)
    requires Direct(i, x)
    ensures 1 <= InstrUses(i, x)
  {
    assert OperandUses([i.addr], x) == 1 by { assert [i.addr][0] == Var(x); }
  }

  lemma {:induction false} AccessesAreUses(body: seq<Instr>, x: Reg)
    ensures Accesses(body, x) <= BodyUses(body, x)
    ensures Accesses(body, x) == BodyUses(body, x) ==> forall k :: 0 <= k < |body| ==> DirectUse(body[k], x)
  {
    if body != [] {
      AccessesAreUses(body[1..], x);
      if Direct(body[0], x) { DirectCounts(body[0], x); }
      forall k | 0 <= k < |body| && Accesses(body, x) == BodyUses(body, x) ensures DirectUse(body[k], x) {
        if k > 0 { assert body[k] == body[1..][k - 1]; }
      }
    }
  }

  lemma SlotDefinition(f: Function, x: Reg, b: Label, k: int)
    requires WellFormed(f) && IsSlot(f, x) && HasInstr(f, b, k) && Defines(InstrAt(f, b, k), x)
    ensures InstrAt(f, b, k) == Alloca(x)
  {
    var c, j :| c in f.blocks && 0 <= j < |f.blocks[c].body| && f.blocks[c].body[j] == Alloca(x);
    assert HasInstr(f, c, j) && Defines(InstrAt(f, c, j), x);
  }

  /** A slot whose uses are as many as its accesses in one block is used by those accesses only. */
  lemma EligibleIsPrivate(f: Function, b: Label, x: Reg)
    requires WellFormed(f) && Eligible(f, b, x)
    ensures PrivateTo(f, b, x)
  {
    AccessesAreUses(f.blocks[b].body, x);
    PartOfUses(f, f.layout, x, b);
    assert DefinedIn(f, x) by {
      var c, j :| c in f.blocks && 0 <= j < |f.blocks[c].body| && f.blocks[c].body[j] == Alloca(x);
      assert Defines(f.blocks[c].body[j], x);
    }
    forall c | c in f.blocks
      ensures SlotBody(f.blocks[c].body, x) && TermUses(f.blocks[c].term, x) == 0 && (c != b ==> Unused(f.blocks[c].body, x))
    {
      if c != b {
        TwoPartsOfUses(f, f.layout, x, b, c);
        NoBodyUses(f.blocks[c].body, x);
      }
      forall k | 0 <= k < |f.blocks[c].body| ensures SlotInstr(f.blocks[c].body[k], x) {
        assert HasInstr(f, c, k) && PlainInstr(InstrAt(f, c, k));
        if Defines(f.blocks[c].body[k], x) { SlotDefinition(f, x, c, k); }
      }
    }
  }

  lemma WellFormedIsPlain(f: Function)
    requires WellFormed(f)
    ensures PlainFunction(f)
  {
    forall b | b in f.blocks ensures Plain(f.blocks[b].body) {
      forall k | 0 <= k < |f.blocks[b].body| ensures PlainInstr(f.blocks[b].body[k]) {
        assert HasInstr(f, b, k) && PlainInstr(InstrAt(f, b, k));
      }
    }
  }

  // ---- Erasing keeps functions well formed ----

  /** Where the instruction at `j` of the shortened body was before. */
  function Before(j: int, k: nat): int {
    if j < k then j else j + 1
  }

  lemma ErasedInstr(f: Function, b: Label, k: nat, c: Label, j: int)
    requires HasInstr(f, b, k) && HasInstr(Erase(f, b, k), c, j)
    ensures var old_j := if c == b then Before(j, k) else j;
      HasInstr(f, c, old_j) && InstrAt(Erase(f, b, k), c, j) == InstrAt(f, c, old_j)
  {
  }

  lemma EraseWellFormed(f: Function, b: Label, k: nat)
    requires WellFormed(f) && HasInstr(f, b, k)
    ensures WellFormed(Erase(f, b, k))
    ensures forall r :: DefinedIn(Erase(f, b, k), r) ==> DefinedIn(f, r)
  {
    var g := Erase(f, b, k);
    ErasedClosed(f, b, k);
    forall c, j | HasInstr(g, c, j) ensures PlainInstr(InstrAt(g, c, j)) { ErasedInstr(f, b, k, c, j); }
    forall c, j, c', j', r | HasInstr(g, c, j) && HasInstr(g, c', j') && Defines(InstrAt(g, c, j), r) && Defines(InstrAt(g, c', j'), r)
      ensures c == c' && j == j'
    {
      ErasedInstr(f, b, k, c, j);
      ErasedInstr(f, b, k, c', j');
    }
    forall r | DefinedIn(g, r) ensures DefinedIn(f, r) {
      var c, j :| c in g.blocks && 0 <= j < |g.blocks[c].body| && Defines(g.blocks[c].body[j], r);
      assert HasInstr(g, c, j);
      ErasedInstr(f, b, k, c, j);
    }
  }

  lemma SameGraph(f: Function, g: Function, b: Label)
    requires g.blocks.Keys == f.blocks.Keys && (forall c :: c in f.blocks ==> Targets(g.blocks[c].term) == Targets(f.blocks[c].term))
    ensures NeverReentered(f, b) ==> NeverReentered(g, b)
  {
    if NeverReentered(f, b) {
      var after: set<Label> :| ClosedUnder(f, after) && b !in after && b in f.blocks && Targets(f.blocks[b].term) <= after;
      assert ClosedUnder(g, after);
    }
  }

  lemma {:induction false} LoadNextWithout(body: seq<Instr>, k: nat, x: Reg)
    requires k < |body| && LoadNext(Without(body, k), x)
    requires body[k].Store? && body[k].addr == Var(x) ==> !LoadNext(body[k + 1..], x)
    ensures LoadNext(body, x)
  {
    if k == 0 {
      assert Without(body, 0) == body[1..];
    } else {
      assert Without(body, k)[1..] == Without(body[1..], k - 1);
      assert body[1..][k..] == body[k + 1..];
      if !Direct(body[0], x) { LoadNextWithout(body[1..], k - 1, x); }
    }
  }

  // ---- The other two rewrites ----

  lemma FoldWellFormed(f: Function, b: Label)
    requires WellFormed(f) && Foldable(f, b)
    ensures WellFormed(Fold(f, b)) && forall r :: DefinedIn(Fold(f, b), r) ==> DefinedIn(f, r)
  {
    var g := Fold(f, b);
    FoldClosed(f, b);
    assert forall c, j :: HasInstr(g, c, j) ==> HasInstr(f, c, j) && InstrAt(g, c, j) == InstrAt(f, c, j);
  }

  lemma {:induction false} DropDistinct(layout: seq<Label>, b: Label)
    requires forall i, j :: 0 <= i < j < |layout| ==> layout[i] != layout[j]
    ensures var d := Drop(layout, b); forall i, j :: 0 <= i < j < |d| ==> d[i] != d[j]
    ensures |Drop(layout, b)| <= |layout|
  {
    if layout != [] {
      DropDistinct(layout[1..], b);
      DropKeeps(layout[1..], b);
      var d := Drop(layout, b);
      if layout[0] != b {
        forall i, j | 0 <= i < j < |d| ensures d[i] != d[j] {
          if i == 0 {
            assert d[j] in Drop(layout[1..], b);
            assert d[j] in layout[1..];
          }
        }
      }
    }
  }

  lemma {:induction false} DropAt(layout: seq<Label>, i: nat)
    requires i < |layout| && layout[i] !in layout[..i] && layout[i] !in layout[i + 1..]
    ensures Drop(layout, layout[i]) == layout[..i] + layout[i + 1..]
  {
    var rest, b := layout[1..], layout[i];
    if i == 0 {
      DropNothing(rest, b);
    } else {
      assert layout[..i] == [layout[0]] + rest[..i - 1] && layout[i + 1..] == rest[i..];
      assert layout[0] in layout[..i];
      DropAt(rest, i - 1);
      assert Drop(layout, b) == [layout[0]] + Drop(rest, b);
    }
  }

  lemma {:induction false} DropNothing(layout: seq<Label>, b: Label)
    requires b !in layout
    ensures Drop(layout, b) == layout
  {
    if layout != [] { DropNothing(layout[1..], b); }
  }

  lemma ForwardWellFormed(f: Function, b: Label)
    requires WellFormed(f) && Forwarder(f, b)
    ensures WellFormed(Forward(f, b)) && forall r :: DefinedIn(Forward(f, b), r) ==> DefinedIn(f, r)
  {
    var g := Forward(f, b);
    ForwardClosed(f, b);
    DropKeeps(f.layout, b);
    DropDistinct(f.layout, b);
    assert forall c, j :: HasInstr(g, c, j) ==> HasInstr(f, c, j) && InstrAt(g, c, j) == InstrAt(f, c, j);
  }

  // ---- What the pass may come to select ----

  lemma ChainFrom(fs: seq<Function>, f: Function)
    requires fs != [] && Chain(fs) && Rewrites(f, fs[0])
    ensures Chain([f] + fs) && ([f] + fs)[0] == f && ([f] + fs)[|fs|] == fs[|fs| - 1]
  {
    hide Rewrites;
    var gs := [f] + fs;
    forall i | 0 <= i < |gs| - 1 ensures Rewrites(gs[i], gs[i + 1]) {
      if i > 0 { assert Rewrites(fs[i - 1], fs[i]); }
    }
  }

  /** A rewrite adds nothing to what can be derived. */
  lemma StillSweepable(f: Function, g: Function)
    requires Sweepable(f) && Rewrites(f, g)
    ensures Sweepable(g)
  {
    hide Rewrites, Eligible, Carried, Chain;
    forall h, b, x | Derived(g, h) && Eligible(h, b, x) ensures !Carried(h, b, x) {
      var fs :| fs != [] && Chain(fs) && fs[0] == g && fs[|fs| - 1] == h;
      ChainFrom(fs, f);
      assert Derived(f, h);
    }
  }

  lemma SelectedNow(f: Function, b: Label, x: Reg)
    requires Sweepable(f) && Eligible(f, b, x)
    ensures !Carried(f, b, x)
  {
    hide Rewrites, Eligible, Carried;
    assert Chain([f]) && [f][0] == f;
    assert Derived(f, f);
  }

  lemma FoldGood(f: Function, b: Label)
    requires Good(f) && Foldable(f, b)
    ensures Good(Fold(f, b)) && forall r :: DefinedIn(Fold(f, b), r) ==> DefinedIn(f, r)
  {
    FoldWellFormed(f, b);
    assert Rewrites(f, Fold(f, b));
    hide Sweepable, Rewrites;
    StillSweepable(f, Fold(f, b));
  }

  lemma ForwardGood(f: Function, b: Label)
    requires Good(f) && Forwarder(f, b)
    ensures Good(Forward(f, b)) && forall r :: DefinedIn(Forward(f, b), r) ==> DefinedIn(f, r)
  {
    ForwardWellFormed(f, b);
    assert Rewrites(f, Forward(f, b));
    hide Sweepable, Rewrites;
    StillSweepable(f, Forward(f, b));
  }

  lemma EraseGood(f: Function, b: Label, k: nat)
    requires Good(f) && HasInstr(f, b, k) && (TriviallyDead(f, b, k) || exists x :: DeadStore(f, b, k, x))
    ensures Good(Erase(f, b, k)) && forall r :: DefinedIn(Erase(f, b, k), r) ==> DefinedIn(f, r)
  {
    EraseWellFormed(f, b, k);
    assert Rewrites(f, Erase(f, b, k));
    hide Sweepable, Rewrites;
    StillSweepable(f, Erase(f, b, k));
  }
}
