/** The backward walk over the accesses of one slot, and the forward definition of what it keeps. */
module DceStores {
  import opened Options
  import opened Ir
  import opened DceRewrites
  import opened DceSimulation
  import opened DceBlocks
  import opened DcePreserve
  import opened DceMeasure

  /** The body without the stores to the slot that no load reads before the next store or the end. */
  function Live(body: seq<Instr>, x: Reg): seq<Instr> {
    if body == [] then []
    else if body[0].Store? && body[0].addr == Var(x) && !LoadNext(body[1..], x) then Live(body[1..], x)
    else [body[0]] + Live(body[1..], x)
  }

  /** `LoadNext` says that some load reads the slot before the next store to it. */
  lemma {:induction false} LoadNextExactly(body: seq<Instr>, x: Reg)
    ensures LoadNext(body, x) <==>
      exists j :: 0 <= j < |body| && body[j].Load? && Direct(body[j], x)
                  && forall i :: 0 <= i < j ==> !(body[i].Store? && Direct(body[i], x))
  {
    if body != [] {
      LoadNextExactly(body[1..], x);
      if LoadNext(body[1..], x) && !(body[0].Store? && Direct(body[0], x)) {
        var j :| 0 <= j < |body[1..]| && body[1..][j].Load? && Direct(body[1..][j], x)
                 && forall i :: 0 <= i < j ==> !(body[1..][i].Store? && Direct(body[1..][i], x));
        assert body[j + 1] == body[1..][j];
        assert forall i :: 0 < i < j + 1 ==> body[i] == body[1..][i - 1];
      }
      if j :| 0 <= j < |body| && body[j].Load? && Direct(body[j], x) && forall i :: 0 <= i < j ==> !(body[i].Store? && Direct(body[i], x)) {
        if j > 0 {
          assert body[1..][j - 1] == body[j];
          assert forall i :: 0 <= i < j - 1 ==> body[1..][i] == body[i + 1];
        }
      }
    }
  }

  /** Dropping dead stores changes nothing about the next access, and drops nothing else. */
  lemma {:induction false} LiveLoads(body: seq<Instr>, x: Reg)
    ensures LoadNext(Live(body, x), x) == LoadNext(body, x)
  {
    if body != [] { LiveLoads(body[1..], x); }
  }

  /** If nothing was dropped, every store to the slot is read. */
  lemma {:induction false} LiveShorter(body: seq<Instr>, x: Reg)
    ensures |Live(body, x)| <= |body|
    ensures |Live(body, x)| == |body| ==>
      Live(body, x) == body && forall k :: 0 <= k < |body| && body[k].Store? && body[k].addr == Var(x) ==> LoadNext(body[k + 1..], x)
  {
    if body != [] {
      LiveShorter(body[1..], x);
      if |Live(body, x)| == |body| {
        forall k | 0 <= k < |body| && body[k].Store? && body[k].addr == Var(x) ensures LoadNext(body[k + 1..], x) {
          if k > 0 { assert body[1..][k..] == body[k + 1..] && body[k] == body[1..][k - 1]; }
        }
      }
    }
  }

  // ---- Counting while stores are erased ----

  lemma {:induction false} WithoutCounts(body: seq<Instr>, k: nat, x: Reg)
    requires k < |body|
    ensures BodyUses(Without(body, k), x) == BodyUses(body, x) - InstrUses(body[k], x)
    ensures Accesses(Without(body, k), x) == Accesses(body, x) - (if Direct(body[k], x) then 1 else 0)
  {
    if k == 0 {
      assert Without(body, 0) == body[1..];
    } else {
      assert Without(body, k)[1..] == Without(body[1..], k - 1);
      assert Without(body, k)[0] == body[0];
      WithoutCounts(body[1..], k - 1, x);
    }
  }

  lemma {:induction false} UsesElsewhere(f: Function, layout: seq<Label>, b: Label, block: Block, x: Reg)
    requires b !in layout
    ensures LayoutUses(SetBlock(f, b, block), layout, x) == LayoutUses(f, layout, x)
  {
    if layout != [] { UsesElsewhere(f, layout[1..], b, block, x); }
  }

  lemma {:induction false} UsesOfSet(f: Function, layout: seq<Label>, b: Label, block: Block, x: Reg)
    requires b in layout && b in f.blocks && forall i, j :: 0 <= i < j < |layout| ==> layout[i] != layout[j]
    ensures LayoutUses(SetBlock(f, b, block), layout, x)
            == LayoutUses(f, layout, x) - PartUses(f, b, x) + BodyUses(block.body, x) + TermUses(block.term, x)
  {
    if layout[0] == b { UsesElsewhere(f, layout[1..], b, block, x); } else { UsesOfSet(f, layout[1..], b, block, x); }
  }

  /** A slot stays eligible while its dead stores go. */
  lemma StillEligible(f: Function, b: Label, k: nat, x: Reg)
    requires WellFormed(f) && HasInstr(f, b, k) && Eligible(f, b, x)
    requires InstrAt(f, b, k).Store? && InstrAt(f, b, k).addr == Var(x)
    ensures Eligible(Erase(f, b, k), b, x)
  {
    hide WellFormed, Uses, Accesses, IsSlot;
    StillCounted(f, b, k, x);
    StillSlot(f, b, k, x);
  }

  lemma StillCounted(f: Function, b: Label, k: nat, x: Reg)
    requires WellFormed(f) && HasInstr(f, b, k) && Eligible(f, b, x)
    requires InstrAt(f, b, k).Store? && InstrAt(f, b, k).addr == Var(x)
    ensures Uses(Erase(f, b, k), x) == Accesses(Erase(f, b, k).blocks[b].body, x)
  {
    EligibleIsPrivate(f, b, x);
    assert SlotInstr(f.blocks[b].body[k], x);
    DirectCounts(f.blocks[b].body[k], x);
    WithoutCounts(f.blocks[b].body, k, x);
    UsesOfSet(f, f.layout, b, f.blocks[b].(body := Without(f.blocks[b].body, k)), x);
  }

  lemma StillSlot(f: Function, b: Label, k: nat, x: Reg)
    requires IsSlot(f, x) && HasInstr(f, b, k) && InstrAt(f, b, k).Store?
    ensures IsSlot(Erase(f, b, k), x)
  {
    var g := Erase(f, b, k);
    var c, j :| c in f.blocks && 0 <= j < |f.blocks[c].body| && f.blocks[c].body[j] == Alloca(x);
    assert g.blocks[c].body[if c == b && j > k then j - 1 else j] == Alloca(x);
  }
}
