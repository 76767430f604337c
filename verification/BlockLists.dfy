/**
The blocks of one arena as a list, the four ways in which the allocator changes such a list, and what
each keeps: the bytes that the blocks cover, their order, and the eager coalescing of free neighbours.
*/
module BlockLists {
  import opened FlatMemory

  datatype Block = Block(addr: nat, size: nat, freed: bool)

  function End(b: Block): nat {
    b.addr + HEADER + b.size
  }

  /** A block is 8-aligned, holds at least 8 bytes, and ends below the break. */
  predicate BlockOk(b: Block, brk: nat) {
    0 < b.addr && b.addr % 8 == 0 && 8 <= b.size && b.size % 8 == 0 && End(b) <= brk
  }

  /** The blocks are well placed, and strictly ordered without overlap. */
  ghost predicate Layout(bs: seq<Block>, brk: nat) {
    && (forall i :: 0 <= i < |bs| ==> BlockOk(bs[i], brk))
    && (forall i, j :: 0 <= i < j < |bs| ==> End(bs[i]) <= bs[j].addr)
  }

  predicate InBlock(b: Block, x: int) {
    b.addr <= x < End(b)
  }

  ghost predicate Covers(bs: seq<Block>, x: int) {
    exists i :: 0 <= i < |bs| && InBlock(bs[i], x)
  }

  /** Block `i` and its successor in the list are physically adjacent. */
  predicate Adjacent(bs: seq<Block>, i: int) {
    0 <= i < |bs| - 1 && End(bs[i]) == bs[i + 1].addr
  }

  /** No two physically adjacent list neighbours are both free. */
  ghost predicate Coalesced(bs: seq<Block>) {
    forall i :: Adjacent(bs, i) ==> !(bs[i].freed && bs[i + 1].freed)
  }

  /** The user owns `s` bytes at `p`. */
  ghost predicate LiveIn(bs: seq<Block>, p: int, s: nat) {
    exists i :: 0 <= i < |bs| && bs[i].addr + HEADER == p && bs[i].size == s && !bs[i].freed
  }

  /** The bytes of all headers and payloads together. */
  function Total(bs: seq<Block>): nat {
    if bs == [] then 0 else HEADER + bs[0].size + Total(bs[1..])
  }

  // ---- The four changes ----

  predicate Splits(b: Block, size: nat) {
    b.size >= size + HEADER + 8
  }

  /** A payload size after rounding. */
  predicate Rounded(size: nat) {
    8 <= size && size % 8 == 0
  }

  function Remainder(b: Block, size: nat): Block
    requires Splits(b, size)
  {
    Block(b.addr + HEADER + size, b.size - size - HEADER, true)
  }

  function SplitAt(bs: seq<Block>, i: nat, size: nat): seq<Block>
    requires i < |bs|
  {
    if Splits(bs[i], size) then bs[..i] + [bs[i].(size := size), Remainder(bs[i], size)] + bs[i + 1..] else bs
  }

  predicate Joins(bs: seq<Block>, i: int) {
    Adjacent(bs, i) && bs[i + 1].freed
  }

  function JoinAt(bs: seq<Block>, i: nat): seq<Block>
    requires i < |bs|
  {
    if Joins(bs, i) then bs[..i] + [bs[i].(size := bs[i].size + HEADER + bs[i + 1].size)] + bs[i + 2..] else bs
  }

  function SetFreed(bs: seq<Block>, i: nat, freed: bool): seq<Block>
    requires i < |bs|
  {
    bs[i := bs[i].(freed := freed)]
  }

  // ---- Order and alignment ----

  lemma SplitBlocksOk(b: Block, size: nat, brk: nat)
    requires BlockOk(b, brk) && Rounded(size) && Splits(b, size)
    ensures BlockOk(b.(size := size), brk) && BlockOk(Remainder(b, size), brk) && End(Remainder(b, size)) == End(b)
  {
  }

  lemma SplitLayout(bs: seq<Block>, i: nat, size: nat, brk: nat)
    requires Layout(bs, brk) && i < |bs| && Rounded(size)
    ensures Layout(SplitAt(bs, i, size), brk)
  {
    if Splits(bs[i], size) {
      SplitBlocksOk(bs[i], size, brk);
      hide BlockOk;
      var cs := SplitAt(bs, i, size);
      forall j | 0 <= j < |cs| ensures BlockOk(cs[j], brk) {
        if j > i + 1 { assert cs[j] == bs[j - 1]; }
      }
      forall j, k | 0 <= j < k < |cs| ensures End(cs[j]) <= cs[k].addr { SplitOrder(bs, i, size, j, k); }
    }
  }

  lemma SplitOrder(bs: seq<Block>, i: nat, size: nat, j: nat, k: nat)
    requires i < |bs| && Splits(bs[i], size) && j < k < |bs| + 1
    requires forall a, b :: 0 <= a < b < |bs| ==> End(bs[a]) <= bs[b].addr
    ensures End(SplitAt(bs, i, size)[j]) <= SplitAt(bs, i, size)[k].addr
  {
    var cs := SplitAt(bs, i, size);
    var j', k' := if j <= i then j else j - 1, if k <= i then k else k - 1;
    assert End(cs[j]) <= End(bs[j']) && bs[k'].addr <= cs[k].addr;
  }

  lemma JoinedOk(b: Block, c: Block, brk: nat)
    requires BlockOk(b, brk) && BlockOk(c, brk) && End(b) == c.addr
    ensures BlockOk(b.(size := b.size + HEADER + c.size), brk)
  {
  }

  lemma JoinLayout(bs: seq<Block>, i: nat, brk: nat)
    requires Layout(bs, brk) && i < |bs|
    ensures Layout(JoinAt(bs, i), brk)
  {
    if Joins(bs, i) {
      JoinedOk(bs[i], bs[i + 1], brk);
      var cs := JoinAt(bs, i);
      forall j | 0 <= j < |cs| ensures BlockOk(cs[j], brk) {
        if j < i { assert cs[j] == bs[j]; }
        if j > i { assert cs[j] == bs[j + 1]; }
      }
      forall j, k | 0 <= j < k < |cs| ensures End(cs[j]) <= cs[k].addr { JoinOrder(bs, i, j, k); }
    }
  }

  lemma JoinOrder(bs: seq<Block>, i: nat, j: nat, k: nat)
    requires i < |bs| && Joins(bs, i) && j < k < |bs| - 1
    requires forall a, b :: 0 <= a < b < |bs| ==> End(bs[a]) <= bs[b].addr
    ensures End(JoinAt(bs, i)[j]) <= JoinAt(bs, i)[k].addr
  {
    var cs := JoinAt(bs, i);
    assert End(cs[j]) == End(bs[if j < i then j else j + 1]);
    assert cs[k].addr == bs[if k <= i then k else k + 1].addr;
  }

  // ---- The bytes covered ----

  lemma SplitCovers(bs: seq<Block>, i: nat, size: nat, x: int)
    requires i < |bs|
    ensures Covers(SplitAt(bs, i, size), x) <==> Covers(bs, x)
  {
    if Splits(bs[i], size) {
      var cs := SplitAt(bs, i, size);
      if Covers(bs, x) {
        var j :| 0 <= j < |bs| && InBlock(bs[j], x);
        var k := if j < i then j else if j > i then j + 1 else if x < bs[i].addr + HEADER + size then i else i + 1;
        assert InBlock(cs[k], x);
      }
      if Covers(cs, x) {
        var k :| 0 <= k < |cs| && InBlock(cs[k], x);
        assert InBlock(bs[if k <= i then k else k - 1], x);
      }
    }
  }

  lemma JoinedAt(bs: seq<Block>, i: nat, j: nat)
    requires i < |bs| && Joins(bs, i) && j < |bs|
    ensures i + 1 < |bs| && |JoinAt(bs, i)| == |bs| - 1
    ensures var cs := JoinAt(bs, i);
      && (j != i && j != i + 1 ==> cs[if j < i then j else j - 1] == bs[j])
      && cs[i].addr == bs[i].addr && End(cs[i]) == End(bs[i + 1]) && End(bs[i]) == bs[i + 1].addr
  {
  }

  lemma JoinCovers(bs: seq<Block>, i: nat, x: int)
    requires i < |bs|
    ensures Covers(JoinAt(bs, i), x) <==> Covers(bs, x)
  {
    if Joins(bs, i) {
      var cs := JoinAt(bs, i);
      JoinedAt(bs, i, i);
      hide JoinAt, Joins, End;
      if Covers(bs, x) {
        var j :| 0 <= j < |bs| && InBlock(bs[j], x);
        JoinedAt(bs, i, j);
        assert InBlock(cs[if j <= i then j else j - 1], x);
      }
      if Covers(cs, x) {
        var k :| 0 <= k < |cs| && InBlock(cs[k], x);
        var j := if k < i then k else if k > i then k + 1 else if x < End(bs[i]) then i else i + 1;
        JoinedAt(bs, i, j);
        assert InBlock(bs[j], x);
      }
    }
  }

  lemma FreedCovers(bs: seq<Block>, i: nat, freed: bool, x: int)
    requires i < |bs|
    ensures Covers(SetFreed(bs, i, freed), x) <==> Covers(bs, x)
  {
    var cs := SetFreed(bs, i, freed);
    if Covers(bs, x) {
      var j :| 0 <= j < |bs| && InBlock(bs[j], x);
      assert InBlock(cs[j], x);
    }
    if Covers(cs, x) {
      var j :| 0 <= j < |cs| && InBlock(cs[j], x);
      assert InBlock(bs[j], x);
    }
  }

  lemma AppendCovers(bs: seq<Block>, b: Block, x: int)
    ensures Covers(bs + [b], x) <==> Covers(bs, x) || InBlock(b, x)
  {
    var cs := bs + [b];
    if Covers(bs, x) {
      var j :| 0 <= j < |bs| && InBlock(bs[j], x);
      assert InBlock(cs[j], x);
    }
    if InBlock(b, x) { assert InBlock(cs[|bs|], x); }
    if Covers(cs, x) {
      var j :| 0 <= j < |cs| && InBlock(cs[j], x);
      if j < |bs| { assert InBlock(bs[j], x); }
    }
  }

  lemma {:induction false} TotalAppend(a: seq<Block>, b: seq<Block>)
    ensures Total(a + b) == Total(a) + Total(b)
  {
    if a == [] {
      assert a + b == b;
    } else {
      assert (a + b)[1..] == a[1..] + b;
      TotalAppend(a[1..], b);
    }
  }

  lemma TotalOne(b: Block)
    ensures Total([b]) == HEADER + b.size
  {
    assert [b][1..] == [];
  }

  lemma TotalAround(bs: seq<Block>, i: nat, c: seq<Block>)
    requires i < |bs|
    ensures Total(bs) == Total(bs[..i]) + HEADER + bs[i].size + Total(bs[i + 1..])
    ensures Total(bs[..i] + c + bs[i + 1..]) == Total(bs[..i]) + Total(c) + Total(bs[i + 1..])
  {
    assert bs == bs[..i] + ([bs[i]] + bs[i + 1..]);
    TotalAppend(bs[..i], [bs[i]] + bs[i + 1..]);
    TotalAppend([bs[i]], bs[i + 1..]);
    TotalOne(bs[i]);
    TotalAppend(bs[..i] + c, bs[i + 1..]);
    TotalAppend(bs[..i], c);
  }

  lemma SplitTotal(bs: seq<Block>, i: nat, size: nat)
    requires i < |bs|
    ensures Total(SplitAt(bs, i, size)) == Total(bs)
  {
    if Splits(bs[i], size) {
      var b, r := bs[i].(size := size), Remainder(bs[i], size);
      TotalAround(bs, i, [b, r]);
      assert [b, r] == [b] + [r];
      TotalAppend([b], [r]);
      TotalOne(b);
      TotalOne(r);
    }
  }

  lemma JoinTotal(bs: seq<Block>, i: nat)
    requires i < |bs|
    ensures Total(JoinAt(bs, i)) == Total(bs)
  {
    if Joins(bs, i) {
      var b, cs := bs[i].(size := bs[i].size + HEADER + bs[i + 1].size), JoinAt(bs, i);
      TotalAround(bs, i, []);
      TotalAround(cs, i, []);
      assert cs[..i] == bs[..i] && cs[i + 1..] == bs[i + 2..] && bs[i + 1..][1..] == bs[i + 2..];
    }
  }

  lemma {:induction false} FreedTotal(bs: seq<Block>, i: nat, freed: bool)
    requires i < |bs|
    ensures Total(SetFreed(bs, i, freed)) == Total(bs)
  {
    var cs := SetFreed(bs, i, freed);
    if i == 0 {
      assert cs[1..] == bs[1..];
    } else {
      assert cs[1..] == SetFreed(bs[1..], i - 1, freed);
      FreedTotal(bs[1..], i - 1, freed);
    }
  }

  /** Every split, merge and move between free and used conserves header and payload bytes. */
  lemma TotalConserved(bs: seq<Block>, i: nat, size: nat, freed: bool)
    requires i < |bs|
    ensures Total(SplitAt(bs, i, size)) == Total(JoinAt(bs, i)) == Total(SetFreed(bs, i, freed)) == Total(bs)
  {
    SplitTotal(bs, i, size);
    JoinTotal(bs, i);
    FreedTotal(bs, i, freed);
  }

  // ---- Eager coalescing ----

  /** Taking a free block, split or whole, leaves no two free neighbours. */
  lemma TakeCoalesced(bs: seq<Block>, i: nat, size: nat)
    requires i < |bs| && Coalesced(bs) && bs[i].freed
    ensures Coalesced(SetFreed(SplitAt(bs, i, size), i, false))
  {
    var cs := SetFreed(SplitAt(bs, i, size), i, false);
    forall j | Adjacent(cs, j) ensures !(cs[j].freed && cs[j + 1].freed) {
      if Splits(bs[i], size) && j > i { assert Adjacent(bs, j - 1); }
      if j < i { assert cs[j] == bs[j]; if j + 1 < i { assert Adjacent(bs, j); } }
      if !Splits(bs[i], size) && j > i { assert Adjacent(bs, j); }
    }
  }

  /** Growing a used block over its free neighbour, then cutting it to size. */
  lemma ResizeCoalesced(bs: seq<Block>, i: nat, size: nat)
    requires i < |bs| && Coalesced(bs) && !bs[i].freed
    ensures Coalesced(JoinAt(bs, i)) && Coalesced(SplitAt(JoinAt(bs, i), i, size))
  {
    var cs := JoinAt(bs, i);
    forall j | Adjacent(cs, j) ensures !(cs[j].freed && cs[j + 1].freed) && (j == i ==> !cs[j + 1].freed) {
      if Joins(bs, i) {
        if j < i { if j + 1 < i { assert Adjacent(bs, j); } } else { assert Adjacent(bs, j + 1); }
      } else {
        assert Adjacent(bs, j);
      }
    }
    var ds := SplitAt(cs, i, size);
    forall j | Adjacent(ds, j) ensures !(ds[j].freed && ds[j + 1].freed) {
      if Splits(cs[i], size) {
        if j > i { assert Adjacent(cs, j - 1); }
        if j < i { assert Adjacent(cs, j); }
      }
    }
  }

  /** A free block merged with its free neighbours, the next one first. */
  function MergeAt(bs: seq<Block>, i: nat): seq<Block>
    requires i < |bs|
  {
    var cs := JoinAt(bs, i);
    if i > 0 && cs[i - 1].freed then JoinAt(cs, i - 1) else cs
  }

  /** The list after a free: the block is marked, then merged. */
  function FreeAt(bs: seq<Block>, i: nat): seq<Block>
    requires i < |bs|
  {
    MergeAt(SetFreed(bs, i, true), i)
  }

  /** A free block large enough for the request. */
  predicate Holds(b: Block, size: nat) {
    b.freed && b.size >= size
  }

  predicate HasFit(bs: seq<Block>, size: nat) {
    exists i :: 0 <= i < |bs| && Holds(bs[i], size)
  }

  /** Only at `i` may two adjacent neighbours both be free. */
  ghost predicate CoalescedBut(bs: seq<Block>, i: int) {
    forall j :: Adjacent(bs, j) && j != i ==> !(bs[j].freed && bs[j + 1].freed)
  }

  lemma FreedOnce(bs: seq<Block>, i: nat)
    requires i < |bs| && Coalesced(bs) && !bs[i].freed
    ensures CoalescedBut(JoinAt(SetFreed(bs, i, true), i), i - 1)
    ensures i > 1 ==> !(Adjacent(bs, i - 2) && bs[i - 2].freed && bs[i - 1].freed)
  {
    var bs' := SetFreed(bs, i, true);
    var cs := JoinAt(bs', i);
    forall j | Adjacent(cs, j) && j != i - 1 ensures !(cs[j].freed && cs[j + 1].freed) {
      if Joins(bs', i) {
        if j < i { assert Adjacent(bs, j); } else { assert Adjacent(bs, j + 1); }
      } else {
        assert Adjacent(bs, j);
      }
    }
    if i > 1 && Adjacent(bs, i - 2) { assert !(bs[i - 2].freed && bs[i - 1].freed); }
  }

  lemma MergedTwice(cs: seq<Block>, i: nat)
    requires 0 < i < |cs| && CoalescedBut(cs, i - 1) && cs[i - 1].freed
    ensures Coalesced(JoinAt(cs, i - 1)) || (!Joins(cs, i - 1) && Adjacent(cs, i - 1) && cs[i].freed)
  {
    var ds := JoinAt(cs, i - 1);
    if Joins(cs, i - 1) {
      forall j | Adjacent(ds, j) ensures !(ds[j].freed && ds[j + 1].freed) {
        if j < i - 1 { assert Adjacent(cs, j); } else { assert Adjacent(cs, j + 1); }
      }
    }
  }

  lemma FreeCoalesced(bs: seq<Block>, i: nat)
    requires i < |bs| && Coalesced(bs) && !bs[i].freed
    ensures Coalesced(FreeAt(bs, i))
  {
    var cs := JoinAt(SetFreed(bs, i, true), i);
    FreedOnce(bs, i);
    JoinKeepsPrefix(SetFreed(bs, i, true), i);
    hide JoinAt, SetFreed;
    if i > 0 && cs[i - 1].freed { MergedTwice(cs, i); }
  }

  lemma JoinKeepsPrefix(bs: seq<Block>, i: nat)
    requires i < |bs|
    ensures i < |JoinAt(bs, i)| && JoinAt(bs, i)[i].freed == bs[i].freed
  {
  }

  lemma AppendCoalesced(bs: seq<Block>, b: Block)
    requires Coalesced(bs) && !b.freed
    ensures Coalesced(bs + [b])
  {
    var cs := bs + [b];
    forall j | Adjacent(cs, j) ensures !(cs[j].freed && cs[j + 1].freed) {
      if j + 1 < |bs| { assert Adjacent(bs, j); }
    }
  }

  lemma CutCoalesced(bs: seq<Block>, size: nat)
    requires bs != [] && Coalesced(bs) && !bs[|bs| - 1].freed
    ensures Coalesced(SplitAt(bs, |bs| - 1, size))
  {
    var cs := SplitAt(bs, |bs| - 1, size);
    forall j | Adjacent(cs, j) ensures !(cs[j].freed && cs[j + 1].freed) {
      if j < |bs| - 1 { assert Adjacent(bs, j); }
    }
  }
}
