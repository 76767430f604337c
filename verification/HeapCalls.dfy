/**
Facts that the allocator's methods need between their steps: what the headers in memory say, where a
list begins and ends after a change, and which allocations a step leaves alone.
*/
module HeapCalls {
  import opened FlatMemory
  import opened BlockLists
  import opened ArenaMemory
  import opened HeapViews
  import opened HeapSteps

  /** The header found at block `i` describes the block and its neighbours. */
  lemma HeaderFound(v: View, k: nat, i: nat)
    requires Sound(v) && k < ARENAS && i < |v.blocks[k]|
    ensures BlockOk(v.blocks[k][i], v.brk) && v.brk <= |v.mem|
    ensures Load(v.mem, v.blocks[k][i].addr) == HeaderOf(k, v.blocks[k], i)
    ensures v.blocks[k][i].addr + HEADER <= |v.mem|
  {
    assert ArenaOk(v, k);
  }

  lemma PrevFound(v: View, k: nat, i: nat)
    requires Sound(v) && k < ARENAS && i < |v.blocks[k]|
    ensures var q := AddrAt(v.blocks[k], i - 1);
      && (q != 0 <==> i > 0)
      && (i > 0 ==> q + HEADER <= |v.mem| && Load(v.mem, q) == HeaderOf(k, v.blocks[k], i - 1))
  {
    if i > 0 { HeaderFound(v, k, i - 1); }
  }

  lemma ListEnds(v: View, k: nat)
    requires Sound(v) && k < ARENAS
    ensures v.heads[k] == AddrAt(v.blocks[k], 0) && v.tails[k] == AddrAt(v.blocks[k], |v.blocks[k]| - 1)
    ensures forall i :: 0 <= i < |v.blocks[k]| ==> BlockOk(v.blocks[k][i], v.brk)
  {
    assert ArenaOk(v, k);
  }

  lemma SplitEnds(v: View, k: nat, i: nat, size: nat)
    requires Sound(v) && k < ARENAS && i < |v.blocks[k]| && Splits(v.blocks[k][i], size)
    ensures var bs, cs := v.blocks[k], SplitAt(v.blocks[k], i, size);
      && v.heads[k := AddrAt(cs, 0)] == v.heads
      && v.tails[k := AddrAt(cs, |cs| - 1)] == (if i + 1 < |bs| then v.tails else v.tails[k := bs[i].addr + HEADER + size])
      && (AddrAt(bs, i + 1) != 0 <==> i + 1 < |bs|)
  {
    ListEnds(v, k);
    hide Sound;
    var bs, cs := v.blocks[k], SplitAt(v.blocks[k], i, size);
    if i + 1 < |bs| {
      assert BlockOk(bs[i + 1], v.brk);
      assert cs[|cs| - 1] == bs[|bs| - 1];
    }
  }

  lemma JoinEnds(v: View, k: nat, i: nat)
    requires Sound(v) && k < ARENAS && i < |v.blocks[k]| && Joins(v.blocks[k], i)
    ensures var bs, cs := v.blocks[k], JoinAt(v.blocks[k], i);
      && v.heads[k := AddrAt(cs, 0)] == v.heads
      && v.tails[k := AddrAt(cs, |cs| - 1)] == (if i + 2 < |bs| then v.tails else v.tails[k := bs[i].addr])
      && (AddrAt(bs, i + 2) != 0 <==> i + 2 < |bs|)
  {
    ListEnds(v, k);
    hide Sound;
    var bs, cs := v.blocks[k], JoinAt(v.blocks[k], i);
    if i + 2 < |bs| {
      assert BlockOk(bs[i + 2], v.brk);
      assert cs[|cs| - 1] == bs[|bs| - 1];
    }
  }

  lemma SameEnds(v: View, k: nat, cs: seq<Block>)
    requires Sound(v) && k < ARENAS && |cs| == |v.blocks[k]| && forall i :: 0 <= i < |cs| ==> cs[i].addr == v.blocks[k][i].addr
    ensures v.heads[k := AddrAt(cs, 0)] == v.heads && v.tails[k := AddrAt(cs, |cs| - 1)] == v.tails
  {
    ListEnds(v, k);
  }

  /** The heap after the header writes of a split. */
  function SplitWritten(v: View, k: nat, p: nat, size: nat, cs: seq<Block>): View
    requires CanSplit(v.mem, p, size) && k < |v.tails| == |v.blocks|
  {
    v.(mem := SplitMemory(v.mem, p, size),
       tails := if Load(v.mem, p).next != 0 then v.tails else v.tails[k := p + HEADER + size],
       blocks := v.blocks[k := cs])
  }

  /** The written heap is the one with the new list, because heads and tails are those of the list. */
  lemma WrittenIsSet(v: View, k: nat, p: nat, size: nat, cs: seq<Block>)
    requires CanSplit(v.mem, p, size) && k < |v.heads| == |v.tails| == |v.blocks|
    requires v.heads[k := AddrAt(cs, 0)] == v.heads
    requires v.tails[k := AddrAt(cs, |cs| - 1)] == if Load(v.mem, p).next != 0 then v.tails else v.tails[k := p + HEADER + size]
    ensures SplitWritten(v, k, p, size, cs) == SetArena(v, k, SplitMemory(v.mem, p, size), cs)
  {
    hide SplitMemory, CanSplit, Load, AddrAt;
  }

  lemma NextOf(v: View, k: nat, i: nat)
    requires Sound(v) && k < ARENAS && i < |v.blocks[k]|
    ensures v.blocks[k][i].addr + HEADER <= |v.mem|
    ensures Load(v.mem, v.blocks[k][i].addr).next == AddrAt(v.blocks[k], i + 1)
  {
    hide Sound;
    HeaderFound(v, k, i);
  }

  lemma SplitIsWritten(v: View, k: nat, i: nat, size: nat)
    requires Sound(v) && k < ARENAS && i < |v.blocks[k]| && Splits(v.blocks[k][i], size) && CanSplit(v.mem, v.blocks[k][i].addr, size)
    requires |v.heads| == |v.tails| == |v.blocks| == ARENAS
    ensures var p, cs := v.blocks[k][i].addr, SplitAt(v.blocks[k], i, size);
      SplitWritten(v, k, p, size, cs) == SetArena(v, k, SplitMemory(v.mem, p, size), cs)
  {
    hide *;
    SplitEnds(v, k, i, size);
    NextOf(v, k, i);
    WrittenIsSet(v, k, v.blocks[k][i].addr, size, SplitAt(v.blocks[k], i, size));
  }

  lemma SplitDone(v: View, k: nat, i: nat, size: nat)
    requires Sound(v) && k < ARENAS && i < |v.blocks[k]| && Rounded(size) && Splits(v.blocks[k][i], size)
    ensures |v.tails| == |v.blocks| == ARENAS && CanSplit(v.mem, v.blocks[k][i].addr, size)
    ensures var p, cs := v.blocks[k][i].addr, SplitAt(v.blocks[k], i, size);
      Changed(v, SplitWritten(v, k, p, size, cs), k, cs, i)
  {
    SoundParts(v);
    hide *;
    SplitEffect(v, k, i, size);
    SplitIsWritten(v, k, i, size);
  }

  lemma SplitFound(v: View, k: nat, i: nat, size: nat)
    requires Sound(v) && k < ARENAS && i < |v.blocks[k]| && Rounded(size)
    ensures |v.tails| == |v.blocks| == ARENAS && v.blocks[k][i].addr + HEADER <= |v.mem|
    ensures Load(v.mem, v.blocks[k][i].addr).size < size + HEADER + 8 ==>
      Changed(v, v, k, SplitAt(v.blocks[k], i, size), i)
    ensures Load(v.mem, v.blocks[k][i].addr).size >= size + HEADER + 8 ==>
      CanSplit(v.mem, v.blocks[k][i].addr, size) &&
      Changed(v, SplitWritten(v, k, v.blocks[k][i].addr, size, SplitAt(v.blocks[k], i, size)), k, SplitAt(v.blocks[k], i, size), i)
  {
    SoundParts(v);
    hide Sound, Changed, CanSplit, Load, Rounded, SplitWritten;
    HeaderFound(v, k, i);
    if Splits(v.blocks[k][i], size) { SplitDone(v, k, i, size); } else { Unchanged(v, k, i); }
  }

  /** The heap after the header writes of a merge. */
  function JoinWritten(v: View, k: nat, p: nat, cs: seq<Block>): View
    requires CanJoin(v.mem, p) && k < |v.tails| == |v.blocks|
  {
    v.(mem := JoinMemory(v.mem, p),
       tails := if Load(v.mem, Load(v.mem, p).next).next != 0 then v.tails else v.tails[k := p],
       blocks := v.blocks[k := cs])
  }

  /** The code's test for coalescing, on the headers, is adjacency to a free block in the list. */
  lemma NextFound(v: View, k: nat, i: nat)
    requires Sound(v) && k < ARENAS && i < |v.blocks[k]|
    ensures v.blocks[k][i].addr + HEADER <= |v.mem|
    ensures var h := Load(v.mem, v.blocks[k][i].addr);
      && (h.next != 0 ==> h.next + HEADER <= |v.mem|)
      && (h.next != 0 && Load(v.mem, h.next).freed && v.blocks[k][i].addr + HEADER + h.size == h.next <==> Joins(v.blocks[k], i))
  {
    HeaderFound(v, k, i);
    if i + 1 < |v.blocks[k]| { HeaderFound(v, k, i + 1); }
  }

  lemma JoinStep(v: View, k: nat, i: nat)
    requires Sound(v) && k < ARENAS && i < |v.blocks[k]|
    ensures |v.tails| == |v.blocks| == ARENAS
    ensures !Joins(v.blocks[k], i) ==> Changed(v, v, k, JoinAt(v.blocks[k], i), i)
    ensures Joins(v.blocks[k], i) ==>
      CanJoin(v.mem, v.blocks[k][i].addr) &&
      Changed(v, JoinWritten(v, k, v.blocks[k][i].addr, JoinAt(v.blocks[k], i)), k, JoinAt(v.blocks[k], i), i)
  {
    if Joins(v.blocks[k], i) {
      HeaderFound(v, k, i);
      HeaderFound(v, k, i + 1);
      JoinEffect(v, k, i);
      JoinEnds(v, k, i);
      hide Sound, Changed, JoinMemory, JoinAt, CanJoin, Load;
      var p, cs := v.blocks[k][i].addr, JoinAt(v.blocks[k], i);
      assert JoinWritten(v, k, p, cs) == SetArena(v, k, JoinMemory(v.mem, p), cs);
    } else {
      Unchanged(v, k, i);
    }
  }

  /** Doing nothing changes nothing. */
  lemma Unchanged(v: View, k: nat, i: nat)
    requires Sound(v) && k < ARENAS && i < |v.blocks[k]|
    ensures Changed(v, v, k, v.blocks[k], i)
  {
    HeaderFound(v, k, i);
    hide Sound;
    assert v.blocks[k := v.blocks[k]] == v.blocks;
  }

  // ---- Which blocks are live ----

  ghost predicate NotLive(v: View, p: int) {
    forall s: nat :: !LiveAt(v, p, s)
  }

  lemma UsedIsLive(v: View, k: nat, i: nat)
    requires k < |v.blocks| && i < |v.blocks[k]| && !v.blocks[k][i].freed
    ensures LiveAt(v, v.blocks[k][i].addr + HEADER, v.blocks[k][i].size)
  {
    assert LiveIn(v.blocks[k], v.blocks[k][i].addr + HEADER, v.blocks[k][i].size);
  }

  /** A free block is nobody's allocation. */
  lemma FreeNotLive(v: View, k: nat, i: nat)
    requires Sound(v) && k < ARENAS && i < |v.blocks[k]| && v.blocks[k][i].freed
    ensures NotLive(v, v.blocks[k][i].addr + HEADER)
  {
    var p := v.blocks[k][i].addr + HEADER;
    forall s: nat ensures !LiveAt(v, p, s) {
      if LiveAt(v, p, s) {
        var l, j := ArenaField(v, p, s);
        SameAddress(v, k, i, l, j);
      }
    }
  }

  /** No two blocks of the heap start at one address. */
  lemma SameAddress(v: View, k: nat, i: nat, l: nat, j: nat)
    requires Sound(v) && k < ARENAS && l < ARENAS && i < |v.blocks[k]| && j < |v.blocks[l]|
    requires v.blocks[k][i].addr == v.blocks[l][j].addr
    ensures k == l && i == j
  {
    var x := v.blocks[k][i].addr;
    ArenaLayout(v, k, i);
    assert InBlock(v.blocks[k][i], x) && InBlock(v.blocks[l][j], x);
    assert Covers(v.blocks[k], x) && Covers(v.blocks[l], x);
    ArenasDisjoint(v, k, l, x);
    Ordered(v, k, i, j);
  }

  /** Growing a free block over its free neighbour touches no allocation at all. */
  lemma QuietJoin(v: View, w: View, k: nat, i: nat)
    requires Sound(v) && k < ARENAS && i < |v.blocks[k]| && v.blocks[k][i].freed
    requires Changed(v, w, k, JoinAt(v.blocks[k], i), i)
    ensures Sound(w) && w.blocks == v.blocks[k := JoinAt(v.blocks[k], i)] && Others(v, w, {})
    ensures i < |w.blocks[k]| && w.blocks[k][i].addr == v.blocks[k][i].addr && w.blocks[k][i].freed
  {
    var p := v.blocks[k][i].addr + HEADER;
    assert w.blocks[k][i].addr == v.blocks[k][i].addr && w.blocks[k][i].freed;
    hide Sound, Others, SameBytes, NotLive;
    FreeNotLive(v, k, i);
    FreeNotLive(w, k, i);
    OthersDrop(v, w, {p}, p);
    assert {p} - {p} == {};
  }

  /** An address at which nothing is live before or after need not be excepted. */
  lemma OthersDrop(v: View, w: View, p: set<int>, q: int)
    requires Others(v, w, p) && NotLive(v, q) && NotLive(w, q)
    ensures Others(v, w, p - {q})
  {
    hide LiveAt;
  }

  // ---- Extending the heap ----

  lemma GrowEnds(v: View, k: nat, b: Block)
    requires Sound(v) && k < ARENAS
    ensures var cs := v.blocks[k] + [b];
      && (v.heads[k] == 0 <==> v.tails[k] == 0)
      && v.heads[k := AddrAt(cs, 0)] == (if v.heads[k] == 0 then v.heads[k := b.addr] else v.heads)
      && v.tails[k := AddrAt(cs, |cs| - 1)] == v.tails[k := b.addr]
  {
    ListEnds(v, k);
  }

  lemma GrowFound(v: View, k: nat, b: Block)
    requires CanGrow(v, k, b)
    ensures |v.heads| == |v.tails| == |v.blocks| == |v.got| && k < |v.heads| && b.addr + HEADER <= |v.mem|
    ensures (v.heads[k] == 0 <==> v.tails[k] == 0) && v.tails[k] + HEADER <= |v.mem|
  {
    GrowParts(v, k, b);
    GrowEffect(v, k, b);
    GrowEnds(v, k, b);
  }

  lemma GrowStep(v: View, w: View, k: nat, b: Block)
    requires CanGrow(v, k, b) && v.tails[k] + HEADER <= |v.mem|
    requires w.mem == AppendMemory(v.mem, k, v.tails[k], b.addr, b.size) && w.brk == b.addr + (HEADER + b.size)
    requires w.heads == if v.heads[k] == 0 then v.heads[k := b.addr] else v.heads
    requires w.tails == v.tails[k := b.addr] && w.blocks == v.blocks[k := v.blocks[k] + [b]]
    requires w.owner == Grown(v.owner, b.addr, HEADER + b.size, k) && w.got == v.got[k := v.got[k] + (HEADER + b.size)]
    ensures Sound(w) && Others(v, w, {b.addr + HEADER})
  {
    GrowEffect(v, k, b);
    GrowEnds(v, k, b);
    hide Sound, Others, AppendMemory, CanGrow, Grown;
    assert w == AddRegion(v, k, b.addr, w.mem, v.blocks[k] + [b], HEADER + b.size);
  }

  // ---- What the calls promise ----

  /** A fresh, 8-aligned allocation of at least `size` bytes, and less than a splittable block more, has
      appeared at `p`; every other allocation is as it was. */
  ghost predicate Allocated(v: View, w: View, p: nat, size: nat) {
    && 0 < p && p % 8 == 0 && Others(v, w, {p})
    && NotLive(v, p)
    && (exists s: nat :: size <= s < size + HEADER + 8 && LiveAt(w, p, s))
  }

  /** The allocation at `p` is gone; every other one is as it was. */
  ghost predicate Released(v: View, w: View, p: nat) {
    Others(v, w, {p}) && NotLive(w, p)
  }

  lemma AllocatedAt(v: View, w: View, k: nat, i: nat, size: nat)
    requires Sound(w) && k < ARENAS && i < |w.blocks[k]|
    requires var b := w.blocks[k][i]; !b.freed && size <= b.size < size + HEADER + 8 && Others(v, w, {b.addr + HEADER})
    requires NotLive(v, w.blocks[k][i].addr + HEADER)
    ensures Allocated(v, w, w.blocks[k][i].addr + HEADER, size)
  {
    HeaderFound(w, k, i);
    UsedIsLive(w, k, i);
  }

  lemma SettledAfter(v: View, w: View, k: nat, cs: seq<Block>)
    requires Settled(v) && Sound(w) && k < ARENAS && w.blocks == v.blocks[k := cs] && Coalesced(cs)
    ensures Settled(w)
  {
  }

  lemma SettledParts(v: View, k: nat)
    requires Settled(v) && k < ARENAS
    ensures Sound(v) && k < |v.blocks| && Coalesced(v.blocks[k])
  {
    hide Sound;
    SoundParts(v);
  }

  lemma ChangedParts(v: View, w: View, k: nat, cs: seq<Block>, i: nat)
    requires k < |v.blocks| && i < |cs| && Changed(v, w, k, cs, i)
    ensures Sound(w) && w.blocks == v.blocks[k := cs] && Others(v, w, {cs[i].addr + HEADER})
    ensures SameBytes(v.mem, w.mem, cs[i].addr + HEADER, cs[i].size)
  {
  }

  lemma ExtendShape(bs: seq<Block>, b: Block, size: nat)
    requires Coalesced(bs) && !b.freed && size <= b.size && (b.size < size + HEADER + 8 || Splits(b, size))
    ensures var cs := SplitAt(bs + [b], |bs|, size);
      && |bs| < |cs| && cs[|bs|].addr == b.addr && !cs[|bs|].freed && size <= cs[|bs|].size < size + HEADER + 8
      && Coalesced(cs)
  {
    AppendCoalesced(bs, b);
    CutCoalesced(bs + [b], size);
  }

  /** The extended heap: the new block holds exactly the request, the reserve is a free block after it. */
  lemma ExtendStep(v: View, u: View, w: View, k: nat, b: Block, size: nat)
    requires Settled(v) && k < ARENAS && v.brk <= b.addr && !b.freed
    requires Others(v, u, {b.addr + HEADER}) && u.blocks == v.blocks[k := v.blocks[k] + [b]]
    requires Changed(u, w, k, SplitAt(u.blocks[k], |v.blocks[k]|, size), |v.blocks[k]|)
    requires size <= b.size && (b.size < size + HEADER + 8 || Splits(b, size))
    ensures Settled(w) && Allocated(v, w, b.addr + HEADER, size)
  {
    hide *;
    SettledParts(v, k);
    var bs, p := v.blocks[k], b.addr + HEADER;
    var cs := SplitAt(bs + [b], |bs|, size);
    ExtendShape(bs, b, size);
    assert u.blocks[k] == bs + [b];
    ChangedParts(u, w, k, cs, |bs|);
    assert w.blocks == v.blocks[k := cs];
    SettledAfter(v, w, k, cs);
    NoneLiveAbove(v, p);
    OthersTransitive(v, u, w, {p}, {p});
    assert {p} + {p} == {p};
    AllocatedAt(v, w, k, |bs|, size);
  }

  lemma NoneLiveAbove(v: View, p: int)
    requires Sound(v) && v.brk <= p
    ensures NotLive(v, p)
  {
    hide Sound;
    forall s: nat ensures !LiveAt(v, p, s) { NoneAbove(v, p, s); }
  }

  lemma TakeShape(bs: seq<Block>, i: nat, size: nat)
    requires i < |bs| && Coalesced(bs) && Holds(bs[i], size)
    ensures var ds := SplitAt(bs, i, size);
      && i < |ds| && ds[i].addr == bs[i].addr
      && var cs := SetFreed(ds, i, false);
      && i < |cs| && cs[i].addr == bs[i].addr && !cs[i].freed && size <= cs[i].size < size + HEADER + 8
      && Coalesced(cs)
  {
    TakeCoalesced(bs, i, size);
  }

  lemma HoldsFree(b: Block, size: nat)
    requires Holds(b, size)
    ensures b.freed
  {
  }

  /** A free block taken, whole or split: it becomes an allocation, and nothing else changes. */
  lemma TakeStep(v: View, u: View, w: View, k: nat, i: nat, size: nat)
    requires Settled(v) && k < ARENAS && i < |v.blocks[k]| && Holds(v.blocks[k][i], size)
    requires Changed(v, u, k, SplitAt(v.blocks[k], i, size), i)
    requires Changed(u, w, k, SetFreed(u.blocks[k], i, false), i)
    ensures Settled(w) && Allocated(v, w, v.blocks[k][i].addr + HEADER, size)
    ensures w.blocks == v.blocks[k := w.blocks[k]] && i < |w.blocks[k]| && w.blocks[k][i].addr == v.blocks[k][i].addr
  {
    hide *;
    SettledParts(v, k);
    var bs, p, ds := v.blocks[k], v.blocks[k][i].addr + HEADER, SplitAt(v.blocks[k], i, size);
    TakeShape(bs, i, size);
    HoldsFree(bs[i], size);
    ChangedParts(v, u, k, ds, i);
    assert u.blocks[k] == ds;
    var cs := SetFreed(ds, i, false);
    ChangedParts(u, w, k, cs, i);
    assert w.blocks == v.blocks[k := cs];
    FreeNotLive(v, k, i);
    SettledAfter(v, w, k, cs);
    OthersTransitive(v, u, w, {p}, {p});
    assert {p} + {p} == {p};
    AllocatedAt(v, w, k, i, size);
  }

  lemma FreedStep(v: View, k: nat, i: nat, freed: bool)
    requires Sound(v) && k < ARENAS && i < |v.blocks[k]|
    ensures |v.heads| == |v.tails| == |v.blocks| && v.blocks[k][i].addr + HEADER <= |v.mem|
    ensures var p, cs := v.blocks[k][i].addr, SetFreed(v.blocks[k], i, freed);
      Changed(v, v.(mem := Store(v.mem, p, Load(v.mem, p).(freed := freed)), blocks := v.blocks[k := cs]), k, cs, i)
  {
    FreedEffect(v, k, i, freed);
    SameEnds(v, k, SetFreed(v.blocks[k], i, freed));
  }

  lemma HitIsFit(v: View, k: nat, i: nat, size: nat)
    requires k < |v.blocks| && i < |v.blocks[k]| && Holds(v.blocks[k][i], size)
    ensures HasFit(v.blocks[k], size)
  {
  }

  // ---- Free ----

  lemma FreeStep(v: View, u: View, w: View, k: nat, i: nat)
    requires Settled(v) && k < ARENAS && i < |v.blocks[k]| && !v.blocks[k][i].freed
    requires Changed(v, u, k, SetFreed(v.blocks[k], i, true), i)
    requires Sound(w) && Others(u, w, {}) && w.blocks == u.blocks[k := MergeAt(u.blocks[k], i)]
    ensures Settled(w) && Released(v, w, v.blocks[k][i].addr + HEADER)
    ensures w.blocks == v.blocks[k := FreeAt(v.blocks[k], i)]
  {
    var p, cs := v.blocks[k][i].addr + HEADER, SetFreed(v.blocks[k], i, true);
    assert cs[i].freed && cs[i].addr == v.blocks[k][i].addr;
    hide *;
    SettledParts(v, k);
    FreeCoalesced(v.blocks[k], i);
    ChangedParts(v, u, k, cs, i);
    assert u.blocks[k] == cs;
    FreeNotLive(u, k, i);
    FreeIsMerge(v.blocks[k], i);
    assert w.blocks == v.blocks[k := FreeAt(v.blocks[k], i)];
    SettledAfter(v, w, k, FreeAt(v.blocks[k], i));
    OthersTransitive(v, u, w, {p}, {});
    assert {p} + {} == {p};
    StillNotLive(u, w, p);
    ReleasedIntro(v, w, p);
  }

  /** Some arena has a free block for a request of this size. */
  ghost predicate Reusable(v: View, size: nat) {
    exists k :: 0 <= k < |v.blocks| && HasFit(v.blocks[k], size)
  }

  /** What was freed can be allocated again. */
  lemma FreeFits(bs: seq<Block>, i: nat)
    requires i < |bs|
    ensures HasFit(FreeAt(bs, i), bs[i].size)
  {
    var cs := SetFreed(bs, i, true);
    var ds := JoinAt(cs, i);
    assert Holds(ds[i], bs[i].size);
    var es := MergeAt(cs, i);
    if i > 0 && ds[i - 1].freed && Joins(ds, i - 1) { assert Holds(es[i - 1], bs[i].size); } else { assert Holds(es[i], bs[i].size); }
  }

  lemma FreeIsMerge(bs: seq<Block>, i: nat)
    requires i < |bs|
    ensures FreeAt(bs, i) == MergeAt(SetFreed(bs, i, true), i)
  {
  }

  lemma StillNotLive(v: View, w: View, p: int)
    requires NotLive(v, p) && Others(v, w, {})
    ensures NotLive(w, p)
  {
    hide LiveAt;
    assert p !in {};
  }

  lemma ReleasedIntro(v: View, w: View, p: nat)
    requires Others(v, w, {p}) && NotLive(w, p)
    ensures Released(v, w, p)
  {
  }

  // ---- Realloc ----

  /** The `n` bytes at `q` in `m'` are those that were at `p` in `m`. */
  ghost predicate Moved(m: Mem, p: nat, m': Mem, q: nat, n: nat) {
    p + n <= |m| && q + n <= |m'| && m'[q..q + n] == m[p..p + n]
  }

  /** The allocation of `s` bytes at `p` has become one of at least `size` bytes at `q`, with the same
      contents as far as both reach; if it moved, `q` is fresh and `p` is gone.  All else is as it was. */
  ghost predicate Resized(v: View, w: View, p: nat, s: nat, size: nat, q: nat) {
    && 0 < q && q % 8 == 0 && Others(v, w, {p, q})
    && (q != p ==> NotLive(v, q) && NotLive(w, p))
    && (exists u: nat :: size <= u < size + HEADER + 8 && LiveAt(w, q, u))
    && Moved(v.mem, p, w.mem, q, if s < size then s else size)
  }

  /** The allocation at `p` has kept its bytes, and may have grown. */
  ghost predicate Preserved(v: View, w: View, p: nat, s: nat) {
    && Others(v, w, {p})
    && (exists u: nat :: s <= u && LiveAt(w, p, u))
    && Moved(v.mem, p, w.mem, p, s)
  }

  lemma SameMoved(m: Mem, m': Mem, p: nat, n: nat, l: nat)
    requires SameBytes(m, m', p, n) && l <= n
    ensures Moved(m, p, m', p, l)
  {
  }

  lemma SameTwice(m: Mem, m': Mem, m'': Mem, p: nat, n: nat, l: nat)
    requires SameBytes(m, m', p, n) && SameBytes(m', m'', p, l) && l <= n
    ensures SameBytes(m, m'', p, l)
  {
  }

  /** After taking in the next block: the list is settled, the block is no smaller. */
  lemma GrownStep(v: View, u: View, k: nat, i: nat)
    requires Settled(v) && k < ARENAS && i < |v.blocks[k]| && !v.blocks[k][i].freed
    requires Changed(v, u, k, JoinAt(v.blocks[k], i), i)
    ensures Settled(u) && u.blocks == v.blocks[k := u.blocks[k]] && i < |u.blocks[k]|
    ensures var b, c := v.blocks[k][i], u.blocks[k][i];
      && c.addr == b.addr && b.size <= c.size && !c.freed
      && Preserved(v, u, b.addr + HEADER, b.size) && LiveAt(u, b.addr + HEADER, c.size)
  {
    var b, p, cs := v.blocks[k][i], v.blocks[k][i].addr + HEADER, JoinAt(v.blocks[k], i);
    assert cs[i].addr == b.addr && !cs[i].freed && b.size <= cs[i].size;
    ResizeCoalesced(v.blocks[k], i, 0);
    hide Sound, Others, JoinAt, Coalesced, SameBytes, LiveAt, Moved;
    SettledAfter(v, u, k, cs);
    UsedIsLive(u, k, i);
    SameMoved(v.mem, u.mem, p, cs[i].size, b.size);
  }

  lemma CutLists(v: View, u: View, w: View, k: nat, i: nat, size: nat)
    requires Settled(v) && k < ARENAS && i < |v.blocks[k]| && !v.blocks[k][i].freed
    requires Changed(v, u, k, JoinAt(v.blocks[k], i), i) && size <= u.blocks[k][i].size
    requires Changed(u, w, k, SplitAt(u.blocks[k], i, size), i)
    ensures k < |v.blocks| && i < |JoinAt(v.blocks[k], i)| && u.blocks[k] == JoinAt(v.blocks[k], i)
    ensures w.blocks == v.blocks[k := SplitAt(JoinAt(v.blocks[k], i), i, size)]
    ensures Settled(w)
  {
    SettledParts(v, k);
    JoinLength(v.blocks[k], i);
    hide *;
    var cs := JoinAt(v.blocks[k], i);
    ChangedParts(v, u, k, cs, i);
    assert u.blocks[k] == cs;
    SplitLength(cs, i, size);
    ChangedParts(u, w, k, SplitAt(cs, i, size), i);
    ResizeCoalesced(v.blocks[k], i, size);
    SettledAfter(v, w, k, SplitAt(cs, i, size));
  }

  lemma JoinLength(bs: seq<Block>, i: nat)
    requires i < |bs|
    ensures i < |JoinAt(bs, i)|
  {
  }

  lemma SplitLength(bs: seq<Block>, i: nat, size: nat)
    requires i < |bs|
    ensures i < |SplitAt(bs, i, size)|
  {
  }

  /** The block, now large enough, cut to size. */
  lemma CutStep(v: View, u: View, w: View, k: nat, i: nat, size: nat)
    requires Settled(v) && k < ARENAS && i < |v.blocks[k]| && !v.blocks[k][i].freed
    requires Changed(v, u, k, JoinAt(v.blocks[k], i), i) && size <= u.blocks[k][i].size
    requires Changed(u, w, k, SplitAt(u.blocks[k], i, size), i)
    ensures Settled(w) && Resized(v, w, v.blocks[k][i].addr + HEADER, v.blocks[k][i].size, size, v.blocks[k][i].addr + HEADER)
  {
    CutLists(v, u, w, k, i, size);
    CutShape(v.blocks[k], i, size);
    hide *;
    var b, p, cs := v.blocks[k][i], v.blocks[k][i].addr + HEADER, JoinAt(v.blocks[k], i);
    var ds := SplitAt(cs, i, size);
    ChangedParts(v, u, k, cs, i);
    ChangedParts(u, w, k, ds, i);
    OthersTransitive(v, u, w, {p}, {p});
    assert {p} + {p} == {p, p};
    UsedIsLive(w, k, i);
    HeaderFound(w, k, i);
    SameTwice(v.mem, u.mem, w.mem, p, cs[i].size, ds[i].size);
    SameMoved(v.mem, w.mem, p, ds[i].size, if b.size < size then b.size else size);
    CutResized(v, w, p, b.size, size, ds[i]);
  }

  lemma CutResized(v: View, w: View, p: nat, s: nat, size: nat, b: Block)
    requires BlockOk(b, w.brk) && p == b.addr + HEADER && Others(v, w, {p, p}) && LiveAt(w, p, b.size)
    requires size <= b.size < size + HEADER + 8 && Moved(v.mem, p, w.mem, p, if s < size then s else size)
    ensures Resized(v, w, p, s, size, p)
  {
    hide Others, LiveAt, Moved;
  }

  lemma CutShape(bs: seq<Block>, i: nat, size: nat)
    requires i < |bs| && !bs[i].freed && size <= JoinAt(bs, i)[i].size
    ensures var cs, ds := JoinAt(bs, i), SplitAt(JoinAt(bs, i), i, size);
      && cs[i].addr == ds[i].addr == bs[i].addr && !ds[i].freed
      && size <= ds[i].size < size + HEADER + 8 && ds[i].size <= cs[i].size && bs[i].size <= cs[i].size
  {
  }

  lemma LiveBytes(v: View, w: View, except: set<int>, p: nat, s: nat, n: nat)
    requires Others(v, w, except) && LiveAt(v, p, s) && p !in except && n <= s && p + s <= |v.mem|
    ensures LiveAt(w, p, s) && |w.mem| == |v.mem| && w.mem[p..p + n] == v.mem[p..p + n]
  {
    hide LiveAt;
  }

  /** Two allocations lie apart, inside the memory. */
  lemma Apart(v: View, p: nat, s: nat, q: nat, u: nat)
    requires Sound(v) && LiveAt(v, p, s) && LiveAt(v, q, u) && p != q
    ensures p + s <= |v.mem| && q + u <= |v.mem| && (p + s <= q || q + u <= p)
  {
    LiveDisjoint(v, p, s, q, u);
    LiveDisjoint(v, q, u, p, s);
    SoundParts(v);
  }

  /** An allocation that survives a change of its own arena is still in that arena. */
  lemma SameArena(v: View, w: View, k: nat, i: nat, p: nat, s: nat) returns (j: nat)
    requires Sound(v) && Sound(w) && k < ARENAS && i < |v.blocks[k]| && v.blocks[k][i].addr + HEADER == p
    requires w.blocks == v.blocks[k := w.blocks[k]] && LiveAt(w, p, s)
    ensures j < |w.blocks[k]| && w.blocks[k][j].addr + HEADER == p && !w.blocks[k][j].freed
  {
    SoundParts(v);
    hide Sound, LiveAt;
    var l;
    l, j := ArenaField(w, p, s);
    if l != k { SameAddress(v, k, i, l, j); }
  }

  /** What copying the old payload into the new block does. */
  lemma CopyStep(w: View, p: nat, s: nat, c: nat, q: nat, u: nat)
    requires Settled(w) && LiveAt(w, p, c) && LiveAt(w, q, u) && p != q && s <= c && s <= u
    ensures p + s <= |w.mem| && q + s <= |w.mem| && (p + s <= q || q + s <= p)
    ensures var x := w.(mem := Put(w.mem, q, w.mem[p..p + s]));
      Settled(x) && Others(w, x, {q}) && LiveAt(x, p, c) && LiveAt(x, q, u) && q + u <= |x.mem| && x.mem[q..q + s] == w.mem[p..p + s]
  {
    SettledParts(w, 0);
    Apart(w, p, c, q, u);
    hide Sound, Settled, Others, LiveAt, Put;
    var m := Put(w.mem, q, w.mem[p..p + s]);
    PayloadWrite(w, m, q, u);
    SameBlocksLive(w, w.(mem := m), p, c);
    SameBlocksLive(w, w.(mem := m), q, u);
  }

  /** The whole move: take in the next block, allocate, copy, free. */
  lemma MoveStep(v: View, u: View, w: View, x: View, y: View, p: nat, s: nat, c: nat, size: nat, q: nat, n: nat)
    requires Preserved(v, u, p, s) && LiveAt(u, p, c) && s <= c < size && p + c <= |u.mem|
    requires Allocated(u, w, q, size) && q != p
    requires Others(w, x, {q}) && LiveAt(x, q, n) && size <= n < size + HEADER + 8 && q + n <= |x.mem|
    requires q + s <= |x.mem| && p + s <= |w.mem| && x.mem[q..q + s] == w.mem[p..p + s]
    requires Released(x, y, p)
    ensures Resized(v, y, p, s, size, q)
  {
    hide LiveAt, Others, NotLive;
    LiveBytes(u, w, {q}, p, c, s);
    LiveBytes(x, y, {p}, q, n, s);
    OthersTransitive(v, u, w, {p}, {q});
    OthersTransitive(v, w, x, {p} + {q}, {q});
    OthersTransitive(v, x, y, {p} + {q} + {q}, {p});
    assert {p} + {q} + {q} + {p} == {p, q};
    NeverLive(v, u, {p}, q);
  }

  lemma NeverLive(v: View, w: View, except: set<int>, q: int)
    requires Others(v, w, except) && NotLive(w, q) && q !in except
    ensures NotLive(v, q)
  {
    hide LiveAt;
  }

  /** The state in which a move copies: two allocations, one of them fresh. */
  lemma BeforeCopy(u: View, w: View, p: nat, s: nat, c: nat, size: nat, q: nat) returns (n: nat)
    requires Sound(u) && Settled(w) && LiveAt(u, p, c) && s <= c < size && Allocated(u, w, q, size)
    ensures size <= n < size + HEADER + 8 && q != p && p + c <= |u.mem|
    ensures LiveAt(w, p, c) && LiveAt(w, q, n)
  {
    hide Sound, Settled, LiveAt, Others;
    FreshIsOther(u, w, p, c, size, q);
    LiveDisjoint(u, p, c, p, c);
    SoundParts(u);
    n :| size <= n < size + HEADER + 8 && LiveAt(w, q, n);
    LiveBytes(u, w, {q}, p, c, 0);
  }

  lemma FreshIsOther(u: View, w: View, p: nat, c: nat, size: nat, q: nat)
    requires LiveAt(u, p, c) && Allocated(u, w, q, size)
    ensures q != p
  {
    hide LiveAt, Others;
  }

  // ---- Calls ----

  lemma EmptySettled(v: View)
    requires Shape(v) && v.owner == map[] && forall k :: 0 <= k < ARENAS ==> v.blocks[k] == [] && v.heads[k] == v.tails[k] == v.got[k] == 0
    ensures Settled(v) && forall p, s: nat :: !LiveAt(v, p, s)
  {
  }

  /** How much room a fresh allocation has. */
  lemma FreshRoom(v: View, w: View, p: nat, size: nat, n: nat) returns (s: nat)
    requires Settled(w) && Allocated(v, w, p, size) && n <= size
    ensures size <= s < size + HEADER + 8 && LiveAt(w, p, s) && p + n <= p + s <= |w.mem|
  {
    hide LiveAt, Others;
    s :| size <= s < size + HEADER + 8 && LiveAt(w, p, s);
    SettledParts(w, 0);
    LiveDisjoint(w, p, s, p, s);
    SoundParts(w);
  }

  /** Writing into a fresh allocation leaves it one. */
  lemma WriteFresh(v: View, w: View, x: View, p: nat, size: nat, s: nat)
    requires Settled(w) && Allocated(v, w, p, size) && LiveAt(w, p, s) && size <= s < size + HEADER + 8
    requires |x.mem| == |w.mem| && x == w.(mem := x.mem)
    requires forall y :: 0 <= y < |x.mem| && !(p <= y < p + s) ==> x.mem[y] == w.mem[y]
    ensures Settled(x) && Allocated(v, x, p, size)
  {
    hide Settled, LiveAt, Others, NotLive;
    PayloadWrite(w, x.mem, p, s);
    OthersTransitive(v, w, x, {p}, {p});
    assert {p} + {p} == {p};
    SameBlocksLive(w, x, p, s);
  }
}
