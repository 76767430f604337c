/**
What each change of an arena does to the heap as a whole, and to the allocations a user owns.
*/
module HeapSteps {
  import opened Bytes
  import opened FlatMemory
  import opened BlockLists
  import opened ArenaMemory
  import opened HeapViews

  /** Except at the pointers in `p`, the same allocations are live, and hold the same bytes. */
  ghost predicate Others(v: View, w: View, p: set<int>) {
    && |w.mem| == |v.mem|
    && (forall q, s: nat :: q !in p ==> (LiveAt(v, q, s) <==> LiveAt(w, q, s)))
    && (forall q, s: nat, x :: q !in p && LiveAt(v, q, s) && 0 <= q <= x < q + s <= |v.mem| ==> w.mem[x] == v.mem[x])
  }

  /** The bytes from `p` on are what they were. */
  ghost predicate SameBytes(m: Mem, m': Mem, p: nat, n: nat) {
    p + n <= |m| == |m'| && forall x :: p <= x < p + n ==> m'[x] == m[x]
  }

  lemma OthersTransitive(u: View, v: View, w: View, p: set<int>, q: set<int>)
    requires Others(u, v, p) && Others(v, w, q)
    ensures Others(u, w, p + q)
  {
  }

  lemma SetArenaOthers(v: View, k: nat, m: Mem, cs: seq<Block>, p: int)
    requires Sound(v) && k < ARENAS && Inside(v.mem, m, cs)
    requires forall x :: Covers(cs, x) <==> Covers(v.blocks[k], x)
    requires Kept(v.blocks[k], v.mem, cs, m, {p})
    ensures Others(v, SetArena(v, k, m, cs), {p})
  {
    var w := SetArena(v, k, m, cs);
    forall q, s: nat | q != p ensures LiveAt(v, q, s) <==> LiveAt(w, q, s) { LiveSet(v, k, m, cs, q, s); }
    forall q, s: nat, x | q != p && LiveAt(v, q, s) && 0 <= q <= x < q + s <= |v.mem| ensures m[x] == v.mem[x] {
      var j :| 0 <= j < |v.blocks| && LiveIn(v.blocks[j], q, s);
      if j != k {
        NotOthers(v, k, cs, j);
        OtherArenaKept(v, k, m, cs, j, q, s, x);
      }
    }
  }

  lemma NotOthers(v: View, k: nat, cs: seq<Block>, j: nat)
    requires Sound(v) && k < ARENAS && j < ARENAS && j != k
    requires forall x :: Covers(cs, x) <==> Covers(v.blocks[k], x)
    ensures forall y :: Covers(cs, y) ==> !(y in v.owner && v.owner[y] == j)
  {
    assert ArenaOk(v, k);
  }

  lemma LiveSet(v: View, k: nat, m: Mem, cs: seq<Block>, q: int, s: nat)
    requires k < |v.heads| == |v.tails| == |v.blocks|
    requires LiveIn(v.blocks[k], q, s) <==> LiveIn(cs, q, s)
    ensures LiveAt(v, q, s) <==> LiveAt(SetArena(v, k, m, cs), q, s)
  {
    var w := SetArena(v, k, m, cs);
    if LiveAt(v, q, s) {
      var j :| 0 <= j < |v.blocks| && LiveIn(v.blocks[j], q, s);
      assert LiveIn(w.blocks[j], q, s);
    }
    if LiveAt(w, q, s) {
      var j :| 0 <= j < |w.blocks| && LiveIn(w.blocks[j], q, s);
      assert LiveIn(v.blocks[j], q, s);
    }
  }

  /** The same bytes are covered, and no allocation but the one at `p` appears or goes. */
  ghost predicate SameBut(bs: seq<Block>, cs: seq<Block>, p: int) {
    && (forall x :: Covers(cs, x) <==> Covers(bs, x))
    && (forall q, s: nat :: q != p ==> (LiveIn(bs, q, s) <==> LiveIn(cs, q, s)))
  }

  lemma SplitSame(bs: seq<Block>, i: nat, size: nat)
    requires i < |bs|
    ensures SameBut(bs, SplitAt(bs, i, size), bs[i].addr + HEADER)
  {
    hide Covers, LiveIn, SplitAt;
    var cs, p := SplitAt(bs, i, size), bs[i].addr + HEADER;
    forall x ensures Covers(cs, x) <==> Covers(bs, x) { SplitCovers(bs, i, size, x); }
    forall q, s: nat | q != p ensures LiveIn(bs, q, s) <==> LiveIn(cs, q, s) { SplitLive(bs, i, size, q, s); }
  }

  lemma JoinSame(bs: seq<Block>, i: nat)
    requires i < |bs|
    ensures SameBut(bs, JoinAt(bs, i), bs[i].addr + HEADER)
  {
    hide Covers, LiveIn, JoinAt;
    var cs, p := JoinAt(bs, i), bs[i].addr + HEADER;
    forall x ensures Covers(cs, x) <==> Covers(bs, x) { JoinCovers(bs, i, x); }
    forall q, s: nat | q != p ensures LiveIn(bs, q, s) <==> LiveIn(cs, q, s) { JoinLive(bs, i, q, s); }
  }

  lemma FreedSame(bs: seq<Block>, i: nat, freed: bool)
    requires i < |bs|
    ensures SameBut(bs, SetFreed(bs, i, freed), bs[i].addr + HEADER)
  {
    hide Covers, LiveIn, SetFreed;
    var cs, p := SetFreed(bs, i, freed), bs[i].addr + HEADER;
    forall x ensures Covers(cs, x) <==> Covers(bs, x) { FreedCovers(bs, i, freed, x); }
    forall q, s: nat | q != p ensures LiveIn(bs, q, s) <==> LiveIn(cs, q, s) { FreedLive(bs, i, freed, q, s); }
  }

  lemma ArenaParts(v: View, k: nat)
    requires Sound(v) && k < ARENAS
    ensures |v.heads| == |v.tails| == |v.blocks| == |v.got| == ARENAS && v.brk <= |v.mem| <= WORD
    ensures Listed(v.mem, k, v.blocks[k]) && Layout(v.blocks[k], v.brk)
  {
    assert ArenaOk(v, k);
  }

  /** What a change of arena `k` by header writes does: the heap stays sound, the payload of block `i`
      keeps its bytes, and all other allocations are as they were. */
  ghost predicate Changed(v: View, w: View, k: nat, cs: seq<Block>, i: nat)
    requires k < |v.blocks| && i < |cs|
  {
    && Sound(w) && w.blocks == v.blocks[k := cs]
    && w.brk == v.brk && w.owner == v.owner && w.got == v.got
    && Others(v, w, {cs[i].addr + HEADER}) && SameBytes(v.mem, w.mem, cs[i].addr + HEADER, cs[i].size)
  }

  /** A change of one list that rewrites headers and affects no liveness but that of block `i`. */
  lemma HeaderChange(v: View, k: nat, m: Mem, cs: seq<Block>, i: nat)
    requires Sound(v) && k < ARENAS && HeadersOnly(v.mem, m, cs) && i < |cs|
    requires Listed(m, k, cs) && Layout(cs, v.brk) && Total(cs) == Total(v.blocks[k])
    requires SameBut(v.blocks[k], cs, cs[i].addr + HEADER)
    ensures Changed(v, SetArena(v, k, m, cs), k, cs, i)
  {
    SoundParts(v);
    hide *;
    SameButParts(v.blocks[k], cs, cs[i].addr + HEADER);
    HeadersInside(v.mem, m, cs);
    HeadersKeep(v.blocks[k], v.mem, cs, m, v.brk, cs[i].addr + HEADER);
    SetArenaSound(v, k, m, cs);
    SetArenaOthers(v, k, m, cs, cs[i].addr + HEADER);
    PayloadSame(v, m, k, cs, i);
    ChangedIntro(v, k, m, cs, i);
  }

  lemma SoundParts(v: View)
    requires Sound(v)
    ensures v.brk <= |v.mem| && |v.heads| == |v.tails| == |v.blocks| == |v.got| == ARENAS
  {
  }

  lemma SameButParts(bs: seq<Block>, cs: seq<Block>, p: int)
    requires SameBut(bs, cs, p)
    ensures forall x :: Covers(cs, x) <==> Covers(bs, x)
    ensures forall q, s: nat :: q != p ==> (LiveIn(bs, q, s) <==> LiveIn(cs, q, s))
  {
  }

  lemma ChangedIntro(v: View, k: nat, m: Mem, cs: seq<Block>, i: nat)
    requires k < |v.heads| == |v.tails| == |v.blocks| && i < |cs|
    requires Sound(SetArena(v, k, m, cs)) && Others(v, SetArena(v, k, m, cs), {cs[i].addr + HEADER})
    requires SameBytes(v.mem, m, cs[i].addr + HEADER, cs[i].size)
    ensures Changed(v, SetArena(v, k, m, cs), k, cs, i)
  {
  }

  lemma PayloadSame(v: View, m: Mem, k: nat, cs: seq<Block>, i: nat)
    requires i < |cs| && Layout(cs, v.brk) && v.brk <= |v.mem| && HeadersOnly(v.mem, m, cs)
    ensures SameBytes(v.mem, m, cs[i].addr + HEADER, cs[i].size)
  {
    assert BlockOk(cs[i], v.brk);
    var p := cs[i].addr + HEADER;
    forall x | p <= x < p + cs[i].size ensures m[x] == v.mem[x] { PayloadBytesKept(v.mem, m, cs, v.brk, i, x); }
  }

  lemma SplitPlaces(bs: seq<Block>, i: nat, size: nat)
    requires i < |bs| && Splits(bs[i], size)
    ensures i < |SplitAt(bs, i, size)| && SplitAt(bs, i, size)[i] == bs[i].(size := size)
  {
  }

  lemma JoinPlaces(bs: seq<Block>, i: nat)
    requires i < |bs| && Joins(bs, i)
    ensures i + 1 < |bs| && i < |JoinAt(bs, i)| && JoinAt(bs, i)[i] == bs[i].(size := bs[i].size + HEADER + bs[i + 1].size)
  {
  }

  lemma SplitEffect(v: View, k: nat, i: nat, size: nat)
    requires Sound(v) && k < ARENAS && i < |v.blocks[k]| && Rounded(size)
    requires Splits(v.blocks[k][i], size)
    ensures var p, cs := v.blocks[k][i].addr, SplitAt(v.blocks[k], i, size);
      CanSplit(v.mem, p, size) && Changed(v, SetArena(v, k, SplitMemory(v.mem, p, size), cs), k, cs, i)
  {
    ArenaParts(v, k);
    SplitPlaces(v.blocks[k], i, size);
    hide *;
    var bs := v.blocks[k];
    SplitListed(v.mem, k, bs, i, size, v.brk);
    SplitLayout(bs, i, size, v.brk);
    SplitTotal(bs, i, size);
    SplitSame(bs, i, size);
    HeaderChange(v, k, SplitMemory(v.mem, bs[i].addr, size), SplitAt(bs, i, size), i);
  }

  lemma JoinEffect(v: View, k: nat, i: nat)
    requires Sound(v) && k < ARENAS && i < |v.blocks[k]| && Joins(v.blocks[k], i)
    ensures var p, cs := v.blocks[k][i].addr, JoinAt(v.blocks[k], i);
      CanJoin(v.mem, p) && Changed(v, SetArena(v, k, JoinMemory(v.mem, p), cs), k, cs, i)
  {
    ArenaParts(v, k);
    JoinPlaces(v.blocks[k], i);
    hide *;
    var bs := v.blocks[k];
    JoinListed(v.mem, k, bs, i, v.brk);
    JoinLayout(bs, i, v.brk);
    JoinTotal(bs, i);
    JoinSame(bs, i);
    HeaderChange(v, k, JoinMemory(v.mem, bs[i].addr), JoinAt(bs, i), i);
  }

  lemma FreedEffect(v: View, k: nat, i: nat, freed: bool)
    requires Sound(v) && k < ARENAS && i < |v.blocks[k]|
    ensures v.blocks[k][i].addr + HEADER <= |v.mem|
    ensures var p, cs := v.blocks[k][i].addr, SetFreed(v.blocks[k], i, freed);
      Changed(v, SetArena(v, k, Store(v.mem, p, Load(v.mem, p).(freed := freed)), cs), k, cs, i)
  {
    ArenaParts(v, k);
    hide Sound, Changed, Listed, Layout, Total, HeadersOnly, SameBut, Store, SetArena;
    var bs := v.blocks[k];
    FreedListed(v.mem, k, bs, i, freed, v.brk);
    FreedTotal(bs, i, freed);
    FreedSame(bs, i, freed);
    HeaderChange(v, k, Store(v.mem, bs[i].addr, Load(v.mem, bs[i].addr).(freed := freed)), SetFreed(bs, i, freed), i);
  }

  // ---- A new region ----

  /** Block `b` can be put at the end of arena `k`, above the break. */
  ghost predicate CanGrow(v: View, k: nat, b: Block) {
    Sound(v) && k < ARENAS && v.brk <= b.addr && BlockOk(b, |v.mem|) && !b.freed
  }

  lemma GrowParts(v: View, k: nat, b: Block)
    requires CanGrow(v, k, b)
    ensures |v.heads| == |v.tails| == |v.blocks| == |v.got| == ARENAS && Sound(v) && k < 5 <= ARENAS && |v.mem| <= WORD && !b.freed
    ensures v.brk <= b.addr && BlockOk(b, End(b)) && End(b) <= |v.mem| && End(b) % 8 == 0
    ensures Listed(v.mem, k, v.blocks[k]) && Layout(v.blocks[k], v.brk)
    ensures v.tails[k] == AddrAt(v.blocks[k], |v.blocks[k]| - 1)
    ensures b.addr + HEADER <= |v.mem|
  {
    hide Listed, Layout, Total, Tiled, AddrAt;
    assert ArenaOk(v, k);
  }

  lemma GrowReady(v: View, k: nat, b: Block)
    requires CanGrow(v, k, b)
    ensures |v.tails| == |v.blocks| == ARENAS && k < ARENAS
    ensures v.tails[k] + HEADER <= |v.mem| && b.addr + HEADER <= |v.mem|
    ensures var m := AppendMemory(v.mem, k, v.tails[k], b.addr, b.size);
      && Layout(v.blocks[k] + [b], End(b)) && Listed(m, k, v.blocks[k] + [b]) && HeadersOnly(v.mem, m, v.blocks[k] + [b])
  {
    hide *;
    GrowParts(v, k, b);
    AppendLayout(v.blocks[k], b, v.brk);
    AppendListed(v.mem, k, v.blocks[k], b, End(b));
  }

  lemma GrowEffect(v: View, k: nat, b: Block)
    requires CanGrow(v, k, b)
    ensures |v.heads| == |v.tails| == |v.blocks| == |v.got| == ARENAS && k < ARENAS
    ensures v.tails[k] + HEADER <= |v.mem| && b.addr + HEADER <= |v.mem|
    ensures var w := AddRegion(v, k, b.addr, AppendMemory(v.mem, k, v.tails[k], b.addr, b.size), v.blocks[k] + [b], HEADER + b.size);
      Sound(w) && Others(v, w, {b.addr + HEADER})
  {
    hide *;
    GrowParts(v, k, b);
    GrowReady(v, k, b);
    var m := AppendMemory(v.mem, k, v.tails[k], b.addr, b.size);
    HeadersInside(v.mem, m, v.blocks[k] + [b]);
    AddRegionSound(v, k, b.addr, m, b);
    GrowOthers(v, k, m, b);
  }

  /** Nothing is live above the break. */
  lemma NoneAbove(v: View, p: int, s: nat)
    requires Sound(v) && v.brk <= p
    ensures !LiveAt(v, p, s)
  {
    if LiveAt(v, p, s) {
      var k, i := ArenaField(v, p, s);
      ArenaLayout(v, k, i);
    }
  }

  lemma GrowOthers(v: View, k: nat, m: Mem, b: Block)
    requires Sound(v) && k < ARENAS && v.brk <= b.addr && Layout(v.blocks[k] + [b], End(b)) && End(b) <= |v.mem|
    requires HeadersOnly(v.mem, m, v.blocks[k] + [b])
    ensures Others(v, AddRegion(v, k, b.addr, m, v.blocks[k] + [b], HEADER + b.size), {b.addr + HEADER})
  {
    var cs, p := v.blocks[k] + [b], b.addr + HEADER;
    var w := AddRegion(v, k, b.addr, m, cs, HEADER + b.size);
    forall q, s: nat | q != p ensures LiveAt(v, q, s) <==> LiveAt(w, q, s) {
      AppendLive(v.blocks[k], b, q, s);
      LiveSet(v, k, m, cs, q, s);
      SameBlocksLive(SetArena(v, k, m, cs), w, q, s);
    }
    HeadersInside(v.mem, m, cs);
    forall q, s: nat, x | q != p && LiveAt(v, q, s) && 0 <= q <= x < q + s <= |v.mem| ensures m[x] == v.mem[x] {
      var j :| 0 <= j < |v.blocks| && LiveIn(v.blocks[j], q, s);
      if j == k {
        AppendLive(v.blocks[k], b, q, s);
        PayloadKept(v.mem, m, cs, End(b), q, s, x);
      } else {
        OtherBytes(v, k, b, j);
        OwnedElsewhere(v, k, b, j);
        OtherArenaKept(v, k, m, cs, j, q, s, x);
      }
    }
  }

  lemma OwnedElsewhere(v: View, k: nat, b: Block, j: nat)
    requires Sound(v) && k < ARENAS && j < ARENAS && j != k
    requires forall x :: Covers(v.blocks[j], x) ==> !Covers(v.blocks[k] + [b], x)
    ensures forall y :: Covers(v.blocks[k] + [b], y) ==> !(y in v.owner && v.owner[y] == j)
  {
    assert ArenaOk(v, j);
  }

  lemma SameBlocksLive(v: View, w: View, q: int, s: nat)
    requires v.blocks == w.blocks
    ensures LiveAt(v, q, s) <==> LiveAt(w, q, s)
  {
  }

  // ---- Writing a payload ----

  predicate InPayload(b: Block, x: int) {
    b.addr + HEADER <= x < End(b)
  }

  /** Whatever is written into a live payload, the heap stays settled and other allocations keep their
      bytes. */
  lemma PayloadWrite(v: View, m: Mem, p: int, s: nat)
    requires Settled(v) && LiveAt(v, p, s) && |m| == |v.mem|
    requires forall x :: 0 <= x < |m| && !(p <= x < p + s) ==> m[x] == v.mem[x]
    ensures Settled(v.(mem := m)) && Others(v, v.(mem := m), {p})
  {
    hide Sound;
    var w := v.(mem := m);
    var k, i := ArenaField(v, p, s);
    PayloadSound(v, m, k, i);
    forall q, t: nat ensures LiveAt(v, q, t) <==> LiveAt(w, q, t) { SameBlocksLive(v, w, q, t); }
    forall q, t: nat, x | q != p && LiveAt(v, q, t) && 0 <= q <= x < q + t <= |v.mem| ensures m[x] == v.mem[x] {
      LiveDisjoint(v, p, s, q, t);
    }
  }

  lemma PayloadSound(v: View, m: Mem, k: nat, i: nat)
    requires Sound(v) && k < ARENAS && i < |v.blocks[k]| && |m| == |v.mem|
    requires forall x :: 0 <= x < |m| && !InPayload(v.blocks[k][i], x) ==> m[x] == v.mem[x]
    ensures Sound(v.(mem := m))
  {
    hide Listed, Layout, Total, Tiled;
    var w := v.(mem := m);
    forall j | 0 <= j < ARENAS ensures ArenaOk(w, j) {
      PayloadListed(v, m, k, i, j);
      assert ArenaOk(v, j);
    }
  }

  lemma PayloadListed(v: View, m: Mem, k: nat, i: nat, j: nat)
    requires Sound(v) && k < ARENAS && i < |v.blocks[k]| && j < ARENAS && |m| == |v.mem|
    requires forall x :: 0 <= x < |m| && !InPayload(v.blocks[k][i], x) ==> m[x] == v.mem[x]
    ensures Listed(m, j, v.blocks[j])
  {
    ArenaParts(v, j);
    hide Load, Layout, HeaderOf, Sound;
    var bs := v.blocks[j];
    forall n | 0 <= n < |bs| ensures Load(m, bs[n].addr) == HeaderOf(j, bs, n) {
      HeaderNotPayload(v, k, i, j, n);
      forall x | bs[n].addr <= x < bs[n].addr + HEADER ensures v.mem[x] == m[x] { assert InHeader(bs[n], x); }
      LoadUnchanged(v.mem, m, bs[n].addr);
    }
  }

  /** No header overlaps a payload. */
  lemma HeaderNotPayload(v: View, k: nat, i: nat, j: nat, n: nat)
    requires Sound(v) && k < ARENAS && i < |v.blocks[k]| && j < ARENAS && n < |v.blocks[j]|
    ensures var b, c := v.blocks[k][i], v.blocks[j][n];
      BlockOk(c, v.brk) && forall x :: InHeader(c, x) ==> !InPayload(b, x)
  {
    var b, c := v.blocks[k][i], v.blocks[j][n];
    ArenaLayout(v, k, i);
    ArenaLayout(v, j, n);
    hide Sound;
    forall x | InHeader(c, x) ensures !InPayload(b, x) {
      if InPayload(b, x) {
        assert InBlock(v.blocks[k][i], x) && InBlock(v.blocks[j][n], x);
        assert Covers(v.blocks[k], x) && Covers(v.blocks[j], x);
        ArenasDisjoint(v, k, j, x);
        Ordered(v, k, i, n);
        assert i == n;
      }
    }
  }
}
