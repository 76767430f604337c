/**
The whole heap: five arenas that share one memory.  Every byte that an arena obtained from `sbrk`
belongs to it for ever, and its blocks tile exactly those bytes.
*/
module HeapViews {
  import opened Bytes
  import opened FlatMemory
  import opened BlockLists
  import opened ArenaMemory

  const ARENAS: nat := 5

  /** The state of the allocator.  `blocks` are the block lists, `owner` the arena that obtained each
      byte, and `got` the number of bytes each arena obtained. */
  datatype View = View(mem: Mem, brk: nat, heads: seq<nat>, tails: seq<nat>,
                       blocks: seq<seq<Block>>, owner: map<int, nat>, got: seq<nat>)

  ghost predicate Tiled(owner: map<int, nat>, k: nat, bs: seq<Block>) {
    forall x :: Covers(bs, x) <==> x in owner && owner[x] == k
  }

  ghost predicate ArenaOk(v: View, k: nat)
    requires k < |v.heads| == |v.tails| == |v.blocks| == |v.got|
  {
    var bs := v.blocks[k];
    && Listed(v.mem, k, bs) && Layout(bs, v.brk)
    && v.heads[k] == AddrAt(bs, 0) && v.tails[k] == AddrAt(bs, |bs| - 1)
    && Tiled(v.owner, k, bs) && Total(bs) == v.got[k]
  }

  ghost predicate Shape(v: View) {
    && |v.heads| == |v.tails| == |v.blocks| == |v.got| == ARENAS
    && 0 < v.brk <= |v.mem| <= WORD && v.brk % 8 == 0
    && (forall x :: x in v.owner ==> x < v.brk)
  }

  /** Lists, order, alignment and tiling hold in every arena. */
  ghost predicate Sound(v: View) {
    Shape(v) && forall k :: 0 <= k < ARENAS ==> ArenaOk(v, k)
  }

  /** Between operations, moreover, no two adjacent neighbours are free. */
  ghost predicate Settled(v: View) {
    Sound(v) && forall k :: 0 <= k < ARENAS ==> Coalesced(v.blocks[k])
  }

  ghost predicate LiveAt(v: View, p: int, s: nat) {
    exists k :: 0 <= k < |v.blocks| && LiveIn(v.blocks[k], p, s)
  }

  // ---- What the invariant says to a user ----

  /** Live payloads are 8-aligned, lie in memory, and never overlap each other. */
  lemma LiveDisjoint(v: View, p: int, s: nat, q: int, u: nat)
    requires Sound(v) && LiveAt(v, p, s) && LiveAt(v, q, u)
    ensures p % 8 == 0 && 0 < p && p + s <= v.brk
    ensures p == q ==> s == u
    ensures p != q ==> p + s <= q || q + u <= p
  {
    hide Sound;
    var k, i := ArenaField(v, p, s);
    var l, j := ArenaField(v, q, u);
    ArenaLayout(v, k, i);
    ArenaLayout(v, l, j);
    if k == l {
      Ordered(v, k, i, j);
    } else if p < q + u && q < p + s {
      var x := if p < q then q else p;
      assert InBlock(v.blocks[k][i], x) && InBlock(v.blocks[l][j], x);
      assert Covers(v.blocks[k], x) && Covers(v.blocks[l], x);
      ArenasDisjoint(v, k, l, x);
    }
  }

  lemma ArenaLayout(v: View, k: nat, i: nat)
    requires Sound(v) && k < ARENAS && i < |v.blocks[k]|
    ensures BlockOk(v.blocks[k][i], v.brk) && |v.blocks| == ARENAS
  {
    assert ArenaOk(v, k);
  }

  lemma Ordered(v: View, k: nat, i: nat, j: nat)
    requires Sound(v) && k < ARENAS && i < |v.blocks[k]| && j < |v.blocks[k]|
    ensures i < j ==> End(v.blocks[k][i]) <= v.blocks[k][j].addr
    ensures j < i ==> End(v.blocks[k][j]) <= v.blocks[k][i].addr
  {
    assert ArenaOk(v, k);
  }

  /** Blocks of different arenas never overlap. */
  lemma ArenasDisjoint(v: View, k: nat, l: nat, x: int)
    requires Sound(v) && k < ARENAS && l < ARENAS && Covers(v.blocks[k], x) && Covers(v.blocks[l], x)
    ensures k == l
  {
    assert ArenaOk(v, k) && ArenaOk(v, l);
  }

  /** The `arena` field of a live block names the arena whose list holds the block. */
  lemma ArenaField(v: View, p: int, s: nat) returns (k: nat, i: nat)
    requires Sound(v) && LiveAt(v, p, s)
    ensures k < ARENAS && i < |v.blocks[k]| && v.blocks[k][i].addr + HEADER == p
    ensures v.blocks[k][i].size == s && !v.blocks[k][i].freed
    ensures HEADER < p <= |v.mem| && Load(v.mem, p - HEADER).arena == k && Load(v.mem, p - HEADER).size == s
  {
    k :| 0 <= k < |v.blocks| && LiveIn(v.blocks[k], p, s);
    var bs := v.blocks[k];
    assert ArenaOk(v, k);
    i :| 0 <= i < |bs| && bs[i].addr + HEADER == p && bs[i].size == s && !bs[i].freed;
    assert BlockOk(bs[i], v.brk) && Load(v.mem, bs[i].addr) == HeaderOf(k, bs, i);
  }

  // ---- Changing one arena ----

  /** Bytes outside the blocks of a list are unchanged. */
  ghost predicate Inside(m: Mem, m': Mem, bs: seq<Block>) {
    |m| == |m'| && forall x :: 0 <= x < |m| && !Covers(bs, x) ==> m'[x] == m[x]
  }

  lemma HeadersInside(m: Mem, m': Mem, bs: seq<Block>)
    requires HeadersOnly(m, m', bs)
    ensures Inside(m, m', bs)
  {
    forall x | 0 <= x < |m| && !Covers(bs, x) ensures m'[x] == m[x] {
      forall i | 0 <= i < |bs| ensures !InHeader(bs[i], x) { assert !InBlock(bs[i], x); }
    }
  }

  /** An arena whose bytes are unchanged is still right. */
  lemma ListedKept(m: Mem, m': Mem, id: nat, bs: seq<Block>)
    requires Listed(m, id, bs) && |m| == |m'| && forall x :: 0 <= x < |m| && Covers(bs, x) ==> m'[x] == m[x]
    ensures Listed(m', id, bs)
  {
    forall i | 0 <= i < |bs| ensures Load(m', bs[i].addr) == HeaderOf(id, bs, i) {
      forall x | bs[i].addr <= x < bs[i].addr + HEADER ensures m[x] == m'[x] {
        assert InBlock(bs[i], x);
        assert Covers(bs, x);
      }
      LoadUnchanged(m, m', bs[i].addr);
    }
  }

  function SetArena(v: View, k: nat, m: Mem, cs: seq<Block>): View
    requires k < |v.heads| == |v.tails| == |v.blocks|
  {
    v.(mem := m, heads := v.heads[k := AddrAt(cs, 0)], tails := v.tails[k := AddrAt(cs, |cs| - 1)], blocks := v.blocks[k := cs])
  }

  /** One arena gets a new list over the same bytes; the others are untouched. */
  lemma SetArenaSound(v: View, k: nat, m: Mem, cs: seq<Block>)
    requires Sound(v) && k < ARENAS && Inside(v.mem, m, cs)
    requires Listed(m, k, cs) && Layout(cs, v.brk) && Total(cs) == Total(v.blocks[k])
    requires forall x :: Covers(cs, x) <==> Covers(v.blocks[k], x)
    ensures Sound(SetArena(v, k, m, cs))
  {
    hide Listed, Layout, Total, Covers;
    var w := SetArena(v, k, m, cs);
    assert ArenaOk(v, k);
    forall j | 0 <= j < ARENAS ensures ArenaOk(w, j) {
      if j != k {
        assert ArenaOk(v, j);
        ListedKept(v.mem, m, j, v.blocks[j]);
      }
    }
  }

  /** The bytes of every allocation in another arena are untouched. */
  lemma OtherArenaKept(v: View, k: nat, m: Mem, cs: seq<Block>, j: nat, q: int, s: nat, x: int)
    requires Sound(v) && k < ARENAS && j < ARENAS && j != k && Inside(v.mem, m, cs)
    requires forall y :: Covers(cs, y) ==> !(y in v.owner && v.owner[y] == j)
    requires LiveIn(v.blocks[j], q, s) && q <= x < q + s
    ensures 0 <= x < |m| && m[x] == v.mem[x]
  {
    assert ArenaOk(v, j);
    var bs := v.blocks[j];
    var i :| 0 <= i < |bs| && bs[i].addr + HEADER == q && bs[i].size == s && !bs[i].freed;
    assert BlockOk(bs[i], v.brk) && InBlock(bs[i], x);
    assert Covers(bs, x);
  }

  // ---- Obtaining more memory ----

  predicate InRegion(x: int, base: nat, n: nat) {
    base <= x < base + n
  }

  function Grown(owner: map<int, nat>, base: nat, n: nat, k: nat): (o: map<int, nat>)
    ensures forall x :: x in o <==> x in owner || base <= x < base + n
    ensures forall x :: x in o ==> o[x] == if base <= x < base + n then k else owner[x]
  {
    owner + map x: int | base <= x < base + n && InRegion(x, base, n) :: k
  }

  function AddRegion(v: View, k: nat, base: nat, m: Mem, cs: seq<Block>, n: nat): View
    requires k < |v.heads| == |v.tails| == |v.blocks| == |v.got|
  {
    SetArena(v, k, m, cs).(brk := base + n, owner := Grown(v.owner, base, n, k), got := v.got[k := v.got[k] + n])
  }

  /** A region above the break becomes one block at the end of an arena's list. */
  lemma AddRegionSound(v: View, k: nat, base: nat, m: Mem, b: Block)
    requires Sound(v) && k < ARENAS && v.brk <= base && |m| == |v.mem| && End(b) <= |v.mem| && End(b) % 8 == 0
    requires b.addr == base && BlockOk(b, End(b))
    requires Inside(v.mem, m, v.blocks[k] + [b]) && Listed(m, k, v.blocks[k] + [b])
    ensures Sound(AddRegion(v, k, base, m, v.blocks[k] + [b], HEADER + b.size))
  {
    hide ArenaOk, AddRegion, Inside, Listed, BlockOk, Layout;
    var w := AddRegion(v, k, base, m, v.blocks[k] + [b], HEADER + b.size);
    GrownShape(v, k, base, m, b);
    GrownArena(v, k, base, m, b);
    forall j | 0 <= j < ARENAS ensures ArenaOk(w, j) { if j != k { UntouchedArena(v, k, base, m, b, j); } }
  }

  lemma GrownShape(v: View, k: nat, base: nat, m: Mem, b: Block)
    requires Shape(v) && k < ARENAS && v.brk <= base && |m| == |v.mem| && End(b) <= |v.mem| && End(b) % 8 == 0 && b.addr == base
    ensures Shape(AddRegion(v, k, base, m, v.blocks[k] + [b], HEADER + b.size))
  {
  }

  lemma GrownArena(v: View, k: nat, base: nat, m: Mem, b: Block)
    requires Sound(v) && k < ARENAS && v.brk <= base
    requires b.addr == base && BlockOk(b, End(b)) && Listed(m, k, v.blocks[k] + [b])
    ensures ArenaOk(AddRegion(v, k, base, m, v.blocks[k] + [b], HEADER + b.size), k)
  {
    hide Listed, Layout, Total, Tiled;
    var bs := v.blocks[k];
    assert ArenaOk(v, k);
    AppendLayout(bs, b, v.brk);
    AppendTiled(v.owner, k, bs, b);
    TotalAppend(bs, [b]);
    TotalOne(b);
  }

  lemma UntouchedArena(v: View, k: nat, base: nat, m: Mem, b: Block, j: nat)
    requires Sound(v) && k < ARENAS && j < ARENAS && j != k && v.brk <= base && b.addr == base
    requires Inside(v.mem, m, v.blocks[k] + [b])
    ensures ArenaOk(AddRegion(v, k, base, m, v.blocks[k] + [b], HEADER + b.size), j)
  {
    assert ArenaOk(v, j);
    OtherBytes(v, k, b, j);
    hide Layout, Total, Tiled, Covers;
    ListedKept(v.mem, m, j, v.blocks[j]) by {
      assert forall x :: 0 <= x < |m| && Covers(v.blocks[j], x) ==> m[x] == v.mem[x];
    }
    RaiseBreak(v.blocks[j], v.brk, End(b));
  }

  lemma AppendLayout(bs: seq<Block>, b: Block, brk: nat)
    requires Layout(bs, brk) && brk <= b.addr && BlockOk(b, End(b))
    ensures Layout(bs + [b], End(b))
  {
    var cs := bs + [b];
    forall i | 0 <= i < |cs| ensures BlockOk(cs[i], End(b)) { if i < |bs| { assert BlockOk(bs[i], brk); } }
    forall i, j | 0 <= i < j < |cs| ensures End(cs[i]) <= cs[j].addr { if i < |bs| { assert BlockOk(bs[i], brk); } }
  }

  lemma RaiseBreak(bs: seq<Block>, brk: nat, brk': nat)
    requires Layout(bs, brk) && brk <= brk'
    ensures Layout(bs, brk')
  {
    forall i | 0 <= i < |bs| ensures BlockOk(bs[i], brk') { assert BlockOk(bs[i], brk); }
  }

  lemma AppendTiled(owner: map<int, nat>, k: nat, bs: seq<Block>, b: Block)
    requires Tiled(owner, k, bs)
    ensures Tiled(Grown(owner, b.addr, HEADER + b.size, k), k, bs + [b])
  {
    forall x ensures Covers(bs + [b], x) <==> x in Grown(owner, b.addr, HEADER + b.size, k) && Grown(owner, b.addr, HEADER + b.size, k)[x] == k {
      AppendCovers(bs, b, x);
    }
  }

  /** The new region overlaps nothing of another arena. */
  lemma OtherBytes(v: View, k: nat, b: Block, j: nat)
    requires Sound(v) && k < ARENAS && j < ARENAS && j != k && v.brk <= b.addr
    ensures Tiled(Grown(v.owner, b.addr, HEADER + b.size, k), j, v.blocks[j])
    ensures forall x :: Covers(v.blocks[j], x) ==> !Covers(v.blocks[k] + [b], x)
  {
    assert ArenaOk(v, j) && ArenaOk(v, k);
    forall x | Covers(v.blocks[j], x) ensures !Covers(v.blocks[k] + [b], x) { AppendCovers(v.blocks[k], b, x); }
  }
}
