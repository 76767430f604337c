/**
The memory-safety runtime: an ordered index of registered blocks, and an address check that looks only at
the two neighbours of the address.  Address arithmetic is modulo 2^64, as in the code.
*/
module MemorySafety {
  import opened Bytes

  const SHADOW: int := 16

  /** A registered block. */
  datatype Block = Block(begin: nat, size: nat, freed: bool)

  function End(b: Block): nat {
    b.begin + b.size
  }

  /** The index of an ordered map: keys strictly increase.  The blocks are disjoint, and they and their
      shadows do not wrap around. */
  ghost predicate Ordered(bs: seq<Block>) {
    && (forall i :: 0 <= i < |bs| ==> SHADOW <= bs[i].begin && End(bs[i]) + SHADOW < WORD)
    && (forall i, j :: 0 <= i < j < |bs| ==> bs[i].begin < bs[j].begin && End(bs[i]) <= bs[j].begin)
  }

  /** `upper_bound`: the number of blocks that begin at or before the address. */
  function UpperBound(bs: seq<Block>, addr: nat): (n: nat)
    ensures n <= |bs|
    ensures n < |bs| ==> addr < bs[n].begin
    ensures n > 0 ==> bs[n - 1].begin <= addr
  {
    if bs == [] then 0
    else if bs[|bs| - 1].begin <= addr then |bs|
    else UpperBound(bs[..|bs| - 1], addr)
  }

  /** The check of the code: true if it returns, false if it aborts. */
  function Check(bs: seq<Block>, addr: nat, size: nat): bool {
    var n := UpperBound(bs, addr);
    if n > 0 && addr < (End(bs[n - 1]) % WORD + SHADOW) % WORD then
      !bs[n - 1].freed && (addr + size) % WORD <= End(bs[n - 1]) % WORD
    else
      !(n < |bs| && addr >= (bs[n].begin - SHADOW) % WORD)
  }

  // ---- The specification: a scan of all blocks ----

  /** The whole access lies in the block. */
  predicate Contains(b: Block, addr: nat, size: nat) {
    b.begin <= addr && addr + size <= End(b)
  }

  /** The address lies in the block, or within 16 bytes of it. */
  predicate Near(b: Block, addr: nat) {
    b.begin - SHADOW <= addr < End(b) + SHADOW
  }

  predicate Touches(b: Block, addr: nat, size: nat) {
    addr < End(b) && b.begin < addr + size
  }

  ghost predicate InLive(bs: seq<Block>, addr: nat, size: nat) {
    exists i :: 0 <= i < |bs| && !bs[i].freed && Contains(bs[i], addr, size)
  }

  ghost predicate NearNone(bs: seq<Block>, addr: nat) {
    forall i :: 0 <= i < |bs| ==> !Near(bs[i], addr)
  }

  /** The neighbours-only check accepts exactly when a scan of all blocks finds a live one that contains the
      whole access, or none within 16 bytes of its start. */
  lemma CheckExactly(bs: seq<Block>, addr: nat, size: nat)
    requires Ordered(bs) && 0 < size && addr + size < WORD
    ensures Check(bs, addr, size) <==> InLive(bs, addr, size) || NearNone(bs, addr)
  {
    var n := UpperBound(bs, addr);
    NoWrap(bs, addr, size, n);
    if n > 0 && addr < End(bs[n - 1]) + SHADOW {
      PrevDecides(bs, addr, size, n);
    } else {
      NothingHere(bs, addr, size, n);
      hide Ordered, InLive, NearNone, UpperBound;
      assert Check(bs, addr, size) == !(n < |bs| && addr >= bs[n].begin - SHADOW);
    }
  }

  /** Only the predecessor of an address can contain an access at it. */
  lemma OnlyPrev(bs: seq<Block>, addr: nat, size: nat, n: nat, i: nat)
    requires Ordered(bs) && 0 < size && 0 < n <= |bs| && i < |bs| && i != n - 1
    requires bs[n - 1].begin <= addr && (n < |bs| ==> addr < bs[n].begin)
    ensures !Contains(bs[i], addr, size)
  {
    if i < n - 1 { assert End(bs[i]) <= bs[n - 1].begin; }
    if i > n { assert bs[n].begin < bs[i].begin; }
  }

  /** Near its predecessor, an address is judged by that block alone. */
  lemma PrevDecides(bs: seq<Block>, addr: nat, size: nat, n: nat)
    requires Ordered(bs) && 0 < size && n == UpperBound(bs, addr) && n > 0 && addr < End(bs[n - 1]) + SHADOW
    ensures !NearNone(bs, addr)
    ensures InLive(bs, addr, size) <==> !bs[n - 1].freed && addr + size <= End(bs[n - 1])
  {
    assert Near(bs[n - 1], addr);
    hide Ordered, UpperBound;
    forall i | 0 <= i < |bs| && i != n - 1 ensures !Contains(bs[i], addr, size) { OnlyPrev(bs, addr, size, n, i); }
    if !bs[n - 1].freed && addr + size <= End(bs[n - 1]) { assert Contains(bs[n - 1], addr, size); }
  }

  lemma NoWrap(bs: seq<Block>, addr: nat, size: nat, n: nat)
    requires Ordered(bs) && addr + size < WORD && n <= |bs|
    ensures (addr + size) % WORD == addr + size
    ensures n > 0 ==> End(bs[n - 1]) % WORD == End(bs[n - 1]) && (End(bs[n - 1]) + SHADOW) % WORD == End(bs[n - 1]) + SHADOW
    ensures n < |bs| ==> (bs[n].begin - SHADOW) % WORD == bs[n].begin - SHADOW
  {
  }

  /** Away from its predecessor and successor, an address is away from all blocks. */
  lemma NothingHere(bs: seq<Block>, addr: nat, size: nat, n: nat)
    requires Ordered(bs) && 0 < size && n == UpperBound(bs, addr) && (n > 0 ==> End(bs[n - 1]) + SHADOW <= addr)
    ensures !InLive(bs, addr, size)
    ensures NearNone(bs, addr) <==> (n < |bs| ==> addr < bs[n].begin - SHADOW)
  {
    forall i | 0 <= i < |bs| ensures !Contains(bs[i], addr, size) && (i < n ==> !Near(bs[i], addr)) {
      if i < n - 1 { assert End(bs[i]) <= bs[n - 1].begin; }
      if i > n { assert bs[n].begin < bs[i].begin; }
    }
    if n < |bs| {
      if addr < bs[n].begin - SHADOW {
        forall i | 0 <= i < |bs| ensures !Near(bs[i], addr) { if i > n { assert bs[n].begin < bs[i].begin; } }
      } else {
        assert Near(bs[n], addr);
      }
    }
  }

  // ---- What acceptance means ----

  /** An accepted access outside all live blocks touches a block exactly if it runs into the next one. */
  lemma AcceptedExactly(bs: seq<Block>, addr: nat, size: nat)
    requires Ordered(bs) && 0 < size && addr + size < WORD && Check(bs, addr, size) && !InLive(bs, addr, size)
    ensures var n := UpperBound(bs, addr);
      (forall i :: 0 <= i < |bs| ==> !Touches(bs[i], addr, size)) <==> n == |bs| || addr + size <= bs[n].begin
  {
    CheckExactly(bs, addr, size);
    UpperSplits(bs, addr);
    var n := UpperBound(bs, addr);
    if n < |bs| {
      assert !Near(bs[n], addr);
      if addr + size > bs[n].begin { assert Touches(bs[n], addr, size); }
    }
    if n == |bs| || addr + size <= bs[n].begin {
      forall i | 0 <= i < |bs| ensures !Touches(bs[i], addr, size) {
        assert !Near(bs[i], addr);
        if i > n { assert bs[n].begin < bs[i].begin; }
      }
    }
  }

  /** The access lies in one live block, or touches none. */
  ghost predicate SafeAccess(bs: seq<Block>, addr: nat, size: nat) {
    InLive(bs, addr, size) || forall i :: 0 <= i < |bs| ==> !Touches(bs[i], addr, size)
  }

  /** Whatever is registered, an accepted access of this size is safe. */
  ghost predicate AlwaysSafe(size: nat) {
    forall bs, addr: nat :: Ordered(bs) && addr + size < WORD && Check(bs, addr, size) ==> SafeAccess(bs, addr, size)
  }

  lemma SmallAccess(bs: seq<Block>, addr: nat, size: nat)
    requires Ordered(bs) && 0 < size <= SHADOW + 1 && addr + size < WORD && Check(bs, addr, size)
    ensures SafeAccess(bs, addr, size)
  {
    CheckExactly(bs, addr, size);
    if !InLive(bs, addr, size) {
      forall i | 0 <= i < |bs| ensures !Touches(bs[i], addr, size) { assert !Near(bs[i], addr); }
    }
  }

  /** A longer one is accepted at address 0 although it runs into a freed block at 17: only its start is
      checked. */
  lemma LongAccess(size: nat)
    requires SHADOW + 2 <= size < WORD
    ensures var bs := [Block(17, 1, true)]; Ordered(bs) && Check(bs, 0, size) && !SafeAccess(bs, 0, size)
  {
    var bs := [Block(17, 1, true)];
    assert bs[..0] == [] && UpperBound([], 0) == 0;
    assert UpperBound(bs, 0) == 0;
    assert Touches(bs[0], 0, size);
  }

  /** Every accepted access of a size lies in one live block or touches none, if and only if the size is at
      most 17 bytes. */
  lemma SafeExactly(size: nat)
    requires 0 < size < WORD
    ensures AlwaysSafe(size) <==> size <= SHADOW + 1
  {
    if size <= SHADOW + 1 {
      forall bs, addr: nat | Ordered(bs) && addr + size < WORD && Check(bs, addr, size) ensures SafeAccess(bs, addr, size) {
        SmallAccess(bs, addr, size);
      }
    } else {
      LongAccess(size);
    }
  }

  // ---- The runtime ----

  function Find(bs: seq<Block>, begin: nat): (r: int)
    ensures -1 <= r < |bs| && (r >= 0 ==> bs[r].begin == begin)
    ensures r < 0 ==> forall i :: 0 <= i < |bs| ==> bs[i].begin != begin
  {
    if bs == [] then -1 else if bs[|bs| - 1].begin == begin then |bs| - 1 else Find(bs[..|bs| - 1], begin)
  }

  /** The index after a block is registered: a block with the same start is replaced. */
  function Registered(bs: seq<Block>, b: Block): seq<Block> {
    var n := UpperBound(bs, b.begin);
    if n > 0 && bs[n - 1].begin == b.begin then bs[n - 1 := b] else bs[..n] + [b] + bs[n..]
  }

  /** The block has room between all registered blocks with other starts. */
  ghost predicate Separate(bs: seq<Block>, b: Block) {
    && SHADOW <= b.begin && End(b) + SHADOW < WORD
    && forall i :: 0 <= i < |bs| ==>
         (bs[i].begin < b.begin ==> End(bs[i]) <= b.begin) && (b.begin < bs[i].begin ==> End(b) <= bs[i].begin)
  }

  lemma RegisteredOrdered(bs: seq<Block>, b: Block)
    requires Ordered(bs) && Separate(bs, b)
    ensures Ordered(Registered(bs, b))
  {
    UpperSplits(bs, b.begin);
    var n := UpperBound(bs, b.begin);
    hide UpperBound;
    if n > 0 && bs[n - 1].begin == b.begin { ReplacedOrdered(bs, b, n - 1); } else { InsertedOrdered(bs, b, n); }
  }

  lemma ReplacedOrdered(bs: seq<Block>, b: Block, n: nat)
    requires Ordered(bs) && Separate(bs, b) && n < |bs| && bs[n].begin == b.begin
    ensures Ordered(bs[n := b])
  {
  }

  lemma InsertedOrdered(bs: seq<Block>, b: Block, n: nat)
    requires Ordered(bs) && Separate(bs, b) && n <= |bs|
    requires forall i :: 0 <= i < |bs| ==> if i < n then bs[i].begin < b.begin else b.begin < bs[i].begin
    ensures Ordered(bs[..n] + [b] + bs[n..])
  {
    var cs := bs[..n] + [b] + bs[n..];
    forall i | 0 <= i < |cs| ensures cs[i] == InsertedAt(bs, b, n, i) {}
    forall i, j | 0 <= i < j < |cs| ensures cs[i].begin < cs[j].begin && End(cs[i]) <= cs[j].begin {
      assert cs[i] == InsertedAt(bs, b, n, i) && cs[j] == InsertedAt(bs, b, n, j);
    }
  }

  function InsertedAt(bs: seq<Block>, b: Block, n: nat, i: nat): Block
    requires n <= |bs| && i <= |bs|
  {
    if i < n then bs[i] else if i == n then b else bs[i - 1]
  }

  lemma StillRegistered(bs: seq<Block>, b: Block, i: nat)
    requires Ordered(bs) && i < |bs| && bs[i].begin != b.begin
    ensures bs[i] in Registered(bs, b)
  {
    var n, cs := UpperBound(bs, b.begin), Registered(bs, b);
    if n > 0 && bs[n - 1].begin == b.begin { assert cs[i] == bs[i]; } else { assert cs[if i < n then i else i + 1] == bs[i]; }
  }

  lemma NowRegistered(bs: seq<Block>, b: Block)
    ensures b in Registered(bs, b)
  {
    var n, cs := UpperBound(bs, b.begin), Registered(bs, b);
    if n > 0 && bs[n - 1].begin == b.begin { assert cs[n - 1] == b; } else { assert cs[n] == b; }
  }

  lemma RegisteredMembers(bs: seq<Block>, b: Block, c: Block)
    requires Ordered(bs)
    ensures c in Registered(bs, b) <==> c == b || (c in bs && c.begin != b.begin)
  {
    hide Registered, Ordered;
    NowRegistered(bs, b);
    if c in bs && c.begin != b.begin {
      var i :| 0 <= i < |bs| && bs[i] == c;
      StillRegistered(bs, b, i);
    }
    var cs := Registered(bs, b);
    if c in cs {
      var i :| 0 <= i < |cs| && cs[i] == c;
      MemberAt(bs, b, i);
    }
  }

  lemma MemberAt(bs: seq<Block>, b: Block, i: nat)
    requires Ordered(bs) && i < |Registered(bs, b)|
    ensures var c := Registered(bs, b)[i]; c == b || (c in bs && c.begin != b.begin)
  {
    UpperSplits(bs, b.begin);
    var n, cs := UpperBound(bs, b.begin), Registered(bs, b);
    hide UpperBound;
    if n > 0 && bs[n - 1].begin == b.begin {
      assert i == n - 1 || cs[i] == bs[i];
    } else {
      assert i == n || cs[i] == bs[if i < n then i else i - 1];
    }
  }

  lemma UpperSplits(bs: seq<Block>, addr: nat)
    requires Ordered(bs)
    ensures forall i :: 0 <= i < |bs| ==> (i < UpperBound(bs, addr) <==> bs[i].begin <= addr)
  {
  }

  /** A freed block rejects every access that starts in it. */
  lemma FreedRejects(bs: seq<Block>, i: nat, addr: nat, size: nat)
    requires Ordered(bs) && 0 < size && addr + size < WORD
    requires i < |bs| && bs[i].freed && bs[i].begin <= addr < End(bs[i])
    ensures !Check(bs, addr, size)
  {
    CheckExactly(bs, addr, size);
    assert Near(bs[i], addr);
    forall j | 0 <= j < |bs| && !bs[j].freed ensures !Contains(bs[j], addr, size) {
      if j < i { assert End(bs[j]) <= bs[i].begin; }
      if j > i { assert End(bs[i]) <= bs[j].begin; }
    }
  }

  class Runtime {
    var blocks: seq<Block>

    ghost predicate Valid()
      reads this
    {
      Ordered(blocks)
    }

    constructor ()
      ensures Valid() && blocks == []
    {
      blocks := [];
    }

    /** True if the check returns, false if it aborts the program. */
    method CheckAddr(addr: nat, size: nat) returns (ok: bool)
      requires Valid() && 0 < size && addr + size < WORD
      ensures ok <==> InLive(blocks, addr, size) || NearNone(blocks, addr)
    {
      CheckExactly(blocks, addr, size);
      var next := UpperBound(blocks, addr);
      if next != 0 {
        var prev := blocks[next - 1];
        if addr < (End(prev) % WORD + SHADOW) % WORD {
          return !prev.freed && (addr + size) % WORD <= End(prev) % WORD;
        }
      }
      if next != |blocks| {
        if addr >= (blocks[next].begin - SHADOW) % WORD {
          return false;
        }
      }
      return true;
    }

    /** A heap or stack block is registered; `ptr` is 0 if there was no memory. */
    method Alloc(ptr: nat, size: nat)
      requires Valid() && (ptr != 0 ==> Separate(blocks, Block(ptr, size, false)))
      modifies this
      ensures Valid()
      ensures ptr == 0 ==> blocks == old(blocks)
      ensures ptr != 0 ==> forall c :: c in blocks <==> c == Block(ptr, size, false) || (c in old(blocks) && c.begin != ptr)
    {
      if ptr != 0 {
        RegisteredOrdered(blocks, Block(ptr, size, false));
        forall c ensures c in Registered(blocks, Block(ptr, size, false)) <==> c == Block(ptr, size, false) || (c in blocks && c.begin != ptr) {
          RegisteredMembers(blocks, Block(ptr, size, false), c);
        }
        blocks := Registered(blocks, Block(ptr, size, false));
      }
    }

    /** False if the call aborts: the pointer is no registered start, or its block is already freed. */
    method Free(ptr: nat) returns (ok: bool)
      requires Valid()
      modifies this
      ensures Valid()
      ensures ok <==> ptr == 0 || exists c :: c in old(blocks) && c.begin == ptr && !c.freed
      ensures forall i :: 0 <= i < |blocks| ==>
        |blocks| == |old(blocks)| && blocks[i] == if ok && old(blocks)[i].begin == ptr then old(blocks)[i].(freed := true) else old(blocks)[i]
    {
      if ptr == 0 {
        return true;
      }
      var i := Find(blocks, ptr);
      if i >= 0 && !blocks[i].freed {
        assert blocks[i] in old(blocks);
        blocks := blocks[i := blocks[i].(freed := true)];
        return true;
      }
      return false;
    }
  }
}
