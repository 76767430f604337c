/**
An arena's block list as it lies in memory: the header of each block names its neighbours, and the
header writes of split, coalesce and extend carry one list over into the next.
*/
module ArenaMemory {
  import opened Bytes
  import opened FlatMemory
  import opened BlockLists

  function AddrAt(bs: seq<Block>, i: int): nat {
    if 0 <= i < |bs| then bs[i].addr else 0
  }

  /** The header that belongs to block `i`; a null pointer is 0. */
  function HeaderOf(id: nat, bs: seq<Block>, i: int): Header
    requires 0 <= i < |bs|
  {
    Header(id, bs[i].freed, bs[i].size, AddrAt(bs, i - 1), AddrAt(bs, i + 1))
  }

  /** Every block of the list lies inside the memory, and its header says what it should. */
  ghost predicate Listed(m: Mem, id: nat, bs: seq<Block>) {
    forall i :: 0 <= i < |bs| ==> bs[i].addr + HEADER <= |m| && Load(m, bs[i].addr) == HeaderOf(id, bs, i)
  }

  predicate InHeader(b: Block, x: int) {
    b.addr <= x < b.addr + HEADER
  }

  /** Only bytes of block headers have changed. */
  ghost predicate HeadersOnly(m: Mem, m': Mem, bs: seq<Block>) {
    |m'| == |m| && forall x :: 0 <= x < |m| && (forall i :: 0 <= i < |bs| ==> !InHeader(bs[i], x)) ==> m'[x] == m[x]
  }

  lemma LoadElsewhere(m: Mem, a: nat, h: Header, b: nat)
    requires a + HEADER <= |m| && b + HEADER <= |m| && (a + HEADER <= b || b + HEADER <= a)
    ensures Load(Store(m, a, h), b) == Load(m, b)
  {
    LoadUnchanged(m, Store(m, a, h), b);
  }

  lemma StoreInHeader(m: Mem, m': Mem, bs: seq<Block>, i: nat, h: Header)
    requires HeadersOnly(m, m', bs) && i < |bs| && bs[i].addr + HEADER <= |m|
    ensures HeadersOnly(m, Store(m', bs[i].addr, h), bs)
  {
    var m2 := Store(m', bs[i].addr, h);
    forall x | 0 <= x < |m| && forall j :: 0 <= j < |bs| ==> !InHeader(bs[j], x) ensures m2[x] == m[x] {
      assert !InHeader(bs[i], x);
    }
  }

  /** The headers found at the blocks of a list. */
  function Heads(m: Mem, bs: seq<Block>): seq<Header>
    requires InMemory(m, bs)
  {
    seq(|bs|, i requires 0 <= i < |bs| => Load(m, bs[i].addr))
  }

  ghost predicate InMemory(m: Mem, bs: seq<Block>) {
    forall i :: 0 <= i < |bs| ==> bs[i].addr + HEADER <= |m|
  }

  lemma LayoutInMemory(m: Mem, bs: seq<Block>, brk: nat)
    requires Layout(bs, brk) && brk <= |m|
    ensures InMemory(m, bs)
  {
  }

  /** Storing the header of one block changes that header only. */
  lemma StoreHeads(m: Mem, bs: seq<Block>, brk: nat, i: nat, h: Header)
    requires Layout(bs, brk) && InMemory(m, bs) && i < |bs| && Fits(h)
    ensures InMemory(Store(m, bs[i].addr, h), bs)
    ensures Heads(Store(m, bs[i].addr, h), bs) == Heads(m, bs)[i := h]
  {
    var m' := Store(m, bs[i].addr, h);
    forall j | 0 <= j < |bs| ensures Load(m', bs[j].addr) == Heads(m, bs)[i := h][j] {
      if i == j { LoadStored(m, bs[i].addr, h); } else { LoadElsewhere(m, bs[i].addr, h, bs[j].addr); }
    }
  }

  lemma ListedHeads(m: Mem, id: nat, bs: seq<Block>)
    requires InMemory(m, bs) && forall j :: 0 <= j < |bs| ==> Heads(m, bs)[j] == HeaderOf(id, bs, j)
    ensures Listed(m, id, bs)
  {
    forall i | 0 <= i < |bs| ensures Load(m, bs[i].addr) == HeaderOf(id, bs, i) {
      assert Heads(m, bs)[i] == Load(m, bs[i].addr);
    }
  }

  lemma HeaderParts(id: nat, bs: seq<Block>, i: nat)
    requires i < |bs|
    ensures HeaderOf(id, bs, i) == Header(id, bs[i].freed, bs[i].size, AddrAt(bs, i - 1), AddrAt(bs, i + 1))
  {
  }

  lemma BlockPlaced(bs: seq<Block>, i: nat, brk: nat)
    requires Layout(bs, brk) && i < |bs|
    ensures 0 < bs[i].addr && BlockOk(bs[i], brk)
  {
  }

  lemma HeaderFits(id: nat, bs: seq<Block>, i: nat, brk: nat)
    requires Layout(bs, brk) && brk <= WORD && id < 5 && i < |bs|
    ensures Fits(HeaderOf(id, bs, i)) && HeaderOf(id, bs, i).next < brk && HeaderOf(id, bs, i).size < brk
  {
  }

  // ---- Split ----

  predicate CanSplit(m: Mem, p: nat, size: nat) {
    && p + HEADER + size + HEADER <= |m|
    && Load(m, p).size >= size + HEADER
    && (Load(m, p).next != 0 ==> Load(m, p).next + HEADER <= |m|)
  }

  function SplitMemory(m: Mem, p: nat, size: nat): (m': Mem)
    requires CanSplit(m, p, size)
    ensures |m'| == |m|
  {
    var h := Load(m, p);
    var r := p + HEADER + size;
    var m1 := Store(m, r, Header(h.arena, true, h.size - size - HEADER, p, h.next));
    var m2 := if h.next != 0 then Store(m1, h.next, Load(m1, h.next).(prev := r)) else m1;
    Store(m2, p, Load(m2, p).(next := r, size := size))
  }

  lemma SplitListed(m: Mem, id: nat, bs: seq<Block>, i: nat, size: nat, brk: nat)
    requires Listed(m, id, bs) && Layout(bs, brk) && brk <= |m| <= WORD && id < 5
    requires i < |bs| && Splits(bs[i], size) && Rounded(size)
    ensures Load(m, bs[i].addr) == HeaderOf(id, bs, i) && CanSplit(m, bs[i].addr, size)
    ensures Listed(SplitMemory(m, bs[i].addr, size), id, SplitAt(bs, i, size))
    ensures HeadersOnly(m, SplitMemory(m, bs[i].addr, size), SplitAt(bs, i, size))
  {
    hide Layout, Load, HeadersOnly, Listed, Store, Put, HeaderOf, SplitAt, AddrAt, Remainder, InMemory;
    SplitShape(bs, i, size);
    var p, h, cs := bs[i].addr, HeaderOf(id, bs, i), SplitAt(bs, i, size);
    var r := p + HEADER + size;
    HeaderParts(id, bs, i);
    SplitLayout(bs, i, size, brk);
    LayoutInMemory(m, cs, brk);
    HeaderFits(id, bs, i, brk);
    var hs := Heads(m, cs);
    SplitHeads(m, id, bs, i, size);
    var rh := Header(id, true, h.size - size - HEADER, p, h.next);
    var m1 := Store(m, r, rh);
    StoreHeads(m, cs, brk, i + 1, rh);
    StoreInHeader(m, m, cs, i + 1, rh);
    var m2, hs2 := m1, hs[i + 1 := rh];
    if i + 1 < |bs| {
      BlockPlaced(cs, i + 2, brk);
      assert h.next == cs[i + 2].addr;
      var nh := HeaderOf(id, bs, i + 1).(prev := r);
      HeaderFits(id, bs, i + 1, brk);
      HeaderParts(id, bs, i + 1);
      assert Load(m1, h.next) == hs2[i + 2] by { assert Heads(m1, cs)[i + 2] == Load(m1, h.next); }
      m2 := Store(m1, h.next, nh);
      StoreHeads(m1, cs, brk, i + 2, nh);
      StoreInHeader(m, m1, cs, i + 2, nh);
      hs2 := hs2[i + 2 := nh];
    }
    assert Load(m2, p) == hs2[i] by { assert Heads(m2, cs)[i] == Load(m2, p); }
    var ph := h.(next := r, size := size);
    var m3 := Store(m2, p, ph);
    StoreHeads(m2, cs, brk, i, ph);
    StoreInHeader(m, m2, cs, i, ph);
    assert m3 == SplitMemory(m, p, size);
    forall j | 0 <= j < |cs| ensures hs2[i := ph][j] == HeaderOf(id, cs, j) { SplitHeader(bs, i, size, j, id); }
    ListedHeads(m3, id, cs);
  }

  lemma SplitShape(bs: seq<Block>, i: nat, size: nat)
    requires i < |bs| && Splits(bs[i], size)
    ensures var cs := SplitAt(bs, i, size);
      && |cs| == |bs| + 1
      && cs[i].addr == bs[i].addr && cs[i + 1].addr == bs[i].addr + HEADER + size
      && (if i + 1 < |bs| then cs[i + 2].addr == bs[i + 1].addr == AddrAt(bs, i + 1) else AddrAt(bs, i + 1) == 0)
  {
  }

  /** The headers before the split: those of the blocks that were there stand where they stood. */
  lemma SplitHeads(m: Mem, id: nat, bs: seq<Block>, i: nat, size: nat)
    requires Listed(m, id, bs) && i < |bs| && Splits(bs[i], size) && InMemory(m, SplitAt(bs, i, size))
    ensures Load(m, bs[i].addr) == HeaderOf(id, bs, i)
    ensures forall j :: 0 <= j < |bs| ==> Heads(m, SplitAt(bs, i, size))[if j <= i then j else j + 1] == HeaderOf(id, bs, j)
  {
    hide Load, HeaderOf;
    var cs := SplitAt(bs, i, size);
    forall j | 0 <= j < |bs| ensures cs[if j <= i then j else j + 1].addr == bs[j].addr { }
  }

  lemma SplitHeader(bs: seq<Block>, i: nat, size: nat, j: nat, id: nat)
    requires i < |bs| && Splits(bs[i], size) && j < |SplitAt(bs, i, size)|
    ensures var cs, h := SplitAt(bs, i, size), HeaderOf(id, bs, i);
      HeaderOf(id, cs, j) ==
        if j < i then HeaderOf(id, bs, j)
        else if j == i then h.(next := bs[i].addr + HEADER + size, size := size)
        else if j == i + 1 then Header(id, true, h.size - size - HEADER, bs[i].addr, h.next)
        else if j == i + 2 then HeaderOf(id, bs, i + 1).(prev := bs[i].addr + HEADER + size)
        else HeaderOf(id, bs, j - 1)
  {
  }

  // ---- Coalesce ----

  predicate CanJoin(m: Mem, p: nat) {
    && p + HEADER <= |m| && Load(m, p).next + HEADER <= |m|
    && (Load(m, Load(m, p).next).next != 0 ==> Load(m, Load(m, p).next).next + HEADER <= |m|)
  }

  function JoinMemory(m: Mem, p: nat): (m': Mem)
    requires CanJoin(m, p)
    ensures |m'| == |m|
  {
    var h := Load(m, p);
    var nh := Load(m, h.next);
    var m1 := Store(m, p, h.(size := h.size + HEADER + nh.size, next := nh.next));
    if nh.next != 0 then Store(m1, nh.next, Load(m1, nh.next).(prev := p)) else m1
  }

  lemma JoinListed(m: Mem, id: nat, bs: seq<Block>, i: nat, brk: nat)
    requires Listed(m, id, bs) && Layout(bs, brk) && brk <= |m| <= WORD && id < 5
    requires i < |bs| && Joins(bs, i)
    ensures Load(m, bs[i].addr) == HeaderOf(id, bs, i) && Load(m, bs[i + 1].addr) == HeaderOf(id, bs, i + 1)
    ensures CanJoin(m, bs[i].addr)
    ensures Listed(JoinMemory(m, bs[i].addr), id, JoinAt(bs, i))
    ensures HeadersOnly(m, JoinMemory(m, bs[i].addr), JoinAt(bs, i))
  {
    hide Layout, Load, HeadersOnly, Listed, Store, Put, HeaderOf, JoinAt, AddrAt, InMemory, Joins;
    JoinShape(bs, i);
    var p, h, nh, cs := bs[i].addr, HeaderOf(id, bs, i), HeaderOf(id, bs, i + 1), JoinAt(bs, i);
    HeaderParts(id, bs, i);
    HeaderParts(id, bs, i + 1);
    JoinLayout(bs, i, brk);
    LayoutInMemory(m, cs, brk);
    HeaderFits(id, bs, i, brk);
    HeaderFits(id, bs, i + 1, brk);
    HeaderFits(id, cs, i, brk);
    HeaderParts(id, cs, i);
    BlockPlaced(bs, i, brk);
    BlockPlaced(bs, i + 1, brk);
    var hs := Heads(m, cs);
    JoinHeads(m, id, bs, i);
    var ph := h.(size := h.size + HEADER + nh.size, next := nh.next);
    var m1 := Store(m, p, ph);
    StoreHeads(m, cs, brk, i, ph);
    StoreInHeader(m, m, cs, i, ph);
    var m2, hs2 := m1, hs[i := ph];
    if i + 2 < |bs| {
      BlockPlaced(cs, i + 1, brk);
      var eh := HeaderOf(id, bs, i + 2).(prev := p);
      HeaderFits(id, bs, i + 2, brk);
      HeaderParts(id, bs, i + 2);
      assert Load(m1, nh.next) == hs2[i + 1] by { assert Heads(m1, cs)[i + 1] == Load(m1, nh.next); }
      m2 := Store(m1, nh.next, eh);
      StoreHeads(m1, cs, brk, i + 1, eh);
      StoreInHeader(m, m1, cs, i + 1, eh);
      hs2 := hs2[i + 1 := eh];
    }
    assert m2 == JoinMemory(m, p);
    forall j | 0 <= j < |cs| ensures hs2[j] == HeaderOf(id, cs, j) { JoinHeader(bs, i, j, id); }
    ListedHeads(m2, id, cs);
  }

  lemma JoinShape(bs: seq<Block>, i: nat)
    requires i < |bs| && Joins(bs, i)
    ensures var cs := JoinAt(bs, i);
      && i + 1 < |bs| == |cs| + 1
      && cs[i].addr == bs[i].addr && cs[i].size == bs[i].size + HEADER + bs[i + 1].size
      && AddrAt(bs, i + 1) == bs[i + 1].addr
      && (if i + 2 < |bs| then cs[i + 1].addr == bs[i + 2].addr == AddrAt(bs, i + 2) else AddrAt(bs, i + 2) == 0)
  {
  }

  lemma JoinHeads(m: Mem, id: nat, bs: seq<Block>, i: nat)
    requires Listed(m, id, bs) && i < |bs| && Joins(bs, i) && InMemory(m, JoinAt(bs, i))
    ensures Load(m, bs[i].addr) == HeaderOf(id, bs, i) && Load(m, bs[i + 1].addr) == HeaderOf(id, bs, i + 1)
    ensures forall j :: 0 <= j < |bs| && j != i + 1 ==> Heads(m, JoinAt(bs, i))[if j <= i then j else j - 1] == HeaderOf(id, bs, j)
  {
    hide Load, HeaderOf;
    var cs := JoinAt(bs, i);
    forall j | 0 <= j < |bs| && j != i + 1 ensures cs[if j <= i then j else j - 1].addr == bs[j].addr { }
  }

  lemma JoinHeader(bs: seq<Block>, i: nat, j: nat, id: nat)
    requires i < |bs| && Joins(bs, i) && j < |JoinAt(bs, i)|
    ensures var cs, h, nh := JoinAt(bs, i), HeaderOf(id, bs, i), HeaderOf(id, bs, i + 1);
      HeaderOf(id, cs, j) ==
        if j < i then HeaderOf(id, bs, j)
        else if j == i then h.(size := h.size + HEADER + nh.size, next := nh.next)
        else if j == i + 1 then HeaderOf(id, bs, i + 2).(prev := bs[i].addr)
        else HeaderOf(id, bs, j + 1)
  {
  }

  // ---- Marking a block free or used ----

  lemma FreedListed(m: Mem, id: nat, bs: seq<Block>, i: nat, freed: bool, brk: nat)
    requires Listed(m, id, bs) && Layout(bs, brk) && brk <= |m| <= WORD && id < 5 && i < |bs|
    ensures bs[i].addr + HEADER <= |m|
    ensures var m' := Store(m, bs[i].addr, Load(m, bs[i].addr).(freed := freed));
      Listed(m', id, SetFreed(bs, i, freed)) && HeadersOnly(m, m', SetFreed(bs, i, freed))
    ensures Layout(SetFreed(bs, i, freed), brk)
  {
    hide Layout, Load, HeadersOnly, Listed, Store, Put, HeaderOf;
    var cs, h := SetFreed(bs, i, freed), HeaderOf(id, bs, i).(freed := freed);
    FreedLayout(bs, i, freed, brk);
    LayoutInMemory(m, cs, brk);
    HeaderFits(id, bs, i, brk);
    FreedHeads(m, id, bs, i, freed);
    StoreHeads(m, cs, brk, i, h);
    StoreInHeader(m, m, cs, i, h);
    ListedHeads(Store(m, bs[i].addr, h), id, cs);
  }

  lemma FreedHeads(m: Mem, id: nat, bs: seq<Block>, i: nat, freed: bool)
    requires Listed(m, id, bs) && i < |bs| && InMemory(m, SetFreed(bs, i, freed))
    ensures bs[i].addr + HEADER <= |m| && Load(m, bs[i].addr) == HeaderOf(id, bs, i)
    ensures var cs := SetFreed(bs, i, freed);
      forall j :: 0 <= j < |bs| ==> Heads(m, cs)[i := HeaderOf(id, bs, i).(freed := freed)][j] == HeaderOf(id, cs, j)
  {
    hide Load;
    var cs := SetFreed(bs, i, freed);
    assert forall j :: 0 <= j < |bs| ==> cs[j].addr == bs[j].addr;
  }

  lemma FreedLayout(bs: seq<Block>, i: nat, freed: bool, brk: nat)
    requires Layout(bs, brk) && i < |bs|
    ensures Layout(SetFreed(bs, i, freed), brk)
  {
    var cs := SetFreed(bs, i, freed);
    forall j | 0 <= j < |cs| ensures BlockOk(cs[j], brk) { assert BlockOk(bs[j], brk); }
    forall j, k | 0 <= j < k < |cs| ensures End(cs[j]) <= cs[k].addr { assert End(bs[j]) <= bs[k].addr; }
  }

  // ---- Append ----

  function AppendMemory(m: Mem, id: nat, tail: nat, base: nat, size: nat): (m': Mem)
    requires base + HEADER <= |m| && (tail != 0 ==> tail + HEADER <= |m|)
    ensures |m'| == |m|
  {
    var m1 := Store(m, base, Header(id, false, size, tail, 0));
    if tail != 0 then Store(m1, tail, Load(m1, tail).(next := base)) else m1
  }

  lemma AppendListed(m: Mem, id: nat, bs: seq<Block>, b: Block, brk: nat)
    requires Listed(m, id, bs) && Layout(bs + [b], brk) && brk <= |m| <= WORD && id < 5 && !b.freed
    ensures AddrAt(bs, |bs| - 1) != 0 ==> AddrAt(bs, |bs| - 1) + HEADER <= |m|
    ensures b.addr + HEADER <= |m|
    ensures Listed(AppendMemory(m, id, AddrAt(bs, |bs| - 1), b.addr, b.size), id, bs + [b])
    ensures HeadersOnly(m, AppendMemory(m, id, AddrAt(bs, |bs| - 1), b.addr, b.size), bs + [b])
  {
    hide Layout, Load, HeadersOnly, Listed, Store, Put, HeaderOf;
    var cs, n, tail := bs + [b], |bs|, AddrAt(bs, |bs| - 1);
    BlockPlaced(cs, n, brk);
    LayoutInMemory(m, cs, brk);
    AppendHeads(m, id, bs, b);
    HeaderFits(id, cs, n, brk);
    var bh := Header(id, false, b.size, tail, 0);
    var m1, hs2 := Store(m, b.addr, bh), Heads(m, cs)[n := bh];
    assert bh == HeaderOf(id, cs, n);
    StoreHeads(m, cs, brk, n, bh);
    StoreInHeader(m, m, cs, n, bh);
    var m2 := m1;
    if n > 0 {
      BlockPlaced(cs, n - 1, brk);
      HeaderFits(id, cs, n - 1, brk);
      var th := HeaderOf(id, bs, n - 1).(next := b.addr);
      assert Load(m1, tail) == hs2[n - 1] by { assert Heads(m1, cs)[n - 1] == Load(m1, tail); }
      m2 := Store(m1, tail, th);
      StoreHeads(m1, cs, brk, n - 1, th);
      StoreInHeader(m, m1, cs, n - 1, th);
      hs2 := hs2[n - 1 := th];
    }
    assert m2 == AppendMemory(m, id, tail, b.addr, b.size);
    ListedHeads(m2, id, cs);
  }

  lemma AppendHeads(m: Mem, id: nat, bs: seq<Block>, b: Block)
    requires Listed(m, id, bs) && InMemory(m, bs + [b]) && !b.freed
    ensures forall j :: 0 <= j < |bs| ==> Heads(m, bs + [b])[j] == HeaderOf(id, bs, j)
    ensures forall j :: 0 <= j < |bs| - 1 ==> HeaderOf(id, bs + [b], j) == HeaderOf(id, bs, j)
    ensures bs != [] ==> HeaderOf(id, bs + [b], |bs| - 1) == HeaderOf(id, bs, |bs| - 1).(next := b.addr)
    ensures HeaderOf(id, bs + [b], |bs|) == Header(id, false, b.size, AddrAt(bs, |bs| - 1), 0)
  {
    hide Load;
  }

  // ---- What the user owns ----

  /** Other than at `p`, the same allocations are live and their bytes are what they were. */
  ghost predicate Kept(bs: seq<Block>, m: Mem, cs: seq<Block>, m': Mem, except: set<int>) {
    && (forall q, s: nat :: q !in except ==> (LiveIn(bs, q, s) <==> LiveIn(cs, q, s)))
    && (forall q, s: nat, x :: q !in except && LiveIn(cs, q, s) && q <= x < q + s && 0 <= x < |m| && x < |m'| ==> m'[x] == m[x])
  }

  /** Header writes leave every live payload alone. */
  lemma PayloadKept(m: Mem, m': Mem, cs: seq<Block>, brk: nat, q: int, s: nat, x: int)
    requires HeadersOnly(m, m', cs) && Layout(cs, brk) && brk <= |m|
    requires LiveIn(cs, q, s) && q <= x < q + s
    ensures 0 <= x < |m| && m'[x] == m[x]
  {
    var i :| 0 <= i < |cs| && cs[i].addr + HEADER == q && cs[i].size == s && !cs[i].freed;
    assert BlockOk(cs[i], brk);
    forall j | 0 <= j < |cs| ensures !InHeader(cs[j], x) {
      if j < i { assert End(cs[j]) <= cs[i].addr; }
      if i < j { assert End(cs[i]) <= cs[j].addr; }
    }
  }

  lemma PayloadBytesKept(m: Mem, m': Mem, cs: seq<Block>, brk: nat, i: nat, x: int)
    requires HeadersOnly(m, m', cs) && Layout(cs, brk) && brk <= |m|
    requires i < |cs| && cs[i].addr + HEADER <= x < End(cs[i])
    ensures 0 <= x < |m| && m'[x] == m[x]
  {
    assert BlockOk(cs[i], brk);
    forall j | 0 <= j < |cs| ensures !InHeader(cs[j], x) {
      if j < i { assert End(cs[j]) <= cs[i].addr; }
      if i < j { assert End(cs[i]) <= cs[j].addr; }
    }
  }

  lemma SplitLive(bs: seq<Block>, i: nat, size: nat, q: int, s: nat)
    requires i < |bs| && q != bs[i].addr + HEADER
    ensures LiveIn(SplitAt(bs, i, size), q, s) <==> LiveIn(bs, q, s)
  {
    if Splits(bs[i], size) {
      var cs := SplitAt(bs, i, size);
      if LiveIn(bs, q, s) {
        var j :| 0 <= j < |bs| && bs[j].addr + HEADER == q && bs[j].size == s && !bs[j].freed;
        assert cs[if j < i then j else j + 1] == bs[j];
      }
      if LiveIn(cs, q, s) {
        var j :| 0 <= j < |cs| && cs[j].addr + HEADER == q && cs[j].size == s && !cs[j].freed;
        assert bs[if j < i then j else j - 1] == cs[j];
      }
    }
  }

  lemma JoinKeeps(bs: seq<Block>, i: nat, j: nat)
    requires i < |bs| && Joins(bs, i) && j < |bs| && j != i && j != i + 1
    ensures JoinAt(bs, i)[if j < i then j else j - 1] == bs[j]
  {
  }

  lemma JoinLive(bs: seq<Block>, i: nat, q: int, s: nat)
    requires i < |bs| && q != bs[i].addr + HEADER
    ensures LiveIn(JoinAt(bs, i), q, s) <==> LiveIn(bs, q, s)
  {
    if Joins(bs, i) {
      var cs := JoinAt(bs, i);
      if LiveIn(bs, q, s) {
        var j :| 0 <= j < |bs| && bs[j].addr + HEADER == q && bs[j].size == s && !bs[j].freed;
        JoinKeeps(bs, i, j);
      }
      if LiveIn(cs, q, s) {
        var j :| 0 <= j < |cs| && cs[j].addr + HEADER == q && cs[j].size == s && !cs[j].freed;
        JoinKeeps(bs, i, if j < i then j else j + 1);
      }
    }
  }

  lemma FreedLive(bs: seq<Block>, i: nat, freed: bool, q: int, s: nat)
    requires i < |bs| && q != bs[i].addr + HEADER
    ensures LiveIn(SetFreed(bs, i, freed), q, s) <==> LiveIn(bs, q, s)
  {
    var cs := SetFreed(bs, i, freed);
    if LiveIn(bs, q, s) {
      var j :| 0 <= j < |bs| && bs[j].addr + HEADER == q && bs[j].size == s && !bs[j].freed;
      assert cs[j] == bs[j];
    }
    if LiveIn(cs, q, s) {
      var j :| 0 <= j < |cs| && cs[j].addr + HEADER == q && cs[j].size == s && !cs[j].freed;
      assert bs[j] == cs[j];
    }
  }

  lemma AppendLive(bs: seq<Block>, b: Block, q: int, s: nat)
    requires q != b.addr + HEADER
    ensures LiveIn(bs + [b], q, s) <==> LiveIn(bs, q, s)
  {
    var cs := bs + [b];
    if LiveIn(bs, q, s) {
      var j :| 0 <= j < |bs| && bs[j].addr + HEADER == q && bs[j].size == s && !bs[j].freed;
      assert cs[j] == bs[j];
    }
    if LiveIn(cs, q, s) {
      var j :| 0 <= j < |cs| && cs[j].addr + HEADER == q && cs[j].size == s && !cs[j].freed;
      assert j < |bs| && bs[j] == cs[j];
    }
  }

  /** A change of the list that leaves the liveness of all other blocks alone, and writes headers only,
      keeps all other allocations. */
  lemma HeadersKeep(bs: seq<Block>, m: Mem, cs: seq<Block>, m': Mem, brk: nat, p: int)
    requires HeadersOnly(m, m', cs) && Layout(cs, brk) && brk <= |m|
    requires forall q, s: nat :: q != p ==> (LiveIn(bs, q, s) <==> LiveIn(cs, q, s))
    ensures Kept(bs, m, cs, m', {p})
  {
    forall q, s: nat, x | q !in {p} && LiveIn(cs, q, s) && q <= x < q + s && 0 <= x < |m| && x < |m'| ensures m'[x] == m[x] {
      PayloadKept(m, m', cs, brk, q, s, x);
    }
  }
}
