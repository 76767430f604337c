/**
One arena while its list is being changed: the header stores that its holder has still to make, and the
list that they lead to.  Nobody but the holder sees the list half changed, because every store stays
inside the bytes that the arena owns; and no store ever changes which arena a header names.
*/
module ArenaEdits {
  import opened Bytes
  import opened FlatMemory
  import opened BlockLists
  import opened ArenaMemory
  import opened HeapViews
  import opened HeapSteps
  import opened HeapCalls

  // ---- Stores ----

  /** What one store does to a header. */
  datatype Field = All(h: Header) | PrevIs(q: nat) | NextIs(q: nat) | SizeNext(size: nat, next: nat) | FreedIs(f: bool)

  /** A store to a header, or to the head or tail of the arena. */
  datatype Write = At(addr: nat, field: Field) | HeadIs(q: nat) | TailIs(q: nat)

  datatype Cells = Cells(mem: Mem, head: nat, tail: nat)

  function Refined(h: Header, f: Field): Header {
    match f
    case All(h') => h'
    case PrevIs(q) => h.(prev := q)
    case NextIs(q) => h.(next := q)
    case SizeNext(size, next) => h.(size := size, next := next)
    case FreedIs(b) => h.(freed := b)
  }

  function Done(c: Cells, w: Write): (c': Cells)
    ensures |c'.mem| == |c.mem|
  {
    match w
    case At(a, f) => if a + HEADER <= |c.mem| then c.(mem := Store(c.mem, a, Refined(Load(c.mem, a), f))) else c
    case HeadIs(q) => c.(head := q)
    case TailIs(q) => c.(tail := q)
  }

  function AllDone(c: Cells, ws: seq<Write>): (c': Cells)
    ensures |c'.mem| == |c.mem|
    decreases |ws|
  {
    if ws == [] then c else AllDone(Done(c, ws[0]), ws[1..])
  }

  // ---- One arena ----

  /** An arena: its head and tail, its list as it was before the change under way, the bytes it obtained,
      the stores still to be made, and the list they lead to. */
  datatype Arena = Arena(head: nat, tail: nat, blocks: seq<Block>, got: nat, todo: seq<Write>, target: seq<Block>)

  function OwnedBy(owner: map<int, nat>, k: nat): map<int, nat> {
    map x | x in owner && owner[x] == k :: k
  }

  function Five<T>(none: T, k: nat, one: T): (s: seq<T>)
    requires k < ARENAS
    ensures |s| == ARENAS && s[k] == one && forall j :: 0 <= j < ARENAS && j != k ==> s[j] == none
  {
    seq(ARENAS, j => none)[k := one]
  }

  /** The heap with nothing in it but arena `k`. */
  function One(k: nat, c: Cells, brk: nat, owner: map<int, nat>, bs: seq<Block>, got: nat): View
    requires k < ARENAS
  {
    View(c.mem, brk, Five(0, k, c.head), Five(0, k, c.tail), Five([], k, bs), owner, Five(0, k, got))
  }

  /** Arena `k` by itself, as it will be when all its stores are made. */
  function Solo(m: Mem, brk: nat, owner: map<int, nat>, k: nat, a: Arena): View
    requires k < ARENAS
  {
    One(k, AllDone(Cells(m, a.head, a.tail), a.todo), brk, OwnedBy(owner, k), a.target, a.got)
  }

  ghost predicate Owns(owner: map<int, nat>, k: nat, x: int) {
    x in owner && owner[x] == k
  }

  ghost predicate HeaderOwned(owner: map<int, nat>, k: nat, a: nat) {
    forall x :: a <= x < a + HEADER ==> Owns(owner, k, x)
  }

  /** The headers of the list lie in bytes of arena `k`, and name it. */
  ghost predicate Named(m: Mem, owner: map<int, nat>, k: nat, bs: seq<Block>) {
    forall i :: 0 <= i < |bs| ==> HeaderOwned(owner, k, bs[i].addr) && bs[i].addr + HEADER <= |m| && Load(m, bs[i].addr).arena == k
  }

  ghost predicate StartsBlock(bs: seq<Block>, a: nat) {
    exists i :: 0 <= i < |bs| && bs[i].addr == a
  }

  /** A header at `a` is one of the list, or overlaps none of them. */
  ghost predicate Spares(bs: seq<Block>, a: nat) {
    forall i :: 0 <= i < |bs| ==> bs[i].addr == a || bs[i].addr + HEADER <= a || a + HEADER <= bs[i].addr
  }

  /** The store goes to the header of a block that will be in the list, and leaves headers that are in the
      list naming their arena. */
  ghost predicate WriteOk(w: Write, k: nat, bs: seq<Block>, target: seq<Block>) {
    w.At? ==> StartsBlock(target, w.addr) && Spares(bs, w.addr) && (w.field.All? ==> w.field.h.arena == k)
  }

  ghost predicate WritesOk(ws: seq<Write>, k: nat, bs: seq<Block>, target: seq<Block>) {
    forall j :: 0 <= j < |ws| ==> WriteOk(ws[j], k, bs, target)
  }

  ghost predicate ArenaInv(m: Mem, brk: nat, owner: map<int, nat>, k: nat, a: Arena) {
    && k < ARENAS
    && Sound(Solo(m, brk, owner, k, a))
    && Named(m, owner, k, a.blocks) && Layout(a.blocks, brk)
    && WritesOk(a.todo, k, a.blocks, a.target)
    && (a.todo == [] ==> a.target == a.blocks)
  }

  predicate Quiet(a: Arena) {
    a.todo == []
  }

  // ---- Facts about one arena ----

  /** What the invariant says about the list that the stores lead to. */
  lemma TargetParts(m: Mem, brk: nat, owner: map<int, nat>, k: nat, a: Arena)
    requires ArenaInv(m, brk, owner, k, a)
    ensures k < ARENAS && 0 < brk <= |m| <= WORD && brk % 8 == 0
    ensures Layout(a.target, brk) && Listed(AllDone(Cells(m, a.head, a.tail), a.todo).mem, k, a.target)
    ensures forall x :: Covers(a.target, x) <==> Owns(owner, k, x)
  {
    var v := Solo(m, brk, owner, k, a);
    assert ArenaOk(v, k);
    forall x ensures Covers(a.target, x) <==> Owns(owner, k, x) {
      assert Covers(v.blocks[k], x) <==> x in v.owner && v.owner[x] == k;
    }
  }

  lemma ArenaStored(m: Mem, a: nat, h: Header)
    requires a + HEADER <= |m| && h.arena < ARENAS
    ensures Load(Store(m, a, h), a).arena == h.arena
  {
    Powers();
    var s := EncodeHeader(h);
    assert Store(m, a, h)[a..a + HEADER] == s;
    assert s[0..4] == Encode(h.arena, 4);
    DecodeEncode(h.arena, 4);
  }

  /** No store makes a header name another arena. */
  lemma StillNamed(m: Mem, owner: map<int, nat>, k: nat, bs: seq<Block>, target: seq<Block>, c: Cells, w: Write)
    requires k < ARENAS && Named(m, owner, k, bs) && WriteOk(w, k, bs, target) && c.mem == m
    ensures Named(Done(c, w).mem, owner, k, bs)
  {
    var m' := Done(c, w).mem;
    if m' != m {
      var h := Refined(Load(m, w.addr), w.field);
      forall i | 0 <= i < |bs| ensures Load(m', bs[i].addr).arena == k {
        if bs[i].addr == w.addr { ArenaStored(m, w.addr, h); } else { LoadElsewhere(m, w.addr, h, bs[i].addr); }
      }
    }
  }

  lemma HeaderIsOwned(owner: map<int, nat>, k: nat, bs: seq<Block>, i: nat)
    requires i < |bs| && forall x :: Covers(bs, x) ==> Owns(owner, k, x)
    ensures HeaderOwned(owner, k, bs[i].addr)
  {
    forall x | bs[i].addr <= x < bs[i].addr + HEADER ensures Owns(owner, k, x) {
      assert InBlock(bs[i], x);
      assert Covers(bs, x);
    }
  }

  /** A complete list names its arena. */
  lemma ListedNamed(m: Mem, owner: map<int, nat>, k: nat, bs: seq<Block>)
    requires Listed(m, k, bs) && forall x :: Covers(bs, x) ==> Owns(owner, k, x)
    ensures Named(m, owner, k, bs)
  {
    forall i | 0 <= i < |bs| ensures HeaderOwned(owner, k, bs[i].addr) && Load(m, bs[i].addr).arena == k {
      HeaderIsOwned(owner, k, bs, i);
      assert Load(m, bs[i].addr) == HeaderOf(k, bs, i);
    }
  }

  // ---- Making a store ----

  /** The arena after its first store. */
  function Advanced(a: Arena, c: Cells): Arena
    requires a.todo != []
  {
    a.(head := c.head, tail := c.tail, todo := a.todo[1..], blocks := if |a.todo| == 1 then a.target else a.blocks)
  }

  /** One store of the holder brings the arena closer to its new list. */
  lemma StoreAdvances(m: Mem, brk: nat, owner: map<int, nat>, k: nat, a: Arena)
    requires ArenaInv(m, brk, owner, k, a) && a.todo != []
    ensures var c := Done(Cells(m, a.head, a.tail), a.todo[0]); ArenaInv(c.mem, brk, owner, k, Advanced(a, c))
  {
    var c := Done(Cells(m, a.head, a.tail), a.todo[0]);
    var a' := Advanced(a, c);
    TargetParts(m, brk, owner, k, a);
    StillNamed(m, owner, k, a.blocks, a.target, Cells(m, a.head, a.tail), a.todo[0]);
    hide Named, Done, WriteOk, Sound, Listed, Layout, Covers;
    assert AllDone(Cells(m, a.head, a.tail), a.todo) == AllDone(c, a'.todo);
    assert c == Cells(c.mem, c.head, c.tail);
    if |a.todo| == 1 { ListedNamed(c.mem, owner, k, a.target); }
  }

  /** A store changes nothing but one header of the new list. */
  lemma StoreConfined(m: Mem, brk: nat, owner: map<int, nat>, k: nat, a: Arena, x: int)
    requires ArenaInv(m, brk, owner, k, a) && a.todo != [] && 0 <= x < |m|
    ensures Done(Cells(m, a.head, a.tail), a.todo[0]).mem[x] != m[x] ==>
      Owns(owner, k, x) && exists i :: 0 <= i < |a.target| && InHeader(a.target[i], x)
  {
    TargetParts(m, brk, owner, k, a);
    var w := a.todo[0];
    assert WriteOk(w, k, a.blocks, a.target);
    hide ArenaInv, Listed, Layout, Load;
    if Done(Cells(m, a.head, a.tail), w).mem[x] != m[x] {
      assert w.addr <= x < w.addr + HEADER;
      var i :| 0 <= i < |a.target| && a.target[i].addr == w.addr;
      assert InHeader(a.target[i], x) && InBlock(a.target[i], x);
    }
  }

  // ---- What others do ----

  /** The two memories agree on the bytes of `h`. */
  ghost predicate SameOn(m: Mem, m': Mem, h: iset<int>) {
    |m| == |m'| && forall x :: 0 <= x < |m| && x in h ==> m'[x] == m[x]
  }

  ghost predicate HeaderIn(a: nat, h: iset<int>) {
    forall x :: a <= x < a + HEADER ==> x in h
  }

  ghost predicate HeadersIn(bs: seq<Block>, h: iset<int>) {
    forall i :: 0 <= i < |bs| ==> HeaderIn(bs[i].addr, h)
  }

  ghost function Owned(owner: map<int, nat>, k: nat): iset<int> {
    iset x | Owns(owner, k, x)
  }

  lemma LoadSame(m: Mem, m': Mem, h: iset<int>, a: nat)
    requires SameOn(m, m', h) && HeaderIn(a, h) && a + HEADER <= |m|
    ensures Load(m', a) == Load(m, a)
  {
    forall x | a <= x < a + HEADER ensures m[x] == m'[x] { assert x in h; }
    LoadUnchanged(m, m', a);
  }

  lemma DoneSame(c: Cells, c': Cells, w: Write, h: iset<int>)
    requires SameOn(c.mem, c'.mem, h) && c'.head == c.head && c'.tail == c.tail
    requires w.At? ==> HeaderIn(w.addr, h)
    ensures SameOn(Done(c, w).mem, Done(c', w).mem, h)
    ensures Done(c', w).head == Done(c, w).head && Done(c', w).tail == Done(c, w).tail
  {
    if w.At? && w.addr + HEADER <= |c.mem| { LoadSame(c.mem, c'.mem, h, w.addr); }
  }

  lemma {:induction false} AllDoneSame(c: Cells, c': Cells, ws: seq<Write>, h: iset<int>)
    requires SameOn(c.mem, c'.mem, h) && c'.head == c.head && c'.tail == c.tail
    requires forall i :: 0 <= i < |ws| && ws[i].At? ==> HeaderIn(ws[i].addr, h)
    ensures SameOn(AllDone(c, ws).mem, AllDone(c', ws).mem, h)
    ensures AllDone(c', ws).head == AllDone(c, ws).head && AllDone(c', ws).tail == AllDone(c, ws).tail
    decreases |ws|
  {
    hide Done, SameOn, HeaderIn;
    if ws != [] {
      DoneSame(c, c', ws[0], h);
      AllDoneSame(Done(c, ws[0]), Done(c', ws[0]), ws[1..], h);
    }
  }

  lemma WritesIn(ws: seq<Write>, k: nat, bs: seq<Block>, target: seq<Block>, h: iset<int>)
    requires WritesOk(ws, k, bs, target) && HeadersIn(target, h)
    ensures forall i :: 0 <= i < |ws| && ws[i].At? ==> HeaderIn(ws[i].addr, h)
  {
    forall i | 0 <= i < |ws| && ws[i].At? ensures HeaderIn(ws[i].addr, h) {
      assert WriteOk(ws[i], k, bs, target);
    }
  }

  lemma NamedKept(m: Mem, m': Mem, owner: map<int, nat>, owner': map<int, nat>, k: nat, bs: seq<Block>, h: iset<int>)
    requires Named(m, owner, k, bs) && SameOn(m, m', h) && HeadersIn(bs, h) && forall x :: Owns(owner', k, x) <==> Owns(owner, k, x)
    ensures Named(m', owner', k, bs)
  {
    forall i | 0 <= i < |bs| ensures Load(m', bs[i].addr) == Load(m, bs[i].addr) && HeaderOwned(owner', k, bs[i].addr) {
      assert HeaderOwned(owner, k, bs[i].addr);
      LoadSame(m, m', h, bs[i].addr);
    }
  }

  lemma ListedSame(m: Mem, m': Mem, k: nat, bs: seq<Block>, h: iset<int>)
    requires Listed(m, k, bs) && SameOn(m, m', h) && HeadersIn(bs, h)
    ensures Listed(m', k, bs)
  {
    forall i | 0 <= i < |bs| ensures Load(m', bs[i].addr) == HeaderOf(k, bs, i) { LoadSame(m, m', h, bs[i].addr); }
  }

  /** An arena is untouched by whatever leaves its headers and its ownership alone. */
  lemma ArenaKept(m: Mem, m': Mem, brk: nat, brk': nat, owner: map<int, nat>, owner': map<int, nat>, k: nat, a: Arena, h: iset<int>)
    requires ArenaInv(m, brk, owner, k, a) && SameOn(m, m', h) && HeadersIn(a.blocks, h) && HeadersIn(a.target, h)
    requires brk <= brk' <= |m| && brk' % 8 == 0 && forall x :: Owns(owner', k, x) <==> Owns(owner, k, x)
    ensures ArenaInv(m', brk', owner', k, a)
  {
    WritesIn(a.todo, k, a.blocks, a.target, h);
    NamedKept(m, m', owner, owner', k, a.blocks, h);
    var c, c' := Cells(m, a.head, a.tail), Cells(m', a.head, a.tail);
    AllDoneSame(c, c', a.todo, h);
    TargetParts(m, brk, owner, k, a);
    RaiseBreak(a.target, brk, brk');
    RaiseBreak(a.blocks, brk, brk');
    ListedSame(AllDone(c, a.todo).mem, AllDone(c', a.todo).mem, k, a.target, h);
    hide Named, WritesOk, Listed, Layout, AllDone, Covers, SameOn, HeadersIn;
    SoloSound(m, m', brk, brk', owner, owner', k, a);
  }

  /** All headers of an arena lie in bytes that it owns. */
  lemma HeadersOwned(m: Mem, brk: nat, owner: map<int, nat>, k: nat, a: Arena)
    requires ArenaInv(m, brk, owner, k, a)
    ensures HeadersIn(a.blocks, Owned(owner, k)) && HeadersIn(a.target, Owned(owner, k))
  {
    TargetParts(m, brk, owner, k, a);
    forall i | 0 <= i < |a.blocks| ensures HeaderIn(a.blocks[i].addr, Owned(owner, k)) {
      assert HeaderOwned(owner, k, a.blocks[i].addr);
    }
    forall i | 0 <= i < |a.target| ensures HeaderIn(a.target[i].addr, Owned(owner, k)) { HeaderIsOwned(owner, k, a.target, i); }
  }

  predicate Differs(x: int, y: int) { y != x }

  ghost function Except(x: int): iset<int> {
    iset y | Differs(x, y)
  }

  /** A byte of a payload lies in no header. */
  lemma PayloadApart(bs: seq<Block>, brk: nat, p: int, s: nat, x: int)
    requires Layout(bs, brk) && LiveIn(bs, p, s) && p <= x < p + s
    ensures HeadersIn(bs, Except(x))
  {
    var i :| 0 <= i < |bs| && bs[i].addr + HEADER == p && bs[i].size == s && !bs[i].freed;
    forall j | 0 <= j < |bs| ensures HeaderIn(bs[j].addr, Except(x)) {
      if j < i { assert End(bs[j]) <= bs[i].addr; }
      if i < j { assert End(bs[i]) <= bs[j].addr; }
    }
  }

  lemma SoloSound(m: Mem, m': Mem, brk: nat, brk': nat, owner: map<int, nat>, owner': map<int, nat>, k: nat, a: Arena)
    requires k < ARENAS && Sound(Solo(m, brk, owner, k, a)) && |m'| == |m|
    requires brk <= brk' <= |m| && brk' % 8 == 0 && forall x :: Owns(owner', k, x) <==> Owns(owner, k, x)
    requires var c, c' := AllDone(Cells(m, a.head, a.tail), a.todo), AllDone(Cells(m', a.head, a.tail), a.todo);
      c'.head == c.head && c'.tail == c.tail && Listed(c'.mem, k, a.target)
    requires Layout(a.target, brk')
    ensures Sound(Solo(m', brk', owner', k, a))
  {
    hide Listed, Layout, Total, AllDone;
    var v, w := Solo(m, brk, owner, k, a), Solo(m', brk', owner', k, a);
    assert ArenaOk(v, k);
    assert w.owner == v.owner by { SameOwner(owner, owner', k); }
    hide Tiled;
    forall j | 0 <= j < ARENAS ensures ArenaOk(w, j) {
      assert ArenaOk(v, j);
      if j != k { EmptyListed(w.mem, j, brk'); }
    }
  }

  lemma EmptyListed(m: Mem, j: nat, brk: nat)
    ensures Listed(m, j, []) && Layout([], brk)
  {
  }

  lemma SameOwner(owner: map<int, nat>, owner': map<int, nat>, k: nat)
    requires forall x :: Owns(owner', k, x) <==> Owns(owner, k, x)
    ensures OwnedBy(owner', k) == OwnedBy(owner, k)
  {
    var a, b := OwnedBy(owner', k), OwnedBy(owner, k);
    forall x ensures (x in a <==> x in b) && (x in a ==> a[x] == b[x]) {
      assert Owns(owner', k, x) <==> Owns(owner, k, x);
    }
  }

  // ---- Planning a change ----

  function IndexOf(bs: seq<Block>, p: nat): (i: nat)
    ensures i <= |bs| && (i < |bs| ==> bs[i].addr == p) && forall j :: 0 <= j < i ==> bs[j].addr != p
  {
    if bs == [] || bs[0].addr == p then 0 else 1 + IndexOf(bs[1..], p)
  }

  /** The stores of a split: the remainder's header, the link back to it, and the block itself. */
  function SplitWrites(h: Header, p: nat, size: nat): seq<Write>
    requires h.size >= size + HEADER
  {
    var r := p + HEADER + size;
    [At(r, All(Header(h.arena, true, h.size - size - HEADER, p, h.next))),
     if h.next != 0 then At(h.next, PrevIs(r)) else TailIs(r),
     At(p, SizeNext(size, r))]
  }

  /** The stores of a merge: the block takes over size and successor, which is linked back. */
  function JoinWrites(h: Header, n: Header, p: nat): seq<Write> {
    [At(p, SizeNext(h.size + HEADER + n.size, n.next)), if n.next != 0 then At(n.next, PrevIs(p)) else TailIs(p)]
  }

  /** The stores of an append: the new header, the link to it, and the new tail. */
  function AppendWrites(k: nat, head: nat, tail: nat, base: nat, size: nat): seq<Write> {
    [At(base, All(Header(k, false, size, tail, 0))), if head == 0 then HeadIs(base) else At(tail, NextIs(base)), TailIs(base)]
  }

  predicate Loadable(m: Mem, p: nat) {
    p + HEADER <= |m|
  }

  function SplitPlan(m: Mem, a: Arena, p: nat, size: nat): Arena {
    var i := IndexOf(a.blocks, p);
    if i == |a.blocks| || !Loadable(m, p) || Load(m, p).size < size + HEADER + 8 then a
    else a.(todo := SplitWrites(Load(m, p), p, size), target := SplitAt(a.blocks, i, size))
  }

  /** The code's test for merging. */
  predicate NextIsFree(m: Mem, p: nat)
    ensures NextIsFree(m, p) ==> Loadable(m, p) && Loadable(m, Load(m, p).next)
  {
    && Loadable(m, p) && Load(m, p).next != 0 && Loadable(m, Load(m, p).next)
    && Load(m, Load(m, p).next).freed && p + HEADER + Load(m, p).size == Load(m, p).next
  }

  function JoinPlan(m: Mem, a: Arena, p: nat): Arena {
    var i := IndexOf(a.blocks, p);
    if i == |a.blocks| || !NextIsFree(m, p) then a
    else a.(todo := JoinWrites(Load(m, p), Load(m, Load(m, p).next), p), target := JoinAt(a.blocks, i))
  }

  function FreedPlan(a: Arena, p: nat, freed: bool): Arena {
    var i := IndexOf(a.blocks, p);
    if i == |a.blocks| then a else a.(todo := [At(p, FreedIs(freed))], target := SetFreed(a.blocks, i, freed))
  }

  function AppendPlan(k: nat, a: Arena, base: nat, size: nat): Arena {
    a.(todo := AppendWrites(k, a.head, a.tail, base, size), target := a.blocks + [Block(base, size, false)],
       got := a.got + (HEADER + size))
  }

  lemma IndexFound(bs: seq<Block>, brk: nat, i: nat)
    requires Layout(bs, brk) && i < |bs|
    ensures IndexOf(bs, bs[i].addr) == i
  {
    var j := IndexOf(bs, bs[i].addr);
  }

  lemma SparesOwn(bs: seq<Block>, brk: nat, i: nat)
    requires Layout(bs, brk) && i < |bs|
    ensures Spares(bs, bs[i].addr)
  {
    forall j | 0 <= j < |bs| ensures bs[j].addr == bs[i].addr || bs[j].addr + HEADER <= bs[i].addr || bs[i].addr + HEADER <= bs[j].addr {
      if j < i { assert End(bs[j]) <= bs[i].addr; }
      if i < j { assert End(bs[i]) <= bs[j].addr; }
    }
  }

  lemma SparesWithin(bs: seq<Block>, brk: nat, i: nat, r: nat)
    requires Layout(bs, brk) && i < |bs| && bs[i].addr + HEADER <= r && r + HEADER <= End(bs[i])
    ensures Spares(bs, r)
  {
    forall j | 0 <= j < |bs| ensures bs[j].addr + HEADER <= r || r + HEADER <= bs[j].addr {
      if j < i { assert End(bs[j]) <= bs[i].addr; }
      if i < j { assert End(bs[i]) <= bs[j].addr; }
    }
  }

  lemma SparesAbove(bs: seq<Block>, brk: nat, r: nat)
    requires Layout(bs, brk) && brk <= r
    ensures Spares(bs, r)
  {
    forall j | 0 <= j < |bs| ensures bs[j].addr + HEADER <= r { assert BlockOk(bs[j], brk); }
  }

  /** The arena between changes, as a heap of its own. */
  lemma QuietSolo(m: Mem, brk: nat, owner: map<int, nat>, k: nat, a: Arena)
    requires ArenaInv(m, brk, owner, k, a) && Quiet(a)
    ensures k < ARENAS && a.target == a.blocks
    ensures forall i :: 0 <= i < |a.blocks| ==> Loadable(m, a.blocks[i].addr)
    ensures var v := Solo(m, brk, owner, k, a);
      && Sound(v) && v == One(k, Cells(m, a.head, a.tail), brk, OwnedBy(owner, k), a.blocks, a.got)
      && v.blocks[k] == a.blocks && v.mem == m && v.brk == brk && v.heads[k] == a.head && v.tails[k] == a.tail
      && |v.heads| == |v.tails| == |v.blocks| == |v.got| == ARENAS
    ensures Layout(a.blocks, brk) && Listed(m, k, a.blocks)
  {
    TargetParts(m, brk, owner, k, a);
  }

  lemma PlanInv(m: Mem, brk: nat, owner: map<int, nat>, k: nat, a: Arena, a': Arena)
    requires ArenaInv(m, brk, owner, k, a) && a'.blocks == a.blocks && a'.todo != []
    requires Sound(Solo(m, brk, owner, k, a'))
    requires WritesOk(a'.todo, k, a'.blocks, a'.target)
    ensures ArenaInv(m, brk, owner, k, a')
  {
    hide Sound, Named, WriteOk;
  }

  lemma OwnWrite(bs: seq<Block>, cs: seq<Block>, brk: nat, i: nat, j: nat, k: nat, f: Field)
    requires Layout(bs, brk) && i < |bs| && j < |cs| && cs[j].addr == bs[i].addr && !f.All?
    ensures WriteOk(At(bs[i].addr, f), k, bs, cs)
  {
    SparesOwn(bs, brk, i);
  }

  /** The three stores of a split, one after the other, are the split of the memory. */
  lemma SplitStores(m: Mem, head: nat, tail: nat, p: nat, size: nat)
    requires CanSplit(m, p, size)
    ensures var c := AllDone(Cells(m, head, tail), SplitWrites(Load(m, p), p, size));
      c.mem == SplitMemory(m, p, size) && c.head == head && c.tail == if Load(m, p).next != 0 then tail else p + HEADER + size
  {
    hide Load, Store;
    var c0, ws := Cells(m, head, tail), SplitWrites(Load(m, p), p, size);
    AllDoneStep(c0, ws);
    var c1 := Done(c0, ws[0]);
    AllDoneStep(c1, ws[1..]);
    var c2 := Done(c1, ws[1]);
    AllDoneStep(c2, ws[1..][1..]);
    assert ws[1..][0] == ws[1] && ws[1..][1..][0] == ws[2] && ws[1..][1..][1..] == [];
    assert AllDone(Done(c2, ws[2]), []) == Done(c2, ws[2]);
  }

  lemma AllDoneStep(c: Cells, ws: seq<Write>)
    requires ws != []
    ensures AllDone(c, ws) == AllDone(Done(c, ws[0]), ws[1..])
  {
  }

  lemma JoinStores(m: Mem, head: nat, tail: nat, p: nat)
    requires CanJoin(m, p)
    ensures var n := Load(m, Load(m, p).next);
      var c := AllDone(Cells(m, head, tail), JoinWrites(Load(m, p), n, p));
      c.mem == JoinMemory(m, p) && c.head == head && c.tail == if n.next != 0 then tail else p
  {
    hide Load, Store;
    var c0, ws := Cells(m, head, tail), JoinWrites(Load(m, p), Load(m, Load(m, p).next), p);
    AllDoneStep(c0, ws);
    var c1 := Done(c0, ws[0]);
    AllDoneStep(c1, ws[1..]);
    assert ws[1..][0] == ws[1] && ws[1..][1..] == [];
    assert AllDone(Done(c1, ws[1]), []) == Done(c1, ws[1]);
  }

  lemma AppendStores(m: Mem, k: nat, head: nat, tail: nat, base: nat, size: nat)
    requires base + HEADER <= |m| && tail + HEADER <= |m| && (head == 0 <==> tail == 0)
    ensures var c := AllDone(Cells(m, head, tail), AppendWrites(k, head, tail, base, size));
      c.mem == AppendMemory(m, k, tail, base, size) && c.head == (if head == 0 then base else head) && c.tail == base
  {
    hide Load, Store;
    var c0, ws := Cells(m, head, tail), AppendWrites(k, head, tail, base, size);
    AllDoneStep(c0, ws);
    var c1 := Done(c0, ws[0]);
    AllDoneStep(c1, ws[1..]);
    var c2 := Done(c1, ws[1]);
    AllDoneStep(c2, ws[1..][1..]);
    assert ws[1..][0] == ws[1] && ws[1..][1..][0] == ws[2] && ws[1..][1..][1..] == [];
    assert AllDone(Done(c2, ws[2]), []) == Done(c2, ws[2]);
  }

  // ---- What a planned change does ----

  /** The plan is sound, and changes no allocation but the one at `p`. */
  ghost predicate Planned(m: Mem, brk: nat, owner: map<int, nat>, k: nat, a: Arena, a': Arena, p: int) {
    && ArenaInv(m, brk, owner, k, a') && a'.blocks == a.blocks
    && forall q, s: nat :: q != p ==> (LiveIn(a.blocks, q, s) <==> LiveIn(a'.target, q, s))
  }

  lemma NothingPlanned(m: Mem, brk: nat, owner: map<int, nat>, k: nat, a: Arena, p: int)
    requires ArenaInv(m, brk, owner, k, a) && Quiet(a)
    ensures Planned(m, brk, owner, k, a, a, p)
  {
  }

  lemma HeaderIs(k: nat, bs: seq<Block>, i: nat, brk: nat)
    requires Layout(bs, brk) && i < |bs|
    ensures var h := HeaderOf(k, bs, i);
      && h.arena == k && h.size == bs[i].size && (h.next != 0 <==> i + 1 < |bs|) && (i + 1 < |bs| ==> h.next == bs[i + 1].addr)
  {
    if i + 1 < |bs| { BlockPlaced(bs, i + 1, brk); }
  }

  lemma NewWrite(bs: seq<Block>, cs: seq<Block>, j: nat, k: nat, h: Header)
    requires j < |cs| && Spares(bs, cs[j].addr) && h.arena == k
    ensures WriteOk(At(cs[j].addr, All(h)), k, bs, cs)
  {
  }

  lemma SplitWritesOk(k: nat, bs: seq<Block>, i: nat, size: nat, brk: nat)
    requires Layout(bs, brk) && i < |bs| && Splits(bs[i], size)
    ensures HeaderOf(k, bs, i).size >= size + HEADER
    ensures WritesOk(SplitWrites(HeaderOf(k, bs, i), bs[i].addr, size), k, bs, SplitAt(bs, i, size))
  {
    var cs, p, r, h := SplitAt(bs, i, size), bs[i].addr, bs[i].addr + HEADER + size, HeaderOf(k, bs, i);
    HeaderIs(k, bs, i, brk);
    SplitShape(bs, i, size);
    SparesWithin(bs, brk, i, r);
    hide *;
    NewWrite(bs, cs, i + 1, k, Header(h.arena, true, h.size - size - HEADER, p, h.next));
    OwnWrite(bs, cs, brk, i, i, k, SizeNext(size, r));
    if i + 1 < |bs| { OwnWrite(bs, cs, brk, i + 1, i + 2, k, PrevIs(r)); } else { TailWrite(r, k, bs, cs); }
    SplitWritesAre(h, p, size);
    AllOk(SplitWrites(h, p, size), k, bs, cs);
  }

  lemma TailWrite(q: nat, k: nat, bs: seq<Block>, cs: seq<Block>)
    ensures WriteOk(TailIs(q), k, bs, cs) && WriteOk(HeadIs(q), k, bs, cs)
  {
  }

  lemma SplitWritesAre(h: Header, p: nat, size: nat)
    requires h.size >= size + HEADER
    ensures var r, ws := p + HEADER + size, SplitWrites(h, p, size);
      && |ws| == 3 && ws[0] == At(r, All(Header(h.arena, true, h.size - size - HEADER, p, h.next)))
      && ws[1] == (if h.next != 0 then At(h.next, PrevIs(r)) else TailIs(r)) && ws[2] == At(p, SizeNext(size, r))
  {
  }

  lemma AllOk(ws: seq<Write>, k: nat, bs: seq<Block>, cs: seq<Block>)
    requires |ws| <= 3 && (|ws| > 0 ==> WriteOk(ws[0], k, bs, cs)) && (|ws| > 1 ==> WriteOk(ws[1], k, bs, cs))
    requires |ws| > 2 ==> WriteOk(ws[2], k, bs, cs)
    ensures WritesOk(ws, k, bs, cs)
  {
    hide WriteOk;
  }

  /** Planning a split of the block at `p`. */
  lemma SplitPlanned(m: Mem, brk: nat, owner: map<int, nat>, k: nat, a: Arena, i: nat, size: nat)
    requires ArenaInv(m, brk, owner, k, a) && Quiet(a) && i < |a.blocks| && Rounded(size)
    ensures var p, a' := a.blocks[i].addr, SplitPlan(m, a, a.blocks[i].addr, size);
      && Planned(m, brk, owner, k, a, a', p + HEADER)
      && a'.target == SplitAt(a.blocks, i, size) && a'.got == a.got && a'.head == a.head && a'.tail == a.tail
  {
    hide *;
    QuietSolo(m, brk, owner, k, a);
    var v, p := Solo(m, brk, owner, k, a), a.blocks[i].addr;
    var cs, a' := SplitAt(a.blocks, i, size), SplitPlan(m, a, p, size);
    HeaderFound(v, k, i);
    HeaderIs(k, a.blocks, i, brk);
    SplitFound(v, k, i, size);
    SplitSame(a.blocks, i, size);
    SplitPlanIs(m, brk, a, i, size);
    SameButParts(a.blocks, cs, p + HEADER);
    if Load(m, p).size >= size + HEADER + 8 {
      SplitStores(m, a.head, a.tail, p, size);
      IsSplit(a.blocks, i, size);
      SplitPlaces(a.blocks, i, size);
      SplitWritesOk(k, a.blocks, i, size, brk);
      ChangedSound(v, SplitWritten(v, k, p, size, cs), k, cs, i);
      WrittenIsSolo(m, brk, owner, k, a, p, size, cs);
      SplitWritesAre(Load(m, p), p, size);
      PlanInv(m, brk, owner, k, a, a');
    } else {
      NotSplit(a.blocks, i, size);
      NothingPlanned(m, brk, owner, k, a, p + HEADER);
    }
    PlannedIntro(m, brk, owner, k, a, a', p + HEADER);
  }

  lemma PlannedIntro(m: Mem, brk: nat, owner: map<int, nat>, k: nat, a: Arena, a': Arena, p: int)
    requires ArenaInv(m, brk, owner, k, a') && a'.blocks == a.blocks
    requires forall q, s: nat :: q != p ==> (LiveIn(a.blocks, q, s) <==> LiveIn(a'.target, q, s))
    ensures Planned(m, brk, owner, k, a, a', p)
  {
  }

  lemma SplitPlanIs(m: Mem, brk: nat, a: Arena, i: nat, size: nat)
    requires Layout(a.blocks, brk) && i < |a.blocks| && a.blocks[i].addr + HEADER <= |m|
    ensures var p := a.blocks[i].addr;
      && (Load(m, p).size >= size + HEADER + 8 ==>
          SplitPlan(m, a, p, size) == a.(todo := SplitWrites(Load(m, p), p, size), target := SplitAt(a.blocks, i, size)))
      && (Load(m, p).size < size + HEADER + 8 ==> SplitPlan(m, a, p, size) == a)
  {
    IndexFound(a.blocks, brk, i);
    hide Load, SplitAt;
  }

  lemma IsSplit(bs: seq<Block>, i: nat, size: nat)
    requires i < |bs| && bs[i].size >= size + HEADER + 8
    ensures Splits(bs[i], size)
  {
  }

  lemma NotSplit(bs: seq<Block>, i: nat, size: nat)
    requires i < |bs| && bs[i].size < size + HEADER + 8
    ensures SplitAt(bs, i, size) == bs
  {
  }

  lemma ChangedSound(v: View, w: View, k: nat, cs: seq<Block>, i: nat)
    requires k < |v.blocks| && i < |cs| && Changed(v, w, k, cs, i)
    ensures Sound(w)
  {
  }

  lemma WrittenIsSolo(m: Mem, brk: nat, owner: map<int, nat>, k: nat, a: Arena, p: nat, size: nat, cs: seq<Block>)
    requires k < ARENAS && Quiet(a) && CanSplit(m, p, size)
    requires var c := AllDone(Cells(m, a.head, a.tail), SplitWrites(Load(m, p), p, size));
      c.mem == SplitMemory(m, p, size) && c.head == a.head && c.tail == if Load(m, p).next != 0 then a.tail else p + HEADER + size
    ensures var a' := a.(todo := SplitWrites(Load(m, p), p, size), target := cs);
      Solo(m, brk, owner, k, a') == SplitWritten(One(k, Cells(m, a.head, a.tail), brk, OwnedBy(owner, k), a.blocks, a.got), k, p, size, cs)
  {
    hide SplitMemory, AllDone, Load, SplitWrites;
    assert forall n: nat :: Five(0, k, a.tail)[k := n] == Five(0, k, n);
    assert Five([], k, a.blocks)[k := cs] == Five([], k, cs);
  }

  lemma JoinWritesOk(k: nat, bs: seq<Block>, i: nat, brk: nat)
    requires Layout(bs, brk) && i < |bs| && Joins(bs, i)
    ensures i + 1 < |bs| && WritesOk(JoinWrites(HeaderOf(k, bs, i), HeaderOf(k, bs, i + 1), bs[i].addr), k, bs, JoinAt(bs, i))
  {
    JoinShape(bs, i);
    var cs, p, h, n := JoinAt(bs, i), bs[i].addr, HeaderOf(k, bs, i), HeaderOf(k, bs, i + 1);
    HeaderIs(k, bs, i + 1, brk);
    hide *;
    OwnWrite(bs, cs, brk, i, i, k, SizeNext(h.size + HEADER + n.size, n.next));
    if i + 2 < |bs| { OwnWrite(bs, cs, brk, i + 2, i + 1, k, PrevIs(p)); } else { TailWrite(p, k, bs, cs); }
    JoinWritesAre(h, n, p);
    AllOk(JoinWrites(h, n, p), k, bs, cs);
  }

  lemma JoinWritesAre(h: Header, n: Header, p: nat)
    ensures var ws := JoinWrites(h, n, p);
      && |ws| == 2 && ws[0] == At(p, SizeNext(h.size + HEADER + n.size, n.next))
      && ws[1] == if n.next != 0 then At(n.next, PrevIs(p)) else TailIs(p)
  {
  }

  /** Planning to merge the block at `p` with its successor, if that is free and adjacent. */
  lemma JoinPlanned(m: Mem, brk: nat, owner: map<int, nat>, k: nat, a: Arena, i: nat)
    requires ArenaInv(m, brk, owner, k, a) && Quiet(a) && i < |a.blocks|
    ensures var p, a' := a.blocks[i].addr, JoinPlan(m, a, a.blocks[i].addr);
      && Planned(m, brk, owner, k, a, a', p + HEADER)
      && a'.target == JoinAt(a.blocks, i) && a'.got == a.got && a'.head == a.head && a'.tail == a.tail
  {
    hide *;
    QuietSolo(m, brk, owner, k, a);
    var v, p := Solo(m, brk, owner, k, a), a.blocks[i].addr;
    var cs, a' := JoinAt(a.blocks, i), JoinPlan(m, a, p);
    HeaderFound(v, k, i);
    JoinStep(v, k, i);
    JoinSame(a.blocks, i);
    NextFree(v, k, i);
    JoinPlanIs(m, brk, a, i);
    SameButParts(a.blocks, cs, p + HEADER);
    if Joins(a.blocks, i) {
      NextListed(m, k, a.blocks, i);
      JoinPlaces(a.blocks, i);
      JoinStores(m, a.head, a.tail, p);
      JoinWritesOk(k, a.blocks, i, brk);
      ChangedSound(v, JoinWritten(v, k, p, cs), k, cs, i);
      JoinedIsSolo(m, brk, owner, k, a, p, cs);
      JoinWritesAre(Load(m, p), Load(m, Load(m, p).next), p);
      PlanInv(m, brk, owner, k, a, a');
    } else {
      NotJoined(a.blocks, i);
      NothingPlanned(m, brk, owner, k, a, p + HEADER);
    }
    PlannedIntro(m, brk, owner, k, a, a', p + HEADER);
  }

  lemma NextFree(v: View, k: nat, i: nat)
    requires Sound(v) && k < ARENAS && |v.blocks| == ARENAS && i < |v.blocks[k]|
    ensures NextIsFree(v.mem, v.blocks[k][i].addr) <==> Joins(v.blocks[k], i)
    ensures Joins(v.blocks[k], i) ==> Loadable(v.mem, Load(v.mem, v.blocks[k][i].addr).next)
  {
    NextFound(v, k, i);
    hide Sound, Load, Joins;
  }

  lemma JoinPlanIs(m: Mem, brk: nat, a: Arena, i: nat)
    requires Layout(a.blocks, brk) && i < |a.blocks| && Loadable(m, a.blocks[i].addr)
    ensures var p := a.blocks[i].addr;
      if NextIsFree(m, p) then
        JoinPlan(m, a, p) == a.(todo := JoinWrites(Load(m, p), Load(m, Load(m, p).next), p), target := JoinAt(a.blocks, i))
      else JoinPlan(m, a, p) == a
  {
    IndexFound(a.blocks, brk, i);
    hide Load, JoinAt, Layout, NextIsFree;
  }

  lemma NotJoined(bs: seq<Block>, i: nat)
    requires i < |bs| && !Joins(bs, i)
    ensures JoinAt(bs, i) == bs
  {
  }

  lemma NextListed(m: Mem, k: nat, bs: seq<Block>, i: nat)
    requires Listed(m, k, bs) && i < |bs| && Joins(bs, i)
    ensures i + 1 < |bs| && HeaderOf(k, bs, i).next == bs[i + 1].addr && Load(m, bs[i + 1].addr) == HeaderOf(k, bs, i + 1)
  {
  }

  lemma JoinedIsSolo(m: Mem, brk: nat, owner: map<int, nat>, k: nat, a: Arena, p: nat, cs: seq<Block>)
    requires k < ARENAS && Quiet(a) && CanJoin(m, p)
    requires var n := Load(m, Load(m, p).next);
      var c := AllDone(Cells(m, a.head, a.tail), JoinWrites(Load(m, p), n, p));
      c.mem == JoinMemory(m, p) && c.head == a.head && c.tail == if n.next != 0 then a.tail else p
    ensures var a' := a.(todo := JoinWrites(Load(m, p), Load(m, Load(m, p).next), p), target := cs);
      Solo(m, brk, owner, k, a') == JoinWritten(One(k, Cells(m, a.head, a.tail), brk, OwnedBy(owner, k), a.blocks, a.got), k, p, cs)
  {
    hide JoinMemory, AllDone, Load, JoinWrites;
    assert forall n: nat :: Five(0, k, a.tail)[k := n] == Five(0, k, n);
    assert Five([], k, a.blocks)[k := cs] == Five([], k, cs);
  }

  /** Planning to mark the block at `p` free or used. */
  lemma FreedPlanned(m: Mem, brk: nat, owner: map<int, nat>, k: nat, a: Arena, i: nat, freed: bool)
    requires ArenaInv(m, brk, owner, k, a) && Quiet(a) && i < |a.blocks|
    ensures var p, a' := a.blocks[i].addr, FreedPlan(a, a.blocks[i].addr, freed);
      && Planned(m, brk, owner, k, a, a', p + HEADER)
      && a'.target == SetFreed(a.blocks, i, freed) && a'.todo != [] && a'.got == a.got && a'.head == a.head && a'.tail == a.tail
  {
    var v, p := Solo(m, brk, owner, k, a), a.blocks[i].addr;
    QuietSolo(m, brk, owner, k, a);
    IndexFound(a.blocks, brk, i);
    FreedStep(v, k, i, freed);
    FreedSame(a.blocks, i, freed);
    var cs, a' := SetFreed(a.blocks, i, freed), FreedPlan(a, p, freed);
    OwnWrite(a.blocks, cs, brk, i, i, k, FreedIs(freed));
    AllOk(a'.todo, k, a.blocks, cs);
    FreedIsSolo(m, brk, owner, k, a, p, freed, cs);
    hide Sound, Load, Changed, Listed, ArenaInv, Store;
    SameButParts(a.blocks, cs, p + HEADER);
    ChangedSound(v, v.(mem := Store(m, p, Load(m, p).(freed := freed)), blocks := v.blocks[k := cs]), k, cs, i);
    PlanInv(m, brk, owner, k, a, a');
  }

  lemma FreedIsSolo(m: Mem, brk: nat, owner: map<int, nat>, k: nat, a: Arena, p: nat, freed: bool, cs: seq<Block>)
    requires k < ARENAS && Quiet(a) && Loadable(m, p)
    ensures var a' := a.(todo := [At(p, FreedIs(freed))], target := cs);
      var v := One(k, Cells(m, a.head, a.tail), brk, OwnedBy(owner, k), a.blocks, a.got);
      Solo(m, brk, owner, k, a') == v.(mem := Store(m, p, Load(m, p).(freed := freed)), blocks := v.blocks[k := cs])
  {
    hide Load, Store;
    var c0, ws := Cells(m, a.head, a.tail), [At(p, FreedIs(freed))];
    AllDoneStep(c0, ws);
    assert ws[1..] == [];
    assert AllDone(Done(c0, ws[0]), []) == Done(c0, ws[0]);
    assert Five([], k, a.blocks)[k := cs] == Five([], k, cs);
  }

  // ---- More memory ----

  lemma GrownOwner(owner: map<int, nat>, base: nat, n: nat, k: nat, j: nat)
    requires forall x :: x in owner ==> x < base
    ensures OwnedBy(Grown(owner, base, n, k), k) == Grown(OwnedBy(owner, k), base, n, k)
    ensures j != k ==> forall x :: Owns(Grown(owner, base, n, k), j, x) <==> Owns(owner, j, x)
    ensures forall x :: Owns(owner, k, x) ==> Owns(Grown(owner, base, n, k), k, x)
  {
  }

  lemma AppendWritesOk(k: nat, bs: seq<Block>, head: nat, tail: nat, b: Block, brk: nat)
    requires Layout(bs, brk) && brk <= b.addr && !b.freed && (head == 0 <==> bs == []) && tail == AddrAt(bs, |bs| - 1)
    ensures WritesOk(AppendWrites(k, head, tail, b.addr, b.size), k, bs, bs + [b])
  {
    var cs, n := bs + [b], |bs|;
    SparesAbove(bs, brk, b.addr);
    assert cs[n] == b && (n > 0 ==> cs[n - 1] == bs[n - 1] && tail == bs[n - 1].addr);
    NewWrite(bs, cs, n, k, Header(k, false, b.size, tail, 0));
    TailWrite(b.addr, k, bs, cs);
    if n > 0 { OwnWrite(bs, cs, brk, n - 1, n - 1, k, NextIs(b.addr)); }
    hide WriteOk, WritesOk, Spares, Layout;
    AllOk(AppendWrites(k, head, tail, b.addr, b.size), k, bs, cs);
  }

  lemma NamedGrown(m: Mem, owner: map<int, nat>, owner': map<int, nat>, k: nat, bs: seq<Block>)
    requires Named(m, owner, k, bs) && forall x :: Owns(owner, k, x) ==> Owns(owner', k, x)
    ensures Named(m, owner', k, bs)
  {
    forall i | 0 <= i < |bs| ensures HeaderOwned(owner', k, bs[i].addr) { assert HeaderOwned(owner, k, bs[i].addr); }
  }

  /** The arena with its new block, as a heap of its own. */
  lemma AppendedIsSolo(m: Mem, owner: map<int, nat>, k: nat, a: Arena, base: nat, size: nat)
    requires k < ARENAS && Quiet(a) && base + HEADER <= |m| && a.tail + HEADER <= |m| && (a.head == 0 <==> a.tail == 0)
    requires forall x :: x in owner ==> x < base
    ensures Solo(m, base + (HEADER + size), Grown(owner, base, HEADER + size, k), k, AppendPlan(k, a, base, size))
      == One(k, Cells(AppendMemory(m, k, a.tail, base, size), if a.head == 0 then base else a.head, base), base + (HEADER + size),
             Grown(OwnedBy(owner, k), base, HEADER + size, k), a.blocks + [Block(base, size, false)], a.got + (HEADER + size))
  {
    hide *;
    var n, a' := HEADER + size, AppendPlan(k, a, base, size);
    GrownOwner(owner, base, n, k, k);
    AppendStores(m, k, a.head, a.tail, base, size);
    AppendParts(k, a, base, size);
    SoloIs(m, base + n, Grown(owner, base, n, k), k, a');
    var c := AllDone(Cells(m, a.head, a.tail), AppendWrites(k, a.head, a.tail, base, size));
    assert c == Cells(c.mem, c.head, c.tail);
  }

  lemma AppendParts(k: nat, a: Arena, base: nat, size: nat)
    ensures var a' := AppendPlan(k, a, base, size);
      && a'.blocks == a.blocks && a'.head == a.head && a'.tail == a.tail && a'.todo == AppendWrites(k, a.head, a.tail, base, size)
      && a'.target == a.blocks + [Block(base, size, false)] && a'.got == a.got + (HEADER + size)
  {
  }

  lemma SoloIs(m: Mem, brk: nat, owner: map<int, nat>, k: nat, a: Arena)
    requires k < ARENAS
    ensures Solo(m, brk, owner, k, a) == One(k, AllDone(Cells(m, a.head, a.tail), a.todo), brk, OwnedBy(owner, k), a.target, a.got)
  {
  }

  lemma OneParts(k: nat, c: Cells, brk: nat, owner: map<int, nat>, bs: seq<Block>, got: nat)
    requires k < ARENAS
    ensures var v := One(k, c, brk, owner, bs, got);
      && v.mem == c.mem && v.brk == brk && v.owner == owner
      && v.heads == Five(0, k, c.head) && v.tails == Five(0, k, c.tail) && v.blocks == Five([], k, bs) && v.got == Five(0, k, got)
  {
  }

  lemma OneGrown(k: nat, c: Cells, brk: nat, owner: map<int, nat>, bs: seq<Block>, got: nat, b: Block)
    requires k < ARENAS && CanGrow(One(k, c, brk, owner, bs, got), k, b) && c.tail + HEADER <= |c.mem| && b.addr + HEADER <= |c.mem|
    ensures Sound(One(k, Cells(AppendMemory(c.mem, k, c.tail, b.addr, b.size), if c.head == 0 then b.addr else c.head, b.addr),
                      b.addr + (HEADER + b.size), Grown(owner, b.addr, HEADER + b.size, k), bs + [b], got + (HEADER + b.size)))
  {
    hide *;
    var n, c' := HEADER + b.size, Cells(AppendMemory(c.mem, k, c.tail, b.addr, b.size), if c.head == 0 then b.addr else c.head, b.addr);
    FiveSet(0, k, c.head, b.addr);
    FiveSet(0, k, c.tail, b.addr);
    FiveSet(0, k, got, got + n);
    FiveSet([], k, bs, bs + [b]);
    OneParts(k, c, brk, owner, bs, got);
    OneParts(k, c', b.addr + n, Grown(owner, b.addr, n, k), bs + [b], got + n);
    GrowStep(One(k, c, brk, owner, bs, got), One(k, c', b.addr + n, Grown(owner, b.addr, n, k), bs + [b], got + n), k, b);
  }

  lemma AppendReady(m: Mem, brk: nat, owner: map<int, nat>, k: nat, a: Arena, base: nat, size: nat)
    requires ArenaInv(m, brk, owner, k, a) && Quiet(a) && Rounded(size)
    requires brk <= base && base % 8 == 0 && base + HEADER + size <= |m|
    ensures k < ARENAS
    ensures (a.head == 0 <==> a.blocks == []) && a.tail == AddrAt(a.blocks, |a.blocks| - 1) && (a.head == 0 <==> a.tail == 0)
    ensures base + HEADER <= |m| && a.tail + HEADER <= |m|
    ensures CanGrow(One(k, Cells(m, a.head, a.tail), brk, OwnedBy(owner, k), a.blocks, a.got), k, Block(base, size, false))
  {
    var v, b := Solo(m, brk, owner, k, a), Block(base, size, false);
    QuietSolo(m, brk, owner, k, a);
    assert CanGrow(v, k, b);
    hide Sound, Listed, Layout, ArenaInv, CanGrow;
    GrowFound(v, k, b);
    ListEnds(v, k);
    HeadIsNull(a.blocks, brk);
  }

  lemma AppendSound(m: Mem, brk: nat, owner: map<int, nat>, k: nat, a: Arena, base: nat, size: nat)
    requires ArenaInv(m, brk, owner, k, a) && Quiet(a) && Rounded(size)
    requires brk <= base && base % 8 == 0 && base + HEADER + size <= |m| && forall x :: x in owner ==> x < brk
    ensures Sound(Solo(m, base + (HEADER + size), Grown(owner, base, HEADER + size, k), k, AppendPlan(k, a, base, size)))
    ensures (a.head == 0 <==> a.blocks == []) && a.tail == AddrAt(a.blocks, |a.blocks| - 1)
  {
    hide *;
    AppendReady(m, brk, owner, k, a, base, size);
    OneGrown(k, Cells(m, a.head, a.tail), brk, OwnedBy(owner, k), a.blocks, a.got, Block(base, size, false));
    AppendedIsSolo(m, owner, k, a, base, size);
  }

  /** Planning to append a region that lies above everything. */
  lemma AppendPlanned(m: Mem, brk: nat, owner: map<int, nat>, k: nat, a: Arena, base: nat, size: nat)
    requires ArenaInv(m, brk, owner, k, a) && Quiet(a) && Rounded(size)
    requires brk <= base && base % 8 == 0 && base + HEADER + size <= |m| && forall x :: x in owner ==> x < brk
    ensures ArenaInv(m, base + (HEADER + size), Grown(owner, base, HEADER + size, k), k, AppendPlan(k, a, base, size))
  {
    hide *;
    var b, a', owner' := Block(base, size, false), AppendPlan(k, a, base, size), Grown(owner, base, HEADER + size, k);
    ListParts(m, brk, owner, k, a);
    AppendSound(m, brk, owner, k, a, base, size);
    AppendParts(k, a, base, size);
    GrownOwner(owner, base, HEADER + size, k, k);
    RaiseBreak(a.blocks, brk, base + (HEADER + size));
    NamedGrown(m, owner, owner', k, a.blocks);
    AppendWritesOk(k, a.blocks, a.head, a.tail, b, brk);
    ThreeWrites(k, a.head, a.tail, base, size);
    ArenaIntro(m, base + (HEADER + size), owner', k, a');
  }

  lemma ListParts(m: Mem, brk: nat, owner: map<int, nat>, k: nat, a: Arena)
    requires ArenaInv(m, brk, owner, k, a)
    ensures k < ARENAS && Named(m, owner, k, a.blocks) && Layout(a.blocks, brk)
  {
  }

  lemma ArenaIntro(m: Mem, brk: nat, owner: map<int, nat>, k: nat, a: Arena)
    requires k < ARENAS && Sound(Solo(m, brk, owner, k, a)) && Named(m, owner, k, a.blocks) && Layout(a.blocks, brk)
    requires WritesOk(a.todo, k, a.blocks, a.target) && a.todo != []
    ensures ArenaInv(m, brk, owner, k, a)
  {
  }

  lemma ThreeWrites(k: nat, head: nat, tail: nat, base: nat, size: nat)
    ensures |AppendWrites(k, head, tail, base, size)| == 3
  {
  }

  lemma FiveSet<T>(none: T, k: nat, one: T, two: T)
    requires k < ARENAS
    ensures Five(none, k, two) == Five(none, k, one)[k := two]
  {
  }

  lemma HeadIsNull(bs: seq<Block>, brk: nat)
    requires Layout(bs, brk)
    ensures AddrAt(bs, 0) == 0 <==> bs == []
  {
    if bs != [] { BlockPlaced(bs, 0, brk); }
  }
}
