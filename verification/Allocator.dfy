/**
The heap allocator: five arenas, each a doubly linked list of blocks threaded through the process's
memory; first fit, splitting, coalescing, heap extension by `sbrk`, and the four public calls.

The ghost fields `blocks`, `owner` and `got` record the block lists, which arena obtained each byte, and
how many bytes each arena obtained.  Every method reads and writes the headers in `mem`.
*/
module Allocator {
  import opened Bytes
  import opened FlatMemory
  import opened BlockLists
  import opened ArenaMemory
  import opened HeapViews
  import opened HeapSteps
  import opened HeapCalls

  const RESERVE: nat := 2048

  /** The answer of the operating system to one `sbrk`: it refuses, or it grants the region that starts
      `skip` bytes above our last break, which others may have raised in the meantime. */
  datatype Kernel = Deny | Grant(skip: nat)

  predicate Aligned(sys: Kernel) {
    sys.Grant? ==> sys.skip % 8 == 0
  }

  /** The operating system has no room for a header, the request, and the reserve if there is one. */
  predicate Refused(sys: Kernel, brk: nat, limit: nat, size: nat, contention: bool) {
    sys.Deny? || brk + sys.skip + HEADER + size + (if contention then RESERVE else 0) > limit
  }

  /** Requests that leave room for a header and the reserve in a signed 64-bit `sbrk` increment. */
  predicate Small(size: nat) {
    HEADER + size + RESERVE < 0x8000_0000_0000_0000
  }

  /** The byte at `x` once `j` bytes have been copied from `src` to `dst`. */
  function CopyAt(m: Mem, dst: nat, src: nat, j: nat, x: nat): Byte
    requires x < |m| && src + j <= |m|
  {
    if dst <= x < dst + j then m[src + (x - dst)] else m[x]
  }

  /** `ALIGN8` in 64-bit arithmetic: a request within 7 of the largest number wraps to 0. */
  function Align8(size: nat): nat {
    (size + 7) % WORD / 8 * 8
  }

  lemma AlignUp(size: nat)
    requires size < WORD
    ensures size + 7 < WORD ==> size <= Align8(size) < size + 8
    ensures size + 7 >= WORD ==> Align8(size) == 0
    ensures Align8(size) == 0 || Rounded(Align8(size))
  {
  }

  lemma AlignTwice(size: nat)
    requires Align8(size) + 7 < WORD
    ensures Align8(Align8(size)) == Align8(size)
  {
  }

  /** The code's overflow test is exact. */
  lemma {:induction false} OverflowTest(nitems: nat, nsize: nat)
    ensures (nitems != 0 && nsize > (WORD - 1) / nitems) <==> nitems * nsize >= WORD
  {
    if nitems != 0 {
      var q, r := (WORD - 1) / nitems, (WORD - 1) % nitems;
      assert WORD - 1 == q * nitems + r;
      if nsize > q {
        assert nsize * nitems >= (q + 1) * nitems == q * nitems + nitems;
      } else {
        assert nsize * nitems <= q * nitems;
      }
    }
  }

  class Heap {
    var mem: Mem
    var brk: nat
    var heads: seq<nat>
    var tails: seq<nat>
    var contention: bool
    var nextArena: nat
    var threadArena: map<nat, nat>
    ghost var blocks: seq<seq<Block>>
    ghost var owner: map<int, nat>
    ghost var got: seq<nat>

    ghost function V(): View
      reads this
    {
      View(mem, brk, heads, tails, blocks, owner, got)
    }

    ghost predicate Valid()
      reads this
    {
      Settled(V()) && forall t :: t in threadArena ==> threadArena[t] < ARENAS
    }

    /** Block `i` of arena `k` starts at `p`. */
    ghost predicate At(k: nat, i: nat, p: nat)
      reads this
    {
      Sound(V()) && k < ARENAS && i < |blocks[k]| && blocks[k][i].addr == p
    }

    // ---- Searching and reshaping one arena's list ----

    method FirstHit(k: nat, size: nat) returns (block: nat, ghost i: nat)
      requires Sound(V()) && k < ARENAS
      ensures block == 0 ==> !HasFit(blocks[k], size)
      ensures block != 0 ==> At(k, i, block) && Holds(blocks[k][i], size)
      ensures block != 0 ==> forall j :: 0 <= j < i ==> !Holds(blocks[k][j], size)
    {
      block := heads[k];
      i := 0;
      ListEnds(V(), k);
      while block != 0
        invariant i <= |blocks[k]| && block == AddrAt(blocks[k], i)
        invariant forall j :: 0 <= j < i ==> !Holds(blocks[k][j], size)
        decreases |blocks[k]| - i
      {
        HeaderFound(V(), k, i);
        var h := Load(mem, block);
        if h.freed && h.size >= size {
          return;
        }
        block := h.next;
        i := i + 1;
      }
      assert i < |blocks[k]| ==> BlockOk(blocks[k][i], brk);
    }

    /** The header writes of a split: the remainder's header, then the links around it. */
    method LinkRemainder(k: nat, p: nat, size: nat)
      requires CanSplit(mem, p, size) && k < |tails|
      modifies this`mem, this`tails
      ensures mem == SplitMemory(old(mem), p, size)
      ensures tails == if Load(old(mem), p).next != 0 then old(tails) else old(tails)[k := p + HEADER + size]
    {
      hide Load, Store;
      var h, remainder := Load(mem, p), p + HEADER + size;
      mem := Store(mem, remainder, Header(h.arena, true, h.size - size - HEADER, p, h.next));
      if h.next != 0 {
        mem := Store(mem, h.next, Load(mem, h.next).(prev := remainder));
      } else {
        tails := tails[k := remainder];
      }
      mem := Store(mem, p, Load(mem, p).(next := remainder, size := size));
    }

    method SplitBlock(k: nat, p: nat, size: nat, ghost i: nat)
      requires At(k, i, p) && Rounded(size)
      modifies this`mem, this`tails, this`blocks
      ensures Changed(old(V()), V(), k, SplitAt(old(blocks[k]), i, size), i)
    {
      hide Sound, Changed, Load, CanSplit, SplitMemory, SplitAt, Rounded;
      SplitFound(V(), k, i, size);
      if Load(mem, p).size < size + HEADER + 8 {
        return;
      }
      LinkRemainder(k, p, size);
      blocks := blocks[k := SplitAt(blocks[k], i, size)];
    }

    /** The header writes of a merge: the block takes over the size and the successor of the next one. */
    method UnlinkNext(k: nat, p: nat)
      requires CanJoin(mem, p) && k < |tails|
      modifies this`mem, this`tails
      ensures mem == JoinMemory(old(mem), p)
      ensures tails == if Load(old(mem), Load(old(mem), p).next).next != 0 then old(tails) else old(tails)[k := p]
    {
      hide Load, Store;
      var h := Load(mem, p);
      var n := Load(mem, h.next);
      mem := Store(mem, p, h.(size := h.size + HEADER + n.size, next := n.next));
      if n.next != 0 {
        mem := Store(mem, n.next, Load(mem, n.next).(prev := p));
      } else {
        tails := tails[k := p];
      }
    }

    method CoalesceWithNext(k: nat, p: nat, ghost i: nat)
      requires At(k, i, p)
      modifies this`mem, this`tails, this`blocks
      ensures Changed(old(V()), V(), k, JoinAt(old(blocks[k]), i), i)
    {
      hide Sound, Changed, Load, CanJoin, JoinMemory, JoinAt, Joins;
      NextFound(V(), k, i);
      JoinStep(V(), k, i);
      var h := Load(mem, p);
      if h.next != 0 && Load(mem, h.next).freed && p + HEADER + h.size == h.next {
        UnlinkNext(k, p);
        blocks := blocks[k := JoinAt(blocks[k], i)];
      }
    }

    /** Merging free neighbours is invisible to the user. */
    method MergeBlocks(k: nat, p: nat, ghost i: nat)
      requires At(k, i, p) && blocks[k][i].freed
      modifies this`mem, this`tails, this`blocks
      ensures Sound(V()) && Others(old(V()), V(), {})
      ensures blocks == old(blocks)[k := MergeAt(old(blocks[k]), i)]
    {
      ghost var v := V();
      CoalesceWithNext(k, p, i);
      ghost var w := V();
      QuietJoin(v, w, k, i);
      HeaderFound(w, k, i);
      var prev := Load(mem, p).prev;
      PrevFound(w, k, i);
      if prev != 0 && Load(mem, prev).freed {
        CoalesceWithNext(k, prev, i - 1);
        QuietJoin(w, V(), k, i - 1);
        hide *;
        OthersTransitive(v, w, V(), {}, {});
      }
    }

    // ---- Extending the heap ----

    /** The header writes of an append: the new block's header, then the link from the old tail. */
    method LinkBlock(k: nat, block: nat, size: nat)
      requires k < |heads| == |tails| && block + HEADER <= |mem| && tails[k] + HEADER <= |mem|
      requires heads[k] == 0 <==> tails[k] == 0
      modifies this`mem, this`heads, this`tails
      ensures mem == AppendMemory(old(mem), k, old(tails[k]), block, size)
      ensures heads == if old(heads[k]) == 0 then old(heads)[k := block] else old(heads)
      ensures tails == old(tails)[k := block]
    {
      hide Load, Store;
      mem := Store(mem, block, Header(k, false, size, tails[k], 0));
      if heads[k] == 0 {
        heads := heads[k := block];
      } else {
        mem := Store(mem, tails[k], Load(mem, tails[k]).(next := block));
      }
      tails := tails[k := block];
    }

    /** `sbrk`: the region handed out starts at or above every earlier break. */
    method Sbrk(n: nat, sys: Kernel) returns (base: int)
      modifies this`brk
      ensures base == -1 ==> brk == old(brk)
      ensures base != -1 ==> sys.Grant? && base == old(brk) + sys.skip && brk == base + n <= |mem|
      ensures base == -1 <==> sys.Deny? || old(brk) + sys.skip + n > |mem|
    {
      if sys.Deny? || brk + sys.skip + n > |mem| {
        return -1;
      }
      base := brk + sys.skip;
      brk := base + n;
    }

    /** A granted region becomes a block at the end of the arena's list.  `v` is the heap before `sbrk`. */
    method AppendBlock(k: nat, block: nat, size: nat, ghost v: View)
      requires CanGrow(v, k, Block(block, size, false)) && V() == v.(brk := block + (HEADER + size))
      modifies this`mem, this`heads, this`tails, this`blocks, this`owner, this`got
      ensures Sound(V()) && Others(v, V(), {block + HEADER})
      ensures blocks == old(blocks)[k := old(blocks[k]) + [Block(block, size, false)]]
    {
      ghost var b := Block(block, size, false);
      hide Sound, Others, AppendMemory, CanGrow, Grown;
      GrowFound(v, k, b);
      LinkBlock(k, block, size);
      blocks := blocks[k := blocks[k] + [b]];
      owner := Grown(owner, block, HEADER + size, k);
      got := got[k := got[k] + (HEADER + size)];
      GrowStep(v, V(), k, b);
    }

    /** `busy` says that another thread held the lock of `sbrk` when this one tried to take it. */
    method ExtendArenaHeap(k: nat, size: nat, busy: bool, sys: Kernel) returns (block: nat)
      requires Settled(V()) && k < ARENAS && Rounded(size) && Small(size) && Aligned(sys)
      modifies this`mem, this`brk, this`heads, this`tails, this`contention, this`blocks, this`owner, this`got
      ensures contention == (old(contention) || busy)
      ensures block == 0 <==> Refused(sys, old(brk), |old(mem)|, size, contention)
      ensures block == 0 ==> V() == old(V())
      ensures block != 0 ==> Settled(V()) && Allocated(old(V()), V(), block + HEADER, size)
      ensures block != 0 ==> blocks == old(blocks)[k := blocks[k]] && old(brk) <= block
    {
      ghost var v := V();
      if contention || busy {
        contention := true;
      }
      var reserve := if contention then RESERVE else 0;
      var base := Sbrk(HEADER + size + reserve, sys);
      if base == -1 {
        return 0;
      }
      block := base;
      ghost var b := Block(block, size + reserve, false);
      assert CanGrow(v, k, b);
      hide Sound, Others, Changed, Settled, Allocated, CanGrow, SplitAt, Rounded;
      AppendBlock(k, block, size + reserve, v);
      ghost var u := V();
      SplitBlock(k, block, size, |v.blocks[k]|);
      ExtendStep(v, u, V(), k, b, size);
    }

    // ---- One arena ----

    method SetBlockFreed(k: nat, p: nat, freed: bool, ghost i: nat)
      requires At(k, i, p)
      modifies this`mem, this`blocks
      ensures Changed(old(V()), V(), k, SetFreed(old(blocks[k]), i, freed), i)
    {
      ghost var v := V();
      FreedStep(v, k, i, freed);
      hide Sound, Changed, Load, Store, SetFreed, SetArena;
      mem := Store(mem, p, Load(mem, p).(freed := freed));
      blocks := blocks[k := SetFreed(blocks[k], i, freed)];
    }

    /** First fit, else more heap.  A block that fits is always used, and then the heap does not grow. */
    method ArenaMalloc(k: nat, size: nat, busy: bool, sys: Kernel) returns (ptr: nat)
      requires Settled(V()) && k < ARENAS && Rounded(size) && Small(size) && Aligned(sys)
      modifies this`mem, this`brk, this`heads, this`tails, this`contention, this`blocks, this`owner, this`got
      ensures ptr == 0 ==> V() == old(V())
      ensures ptr == 0 <==> !HasFit(old(blocks[k]), size) && Refused(sys, old(brk), |old(mem)|, size, old(contention) || busy)
      ensures ptr != 0 ==> Settled(V()) && Allocated(old(V()), V(), ptr, size) && blocks == old(blocks)[k := blocks[k]]
      ensures HasFit(old(blocks[k]), size) ==> ptr != 0 && brk == old(brk) && owner == old(owner)
      ensures ptr != 0 && !HasFit(old(blocks[k]), size) ==> old(brk) + HEADER <= ptr
    {
      ghost var v := V();
      var block, i := FirstHit(k, size);
      if block != 0 {
        HitIsFit(v, k, i, size);
        hide Sound, Changed, Settled, Allocated, SplitAt, SetFreed, Rounded, HasFit, Holds;
        SplitBlock(k, block, size, i);
        ghost var u := V();
        SetBlockFreed(k, block, false, i);
        TakeStep(v, u, V(), k, i, size);
      } else {
        hide Sound, Settled, Allocated, Rounded, HasFit;
        block := ExtendArenaHeap(k, size, busy, sys);
      }
      ptr := if block != 0 then block + HEADER else 0;
    }

    method ArenaFree(k: nat, p: nat, ghost i: nat)
      requires Settled(V()) && At(k, i, p) && !blocks[k][i].freed
      modifies this`mem, this`tails, this`blocks
      ensures Settled(V()) && Released(old(V()), V(), p + HEADER)
      ensures blocks == old(blocks)[k := FreeAt(old(blocks[k]), i)]
    {
      ghost var v := V();
      SetBlockFreed(k, p, true, i);
      ghost var u := V();
      MergeBlocks(k, p, i);
      hide *;
      FreeStep(v, u, V(), k, i);
    }

    method CopyBytes(dst: nat, src: nat, n: nat)
      requires dst + n <= |mem| && src + n <= |mem| && (dst + n <= src || src + n <= dst)
      modifies this`mem
      ensures mem == Put(old(mem), dst, old(mem)[src..src + n])
    {
      ghost var m := mem;
      for j := 0 to n
        invariant |mem| == |m|
        invariant forall x :: 0 <= x < |m| ==> mem[x] == CopyAt(m, dst, src, j, x)
      {
        assert mem[src + j] == m[src + j];
        mem := mem[dst + j := mem[src + j]];
      }
      assert mem == Put(m, dst, m[src..src + n]);
    }

    method ZeroBytes(dst: nat, n: nat)
      requires dst + n <= |mem|
      modifies this`mem
      ensures |mem| == |old(mem)|
      ensures forall x :: 0 <= x < |mem| ==> mem[x] == if dst <= x < dst + n then 0 else old(mem)[x]
    {
      for j := 0 to n
        invariant |mem| == |old(mem)|
        invariant forall x :: 0 <= x < |mem| ==> mem[x] == if dst <= x < dst + j then 0 else old(mem)[x]
      {
        mem := mem[dst + j := 0];
      }
    }

    /** Copy the payload of block `p` to the fresh allocation at `q`, then free the block. */
    method MoveBlock(k: nat, p: nat, q: nat, copySize: nat, ghost v: View, ghost u: View, ghost size: nat, ghost i: nat)
      requires Settled(V()) && Sound(u) && k < ARENAS && i < |u.blocks[k]| && u.blocks[k][i].addr == p
      requires V().blocks == u.blocks[k := V().blocks[k]]
      requires Preserved(v, u, p + HEADER, copySize) && LiveAt(u, p + HEADER, u.blocks[k][i].size)
      requires copySize <= u.blocks[k][i].size < size && Allocated(u, V(), q, size)
      modifies this`mem, this`tails, this`blocks
      ensures Settled(V()) && Resized(v, V(), p + HEADER, copySize, size, q) && q != p + HEADER
    {
      SoundParts(u);
      hide Sound, Settled, LiveAt, Preserved, Allocated, Resized, Released, Others, Put;
      ghost var w, oldPtr, c := V(), p + HEADER, u.blocks[k][i].size;
      ghost var n := BeforeCopy(u, w, oldPtr, copySize, c, size, q);
      CopyStep(w, oldPtr, copySize, c, q, n);
      CopyBytes(q, p + HEADER, copySize);
      ghost var x := V();
      SettledParts(x, k);
      ghost var j := SameArena(u, x, k, i, oldPtr, c);
      ArenaFree(k, p, j);
      MoveStep(v, u, w, x, V(), oldPtr, copySize, c, size, q, n);
    }

    /** Grow into the next free block if that is enough; otherwise allocate, copy and free.  If there is no
        memory the allocation stays, though it may have grown. */
    method ArenaRealloc(k: nat, p: nat, size: nat, busy: bool, sys: Kernel, ghost i: nat) returns (q: nat)
      requires Settled(V()) && At(k, i, p) && !blocks[k][i].freed && Rounded(size) && Small(size) && Aligned(sys)
      modifies this`mem, this`brk, this`heads, this`tails, this`contention, this`blocks, this`owner, this`got
      ensures Settled(V())
      ensures q == p + HEADER <==> size <= JoinAt(old(blocks[k]), i)[i].size
      ensures q != 0 ==> Resized(old(V()), V(), p + HEADER, old(blocks[k][i].size), size, q)
      ensures q == 0 ==> Preserved(old(V()), V(), p + HEADER, old(blocks[k][i].size))
      ensures q == 0 ==> !HasFit(blocks[k], size) && Refused(sys, old(brk), |old(mem)|, size, old(contention) || busy)
    {
      ghost var v := V();
      HeaderFound(v, k, i);
      var oldPtr, copySize := p + HEADER, Load(mem, p).size;
      CoalesceWithNext(k, p, i);
      ghost var u := V();
      GrownStep(v, u, k, i);
      HeaderFound(u, k, i);
      hide Sound, Settled, Changed, Load, Resized, Preserved, Allocated, JoinAt, SplitAt, Rounded, LiveAt, HasFit;
      if size <= Load(mem, p).size {
        SplitBlock(k, p, size, i);
        CutStep(v, u, V(), k, i, size);
        return oldPtr;
      }
      q := ArenaMalloc(k, size, busy, sys);
      if q != 0 {
        MoveBlock(k, p, q, copySize, v, u, size, i);
      }
    }

    // ---- The public calls ----

    ghost predicate IsLive(p: nat)
      reads this
    {
      exists s: nat :: LiveAt(V(), p, s)
    }

    /** A heap with nothing allocated, on a memory whose contents are arbitrary. */
    constructor (m: Mem, b: nat)
      requires 0 < b <= |m| <= WORD && b % 8 == 0
      ensures Valid() && mem == m && brk == b && !contention && threadArena == map[]
      ensures forall p: nat :: !IsLive(p)
    {
      mem, brk, contention, nextArena, threadArena := m, b, false, 0, map[];
      heads, tails := [0, 0, 0, 0, 0], [0, 0, 0, 0, 0];
      blocks, owner, got := [[], [], [], [], []], map[], [0, 0, 0, 0, 0];
      new;
      EmptySettled(V());
    }

    /** A thread is given an arena round robin when it first asks, and keeps it. */
    method GetThreadArena(t: nat) returns (k: nat)
      requires Valid()
      modifies this`threadArena, this`nextArena
      ensures Valid() && V() == old(V()) && k < ARENAS
      ensures threadArena == old(threadArena)[t := k]
      ensures if t in old(threadArena) then k == old(threadArena[t]) && nextArena == old(nextArena)
              else k == old(nextArena) % ARENAS && nextArena == old(nextArena) + 1
    {
      if t !in threadArena {
        threadArena := threadArena[t := nextArena % ARENAS];
        nextArena := nextArena + 1;
      }
      k := threadArena[t];
    }

    method Malloc(t: nat, n: nat, busy: bool, sys: Kernel) returns (ptr: nat)
      requires Valid() && n < WORD && Small(Align8(n)) && Aligned(sys)
      modifies this
      ensures Valid()
      ensures ptr == 0 && Align8(n) != 0 ==>
        && t in threadArena && !HasFit(blocks[threadArena[t]], Align8(n))
        && Refused(sys, old(brk), |old(mem)|, Align8(n), old(contention) || busy)
      ensures ptr == 0 ==> V() == old(V())
      ensures ptr != 0 ==> Align8(n) != 0 && Allocated(old(V()), V(), ptr, Align8(n))
    {
      var size := Align8(n);
      AlignUp(n);
      if size == 0 {
        return 0;
      }
      var k := GetThreadArena(t);
      hide Settled, Allocated, Rounded, Small, HasFit;
      ptr := ArenaMalloc(k, size, busy, sys);
    }

    method Calloc(t: nat, nitems: nat, nsize: nat, busy: bool, sys: Kernel) returns (ptr: nat)
      requires Valid() && nitems < WORD && nsize < WORD && Aligned(sys)
      requires nitems * nsize < WORD ==> Small(Align8(nitems * nsize))
      modifies this
      ensures Valid()
      ensures ptr == 0 ==> V() == old(V())
      ensures ptr == 0 && nitems * nsize < WORD && Align8(nitems * nsize) != 0 ==>
        Refused(sys, old(brk), |old(mem)|, Align8(nitems * nsize), old(contention) || busy)
      ensures ptr != 0 ==> nitems * nsize < WORD && Allocated(old(V()), V(), ptr, Align8(nitems * nsize))
      ensures ptr != 0 ==> ptr + nitems * nsize <= |mem| && forall x :: ptr <= x < ptr + nitems * nsize ==> mem[x] == 0
    {
      OverflowTest(nitems, nsize);
      if nitems != 0 && nsize > (WORD - 1) / nitems {
        return 0;
      }
      var size := nitems * nsize;
      ghost var v := V();
      ptr := Malloc(t, size, busy, sys);
      if ptr != 0 {
        ghost var w := V();
        hide Settled, Allocated, Rounded, Small, Others;
        AlignUp(size);
        ghost var s := FreshRoom(v, w, ptr, Align8(size), size);
        ZeroBytes(ptr, size);
        WriteFresh(v, w, V(), ptr, Align8(size), s);
      }
    }

    method Free(ptr: nat)
      requires Valid() && (ptr == 0 || IsLive(ptr))
      modifies this`mem, this`tails, this`blocks
      ensures Valid()
      ensures ptr == 0 ==> V() == old(V())
      ensures ptr != 0 ==> Released(old(V()), V(), ptr)
      ensures forall s: nat :: ptr != 0 && old(LiveAt(V(), ptr, s)) ==> Reusable(V(), s)
    {
      if ptr == 0 {
        return;
      }
      ghost var s: nat :| LiveAt(V(), ptr, s);
      ghost var k, i := ArenaField(V(), ptr, s);
      forall s': nat | LiveAt(V(), ptr, s') ensures s' == s { LiveDisjoint(V(), ptr, s, ptr, s'); }
      FreeFits(blocks[k], i);
      hide Settled, Released, LiveAt, Load, HasFit, FreeAt;
      var block := ptr - HEADER;
      ArenaFree(Load(mem, block).arena, block, i);
      assert HasFit(V().blocks[k], s);
    }

    method Realloc(t: nat, ptr: nat, n: nat, busy: bool, sys: Kernel) returns (q: nat)
      requires Valid() && n < WORD && Small(Align8(n)) && Aligned(sys) && (ptr == 0 || IsLive(ptr))
      modifies this
      ensures Valid()
      ensures q == 0 && Align8(n) != 0 ==> Refused(sys, old(brk), |old(mem)|, Align8(n), old(contention) || busy)
      ensures Align8(n) == 0 ==> q == 0 && if ptr == 0 then V() == old(V()) else Released(old(V()), V(), ptr)
      ensures Align8(n) != 0 && ptr == 0 ==> if q == 0 then V() == old(V()) else Allocated(old(V()), V(), q, Align8(n))
      ensures Align8(n) != 0 && ptr != 0 ==>
        forall s: nat :: old(LiveAt(V(), ptr, s)) ==>
          if q == 0 then Preserved(old(V()), V(), ptr, s) else Resized(old(V()), V(), ptr, s, Align8(n), q)
    {
      var size := Align8(n);
      AlignUp(n);
      if size == 0 {
        Free(ptr);
        return 0;
      }
      if ptr == 0 {
        AlignTwice(n);
        q := Malloc(t, size, busy, sys);
        return;
      }
      ghost var v := V();
      ghost var s: nat :| LiveAt(v, ptr, s);
      ghost var k, i := ArenaField(v, ptr, s);
      forall s': nat | LiveAt(v, ptr, s') ensures s' == s { LiveDisjoint(v, ptr, s, ptr, s'); }
      hide Settled, Resized, Preserved, LiveAt, Load, Rounded, Small;
      var block := ptr - HEADER;
      q := ArenaRealloc(Load(mem, block).arena, block, size, busy, sys, i);
    }

    /** The user writes a byte of a live allocation. */
    method Write(ptr: nat, i: nat, b: Byte, ghost s: nat)
      requires Valid() && LiveAt(V(), ptr, s) && i < s
      modifies this`mem
      ensures Valid() && Others(old(V()), V(), {ptr})
      ensures ptr + i < |old(mem)| && mem == old(mem)[ptr + i := b]
    {
      LiveDisjoint(V(), ptr, s, ptr, s);
      SettledParts(V(), 0);
      SoundParts(V());
      hide Settled, Others, LiveAt;
      PayloadWrite(V(), mem[ptr + i := b], ptr, s);
      mem := mem[ptr + i := b];
    }
  }
}
