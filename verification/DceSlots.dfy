/**
The accesses of one block to one slot: what they are when the block is executed, which stores the walk
drops, and exactly when a block that runs any number of times still reads the same values.
*/
module DceSlots {
  import opened Ir
  import opened DceRewrites
  import opened DceSimulation
  import opened DceBlocks
  import opened DcePreserve
  import opened DceStores

  datatype Access<V> = Ld | St(v: V)

  /** The direct accesses of a body to the slot, in order. */
  function AccessesOf(body: seq<Instr>, x: Reg): seq<Access<Operand>> {
    if body == [] then []
    else (if !Direct(body[0], x) then [] else if body[0].Load? then [Ld] else [St(body[0].val)]) + AccessesOf(body[1..], x)
  }

  function Sweep<V>(acc: seq<Access<V>>): seq<Access<V>> {
    if acc == [] then []
    else if acc[0].St? && !(|acc| > 1 && acc[1].Ld?) then Sweep(acc[1..])
    else [acc[0]] + Sweep(acc[1..])
  }

  /** The values the loads read, when the slot holds `c` at the start. */
  function Reads<V>(acc: seq<Access<V>>, c: V): seq<V> {
    if acc == [] then []
    else if acc[0].Ld? then [c] + Reads(acc[1..], c)
    else Reads(acc[1..], acc[0].v)
  }

  /** What the slot holds at the end. */
  function Leaves<V>(acc: seq<Access<V>>, c: V): V {
    if acc == [] then c else Leaves(acc[1..], if acc[0].Ld? then c else acc[0].v)
  }

  /** The values read in one round after another, each with stored values of its own. */
  function RoundsRead<V>(rounds: seq<seq<Access<V>>>, c: V): seq<V> {
    if rounds == [] then [] else Reads(rounds[0], c) + RoundsRead(rounds[1..], Leaves(rounds[0], c))
  }

  function SweepAll<V>(rounds: seq<seq<Access<V>>>): seq<seq<Access<V>>> {
    if rounds == [] then [] else [Sweep(rounds[0])] + SweepAll(rounds[1..])
  }

  ghost predicate SameShape<V, U>(a: seq<Access<V>>, b: seq<Access<U>>) {
    |a| == |b| && forall k :: 0 <= k < |a| ==> (a[k].Ld? <==> b[k].Ld?)
  }

  lemma {:induction false} LoadNextIsFirst(body: seq<Instr>, x: Reg)
    ensures LoadNext(body, x) <==> AccessesOf(body, x) != [] && AccessesOf(body, x)[0].Ld?
  {
    if body != [] && !Direct(body[0], x) {
      LoadNextIsFirst(body[1..], x);
      assert AccessesOf(body, x) == AccessesOf(body[1..], x);
    }
  }

  /** What the walk keeps of a body is what `Sweep` keeps of its accesses. */
  lemma {:induction false} LiveIsSweep(body: seq<Instr>, x: Reg)
    ensures AccessesOf(Live(body, x), x) == Sweep(AccessesOf(body, x))
  {
    if body != [] {
      LiveIsSweep(body[1..], x);
      LoadNextIsFirst(body[1..], x);
      var rest := AccessesOf(body[1..], x);
      if Direct(body[0], x) {
        var a := if body[0].Load? then Ld else St(body[0].val);
        assert AccessesOf(body, x) == [a] + rest;
        assert ([a] + rest)[1..] == rest;
        assert ([body[0]] + Live(body[1..], x))[1..] == Live(body[1..], x);
      } else {
        assert AccessesOf(body, x) == rest;
        assert ([body[0]] + Live(body[1..], x))[1..] == Live(body[1..], x);
        assert AccessesOf([body[0]] + Live(body[1..], x), x) == AccessesOf(Live(body[1..], x), x);
      }
    }
  }

  /** In a single run every load reads what it read before. */
  lemma {:induction false} SweepReads<V>(acc: seq<Access<V>>, c: V)
    ensures Reads(Sweep(acc), c) == Reads(acc, c)
  {
    if acc != [] {
      if acc[0].St? && !(|acc| > 1 && acc[1].Ld?) {
        SweepReads(acc[1..], c);
      } else {
        var s := Sweep(acc[1..]);
        assert ([acc[0]] + s)[1..] == s;
        SweepReads(acc[1..], if acc[0].Ld? then c else acc[0].v);
      }
    }
  }

  lemma {:induction false} SweepLeaves<V>(acc: seq<Access<V>>, c: V)
    requires acc != [] && acc[|acc| - 1].Ld?
    ensures Leaves(Sweep(acc), c) == Leaves(acc, c)
  {
    if |acc| > 1 {
      if acc[0].St? && !acc[1].Ld? {
        SweepLeaves(acc[1..], c);
      } else {
        var s := Sweep(acc[1..]);
        assert ([acc[0]] + s)[1..] == s;
        SweepLeaves(acc[1..], if acc[0].Ld? then c else acc[0].v);
      }
    } else {
      assert Sweep(acc) == [Ld];
    }
  }

  ghost predicate AllShaped<V, U>(acc: seq<Access<V>>, rounds: seq<seq<Access<U>>>) {
    forall i :: 0 <= i < |rounds| ==> SameShape(acc, rounds[i])
  }

  lemma {:induction false} RoundsFromStore<V, U>(acc: seq<Access<V>>, rounds: seq<seq<Access<U>>>, c: U, c': U)
    requires (acc == [] || acc[0].St?) && AllShaped(acc, rounds)
    ensures RoundsRead(SweepAll(rounds), c) == RoundsRead(rounds, c')
  {
    if rounds != [] {
      var a, rest := rounds[0], rounds[1..];
      assert SameShape(acc, a);
      forall i | 0 <= i < |rest| ensures SameShape(acc, rest[i]) { assert rest[i] == rounds[i + 1]; }
      SweepReads(a, c);
      assert Reads(a, c) == Reads(a, c');
      assert ([Sweep(a)] + SweepAll(rest))[1..] == SweepAll(rest);
      RoundsFromStore(acc, rest, Leaves(Sweep(a), c), Leaves(a, c'));
    }
  }

  lemma {:induction false} RoundsToLoad<V, U>(acc: seq<Access<V>>, rounds: seq<seq<Access<U>>>, c: U)
    requires acc != [] && acc[|acc| - 1].Ld? && AllShaped(acc, rounds)
    ensures RoundsRead(SweepAll(rounds), c) == RoundsRead(rounds, c)
  {
    if rounds != [] {
      var a, rest := rounds[0], rounds[1..];
      assert SameShape(acc, a);
      forall i | 0 <= i < |rest| ensures SameShape(acc, rest[i]) { assert rest[i] == rounds[i + 1]; }
      SweepReads(a, c);
      SweepLeaves(a, c);
      assert ([Sweep(a)] + SweepAll(rest))[1..] == SweepAll(rest);
      RoundsToLoad(acc, rest, Leaves(a, c));
    }
  }

  lemma {:induction false} SweepLast<V>(acc: seq<Access<V>>, v: V)
    ensures Sweep(acc + [St(v)]) == Sweep(acc)
  {
    if acc != [] {
      SweepLast(acc[1..], v);
      assert (acc + [St(v)])[1..] == acc[1..] + [St(v)];
    } else {
      assert (acc + [St(v)])[1..] == [];
    }
  }

  lemma {:induction false} LeavesConstant<V>(acc: seq<Access<V>>, c: V)
    requires forall k :: 0 <= k < |acc| && acc[k].St? ==> acc[k].v == c
    ensures Leaves(Sweep(acc), c) == c
  {
    if acc != [] {
      LeavesConstant(acc[1..], c);
      var s := Sweep(acc[1..]);
      assert ([acc[0]] + s)[1..] == s;
    }
  }

  lemma {:induction false} LeavesLast<V>(acc: seq<Access<V>>, c: V, v: V)
    ensures Leaves(acc + [St(v)], c) == v
  {
    if acc != [] {
      assert (acc + [St(v)])[1..] == acc[1..] + [St(v)];
      LeavesLast(acc[1..], if acc[0].Ld? then c else acc[0].v, v);
    }
  }

  /** The accesses of the given shape that store 0, except that the last one stores 1. */
  function Telling<V>(acc: seq<Access<V>>): seq<Access<int>>
    requires acc != []
  {
    seq(|acc| - 1, k requires 0 <= k < |acc| - 1 => if acc[k].Ld? then Ld else St(0)) + [St(1)]
  }

  lemma TellingRounds<V>(acc: seq<Access<V>>)
    requires acc != [] && acc[0].Ld? && acc[|acc| - 1].St?
    ensures var t := Telling(acc);
      SameShape(acc, t) && RoundsRead(SweepAll([t, t]), 0) != RoundsRead([t, t], 0)
  {
    var t := Telling(acc);
    var a := t[..|t| - 1];
    assert t == a + [St(1)];
    SweepLast(a, 1);
    LeavesConstant(a, 0);
    LeavesLast(a, 0, 1);
    SweepReads(t, 0);
    SweepReads(t, 1);
    assert Leaves(Sweep(t), 0) == 0 && Leaves(t, 0) == 1;
    var first := Reads(t, 0);
    TwoRounds(t, 0);
    TwoRounds(Sweep(t), 0);
    assert SweepAll([t, t]) == [Sweep(t), Sweep(t)] by {
      assert [t, t][1..] == [t] && [t][1..] == [];
      assert SweepAll([t]) == [Sweep(t)];
    }
    assert Reads(t, 1)[0] == 1 && Reads(t, 0)[0] == 0;
    assert RoundsRead([t, t], 0)[|first|] == 1 && RoundsRead(SweepAll([t, t]), 0)[|first|] == 0;
  }

  lemma TwoRounds<V>(a: seq<Access<V>>, c: V)
    ensures RoundsRead([a, a], c) == Reads(a, c) + Reads(a, Leaves(a, c))
  {
    assert [a, a][1..] == [a] && [a][1..] == [];
    assert RoundsRead([a], Leaves(a, c)) == Reads(a, Leaves(a, c)) + RoundsRead([], Leaves(a, Leaves(a, c)));
  }

  /** A block may be swept, whatever it stores in each round and however many rounds there are, exactly if
      it does not start by loading the slot and end by storing to it. */
  lemma SweepRoundsExactly<V>(acc: seq<Access<V>>)
    ensures (forall rounds: seq<seq<Access<int>>>, c :: AllShaped(acc, rounds) ==> RoundsRead(SweepAll(rounds), c) == RoundsRead(rounds, c))
            <==> !(acc != [] && acc[0].Ld? && acc[|acc| - 1].St?)
  {
    if acc != [] && acc[0].Ld? && acc[|acc| - 1].St? {
      TellingRounds(acc);
      assert AllShaped(acc, [Telling(acc), Telling(acc)]);
    } else {
      forall rounds: seq<seq<Access<int>>>, c | AllShaped(acc, rounds) ensures RoundsRead(SweepAll(rounds), c) == RoundsRead(rounds, c) {
        if acc != [] && acc[|acc| - 1].Ld? { RoundsToLoad(acc, rounds, c); } else { RoundsFromStore(acc, rounds, c, c); }
      }
    }
  }

  // ---- The accesses of a block that is executed ----

  /** What the direct loads of a body put into their registers. */
  function Loaded(w: World, body: seq<Instr>, x: Reg, s: State): seq<Value> {
    if body == [] then []
    else
      (if Direct(body[0], x) && body[0].Load? then [Get(Exec(w, body[0], s).regs, body[0].dst)] else [])
      + Loaded(w, body[1..], x, Exec(w, body[0], s))
  }

  /** The accesses as they are carried out, with the values that the stores write. */
  function Performed(w: World, body: seq<Instr>, x: Reg, s: State): seq<Access<Value>> {
    if body == [] then []
    else
      (if !Direct(body[0], x) then [] else if body[0].Load? then [Ld] else [St(Eval(body[0].val, s.regs))])
      + Performed(w, body[1..], x, Exec(w, body[0], s))
  }

  /** The slot is allocated, and its address is nowhere but in its register. */
  ghost predicate SlotHeld(s: State, x: Reg) {
    Get(s.regs, x) == Ptr(Stack(x)) && Clean(s, x)
  }

  /** The instruction uses the slot at most as the address of an access, and does not allocate it again. */
  ghost predicate AfterAlloca(body: seq<Instr>, x: Reg) {
    SlotBody(body, x) && forall k :: 0 <= k < |body| ==> body[k] != Alloca(x)
  }

  lemma HeldTracked(s: State, x: Reg)
    requires SlotHeld(s, x)
    ensures Tracked(s, s, x) && SameCell(s, s, x)
  {
  }

  /** What one instruction does to the slot. */
  lemma ExecSlot(w: World, i: Instr, s: State, x: Reg)
    requires Honest(w) && SlotHeld(s, x) && SlotInstr(i, x) && i != Alloca(x)
    ensures var t := Exec(w, i, s);
      && SlotHeld(t, x)
      && (Direct(i, x) && i.Load? ==> Get(t.regs, i.dst) == Read(s.mem, Stack(x)))
      && Read(t.mem, Stack(x)) == if Direct(i, x) && i.Store? then Eval(i.val, s.regs) else Read(s.mem, Stack(x))
  {
    HeldTracked(s, x);
    ExecTracked(w, i, s, s, x);
    StillClean(Exec(w, i, s), x);
    hide Honest, Tracked, Clean;
    if InstrUses(i, x) == 0 {
      NotDirect(i, x);
      ExecElsewhere(w, i, s, x);
    } else {
      assert Direct(i, x);
    }
  }

  lemma NotDirect(i: Instr, x: Reg)
    requires InstrUses(i, x) == 0
    ensures !Direct(i, x)
  {
  }

  lemma StillClean(s: State, x: Reg)
    requires Tracked(s, s, x)
    ensures Clean(s, x)
  {
  }

  lemma ExecElsewhere(w: World, i: Instr, s: State, x: Reg)
    requires Honest(w) && SlotHeld(s, x) && PlainInstr(i) && InstrUses(i, x) == 0 && !Defines(i, x)
    ensures Read(Exec(w, i, s).mem, Stack(x)) == Read(s.mem, Stack(x)) && Get(Exec(w, i, s).regs, x) == Get(s.regs, x)
  {
    HeldTracked(s, x);
    assert Near(s, s, x);
    if i.Store? {
      NoUses([i.addr], x);
      EvalNear(i.addr, s, s, x);
    }
    if i.Call? {
      EvalAllNear(i.args, s, s, x);
      var trace := s.trace + [Event(i.callee, EvalAll(i.args, s.regs))];
      assert CleanTrace(trace, x);
      assert Hidden(w.extern(trace, s.mem), w.extern(trace, s.mem), s.mem, s.mem, x);
    }
  }

  lemma BodyRest(body: seq<Instr>, x: Reg)
    requires body != []
    ensures AfterAlloca(body, x) ==> AfterAlloca(body[1..], x) && SlotInstr(body[0], x) && body[0] != Alloca(x)
  {
    hide SlotInstr;
  }

  /** When a block is executed, its direct loads put into their registers what the list of its accesses
      reads, and the slot holds afterwards what the list leaves. */
  lemma {:induction false} LoadedIsReads(w: World, body: seq<Instr>, x: Reg, s: State)
    requires Honest(w) && SlotHeld(s, x) && AfterAlloca(body, x)
    ensures Loaded(w, body, x, s) == Reads(Performed(w, body, x, s), Read(s.mem, Stack(x)))
    ensures Read(ExecAll(w, body, s).mem, Stack(x)) == Leaves(Performed(w, body, x, s), Read(s.mem, Stack(x)))
    ensures SlotHeld(ExecAll(w, body, s), x)
  {
    hide Honest, SlotHeld, AfterAlloca, Exec, SlotInstr, Direct;
    if body != [] {
      BodyRest(body, x);
      ExecSlot(w, body[0], s, x);
      var t := Exec(w, body[0], s);
      LoadedIsReads(w, body[1..], x, t);
      var rest := Performed(w, body[1..], x, t);
      if Direct(body[0], x) {
        assert IsAccess(body[0]) by { DirectIsAccess(body[0], x); }
        var a := if body[0].Load? then Ld else St(Eval(body[0].val, s.regs));
        assert ([a] + rest)[1..] == rest && ([a] + rest)[0] == a;
      } else {
        assert [] + rest == rest;
      }
    }
  }

  predicate IsAccess(i: Instr) { i.Load? || i.Store? }

  lemma DirectIsAccess(i: Instr, x: Reg)
    requires Direct(i, x)
    ensures IsAccess(i)
  {
  }

  /** Executing a body performs the accesses it holds. */
  lemma {:induction false} PerformedShape(w: World, body: seq<Instr>, x: Reg, s: State)
    ensures SameShape(AccessesOf(body, x), Performed(w, body, x, s))
  {
    hide Exec;
    if body != [] { PerformedShape(w, body[1..], x, Exec(w, body[0], s)); }
  }

  lemma NextLoad(w: World, body: seq<Instr>, x: Reg, s: State)
    ensures LoadNext(body, x) <==> Performed(w, body, x, s) != [] && Performed(w, body, x, s)[0].Ld?
  {
    PerformedShape(w, body, x, s);
    LoadNextIsFirst(body, x);
  }

  /** The value of an access is the same in both states. */
  lemma SameValue(i: Instr, s1: State, s2: State, x: Reg)
    requires Tracked(s1, s2, x) && SlotInstr(i, x) && Direct(i, x) && i.Store?
    ensures Eval(i.val, s1.regs) == Eval(i.val, s2.regs) && InstrUses(i, x) == 1
  {
    OperandUse(i, x);
    OtherOperand(i, x);
    EvalNear(i.val, s1, s2, x);
  }

  lemma OperandUse(i: Instr, x: Reg)
    requires SlotInstr(i, x) && Direct(i, x)
    ensures InstrUses(i, x) == 1
  {
    DirectCounts(i, x);
  }

  lemma SlotRest(body: seq<Instr>, x: Reg)
    requires body != [] && SlotBody(body, x)
    ensures SlotBody(body[1..], x) && SlotInstr(body[0], x)
  {
    hide SlotInstr;
  }

  /** The swept body performs the swept accesses, with the same values, even from a stale slot. */
  lemma {:induction false} SweptPerformed(w: World, body: seq<Instr>, x: Reg, s1: State, s2: State)
    requires Honest(w) && Tracked(s1, s2, x) && SlotBody(body, x) && (SameCell(s1, s2, x) || !LoadNext(body, x))
    ensures Performed(w, Live(body, x), x, s2) == Sweep(Performed(w, body, x, s1))
  {
    if body != [] {
      SlotRest(body, x);
      var i, rest := body[0], body[1..];
      var t1, t2 := Exec(w, i, s1), Exec(w, i, s2);
      NextLoad(w, rest, x, t1);
      var p := Performed(w, rest, x, t1);
      hide Honest, Tracked, SameCell, SlotBody, SlotInstr, Exec, Performed, LoadNext;
      FirstPerformed(w, body, x, s1);
      if i.Store? && Direct(i, x) {
        SameValue(i, s1, s2, x);
        if !LoadNext(rest, x) {
          SkipStore(w, i, s1, s2, x);
          SweptPerformed(w, rest, x, t1, s2);
          SweepDead(Eval(i.val, s1.regs), p);
          LiveFirst(body, x);
          return;
        }
      }
      LoadCarries(body, x);
      ExecTracked(w, i, s1, s2, x);
      SweptPerformed(w, rest, x, t1, t2);
      LiveFirst(body, x);
      FirstPerformed(w, [i] + Live(rest, x), x, s2);
      assert ([i] + Live(rest, x))[1..] == Live(rest, x);
      var q := Performed(w, Live(rest, x), x, t2);
      if Direct(i, x) {
        SweepKept(if i.Load? then Ld else St(Eval(i.val, s1.regs)), p);
      } else {
        assert [] + p == p && [] + q == q;
      }
    }
  }

  lemma FirstPerformed(w: World, body: seq<Instr>, x: Reg, s: State)
    requires body != []
    ensures var i := body[0];
      Performed(w, body, x, s) ==
        (if !Direct(i, x) then [] else if i.Load? then [Ld] else [St(Eval(i.val, s.regs))]) + Performed(w, body[1..], x, Exec(w, i, s))
  {
    hide Exec;
  }

  lemma SweepDead<V>(v: V, p: seq<Access<V>>)
    requires p == [] || p[0].St?
    ensures Sweep([St(v)] + p) == Sweep(p)
  {
    assert ([St(v)] + p)[1..] == p;
  }

  lemma SweepKept<V>(a: Access<V>, p: seq<Access<V>>)
    requires a.Ld? || (p != [] && p[0].Ld?)
    ensures Sweep([a] + p) == [a] + Sweep(p)
  {
    assert ([a] + p)[1..] == p;
  }

  lemma LiveFirst(body: seq<Instr>, x: Reg)
    requires body != []
    ensures Live(body, x) == if body[0].Store? && Direct(body[0], x) && !LoadNext(body[1..], x) then Live(body[1..], x)
                             else [body[0]] + Live(body[1..], x)
  {
  }

  lemma LoadCarries(body: seq<Instr>, x: Reg)
    requires body != []
    ensures Direct(body[0], x) && body[0].Load? ==> LoadNext(body, x)
    ensures !Direct(body[0], x) ==> LoadNext(body[1..], x) == LoadNext(body, x)
  {
  }

  lemma {:induction false} LiveIncluded(body: seq<Instr>, x: Reg)
    ensures forall k :: 0 <= k < |Live(body, x)| ==> Live(body, x)[k] in body
  {
    if body != [] {
      LiveIncluded(body[1..], x);
      LiveFirst(body, x);
      hide Live;
      forall k | 0 <= k < |Live(body, x)| ensures Live(body, x)[k] in body {
        var rest := Live(body[1..], x);
        if Live(body, x) == rest {
          assert rest[k] in body[1..];
        } else if k > 0 {
          assert Live(body, x)[k] == rest[k - 1];
        }
      }
    }
  }

  lemma LiveAfterAlloca(body: seq<Instr>, x: Reg)
    requires AfterAlloca(body, x)
    ensures AfterAlloca(Live(body, x), x)
  {
    hide SlotInstr;
    LiveIncluded(body, x);
    forall k | 0 <= k < |Live(body, x)| ensures SlotInstr(Live(body, x)[k], x) && Live(body, x)[k] != Alloca(x) {
      var j :| 0 <= j < |body| && body[j] == Live(body, x)[k];
    }
  }

  /** In a single execution of the block, all loads put the same values into registers before and after. */
  lemma SweptLoads(w: World, body: seq<Instr>, x: Reg, s: State)
    requires Honest(w) && SlotHeld(s, x) && AfterAlloca(body, x)
    ensures Loaded(w, Live(body, x), x, s) == Loaded(w, body, x, s)
  {
    HeldTracked(s, x);
    LiveAfterAlloca(body, x);
    LoadedIsReads(w, body, x, s);
    LoadedIsReads(w, Live(body, x), x, s);
    hide Honest, SlotHeld, Tracked, SameCell, Loaded, Performed;
    SweptPerformed(w, body, x, s, s);
    SweepReads(Performed(w, body, x, s), Read(s.mem, Stack(x)));
  }
}
