/**
Why negative answers are not claimed to be linearizable: a run of one bucket in which the map holds
the value 5 at every instant of a lookup of 5, and the lookup answers 1 (not found).

Thread 0 inserts 5 twice, thread 1 removes it once, thread 2 looks it up.  The lookup loads the head
before the second insert publishes, and tests the first node after the remove has claimed it.
*/
module LockFreeExample {
  import opened Options
  import opened LockFreeMap
  import opened LockFreeSteps
  import opened LockFreeRuns

  const GO := Go(false)

  function Unpublished(heap: map<Addr, Node>): Memory {
    Memory([None], heap, map[], [0])
  }

  function OneNode(extra: map<Addr, Node>): Memory {
    Memory([Some(10)], map[10 := Node(5, None, false)] + extra, map[10 := 0], [1])
  }

  function TwoNodes(claimed: bool): Memory {
    Memory([Some(11)], map[10 := Node(5, None, claimed), 11 := Node(5, Some(10), false)], map[10 := 0, 11 := 1], [2])
  }

  /** The states the schedule runs through. */
  function Expected(k: nat): State
    requires k <= 16
  {
    if k == 0 then State(Unpublished(map[]), map[], 0)
    else if k == 1 then State(Unpublished(map[10 := Node(5, None, false)]), map[0 := InsertLoad(10)], 1)
    else if k == 2 then State(Unpublished(map[10 := Node(5, None, false)]), map[0 := InsertLink(10, None)], 2)
    else if k == 3 then State(Unpublished(map[10 := Node(5, None, false)]), map[0 := InsertSwap(10, None)], 3)
    else if k == 4 then State(OneNode(map[]), map[0 := Idle], 4)
    else if k == 5 then State(OneNode(map[]), map[0 := Idle, 1 := RemoveLoad(5)], 5)
    else if k == 6 then State(OneNode(map[]), map[0 := Idle, 1 := RemoveNext(5, Sentinel, 10, 1, 5)], 6)
    else if k == 7 then State(OneNode(map[]), map[0 := Idle, 1 := RemoveNext(5, Sentinel, 10, 1, 5), 2 := LookupLoad(5)], 7)
    else if k == 8 then State(OneNode(map[]), map[0 := Idle, 1 := RemoveNext(5, Sentinel, 10, 1, 5), 2 := LookupTest(5, 10, 1, 7)], 8)
    else if k == 9 then State(OneNode(map[11 := Node(5, None, false)]), map[0 := InsertLoad(11), 1 := RemoveNext(5, Sentinel, 10, 1, 5), 2 := LookupTest(5, 10, 1, 7)], 9)
    else if k == 10 then State(OneNode(map[11 := Node(5, None, false)]), map[0 := InsertLink(11, Some(10)), 1 := RemoveNext(5, Sentinel, 10, 1, 5), 2 := LookupTest(5, 10, 1, 7)], 10)
    else if k == 11 then State(OneNode(map[11 := Node(5, Some(10), false)]), map[0 := InsertSwap(11, Some(10)), 1 := RemoveNext(5, Sentinel, 10, 1, 5), 2 := LookupTest(5, 10, 1, 7)], 11)
    else if k == 12 then State(TwoNodes(false), map[0 := Idle, 1 := RemoveNext(5, Sentinel, 10, 1, 5), 2 := LookupTest(5, 10, 1, 7)], 12)
    else if k == 13 then State(TwoNodes(false), map[0 := Idle, 1 := RemoveMark(5, Sentinel, 10, None, 1, 5), 2 := LookupTest(5, 10, 1, 7)], 13)
    else if k == 14 then State(TwoNodes(true), map[0 := Idle, 1 := RemoveUnlink(5, Sentinel, 10, None, 13), 2 := LookupTest(5, 10, 1, 7)], 14)
    else if k == 15 then State(TwoNodes(true), map[0 := Idle, 1 := RemoveUnlink(5, Sentinel, 10, None, 13), 2 := LookupNext(5, 10, 1, 7)], 15)
    else State(TwoNodes(true), map[0 := Idle, 1 := RemoveUnlink(5, Sentinel, 10, None, 13), 2 := Idle], 16)
  }

  function TickAt(k: nat): Tick
    requires k < 16
  {
    if k == 0 then Tick(0, Call(Insert(5), Some(10)))
    else if k == 1 then Tick(0, GO)
    else if k == 2 then Tick(0, GO)
    else if k == 3 then Tick(0, GO)
    else if k == 4 then Tick(1, Call(Remove(5), None))
    else if k == 5 then Tick(1, GO)
    else if k == 6 then Tick(2, Call(Lookup(5), None))
    else if k == 7 then Tick(2, GO)
    else if k == 8 then Tick(0, Call(Insert(5), Some(11)))
    else if k == 9 then Tick(0, GO)
    else if k == 10 then Tick(0, GO)
    else if k == 11 then Tick(0, GO)
    else if k == 12 then Tick(1, GO)
    else if k == 13 then Tick(1, GO)
    else if k == 14 then Tick(2, GO)
    else Tick(2, GO)
  }

  const SCHEDULE: seq<Tick> := seq(16, k requires 0 <= k < 16 => TickAt(k))

  predicate StepsRight(k: nat)
    requires k < 16
  {
    Addressable(Expected(k).mem, At(Expected(k), TickAt(k).t)) && Step(Expected(k), TickAt(k)).0 == Expected(k + 1)
  }

  lemma Leg0()
    ensures StepsRight(0) && StepsRight(1)
  {
  }

  lemma Leg2()
    ensures StepsRight(2) && StepsRight(3)
  {
  }

  lemma Leg4()
    ensures StepsRight(4) && StepsRight(5)
  {
  }

  lemma Leg6()
    ensures StepsRight(6) && StepsRight(7)
  {
  }

  lemma Leg8()
    ensures StepsRight(8)
  {
  }

  lemma Leg9()
    ensures StepsRight(9)
  {
  }

  lemma Leg10()
    ensures StepsRight(10)
  {
  }

  lemma Leg11()
    ensures StepsRight(11)
  {
  }

  lemma Leg12()
    ensures StepsRight(12)
  {
  }

  lemma Leg13()
    ensures StepsRight(13)
  {
  }

  lemma Leg14()
    ensures StepsRight(14)
  {
  }

  lemma Leg15()
    ensures StepsRight(15)
  {
  }

  lemma AllStepsRight(k: nat)
    requires k < 16
    ensures StepsRight(k)
  {
    hide StepsRight;
    Leg0();
    Leg2();
    Leg4();
    Leg6();
    Leg8();
    Leg9();
    Leg10();
    Leg11();
    Leg12();
    Leg13();
    Leg14();
    Leg15();
  }

  lemma {:induction false} Replay(k: nat)
    requires k <= 16
    ensures StateAt(1, SCHEDULE, k) == Expected(k)
  {
    hide Inv, Step, Addressable;
    if k == 0 {
      assert StateAt(1, SCHEDULE, 0) == Init(1);
    } else {
      Replay(k - 1);
      AllStepsRight(k - 1);
      Unfold(1, SCHEDULE, k - 1);
    }
  }

  lemma AlwaysThere(k: nat)
    requires 6 <= k <= 16
    ensures Live(Expected(k).mem, 5) != {}
  {
    assert (if k < 12 then 10 else 11) in Live(Expected(k).mem, 5);
  }

  /** The lookup returns 1, and at every instant from its call to its return the value is in the map. */
  lemma NotLinearizable()
    ensures EventAt(1, SCHEDULE, 15) == Return(Lookup(5), 1)
    ensures SameCall(1, SCHEDULE, 2, 7, 15)
    ensures forall k :: 6 <= k <= 16 ==> Live(StateAt(1, SCHEDULE, k).mem, 5) != {}
  {
    hide Inv, Live, StateAt;
    assert EventAt(1, SCHEDULE, 15) == Return(Lookup(5), 1) by { Replay(15); }
    forall k | 7 <= k <= 15 ensures !At(StateAt(1, SCHEDULE, k), 2).Idle? { Replay(k); }
    forall k | 6 <= k <= 16 ensures Live(StateAt(1, SCHEDULE, k).mem, 5) != {} {
      Replay(k);
      AlwaysThere(k);
    }
  }
}
