/** What the process refinement gives over whole runs of interrupts and system calls. */
module Runs {
  import opened Bytes
  import opened Process
  import opened Refinement

  // ---------------------------------------------------------------- runs

  predicate Defined(s: State, loads: Loader, trace: seq<Event>)
    decreases |trace|
  {
    trace == [] || (CanStep(s, trace[0]) && Defined(Step(s, loads, trace[0]), loads, trace[1..]))
  }

  function Run(s: State, loads: Loader, trace: seq<Event>): (r: State)
    requires Defined(s, loads, trace)
    ensures Shape(s) ==> Shape(r)
    decreases |trace|
  {
    if trace == [] then s else Run(Step(s, loads, trace[0]), loads, trace[1..])
  }

  predicate AllowedRun(a: Terminals, loads: Loader, trace: seq<Event>)
    decreases |trace|
  {
    && AShape(a)
    && (trace == [] || (Allowed(a, loads, trace[0]) && AllowedRun(AStep(a, loads, trace[0]), loads, trace[1..])))
  }

  function ARun(a: Terminals, loads: Loader, trace: seq<Event>): (r: Terminals)
    requires AllowedRun(a, loads, trace)
    ensures AShape(r) && a.total <= r.total
    decreases |trace|
  {
    if trace == [] then a else ARun(AStep(a, loads, trace[0]), loads, trace[1..])
  }

  function Ticks(trace: seq<Event>): nat {
    if trace == [] then 0 else (if trace[0].Tick? then 1 else 0) + Ticks(trace[1..])
  }

  const EMPTY := Terminals([[], [], []], 1, 1, 0, 0)

  /** The globals as the image loads them: zero tables, zero argument bytes, terminal 1 shown. */
  predicate Initial(s: State) {
    && Shape(s)
    && s.processCount == 0 && s.perTerminal == [0, 0, 0] && s.highest == [0, 0, 0]
    && s.slots == [0, 0, 0, 0, 0, 0]
    && (forall i :: 0 <= i < MAX_PROCESSES ==> s.pcbs[i].args == Fill(MAX_ARGS, NUL))
    && s.currTerminal == s.currScheduled == 1 && s.totalTerminal == 0 && s.switchFlag == 0
  }

  lemma InitialInv(s: State)
    requires Initial(s)
    ensures Inv(s, EMPTY)
  {
  }

  /** Main refinement: over every allowed run no step is undefined and the tables hold the three stacks. */
  lemma {:induction false} RunRefines(s: State, a: Terminals, loads: Loader, trace: seq<Event>)
    requires Inv(s, a) && AllowedRun(a, loads, trace)
    ensures Defined(s, loads, trace)
    ensures Inv(Run(s, loads, trace), ARun(a, loads, trace))
    decreases |trace|
  {
    hide Inv;
    if trace != [] {
      StepRefines(s, a, loads, trace[0]);
      RunRefines(Step(s, loads, trace[0]), AStep(a, loads, trace[0]), loads, trace[1..]);
    }
  }

  lemma {:induction false} RunSplit(s: State, loads: Loader, first: seq<Event>, second: seq<Event>)
    requires Defined(s, loads, first + second)
    ensures Defined(s, loads, first) && Defined(Run(s, loads, first), loads, second)
    ensures Run(s, loads, first + second) == Run(Run(s, loads, first), loads, second)
    decreases |first|
  {
    if first == [] {
      assert first + second == second;
    } else {
      assert (first + second)[0] == first[0] && (first + second)[1..] == first[1..] + second;
      RunSplit(Step(s, loads, first[0]), loads, first[1..], second);
    }
  }

  lemma {:induction false} ARunSplit(a: Terminals, loads: Loader, first: seq<Event>, second: seq<Event>)
    requires AllowedRun(a, loads, first + second)
    ensures AllowedRun(a, loads, first) && AllowedRun(ARun(a, loads, first), loads, second)
    ensures ARun(a, loads, first + second) == ARun(ARun(a, loads, first), loads, second)
    decreases |first|
  {
    if first == [] {
      assert first + second == second;
    } else {
      assert (first + second)[0] == first[0] && (first + second)[1..] == first[1..] + second;
      ARunSplit(AStep(a, loads, first[0]), loads, first[1..], second);
    }
  }

  lemma RunOne(s: State, a: Terminals, loads: Loader, e: Event)
    requires AShape(a)
    ensures Defined(s, loads, [e]) <==> CanStep(s, e)
    ensures CanStep(s, e) ==> Run(s, loads, [e]) == Step(s, loads, e)
    ensures AllowedRun(a, loads, [e]) <==> Allowed(a, loads, e)
    ensures Allowed(a, loads, e) ==> ARun(a, loads, [e]) == AStep(a, loads, e)
  {
    hide Step, AStep, CanStep, Allowed;
    assert [e][1..] == [];
  }

  // ---------------------------------------------------------------- tables apart from saved kernel stacks

  /** A control block with its saved kernel stack set right. */
  function Restack(pcb: Pcb): Pcb { pcb.(esp0 := StackTop(pcb.processNum)) }

  function RestackAll(pcbs: seq<Pcb>): (r: seq<Pcb>)
    ensures |r| == |pcbs| && forall i :: 0 <= i < |pcbs| ==> r[i] == Restack(pcbs[i])
  {
    seq(|pcbs|, i requires 0 <= i < |pcbs| => Restack(pcbs[i]))
  }

  function Restacked(s: State): State { s.(pcbs := RestackAll(s.pcbs)) }

  /** The process tables hold exactly the three stacks, whatever kernel stacks the blocks have saved. */
  predicate Holds(s: State, stacks: seq<seq<Task>>) {
    Forest(Restacked(s), stacks)
  }

  lemma ForestHolds(s: State, stacks: seq<seq<Task>>)
    requires Forest(s, stacks)
    ensures Shape(s) && Holds(s, stacks)
  {
    hide Exact, Counted;
    forall t | 0 <= t < 3 ensures IsChain(RestackAll(s.pcbs), s.highest[t], stacks[t]) {
      assert IsChain(s.pcbs, s.highest[t], stacks[t]);
      ChainRestacks(s.pcbs, s.highest[t], stacks[t]);
    }
  }

  lemma {:induction false} ChainRestacks(pcbs: seq<Pcb>, head: int, stack: seq<Task>)
    requires |pcbs| == MAX_PROCESSES && IsChain(pcbs, head, stack)
    ensures IsChain(RestackAll(pcbs), head, stack)
    decreases |stack|
  {
    if stack != [] {
      ChainRestacks(pcbs, Head(stack[1..]), stack[1..]);
    }
  }

  // ---------------------------------------------------------------- the stacks, read off the tables

  /** Process number reached from p by following parentTask k times; 0 past the root. */
  function Follow(pcbs: seq<Pcb>, p: int, k: nat): int
    requires |pcbs| == MAX_PROCESSES
    decreases k
  {
    if k == 0 || !(1 <= p <= MAX_PROCESSES) then p
    else
      var parent := pcbs[p - 1].parentTask;
      Follow(pcbs, if parent == 0 then 0 else SlotOf(parent) + 1, k - 1)
  }

  lemma {:induction false} FollowChain(pcbs: seq<Pcb>, head: int, stack: seq<Task>, k: nat)
    requires |pcbs| == MAX_PROCESSES && IsChain(pcbs, head, stack) && k <= |stack|
    ensures Follow(pcbs, head, k) == if k == |stack| then 0 else stack[k].num
    ensures k < |stack| ==> 1 <= stack[k].num <= MAX_PROCESSES
    decreases |stack|
  {
    if k > 0 {
      FollowChain(pcbs, Head(stack[1..]), stack[1..], k - 1);
    }
  }

  lemma {:induction false} CountWitness(stack: seq<Task>, n: int) returns (k: nat)
    requires Count(stack, n) > 0
    ensures k < |stack| && stack[k].num == n
    decreases |stack|
  {
    if stack[0].num == n {
      k := 0;
    } else {
      var j := CountWitness(stack[1..], n);
      k := j + 1;
    }
  }

  lemma {:induction false} CountAt(stack: seq<Task>, k: nat)
    requires k < |stack|
    ensures Count(stack, stack[k].num) >= 1
    ensures forall j :: 0 <= j < |stack| && j != k && stack[j].num == stack[k].num ==> Count(stack, stack[k].num) >= 2
    decreases |stack|
  {
    forall j | 0 <= j < |stack| && j != k && stack[j].num == stack[k].num
      ensures Count(stack, stack[k].num) >= 2
    {
      if k == 0 {
        CountAt(stack[1..], j - 1);
      } else if j == 0 {
        CountAt(stack[1..], k - 1);
      } else {
        CountAt(stack[1..], k - 1);
        assert stack[1..][j - 1].num == stack[1..][k - 1].num;
      }
    }
    if k > 0 {
      CountAt(stack[1..], k - 1);
    }
  }

  /** A position in the forest: k parent steps below the head of terminal t + 1. */
  function At(s: State, t: int, k: nat): int
    requires Shape(s) && 0 <= t < 3
  {
    Follow(s.pcbs, s.highest[t], k)
  }

  predicate Position(s: State, t: int, k: int)
    requires Shape(s)
  {
    0 <= t < 3 && 0 <= k < s.perTerminal[t]
  }

  predicate Taken(s: State, n: int)
    requires Shape(s)
  {
    1 <= n <= MAX_PROCESSES && s.slots[n - 1] != 0
  }

  ghost predicate OnChain(s: State, n: int)
    requires Shape(s)
  {
    exists t, k :: Position(s, t, k) && At(s, t, k) == n
  }

  lemma {:induction false} FollowRestacks(pcbs: seq<Pcb>, p: int, k: nat)
    requires |pcbs| == MAX_PROCESSES
    ensures Follow(RestackAll(pcbs), p, k) == Follow(pcbs, p, k)
    decreases k
  {
    if k > 0 && 1 <= p <= MAX_PROCESSES {
      var parent := pcbs[p - 1].parentTask;
      FollowRestacks(pcbs, if parent == 0 then 0 else SlotOf(parent) + 1, k - 1);
    }
  }

  lemma TaskAt(s: State, stacks: seq<seq<Task>>, t: int, k: int)
    requires Forest(s, stacks) && 0 <= t < 3 && 0 <= k < |stacks[t]|
    ensures var n := stacks[t][k].num;
            1 <= n <= MAX_PROCESSES && Follow(s.pcbs, s.highest[t], k) == n && s.slots[n - 1] == Occurs(stacks, n) == 1
  {
    hide Clean, Represents, Counted, IsChain, Follow;
    assert IsChain(s.pcbs, s.highest[t], stacks[t]);
    FollowChain(s.pcbs, s.highest[t], stacks[t], k);
    CountAt(stacks[t], k);
    var n := stacks[t][k].num;
    assert s.slots[n - 1] == Occurs(stacks, n) <= 1;
  }

  lemma PositionIsTask(s: State, stacks: seq<seq<Task>>, t: int, k: int)
    requires Holds(s, stacks) && Position(s, t, k)
    ensures k < |stacks[t]| && At(s, t, k) == stacks[t][k].num && 1 <= At(s, t, k) <= MAX_PROCESSES
    ensures s.slots[At(s, t, k) - 1] == Occurs(stacks, At(s, t, k)) == 1
  {
    hide Chains, Exact, Clean, Follow, Occurs;
    FollowRestacks(s.pcbs, s.highest[t], k);
    TaskAt(Restacked(s), stacks, t, k);
  }

  /** Two positions never name the same process: chains are acyclic and pairwise disjoint. */
  lemma PositionsDiffer(s: State, stacks: seq<seq<Task>>, t: int, k: int, u: int, j: int)
    requires Holds(s, stacks) && Position(s, t, k) && Position(s, u, j) && (t != u || k != j)
    ensures At(s, t, k) != At(s, u, j)
  {
    hide Holds, Count, At;
    PositionIsTask(s, stacks, t, k);
    PositionIsTask(s, stacks, u, j);
    HoldsThree(s, stacks);
    CountAt(stacks[t], k);
    CountAt(stacks[u], j);
  }

  lemma HoldsThree(s: State, stacks: seq<seq<Task>>)
    requires Holds(s, stacks)
    ensures |stacks| == 3 && Shape(s)
  {
  }

  /** An occupied slot is on some chain. */
  lemma OccupiedHasPosition(s: State, stacks: seq<seq<Task>>, n: int) returns (t: int, k: int)
    requires Holds(s, stacks) && Taken(s, n)
    ensures Position(s, t, k) && At(s, t, k) == n
  {
    hide Chains, Clean, Represents, At;
    assert s.slots[n - 1] == Occurs(stacks, n);
    t := if Count(stacks[0], n) > 0 then 0 else if Count(stacks[1], n) > 0 then 1 else 2;
    k := CountWitness(stacks[t], n);
    PositionIsTask(s, stacks, t, k);
  }

  /** Following parent_task from the three heads gives finite, acyclic, pairwise disjoint chains whose
      union is exactly the occupied slots; the counters are their lengths, and below six processes
      the slot search finds a slot. */
  ghost predicate ExactForest(s: State) {
    && Shape(s)
    && (forall t :: 0 <= t < 3 ==> s.perTerminal[t] >= 0 && At(s, t, s.perTerminal[t]) == 0)
    && (forall t, k, u, j :: Position(s, t, k) && Position(s, u, j) && (t != u || k != j) ==>
          At(s, t, k) != At(s, u, j))
    && (forall n :: Taken(s, n) <==> OnChain(s, n))
    && s.processCount == s.perTerminal[0] + s.perTerminal[1] + s.perTerminal[2] <= MAX_PROCESSES
    && (s.processCount < MAX_PROCESSES ==> FirstFree(s.slots, 0) < MAX_PROCESSES)
  }

  lemma ChainsEnd(s: State, stacks: seq<seq<Task>>, t: int)
    requires Holds(s, stacks) && 0 <= t < 3
    ensures s.perTerminal[t] == |stacks[t]| && At(s, t, s.perTerminal[t]) == 0
  {
    FollowRestacks(s.pcbs, s.highest[t], |stacks[t]|);
    hide Clean, Represents, RestackAll, SlotOf, Exact;
    assert IsChain(RestackAll(s.pcbs), s.highest[t], stacks[t]);
    FollowChain(RestackAll(s.pcbs), s.highest[t], stacks[t], |stacks[t]|);
  }

  lemma TakenIffOnChain(s: State, stacks: seq<seq<Task>>, n: int)
    requires Shape(s) && Holds(s, stacks)
    ensures Taken(s, n) <==> OnChain(s, n)
  {
    hide Holds, At, Occurs;
    if Taken(s, n) {
      var t, k := OccupiedHasPosition(s, stacks, n);
    }
    if OnChain(s, n) {
      var t, k :| Position(s, t, k) && At(s, t, k) == n;
      PositionIsTask(s, stacks, t, k);
    }
  }

  /** Tables that hold three stacks are an exact forest. */
  lemma HoldsIsExactForest(s: State, stacks: seq<seq<Task>>)
    requires Holds(s, stacks)
    ensures ExactForest(s)
  {
    hide Holds, Follow, Taken, OnChain, Forest;
    HoldsThree(s, stacks);
    HoldsCounts(s, stacks);
    forall t | 0 <= t < 3 ensures s.perTerminal[t] == |stacks[t]| && At(s, t, s.perTerminal[t]) == 0 {
      ChainsEnd(s, stacks, t);
    }
    forall t, k, u, j | Position(s, t, k) && Position(s, u, j) && (t != u || k != j)
      ensures At(s, t, k) != At(s, u, j)
    {
      PositionsDiffer(s, stacks, t, k, u, j);
    }
    forall n ensures Taken(s, n) <==> OnChain(s, n) {
      TakenIffOnChain(s, stacks, n);
    }
  }

  lemma HoldsCounts(s: State, stacks: seq<seq<Task>>)
    requires Holds(s, stacks)
    ensures Shape(s) && s.processCount == Size(stacks) <= MAX_PROCESSES
    ensures s.processCount < MAX_PROCESSES <==> FirstFree(s.slots, 0) < MAX_PROCESSES
  {
    hide Forest, RestackAll;
    SlotFound(Restacked(s), stacks);
  }
}
