/** Scheduling, context and argument laws over runs of the kernel. */
module Scheduling {
  import opened Bytes
  import opened Process
  import opened Refinement
  import opened Runs
  import opened Tables

  // ---------------------------------------------------------------- where the invariant breaks

  /** execute keeps the invariant, context included, exactly when it is rejected or the running terminal is the shown
      one: it links the new process under the shown terminal but loads it on the processor at once.  The tables survive
      in either case (ExecuteKeepsTables). */
  lemma ExecuteKeepsInvariantIff(s: State, a: Terminals, loads: Loader, command: Command, frame: int)
    requires Inv(s, a) && a.total >= 1
    requires command.Text? ==> |ArgTail(command.text)| < MAX_ARGS && NulFree(command.text)
    ensures CanExecute(s, command)
    ensures (exists a' :: Inv(ExecuteStep(s, loads, command, frame), a'))
       <==> (Accepted(s.processCount, loads, command) ==> s.currScheduled == s.currTerminal)
  {
    hide Forest, ArgTail, FirstFree, NulFree, Spawn, Resumable;
    SlotFound(s, a.stacks);
    if Accepted(s.processCount, loads, command) && s.currScheduled != s.currTerminal {
      SpawnElsewhere(s, a, command.text, frame);
      var s' := ExecuteStep(s, loads, command, frame);
      forall a' | Inv(s', a') ensures false {
        PageOfTop(s', a');
      }
    } else {
      ExecuteRefines(s, a, loads, command, frame);
    }
  }

  /** A process spawned under another terminal: the page is the new process's, the running head is still the old one. */
  lemma SpawnElsewhere(s: State, a: Terminals, command: seq<byte>, frame: int)
    requires Inv(s, a) && a.total >= 1 && s.currScheduled != s.currTerminal
    requires FirstFree(s.slots, 0) < MAX_PROCESSES && |ArgTail(command)| <= MAX_ARGS
    ensures var r := Spawn(s, command, frame);
            r.totalTerminal == s.totalTerminal && r.pageDir32 != Pde(r.highest[r.currScheduled - 1])
  {
    hide ArgTail, Represents, Resumable, Context;
    TopSlot(s, a.stacks, a.running - 1);
    var p := s.highest[a.running - 1];
    assert s.slots[p - 1] == Occurs(a.stacks, p);
  }

  lemma PageOfTop(s: State, a: Terminals)
    requires Inv(s, a) && s.totalTerminal >= 1
    ensures Shape(s) && s.pageDir32 == Pde(s.highest[s.currScheduled - 1])
  {
    hide Represents, Resumable, Pde, StackTop;
    TopSlot(s, a.stacks, a.running - 1);
  }

  /** halt keeps the invariant exactly when the process has a parent or its terminal is the shown one, which is when
      the tables survive (HaltKeepsTablesIff): the root case empties and refills the shown terminal's chain while it
      counts the running one down. */
  lemma HaltKeepsInvariantIff(s: State, a: Terminals, loads: Loader, frame: int)
    requires Inv(s, a) && a.total >= 1 && loads(SHELL)
    ensures CanHalt(s)
    ensures (exists a' :: Inv(HaltStep(s, loads, frame), a'))
       <==> (s.perTerminal[s.currScheduled - 1] > 1 || s.currScheduled == s.currTerminal)
  {
    ReapPops(s, a.stacks);
    CounterIsDepth(s, a, a.running - 1);
    if s.perTerminal[a.running - 1] == 1 && a.running != a.shown {
      HaltedRootIsCountedOut(s, a, loads, frame);
      var s' := HaltStep(s, loads, frame);
      forall a' | Inv(s', a') ensures false {
        CounterIsDepth(s', a', a.running - 1);
      }
    } else {
      hide Forest;
      HaltRefines(s, a, loads, frame);
    }
  }

  lemma HaltedRootIsCountedOut(s: State, a: Terminals, loads: Loader, frame: int)
    requires Inv(s, a) && CanHalt(s) && loads(SHELL) && a.total >= 1 && a.running != a.shown
    requires |a.stacks[a.running - 1]| == 1
    ensures Shape(HaltStep(s, loads, frame)) && HaltStep(s, loads, frame).perTerminal[a.running - 1] == 0
    ensures HaltStep(s, loads, frame).totalTerminal == 4
  {
    CounterIsDepth(s, a, a.running - 1);
    SlotFound(s, a.stacks);
    ParentOfTop(s, a);
    hide Forest;
    ShellHasNoTail();
  }

  // ---------------------------------------------------------------- machine context

  /** After boot a tick establishes the video mapping and every other step keeps it. */
  lemma MappedStep(s: State, a: Terminals, loads: Loader, e: Event)
    requires Inv(s, a) && Allowed(a, loads, e) && a.total == 4 && (e.Tick? || Mapped(s))
    ensures CanStep(s, e) && Mapped(Step(s, loads, e))
  {
    hide Forest, AStep;
    StepDefined(s, a, loads, e);
    if e.Tick? {
      SwitchContext(s, a, loads, e.tickFrame);
    }
  }

  lemma {:induction false} MappedAfter(s: State, a: Terminals, loads: Loader, trace: seq<Event>)
    requires Inv(s, a) && AllowedRun(a, loads, trace)
    requires a.total + Ticks(trace) >= 5 || (a.total == 4 && Mapped(s))
    ensures Defined(s, loads, trace) && Mapped(Run(s, loads, trace))
    decreases |trace|
  {
    hide AStep, Forest, Allowed, CanStep;
    if trace != [] {
      var e := trace[0];
      StepRefines(s, a, loads, e);
      if a.total == 4 && (e.Tick? || Mapped(s)) {
        MappedStep(s, a, loads, e);
      }
      MappedAfter(Step(s, loads, e), AStep(a, loads, e), loads, trace[1..]);
    }
  }

  /** The first byte of the 8 KB block that holds the control block and the kernel stack of process n: the blocks lie
      one below the other under 8 MB. */
  function BlockStart(n: int): int { 0x800000 - n * 0x2000 }

  /** The first byte of the 4 MB page of process n: the pages lie one above the other from 8 MB on. */
  function PageStart(n: int): int { 0x800000 + (n - 1) * 0x400000 }

  /** Two whole blocks and two whole pages have no byte in common. */
  predicate Apart(p: int, q: int) {
    && (BlockStart(p) + 0x2000 <= BlockStart(q) || BlockStart(q) + 0x2000 <= BlockStart(p))
    && (PageStart(p) + 0x400000 <= PageStart(q) || PageStart(q) + 0x400000 <= PageStart(p))
  }

  /** Every live control block stands at the low end of its own block, has the last word of that block as its kernel
      stack top, and names no parent or the block of another live process. */
  ghost predicate BlocksInOrder(s: State)
    requires Shape(s)
  {
    forall n :: Taken(s, n) ==> OwnBlock(s, n)
  }

  ghost predicate OwnBlock(s: State, n: int)
    requires Shape(s) && Taken(s, n)
  {
    var pcb := s.pcbs[n - 1];
    && pcb.processNum == n && pcb.esp0 + 4 == BlockStart(n) + 0x2000
    && (pcb.parentTask == 0 || exists m :: Taken(s, m) && m != n && pcb.parentTask == BlockStart(m))
  }

  /** From the fifth tick on, whatever else happened, the processor state is the running process's own, and no two live
      processes share a block or a page.  All of it in figures. */
  lemma ContextAfterBoot(s: State, loads: Loader, trace: seq<Event>)
    requires Initial(s) && AllowedRun(EMPTY, loads, trace) && Ticks(trace) >= 5
    ensures Defined(s, loads, trace)
    ensures var r := Run(s, loads, trace);
            var p := r.highest[r.currScheduled - 1];
            && Taken(r, p)
            && r.pageDir32 == 0x800000 + (p - 1) * 0x400000 + 0x87
            && r.tssEsp0 == 0x800000 - (p - 1) * 0x2000 - 4 && r.tssEsp0 + 4 == BlockStart(p) + 0x2000
            && r.videoMem == (if r.currScheduled == r.currTerminal then 0xB8000 else 0xB8000 + r.currScheduled * 0x1000)
            && r.vidPage == r.videoMem + 7
            && BlocksInOrder(r)
            && forall m, n :: Taken(r, m) && Taken(r, n) && m != n ==> Apart(m, n)
  {
    hide Forest, Initial, AllowedRun, ARun, Run, Defined, Resumable, Taken, Apart, Pde, StackTop, BlocksInOrder, Screen;
    InitialInv(s);
    RunRefines(s, EMPTY, loads, trace);
    MappedAfter(s, EMPTY, loads, trace);
    TotalAfter(EMPTY, loads, trace);
    var r := Run(s, loads, trace);
    var a := ARun(EMPTY, loads, trace);
    SlotFound(r, a.stacks);
    RunningIsTaken(r, a);
    InFigures(Current(a).num);
    ScreenInFigures(r.currScheduled, r.currTerminal);
    BlocksOfStacks(r, a);
    forall m, n | Taken(r, m) && Taken(r, n) && m != n ensures Apart(m, n) {
      LiveApart(r, m, n);
    }
  }

  lemma InFigures(n: int)
    ensures Pde(n) == 0x800000 + (n - 1) * 0x400000 + 0x87
    ensures StackTop(n) == 0x800000 - (n - 1) * 0x2000 - 4 && GetPcb(n) == 0x800000 - n * 0x2000
    ensures StackTop(n) + 4 == BlockStart(n) + 0x2000 && GetPcb(n) == BlockStart(n)
  {
  }

  lemma ScreenInFigures(t: int, shown: int)
    requires 1 <= t <= 3
    ensures Screen(t, shown) == if t == shown then 0xB8000 else 0xB8000 + t * 0x1000
  {
  }

  lemma BlocksOfStacks(s: State, a: Terminals)
    requires Inv(s, a)
    ensures Shape(s) && BlocksInOrder(s)
  {
    hide Inv, Represents, StackTop, GetPcb, BlockStart;
    ShapeOf(s, a);
    forall n | Taken(s, n) ensures OwnBlock(s, n) {
      BlockOfTask(s, a, n);
    }
  }

  lemma ShapeOf(s: State, a: Terminals)
    requires Inv(s, a)
    ensures Shape(s) && |a.stacks| == 3 && Holds(s, a.stacks)
  {
    hide Forest, Holds;
    ForestHolds(s, a.stacks);
  }

  /** One live process, found on its chain. */
  lemma BlockOfTask(s: State, a: Terminals, n: int)
    requires Inv(s, a) && Shape(s) && Taken(s, n)
    ensures OwnBlock(s, n)
  {
    hide Inv, Represents, StackTop, GetPcb, BlockStart, At, Holds;
    ShapeOf(s, a);
    var t, k := OccupiedHasPosition(s, a.stacks, n);
    PositionIsTask(s, a.stacks, t, k);
    BlockAt(s, a, t, k);
    InFigures(n);
    var stack := a.stacks[t];
    if k + 1 < |stack| {
      assert Position(s, t, k + 1) by {
        ChainsEnd(s, a.stacks, t);
      }
      PositionIsTask(s, a.stacks, t, k + 1);
      PositionsDiffer(s, a.stacks, t, k, t, k + 1);
      InFigures(stack[k + 1].num);
      assert Taken(s, stack[k + 1].num);
    }
  }

  /** The block of the k-th task of a stack. */
  lemma BlockAt(s: State, a: Terminals, t: int, k: nat)
    requires Inv(s, a) && 0 <= t < 3 && k < |a.stacks[t]|
    ensures 1 <= a.stacks[t][k].num <= MAX_PROCESSES
    ensures var n := a.stacks[t][k].num; var pcb := s.pcbs[n - 1];
            && pcb.processNum == n && pcb.esp0 == StackTop(n)
            && pcb.parentTask == if k + 1 < |a.stacks[t]| then PointerTo(a.stacks[t][k + 1].num) else 0
    ensures k + 1 < |a.stacks[t]| ==> 1 <= a.stacks[t][k + 1].num <= MAX_PROCESSES
  {
    assert IsChain(s.pcbs, s.highest[t], a.stacks[t]);
    LinkAt(s.pcbs, s.highest[t], a.stacks[t], k);
  }

  lemma {:induction false} LinkAt(pcbs: seq<Pcb>, head: int, stack: seq<Task>, k: nat)
    requires |pcbs| == MAX_PROCESSES && IsChain(pcbs, head, stack) && k < |stack|
    ensures 1 <= stack[k].num <= MAX_PROCESSES && Represents(pcbs[stack[k].num - 1], stack[k])
    ensures k + 1 < |stack| ==> 1 <= stack[k + 1].num <= MAX_PROCESSES
    ensures pcbs[stack[k].num - 1].parentTask == if k + 1 < |stack| then PointerTo(stack[k + 1].num) else 0
    decreases |stack|
  {
    if k > 0 {
      LinkAt(pcbs, Head(stack[1..]), stack[1..], k - 1);
    } else if |stack| > 1 {
      assert stack[1..][0] == stack[1];
    }
  }

  lemma RunningIsTaken(s: State, a: Terminals)
    requires Inv(s, a) && a.total >= 1
    ensures Shape(s) && s.highest[s.currScheduled - 1] == Current(a).num && Taken(s, Current(a).num)
  {
    hide Represents, Resumable, Context;
    TopSlot(s, a.stacks, a.running - 1);
    var p := Current(a).num;
    assert s.slots[p - 1] == Occurs(a.stacks, p);
  }

  lemma LiveApart(s: State, m: int, n: int)
    requires Shape(s) && Taken(s, m) && Taken(s, n) && m != n
    ensures Apart(m, n)
  {
  }

  lemma {:induction false} TotalAfter(a: Terminals, loads: Loader, trace: seq<Event>)
    requires AllowedRun(a, loads, trace)
    ensures ARun(a, loads, trace).total == if a.total + Ticks(trace) < 4 then a.total + Ticks(trace) else 4
    decreases |trace|
  {
    if trace != [] {
      TotalAfter(AStep(a, loads, trace[0]), loads, trace[1..]);
    }
  }

  // ---------------------------------------------------------------- round robin

  lemma RunningMoves(a: Terminals, loads: Loader, e: Event)
    requires AShape(a) && Allowed(a, loads, e) && a.total == 4
    ensures AStep(a, loads, e).running == if e.Tick? then a.running % 3 + 1 else a.running
  {
  }

  /** After boot only ticks move the processor, one terminal each. */
  lemma {:induction false} RoundRobin(a: Terminals, loads: Loader, trace: seq<Event>)
    requires AllowedRun(a, loads, trace) && a.total == 4
    ensures ARun(a, loads, trace).total == 4 && 1 <= a.running <= 3
    ensures ARun(a, loads, trace).running == (a.running - 1 + Ticks(trace)) % 3 + 1
    decreases |trace|
  {
    hide AStep, Allowed;
    if trace != [] {
      RunningMoves(a, loads, trace[0]);
      RoundRobin(AStep(a, loads, trace[0]), loads, trace[1..]);
    }
  }

  /** Three consecutive one-tick stretches of a run leave each terminal running once. */
  lemma EachTerminalOnce(a: Terminals, loads: Loader, x: seq<Event>, y: seq<Event>, z: seq<Event>)
    requires AllowedRun(a, loads, x) && AllowedRun(ARun(a, loads, x), loads, y)
    requires AllowedRun(ARun(ARun(a, loads, x), loads, y), loads, z)
    requires a.total == 4 && Ticks(x) == Ticks(y) == Ticks(z) == 1
    ensures var b := ARun(a, loads, x); var c := ARun(b, loads, y); var d := ARun(c, loads, z);
            {b.running, c.running, d.running} == {1, 2, 3} && d.running == a.running
  {
    hide AStep, Allowed, ARun, AllowedRun, AShape;
    var b := ARun(a, loads, x);
    var c := ARun(b, loads, y);
    RoundRobin(a, loads, x);
    RoundRobin(b, loads, y);
    RoundRobin(c, loads, z);
    Cycle(a.running, b.running, c.running, ARun(c, loads, z).running);
  }

  lemma Cycle(a: int, b: int, c: int, d: int)
    requires 1 <= a <= 3 && b == a % 3 + 1 && c == b % 3 + 1 && d == c % 3 + 1
    ensures {b, c, d} == {1, 2, 3} && d == a
  {
  }

  // ---------------------------------------------------------------- frames

  /** Terminal t is never running along the trace. */
  predicate Away(a: Terminals, loads: Loader, trace: seq<Event>, t: int)
    requires AllowedRun(a, loads, trace)
    decreases |trace|
  {
    a.running != t && (trace == [] || Away(AStep(a, loads, trace[0]), loads, trace[1..], t))
  }

  /** Only the running terminal's stack can change. */
  lemma {:induction false} AwayKeepsStack(a: Terminals, loads: Loader, trace: seq<Event>, t: int)
    requires AllowedRun(a, loads, trace) && a.total == 4 && 1 <= t <= 3 && Away(a, loads, trace, t)
    ensures ARun(a, loads, trace).stacks[t - 1] == a.stacks[t - 1]
    decreases |trace|
  {
    if trace != [] {
      AwayKeepsStack(AStep(a, loads, trace[0]), loads, trace[1..], t);
    }
  }

  lemma {:induction false} AwayForTicks(a: Terminals, loads: Loader, trace: seq<Event>, t: int)
    requires AllowedRun(a, loads, trace) && a.total == 4 && 1 <= t <= 3
    requires (a.running == t % 3 + 1 && Ticks(trace) <= 1) || (a.running == (t + 1) % 3 + 1 && Ticks(trace) == 0)
    ensures Away(a, loads, trace, t)
    decreases |trace|
  {
    if trace != [] {
      AwayForTicks(AStep(a, loads, trace[0]), loads, trace[1..], t);
    }
  }

  /** A process switched out with frame f is resumed, two ticks later and by the third, with f. */
  lemma ResumesItsOwnFrame(s: State, a: Terminals, loads: Loader, f: int, mid: seq<Event>, h: int)
    requires Inv(s, a) && a.total == 4 && Ticks(mid) == 1
    requires AllowedRun(a, loads, [Tick(f)] + mid + [Tick(h)])
    ensures Defined(s, loads, [Tick(f)] + mid + [Tick(h)])
    ensures var r := Run(s, loads, [Tick(f)] + mid + [Tick(h)]);
            && Shape(r) && r.ebp == f
            && r.currScheduled == s.currScheduled
            && r.highest[s.currScheduled - 1] == s.highest[s.currScheduled - 1]
  {
    hide Inv, Allowed, ARun, AllowedRun, Run, Defined, Step, CanStep, AStep, TickStep, CanTick;
    var t := a.running;
    InvShape(s, a);
    HeadIsTop(s, a, t - 1);
    var a1, a2, s2 := Around(s, a, loads, Tick(f), mid, Tick(h));
    InvShape(s2, a2);
    TickSaves(a, loads, f);
    AwayForTicks(a1, loads, mid, t);
    AwayKeepsStack(a1, loads, mid, t);
    RoundRobin(a1, loads, mid);
    SwitchContextResumes(s2, a2, loads, h);
    HeadIsTop(s2, a2, t - 1);
    StepOfTick(s2, loads, h);
  }

  lemma InvShape(s: State, a: Terminals)
    requires Inv(s, a)
    ensures Shape(s) && AShape(a) && s.currScheduled == a.running
  {
  }

  lemma TickSaves(a: Terminals, loads: Loader, f: int)
    requires AShape(a) && Allowed(a, loads, Tick(f)) && a.total == 4
    ensures var a1 := AStep(a, loads, Tick(f)); var t := a.running - 1;
            && a1.running == a.running % 3 + 1 && a1.stacks[t] != []
            && a1.stacks[t][0] == a.stacks[t][0].(saved := Some(f))
  {
  }

  /** The states around the middle of a run that starts with one event and ends with another. */
  lemma Around(s: State, a: Terminals, loads: Loader, e: Event, mid: seq<Event>, g: Event)
    returns (a1: Terminals, a2: Terminals, s2: State)
    requires Inv(s, a) && AllowedRun(a, loads, [e] + mid + [g])
    ensures Allowed(a, loads, e) && a1 == AStep(a, loads, e)
    ensures AllowedRun(a1, loads, mid) && a2 == ARun(a1, loads, mid)
    ensures Inv(s2, a2) && Allowed(a2, loads, g) && CanStep(s2, g)
    ensures Defined(s, loads, [e] + mid + [g])
    ensures Run(s, loads, [e] + mid + [g]) == Step(s2, loads, g)
  {
    hide Inv, Allowed, AStep, Step, CanStep;
    RunRefines(s, a, loads, [e] + mid + [g]);
    ARunSplit(a, loads, [e] + mid, [g]);
    ARunSplit(a, loads, [e], mid);
    RunSplit(s, loads, [e] + mid, [g]);
    RunRefines(s, a, loads, [e] + mid);
    RunOne(s, a, loads, e);
    a1 := AStep(a, loads, e);
    a2 := ARun(a1, loads, mid);
    s2 := Run(s, loads, [e] + mid);
    RunOne(s2, a2, loads, g);
  }

  lemma StepOfTick(s: State, loads: Loader, h: int)
    ensures CanStep(s, Tick(h)) <==> CanTick(s)
    ensures CanTick(s) ==> Step(s, loads, Tick(h)) == TickStep(s, loads, h)
  {
  }

  lemma SwitchContextResumes(s: State, a: Terminals, loads: Loader, h: int)
    requires Inv(s, a) && a.total == 4 && Allowed(a, loads, Tick(h))
    ensures CanTick(s)
    ensures a.stacks[a.running % 3][0].saved == Some(TickStep(s, loads, h).ebp)
    ensures Shape(TickStep(s, loads, h))
    ensures TickStep(s, loads, h).highest == s.highest && TickStep(s, loads, h).currScheduled == s.currScheduled % 3 + 1
  {
    hide Forest;
    StepDefined(s, a, loads, Tick(h));
    SwitchContext(s, a, loads, h);
  }

  /** The stack of terminal t keeps its bottom d tasks along the trace, because no step pops into them. */
  predicate Deep(a: Terminals, loads: Loader, trace: seq<Event>, t: int, d: nat)
    requires AllowedRun(a, loads, trace) && 1 <= t <= 3
    decreases |trace|
  {
    && d <= |a.stacks[t - 1]|
    && (trace == [] ||
        (&& (trace[0].Halt? && a.running == t ==> d < |a.stacks[t - 1]|)
         && Deep(AStep(a, loads, trace[0]), loads, trace[1..], t, d)))
  }

  predicate SameTask(x: Task, y: Task) {
    x.num == y.num && x.frame == y.frame && x.args == y.args
  }

  /** The i-th task from the bottom. */
  function FromBottom(stack: seq<Task>, i: nat): Task
    requires i < |stack|
  {
    stack[|stack| - 1 - i]
  }

  predicate SameBottom(x: seq<Task>, y: seq<Task>, d: nat) {
    && d <= |x| && d <= |y|
    && forall i :: 0 <= i < d ==> SameTask(FromBottom(x, i), FromBottom(y, i))
  }

  lemma SaveBottom(stacks: seq<seq<Task>>, u: int, frame: int, t: int, d: nat)
    requires |stacks| == 3 && 1 <= u <= 3 && stacks[u - 1] != [] && 1 <= t <= 3 && d <= |stacks[t - 1]|
    ensures SameBottom(stacks[t - 1], Save(stacks, u, frame)[t - 1], d)
  {
  }

  lemma PushBottom(stacks: seq<seq<Task>>, u: int, command: seq<byte>, frame: int, t: int, d: nat)
    requires |stacks| == 3 && 1 <= u <= 3 && 1 <= t <= 3 && d <= |stacks[t - 1]|
    ensures SameBottom(stacks[t - 1], Push(stacks, u, command, frame)[t - 1], d)
  {
    hide LeastFree, ArgTail;
  }

  lemma PopBottom(stacks: seq<seq<Task>>, u: int, t: int, d: nat)
    requires |stacks| == 3 && 1 <= u <= 3 && stacks[u - 1] != [] && 1 <= t <= 3 && d <= |stacks[t - 1]|
    requires u == t ==> d < |stacks[t - 1]|
    ensures SameBottom(stacks[t - 1], Pop(stacks, u)[t - 1], d)
  {
  }

  lemma BottomTwice(x: seq<Task>, y: seq<Task>, z: seq<Task>, d: nat)
    requires SameBottom(x, y, d) && SameBottom(y, z, d)
    ensures SameBottom(x, z, d)
  {
    hide FromBottom;
  }

  lemma SameStack(x: seq<Task>, d: nat)
    requires d <= |x|
    ensures SameBottom(x, x, d)
  {
  }

  lemma TickKeepsBottom(a: Terminals, f: int, t: int, d: nat)
    requires AShape(a) && 1 <= t <= 3 && d <= |a.stacks[t - 1]|
    ensures SameBottom(a.stacks[t - 1], ATick(a, f).stacks[t - 1], d)
  {
    hide Push, Save, SameBottom;
    SameStack(a.stacks[t - 1], d);
    if a.total == 0 {
      PushBottom(a.stacks, 1, SHELL, f, t, d);
    } else if a.total != 3 {
      SaveBottom(a.stacks, a.running, f, t, d);
      var saved := Save(a.stacks, a.running, f);
      BottomFits(a.stacks[t - 1], saved[t - 1], d);
      if a.total < 3 {
        PushBottom(saved, a.running % 3 + 1, SHELL, f, t, d);
        BottomTwice(a.stacks[t - 1], saved[t - 1], Push(saved, a.running % 3 + 1, SHELL, f)[t - 1], d);
      }
    }
  }

  lemma BottomFits(x: seq<Task>, y: seq<Task>, d: nat)
    requires SameBottom(x, y, d)
    ensures d <= |y|
  {
  }

  lemma StepKeepsBottom(a: Terminals, loads: Loader, e: Event, t: int, d: nat)
    requires AShape(a) && Allowed(a, loads, e) && 1 <= t <= 3 && d <= |a.stacks[t - 1]| && d > 0
    requires e.Halt? && a.running == t ==> d < |a.stacks[t - 1]|
    ensures SameBottom(a.stacks[t - 1], AStep(a, loads, e).stacks[t - 1], d)
  {
    hide Push, Pop, Save, SameBottom, ATick;
    SameStack(a.stacks[t - 1], d);
    match e
    case Tick(f) => TickKeepsBottom(a, f, t, d);
    case Exec(command, f) =>
      if command.Text? {
        PushBottom(a.stacks, a.running, command.text, f, t, d);
      }
    case Halt(f) =>
      PopBottom(a.stacks, a.running, t, d);
      var popped := Pop(a.stacks, a.running);
      BottomFits(a.stacks[t - 1], popped[t - 1], d);
      PushBottom(popped, a.running, SHELL, f, t, d);
      BottomTwice(a.stacks[t - 1], popped[t - 1], Push(popped, a.running, SHELL, f)[t - 1], d);
    case _ =>
  }

  lemma {:induction false} DeepKeepsBottom(a: Terminals, loads: Loader, trace: seq<Event>, t: int, d: nat)
    requires AllowedRun(a, loads, trace) && 1 <= t <= 3 && d > 0 && Deep(a, loads, trace, t, d)
    ensures SameBottom(a.stacks[t - 1], ARun(a, loads, trace).stacks[t - 1], d)
    decreases |trace|
  {
    hide AStep, Allowed;
    if trace != [] {
      StepKeepsBottom(a, loads, trace[0], t, d);
      DeepKeepsBottom(AStep(a, loads, trace[0]), loads, trace[1..], t, d);
    }
  }

  /** execute and the matching halt nest: whatever ran in between, halt returns to the frame of the
      execute that made the process, with the caller's process, page and stack back in place. */
  lemma HaltReturnsToItsExecute(s: State, a: Terminals, loads: Loader, command: seq<byte>, f: int, mid: seq<Event>,
    g: int)
    requires Inv(s, a) && a.total == 4
    requires AllowedRun(a, loads, [Exec(Text(command), f)] + mid + [Halt(g)])
    requires Accepted(Size(a.stacks), loads, Text(command)) && Allowed(a, loads, Exec(Text(command), f))
    requires var a1 := AStep(a, loads, Exec(Text(command), f));
             && AllowedRun(a1, loads, mid) && Deep(a1, loads, mid, a.running, |a1.stacks[a.running - 1]|)
             && ARun(a1, loads, mid).running == a.running
             && |ARun(a1, loads, mid).stacks[a.running - 1]| == |a1.stacks[a.running - 1]|
    ensures Defined(s, loads, [Exec(Text(command), f)] + mid + [Halt(g)])
    ensures var r := Run(s, loads, [Exec(Text(command), f)] + mid + [Halt(g)]);
            && Shape(r) && r.ebp == f
            && r.highest[a.running - 1] == s.highest[a.running - 1]
            && r.perTerminal[a.running - 1] == s.perTerminal[a.running - 1]
            && r.pageDir32 == s.pageDir32 && r.tssEsp0 == s.tssEsp0
  {
    hide Forest, Allowed, ARun, AllowedRun, Run, Defined, Step, CanStep;
    var t := a.running;
    var a1, a2, s2 := Around(s, a, loads, Exec(Text(command), f), mid, Halt(g));
    DeepKeepsBottom(a1, loads, mid, t, |a1.stacks[t - 1]|);
    HaltPops(s, a, a1, s2, a2, loads, g);
    StepOfHalt(s2, loads, g);
  }

  lemma StepOfHalt(s: State, loads: Loader, g: int)
    ensures CanStep(s, Halt(g)) <==> CanHalt(s)
    ensures CanHalt(s) ==> Step(s, loads, Halt(g)) == HaltStep(s, loads, g)
  {
  }

  /** The last step of the previous lemma, on the states around it. */
  lemma HaltPops(s: State, a: Terminals, a1: Terminals, s2: State, a2: Terminals, loads: Loader, g: int)
    requires Inv(s, a) && Inv(s2, a2) && AShape(a1) && a.total == a2.total == 4 && a.running == a2.running
    requires Allowed(a2, loads, Halt(g))
    requires var t := a.running - 1;
             && |a1.stacks[t]| == |a2.stacks[t]| && |a1.stacks[t]| > 0 && a1.stacks[t][1..] == a.stacks[t]
             && SameBottom(a1.stacks[t], a2.stacks[t], |a1.stacks[t]|)
    ensures CanHalt(s2) && Shape(HaltStep(s2, loads, g))
    ensures var r := HaltStep(s2, loads, g);
            && r.ebp == a1.stacks[a.running - 1][0].frame
            && r.highest[a.running - 1] == s.highest[a.running - 1]
            && r.perTerminal[a.running - 1] == s.perTerminal[a.running - 1]
            && r.pageDir32 == s.pageDir32 && r.tssEsp0 == s.tssEsp0
  {
    hide Forest, Resumable, Allowed, HaltStep, CanHalt, Represents, SameBottom, Pde, StackTop;
    var t := a.running - 1;
    CounterIsDepth(s, a, t);
    HeadIsTop(s, a, t);
    HaltContext(s2, a2, loads, g);
    TopTwo(a1.stacks[t], a2.stacks[t]);
  }

  lemma TopTwo(x: seq<Task>, y: seq<Task>)
    requires |x| == |y| > 0 && SameBottom(x, y, |x|)
    ensures x[0].frame == y[0].frame && Head(x[1..]) == Head(y[1..])
  {
    assert SameTask(FromBottom(x, |x| - 1), FromBottom(y, |x| - 1));
    if |x| > 1 {
      assert SameTask(FromBottom(x, |x| - 2), FromBottom(y, |x| - 2));
    }
  }

  /** The registers and tables after the halt of a child. */
  lemma HaltContext(s: State, a: Terminals, loads: Loader, g: int)
    requires Inv(s, a) && Allowed(a, loads, Halt(g)) && |a.stacks[a.running - 1]| > 1
    ensures CanHalt(s) && Shape(HaltStep(s, loads, g))
    ensures var r := HaltStep(s, loads, g); var t := a.running - 1; var below := a.stacks[t][1..];
            && r.ebp == Current(a).frame && r.highest[t] == Head(below) && r.perTerminal[t] == |below|
            && r.pageDir32 == Pde(Head(below)) && r.tssEsp0 == StackTop(Head(below))
  {
    CounterIsDepth(s, a, a.running - 1);
    ReapPops(s, a.stacks);
    ParentOfTop(s, a);
    hide Forest;
  }

  lemma CounterIsDepth(s: State, a: Terminals, t: int)
    requires Inv(s, a) && 0 <= t < 3
    ensures Shape(s) && s.perTerminal[t] == |a.stacks[t]|
  {
  }

  // ---------------------------------------------------------------- boot

  /** The stacks after n boot ticks. */
  function BootAfter(f: seq<int>, n: nat): Terminals
    requires |f| == 4 && n <= 4
  {
    var x, y, z := Task(1, f[0], None, []), Task(2, f[1], None, []), Task(3, f[2], None, []);
    var x', y' := x.(saved := Some(f[1])), y.(saved := Some(f[2]));
    match n
    case 0 => EMPTY
    case 1 => Terminals([[x], [], []], 1, 1, 0, 1)
    case 2 => Terminals([[x'], [y], []], 2, 2, 0, 2)
    case 3 => Terminals([[x'], [y'], [z]], 3, 3, 0, 3)
    case _ => Terminals([[x'], [y'], [z]], 3, 1, 0, 4)
  }

  lemma BootTick(loads: Loader, f: seq<int>, n: nat)
    requires loads(SHELL) && |f| == 4 && n < 4
    ensures AShape(BootAfter(f, n)) && Allowed(BootAfter(f, n), loads, Tick(f[n]))
    ensures AStep(BootAfter(f, n), loads, Tick(f[n])) == BootAfter(f, n + 1)
  {
    var a := BootAfter(f, n);
    hide AStep, Allowed;
    match n
    case 0 => BootFirstStack(loads, f[0], BootAfter(f, 1));
    case 1 => BootSecondStack(loads, a, f[1], a.stacks[0][0]);
    case 2 => BootThirdStack(loads, a, f[2], a.stacks[0][0], a.stacks[1][0]);
    case _ => BootFourthStack(loads, a, f[3]);
  }

  function BootTrace(f: seq<int>): seq<Event>
    requires |f| == 4
  {
    [Tick(f[0]), Tick(f[1]), Tick(f[2]), Tick(f[3])]
  }

  lemma BootRun(loads: Loader, f: seq<int>)
    requires loads(SHELL) && |f| == 4
    ensures AllowedRun(EMPTY, loads, BootTrace(f)) && ARun(EMPTY, loads, BootTrace(f)) == BootAfter(f, 4)
  {
    hide AStep, Allowed, BootAfter;
    BootStart(f);
    BootSuffix(loads, f, 0);
    assert BootTrace(f)[0..] == BootTrace(f);
  }

  lemma BootStart(f: seq<int>)
    requires |f| == 4
    ensures BootAfter(f, 0) == EMPTY && AShape(BootAfter(f, 4))
  {
  }

  lemma {:induction false} BootSuffix(loads: Loader, f: seq<int>, n: nat)
    requires loads(SHELL) && |f| == 4 && n <= 4
    ensures AllowedRun(BootAfter(f, n), loads, BootTrace(f)[n..])
    ensures ARun(BootAfter(f, n), loads, BootTrace(f)[n..]) == BootAfter(f, 4)
    decreases 4 - n
  {
    hide AStep, Allowed, BootAfter, AShape;
    BootStart(f);
    if n < 4 {
      BootTick(loads, f, n);
      BootSuffix(loads, f, n + 1);
      assert BootTrace(f)[n..] == [Tick(f[n])] + BootTrace(f)[n + 1..];
      ARunCons(BootAfter(f, n), loads, Tick(f[n]), BootTrace(f)[n + 1..], BootAfter(f, n + 1));
    }
  }

  /** Four ticks from power-on: three shells in slots 1, 2 and 3, terminal 1 shown, shell 3 running,
      and the first two shells hold the frames that ticks five and six will resume. */
  lemma BootStartsThreeShells(s: State, loads: Loader, f: seq<int>)
    requires Initial(s) && loads(SHELL) && |f| == 4
    ensures AllowedRun(EMPTY, loads, BootTrace(f)) && Defined(s, loads, BootTrace(f))
    ensures var r := Run(s, loads, BootTrace(f));
            && Inv(r, BootAfter(f, 4)) && Shape(r)
            && r.highest == [1, 2, 3] && r.slots == [1, 1, 1, 0, 0, 0] && r.perTerminal == [1, 1, 1]
            && r.processCount == 3 && r.currTerminal == 1 && r.currScheduled == 3
            && r.pcbs[0].ebpScheduler == f[1] && r.pcbs[1].ebpScheduler == f[2]
  {
    hide Inv, Initial, AllowedRun, ARun, Run, Defined, BootTrace;
    BootRun(loads, f);
    InitialInv(s);
    RunRefines(s, EMPTY, loads, BootTrace(f));
    BootTables(Run(s, loads, BootTrace(f)), BootAfter(f, 4), f);
  }

  /** An accepted execute by a terminal that is not shown: exact tables, but the page of a process that is not the
      running terminal's. */
  lemma ExecuteElsewhere(s: State, a: Terminals, loads: Loader, command: seq<byte>, frame: int)
    requires Inv(s, a) && a.total >= 1 && s.currScheduled != s.currTerminal
    requires Accepted(s.processCount, loads, Text(command)) && |ArgTail(command)| < MAX_ARGS && NulFree(command)
    ensures CanExecute(s, Text(command))
    ensures var x := ExecuteStep(s, loads, Text(command), frame);
            ExactForest(x) && !(exists a' :: Inv(x, a')) && x.pageDir32 != Pde(x.highest[x.currScheduled - 1])
  {
    hide Inv, ArgTail, FirstFree, Spawn, Pde, ExactForest, FileName, NulFree, Holds;
    InvHolds(s, a);
    ExecuteKeepsTables(s, a.stacks, loads, Text(command), frame);
    ExecuteKeepsInvariantIff(s, a, loads, Text(command), frame);
    SpawnElsewhere(s, a, command, frame);
  }

  lemma InvHolds(s: State, a: Terminals)
    requires Inv(s, a)
    ensures AShape(a) && Shape(s) && Holds(s, a.stacks) && s.currScheduled == a.running && s.currTerminal == a.shown
  {
    hide Forest, Holds;
    ForestHolds(s, a.stacks);
  }

  /** Right after boot terminal 3 runs and terminal 1 is shown.  In that reachable state any command that execute
      accepts leaves exact tables but a page that is not the running terminal's, and the halt of the running shell
      leaves tables that hold no three stacks. */
  lemma BootThenBreaks(s: State, loads: Loader, f: seq<int>, command: seq<byte>, frame: int)
    requires Initial(s) && loads(SHELL) && |f| == 4
    requires loads(FileName(command)) && |ArgTail(command)| < MAX_ARGS && NulFree(command)
    ensures AllowedRun(EMPTY, loads, BootTrace(f)) && Defined(s, loads, BootTrace(f))
    ensures var r := Run(s, loads, BootTrace(f));
            && CanExecute(r, Text(command)) && CanHalt(r)
            && var x := ExecuteStep(r, loads, Text(command), frame); var y := HaltStep(r, loads, frame);
               && ExactForest(x) && !(exists a' :: Inv(x, a')) && x.pageDir32 != Pde(x.highest[x.currScheduled - 1])
               && !ExactForest(y) && !(exists st :: Holds(y, st))
  {
    BootStartsThreeShells(s, loads, f);
    hide Inv, Initial, Run, AllowedRun, Defined, ExecuteStep, HaltStep, CanHalt, CanExecute, Holds, ExactForest,
         FirstFree, ArgTail, FileName, NulFree, BootTrace, Pde;
    var r, a := Run(s, loads, BootTrace(f)), BootAfter(f, 4);
    InvHolds(r, a);
    ExecuteElsewhere(r, a, loads, command, frame);
    HaltKeepsTablesIff(r, a.stacks, loads, frame);
  }

  lemma ARunCons(a: Terminals, loads: Loader, e: Event, rest: seq<Event>, a1: Terminals)
    requires AShape(a) && Allowed(a, loads, e) && AStep(a, loads, e) == a1 && AllowedRun(a1, loads, rest)
    ensures AllowedRun(a, loads, [e] + rest)
    ensures ARun(a, loads, [e] + rest) == ARun(a1, loads, rest)
  {
    hide AStep, Allowed;
    assert ([e] + rest)[1..] == rest;
  }

  lemma BootFourthStack(loads: Loader, a: Terminals, f: int)
    requires loads(SHELL) && AShape(a) && a.total == 3
    ensures Allowed(a, loads, Tick(f)) && AStep(a, loads, Tick(f)) == a.(shown := 1, total := 4)
  {
  }

  lemma OneTask(x: Task)
    ensures forall n :: Count([x], n) == if x.num == n then 1 else 0
    ensures [x] + [] == [x] && [x][1..] == []
  {
    assert [x][1..] == [];
  }

  lemma BootFirstStack(loads: Loader, f: int, a1: Terminals)
    requires loads(SHELL) && a1 == Terminals([[Task(1, f, None, [])], [], []], 1, 1, 0, 1)
    ensures Allowed(EMPTY, loads, Tick(f)) && AStep(EMPTY, loads, Tick(f)) == a1
  {
    ShellHasNoTail();
    OneTask(Task(1, f, None, []));
    assert Count([], 1) == 0;
    assert LeastFree(EMPTY.stacks, 1) == 1;
    assert Push(EMPTY.stacks, 1, SHELL, f) == a1.stacks;
  }

  /** The second and third boot ticks save the last shell and push the next one. */
  lemma BootSecondStack(loads: Loader, a: Terminals, f: int, x: Task)
    requires loads(SHELL) && a == Terminals([[x], [], []], 1, 1, 0, 1) && x.num == 1
    ensures Allowed(a, loads, Tick(f))
    ensures AStep(a, loads, Tick(f)) == Terminals([[x.(saved := Some(f))], [Task(2, f, None, [])], []], 2, 2, 0, 2)
  {
    ShellHasNoTail();
    var x' := x.(saved := Some(f));
    var saved := [[x'], [], []];
    OneTask(x);
    OneTask(x');
    OneTask(Task(2, f, None, []));
    assert a.stacks[0][0] == x && a.stacks[0][1..] == [];
    assert Save(a.stacks, 1, f) == saved;
    assert Occurs(saved, 1) == 1 && Occurs(saved, 2) == 0;
    assert LeastFree(saved, 2) == 2;
    assert Push(saved, 2, SHELL, f) == [[x'], [Task(2, f, None, [])], []];
  }

  lemma BootThirdStack(loads: Loader, a: Terminals, f: int, x: Task, y: Task)
    requires loads(SHELL) && a == Terminals([[x], [y], []], 2, 2, 0, 2) && x.num == 1 && y.num == 2
    ensures Allowed(a, loads, Tick(f))
    ensures AStep(a, loads, Tick(f)) == Terminals([[x], [y.(saved := Some(f))], [Task(3, f, None, [])]], 3, 3, 0, 3)
  {
    ShellHasNoTail();
    var y' := y.(saved := Some(f));
    var saved := [[x], [y'], []];
    OneTask(x);
    OneTask(y);
    OneTask(y');
    OneTask(Task(3, f, None, []));
    assert a.stacks[1][0] == y && a.stacks[1][1..] == [];
    assert Save(a.stacks, 2, f) == saved;
    assert Occurs(saved, 1) == 1 && Occurs(saved, 2) == 1 && Occurs(saved, 3) == 0;
    assert LeastFree(saved, 3) == 3 && LeastFree(saved, 2) == 3;
    assert Push(saved, 3, SHELL, f) == [[x], [y'], [Task(3, f, None, [])]];
  }

  lemma BootTables(r: State, a: Terminals, f: seq<int>)
    requires |f| == 4 && a == BootAfter(f, 4) && Inv(r, a)
    ensures Shape(r) && r.highest == [1, 2, 3] && r.slots == [1, 1, 1, 0, 0, 0] && r.perTerminal == [1, 1, 1]
    ensures r.processCount == 3 && r.currTerminal == 1 && r.currScheduled == 3
    ensures r.pcbs[0].ebpScheduler == f[1] && r.pcbs[1].ebpScheduler == f[2]
  {
    HeadIsTop(r, a, 0);
    HeadIsTop(r, a, 1);
    HeadIsTop(r, a, 2);
    assert r.slots[1 - 1] == Occurs(a.stacks, 1) && r.slots[2 - 1] == Occurs(a.stacks, 2) &&
           r.slots[3 - 1] == Occurs(a.stacks, 3);
    assert r.slots[4 - 1] == Occurs(a.stacks, 4) && r.slots[5 - 1] == Occurs(a.stacks, 5) &&
           r.slots[6 - 1] == Occurs(a.stacks, 6);
  }
}
