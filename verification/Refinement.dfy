/** The process tables refine three stacks of tasks: one lemma per kernel step, then whole runs. */
module Refinement {
  import opened Bytes
  import opened Process

  // ---------------------------------------------------------------- chains and counts

  /** A chain only depends on the control blocks it visits. */
  lemma {:induction false} ChainFrame(pcbs: seq<Pcb>, pcbs': seq<Pcb>, head: int, stack: seq<Task>)
    requires |pcbs| == |pcbs'| == MAX_PROCESSES
    requires IsChain(pcbs, head, stack)
    requires forall n :: 1 <= n <= MAX_PROCESSES && Count(stack, n) > 0 ==> pcbs'[n - 1] == pcbs[n - 1]
    ensures IsChain(pcbs', head, stack)
    decreases |stack|
  {
    if stack != [] {
      assert Count(stack, head) > 0;
      forall n | 1 <= n <= MAX_PROCESSES && Count(stack[1..], n) > 0
        ensures pcbs'[n - 1] == pcbs[n - 1]
      {
        assert Count(stack, n) > 0;
      }
      ChainFrame(pcbs, pcbs', Head(stack[1..]), stack[1..]);
    }
  }

  /** Parent pointers alone determine a chain, so a head names at most one list of processes. */
  lemma {:induction false} ChainUnique(pcbs: seq<Pcb>, head: int, stack: seq<Task>, other: seq<Task>)
    requires |pcbs| == MAX_PROCESSES
    requires IsChain(pcbs, head, stack) && IsChain(pcbs, head, other)
    ensures |stack| == |other| && forall i :: 0 <= i < |stack| ==> stack[i].num == other[i].num
    decreases |stack|
  {
    if stack != [] {
      ChainUnique(pcbs, Head(stack[1..]), stack[1..], other[1..]);
      forall i | 0 <= i < |stack| ensures stack[i].num == other[i].num {
        if i > 0 { assert stack[i] == stack[1..][i - 1] && other[i] == other[1..][i - 1]; }
      }
    }
  }

  /** Every task of a chain is counted under one of the six process numbers. */
  lemma {:induction false} CountTotal(pcbs: seq<Pcb>, head: int, stack: seq<Task>)
    requires |pcbs| == MAX_PROCESSES && IsChain(pcbs, head, stack)
    ensures |stack| == Count(stack, 1) + Count(stack, 2) + Count(stack, 3) + Count(stack, 4) + Count(stack, 5) +
            Count(stack, 6)
    decreases |stack|
  {
    if stack != [] {
      CountTotal(pcbs, Head(stack[1..]), stack[1..]);
    }
  }

  /** The number of processes is the number of occupied slots, so below six there is a free slot. */
  lemma SlotFound(s: State, stacks: seq<seq<Task>>)
    requires Forest(s, stacks)
    ensures Shape(s) && s.processCount == Size(stacks)
    ensures s.processCount == s.slots[0] + s.slots[1] + s.slots[2] + s.slots[3] + s.slots[4] +
            s.slots[5] <= MAX_PROCESSES
    ensures s.processCount < MAX_PROCESSES <==> FirstFree(s.slots, 0) < MAX_PROCESSES
  {
    hide IsChain, Count, Clean, Exact;
    assert IsChain(s.pcbs, s.highest[0], stacks[0]) && IsChain(s.pcbs, s.highest[1], stacks[1]) &&
           IsChain(s.pcbs, s.highest[2], stacks[2]);
    CountTotal(s.pcbs, s.highest[0], stacks[0]);
    CountTotal(s.pcbs, s.highest[1], stacks[1]);
    CountTotal(s.pcbs, s.highest[2], stacks[2]);
    SlotsAreOccurrences(s.slots, stacks);
  }

  lemma SlotsAreOccurrences(slots: seq<int>, stacks: seq<seq<Task>>)
    requires Exact(slots, stacks)
    ensures slots[0] == Occurs(stacks, 1) <= 1 && slots[1] == Occurs(stacks, 2) <= 1 &&
            slots[2] == Occurs(stacks, 3) <= 1
    ensures slots[3] == Occurs(stacks, 4) <= 1 && slots[4] == Occurs(stacks, 5) <= 1 &&
            slots[5] == Occurs(stacks, 6) <= 1
  {
    hide Occurs;
    assert slots[1 - 1] == Occurs(stacks, 1) && slots[2 - 1] == Occurs(stacks, 2) && slots[3 - 1] == Occurs(stacks, 3);
    assert slots[4 - 1] == Occurs(stacks, 4) && slots[5 - 1] == Occurs(stacks, 5) && slots[6 - 1] == Occurs(stacks, 6);
  }

  lemma {:induction false} LeastFreeIsFirstFree(slots: seq<int>, stacks: seq<seq<Task>>, n: nat)
    requires Exact(slots, stacks) && 1 <= n <= MAX_PROCESSES + 1
    ensures LeastFree(stacks, n) == FirstFree(slots, n - 1) + 1
    decreases MAX_PROCESSES + 1 - n
  {
    if n <= MAX_PROCESSES {
      assert slots[n - 1] == Occurs(stacks, n);
      if Occurs(stacks, n) != 0 {
        LeastFreeIsFirstFree(slots, stacks, n + 1);
      }
    }
  }

  // ---------------------------------------------------------------- pushing a task

  lemma PushOccurs(stacks: seq<seq<Task>>, t: int, task: Task, n: int)
    requires |stacks| == 3 && 0 <= t < 3
    ensures Occurs(stacks[t := [task] + stacks[t]], n) == Occurs(stacks, n) + if n == task.num then 1 else 0
  {
    assert ([task] + stacks[t])[1..] == stacks[t];
  }

  lemma PushChains(pcbs: seq<Pcb>, pcb: Pcb, highest: seq<int>, stacks: seq<seq<Task>>, t: int, task: Task)
    requires Chains(pcbs, highest, stacks) && 0 <= t < 3
    requires Represents(pcb, task) && Occurs(stacks, task.num) == 0
    requires pcb.parentTask == PointerTo(highest[t])
    ensures Chains(pcbs[task.num - 1 := pcb], highest[t := task.num], stacks[t := [task] + stacks[t]])
  {
    var pcbs' := pcbs[task.num - 1 := pcb];
    var stack := [task] + stacks[t];
    assert stack[1..] == stacks[t];
    forall u | 0 <= u < 3
      ensures IsChain(pcbs', highest[u], stacks[u])
    {
      assert Count(stacks[u], task.num) == 0;
      ChainFrame(pcbs, pcbs', highest[u], stacks[u]);
    }
    assert IsChain(pcbs', highest[t], stacks[t]);
    assert IsChain(pcbs', task.num, stack);
  }

  lemma PushExact(slots: seq<int>, stacks: seq<seq<Task>>, t: int, task: Task)
    requires Exact(slots, stacks) && 0 <= t < 3
    requires 1 <= task.num <= MAX_PROCESSES && Occurs(stacks, task.num) == 0
    ensures Exact(slots[task.num - 1 := 1], stacks[t := [task] + stacks[t]])
  {
    var stacks' := stacks[t := [task] + stacks[t]];
    forall n | 1 <= n <= MAX_PROCESSES
      ensures slots[task.num - 1 := 1][n - 1] == Occurs(stacks', n) <= 1
    {
      PushOccurs(stacks, t, task, n);
    }
  }

  lemma PushClean(pcbs: seq<Pcb>, pcb: Pcb, stacks: seq<seq<Task>>, t: int, task: Task)
    requires Clean(pcbs, stacks) && 0 <= t < 3 && 1 <= task.num <= MAX_PROCESSES
    ensures Clean(pcbs[task.num - 1 := pcb], stacks[t := [task] + stacks[t]])
  {
    var stacks' := stacks[t := [task] + stacks[t]];
    forall n | 1 <= n <= MAX_PROCESSES && Occurs(stacks', n) == 0
      ensures pcbs[task.num - 1 := pcb][n - 1].args == Fill(MAX_ARGS, NUL)
    {
      PushOccurs(stacks, t, task, n);
    }
  }

  /** A tail copied over zeroed argument bytes is followed by zeros. */
  lemma OverlayZeros(tail: seq<byte>)
    requires |tail| <= MAX_ARGS
    ensures Overlay(Fill(MAX_ARGS, NUL), tail) == tail + Fill(MAX_ARGS - |tail|, NUL)
  {
    assert Fill(MAX_ARGS, NUL)[|tail|..] == Fill(MAX_ARGS - |tail|, NUL);
  }

  /** execute's table updates push a task on the shown terminal's stack. */
  lemma SpawnPushes(s: State, stacks: seq<seq<Task>>, command: seq<byte>, frame: int)
    requires Forest(s, stacks) && FirstFree(s.slots, 0) < MAX_PROCESSES
    requires |ArgTail(command)| < MAX_ARGS && NulFree(command)
    ensures Forest(Spawn(s, command, frame), Push(stacks, s.currTerminal, command, frame))
    ensures Push(stacks, s.currTerminal, command, frame)[s.currTerminal - 1][0].num == FirstFree(s.slots, 0) + 1
  {
    hide IsChain, FirstFree, LeastFree, ArgTail, Fill;
    SkipKeepsNulFree(command);
    var s' := Spawn(s, command, frame);
    var t := s.currTerminal - 1;
    LeastFreeIsFirstFree(s.slots, stacks, 1);
    var num := LeastFree(stacks, 1);
    var task := Task(num, frame, None, ArgTail(command));
    assert s.slots[num - 1] == Occurs(stacks, num) == 0;
    OverlayZeros(ArgTail(command));
    PushChains(s.pcbs, s'.pcbs[num - 1], s.highest, stacks, t, task);
    PushExact(s.slots, stacks, t, task);
    PushClean(s.pcbs, s'.pcbs[num - 1], stacks, t, task);
  }

  // ---------------------------------------------------------------- popping and saving

  lemma PopOccurs(stacks: seq<seq<Task>>, t: int, n: int)
    requires |stacks| == 3 && 0 <= t < 3 && stacks[t] != []
    ensures Occurs(stacks[t := stacks[t][1..]], n) == Occurs(stacks, n) - if n == stacks[t][0].num then 1 else 0
  {
  }

  lemma PopChains(pcbs: seq<Pcb>, pcb: Pcb, highest: seq<int>, stacks: seq<seq<Task>>, t: int)
    requires Chains(pcbs, highest, stacks) && 0 <= t < 3 && stacks[t] != []
    requires Occurs(stacks, highest[t]) <= 1
    ensures IsChain(pcbs, highest[t], stacks[t])
    ensures Chains(pcbs[highest[t] - 1 := pcb], highest[t := Head(stacks[t][1..])], stacks[t := stacks[t][1..]])
  {
    hide Represents;
    var p := highest[t];
    assert IsChain(pcbs, p, stacks[t]);
    PopOccurs(stacks, t, p);
    var highest' := highest[t := Head(stacks[t][1..])];
    var stacks' := stacks[t := stacks[t][1..]];
    forall u | 0 <= u < 3
      ensures IsChain(pcbs[p - 1 := pcb], highest'[u], stacks'[u])
    {
      assert IsChain(pcbs, highest[u], stacks[u]);
      assert Count(stacks'[u], p) == 0;
      ChainFrame(pcbs, pcbs[p - 1 := pcb], highest'[u], stacks'[u]);
    }
  }

  lemma PopExact(slots: seq<int>, stacks: seq<seq<Task>>, t: int)
    requires Exact(slots, stacks) && 0 <= t < 3 && stacks[t] != [] && 1 <= stacks[t][0].num <= MAX_PROCESSES
    ensures Exact(slots[stacks[t][0].num - 1 := 0], stacks[t := stacks[t][1..]])
  {
    var p := stacks[t][0].num;
    assert slots[p - 1] == Occurs(stacks, p) <= 1;
    PopOccurs(stacks, t, p);
    var stacks' := stacks[t := stacks[t][1..]];
    forall n | 1 <= n <= MAX_PROCESSES
      ensures slots[p - 1 := 0][n - 1] == Occurs(stacks', n) <= 1
    {
      PopOccurs(stacks, t, n);
    }
  }

  lemma PopClean(pcbs: seq<Pcb>, pcb: Pcb, stacks: seq<seq<Task>>, t: int)
    requires Clean(pcbs, stacks) && 0 <= t < 3 && stacks[t] != [] && 1 <= stacks[t][0].num <= MAX_PROCESSES
    requires pcb.args == Fill(MAX_ARGS, NUL)
    ensures Clean(pcbs[stacks[t][0].num - 1 := pcb], stacks[t := stacks[t][1..]])
  {
    var p := stacks[t][0].num;
    var stacks' := stacks[t := stacks[t][1..]];
    forall n | 1 <= n <= MAX_PROCESSES && Occurs(stacks', n) == 0
      ensures pcbs[p - 1 := pcb][n - 1].args == Fill(MAX_ARGS, NUL)
    {
      PopOccurs(stacks, t, n);
    }
  }

  /** halt's table updates pop the running terminal's stack. */
  lemma ReapPops(s: State, stacks: seq<seq<Task>>)
    requires Forest(s, stacks) && stacks[s.currScheduled - 1] != []
    ensures CanHalt(s)
    ensures var t := s.currScheduled - 1;
            Forest(Reap(s).(highest := s.highest[t := Head(stacks[t][1..])]), Pop(stacks, t + 1))
  {
    hide IsChain, Represents, Occurs, Chains, Exact, Clean, Head, SlotOf;
    var t := s.currScheduled - 1;
    var p := s.highest[t];
    TopSlot(s, stacks, t);
    var s' := Reap(s);
    PopChains(s.pcbs, s'.pcbs[p - 1], s.highest, stacks, t);
    PopExact(s.slots, stacks, t);
    PopClean(s.pcbs, s'.pcbs[p - 1], stacks, t);
  }

  /** The head of a non-empty chain: its slot is taken once, and its parent pointer names the task below. */
  lemma TopSlot(s: State, stacks: seq<seq<Task>>, t: int)
    requires Forest(s, stacks) && 0 <= t < 3 && stacks[t] != []
    ensures var p := s.highest[t]; var below := stacks[t][1..];
            && p == stacks[t][0].num && 1 <= p <= MAX_PROCESSES && Occurs(stacks, p) == 1
            && Represents(s.pcbs[p - 1], stacks[t][0])
            && s.pcbs[p - 1].parentTask == PointerTo(Head(below))
            && (if below == [] then s.pcbs[p - 1].parentTask == 0
               else 0 <= SlotOf(s.pcbs[p - 1].parentTask) < MAX_PROCESSES)
    ensures |stacks| == 3 && Shape(s)
  {
    var p := s.highest[t];
    assert IsChain(s.pcbs, p, stacks[t]);
    assert IsChain(s.pcbs, Head(stacks[t][1..]), stacks[t][1..]);
    hide Represents;
    assert s.slots[p - 1] == Occurs(stacks, p) <= 1;
    assert Count(stacks[t], p) > 0;
  }

  lemma SaveChains(pcbs: seq<Pcb>, highest: seq<int>, stacks: seq<seq<Task>>, t: int, frame: int)
    requires Chains(pcbs, highest, stacks) && 0 <= t < 3 && stacks[t] != []
    requires Occurs(stacks, highest[t]) <= 1
    ensures IsChain(pcbs, highest[t], stacks[t])
    ensures Chains(pcbs[highest[t] - 1 := pcbs[highest[t] - 1].(ebpScheduler := frame)], highest,
            Save(stacks, t + 1, frame))
  {
    var p := highest[t];
    assert IsChain(pcbs, p, stacks[t]);
    var pcb := pcbs[p - 1].(ebpScheduler := frame);
    var task := stacks[t][0].(saved := Some(frame));
    var popped := stacks[t := stacks[t][1..]];
    PopOccurs(stacks, t, p);
    PopChains(pcbs, pcb, highest, stacks, t);
    var pcbs' := pcbs[p - 1 := pcb];
    PushChains(pcbs', pcb, highest[t := Head(stacks[t][1..])], popped, t, task);
    assert pcbs'[p - 1 := pcb] == pcbs';
    assert highest[t := Head(stacks[t][1..])][t := p] == highest;
    assert popped[t := [task] + popped[t]] == Save(stacks, t + 1, frame);
  }

  lemma SaveOccurs(stacks: seq<seq<Task>>, t: int, frame: int, n: int)
    requires |stacks| == 3 && 0 <= t < 3 && stacks[t] != []
    ensures Occurs(Save(stacks, t + 1, frame), n) == Occurs(stacks, n)
  {
    var top := stacks[t][0].(saved := Some(frame));
    assert ([top] + stacks[t][1..])[1..] == stacks[t][1..];
  }

  /** Saving a frame in the running control block changes only the running top task. */
  lemma SaveForest(s: State, stacks: seq<seq<Task>>, frame: int)
    requires Forest(s, stacks) && stacks[s.currScheduled - 1] != []
    requires s.tssEsp0 == StackTop(stacks[s.currScheduled - 1][0].num)
    ensures var p := s.highest[s.currScheduled - 1] - 1;
            0 <= p < MAX_PROCESSES &&
            Forest(s.(pcbs := s.pcbs[p := s.pcbs[p].(esp0 := s.tssEsp0, ebpScheduler := frame)]),
                   Save(stacks, s.currScheduled, frame))
  {
    hide IsChain, Represents, Occurs, Chains, Exact, Clean, Counted, Save, SlotOf, Head;
    var t := s.currScheduled - 1;
    var p := s.highest[t];
    TopSlot(s, stacks, t);
    StackOfTop(s.pcbs[p - 1], stacks[t][0]);
    assert s.pcbs[p - 1].(esp0 := s.tssEsp0, ebpScheduler := frame) == s.pcbs[p - 1].(ebpScheduler := frame);
    SaveCounts(s.perTerminal, s.processCount, stacks, t, frame);
    SaveChains(s.pcbs, s.highest, stacks, t, frame);
    SaveExact(s.slots, stacks, t, frame);
    SaveClean(s.pcbs, stacks, t, frame, p);
  }

  /** What a control block says about the task it holds. */
  lemma StackOfTop(pcb: Pcb, task: Task)
    requires Represents(pcb, task)
    ensures pcb.processNum == task.num && pcb.esp0 == StackTop(task.num) && pcb.frame == task.frame
    ensures task.saved.Some? ==> pcb.ebpScheduler == task.saved.value
  {
  }

  lemma SaveCounts(perTerminal: seq<int>, processCount: int, stacks: seq<seq<Task>>, t: int, frame: int)
    requires Counted(perTerminal, processCount, stacks) && 0 <= t < 3 && stacks[t] != []
    ensures Counted(perTerminal, processCount, Save(stacks, t + 1, frame))
  {
  }

  lemma SaveExact(slots: seq<int>, stacks: seq<seq<Task>>, t: int, frame: int)
    requires Exact(slots, stacks) && 0 <= t < 3 && stacks[t] != []
    ensures Exact(slots, Save(stacks, t + 1, frame))
  {
    hide Occurs, Save;
    var saved := Save(stacks, t + 1, frame);
    forall n | 1 <= n <= MAX_PROCESSES ensures slots[n - 1] == Occurs(saved, n) <= 1 {
      SaveOccurs(stacks, t, frame, n);
      assert slots[n - 1] == Occurs(stacks, n) <= 1;
    }
  }

  lemma SaveClean(pcbs: seq<Pcb>, stacks: seq<seq<Task>>, t: int, frame: int, p: int)
    requires Clean(pcbs, stacks) && 0 <= t < 3 && stacks[t] != [] && 1 <= p <= MAX_PROCESSES
    ensures Clean(pcbs[p - 1 := pcbs[p - 1].(ebpScheduler := frame)], Save(stacks, t + 1, frame))
  {
    hide Occurs, Save;
    var saved := Save(stacks, t + 1, frame);
    forall n | 1 <= n <= MAX_PROCESSES && Occurs(saved, n) == 0
      ensures pcbs[p - 1 := pcbs[p - 1].(ebpScheduler := frame)][n - 1].args == Fill(MAX_ARGS, NUL)
    {
      SaveOccurs(stacks, t, frame, n);
      assert Occurs(stacks, n) == 0;
    }
  }

  // ---------------------------------------------------------------- one kernel step

  /** The running chain head is the top of the running stack. */
  lemma HeadIsTop(s: State, a: Terminals, t: int)
    requires Inv(s, a) && 0 <= t < 3
    ensures s.highest[t] == Head(a.stacks[t])
    ensures a.stacks[t] != [] ==>
            1 <= s.highest[t] <= MAX_PROCESSES && Represents(s.pcbs[s.highest[t] - 1], a.stacks[t][0])
  {
    assert IsChain(s.pcbs, s.highest[t], a.stacks[t]);
  }

  lemma StepDefined(s: State, a: Terminals, loads: Loader, e: Event)
    requires Inv(s, a) && Allowed(a, loads, e)
    ensures CanStep(s, e)
  {
    SlotFound(s, a.stacks);
    HeadIsTop(s, a, a.running - 1);
    HeadIsTop(s, a, a.running % 3);
    if e.Halt? {
      ReapPops(s, a.stacks);
    }
  }

  /** A process started on the terminal that runs and is shown takes the invariant over. */
  lemma SpawnInv(s: State, stacks: seq<seq<Task>>, a: Terminals, command: seq<byte>, frame: int)
    requires Forest(s, stacks) && FirstFree(s.slots, 0) < MAX_PROCESSES
    requires |ArgTail(command)| < MAX_ARGS && NulFree(command)
    requires AShape(a) && a.total >= 1 && Resumable(a) && a.stacks == Push(stacks, a.running, command, frame)
    requires s.currScheduled == s.currTerminal == a.running == a.shown && s.switchFlag == a.pending &&
             s.totalTerminal == a.total
    ensures Inv(Spawn(s, command, frame), a)
  {
    hide Forest, AShape, Resumable, Push, FirstFree, ArgTail, Pde, StackTop;
    SpawnPushes(s, stacks, command, frame);
    ShapeNow(a);
  }

  lemma ShapeNow(a: Terminals)
    requires AShape(a)
    ensures |a.stacks| == 3 && 1 <= a.running <= 3 && 1 <= a.shown <= 3 &&
            (a.total >= 1 ==> a.stacks[a.running - 1] != [])
  {
  }

  lemma ExecuteRefines(s: State, a: Terminals, loads: Loader, command: Command, frame: int)
    requires Inv(s, a) && Allowed(a, loads, Exec(command, frame))
    ensures CanExecute(s, command)
    ensures Inv(ExecuteStep(s, loads, command, frame), AStep(a, loads, Exec(command, frame)))
  {
    hide Forest, Push, FirstFree, ArgTail, Spawn, Resumable, NulFree;
    SlotFound(s, a.stacks);
    if Accepted(s.processCount, loads, command) {
      PushResumes(a, command.text, frame);
      SpawnInv(s, a.stacks, AStep(a, loads, Exec(command, frame)), command.text, frame);
    }
  }

  lemma PushResumes(a: Terminals, command: seq<byte>, frame: int)
    requires AShape(a) && Resumable(a) && a.total >= 1
    ensures var r := a.(stacks := Push(a.stacks, a.running, command, frame)); AShape(r) && Resumable(r)
  {
    hide LeastFree, ArgTail;
  }

  lemma SkipKeepsNulFree(command: seq<byte>)
    requires NulFree(command)
    ensures NulFree(ArgTail(command))
  {
  }

  /** Forest looks at the tables only. */
  lemma ForestFrame(s: State, s': State, stacks: seq<seq<Task>>)
    requires Forest(s, stacks) && Shape(s')
    requires s'.pcbs == s.pcbs && s'.highest == s.highest && s'.slots == s.slots
    requires s'.perTerminal == s.perTerminal && s'.processCount == s.processCount
    ensures Forest(s', stacks)
  {
  }

  lemma HaltRefines(s: State, a: Terminals, loads: Loader, frame: int)
    requires Inv(s, a) && Allowed(a, loads, Halt(frame))
    ensures CanHalt(s)
    ensures Inv(HaltStep(s, loads, frame), AStep(a, loads, Halt(frame)))
    ensures |a.stacks[a.running - 1]| > 1 ==> HaltStep(s, loads, frame).ebp == Current(a).frame
  {
    hide Forest;
    ReapPops(s, a.stacks);
    if |a.stacks[a.running - 1]| > 1 {
      HaltToParent(s, a, loads, frame);
    } else {
      HaltRoot(s, a, loads, frame);
    }
  }

  /** What halt reads in the block of the running process and in its parent's block. */
  lemma ParentOfTop(s: State, a: Terminals)
    requires Inv(s, a) && a.total >= 1
    ensures var below := a.stacks[a.running - 1][1..];
            var pcb := s.pcbs[Current(a).num - 1];
            && 1 <= Current(a).num <= MAX_PROCESSES && s.highest[a.running - 1] == Current(a).num
            && pcb.frame == Current(a).frame
            && pcb.parentTask == PointerTo(Head(below))
            && (below == [] ==> pcb.parentTask == 0)
            && (below != [] ==>
                  && pcb.parentTask != 0 && SlotOf(pcb.parentTask) == Head(below) - 1
                  && 1 <= Head(below) <= MAX_PROCESSES && Represents(s.pcbs[Head(below) - 1], below[0]))
  {
    var t := a.running - 1;
    var below := a.stacks[t][1..];
    assert IsChain(s.pcbs, s.highest[t], a.stacks[t]);
    assert IsChain(s.pcbs, Head(below), below);
  }

  /** halt of a child: the parent's page, stack and execute frame come back. */
  lemma HaltToParent(s: State, a: Terminals, loads: Loader, frame: int)
    requires Inv(s, a) && Allowed(a, loads, Halt(frame)) && CanHalt(s) && |a.stacks[a.running - 1]| > 1
    ensures Inv(HaltStep(s, loads, frame), AStep(a, loads, Halt(frame)))
    ensures HaltStep(s, loads, frame).ebp == Current(a).frame
  {
    hide Forest, Allowed, HaltStep, CanHalt, IsChain, Represents, AStep, Pop, Pde, StackTop, SlotOf, Resumable;
    var t := a.running - 1;
    ReapPops(s, a.stacks);
    SlotFound(s, a.stacks);
    ParentOfTop(s, a);
    var below := a.stacks[t][1..];
    StackOfTop(s.pcbs[Head(below) - 1], below[0]);
    ChildTables(s, loads, frame);
    ForestFrame(Reap(s).(highest := s.highest[t := Head(below)]), HaltStep(s, loads, frame), Pop(a.stacks, t + 1));
    HaltPopsTask(a, loads, frame);
  }

  lemma HaltPopsTask(a: Terminals, loads: Loader, frame: int)
    requires AShape(a) && Allowed(a, loads, Halt(frame)) && Resumable(a)
    ensures var popped := Pop(a.stacks, a.running); var r := AStep(a, loads, Halt(frame));
            && r == a.(stacks := if |a.stacks[a.running - 1]| > 1 then popped
               else Push(popped, a.running, SHELL, frame))
            && Resumable(r) && loads(SHELL) && a.total >= 1
            && (|a.stacks[a.running - 1]| > 1 ==> r.stacks[a.running - 1] == a.stacks[a.running - 1][1..])
            && (|a.stacks[a.running - 1]| == 1 ==> a.running == a.shown)
  {
    hide LeastFree;
  }

  /** The tables after the halt of a child. */
  lemma ChildTables(s: State, loads: Loader, frame: int)
    requires CanHalt(s) && s.pcbs[s.highest[s.currScheduled - 1] - 1].parentTask != 0
    ensures var pcb := s.pcbs[s.highest[s.currScheduled - 1] - 1]; var parent := s.pcbs[SlotOf(pcb.parentTask)];
            HaltStep(s, loads, frame) ==
            Reap(s).(pageDir32 := Pde(parent.processNum),
              highest := s.highest[s.currScheduled - 1 := parent.processNum],
                     tssEsp0 := parent.esp0, ebp := pcb.frame)
  {
    hide Pde, SlotOf;
  }

  /** halt of a root shell: a fresh shell takes its place. */
  lemma HaltRoot(s: State, a: Terminals, loads: Loader, frame: int)
    requires Inv(s, a) && Allowed(a, loads, Halt(frame)) && CanHalt(s) && |a.stacks[a.running - 1]| == 1
    ensures Inv(HaltStep(s, loads, frame), AStep(a, loads, Halt(frame)))
  {
    hide Forest, Allowed, HaltStep, CanHalt, IsChain, Represents, AStep, Pop, Push, Reap, FirstFree, ArgTail, Spawn,
         NulFree, Resumable;
    ReapPops(s, a.stacks);
    HaltPopsTask(a, loads, frame);
    RootTables(s, a, loads, frame);
    SpawnInv(Detached(s), Pop(a.stacks, a.running), AStep(a, loads, Halt(frame)), SHELL, frame);
  }

  /** The tables after the halt of a root shell: the detached chain gets a new shell. */
  lemma RootTables(s: State, a: Terminals, loads: Loader, frame: int)
    requires Inv(s, a) && CanHalt(s) && a.total >= 1 && |a.stacks[a.running - 1]| == 1 && a.running == a.shown &&
             loads(SHELL)
    ensures HaltStep(s, loads, frame) == Spawn(Detached(s), SHELL, frame)
    ensures Detached(s) == Reap(s).(highest := s.highest[a.running - 1 := Head(a.stacks[a.running - 1][1..])])
    ensures FirstFree(Detached(s).slots, 0) < MAX_PROCESSES && |ArgTail(SHELL)| < MAX_ARGS && NulFree(SHELL)
    ensures Detached(s).currScheduled == s.currScheduled && Detached(s).currTerminal == s.currTerminal
    ensures Detached(s).switchFlag == s.switchFlag && Detached(s).totalTerminal == s.totalTerminal
  {
    hide Forest, Spawn, IsChain, HaltStep;
    ShellHasNoTail();
    SlotFound(s, a.stacks);
    ParentOfTop(s, a);
    HaltRootExecutes(s, loads, frame);
  }

  lemma TickRefines(s: State, a: Terminals, loads: Loader, frame: int)
    requires Inv(s, a) && Allowed(a, loads, Tick(frame))
    ensures CanTick(s)
    ensures Inv(TickStep(s, loads, frame), AStep(a, loads, Tick(frame)))
  {
    hide Forest;
    StepDefined(s, a, loads, Tick(frame));
    if a.total == 0 {
      BootFirst(s, a, loads, frame);
    } else if a.total < 3 {
      BootNext(s, a, loads, frame);
    } else if a.total == 4 {
      SwitchContext(s, a, loads, frame);
    } else {
      SlotFound(s, a.stacks);
      ForestFrame(s, TickStep(s, loads, frame), a.stacks);
    }
  }

  lemma BootFirst(s: State, a: Terminals, loads: Loader, frame: int)
    requires Inv(s, a) && Allowed(a, loads, Tick(frame)) && CanTick(s) && a.total == 0
    ensures Inv(TickStep(s, loads, frame), AStep(a, loads, Tick(frame)))
  {
    hide Forest, Allowed, AStep, Push, TickStep, CanTick, FirstFree, ArgTail, Spawn, NulFree, Screen, Resumable;
    SlotFound(s, a.stacks);
    BootStep(a, loads, frame);
    var s2 := Remap(s).(totalTerminal := 1, ebp := frame);
    ForestFrame(s, s2, a.stacks);
    FirstTables(s, loads, frame, s2);
    SpawnInv(s2, a.stacks, AStep(a, loads, Tick(frame)), SHELL, frame);
  }

  /** The abstract boot tick. */
  lemma BootStep(a: Terminals, loads: Loader, frame: int)
    requires AShape(a) && Allowed(a, loads, Tick(frame)) && a.total < 3 && Resumable(a)
    ensures var n := a.total + 1; var r := AStep(a, loads, Tick(frame));
            && r == a.(stacks := Push(if n == 1 then a.stacks else Save(a.stacks, a.running, frame), n, SHELL, frame),
                       running := n, shown := n, total := n)
            && Resumable(r) && loads(SHELL) && Size(a.stacks) < MAX_PROCESSES
  {
    hide LeastFree;
  }

  lemma FirstTables(s: State, loads: Loader, frame: int, s2: State)
    requires CanTick(s) && s.totalTerminal == 0 && loads(SHELL) && s.processCount < MAX_PROCESSES
    requires s2 == Remap(s).(totalTerminal := 1, ebp := frame)
    ensures FirstFree(s2.slots, 0) < MAX_PROCESSES && |ArgTail(SHELL)| < MAX_ARGS && NulFree(SHELL)
    ensures TickStep(s, loads, frame) == Spawn(s2, SHELL, frame)
  {
    hide Pde, FirstFree, Spawn, Screen;
    ShellHasNoTail();
  }

  lemma BootNext(s: State, a: Terminals, loads: Loader, frame: int)
    requires Inv(s, a) && Allowed(a, loads, Tick(frame)) && CanTick(s) && 1 <= a.total < 3
    ensures Inv(TickStep(s, loads, frame), AStep(a, loads, Tick(frame)))
  {
    hide Forest, Allowed, AStep, Push, Save, TickStep, CanTick, FirstFree, ArgTail, Spawn, NulFree, Screen,
         Represents, StackTop, Pde, Resumable;
    SlotFound(s, a.stacks);
    HeadIsTop(s, a, a.running - 1);
    SaveForest(s, a.stacks, frame);
    BootStep(a, loads, frame);
    var p := s.highest[a.running - 1] - 1;
    var n := a.total + 1;
    var pcbs := s.pcbs[p := s.pcbs[p].(esp0 := s.tssEsp0, ebpScheduler := frame)];
    var s2 := Remap(s).(totalTerminal := n, currTerminal := n, currScheduled := n, ebp := frame, pcbs := pcbs);
    var saved := Save(a.stacks, a.running, frame);
    ForestFrame(s.(pcbs := pcbs), s2, saved);
    NextTables(s, loads, frame, s2);
    SpawnInv(s2, saved, AStep(a, loads, Tick(frame)), SHELL, frame);
  }

  lemma NextTables(s: State, loads: Loader, frame: int, s2: State)
    requires CanTick(s) && 1 <= s.totalTerminal < 3 && loads(SHELL) && s.processCount < MAX_PROCESSES
    requires s.currScheduled == s.totalTerminal
    requires var p := s.highest[s.currScheduled - 1] - 1; var n := s.totalTerminal + 1;
             s2 == Remap(s).(totalTerminal := n, currTerminal := n, currScheduled := n, ebp := frame,
                             pcbs := s.pcbs[p := s.pcbs[p].(esp0 := s.tssEsp0, ebpScheduler := frame)])
    ensures FirstFree(s2.slots, 0) < MAX_PROCESSES && |ArgTail(SHELL)| < MAX_ARGS && NulFree(SHELL)
    ensures TickStep(s, loads, frame) == Spawn(s2, SHELL, frame)
  {
    hide Pde, FirstFree, Spawn, Screen;
    ShellHasNoTail();
  }

  /** A tick after boot: save the running top, switch to the next terminal's top and resume its saved frame. */
  lemma SwitchContext(s: State, a: Terminals, loads: Loader, frame: int)
    requires Inv(s, a) && Allowed(a, loads, Tick(frame)) && CanTick(s) && a.total == 4
    ensures Inv(TickStep(s, loads, frame), AStep(a, loads, Tick(frame)))
    ensures Mapped(TickStep(s, loads, frame))
    ensures a.stacks[a.running % 3][0].saved == Some(TickStep(s, loads, frame).ebp)
  {
    hide Forest, Allowed, AStep, Save, TickStep, CanTick, Screen, Represents, StackTop, Pde, Resumable;
    var next := a.running % 3 + 1;
    SlotFound(s, a.stacks);
    HeadIsTop(s, a, a.running - 1);
    HeadIsTop(s, a, next - 1);
    TopsDiffer(s, a, a.running - 1, next - 1);
    SaveForest(s, a.stacks, frame);
    var p, q := s.highest[a.running - 1], s.highest[next - 1];
    StackOfTop(s.pcbs[q - 1], a.stacks[next - 1][0]);
    SwitchTables(s, loads, frame);
    ForestFrame(s.(pcbs := s.pcbs[p - 1 := s.pcbs[p - 1].(esp0 := s.tssEsp0, ebpScheduler := frame)]),
                TickStep(s, loads, frame), Save(a.stacks, a.running, frame));
    SavedResumes(a, loads, frame);
  }

  /** The tables after the switch between two different processes. */
  lemma SwitchTables(s: State, loads: Loader, frame: int)
    requires CanTick(s) && s.totalTerminal == 4 && s.highest[s.currScheduled - 1] != s.highest[s.currScheduled % 3]
    ensures var p, q := s.highest[s.currScheduled - 1], s.highest[s.currScheduled % 3];
            var s' := TickStep(s, loads, frame);
            && s'.pcbs == s.pcbs[p - 1 := s.pcbs[p - 1].(esp0 := s.tssEsp0, ebpScheduler := frame)]
            && s'.highest == s.highest && s'.slots == s.slots && s'.perTerminal == s.perTerminal &&
               s'.processCount == s.processCount
            && s'.pageDir32 == Pde(q) && s'.tssEsp0 == s.pcbs[q - 1].esp0 && s'.ebp == s.pcbs[q - 1].ebpScheduler
            && s'.currScheduled == s.currScheduled % 3 + 1 && s'.totalTerminal == 4 && s'.switchFlag == 0
            && s'.currTerminal == (if s.switchFlag != 0 then s.switchFlag else s.currTerminal)
            && s'.videoMem == Screen(s'.currScheduled, s'.currTerminal) && s'.vidPage == s'.videoMem + VID_PAGE
            && Shape(s')
  {
    hide Pde, Screen, FirstFree, ArgTail;
  }

  /** After the save and the move on, every other terminal has a saved frame. */
  lemma SavedResumes(a: Terminals, loads: Loader, frame: int)
    requires AShape(a) && a.total == 4 && Allowed(a, loads, Tick(frame)) && Resumable(a)
    ensures var r := AStep(a, loads, Tick(frame));
            && r == a.(stacks := Save(a.stacks, a.running, frame), running := a.running % 3 + 1,
                       shown := if a.pending != 0 then a.pending else a.shown, pending := 0)
            && Resumable(r) && Current(r).num == a.stacks[a.running % 3][0].num
    ensures a.stacks[a.running % 3][0].saved.Some?
  {
  }

  lemma TopsDiffer(s: State, a: Terminals, t: int, u: int)
    requires Inv(s, a) && 0 <= t < 3 && 0 <= u < 3 && t != u && a.stacks[t] != [] && a.stacks[u] != []
    ensures s.highest[t] != s.highest[u]
  {
    HeadIsTop(s, a, t);
    HeadIsTop(s, a, u);
    var p := s.highest[t];
    assert s.slots[p - 1] == Occurs(a.stacks, p) <= 1;
    assert Count(a.stacks[t], p) > 0;
    if s.highest[u] == p {
      assert Count(a.stacks[u], p) > 0;
    }
  }

  lemma StepRefines(s: State, a: Terminals, loads: Loader, e: Event)
    requires Inv(s, a) && Allowed(a, loads, e)
    ensures CanStep(s, e) && Inv(Step(s, loads, e), AStep(a, loads, e))
  {
    hide Forest;
    StepDefined(s, a, loads, e);
    SlotFound(s, a.stacks);
    match e
    case Tick(frame) => TickRefines(s, a, loads, frame);
    case Request(_) => ForestFrame(s, Step(s, loads, e), a.stacks);
    case Exec(command, frame) => ExecuteRefines(s, a, loads, command, frame);
    case Halt(frame) => HaltRefines(s, a, loads, frame);
    case Vidmap(_) => ForestFrame(s, Step(s, loads, e), a.stacks);
  }
}
