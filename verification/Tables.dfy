/**
 When the process tables alone survive.  A command that the running process executes while another terminal is shown
 leaves the processor in the wrong page and on the wrong kernel stack, but the tables still hold three stacks.
 */
module Tables {
  import opened Bytes
  import opened Process
  import opened Refinement
  import opened Runs

  // ---------------------------------------------------------------- execute

  lemma HoldsFrame(s: State, s': State, stacks: seq<seq<Task>>)
    requires Holds(s, stacks) && Shape(s')
    requires s'.pcbs == s.pcbs && s'.highest == s.highest && s'.slots == s.slots
    requires s'.perTerminal == s.perTerminal && s'.processCount == s.processCount
    ensures Holds(s', stacks)
  {
    hide Forest;
    ForestFrame(Restacked(s), Restacked(s'), stacks);
  }

  lemma SpawnRestacks(s: State, command: seq<byte>, frame: int)
    requires Shape(s) && FirstFree(s.slots, 0) < MAX_PROCESSES && |ArgTail(command)| <= MAX_ARGS
    ensures Shape(Restacked(s)) && Restacked(Spawn(s, command, frame)) == Spawn(Restacked(s), command, frame)
  {
    hide FirstFree, ArgTail, Overlay, Pde, PointerTo;
    assert Restacked(Spawn(s, command, frame)).pcbs == Spawn(Restacked(s), command, frame).pcbs;
  }

  /** Whichever terminal is shown, an accepted execute pushes one task on its stack. */
  lemma SpawnHolds(s: State, stacks: seq<seq<Task>>, command: seq<byte>, frame: int)
    requires Holds(s, stacks) && FirstFree(s.slots, 0) < MAX_PROCESSES
    requires |ArgTail(command)| < MAX_ARGS && NulFree(command)
    ensures Shape(s) && Holds(Spawn(s, command, frame), Push(stacks, s.currTerminal, command, frame))
  {
    hide Forest, FirstFree, ArgTail, NulFree, Spawn, Push, RestackAll;
    HoldsThree(s, stacks);
    SpawnRestacks(s, command, frame);
    SpawnPushes(Restacked(s), stacks, command, frame);
  }

  /** execute keeps the tables always: it pushes on the shown terminal's stack if it is accepted, and changes no stack
      otherwise. */
  lemma ExecuteKeepsTables(s: State, stacks: seq<seq<Task>>, loads: Loader, command: Command, frame: int)
    requires Holds(s, stacks)
    requires command.Text? ==> |ArgTail(command.text)| < MAX_ARGS && NulFree(command.text)
    ensures CanExecute(s, command) && |stacks| == 3
    ensures var pushed := Accepted(s.processCount, loads, command);
            Holds(ExecuteStep(s, loads, command, frame),
                  if pushed then Push(stacks, s.currTerminal, command.text, frame) else stacks)
    ensures ExactForest(ExecuteStep(s, loads, command, frame))
  {
    hide Holds, FirstFree, ArgTail, NulFree, Spawn, Push, ExactForest;
    HoldsThree(s, stacks);
    HoldsCounts(s, stacks);
    if Accepted(s.processCount, loads, command) {
      SpawnHolds(s, stacks, command.text, frame);
      HoldsIsExactForest(Spawn(s, command.text, frame), Push(stacks, s.currTerminal, command.text, frame));
    } else {
      HoldsIsExactForest(s, stacks);
    }
  }

  // ---------------------------------------------------------------- halt

  /** The head of a non-empty chain, in tables that hold the stacks. */
  lemma TopHolds(s: State, stacks: seq<seq<Task>>, t: int)
    requires Holds(s, stacks) && 0 <= t < 3 && |stacks| == 3 && stacks[t] != []
    ensures Shape(s) && s.highest[t] == stacks[t][0].num && 1 <= s.highest[t] <= MAX_PROCESSES
    ensures var parent := s.pcbs[s.highest[t] - 1].parentTask; var below := Head(stacks[t][1..]);
            if |stacks[t]| == 1 then parent == 0
            else parent != 0 && SlotOf(parent) == below - 1 && 1 <= below <= MAX_PROCESSES &&
                   s.pcbs[below - 1].processNum == below
  {
    hide Exact, Clean, Counted;
    assert IsChain(RestackAll(s.pcbs), s.highest[t], stacks[t]);
    assert IsChain(RestackAll(s.pcbs), Head(stacks[t][1..]), stacks[t][1..]);
  }

  lemma ReapRestacks(s: State, highest: seq<int>)
    requires CanHalt(s) && CanHalt(Restacked(s))
    ensures Restacked(Reap(s).(highest := highest)) == Reap(Restacked(s)).(highest := highest)
  {
    hide SlotOf, Fill;
    assert Restacked(Reap(s)).pcbs == Reap(Restacked(s)).pcbs;
  }

  lemma ReapHolds(s: State, stacks: seq<seq<Task>>)
    requires Shape(s) && Holds(s, stacks) && stacks[s.currScheduled - 1] != []
    ensures CanHalt(s)
    ensures var t := s.currScheduled - 1;
            Holds(Reap(s).(highest := s.highest[t := Head(stacks[t][1..])]), Pop(stacks, t + 1))
  {
    hide Forest, Reap, Pop, SlotOf;
    HoldsThree(s, stacks);
    TopHolds(s, stacks, s.currScheduled - 1);
    ReapPops(Restacked(s), stacks);
    ReapRestacks(s, s.highest[s.currScheduled - 1 := Head(stacks[s.currScheduled - 1][1..])]);
  }

  /** The halt of a child leaves its parent on top. */
  lemma ChildHolds(s: State, stacks: seq<seq<Task>>, loads: Loader, frame: int)
    requires Shape(s) && Holds(s, stacks) && CanHalt(s) && |stacks[s.currScheduled - 1]| > 1
    ensures Holds(HaltStep(s, loads, frame), Pop(stacks, s.currScheduled))
  {
    hide Holds, Reap, Pop, SlotOf, HaltStep, CanHalt, Pde;
    var t := s.currScheduled - 1;
    HoldsThree(s, stacks);
    TopHolds(s, stacks, t);
    ReapHolds(s, stacks);
    ChildTables(s, loads, frame);
    var reaped := Reap(s).(highest := s.highest[t := Head(stacks[t][1..])]);
    HoldsFrame(reaped, HaltStep(s, loads, frame), Pop(stacks, t + 1));
  }

  /** The halt of a root shell is execute on the detached chain, but for the frame when there is no shell to load. */
  lemma RootExecutes(s: State, loads: Loader, frame: int)
    requires CanHalt(s) && s.pcbs[s.highest[s.currScheduled - 1] - 1].parentTask == 0
    ensures CanExecute(Detached(s), Text(SHELL)) && |ArgTail(SHELL)| < MAX_ARGS && NulFree(SHELL)
    ensures var r := ExecuteStep(Detached(s), loads, Text(SHELL), frame);
            HaltStep(s, loads, frame) == r.(ebp := HaltStep(s, loads, frame).ebp)
    ensures Detached(s).currScheduled == s.currScheduled && Detached(s).currTerminal == s.currTerminal
  {
    hide Spawn, SlotOf, FirstFree;
    ShellHasNoTail();
  }

  /** The halt of a root shell whose terminal is shown leaves a fresh shell there, or nothing if none can be loaded. */
  lemma RootHolds(s: State, stacks: seq<seq<Task>>, loads: Loader, frame: int)
    requires Shape(s) && Holds(s, stacks) && CanHalt(s) && |stacks[s.currScheduled - 1]| == 1
    requires s.currScheduled == s.currTerminal
    ensures var popped := Pop(stacks, s.currScheduled);
            Holds(HaltStep(s, loads, frame),
                  if loads(SHELL) then Push(popped, s.currScheduled, SHELL, frame) else popped)
  {
    hide Holds, Pop, Push, SlotOf, HaltStep, CanHalt, ExecuteStep, CanExecute, ArgTail, NulFree;
    var t := s.currScheduled - 1;
    HoldsThree(s, stacks);
    TopHolds(s, stacks, t);
    ReapHolds(s, stacks);
    RootExecutes(s, loads, frame);
    ShellHasNoTail();
    var popped := Pop(stacks, t + 1);
    HoldsCounts(s, stacks);
    ExecuteKeepsTables(Detached(s), popped, loads, Text(SHELL), frame);
    var r := ExecuteStep(Detached(s), loads, Text(SHELL), frame);
    var after := if loads(SHELL) then Push(popped, t + 1, SHELL, frame) else popped;
    HoldsThree(r, after);
    HoldsFrame(r, HaltStep(s, loads, frame), after);
  }

  /** The halt of a root shell whose terminal is not shown counts that terminal down to 0 and leaves its head. */
  lemma RootCountedOut(s: State, loads: Loader, frame: int)
    requires CanHalt(s) && s.pcbs[s.highest[s.currScheduled - 1] - 1].parentTask == 0
    requires s.currScheduled != s.currTerminal
    ensures var r := HaltStep(s, loads, frame); var t := s.currScheduled - 1;
            Shape(r) && r.highest[t] == s.highest[t] && r.perTerminal[t] == s.perTerminal[t] - 1
  {
    RootExecutes(s, loads, frame);
    hide HaltStep, FirstFree, ArgTail, SlotOf;
  }

  lemma BackgroundRootIsLost(s: State, stacks: seq<seq<Task>>, loads: Loader, frame: int)
    requires Shape(s) && Holds(s, stacks) && CanHalt(s) && |stacks[s.currScheduled - 1]| == 1
    requires s.currScheduled != s.currTerminal
    ensures !ExactForest(HaltStep(s, loads, frame))
  {
    hide Holds, SlotOf, HaltStep, CanHalt;
    var t := s.currScheduled - 1;
    HoldsThree(s, stacks);
    TopHolds(s, stacks, t);
    ChainsEnd(s, stacks, t);
    RootCountedOut(s, loads, frame);
    assert At(HaltStep(s, loads, frame), t, 0) == s.highest[t];
  }

  /** halt keeps the tables exactly when the process has a parent or its terminal is the shown one. */
  lemma HaltKeepsTablesIff(s: State, stacks: seq<seq<Task>>, loads: Loader, frame: int)
    requires Shape(s) && Holds(s, stacks) && stacks[s.currScheduled - 1] != []
    ensures CanHalt(s)
    ensures var kept := s.perTerminal[s.currScheduled - 1] > 1 || s.currScheduled == s.currTerminal;
            && (ExactForest(HaltStep(s, loads, frame)) <==> kept)
            && ((exists st :: Holds(HaltStep(s, loads, frame), st)) <==> kept)
  {
    ReapHolds(s, stacks);
    ChainsEnd(s, stacks, s.currScheduled - 1);
    hide Holds, HaltStep, ExactForest, CanHalt, At, Pop, Push;
    if |stacks[s.currScheduled - 1]| > 1 {
      ChildHolds(s, stacks, loads, frame);
    } else if s.currScheduled == s.currTerminal {
      RootHolds(s, stacks, loads, frame);
    } else {
      BackgroundRootIsLost(s, stacks, loads, frame);
    }
    forall st | Holds(HaltStep(s, loads, frame), st) ensures ExactForest(HaltStep(s, loads, frame)) {
      HoldsIsExactForest(HaltStep(s, loads, frame), st);
    }
  }

  // ---------------------------------------------------------------- runs

  /** When a step may be taken as far as the tables go: execute at any time, on any terminal. */
  predicate Permitted(a: Terminals, loads: Loader, e: Event)
    requires AShape(a)
  {
    match e
    case Exec(command, _) =>
      a.total >= 1 && (command.Text? ==> |ArgTail(command.text)| < MAX_ARGS && NulFree(command.text))
    case _ => Allowed(a, loads, e)
  }

  /** The stacks that the tables hold afterwards: execute pushes on the shown terminal's, whichever runs. */
  function TableStep(a: Terminals, loads: Loader, e: Event): (a': Terminals)
    requires AShape(a) && Permitted(a, loads, e)
    ensures AShape(a') && a.total <= a'.total
  {
    match e
    case Exec(command, frame) =>
      if Accepted(Size(a.stacks), loads, command) then a.(stacks := Push(a.stacks, a.shown, command.text, frame)) else a
    case _ => AStep(a, loads, e)
  }

  /** The tables hold the stacks; while boot lasts, and nothing runs in the background, the context is right too. */
  predicate Kept(s: State, a: Terminals) {
    && AShape(a) && Shape(s) && Holds(s, a.stacks)
    && s.currScheduled == a.running && s.currTerminal == a.shown
    && s.switchFlag == a.pending && s.totalTerminal == a.total
    && (a.total < 4 ==> Inv(s, a))
  }

  lemma InvKept(s: State, a: Terminals)
    requires Inv(s, a)
    ensures Kept(s, a)
  {
    hide Forest, Holds;
    ForestHolds(s, a.stacks);
  }

  /** What is allowed is permitted, with the same stacks afterwards. */
  lemma AllowedIsPermitted(a: Terminals, loads: Loader, e: Event)
    requires AShape(a) && Allowed(a, loads, e)
    ensures Permitted(a, loads, e) && TableStep(a, loads, e) == AStep(a, loads, e)
  {
    hide Push, Pop, Save, ATick;
  }

  lemma BootIsAllowed(a: Terminals, loads: Loader, e: Event)
    requires AShape(a) && a.total < 4 && Permitted(a, loads, e)
    ensures Allowed(a, loads, e)
  {
  }

  lemma SaveRestacks(s: State, stacks: seq<seq<Task>>, frame: int, s': State)
    requires Shape(s) && Holds(s, stacks) && stacks[s.currScheduled - 1] != [] && Shape(s')
    requires var p := s.highest[s.currScheduled - 1] - 1;
             0 <= p < MAX_PROCESSES && s'.pcbs == s.pcbs[p := s.pcbs[p].(esp0 := s.tssEsp0, ebpScheduler := frame)]
    requires s'.highest == s.highest && s'.slots == s.slots && s'.perTerminal == s.perTerminal
    requires s'.processCount == s.processCount
    ensures Holds(s', Save(stacks, s.currScheduled, frame))
  {
    hide Forest, Save, SlotOf;
    var t := s.currScheduled - 1;
    HoldsThree(s, stacks);
    TopHolds(s, stacks, t);
    var b := Restacked(s).(tssEsp0 := StackTop(stacks[t][0].num));
    ForestFrame(Restacked(s), b, stacks);
    TopSlot(b, stacks, t);
    SaveForest(b, stacks, frame);
    var p := s.highest[t] - 1;
    var c := b.(pcbs := b.pcbs[p := b.pcbs[p].(esp0 := b.tssEsp0, ebpScheduler := frame)]);
    assert Restacked(s').pcbs == c.pcbs;
    ForestFrame(c, Restacked(s'), Save(stacks, t + 1, frame));
  }

  /** A tick after boot, whatever page and stack it finds the processor in. */
  lemma TickKept(s: State, a: Terminals, loads: Loader, frame: int)
    requires Kept(s, a) && a.total == 4 && Permitted(a, loads, Tick(frame))
    ensures CanTick(s) && Kept(TickStep(s, loads, frame), AStep(a, loads, Tick(frame)))
  {
    hide Holds, Forest, Screen, Pde, FirstFree, ArgTail, Save;
    HoldsThree(s, a.stacks);
    TopHolds(s, a.stacks, a.running - 1);
    TopHolds(s, a.stacks, a.running % 3);
    SaveRestacks(s, a.stacks, frame, TickStep(s, loads, frame));
  }

  lemma ExecKept(s: State, a: Terminals, loads: Loader, command: Command, frame: int)
    requires Kept(s, a) && a.total == 4 && Permitted(a, loads, Exec(command, frame))
    ensures CanExecute(s, command)
    ensures Kept(ExecuteStep(s, loads, command, frame), TableStep(a, loads, Exec(command, frame)))
  {
    hide Holds, Push, FirstFree, ArgTail, NulFree;
    HoldsCounts(s, a.stacks);
    ExecuteKeepsTables(s, a.stacks, loads, command, frame);
  }

  lemma HaltKept(s: State, a: Terminals, loads: Loader, frame: int)
    requires Kept(s, a) && a.total == 4 && Permitted(a, loads, Halt(frame))
    ensures CanHalt(s) && Kept(HaltStep(s, loads, frame), AStep(a, loads, Halt(frame)))
  {
    hide Holds, Push, FirstFree, ArgTail, NulFree, Pde, SlotOf;
    ReapHolds(s, a.stacks);
    if |a.stacks[a.running - 1]| > 1 {
      ChildHolds(s, a.stacks, loads, frame);
    } else {
      RootHolds(s, a.stacks, loads, frame);
    }
  }

  lemma StepKept(s: State, a: Terminals, loads: Loader, e: Event)
    requires Kept(s, a) && Permitted(a, loads, e)
    ensures CanStep(s, e) && Kept(Step(s, loads, e), TableStep(a, loads, e))
  {
    hide Holds, Inv;
    if a.total < 4 {
      BootIsAllowed(a, loads, e);
      AllowedIsPermitted(a, loads, e);
      StepRefines(s, a, loads, e);
      InvKept(Step(s, loads, e), AStep(a, loads, e));
    } else {
      match e
      case Tick(frame) => TickKept(s, a, loads, frame);
      case Request(_) => HoldsFrame(s, Step(s, loads, e), a.stacks);
      case Exec(command, frame) => ExecKept(s, a, loads, command, frame);
      case Halt(frame) => HaltKept(s, a, loads, frame);
      case Vidmap(_) => HoldsFrame(s, Step(s, loads, e), a.stacks);
    }
  }

  predicate PermittedRun(a: Terminals, loads: Loader, trace: seq<Event>)
    decreases |trace|
  {
    && AShape(a)
    && (trace == [] ||
        (Permitted(a, loads, trace[0]) && PermittedRun(TableStep(a, loads, trace[0]), loads, trace[1..])))
  }

  function TableRun(a: Terminals, loads: Loader, trace: seq<Event>): (r: Terminals)
    requires PermittedRun(a, loads, trace)
    ensures AShape(r) && a.total <= r.total
    decreases |trace|
  {
    if trace == [] then a else TableRun(TableStep(a, loads, trace[0]), loads, trace[1..])
  }

  lemma {:induction false} AllowedRunIsPermitted(a: Terminals, loads: Loader, trace: seq<Event>)
    requires AllowedRun(a, loads, trace)
    ensures PermittedRun(a, loads, trace) && TableRun(a, loads, trace) == ARun(a, loads, trace)
    decreases |trace|
  {
    hide Allowed, Permitted, AStep, TableStep;
    if trace != [] {
      AllowedIsPermitted(a, loads, trace[0]);
      AllowedRunIsPermitted(AStep(a, loads, trace[0]), loads, trace[1..]);
    }
  }

  lemma {:induction false} RunKept(s: State, a: Terminals, loads: Loader, trace: seq<Event>)
    requires Kept(s, a) && PermittedRun(a, loads, trace)
    ensures Defined(s, loads, trace) && Kept(Run(s, loads, trace), TableRun(a, loads, trace))
    decreases |trace|
  {
    hide Kept, Permitted, TableStep, Step, CanStep;
    if trace != [] {
      ShapeKept(s, a);
      StepKept(s, a, loads, trace[0]);
      RunKept(Step(s, loads, trace[0]), TableStep(a, loads, trace[0]), loads, trace[1..]);
    }
  }

  lemma ShapeKept(s: State, a: Terminals)
    requires Kept(s, a)
    ensures AShape(a) && Shape(s) && Holds(s, a.stacks)
  {
  }

  /** Every state reachable from power-on is an exact forest, and no step on the way is undefined, with execute at any
      time on any terminal: the forest is that of the stacks, and the blocks keep numbers, frames and arguments. */
  lemma ReachableForest(s: State, loads: Loader, trace: seq<Event>)
    requires Initial(s) && PermittedRun(EMPTY, loads, trace)
    ensures Defined(s, loads, trace) && ExactForest(Run(s, loads, trace))
    ensures Holds(Run(s, loads, trace), TableRun(EMPTY, loads, trace).stacks)
  {
    InitialInv(s);
    hide Inv, ExactForest, Initial, Kept, Holds;
    InvKept(s, EMPTY);
    RunKept(s, EMPTY, loads, trace);
    ShapeKept(Run(s, loads, trace), TableRun(EMPTY, loads, trace));
    HoldsIsExactForest(Run(s, loads, trace), TableRun(EMPTY, loads, trace).stacks);
  }
}
