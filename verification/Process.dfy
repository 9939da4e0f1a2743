/**
 The process, terminal and scheduler tables of the kernel as one state machine.

 `State` holds the globals of sys_calls.c and scheduler.c; one step is one interrupt or one
 system call.  `Terminals` is what those tables are for: three stacks of tasks, one per
 terminal, of which one is running and one is shown.  `Inv` relates the two.
 */
module Process {
  import opened Bytes

  const EIGHT_MB := 0x800000
  const FOUR_MB := 0x400000
  const EIGHT_KB := 0x2000
  const MAP_MASK := 0x87
  const VID_PAGE := 7
  const VIDEO := 0xB8000
  const VIDEO1 := 0xB9000
  const VIDEO2 := 0xBA000
  const VIDEO3 := 0xBB000
  const PROGRAM_START := 0x8000000
  const PROGRAM_END := 0x8400000
  const MAX_PROCESSES := 6
  const MAX_ARGS := 127
  const NAME_SIZE := 32
  const SHELL: seq<byte> := [115, 104, 101, 108, 108]

  // ---------------------------------------------------------------- addresses

  /** Address of the control block of process n, at the low end of its kernel stack. */
  function GetPcb(n: int): int { EIGHT_MB - n * EIGHT_KB }

  function PointerTo(n: int): int { if n == 0 then 0 else GetPcb(n) }

  /** Index into the block table of the control block at an address. */
  function SlotOf(address: int): int { (EIGHT_MB - address) / EIGHT_KB - 1 }

  function StackTop(n: int): int { EIGHT_MB - (n - 1) * EIGHT_KB - 4 }

  /** Directory entry of process n.  The page base has its low 22 bits clear, so adding the mask sets them. */
  function Pde(n: int): int { EIGHT_MB + (n - 1) * FOUR_MB + MAP_MASK }

  function Buffer(t: int): int {
    if t == 1 then VIDEO1 else if t == 2 then VIDEO2 else VIDEO3
  }

  function Screen(t: int, shown: int): int { if t == shown then VIDEO else Buffer(t) }

  // ---------------------------------------------------------------- command lines

  /** Where the file name ends: at a space, at the end, or after 32 bytes. */
  function NameEnd(command: seq<byte>, i: nat): (r: nat)
    requires i <= |command|
    ensures i <= r <= |command|
    decreases |command| - i
  {
    if i < |command| && command[i] != SPACE && i < NAME_SIZE then NameEnd(command, i + 1) else i
  }

  function SkipSpaces(s: seq<byte>, i: nat): (r: nat)
    requires i <= |s|
    ensures i <= r <= |s|
    ensures r < |s| ==> s[r] != SPACE
    decreases |s| - i
  {
    if i < |s| && s[i] == SPACE then SkipSpaces(s, i + 1) else i
  }

  function FileName(command: seq<byte>): seq<byte> { command[..NameEnd(command, 0)] }

  function ArgTail(command: seq<byte>): seq<byte> {
    command[SkipSpaces(command, NameEnd(command, 0))..]
  }

  // ---------------------------------------------------------------- concrete tables

  /** A control block.  `frame` stands for the esp and ebp of the execute call that made the process. */
  datatype Pcb = Pcb(processNum: int, parentTask: int, esp0: int, frame: int, args: seq<byte>, ebpScheduler: int)

  /** The globals; `ebp` is the kernel frame that is loaded when the step ends. */
  datatype State = State(
    processCount: int, perTerminal: seq<int>, highest: seq<int>, slots: seq<int>, pcbs: seq<Pcb>,
    currTerminal: int, currScheduled: int, totalTerminal: int, switchFlag: int,
    pageDir32: int, tssEsp0: int, videoMem: int, vidPage: int, ebp: int)

  /** Which file names resolve to an executable image. */
  type Loader = seq<byte> -> bool

  datatype Command = Null | Text(text: seq<byte>)

  datatype Event =
    | Tick(tickFrame: int)
    | Request(terminal: int)
    | Exec(command: Command, execFrame: int)
    | Halt(haltFrame: int)
    | Vidmap(address: int)

  predicate Shape(s: State) {
    && |s.perTerminal| == |s.highest| == 3
    && |s.slots| == |s.pcbs| == MAX_PROCESSES
    && (forall i :: 0 <= i < MAX_PROCESSES ==> |s.pcbs[i].args| == MAX_ARGS)
    && 1 <= s.currTerminal <= 3 && 1 <= s.currScheduled <= 3
    && 0 <= s.totalTerminal <= 4 && 0 <= s.switchFlag <= 3
  }

  /** First index at or after i that holds no process; the table length when there is none. */
  function FirstFree(slots: seq<int>, i: nat): (r: nat)
    requires i <= |slots|
    ensures i <= r <= |slots|
    ensures r < |slots| ==> slots[r] == 0
    ensures forall j :: i <= j < r ==> slots[j] != 0
    decreases |slots| - i
  {
    if i < |slots| && slots[i] != 0 then FirstFree(slots, i + 1) else i
  }

  /** The argument bytes of a block after a tail is copied in without a terminator. */
  function Overlay(args: seq<byte>, tail: seq<byte>): seq<byte>
    requires |tail| <= |args|
  {
    tail + args[|tail|..]
  }

  /** The successful path of execute. */
  function Spawn(s: State, command: seq<byte>, frame: int): (s': State)
    requires Shape(s) && FirstFree(s.slots, 0) < MAX_PROCESSES && |ArgTail(command)| <= MAX_ARGS
    ensures Shape(s')
  {
    var i := FirstFree(s.slots, 0);
    var t := s.currTerminal - 1;
    var pcb := s.pcbs[i].(
      processNum := i + 1,
      parentTask := PointerTo(s.highest[t]),
      esp0 := StackTop(i + 1),
      frame := frame,
      args := Overlay(s.pcbs[i].args, ArgTail(command)));
    s.(processCount := s.processCount + 1,
       perTerminal := s.perTerminal[t := s.perTerminal[t] + 1],
       highest := s.highest[t := i + 1],
       slots := s.slots[i := 1],
       pcbs := s.pcbs[i := pcb],
       pageDir32 := Pde(i + 1),
       tssEsp0 := StackTop(i + 1),
       ebp := frame)
  }

  predicate CanExecute(s: State, command: Command) {
    && Shape(s)
    && (s.processCount < MAX_PROCESSES ==> FirstFree(s.slots, 0) < MAX_PROCESSES)
    && (command.Text? ==> |ArgTail(command.text)| <= MAX_ARGS)
  }

  /** Whether execute gets past its checks. */
  predicate Accepted(processCount: int, loads: Loader, command: Command) {
    command.Text? && processCount < MAX_PROCESSES && loads(FileName(command.text))
  }

  function ExecuteStep(s: State, loads: Loader, command: Command, frame: int): State
    requires CanExecute(s, command)
  {
    if Accepted(s.processCount, loads, command) then Spawn(s, command.text, frame) else s
  }

  predicate CanHalt(s: State) {
    && Shape(s)
    && 1 <= s.highest[s.currScheduled - 1] <= MAX_PROCESSES
    && var parent := s.pcbs[s.highest[s.currScheduled - 1] - 1].parentTask;
       parent != 0 ==> 0 <= SlotOf(parent) < MAX_PROCESSES
  }

  /** The part of halt before the parent test: counters, arguments and slot of the running process. */
  function Reap(s: State): (s': State)
    requires CanHalt(s)
    ensures Shape(s') && FirstFree(s'.slots, 0) < MAX_PROCESSES
  {
    var t := s.currScheduled - 1;
    var p := s.highest[t] - 1;
    var slots := s.slots[p := 0];
    assert slots[p] == 0;
    s.(processCount := s.processCount - 1,
       perTerminal := s.perTerminal[t := s.perTerminal[t] - 1],
       slots := slots,
       pcbs := s.pcbs[p := s.pcbs[p].(args := Fill(MAX_ARGS, NUL))])
  }

  lemma ShellHasNoTail()
    ensures FileName(SHELL) == SHELL && ArgTail(SHELL) == []
  {
    assert NameEnd(SHELL, 5) == 5;
    assert NameEnd(SHELL, 3) == 5;
    assert NameEnd(SHELL, 1) == 5;
  }

  function HaltStep(s: State, loads: Loader, frame: int): State
    requires CanHalt(s)
  {
    var t := s.currScheduled - 1;
    var pcb := s.pcbs[s.highest[t] - 1];
    var s1 := Reap(s);
    if pcb.parentTask != 0 then
      var parent := s.pcbs[SlotOf(pcb.parentTask)];
      s1.(pageDir32 := Pde(parent.processNum),
          highest := s1.highest[t := parent.processNum],
          tssEsp0 := parent.esp0,
          ebp := pcb.frame)
    else
      ShellHasNoTail();
      var s2 := s1.(highest := s1.highest[s.currTerminal - 1 := 0]);
      var s3 := ExecuteStep(s2, loads, Text(SHELL), frame);
      if Accepted(s2.processCount, loads, Text(SHELL)) then s3 else s3.(ebp := pcb.frame)
  }

  /** The tables when halt of a root shell calls execute. */
  function Detached(s: State): State
    requires CanHalt(s)
  {
    var s1 := Reap(s);
    s1.(highest := s1.highest[s.currTerminal - 1 := 0])
  }

  lemma HaltRootExecutes(s: State, loads: Loader, frame: int)
    requires CanHalt(s) && s.pcbs[s.highest[s.currScheduled - 1] - 1].parentTask == 0
    requires s.processCount <= MAX_PROCESSES && loads(SHELL)
    ensures CanExecute(Detached(s), Text(SHELL)) && Detached(s).processCount < MAX_PROCESSES
    ensures HaltStep(s, loads, frame) == ExecuteStep(Detached(s), loads, Text(SHELL), frame)
  {
    ShellHasNoTail();
  }

  predicate CanTick(s: State) {
    && Shape(s)
    && (s.totalTerminal < 3 ==> s.processCount < MAX_PROCESSES ==> FirstFree(s.slots, 0) < MAX_PROCESSES)
    && (1 <= s.totalTerminal < 3 || s.totalTerminal == 4 ==> 1 <= s.highest[s.currScheduled - 1] <= MAX_PROCESSES)
    && (s.totalTerminal == 4 ==> 1 <= s.highest[s.currScheduled % 3] <= MAX_PROCESSES)
  }

  /** The pending terminal switch and the video remap at the top of every tick. */
  function Remap(s: State): (s': State)
    requires Shape(s)
    ensures Shape(s')
  {
    var shown := if s.switchFlag != 0 then s.switchFlag else s.currTerminal;
    var page := Screen(s.currScheduled % 3 + 1, shown);
    s.(currTerminal := shown, switchFlag := 0, videoMem := page, vidPage := page + VID_PAGE)
  }

  /** A boot tick up to its call of execute: the next terminal is up and the last shell is saved. */
  function NextShell(s: State, frame: int): (s': State)
    requires Shape(s) && s.totalTerminal < 3
    requires s.totalTerminal >= 1 ==> 1 <= s.highest[s.currScheduled - 1] <= MAX_PROCESSES
    ensures Shape(s')
  {
    var n := s.totalTerminal + 1;
    var p := s.highest[s.currScheduled - 1] - 1;
    if n == 1 then s.(totalTerminal := 1, ebp := frame)
    else s.(totalTerminal := n, currTerminal := n, currScheduled := s.currScheduled % 3 + 1,
            pcbs := s.pcbs[p := s.pcbs[p].(esp0 := s.tssEsp0, ebpScheduler := frame)],
            ebp := frame)
  }

  /** Showing the next terminal first makes no difference to the tables. */
  lemma NextShellShows(s: State, frame: int)
    requires Shape(s) && s.totalTerminal < 3 && (s.totalTerminal == 0 ==> s.currTerminal == 1)
    requires s.totalTerminal >= 1 ==> 1 <= s.highest[s.currScheduled - 1] <= MAX_PROCESSES
    ensures NextShell(s.(currTerminal := s.totalTerminal + 1), frame) == NextShell(s, frame)
  {
  }

  /** The context switch that ends a tick after boot. */
  function Switched(s: State, frame: int): (s': State)
    requires Shape(s) && 1 <= s.highest[s.currScheduled - 1] <= MAX_PROCESSES
    requires 1 <= s.highest[s.currScheduled % 3] <= MAX_PROCESSES
    ensures Shape(s')
  {
    var next := s.currScheduled % 3 + 1;
    var p := s.highest[s.currScheduled - 1] - 1;
    var q := s.highest[next - 1] - 1;
    var pcbs1 := s.pcbs[p := s.pcbs[p].(esp0 := s.tssEsp0)];
    var pcbs2 := pcbs1[p := pcbs1[p].(ebpScheduler := frame)];
    s.(pageDir32 := Pde(s.highest[next - 1]),
       pcbs := pcbs2,
       tssEsp0 := pcbs1[q].esp0,
       currScheduled := next,
       ebp := pcbs2[q].ebpScheduler)
  }

  function TickStep(s: State, loads: Loader, frame: int): State
    requires CanTick(s)
  {
    var s1 := Remap(s);
    ShellHasNoTail();
    if s.totalTerminal < 3 then ExecuteStep(NextShell(s1, frame), loads, Text(SHELL), frame)
    else if s.totalTerminal == 3 then s1.(currTerminal := 1, totalTerminal := 4, currScheduled := 3, ebp := frame)
    else Switched(s1, frame)
  }

  /** The video part of vidmap; an address outside the program page changes nothing. */
  function VidmapStep(s: State, address: int): State
  {
    if PROGRAM_START <= address < PROGRAM_END then
      var page := Screen(s.currScheduled, s.currTerminal);
      s.(videoMem := page, vidPage := page + VID_PAGE)
    else s
  }

  predicate CanStep(s: State, e: Event) {
    match e
    case Tick(_) => CanTick(s)
    case Request(t) => Shape(s) && 1 <= t <= 3
    case Exec(command, _) => CanExecute(s, command)
    case Halt(_) => CanHalt(s)
    case Vidmap(_) => true
  }

  function Step(s: State, loads: Loader, e: Event): (s': State)
    requires CanStep(s, e)
    ensures Shape(s) ==> Shape(s')
  {
    match e
    case Tick(frame) => TickStep(s, loads, frame)
    case Request(t) => if t != s.currTerminal then s.(switchFlag := t) else s
    case Exec(command, frame) => ExecuteStep(s, loads, command, frame)
    case Halt(frame) => HaltStep(s, loads, frame)
    case Vidmap(address) => VidmapStep(s, address)
  }

  // ---------------------------------------------------------------- three stacks of tasks

  /** One live process: its number, the execute frame that halt returns to, the scheduler frame
      it was last switched out with (if it ever was), and its command tail. */
  datatype Task = Task(num: int, frame: int, saved: Option<int>, args: seq<byte>)

  datatype Terminals = Terminals(stacks: seq<seq<Task>>, running: int, shown: int, pending: int, total: int)

  function Count(stack: seq<Task>, n: int): nat {
    if stack == [] then 0 else (if stack[0].num == n then 1 else 0) + Count(stack[1..], n)
  }

  function Occurs(stacks: seq<seq<Task>>, n: int): nat
    requires |stacks| == 3
  {
    Count(stacks[0], n) + Count(stacks[1], n) + Count(stacks[2], n)
  }

  function Size(stacks: seq<seq<Task>>): nat
    requires |stacks| == 3
  {
    |stacks[0]| + |stacks[1]| + |stacks[2]|
  }

  /** Least process number from n on that no stack uses; 7 when all six are used. */
  function LeastFree(stacks: seq<seq<Task>>, n: int): (r: int)
    requires |stacks| == 3 && 1 <= n <= MAX_PROCESSES + 1
    ensures n <= r <= MAX_PROCESSES + 1
    decreases MAX_PROCESSES + 1 - n
  {
    if n <= MAX_PROCESSES && Occurs(stacks, n) != 0 then LeastFree(stacks, n + 1) else n
  }

  function Push(stacks: seq<seq<Task>>, t: int, command: seq<byte>, frame: int): (r: seq<seq<Task>>)
    requires |stacks| == 3 && 1 <= t <= 3
    ensures |r| == 3
  {
    stacks[t - 1 := [Task(LeastFree(stacks, 1), frame, None, ArgTail(command))] + stacks[t - 1]]
  }

  function Pop(stacks: seq<seq<Task>>, t: int): (r: seq<seq<Task>>)
    requires |stacks| == 3 && 1 <= t <= 3 && stacks[t - 1] != []
    ensures |r| == 3
  {
    stacks[t - 1 := stacks[t - 1][1..]]
  }

  function Save(stacks: seq<seq<Task>>, t: int, frame: int): (r: seq<seq<Task>>)
    requires |stacks| == 3 && 1 <= t <= 3 && stacks[t - 1] != []
    ensures |r| == 3
  {
    var top := stacks[t - 1][0].(saved := Some(frame));
    stacks[t - 1 := [top] + stacks[t - 1][1..]]
  }

  predicate AShape(a: Terminals) {
    && |a.stacks| == 3 && 1 <= a.running <= 3 && 1 <= a.shown <= 3 && 0 <= a.pending <= 3 && 0 <= a.total <= 4
    && match a.total {
         case 0 => a.running == a.shown == 1 && (forall t :: 0 <= t < 3 ==> a.stacks[t] == [])
         case 4 => forall t :: 0 <= t < 3 ==> a.stacks[t] != []
         case n => a.running == a.shown == n && (forall t :: 0 <= t < 3 ==> (a.stacks[t] != [] <==> t < n))
       }
    && (a.total < 4 ==> a.pending == 0)
  }

  /** When a step keeps the whole invariant.  Terminal requests wait for the end of boot, and a step that starts a
      process needs the running terminal to be the shown one: execute for the context (the tables survive it in any
      case), the halt of a root shell for the tables too. */
  predicate Allowed(a: Terminals, loads: Loader, e: Event)
    requires AShape(a)
  {
    match e
    case Tick(_) => loads(SHELL) && (a.total < 3 ==> Size(a.stacks) < MAX_PROCESSES)
    case Request(t) => a.total == 4 && 1 <= t <= 3
    case Exec(command, _) =>
      && a.total >= 1
      && (command.Text? ==> |ArgTail(command.text)| < MAX_ARGS && NulFree(command.text))
      && (Accepted(Size(a.stacks), loads, command) ==> a.running == a.shown)
    case Halt(_) => a.total >= 1 && loads(SHELL) && (|a.stacks[a.running - 1]| == 1 ==> a.running == a.shown)
    case Vidmap(_) => true
  }

  /** The abstract tick, in boot and after. */
  function ATick(a: Terminals, frame: int): (a': Terminals)
    requires AShape(a)
    ensures AShape(a') && a'.total == (if a.total < 4 then a.total + 1 else 4)
  {
    var next := a.running % 3 + 1;
    if a.total == 0 then
      a.(stacks := Push(a.stacks, 1, SHELL, frame), total := 1)
    else if a.total < 3 then
      a.(stacks := Push(Save(a.stacks, a.running, frame), next, SHELL, frame), running := next, shown := next,
        total := a.total + 1)
    else if a.total == 3 then
      a.(shown := 1, total := 4)
    else
      a.(stacks := Save(a.stacks, a.running, frame), running := next,
         shown := if a.pending != 0 then a.pending else a.shown, pending := 0)
  }

  function AStep(a: Terminals, loads: Loader, e: Event): (a': Terminals)
    requires AShape(a) && Allowed(a, loads, e)
    ensures AShape(a') && a'.total == (if e.Tick? && a.total < 4 then a.total + 1 else a.total)
  {
    match e
    case Tick(frame) => ATick(a, frame)
    case Request(t) => if t != a.shown then a.(pending := t) else a
    case Exec(command, frame) =>
      if Accepted(Size(a.stacks), loads, command) then
        a.(stacks := Push(a.stacks, a.running, command.text, frame))
      else a
    case Halt(frame) =>
      var popped := Pop(a.stacks, a.running);
      if popped[a.running - 1] == [] then a.(stacks := Push(popped, a.running, SHELL, frame)) else a.(stacks := popped)
    case Vidmap(_) => a
  }

  function Current(a: Terminals): Task
    requires AShape(a) && a.total >= 1
  {
    a.stacks[a.running - 1][0]
  }

  // ---------------------------------------------------------------- the invariant

  predicate Represents(pcb: Pcb, task: Task) {
    && 1 <= task.num <= MAX_PROCESSES
    && pcb.processNum == task.num
    && pcb.esp0 == StackTop(task.num)
    && pcb.frame == task.frame
    && |task.args| < MAX_ARGS && NulFree(task.args)
    && pcb.args == task.args + Fill(MAX_ARGS - |task.args|, NUL)
    && (task.saved.Some? ==> pcb.ebpScheduler == task.saved.value)
  }

  /** Process number at the top of a stack, 0 when it is empty. */
  function Head(stack: seq<Task>): int {
    if stack == [] then 0 else stack[0].num
  }

  /** Following parentTask from process number `head` visits exactly the tasks of the stack, top first. */
  predicate IsChain(pcbs: seq<Pcb>, head: int, stack: seq<Task>)
    requires |pcbs| == MAX_PROCESSES
    decreases |stack|
  {
    if stack == [] then head == 0
    else
      && head == stack[0].num
      && 1 <= head <= MAX_PROCESSES
      && Represents(pcbs[head - 1], stack[0])
      && pcbs[head - 1].parentTask == PointerTo(Head(stack[1..]))
      && IsChain(pcbs, Head(stack[1..]), stack[1..])
  }

  predicate Chains(pcbs: seq<Pcb>, highest: seq<int>, stacks: seq<seq<Task>>) {
    && |pcbs| == MAX_PROCESSES && |highest| == |stacks| == 3
    && forall t :: 0 <= t < 3 ==> IsChain(pcbs, highest[t], stacks[t])
  }

  /** A slot is taken iff its process is on a stack, and then it is there once: the chains are
      acyclic, pairwise disjoint, and together cover exactly the occupied slots. */
  predicate Exact(slots: seq<int>, stacks: seq<seq<Task>>) {
    && |slots| == MAX_PROCESSES && |stacks| == 3
    && forall n :: 1 <= n <= MAX_PROCESSES ==> slots[n - 1] == Occurs(stacks, n) <= 1
  }

  /** The argument bytes of every free control block are zero. */
  predicate Clean(pcbs: seq<Pcb>, stacks: seq<seq<Task>>) {
    && |pcbs| == MAX_PROCESSES && |stacks| == 3
    && forall n :: 1 <= n <= MAX_PROCESSES && Occurs(stacks, n) == 0 ==> pcbs[n - 1].args == Fill(MAX_ARGS, NUL)
  }

  predicate Counted(perTerminal: seq<int>, processCount: int, stacks: seq<seq<Task>>) {
    && |perTerminal| == |stacks| == 3
    && (forall t :: 0 <= t < 3 ==> perTerminal[t] == |stacks[t]|)
    && processCount == Size(stacks)
  }

  /** The process tables hold exactly the three stacks. */
  predicate Forest(s: State, stacks: seq<seq<Task>>) {
    && Shape(s)
    && Chains(s.pcbs, s.highest, stacks)
    && Exact(s.slots, stacks)
    && Clean(s.pcbs, stacks)
    && Counted(s.perTerminal, s.processCount, stacks)
  }

  /** The processor runs the top task of the running terminal, in its own page and on its own stack. */
  predicate Context(s: State, a: Terminals)
    requires AShape(a)
  {
    a.total >= 1 ==> s.pageDir32 == Pde(Current(a).num) && s.tssEsp0 == StackTop(Current(a).num)
  }

  /** Every terminal that is not running has a saved scheduler frame on its top task. */
  predicate Resumable(a: Terminals)
    requires AShape(a)
  {
    forall t :: 0 <= t < 3 && t != a.running - 1 && a.stacks[t] != [] ==> a.stacks[t][0].saved.Some?
  }

  predicate Inv(s: State, a: Terminals) {
    && AShape(a) && Forest(s, a.stacks)
    && s.currScheduled == a.running && s.currTerminal == a.shown
    && s.switchFlag == a.pending && s.totalTerminal == a.total
    && Context(s, a)
    && Resumable(a)
  }

  /** The kernel's video pointer and the user's video page both name the screen of the running terminal. */
  predicate Mapped(s: State) {
    && s.videoMem == Screen(s.currScheduled, s.currTerminal)
    && s.vidPage == s.videoMem + VID_PAGE
  }
}
