/**
 The whole kernel over arbitrary runs: interrupts, system calls, key strokes, reads and writes in any
 allowed order.  `Whole` is the abstract machine (three task stacks, three terminals); `Run`
 drives the imperative kernel and is proved to follow it step by step.
 */
module System {
  import opened Bytes
  import opened Screen
  import opened World
  import opened Console
  import opened Keyboard
  import opened Kernel
  import opened Process
  import opened Refinement
  import Arguments
  import Runs

  /** `mapped`: background output reaches its own terminal, as it does from the first tick after boot. */
  datatype Whole = Whole(a: Terminals, w: World, mapped: bool)

  /** `beyond` is whatever lies behind the argument bytes in memory. */
  datatype Input =
    | Sys(e: Event)
    | Key(code: int)
    | Write(text: seq<byte>)
    | Read(nbytes: nat)
    | Getargs(size: nat, beyond: seq<byte>)

  /** What a call hands to its caller: the bytes of a read, or the arguments if they fit. */
  datatype Reply = Typed(line: seq<byte>) | Tail(args: Option<seq<byte>>)

  predicate Ok(x: Whole) {
    && AShape(x.a) && WorldShape(x.w)
    && x.a.shown == x.w.shown && x.a.pending == x.w.pending && x.a.running == x.w.running
    && (x.a.total < 4 ==> x.w.lines == [[], [], []] && !x.w.enter)
  }

  predicate Switches(x: Whole, code: int) {
    IsSwitch(x.w.mods, code) && code - KEY_F1 + 1 != x.w.shown
  }

  /** The process whose block the argument call reads: the top one of the shown terminal, whoever calls. */
  function ShownTask(a: Terminals): Task
    requires AShape(a) && a.total >= 1
  {
    a.stacks[a.shown - 1][0]
  }

  /** What a call for `size` bytes of a command tail yields.  A size of 0 passes the code's unsigned test. */
  function TailReply(tail: seq<byte>, size: nat): Option<seq<byte>> {
    if size == 0 then Some([]) else if |tail| + 1 <= size then Some(tail) else None
  }

  /** A process runs the steps of its own terminal, keys wait for the end of boot, one terminal request
      is served before the next, and a read goes on once Enter is down and its terminal is shown. */
  predicate Enabled(x: Whole, loads: Loader, i: Input)
    requires Ok(x)
  {
    match i
    case Sys(Request(_)) => false
    case Sys(Exec(command, f)) =>
      && Allowed(x.a, loads, Exec(command, f))
      && (command.Text? && Size(x.a.stacks) >= MAX_PROCESSES ==> x.mapped)
    case Sys(e) => Allowed(x.a, loads, e)
    case Key(code) => x.a.total == 4 && 0 <= code < 256 && !IsSecondRequest(x.w, code)
    case Write(_) => x.a.total >= 1 && (x.a.running == x.a.shown || x.mapped)
    case Read(_) => x.w.enter && x.a.running == x.a.shown
    case Getargs(size, beyond) => x.a.total >= 1 && size <= MAX_ARGS + |beyond|
  }

  function TaskPart(x: Whole, loads: Loader, i: Input): Terminals
    requires Ok(x) && Enabled(x, loads, i)
  {
    match i
    case Sys(e) => AStep(x.a, loads, e)
    case Key(code) => if Switches(x, code) then AStep(x.a, loads, Request(code - KEY_F1 + 1)) else x.a
    case _ => x.a
  }

  function WorldPart(x: Whole, loads: Loader, i: Input): World
    requires Ok(x) && Enabled(x, loads, i)
  {
    match i
    case Sys(Tick(_)) => TickWorld(x.w, x.a.total)
    case Sys(Exec(command, _)) =>
      if command.Text? && Size(x.a.stacks) >= MAX_PROCESSES then Announce(x.w, MAX_MESSAGE) else x.w
    case Sys(Halt(_)) => if |x.a.stacks[x.a.running - 1]| == 1 then ClearShown(x.w) else x.w
    case Sys(_) => x.w
    case Key(code) => KeyStep(x.w, code)
    case Write(text) => if text == [] then x.w else WriteStep(x.w, text)
    case Read(_) => ReadStep(x.w)
    case Getargs(_, _) => x.w
  }

  /** The reply to one input, if it has one. */
  function Answer(x: Whole, loads: Loader, i: Input): seq<Reply>
    requires Ok(x) && Enabled(x, loads, i)
  {
    match i
    case Read(nbytes) => [Typed(LinePrefix(x.w, nbytes))]
    case Getargs(size, _) => [Tail(TailReply(ShownTask(x.a).args, size))]
    case _ => []
  }

  function WholeStep(x: Whole, loads: Loader, i: Input): (r: Whole)
    requires Ok(x) && Enabled(x, loads, i)
    ensures Ok(r)
  {
    var mapped := if i.Sys? && i.e.Tick? then x.a.total == 4 else x.mapped;
    var r := Whole(TaskPart(x, loads, i), WorldPart(x, loads, i), mapped);
    PartsAgree(x, loads, i);
    r
  }

  /** Tasks and terminals agree on what is shown, pending and running. */
  lemma PartsAgree(x: Whole, loads: Loader, i: Input)
    requires Ok(x) && Enabled(x, loads, i)
    ensures Ok(Whole(TaskPart(x, loads, i), WorldPart(x, loads, i), x.mapped))
  {
    match i
    case Sys(e) =>
      hide KeyStep, ReadStep, WriteStep;
      if e.Tick? {
        TickAgrees(x, loads, e.tickFrame);
      } else {
        CallAgrees(x, loads, e);
      }
    case Key(code) =>
      hide TickWorld, ReadStep, WriteStep;
      KeyAgrees(x, loads, code);
    case Write(text) => hide TickWorld, KeyStep, AStep;
    case Read(_) => hide TickWorld, KeyStep, AStep;
    case Getargs(_, _) => hide TickWorld, KeyStep, AStep;
  }

  lemma TickAgrees(x: Whole, loads: Loader, f: int)
    requires Ok(x) && Allowed(x.a, loads, Tick(f))
    ensures Ok(Whole(AStep(x.a, loads, Tick(f)), TickWorld(x.w, x.a.total), x.mapped))
  {
    hide Push, Save;
  }

  lemma CallAgrees(x: Whole, loads: Loader, e: Event)
    requires Ok(x) && Enabled(x, loads, Sys(e)) && !e.Tick?
    ensures Ok(Whole(AStep(x.a, loads, e), WorldPart(x, loads, Sys(e)), x.mapped))
  {
    hide Push, Pop, Screen.Write;
  }

  lemma KeyAgrees(x: Whole, loads: Loader, code: int)
    requires Ok(x) && Enabled(x, loads, Key(code))
    ensures Ok(Whole(TaskPart(x, loads, Key(code)), KeyStep(x.w, code), x.mapped))
  {
    hide Put, Erased, Printed, NextModifiers, Push, Pop, Save;
  }

  predicate EnabledRun(x: Whole, loads: Loader, inputs: seq<Input>)
    decreases |inputs|
  {
    && Ok(x)
    && (inputs == [] ||
        (Enabled(x, loads, inputs[0]) && EnabledRun(WholeStep(x, loads, inputs[0]), loads, inputs[1..])))
  }

  function WholeRun(x: Whole, loads: Loader, inputs: seq<Input>): (r: Whole)
    requires EnabledRun(x, loads, inputs)
    ensures Ok(r)
    decreases |inputs|
  {
    if inputs == [] then x else WholeRun(WholeStep(x, loads, inputs[0]), loads, inputs[1..])
  }

  // ---------------------------------------------------------------- the imperative kernel follows

  /** The kernel's variables stand for the abstract state. */
  ghost predicate Represents(k: Kernel, x: Whole)
    reads k, k.Repr()
  {
    && k.Valid() && Ok(x)
    && Inv(k.Tables(), x.a) && k.kb.View() == x.w
    && (x.mapped ==> k.con.Mapped())
    && (x.a.total < 4 ==> k.kb.Idle())
  }

  method DoTick(k: Kernel, f: int, ghost x: Whole)
    requires Represents(k, x) && Enabled(x, k.loads, Sys(Tick(f)))
    modifies k.Repr()
    ensures Represents(k, WholeStep(x, k.loads, Sys(Tick(f))))
  {
    hide Inv, Keyboard.Valid, Keyboard.View, Keyboard.Idle, Console.Mapped, TickStep, TickWorld, CanTick, AStep,
         Allowed, AShape;
    TickReady(k.Tables(), x.a, k.loads, f);
    TickHandled(k, f);
  }

  lemma TickReady(s: State, a: Terminals, loads: Loader, f: int)
    requires Inv(s, a) && Allowed(a, loads, Tick(f))
    ensures CanTick(s) && s.totalTerminal == a.total && (a.total < 3 ==> s.processCount < MAX_PROCESSES)
    ensures a.total < 4 ==> s.currTerminal == s.currScheduled == if a.total == 0 then 1 else a.total
    ensures loads(SHELL) && Inv(TickStep(s, loads, f), AStep(a, loads, Tick(f)))
  {
    hide Forest, TickStep;
    StepDefined(s, a, loads, Tick(f));
    SlotFound(s, a.stacks);
    TickRefines(s, a, loads, f);
  }

  /** A tick as a change of the kernel's tables and of what the users see. */
  method TickHandled(k: Kernel, f: int)
    requires k.Valid() && CanTick(k.Tables()) && k.loads(SHELL) && (k.totalTerminal < 4 ==> k.kb.Idle())
    requires k.totalTerminal < 3 ==> k.processCount < MAX_PROCESSES
    requires k.totalTerminal < 4 ==>
               k.con.currTerminal == k.con.currScheduled == if k.totalTerminal == 0 then 1 else k.totalTerminal
    modifies k.Repr()
    ensures k.Valid() && k.Tables() == TickStep(old(k.Tables()), k.loads, f)
    ensures k.kb.View() == TickWorld(old(k.kb.View()), old(k.totalTerminal))
    ensures old(k.totalTerminal) < 4 ==> k.kb.Idle()
    ensures old(k.totalTerminal) == 4 ==> k.con.Mapped()
  {
    hide Keyboard.Valid, Keyboard.View, Keyboard.Idle, TickStep, TickWorld, CanTick;
    k.Tick(f);
  }

  method DoExec(k: Kernel, command: Command, f: int, ghost x: Whole)
    requires Represents(k, x) && Enabled(x, k.loads, Sys(Exec(command, f)))
    modifies k.Repr()
    ensures Represents(k, WholeStep(x, k.loads, Sys(Exec(command, f))))
  {
    hide Inv, Keyboard.Valid, Keyboard.View, Keyboard.Idle, Console.Mapped, ExecuteStep, CanExecute, AStep, Allowed,
         AShape, Announce;
    ExecReady(k.Tables(), x.a, k.loads, command, f);
    ExecHandled(k, command, f);
  }

  lemma ExecReady(s: State, a: Terminals, loads: Loader, command: Command, f: int)
    requires Inv(s, a) && Allowed(a, loads, Exec(command, f))
    ensures CanExecute(s, command) && s.processCount == Size(a.stacks) && a.total >= 1
    ensures Inv(ExecuteStep(s, loads, command, f), AStep(a, loads, Exec(command, f)))
    ensures AStep(a, loads, Exec(command, f)).total == a.total
  {
    hide Forest, ExecuteStep;
    SlotFound(s, a.stacks);
    ExecuteRefines(s, a, loads, command, f);
  }

  /** An execute as a change of the kernel's tables, and of the running screen when the table is full. */
  method ExecHandled(k: Kernel, command: Command, f: int)
    requires k.Valid() && CanExecute(k.Tables(), command)
    requires command.Text? && k.processCount >= MAX_PROCESSES ==> k.con.Mapped()
    modifies k.Repr()
    ensures k.Valid() && k.Tables() == ExecuteStep(old(k.Tables()), k.loads, command, f)
    ensures var full := old(k.processCount) >= MAX_PROCESSES;
            k.kb.View() == if command.Text? && full then Announce(old(k.kb.View()), MAX_MESSAGE) else old(k.kb.View())
    ensures (k.con.Mapped() <==> old(k.con.Mapped())) && (k.kb.Idle() <==> old(k.kb.Idle()))
  {
    hide Keyboard.Valid, Keyboard.View, ExecuteStep, CanExecute, Announce;
    PointsInside(k);
    var _ := k.Execute(command, f);
  }

  lemma PointsInside(k: Kernel)
    requires k.Valid()
    ensures k.con.videoMem in k.Repr()
  {
  }

  method DoHalt(k: Kernel, f: int, ghost x: Whole)
    requires Represents(k, x) && Enabled(x, k.loads, Sys(Halt(f)))
    modifies k.Repr()
    ensures Represents(k, WholeStep(x, k.loads, Sys(Halt(f))))
  {
    hide Inv, Keyboard.Valid, Keyboard.View, Keyboard.Idle, Console.Mapped, HaltStep, CanHalt, AStep, Allowed,
         ClearShown, AShape, ParentOf;
    HaltReady(k.Tables(), x.a, k.loads, f);
    HaltHandled(k, f);
  }

  /** A halt as a change of the kernel's tables and of the shown screen. */
  method HaltHandled(k: Kernel, f: int)
    requires k.Valid() && CanHalt(k.Tables()) && k.processCount <= MAX_PROCESSES && k.loads(SHELL)
    modifies k.Repr()
    ensures k.Valid() && k.Tables() == HaltStep(old(k.Tables()), k.loads, f)
    ensures k.kb.View() == if old(ParentOf(k.Tables())) != 0 then old(k.kb.View()) else ClearShown(old(k.kb.View()))
    ensures (k.con.Mapped() <==> old(k.con.Mapped())) && (k.kb.Idle() <==> old(k.kb.Idle()))
  {
    hide Keyboard.Valid, Keyboard.View, HaltStep, ClearShown;
    PointsInside(k);
    k.Halt(f);
  }

  /** The parent of the running process, 0 for a shell. */
  function ParentOf(s: State): int
    requires CanHalt(s)
  {
    s.pcbs[s.highest[s.currScheduled - 1] - 1].parentTask
  }

  lemma HaltReady(s: State, a: Terminals, loads: Loader, f: int)
    requires Inv(s, a) && Allowed(a, loads, Halt(f))
    ensures CanHalt(s) && s.processCount <= MAX_PROCESSES && loads(SHELL)
    ensures Inv(HaltStep(s, loads, f), AStep(a, loads, Halt(f)))
    ensures ParentOf(s) == 0 <==> |a.stacks[a.running - 1]| == 1
    ensures AStep(a, loads, Halt(f)).total == a.total && a.total >= 1
  {
    hide Forest, HaltStep;
    SlotFound(s, a.stacks);
    ParentOfTop(s, a);
    HaltRefines(s, a, loads, f);
  }

  method DoVidmap(k: Kernel, address: int, ghost x: Whole)
    requires Represents(k, x) && Enabled(x, k.loads, Sys(Vidmap(address)))
    modifies k.Repr()
    ensures Represents(k, WholeStep(x, k.loads, Sys(Vidmap(address))))
  {
    hide Inv, Keyboard.Valid, Keyboard.View, Keyboard.Idle, Console.Mapped, AStep, AShape, Allowed, VidmapStep;
    VidmapReady(k.Tables(), x.a, k.loads, address);
    VidmapHandled(k, address);
  }

  lemma VidmapReady(s: State, a: Terminals, loads: Loader, address: int)
    requires Inv(s, a)
    ensures Inv(VidmapStep(s, address), a) && Allowed(a, loads, Vidmap(address)) &&
            AStep(a, loads, Vidmap(address)) == a
  {
    hide Inv, VidmapStep;
    ShapeOfInv(s, a);
    StepRefines(s, a, loads, Vidmap(address));
  }

  lemma ShapeOfInv(s: State, a: Terminals)
    requires Inv(s, a)
    ensures AShape(a)
  {
  }

  /** A vidmap as a change of the kernel's tables: it maps at most the running terminal's own page. */
  method VidmapHandled(k: Kernel, address: int)
    requires k.Valid()
    modifies k.Repr()
    ensures k.Valid() && k.Tables() == VidmapStep(old(k.Tables()), address) && k.kb.View() == old(k.kb.View())
    ensures (old(k.con.Mapped()) ==> k.con.Mapped()) && (k.kb.Idle() <==> old(k.kb.Idle()))
  {
    hide Keyboard.Valid, Keyboard.View, VidmapStep;
    var _ := k.Vidmap(address);
  }

  /** What a key does to the switch state. */
  lemma KeyPending(w: World, code: int)
    requires WorldShape(w)
    ensures KeyStep(w, code).shown == w.shown && KeyStep(w, code).running == w.running
    ensures var target := code - KEY_F1 + 1;
            KeyStep(w, code).pending == if IsSwitch(w.mods, code) && target != w.shown then target else w.pending
  {
    hide Put, Erased, Printed, NextModifiers;
  }

  method DoKey(k: Kernel, code: int, ghost x: Whole)
    requires Represents(k, x) && Enabled(x, k.loads, Key(code))
    modifies k.Repr()
    ensures Represents(k, WholeStep(x, k.loads, Key(code)))
  {
    hide Inv, KeyStep, IsSwitch, Keyboard.Valid, Keyboard.View, Keyboard.Idle, Console.Mapped, AStep, AShape, Allowed;
    SwitchKeys(x.w.mods, code);
    if Switches(x, code) {
      RequestReady(k.Tables(), x.a, k.loads, code - KEY_F1 + 1);
    }
    KeyPending(x.w, code);
    PendingFlag(k);
    KeyHandled(k, code);
  }

  lemma SwitchKeys(m: Modifiers, code: int)
    ensures IsSwitch(m, code) ==> KEY_F1 <= code <= KEY_F3
  {
  }

  lemma PendingFlag(k: Kernel)
    requires k.Valid()
    ensures k.kb.View().pending == k.kb.switchFlag
  {
  }

  lemma RequestReady(s: State, a: Terminals, loads: Loader, t: int)
    requires Inv(s, a) && a.total == 4 && 1 <= t <= 3 && t != a.shown
    ensures Allowed(a, loads, Request(t))
    ensures Inv(s.(switchFlag := t), AStep(a, loads, Request(t))) && AStep(a, loads, Request(t)) == a.(pending := t)
  {
    hide Forest;
    StepRefines(s, a, loads, Request(t));
  }

  /** A key as a change of the kernel's tables: at most the switch flag. */
  method KeyHandled(k: Kernel, code: int)
    requires k.Valid() && 0 <= code < 256 && !IsSecondRequest(k.kb.View(), code)
    modifies k.Repr() - {k}
    ensures k.Valid() && k.kb.View() == KeyStep(old(k.kb.View()), code)
    ensures k.Tables() == old(k.Tables()).(switchFlag := KeyStep(old(k.kb.View()), code).pending)
    ensures k.con.Mapped() <==> old(k.con.Mapped())
  {
    hide KeyStep, Attributed, Chars;
    k.kb.Handle(code);
  }

  method DoWrite(k: Kernel, text: seq<byte>, ghost x: Whole)
    requires Represents(k, x) && Enabled(x, k.loads, Write(text))
    modifies k.Repr()
    ensures Represents(k, WholeStep(x, k.loads, Write(text)))
  {
    hide Inv, Keyboard.Valid, Keyboard.View, Keyboard.Idle, Console.Mapped, WriteStep, AShape;
    RunningShown(k.Tables(), x.a);
    WriteHandled(k, text);
  }

  lemma RunningShown(s: State, a: Terminals)
    requires Inv(s, a)
    ensures s.currScheduled == a.running && s.currTerminal == a.shown
  {
  }

  method WriteHandled(k: Kernel, text: seq<byte>)
    requires k.Valid() && (k.con.currScheduled == k.con.currTerminal || k.con.Mapped())
    modifies k.Repr() - {k}
    ensures k.Valid() && k.Tables() == old(k.Tables()) && (old(k.kb.Idle()) ==> k.kb.Idle())
    ensures k.kb.View() == if text == [] then old(k.kb.View()) else WriteStep(old(k.kb.View()), text)
    ensures k.con.Mapped() <==> old(k.con.Mapped())
  {
    hide WriteStep, Attributed, Chars, Keyboard.View;
    PointsInside(k);
    assert text[..|text|] == text;
    var _ := k.kb.TerminalWrite(Some(text), |text|);
  }

  method DoRead(k: Kernel, nbytes: nat, ghost x: Whole) returns (line: seq<byte>)
    requires Represents(k, x) && Enabled(x, k.loads, Read(nbytes))
    modifies k.Repr()
    ensures Represents(k, WholeStep(x, k.loads, Read(nbytes)))
    ensures line == LinePrefix(x.w, nbytes)
  {
    hide Inv, Keyboard.Valid, Keyboard.View, Keyboard.Idle, Console.Mapped, ReadStep, Line, AShape;
    EnterFlag(k);
    RunningShown(k.Tables(), x.a);
    line := ReadHandled(k, nbytes);
  }

  lemma EnterFlag(k: Kernel)
    requires k.Valid()
    ensures k.kb.View().enter == k.kb.enterFlag
  {
  }

  method ReadHandled(k: Kernel, nbytes: nat) returns (line: seq<byte>)
    requires k.Valid() && k.kb.enterFlag && k.con.currTerminal == k.con.currScheduled
    modifies k.Repr() - {k}
    ensures k.Valid() && k.Tables() == old(k.Tables())
    ensures k.kb.View() == ReadStep(old(k.kb.View()))
    ensures k.con.Mapped() <==> old(k.con.Mapped())
    ensures var l := Line(old(k.kb.View())); line == l[..if nbytes < |l| then nbytes else |l|]
  {
    hide ReadStep, Attributed, Chars, Keyboard.View, Line;
    var buf := new byte[nbytes];
    var n := k.kb.TerminalRead(buf, nbytes);
    line := buf[..n];
  }

  method DoGetargs(k: Kernel, size: nat, beyond: seq<byte>, ghost x: Whole) returns (reply: Option<seq<byte>>)
    requires Represents(k, x) && Enabled(x, k.loads, Getargs(size, beyond))
    ensures reply == TailReply(ShownTask(x.a).args, size)
  {
    hide Inv, Keyboard.Valid, Keyboard.View, Keyboard.Idle, Console.Mapped, ShownTask, AShape;
    ArgsOfShown(k.Tables(), x.a);
    var buf := new byte[size];
    var status := k.Getargs(buf, size, beyond);
    reply := if status == 0 then Some(CString(buf[..size])) else None;
  }

  lemma ArgsOfShown(s: State, a: Terminals)
    requires Inv(s, a) && a.total >= 1
    ensures Shape(s) && 1 <= s.highest[s.currTerminal - 1] <= MAX_PROCESSES
    ensures Arguments.ReadsBack(s.pcbs[s.highest[s.currTerminal - 1] - 1].args, ShownTask(a).args)
  {
    hide Forest, Arguments.ReadsBack, Process.Represents;
    SlotFound(s, a.stacks);
    HeadIsTop(s, a, a.shown - 1);
    Arguments.ArgsReadBack(s.pcbs[s.highest[s.currTerminal - 1] - 1], ShownTask(a));
  }

  /** All replies of a run, in order. */
  function Delivered(x: Whole, loads: Loader, inputs: seq<Input>): seq<Reply>
    requires EnabledRun(x, loads, inputs)
    decreases |inputs|
  {
    if inputs == [] then []
    else Answer(x, loads, inputs[0]) + Delivered(WholeStep(x, loads, inputs[0]), loads, inputs[1..])
  }

  function LinePrefix(w: World, nbytes: nat): seq<byte>
    requires WorldShape(w)
  {
    Cut(Line(w), nbytes)
  }

  /** One input on the imperative kernel. */
  method Do(k: Kernel, i: Input, ghost x: Whole) returns (out: seq<Reply>)
    requires Represents(k, x) && Enabled(x, k.loads, i)
    modifies k.Repr()
    ensures Represents(k, WholeStep(x, k.loads, i))
    ensures out == Answer(x, k.loads, i)
  {
    hide Represents, WholeStep;
    out := [];
    match i
    case Sys(Tick(f)) => DoTick(k, f, x);
    case Sys(Exec(command, f)) => DoExec(k, command, f, x);
    case Sys(Halt(f)) => DoHalt(k, f, x);
    case Sys(Vidmap(address)) => DoVidmap(k, address, x);
    case Sys(Request(_)) =>
    case Key(code) => DoKey(k, code, x);
    case Write(text) => DoWrite(k, text, x);
    case Read(nbytes) =>
      var line := DoRead(k, nbytes, x);
      out := [Typed(line)];
    case Getargs(size, beyond) =>
      var reply := DoGetargs(k, size, beyond, x);
      SameAfterGetargs(k, size, beyond, x);
      out := [Tail(reply)];
  }

  lemma SameAfterGetargs(k: Kernel, size: nat, beyond: seq<byte>, x: Whole)
    requires Represents(k, x) && Enabled(x, k.loads, Getargs(size, beyond))
    ensures Represents(k, WholeStep(x, k.loads, Getargs(size, beyond)))
  {
  }

  /** Main theorem: over any enabled run the imperative kernel stays valid and ends where the abstract
      machine ends, and its reads and argument calls return exactly the replies of the abstract machine. */
  method Run(k: Kernel, inputs: seq<Input>, ghost x: Whole) returns (replies: seq<Reply>)
    requires Represents(k, x) && EnabledRun(x, k.loads, inputs)
    modifies k.Repr()
    ensures Represents(k, WholeRun(x, k.loads, inputs))
    ensures replies == Delivered(x, k.loads, inputs)
  {
    hide Represents, Enabled, WholeStep, Answer;
    replies := [];
    ghost var y := x;
    var n := 0;
    while n < |inputs|
      invariant 0 <= n <= |inputs|
      invariant Represents(k, y) && EnabledRun(y, k.loads, inputs[n..])
      invariant WholeRun(y, k.loads, inputs[n..]) == WholeRun(x, k.loads, inputs)
      invariant replies + Delivered(y, k.loads, inputs[n..]) == Delivered(x, k.loads, inputs)
    {
      assert inputs[n..][0] == inputs[n] && inputs[n..][1..] == inputs[n + 1..];
      var out := Do(k, inputs[n], y);
      replies := replies + out;
      y := WholeStep(y, k.loads, inputs[n]);
      n := n + 1;
    }
    assert inputs[n..] == [];
  }

  const POWER_ON := Whole(Terminals([[], [], []], 1, 1, 0, 0),
                         World([BLANK, BLANK, BLANK], [[], [], []], Modifiers(false, false, false, false),
                               false, 1, 0, 1), false)

  /** Power-on: the constructed kernel stands for three blank terminals and no task. */
  method Boot(loader: Loader, blocks: seq<Pcb>) returns (k: Kernel)
    requires |blocks| == MAX_PROCESSES
    requires forall i :: 0 <= i < MAX_PROCESSES ==> blocks[i].args == Fill(MAX_ARGS, NUL)
    ensures fresh(k.Repr()) && k.loads == loader && Represents(k, POWER_ON)
  {
    hide Represents, Inv, Ok, Console.Terminal, Console.Terminals, Console.Valid, Console.Mapped, Keyboard.Valid,
         Keyboard.View;
    var con := new Console();
    var kb := new Keyboard(con);
    k := new Kernel(con, kb, loader, blocks);
    StartRepresents(k);
  }

  lemma StartRepresents(k: Kernel)
    requires k.Valid() && Runs.Initial(k.Tables()) && k.kb.View() == POWER_ON.w && k.kb.Idle()
    ensures Represents(k, POWER_ON)
  {
    hide Inv, Ok;
    StartInv(k.Tables());
  }

  lemma StartInv(s: State)
    requires Runs.Initial(s)
    ensures Inv(s, POWER_ON.a) && Ok(POWER_ON)
  {
    hide Inv;
    Runs.InitialInv(s);
  }
}
