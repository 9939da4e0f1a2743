/** sys_calls.c and scheduler.c over the console and the keyboard: the imperative kernel. */
module Kernel {
  import opened Bytes
  import opened Screen
  import opened World
  import opened Console
  import opened Keyboard
  import P = Process
  import Arguments

  class Kernel {
    const con: Console
    const kb: Keyboard
    /** The file system image, as far as execute is concerned. */
    const loads: P.Loader
    var processCount: int
    var highest: seq<int>
    var slots: seq<int>
    var perTerminal: seq<int>
    var pcbs: seq<P.Pcb>
    var totalTerminal: int
    var pageDir32: int
    var tssEsp0: int
    var vidPage: int
    /** The kernel frame that is loaded when a step ends. */
    var ebp: int

    function Address(page: array<byte>): int {
      if page == con.video then P.VIDEO
      else if page == con.videoBuf1 then P.VIDEO1
      else if page == con.videoBuf2 then P.VIDEO2
      else P.VIDEO3
    }

    ghost function Repr(): set<object> {
      {this} + kb.Repr()
    }

    ghost function Tables(): P.State
      reads this, con, kb
    {
      P.State(processCount, perTerminal, highest, slots, pcbs,
              con.currTerminal, con.currScheduled, totalTerminal, kb.switchFlag,
              pageDir32, tssEsp0, Address(con.videoMem), vidPage, ebp)
    }

    ghost predicate Valid()
      reads this, Repr()
    {
      && kb.con == con && this !in kb.Repr() && kb.Valid() && P.Shape(Tables())
    }

    /** Power-on: zero tables, zero argument bytes, nothing running yet. */
    constructor (console: Console, keyboard: Keyboard, loader: P.Loader, blocks: seq<P.Pcb>)
      requires keyboard.Valid() && keyboard.con == console && keyboard.switchFlag == 0
      requires console.currTerminal == console.currScheduled == 1
      requires |blocks| == P.MAX_PROCESSES
      requires forall i :: 0 <= i < P.MAX_PROCESSES ==> blocks[i].args == Fill(P.MAX_ARGS, NUL)
      ensures Valid() && con == console && kb == keyboard && loads == loader
      ensures Tables().processCount == 0 && Tables().totalTerminal == 0 && Tables().pcbs == blocks
      ensures Tables().perTerminal == Tables().highest == [0, 0, 0] && Tables().slots == [0, 0, 0, 0, 0, 0]
    {
      con, kb, loads := console, keyboard, loader;
      processCount, totalTerminal := 0, 0;
      highest, perTerminal, slots := [0, 0, 0], [0, 0, 0], [0, 0, 0, 0, 0, 0];
      pcbs := blocks;
      pageDir32, tssEsp0, vidPage, ebp := 2, P.EIGHT_MB, 0, 0;
    }

    /** The scan for an empty slot in execute. */
    method FindSlot() returns (i: nat)
      ensures i == P.FirstFree(slots, 0)
    {
      i := 0;
      while i < |slots|
        invariant 0 <= i <= |slots|
        invariant P.FirstFree(slots, 0) == P.FirstFree(slots, i)
      {
        if slots[i] == 0 {
          break;
        }
        i := i + 1;
      }
    }

    /** The file-name loop of execute. */
    method ParseName(command: seq<byte>) returns (filename: seq<byte>, i: nat)
      ensures filename == P.FileName(command) && i == P.NameEnd(command, 0)
    {
      i := 0;
      filename := [];
      while i < |command| && command[i] != SPACE && i < P.NAME_SIZE
        invariant 0 <= i <= |command| && filename == command[..i]
        invariant P.NameEnd(command, 0) == P.NameEnd(command, i)
      {
        filename := filename + [command[i]];
        i := i + 1;
      }
    }

    /** The loops of execute that skip spaces and copy the argument bytes, without a terminator. */
    method ParseArgs(command: seq<byte>, nameEnd: nat, args: seq<byte>) returns (args': seq<byte>)
      requires nameEnd == P.NameEnd(command, 0) && |P.ArgTail(command)| <= |args|
      ensures args' == P.Overlay(args, P.ArgTail(command))
    {
      var i := nameEnd;
      while i < |command| && command[i] == SPACE
        invariant nameEnd <= i <= |command|
        invariant P.SkipSpaces(command, nameEnd) == P.SkipSpaces(command, i)
      {
        i := i + 1;
      }
      ghost var tail := command[i..];
      args' := args;
      var j := 0;
      while i < |command|
        invariant |command| - |tail| <= i <= |command| && j == i - (|command| - |tail|)
        invariant |args'| == |args|
        invariant forall k :: 0 <= k < j ==> args'[k] == tail[k]
        invariant forall k :: j <= k < |args| ==> args'[k] == args[k]
      {
        args' := args'[j := command[i]];
        i := i + 1;
        j := j + 1;
      }
    }

    /** The bookkeeping of a successful execute. */
    method Spawn(command: seq<byte>, frame: int)
      requires P.Shape(Tables()) && P.FirstFree(slots, 0) < P.MAX_PROCESSES && |P.ArgTail(command)| <= P.MAX_ARGS
      modifies this
      ensures Tables() == P.Spawn(old(Tables()), command, frame)
    {
      hide P.ArgTail, P.FirstFree, P.Overlay, P.Pde, P.StackTop, P.PointerTo;
      var i := TakeSlot();
      FillBlock(command, frame, i);
    }

    /** Counters and slot of a new process. */
    method TakeSlot() returns (i: nat)
      requires P.Shape(Tables()) && P.FirstFree(slots, 0) < P.MAX_PROCESSES
      modifies this`processCount, this`perTerminal, this`slots
      ensures i == P.FirstFree(old(slots), 0) && P.Shape(Tables())
      ensures var t := con.currTerminal - 1;
              Tables() == old(Tables()).(processCount := old(processCount) + 1, slots := old(slots)[i := 1],
                                         perTerminal := old(perTerminal)[t := old(perTerminal)[t] + 1])
    {
      hide P.FirstFree;
      var t := con.currTerminal - 1;
      processCount := processCount + 1;
      perTerminal := perTerminal[t := perTerminal[t] + 1];
      i := FindSlot();
      slots := slots[i := 1];
    }

    /** Arguments, page, parent and stack of the process in slot i. */
    method FillBlock(command: seq<byte>, frame: int, i: nat)
      requires P.Shape(Tables()) && i < P.MAX_PROCESSES && |P.ArgTail(command)| <= P.MAX_ARGS
      modifies this`pageDir32, this`highest, this`tssEsp0, this`pcbs, this`ebp
      ensures var t := con.currTerminal - 1;
              Tables() == old(Tables()).(
                pageDir32 := P.Pde(i + 1), highest := old(highest)[t := i + 1],
                tssEsp0 := P.StackTop(i + 1), ebp := frame,
                pcbs := old(pcbs)[i := old(pcbs)[i].(
                  processNum := i + 1, parentTask := P.PointerTo(old(highest)[t]),
                  esp0 := P.StackTop(i + 1), frame := frame,
                  args := P.Overlay(old(pcbs)[i].args, P.ArgTail(command)))])
    {
      hide P.ArgTail, P.Overlay, P.NameEnd, P.FileName, P.Pde, P.GetPcb;
      var t := con.currTerminal - 1;
      var _, nameEnd := ParseName(command);
      var args := ParseArgs(command, nameEnd, pcbs[i].args);
      pageDir32 := P.Pde(i + 1);
      var parent := if highest[t] != 0 then P.GetPcb(highest[t]) else 0;
      highest := highest[t := i + 1];
      tssEsp0 := P.EIGHT_MB - i * P.EIGHT_KB - 4;
      pcbs := pcbs[i := P.Pcb(i + 1, parent, tssEsp0, frame, args, pcbs[i].ebpScheduler)];
      ebp := frame;
    }

    /** execute. */
    method Execute(command: P.Command, frame: int) returns (status: int)
      requires Valid() && P.CanExecute(Tables(), command)
      requires command.Text? && processCount >= P.MAX_PROCESSES ==> con.Mapped()
      modifies this, con`screenX, con`screenY, con.videoMem
      ensures Valid() && con.videoMem == old(con.videoMem)
      ensures Tables() == P.ExecuteStep(old(Tables()), loads, command, frame)
      ensures var full := old(processCount) >= P.MAX_PROCESSES;
              && kb.View() == (if command.Text? && full then Announce(old(kb.View()), MAX_MESSAGE) else old(kb.View()))
              && status == if command.Text? && (full || loads(P.FileName(command.text))) then 0 else -1
    {
      hide Keyboard.Valid, Keyboard.View, Console.Mapped, Announce, P.ArgTail, P.FirstFree, P.Spawn, P.FileName,
           P.NameEnd;
      if command.Null? {
        return -1;
      }
      if processCount >= P.MAX_PROCESSES {
        PrintMessage(MAX_MESSAGE);
        return 0;
      }
      status := Launch(command.text, frame);
    }

    /** execute with a slot to spare. */
    method Launch(command: seq<byte>, frame: int) returns (status: int)
      requires P.Shape(Tables()) && P.FirstFree(slots, 0) < P.MAX_PROCESSES && |P.ArgTail(command)| <= P.MAX_ARGS
      modifies this
      ensures Tables() == if loads(P.FileName(command)) then P.Spawn(old(Tables()), command, frame) else old(Tables())
      ensures status == if loads(P.FileName(command)) then 0 else -1
    {
      hide P.ArgTail, P.FirstFree, P.Spawn, P.FileName, P.NameEnd;
      var filename, _ := ParseName(command);
      if !loads(filename) {
        return -1;
      }
      Spawn(command, frame);
      return 0;
    }

    method PrintMessage(message: seq<byte>)
      requires Valid() && con.Mapped() && NulFree(message) && PERCENT !in message
      modifies con`screenX, con`screenY, con.videoMem
      ensures Valid() && Tables() == old(Tables())
      ensures kb.View() == Announce(old(kb.View()), message)
    {
      hide Attributed, Chars, Write;
      con.PrintMessage(message);
    }

    /** The argument loop of halt. */
    method WipeArgs(p: int)
      requires P.Shape(Tables()) && 0 <= p < P.MAX_PROCESSES
      modifies this`pcbs
      ensures pcbs == old(pcbs)[p := old(pcbs)[p].(args := Fill(P.MAX_ARGS, NUL))]
    {
      var j := 0;
      while j < P.MAX_ARGS
        invariant 0 <= j <= P.MAX_ARGS && |pcbs| == P.MAX_PROCESSES && |pcbs[p].args| == P.MAX_ARGS
        invariant pcbs == old(pcbs)[p := old(pcbs)[p].(args := pcbs[p].args)]
        invariant forall k :: 0 <= k < j ==> pcbs[p].args[k] == NUL
      {
        pcbs := pcbs[p := pcbs[p].(args := pcbs[p].args[j := NUL])];
        j := j + 1;
      }
      assert pcbs[p].args == Fill(P.MAX_ARGS, NUL);
    }

    /** The first half of halt. */
    method Reap()
      requires P.CanHalt(Tables())
      modifies this`processCount, this`perTerminal, this`slots, this`pcbs
      ensures Tables() == P.Reap(old(Tables()))
    {
      var t := con.currScheduled - 1;
      processCount := processCount - 1;
      perTerminal := perTerminal[t := perTerminal[t] - 1];
      WipeArgs(highest[t] - 1);
      slots := slots[highest[t] - 1 := 0];
    }

    /** halt of a process with a parent. */
    method ReturnToParent()
      requires P.CanHalt(Tables()) && pcbs[highest[con.currScheduled - 1] - 1].parentTask != 0
      modifies this
      ensures Tables() == P.HaltStep(old(Tables()), loads, 0)
    {
      var t := con.currScheduled - 1;
      var pcb := pcbs[highest[t] - 1];
      var parent := pcbs[P.SlotOf(pcb.parentTask)];
      Reap();
      pageDir32 := P.Pde(parent.processNum);
      highest := highest[t := parent.processNum];
      tssEsp0 := parent.esp0;
      ebp := pcb.frame;
    }

    /** halt of a root shell: a new shell on a cleared screen. */
    method RestartShell(frame: int)
      requires Valid() && P.CanHalt(Tables()) && processCount <= P.MAX_PROCESSES && loads(P.SHELL)
      requires pcbs[highest[con.currScheduled - 1] - 1].parentTask == 0
      modifies this, con`screenX, con`screenY, con.video, con.videoMem
      ensures Valid() && con.videoMem == old(con.videoMem)
      ensures Tables() == P.HaltStep(old(Tables()), loads, frame)
      ensures kb.View() == ClearShown(old(kb.View()))
    {
      hide Keyboard.Valid, Keyboard.View, P.Reap, P.HaltStep, P.Detached, P.CanHalt, P.CanExecute, P.ExecuteStep,
           P.FileName, ClearShown;
      P.HaltRootExecutes(Tables(), loads, frame);
      Detach();
      kb.ClearScreen();
      assert kb.View() == ClearShown(old(kb.View()));
      var _ := Execute(P.Text(P.SHELL), frame);
    }

    /** The tables of a dead root shell are cleared, and the shown terminal's chain is emptied. */
    method Detach()
      requires P.CanHalt(Tables())
      modifies this`processCount, this`perTerminal, this`slots, this`pcbs, this`highest
      ensures Tables() == P.Detached(old(Tables())) && P.Shape(Tables())
    {
      Reap();
      highest := highest[con.currTerminal - 1 := 0];
    }

    /** halt. */
    method Halt(frame: int)
      requires Valid() && P.CanHalt(Tables()) && processCount <= P.MAX_PROCESSES && loads(P.SHELL)
      modifies this, con`screenX, con`screenY, con.video, con.videoMem
      ensures Valid() && con.videoMem == old(con.videoMem)
      ensures Tables() == P.HaltStep(old(Tables()), loads, frame)
      ensures kb.View() == if old(pcbs[highest[con.currScheduled - 1] - 1].parentTask) != 0 then old(kb.View())
              else ClearShown(old(kb.View()))
    {
      if pcbs[highest[con.currScheduled - 1] - 1].parentTask != 0 {
        ghost var s := Tables();
        assert P.HaltStep(s, loads, 0) == P.HaltStep(s, loads, frame);
        ghost var after := P.HaltStep(s, loads, frame);
        assert P.Shape(after);
        hide Keyboard.Valid, Keyboard.View, P.Reap, P.HaltStep, P.CanHalt;
        ReturnToParent();
      } else {
        hide *;
        RestartShell(frame);
      }
    }

    // -------------------------------------------------------------- scheduler.c

    /** The top of every tick: serve a pending switch, then point the video at the next process. */
    method Remap()
      requires Valid() && (totalTerminal < 4 ==> kb.switchFlag == 0)
      modifies this`vidPage, kb`switchFlag, con`currTerminal, con`videoMem, con.video, con.videoBuf1, con.videoBuf2,
               con.videoBuf3
      ensures Valid() && Tables() == P.Remap(old(Tables()))
      ensures con.videoMem == con.PageOf(con.currScheduled % 3 + 1)
      ensures kb.View() == old(kb.View()).(shown := Owner(old(kb.View())), pending := 0)
    {
      hide Keyboard.Valid, Keyboard.View, Console.PageOf;
      if kb.switchFlag != 0 {
        ServeSwitch();
      } else {
        NoSwitch();
      }
      MapVideo(con.currScheduled % 3 + 1);
    }

    lemma NoSwitch()
      requires Valid() && kb.switchFlag == 0
      ensures kb.View() == kb.View().(shown := Owner(kb.View()), pending := 0)
    {
    }

    /** Points the kernel's and the user's video output at terminal t. */
    method MapVideo(t: int)
      requires Valid() && 1 <= t <= 3
      modifies this`vidPage, con`videoMem
      ensures Valid() && kb.View() == old(kb.View())
      ensures con.videoMem == con.PageOf(t)
      ensures var page := P.Screen(t, con.currTerminal);
              Tables() == old(Tables()).(videoMem := page, vidPage := page + P.VID_PAGE)
    {
      hide Attributed, Chars;
      if t == con.currTerminal {
        vidPage := P.VIDEO + P.VID_PAGE;
        con.videoMem := con.video;
      } else {
        vidPage := P.Buffer(t) + P.VID_PAGE;
        con.videoMem := con.Buffer(t);
      }
    }

    /** The video part of vidmap; the pointer handed to the user is the same for every process. */
    method Vidmap(address: int) returns (status: int)
      requires Valid()
      modifies this`vidPage, con`videoMem
      ensures Valid() && kb.View() == old(kb.View())
      ensures Tables() == P.VidmapStep(old(Tables()), address)
      ensures if P.PROGRAM_START <= address < P.PROGRAM_END then status == 0 && con.Mapped()
              else status == -1 && con.videoMem == old(con.videoMem)
    {
      hide Keyboard.Valid, Keyboard.View;
      if address < P.PROGRAM_START || address >= P.PROGRAM_END {
        return -1;
      }
      ConScheduled();
      MapVideo(con.currScheduled);
      return 0;
    }

    lemma ConScheduled()
      requires Valid()
      ensures 1 <= con.currScheduled <= 3 && P.Shape(Tables()) && kb.con == con && kb.Valid() && this !in kb.Repr()
    {
    }

    method ServeSwitch()
      requires Valid() && kb.switchFlag != 0
      modifies kb`switchFlag, con`currTerminal, con.video, con.videoBuf1, con.videoBuf2, con.videoBuf3
      ensures Valid()
      ensures Tables() == old(Tables()).(currTerminal := old(kb.switchFlag), switchFlag := 0)
      ensures kb.View() == old(kb.View()).(shown := Owner(old(kb.View())), pending := 0)
    {
      hide Attributed, Chars, Console.Terminal;
      con.SwitchTerminal(con.currTerminal, kb.switchFlag);
      kb.switchFlag := 0;
    }

    /** Stores the running process's registers in its block. */
    method SaveRunning(frame: int)
      requires P.Shape(Tables()) && 1 <= highest[con.currScheduled - 1] <= P.MAX_PROCESSES
      modifies this`pcbs
      ensures var p := highest[con.currScheduled - 1] - 1;
              Tables() == old(Tables()).(pcbs := old(pcbs)[p := old(pcbs)[p].(esp0 := tssEsp0, ebpScheduler := frame)])
    {
      var p := highest[con.currScheduled - 1] - 1;
      pcbs := pcbs[p := pcbs[p].(esp0 := tssEsp0)];
      pcbs := pcbs[p := pcbs[p].(ebpScheduler := frame)];
    }

    /** The switch that ends a tick after boot. */
    method SwitchProcess(frame: int)
      requires P.Shape(Tables()) && 1 <= highest[con.currScheduled - 1] <= P.MAX_PROCESSES
      requires 1 <= highest[con.currScheduled % 3] <= P.MAX_PROCESSES
      modifies this`pageDir32, this`pcbs, this`tssEsp0, this`ebp, con`currScheduled
      ensures Tables() == P.Switched(old(Tables()), frame)
    {
      var next := con.currScheduled % 3 + 1;
      pageDir32 := P.Pde(highest[next - 1]);
      var p := highest[con.currScheduled - 1] - 1;
      pcbs := pcbs[p := pcbs[p].(esp0 := tssEsp0)];
      var q := highest[next - 1] - 1;
      tssEsp0 := pcbs[q].esp0;
      con.currScheduled := next;
      pcbs := pcbs[p := pcbs[p].(ebpScheduler := frame)];
      ebp := pcbs[q].ebpScheduler;
    }

    /** Boot: the next terminal comes up with its cursor home.  No line has been typed yet. */
    method ShowNext(n: int)
      requires Valid() && kb.Idle() && 1 <= n <= 3 && con.currTerminal == (if n == 1 then 1 else n - 1)
      modifies con`currTerminal, con`screenX, con`screenY, con.video, con.videoBuf1, con.videoBuf2, con.videoBuf3
      ensures Valid() && con.currTerminal == n && kb.Idle()
      ensures Tables() == old(Tables()).(currTerminal := n)
      ensures var w := old(kb.View());
              kb.View() == w.(shown := n, terms := w.terms[n - 1 := w.terms[n - 1].(x := 0, y := 0)])
    {
      hide Attributed, Chars, Console.Terminal;
      if n != 1 {
        con.SwitchTerminal(n - 1, n);
      }
      con.SetCursors(0, 0);
    }

    /** A boot tick from the remap up to its call of execute. */
    method PrepareShell(frame: int)
      requires Valid() && kb.Idle() && totalTerminal < 3
      requires totalTerminal >= 1 ==> 1 <= highest[con.currScheduled - 1] <= P.MAX_PROCESSES
      requires con.currTerminal == con.currScheduled == if totalTerminal == 0 then 1 else totalTerminal
      modifies this`totalTerminal, this`pcbs, this`ebp, con`currTerminal, con`currScheduled, con`screenX, con`screenY
      modifies con.video, con.videoBuf1, con.videoBuf2, con.videoBuf3
      ensures Valid() && kb.Idle()
      ensures Tables() == P.NextShell(old(Tables()), frame)
      ensures kb.View() == TickWorld(old(kb.View()), old(totalTerminal))
    {
      hide Tables, Keyboard.Idle, Keyboard.Valid, Keyboard.View, P.NextShell, P.Shape, TickWorld;
      ReadyToShow(frame);
      ShowNext(totalTerminal + 1);
      StartNext(frame);
    }

    /** Showing the next terminal first makes no difference to the tables, and is what the abstract tick does. */
    lemma ReadyToShow(frame: int)
      requires Valid() && totalTerminal < 3 && (totalTerminal == 0 ==> con.currTerminal == 1)
      requires totalTerminal >= 1 ==> 1 <= highest[con.currScheduled - 1] <= P.MAX_PROCESSES
      ensures var s := Tables(); var w := kb.View(); var n := totalTerminal + 1;
              && 0 <= totalTerminal && s.totalTerminal == totalTerminal && P.Shape(s) && P.Shape(s.(currTerminal := n))
              && P.NextShell(s.(currTerminal := n), frame) == P.NextShell(s, frame)
              && w.(shown := n, terms := w.terms[n - 1 := w.terms[n - 1].(x := 0, y := 0)]).(running := n) ==
                 TickWorld(w, totalTerminal)
    {
      hide Keyboard.Valid, Keyboard.View, P.NextShell, TickWorld;
      P.NextShellShows(Tables(), frame);
      BootWorld(kb.View(), totalTerminal);
    }

    /** Without a pending switch no terminal and no line changes at the top of a tick. */
    method RemapIdle()
      requires Valid() && kb.Idle()
      modifies this`vidPage, kb`switchFlag, con`currTerminal, con`videoMem, con.video, con.videoBuf1, con.videoBuf2,
               con.videoBuf3
      ensures Valid() && kb.Idle() && con.currTerminal == old(con.currTerminal)
      ensures Tables() == P.Remap(old(Tables()))
      ensures kb.View() == old(kb.View())
    {
      hide Keyboard.Valid, Keyboard.View, P.Screen;
      NoSwitch();
      Remap();
    }

    /** Boot: the last shell's registers are saved and the next terminal becomes the running one. */
    method StartNext(frame: int)
      requires Valid() && 0 <= totalTerminal < 3 && con.currTerminal == totalTerminal + 1
      requires con.currScheduled == if totalTerminal == 0 then 1 else totalTerminal
      requires totalTerminal >= 1 ==> 1 <= highest[con.currScheduled - 1] <= P.MAX_PROCESSES
      modifies this`totalTerminal, this`pcbs, this`ebp, con`currScheduled
      ensures Valid() && (old(kb.Idle()) ==> kb.Idle())
      ensures Tables() == P.NextShell(old(Tables()), frame)
      ensures kb.View() == old(kb.View()).(running := totalTerminal) && totalTerminal == old(totalTerminal) + 1
    {
      hide P.NextShell, Attributed, Chars;
      AdvanceTables(frame);
    }

    method AdvanceTables(frame: int)
      requires P.Shape(Tables()) && totalTerminal < 3 && con.currTerminal == totalTerminal + 1
      requires totalTerminal >= 1 ==> 1 <= highest[con.currScheduled - 1] <= P.MAX_PROCESSES
      modifies this`totalTerminal, this`pcbs, this`ebp, con`currScheduled
      ensures Tables() == P.NextShell(old(Tables()), frame)
      ensures totalTerminal == old(totalTerminal) + 1
      ensures con.currScheduled == if totalTerminal == 1 then old(con.currScheduled) else old(con.currScheduled) % 3 + 1
    {
      totalTerminal := totalTerminal + 1;
      if totalTerminal != 1 {
        SaveRunning(frame);
        con.currScheduled := con.currScheduled % 3 + 1;
      }
      ebp := frame;
    }

    lemma PagePointer()
      requires Valid()
      ensures con.videoMem in con.Pages()
    {
    }

    /** A boot tick after the remap. */
    method StartShell(frame: int)
      requires Valid() && kb.Idle() && totalTerminal < 3 && loads(P.SHELL)
      requires processCount < P.MAX_PROCESSES && P.FirstFree(slots, 0) < P.MAX_PROCESSES
      requires totalTerminal >= 1 ==> 1 <= highest[con.currScheduled - 1] <= P.MAX_PROCESSES
      requires con.currTerminal == con.currScheduled == if totalTerminal == 0 then 1 else totalTerminal
      modifies this, con`currTerminal, con`currScheduled, con`screenX, con`screenY
      modifies con.video, con.videoBuf1, con.videoBuf2, con.videoBuf3
      ensures Valid() && kb.Idle()
      ensures P.CanExecute(P.NextShell(old(Tables()), frame), P.Text(P.SHELL))
      ensures Tables() == P.ExecuteStep(P.NextShell(old(Tables()), frame), loads, P.Text(P.SHELL), frame)
      ensures kb.View() == TickWorld(old(kb.View()), old(totalTerminal))
    {
      hide Keyboard.Valid, Keyboard.View, P.ExecuteStep, TickWorld, P.ArgTail;
      P.ShellHasNoTail();
      PrepareShell(frame);
      PagePointer();
      var _ := Execute(P.Text(P.SHELL), frame);
    }

    /** The first three ticks: one shell each. */
    method BootTick(frame: int)
      requires Valid() && kb.Idle() && P.CanTick(Tables()) && totalTerminal < 3 && processCount < P.MAX_PROCESSES
      requires loads(P.SHELL)
      requires con.currTerminal == con.currScheduled == if totalTerminal == 0 then 1 else totalTerminal
      modifies this, kb`switchFlag, con`currTerminal, con`currScheduled, con`videoMem, con`screenX, con`screenY
      modifies con.video, con.videoBuf1, con.videoBuf2, con.videoBuf3
      ensures Valid() && kb.Idle()
      ensures Tables() == P.TickStep(old(Tables()), loads, frame)
      ensures kb.View() == TickWorld(old(kb.View()), old(totalTerminal))
    {
      hide Keyboard.Valid, Keyboard.View, P.ExecuteStep, P.NextShell, TickWorld;
      RemapIdle();
      StartShell(frame);
    }

    /** pit_handler. */
    method Tick(frame: int)
      requires Valid() && P.CanTick(Tables()) && loads(P.SHELL) && (totalTerminal < 4 ==> kb.Idle())
      requires totalTerminal < 3 ==> processCount < P.MAX_PROCESSES
      requires totalTerminal < 4 ==>
               con.currTerminal == con.currScheduled == if totalTerminal == 0 then 1 else totalTerminal
      modifies this, kb`switchFlag, con`currTerminal, con`currScheduled, con`videoMem, con`screenX, con`screenY
      modifies con.video, con.videoBuf1, con.videoBuf2, con.videoBuf3
      ensures Valid()
      ensures Tables() == P.TickStep(old(Tables()), loads, frame)
      ensures kb.View() == TickWorld(old(kb.View()), old(totalTerminal))
      ensures old(totalTerminal) < 4 ==> kb.Idle()
      ensures old(totalTerminal) == 4 ==> con.Mapped()
    {
      hide P.TickStep, P.CanTick, TickWorld, Keyboard.Valid, Keyboard.View, Keyboard.Idle, Console.Mapped;
      if totalTerminal < 3 {
        BootTick(frame);
      } else if totalTerminal == 3 {
        LastBootTick(frame);
      } else {
        FullTick(frame);
      }
    }

    /** A tick after boot. */
    method FullTick(frame: int)
      requires Valid() && P.CanTick(Tables()) && totalTerminal == 4
      modifies this, kb`switchFlag, con`currTerminal, con`currScheduled, con`videoMem
      modifies con.video, con.videoBuf1, con.videoBuf2, con.videoBuf3
      ensures Valid() && con.Mapped()
      ensures Tables() == P.TickStep(old(Tables()), loads, frame)
      ensures kb.View() == TickWorld(old(kb.View()), 4)
    {
      hide P.Switched;
      Remap();
      SwitchAfterRemap(frame);
    }

    /** The context switch as a change of what the user sees. */
    method SwitchAfterRemap(frame: int)
      requires Valid() && 1 <= highest[con.currScheduled - 1] <= P.MAX_PROCESSES
      requires 1 <= highest[con.currScheduled % 3] <= P.MAX_PROCESSES
      modifies this`pageDir32, this`pcbs, this`tssEsp0, this`ebp, con`currScheduled
      ensures Valid() && Tables() == P.Switched(old(Tables()), frame)
      ensures kb.View() == old(kb.View()).(running := con.currScheduled) &&
              con.currScheduled == old(con.currScheduled) % 3 + 1
    {
      SwitchProcess(frame);
    }

    /** The fourth tick: back to terminal 1; the third shell keeps running. */
    method LastBootTick(frame: int)
      requires Valid() && kb.Idle() && totalTerminal == 3 && con.currTerminal == con.currScheduled == 3
      modifies this, kb`switchFlag, con`currTerminal, con`currScheduled, con`videoMem
      modifies con.video, con.videoBuf1, con.videoBuf2, con.videoBuf3
      ensures Valid() && kb.Idle()
      ensures P.CanTick(old(Tables())) && Tables() == P.TickStep(old(Tables()), loads, frame)
      ensures kb.View() == TickWorld(old(kb.View()), 3)
    {
      hide Keyboard.Valid, Keyboard.View, Keyboard.Idle, P.Remap;
      RemapIdle();
      ShowFirst();
      BackToFirst(frame);
    }

    /** Terminal 1 comes up again. */
    method ShowFirst()
      requires Valid() && kb.Idle() && con.currTerminal == 3
      modifies con`currTerminal, con.video, con.videoBuf1, con.videoBuf2, con.videoBuf3
      ensures Valid() && kb.Idle()
      ensures Tables() == old(Tables()).(currTerminal := 1) && kb.View() == old(kb.View()).(shown := 1)
    {
      hide Attributed, Chars, Console.Terminal;
      con.SwitchTerminal(3, 1);
    }

    /** The rest of the fourth tick: boot is over. */
    method BackToFirst(frame: int)
      requires Valid() && kb.Idle() && totalTerminal == 3 && con.currScheduled == 3
      modifies this`totalTerminal, this`ebp, con`currScheduled
      ensures Valid() && kb.Idle() && kb.View() == old(kb.View())
      ensures Tables() == old(Tables()).(totalTerminal := 4, currScheduled := 3, ebp := frame)
    {
      hide Attributed, Chars, Console.Terminal;
      totalTerminal := totalTerminal + 1;
      con.currScheduled := 3;
      ebp := frame;
    }

    // -------------------------------------------------------------- getargs

    /** getargs: `beyond` is whatever lies after the argument bytes in memory, which the fixed-size copy
        can also reach.  The byte count less one is compared as an unsigned number. */
    method Getargs(buf: array<byte>, nbytes: nat, beyond: seq<byte>) returns (status: int)
      requires P.Shape(Tables()) && 1 <= highest[con.currTerminal - 1] <= P.MAX_PROCESSES
      requires NUL in pcbs[highest[con.currTerminal - 1] - 1].args
      requires nbytes <= buf.Length && nbytes <= P.MAX_ARGS + |beyond|
      modifies buf
      ensures var args := pcbs[highest[con.currTerminal - 1] - 1].args;
              if Arguments.Fits(args, nbytes) then status == 0 && buf[..nbytes] == (args + beyond)[..nbytes]
              else status == -1 && buf[..] == old(buf[..])
    {
      var args := pcbs[highest[con.currTerminal - 1] - 1].args;
      var character := ArgLength(args);
      var limit := if nbytes == 0 then 0xFFFF_FFFF else nbytes - 1;
      if character > limit {
        return -1;
      }
      CopyBytes(args + beyond, buf, nbytes);
      return 0;
    }

    /** The fixed-size copy of getargs. */
    static method CopyBytes(memory: seq<byte>, buf: array<byte>, n: nat)
      requires n <= buf.Length && n <= |memory|
      modifies buf
      ensures buf[..n] == memory[..n]
    {
      var i := 0;
      while i < n
        invariant 0 <= i <= n
        invariant forall k :: 0 <= k < i ==> buf[k] == memory[k]
      {
        buf[i] := memory[i];
        i := i + 1;
      }
    }

    /** The terminator scan of getargs. */
    static method ArgLength(args: seq<byte>) returns (n: nat)
      requires NUL in args
      ensures n == |CString(args)|
    {
      n := 0;
      while args[n] != NUL
        invariant n < |args| && NUL in args[n..]
        invariant |CString(args)| == n + |CString(args[n..])|
        decreases |args| - n
      {
        assert args[n..][1..] == args[n + 1..];
        n := n + 1;
      }
    }
  }
}
