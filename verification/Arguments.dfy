/** Command arguments from execute to getargs. */
module Arguments {
  import opened Bytes
  import opened Process
  import opened Refinement
  import opened Runs
  import opened Scheduling

  // ---------------------------------------------------------------- what the parser means

  lemma {:induction false} NameEndIs(command: seq<byte>, i: nat)
    requires i <= |command|
    ensures var r := NameEnd(command, i);
            && (forall j :: i <= j < r ==> command[j] != SPACE)
            && (i <= NAME_SIZE ==> r <= NAME_SIZE)
            && (r < |command| && r < NAME_SIZE ==> command[r] == SPACE)
    decreases |command| - i
  {
    if i < |command| && command[i] != SPACE && i < NAME_SIZE {
      NameEndIs(command, i + 1);
    }
  }

  lemma {:induction false} SkipSpacesIs(s: seq<byte>, i: nat)
    requires i <= |s|
    ensures forall j :: i <= j < SkipSpaces(s, i) ==> s[j] == SPACE
    decreases |s| - i
  {
    if i < |s| && s[i] == SPACE {
      SkipSpacesIs(s, i + 1);
    }
  }

  /** A command is its file name, then spaces, then its tail: the name is the longest space-free
      prefix of at most 32 bytes, and the tail does not start with a space. */
  lemma CommandSplits(command: seq<byte>)
    ensures exists k: nat :: command == FileName(command) + Fill(k, SPACE) + ArgTail(command)
    ensures SPACE !in FileName(command) && |FileName(command)| <= NAME_SIZE
    ensures FileName(command) != command && |FileName(command)| < NAME_SIZE ==> command[|FileName(command)|] == SPACE
    ensures ArgTail(command) != [] ==> ArgTail(command)[0] != SPACE
  {
    var n := NameEnd(command, 0);
    var m := SkipSpaces(command, n);
    NameEndIs(command, 0);
    SkipSpacesIs(command, n);
    assert command[n..m] == Fill(m - n, SPACE);
    assert command == command[..n] + command[n..m] + command[m..];
  }

  // ---------------------------------------------------------------- getargs

  /** The size test of getargs.  The byte count less one is compared as unsigned, so a count of 0 passes. */
  predicate Fits(args: seq<byte>, nbytes: nat) {
    nbytes == 0 || |CString(args)| <= nbytes - 1
  }

  /** getargs on these argument bytes yields the tail, and succeeds iff the tail and a NUL fit. */
  ghost predicate ReadsBack(args: seq<byte>, tail: seq<byte>) {
    && CString(args) == tail && NUL in args
    && (forall n: nat :: Fits(args, n) <==> n == 0 || |tail| + 1 <= n)
    && forall n: nat, rest: seq<byte> :: |tail| + 1 <= n <= |args + rest| ==> CString((args + rest)[..n]) == tail
  }

  lemma {:induction false} ChainAt(pcbs: seq<Pcb>, head: int, stack: seq<Task>, k: nat)
    requires |pcbs| == MAX_PROCESSES && IsChain(pcbs, head, stack) && k < |stack|
    ensures 1 <= stack[k].num <= MAX_PROCESSES && Represents(pcbs[stack[k].num - 1], stack[k])
    decreases |stack|
  {
    if k > 0 {
      ChainAt(pcbs, Head(stack[1..]), stack[1..], k - 1);
    }
  }

  /** The argument bytes of a live process read back as its command tail, and the terminator is there
      although execute writes none. */
  lemma ArgsReadBack(pcb: Pcb, task: Task)
    requires Represents(pcb, task)
    ensures ReadsBack(pcb.args, task.args)
  {
    var zeros := Fill(MAX_ARGS - |task.args|, NUL);
    CStringOf(task.args, zeros);
    assert zeros[0] == NUL && pcb.args[|task.args|] == NUL;
    forall n: nat, rest: seq<byte> | |task.args| + 1 <= n <= |pcb.args + rest|
      ensures CString((pcb.args + rest)[..n]) == task.args
    {
      var after := (pcb.args + rest)[|task.args|..n];
      assert (pcb.args + rest)[..n] == task.args + after;
      assert after[0] == NUL;
      CStringOf(task.args, after);
    }
  }

  /** From execute to getargs over a whole run: as long as the process lives, its block holds exactly the
      tail of the command that started it. */
  lemma ArgumentsSurvive(s: State, a: Terminals, loads: Loader, command: seq<byte>, f: int, mid: seq<Event>)
    requires Inv(s, a) && a.total == 4
    requires Accepted(Size(a.stacks), loads, Text(command)) && Allowed(a, loads, Exec(Text(command), f))
    requires var a1 := AStep(a, loads, Exec(Text(command), f));
             AllowedRun(a1, loads, mid) && Deep(a1, loads, mid, a.running, |a1.stacks[a.running - 1]|)
    ensures CanStep(s, Exec(Text(command), f))
    ensures var s1 := Step(s, loads, Exec(Text(command), f)); var n := FirstFree(s.slots, 0);
            && n < MAX_PROCESSES && Defined(s1, loads, mid)
            && var r := Run(s1, loads, mid);
               && Shape(r) && r.slots[n] == 1
               && ReadsBack(r.pcbs[n].args, ArgTail(command))
  {
    hide ReadsBack, Forest, IsChain, SameTask;
    var e := Exec(Text(command), f);
    var a1 := AStep(a, loads, e);
    var t := a.running - 1;
    StepRefines(s, a, loads, e);
    hide AStep, Step;
    var s1 := Step(s, loads, e);
    RunRefines(s1, a1, loads, mid);
    DeepKeepsBottom(a1, loads, mid, a.running, |a1.stacks[t]|);
    NewTaskNumber(s, a, loads, command, f);
    TaskInTables(Run(s1, loads, mid), ARun(a1, loads, mid), t, |a1.stacks[t]| - 1, a1.stacks[t][0]);
  }

  lemma NewTaskNumber(s: State, a: Terminals, loads: Loader, command: seq<byte>, f: int)
    requires Inv(s, a) && Allowed(a, loads, Exec(Text(command), f)) && Accepted(Size(a.stacks), loads, Text(command))
    ensures var task := AStep(a, loads, Exec(Text(command), f)).stacks[a.running - 1][0];
            task.num == FirstFree(s.slots, 0) + 1 && task.args == ArgTail(command) &&
              FirstFree(s.slots, 0) < MAX_PROCESSES
  {
    SlotFound(s, a.stacks);
    LeastFreeIsFirstFree(s.slots, a.stacks, 1);
  }

  lemma TaskInTables(r: State, a: Terminals, t: int, i: nat, task: Task)
    requires Inv(r, a) && 0 <= t < 3 && i < |a.stacks[t]| && SameTask(task, FromBottom(a.stacks[t], i))
    ensures 1 <= task.num <= MAX_PROCESSES && r.slots[task.num - 1] == 1
    ensures ReadsBack(r.pcbs[task.num - 1].args, task.args)
  {
    hide ReadsBack, Represents, IsChain, Resumable, Context, Clean, Counted, Count;
    var k := |a.stacks[t]| - 1 - i;
    assert IsChain(r.pcbs, r.highest[t], a.stacks[t]);
    ChainAt(r.pcbs, r.highest[t], a.stacks[t], k);
    ArgsReadBack(r.pcbs[task.num - 1], a.stacks[t][k]);
    CountAt(a.stacks[t], k);
    assert r.slots[task.num - 1] == Occurs(a.stacks, task.num);
  }
}
