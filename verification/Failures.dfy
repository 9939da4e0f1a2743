/** Reachable states in which the kernel does not do what its description says, each with the inputs that lead there. */
module Failures {
  import opened Bytes
  import opened Screen
  import opened World
  import opened Process
  import opened Console
  import opened Keyboard
  import opened Kernel
  import opened Scheduling
  import S = System

  const KEY_F2 := KEY_F1 + 1
  const A: byte := 97
  const NO_KEYS := Modifiers(false, false, false, false)

  /** Some enabled run from power-on ends here. */
  ghost predicate Reachable(x: S.Whole, loads: Loader) {
    exists inputs :: S.EnabledRun(S.POWER_ON, loads, inputs) && S.WholeRun(S.POWER_ON, loads, inputs) == x
  }

  lemma {:induction false} RunThenStep(x: S.Whole, loads: Loader, inputs: seq<S.Input>, i: S.Input)
    requires S.EnabledRun(x, loads, inputs) && S.Enabled(S.WholeRun(x, loads, inputs), loads, i)
    ensures S.EnabledRun(x, loads, inputs + [i])
    ensures S.WholeRun(x, loads, inputs + [i]) == S.WholeStep(S.WholeRun(x, loads, inputs), loads, i)
    decreases |inputs|
  {
    hide S.Enabled, S.WholeStep;
    if inputs == [] {
      assert (inputs + [i])[0] == i && (inputs + [i])[1..] == [];
    } else {
      assert (inputs + [i])[0] == inputs[0] && (inputs + [i])[1..] == inputs[1..] + [i];
      RunThenStep(S.WholeStep(x, loads, inputs[0]), loads, inputs[1..], i);
    }
  }

  lemma ReachStep(x: S.Whole, loads: Loader, i: S.Input)
    requires Reachable(x, loads) && S.Ok(x) && S.Enabled(x, loads, i)
    ensures Reachable(S.WholeStep(x, loads, i), loads) && S.Ok(S.WholeStep(x, loads, i))
  {
    hide S.EnabledRun, S.WholeRun, S.WholeStep, S.Enabled;
    var inputs :| S.EnabledRun(S.POWER_ON, loads, inputs) && S.WholeRun(S.POWER_ON, loads, inputs) == x;
    RunThenStep(S.POWER_ON, loads, inputs, i);
  }

  lemma PowerOn(loads: Loader)
    ensures S.Ok(S.POWER_ON) && Reachable(S.POWER_ON, loads)
  {
    assert S.EnabledRun(S.POWER_ON, loads, []) && S.WholeRun(S.POWER_ON, loads, []) == S.POWER_ON;
  }

  // ---------------------------------------------------------------- boot

  /** Nobody has typed anything yet. */
  predicate Untyped(w: World) {
    WorldShape(w) && w.lines == [[], [], []] && w.mods == NO_KEYS && !w.enter && w.pending == 0
  }

  /** n boot ticks. */
  lemma {:induction false} BootTo(loads: Loader, f: seq<int>, n: nat) returns (x: S.Whole)
    requires loads(SHELL) && |f| == 4 && n <= 4
    ensures Reachable(x, loads) && S.Ok(x) && x.a == BootAfter(f, n) && Untyped(x.w)
    decreases n
  {
    hide BootAfter, Reachable, Untyped, S.WholeStep, S.Enabled;
    if n == 0 {
      PowerOn(loads);
      PowerOnIsUntyped(f);
      x := S.POWER_ON;
    } else {
      var y := BootTo(loads, f, n - 1);
      BootStep(y, loads, f, n - 1);
      ReachStep(y, loads, S.Sys(Tick(f[n - 1])));
      x := S.WholeStep(y, loads, S.Sys(Tick(f[n - 1])));
    }
  }

  lemma PowerOnIsUntyped(f: seq<int>)
    requires |f| == 4
    ensures Untyped(S.POWER_ON.w) && S.POWER_ON.a == BootAfter(f, 0)
  {
  }

  lemma BootStep(x: S.Whole, loads: Loader, f: seq<int>, n: nat)
    requires loads(SHELL) && |f| == 4 && n < 4 && S.Ok(x) && x.a == BootAfter(f, n) && Untyped(x.w)
    ensures S.Enabled(x, loads, S.Sys(Tick(f[n])))
    ensures var y := S.WholeStep(x, loads, S.Sys(Tick(f[n]))); y.a == BootAfter(f, n + 1) && Untyped(y.w)
  {
    hide BootAfter, AStep, Allowed;
    BootTick(loads, f, n);
  }

  /** Five ticks: terminal 1 runs and is shown, and every terminal has its shell. */
  lemma Started(loads: Loader, f: seq<int>) returns (x: S.Whole)
    requires loads(SHELL) && |f| == 5
    ensures Reachable(x, loads) && S.Ok(x) && Untyped(x.w)
    ensures x.a.total == 4 && x.a.running == x.a.shown == 1 && x.a.pending == 0 && Size(x.a.stacks) == 3
    ensures forall t :: 0 <= t < 3 ==> |x.a.stacks[t]| == 1 && x.a.stacks[t][0].args == []
  {
    var y := BootTo(loads, f[..4], 4);
    hide Reachable, Untyped;
    ReachStep(y, loads, S.Sys(Tick(f[4])));
    x := S.WholeStep(y, loads, S.Sys(Tick(f[4])));
    TickKeepsWorld(y, loads, f[4]);
  }

  lemma TickKeepsWorld(x: S.Whole, loads: Loader, f: int)
    requires S.Ok(x) && x.a.total == 4 && S.Enabled(x, loads, S.Sys(Tick(f))) && Untyped(x.w)
    ensures Untyped(S.WholeStep(x, loads, S.Sys(Tick(f))).w)
  {
  }

  // ---------------------------------------------------------------- getargs

  /** A command with arguments is started on terminal 1; after one more tick terminal 2 runs, its shell asks for its
      arguments, has none, and gets those of the command on terminal 1. */
  lemma OthersArguments(loads: Loader, f: seq<int>, command: seq<byte>, g: int, h: int, size: nat, beyond: seq<byte>)
    returns (x: S.Whole)
    requires loads(SHELL) && |f| == 5 && loads(FileName(command)) && NulFree(command)
    requires 0 < |ArgTail(command)| < MAX_ARGS && |ArgTail(command)| < size <= MAX_ARGS + |beyond|
    ensures Reachable(x, loads) && S.Ok(x) && S.Enabled(x, loads, S.Getargs(size, beyond))
    ensures x.a.running == 2 && Current(x.a).args == []
    ensures S.Answer(x, loads, S.Getargs(size, beyond)) == [S.Tail(Some(ArgTail(command)))]
  {
    hide Reachable, Untyped, ArgTail, FileName, NulFree, S.WholeStep, AStep;
    var y := Started(loads, f);
    StartCommand(y, loads, command, g);
    ReachStep(y, loads, S.Sys(Exec(Text(command), g)));
    var z := S.WholeStep(y, loads, S.Sys(Exec(Text(command), g)));
    MoveOn(z, loads, h);
    ReachStep(z, loads, S.Sys(Tick(h)));
    x := S.WholeStep(z, loads, S.Sys(Tick(h)));
  }

  lemma StartCommand(x: S.Whole, loads: Loader, command: seq<byte>, g: int)
    requires S.Ok(x) && x.a.total == 4 && x.a.running == x.a.shown == 1 && Size(x.a.stacks) == 3
    requires loads(FileName(command)) && |ArgTail(command)| < MAX_ARGS && NulFree(command)
    ensures S.Enabled(x, loads, S.Sys(Exec(Text(command), g)))
    ensures var a := S.WholeStep(x, loads, S.Sys(Exec(Text(command), g))).a;
            && a.total == 4 && a.running == a.shown == 1 && a.pending == x.a.pending && |a.stacks| == 3
            && a.stacks[0] != [] && a.stacks[0][0].args == ArgTail(command) && a.stacks[1] == x.a.stacks[1]
  {
    hide ArgTail, FileName, NulFree, LeastFree;
  }

  /** A tick with no switch pending: the running terminal moves on, arguments stay. */
  lemma MoveOn(x: S.Whole, loads: Loader, h: int)
    requires S.Ok(x) && x.a.total == 4 && x.a.running == 1 && x.a.pending == 0 && loads(SHELL)
    ensures S.Enabled(x, loads, S.Sys(Tick(h)))
    ensures var a := S.WholeStep(x, loads, S.Sys(Tick(h))).a;
            && a.total == 4 && a.running == 2 && a.shown == x.a.shown && |a.stacks| == 3
            && a.stacks[0] != [] && a.stacks[0][0].args == x.a.stacks[0][0].args && a.stacks[1] == x.a.stacks[1]
  {
  }

  // ---------------------------------------------------------------- lines

  lemma KeyReach(x: S.Whole, loads: Loader, code: int)
    requires Reachable(x, loads) && S.Ok(x) && x.a.total == 4 && 0 <= code < 256 && !IsSecondRequest(x.w, code)
    ensures S.Enabled(x, loads, S.Key(code))
    ensures var y := S.WholeStep(x, loads, S.Key(code));
            Reachable(y, loads) && S.Ok(y) && y.a.total == 4 && y.w == KeyStep(x.w, code) && y.a.running == x.a.running
  {
    hide Reachable, KeyStep, IsSecondRequest;
    ReachStep(x, loads, S.Key(code));
  }

  /** Typing "a", and asking for terminal 2, from terminal 1. */
  lemma TypeA(w: World)
    requires Untyped(w) && w.shown == 1
    ensures var r := KeyStep(w, KEY_A);
            WorldShape(r) && r == w.(lines := [[A], [], []], terms := r.terms) && !IsSecondRequest(w, KEY_A)
  {
    hide Put;
    assert CHAR_LIST[KEY_A - 1] == 'a';
    assert Line(w) == [] && Line(w) + [A] == [A];
    assert Printed(w.mods, KEY_A) == A;
    assert w.lines[0 := [A]] == [[A], [], []];
  }

  lemma PressEnter(w: World)
    requires WorldShape(w) && w.mods == NO_KEYS
    ensures KeyStep(w, ENTER_PRESS) == w.(enter := true) && !IsSecondRequest(w, ENTER_PRESS)
  {
  }

  lemma AskForTwo(w: World)
    requires WorldShape(w) && w.mods == NO_KEYS && w.shown == 1 && w.pending == 0
    ensures var v := KeyStep(w, ALT_PRESSED);
            && !IsSecondRequest(w, ALT_PRESSED) && !IsSecondRequest(v, KEY_F2)
            && KeyStep(v, KEY_F2) == w.(mods := NO_KEYS.(alt := true), pending := 2)
  {
  }

  /** Terminal 1 runs and is shown, "a" is typed there, and then terminal 2 is asked for. */
  lemma TypedThenAsked(loads: Loader, f: seq<int>, enter: bool) returns (x: S.Whole)
    requires loads(SHELL) && |f| == 5
    ensures Reachable(x, loads) && S.Ok(x) && x.a.total == 4 && x.a.running == 1
    ensures x.w.shown == 1 && x.w.pending == 2 && x.w.lines == [[A], [], []] && x.w.enter == enter && x.w.mods.alt
  {
    x := Started(loads, f);
    hide Reachable, KeyStep, IsSecondRequest, S.WholeStep, S.Enabled;
    TypeA(x.w);
    KeyReach(x, loads, KEY_A);
    x := S.WholeStep(x, loads, S.Key(KEY_A));
    if enter {
      PressEnter(x.w);
      KeyReach(x, loads, ENTER_PRESS);
      x := S.WholeStep(x, loads, S.Key(ENTER_PRESS));
    }
    AskForTwo(x.w);
    KeyReach(x, loads, ALT_PRESSED);
    x := S.WholeStep(x, loads, S.Key(ALT_PRESSED));
    KeyReach(x, loads, KEY_F2);
    x := S.WholeStep(x, loads, S.Key(KEY_F2));
  }

  /** "a", Enter, Alt-F2: the reader on terminal 1 gets nothing, and its line stays. */
  lemma ReadsOthersLine(loads: Loader, f: seq<int>, n: nat) returns (x: S.Whole)
    requires loads(SHELL) && |f| == 5 && n > 0
    ensures Reachable(x, loads) && S.Ok(x) && S.Enabled(x, loads, S.Read(n)) && x.w.lines[x.w.running - 1] == [A]
    ensures S.Answer(x, loads, S.Read(n)) == [S.Typed([])]
    ensures S.WholeStep(x, loads, S.Read(n)).w.lines[x.w.running - 1] == [A]
  {
    x := TypedThenAsked(loads, f, true);
    hide Reachable, Put;
  }

  /** A second request in a kernel that stands for x replaces the shown terminal's line by the owner's. */
  lemma KernelOverwrites(k: Kernel, x: S.Whole)
    requires S.Represents(k, x)
    ensures WorldShape(x.w) && k.kb.LinesAfterRequest()[x.w.shown - 1] == Line(x.w)
  {
    hide Inv, AShape, Console.Valid, Console.Mapped, Keyboard.View, Keyboard.LinesAfterRequest, Line;
    k.kb.RequestOverwrites();
  }

  /** "a", Alt-F2, and Alt-F3 before the next tick: the line of terminal 1 is lost in any kernel k in that state. */
  lemma SecondRequestLosesLine(loads: Loader, f: seq<int>, k: Kernel) returns (x: S.Whole)
    requires loads(SHELL) && |f| == 5
    ensures Reachable(x, loads) && S.Ok(x) && IsSecondRequest(x.w, KEY_F3) && x.w.lines == [[A], [], []]
    ensures S.Represents(k, x) ==> k.kb.LinesAfterRequest()[0] == []
  {
    hide Reachable, S.Represents, Keyboard.LinesAfterRequest, Keyboard.Valid, AShape;
    x := TypedThenAsked(loads, f, false);
    if S.Represents(k, x) {
      KernelOverwrites(k, x);
    }
  }
}
