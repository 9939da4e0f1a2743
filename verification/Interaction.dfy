/** What the three terminals owe their users, over runs of the whole kernel. */
module Interaction {
  import opened Bytes
  import opened Screen
  import opened World
  import opened Process
  import opened Runs
  import opened Scheduling
  import S = System

  // ---------------------------------------------------------------- isolation

  /** Terminals whose screen a step may change: for execute only by the message of a full table, for halt only when a
      root shell is restarted. */
  function ScreensTouched(x: S.Whole, i: S.Input): set<int>
    requires S.Ok(x)
  {
    match i
    case Sys(Tick(_)) => {}
    case Sys(Exec(command, _)) => if command.Text? && Size(x.a.stacks) >= MAX_PROCESSES then {x.w.running} else {}
    case Sys(Halt(_)) => if |x.a.stacks[x.a.running - 1]| == 1 then {x.w.shown} else {}
    case Sys(_) => {}
    case Key(code) => if S.Switches(x, code) then {} else {x.w.shown}
    case Write(_) => {x.w.running}
    case Read(_) => {x.w.shown}
    case Getargs(_, _) => {}
  }

  /** Terminals whose unfinished line a step may change: a write only reaches its own line, and only
      when that terminal does not own the keyboard. */
  function LinesTouched(x: S.Whole, i: S.Input): set<int>
    requires S.Ok(x)
  {
    match i
    case Sys(_) => {}
    case Key(code) => if S.Switches(x, code) then {} else {Owner(x.w)}
    case Write(_) => {x.w.running} - {Owner(x.w)}
    case Read(_) => {Owner(x.w)}
    case Getargs(_, _) => {}
  }

  /** After boot every other screen and line is left exactly as it was, in particular all of them by a
      tick that switches terminals and by a terminal request. */
  lemma StepIsolation(x: S.Whole, loads: Loader, i: S.Input, t: int)
    requires S.Ok(x) && x.a.total == 4 && S.Enabled(x, loads, i) && 1 <= t <= 3
    ensures t !in ScreensTouched(x, i) ==> S.WholeStep(x, loads, i).w.terms[t - 1] == x.w.terms[t - 1]
    ensures t !in LinesTouched(x, i) ==> S.WholeStep(x, loads, i).w.lines[t - 1] == x.w.lines[t - 1]
  {
    match i
    case Sys(e) => CallIsolation(x, loads, e, t);
    case Key(code) => KeyIsolation(x.w, code, t);
    case Write(text) =>
    case Read(_) =>
    case Getargs(_, _) =>
  }

  lemma CallIsolation(x: S.Whole, loads: Loader, e: Event, t: int)
    requires S.Ok(x) && x.a.total == 4 && S.Enabled(x, loads, S.Sys(e)) && 1 <= t <= 3
    ensures t !in ScreensTouched(x, S.Sys(e)) ==> S.WorldPart(x, loads, S.Sys(e)).terms[t - 1] == x.w.terms[t - 1]
    ensures S.WorldPart(x, loads, S.Sys(e)).lines == x.w.lines
  {
    hide Put, Screen.Write, Allowed;
  }

  lemma KeyIsolation(w: World, code: int, t: int)
    requires WorldShape(w) && 1 <= t <= 3
    ensures var r := KeyStep(w, code); var switches := IsSwitch(w.mods, code) && code - KEY_F1 + 1 != w.shown;
            && (switches || t != w.shown ==> r.terms[t - 1] == w.terms[t - 1])
            && (switches || t != Owner(w) ==> r.lines[t - 1] == w.lines[t - 1])
  {
    hide Put, Erased, Printed, NextModifiers;
  }

  /** Along the run terminal t is never touched. */
  predicate Quiet(x: S.Whole, loads: Loader, inputs: seq<S.Input>, t: int)
    requires S.EnabledRun(x, loads, inputs)
    decreases |inputs|
  {
    inputs == [] ||
    (&& t !in ScreensTouched(x, inputs[0]) && t !in LinesTouched(x, inputs[0])
     && Quiet(S.WholeStep(x, loads, inputs[0]), loads, inputs[1..], t))
  }

  lemma {:induction false} QuietTerminalIsKept(x: S.Whole, loads: Loader, inputs: seq<S.Input>, t: int)
    requires S.EnabledRun(x, loads, inputs) && x.a.total == 4 && 1 <= t <= 3 && Quiet(x, loads, inputs, t)
    ensures S.WholeRun(x, loads, inputs).w.terms[t - 1] == x.w.terms[t - 1]
    ensures S.WholeRun(x, loads, inputs).w.lines[t - 1] == x.w.lines[t - 1]
    decreases |inputs|
  {
    if inputs != [] {
      StepIsolation(x, loads, inputs[0], t);
      TotalStays(x, loads, inputs[0]);
      hide S.WholeStep, S.Enabled, ScreensTouched, LinesTouched;
      QuietTerminalIsKept(S.WholeStep(x, loads, inputs[0]), loads, inputs[1..], t);
    }
  }

  lemma TotalStays(x: S.Whole, loads: Loader, i: S.Input)
    requires S.Ok(x) && x.a.total == 4 && S.Enabled(x, loads, i)
    ensures S.WholeStep(x, loads, i).a.total == 4
  {
  }

  // ---------------------------------------------------------------- echo

  /** The cells just before the cursor are the unfinished line. */
  predicate Echoes(t: Term, line: seq<byte>) {
    && InScreen(t) && |line| <= KB_BUF_SIZE
    && |line| <= Pos(t)
    && t.cells[Pos(t) - |line|..Pos(t)] == line
  }

  /** Through line wrap and scrolling, a printed key extends the echoed line. */
  lemma EchoPut(t: Term, line: seq<byte>, c: byte)
    requires Echoes(t, line) && |line| < KB_BUF_SIZE && !IsLineBreak(c)
    ensures Echoes(Put(t, c), line + [c])
  {
    hide Put, Scrolled, Fill;
    PutLinear(t, c);
    var p, n := Pos(t), |line|;
    if p + 1 < CELLS {
      assert t.cells[p := c][p - n..p + 1] == t.cells[p - n..p] + [c];
    } else {
      RowsUp(t.cells, n, c);
    }
  }

  /** Moving all rows up by one keeps the n cells before the corner together. */
  lemma RowsUp(cells: seq<byte>, n: nat, c: byte)
    requires |cells| == CELLS && n < LAST_ROW
    ensures (cells[COLS..CELLS - 1] + [c] + Fill(COLS, SPACE))[LAST_ROW - 1 - n..LAST_ROW] ==
            cells[CELLS - 1 - n..CELLS - 1] + [c]
  {
    hide Fill;
    var moved := cells[COLS..CELLS - 1] + [c];
    assert (moved + Fill(COLS, SPACE))[LAST_ROW - 1 - n..LAST_ROW] == moved[LAST_ROW - 1 - n..LAST_ROW];
    assert moved[LAST_ROW - 1 - n..LAST_ROW - 1] == cells[CELLS - 1 - n..CELLS - 1];
  }

  /** Backspace, also back across a row boundary, takes the last byte off both. */
  lemma EchoErase(t: Term, line: seq<byte>)
    requires Echoes(t, line) && line != []
    ensures Pos(t) > 0 && Echoes(Erased(t), line[..|line| - 1])
  {
    var p, n := Pos(t), |line|;
    var e := Erased(t);
    assert Pos(e) == p - 1;
    assert e.cells[p - n..p - 1] == t.cells[p - n..p][..n - 1];
  }

  lemma LowerPrintable(c: int)
    requires CHAR_LOWER <= c <= CHAR_UPPER && c != ENTER_PRESS
    ensures !IsLineBreak(CharAt(CHAR_LIST, c))
  {
    assert CHAR_LIST[c - 1] != '\n' && CHAR_LIST[c - 1] != '\r';
  }

  lemma UpperPrintable(c: int)
    requires CHAR_LOWER <= c <= CHAR_UPPER && c != ENTER_PRESS
    ensures !IsLineBreak(CharAt(UPPER_CHAR_LIST, c))
  {
    assert UPPER_CHAR_LIST[c - 1] != '\n' && UPPER_CHAR_LIST[c - 1] != '\r';
  }

  /** Every character of the scan-code tables, away from Enter, is printable or NUL. */
  lemma NoLineBreakOffEnter(m: Modifiers, c: int)
    requires CHAR_LOWER <= c <= CHAR_UPPER && c != ENTER_PRESS
    ensures !IsLineBreak(Printed(m, c))
  {
    hide CharAt;
    LowerPrintable(c);
    UpperPrintable(c);
  }

  /** The line editor on its own: what a key does to the owner's line, screens aside. */
  function EditLine(m: Modifiers, line: seq<byte>, c: int): seq<byte> {
    if IsClear(m, c) || IsSwitch(m, c) then line else Edited(NextModifiers(m, c), line, c)
  }

  function Edited(m: Modifiers, line: seq<byte>, c: int): seq<byte> {
    if c == KEY_SPACE then AddChar(line, SPACE)
    else if c == BACKSPACE && line != [] then line[..|line| - 1]
    else if c == ENTER_PRESS then line
    else if CHAR_LOWER <= c <= CHAR_UPPER && Printed(m, c) != NUL then AddChar(line, Printed(m, c))
    else line
  }

  function AddChar(line: seq<byte>, c: byte): seq<byte> {
    if |line| < KB_BUF_SIZE then line + [c] else line
  }

  function Fold(m: Modifiers, line: seq<byte>, codes: seq<int>): seq<byte>
    decreases |codes|
  {
    if codes == [] then line else Fold(NextModifiers(m, codes[0]), EditLine(m, line, codes[0]), codes[1..])
  }

  /** Only the keyboard writes to the shown screen, and it neither clears nor switches it. */
  predicate KeyboardOnly(x: S.Whole, i: S.Input)
    requires S.Ok(x)
  {
    match i
    case Sys(Exec(command, _)) => x.w.running != x.w.shown || command.Null? || Size(x.a.stacks) < MAX_PROCESSES
    case Sys(Halt(_)) => |x.a.stacks[x.a.running - 1]| > 1
    case Sys(_) => true
    case Key(code) => !IsClear(x.w.mods, code) && !S.Switches(x, code)
    case Write(_) => x.w.running != x.w.shown
    case Read(_) => false
    case Getargs(_, _) => true
  }

  predicate KeyboardOnlyRun(x: S.Whole, loads: Loader, inputs: seq<S.Input>)
    requires S.EnabledRun(x, loads, inputs)
    decreases |inputs|
  {
    inputs == [] ||
    (KeyboardOnly(x, inputs[0]) && KeyboardOnlyRun(S.WholeStep(x, loads, inputs[0]), loads, inputs[1..]))
  }

  function Codes(inputs: seq<S.Input>): seq<int> {
    if inputs == [] then [] else (if inputs[0].Key? then [inputs[0].code] else []) + Codes(inputs[1..])
  }

  predicate Echoing(w: World)
    requires WorldShape(w)
  {
    w.pending == 0 && Echoes(w.terms[w.shown - 1], Line(w))
  }

  lemma TypeEcho(w: World, c: byte)
    requires WorldShape(w) && Echoing(w) && !IsLineBreak(c)
    ensures Echoing(TypeChar(w, c)) && Line(TypeChar(w, c)) == AddChar(Line(w), c)
  {
    hide Put, Echoes;
    if |Line(w)| < KB_BUF_SIZE {
      EchoPut(w.terms[w.shown - 1], Line(w), c);
    }
  }

  lemma EraseEcho(w: World)
    requires WorldShape(w) && Echoing(w) && Line(w) != []
    ensures Echoing(EraseChar(w)) && Line(EraseChar(w)) == Line(w)[..|Line(w)| - 1]
  {
    EchoErase(w.terms[w.shown - 1], Line(w));
    hide Erased, Echoes, Pos;
  }

  /** The editing branches of the handler, under the modifiers held. */
  lemma EditEcho(w: World, c: int)
    requires WorldShape(w) && Echoing(w)
    ensures var r := EditStep(w, c);
            Echoing(r) && r.shown == w.shown && r.mods == w.mods && Line(r) == Edited(w.mods, Line(w), c)
  {
    hide Put, Erased, Echoes, Printed, TypeChar, EraseChar;
    if c == KEY_SPACE {
      TypeEcho(w, SPACE);
      TypeKeeps(w, SPACE);
    } else if c == BACKSPACE && Line(w) != [] {
      EraseEcho(w);
      EraseKeeps(w);
    } else if c != ENTER_PRESS && CHAR_LOWER <= c <= CHAR_UPPER && Printed(w.mods, c) != NUL {
      NoLineBreakOffEnter(w.mods, c);
      TypeEcho(w, Printed(w.mods, c));
      TypeKeeps(w, Printed(w.mods, c));
    }
  }

  lemma TypeKeeps(w: World, c: byte)
    requires WorldShape(w)
    ensures TypeChar(w, c).shown == w.shown && TypeChar(w, c).mods == w.mods
  {
    hide Put;
  }

  lemma EraseKeeps(w: World)
    requires WorldShape(w) && Line(w) != []
    ensures EraseChar(w).shown == w.shown && EraseChar(w).mods == w.mods
  {
    hide Erased;
  }

  lemma KeyEcho(w: World, c: int)
    requires WorldShape(w) && Echoing(w) && !IsClear(w.mods, c)
    requires !(IsSwitch(w.mods, c) && c - KEY_F1 + 1 != w.shown)
    ensures var r := KeyStep(w, c);
            Echoing(r) && r.shown == w.shown && r.mods == NextModifiers(w.mods, c) &&
              Line(r) == EditLine(w.mods, Line(w), c)
  {
    hide EditStep, Edited, Echoes, NextModifiers;
    if !IsSwitch(w.mods, c) {
      EditEcho(w.(mods := NextModifiers(w.mods, c)), c);
    }
  }

  lemma OtherEcho(x: S.Whole, loads: Loader, i: S.Input)
    requires S.Ok(x) && x.a.total == 4 && S.Enabled(x, loads, i) && KeyboardOnly(x, i) && !i.Key? && Echoing(x.w)
    ensures var r := S.WholeStep(x, loads, i).w;
            r.shown == x.w.shown && r.pending == 0 && r.mods == x.w.mods && r.lines[x.w.shown - 1] == Line(x.w)
            && r.terms[x.w.shown - 1] == x.w.terms[x.w.shown - 1]
  {
    hide Put, Screen.Write, Echoes, AStep, Allowed;
  }

  /** Echo over runs: while only the keyboard writes to the shown terminal, whatever else the kernel does,
      the typed line stands just before the cursor, and it is the fold of the keys. */
  lemma {:induction false} EchoRun(x: S.Whole, loads: Loader, inputs: seq<S.Input>)
    requires S.EnabledRun(x, loads, inputs) && x.a.total == 4 && KeyboardOnlyRun(x, loads, inputs) && Echoing(x.w)
    ensures var r := S.WholeRun(x, loads, inputs).w;
            Echoing(r) && r.shown == x.w.shown && Line(r) == Fold(x.w.mods, Line(x.w), Codes(inputs))
    decreases |inputs|
  {
    hide S.Enabled, S.WholeStep, KeyboardOnly, Echoing, EditLine, NextModifiers, Fold, Codes;
    if inputs != [] {
      var i := inputs[0];
      EchoStep(x, loads, i);
      EchoRun(S.WholeStep(x, loads, i), loads, inputs[1..]);
      FoldStep(x.w.mods, Line(x.w), i, inputs);
    } else {
      FoldNothing(x.w.mods, Line(x.w));
    }
  }

  /** One step of such a run. */
  lemma EchoStep(x: S.Whole, loads: Loader, i: S.Input)
    requires S.Ok(x) && S.Enabled(x, loads, i) && x.a.total == 4 && KeyboardOnly(x, i) && Echoing(x.w)
    ensures var y := S.WholeStep(x, loads, i);
            && y.a.total == 4 && Echoing(y.w) && y.w.shown == x.w.shown
            && y.w.mods == (if i.Key? then NextModifiers(x.w.mods, i.code) else x.w.mods)
            && Line(y.w) == if i.Key? then EditLine(x.w.mods, Line(x.w), i.code) else Line(x.w)
  {
    hide S.Enabled, Echoes, EditLine, NextModifiers, KeyStep, AStep, AShape, Put, Screen.Write;
    TotalStays(x, loads, i);
    if i.Key? {
      KeyEcho(x.w, i.code);
    } else {
      OtherEcho(x, loads, i);
    }
  }

  lemma FoldNothing(m: Modifiers, line: seq<byte>)
    ensures Fold(m, line, Codes([])) == line
  {
  }

  lemma FoldStep(m: Modifiers, line: seq<byte>, i: S.Input, inputs: seq<S.Input>)
    requires inputs != [] && i == inputs[0]
    ensures Fold(m, line, Codes(inputs)) ==
            if i.Key? then Fold(NextModifiers(m, i.code), EditLine(m, line, i.code), Codes(inputs[1..]))
            else Fold(m, line, Codes(inputs[1..]))
  {
    hide NextModifiers, EditLine;
    if i.Key? {
      assert ([i.code] + Codes(inputs[1..]))[1..] == Codes(inputs[1..]);
    } else {
      assert [] + Codes(inputs[1..]) == Codes(inputs[1..]);
    }
  }

  /** A read after such a run, with no switch pending, returns the first bytes of the fold and leaves an
      empty line, echoed on a fresh row. */
  lemma ReadReturnsTypedLine(x: S.Whole, loads: Loader, inputs: seq<S.Input>, n: nat)
    requires S.EnabledRun(x, loads, inputs) && x.a.total == 4 && KeyboardOnlyRun(x, loads, inputs) && Echoing(x.w)
    requires S.Enabled(S.WholeRun(x, loads, inputs), loads, S.Read(n))
    ensures var typed := Fold(x.w.mods, Line(x.w), Codes(inputs)); var y := S.WholeRun(x, loads, inputs);
            && S.LinePrefix(y.w, n) == Cut(typed, n)
            && Line(S.WholeStep(y, loads, S.Read(n)).w) == []
            && Echoing(S.WholeStep(y, loads, S.Read(n)).w)
  {
    EchoRun(x, loads, inputs);
    var y := S.WholeRun(x, loads, inputs);
    var t := y.w.terms[y.w.shown - 1];
    hide Put, Fold, Cut;
    assert Put(t, NEWLINE).cells[Pos(Put(t, NEWLINE))..Pos(Put(t, NEWLINE))] == [];
  }

  // ---------------------------------------------------------------- whose line a read takes

  /** A read serves the keyboard's owner.  The reader gets the bytes of its own line iff no terminal request is pending
      or the two lines start alike; its line is consumed iff it is the owner, and the owner's line always is. */
  lemma OwnLineIff(x: S.Whole, loads: Loader, n: nat)
    requires S.Ok(x) && S.Enabled(x, loads, S.Read(n))
    ensures var own := x.w.lines[x.w.running - 1]; var r := S.WholeStep(x, loads, S.Read(n)).w;
            && (S.Answer(x, loads, S.Read(n)) == [S.Typed(Cut(own, n))] <==>
                x.w.pending == 0 || Cut(x.w.lines[x.w.pending - 1], n) == Cut(own, n))
            && r.lines[x.w.running - 1] == (if Owner(x.w) == x.w.running then [] else own)
            && r.lines[Owner(x.w) - 1] == []
  {
    hide Put;
  }

  // ---------------------------------------------------------------- arguments

  /** getargs reads the block of the shown terminal's top process.  The caller gets what its own tail would give iff it
      is that process's terminal that runs, or the two tails are equal, or the size cannot tell them apart. */
  lemma OwnArgumentsIff(x: S.Whole, size: nat)
    requires S.Ok(x) && x.a.total >= 1
    ensures var shown, own := S.ShownTask(x.a).args, Current(x.a).args;
            S.TailReply(shown, size) == S.TailReply(own, size) <==>
            x.a.running == x.a.shown || shown == own || size == 0 || (|shown| >= size && |own| >= size)
  {
  }

  /** The process events among the inputs of a run. */
  function EventOf(x: S.Whole, i: S.Input): seq<Event>
    requires S.Ok(x)
  {
    match i
    case Sys(e) => [e]
    case Key(code) => if S.Switches(x, code) then [Request(code - KEY_F1 + 1)] else []
    case _ => []
  }

  lemma OneStepOfTasks(x: S.Whole, loads: Loader, i: S.Input, rest: seq<Event>)
    requires S.Ok(x) && S.Enabled(x, loads, i)
    ensures var y := S.WholeStep(x, loads, i).a;
            && AShape(x.a) && AShape(y)
            && (AllowedRun(y, loads, rest) ==>
                  AllowedRun(x.a, loads, EventOf(x, i) + rest) &&
                    ARun(x.a, loads, EventOf(x, i) + rest) == ARun(y, loads, rest))
  {
    hide AStep, S.WorldPart, Allowed;
    var trace := EventOf(x, i) + rest;
    if EventOf(x, i) == [] {
      assert trace == rest;
    } else {
      assert trace[0] == EventOf(x, i)[0] && trace[1..] == rest;
      StepEvent(x, loads, i);
    }
  }

  lemma StepEvent(x: S.Whole, loads: Loader, i: S.Input)
    requires S.Ok(x) && S.Enabled(x, loads, i) && EventOf(x, i) != []
    ensures Allowed(x.a, loads, EventOf(x, i)[0])
    ensures S.WholeStep(x, loads, i).a == AStep(x.a, loads, EventOf(x, i)[0])
  {
    hide AStep, S.WorldPart;
  }

  /** The process events of a run, which are an allowed run of the process machine. */
  function Events(x: S.Whole, loads: Loader, inputs: seq<S.Input>): (r: seq<Event>)
    requires S.EnabledRun(x, loads, inputs)
    ensures AllowedRun(x.a, loads, r)
    decreases |inputs|
  {
    if inputs == [] then []
    else
      var rest := Events(S.WholeStep(x, loads, inputs[0]), loads, inputs[1..]);
      OneStepOfTasks(x, loads, inputs[0], rest);
      EventOf(x, inputs[0]) + rest
  }

  /** The tasks of a run follow its process events. */
  lemma {:induction false} TasksFollowEvents(x: S.Whole, loads: Loader, inputs: seq<S.Input>)
    requires S.EnabledRun(x, loads, inputs)
    ensures ARun(x.a, loads, Events(x, loads, inputs)) == S.WholeRun(x, loads, inputs).a
    decreases |inputs|
  {
    if inputs != [] {
      var y := S.WholeStep(x, loads, inputs[0]);
      TasksFollowEvents(y, loads, inputs[1..]);
      OneStepOfTasks(x, loads, inputs[0], Events(y, loads, inputs[1..]));
    }
  }

  /** The argument round trip: from the execute of a command, over any run of the whole kernel in which the process is
      not halted, getargs by the shown terminal's top process yields the command's tail, iff it fits with its NUL. */
  lemma ArgumentRoundTrip(x: S.Whole, loads: Loader, command: seq<byte>, f: int, inputs: seq<S.Input>, size: nat,
    beyond: seq<byte>)
    requires S.Ok(x) && x.a.total == 4 && S.Enabled(x, loads, S.Sys(Exec(Text(command), f)))
    requires Accepted(Size(x.a.stacks), loads, Text(command))
    requires var y := S.WholeStep(x, loads, S.Sys(Exec(Text(command), f)));
             var depth := |y.a.stacks[x.a.running - 1]|;
             && S.EnabledRun(y, loads, inputs)
             && Deep(y.a, loads, Events(y, loads, inputs), x.a.running, depth)
             && var z := S.WholeRun(y, loads, inputs);
                && z.a.shown == x.a.running && |z.a.stacks[x.a.running - 1]| == depth
                && S.Enabled(z, loads, S.Getargs(size, beyond))
    ensures var z := S.WholeRun(S.WholeStep(x, loads, S.Sys(Exec(Text(command), f))), loads, inputs);
            var tail := ArgTail(command);
            S.Answer(z, loads, S.Getargs(size, beyond)) ==
            [S.Tail(if size == 0 then Some([]) else if |tail| + 1 <= size then Some(tail) else None)]
  {
    hide S.WholeStep, S.WholeRun, Events, EventOf, AStep, Deep, S.EnabledRun, S.Enabled, AllowedRun, ARun, Allowed,
         SameBottom, ArgTail;
    var e := Exec(Text(command), f);
    var y := S.WholeStep(x, loads, S.Sys(e));
    var z := S.WholeRun(y, loads, inputs);
    var t := x.a.running;
    TasksFollowEvents(y, loads, inputs);
    NewTop(x, loads, command, f);
    DeepKeepsBottom(y.a, loads, Events(y, loads, inputs), t, |y.a.stacks[t - 1]|);
    SameTop(y.a.stacks[t - 1], z.a.stacks[t - 1]);
  }

  lemma SameTop(x: seq<Task>, y: seq<Task>)
    requires |x| == |y| > 0 && SameBottom(x, y, |x|)
    ensures x[0].args == y[0].args
  {
    assert SameTask(FromBottom(x, |x| - 1), FromBottom(y, |x| - 1));
  }

  lemma NewTop(x: S.Whole, loads: Loader, command: seq<byte>, f: int)
    requires S.Ok(x) && S.Enabled(x, loads, S.Sys(Exec(Text(command), f))) &&
             Accepted(Size(x.a.stacks), loads, Text(command))
    ensures var stack := S.WholeStep(x, loads, S.Sys(Exec(Text(command), f))).a.stacks[x.a.running - 1];
            stack != [] && stack[0].args == ArgTail(command)
  {
    hide AStep, ArgTail;
    StepEvent(x, loads, S.Sys(Exec(Text(command), f)));
    NewTaskArgs(x.a, loads, command, f);
  }

  lemma NewTaskArgs(a: Terminals, loads: Loader, command: seq<byte>, f: int)
    requires AShape(a) && Allowed(a, loads, Exec(Text(command), f)) && Accepted(Size(a.stacks), loads, Text(command))
    ensures var stack := AStep(a, loads, Exec(Text(command), f)).stacks[a.running - 1];
            stack != [] && stack[0].args == ArgTail(command)
  {
    hide LeastFree;
  }
}
