/** What keys, reads and writes come to for a user, in figures: scan codes, characters, cells. */
module KeyLaws {
  import opened Bytes
  import opened Screen
  import opened World
  import opened Process
  import Interaction
  import S = System

  // ---------------------------------------------------------------- characters

  /** From scan code `first` on the keys print the characters of `plain`, or those of `raised`. */
  predicate Prints(m: Modifiers, first: int, plain: string, raised: string, up: bool)
    requires 1 <= first && first + |plain| <= 0x36 && |plain| == |raised|
  {
    forall i :: 0 <= i < |plain| ==> Printed(m, first + i) as int == (if up then raised[i] else plain[i]) as int
  }

  lemma FourParts(a: string, b: string, c: string, d: string)
    ensures var all := a + b + c + d;
            && all[..|a|] == a && all[|a|..|a| + |b|] == b
            && all[|a| + |b|..|a| + |b| + |c|] == c && all[|a| + |b| + |c|..] == d
  {
  }

  lemma LowerRows()
    ensures |CHAR_LIST| == 53 && CHAR_LIST[0..15] == LOWER_ROW0 && CHAR_LIST[15..29] == LOWER_ROW1
    ensures CHAR_LIST[29..43] == LOWER_ROW2 && CHAR_LIST[43..53] == LOWER_ROW3
  {
    FourParts(LOWER_ROW0, LOWER_ROW1, LOWER_ROW2, LOWER_ROW3);
  }

  lemma UpperRows()
    ensures |UPPER_CHAR_LIST| == 53 && UPPER_CHAR_LIST[0..15] == UPPER_ROW0 && UPPER_CHAR_LIST[15..29] == UPPER_ROW1
    ensures UPPER_CHAR_LIST[29..43] == UPPER_ROW2 && UPPER_CHAR_LIST[43..53] == UPPER_ROW3
  {
    FourParts(UPPER_ROW0, UPPER_ROW1, UPPER_ROW2, UPPER_ROW3);
  }

  /** Which of the two tables a key is looked up in. */
  predicate Raised(m: Modifiers, c: int) {
    if IsLetter(c) then m.shift != m.caps else m.shift && !m.caps
  }

  lemma PrintedFrom(m: Modifiers, c: int)
    requires CHAR_LOWER <= c <= CHAR_UPPER
    ensures Printed(m, c) == CharAt(if Raised(m, c) then UPPER_CHAR_LIST else CHAR_LIST, c)
  {
    hide CharAt;
  }

  predicate Ascii(s: string) {
    forall i :: 0 <= i < |s| ==> s[i] as int < 256
  }

  /** Part of a row, in both tables. */
  predicate PartOf(low: string, up: string, k: nat, plain: string, raised: string) {
    && |low| == |up| && |plain| == |raised| && k + |plain| <= |low|
    && low[k..k + |plain|] == plain && up[k..k + |plain|] == raised && Ascii(plain) && Ascii(raised)
  }

  /** A stretch of the two tables from position `at` on, which lies in a row that starts at `start`. */
  lemma Stretch(m: Modifiers, lower: string, upper: string, start: nat, low: string, up: string, k: nat, plain: string,
    raised: string)
    requires |lower| == |upper| == 53 && PartOf(low, up, k, plain, raised) && start + |low| <= 53
    requires lower[start..start + |low|] == low && upper[start..start + |low|] == up
    ensures forall i :: 0 <= i < |plain| ==>
              && CharAt(lower, start + k + 1 + i) as int == plain[i] as int
              && CharAt(upper, start + k + 1 + i) as int == raised[i] as int
  {
    forall i | 0 <= i < |plain|
      ensures lower[start + k + i] == plain[i] && upper[start + k + i] == raised[i]
    {
      assert low[k..k + |plain|][i] == low[k + i] == lower[start..start + |low|][k + i];
      assert up[k..k + |plain|][i] == up[k + i] == upper[start..start + |low|][k + i];
    }
  }

  lemma InRow(m: Modifiers, start: nat, low: string, up: string, k: nat, plain: string, raised: string, letters: bool)
    requires |CHAR_LIST| == |UPPER_CHAR_LIST| == 53 && PartOf(low, up, k, plain, raised) && start + |low| <= 53
    requires CHAR_LIST[start..start + |low|] == low && UPPER_CHAR_LIST[start..start + |low|] == up
    requires forall c :: start + k + 1 <= c < start + k + 1 + |plain| ==> IsLetter(c) == letters
    ensures Prints(m, start + k + 1, plain, raised, if letters then m.shift != m.caps else m.shift && !m.caps)
  {
    hide CharAt, Printed, IsLetter, Ascii;
    Stretch(m, CHAR_LIST, UPPER_CHAR_LIST, start, low, up, k, plain, raised);
    forall i | 0 <= i < |plain|
      ensures var l := if letters then m.shift != m.caps else m.shift && !m.caps;
              Printed(m, start + k + 1 + i) as int == (if l then raised[i] else plain[i]) as int
    {
      PrintedFrom(m, start + k + 1 + i);
    }
  }

  /** The whole keyboard.  Letters are capital iff exactly one of shift and caps lock holds; the other keys take their
      upper character iff shift is held and caps lock is off. */
  lemma KeysPrint(m: Modifiers)
    ensures var capital, upper := m.shift != m.caps, m.shift && !m.caps;
            && Prints(m, 0x02, "1234567890-=", "!@#$%^&*()_+", upper)
            && Prints(m, 0x10, "qwertyuiop", "QWERTYUIOP", capital) && Prints(m, 0x1A, "[]", "{}", upper)
            && Prints(m, 0x1E, "asdfghjkl", "ASDFGHJKL", capital) && Prints(m, 0x27, ";'`", ":\"~", upper)
            && Prints(m, 0x2B, "\\", "|", upper)
            && Prints(m, 0x2C, "zxcvbnm", "ZXCVBNM", capital) && Prints(m, 0x33, ",./", "<>?", upper)
  {
    hide Prints;
    Numbers(m);
    UpperLetters(m);
    MiddleLetters(m);
    LowerLetters(m);
  }

  lemma PartOfRow0()
    ensures |LOWER_ROW0| == |UPPER_ROW0| == 15
    ensures PartOf(LOWER_ROW0, UPPER_ROW0, 1, "1234567890-=", "!@#$%^&*()_+")
  {
    assert LOWER_ROW0[1..13] == "1234567890-=";
    assert UPPER_ROW0[1..13] == "!@#$%^&*()_+";
  }

  lemma PartsOfRow1()
    ensures |LOWER_ROW1| == |UPPER_ROW1| == 14
    ensures PartOf(LOWER_ROW1, UPPER_ROW1, 0, "qwertyuiop", "QWERTYUIOP")
    ensures PartOf(LOWER_ROW1, UPPER_ROW1, 10, "[]", "{}")
  {
    assert LOWER_ROW1[0..10] == "qwertyuiop" && UPPER_ROW1[0..10] == "QWERTYUIOP";
    assert LOWER_ROW1[10..12] == "[]" && UPPER_ROW1[10..12] == "{}";
  }

  lemma LettersOfRow2()
    ensures |LOWER_ROW2| == |UPPER_ROW2| == 14
    ensures PartOf(LOWER_ROW2, UPPER_ROW2, 0, "asdfghjkl", "ASDFGHJKL")
  {
    assert LOWER_ROW2[0..9] == "asdfghjkl";
    assert UPPER_ROW2[0..9] == "ASDFGHJKL";
  }

  lemma RestOfRow2()
    ensures PartOf(LOWER_ROW2, UPPER_ROW2, 9, ";'`", ":\"~") && PartOf(LOWER_ROW2, UPPER_ROW2, 13, "\\", "|")
  {
    assert LOWER_ROW2[9..12] == ";'`" && UPPER_ROW2[9..12] == ":\"~";
    assert LOWER_ROW2[13..14] == "\\" && UPPER_ROW2[13..14] == "|";
  }

  lemma PartsOfRow3()
    ensures |LOWER_ROW3| == |UPPER_ROW3| == 10
    ensures PartOf(LOWER_ROW3, UPPER_ROW3, 0, "zxcvbnm", "ZXCVBNM")
    ensures PartOf(LOWER_ROW3, UPPER_ROW3, 7, ",./", "<>?")
  {
    assert LOWER_ROW3[0..7] == "zxcvbnm" && UPPER_ROW3[0..7] == "ZXCVBNM";
    assert LOWER_ROW3[7..10] == ",./" && UPPER_ROW3[7..10] == "<>?";
  }

  lemma Numbers(m: Modifiers)
    ensures Prints(m, 0x02, "1234567890-=", "!@#$%^&*()_+", m.shift && !m.caps)
  {
    hide Prints, PartOf;
    LowerRows();
    UpperRows();
    PartOfRow0();
    InRow(m, 0, LOWER_ROW0, UPPER_ROW0, 1, "1234567890-=", "!@#$%^&*()_+", false);
  }

  lemma UpperLetters(m: Modifiers)
    ensures Prints(m, 0x10, "qwertyuiop", "QWERTYUIOP", m.shift != m.caps)
    ensures Prints(m, 0x1A, "[]", "{}", m.shift && !m.caps)
  {
    hide Prints, PartOf;
    LowerRows();
    UpperRows();
    PartsOfRow1();
    InRow(m, 15, LOWER_ROW1, UPPER_ROW1, 0, "qwertyuiop", "QWERTYUIOP", true);
    InRow(m, 15, LOWER_ROW1, UPPER_ROW1, 10, "[]", "{}", false);
  }

  lemma MiddleLetters(m: Modifiers)
    ensures Prints(m, 0x1E, "asdfghjkl", "ASDFGHJKL", m.shift != m.caps)
    ensures Prints(m, 0x27, ";'`", ":\"~", m.shift && !m.caps) && Prints(m, 0x2B, "\\", "|", m.shift && !m.caps)
  {
    hide Prints, PartOf;
    LowerRows();
    UpperRows();
    LettersOfRow2();
    RestOfRow2();
    InRow(m, 29, LOWER_ROW2, UPPER_ROW2, 0, "asdfghjkl", "ASDFGHJKL", true);
    InRow(m, 29, LOWER_ROW2, UPPER_ROW2, 9, ";'`", ":\"~", false);
    InRow(m, 29, LOWER_ROW2, UPPER_ROW2, 13, "\\", "|", false);
  }

  lemma LowerLetters(m: Modifiers)
    ensures Prints(m, 0x2C, "zxcvbnm", "ZXCVBNM", m.shift != m.caps)
    ensures Prints(m, 0x33, ",./", "<>?", m.shift && !m.caps)
  {
    hide Prints, PartOf;
    LowerRows();
    UpperRows();
    PartsOfRow3();
    InRow(m, 43, LOWER_ROW3, UPPER_ROW3, 0, "zxcvbnm", "ZXCVBNM", true);
    InRow(m, 43, LOWER_ROW3, UPPER_ROW3, 7, ",./", "<>?", false);
  }

  // ---------------------------------------------------------------- modifiers

  /** The modifiers after a run of scan codes. */
  function Held(m: Modifiers, codes: seq<int>): Modifiers {
    if codes == [] then m else NextModifiers(Held(m, codes[..|codes| - 1]), codes[|codes| - 1])
  }

  /** A key is down: it has been pressed and not let go of since, or it was down before and was not let go of. */
  predicate Down(codes: seq<int>, press: set<int>, release: set<int>, before: bool) {
    || (before && forall j :: 0 <= j < |codes| ==> codes[j] !in release)
    || (exists k :: 0 <= k < |codes| && codes[k] in press && NoneAfter(codes, k, release))
  }

  predicate NoneAfter(codes: seq<int>, k: nat, release: set<int>) {
    forall j :: k < j < |codes| ==> codes[j] !in release
  }

  function Presses(codes: seq<int>, key: int): nat {
    if codes == [] then 0 else Presses(codes[..|codes| - 1], key) + if codes[|codes| - 1] == key then 1 else 0
  }

  lemma DownStep(codes: seq<int>, press: set<int>, release: set<int>, before: bool)
    requires codes != [] && press !! release
    ensures var last := codes[|codes| - 1];
            Down(codes, press, release, before) <==>
            last in press || (last !in release && Down(codes[..|codes| - 1], press, release, before))
  {
    var n := |codes| - 1;
    var front, last := codes[..n], codes[n];
    if last in press {
      assert NoneAfter(codes, n, release);
    } else if last !in release {
      if Down(front, press, release, before) {
        if k :| 0 <= k < n && front[k] in press && NoneAfter(front, k, release) {
          assert codes[k] in press && NoneAfter(codes, k, release);
        }
      }
      if Down(codes, press, release, before) {
        if k :| 0 <= k < |codes| && codes[k] in press && NoneAfter(codes, k, release) {
          assert front[k] in press && NoneAfter(front, k, release);
        } else {
          assert forall j :: 0 <= j < n ==> front[j] == codes[j];
        }
      }
    }
  }

  /** Over any run of scan codes: shift, alt and control are held exactly while they are down, and caps lock changes
      with each press. */
  lemma {:induction false} ModifiersFollow(m: Modifiers, codes: seq<int>)
    ensures var r := Held(m, codes);
            && (r.shift <==> Down(codes, {0x2A, 0x36}, {0xAA, 0xB6}, m.shift))
            && (r.alt <==> Down(codes, {0x38}, {0xB8}, m.alt))
            && (r.ctrl <==> Down(codes, {0x1D}, {0x9D}, m.ctrl))
            && (r.caps <==> m.caps == (Presses(codes, 0x3A) % 2 == 0))
    decreases |codes|
  {
    hide Down, NextModifiers;
    if codes == [] {
      NothingDown(m);
    } else {
      ModifiersFollow(m, codes[..|codes| - 1]);
      ModifierStep(Held(m, codes[..|codes| - 1]), codes[|codes| - 1]);
      DownStep(codes, {0x2A, 0x36}, {0xAA, 0xB6}, m.shift);
      DownStep(codes, {0x38}, {0xB8}, m.alt);
      DownStep(codes, {0x1D}, {0x9D}, m.ctrl);
    }
  }

  /** What one scan code does to the modifiers. */
  lemma ModifierStep(m: Modifiers, c: int)
    ensures var r := NextModifiers(m, c);
            && r.shift == (c == 0x2A || c == 0x36 || (m.shift && c != 0xAA && c != 0xB6))
            && r.alt == (c == 0x38 || (m.alt && c != 0xB8)) && r.ctrl == (c == 0x1D || (m.ctrl && c != 0x9D))
            && r.caps == (m.caps != (c == 0x3A))
  {
  }

  lemma NothingDown(m: Modifiers)
    ensures forall press: set<int>, release: set<int>, b: bool :: Down([], press, release, b) <==> b
  {
  }

  // ---------------------------------------------------------------- editing

  /** A printing key adds its character at the end of a line that has room, and backspace takes it off again. */
  lemma EraseUndoesType(m: Modifiers, line: seq<byte>, c: int)
    requires CHAR_LOWER <= c <= CHAR_UPPER && c != 0x1C && c != 0x0E && NextModifiers(m, c) == m
    requires Printed(m, c) != NUL && |line| < 128 && !(m.ctrl && c == 0x26)
    ensures Interaction.Fold(m, line, [c]) == line + [Printed(m, c)]
    ensures Interaction.Fold(m, line, [c, 0x0E]) == line
  {
    hide Printed;
    var longer := line + [Printed(m, c)];
    assert [c, 0x0E][1..] == [0x0E] && [c][1..] == [] && [0x0E][1..] == [];
    assert longer[..|longer| - 1] == line;
    assert Interaction.EditLine(m, line, c) == longer;
    assert NextModifiers(m, 0x0E) == m;
    assert Interaction.EditLine(m, longer, 0x0E) == line;
    assert Interaction.Fold(m, longer, []) == longer && Interaction.Fold(m, line, []) == line;
    assert Interaction.Fold(m, longer, [0x0E]) == Interaction.Fold(m, line, []);
  }

  /** Control and L: the shown screen is blank and its cursor home, and no line changes. */
  lemma ControlL(w: World)
    requires WorldShape(w) && w.mods.ctrl
    ensures var r := KeyStep(w, 0x26);
            && r.terms[w.shown - 1] == Term(Fill(2000, 32), 0, 0) && r.lines == w.lines
            && forall t :: 0 <= t < 3 && t != w.shown - 1 ==> r.terms[t] == w.terms[t]
  {
    hide Fill;
  }

  // ---------------------------------------------------------------- terminal requests

  /** Alt and F1, F2 or F3 after boot: that terminal is the shown one after the next tick. */
  lemma RequestIsServed(x: S.Whole, loads: Loader, t: int, f: int)
    requires S.Ok(x) && x.a.total == 4 && x.w.mods.alt && x.w.pending == 0 && 1 <= t <= 3 && loads(SHELL)
    ensures S.Enabled(x, loads, S.Key(0x3A + t))
    ensures var y := S.WholeStep(x, loads, S.Key(0x3A + t));
            && y.w.terms == x.w.terms && y.w.shown == x.w.shown && S.Enabled(y, loads, S.Sys(Tick(f)))
            && var z := S.WholeStep(y, loads, S.Sys(Tick(f)));
               z.w.shown == t && z.w.pending == 0 && z.w.terms == x.w.terms && z.w.lines == x.w.lines
  {
    hide Put, Printed, Erased, EditStep, Save, Push, Pop;
  }

  // ---------------------------------------------------------------- writes

  /** What a write of plain text shows: the running terminal's screen goes on with the text, and no other screen
      changes.  Its unfinished line is dropped iff another terminal owns the keyboard; no other line changes. */
  lemma WriteInputShows(x: S.Whole, loads: Loader, text: seq<byte>)
    requires S.Ok(x) && S.Enabled(x, loads, S.Write(text)) && Plain(text) && text != []
    ensures var y := S.WholeStep(x, loads, S.Write(text)).w; var t := x.w.running - 1;
            && Shows(x.w.terms[t], text, y.terms[t])
            && (forall u :: 0 <= u < 3 && u != t ==> y.terms[u] == x.w.terms[u])
            && y.lines[t] == (if Owner(x.w) == x.w.running then x.w.lines[t] else [])
            && (forall u :: 0 <= u < 3 && u != t ==> y.lines[u] == x.w.lines[u])
            && y.shown == x.w.shown && y.mods == x.w.mods && y.enter == x.w.enter
  {
    hide Screen.Write, Shows, Plain;
    WriteShows(x.w.terms[x.w.running - 1], text);
  }

  /** A line and its newline: after text that fits the row, the cursor stands at the start of the next row. */
  lemma WriteLine(x: S.Whole, loads: Loader, text: seq<byte>)
    requires S.Ok(x) && S.Enabled(x, loads, S.Write(text + [10])) && Plain(text)
    requires var t := x.w.terms[x.w.running - 1]; t.x + |text| < 80 && t.y < 24
    ensures var t := x.w.terms[x.w.running - 1];
            var u := S.WholeStep(x, loads, S.Write(text + [10])).w.terms[x.w.running - 1];
            && u.x == 0 && u.y == t.y + 1
            && u.cells == t.cells[..80 * t.y + t.x] + text + t.cells[80 * t.y + t.x + |text|..]
  {
    hide Screen.Write, Plain, Put;
    var t := x.w.terms[x.w.running - 1];
    WriteSplit(t, text, [10]);
    WriteFits(t, text);
    BreakShows(Screen.Write(t, text), 10);
  }

  /** The halt of a root shell leaves the shown screen blank with its cursor home, and no other screen changes. */
  lemma RootHaltBlanks(x: S.Whole, loads: Loader, f: int)
    requires S.Ok(x) && S.Enabled(x, loads, S.Sys(Halt(f))) && |x.a.stacks[x.a.running - 1]| == 1
    ensures var y := S.WholeStep(x, loads, S.Sys(Halt(f))).w;
            && y.terms[x.w.shown - 1] == Term(Fill(2000, 32), 0, 0) && y.lines == x.w.lines
            && forall t :: 0 <= t < 3 && t != x.w.shown - 1 ==> y.terms[t] == x.w.terms[t]
  {
    hide Fill, Push, Pop, AStep;
  }

  /** A seventh process: every stack stays as it is, and the running terminal, where it has room, shows a message. */
  lemma SeventhProcess(x: S.Whole, loads: Loader, text: seq<byte>, f: int)
    requires S.Ok(x) && S.Enabled(x, loads, S.Sys(Exec(Text(text), f))) && Size(x.a.stacks) >= 6
    requires var t := x.w.terms[x.w.running - 1]; t.x + 21 < 80 && t.y < 24
    ensures var y := S.WholeStep(x, loads, S.Sys(Exec(Text(text), f)));
            var t, u := x.w.terms[x.w.running - 1], y.w.terms[x.w.running - 1];
            var message: seq<byte> :=
              [77, 65, 88, 32, 80, 82, 79, 67, 69, 83, 83, 69, 83, 32, 82, 69, 65, 67, 72, 69, 68];
            && y.a == x.a && u.x == 0 && u.y == t.y + 1
            && u.cells == t.cells[..80 * t.y + t.x] + message + t.cells[80 * t.y + t.x + 21..]
  {
    hide Screen.Write, Put, Push, Pop, AShape;
    var t := x.w.terms[x.w.running - 1];
    var message: seq<byte> := MAX_MESSAGE[..21];
    assert MAX_MESSAGE == message + [10];
    WriteSplit(t, message, [10]);
    WriteFits(t, message);
    BreakShows(Screen.Write(t, message), 10);
  }

  /** Writing two texts in turn is writing them at once. */
  lemma WriteTwice(x: S.Whole, loads: Loader, text: seq<byte>, more: seq<byte>)
    requires S.Ok(x) && S.Enabled(x, loads, S.Write(text)) && text != [] && more != []
    ensures S.Enabled(S.WholeStep(x, loads, S.Write(text)), loads, S.Write(more))
    ensures S.WholeStep(S.WholeStep(x, loads, S.Write(text)), loads, S.Write(more)) ==
            S.WholeStep(x, loads, S.Write(text + more))
  {
    hide Screen.Write, AStep, WriteStep, AShape;
    TwoWrites(x.w, text, more);
  }

  lemma TwoWrites(w: World, text: seq<byte>, more: seq<byte>)
    requires WorldShape(w)
    ensures WriteStep(WriteStep(w, text), more) == WriteStep(w, text + more)
    ensures var r := WriteStep(w, text); r.running == w.running && r.shown == w.shown && r.pending == w.pending
  {
    hide Screen.Write;
    WriteSplit(w.terms[w.running - 1], text, more);
  }

  // ---------------------------------------------------------------- Enter and reads

  function Enters(inputs: seq<S.Input>): nat {
    if inputs == [] then 0 else (if inputs[0] == S.Key(0x1C) then 1 else 0) + Enters(inputs[1..])
  }

  function Reads(inputs: seq<S.Input>): nat {
    if inputs == [] then 0 else (if inputs[0].Read? then 1 else 0) + Reads(inputs[1..])
  }

  /** Enter is set by its key alone and taken by a read alone. */
  lemma EnterStep(x: S.Whole, loads: Loader, i: S.Input)
    requires S.Ok(x) && S.Enabled(x, loads, i)
    ensures S.WholeStep(x, loads, i).w.enter ==
            if i == S.Key(0x1C) then true else if i.Read? then false else x.w.enter
    ensures i.Read? ==> x.w.enter
  {
    hide Put, Erased, Printed, Screen.Write, AStep, NextModifiers;
  }

  /** Over any run every read takes one press of Enter: there are never more reads than presses. */
  lemma {:induction false} ReadsTakeEnters(x: S.Whole, loads: Loader, inputs: seq<S.Input>)
    requires S.EnabledRun(x, loads, inputs)
    ensures Reads(inputs) + (if S.WholeRun(x, loads, inputs).w.enter then 1 else 0) <=
            Enters(inputs) + if x.w.enter then 1 else 0
    decreases |inputs|
  {
    hide S.WholeStep, S.Enabled;
    if inputs != [] {
      EnterStep(x, loads, inputs[0]);
      ReadsTakeEnters(S.WholeStep(x, loads, inputs[0]), loads, inputs[1..]);
    }
  }

  /** A read: the line that owns the keyboard is consumed, and the shown screen takes a line break. */
  lemma ReadShows(x: S.Whole, loads: Loader, n: nat)
    requires S.Ok(x) && S.Enabled(x, loads, S.Read(n))
    ensures var t, y := x.w.terms[x.w.shown - 1], S.WholeStep(x, loads, S.Read(n)).w;
            && y.terms[x.w.shown - 1] ==
               (if t.y < 24 then Term(t.cells, 0, t.y + 1) else Term(t.cells[80..] + Fill(80, 32), 0, 24))
            && (forall u :: 0 <= u < 3 && u != x.w.shown - 1 ==> y.terms[u] == x.w.terms[u])
            && !y.enter && y.lines[Owner(x.w) - 1] == []
            && (forall u :: 0 <= u < 3 && u != Owner(x.w) - 1 ==> y.lines[u] == x.w.lines[u])
  {
    hide Fill;
  }
}
