/** keyboard.c: the scan-code handler, the line buffers, and terminal reads and writes. */
module Keyboard {
  import opened Bytes
  import opened Screen
  import opened World
  import opened Console

  class Keyboard {
    const con: Console
    var shiftKey: bool
    var altKey: bool
    var capFlag: bool
    var ctrlKey: bool
    var enterFlag: bool
    var bufferIndex: int
    const buffer: array<byte>
    const buffer1: array<byte>
    const buffer2: array<byte>
    const buffer3: array<byte>
    var kb1Pos: int
    var kb2Pos: int
    var kb3Pos: int
    /** Global of scheduler.c: the terminal to switch to at the next tick, 0 for none. */
    var switchFlag: int

    ghost function Repr(): set<object> {
      {this, con, buffer, buffer1, buffer2, buffer3} + con.Pages()
    }

    ghost predicate BuffersValid()
      reads this
    {
      && buffer != buffer1 && buffer != buffer2 && buffer != buffer3
      && buffer1 != buffer2 && buffer1 != buffer3 && buffer2 != buffer3
      && {buffer, buffer1, buffer2, buffer3} !! con.Pages()
      && buffer.Length == buffer1.Length == buffer2.Length == buffer3.Length == KB_BUF_SIZE
      && 0 <= bufferIndex <= KB_BUF_SIZE && 0 <= kb1Pos <= KB_BUF_SIZE
      && 0 <= kb2Pos <= KB_BUF_SIZE && 0 <= kb3Pos <= KB_BUF_SIZE
      && 0 <= switchFlag <= 3
    }

    ghost predicate Valid()
      reads this, Repr()
    {
      BuffersValid() && con.Valid()
    }

    function Saved(t: int): array<byte> {
      if t == 1 then buffer1 else if t == 2 then buffer2 else buffer3
    }

    function SavedPos(t: int): int
      reads this
    {
      if t == 1 then kb1Pos else if t == 2 then kb2Pos else kb3Pos
    }

    function LineOwner(): int
      reads this, con
    {
      if switchFlag != 0 then switchFlag else con.currTerminal
    }

    /** The unfinished line of terminal t: the live buffer for its owner, the saved one otherwise. */
    ghost function LineOf(t: int): (r: seq<byte>)
      requires BuffersValid() && 1 <= t <= 3
      reads this, Repr()
      ensures |r| <= KB_BUF_SIZE
    {
      if t == LineOwner() then buffer[..bufferIndex] else Saved(t)[..SavedPos(t)]
    }

    /** What the saved buffer of terminal t holds; stale for the owner of the live buffer. */
    ghost function SavedLine(t: int): (r: seq<byte>)
      requires BuffersValid() && 1 <= t <= 3
      reads this, Repr()
      ensures |r| <= KB_BUF_SIZE
    {
      Saved(t)[..SavedPos(t)]
    }

    /** The line of terminal t after a terminal request: the live line is parked under the shown terminal,
        whoever owned it. */
    ghost function LineAfterRequest(t: int): (r: seq<byte>)
      requires Valid() && 1 <= t <= 3
      reads this, Repr()
      ensures |r| <= KB_BUF_SIZE
    {
      if t == con.currTerminal then LineOf(LineOwner()) else if t == LineOwner() then SavedLine(t) else LineOf(t)
    }

    ghost function LinesAfterRequest(): (r: seq<seq<byte>>)
      requires Valid()
      reads this, Repr()
      ensures |r| == 3 && forall t :: 0 <= t < 3 ==> |r[t]| <= KB_BUF_SIZE
    {
      [LineAfterRequest(1), LineAfterRequest(2), LineAfterRequest(3)]
    }

    /** A terminal request keeps all three lines iff no other terminal's request is pending, or the lines it
        confuses happen to be equal. */
    lemma RequestKeepsLinesIff()
      requires Valid()
      ensures LinesAfterRequest() == View().lines <==>
              || LineOwner() == con.currTerminal
              || (LineOf(con.currTerminal) == LineOf(LineOwner()) == SavedLine(LineOwner()))
    {
      hide Attributed, Chars;
      var lines := View().lines;
      assert lines[0] == LineOf(1) && lines[1] == LineOf(2) && lines[2] == LineOf(3);
      if LinesAfterRequest() == lines {
        assert LinesAfterRequest()[con.currTerminal - 1] == lines[con.currTerminal - 1];
        assert LinesAfterRequest()[LineOwner() - 1] == lines[LineOwner() - 1];
      }
    }

    /** The shown terminal's line is replaced by the owner's. */
    lemma RequestOverwrites()
      requires Valid()
      ensures LinesAfterRequest()[con.currTerminal - 1] == Line(View()) && View().shown == con.currTerminal
    {
      hide Attributed, Chars, LineOf;
    }

    function Mods(): Modifiers
      reads this
    {
      Modifiers(shiftKey, altKey, capFlag, ctrlKey)
    }

    ghost function View(): (w: World)
      requires Valid()
      reads this, Repr()
      ensures WorldShape(w)
    {
      World(con.Terminals(), [LineOf(1), LineOf(2), LineOf(3)], Mods(), enterFlag,
            con.currTerminal, switchFlag, con.currScheduled)
    }

    constructor (console: Console)
      requires console.Valid()
      ensures con == console && Valid() && Idle() && fresh({this, buffer, buffer1, buffer2, buffer3})
      ensures View() == World(con.Terminals(), [[], [], []], Modifiers(false, false, false, false), false,
                              con.currTerminal, 0, con.currScheduled)
    {
      hide Console.Valid, Console.Terminal, Console.Terminals;
      con := console;
      shiftKey, altKey, capFlag, ctrlKey, enterFlag := false, false, false, false, false;
      bufferIndex, kb1Pos, kb2Pos, kb3Pos, switchFlag := 0, 0, 0, 0, 0;
      buffer := new byte[KB_BUF_SIZE](_ => NUL);
      buffer1 := new byte[KB_BUF_SIZE](_ => NUL);
      buffer2 := new byte[KB_BUF_SIZE](_ => NUL);
      buffer3 := new byte[KB_BUF_SIZE](_ => NUL);
    }

    /** The three modifier tests at the top of the handler. */
    method UpdateModifiers(c: int)
      modifies this`shiftKey, this`altKey, this`capFlag, this`ctrlKey
      ensures Mods() == NextModifiers(old(Mods()), c)
    {
      if c == SHIFT_PRESSED1 || c == SHIFT_PRESSED2 {
        shiftKey := true;
      } else if c == SHIFT_RELEASED1 || c == SHIFT_RELEASED2 {
        shiftKey := false;
      }
      if c == ALT_PRESSED {
        altKey := true;
      } else if c == ALT_RELEASED {
        altKey := false;
      } else if c == CAPS_PRESSED {
        capFlag := !capFlag;
      } else if c == CTRL_PRESSED {
        ctrlKey := true;
      } else if c == CTRL_RELEASED {
        ctrlKey := false;
      }
    }

    /** The same, as a change of what the user sees. */
    method TrackModifiers(c: int)
      requires Valid()
      modifies this`shiftKey, this`altKey, this`capFlag, this`ctrlKey
      ensures Valid() && Mods() == NextModifiers(old(Mods()), c)
      ensures View() == old(View()).(mods := Mods())
    {
      hide Attributed, Chars, NextModifiers;
      UpdateModifiers(c);
    }

    /** A printable key: stored in the live buffer and echoed, unless the buffer is full. */
    method Insert(c: byte)
      requires Valid()
      modifies this`bufferIndex, buffer, con`screenX, con`screenY, con.video
      ensures Valid()
      ensures View() == TypeChar(old(View()), c)
    {
      hide Valid, View, Put, Line, Owner;
      LiveLine();
      if bufferIndex < KB_BUF_SIZE {
        StoreKey(c);
        Echo(c);
      }
    }

    /** The key goes to the end of the live buffer. */
    method StoreKey(c: byte)
      requires Valid() && bufferIndex < KB_BUF_SIZE
      modifies this`bufferIndex, buffer
      ensures Valid()
      ensures var w := old(View()); View() == w.(lines := w.lines[Owner(w) - 1 := Line(w) + [c]])
    {
      hide Attributed, Chars, Console.Terminal;
      buffer[bufferIndex] := c;
      bufferIndex := bufferIndex + 1;
      assert buffer[..bufferIndex] == old(buffer[..bufferIndex]) + [c];
    }

    /** putc2, as a change of what the user sees. */
    method Echo(c: byte)
      requires Valid()
      modifies con`screenX, con`screenY, con.video
      ensures Valid() && bufferIndex == old(bufferIndex)
      ensures var w := old(View()); View() == w.(terms := w.terms[w.shown - 1 := Put(w.terms[w.shown - 1], c)])
    {
      hide Attributed, Chars, Put;
      con.Putc2(c);
    }

    /** The screen part of a backspace: step back, overwrite with a space, step back again. */
    method EraseCell()
      requires con.Valid() && Pos(con.Terminal(con.currTerminal)) > 0
      modifies con`screenX, con`screenY, con.video
      ensures con.Valid()
      ensures con.Terminal(con.currTerminal) == Erased(old(con.Terminal(con.currTerminal)))
      ensures forall t :: 1 <= t <= 3 && t != con.currTerminal ==> con.Terminal(t) == old(con.Terminal(t))
    {
      ghost var t := con.Terminal(con.currTerminal);
      EraseByPut(t);
      hide Attributed, Chars, Put, Erased;
      con.SetCursors(con.screenX[con.currTerminal - 1] - 1, con.screenY[con.currTerminal - 1]);
      assert con.Terminal(con.currTerminal) == StepBack(t);
      con.Putc2(SPACE);
      con.SetCursors(con.screenX[con.currTerminal - 1] - 1, con.screenY[con.currTerminal - 1]);
    }

    /** The same, as a change of what the user sees. */
    method EraseOnScreen()
      requires Valid() && Pos(con.Terminal(con.currTerminal)) > 0
      modifies con`screenX, con`screenY, con.video
      ensures Valid()
      ensures var w := old(View()); var s := con.currTerminal - 1;
              Pos(w.terms[s]) > 0 && View() == w.(terms := w.terms[s := Erased(w.terms[s])])
    {
      hide Attributed, Chars, Erased, Pos;
      EraseCell();
    }

    method DropLast()
      requires Valid() && bufferIndex > 0
      modifies this`bufferIndex
      ensures Valid()
      ensures var w := old(View());
              Line(w) != [] && View() == w.(lines := w.lines[Owner(w) - 1 := Line(w)[..|Line(w)| - 1]])
    {
      hide Attributed, Chars;
      bufferIndex := bufferIndex - 1;
      assert buffer[..bufferIndex] == old(buffer[..bufferIndex])[..bufferIndex];
    }

    /** Backspace on a non-empty line. */
    method Backspace()
      requires Valid() && bufferIndex > 0
      modifies this`bufferIndex, con`screenX, con`screenY, con.video
      ensures Valid()
      ensures View() == EraseChar(old(View()))
    {
      hide Erased, Pos, View, Valid, Console.Terminal, Console.Valid, Line, Owner;
      LiveLine();
      if con.screenX[con.currTerminal - 1] == 0 && con.screenY[con.currTerminal - 1] == 0 {
        return;
      }
      ghost var w := View();
      EraseOnScreen();
      SameLine(w, View());
      DropLast();
    }

    /** The keyboard's variables in terms of what the user sees. */
    lemma LiveLine()
      requires Valid()
      ensures con.Valid() && 1 <= con.currTerminal <= 3 && |con.screenX| == |con.screenY| == 3 &&
              0 <= bufferIndex <= KB_BUF_SIZE
      ensures var w := View();
              && w.mods == Mods() && w.shown == con.currTerminal && w.pending == switchFlag && |Line(w)| == bufferIndex
              && w.terms[w.shown - 1] == con.Terminal(con.currTerminal)
              && Pos(con.Terminal(con.currTerminal)) >= 0
              && (Pos(con.Terminal(con.currTerminal)) == 0 <==>
                    con.screenX[con.currTerminal - 1] == 0 && con.screenY[con.currTerminal - 1] == 0)
    {
    }

    /** Copies the live buffer out to `from` and the buffer `to` in. */
    method SwapLines(from: array<byte>, to: array<byte>)
      requires BuffersValid() && from in {buffer1, buffer2, buffer3} && to in {buffer1, buffer2, buffer3} && from != to
      modifies from, buffer
      ensures from[..] == old(buffer[..]) && buffer[..] == old(to[..])
    {
      var j := 0;
      while j < KB_BUF_SIZE
        invariant 0 <= j <= KB_BUF_SIZE
        invariant forall k :: 0 <= k < j ==> from[k] == old(buffer[k]) && buffer[k] == old(to[k])
        invariant forall k :: j <= k < KB_BUF_SIZE ==> buffer[k] == old(buffer[k])
        invariant to[..] == old(to[..])
      {
        from[j] := buffer[j];
        buffer[j] := to[j];
        j := j + 1;
      }
    }

    /** The body of the three function-key branches: park the live line under the shown terminal and
        bring in the target's saved line. */
    method BringIn(target: int)
      requires Valid() && 1 <= target <= 3 && target != con.currTerminal
      modifies this`bufferIndex, this`kb1Pos, this`kb2Pos, this`kb3Pos, this`switchFlag, buffer, Saved(con.currTerminal)
      ensures Valid() && switchFlag == target
      ensures LineOf(1) == old(LineAfterRequest(1)) && LineOf(2) == old(LineAfterRequest(2)) &&
              LineOf(3) == old(LineAfterRequest(3))
    {
      hide Attributed, Chars;
      SwapLines(Saved(con.currTerminal), Saved(target));
      if con.currTerminal == 1 {
        kb1Pos := bufferIndex;
      } else if con.currTerminal == 2 {
        kb2Pos := bufferIndex;
      } else {
        kb3Pos := bufferIndex;
      }
      bufferIndex := SavedPos(target);
      switchFlag := target;
    }

    /** Alt-Fn: c is the scan code of the function key. */
    method RequestTerminal(c: int)
      requires Valid() && KEY_F1 <= c <= KEY_F3
      modifies this`bufferIndex, this`kb1Pos, this`kb2Pos, this`kb3Pos, this`switchFlag, buffer, buffer1, buffer2,
               buffer3
      ensures Valid()
      ensures var target := c - KEY_F1 + 1;
              View() == if target == con.currTerminal then old(View())
                        else old(View()).(pending := target, lines := old(LinesAfterRequest()))
    {
      hide Attributed, Chars, LineOf, LineAfterRequest;
      if c == KEY_F1 && con.currTerminal != 1 {
        BringIn(1);
      } else if c == KEY_F1 + 1 && con.currTerminal != 2 {
        BringIn(2);
      } else if c == KEY_F3 && con.currTerminal != 3 {
        BringIn(3);
      }
    }

    /** The last branch of the handler: the key's character under the modifiers, if it has one. */
    method PrintKey(c: int)
      requires Valid() && CHAR_LOWER <= c <= CHAR_UPPER
      modifies this`bufferIndex, buffer, con`screenX, con`screenY, con.video
      ensures Valid()
      ensures View() == if Printed(old(Mods()), c) != NUL then TypeChar(old(View()), Printed(old(Mods()), c))
              else old(View())
    {
      hide Attributed, Chars, Put;
      var printChar: byte;
      if capFlag && ((KEY_Q <= c <= KEY_P) || (KEY_A <= c <= KEY_L) || (KEY_Z <= c <= KEY_M)) && !shiftKey {
        printChar := CharAt(UPPER_CHAR_LIST, c);
      } else if !shiftKey || (shiftKey && capFlag) {
        printChar := CharAt(CHAR_LIST, c);
      } else {
        printChar := CharAt(UPPER_CHAR_LIST, c);
      }
      if bufferIndex < KB_BUF_SIZE && printChar != NUL {
        Insert(printChar);
      }
    }

    /** ctrl-L. */
    method ClearScreen()
      requires Valid()
      modifies con`screenX, con`screenY, con.video
      ensures Valid()
      ensures View() == ClearShown(old(View()))
    {
      hide Attributed, Chars;
      con.Clear();
      con.SetCursors(0, 0);
    }

    method PressEnter()
      requires Valid()
      modifies this`enterFlag
      ensures Valid() && View() == old(View()).(enter := true)
    {
      enterFlag := true;
    }

    /** Nothing typed and nothing saved, as during boot. */
    ghost predicate Idle()
      reads this
    {
      bufferIndex == kb1Pos == kb2Pos == kb3Pos == switchFlag == 0
    }

    /** keyboard_handler on one scan code. */
    method Handle(c: int)
      requires Valid() && 0 <= c < 256
      modifies this, buffer, buffer1, buffer2, buffer3, con`screenX, con`screenY, con.video
      ensures Valid()
      ensures !IsSecondRequest(old(View()), c) ==> View() == KeyStep(old(View()), c)
      ensures IsSecondRequest(old(View()), c) ==>
                View() == old(View()).(mods := NextModifiers(old(View()).mods, c), pending := c - KEY_F1 + 1,
                  lines := old(LinesAfterRequest()))
    {
      LiveLine();
      TrackModifiers(c);
      if switchFlag == 0 {
        RequestKeepsLines();
      }
      hide Attributed, Chars, EditStep, NextModifiers, Line, LineOf, LinesAfterRequest, BuffersValid, Console.Valid,
           View, LineAfterRequest;
      Act(c);
    }

    /** The branches of the handler, under the modifiers held. */
    method Act(c: int)
      requires Valid() && 0 <= c < 256
      modifies this, buffer, buffer1, buffer2, buffer3, con`screenX, con`screenY, con.video
      ensures Valid()
      ensures var w := old(View());
              View() == if w.mods.ctrl && c == KEY_L then ClearShown(w)
                        else if w.mods.alt && KEY_F1 <= c <= KEY_F3 then
                          if c - KEY_F1 + 1 == w.shown then w
                          else w.(pending := c - KEY_F1 + 1, lines := old(LinesAfterRequest()))
                        else EditStep(w, c)
    {
      LiveLine();
      hide Attributed, Chars, EditStep, View, Line, LineOf, LinesAfterRequest, BuffersValid, Console.Valid,
           LineAfterRequest, ClearShown;
      if ctrlKey && c == KEY_L {
        ClearScreen();
      } else if altKey && (c == KEY_F1 || c == KEY_F1 + 1 || c == KEY_F3) {
        RequestTerminal(c);
      } else {
        EditKey(c);
      }
    }

    /** The branches of the handler that edit the line. */
    method EditKey(c: int)
      requires Valid() && 0 <= c < 256
      modifies this`bufferIndex, this`enterFlag, buffer, con`screenX, con`screenY, con.video
      ensures Valid()
      ensures View() == EditStep(old(View()), c)
    {
      LiveLine();
      hide Attributed, Chars, TypeChar, EraseChar, Printed, View, Line, LineOf, BuffersValid, Console.Valid;
      if c == KEY_SPACE {
        Insert(SPACE);
      } else if c == BACKSPACE && bufferIndex > 0 {
        Backspace();
      } else if c == ENTER_PRESS {
        PressEnter();
      } else if CHAR_LOWER <= c <= CHAR_UPPER {
        PrintKey(c);
      }
    }

    lemma RequestKeepsLines()
      requires Valid() && switchFlag == 0
      ensures LinesAfterRequest() == View().lines
    {
      RequestKeepsLinesIff();
    }

    /** terminal_read once its wait is over: Enter was pressed and the shown terminal is running.
        The bytes come from the keyboard's owner, who is the reader unless a switch is pending. */
    method TerminalRead(buf: array<byte>, nbytes: int) returns (index: int)
      requires Valid() && buf !in Repr() && nbytes <= buf.Length
      requires nbytes >= 0 ==> enterFlag && con.currTerminal == con.currScheduled
      modifies this`enterFlag, this`bufferIndex, buffer, buf, con`screenX, con`screenY, con.video
      ensures Valid()
      ensures nbytes < 0 ==> index == -1 && View() == old(View()) && buf[..] == old(buf[..])
      ensures nbytes >= 0 ==>
                var line := old(Line(View()));
                && View() == ReadStep(old(View()))
                && index == (if nbytes < |line| then nbytes else |line|)
                && buf[..] == line[..index] + old(buf[..])[index..]
    {
      hide Attributed, Chars, Put, View, LineOf, Line, Valid;
      index := 0;
      if nbytes < 0 {
        return -1;
      }
      LiveBuffer();
      ghost var w := View();
      NewLine();
      SameLine(w, View());
      LiveBuffer();
      index := CopyLine(buf, nbytes);
      assert buffer[..index] == buffer[..bufferIndex][..index];
      ConsumeLine();
    }

    lemma LiveBuffer()
      requires Valid()
      ensures Line(View()) == buffer[..bufferIndex] && Owner(View()) == LineOwner() && View().shown == con.currTerminal
      ensures 0 <= bufferIndex <= buffer.Length && buffer in Repr() && View().pending == switchFlag
    {
    }

    /** The copy loop of a read. */
    method CopyLine(buf: array<byte>, nbytes: int) returns (index: int)
      requires buf != buffer && 0 <= bufferIndex <= buffer.Length && 0 <= nbytes <= buf.Length
      modifies buf
      ensures index == if nbytes < bufferIndex then nbytes else bufferIndex
      ensures buf[..] == buffer[..index] + old(buf[..])[index..]
    {
      index := 0;
      while index < if nbytes < bufferIndex then nbytes else bufferIndex
        invariant 0 <= index <= if nbytes < bufferIndex then nbytes else bufferIndex
        invariant forall k :: 0 <= k < index ==> buf[k] == buffer[k]
        invariant forall k :: index <= k < buf.Length ==> buf[k] == old(buf[k])
      {
        buf[index] := buffer[index];
        index := index + 1;
      }
    }

    /** The start of a read: the flag is taken and a new line shown. */
    method NewLine()
      requires Valid()
      modifies this`enterFlag, con`screenX, con`screenY, con.video
      ensures Valid() && bufferIndex == old(bufferIndex)
      ensures var w := old(View());
              View() == w.(enter := false, terms := w.terms[w.shown - 1 := Put(w.terms[w.shown - 1], NEWLINE)])
    {
      hide Attributed, Chars, Put;
      enterFlag := false;
      Echo(NEWLINE);
    }

    /** The end of a read: the live buffer is wiped. */
    method ConsumeLine()
      requires Valid()
      modifies this`bufferIndex, buffer
      ensures Valid()
      ensures View() == old(View()).(lines := old(View()).lines[LineOwner() - 1 := []])
    {
      hide Attributed, Chars;
      var i := 0;
      while i < KB_BUF_SIZE
        invariant 0 <= i <= KB_BUF_SIZE && bufferIndex == old(bufferIndex)
      {
        buffer[i] := NUL;
        i := i + 1;
      }
      bufferIndex := 0;
    }

    /** terminal_write of the first nbytes of buf.  It reports one byte more than it was given. */
    method TerminalWrite(buf: Option<seq<byte>>, nbytes: int) returns (written: int)
      requires Valid() && (con.currScheduled == con.currTerminal || con.Mapped())
      requires buf.Some? ==> nbytes <= |buf.value|
      modifies this`kb1Pos, this`kb2Pos, this`kb3Pos, buffer1, buffer2, buffer3
      modifies con`screenX, con`screenY, if con.currScheduled == con.currTerminal then con.video else con.videoMem
      ensures Valid()
      ensures buf.None? || nbytes < 0 ==> written == -1 && View() == old(View())
      ensures buf.Some? && nbytes == 0 ==> written == 0 && View() == old(View())
      ensures old(Idle()) ==> Idle()
      ensures buf.Some? && nbytes > 0 ==> written == nbytes + 1 && View() == WriteStep(old(View()), buf.value[..nbytes])
    {
      hide Valid, View, Write;
      if buf.None? || nbytes < 0 {
        return -1;
      }
      if nbytes == 0 {
        return 0;
      }
      ghost var w := View();
      var temp := buf.value[..nbytes] + [NUL];
      TrailingNul(w.terms[w.running - 1], buf.value[..nbytes]);
      written := WriteOut(temp);
      DropSaved();
    }

    method WriteOut(s: seq<byte>) returns (written: int)
      requires Valid() && (con.currScheduled == con.currTerminal || con.Mapped())
      modifies con`screenX, con`screenY, if con.currScheduled == con.currTerminal then con.video else con.videoMem
      ensures Valid() && written == |s| && (old(Idle()) ==> Idle())
      ensures var w := old(View());
              View() == w.(terms := w.terms[w.running - 1 := Write(w.terms[w.running - 1], s)])
    {
      hide Attributed, Chars, Write;
      written := con.PutFile(s);
    }

    /** The end of a write: the saved buffer of the running terminal is wiped, and with it its
        unfinished line, unless that terminal owns the live buffer. */
    method DropSaved()
      requires Valid()
      modifies this`kb1Pos, this`kb2Pos, this`kb3Pos, buffer1, buffer2, buffer3
      ensures Valid()
      ensures var w := old(View());
              View() == w.(lines := if w.running == Owner(w) then w.lines else w.lines[w.running - 1 := []])
      ensures old(Idle()) ==> Idle()
    {
      hide LineOf, Console.Valid, Console.Terminal;
      ForgetLine();
    }

    /** The wipe and the reset of the saved position, in terms of the lines. */
    method ForgetLine()
      requires Valid()
      modifies this`kb1Pos, this`kb2Pos, this`kb3Pos, buffer1, buffer2, buffer3
      ensures Valid() && (old(Idle()) ==> Idle())
      ensures forall t :: 1 <= t <= 3 ==>
              LineOf(t) == if t == con.currScheduled && t != LineOwner() then [] else old(LineOf(t))
      ensures con.Terminals() == old(con.Terminals())
    {
      hide Attributed, Chars;
      WipeSaved();
      if con.currScheduled == 1 {
        kb1Pos := 0;
      } else if con.currScheduled == 2 {
        kb2Pos := 0;
      } else if con.currScheduled == 3 {
        kb3Pos := 0;
      }
    }

    /** The wipe loop: every turn picks the buffer of the running terminal. */
    method WipeSaved()
      requires BuffersValid()
      modifies buffer1, buffer2, buffer3
      ensures con.currScheduled != 1 ==> buffer1[..] == old(buffer1[..])
      ensures con.currScheduled != 2 ==> buffer2[..] == old(buffer2[..])
      ensures con.currScheduled != 3 ==> buffer3[..] == old(buffer3[..])
    {
      var i := 0;
      while i < KB_BUF_SIZE
        invariant 0 <= i <= KB_BUF_SIZE
        invariant con.currScheduled != 1 ==> buffer1[..] == old(buffer1[..])
        invariant con.currScheduled != 2 ==> buffer2[..] == old(buffer2[..])
        invariant con.currScheduled != 3 ==> buffer3[..] == old(buffer3[..])
      {
        if con.currScheduled == 1 {
          buffer1[i] := NUL;
        } else if con.currScheduled == 2 {
          buffer2[i] := NUL;
        } else if con.currScheduled == 3 {
          buffer3[i] := NUL;
        }
        i := i + 1;
      }
    }
  }

  /** A change of screens leaves the line being edited. */
  lemma SameLine(w: World, v: World)
    requires WorldShape(w) && WorldShape(v) && v.lines == w.lines && v.shown == w.shown && v.pending == w.pending
    ensures Line(v) == Line(w) && Owner(v) == Owner(w)
  {
  }

  /** The terminator that print_withoutnull adds is not printed. */
  lemma TrailingNul(t: Term, s: seq<byte>)
    requires InScreen(t)
    ensures Write(t, s + [NUL]) == Write(t, s)
  {
    WriteSplit(t, s, [NUL]);
    assert [NUL][1..] == [];
  }

  /** Cursor one cell back, to the end of the previous row from the first column. */
  function StepBack(t: Term): (r: Term)
    requires InScreen(t) && Pos(t) > 0
    ensures InScreen(r)
  {
    if t.x == 0 then t.(x := COLS - 1, y := t.y - 1) else t.(x := t.x - 1)
  }

  /** Stepping back, printing a space and stepping back again erases one cell and never scrolls. */
  lemma EraseByPut(t: Term)
    requires InScreen(t) && Pos(t) > 0
    ensures Pos(StepBack(t)) == Pos(t) - 1
    ensures Put(StepBack(t), SPACE).cells == t.cells[Pos(t) - 1 := SPACE] &&
            Put(StepBack(t), SPACE).(cells := t.cells) == t
    ensures StepBack(Put(StepBack(t), SPACE)) == Erased(t)
  {
  }
}
