/**
 What a user sees of the kernel: three independent terminals, each with a screen and an unfinished
 input line.  The classes Console and Keyboard are proved against these functions.
 */
module World {
  import opened Bytes
  import opened Screen

  const KB_BUF_SIZE := 128

  const CHAR_UPPER := 0x35
  const CHAR_LOWER := 0x01
  const KEY_Q := 0x10
  const KEY_P := 0x19
  const KEY_A := 0x1E
  const KEY_L := 0x26
  const KEY_Z := 0x2C
  const KEY_M := 0x32
  const SHIFT_PRESSED1 := 0x2A
  const SHIFT_PRESSED2 := 0x36
  const SHIFT_RELEASED1 := 0xAA
  const SHIFT_RELEASED2 := 0xB6
  const ALT_PRESSED := 0x38
  const ALT_RELEASED := 0xB8
  const CAPS_PRESSED := 0x3A
  const CTRL_PRESSED := 0x1D
  const CTRL_RELEASED := 0x9D
  const KEY_SPACE := 0x39
  const BACKSPACE := 0x0E
  const ENTER_PRESS := 0x1C
  const KEY_F1 := 0x3B
  const KEY_F3 := 0x3D

  /** Characters by scan code minus one, row by row of the keyboard; '\0' where a key prints nothing. */
  const LOWER_ROW0 := "\01234567890-=\0\0"
  const LOWER_ROW1 := "qwertyuiop[]\n\0"
  const LOWER_ROW2 := "asdfghjkl;'`\0\\"
  const LOWER_ROW3 := "zxcvbnm,./"
  const CHAR_LIST := LOWER_ROW0 + LOWER_ROW1 + LOWER_ROW2 + LOWER_ROW3

  const UPPER_ROW0 := "\0!@#$%^&*()_+\0\0"
  const UPPER_ROW1 := "QWERTYUIOP{}\n\0"
  const UPPER_ROW2 := "ASDFGHJKL:\"~\0|"
  const UPPER_ROW3 := "ZXCVBNM<>?"
  const UPPER_CHAR_LIST := UPPER_ROW0 + UPPER_ROW1 + UPPER_ROW2 + UPPER_ROW3

  datatype Modifiers = Modifiers(shift: bool, alt: bool, caps: bool, ctrl: bool)

  /** lines[t - 1] is the unfinished line of terminal t.  A pending terminal already owns the keyboard
      although its screen only comes up at the next tick. */
  datatype World = World(terms: seq<Term>, lines: seq<seq<byte>>, mods: Modifiers, enter: bool,
                         shown: int, pending: int, running: int)

  predicate WorldShape(w: World) {
    && |w.terms| == |w.lines| == 3
    && (forall t :: 0 <= t < 3 ==> InScreen(w.terms[t]) && |w.lines[t]| <= KB_BUF_SIZE)
    && 1 <= w.shown <= 3 && 0 <= w.pending <= 3 && 1 <= w.running <= 3
  }

  function Owner(w: World): int { if w.pending != 0 then w.pending else w.shown }

  function Line(w: World): seq<byte>
    requires WorldShape(w)
  {
    w.lines[Owner(w) - 1]
  }

  /** At most the first n bytes. */
  function Cut(line: seq<byte>, n: nat): seq<byte> { line[..if n < |line| then n else |line|] }

  // ---------------------------------------------------------------- keys

  function NextModifiers(m: Modifiers, c: int): Modifiers {
    var m1 := if c == SHIFT_PRESSED1 || c == SHIFT_PRESSED2 then m.(shift := true)
              else if c == SHIFT_RELEASED1 || c == SHIFT_RELEASED2 then m.(shift := false)
              else m;
    if c == ALT_PRESSED then m1.(alt := true)
    else if c == ALT_RELEASED then m1.(alt := false)
    else if c == CAPS_PRESSED then m1.(caps := !m1.caps)
    else if c == CTRL_PRESSED then m1.(ctrl := true)
    else if c == CTRL_RELEASED then m1.(ctrl := false)
    else m1
  }

  predicate IsLetter(c: int) {
    KEY_Q <= c <= KEY_P || KEY_A <= c <= KEY_L || KEY_Z <= c <= KEY_M
  }

  function CharAt(list: string, c: int): byte
    requires CHAR_LOWER <= c <= |list|
  {
    var code := list[c - 1] as int;
    if code < 256 then code else NUL
  }

  /** The character of a key under the modifiers; NUL when it prints nothing. */
  function Printed(m: Modifiers, c: int): byte
    requires CHAR_LOWER <= c <= CHAR_UPPER
  {
    if m.caps && IsLetter(c) && !m.shift then CharAt(UPPER_CHAR_LIST, c)
    else if !m.shift || m.caps then CharAt(CHAR_LIST, c)
    else CharAt(UPPER_CHAR_LIST, c)
  }

  predicate IsClear(m: Modifiers, c: int) { NextModifiers(m, c).ctrl && c == KEY_L }

  predicate IsSwitch(m: Modifiers, c: int) { NextModifiers(m, c).alt && KEY_F1 <= c <= KEY_F3 }

  /** A terminal request while another one is waiting for its tick: the one case that loses a line. */
  predicate IsSecondRequest(w: World, c: int) {
    IsSwitch(w.mods, c) && c - KEY_F1 + 1 != w.shown && w.pending != 0
  }

  /** The cell before the cursor is blanked and the cursor moves onto it. */
  function Erased(t: Term): (r: Term)
    requires InScreen(t) && Pos(t) > 0
    ensures InScreen(r)
  {
    Term(t.cells[Pos(t) - 1 := SPACE], (Pos(t) - 1) % COLS, (Pos(t) - 1) / COLS)
  }

  function TypeChar(w: World, c: byte): (r: World)
    requires WorldShape(w)
    ensures WorldShape(r)
  {
    if |Line(w)| < KB_BUF_SIZE then
      w.(lines := w.lines[Owner(w) - 1 := Line(w) + [c]],
         terms := w.terms[w.shown - 1 := Put(w.terms[w.shown - 1], c)])
    else w
  }

  function EraseChar(w: World): (r: World)
    requires WorldShape(w) && Line(w) != []
    ensures WorldShape(r)
  {
    var t := w.terms[w.shown - 1];
    if Pos(t) == 0 then w
    else w.(lines := w.lines[Owner(w) - 1 := Line(w)[..|Line(w)| - 1]],
            terms := w.terms[w.shown - 1 := Erased(t)])
  }

  /** A key that edits the line, under the modifiers held. */
  function EditStep(w: World, c: int): (r: World)
    requires WorldShape(w)
    ensures WorldShape(r)
  {
    if c == KEY_SPACE then TypeChar(w, SPACE)
    else if c == BACKSPACE && Line(w) != [] then EraseChar(w)
    else if c == ENTER_PRESS then w.(enter := true)
    else if CHAR_LOWER <= c <= CHAR_UPPER && Printed(w.mods, c) != NUL then TypeChar(w, Printed(w.mods, c))
    else w
  }

  /** One scan code, unless it is a second terminal request. */
  function KeyStep(w: World, c: int): (r: World)
    requires WorldShape(w)
    ensures WorldShape(r)
  {
    var m := NextModifiers(w.mods, c);
    var w1 := w.(mods := m);
    if IsClear(w.mods, c) then w1.(terms := w.terms[w.shown - 1 := BLANK])
    else if IsSwitch(w.mods, c) then
      if c - KEY_F1 + 1 != w.shown then w1.(pending := c - KEY_F1 + 1) else w1
    else EditStep(w1, c)
  }

  // ---------------------------------------------------------------- reads and writes

  /** A read that finds Enter pressed: a new line on the shown screen, and the line is consumed. */
  function ReadStep(w: World): (r: World)
    requires WorldShape(w)
    ensures WorldShape(r)
  {
    w.(enter := false,
       lines := w.lines[Owner(w) - 1 := []],
       terms := w.terms[w.shown - 1 := Put(w.terms[w.shown - 1], NEWLINE)])
  }

  /** A non-empty write by the running process; it drops that terminal's saved line if it has one. */
  function WriteStep(w: World, s: seq<byte>): (r: World)
    requires WorldShape(w)
    ensures WorldShape(r)
  {
    w.(terms := w.terms[w.running - 1 := Write(w.terms[w.running - 1], s)],
       lines := if w.running == Owner(w) then w.lines else w.lines[w.running - 1 := []])
  }

  // ---------------------------------------------------------------- kernel steps as seen by the user

  /** A tick.  The first three start the shells, the fourth returns to terminal 1; after that a tick
      brings up a requested terminal and moves on to the next process, and no screen or line changes. */
  function TickWorld(w: World, total: int): (r: World)
    requires WorldShape(w) && 0 <= total <= 4
    ensures WorldShape(r)
  {
    if total < 3 then
      w.(shown := total + 1, running := total + 1, terms := w.terms[total := w.terms[total].(x := 0, y := 0)])
    else if total == 3 then w.(shown := 1)
    else w.(shown := Owner(w), pending := 0, running := w.running % 3 + 1)
  }

  lemma BootWorld(w: World, total: int)
    requires WorldShape(w) && 0 <= total < 3
    ensures var home := w.terms[total].(x := 0, y := 0);
            w.(shown := total + 1, terms := w.terms[total := home]).(running := total + 1) == TickWorld(w, total)
  {
  }

  /** "MAX PROCESSES REACHED" and a line break. */
  const MAX_MESSAGE: seq<byte> :=
    [77, 65, 88, 32, 80, 82, 79, 67, 69, 83, 83, 69, 83, 32, 82, 69, 65, 67, 72, 69, 68, 10]

  /** A kernel message on the running terminal. */
  function Announce(w: World, message: seq<byte>): (r: World)
    requires WorldShape(w)
    ensures WorldShape(r)
  {
    w.(terms := w.terms[w.running - 1 := Write(w.terms[w.running - 1], message)])
  }

  function ClearShown(w: World): (r: World)
    requires WorldShape(w)
    ensures WorldShape(r)
  {
    w.(terms := w.terms[w.shown - 1 := BLANK])
  }
}
