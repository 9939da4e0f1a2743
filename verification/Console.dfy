/** lib.c: video memory, the three off-screen buffers and the two output routines. */
module Console {
  import opened Bytes
  import opened Screen

  const PAGE_SIZE := 4096

  /** Character cells of a page; attribute bytes sit between them. */
  function Chars(page: seq<byte>): (r: seq<byte>)
    requires |page| == PAGE_SIZE
    ensures |r| == CELLS && forall i :: 0 <= i < CELLS ==> r[i] == page[2 * i]
  {
    seq(CELLS, i requires 0 <= i < CELLS => page[2 * i])
  }

  ghost predicate Attributed(page: seq<byte>)
    requires |page| == PAGE_SIZE
  {
    forall i :: 0 <= i < CELLS ==> page[2 * i + 1] == ATTRIB
  }

  lemma BlankPage(page: seq<byte>)
    requires |page| == PAGE_SIZE && forall i :: 0 <= i < PAGE_SIZE ==> page[i] == if i % 2 == 0 then SPACE else ATTRIB
    ensures Attributed(page) && Chars(page) == BLANK.cells
  {
  }

  class Console {
    const video: array<byte>
    const videoBuf1: array<byte>
    const videoBuf2: array<byte>
    const videoBuf3: array<byte>
    /** Where the output of the running process goes; one of the four pages above. */
    var videoMem: array<byte>
    var screenX: seq<int>
    var screenY: seq<int>
    var currTerminal: int
    /** Global of scheduler.c, kept here because the output routines read it. */
    var currScheduled: int

    ghost function Pages(): set<object> {
      {video, videoBuf1, videoBuf2, videoBuf3}
    }

    ghost predicate PagesValid()
      reads this, Pages()
    {
      && video != videoBuf1 && video != videoBuf2 && video != videoBuf3
      && videoBuf1 != videoBuf2 && videoBuf1 != videoBuf3 && videoBuf2 != videoBuf3
      && video.Length == videoBuf1.Length == videoBuf2.Length == videoBuf3.Length == PAGE_SIZE
      && Attributed(video[..]) && Attributed(videoBuf1[..]) && Attributed(videoBuf2[..]) && Attributed(videoBuf3[..])
      && (videoMem == video || videoMem == videoBuf1 || videoMem == videoBuf2 || videoMem == videoBuf3)
    }

    /** Valid except that a cursor may be off the screen. */
    ghost predicate Shaped()
      reads this, Pages()
    {
      && PagesValid()
      && 1 <= currTerminal <= 3 && 1 <= currScheduled <= 3
      && |screenX| == |screenY| == 3
    }

    ghost predicate Valid()
      reads this, Pages()
    {
      && Shaped()
      && forall t :: 0 <= t < 3 ==> 0 <= screenX[t] < COLS && 0 <= screenY[t] < ROWS
    }

    function Buffer(t: int): array<byte> {
      if t == 1 then videoBuf1 else if t == 2 then videoBuf2 else videoBuf3
    }

    /** The page that holds what terminal t looks like. */
    function PageOf(t: int): array<byte>
      reads this
    {
      if t == currTerminal then video else Buffer(t)
    }

    /** Terminal t, wherever its cells are kept. */
    ghost function Terminal(t: int): (r: Term)
      requires Shaped() && 1 <= t <= 3
      reads this, Pages()
      ensures |r.cells| == CELLS && (Valid() ==> InScreen(r))
    {
      Term(Chars(PageOf(t)[..]), screenX[t - 1], screenY[t - 1])
    }

    ghost function Terminals(): (r: seq<Term>)
      requires Valid()
      reads this, Pages()
      ensures |r| == 3 && forall t :: 0 <= t < 3 ==> InScreen(r[t])
    {
      [Terminal(1), Terminal(2), Terminal(3)]
    }

    /** Output through videoMem reaches the running terminal. */
    ghost predicate Mapped()
      reads this
    {
      videoMem == PageOf(currScheduled)
    }

    /** Boot: blank pages, terminal 1 shown and next to run. */
    constructor ()
      ensures Valid() && fresh(Pages()) && Mapped()
      ensures currTerminal == currScheduled == 1 && videoMem == video
      ensures Terminals() == [BLANK, BLANK, BLANK]
    {
      hide Attributed, Chars;
      video := new byte[PAGE_SIZE](i => if i % 2 == 0 then SPACE else ATTRIB);
      videoBuf1 := new byte[PAGE_SIZE](i => if i % 2 == 0 then SPACE else ATTRIB);
      videoBuf2 := new byte[PAGE_SIZE](i => if i % 2 == 0 then SPACE else ATTRIB);
      videoBuf3 := new byte[PAGE_SIZE](i => if i % 2 == 0 then SPACE else ATTRIB);
      screenX, screenY := [0, 0, 0], [0, 0, 0];
      currTerminal, currScheduled := 1, 1;
      videoMem := video;
      new;
      BlankPage(video[..]);
      BlankPage(videoBuf1[..]);
      BlankPage(videoBuf2[..]);
      BlankPage(videoBuf3[..]);
    }

    /** Stores a character with the standard attribute. */
    method PutCell(page: array<byte>, cell: int, c: byte)
      requires page.Length == PAGE_SIZE && Attributed(page[..]) && 0 <= cell < CELLS
      modifies page
      ensures Attributed(page[..]) && Chars(page[..]) == old(Chars(page[..]))[cell := c]
    {
      page[2 * cell] := c;
      page[2 * cell + 1] := ATTRIB;
      assert Chars(page[..]) == old(Chars(page[..]))[cell := c];
    }

    /** scroll: x selects the running process's page (0) or the shown one (1). */
    method Scroll(x: int)
      requires PagesValid() && 0 <= x <= 1
      modifies if x == 0 then videoMem else video
      ensures PagesValid()
      ensures var page := if x == 0 then videoMem else video;
              Chars(page[..]) == Scrolled(old(Chars(page[..])))
    {
      var page := if x == 0 then videoMem else video;
      ghost var was := page[..];
      ShiftRows(page);
      ghost var shifted := page[..];
      BlankLastRow(page);
      assert Chars(page[..]) == Scrolled(Chars(was));
    }

    /** The first loop of scroll: every row but the last takes the next one's characters. */
    static method ShiftRows(page: array<byte>)
      requires page.Length == PAGE_SIZE && Attributed(page[..])
      modifies page
      ensures Attributed(page[..])
      ensures forall j :: 0 <= j < CELLS ==> page[2 * j] == old(page[2 * if j < LAST_ROW then j + COLS else j])
    {
      var i := 0;
      while i < LAST_ROW
        invariant 0 <= i <= LAST_ROW
        invariant forall j :: 0 <= j < CELLS ==> page[2 * j] == old(page[2 * if j < i then j + COLS else j])
        invariant Attributed(page[..])
      {
        page[2 * i] := page[2 * (i + COLS)];
        page[2 * i + 1] := ATTRIB;
        i := i + 1;
      }
    }

    /** The second loop of scroll. */
    static method BlankLastRow(page: array<byte>)
      requires page.Length == PAGE_SIZE && Attributed(page[..])
      modifies page
      ensures Attributed(page[..])
      ensures forall j :: 0 <= j < CELLS ==> page[2 * j] == if j < LAST_ROW then old(page[2 * j]) else SPACE
    {
      var i := LAST_ROW;
      while i < CELLS
        invariant LAST_ROW <= i <= CELLS
        invariant forall j :: 0 <= j < CELLS ==> page[2 * j] == if LAST_ROW <= j < i then SPACE else old(page[2 * j])
        invariant Attributed(page[..])
      {
        page[2 * i] := SPACE;
        page[2 * i + 1] := ATTRIB;
        i := i + 1;
      }
    }

    /** The scroll block that ends both output routines. */
    method ScrollPastEnd(x: int, s: int)
      requires Shaped() && 0 <= x <= 1 && 0 <= s < 3 && screenY[s] <= ROWS && 0 <= screenX[s] < COLS
      requires forall t :: 0 <= t < 3 && t != s ==> 0 <= screenX[t] < COLS && 0 <= screenY[t] < ROWS
      requires 0 <= screenY[s] && PageOf(s + 1) == if x == 0 then videoMem else video
      modifies this`screenX, this`screenY, if x == 0 then videoMem else video
      ensures Valid()
      ensures Terminal(s + 1) == Settle(old(Terminal(s + 1)))
      ensures forall t :: 1 <= t <= 3 && t != s + 1 ==> Terminal(t) == old(Terminal(t))
    {
      hide Attributed, Chars, Scrolled;
      if screenY[s] >= ROWS {
        Scroll(x);
        screenY := screenY[s := screenY[s] - 1];
        screenX := screenX[s := 0];
      }
    }

    /** putc: output of the running process. */
    method Putc(c: byte)
      requires Valid() && Mapped()
      modifies this`screenX, this`screenY, videoMem
      ensures Valid() && Mapped()
      ensures Terminal(currScheduled) == Put(old(Terminal(currScheduled)), c)
      ensures forall t :: 1 <= t <= 3 && t != currScheduled ==> Terminal(t) == old(Terminal(t))
    {
      hide Store, Settle, Terminal, PagesValid;
      StoreAt(videoMem, currScheduled - 1, c);
      ScrollPastEnd(0, currScheduled - 1);
    }

    /** The first half of both output routines: the character and the cursor step on terminal s + 1. */
    method StoreAt(page: array<byte>, s: int, c: byte)
      requires Valid() && 0 <= s < 3 && page == PageOf(s + 1)
      modifies this`screenX, this`screenY, page
      ensures Shaped() && screenY[s] <= ROWS && 0 <= screenX[s] < COLS && 0 <= screenY[s]
      ensures forall t :: 0 <= t < 3 && t != s ==> 0 <= screenX[t] < COLS && 0 <= screenY[t] < ROWS
      ensures Terminal(s + 1) == Store(old(Terminal(s + 1)), c)
      ensures forall t :: 1 <= t <= 3 && t != s + 1 ==> Terminal(t) == old(Terminal(t))
    {
      hide Attributed, Chars;
      if c == NEWLINE || c == RETURN {
        screenY := screenY[s := screenY[s] + 1];
        screenX := screenX[s := 0];
      } else {
        PutCell(page, COLS * screenY[s] + screenX[s], c);
        screenX := screenX[s := screenX[s] + 1];
        screenY := screenY[s := screenY[s] + screenX[s] / COLS];
        screenX := screenX[s := screenX[s] % COLS];
      }
    }

    /** putc2: output to the shown terminal, whoever is running. */
    method Putc2(c: byte)
      requires Valid()
      modifies this`screenX, this`screenY, video
      ensures Valid()
      ensures Terminal(currTerminal) == Put(old(Terminal(currTerminal)), c)
      ensures forall t :: 1 <= t <= 3 && t != currTerminal ==> Terminal(t) == old(Terminal(t))
    {
      hide Store, Settle, Terminal, PagesValid;
      StoreAt(video, currTerminal - 1, c);
      ScrollPastEnd(1, currTerminal - 1);
    }

    /** printf of a message without conversions: always through videoMem. */
    method PrintMessage(s: seq<byte>)
      requires Valid() && Mapped() && NulFree(s) && PERCENT !in s
      modifies this`screenX, this`screenY, videoMem
      ensures Valid() && Mapped()
      ensures Terminal(currScheduled) == Write(old(Terminal(currScheduled)), s)
      ensures forall t :: 1 <= t <= 3 && t != currScheduled ==> Terminal(t) == old(Terminal(t))
    {
      hide Attributed, Chars, Put;
      ghost var goal := Write(Terminal(currScheduled), s);
      var index := 0;
      while index < |s|
        invariant 0 <= index <= |s|
        invariant Valid() && Mapped()
        invariant Write(Terminal(currScheduled), s[index..]) == goal
        invariant forall t :: 1 <= t <= 3 && t != currScheduled ==> Terminal(t) == old(Terminal(t))
      {
        Putc(s[index]);
        index := index + 1;
      }
    }

    /** putfile: a buffer to the running process's terminal, by whichever routine applies.  The shown
        terminal is reached through VIDEO, so the mapping only matters for a background process. */
    method PutFile(s: seq<byte>) returns (written: int)
      requires Valid() && (currScheduled == currTerminal || Mapped())
      modifies this`screenX, this`screenY, if currScheduled == currTerminal then video else videoMem
      ensures Valid() && written == |s|
      ensures Terminal(currScheduled) == Write(old(Terminal(currScheduled)), s)
      ensures forall t :: 1 <= t <= 3 && t != currScheduled ==> Terminal(t) == old(Terminal(t))
    {
      hide Attributed, Chars, Put;
      ghost var goal := Write(Terminal(currScheduled), s);
      var index := 0;
      while index < |s|
        invariant 0 <= index <= |s|
        invariant Valid()
        invariant Write(Terminal(currScheduled), s[index..]) == goal
        invariant forall t :: 1 <= t <= 3 && t != currScheduled ==> Terminal(t) == old(Terminal(t))
      {
        if s[index] != NUL {
          if currScheduled == currTerminal {
            Putc2(s[index]);
          } else {
            Putc(s[index]);
          }
        }
        index := index + 1;
      }
      return index;
    }

    method SetCursors(posX: int, posY: int)
      requires Valid()
      modifies this`screenX, this`screenY
      ensures Valid()
      ensures var x := if posX < 0 then COLS - 1 else posX;
              var y := if posX < 0 then posY - 1 else posY;
              Terminal(currTerminal) ==
              if 0 <= x < COLS && 0 <= y < ROWS then old(Terminal(currTerminal)).(x := x, y := y)
              else old(Terminal(currTerminal))
      ensures forall t :: 1 <= t <= 3 && t != currTerminal ==> Terminal(t) == old(Terminal(t))
    {
      hide Attributed, Chars;
      var x, y := posX, posY;
      if x < 0 {
        y := y - 1;
        x := COLS - 1;
      }
      if x < 0 || x >= COLS || y < 0 || y >= ROWS {
        return;
      }
      screenX := screenX[currTerminal - 1 := x];
      screenY := screenY[currTerminal - 1 := y];
    }

    /** clear: blanks the shown page and leaves the cursor alone. */
    method Clear()
      requires Valid()
      modifies video
      ensures Valid()
      ensures Terminal(currTerminal) == old(Terminal(currTerminal)).(cells := BLANK.cells)
      ensures forall t :: 1 <= t <= 3 && t != currTerminal ==> Terminal(t) == old(Terminal(t))
    {
      var i := 0;
      while i < CELLS
        invariant 0 <= i <= CELLS
        invariant forall j :: 0 <= j < i ==> video[2 * j] == SPACE
        invariant Attributed(video[..])
      {
        video[2 * i] := SPACE;
        video[2 * i + 1] := ATTRIB;
        i := i + 1;
      }
      assert Chars(video[..]) == BLANK.cells;
    }

    /** switch_terminal: the shown page goes to its buffer and the next buffer comes up.
        No terminal looks different afterwards. */
    method SwitchTerminal(from: int, to: int)
      requires Valid() && from == currTerminal && 1 <= to <= 3
      modifies this`currTerminal, video, Buffer(from)
      ensures Valid() && currTerminal == to
      ensures forall t :: 1 <= t <= 3 ==> Terminal(t) == old(Terminal(t))
    {
      hide Attributed, Chars;
      currTerminal := to;
      Exchange(video, Buffer(from), Buffer(to));
      assert Terminal(1) == old(Terminal(1));
      assert Terminal(2) == old(Terminal(2));
      assert Terminal(3) == old(Terminal(3));
    }

    /** The copy loop of switch_terminal: the shown page goes to f while t comes up; f and t may be one page. */
    static method Exchange(video: array<byte>, f: array<byte>, t: array<byte>)
      requires video != f && video != t && video.Length == f.Length == t.Length == PAGE_SIZE
      requires Attributed(video[..]) && Attributed(f[..]) && Attributed(t[..])
      modifies video, f
      ensures Attributed(video[..]) && Attributed(f[..])
      ensures Chars(f[..]) == old(Chars(video[..]))
      ensures Chars(video[..]) == if f == t then old(Chars(video[..])) else old(Chars(t[..]))
    {
      var i := 0;
      while i < CELLS
        invariant 0 <= i <= CELLS
        invariant forall j :: 0 <= j < i ==> f[2 * j] == old(video[2 * j])
        invariant forall j :: 0 <= j < i ==> video[2 * j] == if f == t then old(video[2 * j]) else old(t[2 * j])
        invariant forall j :: i <= j < CELLS ==> video[2 * j] == old(video[2 * j])
        invariant f != t ==> t[..] == old(t[..])
        invariant Attributed(video[..]) && Attributed(f[..])
      {
        f[2 * i] := video[2 * i];
        video[2 * i] := t[2 * i];
        i := i + 1;
      }
    }
  }
}
