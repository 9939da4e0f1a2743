/** One text terminal as the kernel presents it: 25 rows of 80 cells and a cursor. */
module Screen {
  import opened Bytes

  const COLS := 80
  const ROWS := 25
  const CELLS := 2000
  const LAST_ROW := 1920
  const ATTRIB: byte := 0x0A

  datatype Term = Term(cells: seq<byte>, x: int, y: int)

  const BLANK := Term(Fill(CELLS, SPACE), 0, 0)

  predicate InScreen(t: Term) {
    |t.cells| == CELLS && 0 <= t.x < COLS && 0 <= t.y < ROWS
  }

  /** Linear position of the cursor. */
  function Pos(t: Term): int { COLS * t.y + t.x }

  /** Rows move up by one; the bottom row becomes blank. */
  function Scrolled(cells: seq<byte>): (r: seq<byte>)
    requires |cells| == CELLS
    ensures |r| == CELLS
  {
    cells[COLS..] + Fill(COLS, SPACE)
  }

  predicate IsLineBreak(c: byte) { c == NEWLINE || c == RETURN }

  /** A character stored at the cursor, and the cursor moved; it may leave the last row. */
  function Store(t: Term, c: byte): Term
    requires InScreen(t)
  {
    if IsLineBreak(c) then Term(t.cells, 0, t.y + 1)
    else Term(t.cells[Pos(t) := c], (t.x + 1) % COLS, t.y + (t.x + 1) / COLS)
  }

  /** Scrolls when the cursor has left the last row. */
  function Settle(t: Term): Term
    requires |t.cells| == CELLS
  {
    if t.y < ROWS then t else Term(Scrolled(t.cells), 0, t.y - 1)
  }

  /** What one output character does to a terminal. */
  function Put(t: Term, c: byte): (r: Term)
    requires InScreen(t)
    ensures InScreen(r)
  {
    Settle(Store(t, c))
  }

  /** Output of a byte string; NUL bytes are skipped. */
  function Write(t: Term, s: seq<byte>): (r: Term)
    requires InScreen(t)
    ensures InScreen(r)
    decreases |s|
  {
    if s == [] then t else Write(if s[0] == NUL then t else Put(t, s[0]), s[1..])
  }

  /** A printable character goes to the cursor cell and the cursor moves one cell on; past the last
      cell everything moves up a row. */
  lemma PutLinear(t: Term, c: byte)
    requires InScreen(t) && !IsLineBreak(c)
    ensures Pos(t) + 1 < CELLS ==> Put(t, c).cells == t.cells[Pos(t) := c] && Pos(Put(t, c)) == Pos(t) + 1
    ensures Pos(t) + 1 == CELLS ==>
            Put(t, c).cells == t.cells[COLS..CELLS - 1] + [c] + Fill(COLS, SPACE) && Pos(Put(t, c)) == LAST_ROW
  {
    if Pos(t) + 1 == CELLS {
      assert t.cells[Pos(t) := c][COLS..] == t.cells[COLS..CELLS - 1] + [c];
    }
  }

  lemma {:induction false} WriteSplit(t: Term, s: seq<byte>, u: seq<byte>)
    requires InScreen(t)
    ensures Write(t, s + u) == Write(Write(t, s), u)
    decreases |s|
  {
    if s == [] {
      assert s + u == u;
    } else {
      assert (s + u)[0] == s[0] && (s + u)[1..] == s[1..] + u;
      WriteSplit(if s[0] == NUL then t else Put(t, s[0]), s[1..], u);
    }
  }

  // ---------------------------------------------------------------- what output shows

  /** Bytes that each take one cell. */
  predicate Plain(s: seq<byte>) {
    forall i :: 0 <= i < |s| ==> s[i] != 0 && s[i] != 10 && s[i] != 13
  }

  /** How many rows have moved off the top when a screen has taken n cells. */
  function RowsGone(n: nat): nat { if n < 2000 then 0 else (n - 2000) / 80 + 1 }

  lemma RowsGoneAre(n: nat)
    ensures RowsGone(n) == 0 <==> n < 2000
    ensures n >= 2000 ==> 1920 <= n - 80 * RowsGone(n) < 2000 && RowsGone(n - 80) + 1 == RowsGone(n)
  {
  }

  /** What stood before the cursor, and the text behind it. */
  function Stream(t: Term, s: seq<byte>): seq<byte>
    requires InScreen(t)
  {
    t.cells[..80 * t.y + t.x] + s
  }

  /** `r` shows the stream of `t` and `s` from the first row that has not moved off the top, with the cursor at its end,
      and behind the cursor the old cells if nothing has moved and blanks otherwise. */
  predicate Shows(t: Term, s: seq<byte>, r: Term)
    requires InScreen(t) && InScreen(r)
  {
    var stream := Stream(t, s);
    var gone := 80 * RowsGone(|stream|);
    && gone <= |stream| && |stream| - gone < 2000 && 80 * r.y + r.x == |stream| - gone
    && r.cells[..|stream| - gone] == stream[gone..]
    && r.cells[|stream| - gone..] ==
       if |stream| < 2000 then t.cells[|stream|..] else Fill(2000 - (|stream| - gone), 32)
  }

  /** The whole screen after plain text. */
  lemma {:induction false} WriteShows(t: Term, s: seq<byte>)
    requires InScreen(t) && Plain(s)
    ensures Shows(t, s, Write(t, s))
    decreases |s|
  {
    hide Put, Shows, Fill;
    if s == [] {
      NothingShown(t);
    } else {
      var u := Put(t, s[0]);
      PutLinear(t, s[0]);
      WriteShows(u, s[1..]);
      if Pos(t) + 1 < CELLS {
        StreamGoesOn(t, s, u, Write(t, s));
      } else {
        StreamScrolls(t, s, u, Write(t, s));
      }
    }
  }

  lemma NothingShown(t: Term)
    requires InScreen(t)
    ensures Shows(t, [], t)
  {
    assert Stream(t, []) == t.cells[..Pos(t)];
  }

  lemma StreamGoesOn(t: Term, s: seq<byte>, u: Term, r: Term)
    requires InScreen(t) && InScreen(u) && InScreen(r) && s != [] && Pos(t) + 1 < CELLS
    requires u.cells == t.cells[Pos(t) := s[0]] && Pos(u) == Pos(t) + 1 && Shows(u, s[1..], r)
    ensures Shows(t, s, r)
  {
    hide RowsGone, Fill;
    var p := Pos(t);
    assert u.cells[..p + 1] == t.cells[..p] + [s[0]];
    assert Stream(u, s[1..]) == Stream(t, s);
  }

  /** A character in the last cell: the stream goes on one row further up. */
  lemma StreamScrolls(t: Term, s: seq<byte>, u: Term, r: Term)
    requires InScreen(t) && InScreen(u) && InScreen(r) && s != [] && Pos(t) + 1 == CELLS && Pos(u) == LAST_ROW
    requires u.cells == t.cells[COLS..CELLS - 1] + [s[0]] + Fill(COLS, SPACE) && Shows(u, s[1..], r)
    ensures Shows(t, s, r)
  {
    var stream := Stream(t, s);
    RowsGoneAre(|stream|);
    hide RowsGone;
    assert s == [s[0]] + s[1..];
    assert u.cells[..LAST_ROW] == t.cells[COLS..CELLS - 1] + [s[0]];
    assert Stream(u, s[1..]) == stream[COLS..];
    if |stream| - COLS < CELLS {
      assert u.cells[|stream| - COLS..] == Fill(CELLS - (|stream| - COLS), 32);
    }
  }

  /** Plain text that fits stands in the cells from the cursor on, and nothing else changes. */
  lemma WriteFits(t: Term, s: seq<byte>)
    requires InScreen(t) && Plain(s) && 80 * t.y + t.x + |s| < 2000
    ensures var r, p := Write(t, s), 80 * t.y + t.x;
            && 80 * r.y + r.x == p + |s|
            && r.cells == t.cells[..p] + s + t.cells[p + |s|..]
  {
    hide Write, Fill;
    WriteShows(t, s);
    var r, p := Write(t, s), Pos(t);
    assert |Stream(t, s)| == p + |s|;
    assert r.cells == r.cells[..p + |s|] + r.cells[p + |s|..];
  }

  /** Longer text: the cells before the cursor are the end of the text, up to all rows but the last one. */
  lemma EndStands(t: Term, s: seq<byte>, n: nat)
    requires InScreen(t) && Plain(s) && n <= |s| && n <= 1920
    ensures var r := Write(t, s); var q := 80 * r.y + r.x;
            n <= q < 2000 && r.cells[q - n..q] == s[|s| - n..]
  {
    hide Write, Shows;
    WriteShows(t, s);
    EndOfStream(t, s, Write(t, s), n);
  }

  lemma EndOfStream(t: Term, s: seq<byte>, r: Term, n: nat)
    requires InScreen(t) && InScreen(r) && Shows(t, s, r) && n <= |s| && n <= 1920
    ensures n <= Pos(r) < 2000 && r.cells[Pos(r) - n..Pos(r)] == s[|s| - n..]
  {
    var stream := Stream(t, s);
    var gone := 80 * RowsGone(|stream|);
    RowsGoneAre(|stream|);
    hide RowsGone, Fill;
    assert stream[gone..][|stream| - gone - n..] == s[|s| - n..];
    assert r.cells[..Pos(r)][Pos(r) - n..] == r.cells[Pos(r) - n..Pos(r)];
  }

  /** A line break, newline or carriage return: the cursor goes to the start of the next row; on the last row
      everything moves up one row instead, and the bottom row is blank. */
  lemma BreakShows(t: Term, c: byte)
    requires InScreen(t) && (c == 10 || c == 13)
    ensures var r := Write(t, [c]);
            if t.y < 24 then r == Term(t.cells, 0, t.y + 1)
            else r == Term(t.cells[80..] + Fill(80, 32), 0, 24)
  {
    hide Fill;
    assert [c][1..] == [];
  }

  /** NUL bytes show nothing, wherever they stand. */
  lemma NulShowsNothing(t: Term, s: seq<byte>, u: seq<byte>)
    requires InScreen(t)
    ensures Write(t, s + [0] + u) == Write(t, s + u)
  {
    hide Put, Write;
    assert s + [0] + u == s + ([0] + u);
    WriteSplit(t, s, [0] + u);
    WriteSplit(t, s, u);
    NulFirst(Write(t, s), u);
  }

  lemma NulFirst(t: Term, u: seq<byte>)
    requires InScreen(t)
    ensures Write(t, [0] + u) == Write(t, u)
  {
    hide Put;
    assert ([0] + u)[1..] == u;
  }
}
