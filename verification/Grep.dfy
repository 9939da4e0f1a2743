/** ece391grep.c: the chunked, in-place line scanner of do_one_file. */
module Grep {
  import opened Bytes

  const BUFSIZE := 1024

  // ---------------------------------------------------------------- what grep is for

  predicate HasPrefixAt(line: seq<byte>, s: seq<byte>, i: nat) {
    i + |s| <= |line| && line[i..i + |s|] == s
  }

  /** The line contains the pattern.  An empty pattern is contained in no line: its first byte is the NUL. */
  predicate Contains(line: seq<byte>, s: seq<byte>) {
    s != [] && exists i :: 0 <= i < |line| && HasPrefixAt(line, s, i)
  }

  const COLON: byte := 58

  function Printed(fname: seq<byte>, line: seq<byte>): seq<byte> {
    fname + [COLON] + line + [NEWLINE]
  }

  function IfMatch(s: seq<byte>, fname: seq<byte>, line: seq<byte>): seq<byte> {
    if Contains(line, s) then Printed(fname, line) else []
  }

  /** Position of the first newline; the length when there is none. */
  function LineEnd(text: seq<byte>): (k: nat)
    ensures k <= |text| && (k < |text| ==> text[k] == NEWLINE)
    ensures forall j :: 0 <= j < k ==> text[j] != NEWLINE
  {
    if text == [] || text[0] == NEWLINE then 0 else 1 + LineEnd(text[1..])
  }

  /** The lines of a file. */
  function Lines(text: seq<byte>): seq<seq<byte>>
    decreases |text|
  {
    if text == [] then []
    else
      var k := LineEnd(text);
      [text[..k]] + if k == |text| then [] else Lines(text[k + 1..])
  }

  /** The matching ones among some lines, each printed once and in order. */
  function Report(s: seq<byte>, fname: seq<byte>, lines: seq<seq<byte>>): seq<byte> {
    if lines == [] then [] else IfMatch(s, fname, lines[0]) + Report(s, fname, lines[1..])
  }

  // ---------------------------------------------------------------- what it does

  /** The pieces the scanner searches: lines, but cut after every 1024 bytes without a newline. */
  function Pieces(text: seq<byte>): seq<seq<byte>>
    decreases |text|
  {
    if text == [] then []
    else
      var k := LineEnd(text);
      if k >= BUFSIZE then [text[..BUFSIZE]] + Pieces(text[BUFSIZE..])
      else [text[..k]] + if k == |text| then [] else Pieces(text[k + 1..])
  }

  function Scan(s: seq<byte>, fname: seq<byte>, text: seq<byte>): seq<byte> {
    Report(s, fname, Pieces(text))
  }

  predicate ShortLines(text: seq<byte>) {
    forall i :: 0 <= i < |Lines(text)| ==> |Lines(text)[i]| <= BUFSIZE
  }

  /** The pattern stands somewhere in the line. */
  lemma ContainsIff(line: seq<byte>, s: seq<byte>)
    ensures Contains(line, s) <==> s != [] && exists a, b: seq<byte> :: a + s + b == line
  {
    if Contains(line, s) {
      var i :| 0 <= i < |line| && HasPrefixAt(line, s, i);
      assert line[..i] + s + line[i + |s|..] == line;
    }
    if s != [] {
      if a, b: seq<byte> :| a + s + b == line {
        assert line[|a|..|a| + |s|] == s;
        assert HasPrefixAt(line, s, |a|);
      }
    }
  }

  // ---------------------------------------------------------------- where the two agree

  lemma NoMatchInShort(line: seq<byte>, s: seq<byte>)
    requires |line| < |s| || line == []
    ensures !Contains(line, s)
  {
  }

  lemma NothingToReport(s: seq<byte>, fname: seq<byte>)
    ensures Scan(s, fname, []) == Report(s, fname, Lines([])) == Report(s, fname, []) == []
  {
  }

  lemma FirstLine(text: seq<byte>)
    requires text != []
    ensures var k := LineEnd(text);
            Lines(text) == [text[..k]] + if k == |text| then [] else Lines(text[k + 1..])
  {
    hide LineEnd;
  }

  /** A line of exactly 1024 bytes leaves its newline behind as an empty piece, which matches nothing. */
  lemma AfterCut(s: seq<byte>, fname: seq<byte>, text: seq<byte>)
    requires BUFSIZE < |text| && text[BUFSIZE] == NEWLINE && forall j :: 0 <= j < BUFSIZE ==> text[j] != NEWLINE
    ensures Scan(s, fname, text) == IfMatch(s, fname, text[..BUFSIZE]) + Scan(s, fname, text[BUFSIZE + 1..])
  {
    hide Scan, IfMatch;
    var t := text[BUFSIZE..];
    assert t[1..] == text[BUFSIZE + 1..] && t[..0] == [];
    NothingInNothing(s, fname);
    ScanAtCut(s, fname, text);
    ScanAtNewline(s, fname, t, 0);
  }

  /** The lines the scan cuts do not contain the pattern. */
  predicate LongLinesSpare(s: seq<byte>, lines: seq<seq<byte>>) {
    forall i :: 0 <= i < |lines| && |lines[i]| > BUFSIZE ==> !Contains(lines[i], s)
  }

  /** The exact condition, pattern by pattern: the scan reports the matching lines iff no line of more than 1024
      bytes contains the pattern. */
  lemma {:induction false} ScanIsGrepIff(s: seq<byte>, fname: seq<byte>, text: seq<byte>)
    ensures Scan(s, fname, text) == Report(s, fname, Lines(text)) <==> LongLinesSpare(s, Lines(text))
    decreases |text|
  {
    hide Scan, Report, IfMatch, Lines, LongLinesSpare;
    if text == [] {
      NothingToReport(s, fname);
      NoneLong(s);
    } else {
      var k := LineEnd(text);
      var line, rest := text[..k], if k == |text| then [] else text[k + 1..];
      FirstLine(text);
      NoLinesOfNothing();
      ScanIsGrepIff(s, fname, rest);
      ReportCons(s, fname, line, Lines(rest));
      SpareCons(s, line, Lines(rest));
      if k <= BUFSIZE || !Contains(line, s) {
        ScanPastLine(s, fname, text);
        SameAfterPrefix(IfMatch(s, fname, line), Scan(s, fname, rest), Report(s, fname, Lines(rest)));
      } else {
        LongMatchIsMissed(s, fname, text, line, Report(s, fname, Lines(rest)));
      }
    }
  }

  lemma SameAfterPrefix(prefix: seq<byte>, a: seq<byte>, b: seq<byte>)
    ensures prefix + a == prefix + b <==> a == b
  {
    assert (prefix + a)[|prefix|..] == a && (prefix + b)[|prefix|..] == b;
  }

  lemma NoneLong(s: seq<byte>)
    ensures LongLinesSpare(s, Lines([]))
  {
  }

  lemma NoLinesOfNothing()
    ensures Lines([]) == []
  {
  }

  lemma SpareCons(s: seq<byte>, first: seq<byte>, rest: seq<seq<byte>>)
    ensures LongLinesSpare(s, [first] + rest) <==>
            (|first| > BUFSIZE ==> !Contains(first, s)) && LongLinesSpare(s, rest)
  {
    hide Contains;
    var lines := [first] + rest;
    assert lines[0] == first && lines[1..] == rest;
    if LongLinesSpare(s, lines) {
      forall i | 0 <= i < |rest| && |rest[i]| > BUFSIZE ensures !Contains(rest[i], s) {
        assert lines[i + 1] == rest[i];
      }
    }
  }

  /** A line that is short, or that does not contain the pattern, is scanned as one line. */
  lemma {:induction false} ScanPastLine(s: seq<byte>, fname: seq<byte>, text: seq<byte>)
    requires text != [] && (LineEnd(text) <= BUFSIZE || !Contains(text[..LineEnd(text)], s))
    ensures var k := LineEnd(text);
            Scan(s, fname, text) ==
              IfMatch(s, fname, text[..k]) + Scan(s, fname, if k == |text| then [] else text[k + 1..])
    decreases |text|
  {
    hide Scan, IfMatch, Contains;
    var k := LineEnd(text);
    if k > BUFSIZE {
      var tail := text[BUFSIZE..];
      ScanAtCut(s, fname, text);
      TailOfLine(text);
      PartsMissToo(s, fname, text[..k]);
      ScanPastLine(s, fname, tail);
    } else if k == |text| {
      assert text[..k] == text;
      ScanAtEnd(s, fname, text);
      EmptyScan(s, fname);
    } else if k == BUFSIZE {
      AfterCut(s, fname, text);
    } else {
      ScanAtNewline(s, fname, text, k);
    }
  }

  /** Cutting 1024 bytes off a longer line leaves the rest of that line, and the same text behind it. */
  lemma TailOfLine(text: seq<byte>)
    requires LineEnd(text) > BUFSIZE
    ensures var k, tail := LineEnd(text), text[BUFSIZE..];
            && LineEnd(tail) == k - BUFSIZE && tail[..k - BUFSIZE] == text[..k][BUFSIZE..]
            && text[..BUFSIZE] == text[..k][..BUFSIZE]
            && (k < |text| ==> tail[k - BUFSIZE + 1..] == text[k + 1..])
  {
    hide LineEnd;
    var k := LineEnd(text);
    assert text[..k][..BUFSIZE] == text[..BUFSIZE];
    assert text[..k] == text[..BUFSIZE] + text[BUFSIZE..k];
    if k == |text| {
      EndOfTail(text, k);
    } else {
      EndOfTail(text, k);
      assert text[BUFSIZE..][k - BUFSIZE + 1..] == text[k + 1..];
    }
  }

  lemma EndOfTail(text: seq<byte>, k: nat)
    requires BUFSIZE <= k == LineEnd(text)
    ensures LineEnd(text[BUFSIZE..]) == k - BUFSIZE &&
            text[BUFSIZE..][..k - BUFSIZE] == text[BUFSIZE..k] == text[..k][BUFSIZE..]
  {
    var tail := text[BUFSIZE..];
    hide LineEnd;
    forall j | 0 <= j < k - BUFSIZE ensures tail[j] != NEWLINE {
      assert tail[j] == text[BUFSIZE + j];
    }
    EndIs(tail, k - BUFSIZE);
  }

  lemma EndIs(text: seq<byte>, k: nat)
    requires k <= |text| && (k < |text| ==> text[k] == NEWLINE) && forall j :: 0 <= j < k ==> text[j] != NEWLINE
    ensures LineEnd(text) == k
  {
  }

  /** Parts of a line without the pattern do not contain it either. */
  lemma PartsMissToo(s: seq<byte>, fname: seq<byte>, line: seq<byte>)
    requires |line| > BUFSIZE && !Contains(line, s)
    ensures IfMatch(s, fname, line) == IfMatch(s, fname, line[..BUFSIZE]) == []
    ensures !Contains(line[BUFSIZE..], s) && IfMatch(s, fname, line[BUFSIZE..]) == []
  {
    assert line[0..BUFSIZE] == line[..BUFSIZE] && line[BUFSIZE..|line|] == line[BUFSIZE..];
    hide Contains;
    if Contains(line[..BUFSIZE], s) {
      PartHas(s, line, 0, BUFSIZE);
    }
    if Contains(line[BUFSIZE..], s) {
      PartHas(s, line, BUFSIZE, |line|);
    }
  }

  lemma Slice(line: seq<byte>, from: nat, to: nat, i: nat, n: nat)
    requires from <= to <= |line| && i + n <= to - from
    ensures line[from..to][i..i + n] == line[from + i..from + i + n]
  {
    var a, b := line[from..to][i..i + n], line[from + i..from + i + n];
    forall j | 0 <= j < n ensures a[j] == b[j] {
      assert a[j] == line[from..to][i + j] == line[from + (i + j)];
    }
  }

  lemma PartHas(s: seq<byte>, line: seq<byte>, from: nat, to: nat)
    requires from <= to <= |line| && Contains(line[from..to], s)
    ensures Contains(line, s)
  {
    var i :| 0 <= i < to - from && HasPrefixAt(line[from..to], s, i);
    Slice(line, from, to, i, |s|);
    assert HasPrefixAt(line, s, from + i);
  }

  lemma {:induction false} PiecesAreShort(text: seq<byte>)
    ensures forall i :: 0 <= i < |Pieces(text)| ==> |Pieces(text)[i]| <= BUFSIZE && NEWLINE !in Pieces(text)[i]
    decreases |text|
  {
    if text != [] {
      var k := LineEnd(text);
      if k >= BUFSIZE {
        PiecesAreShort(text[BUFSIZE..]);
      } else if k < |text| {
        PiecesAreShort(text[k + 1..]);
      }
    }
  }

  /** No report of short lines begins with a longer line. */
  lemma {:induction false} ShortReportsDiffer(s: seq<byte>, fname: seq<byte>, lines: seq<seq<byte>>, long: seq<byte>,
    more: seq<byte>)
    requires forall i :: 0 <= i < |lines| ==> |lines[i]| <= BUFSIZE && NEWLINE !in lines[i]
    requires |long| > BUFSIZE && NEWLINE !in long
    ensures Report(s, fname, lines) != Printed(fname, long) + more
    decreases |lines|
  {
    if lines != [] {
      if Contains(lines[0], s) {
        PrintedDiffer(fname, lines[0], Report(s, fname, lines[1..]), long, more);
      } else {
        ShortReportsDiffer(s, fname, lines[1..], long, more);
      }
    }
  }

  lemma PrintedDiffer(fname: seq<byte>, a: seq<byte>, x: seq<byte>, b: seq<byte>, y: seq<byte>)
    requires |a| < |b| && NEWLINE !in b
    ensures Printed(fname, a) + x != Printed(fname, b) + y
  {
    var at := |fname| + 1 + |a|;
    assert (Printed(fname, a) + x)[at] == NEWLINE;
    assert (Printed(fname, b) + y)[at] == b[|a|] && b[|a|] in b;
  }

  lemma LongMatchIsMissed(s: seq<byte>, fname: seq<byte>, text: seq<byte>, line: seq<byte>, more: seq<byte>)
    requires |line| > BUFSIZE && NEWLINE !in line && Contains(line, s)
    ensures Scan(s, fname, text) != IfMatch(s, fname, line) + more
  {
    PiecesAreShort(text);
    ShortReportsDiffer(s, fname, Pieces(text), line, more);
  }

  /** On files whose lines have at most 1024 bytes the scan reports exactly the matching lines. */
  lemma ScanOfShortLines(s: seq<byte>, fname: seq<byte>, text: seq<byte>)
    requires ShortLines(text)
    ensures Scan(s, fname, text) == Report(s, fname, Lines(text))
  {
    hide Scan, Report, Lines;
    ScanIsGrepIff(s, fname, text);
  }

  /** One-byte patterns already tell: the scan is right for all of them iff no line has more than 1024 bytes. */
  lemma OneByteTells(fname: seq<byte>, text: seq<byte>)
    ensures ShortLines(text) <==> forall b: byte :: Scan([b], fname, text) == Report([b], fname, Lines(text))
  {
    if ShortLines(text) {
      forall b: byte ensures Scan([b], fname, text) == Report([b], fname, Lines(text)) {
        ScanOfShortLines([b], fname, text);
      }
    } else {
      var i :| 0 <= i < |Lines(text)| && |Lines(text)[i]| > BUFSIZE;
      var line := Lines(text)[i];
      var b := line[0];
      ScanIsGrepIff([b], fname, text);
      assert line[0..0 + 1] == [b];
      assert HasPrefixAt(line, [b], 0);
      hide Scan, Report, Lines;
      assert !LongLinesSpare([b], Lines(text));
    }
  }

  // ---------------------------------------------------------------- the output, cut into lines

  /** The lines that contain the pattern, in order. */
  function Matching(s: seq<byte>, lines: seq<seq<byte>>): seq<seq<byte>> {
    if lines == [] then [] else (if Contains(lines[0], s) then [lines[0]] else []) + Matching(s, lines[1..])
  }

  /** Each line behind the file name and a colon. */
  function Tagged(fname: seq<byte>, lines: seq<seq<byte>>): (r: seq<seq<byte>>)
    ensures |r| == |lines| && forall i :: 0 <= i < |lines| ==> r[i] == fname + [58] + lines[i]
  {
    seq(|lines|, i requires 0 <= i < |lines| => fname + [58] + lines[i])
  }

  /** The lines with their newlines. */
  function Glued(lines: seq<seq<byte>>): seq<byte> {
    if lines == [] then [] else lines[0] + [NEWLINE] + Glued(lines[1..])
  }

  predicate AllLines(lines: seq<seq<byte>>) {
    forall i :: 0 <= i < |lines| ==> NEWLINE !in lines[i]
  }

  /** Empty, or ended by a newline. */
  predicate Complete(text: seq<byte>) {
    text == [] || text[|text| - 1] == NEWLINE
  }

  /** Cutting at newlines loses nothing: the lines hold no newline, and glued they are the text, with a newline added
      where the last line has none. */
  lemma {:induction false} LinesAreTheText(text: seq<byte>)
    ensures AllLines(Lines(text))
    ensures Glued(Lines(text)) == if Complete(text) then text else text + [NEWLINE]
    decreases |text|
  {
    hide LineEnd;
    if text != [] {
      var k := LineEnd(text);
      if k < |text| {
        var rest := text[k + 1..];
        LinesAreTheText(rest);
        assert text == text[..k] + [NEWLINE] + rest;
        assert Lines(text)[1..] == Lines(rest);
      } else {
        assert text[..k] == text && Lines(text) == [text] && [text][1..] == [];
        assert text[|text| - 1] != NEWLINE;
      }
    }
  }

  /** Lines glued together are cut into the same lines. */
  lemma {:induction false} GluedCutsBack(lines: seq<seq<byte>>)
    requires AllLines(lines)
    ensures Lines(Glued(lines)) == lines && Complete(Glued(lines))
    decreases |lines|
  {
    if lines != [] {
      var first, rest := lines[0], Glued(lines[1..]);
      var text := first + [NEWLINE] + rest;
      GluedCutsBack(lines[1..]);
      EndIs(text, |first|);
      FirstLine(text);
      assert text[..|first|] == first && text[|first| + 1..] == rest;
      assert lines == [first] + lines[1..];
      if |first| + 1 == |text| {
        assert rest == [];
      }
    }
  }

  /** `chosen` are all the lines that contain the pattern: they stand at increasing places, and at those places only. */
  predicate Chosen(s: seq<byte>, lines: seq<seq<byte>>, chosen: seq<seq<byte>>, at: seq<nat>) {
    && |chosen| == |at|
    && (forall i :: 0 <= i < |at| ==> at[i] < |lines| && chosen[i] == lines[at[i]])
    && (forall i, j :: 0 <= i < j < |at| ==> at[i] < at[j])
    && (forall k :: 0 <= k < |lines| ==> (k in at <==> Contains(lines[k], s)))
  }

  /** The selection leaves nothing out, repeats nothing and moves nothing. */
  lemma {:induction false} MatchingAt(s: seq<byte>, lines: seq<seq<byte>>) returns (at: seq<nat>)
    ensures Chosen(s, lines, Matching(s, lines), at)
    decreases |lines|
  {
    hide Contains, Chosen;
    if lines == [] {
      at := [];
      NothingChosen(s);
    } else {
      var rest := MatchingAt(s, lines[1..]);
      ChosenBehind(s, lines, Matching(s, lines[1..]), rest);
      if Contains(lines[0], s) {
        at := [0] + Moved(rest);
        ChosenFirst(s, lines, Matching(s, lines[1..]), Moved(rest));
      } else {
        at := Moved(rest);
        ChosenAll(s, lines, Matching(s, lines[1..]), Moved(rest));
        assert [] + Matching(s, lines[1..]) == Matching(s, lines[1..]);
      }
    }
  }

  lemma NothingChosen(s: seq<byte>)
    ensures Chosen(s, [], [], [])
  {
  }

  function Moved(rest: seq<nat>): (r: seq<nat>)
    ensures |r| == |rest| && forall i :: 0 <= i < |rest| ==> r[i] == rest[i] + 1
  {
    seq<nat>(|rest|, i requires 0 <= i < |rest| => rest[i] + 1)
  }

  /** As `Chosen`, for the lines behind the first. */
  predicate Behind(s: seq<byte>, lines: seq<seq<byte>>, chosen: seq<seq<byte>>, at: seq<nat>) {
    && |chosen| == |at|
    && (forall i :: 0 <= i < |at| ==> 0 < at[i] < |lines| && chosen[i] == lines[at[i]])
    && (forall i, j :: 0 <= i < j < |at| ==> at[i] < at[j])
    && (forall k :: 0 < k < |lines| ==> (k in at <==> Contains(lines[k], s)))
  }

  lemma ChosenBehind(s: seq<byte>, lines: seq<seq<byte>>, chosen: seq<seq<byte>>, rest: seq<nat>)
    requires lines != [] && Chosen(s, lines[1..], chosen, rest)
    ensures Behind(s, lines, chosen, Moved(rest))
  {
    hide Contains;
    forall k | 0 < k < |lines| ensures k in Moved(rest) <==> Contains(lines[k], s) {
      assert lines[k] == lines[1..][k - 1];
      InMoved(rest, k);
    }
  }

  lemma InMoved(rest: seq<nat>, k: nat)
    requires k > 0
    ensures k in Moved(rest) <==> k - 1 in rest
  {
    var moved := Moved(rest);
    if k in moved {
      var i :| 0 <= i < |moved| && moved[i] == k;
      assert rest[i] == k - 1;
    }
    if k - 1 in rest {
      var i :| 0 <= i < |rest| && rest[i] == k - 1;
      assert moved[i] == k;
    }
  }

  lemma ChosenAll(s: seq<byte>, lines: seq<seq<byte>>, chosen: seq<seq<byte>>, at: seq<nat>)
    requires lines != [] && Behind(s, lines, chosen, at) && !Contains(lines[0], s)
    ensures Chosen(s, lines, chosen, at)
  {
    hide Contains;
  }

  lemma ChosenFirst(s: seq<byte>, lines: seq<seq<byte>>, chosen: seq<seq<byte>>, at: seq<nat>)
    requires lines != [] && Behind(s, lines, chosen, at) && Contains(lines[0], s)
    ensures Chosen(s, lines, [lines[0]] + chosen, [0] + at)
  {
    hide Contains;
    var more := [0] + at;
    forall k | 0 <= k < |lines| ensures k in more <==> Contains(lines[k], s) {
      assert k in more <==> k == 0 || k in at;
    }
  }

  lemma {:induction false} ReportIsGlued(s: seq<byte>, fname: seq<byte>, lines: seq<seq<byte>>)
    requires AllLines(lines) && NEWLINE !in fname
    ensures Report(s, fname, lines) == Glued(Tagged(fname, Matching(s, lines)))
    ensures AllLines(Tagged(fname, Matching(s, lines)))
    decreases |lines|
  {
    hide Contains, Tagged, Glued;
    NothingGlued(fname);
    if lines != [] {
      ReportIsGlued(s, fname, lines[1..]);
      if Contains(lines[0], s) {
        TaggedCons(fname, lines[0], Matching(s, lines[1..]));
      } else {
        assert [] + Matching(s, lines[1..]) == Matching(s, lines[1..]);
      }
    }
  }

  lemma NothingGlued(fname: seq<byte>)
    ensures Tagged(fname, []) == [] && Glued([]) == []
  {
  }

  lemma TaggedCons(fname: seq<byte>, first: seq<byte>, rest: seq<seq<byte>>)
    requires NEWLINE !in first && NEWLINE !in fname && AllLines(Tagged(fname, rest))
    ensures AllLines(Tagged(fname, [first] + rest))
    ensures Glued(Tagged(fname, [first] + rest)) == fname + [58] + first + [NEWLINE] + Glued(Tagged(fname, rest))
  {
    var more := Tagged(fname, rest);
    assert Tagged(fname, [first] + rest) == [fname + [58] + first] + more;
    assert ([fname + [58] + first] + more)[1..] == more;
  }

  /** What grep writes for a file, told from the output alone: cut at newlines it is the matching lines of the file,
      each behind the file name and a colon, iff no line of more than 1024 bytes contains the pattern. */
  lemma OutputLinesIff(s: seq<byte>, fname: seq<byte>, text: seq<byte>)
    requires NEWLINE !in fname
    ensures Complete(Scan(s, fname, text))
    ensures Lines(Scan(s, fname, text)) == Tagged(fname, Matching(s, Lines(text))) <==> LongLinesSpare(s, Lines(text))
  {
    hide Lines, Matching, Tagged, Glued, Report, Pieces, LongLinesSpare, Complete, AllLines;
    var found := Tagged(fname, Matching(s, Lines(text)));
    var pieces := Tagged(fname, Matching(s, Pieces(text)));
    LinesAreTheText(text);
    PiecesAreLines(text);
    ReportIsGlued(s, fname, Lines(text));
    ReportIsGlued(s, fname, Pieces(text));
    GluedCutsBack(found);
    GluedCutsBack(pieces);
    ScanIsGrepIff(s, fname, text);
  }

  lemma PiecesAreLines(text: seq<byte>)
    ensures AllLines(Pieces(text))
  {
    PiecesAreShort(text);
  }

  // ---------------------------------------------------------------- one step of the scan

  /** A newline within the first 1024 bytes ends a piece. */
  lemma ScanAtNewline(s: seq<byte>, fname: seq<byte>, text: seq<byte>, k: nat)
    requires k < |text| && k < BUFSIZE && text[k] == NEWLINE && forall j :: 0 <= j < k ==> text[j] != NEWLINE
    ensures Scan(s, fname, text) == IfMatch(s, fname, text[..k]) + Scan(s, fname, text[k + 1..])
  {
    hide IfMatch;
    assert LineEnd(text) == k;
    ReportCons(s, fname, text[..k], Pieces(text[k + 1..]));
  }

  lemma ReportCons(s: seq<byte>, fname: seq<byte>, first: seq<byte>, rest: seq<seq<byte>>)
    ensures Report(s, fname, [first] + rest) == IfMatch(s, fname, first) + Report(s, fname, rest)
  {
    hide IfMatch;
    assert ([first] + rest)[1..] == rest;
  }

  /** 1024 bytes without a newline are a piece. */
  lemma ScanAtCut(s: seq<byte>, fname: seq<byte>, text: seq<byte>)
    requires |text| >= BUFSIZE && forall j :: 0 <= j < BUFSIZE ==> text[j] != NEWLINE
    ensures Scan(s, fname, text) == IfMatch(s, fname, text[..BUFSIZE]) + Scan(s, fname, text[BUFSIZE..])
  {
    hide IfMatch;
    assert LineEnd(text) >= BUFSIZE;
    ReportCons(s, fname, text[..BUFSIZE], Pieces(text[BUFSIZE..]));
  }

  /** The last piece may have no newline. */
  lemma ScanAtEnd(s: seq<byte>, fname: seq<byte>, text: seq<byte>)
    requires |text| <= BUFSIZE && NEWLINE !in text
    ensures Scan(s, fname, text) == IfMatch(s, fname, text)
  {
    if text == [] {
      NoMatchInShort([], s);
    } else if |text| == BUFSIZE {
      ScanAtCut(s, fname, text);
      assert text[..BUFSIZE] == text && text[BUFSIZE..] == [];
    } else {
      hide IfMatch;
      assert LineEnd(text) == |text| && text[..|text|] == text;
      ReportCons(s, fname, text, []);
    }
  }

  // ---------------------------------------------------------------- ece391support.c

  /** ece391_strcpy within one buffer, forwards and overlapping: the string at `src` moves to the front. */
  method CopyDown(data: array<byte>, src: nat, ghost end: nat)
    requires src <= end < data.Length && data[end] == NUL
    requires forall j :: src <= j < end ==> data[j] != NUL
    modifies data
    ensures forall j :: 0 <= j <= end - src ==> data[j] == old(data[src + j])
    ensures forall j :: end - src < j < data.Length ==> data[j] == old(data[j])
  {
    var d := 0;
    while true
      invariant 0 <= d <= end - src
      invariant forall j :: 0 <= j < d ==> data[j] == old(data[src + j])
      invariant forall j :: d <= j < data.Length ==> data[j] == old(data[j])
      decreases end - src - d
    {
      data[d] := data[src + d];
      if data[d] == NUL {
        break;
      }
      d := d + 1;
    }
  }

  /** ece391_strncmp of the text at `check` with the pattern, over the pattern's length. */
  method Compare(data: array<byte>, check: nat, ghost end: nat, s: seq<byte>) returns (r: int)
    requires check <= end < data.Length && data[end] == NUL && NulFree(s)
    requires forall j :: check <= j < end ==> data[j] != NUL
    ensures r == 0 <==> HasPrefixAt(data[check..end], s, 0)
  {
    var pattern := s + [NUL];
    if |s| == 0 {
      return 0;
    }
    var i := 0;
    while data[check + i] == pattern[i]
      invariant 0 <= i < |s| && check + i <= end
      invariant forall j :: 0 <= j < i ==> data[check + j] == s[j]
      decreases |s| - i
    {
      assert pattern[i] == s[i] && s[i] in s;
      if data[check + i] == NUL || i + 1 == |s| {
        assert data[check..end][..|s|] == s;
        return 0;
      }
      i := i + 1;
    }
    ByteDiffers(data[check..end], s, i);
    var a: int, b: int := data[check + i], pattern[i];
    return a - b;
  }

  /** The bytes ece391_fdputs writes for the string at `from`. */
  method StringAt(data: array<byte>, from: nat, ghost end: nat) returns (r: seq<byte>)
    requires from <= end < data.Length && data[end] == NUL
    requires forall j :: from <= j < end ==> data[j] != NUL
    ensures r == data[from..end]
  {
    var len := 0;
    while data[from + len] != NUL
      invariant 0 <= len <= end - from
      decreases end - from - len
    {
      len := len + 1;
    }
    return data[from..from + len];
  }

  // ---------------------------------------------------------------- do_one_file

  /** The search loop over one terminated line of the buffer. */
  method SearchLine(data: array<byte>, lineStart: nat, lineEnd: nat, s: seq<byte>, fname: seq<byte>)
    returns (out: seq<byte>)
    requires lineStart <= lineEnd < data.Length && data[lineEnd] == NUL && NulFree(s)
    requires forall j :: lineStart <= j < lineEnd ==> data[j] != NUL
    ensures out == IfMatch(s, fname, data[lineStart..lineEnd])
  {
    ghost var line := data[lineStart..lineEnd];
    var first := if s == [] then NUL else s[0];
    var check := lineStart;
    out := [];
    while check < lineEnd
      invariant lineStart <= check <= lineEnd
      invariant s != [] ==> forall i :: 0 <= i < check - lineStart ==> !HasPrefixAt(line, s, i)
    {
      if first == data[check] {
        var differ := Compare(data, check, lineEnd, s);
        SamePrefix(data[..], lineStart, lineEnd, s, check);
        if differ == 0 {
          assert Contains(line, s);
          var text := StringAt(data, lineStart, lineEnd);
          out := fname + [COLON] + text + [NEWLINE];
          return;
        }
      } else if s != [] {
        FirstByteDiffers(line, s, check - lineStart);
      }
      check := check + 1;
    }
  }

  lemma ByteDiffers(line: seq<byte>, s: seq<byte>, i: nat)
    requires i < |s| && i <= |line| && (i < |line| ==> line[i] != s[i])
    ensures !HasPrefixAt(line, s, 0)
  {
    if |s| <= |line| {
      assert line[..|s|][i] == line[i];
    }
  }

  lemma FirstByteDiffers(line: seq<byte>, s: seq<byte>, i: nat)
    requires s != [] && i < |line| && line[i] != s[0]
    ensures !HasPrefixAt(line, s, i)
  {
    if i + |s| <= |line| {
      assert line[i..i + |s|][0] == line[i];
    }
  }

  lemma SamePrefix(data: seq<byte>, lineStart: nat, lineEnd: nat, s: seq<byte>, check: nat)
    requires lineStart <= check <= lineEnd <= |data|
    ensures HasPrefixAt(data[check..lineEnd], s, 0) <==> HasPrefixAt(data[lineStart..lineEnd], s, check - lineStart)
  {
    if |s| <= lineEnd - check {
      assert data[check..lineEnd][..|s|] == data[check..check + |s|] ==
             data[lineStart..lineEnd][check - lineStart..check - lineStart + |s|];
    }
  }

  /** A carried-over piece: an unfinished line that leaves room in the buffer. */
  predicate Carried(data: seq<byte>, last: nat) {
    && |data| == BUFSIZE + 1 && last < BUFSIZE
    && NulFree(data[..last]) && NEWLINE !in data[..last]
    && data[BUFSIZE] != NEWLINE
  }

  /** A piece of the buffer that is searched as a line is a piece of the remaining text. */
  lemma ScanPiece(s: seq<byte>, fname: seq<byte>, buf: seq<byte>, lineStart: nat, lineEnd: nat, last: nat,
    rest: seq<byte>)
    requires lineStart <= lineEnd <= last <= BUFSIZE < |buf|
    requires forall j :: lineStart <= j < lineEnd ==> buf[j] != NEWLINE
    requires if lineEnd < last then buf[lineEnd] == NEWLINE else rest == [] || (lineStart == 0 && last == BUFSIZE)
    ensures Scan(s, fname, buf[lineStart..last] + rest) ==
            IfMatch(s, fname, buf[lineStart..lineEnd]) +
              Scan(s, fname, (if lineEnd + 1 < last then buf[lineEnd + 1..last] else []) + rest)
  {
    var text := buf[lineStart..last] + rest;
    hide Scan, IfMatch;
    if lineEnd < last {
      PieceAtNewline(s, fname, buf, lineStart, lineEnd, last, rest);
    } else if rest == [] {
      assert text == buf[lineStart..lineEnd];
      ScanAtEnd(s, fname, text);
      ScanAtEnd(s, fname, []);
      NothingInNothing(s, fname);
      assert [] + rest == [];
    } else {
      assert text[..BUFSIZE] == buf[..BUFSIZE] && text[BUFSIZE..] == rest == [] + rest;
      ScanAtCut(s, fname, text);
    }
  }

  lemma PieceAtNewline(s: seq<byte>, fname: seq<byte>, buf: seq<byte>, lineStart: nat, lineEnd: nat, last: nat,
    rest: seq<byte>)
    requires lineStart <= lineEnd < last <= BUFSIZE < |buf| && buf[lineEnd] == NEWLINE
    requires forall j :: lineStart <= j < lineEnd ==> buf[j] != NEWLINE
    ensures Scan(s, fname, buf[lineStart..last] + rest) ==
            IfMatch(s, fname, buf[lineStart..lineEnd]) +
              Scan(s, fname, (if lineEnd + 1 < last then buf[lineEnd + 1..last] else []) + rest)
  {
    var line, after := buf[lineStart..lineEnd], (if lineEnd + 1 < last then buf[lineEnd + 1..last] else []) + rest;
    assert buf[lineStart..last] + rest == line + [NEWLINE] + after;
    NewlineAfter(s, fname, line, after);
  }

  lemma NewlineAfter(s: seq<byte>, fname: seq<byte>, line: seq<byte>, after: seq<byte>)
    requires |line| < BUFSIZE && NEWLINE !in line
    ensures Scan(s, fname, line + [NEWLINE] + after) == IfMatch(s, fname, line) + Scan(s, fname, after)
  {
    var text := line + [NEWLINE] + after;
    hide Scan, IfMatch;
    assert text[..|line|] == line && text[|line| + 1..] == after;
    ScanAtNewline(s, fname, text, |line|);
  }

  lemma NothingInNothing(s: seq<byte>, fname: seq<byte>)
    ensures IfMatch(s, fname, []) == []
  {
    NoMatchInShort([], s);
  }

  /** Moves the unfinished line to the front of the buffer. */
  method Carry(data: array<byte>, lineStart: nat, last: nat)
    requires data.Length == BUFSIZE + 1 && 0 < lineStart <= last <= BUFSIZE && data[BUFSIZE] != NEWLINE
    requires forall j :: lineStart <= j < last ==> data[j] != NEWLINE && data[j] != NUL
    modifies data
    ensures Carried(data[..], last - lineStart)
    ensures data[..last - lineStart] == old(data[lineStart..last])
  {
    data[last] := NUL;
    CopyDown(data, lineStart, last);
  }

  /** Terminates one line in the buffer and searches it. */
  method SearchPiece(data: array<byte>, lineStart: nat, lineEnd: nat, s: seq<byte>, fname: seq<byte>)
    returns (out: seq<byte>)
    requires lineStart <= lineEnd < data.Length && NulFree(s)
    requires forall j :: lineStart <= j < lineEnd ==> data[j] != NUL
    modifies data
    ensures data[..] == old(data[..])[lineEnd := NUL]
    ensures out == IfMatch(s, fname, old(data[lineStart..lineEnd]))
  {
    data[lineEnd] := NUL;
    assert data[lineStart..lineEnd] == old(data[lineStart..lineEnd]);
    out := SearchLine(data, lineStart, lineEnd, s, fname);
  }

  method FindLineEnd(data: array<byte>, lineStart: nat, last: nat) returns (lineEnd: nat)
    requires lineStart <= last < data.Length
    ensures lineStart <= lineEnd <= last && (lineEnd < last ==> data[lineEnd] == NEWLINE)
    ensures forall j :: lineStart <= j < lineEnd ==> data[j] != NEWLINE
  {
    lineEnd := lineStart;
    while lineEnd < last && data[lineEnd] != NEWLINE
      invariant lineStart <= lineEnd <= last
      invariant forall j :: lineStart <= j < lineEnd ==> data[j] != NEWLINE
    {
      lineEnd := lineEnd + 1;
    }
  }

  /** The inner loop: every finished line of the buffer is searched, the unfinished one is moved to the
      front.  `rest` is the part of the file that is still unread. */
  method ScanBuffer(data: array<byte>, full: nat, atEnd: bool, s: seq<byte>, fname: seq<byte>, ghost rest: seq<byte>)
    returns (out: seq<byte>, last: nat)
    requires data.Length == BUFSIZE + 1 && full <= BUFSIZE && NulFree(data[..full]) && NulFree(s)
    requires data[BUFSIZE] != NEWLINE && (atEnd || full < BUFSIZE ==> rest == [])
    modifies data
    ensures Carried(data[..], last) && (atEnd ==> last == 0)
    ensures out + Scan(s, fname, data[..last] + rest) == Scan(s, fname, old(data[..full]) + rest)
  {
    hide Scan, IfMatch, Carried;
    ghost var total := Scan(s, fname, data[..full] + rest);
    out, last := [], full;
    var lineStart := 0;
    assert data[0..full] == data[..full];
    while true
      invariant 0 <= lineStart <= last == full && data[BUFSIZE] != NEWLINE
      invariant forall j :: lineStart <= j < last ==> data[j] != NUL
      invariant out + Scan(s, fname, data[lineStart..last] + rest) == total
      decreases last - lineStart
    {
      var lineEnd := FindLineEnd(data, lineStart, last);
      if data[lineEnd] != NEWLINE && !atEnd && lineStart != 0 {
        Carry(data, lineStart, last);
        last := last - lineStart;
        break;
      }
      var found := SearchNext(data, lineStart, lineEnd, last, s, fname, rest);
      out := out + found;
      lineStart := lineEnd + 1;
      if lineStart >= last {
        last := 0;
        NothingCarried(data[..]);
        break;
      }
    }
  }

  /** What the buffer still holds from a position on. */
  function Unread(buf: seq<byte>, from: nat, last: nat): seq<byte>
    requires last <= |buf|
  {
    if from < last then buf[from..last] else []
  }

  /** One turn of the inner loop that searches a line: what it writes is the next piece of the scan. */
  method SearchNext(data: array<byte>, lineStart: nat, lineEnd: nat, last: nat, s: seq<byte>, fname: seq<byte>,
    ghost rest: seq<byte>)
    returns (out: seq<byte>)
    requires data.Length == BUFSIZE + 1 && lineStart <= lineEnd <= last <= BUFSIZE && NulFree(s) &&
             data[BUFSIZE] != NEWLINE
    requires forall j :: lineStart <= j < last ==> data[j] != NUL
    requires forall j :: lineStart <= j < lineEnd ==> data[j] != NEWLINE
    requires if lineEnd < last then data[lineEnd] == NEWLINE else rest == [] || (lineStart == 0 && last == BUFSIZE)
    modifies data
    ensures data[BUFSIZE] != NEWLINE && forall j :: lineEnd < j < last ==> data[j] != NUL
    ensures out + Scan(s, fname, Unread(data[..], lineEnd + 1, last) + rest) ==
            Scan(s, fname, old(data[lineStart..last]) + rest)
  {
    hide Scan, IfMatch;
    ghost var before := data[..];
    assert before[lineStart..last] == data[lineStart..last] && before[lineStart..lineEnd] == data[lineStart..lineEnd];
    ScanPiece(s, fname, before, lineStart, lineEnd, last, rest);
    out := SearchPiece(data, lineStart, lineEnd, s, fname);
    assert Unread(data[..], lineEnd + 1, last) == if lineEnd + 1 < last then before[lineEnd + 1..last] else [];
  }

  lemma NothingCarried(data: seq<byte>)
    requires |data| == BUFSIZE + 1 && data[BUFSIZE] != NEWLINE
    ensures Carried(data, 0)
  {
  }

  const OPEN_FAILED: seq<byte> := [102, 105, 108, 101, 32, 111, 112, 101, 110, 32, 102, 97, 105, 108, 101, 100, 10]

  /** The read call: a full chunk, or what is left of the file. */
  method ReadChunk(data: array<byte>, last: nat, text: seq<byte>, pos: nat) returns (cnt: nat)
    requires Carried(data[..], last) && pos <= |text| && NulFree(text)
    modifies data
    ensures cnt == if BUFSIZE - last < |text| - pos then BUFSIZE - last else |text| - pos
    ensures data[BUFSIZE] != NEWLINE && last + cnt <= BUFSIZE
    ensures NulFree(data[..last + cnt])
    ensures data[..last + cnt] + text[pos + cnt..] == old(data[..last]) + text[pos..]
  {
    cnt := 0;
    ghost var before := data[..last];
    assert data[BUFSIZE] == data[..][BUFSIZE] && data[..][..last] == before;
    assert text[pos..pos] == [] && before + [] == before;
    while last + cnt < BUFSIZE && pos + cnt < |text|
      invariant 0 <= cnt <= BUFSIZE - last && pos + cnt <= |text|
      invariant data[..last + cnt] == before + text[pos..pos + cnt]
      invariant data[BUFSIZE] == old(data[BUFSIZE])
    {
      ghost var soFar := data[..last + cnt];
      data[last + cnt] := text[pos + cnt];
      assert data[..last + cnt] == soFar;
      assert data[..last + cnt + 1] == soFar + [text[pos + cnt]];
      assert text[pos..pos + cnt + 1] == text[pos..pos + cnt] + [text[pos + cnt]];
      cnt := cnt + 1;
    }
    assert text[pos..] == text[pos..pos + cnt] + text[pos + cnt..];
    NulFreeParts(before, text, pos, cnt);
  }

  lemma NulFreeParts(first: seq<byte>, text: seq<byte>, pos: nat, cnt: nat)
    requires NulFree(first) && NulFree(text) && pos + cnt <= |text|
    ensures NulFree(first + text[pos..pos + cnt])
  {
  }

  lemma EmptyScan(s: seq<byte>, fname: seq<byte>)
    ensures Scan(s, fname, []) == []
  {
  }

  /** The outer loop: read a chunk behind the carried piece, search the buffer, until a read returns 0. */
  method ScanFile(s: seq<byte>, fname: seq<byte>, text: seq<byte>, data: array<byte>) returns (out: seq<byte>)
    requires data.Length == BUFSIZE + 1 && data[BUFSIZE] != NEWLINE
    requires NulFree(s) && NulFree(text)
    modifies data
    ensures out == Scan(s, fname, text)
  {
    hide Scan, Carried;
    out := [];
    var pos: nat, last: nat := 0, 0;
    NothingCarried(data[..]);
    assert data[..0] + text[0..] == text;
    while true
      invariant 0 <= pos <= |text| && last <= BUFSIZE && Carried(data[..], last)
      invariant out + Scan(s, fname, data[..last] + text[pos..]) == Scan(s, fname, text)
      decreases |text| - pos
    {
      CarriedFits(data[..], last);
      var cnt := ReadChunk(data, last, text, pos);
      pos := pos + cnt;
      RestOf(text, pos);
      var found, rest := ScanBuffer(data, last + cnt, cnt == 0, s, fname, text[pos..]);
      CarriedFits(data[..], rest);
      out := out + found;
      last := rest;
      if cnt == 0 {
        break;
      }
    }
    assert data[..last] + text[pos..] == [];
    EmptyScan(s, fname);
  }

  lemma CarriedFits(data: seq<byte>, last: nat)
    requires Carried(data, last)
    ensures last < BUFSIZE
  {
  }

  lemma RestOf(text: seq<byte>, pos: nat)
    requires pos <= |text|
    ensures pos == |text| ==> text[pos..] == []
  {
  }

  /** do_one_file, with everything it writes as its output.  `file` is what the reader returns, in full
      chunks until its end, or nothing when the name does not open; `data` is the buffer on the stack.
      Total correctness: it terminates, and reports the scan of the whole file. */
  method DoOneFile(s: seq<byte>, fname: seq<byte>, file: Option<seq<byte>>, data: array<byte>)
    returns (out: seq<byte>, status: int)
    requires data.Length == BUFSIZE + 1 && data[BUFSIZE] != NEWLINE
    requires NulFree(s) && (file.Some? ==> NulFree(file.value))
    modifies data
    ensures file.None? ==> status == -1 && out == OPEN_FAILED
    ensures file.Some? ==> status == 0 && out == Scan(s, fname, file.value)
    ensures file.Some? ==>
              (out == Report(s, fname, Lines(file.value)) <==> LongLinesSpare(s, Lines(file.value)))
    ensures file.Some? && NEWLINE !in fname ==>
              && Complete(out)
              && (Lines(out) == Tagged(fname, Matching(s, Lines(file.value))) <==> LongLinesSpare(s, Lines(file.value)))
  {
    if file.None? {
      return OPEN_FAILED, -1;
    }
    hide Scan, LongLinesSpare, Lines, Report, Matching, Tagged, Complete;
    ScanIsGrepIff(s, fname, file.value);
    if NEWLINE !in fname {
      OutputLinesIff(s, fname, file.value);
    }
    out := ScanFile(s, fname, file.value, data);
    return out, 0;
  }
}
