/** ece391emulate.c: a command line cut into words in place, and the words joined again for getargs. */
module Emulate {
  import opened Bytes

  const DOT: byte := 46
  const SLASH: byte := 47

  const MAX_COMMAND := 1023
  const BUFFER := 1026
  const ARGS := 1024
  const NULL := -1

  // ---------------------------------------------------------------- words

  predicate Plain(b: byte) {
    b != NUL && b != SPACE && b != NEWLINE
  }

  predicate IsWord(w: seq<byte>) {
    w != [] && forall i :: 0 <= i < |w| ==> Plain(w[i])
  }

  /** Where the scan of a word stops. */
  function WordEnd(text: seq<byte>): (k: nat)
    ensures k <= |text| && (k < |text| ==> !Plain(text[k]))
    ensures forall i :: 0 <= i < k ==> Plain(text[i])
  {
    if text == [] || !Plain(text[0]) then 0 else 1 + WordEnd(text[1..])
  }

  /** The parse loop: spaces are skipped, a newline or the end stops it, and the byte after a word is dropped. */
  function ArgWords(text: seq<byte>): seq<seq<byte>>
    decreases |text|
  {
    if text == [] || text[0] == NEWLINE then []
    else if text[0] == SPACE then ArgWords(text[1..])
    else
      var k := WordEnd(text);
      [text[..k]] + if k < |text| then ArgWords(text[k + 1..]) else []
  }

  function Tokens(command: seq<byte>): (r: seq<seq<byte>>)
    ensures |r| > 0
  {
    var k := WordEnd(command);
    [[DOT, SLASH] + command[..k]] + if k < |command| then ArgWords(command[k + 1..]) else []
  }

  // ---------------------------------------------------------------- what words are

  /** A text cut at every space. */
  function Split(text: seq<byte>): (r: seq<seq<byte>>)
    ensures |r| > 0
  {
    if text == [] then [[]]
    else
      var rest := Split(text[1..]);
      if text[0] == SPACE then [[]] + rest else [[text[0]] + rest[0]] + rest[1..]
  }

  function NonEmpty(pieces: seq<seq<byte>>): seq<seq<byte>> {
    if pieces == [] then [] else (if pieces[0] == [] then [] else [pieces[0]]) + NonEmpty(pieces[1..])
  }

  /** The maximal runs of bytes that are not spaces. */
  function Words(text: seq<byte>): seq<seq<byte>> {
    NonEmpty(Split(text))
  }

  lemma {:induction false} SplitAt(text: seq<byte>, k: nat)
    requires k <= |text| && (k < |text| ==> text[k] == SPACE)
    requires forall i :: 0 <= i < k ==> text[i] != SPACE
    ensures Split(text) == [text[..k]] + if k < |text| then Split(text[k + 1..]) else []
    decreases k
  {
    if k > 0 {
      SplitPlain(text);
      SplitAt(text[1..], k - 1);
      SplitMore(text, k);
    } else if text == [] {
      assert Split(text) == [[]] + [];
    }
  }

  lemma SplitMore(text: seq<byte>, k: nat)
    requires 0 < k <= |text|
    ensures [text[0]] + text[1..][..k - 1] == text[..k]
    ensures k < |text| ==> text[1..][k..] == text[k + 1..]
  {
  }

  lemma SplitPlain(text: seq<byte>)
    requires text != [] && text[0] != SPACE
    ensures Split(text) == [[text[0]] + Split(text[1..])[0]] + Split(text[1..])[1..]
  {
  }

  lemma NonEmptyCons(first: seq<byte>, rest: seq<seq<byte>>)
    ensures NonEmpty([first] + rest) == (if first == [] then [] else [first]) + NonEmpty(rest)
  {
    assert ([first] + rest)[1..] == rest;
  }

  predicate LineFree(text: seq<byte>) {
    NEWLINE !in text && NUL !in text
  }

  /** The parse loop finds exactly the words of a text without newlines. */
  lemma {:induction false} ArgWordsAreWords(text: seq<byte>)
    requires LineFree(text)
    ensures ArgWords(text) == Words(text)
    decreases |text|
  {
    if text == [] {
      NonEmptyCons([], []);
    } else if text[0] == SPACE {
      ArgWordsAreWords(text[1..]);
      NonEmptyCons([], Split(text[1..]));
    } else {
      var k := WordEnd(text);
      SplitAt(text, k);
      if k < |text| {
        ArgWordsAreWords(text[k + 1..]);
        NonEmptyCons(text[..k], Split(text[k + 1..]));
      } else {
        NonEmptyCons(text[..k], []);
      }
    }
  }

  /** A command without newlines that starts with a word becomes its words, the first behind "./". */
  lemma TokensAreWords(command: seq<byte>)
    requires LineFree(command) && command != [] && command[0] != SPACE
    ensures Words(command) != []
    ensures Tokens(command) == [[DOT, SLASH] + Words(command)[0]] + Words(command)[1..]
  {
    ArgWordsAreWords(command);
  }

  predicate SpacesTo(text: seq<byte>, k: nat)
    requires k <= |text|
  {
    forall i :: 0 <= i < k ==> text[i] == SPACE
  }

  /** The first byte that is not a space is a newline, or there is none. */
  predicate Blank(text: seq<byte>) {
    exists k: nat :: k <= |text| && SpacesTo(text, k) && (k == |text| || text[k] == NEWLINE)
  }

  lemma {:induction false} NoWordsIff(text: seq<byte>)
    ensures ArgWords(text) == [] <==> Blank(text)
    decreases |text|
  {
    if text == [] || text[0] == NEWLINE {
      assert SpacesTo(text, 0);
    } else if text[0] == SPACE {
      NoWordsIff(text[1..]);
      if Blank(text[1..]) {
        var k: nat :| k < |text| && SpacesTo(text[1..], k) && (k == |text[1..]| || text[1..][k] == NEWLINE);
        assert SpacesTo(text, k + 1);
      }
      if Blank(text) {
        var k: nat :| k <= |text| && SpacesTo(text, k) && (k == |text| || text[k] == NEWLINE);
        assert SpacesTo(text[1..], k - 1);
      }
    }
  }

  /** A newline in a command only separates when it stands right behind a word, the program's name included (which may
      be empty); anywhere else it ends the command line.  So the rest of the line is dropped, as the shell has it, iff
      a space stands before the newline or the rest holds no words anyway. */
  lemma NewlineStopsIff(text: seq<byte>, rest: seq<byte>)
    requires LineFree(text)
    ensures Tokens(text + [NEWLINE] + rest) == Tokens(text) <==>
            (text != [] && text[|text| - 1] == SPACE) || Blank(rest)
  {
    var k, all := WordEnd(text), text + [NEWLINE] + rest;
    WordEndIs(all, k);
    NoWordsIff(rest);
    hide ArgWords, WordEnd, Blank;
    assert all[..k] == text[..k];
    if k < |text| {
      var tail := text[k + 1..];
      assert all[k + 1..] == tail + [NEWLINE] + rest;
      NewlineAfter(tail, rest);
    } else {
      assert all[k + 1..] == rest;
    }
  }

  predicate EndsInWord(text: seq<byte>) {
    text != [] && text[|text| - 1] != SPACE
  }

  lemma {:induction false} NewlineAfter(text: seq<byte>, rest: seq<byte>)
    requires LineFree(text)
    ensures ArgWords(text + [NEWLINE] + rest) == ArgWords(text) + if EndsInWord(text) then ArgWords(rest) else []
    decreases |text|
  {
    hide ArgWords, WordEnd;
    NoMoreWords(rest);
    if text == [] {
      assert text + [NEWLINE] + rest == [NEWLINE] + rest;
    } else if text[0] == SPACE {
      var tail := text[1..];
      NewlineAfter(tail, rest);
      SpaceThen(tail);
      SpaceThen(tail + [NEWLINE] + rest);
      assert text == [SPACE] + tail;
      Regroup([], SPACE, tail, rest);
    } else {
      var w := text[..WordEnd(text)];
      if w == text {
        WordThen(w, NEWLINE, rest);
        LastWord(w);
      } else {
        var after := text[|w| + 1..];
        NewlineAfter(after, rest);
        WordThen(w, SPACE, after);
        WordThen(w, SPACE, after + [NEWLINE] + rest);
        assert text == w + [SPACE] + after;
        Regroup(w, SPACE, after, rest);
      }
    }
  }

  lemma Regroup(w: seq<byte>, b: byte, after: seq<byte>, rest: seq<byte>)
    ensures w + [b] + after + [NEWLINE] + rest == w + [b] + (after + [NEWLINE] + rest)
    ensures [] + [b] + after == [b] + after && [] + [b] + (after + [NEWLINE] + rest) == [b] + (after + [NEWLINE] + rest)
  {
  }

  lemma NoMoreWords(rest: seq<byte>)
    ensures ArgWords([NEWLINE] + rest) == [] == ArgWords([])
  {
  }

  lemma SpaceThen(rest: seq<byte>)
    ensures ArgWords([SPACE] + rest) == ArgWords(rest)
  {
    assert ([SPACE] + rest)[1..] == rest;
  }

  lemma LastWord(w: seq<byte>)
    requires IsWord(w)
    ensures ArgWords(w) == [w]
  {
    WordEndIsAll(w);
    assert w[..|w|] == w;
  }

  lemma WordThen(w: seq<byte>, b: byte, rest: seq<byte>)
    requires IsWord(w) && !Plain(b)
    ensures ArgWords(w + [b] + rest) == [w] + ArgWords(rest)
  {
    var text := w + [b] + rest;
    WordEndIs(text, |w|);
    hide WordEnd;
    assert text[..|w|] == w && text[|w| + 1..] == rest;
  }

  lemma {:induction false} WordEndIs(text: seq<byte>, k: nat)
    requires k < |text| && !Plain(text[k]) && forall i :: 0 <= i < k ==> Plain(text[i])
    ensures WordEnd(text) == k
  {
    if k > 0 {
      WordEndIs(text[1..], k - 1);
    }
  }

  lemma {:induction false} WordEndIsAll(w: seq<byte>)
    requires forall i :: 0 <= i < |w| ==> Plain(w[i])
    ensures WordEnd(w) == |w|
  {
    if w != [] {
      WordEndIsAll(w[1..]);
    }
  }

  // ---------------------------------------------------------------- joining

  /** Words with a space between each two. */
  function Join(words: seq<seq<byte>>): seq<byte> {
    if words == [] then []
    else if |words| == 1 then words[0]
    else words[0] + [SPACE] + Join(words[1..])
  }

  function TotalLength(words: seq<seq<byte>>): nat {
    if words == [] then 0 else |words[0]| + TotalLength(words[1..])
  }

  /** A join is as long as its words and one space between each two. */
  lemma {:induction false} JoinLength(words: seq<seq<byte>>)
    ensures |Join(words)| == TotalLength(words) + if words == [] then 0 else |words| - 1
    decreases |words|
  {
    if words != [] {
      JoinLength(words[1..]);
    }
  }

  predicate AllWords(words: seq<seq<byte>>) {
    forall i :: 0 <= i < |words| ==> IsWord(words[i])
  }

  lemma {:induction false} ArgWordsAreProper(text: seq<byte>)
    requires NUL !in text
    ensures AllWords(ArgWords(text))
    decreases |text|
  {
    if text != [] && text[0] == SPACE {
      ArgWordsAreProper(text[1..]);
    } else if text != [] && text[0] != NEWLINE {
      var k := WordEnd(text);
      WordFirst(text);
      hide ArgWords, WordEnd;
      if k < |text| {
        ArgWordsAreProper(text[k + 1..]);
      }
    }
  }

  /** Cutting a join gives the words back. */
  lemma {:induction false} JoinReadsBack(words: seq<seq<byte>>)
    requires AllWords(words)
    ensures ArgWords(Join(words)) == words
    decreases |words|
  {
    if |words| == 1 {
      LastWord(words[0]);
    } else if words != [] {
      JoinReadsBack(words[1..]);
      WordThen(words[0], SPACE, Join(words[1..]));
    }
  }

  /** What getargs hands over parses into the same arguments, for every command. */
  lemma ArgumentsSurviveJoin(command: seq<byte>)
    requires NUL !in command
    ensures ArgWords(Join(Tokens(command)[1..])) == Tokens(command)[1..]
  {
    var k := WordEnd(command);
    if k < |command| {
      ArgWordsAreProper(command[k + 1..]);
      assert Tokens(command)[1..] == ArgWords(command[k + 1..]);
    } else {
      assert Tokens(command)[1..] == [];
    }
    JoinReadsBack(Tokens(command)[1..]);
  }

  // ---------------------------------------------------------------- the code

  /** The pointers stored so far name the words found so far, all of them before `limit`. */
  ghost predicate Held(data: seq<byte>, args: seq<int>, words: seq<seq<byte>>, limit: nat) {
    && |words| <= |args|
    && forall k :: 0 <= k < |words| ==>
         0 <= args[k] && args[k] + |words[k]| <= limit && StringAt(data, args[k], words[k])
  }

  lemma HeldAfterNul(data: seq<byte>, args: seq<int>, words: seq<seq<byte>>, limit: nat, p: nat)
    requires Held(data, args, words, limit) && limit <= p < |data|
    ensures Held(data[p := NUL], args, words, limit)
  {
    forall k | 0 <= k < |words| ensures StringAt(data[p := NUL], args[k], words[k]) {
      assert data[p := NUL][args[k]..args[k] + |words[k]|] == data[args[k]..args[k] + |words[k]|];
    }
  }

  lemma HeldMore(data: seq<byte>, args: seq<int>, words: seq<seq<byte>>, limit: nat, scan: nat, word: seq<byte>)
    requires Held(data, args, words, limit) && |words| < |args| && limit <= scan && StringAt(data, scan, word)
    ensures Held(data, args[|words| := scan], words + [word], scan + |word|)
  {
  }

  /** Ending a word in place leaves the word behind and the rest of the text ahead. */
  lemma CutWord(data: seq<byte>, scan: nat, text: seq<byte>, k: nat)
    requires StringAt(data, scan, text) && k < |text|
    ensures StringAt(data[scan + k := NUL], scan, text[..k])
    ensures StringAt(data[scan + k := NUL], scan + k + 1, text[k + 1..])
  {
    var after := data[scan + k := NUL];
    assert after[scan..scan + k] == data[scan..scan + |text|][..k];
    assert after[scan + k + 1..scan + |text|] == data[scan..scan + |text|][k + 1..];
  }

  method SkipSpaces(buf: array<byte>, scan: nat, ghost text: seq<byte>) returns (next: nat, ghost rest: seq<byte>)
    requires StringAt(buf[..], scan, text)
    ensures next + |rest| == scan + |text| && StringAt(buf[..], next, rest) && scan <= next
    ensures ArgWords(rest) == ArgWords(text) && (rest == [] || rest[0] != SPACE)
  {
    hide ArgWords;
    next, rest := scan, text;
    ByteOfString(buf[..], next, rest, 0);
    while buf[next] == SPACE
      invariant scan <= next && next + |rest| == scan + |text| && StringAt(buf[..], next, rest)
      invariant buf[next] == (if rest == [] then NUL else rest[0])
      invariant ArgWords(rest) == ArgWords(text)
      decreases |rest|
    {
      SpaceThen(rest[1..]);
      assert rest == [SPACE] + rest[1..];
      assert buf[..][next..next + |rest|][1..] == buf[..][next + 1..next + |rest|];
      next, rest := next + 1, rest[1..];
      ByteOfString(buf[..], next, rest, 0);
    }
  }

  method FindWordEnd(buf: array<byte>, scan: nat, ghost text: seq<byte>) returns (next: nat)
    requires StringAt(buf[..], scan, text)
    ensures next == scan + WordEnd(text) && buf[next] == if WordEnd(text) < |text| then text[WordEnd(text)] else NUL
  {
    hide StringAt, WordEnd;
    next := scan;
    ScanByte(buf[..], scan, text, 0);
    while buf[next] != NUL && buf[next] != SPACE && buf[next] != NEWLINE
      invariant scan <= next <= scan + WordEnd(text) && scan + |text| < buf.Length
      invariant buf[next] == if next - scan < |text| then text[next - scan] else NUL
      invariant next - scan < WordEnd(text) <==> buf[next] != NUL && buf[next] != SPACE && buf[next] != NEWLINE
      decreases scan + |text| - next
    {
      next := next + 1;
      ScanByte(buf[..], scan, text, next - scan);
    }
  }

  /** The byte under the scan tells whether the word goes on. */
  lemma ScanByte(data: seq<byte>, at: nat, text: seq<byte>, i: nat)
    requires StringAt(data, at, text) && i <= WordEnd(text)
    ensures at + |text| < |data| && data[at + i] == if i < |text| then text[i] else NUL
    ensures i < WordEnd(text) <==> Plain(data[at + i])
  {
    ByteOfString(data, at, text, i);
  }

  lemma NothingLeft(rest: seq<byte>)
    requires rest == [] || rest[0] == NEWLINE
    ensures ArgWords(rest) == []
  {
  }

  lemma WordFirst(rest: seq<byte>)
    requires rest != [] && Plain(rest[0])
    ensures var k := WordEnd(rest);
            k > 0 && ArgWords(rest) == [rest[..k]] + if k < |rest| then ArgWords(rest[k + 1..]) else []
  {
  }

  /** Stores a word's pointer, finds its end and ends it there. */
  method TakeWord(buf: array<byte>, args: array<int>, n: nat, at: nat,
                  ghost rest: seq<byte>, ghost found: seq<seq<byte>>, ghost limit: nat)
    returns (next: nat, ghost left: seq<byte>)
    requires StringAt(buf[..], at, rest) && n == |found| < args.Length && limit <= at
    requires Held(buf[..], args[..], found, limit)
    modifies buf, args
    ensures var k := WordEnd(rest);
            && left == (if k < |rest| then rest[k + 1..] else [])
            && next == at + k + (if k < |rest| then 1 else 0)
            && StringAt(buf[..], next, left)
            && Held(buf[..], args[..], found + [rest[..k]], at + k)
  {
    hide Held, StringAt, WordEnd;
    ghost var pointers := args[..];
    args[n] := at;
    assert args[..] == pointers[n := at];
    var p := FindWordEnd(buf, at, rest);
    ghost var k := WordEnd(rest);
    ByteOfString(buf[..], at, rest, k);
    if buf[p] != NUL {
      ghost var data := buf[..];
      CutWord(data, at, rest, k);
      HeldAfterNul(data, pointers, found, limit, p);
      buf[p] := NUL;
      assert buf[..] == data[p := NUL];
      HeldMore(buf[..], pointers, found, limit, at, rest[..k]);
      next, left := p + 1, rest[k + 1..];
    } else {
      assert rest[..k] == rest;
      HeldMore(buf[..], pointers, found, limit, at, rest);
      EmptyAt(buf[..], p);
      next, left := p, [];
    }
  }

  lemma EmptyAt(data: seq<byte>, p: nat)
    requires p < |data| && data[p] == NUL
    ensures StringAt(data, p, [])
  {
  }

  /** The argument loop of ece391_execute, from just behind the first word.  The pointer array never overflows. */
  method ParseArgs(buf: array<byte>, args: array<int>, start: nat, ghost text: seq<byte>, ghost first: seq<byte>)
    returns (n: nat)
    requires StringAt(buf[..], start, text) && buf.Length == BUFFER && args.Length == ARGS && 3 <= start
    requires Held(buf[..], args[..], [first], start - 1)
    modifies buf, args
    ensures n == 1 + |ArgWords(text)| < ARGS
    ensures Held(buf[..], args[..], [first] + ArgWords(text), BUFFER)
  {
    hide Held, StringAt, ArgWords, WordEnd;
    n := 1;
    ghost var found, left, limit: nat := [first], text, start - 1;
    var scan: nat := start;
    ByteOfString(buf[..], start, text, 0);
    while true
      invariant StringAt(buf[..], scan, left) && scan + |left| < BUFFER && limit <= scan
      invariant Held(buf[..], args[..], found, limit) && n == |found| < ARGS
      invariant found + ArgWords(left) == [first] + ArgWords(text)
      invariant 2 * n <= scan + if left == [] then 1 else 0
      decreases |left|
    {
      var at, rest := SkipSpaces(buf, scan, left);
      ByteOfString(buf[..], at, rest, 0);
      if buf[at] == NUL || buf[at] == NEWLINE {
        NothingLeft(rest);
        HeldAfterNul(buf[..], args[..], found, limit, at);
        ghost var data := buf[..];
        buf[at] := NUL;
        assert buf[..] == data[at := NUL];
        HeldLater(buf[..], args[..], found, limit, BUFFER);
        assert found + [] == found;
        break;
      }
      WordFirst(rest);
      ghost var k := WordEnd(rest);
      ghost var words := found;
      scan, left := TakeWord(buf, args, n, at, rest, found, limit);
      n := n + 1;
      found, limit := found + [rest[..k]], at + k;
      NothingLeft([]);
      assert found + ArgWords(left) == words + ArgWords(rest);
    }
  }

  lemma HeldLater(data: seq<byte>, args: seq<int>, words: seq<seq<byte>>, limit: nat, later: nat)
    requires Held(data, args, words, limit) && limit <= later
    ensures Held(data, args, words, later)
  {
  }

  /** The head of ece391_execute: "./" and the command go to the buffer, the first word is the program. */
  method ParseCommand(command: seq<byte>, buf: array<byte>, args: array<int>) returns (n: int)
    requires NUL !in command && buf.Length == BUFFER && args.Length == ARGS
    modifies buf, args
    ensures n == -1 <==> |command| > MAX_COMMAND
    ensures n != -1 ==> n == |Tokens(command)| < ARGS && args[n] == NULL
    ensures n != -1 ==> Held(buf[..], args[..], Tokens(command), BUFFER)
  {
    if |command| > MAX_COMMAND {
      return -1;
    }
    hide Held, StringAt, ArgWords, WordEnd;
    CopyCommand(command, buf);
    var start := CutProgram(command, buf, args);
    ghost var k := WordEnd(command);
    var count := 1;
    if start != 0 {
      count := ParseArgs(buf, args, start, command[k + 1..], [DOT, SLASH] + command[..k]);
    }
    ghost var pointers := args[..];
    args[count] := NULL;
    assert args[..] == pointers[count := NULL];
    HeldTerminated(buf[..], pointers, Tokens(command), BUFFER);
    return count;
  }

  /** Finds the end of the program's name and, when more follows, ends it there; 0 when nothing follows. */
  method CutProgram(command: seq<byte>, buf: array<byte>, args: array<int>) returns (start: nat)
    requires StringAt(buf[..], 0, [DOT, SLASH] + command) && StringAt(buf[..], 2, command)
    requires buf.Length == BUFFER && args.Length == ARGS
    modifies buf, args
    ensures var k := WordEnd(command); var first := [DOT, SLASH] + command[..k];
            if k < |command| then
              && start == 3 + k && StringAt(buf[..], start, command[k + 1..])
              && Held(buf[..], args[..], [first], start - 1)
            else start == 0 && Held(buf[..], args[..], [first], BUFFER)
  {
    hide Held, StringAt, WordEnd;
    ghost var full := [DOT, SLASH] + command;
    var scan := FindWordEnd(buf, 2, command);
    ghost var k := WordEnd(command);
    args[0] := 0;
    WholeAndFirst(buf[..], command, k);
    if buf[scan] != NUL {
      ghost var data := buf[..];
      CutWord(data, 0, full, 2 + k);
      buf[scan] := NUL;
      assert buf[..] == data[scan := NUL];
      FirstHeld(buf[..], args[..], full[..2 + k]);
      start := scan + 1;
    } else {
      FirstHeld(buf[..], args[..], full);
      HeldLater(buf[..], args[..], [full], 2 + |command|, BUFFER);
      start := 0;
    }
  }

  /** The two stores and the strcpy. */
  method CopyCommand(command: seq<byte>, buf: array<byte>)
    requires NUL !in command && buf.Length == BUFFER && |command| <= MAX_COMMAND
    modifies buf
    ensures StringAt(buf[..], 0, [DOT, SLASH] + command) && StringAt(buf[..], 2, command)
  {
    buf[0], buf[1] := DOT, SLASH;
    var i := 0;
    while i < |command|
      invariant 0 <= i <= |command| && buf[0] == DOT && buf[1] == SLASH
      invariant buf[2..2 + i] == command[..i]
    {
      ghost var soFar := buf[2..2 + i];
      buf[2 + i] := command[i];
      assert buf[2..2 + (i + 1)] == soFar + [command[i]];
      i := i + 1;
    }
    ghost var all := buf[2..2 + i];
    buf[2 + i] := NUL;
    assert buf[2..2 + i] == all;
    assert buf[..][0..2 + i] == [DOT, SLASH] + command;
  }

  lemma WholeAndFirst(data: seq<byte>, command: seq<byte>, k: nat)
    requires StringAt(data, 2, command) && k <= |command|
    ensures var full := [DOT, SLASH] + command;
            && full[..2 + k] == [DOT, SLASH] + command[..k]
            && (k < |command| ==> full[2 + k + 1..] == command[k + 1..] && data[2 + k] != NUL)
            && (k == |command| ==> full[..2 + k] == full && data[2 + k] == NUL)
            && 2 + |command| < |data|
  {
    ByteOfString(data, 2, command, k);
  }

  lemma FirstHeld(data: seq<byte>, args: seq<int>, first: seq<byte>)
    requires args != [] && args[0] == 0 && StringAt(data, 0, first)
    ensures Held(data, args, [first], |first|)
  {
  }

  lemma HeldTerminated(data: seq<byte>, args: seq<int>, words: seq<seq<byte>>, limit: nat)
    requires Held(data, args, words, limit) && |words| < |args|
    ensures Held(data, args[|words| := NULL], words, limit)
  {
  }

  // ---------------------------------------------------------------- ece391_getargs

  lemma {:induction false} JoinMore(words: seq<seq<byte>>, w: seq<byte>)
    requires words != []
    ensures Join(words + [w]) == Join(words) + [SPACE] + w
    decreases |words|
  {
    if |words| == 1 {
      assert (words + [w])[1..] == [w];
    } else {
      assert (words + [w])[1..] == words[1..] + [w];
      JoinMore(words[1..], w);
      assert words[0] + [SPACE] + (Join(words[1..]) + [SPACE] + w) ==
             words[0] + [SPACE] + Join(words[1..]) + [SPACE] + w;
    }
  }

  lemma {:induction false} JoinGrows(words: seq<seq<byte>>, k: nat)
    requires k < |words|
    ensures |Join(words[..k])| + (if k == 0 then 0 else 1) + |words[k]| <= |Join(words)|
    decreases |words|
  {
    var last := |words| - 1;
    var front := words[..last];
    assert words == front + [words[last]];
    if last > 0 {
      JoinMore(front, words[last]);
      if k < last {
        JoinGrows(front, k);
        assert front[..k] == words[..k];
      }
    } else {
      assert words == [words[0]] && words[..0] == [];
    }
  }

  /** The text written before word `k` is copied: the words so far, and a space when there are any. */
  function Before(words: seq<seq<byte>>, k: nat): seq<byte>
    requires k <= |words|
  {
    if k == 0 then [] else Join(words[..k]) + [SPACE]
  }

  lemma BeforeStep(words: seq<seq<byte>>, k: nat)
    requires k < |words|
    ensures Before(words, k) + words[k] == Join(words[..k + 1])
    ensures |Join(words)| >= |Before(words, k)| + |words[k]|
    ensures k + 1 == |words| ==> words[..k + 1] == words
  {
    hide Join;
    JoinGrows(words, k);
    JoinNone();
    assert words[..k + 1] == words[..k] + [words[k]];
    if k > 0 {
      JoinMore(words[..k], words[k]);
    } else {
      JoinOne(words[0]);
      assert words[..0] == [] && words[..1] == [words[0]];
    }
  }

  lemma JoinNone()
    ensures Join([]) == []
  {
  }

  lemma JoinOne(w: seq<byte>)
    ensures Join([w]) == w
  {
  }

  /** How much of the buffer a call may write: the NUL of a copied word may land one past `nbytes`, but only
      when the call fails. */
  function Touched(nbytes: int, r: int): nat {
    if nbytes < 0 then 0 else if r == 0 then nbytes else nbytes + 1
  }

  /** Some of the arguments, joined, fill the buffer exactly. */
  predicate EdgeHit(words: seq<seq<byte>>, nbytes: int) {
    exists k :: 1 <= k <= |words| && |Join(words[..k])| == nbytes
  }

  /** No join is nbytes long when the first k words stay below and one more word would go beyond. */
  lemma EdgeBetween(words: seq<seq<byte>>, k: nat, nbytes: int)
    requires k <= |words| && (k > 0 ==> |Join(words[..k])| < nbytes)
    requires k < |words| ==> |Before(words, k)| + |words[k]| > nbytes
    ensures !EdgeHit(words, nbytes)
  {
    hide Join, Before;
    forall j | 1 <= j <= |words| ensures |Join(words[..j])| != nbytes {
      if j <= k {
        JoinLonger(words, j, k);
      } else {
        BeforeStep(words, k);
        JoinLonger(words, k + 1, j);
      }
    }
  }

  /** A failing call that writes past its limit: the one argument "ab" and two bytes. */
  lemma EdgeIsHit()
    ensures EdgeHit([[97, 98]], 2) && |Join([[97, 98]])| + 1 > 2
  {
    var words: seq<seq<byte>> := [[97, 98]];
    assert words[..1] == words && |Join(words[..1])| == 2;
  }

  lemma EdgeAt(words: seq<seq<byte>>, k: nat, nbytes: int)
    requires 1 <= k <= |words| && |Join(words[..k])| == nbytes
    ensures EdgeHit(words, nbytes)
  {
  }

  lemma JoinLonger(words: seq<seq<byte>>, j: nat, k: nat)
    requires 1 <= j <= k <= |words|
    ensures |Join(words[..j])| <= |Join(words[..k])|
  {
    hide Join;
    if j < k {
      JoinGrows(words[..k], j);
      assert words[..k][..j] == words[..j];
    }
  }

  /** The loop of ece391_getargs: the arguments are copied with single spaces between them until one does not fit. */
  method JoinArgs(argv: seq<seq<byte>>, buf: array<byte>, nbytes: int) returns (pos: nat, fits: bool)
    requires argv != [] && nbytes < buf.Length
    modifies buf
    ensures var words := argv[1..];
            if fits then
              && pos <= buf.Length && buf[..pos] == Join(words)
              && (if words == [] then SameOutside(old(buf[..]), buf[..], 0, 0)
                  else pos <= nbytes && buf[pos] == NUL && SameOutside(old(buf[..]), buf[..], 0, pos + 1))
            else
              && |Join(words)| >= nbytes && SameOutside(old(buf[..]), buf[..], 0, Touched(nbytes, -1))
              && (0 <= nbytes ==> buf[nbytes] == if EdgeHit(words, nbytes) then NUL else old(buf[nbytes]))
  {
    hide Join, Before, EdgeHit, SameOutside;
    ghost var words, start := argv[1..], buf[..];
    var left := nbytes;
    var idx: nat := 1;
    pos := 0;
    NothingBefore(words);
    Untouched(buf[..], 0);
    while idx < |argv|
      invariant 1 <= idx <= |argv| && (idx == |argv| ==> idx == 1)
      invariant pos + left == nbytes && (pos > 0 ==> left >= 0)
      invariant idx > 1 ==> pos > 0 && |Join(words[..idx - 1])| == pos - 1
      invariant pos <= buf.Length && buf[..pos] == Before(words, idx - 1)
      invariant SameOutside(start, buf[..], 0, pos)
      decreases |argv| - idx
    {
      var len := |argv[idx]|;
      BeforeStep(words, idx - 1);
      if len > left {
        EdgeBetween(words, idx - 1, nbytes);
        OutsideWider(start, buf[..], pos, Touched(nbytes, -1), nbytes);
        return pos, false;
      }
      CopyAt(buf, pos, argv[idx], start);
      pos, left, idx := pos + len, left - len, idx + 1;
      assert buf[..pos] == Join(words[..idx - 1]);
      if idx >= |argv| {
        return pos, true;
      }
      BeforeStep(words, idx - 1);
      ThenSpace(words, idx - 1);
      if left < 1 {
        EdgeAt(words, idx - 1, nbytes);
        return pos, false;
      }
      PutSpace(buf, pos, start);
      pos, left := pos + 1, left - 1;
    }
    return 0, true;
  }

  lemma Untouched(data: seq<byte>, to: nat)
    ensures SameOutside(data, data, 0, to)
  {
  }

  lemma OutsideWider(a: seq<byte>, b: seq<byte>, m: nat, n: nat, at: int)
    requires SameOutside(a, b, 0, m) && (m <= n || a == b)
    ensures SameOutside(a, b, 0, n) && (m <= at < |a| ==> at < |b| && b[at] == a[at])
  {
  }

  method PutSpace(buf: array<byte>, pos: nat, ghost start: seq<byte>)
    requires pos < buf.Length && SameOutside(start, buf[..], 0, pos + 1)
    modifies buf
    ensures buf[..pos + 1] == old(buf[..pos]) + [SPACE] && SameOutside(start, buf[..], 0, pos + 1)
  {
    buf[pos] := SPACE;
  }

  /** ece391_getargs: the arguments joined by single spaces, iff they fit with their NUL.  The byte just past the
      limit is overwritten iff some of the arguments, joined, fill the buffer exactly. */
  method GetArgs(argv: seq<seq<byte>>, buf: array<byte>, nbytes: int) returns (r: int)
    requires argv != [] && nbytes < buf.Length
    requires forall i :: 0 <= i < |argv| ==> NulFree(argv[i])
    modifies buf
    ensures r == 0 <==> |Join(argv[1..])| + 1 <= nbytes
    ensures r == 0 || r == -1
    ensures r == 0 ==> StringAt(buf[..], 0, Join(argv[1..]))
    ensures SameOutside(old(buf[..]), buf[..], 0, Touched(nbytes, r))
    ensures 0 <= nbytes ==> buf[nbytes] == if EdgeHit(argv[1..], nbytes) then NUL else old(buf[nbytes])
  {
    hide Join, NulFree, EdgeHit;
    ghost var words := argv[1..];
    var pos, fits := JoinArgs(argv, buf, nbytes);
    if !fits {
      return -1;
    }
    assert words[..|words|] == words;
    NothingBefore(words);
    if nbytes - pos < 1 {
      if words == [] {
        EdgeBetween(words, 0, nbytes);
      } else {
        EdgeAt(words, |words|, nbytes);
      }
      return -1;
    }
    EdgeBetween(words, |words|, nbytes);
    ghost var joined := buf[..pos];
    buf[pos] := NUL;
    assert buf[..pos] == joined && buf[..][0..pos] == buf[..pos];
    JoinNulFree(words);
    return 0;
  }

  /** ece391_strcpy of one argument to the place reached so far.  `start` is the buffer before the call. */
  method CopyAt(buf: array<byte>, pos: nat, w: seq<byte>, ghost start: seq<byte>)
    requires pos + |w| < buf.Length && SameOutside(start, buf[..], 0, pos)
    modifies buf
    ensures buf[..pos + |w|] == old(buf[..pos]) + w && buf[pos + |w|] == NUL
    ensures SameOutside(start, buf[..], 0, pos + |w| + 1)
  {
    ghost var front := buf[..pos];
    var i := 0;
    while i < |w|
      invariant 0 <= i <= |w| && buf[..pos + i] == front + w[..i]
      invariant SameOutside(start, buf[..], 0, pos + i)
    {
      ghost var soFar := buf[..pos + i];
      buf[pos + i] := w[i];
      assert buf[..pos + (i + 1)] == soFar + [w[i]];
      i := i + 1;
    }
    assert w[..i] == w;
    ghost var all := buf[..pos + i];
    buf[pos + i] := NUL;
    assert buf[..pos + i] == all;
  }

  lemma NothingBefore(words: seq<seq<byte>>)
    ensures Before(words, 0) == [] && (words == [] ==> Join(words) == [])
  {
  }

  lemma ThenSpace(words: seq<seq<byte>>, k: nat)
    requires 0 < k <= |words|
    ensures Before(words, k) == Join(words[..k]) + [SPACE]
  {
  }

  lemma {:induction false} JoinNulFree(words: seq<seq<byte>>)
    requires forall i :: 0 <= i < |words| ==> NulFree(words[i])
    ensures NulFree(Join(words))
    decreases |words|
  {
    if |words| > 1 {
      JoinNulFree(words[1..]);
    }
  }
}
