/** The descriptor table of a process: its set-up in execute, open, close, and the close loop of halt. */
module Descriptors {
  import opened Bytes

  const MAX_OPEN_FILES := 8
  const FIRST_FD := 2
  const FLAG_PRESENT := 1
  const FLAG_FILE := 2
  const FLAG_DIRECTORY := 4
  const FLAG_RTC := 8

  datatype Ops = StdinOps | StdoutOps | FileOps | DirOps | RtcOps

  datatype Fd = Fd(ops: Ops, inode: int, fPos: int, flags: int)

  datatype Table = Table(fds: seq<Fd>, size: int)

  /** What a name resolves to: file type 0 for the RTC, 1 for the directory, 2 for a regular file. */
  datatype Entry = Entry(fileType: int, inode: int)

  predicate Present(fd: Fd) { fd.flags != 0 }

  function CountPresent(fds: seq<Fd>): nat {
    if fds == [] then 0 else (if Present(fds[0]) then 1 else 0) + CountPresent(fds[1..])
  }

  /** The flags of a descriptor are none, or present plus one file type (none for stdin and stdout). */
  predicate Inv(t: Table) {
    && |t.fds| == MAX_OPEN_FILES
    && (forall i :: 0 <= i < MAX_OPEN_FILES ==> t.fds[i].flags in {0, 1, 3, 5, 9})
    && Present(t.fds[0]) && Present(t.fds[1])
    && t.size == CountPresent(t.fds)
  }

  /** First descriptor from i on whose present bit is clear. */
  function FirstClear(fds: seq<Fd>, i: nat): (r: nat)
    requires i <= |fds|
    ensures i <= r <= |fds|
    ensures r < |fds| ==> fds[r].flags % 2 == 0
    ensures forall j :: i <= j < r ==> fds[j].flags % 2 != 0
    decreases |fds| - i
  {
    if i < |fds| && fds[i].flags % 2 != 0 then FirstClear(fds, i + 1) else i
  }

  function Opened(e: Entry): Fd {
    match e.fileType
    case 0 => Fd(RtcOps, 0, 0, FLAG_PRESENT + FLAG_RTC)
    case 1 => Fd(DirOps, 0, 0, FLAG_PRESENT + FLAG_DIRECTORY)
    case _ => Fd(FileOps, e.inode, 0, FLAG_PRESENT + FLAG_FILE)
  }

  predicate CanOpen(t: Table, entry: Option<Entry>) {
    && |t.fds| == MAX_OPEN_FILES
    && (entry.Some? ==> 0 <= entry.value.fileType <= 2)
    && (entry.Some? && t.size < MAX_OPEN_FILES ==> FirstClear(t.fds, FIRST_FD) < MAX_OPEN_FILES)
  }

  function OpenStep(t: Table, entry: Option<Entry>): (Table, int)
    requires CanOpen(t, entry)
  {
    if entry.None? || t.size >= MAX_OPEN_FILES then (t, -1)
    else
      var fd: int := FirstClear(t.fds, FIRST_FD);
      (Table(t.fds[fd := Opened(entry.value)], t.size + 1), fd)
  }

  function CloseStep(t: Table, fd: int): (Table, int)
    requires |t.fds| == MAX_OPEN_FILES
  {
    if fd < FIRST_FD || fd >= MAX_OPEN_FILES || t.fds[fd].flags == 0 then (t, -1)
    else (Table(t.fds[fd := t.fds[fd].(flags := 0)], t.size - 1), 0)
  }

  // ---------------------------------------------------------------- counting

  lemma {:induction false} CountUpdate(fds: seq<Fd>, i: nat, fd: Fd)
    requires i < |fds|
    ensures CountPresent(fds[i := fd]) ==
            CountPresent(fds) - (if Present(fds[i]) then 1 else 0) + (if Present(fd) then 1 else 0)
    decreases |fds|
  {
    if i > 0 {
      assert fds[i := fd][1..] == fds[1..][i - 1 := fd];
      CountUpdate(fds[1..], i - 1, fd);
    } else {
      assert fds[i := fd][1..] == fds[1..];
    }
  }

  lemma {:induction false} CountFull(fds: seq<Fd>)
    ensures CountPresent(fds) <= |fds|
    ensures CountPresent(fds) == |fds| <==> forall i :: 0 <= i < |fds| ==> Present(fds[i])
    decreases |fds|
  {
    if fds != [] {
      CountFull(fds[1..]);
      assert fds == [fds[0]] + fds[1..];
    }
  }

  // ---------------------------------------------------------------- laws

  /** A freshly opened descriptor stands at position 0 and has the operations, inode and flags of its file type: 0 is
      the RTC, 1 the directory, 2 a regular file. */
  predicate OpenFor(fd: Fd, e: Entry) {
    && fd.fPos == 0
    && (e.fileType == 0 ==> fd.ops == RtcOps && fd.inode == 0 && fd.flags == 1 + 8)
    && (e.fileType == 1 ==> fd.ops == DirOps && fd.inode == 0 && fd.flags == 1 + 4)
    && (e.fileType == 2 ==> fd.ops == FileOps && fd.inode == e.inode && fd.flags == 1 + 2)
  }

  /** open fails iff the name is missing or all six descriptors are in use; otherwise it returns the least
      absent descriptor, which is never past the table, and touches no other. */
  lemma OpenLaw(t: Table, entry: Option<Entry>)
    requires Inv(t) && (entry.Some? ==> 0 <= entry.value.fileType <= 2)
    ensures CanOpen(t, entry)
    ensures var (t', fd) := OpenStep(t, entry);
            && Inv(t')
            && (fd == -1 <==> entry.None? || forall i :: FIRST_FD <= i < MAX_OPEN_FILES ==> Present(t.fds[i]))
            && (fd == -1 ==> t' == t)
            && (fd != -1 ==>
                  && FIRST_FD <= fd < MAX_OPEN_FILES && !Present(t.fds[fd])
                  && (forall i :: FIRST_FD <= i < fd ==> Present(t.fds[i]))
                  && |t'.fds| == MAX_OPEN_FILES
                  && (forall i :: 0 <= i < MAX_OPEN_FILES && i != fd ==> t'.fds[i] == t.fds[i])
                  && t'.size == t.size + 1 && OpenFor(t'.fds[fd], entry.value))
  {
    CountFull(t.fds);
    var free := FirstClear(t.fds, FIRST_FD);
    if entry.Some? && t.size < MAX_OPEN_FILES {
      CountUpdate(t.fds, free, Opened(entry.value));
    }
  }

  /** close succeeds iff it names a present descriptor other than 0 and 1, and touches no other. */
  lemma CloseLaw(t: Table, fd: int)
    requires Inv(t)
    ensures var (t', r) := CloseStep(t, fd);
            && Inv(t')
            && (r == 0 <==> FIRST_FD <= fd < MAX_OPEN_FILES && Present(t.fds[fd]))
            && (r != 0 ==> r == -1 && t' == t)
            && (r == 0 ==> !Present(t'.fds[fd]))
            && (r == 0 ==> forall i :: 0 <= i < MAX_OPEN_FILES && i != fd ==> t'.fds[i] == t.fds[i])
  {
    if FIRST_FD <= fd < MAX_OPEN_FILES {
      CountUpdate(t.fds, fd, t.fds[fd].(flags := 0));
    }
  }

  /** open then close of the returned descriptor leaves the same descriptors present. */
  lemma CloseUndoesOpen(t: Table, entry: Option<Entry>)
    requires Inv(t) && (entry.Some? ==> 0 <= entry.value.fileType <= 2)
    ensures CanOpen(t, entry)
    ensures var (t1, fd) := OpenStep(t, entry);
            fd != -1 ==>
              var (t2, r) := CloseStep(t1, fd);
              && r == 0 && t2.size == t.size
              && forall i :: 0 <= i < MAX_OPEN_FILES ==> (Present(t2.fds[i]) <==> Present(t.fds[i]))
  {
    OpenLaw(t, entry);
    CloseLaw(OpenStep(t, entry).0, OpenStep(t, entry).1);
  }

  datatype Call = Open(entry: Option<Entry>) | Close(fd: int)

  predicate Typed(c: Call) { c.Open? && c.entry.Some? ==> 0 <= c.entry.value.fileType <= 2 }

  function CallStep(t: Table, c: Call): (t': Table)
    requires Inv(t) && Typed(c)
    ensures Inv(t')
  {
    match c
    case Open(entry) => OpenLaw(t, entry); OpenStep(t, entry).0
    case Close(fd) => CloseLaw(t, fd); CloseStep(t, fd).0
  }

  predicate AllTyped(calls: seq<Call>) {
    forall i :: 0 <= i < |calls| ==> Typed(calls[i])
  }

  function Calls(t: Table, calls: seq<Call>): Table
    requires Inv(t) && AllTyped(calls)
    decreases |calls|
  {
    if calls == [] then t else Calls(CallStep(t, calls[0]), calls[1..])
  }

  /** Over any sequence of opens and closes the counter counts the present descriptors, and stdin and
      stdout are never closed or replaced. */
  lemma {:induction false} AnyCalls(t: Table, calls: seq<Call>)
    requires Inv(t) && AllTyped(calls)
    ensures Inv(Calls(t, calls))
    ensures Calls(t, calls).fds[0] == t.fds[0] && Calls(t, calls).fds[1] == t.fds[1]
    decreases |calls|
  {
    if calls != [] {
      AnyCalls(CallStep(t, calls[0]), calls[1..]);
    }
  }

  // ---------------------------------------------------------------- the close loop of halt

  /** halt calls each present descriptor's close.  For a regular file that is the close system call, which
      acts on the table of the shown terminal's process, here `fore`. */
  function HaltCloses(own: seq<Fd>, fore: Table, i: nat): Table
    requires |own| == MAX_OPEN_FILES && |fore.fds| == MAX_OPEN_FILES && i <= MAX_OPEN_FILES
    decreases MAX_OPEN_FILES - i
  {
    if i == MAX_OPEN_FILES then fore
    else HaltCloses(own, CloseIfFile(own, fore, i), i + 1)
  }

  /** The loop's turn for one descriptor. */
  function CloseIfFile(own: seq<Fd>, fore: Table, i: nat): (r: Table)
    requires |own| == MAX_OPEN_FILES && |fore.fds| == MAX_OPEN_FILES && i < MAX_OPEN_FILES
    ensures |r.fds| == MAX_OPEN_FILES && r.size <= fore.size
    ensures forall k :: 0 <= k < MAX_OPEN_FILES ==>
              r.fds[k] == if k == i && IsTarget(own, k) then fore.fds[k].(flags := 0) else fore.fds[k]
    ensures (IsTarget(own, i) && Present(fore.fds[i])) || r == fore
  {
    if Present(own[i]) && own[i].ops == FileOps then CloseStep(fore, i).0 else fore
  }

  /** A number that the loop passes to close, and that close accepts when it is present. */
  predicate IsTarget(own: seq<Fd>, k: nat)
    requires |own| == MAX_OPEN_FILES && k < MAX_OPEN_FILES
  {
    k >= FIRST_FD && Present(own[k]) && own[k].ops == FileOps
  }

  lemma HaltClosesTurn(own: seq<Fd>, fore: Table, i: nat)
    requires |own| == MAX_OPEN_FILES && |fore.fds| == MAX_OPEN_FILES && i <= MAX_OPEN_FILES
    ensures HaltCloses(own, fore, MAX_OPEN_FILES) == fore
    ensures i < MAX_OPEN_FILES ==>
              HaltCloses(own, fore, i) ==
              HaltCloses(own, if Present(own[i]) && own[i].ops == FileOps then CloseStep(fore, i).0 else fore, i + 1)
  {
  }

  lemma {:induction false} HaltClosesEach(own: seq<Fd>, fore: Table, i: nat)
    requires |own| == MAX_OPEN_FILES && |fore.fds| == MAX_OPEN_FILES && i <= MAX_OPEN_FILES
    ensures var r := HaltCloses(own, fore, i);
            && |r.fds| == MAX_OPEN_FILES && r.size <= fore.size
            && forall k :: 0 <= k < MAX_OPEN_FILES ==>
                 r.fds[k] == if k >= i && IsTarget(own, k) then fore.fds[k].(flags := 0) else fore.fds[k]
    decreases MAX_OPEN_FILES - i
  {
    if i < MAX_OPEN_FILES {
      hide CloseIfFile, IsTarget;
      HaltClosesEach(own, CloseIfFile(own, fore, i), i + 1);
    }
  }

  lemma {:induction false} HaltClosesNothing(own: seq<Fd>, fore: Table, i: nat)
    requires |own| == MAX_OPEN_FILES && |fore.fds| == MAX_OPEN_FILES && i <= MAX_OPEN_FILES
    requires forall k :: i <= k < MAX_OPEN_FILES && IsTarget(own, k) ==> !Present(fore.fds[k])
    ensures HaltCloses(own, fore, i) == fore
    decreases MAX_OPEN_FILES - i
  {
    if i < MAX_OPEN_FILES {
      hide CloseIfFile;
      HaltClosesNothing(own, fore, i + 1);
    }
  }

  lemma HaltClosesWhat(own: seq<Fd>, fore: Table, i: nat)
    requires |own| == MAX_OPEN_FILES && |fore.fds| == MAX_OPEN_FILES && i <= MAX_OPEN_FILES
    ensures var r := HaltCloses(own, fore, i);
            && |r.fds| == MAX_OPEN_FILES
            && forall k :: 0 <= k < MAX_OPEN_FILES ==>
                 r.fds[k] == if k >= i && IsTarget(own, k) then fore.fds[k].(flags := 0) else fore.fds[k]
    ensures HaltCloses(own, fore, i).size <= fore.size
    ensures (forall k :: i <= k < MAX_OPEN_FILES && IsTarget(own, k) ==> !Present(fore.fds[k])) ==>
            HaltCloses(own, fore, i) == fore
  {
    HaltClosesEach(own, fore, i);
    hide HaltCloses, IsTarget;
    if forall k :: i <= k < MAX_OPEN_FILES && IsTarget(own, k) ==> !Present(fore.fds[k]) {
      HaltClosesNothing(own, fore, i);
    }
  }

  /** The shown process's counter still counts its present descriptors afterwards. */
  lemma {:induction false} HaltClosesKeepsCount(own: seq<Fd>, fore: Table, i: nat)
    requires |own| == MAX_OPEN_FILES && Inv(fore) && i <= MAX_OPEN_FILES
    ensures Inv(HaltCloses(own, fore, i))
    decreases MAX_OPEN_FILES - i
  {
    if i < MAX_OPEN_FILES {
      CloseLaw(fore, i);
      hide CloseStep;
      HaltClosesKeepsCount(own, CloseIfFile(own, fore, i), i + 1);
    }
  }

  /** A background halt leaves the shown process's table alone iff no descriptor is both an open regular
      file of the dying process and open in the shown one. */
  lemma HaltSparesForegroundIff(own: seq<Fd>, fore: Table)
    requires |own| == MAX_OPEN_FILES && Inv(fore)
    ensures HaltCloses(own, fore, 0) == fore
       <==> forall k :: FIRST_FD <= k < MAX_OPEN_FILES && IsTarget(own, k) ==> !Present(fore.fds[k])
  {
    HaltClosesWhat(own, fore, 0);
    hide HaltCloses;
    if HaltCloses(own, fore, 0) == fore {
      forall k | FIRST_FD <= k < MAX_OPEN_FILES && IsTarget(own, k) ensures !Present(fore.fds[k]) {
        assert fore.fds[k] == fore.fds[k].(flags := 0);
      }
    }
  }

  /** A table as execute sets it up. */
  predicate Fresh(t: Table) {
    Inv(t) && t.size == 2 && forall k :: FIRST_FD <= k < MAX_OPEN_FILES ==> !Present(t.fds[k])
  }

  /** Two processes that open one file each, a regular one in `own`: both get descriptor 2, and the halt of the first
      closes the file of the second, which is the shown one by then. */
  lemma OwnHaltClosesAnother(own: Table, fore: Table, file: Entry, other: Entry)
    requires Fresh(own) && Fresh(fore) && file.fileType == 2 && 0 <= other.fileType <= 2
    ensures CanOpen(own, Some(file)) && CanOpen(fore, Some(other))
    ensures var (t, fd) := OpenStep(own, Some(file)); var (u, fd') := OpenStep(fore, Some(other));
            && fd == fd' == FIRST_FD && Present(u.fds[FIRST_FD])
            && var r := HaltCloses(t.fds, u, 0);
               r != u && |r.fds| == MAX_OPEN_FILES && !Present(r.fds[FIRST_FD])
  {
    OpenLaw(own, Some(file));
    OpenLaw(fore, Some(other));
    HaltClosesWhat(OpenStep(own, Some(file)).0.fds, OpenStep(fore, Some(other)).0, 0);
    hide HaltCloses;
  }

  /** Numbers from i on that the close loop passes to close. */
  function Targets(own: seq<Fd>, i: nat): nat
    requires |own| == MAX_OPEN_FILES && i <= MAX_OPEN_FILES
    decreases MAX_OPEN_FILES - i
  {
    if i == MAX_OPEN_FILES then 0 else (if IsTarget(own, i) then 1 else 0) + Targets(own, i + 1)
  }

  lemma TargetsTurn(own: seq<Fd>, i: nat)
    requires |own| == MAX_OPEN_FILES && i <= MAX_OPEN_FILES
    ensures Targets(own, MAX_OPEN_FILES) == 0
    ensures i < MAX_OPEN_FILES ==> Targets(own, i) == (if IsTarget(own, i) then 1 else 0) + Targets(own, i + 1)
  {
  }

  // ---------------------------------------------------------------- the table in place

  class FileTable {
    var fileArray: seq<Fd>
    var fileArrSize: int

    function View(): Table
      reads this
    {
      Table(fileArray, fileArrSize)
    }

    /** The set-up in execute: stdin and stdout present, the rest absent, whatever was there before. */
    constructor (before: seq<Fd>)
      requires |before| == MAX_OPEN_FILES
      ensures Fresh(View())
      ensures fileArray[0] == Fd(StdinOps, -1, 0, 1) && fileArray[1] == Fd(StdoutOps, -1, 0, 1)
    {
      var fds := before[0 := Fd(StdinOps, -1, 0, FLAG_PRESENT)][1 := Fd(StdoutOps, -1, 0, FLAG_PRESENT)];
      var k := FIRST_FD;
      while k < MAX_OPEN_FILES
        invariant FIRST_FD <= k <= MAX_OPEN_FILES && |fds| == MAX_OPEN_FILES
        invariant fds[0] == Fd(StdinOps, -1, 0, FLAG_PRESENT) && fds[1] == Fd(StdoutOps, -1, 0, FLAG_PRESENT)
        invariant forall j :: FIRST_FD <= j < k ==> fds[j].flags == 0
      {
        fds := fds[k := fds[k].(flags := 0)];
        k := k + 1;
      }
      TwoPresent(fds);
      fileArray := fds;
      fileArrSize := FIRST_FD;
    }

    method Open(entry: Option<Entry>) returns (fd: int)
      requires CanOpen(View(), entry)
      modifies this
      ensures (View(), fd) == OpenStep(old(View()), entry)
    {
      if entry.None? || fileArrSize >= MAX_OPEN_FILES {
        return -1;
      }
      fd := FIRST_FD;
      while fd < MAX_OPEN_FILES
        invariant FIRST_FD <= fd <= MAX_OPEN_FILES
        invariant fileArray == old(fileArray) && fileArrSize == old(fileArrSize)
        invariant FirstClear(fileArray, FIRST_FD) == FirstClear(fileArray, fd)
      {
        if fileArray[fd].flags % 2 == 0 {
          fileArray := fileArray[fd := fileArray[fd].(flags := FLAG_PRESENT)];
          break;
        }
        fd := fd + 1;
      }
      match entry.value.fileType {
        case 0 =>
          fileArray := fileArray[fd := fileArray[fd].(ops := RtcOps, inode := 0,
            flags := fileArray[fd].flags + FLAG_RTC)];
        case 1 =>
          fileArray := fileArray[fd := fileArray[fd].(ops := DirOps, inode := 0,
            flags := fileArray[fd].flags + FLAG_DIRECTORY)];
        case _ =>
          fileArray := fileArray[fd := fileArray[fd].(ops := FileOps, inode := entry.value.inode,
            flags := fileArray[fd].flags + FLAG_FILE)];
      }
      fileArray := fileArray[fd := fileArray[fd].(fPos := 0)];
      assert fileArray == old(fileArray)[fd := Opened(entry.value)];
      fileArrSize := fileArrSize + 1;
    }

    method Close(fd: int) returns (r: int)
      requires |fileArray| == MAX_OPEN_FILES
      modifies this
      ensures (View(), r) == CloseStep(old(View()), fd)
    {
      if fd < FIRST_FD || fd >= MAX_OPEN_FILES || fileArray[fd].flags == 0 {
        return -1;
      }
      fileArrSize := fileArrSize - 1;
      fileArray := fileArray[fd := fileArray[fd].(flags := 0)];
      return 0;
    }

    /** The close loop of halt: this is the dying process's block, `fore` the shown one's.  When they are one block its
        counter drops by the closed files, and the other descriptors lose their flags uncounted. */
    method CloseAll(fore: FileTable)
      requires |fileArray| == MAX_OPEN_FILES && |fore.fileArray| == MAX_OPEN_FILES
      modifies this, fore
      ensures |fileArray| == MAX_OPEN_FILES
      ensures forall k :: 0 <= k < MAX_OPEN_FILES ==> fileArray[k] == old(fileArray)[k].(flags := 0)
      ensures fore != this ==> fore.View() == HaltCloses(old(fileArray), old(fore.View()), 0)
      ensures fileArrSize == if fore == this then old(fileArrSize) - Targets(old(fileArray), 0) else old(fileArrSize)
    {
      hide HaltCloses, Targets;
      var i := 0;
      while i < MAX_OPEN_FILES
        invariant 0 <= i <= MAX_OPEN_FILES && |fileArray| == MAX_OPEN_FILES && |fore.fileArray| == MAX_OPEN_FILES
        invariant forall k :: 0 <= k < MAX_OPEN_FILES ==>
                    fileArray[k] == if k < i then old(fileArray)[k].(flags := 0) else old(fileArray)[k]
        invariant fileArrSize - (if fore == this then Targets(old(fileArray), i) else 0) ==
                  old(fileArrSize) - (if fore == this then Targets(old(fileArray), 0) else 0)
        invariant fore != this ==>
                    HaltCloses(old(fileArray), fore.View(), i) == HaltCloses(old(fileArray), old(fore.View()), 0)
      {
        HaltClosesTurn(old(fileArray), fore.View(), i);
        TargetsTurn(old(fileArray), i);
        if fileArray[i].flags != 0 && fileArray[i].ops == FileOps {
          var _ := fore.Close(i);
        }
        fileArray := fileArray[i := fileArray[i].(flags := 0)];
        i := i + 1;
      }
      HaltClosesTurn(old(fileArray), fore.View(), MAX_OPEN_FILES);
      TargetsTurn(old(fileArray), MAX_OPEN_FILES);
    }
  }

  lemma TwoPresent(fds: seq<Fd>)
    requires |fds| == MAX_OPEN_FILES && Present(fds[0]) && Present(fds[1])
    requires forall j :: FIRST_FD <= j < MAX_OPEN_FILES ==> !Present(fds[j])
    ensures CountPresent(fds) == 2
  {
    NonePresent(fds[1..][1..]);
  }

  lemma {:induction false} NonePresent(fds: seq<Fd>)
    requires forall j :: 0 <= j < |fds| ==> !Present(fds[j])
    ensures CountPresent(fds) == 0
    decreases |fds|
  {
    if fds != [] {
      NonePresent(fds[1..]);
    }
  }
}
