/** filesys.c: the read-only file system image, file reads and directory reads. */
module Filesys {
  import opened Bytes

  const BLOCK := 4096
  const ENTRY := 64
  const NAME := 32

  // ---------------------------------------------------------------- the image

  /** A byte of memory counted from the start of the image; 0 outside it. */
  function ByteAt(image: seq<byte>, at: nat): byte {
    if at < |image| then image[at] else 0
  }

  /** A little-endian 32-bit word. */
  function Word(image: seq<byte>, at: nat): (w: nat)
    ensures w < 0x1_0000_0000
  {
    ByteAt(image, at) + 0x100 * ByteAt(image, at + 1) + 0x1_0000 * ByteAt(image, at + 2) +
      0x100_0000 * ByteAt(image, at + 3)
  }

  function EntryCount(image: seq<byte>): nat { Word(image, 0) }

  function InodeCount(image: seq<byte>): nat { Word(image, 4) }

  function InodeAt(inode: nat): nat { BLOCK + inode * BLOCK }

  function DataAt(image: seq<byte>): nat { BLOCK * (InodeCount(image) + 1) }

  function FileLength(image: seq<byte>, inode: nat): nat { Word(image, InodeAt(inode)) }

  /** Place of the block-list entry for byte j of a file. */
  function ListingAt(inode: nat, j: nat): nat { InodeAt(inode) + 4 + 4 * (j / BLOCK) }

  /** Where byte j of a file lies: directly from the block list. */
  function FileAt(image: seq<byte>, inode: nat, j: nat): nat {
    DataAt(image) + Word(image, ListingAt(inode, j)) * BLOCK + j % BLOCK
  }

  function FileByte(image: seq<byte>, inode: nat, j: nat): byte { ByteAt(image, FileAt(image, inode, j)) }

  /** Bytes from..from+n of a file by direct indexing. */
  function FileBytes(image: seq<byte>, inode: nat, from: nat, n: nat): (r: seq<byte>)
    ensures |r| == n && forall i :: 0 <= i < n ==> r[i] == FileByte(image, inode, from + i)
  {
    seq<byte>(n, i requires 0 <= i => FileByte(image, inode, from + i))
  }

  function Contents(image: seq<byte>, inode: nat): seq<byte> {
    FileBytes(image, inode, 0, FileLength(image, inode))
  }

  function Min(a: nat, b: nat): nat { if a < b then a else b }

  /** How many bytes read_data copies: its guard bounds the count by the whole length, not by what is left. */
  function Copied(length: nat, offset: nat, n: nat): nat {
    if offset > length then 0 else Min(n, length)
  }

  /** How many bytes the documentation promises: up to the end of the file. */
  function Promised(length: nat, offset: nat, n: nat): nat {
    if offset > length then 0 else Min(n, length - offset)
  }

  function ReadData(image: seq<byte>, inode: nat, offset: nat, n: nat): seq<byte> {
    FileBytes(image, inode, offset, Copied(FileLength(image, inode), offset, n))
  }

  /** read_data keeps the documented end-of-file rule exactly when it starts at 0, ends inside the file,
      or starts beyond it. */
  lemma EndOfFileRuleIff(length: nat, offset: nat, n: nat)
    ensures Copied(length, offset, n) == Promised(length, offset, n) <==>
            offset == 0 || offset + n <= length || offset > length
    ensures Copied(length, offset, n) >= Promised(length, offset, n)
  {
  }

  /** The block list entries and bytes that a copy of n bytes from offset touches are inside the image;
      the entry after the last byte is read ahead. */
  predicate InImage(image: seq<byte>, inode: nat, offset: nat, n: nat) {
    && InodeAt(inode) + 4 * ((offset + n) / BLOCK) + 8 <= |image|
    && forall j :: offset <= j < offset + n ==> FileAt(image, inode, j) < |image|
  }

  // ---------------------------------------------------------------- names

  /** Where the walk begins. */
  lemma WalkStart(image: seq<byte>, inode: nat, offset: nat)
    ensures InodeAt(inode) + 4 + 4 * (offset / BLOCK) == ListingAt(inode, offset)
    ensures DataAt(image) + Word(image, ListingAt(inode, offset)) * BLOCK + offset % BLOCK ==
            FileAt(image, inode, offset)
  {
  }

  lemma ByteInImage(image: seq<byte>, inode: nat, offset: nat, n: nat, i: nat)
    requires InImage(image, inode, offset, n) && i < n
    ensures FileAt(image, inode, offset + i) < |image|
    ensures FileByte(image, inode, offset + i) == image[FileAt(image, inode, offset + i)]
  {
    hide FileAt;
  }

  /** A name field or query as compared by strncmp: cut at 32 bytes or at NUL. */
  function Cut(s: seq<byte>): seq<byte> {
    CString(Prefix32(s))
  }

  function EntryBytes(image: seq<byte>, e: nat): (r: seq<byte>)
    ensures |r| == ENTRY
  {
    seq<byte>(ENTRY, i requires 0 <= i => ByteAt(image, ENTRY * (e + 1) + i))
  }

  function EntryName(image: seq<byte>, e: nat): (r: seq<byte>)
    ensures |r| <= NAME
  {
    Cut(EntryBytes(image, e))
  }

  lemma NameOfBytes(image: seq<byte>, e: nat)
    ensures EntryName(image, e) == Cut(EntryBytes(image, e))
  {
  }

  /** A C string argument: terminated, or long enough that the comparison never runs off it. */
  predicate IsQuery(s: seq<byte>) { NUL in s || NAME <= |s| }

  /** C's char is signed. */
  function Signed(b: byte): int { if b < 128 then b else b - 256 }

  lemma {:induction false} CStringIs(s: seq<byte>, i: nat)
    requires i <= |s| && NUL !in s[..i] && (i < |s| ==> s[i] == NUL)
    ensures CString(s) == s[..i]
  {
    assert s == s[..i] + s[i..];
    CStringOf(s[..i], s[i..]);
  }

  /** The two strings agree, and have not ended, before position i. */
  predicate AgreeTo(a: seq<byte>, b: seq<byte>, i: nat) {
    i <= |a| && i <= |b| && forall j :: 0 <= j < i ==> a[j] == b[j] != NUL
  }

  function Prefix32(s: seq<byte>): seq<byte> { if |s| <= NAME then s else s[..NAME] }

  lemma CompareEnds(a: seq<byte>, b: seq<byte>, i: nat)
    requires AgreeTo(a, b, i) && i < NAME && i < |a| && i < |b| && (a[i] != b[i] || a[i] == NUL)
    ensures Cut(a) == Cut(b) <==> a[i] == b[i]
  {
    var a', b' := Prefix32(a), Prefix32(b);
    if a[i] == b[i] {
      CStringIs(a', i);
      CStringIs(b', i);
      assert a'[..i] == b'[..i];
    } else {
      LongCut(a', i);
      LongCut(b', i);
    }
  }

  lemma CompareFull(a: seq<byte>, b: seq<byte>)
    requires AgreeTo(a, b, NAME)
    ensures Cut(a) == Cut(b)
  {
    assert a[..NAME] == b[..NAME];
    assert Prefix32(a) == a[..NAME] && Prefix32(b) == b[..NAME];
  }

  /** A C string is at least as long as any NUL-free prefix of its buffer, and agrees with it. */
  lemma {:induction false} LongCut(s: seq<byte>, i: nat)
    requires i < |s| && NUL !in s[..i]
    ensures |CString(s)| >= i
    ensures |CString(s)| == i <==> s[i] == NUL
    ensures s[i] != NUL ==> |CString(s)| > i && CString(s)[i] == s[i]
  {
    if i > 0 {
      assert s[1..][..i - 1] == s[..i][1..];
      assert s[0] == s[..i][0];
      LongCut(s[1..], i - 1);
    }
  }

  /** strncmp on the first 32 bytes. */
  method Strncmp(a: seq<byte>, b: seq<byte>) returns (r: int)
    requires NAME <= |a| && IsQuery(b)
    ensures r == 0 <==> Cut(a) == Cut(b)
  {
    hide Cut;
    var i := 0;
    while i < NAME
      invariant 0 <= i <= NAME && AgreeTo(a, b, i)
    {
      assert i < |b|;
      if a[i] != b[i] || a[i] == NUL {
        CompareEnds(a, b, i);
        return Signed(a[i]) - Signed(b[i]);
      }
      i := i + 1;
    }
    CompareFull(a, b);
    return 0;
  }

  // ---------------------------------------------------------------- lookups

  /** Index of the first entry from e on whose name equals the query's; the entry count when none does. */
  function FindFrom(image: seq<byte>, query: seq<byte>, e: nat): (r: nat)
    requires e <= EntryCount(image)
    ensures e <= r <= EntryCount(image)
    ensures r < EntryCount(image) ==> EntryName(image, r) == Cut(query)
    ensures forall k :: e <= k < r ==> EntryName(image, k) != Cut(query)
    decreases EntryCount(image) - e
  {
    if e < EntryCount(image) && EntryName(image, e) != Cut(query) then FindFrom(image, query, e + 1) else e
  }

  class FileSystem {
    const image: seq<byte>
    /** Address the boot loader put the image at. */
    const base: nat
    /** Next directory entry to list. */
    var dirIndex: nat

    predicate Valid() {
      base % BLOCK == 0 && 8 <= |image| && ENTRY * (EntryCount(image) + 2) <= |image|
    }

    constructor (mem: seq<byte>, address: nat)
      requires address % BLOCK == 0 && 8 <= |mem| && ENTRY * (EntryCount(mem) + 2) <= |mem|
      ensures Valid() && image == mem && dirIndex == 0
    {
      image, base, dirIndex := mem, address, 0;
    }

    /** read_dentry_by_name: the first match is copied out, and failure means there is none. */
    method ReadDentryByName(name: seq<byte>, dentry: array<byte>) returns (r: int)
      requires Valid() && IsQuery(name) && dentry.Length == ENTRY
      modifies dentry
      ensures r == 0 || r == -1
      ensures r == -1 ==> dentry[..] == old(dentry[..])
      ensures r == -1 ==> forall e :: 0 <= e < EntryCount(image) ==> EntryName(image, e) != Cut(name)
      ensures r == 0 ==> exists e: nat :: e < EntryCount(image) && EntryName(image, e) == Cut(name)
                                          && dentry[..] == EntryBytes(image, e)
                                          && forall k :: 0 <= k < e ==> EntryName(image, k) != Cut(name)
      ensures var e := FindFrom(image, name, 0);
              if e < EntryCount(image) then r == 0 && dentry[..] == EntryBytes(image, e) else r == -1
    {
      hide Cut, EntryName, EntryBytes, EntryCount;
      var count := 0;
      while count < EntryCount(image)
        invariant 0 <= count <= EntryCount(image)
        invariant dentry[..] == old(dentry[..]) && FindFrom(image, name, count) == FindFrom(image, name, 0)
        invariant forall e :: 0 <= e < count ==> EntryName(image, e) != Cut(name)
      {
        var differ := Strncmp(EntryBytes(image, count), name);
        NameOfBytes(image, count);
        if differ == 0 {
          CopyEntry(count, dentry);
          return 0;
        }
        count := count + 1;
      }
      return -1;
    }

    method CopyEntry(e: nat, dentry: array<byte>)
      requires dentry.Length == ENTRY
      modifies dentry
      ensures dentry[..] == EntryBytes(image, e)
    {
      var i := 0;
      while i < ENTRY
        invariant 0 <= i <= ENTRY
        invariant forall k :: 0 <= k < i ==> dentry[k] == EntryBytes(image, e)[k]
      {
        dentry[i] := ByteAt(image, ENTRY * (e + 1) + i);
        i := i + 1;
      }
    }

    /** read_dentry_by_index.  Its bound lets one index too many through: the entry count itself. */
    method ReadDentryByIndex(index: nat, dentry: array<byte>) returns (r: int)
      requires Valid() && dentry.Length == ENTRY
      modifies dentry
      ensures r == if index <= EntryCount(image) then 0 else -1
      ensures dentry[..] == if index <= EntryCount(image) then EntryBytes(image, index) else old(dentry[..])
    {
      if index > EntryCount(image) {
        return -1;
      }
      CopyEntry(index, dentry);
      return 0;
    }

    /** read_data: the pointer walk over the block list equals direct indexing. */
    method ReadInto(inode: nat, offset: nat, buf: array<byte>, length: nat) returns (count: nat)
      requires Valid()
      requires var n := Copied(FileLength(image, inode), offset, length);
               n <= buf.Length && InImage(image, inode, offset, n)
      modifies buf
      ensures count == Copied(FileLength(image, inode), offset, length)
      ensures buf[..] == ReadData(image, inode, offset, length) + old(buf[..])[count..]
    {
      hide FileAt, Word, DataAt, InodeAt, ListingAt, FileLength, FileByte, InImage, EntryCount;
      var fileLength := FileLength(image, inode);
      if offset > fileLength {
        return 0;
      }
      ghost var n := Copied(fileLength, offset, length);
      var inodeBlock := InodeAt(inode) + 4 + 4 * (offset / BLOCK);
      var dataBlock := base + DataAt(image);
      count := 0;
      var atDb := dataBlock + Word(image, inodeBlock) * BLOCK + offset % BLOCK;
      WalkStart(image, inode, offset);
      while count < fileLength && count < length
        invariant 0 <= count <= n
        invariant inodeBlock == ListingAt(inode, offset + count)
        invariant atDb == base + FileAt(image, inode, offset + count)
        invariant forall i :: 0 <= i < count ==> buf[i] == FileByte(image, inode, offset + i)
        invariant forall i :: count <= i < buf.Length ==> buf[i] == old(buf[i])
      {
        ByteInImage(image, inode, offset, n, count);
        buf[count] := image[atDb - base];
        Advance(inode, offset + count);
        atDb := atDb + 1;
        count := count + 1;
        if atDb % BLOCK == 0 {
          inodeBlock := inodeBlock + 4;
          atDb := dataBlock + Word(image, inodeBlock) * BLOCK;
        }
      }
    }

    /** The next byte of a file is the next address, except past the end of a block, where the next
        listed block begins. */
    lemma Advance(inode: nat, j: nat)
      requires Valid()
      ensures var at := base + FileAt(image, inode, j) + 1;
              if at % BLOCK != 0 then
                ListingAt(inode, j + 1) == ListingAt(inode, j) && base + FileAt(image, inode, j + 1) == at
              else ListingAt(inode, j + 1) == ListingAt(inode, j) + 4
                   && FileAt(image, inode, j + 1) == DataAt(image) + Word(image, ListingAt(inode, j) + 4) * BLOCK
    {
      hide Word;
      var w := Word(image, ListingAt(inode, j));
      assert (base + DataAt(image) + w * BLOCK) % BLOCK == 0;
    }

    /** dir_read: the next name, as much as fits; 0 once all entries are listed.  The copy takes one byte
        more than it reports.  `buf` is the memory from the caller's buffer on. */
    method DirRead(buf: array<byte>, nbytes: nat) returns (r: nat)
      requires Valid() && DirTouched(image, dirIndex, nbytes) <= buf.Length
      modifies this`dirIndex, buf
      ensures r == Min(nbytes, |DirResult(image, old(dirIndex))|)
      ensures r <= buf.Length && buf[..r] == DirResult(image, old(dirIndex))[..r]
      ensures dirIndex == NextIndex(image, old(dirIndex))
      ensures var n := DirTouched(image, old(dirIndex), nbytes);
              && (forall k :: 0 <= k < n ==> buf[k] == EntryBytes(image, old(dirIndex))[k])
              && (forall k :: n <= k < buf.Length ==> buf[k] == old(buf[k]))
    {
      hide Cut, EntryBytes, EntryCount, EntryName, Word;
      if dirIndex >= EntryCount(image) {
        return 0;
      }
      var dentry := new byte[ENTRY];
      var failed := ReadDentryByIndex(dirIndex, dentry);
      r := NameScan(dentry, if nbytes > NAME then NAME else nbytes);
      NameOfBytes(image, dirIndex);
      CopyName(dentry, buf, r + 1);
      dirIndex := dirIndex + 1;
    }

    /** The scan for the end of the name. */
    method NameScan(dentry: array<byte>, n: nat) returns (r: nat)
      requires dentry.Length == ENTRY && n <= NAME
      ensures r == Min(n, |Cut(dentry[..])|) && Cut(dentry[..])[..r] == dentry[..][..r]
    {
      hide Cut;
      r := 0;
      while r < n && dentry[r] != NUL
        invariant 0 <= r <= n
        invariant forall j :: 0 <= j < r ==> dentry[j] != NUL
      {
        r := r + 1;
      }
      NameLength(dentry[..], r, n);
    }

    method CopyName(dentry: array<byte>, buf: array<byte>, n: nat)
      requires dentry != buf && n <= dentry.Length && n <= buf.Length
      modifies buf
      ensures forall k :: 0 <= k < n ==> buf[k] == dentry[k]
      ensures forall k :: n <= k < buf.Length ==> buf[k] == old(buf[k])
    {
      var i := 0;
      while i < n
        invariant 0 <= i <= n
        invariant forall k :: 0 <= k < i ==> buf[k] == dentry[k]
        invariant forall k :: i <= k < buf.Length ==> buf[k] == old(buf[k])
      {
        buf[i] := dentry[i];
        i := i + 1;
      }
    }
  }

  /** How many bytes a directory read writes: one more than it reports, once an entry is listed. */
  function DirTouched(image: seq<byte>, index: nat, nbytes: nat): (n: nat)
    ensures n <= NAME + 1
  {
    if index < EntryCount(image) then Min(nbytes, |EntryName(image, index)|) + 1 else 0
  }

  /** The byte past the count is written iff an entry is listed whose cut name fills the count; that byte lies past the
      caller's buffer iff the name is at least as long as the buffer. */
  lemma DirOverrunIff(image: seq<byte>, index: nat, nbytes: nat)
    ensures DirTouched(image, index, nbytes) > Min(nbytes, NAME) <==>
            index < EntryCount(image) && |EntryName(image, index)| >= Min(nbytes, NAME)
    ensures DirTouched(image, index, nbytes) > nbytes <==>
            index < EntryCount(image) && |EntryName(image, index)| >= nbytes
  {
    hide EntryName, EntryCount;
  }

  /** What one directory read of at least 32 bytes returns, and the index after it. */
  function DirResult(image: seq<byte>, index: nat): seq<byte> {
    if index < EntryCount(image) then EntryName(image, index) else []
  }

  function NextIndex(image: seq<byte>, index: nat): nat {
    if index < EntryCount(image) then index + 1 else index
  }

  /** A scan for NUL within the first n bytes stops at the end of the cut name or at n. */
  lemma NameLength(s: seq<byte>, r: nat, n: nat)
    requires |s| == ENTRY && r <= n <= NAME
    requires forall j :: 0 <= j < r ==> s[j] != NUL
    requires r == n || s[r] == NUL
    ensures r == Min(n, |Cut(s)|) && Cut(s)[..r] == s[..r]
  {
    if r < NAME {
      LongCut(Prefix32(s), r);
    } else {
      CStringIs(Prefix32(s), r);
    }
  }

  // ---------------------------------------------------------------- an open file

  class OpenFile {
    var inode: nat
    var fPos: nat

    constructor (i: nat)
      ensures inode == i && fPos == 0
    {
      inode, fPos := i, 0;
    }

    /** file_read. */
    method FileRead(fs: FileSystem, buf: array<byte>, nbytes: int) returns (r: int)
      requires fs.Valid()
      requires nbytes > 0 ==> var n := Copied(FileLength(fs.image, inode), fPos, nbytes);
                              n <= buf.Length && InImage(fs.image, inode, fPos, n)
      modifies this`fPos, buf
      ensures nbytes < 0 ==> r == -1 && fPos == old(fPos) && buf[..] == old(buf[..])
      ensures nbytes >= 0 ==>
                var got := ReadData(fs.image, inode, old(fPos), nbytes);
                r == |got| && fPos == old(fPos) + |got| && buf[..] == got + old(buf[..])[|got|..]
    {
      if nbytes < 0 {
        return -1;
      }
      if nbytes == 0 {
        return 0;
      }
      var n := fs.ReadInto(inode, fPos, buf, nbytes);
      fPos := fPos + n;
      return n;
    }
  }
}
