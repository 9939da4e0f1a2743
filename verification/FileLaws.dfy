/** Laws of the file system over sequences of reads. */
module FileLaws {
  import opened Bytes
  import opened Filesys

  function Sum(sizes: seq<nat>): nat {
    if sizes == [] then 0 else sizes[0] + Sum(sizes[1..])
  }

  function Flatten(parts: seq<seq<byte>>): seq<byte> {
    if parts == [] then [] else parts[0] + Flatten(parts[1..])
  }

  /** The results of successive file_read calls of the given sizes from position pos. */
  function Reads(image: seq<byte>, inode: nat, pos: nat, sizes: seq<nat>): seq<seq<byte>>
    decreases |sizes|
  {
    if sizes == [] then []
    else
      var got := ReadData(image, inode, pos, sizes[0]);
      [got] + Reads(image, inode, pos + |got|, sizes[1..])
  }

  lemma BytesSplit(image: seq<byte>, inode: nat, from: nat, n: nat, m: nat)
    ensures FileBytes(image, inode, from, n + m) ==
            FileBytes(image, inode, from, n) + FileBytes(image, inode, from + n, m)
  {
    var whole := FileBytes(image, inode, from, n + m);
    var parts := FileBytes(image, inode, from, n) + FileBytes(image, inode, from + n, m);
    hide FileByte;
    forall i | 0 <= i < |whole| ensures whole[i] == parts[i] {
      if i >= n {
        assert parts[i] == FileByte(image, inode, from + n + (i - n));
      }
    }
  }

  /** Reads whose sizes stay within the file cut it into exactly those pieces. */
  lemma {:induction false} ReadsCutTheFile(image: seq<byte>, inode: nat, pos: nat, sizes: seq<nat>)
    requires pos + Sum(sizes) <= FileLength(image, inode)
    ensures |Reads(image, inode, pos, sizes)| == |sizes|
    ensures forall i :: 0 <= i < |sizes| ==> |Reads(image, inode, pos, sizes)[i]| == sizes[i]
    ensures Flatten(Reads(image, inode, pos, sizes)) == Contents(image, inode)[pos..pos + Sum(sizes)]
    decreases |sizes|
  {
    hide FileLength, FileByte;
    if sizes != [] {
      var got := ReadData(image, inode, pos, sizes[0]);
      ReadsCutTheFile(image, inode, pos + |got|, sizes[1..]);
      var c := Contents(image, inode);
      assert got == c[pos..pos + sizes[0]];
      assert c[pos..pos + Sum(sizes)] == c[pos..pos + sizes[0]] + c[pos + sizes[0]..pos + Sum(sizes)];
    }
  }

  /** Everything delivered by repeating a positive-size read until it returns 0; the recursion shows
      that a 0 return always comes. */
  function Drain(image: seq<byte>, inode: nat, pos: nat, n: nat): seq<byte>
    requires n > 0
    decreases if pos > FileLength(image, inode) then 0 else FileLength(image, inode) + 1 - pos
  {
    var got := ReadData(image, inode, pos, n);
    if got == [] then [] else got + Drain(image, inode, pos + |got|, n)
  }

  /** The drained bytes are the file's bytes by index, they start with the rest of the file, and unless
      the file is empty they run past its end, because position = length is not treated as the end. */
  lemma {:induction false} DrainOverruns(image: seq<byte>, inode: nat, pos: nat, n: nat)
    requires n > 0 && pos <= FileLength(image, inode)
    ensures var d := Drain(image, inode, pos, n); var length := FileLength(image, inode);
            && d == FileBytes(image, inode, pos, |d|)
            && (length == 0 ==> d == [])
            && (length > 0 ==> length < pos + |d|)
    decreases FileLength(image, inode) - pos
  {
    hide FileByte;
    var length := FileLength(image, inode);
    var got := ReadData(image, inode, pos, n);
    if got != [] {
      var rest := Drain(image, inode, pos + |got|, n);
      if pos + |got| <= length {
        DrainOverruns(image, inode, pos + |got|, n);
      }
      BytesSplit(image, inode, pos, |got|, |rest|);
    }
  }

  /** The documented law, that reading to 0 yields exactly the file, holds exactly for empty files; what
      always holds is that the file comes first. */
  lemma DrainIsTheFileIff(image: seq<byte>, inode: nat, n: nat)
    requires n > 0
    ensures Contents(image, inode) <= Drain(image, inode, 0, n)
    ensures Drain(image, inode, 0, n) == Contents(image, inode) <==> FileLength(image, inode) == 0
  {
    DrainOverruns(image, inode, 0, n);
    hide FileByte;
  }

  // ---------------------------------------------------------------- directory

  /** k directory reads from an index. */
  function Listing(image: seq<byte>, index: nat, k: nat): seq<seq<byte>>
    decreases k
  {
    if k == 0 then [] else [DirResult(image, index)] + Listing(image, NextIndex(image, index), k - 1)
  }

  /** From the start, directory reads list every entry once, in order, and then return nothing forever. */
  lemma {:induction false} ListingIsTheDirectory(image: seq<byte>, index: nat, k: nat)
    ensures |Listing(image, index, k)| == k
    ensures forall e :: 0 <= e < k ==>
            Listing(image, index, k)[e] == if index + e < EntryCount(image) then EntryName(image, index + e) else []
    decreases k
  {
    hide EntryName, EntryCount;
    if k > 0 {
      ListingIsTheDirectory(image, NextIndex(image, index), k - 1);
    }
  }

  lemma CutOfListed(name: seq<byte>)
    requires NulFree(name) && |name| <= NAME
    ensures Cut(name + [NUL]) == name
  {
    if |name| == NAME {
      assert Prefix32(name + [NUL]) == name;
      CStringOf(name, []);
      assert name + [] == name;
    } else {
      CStringOf(name, [NUL]);
    }
  }

  /** Looking up a listed name finds that entry iff no earlier entry has the same cut name. */
  lemma ListedNameIsFound(image: seq<byte>, e: nat)
    requires e < EntryCount(image)
    ensures FindFrom(image, EntryName(image, e) + [NUL], 0) <= e
    ensures FindFrom(image, EntryName(image, e) + [NUL], 0) == e <==>
            forall k :: 0 <= k < e ==> EntryName(image, k) != EntryName(image, e)
  {
    CutOfListed(EntryName(image, e));
    hide EntryName;
  }
}
