/** How a file system image is laid out, byte by byte, and that an image built from files gives them back. */
module ImageLaws {
  import opened Bytes
  import opened Filesys
  import opened FileLaws

  // ---------------------------------------------------------------- any image

  /** Four bytes, the lowest first. */
  function Little(b: seq<byte>, at: nat): nat
    requires at + 4 <= |b|
  {
    b[at] as int + 256 * (b[at + 1] as int) + 65536 * (b[at + 2] as int) + 16777216 * (b[at + 3] as int)
  }

  /** An image is one block of 4096 bytes, one for each inode, whose number stands at byte 4, and the data blocks. */
  predicate Parts(image: seq<byte>, boot: seq<byte>, inodes: seq<byte>, data: seq<byte>) {
    image == boot + inodes + data && |boot| == 4096 && |inodes| == 4096 * Little(boot, 4)
  }

  /** Inode i stores the file: its length, then the numbers of its data blocks, each a full one but the last. */
  predicate Stored(inodes: seq<byte>, data: seq<byte>, i: nat, file: seq<byte>, blocks: seq<nat>) {
    && 4096 * (i + 1) <= |inodes| && |blocks| <= 1023 && |file| <= 4096 * |blocks|
    && Little(inodes, 4096 * i) == |file|
    && (forall k :: 0 <= k < |blocks| ==> Little(inodes, 4096 * i + 4 + 4 * k) == blocks[k])
    && (forall j :: 0 <= j < |file| ==>
          4096 * blocks[j / 4096] + j % 4096 < |data| && data[4096 * blocks[j / 4096] + j % 4096] == file[j])
  }

  lemma WordOf(image: seq<byte>, part: seq<byte>, start: nat, at: nat)
    requires start + |part| <= |image| && image[start..start + |part|] == part && at + 4 <= |part|
    ensures Word(image, start + at) == Little(part, at)
  {
    var here := image[start..start + |part|];
    assert here[at] == image[start + at] && here[at + 1] == image[start + at + 1];
    assert here[at + 2] == image[start + at + 2] && here[at + 3] == image[start + at + 3];
  }

  lemma WhereParts(image: seq<byte>, boot: seq<byte>, inodes: seq<byte>, data: seq<byte>)
    requires Parts(image, boot, inodes, data)
    ensures |image| == 4096 + |inodes| + |data| && image[0..4096] == boot
    ensures image[4096..4096 + |inodes|] == inodes && image[4096 + |inodes|..] == data
  {
  }

  /** What is stored is what is read. */
  lemma StoredIsRead(image: seq<byte>, boot: seq<byte>, inodes: seq<byte>, data: seq<byte>, i: nat, file: seq<byte>,
    blocks: seq<nat>)
    requires Parts(image, boot, inodes, data) && Stored(inodes, data, i, file, blocks)
    ensures FileLength(image, i) == |file| && Contents(image, i) == file
    ensures forall offset: nat, n: nat :: offset + n <= |file| ==>
              ReadData(image, i, offset, n) == file[offset..offset + n]
  {
    hide Word, Parts;
    LengthIsRead(image, boot, inodes, data, i, file, blocks);
    forall j | 0 <= j < |file| ensures FileByte(image, i, j) == file[j] {
      ByteIsRead(image, boot, inodes, data, i, file, blocks, j);
    }
  }

  lemma LengthIsRead(image: seq<byte>, boot: seq<byte>, inodes: seq<byte>, data: seq<byte>, i: nat, file: seq<byte>,
    blocks: seq<nat>)
    requires Parts(image, boot, inodes, data) && Stored(inodes, data, i, file, blocks)
    ensures FileLength(image, i) == |file|
  {
    WhereParts(image, boot, inodes, data);
    hide Word, Parts;
    WordOf(image, inodes, 4096, 4096 * i);
  }

  lemma ByteIsRead(image: seq<byte>, boot: seq<byte>, inodes: seq<byte>, data: seq<byte>, i: nat, file: seq<byte>,
    blocks: seq<nat>, j: nat)
    requires Parts(image, boot, inodes, data) && Stored(inodes, data, i, file, blocks) && j < |file|
    ensures FileAt(image, i, j) < |image| && FileByte(image, i, j) == file[j]
  {
    WhereParts(image, boot, inodes, data);
    WordOf(image, boot, 0, 4);
    WordOf(image, inodes, 4096, 4096 * i + 4 + 4 * (j / 4096));
    PartsFill(boot, inodes, image, data);
    hide Word, Parts, Little;
    var at := 4096 * blocks[j / 4096] + j % 4096;
    assert FileAt(image, i, j) == 4096 + |inodes| + at;
    assert image[4096 + |inodes|..][at] == image[4096 + |inodes| + at];
  }

  lemma PartsFill(boot: seq<byte>, inodes: seq<byte>, image: seq<byte>, data: seq<byte>)
    requires Parts(image, boot, inodes, data)
    ensures |boot| == 4096 && |inodes| == 4096 * Little(boot, 4)
  {
  }

  /** The read that delivers part of a stored file never leaves the image. */
  lemma StoredIsCovered(image: seq<byte>, boot: seq<byte>, inodes: seq<byte>, data: seq<byte>, i: nat, file: seq<byte>,
    blocks: seq<nat>, offset: nat, n: nat)
    requires Parts(image, boot, inodes, data) && Stored(inodes, data, i, file, blocks) && offset + n <= |file|
    ensures InImage(image, i, offset, n)
  {
    hide Word, Parts, FileAt, Stored, Little;
    forall j | offset <= j < offset + n ensures FileAt(image, i, j) < |image| {
      ByteIsRead(image, boot, inodes, data, i, file, blocks, j);
    }
    RoomBehind(image, boot, inodes, data, i, file, blocks);
  }

  lemma RoomBehind(image: seq<byte>, boot: seq<byte>, inodes: seq<byte>, data: seq<byte>, i: nat, file: seq<byte>,
    blocks: seq<nat>)
    requires Parts(image, boot, inodes, data) && Stored(inodes, data, i, file, blocks)
    ensures 4096 * (i + 1) + 4 * (|file| / 4096) + 8 <= |image|
  {
    WhereParts(image, boot, inodes, data);
    hide Little, Parts;
    if |file| / 4096 >= 1023 {
      var j := |file| - 1;
      assert 4096 * blocks[j / 4096] + j % 4096 < |data|;
      assert j % 4096 == 4095;
    }
  }

  /** Directory entry e: 64 bytes of the first block, from byte 64 on, with the name in front. */
  lemma EntryIsRead(image: seq<byte>, boot: seq<byte>, inodes: seq<byte>, data: seq<byte>, e: nat, name: seq<byte>)
    requires Parts(image, boot, inodes, data) && e < 63 && NulFree(name) && |name| <= 32
    requires boot[64 * (e + 1)..64 * (e + 1) + 32] == name + Fill(32 - |name|, 0)
    ensures EntryBytes(image, e) == boot[64 * (e + 1)..64 * (e + 2)]
    ensures EntryName(image, e) == name
  {
    WhereParts(image, boot, inodes, data);
    hide Parts, Little;
    var bytes, at := EntryBytes(image, e), 64 * (e + 1);
    forall d | 0 <= d < 64 ensures bytes[d] == boot[at..at + 64][d] {
      assert image[0..4096][at + d] == image[at + d] && boot[at..at + 64][d] == boot[at + d];
    }
    assert bytes == boot[at..at + 64];
    assert bytes[..32] == boot[at..at + 32];
    assert Prefix32(bytes) == name + Fill(32 - |name|, 0);
    CStringOf(name, Fill(32 - |name|, 0));
  }

  lemma CountsAreRead(image: seq<byte>, boot: seq<byte>, inodes: seq<byte>, data: seq<byte>)
    requires Parts(image, boot, inodes, data)
    ensures EntryCount(image) == Little(boot, 0) && InodeCount(image) == Little(boot, 4)
  {
    WhereParts(image, boot, inodes, data);
    WordOf(image, boot, 0, 0);
    WordOf(image, boot, 0, 4);
  }

  // ---------------------------------------------------------------- an image built from files

  datatype File = File(name: seq<byte>, fileType: nat, contents: seq<byte>)

  predicate CanBuild(files: seq<File>) {
    && |files| <= 63
    && forall k :: 0 <= k < |files| ==>
         && NulFree(files[k].name) && |files[k].name| <= 32 && files[k].fileType < 0x1_0000_0000
         && |files[k].contents| <= 1023 * 4096
  }

  /** A number in four bytes, the lowest first. */
  function Bytes4(w: nat): (b: seq<byte>)
    ensures |b| == 4
  {
    [w % 256, w / 256 % 256, w / 65536 % 256, w / 16777216 % 256]
  }

  lemma Bytes4Back(w: nat)
    requires w < 0x1_0000_0000
    ensures Little(Bytes4(w), 0) == w
  {
  }

  function BlocksOf(file: File): nat { (|file.contents| + 4095) / 4096 }

  /** Number of the first data block of file k: the files lie one behind the other. */
  function FirstBlock(files: seq<File>, k: nat): nat
    requires k <= |files|
  {
    if k == 0 then 0 else FirstBlock(files, k - 1) + BlocksOf(files[k - 1])
  }

  function Entry64(files: seq<File>, k: nat): (b: seq<byte>)
    requires CanBuild(files) && k < |files|
    ensures |b| == 64
  {
    files[k].name + Fill(32 - |files[k].name|, 0) + Bytes4(files[k].fileType) + Bytes4(k) + Fill(24, 0)
  }

  function BlockNumbers(first: nat, n: nat): (b: seq<byte>)
    ensures |b| == 4 * n
  {
    seq<byte>(4 * n, i requires 0 <= i < 4 * n => Bytes4(first + i / 4)[i % 4])
  }

  function Inode4096(files: seq<File>, k: nat): (b: seq<byte>)
    requires CanBuild(files) && k < |files|
    ensures |b| == 4096
  {
    var n := BlocksOf(files[k]);
    Bytes4(|files[k].contents|) + BlockNumbers(FirstBlock(files, k), n) + Fill(4092 - 4 * n, 0)
  }

  function BootBlock(files: seq<File>): (b: seq<byte>)
    requires CanBuild(files)
    ensures |b| == 4096
  {
    var n := |files|;
    Bytes4(n) + Bytes4(n) + Bytes4(FirstBlock(files, n)) + Fill(52, 0) +
      seq<byte>(64 * n, i requires 0 <= i < 64 * n => Entry64(files, i / 64)[i % 64]) + Fill(4032 - 64 * n, 0)
  }

  function Inodes(files: seq<File>): (b: seq<byte>)
    requires CanBuild(files)
    ensures |b| == 4096 * |files|
  {
    seq<byte>(4096 * |files|, i requires 0 <= i < 4096 * |files| => Inode4096(files, i / 4096)[i % 4096])
  }

  function Padded(file: File): (b: seq<byte>)
    ensures |b| == 4096 * BlocksOf(file)
  {
    file.contents + Fill(4096 * BlocksOf(file) - |file.contents|, 0)
  }

  function Data(files: seq<File>): seq<byte> {
    if files == [] then [] else Data(files[..|files| - 1]) + Padded(files[|files| - 1])
  }

  function Build(files: seq<File>): seq<byte>
    requires CanBuild(files)
  {
    BootBlock(files) + Inodes(files) + Data(files)
  }

  lemma {:induction false} DataHolds(files: seq<File>, k: nat, j: nat)
    requires k < |files| && j < |files[k].contents|
    ensures 4096 * FirstBlock(files, k) + j < |Data(files)|
    ensures Data(files)[4096 * FirstBlock(files, k) + j] == files[k].contents[j]
    decreases |files|
  {
    hide FirstBlock, BlocksOf, Padded;
    var n := |files| - 1;
    DataSize(files[..n]);
    FirstOfPrefix(files, n, k);
    if k < n {
      DataHolds(files[..n], k, j);
    } else {
      PaddedHolds(files[k], j);
    }
  }

  lemma PaddedHolds(file: File, j: nat)
    requires j < |file.contents|
    ensures j < |Padded(file)| && Padded(file)[j] == file.contents[j]
  {
  }

  lemma {:induction false} DataSize(files: seq<File>)
    ensures |Data(files)| == 4096 * FirstBlock(files, |files|)
    decreases |files|
  {
    hide BlocksOf, Padded;
    if files != [] {
      var n := |files| - 1;
      DataSize(files[..n]);
      FirstOfPrefix(files, n, n);
      assert |Padded(files[n])| == 4096 * BlocksOf(files[n]);
    }
  }

  lemma {:induction false} FirstOfPrefix(files: seq<File>, n: nat, k: nat)
    requires k <= n <= |files|
    ensures FirstBlock(files[..n], k) == FirstBlock(files, k)
  {
    if k > 0 {
      FirstOfPrefix(files, n, k - 1);
    }
  }

  lemma {:induction false} FirstGrows(files: seq<File>, k: nat)
    requires CanBuild(files) && k <= |files|
    ensures FirstBlock(files, k) <= 1023 * k
  {
    if k > 0 {
      FirstGrows(files, k - 1);
    }
  }

  lemma LittleOf(b: seq<byte>, at: nat, w: nat)
    requires at + 4 <= |b| && b[at..at + 4] == Bytes4(w) && w < 0x1_0000_0000
    ensures Little(b, at) == w
  {
    Bytes4Back(w);
    hide Bytes4;
    var four := b[at..at + 4];
    assert four[0] == b[at] && four[1] == b[at + 1] && four[2] == b[at + 2] && four[3] == b[at + 3];
  }

  lemma SlicePart(a: seq<byte>, b: seq<byte>, c: seq<byte>)
    ensures (a + b + c)[|a|..|a| + |b|] == b
  {
  }

  /** The inode of file k holds its length and block numbers. */
  lemma InodeHolds(files: seq<File>, k: nat)
    requires CanBuild(files) && k < |files|
    ensures var node := Inode4096(files, k); var n := BlocksOf(files[k]);
            && n <= 1023 && Little(node, 0) == |files[k].contents|
            && forall m :: 0 <= m < n ==> Little(node, 4 + 4 * m) == FirstBlock(files, k) + m
  {
    hide Bytes4, Little, FirstBlock;
    var node, n := Inode4096(files, k), BlocksOf(files[k]);
    var length, numbers := Bytes4(|files[k].contents|), BlockNumbers(FirstBlock(files, k), n);
    assert node[0..4] == length;
    LittleOf(node, 0, |files[k].contents|);
    SlicePart(length, numbers, Fill(4092 - 4 * n, 0));
    FirstGrows(files, k);
    forall m | 0 <= m < n ensures Little(node, 4 + 4 * m) == FirstBlock(files, k) + m {
      NumberAt(FirstBlock(files, k), n, m);
      assert node[4..4 + 4 * n][4 * m..4 * m + 4] == node[4 + 4 * m..4 + 4 * m + 4];
      LittleOf(node, 4 + 4 * m, FirstBlock(files, k) + m);
    }
  }

  lemma NumberAt(first: nat, n: nat, m: nat)
    requires m < n
    ensures BlockNumbers(first, n)[4 * m..4 * m + 4] == Bytes4(first + m)
  {
    hide Bytes4;
    var b := BlockNumbers(first, n);
    var four, w := b[4 * m..4 * m + 4], Bytes4(first + m);
    forall d | 0 <= d < 4 ensures four[d] == w[d] {
      assert (4 * m + d) / 4 == m && (4 * m + d) % 4 == d;
    }
  }

  lemma InodesHold(files: seq<File>, k: nat)
    requires CanBuild(files) && k < |files|
    ensures Inodes(files)[4096 * k..4096 * (k + 1)] == Inode4096(files, k)
  {
    hide Inode4096;
    var b := Inodes(files);
    forall d | 0 <= d < 4096 ensures b[4096 * k..4096 * (k + 1)][d] == Inode4096(files, k)[d] {
      assert (4096 * k + d) / 4096 == k && (4096 * k + d) % 4096 == d;
    }
  }

  lemma BootHolds(files: seq<File>, k: nat)
    requires CanBuild(files) && k < |files|
    ensures BootBlock(files)[64 * (k + 1)..64 * (k + 2)] == Entry64(files, k)
  {
    hide Entry64, Bytes4, FirstBlock;
    var n := |files|;
    var head := Bytes4(n) + Bytes4(n) + Bytes4(FirstBlock(files, n)) + Fill(52, 0);
    var entries := seq<byte>(64 * n, i requires 0 <= i < 64 * n => Entry64(files, i / 64)[i % 64]);
    var boot := BootBlock(files);
    assert boot == head + entries + Fill(4032 - 64 * n, 0);
    forall d | 0 <= d < 64 ensures boot[64 * (k + 1)..64 * (k + 2)][d] == Entry64(files, k)[d] {
      assert (64 * k + d) / 64 == k && (64 * k + d) % 64 == d;
      assert boot[64 * (k + 1) + d] == entries[64 * k + d];
    }
  }

  lemma BootCounts(files: seq<File>)
    requires CanBuild(files)
    ensures Little(BootBlock(files), 0) == |files| && Little(BootBlock(files), 4) == |files|
  {
    hide Entry64, Bytes4, FirstBlock, Little;
    var boot := BootBlock(files);
    assert boot[0..4] == Bytes4(|files|) && boot[4..8] == Bytes4(|files|);
    LittleOf(boot, 0, |files|);
    LittleOf(boot, 4, |files|);
  }

  lemma BuildHasParts(files: seq<File>)
    requires CanBuild(files)
    ensures Parts(Build(files), BootBlock(files), Inodes(files), Data(files))
  {
    hide BootBlock, Inodes, Data, Little;
    BootCounts(files);
  }

  function Numbers(first: nat, n: nat): (r: seq<nat>)
    ensures |r| == n && forall k :: 0 <= k < n ==> r[k] == first + k
  {
    seq<nat>(n, k requires 0 <= k < n => first + k)
  }

  lemma BuildStores(files: seq<File>, k: nat)
    requires CanBuild(files) && k < |files|
    ensures Stored(Inodes(files), Data(files), k, files[k].contents, Numbers(FirstBlock(files, k), BlocksOf(files[k])))
  {
    hide Inodes, Data, Inode4096, Little, FirstBlock;
    var n, first := BlocksOf(files[k]), FirstBlock(files, k);
    var node := Inode4096(files, k);
    InodeHolds(files, k);
    InodesHold(files, k);
    LittleInNode(Inodes(files), k, node, 0);
    forall m | 0 <= m < n ensures Little(Inodes(files), 4096 * k + 4 + 4 * m) == first + m {
      LittleInNode(Inodes(files), k, node, 4 + 4 * m);
    }
    var blocks, file := Numbers(first, n), files[k].contents;
    forall j | 0 <= j < |file|
      ensures var at := 4096 * blocks[j / 4096] + j % 4096; at < |Data(files)| && Data(files)[at] == file[j]
    {
      DataHolds(files, k, j);
      assert blocks[j / 4096] == first + j / 4096;
      assert 4096 * (first + j / 4096) + j % 4096 == 4096 * first + j;
    }
    assert Little(Inodes(files), 4096 * k + 0) == |file|;
  }

  lemma LittleInNode(inodes: seq<byte>, k: nat, node: seq<byte>, at: nat)
    requires 4096 * (k + 1) <= |inodes| && inodes[4096 * k..4096 * (k + 1)] == node && at + 4 <= 4096
    ensures Little(inodes, 4096 * k + at) == Little(node, at)
  {
    var here := inodes[4096 * k..4096 * (k + 1)];
    assert here[at] == inodes[4096 * k + at] && here[at + 1] == inodes[4096 * k + at + 1];
    assert here[at + 2] == inodes[4096 * k + at + 2] && here[at + 3] == inodes[4096 * k + at + 3];
  }

  lemma EntryParts(files: seq<File>, k: nat)
    requires CanBuild(files) && k < |files|
    ensures var b := Entry64(files, k);
            && b[..32] == files[k].name + Fill(32 - |files[k].name|, 0)
            && Little(b, 32) == files[k].fileType && Little(b, 36) == k
  {
    hide Bytes4, Little;
    var b := Entry64(files, k);
    assert b[32..36] == Bytes4(files[k].fileType) && b[36..40] == Bytes4(k);
    LittleOf(b, 32, files[k].fileType);
    LittleOf(b, 36, k);
  }

  /** An image built from files gives them back: as many entries as files, each with its file's name, type and inode,
      and from that inode every read within the length delivers that part of the contents, without leaving the image. */
  lemma BuiltIsRead(files: seq<File>, k: nat)
    requires CanBuild(files) && k < |files|
    ensures var image := Build(files); var file := files[k];
            && EntryCount(image) == |files| && EntryName(image, k) == file.name
            && Little(EntryBytes(image, k), 32) == file.fileType && Little(EntryBytes(image, k), 36) == k
            && FileLength(image, k) == |file.contents| && Contents(image, k) == file.contents
            && forall offset: nat, n: nat :: offset + n <= |file.contents| ==>
                 InImage(image, k, offset, n) && ReadData(image, k, offset, n) == file.contents[offset..offset + n]
  {
    hide Parts, Stored, Build, BootBlock, Inodes, Data, Entry64, Little, FirstBlock, BlocksOf, InImage, Contents,
         ReadData, FileLength, EntryName, EntryBytes, EntryCount, Numbers;
    var image, boot, inodes, data := Build(files), BootBlock(files), Inodes(files), Data(files);
    var blocks := Numbers(FirstBlock(files, k), BlocksOf(files[k]));
    BuildHasParts(files);
    BuildStores(files, k);
    StoredIsRead(image, boot, inodes, data, k, files[k].contents, blocks);
    forall offset: nat, n: nat | offset + n <= |files[k].contents| ensures InImage(image, k, offset, n) {
      StoredIsCovered(image, boot, inodes, data, k, files[k].contents, blocks, offset, n);
    }
    CountsAreRead(image, boot, inodes, data);
    BootCounts(files);
    BootHolds(files, k);
    EntryParts(files, k);
    assert boot[64 * (k + 1)..64 * (k + 2)][..32] == boot[64 * (k + 1)..64 * (k + 1) + 32];
    EntryIsRead(image, boot, inodes, data, k, files[k].name);
  }

  /** Looking a built file up by its name finds an entry with that name, its own when no other file before it has it. */
  lemma BuiltIsFound(files: seq<File>, k: nat)
    requires CanBuild(files) && k < |files|
    ensures EntryCount(Build(files)) == |files|
    ensures var e := FindFrom(Build(files), files[k].name + [0], 0);
            && e <= k && files[e].name == files[k].name && forall j :: 0 <= j < e ==> files[j].name != files[k].name
  {
    hide Build, EntryName, EntryCount, Contents, InImage, ReadData, FileLength, EntryBytes, Little, Filesys.Cut;
    BuiltIsRead(files, k);
    CutOfListed(files[k].name);
    var e := FindFrom(Build(files), files[k].name + [0], 0);
    BuiltIsRead(files, e);
    forall j | 0 <= j < e ensures files[j].name != files[k].name {
      BuiltIsRead(files, j);
    }
  }
}
