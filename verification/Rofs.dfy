/**
 * The read-only file system image (rofs.c).  A file is a list of 4096-byte blocks scattered
 * over the image; `Flat` is the file as one sequence of bytes.
 */
module Rofs {
  import opened Bytes
  import opened Limits

  const FILE_NAME_LENGTH := 32
  const MAX_DENTRIES := 63
  const MAX_BLOCKS := 1023
  const BLOCK_SIZE := 4096

  const TYPE_RTC := 0
  const TYPE_DIR := 1
  const TYPE_FILE := 2

  datatype Dentry = Dentry(name: seq<Byte>, fileType: nat, inode: nat)
  datatype Inode = Inode(length: nat, dataBlocks: seq<nat>)
  datatype Image = Image(numDirEntries: nat, dentries: seq<Dentry>, inodes: seq<Inode>, blocks: seq<seq<Byte>>)

  predicate InodeOk(node: Inode, blocks: seq<seq<Byte>>) {
    && |node.dataBlocks| == MAX_BLOCKS
    && node.length <= MAX_BLOCKS * BLOCK_SIZE
    && forall k :: 0 <= k < MAX_BLOCKS && k * BLOCK_SIZE < node.length ==> node.dataBlocks[k] < |blocks|
  }

  /** The boot block and inodes point at things that exist. */
  predicate WellFormed(img: Image) {
    && img.numDirEntries <= |img.dentries| == MAX_DENTRIES
    && (forall i :: 0 <= i < MAX_DENTRIES ==> |img.dentries[i].name| == FILE_NAME_LENGTH)
    && (forall i :: 0 <= i < img.numDirEntries && img.dentries[i].fileType == TYPE_FILE ==>
          img.dentries[i].inode < |img.inodes|)
    && (forall i :: 0 <= i < |img.inodes| ==> InodeOk(img.inodes[i], img.blocks))
    && (forall b :: 0 <= b < |img.blocks| ==> |img.blocks[b]| == BLOCK_SIZE)
  }

  // ----- file contents -----

  /** The first `n` bytes of a file, block after block. */
  function Joined(img: Image, node: Inode, n: nat): (t: seq<Byte>)
    requires WellFormed(img) && InodeOk(node, img.blocks) && n <= node.length
    ensures |t| == n
    decreases n
  {
    if n == 0 then []
    else
      var k := (n - 1) / BLOCK_SIZE;
      Joined(img, node, k * BLOCK_SIZE) + img.blocks[node.dataBlocks[k]][..n - k * BLOCK_SIZE]
  }

  /** The file as one flat sequence. */
  function Flat(img: Image, inode: nat): (t: seq<Byte>)
    requires WellFormed(img) && inode < |img.inodes|
    ensures |t| == img.inodes[inode].length
  {
    Joined(img, img.inodes[inode], img.inodes[inode].length)
  }

  /** Byte `i` of a file is byte `i % 4096` of its block number `i / 4096`. */
  lemma {:induction false} JoinedAt(img: Image, node: Inode, n: nat, i: nat)
    requires WellFormed(img) && InodeOk(node, img.blocks) && i < n <= node.length
    ensures node.dataBlocks[i / BLOCK_SIZE] < |img.blocks|
    ensures Joined(img, node, n)[i] == img.blocks[node.dataBlocks[i / BLOCK_SIZE]][i % BLOCK_SIZE]
    decreases n
  {
    var k := (n - 1) / BLOCK_SIZE;
    assert (i / BLOCK_SIZE) * BLOCK_SIZE <= i;
    if i < k * BLOCK_SIZE {
      JoinedAt(img, node, k * BLOCK_SIZE, i);
    } else {
      assert i / BLOCK_SIZE == k;
    }
  }

  /** What a read of `length` bytes at `offset` yields; `None` is the error return. */
  function Slice(img: Image, inode: nat, offset: nat, length: nat): (r: Option<seq<Byte>>)
    requires WellFormed(img)
    ensures r.Some? ==> |r.value| <= length
  {
    if inode < |img.inodes| && offset <= img.inodes[inode].length then
      var end := Min(offset + length, img.inodes[inode].length);
      Some(Flat(img, inode)[offset..end])
    else None
  }

  /** A read fails only for a missing inode or an offset behind the end, and is cut at the end. */
  lemma {:induction false} SliceLength(img: Image, inode: nat, offset: nat, length: nat)
    requires WellFormed(img)
    ensures Slice(img, inode, offset, length).None? <==>
      inode >= |img.inodes| || offset > img.inodes[inode].length
    ensures var s := Slice(img, inode, offset, length);
            s.Some? ==> |s.value| == if offset + length <= img.inodes[inode].length then length
                                     else img.inodes[inode].length - offset
  {
  }

  /** Byte `i` of a file is byte `i % 4096` of the block that entry `i / 4096` of its inode names. */
  lemma {:induction false} FlatAt(img: Image, inode: nat, i: nat)
    requires WellFormed(img) && inode < |img.inodes| && i < img.inodes[inode].length
    ensures var node := img.inodes[inode];
            && i / 4096 < |node.dataBlocks| && node.dataBlocks[i / 4096] < |img.blocks|
            && var block := img.blocks[node.dataBlocks[i / 4096]];
               i % 4096 < |block| && Flat(img, inode)[i] == block[i % 4096]
  {
    var node := img.inodes[inode];
    JoinedAt(img, node, node.length, i);
    assert (i / 4096) * 4096 <= i;
  }

  /** Byte `i` of such a slice is where the block numbers of the inode say. */
  lemma {:induction false} SliceAt(img: Image, inode: nat, offset: nat, length: nat, i: nat)
    requires WellFormed(img) && Slice(img, inode, offset, length).Some? && i < |Slice(img, inode, offset, length).value|
    ensures inode < |img.inodes| && (i + offset) / BLOCK_SIZE < |img.inodes[inode].dataBlocks|
    ensures var b := img.inodes[inode].dataBlocks[(i + offset) / BLOCK_SIZE];
            b < |img.blocks| && (i + offset) % BLOCK_SIZE < |img.blocks[b]|
            && Slice(img, inode, offset, length).value[i] == img.blocks[b][(i + offset) % BLOCK_SIZE]
  {
    var node := img.inodes[inode];
    JoinedAt(img, node, node.length, i + offset);
    assert (i + offset) / BLOCK_SIZE < MAX_BLOCKS;
  }

  /**
   * read_data.  The sum `offset + length` is a 32-bit one; callers keep it from wrapping.
   * `buf` and `at` are the C pointer `buf + at`.
   */
  method ReadData(img: Image, inode: nat, offset: nat, buf: array<Byte>, at: nat, length: nat) returns (r: int)
    requires WellFormed(img) && offset + length < TWO_TO_32
    requires var s := Slice(img, inode, offset, length); s.Some? ==> at + |s.value| <= buf.Length
    modifies buf
    ensures match Slice(img, inode, offset, length)
      case None => r == -1 && buf[..] == old(buf[..])
      case Some(data) => r == |data| && buf[..] == Written(old(buf[..]), at, data)
  {
    if inode >= |img.inodes| {
      return -1;
    }
    var node := img.inodes[inode];
    if offset > node.length {
      return -1;
    }
    var count := length;
    if (offset + length) % TWO_TO_32 > node.length {
      count := node.length - offset;
    }
    ghost var data := Slice(img, inode, offset, length).value;
    assert |data| == count;
    hide Joined, WellFormed, InodeOk;
    var i := 0;
    while i < count
      invariant 0 <= i <= count
      invariant forall k {:trigger buf[k]} :: 0 <= k < buf.Length ==>
        buf[k] == if at <= k < at + i then data[k - at] else old(buf[k])
    {
      SliceAt(img, inode, offset, length, i);
      var block := (i + offset) / BLOCK_SIZE;
      var blockOffset := (i + offset) % BLOCK_SIZE;
      buf[at + i] := img.blocks[node.dataBlocks[block]][blockOffset];
      i := i + 1;
    }
    return i;
  }

  // ----- names -----

  /** The name of an entry as a string; a name of 32 characters has no terminator. */
  function NameOf(d: Dentry): (s: seq<Byte>)
    ensures |s| <= FILE_NAME_LENGTH && Lacks(s, NUL)
  {
    Clip(d.name, FILE_NAME_LENGTH)
  }

  predicate Named(img: Image, i: nat, fname: seq<Byte>)
    requires WellFormed(img) && i < img.numDirEntries
  {
    NameOf(img.dentries[i]) == Clip(fname, FILE_NAME_LENGTH)
  }

  /**
   * A name names an entry when both read the same up to their terminators, or up to 32
   * characters, whichever comes first.
   */
  lemma {:induction false} NamedIs(img: Image, i: nat, fname: seq<Byte>)
    requires WellFormed(img) && i < img.numDirEntries
    ensures Named(img, i, fname) <==>
      forall j :: 0 <= j < 32 ==>
        SameSoFar(img.dentries[i].name, fname, j) ==> CharAt(img.dentries[i].name, j) == CharAt(fname, j)
  {
    var a, b := img.dentries[i].name, fname;
    var n := FirstDifference(a, b, 32);
    AgreeClips(a, b, n, 32);
    if n < 32 && CharAt(a, n) != CharAt(b, n) {
      assert SameSoFar(a, b, n);
    } else {
      forall j | 0 <= j < 32 && SameSoFar(a, b, j) ensures CharAt(a, j) == CharAt(b, j) {
        if j > n {
          assert false;
        }
      }
    }
  }

  /** No difference and no terminator in front of character `j`. */
  predicate SameSoFar(a: seq<Byte>, b: seq<Byte>, j: nat) {
    forall k :: 0 <= k < j ==> CharAt(a, k) == CharAt(b, k) != 0
  }

  function FirstDifference(a: seq<Byte>, b: seq<Byte>, n: nat): (i: nat)
    ensures i <= n && AgreeBefore(a, b, i)
    ensures i < n ==> CharAt(a, i) != CharAt(b, i) || CharAt(a, i) == NUL
    decreases n
  {
    if n == 0 then 0
    else
      var i := FirstDifference(a, b, n - 1);
      if i < n - 1 then i
      else if CharAt(a, i) == CharAt(b, i) != NUL then n else i
  }

  /** The first entry whose name agrees with `fname` on 32 characters. */
  ghost function Lookup(img: Image, fname: seq<Byte>): (r: Option<nat>)
    requires WellFormed(img)
    ensures r.Some? ==> r.value < img.numDirEntries && Named(img, r.value, fname)
    ensures r.Some? ==> forall i :: 0 <= i < r.value ==> !Named(img, i, fname)
    ensures r.None? ==> forall i :: 0 <= i < img.numDirEntries ==> !Named(img, i, fname)
  {
    LookupFrom(img, fname, 0)
  }

  ghost function LookupFrom(img: Image, fname: seq<Byte>, k: nat): (r: Option<nat>)
    requires WellFormed(img) && k <= img.numDirEntries
    ensures r.Some? ==> k <= r.value < img.numDirEntries && Named(img, r.value, fname)
    ensures r.Some? ==> forall i :: k <= i < r.value ==> !Named(img, i, fname)
    ensures r.None? ==> forall i :: k <= i < img.numDirEntries ==> !Named(img, i, fname)
    decreases img.numDirEntries - k
  {
    if k == img.numDirEntries then None
    else if Named(img, k, fname) then Some(k)
    else LookupFrom(img, fname, k + 1)
  }

  /** read_dentry_by_name: 0 and the first entry of that name, or -1. */
  method ReadDentryByName(img: Image, fname: seq<Byte>) returns (r: int, dentry: Dentry)
    requires WellFormed(img)
    ensures r == 0 || r == -1
    ensures r == 0 <==> Lookup(img, fname).Some?
    ensures r == 0 ==> dentry == img.dentries[Lookup(img, fname).value]
  {
    var i := 0;
    while i < img.numDirEntries
      invariant 0 <= i <= img.numDirEntries
      invariant forall k :: 0 <= k < i ==> !Named(img, k, fname)
    {
      var diff := Strncmp(fname, img.dentries[i].name, FILE_NAME_LENGTH);
      if diff == 0 {
        assert Named(img, i, fname);
        return 0, img.dentries[i];
      }
      i := i + 1;
    }
    return -1, Dentry([], 0, 0);
  }

  predicate DistinctNames(img: Image)
    requires WellFormed(img)
  {
    forall i, j :: 0 <= i < j < img.numDirEntries ==> NameOf(img.dentries[i]) != NameOf(img.dentries[j])
  }

  lemma {:induction false} ClipOfName(d: Dentry)
    ensures Clip(NameOf(d), FILE_NAME_LENGTH) == NameOf(d)
  {
    var s := NameOf(d);
    IndexOfIs(s, NUL, |s|);
    assert CString(s) == s;
  }

  /**
   * Looking an entry up by its own name finds that entry, for every entry, exactly when
   * the names are distinct.
   */
  lemma {:induction false} LookupInvertsNameOf(img: Image)
    requires WellFormed(img)
    ensures (forall i :: 0 <= i < img.numDirEntries ==> Lookup(img, NameOf(img.dentries[i])) == Some(i))
            <==> DistinctNames(img)
  {
    hide Clip, Lookup, NameOf;
    forall i | 0 <= i < img.numDirEntries ensures Named(img, i, NameOf(img.dentries[i])) {
      ClipOfName(img.dentries[i]);
    }
    if !DistinctNames(img) {
      var i, j :| 0 <= i < j < img.numDirEntries && NameOf(img.dentries[i]) == NameOf(img.dentries[j]);
      assert Named(img, i, NameOf(img.dentries[j]));
      assert Lookup(img, NameOf(img.dentries[j])) != Some(j);
    } else {
      forall i | 0 <= i < img.numDirEntries ensures Lookup(img, NameOf(img.dentries[i])) == Some(i) {
        var r := Lookup(img, NameOf(img.dentries[i]));
        ClipOfName(img.dentries[i]);
        assert r.Some? && NameOf(img.dentries[r.value]) == NameOf(img.dentries[i]);
      }
    }
  }

  /** Only the first 32 characters of a requested name matter. */
  lemma {:induction false} LookupTruncates(img: Image, fname: seq<Byte>)
    requires WellFormed(img)
    ensures Lookup(img, fname) == Lookup(img, Clip(fname, FILE_NAME_LENGTH))
  {
    var c := Clip(fname, FILE_NAME_LENGTH);
    IndexOfIs(c, NUL, |c|);
    assert CString(c) == c && Clip(c, FILE_NAME_LENGTH) == c;
    assert forall i :: 0 <= i < img.numDirEntries ==> (Named(img, i, fname) <==> Named(img, i, c));
  }
}
