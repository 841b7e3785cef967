/**
 * A process's file descriptors (syscalls.c) over the read-only file system (rofs.c).
 * The functions give the effect of each call on the table; the class performs the calls.
 */
module FileTable {
  import opened Bytes
  import opened Rofs
  import opened Console

  const MAX_FILES := 8

  datatype FileOps = StdinOps | StdoutOps | RtcOps | DirOps | FileOps | FailOps

  datatype File = File(inode: nat, open: bool, pos: nat, ops: FileOps)

  // ----- the filter of file_read -----

  /** Printable characters, newlines and tabs stay; everything else becomes a blank. */
  function Visible(b: Byte): Byte {
    if (b < SPACE || b > TILDE) && b != NEWLINE && b != TAB then SPACE else b
  }

  function VisibleText(t: seq<Byte>): (r: seq<Byte>)
    ensures |r| == |t|
    ensures forall i :: 0 <= i < |t| ==> r[i] == Visible(t[i]) && r[i] != NUL
  {
    seq(|t|, i requires 0 <= i < |t| => Visible(t[i]))
  }

  /** A file as programs see it. */
  function Text(img: Image, inode: nat): (t: seq<Byte>)
    requires WellFormed(img) && inode < |img.inodes|
    ensures |t| == img.inodes[inode].length && Lacks(t, NUL)
  {
    VisibleText(Flat(img, inode))
  }

  /**
   * What a program sees of a file: every printable character, tab and newline is there, in
   * its place, and a blank in the place of every other byte.
   */
  lemma {:induction false} TextAt(img: Image, inode: nat, i: nat)
    requires WellFormed(img) && inode < |img.inodes| && i < img.inodes[inode].length
    ensures var b := Flat(img, inode)[i];
            Text(img, inode)[i] == if 32 <= b <= 126 || b == 9 || b == 10 then b else 32
  {
  }

  /** So a file of such bytes is seen as it is, and no other. */
  lemma {:induction false} TextIsFlatIff(img: Image, inode: nat)
    requires WellFormed(img) && inode < |img.inodes|
    ensures Text(img, inode) == Flat(img, inode) <==>
      forall i :: 0 <= i < img.inodes[inode].length ==>
        var b := Flat(img, inode)[i]; 32 <= b <= 126 || b == 9 || b == 10
  {
    forall i | 0 <= i < img.inodes[inode].length
      ensures var b := Flat(img, inode)[i];
              Text(img, inode)[i] == if 32 <= b <= 126 || b == 9 || b == 10 then b else 32
    {
      TextAt(img, inode, i);
    }
    if Text(img, inode) == Flat(img, inode) {
      assert forall i :: 0 <= i < img.inodes[inode].length ==> Text(img, inode)[i] == Flat(img, inode)[i];
    }
  }

  // ----- the table -----

  type Table = seq<File>

  /** What create_pcb sets up. */
  function NewTable(): (t: Table)
    ensures |t| == MAX_FILES
  {
    [File(0, true, 0, StdinOps), File(0, true, 0, StdoutOps)] + seq(MAX_FILES - 2, _ => File(0, false, 0, FailOps))
  }

  /** The descriptor part of create_pcb: 0 and 1 are open, and a loop closes the others. */
  method InitFiles() returns (files: Table)
    ensures files == NewTable()
    ensures |files| == 8 && forall fd :: 0 <= fd < 8 ==> (files[fd].open <==> fd < 2)
    ensures files[0].ops == StdinOps && files[1].ops == StdoutOps
  {
    files := [File(0, true, 0, StdinOps), File(0, true, 0, StdoutOps)];
    var i := 2;
    while i < MAX_FILES
      invariant 2 <= i <= MAX_FILES && files == NewTable()[..i]
    {
      files := files + [File(0, false, 0, FailOps)];
      i := i + 1;
    }
  }

  predicate FileOk(img: Image, f: File)
    requires WellFormed(img)
  {
    match f.ops
    case RtcOps => true
    case DirOps => f.pos <= img.numDirEntries
    case FileOps => f.inode < |img.inodes| && f.pos <= img.inodes[f.inode].length
    case _ => false
  }

  /** The standard descriptors are open; the others stand at a place their file has. */
  predicate TableOk(img: Image, t: Table)
    requires WellFormed(img)
  {
    && |t| == MAX_FILES
    && t[0].open && t[0].ops == StdinOps
    && t[1].open && t[1].ops == StdoutOps
    && forall fd :: 2 <= fd < MAX_FILES && t[fd].open ==> FileOk(img, t[fd])
  }

  predicate IsOpen(t: Table, fd: int) {
    0 <= fd < |t| && t[fd].open
  }

  /** The least free descriptor from `fd` up, or MAX_FILES. */
  function FreeFrom(t: Table, fd: nat): (r: nat)
    requires |t| == MAX_FILES && fd <= MAX_FILES
    ensures fd <= r <= MAX_FILES
    ensures r < MAX_FILES ==> !t[r].open
    ensures forall k :: fd <= k < r ==> t[k].open
    decreases MAX_FILES - fd
  {
    if fd == MAX_FILES || !t[fd].open then fd else FreeFrom(t, fd + 1)
  }

  function OpsOf(fileType: nat): Option<FileOps> {
    if fileType == TYPE_RTC then Some(RtcOps)
    else if fileType == TYPE_DIR then Some(DirOps)
    else if fileType == TYPE_FILE then Some(FileOps)
    else None
  }

  /** The entry that opening `fname` would use. */
  ghost function Target(img: Image, fname: seq<Byte>): Option<Dentry>
    requires WellFormed(img)
  {
    var i := Lookup(img, fname);
    if i.None? || OpsOf(img.dentries[i.value].fileType).None? then None else Some(img.dentries[i.value])
  }

  /** The bytes a read of an open file or directory puts into the buffer. */
  function Fetched(img: Image, f: File, nbytes: nat): (s: seq<Byte>)
    requires WellFormed(img) && FileOk(img, f)
    ensures |s| <= nbytes
  {
    if f.ops.FileOps? then Text(img, f.inode)[f.pos..Min(f.pos + nbytes, img.inodes[f.inode].length)]
    else if f.ops.DirOps? && f.pos < img.numDirEntries then
      Padded(NameOf(img.dentries[f.pos]), Min(nbytes, FILE_NAME_LENGTH))
    else []
  }

  /** The count it returns; for a directory the length of the name, whatever was asked for. */
  function Count(img: Image, f: File, nbytes: nat): nat
    requires WellFormed(img) && FileOk(img, f)
  {
    if f.ops.FileOps? then |Fetched(img, f, nbytes)|
    else if f.ops.DirOps? && f.pos < img.numDirEntries then |NameOf(img.dentries[f.pos])|
    else 0
  }

  /** The file after that read. */
  function Advanced(img: Image, f: File, nbytes: nat): (g: File)
    requires WellFormed(img) && FileOk(img, f)
    ensures FileOk(img, g)
  {
    if f.ops.FileOps? then f.(pos := f.pos + |Fetched(img, f, nbytes)|)
    else if f.ops.DirOps? && f.pos < img.numDirEntries then f.(pos := f.pos + 1)
    else f
  }

  // ----- calls as steps, and runs of them -----

  datatype Call = Open(fname: seq<Byte>) | Close(fd: int) | Read(fd: int, nbytes: nat) | Write(fd: int)

  ghost function AfterOpen(img: Image, t: Table, fname: seq<Byte>): (r: (int, Table))
    requires WellFormed(img) && |t| == MAX_FILES
    ensures |r.1| == MAX_FILES
  {
    var slot: int := FreeFrom(t, 2);
    if Lookup(img, fname).None? || slot == MAX_FILES then (-1, t)
    else if Target(img, fname).None? then (-1, t[slot := t[slot].(pos := 0)])
    else
      var d := Target(img, fname).value;
      (slot, t[slot := File(d.inode, true, 0, OpsOf(d.fileType).value)])
  }

  ghost function AfterClose(t: Table, fd: int): (r: (int, Table))
    requires |t| == MAX_FILES
    ensures |r.1| == MAX_FILES
  {
    if IsOpen(t, fd) && (t[fd].ops.RtcOps? || t[fd].ops.DirOps? || t[fd].ops.FileOps?)
    then (0, t[fd := t[fd].(open := false)]) else (-1, t)
  }

  ghost function AfterRead(img: Image, t: Table, fd: int, nbytes: nat): (r: Table)
    requires WellFormed(img) && TableOk(img, t)
    ensures |r| == MAX_FILES
  {
    if 2 <= fd < MAX_FILES && t[fd].open then t[fd := Advanced(img, t[fd], nbytes)] else t
  }

  ghost function After(img: Image, t: Table, c: Call): (r: Table)
    requires WellFormed(img) && TableOk(img, t)
    ensures |r| == MAX_FILES
  {
    match c
    case Open(fname) => AfterOpen(img, t, fname).1
    case Close(fd) => AfterClose(t, fd).1
    case Read(fd, nbytes) => AfterRead(img, t, fd, nbytes)
    case Write(_) => t
  }

  /** Every call keeps the table in order. */
  lemma {:induction false} StepKeepsTable(img: Image, t: Table, c: Call)
    requires WellFormed(img) && TableOk(img, t)
    ensures TableOk(img, After(img, t, c))
  {
  }

  /** The table after a run of calls. */
  ghost function AfterAll(img: Image, t: Table, cs: seq<Call>): (r: Table)
    requires WellFormed(img) && TableOk(img, t)
    ensures TableOk(img, r)
    decreases |cs|
  {
    if cs == [] then t else StepKeepsTable(img, t, cs[0]); AfterAll(img, After(img, t, cs[0]), cs[1..])
  }

  /** The open descriptors. */
  ghost function OpenSet(t: Table): set<int> {
    set fd | 0 <= fd < |t| && t[fd].open
  }

  /** open takes the least free descriptor from 2 up, or fails and changes no open set. */
  lemma {:induction false} OpenTakesLeast(img: Image, t: Table, fname: seq<Byte>)
    requires WellFormed(img) && TableOk(img, t)
    ensures var (r, u) := AfterOpen(img, t, fname);
            && (r == -1 <==> Target(img, fname).None? || forall fd :: 2 <= fd < MAX_FILES ==> fd in OpenSet(t))
            && (r != -1 ==> 2 <= r < MAX_FILES && r !in OpenSet(t) && (forall fd :: 2 <= fd < r ==> fd in OpenSet(t)))
            && OpenSet(u) == OpenSet(t) + (if r == -1 then {} else {r})
  {
    var slot := FreeFrom(t, 2);
    assert slot < MAX_FILES ==> slot !in OpenSet(t);
    assert forall fd :: 2 <= fd < slot ==> fd in OpenSet(t);
  }

  /** close succeeds exactly on the open descriptors from 2 up. */
  lemma {:induction false} CloseExactly(img: Image, t: Table, fd: int)
    requires WellFormed(img) && TableOk(img, t)
    ensures var (r, u) := AfterClose(t, fd);
            && (r == 0 <==> 2 <= fd && fd in OpenSet(t)) && (r == 0 || r == -1)
            && OpenSet(u) == OpenSet(t) - (if r == 0 then {fd} else {})
  {
  }

  /** After a successful open, closing the descriptor gives back the open set. */
  lemma {:induction false} CloseUndoesOpen(img: Image, t: Table, fname: seq<Byte>)
    requires WellFormed(img) && TableOk(img, t) && AfterOpen(img, t, fname).0 != -1
    ensures var (fd, u) := AfterOpen(img, t, fname);
            AfterClose(u, fd).0 == 0 && OpenSet(AfterClose(u, fd).1) == OpenSet(t)
  {
    var (fd, u) := AfterOpen(img, t, fname);
    StepKeepsTable(img, t, Open(fname));
    OpenTakesLeast(img, t, fname);
    CloseExactly(img, u, fd);
  }

  /** A new process has the keyboard at 0, the screen at 1, and nothing else. */
  lemma {:induction false} NewTableIsClosed()
    ensures OpenSet(NewTable()) == {0, 1} && |NewTable()| == 8
    ensures NewTable()[0].ops == StdinOps && NewTable()[1].ops == StdoutOps
    ensures forall fd :: 2 <= fd < 8 ==> !NewTable()[fd].open
  {
  }

  /**
   * What a successful open writes down, and for which entries it succeeds: clock, directory
   * and file have types 0 to 2.
   */
  lemma {:induction false} OpenWrites(img: Image, t: Table, fname: seq<Byte>)
    requires WellFormed(img) && TableOk(img, t)
    ensures var (r, u) := AfterOpen(img, t, fname);
            var i := Lookup(img, fname);
            && (r != -1 ==> i.Some? && 2 <= r < 8 && !t[r].open)
            && (r != -1 ==> var d := img.dentries[i.value];
                  && u[r].open && u[r].pos == 0 && u[r].inode == d.inode
                  && (d.fileType == 0 ==> u[r].ops == RtcOps) && (d.fileType == 1 ==> u[r].ops == DirOps)
                  && (d.fileType == 2 ==> u[r].ops == FileOps) && d.fileType <= 2)
            && (i.Some? && img.dentries[i.value].fileType <= 2 && (exists fd :: 2 <= fd < 8 && !t[fd].open) ==> r != -1)
            && forall fd :: 0 <= fd < 8 && (fd != r) && t[fd].open ==> u[fd] == t[fd]
  {
  }

  /** The first file that a new process opens gets descriptor 2. */
  lemma {:induction false} FirstOpenIsTwo(img: Image, fname: seq<Byte>)
    requires WellFormed(img)
    ensures TableOk(img, NewTable()) && AfterOpen(img, NewTable(), fname).0 in {-1, 2}
    ensures AfterOpen(img, NewTable(), fname).0 == 2 <==>
      var i := Lookup(img, fname); i.Some? && img.dentries[i.value].fileType <= 2
  {
    OpenWrites(img, NewTable(), fname);
    OpenTakesLeast(img, NewTable(), fname);
    assert 2 !in OpenSet(NewTable());
  }

  // ----- the result of many reads does not depend on their sizes -----

  function Sum(sizes: seq<nat>): nat {
    if sizes == [] then 0 else sizes[0] + Sum(sizes[1..])
  }

  /** The concatenation of what consecutive reads fetch. */
  function FetchedAll(img: Image, f: File, sizes: seq<nat>): seq<Byte>
    requires WellFormed(img) && FileOk(img, f)
    decreases |sizes|
  {
    if sizes == [] then [] else Fetched(img, f, sizes[0]) + FetchedAll(img, Advanced(img, f, sizes[0]), sizes[1..])
  }

  /** Consecutive pieces of a text, of given sizes. */
  function Pieces(t: seq<Byte>, pos: nat, sizes: seq<nat>): seq<Byte>
    requires pos <= |t|
    decreases |sizes|
  {
    if sizes == [] then []
    else
      var end := Min(pos + sizes[0], |t|);
      t[pos..end] + Pieces(t, end, sizes[1..])
  }

  lemma {:induction false} PiecesJoin(t: seq<Byte>, pos: nat, sizes: seq<nat>)
    requires pos <= |t|
    ensures Pieces(t, pos, sizes) == t[pos..Min(pos + Sum(sizes), |t|)]
    decreases |sizes|
  {
    if sizes != [] {
      var end, last := Min(pos + sizes[0], |t|), Min(pos + Sum(sizes), |t|);
      PiecesJoin(t, end, sizes[1..]);
      assert Min(end + Sum(sizes[1..]), |t|) == last;
      assert t[pos..end] + t[end..last] == t[pos..last];
    }
  }

  lemma {:induction false} FetchedIs(img: Image, f: File, nbytes: nat)
    requires WellFormed(img) && FileOk(img, f) && f.ops.FileOps?
    ensures var t, g := Text(img, f.inode), Advanced(img, f, nbytes);
            && g == f.(pos := Min(f.pos + nbytes, |t|))
            && Fetched(img, f, nbytes) == t[f.pos..g.pos]
  {
  }

  /** The bytes that a read of a file delivers, as they are in the image. */
  lemma {:induction false} FetchedAt(img: Image, f: File, nbytes: nat, i: nat)
    requires WellFormed(img) && FileOk(img, f) && f.ops.FileOps? && i < |Fetched(img, f, nbytes)|
    ensures f.pos + i < img.inodes[f.inode].length
    ensures var b := Flat(img, f.inode)[f.pos + i];
            Fetched(img, f, nbytes)[i] == if 32 <= b <= 126 || b == 9 || b == 10 then b else 32
  {
    hide Text;
    TextAt(img, f.inode, f.pos + i);
  }

  lemma {:induction false} FetchedAllIsPieces(img: Image, f: File, sizes: seq<nat>, t: seq<Byte>)
    requires WellFormed(img) && FileOk(img, f) && f.ops.FileOps? && t == Text(img, f.inode)
    ensures FetchedAll(img, f, sizes) == Pieces(t, f.pos, sizes)
    decreases |sizes|
  {
    hide WellFormed, Text, Fetched;
    if sizes != [] {
      var g := Advanced(img, f, sizes[0]);
      FetchedIs(img, f, sizes[0]);
      assert g.pos == Min(f.pos + sizes[0], |t|);
      FetchedAllIsPieces(img, g, sizes[1..], t);
    }
  }

  /** Reads of any sizes, one after the other, yield the file from where they started. */
  lemma {:induction false} ReadsAddUp(img: Image, f: File, sizes: seq<nat>)
    requires WellFormed(img) && FileOk(img, f) && f.ops.FileOps?
    ensures FetchedAll(img, f, sizes)
         == Text(img, f.inode)[f.pos..Min(f.pos + Sum(sizes), img.inodes[f.inode].length)]
  {
    hide WellFormed, Text, Fetched, Pieces, FetchedAll;
    FetchedAllIsPieces(img, f, sizes, Text(img, f.inode));
    PiecesJoin(Text(img, f.inode), f.pos, sizes);
  }

  /** The names that consecutive 32-byte reads of a directory return, and then nothing for ever. */
  lemma {:induction false} DirectoryInOrder(img: Image, f: File, n: nat)
    requires WellFormed(img) && FileOk(img, f) && f.ops.DirOps?
    ensures var g, i := AdvancedBy(img, f, n), f.pos + n;
            var cnt := Count(img, g, FILE_NAME_LENGTH);
            && g.ops.DirOps? && g.pos == Min(i, img.numDirEntries)
            && cnt == (if i < img.numDirEntries then |NameOf(img.dentries[i])| else 0)
            && (i < img.numDirEntries ==> Fetched(img, g, FILE_NAME_LENGTH)[..cnt] == NameOf(img.dentries[i]))
    decreases n
  {
    hide NameOf, Fetched, Count;
    if n > 0 {
      DirectoryInOrder(img, f, n - 1);
    }
    NameIsFetched(img, AdvancedBy(img, f, n));
  }

  lemma {:induction false} NameIsFetched(img: Image, f: File)
    requires WellFormed(img) && FileOk(img, f) && f.ops.DirOps?
    ensures var cnt := Count(img, f, FILE_NAME_LENGTH);
            && cnt == (if f.pos < img.numDirEntries then |NameOf(img.dentries[f.pos])| else 0)
            && (f.pos < img.numDirEntries ==> Fetched(img, f, FILE_NAME_LENGTH)[..cnt] == NameOf(img.dentries[f.pos]))
  {
  }

  /**
   * One read of a directory: the bytes of the entry's name up to a NUL, then NULs, at most 32
   * and as many as asked for.
   */
  lemma {:induction false} DirectoryRead(img: Image, f: File, nbytes: nat)
    requires WellFormed(img) && FileOk(img, f) && f.ops.DirOps? && f.pos < img.numDirEntries
    ensures var name, t, cnt := img.dentries[f.pos].name, Fetched(img, f, nbytes), Count(img, f, nbytes);
            && |t| == (if nbytes < 32 then nbytes else 32)
            && cnt <= 32 && cnt <= |name| && Lacks(name[..cnt], 0) && (cnt == 32 || cnt == |name| || name[cnt] == 0)
            && (forall i :: 0 <= i < |t| ==> t[i] == if i < cnt then name[i] else 0)
            && Advanced(img, f, nbytes) == f.(pos := f.pos + 1)
  {
  }

  function AdvancedBy(img: Image, f: File, n: nat): (g: File)
    requires WellFormed(img) && FileOk(img, f)
    ensures FileOk(img, g)
  {
    if n == 0 then f else Advanced(img, AdvancedBy(img, f, n - 1), FILE_NAME_LENGTH)
  }
}
