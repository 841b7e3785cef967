/** cat and ls (ece391cat.c, ece391ls.c), run by a process on its own descriptors. */
module Programs {
  import opened Bytes
  import opened Limits
  import opened Rofs
  import opened FileTable
  import opened Screen
  import opened Console
  import opened Process

  const CAT_BUF := 1024
  const LS_BUF := 33

  /** Bytes without NUL are written in full. */
  lemma {:induction false} NulFreeIsWhole(t: seq<Byte>)
    requires Lacks(t, NUL)
    ensures CString(t) == t
  {
    IndexOfIs(t, NUL, |t|);
  }

  lemma {:induction false} CStringAppend(a: seq<Byte>, b: seq<Byte>)
    requires Lacks(a, NUL)
    ensures CString(a + b) == a + CString(b)
  {
    var t, n := a + b, |CString(b)|;
    forall k | 0 <= k < |a| + n ensures t[k] != NUL {
      assert t[k] == if k < |a| then a[k] else CString(b)[k - |a|];
    }
    IndexOfIs(t, NUL, |a| + n);
  }

  /** Writing two texts one after the other is writing their concatenation. */
  lemma {:induction false} WriteAppend(s: State, a: seq<Byte>, b: seq<Byte>)
    requires s.Ok() && Lacks(a, NUL)
    ensures Apply(Apply(s, Console.Write(a)), Console.Write(b)) == Apply(s, Console.Write(a + b))
  {
    NulFreeIsWhole(a);
    CStringAppend(a, b);
    PrintAppend(s.display, a, CString(b));
  }

  /** `fname` is a regular file. */
  ghost predicate IsFile(img: Image, fname: seq<Byte>)
    requires WellFormed(img)
  {
    Target(img, fname).Some? && Target(img, fname).value.fileType == TYPE_FILE
  }

  /** `fname` is a directory. */
  ghost predicate IsDirectory(img: Image, fname: seq<Byte>)
    requires WellFormed(img)
  {
    Target(img, fname).Some? && Target(img, fname).value.fileType == TYPE_DIR
  }

  /** The text that `fname` has for its readers: a file's own, the names in a directory as lines, none of the clock. */
  ghost function FileText(img: Image, fname: seq<Byte>): (t: seq<Byte>)
    requires WellFormed(img) && Target(img, fname).Some?
    ensures Lacks(t, NUL)
  {
    if IsFile(img, fname) then Text(img, Target(img, fname).value.inode)
    else if IsDirectory(img, fname) then Listing(img, 0)
    else []
  }

  ghost predicate HasFree(t: Table)
    requires |t| == MAX_FILES
  {
    FreeFrom(t, 2) < MAX_FILES
  }

  /** Descriptor `fd` is open on a file with this text, at position `pos`, or on the clock. */
  ghost predicate Reading(img: Image, t: Table, fd: int, text: seq<Byte>, pos: nat)
    requires WellFormed(img) && TableOk(img, t)
  {
    && 2 <= fd < MAX_FILES && t[fd].open
    && ((t[fd].ops == FileOps && text == Text(img, t[fd].inode) && t[fd].pos == pos)
        || (t[fd].ops == RtcOps && text == [] && pos == 0))
  }

  /** The tables differ at most in entry `fd`. */
  ghost predicate SameBut(t: Table, u: Table, fd: int) {
    |t| == |u| && forall k :: 0 <= k < |t| && k != fd ==> u[k] == t[k]
  }

  lemma {:induction false} SameButChain(t: Table, u: Table, v: Table, fd: int)
    requires SameBut(t, u, fd) && SameBut(u, v, fd)
    ensures SameBut(t, v, fd)
  {
  }

  /** The name of entry `pos` has been read into the buffer at `at`, or nothing at the end. */
  ghost predicate NameRead(img: Image, t: Table, fd: int, pos: nat, bytes: seq<Byte>, at: nat, cnt: int)
    requires WellFormed(img)
  {
    if pos < img.numDirEntries then
      && Browsing(t, fd, pos + 1) && cnt == |NameOf(img.dentries[pos])|
      && at + cnt <= |bytes| && bytes[at..at + cnt] == NameOf(img.dentries[pos])
    else Browsing(t, fd, pos) && cnt == 0
  }

  /**
   * read of a file (as much of the rest as is asked for), of the clock, or of the directory
   * (one name), as `dir` says.
   */
  method ReadText(p: Process, fd: int, buf: array<Byte>, at: nat, nbytes: nat, ghost dir: bool,
                  ghost text: seq<Byte>, ghost pos: nat)
    returns (cnt: int)
    requires p.Valid() && nbytes < TWO_TO_31 && at + nbytes <= buf.Length
    requires if dir then Browsing(p.files[..], fd, pos) && FILE_NAME_LENGTH <= nbytes
      else Reading(p.img, p.files[..], fd, text, pos)
    requires buf != p.console.screen.video && buf != p.console.keyBuffer
    modifies p.files, buf
    ensures p.Valid() && SameBut(old(p.files[..]), p.files[..], fd) && 0 <= cnt <= nbytes
    ensures dir ==> NameRead(p.img, p.files[..], fd, pos, buf[..], at, cnt) && buf[..at] == old(buf[..at])
    ensures !dir ==>
      && pos + cnt <= |text| && cnt == Min(nbytes, |text| - pos)
      && Reading(p.img, p.files[..], fd, text, pos + cnt)
      && buf[..] == Written(old(buf[..]), at, text[pos..pos + cnt])
  {
    hide Fetched, Count, NameOf, Reading, Browsing, AfterRead, IsOpen;
    ghost var t := p.files[..];
    if dir {
      NameFetched(p.img, t, fd, pos, nbytes);
    } else {
      TextFetched(p.img, t, fd, text, pos, nbytes);
    }
    ghost var f := t[fd];
    cnt := p.Read(fd, buf, at, nbytes);
    assert buf[..at] == old(buf[..at]);
    assert cnt <= |Fetched(p.img, f, nbytes)| ==> buf[..][at..at + cnt] == Fetched(p.img, f, nbytes)[..cnt];
  }

  lemma {:induction false} TextFetched(img: Image, t: Table, fd: int, text: seq<Byte>, pos: nat, nbytes: nat)
    requires WellFormed(img) && TableOk(img, t) && Reading(img, t, fd, text, pos)
    ensures 2 <= fd < MAX_FILES == |t| && IsOpen(t, fd) && FileOk(img, t[fd])
    ensures var n, u := Count(img, t[fd], nbytes), AfterRead(img, t, fd, nbytes);
            && pos + n <= |text| && n == Min(nbytes, |text| - pos) && Fetched(img, t[fd], nbytes) == text[pos..pos + n]
            && SameBut(t, u, fd) && (TableOk(img, u) ==> Reading(img, u, fd, text, pos + n))
  {
    if t[fd].ops == FileOps {
      FetchedIs(img, t[fd], nbytes);
    }
  }

  lemma {:induction false} NameFetched(img: Image, t: Table, fd: int, pos: nat, nbytes: nat)
    requires WellFormed(img) && TableOk(img, t) && Browsing(t, fd, pos) && FILE_NAME_LENGTH <= nbytes
    ensures 2 <= fd < MAX_FILES == |t| && IsOpen(t, fd) && FileOk(img, t[fd])
    ensures var n, u := Count(img, t[fd], nbytes), AfterRead(img, t, fd, nbytes);
            && SameBut(t, u, fd) && n <= |Fetched(img, t[fd], nbytes)| && pos <= img.numDirEntries
            && if pos < img.numDirEntries
               then n == |NameOf(img.dentries[pos])| && Fetched(img, t[fd], nbytes)[..n] == NameOf(img.dentries[pos])
                    && Browsing(u, fd, pos + 1)
               else n == 0 && Browsing(u, fd, pos)
  {
    PieceFits(img, t[fd], nbytes);
  }

  /** fdputs to descriptor 1. */
  method Puts(p: Process, text: seq<Byte>)
    requires p.Valid()
    modifies p.console.screen, p.console.screen.video
    ensures p.Valid() && p.console.View() == Apply(old(p.console.View()), Console.Write(text))
  {
    var msg := new Byte[|text|](i requires 0 <= i < |text| => text[i]);
    assert msg[0..|text|] == text;
    var w := p.Write(1, msg, 0, |text|);
  }

  // ----- cat -----

  /** The names from entry `i` on without anything between them, up to an empty one. */
  function NamesRun(img: Image, i: nat): (t: seq<Byte>)
    requires WellFormed(img) && i <= img.numDirEntries
    ensures Lacks(t, NUL)
    decreases img.numDirEntries - i
  {
    if i == img.numDirEntries || NameOf(img.dentries[i]) == [] then []
    else NameOf(img.dentries[i]) + NamesRun(img, i + 1)
  }

  /** What reading an open file until a read returns 0 gives. */
  function Rest(img: Image, f: File): (t: seq<Byte>)
    requires WellFormed(img) && FileOk(img, f)
    ensures Lacks(t, NUL)
  {
    if f.ops.FileOps? then Text(img, f.inode)[f.pos..]
    else if f.ops.DirOps? then NamesRun(img, f.pos)
    else []
  }

  /** What one read of an open file delivers, as its caller takes it from the buffer. */
  function Piece(img: Image, f: File, nbytes: nat): (t: seq<Byte>)
    requires WellFormed(img) && FileOk(img, f) && nbytes >= FILE_NAME_LENGTH
    ensures |t| == Count(img, f, nbytes) <= nbytes && Lacks(t, NUL)
  {
    PieceFits(img, f, nbytes);
    Fetched(img, f, nbytes)[..Count(img, f, nbytes)]
  }

  lemma {:induction false} PieceFits(img: Image, f: File, nbytes: nat)
    requires WellFormed(img) && FileOk(img, f) && nbytes >= FILE_NAME_LENGTH
    ensures Count(img, f, nbytes) <= |Fetched(img, f, nbytes)|
    ensures Lacks(Fetched(img, f, nbytes)[..Count(img, f, nbytes)], NUL)
    ensures f.ops.DirOps? && f.pos < img.numDirEntries ==>
      Fetched(img, f, nbytes)[..Count(img, f, nbytes)] == NameOf(img.dentries[f.pos])
  {
    var t, n := Fetched(img, f, nbytes), Count(img, f, nbytes);
    if f.ops.DirOps? && f.pos < img.numDirEntries {
      var name := NameOf(img.dentries[f.pos]);
      assert t == Padded(name, FILE_NAME_LENGTH) && n == |name|;
      assert t[..n] == name;
    } else if f.ops.FileOps? {
      assert t[..n] == t == Text(img, f.inode)[f.pos..f.pos + n];
    }
  }

  /** One read takes its piece off the front; nothing is left when it returns 0. */
  lemma {:induction false} RestSplit(img: Image, f: File, nbytes: nat)
    requires WellFormed(img) && FileOk(img, f) && nbytes >= FILE_NAME_LENGTH
    ensures var t := Piece(img, f, nbytes);
            Rest(img, f) == if t == [] then [] else t + Rest(img, Advanced(img, f, nbytes))
  {
    hide Fetched, NameOf, Text;
    PieceFits(img, f, nbytes);
    if f.ops.FileOps? {
      FetchedIs(img, f, nbytes);
    }
  }

  /** One read of cat or ls: the next piece, at the front of the buffer. */
  method NextChunk(p: Process, fd: int, buf: array<Byte>, nbytes: nat) returns (cnt: int)
    requires p.Valid() && 2 <= fd < MAX_FILES && p.files[fd].open
    requires FILE_NAME_LENGTH <= nbytes <= buf.Length && nbytes < TWO_TO_31
    requires buf != p.console.screen.video && buf != p.console.keyBuffer
    modifies p.files, buf
    ensures p.Valid() && SameBut(old(p.files[..]), p.files[..], fd)
    ensures p.files[fd] == Advanced(p.img, old(p.files[fd]), nbytes) && p.files[fd].open
    ensures 0 <= cnt <= nbytes && buf[..cnt] == Piece(p.img, old(p.files[fd]), nbytes)
  {
    ghost var f := p.files[fd];
    PieceFits(p.img, f, nbytes);
    cnt := p.Read(fd, buf, 0, nbytes);
    assert p.files[..][fd] == Advanced(p.img, f, nbytes);
    assert buf[..cnt] == Fetched(p.img, f, nbytes)[..cnt];
  }

  /** Writing what is in the buffer leaves `later` to be written. */
  method WriteChunk(p: Process, buf: array<Byte>, cnt: nat, ghost later: seq<Byte>)
    requires p.Valid() && cnt <= buf.Length && Lacks(buf[..cnt], NUL)
    requires buf != p.console.screen.video && buf != p.console.keyBuffer
    modifies p.console.screen, p.console.screen.video
    ensures p.Valid()
    ensures Apply(p.console.View(), Console.Write(later))
         == Apply(old(p.console.View()), Console.Write(buf[..cnt] + later))
  {
    assert buf[0..0 + cnt] == buf[..cnt];
    WriteAppend(p.console.View(), buf[..cnt], later);
    var w := p.Write(1, buf, 0, cnt);
  }

  lemma {:induction false} WriteNothing(s: State)
    requires s.Ok()
    ensures Apply(s, Console.Write([])) == s
  {
    NulFreeIsWhole([]);
  }

  /** The loop of cat. */
  method CatLoop(p: Process, fd: int)
    requires p.Valid() && 2 <= fd < MAX_FILES && p.files[fd].open
    modifies p.files, p.console.screen, p.console.screen.video
    ensures p.Valid()
    ensures p.console.View() == Apply(old(p.console.View()), Console.Write(old(Rest(p.img, p.files[fd]))))
  {
    hide Rest, Apply, Piece, Advanced, FileOk, WellFormed;
    var buf := new Byte[CAT_BUF];
    // `f` is the file before the read whose piece is in the buffer
    ghost var f, final := p.files[fd], Apply(p.console.View(), Console.Write(Rest(p.img, p.files[fd])));
    var cnt := NextChunk(p, fd, buf, CAT_BUF);
    while cnt != 0
      invariant p.Valid() && p.files[fd].open && FileOk(p.img, f) && p.files[fd] == Advanced(p.img, f, CAT_BUF)
      invariant 0 <= cnt <= CAT_BUF && buf[..cnt] == Piece(p.img, f, CAT_BUF)
      invariant Apply(p.console.View(), Console.Write(Rest(p.img, f))) == final
      decreases |Rest(p.img, f)|
    {
      if cnt == -1 {
        assert false;
      }
      RestSplit(p.img, f, CAT_BUF);
      WriteChunk(p, buf, cnt, Rest(p.img, p.files[fd]));
      f := p.files[fd];
      cnt := NextChunk(p, fd, buf, CAT_BUF);
    }
    RestSplit(p.img, f, CAT_BUF);
    WriteNothing(p.console.View());
  }

  /** What cat shows of an entry: the text of a file, the names in the directory, nothing of the clock. */
  ghost function CatText(img: Image, fname: seq<Byte>): (t: seq<Byte>)
    requires WellFormed(img) && Target(img, fname).Some?
    ensures Lacks(t, NUL)
  {
    var d := Target(img, fname).value;
    Rest(img, File(d.inode, true, 0, OpsOf(d.fileType).value))
  }

  /**
   * cat, after getargs: it ends, with the whole file, as filtered by the kernel, written to
   * the terminal and nothing else.
   */
  method Cat(p: Process, fname: seq<Byte>) returns (r: int)
    requires p.Valid()
    modifies p.files, p.console.screen, p.console.screen.video
    ensures p.Valid()
    ensures var found := Target(p.img, fname).Some? && HasFree(old(p.files[..]));
            && r == (if found then 0 else 2)
            && p.console.View() == Apply(old(p.console.View()), Console.Write(
                 if found then CatText(p.img, fname) else NOT_FOUND))
    ensures r == 0 && IsFile(p.img, fname) ==>
      p.console.View() == Apply(old(p.console.View()), Console.Write(FileText(p.img, fname)))
  {
    var fd := p.Open(fname);
    if fd == -1 {
      Puts(p, NOT_FOUND);
      return 2;
    }
    ghost var d := Target(p.img, fname).value;
    assert p.files[..][fd] == File(d.inode, true, 0, OpsOf(d.fileType).value);
    if IsFile(p.img, fname) {
      WholeFile(p.img, fname);
    }
    CatLoop(p, fd);
    return 0;
  }

  lemma {:induction false} WholeFile(img: Image, fname: seq<Byte>)
    requires WellFormed(img) && IsFile(img, fname)
    ensures CatText(img, fname) == FileText(img, fname)
  {
  }

  /**
   * Of a regular file cat shows every byte: printable characters, tabs and newlines as they
   * are, a blank for any other.
   */
  lemma {:induction false} CatShows(img: Image, fname: seq<Byte>, i: nat)
    requires WellFormed(img) && IsFile(img, fname) && i < |CatText(img, fname)|
    ensures var inode := Target(img, fname).value.inode;
            && inode < |img.inodes| && |CatText(img, fname)| == img.inodes[inode].length
            && var b := Flat(img, inode)[i];
               CatText(img, fname)[i] == if 32 <= b <= 126 || b == 9 || b == 10 then b else 32
  {
    hide Text;
    var inode := Target(img, fname).value.inode;
    assert Text(img, inode)[0..] == Text(img, inode);
    TextAt(img, inode, i);
  }

  const NOT_FOUND := Ascii("file not found\n")

  // ----- ls -----

  const HERE := Ascii(".")
  const NO_DIRECTORY := Ascii("directory open failed\n")

  /** What ls writes from entry `i` on: it stops at an entry whose name is empty. */
  function Listing(img: Image, i: nat): (t: seq<Byte>)
    requires WellFormed(img) && i <= img.numDirEntries
    ensures Lacks(t, NUL)
    decreases img.numDirEntries - i
  {
    if i == img.numDirEntries || NameOf(img.dentries[i]) == [] then []
    else NameOf(img.dentries[i]) + [NEWLINE] + Listing(img, i + 1)
  }

  /** Every name from entry `i` on, one per line. */
  function AllNames(img: Image, i: nat): seq<Byte>
    requires WellFormed(img) && i <= img.numDirEntries
    decreases img.numDirEntries - i
  {
    if i == img.numDirEntries then []
    else NameOf(img.dentries[i]) + [10] + AllNames(img, i + 1)
  }

  /** ls lists everything exactly when no entry has an empty name. */
  lemma {:induction false} ListingIsComplete(img: Image, i: nat)
    requires WellFormed(img) && i <= img.numDirEntries
    ensures Listing(img, i) == AllNames(img, i)
            <==> forall k :: i <= k < img.numDirEntries ==> NameOf(img.dentries[k]) != []
    ensures |Listing(img, i)| <= |AllNames(img, i)|
    decreases img.numDirEntries - i
  {
    if i < img.numDirEntries {
      ListingIsComplete(img, i + 1);
      var line := NameOf(img.dentries[i]) + [NEWLINE];
      assert NameOf(img.dentries[i]) != [] ==> Listing(img, i)[|line|..] == Listing(img, i + 1);
      assert AllNames(img, i)[|line|..] == AllNames(img, i + 1);
    }
  }

  /** Descriptor `fd` is open on the directory, at entry `pos`. */
  ghost predicate Browsing(t: Table, fd: int, pos: nat) {
    2 <= fd < |t| && t[fd].open && t[fd].ops == DirOps && t[fd].pos == pos
  }

  /** One read of 32 bytes from the directory: the next name, or nothing at the end. */
  method ReadName(p: Process, fd: int, buf: array<Byte>, ghost pos: nat) returns (cnt: int)
    requires p.Valid() && Browsing(p.files[..], fd, pos) && buf.Length == LS_BUF
    requires buf != p.console.screen.video && buf != p.console.keyBuffer
    modifies p.files, buf
    ensures p.Valid() && SameBut(old(p.files[..]), p.files[..], fd)
    ensures if pos < p.img.numDirEntries
      then
        && Browsing(p.files[..], fd, pos + 1)
        && cnt == |NameOf(p.img.dentries[pos])| && buf[..cnt] == NameOf(p.img.dentries[pos])
      else Browsing(p.files[..], fd, pos) && cnt == 0
  {
    PieceFits(p.img, p.files[fd], LS_BUF - 1);
    cnt := NextChunk(p, fd, buf, LS_BUF - 1);
  }

  /** What ls writes of an open file: the pieces of its 32-byte reads, each as a line. */
  function LinesOf(img: Image, f: File): (t: seq<Byte>)
    requires WellFormed(img) && FileOk(img, f)
    ensures Lacks(t, NUL)
    decreases |Rest(img, f)|
  {
    RestSplit(img, f, LS_BUF - 1);
    var t := Piece(img, f, LS_BUF - 1);
    if t == [] then [] else t + [NEWLINE] + LinesOf(img, Advanced(img, f, LS_BUF - 1))
  }

  /** Of the directory, that is the names, one per line. */
  lemma {:induction false} LinesOfDirectory(img: Image, f: File)
    requires WellFormed(img) && FileOk(img, f) && f.ops.DirOps?
    ensures LinesOf(img, f) == Listing(img, f.pos)
    decreases img.numDirEntries - f.pos
  {
    PieceFits(img, f, LS_BUF - 1);
    if f.pos < img.numDirEntries {
      LinesOfDirectory(img, Advanced(img, f, LS_BUF - 1));
    }
  }

  lemma {:induction false} LinesSplit(img: Image, f: File)
    requires WellFormed(img) && FileOk(img, f)
    ensures var t := Piece(img, f, LS_BUF - 1);
            && Rest(img, f) == (if t == [] then [] else t + Rest(img, Advanced(img, f, LS_BUF - 1)))
            && LinesOf(img, f) == if t == [] then [] else t + [NEWLINE] + LinesOf(img, Advanced(img, f, LS_BUF - 1))
  {
    RestSplit(img, f, LS_BUF - 1);
  }

  /** Writing what is in the buffer as a line leaves `later` to be written. */
  method WriteLine(p: Process, buf: array<Byte>, cnt: nat, ghost later: seq<Byte>)
    requires p.Valid() && cnt < buf.Length && Lacks(buf[..cnt], NUL)
    requires buf != p.console.screen.video && buf != p.console.keyBuffer
    modifies buf, p.console.screen, p.console.screen.video
    ensures p.Valid()
    ensures Apply(p.console.View(), Console.Write(later))
         == Apply(old(p.console.View()), Console.Write(old(buf[..cnt]) + [NEWLINE] + later))
  {
    hide Apply;
    buf[cnt] := NEWLINE;
    assert buf[..cnt + 1] == old(buf[..cnt]) + [NEWLINE];
    WriteChunk(p, buf, cnt + 1, later);
  }

  /** The loop of ls. */
  method LsLoop(p: Process, fd: int)
    requires p.Valid() && 2 <= fd < MAX_FILES && p.files[fd].open
    modifies p.files, p.console.screen, p.console.screen.video
    ensures p.Valid()
    ensures p.console.View() == Apply(old(p.console.View()), Console.Write(old(LinesOf(p.img, p.files[fd]))))
  {
    hide Rest, LinesOf, Apply, Piece, Advanced, FileOk, WellFormed;
    var buf := new Byte[LS_BUF];
    ghost var f, final := p.files[fd], Apply(p.console.View(), Console.Write(LinesOf(p.img, p.files[fd])));
    var cnt := NextChunk(p, fd, buf, LS_BUF - 1);
    while cnt != 0
      invariant p.Valid() && p.files[fd].open && FileOk(p.img, f) && p.files[fd] == Advanced(p.img, f, LS_BUF - 1)
      invariant 0 <= cnt < LS_BUF && buf[..cnt] == Piece(p.img, f, LS_BUF - 1)
      invariant Apply(p.console.View(), Console.Write(LinesOf(p.img, f))) == final
      decreases |Rest(p.img, f)|
    {
      if cnt == -1 {
        assert false;
      }
      LinesSplit(p.img, f);
      WriteLine(p, buf, cnt, LinesOf(p.img, p.files[fd]));
      f := p.files[fd];
      cnt := NextChunk(p, fd, buf, LS_BUF - 1);
    }
    LinesSplit(p.img, f);
    WriteNothing(p.console.View());
  }

  /** What ls shows when "." is the entry it should be, or any other. */
  ghost function LsText(img: Image): (t: seq<Byte>)
    requires WellFormed(img) && Target(img, HERE).Some?
    ensures Lacks(t, NUL)
  {
    var d := Target(img, HERE).value;
    LinesOf(img, File(d.inode, true, 0, OpsOf(d.fileType).value))
  }

  method Ls(p: Process) returns (r: int)
    requires p.Valid()
    modifies p.files, p.console.screen, p.console.screen.video
    ensures p.Valid()
    ensures var found := Target(p.img, HERE).Some? && HasFree(old(p.files[..]));
            && r == (if found then 0 else 2)
            && p.console.View() == Apply(old(p.console.View()), Console.Write(
                 if found then LsText(p.img) else NO_DIRECTORY))
    ensures r == 0 && IsDirectory(p.img, HERE) ==>
      p.console.View() == Apply(old(p.console.View()), Console.Write(Listing(p.img, 0)))
  {
    hide LinesOf, Apply, Listing;
    var fd := p.Open(HERE);
    if fd == -1 {
      Puts(p, NO_DIRECTORY);
      return 2;
    }
    ghost var f := p.files[..][fd];
    assert f == File(Target(p.img, HERE).value.inode, true, 0, OpsOf(Target(p.img, HERE).value.fileType).value);
    if IsDirectory(p.img, HERE) {
      LinesOfDirectory(p.img, f);
    }
    LsLoop(p, fd);
    return 0;
  }
}
