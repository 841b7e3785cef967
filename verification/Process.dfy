/** The descriptor calls of a running process (syscalls.c and rofs.c), done in place. */
module Process {
  import opened Bytes
  import opened Limits
  import opened Rofs
  import opened FileTable
  import opened Console

  class Process {
    const img: Image
    const files: array<File>
    const console: LiveConsole

    ghost predicate Valid()
      reads files, console, console.screen, console.screen.video, console.keyBuffer
    {
      && WellFormed(img)
      && files.Length == MAX_FILES && TableOk(img, files[..])
      && console.Valid()
    }

    /** A process that works on the descriptors in its control block. */
    constructor (img: Image, console: LiveConsole, table: Table)
      requires WellFormed(img) && console.Valid() && TableOk(img, table)
      ensures Valid() && fresh(files) && this.img == img && this.console == console && files[..] == table
    {
      this.img, this.console := img, console;
      files := new File[MAX_FILES](i requires 0 <= i < MAX_FILES => table[i]);
      new;
      assert files[..] == table;
    }

    /** file_open and dir_open: look the name up again and check the type. */
    method OpenAs(fname: seq<Byte>, fileType: nat) returns (r: int)
      requires WellFormed(img)
      ensures var i := Lookup(img, fname);
        r == if i.Some? && img.dentries[i.value].fileType == fileType then 0 else -1
    {
      var err, dentry := ReadDentryByName(img, fname);
      if err != 0 {
        return -1;
      }
      if dentry.fileType != fileType {
        return -1;
      }
      return 0;
    }

    /** The switch over the file type; `false` is its default case. */
    method SetOps(i: nat, fileType: nat) returns (known: bool)
      requires i < files.Length
      modifies files
      ensures known <==> OpsOf(fileType).Some?
      ensures files[..] ==
        if known then old(files[..])[i := old(files[i]).(ops := OpsOf(fileType).value)] else old(files[..])
    {
      known := true;
      if fileType == TYPE_RTC {
        files[i] := files[i].(ops := RtcOps);
      } else if fileType == TYPE_DIR {
        files[i] := files[i].(ops := DirOps);
      } else if fileType == TYPE_FILE {
        files[i] := files[i].(ops := FileOps);
      } else {
        known := false;
      }
    }

    method Open(fname: seq<Byte>) returns (fd: int)
      requires Valid()
      modifies files
      ensures Valid() && (fd, files[..]) == AfterOpen(img, old(files[..]), fname)
    {
      hide FileOk, LiveConsole.Valid, Clip;
      ghost var t := files[..];
      StepKeepsTable(img, t, FileTable.Open(fname));
      var err, dentry := ReadDentryByName(img, fname);
      if err != 0 {
        return -1;
      }
      var i := 2;
      while i < MAX_FILES
        invariant 2 <= i <= MAX_FILES && files[..] == t
        invariant FreeFrom(t, i) == FreeFrom(t, 2)
      {
        if !files[i].open {
          break;
        }
        i := i + 1;
      }
      if i == MAX_FILES {
        return -1;
      }
      files[i] := files[i].(open := true, pos := 0);
      var known := SetOps(i, dentry.fileType);
      if !known {
        files[i] := files[i].(open := false);
        assert files[..] == t[i := t[i].(pos := 0)];
        return -1;
      }
      var failed := 0; // rtc_open does not fail
      if dentry.fileType != TYPE_RTC {
        failed := OpenAs(fname, dentry.fileType);
      }
      if failed != 0 {
        assert false; // the second look-up finds the same entry
      }
      files[i] := files[i].(inode := dentry.inode);
      assert files[..] == t[i := File(dentry.inode, true, 0, OpsOf(dentry.fileType).value)];
      return i;
    }

    method Close(fd: int) returns (err: int)
      requires Valid()
      modifies files
      ensures Valid() && (err, files[..]) == AfterClose(old(files[..]), fd)
    {
      ghost var t := files[..];
      StepKeepsTable(img, t, FileTable.Close(fd));
      if fd < 0 || fd >= MAX_FILES {
        return -1;
      }
      if !files[fd].open {
        return -1;
      }
      match files[fd].ops {
        case RtcOps | DirOps | FileOps => err := 0;
        case StdinOps | StdoutOps | FailOps => err := -1;
      }
      if err == 0 {
        files[fd] := files[fd].(open := false);
      }
    }

    /** The second half of file_read: blank out what is not printable. */
    static method BlankOut(buf: array<Byte>, at: nat, n: nat)
      requires at + n <= buf.Length
      modifies buf
      ensures buf[..] == Written(old(buf[..]), at, VisibleText(old(buf[at..at + n])))
      ensures forall k {:trigger buf[k]} :: at <= k < at + n ==>
        var b := old(buf[k]); buf[k] == if 32 <= b <= 126 || b == 9 || b == 10 then b else 32
    {
      var i := 0;
      while i < n
        invariant 0 <= i <= n
        invariant forall k {:trigger buf[k]} :: 0 <= k < buf.Length ==>
          buf[k] == if at <= k < at + i then Visible(old(buf[k])) else old(buf[k])
      {
        if (buf[at + i] < SPACE || buf[at + i] > TILDE) && buf[at + i] != NEWLINE && buf[at + i] != TAB {
          buf[at + i] := SPACE;
        }
        i := i + 1;
      }
    }

    lemma {:induction false} FetchedIsVisible(f: File, nbytes: nat)
      requires WellFormed(img) && FileOk(img, f) && f.ops == FileOps
      ensures Slice(img, f.inode, f.pos, nbytes).Some?
      ensures Fetched(img, f, nbytes) == VisibleText(Slice(img, f.inode, f.pos, nbytes).value)
    {
    }

    lemma {:induction false} WrittenTwice(s: seq<Byte>, at: nat, raw: seq<Byte>)
      requires at + |raw| <= |s|
      ensures Written(s, at, raw)[at..at + |raw|] == raw
      ensures Written(Written(s, at, raw), at, VisibleText(raw)) == Written(s, at, VisibleText(raw))
    {
    }

    /**
     * Byte `i` of a read that began with the file in state `f` is in the buffer: printable
     * characters, tabs and newlines as they are in the file, a blank for anything else.
     */
    ghost predicate Delivered(f: File, i: nat, bytes: seq<Byte>, at: nat)
      requires WellFormed(img)
    {
      && f.inode < |img.inodes| && f.pos + i < img.inodes[f.inode].length && at + i < |bytes|
      && var b := Flat(img, f.inode)[f.pos + i];
         bytes[at + i] == if 32 <= b <= 126 || b == 9 || b == 10 then b else 32
    }

    lemma {:induction false} DeliveredIs(f: File, nbytes: nat, was: seq<Byte>, at: nat)
      requires WellFormed(img) && FileOk(img, f) && f.ops == FileOps && at + |Fetched(img, f, nbytes)| <= |was|
      ensures forall i :: 0 <= i < |Fetched(img, f, nbytes)| ==>
        Delivered(f, i, Written(was, at, Fetched(img, f, nbytes)), at)
    {
      hide Fetched, Flat;
      forall i | 0 <= i < |Fetched(img, f, nbytes)|
        ensures Delivered(f, i, Written(was, at, Fetched(img, f, nbytes)), at)
      {
        FetchedAt(img, f, nbytes, i);
      }
    }

    /** file_read: read, blank out what is not printable, advance. */
    method FileRead(fd: int, buf: array<Byte>, at: nat, nbytes: nat) returns (bytesRead: int)
      requires Valid() && 2 <= fd < MAX_FILES && files[fd].open && files[fd].ops == FileOps
      requires nbytes < TWO_TO_31 && at + nbytes <= buf.Length
      requires buf != console.screen.video && buf != console.keyBuffer
      modifies files, buf
      ensures Valid() && files[..] == AfterRead(img, old(files[..]), fd, nbytes)
      ensures bytesRead == Count(img, old(files[fd]), nbytes)
      ensures buf[..] == Written(old(buf[..]), at, Fetched(img, old(files[fd]), nbytes))
      ensures forall i :: 0 <= i < bytesRead ==> Delivered(old(files[fd]), i, buf[..], at)
    {
      hide LiveConsole.Valid, Slice, VisibleText, Fetched, Written;
      ghost var t := files[..];
      FetchedIsVisible(t[fd], nbytes);
      ghost var raw := Slice(img, t[fd].inode, t[fd].pos, nbytes).value;
      StepKeepsTable(img, t, FileTable.Read(fd, nbytes));
      bytesRead := ReadData(img, files[fd].inode, files[fd].pos, buf, at, nbytes);
      WrittenTwice(old(buf[..]), at, raw);
      assert buf[at..at + bytesRead] == buf[..][at..at + bytesRead];
      BlankOut(buf, at, bytesRead);
      files[fd] := files[fd].(pos := files[fd].pos + bytesRead);
      FetchedIs(img, t[fd], nbytes);
      DeliveredIs(t[fd], nbytes, old(buf[..]), at);
      assert files[..] == t[fd := Advanced(img, t[fd], nbytes)];
    }

    /** dir_read: one name a call. */
    method DirRead(fd: int, buf: array<Byte>, at: nat, nbytes: nat) returns (bytesRead: int)
      requires Valid() && 2 <= fd < MAX_FILES && files[fd].open && files[fd].ops == DirOps
      requires at + nbytes <= buf.Length
      requires buf != console.screen.video && buf != console.keyBuffer
      modifies files, buf
      ensures Valid() && files[..] == AfterRead(img, old(files[..]), fd, nbytes)
      ensures bytesRead == Count(img, old(files[fd]), nbytes)
      ensures buf[..] == Written(old(buf[..]), at, Fetched(img, old(files[fd]), nbytes))
    {
      ghost var t := files[..];
      StepKeepsTable(img, t, FileTable.Read(fd, nbytes));
      if files[fd].pos >= img.numDirEntries {
        assert buf[..] == Written(buf[..], at, []);
        return 0;
      }
      var dentry := img.dentries[files[fd].pos];
      var copyLength := if nbytes > FILE_NAME_LENGTH then FILE_NAME_LENGTH else nbytes;
      Strncpy(buf, at, dentry.name, copyLength);
      assert Padded(CString(dentry.name), copyLength) == Padded(NameOf(dentry), copyLength);
      files[fd] := files[fd].(pos := files[fd].pos + 1);
      var len := |CString(dentry.name)|;
      return if len > FILE_NAME_LENGTH then FILE_NAME_LENGTH else len;
    }

    /** read, of any descriptor but the keyboard's. */
    method Read(fd: int, buf: array<Byte>, at: nat, nbytes: nat) returns (r: int)
      requires Valid() && fd != 0
      requires nbytes < TWO_TO_31 && at + nbytes <= buf.Length
      requires buf != console.screen.video && buf != console.keyBuffer
      modifies files, buf
      ensures Valid() && files[..] == AfterRead(img, old(files[..]), fd, nbytes)
      ensures if 2 <= fd && old(IsOpen(files[..], fd))
        then
          && r == Count(img, old(files[fd]), nbytes)
          && buf[..] == Written(old(buf[..]), at, Fetched(img, old(files[fd]), nbytes))
        else r == -1 && buf[..] == old(buf[..])
    {
      if fd < 0 || fd >= MAX_FILES {
        return -1;
      }
      if !files[fd].open {
        return -1;
      }
      match files[fd].ops {
        case FileOps => r := FileRead(fd, buf, at, nbytes);
        case DirOps => r := DirRead(fd, buf, at, nbytes);
        case RtcOps =>
          assert buf[..] == Written(buf[..], at, []);
          r := 0; // rtc_read: the next tick has come
        case _ => r := -1;
      }
    }

    /** read of descriptor 0, once Enter has been pressed. */
    method ReadKeyboard(buf: array<Byte>, at: nat, nbytes: nat) returns (r: int)
      requires Valid() && console.enterPressed && Allowed(console.View(), Console.Read(nbytes))
      requires at + nbytes <= buf.Length && buf != console.screen.video && buf != console.keyBuffer
      modifies console`enterPressed, console`keyBufferPos, console.keyBuffer, buf
      ensures Valid() && console.View() == Apply(old(console.View()), Console.Read(nbytes))
      ensures r == |Line(old(console.View()), nbytes)|
      ensures buf[..] == Written(old(buf[..]), at, Line(old(console.View()), nbytes))
    {
      r := console.TerminalRead(buf, at, nbytes);
    }

    /** write, of any descriptor; rtc_write wants at least four bytes. */
    method Write(fd: int, buf: array<Byte>, at: nat, nbytes: int) returns (r: int)
      requires Valid() && (0 <= nbytes ==> at + nbytes <= buf.Length)
      requires buf != console.screen.video && buf != console.keyBuffer
      modifies console.screen, console.screen.video
      ensures Valid() && files[..] == old(files[..])
      ensures fd == 1 && 0 <= nbytes ==>
        && r == |CString(buf[at..at + nbytes])|
        && console.View() == Apply(old(console.View()), Console.Write(buf[at..at + nbytes]))
      ensures fd == 1 && nbytes < 0 ==> r == 0 && console.View() == old(console.View())
      ensures fd != 1 ==>
        && console.View() == old(console.View())
        && r == (if IsOpen(files[..], fd) && files[fd].ops == RtcOps && 4 <= nbytes then 0 else -1)
    {
      if fd < 0 || fd >= MAX_FILES {
        return -1;
      }
      if !files[fd].open {
        return -1;
      }
      match files[fd].ops {
        case StdoutOps => r := console.TerminalWrite(buf, at, nbytes);
        case RtcOps => r := if nbytes < 4 then -1 else 0;
        case _ => r := -1;
      }
    }
  }
}
