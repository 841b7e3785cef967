/** grep as a whole (main of ece391grep.c): every entry of the directory is searched. */
module GrepProgram {
  import opened Bytes
  import opened Rofs
  import opened FileTable
  import opened Console
  import opened Process
  import opened Programs
  import opened GrepSpec
  import opened Grep

  const DOT: Byte := 46

  /** Entries whose name starts with a period are passed over. */
  predicate Skipped(name: seq<Byte>) {
    name != [] && name[0] == DOT
  }

  /** Directories are passed over, or their names are lines. */
  ghost predicate PlainDirectories(img: Image)
    requires WellFormed(img)
  {
    forall i :: 0 <= i < img.numDirEntries ==>
      var name := NameOf(img.dentries[i]);
      !Skipped(name) && IsDirectory(img, name) ==> NamesAreLines(img)
  }

  /** What each call of do_one_file finds in its uninitialised buffer, entry by entry. */
  predicate GarbageOk(img: Image, garbage: seq<seq<Byte>>) {
    |garbage| == img.numDirEntries && forall i :: 0 <= i < |garbage| ==> |garbage[i]| == BUFSIZE + 1
  }

  /**
   * What is printed from entry `i` on, and the exit code; `free` says whether a descriptor
   * is left for the files.
   */
  ghost function Report(img: Image, s: seq<Byte>, garbage: seq<seq<Byte>>, free: bool, i: nat): (r: (seq<Byte>, int))
    requires WellFormed(img) && PlainDirectories(img) && GarbageOk(img, garbage) && i <= img.numDirEntries
    decreases img.numDirEntries - i
  {
    if i == img.numDirEntries || NameOf(img.dentries[i]) == [] then ([], 0)
    else
      var name := NameOf(img.dentries[i]);
      if Skipped(name) then Report(img, s, garbage, free, i + 1)
      else if Target(img, name).None? || !free then (OPEN_FAILED, 3)
      else
        var (later, code) := Report(img, s, garbage, free, i + 1);
        (Render(name, Reported(img, name, garbage[i][BUFSIZE] == NEWLINE, s)) + later, code)
  }

  /**
   * Every line that contains `s` of the entries from `i` up to `to`, with its file's name, in
   * directory order; names that begin with a period are left out.
   */
  ghost function AllMatches(img: Image, s: seq<Byte>, i: nat, to: nat): seq<Byte>
    requires WellFormed(img) && PlainDirectories(img) && i <= to <= img.numDirEntries
    decreases img.numDirEntries - i
  {
    if i == to then []
    else
      var name := NameOf(img.dentries[i]);
      (if name == [] || name[0] == 46 || Target(img, name).None? then []
       else Render(name, Wanted(FileText(img, name), s)))
      + AllMatches(img, s, i + 1, to)
  }

  /** Nothing stands in the way of searching entry `i`. */
  ghost predicate Searchable(img: Image, s: seq<Byte>, garbage: seq<seq<Byte>>, i: nat)
    requires WellFormed(img) && PlainDirectories(img) && GarbageOk(img, garbage) && i < img.numDirEntries
  {
    var name := NameOf(img.dentries[i]);
    name != [] && (name[0] != 46 ==> Target(img, name).Some? && Right(img, name, garbage[i][BUFSIZE] == NEWLINE, s))
  }

  /**
   * Where the report ends, and with which code: at the end of the directory or at an entry
   * without a name, with 0; at an entry that cannot be opened, with a message and 3.
   */
  ghost predicate EndsAt(img: Image, k: nat, last: seq<Byte>, code: int)
    requires WellFormed(img) && k <= img.numDirEntries
  {
    if k == img.numDirEntries || NameOf(img.dentries[k]) == [] then last == [] && code == 0
    else
      var name := NameOf(img.dentries[k]);
      name[0] != 46 && Target(img, name).None? && last == Ascii("file open failed\n") && code == 3
  }

  /** Searching one entry takes its part of the matches off the front of the report. */
  lemma {:induction false} ReportTakes(img: Image, s: seq<Byte>, garbage: seq<seq<Byte>>, i: nat)
    requires WellFormed(img) && PlainDirectories(img) && GarbageOk(img, garbage) && i < img.numDirEntries && s != []
    requires Searchable(img, s, garbage, i)
    ensures var (later, code) := Report(img, s, garbage, true, i + 1);
            Report(img, s, garbage, true, i) == (AllMatches(img, s, i, i + 1) + later, code)
  {
    hide Reported, Right, Wanted, Render, PlainDirectories, FileText, Target, NameOf;
    var name := NameOf(img.dentries[i]);
    var (later, code) := Report(img, s, garbage, true, i + 1);
    assert AllMatches(img, s, i + 1, i + 1) == [];
    if Skipped(name) {
      assert [] + [] + later == later;
    } else {
      RightIsWanted(img, name, garbage[i][BUFSIZE] == NEWLINE, s);
      var lines := Render(name, Wanted(FileText(img, name), s));
      assert lines + [] == lines;
    }
  }

  lemma {:induction false} MatchesSplit(img: Image, s: seq<Byte>, i: nat, to: nat)
    requires WellFormed(img) && PlainDirectories(img) && i < to <= img.numDirEntries
    ensures AllMatches(img, s, i, to) == AllMatches(img, s, i, i + 1) + AllMatches(img, s, i + 1, to)
  {
    hide Wanted, Render, PlainDirectories, FileText, NameOf, Target;
    assert AllMatches(img, s, i + 1, i + 1) == [];
  }

  lemma {:induction false} ReportAtEnd(img: Image, s: seq<Byte>, garbage: seq<seq<Byte>>, k: nat, last: seq<Byte>,
                                       code: int)
    requires WellFormed(img) && PlainDirectories(img) && GarbageOk(img, garbage) && k <= img.numDirEntries
    requires EndsAt(img, k, last, code)
    ensures Report(img, s, garbage, true, k) == (AllMatches(img, s, k, k) + last, code)
  {
    hide Reported, PlainDirectories, GarbageOk, WellFormed, NameOf, Target;
    assert [] + last == last;
  }

  /** Up to there it is complete. */
  lemma {:induction false} ReportIsComplete(img: Image, s: seq<Byte>, garbage: seq<seq<Byte>>, i: nat, k: nat,
                                            last: seq<Byte>, code: int)
    requires WellFormed(img) && PlainDirectories(img) && GarbageOk(img, garbage) && i <= k <= img.numDirEntries
    requires s != [] && EndsAt(img, k, last, code) && forall j :: i <= j < k ==> Searchable(img, s, garbage, j)
    ensures Report(img, s, garbage, true, i) == (AllMatches(img, s, i, k) + last, code)
    decreases k - i
  {
    hide Report, AllMatches, EndsAt, PlainDirectories, Searchable, WellFormed;
    if i < k {
      assert Searchable(img, s, garbage, i);
      ReportTakes(img, s, garbage, i);
      ReportIsComplete(img, s, garbage, i + 1, k, last, code);
      MatchesSplit(img, s, i, k);
      AppendAssoc(AllMatches(img, s, i, i + 1), AllMatches(img, s, i + 1, k), last);
    } else {
      ReportAtEnd(img, s, garbage, k, last, code);
    }
  }

  // ----- reports hold no NUL -----

  lemma {:induction false} LinesLack(t: seq<Byte>, c: Byte)
    requires Lacks(t, c)
    ensures AllLack(Lines(t), c)
    decreases |t|
  {
    var i := IndexOf(t, NEWLINE);
    if i < |t| {
      LinesLack(t[i + 1..], c);
    }
  }

  lemma {:induction false} BrokenLacks(t: seq<Byte>, c: Byte)
    requires Lacks(t, c) && c != NEWLINE
    ensures Lacks(Broken(t), c)
    decreases |t|
  {
    if |t| >= BUFSIZE && t[BUFSIZE - 1] == NEWLINE {
      BrokenLacks(t[BUFSIZE..], c);
    }
  }

  lemma {:induction false} RenderLacks(fname: seq<Byte>, ls: seq<seq<Byte>>, c: Byte)
    requires Lacks(fname, c) && AllLack(ls, c) && c != COLON && c != NEWLINE
    ensures Lacks(Render(fname, ls), c)
  {
    if ls != [] {
      RenderLacks(fname, ls[1..], c);
    }
  }

  lemma {:induction false} FoundLacks(t: seq<Byte>, s: seq<Byte>)
    requires Lacks(t, NUL)
    ensures AllLack(Found(t, s), NUL)
  {
    LinesLack(t, NUL);
    ChopAllLacks(Lines(t), NUL);
    MatchingLacks(ChopAll(Lines(t)), s, NUL);
  }

  lemma {:induction false} ReportOfFileLacks(img: Image, fname: seq<Byte>, stray: bool, s: seq<Byte>)
    requires WellFormed(img) && Target(img, fname).Some? && Lacks(fname, NUL)
    ensures Lacks(Render(fname, Reported(img, fname, stray, s)), NUL)
  {
    hide Found, FileText, Broken;
    var t := FileText(img, fname);
    BrokenLacks(t, NUL);
    FoundLacks(t, s);
    FoundLacks(Broken(t), s);
    RenderLacks(fname, Reported(img, fname, stray, s), NUL);
  }

  lemma {:induction false} ReportLacks(img: Image, s: seq<Byte>, garbage: seq<seq<Byte>>, free: bool, i: nat)
    requires WellFormed(img) && PlainDirectories(img) && GarbageOk(img, garbage) && i <= img.numDirEntries
    ensures Lacks(Report(img, s, garbage, free, i).0, NUL)
    ensures var code := Report(img, s, garbage, free, i).1; code == 0 || code == 3
    decreases img.numDirEntries - i
  {
    hide Reported, Render, PlainDirectories, Target, NameOf;
    if i < img.numDirEntries {
      ReportLacks(img, s, garbage, free, i + 1);
      var name := NameOf(img.dentries[i]);
      if !Skipped(name) && Target(img, name).Some? {
        ReportOfFileLacks(img, name, garbage[i][BUFSIZE] == NEWLINE, s);
      }
    }
  }

  // ----- the program -----

  /** Whether a descriptor is free depends only on what is open. */
  lemma {:induction false} SameFree(t: Table, u: Table)
    requires |t| == |u| == MAX_FILES && forall k :: 0 <= k < MAX_FILES ==> u[k].open == t[k].open
    ensures HasFree(t) == HasFree(u)
  {
  }

  /** The directory entry in the buffer has been searched, with `buf` as a C string. */
  method SearchEntry(p: Process, s: seq<Byte>, buf: array<Byte>, cnt: nat, bytes: seq<Byte>, ghost name: seq<Byte>)
    returns (r: int)
    requires p.Valid() && cnt < buf.Length && buf[..cnt] == name && Lacks(name, NUL) && |bytes| == BUFSIZE + 1
    requires buf != p.console.screen.video && buf != p.console.keyBuffer && s != [] && Lacks(s, NUL)
    requires IsDirectory(p.img, name) ==> NamesAreLines(p.img)
    modifies p.files, buf, p.console.screen, p.console.screen.video
    ensures p.Valid() && SameOpen(old(p.files[..]), p.files[..])
    ensures var found := Target(p.img, name).Some? && HasFree(old(p.files[..]));
            && r == (if found then 0 else -1)
            && p.console.View() == Apply(old(p.console.View()), Console.Write(
                 if found then Render(name, Reported(p.img, name, bytes[BUFSIZE] == NEWLINE, s)) else OPEN_FAILED))
  {
    hide Reported, Right, Rofs.WellFormed, FileTable.TableOk, Console.Apply;
    buf[cnt] := NUL;
    assert buf[..cnt] == name;
    IndexOfIs(buf[..], NUL, cnt);
    assert CString(buf[..]) == name;
    var data := new Byte[BUFSIZE + 1](i requires 0 <= i < BUFSIZE + 1 => bytes[i]);
    r := DoOneFile(p, s, CString(buf[..]), data);
  }

  /** `Report` when entry `i` is a file that can be searched: writing its lines leaves the rest to be written. */
  lemma {:induction false} ReportStep(c: State, img: Image, s: seq<Byte>, garbage: seq<seq<Byte>>, i: nat)
    requires c.Ok() && WellFormed(img) && PlainDirectories(img) && GarbageOk(img, garbage) && i < img.numDirEntries
    requires var name := NameOf(img.dentries[i]); name != [] && !Skipped(name) && Target(img, name).Some?
    ensures var name := NameOf(img.dentries[i]);
            var mine := Render(name, Reported(img, name, garbage[i][BUFSIZE] == NEWLINE, s));
            var (all, code), (later, same) := Report(img, s, garbage, true, i), Report(img, s, garbage, true, i + 1);
            code == same && Apply(Apply(c, Console.Write(mine)), Console.Write(later)) == Apply(c, Console.Write(all))
  {
    hide Reported, Render, Apply;
    var name := NameOf(img.dentries[i]);
    var stray := garbage[i][BUFSIZE] == NEWLINE;
    ReportOfFileLacks(img, name, stray, s);
    WriteAppend(c, Render(name, Reported(img, name, stray, s)), Report(img, s, garbage, true, i + 1).0);
  }

  /** The name of entry `pos` is in the buffer and the directory stands behind it; or there is none. */
  ghost predicate Named(p: Process, fd: int, buf: array<Byte>, pos: nat, cnt: int)
    requires WellFormed(p.img)
    reads p.files, buf
  {
    && buf.Length == LS_BUF && pos <= p.img.numDirEntries
    && (cnt == 0 ==> pos == p.img.numDirEntries || NameOf(p.img.dentries[pos]) == [])
    && (cnt != 0 ==>
          && pos < p.img.numDirEntries && Browsing(p.files[..], fd, pos + 1)
          && 0 < cnt == |NameOf(p.img.dentries[pos])| && buf[..cnt] == NameOf(p.img.dentries[pos]))
  }

  method NextName(p: Process, fd: int, buf: array<Byte>, ghost pos: nat) returns (cnt: int)
    requires p.Valid() && Browsing(p.files[..], fd, pos) && buf.Length == LS_BUF && pos <= p.img.numDirEntries
    requires buf != p.console.screen.video && buf != p.console.keyBuffer
    modifies p.files, buf
    ensures p.Valid() && Named(p, fd, buf, pos, cnt) && HasFree(p.files[..]) == old(HasFree(p.files[..]))
  {
    ghost var t := p.files[..];
    cnt := ReadName(p, fd, buf, pos);
    SameFree(t, p.files[..]);
  }

  /** The body of the loop of main: what the rest of the report is stays the same, or the program ends. */
  method HandleEntry(p: Process, fd: int, s: seq<Byte>, buf: array<Byte>, cnt: int, pos: nat, garbage: seq<seq<Byte>>)
    returns (ended: bool)
    requires p.Valid() && cnt != 0 && Named(p, fd, buf, pos, cnt)
    requires buf != p.console.screen.video && buf != p.console.keyBuffer
    requires s != [] && Lacks(s, NUL) && PlainDirectories(p.img) && GarbageOk(p.img, garbage)
    modifies p.files, buf, p.console.screen, p.console.screen.video
    ensures p.Valid() && pos < p.img.numDirEntries
    ensures var free := HasFree(old(p.files[..]));
      var (text, code) := Report(p.img, s, garbage, free, pos);
      if ended then code == 3 && p.console.View() == Apply(old(p.console.View()), Console.Write(text))
      else
        var (later, same) := Report(p.img, s, garbage, free, pos + 1);
        && HasFree(p.files[..]) == free && Browsing(p.files[..], fd, pos + 1) && code == same
        && Apply(p.console.View(), Console.Write(later)) == Apply(old(p.console.View()), Console.Write(text))
  {
    hide Reported, FileTable.TableOk, Apply, Render, HasFree;
    ghost var t, was := p.files[..], p.console.View();
    if buf[0] == DOT {
      return false;
    }
    assert !Skipped(buf[..cnt]);
    var failed := SearchEntry(p, s, buf, cnt, garbage[pos], NameOf(p.img.dentries[pos]));
    if failed != 0 {
      return true;
    }
    SameFree(t, p.files[..]);
    ReportStep(was, p.img, s, garbage, pos);
    return false;
  }

  lemma {:induction false} ReportEnds(c: State, img: Image, s: seq<Byte>, garbage: seq<seq<Byte>>, free: bool, i: nat)
    requires c.Ok() && WellFormed(img) && PlainDirectories(img) && GarbageOk(img, garbage) && i <= img.numDirEntries
    requires i == img.numDirEntries || NameOf(img.dentries[i]) == []
    ensures Report(img, s, garbage, free, i) == ([], 0) && Apply(c, Console.Write([])) == c
  {
    WriteNothing(c);
  }

  /** The loop of main. */
  method SearchAll(p: Process, fd: int, s: seq<Byte>, garbage: seq<seq<Byte>>) returns (r: int)
    requires p.Valid() && Browsing(p.files[..], fd, 0)
    requires s != [] && Lacks(s, NUL) && PlainDirectories(p.img) && GarbageOk(p.img, garbage)
    modifies p.files, p.console.screen, p.console.screen.video
    ensures p.Valid()
    ensures var (text, code) := Report(p.img, s, garbage, HasFree(old(p.files[..])), 0);
      r == code && p.console.View() == Apply(old(p.console.View()), Console.Write(text))
  {
    hide FileTable.TableOk, Apply, HasFree, Report;
    ghost var free := HasFree(p.files[..]);
    ghost var final := Apply(p.console.View(), Console.Write(Report(p.img, s, garbage, free, 0).0));
    var buf, pos := new Byte[LS_BUF], 0;
    var cnt := NextName(p, fd, buf, pos);
    while cnt != 0
      invariant p.Valid() && Named(p, fd, buf, pos, cnt) && (cnt != 0 ==> HasFree(p.files[..]) == free)
      invariant final == Apply(p.console.View(), Console.Write(Report(p.img, s, garbage, free, pos).0))
      invariant Report(p.img, s, garbage, free, 0).1 == Report(p.img, s, garbage, free, pos).1
      decreases p.img.numDirEntries - pos
    {
      if cnt == -1 {
        assert false;
      }
      var ended := HandleEntry(p, fd, s, buf, cnt, pos, garbage);
      if ended {
        return 3;
      }
      pos := pos + 1;
      cnt := NextName(p, fd, buf, pos);
    }
    ReportEnds(p.console.View(), p.img, s, garbage, free, pos);
    return 0;
  }

  /**
   * main, after getargs.  `garbage` is what the stack holds when do_one_file is entered for
   * each entry.  A file that cannot be opened ends the program.
   */
  method GrepMain(p: Process, s: seq<Byte>, garbage: seq<seq<Byte>>) returns (r: int)
    requires p.Valid() && s != [] && Lacks(s, NUL) && PlainDirectories(p.img) && GarbageOk(p.img, garbage)
    requires var d := Target(p.img, HERE); d.Some? ==> d.value.fileType == TYPE_DIR
    modifies p.files, p.console.screen, p.console.screen.video
    ensures p.Valid()
    ensures var t := old(p.files[..]);
      if Target(p.img, HERE).None? || !HasFree(t)
      then r == 2 && p.console.View() == Apply(old(p.console.View()), Console.Write(NO_DIRECTORY))
      else
        var (text, code) := Report(p.img, s, garbage, HasFree(AfterOpen(p.img, t, HERE).1), 0);
        r == code && p.console.View() == Apply(old(p.console.View()), Console.Write(text))
  {
    hide GrepSpec.Found, GrepSpec.Wanted, GrepSpec.Seen, Rofs.WellFormed, FileTable.TableOk, Apply;
    var fd := p.Open(HERE);
    if fd == -1 {
      Puts(p, NO_DIRECTORY);
      return 2;
    }
    r := SearchAll(p, fd, s, garbage);
  }
}
