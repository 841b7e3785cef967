/**
 * grep's line scanner (ece391grep.c, with the string routines of ece391support.c): a
 * 1024-byte buffer that slides over the file and carries a partial line to its front.
 */
module Grep {
  import opened Bytes
  import opened GrepSpec
  import opened Rofs
  import opened FileTable
  import opened Console
  import opened Process
  import opened Programs

  const OPEN_FAILED := Ascii("file open failed\n")

  // ----- string routines on the buffer -----

  /** ece391_strlen, in a buffer with a terminator. */
  method Strlen(data: array<Byte>, at: nat) returns (len: nat)
    requires exists k :: at <= k < data.Length && data[k] == NUL
    ensures at + len < data.Length && data[at + len] == NUL
    ensures forall i :: at <= i < at + len ==> data[i] != NUL
  {
    ghost var k :| at <= k < data.Length && data[k] == NUL;
    len := 0;
    while data[at + len] != NUL
      invariant at + len <= k && forall i :: at <= i < at + len ==> data[i] != NUL
      decreases k - len
    {
      len := len + 1;
    }
  }

  /** ece391_strcpy towards the front of the same buffer. */
  method StrcpyDown(data: array<Byte>, src: nat, ghost end: nat)
    requires 0 < src <= end < data.Length && data[end] == NUL && Lacks(data[src..end], NUL)
    modifies data
    ensures data[..end - src] == old(data[src..end]) && data[end - src] == NUL
    ensures forall k :: end - src < k < data.Length ==> data[k] == old(data[k])
  {
    var i: nat := 0;
    while data[src + i] != NUL
      invariant src + i <= end
      invariant forall k {:trigger data[k]} :: 0 <= k < data.Length ==>
        data[k] == if k < i then old(data[src + k]) else old(data[k])
      decreases end - i
    {
      assert data[src + i] == old(data[src..end][i]);
      data[i] := data[src + i];
      i := i + 1;
    }
    assert i == end - src;
    data[i] := data[src + i];
  }

  /** ece391_strncmp of the text at `at` with the first `n` characters of `s`. */
  method StrncmpAt(data: array<Byte>, at: nat, s: seq<Byte>, n: nat, ghost end: nat) returns (r: int)
    requires at <= end < data.Length && data[end] == NUL && n <= |s| && Lacks(s, NUL)
    ensures r == 0 <==> at + n <= end && data[at..at + n] == s[..n] && Lacks(data[at..at + n], NUL)
  {
    if n == 0 {
      return 0;
    }
    var i: nat := 0;
    while data[at + i] == CharAt(s, i)
      invariant i < n && at + i <= end
      invariant forall k :: 0 <= k < i ==> data[at + k] == s[k]
      decreases n - i
    {
      assert CharAt(s, i) == s[i];
      if data[at + i] == NUL || i + 1 == n {
        assert data[at..at + n] == s[..n];
        return 0;
      }
      i := i + 1;
    }
    assert at + n <= end ==> data[at..at + n][i] != s[..n][i];
    return data[at + i] - CharAt(s, i);
  }

  /** The loop that looks for the end of a line. */
  method FindEnd(data: array<Byte>, lineStart: nat, last: nat) returns (lineEnd: nat)
    requires lineStart <= last < data.Length
    ensures lineStart <= lineEnd <= last
    ensures Lacks(data[lineStart..lineEnd], NEWLINE) && (lineEnd < last ==> data[lineEnd] == NEWLINE)
  {
    lineEnd := lineStart;
    while lineEnd < last && data[lineEnd] != NEWLINE
      invariant lineStart <= lineEnd <= last && Lacks(data[lineStart..lineEnd], NEWLINE)
    {
      lineEnd := lineEnd + 1;
    }
  }

  lemma {:induction false} OccursAtStart(l: seq<Byte>, s: seq<Byte>, i: nat)
    requires s != []
    ensures OccursAt(l, s, i) ==> i < |l| && l[i] == s[0]
  {
    assert i + |s| <= |l| ==> l[i..i + |s|][0] == l[i];
  }

  /** The loop that looks for `s` in the line, which a NUL ends. */
  method LineContains(data: array<Byte>, lineStart: nat, lineEnd: nat, s: seq<Byte>) returns (found: bool)
    requires lineStart <= lineEnd < data.Length && data[lineEnd] == NUL
    requires Lacks(data[lineStart..lineEnd], NUL) && s != [] && Lacks(s, NUL)
    ensures found <==> Contains(data[lineStart..lineEnd], s)
  {
    ghost var line := data[lineStart..lineEnd];
    var check := lineStart;
    while check < lineEnd
      invariant lineStart <= check <= lineEnd
      invariant forall i: nat :: i < check - lineStart ==> !OccursAt(line, s, i)
    {
      ghost var i := check - lineStart;
      assert data[check] == line[i];
      if s[0] == data[check] {
        var diff := StrncmpAt(data, check, s, |s|, lineEnd);
        if check + |s| <= lineEnd {
          SliceOfSlice(data[..], lineStart, lineEnd, i, |s|);
        }
        if diff == 0 {
          assert OccursAt(line, s, i);
          return true;
        }
        assert check + |s| <= lineEnd ==> Lacks(line[i..i + |s|], NUL);
      } else {
        OccursAtStart(line, s, i);
      }
      check := check + 1;
    }
    return false;
  }

  // ----- what is left of the text while a buffer is scanned -----

  /** What follows the buffer's contents `b` in the text that the program sees. */
  function TailOf(b: seq<Byte>, unread: seq<Byte>, stray: bool): seq<Byte> {
    if stray && |b| == BUFSIZE then
      if b[BUFSIZE - 1] == NEWLINE then Broken(unread) else [NEWLINE] + unread
    else unread
  }

  lemma {:induction false} SeenIsBufferAndTail(b: seq<Byte>, unread: seq<Byte>, stray: bool)
    requires |b| <= BUFSIZE && (unread != [] ==> |b| == BUFSIZE)
    ensures Seen(b + unread, stray) == b + TailOf(b, unread, stray)
  {
    if |b| == BUFSIZE {
      assert (b + unread)[..BUFSIZE] == b && (b + unread)[BUFSIZE..] == unread;
      if stray && b[BUFSIZE - 1] != NEWLINE {
        AppendAssoc(b, [NEWLINE], unread);
      }
    } else {
      assert b + unread == b;
    }
  }

  /** The scanner reached the end of the buffer and takes what is left there for a line. */
  lemma {:induction false} FoundAtEnd(l: seq<Byte>, tail: seq<Byte>, unread: seq<Byte>, s: seq<Byte>)
    requires Lacks(l, NEWLINE) && |l| <= BUFSIZE && s != []
    requires tail == [NEWLINE] + unread || tail == unread == [] || (|l| == BUFSIZE && tail == unread)
    ensures Found(l + tail, s) == Matching([l], s) + Found(unread, s)
  {
    if tail == [NEWLINE] + unread {
      AppendAssoc(l, [NEWLINE], unread);
      FoundFront(l, unread, s);
    } else if tail == [] && unread == [] {
      assert l + tail == l;
      FoundLast(l, s);
      FoundLast([], s);
      EmptyHasNoMatch(s);
    } else {
      FoundFull(l, unread, s);
    }
  }

  // ----- printing -----

  /** fdputs of the string at `at` in the buffer. */
  method PutsAt(p: Process, data: array<Byte>, at: nat, ghost end: nat)
    requires p.Valid() && at <= end < data.Length && data[end] == NUL && Lacks(data[at..end], NUL)
    requires data != p.console.screen.video && data != p.console.keyBuffer
    modifies p.console.screen, p.console.screen.video
    ensures p.Valid() && p.console.View() == Apply(old(p.console.View()), Console.Write(data[at..end]))
  {
    var len := Strlen(data, at);
    forall i | at <= i < end ensures data[i] != NUL {
      assert data[i] == data[at..end][i - at];
    }
    assert at + len == end;
    var w := p.Write(1, data, at, len);
  }

  /** The four writes that report a line. */
  method PutLine(p: Process, fname: seq<Byte>, data: array<Byte>, at: nat, ghost end: nat)
    requires p.Valid() && at <= end < data.Length && data[end] == NUL && Lacks(data[at..end], NUL)
    requires data != p.console.screen.video && data != p.console.keyBuffer && Lacks(fname, NUL)
    modifies p.console.screen, p.console.screen.video
    ensures p.Valid()
    ensures p.console.View() == Apply(old(p.console.View()), Console.Write(Render(fname, [data[at..end]])))
  {
    ghost var start, line := p.console.View(), data[at..end];
    RenderOne(fname, line);
    WriteAppend(start, fname, [COLON]);
    WriteAppend(start, fname + [COLON], line);
    WriteAppend(start, fname + [COLON] + line, [NEWLINE]);
    Puts(p, fname);
    Puts(p, [COLON]);
    PutsAt(p, data, at, end);
    Puts(p, [NEWLINE]);
  }

  /** The console when the lines `ls` have been reported, too. */
  ghost function With(c: State, fname: seq<Byte>, ls: seq<seq<Byte>>): State
    requires c.Ok()
  {
    Apply(c, Console.Write(Render(fname, ls)))
  }

  /** Search one line and report it if it contains `s`. */
  method ReportLine(p: Process, s: seq<Byte>, fname: seq<Byte>, data: array<Byte>, at: nat, end: nat)
    requires p.Valid() && at <= end < data.Length && data[end] == NUL && Lacks(data[at..end], NUL)
    requires data != p.console.screen.video && data != p.console.keyBuffer
    requires s != [] && Lacks(s, NUL) && Lacks(fname, NUL)
    modifies p.console.screen, p.console.screen.video
    ensures p.Valid() && p.console.View() == With(old(p.console.View()), fname, Matching([data[at..end]], s))
  {
    ghost var line := data[at..end];
    MatchingOne(line, s);
    var found := LineContains(data, at, end, s);
    if found {
      PutLine(p, fname, data, at, end);
    } else {
      WriteNothing(p.console.View());
    }
  }

  /** Reporting one line and then the rest is reporting them all. */
  lemma {:induction false} WithBoth(c: State, fname: seq<Byte>, l: seq<Byte>, ls: seq<seq<Byte>>, s: seq<Byte>)
    requires c.Ok() && Lacks(fname, NUL) && Lacks(l, NUL)
    ensures With(With(c, fname, Matching([l], s)), fname, ls) == With(c, fname, Matching([l], s) + ls)
  {
    MatchingOne(l, s);
    RenderOne(fname, l);
    RenderAppend(fname, Matching([l], s), ls);
    WriteAppend(c, Render(fname, Matching([l], s)), Render(fname, ls));
  }

  // ----- the buffer -----

  /** The buffer, filled to `last`, as a read leaves it. */
  ghost predicate Filled(data: array<Byte>, last: nat, unread: seq<Byte>)
    reads data
  {
    && data.Length == BUFSIZE + 1 && last <= BUFSIZE
    && Lacks(data[..last], NUL) && (unread != [] ==> last == BUFSIZE)
  }

  /** The program's view of the text that is not yet reported. */
  ghost function Pending(data: array<Byte>, last: nat, unread: seq<Byte>): seq<Byte>
    requires data.Length == BUFSIZE + 1 && last <= BUFSIZE
    reads data
  {
    Seen(data[..last] + unread, data[BUFSIZE] == NEWLINE)
  }

  /** Carry a partial line from `lineStart` to the front. */
  method Carry(data: array<Byte>, lineStart: nat, last: nat)
    requires data.Length == BUFSIZE + 1 && 0 < lineStart <= last <= BUFSIZE && Lacks(data[lineStart..last], NUL)
    modifies data
    ensures data[..last - lineStart] == old(data[lineStart..last])
    ensures data[BUFSIZE] == if last == BUFSIZE then NUL else old(data[BUFSIZE])
  {
    data[last] := NUL;
    assert data[lineStart..last] == old(data[lineStart..last]);
    StrcpyDown(data, lineStart, last);
  }

  /** A carried line stands for the same text as before. */
  lemma {:induction false} CarrySeen(b: seq<Byte>, at: nat, unread: seq<Byte>, stray: bool)
    requires 0 < at <= |b| <= BUFSIZE && (unread != [] ==> |b| == BUFSIZE) && (|b| == BUFSIZE ==> !stray)
    ensures Seen(b[at..] + unread, stray) == b[at..] + TailOf(b, unread, stray)
  {
  }

  /** After the last line of the buffer the unread text is left. */
  lemma {:induction false} DoneSeen(b: seq<Byte>, unread: seq<Byte>, stray: bool)
    requires |b| <= BUFSIZE && (unread != [] ==> |b| == BUFSIZE)
    requires stray && |b| == BUFSIZE ==> b[BUFSIZE - 1] == NEWLINE
    ensures Seen(unread, stray) == TailOf(b, unread, stray)
  {
  }

  /** One complete line off the front of the rest. */
  lemma {:induction false} LineOff(b: seq<Byte>, from: nat, to: nat, tail: seq<Byte>, s: seq<Byte>)
    requires from <= to < |b| <= BUFSIZE && Lacks(b[from..to], NEWLINE) && b[to] == NEWLINE
    ensures Found(b[from..] + tail, s) == Matching([b[from..to]], s) + Found(b[to + 1..] + tail, s)
  {
    assert b[from..] + tail == b[from..to] + [NEWLINE] + (b[to + 1..] + tail);
    FoundFront(b[from..to], b[to + 1..] + tail, s);
  }

  /** What is left of the text after the line from `from` to `to` of buffer `b`. */
  function RestAfter(b: seq<Byte>, to: nat, tail: seq<Byte>, unread: seq<Byte>): seq<Byte>
    requires to <= |b|
  {
    if to < |b| then b[to + 1..] + tail else unread
  }

  /**
   * Terminate, search and report the line `l` that ends at `lineEnd`; `rest` is the text from
   * it on, `next` the text after it.
   */
  method CloseLine(p: Process, s: seq<Byte>, fname: seq<Byte>, data: array<Byte>, lineStart: nat, lineEnd: nat,
                   ghost l: seq<Byte>, ghost rest: seq<Byte>, ghost next: seq<Byte>)
    requires p.Valid() && data != p.console.screen.video && data != p.console.keyBuffer
    requires lineStart <= lineEnd < data.Length && data[lineStart..lineEnd] == l && Lacks(l, NUL)
    requires s != [] && Lacks(s, NUL) && Lacks(fname, NUL)
    requires Found(rest, s) == Matching([l], s) + Found(next, s)
    modifies data, p.console.screen, p.console.screen.video
    ensures p.Valid()
    ensures With(p.console.View(), fname, Found(next, s)) == With(old(p.console.View()), fname, Found(rest, s))
    ensures data[lineEnd] == NUL && forall k :: 0 <= k < data.Length && k != lineEnd ==> data[k] == old(data[k])
  {
    data[lineEnd] := NUL;
    assert data[lineStart..lineEnd] == l;
    WithBoth(p.console.View(), fname, l, Found(next, s), s);
    ReportLine(p, s, fname, data, lineStart, lineEnd);
  }

  /** What the inner loop leaves alone: the buffer from `lineStart` on still is as the read left it (`d`). */
  ghost predicate Untouched(data: array<Byte>, d: seq<Byte>, lineStart: nat)
    reads data
  {
    data.Length == |d| == BUFSIZE + 1 && forall k :: lineStart <= k <= BUFSIZE ==> data[k] == d[k]
  }

  ghost function RestFrom(d: seq<Byte>, last: nat, unread: seq<Byte>, lineStart: nat): seq<Byte>
    requires |d| == BUFSIZE + 1 && lineStart <= last <= BUFSIZE
  {
    d[lineStart..last] + TailOf(d[..last], unread, d[BUFSIZE] == NEWLINE)
  }

  lemma {:induction false} SlicesOf(d: seq<Byte>, from: nat, to: nat, last: nat)
    requires from <= to <= last <= |d|
    ensures d[..last][from..to] == d[from..to] && d[..last][from..] == d[from..last]
  {
  }

  /** The branch that keeps a partial line: what is pending stays the same. */
  method CarryLine(data: array<Byte>, last: nat, lineStart: nat, ghost d: seq<Byte>, ghost unread: seq<Byte>)
    returns (n: nat)
    requires Untouched(data, d, lineStart) && 0 < lineStart <= last <= BUFSIZE
    requires Lacks(d[..last], NUL) && (unread != [] ==> last == BUFSIZE) && data[last] != NEWLINE
    modifies data
    ensures n == last - lineStart && Lacks(data[..n], NUL)
    ensures Pending(data, n, unread) == RestFrom(d, last, unread, lineStart)
  {
    ghost var b, stray := d[..last], d[BUFSIZE] == NEWLINE;
    SlicesOf(d, lineStart, last, last);
    assert data[lineStart..last] == d[lineStart..last];
    CarrySeen(b, lineStart, unread, stray);
    Carry(data, lineStart, last);
    return last - lineStart;
  }

  /** The branch that searches the line from `lineStart` to `lineEnd`. */
  method TakeLine(p: Process, s: seq<Byte>, fname: seq<Byte>, data: array<Byte>, last: nat, cnt: nat, lineStart: nat,
                  lineEnd: nat, ghost d: seq<Byte>, ghost unread: seq<Byte>)
    requires p.Valid() && data != p.console.screen.video && data != p.console.keyBuffer
    requires Untouched(data, d, lineStart) && lineStart <= lineEnd <= last <= BUFSIZE
    requires (lineStart == last ==> last == 0)
    requires Lacks(d[..last], NUL) && (unread != [] ==> last == BUFSIZE)
    requires (cnt == 0 ==> unread == [] && last < BUFSIZE)
    requires s != [] && Lacks(s, NUL) && Lacks(fname, NUL)
    requires Lacks(data[lineStart..lineEnd], NEWLINE) && (lineEnd < last ==> data[lineEnd] == NEWLINE)
    requires data[lineEnd] == NEWLINE || cnt == 0 || lineStart == 0
    modifies data, p.console.screen, p.console.screen.video
    ensures p.Valid() && Untouched(data, d, lineEnd + 1)
    ensures With(p.console.View(), fname, Found(RestNext(d, last, unread, lineEnd), s))
         == old(With(p.console.View(), fname, Found(RestFrom(d, last, unread, lineStart), s)))
    ensures lineEnd + 1 >= last ==> RestNext(d, last, unread, lineEnd) == Seen(unread, data[BUFSIZE] == NEWLINE)
  {
    hide GrepSpec.Found, GrepSpec.Broken, Rofs.WellFormed, FileTable.TableOk, Console.Apply, TailOf, With, Matching,
      Seen;
    ghost var b, stray := d[..last], d[BUFSIZE] == NEWLINE;
    SlicesOf(d, lineStart, lineEnd, last);
    assert data[lineStart..lineEnd] == d[lineStart..lineEnd];
    EndOfLine(b, lineStart, lineEnd, unread, stray, data[lineEnd] == NEWLINE, cnt, s);
    RestNextIsRestAfter(d, last, unread, lineEnd);
    CloseLine(p, s, fname, data, lineStart, lineEnd, b[lineStart..lineEnd],
              RestFrom(d, last, unread, lineStart), RestNext(d, last, unread, lineEnd));
  }

  /** What is left of the text after the line that ends at `n`. */
  ghost function RestNext(d: seq<Byte>, last: nat, unread: seq<Byte>, n: nat): seq<Byte>
    requires |d| == BUFSIZE + 1 && n <= last <= BUFSIZE
  {
    if n < last then RestFrom(d, last, unread, n + 1) else unread
  }

  lemma {:induction false} RestNextIsRestAfter(d: seq<Byte>, last: nat, unread: seq<Byte>, n: nat)
    requires |d| == BUFSIZE + 1 && n <= last <= BUFSIZE
    ensures RestNext(d, last, unread, n)
      == RestAfter(d[..last], n, TailOf(d[..last], unread, d[BUFSIZE] == NEWLINE), unread)
  {
    if n < last { SlicesOf(d, n + 1, last, last); }
  }

  /**
   * The inner loop: report the lines in the buffer; carry a partial one to the front
   * (`left` is its length) unless the text ends here or it fills the buffer.
   */
  method ScanBuffer(p: Process, s: seq<Byte>, fname: seq<Byte>, data: array<Byte>, last: nat, cnt: nat,
                    ghost unread: seq<Byte>)
    returns (left: nat)
    requires p.Valid() && data != p.console.screen.video && data != p.console.keyBuffer
    requires Filled(data, last, unread) && (cnt == 0 ==> unread == [] && last < BUFSIZE)
    requires s != [] && Lacks(s, NUL) && Lacks(fname, NUL)
    modifies data, p.console.screen, p.console.screen.video
    ensures p.Valid()
    ensures left < BUFSIZE && left <= last && (cnt == 0 ==> left == 0) && Lacks(data[..left], NUL)
    ensures old(Lacks(data[..last], NEWLINE)) ==> left == 0
    ensures With(p.console.View(), fname, Found(Pending(data, left, unread), s))
         == old(With(p.console.View(), fname, Found(Pending(data, last, unread), s)))
  {
    hide GrepSpec.Found, GrepSpec.Broken, Rofs.WellFormed, FileTable.TableOk, Console.Apply, With, TailOf, Seen;
    ghost var d := data[..];
    ghost var final := With(p.console.View(), fname, Found(Pending(data, last, unread), s));
    SeenIsBufferAndTail(d[..last], unread, d[BUFSIZE] == NEWLINE);
    assert d[0..last] == d[..last] == data[..last];
    var lineStart := 0;
    while true
      invariant p.Valid()
      invariant lineStart <= last && (lineStart == last ==> last == 0)
      invariant Lacks(d[..last], NEWLINE) ==> lineStart == 0
      invariant Untouched(data, d, lineStart)
      invariant With(p.console.View(), fname, Found(RestFrom(d, last, unread, lineStart), s)) == final
      decreases last - lineStart
    {
      var lineEnd := FindEnd(data, lineStart, last);
      if data[lineEnd] != NEWLINE && cnt != 0 && lineStart != 0 {
        left := CarryLine(data, last, lineStart, d, unread);
        break;
      }
      assert lineEnd < last ==> d[..last][lineEnd] == NEWLINE;
      TakeLine(p, s, fname, data, last, cnt, lineStart, lineEnd, d, unread);
      lineStart := lineEnd + 1;
      if lineStart >= last {
        assert data[..0] + unread == unread;
        left := 0;
        break;
      }
    }
  }

  /** A line that is taken off: what it leaves, and, at the end of the buffer, how that is seen. */
  lemma {:induction false} EndOfLine(b: seq<Byte>, from: nat, to: nat, unread: seq<Byte>, stray: bool,
                      newline: bool, cnt: nat, s: seq<Byte>)
    requires from <= to <= |b| <= BUFSIZE && (unread != [] ==> |b| == BUFSIZE) && s != []
    requires Lacks(b[from..to], NEWLINE) && (to < |b| ==> b[to] == NEWLINE)
    requires newline || cnt == 0 || from == 0
    requires cnt == 0 ==> unread == [] && |b| < BUFSIZE
    requires to == |b| == BUFSIZE ==> newline == stray && (from < to)
    ensures var tail := TailOf(b, unread, stray);
            var rest := RestAfter(b, to, tail, unread);
            && Found(b[from..] + tail, s) == Matching([b[from..to]], s) + Found(rest, s)
            && (to + 1 >= |b| ==> rest == Seen(unread, if to == BUFSIZE then false else stray))
  {
    var tail := TailOf(b, unread, stray);
    if to < |b| {
      LineOff(b, from, to, tail, s);
      if to + 1 == |b| {
        DoneSeen(b, unread, stray);
        assert b[to + 1..] + tail == tail;
      }
    } else {
      assert b[from..] == b[from..to];
      if |b| == BUFSIZE { assert b[from..to][BUFSIZE - 1 - from] == b[BUFSIZE - 1]; }
      FoundAtEnd(b[from..to], tail, unread, s);
    }
  }

  /** Reading more of the file into the buffer leaves the pending text as it is. */
  lemma {:induction false} RefillKeepsText(d: seq<Byte>, last: nat, text: seq<Byte>, pos: nat, cnt: nat)
    requires last + cnt <= |d| && pos + cnt <= |text|
    ensures Written(d, last, text[pos..pos + cnt])[..last + cnt] + text[pos + cnt..] == d[..last] + text[pos..]
  {
    var chunk := text[pos..pos + cnt];
    assert Written(d, last, chunk)[..last + cnt] == d[..last] + chunk;
    assert chunk + text[pos + cnt..] == text[pos..];
    AppendAssoc(d[..last], chunk, text[pos + cnt..]);
  }

  /** The names in the directory hold no newline, so that each is a line. */
  predicate NamesAreLines(img: Image)
    requires WellFormed(img)
  {
    forall i :: 0 <= i < img.numDirEntries ==> Lacks(NameOf(img.dentries[i]), NEWLINE)
  }

  /** Descriptor `fd` stands at `pos`: of the directory, if `dir`, or of a file with this text. */
  ghost predicate Source(img: Image, t: Table, fd: int, dir: bool, text: seq<Byte>, pos: nat)
    requires WellFormed(img) && TableOk(img, t)
  {
    if dir then Browsing(t, fd, pos) && pos <= img.numDirEntries && NamesAreLines(img)
    else Reading(img, t, fd, text, pos) && pos <= |text| && Lacks(text, NUL)
  }

  lemma {:induction false} SourceIsOpen(img: Image, t: Table, fd: int, dir: bool, text: seq<Byte>, pos: nat)
    requires WellFormed(img) && TableOk(img, t) && Source(img, t, fd, dir, text, pos)
    ensures 2 <= fd < MAX_FILES == |t| && t[fd].open && SameBut(t, t, fd)
    ensures if dir then pos <= img.numDirEntries else pos <= |text|
  {
  }

  /** What is still to be reported when the buffer holds `b`. */
  ghost function Todo(img: Image, b: seq<Byte>, stray: bool, dir: bool, text: seq<Byte>, pos: nat,
                      s: seq<Byte>): seq<seq<Byte>>
    requires WellFormed(img) && (if dir then pos <= img.numDirEntries else pos <= |text|)
  {
    if dir then Found(Listing(img, pos), s) else Found(Seen(b + text[pos..], stray), s)
  }

  /** One read of the outer loop. */
  method Refill(p: Process, fd: int, data: array<Byte>, last: nat, ghost dir: bool, ghost text: seq<Byte>,
                ghost pos: nat)
    returns (cnt: nat)
    requires p.Valid() && data != p.console.screen.video && data != p.console.keyBuffer
    requires data.Length == BUFSIZE + 1 && last < BUFSIZE && Lacks(data[..last], NUL) && (dir ==> last == 0)
    requires Source(p.img, p.files[..], fd, dir, text, pos)
    modifies p.files, data
    ensures p.Valid() && SameBut(old(p.files[..]), p.files[..], fd) && last + cnt <= BUFSIZE
    ensures dir ==> NameRead(p.img, p.files[..], fd, pos, data[..], 0, cnt)
    ensures !dir ==>
      && pos + cnt <= |text| && Source(p.img, p.files[..], fd, dir, text, pos + cnt)
      && Filled(data, last + cnt, text[pos + cnt..]) && (cnt == 0 ==> pos == |text|)
      && Pending(data, last + cnt, text[pos + cnt..]) == old(Pending(data, last, text[pos..]))
  {
    hide GrepSpec.Found, GrepSpec.Broken, Rofs.WellFormed, FileTable.TableOk, Console.Apply, Programs.Reading,
      Programs.NameRead, SameBut;
    ghost var d := data[..];
    var n := ReadText(p, fd, data, last, BUFSIZE - last, dir, text, pos);
    if n == -1 {
      assert false;
    }
    if !dir {
      RefillKeepsText(d, last, text, pos, n);
      assert data[..last + n] == data[..][..last + n];
      assert Lacks(data[..last + n], NUL);
    }
    return n;
  }

  lemma {:induction false} NothingFound(c: State, fname: seq<Byte>, s: seq<Byte>)
    requires c.Ok() && s != []
    ensures With(c, fname, Found([], s)) == c && Seen([], true) == Seen([], false) == []
  {
    FoundLast([], s);
    EmptyHasNoMatch(s);
    WriteNothing(c);
  }

  /** The entry behind `pos`, unless its name is empty or there is none: then reading stops. */
  function Behind(img: Image, pos: nat, cnt: int): nat {
    if cnt == 0 then pos else pos + 1
  }

  /** A short text in the buffer has been reported, and nothing carried. */
  lemma {:induction false} BufferReported(c: State, u: State, fname: seq<Byte>, b: seq<Byte>, stray: bool,
                      after: bool, s: seq<Byte>)
    requires c.Ok() && u.Ok() && |b| < BUFSIZE && s != []
    requires With(u, fname, Found(Seen([] + [], after), s)) == With(c, fname, Found(Seen(b + [], stray), s))
    ensures u == With(c, fname, Found(b, s))
  {
    ShortSeen(b);
    hide Found, Apply, Seen;
    NothingFound(u, fname, s);
  }

  /** The name of entry `pos` has been reported: what is left are the names behind it. */
  lemma {:induction false} NameReported(c: State, u: State, fname: seq<Byte>, img: Image, pos: nat, s: seq<Byte>)
    requires c.Ok() && WellFormed(img) && NamesAreLines(img) && pos < img.numDirEntries && s != [] && Lacks(fname, NUL)
    requires NameOf(img.dentries[pos]) != [] && u == With(c, fname, Found(NameOf(img.dentries[pos]), s))
    ensures u.Ok() && With(u, fname, Found(Listing(img, pos + 1), s)) == With(c, fname, Found(Listing(img, pos), s))
  {
    hide Found, Apply, Matching;
    var name := NameOf(img.dentries[pos]);
    FoundLast(name, s);
    FoundFront(name, Listing(img, pos + 1), s);
    WithBoth(c, fname, name, Found(Listing(img, pos + 1), s), s);
  }

  /** Nothing is left where reading stops. */
  lemma {:induction false} ListingEnds(c: State, fname: seq<Byte>, img: Image, pos: nat, s: seq<Byte>)
    requires c.Ok() && WellFormed(img) && pos <= img.numDirEntries && s != []
    requires pos < img.numDirEntries ==> NameOf(img.dentries[pos]) == []
    ensures Found(Listing(img, pos), s) == [] && With(c, fname, Found([], s)) == c
  {
    NothingFound(c, fname, s);
    FoundLast([], s);
    EmptyHasNoMatch(s);
  }

  lemma {:induction false} ShortSeen(b: seq<Byte>)
    requires |b| < BUFSIZE
    ensures Seen(b + [], true) == Seen(b + [], false) == b && Seen([] + [], true) == Seen([] + [], false) == []
  {
    assert b + [] == b;
  }

  /** At the end of a file nothing is left to report. */
  lemma {:induction false} NothingLeft(text: seq<Byte>, stray: bool, s: seq<Byte>)
    requires s != []
    ensures Found(Seen([] + text[|text|..], stray), s) == []
  {
    assert [] + text[|text|..] == [];
    FoundLast([], s);
    EmptyHasNoMatch(s);
  }

  /** What the read has put into the buffer, ready to be searched. */
  lemma {:induction false} DirectoryBuffer(img: Image, t: Table, fd: int, pos: nat, d: seq<Byte>, cnt: nat)
    requires WellFormed(img) && NamesAreLines(img) && pos <= img.numDirEntries
    requires NameRead(img, t, fd, pos, d, 0, cnt) && |d| == BUFSIZE + 1
    ensures cnt <= FILE_NAME_LENGTH && d[..cnt] == (if pos < img.numDirEntries then NameOf(img.dentries[pos]) else [])
    ensures Lacks(d[..cnt], NUL) && Lacks(d[..cnt], NEWLINE) && Behind(img, pos, cnt) <= img.numDirEntries
  {
    assert cnt > 0 ==> d[0..0 + cnt] == d[..cnt];
  }

  /** The body of the outer loop: `cnt` bytes are read, `left` are carried on. */
  method Round(p: Process, s: seq<Byte>, fname: seq<Byte>, data: array<Byte>, fd: int, last: nat,
               ghost dir: bool, ghost text: seq<Byte>, ghost pos: nat)
    returns (cnt: nat, left: nat, ghost now: nat)
    requires p.Valid() && data != p.console.screen.video && data != p.console.keyBuffer
    requires data.Length == BUFSIZE + 1 && last < BUFSIZE && Lacks(data[..last], NUL) && (dir ==> last == 0)
    requires Source(p.img, p.files[..], fd, dir, text, pos) && s != [] && Lacks(s, NUL) && Lacks(fname, NUL)
    modifies p.files, data, p.console.screen, p.console.screen.video
    ensures p.Valid() && SameBut(old(p.files[..]), p.files[..], fd)
    ensures left < BUFSIZE && Lacks(data[..left], NUL) && (dir ==> left == 0) && (cnt > 0 ==> now > pos)
    ensures 2 <= fd < MAX_FILES && p.files[fd].open && (cnt > 0 ==> Source(p.img, p.files[..], fd, dir, text, now))
    ensures if dir then now <= p.img.numDirEntries else now <= |text|
    ensures With(p.console.View(), fname, Todo(p.img, data[..left], data[BUFSIZE] == NEWLINE, dir, text, now, s))
         == old(With(p.console.View(), fname, Todo(p.img, data[..last], data[BUFSIZE] == NEWLINE, dir, text, pos, s)))
    ensures cnt == 0 ==> Todo(p.img, data[..left], data[BUFSIZE] == NEWLINE, dir, text, now, s) == []
  {
    hide GrepSpec.Found, GrepSpec.Seen, FileTable.TableOk, FileTable.Text, Console.Apply,
      Programs.SameBut, Programs.Reading;
    ghost var start, b := p.console.View(), data[..last];
    cnt := Refill(p, fd, data, last, dir, text, pos);
    now := if dir then Behind(p.img, pos, cnt) else pos + cnt;
    ghost var unread, full, stray := if dir then [] else text[now..], data[..last + cnt], data[BUFSIZE] == NEWLINE;
    if dir {
      DirectoryBuffer(p.img, p.files[..], fd, pos, data[..], cnt);
      assert data[..cnt] == data[..][..cnt];
    }
    if !dir {
      SourceIsOpen(p.img, p.files[..], fd, dir, text, now);
    }
    left := ScanBuffer(p, s, fname, data, last + cnt, cnt, unread);
    assert left == 0 ==> data[..left] == [];
    if dir {
      BufferReported(start, p.console.View(), fname, full, stray, data[BUFSIZE] == NEWLINE, s);
      if cnt == 0 {
        ListingEnds(start, fname, p.img, pos, s);
      } else {
        NameReported(start, p.console.View(), fname, p.img, pos, s);
      }
    } else if cnt == 0 {
      NothingLeft(text, data[BUFSIZE] == NEWLINE, s);
    }
  }

  /** The outer loop: read, report, until nothing more is read. */
  method ScanFile(p: Process, s: seq<Byte>, fname: seq<Byte>, data: array<Byte>, fd: int, ghost dir: bool,
                  ghost text: seq<Byte>)
    requires p.Valid() && data != p.console.screen.video && data != p.console.keyBuffer
    requires data.Length == BUFSIZE + 1 && Source(p.img, p.files[..], fd, dir, text, 0)
    requires s != [] && Lacks(s, NUL) && Lacks(fname, NUL)
    modifies p.files, data, p.console.screen, p.console.screen.video
    ensures p.Valid()
    ensures p.console.View() == With(old(p.console.View()), fname,
      Todo(p.img, [], old(data[BUFSIZE]) == NEWLINE, dir, text, 0, s))
    ensures 2 <= fd < MAX_FILES && p.files[fd].open
    ensures SameBut(old(p.files[..]), p.files[..], fd)
  {
    hide Todo, Rofs.WellFormed, FileTable.TableOk, Console.Apply, Source, Programs.SameBut;
    SourceIsOpen(p.img, p.files[..], fd, dir, text, 0);
    ghost var pos: nat := 0;
    ghost var final := With(p.console.View(), fname, Todo(p.img, [], data[BUFSIZE] == NEWLINE, dir, text, 0, s));
    assert data[..0] == [];
    var last: nat := 0;
    while true
      invariant p.Valid() && Source(p.img, p.files[..], fd, dir, text, pos)
      invariant last < BUFSIZE && Lacks(data[..last], NUL) && (dir ==> last == 0)
      invariant if dir then pos <= p.img.numDirEntries else pos <= |text|
      invariant final ==
        With(p.console.View(), fname, Todo(p.img, data[..last], data[BUFSIZE] == NEWLINE, dir, text, pos, s))
      invariant SameBut(old(p.files[..]), p.files[..], fd)
      decreases (if dir then p.img.numDirEntries else |text|) - pos
    {
      ghost var was := p.files[..];
      var cnt;
      cnt, last, pos := Round(p, s, fname, data, fd, last, dir, text, pos);
      SameButChain(old(p.files[..]), was, p.files[..], fd);
      if cnt == 0 {
        NothingPrinted(p.console.View(), fname);
        break;
      }
    }
  }

  lemma {:induction false} NothingPrinted(c: State, fname: seq<Byte>)
    requires c.Ok()
    ensures With(c, fname, []) == c
  {
    WriteNothing(c);
  }

  /** All that was open is open, at the same place, and nothing else is. */
  ghost predicate SameOpen(t: Table, u: Table) {
    |t| == |u| && forall k :: 0 <= k < |t| ==> u[k].open == t[k].open && (t[k].open ==> u[k] == t[k])
  }

  /** The lines that are reported of `fname`; the buffer never fills up with names of a directory. */
  ghost function Reported(img: Image, fname: seq<Byte>, stray: bool, s: seq<Byte>): seq<seq<Byte>>
    requires WellFormed(img) && Target(img, fname).Some?
  {
    Found(if IsDirectory(img, fname) then FileText(img, fname) else Seen(FileText(img, fname), stray), s)
  }

  /** The report is the wanted one. */
  ghost predicate Right(img: Image, fname: seq<Byte>, stray: bool, s: seq<Byte>)
    requires WellFormed(img) && Target(img, fname).Some?
  {
    var t := FileText(img, fname);
    MatchesFit(t, s) && (stray && !IsDirectory(img, fname) ==> !CutsMatch(t, s))
  }

  lemma {:induction false} RightIsWanted(img: Image, fname: seq<Byte>, stray: bool, s: seq<Byte>)
    requires WellFormed(img) && Target(img, fname).Some? && s != []
    ensures Reported(img, fname, stray, s) == Wanted(FileText(img, fname), s) <==> Right(img, fname, stray, s)
  {
    hide Found, Wanted, MatchesFit, CutsMatch, FileText;
    if stray && !IsDirectory(img, fname) {
      BrokenIsWanted(FileText(img, fname), s);
    } else {
      FoundIsWanted(FileText(img, fname), s);
    }
  }

  /**
   * do_one_file, with whatever bytes `data` holds at the start.  `s` is not empty because
   * getargs does not return an empty argument.
   */
  method DoOneFile(p: Process, s: seq<Byte>, fname: seq<Byte>, data: array<Byte>) returns (r: int)
    requires p.Valid() && data != p.console.screen.video && data != p.console.keyBuffer && data.Length == BUFSIZE + 1
    requires s != [] && Lacks(s, NUL) && Lacks(fname, NUL)
    requires IsDirectory(p.img, fname) ==> NamesAreLines(p.img)
    modifies p.files, data, p.console.screen, p.console.screen.video
    ensures p.Valid() && SameOpen(old(p.files[..]), p.files[..])
    ensures var found := Target(p.img, fname).Some? && HasFree(old(p.files[..]));
            && r == (if found then 0 else -1)
            && p.console.View() == Apply(old(p.console.View()), Console.Write(
                 if found then Render(fname, Reported(p.img, fname, old(data[BUFSIZE]) == NEWLINE, s))
                 else OPEN_FAILED))
    // in short: the lines that contain s, once each, in order
    ensures r == 0 && Right(p.img, fname, old(data[BUFSIZE]) == NEWLINE, s) ==>
      p.console.View() == Apply(old(p.console.View()), Console.Write(Render(fname, Wanted(FileText(p.img, fname), s))))
  {
    hide GrepSpec.Found, GrepSpec.Wanted, GrepSpec.MatchesFit, GrepSpec.Broken, Rofs.WellFormed, FileTable.TableOk,
      Console.Apply, Right, Reported, Todo, SameBut;
    ghost var t, stray := p.files[..], data[BUFSIZE] == NEWLINE;
    OpenTakesLeast(p.img, t, fname);
    var fd := p.Open(fname);
    if fd == -1 {
      Puts(p, OPEN_FAILED);
      return -1;
    }
    ghost var u, dir, text := p.files[..], IsDirectory(p.img, fname), FileText(p.img, fname);
    RightIsWanted(p.img, fname, stray, s);
    OpenedSource(p.img, u, fd, fname, t[fd], stray, s);
    ScanFile(p, s, fname, data, fd, dir, text);
    ghost var v := p.files[..];
    CloseFd(p, fd);
    OpenAndClosed(t, u, v, p.files[..], fd);
    return 0;
  }

  /** A freshly opened descriptor stands at the start of what is to be reported. */
  lemma {:induction false} OpenedSource(img: Image, u: Table, fd: int, fname: seq<Byte>, was: File, stray: bool,
                      s: seq<Byte>)
    requires WellFormed(img) && TableOk(img, u) && 2 <= fd < MAX_FILES && Target(img, fname).Some?
    requires var d := Target(img, fname).value; u[fd] == File(d.inode, true, 0, OpsOf(d.fileType).value)
    requires IsDirectory(img, fname) ==> NamesAreLines(img)
    ensures Source(img, u, fd, IsDirectory(img, fname), FileText(img, fname), 0)
    ensures Todo(img, [], stray, IsDirectory(img, fname), FileText(img, fname), 0, s) == Reported(img, fname, stray, s)
  {
    var t := FileText(img, fname);
    assert [] + t[0..] == t;
  }

  /** Opening, reading and closing one descriptor leaves the others. */
  lemma {:induction false} OpenAndClosed(t: Table, u: Table, v: Table, w: Table, fd: int)
    requires |t| == |u| == MAX_FILES && 0 <= fd < MAX_FILES && !t[fd].open && u == t[fd := u[fd]]
    requires SameBut(u, v, fd) && w == v[fd := v[fd].(open := false)]
    ensures SameOpen(t, w)
  {
  }

  /** close of an open descriptor, which does not fail. */
  method CloseFd(p: Process, fd: int)
    requires p.Valid() && 2 <= fd < MAX_FILES && p.files[fd].open
    modifies p.files
    ensures p.Valid() && p.files[..] == old(p.files[..])[fd := old(p.files[fd]).(open := false)]
  {
    CloseExactly(p.img, p.files[..], fd);
    var closed := p.Close(fd);
    if closed == -1 {
      assert false;
    }
  }
}
