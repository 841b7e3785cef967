/**
 * What `grep` should print, said without its buffer: split the file into lines and keep
 * those that contain the search string.  What the program really prints differs in two
 * ways, both captured here: a line is examined in pieces of at most BUFSIZE bytes, and a
 * newline left in the last byte of the uninitialised buffer breaks one line in two.
 */
module GrepSpec {
  import opened Bytes
  import opened FileTable

  const BUFSIZE := 1024

  // ----- lines and matches -----

  /** The lines of `t`; text after the last newline is a line too. */
  function Lines(t: seq<Byte>): (ls: seq<seq<Byte>>)
    ensures ls != []
    decreases |t|
  {
    var i := IndexOf(t, NEWLINE);
    if i == |t| then [t] else [t[..i]] + Lines(t[i + 1..])
  }

  ghost predicate OccursAt(l: seq<Byte>, s: seq<Byte>, i: nat) {
    i + |s| <= |l| && l[i..i + |s|] == s
  }

  ghost predicate Contains(l: seq<Byte>, s: seq<Byte>) {
    exists i: nat :: OccursAt(l, s, i)
  }

  /** The lines that contain `s`, in order, each as often as it is there. */
  ghost function Matching(ls: seq<seq<Byte>>, s: seq<Byte>): seq<seq<Byte>> {
    if ls == [] then []
    else (if Contains(ls[0], s) then [ls[0]] else []) + Matching(ls[1..], s)
  }

  /** A line cut into pieces of BUFSIZE bytes. */
  function Chop(l: seq<Byte>): (ps: seq<seq<Byte>>)
    decreases |l|
  {
    if |l| <= BUFSIZE then [l] else [l[..BUFSIZE]] + Chop(l[BUFSIZE..])
  }

  function ChopAll(ls: seq<seq<Byte>>): seq<seq<Byte>> {
    if ls == [] then [] else Chop(ls[0]) + ChopAll(ls[1..])
  }

  /** What the program reports on text `t`. */
  ghost function Found(t: seq<Byte>, s: seq<Byte>): seq<seq<Byte>> {
    Matching(ChopAll(Lines(t)), s)
  }

  /** What it ought to report. */
  ghost function Wanted(t: seq<Byte>, s: seq<Byte>): seq<seq<Byte>> {
    Matching(Lines(t), s)
  }

  /** The bytes that reach the terminal. */
  function Render(fname: seq<Byte>, ls: seq<seq<Byte>>): seq<Byte> {
    if ls == [] then [] else fname + [COLON] + ls[0] + [NEWLINE] + Render(fname, ls[1..])
  }

  /** `t` with a newline put where the first full buffer ends inside a line. */
  function Broken(t: seq<Byte>): seq<Byte>
    decreases |t|
  {
    if |t| < BUFSIZE then t
    else if t[BUFSIZE - 1] == NEWLINE then t[..BUFSIZE] + Broken(t[BUFSIZE..])
    else t[..BUFSIZE] + [NEWLINE] + t[BUFSIZE..]
  }

  /** Where that newline goes: the end of the first full buffer that does not end with a newline. */
  function Cut(t: seq<Byte>): (k: nat)
    ensures k <= |t|
    decreases |t|
  {
    if |t| < BUFSIZE then |t|
    else if t[BUFSIZE - 1] == NEWLINE then BUFSIZE + Cut(t[BUFSIZE..])
    else BUFSIZE
  }

  function FirstLine(t: seq<Byte>): seq<Byte> {
    t[..IndexOf(t, NEWLINE)]
  }

  function LastLine(t: seq<Byte>): seq<Byte>
    decreases |t|
  {
    var i := IndexOf(t, NEWLINE);
    if i == |t| then t else LastLine(t[i + 1..])
  }

  /** It goes into a line that contains `s`, not at its end. */
  ghost predicate CutsMatch(t: seq<Byte>, s: seq<Byte>) {
    var k := Cut(t);
    FirstLine(t[k..]) != [] && Contains(LastLine(t[..k]) + FirstLine(t[k..]), s)
  }

  /** A text that a file can have, after the kernel's filter. */
  predicate VisibleOnly(t: seq<Byte>) {
    forall i :: 0 <= i < |t| ==> Visible(t[i]) == t[i]
  }

  /** The text the program sees; `stray` says whether its buffer's spare byte starts as a newline. */
  function Seen(t: seq<Byte>, stray: bool): seq<Byte> {
    if stray then Broken(t) else t
  }

  ghost predicate AllFit(ls: seq<seq<Byte>>, s: seq<Byte>) {
    forall k :: 0 <= k < |ls| && Contains(ls[k], s) ==> |ls[k]| <= BUFSIZE
  }

  /** Every line to be reported fits the buffer. */
  ghost predicate MatchesFit(t: seq<Byte>, s: seq<Byte>) {
    AllFit(Lines(t), s)
  }

  // ----- how these functions distribute -----

  lemma {:induction false} MatchingAppend(a: seq<seq<Byte>>, b: seq<seq<Byte>>, s: seq<Byte>)
    ensures Matching(a + b, s) == Matching(a, s) + Matching(b, s)
  {
    if a == [] {
      assert a + b == b;
    } else {
      assert (a + b)[0] == a[0] && (a + b)[1..] == a[1..] + b;
      MatchingAppend(a[1..], b, s);
    }
  }

  lemma {:induction false} RenderAppend(fname: seq<Byte>, a: seq<seq<Byte>>, b: seq<seq<Byte>>)
    ensures Render(fname, a + b) == Render(fname, a) + Render(fname, b)
  {
    if a == [] {
      assert a + b == b;
    } else {
      assert (a + b)[0] == a[0] && (a + b)[1..] == a[1..] + b;
      RenderAppend(fname, a[1..], b);
    }
  }

  /** A line and its newline can be taken off the front of a text. */
  lemma {:induction false} LinesFront(l: seq<Byte>, rest: seq<Byte>)
    requires Lacks(l, NEWLINE)
    ensures Lines(l + [NEWLINE] + rest) == [l] + Lines(rest)
  {
    var t := l + [NEWLINE] + rest;
    IndexOfIs(t, NEWLINE, |l|);
    assert t[..|l|] == l && t[|l| + 1..] == rest;
  }

  lemma {:induction false} LinesLast(l: seq<Byte>)
    requires Lacks(l, NEWLINE)
    ensures Lines(l) == [l]
  {
    IndexOfIs(l, NEWLINE, |l|);
  }

  /** A line contains `s` if it is `s` with something before it and behind it, perhaps nothing. */
  lemma {:induction false} ContainsIs(l: seq<Byte>, s: seq<Byte>)
    ensures Contains(l, s) <==> exists a, b :: l == a + s + b
  {
    if Contains(l, s) {
      var i: nat :| OccursAt(l, s, i);
      assert l == l[..i] + s + l[i + |s|..];
    }
    if a, b :| l == a + s + b {
      assert OccursAt(l, s, |a|);
    }
  }

  /**
   * What grep ought to print of a file: its lines one after the other, each cut off at a
   * newline; of one that contains `s`, the file's name, a colon, the line and a newline.
   */
  lemma {:induction false} WantedIs(fname: seq<Byte>, l: seq<Byte>, rest: seq<Byte>, s: seq<Byte>)
    requires Lacks(l, 10)
    ensures var shown := if exists a, b :: l == a + s + b then fname + [58] + l + [10] else [];
            && Render(fname, Wanted(l + [10] + rest, s)) == shown + Render(fname, Wanted(rest, s))
            && Render(fname, Wanted(l, s)) == shown
  {
    hide Contains;
    ContainsIs(l, s);
    LinesFront(l, rest);
    LinesLast(l);
    MatchingOne(l, s);
    MatchingAppend([l], Lines(rest), s);
    RenderAppend(fname, Matching([l], s), Wanted(rest, s));
    RenderOne(fname, l);
  }

  lemma {:induction false} RenderOne(fname: seq<Byte>, l: seq<Byte>)
    ensures Render(fname, [l]) == fname + [COLON] + l + [NEWLINE]
  {
    assert Render(fname, [l][1..]) == [];
  }

  /** Nothing to be found in an empty piece. */
  lemma {:induction false} MatchingOne(l: seq<Byte>, s: seq<Byte>)
    ensures Matching([l], s) == if Contains(l, s) then [l] else []
  {
    assert Matching([l][1..], s) == [];
  }

  lemma {:induction false} EmptyHasNoMatch(s: seq<Byte>)
    requires s != []
    ensures Matching([[]], s) == []
  {
    MatchingOne([], s);
  }

  // ----- the three ways the scanner moves forward -----

  /** A complete line that fits the buffer. */
  lemma {:induction false} FoundFront(l: seq<Byte>, rest: seq<Byte>, s: seq<Byte>)
    requires Lacks(l, 10) && |l| <= 1024
    ensures Found(l + [10] + rest, s) == Matching([l], s) + Found(rest, s)
  {
    LinesFront(l, rest);
    var ls := [l] + Lines(rest);
    assert ls[0] == l && ls[1..] == Lines(rest);
    assert ChopAll(ls) == [l] + ChopAll(Lines(rest));
    MatchingAppend([l], ChopAll(Lines(rest)), s);
  }

  /** A last line that fits the buffer. */
  lemma {:induction false} FoundLast(l: seq<Byte>, s: seq<Byte>)
    requires Lacks(l, 10) && |l| <= 1024
    ensures Found(l, s) == Matching([l], s)
  {
    LinesLast(l);
    assert ChopAll([l]) == [l] + ChopAll([l][1..]);
    assert ChopAll([l]) == [l];
  }

  /** The first line of a text with a piece of line in front of it gets longer. */
  lemma {:induction false} LinesBehind(p: seq<Byte>, rest: seq<Byte>)
    requires Lacks(p, NEWLINE)
    ensures Lines(rest) != [] && Lines(p + rest) == [p + Lines(rest)[0]] + Lines(rest)[1..]
  {
    var i, t := IndexOf(rest, NEWLINE), p + rest;
    forall k | 0 <= k < |p| + i ensures t[k] != NEWLINE {
      assert t[k] == if k < |p| then p[k] else rest[k - |p|];
    }
    IndexOfIs(t, NEWLINE, |p| + i);
    if i == |rest| {
      assert Lines(rest)[1..] == [];
    } else {
      assert t[|p| + i] == rest[i];
      assert t[..|p| + i] == p + rest[..i] && t[|p| + i + 1..] == rest[i + 1..];
    }
  }

  lemma {:induction false} MatchingChopLonger(p: seq<Byte>, l: seq<Byte>, s: seq<Byte>)
    requires |p| == BUFSIZE && s != []
    ensures Matching(Chop(p + l), s) == Matching([p], s) + Matching(Chop(l), s)
  {
    if l == [] {
      assert p + l == p;
      EmptyHasNoMatch(s);
    } else {
      assert (p + l)[..BUFSIZE] == p && (p + l)[BUFSIZE..] == l;
      MatchingAppend([p], Chop(l), s);
    }
  }

  /** A buffer full of one line: its bytes are examined as if they were a line. */
  lemma {:induction false} FoundFull(p: seq<Byte>, rest: seq<Byte>, s: seq<Byte>)
    requires Lacks(p, 10) && |p| == 1024 && s != []
    ensures Found(p + rest, s) == Matching([p], s) + Found(rest, s)
  {
    LinesBehind(p, rest);
    var first, tail := Lines(rest)[0], Lines(rest)[1..];
    assert Lines(rest) == [first] + tail;
    ChopAllFront(first, tail);
    ChopAllFront(p + first, tail);
    MatchingAppend(Chop(p + first), ChopAll(tail), s);
    MatchingAppend(Chop(first), ChopAll(tail), s);
    MatchingChopLonger(p, first, s);
    AppendAssoc(Matching([p], s), Matching(Chop(first), s), Matching(ChopAll(tail), s));
  }

  lemma {:induction false} ChopAllFront(l: seq<Byte>, ls: seq<seq<Byte>>)
    ensures ChopAll([l] + ls) == Chop(l) + ChopAll(ls)
  {
    assert ([l] + ls)[0] == l && ([l] + ls)[1..] == ls;
  }

  // ----- when the report is the wanted one -----

  lemma {:induction false} MatchingKeeps(ls: seq<seq<Byte>>, s: seq<Byte>, k: nat)
    requires k < |ls| && Contains(ls[k], s)
    ensures ls[k] in Matching(ls, s)
  {
    if k > 0 {
      MatchingKeeps(ls[1..], s, k - 1);
    }
  }

  lemma {:induction false} MatchingTakes(ls: seq<seq<Byte>>, s: seq<Byte>, l: seq<Byte>)
    requires l in Matching(ls, s)
    ensures l in ls && Contains(l, s)
  {
    if !(Contains(ls[0], s) && l == ls[0]) {
      MatchingTakes(ls[1..], s, l);
    }
  }

  lemma {:induction false} PiecesAreShort(ls: seq<seq<Byte>>, p: seq<Byte>)
    requires p in ChopAll(ls)
    ensures |p| <= BUFSIZE
  {
    if p in Chop(ls[0]) {
      ChopIsShort(ls[0], p);
    } else {
      PiecesAreShort(ls[1..], p);
    }
  }

  lemma {:induction false} ChopIsShort(l: seq<Byte>, p: seq<Byte>)
    requires p in Chop(l)
    ensures |p| <= BUFSIZE
    decreases |l|
  {
    if |l| > BUFSIZE && p != l[..BUFSIZE] {
      ChopIsShort(l[BUFSIZE..], p);
    }
  }

  /** What a part contains, the whole contains. */
  lemma {:induction false} ContainedIn(l: seq<Byte>, a: seq<Byte>, b: seq<Byte>, s: seq<Byte>)
    requires l == a + b && (Contains(a, s) || Contains(b, s))
    ensures Contains(l, s)
  {
    if Contains(a, s) {
      var i: nat :| OccursAt(a, s, i);
      assert a == l[0..|a|];
      SliceOfSlice(l, 0, |a|, i, |s|);
      assert OccursAt(l, s, i);
    } else {
      var i: nat :| OccursAt(b, s, i);
      assert b == l[|a|..|l|];
      SliceOfSlice(l, |a|, |l|, i, |s|);
      assert OccursAt(l, s, |a| + i);
    }
  }

  /** A line without the search string has no piece with it. */
  lemma {:induction false} ChopOfOther(l: seq<Byte>, s: seq<Byte>)
    requires !Contains(l, s)
    ensures Matching(Chop(l), s) == []
    decreases |l|
  {
    if |l| <= BUFSIZE {
      MatchingOne(l, s);
    } else {
      var p, rest := l[..BUFSIZE], l[BUFSIZE..];
      assert !Contains(p, s) && !Contains(rest, s) by {
        if Contains(p, s) || Contains(rest, s) {
          ContainedIn(l, p, rest, s);
        }
      }
      ChopOfOther(rest, s);
      MatchingOne(p, s);
      MatchingAppend([p], Chop(rest), s);
    }
  }

  lemma {:induction false} PiecesOfFitting(ls: seq<seq<Byte>>, s: seq<Byte>)
    requires AllFit(ls, s)
    ensures Matching(ChopAll(ls), s) == Matching(ls, s)
  {
    if ls != [] {
      PiecesOfFitting(ls[1..], s);
      MatchingAppend(Chop(ls[0]), ChopAll(ls[1..]), s);
      if Contains(ls[0], s) {
        MatchingOne(ls[0], s);
      } else {
        ChopOfOther(ls[0], s);
      }
    }
  }

  /** The pieces change nothing exactly when no line that is to be reported exceeds the buffer. */
  lemma {:induction false} FoundIsWanted(t: seq<Byte>, s: seq<Byte>)
    ensures Found(t, s) == Wanted(t, s) <==> MatchesFit(t, s)
  {
    var ls := Lines(t);
    if MatchesFit(t, s) {
      PiecesOfFitting(ls, s);
    } else {
      var k :| 0 <= k < |ls| && Contains(ls[k], s) && |ls[k]| > BUFSIZE;
      MatchingKeeps(ls, s, k);
      if Found(t, s) == Wanted(t, s) {
        MatchingTakes(ChopAll(ls), s, ls[k]);
        PiecesAreShort(ls, ls[k]);
      }
    }
  }

  // ----- what a stray newline in the buffer does -----

  lemma {:induction false} CutBehind(t: seq<Byte>, n: nat, j: nat)
    requires n + j <= |t|
    ensures t[..n] + (t[n..][..j] + [NEWLINE] + t[n..][j..]) == t[..n + j] + [NEWLINE] + t[n + j..]
    ensures t[..n] + t[n..] == t && (j > 0 ==> t[n..][j - 1] == t[n + j - 1])
  {
    assert t[..n + j] == t[..n] + t[n..][..j] && t[n + j..] == t[n..][j..];
  }

  /** There is no newline right before it. */
  lemma {:induction false} BrokenAt(t: seq<Byte>)
    ensures var k := Cut(t);
            (k == |t| && Broken(t) == t) || (0 < k && t[k - 1] != NEWLINE && Broken(t) == t[..k] + [NEWLINE] + t[k..])
    decreases |t|
  {
    if |t| >= BUFSIZE && t[BUFSIZE - 1] == NEWLINE {
      var rest := t[BUFSIZE..];
      BrokenAt(rest);
      var j := Cut(rest);
      CutBehind(t, BUFSIZE, j);
    }
  }

  lemma {:induction false} LastLineGoesOn(u: seq<Byte>)
    requires u != [] && u[|u| - 1] != NEWLINE
    ensures LastLine(u) != []
    decreases |u|
  {
    var i := IndexOf(u, NEWLINE);
    if i < |u| {
      LastLineGoesOn(u[i + 1..]);
    }
  }

  /** The lines of `u` and `v` written one after the other, without and with a newline between them. */
  ghost predicate Around(u: seq<Byte>, v: seq<Byte>) {
    var n, b := |Lines(u)| - 1, Lines(v)[1..];
    && n >= 0 && Lines(u)[n] == LastLine(u)
    && Lines(u + v) == Lines(u)[..n] + [LastLine(u) + FirstLine(v)] + b
    && Lines(u + [NEWLINE] + v) == Lines(u)[..n] + [LastLine(u)] + ([FirstLine(v)] + b)
  }

  lemma {:induction false} Shifted<T>(l: T, w: seq<T>, n: nat, c: seq<T>, b: seq<T>)
    requires n <= |w|
    ensures [l] + (w[..n] + c + b) == ([l] + w)[..n + 1] + c + b
  {
    assert ([l] + w)[..n + 1] == [l] + w[..n];
  }

  /** One line more in front of `w`. */
  lemma {:induction false} AroundLonger(l: seq<Byte>, w: seq<Byte>, v: seq<Byte>)
    requires Lacks(l, NEWLINE) && Around(w, v)
    ensures Around(l + [NEWLINE] + w, v)
  {
    hide Lines, LastLine, FirstLine;
    var u, n, b := l + [NEWLINE] + w, |Lines(w)| - 1, Lines(v)[1..];
    assert Lines(u) == [l] + Lines(w) by { LinesFront(l, w); }
    assert Lines(u + v) == [l] + Lines(w + v) by {
      LinesFront(l, w + v);
      AppendAssoc(l + [NEWLINE], w, v);
    }
    assert Lines(u + [NEWLINE] + v) == [l] + Lines(w + [NEWLINE] + v) by {
      LinesFront(l, w + [NEWLINE] + v);
      assert u + [NEWLINE] + v == l + [NEWLINE] + (w + [NEWLINE] + v);
    }
    LastLineFront(l, w);
    Shifted(l, Lines(w), n, [LastLine(w) + FirstLine(v)], b);
    Shifted(l, Lines(w), n, [LastLine(w)], [FirstLine(v)] + b);
  }

  lemma {:induction false} LastLineFront(l: seq<Byte>, w: seq<Byte>)
    requires Lacks(l, NEWLINE)
    ensures LastLine(l + [NEWLINE] + w) == LastLine(w)
  {
    var u := l + [NEWLINE] + w;
    IndexOfIs(u, NEWLINE, |l|);
    assert u[|l| + 1..] == w;
  }

  /** The lines of a text are those of its two parts, but for the one that the border goes through. */
  lemma {:induction false} LinesAround(u: seq<Byte>, v: seq<Byte>)
    ensures Around(u, v)
    decreases |u|
  {
    var i := IndexOf(u, NEWLINE);
    if i == |u| {
      AroundLast(u, v);
    } else {
      hide Around;
      LinesAround(u[i + 1..], v);
      AroundLonger(u[..i], u[i + 1..], v);
      assert u == u[..i] + [NEWLINE] + u[i + 1..];
    }
  }

  lemma {:induction false} AroundLast(u: seq<Byte>, v: seq<Byte>)
    requires Lacks(u, NEWLINE)
    ensures Around(u, v)
  {
    var first, b := FirstLine(v), Lines(v)[1..];
    LinesLast(u);
    IndexOfIs(u, NEWLINE, |u|);
    assert Lines(v) == [first] + b by { FirstOfLines(v); }
    assert Lines(u + v) == [u + first] + b by { LinesBehind(u, v); }
    assert Lines(u + [NEWLINE] + v) == [u] + ([first] + b) by { LinesFront(u, v); }
    hide Lines, LastLine, FirstLine;
    assert Lines(u)[..0] == [] && [] + [u] == [u] && [] + [u + first] == [u + first];
  }

  lemma {:induction false} FirstOfLines(v: seq<Byte>)
    ensures Lines(v) == [FirstLine(v)] + Lines(v)[1..]
  {
    var i := IndexOf(v, NEWLINE);
    if i == |v| {
      assert v[..i] == v && Lines(v)[1..] == [];
    } else {
      assert ([v[..i]] + Lines(v[i + 1..]))[1..] == Lines(v[i + 1..]);
    }
  }

  /** Lines that fit are examined whole. */
  lemma {:induction false} FoundFitting(a: seq<seq<Byte>>, b: seq<seq<Byte>>, s: seq<Byte>)
    ensures Matching(ChopAll(a + b), s) == Matching(ChopAll(a), s) + Matching(ChopAll(b), s)
    decreases |a|
  {
    if a == [] {
      assert a + b == b;
    } else {
      assert (a + b)[0] == a[0] && (a + b)[1..] == a[1..] + b;
      FoundFitting(a[1..], b, s);
      MatchingAppend(Chop(a[0]), ChopAll(a[1..] + b), s);
      MatchingAppend(Chop(a[0]), ChopAll(a[1..]), s);
    }
  }

  /** One line among others, in one piece or two: only if it matches, and neither part is empty, does it matter. */
  lemma {:induction false} TwoParts(a: seq<seq<Byte>>, x: seq<Byte>, y: seq<Byte>, b: seq<seq<Byte>>, s: seq<Byte>)
    requires s != [] && x != [] && AllFit(a + [x + y] + b, s)
    ensures Matching(ChopAll(a + [x] + ([y] + b)), s) == Matching(a + [x + y] + b, s)
            <==> y == [] || !Contains(x + y, s)
  {
    PartsFit(a, x + y, b, s);
    var p, q, z := Matching(a, s), Matching(b, s), Matching(ChopAll([x]), s) + Matching(ChopAll([y]), s);
    FoundParts(a, x, y, b, s);
    MatchingThree(a, [x + y], b, s);
    TwoPartsAlone(x, y, s);
    Squeezed(p, z, Matching([x + y], s), q);
  }

  lemma {:induction false} MatchingThree(a: seq<seq<Byte>>, l: seq<seq<Byte>>, b: seq<seq<Byte>>, s: seq<Byte>)
    ensures Matching(a + l + b, s) == Matching(a, s) + Matching(l, s) + Matching(b, s)
  {
    MatchingAppend(a + l, b, s);
    MatchingAppend(a, l, s);
  }

  lemma {:induction false} FoundParts(a: seq<seq<Byte>>, x: seq<Byte>, y: seq<Byte>, b: seq<seq<Byte>>, s: seq<Byte>)
    ensures Matching(ChopAll(a + [x] + ([y] + b)), s)
         == Matching(ChopAll(a), s) + (Matching(ChopAll([x]), s) + Matching(ChopAll([y]), s)) + Matching(ChopAll(b), s)
  {
    hide ChopAll, Matching;
    AppendAssoc(a, [x], [y] + b);
    FoundFitting(a, [x] + ([y] + b), s);
    FoundFitting([x], [y] + b, s);
    FoundFitting([y], b, s);
    var p, q := Matching(ChopAll(a), s), Matching(ChopAll(b), s);
    var cx, cy := Matching(ChopAll([x]), s), Matching(ChopAll([y]), s);
    assert p + (cx + (cy + q)) == p + (cx + cy) + q;
  }

  lemma {:induction false} TwoPartsAlone(x: seq<Byte>, y: seq<Byte>, s: seq<Byte>)
    requires s != [] && x != [] && (Contains(x + y, s) ==> |x + y| <= BUFSIZE)
    ensures Matching(ChopAll([x]), s) + Matching(ChopAll([y]), s) == Matching([x + y], s)
            <==> y == [] || !Contains(x + y, s)
  {
    MatchingOne(x + y, s);
    if !Contains(x + y, s) {
      NotInParts(x, y, s);
    } else {
      PiecesOfFitting([x], s);
      PiecesOfFitting([y], s);
      MatchingOne(x, s);
      MatchingOne(y, s);
      if y == [] {
        assert x + y == x;
        EmptyHasNoMatch(s);
      } else {
        assert [x + y][0] != x && [x + y][0] != y;
      }
    }
  }

  lemma {:induction false} Squeezed<T>(p: seq<T>, x: seq<T>, y: seq<T>, q: seq<T>)
    ensures p + x + q == p + y + q <==> x == y
  {
    if p + x + q == p + y + q {
      assert |x| == |y|;
      assert x == (p + x + q)[|p|..|p| + |x|] == (p + y + q)[|p|..|p| + |y|] == y;
    }
  }

  lemma {:induction false} NotInParts(x: seq<Byte>, y: seq<Byte>, s: seq<Byte>)
    requires !Contains(x + y, s)
    ensures Matching(ChopAll([x]), s) == [] && Matching(ChopAll([y]), s) == []
  {
    if Contains(x, s) || Contains(y, s) {
      ContainedIn(x + y, x, y, s);
    }
    ChopOfOther(x, s);
    ChopOfOther(y, s);
    assert ChopAll([x]) == Chop(x) + ChopAll([x][1..]) && ChopAll([y]) == Chop(y) + ChopAll([y][1..]);
    assert Chop(x) + [] == Chop(x) && Chop(y) + [] == Chop(y);
  }

  lemma {:induction false} PartsFit(a: seq<seq<Byte>>, l: seq<Byte>, b: seq<seq<Byte>>, s: seq<Byte>)
    requires AllFit(a + [l] + b, s)
    ensures Matching(ChopAll(a), s) == Matching(a, s) && Matching(ChopAll(b), s) == Matching(b, s)
    ensures Contains(l, s) ==> |l| <= BUFSIZE
  {
    var ls := a + [l] + b;
    assert forall k :: 0 <= k < |a| ==> a[k] == ls[k];
    assert forall k :: 0 <= k < |b| ==> b[k] == ls[|a| + 1 + k];
    assert ls[|a|] == l;
    PiecesOfFitting(a, s);
    PiecesOfFitting(b, s);
  }

  /** A line that is to be reported and does not fit cannot be reported. */
  lemma {:induction false} FitIsNeeded(ls: seq<seq<Byte>>, t: seq<Byte>, s: seq<Byte>)
    requires Matching(ChopAll(ls), s) == Wanted(t, s)
    ensures MatchesFit(t, s)
  {
    forall k | 0 <= k < |Lines(t)| && Contains(Lines(t)[k], s) ensures |Lines(t)[k]| <= BUFSIZE {
      MatchingKeeps(Lines(t), s, k);
      MatchingTakes(ChopAll(ls), s, Lines(t)[k]);
      PiecesAreShort(ls, Lines(t)[k]);
    }
  }

  /**
   * What a stray newline does to one file: the report is right exactly when all matching
   * lines fit and the newline does not go into one of them.
   */
  lemma {:induction false} BrokenIsWanted(t: seq<Byte>, s: seq<Byte>)
    requires s != []
    ensures Found(Broken(t), s) == Wanted(t, s) <==> MatchesFit(t, s) && !CutsMatch(t, s)
  {
    hide Broken, Cut, LastLine, Contains, AllFit, Matching, ChopAll;
    BrokenAt(t);
    var k := Cut(t);
    var u, v := t[..k], t[k..];
    assert t == u + v;
    if Found(Broken(t), s) == Wanted(t, s) {
      FitIsNeeded(Lines(Broken(t)), t, s);
    }
    if k == |t| && Broken(t) == t {
      FoundIsWanted(t, s);
      assert FirstLine(v) == [];
    } else if MatchesFit(t, s) {
      LinesAround(u, v);
      LastLineGoesOn(u);
      TwoParts(Lines(u)[..|Lines(u)| - 1], LastLine(u), FirstLine(v), Lines(v)[1..], s);
    }
  }

  /** A file that does not fill the buffer is safe. */
  lemma {:induction false} ShortIsSafe(t: seq<Byte>, s: seq<Byte>)
    requires |t| <= 1024
    ensures !CutsMatch(t, s)
  {
    assert |t| == BUFSIZE ==> t[BUFSIZE..] == [];
    assert Cut([]) == 0;
  }

  /** A line that contains `s` and has at least two characters. */
  function LongEnough(s: seq<Byte>): seq<Byte> {
    if |s| == 1 then s + s else s
  }

  function Blanks(n: nat): (t: seq<Byte>)
    ensures |t| == n && forall i :: 0 <= i < n ==> t[i] == NEWLINE
  {
    if n == 0 then [] else [NEWLINE] + Blanks(n - 1)
  }

  /** A text on which it loses the match: a line that starts with the buffer's last byte. */
  function Unlucky(s: seq<Byte>): seq<Byte> {
    Blanks(BUFSIZE - 1) + LongEnough(s)
  }

  lemma {:induction false} EmptyLines(n: nat, l: seq<Byte>, s: seq<Byte>)
    requires s != []
    ensures Wanted(Blanks(n) + l, s) == Wanted(l, s)
    ensures Found(Blanks(n) + l, s) == Found(l, s)
    ensures MatchesFit(l, s) ==> MatchesFit(Blanks(n) + l, s)
    decreases n
  {
    var t := Blanks(n) + l;
    if n == 0 {
      assert t == l;
    } else {
      var rest := Blanks(n - 1) + l;
      assert t == [] + [NEWLINE] + rest;
      EmptyLines(n - 1, l, s);
      LinesFront([], rest);
      EmptyHasNoMatch(s);
      FoundFront([], rest, s);
      MatchingAppend([[]], Lines(rest), s);
    }
  }

  /** With a stray newline the program is wrong on `Unlucky(s)`, whatever is searched for. */
  lemma {:induction false} StrayLoses(s: seq<Byte>)
    requires 0 < |s| <= 1024 && Lacks(s, 10)
    ensures MatchesFit(Unlucky(s), s)
    ensures Found(Seen(Unlucky(s), true), s) != Wanted(Unlucky(s), s)
  {
    hide Lines, Matching, ChopAll, MatchesFit, Broken;
    var line := LongEnough(s);
    var t := Unlucky(s);
    LinesLast(line);
    EmptyLines(BUFSIZE - 1, line, s);
    MatchingOne(line, s);
    assert Contains(line, s) by { assert OccursAt(line, s, 0); }
    assert MatchesFit(line, s) by { FitsAlone(line, s); }
    // the program sees the line in two parts, and reports nothing as long as the whole
    var a, b := line[..1], line[1..];
    BrokenUnlucky(s);
    EmptyLines(BUFSIZE - 1, a + [NEWLINE] + b, s);
    FoundFront(a, b, s);
    FoundLast(b, s);
    MatchingOne(a, s);
    MatchingOne(b, s);
    assert [line][0] != a && [line][0] != b;
  }

  lemma {:induction false} FitsAlone(l: seq<Byte>, s: seq<Byte>)
    requires |l| <= BUFSIZE && Lacks(l, NEWLINE)
    ensures MatchesFit(l, s)
  {
    LinesLast(l);
  }

  lemma {:induction false} BrokenUnlucky(s: seq<Byte>)
    requires 0 < |s| <= BUFSIZE && Lacks(s, NEWLINE)
    ensures var line := LongEnough(s);
            Broken(Unlucky(s)) == Blanks(BUFSIZE - 1) + (line[..1] + [NEWLINE] + line[1..])
  {
    var t, line := Unlucky(s), LongEnough(s);
    assert t[BUFSIZE - 1] == line[0] == s[0];
    assert t[..BUFSIZE] == Blanks(BUFSIZE - 1) + line[..1] && t[BUFSIZE..] == line[1..];
  }

  lemma {:induction false} UnluckyIsVisible(s: seq<Byte>)
    requires VisibleOnly(s)
    ensures VisibleOnly(Unlucky(s))
  {
  }

  /** No line is both short enough and contains such a string; or the string is in no file. */
  ghost predicate NeverFound(s: seq<Byte>) {
    !VisibleOnly(s) || !Lacks(s, NEWLINE) || |s| > BUFSIZE
  }

  lemma {:induction false} NotInLine(l: seq<Byte>, s: seq<Byte>)
    requires NeverFound(s) && |l| <= BUFSIZE && Lacks(l, NEWLINE) && VisibleOnly(l)
    ensures !Contains(l, s)
  {
    forall i: nat ensures !OccursAt(l, s, i) {
      if i + |s| <= |l| {
        var k :| 0 <= k < |s| && (Visible(s[k]) != s[k] || s[k] == NEWLINE);
        assert l[i..i + |s|][k] == l[i + k] != s[k];
      }
    }
  }

  /**
   * The scanner is right about all files whose matching lines fit its buffer, exactly when
   * the byte behind the buffer does not start out as a newline, or the string is such that
   * no line of a file could be reported anyway.
   */
  lemma {:induction false} RightForAllFilesIff(s: seq<Byte>, stray: bool)
    requires s != []
    ensures (forall t :: VisibleOnly(t) && MatchesFit(t, s) ==> Found(Seen(t, stray), s) == Wanted(t, s))
            <==> !stray || NeverFound(s)
  {
    if stray && !NeverFound(s) {
      StrayLoses(s);
      UnluckyIsVisible(s);
    } else {
      forall t | VisibleOnly(t) && MatchesFit(t, s) ensures Found(Seen(t, stray), s) == Wanted(t, s) {
        if stray {
          NoCut(t, s);
          BrokenIsWanted(t, s);
        } else {
          FoundIsWanted(t, s);
        }
      }
    }
  }

  lemma {:induction false} NoCut(t: seq<Byte>, s: seq<Byte>)
    requires VisibleOnly(t) && MatchesFit(t, s) && NeverFound(s)
    ensures !CutsMatch(t, s)
  {
    var k := Cut(t);
    var u, v := t[..k], t[k..];
    assert t == u + v;
    LinesAround(u, v);
    LinesLackNewline(t);
    LinesVisible(t);
    var n, l := |Lines(u)| - 1, LastLine(u) + FirstLine(v);
    assert Lines(t)[n] == l;
    if |l| <= BUFSIZE {
      NotInLine(l, s);
    }
  }

  lemma {:induction false} LinesVisible(t: seq<Byte>)
    requires VisibleOnly(t)
    ensures forall k :: 0 <= k < |Lines(t)| ==> VisibleOnly(Lines(t)[k])
    decreases |t|
  {
    var i := IndexOf(t, NEWLINE);
    if i < |t| {
      LinesVisible(t[i + 1..]);
    }
  }

  // ----- the bytes on the terminal determine the report -----

  lemma {:induction false} RenderFirst(fname: seq<Byte>, ls: seq<seq<Byte>>)
    requires ls != [] && Lacks(fname, NEWLINE) && Lacks(ls[0], NEWLINE)
    ensures IndexOf(Render(fname, ls), NEWLINE) == |fname| + 1 + |ls[0]|
    ensures Render(fname, ls)[..|fname| + 1 + |ls[0]|] == fname + [COLON] + ls[0]
    ensures Render(fname, ls)[|fname| + |ls[0]| + 2..] == Render(fname, ls[1..])
  {
    IndexOfIs(Render(fname, ls), NEWLINE, |fname| + 1 + |ls[0]|);
  }

  lemma {:induction false} RenderInjective(fname: seq<Byte>, a: seq<seq<Byte>>, b: seq<seq<Byte>>)
    requires Lacks(fname, NEWLINE)
    requires AllLack(a, NEWLINE) && AllLack(b, NEWLINE)
    requires Render(fname, a) == Render(fname, b)
    ensures a == b
  {
    if a != [] && b != [] {
      RenderFirst(fname, a);
      RenderFirst(fname, b);
      var n := |fname| + 1;
      assert a[0] == (fname + [COLON] + a[0])[n..];
      assert b[0] == (fname + [COLON] + b[0])[n..];
      RenderInjective(fname, a[1..], b[1..]);
      assert a == [a[0]] + a[1..] && b == [b[0]] + b[1..];
    }
  }

  ghost predicate AllLack(ls: seq<seq<Byte>>, c: Byte) {
    forall k :: 0 <= k < |ls| ==> Lacks(ls[k], c)
  }

  lemma {:induction false} LinesLackNewline(t: seq<Byte>)
    ensures AllLack(Lines(t), NEWLINE)
    decreases |t|
  {
    var i := IndexOf(t, NEWLINE);
    if i < |t| {
      LinesLackNewline(t[i + 1..]);
    }
  }

  lemma {:induction false} ChopLacks(l: seq<Byte>, c: Byte)
    requires Lacks(l, c)
    ensures AllLack(Chop(l), c)
    decreases |l|
  {
    if |l| > BUFSIZE {
      ChopLacks(l[BUFSIZE..], c);
    }
  }

  lemma {:induction false} ChopAllLacks(ls: seq<seq<Byte>>, c: Byte)
    requires AllLack(ls, c)
    ensures AllLack(ChopAll(ls), c)
  {
    if ls != [] {
      ChopLacks(ls[0], c);
      ChopAllLacks(ls[1..], c);
    }
  }

  lemma {:induction false} MatchingLacks(ls: seq<seq<Byte>>, s: seq<Byte>, c: Byte)
    requires AllLack(ls, c)
    ensures AllLack(Matching(ls, s), c)
  {
    if ls != [] {
      MatchingLacks(ls[1..], s, c);
    }
  }

  /**
   * The same, about the printed bytes, with and without a stray newline: no other report
   * would look the same on the terminal.
   */
  lemma {:induction false} PrintedIsWanted(fname: seq<Byte>, t: seq<Byte>, s: seq<Byte>, stray: bool)
    requires Lacks(fname, NEWLINE) && s != []
    ensures Render(fname, Found(Seen(t, stray), s)) == Render(fname, Wanted(t, s))
            <==> MatchesFit(t, s) && !(stray && CutsMatch(t, s))
  {
    var u := Seen(t, stray);
    if stray {
      BrokenIsWanted(t, s);
    } else {
      FoundIsWanted(t, s);
    }
    if Render(fname, Found(u, s)) == Render(fname, Wanted(t, s)) {
      LinesLackNewline(t);
      LinesLackNewline(u);
      ChopAllLacks(Lines(u), NEWLINE);
      MatchingLacks(Lines(t), s, NEWLINE);
      MatchingLacks(ChopAll(Lines(u)), s, NEWLINE);
      RenderInjective(fname, Found(u, s), Wanted(t, s));
    }
  }
}
