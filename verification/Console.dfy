/**
 * One console: a display and the line being typed (keyboard.c, and terminal_read and
 * terminal_write of terminal.c).
 */
module Console {
  import opened Bytes
  import opened Screen

  const KEY_BUFFER_SIZE := 128

  datatype State = State(display: Display, keys: seq<Byte>, pos: nat) {
    /** The key buffer holds the pending characters, then NULs only. */
    predicate Ok() {
      && display.Ok()
      && |keys| == KEY_BUFFER_SIZE && pos <= KEY_BUFFER_SIZE
      && (forall i :: 0 <= i < pos ==> keys[i] != NUL)
      && (forall i :: pos <= i < KEY_BUFFER_SIZE ==> keys[i] == NUL)
    }

    function Pending(): seq<Byte>
      requires pos <= |keys|
    {
      keys[..pos]
    }
  }

  // ----- what each operation does to a console -----

  datatype Op =
    | Key(ch: Byte)       // a key with this character
    | Erase               // the backspace key
    | EnterKey
    | Write(text: seq<Byte>)
    | Read(nbytes: int)

  /** The cases in which the source stays inside its buffers. */
  predicate Allowed(s: State, op: Op)
    requires s.Ok()
  {
    match op
    case Erase => s.pos > 0 ==> s.display.x > 0 || s.display.y > 0
    case Read(nbytes) => s.pos < KEY_BUFFER_SIZE || nbytes < KEY_BUFFER_SIZE
    case _ => true
  }

  function Apply(s: State, op: Op): (r: State)
    requires s.Ok() && Allowed(s, op)
    ensures r.Ok()
  {
    match op
    case Key(ch) =>
      if s.pos < KEY_BUFFER_SIZE && ch != NUL
      then State(Put(s.display, ch), s.keys[s.pos := ch], s.pos + 1) else s
    case Erase =>
      if s.pos > 0 then State(Backspace(s.display), s.keys[s.pos - 1 := NUL], s.pos - 1) else s
    case EnterKey => s.(display := Enter(s.display))
    case Write(text) => s.(display := Print(s.display, CString(text)))
    case Read(_) => s.(keys := Padded([], KEY_BUFFER_SIZE), pos := 0)
  }

  /** What a read returns: the pending line, cut to the number of bytes asked for. */
  function Line(s: State, nbytes: int): seq<Byte>
    requires s.pos <= |s.keys|
  {
    s.keys[..if nbytes < 0 then 0 else Min(nbytes, s.pos)]
  }

  predicate AllAllowed(s: State, ops: seq<Op>)
    requires s.Ok()
    decreases |ops|
  {
    ops == [] || (Allowed(s, ops[0]) && AllAllowed(Apply(s, ops[0]), ops[1..]))
  }

  function Run(s: State, ops: seq<Op>): (r: State)
    requires s.Ok() && AllAllowed(s, ops)
    ensures r.Ok()
    decreases |ops|
  {
    if ops == [] then s else Run(Apply(s, ops[0]), ops[1..])
  }

  // ----- the line being typed is a stack of the keys -----

  function PushPop(line: seq<Byte>, op: Op): seq<Byte> {
    match op
    case Key(ch) => if |line| < KEY_BUFFER_SIZE && ch != NUL then line + [ch] else line
    case Erase => if line == [] then [] else line[..|line| - 1]
    case Read(_) => []
    case _ => line
  }

  function PushPopAll(line: seq<Byte>, ops: seq<Op>): seq<Byte>
    decreases |ops|
  {
    if ops == [] then line else PushPopAll(PushPop(line, ops[0]), ops[1..])
  }

  lemma {:induction false} PendingIsPushPop(s: State, ops: seq<Op>)
    requires s.Ok() && AllAllowed(s, ops)
    ensures Run(s, ops).Pending() == PushPopAll(s.Pending(), ops)
    decreases |ops|
  {
    if ops != [] {
      var t := Apply(s, ops[0]);
      assert t.Pending() == PushPop(s.Pending(), ops[0]);
      PendingIsPushPop(t, ops[1..]);
    }
  }

  // ----- the screen is a window over what was echoed and written -----

  /**
   * The transcript `t` after an operation: keys are echoed, and a backspace, which takes a
   * key off the line, takes the last character off the transcript too.
   */
  function Echoed(t: seq<Byte>, line: seq<Byte>, op: Op): seq<Byte> {
    match op
    case Key(ch) => if |line| < KEY_BUFFER_SIZE && ch != NUL then t + [ch] else t
    case Erase => if line == [] || t == [] then t else t[..|t| - 1]
    case EnterKey => t + [NEWLINE]
    case Write(text) => t + CString(text)
    case Read(_) => t
  }

  function Transcript(t: seq<Byte>, line: seq<Byte>, ops: seq<Op>): seq<Byte>
    decreases |ops|
  {
    if ops == [] then t else Transcript(Echoed(t, line, ops[0]), PushPop(line, ops[0]), ops[1..])
  }

  /** Screen and transcript stay together over this operation. */
  predicate Tracks(s: State, t: seq<Byte>, op: Op) {
    op.Erase? && s.pos > 0 ==> TakesBack(s.display, t)
  }

  predicate AllTrack(s: State, t: seq<Byte>, ops: seq<Op>)
    requires s.Ok() && AllAllowed(s, ops)
    decreases |ops|
  {
    ops == [] || (
      Tracks(s, t, ops[0]) && AllTrack(Apply(s, ops[0]), Echoed(t, s.Pending(), ops[0]), ops[1..]))
  }

  predicate NoErase(ops: seq<Op>) {
    forall k :: 0 <= k < |ops| ==> !ops[k].Erase?
  }

  /**
   * An operation does to the transcript and the line what it does to screen and buffer, but
   * for an erase that does not take the last character back.
   */
  lemma {:induction false} EchoShows(s: State, op: Op, t: seq<Byte>, erased: bool)
    requires s.Ok() && Allowed(s, op) && Shows(s.display, t, erased)
    ensures Shows(Apply(s, op).display, Echoed(t, s.Pending(), op), erased || op.Erase?) <==> Tracks(s, t, op)
    ensures Apply(s, op).Pending() == PushPop(s.Pending(), op)
  {
    hide Shows, Put, Backspace, TakesBack;
    match op {
      case Key(ch) => PutShows(s.display, t, ch, erased);
      case EnterKey =>
        PutShows(s.display, t, NEWLINE, erased);
        assert Put(s.display, NEWLINE) == Enter(s.display) by { PutNewline(s.display); }
      case Write(text) => PrintShows(s.display, t, CString(text), erased);
      case Erase =>
        if s.pos > 0 {
          BackspaceShows(s.display, t, erased);
        } else {
          ShowsErased(s.display, t, erased);
        }
      case Read(_) =>
    }
  }

  lemma {:induction false} PutNewline(d: Display)
    requires d.Ok()
    ensures Put(d, NEWLINE) == Enter(d)
  {
  }

  lemma {:induction false} ShowsErased(d: Display, t: seq<Byte>, erased: bool)
    requires d.Ok() && Shows(d, t, erased)
    ensures Shows(d, t, true)
  {
    assert forall b, rows, r: nat, c: nat :: CellShown(b, rows, r, c, erased) ==> CellShown(b, rows, r, c, true);
  }

  /** All along the run the screen is the window over the transcript. */
  ghost predicate ShownAlong(s: State, ops: seq<Op>, t: seq<Byte>, erased: bool)
    requires s.Ok() && AllAllowed(s, ops)
    decreases |ops|
  {
    && Shows(s.display, t, erased)
    && (ops == [] ||
        ShownAlong(Apply(s, ops[0]), ops[1..], Echoed(t, s.Pending(), ops[0]), erased || ops[0].Erase?))
  }

  /** That is so exactly when every erase takes the last character back. */
  lemma {:induction false} ShownAlongIff(s: State, ops: seq<Op>, t: seq<Byte>, erased: bool)
    requires s.Ok() && AllAllowed(s, ops) && Shows(s.display, t, erased)
    ensures ShownAlong(s, ops, t, erased) <==> AllTrack(s, t, ops)
    decreases |ops|
  {
    hide Shows, Apply, Echoed, PushPop, Tracks, Allowed;
    if ops != [] {
      var u, v, more := Apply(s, ops[0]), Echoed(t, s.Pending(), ops[0]), erased || ops[0].Erase?;
      EchoShows(s, ops[0], t, erased);
      if Tracks(s, t, ops[0]) {
        ShownAlongIff(u, ops[1..], v, more);
      }
    }
  }

  /**
   * Then it is the window over the transcript at the end; without backspaces it has no
   * erased cells either.
   */
  lemma {:induction false} RunShows(s: State, ops: seq<Op>, t: seq<Byte>, erased: bool)
    requires s.Ok() && AllAllowed(s, ops) && AllTrack(s, t, ops) && Shows(s.display, t, erased)
    ensures Shows(Run(s, ops).display, Transcript(t, s.Pending(), ops), erased || !NoErase(ops))
    decreases |ops|
  {
    hide Shows, Apply, Echoed, PushPop, Tracks, Allowed;
    if ops != [] {
      var u, more := Apply(s, ops[0]), erased || ops[0].Erase?;
      EchoShows(s, ops[0], t, erased);
      RunShows(u, ops[1..], Echoed(t, s.Pending(), ops[0]), more);
      if more || !NoErase(ops[1..]) {
        assert erased || !NoErase(ops) by {
          if !NoErase(ops[1..]) {
            var k :| 0 <= k < |ops[1..]| && ops[1..][k].Erase?;
            assert ops[k + 1].Erase?;
          }
        }
      } else {
        assert NoErase(ops) by {
          forall k | 0 <= k < |ops| ensures !ops[k].Erase? {
            assert k > 0 ==> ops[k] == ops[1..][k - 1];
          }
        }
      }
    }
  }

  lemma {:induction false} RunAppend(s: State, a: seq<Op>, b: seq<Op>)
    requires s.Ok() && AllAllowed(s, a) && AllAllowed(Run(s, a), b)
    ensures AllAllowed(s, a + b) && Run(s, a + b) == Run(Run(s, a), b)
    decreases |a|
  {
    if a == [] {
      assert a + b == b;
    } else {
      assert (a + b)[0] == a[0] && (a + b)[1..] == a[1..] + b;
      RunAppend(Apply(s, a[0]), a[1..], b);
    }
  }

  // ----- typing a line and reading it -----

  lemma {:induction false} RunFirst(s: State, op: Op, rest: seq<Op>)
    requires s.Ok() && Allowed(s, op)
    ensures AllAllowed(s, [op] + rest) <==> AllAllowed(Apply(s, op), rest)
    ensures AllAllowed(s, [op] + rest) ==> Run(s, [op] + rest) == Run(Apply(s, op), rest)
  {
    hide Apply, Allowed;
    assert ([op] + rest)[1..] == rest;
  }

  /** The keys of a text. */
  function Typing(text: seq<Byte>): (ops: seq<Op>)
    ensures |ops| == |text| && forall i :: 0 <= i < |text| ==> ops[i] == Key(text[i])
  {
    seq(|text|, i requires 0 <= i < |text| => Key(text[i]))
  }

  /** One more character typed. */
  lemma {:induction false} OneMoreKey(s: State, ch: Byte)
    requires s.Ok() && s.pos < 128 && ch != 0
    ensures Allowed(s, Key(ch))
    ensures var r := Apply(s, Key(ch));
            && r.Ok() && r.pos == s.pos + 1 && r.Pending() == s.Pending() + [ch]
            && r.display == Put(s.display, ch)
  {
    hide Put;
  }

  /** What is typed on an empty line is pending, and is printed: up to 128 characters, none of them NUL. */
  lemma {:induction false} TypedIsPending(s: State, text: seq<Byte>)
    requires s.Ok() && s.pos == 0 && |text| <= 128 && Lacks(text, 0)
    ensures AllAllowed(s, Typing(text))
    ensures var r := Run(s, Typing(text));
            r.pos == |text| && r.Pending() == text && r.display == Print(s.display, text)
    decreases |text|
  {
    hide Apply, Allowed, Put;
    if text == [] {
      assert s.Pending() == [];
    } else {
      var n := |text| - 1;
      TypedIsPending(s, text[..n]);
      var t := Run(s, Typing(text[..n]));
      OneMoreKey(t, text[n]);
      RunFirst(t, Key(text[n]), []);
      assert [Key(text[n])] + [] == [Key(text[n])];
      RunAppend(s, Typing(text[..n]), [Key(text[n])]);
      assert Typing(text) == Typing(text[..n]) + [Key(text[n])];
      PrintNext(s.display, text, n);
      assert text[..n + 1] == text;
    }
  }

  lemma {:induction false} TranscriptAppend(t: seq<Byte>, line: seq<Byte>, a: seq<Op>, b: seq<Op>)
    ensures PushPopAll(line, a + b) == PushPopAll(PushPopAll(line, a), b)
    ensures Transcript(t, line, a + b) == Transcript(Transcript(t, line, a), PushPopAll(line, a), b)
    decreases |a|
  {
    if a == [] {
      assert a + b == b;
    } else {
      assert (a + b)[0] == a[0] && (a + b)[1..] == a[1..] + b;
      TranscriptAppend(Echoed(t, line, a[0]), PushPop(line, a[0]), a[1..], b);
    }
  }

  /** Up to 128 typed characters are the line, and are shown. */
  lemma {:induction false} TypedText(t: seq<Byte>, line: seq<Byte>, text: seq<Byte>)
    requires |line| + |text| <= 128 && Lacks(text, 0)
    ensures PushPopAll(line, Typing(text)) == line + text
    ensures Transcript(t, line, Typing(text)) == t + text
    decreases |text|
  {
    if text != [] {
      assert Typing(text)[1..] == Typing(text[1..]);
      TypedText(t + [text[0]], line + [text[0]], text[1..]);
      assert t + [text[0]] + text[1..] == t + text && line + [text[0]] + text[1..] == line + text;
    } else {
      assert t + text == t && line + text == line;
    }
  }

  /** The 129th key and a key without a character do nothing. */
  lemma {:induction false} FullLineIsKept(s: State, ch: Byte)
    requires s.Ok()
    ensures s.pos == 128 || ch == 0 ==> Apply(s, Key(ch)) == s
  {
  }

  /** A backspace takes the last pending character back; on an empty line it does nothing. */
  lemma {:induction false} EraseTakesBack(s: State)
    requires s.Ok() && Allowed(s, Erase)
    ensures var r := Apply(s, Erase);
            if s.pos == 0 then r == s
            else r.Pending() == s.Pending()[..s.pos - 1] && r.display == Backspace(s.display)
  {
    assert s.pos > 0 ==> Apply(s, Erase).keys[..s.pos - 1] == s.keys[..s.pos - 1];
  }

  /**
   * A line that was typed and entered is what the next read returns, as far as it asked for
   * it; then nothing is pending.  The screen shows the line and goes to the next row.
   */
  lemma {:induction false} TypedIsRead(s: State, text: seq<Byte>, nbytes: int)
    requires s.Ok() && s.pos == 0 && |text| < 128 && Lacks(text, 0)
    ensures AllAllowed(s, Typing(text))
    ensures var t := Run(s, Typing(text));
            var u := Apply(t, EnterKey);
            && u.display == Print(s.display, text + [10]) && Allowed(u, Read(nbytes))
            && Line(u, nbytes) == (if nbytes < 0 then [] else if nbytes < |text| then text[..nbytes] else text)
            && Apply(u, Read(nbytes)).Pending() == [] && Apply(u, Read(nbytes)).display == u.display
  {
    hide Run, AllAllowed, Typing, Put;
    TypedIsPending(s, text);
    var t := Run(s, Typing(text));
    PutNewline(t.display);
    PrintNext(s.display, text + [10], |text|);
    assert (text + [10])[..|text|] == text && (text + [10])[..|text| + 1] == text + [10];
    assert t.keys[..|text|] == text;
    assert nbytes >= 0 && nbytes < |text| ==> t.keys[..nbytes] == text[..nbytes];
  }

  // ----- where backspace goes astray -----

  function Keys(ch: Byte, n: nat): (ops: seq<Op>) {
    if n == 0 then [] else [Key(ch)] + Keys(ch, n - 1)
  }

  function Erases(n: nat): (ops: seq<Op>) {
    if n == 0 then [] else [Erase] + Erases(n - 1)
  }

  lemma {:induction false} TypeMany(s: State, ch: Byte, n: nat)
    requires s.Ok() && ch != NUL && !IsBreak(ch) && s.display.x + n <= NUM_COLS && s.pos + n <= KEY_BUFFER_SIZE
    requires s.display.y == 0
    ensures var ops := Keys(ch, n);
            && AllAllowed(s, ops) && Run(s, ops).pos == s.pos + n
            && (n > 0 && s.display.x + n == NUM_COLS ==> Run(s, ops).display.x == 0 && Run(s, ops).display.y == 1)
            && (s.display.x + n < NUM_COLS ==> Run(s, ops).display.x == s.display.x + n && Run(s, ops).display.y == 0)
    decreases n
  {
    if n > 0 {
      assert Keys(ch, n)[1..] == Keys(ch, n - 1);
      if n > 1 {
        TypeMany(Apply(s, Key(ch)), ch, n - 1);
      }
    }
  }

  lemma {:induction false} EraseMany(s: State, n: nat)
    requires s.Ok() && n <= s.pos && n <= s.display.x
    ensures var ops := Erases(n);
            && AllAllowed(s, ops) && Run(s, ops).pos == s.pos - n
            && Run(s, ops).display.x == s.display.x - n && Run(s, ops).display.y == s.display.y
    decreases n
  {
    if n > 0 {
      assert Erases(n)[1..] == Erases(n - 1);
      EraseMany(Apply(s, Erase), n - 1);
    }
  }

  /** The first backspace goes to column 78 of the row above, the others along it. */
  lemma {:induction false} EraseWrapped(s: State, n: nat)
    requires s.Ok() && s.display.x == 0 && s.display.y == 1 && n == NUM_COLS - 2 && s.pos == n + 2
    ensures AllAllowed(s, Erases(n + 1)) && !Allowed(Run(s, Erases(n + 1)), Erase)
  {
    EraseMany(Apply(s, Erase), n);
    assert Erases(n + 1)[0] == Erase && Erases(n + 1)[1..] == Erases(n);
  }

  /**
   * From an empty line in the top left corner, 80 keys and 79 backspaces lead back to that
   * corner with a character still pending; the next backspace leaves the screen.
   */
  lemma {:induction false} EraseLeavesScreen(s: State, ch: Byte)
    requires s.Ok() && s.pos == 0 && s.display.x == 0 && s.display.y == 0 && ch != NUL && !IsBreak(ch)
    ensures var ops := Keys(ch, NUM_COLS) + Erases(NUM_COLS - 1);
            AllAllowed(s, ops) && !Allowed(Run(s, ops), Erase)
  {
    hide AllAllowed, Run, Keys, Erases;
    TypeMany(s, ch, NUM_COLS);
    EraseWrapped(Run(s, Keys(ch, NUM_COLS)), NUM_COLS - 2);
    RunAppend(s, Keys(ch, NUM_COLS), Erases(NUM_COLS - 1));
  }

  /** Only what keyboard_handler passes on. */
  predicate Keyboard(ops: seq<Op>) {
    forall i :: 0 <= i < |ops| ==> ops[i].Key? || ops[i].Erase? || ops[i].EnterKey?
  }

  /** Only what changes the line being typed. */
  predicate Editing(ops: seq<Op>) {
    forall i :: 0 <= i < |ops| ==> ops[i].Key? || ops[i].Erase?
  }

  /** Only typing: keys with one character, backspaces and Enter. */
  predicate Typed(ops: seq<Op>, ch: Byte) {
    forall i :: 0 <= i < |ops| ==> ops[i] == Key(ch) || ops[i] == Erase || ops[i] == EnterKey
  }

  /** In column 0 below the top, one backspace and two keys lead to the same place with one character more pending. */
  lemma {:induction false} PumpOnce(s: State, ch: Byte) returns (ops: seq<Op>)
    requires s.Ok() && 0 < s.pos < KEY_BUFFER_SIZE && s.display.x == 0 && s.display.y > 0 && ch != NUL && !IsBreak(ch)
    ensures Typed(ops, ch) && AllAllowed(s, ops)
    ensures var r := Run(s, ops); r.pos == s.pos + 1 && r.display.x == 0 && r.display.y == s.display.y
  {
    ops := [Erase, Key(ch), Key(ch)];
    var t := Apply(s, Erase);
    var u := Apply(t, Key(ch));
    RunFirst(s, Erase, [Key(ch), Key(ch)]);
    RunFirst(t, Key(ch), [Key(ch)]);
    RunFirst(u, Key(ch), []);
    assert ops == [Erase] + [Key(ch), Key(ch)] && [Key(ch), Key(ch)] == [Key(ch)] + [Key(ch)];
    assert [Key(ch)] == [Key(ch)] + [];
  }

  /** So the line can be filled without going on in the screen. */
  lemma {:induction false} PumpUp(s: State, ch: Byte) returns (ops: seq<Op>)
    requires s.Ok() && s.pos > 0 && s.display.x == 0 && s.display.y > 0 && ch != NUL && !IsBreak(ch)
    ensures Typed(ops, ch) && AllAllowed(s, ops)
    ensures var r := Run(s, ops); r.pos == KEY_BUFFER_SIZE && r.display.x == 0 && r.display.y == s.display.y
    decreases KEY_BUFFER_SIZE - s.pos
  {
    hide Apply, Allowed;
    if s.pos == KEY_BUFFER_SIZE {
      ops := [];
    } else {
      var a := PumpOnce(s, ch);
      var b := PumpUp(Run(s, a), ch);
      RunAppend(s, a, b);
      ops := a + b;
    }
  }

  lemma {:induction false} ErasesAre(n: nat)
    ensures |Erases(n)| == n && forall i :: 0 <= i < n ==> Erases(n)[i] == Erase
  {
    if n > 0 {
      ErasesAre(n - 1);
    }
  }

  /** A full line in column 0 is enough to erase through the row above. */
  lemma {:induction false} EraseRow(s: State)
    requires s.Ok() && s.pos >= NUM_COLS - 1 && s.display.x == 0 && s.display.y > 0
    ensures AllAllowed(s, Erases(NUM_COLS - 1))
    ensures var r := Run(s, Erases(NUM_COLS - 1));
            r.pos == s.pos - (NUM_COLS - 1) && r.display.x == 0 && r.display.y == s.display.y - 1
  {
    EraseMany(Apply(s, Erase), NUM_COLS - 2);
    assert Erases(NUM_COLS - 1)[0] == Erase && Erases(NUM_COLS - 1)[1..] == Erases(NUM_COLS - 2);
  }

  /** And that again in every row, up to the first. */
  lemma {:induction false} ClimbUp(s: State, ch: Byte) returns (ops: seq<Op>)
    requires s.Ok() && s.pos > 0 && s.display.x == 0 && ch != NUL && !IsBreak(ch)
    ensures Typed(ops, ch) && AllAllowed(s, ops) && !Allowed(Run(s, ops), Erase)
    decreases s.display.y
  {
    hide Apply, Erases;
    if s.display.y == 0 {
      ops := [];
    } else {
      var a := PumpUp(s, ch);
      var b := Erases(NUM_COLS - 1);
      ErasesAre(NUM_COLS - 1);
      var t := Run(s, a);
      EraseRow(t);
      var c := ClimbUp(Run(t, b), ch);
      RunAppend(t, b, c);
      RunAppend(s, a, b + c);
      ops := a + (b + c);
    }
  }

  /**
   * Whatever a console shows and whatever is pending, keys, Enter and backspaces can lead to
   * the top left corner with a character still pending: the next backspace leaves the screen.
   */
  lemma {:induction false} TypingLeavesScreen(s: State, ch: Byte) returns (ops: seq<Op>)
    requires s.Ok() && ch != NUL && !IsBreak(ch)
    ensures Typed(ops, ch) && Keyboard(ops) && AllAllowed(s, ops) && !Allowed(Run(s, ops), Erase)
  {
    var a := if s.pos == 0 then [Key(ch), EnterKey] else [EnterKey];
    var u := if s.pos == 0 then Apply(s, Key(ch)) else s;
    RunFirst(s, Key(ch), [EnterKey]);
    RunFirst(u, EnterKey, []);
    assert [Key(ch), EnterKey] == [Key(ch)] + [EnterKey] && [EnterKey] == [EnterKey] + [];
    assert Run(s, a) == Apply(u, EnterKey);
    var b := ClimbUp(Run(s, a), ch);
    RunAppend(s, a, b);
    ops := a + b;
  }

  // ----- clearing a line -----

  method ClearKeys(keys: array<Byte>)
    requires keys.Length == KEY_BUFFER_SIZE
    modifies keys
    ensures keys[..] == Padded([], KEY_BUFFER_SIZE)
  {
    var i := 0;
    while i < KEY_BUFFER_SIZE
      invariant 0 <= i <= KEY_BUFFER_SIZE
      invariant forall k :: 0 <= k < i ==> keys[k] == NUL
    {
      keys[i] := NUL;
      i := i + 1;
    }
  }

  // ----- in place -----

  class LiveConsole {
    const screen: TextScreen
    /** The pointer `key_buffer`, into the current terminal's record. */
    var keyBuffer: array<Byte>
    var keyBufferPos: nat
    var enterPressed: bool

    ghost predicate Valid()
      reads this, screen, screen.video, keyBuffer
    {
      && keyBuffer != screen.video
      && screen.Valid()
      && View().Ok()
    }

    ghost function View(): State
      reads this, screen, screen.video, keyBuffer
    {
      State(screen.View(), keyBuffer[..], keyBufferPos)
    }

    constructor (screen: TextScreen, keyBuffer: array<Byte>)
      ensures this.screen == screen && this.keyBuffer == keyBuffer && keyBufferPos == 0 && !enterPressed
    {
      this.screen := screen;
      this.keyBuffer := keyBuffer;
      keyBufferPos := 0;
      enterPressed := false;
    }

    /** key_pressed_handler, for the character `ch` that the scancode stands for. */
    method KeyPressed(ch: Byte)
      requires Valid()
      modifies this`keyBufferPos, keyBuffer, screen, screen.video
      ensures Valid() && View() == Apply(old(View()), Key(ch))
    {
      if keyBufferPos < KEY_BUFFER_SIZE {
        if ch == NUL {
          return;
        }
        keyBuffer[keyBufferPos] := ch;
        keyBufferPos := keyBufferPos + 1;
        screen.Putc(ch);
      }
    }

    method HandleBackspace()
      requires Valid() && Allowed(View(), Erase)
      modifies this`keyBufferPos, keyBuffer, screen, screen.video
      ensures Valid() && View() == Apply(old(View()), Erase)
    {
      if keyBufferPos > 0 {
        keyBufferPos := keyBufferPos - 1;
        keyBuffer[keyBufferPos] := NUL;
        screen.DoBackspace();
      }
    }

    method HandleEnter()
      requires Valid()
      modifies this`enterPressed, screen, screen.video
      ensures Valid() && enterPressed && View() == Apply(old(View()), EnterKey)
    {
      enterPressed := true;
      screen.DoEnter();
    }

    /** The keys that keyboard_handler passes on. */
    method KeyboardHandler(op: Op)
      requires Valid() && (op.Key? || op.Erase? || op.EnterKey?) && Allowed(View(), op)
      modifies this, keyBuffer, screen, screen.video
      ensures Valid() && View() == Apply(old(View()), op) && keyBuffer == old(keyBuffer)
      ensures enterPressed == (op.EnterKey? || old(enterPressed))
    {
      match op {
        case Key(ch) => KeyPressed(ch);
        case Erase => HandleBackspace();
        case EnterKey => HandleEnter();
      }
    }

    method ClearBuffer()
      requires keyBuffer.Length == KEY_BUFFER_SIZE
      modifies this`keyBufferPos, keyBuffer
      ensures keyBufferPos == 0 && keyBuffer[..] == Padded([], KEY_BUFFER_SIZE)
    {
      keyBufferPos := 0;
      ClearKeys(keyBuffer);
    }

    /** terminal_read, once Enter has been pressed. */
    method TerminalRead(buf: array<Byte>, at: nat, nbytes: int) returns (bytesRead: int)
      requires Valid() && enterPressed && Allowed(View(), Read(nbytes))
      requires buf != keyBuffer && buf != screen.video
      requires at + |Line(View(), nbytes)| <= buf.Length
      modifies this`enterPressed, this`keyBufferPos, keyBuffer, buf
      ensures Valid() && !enterPressed && View() == Apply(old(View()), Read(nbytes))
      ensures bytesRead == |Line(old(View()), nbytes)|
      ensures buf[..] == Written(old(buf[..]), at, Line(old(View()), nbytes))
    {
      ghost var line := Line(View(), nbytes);
      enterPressed := false;
      bytesRead := 0;
      var i := 0;
      // the source looks at the character before it looks at the count
      while i < KEY_BUFFER_SIZE && keyBuffer[i] != NUL && i < nbytes
        invariant 0 <= i <= |line| && bytesRead == i
        invariant keyBuffer[..] == old(keyBuffer[..]) && keyBufferPos == old(keyBufferPos) && !enterPressed
        invariant forall k {:trigger buf[k]} :: 0 <= k < buf.Length ==>
          buf[k] == if at <= k < at + i then line[k - at] else old(buf[k])
      {
        buf[at + i] := keyBuffer[i];
        bytesRead := bytesRead + 1;
        i := i + 1;
      }
      assert buf[..] == Written(old(buf[..]), at, line);
      ClearBuffer();
    }

    /** terminal_write: stops at the first NUL. */
    method TerminalWrite(buf: array<Byte>, at: nat, nbytes: int) returns (bytesWritten: int)
      requires Valid() && buf != screen.video
      requires 0 <= nbytes ==> at + nbytes <= buf.Length
      modifies screen, screen.video
      ensures Valid()
      ensures nbytes < 0 ==> bytesWritten == 0 && View() == old(View())
      ensures 0 <= nbytes ==>
        && bytesWritten == |CString(buf[at..at + nbytes])|
        && View() == Apply(old(View()), Write(buf[at..at + nbytes]))
    {
      hide Print, Put, CString;
      PrintNone(screen.View());
      bytesWritten := WriteLoop(buf, at, nbytes);
    }

    /** The loop of terminal_write. */
    method WriteLoop(buf: array<Byte>, at: nat, nbytes: int) returns (bytesWritten: int)
      requires screen.Valid() && buf != screen.video
      requires 0 <= nbytes ==> at + nbytes <= buf.Length
      modifies screen, screen.video
      ensures screen.Valid()
      ensures var shown := if nbytes < 0 then [] else CString(buf[at..at + nbytes]);
              bytesWritten == |shown| && screen.View() == Print(old(screen.View()), shown)
    {
      hide Print, Put;
      ghost var text := if nbytes < 0 then [] else buf[at..at + nbytes];
      ghost var shown := CString(text);
      PrintNone(screen.View());
      var i := 0;
      bytesWritten := 0;
      while i < nbytes
        invariant 0 <= i <= |shown| && bytesWritten == i && (nbytes < 0 ==> i == 0)
        invariant screen.Valid() && screen.View() == Print(old(screen.View()), shown[..i])
      {
        assert buf[at + i] == text[i];
        if buf[at + i] != NUL {
          assert i < |shown|;
          PrintNext(old(screen.View()), shown, i);
          screen.Putc(buf[at + i]);
          bytesWritten := bytesWritten + 1;
          i := i + 1;
        } else {
          break;
        }
      }
      assert shown[..i] == shown;
    }
  }
}
