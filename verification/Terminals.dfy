/**
 * Three consoles on one screen (terminal.c).  Only one display, cursor and key position is
 * live; the others wait in save areas.  The functions describe three consoles that have
 * nothing in common, and the class is shown to behave like them.
 */
module Terminals {
  import opened Bytes
  import opened Limits
  import opened Screen
  import opened Console

  const PAGE := 4096

  /** The two texts the switch code prints: on the first start of a terminal, and when it cannot be started. */
  datatype Texts = Texts(banner: seq<Byte>, refusal: seq<Byte>)

  // ----- three independent consoles -----

  datatype Desk = Desk(consoles: seq<State>, launched: seq<bool>, cur: int, texts: Texts) {
    predicate Ok() {
      && |consoles| == |launched| == MAX_TERMINALS
      && 1 <= cur <= MAX_TERMINALS
      && forall t :: 0 <= t < MAX_TERMINALS ==> consoles[t].Ok()
    }
  }

  /** `Local` is a key, write or read on the current terminal. */
  datatype Event = Local(op: Op) | Switch(term: int, canExecute: bool)

  predicate EventAllowed(d: Desk, e: Event)
    requires d.Ok()
  {
    match e
    case Local(op) => Allowed(d.consoles[d.cur - 1], op)
    case Switch(term, _) => 1 <= term <= MAX_TERMINALS
  }

  /** Terminal `term`, not launched before, is launched and made current. */
  function Started(d: Desk, term: int): Desk
    requires d.Ok() && 1 <= term <= MAX_TERMINALS
  {
    Desk(d.consoles[term - 1 := Apply(d.consoles[term - 1], Write(d.texts.banner))],
         d.launched[term - 1 := true], term, d.texts)
  }

  function Step(d: Desk, e: Event): (r: Desk)
    requires d.Ok() && EventAllowed(d, e)
    ensures r.Ok()
    ensures d.launched[d.cur - 1] ==> r.launched[r.cur - 1]
  {
    match e
    case Local(op) => d.(consoles := d.consoles[d.cur - 1 := Apply(d.consoles[d.cur - 1], op)])
    case Switch(term, canExecute) =>
      if term == d.cur then d
      else if d.launched[term - 1] then d.(cur := term)
      else if canExecute then Started(d, term)
      else d.(consoles := d.consoles[d.cur - 1 := Apply(d.consoles[d.cur - 1], Write(d.texts.refusal))])
  }

  /** A text is written on the current terminal, and nothing else happens. */
  predicate Wrote(d: Desk, text: seq<Byte>, r: Desk) {
    d.Ok() && r == Step(d, Local(Write(text)))
  }

  /** The flag enter_pressed, which all terminals share, after an event. */
  function Pressed(was: bool, e: Event): bool {
    if e.Local? && e.op.EnterKey? then true
    else if e.Local? && e.op.Read? then false
    else was
  }

  predicate RunAllowed(d: Desk, es: seq<Event>)
    requires d.Ok()
    decreases |es|
  {
    es == [] || (EventAllowed(d, es[0]) && RunAllowed(Step(d, es[0]), es[1..]))
  }

  function RunAll(d: Desk, es: seq<Event>): (r: Desk)
    requires d.Ok() && RunAllowed(d, es)
    ensures r.Ok()
    decreases |es|
  {
    if es == [] then d else RunAll(Step(d, es[0]), es[1..])
  }

  /** The part of an event that terminal `t` notices. */
  function Noticed(d: Desk, e: Event, t: int): seq<Op>
    requires d.Ok() && EventAllowed(d, e)
  {
    match e
    case Local(op) => if t == d.cur then [op] else []
    case Switch(term, canExecute) =>
      if term == d.cur || d.launched[term - 1] then []
      else if canExecute then (if t == term then [Write(d.texts.banner)] else [])
      else if t == d.cur then [Write(d.texts.refusal)] else []
  }

  /** Everything that happens to terminal `t` in a run: what is done while it is current, and its start. */
  function Own(d: Desk, es: seq<Event>, t: int): seq<Op>
    requires d.Ok() && RunAllowed(d, es)
    decreases |es|
  {
    if es == [] then [] else Noticed(d, es[0], t) + Own(Step(d, es[0]), es[1..], t)
  }

  lemma {:induction false} NoticedIsStep(d: Desk, e: Event, t: int)
    requires d.Ok() && EventAllowed(d, e) && 1 <= t <= MAX_TERMINALS
    ensures var ops := Noticed(d, e, t);
            AllAllowed(d.consoles[t - 1], ops) && Run(d.consoles[t - 1], ops) == Step(d, e).consoles[t - 1]
  {
    var s, ops := d.consoles[t - 1], Noticed(d, e, t);
    if ops != [] {
      assert ops[1..] == [];
      assert Run(s, ops) == Run(Apply(s, ops[0]), []);
    }
  }

  /**
   * Non-interference: at the end of any run of keys, output, reads and terminal switches,
   * each terminal is as if its own operations had been done on a console of its own.
   */
  lemma {:induction false} ConsolesAreIndependent(d: Desk, es: seq<Event>, t: int)
    requires d.Ok() && RunAllowed(d, es) && 1 <= t <= MAX_TERMINALS
    ensures AllAllowed(d.consoles[t - 1], Own(d, es, t))
    ensures RunAll(d, es).consoles[t - 1] == Run(d.consoles[t - 1], Own(d, es, t))
    decreases |es|
  {
    if es != [] {
      var u := Step(d, es[0]);
      NoticedIsStep(d, es[0], t);
      ConsolesAreIndependent(u, es[1..], t);
      RunAppend(d.consoles[t - 1], Noticed(d, es[0], t), Own(u, es[1..], t));
    }
  }

  /** A fresh terminal: blank in its colour, nothing typed. */
  ghost predicate FreshConsole(s: State) {
    s.Ok() && s.pos == 0 && Shows(s.display, [], false)
  }

  /**
   * On every run from a terminal that shows some text: its pending line is the push/pop
   * result of its own keys, and its display is the window over that text and its own
   * transcript all along exactly when every erase there takes the last character back.
   */
  lemma {:induction false} EveryTerminalKeepsItsOwn(d: Desk, es: seq<Event>, t: int, shown: seq<Byte>, erased: bool)
    requires d.Ok() && RunAllowed(d, es) && 1 <= t <= MAX_TERMINALS
    requires Shows(d.consoles[t - 1].display, shown, erased)
    ensures var c, s, own := d.consoles[t - 1], RunAll(d, es).consoles[t - 1], Own(d, es, t);
            && AllAllowed(c, own)
            && s.Pending() == PushPopAll(c.Pending(), own)
            && (AllTrack(c, shown, own) <==> ShownAlong(c, own, shown, erased))
            && (AllTrack(c, shown, own) ==>
                  Shows(s.display, Transcript(shown, c.Pending(), own), erased || !NoErase(own)))
  {
    var c, own := d.consoles[t - 1], Own(d, es, t);
    ConsolesAreIndependent(d, es, t);
    PendingIsPushPop(c, own);
    ShownAlongIff(c, own, shown, erased);
    if AllTrack(c, shown, own) {
      RunShows(c, own, shown, erased);
    }
  }

  // ----- one live console and three save areas -----

  datatype Saved = Saved(keyBufferPos: nat, posX: int, posY: int, init: bool)

  /** The colour of each terminal's characters. */
  const COLOURS: seq<Byte> := [0xB, 0xA, 0xE]

  function BlankPage(colour: Byte): (r: seq<Byte>)
    ensures |r| == VIDEO_BYTES
  {
    seq(VIDEO_BYTES, i => if i % 2 == 0 then SPACE else colour)
  }

  function FreshState(colour: Byte): (s: State)
    ensures FreshConsole(s)
  {
    assert BlankPage(colour) == Blank(BlankPage(colour)).cells;
    BlankShowsNothing(BlankPage(colour));
    State(Display(BlankPage(colour), 0, 0), Padded([], KEY_BUFFER_SIZE), 0)
  }

  function PoweredOn(texts: Texts): (d: Desk)
    ensures d.Ok()
  {
    Desk([FreshState(COLOURS[0]), FreshState(COLOURS[1]), FreshState(COLOURS[2])], [false, false, false], 1, texts)
  }

  /**
   * After power-on every terminal is an 80 by 25 page of blanks, light cyan on the first, light
   * green on the second and yellow on the third, with the cursor in the corner and nothing typed.
   */
  lemma {:induction false} PoweredOnIs(texts: Texts, t: int)
    requires 1 <= t <= 3
    ensures var d := PoweredOn(texts);
            var s := d.consoles[t - 1];
            && d.cur == 1 && d.launched == [false, false, false] && s.pos == 0
            && s.display.x == s.display.y == 0 && |s.display.cells| == 4000
            && forall i :: 0 <= i < 4000 ==>
                 s.display.cells[i] == if i % 2 == 0 then 32 else if t == 1 then 11 else if t == 2 then 10 else 14
  {
    hide State.Ok, Display.Ok, Shows;
  }

  /** `d` and `r` differ in what terminal `t` shows, and only by the printed text. */
  predicate PrintedOn(d: Desk, t: int, text: seq<Byte>, r: Desk)
    requires d.Ok() && 1 <= t <= MAX_TERMINALS
  {
    && |r.consoles| == |d.consoles|
    && (forall k :: 0 <= k < MAX_TERMINALS && k != t - 1 ==> r.consoles[k] == d.consoles[k])
    && r.consoles[t - 1] == d.consoles[t - 1].(display := Print(d.consoles[t - 1].display, text))
  }

  lemma {:induction false} WriteIs(s: State, text: seq<Byte>)
    requires s.Ok()
    ensures Apply(s, Write(text)) == s.(display := Print(s.display, CString(text)))
  {
  }

  /**
   * A switch moves to a launched terminal and changes no console; a terminal that is not
   * launched prints the banner and is launched, or stays behind while the refusal is printed
   * on the one where the key was pressed.
   */
  lemma {:induction false} SwitchIs(d: Desk, term: int, room: bool)
    requires d.Ok() && 1 <= term <= 3 && d.launched[d.cur - 1]
    requires Lacks(d.texts.banner, 0) && Lacks(d.texts.refusal, 0)
    ensures var r := Step(d, Switch(term, room));
            && r.cur == (if d.launched[term - 1] || room then term else d.cur)
            && (forall k :: 0 <= k < 3 ==> r.launched[k] == (d.launched[k] || (k == term - 1 && room)))
            && if d.launched[term - 1] then r.consoles == d.consoles
               else if room then PrintedOn(d, term, d.texts.banner, r)
               else PrintedOn(d, d.cur, d.texts.refusal, r)
  {
    hide State.Ok, Print;
    IndexOfIs(d.texts.banner, 0, |d.texts.banner|);
    IndexOfIs(d.texts.refusal, 0, |d.texts.refusal|);
    WriteIs(d.consoles[term - 1], d.texts.banner);
    WriteIs(d.consoles[d.cur - 1], d.texts.refusal);
    assert CString(d.texts.banner) == d.texts.banner && CString(d.texts.refusal) == d.texts.refusal;
  }

  /** Leaving a launched terminal for another and coming back changes nothing. */
  lemma {:induction false} ThereAndBack(d: Desk, term: int, room: bool, later: bool)
    requires d.Ok() && 1 <= term <= 3 && d.launched[d.cur - 1] && d.launched[term - 1]
    ensures Step(Step(d, Switch(term, room)), Switch(d.cur, later)) == d
  {
    hide State.Ok;
    assert Step(d, Switch(term, room)) == d.(cur := term);
  }

  class TerminalSet {
    const live: LiveConsole
    const keyBuffers: seq<array<Byte>>
    const vidMem: seq<array<Byte>>
    const terminal: array<Saved>
    const texts: Texts
    var termCur: int
    /** The three consoles this object stands for. */
    ghost var desk: Desk

    constructor (live: LiveConsole, keyBuffers: seq<array<Byte>>, vidMem: seq<array<Byte>>,
                 terminal: array<Saved>, texts: Texts)
      ensures this.live == live && this.keyBuffers == keyBuffers && this.vidMem == vidMem
      ensures this.terminal == terminal && this.texts == texts
    {
      this.live, this.keyBuffers, this.vidMem, this.terminal := live, keyBuffers, vidMem, terminal;
      this.texts := texts;
      termCur := 1;
    }

    /** The objects that hold the consoles. */
    ghost function Repr(): set<object> {
      {live, live.screen, live.screen.video, terminal}
      + (set k | 0 <= k < |keyBuffers| :: keyBuffers[k]) + (set k | 0 <= k < |vidMem| :: vidMem[k])
    }

    /** The buffers are there, and no two of them are the same. */
    ghost predicate Shape() {
      && |keyBuffers| == |vidMem| == terminal.Length == MAX_TERMINALS
      && live.screen.video.Length == VIDEO_BYTES
      && (forall k :: 0 <= k < MAX_TERMINALS ==>
            && keyBuffers[k].Length == KEY_BUFFER_SIZE && vidMem[k].Length == PAGE
            && keyBuffers[k] != live.screen.video && vidMem[k] != live.screen.video)
      && (forall j, k :: 0 <= j < MAX_TERMINALS && 0 <= k < MAX_TERMINALS ==> keyBuffers[j] != vidMem[k])
      && (forall j, k :: 0 <= j < k < MAX_TERMINALS ==> keyBuffers[j] != keyBuffers[k] && vidMem[j] != vidMem[k])
    }

    /** The console in save area `k`. */
    ghost function SavedConsole(k: nat): State
      requires Shape() && k < MAX_TERMINALS
      reads terminal, vidMem[k], keyBuffers[k]
    {
      State(Display(vidMem[k][..VIDEO_BYTES], terminal[k].posX, terminal[k].posY),
            keyBuffers[k][..], terminal[k].keyBufferPos)
    }

    /** The consoles of `d` are in their save areas, terminal `t` perhaps excepted. */
    ghost predicate SavedBut(d: Desk, t: int)
      reads Repr()
    {
      && Shape() && d.Ok() && d.texts == texts
      && forall k :: 0 <= k < MAX_TERMINALS ==>
           terminal[k].init == d.launched[k] && (k != t - 1 ==> SavedConsole(k) == d.consoles[k])
    }

    /**
     * The state is that of desk `d`, but for the variable that says which terminal is
     * current; the hardware cursor stands where the next character goes.
     */
    ghost predicate Ready(d: Desk)
      reads Repr(), live.keyBuffer
    {
      && SavedBut(d, d.cur)
      && live.keyBuffer == keyBuffers[d.cur - 1] && live.screen.Synced()
      && live.View() == d.consoles[d.cur - 1]
    }

    ghost predicate Valid()
      reads this, Repr(), live.keyBuffer
    {
      desk.Ok() && Ready(desk) && termCur == desk.cur
    }

    /** terminal_save. */
    method TerminalSave(term: int)
      requires Valid() && term == termCur
      modifies terminal, vidMem[term - 1]
      ensures SavedBut(desk, 0)
    {
      terminal[term - 1] := terminal[term - 1].(keyBufferPos := live.keyBufferPos,
        posX := live.screen.screenX, posY := live.screen.screenY);
      CopyBytes(vidMem[term - 1], live.screen.video, VIDEO_BYTES);
      assert vidMem[term - 1][..VIDEO_BYTES] == live.screen.video[..];
    }

    lemma {:induction false} SavedIsOk(term: int)
      requires SavedBut(desk, 0) && 1 <= term <= MAX_TERMINALS
      ensures 0 <= terminal[term - 1].posX < NUM_COLS && 0 <= terminal[term - 1].posY < NUM_ROWS
    {
      assert SavedConsole(term - 1) == desk.consoles[term - 1];
    }

    /** The assignments of terminal_load: the live console becomes the saved one. */
    method LoadConsole(term: int)
      requires Shape() && 1 <= term <= MAX_TERMINALS
      requires 0 <= terminal[term - 1].posX < NUM_COLS && 0 <= terminal[term - 1].posY < NUM_ROWS
      modifies live`keyBuffer, live`keyBufferPos, live.screen, live.screen.video
      ensures live.keyBuffer == keyBuffers[term - 1] && live.screen.Synced() && live.View() == SavedConsole(term - 1)
    {
      live.keyBuffer := keyBuffers[term - 1];
      live.keyBufferPos := terminal[term - 1].keyBufferPos;
      live.screen.SetScreenPos(terminal[term - 1].posX, terminal[term - 1].posY);
      live.screen.UpdateCursorLoc(live.screen.screenX, live.screen.screenY);
      CopyBytes(live.screen.video, vidMem[term - 1], VIDEO_BYTES);
      assert live.screen.video[..] == vidMem[term - 1][..VIDEO_BYTES];
    }

    /** terminal_load, as far as the console goes. */
    method TerminalLoad(term: int)
      requires SavedBut(desk, 0) && 1 <= term <= MAX_TERMINALS && term == termCur
      modifies this`desk, live`keyBuffer, live`keyBufferPos, live.screen, live.screen.video
      ensures Valid() && desk == old(desk).(cur := term)
    {
      hide State.Ok, TextScreen.Synced, TextScreen.Valid, LiveConsole.Valid;
      SavedIsOk(term);
      LoadConsole(term);
      desk := desk.(cur := term);
    }

    lemma {:induction false} KeyBufferInRepr()
      requires Valid()
      ensures live.keyBuffer in Repr() && desk.Ok() && termCur == desk.cur
    {
    }

    lemma {:induction false} LiveIsValid()
      requires Valid()
      ensures live.Valid() && live.View() == desk.consoles[termCur - 1]
    {
    }

    /** An operation done on the live console is that operation on the current one of the three. */
    lemma {:induction false} LocalStep(d: Desk, op: Op)
      requires SavedBut(d, d.cur) && live.keyBuffer == keyBuffers[d.cur - 1] && live.screen.Synced()
      requires Allowed(d.consoles[d.cur - 1], op) && live.View() == Apply(d.consoles[d.cur - 1], op)
      ensures Ready(Step(d, Local(op)))
    {
      hide Apply, Allowed;
    }

    /** printf of a fixed text, on the live console. */
    method Printf(text: seq<Byte>)
      requires Valid()
      modifies this`desk, live.screen, live.screen.video
      ensures Valid() && desk == Step(old(desk), Local(Write(text)))
    {
      hide Apply, TextScreen.Synced, State.Ok;
      LiveIsValid();
      ghost var was := live.View();
      var n := live.screen.Puts(text);
      assert live.View() == Apply(was, Write(text)) by { WriteIs(was, text); }
      LocalStep(desk, Write(text));
      desk := Step(desk, Local(Write(text)));
    }

    /** A text has been written to the live console: that was the current one of the three. */
    ghost method NoteWrite(text: seq<Byte>)
      requires desk.Ok() && SavedBut(desk, desk.cur) && termCur == desk.cur
      requires live.keyBuffer == keyBuffers[desk.cur - 1] && live.screen.Synced()
      requires live.View() == Apply(desk.consoles[desk.cur - 1], Write(text))
      modifies this`desk
      ensures Valid() && Wrote(old(desk), text, desk)
    {
      hide Apply, TextScreen.Synced, State.Ok;
      LocalStep(desk, Write(text));
      desk := Step(desk, Local(Write(text)));
    }

    /** terminal_start, as far as the console goes. */
    method TerminalStart(term: int)
      requires SavedBut(desk, 0) && 1 <= term <= MAX_TERMINALS && term == termCur
      modifies this`desk, terminal, live`keyBuffer, live`keyBufferPos, live.screen, live.screen.video
      ensures Valid() && desk == Started(old(desk), term)
    {
      hide Apply, State.Ok, TextScreen.Synced, TextScreen.Valid, LiveConsole.Valid;
      terminal[term - 1] := terminal[term - 1].(init := true);
      desk := desk.(launched := desk.launched[term - 1 := true]);
      TerminalLoad(term);
      Printf(texts.banner);
    }

    /** Blank characters in one colour. */
    static method ClearPage(page: array<Byte>, colour: Byte)
      requires page.Length == PAGE
      modifies page
      ensures page[..VIDEO_BYTES] == BlankPage(colour)
    {
      var i := 0;
      while i < NUM_ROWS * NUM_COLS
        invariant 0 <= i <= NUM_ROWS * NUM_COLS
        invariant forall k :: 0 <= k < 2 * i ==> page[k] == if k % 2 == 0 then SPACE else colour
      {
        page[2 * i] := SPACE;
        page[2 * i + 1] := colour;
        i := i + 1;
      }
    }

    /** init_terminals: three blank consoles in their colours; the first one is started. */
    method InitTerminals()
      requires Shape()
      modifies this, terminal, live`keyBuffer, live`keyBufferPos, live.screen, live.screen.video, keyBuffers, vidMem
      ensures Valid() && desk == Started(PoweredOn(texts), 1)
    {
      InitRecords();
      desk := PoweredOn(texts);
      termCur := 1;
      TerminalStart(1);
    }

    method InitRecords()
      requires Shape()
      modifies terminal, keyBuffers, vidMem
      ensures SavedBut(PoweredOn(texts), 0)
    {
      hide FreshState, State.Ok;
      var i := 0;
      while i < MAX_TERMINALS
        invariant 0 <= i <= MAX_TERMINALS
        invariant forall k :: 0 <= k < i ==> SavedConsole(k) == FreshState(COLOURS[k]) && !terminal[k].init
      {
        InitRecord(i);
        i := i + 1;
      }
    }

    method InitRecord(i: nat)
      requires Shape() && i < MAX_TERMINALS
      modifies terminal, keyBuffers[i], vidMem[i]
      ensures SavedConsole(i) == FreshState(COLOURS[i]) && !terminal[i].init
      ensures forall k :: 0 <= k < MAX_TERMINALS && k != i ==>
        SavedConsole(k) == old(SavedConsole(k)) && terminal[k] == old(terminal[k])
    {
      terminal[i] := Saved(0, 0, 0, false);
      ClearKeys(keyBuffers[i]);
      ClearPage(vidMem[i], COLOURS[i]);
    }

    /** switch_terminal; `canExecute` is the kernel's answer to can_execute. */
    method SwitchTerminal(term: int, canExecute: bool)
      requires Valid() && 1 <= term <= MAX_TERMINALS
      modifies this`termCur, this`desk, terminal, live`keyBuffer, live`keyBufferPos, live.screen, live.screen.video,
        vidMem
      ensures Valid() && desk == Step(old(desk), Switch(term, canExecute))
    {
      hide Apply, State.Ok, TextScreen.Synced, LiveConsole.Valid, TextScreen.Valid, Started;
      if term == termCur {
        return;
      }
      if !terminal[term - 1].init {
        if !canExecute {
          Printf(texts.refusal);
          return;
        }
      }
      TerminalSave(termCur);
      termCur := term;
      StartOrLoad(term);
    }

    /** The end of switch_terminal: load or start, depending on the terminal's status. */
    method StartOrLoad(term: int)
      requires SavedBut(desk, 0) && 1 <= term <= MAX_TERMINALS && term == termCur
      modifies this`desk, terminal, live`keyBuffer, live`keyBufferPos, live.screen, live.screen.video
      ensures Valid()
      ensures desk == if old(desk).launched[term - 1] then old(desk).(cur := term) else Started(old(desk), term)
    {
      hide Apply, State.Ok, TextScreen.Synced;
      if !terminal[termCur - 1].init {
        TerminalStart(termCur);
      } else {
        TerminalLoad(termCur);
      }
    }

    /** The keys that keyboard_handler passes on to the current terminal. */
    method KeyboardHandler(op: Op)
      requires Valid() && (op.Key? || op.Erase? || op.EnterKey?) && Allowed(desk.consoles[termCur - 1], op)
      modifies this`desk, live, live.keyBuffer, live.screen, live.screen.video
      ensures Valid() && desk == Step(old(desk), Local(op))
      ensures live.enterPressed == Pressed(old(live.enterPressed), Local(op))
    {
      hide Apply, Allowed, TextScreen.Synced, State.Ok;
      LiveIsValid();
      live.KeyboardHandler(op);
      LocalStep(desk, op);
      desk := Step(desk, Local(op));
    }

    /** A process of the current terminal writes to its descriptor 1. */
    method WriteOut(buf: array<Byte>, at: nat, nbytes: nat) returns (r: int)
      requires Valid() && buf !in Repr() && at + nbytes <= buf.Length
      modifies this`desk, live.screen, live.screen.video
      ensures Valid() && desk == Step(old(desk), Local(Write(buf[at..at + nbytes])))
      ensures r == |CString(buf[at..at + nbytes])|
    {
      hide Apply, TextScreen.Synced, State.Ok;
      LiveIsValid();
      r := live.TerminalWrite(buf, at, nbytes);
      LocalStep(desk, Write(buf[at..at + nbytes]));
      desk := Step(desk, Local(Write(buf[at..at + nbytes])));
    }

    /** A process of the current terminal reads from its descriptor 0. */
    method ReadIn(buf: array<Byte>, at: nat, nbytes: int) returns (r: int)
      requires Valid() && buf !in Repr() && live.enterPressed
      requires Allowed(desk.consoles[termCur - 1], Read(nbytes))
      requires at + |Line(desk.consoles[termCur - 1], nbytes)| <= buf.Length
      modifies this`desk, live, live.keyBuffer, buf
      ensures Valid() && desk == Step(old(desk), Local(Read(nbytes)))
      ensures live.enterPressed == Pressed(old(live.enterPressed), Local(Read(nbytes)))
      ensures var line := Line(old(desk).consoles[termCur - 1], nbytes);
              r == |line| && buf[..] == Written(old(buf[..]), at, line)
    {
      hide Apply, TextScreen.Synced, State.Ok, TextScreen.View, Line;
      LiveIsValid();
      r := live.TerminalRead(buf, at, nbytes);
      LocalStep(desk, Read(nbytes));
      desk := Step(desk, Local(Read(nbytes)));
    }
  }
}
