/**
 * The shell (main of ece391shell.c): what is typed on its terminal, line after line, and what
 * the screen shows of it.
 */
module Shell {
  import opened Bytes
  import opened Limits
  import opened Rofs
  import Console
  import FileTable
  import GrepProgram
  import Kernel
  import Machine
  import Paging
  import PcbLayout
  import Programs
  import Screen
  import Session
  import StackUse
  import Terminals
  import Together

  const BUFSIZE := 1024
  const STARTING := Ascii("Starting 391 Shell\n")
  const NO_SUCH := Ascii("no such command\n")
  const BY_EXCEPTION := Ascii("program terminated by exception\n")
  const ABNORMALLY := Ascii("program terminated abnormally\n")

  /**
   * One round of the shell's loop: the keys and backspaces before Enter, the bytes that the
   * entries of execute and of the started program take, and what the program's file holds.
   */
  datatype Turn = Turn(keys: seq<Console.Op>, entry: nat, used: nat, program: Session.Program)

  // ----- what a round does -----

  /** The line that is read, without a newline at its end. */
  function Command(keys: seq<Console.Op>): seq<Byte> {
    Trimmed(Console.PushPopAll([], keys))
  }

  function Trimmed(line: seq<Byte>): seq<Byte> {
    if line != [] && line[|line| - 1] == NEWLINE then line[..|line| - 1] else line
  }

  /** What the shell says to the result of execute. */
  function Comment(result: int): seq<Console.Op> {
    if result == -1 then [Console.Write(NO_SUCH)]
    else if result == 256 then [Console.Write(BY_EXCEPTION)]
    else if result != 0 then [Console.Write(ABNORMALLY)]
    else []
  }

  /** What execute leads to on the terminal, and its result; `full` says that six processes live. */
  ghost function Executed(img: Image, full: bool, command: seq<Byte>, program: Session.Program)
    : (seq<Console.Op>, int)
    requires Session.CanRun(img, program)
  {
    if !Machine.Runnable(img, Machine.Word(command)) then ([], -1)
    else if full then ([Console.Write(Together.FULL)], 0)
    else
      var (text, code) := Session.Output(img, program, Machine.ArgText(command));
      ([Console.Write(text)], code)
  }

  /** What the terminal shows behind the command. */
  ghost function Reply(img: Image, full: bool, command: seq<Byte>, program: Session.Program): seq<Console.Op>
    requires Session.CanRun(img, program)
  {
    if command == [] then []
    else
      var (ops, result) := Executed(img, full, command, program);
      ops + Comment(result)
  }

  /** The prompt, the typing and the read. */
  function AskOps(keys: seq<Console.Op>): seq<Console.Op> {
    [Console.Write(Screen.PROMPT)] + keys + [Console.EnterKey, Console.Read(BUFSIZE - 1)]
  }

  /** All that a round does to the shell's terminal. */
  ghost function TurnOps(img: Image, full: bool, turn: Turn): seq<Console.Op>
    requires Session.CanRun(img, turn.program)
  {
    AskOps(turn.keys) + Reply(img, full, Command(turn.keys), turn.program)
  }

  /** `word` names a file that begins with the ELF magic number. */
  ghost predicate NamesElf(img: Image, word: seq<Byte>)
    requires WellFormed(img)
  {
    exists i: nat :: Machine.IsFirst(img, i, word) && Machine.StartsElf(img, img.dentries[i].inode)
  }

  /**
   * What the terminal shows behind a typed line: a program is started by the name of a file
   * that begins with the ELF magic number, when fewer than six processes live; it shows what
   * cat, ls or grep make of the text behind the name, and the shell says so when it fails.
   */
  ghost function Answer(img: Image, full: bool, line: seq<Byte>, program: Session.Program): seq<Byte>
    requires Session.CanRun(img, program)
  {
    var args, failed := Machine.ArgText(line), Ascii("program terminated abnormally\n");
    if line == [] then []
    else if !NamesElf(img, Machine.Word(line)) then Ascii("no such command\n")
    else if full then Ascii("Maximum number of processes reached\n")
    else if program.Cat? then
      if args == [] then Ascii("could not read arguments\n") + failed
      else if FileTable.Target(img, args).None? then Ascii("file not found\n") + failed
      else Programs.CatText(img, args)
    else if program.Grep? && args == [] then Ascii("could not read argument\n") + failed
    else if FileTable.Target(img, Ascii(".")).None? then Ascii("directory open failed\n") + failed
    else if program.Ls? then Programs.LsText(img)
    else
      var (text, code) := GrepProgram.Report(img, args, program.garbage, true, 0);
      if code == 0 then text else text + failed
  }

  lemma {:induction false} TwoWrites(t: seq<Byte>, a: seq<Byte>, b: seq<Byte>)
    requires Lacks(a, 0) && Lacks(b, 0)
    ensures Console.Transcript(t, [], [Console.Write(a)]) == t + a
    ensures Console.Transcript(t, [], [Console.Write(a), Console.Write(b)]) == t + a + b
  {
    IndexOfIs(a, 0, |a|);
    IndexOfIs(b, 0, |b|);
    var one, two := [Console.Write(a)], [Console.Write(a), Console.Write(b)];
    assert one[1..] == [] && two[1..] == [Console.Write(b)] && two[1..][1..] == [];
    assert Console.Transcript(t + a, [], [Console.Write(b)]) == t + a + b;
  }

  /** What a failed or finished program leaves on the screen, with the shell's word on it. */
  lemma {:induction false} OutputShows(img: Image, line: seq<Byte>, program: Session.Program)
    requires Session.CanRun(img, program) && line != [] && NamesElf(img, Machine.Word(line))
    ensures var (text, code) := Session.Output(img, program, Machine.ArgText(line));
            && (code == 0 || code == 2 || code == 3)
            && Answer(img, false, line, program) == if code == 0 then text else text + ABNORMALLY
  {
    hide GrepProgram.Report, FileTable.Target, NamesElf, Machine.Word, Machine.ArgText, WellFormed, Programs.CatText,
      Programs.LsText;
    if program.Grep? {
      GrepProgram.ReportLacks(img, Machine.ArgText(line), program.garbage, true, 0);
    }
  }

  /** The reply when a program is started. */
  lemma {:induction false} OutputAppears(img: Image, line: seq<Byte>, program: Session.Program, t: seq<Byte>)
    requires Session.CanRun(img, program) && line != [] && Machine.Runnable(img, Machine.Word(line))
    ensures Console.Transcript(t, [], Reply(img, false, line, program)) == t + Answer(img, false, line, program)
  {
    hide Session.Output, Machine.Word, Machine.ArgText, Console.Transcript, WellFormed, Machine.Runnable, Answer;
    var args, said := Machine.ArgText(line), Console.Write(ABNORMALLY);
    Machine.RunnableIs(img, Machine.Word(line));
    AsciiLacksNul("program terminated abnormally\n");
    OutputShows(img, line, program);
    Session.OutputIs(img, program, args);
    var text := Session.Output(img, program, args).0;
    TwoWrites(t, text, ABNORMALLY);
    AppendAssoc(t, text, ABNORMALLY);
    assert [Console.Write(text)] + [said] == [Console.Write(text), said];
    assert [Console.Write(text)] + [] == [Console.Write(text)];
  }

  /** The reply when none is started. */
  lemma {:induction false} RefusalAppears(img: Image, full: bool, line: seq<Byte>, program: Session.Program,
                                          t: seq<Byte>)
    requires Session.CanRun(img, program) && line != [] && (full || !Machine.Runnable(img, Machine.Word(line)))
    ensures Console.Transcript(t, [], Reply(img, full, line, program)) == t + Answer(img, full, line, program)
  {
    hide Session.Output, Machine.Word, Machine.ArgText, Console.Transcript, WellFormed, Machine.Runnable,
      GrepProgram.Report, FileTable.Target, Programs.CatText, Programs.LsText, Ascii, GrepProgram.PlainDirectories,
      GrepProgram.GarbageOk, Machine.IsFirst, Machine.StartsElf;
    Machine.RunnableIs(img, Machine.Word(line));
    if Machine.Runnable(img, Machine.Word(line)) {
      AsciiLacksNul("Maximum number of processes reached\n");
      TwoWrites(t, Together.FULL, []);
      assert [Console.Write(Together.FULL)] + [] == [Console.Write(Together.FULL)];
    } else {
      AsciiLacksNul("no such command\n");
      TwoWrites(t, NO_SUCH, []);
      assert [] + [Console.Write(NO_SUCH)] == [Console.Write(NO_SUCH)];
    }
  }

  /** What execute leads to on the terminal and what the shell says to it, as one text. */
  lemma {:induction false} ReplyShows(img: Image, full: bool, line: seq<Byte>, program: Session.Program, t: seq<Byte>)
    requires Session.CanRun(img, program)
    ensures Console.Transcript(t, [], Reply(img, full, line, program)) == t + Answer(img, full, line, program)
  {
    hide Executed, Console.Transcript, Machine.Runnable, NamesElf;
    if line == [] {
      NothingShown(t);
    } else if full || !Machine.Runnable(img, Machine.Word(line)) {
      RefusalAppears(img, full, line, program, t);
    } else {
      OutputAppears(img, line, program, t);
    }
  }

  lemma {:induction false} NothingShown(t: seq<Byte>)
    ensures Console.Transcript(t, [], []) == t == t + []
  {
  }

  /** A round shows the prompt, the line, a new row and the answer, in this order and nothing else. */
  lemma {:induction false} RoundShows(img: Image, full: bool, turn: Turn, line: seq<Byte>, t: seq<Byte>)
    requires Session.CanRun(img, turn.program) && turn.keys == Console.Typing(line)
    requires |line| <= 128 && Lacks(line, 0) && Lacks(line, 10)
    ensures Console.Transcript(t, [], TurnOps(img, full, turn))
         == t + Ascii("391OS> ") + line + [10] + Answer(img, full, line, turn.program)
  {
    hide Session.CanRun, Reply, Answer, Console.Typing;
    var ask := AskOps(turn.keys);
    AskShows(line, t);
    Console.TranscriptAppend(t, [], ask, Reply(img, full, line, turn.program));
    ReplyShows(img, full, line, turn.program, Console.Transcript(t, [], ask));
  }

  /** When a round is over, nothing is pending. */
  lemma {:induction false} NothingPending(img: Image, full: bool, turn: Turn)
    requires Session.CanRun(img, turn.program)
    ensures Console.PushPopAll([], TurnOps(img, full, turn)) == []
  {
    hide Console.PushPopAll, Session.CanRun, Session.Output, Machine.Runnable;
    var ask, reply := AskOps(turn.keys), Reply(img, full, Command(turn.keys), turn.program);
    var first, last := [Console.Write(Screen.PROMPT)] + turn.keys, [Console.EnterKey, Console.Read(BUFSIZE - 1)];
    Console.TranscriptAppend([], [], ask, reply);
    Console.TranscriptAppend([], [], first, last);
    EnterShows([], Console.PushPopAll([], first));
    WritesLeave(reply);
  }

  lemma {:induction false} WritesLeave(ops: seq<Console.Op>)
    requires forall op <- ops :: op.Write?
    ensures Console.PushPopAll([], ops) == []
  {
    if ops != [] {
      assert ops[0] in ops;
      WritesLeave(ops[1..]);
    }
  }

  lemma {:induction false} AskShows(line: seq<Byte>, t: seq<Byte>)
    requires |line| <= 128 && Lacks(line, 0) && Lacks(line, 10)
    ensures var keys := Console.Typing(line);
            && Command(keys) == line && Console.PushPopAll([], AskOps(keys)) == []
            && Console.Transcript(t, [], AskOps(keys)) == t + Ascii("391OS> ") + line + [10]
  {
    hide Console.Typing, Console.Transcript, Console.PushPopAll;
    var keys, first := Console.Typing(line), [Console.Write(Screen.PROMPT)];
    var last := [Console.EnterKey, Console.Read(BUFSIZE - 1)];
    var u := t + Screen.PROMPT;
    Console.TypedText([], [], line);
    Console.TypedText(u, [], line);
    PromptShows(t);
    EnterShows(u + line, line);
    Console.TranscriptAppend(t, [], first, keys);
    Console.TranscriptAppend(t, [], first + keys, last);
    assert [] + line == line;
  }

  lemma {:induction false} PromptShows(t: seq<Byte>)
    ensures var ops := [Console.Write(Screen.PROMPT)];
            Console.Transcript(t, [], ops) == t + Ascii("391OS> ") && Console.PushPopAll([], ops) == []
  {
    assert Lacks(Screen.PROMPT, 0);
    TwoWrites(t, Screen.PROMPT, []);
  }

  lemma {:induction false} EnterShows(t: seq<Byte>, line: seq<Byte>)
    ensures var ops := [Console.EnterKey, Console.Read(BUFSIZE - 1)];
            Console.Transcript(t, line, ops) == t + [10] && Console.PushPopAll(line, ops) == []
  {
    var ops := [Console.EnterKey, Console.Read(BUFSIZE - 1)];
    assert ops[1..] == [Console.Read(BUFSIZE - 1)] && ops[1..][1..] == [];
    assert Console.Transcript(t + [10], line, ops[1..]) == t + [10];
    assert Console.PushPopAll(line, ops[1..]) == [];
  }

  /** What it does at the kernel: nothing, a call of execute that comes back, or a command. */
  ghost function TurnDeeds(img: Image, full: bool, turn: Turn): seq<StackUse.Deed>
    requires Session.CanRun(img, turn.program)
  {
    var command := Command(turn.keys);
    if command == [] then []
    else if !Machine.Runnable(img, Machine.Word(command)) || full then [StackUse.Call(turn.entry)]
    else
      var code := Session.Output(img, turn.program, Machine.ArgText(command)).1;
      [StackUse.Command(command, turn.entry, [Machine.Enter(turn.used)], Machine.Halt(code))]
  }

  /** The typed line is a command that does not end the shell. */
  ghost predicate TurnOk(img: Image, turn: Turn) {
    && Session.CanRun(img, turn.program) && Console.Editing(turn.keys) && turn.used <= StackUse.STACK_SIZE
    && !Machine.IsExit(Machine.Word(Command(turn.keys)))
  }

  ghost predicate TurnsOk(img: Image, turns: seq<Turn>) {
    forall i :: 0 <= i < |turns| ==> TurnOk(img, turns[i])
  }

  ghost function DialogueOps(img: Image, full: bool, turns: seq<Turn>): seq<Console.Op>
    requires TurnsOk(img, turns)
  {
    if turns == [] then [] else TurnOps(img, full, turns[0]) + DialogueOps(img, full, turns[1..])
  }

  ghost function DialogueDeeds(img: Image, full: bool, turns: seq<Turn>): seq<StackUse.Deed>
    requires TurnsOk(img, turns)
  {
    if turns == [] then [] else TurnDeeds(img, full, turns[0]) + DialogueDeeds(img, full, turns[1..])
  }

  /**
   * The entries that these rounds make at the kernel fit on the shell's kernel stack if and
   * only if the sizes do; and they are a run of the machine.
   */
  lemma {:induction false} DialogueFitsIff(img: Image, m: Machine.State, turns: seq<Turn>)
    requires WellFormed(img) && Machine.Ok(m) && TurnsOk(img, turns)
    requires m.esp0 < PcbLayout.PcbAddress(Session.TopPid(m)) + PcbLayout.EIGHT_KB
    ensures var ds, pid := DialogueDeeds(img, Machine.Total(m) >= MAX_PROCESSES, turns), Session.TopPid(m);
            && StackUse.AllComplete(img, m, ds)
            && (StackUse.AllFit(img, m, ds, pid) <==> StackUse.Within(ds, StackUse.Room(m, pid)))
  {
    hide Machine.Disjoint, Machine.Live, Machine.Total, StackUse.AllComplete, StackUse.AllFit, StackUse.Within,
      StackUse.Room, DialogueDeeds, WellFormed;
    var full := Machine.Total(m) >= MAX_PROCESSES;
    var ds := DialogueDeeds(img, full, turns);
    DeedsAreSimple(img, full, turns);
    if full {
      CallsComplete(img, m, ds);
    } else {
      StackUse.SimpleRun(img, m, ds);
    }
    StackUse.AllFitIff(img, m, ds, Session.TopPid(m));
  }

  lemma {:induction false} DeedsAreSimple(img: Image, full: bool, turns: seq<Turn>)
    requires WellFormed(img) && TurnsOk(img, turns)
    ensures StackUse.AllSimple(img, DialogueDeeds(img, full, turns))
    ensures full ==> forall d <- DialogueDeeds(img, full, turns) :: d.Call?
  {
    hide Session.Output, Session.CanRun, Machine.Runnable, Machine.IsExit, Machine.Word, WellFormed;
    if turns != [] {
      assert TurnOk(img, turns[0]);
      DeedsAreSimple(img, full, turns[1..]);
    }
  }

  lemma {:induction false} CallsComplete(img: Image, m: Machine.State, ds: seq<StackUse.Deed>)
    requires WellFormed(img) && Machine.Ok(m) && forall d <- ds :: d.Call?
    ensures StackUse.AllComplete(img, m, ds)
    decreases |ds|
  {
    hide Machine.Ok, Machine.Step, WellFormed;
    if ds != [] {
      StackUse.CallCompletes(img, m, ds[0]);
      StackUse.CommandCosts(img, m, ds[0]);
      CallsComplete(img, Machine.Run(img, m, StackUse.Events(ds[0])), ds[1..]);
    }
  }

  // ----- what has happened -----

  /** These operations have been done on the current terminal, and no other console has changed. */
  ghost predicate Did(d: Terminals.Desk, ops: seq<Console.Op>, r: Terminals.Desk) {
    && d.Ok() && Console.AllAllowed(d.consoles[d.cur - 1], ops)
    && r == d.(consoles := d.consoles[d.cur - 1 := Console.Run(d.consoles[d.cur - 1], ops)])
  }

  /**
   * A joint run has led from `s` to `t`: it did these operations on the current terminal and
   * left the kernel to be entered `cost` bytes further down.
   */
  ghost predicate Leads(img: Image, s: Together.State, es: seq<Together.Event>, ops: seq<Console.Op>, cost: nat,
                        t: Together.State)
  {
    && Together.Reaches(img, s, es, t) && Did(s.desk, ops, t.desk) && StackUse.Below(s.machine, cost, t.machine)
  }

  lemma {:induction false} DidOn(d: Terminals.Desk, a: seq<Console.Op>, e: Terminals.Desk, b: seq<Console.Op>,
                                 f: Terminals.Desk)
    requires Did(d, a, e) && Did(e, b, f)
    ensures Did(d, a + b, f)
  {
    hide Console.Apply, Console.Allowed;
    Console.RunAppend(d.consoles[d.cur - 1], a, b);
  }

  lemma {:induction false} LeadsOn(img: Image, s: Together.State, es: seq<Together.Event>, a: seq<Console.Op>, x: nat,
                                   t: Together.State, fs: seq<Together.Event>, b: seq<Console.Op>, y: nat,
                                   u: Together.State)
    requires Leads(img, s, es, a, x, t) && Leads(img, t, fs, b, y, u)
    ensures Leads(img, s, es + fs, a + b, x + y, u)
  {
    hide Together.Reaches, Did;
    Together.ReachesOn(img, s, es, t, fs, u);
    DidOn(s.desk, a, t.desk, b, u.desk);
  }

  lemma {:induction false} LeadsNowhere(img: Image, s: Together.State)
    requires WellFormed(img) && Together.Ok(s)
    ensures Leads(img, s, [], [], 0, s)
  {
    hide Machine.Ok;
    Together.ReachesNothing(img, s);
  }

  /** One operation on the current terminal. */
  lemma {:induction false} LocalLeads(img: Image, s: Together.State, op: Console.Op, t: Together.State)
    requires Together.Steps(img, s, Together.Local(op), t)
    ensures Leads(img, s, [Together.Local(op)], [op], 0, t)
    ensures t.pressed == Terminals.Pressed(s.pressed, Terminals.Local(op))
    ensures s.desk.Ok() && Console.Allowed(s.desk.consoles[s.desk.cur - 1], op)
    ensures t.desk.cur == s.desk.cur && |t.desk.consoles| == |s.desk.consoles| == MAX_TERMINALS
    ensures t.desk.consoles[t.desk.cur - 1] == Console.Apply(s.desk.consoles[s.desk.cur - 1], op)
  {
    hide Machine.Ok, Together.Step, Together.Reaches, Console.Apply, Console.Allowed;
    Together.LocalSteps(img, s, op);
    Together.ReachesOne(img, s, Together.Local(op), t);
    Console.RunFirst(s.desk.consoles[s.desk.cur - 1], op, []);
    assert [op] == [op] + [];
  }

  lemma {:induction false} LineAfter(c: Console.State, op: Console.Op)
    requires c.Ok() && Console.Allowed(c, op)
    ensures op.Write? ==> Console.Apply(c, op).pos == c.pos
    ensures op.Read? ==> Console.Apply(c, op).pos == 0
  {
  }

  /** The console of the current terminal. */
  ghost function Here(ts: Terminals.TerminalSet): Console.State
    requires ts.desk.Ok()
    reads ts
  {
    ts.desk.consoles[ts.desk.cur - 1]
  }

  /** fdputs to descriptor 1. */
  method Puts(k: Kernel.Kernel, ts: Terminals.TerminalSet, text: seq<Byte>) returns (ghost es: seq<Together.Event>)
    requires Together.Valid(k, ts)
    modifies ts, ts.Repr()
    ensures Together.Valid(k, ts) && ts.live.enterPressed == old(ts.live.enterPressed)
    ensures Leads(k.img, old(Together.Abstract(k, ts)), es, [Console.Write(text)], 0, Together.Abstract(k, ts))
    ensures Here(ts).pos == old(Here(ts).pos)
  {
    hide Kernel.Kernel.Valid, Kernel.Kernel.ImageOk, Terminals.TerminalSet.Valid, WellFormed, Together.Steps, Leads,
      Machine.Ok, Together.Linked, Console.State.Ok, Console.Apply, Console.Allowed;
    ghost var s := Together.Abstract(k, ts);
    var buf := new Byte[|text|](i requires 0 <= i < |text| => text[i]);
    assert buf[0..0 + |text|] == text;
    var n := Together.WriteOut(k, ts, buf, 0, |text|);
    LocalLeads(k.img, s, Console.Write(text), Together.Abstract(k, ts));
    LineAfter(s.desk.consoles[s.desk.cur - 1], Console.Write(text));
    es := [Together.Local(Console.Write(text))];
  }

  lemma {:induction false} AllowedNext(c: Console.State, ops: seq<Console.Op>, i: nat)
    requires c.Ok() && Console.AllAllowed(c, ops) && i < |ops|
    ensures Console.AllAllowed(c, ops[..i]) && Console.Allowed(Console.Run(c, ops[..i]), ops[i])
    decreases i
  {
    hide Console.Apply, Console.Allowed;
    if i > 0 {
      AllowedNext(Console.Apply(c, ops[0]), ops[1..], i - 1);
      assert ops[..i][1..] == ops[1..][..i - 1];
    }
  }

  lemma {:induction false} AllowedFront(c: Console.State, a: seq<Console.Op>, b: seq<Console.Op>)
    requires c.Ok() && Console.AllAllowed(c, a + b)
    ensures Console.AllAllowed(c, a) && Console.AllAllowed(Console.Run(c, a), b)
    decreases |a|
  {
    hide Console.Apply, Console.Allowed;
    if a == [] {
      assert a + b == b;
    } else {
      assert (a + b)[0] == a[0] && (a + b)[1..] == a[1..] + b;
      AllowedFront(Console.Apply(c, a[0]), a[1..], b);
    }
  }

  /** A key pressed while the shell waits. */
  method Press(k: Kernel.Kernel, ts: Terminals.TerminalSet, op: Console.Op)
    requires Together.Valid(k, ts) && (op.Key? || op.Erase? || op.EnterKey?) && Console.Allowed(Here(ts), op)
    modifies ts, ts.Repr()
    ensures Together.Valid(k, ts) && ts.live.enterPressed == (op.EnterKey? || old(ts.live.enterPressed))
    ensures Leads(k.img, old(Together.Abstract(k, ts)), [Together.Local(op)], [op], 0, Together.Abstract(k, ts))
    ensures Here(ts) == Console.Apply(old(Here(ts)), op)
  {
    hide Kernel.Kernel.Valid, Kernel.Kernel.ImageOk, Terminals.TerminalSet.Valid, WellFormed, Together.Steps, Leads,
      Machine.Ok, Together.Linked, Console.State.Ok, Console.Allowed, Console.Apply;
    ghost var s := Together.Abstract(k, ts);
    Together.KeyboardHandler(k, ts, op);
    LocalLeads(k.img, s, op, Together.Abstract(k, ts));
  }

  lemma {:induction false} ValidMeans(k: Kernel.Kernel, ts: Terminals.TerminalSet)
    requires Together.Valid(k, ts)
    ensures WellFormed(k.img) && Together.Ok(Together.Abstract(k, ts))
  {
    hide Kernel.Kernel.Valid, Terminals.TerminalSet.Valid, WellFormed, Machine.Ok;
  }

  /** What is typed while the shell waits. */
  method Type(k: Kernel.Kernel, ts: Terminals.TerminalSet, keys: seq<Console.Op>)
    returns (ghost es: seq<Together.Event>)
    requires Together.Valid(k, ts) && Console.Editing(keys) && Console.AllAllowed(Here(ts), keys)
    modifies ts, ts.Repr()
    ensures Together.Valid(k, ts) && ts.live.enterPressed == old(ts.live.enterPressed)
    ensures Leads(k.img, old(Together.Abstract(k, ts)), es, keys, 0, Together.Abstract(k, ts))
    ensures Here(ts) == Console.Run(old(Here(ts)), keys)
  {
    hide Kernel.Kernel.Valid, Kernel.Kernel.ImageOk, Terminals.TerminalSet.Valid, WellFormed, Leads,
      Machine.Ok, Together.Linked, Console.State.Ok, Console.Allowed, Console.Apply, Together.Valid;
    ghost var s := Together.Abstract(k, ts);
    es := [];
    ValidMeans(k, ts);
    LeadsNowhere(k.img, s);
    var i := 0;
    while i < |keys|
      invariant 0 <= i <= |keys| && Together.Valid(k, ts) && ts.live.enterPressed == old(ts.live.enterPressed)
      invariant Leads(k.img, s, es, keys[..i], 0, Together.Abstract(k, ts))
    {
      ghost var t := Together.Abstract(k, ts);
      AllowedNext(s.desk.consoles[s.desk.cur - 1], keys, i);
      HereIs(k.img, s, es, keys[..i], 0, t);
      Press(k, ts, keys[i]);
      LeadsOn(k.img, s, es, keys[..i], 0, t, [Together.Local(keys[i])], [keys[i]], 0, Together.Abstract(k, ts));
      es := es + [Together.Local(keys[i])];
      assert keys[..i + 1] == keys[..i] + [keys[i]];
      i := i + 1;
    }
    assert keys[..i] == keys;
    HereIs(k.img, s, es, keys, 0, Together.Abstract(k, ts));
  }

  lemma {:induction false} HereIs(img: Image, s: Together.State, es: seq<Together.Event>, ops: seq<Console.Op>,
                                  cost: nat, t: Together.State)
    requires Leads(img, s, es, ops, cost, t)
    ensures s.desk.Ok() && t.desk.Ok() && Console.AllAllowed(s.desk.consoles[s.desk.cur - 1], ops)
    ensures t.desk.cur == s.desk.cur
    ensures t.desk.consoles[t.desk.cur - 1] == Console.Run(s.desk.consoles[s.desk.cur - 1], ops)
  {
    hide Machine.Ok, Together.Reaches, Console.Apply, Console.Allowed, Console.State.Ok, Console.AllAllowed,
      Console.Run;
  }

  /** The line that a read finds after these keys and Enter. */
  lemma {:induction false} LineIs(c: Console.State, keys: seq<Console.Op>)
    requires c.Ok() && c.pos == 0 && Console.AllAllowed(c, keys + [Console.EnterKey, Console.Read(BUFSIZE - 1)])
    ensures Console.AllAllowed(c, keys) && Console.Allowed(Console.Run(c, keys), Console.EnterKey)
    ensures var t := Console.Apply(Console.Run(c, keys), Console.EnterKey);
            var line := Console.Line(t, BUFSIZE - 1);
            && line == Console.PushPopAll([], keys) && Lacks(line, NUL) && |line| < Kernel.COMMAND_SIZE
            && Console.Allowed(t, Console.Read(BUFSIZE - 1))
  {
    hide Console.Run, Console.PushPopAll;
    var rest := [Console.EnterKey, Console.Read(BUFSIZE - 1)];
    AllowedFront(c, keys, rest);
    Console.PendingIsPushPop(c, keys);
    assert c.Pending() == [];
    assert rest[1..][0] == Console.Read(BUFSIZE - 1);
  }

  /** What is in the buffer when the newline has been cut off and the terminator written. */
  lemma {:induction false} BufferHolds(bytes: seq<Byte>, line: seq<Byte>, cnt: nat)
    requires |line| < |bytes| && bytes[..|line|] == line && Lacks(line, NUL) && cnt == |Trimmed(line)|
    ensures cnt < |bytes| && CString(bytes[cnt := NUL]) == Trimmed(line)
  {
    var b := bytes[cnt := NUL];
    assert forall i :: 0 <= i < cnt ==> b[i] == bytes[..|line|][i];
    IndexOfIs(b, NUL, cnt);
    assert b[..cnt] == Trimmed(line);
  }

  /** The shell cuts a newline off and writes the terminator. */
  method CutLine(buf: array<Byte>, length: nat, ghost line: seq<Byte>) returns (command: seq<Byte>)
    requires length == |line| < Kernel.COMMAND_SIZE < buf.Length && buf[..length] == line && Lacks(line, NUL)
    modifies buf
    ensures command == Trimmed(line)
  {
    var cnt := length;
    if cnt > 0 && buf[cnt - 1] == NEWLINE {
      cnt := cnt - 1;
    }
    BufferHolds(buf[..], line, cnt);
    buf[cnt] := NUL;
    command := CString(buf[..]);
  }

  /** read, once Enter has been pressed. */
  method ReadInto(k: Kernel.Kernel, ts: Terminals.TerminalSet, buf: array<Byte>) returns (cnt: int)
    requires Together.Valid(k, ts) && buf !in ts.Repr() && buf !in k.Repr() && ts.live.enterPressed
    requires Console.Allowed(Here(ts), Console.Read(BUFSIZE - 1)) && buf.Length == BUFSIZE
    modifies ts, ts.Repr(), buf
    ensures Together.Valid(k, ts) && !ts.live.enterPressed && Here(ts).pos == 0
    ensures var line := old(Console.Line(Here(ts), BUFSIZE - 1)); cnt == |line| < BUFSIZE && buf[..cnt] == line
    ensures var read := Console.Read(BUFSIZE - 1);
            Leads(k.img, old(Together.Abstract(k, ts)), [Together.Local(read)], [read], 0, Together.Abstract(k, ts))
  {
    hide Kernel.Kernel.Valid, Kernel.Kernel.ImageOk, Terminals.TerminalSet.Valid, WellFormed, Leads, Together.Steps,
      Machine.Ok, Together.Linked, Console.Allowed, Console.Apply;
    ghost var s := Together.Abstract(k, ts);
    cnt := Together.ReadIn(k, ts, buf, 0, BUFSIZE - 1);
    LocalLeads(k.img, s, Console.Read(BUFSIZE - 1), Together.Abstract(k, ts));
    LineAfter(s.desk.consoles[s.desk.cur - 1], Console.Read(BUFSIZE - 1));
  }

  /** read, and what the shell makes of the line. */
  method TakeLine(k: Kernel.Kernel, ts: Terminals.TerminalSet) returns (command: seq<Byte>)
    requires Together.Valid(k, ts) && ts.live.enterPressed && Console.Allowed(Here(ts), Console.Read(BUFSIZE - 1))
    requires Lacks(Console.Line(Here(ts), BUFSIZE - 1), NUL)
    requires |Console.Line(Here(ts), BUFSIZE - 1)| < Kernel.COMMAND_SIZE
    modifies ts, ts.Repr()
    ensures Together.Valid(k, ts) && !ts.live.enterPressed && Here(ts).pos == 0
    ensures command == old(Trimmed(Console.Line(Here(ts), BUFSIZE - 1)))
    ensures var read := Console.Read(BUFSIZE - 1);
            Leads(k.img, old(Together.Abstract(k, ts)), [Together.Local(read)], [read], 0, Together.Abstract(k, ts))
  {
    hide Kernel.Kernel.Valid, Kernel.Kernel.ImageOk, Terminals.TerminalSet.Valid, WellFormed, Leads, Together.Steps,
      Machine.Ok, Together.Linked, Console.Allowed, Trimmed, Console.Apply;
    ghost var line := Console.Line(Here(ts), BUFSIZE - 1);
    var buf := new Byte[BUFSIZE];
    var cnt := ReadInto(k, ts, buf);
    if cnt == -1 {
      assert false;
    }
    command := CutLine(buf, cnt, line);
  }

  /** read of the keyboard, during which the user types. */
  method ReadLine(k: Kernel.Kernel, ts: Terminals.TerminalSet, keys: seq<Console.Op>)
    returns (command: seq<Byte>, ghost es: seq<Together.Event>)
    requires Together.Valid(k, ts) && Console.Editing(keys) && Here(ts).pos == 0 && !ts.live.enterPressed
    requires Console.AllAllowed(Here(ts), keys + [Console.EnterKey, Console.Read(BUFSIZE - 1)])
    modifies ts, ts.Repr()
    ensures Together.Valid(k, ts) && Here(ts).pos == 0 && !ts.live.enterPressed && command == Command(keys)
    ensures |command| < Kernel.COMMAND_SIZE
    ensures Leads(k.img, old(Together.Abstract(k, ts)), es, keys + [Console.EnterKey, Console.Read(BUFSIZE - 1)], 0,
                  Together.Abstract(k, ts))
  {
    hide Kernel.Kernel.Valid, Kernel.Kernel.ImageOk, Terminals.TerminalSet.Valid, WellFormed, Leads, Together.Steps,
      Machine.Ok, Together.Linked, Console.Allowed, Console.Apply, Together.Valid, Console.Line,
      Console.PushPopAll, Console.Run, Console.AllAllowed;
    ghost var s := Together.Abstract(k, ts);
    ValidMeans(k, ts);
    LineIs(Here(ts), keys);
    es := Type(k, ts, keys);
    ghost var t := Together.Abstract(k, ts);
    Press(k, ts, Console.EnterKey);
    ghost var u := Together.Abstract(k, ts);
    command := TakeLine(k, ts);
    ghost var enter, read := Console.EnterKey, Console.Read(BUFSIZE - 1);
    LeadsOn(k.img, s, es, keys, 0, t, [Together.Local(enter)], [enter], 0, u);
    LeadsOn(k.img, s, es + [Together.Local(enter)], keys + [enter], 0, u, [Together.Local(read)], [read], 0,
            Together.Abstract(k, ts));
    assert keys + [enter] + [read] == keys + [enter, read];
    es := es + [Together.Local(enter)] + [Together.Local(read)];
  }

  // ----- execute, as the shell calls it -----

  /** Do six processes live? */
  ghost predicate Full(m: Machine.State)
    requires Machine.Shape(m)
  {
    Machine.Total(m) >= MAX_PROCESSES
  }

  /** The cost of a call of execute: none unless a program is started. */
  ghost function Price(img: Image, full: bool, command: seq<Byte>, entry: nat): nat
    requires WellFormed(img)
  {
    if !Machine.Runnable(img, Machine.Word(command)) || full then 0 else entry
  }

  lemma {:induction false} WroteDid(d: Terminals.Desk, text: seq<Byte>, r: Terminals.Desk)
    requires Terminals.Wrote(d, text, r)
    ensures Did(d, [Console.Write(text)], r)
  {
    hide Console.Apply;
    var op := Console.Write(text);
    Console.RunFirst(d.consoles[d.cur - 1], op, []);
    assert [op] == [op] + [];
  }

  lemma {:induction false} DidNothing(d: Terminals.Desk)
    requires d.Ok()
    ensures Did(d, [], d)
  {
  }

  lemma {:induction false} RefusedLeads(img: Image, s: Together.State, command: seq<Byte>, entry: nat,
                                        program: Session.Program, o: Machine.Outcome, t: Together.State)
    requires Session.CanRun(img, program) && Together.Ok(s) && |command| < Kernel.COMMAND_SIZE
    requires !Machine.IsExit(Machine.Word(command)) && !Session.Starts(img, s.machine, command)
    requires Session.Refused(img, s.(machine := s.machine.(esp := s.machine.esp0 - entry)), command, o, t)
    requires Together.Reaches(img, s, Session.ExecuteEvents(command, entry), t)
    ensures var full := Full(s.machine);
            var (ops, result) := Executed(img, full, command, program);
            && o == Machine.Returned(result) && t.pressed == s.pressed
            && Leads(img, s, Session.ExecuteEvents(command, entry), ops, Price(img, full, command, entry), t)
  {
    hide Machine.Disjoint, Machine.Live, Machine.Total, Machine.Runnable, Machine.IsExit, Machine.Word, WellFormed,
      Together.Linked, Together.Reaches, Did, Terminals.Wrote, Session.Output, Console.Apply;
    if Machine.Runnable(img, Machine.Word(command)) {
      WroteDid(s.desk, Together.FULL, t.desk);
    } else {
      DidNothing(s.desk);
    }
  }

  lemma {:induction false} StartedLeads(img: Image, s: Together.State, command: seq<Byte>, entry: nat,
                                        program: Session.Program, es: seq<Together.Event>, t: Together.State)
    requires Session.CanRun(img, program) && Session.Starts(img, s.machine, command)
    requires Together.Reaches(img, s, es, t) && t.machine == StackUse.Lowered(s.machine, entry)
    requires Terminals.Wrote(s.desk, Session.Output(img, program, Machine.ArgText(command)).0, t.desk)
    ensures Machine.Shape(s.machine)
    ensures var full := Full(s.machine);
            var (ops, result) := Executed(img, full, command, program);
            && result == Session.Output(img, program, Machine.ArgText(command)).1
            && Leads(img, s, es, ops, Price(img, full, command, entry), t)
  {
    hide Machine.Disjoint, Machine.Live, Machine.Total, Machine.Runnable, Machine.IsExit, Machine.Word, WellFormed,
      Together.Linked, Together.Reaches, Did, Terminals.Wrote, Session.Output, Console.Apply;
    WroteDid(s.desk, Session.Output(img, program, Machine.ArgText(command)).0, t.desk);
  }

  /** execute, with all that the started program does. */
  method Execute(k: Kernel.Kernel, ts: Terminals.TerminalSet, command: seq<Byte>, entry: nat, used: nat,
                 program: Session.Program)
    returns (result: int, ghost es: seq<Together.Event>)
    requires Together.Valid(k, ts) && |command| < Kernel.COMMAND_SIZE && !Machine.IsExit(Machine.Word(command))
    requires Session.CanRun(k.img, program) && used <= StackUse.STACK_SIZE
    requires entry <= StackUse.Room(k.machine, Session.TopPid(k.machine))
    modifies k.Repr(), ts, ts.Repr()
    ensures Together.Valid(k, ts) && ts.live.enterPressed == old(ts.live.enterPressed)
    ensures var s := old(Together.Abstract(k, ts));
      var (ops, r) := Executed(k.img, Full(s.machine), command, program);
      result == r && Leads(k.img, s, es, ops, Price(k.img, Full(s.machine), command, entry), Together.Abstract(k, ts))
  {
    hide Kernel.Agree, Kernel.Kernel.Valid, Kernel.Kernel.ImageOk, Together.Reaches, Together.Valid, Terminals.Wrote,
      Session.CanRun, Session.Output, Machine.Ok, Terminals.TerminalSet.Valid, WellFormed, Session.Starts,
      Machine.ArgText, Machine.Launched, StackUse.Lowered, StackUse.Room, Session.ExecuteEvents, Session.ChildEvents,
      Session.Refused, Machine.IsExit, Machine.Word, Executed, Leads, Price, Machine.Total;
    ghost var s := Together.Abstract(k, ts);
    ValidMeans(k, ts);
    var o := Session.CallExecute(k, ts, command, entry);
    ghost var t, a := Together.Abstract(k, ts), Session.ExecuteEvents(command, entry);
    if o.Started? {
      ghost var (text, code) := Session.Output(k.img, program, Machine.ArgText(command));
      var files;
      assert Session.Starts(k.img, s.machine, command) by { RefusedIsReturned(k.img, s, command, entry, o, t); }
      o, files := Session.RunChild(k, ts, used, program, s, command, entry);
      result := o.status;
      ghost var b := Session.ChildEvents(used, text, files, code);
      Together.ReachesOn(k.img, s, a, t, b, Together.Abstract(k, ts));
      es := a + b;
      StartedLeads(k.img, s, command, entry, program, es, Together.Abstract(k, ts));
    } else {
      RefusedLeads(k.img, s, command, entry, program, o, t);
      result := o.code;
      es := a;
    }
  }

  lemma {:induction false} RefusedIsReturned(img: Image, s: Together.State, command: seq<Byte>, entry: nat,
                                             o: Machine.Outcome, t: Together.State)
    requires WellFormed(img)
    ensures var s0 := s.(machine := s.machine.(esp := s.machine.esp0 - entry));
            Session.Refused(img, s0, command, o, t) ==> o.Returned?
  {
  }

  // ----- the loop -----

  predicate Writes(ops: seq<Console.Op>) {
    forall i :: 0 <= i < |ops| ==> ops[i].Write?
  }

  lemma {:induction false} WritesKeepLine(d: Terminals.Desk, ops: seq<Console.Op>, r: Terminals.Desk)
    requires Did(d, ops, r) && Writes(ops)
    ensures r.Ok() && r.consoles[r.cur - 1].pos == d.consoles[d.cur - 1].pos
  {
    RunKeepsPos(d.consoles[d.cur - 1], ops);
  }

  lemma {:induction false} RunKeepsPos(c: Console.State, ops: seq<Console.Op>)
    requires c.Ok() && Console.AllAllowed(c, ops) && Writes(ops)
    ensures Console.Run(c, ops).pos == c.pos
    decreases |ops|
  {
    if ops != [] {
      RunKeepsPos(Console.Apply(c, ops[0]), ops[1..]);
    }
  }

  lemma {:induction false} ExecutedWrites(img: Image, full: bool, command: seq<Byte>, program: Session.Program)
    requires Session.CanRun(img, program)
    ensures Writes(Executed(img, full, command, program).0)
  {
    hide Session.Output, Session.CanRun, WellFormed;
  }

  /** The shell's words on the result of execute. */
  method Say(k: Kernel.Kernel, ts: Terminals.TerminalSet, result: int) returns (ghost es: seq<Together.Event>)
    requires Together.Valid(k, ts)
    modifies ts, ts.Repr()
    ensures Together.Valid(k, ts) && ts.live.enterPressed == old(ts.live.enterPressed)
    ensures Leads(k.img, old(Together.Abstract(k, ts)), es, Comment(result), 0, Together.Abstract(k, ts))
    ensures Here(ts).pos == old(Here(ts).pos)
  {
    hide Together.Valid, Leads, Together.Ok;
    if result == -1 {
      es := Puts(k, ts, NO_SUCH);
    } else if result == 256 {
      es := Puts(k, ts, BY_EXCEPTION);
    } else if result != 0 {
      es := Puts(k, ts, ABNORMALLY);
    } else {
      ValidMeans(k, ts);
      LeadsNowhere(k.img, Together.Abstract(k, ts));
      es := [];
    }
  }

  /** What does not change when the kernel stack comes down. */
  lemma {:induction false} BelowKeeps(m: Machine.State, cost: nat, r: Machine.State)
    requires Machine.Ok(m) && StackUse.Below(m, cost, r)
    ensures Machine.Shape(r) && Machine.Current(r) != []
    ensures Machine.Total(r) == Machine.Total(m) && Session.TopPid(r) == Session.TopPid(m)
    ensures StackUse.Room(r, Session.TopPid(r)) == StackUse.Room(m, Session.TopPid(m)) - cost
  {
    hide Machine.Disjoint;
  }

  /** The prompt and the line. */
  method Ask(k: Kernel.Kernel, ts: Terminals.TerminalSet, keys: seq<Console.Op>)
    returns (command: seq<Byte>, ghost es: seq<Together.Event>)
    requires Together.Valid(k, ts) && Console.Editing(keys) && Here(ts).pos == 0 && !ts.live.enterPressed
    requires Console.AllAllowed(Here(ts), AskOps(keys))
    modifies ts, ts.Repr()
    ensures Together.Valid(k, ts) && Here(ts).pos == 0 && !ts.live.enterPressed && command == Command(keys)
    ensures |command| < Kernel.COMMAND_SIZE
    ensures Leads(k.img, old(Together.Abstract(k, ts)), es, AskOps(keys), 0, Together.Abstract(k, ts))
  {
    hide Together.Valid, Leads, Together.Ok, Console.AllAllowed, Console.Run, Console.Apply, Command;
    ghost var s := Together.Abstract(k, ts);
    ghost var prompt, rest := [Console.Write(Screen.PROMPT)], keys + [Console.EnterKey, Console.Read(BUFSIZE - 1)];
    assert AskOps(keys) == prompt + rest;
    DeskIsOk(k, ts);
    AllowedFront(Here(ts), prompt, rest);
    es := Puts(k, ts, Screen.PROMPT);
    ghost var t := Together.Abstract(k, ts);
    HereIs(k.img, s, es, prompt, 0, t);
    ghost var fs;
    command, fs := ReadLine(k, ts, keys);
    LeadsOn(k.img, s, es, prompt, 0, t, fs, rest, 0, Together.Abstract(k, ts));
    es := es + fs;
  }

  lemma {:induction false} DeskIsOk(k: Kernel.Kernel, ts: Terminals.TerminalSet)
    requires Together.Valid(k, ts)
    ensures ts.desk.Ok() && Here(ts).Ok() && Machine.Ok(k.machine) && WellFormed(k.img)
  {
    ValidMeans(k, ts);
  }

  /** There is room on the kernel stack for what a round does at the kernel. */
  lemma {:induction false} TurnFits(img: Image, full: bool, turn: Turn, room: int)
    requires Session.CanRun(img, turn.program)
    ensures var ds, command := TurnDeeds(img, full, turn), Command(turn.keys);
            && StackUse.TotalCost(ds) == (if command == [] then 0 else Price(img, full, command, turn.entry))
            && (StackUse.Within(ds, room) && command != [] ==> turn.entry <= room)
  {
    hide Session.CanRun, Session.Output, Machine.Runnable, Machine.Word, Command;
    var ds := TurnDeeds(img, full, turn);
    if ds != [] {
      assert ds[1..] == [];
    }
  }

  /** A command has been obeyed. */
  ghost predicate Obeyed(img: Image, s: Together.State, command: seq<Byte>, turn: Turn, es: seq<Together.Event>,
                         t: Together.State)
    requires Session.CanRun(img, turn.program) && Machine.Shape(s.machine) && command != []
  {
    Leads(img, s, es, Reply(img, Full(s.machine), command, turn.program),
          Price(img, Full(s.machine), command, turn.entry), t)
  }

  /** What execute and the words on its result make together. */
  lemma {:induction false} ObeyedIs(img: Image, s: Together.State, command: seq<Byte>, turn: Turn,
                                    es: seq<Together.Event>, t: Together.State, fs: seq<Together.Event>,
                                    u: Together.State)
    requires Session.CanRun(img, turn.program) && Machine.Shape(s.machine) && command != []
    requires var (ops, result) := Executed(img, Full(s.machine), command, turn.program);
             && Leads(img, s, es, ops, Price(img, Full(s.machine), command, turn.entry), t)
             && Leads(img, t, fs, Comment(result), 0, u)
    ensures Obeyed(img, s, command, turn, es + fs, u)
  {
    hide Leads, Executed, Comment, Price, Full, WellFormed;
    var (ops, result) := Executed(img, Full(s.machine), command, turn.program);
    LeadsOn(img, s, es, ops, Price(img, Full(s.machine), command, turn.entry), t, fs, Comment(result), 0, u);
  }

  /** One round of the loop, with a command. */
  method Obey(k: Kernel.Kernel, ts: Terminals.TerminalSet, command: seq<Byte>, turn: Turn)
    returns (ghost es: seq<Together.Event>)
    requires Together.Valid(k, ts) && TurnOk(k.img, turn) && command == Command(turn.keys) != []
    requires |command| < Kernel.COMMAND_SIZE && turn.entry <= StackUse.Room(k.machine, Session.TopPid(k.machine))
    requires Here(ts).pos == 0
    modifies k.Repr(), ts, ts.Repr()
    ensures Together.Valid(k, ts) && ts.live.enterPressed == old(ts.live.enterPressed) && Here(ts).pos == 0
    ensures Obeyed(k.img, old(Together.Abstract(k, ts)), command, turn, es, Together.Abstract(k, ts))
  {
    hide Together.Valid, Leads, Together.Ok, Console.AllAllowed, Console.Run, Console.Apply, Command, Executed, Price,
      Session.CanRun, StackUse.Room, Machine.Total, Machine.IsExit, Machine.Word, Did, Comment, Full, Obeyed, Reply,
      WellFormed, Machine.Disjoint, Writes;
    DeskIsOk(k, ts);
    ghost var s := Together.Abstract(k, ts);
    var result;
    result, es := Execute(k, ts, command, turn.entry, turn.used, turn.program);
    ghost var t := Together.Abstract(k, ts);
    ExecutedWrites(k.img, Full(s.machine), command, turn.program);
    LeadsKeepLine(k.img, s, es, Executed(k.img, Full(s.machine), command, turn.program).0,
                  Price(k.img, Full(s.machine), command, turn.entry), t);
    ghost var fs := Say(k, ts, result);
    ObeyedIs(k.img, s, command, turn, es, t, fs, Together.Abstract(k, ts));
    es := es + fs;
  }

  lemma {:induction false} LeadsKeepLine(img: Image, s: Together.State, es: seq<Together.Event>,
                                         ops: seq<Console.Op>, cost: nat, t: Together.State)
    requires Leads(img, s, es, ops, cost, t) && Writes(ops)
    ensures s.desk.Ok() && t.desk.Ok()
    ensures t.desk.consoles[t.desk.cur - 1].pos == s.desk.consoles[s.desk.cur - 1].pos
  {
    hide Together.Reaches;
    WritesKeepLine(s.desk, ops, t.desk);
  }

  /** A round has been done. */
  ghost predicate Done(img: Image, s: Together.State, turn: Turn, es: seq<Together.Event>, t: Together.State)
    requires Session.CanRun(img, turn.program) && Machine.Shape(s.machine)
  {
    Leads(img, s, es, TurnOps(img, Full(s.machine), turn),
          StackUse.TotalCost(TurnDeeds(img, Full(s.machine), turn)), t)
  }

  lemma {:induction false} DoneEmpty(img: Image, s: Together.State, turn: Turn, es: seq<Together.Event>,
                                     t: Together.State)
    requires Session.CanRun(img, turn.program) && Machine.Shape(s.machine) && Command(turn.keys) == []
    requires Leads(img, s, es, AskOps(turn.keys), 0, t)
    ensures Done(img, s, turn, es, t)
  {
    hide Leads, Command, AskOps, Session.CanRun, WellFormed, Full;
    TurnFits(img, Full(s.machine), turn, 0);
    assert AskOps(turn.keys) + [] == AskOps(turn.keys);
  }

  lemma {:induction false} DoneIs(img: Image, s: Together.State, turn: Turn, es: seq<Together.Event>,
                                  t: Together.State, fs: seq<Together.Event>, u: Together.State)
    requires Session.CanRun(img, turn.program) && Machine.Shape(s.machine) && Command(turn.keys) != []
    requires Leads(img, s, es, AskOps(turn.keys), 0, t) && Machine.Shape(t.machine)
    requires Full(t.machine) == Full(s.machine) && Obeyed(img, t, Command(turn.keys), turn, fs, u)
    ensures Done(img, s, turn, es + fs, u)
  {
    hide Leads, Command, AskOps, WellFormed, Full, Reply, Price, TurnDeeds;
    var full := Full(s.machine);
    TurnFits(img, full, turn, 0);
    LeadsOn(img, s, es, AskOps(turn.keys), 0, t, fs, Reply(img, full, Command(turn.keys), turn.program),
            Price(img, full, Command(turn.keys), turn.entry), u);
  }

  /** What a round finds: its operations are allowed, and its entries fit. */
  ghost predicate Ready(img: Image, s: Together.State, turn: Turn)
    requires Session.CanRun(img, turn.program) && Together.Ok(s)
  {
    && s.desk.consoles[s.desk.cur - 1].pos == 0 && !s.pressed
    && Console.AllAllowed(s.desk.consoles[s.desk.cur - 1], TurnOps(img, Full(s.machine), turn))
    && StackUse.Within(TurnDeeds(img, Full(s.machine), turn), StackUse.Room(s.machine, Session.TopPid(s.machine)))
  }

  lemma {:induction false} ReadyMeans(img: Image, s: Together.State, turn: Turn)
    requires Session.CanRun(img, turn.program) && Together.Ok(s) && Ready(img, s, turn)
    ensures Console.AllAllowed(s.desk.consoles[s.desk.cur - 1], AskOps(turn.keys))
    ensures Command(turn.keys) != [] ==> turn.entry <= StackUse.Room(s.machine, Session.TopPid(s.machine))
  {
    hide Session.CanRun, Machine.Disjoint, Together.Linked, StackUse.Within, TurnDeeds, AskOps, Command, Reply, Full,
      StackUse.Room, Console.Run, Console.AllAllowed;
    AllowedFront(s.desk.consoles[s.desk.cur - 1], AskOps(turn.keys),
                 Reply(img, Full(s.machine), Command(turn.keys), turn.program));
    TurnFits(img, Full(s.machine), turn, StackUse.Room(s.machine, Session.TopPid(s.machine)));
  }

  /** One round of the loop. */
  method Round(k: Kernel.Kernel, ts: Terminals.TerminalSet, turn: Turn) returns (ghost es: seq<Together.Event>)
    requires Together.Valid(k, ts) && TurnOk(k.img, turn) && Ready(k.img, Together.Abstract(k, ts), turn)
    modifies k.Repr(), ts, ts.Repr()
    ensures Together.Valid(k, ts) && Here(ts).pos == 0 && !ts.live.enterPressed
    ensures Done(k.img, old(Together.Abstract(k, ts)), turn, es, Together.Abstract(k, ts))
  {
    hide Together.Valid, Leads, Together.Ok, Console.AllAllowed, Console.Run, Console.Apply, Command, Obeyed, Done,
      Session.CanRun, StackUse.Room, StackUse.Within, TurnDeeds, TurnOps, Machine.Total, Machine.IsExit, Machine.Word,
      Full, AskOps, StackUse.Below, WellFormed;
    ghost var s := Together.Abstract(k, ts);
    ValidMeans(k, ts);
    DeskIsOk(k, ts);
    ReadyMeans(k.img, s, turn);
    var command;
    command, es := Ask(k, ts, turn.keys);
    ghost var t := Together.Abstract(k, ts);
    if command == [] {
      DoneEmpty(k.img, s, turn, es, t);
    } else {
      AskedKeeps(k.img, s, es, AskOps(turn.keys), t);
      ghost var fs := Obey(k, ts, command, turn);
      DoneIs(k.img, s, turn, es, t, fs, Together.Abstract(k, ts));
      es := es + fs;
    }
  }

  lemma {:induction false} AskedKeeps(img: Image, s: Together.State, es: seq<Together.Event>, ops: seq<Console.Op>,
                                      t: Together.State)
    requires Leads(img, s, es, ops, 0, t)
    ensures Machine.Ok(s.machine) && Machine.Shape(t.machine) && Machine.Current(t.machine) != []
    ensures Full(t.machine) == Full(s.machine)
    ensures StackUse.Room(t.machine, Session.TopPid(t.machine)) == StackUse.Room(s.machine, Session.TopPid(s.machine))
  {
    hide StackUse.Room;
    LeadsBelow(img, s, es, ops, 0, t);
    BelowKeeps(s.machine, 0, t.machine);
  }

  lemma {:induction false} LeadsBelow(img: Image, s: Together.State, es: seq<Together.Event>, ops: seq<Console.Op>,
                                      cost: nat, t: Together.State)
    requires Leads(img, s, es, ops, cost, t)
    ensures Machine.Ok(s.machine) && StackUse.Below(s.machine, cost, t.machine)
  {
    hide Together.Step, Machine.Disjoint;
  }

  // ----- the whole dialogue -----

  lemma {:induction false} CostsOf(a: seq<StackUse.Deed>, b: seq<StackUse.Deed>, room: int)
    ensures StackUse.TotalCost(a + b) == StackUse.TotalCost(a) + StackUse.TotalCost(b)
    ensures StackUse.Within(a + b, room)
            <==> StackUse.Within(a, room) && StackUse.Within(b, room - StackUse.TotalCost(a))
    decreases |a|
  {
    if a == [] {
      assert a + b == b;
    } else {
      assert (a + b)[0] == a[0] && (a + b)[1..] == a[1..] + b;
      CostsOf(a[1..], b, room - StackUse.Cost(a[0]));
    }
  }

  /** What the shell finds before these rounds. */
  ghost predicate AllReady(img: Image, s: Together.State, turns: seq<Turn>)
    requires TurnsOk(img, turns) && Together.Ok(s)
  {
    && s.desk.consoles[s.desk.cur - 1].pos == 0 && !s.pressed
    && Console.AllAllowed(s.desk.consoles[s.desk.cur - 1], DialogueOps(img, Full(s.machine), turns))
    && StackUse.Within(DialogueDeeds(img, Full(s.machine), turns),
                       StackUse.Room(s.machine, Session.TopPid(s.machine)))
  }

  /** And what there is after them. */
  ghost predicate AllDone(img: Image, s: Together.State, turns: seq<Turn>, es: seq<Together.Event>, t: Together.State)
    requires TurnsOk(img, turns) && Machine.Shape(s.machine)
  {
    Leads(img, s, es, DialogueOps(img, Full(s.machine), turns),
          StackUse.TotalCost(DialogueDeeds(img, Full(s.machine), turns)), t)
  }

  lemma {:induction false} FirstReady(img: Image, s: Together.State, turns: seq<Turn>)
    requires TurnsOk(img, turns) && Together.Ok(s) && turns != [] && AllReady(img, s, turns)
    ensures TurnOk(img, turns[0]) && Ready(img, s, turns[0])
  {
    hide Machine.Disjoint, Together.Linked, TurnOps, TurnDeeds, Full, StackUse.Room, Console.Run, Console.Apply,
      Console.Allowed, Session.CanRun, Machine.IsExit;
    var full := Full(s.machine);
    assert TurnOk(img, turns[0]);
    var rest := turns[1..];
    AllowedFront(s.desk.consoles[s.desk.cur - 1], TurnOps(img, full, turns[0]), DialogueOps(img, full, rest));
    CostsOf(TurnDeeds(img, full, turns[0]), DialogueDeeds(img, full, rest),
            StackUse.Room(s.machine, Session.TopPid(s.machine)));
  }

  /** What a round has left. */
  lemma {:induction false} DoneMeans(img: Image, s: Together.State, turn: Turn, es: seq<Together.Event>,
                                     t: Together.State)
    requires Session.CanRun(img, turn.program) && Together.Ok(s) && Done(img, s, turn, es, t) && Together.Ok(t)
    ensures Full(t.machine) == Full(s.machine)
    ensures StackUse.Room(t.machine, Session.TopPid(t.machine))
         == StackUse.Room(s.machine, Session.TopPid(s.machine))
            - StackUse.TotalCost(TurnDeeds(img, Full(s.machine), turn))
    ensures var c, ops := s.desk.consoles[s.desk.cur - 1], TurnOps(img, Full(s.machine), turn);
            Console.AllAllowed(c, ops) && t.desk.consoles[t.desk.cur - 1] == Console.Run(c, ops)
  {
    hide Machine.Disjoint, Together.Linked, TurnOps, TurnDeeds, StackUse.Room, Console.Run, Console.AllAllowed,
      Session.CanRun, Leads, Machine.Total, StackUse.TotalCost;
    var ops, cost := TurnOps(img, Full(s.machine), turn), StackUse.TotalCost(TurnDeeds(img, Full(s.machine), turn));
    LeadsBelow(img, s, es, ops, cost, t);
    BelowKeeps(s.machine, cost, t.machine);
    HereIs(img, s, es, ops, cost, t);
  }

  /** After the first round the shell is ready for the others. */
  lemma {:induction false} RestReady(img: Image, s: Together.State, turns: seq<Turn>, es: seq<Together.Event>,
                                     t: Together.State)
    requires TurnsOk(img, turns) && Together.Ok(s) && turns != [] && AllReady(img, s, turns)
    requires TurnOk(img, turns[0]) && Done(img, s, turns[0], es, t) && Together.Ok(t)
    requires t.desk.consoles[t.desk.cur - 1].pos == 0 && !t.pressed
    ensures TurnsOk(img, turns[1..]) && AllReady(img, t, turns[1..]) && Full(t.machine) == Full(s.machine)
  {
    hide Machine.Ok, Together.Linked, TurnOps, TurnDeeds, StackUse.Room, Console.Run, Console.AllAllowed, Done,
      Session.CanRun, Machine.IsExit, Full, StackUse.Within, StackUse.TotalCost, Session.TopPid;
    TopIsThere(s);
    TopIsThere(t);
    DoneMeans(img, s, turns[0], es, t);
    var full, rest := Full(s.machine), turns[1..];
    AllowedFront(s.desk.consoles[s.desk.cur - 1], TurnOps(img, full, turns[0]), DialogueOps(img, full, rest));
    CostsOf(TurnDeeds(img, full, turns[0]), DialogueDeeds(img, full, rest),
            StackUse.Room(s.machine, Session.TopPid(s.machine)));
  }

  lemma {:induction false} TopIsThere(s: Together.State)
    requires Together.Ok(s)
    ensures Machine.Shape(s.machine) && Machine.Current(s.machine) != []
  {
  }

  lemma {:induction false} DialogueAppend(img: Image, full: bool, turns: seq<Turn>, turn: Turn)
    requires TurnsOk(img, turns) && TurnOk(img, turn)
    ensures TurnsOk(img, turns + [turn])
    ensures DialogueOps(img, full, turns + [turn]) == DialogueOps(img, full, turns) + TurnOps(img, full, turn)
    ensures DialogueDeeds(img, full, turns + [turn]) == DialogueDeeds(img, full, turns) + TurnDeeds(img, full, turn)
    decreases |turns|
  {
    hide TurnOps, TurnDeeds, Session.CanRun, Machine.IsExit;
    var all := turns + [turn];
    assert TurnsOk(img, all);
    if turns == [] {
      assert all[1..] == [];
      assert DialogueOps(img, full, all[1..]) == [] && DialogueDeeds(img, full, all[1..]) == [];
    } else {
      assert all[0] == turns[0] && all[1..] == turns[1..] + [turn];
      DialogueAppend(img, full, turns[1..], turn);
    }
  }

  lemma {:induction false} AllDoneIs(img: Image, s: Together.State, turns: seq<Turn>, es: seq<Together.Event>,
                                     t: Together.State, turn: Turn, fs: seq<Together.Event>, u: Together.State)
    requires TurnsOk(img, turns) && TurnOk(img, turn) && Machine.Shape(s.machine) && Machine.Shape(t.machine)
    requires Full(t.machine) == Full(s.machine) && AllDone(img, s, turns, es, t) && Done(img, t, turn, fs, u)
    ensures TurnsOk(img, turns + [turn]) && AllDone(img, s, turns + [turn], es + fs, u)
  {
    hide Leads, TurnOps, TurnDeeds, DialogueOps, DialogueDeeds, Session.CanRun, Machine.IsExit, Full;
    var full := Full(s.machine);
    var a, b := DialogueDeeds(img, full, turns), TurnDeeds(img, full, turn);
    DialogueAppend(img, full, turns, turn);
    LeadsOn(img, s, es, DialogueOps(img, full, turns), StackUse.TotalCost(a), t, fs,
            TurnOps(img, full, turn), StackUse.TotalCost(b), u);
    CostsOf(a, b, 0);
  }

  lemma {:induction false} NothingDone(img: Image, s: Together.State)
    requires WellFormed(img) && Together.Ok(s)
    ensures TurnsOk(img, []) && AllDone(img, s, [], [], s)
  {
    hide Leads, Machine.Disjoint, Together.Linked, Full;
    LeadsNowhere(img, s);
  }

  /** The loop of main: a round for each line that is typed. */
  method Rounds(k: Kernel.Kernel, ts: Terminals.TerminalSet, turns: seq<Turn>)
    returns (ghost es: seq<Together.Event>)
    requires Together.Valid(k, ts) && TurnsOk(k.img, turns) && AllReady(k.img, Together.Abstract(k, ts), turns)
    modifies k.Repr(), ts, ts.Repr()
    ensures Together.Valid(k, ts) && Here(ts).pos == 0 && !ts.live.enterPressed
    ensures AllDone(k.img, old(Together.Abstract(k, ts)), turns, es, Together.Abstract(k, ts))
  {
    hide Together.Valid, Together.Ok, AllDone, AllReady, Done, Ready, TurnOk, Full, WellFormed;
    ghost var s := Together.Abstract(k, ts);
    ValidMeans(k, ts);
    NothingDone(k.img, s);
    es := [];
    var i := 0;
    ReadyLine(k.img, s, turns);
    assert turns[i..] == turns && turns[..i] == [];
    TopIsThere(s);
    while i < |turns|
      invariant 0 <= i <= |turns| && Together.Valid(k, ts) && Together.Ok(Together.Abstract(k, ts))
      invariant ts.desk.Ok() && Here(ts).pos == 0 && !ts.live.enterPressed
      invariant TurnsOk(k.img, turns[..i]) && TurnsOk(k.img, turns[i..]) && Machine.Shape(k.machine)
      invariant AllReady(k.img, Together.Abstract(k, ts), turns[i..]) && Full(k.machine) == Full(s.machine)
      invariant AllDone(k.img, s, turns[..i], es, Together.Abstract(k, ts))
    {
      ghost var t := Together.Abstract(k, ts);
      FirstReady(k.img, t, turns[i..]);
      ghost var fs := Round(k, ts, turns[i]);
      ghost var u := Together.Abstract(k, ts);
      ValidMeans(k, ts);
      DeskIsOk(k, ts);
      TopIsThere(u);
      RestReady(k.img, t, turns[i..], fs, u);
      AllDoneIs(k.img, s, turns[..i], es, t, turns[i], fs, u);
      es := es + fs;
      assert turns[i..][1..] == turns[i + 1..] && turns[..i] + [turns[i]] == turns[..i + 1];
      i := i + 1;
    }
    assert turns[..i] == turns;
  }

  lemma {:induction false} ReadyLine(img: Image, s: Together.State, turns: seq<Turn>)
    requires TurnsOk(img, turns) && Together.Ok(s) && AllReady(img, s, turns)
    ensures s.desk.Ok() && s.desk.consoles[s.desk.cur - 1].pos == 0 && !s.pressed
  {
  }

  // ----- from start-up on -----

  /** main of the shell that start-up launches: its first words, then a round for each line. */
  method ShellMain(k: Kernel.Kernel, ts: Terminals.TerminalSet, turns: seq<Turn>)
    returns (ghost es: seq<Together.Event>)
    requires Together.Valid(k, ts) && TurnsOk(k.img, turns)
    requires Greeted(k.img, Together.Abstract(k, ts), turns)
    modifies k.Repr(), ts, ts.Repr()
    ensures Together.Valid(k, ts) && Here(ts).pos == 0 && !ts.live.enterPressed
    ensures var s := old(Together.Abstract(k, ts));
      Leads(k.img, s, es, SessionOps(k.img, Full(s.machine), turns),
            StackUse.TotalCost(DialogueDeeds(k.img, Full(s.machine), turns)), Together.Abstract(k, ts))
  {
    hide Together.Valid, Together.Ok, Leads, AllReady, Full, WellFormed, DialogueOps, DialogueDeeds, Console.Run,
      Console.Apply, Console.AllAllowed, StackUse.TotalCost, TurnsOk, Greeted;
    ghost var s := Together.Abstract(k, ts);
    ValidMeans(k, ts);
    TopIsThere(s);
    GreetedLine(k.img, s, turns);
    es := Puts(k, ts, STARTING);
    ghost var t := Together.Abstract(k, ts);
    ValidMeans(k, ts);
    GreetedReady(k.img, s, turns, es, t);
    ghost var fs := Rounds(k, ts, turns);
    LeadsOn(k.img, s, es, [Console.Write(STARTING)], 0, t, fs, DialogueOps(k.img, Full(s.machine), turns),
            StackUse.TotalCost(DialogueDeeds(k.img, Full(s.machine), turns)), Together.Abstract(k, ts));
    es := es + fs;
  }

  /** All that the shell's terminal sees. */
  ghost function SessionOps(img: Image, full: bool, turns: seq<Turn>): seq<Console.Op>
    requires TurnsOk(img, turns)
  {
    [Console.Write(STARTING)] + DialogueOps(img, full, turns)
  }

  /** Nothing is typed yet, the whole session is allowed, and its entries fit. */
  ghost predicate Greeted(img: Image, s: Together.State, turns: seq<Turn>)
    requires TurnsOk(img, turns)
  {
    && Together.Ok(s) && s.desk.consoles[s.desk.cur - 1].pos == 0 && !s.pressed
    && Console.AllAllowed(s.desk.consoles[s.desk.cur - 1], SessionOps(img, Full(s.machine), turns))
    && StackUse.Within(DialogueDeeds(img, Full(s.machine), turns),
                       StackUse.Room(s.machine, Session.TopPid(s.machine)))
  }

  lemma {:induction false} GreetedLine(img: Image, s: Together.State, turns: seq<Turn>)
    requires TurnsOk(img, turns) && Greeted(img, s, turns)
    ensures s.desk.Ok() && s.desk.consoles[s.desk.cur - 1].pos == 0 && !s.pressed
  {
    hide Machine.Ok, Together.Linked, DialogueOps, DialogueDeeds;
  }

  lemma {:induction false} GreetedReady(img: Image, s: Together.State, turns: seq<Turn>, es: seq<Together.Event>,
                                        t: Together.State)
    requires TurnsOk(img, turns) && Greeted(img, s, turns) && Together.Ok(t)
    requires Leads(img, s, es, [Console.Write(STARTING)], 0, t) && !t.pressed
    requires t.desk.consoles[t.desk.cur - 1].pos == 0
    ensures AllReady(img, t, turns) && Full(t.machine) == Full(s.machine)
  {
    hide Machine.Disjoint, Together.Linked, DialogueOps, DialogueDeeds, StackUse.Room, Console.Run, Console.Apply,
      Console.Allowed, TurnsOk, Leads, Machine.Total, StackUse.Within;
    var hello := [Console.Write(STARTING)];
    AskedKeeps(img, s, es, hello, t);
    HereIs(img, s, es, hello, 0, t);
    AllowedFront(s.desk.consoles[s.desk.cur - 1], hello, DialogueOps(img, Full(s.machine), turns));
  }

  lemma {:induction false} BootedIsGreeted(img: Image, texts: Terminals.Texts, turns: seq<Turn>)
    requires WellFormed(img) && TurnsOk(img, turns)
    ensures Machine.Ok(Together.Booted(texts).machine) && !Full(Together.Booted(texts).machine)
    ensures Together.Ok(Together.Booted(texts))
    ensures var s := Together.Booted(texts);
            Greeted(img, s, turns) <==>
              && Console.AllAllowed(s.desk.consoles[0], SessionOps(img, false, turns))
              && StackUse.Within(DialogueDeeds(img, false, turns), StackUse.STACK_SIZE)
  {
    hide SessionOps, DialogueDeeds, Console.AllAllowed, StackUse.Within, TurnsOk, Machine.Disjoint, Machine.Live,
      Machine.FreePidFrom, WellFormed;
    Machine.BootedIsOk();
    Together.BootedIsOk(texts);
    Together.BootedShows(texts, 1);
    BootedStack(texts);
  }

  lemma {:induction false} BootedStack(texts: Terminals.Texts)
    ensures var s := Together.Booted(texts);
            && Machine.Shape(s.machine) && Machine.Current(s.machine) != [] && Machine.Total(s.machine) == 1
            && StackUse.Room(s.machine, Session.TopPid(s.machine)) == StackUse.STACK_SIZE
            && s.desk.cur == 1 && !s.pressed && s.desk.Ok() && s.desk.consoles[0].pos == 0
  {
    hide Machine.Disjoint, Machine.Live, Machine.FreePidFrom, Console.Apply, Console.State.Ok, Terminals.FreshState;
    Together.BootedShows(texts, 1);
    EmptyLine(Together.Booted(texts).desk.consoles[0]);
    Machine.BootedIsOk();
  }

  lemma {:induction false} EmptyLine(c: Console.State)
    requires c.Ok() && c.Pending() == []
    ensures c.pos == 0
  {
    assert |c.Pending()| == c.pos;
  }

  lemma {:induction false} NoEraseTracks(c: Console.State, shown: seq<Byte>, ops: seq<Console.Op>)
    requires c.Ok() && Console.AllAllowed(c, ops) && Console.NoErase(ops)
    ensures Console.AllTrack(c, shown, ops)
    decreases |ops|
  {
    hide Console.Apply, Console.Allowed;
    if ops != [] {
      NoEraseTracks(Console.Apply(c, ops[0]), Console.Echoed(shown, c.Pending(), ops[0]), ops[1..]);
    }
  }

  /** The keys of every round are those of a line of text. */
  ghost predicate Typed(turns: seq<Turn>, lines: seq<seq<Byte>>) {
    && |turns| == |lines|
    && forall i :: 0 <= i < |turns| ==>
         turns[i].keys == Console.Typing(lines[i]) && |lines[i]| <= 128 && Lacks(lines[i], 0) && Lacks(lines[i], 10)
  }

  /** Prompt, line and answer of every round. */
  ghost function DialogueText(img: Image, full: bool, turns: seq<Turn>, lines: seq<seq<Byte>>): seq<Byte>
    requires TurnsOk(img, turns) && |turns| == |lines|
  {
    if turns == [] then []
    else
      Ascii("391OS> ") + lines[0] + [10] + Answer(img, full, lines[0], turns[0].program)
      + DialogueText(img, full, turns[1..], lines[1..])
  }

  lemma {:induction false} DialogueShows(img: Image, full: bool, turns: seq<Turn>, lines: seq<seq<Byte>>, t: seq<Byte>)
    requires TurnsOk(img, turns) && Typed(turns, lines)
    ensures Console.Transcript(t, [], DialogueOps(img, full, turns)) == t + DialogueText(img, full, turns, lines)
  {
    hide Console.Transcript, Answer, TurnOps, TurnOk;
    if turns == [] {
      NothingShown(t);
    } else {
      var turn, line := turns[0], lines[0];
      assert TurnOk(img, turn);
      CanRunTurn(img, turn);
      var now := Ascii("391OS> ") + line + [10] + Answer(img, full, line, turn.program);
      RoundShows(img, full, turn, line, t);
      assert t + Ascii("391OS> ") + line + [10] + Answer(img, full, line, turn.program) == t + now;
      NothingPending(img, full, turn);
      Console.TranscriptAppend(t, [], TurnOps(img, full, turn), DialogueOps(img, full, turns[1..]));
      DialogueShows(img, full, turns[1..], lines[1..], t + now);
      AppendAssoc(t, now, DialogueText(img, full, turns[1..], lines[1..]));
    }
  }

  /** What the terminal shows of a session: the shell's greeting and the rounds. */
  lemma {:induction false} SessionReads(img: Image, full: bool, turns: seq<Turn>, lines: seq<seq<Byte>>, t: seq<Byte>)
    requires TurnsOk(img, turns) && Typed(turns, lines)
    ensures Console.Transcript(t, [], SessionOps(img, full, turns))
         == t + Ascii("Starting 391 Shell\n") + DialogueText(img, full, turns, lines)
  {
    hide Console.Transcript, DialogueOps, DialogueText, TurnsOk, Typed, Ascii;
    AsciiLacksNul("Starting 391 Shell\n");
    TwoWrites(t, STARTING, []);
    DialogueShows(img, full, turns, lines, t + STARTING);
    Console.TranscriptAppend(t, [], [Console.Write(STARTING)], DialogueOps(img, full, turns));
    assert Console.PushPopAll([], [Console.Write(STARTING)]) == [];
  }

  lemma {:induction false} CanRunTurn(img: Image, turn: Turn)
    requires TurnOk(img, turn)
    ensures Session.CanRun(img, turn.program)
  {
  }

  /**
   * What the screen shows of a session at which nothing was taken back: the last 25 rows of
   * the banner, the shell's words, every typed line and every output, in order.
   */
  lemma {:induction false} SessionShows(img: Image, texts: Terminals.Texts, es: seq<Together.Event>,
                                        ops: seq<Console.Op>, cost: nat, t: Together.State)
    requires Leads(img, Together.Booted(texts), es, ops, cost, t) && Console.NoErase(ops)
    ensures t.desk.Ok() && t.desk.cur == 1
    ensures Screen.Shows(t.desk.consoles[0].display, Console.Transcript(CString(texts.banner), [], ops), false)
  {
    hide Screen.Shows, Console.Transcript, Console.Run, Console.AllAllowed, Console.AllTrack, Together.Booted, Leads;
    var s := Together.Booted(texts);
    BootedStack(texts);
    HereIs(img, s, es, ops, cost, t);
    Together.BootedShows(texts, 1);
    NoEraseTracks(s.desk.consoles[0], CString(texts.banner), ops);
    Console.RunShows(s.desk.consoles[0], ops, CString(texts.banner), false);
  }

  /** Terminal 1 after start-up. */
  ghost function FirstConsole(texts: Terminals.Texts): (c: Console.State)
    ensures c.Ok()
  {
    Together.BootedShows(texts, 1);
    Together.Booted(texts).desk.consoles[0]
  }

  /** What may be typed from power-on: the sizes of the kernel entries, and no backspace out of the screen. */
  ghost predicate Playable(img: Image, texts: Terminals.Texts, turns: seq<Turn>) {
    && TurnsOk(img, turns)
    && Console.AllAllowed(FirstConsole(texts), SessionOps(img, false, turns))
    && StackUse.Within(DialogueDeeds(img, false, turns), StackUse.STACK_SIZE)
  }

  /** It has been typed: a run of the machine, and what the screen shows of it. */
  ghost predicate Played(img: Image, texts: Terminals.Texts, turns: seq<Turn>, es: seq<Together.Event>,
                         t: Together.State)
    requires TurnsOk(img, turns)
  {
    var ops := SessionOps(img, false, turns);
    && Leads(img, Together.Booted(texts), es, ops, StackUse.TotalCost(DialogueDeeds(img, false, turns)), t)
    && t.desk.Ok()
    && (Console.NoErase(ops) ==>
          Screen.Shows(t.desk.consoles[0].display, Console.Transcript(CString(texts.banner), [], ops), false))
  }

  lemma {:induction false} PlayedIs(img: Image, texts: Terminals.Texts, turns: seq<Turn>, es: seq<Together.Event>,
                                    t: Together.State)
    requires TurnsOk(img, turns) && t.desk.Ok()
    requires Leads(img, Together.Booted(texts), es, SessionOps(img, false, turns),
                   StackUse.TotalCost(DialogueDeeds(img, false, turns)), t)
    ensures Played(img, texts, turns, es, t)
  {
    hide Leads, SessionOps, DialogueDeeds, TurnsOk, Together.Booted, Screen.Shows, Console.Transcript, Console.NoErase;
    var ops, cost := SessionOps(img, false, turns), StackUse.TotalCost(DialogueDeeds(img, false, turns));
    if Console.NoErase(ops) {
      SessionShows(img, texts, es, ops, cost, t);
    }
  }

  lemma {:induction false} RoundHasNoErase(img: Image, full: bool, turn: Turn, line: seq<Byte>)
    requires Session.CanRun(img, turn.program) && turn.keys == Console.Typing(line)
    ensures Console.NoErase(TurnOps(img, full, turn))
  {
    hide Session.Output, Machine.Runnable, Session.CanRun;
  }

  lemma {:induction false} TypedHasNoErase(img: Image, full: bool, turns: seq<Turn>, lines: seq<seq<Byte>>)
    requires TurnsOk(img, turns) && Typed(turns, lines)
    ensures Console.NoErase(DialogueOps(img, full, turns))
  {
    hide TurnOps, Session.CanRun, TurnOk;
    if turns != [] {
      assert TurnOk(img, turns[0]);
      CanRunTurn(img, turns[0]);
      RoundHasNoErase(img, full, turns[0], lines[0]);
      TypedHasNoErase(img, full, turns[1..], lines[1..]);
    }
  }

  /**
   * What the screen shows of lines typed from power-on: the last 25 rows of the banner, the
   * greeting, and every prompt, line and answer.
   */
  lemma {:induction false} PowerOnShows(img: Image, texts: Terminals.Texts, turns: seq<Turn>, lines: seq<seq<Byte>>,
                                        es: seq<Together.Event>, t: Together.State)
    requires TurnsOk(img, turns) && Typed(turns, lines) && Played(img, texts, turns, es, t) && Lacks(texts.banner, 0)
    ensures t.desk.Ok()
    ensures Screen.Shows(t.desk.consoles[0].display, texts.banner + Ascii("Starting 391 Shell\n")
                         + DialogueText(img, false, turns, lines), false)
  {
    hide Leads, DialogueOps, DialogueDeeds, TurnsOk, Together.Booted, Screen.Shows, Console.Transcript, Typed,
      DialogueText, Ascii;
    IndexOfIs(texts.banner, 0, |texts.banner|);
    TypedHasNoErase(img, false, turns, lines);
    assert Console.NoErase(SessionOps(img, false, turns));
    assert CString(texts.banner) == texts.banner;
    SessionReads(img, false, turns, lines, texts.banner);
  }

  /** The machine from power-on: start-up, the first shell, and any lines typed at it. */
  method FromPowerOn(img: Image, texts: Terminals.Texts, pageTable: nat, userTable: nat, turns: seq<Turn>)
    returns (k: Kernel.Kernel, ts: Terminals.TerminalSet, ghost es: seq<Together.Event>)
    requires WellFormed(img) && Machine.Runnable(img, Machine.SHELL) && Playable(img, texts, turns)
    requires pageTable % Paging.FOUR_KB == 0 && userTable % Paging.FOUR_KB == 0 && pageTable != userTable
    ensures k.img == img && Together.Valid(k, ts) && Played(img, texts, turns, es, Together.Abstract(k, ts))
  {
    hide Together.Valid, Leads, WellFormed, SessionOps, DialogueDeeds, Console.AllAllowed, StackUse.TotalCost, TurnsOk,
      Greeted, StackUse.Within, Together.Booted, Machine.Runnable, Full, Together.Ok, Played;
    k, ts := Together.Boot(img, texts, pageTable, userTable);
    BootedIsGreeted(img, texts, turns);
    es := ShellMain(k, ts, turns);
    DeskIsOk(k, ts);
    PlayedIs(img, texts, turns, es, Together.Abstract(k, ts));
  }
}
