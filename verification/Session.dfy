/**
 * A command line from beginning to end: execute starts cat, ls or grep on the current
 * terminal, the program gets its argument from the kernel and writes to descriptor 1, and
 * halt resumes the process that called execute.
 */
module Session {
  import opened Bytes
  import opened Limits
  import opened PcbLayout
  import opened Rofs
  import Console
  import FileTable
  import GrepProgram
  import GrepSpec
  import Kernel
  import Machine
  import Process
  import Programs
  import StackUse
  import Terminals
  import Together

  const CAT_USAGE := Ascii("could not read arguments\n")
  const GREP_USAGE := Ascii("could not read argument\n")

  /** What the file that was started holds; `garbage` as in `GrepProgram.GrepMain`. */
  datatype Program = Cat | Ls | Grep(garbage: seq<seq<Byte>>)

  ghost predicate CanRun(img: Image, program: Program) {
    WellFormed(img) && (program.Grep? ==>
      && GrepProgram.PlainDirectories(img) && GrepProgram.GarbageOk(img, program.garbage)
      && (var d := FileTable.Target(img, Programs.HERE); d.Some? ==> d.value.fileType == TYPE_DIR))
  }

  /** What the program writes to the terminal, and its exit code. */
  ghost function Output(img: Image, program: Program, args: seq<Byte>): (seq<Byte>, int)
    requires CanRun(img, program)
  {
    match program
    case Cat =>
      if args == [] then (CAT_USAGE, 3)
      else if FileTable.Target(img, args).None? then (Programs.NOT_FOUND, 2)
      else (Programs.CatText(img, args), 0)
    case Ls =>
      if FileTable.Target(img, Programs.HERE).None? then (Programs.NO_DIRECTORY, 2) else (Programs.LsText(img), 0)
    case Grep(garbage) =>
      if args == [] then (GREP_USAGE, 3)
      else if FileTable.Target(img, Programs.HERE).None? then (Programs.NO_DIRECTORY, 2)
      else GrepProgram.Report(img, args, garbage, true, 0)
  }

  /** A new process can open files, and still can when it has opened one. */
  lemma {:induction false} NewTableHasFree(img: Image, fname: seq<Byte>)
    requires WellFormed(img)
    ensures Programs.HasFree(FileTable.NewTable())
    ensures Programs.HasFree(FileTable.AfterOpen(img, FileTable.NewTable(), fname).1)
  {
    var t := FileTable.NewTable();
    assert !t[2].open && !t[3].open;
    assert FileTable.FreeFrom(t, 2) == 2;
    var u := FileTable.AfterOpen(img, t, fname).1;
    assert !u[3].open;
  }

  /** The arguments of the running process. */
  ghost function Args(k: Kernel.Kernel): seq<Byte>
    requires k.Entered()
    reads k
  {
    Machine.TopOf(Machine.Current(k.machine)).args
  }

  /** The descriptors of the running process. */
  ghost function Files(k: Kernel.Kernel): FileTable.Table
    requires k.Entered()
    reads k
  {
    Machine.TopOf(Machine.Current(k.machine)).files
  }

  /** getargs as the programs call it: the argument is a C string in the buffer. */
  method Argument(k: Kernel.Kernel, buf: array<Byte>) returns (r: int)
    requires k.Valid() && k.Entered() && Kernel.MAX_ARGS_LENGTH <= buf.Length && buf !in k.Repr()
    modifies buf
    ensures Lacks(Args(k), NUL) && (r == 0 <==> Args(k) != []) && (r == 0 ==> CString(buf[..]) == Args(k))
  {
    hide Kernel.Agree, Kernel.Kernel.Books, Kernel.Kernel.Running;
    r := k.GetArgs(buf, buf.Length);
    if r == 0 {
      IndexOfIs(buf[..], NUL, |Args(k)|);
      assert CString(buf[..]) == Args(k);
    }
  }

  /** A new process on this console, whose memory the kernel does not use. */
  ghost predicate Loaded(k: Kernel.Kernel, p: Process.Process)
    reads p.files, p.console, p.console.screen, p.console.screen.video, p.console.keyBuffer
  {
    && p.Valid() && p.img == k.img && p.files[..] == FileTable.NewTable()
    && p.files !in k.Repr() && p.console.screen !in k.Repr() && p.console.screen.video !in k.Repr()
  }

  lemma {:induction false} MessagesLackNul()
    ensures Lacks(CAT_USAGE, NUL) && Lacks(GREP_USAGE, NUL)
  {
    AsciiLacksNul("could not read arguments\n");
    AsciiLacksNul("could not read argument\n");
  }

  lemma {:induction false} FailuresLackNul()
    ensures Lacks(Programs.NOT_FOUND, NUL) && Lacks(Programs.NO_DIRECTORY, NUL)
  {
    AsciiLacksNul("file not found\n");
    AsciiLacksNul("directory open failed\n");
  }

  /** What these programs write reaches the terminal in full. */
  lemma {:induction false} OutputIs(img: Image, program: Program, args: seq<Byte>)
    requires CanRun(img, program) && Lacks(args, NUL)
    ensures Lacks(Output(img, program, args).0, NUL)
  {
    hide GrepProgram.Report, FileTable.Target, Programs.CatText, Programs.LsText, WellFormed, Ascii,
      GrepProgram.PlainDirectories, GrepProgram.GarbageOk;
    MessagesLackNul();
    FailuresLackNul();
    if program.Grep? {
      GrepProgram.ReportLacks(img, args, program.garbage, true, 0);
    }
  }

  /** main of cat. */
  method CatMain(k: Kernel.Kernel, p: Process.Process) returns (r: int)
    requires k.Valid() && k.Entered() && Loaded(k, p)
    modifies p.files, p.console.screen, p.console.screen.video
    ensures CanRun(p.img, Cat)
    ensures p.Valid() && (Args(k) == [] ==> r == 3)
    ensures var (text, code) := Output(p.img, Cat, Args(k));
            r == code && p.console.View() == Console.Apply(old(p.console.View()), Console.Write(text))
  {
    hide Console.Apply, Kernel.Kernel.Valid, Kernel.Kernel.Entered, Programs.CatText, Programs.HasFree,
      FileTable.Target, Args;
    NewTableHasFree(p.img, []);
    var buf := new Byte[Programs.CAT_BUF];
    var failed := Argument(k, buf);
    if failed != 0 {
      Programs.Puts(p, CAT_USAGE);
      return 3;
    }
    r := Programs.Cat(p, CString(buf[..]));
  }

  /** main of ls. */
  method LsMain(k: Kernel.Kernel, p: Process.Process) returns (r: int)
    requires Loaded(k, p)
    modifies p.files, p.console.screen, p.console.screen.video
    ensures CanRun(p.img, Ls) && p.Valid()
    ensures var (text, code) := Output(p.img, Ls, []);
            r == code && p.console.View() == Console.Apply(old(p.console.View()), Console.Write(text))
  {
    hide Console.Apply, Programs.LsText, Programs.HasFree;
    NewTableHasFree(p.img, []);
    r := Programs.Ls(p);
  }

  /** main of grep. */
  method GrepMain(k: Kernel.Kernel, p: Process.Process, garbage: seq<seq<Byte>>) returns (r: int)
    requires k.Valid() && k.Entered() && Loaded(k, p) && CanRun(p.img, Grep(garbage))
    modifies p.files, p.console.screen, p.console.screen.video
    ensures p.Valid() && (Args(k) == [] ==> r == 3)
    ensures var (text, code) := Output(p.img, Grep(garbage), Args(k));
            r == code && p.console.View() == Console.Apply(old(p.console.View()), Console.Write(text))
  {
    hide Console.Apply, Kernel.Kernel.Valid, Kernel.Kernel.Entered, Programs.HasFree, GrepProgram.Report,
      FileTable.AfterOpen, FileTable.Target, GrepProgram.PlainDirectories, GrepProgram.GarbageOk, Args;
    NewTableHasFree(p.img, Programs.HERE);
    var search := new Byte[GrepSpec.BUFSIZE];
    var failed := Argument(k, search);
    if failed != 0 {
      Programs.Puts(p, GREP_USAGE);
      return 3;
    }
    r := GrepProgram.GrepMain(p, CString(search[..]), garbage);
  }

  /** The program that was started, from its entry to its exit code. */
  method AnyMain(k: Kernel.Kernel, p: Process.Process, program: Program) returns (r: int)
    requires k.Valid() && k.Entered() && Loaded(k, p) && CanRun(p.img, program)
    modifies p.files, p.console.screen, p.console.screen.video
    ensures p.Valid()
    ensures var (text, code) := Output(p.img, program, Args(k));
            r == code && p.console.View() == Console.Apply(old(p.console.View()), Console.Write(text))
  {
    hide Console.Apply, Kernel.Agree, Kernel.Kernel.ImageOk, Kernel.Kernel.Books, Programs.LsText, Programs.CatText,
      GrepProgram.Report, Loaded;
    match program {
      case Cat => r := CatMain(k, p);
      case Ls => r := LsMain(k, p);
      case Grep(garbage) => r := GrepMain(k, p, garbage);
    }
  }

  /** The running process, just started, with the descriptors of its control block. */
  method NewProcess(k: Kernel.Kernel, ts: Terminals.TerminalSet) returns (p: Process.Process)
    requires k.Valid() && k.Entered() && ts.Valid() && WellFormed(k.img) && k.Repr() !! {ts} + ts.Repr()
    requires Files(k) == FileTable.NewTable()
    ensures fresh(p.files) && p.console == ts.live && Loaded(k, p)
  {
    hide Terminals.TerminalSet.Valid, Console.LiveConsole.Valid, Kernel.Kernel.Valid, Kernel.Kernel.Entered;
    ts.LiveIsValid();
    var table := k.GetFiles();
    p := new Process.Process(k.img, ts.live, table);
  }

  /** The program's output goes to the current one of the three consoles. */
  method RunOnDesk(k: Kernel.Kernel, ts: Terminals.TerminalSet, program: Program)
    returns (r: int, files: FileTable.Table)
    requires k.Valid() && k.Entered() && ts.Valid() && k.Repr() !! {ts} + ts.Repr() && CanRun(k.img, program)
    requires Files(k) == FileTable.NewTable()
    modifies ts`desk, ts.live.screen, ts.live.screen.video
    ensures ts.Valid()
    ensures var (text, code) := old(Output(k.img, program, Args(k)));
      r == code && Terminals.Wrote(old(ts.desk), text, ts.desk)
  {
    hide Console.Apply, Kernel.Agree, Kernel.Kernel.Valid, Kernel.Kernel.Entered, Terminals.Wrote, Output,
      Console.State.Ok, Args, Files, WellFormed, GrepProgram.PlainDirectories, GrepProgram.GarbageOk;
    ghost var text := Output(k.img, program, Args(k)).0;
    ts.LiveIsValid();
    var p := NewProcess(k, ts);
    r := AnyMain(k, p, program);
    files := p.files[..];
    ts.NoteWrite(text);
  }

  /**
   * In joint steps: the program of the running process writes its output, its control block
   * gets its descriptors, and that is all.
   */
  method RunProgram(k: Kernel.Kernel, ts: Terminals.TerminalSet, program: Program)
    returns (r: int, files: FileTable.Table)
    requires Together.Valid(k, ts) && k.Entered() && CanRun(k.img, program) && Files(k) == FileTable.NewTable()
    modifies k.Repr(), ts, ts.Repr()
    ensures Together.Valid(k, ts) && k.Entered()
    ensures var (text, code) := old(Output(k.img, program, Args(k)));
      && r == code
      && Together.Reaches(k.img, old(Together.Abstract(k, ts)),
                          [Together.Local(Console.Write(text)), Together.Process(Machine.Describe(files))],
                          Together.Abstract(k, ts))
  {
    hide Kernel.Agree, Kernel.Kernel.Valid, Kernel.Kernel.ImageOk, Kernel.Kernel.Books, Kernel.Kernel.Running,
      Kernel.Kernel.Entered, Together.Steps, Together.Reaches, CanRun, Output, Machine.Ok, Together.Valid,
      Terminals.TerminalSet.Valid, Args, Files, WellFormed;
    ghost var s, text := Together.Abstract(k, ts), Output(k.img, program, Args(k)).0;
    r, files := WriteOutput(k, ts, program);
    ghost var t := Together.Abstract(k, ts);
    Together.ReachesOne(k.img, s, Together.Local(Console.Write(text)), t);
    Together.Describe(k, ts, files);
    Together.ReachesOne(k.img, t, Together.Process(Machine.Describe(files)), Together.Abstract(k, ts));
    Together.ReachesOn(k.img, s, [Together.Local(Console.Write(text))], t,
                       [Together.Process(Machine.Describe(files))], Together.Abstract(k, ts));
    assert [Together.Local(Console.Write(text)), Together.Process(Machine.Describe(files))]
        == [Together.Local(Console.Write(text))] + [Together.Process(Machine.Describe(files))];
  }

  method WriteOutput(k: Kernel.Kernel, ts: Terminals.TerminalSet, program: Program)
    returns (r: int, files: FileTable.Table)
    requires Together.Valid(k, ts) && k.Entered() && CanRun(k.img, program) && Files(k) == FileTable.NewTable()
    modifies ts, ts.Repr()
    ensures Together.Valid(k, ts) && k.Entered()
    ensures var (text, code) := Output(k.img, program, Args(k));
      && r == code
      && Together.Steps(k.img, old(Together.Abstract(k, ts)), Together.Local(Console.Write(text)),
                        Together.Abstract(k, ts))
  {
    hide Kernel.Agree, Kernel.Kernel.Valid, Kernel.Kernel.ImageOk, Kernel.Kernel.Books, Kernel.Kernel.Running,
      Kernel.Kernel.Entered, Together.Step, Terminals.Step, CanRun, Output, Machine.Ok, Together.Linked,
      Terminals.TerminalSet.Valid, Args, Files, WellFormed;
    ghost var text := Output(k.img, program, Args(k)).0;
    Together.LocalSteps(k.img, Together.Abstract(k, ts), Console.Write(text));
    r, files := RunOnDesk(k, ts, program);
    ts.KeyBufferInRepr();
  }

  // ----- from the command line to the screen -----

  /** The command starts a program, which is a child of the running process. */
  ghost predicate Starts(img: Image, m: Machine.State, command: seq<Byte>) {
    && WellFormed(img) && Machine.Ok(m) && |command| < Kernel.COMMAND_SIZE
    && !Machine.IsExit(Machine.Word(command)) && Machine.Runnable(img, Machine.Word(command))
    && Machine.Total(m) < MAX_PROCESSES
  }

  /** A call of execute, for which the caller's entry took `entry` bytes. */
  function ExecuteEvents(command: seq<Byte>, entry: nat): seq<Together.Event> {
    [Together.Process(Machine.Enter(entry)), Together.Process(Machine.Execute(Some(command)))]
  }

  /** The state when it has started a program. */
  ghost function Executed(s: Together.State, command: seq<Byte>, entry: nat): Together.State
    requires Machine.Shape(s.machine)
  {
    s.(machine := Machine.Launched(s.machine.(esp := s.machine.esp0 - entry), Machine.ArgText(command)))
  }

  lemma {:induction false} EnterLeads(img: Image, s: Together.State, used: nat, t: Together.State)
    requires Together.Steps(img, s, Together.Process(Machine.Enter(used)), t)
    ensures t == s.(machine := s.machine.(esp := s.machine.esp0 - used))
    ensures Machine.Ok(s.machine) && Machine.Ok(t.machine)
  {
    hide Machine.Disjoint, Machine.Live, Together.Step, Together.Linked;
    Together.QuietSteps(img, s, Machine.Enter(used));
  }

  /** Where the kernel stack stands does not matter to what can be started. */
  lemma {:induction false} StartsAnywhere(img: Image, m: Machine.State, command: seq<Byte>, esp: int)
    requires Machine.Shape(m)
    ensures Starts(img, m.(esp := esp), command) <==> Starts(img, m, command)
  {
    hide Machine.Live, Machine.PidsDistinct, Machine.Pids, Machine.Runnable, Machine.IsExit, Machine.Word, WellFormed;
    assert Machine.Live(m.(esp := esp)) == Machine.Live(m) by { SameLive(m, esp); }
  }

  lemma {:induction false} SameLive(m: Machine.State, esp: int)
    requires Machine.Shape(m)
    ensures Machine.Live(m.(esp := esp)) == Machine.Live(m)
  {
  }

  /** The started program has the text behind its name for arguments, new descriptors and an empty kernel stack. */
  lemma {:induction false} ExecuteLeads(img: Image, s: Together.State, command: seq<Byte>, t: Together.State)
    requires Starts(img, s.machine, command)
    requires Together.Steps(img, s, Together.Process(Machine.Execute(Some(command))), t)
    ensures Machine.Ok(t.machine) && t == s.(machine := Machine.Launched(s.machine, Machine.ArgText(command)))
    ensures var p := Machine.TopOf(Machine.Current(t.machine));
            && p.args == Machine.ArgText(command) && p.files == FileTable.NewTable()
            && StackUse.Room(t.machine, p.pid) == StackUse.STACK_SIZE
  {
    hide Machine.Disjoint, Machine.Live, Machine.FreePidFrom, Machine.ArgText, Machine.Runnable, Machine.IsExit,
      Machine.Word, WellFormed, Together.Step, Together.Linked;
    Together.ExecuteSteps(img, s, Some(command));
  }

  function TopPid(m: Machine.State): nat
    requires Machine.Shape(m) && Machine.Current(m) != []
  {
    Machine.TopOf(Machine.Current(m)).pid
  }

  /** An entry to the kernel that fits. */
  method EnterKernel(k: Kernel.Kernel, ts: Terminals.TerminalSet, used: nat)
    requires Together.Valid(k, ts) && used <= StackUse.Room(k.machine, TopPid(k.machine))
    modifies k
    ensures Together.Valid(k, ts) && k.Entered()
    ensures Together.Steps(k.img, old(Together.Abstract(k, ts)), Together.Process(Machine.Enter(used)),
                           Together.Abstract(k, ts))
    ensures Together.Abstract(k, ts)
         == Together.State(old(k.machine).(esp := old(k.machine.esp0) - used), old(ts.desk),
                           old(ts.live.enterPressed))
  {
    hide Kernel.Agree, Kernel.Kernel.Valid, Kernel.Kernel.ImageOk, Kernel.Kernel.Books, Kernel.Kernel.Running,
      Kernel.Kernel.Entered, Together.Steps, Terminals.TerminalSet.Valid, WellFormed, Machine.Disjoint, Machine.Live;
    ghost var s := Together.Abstract(k, ts);
    Together.EnterKernel(k, ts, used);
    EnterLeads(k.img, s, used, Together.Abstract(k, ts));
  }

  /** What execute does when it starts nothing: at most the message that there is no room. */
  lemma {:induction false} RefusalLeads(img: Image, s: Together.State, command: seq<Byte>, o: Machine.Outcome,
                                        t: Together.State)
    requires WellFormed(img) && Machine.Ok(s.machine) && |command| < Kernel.COMMAND_SIZE
    requires !Machine.IsExit(Machine.Word(command)) && !Starts(img, s.machine, command)
    requires o == Machine.ExecuteStep(img, s.machine, Some(command)).1
    requires Together.Steps(img, s, Together.Process(Machine.Execute(Some(command))), t)
    ensures Refused(img, s, command, o, t)
  {
    hide Machine.Disjoint, Machine.Live, Machine.FreePidFrom, Machine.ArgText, Machine.Runnable, Machine.IsExit,
      Machine.Word, WellFormed, Together.Step, Together.Linked, Terminals.Step, Machine.Total;
    Together.ExecuteSteps(img, s, Some(command));
  }

  ghost predicate Refused(img: Image, s: Together.State, command: seq<Byte>, o: Machine.Outcome, t: Together.State)
    requires WellFormed(img)
  {
    && t.machine == s.machine && t.pressed == s.pressed
    && if Machine.Runnable(img, Machine.Word(command))
       then o == Machine.Returned(0) && Terminals.Wrote(s.desk, Together.FULL, t.desk)
       else o == Machine.Returned(-1) && t.desk == s.desk
  }

  /** The caller enters the kernel and calls execute. */
  method CallExecute(k: Kernel.Kernel, ts: Terminals.TerminalSet, command: seq<Byte>, entry: nat)
    returns (o: Machine.Outcome)
    requires Together.Valid(k, ts) && |command| < Kernel.COMMAND_SIZE && !Machine.IsExit(Machine.Word(command))
    requires entry <= StackUse.Room(k.machine, TopPid(k.machine))
    modifies k.Repr(), ts, ts.Repr()
    ensures Together.Valid(k, ts) && WellFormed(k.img)
    ensures Together.Reaches(k.img, old(Together.Abstract(k, ts)), ExecuteEvents(command, entry),
                             Together.Abstract(k, ts))
    ensures var s := old(Together.Abstract(k, ts));
      if Starts(k.img, s.machine, command)
      then o.Started? && Together.Abstract(k, ts) == Executed(s, command, entry)
      else Refused(k.img, s.(machine := s.machine.(esp := s.machine.esp0 - entry)), command, o,
                   Together.Abstract(k, ts))
  {
    hide Kernel.Agree, Kernel.Kernel.Valid, Kernel.Kernel.ImageOk, Kernel.Kernel.Books, Kernel.Kernel.Running,
      Kernel.Kernel.Entered, Together.Steps, Together.Reaches, Terminals.TerminalSet.Valid, WellFormed,
      Machine.ArgText, Machine.Ok, Machine.ExecuteStep, Machine.Launched, StackUse.Room, Starts, Refused,
      Together.Linked;
    ghost var s := Together.Abstract(k, ts);
    EnterKernel(k, ts, entry);
    ghost var s0 := Together.Abstract(k, ts);
    o := Together.Execute(k, ts, Some(command));
    ghost var s1 := Together.Abstract(k, ts);
    ExecuteIs(k.img, s, command, entry, s0, o, s1);
    var e0, e1 := Together.Process(Machine.Enter(entry)), Together.Process(Machine.Execute(Some(command)));
    StepsJoin(k.img, s, e0, s0, e1, s1);
  }

  lemma {:induction false} ExecuteIs(img: Image, s: Together.State, command: seq<Byte>, entry: nat,
                                     s0: Together.State, o: Machine.Outcome, s1: Together.State)
    requires |command| < Kernel.COMMAND_SIZE && !Machine.IsExit(Machine.Word(command)) && Machine.Ok(s.machine)
    requires WellFormed(img) && s0 == s.(machine := s.machine.(esp := s.machine.esp0 - entry)) && Machine.Ok(s0.machine)
    requires o == Machine.ExecuteStep(img, s0.machine, Some(command)).1
    requires Together.Steps(img, s0, Together.Process(Machine.Execute(Some(command))), s1)
    ensures if Starts(img, s.machine, command) then o.Started? && s1 == Executed(s, command, entry)
            else Refused(img, s0, command, o, s1)
  {
    hide Machine.Disjoint, Machine.Live, Together.Steps, Machine.Launched, Refused, Starts, WellFormed, Machine.IsExit,
      Machine.Word, Machine.ExecuteStep;
    StartsAnywhere(img, s.machine, command, s0.machine.esp);
    if Starts(img, s.machine, command) {
      ExecuteLeads(img, s0, command, s1);
      StartsMeans(img, s0.machine, command);
    } else {
      RefusalLeads(img, s0, command, o, s1);
    }
  }

  lemma {:induction false} StartsMeans(img: Image, m: Machine.State, command: seq<Byte>)
    requires Starts(img, m, command)
    ensures |command| < Kernel.COMMAND_SIZE && Machine.Ok(m) && WellFormed(img)
    ensures Machine.ExecuteStep(img, m, Some(command)).1.Started?
  {
    hide Machine.Disjoint, Machine.Live, Machine.FreePidFrom, Machine.ArgText, Machine.Runnable, Machine.IsExit,
      Machine.Word, WellFormed, Machine.Total;
  }

  lemma {:induction false} StepsJoin(img: Image, s: Together.State, e: Together.Event, t: Together.State,
                                     f: Together.Event, u: Together.State)
    requires Together.Steps(img, s, e, t) && Together.Steps(img, t, f, u)
    ensures Together.Reaches(img, s, [e, f], u)
  {
    hide Together.Steps, Together.Reaches;
    Together.ReachesOne(img, s, e, t);
    Together.ReachesOne(img, t, f, u);
    Together.ReachesOn(img, s, [e], t, [f], u);
    assert [e, f] == [e] + [f];
  }

  /** What the program does until it halts: it writes a text, and has used its descriptors. */
  function ProgramEvents(text: seq<Byte>, files: FileTable.Table): seq<Together.Event> {
    [Together.Local(Console.Write(text)), Together.Process(Machine.Describe(files))]
  }

  lemma {:induction false} ProgramLeads(img: Image, s: Together.State, text: seq<Byte>, files: FileTable.Table,
                                        t: Together.State)
    requires Together.Reaches(img, s, ProgramEvents(text, files), t)
    ensures Machine.Ok(s.machine) && Terminals.Wrote(s.desk, text, t.desk) && t.pressed == s.pressed
    ensures t.machine == Machine.Described(s.machine, files)
  {
    hide Machine.Disjoint, Machine.Live, Together.Step, Together.Linked, Terminals.Step;
    var e, f := Together.Local(Console.Write(text)), Together.Process(Machine.Describe(files));
    Together.LocalSteps(img, s, Console.Write(text));
    var u := Together.Step(img, s, e);
    Together.QuietSteps(img, u, Machine.Describe(files));
    assert [e, f][1..] == [f] && [f][1..] == [];
    assert Together.Run(img, u, [f]) == Together.Run(img, Together.Step(img, u, f), []);
  }

  /** The halt of a started program gives the machine back to the process that gave the command. */
  lemma {:induction false} HaltLeads(img: Image, m: Machine.State, command: seq<Byte>, entry: nat, v: Machine.State,
                                     files: FileTable.Table, code: int)
    requires Starts(img, m, command) && Machine.Ok(v)
    requires var u := Machine.Launched(m.(esp := m.esp0 - entry), Machine.ArgText(command));
             v == Machine.Described(u.(esp := v.esp), files)
    ensures Machine.HaltStep(v, code) == (StackUse.Lowered(m, entry), Machine.Resumed(TopPid(m), code))
  {
    hide Machine.Disjoint, Machine.Live, Machine.FreePidFrom, Machine.ArgText, Machine.Runnable, Machine.IsExit,
      Machine.Word, WellFormed, Machine.Total;
    var e := m.(esp := m.esp0 - entry);
    var u := Machine.Launched(e, Machine.ArgText(command)).(esp := v.esp);
    Machine.PopUndoesLaunch(e, Machine.ArgText(command), v.esp);
    Machine.PopForgetsFiles(u, files);
  }

  /** What happens at the kernel while the started program is there. */
  function ChildEvents(used: nat, text: seq<Byte>, files: FileTable.Table, code: int): seq<Together.Event> {
    [Together.Process(Machine.Enter(used))] + ProgramEvents(text, files) + [Together.Process(Machine.Halt(code))]
  }

  /** The program that execute has started enters the kernel, runs and halts; `s` is the state before. */
  method RunChild(k: Kernel.Kernel, ts: Terminals.TerminalSet, used: nat, program: Program, ghost s: Together.State,
                  ghost command: seq<Byte>, ghost entry: nat)
    returns (o: Machine.Outcome, files: FileTable.Table)
    requires Together.Valid(k, ts) && Starts(k.img, s.machine, command) && CanRun(k.img, program)
    requires Together.Abstract(k, ts) == Executed(s, command, entry) && used <= StackUse.STACK_SIZE
    modifies k.Repr(), ts, ts.Repr()
    ensures Together.Valid(k, ts)
    ensures var (text, code) := Output(k.img, program, Machine.ArgText(command));
      && Together.Reaches(k.img, old(Together.Abstract(k, ts)), ChildEvents(used, text, files, code),
                          Together.Abstract(k, ts))
      && Terminals.Wrote(s.desk, text, ts.desk) && ts.live.enterPressed == s.pressed
      && k.machine == StackUse.Lowered(s.machine, entry) && o == Machine.Resumed(TopPid(s.machine), code)
  {
    hide Kernel.Agree, Kernel.Kernel.Valid, Kernel.Kernel.ImageOk, Kernel.Kernel.Books, Kernel.Kernel.Running,
      Kernel.Kernel.Entered, Together.Steps, Together.Reaches, Together.Valid, Terminals.Wrote, CanRun, Output,
      Machine.Ok, Machine.HaltStep, Terminals.TerminalSet.Valid, WellFormed, Starts, Machine.ArgText,
      Machine.Launched, Machine.Described, StackUse.Lowered, StackUse.Room;
    ghost var t := Together.Abstract(k, ts);
    ExecutedIs(k.img, s, command, entry);
    EnterKernel(k, ts, used);
    ghost var u := Together.Abstract(k, ts);
    ghost var text := Output(k.img, program, Args(k)).0;
    var code;
    code, files := RunProgram(k, ts, program);
    ghost var v := Together.Abstract(k, ts);
    o := Together.Halt(k, ts, code);
    ghost var w := Together.Abstract(k, ts);
    ghost var a, b := [Together.Process(Machine.Enter(used))], ProgramEvents(text, files);
    ghost var c := [Together.Process(Machine.Halt(code))];
    Together.ReachesOne(k.img, t, a[0], u);
    Together.ReachesOn(k.img, t, a, u, b, v);
    Together.ReachesOne(k.img, v, c[0], w);
    Together.ReachesOn(k.img, t, a + b, v, c, w);
    CommandEnds(k.img, s, command, entry, used, text, files, code, v, w);
  }

  lemma {:induction false} ExecutedIs(img: Image, s: Together.State, command: seq<Byte>, entry: nat)
    requires Starts(img, s.machine, command)
    ensures Machine.Ok(s.machine)
    ensures var m := Executed(s, command, entry).machine;
            && Machine.Shape(m) && Machine.Current(m) != []
            && var p := Machine.TopOf(Machine.Current(m));
               && p.args == Machine.ArgText(command) && p.files == FileTable.NewTable()
               && StackUse.Room(m, p.pid) == StackUse.STACK_SIZE
  {
    hide Machine.Disjoint, Machine.Live, Machine.FreePidFrom, Machine.ArgText, Machine.Runnable, Machine.IsExit,
      Machine.Word, WellFormed, Machine.Total;
  }

  /**
   * A command line determines the screen: the program that it starts writes what `Output`
   * says of the text behind the program's name on the current terminal; the other consoles
   * and all other processes are as they were; the caller goes on, and enters the kernel
   * `entry` bytes further down from then on.
   */
  method CommandLine(k: Kernel.Kernel, ts: Terminals.TerminalSet, command: seq<Byte>, entry: nat, used: nat,
                     program: Program)
    returns (o: Machine.Outcome, files: FileTable.Table)
    requires Together.Valid(k, ts) && Starts(k.img, k.machine, command) && CanRun(k.img, program)
    requires entry <= StackUse.Room(k.machine, TopPid(k.machine)) && used <= StackUse.STACK_SIZE
    modifies k.Repr(), ts, ts.Repr()
    ensures Together.Valid(k, ts)
    ensures var (text, code) := Output(k.img, program, Machine.ArgText(command));
      && Together.Reaches(k.img, old(Together.Abstract(k, ts)),
                          ExecuteEvents(command, entry) + ChildEvents(used, text, files, code),
                          Together.Abstract(k, ts))
      && Terminals.Wrote(old(ts.desk), text, ts.desk) && ts.live.enterPressed == old(ts.live.enterPressed)
      && k.machine == StackUse.Lowered(old(k.machine), entry)
      && o == Machine.Resumed(old(TopPid(k.machine)), code)
  {
    hide Kernel.Agree, Kernel.Kernel.Valid, Kernel.Kernel.ImageOk, Together.Reaches, Together.Valid, Terminals.Wrote,
      CanRun, Output, Machine.Ok, Terminals.TerminalSet.Valid, WellFormed, Starts, Machine.ArgText, Machine.Launched,
      StackUse.Lowered, StackUse.Room, ExecuteEvents, ChildEvents, Refused, Machine.IsExit, Machine.Word;
    ghost var s := Together.Abstract(k, ts);
    assert |command| < Kernel.COMMAND_SIZE && !Machine.IsExit(Machine.Word(command)) by {
      NotExit(k.img, s.machine, command);
    }
    o := CallExecute(k, ts, command, entry);
    ghost var t := Together.Abstract(k, ts);
    ghost var (text, code) := Output(k.img, program, Machine.ArgText(command));
    o, files := RunChild(k, ts, used, program, s, command, entry);
    Together.ReachesOn(k.img, s, ExecuteEvents(command, entry), t, ChildEvents(used, text, files, code),
                       Together.Abstract(k, ts));
  }

  lemma {:induction false} NotExit(img: Image, m: Machine.State, command: seq<Byte>)
    requires Starts(img, m, command)
    ensures |command| < Kernel.COMMAND_SIZE && !Machine.IsExit(Machine.Word(command))
  {
  }

  /** The state at the end, from the state at the beginning. */
  lemma {:induction false} CommandEnds(img: Image, s: Together.State, command: seq<Byte>, entry: nat, used: nat,
                                       text: seq<Byte>, files: FileTable.Table, code: int, v: Together.State,
                                       w: Together.State)
    requires Starts(img, s.machine, command) && Machine.Ok(s.machine)
    requires var t := Executed(s, command, entry);
             Together.Reaches(img, t.(machine := t.machine.(esp := t.machine.esp0 - used)),
                              ProgramEvents(text, files), v)
    requires Together.Steps(img, v, Together.Process(Machine.Halt(code)), w)
    ensures Terminals.Wrote(s.desk, text, w.desk) && w.pressed == s.pressed
    ensures w.machine == StackUse.Lowered(s.machine, entry)
    ensures Machine.Ok(v.machine) && Machine.HaltStep(v.machine, code).1 == Machine.Resumed(TopPid(s.machine), code)
  {
    hide Machine.Disjoint, Machine.Live, Together.Step, Together.Linked, Together.Reaches, Machine.Described,
      Machine.Launched, Machine.HaltStep, Starts, Terminals.Wrote, StackUse.Lowered, Machine.ArgText, WellFormed;
    var t := Executed(s, command, entry);
    var u := t.(machine := t.machine.(esp := t.machine.esp0 - used));
    ProgramLeads(img, u, text, files, v);
    Together.QuietSteps(img, v, Machine.Halt(code));
    DescribedEsp(u.machine, files);
    HaltLeads(img, s.machine, command, entry, v.machine, files, code);
  }

  lemma {:induction false} DescribedEsp(m: Machine.State, files: FileTable.Table)
    requires Machine.Shape(m) && Machine.Current(m) != []
    ensures Machine.Described(m, files).esp == m.esp
  {
  }
}
