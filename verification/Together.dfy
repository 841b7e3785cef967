/**
 * Processes and consoles together (terminal.c, syscalls.c): one step of the kernel does
 * something to the three stacks of `Machine` and something to the three consoles of
 * `Terminals`, and the launch flags of the one are the non-empty stacks of the other.
 */
module Together {
  import opened Bytes
  import opened Limits
  import opened PcbLayout
  import opened Rofs
  import Console
  import FileTable
  import Kernel
  import Machine
  import Paging
  import Screen
  import Terminals

  /** `pressed` is the flag enter_pressed. */
  datatype State = State(machine: Machine.State, desk: Terminals.Desk, pressed: bool)

  /** A terminal counts as launched exactly when it has a process. */
  predicate Linked(m: Machine.State, d: Terminals.Desk)
    requires Machine.Shape(m) && d.Ok()
  {
    m.cur == d.cur && forall t :: 0 <= t < MAX_TERMINALS ==> (d.launched[t] <==> m.stacks[t] != [])
  }

  predicate Ok(s: State) {
    Machine.Ok(s.machine) && s.desk.Ok() && Linked(s.machine, s.desk)
  }

  /** What the running process, the keyboard or its program do, and terminal switches. */
  datatype Event = Process(e: Machine.Event) | Local(op: Console.Op) | Switch(term: int)

  /** A read returns only when the flag is set. */
  predicate EventAllowed(s: State, e: Event)
    requires Ok(s)
  {
    match e
    case Process(e) => !e.Switch?
    case Local(op) => Console.Allowed(s.desk.consoles[s.desk.cur - 1], op) && (op.Read? ==> s.pressed)
    case Switch(term) => 1 <= term <= MAX_TERMINALS
  }

  const FULL := Ascii("Maximum number of processes reached\n")

  /** What the consoles notice of an event; can_execute answers from the processes. */
  ghost function Noticed(img: Image, s: State, e: Event): seq<Terminals.Event>
    requires WellFormed(img) && Ok(s) && EventAllowed(s, e)
  {
    match e
    case Process(e) =>
      if e.Execute? && Machine.ExecuteStep(img, s.machine, e.command).1 == Machine.Returned(0)
      then [Terminals.Local(Console.Write(FULL))] else []
    case Local(op) => [Terminals.Local(op)]
    case Switch(term) => [Terminals.Switch(term, Machine.Total(s.machine) < MAX_PROCESSES)]
  }

  ghost function MachineStep(img: Image, s: State, e: Event): Machine.State
    requires WellFormed(img) && Ok(s) && EventAllowed(s, e)
  {
    match e
    case Process(e) => Machine.Step(img, s.machine, e)
    case Local(_) => s.machine
    case Switch(term) => Machine.Step(img, s.machine, Machine.Switch(term))
  }

  function PressedAfter(s: State, e: Event): bool {
    if e.Local? then Terminals.Pressed(s.pressed, Terminals.Local(e.op)) else s.pressed
  }

  ghost function Step(img: Image, s: State, e: Event): (r: State)
    requires WellFormed(img) && Ok(s) && EventAllowed(s, e)
    ensures Ok(r)
  {
    NoticedAllowed(img, s, e);
    StepKeepsLinks(img, s, e);
    State(MachineStep(img, s, e), Terminals.RunAll(s.desk, Noticed(img, s, e)), PressedAfter(s, e))
  }

  lemma {:induction false} NoticedAllowed(img: Image, s: State, e: Event)
    requires WellFormed(img) && Ok(s) && EventAllowed(s, e)
    ensures Terminals.RunAllowed(s.desk, Noticed(img, s, e))
    ensures Noticed(img, s, e) != [] ==>
      && |Noticed(img, s, e)| == 1 && Terminals.EventAllowed(s.desk, Noticed(img, s, e)[0])
      && Terminals.RunAll(s.desk, Noticed(img, s, e)) == Terminals.Step(s.desk, Noticed(img, s, e)[0])
  {
    hide Machine.Ok, Machine.ExecuteStep, Machine.Total, Terminals.Step, Terminals.EventAllowed;
    var n := Noticed(img, s, e);
    if n != [] {
      assert n[1..] == [];
      assert Terminals.EventAllowed(s.desk, n[0]) by { AllowedHere(img, s, e); }
    }
  }

  lemma {:induction false} AllowedHere(img: Image, s: State, e: Event)
    requires WellFormed(img) && Ok(s) && EventAllowed(s, e)
    ensures Noticed(img, s, e) != [] ==> Terminals.EventAllowed(s.desk, Noticed(img, s, e)[0])
  {
  }

  /** The halves of a step agree about which terminals are launched and which is current. */
  lemma {:induction false} StepKeepsLinks(img: Image, s: State, e: Event)
    requires WellFormed(img) && Ok(s) && EventAllowed(s, e)
    ensures Terminals.RunAllowed(s.desk, Noticed(img, s, e))
    ensures var m, d := MachineStep(img, s, e), Terminals.RunAll(s.desk, Noticed(img, s, e));
            Machine.Ok(m) && d.Ok() && Linked(m, d)
  {
    hide Machine.Disjoint, Machine.Live, Machine.FreePidFrom, Machine.Runnable, Machine.IsExit, Machine.ArgText,
      Machine.ExecuteStep, Machine.SwitchStep, Console.Apply, Console.Allowed, Console.State.Ok, WellFormed;
    NoticedAllowed(img, s, e);
    match e {
      case Process(e) =>
        Machine.StepKeepsOk(img, s.machine, e);
        ProcessKeepsLaunched(img, s.machine, e);
      case Local(op) =>
      case Switch(term) =>
        Machine.StepKeepsOk(img, s.machine, Machine.Switch(term));
        SwitchKeepsLinks(s.machine, s.desk, term);
    }
  }

  lemma {:induction false} SwitchKeepsLinks(m: Machine.State, d: Terminals.Desk, term: int)
    requires Machine.Ok(m) && d.Ok() && Linked(m, d) && 1 <= term <= MAX_TERMINALS
    ensures var room := Machine.Total(m) < MAX_PROCESSES;
            var n, e := Machine.SwitchStep(m, term), Terminals.Step(d, Terminals.Switch(term, room));
            Machine.Shape(n) && e.Ok() && Linked(n, e)
  {
    hide Machine.Disjoint, Machine.Live, Machine.FreePidFrom, Machine.Total, Console.Apply, Console.State.Ok;
  }

  lemma {:induction false} ProcessKeepsLaunched(img: Image, m: Machine.State, e: Machine.Event)
    requires WellFormed(img) && Machine.Ok(m) && !e.Switch?
    ensures var r := Machine.Step(img, m, e);
            r.cur == m.cur && Machine.Shape(r)
            && forall t :: 0 <= t < MAX_TERMINALS ==> (r.stacks[t] != [] <==> m.stacks[t] != [])
  {
    hide Machine.Disjoint, Machine.Live, Machine.FreePidFrom, Machine.Runnable, Machine.IsExit, Machine.ArgText,
      WellFormed;
    Machine.StepKeepsOk(img, m, e);
  }

  // ----- runs -----

  ghost predicate RunAllowed(img: Image, s: State, es: seq<Event>)
    requires WellFormed(img) && Ok(s)
    decreases |es|
  {
    es == [] || (EventAllowed(s, es[0]) && RunAllowed(img, Step(img, s, es[0]), es[1..]))
  }

  /** On every run the launch flags are the non-empty stacks, and both halves keep their invariants. */
  ghost function Run(img: Image, s: State, es: seq<Event>): (r: State)
    requires WellFormed(img) && Ok(s) && RunAllowed(img, s, es)
    ensures Ok(r)
    decreases |es|
  {
    if es == [] then s else Run(img, Step(img, s, es[0]), es[1..])
  }

  /** All that the consoles notice of a run. */
  ghost function AllNoticed(img: Image, s: State, es: seq<Event>): seq<Terminals.Event>
    requires WellFormed(img) && Ok(s) && RunAllowed(img, s, es)
    decreases |es|
  {
    if es == [] then [] else Noticed(img, s, es[0]) + AllNoticed(img, Step(img, s, es[0]), es[1..])
  }

  lemma {:induction false} RunAllAppend(d: Terminals.Desk, a: seq<Terminals.Event>, b: seq<Terminals.Event>)
    requires d.Ok() && Terminals.RunAllowed(d, a) && Terminals.RunAllowed(Terminals.RunAll(d, a), b)
    ensures Terminals.RunAllowed(d, a + b)
    ensures Terminals.RunAll(d, a + b) == Terminals.RunAll(Terminals.RunAll(d, a), b)
    decreases |a|
  {
    hide Terminals.Step, Terminals.EventAllowed;
    if a == [] {
      assert a + b == b;
    } else {
      assert (a + b)[0] == a[0] && (a + b)[1..] == a[1..] + b;
      RunAllAppend(Terminals.Step(d, a[0]), a[1..], b);
    }
  }

  /** The consoles of a run are those of a run of the consoles alone. */
  lemma {:induction false} RunProjects(img: Image, s: State, es: seq<Event>)
    requires WellFormed(img) && Ok(s) && RunAllowed(img, s, es)
    ensures Terminals.RunAllowed(s.desk, AllNoticed(img, s, es))
    ensures Run(img, s, es).desk == Terminals.RunAll(s.desk, AllNoticed(img, s, es))
    decreases |es|
  {
    hide Machine.Ok, MachineStep, Noticed, EventAllowed;
    if es != [] {
      var u := Step(img, s, es[0]);
      NoticedAllowed(img, s, es[0]);
      RunProjects(img, u, es[1..]);
      RunAllAppend(s.desk, Noticed(img, s, es[0]), AllNoticed(img, u, es[1..]));
    }
  }

  /** So, whatever the processes do, each terminal has its own line and its own transcript. */
  lemma {:induction false} EveryTerminalKeepsItsOwn(img: Image, s: State, es: seq<Event>, t: int, shown: seq<Byte>,
                                                    erased: bool)
    requires WellFormed(img) && Ok(s) && RunAllowed(img, s, es) && 1 <= t <= MAX_TERMINALS
    requires Screen.Shows(s.desk.consoles[t - 1].display, shown, erased)
    ensures Terminals.RunAllowed(s.desk, AllNoticed(img, s, es))
    ensures var c, r := s.desk.consoles[t - 1], Run(img, s, es).desk.consoles[t - 1];
            KeepsItsOwn(c, Terminals.Own(s.desk, AllNoticed(img, s, es), t), r, shown, erased)
  {
    hide Machine.Ok, MachineStep, Noticed, EventAllowed;
    RunProjects(img, s, es);
    Terminals.EveryTerminalKeepsItsOwn(s.desk, AllNoticed(img, s, es), t, shown, erased);
  }

  /**
   * From console `c`, which shows a text, its own operations have led to `r`: line and
   * transcript are theirs alone.
   */
  ghost predicate KeepsItsOwn(c: Console.State, own: seq<Console.Op>, r: Console.State, shown: seq<Byte>,
                              erased: bool)
  {
    && c.Ok() && r.Ok() && Console.AllAllowed(c, own)
    && r.Pending() == Console.PushPopAll(c.Pending(), own)
    && (Console.AllTrack(c, shown, own) <==> Console.ShownAlong(c, own, shown, erased))
    && (Console.AllTrack(c, shown, own) ==>
          Screen.Shows(r.display, Console.Transcript(shown, c.Pending(), own), erased || !Console.NoErase(own)))
  }

  /** The texts of the source; they hold no percent sign, so printf prints them as they are. */
  function SourceTexts(): Terminals.Texts {
    Terminals.Texts(
      Ascii("    _      ____     ___    _       _        ___             ___    ____  \n")
      + Ascii("   / \\    |  _ \\   / _ \\  | |     | |      / _ \\           / _ \\  / ___| \n")
      + Ascii("  / _ \\   | |_) | | | | | | |     | |     | | | |         | | | | \\___ \\ \n")
      + Ascii(" / ___ \\  |  __/  | |_| | | |___  | |___  | |_| |         | |_| |  ___) |\n")
      + Ascii("/_/   \\_\\ |_|      \\___/  |_____| |_____|  \\___/   _____   \\___/  |____/ \n")
      + Ascii("                                                  |_____|                \n"),
      Ascii("\nPlease close processes before opening another teminal\n391OS> "))
  }

  /** After start-up: a shell on terminal 1, which shows the banner. */
  function Booted(texts: Terminals.Texts): State {
    State(Machine.Booted(), Terminals.Started(Terminals.PoweredOn(texts), 1), false)
  }

  lemma {:induction false} BootedIsOk(texts: Terminals.Texts)
    ensures Ok(Booted(texts))
  {
    Machine.BootedIsOk();
  }

  lemma {:induction false} LocalSteps(img: Image, s: State, op: Console.Op)
    requires WellFormed(img) && Ok(s) && EventAllowed(s, Local(op))
    ensures Step(img, s, Local(op))
         == State(s.machine, Terminals.Step(s.desk, Terminals.Local(op)),
                  Terminals.Pressed(s.pressed, Terminals.Local(op)))
  {
    NoticedAllowed(img, s, Local(op));
  }

  function Locals(ops: seq<Console.Op>): (es: seq<Event>)
    ensures |es| == |ops|
  {
    if ops == [] then [] else [Local(ops[0])] + Locals(ops[1..])
  }

  /** What is typed on the current terminal, nothing else happening, is done on its console alone. */
  lemma {:induction false} TypedRun(img: Image, s: State, ops: seq<Console.Op>)
    requires WellFormed(img) && Ok(s) && Console.Keyboard(ops)
    requires Console.AllAllowed(s.desk.consoles[s.desk.cur - 1], ops)
    ensures RunAllowed(img, s, Locals(ops))
    ensures var r, c := Run(img, s, Locals(ops)), s.desk.consoles[s.desk.cur - 1];
            && r.machine == s.machine && (Console.Editing(ops) ==> r.pressed == s.pressed)
            && r.desk == s.desk.(consoles := s.desk.consoles[s.desk.cur - 1 := Console.Run(c, ops)])
    decreases |ops|
  {
    hide Machine.Ok, Step, Console.Apply, Console.Allowed, WellFormed, Linked;
    if ops != [] {
      LocalSteps(img, s, ops[0]);
      TypedRun(img, Step(img, s, Local(ops[0])), ops[1..]);
      assert Locals(ops)[1..] == Locals(ops[1..]);
    }
  }

  /**
   * From every state of the machine, hence also after start-up, one can type until the next
   * backspace writes in front of video memory.
   */
  lemma {:induction false} TypingLeavesScreen(img: Image, s: State, ch: Byte) returns (es: seq<Event>)
    requires WellFormed(img) && Ok(s) && ch != NUL && !Screen.IsBreak(ch)
    ensures forall i :: 0 <= i < |es| ==> es[i].Local? && (es[i].op.Key? || es[i].op.Erase? || es[i].op.EnterKey?)
    ensures RunAllowed(img, s, es) && !EventAllowed(Run(img, s, es), Local(Console.Erase))
  {
    hide Machine.Ok, Step, Console.Apply, Console.Allowed, WellFormed, Linked, Run, RunAllowed;
    var ops := Console.TypingLeavesScreen(s.desk.consoles[s.desk.cur - 1], ch);
    TypedRun(img, s, ops);
    LocalsAre(ops);
    es := Locals(ops);
  }

  lemma {:induction false} LocalsAre(ops: seq<Console.Op>)
    ensures forall i :: 0 <= i < |ops| ==> Locals(ops)[i] == Local(ops[i])
  {
    if ops != [] {
      LocalsAre(ops[1..]);
    }
  }

  /** What a terminal shows after start-up: the first one the banner, the others nothing. */
  function FirstText(texts: Terminals.Texts, t: int): seq<Byte> {
    if t == 1 then CString(texts.banner) else []
  }

  lemma {:induction false} BootedShows(texts: Terminals.Texts, t: int)
    requires 1 <= t <= MAX_TERMINALS
    ensures var c := Booted(texts).desk.consoles[t - 1];
            c.Ok() && c.Pending() == [] && Screen.Shows(c.display, FirstText(texts, t), false)
  {
    hide Screen.Shows, Terminals.FreshState, Machine.Booted;
    var blank := Terminals.FreshState(Terminals.COLOURS[0]).display;
    Screen.PrintShows(blank, [], CString(texts.banner), false);
    assert [] + CString(texts.banner) == CString(texts.banner);
  }

  /**
   * On every run of the machine from start-up, on every terminal: the pending line is the
   * push/pop result of the terminal's own keys, and its screen is the window over its own
   * transcript, banner included, all along exactly when every erase there takes the last
   * character back.
   */
  lemma {:induction false} FromStartEveryTerminalKeepsItsOwn(img: Image, texts: Terminals.Texts, es: seq<Event>, t: int)
    requires WellFormed(img) && Ok(Booted(texts)) && RunAllowed(img, Booted(texts), es) && 1 <= t <= MAX_TERMINALS
    ensures var s := Booted(texts);
            && Terminals.RunAllowed(s.desk, AllNoticed(img, s, es))
            && var own, c := Terminals.Own(s.desk, AllNoticed(img, s, es), t), Run(img, s, es).desk.consoles[t - 1];
               && KeepsItsOwn(s.desk.consoles[t - 1], own, c, FirstText(texts, t), false)
               && c.Pending() == Console.PushPopAll([], own)
  {
    hide Machine.Ok, Step, EventAllowed, Screen.Shows, Booted;
    BootedShows(texts, t);
    EveryTerminalKeepsItsOwn(img, Booted(texts), es, t, FirstText(texts, t), false);
  }

  // ----- in place -----

  /** The kernel's records and the consoles are different objects, and stand for a joint state. */
  ghost predicate Valid(k: Kernel.Kernel, ts: Terminals.TerminalSet)
    reads k.Repr(), ts, ts.Repr(), ts.live.keyBuffer
  {
    && k.Valid() && ts.Valid() && k.Repr() !! {ts} + ts.Repr() && ts.live.keyBuffer in ts.Repr()
    && WellFormed(k.img) && Ok(Abstract(k, ts))
  }

  ghost function Abstract(k: Kernel.Kernel, ts: Terminals.TerminalSet): State
    reads k, ts, ts.live
  {
    State(k.machine, ts.desk, ts.live.enterPressed)
  }

  /** The run of these events leads from `s` to `t`. */
  ghost predicate Reaches(img: Image, s: State, es: seq<Event>, t: State) {
    WellFormed(img) && Ok(s) && RunAllowed(img, s, es) && t == Run(img, s, es)
  }

  lemma {:induction false} ReachesNothing(img: Image, s: State)
    requires WellFormed(img) && Ok(s)
    ensures Reaches(img, s, [], s)
  {
  }

  lemma {:induction false} ReachesOne(img: Image, s: State, e: Event, t: State)
    requires Steps(img, s, e, t)
    ensures Reaches(img, s, [e], t)
  {
    hide Ok, Step, EventAllowed;
    assert [e][1..] == [];
    assert RunAllowed(img, t, []) && Run(img, t, []) == t;
    assert RunAllowed(img, s, [e]);
  }

  lemma {:induction false} ReachesOn(img: Image, s: State, a: seq<Event>, t: State, b: seq<Event>, u: State)
    requires Reaches(img, s, a, t) && Reaches(img, t, b, u)
    ensures Reaches(img, s, a + b, u)
    decreases |a|
  {
    hide Ok, Step, EventAllowed;
    if a == [] {
      assert a + b == b;
    } else {
      assert (a + b)[0] == a[0] && (a + b)[1..] == a[1..] + b;
      ReachesOn(img, Step(img, s, a[0]), a[1..], t, b, u);
    }
  }

  /** The event leads from `s` to `t`. */
  ghost predicate Steps(img: Image, s: State, e: Event, t: State) {
    WellFormed(img) && Ok(s) && EventAllowed(s, e) && t == Step(img, s, e)
  }

  lemma {:induction false} SwitchSteps(img: Image, s: State, term: int)
    requires WellFormed(img) && Ok(s) && 1 <= term <= MAX_TERMINALS
    ensures var room := Machine.Total(s.machine) < MAX_PROCESSES;
            Step(img, s, Switch(term))
            == State(Machine.SwitchStep(s.machine, term), Terminals.Step(s.desk, Terminals.Switch(term, room)),
                     s.pressed)
  {
    NoticedAllowed(img, s, Switch(term));
  }

  lemma {:induction false} ExecuteSteps(img: Image, s: State, command: Option<seq<Byte>>)
    requires WellFormed(img) && Ok(s)
    ensures var (m, o) := Machine.ExecuteStep(img, s.machine, command);
            Step(img, s, Process(Machine.Execute(command)))
            == State(m, if o == Machine.Returned(0) then Terminals.Step(s.desk, Terminals.Local(Console.Write(FULL)))
                        else s.desk, s.pressed)
  {
    hide Machine.ExecuteStep;
    NoticedAllowed(img, s, Process(Machine.Execute(command)));
  }

  /** The consoles' half, which leaves the kernel alone. */
  method SwitchConsoles(k: Kernel.Kernel, ts: Terminals.TerminalSet, term: int, room: bool)
    requires ts.desk.Ok() && 1 <= term <= MAX_TERMINALS
    requires k.Valid() && k.Entered() && ts.Valid() && k.Repr() !! {ts} + ts.Repr()
    modifies ts, ts.Repr()
    ensures ts.desk == Terminals.Step(old(ts.desk), Terminals.Switch(term, room)) && k.machine == old(k.machine)
    ensures k.Valid() && k.Entered() && ts.Valid() && ts.live.enterPressed == old(ts.live.enterPressed)
  {
    hide Kernel.Agree, Kernel.Kernel.ImageOk, Kernel.Kernel.Valid, Kernel.Kernel.Books, Kernel.Kernel.Running,
      Kernel.Kernel.Entered, Terminals.TerminalSet.Valid, Terminals.Step, WellFormed;
    ts.SwitchTerminal(term, room);
  }

  /** switch_terminal, with both its halves; the consoles ask the kernel whether there is room. */
  method SwitchTerminal(k: Kernel.Kernel, ts: Terminals.TerminalSet, term: int)
    requires Valid(k, ts) && k.Entered() && 1 <= term <= MAX_TERMINALS
    modifies k.Repr(), ts, ts.Repr()
    ensures Valid(k, ts) && Steps(k.img, old(Abstract(k, ts)), Switch(term), Abstract(k, ts))
  {
    hide Kernel.Agree, Kernel.Kernel.ImageOk, Kernel.Kernel.Valid, Kernel.Kernel.Books, Kernel.Kernel.Running,
      Kernel.Kernel.Entered,
      Terminals.TerminalSet.Valid, Machine.SwitchStep, Terminals.Step, Step,
      Terminals.Desk.Ok, Machine.Ok, Linked, Machine.Total, WellFormed;
    ghost var s := Abstract(k, ts);
    SwitchSteps(k.img, s, term);
    k.ValidBooks();
    var room := k.CanExecute();
    SwitchConsoles(k, ts, term, room);
    k.SwitchTerminal(term);
    ts.KeyBufferInRepr();
  }

  /** execute, with its message when there is no room. */
  method Execute(k: Kernel.Kernel, ts: Terminals.TerminalSet, command: Option<seq<Byte>>) returns (o: Machine.Outcome)
    requires Valid(k, ts) && k.Entered() && (command.Some? ==> |command.value| < Kernel.COMMAND_SIZE)
    modifies k.Repr(), ts, ts.Repr()
    ensures WellFormed(k.img) && Machine.Ok(old(k.machine))
    ensures o == Machine.ExecuteStep(k.img, old(k.machine), command).1
    ensures Valid(k, ts) && Steps(k.img, old(Abstract(k, ts)), Process(Machine.Execute(command)), Abstract(k, ts))
  {
    hide Kernel.Agree, Kernel.Kernel.ImageOk, Kernel.Kernel.Valid, Kernel.Kernel.Books, Kernel.Kernel.Running,
      Kernel.Kernel.Entered,
      Terminals.TerminalSet.Valid, Machine.ExecuteStep, Terminals.Step, Step,
      Terminals.Desk.Ok, Machine.Ok, Linked, Machine.Total, WellFormed;
    ghost var s, e := Abstract(k, ts), Process(Machine.Execute(command));
    ExecuteSteps(k.img, s, command);
    o := k.Execute(command);
    if o == Machine.Returned(0) {
      ts.Printf(FULL);
    }
    ts.KeyBufferInRepr();
  }

  lemma {:induction false} QuietSteps(img: Image, s: State, e: Machine.Event)
    requires WellFormed(img) && Ok(s) && (e.Halt? || e.Enter? || e.Describe?)
    ensures Step(img, s, Process(e)) == State(Machine.Step(img, s.machine, e), s.desk, s.pressed)
  {
  }

  /** halt. */
  method Halt(k: Kernel.Kernel, ts: Terminals.TerminalSet, status: int) returns (o: Machine.Outcome)
    requires Valid(k, ts) && k.Entered()
    modifies k.Repr()
    ensures Machine.Ok(old(k.machine)) && o == Machine.HaltStep(old(k.machine), status).1
    ensures Valid(k, ts) && Steps(k.img, old(Abstract(k, ts)), Process(Machine.Halt(status)), Abstract(k, ts))
  {
    hide Kernel.Agree, Kernel.Kernel.ImageOk, Kernel.Kernel.Valid, Kernel.Kernel.Books, Kernel.Kernel.Running,
      Kernel.Kernel.Entered, Terminals.TerminalSet.Valid, Machine.HaltStep, Step, Terminals.Desk.Ok, Machine.Ok, Linked,
      WellFormed;
    QuietSteps(k.img, Abstract(k, ts), Machine.Halt(status));
    o := k.Halt(status);
  }

  /** An interrupt or system call from the running program. */
  method EnterKernel(k: Kernel.Kernel, ts: Terminals.TerminalSet, used: nat)
    requires Valid(k, ts)
    modifies k
    ensures Valid(k, ts) && Steps(k.img, old(Abstract(k, ts)), Process(Machine.Enter(used)), Abstract(k, ts))
    ensures Machine.Ok(k.machine)
    ensures k.Entered() <==>
      used <= k.machine.esp0 - (PcbAddress(Machine.TopOf(Machine.Current(k.machine)).pid) + PCB_SIZE)
  {
    hide Kernel.Agree, Kernel.Kernel.ImageOk, Kernel.Kernel.Valid, Kernel.Kernel.Books, Kernel.Kernel.Running,
      Kernel.Kernel.Entered, Terminals.TerminalSet.Valid, Step, Terminals.Desk.Ok, Machine.Ok, Linked, WellFormed;
    QuietSteps(k.img, Abstract(k, ts), Machine.Enter(used));
    k.EnterKernel(used);
  }

  /** What the running process's descriptor calls have made of its descriptors. */
  method Describe(k: Kernel.Kernel, ts: Terminals.TerminalSet, files: FileTable.Table)
    requires Valid(k, ts) && k.Entered()
    modifies k.Repr()
    ensures Valid(k, ts) && k.Entered()
    ensures Steps(k.img, old(Abstract(k, ts)), Process(Machine.Describe(files)), Abstract(k, ts))
  {
    hide Kernel.Agree, Kernel.Kernel.ImageOk, Kernel.Kernel.Valid, Kernel.Kernel.Books, Kernel.Kernel.Running,
      Kernel.Kernel.Entered, Terminals.TerminalSet.Valid, Step, Terminals.Desk.Ok, Machine.Ok, Linked, WellFormed,
      Machine.Described;
    QuietSteps(k.img, Abstract(k, ts), Machine.Describe(files));
    k.SetFiles(files);
  }

  /** The keys that keyboard_handler passes on to the current terminal. */
  method KeyboardHandler(k: Kernel.Kernel, ts: Terminals.TerminalSet, op: Console.Op)
    requires Valid(k, ts) && (op.Key? || op.Erase? || op.EnterKey?)
    requires Console.Allowed(ts.desk.consoles[ts.desk.cur - 1], op)
    modifies ts, ts.Repr()
    ensures Valid(k, ts) && Steps(k.img, old(Abstract(k, ts)), Local(op), Abstract(k, ts))
  {
    hide Kernel.Agree, Kernel.Kernel.ImageOk, Kernel.Kernel.Valid, Kernel.Kernel.Books, Kernel.Kernel.Running,
      Kernel.Kernel.Entered, Terminals.TerminalSet.Valid, Step, Terminals.Step, Machine.Ok, Linked, WellFormed,
      Console.Allowed;
    LocalSteps(k.img, Abstract(k, ts), op);
    ts.KeyBufferInRepr();
    ts.KeyboardHandler(op);
    ts.KeyBufferInRepr();
  }

  /** A process of the current terminal writes to its descriptor 1. */
  method WriteOut(k: Kernel.Kernel, ts: Terminals.TerminalSet, buf: array<Byte>, at: nat, nbytes: nat) returns (r: int)
    requires Valid(k, ts) && buf !in ts.Repr() && at + nbytes <= buf.Length
    modifies ts, ts.Repr()
    ensures r == |CString(buf[at..at + nbytes])|
    ensures Valid(k, ts)
    ensures Steps(k.img, old(Abstract(k, ts)), Local(Console.Write(buf[at..at + nbytes])), Abstract(k, ts))
  {
    hide Kernel.Agree, Kernel.Kernel.ImageOk, Kernel.Kernel.Valid, Kernel.Kernel.Books, Kernel.Kernel.Running,
      Kernel.Kernel.Entered, Terminals.TerminalSet.Valid, Step, Terminals.Step, Machine.Ok, Linked, WellFormed;
    LocalSteps(k.img, Abstract(k, ts), Console.Write(buf[at..at + nbytes]));
    r := ts.WriteOut(buf, at, nbytes);
    ts.KeyBufferInRepr();
  }

  /** A process of the current terminal reads from its descriptor 0. */
  method ReadIn(k: Kernel.Kernel, ts: Terminals.TerminalSet, buf: array<Byte>, at: nat, nbytes: int) returns (r: int)
    requires Valid(k, ts) && buf !in ts.Repr() && buf !in k.Repr() && ts.live.enterPressed
    requires Console.Allowed(ts.desk.consoles[ts.desk.cur - 1], Console.Read(nbytes))
    requires at + |Console.Line(ts.desk.consoles[ts.desk.cur - 1], nbytes)| <= buf.Length
    modifies ts, ts.Repr(), buf
    ensures var line := Console.Line(old(ts.desk).consoles[old(ts.desk).cur - 1], nbytes);
            r == |line| && buf[..] == Written(old(buf[..]), at, line)
    ensures Valid(k, ts) && Steps(k.img, old(Abstract(k, ts)), Local(Console.Read(nbytes)), Abstract(k, ts))
  {
    hide Kernel.Agree, Kernel.Kernel.ImageOk, Kernel.Kernel.Valid, Kernel.Kernel.Books, Kernel.Kernel.Running,
      Kernel.Kernel.Entered, Terminals.TerminalSet.Valid, Step, Terminals.Step, Machine.Ok, Linked, WellFormed,
      Console.Allowed, Console.Line;
    LocalSteps(k.img, Abstract(k, ts), Console.Read(nbytes));
    ts.KeyBufferInRepr();
    r := ts.ReadIn(buf, at, nbytes);
    ts.KeyBufferInRepr();
  }

  // ----- start-up -----

  /** The kernel's records, with paging switched on. */
  method NewKernel(img: Image, pageTable: nat, userTable: nat) returns (k: Kernel.Kernel)
    requires pageTable % Paging.FOUR_KB == 0 && userTable % Paging.FOUR_KB == 0 && pageTable != userTable
    ensures fresh(k.Repr()) && k.img == img && k.processesFlags == 0
    ensures k.pcbs.Length == MAX_PROCESSES && k.terminal.Length == MAX_TERMINALS
    ensures k.paging.Valid() && k.paging.space == Paging.Space(Option.None, false, 0)
  {
    var paging := new Paging.PageTables(pageTable, userTable);
    paging.InitPaging();
    k := new Kernel.Kernel(img, paging);
  }

  /** The memory of the three consoles. */
  method NewTerminals(texts: Terminals.Texts) returns (ts: Terminals.TerminalSet)
    ensures fresh(ts) && fresh(ts.Repr()) && ts.texts == texts && ts.Shape() && !ts.live.enterPressed
  {
    var screen := new Screen.TextScreen();
    var keys0, keys1, keys2 := NewPages(Console.KEY_BUFFER_SIZE);
    var page0, page1, page2 := NewPages(Terminals.PAGE);
    var terminal := new Terminals.Saved[MAX_TERMINALS](_ => Terminals.Saved(0, 0, 0, false));
    var live := new Console.LiveConsole(screen, keys0);
    ts := new Terminals.TerminalSet(live, [keys0, keys1, keys2], [page0, page1, page2], terminal, texts);
  }

  /** init_terminals, for the consoles. */
  method StartConsoles(texts: Terminals.Texts) returns (ts: Terminals.TerminalSet)
    ensures fresh(ts) && fresh(ts.Repr()) && !ts.live.enterPressed
    ensures ts.Valid() && ts.desk == Booted(texts).desk && ts.live.keyBuffer in ts.Repr()
  {
    hide Terminals.TerminalSet.Valid, Terminals.PoweredOn, Terminals.Started, Machine.Booted;
    ts := NewTerminals(texts);
    assert forall i :: 0 <= i < MAX_TERMINALS ==> ts.keyBuffers[i] in ts.Repr() && ts.vidMem[i] in ts.Repr();
    ts.InitTerminals();
    ts.KeyBufferInRepr();
  }

  method NewPages(size: nat) returns (a: array<Byte>, b: array<Byte>, c: array<Byte>)
    ensures fresh(a) && fresh(b) && fresh(c) && a != b && a != c && b != c
    ensures a.Length == b.Length == c.Length == size
  {
    a, b, c := new Byte[size](_ => NUL), new Byte[size](_ => NUL), new Byte[size](_ => NUL);
  }

  /** Paging and init_terminals, with both its halves: a shell on terminal 1, which shows the banner. */
  method Boot(img: Image, texts: Terminals.Texts, pageTable: nat, userTable: nat)
    returns (k: Kernel.Kernel, ts: Terminals.TerminalSet)
    requires WellFormed(img) && Machine.Runnable(img, Machine.SHELL)
    requires pageTable % Paging.FOUR_KB == 0 && userTable % Paging.FOUR_KB == 0 && pageTable != userTable
    ensures fresh(k.Repr()) && fresh(ts) && fresh(ts.Repr()) && k.img == img && !ts.live.enterPressed
    ensures Valid(k, ts) && Abstract(k, ts) == Booted(texts)
  {
    hide Kernel.Agree, Kernel.Kernel.Valid, Kernel.Kernel.Books, Kernel.Kernel.Running, Paging.PageTables.Valid,
      Terminals.TerminalSet.Valid, Terminals.PoweredOn, Terminals.Started, WellFormed, Machine.Runnable, Machine.Booted,
      Terminals.Desk.Ok, Machine.Ok, Linked;
    k := NewKernel(img, pageTable, userTable);
    ts := StartConsoles(texts);
    k.InitTerminals();
    BootedIsOk(texts);
  }
}
