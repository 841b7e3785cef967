/**
 * How far the kernel stack of a shell comes down (halt and execute of syscalls.c): the
 * processor enters the kernel where tss.esp0 points, and a halt leaves that where its parent's
 * stack stood in execute.
 */
module StackUse {
  import opened Bytes
  import opened Limits
  import FileTable
  import opened Machine
  import Paging
  import opened PcbLayout
  import opened Rofs

  /**
   * What a process does in one go: a system call that comes back, or a command that it
   * starts, with all that happens until the started program halts by `last`.
   */
  datatype Deed =
    | Call(used: nat)
    | Command(text: seq<Byte>, used: nat, during: seq<Event>, last: Event)

  function Events(d: Deed): seq<Event> {
    match d
    case Call(used) => [Enter(used)]
    case Command(text, used, during, last) => [Enter(used), Execute(Some(text))] + during + [last]
  }

  /** The machine once the program of a command has been started. */
  ghost function Begun(img: Image, m: State, d: Deed): (u: State)
    requires WellFormed(img) && Ok(m) && d.Command?
    ensures Ok(u)
  {
    StepKeepsOk(img, Step(img, m, Enter(d.used)), Execute(Some(d.text)));
    Step(img, Step(img, m, Enter(d.used)), Execute(Some(d.text)))
  }

  /** Nothing halts below the program of the command, and at the end it is on top again. */
  ghost predicate Lasts(img: Image, u: State, during: seq<Event>)
    requires WellFormed(img) && Ok(u) && GoodEvents(during)
  {
    && Survive(img, u, during, u.cur - 1, |Current(u)|)
    && Run(img, u, during).cur == u.cur && |Current(Run(img, u, during))| == |Current(u)|
  }

  /**
   * The program of a command is started; it does not halt before its last event, nor do the
   * processes below it; then it is on top of the current terminal's stack again, and halts.
   */
  ghost predicate Completes(img: Image, m: State, d: Deed)
    requires WellFormed(img) && Ok(m)
  {
    d.Command? ==>
      && GoodEvents(d.during) && Halts(d.last)
      && !IsExit(Word(d.text)) && Runnable(img, Word(d.text)) && Total(m) < MAX_PROCESSES
      && Lasts(img, Begun(img, m, d), d.during)
  }

  /** By how much a deed lowers the place where the kernel is entered. */
  function Cost(d: Deed): nat {
    if d.Command? then d.used else 0
  }

  lemma {:induction false} RunAppend(img: Image, m: State, a: seq<Event>, b: seq<Event>)
    requires WellFormed(img) && Ok(m) && GoodEvents(a) && GoodEvents(b)
    ensures GoodEvents(a + b) && Run(img, m, a + b) == Run(img, Run(img, m, a), b)
    decreases |a|
  {
    hide Ok, Step;
    if a == [] {
      assert a + b == b;
    } else {
      StepKeepsOk(img, m, a[0]);
      RunAppend(img, Step(img, m, a[0]), a[1..], b);
      assert (a + b)[0] == a[0] && (a + b)[1..] == a[1..] + b;
    }
  }

  lemma {:induction false} RunOne(img: Image, m: State, e: Event)
    requires WellFormed(img) && Ok(m) && (e.Switch? ==> 1 <= e.term <= MAX_TERMINALS)
    ensures GoodEvents([e]) && Run(img, m, [e]) == Step(img, m, e)
  {
    hide Ok, Step;
    StepKeepsOk(img, m, e);
    assert [e][1..] == [];
  }

  /** A command is its two first events, what happens meanwhile, and the last one. */
  lemma {:induction false} CommandRuns(img: Image, m: State, d: Deed)
    requires WellFormed(img) && Ok(m) && d.Command? && Completes(img, m, d)
    ensures GoodEvents(Events(d)) && Ok(Begun(img, m, d))
    ensures Run(img, m, Events(d)) == Step(img, Run(img, Begun(img, m, d), d.during), d.last)
  {
    hide Ok, Step, Runnable, IsExit, Survive, WellFormed;
    var first, second := Enter(d.used), Execute(Some(d.text));
    StepKeepsOk(img, m, first);
    StepKeepsOk(img, Step(img, m, first), second);
    RunOne(img, m, first);
    RunOne(img, Step(img, m, first), second);
    RunOne(img, Run(img, Begun(img, m, d), d.during), d.last);
    RunAppend(img, m, [first], [second]);
    assert [first] + [second] == [first, second];
    RunAppend(img, m, [first, second], d.during);
    RunAppend(img, m, [first, second] + d.during, [d.last]);
  }

  lemma {:induction false} HaltPops(img: Image, r: State, e: Event)
    requires WellFormed(img) && Ok(r) && Halts(e) && |Current(r)| > 1
    ensures Step(img, r, e) == Popped(r)
  {
  }

  /** Popping the one process more gives back the stack, and what its caller noted down. */
  lemma {:induction false} PoppedBack(m: State, r: State, p: Proc)
    requires Shape(m) && Shape(r) && Current(m) != [] && r.cur == m.cur && Current(r) == Current(m) + [p]
    ensures Popped(r).cur == m.cur && Shape(Popped(r)) && Current(Popped(r)) == Current(m)
    ensures Popped(r).esp0 == p.caller
  {
    assert Current(r)[..|Current(r)| - 1] == Current(m);
  }

  /** The started program is on top of what was there, with the stack pointer of the entry noted down. */
  lemma {:induction false} BegunIs(img: Image, m: State, d: Deed) returns (p: Proc)
    requires WellFormed(img) && Ok(m) && d.Command? && Completes(img, m, d)
    ensures var u := Begun(img, m, d);
            u.cur == m.cur && Current(u) == Current(m) + [p] && p.caller == m.esp0 - d.used
  {
    hide Disjoint, Live, FreePidFrom, Runnable, IsExit, WellFormed, ArgText, Word, Lasts;
    var e := m.(esp := m.esp0 - d.used);
    assert Begun(img, m, d) == Launched(e, ArgText(d.text));
    p := NewProc(e, ArgText(d.text));
  }

  /** And so it is when it halts, whatever has become of its descriptors. */
  lemma {:induction false} LastsKeeps(img: Image, u: State, during: seq<Event>, below: Stack, p: Proc) returns (q: Proc)
    requires WellFormed(img) && Ok(u) && GoodEvents(during) && Lasts(img, u, during) && Current(u) == below + [p]
    ensures Current(Run(img, u, during)) == below + [q] && q.caller == p.caller
  {
    hide Disjoint, Live, WellFormed, Survive, OwnFiles;
    AncestorsStay(img, u, during, u.cur - 1, |below|);
    var a := Current(Run(img, u, during));
    q := a[|below|];
    assert a == a[..|below|] + [q];
  }

  /**
   * Whatever a command does while it lasts, afterwards the process that started it has the
   * same stack below it and enters the kernel `used` bytes lower: exactly those of the entry
   * with which it called execute.
   */
  lemma {:induction false} CommandCosts(img: Image, m: State, d: Deed)
    requires WellFormed(img) && Ok(m) && Completes(img, m, d)
    ensures GoodEvents(Events(d))
    ensures var r := Run(img, m, Events(d));
            r.cur == m.cur && Current(r) == Current(m) && r.esp0 == m.esp0 - Cost(d)
  {
    hide Disjoint, Live, FreePidFrom, Runnable, IsExit, WellFormed, ArgText, Word, Begun, Survive, Popped, Halts;
    match d {
      case Call(used) => RunOne(img, m, Enter(used));
      case Command(text, used, during, last) =>
        CommandRuns(img, m, d);
        var p := BegunIs(img, m, d);
        var q := LastsKeeps(img, Begun(img, m, d), during, Current(m), p);
        var r := Run(img, Begun(img, m, d), during);
        HaltPops(img, r, last);
        PoppedBack(m, r, q);
    }
  }

  // ----- one command after the other -----

  function AllEvents(ds: seq<Deed>): seq<Event> {
    if ds == [] then [] else Events(ds[0]) + AllEvents(ds[1..])
  }

  ghost predicate AllComplete(img: Image, m: State, ds: seq<Deed>)
    requires WellFormed(img) && Ok(m)
    decreases |ds|
  {
    ds == [] || (
      && Completes(img, m, ds[0])
      && (CommandCosts(img, m, ds[0]); AllComplete(img, Run(img, m, Events(ds[0])), ds[1..])))
  }

  function TotalCost(ds: seq<Deed>): nat {
    if ds == [] then 0 else Cost(ds[0]) + TotalCost(ds[1..])
  }

  /** After any run of system calls and commands, the commands' entries have been added up. */
  lemma {:induction false} CostsAddUp(img: Image, m: State, ds: seq<Deed>)
    requires WellFormed(img) && Ok(m) && AllComplete(img, m, ds)
    ensures GoodEvents(AllEvents(ds))
    ensures var r := Run(img, m, AllEvents(ds));
            r.cur == m.cur && Current(r) == Current(m) && r.esp0 == m.esp0 - TotalCost(ds)
    decreases |ds|
  {
    hide Ok, Step, Completes, Cost, Events, WellFormed;
    if ds != [] {
      CommandCosts(img, m, ds[0]);
      var u := Run(img, m, Events(ds[0]));
      CostsAddUp(img, u, ds[1..]);
      RunAppend(img, m, Events(ds[0]), AllEvents(ds[1..]));
    }
  }

  // ----- do the entries fit? -----

  /** Every entry of the run leaves the control block of process `pid` alone. */
  ghost predicate AllFit(img: Image, m: State, ds: seq<Deed>, pid: nat)
    requires WellFormed(img) && Ok(m) && AllComplete(img, m, ds)
    decreases |ds|
  {
    ds == [] || (
      CommandCosts(img, m, ds[0]);
      OnStack(m.esp0 - ds[0].used, pid) && AllFit(img, Run(img, m, Events(ds[0])), ds[1..], pid))
  }

  /** The sizes alone: each entry finds room for itself below those of the commands before it. */
  predicate Within(ds: seq<Deed>, room: int) {
    ds == [] || (ds[0].used <= room && Within(ds[1..], room - Cost(ds[0])))
  }

  /** The bytes between the control block of `pid` and the place where the kernel is entered. */
  function Room(m: State, pid: nat): int {
    m.esp0 - PcbAddress(pid) - PCB_SIZE
  }

  lemma {:induction false} AllFitIff(img: Image, m: State, ds: seq<Deed>, pid: nat)
    requires WellFormed(img) && Ok(m) && AllComplete(img, m, ds) && m.esp0 < PcbAddress(pid) + EIGHT_KB
    ensures AllFit(img, m, ds, pid) <==> Within(ds, Room(m, pid))
    decreases |ds|
  {
    hide Ok, Step, Completes, Events, WellFormed, PcbAddress;
    if ds != [] {
      CommandCosts(img, m, ds[0]);
      AllFitIff(img, Run(img, m, Events(ds[0])), ds[1..], pid);
    }
  }

  /** When all of them start programs, the sum decides. */
  lemma {:induction false} WithinIsSum(ds: seq<Deed>, room: int)
    requires forall i :: 0 <= i < |ds| ==> ds[i].Command?
    ensures Within(ds, room) <==> ds == [] || TotalCost(ds) <= room
    decreases |ds|
  {
    if |ds| > 1 {
      WithinIsSum(ds[1..], room - Cost(ds[0]));
    } else if |ds| == 1 {
      assert ds[1..] == [];
    }
  }

  /** The state when, after such a run, the kernel is entered once more, with `u` bytes. */
  ghost function NextEntry(img: Image, m: State, ds: seq<Deed>, u: nat): (r: State)
    requires WellFormed(img) && Ok(m) && AllComplete(img, m, ds)
    ensures Ok(r) && Current(r) == Current(m) && r.esp == m.esp0 - TotalCost(ds) - u
  {
    EntersAgain(img, m, ds, u);
    Run(img, m, AllEvents(ds) + [Enter(u)])
  }

  lemma {:induction false} EntersAgain(img: Image, m: State, ds: seq<Deed>, u: nat)
    requires WellFormed(img) && Ok(m) && AllComplete(img, m, ds)
    ensures GoodEvents(AllEvents(ds) + [Enter(u)])
    ensures var r := Run(img, m, AllEvents(ds) + [Enter(u)]);
            r.cur == m.cur && Current(r) == Current(m) && r.esp == m.esp0 - TotalCost(ds) - u
  {
    hide Disjoint, Live, WellFormed, AllEvents, TotalCost, AllComplete;
    CostsAddUp(img, m, ds);
    RunOne(img, Run(img, m, AllEvents(ds)), Enter(u));
    RunAppend(img, m, AllEvents(ds), [Enter(u)]);
  }

  /**
   * If the process started with an empty kernel stack, its control block survives that entry,
   * and the mask of get_current_pcb still finds it, exactly as long as the sum of all the
   * entries stays below these two bounds.
   */
  lemma {:induction false} NextEntryFits(img: Image, m: State, ds: seq<Deed>, u: nat)
    requires WellFormed(img) && Ok(m) && AllComplete(img, m, ds)
    requires m.esp0 == Esp0(TopOf(Current(m)).pid)
    ensures var esp, pid := NextEntry(img, m, ds, u).esp, TopOf(Current(m)).pid;
            && (OnStack(esp, pid) <==> TotalCost(ds) + u <= EIGHT_KB - 4 - PCB_SIZE)
            && (Paging.FOUR_MB <= esp ==> (PcbOf(esp) == PcbAddress(pid) <==> TotalCost(ds) + u <= EIGHT_KB - 4))
  {
    hide Disjoint, Live, Completes, WellFormed, AllEvents, TotalCost, AllComplete, PcbOf, NextEntry;
    var esp, pid := NextEntry(img, m, ds, u).esp, TopOf(Current(m)).pid;
    TopPidInRange(m);
    if Paging.FOUR_MB <= esp {
      MaskRecovers(pid, esp);
    }
  }

  lemma {:induction false} TopPidInRange(m: State)
    requires Ok(m)
    ensures TopOf(Current(m)).pid < MAX_PROCESSES
  {
    assert TopOf(Current(m)).pid in Pids(Current(m));
  }

  // ----- programs that start no others -----

  /** While it runs, the program only enters the kernel and uses its own descriptors. */
  predicate Quiet(es: seq<Event>) {
    forall i :: 0 <= i < |es| ==> es[i].Enter? || es[i].Describe?
  }

  ghost predicate Simple(img: Image, d: Deed)
    requires WellFormed(img)
  {
    && d.Command? && Quiet(d.during) && d.last.Halt?
    && !IsExit(Word(d.text)) && Runnable(img, Word(d.text))
  }

  lemma {:induction false} QuietRun(img: Image, u: State, during: seq<Event>) returns (esp: int, files: FileTable.Table)
    requires WellFormed(img) && Ok(u) && Quiet(during)
    ensures GoodEvents(during) && Run(img, u, during) == Described(u.(esp := esp), files)
    ensures Lasts(img, u, during)
    decreases |during|
  {
    hide Disjoint, Live, WellFormed;
    var top := TopOf(Current(u));
    if during == [] {
      esp, files := u.esp, top.files;
      assert Current(u) == Current(u)[..|Current(u)| - 1] + [top];
    } else {
      StepKeepsOk(img, u, during[0]);
      var v := Step(img, u, during[0]);
      esp, files := QuietRun(img, v, during[1..]);
      assert Current(v)[..|Current(v)| - 1] == Current(u)[..|Current(u)| - 1];
    }
  }

  /** Where the kernel stack stands after commands that cost so much. */
  function Lowered(m: State, cost: nat): State {
    m.(esp := m.esp0 - cost, esp0 := m.esp0 - cost)
  }

  lemma {:induction false} SimpleCompletes(img: Image, m: State, d: Deed)
    requires WellFormed(img) && Ok(m) && Simple(img, d) && Total(m) < MAX_PROCESSES
    ensures Completes(img, m, d) && GoodEvents(Events(d)) && Run(img, m, Events(d)) == Lowered(m, Cost(d))
  {
    hide Disjoint, Live, FreePidFrom, Runnable, IsExit, WellFormed, ArgText, Word, Lasts, Described;
    var e := Step(img, m, Enter(d.used));
    var u := Begun(img, m, d);
    assert u == Launched(e, ArgText(d.text));
    var esp, files := QuietRun(img, u, d.during);
    CommandRuns(img, m, d);
    var v := Run(img, u, d.during);
    PopForgetsFiles(u.(esp := esp), files);
    PopUndoesLaunch(e, ArgText(d.text), esp);
    assert |Current(v)| > 1 by { DescribedLength(u.(esp := esp), files); }
    HaltPops(img, v, d.last);
  }

  lemma {:induction false} DescribedLength(m: State, files: FileTable.Table)
    requires Shape(m) && Current(m) != []
    ensures Shape(Described(m, files)) && |Current(Described(m, files))| == |Current(m)|
  {
  }

  ghost predicate AllSimple(img: Image, ds: seq<Deed>)
    requires WellFormed(img)
  {
    forall i :: 0 <= i < |ds| ==> ds[i].Call? || Simple(img, ds[i])
  }

  /** All that is left of system calls and commands: the kernel is entered `cost` bytes further down. */
  predicate Below(m: State, cost: nat, r: State) {
    r == m.(esp := r.esp, esp0 := m.esp0 - cost)
  }

  lemma {:induction false} SimpleStep(img: Image, m: State, d: Deed)
    requires WellFormed(img) && Ok(m) && (d.Call? || Simple(img, d)) && Total(m) < MAX_PROCESSES
    ensures Completes(img, m, d) && GoodEvents(Events(d)) && Below(m, Cost(d), Run(img, m, Events(d)))
  {
    hide Disjoint, Live, Total, Completes, Simple, WellFormed;
    if d.Call? {
      RunOne(img, m, Enter(d.used));
      CallCompletes(img, m, d);
    } else {
      SimpleCompletes(img, m, d);
    }
  }

  lemma {:induction false} CallCompletes(img: Image, m: State, d: Deed)
    requires WellFormed(img) && Ok(m) && d.Call?
    ensures Completes(img, m, d)
  {
  }

  /** Such deeds can be done one after the other, for ever. */
  lemma {:induction false} SimpleRun(img: Image, m: State, ds: seq<Deed>)
    requires WellFormed(img) && Ok(m) && AllSimple(img, ds) && Total(m) < MAX_PROCESSES
    ensures AllComplete(img, m, ds) && GoodEvents(AllEvents(ds))
    ensures Below(m, TotalCost(ds), Run(img, m, AllEvents(ds)))
    decreases |ds|
  {
    hide Disjoint, Live, Completes, Events, Simple, Step, WellFormed, Cost;
    if ds != [] {
      SimpleStep(img, m, ds[0]);
      var u := Run(img, m, Events(ds[0]));
      SimpleRun(img, u, ds[1..]);
      RunAppend(img, m, Events(ds[0]), AllEvents(ds[1..]));
    }
  }

  /** The same program again and again, which enters the kernel and halts. */
  function Repeated(text: seq<Byte>, used: nat, child: nat, n: nat): (ds: seq<Deed>)
    ensures |ds| == n && forall i :: 0 <= i < n ==> ds[i] == Command(text, used, [Enter(child)], Halt(0))
    ensures n > 0 ==> ds[1..] == Repeated(text, used, child, n - 1)
  {
    seq(n, _ => Command(text, used, [Enter(child)], Halt(0)))
  }

  lemma {:induction false} MulNext(n: nat, u: nat)
    ensures n * u == (n - 1) * u + u
  {
  }

  lemma {:induction false} RepeatedCost(text: seq<Byte>, used: nat, child: nat, n: nat)
    ensures TotalCost(Repeated(text, used, child, n)) == n * used
  {
    hide Repeated;
    if n > 0 {
      assert Repeated(text, used, child, n)[0].used == used;
      RepeatedCost(text, used, child, n - 1);
      MulNext(n, used);
    }
  }

  lemma {:induction false} DivisionBounds(a: nat, b: nat)
    requires b > 0
    ensures a / b * b <= a < a / b * b + b
  {
    assert a == a / b * b + a % b;
  }

  /** What an empty kernel stack holds. */
  const STACK_SIZE: nat := EIGHT_KB - 4 - PCB_SIZE

  lemma {:induction false} JustOutside(pid: nat, cost: nat, u: nat)
    requires pid < MAX_PROCESSES && u <= EIGHT_KB && cost <= STACK_SIZE < cost + u
    ensures var esp := Esp0(pid) - cost - u;
            && Paging.FOUR_MB <= esp && !OnStack(esp, pid)
            && PcbOf(esp) == if cost + u <= EIGHT_KB - 4 then PcbAddress(pid) else PcbAddress(pid + 1)
  {
    hide PcbOf;
    var esp := Esp0(pid) - cost - u;
    if cost + u <= EIGHT_KB - 4 {
      MaskRecovers(pid, esp);
    } else {
      MaskRecovers(pid + 1, esp);
    }
  }

  /**
   * So a shell that starts programs runs out of its kernel stack, however few bytes `u` an
   * entry takes: this many commands fit, and at the next one the kernel's stack runs into
   * the shell's control block, or over it into the block of the next pid, which is then the
   * one that get_current_pcb finds.
   */
  lemma {:induction false} StackRunsOut(img: Image, m: State, text: seq<Byte>, u: nat, child: nat) returns (n: nat)
    requires WellFormed(img) && Ok(m) && !IsExit(Word(text)) && Runnable(img, Word(text)) && Total(m) < MAX_PROCESSES
    requires m.esp0 == Esp0(TopOf(Current(m)).pid) && 0 < u <= EIGHT_KB
    ensures n == STACK_SIZE / u && AllComplete(img, m, Repeated(text, u, child, n))
    ensures AllFit(img, m, Repeated(text, u, child, n), TopOf(Current(m)).pid)
    ensures var esp, pid := NextEntry(img, m, Repeated(text, u, child, n), u).esp, TopOf(Current(m)).pid;
            && Paging.FOUR_MB <= esp && !OnStack(esp, pid)
            && PcbOf(esp) == if n * u + u <= EIGHT_KB - 4 then PcbAddress(pid) else PcbAddress(pid + 1)
  {
    hide Disjoint, Live, Total, Completes, WellFormed, AllEvents, TotalCost, AllComplete, PcbOf, Repeated, Runnable,
      IsExit, NextEntry, AllFit, Within;
    n := STACK_SIZE / u;
    var ds := Repeated(text, u, child, n);
    SimpleRun(img, m, ds);
    RepeatedCost(text, u, child, n);
    DivisionBounds(STACK_SIZE, u);
    TopPidInRange(m);
    AllFitIff(img, m, ds, TopOf(Current(m)).pid);
    WithinIsSum(ds, STACK_SIZE);
    JustOutside(TopOf(Current(m)).pid, n * u, u);
  }
}
