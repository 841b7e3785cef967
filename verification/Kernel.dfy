/**
 * The kernel's own records (syscalls.c, terminal.c): a bitmap of pids, a control block per
 * pid, a counter and a top pid per terminal, the page directory and the kernel stack
 * pointers.  Every step is shown to do to these records what `Machine` does to the stacks.
 */
module Kernel {
  import opened Bytes
  import FileTable
  import opened Limits
  import opened Rofs
  import Paging
  import opened PcbLayout
  import opened Machine

  const COMMAND_SIZE := 128
  const MAX_ARGS_LENGTH := 128

  // ----- the pid bitmap -----

  /** `1 << i` for a pid. */
  function PidBit(i: nat): bv8
    requires i < MAX_PROCESSES
  {
    match i case 0 => 1 case 1 => 2 case 2 => 4 case 3 => 8 case 4 => 16 case _ => 32
  }

  lemma {:induction false} PidBitIs(i: nat)
    requires i < 6
    ensures PidBit(i) == (1 as bv8) << i
  {
  }

  predicate IsSet(flags: bv8, i: nat)
    requires i < MAX_PROCESSES
  {
    flags & PidBit(i) != 0
  }

  lemma {:induction false} SetBit(flags: bv8, i: nat, j: nat)
    requires i < MAX_PROCESSES && j < MAX_PROCESSES
    ensures IsSet(flags | PidBit(i), j) <==> IsSet(flags, j) || i == j
    ensures IsSet(flags & !PidBit(i), j) <==> IsSet(flags, j) && i != j
  {
  }

  /** The bitmap holds exactly these pids, and no other bit is set. */
  ghost predicate Holds(flags: bv8, live: set<nat>) {
    flags & 0xC0 == 0 && forall i: nat :: i < MAX_PROCESSES ==> (IsSet(flags, i) <==> i in live)
  }

  lemma {:induction false} HoldsAdd(flags: bv8, live: set<nat>, i: nat)
    requires Holds(flags, live) && i < MAX_PROCESSES
    ensures Holds(flags | PidBit(i), live + {i}) && Holds(flags & !PidBit(i), live - {i})
  {
    forall j: nat | j < MAX_PROCESSES
      ensures IsSet(flags | PidBit(i), j) <==> j in live + {i}
      ensures IsSet(flags & !PidBit(i), j) <==> j in live - {i}
    {
      SetBit(flags, i, j);
    }
  }

  /** An empty word means that no process lives. */
  lemma {:induction false} NoneSet(flags: bv8, live: set<nat>)
    requires Holds(flags, live) && live <= ALL_PIDS
    ensures flags == 0 <==> live == {}
  {
    assert forall i: nat :: i < MAX_PROCESSES ==> (i in live <==> IsSet(flags, i));
    if live == {} {
      assert !IsSet(flags, 0) && !IsSet(flags, 1) && !IsSet(flags, 2);
      assert !IsSet(flags, 3) && !IsSet(flags, 4) && !IsSet(flags, 5);
    }
    if flags == 0 {
      assert !IsSet(flags, 0) && !IsSet(flags, 1) && !IsSet(flags, 2);
      assert !IsSet(flags, 3) && !IsSet(flags, 4) && !IsSet(flags, 5);
    }
  }

  // ----- records -----

  datatype Pcb = Pcb(pid: nat, parentPid: nat, parentEsp: int, args: seq<Byte>, files: FileTable.Table)

  datatype Terminal = Terminal(esp: int, termPid: nat, numProcesses: int, init: bool)

  datatype Records = Records(pcbs: seq<Pcb>, terminal: seq<Terminal>, flags: bv8)

  /** The argument buffer of a control block holds this text, then NULs. */
  ghost predicate ArgsOk(b: Pcb, args: seq<Byte>) {
    |args| < MAX_ARGS_LENGTH && Lacks(args, NUL) && b.args == Padded(args, MAX_ARGS_LENGTH)
  }

  /**
   * `b` is the control block of a process on top of `below`: its parent is the top there,
   * or itself at the bottom, and `caller` the stack pointer to go on with.
   */
  ghost predicate ParentOk(b: Pcb, caller: int, below: Stack) {
    && b.parentEsp == caller
    && if below == [] then b.parentPid == b.pid
       else b.parentPid == TopOf(below).pid && OnStack(caller, TopOf(below).pid)
  }

  /** Every element of the stack has its control block. */
  ghost predicate PcbsOk(pcbs: seq<Pcb>, a: Stack)
    requires |pcbs| == MAX_PROCESSES
    decreases |a|
  {
    a == [] || (
      var p, below := TopOf(a), a[..|a| - 1];
      && PcbsOk(pcbs, below)
      && p.pid < MAX_PROCESSES && pcbs[p.pid].pid == p.pid && pcbs[p.pid].files == p.files
      && ArgsOk(pcbs[p.pid], p.args) && ParentOk(pcbs[p.pid], p.caller, below))
  }

  /**
   * A terminal's counter, top pid, saved stack pointer and launch flag; the current terminal
   * may be about to get its first process.
   */
  ghost predicate TerminalOk(r: Terminal, a: Stack, saved: int, current: bool) {
    && r.numProcesses == |a| && r.esp == saved
    && (a != [] ==> r.termPid == TopOf(a).pid)
    && (if current then r.init else (r.init <==> a != []) && (a != [] ==> OnStack(saved, TopOf(a).pid)))
  }

  ghost predicate TerminalAgrees(pcbs: seq<Pcb>, terminal: seq<Terminal>, m: State, t: nat)
    requires Shape(m) && t < MAX_TERMINALS && |pcbs| == MAX_PROCESSES && |terminal| == MAX_TERMINALS
  {
    PcbsOk(pcbs, m.stacks[t]) && TerminalOk(terminal[t], m.stacks[t], m.saved[t], t == m.cur - 1)
  }

  /** The records stand for the three stacks. */
  ghost predicate Agree(r: Records, m: State) {
    && Shape(m) && Disjoint(m) && |r.pcbs| == MAX_PROCESSES && |r.terminal| == MAX_TERMINALS
    && Holds(r.flags, Live(m))
    && (forall t :: 0 <= t < MAX_TERMINALS ==> TerminalAgrees(r.pcbs, r.terminal, m, t))
  }

  /** Rewriting a block that no element uses. */
  lemma {:induction false} PcbsStay(pcbs: seq<Pcb>, a: Stack, pid: nat, b: Pcb)
    requires |pcbs| == MAX_PROCESSES && PcbsOk(pcbs, a) && pid < MAX_PROCESSES && pid !in Pids(a)
    ensures PcbsOk(pcbs[pid := b], a)
    decreases |a|
  {
    if a != [] {
      PcbsStay(pcbs, a[..|a| - 1], pid, b);
    }
  }

  lemma {:induction false} PcbsPush(pcbs: seq<Pcb>, a: Stack, p: Proc, b: Pcb)
    requires |pcbs| == MAX_PROCESSES && PcbsOk(pcbs, a) && p.pid < MAX_PROCESSES && p.pid !in Pids(a)
    requires b.pid == p.pid && b.files == p.files && ArgsOk(b, p.args) && ParentOk(b, p.caller, a)
    ensures PcbsOk(pcbs[p.pid := b], a + [p])
  {
    PcbsStay(pcbs, a, p.pid, b);
    assert (a + [p])[..|a|] == a;
  }

  function TerminalsAfterLaunch(terminal: seq<Terminal>, cur: int, pid: nat): (r: seq<Terminal>)
    requires |terminal| == MAX_TERMINALS && 1 <= cur <= MAX_TERMINALS
    ensures |r| == MAX_TERMINALS
  {
    terminal[cur - 1 := terminal[cur - 1].(numProcesses := terminal[cur - 1].numProcesses + 1, termPid := pid)]
  }

  /** What launching a process does to the records. */
  function AfterLaunch(r: Records, cur: int, b: Pcb): Records
    requires |r.terminal| == MAX_TERMINALS && 1 <= cur <= MAX_TERMINALS && b.pid < |r.pcbs| == MAX_PROCESSES
  {
    Records(r.pcbs[b.pid := b], TerminalsAfterLaunch(r.terminal, cur, b.pid), r.flags | PidBit(b.pid))
  }

  /** The control block that create_pcb fills in; `was` is what the memory held. */
  function NewPcb(was: Pcb, m: State, pid: nat): Pcb
    requires Shape(m)
  {
    was.(pid := pid, parentPid := if Current(m) == [] then pid else TopOf(Current(m)).pid,
         files := FileTable.NewTable(), args := Padded([], MAX_ARGS_LENGTH))
  }

  /** The same, as the code computes it from the terminal's record. */
  function Filled(was: Pcb, t: Terminal, pid: nat): Pcb {
    was.(pid := pid, parentPid := if t.numProcesses == 0 then pid else t.termPid,
         files := FileTable.NewTable(), args := Padded([], MAX_ARGS_LENGTH))
  }

  /** What create_pcb does to the records. */
  function AfterCreate(r: Records, m: State, pid: nat): Records
    requires |r.pcbs| == MAX_PROCESSES && pid < MAX_PROCESSES && Shape(m)
  {
    Records(r.pcbs[pid := NewPcb(r.pcbs[pid], m, pid)], r.terminal, r.flags | PidBit(pid))
  }

  lemma {:induction false} LaunchTerminal(pcbs: seq<Pcb>, terminal: seq<Terminal>, m: State, p: Proc, b: Pcb, t: nat)
    requires Shape(m) && t < MAX_TERMINALS && |pcbs| == MAX_PROCESSES && |terminal| == MAX_TERMINALS
    requires TerminalAgrees(pcbs, terminal, m, t) && PcbsOk(pcbs, Current(m))
    requires b.pid == p.pid < MAX_PROCESSES && p.pid !in Pids(m.stacks[t])
    requires b.files == p.files && ArgsOk(b, p.args) && ParentOk(b, p.caller, Current(m))
    ensures TerminalAgrees(pcbs[b.pid := b], TerminalsAfterLaunch(terminal, m.cur, b.pid),
                           WithCurrent(m, Current(m) + [p]), t)
  {
    hide Pids, PcbsOk, ParentOk, ArgsOk, OnStack;
    var now, u := WithCurrent(m, Current(m) + [p]), TerminalsAfterLaunch(terminal, m.cur, b.pid);
    if t == m.cur - 1 {
      PcbsPush(pcbs, Current(m), p, b);
      assert now.stacks[t] == Current(m) + [p] && TopOf(now.stacks[t]) == p;
    } else {
      PcbsStay(pcbs, m.stacks[t], b.pid, b);
      assert now.stacks[t] == m.stacks[t] && u[t] == terminal[t];
    }
  }

  lemma {:induction false} LaunchAgrees(r: Records, m: State, args: seq<Byte>, b: Pcb)
    requires Agree(r, m) && Total(m) < MAX_PROCESSES
    requires b.pid == FreePidFrom(m, 0) < MAX_PROCESSES && b.files == FileTable.NewTable()
    requires ArgsOk(b, args) && ParentOk(b, m.esp, Current(m))
    ensures Agree(AfterLaunch(r, m.cur, b), Launched(m, args))
  {
    hide Pids, PidsDistinct, FreePidFrom, PcbsOk, ParentOk, ArgsOk, Holds, PidBit, TerminalsAfterLaunch;
    LaunchKeeps(m, args);
    HoldsAdd(r.flags, Live(m), b.pid);
    assert PcbsOk(r.pcbs, Current(m)) by { assert TerminalAgrees(r.pcbs, r.terminal, m, m.cur - 1); }
    var u := AfterLaunch(r, m.cur, b);
    forall t | 0 <= t < MAX_TERMINALS ensures TerminalAgrees(u.pcbs, u.terminal, Launched(m, args), t) {
      assert TerminalAgrees(r.pcbs, r.terminal, m, t);
      LaunchTerminal(r.pcbs, r.terminal, m, NewProc(m, args), b, t);
    }
  }

  function TerminalsAfterPop(terminal: seq<Terminal>, cur: int, top: nat): (r: seq<Terminal>)
    requires |terminal| == MAX_TERMINALS && 1 <= cur <= MAX_TERMINALS
    ensures |r| == MAX_TERMINALS
  {
    terminal[cur - 1 := terminal[cur - 1].(numProcesses := terminal[cur - 1].numProcesses - 1, termPid := top)]
  }

  /** What a halt does to the records before anything else is started; `top` is the new top pid. */
  function AfterPop(r: Records, cur: int, pid: nat, top: nat): Records
    requires |r.terminal| == MAX_TERMINALS && 1 <= cur <= MAX_TERMINALS && pid < MAX_PROCESSES
  {
    Records(r.pcbs, TerminalsAfterPop(r.terminal, cur, top), r.flags & !PidBit(pid))
  }

  lemma {:induction false} PopTerminal(pcbs: seq<Pcb>, terminal: seq<Terminal>, m: State, top: nat, t: nat)
    requires Shape(m) && t < MAX_TERMINALS && |pcbs| == MAX_PROCESSES && |terminal| == MAX_TERMINALS
    requires TerminalAgrees(pcbs, terminal, m, t) && Current(m) != []
    requires Current(Popped(m)) != [] ==> top == TopOf(Current(Popped(m))).pid
    ensures TerminalAgrees(pcbs, TerminalsAfterPop(terminal, m.cur, top), Popped(m), t)
  {
    hide Pids, ParentOk, ArgsOk;
  }

  lemma {:induction false} PopAgrees(r: Records, m: State, top: nat)
    requires Agree(r, m) && Current(m) != []
    requires Current(Popped(m)) != [] ==> top == TopOf(Current(Popped(m))).pid
    ensures TopOf(Current(m)).pid < MAX_PROCESSES && Agree(AfterPop(r, m.cur, TopOf(Current(m)).pid, top), Popped(m))
  {
    hide Pids, PidsDistinct, PcbsOk, Holds, PidBit, TerminalsAfterPop;
    TopPcb(r, m);
    PopKeeps(m);
    HoldsAdd(r.flags, Live(m), TopOf(Current(m)).pid);
    var u := AfterPop(r, m.cur, TopOf(Current(m)).pid, top);
    forall t | 0 <= t < MAX_TERMINALS ensures TerminalAgrees(u.pcbs, u.terminal, Popped(m), t) {
      assert TerminalAgrees(r.pcbs, r.terminal, m, t);
      PopTerminal(r.pcbs, r.terminal, m, top, t);
    }
  }

  /** The control block of the running process. */
  lemma {:induction false} TopPcb(r: Records, m: State)
    requires Agree(r, m) && Current(m) != []
    ensures var p := TopOf(Current(m));
            && p.pid < MAX_PROCESSES && r.pcbs[p.pid].pid == p.pid && r.pcbs[p.pid].files == p.files
            && ArgsOk(r.pcbs[p.pid], p.args) && ParentOk(r.pcbs[p.pid], p.caller, Current(Popped(m)))
  {
    hide Pids, PidsDistinct, ParentOk, ArgsOk, Holds;
    assert TerminalAgrees(r.pcbs, r.terminal, m, m.cur - 1);
    assert PcbsOk(r.pcbs, Current(m));
  }

  /** What a descriptor call does to the records of the running process. */
  function AfterDescribe(r: Records, pid: nat, files: FileTable.Table): Records
    requires pid < |r.pcbs|
  {
    r.(pcbs := r.pcbs[pid := r.pcbs[pid].(files := files)])
  }

  lemma {:induction false} PcbsDescribe(pcbs: seq<Pcb>, a: Stack, p: Proc, files: FileTable.Table)
    requires |pcbs| == MAX_PROCESSES && PcbsOk(pcbs, a + [p]) && p.pid < MAX_PROCESSES && p.pid !in Pids(a)
    ensures PcbsOk(pcbs[p.pid := pcbs[p.pid].(files := files)], a + [p.(files := files)])
  {
    assert (a + [p])[..|a|] == a && TopOf(a + [p]) == p;
    PcbsPush(pcbs, a, p.(files := files), pcbs[p.pid].(files := files));
  }

  lemma {:induction false} DescribeTerminal(pcbs: seq<Pcb>, terminal: seq<Terminal>, m: State, files: FileTable.Table,
                                            t: nat)
    requires Shape(m) && Disjoint(m) && t < MAX_TERMINALS && |pcbs| == MAX_PROCESSES && |terminal| == MAX_TERMINALS
    requires TerminalAgrees(pcbs, terminal, m, t) && Current(m) != [] && TopOf(Current(m)).pid < MAX_PROCESSES
    ensures var pid := TopOf(Current(m)).pid;
            TerminalAgrees(pcbs[pid := pcbs[pid].(files := files)], terminal, Described(m, files), t)
  {
    hide PcbsOk, OnStack, Live, Pids, PidsDistinct;
    var p, below := TopOf(Current(m)), Current(m)[..|Current(m)| - 1];
    assert Current(m) == below + [p];
    PidsPush(below, p);
    if t == m.cur - 1 {
      PcbsDescribe(pcbs, below, p, files);
    } else {
      PcbsStay(pcbs, m.stacks[t], p.pid, pcbs[p.pid].(files := files));
    }
  }

  lemma {:induction false} DescribeAgrees(r: Records, m: State, files: FileTable.Table)
    requires Agree(r, m) && Current(m) != []
    ensures TopOf(Current(m)).pid < |r.pcbs|
    ensures Agree(AfterDescribe(r, TopOf(Current(m)).pid, files), Described(m, files))
  {
    hide Pids, PidsDistinct, PcbsOk, Holds, Described;
    TopPcb(r, m);
    DescribeKeeps(m, files);
    var u := AfterDescribe(r, TopOf(Current(m)).pid, files);
    forall t | 0 <= t < MAX_TERMINALS ensures TerminalAgrees(u.pcbs, u.terminal, Described(m, files), t) {
      assert TerminalAgrees(r.pcbs, r.terminal, m, t);
      DescribeTerminal(r.pcbs, r.terminal, m, files, t);
    }
  }

  /** What switching does to the records: the stack pointer is saved, the new terminal counts as launched. */
  function AfterSwitch(r: Records, cur: int, term: int, esp: int): Records
    requires |r.terminal| == MAX_TERMINALS && 1 <= cur <= MAX_TERMINALS && 1 <= term <= MAX_TERMINALS && cur != term
  {
    r.(terminal := r.terminal[cur - 1 := r.terminal[cur - 1].(esp := esp)]
                             [term - 1 := r.terminal[term - 1].(init := true)])
  }

  lemma {:induction false} SwitchAgrees(r: Records, m: State, term: int)
    requires Agree(r, m) && Current(m) != [] && OnStack(m.esp, TopOf(Current(m)).pid)
    requires 1 <= term <= MAX_TERMINALS && term != m.cur
    ensures Agree(AfterSwitch(r, m.cur, term, m.esp), Left(m, term))
  {
    hide Pids, PidsDistinct, PcbsOk, Holds, OnStack;
    assert forall t :: 0 <= t < MAX_TERMINALS && TerminalAgrees(r.pcbs, r.terminal, m, t) ==>
      TerminalAgrees(r.pcbs, AfterSwitch(r, m.cur, term, m.esp).terminal, Left(m, term), t);
  }

  lemma {:induction false} CountersAre(r: Records, m: State)
    requires Agree(r, m)
    ensures r.terminal[0].numProcesses + r.terminal[1].numProcesses + r.terminal[2].numProcesses == Total(m)
  {
    hide Pids, PidsDistinct, PcbsOk, Holds;
    assert TerminalAgrees(r.pcbs, r.terminal, m, 0) && TerminalAgrees(r.pcbs, r.terminal, m, 1)
        && TerminalAgrees(r.pcbs, r.terminal, m, 2);
  }

  lemma {:induction false} AgreeShape(r: Records, m: State)
    requires Agree(r, m)
    ensures Shape(m) && Disjoint(m) && |r.pcbs| == MAX_PROCESSES && |r.terminal| == MAX_TERMINALS
  {
  }

  /** What the record of the current terminal says. */
  lemma {:induction false} CurrentTerminalIs(r: Records, m: State)
    requires Agree(r, m)
    ensures 1 <= m.cur <= |r.terminal| && |m.stacks| == MAX_TERMINALS
    ensures r.terminal[m.cur - 1].numProcesses == 0 <==> Current(m) == []
    ensures Current(m) != [] ==> r.terminal[m.cur - 1].termPid == TopOf(Current(m)).pid
  {
    TerminalIs(r, m, m.cur - 1);
  }

  lemma {:induction false} FilledIs(r: Records, m: State, pid: nat)
    requires Agree(r, m) && pid < MAX_PROCESSES
    ensures Shape(m) && |r.pcbs| == MAX_PROCESSES && |r.terminal| == MAX_TERMINALS
    ensures AfterCreate(r, m, pid)
      == Records(r.pcbs[pid := Filled(r.pcbs[pid], r.terminal[m.cur - 1], pid)], r.terminal, r.flags | PidBit(pid))
  {
    CurrentTerminalIs(r, m);
  }

  /** The records do not depend on where the kernel stack stands. */
  lemma {:induction false} AgreeWith(r: Records, m: State, esp: int, esp0: int)
    requires Agree(r, m)
    ensures Agree(r, m.(esp := esp, esp0 := esp0))
  {
    hide Pids, PidsDistinct, PcbsOk, Holds, TerminalOk;
    assert forall t :: 0 <= t < MAX_TERMINALS && TerminalAgrees(r.pcbs, r.terminal, m, t) ==>
      TerminalAgrees(r.pcbs, r.terminal, m.(esp := esp, esp0 := esp0), t);
  }

  /** What the record of terminal `t` says. */
  lemma {:induction false} TerminalIs(r: Records, m: State, t: nat)
    requires Agree(r, m) && t < MAX_TERMINALS
    ensures TerminalOk(r.terminal[t], m.stacks[t], m.saved[t], t == m.cur - 1)
  {
    hide Pids, PidsDistinct, PcbsOk, Holds;
    assert TerminalAgrees(r.pcbs, r.terminal, m, t);
  }

  /** The bitmap is empty only when all stacks are. */
  lemma {:induction false} SomeBitIsSet(r: Records, m: State)
    requires Agree(r, m) && Current(m) != []
    ensures r.flags != 0
  {
    hide PidsDistinct, PcbsOk, TerminalOk, Holds;
    NoneSet(r.flags, Live(m));
    assert TopOf(Current(m)).pid in Pids(Current(m));
  }

  // ----- the kernel -----

  class Kernel {
    const img: Image
    const paging: Paging.PageTables
    const pcbs: array<Pcb>
    const terminal: array<Terminal>
    var processesFlags: bv8
    var termCur: int
    /** The kernel stack pointer, and the one the processor loads on entry to the kernel. */
    var esp: int
    var esp0: int
    /** The stacks this state stands for. */
    ghost var machine: State

    constructor (img: Image, paging: Paging.PageTables)
      ensures this.img == img && this.paging == paging && fresh(pcbs) && fresh(terminal)
      ensures pcbs.Length == MAX_PROCESSES && terminal.Length == MAX_TERMINALS && processesFlags == 0
    {
      this.img, this.paging := img, paging;
      pcbs := new Pcb[MAX_PROCESSES](_ => Pcb(0, 0, 0, [], []));
      terminal := new Terminal[MAX_TERMINALS](_ => Terminal(0, 0, 0, false));
      processesFlags := 0;
    }

    ghost function Repr(): set<object> {
      {this, pcbs, terminal, paging, paging.pageDir, paging.pageTable, paging.userTable}
    }

    ghost function Recs(): Records
      reads this, pcbs, terminal
    {
      Records(pcbs[..], terminal[..], processesFlags)
    }

    ghost predicate ImageOk() {
      WellFormed(img) && Runnable(img, SHELL)
    }

    /** The records agree with the stacks, whatever process is running. */
    ghost predicate Books()
      reads Repr()
    {
      && ImageOk() && pcbs.Length == MAX_PROCESSES && terminal.Length == MAX_TERMINALS
      && paging.Valid() && paging.space.terms == MAX_TERMINALS
      && Shape(machine) && Agree(Recs(), machine) && termCur == machine.cur
      && esp == machine.esp && esp0 == machine.esp0
    }

    /** The running process is the top of the current stack: it is mapped, and interrupts use its kernel stack. */
    ghost predicate Running()
      reads this, paging
    {
      && Shape(machine) && Current(machine) != []
      && OnStack(esp0, TopOf(Current(machine)).pid)
      && paging.space.top == Option.Some(TopOf(Current(machine)).pid)
    }

    ghost predicate Valid()
      reads Repr()
    {
      Books() && Running()
    }

    /** The kernel was entered from the top process, and the stack pointer has not left its block. */
    ghost predicate Entered()
      reads this
    {
      Shape(machine) && Current(machine) != [] && OnStack(esp, TopOf(Current(machine)).pid)
    }

    /**
     * An interrupt or system call from the running program: the processor takes the kernel
     * stack from the TSS, and `used` bytes of it come into use.  Whether they fit above the
     * process's control block depends on where the TSS points.
     */
    method EnterKernel(used: nat)
      requires Valid()
      modifies this`esp, this`machine
      ensures Valid() && esp0 == machine.esp0 && machine == old(machine).(esp := esp0 - used)
      ensures Entered() <==> used <= esp0 - (PcbAddress(TopOf(Current(machine)).pid) + PCB_SIZE)
    {
      hide Agree, Paging.PageTables.Valid, WellFormed, Runnable, Pids, PidsDistinct, Disjoint, Live;
      AgreeWith(Recs(), machine, esp0 - used, esp0);
      esp := esp0 - used;
      machine := machine.(esp := esp);
    }

    lemma {:induction false} ValidBooks()
      requires Valid()
      ensures Books()
    {
    }

    /** can_execute. */
    method CanExecute() returns (r: bool)
      requires Books()
      ensures r <==> Total(machine) < 6
    {
      hide WellFormed, Runnable, Pids, PidsDistinct, PcbsOk, Holds;
      CountersAre(Recs(), machine);
      var i, total := 0, 0;
      while i < 3
        invariant 0 <= i <= 3
        invariant total == (if i > 0 then terminal[0].numProcesses else 0)
                         + (if i > 1 then terminal[1].numProcesses else 0)
                         + (if i > 2 then terminal[2].numProcesses else 0)
      {
        total := total + terminal[i].numProcesses;
        i := i + 1;
      }
      return total < MAX_PROCESSES;
    }

    /** get_new_pid: the least pid whose bit is clear. */
    method GetNewPid() returns (pid: int)
      requires Books()
      modifies this`processesFlags
      ensures var free := FreePidFrom(machine, 0); pid == if free < MAX_PROCESSES then free else -1
      ensures processesFlags ==
        if 0 <= pid < MAX_PROCESSES then old(processesFlags) | PidBit(pid) else old(processesFlags)
    {
      hide Pids, PidsDistinct, PcbsOk, WellFormed, Runnable, TerminalOk;
      var i := 0;
      while i < MAX_PROCESSES
        invariant 0 <= i <= MAX_PROCESSES && processesFlags == old(processesFlags)
        invariant FreePidFrom(machine, 0) == FreePidFrom(machine, i)
      {
        assert IsSet(processesFlags, i) <==> i in Live(machine);
        if processesFlags & PidBit(i) == 0 {
          processesFlags := processesFlags | PidBit(i);
          return i;
        }
        i := i + 1;
      }
      return -1;
    }

    /** get_current_pcb: the block the stack pointer is in, as the number of the block. */
    method GetCurrentPcb() returns (k: nat)
      requires Books() && Entered()
      ensures k == TopOf(Current(machine)).pid && k < MAX_PROCESSES
    {
      hide Pids, PidsDistinct, PcbsOk, WellFormed, Runnable, TerminalOk, Holds, InBlock;
      ghost var pid := TopOf(Current(machine)).pid;
      TopPcb(Recs(), machine);
      BlockFacts(pid, pid, esp);
      MaskRecovers(pid, esp);
      PidAtAddress(pid);
      return PidAt(PcbOf(esp));
    }

    // ----- execute -----

    /** The loop of execute that copies the command word. */
    method CopyWord(command: seq<Byte>) returns (i: nat, comBuf: array<Byte>)
      requires |command| < COMMAND_SIZE
      ensures i == WordLength(command) && fresh(comBuf) && CString(comBuf[..]) == Word(command)
    {
      comBuf := new Byte[COMMAND_SIZE](_ => NUL);
      i := 0;
      while CharAt(command, i) != SPACE && CharAt(command, i) != NUL && CharAt(command, i) != NEWLINE
        invariant 0 <= i <= WordLength(command)
        invariant forall k {:trigger comBuf[k]} :: 0 <= k < COMMAND_SIZE ==>
          comBuf[k] == if k < i then command[k] else NUL
        decreases |command| - i
      {
        comBuf[i] := command[i];
        i := i + 1;
      }
      assert i == WordLength(command);
      comBuf[i] := NUL;
      IndexOfIs(comBuf[..], NUL, i);
      assert CString(comBuf[..]) == Word(command);
    }

    /** The loop of execute that copies the arguments behind a space. */
    method CopyArgs(command: seq<Byte>, i: nat) returns (argBuf: array<Byte>)
      requires |command| < COMMAND_SIZE && i == WordLength(command)
      ensures fresh(argBuf) && argBuf.Length == COMMAND_SIZE && CString(argBuf[..]) == ArgText(command)
      ensures |ArgText(command)| < MAX_ARGS_LENGTH
    {
      hide WordLength, LineLength;
      argBuf := new Byte[COMMAND_SIZE](_ => NUL);
      if CharAt(command, i) == SPACE {
        ghost var line := command[i + 1..];
        var argStart := i + 1;
        var j := 0;
        while CharAt(command, j + argStart) != NUL && CharAt(command, j + argStart) != NEWLINE
          invariant 0 <= j <= LineLength(line)
          invariant forall k {:trigger argBuf[k]} :: 0 <= k < COMMAND_SIZE ==>
            argBuf[k] == if k < j then line[k] else NUL
          decreases |command| - j
        {
          assert line[j] == command[j + argStart];
          argBuf[j] := command[j + argStart];
          j := j + 1;
        }
        assert j < |line| ==> line[j] == command[j + argStart];
        assert j == LineLength(line);
        argBuf[j] := NUL;
        IndexOfIs(argBuf[..], NUL, j);
        assert CString(argBuf[..]) == ArgText(command);
      } else {
        IndexOfIs(argBuf[..], NUL, 0);
      }
    }

    /** The check of the first four bytes of a file. */
    method HasMagic(inode: nat) returns (ok: bool)
      requires WellFormed(img)
      ensures ok <==> Slice(img, inode, 0, |MAGIC|) == Option.Some(MAGIC)
    {
      var buffer := new Byte[4](_ => 0);
      var n := ReadData(img, inode, 0, buffer, 0, 4);
      ghost var s := Slice(img, inode, 0, 4);
      assert s.Some? && |s.value| < 4 ==> buffer[3] == 0;
      ok := !(buffer[0] != MAGIC[0] || buffer[1] != MAGIC[1] || buffer[2] != MAGIC[2] || buffer[3] != MAGIC[3]);
      if ok {
        assert s.value == MAGIC;
      }
    }

    /** create_pcb, but for the descriptors: -1 stands for NULL. */
    method CreatePcb() returns (pid: int)
      requires Books()
      modifies this`processesFlags, pcbs
      ensures var free := FreePidFrom(machine, 0); pid == if free < MAX_PROCESSES then free else -1
      ensures Recs() == if 0 <= pid < MAX_PROCESSES then AfterCreate(old(Recs()), machine, pid) else old(Recs())
    {
      hide Agree, WellFormed, Runnable, PidBit, FreePidFrom, Paging.PageTables.Valid, TerminalOk, AfterCreate, Filled;
      ghost var r := Recs();
      AgreeShape(r, machine);
      pid := GetNewPid();
      if pid < 0 {
        return -1;
      }
      InitPcb(pid);
      FilledIs(r, machine, pid);
    }

    /** The fields that create_pcb sets. */
    method InitPcb(pid: nat)
      requires pcbs.Length == MAX_PROCESSES && terminal.Length == MAX_TERMINALS
      requires pid < MAX_PROCESSES && 1 <= termCur <= MAX_TERMINALS
      modifies pcbs
      ensures pcbs[..] == old(pcbs[..])[pid := Filled(old(pcbs[pid]), terminal[termCur - 1], pid)]
    {
      var parentPid := if terminal[termCur - 1].numProcesses == 0 then pid else terminal[termCur - 1].termPid;
      var files := FileTable.InitFiles();
      pcbs[pid] := pcbs[pid].(pid := pid, parentPid := parentPid, files := files, args := Padded([], MAX_ARGS_LENGTH));
    }

    /** What execute writes down about a process that has its control block, in the order of the source. */
    method NoteProcess(pid: nat, argBuf: array<Byte>, ghost args: seq<Byte>, ghost r: Records)
      requires pcbs.Length == MAX_PROCESSES && terminal.Length == MAX_TERMINALS && 1 <= termCur <= MAX_TERMINALS
      requires paging.Valid() && pid < MAX_PROCESSES && |r.pcbs| == MAX_PROCESSES && Shape(machine)
      requires argBuf.Length == COMMAND_SIZE && CString(argBuf[..]) == args && |args| < MAX_ARGS_LENGTH
      requires Recs() == AfterCreate(r, machine, pid)
      modifies this`esp0, pcbs, terminal, paging`space, paging.pageDir
      ensures pcbs[pid] == NewPcb(r.pcbs[pid], machine, pid).(parentEsp := esp, args := pcbs[pid].args)
      ensures Recs() == AfterLaunch(r, termCur, pcbs[pid]) && ArgsOk(pcbs[pid], args)
      ensures paging.Valid() && paging.space == old(paging.space).(top := Option.Some(pid)) && esp0 == Esp0(pid)
    {
      hide PidBit, Paging.PageTables.Valid;
      var t := terminal[termCur - 1];
      terminal[termCur - 1] := t.(numProcesses := t.numProcesses + 1, termPid := pid);
      paging.MapProcess(pid);
      esp0 := Esp0(pid);
      var args' := new Byte[MAX_ARGS_LENGTH];
      Strncpy(args', 0, argBuf[..], MAX_ARGS_LENGTH);
      assert args'[..] == Padded(args, MAX_ARGS_LENGTH);
      pcbs[pid] := pcbs[pid].(parentEsp := esp, args := args'[..]);
      assert pcbs[..] == r.pcbs[pid := pcbs[pid]];
      assert terminal[..] == TerminalsAfterLaunch(r.terminal, termCur, pid);
    }

    /** The rest of execute once a process has its control block: `pid` becomes the running process. */
    method StartProcess(pid: nat, argBuf: array<Byte>, ghost args: seq<Byte>, ghost r: Records)
      requires ImageOk() && pcbs.Length == MAX_PROCESSES && terminal.Length == MAX_TERMINALS
      requires paging.Valid() && paging.space.terms == MAX_TERMINALS
      requires Shape(machine) && termCur == machine.cur && Agree(r, machine) && Total(machine) < MAX_PROCESSES
      requires pid == FreePidFrom(machine, 0) < MAX_PROCESSES
      requires argBuf.Length == COMMAND_SIZE && CString(argBuf[..]) == args && |args| < MAX_ARGS_LENGTH
      requires esp == machine.esp && (Current(machine) != [] ==> Entered())
      requires |r.pcbs| == MAX_PROCESSES && Recs() == AfterCreate(r, machine, pid)
      modifies this, pcbs, terminal, paging, paging.pageDir
      ensures paging.space.vidmapped == old(paging.space.vidmapped)
      ensures Valid() && machine == Launched(old(machine), args) && esp0 == Esp0(pid)
    {
      hide Agree, WellFormed, Runnable, PidBit, FreePidFrom, PcbOf, Paging.PageTables.Valid, Pids, PidsDistinct,
        ArgsOk, AfterLaunch;
      AgreeShape(r, machine);
      NoteProcess(pid, argBuf, args, r);
      LaunchAgrees(r, machine, args, pcbs[pid]);
      BlockFacts(pid, pid, esp0);
      LaunchKeeps(machine, args);
      machine := Launched(machine, args);
    }

    /** execute, once it is clear that the program can be run. */
    method Launch(command: seq<Byte>, i: nat) returns (o: Outcome)
      requires Books() && (Current(machine) != [] ==> Running() && Entered()) && Total(machine) < MAX_PROCESSES
      requires |command| < COMMAND_SIZE && i == WordLength(command)
      modifies this, pcbs, terminal, paging, paging.pageDir
      ensures paging.space.vidmapped == old(paging.space.vidmapped)
      ensures Valid() && machine == Launched(old(machine), ArgText(command))
      ensures o == Started(FreePidFrom(old(machine), 0)) && esp0 == Esp0(o.pid)
    {
      hide Agree, PidBit, FreePidFrom, Paging.PageTables.Valid, WellFormed, Runnable, PcbsOk, Disjoint, Live, OnStack,
        ArgText, WordLength, AfterCreate;
      var argBuf := CopyArgs(command, i);
      ghost var r := Recs();
      AgreeShape(r, machine);
      RoomMeansFreePid(machine);
      var pid := CreatePcb();
      if pid == -1 {
        assert false;
      }
      StartProcess(pid, argBuf, ArgText(command), r);
      return Started(pid);
    }

    /** Nothing has changed. */
    ghost predicate Same(r: Records, m: State, stackTop: int)
      reads this, pcbs, terminal
    {
      Recs() == r && machine == m && esp0 == stackTop
    }

    /** execute, from the look-up of the program on. */
    method LoadProgram(command: seq<Byte>, i: nat, comBuf: array<Byte>) returns (o: Outcome)
      requires Books() && (Current(machine) != [] ==> Running() && Entered())
      requires |command| < COMMAND_SIZE && i == WordLength(command) && CString(comBuf[..]) == Word(command)
      modifies this, pcbs, terminal, paging, paging.pageDir
      ensures paging.space.vidmapped == old(paging.space.vidmapped)
      ensures if !Runnable(img, Word(command)) then o == Returned(-1) && Same(old(Recs()), old(machine), old(esp0))
        else if Total(old(machine)) >= MAX_PROCESSES then o == Returned(0) && Same(old(Recs()), old(machine), old(esp0))
        else
          && Valid() && machine == Launched(old(machine), ArgText(command))
          && o == Started(FreePidFrom(old(machine), 0)) && esp0 == Esp0(o.pid)
      ensures o.Returned? ==> Books() && old(Valid()) == Valid()
    {
      hide Agree, PidBit, FreePidFrom, Paging.PageTables.Valid, Lookup, WellFormed, PcbsOk, Disjoint, Live, OnStack,
        ArgText,
        Slice, WordLength;
      SameLookup(img, comBuf[..], Word(command));
      var err, dentry := ReadDentryByName(img, comBuf[..]);
      if err != 0 {
        return Returned(-1);
      }
      var ok := HasMagic(dentry.inode);
      if !ok {
        return Returned(-1);
      }
      var room := CanExecute();
      if !room {
        return Returned(0); // after a message
      }
      o := Launch(command, i);
    }

    lemma {:induction false} SameLookup(img: Image, a: seq<Byte>, w: seq<Byte>)
      requires WellFormed(img) && CString(a) == w
      ensures Lookup(img, a) == Lookup(img, w)
    {
      IndexOfIs(w, NUL, |w|);
      assert CString(w) == w && Clip(a, FILE_NAME_LENGTH) == Clip(w, FILE_NAME_LENGTH);
      assert forall k :: 0 <= k < img.numDirEntries ==> (Named(img, k, a) <==> Named(img, k, w));
    }

    /** execute("shell"), which the kernel itself calls when the current terminal has no process. */
    method ExecuteShell() returns (o: Outcome)
      requires Books() && Current(machine) == [] && Total(machine) < MAX_PROCESSES
      modifies this, pcbs, terminal, paging, paging.pageDir
      ensures paging.space.vidmapped == old(paging.space.vidmapped)
      ensures Valid() && machine == Launched(old(machine), []) && o == Started(FreePidFrom(old(machine), 0))
      ensures esp0 == Esp0(FreePidFrom(old(machine), 0))
    {
      hide Agree, PidBit, FreePidFrom, Paging.PageTables.Valid, Pids, PidsDistinct, WellFormed, Runnable;
      ShellIsAWord();
      var i, comBuf := CopyWord(SHELL);
      var diff := Strncmp(comBuf[..], EXIT, |EXIT|);
      if diff == 0 {
        SameClip(comBuf[..], Word(SHELL), |EXIT|);
        assert false;
      }
      SameClip(comBuf[..], Word(SHELL), |EXIT|);
      o := LoadProgram(SHELL, i, comBuf);
    }

    lemma {:induction false} ShellIsAWord()
      ensures Word(SHELL) == SHELL && ArgText(SHELL) == [] && !IsExit(SHELL) && |SHELL| == 5 < COMMAND_SIZE
    {
      assert SHELL[0] == 115 && SHELL[1] == 104 && SHELL[2] == 101 && SHELL[3] == 108 && SHELL[4] == 108;
      assert WordLength(SHELL) == 5;
      assert EXIT[0] == 101 && EXIT[1] == 120;
      IndexOfIs(SHELL, NUL, 5);
      IndexOfIs(EXIT, NUL, 4);
      assert Clip(SHELL, 4)[0] == 115 && Clip(EXIT, 4)[0] == 101;
    }

    lemma {:induction false} SameClip(a: seq<Byte>, w: seq<Byte>, n: nat)
      requires CString(a) == w
      ensures Clip(a, n) == Clip(w, n)
    {
      IndexOfIs(w, NUL, |w|);
      assert CString(w) == w;
    }

    /** halt, but for closing the descriptors. */
    method Halt(status: int) returns (o: Outcome)
      requires Valid() && Entered()
      modifies this, pcbs, terminal, paging, paging.pageDir
      ensures paging.space.vidmapped == old(paging.space.vidmapped)
      ensures Valid() && (machine, o) == HaltStep(old(machine), status) && (o.Started? ==> esp0 == Esp0(o.pid))
      // the parent goes on with the stack pointer that execute noted down
      ensures o.Resumed? ==> esp == esp0 == TopOf(Current(old(machine))).caller
    {
      hide Agree, PidBit, FreePidFrom, Paging.PageTables.Valid, Pids, PidsDistinct, WellFormed, Runnable, PcbsOk;
      ghost var m, r := machine, Recs();
      var k := GetCurrentPcb();
      var pcb := pcbs[k];
      TopPcb(r, m);
      AgreeShape(r, m);
      TerminalIs(r, m, termCur - 1);
      terminal[termCur - 1] := terminal[termCur - 1].(numProcesses := terminal[termCur - 1].numProcesses - 1);
      processesFlags := processesFlags & !PidBit(pcb.pid);
      if terminal[termCur - 1].numProcesses == 0 {
        o := RestartShell(r, k);
      } else {
        o := ResumeParent(pcb, status, r, k);
      }
    }

    /** In the middle of halt: `r` are the records before, and process `k` has been taken off the books. */
    ghost predicate Halting(r: Records, k: nat)
      reads Repr()
    {
      && ImageOk() && paging.Valid() && paging.space.terms == MAX_TERMINALS
      && pcbs.Length == MAX_PROCESSES && terminal.Length == MAX_TERMINALS
      && Ok(machine) && termCur == machine.cur && esp == machine.esp && esp0 == machine.esp0
      && k == TopOf(Current(machine)).pid < MAX_PROCESSES
      && Agree(r, machine) && |r.terminal| == MAX_TERMINALS && |r.pcbs| == MAX_PROCESSES
      && pcbs[..] == r.pcbs && processesFlags == r.flags & !PidBit(k)
      && terminal[..] == TerminalsAfterPop(r.terminal, termCur, r.terminal[termCur - 1].termPid)
    }

    /** The end of halt when the terminal has no process left. */
    method RestartShell(ghost r: Records, ghost k: nat) returns (o: Outcome)
      requires Halting(r, k) && Current(Popped(machine)) == []
      modifies this, pcbs, terminal, paging, paging.pageDir
      ensures paging.space.vidmapped == old(paging.space.vidmapped)
      ensures Valid() && machine == Launched(Popped(old(machine)), [])
      ensures o == Started(FreePidFrom(Popped(old(machine)), 0))
      ensures esp0 == Esp0(o.pid)
    {
      hide Agree, PidBit, FreePidFrom, Paging.PageTables.Valid, Pids, PidsDistinct, WellFormed, Runnable, PcbsOk,
        TerminalsAfterPop;
      PopKeeps(machine);
      RoomMeansFreePid(machine);
      PopAgrees(r, machine, r.terminal[termCur - 1].termPid);
      assert Recs() == AfterPop(r, machine.cur, k, r.terminal[termCur - 1].termPid);
      machine := Popped(machine);
      o := ExecuteShell();
    }

    /** The end of halt when the terminal still has processes: the parent goes on. */
    method ResumeParent(pcb: Pcb, status: int, ghost r: Records, ghost k: nat) returns (o: Outcome)
      requires Halting(r, k) && Current(Popped(machine)) != []
      requires ParentOk(pcb, TopOf(Current(machine)).caller, Current(Popped(machine)))
      modifies this, terminal, paging`space, paging.pageDir
      ensures paging.space.vidmapped == old(paging.space.vidmapped)
      ensures Valid() && machine == Popped(old(machine)) && o == Resumed(TopOf(Current(machine)).pid, status)
      ensures esp == esp0 == pcb.parentEsp
    {
      hide Agree, PidBit, FreePidFrom, Paging.PageTables.Valid, WellFormed, Runnable, PcbsOk, Disjoint, Live, OnStack,
        ArgsOk, TerminalAgrees;
      ghost var u := AfterPop(r, machine.cur, k, pcb.parentPid);
      PopKeeps(machine);
      PopAgrees(r, machine, pcb.parentPid);
      machine := Popped(machine);
      TopPcb(u, machine);
      if processesFlags == 0 {
        SomeBitIsSet(u, machine);
        assert false; // the second restart is never reached
      }
      terminal[termCur - 1] := terminal[termCur - 1].(termPid := pcb.parentPid);
      assert Recs() == u;
      paging.MapProcess(pcb.parentPid);
      esp0 := pcb.parentEsp;
      esp := pcb.parentEsp;
      return Resumed(pcb.parentPid, status);
    }

    /** execute. */
    method Execute(command: Option<seq<Byte>>) returns (o: Outcome)
      requires Valid() && Entered() && (command.Some? ==> |command.value| < COMMAND_SIZE)
      modifies this, pcbs, terminal, paging, paging.pageDir
      ensures paging.space.vidmapped == old(paging.space.vidmapped)
      ensures Valid() && (machine, o) == ExecuteStep(img, old(machine), command)
      ensures o.Returned? ==> Entered() && Same(old(Recs()), old(machine), old(esp0))
      ensures o.Started? ==> esp0 == Esp0(o.pid)
    {
      hide Agree, PidBit, FreePidFrom, Paging.PageTables.Valid, Pids, PidsDistinct, WellFormed, Runnable;
      if command.None? {
        return Returned(-1);
      }
      var i, comBuf := CopyWord(command.value);
      SameClip(comBuf[..], Word(command.value), |EXIT|);
      var diff := Strncmp(comBuf[..], EXIT, |EXIT|);
      if diff == 0 {
        o := Halt(0);
      } else {
        o := LoadProgram(command.value, i, comBuf);
      }
    }

    /** switch_terminal and terminal_load, for processes. */
    method SwitchTerminal(term: int)
      requires Valid() && Entered() && 1 <= term <= MAX_TERMINALS
      modifies this, pcbs, terminal, paging, paging.pageDir
      ensures paging.space.vidmapped == old(paging.space.vidmapped)
      ensures Valid() && machine == SwitchStep(old(machine), term)
      ensures machine.cur != old(machine.cur) ==> esp0 == Esp0(TopOf(Current(machine)).pid)
      ensures old(machine).stacks[term - 1] != [] ==> Entered()
    {
      hide Agree, PidBit, FreePidFrom, Paging.PageTables.Valid, WellFormed, Runnable, PcbsOk, Disjoint, Live, OnStack,
        ArgsOk, TerminalAgrees, ParentOk;
      ghost var m, r := machine, Recs();
      assert 0 <= m.cur - 1 < MAX_TERMINALS;
      if term == termCur {
        return;
      }
      AgreeShape(r, m);
      TerminalIs(r, m, term - 1);
      if !terminal[term - 1].init {
        var room := CanExecute();
        if !room {
          return;
        }
      }
      LeaveTerminal(term);
    }

    /** The rest of switch_terminal, once it is clear that the terminal can be shown. */
    method LeaveTerminal(term: int)
      requires Valid() && Entered() && 1 <= term <= MAX_TERMINALS && term != termCur
      requires machine.stacks[term - 1] == [] ==> Total(machine) < MAX_PROCESSES
      modifies this, pcbs, terminal, paging, paging.pageDir
      ensures paging.space.vidmapped == old(paging.space.vidmapped)
      ensures Valid() && machine == SwitchStep(old(machine), term)
      ensures esp0 == Esp0(TopOf(Current(machine)).pid)
      ensures old(machine).stacks[term - 1] != [] ==> Entered()
    {
      hide Agree, PidBit, FreePidFrom, Paging.PageTables.Valid, WellFormed, Runnable, PcbsOk, Disjoint, Live, OnStack,
        ArgsOk, TerminalAgrees, ParentOk;
      ghost var m, r := machine, Recs();
      AgreeShape(r, m);
      TerminalIs(r, m, term - 1);
      SwitchAgrees(r, m, term);
      terminal[termCur - 1] := terminal[termCur - 1].(esp := esp);
      termCur := term;
      machine := Left(m, term);
      StartOrLoad(term, m.cur, r);
    }

    /** The end of switch_terminal: `r` are the records before, and `was` the terminal that is left. */
    method StartOrLoad(term: int, ghost was: int, ghost r: Records)
      requires ImageOk() && pcbs.Length == MAX_PROCESSES && terminal.Length == MAX_TERMINALS
      requires paging.Valid() && paging.space.terms == MAX_TERMINALS
      requires Shape(machine) && term == termCur == machine.cur
      requires esp == machine.esp && esp0 == machine.esp0 && 1 <= was <= MAX_TERMINALS && was != term
      requires |r.pcbs| == MAX_PROCESSES && |r.terminal| == MAX_TERMINALS
      requires Agree(AfterSwitch(r, was, term, esp), machine)
      requires pcbs[..] == r.pcbs && processesFlags == r.flags
      requires terminal[..] == r.terminal[was - 1 := r.terminal[was - 1].(esp := esp)]
      requires if r.terminal[term - 1].init
        then Current(machine) != [] && OnStack(r.terminal[term - 1].esp, TopOf(Current(machine)).pid)
        else Current(machine) == [] && Total(machine) < MAX_PROCESSES
      modifies this, pcbs, terminal, paging, paging.pageDir
      ensures paging.space.vidmapped == old(paging.space.vidmapped)
      ensures Valid() && esp0 == Esp0(TopOf(Current(machine)).pid)
      ensures if r.terminal[term - 1].init
        then
          && machine == old(machine).(esp := old(machine).saved[term - 1], esp0 := Esp0(TopOf(Current(machine)).pid))
          && Entered()
        else machine == Launched(old(machine), [])
    {
      hide Agree, PidBit, FreePidFrom, Paging.PageTables.Valid, WellFormed, Runnable, PcbsOk, Disjoint, Live, OnStack,
        ArgsOk, TerminalAgrees, ParentOk;
      if !terminal[termCur - 1].init {
        terminal[termCur - 1] := terminal[termCur - 1].(init := true);
        assert Recs() == AfterSwitch(r, was, term, esp);
        var o := ExecuteShell();
      } else {
        assert Recs() == AfterSwitch(r, was, term, esp);
        TerminalLoad(term);
      }
    }

    /** terminal_load, for processes: only ever maps the live process on top of the terminal's stack. */
    method TerminalLoad(term: int)
      requires Books() && term == termCur && Current(machine) != []
      requires OnStack(terminal[term - 1].esp, TopOf(Current(machine)).pid)
      modifies this`esp, this`esp0, this`machine, paging`space, paging.pageDir
      ensures paging.space.vidmapped == old(paging.space.vidmapped)
      ensures Valid() && Entered() && esp0 == Esp0(TopOf(Current(machine)).pid)
      ensures TopOf(Current(machine)).pid in Live(machine)
      ensures machine == old(machine).(esp := old(machine).saved[term - 1], esp0 := Esp0(TopOf(Current(machine)).pid))
    {
      hide Agree, FreePidFrom, Paging.PageTables.Valid, WellFormed, Runnable, PcbsOk, OnStack, ArgsOk,
        TerminalAgrees, ParentOk;
      TopPcb(Recs(), machine);
      TerminalIs(Recs(), machine, term - 1);
      BlockFacts(terminal[term - 1].termPid, terminal[term - 1].termPid, 0);
      AgreeWith(Recs(), machine, terminal[term - 1].esp, Esp0(terminal[term - 1].termPid));
      esp := terminal[term - 1].esp;
      esp0 := Esp0(terminal[term - 1].termPid);
      machine := machine.(esp := esp, esp0 := esp0);
      paging.MapProcess(terminal[term - 1].termPid);
      assert TopOf(Current(machine)).pid in Pids(Current(machine));
    }

    /** The descriptors of the running process, where get_current_pcb finds them. */
    method GetFiles() returns (files: FileTable.Table)
      requires Valid() && Entered()
      ensures files == TopOf(Current(machine)).files
    {
      hide Agree, PidBit, Paging.PageTables.Valid, Pids, PidsDistinct, WellFormed, Runnable, PcbsOk;
      var k := GetCurrentPcb();
      TopPcb(Recs(), machine);
      return pcbs[k].files;
    }

    /** The running process's descriptor calls leave its control block with these descriptors. */
    method SetFiles(files: FileTable.Table)
      requires Valid() && Entered()
      modifies this`machine, pcbs
      ensures Valid() && Entered() && machine == Described(old(machine), files)
    {
      hide Agree, PidBit, Paging.PageTables.Valid, Pids, PidsDistinct, WellFormed, Runnable, PcbsOk, Disjoint, Live;
      ghost var r := Recs();
      var k := GetCurrentPcb();
      DescribeAgrees(r, machine, files);
      pcbs[k] := pcbs[k].(files := files);
      assert Recs() == AfterDescribe(r, k, files);
      machine := Described(machine, files);
    }

    /** getargs: the text after the program's name, or -1 when there is none. */
    method GetArgs(buf: array<Byte>, nbytes: nat) returns (r: int)
      requires Valid() && Entered() && Min(nbytes, MAX_ARGS_LENGTH) <= buf.Length
      modifies buf
      ensures |TopOf(Current(machine)).args| < MAX_ARGS_LENGTH && Lacks(TopOf(Current(machine)).args, NUL)
      ensures var args := TopOf(Current(machine)).args;
        if args == [] then r == -1 && buf[..] == old(buf[..])
        else r == 0 && buf[..] == Written(old(buf[..]), 0, Padded(args, Min(nbytes, MAX_ARGS_LENGTH)))
    {
      hide Agree, PidBit, Paging.PageTables.Valid, Pids, PidsDistinct, WellFormed, Runnable, PcbsOk;
      var k := GetCurrentPcb();
      TopPcb(Recs(), machine);
      ghost var args := TopOf(Current(machine)).args;
      IndexOfIs(pcbs[k].args, NUL, |args|);
      if |CString(pcbs[k].args)| == 0 {
        return -1;
      }
      var n := if nbytes > MAX_ARGS_LENGTH then MAX_ARGS_LENGTH else nbytes;
      var i := 0;
      while i < n
        invariant 0 <= i <= n && k < MAX_PROCESSES
        invariant forall j {:trigger buf[j]} :: 0 <= j < buf.Length ==>
          buf[j] == if j < i then CharAt(args, j) else old(buf[j])
      {
        buf[i] := pcbs[k].args[i];
        i := i + 1;
      }
      return 0;
    }

    /** init_terminals, for processes, after init_paging: the first terminal gets its shell. */
    method InitTerminals()
      requires ImageOk() && pcbs.Length == MAX_PROCESSES && terminal.Length == MAX_TERMINALS && processesFlags == 0
      requires paging.Valid() && paging.space == Paging.Space(Option.None, false, 0)
      modifies this, pcbs, terminal, paging, paging.pageDir, paging.userTable
      ensures Valid() && machine == Booted() && !paging.space.vidmapped
    {
      hide PidBit, Paging.PageTables.Valid, WellFormed, Runnable, FreePidFrom;
      var i := 0;
      while i < MAX_TERMINALS
        invariant 0 <= i <= MAX_TERMINALS
        invariant forall k :: 0 <= k < i ==> terminal[k] == Terminal(0, 0, 0, false)
        modifies terminal
      {
        terminal[i] := Terminal(0, 0, 0, false);
        i := i + 1;
      }
      paging.MapTerminals();
      termCur := 1;
      terminal[0] := terminal[0].(init := true);
      machine := Idle();
      esp, esp0 := 0, 0;
      ghost var r := Recs();
      EmptyHolds();
      assert forall t :: 0 <= t < MAX_TERMINALS ==> TerminalAgrees(r.pcbs, r.terminal, machine, t);
      var o := ExecuteShell();
    }

    static lemma {:induction false} EmptyHolds()
      ensures Holds(0, {})
    {
    }

    /**
     * vidmap, as a system call of the running process: video memory is seen at 132MB from then
     * on (`AddressSpaceIs` says for how long), or nothing changes.
     */
    method Vidmap(screenStart: nat) returns (r: int, pointer: nat)
      requires Valid() && screenStart < TWO_TO_32
      modifies paging, paging.pageDir, paging.userTable
      ensures Valid() && machine == old(machine)
      ensures r == (if 0x800_0000 <= screenStart <= 0x840_0000 then 0 else -1)
      ensures r == 0 ==> pointer == 0x840_0000 && paging.space.vidmapped
      ensures r == 0 ==>
        forall va :: 0x840_0000 <= va < 0x840_1000 ==>
          paging.Translate(va) == Paging.Page(0xB_8000 + (va - 0x840_0000), true)
      ensures r == -1 ==> paging.space == old(paging.space)
    {
      hide Agree, Paging.PageTables.Valid, WellFormed, Runnable;
      r, pointer := paging.Vidmap(screenStart);
      if r == 0 {
        paging.ValidShape();
        forall va | 0x840_0000 <= va < 0x840_1000
          ensures paging.Translate(va) == Paging.Page(0xB_8000 + (va - 0x840_0000), true)
        {
          AddressSpaceIs(va);
        }
      }
    }

    /**
     * Where the processor sends every address in every state between two steps: the program's
     * addresses to the block of the process on top of the current terminal's stack; kernel and
     * video memory to themselves, for the kernel only; the terminals' save pages to themselves.
     * Once vidmap has been called, and not before, video memory is also what programs see at
     * 132MB (and in front of the save pages), the save pages behind it.  Everything else faults.
     */
    lemma {:induction false} AddressSpaceIs(va: nat)
      requires Valid() && va < TWO_TO_32
      ensures paging.Shape()
      ensures paging.Translate(va) ==
        if 0xB_8000 <= va < 0xB_9000 || 0x40_0000 <= va < 0x80_0000 then Paging.Page(va, false)
        else if 0x800_0000 <= va < 0x840_0000 then
          Paging.Page(0x80_0000 + 0x40_0000 * TopOf(Current(machine)).pid + (va - 0x800_0000), true)
        else if 0x640_1000 <= va < 0x640_4000 then Paging.Page(va, true)
        else if !paging.space.vidmapped then Paging.Fault
        else if 0x840_0000 <= va < 0x840_1000 then Paging.Page(0xB_8000 + (va - 0x840_0000), true)
        else if 0x840_1000 <= va < 0x840_4000 then Paging.Page(0x640_0000 + (va - 0x840_0000), true)
        else if 0x640_0000 <= va < 0x640_1000 then Paging.Page(0xB_8000 + (va - 0x640_0000), true)
        else Paging.Fault
    {
      hide Agree, Paging.PageTables.Valid, WellFormed, Runnable, Paging.PageTables.Translate;
      paging.ValidShape();
      paging.TranslateIsMapped(va);
    }
  }
}
