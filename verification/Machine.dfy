/**
 * The structure behind the kernel's process records, which no variable holds: three stacks
 * of processes, one per terminal.  execute pushes, halt pops, switch_terminal selects.
 */
module Machine {
  import opened Bytes
  import FileTable
  import opened Rofs
  import opened Counting
  import opened Limits
  import opened PcbLayout

  const ALL_PIDS: set<nat> := {0, 1, 2, 3, 4, 5}

  /**
   * `caller` is the kernel stack pointer with which the process that started this one goes
   * on, `files` are the process's descriptors.
   */
  datatype Proc = Proc(pid: nat, args: seq<Byte>, caller: int, files: FileTable.Table)

  type Stack = seq<Proc>

  /**
   * The bottom of each stack is the terminal's first shell; `cur` counts from 1.  `esp` is
   * the kernel stack pointer, `esp0` the one that the processor loads on entry to the kernel,
   * and `saved` are those with which terminals were left.
   */
  datatype State = State(stacks: seq<Stack>, cur: int, esp: int, esp0: int, saved: seq<int>)

  predicate Shape(m: State) {
    |m.stacks| == |m.saved| == MAX_TERMINALS && 1 <= m.cur <= MAX_TERMINALS
  }

  function Pids(a: Stack): set<nat> {
    if a == [] then {} else Pids(a[..|a| - 1]) + {a[|a| - 1].pid}
  }

  predicate PidsDistinct(a: Stack) {
    a == [] || (PidsDistinct(a[..|a| - 1]) && a[|a| - 1].pid !in Pids(a[..|a| - 1]))
  }

  function Live(m: State): set<nat>
    requires Shape(m)
  {
    Pids(m.stacks[0]) + Pids(m.stacks[1]) + Pids(m.stacks[2])
  }

  /** No pid is in use twice, and all are in range. */
  predicate Disjoint(m: State)
    requires Shape(m)
  {
    && PidsDistinct(m.stacks[0]) && PidsDistinct(m.stacks[1]) && PidsDistinct(m.stacks[2])
    && Pids(m.stacks[0]) !! Pids(m.stacks[1]) && Pids(m.stacks[0]) !! Pids(m.stacks[2])
    && Pids(m.stacks[1]) !! Pids(m.stacks[2])
    && Live(m) <= ALL_PIDS
  }

  function Current(m: State): Stack
    requires Shape(m)
  {
    m.stacks[m.cur - 1]
  }

  /** What holds between any two steps. */
  predicate Ok(m: State) {
    Shape(m) && Disjoint(m) && Current(m) != []
  }

  function TopOf(a: Stack): Proc
    requires a != []
  {
    a[|a| - 1]
  }

  function Total(m: State): nat
    requires Shape(m)
  {
    |m.stacks[0]| + |m.stacks[1]| + |m.stacks[2]|
  }

  /** The least free pid from `p` up, or MAX_PROCESSES. */
  function FreePidFrom(m: State, p: nat): (r: nat)
    requires Shape(m) && p <= MAX_PROCESSES
    ensures p <= r <= MAX_PROCESSES && (r < MAX_PROCESSES ==> r !in Live(m))
    ensures forall q :: p <= q < r ==> q in Live(m)
    decreases MAX_PROCESSES - p
  {
    if p == MAX_PROCESSES || p !in Live(m) then p else FreePidFrom(m, p + 1)
  }

  // ----- counting -----

  lemma {:induction false} PidsSize(a: Stack)
    requires PidsDistinct(a)
    ensures |Pids(a)| == |a|
  {
    if a != [] {
      PidsSize(a[..|a| - 1]);
    }
  }

  lemma {:induction false} LiveSize(m: State)
    requires Shape(m) && Disjoint(m)
    ensures |Live(m)| == Total(m)
  {
    PidsSize(m.stacks[0]);
    PidsSize(m.stacks[1]);
    PidsSize(m.stacks[2]);
  }

  /**
   * can_execute, which counts processes, says exactly whether get_new_pid, which looks for
   * a clear bit, will find one.
   */
  lemma {:induction false} RoomMeansFreePid(m: State)
    requires Shape(m) && Disjoint(m)
    ensures Total(m) <= MAX_PROCESSES
    ensures Total(m) < MAX_PROCESSES <==> FreePidFrom(m, 0) < MAX_PROCESSES
  {
    LiveSize(m);
    FullWhenNoneFree(Live(m), FreePidFrom(m, 0));
  }

  lemma {:induction false} FullWhenNoneFree(live: set<nat>, free: nat)
    requires live <= ALL_PIDS && free <= MAX_PROCESSES
    requires free < MAX_PROCESSES ==> free !in live
    requires forall q :: 0 <= q < free ==> q in live
    ensures |live| <= MAX_PROCESSES && (|live| < MAX_PROCESSES <==> free < MAX_PROCESSES)
  {
    assert |ALL_PIDS| == MAX_PROCESSES;
    SubsetSize(live, ALL_PIDS);
    if free == MAX_PROCESSES {
      SubsetSize(ALL_PIDS, live);
    } else {
      assert free in ALL_PIDS;
    }
  }

  // ----- pushing and popping -----

  function WithCurrent(m: State, a: Stack): State
    requires Shape(m)
  {
    m.(stacks := m.stacks[m.cur - 1 := a])
  }

  /** The process that would be started next. */
  function NewProc(m: State, args: seq<Byte>): Proc
    requires Shape(m)
  {
    Proc(FreePidFrom(m, 0), args, m.esp, FileTable.NewTable())
  }

  /** A new process with the least free pid on the current terminal. */
  function Launched(m: State, args: seq<Byte>): State
    requires Shape(m)
  {
    WithCurrent(m, Current(m) + [NewProc(m, args)]).(esp0 := Esp0(FreePidFrom(m, 0)))
  }

  /** The running process has these descriptors. */
  function Described(m: State, files: FileTable.Table): State
    requires Shape(m) && Current(m) != []
  {
    WithCurrent(m, Current(m)[..|Current(m)| - 1] + [TopOf(Current(m)).(files := files)])
  }

  /**
   * The process on top is gone, and the one below goes on, if there is one: with the stack
   * pointer it had in execute, which from then on is also where it enters the kernel.
   */
  function Popped(m: State): State
    requires Shape(m) && Current(m) != []
  {
    var rest := Current(m)[..|Current(m)| - 1];
    if rest == [] then WithCurrent(m, rest)
    else WithCurrent(m, rest).(esp := TopOf(Current(m)).caller, esp0 := TopOf(Current(m)).caller)
  }

  lemma {:induction false} LaunchKeeps(m: State, args: seq<Byte>)
    requires Shape(m) && Disjoint(m) && Total(m) < MAX_PROCESSES
    ensures Ok(Launched(m, args)) && Total(Launched(m, args)) == Total(m) + 1
    ensures FreePidFrom(m, 0) < MAX_PROCESSES
    ensures Live(Launched(m, args)) == Live(m) + {FreePidFrom(m, 0)}
  {
    hide Pids, PidsDistinct, FreePidFrom;
    RoomMeansFreePid(m);
    PidsPush(Current(m), NewProc(m, args));
    assert FreePidFrom(m, 0) in ALL_PIDS;
  }

  lemma {:induction false} PidsPush(a: Stack, p: Proc)
    ensures Pids(a + [p]) == Pids(a) + {p.pid}
    ensures PidsDistinct(a + [p]) <==> PidsDistinct(a) && p.pid !in Pids(a)
  {
    assert (a + [p])[..|a|] == a;
  }

  lemma {:induction false} PopKeeps(m: State)
    requires Ok(m)
    ensures Shape(Popped(m)) && Disjoint(Popped(m)) && Total(Popped(m)) == Total(m) - 1
    ensures TopOf(Current(m)).pid in Live(m) && Live(Popped(m)) == Live(m) - {TopOf(Current(m)).pid}
  {
    hide Pids, PidsDistinct;
    var a := Current(m);
    var b := a[..|a| - 1];
    assert a == b + [TopOf(a)];
    PidsPush(b, TopOf(a));
  }

  /**
   * Popping what was launched gives the machine back, wherever the kernel stack stood before
   * the halt; but the kernel is entered from then on where the stack stood in execute.
   */
  lemma {:induction false} PopUndoesLaunch(m: State, args: seq<Byte>, esp: int)
    requires Shape(m) && Current(m) != []
    ensures Popped(Launched(m, args).(esp := esp)) == m.(esp0 := m.esp)
  {
    var a := Current(m) + [NewProc(m, args)];
    assert a[..|a| - 1] == Current(m);
  }

  lemma {:induction false} DescribeKeeps(m: State, files: FileTable.Table)
    requires Shape(m) && Disjoint(m) && Current(m) != []
    ensures Ok(Described(m, files)) && Live(Described(m, files)) == Live(m) && Total(Described(m, files)) == Total(m)
  {
    hide Pids, PidsDistinct;
    var below, top := Current(m)[..|Current(m)| - 1], TopOf(Current(m));
    assert Current(m) == below + [top];
    PidsPush(below, top);
    PidsPush(below, top.(files := files));
  }

  /** Halting does not depend on the descriptors of the process that halts. */
  lemma {:induction false} PopForgetsFiles(m: State, files: FileTable.Table)
    requires Shape(m) && Current(m) != []
    ensures Popped(Described(m, files)) == Popped(m)
  {
    var a := Current(Described(m, files));
    assert a[..|a| - 1] == Current(m)[..|Current(m)| - 1];
  }

  // ----- commands -----

  const SHELL := Ascii("shell")
  const EXIT := Ascii("exit")
  const MAGIC: seq<Byte> := [0x7F, 0x45, 0x4C, 0x46]

  predicate EndsWord(c: Byte) {
    c == SPACE || c == NUL || c == NEWLINE
  }

  /** The length of the command word at the front of `c`. */
  function WordLength(c: seq<Byte>): (n: nat)
    ensures n <= |c| && (n < |c| ==> EndsWord(c[n]))
    ensures forall i :: 0 <= i < n ==> !EndsWord(c[i])
  {
    if c == [] || EndsWord(c[0]) then 0 else 1 + WordLength(c[1..])
  }

  function Word(c: seq<Byte>): (w: seq<Byte>)
    ensures Lacks(w, NUL)
  {
    c[..WordLength(c)]
  }

  /** The length of the argument text at the front of `c`. */
  function LineLength(c: seq<Byte>): (n: nat)
    ensures n <= |c| && (n < |c| ==> c[n] == NUL || c[n] == NEWLINE)
    ensures forall i :: 0 <= i < n ==> c[i] != NUL && c[i] != NEWLINE
  {
    if c == [] || c[0] == NUL || c[0] == NEWLINE then 0 else 1 + LineLength(c[1..])
  }

  /** The text after the first space, up to newline or end; empty when there is no space. */
  function ArgText(c: seq<Byte>): (a: seq<Byte>)
    ensures Lacks(a, NUL) && Lacks(a, NEWLINE)
  {
    var n := WordLength(c);
    if n < |c| && c[n] == SPACE then c[n + 1..][..LineLength(c[n + 1..])] else []
  }

  lemma {:induction false} WordLengthIs(c: seq<Byte>, n: nat)
    requires n <= |c| && (n < |c| ==> EndsWord(c[n])) && forall i :: 0 <= i < n ==> !EndsWord(c[i])
    ensures WordLength(c) == n
  {
  }

  lemma {:induction false} LineLengthIs(c: seq<Byte>, n: nat)
    requires n <= |c| && (n < |c| ==> c[n] == NUL || c[n] == NEWLINE)
    requires forall i :: 0 <= i < n ==> c[i] != NUL && c[i] != NEWLINE
    ensures LineLength(c) == n
  {
  }

  /**
   * A command line is taken apart as it was put together: a word, a space, any text (which
   * may hold more spaces), and whatever follows a newline.
   */
  lemma {:induction false} CommandParts(word: seq<Byte>, args: seq<Byte>, rest: seq<Byte>)
    requires Lacks(word, 32) && Lacks(word, 0) && Lacks(word, 10)
    requires Lacks(args, 0) && Lacks(args, 10) && (rest != [] ==> rest[0] == 10)
    ensures Word(word + [32] + args + rest) == word && ArgText(word + [32] + args + rest) == args
    ensures Word(word + rest) == word && ArgText(word + rest) == []
  {
    var c := word + [SPACE] + args + rest;
    assert forall i :: 0 <= i < |word| ==> !EndsWord(word[i]);
    WordLengthIs(c, |word|);
    assert c[|word| + 1..] == args + rest;
    LineLengthIs(args + rest, |args|);
    WordLengthIs(word + rest, |word|);
  }

  /** A file that starts with the ELF magic number. */
  ghost predicate Runnable(img: Image, word: seq<Byte>)
    requires WellFormed(img)
  {
    Lookup(img, word).Some? && Slice(img, img.dentries[Lookup(img, word).value].inode, 0, |MAGIC|) == Some(MAGIC)
  }

  /** The file with this inode starts with the bytes 0x7F, 'E', 'L', 'F'. */
  ghost predicate StartsElf(img: Image, inode: nat)
    requires WellFormed(img)
  {
    && inode < |img.inodes| && img.inodes[inode].length >= 4
    && Flat(img, inode)[..4] == [0x7F, 0x45, 0x4C, 0x46]
  }

  /** Entry `i` is the first one that `word` names. */
  ghost predicate IsFirst(img: Image, i: nat, word: seq<Byte>)
    requires WellFormed(img)
  {
    i < img.numDirEntries && Named(img, i, word) && forall j :: 0 <= j < i ==> !Named(img, j, word)
  }

  lemma {:induction false} RunnableIs(img: Image, word: seq<Byte>)
    requires WellFormed(img)
    ensures Runnable(img, word) <==> exists i: nat :: IsFirst(img, i, word) && StartsElf(img, img.dentries[i].inode)
  {
    var r := Lookup(img, word);
    if r.Some? {
      assert IsFirst(img, r.value, word);
      FourBytes(img, img.dentries[r.value].inode);
    }
    assert forall i: nat :: IsFirst(img, i, word) ==> r == Some(i);
  }

  lemma {:induction false} FourBytes(img: Image, inode: nat)
    requires WellFormed(img)
    ensures Slice(img, inode, 0, |MAGIC|) == Some(MAGIC) <==> StartsElf(img, inode)
  {
    if inode < |img.inodes| && img.inodes[inode].length >= 4 {
      assert Flat(img, inode)[0..4] == Flat(img, inode)[..4];
    }
  }

  /** strncmp(word, "exit", 4) == 0: "exit" and whatever starts with it. */
  predicate IsExit(word: seq<Byte>) {
    Clip(word, |EXIT|) == Clip(EXIT, |EXIT|)
  }

  // ----- steps -----

  /** What the caller sees: a return code, a process started instead, or its parent resumed. */
  datatype Outcome = Returned(code: int) | Started(pid: nat) | Resumed(pid: nat, status: int)

  function HaltStep(m: State, status: int): (State, Outcome)
    requires Ok(m)
  {
    var p := Popped(m);
    if Current(p) == [] then (Launched(p, []), Started(FreePidFrom(p, 0)))
    else (p, Resumed(TopOf(Current(p)).pid, status))
  }

  ghost function ExecuteStep(img: Image, m: State, command: Option<seq<Byte>>): (State, Outcome)
    requires WellFormed(img) && Ok(m)
  {
    if command.None? then (m, Returned(-1))
    else if IsExit(Word(command.value)) then HaltStep(m, 0)
    else if !Runnable(img, Word(command.value)) then (m, Returned(-1))
    else if Total(m) >= MAX_PROCESSES then (m, Returned(0))
    else (Launched(m, ArgText(command.value)), Started(FreePidFrom(m, 0)))
  }

  /** Terminal `term` is current; the stack pointer of the one that is left waits there. */
  function Left(m: State, term: int): State
    requires Shape(m)
  {
    m.(cur := term, saved := m.saved[m.cur - 1 := m.esp])
  }

  function SwitchStep(m: State, term: int): State
    requires Ok(m) && 1 <= term <= MAX_TERMINALS
  {
    if term == m.cur then m
    else if m.stacks[term - 1] != [] then
      Left(m, term).(esp := m.saved[term - 1], esp0 := Esp0(TopOf(m.stacks[term - 1]).pid))
    else if Total(m) >= MAX_PROCESSES then m
    else Launched(Left(m, term), [])
  }

  /**
   * `Enter` is an interrupt or system call: the running program enters the kernel, which uses
   * that many bytes of stack.  `Describe` is what a descriptor call does to its process.
   */
  datatype Event =
    | Enter(used: nat)
    | Describe(files: FileTable.Table)
    | Execute(command: Option<seq<Byte>>)
    | Halt(status: int)
    | Switch(term: int)

  ghost function Step(img: Image, m: State, e: Event): State
    requires WellFormed(img) && Ok(m) && (e.Switch? ==> 1 <= e.term <= MAX_TERMINALS)
  {
    match e
    case Enter(used) => m.(esp := m.esp0 - used)
    case Describe(files) => Described(m, files)
    case Execute(command) => ExecuteStep(img, m, command).0
    case Halt(status) => HaltStep(m, status).0
    case Switch(term) => SwitchStep(m, term)
  }

  lemma {:induction false} HaltKeepsOk(m: State, status: int)
    requires Ok(m)
    ensures Ok(HaltStep(m, status).0) && HaltStep(m, status).0.cur == m.cur
  {
    hide Pids, PidsDistinct, FreePidFrom;
    PopKeeps(m);
    RoomMeansFreePid(m);
    if Current(Popped(m)) == [] {
      LaunchKeeps(Popped(m), []);
    }
  }

  lemma {:induction false} StepKeepsOk(img: Image, m: State, e: Event)
    requires WellFormed(img) && Ok(m) && (e.Switch? ==> 1 <= e.term <= MAX_TERMINALS)
    ensures Ok(Step(img, m, e))
  {
    hide Pids, PidsDistinct, FreePidFrom;
    match e {
      case Enter(used) =>
      case Describe(files) => DescribeKeeps(m, files);
      case Execute(command) =>
        HaltKeepsOk(m, 0);
        if Total(m) < MAX_PROCESSES && command.Some? {
          LaunchKeeps(m, ArgText(command.value));
        }
      case Halt(status) =>
        HaltKeepsOk(m, status);
      case Switch(term) =>
        if Total(m) < MAX_PROCESSES {
          LaunchKeeps(Left(m, term), []);
        }
    }
  }

  // ----- runs -----

  predicate GoodEvents(es: seq<Event>) {
    forall i :: 0 <= i < |es| && es[i].Switch? ==> 1 <= es[i].term <= MAX_TERMINALS
  }

  ghost function Run(img: Image, m: State, es: seq<Event>): (r: State)
    requires WellFormed(img) && Ok(m) && GoodEvents(es)
    ensures Ok(r)
    decreases |es|
  {
    if es == [] then m else StepKeepsOk(img, m, es[0]); Run(img, Step(img, m, es[0]), es[1..])
  }

  /** The commands that end their process: those that begin with the characters e, x, i, t. */
  lemma {:induction false} ExitIs(word: seq<Byte>)
    requires Lacks(word, 0)
    ensures IsExit(word) <==> |word| >= 4 && word[0] == 101 && word[1] == 120 && word[2] == 105 && word[3] == 116
  {
    IndexOfIs(word, NUL, |word|);
    IndexOfIs(EXIT, NUL, 4);
    assert CString(word) == word && CString(EXIT) == EXIT;
    assert EXIT[0] == 101 && EXIT[1] == 120 && EXIT[2] == 105 && EXIT[3] == 116;
    assert Clip(EXIT, 4) == EXIT;
    if |word| >= 4 {
      assert Clip(word, 4) == word[..4] == [word[0], word[1], word[2], word[3]];
    }
  }

  /**
   * Which commands start a program, when there is room: exactly those whose word names, first
   * of all entries of that name, a file that starts with the ELF magic number.  Every other
   * one returns -1 and changes nothing.
   */
  lemma {:induction false} OnlyElfFilesStart(img: Image, m: State, command: seq<Byte>)
    requires WellFormed(img) && Ok(m) && !IsExit(Word(command)) && Total(m) < MAX_PROCESSES
    ensures ExecuteStep(img, m, Some(command)).1.Started? <==>
      exists i: nat :: IsFirst(img, i, Word(command)) &&
        var inode := img.dentries[i].inode;
        && inode < |img.inodes| && img.inodes[inode].length >= 4
        && Flat(img, inode)[..4] == [0x7F, 0x45, 0x4C, 0x46]
    ensures !ExecuteStep(img, m, Some(command)).1.Started? ==> ExecuteStep(img, m, Some(command)) == (m, Returned(-1))
  {
    hide Disjoint, Live, Total, FreePidFrom, ArgText, Runnable, IsExit, Word;
    RunnableIs(img, Word(command));
  }

  /**
   * With six processes no command starts another one: a file as above returns 0, every other
   * -1, both without effect.
   */
  lemma {:induction false} NoneStartsWhenFull(img: Image, m: State, command: seq<Byte>)
    requires WellFormed(img) && Ok(m) && !IsExit(Word(command)) && Total(m) == 6
    ensures ExecuteStep(img, m, Some(command)).0 == m && ExecuteStep(img, m, None) == (m, Returned(-1))
    ensures ExecuteStep(img, m, Some(command)).1 == Returned(
      if exists i: nat :: IsFirst(img, i, Word(command)) && StartsElf(img, img.dentries[i].inode) then 0 else -1)
  {
    hide Disjoint, Live, FreePidFrom, ArgText, Runnable, IsFirst, StartsElf, IsExit, Word;
    RunnableIs(img, Word(command));
  }

  /** The command "exit", whatever follows, halts the process that gives it with status 0. */
  lemma {:induction false} ExitResumesWithZero(img: Image, m: State, command: seq<Byte>)
    requires WellFormed(img) && Ok(m) && IsExit(Word(command)) && |Current(m)| > 1
    ensures var (r, o) := ExecuteStep(img, m, Some(command));
            && o == Resumed(Current(m)[|Current(m)| - 2].pid, 0)
            && r.stacks == m.stacks[m.cur - 1 := Current(m)[..|Current(m)| - 1]]
            && r.esp == r.esp0 == Current(m)[|Current(m)| - 1].caller && r.cur == m.cur && r.saved == m.saved
  {
    hide Disjoint, Live, FreePidFrom, ArgText, Runnable, IsExit, Word;
  }

  /**
   * When the last process of a terminal halts, a new one takes its place there at once: the
   * least pid that is then free, no arguments, the descriptors of a new process.
   */
  lemma {:induction false} LastHaltRestarts(m: State, status: int)
    requires Ok(m) && |Current(m)| == 1
    ensures var (r, o) := HaltStep(m, status);
            && o.Started? && r.cur == m.cur && r.saved == m.saved && |Current(r)| == 1
            && (forall t :: 0 <= t < MAX_TERMINALS && t != m.cur - 1 ==> r.stacks[t] == m.stacks[t])
            && var p := Current(r)[0];
               && p.pid == o.pid && p.args == [] && p.files == FileTable.NewTable() && r.esp0 == Esp0(p.pid)
               && p.pid !in Live(m) - {Current(m)[0].pid}
               && forall q :: 0 <= q < p.pid ==> q in Live(m) - {Current(m)[0].pid}
  {
    hide Pids, PidsDistinct, FreePidFrom;
    PopKeeps(m);
    RoomMeansFreePid(Popped(m));
  }

  /**
   * Switching to another terminal goes there, unless it has no process and six live elsewhere;
   * then nothing happens.  A terminal with processes is found as it was, with the stack pointer
   * that waits there; one without gets a first one, with no arguments.
   */
  lemma {:induction false} SwitchGoes(m: State, term: int)
    requires Ok(m) && 1 <= term <= MAX_TERMINALS && term != m.cur
    ensures var r, a := SwitchStep(m, term), m.stacks[term - 1];
            if a == [] && Total(m) == 6 then r == m
            else
              && r.cur == term && r.saved == m.saved[m.cur - 1 := m.esp]
              && (a != [] ==> r.stacks == m.stacks && r.esp == m.saved[term - 1])
              && (a == [] ==>
                    && |Current(r)| == 1 && r.stacks == m.stacks[term - 1 := Current(r)]
                    && var p := Current(r)[0];
                       && p.args == [] && p.caller == m.esp && p.files == FileTable.NewTable()
                       && p.pid !in Live(m) && forall q :: 0 <= q < p.pid ==> q in Live(m))
              && r.esp0 == Esp0(TopOf(Current(r)).pid)
  {
    hide Pids, PidsDistinct, FreePidFrom;
    var n := Left(m, term);
    RoomMeansFreePid(n);
    assert Live(n) == Live(m) && forall q :: 0 <= q < FreePidFrom(n, 0) ==> q in Live(n);
  }

  /** A terminal's stack changes only while the terminal is current, or when it is first switched to. */
  lemma {:induction false} OtherStacksStay(img: Image, m: State, e: Event, t: nat)
    requires WellFormed(img) && Ok(m) && (e.Switch? ==> 1 <= e.term <= MAX_TERMINALS) && t < MAX_TERMINALS
    ensures m.stacks[t] != [] ==> Step(img, m, e).stacks[t] != []
    ensures m.cur != t + 1 && m.stacks[t] != [] ==> Step(img, m, e).stacks[t] == m.stacks[t]
    ensures m.cur != t + 1 && !(e.Switch? && e.term == t + 1) ==> Step(img, m, e).stacks[t] == m.stacks[t]
  {
    hide Disjoint, Live, Total, FreePidFrom, ArgText, Runnable, IsExit, WellFormed;
  }

  /** Once launched, a terminal always has a live process. */
  lemma {:induction false} LaunchedForEver(img: Image, m: State, es: seq<Event>, t: nat)
    requires WellFormed(img) && Ok(m) && GoodEvents(es) && t < MAX_TERMINALS && m.stacks[t] != []
    ensures Run(img, m, es).stacks[t] != []
    decreases |es|
  {
    if es != [] {
      StepKeepsOk(img, m, es[0]);
      OtherStacksStay(img, m, es[0], t);
      LaunchedForEver(img, Step(img, m, es[0]), es[1..], t);
    }
  }

  /** Does this event halt the running process? */
  predicate Halts(e: Event) {
    e.Halt? || (e.Execute? && e.command.Some? && IsExit(Word(e.command.value)))
  }

  /** On this run the lowest `k` processes of terminal `t` never halt. */
  ghost predicate Survive(img: Image, m: State, es: seq<Event>, t: nat, k: nat)
    requires WellFormed(img) && Ok(m) && GoodEvents(es) && t < MAX_TERMINALS
    decreases |es|
  {
    es == [] || (
      && (Halts(es[0]) && m.cur == t + 1 ==> k < |m.stacks[t]|)
      && (StepKeepsOk(img, m, es[0]); Survive(img, Step(img, m, es[0]), es[1..], t, k)))
  }

  /** Is this a descriptor call of process `k` of terminal `t`, counted from the bottom? */
  predicate IsOwn(m: State, e: Event, t: nat, k: nat)
    requires Shape(m) && t < MAX_TERMINALS
  {
    e.Describe? && m.cur == t + 1 && |m.stacks[t]| == k + 1
  }

  /** What its own calls on a run make of a process's descriptors. */
  ghost function OwnFiles(img: Image, m: State, es: seq<Event>, t: nat, k: nat, files: FileTable.Table)
    : FileTable.Table
    requires WellFormed(img) && Ok(m) && GoodEvents(es) && t < MAX_TERMINALS
    decreases |es|
  {
    if es == [] then files
    else
      StepKeepsOk(img, m, es[0]);
      OwnFiles(img, Step(img, m, es[0]), es[1..], t, k, if IsOwn(m, es[0], t, k) then es[0].files else files)
  }

  lemma {:induction false} StepKeepsBottom(img: Image, m: State, e: Event, t: nat, k: nat)
    requires WellFormed(img) && Ok(m) && (e.Switch? ==> 1 <= e.term <= MAX_TERMINALS)
    requires t < MAX_TERMINALS && k < |m.stacks[t]| && (Halts(e) && m.cur == t + 1 ==> k + 1 < |m.stacks[t]|)
    ensures k < |Step(img, m, e).stacks[t]| && Step(img, m, e).stacks[t][..k] == m.stacks[t][..k]
    ensures Step(img, m, e).stacks[t][k]
         == if IsOwn(m, e, t, k) then m.stacks[t][k].(files := e.files) else m.stacks[t][k]
  {
    hide Disjoint, Live, Total, FreePidFrom, ArgText, Runnable, IsExit, WellFormed;
    assert m.stacks[t] == m.stacks[t][..k] + m.stacks[t][k..];
  }

  /**
   * Whatever is started and halted above it, and whatever happens on the other terminals, a
   * process that does not halt, `k` from the bottom, keeps its pid, its arguments and its
   * caller; its descriptors are what its own calls make of them; and nothing at all changes
   * below it.
   */
  lemma {:induction false} AncestorsStay(img: Image, m: State, es: seq<Event>, t: nat, k: nat)
    requires WellFormed(img) && Ok(m) && GoodEvents(es) && t < MAX_TERMINALS && k < |m.stacks[t]|
    requires Survive(img, m, es, t, k + 1)
    ensures k < |Run(img, m, es).stacks[t]| && Run(img, m, es).stacks[t][..k] == m.stacks[t][..k]
    ensures Run(img, m, es).stacks[t][k]
         == m.stacks[t][k].(files := OwnFiles(img, m, es, t, k, m.stacks[t][k].files))
    decreases |es|
  {
    hide Disjoint, Live, IsOwn, Step;
    if es != [] {
      StepKeepsOk(img, m, es[0]);
      StepKeepsBottom(img, m, es[0], t, k);
      AncestorsStay(img, Step(img, m, es[0]), es[1..], t, k);
    }
  }

  /**
   * The arguments of a program that was started are the text behind its name, for as long
   * as it has not halted, whatever children it has had and whatever the other terminals did.
   */
  lemma {:induction false} ArgumentsStay(img: Image, m: State, command: seq<Byte>, es: seq<Event>)
    requires WellFormed(img) && Ok(m) && GoodEvents(es) && !IsExit(Word(command))
    requires ExecuteStep(img, m, Some(command)).1.Started?
    requires var u := Step(img, m, Execute(Some(command)));
             Ok(u) && Survive(img, u, es, m.cur - 1, |Current(m)| + 1)
    ensures var a := Run(img, Step(img, m, Execute(Some(command))), es).stacks[m.cur - 1];
            |Current(m)| < |a| && a[|Current(m)|].args == ArgText(command)
  {
    hide Pids, PidsDistinct, FreePidFrom, ArgText;
    var u, n := Step(img, m, Execute(Some(command))), |Current(m)|;
    assert u.stacks[m.cur - 1][n].args == ArgText(command);
    AncestorsStay(img, u, es, m.cur - 1, n);
  }

  /**
   * Its descriptors are those of a new process, but for what its own calls have changed: no
   * child, and no process of another terminal, opens or closes anything for it.
   */
  lemma {:induction false} DescriptorsStay(img: Image, m: State, command: seq<Byte>, es: seq<Event>)
    requires WellFormed(img) && Ok(m) && GoodEvents(es) && !IsExit(Word(command))
    requires ExecuteStep(img, m, Some(command)).1.Started?
    requires var u := Step(img, m, Execute(Some(command)));
             Ok(u) && Survive(img, u, es, m.cur - 1, |Current(m)| + 1)
    ensures var u, n := Step(img, m, Execute(Some(command))), |Current(m)|;
            var a := Run(img, u, es).stacks[m.cur - 1];
            n < |a| && a[n].files == OwnFiles(img, u, es, m.cur - 1, n, FileTable.NewTable())
  {
    hide Pids, PidsDistinct, FreePidFrom, ArgText;
    var u, n := Step(img, m, Execute(Some(command))), |Current(m)|;
    assert u.stacks[m.cur - 1][n].files == FileTable.NewTable();
    AncestorsStay(img, u, es, m.cur - 1, n);
  }

  /**
   * A program that was started, entered the kernel with any stack pointer and halts there
   * hands control back to the process that started it.  All is as before but for one thing:
   * the next entry to the kernel starts where the stack stood in execute.
   */
  lemma {:induction false} HaltReturnsToCaller(img: Image, m: State, command: seq<Byte>, esp: int, status: int)
    requires WellFormed(img) && Ok(m) && !IsExit(Word(command)) && ExecuteStep(img, m, Some(command)).1.Started?
    ensures var u := ExecuteStep(img, m, Some(command)).0.(esp := esp);
            Ok(u) && HaltStep(u, status) == (m.(esp0 := m.esp), Resumed(TopOf(Current(m)).pid, status))
  {
    hide Pids, PidsDistinct, FreePidFrom, ArgText;
    StepKeepsOk(img, m, Execute(Some(command)));
    PopUndoesLaunch(m, ArgText(command), esp);
  }

  /**
   * A program that was just started has the keyboard and the screen and nothing else open,
   * and the first file that it opens gets descriptor 2.
   */
  lemma {:induction false} StartsWithTwoOpen(img: Image, m: State, command: seq<Byte>, fname: seq<Byte>)
    requires WellFormed(img) && Ok(m) && !IsExit(Word(command)) && ExecuteStep(img, m, Some(command)).1.Started?
    ensures var u := ExecuteStep(img, m, Some(command)).0;
            && Shape(u) && |Current(u)| == |Current(m)| + 1
            && var files := Current(u)[|Current(m)|].files;
               && |files| == 8 && (forall fd :: 0 <= fd < 8 ==> (files[fd].open <==> fd < 2))
               && files[0].ops == FileTable.StdinOps && files[1].ops == FileTable.StdoutOps
               && var (fd, _) := FileTable.AfterOpen(img, files, fname);
                  fd == 2 || fd == -1
  {
    hide Pids, PidsDistinct, FreePidFrom, ArgText, FileTable.AfterOpen;
    FileTable.NewTableIsClosed();
    FileTable.FirstOpenIsTwo(img, fname);
    var t := FileTable.NewTable();
    assert forall fd :: 0 <= fd < 8 ==> (t[fd].open <==> fd in FileTable.OpenSet(t));
  }

  /** On this run nobody switches to terminal `t`. */
  predicate Away(es: seq<Event>, t: nat) {
    forall i :: 0 <= i < |es| && es[i].Switch? ==> es[i].term != t + 1
  }

  lemma {:induction false} StepAway(img: Image, m: State, e: Event, t: nat)
    requires WellFormed(img) && Ok(m) && (e.Switch? ==> 1 <= e.term <= MAX_TERMINALS && e.term != t + 1)
    requires t < MAX_TERMINALS && m.cur != t + 1
    ensures var r := Step(img, m, e);
            |r.stacks| == |r.saved| == MAX_TERMINALS && r.cur != t + 1 && r.stacks[t] == m.stacks[t]
            && r.saved[t] == m.saved[t]
  {
    hide Disjoint, Live, Total, FreePidFrom, ArgText, Runnable, IsExit, WellFormed;
  }

  /** What happens elsewhere changes neither a terminal's processes nor the stack pointer that waits there. */
  lemma {:induction false} AwayStays(img: Image, m: State, es: seq<Event>, t: nat)
    requires WellFormed(img) && Ok(m) && GoodEvents(es) && t < MAX_TERMINALS && m.cur != t + 1 && Away(es, t)
    ensures var r := Run(img, m, es);
            r.cur != t + 1 && r.stacks[t] == m.stacks[t] && r.saved[t] == m.saved[t]
    decreases |es|
  {
    hide Disjoint, Live, Step, WellFormed;
    if es != [] {
      StepKeepsOk(img, m, es[0]);
      StepAway(img, m, es[0], t);
      AwayStays(img, Step(img, m, es[0]), es[1..], t);
    }
  }

  /**
   * A terminal that is left and, after anything that happens elsewhere, entered again goes
   * on with the same processes and the very stack pointer with which it was left; from then
   * on the kernel is entered at the top of the process's block.
   */
  lemma {:induction false} LeftAndEntered(img: Image, m: State, term: int, es: seq<Event>)
    requires WellFormed(img) && Ok(m) && 1 <= term <= MAX_TERMINALS && GoodEvents(es) && Away(es, m.cur - 1)
    requires SwitchStep(m, term).cur != m.cur
    ensures var u := Step(img, m, Switch(term));
            && Ok(u)
            && var r := SwitchStep(Run(img, u, es), m.cur);
               && r.cur == m.cur && Current(r) == Current(m) && r.esp == m.esp
               && r.esp0 == Esp0(TopOf(Current(m)).pid)
  {
    hide Disjoint, Live, Total, FreePidFrom;
    StepKeepsOk(img, m, Switch(term));
    AwayStays(img, Step(img, m, Switch(term)), es, m.cur - 1);
  }

  /** Before the first process is started. */
  function Idle(): (m: State)
    ensures Shape(m)
  {
    State([[], [], []], 1, 0, 0, [0, 0, 0])
  }

  /** The state init_terminals leaves: a shell on the first terminal. */
  function Booted(): (m: State)
    ensures Shape(m)
  {
    Launched(Idle(), [])
  }

  lemma {:induction false} BootedIsOk()
    ensures Ok(Booted()) && Current(Booted()) == [Proc(0, [], 0, FileTable.NewTable())]
  {
    var m := Idle();
    NoneLive(m);
    hide Pids, PidsDistinct, FreePidFrom, Live;
    LaunchKeeps(m, []);
  }

  lemma {:induction false} NoneLive(m: State)
    requires m == Idle()
    ensures Live(m) == {} && Disjoint(m) && FreePidFrom(m, 0) == 0
  {
    assert Pids([]) == {};
  }
}
