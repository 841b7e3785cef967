# ApollOS, modelled and proved in Dafny

ApollOS is a small x86 kernel with three text terminals, up to six processes, a read-only
file system and a handful of user programs. This project models its stateful core in the
form the source has it (classes for what is updated in place, arrays for buffers, the loops
of the source with their invariants) and proves what that state means.

`dafny verify dfyconfig.toml` checks everything.

| file | what it holds |
|---|---|
| `Machine.dfy`, `Kernel.dfy` | `execute`, `halt`, `switch_terminal`, `getargs`: the pid bitmap, control blocks, counters and top pids are shown to stand for three disjoint stacks of processes that no variable holds |
| `StackUse.dfy` | how far a shell's kernel stack comes down with every command it starts, and when it runs out |
| `Paging.dfy`, `PcbLayout.dfy` | the page tables against 32-bit paging (section 4.3 of the Intel SDM, volume 3A), and the 8KB blocks of the control blocks |
| `Screen.dfy`, `Console.dfy`, `Terminals.dfy` | video memory as a window over an unbounded transcript; the line being typed; one live console and three save areas as three independent consoles |
| `Together.dfy` | the kernel's processes and the consoles in one run: the launch flags of the consoles are the non-empty stacks of the processes |
| `EnterFlag.dfy` | the flag that Enter raises, one for all terminals: whose reads it releases |
| `Rofs.dfy`, `FileTable.dfy`, `Process.dfy` | file contents and names in the image, the descriptor table, and the descriptor calls |
| `Programs.dfy` | `cat` and `ls`, run on those calls |
| `GrepSpec.dfy`, `Grep.dfy`, `GrepProgram.dfy` | `grep`: what it should print, what its sliding buffer prints, when the two agree, and the whole program over the directory |
| `Session.dfy`, `Shell.dfy` | a command line from beginning to end: the program it starts, its argument, the screen, and the return to the caller; the shell, line after line, from start-up on |
| `Blink.dfy` | the blink list threaded through its pool, its ticks, and what they put on the screen |
| `Numbers.dfy`, `MemoryMoves.dfy` | `itoa`, `strrev`, `printf`'s numbers; `memset`, `memcpy`, `memmove` |
| `Bytes.dfy`, `Limits.dfy`, `Counting.dfy`, `Arithmetic.dfy` | C strings (with `strncmp`, `strncpy`), shared sizes, sizes of sets, division |

Each imperative method is proved equal to a function of the old state (`Machine.Step`,
`Console.Apply`, `Terminals.Step`, `FileTable.After`, `Blink.Inserted`, ...), and the
properties are lemmas about that function over all inputs and all runs. Where the code does
not have a property it seems meant to have, the exact condition is proved:

- `grep` reports a file rightly if and only if every matching line fits its 1024-byte buffer
  and, when the spare byte behind the uninitialised buffer starts out as a newline, the first
  full buffer that does not end with a newline does not end inside a matching line
  (`GrepSpec.BrokenIsWanted`, `GrepSpec.FoundIsWanted`). A file of at most 1024 bytes is safe
  (`GrepSpec.ShortIsSafe`). It is right about every file whose matching lines fit if and only
  if that byte does not start out as a newline, or the search string is one that no such line
  can contain (`GrepSpec.RightForAllFilesIff`).
- Adding a blinking character at location 0 breaks the list, and nothing else does
  (`Blink.Blinker.Add`, `Blink.InsertThreadsIff`): the slot is linked in and free at once,
  and the next addition makes the list a cycle (`Blink.ZeroLocationMakesCycle`).
- The character that sync redraws is right if and only if the node is off or has only one
  character (`Blink.SyncShows`): the conditional move in front of it never moves.
- `halt` leaves tss.esp0 where its parent's stack stood in `execute`, so that every command
  costs the shell the bytes of one entry until its terminal is left and entered again
  (`StackUse.CommandCosts`, `Machine.LeftAndEntered`). All entries of a run spare the control
  block if and only if each finds room below the sum of the commands before it
  (`StackUse.AllFitIff`, for a dialogue at the shell `Shell.DialogueFitsIff`), and every shell
  that goes on starting programs gets beyond that (`StackUse.StackRunsOut`).
- A read is released by its own terminal's Enter, and by every one, if and only if nobody
  leaves a terminal while the flag is set (`EnterFlag.RightAlongIff`, with the processes `EnterFlag.JointRightAlongIff`;
  `EnterFlag.ForeignEnter`).
- Backspace takes back a printed character if and only if it was not put in the last column
  (`Screen.BackspaceUndoesPut`). From there on it can go astray: 80 keys and 79 backspaces
  from the top left corner lead back to it with a character pending, and the next backspace
  writes in front of video memory (`Console.EraseLeavesScreen`). That can be reached from every
  state of the machine (`Together.TypingLeavesScreen`). Screen and transcript stay
  together all along a run exactly when every backspace takes the last character of the
  transcript back, for which `Screen.TakesBack` is the condition (`Console.ShownAlongIff`).
- Looking every entry up by its name gives that entry if and only if names are distinct
  (`Rofs.LookupInvertsNameOf`); `ls` is complete if and only if no name is empty
  (`Programs.ListingIsComplete`).

Where the code differs from its comments, or surprises, the model follows the code: `execute`
returns 0, not an error, when there is no room for a process; everything that starts with
"exit" counts as `exit`; `halt` does not clear descriptor flags; vidmap accepts a pointer at
132MB itself; a directory read returns the length of the whole name even if fewer bytes were
asked for.

## Model

| member | source | states |
|---|---|---|
| Machine.RoomMeansFreePid | student-distrib/syscalls.c:29-35 | on three disjoint stacks, the sum of the three counters is below six exactly when some pid bit is clear, so `can_execute` is true exactly when `get_new_pid` succeeds |
| Machine.LaunchKeeps | student-distrib/syscalls.c:165-173 | pushing the least free pid on the current stack keeps all pids distinct and in range and adds exactly that pid to the live ones |
| Machine.PopKeeps | student-distrib/syscalls.c:62-64 | popping keeps the stacks disjoint and removes exactly the halted pid from the live ones |
| Machine.PopUndoesLaunch | student-distrib/syscalls.c:48-89 | taking a just launched process off gives back the very same stacks and stack pointers, but for tss.esp0, which becomes the stack pointer of the execute call |
| Machine.CommandParts | student-distrib/syscalls.c:119-158 | a command built as word, space, text, newline is taken apart into that word and that text; without a space the arguments are empty |
| Machine.RunnableIs | student-distrib/syscalls.c:132-142 | what can be run: the first entry of the name has a file of at least four bytes that begins 0x7F 0x45 0x4C 0x46 |
| Machine.OnlyElfFilesStart | student-distrib/syscalls.c:132-142 | on a machine with room, a command other than exit starts a program if and only if the first entry of its name is a file that begins with the bytes 0x7F 0x45 0x4C 0x46; otherwise it returns -1 and the machine is unchanged |
| Machine.NoneStartsWhenFull | student-distrib/syscalls.c:145-148 | with six processes no command starts one: the call returns 0 for a file of that kind, -1 for any other, and changes nothing |
| Machine.ExitIs | student-distrib/syscalls.c:126-130 | the commands that halt are exactly those that begin with the characters e, x, i, t |
| Machine.ExitResumesWithZero | student-distrib/syscalls.c:126-130 | such a command resumes the process below with status 0, with its stack pointer in execute, and takes only the top process off |
| Machine.StartsWithTwoOpen | student-distrib/syscalls.c:506-520 | the process that a command started has descriptors 0 and 1 on the terminal, 2 to 7 closed, and its first successful open returns 2 |
| Machine.StepKeepsOk | student-distrib/syscalls.c:101-215 | every execute, halt and terminal switch keeps the stacks disjoint and the current one non-empty |
| Machine.Run | student-distrib/syscalls.c:48-215 | after any run of executes, halts and terminal switches, the stacks are disjoint and the current one is not empty |
| Machine.HaltKeepsOk | student-distrib/syscalls.c:66-73 | after any halt the current terminal still has a running process, restarted if need be |
| Machine.OtherStacksStay | student-distrib/terminal.c:105-136 | a step changes no stack but the current one, or the one of a terminal launched by it, and empties none |
| Machine.LaunchedForEver | student-distrib/syscalls.c:66-68 | on every run, a terminal that was launched has a live process from then on |
| Machine.AncestorsStay | student-distrib/syscalls.c:48-215 | on every run, a process that does not halt keeps its place, pid, arguments and the stack pointer of its caller, whatever runs and halts above it and on other terminals; its descriptors are what its own calls make of them; nothing at all changes below it |
| Machine.ArgumentsStay | student-distrib/syscalls.c:151-158 | on every run after a program was started by a command, its arguments are the text behind the first space for as long as it lives, whatever children it has had |
| Machine.DescriptorsStay | student-distrib/syscalls.c:506-520 | on every run after a program was started by a command, its descriptors are those of a new process but for its own calls, whatever children it has had and whatever other terminals opened and closed |
| Machine.DescribeKeeps | student-distrib/syscalls.c:229-367 | descriptor calls keep the stacks disjoint and all pids live |
| Machine.PopForgetsFiles | student-distrib/syscalls.c:48-89 | a halt leaves the same machine behind whatever the descriptors of the process that halts |
| Machine.HaltReturnsToCaller | student-distrib/syscalls.c:75-89 | starting a program that then halts, with any kernel stack pointer, gives back all stacks and saved stack pointers and resumes the caller with the status, where it stood in execute; only tss.esp0 is not restored: it is that stack pointer from then on |
| Machine.LastHaltRestarts | student-distrib/syscalls.c:66-68 | when the last process of a terminal halts, a new one with the least free pid, no arguments and new descriptors is there at once; other terminals stay |
| Machine.SwitchGoes | student-distrib/terminal.c:105-136 | a switch goes to the terminal unless it has no process and six live elsewhere; processes there are found as they were with the stack pointer that waits, otherwise one without arguments is started |
| Machine.AwayStays | student-distrib/terminal.c:105-136 | on every run that does not switch to a terminal, its processes and the stack pointer that waits there stay |
| Machine.LeftAndEntered | student-distrib/terminal.c:177-222 | a terminal that is left and, after any run elsewhere, entered again goes on with the same processes and the very stack pointer it was left with, and tss.esp0 is the top of the process's block again |
| Machine.BootedIsOk | student-distrib/terminal.c:90-92 | after start-up there is exactly one process, the shell with pid 0 on terminal 1 |
| StackUse.CommandCosts | student-distrib/syscalls.c:75-89 | a command (entry, execute, anything that happens while the program lasts, its halt) leaves the process that started it with its stack of processes, and tss.esp0 lower by exactly the bytes of that entry; a system call that comes back lowers nothing |
| StackUse.CostsAddUp | student-distrib/syscalls.c:75-89 | on every run of system calls and commands, tss.esp0 comes down by the sum of the entries that started the commands |
| StackUse.AllFitIff | student-distrib/syscalls.c:184-186 | all along a run, every entry (system calls and commands) spares the control block if and only if each size fits below the sum of the commands before it |
| StackUse.WithinIsSum | student-distrib/syscalls.c:184-186 | for a run of commands only, that is whether the sum of all entries fits |
| StackUse.NextEntryFits | student-distrib/syscalls.c:537-546 | after such a run on an empty kernel stack, the next entry spares the control block if and only if the sum and the entry are at most 8192-4-376 bytes, and the mask finds the running process if and only if they are at most 8192-4; that the entries before it fit is `StackUse.AllFitIff` |
| StackUse.SimpleRun | student-distrib/syscalls.c:48-215 | with fewer than six processes, system calls and commands whose programs start no others can follow one another for ever, and change nothing but the kernel stack pointers |
| StackUse.StackRunsOut | student-distrib/syscalls.c:77-77 | whatever an entry needs (`u` bytes, up to 8KB), exactly 7812/u such commands fit; the entry of the next one runs into the shell's control block or over it, where the mask finds the control block of the next pid |
| Kernel.LaunchAgrees | student-distrib/syscalls.c:165-174 | writing a control block, the counter, the top pid and the bit keeps the records in agreement with the stacks after a push |
| Kernel.PopAgrees | student-distrib/syscalls.c:62-75 | counting down, clearing the bit and writing the parent as top pid keeps the records in agreement with the stacks after a pop |
| Kernel.SwitchAgrees | student-distrib/terminal.c:121-125 | saving the stack pointer and selecting another terminal keeps the records in agreement with the unchanged stacks |
| Kernel.DescribeAgrees | student-distrib/syscalls.c:229-367 | writing the running process's descriptors keeps the records in agreement with the stacks |
| Kernel.TopPcb | student-distrib/syscalls.c:500-504 | the control block of the running process has its pid, its arguments, its descriptors, and as parent the process below it, or itself at the bottom |
| Kernel.CountersAre | student-distrib/syscalls.c:30-34 | the three counters add up to the number of live processes |
| Kernel.PidBitIs | student-distrib/syscalls.c:470-474 | the bit of a pid is 1 shifted left by it |
| Kernel.SomeBitIsSet | student-distrib/syscalls.c:70-73 | while the current terminal has a process the bitmap is not zero, so the second restart in `halt` is never reached |
| Kernel.Kernel.EnterKernel | student-distrib/syscalls.c:184-186 | entering the kernel from the running program puts the stack pointer on the kernel stack of the process on top of the current stack, above its control block, if and only if the entry needs no more than the bytes between there and tss.esp0 |
| Kernel.Kernel.CanExecute | student-distrib/syscalls.c:29-36 | true exactly when fewer than six processes live on the three stacks |
| Kernel.Kernel.GetNewPid | student-distrib/syscalls.c:467-479 | takes the least pid that is on no stack and sets its bit; fails, changing nothing, exactly when there is none |
| Kernel.Kernel.GetCurrentPcb | student-distrib/syscalls.c:537-546 | masking the stack pointer finds the control block of the process on top of the current stack |
| Kernel.Kernel.CopyWord | student-distrib/syscalls.c:119-124 | the buffer holds the command word as a C string, and the index stands behind it |
| Kernel.Kernel.CopyArgs | student-distrib/syscalls.c:151-158 | the buffer holds the argument text as a C string, empty when there is no space |
| Kernel.Kernel.HasMagic | student-distrib/syscalls.c:138-142 | passes exactly the inodes whose first four bytes are the ELF magic number, short and missing files included |
| Kernel.Kernel.CreatePcb | student-distrib/syscalls.c:491-525 | gives the least free pid a control block whose parent is the top of the current stack, or itself on an empty one, with descriptors 0 and 1 open and no arguments; all other records stay; fails, changing nothing, exactly when no pid is free |
| Kernel.Kernel.NoteProcess | student-distrib/syscalls.c:171-190 | counter, top pid, page directory, TSS stack, resume pointer and arguments are those of the push; no other record changes |
| Kernel.Kernel.StartProcess | student-distrib/syscalls.c:171-190 | the new process is on top of the current stack, mapped at 128MB, with its own kernel stack, and its caller's stack pointer is noted down |
| Kernel.Kernel.Launch | student-distrib/syscalls.c:151-190 | when there is room, the program is started with the text behind its name as arguments; `create_pcb` never fails |
| Kernel.Kernel.LoadProgram | student-distrib/syscalls.c:132-190 | -1 when the word does not name a file with the four magic bytes (`Machine.RunnableIs`), 0 when six processes live, both without changing any record or stack pointer; otherwise the program runs |
| Kernel.Kernel.Execute | student-distrib/syscalls.c:101-215 | all records, stack pointers and saved stack pointers change exactly as the step on the three stacks says, for every command below 128 characters, and the invariant holds again; a call that returns has changed nothing |
| Kernel.Kernel.ExecuteShell | student-distrib/terminal.c:163-163 | on an empty terminal with room, `execute("shell")` succeeds, with no arguments |
| Kernel.Kernel.Halt | student-distrib/syscalls.c:48-89 | all records change as popping the stack says: the parent goes on with the status, its program mapped and the stack pointer it had when it called execute, or a new shell is started |
| Kernel.Kernel.RestartShell | student-distrib/syscalls.c:66-68 | a terminal whose last process halted gets a new shell; this cannot fail |
| Kernel.Kernel.ResumeParent | student-distrib/syscalls.c:70-89 | the process below becomes the running one, with the stack pointer noted when it called execute |
| Kernel.Kernel.SwitchTerminal | student-distrib/terminal.c:105-136 | all records and stack pointers change as the step on the stacks says: only the current terminal, and a first shell on one not launched before; the stack pointer of the terminal that is left waits there, and a launched one gets its own back |
| Kernel.Kernel.LeaveTerminal | student-distrib/terminal.c:121-132 | the same from the save on: the step on the stacks, for a launched terminal or with room for a shell |
| Kernel.Kernel.StartOrLoad | student-distrib/terminal.c:127-132 | a launched terminal is loaded without changing any stack, another one gets its first shell |
| Kernel.Kernel.TerminalLoad | student-distrib/terminal.c:201-222 | the process mapped and given the kernel stack is a live one, the top of the terminal's stack |
| Kernel.Kernel.GetFiles | student-distrib/syscalls.c:229-242 | the descriptors in the control block that the mask finds are those of the process on top of the current stack |
| Kernel.Kernel.SetFiles | student-distrib/syscalls.c:281-367 | changing them changes those of the running process and of no other |
| Kernel.Kernel.GetArgs | student-distrib/syscalls.c:380-398 | the arguments of the running process and then NULs, up to the count asked for or 128; -1 and no change when they are empty |
| Kernel.Kernel.InitTerminals | student-distrib/terminal.c:58-93 | establishes the invariant, with a shell on terminal 1 |
| Kernel.Kernel.Vidmap | student-distrib/syscalls.c:410-421 | succeeds exactly for pointers from 128MB to 132MB inclusive; then the pointer is 132MB and the 4096 addresses from there translate to those from 0xB8000 for user programs; the processes stay |
| Kernel.Kernel.AddressSpaceIs | student-distrib/syscalls.c:181-181 | every address in every state between two steps: 128MB to 132MB lead to the block of the top process of the current terminal, the kernel's 4MB, video memory and the three save pages to themselves; 132MB leads to video memory after vidmap and faults before; everything else faults |
| Paging.BlocksDisjoint | student-distrib/syscalls.c:181-181 | blocks of different pids share no byte with each other, the kernel, video memory or the terminal pages |
| Paging.ProcessesIsolated | student-distrib/syscalls.c:76-76 | no address leads into one process's block while another process is mapped |
| Paging.AliasesAreShared | student-distrib/paging.c:90-100 | two addresses reach the same byte only after vidmap, and only in video memory and the terminal pages |
| Paging.FixedPagesStay | student-distrib/paging.c:128-138 | mapping another process or calling vidmap leaves kernel, video and terminal pages where they were |
| Paging.PageTables.TranslateIsMapped | student-distrib/paging.c:28-63 | for every 32-bit address, the processor's walk through the tables in memory gives what the address-space description says |
| Paging.PageTables.TranslateShared | student-distrib/paging.c:125-138 | the region of the terminal pages and the vidmap region go through the same table: video memory first, then the three pages |
| Paging.PageTables.InitPaging | student-distrib/paging.c:28-47 | afterwards exactly video memory and the kernel's 4MB are mapped, one to one |
| Paging.PageTables.Remap | student-distrib/paging.c:73-81 | one directory entry becomes a present, writable, user 4MB page; nothing else changes |
| Paging.PageTables.RemapWithPageTable | student-distrib/paging.c:90-100 | one directory entry points to the user table, whose first entry becomes the page; nothing else changes |
| Paging.PageTables.RemapToPage | student-distrib/paging.c:128-138 | the same with a chosen entry of the user table |
| Paging.PageTables.MapProcess | student-distrib/syscalls.c:181-181 | only the process seen at 128MB changes |
| Paging.PageTables.MapTerminals | student-distrib/terminal.c:75-77 | the three save pages become reachable and nothing else changes |
| Paging.PageTables.Vidmap | student-distrib/syscalls.c:410-421 | video memory becomes reachable at 132MB, or the call fails and no mapping changes |
| PcbLayout.MaskOnWords | student-distrib/syscalls.c:537-546 | on 32-bit words, the mask takes any address in a pid's block to the bottom of the block |
| PcbLayout.MaskRecovers | student-distrib/syscalls.c:537-560 | for every pid below 512, a kernel stack pointer is masked to the pid's control block if and only if it lies in its 8KB block |
| PcbLayout.BlockFacts | student-distrib/syscalls.c:186-186 | blocks lie inside the kernel's 4MB page, no two overlap, and the TSS stack top of a pid lies in its own block and no other |
| PcbLayout.BlockNumbers | student-distrib/syscalls.c:186-186 | the addresses of the blocks and of the tops of the kernel stacks, in numbers |
| Screen.LayoutAdd | student-distrib/lib.c:218-232 | the recursive layout of a text into paragraphs and 80-column rows agrees with adding one character at a time |
| Screen.LayoutFits | student-distrib/lib.c:226-227 | no row is longer than the screen and the last one is never full: a full row is left at once |
| Screen.PutShows | student-distrib/lib.c:218-232 | if the screen is the window over the last 25 rows of a transcript, it is that of the longer transcript after a character |
| Screen.PrintShows | student-distrib/lib.c:199-208 | the same for any text |
| Screen.WindowOverTranscript | student-distrib/lib.c:20-60 | whatever is printed on a cleared screen, the 25x80 grid is the last 25 rows of the unbounded layout, cleared rows blank and scrolled-in rows NUL, with the cursor behind the last character |
| Screen.ShownOnce | student-distrib/lib.c:218-232 | a transcript determines all characters on the screen and the cursor |
| Screen.PrintKeepsColours | student-distrib/lib.c:223-224 | no printing changes a colour byte |
| Screen.PrintAppend | student-distrib/lib.c:199-208 | printing two texts in turn is printing their concatenation |
| Screen.PutIs | student-distrib/lib.c:39-60 | what one character does to every cell and to the cursor, in numbers: stored, wrapped after column 79, and from the last of 25 rows the others move up and the last one becomes NUL |
| Screen.BlankIs | student-distrib/lib.c:20-30 | a cleared screen holds blanks in the colours that were there |
| Screen.BackspaceIs | student-distrib/lib.c:643-656 | backspace writes a NUL one column to the left, or from column 0 in column 78 of the row above |
| Screen.BackspaceUndoesPut | student-distrib/lib.c:643-656 | backspace brings cursor and row back, with a NUL for the character, if and only if the character was not put in the last column |
| Screen.BackspaceShows | student-distrib/lib.c:643-656 | backspace on a window over a transcript gives the window over that transcript without its last character if and only if the cursor is outside column 0, or that character is a line break behind a row of 78 characters and nothing has been scrolled away |
| Screen.BackspaceToRow | student-distrib/lib.c:643-650 | in column 0 behind a line break on an unscrolled screen, the cursor ends behind the last character of the row above if and only if that row has 78 characters |
| Screen.TextScreen.UpdateCursorLoc | student-distrib/lib.c:608-615 | the two bytes sent to the hardware reassemble to 80*y+x, modulo 16 bits |
| Screen.TextScreen.Scroll | student-distrib/lib.c:39-60 | the in-place loops move every row up by one, leave NULs in the last row and all colours alone |
| Screen.TextScreen.DoEnter | student-distrib/lib.c:630-641 | next row, scrolling at the bottom; the hardware cursor follows |
| Screen.TextScreen.Putc | student-distrib/lib.c:218-232 | the pure effect of a character; the hardware cursor stands where the next one goes |
| Screen.TextScreen.Puts | student-distrib/lib.c:199-208 | prints the string up to its terminator and returns its length |
| Screen.TextScreen.Clear | student-distrib/lib.c:20-30 | a blank screen in the old colours with the prompt on it |
| Screen.TextScreen.DoBackspace | student-distrib/lib.c:643-656 | the pure effect of erasing to the left, and the hardware cursor follows |
| Console.PendingIsPushPop | student-distrib/keyboard.c:186-277 | after any run of keys, backspaces, enters, output and reads, the pending line is the push/pop result of the keys, and the rest of the buffer is NUL |
| Console.EchoShows | student-distrib/keyboard.c:186-277 | one operation does to the transcript that is shown what it does to the line, if and only if it is not a backspace that fails to take the last character back (`Screen.TakesBack`) |
| Console.ShownAlongIff | student-distrib/keyboard.c:186-277 | the screen is the window over the push/pop transcript all along a run if and only if every backspace of the run takes the last character back |
| Console.RunShows | student-distrib/keyboard.c:186-277 | then it is so at the end, with NUL where text was erased, and exactly the window when there was no backspace |
| Console.TypedIsPending | student-distrib/keyboard.c:186-210 | up to 128 characters typed on an empty line are pending in order, and printed |
| Console.TypedIsRead | student-distrib/terminal.c:239-260 | a line that was typed and entered is what the next read returns, cut to the count; the screen shows it and goes to the next row; then nothing is pending |
| Console.TypedText | student-distrib/keyboard.c:186-210 | for the push/pop line and the transcript, too, typing a text appends it |
| Console.EraseTakesBack | student-distrib/keyboard.c:268-277 | a backspace removes the last pending character, and does nothing on an empty line |
| Console.FullLineIsKept | student-distrib/keyboard.c:186-210 | the 129th key and keys without a character change nothing |
| Console.EraseLeavesScreen | student-distrib/keyboard.c:268-277 | from an empty line in the top left corner, 80 keys and 79 backspaces stay on the screen, and the next backspace leaves it |
| Console.TypingLeavesScreen | student-distrib/keyboard.c:268-277 | from every state of a console there are keys, backspaces and Enter that stay on the screen and after which the next backspace leaves it |
| Console.PumpOnce | student-distrib/lib.c:643-650 | in column 0 below the first row, one backspace and two keys come back to the same place with one character more pending |
| Console.LiveConsole.KeyPressed | student-distrib/keyboard.c:186-210 | a character is appended to the line and shown; the 129th and unassigned keys have no effect |
| Console.LiveConsole.HandleBackspace | student-distrib/keyboard.c:268-277 | the last pending character is taken back on line and screen; nothing happens on an empty line |
| Console.LiveConsole.HandleEnter | student-distrib/keyboard.c:250-254 | a new row, the line kept for the reader |
| Console.LiveConsole.TerminalRead | student-distrib/terminal.c:239-260 | returns the pending line cut to the count asked for, writes only those bytes to the caller's buffer, and empties the line |
| Console.LiveConsole.TerminalWrite | student-distrib/terminal.c:274-290 | prints the bytes up to the first NUL and returns how many; a negative count prints nothing |
| Terminals.NoticedIsStep | student-distrib/terminal.c:105-165 | what an event does to a terminal is what the operations the terminal notices do to it |
| Terminals.ConsolesAreIndependent | student-distrib/terminal.c:105-222 | non-interference: after any run of keys, output, reads and switches, each terminal's screen, cursor and line are what its own operations alone give |
| Terminals.EveryTerminalKeepsItsOwn | student-distrib/terminal.c:105-260 | on every run, from any text that a terminal shows and any line pending there: its pending line is the push/pop result of its own keys, and its screen is the window over that text and its own push/pop transcript all along if and only if every backspace there takes the last character back |
| Terminals.FreshState | student-distrib/terminal.c:81-89 | a terminal's first page, in its colour, is a console that shows nothing and has nothing typed |
| Terminals.PoweredOnIs | student-distrib/terminal.c:61-89 | every terminal starts as 2000 blanks, in colours 0x0B, 0x0A and 0x0E, with the cursor in the corner and nothing typed; terminal 1 is current and none is launched |
| Terminals.SwitchIs | student-distrib/terminal.c:105-165 | a switch to a launched terminal changes no console; a first launch prints the banner on the new one and nothing elsewhere; a refused one prints the message on the old one and stays there |
| Terminals.ThereAndBack | student-distrib/terminal.c:105-136 | switching to a launched terminal and back changes nothing |
| Terminals.TerminalSet.TerminalSave | student-distrib/terminal.c:177-189 | afterwards all three consoles are in their save areas |
| Terminals.TerminalSet.TerminalLoad | student-distrib/terminal.c:201-222 | the live screen, cursor, hardware cursor and key buffer are those of the terminal, and no console has changed |
| Terminals.TerminalSet.TerminalStart | student-distrib/terminal.c:148-165 | only the started terminal changes, by the banner |
| Terminals.TerminalSet.InitTerminals | student-distrib/terminal.c:58-93 | three blank consoles in their colours, the first one started |
| Terminals.TerminalSet.InitRecord | student-distrib/terminal.c:61-89 | one record and its page become a fresh console, and the other terminals' do not change |
| Terminals.TerminalSet.Printf | student-distrib/terminal.c:115-115 | a message of the switch code goes to the current terminal only |
| Terminals.TerminalSet.SwitchTerminal | student-distrib/terminal.c:105-136 | switching to a launched terminal changes no console; a first launch changes only the new one; a refused launch prints on the current one; the hardware cursor is that of the console now live |
| Terminals.TerminalSet.StartOrLoad | student-distrib/terminal.c:127-132 | loads a launched terminal unchanged, starts another one; the hardware cursor follows |
| Terminals.TerminalSet.KeyboardHandler | student-distrib/keyboard.c:157-168 | a key changes the current terminal's console only, and Enter raises the flag that all terminals share |
| Terminals.TerminalSet.WriteOut | student-distrib/terminal.c:274-290 | output changes the current terminal's console only |
| Terminals.TerminalSet.NoteWrite | student-distrib/terminal.c:274-290 | text written to the live console has been written to the current one of three independent consoles |
| Terminals.TerminalSet.ReadIn | student-distrib/terminal.c:239-260 | a read takes the current terminal's line, changes no other and lowers the shared flag |
| Terminals.TerminalSet.LocalStep | student-distrib/terminal.c:184-212 | what is done to the live console is done to the current one of three independent consoles |
| EnterFlag.RightAlongIff | student-distrib/terminal.c:239-244 | all along a run, a read of the current terminal would return exactly if Enter was pressed there since its last read, if and only if nobody leaves a terminal while the flag is set |
| EnterFlag.PressedMeansSomeDue | student-distrib/terminal.c:239-244 | on every run, when the flag is set some terminal has an Enter it has not read |
| EnterFlag.ForeignEnter | student-distrib/keyboard.c:250-254 | Enter on one terminal, a switch and a read on another: the read returns though nothing was entered there, and back on the first terminal its Enter is lost |
| EnterFlag.JointRun | student-distrib/terminal.c:239-244 | the flag of a run of processes and consoles is that of its console events, and one is as calm as the other |
| EnterFlag.JointRightAlongIff | student-distrib/terminal.c:239-244 | so on every joint run, too, reads are released by their own terminal's Enter, and by every one, exactly when nobody leaves a terminal while the flag is set |
| Together.StepKeepsLinks | student-distrib/terminal.c:105-136 | in every step of kernel and consoles together, a terminal counts as launched exactly when it has a process, and both agree which is current |
| Together.Run | student-distrib/terminal.c:105-136 | the same after every joint run, and both invariants hold |
| Together.RunProjects | student-distrib/terminal.c:113-114 | the consoles of a joint run are those of a run of the consoles in which can_execute answered whether fewer than six processes lived |
| Together.EveryTerminalKeepsItsOwn | student-distrib/terminal.c:105-260 | so, whatever the processes do, each terminal keeps its own line and, under the same condition, its own transcript |
| Together.FromStartEveryTerminalKeepsItsOwn | student-distrib/terminal.c:58-93 | on every run of the machine from start-up, that holds of every terminal, with the banner as the text that terminal 1 shows and nothing on the others |
| Together.BootedIsOk | student-distrib/terminal.c:58-93 | start-up establishes the joint invariant |
| Together.BootedShows | student-distrib/terminal.c:81-92 | after start-up terminal 1 shows exactly the banner and the others nothing, and nothing is pending |
| Together.TypedRun | student-distrib/keyboard.c:157-168 | what is typed, nothing else happening, is done on the current terminal's console and changes nothing else |
| Together.TypingLeavesScreen | student-distrib/keyboard.c:268-277 | from every state of the machine, after start-up for example, one can type until the next backspace writes in front of video memory |
| Together.SwitchTerminal | student-distrib/terminal.c:105-136 | switch_terminal as a whole, on records and consoles, is the joint step |
| Together.Execute | student-distrib/syscalls.c:101-215 | execute with its message when there is no room is the joint step |
| Together.Halt | student-distrib/syscalls.c:48-89 | halt is the joint step: no console changes |
| Together.EnterKernel | student-distrib/syscalls.c:184-186 | an entry to the kernel is the joint step; whether it fits is decided as above |
| Together.Describe | student-distrib/syscalls.c:229-367 | what a process's calls make of its descriptors is the joint step |
| Together.KeyboardHandler | student-distrib/keyboard.c:157-168 | a key is the joint step: no process changes, and Enter raises the shared flag |
| Together.WriteOut | student-distrib/terminal.c:274-290 | output of a process is the joint step |
| Together.ReadIn | student-distrib/terminal.c:239-260 | a read of the keyboard, once the flag is up, is the joint step, and lowers it |
| Together.Boot | student-distrib/kernel.c:163-164 | start-up allocates and initialises both halves: records and consoles stand for the booted joint state, a shell on terminal 1 with the banner on its screen |
| Rofs.JoinedAt | student-distrib/rofs.c:143-148 | byte i of a file joined from its blocks is byte i mod 4096 of the block that entry i div 4096 of the inode names |
| Rofs.FlatAt | student-distrib/rofs.c:143-148 | the same for the whole file, in numbers |
| Rofs.SliceLength | student-distrib/rofs.c:126-141 | a slice fails exactly for a missing inode or an offset behind the end; otherwise it is as long as asked for, or ends with the file |
| Rofs.ReadData | student-distrib/rofs.c:126-151 | the buffer gets exactly the slice of the flat file, cut at its end, and nothing else changes; -1 exactly for a missing inode or an offset behind the end |
| Rofs.ReadDentryByName | student-distrib/rofs.c:70-87 | finds the first entry equal to the name on 32 characters, and fails exactly when there is none |
| Rofs.Lookup | student-distrib/rofs.c:70-87 | an entry found has the name and no earlier one has; none found means no entry has it |
| Rofs.NamedIs | student-distrib/rofs.c:74-74 | an entry has a name when both agree, byte by byte, up to a NUL in both or for 32 bytes |
| Rofs.LookupInvertsNameOf | student-distrib/rofs.c:70-111 | looking up entry i's name gives entry i for every i if and only if names are distinct |
| Rofs.LookupTruncates | student-distrib/rofs.c:74-74 | only the first 32 characters of a requested name matter |
| Bytes.Strncmp | student-distrib/lib.c:519-537 | zero exactly when the strings agree as far as n characters go; otherwise the difference of the first characters that differ, as signed characters |
| Bytes.Strncpy | student-distrib/lib.c:569-584 | n bytes become the C string and then NULs; all other bytes stay |
| FileTable.StepKeepsTable | student-distrib/syscalls.c:229-367 | every open, close, read and write keeps descriptors 0 and 1 open and every position within its file or directory |
| FileTable.AfterAll | student-distrib/syscalls.c:229-367 | the same after any run of these calls |
| FileTable.OpenTakesLeast | student-distrib/syscalls.c:281-334 | open returns the least free descriptor from 2 up and adds only it to the open ones, or fails, leaving the open set as it was, exactly when the name cannot be opened or none is free |
| FileTable.CloseExactly | student-distrib/syscalls.c:346-367 | close succeeds exactly on open descriptors from 2 up and removes only that one |
| FileTable.CloseUndoesOpen | student-distrib/syscalls.c:281-367 | closing what was opened gives back the open set |
| FileTable.ReadsAddUp | student-distrib/rofs.c:173-198 | reads of any sizes one after the other yield the file's text from where they began: the result depends on the sum of the sizes only |
| FileTable.TextAt | student-distrib/rofs.c:187-193 | byte i of a file as programs see it is byte i of the image if that is 32 to 126, 9 or 10, and 32 otherwise |
| FileTable.TextIsFlatIff | student-distrib/rofs.c:187-193 | programs see a file as it is if and only if it holds only such bytes |
| FileTable.FetchedAt | student-distrib/rofs.c:173-198 | the same for byte i of one read, counted from the position |
| FileTable.DirectoryInOrder | student-distrib/rofs.c:220-239 | the n-th 32-byte read of the directory returns the n-th name, and all reads behind the end return 0 |
| FileTable.DirectoryRead | student-distrib/rofs.c:220-239 | one directory read of any size, byte by byte: the name, then NULs, at most 32 and at most as many as asked for; the count is the length of the name |
| FileTable.InitFiles | student-distrib/syscalls.c:506-520 | the loop leaves descriptors 0 and 1 open on keyboard and screen and 2 to 7 closed |
| FileTable.NewTableIsClosed | student-distrib/syscalls.c:506-520 | a new process has exactly descriptors 0 and 1 open, on keyboard and screen |
| FileTable.OpenWrites | student-distrib/syscalls.c:281-334 | open succeeds exactly for an existing entry of type 0, 1 or 2 with a descriptor free; it notes the inode, position 0 and the device of the type, and changes no open descriptor |
| FileTable.FirstOpenIsTwo | student-distrib/syscalls.c:281-334 | the first open of a new process returns 2 exactly for an existing entry of type 0, 1 or 2, and -1 otherwise |
| Process.Process.constructor | student-distrib/syscalls.c:506-520 | a process works on the descriptors in its control block and on the console it is given |
| Process.Process.OpenAs | student-distrib/rofs.c:153-164 | succeeds exactly when the name exists with that type |
| Process.Process.Open | student-distrib/syscalls.c:281-334 | the table and the result are those of the open step; the second look-up never fails |
| Process.Process.Close | student-distrib/syscalls.c:346-367 | the table and the result are those of the close step |
| Process.Process.BlankOut | student-distrib/rofs.c:187-193 | in place, every byte outside 32 to 126 that is neither 9 nor 10 becomes 32; all others stay |
| Process.Process.FileRead | student-distrib/rofs.c:173-198 | the buffer gets the next part of the file, byte by byte as it is in the image or a blank for a byte outside 32 to 126, 9 and 10; the position moves by as much, nothing else changes |
| Process.Process.DirRead | student-distrib/rofs.c:220-239 | the buffer gets the next name padded with NULs, the length of the name is returned, 0 at the end |
| Process.Process.Read | student-distrib/syscalls.c:229-242 | -1 and no effect exactly on descriptors that cannot be read; otherwise the effect of the file, directory or clock read |
| Process.Process.ReadKeyboard | student-distrib/syscalls.c:229-242 | descriptor 0 gives the pending line |
| Process.Process.Write | student-distrib/syscalls.c:256-269 | only descriptor 1 changes the screen, and with a negative count not even that; the clock takes four bytes or more; everything else fails; no descriptor changes |
| Programs.WriteAppend | student-distrib/terminal.c:274-290 | writing two texts in turn is writing their concatenation, if the first has no NUL |
| Programs.RestSplit | student-distrib/rofs.c:173-239 | a read takes its piece off the front of what is left, and returns 0 only when nothing is |
| Programs.CatLoop | syscalls/ece391cat.c:21-28 | ends, with everything that was left to read written to the terminal, in order and once |
| Programs.Cat | syscalls/ece391cat.c:16-30 | on a regular file exactly the whole filtered file appears on the terminal; on the directory the names; a message and 2 when it cannot be opened |
| Programs.CatShows | syscalls/ece391cat.c:21-28 | what cat shows of a regular file: as many bytes as the file has, each as it is in the image if it is 32 to 126, 9 or 10, and a blank otherwise |
| Programs.ListingIsComplete | syscalls/ece391ls.c:18-26 | `ls` shows all names if and only if none is empty |
| Programs.LinesOfDirectory | syscalls/ece391ls.c:18-26 | the pieces read from the directory, as lines, are its names in order up to an empty one |
| Programs.WriteLine | syscalls/ece391ls.c:23-25 | a piece in the buffer is written with a newline behind it, leaving the lines after it to be written |
| Programs.LsLoop | syscalls/ece391ls.c:18-26 | ends, having printed the piece of every 32-byte read as a line, in order |
| Programs.Ls | syscalls/ece391ls.c:13-28 | on the directory exactly its names appear, one per line; on anything else its pieces; a message and 2 when "." cannot be opened |
| GrepSpec.WantedIs | syscalls/ece391grep.c:40-52 | what the wanted report is, in bytes: the text is cut at newlines, and for a line with something, the search string and something in it the name, a colon, the line and a newline are shown |
| GrepSpec.ContainsIs | syscalls/ece391grep.c:42-44 | a line contains the search string exactly when it is that string with anything before and behind it |
| GrepSpec.FoundFront | syscalls/ece391grep.c:40-52 | a complete line that fits the buffer can be reported and dropped, leaving the report of the rest |
| GrepSpec.FoundFull | syscalls/ece391grep.c:40-56 | a buffer full of one line can be searched as if it were a line, leaving the report of the rest |
| GrepSpec.FoundIsWanted | syscalls/ece391grep.c:21-60 | cutting lines at 1024 bytes changes the report if and only if a line with the search string is longer than that |
| GrepSpec.LinesAround | syscalls/ece391grep.c:29-34 | cutting a text in two touches only the line that the border goes through |
| GrepSpec.BrokenIsWanted | syscalls/ece391grep.c:31-33 | with a stray newline, the report on a file is right if and only if the matching lines fit and the newline goes into none of them |
| GrepSpec.ShortIsSafe | syscalls/ece391grep.c:22-33 | a file of at most 1024 bytes is reported as if there were no stray newline |
| GrepSpec.PrintedIsWanted | syscalls/ece391grep.c:45-48 | with and without a stray newline, the bytes on the terminal are the wanted ones exactly under the same condition |
| GrepSpec.RenderInjective | syscalls/ece391grep.c:45-48 | different lists of lines look different on the terminal |
| GrepSpec.StrayLoses | syscalls/ece391grep.c:31-33 | for every search string up to the buffer size there is a file on which a newline left in the spare byte loses the match |
| GrepSpec.RightForAllFilesIff | syscalls/ece391grep.c:13-60 | over all texts a file can have: the report is right whenever the matching lines fit if and only if the spare byte does not start as a newline or no line that fits can contain the string |
| Grep.Strlen | syscalls/ece391support.c:6-12 | the distance to the first NUL |
| Grep.StrcpyDown | syscalls/ece391support.c:14-17 | copying a string towards the front of its own buffer moves it with its terminator and changes nothing behind |
| Grep.StrncmpAt | syscalls/ece391support.c:35-46 | zero exactly when the first n characters are there |
| Grep.FindEnd | syscalls/ece391grep.c:30-32 | the first newline of the filled part, or its end |
| Grep.LineContains | syscalls/ece391grep.c:42-51 | true exactly when the search string occurs somewhere in the line |
| Grep.PutLine | syscalls/ece391grep.c:45-48 | the four writes put name, colon, line and newline on the terminal |
| Grep.CarryLine | syscalls/ece391grep.c:33-39 | carrying the partial line to the front leaves the text still to be searched as it was |
| Grep.TakeLine | syscalls/ece391grep.c:40-52 | searching a line reports it if it matches and leaves the report of what is behind it |
| Grep.ScanBuffer | syscalls/ece391grep.c:28-57 | the inner loop reports what is complete in the buffer, carries less than a buffer, and together with the unread text nothing is lost, doubled or moved |
| Grep.Refill | syscalls/ece391grep.c:22-27 | reading more leaves buffer and unread text together the same, and ends exactly at the end of the file; of a directory it reads one name |
| Grep.NameReported | syscalls/ece391grep.c:22-56 | each name read from a directory is searched as a line, and nothing of it is carried on |
| Grep.Round | syscalls/ece391grep.c:21-59 | one read and the scan of the buffer leave what is still to be reported as it was |
| Grep.RightIsWanted | syscalls/ece391grep.c:13-60 | the report on a file, directory or device is the wanted one if and only if the stated condition on lines, buffer border and spare byte holds |
| Grep.ScanFile | syscalls/ece391grep.c:20-60 | the outer loop ends and prints the lines of the whole file, or the names of a directory, that contain the string, each once, in order, as seen through the buffer |
| Grep.DoOneFile | syscalls/ece391grep.c:9-66 | under exactly that condition "split into lines, keep those with the string" is printed; in general the report through the buffer; all descriptors end as they were |
| GrepProgram.ReportIsComplete | syscalls/ece391grep.c:84-94 | up to the entry at which it ends, the report is every matching line of every file in directory order, names beginning with a period left out; it ends with 0 at the end of the directory or at an entry without a name, with a message and 3 at one that cannot be opened |
| GrepProgram.HandleEntry | syscalls/ece391grep.c:85-93 | one entry is passed over or searched, leaving the report of the others, or ends the program |
| GrepProgram.SearchAll | syscalls/ece391grep.c:84-96 | the loop over the directory ends and prints the reports of its files in order, and descriptors never run out on the way |
| GrepProgram.GrepMain | syscalls/ece391grep.c:68-97 | the whole program after getargs: that output and exit code, or a message and 2 when the directory cannot be opened |
| Session.Argument | syscalls/ece391cat.c:11-14 | getargs leaves the running process's arguments in the buffer as a C string, and fails exactly when there are none |
| Session.CatMain | syscalls/ece391cat.c:6-31 | the whole of cat in the running process: usage message and 3 without an argument, otherwise text and exit code for the file that the argument names |
| Session.LsMain | syscalls/ece391ls.c:8-29 | the whole of ls in a new process |
| Session.GrepMain | syscalls/ece391grep.c:68-97 | the whole of grep in the running process, with its argument from getargs |
| Session.NewProcess | student-distrib/syscalls.c:506-520 | a process that was just started has the descriptors of its control block, which are new ones |
| Session.RunOnDesk | syscalls/ece391cat.c:6-31 | what the program of the running process writes appears on the current one of the three consoles and on no other |
| Session.RunProgram | syscalls/ece391cat.c:6-31 | the same as joint steps: the output is written, the process's descriptors are in its control block, and no other process changes |
| Session.ExecuteLeads | student-distrib/syscalls.c:151-190 | the program that a command starts has the text behind the first space as arguments, new descriptors and an empty kernel stack |
| Session.RefusalLeads | student-distrib/syscalls.c:132-148 | a call of execute that starts nothing changes no process, returns -1 for a name that is no program and 0 with the message when six processes live |
| Session.CallExecute | student-distrib/syscalls.c:101-190 | the caller's entry and execute: one or the other, exactly by what the name and the number of processes say |
| Session.HaltLeads | student-distrib/syscalls.c:75-89 | the halt of the started program gives the machine back to its caller, with the kernel entered further down by the caller's entry |
| Session.RunChild | student-distrib/syscalls.c:48-89 | entry, output and halt of the started program |
| Session.CommandLine | student-distrib/syscalls.c:48-215 | a command line determines the screen: cat, ls or grep, started by it on the current terminal, write what their argument behind the first space calls for, the other consoles and all other processes stay, the caller is resumed with the exit code and its kernel stack begins lower by the bytes of its entry |
| Shell.ReadLine | syscalls/ece391shell.c:14-22 | while the shell reads, keys and backspaces are echoed; the command is their push/pop result without a newline at its end |
| Shell.Execute | syscalls/ece391shell.c:26-26 | execute as the shell calls it: messages, output and result, and what it costs on the kernel stack |
| Shell.Round | syscalls/ece391shell.c:13-33 | one round of the loop: prompt, line, output and the shell's words, in this order and on this terminal only |
| Shell.Rounds | syscalls/ece391shell.c:13-33 | any number of rounds: the terminal sees exactly the operations of the rounds in order, and the kernel stack begins lower by the sum of the entries of the commands that started a program |
| Shell.DialogueFitsIff | student-distrib/syscalls.c:184-186 | whatever lines are typed: every entry of the dialogue spares the shell's control block if and only if the sizes do |
| Shell.ShellMain | syscalls/ece391shell.c:7-34 | the shell's main with its first words |
| Shell.SessionShows | syscalls/ece391shell.c:7-34 | when nothing is taken back, the screen is the window over banner, words, prompts, typed lines and outputs in order |
| Shell.RoundShows | syscalls/ece391shell.c:13-33 | a round with a typed line shows the prompt, the line, a new row and the answer, in bytes: "no such command" when the word names no ELF file, the message when six processes live, otherwise what cat, ls or grep write, with "program terminated abnormally" when they fail |
| Shell.SessionReads | syscalls/ece391shell.c:7-34 | the greeting and then all rounds, in order |
| Shell.PowerOnShows | syscalls/ece391shell.c:7-34 | after any lines typed from power-on the screen is the window over the banner, the greeting and all rounds |
| Shell.FromPowerOn | student-distrib/kernel.c:163-164 | the machine from start-up with any dialogue at its first shell: a run of processes and consoles that does just that, and that screen |
| Blink.ClosedForm | fish/blink.S:49-99 | a node's countdown and status any number of ticks after it was added, in closed form, for all 16-bit lengths |
| Blink.ClosedFormPositive | fish/blink.S:49-99 | for lengths from 1 to 32767: on with on-r left if r is below on, else off with on+off-r left, where r is the number of ticks modulo on+off |
| Blink.Lockstep | fish/blink.S:267-275 | nodes with equal timing have equal timing after any number of ticks |
| Blink.InsertThreads | fish/blink.S:159-162 | linking a free slot in at the head keeps the list acyclic and exactly the used slots in it, with the new node first |
| Blink.InsertThreadsIff | fish/blink.S:131-162 | there is a list of exactly the used slots after linking in if and only if the location is not 0 |
| Blink.ZeroLocationMakesCycle | fish/fish.c:161-171 | after an addition at location 0 the next one takes the same slot and makes it point to itself |
| Blink.RemoveThreads | fish/blink.S:206-222 | redirecting the one link to a node and zeroing its slot takes exactly that node out and keeps the order of the others |
| Blink.NodesTickAlone | fish/blink.S:60-90 | any number of ticks of the list are as many ticks of each node by itself; links and locations stay |
| Blink.TicksKeepList | fish/blink.S:60-90 | ticking keeps the list |
| Blink.SyncKeepsList | fish/blink.S:267-275 | a sync changes only the timing of the one node |
| Blink.SyncedStayInStep | fish/blink.S:240-275 | two synced nodes stay in step for any number of ticks, whatever else is in the list |
| Blink.PaintedAlone | fish/blink.S:68-86 | a tick pokes a node's new character exactly when the node toggles, and other nodes' pokes do not touch a place of its own |
| Blink.ShowsForEver | fish/blink.S:49-99 | a node alone at its place that shows its character does so after any number of ticks |
| Blink.BlinksInPhase | fish/blink.S:49-99 | what is seen of an added node: its on-character for the on-length, its off-character for the off-length, and so on for ever |
| Blink.AddedBlinks | fish/blink.S:105-184 | a node that begins on with its on-length to go and its on-character drawn blinks from then on as its lengths and characters say |
| Blink.SyncShows | fish/blink.S:277-285 | the character that sync redraws is right exactly for a node that is off or has only one character |
| Blink.Blinker.Malloc | fish/fish.c:161-171 | the first slot with location 0, or NULL |
| Blink.Blinker.Add | fish/blink.S:105-184 | fails exactly for locations from 2000 on or a full pool; otherwise the node is put in front of the others and its on-character on the screen; any number of ticks later its timing is the closed form in the lengths of the argument, and at a place of its own it shows the on- or the off-character accordingly; the list survives exactly when the location is not 0 |
| Blink.Blinker.FindHelper | fish/blink.S:351-379 | a pointer to the most recently added node at the location, or NULL; only the low 16 bits count |
| Blink.Blinker.Find | fish/blink.S:302-349 | a copy of that node, or -1 |
| Blink.Blinker.Remove | fish/blink.S:187-237 | exactly the most recently added node at the location goes, the rest stays in order; -1 and no change when there is none |
| Blink.Blinker.Sync | fish/blink.S:240-300 | the second node takes lengths, countdown and status of the first, keeps its characters and place, and its off-character is drawn; -1 and no change when either is missing |
| Blink.Blinker.Tasklet | fish/blink.S:49-99 | walking the links ticks every used slot exactly once and no other, and pokes the characters of those that toggle in list order |
| Blink.Blinker.FullMeansNoFree | fish/fish.c:161-171 | the list has 2000 nodes exactly when no slot has location 0 |
| Numbers.DigitsMean | student-distrib/lib.c:264-269 | for every radix from 2 to 36, reading the digits back gives the value, and there is no leading zero |
| Numbers.ValueFront | student-distrib/lib.c:264-269 | digits are read from the left: the first one counts for as many powers of the radix as digits follow it |
| Numbers.DigitTable | student-distrib/lib.c:246-246 | the digits are those of the look-up table |
| Numbers.DigitsUnique | student-distrib/lib.c:264-269 | no other string of digits without leading zeros has that value |
| Numbers.WordFits | student-distrib/lib.c:139-141 | a 32-bit value has at most 32 digits, in hexadecimal at most 8, so 33 bytes are enough |
| Numbers.Itoa | student-distrib/lib.c:244-276 | the buffer holds exactly those digits and a terminator, and no other byte is touched |
| Numbers.Strlen | student-distrib/lib.c:311-318 | the length of the string at the address |
| Numbers.Strrev | syscalls/ece391support.c:84-103 | the string is reversed in place and no other byte is touched |
| Numbers.FormatHex | student-distrib/lib.c:115-134 | `%#x` prints exactly eight hexadecimal digits with the value |
| Numbers.FormatSigned | student-distrib/lib.c:147-160 | `%d` prints the digits of the magnitude, with a minus sign for negative values, the least 32-bit number included |
| MemoryMoves.Memset | student-distrib/lib.c:330-366 | for every address and length exactly those bytes get the low byte of the value |
| MemoryMoves.Memcpy | student-distrib/lib.c:431-470 | for every alignment and length the destination gets the old source bytes, without overlap or with the destination below the source |
| MemoryMoves.Memmove | student-distrib/lib.c:482-503 | the destination gets the old source bytes for every overlap, and no other byte changes |

## Left out

- Register- and stack-level context switching: `iret`, the jump of `halt` and saved base pointers are one atomic change of the running process. The kernel stack pointer is kept as an address; how many bytes an entry uses is a parameter.
- Kernel.Kernel.EnterKernel: the calls behind an entry (`Kernel.Kernel.Execute`, `Kernel.Kernel.Halt`, `Kernel.Kernel.SwitchTerminal`, `Kernel.Kernel.GetArgs`) are proved for entries that fit above the control block (`Kernel.Kernel.Entered`), which this method decides. What the kernel does with a control block its stack has run into, or with another process's, is not modelled; `StackUse` says when that is.
- Kernel.Kernel.Execute: commands of 128 characters and more overrun the source's buffers and are excluded; the ELF entry point and the copy of the program into its block are not modelled.
- Kernel.Kernel.Halt: the `close` calls on open descriptors are not part of it; they change no record modelled here, since the flags are not cleared.
- Kernel.Kernel.GetArgs: a negative count, which the source passes on to `memcpy` as a huge one, is excluded.
- The image is assumed to be well formed and to hold a runnable "shell". Null pointers passed to system calls are not modelled, except in `execute` and `vidmap`.
- `switch_terminal` has two halves, one for processes (`Kernel`) and one for consoles (`Terminals`), which `Together` joins. A running program works on its descriptors as `Process` has them, an array that starts out as the table in its control block and is written back there before it halts; in the source both are the same memory.
- Terminals.TerminalSet.TerminalStart: the banner and the refusal message are parameters; `Together.SourceTexts` gives the texts of the source, which hold no percent sign. The scanning of `printf` formats is left out.
- Terminals.TerminalSet.InitTerminals: the source fills the three pages in one loop, the model one page after the other.
- Console.LiveConsole.HandleBackspace: excluded with the cursor in the top left corner, where the source writes in front of video memory; `Console.Allowed` is the condition.
- Console.LiveConsole.TerminalRead: excluded when 128 characters are pending and 128 or more are asked for, where the source reads past the key buffer. Waiting for Enter is a precondition. The flag `enter_pressed`, which the terminals share, is not part of `Terminals.ConsolesAreIndependent`; `EnterFlag.RightAlongIff` says when each terminal is as if it had one of its own.
- Arrow keys, Ctrl+L, the shift and caps-lock tables and `right_bound`: the keys move the position without regard to the buffer.
- Rofs.ReadData: offsets and counts whose 32-bit sum wraps are excluded, and `file_read` is not called with negative counts.
- Process.Process.DirRead: for a name of 32 characters the source's `strlen` runs into the next field; only the minimum with 32 is used, and that is modelled.
- Process.Process.Read: the clock device's wait for its next tick is left out; its ports and rates are not modelled, so `write` to it only reports success.
- Grep.DoOneFile: a directory whose entries have a newline in their names is excluded. Search strings are non-empty, as `getargs` delivers them. Read errors, which cannot happen on the image, are shown not to.
- GrepProgram.GrepMain: what the uninitialised buffer holds at each call is a parameter, and "." is assumed to be the directory when it is in the image. The argument is a parameter; `Session.GrepMain` gets it from `getargs`.
- Blink.Blinker.Add: the copies from and to user memory are assumed to succeed.
- Numbers.Itoa: the user-space copy returns early for strings of length 0 and 1 in its reversal, with the same result, and is covered by the same method.
- MemoryMoves.Memmove: the direction flag that the source leaves set after a downward move is not modelled.
- MemoryMoves.Memcpy: in the consoles and the kernel a copy between different buffers is `Bytes.CopyBytes`, byte by byte.
- Session.CommandLine: which program a file holds is a parameter, since instructions are not modelled; the program's entries to the kernel are taken together as one.
- Shell.Rounds: a line whose first word begins with "exit" ends the shell and is not part of a dialogue; lines of 128 characters and more overrun the source's buffers and are excluded (`Console.Allowed`). The entries of the shell's own reads and writes, which come back, are not counted; those of `execute` are.
- Not modelled: `read_dentry_by_index`, which has no caller, `memset_word`, `memset_dword`, `remapVideo`, `strcpy`, signals, interrupt controllers, descriptor tables, start-up code, and the programs that play a fixed scenario.
