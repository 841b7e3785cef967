/**
 * Where process control blocks lie (get_pcb and get_current_pcb of syscalls.c): each process
 * has an 8KB block below 8MB, with its PCB at the bottom and its kernel stack at the top.
 */
module PcbLayout {
  import opened Paging

  const EIGHT_KB := 0x2000
  const MAX_PIDS := 512

  /** get_pcb. */
  function PcbAddress(pid: nat): int {
    PHYSICAL_START - EIGHT_KB * (pid + 1)
  }

  /** `esp & 0x00FFE000`, which get_current_pcb computes: bits 13 to 23 of the stack pointer. */
  function PcbOf(esp: nat): nat {
    esp % 0x100_0000 / EIGHT_KB * EIGHT_KB
  }

  /** The stack pointer that execute and terminal_load put into the TSS. */
  function Esp0(pid: nat): int {
    PHYSICAL_START - pid * EIGHT_KB - 4
  }

  /** sizeof(pcb_t): eight files of 28 bytes, a pid and 128 bytes of arguments (padded to 4), five words. */
  const PCB_SIZE := 376

  /** A stack pointer in the block that does not reach into the control block at its bottom. */
  predicate OnStack(esp: int, pid: nat) {
    PcbAddress(pid) + PCB_SIZE <= esp < PcbAddress(pid) + EIGHT_KB
  }

  predicate InBlock(esp: int, pid: nat) {
    PcbAddress(pid) <= esp < PcbAddress(pid) + EIGHT_KB
  }

  /** The numbers: 8KB blocks downwards from 8MB, the stack four bytes below the top, 376 bytes of control block. */
  lemma {:induction false} BlockNumbers(pid: nat, esp: int)
    ensures InBlock(esp, pid) <==> 0x80_0000 - 0x2000 * pid - 0x2000 <= esp < 0x80_0000 - 0x2000 * pid
    ensures OnStack(esp, pid) <==> 0x80_0000 - 0x2000 * pid - 0x2000 + 376 <= esp < 0x80_0000 - 0x2000 * pid
    ensures Esp0(pid) == 0x80_0000 - 0x2000 * pid - 4 && PcbAddress(pid) == 0x80_0000 - 0x2000 * pid - 0x2000
  {
  }

  /** The same on machine words, with the mask as the source has it. */
  lemma {:induction false} MaskOnWords(pid: bv32, offset: bv32)
    requires pid < 512 && offset < 0x2000
    ensures ((0x80_0000 - 0x2000 * (pid + 1)) + offset) & 0x00FF_E000 == 0x80_0000 - 0x2000 * (pid + 1)
  {
  }

  /**
   * The mask recovers a process's PCB from the stack pointers in its block and from no
   * other stack pointer in the kernel's 4MB page.
   */
  lemma {:induction false} MaskRecovers(pid: nat, esp: nat)
    requires pid < MAX_PIDS && FOUR_MB <= esp < PHYSICAL_START
    ensures PcbOf(esp) == PcbAddress(pid) <==> InBlock(esp, pid)
  {
    var k := 1023 - pid;
    assert PcbAddress(pid) == EIGHT_KB * k;
    assert esp % 0x100_0000 == esp;
    assert EIGHT_KB * (esp / EIGHT_KB) <= esp < EIGHT_KB * (esp / EIGHT_KB) + EIGHT_KB;
  }

  /** Blocks lie in the kernel's page, no two overlap, and the TSS stack top is in the right one. */
  lemma {:induction false} BlockFacts(p: nat, q: nat, esp: int)
    requires p < MAX_PIDS && q < MAX_PIDS
    ensures InBlock(esp, p) ==> FOUR_MB <= esp < PHYSICAL_START
    ensures InBlock(esp, p) && InBlock(esp, q) ==> p == q
    ensures (InBlock(Esp0(p), q) <==> p == q) && (OnStack(Esp0(p), q) <==> p == q)
  {
  }

  /** The pid whose PCB is at an address. */
  function PidAt(address: int): int {
    (PHYSICAL_START - address) / EIGHT_KB - 1
  }

  lemma {:induction false} PidAtAddress(pid: nat)
    ensures PidAt(PcbAddress(pid)) == pid
  {
  }
}
