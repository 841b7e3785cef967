/**
 * Page tables (paging.c) and what the processor makes of them: 32-bit paging with 4-MByte
 * pages enabled, section 4.3 of the Intel Software Developer's Manual, volume 3A.
 */
module Paging {
  import opened Bytes
  import opened Limits

  const ENTRIES := 1024
  const FOUR_KB := 4096
  const FOUR_MB := 0x40_0000

  const VIDEO := 0xB8000
  const VIRTUAL_START := 0x800_0000
  const VIRTUAL_END := 0x840_0000
  const PHYSICAL_START := 0x80_0000
  const TERM_MEM := 0x640_0000

  /**
   * `address | flags`, for a page address: the words have no bit in common, so that the
   * bitwise or is their sum.
   */
  function WithFlags(address: nat, flags: nat): (e: nat)
    requires address % FOUR_KB == 0 && flags < FOUR_KB
    ensures e / FOUR_KB * FOUR_KB == address && e % FOUR_KB == flags
  {
    address + flags
  }

  // bits of an entry

  predicate Present(e: nat) {
    e % 2 == 1
  }

  predicate User(e: nat) {
    e / 4 % 2 == 1
  }

  /** In a directory entry: it maps 4MB itself. */
  predicate Big(e: nat) {
    e / 128 % 2 == 1
  }

  // ----- the processor -----

  /** A page, or a page fault. */
  datatype Mapping = Fault | Page(physical: nat, user: bool)

  /** The final step of a translation, from a page-table entry. */
  function FromTable(pde: nat, pte: nat, va: nat): Mapping {
    if !Present(pte) then Fault
    else Page(pte / FOUR_KB * FOUR_KB + va % FOUR_KB, User(pde) && User(pte))
  }

  // ----- the address space the kernel means to have -----

  /** The state of the tables: which process is mapped, whether vidmap was called, how many terminal pages there are. */
  datatype Space = Space(top: Option<nat>, vidmapped: bool, terms: nat)

  predicate SpaceOk(m: Space) {
    (m.top.Some? ==> m.top.value < MAX_PROCESSES) && m.terms <= MAX_TERMINALS
  }

  /** The physical address of the first byte of a process's 4MB block. */
  function Block(pid: nat): nat {
    PHYSICAL_START + pid * FOUR_MB
  }

  predicate Within(va: nat, start: nat, size: nat) {
    start <= va < start + size
  }

  /** Where every address goes. */
  function Mapped(m: Space, va: nat): Mapping {
    if Within(va, VIDEO, FOUR_KB) then Page(va, false)
    else if Within(va, FOUR_MB, FOUR_MB) then Page(va, false)
    else if Within(va, VIRTUAL_START, FOUR_MB) && m.top.Some? then Page(Block(m.top.value) + (va - VIRTUAL_START), true)
    else if m.terms > 0 && Within(va, TERM_MEM, FOUR_MB) then Shared(m, va - TERM_MEM)
    else if m.vidmapped && Within(va, VIRTUAL_END, FOUR_MB) then Shared(m, va - VIRTUAL_END)
    else Fault
  }

  /** The 4MB region behind `userTable`, which the terminals and vidmap both use. */
  function Shared(m: Space, offset: nat): Mapping {
    if offset < FOUR_KB then (if m.vidmapped then Page(VIDEO + offset, true) else Fault)
    else if offset < (m.terms + 1) * FOUR_KB then Page(TERM_MEM + offset, true)
    else Fault
  }

  // ----- properties of that space -----

  /** Blocks of different processes, the kernel, video memory and the terminal pages have no byte in common. */
  lemma {:induction false} BlocksDisjoint(p: nat, q: nat, i: nat, j: nat)
    requires p < MAX_PROCESSES && q < MAX_PROCESSES && i < FOUR_MB && j < FOUR_MB
    ensures Block(p) + i == Block(q) + j <==> p == q && i == j
    ensures !Within(Block(p) + i, FOUR_MB, FOUR_MB) && !Within(Block(p) + i, VIDEO, FOUR_KB)
    ensures !Within(Block(p) + i, TERM_MEM, 4 * FOUR_KB)
  {
    if p < q {
      assert Block(p) + FOUR_MB <= Block(q);
    } else if q < p {
      assert Block(q) + FOUR_MB <= Block(p);
    }
  }

  /** What one process can reach of its block, no address leads to while another process is mapped. */
  lemma {:induction false} ProcessesIsolated(m: Space, n: Space, va: nat, vb: nat)
    requires SpaceOk(m) && SpaceOk(n) && m.top.Some? && n.top.Some? && m.top != n.top
    requires VIRTUAL_START <= va < VIRTUAL_END && Mapped(n, vb).Page?
    ensures Mapped(m, va).Page? && Mapped(m, va).physical != Mapped(n, vb).physical
  {
    BlocksDisjoint(m.top.value, n.top.value, va - VIRTUAL_START,
                   if Within(vb, VIRTUAL_START, FOUR_MB) then vb - VIRTUAL_START else 0);
  }

  /** Two addresses share a byte only in video memory and the terminal pages, and only once vidmap was called. */
  lemma {:induction false} AliasesAreShared(m: Space, va: nat, vb: nat)
    requires SpaceOk(m) && va != vb && Mapped(m, va).Page? && Mapped(m, vb).Page?
    requires Mapped(m, va).physical == Mapped(m, vb).physical
    ensures m.vidmapped
    ensures Within(Mapped(m, va).physical, VIDEO, FOUR_KB)
         || Within(Mapped(m, va).physical, TERM_MEM + FOUR_KB, 3 * FOUR_KB)
  {
    if m.top.Some? {
      if Within(va, VIRTUAL_START, FOUR_MB) {
        BlocksDisjoint(m.top.value, m.top.value, va - VIRTUAL_START, 0);
      }
      if Within(vb, VIRTUAL_START, FOUR_MB) {
        BlocksDisjoint(m.top.value, m.top.value, vb - VIRTUAL_START, 0);
      }
    }
  }

  /** Mapping another process or calling vidmap leaves the kernel, video and terminal pages where they were. */
  lemma {:induction false} FixedPagesStay(m: Space, top: Option<nat>, va: nat)
    requires SpaceOk(m) && (va < VIRTUAL_START || va >= VIRTUAL_END)
    ensures Mapped(m.(top := top), va) == Mapped(m, va)
    ensures Mapped(m, va).Page? ==> Mapped(m.(vidmapped := true), va) == Mapped(m, va)
  {
  }

  // ----- in place -----

  class PageTables {
    const pageDir: array<nat>
    const pageTable: array<nat>
    const userTable: array<nat>
    /** Where the two tables lie: kernel memory, mapped one to one. */
    const pageTableAddress: nat
    const userTableAddress: nat
    ghost var space: Space

    constructor (pageTableAddress: nat, userTableAddress: nat)
      requires pageTableAddress % FOUR_KB == 0 && userTableAddress % FOUR_KB == 0
      requires pageTableAddress != userTableAddress
      ensures fresh(pageDir) && fresh(pageTable) && fresh(userTable) && Shape()
      ensures forall i :: 0 <= i < ENTRIES ==> userTable[i] == 0
    {
      pageDir, pageTable, userTable := new nat[ENTRIES](_ => 0), new nat[ENTRIES](_ => 0), new nat[ENTRIES](_ => 0);
      this.pageTableAddress, this.userTableAddress := pageTableAddress, userTableAddress;
      space := Space(None, false, 0);
    }

    ghost predicate Shape() {
      && pageDir.Length == pageTable.Length == userTable.Length == ENTRIES
      && pageDir != pageTable && pageDir != userTable && pageTable != userTable
      && pageTableAddress % FOUR_KB == 0 && userTableAddress % FOUR_KB == 0 && pageTableAddress != userTableAddress
    }

    ghost function DirEntry(m: Space, i: nat): nat {
      if i == 0 then pageTableAddress + 3
      else if i == 1 then FOUR_MB + 0x83
      else if i == TERM_MEM / FOUR_MB && m.terms > 0 then userTableAddress + 7
      else if i == VIRTUAL_START / FOUR_MB && m.top.Some? then Block(m.top.value) + 0x87
      else if i == VIRTUAL_END / FOUR_MB && m.vidmapped then userTableAddress + 7
      else 2
    }

    ghost function UserEntry(m: Space, i: nat): nat {
      if i == 0 then (if m.vidmapped then VIDEO + 7 else 0)
      else if i <= m.terms then TERM_MEM + i * FOUR_KB + 7
      else 0
    }

    ghost predicate Valid()
      reads this, pageDir, pageTable, userTable
    {
      && Shape() && SpaceOk(space)
      && (forall i :: 0 <= i < ENTRIES ==> pageDir[i] == DirEntry(space, i))
      && (forall i :: 0 <= i < ENTRIES ==> pageTable[i] == FOUR_KB * i + (if i == VIDEO / FOUR_KB then 3 else 2))
      && (forall i :: 0 <= i < ENTRIES ==> userTable[i] == UserEntry(space, i))
    }

    lemma {:induction false} ValidShape()
      requires Valid()
      ensures Shape()
    {
    }

    /** Address translation by the processor, from the tables in memory. */
    function Translate(va: nat): Mapping
      requires Shape() && va < TWO_TO_32
      reads pageDir, pageTable, userTable
    {
      var pde := pageDir[va / FOUR_MB];
      var table, index := pde / FOUR_KB * FOUR_KB, va / FOUR_KB % ENTRIES;
      if !Present(pde) then Fault
      else if Big(pde) then Page(pde / FOUR_MB * FOUR_MB + va % FOUR_MB, User(pde))
      else if table == pageTableAddress then FromTable(pde, pageTable[index], va)
      else if table == userTableAddress then FromTable(pde, userTable[index], va)
      else Fault
    }

    static lemma {:induction false} ParityOfSum(k: nat, q: nat)
      ensures (2 * k + q) % 2 == q % 2
    {
    }

    /** An entry is taken apart again. */
    static lemma {:induction false} EntryParts(page: nat, flags: nat)
      requires flags < 4096
      ensures var e := 4096 * page + flags;
              && e / FOUR_KB == page && (Present(e) <==> Present(flags))
              && (User(e) <==> User(flags)) && (Big(e) <==> Big(flags))
    {
      var e := 4096 * page + flags;
      assert e / 4 == 2 * (512 * page) + flags / 4;
      assert e / 128 == 2 * (16 * page) + flags / 128;
      ParityOfSum(2048 * page, flags);
      ParityOfSum(512 * page, flags / 4);
      ParityOfSum(16 * page, flags / 128);
    }

    lemma {:induction false} TranslateLow(va: nat)
      requires Valid() && va < FOUR_MB
      ensures Translate(va) == Mapped(space, va)
    {
      var k := va / FOUR_KB;
      var flags := if k == VIDEO / FOUR_KB then 3 else 2;
      EntryParts(pageTableAddress / FOUR_KB, 3);
      EntryParts(k, flags);
      assert pageDir[va / FOUR_MB] == FOUR_KB * (pageTableAddress / FOUR_KB) + 3;
      assert va / FOUR_KB % ENTRIES == k && pageTable[k] == FOUR_KB * k + flags;
    }

    lemma {:induction false} TranslateBig(va: nat)
      requires Valid() && va < TWO_TO_32 && (Within(va, FOUR_MB, FOUR_MB) || Within(va, VIRTUAL_START, FOUR_MB))
      ensures Translate(va) == Mapped(space, va)
    {
      var i := va / FOUR_MB;
      assert pageDir[i] == DirEntry(space, i);
      if i == 1 {
        BigEntry(1, 0x83);
      } else if space.top.Some? {
        BigEntry(2 + space.top.value, 0x87);
      }
      assert va % FOUR_MB == va - i * FOUR_MB;
    }

    /** The entry of a 4MB page, taken apart. */
    static lemma {:induction false} BigEntry(block: nat, flags: nat)
      requires flags == 0x83 || flags == 0x87
      ensures var e := FOUR_MB * block + flags;
              e / FOUR_MB == block && Present(e) && Big(e) && (User(e) <==> flags == 0x87)
    {
      EntryParts(ENTRIES * block, flags);
    }

    static lemma {:induction false} SharedIndex(region: nat, offset: nat)
      requires offset < FOUR_MB
      ensures var va := region * FOUR_MB + offset;
              && va / FOUR_MB == region && va / FOUR_KB % ENTRIES == offset / FOUR_KB
              && va % FOUR_KB == offset % FOUR_KB
    {
      var va := region * FOUR_MB + offset;
      assert va == FOUR_KB * (ENTRIES * region) + offset;
      assert va / FOUR_KB == ENTRIES * region + offset / FOUR_KB;
    }

    lemma {:induction false} TranslateShared(va: nat, base: nat)
      requires Valid() && va < TWO_TO_32 && Within(va, base, FOUR_MB)
      requires (base == TERM_MEM && space.terms > 0) || (base == VIRTUAL_END && space.vidmapped)
      ensures Translate(va) == Shared(space, va - base)
    {
      var offset := va - base;
      var k := offset / FOUR_KB;
      SharedIndex(base / FOUR_MB, offset);
      EntryParts(userTableAddress / FOUR_KB, 7);
      EntryParts(VIDEO / FOUR_KB, 7);
      EntryParts(TERM_MEM / FOUR_KB + k, 7);
      assert pageDir[va / FOUR_MB] == FOUR_KB * (userTableAddress / FOUR_KB) + 7;
      assert userTable[k] == UserEntry(space, k);
    }

    /** The tables do what the address space says, for every 32-bit address. */
    lemma {:induction false} TranslateIsMapped(va: nat)
      requires Valid() && va < TWO_TO_32
      ensures Translate(va) == Mapped(space, va)
    {
      var i := va / FOUR_MB;
      if i == 0 {
        TranslateLow(va);
      } else if i == 1 || i == VIRTUAL_START / FOUR_MB {
        TranslateBig(va);
      } else if i == TERM_MEM / FOUR_MB && space.terms > 0 {
        TranslateShared(va, TERM_MEM);
      } else if i == VIRTUAL_END / FOUR_MB && space.vidmapped {
        TranslateShared(va, VIRTUAL_END);
      } else {
        assert pageDir[i] == 2;
      }
    }

    /** init_paging. */
    method InitPaging()
      requires Shape() && forall i :: 0 <= i < ENTRIES ==> userTable[i] == 0
      modifies this, pageDir, pageTable
      ensures Valid() && space == Space(None, false, 0)
    {
      var i := 0;
      while i < ENTRIES
        invariant 0 <= i <= ENTRIES
        invariant forall k :: 0 <= k < i ==> pageDir[k] == 2 && pageTable[k] == FOUR_KB * k + 2
      {
        pageDir[i] := 2;
        pageTable[i] := WithFlags(FOUR_KB * i, 2);
        i := i + 1;
      }
      pageDir[0] := WithFlags(pageTableAddress, 3);
      pageDir[1] := WithFlags(FOUR_MB, 0x83);
      pageTable[VIDEO / FOUR_KB] := pageTable[VIDEO / FOUR_KB] + 1; // |= 3, with the write bit set already
      space := Space(None, false, 0);
    }

    /** remap. */
    method Remap(vAddr: nat, pAddr: nat)
      requires Shape() && vAddr < TWO_TO_32 && pAddr % FOUR_KB == 0
      modifies pageDir
      ensures pageDir[..] == old(pageDir[..])[vAddr / FOUR_MB := pAddr + 0x87]
    {
      pageDir[vAddr / FOUR_MB] := WithFlags(pAddr, 0x87);
    }

    /** remapWithPageTable. */
    method RemapWithPageTable(vAddr: nat, pAddr: nat)
      requires Shape() && vAddr < TWO_TO_32 && pAddr % FOUR_KB == 0
      modifies pageDir, userTable
      ensures pageDir[..] == old(pageDir[..])[vAddr / FOUR_MB := userTableAddress + 7]
      ensures userTable[..] == old(userTable[..])[0 := pAddr + 7]
    {
      pageDir[vAddr / FOUR_MB] := WithFlags(userTableAddress, 7);
      userTable[0] := WithFlags(pAddr, 7);
    }

    /** remapToPage. */
    method RemapToPage(vAddr: nat, pAddr: nat, page: nat)
      requires Shape() && vAddr < TWO_TO_32 && pAddr % FOUR_KB == 0 && page < ENTRIES
      modifies pageDir, userTable
      ensures pageDir[..] == old(pageDir[..])[vAddr / FOUR_MB := userTableAddress + 7]
      ensures userTable[..] == old(userTable[..])[page := pAddr + 7]
    {
      pageDir[vAddr / FOUR_MB] := WithFlags(userTableAddress, 7);
      userTable[page] := WithFlags(pAddr, 7);
    }

    /** The program of `pid` becomes the one at 128MB. */
    method MapProcess(pid: nat)
      requires Valid() && pid < MAX_PROCESSES
      modifies this`space, pageDir
      ensures Valid() && space == old(space).(top := Some(pid))
    {
      Remap(VIRTUAL_START, PHYSICAL_START + pid * FOUR_MB);
      space := space.(top := Some(pid));
      ghost var entry := pageDir[VIRTUAL_START / FOUR_MB];
      assert forall i :: 0 <= i < ENTRIES ==> pageDir[i] == pageDir[..][i];
    }

    /** The three save pages of init_terminals. */
    method MapTerminals()
      requires Valid() && space.terms == 0
      modifies this`space, pageDir, userTable
      ensures Valid() && space == old(space).(terms := MAX_TERMINALS)
    {
      RemapToPage(TERM_MEM, TERM_MEM + FOUR_KB, 1);
      RemapToPage(TERM_MEM, TERM_MEM + 2 * FOUR_KB, 2);
      RemapToPage(TERM_MEM, TERM_MEM + 3 * FOUR_KB, 3);
      space := space.(terms := MAX_TERMINALS);
      assert forall i :: 0 <= i < ENTRIES ==> pageDir[i] == pageDir[..][i] && userTable[i] == userTable[..][i];
    }

    /**
     * vidmap: video memory appears at 132MB.  `screenStart` is the address of the pointer
     * to be set (zero for NULL), which is given as its new value; the comparison is signed.
     */
    method Vidmap(screenStart: nat) returns (r: int, pointer: nat)
      requires Valid() && screenStart < TWO_TO_32
      modifies this`space, pageDir, userTable
      ensures Valid()
      ensures if VIRTUAL_START <= screenStart <= VIRTUAL_END
        then r == 0 && pointer == VIRTUAL_END && space == old(space).(vidmapped := true)
        else r == -1 && space == old(space)
    {
      var signed := if screenStart >= TWO_TO_32 / 2 then screenStart - TWO_TO_32 else screenStart;
      if screenStart == 0 || signed < VIRTUAL_START || signed > VIRTUAL_END {
        return -1, 0;
      }
      RemapWithPageTable(VIRTUAL_END, VIDEO);
      space := space.(vidmapped := true);
      assert forall i :: 0 <= i < ENTRIES ==> pageDir[i] == pageDir[..][i] && userTable[i] == userTable[..][i];
      return 0, VIRTUAL_END;
    }
  }
}
