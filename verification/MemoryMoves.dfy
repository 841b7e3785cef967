/**
 * The memory routines of lib.c, which are written in assembly: `mem` is memory, addresses
 * are indices, and the variables are the registers.
 */
module MemoryMoves {
  import opened Bytes

  /** memset: single bytes up to an aligned address, then four at a time, then the rest. */
  method Memset(mem: array<Byte>, s: nat, c: int, n: nat)
    requires s + n <= mem.Length
    modifies mem
    ensures mem[..] == Written(old(mem[..]), s, seq(n, _ => c % 256))
  {
    var al: Byte := c % 256;
    var edi, ecx := s, n;
    while ecx != 0 && edi % 4 != 0
      invariant s <= edi && edi + ecx == s + n && ecx >= 0
      invariant forall k {:trigger mem[k]} :: 0 <= k < mem.Length ==> mem[k] == if s <= k < edi then al else old(mem[k])
    {
      mem[edi] := al;
      edi := edi + 1;
      ecx := ecx - 1;
    }
    if ecx == 0 {
      return;
    }
    var edx := ecx % 4;
    ecx := ecx / 4;
    while ecx != 0
      invariant s <= edi && edi + 4 * ecx + edx == s + n && ecx >= 0
      invariant forall k {:trigger mem[k]} :: 0 <= k < mem.Length ==> mem[k] == if s <= k < edi then al else old(mem[k])
    {
      mem[edi], mem[edi + 1], mem[edi + 2], mem[edi + 3] := al, al, al, al;
      edi := edi + 4;
      ecx := ecx - 1;
    }
    while edx != 0
      invariant s <= edi && edi + edx == s + n && edx >= 0
      invariant forall k {:trigger mem[k]} :: 0 <= k < mem.Length ==> mem[k] == if s <= k < edi then al else old(mem[k])
    {
      mem[edi] := al;
      edi := edi + 1;
      edx := edx - 1;
    }
  }

  /** The state of a forward copy when `done` bytes have been moved. */
  ghost predicate MovedUp(mem: seq<Byte>, was: seq<Byte>, dest: nat, src: nat, done: int) {
    |mem| == |was| && forall k {:trigger mem[k]} :: 0 <= k < |was| ==>
      mem[k] == if dest <= k < dest + done && 0 <= src + (k - dest) < |was| then was[src + (k - dest)] else was[k]
  }

  /** A byte move, and a move of four bytes at once. */
  method MoveByte(mem: array<Byte>, edi: nat, esi: nat, ghost was: seq<Byte>, ghost dest: nat, ghost src: nat)
    requires dest <= edi < mem.Length && src <= esi < mem.Length && esi - src == edi - dest
    requires MovedUp(mem[..], was, dest, src, edi - dest) && (dest <= src || esi < dest)
    modifies mem
    ensures MovedUp(mem[..], was, dest, src, edi - dest + 1)
  {
    assert mem[esi] == was[esi];
    mem[edi] := mem[esi];
  }

  method MoveDword(mem: array<Byte>, edi: nat, esi: nat, ghost was: seq<Byte>, ghost dest: nat, ghost src: nat)
    requires dest <= edi && edi + 4 <= mem.Length && src <= esi && esi + 4 <= mem.Length && esi - src == edi - dest
    requires MovedUp(mem[..], was, dest, src, edi - dest) && (dest <= src || esi + 4 <= dest)
    modifies mem
    ensures MovedUp(mem[..], was, dest, src, edi - dest + 4)
  {
    assert mem[esi] == was[esi] && mem[esi + 1] == was[esi + 1];
    assert mem[esi + 2] == was[esi + 2] && mem[esi + 3] == was[esi + 3];
    mem[edi], mem[edi + 1], mem[edi + 2], mem[edi + 3] := mem[esi], mem[esi + 1], mem[esi + 2], mem[esi + 3];
  }

  lemma {:induction false} NothingMoved(was: seq<Byte>, dest: nat, src: nat)
    ensures MovedUp(was, was, dest, src, 0)
  {
  }

  lemma {:induction false} MovedAll(mem: seq<Byte>, was: seq<Byte>, dest: nat, src: nat, n: nat)
    requires MovedUp(mem, was, dest, src, n) && dest + n <= |was| && src + n <= |was|
    ensures mem == Written(was, dest, was[src..src + n])
  {
  }

  /**
   * memcpy, in the same three phases.  It copies upwards, so it is also right when the
   * destination overlaps the source from below.
   */
  method Memcpy(mem: array<Byte>, dest: nat, src: nat, n: nat)
    requires dest + n <= mem.Length && src + n <= mem.Length
    requires dest <= src || src + n <= dest
    modifies mem
    ensures mem[..] == Written(old(mem[..]), dest, old(mem[src..src + n]))
  {
    hide MovedUp;
    ghost var was := mem[..];
    NothingMoved(was, dest, src);
    var edi, esi, ecx := dest, src, n;
    while ecx != 0 && edi % 4 != 0
      invariant dest <= edi && edi + ecx == dest + n && esi - src == edi - dest && ecx >= 0
      invariant MovedUp(mem[..], was, dest, src, edi - dest)
    {
      MoveByte(mem, edi, esi, was, dest, src);
      edi, esi, ecx := edi + 1, esi + 1, ecx - 1;
    }
    if ecx == 0 {
      MovedAll(mem[..], was, dest, src, n);
      return;
    }
    var edx := ecx % 4;
    ecx := ecx / 4;
    while ecx != 0
      invariant dest <= edi && edi + 4 * ecx + edx == dest + n && esi - src == edi - dest && ecx >= 0
      invariant MovedUp(mem[..], was, dest, src, edi - dest)
    {
      MoveDword(mem, edi, esi, was, dest, src);
      edi, esi, ecx := edi + 4, esi + 4, ecx - 1;
    }
    while edx != 0
      invariant dest <= edi && edi + edx == dest + n && esi - src == edi - dest && edx >= 0
      invariant MovedUp(mem[..], was, dest, src, edi - dest)
    {
      MoveByte(mem, edi, esi, was, dest, src);
      edi, esi, edx := edi + 1, esi + 1, edx - 1;
    }
    MovedAll(mem[..], was, dest, src, n);
  }

  /** memmove: downwards when the source lies below the destination.  Right for every overlap. */
  method Memmove(mem: array<Byte>, dest: nat, src: nat, n: nat)
    requires dest + n <= mem.Length && src + n <= mem.Length
    modifies mem
    ensures mem[..] == Written(old(mem[..]), dest, old(mem[src..src + n]))
  {
    hide MovedUp;
    ghost var was := mem[..];
    NothingMoved(was, dest, src);
    var edi, esi, ecx := dest, src, n;
    if esi >= edi {
      while ecx != 0
        invariant dest <= edi && edi + ecx == dest + n && esi - src == edi - dest && ecx >= 0
        invariant MovedUp(mem[..], was, dest, src, edi - dest)
      {
        MoveByte(mem, edi, esi, was, dest, src);
        edi, esi, ecx := edi + 1, esi + 1, ecx - 1;
      }
      MovedAll(mem[..], was, dest, src, n);
    } else {
      esi, edi := esi + ecx - 1, edi + ecx - 1;
      while ecx != 0
        invariant edi == dest + ecx - 1 && esi == src + ecx - 1 && 0 <= ecx <= n
        invariant forall k {:trigger mem[k]} :: 0 <= k < mem.Length ==>
          mem[k] == if dest + ecx <= k < dest + n then was[src + (k - dest)] else was[k]
      {
        mem[edi] := mem[esi];
        edi, esi, ecx := edi - 1, esi - 1, ecx - 1;
      }
    }
  }
}
