/**
 * Blinking characters (blink.S, and the slot pool of fish.c): a linked list threaded
 * through a fixed pool, where a slot with location 0 is free.
 */
module Blink {
  import opened Arithmetic
  import opened Bytes
  import opened Counting

  const POOL := 2000
  const SCREEN := 2000 // 80 * 25

  type U16 = w: int | 0 <= w < 0x1_0000

  /** A word as a signed number. */
  function Signed16(w: U16): int {
    if w < 0x8000 then w else w - 0x1_0000
  }

  /** `next` is 0 for NULL, and `k + 1` for slot `k`. */
  datatype Slot = Slot(location: U16, onChar: Byte, offChar: Byte, onLength: U16, offLength: U16,
                       countdown: U16, status: U16, next: nat)

  const ZEROED := Slot(0, 0, 0, 0, 0, 0, 0, 0)

  // ----- one node, tick by tick -----

  /** What mp1_rtc_tasklet does to a node. */
  function Tick(s: Slot): Slot {
    var c: U16 := if s.countdown == 0 then 0xFFFF else s.countdown - 1;
    if Signed16(c) > 0 then s.(countdown := c)
    else if s.status % 2 == 1 then s.(countdown := s.offLength, status := s.status - 1)
    else s.(countdown := s.onLength, status := s.status + 1)
  }

  lemma {:induction false} TickKeeps(s: Slot)
    ensures Tick(s).location == s.location && Tick(s).next == s.next
  {
  }

  function Ticks(s: Slot, k: nat): Slot {
    if k == 0 then s else Tick(Ticks(s, k - 1))
  }

  /** For how many ticks a phase of this length lasts. */
  function Lasts(length: U16): (n: int)
    ensures n == if 1 <= length <= 0x8000 then length else 1
  {
    if 1 <= Signed16(length) || length == 0x8000 then length else 1
  }

  /** The countdown `r` ticks into a phase of this length. */
  function CountdownAt(length: U16, r: int): U16
    requires 0 <= r < Lasts(length)
  {
    if r == 0 then length else Lasts(length) - r
  }

  /** A node as it is `r` ticks into its period. */
  function PhaseAt(s: Slot, r: int): Slot
    requires 0 <= r < Lasts(s.onLength) + Lasts(s.offLength)
  {
    if r < Lasts(s.onLength) then s.(status := 1, countdown := CountdownAt(s.onLength, r))
    else s.(status := 0, countdown := CountdownAt(s.offLength, r - Lasts(s.onLength)))
  }

  lemma {:induction false} PhaseStep(s: Slot, r: int)
    requires 0 <= r < Lasts(s.onLength) + Lasts(s.offLength)
    ensures var p := Lasts(s.onLength) + Lasts(s.offLength);
            Tick(PhaseAt(s, r)) == PhaseAt(s, if r + 1 == p then 0 else r + 1)
  {
  }

  lemma {:induction false} ModStep(k: nat, p: int)
    requires p > 0
    ensures (k + 1) % p == if k % p + 1 == p then 0 else k % p + 1
  {
    var q, r := k / p, k % p;
    assert k == q * p + r;
    if r + 1 == p {
      assert (q + 1) * p == q * p + p;
      ModIs(k + 1, q + 1, p, 0);
    } else {
      ModIs(k + 1, q, p, r + 1);
    }
  }

  /**
   * The state of a node any number of ticks after it was added, for all lengths: a length
   * that is not positive as a signed word counts as one tick, except 0x8000.
   */
  lemma {:induction false} ClosedForm(s: Slot, k: nat)
    requires s.status == 1 && s.countdown == s.onLength
    ensures Ticks(s, k) == PhaseAt(s, k % (Lasts(s.onLength) + Lasts(s.offLength)))
  {
    var p := Lasts(s.onLength) + Lasts(s.offLength);
    if k == 0 {
      ModIs(0, 0, p, 0);
    } else {
      hide Tick, PhaseAt, Lasts;
      var r := (k - 1) % p;
      ClosedForm(s, k - 1);
      PhaseStep(s, r);
      ModStep(k - 1, p);
    }
  }

  /** The same for the lengths the interface is meant for. */
  lemma {:induction false} ClosedFormPositive(s: Slot, k: nat)
    requires s.status == 1 && s.countdown == s.onLength
    requires 1 <= s.onLength <= 0x7FFF && 1 <= s.offLength <= 0x7FFF
    ensures var on, off := s.onLength, s.offLength;
            var r := k % (on + off);
            Ticks(s, k) == if r < on then s.(status := 1, countdown := on - r)
                           else s.(status := 0, countdown := on + off - r)
  {
    ClosedForm(s, k);
  }

  /** The fields that sync copies. */
  predicate SameTiming(a: Slot, b: Slot) {
    a.onLength == b.onLength && a.offLength == b.offLength && a.countdown == b.countdown && a.status == b.status
  }

  lemma {:induction false} Lockstep(a: Slot, b: Slot, k: nat)
    requires SameTiming(a, b)
    ensures SameTiming(Ticks(a, k), Ticks(b, k))
  {
    if k > 0 {
      Lockstep(a, b, k - 1);
    }
  }

  // ----- the list in the pool -----

  /** The pointer to element `i` of the list, NULL at its end. */
  function Ptr(list: seq<nat>, i: nat): nat {
    if i < |list| then list[i] + 1 else 0
  }

  ghost predicate Distinct(list: seq<nat>) {
    forall i, j :: 0 <= i < j < |list| ==> list[i] != list[j]
  }

  /** From the head, the links lead through the list, and then to NULL. */
  ghost predicate Linked(pool: seq<Slot>, head: nat, list: seq<nat>) {
    && |pool| == POOL && head == Ptr(list, 0)
    && (forall i :: 0 <= i < |list| ==> list[i] < POOL)
    && (forall i {:trigger pool[list[i]]} :: 0 <= i < |list| ==> pool[list[i]].next == Ptr(list, i + 1))
  }

  lemma {:induction false} NotYet(list: seq<nat>, i: nat)
    requires Distinct(list) && i < |list|
    ensures list[i] !in list[..i]
    ensures forall k :: k in list[..i + 1] <==> k in list[..i] || k == list[i]
  {
    assert list[..i + 1] == list[..i] + [list[i]];
  }

  /** A slot is in use exactly when it is in the list. */
  ghost predicate Uses(pool: seq<Slot>, list: seq<nat>) {
    forall k {:trigger pool[k]} :: 0 <= k < |pool| ==> (pool[k].location != 0 <==> k in list)
  }

  /** `list` names the slots in order, from the head: no slot twice, and exactly those in use. */
  ghost predicate Threaded(pool: seq<Slot>, head: nat, list: seq<nat>) {
    Linked(pool, head, list) && Distinct(list) && Uses(pool, list)
  }

  /** The nodes in list order, without their links. */
  function Contents(pool: seq<Slot>, list: seq<nat>): (c: seq<Slot>)
    requires forall i :: 0 <= i < |list| ==> list[i] < |pool|
    ensures |c| == |list|
  {
    seq(|list|, i requires 0 <= i < |list| => pool[list[i]].(next := 0))
  }

  lemma {:induction false} ContentsAt(pool: seq<Slot>, list: seq<nat>, j: nat)
    requires (forall i :: 0 <= i < |list| ==> list[i] < |pool|) && j < |list|
    ensures Contents(pool, list)[j] == pool[list[j]].(next := 0)
  {
  }

  /** The position of the first node at a location, or the length. */
  function FirstAt(c: seq<Slot>, location: U16): (i: nat)
    ensures i <= |c| && (i < |c| ==> c[i].location == location)
    ensures forall k :: 0 <= k < i ==> c[k].location != location
  {
    if c == [] || c[0].location == location then 0 else 1 + FirstAt(c[1..], location)
  }

  lemma {:induction false} FirstAtIs(c: seq<Slot>, location: U16, i: nat)
    requires i <= |c| && (i < |c| ==> c[i].location == location)
    requires forall k :: 0 <= k < i ==> c[k].location != location
    ensures FirstAt(c, location) == i
  {
  }

  /** Finding by the slots is finding by the contents. */
  lemma {:induction false} NodeLocations(pool: seq<Slot>, list: seq<nat>, location: U16, i: nat)
    requires (forall j :: 0 <= j < |list| ==> list[j] < |pool|) && i <= |list|
    requires forall j :: 0 <= j < i ==> pool[list[j]].location != location
    requires i < |list| ==> pool[list[i]].location == location
    ensures FirstAt(Contents(pool, list), location) == i
  {
    FirstAtIs(Contents(pool, list), location, i);
  }

  /** The node that adding `arg` creates. */
  function NewNode(arg: Slot): Slot {
    arg.(status := 1, countdown := arg.onLength, next := 0)
  }

  /** The pool when slot `k` has become the head of the list. */
  function Inserted(pool: seq<Slot>, head: nat, k: nat, arg: Slot): seq<Slot>
    requires k < |pool|
  {
    pool[k := NewNode(arg).(next := head)]
  }

  lemma {:induction false} InsertLinks(pool: seq<Slot>, head: nat, list: seq<nat>, k: nat, arg: Slot)
    requires Linked(pool, head, list) && k < POOL && k !in list
    ensures Linked(Inserted(pool, head, k, arg), k + 1, [k] + list)
    ensures Contents(Inserted(pool, head, k, arg), [k] + list) == [NewNode(arg)] + Contents(pool, list)
  {
    hide Contents;
    var now, more := Inserted(pool, head, k, arg), [k] + list;
    forall i {:trigger more[i]} | 0 <= i < |more| ensures more[i] < POOL && now[more[i]].next == Ptr(more, i + 1) {
      assert i > 0 ==> more[i] == list[i - 1] && list[i - 1] in list;
    }
    var c := Contents(pool, list);
    forall i | 0 <= i < |more| ensures Contents(now, more)[i] == ([NewNode(arg)] + c)[i] {
      ContentsAt(now, more, i);
      if i > 0 {
        ContentsAt(pool, list, i - 1);
        assert more[i] == list[i - 1] && list[i - 1] in list;
      }
    }
  }

  lemma {:induction false} InsertThreads(pool: seq<Slot>, head: nat, list: seq<nat>, k: nat, arg: Slot)
    requires Threaded(pool, head, list) && k < POOL && pool[k].location == 0 && arg.location != 0
    ensures Threaded(Inserted(pool, head, k, arg), k + 1, [k] + list)
    ensures Contents(Inserted(pool, head, k, arg), [k] + list) == [NewNode(arg)] + Contents(pool, list)
  {
    InsertLinks(pool, head, list, k, arg);
    assert forall j :: 0 <= j < |list| ==> list[j] in list && list[j] != k;
    var now, more := Inserted(pool, head, k, arg), [k] + list;
    forall j {:trigger now[j]} | 0 <= j < |now| ensures now[j].location != 0 <==> j in more {
      assert j in more <==> j == k || j in list;
      assert pool[j].location != 0 <==> j in list;
    }
  }

  /** There is a list of the slots in use that starts at the head. */
  ghost predicate HasList(pool: seq<Slot>, head: nat) {
    exists list: seq<nat> :: Threaded(pool, head, list)
  }

  /**
   * A slot can be threaded in exactly when the added location is not 0: a node at location
   * 0 would be in the list and free at the same time.
   */
  lemma {:induction false} InsertThreadsIff(pool: seq<Slot>, head: nat, list: seq<nat>, k: nat, arg: Slot)
    requires Threaded(pool, head, list) && k < POOL && pool[k].location == 0
    ensures HasList(Inserted(pool, head, k, arg), k + 1) <==> arg.location != 0
  {
    if arg.location != 0 {
      InsertThreads(pool, head, list, k, arg);
    } else {
      FreeHead(Inserted(pool, head, k, arg), k + 1);
    }
  }

  lemma {:induction false} FreeHead(pool: seq<Slot>, head: nat)
    requires 0 < head <= |pool| && pool[head - 1].location == 0
    ensures !HasList(pool, head)
  {
    forall list: seq<nat> ensures !Threaded(pool, head, list) {
      if list != [] && list[0] == head - 1 {
        assert head - 1 in list;
      }
    }
  }

  /** The next node added takes the same slot and points to itself: the list has become a cycle. */
  lemma {:induction false} ZeroLocationMakesCycle(pool: seq<Slot>, head: nat, k: nat, zero: Slot, arg: Slot)
    requires |pool| == POOL && k < POOL && zero.location == 0 && (forall j :: 0 <= j < k ==> pool[j].location != 0)
    ensures var after := Inserted(pool, head, k, zero);
            && FirstFree(after, 0) == k
            && Inserted(after, k + 1, k, arg)[k].next == k + 1
  {
    FirstFreeIs(Inserted(pool, head, k, zero), 0, k);
  }

  /** mp1_malloc: the first slot with location 0, or POOL. */
  function FirstFree(pool: seq<Slot>, k: nat): (r: nat)
    requires k <= |pool|
    ensures k <= r <= |pool| && (r < |pool| ==> pool[r].location == 0)
    ensures forall j :: k <= j < r ==> pool[j].location != 0
    decreases |pool| - k
  {
    if k == |pool| || pool[k].location == 0 then k else FirstFree(pool, k + 1)
  }

  lemma {:induction false} FirstFreeIs(pool: seq<Slot>, k: nat, r: nat)
    requires k <= r <= |pool| && (r < |pool| ==> pool[r].location == 0)
    requires forall j :: k <= j < r ==> pool[j].location != 0
    ensures FirstFree(pool, k) == r
  {
  }

  /** The pool with element `i` of the list unlinked. */
  function Unlinked(pool: seq<Slot>, list: seq<nat>, i: nat): (r: seq<Slot>)
    requires i < |list| && forall j :: 0 <= j < |list| ==> list[j] < |pool|
    ensures |r| == |pool|
  {
    if i == 0 then pool else pool[list[i - 1] := pool[list[i - 1]].(next := pool[list[i]].next)]
  }

  /** The pool with that element freed. */
  function Removed(pool: seq<Slot>, list: seq<nat>, i: nat): (r: seq<Slot>)
    requires i < |list| && forall j :: 0 <= j < |list| ==> list[j] < |pool|
    ensures |r| == |pool|
  {
    Unlinked(pool, list, i)[list[i] := ZEROED]
  }

  function Without<T>(s: seq<T>, i: nat): (r: seq<T>)
    requires i < |s|
    ensures |r| == |s| - 1
    ensures forall j :: 0 <= j < |r| ==> r[j] == s[if j < i then j else j + 1]
  {
    s[..i] + s[i + 1..]
  }

  lemma {:induction false} WithoutMembers(list: seq<nat>, i: nat, k: nat)
    requires Distinct(list) && i < |list|
    ensures k in Without(list, i) <==> k in list && k != list[i]
  {
    var rest := Without(list, i);
    if k in rest {
      var j :| 0 <= j < |rest| && rest[j] == k;
      assert list[if j < i then j else j + 1] == k;
    }
    if k in list && k != list[i] {
      var o :| 0 <= o < |list| && list[o] == k;
      assert rest[if o < i then o else o - 1] == k;
    }
  }

  /** The nodes that stay: only the one before the removed one gets a new link. */
  lemma {:induction false} RemovedAt(pool: seq<Slot>, head: nat, list: seq<nat>, i: nat, o: nat)
    requires Linked(pool, head, list) && Distinct(list) && i < |list| && o < |list| && o != i
    ensures Removed(pool, list, i)[list[o]] ==
      if o + 1 == i then pool[list[o]].(next := Ptr(list, i + 1)) else pool[list[o]]
  {
    assert list[o] != list[i] && (i > 0 && o != i - 1 ==> list[o] != list[i - 1]);
  }

  /** Element `j` of the shorter list is element `o` of the longer one, and its node is kept. */
  lemma {:induction false} RemovedNode(pool: seq<Slot>, head: nat, list: seq<nat>, i: nat, j: nat)
    requires Linked(pool, head, list) && Distinct(list) && i < |list| && j < |list| - 1
    ensures var now, rest, o := Removed(pool, list, i), Without(list, i), if j < i then j else j + 1;
            && rest[j] == list[o] < POOL && now[rest[j]].next == Ptr(rest, j + 1)
            && now[rest[j]].(next := 0) == pool[list[o]].(next := 0)
  {
    hide Removed;
    var rest, o := Without(list, i), if j < i then j else j + 1;
    assert rest[j] == list[o];
    RemovedAt(pool, head, list, i, o);
  }

  lemma {:induction false} RemoveLinks(pool: seq<Slot>, head: nat, list: seq<nat>, i: nat)
    requires Linked(pool, head, list) && Distinct(list) && i < |list|
    ensures Linked(Removed(pool, list, i), if i == 0 then pool[list[0]].next else head, Without(list, i))
  {
    hide Removed, Distinct;
    var now, rest := Removed(pool, list, i), Without(list, i);
    forall j {:trigger rest[j]} | 0 <= j < |rest| ensures rest[j] < POOL && now[rest[j]].next == Ptr(rest, j + 1) {
      RemovedNode(pool, head, list, i, j);
    }
  }

  lemma {:induction false} RemoveContents(pool: seq<Slot>, head: nat, list: seq<nat>, i: nat)
    requires Linked(pool, head, list) && Distinct(list) && i < |list|
    ensures (forall j :: 0 <= j < |Without(list, i)| ==> Without(list, i)[j] < POOL)
    ensures Contents(Removed(pool, list, i), Without(list, i)) == Without(Contents(pool, list), i)
  {
    hide Removed, Distinct;
    var now, rest, c := Removed(pool, list, i), Without(list, i), Without(Contents(pool, list), i);
    forall j {:trigger rest[j]} | 0 <= j < |rest| ensures now[rest[j]].(next := 0) == c[j] {
      RemovedNode(pool, head, list, i, j);
    }
  }

  lemma {:induction false} RemoveUses(pool: seq<Slot>, head: nat, list: seq<nat>, i: nat)
    requires Threaded(pool, head, list) && i < |list|
    ensures Distinct(Without(list, i)) && Uses(Removed(pool, list, i), Without(list, i))
  {
    var now := Removed(pool, list, i);
    forall k {:trigger now[k]} | 0 <= k < POOL ensures now[k].location != 0 <==> k in Without(list, i) {
      WithoutMembers(list, i, k);
      assert now[k].location == if k == list[i] then 0 else pool[k].location;
    }
  }

  lemma {:induction false} RemoveStaysOnScreen(pool: seq<Slot>, list: seq<nat>, i: nat)
    requires i < |list| && (forall j :: 0 <= j < |list| ==> list[j] < |pool|) && OnScreen(pool)
    ensures OnScreen(Removed(pool, list, i))
  {
  }

  /** Taking element `i` out of the list. */
  lemma {:induction false} RemoveThreads(pool: seq<Slot>, head: nat, list: seq<nat>, i: nat)
    requires Threaded(pool, head, list) && i < |list|
    ensures Threaded(Removed(pool, list, i), if i == 0 then pool[list[0]].next else head, Without(list, i))
    ensures Contents(Removed(pool, list, i), Without(list, i)) == Without(Contents(pool, list), i)
  {
    hide Removed;
    RemoveLinks(pool, head, list, i);
    RemoveContents(pool, head, list, i);
    RemoveUses(pool, head, list, i);
  }

  // ----- a tick for the whole list -----

  /** Every node in use ticks once. */
  function TickPool(pool: seq<Slot>): (r: seq<Slot>)
    ensures |r| == |pool|
    ensures forall k :: 0 <= k < |pool| ==> r[k] == if pool[k].location != 0 then Tick(pool[k]) else pool[k]
  {
    seq(|pool|, k requires 0 <= k < |pool| => if pool[k].location != 0 then Tick(pool[k]) else pool[k])
  }

  function TickPools(pool: seq<Slot>, n: nat): (r: seq<Slot>)
    ensures |r| == |pool|
  {
    if n == 0 then pool else TickPool(TickPools(pool, n - 1))
  }

  /** Any number of ticks of the list are as many ticks of each of its nodes, and keep the list. */
  lemma {:induction false} NodesTickAlone(pool: seq<Slot>, n: nat, k: nat)
    requires k < |pool|
    ensures TickPools(pool, n)[k] == if pool[k].location != 0 then Ticks(pool[k], n) else pool[k]
    ensures TickPools(pool, n)[k].location == pool[k].location && TickPools(pool, n)[k].next == pool[k].next
  {
    if n > 0 {
      NodesTickAlone(pool, n - 1, k);
    }
  }

  lemma {:induction false} TicksKeepList(pool: seq<Slot>, head: nat, list: seq<nat>, n: nat)
    requires Threaded(pool, head, list)
    ensures Threaded(TickPools(pool, n), head, list)
  {
    forall k | 0 <= k < |pool|
      ensures TickPools(pool, n)[k].location == pool[k].location && TickPools(pool, n)[k].next == pool[k].next
    {
      NodesTickAlone(pool, n, k);
    }
  }

  /** The list after a sync: the second node takes the timing of the first. */
  function Synced(from: Slot, to: Slot): (r: Slot)
    ensures SameTiming(from, r) && r.location == to.location && r.next == to.next
    ensures r.onChar == to.onChar && r.offChar == to.offChar
  {
    to.(onLength := from.onLength, offLength := from.offLength, countdown := from.countdown, status := from.status)
  }

  lemma {:induction false} SyncKeepsList(pool: seq<Slot>, head: nat, list: seq<nat>, i: nat, j: nat)
    requires Threaded(pool, head, list) && i < |list| && j < |list|
    ensures var now := pool[list[j] := Synced(pool[list[i]], pool[list[j]])];
            && Threaded(now, head, list)
            && Contents(now, list)
               == Contents(pool, list)[j := Synced(Contents(pool, list)[i], Contents(pool, list)[j])]
  {
    var now, c := pool[list[j] := Synced(pool[list[i]], pool[list[j]])], Contents(pool, list);
    forall o | 0 <= o < |list| ensures Contents(now, list)[o] == c[j := Synced(c[i], c[j])][o] {
      assert o != j ==> list[o] != list[j];
    }
  }

  /** Two synced nodes stay in step, whatever else is in the list and however long it ticks. */
  lemma {:induction false} SyncedStayInStep(pool: seq<Slot>, a: nat, b: nat, n: nat)
    requires a < |pool| && b < |pool| && pool[a].location != 0 && pool[b].location != 0 && SameTiming(pool[a], pool[b])
    ensures SameTiming(TickPools(pool, n)[a], TickPools(pool, n)[b])
  {
    NodesTickAlone(pool, n, a);
    NodesTickAlone(pool, n, b);
    Lockstep(pool[a], pool[b], n);
  }

  // ----- what is on the screen -----

  const VIDEO_BYTES := 2 * SCREEN

  /** The character a node is to show. */
  function CharOf(s: Slot): Byte {
    if s.status % 2 == 1 then s.onChar else s.offChar
  }

  predicate Toggles(s: Slot) {
    Tick(s).status != s.status
  }

  /** A tick pokes the new character of a node that toggles. */
  function PaintOne(s: Slot, v: seq<Byte>): (r: seq<Byte>)
    requires |v| == VIDEO_BYTES && s.location < SCREEN
    ensures |r| == VIDEO_BYTES
  {
    if Toggles(s) then v[2 * s.location := CharOf(Tick(s))] else v
  }

  predicate OnScreen(pool: seq<Slot>) {
    forall k :: 0 <= k < |pool| ==> pool[k].location < SCREEN
  }

  predicate InPool(list: seq<nat>, n: nat) {
    forall i :: 0 <= i < |list| ==> list[i] < n
  }

  /** What a tick does to video memory, node after node. */
  function Painted(pool: seq<Slot>, list: seq<nat>, v: seq<Byte>): (r: seq<Byte>)
    requires |v| == VIDEO_BYTES && OnScreen(pool) && InPool(list, |pool|)
    ensures |r| == VIDEO_BYTES
  {
    if list == [] then v
    else PaintOne(pool[list[|list| - 1]], Painted(pool, list[..|list| - 1], v))
  }

  lemma {:induction false} PaintedNone(pool: seq<Slot>, v: seq<Byte>)
    requires |v| == VIDEO_BYTES && OnScreen(pool)
    ensures Painted(pool, [], v) == v
  {
  }

  lemma {:induction false} PaintedNext(pool: seq<Slot>, list: seq<nat>, v: seq<Byte>, i: nat)
    requires |v| == VIDEO_BYTES && OnScreen(pool) && InPool(list, |pool|) && i < |list|
    ensures Painted(pool, list[..i + 1], v) == PaintOne(pool[list[i]], Painted(pool, list[..i], v))
  {
    assert list[..i + 1][..i] == list[..i];
  }

  /** No other node is where this one is. */
  ghost predicate Alone(pool: seq<Slot>, list: seq<nat>, i: nat)
    requires i < |list| && InPool(list, |pool|)
  {
    forall j :: 0 <= j < |list| && j != i ==> pool[list[j]].location != pool[list[i]].location
  }

  lemma {:induction false} PaintedAt(pool: seq<Slot>, list: seq<nat>, v: seq<Byte>, at: nat)
    requires |v| == VIDEO_BYTES && OnScreen(pool) && InPool(list, |pool|) && at < SCREEN
    requires forall i :: 0 <= i < |list| ==> pool[list[i]].location != at
    ensures Painted(pool, list, v)[2 * at] == v[2 * at]
  {
    if list != [] {
      PaintedAt(pool, list[..|list| - 1], v, at);
    }
  }

  /** A node alone at its place has its own character there after a tick, if it toggles; else nothing changes there. */
  lemma {:induction false} PaintedAlone(pool: seq<Slot>, list: seq<nat>, v: seq<Byte>, i: nat)
    requires |v| == VIDEO_BYTES && OnScreen(pool) && InPool(list, |pool|)
    requires i < |list| && Alone(pool, list, i)
    ensures var s := pool[list[i]];
            Painted(pool, list, v)[2 * s.location] == if Toggles(s) then CharOf(Tick(s)) else v[2 * s.location]
  {
    var n, s := |list| - 1, pool[list[i]];
    assert forall j :: 0 <= j < n ==> list[..n][j] == list[j];
    if i == n {
      PaintedAt(pool, list[..n], v, s.location);
    } else {
      PaintedAlone(pool, list[..n], v, i);
      assert pool[list[n]].location != s.location;
    }
  }

  /** Video memory after `n` ticks. */
  function PaintedFor(pool: seq<Slot>, list: seq<nat>, v: seq<Byte>, n: nat): (r: seq<Byte>)
    requires |v| == VIDEO_BYTES && OnScreen(pool) && InPool(list, |pool|)
    ensures |r| == VIDEO_BYTES
  {
    if n == 0 then v else
      TicksStayOnScreen(pool, n - 1);
      Painted(TickPools(pool, n - 1), list, PaintedFor(pool, list, v, n - 1))
  }

  lemma {:induction false} TicksStayOnScreen(pool: seq<Slot>, n: nat)
    requires OnScreen(pool)
    ensures OnScreen(TickPools(pool, n))
  {
    forall k | 0 <= k < |pool| ensures TickPools(pool, n)[k].location == pool[k].location {
      NodesTickAlone(pool, n, k);
    }
  }

  /** A node in use that is alone at its place shows its character there for ever. */
  lemma {:induction false} ShowsForEver(pool: seq<Slot>, list: seq<nat>, v: seq<Byte>, i: nat, n: nat)
    requires OnScreen(pool) && |v| == VIDEO_BYTES && InPool(list, |pool|) && i < |list| && Alone(pool, list, i)
    requires pool[list[i]].location != 0 && v[2 * pool[list[i]].location] == CharOf(pool[list[i]])
    ensures PaintedFor(pool, list, v, n)[2 * pool[list[i]].location] == CharOf(Ticks(pool[list[i]], n))
  {
    hide Tick, Painted, Alone, TickPools, TickPool, CharOf, PaintedFor, Ticks;
    var at := 2 * pool[list[i]].location;
    if n == 0 {
      NoTicks(pool, list, v, pool[list[i]]);
    } else {
      ShowsForEver(pool, list, v, i, n - 1);
      var u, w := TickPools(pool, n - 1), PaintedFor(pool, list, v, n - 1);
      OneMoreTick(pool, list, v, pool[list[i]], n);
      StayAlone(pool, list, i, n - 1);
      NodesTickAlone(pool, n - 1, list[i]);
      TickShows(u, list, w, i);
      assert Painted(u, list, w)[at] == CharOf(Tick(u[list[i]]));
    }
  }

  lemma {:induction false} NoTicks(pool: seq<Slot>, list: seq<nat>, v: seq<Byte>, s: Slot)
    requires |v| == VIDEO_BYTES && OnScreen(pool) && InPool(list, |pool|)
    ensures PaintedFor(pool, list, v, 0) == v && Ticks(s, 0) == s
  {
  }

  lemma {:induction false} OneMoreTick(pool: seq<Slot>, list: seq<nat>, v: seq<Byte>, s: Slot, n: nat)
    requires |v| == VIDEO_BYTES && OnScreen(pool) && InPool(list, |pool|) && n > 0
    ensures OnScreen(TickPools(pool, n - 1)) && Ticks(s, n) == Tick(Ticks(s, n - 1))
    ensures PaintedFor(pool, list, v, n) == Painted(TickPools(pool, n - 1), list, PaintedFor(pool, list, v, n - 1))
  {
    hide Tick, Painted, TickPools;
    TicksStayOnScreen(pool, n - 1);
  }

  lemma {:induction false} StayAlone(pool: seq<Slot>, list: seq<nat>, i: nat, n: nat)
    requires i < |list| && InPool(list, |pool|) && Alone(pool, list, i)
    ensures Alone(TickPools(pool, n), list, i)
  {
    forall j | 0 <= j < |list| ensures TickPools(pool, n)[list[j]].location == pool[list[j]].location {
      NodesTickAlone(pool, n, list[j]);
    }
  }

  lemma {:induction false} TickShows(pool: seq<Slot>, list: seq<nat>, v: seq<Byte>, i: nat)
    requires |v| == VIDEO_BYTES && OnScreen(pool) && InPool(list, |pool|)
    requires i < |list| && Alone(pool, list, i) && v[2 * pool[list[i]].location] == CharOf(pool[list[i]])
    ensures Painted(pool, list, v)[2 * pool[list[i]].location] == CharOf(Tick(pool[list[i]]))
  {
    PaintedAlone(pool, list, v, i);
    KeptChar(pool[list[i]]);
  }

  lemma {:induction false} KeptChar(s: Slot)
    ensures !Toggles(s) ==> CharOf(Tick(s)) == CharOf(s)
  {
  }

  /**
   * What is seen of a node that was added at a place of its own: for lengths on and off, the
   * on-character for `on` ticks, the off-character for `off` ticks, and so on.
   */
  lemma {:induction false} BlinksInPhase(pool: seq<Slot>, list: seq<nat>, v: seq<Byte>, i: nat, n: nat)
    requires OnScreen(pool) && |v| == VIDEO_BYTES && InPool(list, |pool|) && i < |list| && Alone(pool, list, i)
    requires var s := pool[list[i]];
             s.location != 0 && s.status == 1 && s.countdown == s.onLength && v[2 * s.location] == s.onChar
    ensures var s := pool[list[i]];
            PaintedFor(pool, list, v, n)[2 * s.location]
            == if n % (Lasts(s.onLength) + Lasts(s.offLength)) < Lasts(s.onLength) then s.onChar else s.offChar
  {
    hide Lasts, Ticks, Tick;
    ShowsForEver(pool, list, v, i, n);
    ClosedForm(pool[list[i]], n);
  }

  /** `s` is the node that was added as `arg`, `n` ticks later. */
  predicate AddedAs(s: Slot, arg: Slot, n: nat) {
    var on, off := Lasts(arg.onLength), Lasts(arg.offLength);
    var r := n % (on + off);
    && s.location == arg.location && s.onChar == arg.onChar && s.offChar == arg.offChar
    && s.onLength == arg.onLength && s.offLength == arg.offLength
    && s.status == (if r < on then 1 else 0)
    && s.countdown == if r == 0 then arg.onLength
                      else if r < on then on - r
                      else if r == on then arg.offLength
                      else on + off - r
  }

  /** The first node blinks from now on as `arg` says. */
  ghost predicate FirstBlinksAs(pool: seq<Slot>, list: seq<nat>, arg: Slot) {
    list != [] && list[0] < |pool| && forall n: nat :: AddedAs(TickPools(pool, n)[list[0]], arg, n)
  }

  /**
   * And so it is seen, if it is alone at its place: the on-character for the on-length, the
   * off-character for the off-length, and so on.
   */
  ghost predicate FirstSeenAs(pool: seq<Slot>, list: seq<nat>, v: seq<Byte>, arg: Slot)
    requires OnScreen(pool) && |v| == VIDEO_BYTES && InPool(list, |pool|) && list != [] && arg.location < SCREEN
  {
    Alone(pool, list, 0) ==> forall n: nat ::
      PaintedFor(pool, list, v, n)[2 * arg.location]
      == if n % (Lasts(arg.onLength) + Lasts(arg.offLength)) < Lasts(arg.onLength) then arg.onChar else arg.offChar
  }

  lemma {:induction false} NewBlinksAs(arg: Slot, next: nat)
    ensures AddedAs(NewNode(arg).(next := next), arg, 0)
  {
  }

  lemma {:induction false} AddedBlinks(pool: seq<Slot>, list: seq<nat>, v: seq<Byte>, arg: Slot)
    requires OnScreen(pool) && |v| == VIDEO_BYTES && InPool(list, |pool|) && list != [] && arg.location < SCREEN
    requires AddedAs(pool[list[0]], arg, 0) && arg.location != 0 && v[2 * arg.location] == arg.onChar
    ensures FirstBlinksAs(pool, list, arg) && FirstSeenAs(pool, list, v, arg)
  {
    hide Ticks, Tick, TickPools, PaintedFor;
    var s := pool[list[0]];
    forall n: nat ensures AddedAs(TickPools(pool, n)[list[0]], arg, n) {
      NodesTickAlone(pool, n, list[0]);
      ClosedForm(s, n);
    }
    if Alone(pool, list, 0) {
      forall n: nat
        ensures PaintedFor(pool, list, v, n)[2 * arg.location]
          == if n % (Lasts(arg.onLength) + Lasts(arg.offLength)) < Lasts(arg.onLength) then arg.onChar else arg.offChar
      {
        BlinksInPhase(pool, list, v, 0, n);
      }
    }
  }

  /**
   * The character that sync redraws is always the off-character: right exactly for a node
   * that is off, or has only one character.
   */
  lemma {:induction false} SyncShows(from: Slot, to: Slot, v: seq<Byte>)
    requires |v| == VIDEO_BYTES && to.location < SCREEN
    ensures v[2 * to.location := to.offChar][2 * to.location] == CharOf(Synced(from, to))
            <==> from.status % 2 == 0 || to.onChar == to.offChar
  {
  }

  // ----- in place -----

  class Blinker {
    const pool: array<Slot>
    const video: array<Byte>
    var head: nat
    ghost var list: seq<nat>

    ghost predicate Valid()
      reads this, pool
    {
      Threaded(pool[..], head, list) && OnScreen(pool[..]) && video.Length == VIDEO_BYTES
    }

    /** The nodes in order, the most recently added one first. */
    ghost function Nodes(): seq<Slot>
      requires Valid()
      reads this, pool
    {
      Contents(pool[..], list)
    }

    constructor (video: array<Byte>)
      requires video.Length == VIDEO_BYTES
      ensures Valid() && fresh(pool) && Nodes() == [] && this.video == video
    {
      pool := new Slot[POOL](_ => ZEROED);
      this.video := video;
      head := 0;
      list := [];
    }

    method Malloc() returns (p: nat)
      requires pool.Length == POOL
      ensures var k := FirstFree(pool[..], 0); p == if k < POOL then k + 1 else 0
    {
      var i := 0;
      while i < POOL
        invariant 0 <= i <= POOL && FirstFree(pool[..], 0) == FirstFree(pool[..], i)
      {
        if pool[i].location == 0 {
          return i + 1;
        }
        i := i + 1;
      }
      return 0;
    }

    /**
     * mp1_ioctl_add.  Adding at location 0 is the one thing that breaks the list: the node
     * is linked in, but no list of the slots in use starts at the head any more.
     */
    method Add(arg: Slot) returns (r: int)
      requires Valid()
      modifies this, pool, video
      ensures r == (if arg.location >= 2000 || |old(Nodes())| == 2000 then -1 else 0)
      ensures video.Length == VIDEO_BYTES
      ensures video[..] == if r == 0 then old(video[..])[2 * arg.location := arg.onChar] else old(video[..])
      ensures (Valid() <==> r == -1 || arg.location != 0) && OnScreen(pool[..])
      ensures Valid() ==> Nodes() == if r == 0 then [NewNode(arg)] + old(Nodes()) else old(Nodes())
      ensures r == 0 && arg.location != 0 ==>
        && InPool(list, POOL) && list != [] && pool.Length == POOL
        && FirstBlinksAs(pool[..], list, arg) && FirstSeenAs(pool[..], list, video[..], arg)
      ensures !Valid() ==>
        && 0 < head <= POOL && pool[..] == Inserted(old(pool[..]), old(head), head - 1, arg)
        && !HasList(pool[..], head)
    {
      hide Distinct, Uses, Contents, FirstBlinksAs, FirstSeenAs, AddedAs, Alone, Lasts;
      if arg.location >= SCREEN {
        return -1;
      }
      var node := arg.(status := 1, countdown := arg.onLength);
      var p := Malloc();
      FullMeansNoFree(pool[..], head, list);
      if p == 0 {
        return -1;
      }
      if arg.location != 0 {
        InsertThreads(pool[..], head, list, p - 1, arg);
      }
      pool[p - 1] := node;
      pool[p - 1] := pool[p - 1].(next := head);
      assert pool[..] == Inserted(old(pool[..]), head, p - 1, arg);
      head := p;
      list := [p - 1] + list;
      video[2 * pool[p - 1].location] := pool[p - 1].onChar; // mp1_poke
      if arg.location == 0 {
        FreeHead(pool[..], p);
      } else {
        NewBlinksAs(arg, old(head));
        AddedBlinks(pool[..], list, video[..], arg);
      }
      return 0;
    }

    /** mp1_find_helper: the first node at the location given by the low 16 bits of `key`. */
    method FindHelper(key: nat) returns (p: nat)
      requires Valid()
      ensures p == Ptr(list, FirstAt(Nodes(), key % 0x1_0000))
    {
      hide Distinct, Uses, Contents, FirstAt;
      var location: U16 := key % 0x1_0000;
      ghost var i: nat := 0;
      p := head;
      while p != 0
        invariant i <= |list| && p == Ptr(list, i)
        invariant forall j :: 0 <= j < i ==> pool[list[j]].location != location
        decreases |list| - i
      {
        if pool[p - 1].location == location {
          break;
        }
        p := pool[p - 1].next;
        i := i + 1;
      }
      NodeLocations(pool[..], list, location, i);
    }

    /** mp1_ioctl_find: a copy of the first node there. */
    method Find(key: nat) returns (r: int, node: Slot)
      requires Valid()
      ensures var i := FirstAt(Nodes(), key % 0x1_0000);
        if i == |Nodes()| then r == -1 else r == 0 && node.(next := 0) == Nodes()[i]
    {
      var p := FindHelper(key);
      if p == 0 {
        return -1, ZEROED;
      }
      return 0, pool[p - 1];
    }

    /** mp1_ioctl_remove. */
    method Remove(key: nat) returns (r: int)
      requires Valid()
      modifies this, pool
      ensures Valid()
      ensures var i := FirstAt(old(Nodes()), key % 0x1_0000);
        if i == |old(Nodes())| then r == -1 && Nodes() == old(Nodes())
        else r == 0 && Nodes() == Without(old(Nodes()), i)
    {
      hide Contents, OnScreen, Uses;
      ghost var i := FirstAt(Nodes(), key % 0x1_0000);
      var p := FindHelper(key);
      if p == 0 {
        return -1;
      }
      RemoveThreads(pool[..], head, list, i);
      // walk to the link that points to p: `prev` is the slot it is in, 0 for the list head
      var prev: nat := 0;
      var link := head;
      ghost var j: nat := 0;
      while link != p
        invariant j <= i && link == Ptr(list, j) && prev == (if j == 0 then 0 else list[j - 1] + 1)
        decreases i - j
      {
        prev := link;
        link := pool[link - 1].next;
        j := j + 1;
      }
      assert j == i;
      var next := pool[p - 1].next;
      if prev == 0 {
        head := next;
      } else {
        pool[prev - 1] := pool[prev - 1].(next := next);
      }
      pool[p - 1] := ZEROED; // mp1_free
      assert pool[..] == Removed(old(pool[..]), list, i);
      RemoveStaysOnScreen(old(pool[..]), list, i);
      list := Without(list, i);
      return 0;
    }

    /** mp1_ioctl_sync: the node at the low half's location takes the timing of the one at the high half's. */
    method Sync(arg: nat) returns (r: int)
      requires Valid() && arg < 0x1_0000_0000
      modifies pool, video
      ensures Valid()
      ensures var c := old(Nodes());
        var i, j := FirstAt(c, arg / 0x1_0000), FirstAt(c, arg % 0x1_0000);
        if i == |c| || j == |c| then r == -1 && Nodes() == c && video[..] == old(video[..])
        else
          && r == 0 && Nodes() == c[j := Synced(c[i], c[j])]
          && 2 * c[j].location < video.Length && video[..] == old(video[..])[2 * c[j].location := c[j].offChar]
    {
      hide Contents, Threaded, OnScreen, Synced;
      var from := FindHelper(arg / 0x1_0000);
      if from == 0 {
        return -1;
      }
      var to := FindHelper(arg % 0x1_0000);
      if to == 0 {
        return -1;
      }
      SyncNodes(from, to, FirstAt(Nodes(), arg / 0x1_0000), FirstAt(Nodes(), arg % 0x1_0000));
      return 0;
    }

    /** The part of sync that writes. */
    method SyncNodes(from: nat, to: nat, ghost i: nat, ghost j: nat)
      requires Valid() && i < |Nodes()| && j < |Nodes()| && from == Ptr(list, i) && to == Ptr(list, j)
      modifies pool, video
      ensures Valid() && Nodes() == old(Nodes())[j := Synced(old(Nodes())[i], old(Nodes())[j])]
      ensures 2 * old(Nodes())[j].location < video.Length
      ensures video[..] == old(video[..])[2 * old(Nodes())[j].location := old(Nodes())[j].offChar]
    {
      hide Contents, Distinct, Uses, Synced;
      SyncKeepsList(pool[..], head, list, i, j);
      ContentsAt(pool[..], list, j);
      CopyTiming(from - 1, to - 1);
      // the conditional move that would take the on-character looks at the sign, which is never set
      video[2 * pool[to - 1].location] := pool[to - 1].offChar;
    }

    /** The four copied words of sync. */
    method CopyTiming(from: nat, to: nat)
      requires from < pool.Length && to < pool.Length
      modifies pool
      ensures pool[..] == old(pool[..])[to := Synced(old(pool[from]), old(pool[to]))]
    {
      pool[to] := pool[to].(onLength := pool[from].onLength);
      pool[to] := pool[to].(offLength := pool[from].offLength);
      pool[to] := pool[to].(countdown := pool[from].countdown);
      pool[to] := pool[to].(status := pool[from].status);
    }

    /** mp1_rtc_tasklet. */
    method Tasklet()
      requires Valid()
      modifies pool, video
      ensures Valid() && pool[..] == TickPool(old(pool[..]))
      ensures video[..] == Painted(old(pool[..]), list, old(video[..]))
    {
      hide Painted, PaintOne, Tick, Distinct, Uses, Linked;
      ghost var was, seen := pool[..], video[..];
      ghost var i: nat := 0;
      PaintedNone(was, seen);
      LinkAt(was, head, list, 0);
      var p := head;
      while p != 0
        invariant i <= |list| && p == Ptr(list, i) && video[..] == Painted(was, list[..i], seen)
        invariant forall k {:trigger pool[k]} :: 0 <= k < POOL ==>
          pool[k] == if k in list[..i] then Tick(was[k]) else was[k]
        decreases |list| - i
      {
        LinkAt(was, head, list, i);
        PaintedNext(was, list, seen, i);
        TickKeeps(was[list[i]]);
        TickOne(p - 1);
        p := pool[p - 1].next;
        i := i + 1;
      }
      assert list[..i] == list;
      AllTicked(was, head, list, pool[..]);
    }

    static lemma {:induction false} LinkAt(pool: seq<Slot>, head: nat, list: seq<nat>, i: nat)
      requires Threaded(pool, head, list) && OnScreen(pool) && i <= |list|
      ensures InPool(list, POOL) && |pool| == POOL && head == Ptr(list, 0)
      ensures i < |list| ==>
        && list[i] < POOL && list[i] !in list[..i] && pool[list[i]].next == Ptr(list, i + 1)
        && forall k :: k in list[..i + 1] <==> k in list[..i] || k == list[i]
    {
      if i < |list| {
        NotYet(list, i);
      }
    }

    static lemma {:induction false} AllTicked(was: seq<Slot>, head: nat, list: seq<nat>, now: seq<Slot>)
      requires Threaded(was, head, list) && OnScreen(was) && |now| == POOL
      requires forall k {:trigger now[k]} :: 0 <= k < POOL ==> now[k] == if k in list then Tick(was[k]) else was[k]
      ensures now == TickPool(was) && Threaded(now, head, list) && OnScreen(now)
    {
      hide Tick;
      assert now == TickPool(was);
      TicksKeepList(was, head, list, 1);
      TicksStayOnScreen(was, 1);
      assert TickPools(was, 1) == TickPool(TickPools(was, 0)) == TickPool(was);
    }

    /** The body of its loop. */
    method TickOne(k: nat)
      requires pool.Length == POOL && k < POOL && video.Length == VIDEO_BYTES && pool[k].location < SCREEN
      modifies pool, video
      ensures pool[..] == old(pool[..])[k := Tick(old(pool[k]))]
      ensures video[..] == PaintOne(old(pool[k]), old(video[..]))
    {
      var s := pool[k];
      pool[k] := s.(countdown := if s.countdown == 0 then 0xFFFF else s.countdown - 1);
      if Signed16(pool[k].countdown) > 0 {
        return;
      }
      video[2 * pool[k].location] := if pool[k].status % 2 == 1 then pool[k].offChar else pool[k].onChar; // mp1_poke
      var length := if pool[k].status % 2 == 1 then pool[k].offLength else pool[k].onLength;
      pool[k] := pool[k].(countdown := length);
      pool[k] := pool[k].(status := if pool[k].status % 2 == 1 then pool[k].status - 1 else pool[k].status + 1);
    }

    /** Slots without repetition are all of the pool exactly when none is missing. */
    static lemma {:induction false} FullWhenAllIn(list: seq<nat>, missing: nat)
      requires Distinct(list) && (forall i :: 0 <= i < |list| ==> list[i] < POOL) && missing <= POOL
      requires forall k: nat :: k < missing ==> k in list
      requires missing < POOL ==> missing !in list
      ensures |list| == POOL <==> missing == POOL
    {
      var used, all := Members(list), Below(POOL);
      MembersSize(list);
      SubsetSize(used, all);
      if missing == POOL {
        assert used == all;
      } else {
        assert missing !in used && missing in all;
      }
    }

    /** The pool is full exactly when it has no slot with location 0. */
    lemma {:induction false} FullMeansNoFree(pool: seq<Slot>, head: nat, list: seq<nat>)
      requires Threaded(pool, head, list)
      ensures |list| == POOL <==> FirstFree(pool, 0) == POOL
    {
      var f := FirstFree(pool, 0);
      assert forall k: nat :: k < POOL && k < f ==> pool[k].location != 0 && k in list;
      assert f < POOL ==> pool[f].location == 0 && f !in list;
      FullWhenAllIn(list, f);
    }
  }
}
