/** Bytes, C strings and the few sequence facts that every other module uses. */
module Bytes {

  datatype Option<+T> = None | Some(value: T)

  type Byte = b: int | 0 <= b < 256

  const NUL: Byte := 0
  const TAB: Byte := 9
  const NEWLINE: Byte := 10
  const RETURN: Byte := 13
  const SPACE: Byte := 32
  const COLON: Byte := 58
  const TILDE: Byte := 126

  /** A string literal as bytes. */
  function Ascii(s: string): (t: seq<Byte>)
    ensures |t| == |s| && forall i :: 0 <= i < |s| && s[i] as int < 128 ==> t[i] == s[i] as int
  {
    seq(|s|, i requires 0 <= i < |s| => (s[i] as int) % 256)
  }

  function Min(a: int, b: int): (r: int)
    ensures r <= a && r <= b && (r == a || r == b)
  {
    if a < b then a else b
  }

  /** No element of `s` is `c`. */
  predicate Lacks(s: seq<Byte>, c: Byte) {
    forall i :: 0 <= i < |s| ==> s[i] != c
  }

  /** No terminator in the words of a text. */
  lemma {:induction false} AsciiLacksNul(s: string)
    requires forall i :: 0 <= i < |s| ==> 0 < s[i] as int < 128
    ensures Lacks(Ascii(s), 0)
  {
  }

  /** The position of the first `c` in `s`, or `|s|`. */
  function IndexOf(s: seq<Byte>, c: Byte): (i: nat)
    ensures i <= |s|
    ensures i < |s| ==> s[i] == c
    ensures forall k :: 0 <= k < i ==> s[k] != c
  {
    if s == [] || s[0] == c then 0 else 1 + IndexOf(s[1..], c)
  }

  /** A position that has the defining property of `IndexOf` is `IndexOf`. */
  lemma {:induction false} IndexOfIs(s: seq<Byte>, c: Byte, i: nat)
    requires i <= |s|
    requires i < |s| ==> s[i] == c
    requires forall k :: 0 <= k < i ==> s[k] != c
    ensures IndexOf(s, c) == i
  {
  }

  /** The C string that starts at the front of `s`: everything before the first NUL. */
  function CString(s: seq<Byte>): (t: seq<Byte>)
    ensures |t| <= |s| && t == s[..|t|] && Lacks(t, NUL)
    ensures |t| < |s| ==> s[|t|] == NUL
  {
    s[..IndexOf(s, NUL)]
  }

  /** Character `i` of the C string `s`, whose terminator is read as NUL. */
  function CharAt(s: seq<Byte>, i: nat): Byte {
    if i < |s| then s[i] else NUL
  }

  /** `s` followed by enough NULs to fill `n` bytes, or cut down to `n` bytes. */
  function Padded(s: seq<Byte>, n: nat): (t: seq<Byte>)
    ensures |t| == n
    ensures forall i :: 0 <= i < n ==> t[i] == CharAt(s, i)
  {
    seq(n, i requires 0 <= i => CharAt(s, i))
  }

  /** `s` after the bytes `t` have been stored at position `at`. */
  function Written(s: seq<Byte>, at: nat, t: seq<Byte>): (r: seq<Byte>)
    requires at + |t| <= |s|
    ensures |r| == |s|
    ensures forall i :: 0 <= i < |s| ==> r[i] == if at <= i < at + |t| then t[i - at] else s[i]
  {
    s[..at] + t + s[at + |t|..]
  }

  /** The C string in `s`, cut after `n` characters. */
  function Clip(s: seq<Byte>, n: nat): (t: seq<Byte>)
    ensures |t| <= n && Lacks(t, NUL) && t <= CString(s) && (|t| < n ==> t == CString(s))
  {
    var c := CString(s);
    c[..Min(|c|, n)]
  }

  /** A byte read as a signed character. */
  function Signed(b: Byte): (r: int)
    ensures -128 <= r <= 127 && (r == b || r == b - 256)
  {
    if b < 128 then b else b - 256
  }

  /** Character positions up to the first difference agree and hold no terminator. */
  predicate AgreeBefore(s1: seq<Byte>, s2: seq<Byte>, i: nat) {
    forall k :: 0 <= k < i ==> CharAt(s1, k) == CharAt(s2, k) != NUL
  }

  lemma {:induction false} AgreePrefix(s1: seq<Byte>, s2: seq<Byte>, i: nat)
    requires AgreeBefore(s1, s2, i)
    ensures i <= |CString(s1)| && i <= |CString(s2)| && s1[..i] == s2[..i]
  {
    assert CharAt(s1, |CString(s1)|) == CharAt(s2, |CString(s2)|) == NUL;
    forall k | 0 <= k < i ensures k < |s1| && k < |s2| && s1[k] == s2[k] {
      assert CharAt(s1, k) == CharAt(s2, k) != NUL;
    }
  }

  lemma {:induction false} ClipAt(s: seq<Byte>, i: nat, n: nat)
    requires i <= |CString(s)| && i <= n
    ensures i == n || CharAt(s, i) == NUL ==> Clip(s, n) == s[..i]
    ensures i < n && CharAt(s, i) != NUL ==> i < |Clip(s, n)| && Clip(s, n)[i] == CharAt(s, i)
  {
    if i < n && CharAt(s, i) == NUL {
      IndexOfIs(s, NUL, i);
    }
  }

  lemma {:induction false} AgreeClips(s1: seq<Byte>, s2: seq<Byte>, i: nat, n: nat)
    requires i <= n && AgreeBefore(s1, s2, i)
    ensures i == n || CharAt(s1, i) == CharAt(s2, i) == NUL ==> Clip(s1, n) == Clip(s2, n)
    ensures i < n && CharAt(s1, i) != CharAt(s2, i) ==> Clip(s1, n) != Clip(s2, n)
  {
    AgreePrefix(s1, s2, i);
    ClipAt(s1, i, n);
    ClipAt(s2, i, n);
    if i < n && CharAt(s1, i) == NUL != CharAt(s2, i) {
      assert |Clip(s1, n)| == i;
    }
    if i < n && CharAt(s2, i) == NUL != CharAt(s1, i) {
      assert |Clip(s2, n)| == i;
    }
  }

  /** strncmp: zero exactly when the strings agree as far as `n` characters go. */
  method Strncmp(s1: seq<Byte>, s2: seq<Byte>, n: nat) returns (r: int)
    ensures r == 0 <==> Clip(s1, n) == Clip(s2, n)
    ensures r != 0 ==> exists i: nat ::
      i < n && AgreeBefore(s1, s2, i) && r == Signed(CharAt(s1, i)) - Signed(CharAt(s2, i))
  {
    var i: nat := 0;
    while i < n
      invariant i <= n && AgreeBefore(s1, s2, i)
    {
      AgreeClips(s1, s2, i, n);
      if CharAt(s1, i) != CharAt(s2, i) || CharAt(s1, i) == NUL {
        return Signed(CharAt(s1, i)) - Signed(CharAt(s2, i));
      }
      i := i + 1;
    }
    AgreeClips(s1, s2, n, n);
    return 0;
  }

  /** strncpy: the C string in `src`, then NULs, `n` bytes in all. */
  method Strncpy(dest: array<Byte>, at: nat, src: seq<Byte>, n: nat)
    requires at + n <= dest.Length
    modifies dest
    ensures dest[..] == Written(old(dest[..]), at, Padded(CString(src), n))
  {
    ghost var text := Padded(CString(src), n);
    var i: nat := 0;
    while CharAt(src, i) != NUL && i < n
      invariant i <= n && i <= |CString(src)|
      invariant forall k {:trigger dest[k]} :: 0 <= k < dest.Length ==>
        dest[k] == if at <= k < at + i then text[k - at] else old(dest[k])
      decreases n - i
    {
      dest[at + i] := CharAt(src, i);
      i := i + 1;
    }
    while i < n
      invariant i <= n && (i < n ==> |CString(src)| <= i)
      invariant forall k {:trigger dest[k]} :: 0 <= k < dest.Length ==>
        dest[k] == if at <= k < at + i then text[k - at] else old(dest[k])
    {
      dest[at + i] := NUL;
      i := i + 1;
    }
  }

  lemma {:induction false} AppendAssoc<T>(a: seq<T>, b: seq<T>, c: seq<T>)
    ensures a + b + c == a + (b + c)
  {
  }

  lemma {:induction false} SliceOfSlice<T>(d: seq<T>, from: nat, to: nat, i: nat, n: nat)
    requires from + i + n <= to <= |d|
    ensures d[from..to][i..i + n] == d[from + i..from + i + n]
  {
    var u, v := d[from..to][i..i + n], d[from + i..from + i + n];
    forall k | 0 <= k < n ensures u[k] == v[k] {
      assert u[k] == d[from..to][i + k];
    }
  }

  /** memcpy between two buffers that do not overlap. */
  method CopyBytes(dest: array<Byte>, src: array<Byte>, n: nat)
    requires dest != src && n <= dest.Length && n <= src.Length
    modifies dest
    ensures dest[..n] == src[..n] && dest[n..] == old(dest[n..])
  {
    var i := 0;
    while i < n
      invariant 0 <= i <= n
      invariant forall k {:trigger dest[k]} :: 0 <= k < dest.Length ==>
        dest[k] == if k < i then src[k] else old(dest[k])
    {
      dest[i] := src[i];
      i := i + 1;
    }
  }
}
