/** Numbers as text (itoa and strrev of lib.c and ece391support.c, and the conversions of printf). */
module Numbers {
  import opened Arithmetic
  import opened Bytes
  import opened Limits

  const ZERO: Byte := 48
  const MINUS: Byte := 45

  predicate Radix(r: int) {
    2 <= r <= 36
  }

  /** The look-up table "0123456789ABC...Z". */
  function DigitChar(d: int): Byte
    requires 0 <= d < 36
  {
    if d < 10 then ZERO + d else 55 + d
  }

  lemma {:induction false} DigitTable(d: int)
    requires 0 <= d < 36
    ensures DigitChar(d) == Ascii("0123456789ABCDEFGHIJKLMNOPQRSTUVWXYZ")[d]
    ensures DigitValue(DigitChar(d)) == d
  {
  }

  function DigitValue(c: Byte): int {
    if c < 65 then c - ZERO else c - 55
  }

  predicate IsDigit(c: Byte, radix: int) {
    (ZERO <= c < ZERO + 10 || 65 <= c < 91) && DigitValue(c) < radix
  }

  /** What a string of digits means. */
  function Value(ds: seq<Byte>, radix: int): int {
    if ds == [] then 0 else Value(ds[..|ds| - 1], radix) * radix + DigitValue(ds[|ds| - 1])
  }

  /** Digits only, at least one, and no zero in front of others. */
  predicate Proper(ds: seq<Byte>, radix: int) {
    && ds != [] && (forall i :: 0 <= i < |ds| ==> IsDigit(ds[i], radix))
    && (|ds| > 1 ==> ds[0] != ZERO)
  }

  function Digits(v: nat, radix: int): (ds: seq<Byte>)
    requires Radix(radix)
    ensures ds != [] && Lacks(ds, NUL)
    decreases v
  {
    if v < radix then [DigitChar(v)] else Quotient(v, radix); Digits(v / radix, radix) + [DigitChar(v % radix)]
  }

  lemma {:induction false} Quotient(v: nat, radix: int)
    requires Radix(radix)
    ensures 0 <= v / radix <= v && (v >= radix ==> 1 <= v / radix < v) && 0 <= v % radix < radix
    ensures v / radix * radix + v % radix == v
  {
    var q := v / radix;
    assert q * radix + v % radix == v;
    if q >= 1 {
      MulMore(q, radix);
    }
  }

  lemma {:induction false} MulMore(q: int, radix: int)
    requires q >= 1 && radix >= 2
    ensures q * radix >= 2 * q
  {
    assert q * radix == 2 * q + q * (radix - 2);
    MulNonneg(q, radix - 2);
  }

  lemma {:induction false} MulNonneg(a: int, b: int)
    requires a >= 0 && b >= 0
    ensures a * b >= 0
  {
  }

  /** Reading the digits back gives the value, and there are no leading zeros. */
  lemma {:induction false} DigitsMean(v: nat, radix: int)
    requires Radix(radix)
    ensures Value(Digits(v, radix), radix) == v && Proper(Digits(v, radix), radix)
    ensures v > 0 ==> Digits(v, radix)[0] != ZERO
    decreases v
  {
    if v >= radix {
      Quotient(v, radix);
      DigitsMean(v / radix, radix);
      var front := Digits(v / radix, radix);
      assert Digits(v, radix)[..|front|] == front;
    } else {
      assert Value([DigitChar(v)], radix) == Value([], radix) * radix + v;
    }
  }

  /** There is no other way to write the value. */
  lemma {:induction false} DigitsUnique(ds: seq<Byte>, v: nat, radix: int)
    requires Radix(radix) && Proper(ds, radix) && Value(ds, radix) == v
    ensures ds == Digits(v, radix)
    decreases |ds|
  {
    var n := |ds| - 1;
    var front, d := ds[..n], DigitValue(ds[n]);
    assert DigitChar(d) == ds[n];
    if n == 0 {
      assert Value(ds, radix) == Value([], radix) * radix + d;
    } else {
      ValuePositive(front, radix);
      var f := Value(front, radix);
      MulMore(f, radix);
      ModIs(v, f, radix, d);
      DigitsUnique(front, f, radix);
      if f < radix { MulMore(1, radix); }
      AtLeastRadix(f, radix, d);
    }
  }

  lemma {:induction false} AtLeastRadix(f: int, radix: int, d: int)
    requires f >= 1 && Radix(radix) && d >= 0
    ensures f * radix + d >= radix
  {
    assert f * radix == radix + (f - 1) * radix;
    MulNonneg(f - 1, radix);
  }

  lemma {:induction false} ValuePositive(ds: seq<Byte>, radix: int)
    requires Radix(radix) && ds != [] && (forall i :: 0 <= i < |ds| ==> IsDigit(ds[i], radix)) && ds[0] != ZERO
    ensures Value(ds, radix) >= 1
    decreases |ds|
  {
    var n := |ds| - 1;
    if n == 0 {
      assert Value(ds, radix) == Value([], radix) * radix + DigitValue(ds[0]);
    } else {
      ValuePositive(ds[..n], radix);
      MulMore(Value(ds[..n], radix), radix);
    }
  }

  function Pow(b: nat, n: nat): nat {
    if n == 0 then 1 else Pow(b, n - 1) * b
  }

  /** The first digit counts for as many powers of the radix as digits follow it. */
  lemma {:induction false} ValueFront(d: Byte, rest: seq<Byte>, radix: int)
    requires Radix(radix)
    ensures Value([d] + rest, radix) == DigitValue(d) * Pow(radix, |rest|) + Value(rest, radix)
    decreases |rest|
  {
    hide Value, DigitValue, Pow;
    ValueLast([d] + rest, radix);
    if rest == [] {
      assert ([d] + rest)[..0] == [];
      NothingIsZero(radix);
    } else {
      var n := |rest| - 1;
      assert ([d] + rest)[..|rest|] == [d] + rest[..n];
      ValueLast(rest, radix);
      ValueFront(d, rest[..n], radix);
      OnePowerMore(DigitValue(d), radix, n, Value(rest[..n], radix));
    }
  }

  lemma {:induction false} NothingIsZero(radix: int)
    requires Radix(radix)
    ensures Value([], radix) == 0 && Pow(radix, 0) == 1
  {
  }

  lemma {:induction false} ValueLast(ds: seq<Byte>, radix: int)
    requires ds != []
    ensures Value(ds, radix) == Value(ds[..|ds| - 1], radix) * radix + DigitValue(ds[|ds| - 1])
  {
  }

  lemma {:induction false} OnePowerMore(d: int, radix: int, n: nat, v: int)
    requires Radix(radix)
    ensures (d * Pow(radix, n) + v) * radix == d * Pow(radix, n + 1) + v * radix
  {
    var p := Pow(radix, n);
    assert Pow(radix, n + 1) == p * radix;
    MulAssoc(d, p, radix);
    assert (d * p + v) * radix == d * p * radix + v * radix;
  }

  /** A number below `radix` to the `n` takes at most `n` digits. */
  lemma {:induction false} DigitsFit(v: nat, radix: int, n: nat)
    requires Radix(radix) && v < Pow(radix, n) && n >= 1
    ensures |Digits(v, radix)| <= n
    decreases n
  {
    assert n == 1 ==> Pow(radix, n) == Pow(radix, 0) * radix == radix;
    if v >= radix {
      Quotient(v, radix);
      var q, p := v / radix, Pow(radix, n - 1);
      assert q * radix == p * radix + (q - p) * radix;
      if q >= p {
        MulNonneg(q - p, radix);
      }
      DigitsFit(q, radix, n - 1);
    }
  }

  lemma {:induction false} PowGrows(radix: int, n: nat)
    requires Radix(radix)
    ensures Pow(2, n) <= Pow(radix, n)
  {
    if n > 0 {
      PowGrows(radix, n - 1);
      var p, q := Pow(2, n - 1), Pow(radix, n - 1);
      assert q * radix == p * 2 + (q - p) * 2 + q * (radix - 2);
      MulNonneg(q, radix - 2);
    }
  }

  lemma {:induction false} WordFits(v: nat, radix: int)
    requires Radix(radix) && v < TWO_TO_32
    ensures |Digits(v, radix)| <= 32
    ensures radix == 16 ==> |Digits(v, radix)| <= 8
  {
    WordPowers();
    PowGrows(radix, 32);
    DigitsFit(v, radix, 32);
    if radix == 16 {
      DigitsFit(v, 16, 8);
    }
  }

  lemma {:induction false} MulAssoc(x: int, y: int, z: int)
    ensures x * (y * z) == x * y * z
  {
  }

  lemma {:induction false} PowSum(b: nat, m: nat, n: nat)
    ensures Pow(b, m + n) == Pow(b, m) * Pow(b, n)
  {
    if n > 0 {
      PowSum(b, m, n - 1);
      MulAssoc(Pow(b, m), Pow(b, n - 1), b);
    }
  }

  lemma {:induction false} WordPowers()
    ensures Pow(2, 32) == TWO_TO_32 && Pow(16, 8) == TWO_TO_32
  {
    assert Pow(2, 2) == Pow(2, 1) * 2 == 4;
    PowSum(2, 2, 2);
    PowSum(2, 4, 4);
    PowSum(2, 8, 8);
    PowSum(2, 16, 16);
    assert Pow(16, 2) == Pow(16, 1) * 16 == 256;
    PowSum(16, 2, 2);
    PowSum(16, 4, 4);
  }

  // ----- in place -----

  function Reversed(s: seq<Byte>): (r: seq<Byte>)
    ensures |r| == |s|
    ensures forall i :: 0 <= i < |s| ==> r[i] == s[|s| - 1 - i]
  {
    seq(|s|, i requires 0 <= i < |s| => s[|s| - 1 - i])
  }

  /** strlen. */
  method Strlen(buf: array<Byte>, at: nat, ghost len: nat) returns (n: nat)
    requires at + len < buf.Length && buf[at + len] == NUL && Lacks(buf[at..at + len], NUL)
    ensures n == len
  {
    forall k | at <= k < at + len ensures buf[k] != NUL {
      assert buf[k] == buf[at..at + len][k - at];
    }
    n := 0;
    while buf[at + n] != NUL
      invariant n <= len
      decreases len - n
    {
      n := n + 1;
    }
  }

  /** strrev: the string at `at` is reversed where it is. */
  method Strrev(buf: array<Byte>, at: nat, ghost len: nat)
    requires at + len < buf.Length && buf[at + len] == NUL && Lacks(buf[at..at + len], NUL)
    modifies buf
    ensures buf[..] == Written(old(buf[..]), at, Reversed(old(buf[at..at + len])))
  {
    ghost var was := buf[..];
    var n := Strlen(buf, at, len);
    var beg: int, end: int := 0, n - 1;
    while beg < end
      invariant 0 <= beg && end == n - 1 - beg && beg <= end + 2
      invariant forall k {:trigger buf[k]} :: 0 <= k < buf.Length ==>
        buf[k] == if at <= k < at + beg || at + end < k < at + n then was[2 * at + n - 1 - k] else was[k]
    {
      var tmp := buf[at + end];
      buf[at + end] := buf[at + beg];
      buf[at + beg] := tmp;
      beg := beg + 1;
      end := end - 1;
    }
    ReversedIn(buf[..], was, at, len);
  }

  lemma {:induction false} ReversedIn(now: seq<Byte>, was: seq<Byte>, at: nat, len: nat)
    requires |now| == |was| && at + len <= |was|
    requires forall k {:trigger now[k]} :: 0 <= k < |was| ==>
      now[k] == if at <= k < at + len then was[2 * at + len - 1 - k] else was[k]
    ensures now == Written(was, at, Reversed(was[at..at + len]))
  {
    var mid := was[at..at + len];
    var w := Written(was, at, Reversed(mid));
    forall k | 0 <= k < |was| ensures now[k] == w[k] {
      if at <= k < at + len {
        assert w[k] == Reversed(mid)[k - at] == mid[len - 1 - (k - at)];
      }
    }
  }

  /** What itoa leaves in the buffer: the digits and a terminator, and nothing else touched. */
  ghost predicate HoldsDigits(now: seq<Byte>, was: seq<Byte>, at: nat, ds: seq<Byte>) {
    at + |ds| < |was| && now == Written(was, at, ds + [NUL])
  }

  lemma {:induction false} ZeroHeld(was: seq<Byte>, at: nat)
    requires at + 1 < |was|
    ensures HoldsDigits(Written(was, at, [ZERO, NUL]), was, at, [ZERO])
  {
    assert [ZERO] + [NUL] == [ZERO, NUL];
  }

  lemma {:induction false} ZeroDigits(radix: int)
    requires Radix(radix)
    ensures Digits(0, radix) == [ZERO]
  {
  }

  /** itoa. */
  method Itoa(value: nat, buf: array<Byte>, at: nat, radix: int)
    requires value < TWO_TO_32 && Radix(radix) && at + 33 <= buf.Length
    modifies buf
    ensures HoldsDigits(buf[..], old(buf[..]), at, Digits(value, radix))
  {
    hide Digits, HoldsDigits, DigitChar, Written, Reversed;
    ghost var was, ds := buf[..], Digits(value, radix);
    WordFits(value, radix);
    ZeroDigits(radix);
    if value == 0 {
      buf[at] := ZERO;
      buf[at + 1] := NUL;
      ZeroHeld(was, at);
      assert buf[..] == Written(was, at, [ZERO, NUL]);
      return;
    }
    var newval, n := value, 0;
    while newval > 0
      invariant 0 <= newval && 0 <= n <= |ds| && (newval > 0 ==> n < |ds|)
      invariant ds[..|ds| - n] == (if newval > 0 then Digits(newval, radix) else [])
      invariant forall k {:trigger buf[k]} :: 0 <= k < buf.Length ==>
        buf[k] == if at <= k < at + n then ds[|ds| - 1 - (k - at)] else was[k]
      decreases newval
    {
      Quotient(newval, radix);
      var i := newval % radix;
      LastDigit(ds, newval, radix, n);
      buf[at + n] := DigitChar(i);
      n := n + 1;
      newval := newval / radix;
    }
    buf[at + n] := NUL;
    ghost var mid := buf[..];
    assert mid[at..at + n] == Reversed(ds);
    assert Lacks(Reversed(ds), NUL);
    Strrev(buf, at, n);
    TwiceReversed(mid, was, at, ds);
  }

  lemma {:induction false} TwiceReversed(mid: seq<Byte>, was: seq<Byte>, at: nat, ds: seq<Byte>)
    requires |mid| == |was| && at + |ds| < |was|
    requires forall k :: 0 <= k < |was| ==>
      mid[k] == if at <= k < at + |ds| then ds[|ds| - 1 - (k - at)] else if k == at + |ds| then NUL else was[k]
    ensures HoldsDigits(Written(mid, at, Reversed(mid[at..at + |ds|])), was, at, ds)
  {
  }

  /** Digit `n` from the end, when the digits in front of it are those of `v`. */
  lemma {:induction false} LastDigit(ds: seq<Byte>, v: nat, radix: int, n: nat)
    requires Radix(radix) && v > 0 && n < |ds| && ds[..|ds| - n] == Digits(v, radix)
    ensures 0 <= v % radix < radix && ds[|ds| - 1 - n] == DigitChar(v % radix)
    ensures ds[..|ds| - 1 - n] == (if v / radix > 0 then Digits(v / radix, radix) else [])
    ensures v / radix > 0 ==> n + 1 < |ds|
  {
    Quotient(v, radix);
    var all := Digits(v, radix);
    assert ds[|ds| - 1 - n] == all[|all| - 1];
    assert ds[..|ds| - 1 - n] == all[..|all| - 1];
    if v < radix {
      ModIs(v, 0, radix, v);
    }
  }

  // ----- printf -----

  /** %#x: the digits, with zeros in front up to eight. */
  method FormatHex(value: nat) returns (out: seq<Byte>)
    requires value < TWO_TO_32
    ensures |out| == 8 && (forall i :: 0 <= i < 8 ==> IsDigit(out[i], 16)) && Value(out, 16) == value
  {
    hide HoldsDigits, Digits, Value;
    var convBuf := new Byte[64];
    ghost var ds := Digits(value, 16);
    WordFits(value, 16);
    DigitsMean(value, 16);
    ghost var was := convBuf[..];
    Itoa(value, convBuf, 8, 16);
    DigitsHeld(convBuf[..], was, 8, ds);
    assert convBuf[8..8 + |ds|] == convBuf[..][8..8 + |ds|];
    var startingIndex := Strlen(convBuf, 8, |ds|);
    var i: nat := startingIndex;
    while i < 8
      invariant |ds| == startingIndex <= i <= 8
      invariant convBuf[8..8 + |ds|] == ds && convBuf[8 + |ds|] == NUL
      invariant forall k :: startingIndex <= k < i ==> convBuf[k] == ZERO
    {
      convBuf[i] := ZERO;
      i := i + 1;
    }
    // puts prints up to the terminator
    var len := Strlen(convBuf, startingIndex, 8);
    out := convBuf[startingIndex..startingIndex + len];
    ghost var zeros := seq(8 - |ds|, _ => ZERO);
    forall k | 0 <= k < 8 ensures out[k] == (zeros + ds)[k] {
      assert out[k] == convBuf[startingIndex + k];
      assert k >= 8 - |ds| ==> convBuf[startingIndex + k] == convBuf[8..8 + |ds|][k - (8 - |ds|)];
    }
    assert out == zeros + ds;
    LeadingZeros(8 - |ds|, ds, 16);
  }

  lemma {:induction false} LeadingZeros(n: nat, ds: seq<Byte>, radix: int)
    requires Radix(radix)
    ensures Value(seq(n, _ => ZERO) + ds, radix) == Value(ds, radix)
    decreases |ds|, n
  {
    var z := seq(n, _ => ZERO);
    if ds != [] {
      assert (z + ds)[..|z + ds| - 1] == z + ds[..|ds| - 1];
      LeadingZeros(n, ds[..|ds| - 1], radix);
    } else if n > 0 {
      assert z + ds == z && z[..n - 1] == seq(n - 1, _ => ZERO) + ds;
      LeadingZeros(n - 1, ds, radix);
    } else {
      assert z + ds == ds;
    }
  }

  /** A string with one character in front of the digits. */
  lemma {:induction false} DigitsIn(now: seq<Byte>, first: Byte, at: nat, ds: seq<Byte>)
    requires at == 1 && at + |ds| < |now| && now[0] == first != NUL && now[1..1 + |ds|] == ds && Lacks(ds, NUL)
    ensures now[0..1 + |ds|] == [first] + ds && Lacks(now[0..1 + |ds|], NUL)
  {
  }

  lemma {:induction false} DigitsHeld(now: seq<Byte>, was: seq<Byte>, at: nat, ds: seq<Byte>)
    requires HoldsDigits(now, was, at, ds)
    ensures at + |ds| < |now| == |was| && now[at..at + |ds|] == ds && now[at + |ds|] == NUL
    ensures forall k :: 0 <= k < at ==> now[k] == was[k]
  {
  }

  /** %d: a minus sign and the digits of the magnitude; -2^31 is its own negation as a word. */
  method FormatSigned(value: int) returns (out: seq<Byte>)
    requires -TWO_TO_32 / 2 <= value < TWO_TO_32 / 2
    ensures value >= 0 ==> Proper(out, 10) && Value(out, 10) == value
    ensures value < 0 ==> out != [] && out[0] == 45 && Proper(out[1..], 10) && Value(out[1..], 10) == -value
  {
    hide HoldsDigits, Digits, Value, Proper;
    var convBuf := new Byte[36];
    if value < 0 {
      convBuf[0] := MINUS;
      var negated := if -value == TWO_TO_32 / 2 then value else -value; // 32-bit negation
      var word := if negated < 0 then negated + TWO_TO_32 else negated; // as unsigned
      ghost var ds := Digits(word, 10);
      DigitsMean(word, 10);
      ghost var was := convBuf[..];
      Itoa(word, convBuf, 1, 10);
      DigitsHeld(convBuf[..], was, 1, ds);
      DigitsIn(convBuf[..], convBuf[0], 1, ds);
      var len := Strlen(convBuf, 0, 1 + |ds|);
      out := convBuf[0..0 + len];
    } else {
      ghost var ds := Digits(value, 10);
      DigitsMean(value, 10);
      ghost var was := convBuf[..];
      Itoa(value, convBuf, 0, 10);
      DigitsHeld(convBuf[..], was, 0, ds);
      assert convBuf[0..0 + |ds|] == convBuf[..][0..0 + |ds|];
      var len := Strlen(convBuf, 0, |ds|);
      out := convBuf[0..0 + len];
    }
  }
}
