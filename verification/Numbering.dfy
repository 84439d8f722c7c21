/**
 Directory numbers: SIPp prints the common prefix of a range followed by a zero-padded counter.
 The text it prints is the decimal string of each number of the range exactly when the range
 does not run into a longer number.
 */
module Numbering {
  function DigitChar(d: nat): char
    requires d < 10
  {
    ('0' as int + d) as char
  }

  predicate IsDigit(c: char) {
    '0' <= c <= '9'
  }

  predicate AllDigits(s: string) {
    forall i :: 0 <= i < |s| ==> IsDigit(s[i])
  }

  // int() of a digit string.
  function Value(s: string): nat
    requires AllDigits(s)
  {
    if s == "" then 0 else 10 * Value(s[..|s|-1]) + (s[|s|-1] as int - '0' as int)
  }

  // str() of a number.
  function Dec(n: nat): (s: string)
    ensures |s| > 0 && AllDigits(s)
  {
    if n < 10 then [DigitChar(n)] else Dec(n / 10) + [DigitChar(n % 10)]
  }

  // The last w digits of n.
  function Pad(w: nat, n: nat): (s: string)
    ensures |s| == w && AllDigits(s)
  {
    if w == 0 then "" else Pad(w - 1, n / 10) + [DigitChar(n % 10)]
  }

  function Pow10(k: nat): (p: nat)
    ensures p > 0
  {
    if k == 0 then 1 else 10 * Pow10(k - 1)
  }

  // printf("%0{w}d")
  function ZeroPad(w: nat, n: nat): string {
    if |Dec(n)| >= w then Dec(n) else seq(w - |Dec(n)|, i => '0') + Dec(n)
  }

  /* ----- Decimal strings ----- */

  lemma {:induction false} DecIsPad(n: nat)
    ensures Dec(n) == Pad(|Dec(n)|, n)
  {
    if n >= 10 {
      DecIsPad(n / 10);
    } else {
      assert Pad(0, n / 10) == "";
    }
  }

  lemma {:induction false} DecLength(n: nat)
    ensures n < Pow10(|Dec(n)|)
    ensures n >= 10 ==> Pow10(|Dec(n)| - 1) <= n
  {
    if n >= 10 {
      DecLength(n / 10);
      if n / 10 < 10 {
        assert |Dec(n / 10)| == 1 && Pow10(1) == 10 * Pow10(0);
      }
    } else {
      assert Pow10(1) == 10 * Pow10(0);
    }
  }

  lemma {:induction false} DecLengthMonotone(a: nat, b: nat)
    requires a <= b
    ensures |Dec(a)| <= |Dec(b)|
  {
    if a < 10 {
    } else {
      DecLengthMonotone(a / 10, b / 10);
    }
  }

  lemma {:induction false} DecShort(n: nat, k: nat)
    requires k > 0 && n < Pow10(k)
    ensures |Dec(n)| <= k
  {
    if n < 10 {
    } else {
      assert k > 1 by { assert Pow10(1) == 10 * Pow10(0); }
      DecShort(n / 10, k - 1);
    }
  }

  lemma {:induction false} TenDigits()
    ensures Pow10(10) == 10000000000
  {
    assert Pow10(4) == 10000;
    assert Pow10(7) == 10000000;
  }

  lemma {:induction false} ValueOfPad(w: nat, n: nat)
    requires n < Pow10(w)
    ensures Value(Pad(w, n)) == n
  {
    if w == 0 {
    } else {
      ValueOfPad(w - 1, n / 10);
      assert Pad(w, n)[..w-1] == Pad(w - 1, n / 10);
    }
  }

  lemma {:induction false} ValueOfDec(n: nat)
    ensures Value(Dec(n)) == n
  {
    DecIsPad(n);
    DecLength(n);
    ValueOfPad(|Dec(n)|, n);
  }

  lemma {:induction false} PadZero(w: nat)
    ensures Pad(w, 0) == seq(w, i => '0')
  {
    if w == 0 {
    } else {
      PadZero(w - 1);
    }
  }

  // Leading zeros.
  lemma {:induction false} PadWider(z: nat, w: nat, n: nat)
    requires n < Pow10(w)
    ensures Pad(z + w, n) == seq(z, i => '0') + Pad(w, n)
  {
    if w == 0 {
      PadZero(z);
    } else {
      PadWider(z, w - 1, n / 10);
    }
  }

  lemma {:induction false} ZeroPadIsPad(w: nat, n: nat)
    requires w > 0 && n < Pow10(w)
    ensures ZeroPad(w, n) == Pad(w, n)
  {
    var l := |Dec(n)|;
    DecIsPad(n);
    DecLength(n);
    if l > w {
      assert n >= 10;
      Pow10Monotone(w, l - 1);
    } else {
      PadWider(w - l, l, n);
      assert Pad(w - l + l, n) == Pad(w, n);
      if l == w { assert seq(0, i => '0') + Dec(n) == Dec(n); }
    }
  }

  lemma {:induction false} Pow10Monotone(a: nat, b: nat)
    requires a <= b
    ensures Pow10(a) <= Pow10(b)
  {
    if a == b {
    } else {
      Pow10Monotone(a, b - 1);
    }
  }

  // n without its last w digits, and the number those digits make.
  function Quot(n: nat, w: nat): nat {
    if w == 0 then n else Quot(n / 10, w - 1)
  }

  function Rem(n: nat, w: nat): nat {
    if w == 0 then 0 else 10 * Rem(n / 10, w - 1) + n % 10
  }

  lemma {:induction false} RemFits(n: nat, w: nat)
    ensures Rem(n, w) < Pow10(w)
  {
    if w == 0 {
    } else {
      RemFits(n / 10, w - 1);
    }
  }

  lemma {:induction false} QuotFits(n: nat, i: nat, w: nat)
    requires n < Pow10(i + w)
    ensures Quot(n, w) < Pow10(i)
  {
    if w == 0 {
    } else {
      QuotFits(n / 10, i, w - 1);
    }
  }

  lemma {:induction false} QuotMonotone(a: nat, b: nat, w: nat)
    requires a <= b
    ensures Quot(a, w) <= Quot(b, w)
  {
    if w == 0 {
    } else {
      QuotMonotone(a / 10, b / 10, w - 1);
    }
  }

  // Numbers that differ in the last w digits only.
  lemma {:induction false} SameQuot(a: nat, b: nat, w: nat)
    requires Quot(a, w) == Quot(b, w)
    ensures b - a == Rem(b, w) - Rem(a, w)
  {
    if w == 0 {
    } else {
      SameQuot(a / 10, b / 10, w - 1);
    }
  }

  lemma {:induction false} PadLast(w: nat, q: nat, d: nat)
    requires w > 0 && d < 10
    ensures Pad(w, 10 * q + d) == Pad(w - 1, q) + [DigitChar(d)]
  {
    assert (10 * q + d) / 10 == q && (10 * q + d) % 10 == d;
  }

  lemma Joined(whole: string, front: string, back: string, a: string, b: string, c: string)
    requires whole == front + c && front == a + b && back == b + c
    ensures whole == a + back
  {
  }

  lemma {:induction false} PadSplitStep(i: nat, w: nat, q: nat, d: nat)
    requires w > 0 && d < 10 && Pad(i + w - 1, q) == Pad(i, Quot(q, w - 1)) + Pad(w - 1, Rem(q, w - 1))
    ensures Pad(i + w, 10 * q + d) == Pad(i, Quot(q, w - 1)) + Pad(w, 10 * Rem(q, w - 1) + d)
  {
    hide *;
    var r := Rem(q, w - 1);
    PadLast(i + w, q, d);
    PadLast(w, r, d);
    Joined(Pad(i + w, 10 * q + d), Pad(i + w - 1, q), Pad(w, 10 * r + d),
           Pad(i, Quot(q, w - 1)), Pad(w - 1, r), [DigitChar(d)]);
  }

  lemma {:induction false} PadSplit(i: nat, w: nat, n: nat)
    ensures Pad(i + w, n) == Pad(i, Quot(n, w)) + Pad(w, Rem(n, w))
  {
    if w == 0 {
      assert Pad(0, 0) == "";
    } else {
      hide Pad;
      PadSplit(i, w - 1, n / 10);
      PadSplitStep(i, w, n / 10, n % 10);
      assert n == 10 * (n / 10) + n % 10;
    }
  }

  lemma {:induction false} PadInjective(w: nat, a: nat, b: nat)
    requires a < Pow10(w) && b < Pow10(w) && Pad(w, a) == Pad(w, b)
    ensures a == b
  {
    ValueOfPad(w, a);
    ValueOfPad(w, b);
  }

  /* ----- dn_prefix ----- */

  // i is where the strings first differ, or the last common position when they do not.
  predicate SplitsAt(s: string, e: string, i: nat) {
    && i < |s| && i < |e| && s[..i] == e[..i]
    && (s[i] != e[i] || i + 1 == |s| || i + 1 == |e|)
  }

  // The prefix and suffix digits of a range.
  predicate IsDnPrefix(dnStart: nat, n: nat, prefix: string, suffix: nat) {
    var s, e := Dec(dnStart), Dec(dnStart + n);
    suffix <= |e| && SplitsAt(s, e, |e| - suffix) && prefix == s[..|e| - suffix]
  }

  /** The common prefix of the range and the number of its changing digits. */
  method DnPrefix(dnStart: nat, nPorts: nat) returns (prefix: string, suffix: nat)
    ensures IsDnPrefix(dnStart, nPorts, prefix, suffix)
  {
    var s, e := Dec(dnStart), Dec(dnStart + nPorts);
    var i := 0;
    while true
      invariant i < |s| && i < |e| && s[..i] == e[..i]
      decreases |s| - i
    {
      if s[i] != e[i] || i + 1 == |s| || i + 1 == |e| {
        break;
      }
      i := i + 1;
    }
    return s[..i], |e| - i;
  }

  /* ----- The generated numbers ----- */

  // s[-w:]
  function LastChars(s: string, w: nat): (r: string)
    requires AllDigits(s)
    ensures AllDigits(r)
  {
    if w >= |s| then s else s[|s|-w..]
  }

  // The k-th number SIPp prints for the template of a range.
  function GeneratedDn(dnStart: nat, prefix: string, suffix: nat, k: nat): string {
    prefix + ZeroPad(suffix, Value(LastChars(Dec(dnStart), suffix)) + k)
  }

  // The leading i and the last w digits of a number.
  lemma {:induction false} DecSplit(n: nat, i: nat, w: nat)
    requires |Dec(n)| == i + w
    ensures Dec(n)[..i] == Pad(i, Quot(n, w)) && Dec(n)[i..] == Pad(w, Rem(n, w))
    ensures Quot(n, w) < Pow10(i) && Rem(n, w) < Pow10(w)
  {
    hide *;
    DecIsPad(n);
    PadSplit(i, w, n);
    DecLength(n);
    QuotFits(n, i, w);
    RemFits(n, w);
  }

  // A number of a range whose ends share their leading i digits.
  lemma {:induction false} NumberInRange(a: nat, b: nat, i: nat, w: nat, k: nat)
    requires k <= b - a && i + w == |Dec(a)| == |Dec(b)| && Dec(a)[..i] == Dec(b)[..i]
    ensures Dec(a)[i..] == Pad(w, Rem(a, w))
    ensures Rem(a, w) + k < Pow10(w) && Dec(a + k) == Dec(a)[..i] + Pad(w, Rem(a, w) + k)
  {
    hide *;
    var c := a + k;
    DecLengthMonotone(a, c);
    DecLengthMonotone(c, b);
    DecSplit(a, i, w);
    DecSplit(b, i, w);
    DecSplit(c, i, w);
    PadInjective(i, Quot(a, w), Quot(b, w));
    QuotMonotone(a, c, w);
    QuotMonotone(c, b, w);
    SameQuot(a, c, w);
    assert Dec(c) == Dec(c)[..i] + Dec(c)[i..];
  }

  lemma {:induction false} GeneratesRange(dnStart: nat, n: nat, prefix: string, suffix: nat, k: nat)
    requires IsDnPrefix(dnStart, n, prefix, suffix) && k <= n
    requires |Dec(dnStart)| == |Dec(dnStart + n)|
    ensures GeneratedDn(dnStart, prefix, suffix, k) == Dec(dnStart + k)
  {
    var s := Dec(dnStart);
    var i := |s| - suffix;
    assert suffix > 0 && s[..i] == Dec(dnStart + n)[..i] == prefix;
    assert LastChars(s, suffix) == s[i..];
    hide Dec, Pad, Value, ZeroPad, LastChars, Rem, Quot, Pow10, IsDnPrefix;
    NumberInRange(dnStart, dnStart + n, i, suffix, k);
    NumberInRange(dnStart, dnStart + n, i, suffix, 0);
    ValueOfPad(suffix, Rem(dnStart, suffix));
    ZeroPadIsPad(suffix, Rem(dnStart, suffix) + k);
  }

  lemma {:induction false} ZeroPadLength(w: nat, n: nat)
    ensures |ZeroPad(w, n)| >= w
  {
  }

  /** The generated numbers are the decimal strings of the announced range exactly when the first
      number past the range is no longer than the first in it. */
  lemma {:induction false} RangeGeneratedExactly(dnStart: nat, n: nat, prefix: string, suffix: nat)
    requires IsDnPrefix(dnStart, n, prefix, suffix) && n > 0
    ensures (forall k :: 0 <= k < n ==> GeneratedDn(dnStart, prefix, suffix, k) == Dec(dnStart + k))
            <==> |Dec(dnStart)| == |Dec(dnStart + n)|
  {
    var s, e := Dec(dnStart), Dec(dnStart + n);
    if |s| == |e| {
      forall k | 0 <= k < n ensures GeneratedDn(dnStart, prefix, suffix, k) == Dec(dnStart + k) {
        GeneratesRange(dnStart, n, prefix, suffix, k);
      }
    } else {
      DecLengthMonotone(dnStart, dnStart + n);
      ZeroPadLength(suffix, Value(LastChars(s, suffix)) + 0);
      assert |GeneratedDn(dnStart, prefix, suffix, 0)| >= |e| > |s|;
      assert Dec(dnStart + 0) == s;
    }
  }

  /** In that case no number is generated twice. */
  lemma {:induction false} GeneratedAreDistinct(dnStart: nat, n: nat, prefix: string, suffix: nat, j: nat, k: nat)
    requires IsDnPrefix(dnStart, n, prefix, suffix) && |Dec(dnStart)| == |Dec(dnStart + n)|
    requires j < n && k < n && j != k
    ensures GeneratedDn(dnStart, prefix, suffix, j) != GeneratedDn(dnStart, prefix, suffix, k)
  {
    hide *;
    GeneratesRange(dnStart, n, prefix, suffix, j);
    GeneratesRange(dnStart, n, prefix, suffix, k);
    ValueOfDec(dnStart + j);
    ValueOfDec(dnStart + k);
  }

  /** The range of the single number 99 is printed as 099. */
  lemma NinetyNineGetsAZero()
    ensures IsDnPrefix(99, 1, "", 3) && GeneratedDn(99, "", 3, 0) == "099"
  {
    assert Dec(99) == Dec(9) + ['9'] == "99";
    assert Dec(100) == Dec(10) + ['0'] && Dec(10) == Dec(1) + ['0'] && Dec(100) == "100";
    assert LastChars("99", 3) == "99";
    ValueOfDec(99);
    assert seq(1, i => '0') == "0";
    assert ZeroPad(3, 99) == "0" + "99";
  }
}
