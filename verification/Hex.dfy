/** Hexadecimal text: minimal and padded numerals, and reading them back. */
module Hex {

  function Zeros(n: nat): string {
    seq(n, _ => '0')
  }

  /** `slice` and `substring` for ordered bounds: both ends are clamped to the text. */
  function Slice(s: string, start: nat, end: nat): string {
    var e := if end < |s| then end else |s|;
    if start < e then s[start..e] else ""
  }

  predicate IsLowerHex(c: char) {
    '0' <= c <= '9' || 'a' <= c <= 'f'
  }

  predicate IsHex(c: char) {
    IsLowerHex(c) || 'A' <= c <= 'F'
  }

  predicate AllHex(s: string) {
    forall i :: 0 <= i < |s| ==> IsHex(s[i])
  }

  predicate AllLowerHex(s: string) {
    forall i :: 0 <= i < |s| ==> IsLowerHex(s[i])
  }

  function DigitValue(c: char): (d: nat)
    requires IsHex(c)
    ensures d < 16
  {
    if c <= '9' then (c - '0') as nat
    else if c <= 'F' then 10 + (c - 'A') as nat
    else 10 + (c - 'a') as nat
  }

  function Digit(d: nat): (c: char)
    requires d < 16
    ensures IsLowerHex(c) && DigitValue(c) == d
  {
    if d < 10 then '0' + d as char else 'a' + (d - 10) as char
  }

  lemma DigitOfValue(c: char)
    requires IsHex(c)
    ensures Digit(DigitValue(c)) == c <==> IsLowerHex(c)
  {
  }

  function LowerChar(c: char): char {
    if 'A' <= c <= 'F' then c - 'A' + 'a' else c
  }

  function Lower(s: string): (r: string)
    ensures |r| == |s|
  {
    seq(|s|, i requires 0 <= i < |s| => LowerChar(s[i]))
  }

  /** The shortest numeral, one digit for zero. */
  function ToHex(n: nat): (s: string)
    ensures |s| > 0 && AllLowerHex(s)
  {
    if n < 16 then [Digit(n)] else ToHex(n / 16) + [Digit(n % 16)]
  }

  function FromHex(s: string): nat
    requires AllHex(s)
  {
    if s == [] then 0 else FromHex(s[..|s|-1]) * 16 + DigitValue(s[|s|-1])
  }

  function PadLeft(s: string, width: nat): string {
    if |s| < width then Zeros(width - |s|) + s else s
  }

  function Pow16(n: nat): nat {
    if n == 0 then 1 else 16 * Pow16(n - 1)
  }

  lemma {:induction false} ReadBack(n: nat)
    ensures FromHex(ToHex(n)) == n
  {
    if n >= 16 {
      ReadBack(n / 16);
      assert ToHex(n)[..|ToHex(n)|-1] == ToHex(n / 16);
    }
  }

  lemma {:induction false} ReadPadded(s: string, zeros: nat)
    requires AllHex(s)
    ensures AllHex(Zeros(zeros) + s) && FromHex(Zeros(zeros) + s) == FromHex(s)
    decreases |s|, zeros
  {
    if s != [] {
      ReadPadded(s[..|s|-1], zeros);
      assert (Zeros(zeros) + s)[..zeros+|s|-1] == Zeros(zeros) + s[..|s|-1];
    } else if zeros > 0 {
      ReadPadded(s, zeros - 1);
      assert (Zeros(zeros) + s)[..zeros-1] == Zeros(zeros - 1) + s;
    } else {
      assert Zeros(0) + s == [];
    }
  }

  lemma PaddedReadsBack(n: nat, width: nat)
    ensures var s := PadLeft(ToHex(n), width); AllHex(s) && FromHex(s) == n
  {
    ReadBack(n);
    if |ToHex(n)| < width {
      ReadPadded(ToHex(n), width - |ToHex(n)|);
    }
  }

  /** A numeral fits a width exactly when the number is below that power of sixteen. */
  lemma {:induction false} Fits(n: nat, width: nat)
    requires width > 0
    ensures |ToHex(n)| <= width <==> n < Pow16(width)
    decreases width
  {
    if width == 1 {
      assert Pow16(1) == 16 * Pow16(0) == 16;
      if n >= 16 {
        assert |ToHex(n)| == |ToHex(n / 16)| + 1;
      }
    } else if n >= 16 {
      Fits(n / 16, width - 1);
    } else {
      PowGrows(width - 1);
    }
  }

  lemma {:induction false} PowGrows(n: nat)
    ensures Pow16(n) >= 1
  {
    if n > 0 {
      PowGrows(n - 1);
    }
  }

  lemma SplitDigit(v: nat, d: nat)
    requires d < 16
    ensures (v * 16 + d) / 16 == v && (v * 16 + d) % 16 == d
  {
  }

  /** Exactly `width` digits, the low ones of the number. */
  function FixedHex(n: nat, width: nat): (s: string)
    ensures |s| == width
  {
    if width == 0 then "" else FixedHex(n / 16, width - 1) + [Digit(n % 16)]
  }

  lemma {:induction false} FixedZeros(width: nat)
    ensures FixedHex(0, width) == Zeros(width)
  {
    if width > 0 {
      FixedZeros(width - 1);
      assert Zeros(width) == Zeros(width - 1) + [Digit(0)];
    }
  }

  /** A padded numeral is the fixed one, when the number fits. */
  lemma {:induction false} PaddedIsFixed(n: nat, width: nat)
    requires width > 0 && n < Pow16(width)
    ensures PadLeft(ToHex(n), width) == FixedHex(n, width)
    decreases width
  {
    if n < 16 {
      FixedZeros(width - 1);
      assert n / 16 == 0 && n % 16 == n;
    } else {
      assert width > 1 by {
        assert Pow16(1) == 16 * Pow16(0) == 16;
      }
      PaddedIsFixed(n / 16, width - 1);
      Fits(n / 16, width - 1);
      PadAppend(ToHex(n / 16), Digit(n % 16), width - 1);
    }
  }

  lemma PadAppend(s: string, c: char, width: nat)
    requires |s| <= width
    ensures PadLeft(s + [c], width + 1) == PadLeft(s, width) + [c]
  {
  }

  lemma SameEnds(a: string, x: char, b: string, y: char)
    requires |a| == |b|
    ensures a + [x] == b + [y] <==> a == b && x == y
  {
    assert (a + [x])[..|a|] == a && (b + [y])[..|b|] == b;
    assert (a + [x])[|a|] == x && (b + [y])[|b|] == y;
  }

  lemma LowerByParts(s: string)
    requires s != []
    ensures AllLowerHex(s) <==> AllLowerHex(s[..|s|-1]) && IsLowerHex(s[|s|-1])
    ensures AllHex(s) ==> AllHex(s[..|s|-1]) && IsHex(s[|s|-1])
  {
  }

  lemma {:induction false} RewriteFixed(s: string)
    requires AllHex(s)
    ensures FromHex(s) < Pow16(|s|)
    ensures FixedHex(FromHex(s), |s|) == s <==> AllLowerHex(s)
    decreases |s|
  {
    if s != [] {
      var before, c := s[..|s|-1], s[|s|-1];
      LowerByParts(s);
      RewriteFixed(before);
      SplitDigit(FromHex(before), DigitValue(c));
      DigitOfValue(c);
      assert s == before + [c];
      SameEnds(FixedHex(FromHex(before), |before|), Digit(DigitValue(c)), before, c);
    }
  }

  /** Rewriting a padded numeral gives it back exactly when it is in lower case. */
  lemma RewriteExactly(s: string)
    requires s != [] && AllHex(s)
    ensures |ToHex(FromHex(s))| <= |s|
    ensures PadLeft(ToHex(FromHex(s)), |s|) == s <==> AllLowerHex(s)
  {
    RewriteFixed(s);
    Fits(FromHex(s), |s|);
    PaddedIsFixed(FromHex(s), |s|);
  }
}
