/** String and integer helpers standing in for Go's `fmt` verbs (`%d`, `%06d`),
    `strings.TrimPrefix` and the fixed-width integer conversions. */
module Text {

  /** Go's `int` on a 64-bit platform. */
  newtype int64 = x: int | -0x8000_0000_0000_0000 <= x < 0x8000_0000_0000_0000

  /** Go's `byte`. */
  newtype byte = x: int | 0 <= x < 256

  /** Go's conversion `int32(x)` of an `int`: keeps the low 32 bits, two's complement. */
  function ToInt32(x: int64): (r: int)
    ensures -0x8000_0000 <= r < 0x8000_0000
    ensures (r - x as int) % 0x1_0000_0000 == 0
    ensures -0x8000_0000 <= x as int < 0x8000_0000 ==> r == x as int
  {
    var low := (x as int) % 0x1_0000_0000;
    if low < 0x8000_0000 then low else low - 0x1_0000_0000
  }

  predicate IsDigit(c: char) {
    '0' <= c <= '9'
  }

  predicate AllDigits(s: string) {
    forall i :: 0 <= i < |s| ==> IsDigit(s[i])
  }

  function DigitChar(d: nat): (c: char)
    requires d < 10
    ensures IsDigit(c)
  {
    "0123456789"[d]
  }

  function DigitValue(c: char): nat
    requires IsDigit(c)
  {
    (c as int - '0' as int) as nat
  }

  lemma DigitRoundTrip(d: nat)
    requires d < 10
    ensures DigitValue(DigitChar(d)) == d
  {
  }

  /** The shortest decimal spelling of `n` (what `%d` prints for a non-negative value). */
  function NatToDecimal(n: nat): (s: string)
    ensures |s| >= 1
    ensures AllDigits(s)
    ensures |s| > 1 ==> s[0] != '0'
    decreases n
  {
    if n < 10 then [DigitChar(n)] else NatToDecimal(n / 10) + [DigitChar(n % 10)]
  }

  /** What `%d` prints for any Go `int`: a minus sign followed by the magnitude. */
  function IntToDecimal(n: int64): (s: string)
    ensures |s| >= 1
    ensures s[0] == '-' <==> n < 0
  {
    if n >= 0 then NatToDecimal(n as nat) else "-" + NatToDecimal(-(n as int))
  }

  /** Distinct naturals print differently. */
  lemma NatToDecimalInjective(m: nat, n: nat)
    ensures NatToDecimal(m) == NatToDecimal(n) <==> m == n
  {
    if NatToDecimal(m) == NatToDecimal(n) {
      ParseFormatsBack(m);
      ParseFormatsBack(n);
    }
  }

  /** Distinct integers print differently: `%d` loses nothing. */
  lemma IntToDecimalInjective(a: int64, b: int64)
    ensures IntToDecimal(a) == IntToDecimal(b) <==> a == b
  {
    var s, t := IntToDecimal(a), IntToDecimal(b);
    if s == t {
      assert a < 0 <==> b < 0 by { assert s[0] == t[0]; }
      if a >= 0 {
        NatToDecimalInjective(a as nat, b as nat);
      } else {
        var m, n := -(a as int), -(b as int);
        assert s == "-" + NatToDecimal(m) && t == "-" + NatToDecimal(n);
        assert NatToDecimal(m) == s[1..] == t[1..] == NatToDecimal(n);
        NatToDecimalInjective(m, n);
      }
    }
  }

  /** Reads a string of decimal digits (leading zeros allowed): the inverse of the formatters. */
  function ParseDecimal(s: string): nat
    requires AllDigits(s)
    decreases |s|
  {
    if |s| == 0 then 0 else ParseDecimal(s[..|s| - 1]) * 10 + DigitValue(s[|s| - 1])
  }

  /** Parsing undoes `NatToDecimal`. */
  lemma {:induction false} ParseFormatsBack(n: nat)
    ensures ParseDecimal(NatToDecimal(n)) == n
    decreases n
  {
    if n >= 10 {
      var s := NatToDecimal(n);
      var prefix := NatToDecimal(n / 10);
      assert s[..|s| - 1] == prefix;
      ParseFormatsBack(n / 10);
      DigitRoundTrip(n % 10);
    } else {
      var s := NatToDecimal(n);
      assert s[..|s| - 1] == [];
      DigitRoundTrip(n);
    }
  }

  /** Leading zeros do not change the parsed value. */
  lemma {:induction false} ParseIgnoresLeadingZeros(zeros: string, s: string)
    requires forall i :: 0 <= i < |zeros| ==> zeros[i] == '0'
    requires AllDigits(s)
    ensures AllDigits(zeros + s)
    ensures ParseDecimal(zeros + s) == ParseDecimal(s)
    decreases |s|
  {
    var t := zeros + s;
    assert AllDigits(t) by {
      forall i | 0 <= i < |t| ensures IsDigit(t[i]) {
        if i < |zeros| { assert t[i] == zeros[i]; } else { assert t[i] == s[i - |zeros|]; }
      }
    }
    if |s| == 0 {
      assert t == zeros;
      ZerosParseToZero(zeros);
    } else {
      assert t[..|t| - 1] == zeros + s[..|s| - 1];
      assert t[|t| - 1] == s[|s| - 1];
      ParseIgnoresLeadingZeros(zeros, s[..|s| - 1]);
    }
  }

  lemma {:induction false} ZerosParseToZero(zeros: string)
    requires forall i :: 0 <= i < |zeros| ==> zeros[i] == '0'
    ensures AllDigits(zeros)
    ensures ParseDecimal(zeros) == 0
    decreases |zeros|
  {
    if |zeros| > 0 {
      ZerosParseToZero(zeros[..|zeros| - 1]);
    }
  }

  function Pow10(k: nat): (p: nat)
    ensures p >= 1
  {
    if k == 0 then 1 else 10 * Pow10(k - 1)
  }

  /** A number below 10^k needs at most k digits. */
  lemma {:induction false} DecimalLengthBound(n: nat, k: nat)
    requires n < Pow10(k)
    ensures |NatToDecimal(n)| <= k || (n == 0 && k == 0)
    decreases n
  {
    if n >= 10 {
      assert k >= 1;
      DecimalLengthBound(n / 10, k - 1);
    } else if k == 0 {
      assert n == 0;
    }
  }

  /** `s` left-padded with `pad` up to `width` characters, as `%0<width>d` does. */
  function PadLeft(s: string, width: nat, pad: char): (r: string)
    ensures |r| == if |s| >= width then |s| else width
    ensures r[|r| - |s|..] == s
    ensures forall i :: 0 <= i < |r| - |s| ==> r[i] == pad
  {
    if |s| >= width then s else seq(width - |s|, _ => pad) + s
  }

  predicate StartsWith(s: string, prefix: string) {
    |prefix| <= |s| && s[..|prefix|] == prefix
  }

  /** Go's `strings.TrimPrefix`: drops `prefix` once when present, otherwise returns `s`. */
  function TrimPrefix(s: string, prefix: string): (r: string)
    ensures StartsWith(s, prefix) ==> prefix + r == s
    ensures !StartsWith(s, prefix) ==> r == s
  {
    if StartsWith(s, prefix) then s[|prefix|..] else s
  }

  lemma TrimPrefixUndoesConcat(prefix: string, s: string)
    ensures TrimPrefix(prefix + s, prefix) == s
  {
    assert (prefix + s)[..|prefix|] == prefix;
  }

  predicate IsAsciiUpper(c: char) {
    'A' <= c <= 'Z'
  }

  /** ASCII case mapping of Go's `strings.ToLower`. */
  function AsciiLower(c: char): (r: char)
    ensures !IsAsciiUpper(r)
    ensures IsAsciiUpper(c) ==> r as int == c as int + 32
    ensures !IsAsciiUpper(c) ==> r == c
  {
    if IsAsciiUpper(c) then (c as int + 32) as char else c
  }
}
