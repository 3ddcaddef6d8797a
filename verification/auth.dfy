/** The e-mail verification code: the nanosecond clock reduced modulo one
    million and printed as six zero-padded decimal digits. The clock reading is
    a parameter. */
module Auth {
  import opened Text

  const CodeLength: nat := 6
  const CodeModulus: nat := 1000000

  /** `%06d` of `nanos % 1000000`, for a non-negative clock reading. */
  function GenerateCode(nanos: nat): (code: string)
    ensures |code| == CodeLength
    ensures AllDigits(code)
  {
    var digits := NatToDecimal(nanos % CodeModulus);
    assert CodeModulus == Pow10(CodeLength);
    DecimalLengthBound(nanos % CodeModulus, CodeLength);
    var code := PadLeft(digits, CodeLength, '0');
    assert forall i :: |code| - |digits| <= i < |code| ==> code[i] == digits[i - (|code| - |digits|)];
    code
  }

  /** Reading the code back gives the clock reading modulo one million. */
  lemma GenerateCodeValue(nanos: nat)
    ensures ParseDecimal(GenerateCode(nanos)) == nanos % CodeModulus
  {
    var n := nanos % CodeModulus;
    var digits := NatToDecimal(n);
    var code := GenerateCode(nanos);
    var w := |code| - |digits|;
    assert code == code[..w] + digits;
    ParseIgnoresLeadingZeros(code[..w], digits);
    ParseFormatsBack(n);
  }

  /** A value below 100000 is padded: the code starts with '0'. The code
      starts with a non-zero digit otherwise. */
  lemma GenerateCodePadding(nanos: nat)
    ensures GenerateCode(nanos)[0] == '0' <==> nanos % CodeModulus < 100000
  {
    var n := nanos % CodeModulus;
    var digits := NatToDecimal(n);
    var code := GenerateCode(nanos);
    if n < 100000 {
      assert 100000 == Pow10(5);
      DecimalLengthBound(n, 5);
      assert |digits| <= 5;
    } else {
      GenerateCodeValue(nanos);
      if |digits| < CodeLength {
        assert 100000 == Pow10(5);
        DecimalLower(n, |digits|);
      }
      assert |digits| == CodeLength;
      assert code == digits;
    }
  }

  /** A number printed with `k` digits is below 10^k. */
  lemma {:induction false} DecimalLower(n: nat, k: nat)
    requires |NatToDecimal(n)| == k
    ensures n < Pow10(k)
    decreases n
  {
    if n >= 10 {
      DecimalLower(n / 10, k - 1);
    }
  }
}
