/** `strconv.Itoa`, with the parse that undoes it. */
module GoStrconv {

  const DecimalDigits := "0123456789"

  predicate IsDigit(c: char)
  {
    '0' <= c <= '9'
  }

  /** The decimal digits of `n`, most significant first, without leading zeros. */
  function NatToDecimal(n: nat): (s: string)
    ensures |s| > 0
    ensures forall k :: 0 <= k < |s| ==> IsDigit(s[k])
    ensures |s| > 1 ==> s[0] != '0'
    decreases n
  {
    if n < 10 then [DecimalDigits[n]] else NatToDecimal(n / 10) + [DecimalDigits[n % 10]]
  }

  /** `strconv.Itoa`: base 10, with a leading '-' for negative numbers. */
  function Itoa(i: int): (s: string)
  {
    if i < 0 then "-" + NatToDecimal(-i) else NatToDecimal(i)
  }

  /** The value of a digit character (0 for anything else). */
  function DigitValue(c: char): (d: nat)
  {
    if IsDigit(c) then (c as int) - ('0' as int) else 0
  }

  /** The number a string of decimal digits stands for. */
  function DecimalValue(s: string): (v: nat)
    decreases |s|
  {
    if s == [] then 0 else 10 * DecimalValue(s[..|s| - 1]) + DigitValue(s[|s| - 1])
  }

  /** `strconv.Atoi` on the strings `Itoa` produces: an optional '-' then digits. */
  function DecimalToInt(s: string): (v: int)
  {
    if |s| > 0 && s[0] == '-' then -(DecimalValue(s[1..]) as int) else DecimalValue(s)
  }

  lemma {:induction false} NatToDecimalValue(n: nat)
    ensures DecimalValue(NatToDecimal(n)) == n
    decreases n
  {
    var s := NatToDecimal(n);
    if n < 10 {
      assert s[..0] == [];
    } else {
      NatToDecimalValue(n / 10);
      assert s[..|s| - 1] == NatToDecimal(n / 10);
    }
  }

  lemma NegativeRoundTrip(n: nat)
    requires n > 0
    ensures DecimalToInt("-" + NatToDecimal(n)) == -(n as int)
  {
    var d := NatToDecimal(n);
    NatToDecimalValue(n);
    assert ("-" + d)[1..] == d;
  }

  /** Itoa is undone by parsing: no two integers print alike. */
  lemma ItoaRoundTrip(i: int)
    ensures DecimalToInt(Itoa(i)) == i
  {
    if i < 0 {
      NegativeRoundTrip(-i);
    } else {
      NatToDecimalValue(i);
      assert IsDigit(NatToDecimal(i)[0]);
    }
  }

  /** What Itoa prints: a '-' exactly for negative numbers, otherwise digits; never a '%' or a newline. */
  lemma ItoaShape(i: int)
    ensures |Itoa(i)| > 0
    ensures (Itoa(i)[0] == '-') <==> i < 0
    ensures forall k :: 0 < k < |Itoa(i)| ==> IsDigit(Itoa(i)[k])
    ensures '%' !in Itoa(i) && '\n' !in Itoa(i)
  {
    var d := if i < 0 then NatToDecimal(-i) else NatToDecimal(i);
    assert IsDigit(d[0]);
  }
}
