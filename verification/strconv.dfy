/**
 * Go's `strconv.Atoi` (base-10 `ParseInt` into a 64-bit int) and
 * `strconv.Itoa`, as the environment helpers use them.
 */
module Strconv {
  import opened Wrappers
  import opened GoTime

  predicate IsDigit(c: char) {
    '0' <= c <= '9'
  }

  predicate AllDigits(s: string) {
    forall i :: 0 <= i < |s| ==> IsDigit(s[i])
  }

  function DigitValue(c: char): nat
    requires IsDigit(c)
  {
    c as int - '0' as int
  }

  /** The value of a run of decimal digits, most significant first. */
  function DecimalValue(s: string): (n: nat)
    requires AllDigits(s)
  {
    if s == [] then 0 else DecimalValue(s[..|s| - 1]) * 10 + DigitValue(s[|s| - 1])
  }

  /**
   * `strconv.Atoi(s)`: an optional sign followed by one or more decimal
   * digits (no underscores, no base prefix), whose value fits an int64;
   * anything else, the empty string included, is an error.
   */
  function Atoi(s: string): (r: Option<int>)
    ensures r.Some? ==> InInt64(r.value)
    ensures r.Some? ==> |s| > 0 && (AllDigits(s) || (|s| > 1 && (s[0] == '-' || s[0] == '+') && AllDigits(s[1..])))
    ensures |s| > 0 && AllDigits(s) ==>
      (r.Some? <==> DecimalValue(s) <= MaxInt64) && (r.Some? ==> r.value == DecimalValue(s))
    ensures |s| > 1 && s[0] == '+' && AllDigits(s[1..]) ==>
      (r.Some? <==> DecimalValue(s[1..]) <= MaxInt64) && (r.Some? ==> r.value == DecimalValue(s[1..]))
    ensures |s| > 1 && s[0] == '-' && AllDigits(s[1..]) ==>
      (r.Some? <==> DecimalValue(s[1..]) <= -MinInt64) && (r.Some? ==> r.value == -(DecimalValue(s[1..]) as int))
  {
    if |s| == 0 then None
    else
      var neg := s[0] == '-';
      var digits := if s[0] == '-' || s[0] == '+' then s[1..] else s;
      if |digits| == 0 || !AllDigits(digits) then None
      else
        var v: int := if neg then -(DecimalValue(digits) as int) else DecimalValue(digits);
        if InInt64(v) then Some(v) else None
  }

  function DigitChar(d: nat): (c: char)
    requires d < 10
    ensures IsDigit(c) && DigitValue(c) == d
  {
    ('0' as int + d) as char
  }

  /** The shortest decimal rendering of a natural number. */
  function NatToString(n: nat): (s: string)
    ensures |s| > 0 && AllDigits(s)
    decreases n
  {
    if n < 10 then [DigitChar(n)] else NatToString(n / 10) + [DigitChar(n % 10)]
  }

  /** `strconv.Itoa(n)`. */
  function Itoa(n: int): (s: string)
  {
    if n < 0 then "-" + NatToString(-n) else NatToString(n)
  }

  lemma {:induction false} DecimalValueOfNatToString(n: nat)
    ensures DecimalValue(NatToString(n)) == n
    decreases n
  {
    var s := NatToString(n);
    if n >= 10 {
      DecimalValueOfNatToString(n / 10);
      assert s[..|s| - 1] == NatToString(n / 10);
    }
  }

  /** Reading back a rendered int64 gives the same number. */
  lemma AtoiItoa(n: int)
    requires InInt64(n)
    ensures Atoi(Itoa(n)) == Some(n)
  {
    var s := Itoa(n);
    if n < 0 {
      DecimalValueOfNatToString(-n);
      assert s[1..] == NatToString(-n);
    } else {
      DecimalValueOfNatToString(n);
    }
  }

  /** Distinct numbers have distinct renderings. */
  lemma ItoaInjective(a: int, b: int)
    requires InInt64(a) && InInt64(b)
    ensures Itoa(a) == Itoa(b) <==> a == b
  {
    AtoiItoa(a);
    AtoiItoa(b);
  }

  /** A signed value parses, a lone sign or an inner non-digit does not. */
  lemma AtoiForms()
    ensures Atoi("-5") == Some(-5) && Atoi("+5") == Some(5)
    ensures Atoi("-") == None && Atoi("a1") == None && Atoi("1a") == None
  {
    assert DecimalValue("5") == 5;
    assert !IsDigit("a1"[0]) && !IsDigit("1a"[1]);
  }
}
