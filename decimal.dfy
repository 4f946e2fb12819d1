/**
 * The `%d` conversion of `sscanf`, on a whole whitespace-free token, and
 * its inverse, the decimal rendering of an integer.
 */
module Decimal {
  import opened Wrappers
  import opened CText

  predicate IsDigit(c: char)
  {
    '0' <= c <= '9'
  }

  predicate AllDigits(d: string)
  {
    forall k :: 0 <= k < |d| ==> IsDigit(d[k])
  }

  /** An optional sign followed by at least one decimal digit. */
  predicate IsDecimal(w: string)
  {
    (|w| > 0 && AllDigits(w)) || (|w| > 1 && (w[0] == '-' || w[0] == '+') && AllDigits(w[1..]))
  }

  /** The value of a string of decimal digits, most significant first. */
  function DigitsValue(d: string): nat
    requires AllDigits(d)
    decreases |d|
  {
    if d == [] then 0 else 10 * DigitsValue(d[..|d| - 1]) + (d[|d| - 1] as int - '0' as int)
  }

  /** What `%d` stores for a token, or None when the conversion fails. */
  function ScanInt(w: string): (r: Option<int>)
    ensures r.Some? <==> IsDecimal(w)
  {
    if |w| > 0 && AllDigits(w) then Some(DigitsValue(w))
    else if |w| > 1 && w[0] == '-' && AllDigits(w[1..]) then Some(0 - DigitsValue(w[1..]) as int)
    else if |w| > 1 && w[0] == '+' && AllDigits(w[1..]) then Some(DigitsValue(w[1..]))
    else None
  }

  function DigitChar(d: nat): char
    requires d < 10
  {
    ('0' as int + d) as char
  }

  /** The shortest decimal rendering of a natural number. */
  function ShowNat(n: nat): string
    decreases n
  {
    if n < 10 then [DigitChar(n)] else ShowNat(n / 10) + [DigitChar(n % 10)]
  }

  /** The decimal rendering `printf("%d")` gives an integer. */
  function ShowInt(n: int): string
  {
    if n < 0 then "-" + ShowNat(-n) else ShowNat(n)
  }

  lemma {:induction false} ShowNatDigits(n: nat)
    ensures |ShowNat(n)| > 0 && AllDigits(ShowNat(n))
    ensures DigitsValue(ShowNat(n)) == n
    decreases n
  {
    if n >= 10 {
      ShowNatDigits(n / 10);
      var s := ShowNat(n);
      assert s[..|s| - 1] == ShowNat(n / 10);
    }
  }

  /** Reading back a rendered integer gives the integer. */
  lemma ScanShow(n: int)
    ensures ScanInt(ShowInt(n)) == Some(n)
  {
    if n < 0 {
      ShowNatDigits(-n);
      var w := ShowInt(n);
      assert w[0] == '-' && !IsDigit(w[0]);
      assert w[1..] == ShowNat(-n);
    } else {
      ShowNatDigits(n);
    }
  }

  /** A rendered integer is a single token for any delimiters other than
      the sign and the digits. */
  lemma ShowIntIsToken(n: int, delims: set<char>)
    requires '-' !in delims && forall c :: '0' <= c <= '9' ==> c !in delims
    ensures IsToken(ShowInt(n), delims)
  {
    var w := ShowInt(n);
    if n < 0 {
      ShowNatDigits(-n);
      assert w[1..] == ShowNat(-n);
      assert forall k :: 1 <= k < |w| ==> w[k] == ShowNat(-n)[k - 1];
    } else {
      ShowNatDigits(n);
    }
  }
}
