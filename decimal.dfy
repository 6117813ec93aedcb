/** Decimal renderings of natural numbers and their parser, used for the
    string form of identifiers and for the numeric claims of a token. */
module Decimal {
  import opened Common

  predicate IsDigit(c: char) { '0' <= c <= '9' }

  predicate AllDigits(s: string) {
    forall i :: 0 <= i < |s| ==> IsDigit(s[i])
  }

  function DigitChar(d: nat): (c: char)
    requires d < 10
    ensures IsDigit(c)
  {
    ('0' as int + d) as char
  }

  /** A character that is not a digit does not occur in a run of digits. */
  lemma NoDigitIn(s: string, c: char)
    requires AllDigits(s) && !IsDigit(c)
    ensures c !in s
  {
    forall i | 0 <= i < |s| ensures s[i] != c {
    }
  }

  /** The shortest decimal rendering of `n` (`String(n)`). */
  function NatToString(n: nat): (s: string)
    ensures |s| >= 1 && AllDigits(s)
    ensures s[0] == '0' ==> n == 0
  {
    if n < 10 then [DigitChar(n)]
    else NatToString(n / 10) + [DigitChar(n % 10)]
  }

  /** The value of a string of decimal digits. */
  function DigitsValue(s: string): nat
    requires AllDigits(s)
  {
    if s == [] then 0
    else DigitsValue(s[..|s| - 1]) * 10 + (s[|s| - 1] as int - '0' as int)
  }

  /** A non-empty run of decimal digits and its value; anything else fails. */
  function ParseNat(s: string): (r: Option<nat>)
    ensures r.Some? <==> s != [] && AllDigits(s)
  {
    if s != [] && AllDigits(s) then Some(DigitsValue(s)) else None
  }

  lemma {:induction false} DigitsValueOfRendering(n: nat)
    ensures DigitsValue(NatToString(n)) == n
  {
    if n >= 10 {
      DigitsValueOfRendering(n / 10);
      var s := NatToString(n);
      assert s[..|s| - 1] == NatToString(n / 10);
    }
  }

  /** Parsing a rendering gives back the number. */
  lemma ParseRendering(n: nat)
    ensures ParseNat(NatToString(n)) == Some(n)
  {
    DigitsValueOfRendering(n);
  }

  /** Distinct numbers have distinct renderings. */
  lemma RenderingInjective(m: nat, n: nat)
    requires NatToString(m) == NatToString(n)
    ensures m == n
  {
    ParseRendering(m);
    ParseRendering(n);
  }

  /** The string form of a document identifier (`_id.toString()`). */
  function IdString(id: Id): (s: string)
    ensures ParseNat(s) == Some(id)
  {
    ParseRendering(id);
    NatToString(id)
  }

  /** The identifier a path parameter or body member names: its decimal
      reading. Any other text makes the query that casts it throw. */
  function ParamId(param: string): (r: Option<Id>)
    ensures r.Some? <==> param != [] && AllDigits(param)
  {
    ParseNat(param)
  }
}
