/** Small building blocks shared by every module of the model: optional values,
    results that carry a Python exception, and the string helpers that Python's
    built-ins (`str.join`, `str(int)`) provide. */
module Basics {

  datatype Option<+T> = None | Some(value: T)

  /** The Python exceptions the modelled code raises or catches, each with the
      text that `str(e)` would give. */
  datatype Exception =
    | ValueError(message: string)
    | AttributeError(message: string)
    | OverflowError(message: string)
    | IndexError(message: string)
    | KeyError(message: string)
    | AuthenticationError(message: string)
    | APIError(message: string)
    | DataValidationError(message: string)
    | RequestException(message: string)

  /** A value, or the exception that a call raised instead of returning. */
  datatype Result<+T> = Ok(value: T) | Err(error: Exception)

  predicate Distinct<T(==)>(s: seq<T>)
  {
    forall i, j :: 0 <= i < j < |s| ==> s[i] != s[j]
  }

  /** `sep.join(xs)`. */
  function Join(sep: string, xs: seq<string>): (r: string)
    ensures xs == [] ==> r == ""
    ensures |xs| == 1 ==> r == xs[0]
  {
    if xs == [] then "" else if |xs| == 1 then xs[0] else xs[0] + sep + Join(sep, xs[1..])
  }

  lemma JoinTwo(sep: string, a: string, b: string)
    ensures Join(sep, [a, b]) == a + sep + b
  {
    assert [a, b][1..] == [b];
  }

  lemma JoinFour(sep: string, a: string, b: string, c: string, d: string)
    ensures Join(sep, [a, b, c, d]) == a + sep + b + sep + c + sep + d
  {
    assert [a, b, c, d][1..] == [b, c, d];
    assert [b, c, d][1..] == [c, d];
    JoinTwo(sep, c, d);
  }

  function DigitChar(d: nat): (c: char)
    requires d < 10
    ensures '0' <= c <= '9' && c as int - '0' as int == d
  {
    ('0' as int + d) as char
  }

  /** Python `str(n)` for a non-negative integer. */
  function NatDecimal(n: nat): (r: string)
    ensures |r| >= 1 && forall k :: 0 <= k < |r| ==> '0' <= r[k] <= '9'
  {
    if n < 10 then [DigitChar(n)] else NatDecimal(n / 10) + [DigitChar(n % 10)]
  }

  /** Python `str(n)` for any integer. */
  function Decimal(n: int): string
  {
    if n < 0 then "-" + NatDecimal(-n) else NatDecimal(n)
  }

  predicate StartsWith(s: string, prefix: string)
  {
    |prefix| <= |s| && s[..|prefix|] == prefix
  }
}
