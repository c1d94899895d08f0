/** Python values and small string helpers shared by every script of the video creator. */
module Common {

  /** Python's None, or a value. */
  datatype Option<T> = None | Some(value: T)

  /** The Python exceptions that the modelled code can raise. */
  datatype Exception =
    | KeyError           // a dictionary key that is absent
    | IndexError         // a list index out of range
    | TypeError          // subscripting the integer sentinel -1
    | AttributeError     // reading an attribute that was never assigned
    | ZeroDivisionError  // a float division by zero
    | RuntimeFailure     // a bare `raise Exception(...)`

  /** A value, or the exception raised instead of producing it. */
  datatype Result<T> = Success(value: T) | Failure(error: Exception)

  /** str.upper() on one character (ASCII letters only). */
  function UpperChar(c: char): char
  {
    if 'a' <= c <= 'z' then (c as int - 'a' as int + 'A' as int) as char else c
  }

  /** str.upper(), character by character. */
  function Upper(s: string): (r: string)
    ensures |r| == |s|
    ensures forall i :: 0 <= i < |s| ==> r[i] == UpperChar(s[i])
  {
    if s == [] then [] else [UpperChar(s[0])] + Upper(s[1..])
  }

  /** Equality of two names under upper-casing, as `a.upper() == b.upper()`. */
  predicate SameIgnoringCase(a: string, b: string)
  {
    Upper(a) == Upper(b)
  }

  /** str.endswith(suffix). */
  predicate EndsWith(s: string, suffix: string)
  {
    |suffix| <= |s| && s[|s| - |suffix|..] == suffix
  }

  /** How an f-string renders an optional string field: None prints as "None". */
  function Format(v: Option<string>): string
  {
    match v
    case None => "None"
    case Some(s) => s
  }

  function Digit(d: nat): char
    requires d < 10
  {
    "0123456789"[d]
  }

  /** The decimal digits of a natural number, as str() prints them. */
  function NatToString(n: nat): (s: string)
    ensures |s| >= 1
    ensures forall i :: 0 <= i < |s| ==> '0' <= s[i] <= '9'
    decreases n
  {
    if n < 10 then [Digit(n)] else NatToString(n / 10) + [Digit(n % 10)]
  }

  /** str() of an int: a minus sign before the digits of a negative number. */
  function IntToString(i: int): (s: string)
    ensures |s| >= 1
    ensures '.' !in s && '/' !in s
  {
    if i < 0 then "-" + NatToString(-i) else NatToString(i)
  }
}
