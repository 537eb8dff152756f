/**
 * The fragments of Python's runtime that the interpreter's behaviour depends on:
 * the exceptions it can raise, bytes, sequence indexing (with negative indices
 * counting from the end) and the built-in `hex` on single digits.
 */
module Python {
  import opened Wrappers

  /** The exceptions the modelled code can raise. */
  datatype Exception =
    | IndexError   // a sequence subscript out of range
    | TypeError    // subscripting a value that is not a sequence

  /** One element of a `bytearray`. */
  type byte = x: int | 0 <= x < 256

  /** `s[i]`: indices in [0, |s|) count from the front, indices in [-|s|, 0)
      count from the end, anything else raises IndexError. */
  function Index<T>(s: seq<T>, i: int): (r: Result<T, Exception>)
    ensures r.Ok? <==> -|s| <= i < |s|
    ensures r.Ok? ==> r.value == s[if i < 0 then |s| + i else i]
  {
    if 0 <= i < |s| then Ok(s[i])
    else if -|s| <= i < 0 then Ok(s[|s| + i])
    else Err(IndexError)
  }

  /** The lower-case digit `hex` writes for a value below 16. */
  function HexDigit(d: nat): (c: char)
    requires d < 16
  {
    if d < 10 then ('0' as int + d) as char else ('a' as int + (d - 10)) as char
  }

  /** The built-in `hex(n)` for `0 <= n < 16`, the only arguments the
      interpreter gives it: "0x" followed by one digit. */
  function Hex(n: nat): (s: string)
    requires n < 16
    ensures |s| == 3 && s[..2] == "0x"
  {
    "0x" + [HexDigit(n)]
  }

  /** Distinct values below 16 get distinct digits. */
  lemma HexDigitInjective(d: nat, e: nat)
    requires d < 16 && e < 16 && d != e
    ensures HexDigit(d) != HexDigit(e)
  {
  }

  /** Dropping the "0x" prefix leaves the digit. */
  lemma HexOfSmall(n: nat)
    requires n < 16
    ensures Hex(n)[2..] == [HexDigit(n)]
  {
  }
}
