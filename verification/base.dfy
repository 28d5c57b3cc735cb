/**
 * Shared vocabulary of the model: an Option type for fail-closed results,
 * the unsigned 64-bit integers of the C++ source, and the view a C string
 * function takes of a character buffer (everything before the first NUL).
 */
module Base {

  datatype Option<T> = None | Some(value: T)

  const TWO_TO_64: int := 0x1_0000_0000_0000_0000

  /** `uint64_t`: values of the source's 64-bit unsigned fields. */
  type u64 = x: int | 0 <= x < TWO_TO_64

  /** Unsigned 64-bit wrap-around of a mathematical result, as C++ performs on
      `uint64_t` addition and subtraction. */
  function Wrap(x: int): (r: u64)
    ensures 0 <= x < TWO_TO_64 ==> r == x
    ensures (r - x) % TWO_TO_64 == 0
  {
    x % TWO_TO_64
  }

  const NUL: char := '\0'

  /** The text a C string function (`%s`, `strncpy`, `c_str()` consumers)
      sees in `s`: the characters before the first NUL, or all of `s`
      when it holds none (the end of `s` then stands for the terminator). */
  function CString(s: seq<char>): (r: seq<char>)
    ensures r <= s && NUL !in r
    ensures |r| < |s| ==> s[|r|] == NUL
  {
    if s == [] || s[0] == NUL then [] else [s[0]] + CString(s[1..])
  }

  /** A C string function reads a NUL-free prefix in full and goes on
      into what follows it. */
  lemma {:induction false} CStringOfPlainPrefix(s: seq<char>, rest: seq<char>)
    requires NUL !in s
    ensures CString(s + rest) == s + CString(rest)
  {
    if s != [] {
      var sr := s + rest;
      assert s[0] in s;
      assert sr[0] == s[0] && sr[1..] == s[1..] + rest;
      CStringOfPlainPrefix(s[1..], rest);
      assert s == [s[0]] + s[1..];
    } else {
      assert s + rest == rest;
    }
  }
}
