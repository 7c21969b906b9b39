/** C strings: sequences of bytes that a NUL follows. */
module CStrings {
  const NUL: char := '\0'

  /** What a C string can hold. */
  type CString = s: string | NUL !in s witness ""

  /** The byte at a position, or the NUL after the end. */
  function At(s: string, pos: nat): char {
    if pos < |s| then s[pos] else NUL
  }

  /** Strings are stored as C strings: up to the first NUL. */
  function Cut(s: string): (c: CString)
    ensures |c| <= |s| && c == s[..|c|]
    ensures |c| < |s| ==> s[|c|] == NUL
    ensures NUL !in s ==> c == s
  {
    if s == "" || s[0] == NUL then "" else [s[0]] + Cut(s[1..])
  }
}
