/**
 * The two string operations the edit fields use: `String.uppercase()`, for the
 * ASCII letters the hex fields accept, and `removePrefix`.
 */
module Text {

  function UpperChar(c: char): (u: char)
    ensures !('a' <= u <= 'z')
    ensures !('a' <= c <= 'z') ==> u == c
  {
    if 'a' <= c <= 'z' then (c as int - 'a' as int + 'A' as int) as char else c
  }

  /** `s.uppercase()`: every lower-case ASCII letter raised, every other character kept. */
  function Uppercase(s: string): (u: string)
    ensures |u| == |s|
    ensures forall i :: 0 <= i < |s| ==> u[i] == UpperChar(s[i])
  {
    if s == [] then [] else Uppercase(s[..|s| - 1]) + [UpperChar(s[|s| - 1])]
  }

  /** Raising the case twice is raising it once. */
  lemma UppercaseIdempotent(s: string)
    ensures Uppercase(Uppercase(s)) == Uppercase(s)
  {
    var u := Uppercase(s);
    assert forall i :: 0 <= i < |u| ==> UpperChar(u[i]) == u[i];
  }

  /** `s.removePrefix(prefix)`: the prefix is dropped once if `s` starts with it. */
  function RemovePrefix(s: string, prefix: string): (r: string)
    ensures |prefix| <= |s| && s[..|prefix|] == prefix ==> s == prefix + r
    ensures !(|prefix| <= |s| && s[..|prefix|] == prefix) ==> r == s
  {
    if |prefix| <= |s| && s[..|prefix|] == prefix then s[|prefix|..] else s
  }
}
