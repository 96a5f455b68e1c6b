/**
 * Canonical resource names.  `ResourceName` is a `StrEnum` whose members
 * take their value from `auto()`, which for a `StrEnum` is the member's
 * name in lower case.
 */
module Vocabulary {

  datatype ResourceName = Settings | Logger

  /** The member name as written in the enum body. */
  function MemberName(r: ResourceName): string
  {
    match r
    case Settings => "SETTINGS"
    case Logger => "LOGGER"
  }

  /** ASCII lower-casing of one character (member names are ASCII). */
  function LowerChar(c: char): (d: char)
    ensures 'A' <= c <= 'Z' ==> 'a' <= d <= 'z' && d as int - c as int == 32
    ensures !('A' <= c <= 'Z') ==> d == c
  {
    if 'A' <= c <= 'Z' then (c as int + 32) as char else c
  }

  /** `str.lower()` restricted to ASCII. */
  function Lower(s: string): (t: string)
    ensures |t| == |s|
    ensures forall i :: 0 <= i < |s| ==> t[i] == LowerChar(s[i])
  {
    if s == [] then [] else [LowerChar(s[0])] + Lower(s[1..])
  }

  /** The string value that `auto()` gives a member. */
  function Value(r: ResourceName): (s: string)
    ensures |s| == |MemberName(r)|
    ensures forall i :: 0 <= i < |s| ==> !('A' <= s[i] <= 'Z')
  {
    Lower(MemberName(r))
  }

  /** The two members carry the registry keys "settings" and "logger". */
  lemma ValueIsLowerCaseName()
    ensures Value(Settings) == "settings"
    ensures Value(Logger) == "logger"
  {
  }

  /** Distinct members never share a registry key. */
  lemma ValueInjective(a: ResourceName, b: ResourceName)
    ensures Value(a) == Value(b) ==> a == b
  {
  }
}
