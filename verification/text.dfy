/** String helpers standing in for `String.prototype.toLowerCase` and `includes`. */
module Text {

  /** Lower-cases one character; only ASCII capitals are mapped. */
  function LowerChar(c: char): (d: char)
    ensures 'A' <= c <= 'Z' ==> 'a' <= d <= 'z'
    ensures !('A' <= c <= 'Z') ==> d == c
    ensures !('A' <= d <= 'Z')
  {
    if 'A' <= c <= 'Z' then (c as int - 'A' as int + 'a' as int) as char else c
  }

  /** `s.toLowerCase()`, character by character. */
  function ToLower(s: string): (r: string)
    ensures |r| == |s|
    ensures forall i :: 0 <= i < |s| ==> r[i] == LowerChar(s[i])
  {
    if |s| == 0 then [] else [LowerChar(s[0])] + ToLower(s[1..])
  }

  /** `t` occurs in `s` starting at position `i`. */
  predicate OccursAt(s: string, t: string, i: nat)
  {
    i + |t| <= |s| && s[i..i + |t|] == t
  }

  /** `s.includes(t)`: some position of `s` starts a copy of `t`. */
  predicate Contains(s: string, t: string)
  {
    exists i: nat :: i <= |s| && OccursAt(s, t, i)
  }

  /** Computes `Contains` by scanning the positions from `from` upwards. */
  function FindFrom(s: string, t: string, from: nat): (found: bool)
    requires from <= |s| + 1
    decreases |s| + 1 - from
    ensures found <==> exists i: nat :: from <= i <= |s| && OccursAt(s, t, i)
  {
    if from + |t| > |s| then false
    else if s[from..from + |t|] == t then assert OccursAt(s, t, from); true
    else FindFrom(s, t, from + 1)
  }

  /** The executable form of `Contains`. */
  function Includes(s: string, t: string): (found: bool)
    ensures found <==> Contains(s, t)
  {
    FindFrom(s, t, 0)
  }

  /** Every string includes the empty string. */
  lemma IncludesEmpty(s: string)
    ensures Includes(s, "")
  {
    assert OccursAt(s, "", 0);
  }

  /** A string lacking the first character of `t` does not include `t`. */
  lemma NotIncludesWithoutFirstChar(s: string, t: string)
    requires |t| > 0 && t[0] !in s
    ensures !Includes(s, t)
  {
  }
}
