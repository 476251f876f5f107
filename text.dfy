/** String operations the monitor relies on, on `string` = `seq<char>` (one char per code point). */
module Text {

  /** Python's `s[:width] + "..."`: at most `width` leading characters of `s`,
      then a literal ellipsis, which is appended whatever the length of `s`. */
  function Ellipsize(s: string, width: nat): (r: string)
    ensures |r| == (if |s| < width then |s| else width) + 3
    ensures |r| <= width + 3
    ensures r[..|r| - 3] <= s
    ensures r[|r| - 3..] == "..."
    ensures |s| <= width ==> r == s + "..."
  {
    var kept := if |s| < width then s else s[..width];
    assert (kept + "...")[..|kept|] == kept;
    kept + "..."
  }

  /** Upper-casing of one character, for the ASCII letters. */
  function UpperChar(c: char): char
  {
    if 'a' <= c <= 'z' then (c as int - 32) as char else c
  }

  /** Python's `s.upper()` restricted to ASCII: every lower-case letter becomes
      its capital, every other character is kept, the length is unchanged. */
  function Upper(s: string): (r: string)
    ensures |r| == |s|
    ensures forall i :: 0 <= i < |s| ==> r[i] == UpperChar(s[i])
    ensures forall i :: 0 <= i < |r| ==> !('a' <= r[i] <= 'z')
    decreases |s|
  {
    if s == [] then [] else [UpperChar(s[0])] + Upper(s[1..])
  }

  /** `part` occurs in `s` starting at index `i`. */
  predicate OccursAt(s: string, part: string, i: int)
  {
    0 <= i && i + |part| <= |s| && s[i..i + |part|] == part
  }

  /** Python's substring test `part in s`, searched left to right. */
  function Contains(s: string, part: string): bool
    decreases |s|
  {
    (|part| <= |s| && s[..|part|] == part) || (s != [] && Contains(s[1..], part))
  }

  /** The search agrees with the definition of an occurrence: `part in s`
      holds exactly when `part` occurs somewhere in `s`. */
  lemma {:induction false} ContainsIff(s: string, part: string)
    ensures Contains(s, part) <==> exists i :: OccursAt(s, part, i)
    decreases |s|
  {
    if |part| <= |s| && s[..|part|] == part {
      assert OccursAt(s, part, 0);
    } else if s == [] {
      assert forall i :: !OccursAt(s, part, i);
    } else {
      ContainsIff(s[1..], part);
      if exists i :: OccursAt(s[1..], part, i) {
        var i :| OccursAt(s[1..], part, i);
        assert s[1..][i..i + |part|] == s[i + 1..i + 1 + |part|];
        assert OccursAt(s, part, i + 1);
      }
      if exists i :: OccursAt(s, part, i) {
        var i :| OccursAt(s, part, i);
        assert i != 0;
        assert s[1..][i - 1..i - 1 + |part|] == s[i..i + |part|];
        assert OccursAt(s[1..], part, i - 1);
      }
    }
  }

  /** `part` cannot occur in `s` when one of its characters is nowhere in `s`. */
  lemma AbsentChar(s: string, part: string, c: char)
    requires c in part && c !in s
    ensures !Contains(s, part)
  {
    ContainsIff(s, part);
  }
}
