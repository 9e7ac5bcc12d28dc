/**
 * The string operations the tracker's classifiers are built from:
 * lower-casing, substring search (`String.prototype.includes`) and the
 * number of non-overlapping matches of a literal pattern (the length of
 * `content.match(/literal/g)`).
 */
module Text {

  /** Lower-casing of one character; only the ASCII letters A-Z change. */
  function LowerChar(c: char): (r: char)
    ensures 'A' <= c <= 'Z' ==> r as int == c as int + 32
    ensures !('A' <= c <= 'Z') ==> r == c
  {
    if 'A' <= c <= 'Z' then (c as int + 32) as char else c
  }

  /** `s.toLowerCase()`, character by character. */
  function Lower(s: string): (r: string)
    ensures |r| == |s|
    ensures forall i :: 0 <= i < |s| ==> r[i] == LowerChar(s[i])
  {
    if s == [] then [] else [LowerChar(s[0])] + Lower(s[1..])
  }

  /** `needle` starts at position `i` of `s`. */
  predicate OccursAt(s: string, needle: string, i: nat) {
    i + |needle| <= |s| && s[i..i + |needle|] == needle
  }

  lemma OccursAtTail(s: string, needle: string, i: nat)
    requires |s| > 0
    ensures OccursAt(s[1..], needle, i) <==> OccursAt(s, needle, i + 1)
  {
    if i + 1 + |needle| <= |s| {
      assert s[1..][i..i + |needle|] == s[i + 1..i + 1 + |needle|];
    }
  }

  /** `s.includes(needle)`: some position of `s` starts an occurrence. */
  function Contains(s: string, needle: string): (b: bool)
    ensures b <==> exists i: nat :: OccursAt(s, needle, i)
    decreases |s|
  {
    if |s| < |needle| then false
    else if s[..|needle|] == needle then
      assert OccursAt(s, needle, 0);
      true
    else
      var b := Contains(s[1..], needle);
      assert b ==> exists i: nat :: OccursAt(s, needle, i) by {
        if b {
          var i: nat :| OccursAt(s[1..], needle, i);
          OccursAtTail(s, needle, i);
        }
      }
      assert (exists i: nat :: OccursAt(s, needle, i)) ==> b by {
        if i: nat :| OccursAt(s, needle, i) {
          assert i != 0;
          OccursAtTail(s, needle, i - 1);
        }
      }
      b
  }

  /**
   * The number of non-overlapping occurrences of `needle` in `s`, found
   * left to right, each search resuming after the previous match.
   */
  function CountMatches(s: string, needle: string): (n: nat)
    requires |needle| > 0
    ensures n <= |s|
    ensures n > 0 <==> Contains(s, needle)
    decreases |s|
  {
    if |s| < |needle| then 0
    else if s[..|needle|] == needle then
      var rest := CountMatches(s[|needle|..], needle);
      assert OccursAt(s, needle, 0);
      1 + rest
    else
      CountMatches(s[1..], needle)
  }

  lemma MulSucc(a: nat, b: nat)
    ensures (1 + a) * b == b + a * b
  {
  }

  /** The matches are disjoint, so together they take no more room than `s`. */
  lemma {:induction false} CountMatchesFits(s: string, needle: string)
    requires |needle| > 0
    ensures CountMatches(s, needle) * |needle| <= |s|
    decreases |s|
  {
    if |s| < |needle| {
    } else if s[..|needle|] == needle {
      CountMatchesFits(s[|needle|..], needle);
      var rest := CountMatches(s[|needle|..], needle);
      MulSucc(rest, |needle|);
    } else {
      CountMatchesFits(s[1..], needle);
    }
  }

  /** Lower-casing distributes over concatenation. */
  lemma {:induction false} LowerConcat(a: string, b: string)
    ensures Lower(a + b) == Lower(a) + Lower(b)
  {
    var l, r := Lower(a + b), Lower(a) + Lower(b);
    assert |l| == |r|;
    forall i | 0 <= i < |l| ensures l[i] == r[i] {
      if i < |a| {
        assert (a + b)[i] == a[i];
      } else {
        assert (a + b)[i] == b[i - |a|];
      }
    }
  }
}
