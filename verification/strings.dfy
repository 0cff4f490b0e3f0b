/**
  The three Swift `String` queries the library's matching predicates rely on:
  `hasPrefix` and `hasSuffix` of the standard library, and `contains` of
  Foundation (both files using it import Foundation). Strings are sequences of characters;
  the Unicode canonical equivalence Swift applies when comparing characters is
  not modelled (two strings match when their character sequences are equal).
 */
module Strings {

  /** `s.hasPrefix(p)`: the first `|p|` characters of `s` are `p`. */
  predicate HasPrefix(s: string, p: string) {
    |p| <= |s| && s[..|p|] == p
  }

  /** `s.hasSuffix(p)`: the last `|p|` characters of `s` are `p`. */
  predicate HasSuffix(s: string, p: string) {
    |p| <= |s| && s[|s| - |p|..] == p
  }

  /** `p` occurs in `s` starting at position `i`. */
  predicate OccursAt(s: string, p: string, i: int)
    requires 0 <= i <= |s|
  {
    HasPrefix(s[i..], p)
  }

  /** A left-to-right search for `p` in `s`: true exactly when `p` occurs at some position of `s`. */
  function Occurs(s: string, p: string): (r: bool)
    ensures r <==> exists i :: 0 <= i <= |s| && OccursAt(s, p, i)
    decreases |s|
  {
    if HasPrefix(s, p) then
      assert OccursAt(s, p, 0) by { assert s[0..] == s; }
      true
    else if |s| == 0 then
      false
    else
      var rest := Occurs(s[1..], p);
      assert forall i :: 1 <= i <= |s| ==> s[1..][i - 1..] == s[i..];
      assert rest ==> exists i :: 1 <= i <= |s| && OccursAt(s, p, i) by {
        if rest {
          var j :| 0 <= j <= |s[1..]| && OccursAt(s[1..], p, j);
          assert OccursAt(s, p, j + 1);
        }
      }
      assert (exists i :: 1 <= i <= |s| && OccursAt(s, p, i)) ==> rest by {
        if i :| 1 <= i <= |s| && OccursAt(s, p, i) {
          assert OccursAt(s[1..], p, i - 1);
        }
      }
      assert !OccursAt(s, p, 0) by { assert s[0..] == s; }
      rest
  }

  /**
    Foundation's `s.contains(p)`: the search succeeds when `range(of: p)` finds
    a range, which it never does for the empty pattern.
   */
  function ContainsSubstring(s: string, p: string): (r: bool)
    ensures r <==> p != "" && exists i :: 0 <= i <= |s| && OccursAt(s, p, i)
  {
    |p| > 0 && Occurs(s, p)
  }

  /** A non-empty prefix of a string is contained in it. */
  lemma PrefixIsContained(s: string, p: string)
    requires HasPrefix(s, p) && p != ""
    ensures ContainsSubstring(s, p)
  {
    assert s[0..] == s;
    assert OccursAt(s, p, 0);
  }

  /** A non-empty suffix of a string is contained in it. */
  lemma SuffixIsContained(s: string, p: string)
    requires HasSuffix(s, p) && p != ""
    ensures ContainsSubstring(s, p)
  {
    var i := |s| - |p|;
    assert s[i..][..|p|] == s[i..];
    assert OccursAt(s, p, i);
  }

  /**
    The empty pattern is a prefix and a suffix of every string, yet Foundation's
    `contains` never finds it.
   */
  lemma EmptyPatternMatches(s: string)
    ensures HasPrefix(s, "") && HasSuffix(s, "")
    ensures !ContainsSubstring(s, "")
  {
  }
}
