/**
  The `Sequence` extension of Sources/FreemiumKit/Extensions/SequenceExt.swift:
  searches over a sequence by a key path. A key path is modelled as a total
  function from the element to the key it selects.
 */
module SequenceExt {
  import opened Basics
  import opened Strings

  /**
    Swift's `contains(where:)`: a left-to-right scan that stops at the first
    element satisfying `pred`.
   */
  function AnySatisfies<T>(xs: seq<T>, pred: T -> bool): (r: bool)
    ensures r <==> exists i :: 0 <= i < |xs| && pred(xs[i])
  {
    if |xs| == 0 then
      false
    else if pred(xs[0]) then
      true
    else
      var rest := AnySatisfies(xs[1..], pred);
      assert forall i :: 1 <= i < |xs| ==> xs[1..][i - 1] == xs[i];
      rest
  }

  /**
    `first(where:equalsTo:)`: the earliest element whose key equals `value`,
    or none when no element has that key.
   */
  function First<T, V(==)>(xs: seq<T>, key: T -> V, value: V): (r: Option<T>)
    ensures r.None? <==> forall i :: 0 <= i < |xs| ==> key(xs[i]) != value
    ensures r.Some? ==> exists i :: 0 <= i < |xs| && xs[i] == r.value && key(xs[i]) == value
                           && forall j :: 0 <= j < i ==> key(xs[j]) != value
  {
    if |xs| == 0 then
      None
    else if key(xs[0]) == value then
      Some(xs[0])
    else
      var rest := First(xs[1..], key, value);
      assert forall i :: 1 <= i < |xs| ==> xs[1..][i - 1] == xs[i];
      assert rest.Some? ==> exists i :: 0 <= i < |xs| && xs[i] == rest.value && key(xs[i]) == value
                                 && forall j :: 0 <= j < i ==> key(xs[j]) != value by {
        if rest.Some? {
          var k :| 0 <= k < |xs[1..]| && xs[1..][k] == rest.value && key(xs[1..][k]) == value
                   && forall j :: 0 <= j < k ==> key(xs[1..][j]) != value;
          assert xs[k + 1] == rest.value && forall j :: 0 <= j < k + 1 ==> key(xs[j]) != value;
        }
      }
      rest
  }

  /** `contains(where:equalTo:)`: some element's key equals `value`. */
  function ContainsEqual<T, V(==)>(xs: seq<T>, key: T -> V, value: V): (r: bool)
    ensures r <==> exists i :: 0 <= i < |xs| && key(xs[i]) == value
  {
    AnySatisfies(xs, x => key(x) == value)
  }

  /**
    `contains(where:notEqualTo:)` as written: its closure compares with `==`,
    so it answers the same question as `contains(where:equalTo:)`.
   */
  function ContainsNotEqual<T, V(==)>(xs: seq<T>, key: T -> V, value: V): (r: bool)
    ensures r <==> exists i :: 0 <= i < |xs| && key(xs[i]) == value
  {
    AnySatisfies(xs, x => key(x) == value)
  }

  /** `contains(where:notEqualTo:)` as its name and doc comment describe it. */
  function ContainsNotEqualCorrected<T, V(==)>(xs: seq<T>, key: T -> V, value: V): (r: bool)
    ensures r <==> exists i :: 0 <= i < |xs| && key(xs[i]) != value
  {
    AnySatisfies(xs, x => key(x) != value)
  }

  /** `contains(where:prefixedBy:)`: some element's key starts with `prefix`. */
  function ContainsPrefixedBy<T>(xs: seq<T>, key: T -> string, prefix: string): (r: bool)
    ensures r <==> exists i :: 0 <= i < |xs| && HasPrefix(key(xs[i]), prefix)
  {
    AnySatisfies(xs, x => HasPrefix(key(x), prefix))
  }

  /** `contains(where:prefixedByOneOf:)`: some prefix of the list is matched by some element. */
  function ContainsPrefixedByOneOf<T>(xs: seq<T>, key: T -> string, prefixes: seq<string>): (r: bool)
    ensures r <==> exists j :: 0 <= j < |prefixes| && ContainsPrefixedBy(xs, key, prefixes[j])
  {
    AnySatisfies(prefixes, p => ContainsPrefixedBy(xs, key, p))
  }

  /** `contains(where:contains:)`: some element's key contains `substring`. */
  function ContainsSubstringOf<T>(xs: seq<T>, key: T -> string, substring: string): (r: bool)
    ensures r <==> exists i :: 0 <= i < |xs| && ContainsSubstring(key(xs[i]), substring)
  {
    AnySatisfies(xs, x => ContainsSubstring(key(x), substring))
  }

  /** `contains(where:containsOneOf:)`: some substring of the list occurs in some element's key. */
  function ContainsSubstringOfOneOf<T>(xs: seq<T>, key: T -> string, substrings: seq<string>): (r: bool)
    ensures r <==> exists j :: 0 <= j < |substrings| && ContainsSubstringOf(xs, key, substrings[j])
  {
    AnySatisfies(substrings, s => ContainsSubstringOf(xs, key, s))
  }

  /** `contains(where:suffixedBy:)`: some element's key ends with `suffix`. */
  function ContainsSuffixedBy<T>(xs: seq<T>, key: T -> string, suffix: string): (r: bool)
    ensures r <==> exists i :: 0 <= i < |xs| && HasSuffix(key(xs[i]), suffix)
  {
    AnySatisfies(xs, x => HasSuffix(key(x), suffix))
  }

  /** `contains(where:suffixedByOneOf:)`: some suffix of the list is matched by some element. */
  function ContainsSuffixedByOneOf<T>(xs: seq<T>, key: T -> string, suffixes: seq<string>): (r: bool)
    ensures r <==> exists j :: 0 <= j < |suffixes| && ContainsSuffixedBy(xs, key, suffixes[j])
  {
    AnySatisfies(suffixes, s => ContainsSuffixedBy(xs, key, s))
  }

  /** `contains(where:equalTo:)` finds an element exactly when `first(where:equalsTo:)` does. */
  lemma ContainsEqualIffFirstFinds<T, V>(xs: seq<T>, key: T -> V, value: V)
    ensures ContainsEqual(xs, key, value) <==> First(xs, key, value).Some?
  {
  }

  /** The element `first(where:equalsTo:)` returns always carries the requested key. */
  lemma FirstHasKey<T, V>(xs: seq<T>, key: T -> V, value: V)
    requires First(xs, key, value).Some?
    ensures key(First(xs, key, value).value) == value
    ensures First(xs, key, value).value in xs
  {
  }

  /**
    As written, `contains(where:notEqualTo:)` coincides with
    `contains(where:equalTo:)`; on a one-element sequence whose key equals
    `value` it answers true although no element's key differs from `value`.
   */
  lemma NotEqualAnswersEqual<T, V>(xs: seq<T>, key: T -> V, value: V)
    ensures ContainsNotEqual(xs, key, value) == ContainsEqual(xs, key, value)
  {
  }

  lemma NotEqualCounterexample()
    ensures ContainsNotEqual(["a"], (s: string) => s, "a")
    ensures !ContainsNotEqualCorrected(["a"], (s: string) => s, "a")
  {
    assert ["a"][0] == "a";
  }

  /** The corrected `notEqualTo` is true exactly when not every key equals `value`. */
  lemma NotEqualCorrectedNegatesAllEqual<T, V>(xs: seq<T>, key: T -> V, value: V)
    ensures ContainsNotEqualCorrected(xs, key, value) <==> !(forall i :: 0 <= i < |xs| ==> key(xs[i]) == value)
  {
  }

  /** On an empty sequence `first` finds nothing and every `contains` overload is false. */
  lemma EmptySequenceFindsNothing<T, V>(key: T -> V, value: V, skey: T -> string, pattern: string,
                                             patterns: seq<string>)
    ensures First([], key, value).None?
    ensures !ContainsEqual([], key, value) && !ContainsNotEqual([], key, value)
    ensures !ContainsNotEqualCorrected([], key, value)
    ensures !ContainsPrefixedBy([], skey, pattern) && !ContainsPrefixedByOneOf([], skey, patterns)
    ensures !ContainsSubstringOf([], skey, pattern) && !ContainsSubstringOfOneOf([], skey, patterns)
    ensures !ContainsSuffixedBy([], skey, pattern) && !ContainsSuffixedByOneOf([], skey, patterns)
  {
  }

  /** The "one of" overloads are false for an empty pattern list, whatever the sequence. */
  lemma NoPatternsMatchNothing<T>(xs: seq<T>, key: T -> string)
    ensures !ContainsPrefixedByOneOf(xs, key, [])
    ensures !ContainsSubstringOfOneOf(xs, key, [])
    ensures !ContainsSuffixedByOneOf(xs, key, [])
  {
  }

  /**
    A match of a non-empty prefix or suffix is also a substring match. The
    empty pattern splits them: every key starts and ends with it, but
    Foundation's `contains` never finds it.
   */
  lemma PrefixOrSuffixMatchIsSubstringMatch<T>(xs: seq<T>, key: T -> string, pattern: string)
    ensures pattern != "" && ContainsPrefixedBy(xs, key, pattern) ==> ContainsSubstringOf(xs, key, pattern)
    ensures pattern != "" && ContainsSuffixedBy(xs, key, pattern) ==> ContainsSubstringOf(xs, key, pattern)
    ensures |xs| > 0 ==> ContainsPrefixedBy(xs, key, "") && ContainsSuffixedBy(xs, key, "")
    ensures !ContainsSubstringOf(xs, key, "")
  {
    if pattern != "" && ContainsPrefixedBy(xs, key, pattern) {
      var i :| 0 <= i < |xs| && HasPrefix(key(xs[i]), pattern);
      PrefixIsContained(key(xs[i]), pattern);
    }
    if pattern != "" && ContainsSuffixedBy(xs, key, pattern) {
      var i :| 0 <= i < |xs| && HasSuffix(key(xs[i]), pattern);
      SuffixIsContained(key(xs[i]), pattern);
    }
    if |xs| > 0 {
      EmptyPatternMatches(key(xs[0]));
    }
  }
}
