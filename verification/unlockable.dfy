/**
  HandyStoreKit's matching predicates on a set of product IDs
  (`Set<Product.ID>.containsAny(...)`), which feature rules use to decide what
  a purchase unlocks. Each comes in a single-pattern form and an "any of"
  form taking a list of patterns, for three kinds of match.
 */
module Unlockable {
  import opened Strings

  /** How a pattern must match a product ID: as a prefix, a substring or a suffix. */
  datatype Match = PrefixedBy | Containing | SuffixedBy

  predicate Matches(m: Match, id: string, pattern: string) {
    match m
    case PrefixedBy => HasPrefix(id, pattern)
    case Containing => ContainsSubstring(id, pattern)
    case SuffixedBy => HasSuffix(id, pattern)
  }

  /** Some ID of the set matches the pattern. */
  predicate AnyMatches(ids: set<string>, m: Match, pattern: string) {
    exists id :: id in ids && Matches(m, id, pattern)
  }

  /** Some pattern of the list is matched by some ID of the set. */
  predicate AnyMatchesAnyOf(ids: set<string>, m: Match, patterns: seq<string>) {
    exists j :: 0 <= j < |patterns| && AnyMatches(ids, m, patterns[j])
  }

  /**
    `containsAny(prefixedBy:)`, `containsAny(containing:)` and
    `containsAny(suffixedBy:)`: a scan over the set that stops at the first
    matching ID.
   */
  method ContainsAny(ids: set<string>, m: Match, pattern: string) returns (r: bool)
    ensures r <==> AnyMatches(ids, m, pattern)
  {
    var unseen := ids;
    while unseen != {}
      invariant unseen <= ids
      invariant forall id :: id in ids - unseen ==> !Matches(m, id, pattern)
      decreases unseen
    {
      var id :| id in unseen;
      if Matches(m, id, pattern) {
        return true;
      }
      unseen := unseen - {id};
    }
    assert ids - unseen == ids;
    return false;
  }

  /**
    `containsAny(prefixedByAnyOf:)`, `containsAny(containingAnyOf:)` and
    `containsAny(suffixedByAnyOf:)`: a scan over the patterns, in list order,
    that stops at the first pattern some ID matches.
   */
  method ContainsAnyOf(ids: set<string>, m: Match, patterns: seq<string>) returns (r: bool)
    ensures r <==> AnyMatchesAnyOf(ids, m, patterns)
  {
    for j := 0 to |patterns|
      invariant forall k :: 0 <= k < j ==> !AnyMatches(ids, m, patterns[k])
    {
      var found := ContainsAny(ids, m, patterns[j]);
      if found {
        return true;
      }
    }
    return false;
  }

  /** An "any of" query with a single pattern is the single-pattern query. */
  lemma SingletonListIsSinglePattern(ids: set<string>, m: Match, pattern: string)
    ensures AnyMatchesAnyOf(ids, m, [pattern]) <==> AnyMatches(ids, m, pattern)
  {
    assert [pattern][0] == pattern;
  }

  /** An "any of" query over the concatenation of two lists is the disjunction of the two queries. */
  lemma AnyOfSplits(ids: set<string>, m: Match, ps: seq<string>, qs: seq<string>)
    ensures AnyMatchesAnyOf(ids, m, ps + qs) <==> AnyMatchesAnyOf(ids, m, ps) || AnyMatchesAnyOf(ids, m, qs)
  {
    if AnyMatchesAnyOf(ids, m, ps) {
      var j :| 0 <= j < |ps| && AnyMatches(ids, m, ps[j]);
      assert (ps + qs)[j] == ps[j];
    }
    if AnyMatchesAnyOf(ids, m, qs) {
      var j :| 0 <= j < |qs| && AnyMatches(ids, m, qs[j]);
      assert (ps + qs)[|ps| + j] == qs[j];
    }
    if AnyMatchesAnyOf(ids, m, ps + qs) {
      var j :| 0 <= j < |ps + qs| && AnyMatches(ids, m, (ps + qs)[j]);
      if j < |ps| {
        assert (ps + qs)[j] == ps[j];
      } else {
        assert (ps + qs)[j] == qs[j - |ps|];
      }
    }
  }

  /** Purchasing more products never turns a match into a non-match. */
  lemma MatchingIsMonotone(ids: set<string>, more: set<string>, m: Match, pattern: string, patterns: seq<string>)
    requires ids <= more
    ensures AnyMatches(ids, m, pattern) ==> AnyMatches(more, m, pattern)
    ensures AnyMatchesAnyOf(ids, m, patterns) ==> AnyMatchesAnyOf(more, m, patterns)
  {
  }

  /** Nothing matches in the empty set, and nothing matches an empty pattern list. */
  lemma EmptyInputsMatchNothing(ids: set<string>, m: Match, pattern: string, patterns: seq<string>)
    ensures !AnyMatches({}, m, pattern) && !AnyMatchesAnyOf({}, m, patterns)
    ensures !AnyMatchesAnyOf(ids, m, [])
  {
  }

  /**
    A match of a non-empty prefix or suffix is also a "containing" match. With
    the empty pattern, `prefixedBy` and `suffixedBy` hold on every non-empty
    set while `containing` never does.
   */
  lemma PrefixOrSuffixMatchIsContaining(ids: set<string>, pattern: string)
    ensures pattern != "" && AnyMatches(ids, PrefixedBy, pattern) ==> AnyMatches(ids, Containing, pattern)
    ensures pattern != "" && AnyMatches(ids, SuffixedBy, pattern) ==> AnyMatches(ids, Containing, pattern)
    ensures ids != {} ==> AnyMatches(ids, PrefixedBy, "") && AnyMatches(ids, SuffixedBy, "")
    ensures !AnyMatches(ids, Containing, "")
  {
    if pattern != "" && AnyMatches(ids, PrefixedBy, pattern) {
      var id :| id in ids && HasPrefix(id, pattern);
      PrefixIsContained(id, pattern);
    }
    if pattern != "" && AnyMatches(ids, SuffixedBy, pattern) {
      var id :| id in ids && HasSuffix(id, pattern);
      SuffixIsContained(id, pattern);
    }
    if ids != {} {
      var id :| id in ids;
      EmptyPatternMatches(id);
      assert Matches(PrefixedBy, id, "") && Matches(SuffixedBy, id, "");
    }
  }
}
