/**
 * The two operations of Rust's `str` that the placeholder substitution
 * relies on: `find` (leftmost occurrence of a pattern) and `replace`
 * (replace every non-overlapping occurrence, scanning left to right).
 * Strings are sequences of characters; byte offsets and character offsets
 * coincide here because every position is counted in characters.
 */
module Text {
  import opened Wrappers

  /** `pat` occurs in `s` starting at index `i`. */
  predicate OccursAt(s: string, pat: string, i: nat)
  {
    i + |pat| <= |s| && s[i..i + |pat|] == pat
  }

  ghost predicate Contains(s: string, pat: string)
  {
    exists i: nat :: OccursAt(s, pat, i)
  }

  lemma {:induction false} OccursAtShift(s: string, pat: string, i: nat)
    requires |s| > 0
    ensures OccursAt(s[1..], pat, i) <==> OccursAt(s, pat, i + 1)
  {
    if i + 1 + |pat| <= |s| {
      assert s[1..][i..i + |pat|] == s[i + 1..i + 1 + |pat|];
    }
  }

  /** `str::find`: the index of the leftmost occurrence of `pat` in `s`. */
  function Find(s: string, pat: string): (r: Option<nat>)
    ensures r.Some? ==> r.value + |pat| <= |s|
    decreases |s|
  {
    if |s| < |pat| then None
    else if s[..|pat|] == pat then Some(0)
    else
      match Find(s[1..], pat)
      case None => None
      case Some(i) => Some(i + 1)
  }

  /** `Find` reports an occurrence, the leftmost one, and reports none only when there is none. */
  lemma {:induction false} FindSpec(s: string, pat: string)
    ensures var r := Find(s, pat);
      && (r.Some? ==> OccursAt(s, pat, r.value))
      && (r.Some? ==> forall j: nat :: j < r.value ==> !OccursAt(s, pat, j))
      && (r.None? ==> forall j: nat :: !OccursAt(s, pat, j))
    decreases |s|
  {
    if |s| >= |pat| && s[..|pat|] != pat {
      FindSpec(s[1..], pat);
      match Find(s[1..], pat)
      case None =>
        forall j: nat ensures !OccursAt(s, pat, j) {
          if j > 0 { OccursAtShift(s, pat, j - 1); }
        }
      case Some(i) =>
        OccursAtShift(s, pat, i);
        forall j: nat | j < i + 1 ensures !OccursAt(s, pat, j) {
          if j > 0 { OccursAtShift(s, pat, j - 1); }
        }
    }
  }

  /** The leftmost occurrence is the one `Find` reports. */
  lemma {:induction false} FindLeftmost(s: string, pat: string, i: nat)
    requires OccursAt(s, pat, i)
    requires forall j: nat :: j < i ==> !OccursAt(s, pat, j)
    ensures Find(s, pat) == Some(i)
  {
    FindSpec(s, pat);
  }

  /**
   * `str::replace`: the occurrences of `pat` are found from left to right,
   * each search resuming after the previous occurrence, and each is
   * replaced by `rep`; the text between them is kept.
   */
  function ReplaceAll(s: string, pat: string, rep: string): string
    requires |pat| > 0
    decreases |s|
  {
    match Find(s, pat)
    case None => s
    case Some(i) => s[..i] + rep + ReplaceAll(s[i + |pat|..], pat, rep)
  }

  /** A string without the pattern is left as it is. */
  lemma {:induction false} ReplaceAllAbsent(s: string, pat: string, rep: string)
    requires |pat| > 0
    requires forall j: nat :: !OccursAt(s, pat, j)
    ensures ReplaceAll(s, pat, rep) == s
  {
    FindSpec(s, pat);
  }

  /**
   * The text before the leftmost occurrence is kept, that occurrence is
   * replaced, and replacement continues after it: together with
   * ReplaceAllAbsent this determines ReplaceAll completely.
   */
  lemma {:induction false} ReplaceAllAtFirst(s: string, pat: string, rep: string, i: nat)
    requires |pat| > 0
    requires OccursAt(s, pat, i)
    requires forall j: nat :: j < i ==> !OccursAt(s, pat, j)
    ensures ReplaceAll(s, pat, rep) == s[..i] + rep + ReplaceAll(s[i + |pat|..], pat, rep)
  {
    FindLeftmost(s, pat, i);
  }
}
