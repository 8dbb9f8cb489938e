/**
 * The two string operations the rule matcher is built on: lower-casing
 * (`str.lower`, restricted here to ASCII letters) and substring containment
 * (`needle in haystack`).
 */
module Text {

  /** Lower-cases an ASCII capital letter; every other character is left alone. */
  function LowerChar(c: char): (d: char)
    ensures 'A' <= c <= 'Z' ==> 'a' <= d <= 'z' && d as int == c as int + 32
    ensures !('A' <= c <= 'Z') ==> d == c
    ensures !('A' <= d <= 'Z')
  {
    if 'A' <= c <= 'Z' then (c as int + 32) as char else c
  }

  /** `s.lower()`, character by character. */
  function Lower(s: string): (r: string)
    ensures |r| == |s|
    ensures forall i :: 0 <= i < |s| ==> r[i] == LowerChar(s[i])
  {
    seq(|s|, i requires 0 <= i < |s| => LowerChar(s[i]))
  }

  /** Lower-casing twice is lower-casing once. */
  lemma LowerIdempotent(s: string)
    ensures Lower(Lower(s)) == Lower(s)
  {
  }

  /** Lower-casing commutes with taking a slice. */
  lemma LowerSlice(s: string, i: int, j: int)
    requires 0 <= i <= j <= |s|
    ensures Lower(s)[i..j] == Lower(s[i..j])
  {
  }

  /** `pat` occurs in `text` starting at position `k`. */
  ghost predicate OccursAt(text: string, pat: string, k: int)
  {
    0 <= k && k + |pat| <= |text| && text[k..k + |pat|] == pat
  }

  /** `pat` is a prefix of `text`. */
  predicate IsPrefix(pat: string, text: string)
  {
    |pat| <= |text| && text[..|pat|] == pat
  }

  /** An occurrence in the tail of `text` is an occurrence in `text`, one position further on. */
  lemma ShiftOccurrence(text: string, pat: string, k: int)
    requires |text| > 0 && k >= 0
    ensures OccursAt(text[1..], pat, k) <==> OccursAt(text, pat, k + 1)
  {
  }

  /**
   * Python's `pat in text` for strings: true exactly when `pat` occurs
   * somewhere in `text`. The empty string occurs in every string.
   */
  function Contains(text: string, pat: string): (b: bool)
    ensures b <==> exists k :: OccursAt(text, pat, k)
    decreases |text|
  {
    if IsPrefix(pat, text) then
      assert OccursAt(text, pat, 0);
      true
    else if |text| == 0 then
      assert forall k :: !OccursAt(text, pat, k);
      false
    else
      var rest := Contains(text[1..], pat);
      assert rest ==> exists k :: OccursAt(text, pat, k) by {
        if rest {
          var k :| OccursAt(text[1..], pat, k);
          ShiftOccurrence(text, pat, k);
        }
      }
      assert (exists k :: OccursAt(text, pat, k)) ==> rest by {
        if exists k :: OccursAt(text, pat, k) {
          var k :| OccursAt(text, pat, k);
          assert k != 0;
          ShiftOccurrence(text, pat, k - 1);
        }
      }
      rest
  }

  /** The empty string is contained in every string (`"" in p` is always true). */
  lemma EmptyIsContained(text: string)
    ensures Contains(text, "")
  {
  }

  /** The stretch of `text` starting at `k` equals `pat` up to case. */
  ghost predicate MatchesIgnoringCaseAt(text: string, pat: string, k: int)
  {
    0 <= k && k + |pat| <= |text| && Lower(text[k..k + |pat|]) == Lower(pat)
  }

  /**
   * Containment ignores case once both sides are lower-cased: a stretch of
   * `text` that equals `pat` up to case makes `Lower(pat)` occur in `Lower(text)`.
   */
  lemma ContainsIgnoringCase(text: string, pat: string, k: int)
    requires MatchesIgnoringCaseAt(text, pat, k)
    ensures Contains(Lower(text), Lower(pat))
  {
    LowerSlice(text, k, k + |pat|);
    assert OccursAt(Lower(text), Lower(pat), k);
  }

  /**
   * Conversely, lower-casing creates no spurious matches: an occurrence of
   * `Lower(pat)` in `Lower(text)` comes from a stretch of `text` that equals
   * `pat` up to case.
   */
  lemma ContainsOnlyIgnoringCase(text: string, pat: string)
    requires Contains(Lower(text), Lower(pat))
    ensures exists k :: MatchesIgnoringCaseAt(text, pat, k)
  {
    var k :| OccursAt(Lower(text), Lower(pat), k);
    LowerSlice(text, k, k + |pat|);
    assert MatchesIgnoringCaseAt(text, pat, k);
  }
}
