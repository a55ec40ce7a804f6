/**
 * The three regular expressions of the question engine, written as predicates over
 * the normalised (lower-cased and trimmed) question. `.*` matches any run of characters
 * that holds no line terminator; a literal matches where `HasAt` says it occurs.
 */
module Patterns {
  import opened Wrappers
  import opened JsText

  /** The characters from `i` up to `j` hold no line terminator, so `.*` can span them. */
  predicate Gap(s: string, i: int, j: int) {
    0 <= i <= j <= |s| && forall k | i <= k < j :: !IsLineTerminator(s[k])
  }

  /** `w` occurs somewhere in `s`. */
  predicate Contains(s: string, w: string) {
    exists i | 0 <= i <= |s| :: HasAt(s, i, w)
  }

  // ---------------------------------------------------------------------------
  // Q1: /(what|which).*(role|title).*last (position|job|role)/

  /** `.*last (position|job|role)` matches from `p`. */
  predicate LastFrom(s: string, p: int) {
    exists k | 0 <= k <= |s| ::
      Gap(s, p, k) && (HasAt(s, k, "last position") || HasAt(s, k, "last job") || HasAt(s, k, "last role"))
  }

  /** `.*(role|title).*last (position|job|role)` matches from `p`. */
  predicate RoleFrom(s: string, p: int) {
    exists j | 0 <= j <= |s| ::
      && Gap(s, p, j)
      && ((HasAt(s, j, "role") && LastFrom(s, j + 4)) || (HasAt(s, j, "title") && LastFrom(s, j + 5)))
  }

  /** The whole Q1 pattern matches starting at `i`. */
  predicate Q1At(s: string, i: int) {
    (HasAt(s, i, "what") && RoleFrom(s, i + 4)) || (HasAt(s, i, "which") && RoleFrom(s, i + 5))
  }

  predicate Q1Matches(s: string) {
    exists i | 0 <= i <= |s| :: Q1At(s, i)
  }

  // ---------------------------------------------------------------------------
  // Q2: /companies|where.*worked|worked at which companies/

  /** `where.*worked` matches starting at `i`. */
  predicate WhereWorkedAt(s: string, i: int) {
    HasAt(s, i, "where") && exists j | 0 <= j <= |s| :: Gap(s, i + 5, j) && HasAt(s, j, "worked")
  }

  predicate Q2Matches(s: string) {
    || Contains(s, "companies")
    || (exists i | 0 <= i <= |s| :: WhereWorkedAt(s, i))
    || Contains(s, "worked at which companies")
  }

  /** The third alternative of Q2 never decides anything: its text contains "companies". */
  lemma Q2ThirdAlternativeIsRedundant(s: string)
    ensures Q2Matches(s) <==>
      Contains(s, "companies") || exists i | 0 <= i <= |s| :: WhereWorkedAt(s, i)
  {
    if Contains(s, "worked at which companies") {
      var i :| 0 <= i <= |s| && HasAt(s, i, "worked at which companies");
      assert s[i + 16..i + 25] == "worked at which companies"[16..];
      assert HasAt(s, i + 16, "companies");
    }
  }

  // ---------------------------------------------------------------------------
  // Q3: /work(ed)? at ([a-z0-9 .&-]+)/i

  /** The class `[a-z0-9 .&-]`; the `i` flag adds the upper-case letters. */
  predicate InCompanyClass(c: char) {
    ('a' <= c <= 'z') || ('A' <= c <= 'Z') || ('0' <= c <= '9') || c == ' ' || c == '.' || c == '&' || c == '-'
  }

  /** The length of the longest run of class characters starting at `p`. */
  function ClassRun(s: string, p: nat): (n: nat)
    requires p <= |s|
    ensures p + n <= |s|
    ensures forall k | p <= k < p + n :: InCompanyClass(s[k])
    ensures p + n == |s| || !InCompanyClass(s[p + n])
    decreases |s| - p
  {
    if p < |s| && InCompanyClass(s[p]) then 1 + ClassRun(s, p + 1) else 0
  }

  /** Where the capture group would begin if the pattern matched at `i`. */
  function CaptureStart(s: string, i: int): int {
    if HasAt(s, i, "worked at ") then i + 10 else i + 8
  }

  /**
   * The pattern matches at `i`: "worked at " or "work at " occurs there and at least one
   * class character follows. (Backtracking from "worked" to "work" cannot help: it would
   * need a space where "worked" has an 'e'.)
   */
  predicate MatchAt(s: string, i: int) {
    (HasAt(s, i, "worked at ") || HasAt(s, i, "work at ")) && ClassRun(s, CaptureStart(s, i)) > 0
  }

  /** The greedy capture: the longest run of class characters after "work(ed) at ". */
  function CaptureAt(s: string, i: int): (c: string)
    requires MatchAt(s, i)
    ensures c != []
    ensures forall k | 0 <= k < |c| :: InCompanyClass(c[k])
    ensures
      var e := CaptureStart(s, i) + |c|;
      e <= |s| && c == s[CaptureStart(s, i)..e] && (e == |s| || !InCompanyClass(s[e]))
  {
    var p := CaptureStart(s, i);
    s[p..p + ClassRun(s, p)]
  }

  /** `i` is the leftmost position where the pattern matches. */
  predicate IsLeftmostMatch(s: string, i: int) {
    0 <= i <= |s| && MatchAt(s, i) && forall j | 0 <= j < i :: !MatchAt(s, j)
  }

  /** `question.match(...)[2]`, searching from `from` onwards: the capture of the leftmost match. */
  function FindCapture(s: string, from: nat): (r: Option<string>)
    requires from <= |s| + 1
    ensures r.None? <==> forall i | from <= i <= |s| :: !MatchAt(s, i)
    ensures r.Some? ==> exists i | from <= i <= |s| ::
      MatchAt(s, i) && (forall j | from <= j < i :: !MatchAt(s, j)) && r.value == CaptureAt(s, i)
    decreases |s| + 1 - from
  {
    if from > |s| then None
    else if MatchAt(s, from) then Some(CaptureAt(s, from))
    else FindCapture(s, from + 1)
  }

  /** The capture found is that of the one leftmost match. */
  lemma LeftmostCapture(s: string, i: int)
    requires IsLeftmostMatch(s, i)
    ensures FindCapture(s, 0) == Some(CaptureAt(s, i))
  {
    var r := FindCapture(s, 0);
    var i' :| 0 <= i' <= |s| && MatchAt(s, i') && (forall j | 0 <= j < i' :: !MatchAt(s, j)) && r.value == CaptureAt(s, i');
    assert i' == i;
  }
}
