/**
 * The résumé's work history and the choice of the "last role": every work item gets a
 * numeric score, the items are sorted by descending score with a stable sort, and the
 * first item of the sorted copy is the last role.
 */
module Ranking {
  import opened Wrappers
  import opened JsText

  /**
   * One entry of the work history. The optional `start` and `end` dates are the empty
   * string when absent: every use of them tests them for truthiness, and an absent field
   * and an empty one are both falsy. `location` and `summary` are never read.
   */
  datatype WorkItem = WorkItem(title: string, company: string, start: string, end: string)

  /** The résumé; `basics` and `skills` are never read. An absent `work` list is None. */
  datatype Resume = Resume(work: Option<seq<WorkItem>>)

  /** `resume.work ?? []`. */
  function Work(r: Resume): seq<WorkItem> {
    r.work.GetOr([])
  }

  const PresentScore: nat := 99999999
  const ScheduledScore: nat := 99999998

  /** The date an item is ranked by: its end date, or its start date when it has none. */
  function RankDate(w: WorkItem): string {
    if w.end != "" then w.end else w.start
  }

  /**
   * An item's rank: an end of "present" (in any case) scores 99999999, "scheduled"
   * 99999998, otherwise the ranking date with its first '-' removed, read as a number;
   * an empty or unreadable date scores 0.
   */
  function Score(w: WorkItem): nat {
    var e := ToLower(w.end);
    if e == "present" then PresentScore
    else if e == "scheduled" then ScheduledScore
    else
      var s := RemoveFirst(RankDate(w), '-');
      if s == "" then 0
      else match JsNumber(s)
        case Some(n) => n
        case None => 0
  }

  // ---------------------------------------------------------------------------
  // What the score means

  /** A "YYYY-MM" date. */
  predicate IsYearMonth(d: string) {
    && |d| == 7 && d[4] == '-'
    && AllDigits(d[..4]) && AllDigits(d[5..])
  }

  function Year(d: string): nat
    requires IsYearMonth(d)
  {
    DigitsValue(d[..4])
  }

  function Month(d: string): nat
    requires IsYearMonth(d)
  {
    DigitsValue(d[5..])
  }

  /** Removing the '-' of a "YYYY-MM" date leaves the number YYYY * 100 + MM. */
  lemma YearMonthNumber(d: string)
    requires IsYearMonth(d)
    ensures RemoveFirst(d, '-') != ""
    ensures JsNumber(RemoveFirst(d, '-')) == Some(Year(d) * 100 + Month(d))
  {
    assert '-' !in d[..4] by {
      assert forall i | 0 <= i < 4 :: IsDigit(d[..4][i]);
    }
    assert IndexOf(d, '-') == 4;
    var s := RemoveFirst(d, '-');
    assert s == d[..4] + d[5..];
    DigitsValueAppend(d[..4], d[5..]);
  }

  /**
   * An item ranked by a "YYYY-MM" date scores YYYY * 100 + MM, which is below the scores
   * of "scheduled" and "present".
   */
  lemma DatedScore(w: WorkItem)
    requires IsYearMonth(RankDate(w))
    ensures Score(w) == Year(RankDate(w)) * 100 + Month(RankDate(w))
    ensures Score(w) < ScheduledScore < PresentScore
  {
    var d := RankDate(w);
    var e := ToLower(w.end);
    assert e != "present" && e != "scheduled" by {
      if w.end != "" {
        assert e[4] == '-';
        assert "present"[4] != '-';
      }
    }
    YearMonthNumber(d);
    DigitsValueBound(d[..4]);
    DigitsValueBound(d[5..]);
  }

  /** On "YYYY-MM" dates the score orders items chronologically. */
  lemma ScoreIsChronological(v: WorkItem, w: WorkItem)
    requires IsYearMonth(RankDate(v)) && IsYearMonth(RankDate(w))
    ensures Score(v) < Score(w) <==>
      || Year(RankDate(v)) < Year(RankDate(w))
      || (Year(RankDate(v)) == Year(RankDate(w)) && Month(RankDate(v)) < Month(RankDate(w)))
  {
    DatedScore(v);
    DatedScore(w);
    DigitsValueBound(RankDate(v)[5..]);
    DigitsValueBound(RankDate(w)[5..]);
  }

  /**
   * An end of "present" (in any case) outranks an end of "scheduled", and both outrank
   * every item ranked by a "YYYY-MM" date.
   */
  lemma StatusOutranksDates(v: WorkItem, w: WorkItem)
    requires IsYearMonth(RankDate(w))
    ensures ToLower(v.end) == "present" ==> Score(v) == PresentScore && Score(w) < Score(v)
    ensures ToLower(v.end) == "scheduled" ==> Score(v) == ScheduledScore && Score(w) < Score(v)
  {
    DatedScore(w);
  }

  /** An item with neither an end nor a start date ranks 0: `Number("" || 0)`. */
  lemma EmptyDateScoresZero(w: WorkItem)
    requires w.start == "" && w.end == ""
    ensures Score(w) == 0
  {
    assert ToLower(w.end) == "";
  }

  /** An item whose ranking date, once its first '-' is gone, is not a number ranks 0. */
  lemma UnreadableDateScoresZero(w: WorkItem)
    requires ToLower(w.end) != "present" && ToLower(w.end) != "scheduled"
    requires !AllDigits(RemoveFirst(RankDate(w), '-'))
    ensures Score(w) == 0
  {
  }

  // ---------------------------------------------------------------------------
  // The stable sort by descending key. The lemmas hold for every key function, so
  // they are stated for an arbitrary `key` and used with `Score`.

  /**
   * Inserts `x` in front of the first element whose key does not exceed its own; `x`
   * comes before the elements of `s` in the original list, so it goes ahead of those it
   * ties with.
   */
  function Insert<T>(x: T, s: seq<T>, key: T -> nat): (r: seq<T>)
    ensures |r| == |s| + 1
  {
    if s == [] then [x]
    else if key(x) >= key(s[0]) then [x] + s
    else [s[0]] + Insert(x, s[1..], key)
  }

  /** A stable sort by descending key: `[...xs].sort((a, b) => key(b) - key(a))`. */
  function SortBy<T>(xs: seq<T>, key: T -> nat): (r: seq<T>)
    ensures |r| == |xs|
  {
    if xs == [] then [] else Insert(xs[0], SortBy(xs[1..], key), key)
  }

  predicate Descending<T>(s: seq<T>, key: T -> nat) {
    forall i, j | 0 <= i < j < |s| :: key(s[i]) >= key(s[j])
  }

  /** The elements of `s` whose key is `v`, in order. */
  function WithKey<T>(s: seq<T>, key: T -> nat, v: nat): seq<T> {
    if s == [] then []
    else (if key(s[0]) == v then [s[0]] else []) + WithKey(s[1..], key, v)
  }

  lemma {:induction false} InsertKeepsItems<T>(x: T, s: seq<T>, key: T -> nat)
    ensures multiset(Insert(x, s, key)) == multiset(s) + multiset{x}
  {
    if s != [] && key(x) < key(s[0]) {
      InsertKeepsItems(x, s[1..], key);
      assert s == [s[0]] + s[1..];
    }
  }

  lemma {:induction false} InsertKeepsOrder<T>(x: T, s: seq<T>, key: T -> nat)
    requires Descending(s, key)
    ensures Descending(Insert(x, s, key), key)
  {
    if s != [] && key(x) < key(s[0]) {
      InsertKeepsOrder(x, s[1..], key);
      InsertKeepsItems(x, s[1..], key);
      var r := Insert(x, s[1..], key);
      forall j | 0 <= j < |r| ensures key(s[0]) >= key(r[j]) {
        assert r[j] in multiset(r);
        assert r[j] == x || r[j] in multiset(s[1..]);
      }
    }
  }

  lemma {:induction false} InsertKeepsTies<T>(x: T, s: seq<T>, key: T -> nat, v: nat)
    ensures WithKey(Insert(x, s, key), key, v) == (if key(x) == v then [x] else []) + WithKey(s, key, v)
  {
    var xPart := if key(x) == v then [x] else [];
    if s == [] {
    } else if key(x) >= key(s[0]) {
      assert ([x] + s)[1..] == s;
    } else {
      var rest := Insert(x, s[1..], key);
      InsertKeepsTies(x, s[1..], key, v);
      assert ([s[0]] + rest)[1..] == rest;
      var headPart := if key(s[0]) == v then [s[0]] else [];
      assert xPart == [] || headPart == [];
      calc {
        WithKey(Insert(x, s, key), key, v);
        headPart + WithKey(rest, key, v);
        headPart + (xPart + WithKey(s[1..], key, v));
        xPart + (headPart + WithKey(s[1..], key, v));
        xPart + WithKey(s, key, v);
      }
    }
  }

  /** The sorted copy holds the same elements as the list, in descending order of key. */
  lemma {:induction false} SortIsOrderedPermutation<T>(xs: seq<T>, key: T -> nat)
    ensures multiset(SortBy(xs, key)) == multiset(xs)
    ensures Descending(SortBy(xs, key), key)
  {
    if xs != [] {
      SortIsOrderedPermutation(xs[1..], key);
      InsertKeepsItems(xs[0], SortBy(xs[1..], key), key);
      InsertKeepsOrder(xs[0], SortBy(xs[1..], key), key);
      assert xs == [xs[0]] + xs[1..];
    }
  }

  /** The sort is stable: elements with equal keys keep their relative order. */
  lemma {:induction false} SortIsStable<T>(xs: seq<T>, key: T -> nat, v: nat)
    ensures WithKey(SortBy(xs, key), key, v) == WithKey(xs, key, v)
  {
    if xs != [] {
      SortIsStable(xs[1..], key, v);
      InsertKeepsTies(xs[0], SortBy(xs[1..], key), key, v);
    }
  }

  /** Index `i` holds a maximal key and no earlier element reaches that key. */
  predicate IsFirstMaximal<T>(xs: seq<T>, key: T -> nat, i: int) {
    && 0 <= i < |xs|
    && (forall j | 0 <= j < |xs| :: key(xs[j]) <= key(xs[i]))
    && (forall j | 0 <= j < i :: key(xs[j]) < key(xs[i]))
  }

  /** The head of the sorted copy is the earliest element of maximal key. */
  lemma {:induction false} SortHead<T>(xs: seq<T>, key: T -> nat)
    requires xs != []
    ensures exists i :: IsFirstMaximal(xs, key, i) && SortBy(xs, key)[0] == xs[i]
  {
    var tail := xs[1..];
    if tail == [] {
      assert IsFirstMaximal(xs, key, 0);
    } else {
      SortHead(tail, key);
      var i' :| IsFirstMaximal(tail, key, i') && SortBy(tail, key)[0] == tail[i'];
      var sorted := SortBy(tail, key);
      if key(xs[0]) >= key(sorted[0]) {
        assert IsFirstMaximal(xs, key, 0);
      } else {
        assert IsFirstMaximal(xs, key, i' + 1);
      }
    }
  }

  /** `[...work].sort((a, b) => score(b) - score(a))`. */
  function SortByScore(ws: seq<WorkItem>): seq<WorkItem> {
    SortBy(ws, Score)
  }

  /**
   * `pickLastRole`: nothing when the work list is absent or empty, otherwise the head of
   * the sorted copy, which is the earliest work item of maximal score.
   */
  function PickLastRole(r: Resume): (last: Option<WorkItem>)
    ensures last.None? <==> Work(r) == []
    ensures last.Some? ==> exists i :: IsFirstMaximal(Work(r), Score, i) && Work(r)[i] == last.value
  {
    var ws := Work(r);
    if |ws| == 0 then None
    else
      SortHead(ws, Score);
      Some(SortByScore(ws)[0])
  }

  /**
   * When the work item at `i` is the first whose end is "present" and every other item is
   * ranked by a "YYYY-MM" date or also ends "present", the last role is the item at `i`.
   */
  lemma OngoingRoleIsLast(r: Resume, i: int)
    requires 0 <= i < |Work(r)| && ToLower(Work(r)[i].end) == "present"
    requires forall j | 0 <= j < i :: IsYearMonth(RankDate(Work(r)[j]))
    requires forall j | i < j < |Work(r)| :: IsYearMonth(RankDate(Work(r)[j])) || ToLower(Work(r)[j].end) == "present"
    ensures PickLastRole(r) == Some(Work(r)[i])
  {
    var ws := Work(r);
    assert Score(ws[i]) == PresentScore;
    forall j | 0 <= j < i ensures Score(ws[j]) < PresentScore {
      DatedScore(ws[j]);
    }
    forall j | i < j < |ws| ensures Score(ws[j]) <= PresentScore {
      if IsYearMonth(RankDate(ws[j])) {
        DatedScore(ws[j]);
      }
    }
    var last := PickLastRole(r);
    assert last.Some?;
    var k :| IsFirstMaximal(ws, Score, k) && ws[k] == last.value;
    assert Score(ws[i]) <= Score(ws[k]);
    assert k == i;
  }
}
