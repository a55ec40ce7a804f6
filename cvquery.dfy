/**
 * `answerCvQuestion`: an ordered rule table over the normalised question. The first rule
 * whose pattern matches decides the answer; the last-role, company-list and
 * "worked at" rules are tried in that order, and the help text answers everything else.
 */
module CvQuery {
  import opened Wrappers
  import opened JsText
  import opened Ranking
  import opened Patterns

  const NoWorkAnswer := "I couldn't find any work entries."
  const NoCompaniesAnswer := "No companies found."

  const HelpLines: seq<string> := [
    "I can answer:",
    "\U{2022} What role did I have at my last position?",
    "\U{2022} Which companies have I worked at?",
    "\U{2022} When did I work at <company>?",
    "Update resume.json to improve answers."
  ]

  /** The help text: the five lines joined with "\n". */
  function HelpAnswer(): string {
    Join(HelpLines, "\n")
  }

  /** `q.toLowerCase().trim()`: no capital letter is left, and no whitespace at either end. */
  function Normalize(q: string): (question: string)
    ensures forall i | 0 <= i < |question| :: !('A' <= question[i] <= 'Z')
    ensures question == [] || (!IsJsWhitespace(question[0]) && !IsJsWhitespace(question[|question| - 1]))
  {
    TrimKeepsLowerCase(ToLower(q));
    Trim(ToLower(q))
  }

  /** Trimming a lower-cased string leaves no capital letter. */
  lemma TrimKeepsLowerCase(lower: string)
    requires forall i | 0 <= i < |lower| :: !('A' <= lower[i] <= 'Z')
    ensures forall i | 0 <= i < |Trim(lower)| :: !('A' <= Trim(lower)[i] <= 'Z')
  {
    var t := TrimStart(lower);
    var r := TrimEnd(t);
    var a := |lower| - |t|;
    assert r == lower[a..a + |r|] by {
      assert t == lower[a..];
      assert r == t[..|r|];
    }
    forall i | 0 <= i < |r| ensures !('A' <= r[i] <= 'Z') {
      assert r[i] == lower[a + i];
    }
  }

  /** `last.end ? ` (${last.end})` : ""`. */
  function EndLabel(end: string): string {
    if end != "" then " (" + end + ")" else ""
  }

  function LastRoleAnswer(w: WorkItem): string {
    "Your last role: " + w.title + " at " + w.company + EndLabel(w.end) + "."
  }

  /** `work.map((w) => w.company).filter(Boolean)`: the non-empty company names, in list order. */
  function Companies(ws: seq<WorkItem>): seq<string> {
    if ws == [] then []
    else (if ws[0].company != "" then [ws[0].company] else []) + Companies(ws[1..])
  }

  /** A name is listed exactly when it is non-empty and some work item has it as its company. */
  lemma {:induction false} CompaniesAreTheNamedOnes(ws: seq<WorkItem>, c: string)
    ensures |Companies(ws)| <= |ws|
    ensures c in Companies(ws) <==> c != "" && exists w | w in ws :: w.company == c
  {
    if ws != [] {
      CompaniesAreTheNamedOnes(ws[1..], c);
      assert forall w | w in ws :: w == ws[0] || w in ws[1..];
    }
  }

  /** Company names keep the order of the work list. */
  lemma {:induction false} CompaniesOfAppend(a: seq<WorkItem>, b: seq<WorkItem>)
    ensures Companies(a + b) == Companies(a) + Companies(b)
  {
    if a == [] {
      assert a + b == b;
    } else {
      var head := if a[0].company != "" then [a[0].company] else [];
      calc {
        Companies(a + b);
        == { assert (a + b)[0] == a[0]; assert (a + b)[1..] == a[1..] + b; }
        head + Companies(a[1..] + b);
        == { CompaniesOfAppend(a[1..], b); }
        head + (Companies(a[1..]) + Companies(b));
        == { AppendIsAssociative(head, Companies(a[1..]), Companies(b)); }
        (head + Companies(a[1..])) + Companies(b);
        Companies(a) + Companies(b);
      }
    }
  }

  lemma AppendIsAssociative<T>(x: seq<T>, y: seq<T>, z: seq<T>)
    ensures x + (y + z) == (x + y) + z
  {
  }

  function CompaniesAnswer(cs: seq<string>): string {
    if |cs| > 0 then "Companies: " + Join(cs, ", ") + "." else NoCompaniesAnswer
  }

  /** `ws[k]` is the first item whose lower-cased company is `key`. */
  predicate IsFirstCompanyMatch(ws: seq<WorkItem>, key: string, k: int) {
    && 0 <= k < |ws|
    && ToLower(ws[k].company) == key
    && forall j | 0 <= j < k :: ToLower(ws[j].company) != key
  }

  /** `work.find((w) => (w.company || "").toLowerCase() === key)`. */
  function FindCompany(ws: seq<WorkItem>, key: string): (hit: Option<WorkItem>)
    ensures hit.None? <==> forall w | w in ws :: ToLower(w.company) != key
    ensures hit.Some? ==> exists k :: IsFirstCompanyMatch(ws, key, k) && ws[k] == hit.value
  {
    if ws == [] then None
    else if ToLower(ws[0].company) == key then
      assert IsFirstCompanyMatch(ws, key, 0);
      Some(ws[0])
    else
      var hit := FindCompany(ws[1..], key);
      assert forall w | w in ws :: w == ws[0] || w in ws[1..];
      assert hit.Some? ==> exists k :: IsFirstCompanyMatch(ws, key, k) && ws[k] == hit.value by {
        if hit.Some? {
          var k :| IsFirstCompanyMatch(ws[1..], key, k) && ws[1..][k] == hit.value;
          assert IsFirstCompanyMatch(ws, key, k + 1);
        }
      }
      hit
  }

  /** `mCompany[2].trim().toLowerCase()`. */
  function CompanyKey(capture: string): string {
    ToLower(Trim(capture))
  }

  /** `hit.start || "?"`. */
  function OrUnknown(d: string): string {
    if d != "" then d else "?"
  }

  function StintAnswer(w: WorkItem): string {
    "At " + w.company + ": " + w.title + " \U{2014} " + OrUnknown(w.start) + " to " + OrUnknown(w.end) + "."
  }

  /** `answerCvQuestion(resume, q)`. */
  function AnswerCvQuestion(resume: Resume, q: string): string {
    var question := Normalize(q);
    var last := PickLastRole(resume);
    if Q1Matches(question) then
      match last
      case None => NoWorkAnswer
      case Some(w) => LastRoleAnswer(w)
    else if Q2Matches(question) then
      CompaniesAnswer(Companies(Work(resume)))
    else
      match FindCapture(question, 0)
      case None => HelpAnswer()
      case Some(capture) =>
        match FindCompany(Work(resume), CompanyKey(capture))
        case Some(hit) => StintAnswer(hit)
        case None => HelpAnswer()
  }

  // ---------------------------------------------------------------------------
  // The rules, one lemma each

  /**
   * Rule 1 wins whenever its pattern matches: with no work items the answer is the
   * not-found message, otherwise it names the earliest work item of maximal score.
   */
  lemma LastRoleRule(resume: Resume, q: string)
    requires Q1Matches(Normalize(q))
    ensures Work(resume) == [] ==> AnswerCvQuestion(resume, q) == NoWorkAnswer
    ensures Work(resume) != [] ==> exists i ::
      IsFirstMaximal(Work(resume), Score, i) && AnswerCvQuestion(resume, q) == LastRoleAnswer(Work(resume)[i])
  {
    var last := PickLastRole(resume);
    if last.Some? {
      assert AnswerCvQuestion(resume, q) == LastRoleAnswer(last.value);
      var i :| IsFirstMaximal(Work(resume), Score, i) && Work(resume)[i] == last.value;
    } else {
      assert AnswerCvQuestion(resume, q) == NoWorkAnswer;
    }
  }

  /**
   * Rule 2, when rule 1 does not match: the non-empty company names joined by ", ", or
   * the none-found message exactly when no item names a company.
   */
  lemma CompaniesRule(resume: Resume, q: string)
    requires !Q1Matches(Normalize(q)) && Q2Matches(Normalize(q))
    ensures AnswerCvQuestion(resume, q) == NoCompaniesAnswer <==>
      forall w | w in Work(resume) :: w.company == ""
    ensures AnswerCvQuestion(resume, q) != NoCompaniesAnswer ==>
      AnswerCvQuestion(resume, q) == "Companies: " + Join(Companies(Work(resume)), ", ") + "."
  {
    var ws := Work(resume);
    var cs := Companies(ws);
    assert AnswerCvQuestion(resume, q) == CompaniesAnswer(cs);
    if |cs| > 0 {
      assert CompaniesAnswer(cs)[0] == 'C' != NoCompaniesAnswer[0];
      CompaniesAreTheNamedOnes(ws, cs[0]);
      assert cs[0] in cs;
    } else {
      forall w | w in ws ensures w.company == "" {
        CompaniesAreTheNamedOnes(ws, w.company);
      }
    }
  }

  /**
   * Rule 3, when rules 1 and 2 do not match: the leftmost "work(ed) at <name>" match
   * names a company, and the first item with that company (compared in lower case)
   * is described.
   */
  lemma StintRule(resume: Resume, q: string, i: int, k: int)
    requires !Q1Matches(Normalize(q)) && !Q2Matches(Normalize(q))
    requires IsLeftmostMatch(Normalize(q), i)
    requires IsFirstCompanyMatch(Work(resume), CompanyKey(CaptureAt(Normalize(q), i)), k)
    ensures AnswerCvQuestion(resume, q) == StintAnswer(Work(resume)[k])
  {
    var s := Normalize(q);
    var ws := Work(resume);
    LeftmostCapture(s, i);
    var key := CompanyKey(CaptureAt(s, i));
    var hit := FindCompany(ws, key);
    var k' :| IsFirstCompanyMatch(ws, key, k') && ws[k'] == hit.value;
    assert k' == k;
  }

  /**
   * Rule 4: when no rule applies (no pattern matches, or the company named after
   * "work(ed) at" is not in the work list) the answer is the help text.
   */
  lemma HelpRule(resume: Resume, q: string)
    requires !Q1Matches(Normalize(q)) && !Q2Matches(Normalize(q))
    requires
      || (forall i | 0 <= i <= |Normalize(q)| :: !MatchAt(Normalize(q), i))
      || exists i :: IsLeftmostMatch(Normalize(q), i) &&
           forall w | w in Work(resume) :: ToLower(w.company) != CompanyKey(CaptureAt(Normalize(q), i))
    ensures AnswerCvQuestion(resume, q) == HelpAnswer()
  {
    var s := Normalize(q);
    var found := FindCapture(s, 0);
    assert found.None? ==> AnswerCvQuestion(resume, q) == HelpAnswer();
    if found.Some? {
      var i :| IsLeftmostMatch(s, i) &&
        forall w | w in Work(resume) :: ToLower(w.company) != CompanyKey(CaptureAt(s, i));
      LeftmostCapture(s, i);
      assert FindCompany(Work(resume), CompanyKey(found.value)).None?;
    }
  }
}
