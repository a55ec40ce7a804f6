/**
 * A concrete question against a concrete résumé, with the exact answer the server gives.
 * The question is the first one the help text suggests. The intermediate lemmas take the
 * question as a parameter, which keeps the solver from unfolding definitions over the
 * literal text.
 */
module CvScenarios {
  import opened Wrappers
  import opened JsText
  import opened Ranking
  import opened Patterns
  import opened CvQuery

  lemma LowerLastRoleQuestion(q: string, s: string)
    requires q == "What role did I have at my last position?"
    requires s == "what role did i have at my last position?"
    ensures ToLower(q) == s
  {
    var r := ToLower(q);
    forall i | 0 <= i < |q| ensures r[i] == s[i] {
      if i != 0 && i != 14 {
        assert q[i] == s[i];
      }
    }
  }

  /** The question normalises to its lower-case spelling. */
  lemma NormalizeLastRoleQuestion(q: string)
    requires q == "What role did I have at my last position?"
    ensures Normalize(q) == "what role did i have at my last position?"
  {
    var s := "what role did i have at my last position?";
    LowerLastRoleQuestion(q, s);
    assert s[0] == 'w' && s[|s| - 1] == '?';
    TrimOfUnpadded(s);
  }

  lemma LastPositionInQuestion(s: string)
    requires s == "what role did i have at my last position?"
    ensures HasAt(s, 27, "last position")
  {
    assert s[27..40] == "last position" by {
      assert s[27] == 'l' && s[28] == 'a' && s[29] == 's' && s[30] == 't' && s[31] == ' ';
      assert s[32] == 'p' && s[33] == 'o' && s[34] == 's' && s[35] == 'i' && s[36] == 't';
      assert s[37] == 'i' && s[38] == 'o' && s[39] == 'n';
    }
  }

  /** The normalised question matches the last-role pattern: "what", then "role", then "last position". */
  lemma LastRoleQuestionMatchesQ1(s: string)
    requires s == "what role did i have at my last position?"
    ensures Q1Matches(s)
  {
    LastPositionInQuestion(s);
    assert LastFrom(s, 9) by { assert Gap(s, 9, 27); }
    assert HasAt(s, 5, "role") by { assert s[5] == 'r' && s[6] == 'o' && s[7] == 'l' && s[8] == 'e'; }
    assert RoleFrom(s, 4) by { assert Gap(s, 4, 5); }
    assert HasAt(s, 0, "what") by { assert s[0] == 'w' && s[1] == 'h' && s[2] == 'a' && s[3] == 't'; }
    assert Q1At(s, 0);
  }

  /** With a single work item, a last-role question is answered with that item. */
  lemma OnlyRoleIsLast(w: WorkItem, q: string)
    requires Q1Matches(Normalize(q))
    ensures AnswerCvQuestion(Resume(Some([w])), q) == LastRoleAnswer(w)
  {
    LastRoleRule(Resume(Some([w])), q);
  }

  lemma EngineerAnswerText()
    ensures LastRoleAnswer(WorkItem("Engineer", "Acme", "", "present")) == "Your last role: Engineer at Acme (present)."
  {
  }

  lemma EngineerIsLastRole()
    ensures AnswerCvQuestion(Resume(Some([WorkItem("Engineer", "Acme", "", "present")])), "What role did I have at my last position?")
         == LastRoleAnswer(WorkItem("Engineer", "Acme", "", "present"))
  {
    var q := "What role did I have at my last position?";
    NormalizeLastRoleQuestion(q);
    LastRoleQuestionMatchesQ1(Normalize(q));
    OnlyRoleIsLast(WorkItem("Engineer", "Acme", "", "present"), q);
  }

  /** A single role ending "present", asked about in the wording the help text suggests. */
  lemma LastRoleScenario()
    ensures AnswerCvQuestion(Resume(Some([WorkItem("Engineer", "Acme", "", "present")])), "What role did I have at my last position?")
         == "Your last role: Engineer at Acme (present)."
  {
    EngineerIsLastRole();
    EngineerAnswerText();
  }
}
