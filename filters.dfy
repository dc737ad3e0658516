/** The keyword filters that decide whether a user's description is worth
    sending to the model (main.py:67-94, 183, 238), and the containment test
    that splits suggested roles into relevant and irrelevant ones
    (main.py:73-80). Every test lower-cases both sides (ASCII only) and asks
    for a substring. */
module Filters {
  import opened Text

  /** main.py:68 */
  const GenericPhrases: seq<string> :=
    ["general", "n/a", "not sure", "don't know", "do you", "are you", "you", "Are there"]
  /** main.py:83 */
  const OutOfContextPhrases: seq<string> := ["unrelated", "out of context", "irrelevant"]
  /** main.py:90 */
  const RelevanceKeywords: seq<string> :=
    ["job", "hire", "business", "project", "team", "staff", "company", "role", "position", "expertise"]
  /** main.py:238 */
  const VagueAdditionalInfo: seq<string> := ["n/a", "not sure", "don't know", "general"]

  /** Some phrase, lower-cased, is a substring of the lower-cased text. */
  function AnyPhraseOccurs(phrases: seq<string>, text: string): (r: bool)
    ensures r <==> exists k :: 0 <= k < |phrases| && Occurs(Lower(phrases[k]), Lower(text))
  {
    if |phrases| == 0 then false
    else
      var rest := AnyPhraseOccurs(phrases[1..], text);
      assert forall k :: 1 <= k < |phrases| ==> phrases[1..][k - 1] == phrases[k];
      Occurs(Lower(phrases[0]), Lower(text)) || rest
  }

  /** `check_input_specificity` (main.py:67-71): false exactly when some
      generic phrase occurs in the input. */
  function CheckInputSpecificity(input: string): (r: bool)
    ensures !r <==> exists k :: 0 <= k < |GenericPhrases| && Occurs(Lower(GenericPhrases[k]), Lower(input))
  {
    !AnyPhraseOccurs(GenericPhrases, input)
  }

  /** `input_is_out_of_context` (main.py:82-87): true exactly when some
      out-of-context phrase occurs in the input. */
  function InputIsOutOfContext(input: string): (r: bool)
    ensures r <==> exists k :: 0 <= k < |OutOfContextPhrases| && Occurs(Lower(OutOfContextPhrases[k]), Lower(input))
  {
    AnyPhraseOccurs(OutOfContextPhrases, input)
  }

  /** `is_relevant_to_jobs_and_business` (main.py:89-94): true exactly when
      some relevance keyword occurs in the input. */
  function IsRelevantToJobsAndBusiness(input: string): (r: bool)
    ensures r <==> exists k :: 0 <= k < |RelevanceKeywords| && Occurs(Lower(RelevanceKeywords[k]), Lower(input))
  {
    AnyPhraseOccurs(RelevanceKeywords, input)
  }

  /** `description.startswith("http")` (main.py:174). */
  predicate IsUrl(description: string) {
    |description| >= 4 && description[..4] == "http"
  }

  /** The gate at main.py:183: a description that starts with "http" is
      never rejected; any other one is rejected when it is generic, out of
      context, or not about jobs and business. */
  function DescriptionRejected(description: string): (r: bool)
    ensures IsUrl(description) ==> !r
    ensures !IsUrl(description) ==> (r <==>
      || (exists k :: 0 <= k < |GenericPhrases| && Occurs(Lower(GenericPhrases[k]), Lower(description)))
      || (exists k :: 0 <= k < |OutOfContextPhrases| && Occurs(Lower(OutOfContextPhrases[k]), Lower(description)))
      || (forall k :: 0 <= k < |RelevanceKeywords| ==> !Occurs(Lower(RelevanceKeywords[k]), Lower(description))))
  {
    !IsUrl(description)
    && (!CheckInputSpecificity(description) || InputIsOutOfContext(description) || !IsRelevantToJobsAndBusiness(description))
  }

  /** The gate at main.py:238 for additional info: rejected when its
      lower-cased text is exactly one of four vague answers (list membership,
      not a substring test), or when it is not about jobs and business. */
  function AdditionalInfoRejected(info: string): (r: bool)
    ensures r <==>
      || Lower(info) in VagueAdditionalInfo
      || (forall k :: 0 <= k < |RelevanceKeywords| ==> !Occurs(Lower(RelevanceKeywords[k]), Lower(info)))
  {
    Lower(info) in VagueAdditionalInfo || !IsRelevantToJobsAndBusiness(info)
  }

  /** Any input that mentions "you" in any letter case fails the specificity
      check: "do you" and "are you" on the list are subsumed by "you". */
  lemma {:induction false} YouIsEnoughToReject(input: string)
    requires Occurs("you", Lower(input))
    ensures !CheckInputSpecificity(input)
  {
    assert Lower(GenericPhrases[6]) == "you";
  }

  /** The three phrases containing "you" add nothing to the generic list
      beyond "you" itself. */
  lemma {:induction false} YouSubsumesDoYouAndAreYou(input: string)
    ensures Occurs("do you", Lower(input)) ==> Occurs("you", Lower(input))
    ensures Occurs("are you", Lower(input)) ==> Occurs("you", Lower(input))
  {
    assert OccursAt("you", "do you", 3);
    assert OccursAt("you", "are you", 4);
    if Occurs("do you", Lower(input)) {
      OccursTransitive("you", "do you", Lower(input));
    }
    if Occurs("are you", Lower(input)) {
      OccursTransitive("you", "are you", Lower(input));
    }
  }

  /** Every description that opens with "Do you", as the page's own example
      question at main.py:144 does, is rejected by the gate at main.py:183. */
  lemma {:induction false} DoYouQuestionsRejected(rest: string)
    ensures DescriptionRejected("Do you" + rest)
  {
    var q := "Do you" + rest;
    assert q[0] == 'D';
    assert Lower("Do you") == "do you";
    forall i | 0 <= i < 6 ensures Lower(q)[i] == Lower("Do you")[i] {
      assert q[i] == "Do you"[i];
    }
    assert Lower(q)[..6] == "do you";
    assert OccursAt("do you", Lower(q), 0);
    assert Lower(GenericPhrases[4]) == "do you";
  }

  /** A vague answer of main.py:238 typed in any letter case is rejected. */
  lemma {:induction false} VagueAnswerRejected(info: string, k: int)
    requires 0 <= k < |VagueAdditionalInfo| && Lower(info) == VagueAdditionalInfo[k]
    ensures AdditionalInfoRejected(info)
  {
    assert Lower(info) in VagueAdditionalInfo;
  }

  /** Role strings kept by `[role for role in job_list if role.lower() not in
      description.lower()]`, in input order. */
  function RelevantRoles(jobList: seq<string>, description: string): (r: seq<string>)
    ensures forall k :: 0 <= k < |r| ==> !Occurs(Lower(r[k]), Lower(description))
  {
    if |jobList| == 0 then []
    else
      var rest := RelevantRoles(jobList[1..], description);
      if Occurs(Lower(jobList[0]), Lower(description)) then rest else [jobList[0]] + rest
  }

  /** Role strings kept by `[role for role in job_list if role.lower() in
      description.lower()]`, in input order. */
  function IrrelevantRoles(jobList: seq<string>, description: string): (r: seq<string>)
    ensures forall k :: 0 <= k < |r| ==> Occurs(Lower(r[k]), Lower(description))
  {
    if |jobList| == 0 then []
    else
      var rest := IrrelevantRoles(jobList[1..], description);
      if Occurs(Lower(jobList[0]), Lower(description)) then [jobList[0]] + rest else rest
  }

  /** `simulate_job_relevance_classification` (main.py:73-80). A role is
      "relevant" when the description does NOT already mention it. */
  function SimulateJobRelevanceClassification(jobList: seq<string>, description: string): (r: (seq<string>, seq<string>))
    ensures |jobList| == 0 ==> r == ([], [])
    ensures forall k :: 0 <= k < |r.0| ==> !Occurs(Lower(r.0[k]), Lower(description))
    ensures forall k :: 0 <= k < |r.1| ==> Occurs(Lower(r.1[k]), Lower(description))
  {
    if |jobList| == 0 then ([], [])
    else (RelevantRoles(jobList, description), IrrelevantRoles(jobList, description))
  }

  /** `a` is `b` with some elements left out, the others kept in order. */
  predicate IsSubsequence(a: seq<string>, b: seq<string>) {
    || |a| == 0
    || (&& |b| > 0
        && ((a[0] == b[0] && IsSubsequence(a[1..], b[1..])) || IsSubsequence(a, b[1..])))
  }

  /** Every role lands in exactly one of the two lists, counting repeats. */
  lemma {:induction false} RolesSplitCounts(jobList: seq<string>, description: string)
    ensures multiset(RelevantRoles(jobList, description)) + multiset(IrrelevantRoles(jobList, description)) == multiset(jobList)
  {
    if |jobList| > 0 {
      var x, tail := jobList[0], jobList[1..];
      RolesSplitCounts(tail, description);
      assert jobList == [x] + tail;
      var rel := RelevantRoles(tail, description);
      var irr := IrrelevantRoles(tail, description);
      if Occurs(Lower(x), Lower(description)) {
        assert IrrelevantRoles(jobList, description) == [x] + irr;
        assert RelevantRoles(jobList, description) == rel;
      } else {
        assert RelevantRoles(jobList, description) == [x] + rel;
        assert IrrelevantRoles(jobList, description) == irr;
      }
    }
  }

  /** Both lists keep the input order. */
  lemma {:induction false} RolesKeepOrder(jobList: seq<string>, description: string)
    ensures IsSubsequence(RelevantRoles(jobList, description), jobList)
    ensures IsSubsequence(IrrelevantRoles(jobList, description), jobList)
  {
    if |jobList| > 0 {
      var x, tail := jobList[0], jobList[1..];
      RolesKeepOrder(tail, description);
      var rel := RelevantRoles(tail, description);
      var irr := IrrelevantRoles(tail, description);
      if Occurs(Lower(x), Lower(description)) {
        assert IrrelevantRoles(jobList, description) == [x] + irr;
        assert ([x] + irr)[1..] == irr;
      } else {
        assert RelevantRoles(jobList, description) == [x] + rel;
        assert ([x] + rel)[1..] == rel;
      }
    }
  }

  /** The classification is a partition of the input that keeps its order:
      every role lands in exactly one of the two lists (counting repeats),
      the lengths add up, and each list is a subsequence of the input. */
  lemma {:induction false} ClassificationPartitions(jobList: seq<string>, description: string)
    ensures var (relevant, irrelevant) := SimulateJobRelevanceClassification(jobList, description);
      && |relevant| + |irrelevant| == |jobList|
      && multiset(relevant) + multiset(irrelevant) == multiset(jobList)
      && IsSubsequence(relevant, jobList)
      && IsSubsequence(irrelevant, jobList)
  {
    RolesSplitCounts(jobList, description);
    RolesKeepOrder(jobList, description);
    var (relevant, irrelevant) := SimulateJobRelevanceClassification(jobList, description);
    assert |multiset(relevant) + multiset(irrelevant)| == |multiset(jobList)|;
  }

  /** A role named in the description is classified irrelevant: the worked
      example of a nurse. */
  lemma NurseIsIrrelevant()
    ensures SimulateJobRelevanceClassification(["Nurse"], "we need a nurse") == ([], ["Nurse"])
  {
    assert Lower("Nurse") == "nurse";
    assert Lower("we need a nurse") == "we need a nurse";
    assert OccursAt("nurse", "we need a nurse", 10);
    var roles, description := ["Nurse"], "we need a nurse";
    assert roles[1..] == [];
    assert Occurs(Lower(roles[0]), Lower(description));
    assert RelevantRoles(roles, description) == [];
    assert IrrelevantRoles(roles, description) == ["Nurse"];
  }
}
