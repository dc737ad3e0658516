/** The per-role salary loop (main.py:302-354): for each relevant role, ask the
    model for a salary comparison until a reply both extracts and validates,
    then append a `{job_role, currency: "USD", salary_comparison}` record.

    The chat client is a script of replies, consumed one per call in call
    order; the prompt it is sent is not modelled. The source retries without
    bound; here the loop also stops when the script runs out. */
module SalaryLoop {
  import opened Text
  import opened PyValues
  import opened Extraction
  import opened SalaryValidation

  /** One entry of `job_list_salary` (main.py:348-352). */
  datatype JobSalary = JobSalary(jobRole: string, currency: string, salaryComparison: Value)

  /** How the loop over the roles ended: every role got a record; an
      exception nothing catches left the loop; or the reply script ran out
      while a role was still being retried. */
  datatype LoopEnd = Completed | Crashed(exc: Exception) | RepliesExhausted

  /** What one reply does to the retry loop of main.py:308-346: ask again,
      accept the cleaned value, or raise. */
  datatype Verdict = Retry | Accept(cleaned: Value) | Fail(exc: Exception)

  /** The `salary_comparison` value contains both country keys, in Python's
      sense of `in`. */
  predicate HasBothCountries(section: Value) {
    In("philippines", section) == Return(true) && In("united_states", section) == Return(true)
  }

  /** A cleaned reply with a `salary_comparison` entry that has both country
      keys. */
  predicate IsSalaryReply(cleaned: Value) {
    cleaned.Dict? && "salary_comparison" in cleaned.fields && HasBothCountries(cleaned.fields["salary_comparison"])
  }

  /** main.py:336-346 for one reply: extract, retry on failure, validate,
      retry when invalid. An accepted value always has a
      `salary_comparison` entry with both country keys, so the lookup at
      main.py:351 cannot fail. */
  function JudgeReply(reply: string, loads: string -> Outcome<Value>): (v: Verdict)
    ensures v.Accept? ==> IsSalaryReply(v.cleaned)
  {
    match ExtractAndParseJson(reply, loads)
    case Raise(e) => Fail(e)
    case Return((json, parsed)) =>
      if parsed == false then Retry
      else
        match ValidateAndConvertSalaryJson(json, loads)
        case Raise(e) => Fail(e)
        case Return((cleaned, valid)) => if valid == false then Retry else Accept(cleaned)
  }

  /** The position and verdict of the first reply at or after `from` that
      does not ask for a retry, or `(|replies|, Retry)` when there is none. */
  function FirstDecisive(replies: seq<string>, from: nat, judge: string -> Verdict): (r: (nat, Verdict))
    requires from <= |replies|
    ensures from <= r.0 <= |replies|
    ensures r.0 == |replies| <==> r.1.Retry?
    ensures r.0 < |replies| ==> r.1 == judge(replies[r.0])
    ensures forall i :: from <= i < r.0 ==> judge(replies[i]).Retry?
    decreases |replies| - from
  {
    if from == |replies| then (from, Retry)
    else if judge(replies[from]).Retry? then FirstDecisive(replies, from + 1, judge)
    else (from, judge(replies[from]))
  }

  /** One reply of `FirstDecisive`: a retry moves on to the next reply, any
      other verdict is the answer. */
  lemma FirstDecisiveStep(replies: seq<string>, from: nat, judge: string -> Verdict)
    requires from < |replies|
    ensures FirstDecisive(replies, from, judge) ==
      if judge(replies[from]).Retry? then FirstDecisive(replies, from + 1, judge) else (from, judge(replies[from]))
  {
  }

  /** The records for `roles[k..]`, appended to `done`, with replies taken
      from position `pos` on: the records, the number of replies consumed and
      how the loop ended. The lookup of main.py:351 is Python's subscript. */
  function Collect(roles: seq<string>, k: nat, replies: seq<string>, pos: nat, done: seq<JobSalary>,
                   judge: string -> Verdict): (r: (seq<JobSalary>, nat, LoopEnd))
    requires k <= |roles| && pos <= |replies|
    ensures done <= r.0 && pos <= r.1 <= |replies|
    decreases |roles| - k
  {
    if k == |roles| then (done, pos, Completed)
    else
      var (at, verdict) := FirstDecisive(replies, pos, judge);
      match verdict
      case Retry => (done, |replies|, RepliesExhausted)
      case Fail(e) => (done, at + 1, Crashed(e))
      case Accept(cleaned) =>
        match Subscript(cleaned, "salary_comparison")
        case Raise(e) => (done, at + 1, Crashed(e))
        case Return(comparison) =>
          Collect(roles, k + 1, replies, at + 1, done + [JobSalary(roles[k], "USD", comparison)], judge)
  }

  /** The retry loop of main.py:308-346 for one role: ask with the next
      reply until one is decisive. Returns how many replies have been used
      and the verdict of the decisive one, or `Retry` when the script ran
      out first. */
  method RetryRole(replies: seq<string>, from: nat, loads: string -> Outcome<Value>, ghost judge: string -> Verdict)
    returns (used: nat, verdict: Verdict)
    requires from <= |replies|
    requires forall reply :: judge(reply) == JudgeReply(reply, loads)
    ensures var (at, first) := FirstDecisive(replies, from, judge);
      verdict == first && used == if first.Retry? then |replies| else at + 1
    ensures verdict.Accept? ==> IsSalaryReply(verdict.cleaned)
  {
    used := from;
    var notParsed := true;
    var cleaned := Null;
    while notParsed
      invariant from <= used <= |replies|
      invariant notParsed ==> FirstDecisive(replies, from, judge) == FirstDecisive(replies, used, judge)
      invariant !notParsed ==> 0 < used && FirstDecisive(replies, from, judge) == (used - 1, Accept(cleaned))
      invariant !notParsed ==> IsSalaryReply(cleaned)
      decreases |replies| - used, notParsed
    {
      if used == |replies| {
        return used, Retry;
      }
      var reply := replies[used];
      FirstDecisiveStep(replies, used, judge);
      used := used + 1;
      var extracted := ExtractAndParseJson(reply, loads);
      if extracted.Raise? {
        assert JudgeReply(reply, loads) == Fail(extracted.exc);
        return used, Fail(extracted.exc);
      }
      var (json, parsed) := extracted.value;
      if parsed == false {
        assert JudgeReply(reply, loads) == Retry;
        continue;
      }
      var validated := ValidateAndConvertSalaryJson(json, loads);
      if validated.Raise? {
        assert JudgeReply(reply, loads) == Fail(validated.exc);
        return used, Fail(validated.exc);
      }
      var (candidate, valid) := validated.value;
      if valid == false {
        assert JudgeReply(reply, loads) == Retry;
        continue;
      }
      assert JudgeReply(reply, loads) == Accept(candidate);
      cleaned := candidate;
      notParsed := false;
    }
    verdict := Accept(cleaned);
  }

  /** The loop of main.py:305-354: the records, the number of replies used
      and how the loop ended are those of `Collect`, about which
      `CollectShape` and `CollectRecords` state what the records are. `judge` is `JudgeReply` with this
      parser fixed; it is a ghost parameter so that the proof of the loop
      sees verdicts only where it asks for them. */
  method SalaryRetryLoop(roles: seq<string>, replies: seq<string>, loads: string -> Outcome<Value>,
                         ghost judge: string -> Verdict)
    returns (records: seq<JobSalary>, used: nat, end: LoopEnd)
    requires forall reply :: judge(reply) == JudgeReply(reply, loads)
    ensures (records, used, end) == Collect(roles, 0, replies, 0, [], judge)
  {
    records, used, end := [], 0, Completed;
    var k := 0;
    while k < |roles|
      invariant k <= |roles| && used <= |replies|
      invariant Collect(roles, 0, replies, 0, [], judge) == Collect(roles, k, replies, used, records, judge)
    {
      var job := roles[k];
      var verdict;
      ghost var pos := used;
      used, verdict := RetryRole(replies, used, loads, judge);
      CollectStep(roles, k, replies, pos, records, judge);
      match verdict {
        case Retry =>
          end := RepliesExhausted;
          return;
        case Fail(e) =>
          end := Crashed(e);
          return;
        case Accept(cleaned) =>
          records := records + [JobSalary(job, "USD", cleaned.fields["salary_comparison"])];
          k := k + 1;
      }
    }
  }

  /** One role of `Collect`: the first decisive reply decides whether the
      loop stops or goes on to the next role with one more record. */
  lemma CollectStep(roles: seq<string>, k: nat, replies: seq<string>, pos: nat, done: seq<JobSalary>,
                    judge: string -> Verdict)
    requires k < |roles| && pos <= |replies|
    ensures var (at, verdict) := FirstDecisive(replies, pos, judge);
      Collect(roles, k, replies, pos, done, judge) ==
        match verdict
        case Retry => (done, |replies|, RepliesExhausted)
        case Fail(e) => (done, at + 1, Crashed(e))
        case Accept(cleaned) =>
          match Subscript(cleaned, "salary_comparison")
          case Raise(e) => (done, at + 1, Crashed(e))
          case Return(comparison) =>
            Collect(roles, k + 1, replies, at + 1, done + [JobSalary(roles[k], "USD", comparison)], judge)
  {
  }

  /** The loop yields at most one record per role, appended after the
      records it started with, and uses no more replies than the script
      holds; it completes exactly when every role has its record, and runs
      out of replies only after using them all. */
  lemma {:induction false} CollectShape(roles: seq<string>, k: nat, replies: seq<string>, pos: nat,
                                        done: seq<JobSalary>, judge: string -> Verdict)
    requires k <= |roles| && pos <= |replies| && |done| == k
    ensures var (records, used, end) := Collect(roles, k, replies, pos, done, judge);
      && done <= records && |records| <= |roles| && pos <= used <= |replies|
      && (end.Completed? <==> |records| == |roles|)
      && (end.RepliesExhausted? ==> used == |replies|)
    decreases |roles| - k
  {
    if k < |roles| {
      var (at, verdict) := FirstDecisive(replies, pos, judge);
      if verdict.Accept? && Subscript(verdict.cleaned, "salary_comparison").Return? {
        var next := done + [JobSalary(roles[k], "USD", Subscript(verdict.cleaned, "salary_comparison").value)];
        CollectShape(roles, k + 1, replies, at + 1, next, judge);
      }
    }
  }

  /** A record for `role`, in USD, whose comparison has both country keys. */
  predicate RecordOf(record: JobSalary, role: string) {
    record.jobRole == role && record.currency == "USD" && HasBothCountries(record.salaryComparison)
  }

  /** Every reply the judge accepts is a salary reply. */
  ghost predicate AcceptsOnlySalaries(judge: string -> Verdict) {
    forall reply :: judge(reply).Accept? ==> IsSalaryReply(judge(reply).cleaned)
  }

  /** The judge of any parser accepts only salary replies. */
  lemma JudgeAcceptsOnlySalaries(loads: string -> Outcome<Value>, judge: string -> Verdict)
    requires forall reply :: judge(reply) == JudgeReply(reply, loads)
    ensures AcceptsOnlySalaries(judge)
  {
  }

  /** An acceptance carrying a salary comparison for the lookup of
      main.py:351. */
  predicate AcceptsSalary(v: Verdict) {
    v.Accept? && v.cleaned.Dict? && "salary_comparison" in v.cleaned.fields
  }

  /** The record main.py:349-353 build for `role` from the verdict `v`. */
  predicate RecordFrom(record: JobSalary, role: string, v: Verdict) {
    AcceptsSalary(v) && record == JobSalary(role, "USD", v.cleaned.fields["salary_comparison"])
  }

  /** A role whose first decisive reply is an acceptance with a salary
      comparison gets its record from that reply, and the loop goes on with
      the next role after that reply. */
  lemma AcceptedRole(roles: seq<string>, k: nat, replies: seq<string>, pos: nat, done: seq<JobSalary>,
                     judge: string -> Verdict, at: nat, verdict: Verdict)
    requires k < |roles| && pos <= |replies|
    requires (at, verdict) == FirstDecisive(replies, pos, judge) && AcceptsSalary(verdict)
    ensures at < |replies|
    ensures Collect(roles, k, replies, pos, done, judge) ==
      Collect(roles, k + 1, replies, at + 1, done + [JobSalary(roles[k], "USD", verdict.cleaned.fields["salary_comparison"])], judge)
  {
    CollectStep(roles, k, replies, pos, done, judge);
  }

  /** A role whose first decisive reply is not an acceptance with a salary
      comparison ends the loop without a further record. */
  lemma StopsWithoutAccept(roles: seq<string>, k: nat, replies: seq<string>, pos: nat, done: seq<JobSalary>,
                           judge: string -> Verdict)
    requires k < |roles| && pos <= |replies|
    requires !AcceptsSalary(FirstDecisive(replies, pos, judge).1)
    ensures Collect(roles, k, replies, pos, done, judge).0 == done
  {
    CollectStep(roles, k, replies, pos, done, judge);
  }

  /** The loop only appends to the records it starts with. */
  lemma {:induction false} KeepsEarlierRecords(roles: seq<string>, k: nat, replies: seq<string>, pos: nat,
                                               done: seq<JobSalary>, judge: string -> Verdict)
    requires k <= |roles| && pos <= |replies|
    ensures done <= Collect(roles, k, replies, pos, done, judge).0
    decreases |roles| - k
  {
    if k < |roles| {
      var (at, verdict) := FirstDecisive(replies, pos, judge);
      if !AcceptsSalary(verdict) {
        StopsWithoutAccept(roles, k, replies, pos, done, judge);
      } else {
        AcceptedRole(roles, k, replies, pos, done, judge, at, verdict);
        var next := done + [JobSalary(roles[k], "USD", verdict.cleaned.fields["salary_comparison"])];
        KeepsEarlierRecords(roles, k + 1, replies, at + 1, next, judge);
      }
    }
  }

  /** Every record the loop adds after the first `k` is for the role at its
      index and comes from the reply at `m`, which the judge accepted. */
  lemma {:induction false} RecordAt(roles: seq<string>, k: nat, replies: seq<string>, pos: nat,
                                    done: seq<JobSalary>, judge: string -> Verdict, i: nat)
    returns (m: nat)
    requires k <= |roles| && pos <= |replies| && |done| == k
    requires k <= i < |Collect(roles, k, replies, pos, done, judge).0|
    ensures i < |roles| && m < |replies|
    ensures RecordFrom(Collect(roles, k, replies, pos, done, judge).0[i], roles[i], judge(replies[m]))
    decreases |roles| - k
  {
    CollectShape(roles, k, replies, pos, done, judge);
    var (at, verdict) := FirstDecisive(replies, pos, judge);
    if !AcceptsSalary(verdict) {
      StopsWithoutAccept(roles, k, replies, pos, done, judge);
    } else {
      AcceptedRole(roles, k, replies, pos, done, judge, at, verdict);
      var next := done + [JobSalary(roles[k], "USD", verdict.cleaned.fields["salary_comparison"])];
      if i > k {
        m := RecordAt(roles, k + 1, replies, at + 1, next, judge, i);
      } else {
        KeepsEarlierRecords(roles, k + 1, replies, at + 1, next, judge);
        assert Collect(roles, k + 1, replies, at + 1, next, judge).0[k] == next[k];
        m := at;
      }
    }
  }

  /** Record `i` names role `i`, is in USD and holds a comparison with both
      country keys, for a judge that accepts only salary replies (as
      `JudgeAcceptsOnlySalaries` shows every parser's judge does). */
  lemma CollectRecords(roles: seq<string>, replies: seq<string>, judge: string -> Verdict)
    requires AcceptsOnlySalaries(judge)
    ensures var records := Collect(roles, 0, replies, 0, [], judge).0;
      && |records| <= |roles|
      && (forall i :: 0 <= i < |records| ==> RecordOf(records[i], roles[i]))
  {
    CollectShape(roles, 0, replies, 0, [], judge);
    var records := Collect(roles, 0, replies, 0, [], judge).0;
    forall i | 0 <= i < |records| ensures RecordOf(records[i], roles[i]) {
      var m := RecordAt(roles, 0, replies, 0, [], judge, i);
      assert IsSalaryReply(judge(replies[m]).cleaned);
    }
  }

  /** A reply accepted with a salary comparison settles the role at hand
      with one record and moves on to the next role and reply. */
  lemma AcceptStep(roles: seq<string>, k: nat, replies: seq<string>, pos: nat, done: seq<JobSalary>,
                   judge: string -> Verdict)
    requires k < |roles| && pos < |replies|
    requires judge(replies[pos]).Accept? && judge(replies[pos]).cleaned.Dict?
    requires "salary_comparison" in judge(replies[pos]).cleaned.fields
    ensures Collect(roles, k, replies, pos, done, judge) ==
      Collect(roles, k + 1, replies, pos + 1,
              done + [JobSalary(roles[k], "USD", judge(replies[pos]).cleaned.fields["salary_comparison"])], judge)
  {
    FirstDecisiveStep(replies, pos, judge);
    CollectStep(roles, k, replies, pos, done, judge);
  }

  /** A chat client whose every reply is accepted makes the loop complete,
      one reply per role, whatever the roles. */
  lemma {:induction false} AcceptingClientCompletes(roles: seq<string>, k: nat, replies: seq<string>, pos: nat,
                                                     done: seq<JobSalary>, judge: string -> Verdict)
    requires k <= |roles| && pos <= |replies|
    requires |replies| - pos >= |roles| - k
    requires forall i :: pos <= i < |replies| ==> AcceptsSalary(judge(replies[i]))
    ensures Collect(roles, k, replies, pos, done, judge).2 == Completed
    ensures Collect(roles, k, replies, pos, done, judge).1 == pos + |roles| - k
    ensures |Collect(roles, k, replies, pos, done, judge).0| == |done| + |roles| - k
    decreases |roles| - k
  {
    if k < |roles| {
      var next := done + [JobSalary(roles[k], "USD", judge(replies[pos]).cleaned.fields["salary_comparison"])];
      AcceptStep(roles, k, replies, pos, done, judge);
      AcceptingClientCompletes(roles, k + 1, replies, pos + 1, next, judge);
    }
  }

  /** The value main.py:341 passes to the validator is always a dict when
      `loads`, like `json.loads`, turns a text that opens with `{` into a
      dict whenever it succeeds. */
  ghost predicate ParsesBracesAsDicts(loads: string -> Outcome<Value>) {
    forall t :: |t| > 0 && t[0] == '{' && loads(t).Return? ==> loads(t).value.Dict?
  }

  /** Under such a parser, the verdict on a reply with a brace span depends
      only on the key structure of what the span parses to. */
  lemma {:induction false} AcceptOnSpan(reply: string, loads: string -> Outcome<Value>, i: int, j: int)
    requires ParsesBracesAsDicts(loads) && BraceSpan(reply, i, j)
    ensures JudgeReply(reply, loads).Accept? <==>
      loads(reply[i..j + 1]).Return? && HasSalaryKeys(loads(reply[i..j + 1]).value)
  {
    ParseJsonOfSpan(reply, loads, i, j);
    var slice := reply[i..j + 1];
    if loads(slice).Return? {
      var data := loads(slice).value;
      assert data.Dict?;
      assert ExtractAndParseJson(reply, loads) == Return((data, true));
      if HasSalaryKeys(data) {
        assert IsValidSalaryComparison(data) == Return(true);
      }
    }
  }

  /** Under such a parser, a reply is accepted exactly when the slice between
      its first `{` and its last `}` parses to a dict with the key structure;
      the 10000 USD ceiling is never applied. */
  lemma {:induction false} CeilingNeverEnforced(reply: string, loads: string -> Outcome<Value>)
    requires ParsesBracesAsDicts(loads)
    ensures JudgeReply(reply, loads).Accept? <==>
      exists i, j :: BraceSpan(reply, i, j) && loads(reply[i..j + 1]).Return? && HasSalaryKeys(loads(reply[i..j + 1]).value)
  {
    if i, j :| BraceSpan(reply, i, j) {
      AcceptOnSpan(reply, loads, i, j);
      forall i', j' | BraceSpan(reply, i', j') ensures i' == i && j' == j {
        BraceSpanFromFind(reply, i, j);
        BraceSpanFromFind(reply, i', j');
      }
    } else {
      SpanlessRetries(reply, loads);
    }
  }

  /** A reply without a `{` before a `}` asks for a retry. */
  lemma SpanlessRetries(reply: string, loads: string -> Outcome<Value>)
    requires forall i, j :: !BraceSpan(reply, i, j)
    ensures JudgeReply(reply, loads) == Retry
  {
    ParsedJsonHasSpan(reply, loads);
  }
}
