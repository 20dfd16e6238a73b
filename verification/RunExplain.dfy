/** Run explain: retry candidates, the headline verdict and the suggested commands, and their
    agreement with the doctor and with onboarding. */
module RunExplain {
  import opened Options
  import opened Sequences
  import opened NoteLog
  import opened RouteHealth

  datatype RetryCandidate = RetryCandidate(
    id: string,
    reason: string,
    retryable: bool,
    retryAllowed: bool,
    retriesUsed: nat,
    candidates: seq<string>)

  function BlockedReason(a: Assignment): string {
    if a.blockingReason.Some? then a.blockingReason.value
    else if a.notes != [] then a.notes[|a.notes| - 1]
    else if a.result.Some? then a.result.value.summary
    else "no structured reason recorded"
  }

  function CandidateOf(a: Assignment): Option<RetryCandidate> {
    if a.status != Failed && a.status != Blocked then None
    else if Failure(a).Some? then
      var failure, used := Failure(a).value, CountRetryRequests(a.notes);
      Some(RetryCandidate(
        a.id, failure.reason, failure.retryable, failure.retryable && used < RETRY_LIMIT, used, RerouteCandidates(a)))
    else Some(RetryCandidate(a.id, BlockedReason(a), false, false, 0, RerouteCandidates(a)))
  }

  function CollectCandidates(assignments: seq<Assignment>): seq<RetryCandidate> {
    if assignments == [] then []
    else
      var front, c := CollectCandidates(assignments[..|assignments| - 1]), CandidateOf(assignments[|assignments| - 1]);
      if c.Some? then front + [c.value] else front
  }

  function CommandsFor(runId: string, c: RetryCandidate): seq<Command> {
    if c.retryAllowed then [RetryCommand(runId, c.id)]
    else Map(c.candidates, (adapter: string) => RerouteCommand(runId, c.id, adapter))
  }

  /** The "suggested command" lines, in order. */
  function ExplainSuggestions(runId: string, assignments: seq<Assignment>): seq<Command> {
    FlatMap(CollectCandidates(assignments), (c: RetryCandidate) => CommandsFor(runId, c))
  }

  method RenderSuggestions(runId: string, assignments: seq<Assignment>) returns (lines: seq<Command>)
    ensures lines == ExplainSuggestions(runId, assignments)
  {
    hide CollectCandidates, FlatMap;
    var candidates := CollectCandidates(assignments);
    var emit := (c: RetryCandidate) => CommandsFor(runId, c);
    lines := [];
    FlatMapNone(candidates, emit);
    for i := 0 to |candidates|
      invariant lines == FlatMap(candidates[..i], emit)
    {
      var c := candidates[i];
      FlatMapNext(candidates, i, emit);
      if c.retryAllowed {
        lines := lines + [RetryCommand(runId, c.id)];
      } else {
        ghost var before := lines;
        assert before + [] == before;
        for j := 0 to |c.candidates|
          invariant lines == before + CommandsFor(runId, c)[..j]
        {
          lines := lines + [RerouteCommand(runId, c.id, c.candidates[j])];
        }
        assert CommandsFor(runId, c)[..|c.candidates|] == CommandsFor(runId, c);
      }
    }
    assert candidates[..|candidates|] == candidates;
  }

  // ----- membership -----

  lemma {:induction false} CandidateCollected(assignments: seq<Assignment>, a: Assignment)
    requires a in assignments && CandidateOf(a).Some?
    ensures CandidateOf(a).value in CollectCandidates(assignments)
  {
    var front, last := assignments[..|assignments| - 1], assignments[|assignments| - 1];
    assert assignments == front + [last];
    if a != last {
      CandidateCollected(front, a);
    }
  }

  lemma {:induction false} CollectedFrom(assignments: seq<Assignment>, c: RetryCandidate) returns (a: Assignment)
    requires c in CollectCandidates(assignments)
    ensures a in assignments && CandidateOf(a) == Some(c)
  {
    var front, last := assignments[..|assignments| - 1], assignments[|assignments| - 1];
    assert assignments == front + [last];
    if CandidateOf(last) == Some(c) {
      a := last;
    } else {
      a := CollectedFrom(front, c);
    }
  }

  /** Explain suggests exactly the commands of the candidates of its assignments. */
  lemma SuggestedIff(runId: string, assignments: seq<Assignment>, command: Command)
    ensures command in ExplainSuggestions(runId, assignments) <==>
              exists a :: a in assignments && CandidateOf(a).Some? && command in CommandsFor(runId, CandidateOf(a).value)
  {
    var emit := (c: RetryCandidate) => CommandsFor(runId, c);
    var all := CollectCandidates(assignments);
    if command in ExplainSuggestions(runId, assignments) {
      var c := FlatMapOrigin(all, emit, command);
      var a := CollectedFrom(assignments, c);
    }
    forall a | a in assignments && CandidateOf(a).Some? && command in CommandsFor(runId, CandidateOf(a).value)
      ensures command in ExplainSuggestions(runId, assignments)
    {
      CandidateCollected(assignments, a);
      FlatMapIncludes(all, emit, CandidateOf(a).value, command);
    }
  }

  /** A failed or blocked assignment is listed, with or without a bridge failure. */
  predicate IsListed(a: Assignment) {
    a.status == Failed || a.status == Blocked
  }

  /** The commands of a listed assignment, from its own fields. */
  ghost predicate ListedWith(runId: string, a: Assignment, command: Command) {
    if MayRetry(a) then command == RetryCommand(runId, a.id)
    else exists x :: x in a.allowedAdapters && IsOffRoute(a, x) && command == RerouteCommand(runId, a.id, x)
  }

  lemma CommandsForIff(runId: string, a: Assignment, command: Command)
    ensures CandidateOf(a).Some? <==> IsListed(a)
    ensures IsListed(a) ==> (command in CommandsFor(runId, CandidateOf(a).value) <==> ListedWith(runId, a, command))
  {
    MayRetryIff(a);
    forall x ensures x in RerouteCandidates(a) <==> x in a.allowedAdapters && IsOffRoute(a, x) {
      CandidatesExact(a, x);
    }
    hide RerouteCandidates, MayRetry, IsOffRoute, BlockedReason, CountRetryRequests;
    if IsListed(a) {
      var c := CandidateOf(a).value;
      assert c.candidates == RerouteCandidates(a) && c.id == a.id;
      assert c.retryAllowed <==> RetryAllowed(a) == Some(true);
    }
  }

  /** The suggested commands, from the assignments alone: the retry of a listed assignment that may be
      retried, and of every other listed one a reroute to each approved adapter off its routes. */
  lemma SuggestedForIff(runId: string, assignments: seq<Assignment>, command: Command)
    ensures command in ExplainSuggestions(runId, assignments) <==>
              exists a :: a in assignments && IsListed(a) && ListedWith(runId, a, command)
  {
    hide *;
    SuggestedIff(runId, assignments, command);
    forall a ensures CandidateOf(a).Some? && command in CommandsFor(runId, CandidateOf(a).value)
                     <==> IsListed(a) && ListedWith(runId, a, command)
    {
      CommandsForIff(runId, a, command);
    }
  }

  // ----- the three surfaces -----

  /** How explain presents an assignment, in the doctor's terms. */
  function ExplainVerdict(a: Assignment): Option<Verdict> {
    var c := CandidateOf(a);
    if c.None? then None
    else if c.value.retryAllowed then Some(Degraded)
    else if c.value.candidates != [] then Some(Reroutable)
    else Some(Exhausted)
  }

  /** For an assignment with a recorded bridge failure, doctor and explain agree exactly when it is
      failed and has no blocking reason. */
  lemma DoctorAgreesWithExplainIff(a: Assignment)
    requires Failure(a).Some?
    ensures ExplainVerdict(a) == Some(Diagnose(HealthOf(a))) <==> a.status == Failed && a.blockingReason == None
  {
  }

  predicate Recovers(c: Command) {
    c.RetryCommand? || c.RerouteCommand?
  }

  /** A recovery command that onboarding derives from an assignment is one explain lists for it
      exactly when the assignment is failed. */
  lemma AdviceExplainedIff(runId: string, a: Assignment)
    requires Advice(runId, HealthOf(a)).Some? && Recovers(Advice(runId, HealthOf(a)).value)
    ensures Failure(a).Some?
    ensures CandidateOf(a).Some? && Advice(runId, HealthOf(a)).value in CommandsFor(runId, CandidateOf(a).value)
            <==> a.status == Failed
  {
    var h := HealthOf(a);
    if a.status == Failed && h.retryAllowed != Some(true) {
      var commands := CommandsFor(runId, CandidateOf(a).value);
      assert commands[0] == RerouteCommand(runId, a.id, h.candidates[0]);
    }
  }

  lemma {:induction false} EntryFrom(assignments: seq<Assignment>, e: HealthEntry) returns (a: Assignment)
    requires e in DeriveEntries(assignments)
    ensures a in assignments && HealthOf(a) == e
  {
    var front, last := assignments[..|assignments| - 1], assignments[|assignments| - 1];
    assert assignments == front + [last];
    if RouteRelevant(last) && HealthOf(last) == e {
      a := last;
    } else {
      a := EntryFrom(front, e);
    }
  }

  /** Every retry or reroute command onboarding suggests comes from one of the assignments. */
  lemma OnboardingCommandFrom(runId: string, assignments: seq<Assignment>, command: Command) returns (a: Assignment)
    requires command in OnboardingCommands(runId, assignments) && Recovers(command)
    ensures a in assignments && Advice(runId, HealthOf(a)) == Some(command)
  {
    var entries := DeriveEntries(assignments);
    CollectBounds(runId, entries, []);
    var e :| e in entries && Advice(runId, e) == Some(command);
    a := EntryFrom(assignments, e);
  }

  ghost predicate DistinctAssignments(assignments: seq<Assignment>) {
    forall a, b :: a in assignments && b in assignments && a.id == b.id ==> a == b
  }

  function AssignmentOf(command: Command): string
    requires Recovers(command)
  {
    command.assignmentId
  }

  /** Over a whole report: a retry or reroute command that onboarding derives from a failed assignment is
      also suggested by explain; with distinct ids only those are. */
  lemma OnboardingWithinExplainIff(runId: string, assignments: seq<Assignment>, command: Command)
    requires command in OnboardingCommands(runId, assignments) && Recovers(command)
    ensures (exists a :: a in assignments && a.status == Failed && Advice(runId, HealthOf(a)) == Some(command))
            ==> command in ExplainSuggestions(runId, assignments)
    ensures DistinctAssignments(assignments) ==>
              (command in ExplainSuggestions(runId, assignments)
               <==> exists a :: a in assignments && a.id == AssignmentOf(command) && a.status == Failed)
  {
    hide ExplainSuggestions, OnboardingCommands, Advice, HealthOf, CandidateOf, CommandsFor, AssignmentOf, Failure,
      Recovers;
    var a := OnboardingCommandFrom(runId, assignments, command);
    AdviceExplainedIff(runId, a);
    SuggestedIff(runId, assignments, command);
    AdviceNames(runId, a, command);
    forall b | b in assignments && b.status == Failed && Advice(runId, HealthOf(b)) == Some(command)
      ensures command in ExplainSuggestions(runId, assignments)
    {
      AdviceExplainedIff(runId, b);
    }
    forall b | b in assignments && CandidateOf(b).Some? && command in CommandsFor(runId, CandidateOf(b).value)
      ensures b.id == a.id
    {
      CommandNames(runId, b, command);
    }
  }

  lemma AdviceNames(runId: string, a: Assignment, command: Command)
    requires Advice(runId, HealthOf(a)) == Some(command) && Recovers(command)
    ensures AssignmentOf(command) == a.id
  {
  }

  lemma CommandNames(runId: string, a: Assignment, command: Command)
    requires CandidateOf(a).Some? && command in CommandsFor(runId, CandidateOf(a).value)
    ensures Recovers(command) && AssignmentOf(command) == a.id
  {
  }

  // ----- the headline of a failed run -----

  predicate KnownFailureReason(reason: string) {
    || reason == "configuration_error" || reason == "network_error" || reason == "network_timeout"
    || reason == "http_error" || reason == "invalid_response" || reason == "policy_blocked"
  }

  datatype Headline = SafeRetry | RerouteFirst | BudgetExhausted | FixFailureFirst | NeedsOperator

  function FailedRunHeadline(candidates: seq<RetryCandidate>): Headline {
    if exists c :: c in candidates && c.retryAllowed then SafeRetry
    else if exists c :: c in candidates && c.retryable && !c.retryAllowed && c.candidates != [] && KnownFailureReason(c.reason)
    then RerouteFirst
    else if exists c :: c in candidates && c.retryable && !c.retryAllowed && KnownFailureReason(c.reason)
    then BudgetExhausted
    else if exists c :: c in candidates && !c.retryable && KnownFailureReason(c.reason) then FixFailureFirst
    else NeedsOperator
  }

  function ReasonOf(a: Assignment): string {
    if Failure(a).Some? then Failure(a).value.reason else BlockedReason(a)
  }

  predicate Retryable(a: Assignment) {
    Failure(a).Some? && Failure(a).value.retryable
  }

  lemma CandidateFields(a: Assignment)
    ensures CandidateOf(a).Some? <==> IsListed(a)
    ensures IsListed(a) ==>
              var c := CandidateOf(a).value;
              && c.reason == ReasonOf(a) && (c.retryable <==> Retryable(a)) && (c.retryAllowed <==> MayRetry(a))
              && (c.candidates != [] <==> exists x :: x in a.allowedAdapters && IsOffRoute(a, x))
  {
    MayRetryIff(a);
    CandidatesIff(a);
    hide RerouteCandidates, IsOffRoute, BlockedReason, CountRetryRequests, RecoveryOf;
  }

  /** The headline of a failed run, from its assignments alone. */
  lemma HeadlineIff(assignments: seq<Assignment>)
    ensures var retry := exists a :: a in assignments && IsListed(a) && MayRetry(a);
            var reroute := exists a :: a in assignments && IsListed(a) && Retryable(a) && !MayRetry(a)
                                       && KnownFailureReason(ReasonOf(a))
                                       && exists x :: x in a.allowedAdapters && IsOffRoute(a, x);
            var spent := exists a :: a in assignments && IsListed(a) && Retryable(a) && !MayRetry(a)
                                     && KnownFailureReason(ReasonOf(a));
            var fix := exists a :: a in assignments && IsListed(a) && !Retryable(a) && KnownFailureReason(ReasonOf(a));
            FailedRunHeadline(CollectCandidates(assignments))
            == if retry then SafeRetry
               else if reroute then RerouteFirst
               else if spent then BudgetExhausted
               else if fix then FixFailureFirst
               else NeedsOperator
  {
    var all := CollectCandidates(assignments);
    hide CollectCandidates, CandidateOf, MayRetry, Retryable, ReasonOf, KnownFailureReason, IsListed, IsOffRoute;
    forall a | a in assignments && IsListed(a) ensures CandidateOf(a).Some? && CandidateOf(a).value in all {
      CandidateFields(a);
      CandidateCollected(assignments, a);
    }
    forall a ensures IsListed(a) ==>
                       CandidateOf(a).Some?
                       && var c := CandidateOf(a).value;
                       && c.reason == ReasonOf(a) && (c.retryable <==> Retryable(a)) && (c.retryAllowed <==> MayRetry(a))
                       && (c.candidates != [] <==> exists x :: x in a.allowedAdapters && IsOffRoute(a, x))
    {
      CandidateFields(a);
    }
    forall c | c in all ensures exists a :: a in assignments && IsListed(a) && CandidateOf(a) == Some(c) {
      var a := CollectedFrom(assignments, c);
      CandidateFields(a);
    }
  }

  /** The headline of a failed run is backed by the commands below it: a safe retry is announced
      exactly when a retry command is listed, and a reroute only when one is. */
  lemma HeadlineBackedByCommands(runId: string, assignments: seq<Assignment>)
    ensures var headline, listed := FailedRunHeadline(CollectCandidates(assignments)), ExplainSuggestions(runId, assignments);
            && (headline == SafeRetry <==> exists c :: c in listed && c.RetryCommand?)
            && (headline == RerouteFirst ==> exists c :: c in listed && c.RerouteCommand?)
  {
    var all, emit := CollectCandidates(assignments), (c: RetryCandidate) => CommandsFor(runId, c);
    forall c | c in all && c.retryAllowed ensures RetryCommand(runId, c.id) in ExplainSuggestions(runId, assignments) {
      FlatMapIncludes(all, emit, c, RetryCommand(runId, c.id));
    }
    forall command | command in ExplainSuggestions(runId, assignments) && command.RetryCommand?
      ensures exists c :: c in all && c.retryAllowed
    {
      var c := FlatMapOrigin(all, emit, command);
    }
    forall c | c in all && !c.retryAllowed && c.candidates != []
      ensures RerouteCommand(runId, c.id, c.candidates[0]) in ExplainSuggestions(runId, assignments)
    {
      assert CommandsFor(runId, c)[0] == RerouteCommand(runId, c.id, c.candidates[0]);
      FlatMapIncludes(all, emit, c, RerouteCommand(runId, c.id, c.candidates[0]));
    }
  }
}
