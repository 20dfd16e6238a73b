/** The execution service's retry and reroute operations on one assignment, and what holds over whole
    lives of an assignment: the retry budget, and the agreement of the operator surfaces with what
    the service accepts. */
module ExecutionService {
  import opened Options
  import opened Sequences
  import opened Text
  import opened NoteLog
  import opened RouteHealth
  import opened RunExplain

  datatype RunStatus = RunCreated | RunRunning | RunPaused | RunCompleted | RunFailed | RunAborted

  predicate RunOpen(run: RunStatus) {
    run != RunCreated && run != RunCompleted && run != RunAborted
  }

  predicate Recoverable(status: Status) {
    status == Failed || status == Aborted || status == Blocked || status == Skipped
  }

  // ----- the service's own routes: the result adapter comes first -----

  function ServiceRoute(a: Assignment): Option<string> {
    var selected, result := Nullish(a.selectedAdapter), Nullish(ResultAdapter(a));
    if selected.Some? && result.Some? && selected != result && HasPendingReroute(a.notes)
    then selected
    else OrElse(result, selected)
  }

  function ServiceCandidates(a: Assignment): seq<string> {
    DedupeStrings(Filter(a.allowedAdapters, OffRoute(ServiceRoute(a), Nullish(ResultAdapter(a)))))
  }

  // ----- operations -----

  predicate AcceptsRetry(run: RunStatus, a: Assignment) {
    RunOpen(run) && Recoverable(a.status) && RetryAllowed(a) != Some(false)
  }

  predicate AcceptsReroute(run: RunStatus, a: Assignment, adapter: string) {
    var next := Trim(adapter);
    && RunOpen(run) && Recoverable(a.status)
    && next != "" && next in a.allowedAdapters && ServiceRoute(a) != Some(next)
    && ServiceCandidates(a) != []
  }

  function Retried(a: Assignment, at: string, ready: bool): Assignment {
    a.(status := if ready then Ready else Pending, result := None, blockingReason := None,
       notes := WithNote(a.notes, RetryNote(at)))
  }

  function RouteName(route: Option<string>): string {
    if route.Some? then route.value else "none"
  }

  function Rerouted(a: Assignment, adapter: string, at: string): Assignment {
    a.(selectedAdapter := Value(Trim(adapter)),
       notes := WithNote(a.notes, RerouteNote(RouteName(ServiceRoute(a)), Trim(adapter), at)))
  }

  function CompletedWith(a: Assignment, result: AssignmentResult): Assignment {
    a.(status := result.status,
       selectedAdapter := if result.adapterId.Value? then result.adapterId
                          else if a.selectedAdapter.Value? then a.selectedAdapter else Null,
       result := Some(result),
       notes := DedupeStrings(a.notes + result.notes))
  }

  /** What the service retries: on a run that has started and not ended well or been aborted, an assignment
      that stopped or is blocked, without a bridge failure or with one that may be retried. */
  lemma AcceptsRetryIff(run: RunStatus, a: Assignment)
    ensures AcceptsRetry(run, a) <==>
              && (run == RunRunning || run == RunPaused || run == RunFailed)
              && (a.status == Failed || a.status == Aborted || a.status == Blocked || a.status == Skipped)
              && (Failure(a).None? || MayRetry(a))
  {
    MayRetryIff(a);
    hide MayRetry, RetryAllowed;
    if RetryAllowed(a).Some? {
      var allowed := RetryAllowed(a).value;
      assert if allowed then RetryAllowed(a) == Some(true) else RetryAllowed(a) == Some(false);
    }
  }

  /** What the service reroutes to: an approved adapter off its route, when some approved adapter is also off
      the adapter of the last result. */
  lemma AcceptsRerouteIff(run: RunStatus, a: Assignment, adapter: string)
    ensures AcceptsReroute(run, a, adapter) <==>
              && (run == RunRunning || run == RunPaused || run == RunFailed)
              && (a.status == Failed || a.status == Aborted || a.status == Blocked || a.status == Skipped)
              && Trim(adapter) != "" && Trim(adapter) in a.allowedAdapters && Some(Trim(adapter)) != ServiceRoute(a)
              && exists x :: x in a.allowedAdapters && x != "" && Some(x) != ServiceRoute(a)
                             && (a.result.Some? && a.result.value.adapterId.Value? ==> x != a.result.value.adapterId.text)
  {
    ServiceCandidatesIff(a);
    hide Trim, ServiceRoute, ServiceCandidates;
  }

  lemma ServiceCandidatesIff(a: Assignment)
    ensures ServiceCandidates(a) != [] <==>
              exists x :: x in a.allowedAdapters && x != "" && Some(x) != ServiceRoute(a)
                          && (a.result.Some? && a.result.value.adapterId.Value? ==> x != a.result.value.adapterId.text)
  {
    var route, last := ServiceRoute(a), Nullish(ResultAdapter(a));
    hide ServiceRoute;
    var kept := Filter(Filter(a.allowedAdapters, OffRoute(route, last)), NonEmpty());
    assert ServiceCandidates(a) == Unique(kept);
    assert kept != [] ==> kept[0] in kept && kept[0] in Unique(kept);
    assert Unique(kept) != [] ==> Unique(kept)[0] in kept;
    hide Filter, Unique, ServiceCandidates;
    if x :| x in a.allowedAdapters && x != "" && Some(x) != route
            && (a.result.Some? && a.result.value.adapterId.Value? ==> x != a.result.value.adapterId.text) {
      assert x in kept;
    }
  }

  // ----- what the surfaces suggest is what the service accepts -----

  /** The service trims the adapter it is asked for; what is left must be an approved adapter off its own
      route. */
  predicate ReadsAsRoute(a: Assignment, adapter: string) {
    Trim(adapter) != "" && Trim(adapter) in a.allowedAdapters && ServiceRoute(a) != Some(Trim(adapter))
  }

  lemma CandidateIsServiceCandidate(a: Assignment, adapter: string)
    requires adapter in RerouteCandidates(a)
    ensures adapter in ServiceCandidates(a)
  {
    CandidatesExact(a, adapter);
    assert adapter in Filter(a.allowedAdapters, OffRoute(ServiceRoute(a), Nullish(ResultAdapter(a))));
  }

  /** A candidate the surfaces offer is one the service reroutes to exactly when it still reads as a route
      once it is trimmed. */
  lemma CandidateAcceptedIff(run: RunStatus, a: Assignment, adapter: string)
    requires RunOpen(run) && Recoverable(a.status) && adapter in RerouteCandidates(a)
    ensures AcceptsReroute(run, a, adapter) <==> ReadsAsRoute(a, adapter)
  {
    CandidateIsServiceCandidate(a, adapter);
    hide ServiceRoute, ServiceCandidates, Trim, RerouteCandidates;
  }

  /** An adapter id without white space at its ends always does. */
  lemma TrimmedCandidateReads(a: Assignment, adapter: string)
    requires adapter in RerouteCandidates(a) && Trimmed(adapter)
    ensures ReadsAsRoute(a, adapter)
  {
    CandidatesExact(a, adapter);
    TrimOfTrimmed(adapter);
  }

  /** An assignment that failed before any result, with two approved adapters. */
  function FailedOn(id: string, from: string, other: string): Assignment {
    Assignment(id, Failed, Value(from), [from, other], None, [], None)
  }

  lemma UntrimmedOffered(id: string, from: string, other: string)
    requires other != "" && other != from && Trim(other) != other && Trim(other) != from
    ensures var a := FailedOn(id, from, other);
            other in RerouteCandidates(a) && !AcceptsReroute(RunRunning, a, other)
  {
    hide Trim, RerouteCandidates, HasPendingReroute, AcceptsReroute;
    var a := FailedOn(id, from, other);
    assert a.allowedAdapters[1] == other;
    assert ConfiguredRoute(a) == Some(from) && LastBridgeRoute(a) == None;
    CandidatesExact(a, other);
    CandidateAcceptedIff(RunRunning, a, other);
  }

  /** The surfaces offer " b", and the service, which reads "b", rejects it. */
  lemma UntrimmedCandidateRejected()
    ensures var a := FailedOn("x", "a", " b");
            " b" in RerouteCandidates(a) && !AcceptsReroute(RunRunning, a, " b")
  {
    assert " b"[1..] == "b" && Trim(" b") == "b";
    assert |"a"| == |"b"| == 1 && |" b"| == 2 && "a"[0] != "b"[0];
    hide *;
    UntrimmedOffered("x", "a", " b");
  }

  /** A command the service would carry out on the assignment. */
  predicate Accepts(run: RunStatus, a: Assignment, command: Command) {
    match command
    case RetryCommand(_, id) => id == a.id && AcceptsRetry(run, a)
    case RerouteCommand(_, id, adapter) => id == a.id && AcceptsReroute(run, a, adapter)
    case RunOnce(_) => false
    case ExplainCommand(_) => false
  }

  /** A command explain lists is one the service accepts, on a run that is open, but for a reroute to an
      adapter that no longer reads as a route once it is trimmed. */
  lemma ExplainedCommandsAcceptedIff(run: RunStatus, runId: string, a: Assignment, command: Command)
    requires RunOpen(run)
    requires CandidateOf(a).Some? && command in CommandsFor(runId, CandidateOf(a).value)
    ensures Accepts(run, a, command) <==> (command.RerouteCommand? ==> ReadsAsRoute(a, command.adapterId))
  {
    if command.RerouteCommand? {
      CandidateAcceptedIff(run, a, command.adapterId);
    }
  }

  /** For an explained assignment the service accepts a retry exactly when explain lists one or no
      bridge failure is recorded; in the latter case explain says "not allowed" and the service
      retries all the same. */
  lemma RetryAcceptedIff(run: RunStatus, runId: string, a: Assignment)
    requires RunOpen(run) && CandidateOf(a).Some?
    ensures AcceptsRetry(run, a)
            <==> RetryCommand(runId, a.id) in CommandsFor(runId, CandidateOf(a).value) || Failure(a) == None
  {
    if CandidateOf(a).value.retryAllowed {
      assert CommandsFor(runId, CandidateOf(a).value)[0] == RetryCommand(runId, a.id);
    }
  }

  // ----- the effect of a reroute as the surfaces see it -----

  lemma AllowedFailureIsDegraded(a: Assignment)
    requires a.status == Failed && a.blockingReason == None
    requires Failure(a).Some? && RetryAllowed(a) == Some(true)
    ensures Diagnose(HealthOf(a)) == Degraded
  {
    hide CountRetryRequests, HasPendingReroute, RerouteCandidates, LastRerouteSource;
  }

  /** The note a reroute writes. */
  function RerouteNoteOf(a: Assignment, adapter: string, at: string): string {
    RerouteNote(RouteName(ServiceRoute(a)), Trim(adapter), at)
  }

  lemma RerouteLogged(a: Assignment, adapter: string, at: string)
    requires CleanLog(a.notes)
    ensures var notes := Rerouted(a, adapter, at).notes;
            && CleanLog(notes)
            && RecoveryOf(notes)
               == (if RerouteNoteOf(a, adapter, at) in a.notes then RecoveryOf(a.notes) else Recovery(0, true))
            && RecoveryOf(notes) == Recovery(CountRetryRequests(notes), HasPendingReroute(notes))
  {
    hide ServiceRoute, RerouteNote, HasPendingReroute, CountRetryRequests, RouteName, Trim;
    var from, to := RouteName(ServiceRoute(a)), Trim(adapter);
    var note := RerouteNote(from, to, at);
    NotePrefixes(from, to, at);
    WithNoteOnClean(a.notes, note);
    RecoveryAppend(a.notes, note);
    ScansRefineMachine(WithNote(a.notes, note));
  }

  lemma ReroutedRoutes(a: Assignment, adapter: string, at: string)
    ensures var a', last := Rerouted(a, adapter, at), Nullish(ResultAdapter(a));
            && ConfiguredRoute(a') == Some(Trim(adapter))
            && (ServiceRoute(a') == Some(Trim(adapter)) <==>
                  HasPendingReroute(a'.notes) || last == None || last == Some(Trim(adapter)))
  {
    hide HasPendingReroute, RerouteNote, RouteName, Trim, WithNote;
  }

  lemma ReroutedBudget(a: Assignment, adapter: string, at: string)
    ensures var a' := Rerouted(a, adapter, at);
            && Failure(a') == Failure(a)
            && (Failure(a).Some? ==>
                  RetryAllowed(a') == Some(Failure(a).value.retryable && CountRetryRequests(a'.notes) == 0))
            && (RetryAllowed(a') == Some(true) && a.status == Failed && a.blockingReason == None ==>
                  Diagnose(HealthOf(a')) == Degraded)
  {
    hide CountRetryRequests, RerouteNote, WithNote, Trim, RouteName, ServiceRoute, Diagnose, HealthOf;
    var a' := Rerouted(a, adapter, at);
    assert Failure(a') == Failure(a);
    if RetryAllowed(a') == Some(true) && a.status == Failed && a.blockingReason == None {
      AllowedFailureIsDegraded(a');
    }
  }

  /** What an accepted reroute does. The surfaces show the new route at once. A new note resets the
      budget; a note that is already in the log leaves the recovery state as it was. The service agrees on
      the new route exactly when a reroute is pending or the last result names no other adapter. A retry
      is allowed exactly for a retryable failure with no retry counted, and such a failure is degraded. */
  lemma RerouteRefreshesBudget(run: RunStatus, a: Assignment, adapter: string, at: string)
    requires AcceptsReroute(run, a, adapter) && CleanLog(a.notes)
    ensures var a', last := Rerouted(a, adapter, at), Nullish(ResultAdapter(a));
            && CleanLog(a'.notes)
            && RecoveryOf(a'.notes)
               == (if RerouteNoteOf(a, adapter, at) in a.notes then RecoveryOf(a.notes) else Recovery(0, true))
            && ConfiguredRoute(a') == Some(Trim(adapter))
            && (ServiceRoute(a') == ConfiguredRoute(a') <==>
                  RecoveryOf(a'.notes).reroutePending || last == None || last == Some(Trim(adapter)))
            && (Failure(a).Some? ==>
                  RetryAllowed(a') == Some(Failure(a).value.retryable && RecoveryOf(a'.notes).retriesUsed == 0))
            && (RetryAllowed(a') == Some(true) && a.status == Failed && a.blockingReason == None ==>
                  Diagnose(HealthOf(a')) == Degraded)
  {
    hide *;
    RerouteLogged(a, adapter, at);
    ReroutedRoutes(a, adapter, at);
    ReroutedBudget(a, adapter, at);
  }

  /** The service and the surfaces name the same route exactly unless selected adapter and result name two
      adapters and no reroute is pending. */
  lemma RoutesAgreeIff(a: Assignment)
    ensures ServiceRoute(a) == ConfiguredRoute(a)
            <==> (a.selectedAdapter.Value? && a.result.Some? && a.result.value.adapterId.Value?
                  && a.selectedAdapter.text != a.result.value.adapterId.text
                  ==> RecoveryOf(a.notes).reroutePending)
  {
    ScansRefineMachine(a.notes);
    hide HasPendingReroute, RecoveryOf;
  }

  /** What an accepted retry does: nothing of the last result, no failure and no reason remain; the doctor
      then finds the assignment healthy, or on its way when the adapter it now has is not the one the newest
      reroute note names as its source. */
  lemma RetriedDiagnosis(run: RunStatus, a: Assignment, at: string, ready: bool)
    requires AcceptsRetry(run, a)
    ensures var a' := Retried(a, at, ready);
            && (a'.status == Ready || a'.status == Pending) && (a'.status == Ready <==> ready)
            && a'.id == a.id && a'.selectedAdapter == a.selectedAdapter && a'.allowedAdapters == a.allowedAdapters
            && Failure(a').None? && RetryAllowed(a') == None && !IsBlocked(a')
            && Diagnose(HealthOf(a'))
               == (if a.selectedAdapter.Value? && LastRerouteSource(a'.notes).Some?
                      && Some(a.selectedAdapter.text) != LastRerouteSource(a'.notes)
                   then Degraded else Healthy)
  {
    var a' := Retried(a, at, ready);
    ConfiguredRouteIs(a');
    DiagnosisIff(a');
    assert LastBridgeRoute(a') == LastRerouteSource(a'.notes);
    hide Diagnose, HealthOf, LastRerouteSource, WithNote, RetryNote, ConfiguredRoute, LastBridgeRoute, MayRetry;
  }

  // ----- lives of an assignment -----

  datatype Op =
    | Retry(at: string, ready: bool)
    | Reroute(adapter: string, at: string)
    | Claim
    | Complete(result: AssignmentResult)
    // approve, advance, block, reopen, skip, time out, abort
    | Administer(status: Status, outcome: Option<AssignmentResult>, reason: Option<string>, note: Option<string>)

  predicate Plain(note: string) {
    !IsRetry(note) && !IsReroute(note)
  }

  predicate Live(status: Status) {
    status == Pending || status == Ready || status == Blocked || status == Running
  }

  /** What the service checks before each operation. */
  predicate Enabled(a: Assignment, op: Op) {
    match op
    case Retry(_, _) => AcceptsRetry(RunRunning, a)
    case Reroute(adapter, _) => AcceptsReroute(RunRunning, a, adapter)
    case Claim => a.status == Ready
    case Complete(_) => a.status == Running
    case Administer(_, _, _, _) => Live(a.status)
  }

  /** Executors report a bridge failure with status failed, and no one but the operator's commands
      writes notes with the two prefixes. */
  predicate WellBehaved(op: Op) {
    match op
    case Complete(result) =>
      && !Live(result.status)
      && (result.bridge.Some? && result.bridge.value.failure.Some? ==> result.status == Failed)
      && forall note :: note in result.notes ==> Plain(note)
    case Administer(status, outcome, reason, note) =>
      && (outcome.Some? ==> outcome.value.status == status && !Live(status) && outcome.value.bridge == None)
      && (reason.Some? ==> status == Blocked || status == Aborted)
      && (note.Some? ==> note.value != "" && Plain(note.value))
    case _ => true
  }

  function Apply(a: Assignment, op: Op): Assignment {
    match op
    case Retry(at, ready) => Retried(a, at, ready)
    case Reroute(adapter, at) => Rerouted(a, adapter, at)
    case Claim => a.(status := Running)
    case Complete(result) => CompletedWith(a, result)
    case Administer(status, outcome, reason, note) =>
      a.(status := status, result := outcome, blockingReason := reason,
         notes := if note.Some? then WithNote(a.notes, note.value) else a.notes)
  }

  /** Nothing is asked of executors but to leave the two prefixes to the operator's commands. */
  predicate PlainNotes(op: Op) {
    match op
    case Complete(result) => forall note :: note in result.notes ==> Plain(note)
    case Administer(_, _, _, note) => note.Some? ==> Plain(note.value)
    case _ => true
  }

  ghost predicate LifeOfNotes(a: Assignment, ops: seq<Op>)
    decreases |ops|
  {
    ops != [] ==>
      && Enabled(a, ops[0]) && PlainNotes(ops[0])
      && LifeOfNotes(Apply(a, ops[0]), ops[1..])
  }

  ghost predicate LifeAllowed(a: Assignment, ops: seq<Op>)
    decreases |ops|
  {
    ops != [] ==>
      && Enabled(a, ops[0]) && WellBehaved(ops[0])
      && LifeAllowed(Apply(a, ops[0]), ops[1..])
  }

  function Life(a: Assignment, ops: seq<Op>): Assignment
    decreases |ops|
  {
    if ops == [] then a else Life(Apply(a, ops[0]), ops[1..])
  }

  /** Holds of every assignment as built and after every operation. */
  ghost predicate Sound(a: Assignment) {
    && CleanLog(a.notes)
    && (a.result.Some? ==> a.status == a.result.value.status && !Live(a.status))
    && (Failure(a).Some? ==> a.status == Failed)
    && (a.blockingReason.Some? ==> a.status == Blocked || a.status == Aborted)
  }

  lemma {:induction false} PlainNotesKeepRecovery(notes: seq<string>, extra: seq<string>)
    requires CleanLog(notes) && forall note :: note in extra ==> Plain(note)
    ensures RecoveryOf(DedupeStrings(notes + extra)) == RecoveryOf(notes)
  {
    hide RecoveryOf, Filter, Unique;
    if extra == [] {
      assert notes + extra == notes;
      DedupeOfClean(notes);
    } else {
      var front, last := extra[..|extra| - 1], extra[|extra| - 1];
      PlainNotesKeepRecovery(notes, front);
      assert notes + extra == (notes + front) + [last];
      FilterLast(notes + front, last, NonEmpty());
      var kept := Filter(notes + front, NonEmpty());
      assert kept + [] == kept;
      UniqueLast(kept, last);
      RecoveryAppend(Unique(kept), last);
    }
  }

  lemma StepStaysSound(a: Assignment, op: Op)
    requires Sound(a) && Enabled(a, op) && WellBehaved(op)
    ensures Sound(Apply(a, op))
  {
    match op
    case Retry(at, _) => DedupeIsClean(a.notes + [RetryNote(at)]);
    case Reroute(adapter, at) => DedupeIsClean(a.notes + [RerouteNoteOf(a, adapter, at)]);
    case Claim =>
    case Complete(result) => DedupeIsClean(a.notes + result.notes);
    case Administer(_, _, _, note) => if note.Some? { DedupeIsClean(a.notes + [note.value]); }
  }

  lemma {:induction false} LifeStaysSound(a: Assignment, ops: seq<Op>)
    requires Sound(a) && LifeAllowed(a, ops)
    ensures Sound(Life(a, ops))
    decreases |ops|
  {
    if ops != [] {
      StepStaysSound(a, ops[0]);
      LifeStaysSound(Apply(a, ops[0]), ops[1..]);
    }
  }

  // ----- the retry budget -----

  /** Retries taken while a bridge failure was recorded, retries of anything else, and reroutes. */
  datatype Tally = Tally(gated: nat, ungated: nat, reroutes: nat)

  function Counted(a: Assignment, op: Op): Tally {
    match op
    case Retry(_, _) => if Failure(a).Some? then Tally(1, 0, 0) else Tally(0, 1, 0)
    case Reroute(_, _) => Tally(0, 0, 1)
    case _ => Tally(0, 0, 0)
  }

  function TallyOf(a: Assignment, ops: seq<Op>): Tally
    decreases |ops|
  {
    if ops == [] then Tally(0, 0, 0)
    else
      var first, rest := Counted(a, ops[0]), TallyOf(Apply(a, ops[0]), ops[1..]);
      Tally(first.gated + rest.gated, first.ungated + rest.ungated, first.reroutes + rest.reroutes)
  }

  /** The note of the operation is in the log already, so that it leaves no trace there. */
  predicate Repeated(a: Assignment, op: Op) {
    match op
    case Retry(at, _) => RetryNote(at) in a.notes
    case Reroute(adapter, at) => RerouteNoteOf(a, adapter, at) in a.notes
    case _ => false
  }

  /** Retries of bridge failures whose note was in the log already. */
  function Stale(a: Assignment, ops: seq<Op>): nat
    decreases |ops|
  {
    if ops == [] then 0
    else (if ops[0].Retry? && Failure(a).Some? && Repeated(a, ops[0]) then 1 else 0) + Stale(Apply(a, ops[0]), ops[1..])
  }

  lemma StepStaysClean(a: Assignment, op: Op)
    requires CleanLog(a.notes)
    ensures CleanLog(Apply(a, op).notes)
  {
    match op
    case Retry(at, _) => DedupeIsClean(a.notes + [RetryNote(at)]);
    case Reroute(adapter, at) => DedupeIsClean(a.notes + [RerouteNoteOf(a, adapter, at)]);
    case Claim =>
    case Complete(result) => DedupeIsClean(a.notes + result.notes);
    case Administer(_, _, _, note) => if note.Some? { DedupeIsClean(a.notes + [note.value]); }
  }

  /** What one operation does to the state machine in the note log. */
  lemma StepOnRecovery(a: Assignment, op: Op)
    requires CleanLog(a.notes) && Enabled(a, op) && PlainNotes(op)
    ensures var r, r' := RecoveryOf(a.notes), RecoveryOf(Apply(a, op).notes);
            && (Repeated(a, op) ==> r' == r)
            && (!Repeated(a, op) ==>
                  match op
                  case Retry(_, _) => r' == Recovery(r.retriesUsed + 1, false)
                  case Reroute(_, _) => r' == Recovery(0, true)
                  case _ => r' == r)
            && (op.Retry? && Failure(a).Some? ==> r.retriesUsed == 0)
  {
    match op
    case Retry(at, _) =>
      NotePrefixes("", "", at);
      WithNoteOnClean(a.notes, RetryNote(at));
      RecoveryAppend(a.notes, RetryNote(at));
      ScansRefineMachine(a.notes);
    case Reroute(adapter, at) => RerouteRefreshesBudget(RunRunning, a, adapter, at);
    case Claim =>
    case Complete(result) => PlainNotesKeepRecovery(a.notes, result.notes);
    case Administer(_, _, _, note) => if note.Some? { PlainNotesKeepRecovery(a.notes, [note.value]); }
  }

  /** Over every life, whatever executors report: retries of bridge failures never exceed the reroutes plus
      one plus the retries that left no trace, and the count in the log never exceeds one plus the retries
      the budget does not govern. */
  lemma {:induction false} RetryBudget(a: Assignment, ops: seq<Op>)
    requires CleanLog(a.notes) && LifeOfNotes(a, ops)
    ensures var t, spent := TallyOf(a, ops), if RecoveryOf(a.notes).retriesUsed == 0 then 0 else 1;
            t.gated + spent <= t.reroutes + 1 + Stale(a, ops)
    ensures var used := RecoveryOf(a.notes).retriesUsed;
            RecoveryOf(Life(a, ops).notes).retriesUsed <= (if used == 0 then 1 else used) + TallyOf(a, ops).ungated
    decreases |ops|
  {
    if ops != [] {
      StepOnRecovery(a, ops[0]);
      StepStaysClean(a, ops[0]);
      hide CleanLog, RecoveryOf, Enabled, PlainNotes, Apply, Failure;
      RetryBudget(Apply(a, ops[0]), ops[1..]);
    }
  }

  /** The budget per route: from a fresh log, when every retry is of a recorded bridge failure, the log
      never shows more than one retry since the last reroute. */
  lemma OneRetryPerRoute(a: Assignment, ops: seq<Op>)
    requires a.notes == [] && LifeOfNotes(a, ops) && TallyOf(a, ops).ungated == 0
    ensures CountRetryRequests(Life(a, ops).notes) <= RETRY_LIMIT
    ensures TallyOf(a, ops).gated <= TallyOf(a, ops).reroutes + 1 + Stale(a, ops)
  {
    hide CountRetryRequests, HasPendingReroute, LifeOfNotes;
    RetryBudget(a, ops);
    ScansRefineMachine(Life(a, ops).notes);
  }

  // ----- why the bound counts retries that left no trace -----

  lemma LifeCons(a: Assignment, op: Op, rest: seq<Op>)
    ensures LifeAllowed(a, [op] + rest) <==> Enabled(a, op) && WellBehaved(op) && LifeAllowed(Apply(a, op), rest)
    ensures var t, first := TallyOf(Apply(a, op), rest), Counted(a, op);
            TallyOf(a, [op] + rest)
            == Tally(first.gated + t.gated, first.ungated + t.ungated, first.reroutes + t.reroutes)
  {
    hide Enabled, WellBehaved, Apply, Counted;
    assert ([op] + rest)[1..] == rest;
  }

  /** The same retry, n times: retry, claim, fail again. */
  function SameRetry(at: string, result: AssignmentResult, n: nat): seq<Op> {
    if n == 0 then [] else [Retry(at, true)] + ([Claim] + ([Complete(result)] + SameRetry(at, result, n - 1)))
  }

  /** A retryable failure whose budget was reset after a retry with this time. */
  ghost predicate ResetAfter(a: Assignment, at: string) {
    && Sound(a) && Failure(a).Some? && Failure(a).value.retryable && a.blockingReason == None
    && RetryNote(at) in a.notes && CountRetryRequests(a.notes) == 0
  }

  lemma SameRetryLog(notes: seq<string>, at: string)
    requires CleanLog(notes) && RetryNote(at) in notes
    ensures WithNote(notes, RetryNote(at)) == notes && DedupeStrings(notes + []) == notes
  {
    hide RetryNote;
    assert RetryNote(at) != "";
    WithNoteOnClean(notes, RetryNote(at));
    DedupeOfClean(notes);
    assert notes + [] == notes;
  }

  lemma RetakenAllowed(a: Assignment, at: string)
    requires ResetAfter(a, at)
    ensures Enabled(a, Retry(at, true)) && Counted(a, Retry(at, true)) == Tally(1, 0, 0)
  {
    hide CountRetryRequests, RetryNote, CleanLog, AcceptsReroute;
  }

  lemma RetakenNow(a: Assignment, at: string)
    requires ResetAfter(a, at)
    ensures Apply(a, Retry(at, true)) == a.(status := Ready, result := None)
  {
    SameRetryLog(a.notes, at);
    assert a.blockingReason == None;
    hide ResetAfter, Sound, RetryNote, WithNote, CleanLog, DedupeStrings, Rerouted, CompletedWith;
  }

  /** The assignment once the same failure has been reported again. */
  function FailedAgain(a: Assignment, result: AssignmentResult): Assignment {
    Apply(a.(status := Running, result := None), Complete(result))
  }

  lemma FailedAgainFields(a: Assignment, result: AssignmentResult)
    requires DedupeStrings(a.notes + []) == a.notes && result.notes == []
    ensures var again := FailedAgain(a, result);
            && again.notes == a.notes && again.status == result.status && again.result == Some(result)
            && again.blockingReason == a.blockingReason && Bridge(again) == result.bridge
  {
    hide DedupeStrings;
  }

  lemma SameReset(a: Assignment, again: Assignment, at: string)
    requires ResetAfter(a, at)
    requires again.notes == a.notes && again.status == Failed && again.blockingReason == a.blockingReason
    requires again.result.Some? && again.result.value.status == Failed && Bridge(again) == Bridge(a)
    ensures ResetAfter(again, at)
  {
    hide CountRetryRequests, RetryNote, CleanLog;
  }

  lemma FailedAgainResets(a: Assignment, at: string, result: AssignmentResult)
    requires ResetAfter(a, at)
    requires result.status == Failed && result.bridge == Bridge(a) && result.notes == []
    ensures ResetAfter(FailedAgain(a, result), at) && Bridge(FailedAgain(a, result)) == Bridge(a)
  {
    assert CleanLog(a.notes) && RetryNote(at) in a.notes;
    hide *;
    SameRetryLog(a.notes, at);
    FailedAgainFields(a, result);
    SameReset(a, FailedAgain(a, result), at);
  }

  /** One turn of the same retry, on top of any later operations. */
  lemma SameRetryOnce(a: Assignment, at: string, result: AssignmentResult, rest: seq<Op>)
    requires ResetAfter(a, at)
    requires result.status == Failed && result.bridge == Bridge(a) && result.notes == []
    ensures var again := FailedAgain(a, result);
            var ops := [Retry(at, true)] + ([Claim] + ([Complete(result)] + rest));
            && (LifeAllowed(a, ops) <==> LifeAllowed(again, rest))
            && TallyOf(a, ops) == TallyOf(again, rest).(gated := TallyOf(again, rest).gated + 1)
  {
    RetakenAllowed(a, at);
    RetakenNow(a, at);
    var ready, running := a.(status := Ready, result := None), a.(status := Running, result := None);
    assert Apply(ready, Claim) == running && Enabled(ready, Claim) && Enabled(running, Complete(result));
    assert WellBehaved(Retry(at, true)) && WellBehaved(Claim) && WellBehaved(Complete(result));
    assert Counted(ready, Claim) == Counted(running, Complete(result)) == Tally(0, 0, 0);
    assert FailedAgain(a, result) == Apply(running, Complete(result));
    hide *;
    LifeCons(running, Complete(result), rest);
    LifeCons(ready, Claim, [Complete(result)] + rest);
    LifeCons(a, Retry(at, true), [Claim] + ([Complete(result)] + rest));
  }

  lemma SameRetryNext(at: string, result: AssignmentResult, n: nat)
    ensures SameRetry(at, result, n + 1)
            == [Retry(at, true)] + ([Claim] + ([Complete(result)] + SameRetry(at, result, n)))
  {
  }

  /** Retries stamped with one time, taken after a reroute reset the budget, are never charged: any number
      of them is accepted with no further reroute. */
  lemma {:induction false} SameRetryUnbounded(a: Assignment, at: string, result: AssignmentResult, n: nat)
    requires ResetAfter(a, at)
    requires result.status == Failed && result.bridge == Bridge(a) && result.notes == []
    ensures LifeAllowed(a, SameRetry(at, result, n))
    ensures TallyOf(a, SameRetry(at, result, n)) == Tally(n, 0, 0)
    decreases n
  {
    hide *;
    if n == 0 {
      NoRetry(a, at, result);
    } else {
      var again := FailedAgain(a, result);
      SameRetryNext(at, result, n - 1);
      FailedAgainResets(a, at, result);
      SameRetryUnbounded(again, at, result, n - 1);
      SameRetryOnce(a, at, result, SameRetry(at, result, n - 1));
    }
  }

  lemma NoRetry(a: Assignment, at: string, result: AssignmentResult)
    ensures LifeAllowed(a, SameRetry(at, result, 0)) && TallyOf(a, SameRetry(at, result, 0)) == Tally(0, 0, 0)
  {
  }

  /** An assignment whose last result is a retryable bridge failure of one adapter, with another approved. */
  function Job(from: string, other: string, notes: seq<string>): Assignment {
    Assignment("", Failed, Value(from), [from, other], Some(BridgeDown(from)), notes, None)
  }

  function BridgeDown(adapter: string): AssignmentResult {
    AssignmentResult(
      Failed, "", Value(adapter), Some(BridgeExecution(true, Some(BridgeFailure("network_error", true)))), [])
  }

  lemma JobFields(from: string, other: string, notes: seq<string>)
    requires CleanLog(notes)
    ensures var a := Job(from, other, notes);
            && Sound(a) && Failure(a).Some? && Failure(a).value.retryable && Bridge(a) == BridgeDown(from).bridge
            && a.blockingReason == None && a.notes == notes
  {
    hide CleanLog;
  }

  lemma SingleLog(note: string)
    requires note != ""
    ensures CleanLog([]) && CleanLog([note])
    ensures WithNote([], note) == [note] && DedupeStrings([note] + []) == [note]
  {
    hide WithNote, DedupeStrings;
    WithNoteOnClean([], note);
    DedupeOfClean([note]);
    assert [] + [note] == [note] && [note] + [] == [note];
  }

  lemma RetryNoteIsText(at: string)
    ensures RetryNote(at) != ""
  {
    assert |RetryNote(at)| >= |RETRY_PREFIX|;
  }

  lemma FirstLog(at: string)
    ensures CleanLog([]) && CleanLog([RetryNote(at)])
    ensures WithNote([], RetryNote(at)) == [RetryNote(at)] && DedupeStrings([RetryNote(at)] + []) == [RetryNote(at)]
    ensures CountRetryRequests([]) == 0
  {
    hide *;
    RetryNoteIsText(at);
    EmptyLog();
    SingleLog(RetryNote(at));
  }

  lemma FirstRetry(from: string, other: string, at: string)
    ensures var a, op := Job(from, other, []), Retry(at, true);
            && Enabled(a, op) && Counted(a, op) == Tally(1, 0, 0)
            && Apply(a, op) == Job(from, other, [RetryNote(at)]).(status := Ready, result := None)
  {
    FirstLog(at);
    hide RetryNote, CountRetryRequests, WithNote, DedupeStrings, CleanLog, AcceptsReroute, Rerouted, CompletedWith;
  }

  lemma FirstFailure(from: string, other: string, at: string)
    ensures var running, op := Job(from, other, [RetryNote(at)]).(status := Running, result := None),
                               Complete(BridgeDown(from));
            Enabled(running, op) && WellBehaved(op) && Apply(running, op) == Job(from, other, [RetryNote(at)])
  {
    FirstLog(at);
    hide RetryNote, DedupeStrings, WithNote, CountRetryRequests, AcceptsReroute, Rerouted, Retried;
  }

  lemma OtherAccepted(from: string, other: string, notes: seq<string>)
    requires from != other && other != "" && Trimmed(other)
    ensures AcceptsReroute(RunRunning, Job(from, other, notes), other)
  {
    var a := Job(from, other, notes);
    assert a.allowedAdapters[1] == other;
    assert ConfiguredRoute(a) == Some(from) && LastBridgeRoute(a) == Some(from);
    hide Trim, Trimmed, RerouteCandidates, ConfiguredRoute, LastBridgeRoute, AcceptsReroute, ReadsAsRoute;
    CandidatesExact(a, other);
    CandidateAcceptedIff(RunRunning, a, other);
    TrimmedCandidateReads(a, other);
  }

  lemma NewRerouteNote(a: Assignment, adapter: string, at: string, later: string)
    requires a.notes == [RetryNote(at)]
    ensures RerouteNoteOf(a, adapter, later) !in a.notes
    ensures var notes := Rerouted(a, adapter, later).notes;
            RetryNote(at) in notes && CleanLog(notes) && CountRetryRequests(notes) == 0
  {
    var from, to := RouteName(ServiceRoute(a)), Trim(adapter);
    var note := RerouteNoteOf(a, adapter, later);
    NotePrefixes(from, to, later);
    NotePrefixes("", "", at);
    FirstLog(at);
    hide RetryNote, RerouteNote, CountRetryRequests, HasPendingReroute, ServiceRoute, Trim, RouteName;
    RerouteLogged(a, adapter, later);
    WithNoteOnClean([RetryNote(at)], note);
    assert ([RetryNote(at)] + [note])[0] == RetryNote(at);
  }

  /** A retry and then a reroute, both logged: the budget is reset and the retry's note is still there. */
  lemma FirstReroute(from: string, other: string, at: string, later: string)
    requires from != other && other != "" && Trimmed(other)
    ensures var a, op := Job(from, other, [RetryNote(at)]), Reroute(other, later);
            && Enabled(a, op) && Counted(a, op) == Tally(0, 0, 1)
            && ResetAfter(Apply(a, op), at) && Bridge(Apply(a, op)) == BridgeDown(from).bridge
  {
    hide *;
    var a := Job(from, other, [RetryNote(at)]);
    FirstLog(at);
    JobFields(from, other, [RetryNote(at)]);
    OtherAccepted(from, other, [RetryNote(at)]);
    NewRerouteNote(a, other, at, later);
    RerouteOfJob(a, other, later, at);
  }

  lemma RerouteOfJob(a: Assignment, adapter: string, later: string, at: string)
    requires Sound(a) && Failure(a).Some? && Failure(a).value.retryable && a.blockingReason == None
    requires AcceptsReroute(RunRunning, a, adapter)
    requires var notes := Rerouted(a, adapter, later).notes;
             RetryNote(at) in notes && CleanLog(notes) && CountRetryRequests(notes) == 0
    ensures var op := Reroute(adapter, later);
            && Enabled(a, op) && Counted(a, op) == Tally(0, 0, 1)
            && ResetAfter(Apply(a, op), at) && Bridge(Apply(a, op)) == Bridge(a)
  {
    RerouteKeepsResult(a, adapter, later);
    hide RetryNote, CountRetryRequests, CleanLog, WithNote, Rerouted, AcceptsReroute, Retried, CompletedWith;
  }

  lemma RerouteKeepsResult(a: Assignment, adapter: string, at: string)
    ensures var b := Rerouted(a, adapter, at);
            && b.result == a.result && b.status == a.status && b.blockingReason == a.blockingReason
  {
    hide WithNote, RerouteNote, Trim;
  }

  /** From an empty log: a retry, a reroute, and then n retries stamped like the first. */
  function Escape(from: string, other: string, at: string, later: string, n: nat): seq<Op> {
    [Retry(at, true)]
    + ([Claim] + ([Complete(BridgeDown(from))] + ([Reroute(other, later)] + SameRetry(at, BridgeDown(from), n))))
  }

  lemma FirstTurn(from: string, other: string, at: string, rest: seq<Op>)
    ensures var a, b := Job(from, other, []), Job(from, other, [RetryNote(at)]);
            var ops := [Retry(at, true)] + ([Claim] + ([Complete(BridgeDown(from))] + rest));
            && (LifeAllowed(a, ops) <==> LifeAllowed(b, rest))
            && TallyOf(a, ops) == TallyOf(b, rest).(gated := TallyOf(b, rest).gated + 1)
  {
    hide *;
    var ready := Job(from, other, [RetryNote(at)]).(status := Ready, result := None);
    var running := Job(from, other, [RetryNote(at)]).(status := Running, result := None);
    FirstRetry(from, other, at);
    FirstFailure(from, other, at);
    ClaimTurn(ready);
    QuietOps(at, other, running, BridgeDown(from));
    LifeCons(running, Complete(BridgeDown(from)), rest);
    LifeCons(ready, Claim, [Complete(BridgeDown(from))] + rest);
    LifeCons(Job(from, other, []), Retry(at, true), [Claim] + ([Complete(BridgeDown(from))] + rest));
  }

  lemma ClaimTurn(a: Assignment)
    requires a.status == Ready
    ensures Enabled(a, Claim) && WellBehaved(Claim) && Counted(a, Claim) == Tally(0, 0, 0)
    ensures Apply(a, Claim) == a.(status := Running)
  {
  }

  lemma QuietOps(at: string, adapter: string, a: Assignment, result: AssignmentResult)
    ensures WellBehaved(Retry(at, true)) && WellBehaved(Reroute(adapter, at))
    ensures Counted(a, Complete(result)) == Tally(0, 0, 0)
  {
  }

  /** A life from an empty log in which the retries of bridge failures exceed the reroutes by any number. */
  lemma BudgetEscaped(from: string, other: string, at: string, later: string, n: nat)
    requires from != other && other != "" && Trimmed(other)
    ensures var a, ops := Job(from, other, []), Escape(from, other, at, later, n);
            Sound(a) && a.notes == [] && LifeAllowed(a, ops) && TallyOf(a, ops) == Tally(n + 1, 0, 1)
  {
    hide *;
    FirstLog(at);
    JobFields(from, other, []);
    EscapeShape(from, other, at, later, n);
    var b, rest := Job(from, other, [RetryNote(at)]), SameRetry(at, BridgeDown(from), n);
    FirstReroute(from, other, at, later);
    QuietOps(later, other, b, BridgeDown(from));
    SameRetryUnbounded(Apply(b, Reroute(other, later)), at, BridgeDown(from), n);
    LifeCons(b, Reroute(other, later), rest);
    FirstTurn(from, other, at, [Reroute(other, later)] + rest);
  }

  lemma EscapeShape(from: string, other: string, at: string, later: string, n: nat)
    ensures Escape(from, other, at, later, n)
            == [Retry(at, true)]
               + ([Claim] + ([Complete(BridgeDown(from))] + ([Reroute(other, later)] + SameRetry(at, BridgeDown(from), n))))
    ensures Job(from, other, []).notes == []
    ensures BridgeDown(from).status == Failed && BridgeDown(from).notes == []
  {
  }

  // ----- end to end -----

  /** After any life, the three surfaces tell one story about a recorded bridge failure, and whatever
      recovery onboarding suggests is listed by explain, and accepted by the service but for a reroute to an
      adapter that no longer reads as a route once it is trimmed. */
  lemma SurfacesAgreeOverLives(a: Assignment, ops: seq<Op>, runId: string, run: RunStatus)
    requires Sound(a) && LifeAllowed(a, ops) && RunOpen(run)
    ensures var b := Life(a, ops);
            && (Failure(b).Some? ==> ExplainVerdict(b) == Some(Diagnose(HealthOf(b))))
            && (var advice := Advice(runId, HealthOf(b));
                advice.Some? && Recovers(advice.value) ==>
                  && CandidateOf(b).Some?
                  && advice.value in CommandsFor(runId, CandidateOf(b).value)
                  && (Accepts(run, b, advice.value) <==>
                        (advice.value.RerouteCommand? ==> ReadsAsRoute(b, advice.value.adapterId))))
  {
    var b := Life(a, ops);
    LifeStaysSound(a, ops);
    if Failure(b).Some? {
      DoctorAgreesWithExplainIff(b);
    }
    var advice := Advice(runId, HealthOf(b));
    if advice.Some? && Recovers(advice.value) {
      AdviceExplainedIff(runId, b);
      ExplainedCommandsAcceptedIff(run, runId, b, advice.value);
    }
  }
}
