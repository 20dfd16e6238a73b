/** Route health of assignments: configured and last routes, reroute candidates, retry state, the
    doctor's verdicts and the commands onboarding suggests. */
module RouteHealth {
  import opened Options
  import opened Sequences
  import opened NoteLog

  // ----- assignments -----

  /** A field that may be missing, null or a string. */
  datatype Field = Undefined | Null | Value(text: string)

  function Nullish(f: Field): Option<string> {
    if f.Value? then Some(f.text) else None
  }

  function OrElse(a: Option<string>, b: Option<string>): Option<string> {
    if a.Some? then a else b
  }

  datatype Status = Pending | Ready | Blocked | Running | Completed | Failed | Aborted | Skipped

  datatype BridgeFailure = BridgeFailure(reason: string, retryable: bool)

  datatype BridgeExecution = BridgeExecution(accepted: bool, failure: Option<BridgeFailure>)

  datatype AssignmentResult = AssignmentResult(
    status: Status,
    summary: string,
    adapterId: Field,
    bridge: Option<BridgeExecution>,
    notes: seq<string>)

  datatype Assignment = Assignment(
    id: string,
    status: Status,
    selectedAdapter: Field,
    allowedAdapters: seq<string>,
    result: Option<AssignmentResult>,
    notes: seq<string>,
    blockingReason: Option<string>)

  function ResultAdapter(a: Assignment): Field {
    if a.result.Some? then a.result.value.adapterId else Undefined
  }

  function Bridge(a: Assignment): Option<BridgeExecution> {
    if a.result.Some? then a.result.value.bridge else None
  }

  function Failure(a: Assignment): Option<BridgeFailure> {
    if Bridge(a).Some? then Bridge(a).value.failure else None
  }

  // ----- routes -----

  function ConfiguredRoute(a: Assignment): Option<string> {
    var selected, result := Nullish(a.selectedAdapter), Nullish(ResultAdapter(a));
    if selected.Some? && result.Some? && selected != result && HasPendingReroute(a.notes)
    then selected
    else OrElse(selected, result)
  }

  function LastBridgeRoute(a: Assignment): Option<string> {
    if ResultAdapter(a).Value? then Some(ResultAdapter(a).text) else LastRerouteSource(a.notes)
  }

  function OffRoute(configured: Option<string>, last: Option<string>): string -> bool {
    (adapter: string) => Some(adapter) != configured && Some(adapter) != last
  }

  function RerouteCandidates(a: Assignment): seq<string> {
    DedupeStrings(Filter(a.allowedAdapters, OffRoute(ConfiguredRoute(a), LastBridgeRoute(a))))
  }

  /** The route the surfaces show is the selected adapter, and the adapter of the result only where none is
      selected; whether a reroute is pending makes no difference to it. */
  lemma ConfiguredRouteIs(a: Assignment)
    ensures ConfiguredRoute(a)
            == if a.selectedAdapter.Value? then Some(a.selectedAdapter.text)
               else if a.result.Some? && a.result.value.adapterId.Value? then Some(a.result.value.adapterId.text)
               else None
  {
    hide HasPendingReroute;
  }

  /** `sub` arises from `s` by deleting elements. */
  ghost predicate Subsequence<T>(sub: seq<T>, s: seq<T>) {
    exists at: seq<int> :: SelectedBy(sub, s, at)
  }

  ghost predicate SelectedBy<T>(sub: seq<T>, s: seq<T>, at: seq<int>) {
    && |at| == |sub|
    && (forall i :: 0 <= i < |at| ==> 0 <= at[i] < |s| && sub[i] == s[at[i]])
    && (forall i, j :: 0 <= i < j < |at| ==> at[i] < at[j])
  }

  lemma SelectedExtend<T>(sub: seq<T>, s: seq<T>, x: T, at: seq<int>)
    requires SelectedBy(sub, s, at)
    ensures SelectedBy(sub, s + [x], at) && SelectedBy(sub + [x], s + [x], at + [|s|])
  {
  }

  lemma {:induction false} FilterSelects<T(!new)>(s: seq<T>, keep: T -> bool) returns (at: seq<int>)
    ensures SelectedBy(Filter(s, keep), s, at)
  {
    if s == [] {
      at := [];
    } else {
      var front, x := s[..|s| - 1], s[|s| - 1];
      at := FilterSelects(front, keep);
      hide *;
      FilterLast(front, x, keep);
      assert s == front + [x];
      SelectedExtend(Filter(front, keep), front, x, at);
      at := if keep(x) then at + [|front|] else at;
    }
  }

  lemma UniqueSelectsNext<T(!new)>(front: seq<T>, x: T, at: seq<int>) returns (next: seq<int>)
    requires SelectedBy(Unique(front), front, at)
    ensures SelectedBy(Unique(front + [x]), front + [x], next)
  {
    hide *;
    UniqueLast(front, x);
    SelectedExtend(Unique(front), front, x, at);
    next := if x in front then at else at + [|front|];
  }

  lemma {:induction false} UniqueSelects<T(!new)>(s: seq<T>) returns (at: seq<int>)
    ensures SelectedBy(Unique(s), s, at)
  {
    if s == [] {
      at := [];
    } else {
      var front, x := s[..|s| - 1], s[|s| - 1];
      assert s == front + [x];
      hide *;
      at := UniqueSelects(front);
      at := UniqueSelectsNext(front, x, at);
    }
  }

  lemma SelectCompose<T>(a: seq<T>, b: seq<T>, c: seq<T>, ab: seq<int>, bc: seq<int>)
    requires SelectedBy(a, b, ab) && SelectedBy(b, c, bc)
    ensures Subsequence(a, c)
  {
    var ac := seq(|ab|, i requires 0 <= i < |ab| => bc[ab[i]]);
    assert SelectedBy(a, c, ac);
  }

  /** Candidates are the approved adapters off the current and the last route, in approval order,
      each once. */
  lemma CandidatesExact(a: Assignment, adapter: string)
    ensures Distinct(RerouteCandidates(a)) && Subsequence(RerouteCandidates(a), a.allowedAdapters)
    ensures adapter in RerouteCandidates(a) <==>
              && adapter in a.allowedAdapters && adapter != ""
              && Some(adapter) != ConfiguredRoute(a) && Some(adapter) != LastBridgeRoute(a)
  {
    var off := Filter(a.allowedAdapters, OffRoute(ConfiguredRoute(a), LastBridgeRoute(a)));
    var at1 := FilterSelects(a.allowedAdapters, OffRoute(ConfiguredRoute(a), LastBridgeRoute(a)));
    var at2 := FilterSelects(off, NonEmpty());
    var at3 := UniqueSelects(Filter(off, NonEmpty()));
    SelectCompose(Filter(off, NonEmpty()), off, a.allowedAdapters, at2, at1);
    var at :| SelectedBy(Filter(off, NonEmpty()), a.allowedAdapters, at);
    SelectCompose(RerouteCandidates(a), Filter(off, NonEmpty()), a.allowedAdapters, at3, at);
  }

  // ----- retry state -----

  const RETRY_LIMIT: nat := 1

  /** Whether one more retry fits the budget; absent when no bridge failure is recorded. */
  function RetryAllowed(a: Assignment): Option<bool> {
    if Failure(a).None? then None
    else Some(Failure(a).value.retryable && CountRetryRequests(a.notes) < RETRY_LIMIT)
  }

  // ----- health entries -----

  datatype BridgeVerdict = Accepted | Responded | BridgeFailed

  datatype HealthEntry = HealthEntry(
    id: string,
    status: Status,
    currentRoute: Option<string>,
    lastBridgeRoute: Option<string>,
    bridgeVerdict: Option<BridgeVerdict>,
    retryAllowed: Option<bool>,
    candidates: seq<string>,
    blockingReason: Option<string>)

  predicate RouteRelevant(a: Assignment) {
    || a.selectedAdapter != Null
    || a.allowedAdapters != []
    || ResultAdapter(a) != Undefined
    || Bridge(a).Some?
  }

  function VerdictOf(bridge: Option<BridgeExecution>): Option<BridgeVerdict> {
    if bridge.None? then None
    else if bridge.value.failure.Some? then Some(BridgeFailed)
    else Some(if bridge.value.accepted then Accepted else Responded)
  }

  function HealthOf(a: Assignment): HealthEntry {
    var current, last := ConfiguredRoute(a), LastBridgeRoute(a);
    HealthEntry(
      a.id, a.status, current, if last == current then None else last,
      VerdictOf(Bridge(a)), RetryAllowed(a), RerouteCandidates(a), a.blockingReason)
  }

  function DeriveEntries(assignments: seq<Assignment>): seq<HealthEntry> {
    if assignments == [] then []
    else
      var front, a := DeriveEntries(assignments[..|assignments| - 1]), assignments[|assignments| - 1];
      if RouteRelevant(a) then front + [HealthOf(a)] else front
  }

  // ----- doctor -----

  datatype Verdict = Healthy | Degraded | Reroutable | Exhausted | BlockedRoute

  predicate RecoveryInFlight(e: HealthEntry) {
    && e.currentRoute.Some? && e.lastBridgeRoute.Some? && e.currentRoute != e.lastBridgeRoute
    && e.bridgeVerdict.None? && e.status != Completed
  }

  function Diagnose(e: HealthEntry): Verdict {
    if e.status == Blocked || e.blockingReason.Some? then BlockedRoute
    else if e.bridgeVerdict == Some(BridgeFailed) then
      if e.retryAllowed == Some(true) then Degraded
      else if |e.candidates| > 0 then Reroutable
      else Exhausted
    else if RecoveryInFlight(e) then Degraded
    else Healthy
  }

  function CountVerdict(entries: seq<HealthEntry>, v: Verdict): nat {
    if entries == [] then 0
    else CountVerdict(entries[..|entries| - 1], v)
         + if Diagnose(entries[|entries| - 1]) == v then 1 else 0
  }

  datatype DoctorStatus = Pass | Warn | Fail

  function DoctorSummary(entries: seq<HealthEntry>): DoctorStatus {
    if CountVerdict(entries, BlockedRoute) > 0 then Fail
    else if CountVerdict(entries, Exhausted) > 0 then Fail
    else if CountVerdict(entries, Reroutable) > 0 then Warn
    else if CountVerdict(entries, Degraded) > 0 then Warn
    else Pass
  }

  // The same summary as the join of the entries' severities.

  function Severity(v: Verdict): DoctorStatus {
    match v
    case Healthy => Pass
    case Degraded => Warn
    case Reroutable => Warn
    case Exhausted => Fail
    case BlockedRoute => Fail
  }

  function Join(a: DoctorStatus, b: DoctorStatus): DoctorStatus {
    if a == Fail || b == Fail then Fail else if a == Warn || b == Warn then Warn else Pass
  }

  function WorstSeverity(entries: seq<HealthEntry>): DoctorStatus {
    if entries == [] then Pass
    else Join(WorstSeverity(entries[..|entries| - 1]), Severity(Diagnose(entries[|entries| - 1])))
  }

  lemma {:induction false} CountsPartition(entries: seq<HealthEntry>)
    ensures CountVerdict(entries, Healthy) + CountVerdict(entries, Degraded) + CountVerdict(entries, Reroutable)
            + CountVerdict(entries, Exhausted) + CountVerdict(entries, BlockedRoute) == |entries|
  {
    if entries != [] {
      CountsPartition(entries[..|entries| - 1]);
    }
  }

  lemma {:induction false} DoctorStatusIsWorstSeverity(entries: seq<HealthEntry>)
    ensures DoctorSummary(entries) == WorstSeverity(entries)
  {
    if entries != [] {
      DoctorStatusIsWorstSeverity(entries[..|entries| - 1]);
    }
  }

  lemma {:induction false} WorstSeverityOf(entries: seq<HealthEntry>)
    ensures WorstSeverity(entries) == Fail <==> exists e :: e in entries && Severity(Diagnose(e)) == Fail
    ensures WorstSeverity(entries) == Pass <==> forall e :: e in entries ==> Diagnose(e) == Healthy
  {
    if entries != [] {
      var front, last := entries[..|entries| - 1], entries[|entries| - 1];
      assert entries == front + [last];
      WorstSeverityOf(front);
    }
  }

  /** The doctor's status does not depend on the order of the assignments. */
  lemma DoctorStatusOrderFree(entries: seq<HealthEntry>, other: seq<HealthEntry>)
    requires multiset(entries) == multiset(other)
    ensures DoctorSummary(entries) == DoctorSummary(other)
  {
    assert forall e :: e in entries <==> e in multiset(entries);
    assert forall e :: e in other <==> e in multiset(other);
    DoctorStatusIsWorstSeverity(entries);
    DoctorStatusIsWorstSeverity(other);
    WorstSeverityOf(entries);
    WorstSeverityOf(other);
  }

  // ----- onboarding's suggestions -----

  datatype Command =
    | RunOnce(runId: string)
    | RetryCommand(runId: string, assignmentId: string)
    | RerouteCommand(runId: string, assignmentId: string, adapterId: string)
    | ExplainCommand(runId: string)

  function Advice(runId: string, e: HealthEntry): Option<Command> {
    var v := Diagnose(e);
    if v == Degraded && e.retryAllowed == Some(true) then Some(RetryCommand(runId, e.id))
    else if v == Reroutable && e.candidates != [] && e.candidates[0] != ""
    then Some(RerouteCommand(runId, e.id, e.candidates[0]))
    else if v == BlockedRoute || v == Exhausted then Some(ExplainCommand(runId))
    else None
  }

  function AddCommand(commands: seq<Command>, advice: Option<Command>): seq<Command> {
    if advice.Some? && advice.value !in commands then commands + [advice.value] else commands
  }

  /** The loop over the entries, which stops once two commands are collected. */
  function Collect(runId: string, entries: seq<HealthEntry>, commands: seq<Command>): seq<Command>
    decreases |entries|
  {
    if entries == [] then commands
    else
      var next := AddCommand(commands, Advice(runId, entries[0]));
      if |next| >= 2 then next else Collect(runId, entries[1..], next)
  }

  function SuggestedCommands(runId: string, entries: seq<HealthEntry>, readyCount: nat): seq<Command> {
    if DoctorSummary(entries) == Pass && readyCount > 0 then [RunOnce(runId)]
    else
      var commands := Collect(runId, entries, []);
      if commands == [] && DoctorSummary(entries) != Pass then [ExplainCommand(runId)] else commands
  }

  function ReadyCount(entries: seq<HealthEntry>): nat {
    if entries == [] then 0
    else
      var last := entries[|entries| - 1];
      ReadyCount(entries[..|entries| - 1]) + if last.status == Ready && Diagnose(last) == Healthy then 1 else 0
  }

  /** Onboarding's commands for a report, including the report that has no route health at all. */
  function OnboardingCommands(runId: string, assignments: seq<Assignment>): seq<Command> {
    var entries := DeriveEntries(assignments);
    if entries == [] then [ExplainCommand(runId)]
    else SuggestedCommands(runId, entries, ReadyCount(entries))
  }

  method BuildSuggestedCommands(runId: string, entries: seq<HealthEntry>, readyCount: nat)
    returns (commands: seq<Command>)
    ensures commands == SuggestedCommands(runId, entries, readyCount)
  {
    var status := DoctorSummary(entries);
    if status == Pass && readyCount > 0 {
      return [RunOnce(runId)];
    }
    commands := [];
    var index := 0;
    assert entries[index..] == entries;
    while index < |entries|
      invariant 0 <= index <= |entries|
      invariant Collect(runId, entries, []) == Collect(runId, entries[index..], commands)
    {
      commands := AddCommand(commands, Advice(runId, entries[index]));
      if |commands| >= 2 {
        break;
      }
      index := index + 1;
    }
    if |commands| == 0 && status != Pass {
      commands := [ExplainCommand(runId)];
    }
  }

  lemma {:induction false} CollectBounds(runId: string, entries: seq<HealthEntry>, commands: seq<Command>)
    requires Distinct(commands) && |commands| <= 1
    ensures Distinct(Collect(runId, entries, commands)) && |Collect(runId, entries, commands)| <= 2
    ensures forall c :: c in Collect(runId, entries, commands) ==>
              c in commands || exists e :: e in entries && Advice(runId, e) == Some(c)
    decreases |entries|
  {
    if entries != [] {
      var next := AddCommand(commands, Advice(runId, entries[0]));
      assert entries == [entries[0]] + entries[1..];
      if |next| < 2 {
        CollectBounds(runId, entries[1..], next);
      }
    }
  }

  /** The advice is bounded: one or two distinct commands unless the route health passes, exactly one
      when it passes with ready work, none when it passes without. */
  lemma SuggestionsBounded(runId: string, entries: seq<HealthEntry>, readyCount: nat)
    ensures var commands := SuggestedCommands(runId, entries, readyCount);
            && Distinct(commands)
            && (DoctorSummary(entries) != Pass ==> 1 <= |commands| <= 2)
            && (DoctorSummary(entries) == Pass && readyCount > 0 ==> commands == [RunOnce(runId)])
            && (DoctorSummary(entries) == Pass && readyCount == 0 ==> commands == [])
  {
    CollectBounds(runId, entries, []);
    DoctorStatusIsWorstSeverity(entries);
    WorstSeverityOf(entries);
    var commands := Collect(runId, entries, []);
    if DoctorSummary(entries) == Pass && commands != [] {
      assert commands[0] in commands;
    }
  }

  // ----- what is suggested for an assignment, from its own fields -----

  /** The first approved adapter off the current and the last route. */
  ghost predicate FirstOffRoute(a: Assignment, adapter: string) {
    exists i: nat :: i < |a.allowedAdapters| && a.allowedAdapters[i] == adapter && IsOffRoute(a, adapter)
                     && forall j :: 0 <= j < i ==> !IsOffRoute(a, a.allowedAdapters[j])
  }

  predicate IsOffRoute(a: Assignment, adapter: string) {
    adapter != "" && Some(adapter) != ConfiguredRoute(a) && Some(adapter) != LastBridgeRoute(a)
  }

  lemma {:induction false} FilterHeadIs(s: seq<string>, keep: string -> bool)
    ensures Filter(s, keep) != [] ==>
              exists i: nat :: i < |s| && s[i] == Filter(s, keep)[0] && keep(s[i]) && forall j :: 0 <= j < i ==> !keep(s[j])
  {
    if s != [] {
      var front, last := s[..|s| - 1], s[|s| - 1];
      FilterHeadIs(front, keep);
      assert s == front + [last];
      FilterLast(front, last, keep);
      hide Filter;
      if Filter(front, keep) != [] {
        var i: nat :| i < |front| && front[i] == Filter(front, keep)[0] && keep(front[i])
                      && forall j :: 0 <= j < i ==> !keep(front[j]);
        assert s[i] == front[i] && forall j :: 0 <= j < i ==> s[j] == front[j];
      } else if keep(last) {
        assert forall x :: x in front ==> !keep(x) by { FilterNone(front, keep); }
        assert s[|front|] == last && forall j :: 0 <= j < |front| ==> s[j] in front;
      }
    }
  }

  lemma FilterNone(s: seq<string>, keep: string -> bool)
    requires Filter(s, keep) == []
    ensures forall x :: x in s ==> !keep(x)
  {
    assert forall x :: x in s && keep(x) ==> x in Filter(s, keep);
  }

  lemma {:induction false} UniqueHead(s: seq<string>)
    ensures s != [] ==> Unique(s) != [] && Unique(s)[0] == s[0]
  {
    if |s| > 1 {
      UniqueHead(s[..|s| - 1]);
    }
  }

  lemma {:induction false} FilterTwice(s: seq<string>, p: string -> bool, q: string -> bool, both: string -> bool)
    requires forall x :: both(x) <==> p(x) && q(x)
    ensures Filter(Filter(s, p), q) == Filter(s, both)
  {
    if s != [] {
      var front, last := s[..|s| - 1], s[|s| - 1];
      assert s == front + [last];
      FilterTwice(front, p, q, both);
      FilterLast(front, last, p);
      FilterLast(front, last, both);
      FilterLast(Filter(front, p), last, q);
      hide Filter;
      assert Filter(front, p) + [] == Filter(front, p);
    }
  }

  function OffRouteOf(a: Assignment): string -> bool {
    (adapter: string) => IsOffRoute(a, adapter)
  }

  lemma HeadOffRoute(a: Assignment)
    ensures var offRoute := Filter(a.allowedAdapters, OffRouteOf(a));
            && (RerouteCandidates(a) == [] <==> offRoute == [])
            && (offRoute != [] ==> RerouteCandidates(a)[0] == offRoute[0])
  {
    var off := OffRoute(ConfiguredRoute(a), LastBridgeRoute(a));
    assert forall x :: OffRouteOf(a)(x) <==> off(x) && NonEmpty()(x);
    var kept := Filter(Filter(a.allowedAdapters, off), NonEmpty());
    assert RerouteCandidates(a) == Unique(kept);
    FilterTwice(a.allowedAdapters, off, NonEmpty(), OffRouteOf(a));
    hide Filter, Unique, ConfiguredRoute, LastBridgeRoute, RerouteCandidates;
    UniqueHead(kept);
  }

  /** The first candidate is the first approved adapter off the routes. */
  lemma FirstCandidate(a: Assignment)
    ensures RerouteCandidates(a) != [] ==> FirstOffRoute(a, RerouteCandidates(a)[0])
  {
    HeadOffRoute(a);
    FilterHeadIs(a.allowedAdapters, OffRouteOf(a));
    var kept := Filter(a.allowedAdapters, OffRouteOf(a));
    hide Filter, Unique, ConfiguredRoute, LastBridgeRoute, RerouteCandidates;
    if kept != [] {
      var i: nat :| i < |a.allowedAdapters| && a.allowedAdapters[i] == kept[0] && OffRouteOf(a)(a.allowedAdapters[i])
                    && forall j :: 0 <= j < i ==> !OffRouteOf(a)(a.allowedAdapters[j]);
      assert forall j :: 0 <= j < i ==> !IsOffRoute(a, a.allowedAdapters[j]);
      assert FirstOffRoute(a, kept[0]);
    }
  }

  /** Blocked by its status or for a recorded reason. */
  predicate IsBlocked(a: Assignment) {
    a.status == Blocked || a.blockingReason.Some?
  }

  /** A bridge failure that may be retried: retryable, with no retry logged since the last reroute. */
  predicate MayRetry(a: Assignment) {
    && Failure(a).Some? && Failure(a).value.retryable
    && RecoveryOf(a.notes).retriesUsed == 0
  }

  /** Moved to another route that has not answered yet. */
  predicate OnItsWay(a: Assignment) {
    && Bridge(a) == None && a.status != Completed
    && ConfiguredRoute(a).Some? && LastBridgeRoute(a).Some? && ConfiguredRoute(a) != LastBridgeRoute(a)
  }

  lemma MayRetryIff(a: Assignment)
    ensures RetryAllowed(a) == Some(true) <==> MayRetry(a)
    ensures RetryAllowed(a).Some? <==> Failure(a).Some?
  {
    hide CountRetryRequests, HasPendingReroute, RecoveryOf;
    ScansRefineMachine(a.notes);
  }

  /** The doctor's verdict on every assignment, from its fields. */
  lemma DiagnosisIff(a: Assignment)
    ensures var v := Diagnose(HealthOf(a));
            && (v == BlockedRoute <==> IsBlocked(a))
            && (v == Degraded <==> !IsBlocked(a) && (MayRetry(a) || OnItsWay(a)))
            && (v == Reroutable <==>
                  !IsBlocked(a) && Failure(a).Some? && !MayRetry(a) && exists x :: x in a.allowedAdapters && IsOffRoute(a, x))
            && (v == Exhausted <==>
                  !IsBlocked(a) && Failure(a).Some? && !MayRetry(a) && !exists x :: x in a.allowedAdapters && IsOffRoute(a, x))
            && (v == Healthy <==> !IsBlocked(a) && Failure(a).None? && !OnItsWay(a))
  {
    MayRetryIff(a);
    CandidatesIff(a);
    hide ConfiguredRoute, LastBridgeRoute, RerouteCandidates, MayRetry, RetryAllowed, IsOffRoute;
  }

  lemma CandidatesIff(a: Assignment)
    ensures RerouteCandidates(a) != [] <==> exists x :: x in a.allowedAdapters && IsOffRoute(a, x)
  {
    if x :| x in a.allowedAdapters && IsOffRoute(a, x) {
      CandidatesExact(a, x);
    }
    if RerouteCandidates(a) != [] {
      CandidatesExact(a, RerouteCandidates(a)[0]);
    }
  }

  /** What onboarding suggests for an assignment: a retry where one is allowed, else the first approved
      adapter off its routes, else to look at the run; the last also where it is blocked; else nothing. */
  lemma AdviceIff(runId: string, a: Assignment)
    ensures var advice := Advice(runId, HealthOf(a));
            && (!IsBlocked(a) && MayRetry(a) ==> advice == Some(RetryCommand(runId, a.id)))
            && (!IsBlocked(a) && Failure(a).Some? && !MayRetry(a) ==>
                  if exists x :: x in a.allowedAdapters && IsOffRoute(a, x)
                  then exists x :: FirstOffRoute(a, x) && advice == Some(RerouteCommand(runId, a.id, x))
                  else advice == Some(ExplainCommand(runId)))
            && (IsBlocked(a) ==> advice == Some(ExplainCommand(runId)))
            && (!IsBlocked(a) && Failure(a).None? ==> advice == None)
  {
    DiagnosisIff(a);
    MayRetryIff(a);
    FirstCandidate(a);
    CandidatesIff(a);
    if RerouteCandidates(a) != [] {
      CandidatesExact(a, RerouteCandidates(a)[0]);
    }
    hide ConfiguredRoute, LastBridgeRoute, RerouteCandidates, MayRetry, RetryAllowed, IsOffRoute, FirstOffRoute, Diagnose;
  }

  // ----- what is suggested for a report -----

  /** An assignment a route matters for: one that has, may have or had an adapter or a bridge. */
  predicate HasRoute(a: Assignment) {
    a.selectedAdapter != Null || |a.allowedAdapters| > 0
    || (a.result.Some? && (a.result.value.adapterId != Undefined || a.result.value.bridge.Some?))
  }

  /** The command for one assignment, from its own fields. */
  function CommandFor(runId: string): Assignment -> seq<Command> {
    (a: Assignment) =>
      var offRoute := Filter(a.allowedAdapters, OffRouteOf(a));
      if !HasRoute(a) then []
      else if IsBlocked(a) then [ExplainCommand(runId)]
      else if MayRetry(a) then [RetryCommand(runId, a.id)]
      else if Failure(a).None? then []
      else if offRoute == [] then [ExplainCommand(runId)]
      else [RerouteCommand(runId, a.id, offRoute[0])]
  }

  lemma CommandForIsAdvice(runId: string, a: Assignment)
    requires HasRoute(a)
    ensures CommandFor(runId)(a) == EntryAdvice(runId)(HealthOf(a))
  {
    AdviceIff(runId, a);
    HeadOffRoute(a);
    CandidatesIff(a);
    var offRoute := Filter(a.allowedAdapters, OffRouteOf(a));
    assert offRoute != [] ==> offRoute[0] in offRoute;
    assert forall x :: OffRouteOf(a)(x) <==> IsOffRoute(a, x);
    hide ConfiguredRoute, LastBridgeRoute, RerouteCandidates, MayRetry, RetryAllowed, IsOffRoute, Diagnose, Filter,
      IsBlocked, HasRoute, Advice, HealthOf, OffRouteOf;
  }

  function EntryAdvice(runId: string): HealthEntry -> seq<Command> {
    (e: HealthEntry) => var advice := Advice(runId, e); if advice.Some? then [advice.value] else []
  }

  function AtMostTwo(commands: seq<Command>): seq<Command> {
    if |commands| <= 2 then commands else commands[..2]
  }

  lemma {:induction false} CollectIsFirstTwo(runId: string, entries: seq<HealthEntry>, k: nat)
    requires k <= |entries| && |Unique(FlatMap(entries[..k], EntryAdvice(runId)))| <= 1
    ensures Collect(runId, entries[k..], Unique(FlatMap(entries[..k], EntryAdvice(runId))))
            == AtMostTwo(Unique(FlatMap(entries, EntryAdvice(runId))))
    decreases |entries| - k
  {
    hide Unique, FlatMap, Advice;
    if k == |entries| {
      assert entries[..k] == entries && entries[k..] == [];
    } else {
      var before := Unique(FlatMap(entries[..k], EntryAdvice(runId)));
      var next := Unique(FlatMap(entries[..k + 1], EntryAdvice(runId)));
      AdviceNext(runId, entries, k);
      assert entries[k..][0] == entries[k] && entries[k..][1..] == entries[k + 1..];
      if |next| < 2 {
        CollectIsFirstTwo(runId, entries, k + 1);
      } else {
        AdvicePrefix(runId, entries, k + 1);
        assert |next| == 2;
      }
    }
  }

  lemma AdviceNext(runId: string, entries: seq<HealthEntry>, k: nat)
    requires k < |entries|
    ensures Unique(FlatMap(entries[..k + 1], EntryAdvice(runId)))
            == AddCommand(Unique(FlatMap(entries[..k], EntryAdvice(runId))), Advice(runId, entries[k]))
  {
    hide Advice;
    assert entries[..k + 1][..k] == entries[..k];
    var all, advice := FlatMap(entries[..k], EntryAdvice(runId)), Advice(runId, entries[k]);
    assert FlatMap(entries[..k + 1], EntryAdvice(runId)) == all + if advice.Some? then [advice.value] else [];
    assert all + [] == all;
    if advice.Some? {
      UniqueLast(all, advice.value);
    }
  }

  lemma {:induction false} AdvicePrefix(runId: string, entries: seq<HealthEntry>, k: nat)
    requires k <= |entries|
    ensures Unique(FlatMap(entries[..k], EntryAdvice(runId))) <= Unique(FlatMap(entries, EntryAdvice(runId)))
    decreases |entries| - k
  {
    hide Unique, FlatMap, Advice;
    if k == |entries| {
      assert entries[..k] == entries;
    } else {
      AdviceNext(runId, entries, k);
      AdvicePrefix(runId, entries, k + 1);
    }
  }

  lemma CommandForNext(runId: string, a: Assignment)
    ensures CommandFor(runId)(a) == if RouteRelevant(a) then EntryAdvice(runId)(HealthOf(a)) else []
  {
    if RouteRelevant(a) {
      CommandForIsAdvice(runId, a);
    }
    hide Advice, HealthOf, Filter, MayRetry, IsBlocked, EntryAdvice;
  }

  lemma {:induction false} EntriesAdvice(runId: string, assignments: seq<Assignment>)
    ensures FlatMap(DeriveEntries(assignments), EntryAdvice(runId)) == FlatMap(assignments, CommandFor(runId))
  {
    hide Advice, HealthOf, HasRoute, CommandFor, RouteRelevant, EntryAdvice;
    if assignments != [] {
      var front, a := assignments[..|assignments| - 1], assignments[|assignments| - 1];
      EntriesAdvice(runId, front);
      var entries := DeriveEntries(front);
      CommandForNext(runId, a);
      if RouteRelevant(a) {
        assert (entries + [HealthOf(a)])[..|entries|] == entries;
      } else {
        assert FlatMap(front, CommandFor(runId)) + [] == FlatMap(front, CommandFor(runId));
      }
    }
  }

  lemma {:induction false} EntriesFrom(assignments: seq<Assignment>, e: HealthEntry)
    ensures e in DeriveEntries(assignments) <==> exists a :: a in assignments && HasRoute(a) && HealthOf(a) == e
  {
    hide HealthOf;
    if assignments != [] {
      var front, last := assignments[..|assignments| - 1], assignments[|assignments| - 1];
      assert assignments == front + [last];
      EntriesFrom(front, e);
      assert RouteRelevant(last) <==> HasRoute(last);
    }
  }

  lemma {:induction false} ReadyCountIff(entries: seq<HealthEntry>)
    ensures ReadyCount(entries) > 0 <==> exists e :: e in entries && e.status == Ready && Diagnose(e) == Healthy
  {
    hide Diagnose;
    if entries != [] {
      var front, last := entries[..|entries| - 1], entries[|entries| - 1];
      assert entries == front + [last];
      ReadyCountIff(front);
    }
  }

  /** Nothing to see to: not blocked, no bridge failure, no recovery under way. */
  predicate AllRight(a: Assignment) {
    !IsBlocked(a) && Failure(a).None? && !OnItsWay(a)
  }

  lemma NothingCollected(runId: string, entries: seq<HealthEntry>)
    ensures Unique(FlatMap(entries[..0], EntryAdvice(runId))) == [] && entries[0..] == entries
  {
    assert entries[..0] == [];
  }

  lemma NoneRoutedIff(assignments: seq<Assignment>)
    ensures DeriveEntries(assignments) == [] <==> forall a :: a in assignments ==> !HasRoute(a)
  {
    var entries := DeriveEntries(assignments);
    hide DeriveEntries, HasRoute, HealthOf;
    if a :| a in assignments && HasRoute(a) {
      EntriesFrom(assignments, HealthOf(a));
    }
    if entries != [] {
      EntriesFrom(assignments, entries[0]);
    }
  }

  lemma PassIff(assignments: seq<Assignment>)
    ensures DoctorSummary(DeriveEntries(assignments)) == Pass <==>
              forall a :: a in assignments && HasRoute(a) ==> AllRight(a)
  {
    var entries := DeriveEntries(assignments);
    DoctorStatusIsWorstSeverity(entries);
    WorstSeverityOf(entries);
    hide DeriveEntries, HasRoute, HealthOf, AllRight, Diagnose, DoctorSummary, WorstSeverity;
    forall a ensures AllRight(a) <==> Diagnose(HealthOf(a)) == Healthy {
      AllRightIff(a);
    }
    forall e ensures e in entries <==> exists a :: a in assignments && HasRoute(a) && HealthOf(a) == e {
      EntriesFrom(assignments, e);
    }
  }

  lemma AllRightIff(a: Assignment)
    ensures AllRight(a) <==> Diagnose(HealthOf(a)) == Healthy
  {
    DiagnosisIff(a);
    hide Diagnose;
  }

  lemma ReadyIff(assignments: seq<Assignment>)
    ensures ReadyCount(DeriveEntries(assignments)) > 0 <==>
              exists a :: a in assignments && HasRoute(a) && a.status == Ready && AllRight(a)
  {
    var entries := DeriveEntries(assignments);
    ReadyCountIff(entries);
    assert forall a :: HealthOf(a).status == a.status;
    hide DeriveEntries, HasRoute, HealthOf, AllRight, Diagnose, ReadyCount;
    forall a ensures AllRight(a) <==> Diagnose(HealthOf(a)) == Healthy {
      AllRightIff(a);
    }
    forall e ensures e in entries <==> exists a :: a in assignments && HasRoute(a) && HealthOf(a) == e {
      EntriesFrom(assignments, e);
    }
  }

  lemma CollectedIs(runId: string, assignments: seq<Assignment>)
    ensures Collect(runId, DeriveEntries(assignments), []) == AtMostTwo(Unique(FlatMap(assignments, CommandFor(runId))))
  {
    var entries := DeriveEntries(assignments);
    hide *;
    NothingCollected(runId, entries);
    CollectIsFirstTwo(runId, entries, 0);
    EntriesAdvice(runId, assignments);
  }

  /** Onboarding's commands for a whole report, from its assignments alone: the first two distinct
      commands in order, a run of the ready work when nothing needs attention, else a look at the run. */
  lemma OnboardingIff(runId: string, assignments: seq<Assignment>)
    ensures var commands := OnboardingCommands(runId, assignments);
            var routed := exists a :: a in assignments && HasRoute(a);
            var allRight := forall a :: a in assignments && HasRoute(a) ==> AllRight(a);
            var ready := exists a :: a in assignments && HasRoute(a) && a.status == Ready;
            var advised := AtMostTwo(Unique(FlatMap(assignments, CommandFor(runId))));
            && (!routed ==> commands == [ExplainCommand(runId)])
            && (routed && allRight ==> commands == if ready then [RunOnce(runId)] else [])
            && (routed && !allRight ==> commands == if advised == [] then [ExplainCommand(runId)] else advised)
  {
    var entries := DeriveEntries(assignments);
    NoneRoutedIff(assignments);
    PassIff(assignments);
    ReadyIff(assignments);
    CollectedIs(runId, assignments);
    SuggestionsBounded(runId, entries, ReadyCount(entries));
    hide AllRight, HasRoute, DeriveEntries, FlatMap, Unique, Collect, DoctorSummary, ReadyCount, CommandFor, AtMostTwo;
  }

  /** A single failed assignment with a retryable failure and no retry yet: onboarding suggests its retry. */
  lemma RetrySuggested(runId: string, id: string, adapter: string, reason: string)
    ensures var bridge := BridgeExecution(true, Some(BridgeFailure(reason, true)));
            var result := AssignmentResult(Failed, "", Value(adapter), Some(bridge), []);
            var a := Assignment(id, Failed, Value(adapter), [adapter], Some(result), [], None);
            OnboardingCommands(runId, [a]) == [RetryCommand(runId, id)]
  {
    var bridge := BridgeExecution(true, Some(BridgeFailure(reason, true)));
    var result := AssignmentResult(Failed, "", Value(adapter), Some(bridge), []);
    var a := Assignment(id, Failed, Value(adapter), [adapter], Some(result), [], None);
    assert MayRetry(a) && !IsBlocked(a) && HasRoute(a);
    assert a in [a];
    OnboardingIff(runId, [a]);
    assert FlatMap([a], CommandFor(runId)) == [RetryCommand(runId, id)] by {
      assert [a][..0] == [];
    }
    UniqueOfDistinct([RetryCommand(runId, id)]);
  }
}
