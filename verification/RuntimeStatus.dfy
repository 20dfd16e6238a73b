/** Tool-outcome summaries of step replays and the runtime status derived from them. */
module RuntimeStatus {
  import opened Options
  import opened Sequences

  datatype Outcome = Executed | Denied | ApprovalRequired | DegradedOutcome | FailedOutcome | Missing | Unknown

  /** One result: the fields of an object, or none of them when it is not an object. */
  datatype Item = Item(resolution: Option<string>, ok: Option<bool>, hasDegradation: bool)

  datatype Payload = NotAnObject | Record(results: seq<Item>, own: Item)

  function Classify(item: Item): Outcome {
    if item.resolution == Some("executed") then Executed
    else if item.resolution == Some("denied") then Denied
    else if item.resolution == Some("approval_required") then ApprovalRequired
    else if item.resolution == Some("degraded") then DegradedOutcome
    else if item.resolution == Some("failed") then FailedOutcome
    else if item.resolution == Some("missing") then Missing
    else if item.hasDegradation then DegradedOutcome
    else if item.ok == Some(false) then FailedOutcome
    else if item.ok == Some(true) then Executed
    else Unknown
  }

  function OutcomesOf(payload: Payload): seq<Outcome> {
    match payload
    case NotAnObject => [Unknown]
    case Record(results, own) => if results == [] then [Classify(own)] else Map(results, Classify)
  }

  /** Counts of each outcome. */
  datatype Summary = Summary(
    total: nat, executed: nat, denied: nat, approvalRequired: nat,
    degraded: nat, failed: nat, missing: nat, unknown: nat)

  const EMPTY_SUMMARY := Summary(0, 0, 0, 0, 0, 0, 0, 0)

  function Tally(s: Summary, o: Outcome): Summary {
    var t := s.(total := s.total + 1);
    match o
    case Executed => t.(executed := s.executed + 1)
    case Denied => t.(denied := s.denied + 1)
    case ApprovalRequired => t.(approvalRequired := s.approvalRequired + 1)
    case DegradedOutcome => t.(degraded := s.degraded + 1)
    case FailedOutcome => t.(failed := s.failed + 1)
    case Missing => t.(missing := s.missing + 1)
    case Unknown => t.(unknown := s.unknown + 1)
  }

  function TallyAll(outcomes: seq<Outcome>): Summary {
    if outcomes == [] then EMPTY_SUMMARY else Tally(TallyAll(outcomes[..|outcomes| - 1]), outcomes[|outcomes| - 1])
  }

  function SummaryOf(replays: seq<Payload>): Summary {
    TallyAll(FlatMap(replays, OutcomesOf))
  }

  /** The counters object the source updates entry by entry. */
  class OutcomeCounters {
    var executed: nat
    var denied: nat
    var approvalRequired: nat
    var degraded: nat
    var failed: nat
    var missing: nat
    var unknown: nat

    constructor ()
      ensures Read() == EMPTY_SUMMARY
    {
      executed, denied, approvalRequired, degraded, failed, missing, unknown := 0, 0, 0, 0, 0, 0, 0;
    }

    /** The total is the sum of the counters, taken at the end. */
    function Read(): Summary
      reads this
    {
      Summary(
        executed + denied + approvalRequired + degraded + failed + missing + unknown,
        executed, denied, approvalRequired, degraded, failed, missing, unknown)
    }

    method Count(o: Outcome)
      modifies this
      ensures Read() == Tally(old(Read()), o)
    {
      match o
      case Executed => executed := executed + 1;
      case Denied => denied := denied + 1;
      case ApprovalRequired => approvalRequired := approvalRequired + 1;
      case DegradedOutcome => degraded := degraded + 1;
      case FailedOutcome => failed := failed + 1;
      case Missing => missing := missing + 1;
      case Unknown => unknown := unknown + 1;
    }
  }

  lemma TallyAllNext(outcomes: seq<Outcome>, o: Outcome)
    ensures TallyAll(outcomes + [o]) == Tally(TallyAll(outcomes), o)
  {
    assert (outcomes + [o])[..|outcomes|] == outcomes;
  }

  /** The inner loop: counting one entry's outcomes. */
  method CountAll(counters: OutcomeCounters, outcomes: seq<Outcome>, ghost before: seq<Outcome>)
    requires counters.Read() == TallyAll(before)
    modifies counters
    ensures counters.Read() == TallyAll(before + outcomes)
  {
    hide TallyAll, Tally;
    assert before + outcomes[..0] == before;
    for j := 0 to |outcomes|
      invariant counters.Read() == TallyAll(before + outcomes[..j])
    {
      assert before + outcomes[..j + 1] == (before + outcomes[..j]) + [outcomes[j]];
      TallyAllNext(before + outcomes[..j], outcomes[j]);
      counters.Count(outcomes[j]);
    }
    assert outcomes[..|outcomes|] == outcomes;
  }

  lemma SummaryNext(replays: seq<Payload>, i: nat)
    requires i < |replays|
    ensures SummaryOf(replays[..i + 1]) == TallyAll(FlatMap(replays[..i], OutcomesOf) + OutcomesOf(replays[i]))
  {
    assert replays[..i + 1][..i] == replays[..i];
  }

  method SummarizeStepReplay(replays: seq<Payload>) returns (summary: Summary)
    ensures summary == SummaryOf(replays)
  {
    if |replays| == 0 {
      return EMPTY_SUMMARY;
    }
    var counters := new OutcomeCounters();
    for i := 0 to |replays|
      invariant counters.Read() == SummaryOf(replays[..i])
    {
      hide TallyAll, OutcomesOf, FlatMap;
      CountAll(counters, OutcomesOf(replays[i]), FlatMap(replays[..i], OutcomesOf));
      SummaryNext(replays, i);
    }
    assert replays[..|replays|] == replays;
    return counters.Read();
  }

  // ----- the summary is a homomorphism -----

  function Add(a: Summary, b: Summary): Summary {
    Summary(
      a.total + b.total, a.executed + b.executed, a.denied + b.denied, a.approvalRequired + b.approvalRequired,
      a.degraded + b.degraded, a.failed + b.failed, a.missing + b.missing, a.unknown + b.unknown)
  }

  lemma TallyOfSum(a: Summary, b: Summary, o: Outcome)
    ensures Tally(Add(a, b), o) == Add(a, Tally(b, o))
  {
  }

  lemma AddNothing(s: Summary)
    ensures Add(s, TallyAll([])) == s
  {
  }

  lemma {:induction false} TallyAllConcat(a: seq<Outcome>, b: seq<Outcome>)
    ensures TallyAll(a + b) == Add(TallyAll(a), TallyAll(b))
    decreases |b|
  {
    hide TallyAll, Tally, Add;
    if b == [] {
      assert a + b == a;
      AddNothing(TallyAll(a));
    } else {
      var front, last := b[..|b| - 1], b[|b| - 1];
      calc {
        TallyAll(a + b);
        { assert a + b == (a + front) + [last]; TallyAllNext(a + front, last); }
        Tally(TallyAll(a + front), last);
        { TallyAllConcat(a, front); }
        Tally(Add(TallyAll(a), TallyAll(front)), last);
        { TallyOfSum(TallyAll(a), TallyAll(front), last); }
        Add(TallyAll(a), Tally(TallyAll(front), last));
        { assert b == front + [last]; TallyAllNext(front, last); }
        Add(TallyAll(a), TallyAll(b));
      }
    }
  }

  /** The summary of two replays in a row is the field-wise sum of their summaries. */
  lemma SummaryIsHomomorphism(a: seq<Payload>, b: seq<Payload>)
    ensures SummaryOf(a + b) == Add(SummaryOf(a), SummaryOf(b))
  {
    FlatMapConcat(a, b, OutcomesOf);
    TallyAllConcat(FlatMap(a, OutcomesOf), FlatMap(b, OutcomesOf));
  }

  /** How many results an entry counts for: at least one. */
  function ResultCount(payload: Payload): nat {
    if payload.Record? && payload.results != [] then |payload.results| else 1
  }

  function TotalCount(replays: seq<Payload>): nat {
    if replays == [] then 0 else TotalCount(replays[..|replays| - 1]) + ResultCount(replays[|replays| - 1])
  }

  lemma {:induction false} TallyTotal(outcomes: seq<Outcome>)
    ensures TallyAll(outcomes).total == |outcomes|
  {
    if outcomes != [] {
      TallyTotal(outcomes[..|outcomes| - 1]);
    }
  }

  /** Nothing is lost: the total is the number of results, an entry without results counting one. */
  lemma {:induction false} TotalCountsEveryResult(replays: seq<Payload>)
    ensures SummaryOf(replays).total == TotalCount(replays)
  {
    TallyTotal(FlatMap(replays, OutcomesOf));
    if replays != [] {
      var front := replays[..|replays| - 1];
      TotalCountsEveryResult(front);
      TallyTotal(FlatMap(front, OutcomesOf));
    }
  }

  // ----- status -----

  datatype Status = Healthy | Degraded | Blocked | Failed

  function Rank(s: Status): nat {
    match s case Healthy => 0 case Degraded => 1 case Blocked => 2 case Failed => 3
  }

  function Combine(primary: Status, secondary: Status): Status {
    if Rank(secondary) > Rank(primary) then secondary else primary
  }

  function DeriveStatus(s: Summary): Status {
    if s.failed > 0 then Failed
    else if s.denied > 0 || s.approvalRequired > 0 || s.missing > 0 then Blocked
    else if s.degraded > 0 || s.unknown > 0 then Degraded
    else Healthy
  }

  datatype Evidence = RuntimeFailed | TransientFailure | StreamError | StreamAborted | RuntimeDegraded | StreamDegraded | OtherEvidence

  predicate Fails(e: Evidence) {
    e.RuntimeFailed? || e.TransientFailure? || e.StreamError? || e.StreamAborted?
  }

  predicate Degrades(e: Evidence) {
    e.RuntimeDegraded? || e.StreamDegraded?
  }

  function EvidenceStatus(evidence: seq<Evidence>): Status {
    if exists e :: e in evidence && Fails(e) then Failed
    else if exists e :: e in evidence && Degrades(e) then Degraded
    else Healthy
  }

  function OverallStatus(replays: seq<Payload>, evidence: seq<Evidence>): Status {
    Combine(DeriveStatus(SummaryOf(replays)), EvidenceStatus(evidence))
  }

  lemma StatusOfSum(a: Summary, b: Summary)
    ensures DeriveStatus(Add(a, b)) == Combine(DeriveStatus(a), DeriveStatus(b))
  {
  }

  lemma EvidenceStatusOfConcat(a: seq<Evidence>, b: seq<Evidence>)
    ensures EvidenceStatus(a + b) == Combine(EvidenceStatus(a), EvidenceStatus(b))
  {
    assert forall e :: e in a + b <==> e in a || e in b;
  }

  lemma CombineInterchange(a: Status, b: Status, c: Status, d: Status)
    ensures Combine(Combine(a, b), Combine(c, d)) == Combine(Combine(a, c), Combine(b, d))
  {
  }

  /** The status of a turn is the join of the statuses of its parts, wherever it is cut. */
  lemma OverallStatusOfParts(r1: seq<Payload>, r2: seq<Payload>, e1: seq<Evidence>, e2: seq<Evidence>)
    ensures OverallStatus(r1 + r2, e1 + e2) == Combine(OverallStatus(r1, e1), OverallStatus(r2, e2))
  {
    hide SummaryOf, DeriveStatus, EvidenceStatus, Add, Combine;
    SummaryIsHomomorphism(r1, r2);
    StatusOfSum(SummaryOf(r1), SummaryOf(r2));
    EvidenceStatusOfConcat(e1, e2);
    CombineInterchange(
      DeriveStatus(SummaryOf(r1)), DeriveStatus(SummaryOf(r2)), EvidenceStatus(e1), EvidenceStatus(e2));
  }

  /** The status of each outcome on its own. */
  function Severity(o: Outcome): Status {
    match o
    case FailedOutcome => Failed
    case Denied => Blocked
    case ApprovalRequired => Blocked
    case Missing => Blocked
    case DegradedOutcome => Degraded
    case Unknown => Degraded
    case Executed => Healthy
  }

  lemma {:induction false} StatusIsWorstOutcome(outcomes: seq<Outcome>)
    ensures forall o :: o in outcomes ==> Rank(Severity(o)) <= Rank(DeriveStatus(TallyAll(outcomes)))
    ensures DeriveStatus(TallyAll(outcomes)) == Healthy
            || exists o :: o in outcomes && Severity(o) == DeriveStatus(TallyAll(outcomes))
  {
    if outcomes != [] {
      var front, last := outcomes[..|outcomes| - 1], outcomes[|outcomes| - 1];
      assert outcomes == front + [last];
      StatusIsWorstOutcome(front);
      assert DeriveStatus(TallyAll(outcomes)) == Combine(DeriveStatus(TallyAll(front)), Severity(last));
    }
  }

  lemma {:induction false} OutcomeFrom(replays: seq<Payload>, o: Outcome)
    ensures o in FlatMap(replays, OutcomesOf) <==> exists p :: p in replays && o in OutcomesOf(p)
  {
    if replays != [] {
      var front, last := replays[..|replays| - 1], replays[|replays| - 1];
      assert replays == front + [last];
      OutcomeFrom(front, o);
    }
  }

  /** The overall status does not depend on the order of replays or evidence. */
  lemma OverallStatusOrderFree(r: seq<Payload>, r': seq<Payload>, e: seq<Evidence>, e': seq<Evidence>)
    requires multiset(r) == multiset(r') && multiset(e) == multiset(e')
    ensures OverallStatus(r, e) == OverallStatus(r', e')
  {
    SameMembers(r, r');
    SameMembers(e, e');
    var outcomes, outcomes' := FlatMap(r, OutcomesOf), FlatMap(r', OutcomesOf);
    forall o ensures o in outcomes <==> o in outcomes' {
      OutcomeFrom(r, o);
      OutcomeFrom(r', o);
    }
    StatusIsWorstOutcome(outcomes);
    StatusIsWorstOutcome(outcomes');
    assert Rank(DeriveStatus(TallyAll(outcomes))) == Rank(DeriveStatus(TallyAll(outcomes')));
  }

  lemma SameMembers<T>(a: seq<T>, b: seq<T>)
    requires multiset(a) == multiset(b)
    ensures forall x :: x in a <==> x in b
  {
    assert forall x :: x in a <==> x in multiset(a);
    assert forall x :: x in b <==> x in multiset(b);
  }

  // ----- counts and status in terms of the results -----

  /** The results of an entry: those it lists, else the entry itself; one without fields if it is no object. */
  function ResultsOf(payload: Payload): seq<Item> {
    if payload.NotAnObject? then [Item(None, None, false)]
    else if |payload.results| > 0 then payload.results
    else [payload.own]
  }

  function Results(replays: seq<Payload>): seq<Item> {
    FlatMap(replays, ResultsOf)
  }

  predicate Named(item: Item) {
    || item.resolution == Some("executed") || item.resolution == Some("denied")
    || item.resolution == Some("approval_required") || item.resolution == Some("degraded")
    || item.resolution == Some("failed") || item.resolution == Some("missing")
  }

  /** What a result counts as: what its resolution names, else what degradation and ok say. */
  predicate CountsAs(item: Item, o: Outcome) {
    match o
    case Denied => item.resolution == Some("denied")
    case ApprovalRequired => item.resolution == Some("approval_required")
    case Missing => item.resolution == Some("missing")
    case DegradedOutcome => item.resolution == Some("degraded") || (!Named(item) && item.hasDegradation)
    case FailedOutcome =>
      item.resolution == Some("failed") || (!Named(item) && !item.hasDegradation && item.ok == Some(false))
    case Executed =>
      item.resolution == Some("executed") || (!Named(item) && !item.hasDegradation && item.ok == Some(true))
    case Unknown => !Named(item) && !item.hasDegradation && item.ok == None
  }

  lemma ClassifyIff(item: Item, o: Outcome)
    ensures Classify(item) == o <==> CountsAs(item, o)
  {
    if item.ok.Some? && !item.ok.value {
      assert item.ok == Some(false);
    } else if item.ok.Some? {
      assert item.ok == Some(true);
    }
  }

  function IsA(o: Outcome): Item -> bool {
    (item: Item) => CountsAs(item, o)
  }

  function CountOf(results: seq<Item>, o: Outcome): nat {
    |Filter(results, IsA(o))|
  }

  lemma {:induction false} OutcomesAreResults(replays: seq<Payload>)
    ensures FlatMap(replays, OutcomesOf) == Map(Results(replays), Classify)
  {
    if replays != [] {
      OutcomesAreResults(replays[..|replays| - 1]);
      hide Classify;
    }
  }

  lemma CountOfNext(results: seq<Item>, item: Item, o: Outcome)
    ensures CountOf(results + [item], o) == CountOf(results, o) + if Classify(item) == o then 1 else 0
  {
    ClassifyIff(item, o);
    hide Filter, Classify, CountsAs;
    FilterLast(results, item, IsA(o));
  }

  function CountsOf(results: seq<Item>): Summary {
    Summary(
      |results|, CountOf(results, Executed), CountOf(results, Denied), CountOf(results, ApprovalRequired),
      CountOf(results, DegradedOutcome), CountOf(results, FailedOutcome), CountOf(results, Missing),
      CountOf(results, Unknown))
  }

  lemma TallyNext(c: Summary, results: seq<Item>, item: Item)
    requires c == CountsOf(results)
    ensures Tally(c, Classify(item)) == CountsOf(results + [item])
  {
    hide Classify, CountOf;
    forall o ensures CountOf(results + [item], o) == CountOf(results, o) + if Classify(item) == o then 1 else 0 {
      CountOfNext(results, item, o);
    }
  }

  lemma {:induction false} TallyCounts(results: seq<Item>)
    ensures TallyAll(Map(results, Classify)) == CountsOf(results)
  {
    if results == [] {
      assert Map(results, Classify) == [];
    } else {
      hide *;
      var front, last := results[..|results| - 1], results[|results| - 1];
      assert results == front + [last];
      TallyCounts(front);
      assert Map(results, Classify) == Map(front, Classify) + [Classify(last)];
      TallyAllNext(Map(front, Classify), Classify(last));
      TallyNext(TallyAll(Map(front, Classify)), front, last);
    }
  }

  /** Every field of a summary is the number of results that count as it names. */
  lemma SummaryCounts(replays: seq<Payload>)
    ensures SummaryOf(replays) == CountsOf(Results(replays))
  {
    OutcomesAreResults(replays);
    TallyCounts(Results(replays));
  }

  ghost predicate AnyCountsAs(results: seq<Item>, o: Outcome) {
    exists item :: item in results && CountsAs(item, o)
  }

  lemma CountOfPositive(results: seq<Item>, o: Outcome)
    ensures CountOf(results, o) > 0 <==> AnyCountsAs(results, o)
  {
    hide CountsAs;
    var kept := Filter(results, IsA(o));
    if kept != [] {
      assert kept[0] in kept;
    }
  }

  lemma EvidenceStatusIff(evidence: seq<Evidence>)
    ensures EvidenceStatus(evidence)
            == if RuntimeFailed in evidence || TransientFailure in evidence || StreamError in evidence
                  || StreamAborted in evidence then Failed
               else if RuntimeDegraded in evidence || StreamDegraded in evidence then Degraded
               else Healthy
  {
  }

  lemma ResultStatusIff(results: seq<Item>)
    ensures DeriveStatus(CountsOf(results))
            == if AnyCountsAs(results, FailedOutcome) then Failed
               else if AnyCountsAs(results, Denied) || AnyCountsAs(results, ApprovalRequired) || AnyCountsAs(results, Missing)
               then Blocked
               else if AnyCountsAs(results, DegradedOutcome) || AnyCountsAs(results, Unknown) then Degraded
               else Healthy
  {
    forall o ensures CountOf(results, o) > 0 <==> AnyCountsAs(results, o) {
      CountOfPositive(results, o);
    }
    hide CountOf, AnyCountsAs;
  }

  /** The status of a turn from its results and its evidence: failed if one failed, else blocked if one was
      denied, waits for approval or is missing, else degraded if one degraded or is unknown, else healthy. */
  lemma OverallStatusIff(replays: seq<Payload>, evidence: seq<Evidence>)
    ensures var results := Results(replays);
            var failed := AnyCountsAs(results, FailedOutcome) || RuntimeFailed in evidence || TransientFailure in evidence
                          || StreamError in evidence || StreamAborted in evidence;
            var blocked := AnyCountsAs(results, Denied) || AnyCountsAs(results, ApprovalRequired) || AnyCountsAs(results, Missing);
            var degraded := AnyCountsAs(results, DegradedOutcome) || AnyCountsAs(results, Unknown)
                            || RuntimeDegraded in evidence || StreamDegraded in evidence;
            OverallStatus(replays, evidence)
            == if failed then Failed else if blocked then Blocked else if degraded then Degraded else Healthy
  {
    var results := Results(replays);
    SummaryCounts(replays);
    ResultStatusIff(results);
    EvidenceStatusIff(evidence);
    hide SummaryOf, CountsOf, AnyCountsAs, Results, EvidenceStatus, DeriveStatus;
  }
}
