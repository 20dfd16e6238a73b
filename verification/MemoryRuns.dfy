/** Whole runs of memory writes, compactions and clears. */
module MemoryRuns {
  import opened Options
  import opened Sequences
  import opened Text
  import opened Memory
  import opened Compaction
  import opened CompactionLaws

  // ----- clearing -----

  datatype Scope = Working | Episodic | Everything

  function Cleared(m: MemoryState, sessionId: string, scope: Scope): MemoryState {
    MemoryState(
      if scope.Episodic? then m.layer0
      else m.layer0.(entries := Without(m.layer0.entries, Ids(Listed(m.layer0.entries, sessionId)))),
      if scope.Working? then m.layer1
      else m.layer1.(entries := Without(m.layer1.entries, Ids(Listed(m.layer1.entries, sessionId)))))
  }

  datatype ClearResult = ClearResult(
    beforeLayer0Count: nat,
    beforeLayer1Count: nat,
    afterLayer0Count: nat,
    afterLayer1Count: nat,
    layer0Ids: seq<string>,
    layer1Ids: seq<string>)

  method ClearSessionMemory(memory: MemoryCore, sessionId: string, scope: Scope) returns (result: ClearResult)
    requires memory.layer0 != memory.layer1
    modifies memory.layer0, memory.layer1
    ensures memory.State() == Cleared(old(memory.State()), sessionId, scope)
    ensures var before, after := old(memory.State()), memory.State();
            result == ClearResult(
              |InSession(before.layer0.entries, sessionId)|, |InSession(before.layer1.entries, sessionId)|,
              |InSession(after.layer0.entries, sessionId)|, |InSession(after.layer1.entries, sessionId)|,
              if scope == Episodic then [] else Ids(Listed(before.layer0.entries, sessionId)),
              if scope == Working then [] else Ids(Listed(before.layer1.entries, sessionId)))
  {
    var before0 := memory.layer0.ListByScope(sessionId);
    var before1 := memory.layer1.ListByScope(sessionId);
    var cleared0 := if scope == Episodic then [] else before0;
    var cleared1 := if scope == Working then [] else before1;
    FilterAll(memory.layer0.entries, KeepsId([]));
    FilterAll(memory.layer1.entries, KeepsId([]));
    memory.layer0.RemoveAll(cleared0);
    memory.layer1.RemoveAll(cleared1);
    var after0 := memory.layer0.ListByScope(sessionId);
    var after1 := memory.layer1.ListByScope(sessionId);
    result := ClearResult(|before0|, |before1|, |after0|, |after1|, Ids(cleared0), Ids(cleared1));
  }

  lemma LayerCleared(entries: seq<Entry>, sessionId: string, other: string)
    requires UniqueIds(entries)
    ensures var after := Without(entries, Ids(Listed(entries, sessionId)));
            InSession(after, other) == if other == sessionId then [] else InSession(entries, other)
  {
    var removed := Listed(entries, sessionId);
    ListedInSession(entries, sessionId);
    if other == sessionId {
      FiltersCommute(entries, KeepsId(Ids(removed)), OfSession(sessionId));
      AllRemoved(InSession(entries, sessionId), removed);
    } else {
      OtherSessionUntouched(entries, removed, sessionId, other);
    }
  }

  /** Clearing empties the session in exactly the layers of its scope and touches nothing else. */
  lemma ClearEffect(m: MemoryState, sessionId: string, scope: Scope, other: string)
    requires UniqueMemory(m)
    ensures var m' := Cleared(m, sessionId, scope);
            && UniqueMemory(m')
            && (ReservedMemory(m) ==> ReservedMemory(m'))
            && InSession(m'.layer0.entries, other)
               == (if other == sessionId && scope != Episodic then [] else InSession(m.layer0.entries, other))
            && InSession(m'.layer1.entries, other)
               == (if other == sessionId && scope != Working then [] else InSession(m.layer1.entries, other))
  {
    LayerCleared(m.layer0.entries, sessionId, other);
    LayerCleared(m.layer1.entries, sessionId, other);
    WithoutUnique(m.layer0, Ids(Listed(m.layer0.entries, sessionId)));
    WithoutUnique(m.layer1, Ids(Listed(m.layer1.entries, sessionId)));
  }

  // ----- runs -----

  datatype Op =
    | Write(layer: Layer, draft: Draft)
    | Compact(sessionId: string, strategy: Strategy, now: int)
    | Clear(clearedId: string, scope: Scope)

  /** The layer a write lands in. */
  function Landing(op: Op): Layer
    requires op.Write?
  {
    if op.layer.Layer1? && RoutedToLayer0(op.draft) then Layer0 else op.layer
  }

  function Step(m: MemoryState, op: Op): MemoryState {
    match op
    case Write(layer, draft) => if layer.Layer0? then WriteLayer0(m, draft) else WriteLayer1(m, draft)
    case Compact(sessionId, strategy, now) => Compacted(m, sessionId, strategy, now)
    case Clear(sessionId, scope) => Cleared(m, sessionId, scope)
  }

  function Run(m: MemoryState, ops: seq<Op>): MemoryState
    decreases |ops|
  {
    if ops == [] then m else Run(Step(m, ops[0]), ops[1..])
  }

  lemma WriteEffect(m: MemoryState, op: Op)
    requires op.Write?
    ensures var store := TargetStore(m, Landing(op));
            Step(m, op) == (if Landing(op).Layer0? then m.(layer0 := Upserted(m.layer0, op.draft))
                            else m.(layer1 := Upserted(m.layer1, op.draft)))
  {
  }

  lemma StepStaysUnique(m: MemoryState, op: Op)
    requires UniqueMemory(m)
    ensures UniqueMemory(Step(m, op))
  {
    match op
    case Write(layer, draft) =>
      WriteEffect(m, op);
      UpsertUnique(TargetStore(m, Landing(op)), draft);
    case Compact(sessionId, strategy, now) => CompactionStaysUnique(m, sessionId, strategy, now);
    case Clear(sessionId, scope) => ClearEffect(m, sessionId, scope, sessionId);
  }

  // ----- reserved ids -----

  /** The rule that keeps automatic ids free: no explicit id is an automatic id still to be issued. */
  ghost predicate KeepsReserved(m: MemoryState, op: Op) {
    op.Write? ==>
      var store := TargetStore(m, Landing(op));
      forall n: nat :: n > store.issued ==> op.draft.id != Some(AutoId(store.layer, n))
  }

  ghost predicate RunKeepsReserved(m: MemoryState, ops: seq<Op>)
    decreases |ops|
  {
    ops != [] ==> KeepsReserved(m, ops[0]) && RunKeepsReserved(Step(m, ops[0]), ops[1..])
  }

  lemma StepStaysReserved(m: MemoryState, op: Op)
    requires ReservedMemory(m) && KeepsReserved(m, op)
    ensures ReservedMemory(Step(m, op))
  {
    StepStaysUnique(m, op);
    match op
    case Write(layer, draft) =>
      WriteEffect(m, op);
      UpsertReserved(TargetStore(m, Landing(op)), draft);
    case Compact(sessionId, strategy, now) => CompactionStaysUnique(m, sessionId, strategy, now);
    case Clear(sessionId, scope) => ClearEffect(m, sessionId, scope, sessionId);
  }

  /** On runs that follow the rule, every compaction gives its summary a free id, so that nothing is
      overwritten and the summary stays. */
  lemma {:induction false} SummariesGetFreeIds(
    m: MemoryState, ops: seq<Op>, sessionId: string, strategy: Strategy, now: int)
    requires ReservedMemory(m) && RunKeepsReserved(m, ops)
    ensures var after := Run(m, ops);
            var d := Decide(after, sessionId, strategy, now);
            && ReservedMemory(after)
            && (d.Merge? ==> SummaryId(after, d) !in Ids(TargetStore(after, d.target).entries))
    decreases |ops|
  {
    hide ReservedMemory, Step, KeepsReserved, Decide, SummaryId;
    if ops != [] {
      StepStaysReserved(m, ops[0]);
      SummariesGetFreeIds(Step(m, ops[0]), ops[1..], sessionId, strategy, now);
    } else if Decide(m, sessionId, strategy, now).Merge? {
      ReservedIsFree(m, Decide(m, sessionId, strategy, now));
    }
  }

  // ----- bounded repetition -----

  function Own0(m: MemoryState, sessionId: string): nat {
    |InSession(m.layer0.entries, sessionId)|
  }

  function Own1(m: MemoryState, sessionId: string): nat {
    |InSession(m.layer1.entries, sessionId)|
  }

  /** One for a possible soft compaction, one for a possible hard one. */
  function SoftBudget(m: MemoryState, sessionId: string): nat {
    if Own0(m, sessionId) >= 3 then 1 else 0
  }

  function HardBudget(m: MemoryState, sessionId: string): nat {
    if Own0(m, sessionId) + Own1(m, sessionId) >= 2 then 1 else 0
  }

  predicate WritesInto(op: Op, sessionId: string) {
    op.Write? && op.draft.sessionId == Some(sessionId)
  }

  predicate Merges(m: MemoryState, op: Op, sessionId: string, strategy: Strategy) {
    op.Compact? && op.sessionId == sessionId && op.strategy == strategy
    && Decide(m, sessionId, strategy, op.now).Merge?
  }

  /** How often compactions of the session with this strategy change memory along a run. */
  function CountMerges(m: MemoryState, ops: seq<Op>, sessionId: string, strategy: Strategy): nat
    decreases |ops|
  {
    if ops == [] then 0
    else (if Merges(m, ops[0], sessionId, strategy) then 1 else 0)
         + CountMerges(Step(m, ops[0]), ops[1..], sessionId, strategy)
  }

  lemma WithoutShorter(entries: seq<Entry>, ids: seq<string>)
    ensures |Without(entries, ids)| <= |entries|
  {
  }

  lemma MergeSpendsBudget(m: MemoryState, sessionId: string, strategy: Strategy, d: Decision)
    requires UniqueMemory(m) && MergeShape(m, sessionId, strategy, d)
    ensures var m' := Applied(m, d);
            && (strategy.Soft? ==> SoftBudget(m, sessionId) == 1 && SoftBudget(m', sessionId) == 0)
            && (strategy.Hard? ==> HardBudget(m, sessionId) == 1 && HardBudget(m', sessionId) == 0)
            && Own0(m', sessionId) <= Own0(m, sessionId)
            && Own0(m', sessionId) + Own1(m', sessionId) <= Own0(m, sessionId) + Own1(m, sessionId)
  {
    OwnAfter(m, sessionId, strategy, d);
    SessionTokens(m, sessionId);
    ListedCount(m.layer0.entries, sessionId);
    hide Applied, Listed, InSession, OwnsSummaryId, EntryTokens, EstimateTokens, Sources;
  }

  /** Compacting one session never adds to another: it keeps its entries, but for one that holds the
      automatic id the summary receives. */
  lemma CompactionKeepsOthers(m: MemoryState, sessionId: string, strategy: Strategy, now: int, other: string)
    requires UniqueMemory(m) && other != sessionId
    ensures var m', d := Compacted(m, sessionId, strategy, now), Decide(m, sessionId, strategy, now);
            && ((&& InSession(m'.layer0.entries, other) == InSession(m.layer0.entries, other)
                 && InSession(m'.layer1.entries, other) == InSession(m.layer1.entries, other))
                <==> (d.Merge? ==> SummaryId(m, d) !in Ids(InSession(TargetStore(m, d.target).entries, other))))
            && Own0(m', other) <= Own0(m, other) && Own1(m', other) <= Own1(m, other)
  {
    DecisionShape(m, sessionId, strategy, now);
    var d := Decide(m, sessionId, strategy, now);
    assert d.Refuse? ==> Applied(m, d) == m;
    if d.Merge? {
      OthersKeptIff(m, sessionId, strategy, d, other);
      OthersAfter(m, sessionId, strategy, d, other);
      WithoutShorter(InSession(TargetStore(m, d.target).entries, other), [SummaryId(m, d)]);
      TargetsOf(m, sessionId, strategy, d);
    }
    hide Applied, Decide, InSession, Without, SummaryId, MergeShape;
  }

  lemma TargetsOf(m: MemoryState, sessionId: string, strategy: Strategy, d: Decision)
    requires MergeShape(m, sessionId, strategy, d)
    ensures d.target == if strategy.Soft? then Layer0 else Layer1
  {
  }

  lemma BudgetNeverGrows(m: MemoryState, op: Op, sessionId: string)
    requires UniqueMemory(m) && !WritesInto(op, sessionId)
    ensures var m' := Step(m, op);
            && Own0(m', sessionId) <= Own0(m, sessionId)
            && Own0(m', sessionId) + Own1(m', sessionId) <= Own0(m, sessionId) + Own1(m, sessionId)
  {
    match op
    case Write(layer, draft) =>
      var store := TargetStore(m, Landing(op));
      WriteEffect(m, op);
      ForeignPut(store.entries, ToEntry(store, draft), sessionId);
      WithoutShorter(InSession(store.entries, sessionId), [ToEntry(store, draft).id]);
    case Compact(id, strategy, now) =>
      if id != sessionId {
        CompactionKeepsOthers(m, id, strategy, now, sessionId);
      } else {
        DecisionShape(m, sessionId, strategy, now);
        var d := Decide(m, sessionId, strategy, now);
        if d.Merge? {
          MergeSpendsBudget(m, sessionId, strategy, d);
        }
      }
    case Clear(id, scope) => ClearEffect(m, id, scope, sessionId);
  }

  lemma StepSpends(m: MemoryState, op: Op, sessionId: string)
    requires UniqueMemory(m) && !WritesInto(op, sessionId)
    ensures (if Merges(m, op, sessionId, Soft) then 1 else 0) + SoftBudget(Step(m, op), sessionId)
            <= SoftBudget(m, sessionId)
    ensures (if Merges(m, op, sessionId, Hard) then 1 else 0) + HardBudget(Step(m, op), sessionId)
            <= HardBudget(m, sessionId)
  {
    hide Decide, Applied, InSession, MergeShape, UniqueMemory, Upserted, Cleared;
    BudgetNeverGrows(m, op, sessionId);
    if op.Compact? && op.sessionId == sessionId {
      var d := Decide(m, sessionId, op.strategy, op.now);
      DecisionShape(m, sessionId, op.strategy, op.now);
      if d.Merge? {
        MergeSpendsBudget(m, sessionId, op.strategy, d);
      }
    }
  }

  /** Along any run that writes nothing into a session, whatever happens to other sessions, at most
      one soft and one hard compaction of the session change memory. */
  lemma {:induction false} BoundedRepetition(m: MemoryState, ops: seq<Op>, sessionId: string)
    requires UniqueMemory(m)
    requires forall op :: op in ops ==> !WritesInto(op, sessionId)
    ensures CountMerges(m, ops, sessionId, Soft) <= SoftBudget(m, sessionId) <= 1
    ensures CountMerges(m, ops, sessionId, Hard) <= HardBudget(m, sessionId) <= 1
    decreases |ops|
  {
    hide Merges, Step, UniqueMemory, Own0, Own1, WritesInto;
    if ops != [] {
      StepStaysUnique(m, ops[0]);
      StepSpends(m, ops[0], sessionId);
      BoundedRepetition(Step(m, ops[0]), ops[1..], sessionId);
    }
  }

  /** After a hard compaction has merged, nothing more merges until the session is written to:
      a soft one can only come before the hard one. */
  lemma NothingAfterHard(m: MemoryState, sessionId: string, d: Decision, ops: seq<Op>)
    requires UniqueMemory(m) && MergeShape(m, sessionId, Hard, d)
    requires forall op :: op in ops ==> !WritesInto(op, sessionId)
    ensures CountMerges(Applied(m, d), ops, sessionId, Soft) == 0
    ensures CountMerges(Applied(m, d), ops, sessionId, Hard) == 0
  {
    HardLeavesOne(m, sessionId, d);
    MergeStaysUnique(m, sessionId, Hard, d);
    hide *;
    BoundedRepetition(Applied(m, d), ops, sessionId);
  }

  lemma HardLeavesOne(m: MemoryState, sessionId: string, d: Decision)
    requires UniqueMemory(m) && MergeShape(m, sessionId, Hard, d)
    ensures SoftBudget(Applied(m, d), sessionId) == 0 && HardBudget(Applied(m, d), sessionId) == 0
  {
    HardEffect(m, sessionId, d);
    hide Applied, MergeShape, InSession, SummaryEntry, SummaryId;
  }

  // ----- a caller that takes an automatic id -----

  /** An entry of 80 characters for layer 1, written under an explicit id. */
  function Long(id: string, sessionId: string): Draft {
    Draft(
      Some(id), seq(80, _ => 'x'), Some(sessionId), None, None,
      Metadata(Some(Admission(Some("user"), None, None, None)), None), 0)
  }

  function Saved(id: string, sessionId: string): Entry {
    Entry(id, Layer1, Long(id, sessionId).content, Some(sessionId), None, [], Long(id, sessionId).metadata, 0)
  }

  function Holding(entries: seq<Entry>): MemoryState {
    MemoryState(Store(Layer0, [], 0), Store(Layer1, entries, 0))
  }

  /** The session "other" takes the id "l1_1"; then the session "s" writes two entries. */
  function TakenId(): seq<Op> {
    [Write(Layer1, Long("l1_1", "other"))] + ([Write(Layer1, Long("a", "s"))] + ([Write(Layer1, Long("b", "s"))] + []))
  }

  function Taken(): MemoryState {
    Holding([Saved("l1_1", "other"), Saved("a", "s"), Saved("b", "s")])
  }

  lemma RunCons(m: MemoryState, op: Op, rest: seq<Op>)
    ensures Run(m, [op] + rest) == Run(Step(m, op), rest)
  {
    hide Step;
    assert ([op] + rest)[1..] == rest;
  }

  lemma WrittenNext(entries: seq<Entry>, id: string, sessionId: string)
    requires id != "" && forall x :: x in entries ==> x.id != id
    ensures Step(Holding(entries), Write(Layer1, Long(id, sessionId))) == Holding(entries + [Saved(id, sessionId)])
  {
    PutFresh(entries, Saved(id, sessionId));
    assert Find(entries, id) == None;
  }

  lemma ReachTaken()
    ensures Run(Holding([]), TakenId()) == Taken()
  {
    var e, a, b := Saved("l1_1", "other"), Saved("a", "s"), Saved("b", "s");
    assert |e.id| == 4 && |a.id| == |b.id| == 1 && a.id[0] != b.id[0];
    WrittenNext([], "l1_1", "other");
    WrittenNext([e], "a", "s");
    WrittenNext([e, a], "b", "s");
    assert [] + [e] == [e] && [e] + [a] == [e, a] && [e, a] + [b] == [e, a, b];
    hide Step, Saved, Long, Holding;
    var w0, w1, w2 := Write(Layer1, Long("l1_1", "other")), Write(Layer1, Long("a", "s")), Write(Layer1, Long("b", "s"));
    RunCons(Holding([]), w0, [w1] + ([w2] + []));
    RunCons(Holding([e]), w1, [w2] + []);
    RunCons(Holding([e, a]), w2, []);
  }

  lemma OwnOfThree(e: Entry, a: Entry, b: Entry, sessionId: string, other: string)
    requires e.sessionId == Some(other) && a.sessionId == b.sessionId == Some(sessionId) && other != sessionId
    ensures InSession([e, a, b], sessionId) == [a, b] && InSession([e, a, b], other) == [e]
  {
    hide *;
    InSessionCons(e, [a, b], sessionId);
    InSessionCons(a, [b], sessionId);
    InSessionCons(b, [], sessionId);
    InSessionCons(e, [a, b], other);
    InSessionCons(a, [b], other);
    InSessionCons(b, [], other);
    NoEntries(sessionId);
    NoEntries(other);
    assert [e] + [a, b] == [e, a, b] && [a] + [b] == [a, b] && [b] + [] == [b];
    assert [] + [a, b] == [a, b] && [e] + [] == [e];
  }

  lemma NoEntries(sessionId: string)
    ensures InSession([], sessionId) == [] && Listed([], sessionId) == []
  {
  }

  lemma SortedPair(a: Entry, b: Entry)
    requires a.updatedAt >= b.updatedAt
    ensures SortDesc([a, b]) == [a, b]
  {
    assert [a, b][1..] == [b] && [b][1..] == [];
  }

  lemma TakenEntries()
    ensures var a, b := Saved("a", "s"), Saved("b", "s");
            && InSession(Taken().layer1.entries, "s") == [a, b] && Listed(Taken().layer1.entries, "s") == [a, b]
            && InSession(Taken().layer1.entries, "other") == [Saved("l1_1", "other")]
            && Listed(Taken().layer0.entries, "s") == []
  {
    var e, a, b := Saved("l1_1", "other"), Saved("a", "s"), Saved("b", "s");
    assert "other" != "s" by { assert |"other"| == 5; }
    assert a.updatedAt == b.updatedAt && e.sessionId == Some("other") && a.sessionId == b.sessionId == Some("s");
    hide InSession, SortDesc, Saved;
    OwnOfThree(e, a, b, "s", "other");
    SortedPair(a, b);
    NoEntries("s");
  }

  lemma LongTokens(id: string, sessionId: string)
    ensures EstimateTokens(Long(id, sessionId).content) == 20
    ensures SourceAllowed(Saved(id, sessionId), Layer1)
  {
    TrimOfTrimmed(Long(id, sessionId).content);
  }

  lemma MinimalIsShort(sources: seq<Entry>)
    requires |sources| == 2
    ensures EstimateTokens(MinimalSummary(Hard, sources)) <= 12
  {
    var text := MinimalSummary(Hard, sources);
    assert Decimal(2) == "2";
    assert MergedLine(sources) == "Merged entries: 2";
    assert ["Hard compacted memory summary.", "Merged entries: 2"][1..] == ["Merged entries: 2"];
    assert text == "Hard compacted memory summary." + "\n" + "Merged entries: 2";
    TrimIsTrimmed(text);
  }

  lemma TakenSources()
    ensures SessionEntries(Taken(), "s") == Sources(Taken(), "s", Hard) == [Saved("a", "s"), Saved("b", "s")]
  {
    var a, b := Saved("a", "s"), Saved("b", "s");
    TakenEntries();
    LongTokens("a", "s");
    LongTokens("b", "s");
    hide Listed, SourceAllowed, Saved;
    assert [] + [a, b] == [a, b];
    FilterAll([a, b], AllowedFor(Layer1));
  }

  lemma TakenMerges()
    ensures Decide(Taken(), "s", Hard, 1).Merge?
  {
    var a, b := Saved("a", "s"), Saved("b", "s");
    assert a.content == Long("a", "s").content && b.content == Long("b", "s").content;
    hide *;
    TakenSources();
    LongTokens("a", "s");
    LongTokens("b", "s");
    SumOfTwo(a, b);
    MinimalIsShort([a, b]);
    RefusedIffNoTierIsCheaper(Taken(), "s", Hard, 1);
  }

  /** A reachable memory that breaks the rule: the session "other" holds "l1_1", the automatic id of the
      next summary. The hard compaction of "s" goes through, and the other session has lost its entry. */
  lemma TakenIdIsOverwritten()
    ensures var before := Run(Holding([]), TakenId());
            var after := Step(before, Compact("s", Hard, 1));
            && InSession(before.layer1.entries, "other") == [Saved("l1_1", "other")]
            && InSession(after.layer1.entries, "other") == []
            && |InSession(after.layer1.entries, "s")| == 1
  {
    assert "other" != "s" by { assert |"other"| == 5; }
    assert Saved("l1_1", "other").id == "l1_1";
    hide *;
    ReachTaken();
    TakenEntries();
    TakenMerges();
    TakenIsUnique();
    var m, d := Taken(), Decide(Taken(), "s", Hard, 1);
    DecisionShape(m, "s", Hard, 1);
    OthersAfter(m, "s", Hard, d, "other");
    HardEffect(m, "s", d);
    TakenSummaryId(d);
    OnlyOne(Saved("l1_1", "other"));
    CompactStep(m, "s", Hard, 1);
  }

  lemma CompactStep(m: MemoryState, sessionId: string, strategy: Strategy, now: int)
    ensures Step(m, Compact(sessionId, strategy, now)) == Applied(m, Decide(m, sessionId, strategy, now))
  {
    hide Decide, Applied;
  }

  lemma TakenIsUnique()
    ensures UniqueMemory(Taken())
  {
    var e, a, b := Saved("l1_1", "other"), Saved("a", "s"), Saved("b", "s");
    assert |e.id| == 4 && |a.id| == |b.id| == 1 && a.id[0] != b.id[0];
  }

  lemma FirstAutoId()
    ensures AutoId(Layer1, 1) == "l1_1"
  {
    assert Decimal(1) == "1";
    assert "l1_" + "1" == "l1_1";
  }

  lemma TakenSummaryId(d: Decision)
    requires MergeShape(Taken(), "s", Hard, d)
    ensures d.target == Layer1 && SummaryId(Taken(), d) == "l1_1" && "l1_1" !in Ids(d.removed1)
    ensures TargetStore(Taken(), d.target) == Taken().layer1
    ensures TargetStore(Applied(Taken(), d), d.target) == Applied(Taken(), d).layer1
  {
    FirstAutoId();
    TakenEntries();
    hide Listed, InSession, EntryTokens, EstimateTokens, Sources, Applied, AutoId;
    var a, b := Saved("a", "s"), Saved("b", "s");
    assert d.removed1 == [a, b];
    assert |"l1_1"| == 4 && |a.id| == |b.id| == 1;
  }

  lemma OnlyOne(e: Entry)
    ensures Without([e], [e.id]) == []
  {
    FilterSingle(e, KeepsId([e.id]));
  }
}
