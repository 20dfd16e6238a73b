/** Where the content of a summary comes from, over whole runs. */
module Provenance {
  import opened Options
  import opened Sequences
  import opened Text
  import opened Memory
  import opened Compaction
  import opened CompactionLaws
  import opened MemoryRuns

  datatype Key = Key(layer: Layer, id: string)

  function KeyOf(e: Entry): Key {
    Key(e.layer, e.id)
  }

  /** Memory together with its history: for each entry the externally written entries it was made
      of, and which entries are compaction summaries. */
  datatype History = History(memory: MemoryState, origins: map<Key, seq<Entry>>, summaries: set<Key>)

  const EMPTY_HISTORY := History(MemoryState(Store(Layer0, [], 0), Store(Layer1, [], 0)), map[], {})

  function OriginsIn(origins: map<Key, seq<Entry>>): Entry -> seq<Entry> {
    (e: Entry) => if KeyOf(e) in origins then origins[KeyOf(e)] else []
  }

  function Recorded(h: History, op: Op): History {
    var m' := Step(h.memory, op);
    match op
    case Write(layer, draft) =>
      var e := ToEntry(TargetStore(h.memory, Landing(op)), draft);
      History(m', h.origins[KeyOf(e) := [e]], h.summaries - {KeyOf(e)})
    case Compact(sessionId, strategy, now) =>
      var d := Decide(h.memory, sessionId, strategy, now);
      if d.Refuse? then h.(memory := m')
      else
        var e := SummaryEntry(h.memory, d);
        var flattened := FlatMap(Sources(h.memory, sessionId, strategy), OriginsIn(h.origins));
        History(m', h.origins[KeyOf(e) := flattened], h.summaries + {KeyOf(e)})
    case Clear(_, _) => h.(memory := m')
  }

  function RecordedRun(h: History, ops: seq<Op>): History
    decreases |ops|
  {
    if ops == [] then h else RecordedRun(Recorded(h, ops[0]), ops[1..])
  }

  // ----- what every summary satisfies -----

  predicate MarkedSafe(e: Entry) {
    && e.metadata.admission.Some? && e.metadata.admission.value.safety.Some?
    && e.metadata.admission.value.safety.value.safe == Some(true)
  }

  ghost predicate OriginAllowed(o: Entry) {
    !ExcludedSource(o) && (Retention(o) == Some("working") || Retention(o) == Some("user"))
  }

  /** The summary `e` is made of `origins` and of nothing else. */
  ghost predicate FaithfulSummary(e: Entry, origins: seq<Entry>) {
    && !ExcludedSource(e)
    && Retention(e) == Some(if e.layer.Layer1? then "user" else "working")
    && origins != []
    && (forall o :: o in origins ==> OriginAllowed(o))
    && (e.layer.Layer1? ==> forall o :: o in origins ==> Retention(o) == Some("user"))
    && Findings(e) == AllFindings(origins)
    && (MarkedSafe(e) <==> AllFindings(origins) == [])
  }

  ghost predicate TracedEntry(h: History, e: Entry) {
    && KeyOf(e) in h.origins
    && (KeyOf(e) in h.summaries ==> FaithfulSummary(e, h.origins[KeyOf(e)]))
    && (KeyOf(e) !in h.summaries ==> h.origins[KeyOf(e)] == [e])
  }

  ghost predicate Traced(h: History) {
    && UniqueMemory(h.memory)
    && (forall e :: e in h.memory.layer0.entries ==> TracedEntry(h, e))
    && (forall e :: e in h.memory.layer1.entries ==> TracedEntry(h, e))
  }

  // ----- laws about the summary draft -----

  lemma {:induction false} FlatMapMembers<T, U>(s: seq<T>, f: T -> seq<U>, y: U)
    requires y in FlatMap(s, f)
    ensures exists x :: x in s && y in f(x)
  {
    var t, x := s[..|s| - 1], s[|s| - 1];
    if y !in f(x) {
      FlatMapMembers(t, f, y);
      var z :| z in t && y in f(z);
      assert z in s;
    } else {
      assert x in s;
    }
  }

  /** Flattening twice is flattening once. */
  lemma {:induction false} FlatMapCompose<T, U, V>(s: seq<T>, f: T -> seq<U>, g: U -> seq<V>, h: T -> seq<V>)
    requires forall x :: x in s ==> FlatMap(f(x), g) == h(x)
    ensures FlatMap(FlatMap(s, f), g) == FlatMap(s, h)
  {
    if s != [] {
      var t, x := s[..|s| - 1], s[|s| - 1];
      assert x in s;
      FlatMapCompose(t, f, g, h);
      FlatMapConcat(FlatMap(t, f), f(x), g);
    }
  }

  lemma FlatMapSingle<T, U>(x: T, f: T -> seq<U>)
    ensures FlatMap([x], f) == f(x)
  {
    assert [x][..0] == [];
  }

  lemma FixedTagsAreSafe(strategy: Strategy)
    ensures forall tag :: tag in FixedTags(strategy) ==> !ExcludedTag(tag)
  {
    assert Lower("control-plane")[0] == 'c';
    assert |Lower("compacted")| == 9;
    assert |Lower(StrategyName(strategy))| == 4;
    assert Lower("memory:compaction")[7] == 'c';
    assert |Lower("memory:system-summary")| == 21;
  }

  lemma SummaryTagsAreSafe(strategy: Strategy, sources: seq<Entry>)
    ensures |SummaryTags(strategy, sources)| <= MAX_SUMMARY_TAGS
    ensures forall tag :: tag in SummaryTags(strategy, sources) ==> !ExcludedTag(tag)
  {
    FixedTagsAreSafe(strategy);
    hide ExcludedTag, FixedTags;
    var all := Unique(FixedTags(strategy) + InheritedTags(sources));
    forall tag | tag in SummaryTags(strategy, sources) ensures !ExcludedTag(tag) {
      assert tag in all;
      assert tag in FixedTags(strategy) || tag in InheritedTags(sources);
    }
  }

  lemma SummaryDraftFields(m: MemoryState, sessionId: string, strategy: Strategy, now: int)
    requires Decide(m, sessionId, strategy, now).Merge?
    ensures var d, sources := Decide(m, sessionId, strategy, now), Sources(m, sessionId, strategy);
            && sources != []
            && d.summary == SummaryDraft(d.target, sessionId, strategy, sources, now)
            && d.target == if strategy.Soft? then Layer0 else Layer1
  {
    hide SummaryDraft, SummaryContent;
  }

  lemma SummaryFields(store: Store, sessionId: string, strategy: Strategy, sources: seq<Entry>, now: int)
    ensures var e := ToEntry(store, SummaryDraft(store.layer, sessionId, strategy, sources, now));
            && e.layer == store.layer
            && e.namespace == Some("compaction")
            && e.tags == SummaryTags(strategy, sources)
            && Retention(e) == Some(if store.layer.Layer1? then "user" else "working")
            && Findings(e) == AllFindings(sources)
            && (MarkedSafe(e) <==> AllFindings(sources) == [])
  {
    hide SummaryContent, SummaryTags, RecordOf;
  }

  lemma SummaryNotExcluded(store: Store, sessionId: string, strategy: Strategy, sources: seq<Entry>, now: int)
    ensures !ExcludedSource(ToEntry(store, SummaryDraft(store.layer, sessionId, strategy, sources, now)))
  {
    SummaryFields(store, sessionId, strategy, sources, now);
    hide SummaryDraft, SummaryTags, ExcludedTag;
    SummaryTagsAreSafe(strategy, sources);
    assert |Lower("compaction")| == 10;
  }

  lemma SourcesAreAdmissible(m: MemoryState, sessionId: string, strategy: Strategy)
    ensures forall s :: s in Sources(m, sessionId, strategy) ==>
              && (s in m.layer0.entries || s in m.layer1.entries)
              && SourceAllowed(s, if strategy.Soft? then Layer0 else Layer1)
  {
  }

  /** The heart of the induction: origins of admissible sources are admissible, and retention does
      not escalate. */
  lemma SourceOrigins(h: History, s: Entry, target: Layer)
    requires Traced(h) && (s in h.memory.layer0.entries || s in h.memory.layer1.entries)
    requires SourceAllowed(s, target)
    ensures var origins := OriginsIn(h.origins)(s);
            && origins != []
            && (forall o :: o in origins ==> OriginAllowed(o))
            && (target.Layer1? ==> forall o :: o in origins ==> Retention(o) == Some("user"))
            && AllFindings(origins) == Findings(s)
  {
    hide ExcludedSource;
    assert TracedEntry(h, s);
    FlatMapSingle(s, Findings);
  }

  lemma MergedOrigins(h: History, sessionId: string, strategy: Strategy)
    requires Traced(h) && Sources(h.memory, sessionId, strategy) != []
    ensures var sources := Sources(h.memory, sessionId, strategy);
            var origins := FlatMap(sources, OriginsIn(h.origins));
            && origins != []
            && (forall o :: o in origins ==> OriginAllowed(o))
            && (strategy.Hard? ==> forall o :: o in origins ==> Retention(o) == Some("user"))
            && AllFindings(origins) == AllFindings(sources)
  {
    var sources, f := Sources(h.memory, sessionId, strategy), OriginsIn(h.origins);
    var target := if strategy.Soft? then Layer0 else Layer1;
    SourcesAreAdmissible(h.memory, sessionId, strategy);
    hide Sources, SourceAllowed, OriginAllowed, Traced, Findings;
    forall s | s in sources
      ensures f(s) != [] && FlatMap(f(s), Findings) == Findings(s)
      ensures forall o :: o in f(s) ==> OriginAllowed(o) && (strategy.Hard? ==> Retention(o) == Some("user"))
    {
      SourceOrigins(h, s, target);
    }
    FlatMapCompose(sources, f, Findings, Findings);
    forall o | o in FlatMap(sources, f)
      ensures OriginAllowed(o) && (strategy.Hard? ==> Retention(o) == Some("user"))
    {
      FlatMapMembers(sources, f, o);
    }
    assert sources[|sources| - 1] in sources;
  }

  lemma NewSummaryIsFaithful(h: History, sessionId: string, strategy: Strategy, now: int)
    requires Traced(h) && Decide(h.memory, sessionId, strategy, now).Merge?
    ensures var d := Decide(h.memory, sessionId, strategy, now);
            FaithfulSummary(
              SummaryEntry(h.memory, d), FlatMap(Sources(h.memory, sessionId, strategy), OriginsIn(h.origins)))
  {
    SummaryDraftFields(h.memory, sessionId, strategy, now);
    var d, sources := Decide(h.memory, sessionId, strategy, now), Sources(h.memory, sessionId, strategy);
    hide Decide, Sources, SummaryDraft;
    SummaryFields(TargetStore(h.memory, d.target), sessionId, strategy, sources, now);
    SummaryNotExcluded(TargetStore(h.memory, d.target), sessionId, strategy, sources, now);
    MergedOrigins(h, sessionId, strategy);
  }

  // ----- preservation -----

  lemma WriteStaysTraced(h: History, op: Op)
    requires Traced(h) && op.Write?
    ensures Traced(Recorded(h, op))
  {
    hide FaithfulSummary, ToEntry;
    var store := TargetStore(h.memory, Landing(op));
    var e := ToEntry(store, op.draft);
    StepStaysUnique(h.memory, op);
    WriteEffect(h.memory, op);
    PutUnique(store.entries, e);
  }

  predicate InMemory(m: MemoryState, e: Entry) {
    e in m.layer0.entries || e in m.layer1.entries
  }

  lemma MergedMembers(m: MemoryState, sessionId: string, strategy: Strategy, d: Decision, x: Entry)
    requires UniqueMemory(m) && MergeShape(m, sessionId, strategy, d)
    requires InMemory(Applied(m, d), x)
    ensures x == SummaryEntry(m, d) || (InMemory(m, x) && KeyOf(x) != KeyOf(SummaryEntry(m, d)))
  {
    MembersAfter(m, sessionId, strategy, d, x);
    SummaryEntryFields(m, sessionId, strategy, d);
    hide Applied, SummaryId, SummaryEntry, Listed, Sources, EntryTokens, EstimateTokens;
  }

  lemma OtherEntryStaysTraced(h: History, x: Entry, m': MemoryState, key: Key, origins: seq<Entry>)
    requires TracedEntry(h, x) && KeyOf(x) != key
    ensures TracedEntry(History(m', h.origins[key := origins], h.summaries + {key}), x)
  {
  }

  lemma MergeStaysTraced(h: History, m': MemoryState, e: Entry, origins: seq<Entry>)
    requires Traced(h) && UniqueMemory(m') && FaithfulSummary(e, origins)
    requires forall x :: InMemory(m', x) ==> x == e || (InMemory(h.memory, x) && KeyOf(x) != KeyOf(e))
    ensures Traced(History(m', h.origins[KeyOf(e) := origins], h.summaries + {KeyOf(e)}))
  {
    hide FaithfulSummary, UniqueMemory, KeyOf;
    var h' := History(m', h.origins[KeyOf(e) := origins], h.summaries + {KeyOf(e)});
    forall x | InMemory(m', x) ensures TracedEntry(h', x) {
      if x != e {
        assert InMemory(h.memory, x);
        OtherEntryStaysTraced(h, x, m', KeyOf(e), origins);
      }
    }
    assert forall x :: x in m'.layer0.entries ==> InMemory(m', x);
    assert forall x :: x in m'.layer1.entries ==> InMemory(m', x);
  }

  lemma StepStaysTraced(h: History, op: Op)
    requires Traced(h)
    ensures Traced(Recorded(h, op))
  {
    StepStaysUnique(h.memory, op);
    match op
    case Write(_, _) => WriteStaysTraced(h, op);
    case Compact(sessionId, strategy, now) =>
      var d := Decide(h.memory, sessionId, strategy, now);
      DecisionShape(h.memory, sessionId, strategy, now);
      if d.Merge? {
        NewSummaryIsFaithful(h, sessionId, strategy, now);
        var m', e := Applied(h.memory, d), SummaryEntry(h.memory, d);
        forall x | InMemory(m', x) ensures x == e || (InMemory(h.memory, x) && KeyOf(x) != KeyOf(e)) {
          MergedMembers(h.memory, sessionId, strategy, d, x);
        }
        MergeStaysTraced(h, m', e, FlatMap(Sources(h.memory, sessionId, strategy), OriginsIn(h.origins)));
      }
    case Clear(_, _) =>
  }

  /** Over every run of writes, compactions and clears, every summary in memory is faithful to the
      entries it was made of, however deeply summaries were summarised again. */
  lemma {:induction false} RunStaysTraced(h: History, ops: seq<Op>)
    requires Traced(h)
    ensures Traced(RecordedRun(h, ops))
    decreases |ops|
  {
    if ops != [] {
      StepStaysTraced(h, ops[0]);
      RunStaysTraced(Recorded(h, ops[0]), ops[1..]);
    }
  }

  /** The consequences in the source's terms, for a run from empty memory. */
  lemma SummariesOverRuns(ops: seq<Op>, e: Entry)
    requires var h := RecordedRun(EMPTY_HISTORY, ops);
             KeyOf(e) in h.summaries && (e in h.memory.layer0.entries || e in h.memory.layer1.entries)
    ensures var h := RecordedRun(EMPTY_HISTORY, ops);
            KeyOf(e) in h.origins &&
            var origins := h.origins[KeyOf(e)];
            // retention never escalates
            && (Retention(e) == Some("user") ==> forall o :: o in origins ==> Retention(o) == Some("user"))
            && ((exists o :: o in origins && Retention(o) == Some("working")) ==>
                  Retention(e) == Some("working") && !SourceAllowed(e, Layer1))
            // excluded content never enters, and no summary carries an excluded tag
            && (forall o :: o in origins ==> !ExcludedSource(o))
            && (forall tag :: tag in e.tags ==> !ExcludedTag(tag))
            // findings are exactly those of the origins
            && Findings(e) == AllFindings(origins)
            && (MarkedSafe(e) <==> AllFindings(origins) == [])
  {
    RunStaysTraced(EMPTY_HISTORY, ops);
    var h := RecordedRun(EMPTY_HISTORY, ops);
    hide RecordedRun, ExcludedTag;
    assert TracedEntry(h, e);
    assert "user" != "working";
  }
}
