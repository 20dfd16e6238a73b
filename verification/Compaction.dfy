/** Soft and hard compaction of one session's memory into a single summary entry. */
module Compaction {
  import opened Options
  import opened Sequences
  import opened Text
  import opened Memory
  import opened Sessions

  // ----- token budget -----

  function EstimateTokens(text: string): nat {
    var length := |Trim(text)|;
    if length == 0 then 0 else (length + 3) / 4
  }

  function EntryTokens(entries: seq<Entry>): nat {
    if entries == [] then 0
    else EntryTokens(entries[..|entries| - 1]) + EstimateTokens(entries[|entries| - 1].content)
  }

  // ----- admission of sources -----

  predicate ExcludedTag(tag: string) {
    var normalized := Lower(tag);
    || normalized == "memory:noise" || normalized == "memory:quarantine"
    || normalized == "memory:casual" || normalized == "memory:assistant-output"
  }

  predicate ExcludedSource(e: Entry) {
    || (e.namespace.Some? && Lower(e.namespace.value) == "assistant-output")
    || exists tag :: tag in e.tags && ExcludedTag(tag)
  }

  function Retention(e: Entry): Option<string> {
    if e.metadata.admission.Some? then e.metadata.admission.value.retention else None
  }

  predicate SourceAllowed(e: Entry, target: Layer) {
    && !ExcludedSource(e)
    && e.metadata.admission.Some?
    && match target
       case Layer1 => Retention(e) == Some("user")
       case Layer0 => Retention(e) == Some("working") || Retention(e) == Some("user")
  }

  function AllowedFor(target: Layer): Entry -> bool {
    (e: Entry) => SourceAllowed(e, target)
  }

  function Findings(e: Entry): seq<string> {
    if && e.metadata.admission.Some?
       && e.metadata.admission.value.safety.Some?
       && e.metadata.admission.value.safety.value.findings.Some?
    then e.metadata.admission.value.safety.value.findings.value
    else []
  }

  function AllFindings(entries: seq<Entry>): seq<string> {
    FlatMap(entries, Findings)
  }

  function AdmissionSummary(e: Entry): SourceAdmission {
    var admission := e.metadata.admission;
    var safety := if admission.Some? then admission.value.safety else None;
    SourceAdmission(
      e.id,
      Retention(e),
      if admission.Some? then admission.value.category else None,
      safety.None? || (safety.value.safe != Some(false) && Findings(e) == []))
  }

  // ----- summary text -----

  function LayerName(layer: Layer): string {
    match layer case Layer0 => "layer0" case Layer1 => "layer1"
  }

  function StrategyName(strategy: Strategy): string {
    match strategy case Soft => "soft" case Hard => "hard"
  }

  function NamespaceOr(e: Entry, default: string): string {
    if e.namespace.Some? then e.namespace.value else default
  }

  function Snippet(content: string, maxChars: nat): string {
    var normalized := Trim(CollapseSpaces(content));
    if |normalized| <= maxChars then normalized
    else TrimEnd(normalized[..if maxChars > 4 then maxChars - 3 else 1]) + "..."
  }

  function MaxItems(strategy: Strategy): nat {
    if strategy.Soft? then 4 else 3
  }

  function SnippetChars(strategy: Strategy): nat {
    if strategy.Soft? then 96 else 72
  }

  function MergedLine(sources: seq<Entry>): string {
    "Merged entries: " + Decimal(|sources|)
  }

  function LayersLine(sources: seq<Entry>): string {
    "Layers: " + Join(Unique(Map(sources, (e: Entry) => LayerName(e.layer))), ", ")
  }

  function ItemLine(e: Entry, index: nat, maxChars: nat): string {
    Decimal(index + 1) + ". [" + LayerName(e.layer) + "/" + NamespaceOr(e, "default") + "] "
    + Snippet(e.content, maxChars)
  }

  function VerboseHeading(strategy: Strategy): string {
    if strategy.Soft? then "Soft compaction summary for older working-memory entries."
    else "Hard compaction summary for the session memory set."
  }

  function ItemLines(strategy: Strategy, sources: seq<Entry>): seq<string> {
    var shown := if |sources| <= MaxItems(strategy) then |sources| else MaxItems(strategy);
    seq(shown, i requires 0 <= i < shown => ItemLine(sources[i], i, SnippetChars(strategy)))
  }

  function MoreLines(strategy: Strategy, sources: seq<Entry>): seq<string> {
    if |sources| > MaxItems(strategy)
    then ["+" + Decimal(|sources| - MaxItems(strategy)) + " more entries merged into this summary."]
    else []
  }

  function VerboseLines(strategy: Strategy, sources: seq<Entry>): seq<string> {
    [VerboseHeading(strategy), MergedLine(sources), LayersLine(sources)]
    + ItemLines(strategy, sources) + MoreLines(strategy, sources)
  }

  function VerboseSummary(strategy: Strategy, sources: seq<Entry>): string {
    Join(VerboseLines(strategy, sources), "\n")
  }

  function CompactSummary(strategy: Strategy, sources: seq<Entry>): string {
    var heading :=
      if strategy.Soft? then "Soft compaction summary for session working memory."
      else "Hard compaction summary for the full session memory.";
    Join(
      [heading, MergedLine(sources), LayersLine(sources),
       "Namespaces: " + Join(Unique(Map(sources, (e: Entry) => NamespaceOr(e, "default"))), ", ")],
      "\n")
  }

  function MinimalSummary(strategy: Strategy, sources: seq<Entry>): string {
    var heading :=
      if strategy.Soft? then "Soft compacted memory summary." else "Hard compacted memory summary.";
    Join([heading, MergedLine(sources)], "\n")
  }

  function SummaryContent(strategy: Strategy, sources: seq<Entry>): string {
    var budget := EntryTokens(sources);
    if EstimateTokens(VerboseSummary(strategy, sources)) < budget then VerboseSummary(strategy, sources)
    else if EstimateTokens(CompactSummary(strategy, sources)) < budget then CompactSummary(strategy, sources)
    else MinimalSummary(strategy, sources)
  }

  // ----- summary entry -----

  const MAX_SUMMARY_TAGS: nat := 12

  function FixedTags(strategy: Strategy): seq<string> {
    ["control-plane", "compacted", StrategyName(strategy), "memory:compaction", "memory:system-summary"]
  }

  function InheritedTags(sources: seq<Entry>): seq<string> {
    Filter(FlatMap(sources, (e: Entry) => e.tags), (tag: string) => !ExcludedTag(tag))
  }

  function SummaryTags(strategy: Strategy, sources: seq<Entry>): seq<string> {
    var all := Unique(FixedTags(strategy) + InheritedTags(sources));
    if |all| <= MAX_SUMMARY_TAGS then all else all[..MAX_SUMMARY_TAGS]
  }

  function RecordOf(strategy: Strategy, sources: seq<Entry>, now: int): SummaryRecord {
    SummaryRecord(
      strategy, now, Ids(sources),
      Unique(Map(sources, (e: Entry) => e.layer)),
      Unique(Map(sources, (e: Entry) => NamespaceOr(e, "(default)"))),
      Map(sources, AdmissionSummary))
  }

  function SummaryDraft(target: Layer, sessionId: string, strategy: Strategy, sources: seq<Entry>, now: int): Draft {
    var findings := AllFindings(sources);
    Draft(
      None, SummaryContent(strategy, sources), Some(sessionId), Some("compaction"),
      Some(SummaryTags(strategy, sources)),
      Metadata(
        Some(Admission(
          Some(if target.Layer1? then "user" else "working"),
          Some("conversation"),
          Some(if strategy.Hard? then "system:hard-compaction-summary" else "system:soft-compaction-summary"),
          Some(Safety(Some(findings == []), Some(findings))))),
        Some(RecordOf(strategy, sources, now))),
      now)
  }

  function CreateSummary(target: Layer, sessionId: string, strategy: Strategy, sources: seq<Entry>, now: int): Option<Draft> {
    if sources == [] || EstimateTokens(SummaryContent(strategy, sources)) >= EntryTokens(sources) then None
    else Some(SummaryDraft(target, sessionId, strategy, sources, now))
  }

  // ----- decision and effect -----

  datatype Reason =
    | SoftNeedsThreeEntries
    | WorkingMemoryAlreadyCompact
    | HardNeedsTwoEntries
    | HardHasNoAdmissibleEntries
    | SessionMemoryAlreadyCompact

  function ReasonText(reason: Reason): string {
    match reason
    case SoftNeedsThreeEntries => "soft-compaction-requires-at-least-3-working-memory-entries"
    case WorkingMemoryAlreadyCompact => "working-memory-already-compact"
    case HardNeedsTwoEntries => "hard-compaction-requires-at-least-2-memory-entries"
    case HardHasNoAdmissibleEntries => "hard-compaction-has-no-admissible-memory-entries"
    case SessionMemoryAlreadyCompact => "session-memory-already-compact"
  }

  datatype Decision =
    | Refuse(reason: Reason)
    | Merge(target: Layer, summary: Draft, removed0: seq<Entry>, removed1: seq<Entry>)

  function SoftSources(m: MemoryState, sessionId: string): seq<Entry> {
    var listed := Listed(m.layer0.entries, sessionId);
    if listed == [] then [] else Filter(listed[1..], AllowedFor(Layer0))
  }

  function HardSources(m: MemoryState, sessionId: string): seq<Entry> {
    Filter(Listed(m.layer0.entries, sessionId) + Listed(m.layer1.entries, sessionId), AllowedFor(Layer1))
  }

  function Sources(m: MemoryState, sessionId: string, strategy: Strategy): seq<Entry> {
    if strategy.Soft? then SoftSources(m, sessionId) else HardSources(m, sessionId)
  }

  function Decide(m: MemoryState, sessionId: string, strategy: Strategy, now: int): Decision {
    var before0 := Listed(m.layer0.entries, sessionId);
    var before1 := Listed(m.layer1.entries, sessionId);
    match strategy
    case Soft =>
      if |before0| < 3 then Refuse(SoftNeedsThreeEntries)
      else
        var summary := CreateSummary(Layer0, sessionId, Soft, SoftSources(m, sessionId), now);
        if summary.None? then Refuse(WorkingMemoryAlreadyCompact)
        else Merge(Layer0, summary.value, before0[1..], [])
    case Hard =>
      if |before0| + |before1| < 2 then Refuse(HardNeedsTwoEntries)
      else if HardSources(m, sessionId) == [] then Refuse(HardHasNoAdmissibleEntries)
      else
        var summary := CreateSummary(Layer1, sessionId, Hard, HardSources(m, sessionId), now);
        if summary.None? then Refuse(SessionMemoryAlreadyCompact)
        else Merge(Layer1, summary.value, before0, before1)
  }

  function Written(m: MemoryState, target: Layer, summary: Draft): MemoryState {
    if target.Layer0? then WriteLayer0(m, summary) else WriteLayer1(m, summary)
  }

  function Applied(m: MemoryState, d: Decision): MemoryState {
    match d
    case Refuse(_) => m
    case Merge(target, summary, removed0, removed1) =>
      var w := Written(m, target, summary);
      MemoryState(
        w.layer0.(entries := Without(w.layer0.entries, Ids(removed0))),
        w.layer1.(entries := Without(w.layer1.entries, Ids(removed1))))
  }

  function Compacted(m: MemoryState, sessionId: string, strategy: Strategy, now: int): MemoryState {
    Applied(m, Decide(m, sessionId, strategy, now))
  }

  function TargetStore(m: MemoryState, target: Layer): Store {
    if target.Layer0? then m.layer0 else m.layer1
  }

  datatype CompactionResult = CompactionResult(
    sessionId: string,
    compacted: bool,
    strategy: Strategy,
    beforeTokens: nat,
    afterTokens: nat,
    reducedTokens: nat,
    beforeEntryCount: nat,
    afterEntryCount: nat,
    removedEntryIds: seq<string>,
    summaryEntryIds: seq<string>,
    reason: Option<Reason>)

  function SessionEntries(m: MemoryState, sessionId: string): seq<Entry> {
    Listed(m.layer0.entries, sessionId) + Listed(m.layer1.entries, sessionId)
  }

  /** The ids a decision removes, the ids it adds and its reason, as the result reports them. */
  function Reported(m: MemoryState, d: Decision): (seq<string>, seq<string>, Option<Reason>) {
    match d
    case Refuse(reason) => ([], [], Some(reason))
    case Merge(target, summary, removed0, removed1) =>
      (Ids(removed0 + removed1), [ToEntry(TargetStore(m, target), summary).id], None)
  }

  function BuildResult(
    sessionId: string, strategy: Strategy, before: seq<Entry>, after: seq<Entry>,
    reported: (seq<string>, seq<string>, Option<Reason>)): CompactionResult
  {
    var beforeTokens, afterTokens := EntryTokens(before), EntryTokens(after);
    CompactionResult(
      sessionId, |reported.0| > 0, strategy, beforeTokens, afterTokens,
      if beforeTokens > afterTokens then beforeTokens - afterTokens else 0,
      |before|, |after|, reported.0, reported.1, reported.2)
  }

  function ResultOf(m: MemoryState, sessionId: string, strategy: Strategy, now: int): CompactionResult {
    var d := Decide(m, sessionId, strategy, now);
    BuildResult(
      sessionId, strategy, SessionEntries(m, sessionId), SessionEntries(Applied(m, d), sessionId), Reported(m, d))
  }

  function StringsJson(values: seq<string>): Json {
    Arr(seq(|values|, i requires 0 <= i < |values| => Str(values[i])))
  }

  function CompactEvent(r: CompactionResult, now: int): Event {
    Event(
      "control.compact",
      Obj(WithOptional(
        map[
          "strategy" := Str(StrategyName(r.strategy)),
          "compacted" := Bool(r.compacted),
          "beforeTokens" := Num(r.beforeTokens),
          "afterTokens" := Num(r.afterTokens),
          "reducedTokens" := Num(r.reducedTokens),
          "beforeEntryCount" := Num(r.beforeEntryCount),
          "afterEntryCount" := Num(r.afterEntryCount),
          "removedEntryIds" := StringsJson(r.removedEntryIds),
          "summaryEntryIds" := StringsJson(r.summaryEntryIds)
        ],
        "reason", if r.reason.Some? then Some(Str(ReasonText(r.reason.value))) else None)),
      now)
  }

  // ----- the operation -----

  method CreateCompactionSummaryEntry(
    memory: MemoryCore, target: Layer, sessionId: string, strategy: Strategy, sources: seq<Entry>, now: int)
    returns (entry: Option<Entry>)
    requires memory.layer0 != memory.layer1
    modifies memory.layer0, memory.layer1
    ensures var summary := CreateSummary(target, sessionId, strategy, sources, now);
            && (entry.None? <==> summary.None?)
            && (summary.None? ==> memory.State() == old(memory.State()))
            && (summary.Some? ==>
                  && memory.State() == Written(old(memory.State()), target, summary.value)
                  && entry.value == ToEntry(TargetStore(old(memory.State()), target), summary.value))
  {
    hide SummaryTags, RecordOf, AllFindings, VerboseSummary, CompactSummary, MinimalSummary;
    if |sources| == 0 {
      return None;
    }
    var content := SummaryContent(strategy, sources);
    if EstimateTokens(content) >= EntryTokens(sources) {
      return None;
    }
    var draft := SummaryDraft(target, sessionId, strategy, sources, now);
    var written: Entry;
    if target == Layer0 {
      written := memory.Write0(draft);
    } else {
      written := memory.Write1(draft);
    }
    return Some(written);
  }

  method CompactSoft(memory: MemoryCore, sessionId: string, before0: seq<Entry>, now: int)
    returns (removedIds: seq<string>, summaryIds: seq<string>, reason: Option<Reason>)
    requires memory.layer0 != memory.layer1
    requires before0 == Listed(memory.layer0.entries, sessionId)
    modifies memory.layer0, memory.layer1
    ensures memory.State() == Compacted(old(memory.State()), sessionId, Soft, now)
    ensures (removedIds, summaryIds, reason)
            == Reported(old(memory.State()), Decide(old(memory.State()), sessionId, Soft, now))
  {
    hide CreateSummary, SummaryDraft, Listed, Put, ToEntry, AllowedFor;
    if |before0| < 3 {
      return [], [], Some(SoftNeedsThreeEntries);
    }
    ghost var m := memory.State();
    var compacted := before0[1..];
    var sources := Filter(compacted, AllowedFor(Layer0));
    assert sources == SoftSources(m, sessionId);
    var summary := CreateCompactionSummaryEntry(memory, Layer0, sessionId, Soft, sources, now);
    if summary == None {
      return [], [], Some(WorkingMemoryAlreadyCompact);
    }
    ghost var d := Decide(m, sessionId, Soft, now);
    assert d.Merge? && d.removed0 == compacted && d.removed1 == [];
    memory.layer0.RemoveAll(compacted);
    FilterAll(memory.layer1.entries, KeepsId([]));
    assert memory.State() == Applied(m, d);
    assert compacted + [] == compacted;
    return Ids(compacted), [summary.value.id], None;
  }

  method CompactHard(memory: MemoryCore, sessionId: string, before0: seq<Entry>, before1: seq<Entry>, now: int)
    returns (removedIds: seq<string>, summaryIds: seq<string>, reason: Option<Reason>)
    requires memory.layer0 != memory.layer1
    requires before0 == Listed(memory.layer0.entries, sessionId)
    requires before1 == Listed(memory.layer1.entries, sessionId)
    modifies memory.layer0, memory.layer1
    ensures memory.State() == Compacted(old(memory.State()), sessionId, Hard, now)
    ensures (removedIds, summaryIds, reason)
            == Reported(old(memory.State()), Decide(old(memory.State()), sessionId, Hard, now))
  {
    hide CreateSummary, SummaryDraft, Listed, Put, ToEntry, AllowedFor;
    var sources := Filter(before0 + before1, AllowedFor(Layer1));
    if |before0| + |before1| < 2 {
      return [], [], Some(HardNeedsTwoEntries);
    }
    if |sources| == 0 {
      return [], [], Some(HardHasNoAdmissibleEntries);
    }
    var summary := CreateCompactionSummaryEntry(memory, Layer1, sessionId, Hard, sources, now);
    if summary == None {
      return [], [], Some(SessionMemoryAlreadyCompact);
    }
    memory.layer0.RemoveAll(before0);
    memory.layer1.RemoveAll(before1);
    return Ids(before0 + before1), [summary.value.id], None;
  }

  method CompactSessionContext(
    store: SessionStore, memory: MemoryCore, sessionId: string, strategy: Strategy, now: int)
    returns (result: CompactionResult)
    requires memory.layer0 != memory.layer1
    modifies store, memory.layer0, memory.layer1
    ensures memory.State() == Compacted(old(memory.State()), sessionId, strategy, now)
    ensures result == ResultOf(old(memory.State()), sessionId, strategy, now)
    ensures store.sessions == Appended(old(store.sessions), sessionId, CompactEvent(result, now))
  {
    ghost var m := memory.State();
    var _ := store.EnsureSession(sessionId);
    var before0 := memory.layer0.ListByScope(sessionId);
    var before1 := memory.layer1.ListByScope(sessionId);
    var removedIds, summaryIds, reason;
    if strategy == Soft {
      removedIds, summaryIds, reason := CompactSoft(memory, sessionId, before0, now);
    } else {
      removedIds, summaryIds, reason := CompactHard(memory, sessionId, before0, before1, now);
    }
    ghost var d := Decide(m, sessionId, strategy, now);
    assert memory.State() == Applied(m, d);
    var after0 := memory.layer0.ListByScope(sessionId);
    var after1 := memory.layer1.ListByScope(sessionId);
    result := BuildResult(sessionId, strategy, before0 + before1, after0 + after1, (removedIds, summaryIds, reason));
    assert before0 + before1 == SessionEntries(m, sessionId);
    assert after0 + after1 == SessionEntries(Applied(m, d), sessionId);
    assert result == ResultOf(m, sessionId, strategy, now);
    var event := CompactEvent(result, now);
    AppendedAfterEnsure(old(store.sessions), sessionId, event);
    store.AppendJournal(sessionId, event);
  }
}
