/** What a compaction takes, records and reports: the entries that become sources, the record and the text
    of the summary, the journal payload, and a plain memory that a soft compaction merges. */
module CompactionRecord {
  import opened Options
  import opened Sequences
  import opened Text
  import opened Memory
  import opened Sessions
  import opened Compaction
  import opened CompactionLaws

  // ----- which entries are sources -----

  /** A tag that names noise, quarantined, casual or assistant output, in any case. */
  predicate Unwanted(tag: string) {
    || SameUpToCase(tag, "memory:noise") || SameUpToCase(tag, "memory:quarantine")
    || SameUpToCase(tag, "memory:casual") || SameUpToCase(tag, "memory:assistant-output")
  }

  /** Memory to summarise: not assistant output, not unwanted, and admitted as the user's or, softly, as
      working memory. */
  predicate Summarisable(e: Entry, strategy: Strategy) {
    && (e.namespace.Some? ==> !SameUpToCase(e.namespace.value, "assistant-output"))
    && (forall tag :: tag in e.tags ==> !Unwanted(tag))
    && e.metadata.admission.Some?
    && (|| e.metadata.admission.value.retention == Some("user")
        || (strategy == Soft && e.metadata.admission.value.retention == Some("working")))
  }

  function SummarisableBy(strategy: Strategy): Entry -> bool {
    (e: Entry) => Summarisable(e, strategy)
  }

  function TargetOf(strategy: Strategy): Layer {
    if strategy.Soft? then Layer0 else Layer1
  }

  lemma LowerOfSmall(s: string)
    requires forall i :: 0 <= i < |s| ==> !IsUpper(s[i])
    ensures Lower(s) == s
  {
  }

  lemma UnwantedIff(tag: string)
    ensures ExcludedTag(tag) <==> Unwanted(tag)
  {
    LowerOfSmall("memory:noise");
    LowerOfSmall("memory:quarantine");
    LowerOfSmall("memory:casual");
    LowerOfSmall("memory:assistant-output");
    LowerAgreesIff(tag, "memory:noise");
    LowerAgreesIff(tag, "memory:quarantine");
    LowerAgreesIff(tag, "memory:casual");
    LowerAgreesIff(tag, "memory:assistant-output");
    hide Lower, SameUpToCase;
  }

  lemma AssistantNamespaceIff(namespace: string)
    ensures Lower(namespace) == "assistant-output" <==> SameUpToCase(namespace, "assistant-output")
  {
    LowerOfSmall("assistant-output");
    LowerAgreesIff(namespace, "assistant-output");
    hide Lower, SameUpToCase;
  }

  lemma SourceIff(e: Entry, strategy: Strategy)
    ensures SourceAllowed(e, TargetOf(strategy)) <==> Summarisable(e, strategy)
  {
    hide Lower, SameUpToCase, ExcludedTag, Unwanted;
    forall tag ensures ExcludedTag(tag) <==> Unwanted(tag) {
      UnwantedIff(tag);
    }
    if e.namespace.Some? {
      AssistantNamespaceIff(e.namespace.value);
    }
  }

  lemma {:induction false} FilterAgrees<T(!new)>(s: seq<T>, p: T -> bool, q: T -> bool)
    requires forall x :: x in s ==> (p(x) <==> q(x))
    ensures Filter(s, p) == Filter(s, q)
  {
    if s != [] {
      assert forall x :: x in s[..|s| - 1] ==> x in s;
      FilterAgrees(s[..|s| - 1], p, q);
      assert s[|s| - 1] in s;
    }
  }

  /** What a compaction considers: softly all but the newest entry of working memory, hard the session. */
  function Considered(m: MemoryState, sessionId: string, strategy: Strategy): seq<Entry> {
    if strategy.Hard? then SessionEntries(m, sessionId)
    else
      var listed := Listed(m.layer0.entries, sessionId);
      if listed == [] then [] else listed[1..]
  }

  lemma SourcesAre(m: MemoryState, sessionId: string, strategy: Strategy)
    ensures Sources(m, sessionId, strategy) == Filter(Considered(m, sessionId, strategy), SummarisableBy(strategy))
  {
    var considered := Considered(m, sessionId, strategy);
    hide Listed, Filter, SourceAllowed, Summarisable;
    forall e ensures SourceAllowed(e, TargetOf(strategy)) <==> Summarisable(e, strategy) {
      SourceIff(e, strategy);
    }
    FilterAgrees(considered, AllowedFor(TargetOf(strategy)), SummarisableBy(strategy));
    if considered == [] {
      NothingFiltered(SummarisableBy(strategy));
    }
  }

  lemma NothingFiltered(keep: Entry -> bool)
    ensures Filter([], keep) == []
  {
  }

  /** Some text costs less than these entries. */
  ghost predicate Worthwhile(strategy: Strategy, sources: seq<Entry>) {
    exists detail :: Cheaper(detail, strategy, sources)
  }

  lemma WorthwhileIff(target: Layer, sessionId: string, strategy: Strategy, sources: seq<Entry>, now: int)
    ensures CreateSummary(target, sessionId, strategy, sources, now).Some? <==>
              sources != [] && Worthwhile(strategy, sources)
  {
    hide EstimateTokens, EntryTokens, SummaryContent, SummaryDraft;
    ContentIsCheapIff(strategy, sources);
  }

  lemma ContentIsCheapIff(strategy: Strategy, sources: seq<Entry>)
    ensures EstimateTokens(SummaryContent(strategy, sources)) < EntryTokens(sources) <==> Worthwhile(strategy, sources)
  {
    hide EstimateTokens, EntryTokens, VerboseSummary, CompactSummary, MinimalSummary;
    if EstimateTokens(SummaryContent(strategy, sources)) < EntryTokens(sources) {
      var detail := ContentDetail(strategy, sources);
    }
    if Worthwhile(strategy, sources) {
      var detail :| Cheaper(detail, strategy, sources);
      assert detail == Verbose || detail == Compact || detail == Minimal;
    }
  }

  lemma DecideSoft(m: MemoryState, sessionId: string, now: int)
    ensures var sources := Filter(Considered(m, sessionId, Soft), SummarisableBy(Soft));
            var d := Decide(m, sessionId, Soft, now);
            if |Listed(m.layer0.entries, sessionId)| < 3 then d == Refuse(SoftNeedsThreeEntries)
            else if sources == [] || !Worthwhile(Soft, sources) then d == Refuse(WorkingMemoryAlreadyCompact)
            else d.Merge?
  {
    hide CreateSummary, Listed, Summarisable, Worthwhile, Filter, Considered;
    SourcesAre(m, sessionId, Soft);
    WorthwhileIff(Layer0, sessionId, Soft, Sources(m, sessionId, Soft), now);
  }

  lemma DecideHard(m: MemoryState, sessionId: string, now: int)
    ensures var sources := Filter(SessionEntries(m, sessionId), SummarisableBy(Hard));
            var d := Decide(m, sessionId, Hard, now);
            if |SessionEntries(m, sessionId)| < 2 then d == Refuse(HardNeedsTwoEntries)
            else if sources == [] then d == Refuse(HardHasNoAdmissibleEntries)
            else if !Worthwhile(Hard, sources) then d == Refuse(SessionMemoryAlreadyCompact)
            else d.Merge?
  {
    HardConsiders(m, sessionId);
    hide CreateSummary, Listed, Summarisable, Worthwhile, Filter, Considered, EntryTokens;
    SourcesAre(m, sessionId, Hard);
    WorthwhileIff(Layer1, sessionId, Hard, Sources(m, sessionId, Hard), now);
  }

  /** When a compaction merges, and else why it does not: too few entries, nothing that may be summarised, or
      no text that costs less. The numbers reported are those of the memory before and after. */
  lemma OutcomeIff(m: MemoryState, sessionId: string, strategy: Strategy, now: int)
    ensures var r, m' := ResultOf(m, sessionId, strategy, now), Compacted(m, sessionId, strategy, now);
            var sources := Filter(Considered(m, sessionId, strategy), SummarisableBy(strategy));
            && r.reason
               == (match strategy
                   case Soft =>
                     if |Listed(m.layer0.entries, sessionId)| < 3 then Some(SoftNeedsThreeEntries)
                     else if sources == [] || !Worthwhile(Soft, sources) then Some(WorkingMemoryAlreadyCompact)
                     else None
                   case Hard =>
                     if |SessionEntries(m, sessionId)| < 2 then Some(HardNeedsTwoEntries)
                     else if sources == [] then Some(HardHasNoAdmissibleEntries)
                     else if !Worthwhile(Hard, sources) then Some(SessionMemoryAlreadyCompact)
                     else None)
            && r.sessionId == sessionId && r.strategy == strategy
            && r.beforeTokens == EntryTokens(SessionEntries(m, sessionId))
            && r.afterTokens == EntryTokens(SessionEntries(m', sessionId))
            && r.beforeEntryCount == |SessionEntries(m, sessionId)|
            && r.afterEntryCount == |SessionEntries(m', sessionId)|
            && (r.reason.None? ==> r.removedEntryIds == Ids(Considered(m, sessionId, strategy)))
  {
    DecideSoft(m, sessionId, now);
    DecideHard(m, sessionId, now);
    HardConsiders(m, sessionId);
    ReportedBy(m, sessionId, strategy, now);
    hide *;
  }

  lemma HardConsiders(m: MemoryState, sessionId: string)
    ensures Considered(m, sessionId, Hard) == SessionEntries(m, sessionId)
  {
  }

  lemma ReportedBy(m: MemoryState, sessionId: string, strategy: Strategy, now: int)
    ensures var r, m' := ResultOf(m, sessionId, strategy, now), Compacted(m, sessionId, strategy, now);
            var d := Decide(m, sessionId, strategy, now);
            && r.reason == (if d.Refuse? then Some(d.reason) else None)
            && r.sessionId == sessionId && r.strategy == strategy
            && r.beforeTokens == EntryTokens(SessionEntries(m, sessionId))
            && r.afterTokens == EntryTokens(SessionEntries(m', sessionId))
            && r.beforeEntryCount == |SessionEntries(m, sessionId)|
            && r.afterEntryCount == |SessionEntries(m', sessionId)|
            && (d.Merge? ==> r.removedEntryIds == Ids(Considered(m, sessionId, strategy)))
  {
    if Decide(m, sessionId, strategy, now).Merge? {
      MergedDraft(m, sessionId, strategy, now);
    }
    hide Decide, Applied, EntryTokens, EstimateTokens, SessionEntries, Summarisable, Filter, Considered, SummaryDraft, ToEntry,
      SummaryContent, RecordOf;
  }

  /** The draft of a merge, in terms of the entries that are removed. */
  lemma MergedDraft(m: MemoryState, sessionId: string, strategy: Strategy, now: int)
    requires Decide(m, sessionId, strategy, now).Merge?
    ensures var d := Decide(m, sessionId, strategy, now);
            var sources := Filter(d.removed0 + d.removed1, SummarisableBy(strategy));
            && d.summary == SummaryDraft(TargetOf(strategy), sessionId, strategy, sources, now)
            && d.summary.content == SummaryContent(strategy, sources)
            && d.summary.metadata.summary == Some(RecordOf(strategy, sources, now))
            && d.removed0 + d.removed1 == Considered(m, sessionId, strategy)
            && EstimateTokens(SummaryContent(strategy, sources)) < EntryTokens(sources)
  {
    SourcesAre(m, sessionId, strategy);
    hide SummaryDraft, EstimateTokens, SummaryContent, EntryTokens, Listed, Filter, Summarisable;
    var d := Decide(m, sessionId, strategy, now);
    assert d.removed0 + [] == d.removed0;
    DraftFields(TargetOf(strategy), sessionId, strategy, Sources(m, sessionId, strategy), now);
  }

  lemma DraftFields(target: Layer, sessionId: string, strategy: Strategy, sources: seq<Entry>, now: int)
    ensures var draft := SummaryDraft(target, sessionId, strategy, sources, now);
            draft.content == SummaryContent(strategy, sources)
            && draft.metadata.summary == Some(RecordOf(strategy, sources, now))
  {
    hide SummaryContent, RecordOf, AllFindings, SummaryTags;
  }

  /** The sources a summary names are the ids of exactly those removed entries that may be summarised, in
      order. */
  lemma SourcesRecorded(m: MemoryState, sessionId: string, strategy: Strategy, now: int)
    requires Decide(m, sessionId, strategy, now).Merge?
    ensures var d := Decide(m, sessionId, strategy, now);
            && d.summary.metadata.summary.Some?
            && d.summary.metadata.summary.value.sourceEntryIds
               == Ids(Filter(d.removed0 + d.removed1, SummarisableBy(strategy)))
  {
    var d := Decide(m, sessionId, strategy, now);
    MergedDraft(m, sessionId, strategy, now);
    hide *;
    RecordIds(strategy, Filter(d.removed0 + d.removed1, SummarisableBy(strategy)), now);
  }

  lemma RecordIds(strategy: Strategy, sources: seq<Entry>, now: int)
    ensures RecordOf(strategy, sources, now).sourceEntryIds == Ids(sources)
    ensures RecordOf(strategy, sources, now).strategy == strategy && RecordOf(strategy, sources, now).compactedAt == now
  {
  }

  /** Entry by entry: a removed entry is named as a source exactly when it may be summarised. Softly all
      removed entries are of one layer and have different ids; an id may be in both layers. */
  lemma SourceRecordedIff(m: MemoryState, sessionId: string, strategy: Strategy, now: int, e: Entry)
    requires UniqueMemory(m) && Decide(m, sessionId, strategy, now).Merge?
    requires var d := Decide(m, sessionId, strategy, now); e in d.removed0 + d.removed1
    ensures var d := Decide(m, sessionId, strategy, now);
            && d.summary.metadata.summary.Some?
            && var ids := d.summary.metadata.summary.value.sourceEntryIds;
               && (e.id in ids <==>
                     exists x :: x in d.removed0 + d.removed1 && x.id == e.id && Summarisable(x, strategy))
               && (strategy == Soft ==> (e.id in ids <==> Summarisable(e, strategy)))
  {
    var d := Decide(m, sessionId, strategy, now);
    SourcesRecorded(m, sessionId, strategy, now);
    DecisionShape(m, sessionId, strategy, now);
    hide *;
    NamedIff(d.removed0 + d.removed1, strategy, e);
    if strategy == Soft {
      SoftRemovedDiffer(m, sessionId, d, e);
    }
  }

  lemma SoftRemovedDiffer(m: MemoryState, sessionId: string, d: Decision, e: Entry)
    requires UniqueMemory(m) && MergeShape(m, sessionId, Soft, d) && e in d.removed0 + d.removed1
    ensures forall x :: x in d.removed0 + d.removed1 && x.id == e.id ==> x == e
  {
    RemovedAreOwn(m, sessionId, Soft, d);
    assert UniqueIds(m.layer0.entries) && d.removed1 == [];
    hide *;
    forall x | x in d.removed0 + d.removed1 && x.id == e.id ensures x == e {
      SameIdSameEntry(m.layer0.entries, x, e);
    }
  }

  lemma NamedIff(removed: seq<Entry>, strategy: Strategy, e: Entry)
    ensures e.id in Ids(Filter(removed, SummarisableBy(strategy)))
            <==> exists x :: x in removed && x.id == e.id && Summarisable(x, strategy)
  {
    var sources := Filter(removed, SummarisableBy(strategy));
    hide Summarisable;
    if e.id in Ids(sources) {
      var x := IdOf(sources, e.id);
      assert x in removed && Summarisable(x, strategy);
    }
    forall x | x in removed && x.id == e.id && Summarisable(x, strategy) ensures e.id in Ids(sources) {
      InIds(sources, x);
    }
  }

  // ----- what the summary records about its sources -----

  /** The recorded admission of a source: its own retention and category; safe unless marked unsafe or with
      a finding. */
  predicate RecordsAdmission(r: SourceAdmission, e: Entry) {
    && r.entryId == e.id
    && match e.metadata.admission
       case None => r.retention == None && r.category == None && r.safe
       case Some(a) =>
         && r.retention == a.retention && r.category == a.category
         && (r.safe <==>
               (a.safety.Some? ==> a.safety.value.safe != Some(false)
                                   && (a.safety.value.findings.Some? ==> |a.safety.value.findings.value| == 0)))
  }

  ghost predicate RecordsSources(r: SummaryRecord, sources: seq<Entry>) {
    && |r.sourceAdmissions| == |sources|
    && (forall i :: 0 <= i < |sources| ==> RecordsAdmission(r.sourceAdmissions[i], sources[i]))
    && Distinct(r.sourceLayers) && Distinct(r.sourceNamespaces)
    && (forall layer :: layer in r.sourceLayers <==> exists e :: e in sources && e.layer == layer)
    && (forall name :: name in r.sourceNamespaces <==>
          exists e :: e in sources && (e.namespace == Some(name) || (e.namespace == None && name == "(default)")))
  }

  lemma MapMembers<T(!new), U>(s: seq<T>, f: T -> U, y: U)
    ensures y in Map(s, f) <==> exists x :: x in s && f(x) == y
  {
    if y in Map(s, f) {
      var i :| 0 <= i < |s| && Map(s, f)[i] == y;
      assert s[i] in s;
    }
    if x :| x in s && f(x) == y {
      var i :| 0 <= i < |s| && s[i] == x;
      assert Map(s, f)[i] == y;
    }
  }

  lemma RecordIsTrue(strategy: Strategy, sources: seq<Entry>, now: int)
    ensures RecordsSources(RecordOf(strategy, sources, now), sources)
  {
    var layers, names := Map(sources, (e: Entry) => e.layer), Map(sources, (e: Entry) => NamespaceOr(e, "(default)"));
    forall layer ensures layer in layers <==> exists e :: e in sources && e.layer == layer {
      MapMembers(sources, (e: Entry) => e.layer, layer);
    }
    forall name ensures name in names <==> exists e :: e in sources && NamespaceOr(e, "(default)") == name {
      MapMembers(sources, (e: Entry) => NamespaceOr(e, "(default)"), name);
    }
    forall i | 0 <= i < |sources| ensures RecordsAdmission(AdmissionSummary(sources[i]), sources[i]) {
    }
  }

  /** The record of a merge tells its strategy and time and describes its sources. */
  lemma MergeRecordsSources(m: MemoryState, sessionId: string, strategy: Strategy, now: int)
    requires Decide(m, sessionId, strategy, now).Merge?
    ensures var d := Decide(m, sessionId, strategy, now);
            && d.summary.metadata.summary.Some?
            && var r := d.summary.metadata.summary.value;
               && r.strategy == strategy && r.compactedAt == now
               && RecordsSources(r, Filter(d.removed0 + d.removed1, SummarisableBy(strategy)))
  {
    var d := Decide(m, sessionId, strategy, now);
    MergedDraft(m, sessionId, strategy, now);
    hide *;
    RecordIds(strategy, Filter(d.removed0 + d.removed1, SummarisableBy(strategy)), now);
    RecordIsTrue(strategy, Filter(d.removed0 + d.removed1, SummarisableBy(strategy)), now);
  }

  // ----- tags of the summary -----

  lemma {:induction false} UniquePrefix<T(!new)>(a: seq<T>, b: seq<T>)
    ensures Unique(a) <= Unique(a + b)
    decreases |b|
  {
    if b == [] {
      assert a + b == a;
    } else {
      var front, x := b[..|b| - 1], b[|b| - 1];
      UniquePrefix(a, front);
      assert a + b == (a + front) + [x];
      hide Unique;
      UniqueLast(a + front, x);
    }
  }

  ghost predicate Inherited(sources: seq<Entry>, tag: string) {
    !Unwanted(tag) && exists e :: e in sources && tag in e.tags
  }

  lemma {:induction false} TagsOfSources(sources: seq<Entry>, tag: string)
    ensures tag in FlatMap(sources, (e: Entry) => e.tags) <==> exists e :: e in sources && tag in e.tags
  {
    var tags := (e: Entry) => e.tags;
    if tag in FlatMap(sources, tags) {
      var e := FlatMapOrigin(sources, tags, tag);
    }
    if e :| e in sources && tag in e.tags {
      FlatMapIncludes(sources, tags, e, tag);
    }
  }

  lemma InheritedIff(sources: seq<Entry>, tag: string)
    ensures tag in InheritedTags(sources) <==> Inherited(sources, tag)
  {
    UnwantedIff(tag);
    TagsOfSources(sources, tag);
    hide Unwanted, ExcludedTag, FlatMap;
  }

  /** A summary carries the five tags of its kind, then the wanted tags of its sources, each once, up to
      twelve in all. */
  lemma SummaryTagsIff(strategy: Strategy, sources: seq<Entry>, tag: string)
    ensures var tags := SummaryTags(strategy, sources);
            var own := ["control-plane", "compacted", if strategy == Soft then "soft" else "hard", "memory:compaction",
                        "memory:system-summary"];
            && own <= tags && Distinct(tags) && |tags| <= 12
            && (tag in tags ==> tag in own || Inherited(sources, tag))
            && (|tags| < 12 ==> (tag in tags <==> tag in own || Inherited(sources, tag)))
  {
    InheritedIff(sources, tag);
    FixedTagsDistinct(strategy);
    hide Unique, InheritedTags, Inherited, SummaryTags, FixedTags, FirstTwelve;
    OnlyTwelve(strategy, sources);
    CutTags(FixedTags(strategy), InheritedTags(sources), SummaryTags(strategy, sources), tag);
  }

  function FirstTwelve(tags: seq<string>): seq<string> {
    if |tags| <= 12 then tags else tags[..12]
  }

  lemma OnlyTwelve(strategy: Strategy, sources: seq<Entry>)
    ensures SummaryTags(strategy, sources) == FirstTwelve(Unique(FixedTags(strategy) + InheritedTags(sources)))
  {
    hide Unique, FixedTags, InheritedTags;
  }

  lemma CutTags(own: seq<string>, inherited: seq<string>, tags: seq<string>, tag: string)
    requires Distinct(own) && |own| == 5 && tags == FirstTwelve(Unique(own + inherited))
    ensures own <= tags && Distinct(tags) && |tags| <= 12
    ensures tag in tags ==> tag in own || tag in inherited
    ensures |tags| < 12 ==> (tag in tags <==> tag in own || tag in inherited)
  {
    UniqueOfDistinct(own);
    UniquePrefix(own, inherited);
    var all := Unique(own + inherited);
    assert tag in all <==> tag in own + inherited;
    hide Unique;
  }

  lemma FixedTagsDistinct(strategy: Strategy)
    ensures Distinct(FixedTags(strategy)) && |FixedTags(strategy)| == 5
    ensures FixedTags(strategy)
            == ["control-plane", "compacted", if strategy == Soft then "soft" else "hard", "memory:compaction",
                "memory:system-summary"]
  {
    assert |"control-plane"| == 13 && |"compacted"| == 9 && |"soft"| == |"hard"| == 4;
    assert |"memory:compaction"| == 17 && |"memory:system-summary"| == 21;
  }

  // ----- the text that is stored -----

  /** Tokens are the length of the trimmed text in fours, rounded up. */
  lemma TokensRoundUp(text: string)
    ensures 4 * EstimateTokens(text) - 4 < |Trim(text)| <= 4 * EstimateTokens(text)
  {
    hide Trim;
  }

  datatype Detail = Verbose | Compact | Minimal

  function TextAt(detail: Detail, strategy: Strategy, sources: seq<Entry>): string {
    match detail
    case Verbose => VerboseSummary(strategy, sources)
    case Compact => CompactSummary(strategy, sources)
    case Minimal => MinimalSummary(strategy, sources)
  }

  predicate MoreDetailed(a: Detail, b: Detail) {
    (a.Verbose? && !b.Verbose?) || (a.Compact? && b.Minimal?)
  }

  predicate Cheaper(detail: Detail, strategy: Strategy, sources: seq<Entry>) {
    EstimateTokens(TextAt(detail, strategy, sources)) < EntryTokens(sources)
  }

  /** A merge stores the most detailed of the three texts that costs less than the sources. */
  lemma MostDetailedIsStored(m: MemoryState, sessionId: string, strategy: Strategy, now: int) returns (detail: Detail)
    requires Decide(m, sessionId, strategy, now).Merge?
    ensures var d := Decide(m, sessionId, strategy, now);
            var sources := Filter(d.removed0 + d.removed1, SummarisableBy(strategy));
            && d.summary.content == TextAt(detail, strategy, sources)
            && Cheaper(detail, strategy, sources)
            && forall other :: MoreDetailed(other, detail) ==> !Cheaper(other, strategy, sources)
  {
    var d := Decide(m, sessionId, strategy, now);
    MergedDraft(m, sessionId, strategy, now);
    hide *;
    detail := ContentDetail(strategy, Filter(d.removed0 + d.removed1, SummarisableBy(strategy)));
  }

  lemma ContentDetail(strategy: Strategy, sources: seq<Entry>) returns (detail: Detail)
    requires EstimateTokens(SummaryContent(strategy, sources)) < EntryTokens(sources)
    ensures SummaryContent(strategy, sources) == TextAt(detail, strategy, sources)
    ensures Cheaper(detail, strategy, sources)
    ensures forall other :: MoreDetailed(other, detail) ==> !Cheaper(other, strategy, sources)
  {
    hide EstimateTokens, EntryTokens, VerboseSummary, CompactSummary, MinimalSummary;
    detail := if Cheaper(Verbose, strategy, sources) then Verbose
              else if Cheaper(Compact, strategy, sources) then Compact else Minimal;
  }

  /** A snippet is the content with its white space collapsed, whole if it fits, and else its start, cut at
      white space free of blanks at the end, followed by three dots. */
  lemma SnippetIs(content: string, maxChars: nat) returns (start: string)
    ensures var normalized := Trim(CollapseSpaces(content));
            if |normalized| <= maxChars then Snippet(content, maxChars) == normalized
            else
              && start <= normalized && Snippet(content, maxChars) == start + "..."
              && (start != "" ==> !IsSpace(start[|start| - 1]))
              && var room := if maxChars > 4 then maxChars - 3 else 1;
                 |start| <= room && forall i :: |start| <= i < room ==> IsSpace(normalized[i])
  {
    hide CollapseSpaces, Trim, TrimEnd, IsSpace;
    var normalized := Trim(CollapseSpaces(content));
    if |normalized| > maxChars {
      start := CutIs(normalized, if maxChars > 4 then maxChars - 3 else 1);
    } else {
      start := "";
    }
  }

  lemma CutIs(text: string, room: nat) returns (start: string)
    requires room <= |text|
    ensures start == TrimEnd(text[..room]) && start <= text && |start| <= room
    ensures start != "" ==> !IsSpace(start[|start| - 1])
    ensures forall i :: |start| <= i < room ==> IsSpace(text[i])
  {
    var head := text[..room];
    start := TrimEnd(head);
    var after := TrimEndSplits(head);
    TrimEndStops(head);
    hide TrimEnd;
    forall i | |start| <= i < room ensures IsSpace(text[i]) {
      assert text[i] == head[i] == after[i - |start|];
      assert after[i - |start|] in after;
    }
  }

  /** The text has this line, and it is not the first one. */
  ghost predicate HasLine(text: string, line: string) {
    exists before, after :: text == before + ("\n" + (line + after)) && (after == "" || after[0] == '\n')
  }

  lemma {:induction false} JoinHasLine(parts: seq<string>, i: nat)
    requires 0 < i < |parts|
    ensures HasLine(Join(parts, "\n"), parts[i])
    decreases i
  {
    var rest := parts[1..];
    var text := parts[0] + "\n" + Join(rest, "\n");
    if i == 1 {
      var after := if |rest| == 1 then "" else "\n" + Join(rest[1..], "\n");
      LineFirst(parts[0], parts[1], after);
      assert Join(rest, "\n") == parts[1] + after;
    } else {
      JoinHasLine(rest, i - 1);
      LineLater(parts[0] + "\n", Join(rest, "\n"), parts[i]);
    }
  }

  lemma LineFirst(first: string, line: string, after: string)
    requires after == "" || after[0] == '\n'
    ensures HasLine(first + "\n" + (line + after), line)
  {
    assert first + "\n" + (line + after) == first + ("\n" + (line + after));
  }

  lemma LineLater(first: string, text: string, line: string)
    requires HasLine(text, line)
    ensures HasLine(first + text, line)
  {
    var before, after :| text == before + ("\n" + (line + after)) && (after == "" || after[0] == '\n');
    assert first + text == (first + before) + ("\n" + (line + after));
  }

  lemma SecondLine(text: string, parts: seq<string>, line: string)
    requires |parts| >= 2 && parts[1] == line && text == Join(parts, "\n")
    ensures HasLine(text, line)
  {
    JoinHasLine(parts, 1);
  }

  lemma CompactShowsCount(strategy: Strategy, sources: seq<Entry>)
    ensures HasLine(CompactSummary(strategy, sources), MergedLine(sources))
  {
    hide HasLine, Join, LayersLine, MergedLine, Unique;
    SecondLine(
      CompactSummary(strategy, sources),
      [if strategy.Soft? then "Soft compaction summary for session working memory."
       else "Hard compaction summary for the full session memory.",
       MergedLine(sources), LayersLine(sources),
       "Namespaces: " + Join(Unique(Map(sources, (e: Entry) => NamespaceOr(e, "default"))), ", ")],
      MergedLine(sources));
  }

  lemma MinimalShowsCount(strategy: Strategy, sources: seq<Entry>)
    ensures HasLine(MinimalSummary(strategy, sources), MergedLine(sources))
  {
    hide HasLine, Join, MergedLine;
    SecondLine(
      MinimalSummary(strategy, sources),
      [if strategy.Soft? then "Soft compacted memory summary." else "Hard compacted memory summary.", MergedLine(sources)],
      MergedLine(sources));
  }

  lemma VerboseShowsCount(strategy: Strategy, sources: seq<Entry>)
    ensures HasLine(VerboseSummary(strategy, sources), MergedLine(sources))
  {
    hide HasLine, MergedLine, VerboseHeading, LayersLine, ItemLines, MoreLines, Join;
    SecondLine(VerboseSummary(strategy, sources), VerboseLines(strategy, sources), MergedLine(sources));
  }

  /** Every text tells how many entries it merges. */
  lemma CountIsShown(detail: Detail, strategy: Strategy, sources: seq<Entry>)
    ensures HasLine(TextAt(detail, strategy, sources), "Merged entries: " + Decimal(|sources|))
  {
    hide HasLine, VerboseSummary, CompactSummary, MinimalSummary, Decimal;
    VerboseShowsCount(strategy, sources);
    CompactShowsCount(strategy, sources);
    MinimalShowsCount(strategy, sources);
  }

  lemma VerboseHasLine(strategy: Strategy, sources: seq<Entry>, lines: seq<string>, more: seq<string>, i: nat)
    requires lines == ItemLines(strategy, sources) && more == MoreLines(strategy, sources)
    ensures i < |lines| ==> HasLine(VerboseSummary(strategy, sources), lines[i])
    ensures i < |more| ==> HasLine(VerboseSummary(strategy, sources), more[i])
  {
    var parts := VerboseLines(strategy, sources);
    hide HasLine, VerboseHeading, MergedLine, LayersLine, ItemLines, MoreLines, Join;
    if i < |lines| {
      assert parts[3 + i] == lines[i];
      JoinHasLine(parts, 3 + i);
    }
    if i < |more| {
      assert parts[3 + |lines| + i] == more[i];
      JoinHasLine(parts, 3 + |lines| + i);
    }
  }

  /** The verbose text shows the first sources, four softly and three hard, each with its number, layer,
      namespace and a snippet, and says how many more there are. */
  lemma ItemsAreShown(strategy: Strategy, sources: seq<Entry>, i: nat)
    ensures i < |sources| && i < (if strategy == Soft then 4 else 3) ==>
              HasLine(
                VerboseSummary(strategy, sources),
                Decimal(i + 1) + ". [" + (if sources[i].layer == Layer0 then "layer0" else "layer1") + "/"
                + (if sources[i].namespace.Some? then sources[i].namespace.value else "default") + "] "
                + Snippet(sources[i].content, if strategy == Soft then 96 else 72))
    ensures |sources| > (if strategy == Soft then 4 else 3) ==>
              HasLine(
                VerboseSummary(strategy, sources),
                "+" + Decimal(|sources| - if strategy == Soft then 4 else 3) + " more entries merged into this summary.")
  {
    var lines, more := ItemLines(strategy, sources), MoreLines(strategy, sources);
    if i < |sources| && i < MaxItems(strategy) {
      ItemLineIs(strategy, sources, i);
    }
    if |sources| > MaxItems(strategy) {
      MoreLineIs(strategy, sources);
    }
    assert MaxItems(strategy) == if strategy == Soft then 4 else 3;
    hide *;
    VerboseHasLine(strategy, sources, lines, more, i);
    VerboseHasLine(strategy, sources, lines, more, 0);
  }

  lemma ItemLineIs(strategy: Strategy, sources: seq<Entry>, i: nat)
    requires i < |sources| && i < MaxItems(strategy)
    ensures i < |ItemLines(strategy, sources)|
    ensures ItemLines(strategy, sources)[i]
            == Decimal(i + 1) + ". [" + (if sources[i].layer == Layer0 then "layer0" else "layer1") + "/"
               + (if sources[i].namespace.Some? then sources[i].namespace.value else "default") + "] "
               + Snippet(sources[i].content, if strategy == Soft then 96 else 72)
  {
    hide Snippet, Decimal;
  }

  lemma MoreLineIs(strategy: Strategy, sources: seq<Entry>)
    requires |sources| > MaxItems(strategy)
    ensures |MoreLines(strategy, sources)| == 1
    ensures MoreLines(strategy, sources)[0]
            == "+" + Decimal(|sources| - if strategy == Soft then 4 else 3) + " more entries merged into this summary."
  {
    hide Decimal;
  }

  // ----- the journal payload -----

  function ReadNumber(fields: map<string, Json>, name: string): Option<int> {
    if name in fields && fields[name].Num? then Some(fields[name].number) else None
  }

  function TextIn(value: Json): string {
    if value.Str? then value.text else ""
  }

  function ReadTexts(fields: map<string, Json>, name: string): seq<string> {
    if name in fields && fields[name].Arr? then Map(fields[name].items, TextIn) else []
  }

  lemma TextsReadBack(fields: map<string, Json>, name: string, values: seq<string>)
    requires name in fields && fields[name] == StringsJson(values)
    ensures ReadTexts(fields, name) == values
  {
  }

  /** Reading the journalled payload gives back the result: strategy, numbers, ids and reason. */
  lemma PayloadReadsBack(r: CompactionResult, now: int)
    ensures var event := CompactEvent(r, now);
            var fields := FieldsOf(event.payload);
            && event.eventType == "control.compact" && event.createdAt == now
            && ReadString(fields, "strategy") == Some(if r.strategy == Soft then "soft" else "hard")
            && "compacted" in fields && fields["compacted"] == Bool(r.compacted)
            && ReadNumber(fields, "beforeTokens") == Some(r.beforeTokens)
            && ReadNumber(fields, "afterTokens") == Some(r.afterTokens)
            && ReadNumber(fields, "reducedTokens") == Some(r.reducedTokens)
            && ReadNumber(fields, "beforeEntryCount") == Some(r.beforeEntryCount)
            && ReadNumber(fields, "afterEntryCount") == Some(r.afterEntryCount)
            && ReadTexts(fields, "removedEntryIds") == r.removedEntryIds
            && ReadTexts(fields, "summaryEntryIds") == r.summaryEntryIds
  {
    var fields := FieldsOf(CompactEvent(r, now).payload);
    PayloadNumbers(r, now);
    PayloadLists(r, now);
    hide CompactEvent, StringsJson, ReadTexts;
    TextsReadBack(fields, "removedEntryIds", r.removedEntryIds);
    TextsReadBack(fields, "summaryEntryIds", r.summaryEntryIds);
  }

  lemma PayloadNumbers(r: CompactionResult, now: int)
    ensures var event := CompactEvent(r, now);
            var fields := FieldsOf(event.payload);
            && event.eventType == "control.compact" && event.createdAt == now
            && ReadString(fields, "strategy") == Some(if r.strategy == Soft then "soft" else "hard")
            && "compacted" in fields && fields["compacted"] == Bool(r.compacted)
            && ReadNumber(fields, "beforeTokens") == Some(r.beforeTokens)
            && ReadNumber(fields, "afterTokens") == Some(r.afterTokens)
            && ReadNumber(fields, "reducedTokens") == Some(r.reducedTokens)
            && ReadNumber(fields, "beforeEntryCount") == Some(r.beforeEntryCount)
            && ReadNumber(fields, "afterEntryCount") == Some(r.afterEntryCount)
  {
    assert |"strategy"| == 8 && |"compacted"| == 9 && |"reason"| == 6;
    assert |"beforeTokens"| == 12 && |"afterTokens"| == 11 && |"reducedTokens"| == 13;
    assert |"beforeEntryCount"| == 16 && |"afterEntryCount"| == 15 && |"removedEntryIds"| == |"summaryEntryIds"| == 15;
    assert "afterEntryCount"[0] == 'a' && "removedEntryIds"[0] == 'r' && "summaryEntryIds"[0] == 's';
    hide StringsJson;
  }

  lemma PayloadLists(r: CompactionResult, now: int)
    ensures var fields := FieldsOf(CompactEvent(r, now).payload);
            && "removedEntryIds" in fields && fields["removedEntryIds"] == StringsJson(r.removedEntryIds)
            && "summaryEntryIds" in fields && fields["summaryEntryIds"] == StringsJson(r.summaryEntryIds)
  {
    assert |"reason"| == 6 && |"removedEntryIds"| == |"summaryEntryIds"| == 15;
    assert "removedEntryIds"[0] == 'r' && "summaryEntryIds"[0] == 's';
    hide StringsJson;
  }

  lemma ReasonReadsBack(r: CompactionResult, now: int)
    ensures ReadString(FieldsOf(CompactEvent(r, now).payload), "reason")
            == match r.reason
               case None => None
               case Some(SoftNeedsThreeEntries) => Some("soft-compaction-requires-at-least-3-working-memory-entries")
               case Some(WorkingMemoryAlreadyCompact) => Some("working-memory-already-compact")
               case Some(HardNeedsTwoEntries) => Some("hard-compaction-requires-at-least-2-memory-entries")
               case Some(HardHasNoAdmissibleEntries) => Some("hard-compaction-has-no-admissible-memory-entries")
               case Some(SessionMemoryAlreadyCompact) => Some("session-memory-already-compact")
  {
    assert |"strategy"| == 8 && |"compacted"| == 9 && |"reason"| == 6;
    assert |"beforeTokens"| == 12 && |"afterTokens"| == 11 && |"reducedTokens"| == 13;
    assert |"beforeEntryCount"| == 16 && |"afterEntryCount"| == 15 && |"removedEntryIds"| == |"summaryEntryIds"| == 15;
    hide StringsJson;
  }

  // ----- what the classifier's verdict does to a write -----

  /** Content the classifier drops, discards or quarantines is never summarised; quarantined content is stored
      redacted, and discarded or quarantined content lands in layer 0. */
  lemma UnwantedIsNeverSource(c: Classifier, m: MemoryState, draft: Draft, strategy: Strategy)
    requires draft.metadata.admission == None && UserAdmission(c, draft)
    requires var v := c.judge(draft.content); v.status.DropIt? || v.retention == "none" || v.retention == "quarantine"
    ensures var m', v := WriteLayer1(m, Admit1(c, draft)), c.judge(draft.content);
            var layer := if v.retention == "none" || v.retention == "quarantine" then Layer0 else Layer1;
            var e := ToEntry(TargetStore(m, layer), Admit1(c, draft));
            && e in TargetStore(m', layer).entries && (layer == Layer0 ==> m'.layer1 == m.layer1)
            && e.content == (if v.retention == "quarantine" then v.redacted else draft.content)
            && !Summarisable(e, strategy)
  {
    var v, admitted := c.judge(draft.content), Admit1(c, draft);
    JudgedFields(c, draft);
    hide Admit1, Put, UserAdmission, Unique, NewId, Existing;
    assert |"none"| == |"user"| == 4 && "none"[0] == 'n' && |"quarantine"| == 10 && |"working"| == 7;
    if v.status.DropIt? {
      assert SameUpToCase("memory:noise", "memory:noise") && Unwanted("memory:noise");
    }
    hide Unwanted;
  }

  lemma JudgedFields(c: Classifier, draft: Draft)
    requires draft.metadata.admission == None && UserAdmission(c, draft)
    ensures var v, admitted := c.judge(draft.content), Admit1(c, draft);
            && admitted.metadata.admission.Some? && admitted.metadata.admission.value.retention == Some(v.retention)
            && admitted.content == (if v.retention == "quarantine" then v.redacted else draft.content)
            && admitted.tags.Some? && (v.status.DropIt? ==> "memory:noise" in admitted.tags.value)
  {
    var noise := ["memory:noise"];
    assert noise[0] in noise;
    hide UserAdmission;
  }

  /** A write the classifier does not take for the user's goes to layer 1 as it is, marked safe and kept as the
      user's. */
  lemma SystemWriteIsKept(c: Classifier, m: MemoryState, draft: Draft)
    requires draft.metadata.admission == None && !UserAdmission(c, draft)
    ensures var m', e := WriteLayer1(m, Admit1(c, draft)), ToEntry(m.layer1, Admit1(c, draft));
            && m'.layer0 == m.layer0 && e in m'.layer1.entries
            && e.content == draft.content && e.sessionId == draft.sessionId && e.namespace == draft.namespace
            && (forall tag :: tag in e.tags <==>
                  tag in TagsOr(draft) || tag == "memory:direct-layer1" || tag == "memory:system")
            && e.metadata.admission.Some? && e.metadata.admission.value.retention == Some("user")
            && e.metadata.admission.value.safety == Some(Safety(Some(true), Some([])))
  {
    hide Put, UserAdmission, TagsOr;
    assert |"none"| == |"user"| == 4 && "none"[0] == 'n' && |"quarantine"| == 10;
    var own := ["memory:direct-layer1", "memory:system"];
    assert own[0] in own && own[1] in own;
  }

  // ----- a plain memory that a soft compaction merges -----

  const EMPTY := MemoryState(Store(Layer0, [], 0), Store(Layer1, [], 0))

  /** A note of 80 characters without id, tags or admission. */
  function Note(sessionId: string): Draft {
    Draft(None, seq(80, _ => 'x'), Some(sessionId), None, None, Metadata(None, None), 0)
  }

  function Noted(c: Classifier, m: MemoryState, sessionId: string): MemoryState {
    WriteLayer0(m, Admit0(c, Note(sessionId)))
  }

  function ThreeNotes(c: Classifier, sessionId: string): MemoryState {
    Noted(c, Noted(c, Noted(c, EMPTY, sessionId), sessionId), sessionId)
  }

  ghost predicate PlainEntry(e: Entry, sessionId: string) {
    && e.sessionId == Some(sessionId) && e.updatedAt == 0 && e.content == Note(sessionId).content
    && e.namespace == None && e.tags == ["memory:working"]
    && e.metadata.admission.Some? && e.metadata.admission.value.retention == Some("working")
  }

  lemma NoteAppended(c: Classifier, m: MemoryState, sessionId: string)
    requires c.kind(Note(sessionId)) == "working" && NoFutureIds(m.layer0)
    ensures var m', e := Noted(c, m, sessionId), ToEntry(m.layer0, Admit0(c, Note(sessionId)));
            && m'.layer0.entries == m.layer0.entries + [e] && PlainEntry(e, sessionId)
            && NoFutureIds(m'.layer0) && m'.layer1 == m.layer1
  {
    var draft := Admit0(c, Note(sessionId));
    assert "memory:" + "working" == "memory:working";
    assert [] + ["memory:working"] == ["memory:working"];
    UniqueOfDistinct(["memory:working"]);
    hide Unique, Put, NewId, AutoId;
    UpsertReserved(m.layer0, draft);
  }

  lemma PlainIsSummarisable(e: Entry, sessionId: string)
    requires PlainEntry(e, sessionId)
    ensures Summarisable(e, Soft) && EstimateTokens(e.content) == 20
  {
    assert |"memory:working"| == 14;
    assert |"memory:noise"| == 12 && |"memory:quarantine"| == 17 && |"memory:casual"| == 13;
    assert |"memory:assistant-output"| == 23;
    TrimOfTrimmed(e.content);
  }

  lemma {:induction false} EqualTimesListed(entries: seq<Entry>, sessionId: string)
    requires forall e :: e in entries ==> e.sessionId == Some(sessionId) && e.updatedAt == 0
    ensures Listed(entries, sessionId) == entries
  {
    FilterAll(entries, OfSession(sessionId));
    SortedAlready(entries);
  }

  lemma {:induction false} SortedAlready(entries: seq<Entry>)
    requires forall e :: e in entries ==> e.updatedAt == 0
    ensures SortDesc(entries) == entries
  {
    if entries != [] {
      assert entries == [entries[0]] + entries[1..];
      assert entries[0] in entries;
      SortedAlready(entries[1..]);
      assert |entries| > 1 ==> entries[1..][0] in entries;
    }
  }

  lemma SoftMinimalIsShort(sources: seq<Entry>)
    requires |sources| == 2
    ensures EstimateTokens(MinimalSummary(Soft, sources)) <= 12
  {
    var text := MinimalSummary(Soft, sources);
    assert Decimal(2) == "2";
    assert MergedLine(sources) == "Merged entries: 2";
    assert ["Soft compacted memory summary.", "Merged entries: 2"][1..] == ["Merged entries: 2"];
    assert text == "Soft compacted memory summary." + "\n" + "Merged entries: 2";
    TrimIsTrimmed(text);
  }

  lemma PlainThreeMerge(m: MemoryState, a: Entry, b: Entry, e: Entry, sessionId: string, now: int)
    requires m.layer0.entries == [a, b, e]
    requires PlainEntry(a, sessionId) && PlainEntry(b, sessionId) && PlainEntry(e, sessionId)
    ensures var d := Decide(m, sessionId, Soft, now);
            && d.Merge? && d.removed0 == [b, e] && d.summary.metadata.summary.Some?
            && d.summary.metadata.summary.value.sourceEntryIds == Ids([b, e])
  {
    PlainSources(m, a, b, e, sessionId);
    PlainIsSummarisable(b, sessionId);
    PlainIsSummarisable(e, sessionId);
    hide *;
    SumOfTwo(b, e);
    SoftMinimalIsShort([b, e]);
    RefusedIffNoTierIsCheaper(m, sessionId, Soft, now);
    SoftRemoved(m, sessionId, now);
    SourcesRecorded(m, sessionId, Soft, now);
    assert [b, e] + [] == [b, e];
  }

  lemma SoftRemoved(m: MemoryState, sessionId: string, now: int)
    requires Decide(m, sessionId, Soft, now).Merge?
    ensures var d := Decide(m, sessionId, Soft, now);
            && |Listed(m.layer0.entries, sessionId)| >= 3
            && d.removed0 == Listed(m.layer0.entries, sessionId)[1..] && d.removed1 == []
  {
    DecisionShape(m, sessionId, Soft, now);
    hide Decide, Listed, EntryTokens, EstimateTokens, Sources;
  }

  lemma PlainSources(m: MemoryState, a: Entry, b: Entry, e: Entry, sessionId: string)
    requires m.layer0.entries == [a, b, e]
    requires PlainEntry(a, sessionId) && PlainEntry(b, sessionId) && PlainEntry(e, sessionId)
    ensures Listed(m.layer0.entries, sessionId) == [a, b, e] && Sources(m, sessionId, Soft) == [b, e]
    ensures [a, b, e][1..] == [b, e] && Filter([b, e], SummarisableBy(Soft)) == [b, e]
  {
    PlainIsSummarisable(b, sessionId);
    PlainIsSummarisable(e, sessionId);
    PlainListed(a, b, e, sessionId);
    assert [a, b, e][1..] == [b, e];
    SoftConsidered(m, sessionId, [a, b, e]);
    hide *;
    SourcesAre(m, sessionId, Soft);
    BothKept(b, e);
  }

  lemma PlainListed(a: Entry, b: Entry, e: Entry, sessionId: string)
    requires PlainEntry(a, sessionId) && PlainEntry(b, sessionId) && PlainEntry(e, sessionId)
    ensures Listed([a, b, e], sessionId) == [a, b, e]
  {
    hide Listed;
    EqualTimesListed([a, b, e], sessionId);
  }

  lemma SoftConsidered(m: MemoryState, sessionId: string, listed: seq<Entry>)
    requires Listed(m.layer0.entries, sessionId) == listed && listed != []
    ensures Considered(m, sessionId, Soft) == listed[1..]
  {
  }

  lemma BothKept(b: Entry, e: Entry)
    requires Summarisable(b, Soft) && Summarisable(e, Soft)
    ensures Filter([b, e], SummarisableBy(Soft)) == [b, e]
  {
    hide Filter, Summarisable;
    FilterAll([b, e], SummarisableBy(Soft));
  }

  /** Ordinary memory is compacted: three plain notes of one session, written to an empty memory and
      classified as working memory, are merged softly; the newest listed one stays and the others are the
      sources. */
  lemma PlainNotesMerge(c: Classifier, sessionId: string, now: int)
    requires c.kind(Note(sessionId)) == "working"
    ensures var d := Decide(ThreeNotes(c, sessionId), sessionId, Soft, now);
            && d.Merge? && |d.removed0| == 2
            && d.summary.metadata.summary.Some?
            && d.summary.metadata.summary.value.sourceEntryIds == Ids(d.removed0)
  {
    var m1 := Noted(c, EMPTY, sessionId);
    var m2 := Noted(c, m1, sessionId);
    var m := ThreeNotes(c, sessionId);
    hide Noted, PlainEntry, Admit0, ToEntry, Decide;
    NoteAppended(c, EMPTY, sessionId);
    NoteAppended(c, m1, sessionId);
    NoteAppended(c, m2, sessionId);
    hide NoFutureIds;
    var e1, e2, e3 := m.layer0.entries[0], m.layer0.entries[1], m.layer0.entries[2];
    assert m.layer0.entries == [e1, e2, e3];
    PlainThreeMerge(m, e1, e2, e3, sessionId, now);
  }
}
