/** What one compaction does to a valid memory. */
module CompactionLaws {
  import opened Options
  import opened Sequences
  import opened Text
  import opened Memory
  import opened Compaction

  // ----- token sums -----

  lemma {:induction false} EntryTokensConcat(a: seq<Entry>, b: seq<Entry>)
    ensures EntryTokens(a + b) == EntryTokens(a) + EntryTokens(b)
    decreases |b|
  {
    if b == [] {
      assert a + b == a;
    } else {
      EntryTokensConcat(a, b[..|b| - 1]);
      assert (a + b)[..|a + b| - 1] == a + b[..|b| - 1];
    }
  }

  lemma EntryTokensSingle(e: Entry)
    ensures EntryTokens([e]) == EstimateTokens(e.content)
  {
    assert [e][..0] == [];
  }

  lemma SumOfTwo(a: Entry, b: Entry)
    ensures EntryTokens([a, b]) == EstimateTokens(a.content) + EstimateTokens(b.content)
  {
    EntryTokensConcat([a], [b]);
    EntryTokensSingle(a);
    EntryTokensSingle(b);
    assert [a, b] == [a] + [b];
  }

  lemma {:induction false} EntryTokensInsert(e: Entry, sorted: seq<Entry>)
    ensures EntryTokens(InsertDesc(e, sorted)) == EstimateTokens(e.content) + EntryTokens(sorted)
  {
    EntryTokensSingle(e);
    if sorted == [] || e.updatedAt >= sorted[0].updatedAt {
      EntryTokensConcat([e], sorted);
    } else {
      var head, tail := sorted[0], sorted[1..];
      assert sorted == [head] + tail;
      EntryTokensInsert(e, tail);
      EntryTokensConcat([head], tail);
      EntryTokensConcat([head], InsertDesc(e, tail));
    }
  }

  lemma {:induction false} EntryTokensSorted(entries: seq<Entry>)
    ensures EntryTokens(SortDesc(entries)) == EntryTokens(entries)
  {
    if entries != [] {
      EntryTokensSorted(entries[1..]);
      EntryTokensInsert(entries[0], SortDesc(entries[1..]));
      EntryTokensSingle(entries[0]);
      EntryTokensConcat([entries[0]], entries[1..]);
      assert entries == [entries[0]] + entries[1..];
    }
  }

  lemma {:induction false} EntryTokensFiltered(entries: seq<Entry>, keep: Entry -> bool)
    ensures EntryTokens(Filter(entries, keep)) <= EntryTokens(entries)
  {
    if entries != [] {
      var t, x := entries[..|entries| - 1], entries[|entries| - 1];
      EntryTokensFiltered(t, keep);
      EntryTokensConcat(Filter(t, keep), [x]);
      EntryTokensSingle(x);
    }
  }

  // ----- removal by id -----

  lemma SameIdSameEntry(entries: seq<Entry>, x: Entry, y: Entry)
    requires UniqueIds(entries) && x in entries && y in entries && x.id == y.id
    ensures x == y
  {
  }

  lemma IdOf(entries: seq<Entry>, id: string) returns (e: Entry)
    requires id in Ids(entries)
    ensures e in entries && e.id == id
  {
    var i :| 0 <= i < |entries| && Ids(entries)[i] == id;
    e := entries[i];
  }

  lemma InIds(entries: seq<Entry>, e: Entry)
    requires e in entries
    ensures e.id in Ids(entries)
  {
    var i :| 0 <= i < |entries| && entries[i] == e;
    assert Ids(entries)[i] == e.id;
  }

  /** Removing entries of one session leaves the entries of every other session in place. */
  lemma OtherSessionUntouched(entries: seq<Entry>, removed: seq<Entry>, sessionId: string, other: string)
    requires UniqueIds(entries) && sessionId != other
    requires forall e :: e in removed ==> e in entries && e.sessionId == Some(sessionId)
    ensures InSession(Without(entries, Ids(removed)), other) == InSession(entries, other)
  {
    FiltersCommute(entries, KeepsId(Ids(removed)), OfSession(other));
    forall e | e in InSession(entries, other) ensures KeepsId(Ids(removed))(e) {
      if e.id in Ids(removed) {
        var r := IdOf(removed, e.id);
        SameIdSameEntry(entries, e, r);
      }
    }
    FilterAll(InSession(entries, other), KeepsId(Ids(removed)));
  }

  /** Keeping one entry of a session: removing all the others leaves exactly that one. */
  lemma AllButOne(own: seq<Entry>, kept: Entry, removed: seq<Entry>)
    requires UniqueIds(own) && kept in own && kept !in removed
    requires forall e :: e in removed <==> e in own && e != kept
    ensures Without(own, Ids(removed)) == [kept]
  {
    var rest := Without(own, Ids(removed));
    if kept.id in Ids(removed) {
      var r := IdOf(removed, kept.id);
      SameIdSameEntry(own, kept, r);
    }
    forall e | e in rest ensures e == kept {
      if e != kept {
        InIds(removed, e);
      }
    }
    FilterDistinct(own, KeepsId(Ids(removed)));
    SingletonOfDistinct(rest, kept);
  }

  lemma AllRemoved(own: seq<Entry>, removed: seq<Entry>)
    requires forall e :: e in own ==> e in removed
    ensures Without(own, Ids(removed)) == []
  {
    var rest := Without(own, Ids(removed));
    if rest != [] {
      assert rest[0] in rest;
      InIds(removed, rest[0]);
    }
  }

  // ----- the effect of a compaction -----

  /** What every merging decision looks like. The laws below need no more than this. */
  ghost predicate MergeShape(m: MemoryState, sessionId: string, strategy: Strategy, d: Decision) {
    && d.Merge?
    && d.summary.id == None
    && d.summary.sessionId == Some(sessionId)
    && !RoutedToLayer0(d.summary)
    && EstimateTokens(d.summary.content) < EntryTokens(Sources(m, sessionId, strategy))
    && match strategy
       case Soft =>
         && |Listed(m.layer0.entries, sessionId)| >= 3
         && d.target == Layer0
         && d.removed0 == Listed(m.layer0.entries, sessionId)[1..]
         && d.removed1 == []
       case Hard =>
         && |SessionEntries(m, sessionId)| >= 2
         && d.target == Layer1
         && d.removed0 == Listed(m.layer0.entries, sessionId)
         && d.removed1 == Listed(m.layer1.entries, sessionId)
  }

  lemma CreatedSummaryShape(target: Layer, sessionId: string, strategy: Strategy, sources: seq<Entry>, now: int)
    ensures var summary := CreateSummary(target, sessionId, strategy, sources, now);
            summary.Some? ==>
              && sources != []
              && summary.value.id == None
              && summary.value.sessionId == Some(sessionId)
              && !RoutedToLayer0(summary.value)
              && EstimateTokens(summary.value.content) < EntryTokens(sources)
  {
    hide SummaryContent, SummaryTags, RecordOf;
  }

  lemma DecisionShape(m: MemoryState, sessionId: string, strategy: Strategy, now: int)
    ensures var d := Decide(m, sessionId, strategy, now);
            d.Merge? ==> MergeShape(m, sessionId, strategy, d)
  {
    hide CreateSummary, RoutedToLayer0, EntryTokens, EstimateTokens, Listed;
    match strategy
    case Soft => CreatedSummaryShape(Layer0, sessionId, Soft, SoftSources(m, sessionId), now);
    case Hard => CreatedSummaryShape(Layer1, sessionId, Hard, HardSources(m, sessionId), now);
  }

  /** The entry a decision writes. */
  function SummaryEntry(m: MemoryState, d: Decision): Entry
    requires d.Merge?
  {
    ToEntry(TargetStore(m, d.target), d.summary)
  }

  /** The automatic id the summary receives. */
  function SummaryId(m: MemoryState, d: Decision): string
    requires d.Merge?
  {
    AutoId(TargetStore(m, d.target).layer, TargetStore(m, d.target).issued + 1)
  }

  function TargetRemoved(d: Decision): seq<Entry>
    requires d.Merge?
  {
    if d.target.Layer0? then d.removed0 else d.removed1
  }

  lemma ListedInSession(entries: seq<Entry>, sessionId: string)
    requires UniqueIds(entries)
    ensures UniqueIds(Listed(entries, sessionId))
    ensures forall e :: e in Listed(entries, sessionId) <==> e in entries && e.sessionId == Some(sessionId)
  {
    FilterUnique(entries, OfSession(sessionId));
    SortDescUnique(InSession(entries, sessionId));
  }

  lemma RemovedAreOwn(m: MemoryState, sessionId: string, strategy: Strategy, d: Decision)
    requires UniqueMemory(m) && MergeShape(m, sessionId, strategy, d)
    ensures forall e :: e in d.removed0 ==> e in m.layer0.entries && e.sessionId == Some(sessionId)
    ensures forall e :: e in d.removed1 ==> e in m.layer1.entries && e.sessionId == Some(sessionId)
  {
    ListedInSession(m.layer0.entries, sessionId);
    ListedInSession(m.layer1.entries, sessionId);
  }

  lemma SummaryEntryFields(m: MemoryState, sessionId: string, strategy: Strategy, d: Decision)
    requires MergeShape(m, sessionId, strategy, d)
    ensures var s := SummaryEntry(m, d);
            && s.id == SummaryId(m, d) && s.sessionId == Some(sessionId)
            && s.content == d.summary.content && s.layer == TargetStore(m, d.target).layer
  {
    hide Listed, EntryTokens, EstimateTokens, Sources;
  }

  // ----- both layers after a merge -----

  /** What a merge makes of the two layers. The layer it writes to loses the removed entries; the summary is
      put there unless its id is among theirs. The other layer only loses the removed entries. */
  lemma LayersAfter(m: MemoryState, sessionId: string, strategy: Strategy, d: Decision)
    requires MergeShape(m, sessionId, strategy, d)
    ensures var m', kept := Applied(m, d), Without(TargetStore(m, d.target).entries, Ids(TargetRemoved(d)));
            && TargetStore(m', d.target).entries
               == (if SummaryId(m, d) in Ids(TargetRemoved(d)) then kept else Put(kept, SummaryEntry(m, d)))
            && (strategy.Soft? ==> m'.layer1 == m.layer1)
            && (strategy.Hard? ==> m'.layer0 == m.layer0.(entries := Without(m.layer0.entries, Ids(d.removed0))))
  {
    hide Sources, EntryTokens, EstimateTokens, Put, Listed, Without;
    PutThenWithout(TargetStore(m, d.target).entries, SummaryEntry(m, d), Ids(TargetRemoved(d)));
    if strategy == Soft {
      NothingRemoved(m.layer1.entries);
    }
  }

  lemma NothingRemoved(entries: seq<Entry>)
    ensures Without(entries, Ids([])) == entries
  {
    FilterAll(entries, KeepsId([]));
  }

  lemma MergeStaysUnique(m: MemoryState, sessionId: string, strategy: Strategy, d: Decision)
    requires UniqueMemory(m) && MergeShape(m, sessionId, strategy, d)
    ensures UniqueMemory(Applied(m, d))
  {
    var w := Written(m, d.target, d.summary);
    UpsertUnique(TargetStore(m, d.target), d.summary);
    WithoutUnique(w.layer0, Ids(d.removed0));
    WithoutUnique(w.layer1, Ids(d.removed1));
  }

  lemma WithoutMembers(entries: seq<Entry>, removed: seq<Entry>, e: Entry)
    requires UniqueIds(entries) && forall x :: x in removed ==> x in entries
    ensures e in Without(entries, Ids(removed)) <==> e in entries && e !in removed
  {
    if e in entries {
      if e in removed {
        InIds(removed, e);
      } else if e.id in Ids(removed) {
        var r := IdOf(removed, e.id);
        SameIdSameEntry(entries, e, r);
      }
    }
  }

  /** For any memory, and whoever holds the id the summary receives: the written layer holds the summary
      unless its id was removed, and the entries that were neither removed nor hold that id; the other layer
      holds the entries that were not removed. */
  lemma MembersAfter(m: MemoryState, sessionId: string, strategy: Strategy, d: Decision, e: Entry)
    requires UniqueMemory(m) && MergeShape(m, sessionId, strategy, d)
    ensures var m', id := Applied(m, d), SummaryId(m, d);
            && (e in TargetStore(m', d.target).entries <==>
                  || (e == SummaryEntry(m, d) && id !in Ids(TargetRemoved(d)))
                  || (e in TargetStore(m, d.target).entries && e !in TargetRemoved(d) && e.id != id))
            && (strategy.Soft? ==> m'.layer1 == m.layer1)
            && (strategy.Hard? ==> (e in m'.layer0.entries <==> e in m.layer0.entries && e !in d.removed0))
  {
    var entries, removed := TargetStore(m, d.target).entries, TargetRemoved(d);
    RemovedAreOwn(m, sessionId, strategy, d);
    LayersAfter(m, sessionId, strategy, d);
    SummaryEntryFields(m, sessionId, strategy, d);
    WithoutMembers(entries, removed, e);
    FilterUnique(entries, KeepsId(Ids(removed)));
    PutMembers(Without(entries, Ids(removed)), SummaryEntry(m, d), e);
    if strategy == Hard {
      WithoutMembers(m.layer0.entries, d.removed0, e);
    }
    hide Applied, MergeShape, Put, Filter, Listed, ToEntry, AutoId;
    if e in entries && e !in removed && e.id == SummaryId(m, d) && e.id in Ids(removed) {
      var r := IdOf(removed, e.id);
      SameIdSameEntry(entries, e, r);
    } else if e in entries && e in removed {
      InIds(removed, e);
    }
  }

  // ----- other sessions -----

  lemma ForeignFirst(e: Entry, other: string)
    requires e.sessionId != Some(other)
    ensures InSession(Put([], e), other) == Without(InSession([], other), [e.id])
  {
    FilterSingle(e, OfSession(other));
  }

  lemma NothingOwn(head: Entry, own: seq<Entry>, other: string, id: string)
    ensures Without((if head.sessionId == Some(other) then [head] else []) + own, [id])
            == (if head.sessionId == Some(other) && head.id != id then [head] else []) + Without(own, [id])
  {
    WithoutCons(head, own, [id]);
    assert forall s: seq<Entry> :: [] + s == s;
  }

  lemma {:induction false} ForeignPut(entries: seq<Entry>, e: Entry, other: string)
    requires UniqueIds(entries) && e.sessionId != Some(other)
    ensures InSession(Put(entries, e), other) == Without(InSession(entries, other), [e.id])
  {
    if entries != [] {
      TailUnique(entries, other);
    }
    hide *;
    if entries == [] {
      ForeignFirst(e, other);
    } else {
      var head, tail := entries[0], entries[1..];
      var own := InSession(tail, other);
      assert entries == [head] + tail;
      PutCons(head, tail, e);
      InSessionCons(head, tail, other);
      NothingOwn(head, own, other, e.id);
      assert [] + own == own;
      if head.id == e.id {
        InSessionCons(e, tail, other);
        IdAbsent(own, e.id);
      } else {
        ForeignPut(tail, e, other);
        InSessionCons(head, Put(tail, e), other);
      }
    }
  }

  lemma TailUnique(entries: seq<Entry>, other: string)
    requires UniqueIds(entries) && entries != []
    ensures UniqueIds(entries[1..])
    ensures forall x :: x in InSession(entries[1..], other) ==> x.id != entries[0].id
  {
  }

  lemma InSessionCons(head: Entry, tail: seq<Entry>, sessionId: string)
    ensures InSession([head] + tail, sessionId)
            == (if head.sessionId == Some(sessionId) then [head] else []) + InSession(tail, sessionId)
  {
    FilterConcat([head], tail, OfSession(sessionId));
    FilterSingle(head, OfSession(sessionId));
  }

  lemma IdAbsent(entries: seq<Entry>, id: string)
    requires forall x :: x in entries ==> x.id != id
    ensures Without(entries, [id]) == entries
  {
    FilterAll(entries, KeepsId([id]));
  }

  /** For any memory: another session keeps all its entries except the one that holds the id the summary
      receives, which the summary overwrites. */
  lemma OthersAfter(m: MemoryState, sessionId: string, strategy: Strategy, d: Decision, other: string)
    requires UniqueMemory(m) && MergeShape(m, sessionId, strategy, d) && other != sessionId
    ensures var m' := Applied(m, d);
            && InSession(TargetStore(m', d.target).entries, other)
               == Without(InSession(TargetStore(m, d.target).entries, other), [SummaryId(m, d)])
            && (strategy.Soft? ==> m'.layer1 == m.layer1)
            && (strategy.Hard? ==> InSession(m'.layer0.entries, other) == InSession(m.layer0.entries, other))
  {
    var entries, removed, id := TargetStore(m, d.target).entries, TargetRemoved(d), SummaryId(m, d);
    RemovedAreOwn(m, sessionId, strategy, d);
    LayersAfter(m, sessionId, strategy, d);
    SummaryEntryFields(m, sessionId, strategy, d);
    OtherSessionUntouched(entries, removed, sessionId, other);
    if strategy == Hard {
      OtherSessionUntouched(m.layer0.entries, d.removed0, sessionId, other);
    }
    FilterUnique(entries, KeepsId(Ids(removed)));
    hide Applied, MergeShape, Put, Listed, ToEntry, AutoId, SummaryId, SummaryEntry;
    if id in Ids(removed) {
      var r := IdOf(removed, id);
      forall x | x in InSession(entries, other) ensures x.id != id {
        if x.id == id {
          SameIdSameEntry(entries, x, r);
        }
      }
      IdAbsent(InSession(entries, other), id);
    } else {
      ForeignPut(Without(entries, Ids(removed)), SummaryEntry(m, d), other);
    }
  }

  lemma WithoutChangesIff(entries: seq<Entry>, id: string)
    ensures Without(entries, [id]) == entries <==> id !in Ids(entries)
  {
    if id in Ids(entries) {
      var e := IdOf(entries, id);
      assert e !in Without(entries, [id]);
    } else {
      forall x | x in entries ensures x.id != id {
        InIds(entries, x);
      }
      IdAbsent(entries, id);
    }
  }

  /** For any memory: compacting a session leaves another one untouched exactly when that one does not hold
      the automatic id the summary receives. */
  lemma OthersKeptIff(m: MemoryState, sessionId: string, strategy: Strategy, d: Decision, other: string)
    requires UniqueMemory(m) && MergeShape(m, sessionId, strategy, d) && other != sessionId
    ensures (&& InSession(Applied(m, d).layer0.entries, other) == InSession(m.layer0.entries, other)
             && InSession(Applied(m, d).layer1.entries, other) == InSession(m.layer1.entries, other))
            <==> SummaryId(m, d) !in Ids(InSession(TargetStore(m, d.target).entries, other))
  {
    OthersAfter(m, sessionId, strategy, d, other);
    WithoutChangesIff(InSession(TargetStore(m, d.target).entries, other), SummaryId(m, d));
    hide Applied, InSession, Without, SummaryId;
  }

  // ----- the session itself -----

  lemma OwnTokens(head: Entry, own: seq<Entry>, sessionId: string)
    ensures EntryTokens((if head.sessionId == Some(sessionId) then [head] else []) + own)
            == (if head.sessionId == Some(sessionId) then EstimateTokens(head.content) else 0) + EntryTokens(own)
  {
    EntryTokensSingle(head);
    EntryTokensConcat([head], own);
    assert [] + own == own;
  }

  /** The session has an entry with this id. */
  ghost predicate Owns(entries: seq<Entry>, sessionId: string, id: string) {
    exists x :: x in entries && x.sessionId == Some(sessionId) && x.id == id
  }

  lemma OwnsCons(head: Entry, tail: seq<Entry>, sessionId: string, id: string)
    ensures Owns([head] + tail, sessionId, id)
            <==> (head.sessionId == Some(sessionId) && head.id == id) || Owns(tail, sessionId, id)
  {
    assert head in [head] + tail;
    assert forall x :: x in tail ==> x in [head] + tail;
  }

  lemma OwnPutFirst(e: Entry, sessionId: string)
    requires e.sessionId == Some(sessionId)
    ensures |InSession(Put([], e), sessionId)| == 1 && |InSession([], sessionId)| == 0
    ensures EntryTokens(InSession(Put([], e), sessionId)) == EstimateTokens(e.content)
    ensures !Owns([], sessionId, e.id)
  {
    FilterSingle(e, OfSession(sessionId));
    EntryTokensSingle(e);
  }

  lemma UniqueHead(head: Entry, tail: seq<Entry>, sessionId: string)
    requires UniqueIds([head] + tail)
    ensures UniqueIds(tail) && !Owns(tail, sessionId, head.id)
  {
    var all := [head] + tail;
    assert all[0] == head && all[1..] == tail;
    forall x | x in tail ensures x.id != head.id {
      var i :| 0 <= i < |tail| && tail[i] == x;
      assert all[i + 1] == x;
    }
  }

  lemma {:induction false} OwnPut(entries: seq<Entry>, e: Entry, sessionId: string)
    requires UniqueIds(entries) && e.sessionId == Some(sessionId)
    ensures |InSession(Put(entries, e), sessionId)|
            == |InSession(entries, sessionId)| + if Owns(entries, sessionId, e.id) then 0 else 1
    ensures EntryTokens(InSession(Put(entries, e), sessionId))
            <= EntryTokens(InSession(entries, sessionId)) + EstimateTokens(e.content)
  {
    hide *;
    if entries == [] {
      OwnPutFirst(e, sessionId);
    } else {
      var head, tail := entries[0], entries[1..];
      assert entries == [head] + tail;
      UniqueHead(head, tail, sessionId);
      PutCons(head, tail, e);
      OwnsCons(head, tail, sessionId, e.id);
      InSessionCons(head, tail, sessionId);
      OwnTokens(head, InSession(tail, sessionId), sessionId);
      if head.id == e.id {
        InSessionCons(e, tail, sessionId);
        OwnTokens(e, InSession(tail, sessionId), sessionId);
      } else {
        OwnPut(tail, e, sessionId);
        InSessionCons(head, Put(tail, e), sessionId);
        OwnTokens(head, InSession(Put(tail, e), sessionId), sessionId);
      }
    }
  }

  /** The session's own entries that a merge keeps in the layer it writes to. */
  function KeptOwn(m: MemoryState, sessionId: string, strategy: Strategy): seq<Entry>
    requires strategy.Soft? ==> Listed(m.layer0.entries, sessionId) != []
  {
    if strategy.Soft? then [Listed(m.layer0.entries, sessionId)[0]] else []
  }

  lemma AllButNewest(entries: seq<Entry>, sessionId: string)
    requires UniqueIds(entries) && Listed(entries, sessionId) != []
    ensures var listed := Listed(entries, sessionId);
            Without(InSession(entries, sessionId), Ids(listed[1..])) == [listed[0]]
  {
    var listed := Listed(entries, sessionId);
    assert listed == [listed[0]] + listed[1..];
    ListedInSession(entries, sessionId);
    FilterUnique(entries, OfSession(sessionId));
    AllButOne(InSession(entries, sessionId), listed[0], listed[1..]);
  }

  lemma OwnKept(m: MemoryState, sessionId: string, strategy: Strategy, d: Decision)
    requires UniqueMemory(m) && MergeShape(m, sessionId, strategy, d)
    ensures InSession(Without(TargetStore(m, d.target).entries, Ids(TargetRemoved(d))), sessionId)
            == KeptOwn(m, sessionId, strategy)
    ensures strategy.Hard? ==> InSession(Without(m.layer0.entries, Ids(d.removed0)), sessionId) == []
  {
    var entries := TargetStore(m, d.target).entries;
    FiltersCommute(entries, KeepsId(Ids(TargetRemoved(d))), OfSession(sessionId));
    if strategy == Soft {
      AllButNewest(entries, sessionId);
    } else {
      ListedInSession(m.layer0.entries, sessionId);
      ListedInSession(m.layer1.entries, sessionId);
      FiltersCommute(m.layer0.entries, KeepsId(Ids(d.removed0)), OfSession(sessionId));
      AllRemoved(InSession(m.layer0.entries, sessionId), d.removed0);
      AllRemoved(InSession(entries, sessionId), d.removed1);
    }
  }

  /** Whether the session itself holds the id the summary receives, in the layer the summary goes to. */
  ghost predicate OwnsSummaryId(m: MemoryState, sessionId: string, d: Decision)
    requires d.Merge?
  {
    Owns(TargetStore(m, d.target).entries, sessionId, SummaryId(m, d))
  }

  lemma RemovedOwnsId(m: MemoryState, sessionId: string, strategy: Strategy, d: Decision)
    requires UniqueMemory(m) && MergeShape(m, sessionId, strategy, d)
    ensures var entries, removed, id := TargetStore(m, d.target).entries, TargetRemoved(d), SummaryId(m, d);
            && (id in Ids(removed) ==> OwnsSummaryId(m, sessionId, d))
            && (id !in Ids(removed) ==>
                  (Owns(Without(entries, Ids(removed)), sessionId, id) <==> OwnsSummaryId(m, sessionId, d)))
  {
    RemovedAreOwn(m, sessionId, strategy, d);
    var entries, removed := TargetStore(m, d.target).entries, TargetRemoved(d);
    hide MergeShape, SummaryId, TargetRemoved, Listed;
    if SummaryId(m, d) in Ids(removed) {
      var r := IdOf(removed, SummaryId(m, d));
    }
  }

  /** The session's part of the written layer: one entry more than it keeps, unless it held the summary's id
      itself; and never more tokens than it keeps plus those of the summary. */
  lemma OwnAfter(m: MemoryState, sessionId: string, strategy: Strategy, d: Decision)
    requires UniqueMemory(m) && MergeShape(m, sessionId, strategy, d)
    ensures var after, kept := InSession(TargetStore(Applied(m, d), d.target).entries, sessionId),
                               KeptOwn(m, sessionId, strategy);
            && |after| == |kept| + (if OwnsSummaryId(m, sessionId, d) then 0 else 1)
            && EntryTokens(after) <= EntryTokens(kept) + EstimateTokens(d.summary.content)
    ensures strategy.Soft? ==> Applied(m, d).layer1 == m.layer1
    ensures strategy.Hard? ==> InSession(Applied(m, d).layer0.entries, sessionId) == []
  {
    var kept := Without(TargetStore(m, d.target).entries, Ids(TargetRemoved(d)));
    LayersAfter(m, sessionId, strategy, d);
    SummaryEntryFields(m, sessionId, strategy, d);
    OwnKept(m, sessionId, strategy, d);
    RemovedOwnsId(m, sessionId, strategy, d);
    FilterUnique(TargetStore(m, d.target).entries, KeepsId(Ids(TargetRemoved(d))));
    hide Applied, KeptOwn, OwnsSummaryId, SummaryId, Without, InSession, EntryTokens, EstimateTokens, TargetRemoved;
    if SummaryId(m, d) !in Ids(TargetRemoved(d)) {
      OwnPut(kept, SummaryEntry(m, d), sessionId);
    }
  }

  lemma ListedCount(entries: seq<Entry>, sessionId: string)
    ensures |Listed(entries, sessionId)| == |InSession(entries, sessionId)|
    ensures EntryTokens(Listed(entries, sessionId)) == EntryTokens(InSession(entries, sessionId))
  {
    EntryTokensSorted(InSession(entries, sessionId));
  }

  lemma SessionTokens(m: MemoryState, sessionId: string)
    ensures EntryTokens(SessionEntries(m, sessionId))
            == EntryTokens(InSession(m.layer0.entries, sessionId)) + EntryTokens(InSession(m.layer1.entries, sessionId))
    ensures |SessionEntries(m, sessionId)|
            == |InSession(m.layer0.entries, sessionId)| + |InSession(m.layer1.entries, sessionId)|
  {
    ListedCount(m.layer0.entries, sessionId);
    ListedCount(m.layer1.entries, sessionId);
    EntryTokensConcat(Listed(m.layer0.entries, sessionId), Listed(m.layer1.entries, sessionId));
  }

  /** What the kept entry and the sources cost together is at most what the session cost before. */
  lemma SourcesWithin(m: MemoryState, sessionId: string, strategy: Strategy)
    requires strategy.Soft? ==> Listed(m.layer0.entries, sessionId) != []
    ensures EntryTokens(KeptOwn(m, sessionId, strategy)) + EntryTokens(Sources(m, sessionId, strategy))
            <= if strategy.Soft? then EntryTokens(InSession(m.layer0.entries, sessionId))
               else EntryTokens(SessionEntries(m, sessionId))
  {
    if strategy == Soft {
      var listed := Listed(m.layer0.entries, sessionId);
      EntryTokensFiltered(listed[1..], AllowedFor(Layer0));
      EntryTokensConcat([listed[0]], listed[1..]);
      assert listed == [listed[0]] + listed[1..];
      ListedCount(m.layer0.entries, sessionId);
    } else {
      EntryTokensFiltered(SessionEntries(m, sessionId), AllowedFor(Layer1));
    }
  }

  /** For any memory: a merge costs fewer tokens than before, and one entry comes for those removed, exactly
      unless the session itself held the id the summary receives. */
  lemma MergeShrinks(m: MemoryState, sessionId: string, strategy: Strategy, d: Decision)
    requires UniqueMemory(m) && MergeShape(m, sessionId, strategy, d)
    ensures var before, after := SessionEntries(m, sessionId), SessionEntries(Applied(m, d), sessionId);
            && EntryTokens(after) < EntryTokens(before)
            && |after| == |before| - |d.removed0 + d.removed1| + (if OwnsSummaryId(m, sessionId, d) then 0 else 1)
            && |d.removed0 + d.removed1| >= 2
  {
    OwnAfter(m, sessionId, strategy, d);
    SourcesWithin(m, sessionId, strategy);
    SessionTokens(m, sessionId);
    SessionTokens(Applied(m, d), sessionId);
    ListedCount(m.layer0.entries, sessionId);
    ListedCount(m.layer1.entries, sessionId);
    hide Applied, Sources, EntryTokens, EstimateTokens, InSession, Listed, OwnsSummaryId;
  }

  /** A soft merge, for any memory. Layer 1 is untouched. Layer 0 is the entries that were not removed with
      the summary after them, exactly when the id of the summary is free; the session then has its newest
      entry and the summary. */
  lemma SoftEffect(m: MemoryState, sessionId: string, d: Decision)
    requires UniqueMemory(m) && MergeShape(m, sessionId, Soft, d)
    ensures var m', s := Applied(m, d), SummaryEntry(m, d);
            && m'.layer1 == m.layer1
            && (m'.layer0.entries == Without(m.layer0.entries, Ids(d.removed0)) + [s]
                <==> SummaryId(m, d) !in Ids(m.layer0.entries))
            && (SummaryId(m, d) !in Ids(m.layer0.entries) ==>
                  InSession(m'.layer0.entries, sessionId) == [Listed(m.layer0.entries, sessionId)[0], s])
  {
    hide *;
    SoftTarget(m, sessionId, d);
    LayersAfter(m, sessionId, Soft, d);
    OwnKept(m, sessionId, Soft, d);
    SummaryEntryFields(m, sessionId, Soft, d);
    RemovedAreOwn(m, sessionId, Soft, d);
    PutAfterRemoval(
      m.layer0.entries, d.removed0, SummaryEntry(m, d), sessionId, Listed(m.layer0.entries, sessionId)[0]);
  }

  lemma SoftTarget(m: MemoryState, sessionId: string, d: Decision)
    requires MergeShape(m, sessionId, Soft, d)
    ensures d.Merge? && Listed(m.layer0.entries, sessionId) != []
    ensures TargetRemoved(d) == d.removed0 && TargetStore(m, d.target) == m.layer0
    ensures TargetStore(Applied(m, d), d.target) == Applied(m, d).layer0
    ensures KeptOwn(m, sessionId, Soft) == [Listed(m.layer0.entries, sessionId)[0]]
  {
    hide Listed, Applied, EntryTokens, EstimateTokens, Sources;
  }

  lemma PutAfterRemoval(entries: seq<Entry>, removed: seq<Entry>, s: Entry, sessionId: string, newest: Entry)
    requires s.sessionId == Some(sessionId) && forall x :: x in removed ==> x in entries
    requires InSession(Without(entries, Ids(removed)), sessionId) == [newest]
    ensures var kept := Without(entries, Ids(removed));
            var after := if s.id in Ids(removed) then kept else Put(kept, s);
            && (after == kept + [s] <==> s.id !in Ids(entries))
            && (s.id !in Ids(entries) ==> InSession(after, sessionId) == [newest, s])
  {
    hide *;
    var kept := Without(entries, Ids(removed));
    SessionAppend(kept, s, sessionId);
    assert [newest] + [s] == [newest, s];
    if s.id in Ids(removed) {
      var r := IdOf(removed, s.id);
      InIds(entries, r);
      assert |kept + [s]| != |kept|;
    } else {
      AppendedIff(entries, removed, s);
    }
  }

  lemma SessionAppend(entries: seq<Entry>, e: Entry, sessionId: string)
    ensures InSession(entries + [e], sessionId)
            == InSession(entries, sessionId) + if e.sessionId == Some(sessionId) then [e] else []
  {
    FilterLast(entries, e, OfSession(sessionId));
  }

  /** A write after removals appends exactly when its id was held by no entry that stayed. */
  lemma AppendedIff(entries: seq<Entry>, removed: seq<Entry>, e: Entry)
    requires e.id !in Ids(removed)
    ensures var kept := Without(entries, Ids(removed));
            Put(kept, e) == kept + [e] <==> e.id !in Ids(entries)
  {
    var kept := Without(entries, Ids(removed));
    if e.id in Ids(entries) {
      var x := IdOf(entries, e.id);
      PutLength(kept, e, x);
    } else {
      forall x | x in kept ensures x.id != e.id {
        InIds(entries, x);
      }
      PutFresh(kept, e);
    }
  }

  lemma {:induction false} PutLength(entries: seq<Entry>, e: Entry, x: Entry)
    requires x in entries && x.id == e.id
    ensures |Put(entries, e)| == |entries|
  {
    if entries[0].id != e.id {
      PutLength(entries[1..], e, x);
    }
  }

  /** A hard merge, for any memory: the session has nothing in layer 0, and in layer 1 the summary alone, or
      nothing exactly when a removed layer-1 entry held its id. */
  lemma HardEffect(m: MemoryState, sessionId: string, d: Decision)
    requires UniqueMemory(m) && MergeShape(m, sessionId, Hard, d)
    ensures var m' := Applied(m, d);
            && InSession(m'.layer0.entries, sessionId) == []
            && InSession(m'.layer1.entries, sessionId)
               == if SummaryId(m, d) in Ids(d.removed1) then [] else [SummaryEntry(m, d)]
  {
    OwnAfter(m, sessionId, Hard, d);
    SummaryEntryFields(m, sessionId, Hard, d);
    LayersAfter(m, sessionId, Hard, d);
    OwnKept(m, sessionId, Hard, d);
    assert TargetRemoved(d) == d.removed1 && TargetStore(m, d.target) == m.layer1;
    assert KeptOwn(m, sessionId, Hard) == [];
    assert TargetStore(Applied(m, d), d.target) == Applied(m, d).layer1;
    hide *;
    OnlyPut(Without(m.layer1.entries, Ids(d.removed1)), SummaryEntry(m, d), sessionId);
  }

  lemma {:induction false} OnlyPut(entries: seq<Entry>, e: Entry, sessionId: string)
    requires InSession(entries, sessionId) == [] && e.sessionId == Some(sessionId)
    ensures InSession(Put(entries, e), sessionId) == [e]
  {
    if entries == [] {
      FilterSingle(e, OfSession(sessionId));
    } else {
      var head, tail := entries[0], entries[1..];
      assert entries == [head] + tail;
      hide *;
      PutCons(head, tail, e);
      InSessionCons(head, tail, sessionId);
      if head.id == e.id {
        InSessionCons(e, tail, sessionId);
      } else {
        OnlyPut(tail, e, sessionId);
        InSessionCons(head, Put(tail, e), sessionId);
        assert [] + [e] == [e];
      }
    }
  }

  // ----- with reserved ids -----

  /** Callers that keep away from automatic ids always leave the summary a free one. */
  lemma ReservedIsFree(m: MemoryState, d: Decision)
    requires ReservedMemory(m) && d.Merge?
    ensures SummaryId(m, d) !in Ids(TargetStore(m, d.target).entries)
  {
    if SummaryId(m, d) in Ids(TargetStore(m, d.target).entries) {
      var e := IdOf(TargetStore(m, d.target).entries, SummaryId(m, d));
      assert false;
    }
  }

  lemma MergeStaysReserved(m: MemoryState, sessionId: string, strategy: Strategy, d: Decision)
    requires ReservedMemory(m) && MergeShape(m, sessionId, strategy, d)
    ensures ReservedMemory(Applied(m, d))
  {
    MergeStaysUnique(m, sessionId, strategy, d);
    UpsertReserved(TargetStore(m, d.target), d.summary);
  }

  /** Compaction keeps ids unique, and future automatic ids unused where they were. */
  lemma CompactionStaysUnique(m: MemoryState, sessionId: string, strategy: Strategy, now: int)
    requires UniqueMemory(m)
    ensures UniqueMemory(Compacted(m, sessionId, strategy, now))
    ensures ReservedMemory(m) ==> ReservedMemory(Compacted(m, sessionId, strategy, now))
  {
    DecisionShape(m, sessionId, strategy, now);
    var d := Decide(m, sessionId, strategy, now);
    hide Decide;
    if d.Merge? {
      MergeStaysUnique(m, sessionId, strategy, d);
      if ReservedMemory(m) {
        MergeStaysReserved(m, sessionId, strategy, d);
      }
    }
  }

  // ----- what the result promises -----

  /** Compaction is all or nothing, for any memory. Either memory is untouched and a reason is reported, or
      tokens and entry count strictly drop and the numbers reported are the ones before and after; one entry
      comes for those removed exactly unless the session itself held the id the summary receives. */
  lemma CompactionAllOrNothing(m: MemoryState, sessionId: string, strategy: Strategy, now: int)
    requires UniqueMemory(m)
    ensures var m', r := Compacted(m, sessionId, strategy, now), ResultOf(m, sessionId, strategy, now);
            && (r.compacted <==> r.reason == None)
            && (r.compacted <==> Decide(m, sessionId, strategy, now).Merge?)
            && (!r.compacted ==>
                  && m' == m && r.removedEntryIds == [] && r.summaryEntryIds == []
                  && r.beforeTokens == r.afterTokens && r.reducedTokens == 0)
            && (r.compacted ==>
                  && r.afterTokens < r.beforeTokens && r.reducedTokens == r.beforeTokens - r.afterTokens
                  && r.afterEntryCount < r.beforeEntryCount
                  && (r.afterEntryCount == r.beforeEntryCount - |r.removedEntryIds| + 1
                      <==> !OwnsSummaryId(m, sessionId, Decide(m, sessionId, strategy, now)))
                  && r.summaryEntryIds == [SummaryId(m, Decide(m, sessionId, strategy, now))])
  {
    DecisionShape(m, sessionId, strategy, now);
    var d := Decide(m, sessionId, strategy, now);
    hide Decide, EntryTokens, Sources, Listed, TargetStore, ToEntry, OwnsSummaryId, SummaryId, MergeShape, Written, Without,
      UniqueMemory, SessionEntries;
    assert d.Refuse? ==> Applied(m, d) == m;
    if d.Merge? {
      MergedNumbers(m, sessionId, strategy, d);
    }
  }

  lemma MergedNumbers(m: MemoryState, sessionId: string, strategy: Strategy, d: Decision)
    requires UniqueMemory(m) && MergeShape(m, sessionId, strategy, d)
    ensures var r := BuildResult(
                       sessionId, strategy, SessionEntries(m, sessionId), SessionEntries(Applied(m, d), sessionId),
                       Reported(m, d));
            && r.compacted && r.reason == None
            && r.afterTokens < r.beforeTokens && r.reducedTokens == r.beforeTokens - r.afterTokens
            && r.afterEntryCount < r.beforeEntryCount
            && (r.afterEntryCount == r.beforeEntryCount - |r.removedEntryIds| + 1 <==> !OwnsSummaryId(m, sessionId, d))
            && r.summaryEntryIds == [SummaryId(m, d)]
  {
    SummaryEntryFields(m, sessionId, strategy, d);
    MergeShrinks(m, sessionId, strategy, d);
    hide Applied, EntryTokens, Sources, Listed, TargetStore, ToEntry, OwnsSummaryId, SummaryId, MergeShape, UniqueMemory,
      SessionEntries;
  }

  /** For any memory, every entry of the session is accounted for: afterwards the session holds the summary,
      unless a removed entry had its id, and the entries that were neither removed nor overwritten by it. */
  lemma RemovedAndSurvivorsPartition(m: MemoryState, sessionId: string, strategy: Strategy, d: Decision, e: Entry)
    requires UniqueMemory(m) && MergeShape(m, sessionId, strategy, d)
    ensures var id := SummaryId(m, d);
            e in SessionEntries(Applied(m, d), sessionId) <==>
              || (e == SummaryEntry(m, d) && id !in Ids(TargetRemoved(d)))
              || (e in SessionEntries(m, sessionId) && e !in d.removed0 && e !in d.removed1
                  && !(e.layer == d.target && e.id == id))
  {
    var m' := Applied(m, d);
    MergeStaysUnique(m, sessionId, strategy, d);
    MembersAfter(m, sessionId, strategy, d, e);
    SummaryEntryFields(m, sessionId, strategy, d);
    RemovedAreOwn(m, sessionId, strategy, d);
    hide Applied, Sources, EntryTokens, EstimateTokens, SummaryEntry, SummaryId;
    ListedInSession(m.layer0.entries, sessionId);
    ListedInSession(m.layer1.entries, sessionId);
    ListedInSession(m'.layer0.entries, sessionId);
    ListedInSession(m'.layer1.entries, sessionId);
    hide Listed;
  }

  /** A non-empty set of admissible sources is refused exactly when none of the three summary
      texts costs fewer tokens than the sources. */
  lemma RefusedIffNoTierIsCheaper(m: MemoryState, sessionId: string, strategy: Strategy, now: int)
    requires Sources(m, sessionId, strategy) != []
    requires match strategy
             case Soft => |Listed(m.layer0.entries, sessionId)| >= 3
             case Hard => |SessionEntries(m, sessionId)| >= 2
    ensures var sources := Sources(m, sessionId, strategy);
            Decide(m, sessionId, strategy, now).Refuse? <==>
              && EstimateTokens(VerboseSummary(strategy, sources)) >= EntryTokens(sources)
              && EstimateTokens(CompactSummary(strategy, sources)) >= EntryTokens(sources)
              && EstimateTokens(MinimalSummary(strategy, sources)) >= EntryTokens(sources)
  {
    hide VerboseSummary, CompactSummary, MinimalSummary, SummaryDraft, EntryTokens, EstimateTokens, Listed, Filter;
    var sources := Sources(m, sessionId, strategy);
    assert SummaryContent(strategy, sources)
      in {VerboseSummary(strategy, sources), CompactSummary(strategy, sources), MinimalSummary(strategy, sources)};
  }

  /** A snippet is always one line, and it stays within its budget exactly when the budget is at least
      four characters or nothing had to be cut. */
  lemma SnippetFits(content: string, maxChars: nat)
    ensures |Snippet(content, maxChars)| <= maxChars <==> maxChars >= 4 || |Trim(CollapseSpaces(content))| <= maxChars
    ensures forall c :: c in Snippet(content, maxChars) && IsSpace(c) ==> c == ' '
  {
    var normalized := Trim(CollapseSpaces(content));
    CollapseLeavesBlanks(content);
    TrimKeepsChars(CollapseSpaces(content));
    if |normalized| > maxChars {
      TrimIsTrimmed(CollapseSpaces(content));
      var kept := if maxChars > 4 then maxChars - 3 else 1;
      var cut := TrimEnd(normalized[..kept]);
      assert cut <= normalized;
      assert kept == 1 ==> cut == normalized[..1];
      forall c | c in cut + "..." && IsSpace(c) ensures c == ' ' {
        assert c in cut ==> c in normalized;
      }
    }
  }

  /** Without the rule on ids the promise fails. When a removed entry already holds the automatic id
      that the summary receives, the summary overwrites it and is then removed with the sources;
      otherwise the summary survives. No assumption on the ids in memory is made here. */
  lemma SummarySurvivesIffIdUnused(m: MemoryState, sessionId: string, strategy: Strategy, d: Decision)
    requires MergeShape(m, sessionId, strategy, d)
    ensures var store := TargetStore(m, d.target);
            var removed := if d.target.Layer0? then d.removed0 else d.removed1;
            (SummaryEntry(m, d) in TargetStore(Applied(m, d), d.target).entries)
            <==> AutoId(store.layer, store.issued + 1) !in Ids(removed)
  {
    assert SummaryEntry(m, d) in Upserted(TargetStore(m, d.target), d.summary).entries;
  }
}
