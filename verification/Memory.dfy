/** The two memory layers: entries, the layer store and the manager that routes writes. */
module Memory {
  import opened Options
  import opened Sequences
  import opened Text

  datatype Layer = Layer0 | Layer1

  datatype Strategy = Soft | Hard

  datatype Safety = Safety(safe: Option<bool>, findings: Option<seq<string>>)

  /** The `memoryAdmission` record of an entry's metadata. */
  datatype Admission = Admission(
    retention: Option<string>,
    category: Option<string>,
    reason: Option<string>,
    safety: Option<Safety>)

  datatype SourceAdmission = SourceAdmission(
    entryId: string,
    retention: Option<string>,
    category: Option<string>,
    safe: bool)

  /** What a compaction summary records about its sources. */
  datatype SummaryRecord = SummaryRecord(
    strategy: Strategy,
    compactedAt: int,
    sourceEntryIds: seq<string>,
    sourceLayers: seq<Layer>,
    sourceNamespaces: seq<string>,
    sourceAdmissions: seq<SourceAdmission>)

  datatype Metadata = Metadata(admission: Option<Admission>, summary: Option<SummaryRecord>)

  datatype Entry = Entry(
    id: string,
    layer: Layer,
    content: string,
    sessionId: Option<string>,
    namespace: Option<string>,
    tags: seq<string>,
    metadata: Metadata,
    updatedAt: int)

  /** The input of a write. An absent id asks for the next automatic one. */
  datatype Draft = Draft(
    id: Option<string>,
    content: string,
    sessionId: Option<string>,
    namespace: Option<string>,
    tags: Option<seq<string>>,
    metadata: Metadata,
    timestamp: int)

  /** One layer: its entries in insertion order and the number of automatic ids issued so far. */
  datatype Store = Store(layer: Layer, entries: seq<Entry>, issued: nat)

  datatype MemoryState = MemoryState(layer0: Store, layer1: Store)

  // ----- ids -----

  function AutoId(layer: Layer, n: nat): string {
    (match layer case Layer0 => "l0_" case Layer1 => "l1_") + Decimal(n)
  }

  lemma AutoIdInjective(layer: Layer, m: nat, n: nat)
    requires AutoId(layer, m) == AutoId(layer, n)
    ensures m == n
  {
    assert Decimal(m) == AutoId(layer, m)[3..];
    assert Decimal(n) == AutoId(layer, n)[3..];
    DecimalInjective(m, n);
  }

  function Ids(entries: seq<Entry>): (ids: seq<string>)
    ensures |ids| == |entries|
    ensures forall i :: 0 <= i < |entries| ==> ids[i] == entries[i].id
  {
    Map(entries, (e: Entry) => e.id)
  }

  ghost predicate UniqueIds(entries: seq<Entry>) {
    forall i, j :: 0 <= i < j < |entries| ==> entries[i].id != entries[j].id
  }

  /** No entry holds an automatic id that is still to be issued. */
  ghost predicate NoFutureIds(store: Store) {
    forall e, n: nat :: e in store.entries && n > store.issued ==> e.id != AutoId(store.layer, n)
  }

  ghost predicate UniqueStore(store: Store) {
    UniqueIds(store.entries) && forall e :: e in store.entries ==> e.layer == store.layer
  }

  /** Holds of every memory that writes can reach: a layer is a map by id. */
  ghost predicate UniqueMemory(m: MemoryState) {
    m.layer0.layer == Layer0 && m.layer1.layer == Layer1 && UniqueStore(m.layer0) && UniqueStore(m.layer1)
  }

  /** In addition, callers have kept away from automatic ids. */
  ghost predicate ReservedMemory(m: MemoryState) {
    UniqueMemory(m) && NoFutureIds(m.layer0) && NoFutureIds(m.layer1)
  }

  // ----- one layer -----

  function Find(entries: seq<Entry>, id: string): (r: Option<Entry>)
    ensures r.Some? <==> exists e :: e in entries && e.id == id
    ensures r.Some? ==> r.value in entries && r.value.id == id
  {
    if entries == [] then None
    else if entries[0].id == id then Some(entries[0])
    else
      assert entries == [entries[0]] + entries[1..];
      Find(entries[1..], id)
  }

  /** `Map.set`: a known id keeps its place. */
  function Put(entries: seq<Entry>, e: Entry): (r: seq<Entry>)
    ensures e in r && forall x :: x in r ==> x == e || x in entries
    ensures forall x :: x in entries && x.id != e.id ==> x in r
  {
    if entries == [] then [e]
    else
      assert entries == [entries[0]] + entries[1..];
      if entries[0].id == e.id then [e] + entries[1..] else [entries[0]] + Put(entries[1..], e)
  }

  function Or<T>(value: Option<T>, default: Option<T>): Option<T> {
    if value.Some? then value else default
  }

  function Existing(store: Store, draft: Draft): Option<Entry> {
    if draft.id.Some? && draft.id.value != "" then Find(store.entries, draft.id.value) else None
  }

  function NewId(store: Store, draft: Draft): string {
    if draft.id.Some? then draft.id.value else AutoId(store.layer, store.issued + 1)
  }

  /** A write merges with the entry it replaces: its own tags and metadata win where it has any. */
  function ToEntry(store: Store, draft: Draft): Entry {
    var existing := Existing(store, draft);
    var before := if existing.Some? then existing.value.metadata else Metadata(None, None);
    Entry(
      NewId(store, draft), store.layer, draft.content, draft.sessionId, draft.namespace,
      if draft.tags.Some? then draft.tags.value else if existing.Some? then existing.value.tags else [],
      Metadata(Or(draft.metadata.admission, before.admission), Or(draft.metadata.summary, before.summary)),
      draft.timestamp)
  }

  function Upserted(store: Store, draft: Draft): Store {
    store.(
      entries := Put(store.entries, ToEntry(store, draft)),
      issued := if draft.id.Some? then store.issued else store.issued + 1)
  }

  function KeepsId(ids: seq<string>): Entry -> bool {
    (e: Entry) => e.id !in ids
  }

  function Without(entries: seq<Entry>, ids: seq<string>): seq<Entry> {
    Filter(entries, KeepsId(ids))
  }

  function OfSession(sessionId: string): Entry -> bool {
    (e: Entry) => e.sessionId == Some(sessionId)
  }

  function InSession(entries: seq<Entry>, sessionId: string): seq<Entry> {
    Filter(entries, OfSession(sessionId))
  }

  function InsertDesc(e: Entry, sorted: seq<Entry>): (r: seq<Entry>)
    ensures |r| == |sorted| + 1 && multiset(r) == multiset{e} + multiset(sorted)
    ensures forall x :: x in r <==> x == e || x in sorted
  {
    if sorted == [] || e.updatedAt >= sorted[0].updatedAt then
      assert multiset([e] + sorted) == multiset{e} + multiset(sorted);
      [e] + sorted
    else
      var rest := InsertDesc(e, sorted[1..]);
      assert sorted == [sorted[0]] + sorted[1..];
      assert multiset([sorted[0]] + rest) == multiset{sorted[0]} + multiset(rest);
      [sorted[0]] + rest
  }

  /** `sort((left, right) => right.updatedAt - left.updatedAt)`: newest first, stable. */
  function SortDesc(entries: seq<Entry>): (r: seq<Entry>)
    ensures |r| == |entries| && multiset(r) == multiset(entries)
    ensures forall x :: x in r <==> x in entries
  {
    if entries == [] then []
    else
      assert entries == [entries[0]] + entries[1..];
      InsertDesc(entries[0], SortDesc(entries[1..]))
  }

  function Listed(entries: seq<Entry>, sessionId: string): seq<Entry> {
    SortDesc(InSession(entries, sessionId))
  }

  // ----- laws -----

  ghost predicate NewestFirst(entries: seq<Entry>) {
    forall i, j :: 0 <= i < j < |entries| ==> entries[i].updatedAt >= entries[j].updatedAt
  }

  function UpdatedAt(time: int): Entry -> bool {
    (e: Entry) => e.updatedAt == time
  }

  lemma {:induction false} InsertDescSorts(e: Entry, sorted: seq<Entry>)
    requires NewestFirst(sorted)
    ensures NewestFirst(InsertDesc(e, sorted))
  {
    if !(sorted == [] || e.updatedAt >= sorted[0].updatedAt) {
      var rest := InsertDesc(e, sorted[1..]);
      InsertDescSorts(e, sorted[1..]);
      forall i | 0 <= i < |rest| ensures sorted[0].updatedAt >= rest[i].updatedAt {
        assert rest[i] in rest;
        assert rest[i] == e || rest[i] in sorted[1..];
      }
    }
  }

  lemma {:induction false} InsertDescStable(e: Entry, sorted: seq<Entry>, time: int)
    ensures Filter(InsertDesc(e, sorted), UpdatedAt(time)) == Filter([e], UpdatedAt(time)) + Filter(sorted, UpdatedAt(time))
  {
    var at := UpdatedAt(time);
    if sorted == [] || e.updatedAt >= sorted[0].updatedAt {
      FilterConcat([e], sorted, at);
    } else {
      var head, tail := sorted[0], sorted[1..];
      InsertDescStable(e, tail, time);
      FilterConcat([head], InsertDesc(e, tail), at);
      FilterConcat([head], tail, at);
      FilterSingle(e, at);
      FilterSingle(head, at);
      calc {
        Filter(InsertDesc(e, sorted), at);
        Filter([head], at) + (Filter([e], at) + Filter(tail, at));
        { EmptyCommutes(Filter([head], at), Filter([e], at), Filter(tail, at)); }
        Filter([e], at) + (Filter([head], at) + Filter(tail, at));
        { assert sorted == [head] + tail; }
        Filter([e], at) + Filter(sorted, at);
      }
    }
  }

  lemma EmptyCommutes<T>(a: seq<T>, b: seq<T>, c: seq<T>)
    requires a == [] || b == []
    ensures a + (b + c) == b + (a + c)
  {
  }

  lemma FilterSingle<T(!new)>(x: T, keep: T -> bool)
    ensures Filter([x], keep) == if keep(x) then [x] else []
  {
    FilterLast([], x, keep);
    assert [] + [x] == [x];
  }

  /** Listing sorts newest first and keeps the insertion order of equal times; with the permutation
      promised by `SortDesc` this determines the listing completely. */
  lemma {:induction false} ListingIsStableSort(entries: seq<Entry>, time: int)
    ensures NewestFirst(SortDesc(entries))
    ensures Filter(SortDesc(entries), UpdatedAt(time)) == Filter(entries, UpdatedAt(time))
  {
    if entries != [] {
      ListingIsStableSort(entries[1..], time);
      InsertDescSorts(entries[0], SortDesc(entries[1..]));
      InsertDescStable(entries[0], SortDesc(entries[1..]), time);
      FilterConcat([entries[0]], entries[1..], UpdatedAt(time));
      assert entries == [entries[0]] + entries[1..];
    }
  }

  lemma {:induction false} InsertDescUnique(e: Entry, sorted: seq<Entry>)
    requires UniqueIds(sorted) && forall x :: x in sorted ==> x.id != e.id
    ensures UniqueIds(InsertDesc(e, sorted))
  {
    if !(sorted == [] || e.updatedAt >= sorted[0].updatedAt) {
      var rest := InsertDesc(e, sorted[1..]);
      InsertDescUnique(e, sorted[1..]);
      forall i | 0 <= i < |rest| ensures rest[i].id != sorted[0].id {
        assert rest[i] in rest;
      }
    }
  }

  lemma {:induction false} SortDescUnique(entries: seq<Entry>)
    requires UniqueIds(entries)
    ensures UniqueIds(SortDesc(entries))
  {
    if entries != [] {
      SortDescUnique(entries[1..]);
      InsertDescUnique(entries[0], SortDesc(entries[1..]));
    }
  }

  lemma {:induction false} FilterUnique(entries: seq<Entry>, keep: Entry -> bool)
    requires UniqueIds(entries)
    ensures UniqueIds(Filter(entries, keep))
  {
    if entries != [] {
      var t, x := entries[..|entries| - 1], entries[|entries| - 1];
      FilterUnique(t, keep);
      forall i | 0 <= i < |Filter(t, keep)| ensures Filter(t, keep)[i].id != x.id {
        assert Filter(t, keep)[i] in t;
      }
    }
  }

  lemma {:induction false} PutFresh(entries: seq<Entry>, e: Entry)
    requires forall x :: x in entries ==> x.id != e.id
    ensures Put(entries, e) == entries + [e]
  {
    if entries != [] {
      PutFresh(entries[1..], e);
    }
  }

  lemma {:induction false} PutUnique(entries: seq<Entry>, e: Entry)
    requires UniqueIds(entries)
    ensures UniqueIds(Put(entries, e))
    ensures forall x :: x in Put(entries, e) && x.id == e.id ==> x == e
  {
    if entries != [] {
      var tail := entries[1..];
      if entries[0].id != e.id {
        PutUnique(tail, e);
        forall i | 0 <= i < |Put(tail, e)| ensures Put(tail, e)[i].id != entries[0].id {
          assert Put(tail, e)[i] in Put(tail, e);
        }
      }
    }
  }

  /** Every write keeps ids unique. */
  lemma UpsertUnique(store: Store, draft: Draft)
    requires UniqueStore(store)
    ensures UniqueStore(Upserted(store, draft))
  {
    PutUnique(store.entries, ToEntry(store, draft));
  }

  /** A write keeps future automatic ids unused unless it names one; and then an automatic id is fresh. */
  lemma UpsertReserved(store: Store, draft: Draft)
    requires NoFutureIds(store)
    requires forall n: nat :: n > store.issued ==> draft.id != Some(AutoId(store.layer, n))
    ensures NoFutureIds(Upserted(store, draft))
    ensures draft.id == None ==> Upserted(store, draft).entries == store.entries + [ToEntry(store, draft)]
  {
    var e := ToEntry(store, draft);
    if draft.id == None {
      PutFresh(store.entries, e);
      forall n: nat | n > store.issued + 1 ensures e.id != AutoId(store.layer, n) {
        if e.id == AutoId(store.layer, n) {
          AutoIdInjective(store.layer, n, store.issued + 1);
        }
      }
    }
  }

  /** What a write leaves of the entry it replaces: its place, its id, its layer, and tags and metadata where
      the write brings none. Everything else is the write's own. */
  ghost predicate Replaces(e: Entry, before: Entry, draft: Draft) {
    && e.id == before.id && e.layer == before.layer
    && e.content == draft.content && e.sessionId == draft.sessionId && e.namespace == draft.namespace
    && e.updatedAt == draft.timestamp
    && e.tags == (if draft.tags.Some? then draft.tags.value else before.tags)
    && e.metadata.admission
       == (if draft.metadata.admission.Some? then draft.metadata.admission else before.metadata.admission)
    && e.metadata.summary == (if draft.metadata.summary.Some? then draft.metadata.summary else before.metadata.summary)
  }

  lemma {:induction false} FindAt(entries: seq<Entry>, i: nat)
    requires UniqueIds(entries) && i < |entries|
    ensures Find(entries, entries[i].id) == Some(entries[i])
  {
    if entries[0].id != entries[i].id {
      FindAt(entries[1..], i - 1);
    }
  }

  lemma {:induction false} PutAt(entries: seq<Entry>, i: nat, e: Entry)
    requires UniqueIds(entries) && i < |entries| && entries[i].id == e.id
    ensures Put(entries, e) == entries[i := e]
  {
    if entries[0].id != e.id {
      PutAt(entries[1..], i - 1, e);
    }
  }

  /** A write under the id of an entry replaces it where it stands and issues no automatic id. */
  lemma UpsertReplaces(store: Store, draft: Draft, i: nat)
    requires UniqueStore(store) && i < |store.entries|
    requires draft.id == Some(store.entries[i].id) && store.entries[i].id != ""
    ensures var store' := Upserted(store, draft);
            && |store'.entries| == |store.entries| && store'.issued == store.issued
            && Replaces(store'.entries[i], store.entries[i], draft)
            && forall j :: 0 <= j < |store.entries| && j != i ==> store'.entries[j] == store.entries[j]
  {
    FindAt(store.entries, i);
    PutAt(store.entries, i, ToEntry(store, draft));
    assert store.entries[i] in store.entries;
    hide Find, Put;
  }

  /** A write under a new id, or without one, appends an entry with the write's own fields. */
  lemma UpsertAppends(store: Store, draft: Draft)
    requires draft.id != Some("")
    requires forall e :: e in store.entries ==>
               e.id != if draft.id.Some? then draft.id.value else AutoId(store.layer, store.issued + 1)
    ensures var store' := Upserted(store, draft);
            && |store'.entries| == |store.entries| + 1 && store'.entries[..|store.entries|] == store.entries
            && var e := store'.entries[|store.entries|];
               && e == Entry(
                         if draft.id.Some? then draft.id.value else AutoId(store.layer, store'.issued), store.layer,
                         draft.content, draft.sessionId, draft.namespace,
                         if draft.tags.Some? then draft.tags.value else [], draft.metadata, draft.timestamp)
               && store'.issued == store.issued + if draft.id.Some? then 0 else 1
  {
    PutFresh(store.entries, ToEntry(store, draft));
    hide Put, AutoId;
  }

  lemma WithoutUnique(store: Store, ids: seq<string>)
    requires UniqueStore(store)
    ensures UniqueStore(store.(entries := Without(store.entries, ids)))
  {
    FilterUnique(store.entries, KeepsId(ids));
  }

  lemma {:induction false} PutMembers(entries: seq<Entry>, e: Entry, x: Entry)
    requires UniqueIds(entries)
    ensures x in Put(entries, e) <==> x == e || (x in entries && x.id != e.id)
  {
    PutUnique(entries, e);
  }

  lemma WithoutCons(head: Entry, tail: seq<Entry>, ids: seq<string>)
    ensures Without([head] + tail, ids) == (if head.id in ids then [] else [head]) + Without(tail, ids)
  {
    FilterConcat([head], tail, KeepsId(ids));
    FilterSingle(head, KeepsId(ids));
  }

  lemma PutCons(head: Entry, tail: seq<Entry>, e: Entry)
    ensures Put([head] + tail, e) == if head.id == e.id then [e] + tail else [head] + Put(tail, e)
  {
    assert ([head] + tail)[1..] == tail;
  }

  lemma PutThenWithoutNothing(e: Entry, ids: seq<string>)
    ensures Without(Put([], e), ids) == if e.id in ids then Without([], ids) else Put(Without([], ids), e)
  {
    FilterSingle(e, KeepsId(ids));
  }

  /** Removing after a write: the written entry goes too if its id is removed, and otherwise the write could
      as well have come last. */
  lemma {:induction false} PutThenWithout(entries: seq<Entry>, e: Entry, ids: seq<string>)
    ensures Without(Put(entries, e), ids)
            == if e.id in ids then Without(entries, ids) else Put(Without(entries, ids), e)
  {
    hide *;
    if entries == [] {
      PutThenWithoutNothing(e, ids);
    } else {
      var head, tail := entries[0], entries[1..];
      assert entries == [head] + tail;
      PutCons(head, tail, e);
      WithoutCons(head, tail, ids);
      if head.id == e.id {
        WithoutCons(e, tail, ids);
        PutCons(head, Without(tail, ids), e);
        assert [] + Without(tail, ids) == Without(tail, ids);
      } else {
        PutThenWithout(tail, e, ids);
        WithoutCons(head, Put(tail, e), ids);
        PutCons(head, Without(tail, ids), e);
        assert forall s: seq<Entry> :: [] + s == s;
      }
    }
  }

  lemma {:induction false} FiltersCommute<T(!new)>(s: seq<T>, p: T -> bool, q: T -> bool)
    ensures Filter(Filter(s, p), q) == Filter(Filter(s, q), p)
  {
    if s != [] {
      var t, x := s[..|s| - 1], s[|s| - 1];
      assert s == t + [x];
      FiltersCommute(t, p, q);
      FilterLast(Filter(t, p), x, q);
      FilterLast(Filter(t, q), x, p);
    }
  }

  lemma {:induction false} WithoutTwice(entries: seq<Entry>, ids: seq<string>, id: string)
    ensures Without(Without(entries, ids), [id]) == Without(entries, ids + [id])
  {
    if entries != [] {
      var t, x := entries[..|entries| - 1], entries[|entries| - 1];
      WithoutTwice(t, ids, id);
      FilterLast(Without(t, ids), x, KeepsId([id]));
    }
  }

  // ----- the stateful layer and manager -----

  class LayerStore {
    const layer: Layer
    var entries: seq<Entry>
    var issued: nat

    constructor (layer: Layer)
      ensures State() == Store(layer, [], 0)
    {
      this.layer := layer;
      entries, issued := [], 0;
    }

    function State(): Store
      reads this
    {
      Store(layer, entries, issued)
    }

    method Upsert(draft: Draft) returns (entry: Entry)
      modifies this
      ensures State() == Upserted(old(State()), draft)
      ensures entry == ToEntry(old(State()), draft)
    {
      entry := ToEntry(State(), draft);
      if draft.id == None {
        issued := issued + 1;
      }
      entries := Put(entries, entry);
    }

    method Remove(id: string) returns (removed: bool)
      modifies this
      ensures State() == old(State()).(entries := Without(old(entries), [id]))
      ensures removed <==> id in Ids(old(entries))
    {
      removed := id in Ids(entries);
      entries := Without(entries, [id]);
    }

    /** The loop `for (const entry of removed) layer.remove(entry.id)`. */
    method RemoveAll(removed: seq<Entry>)
      modifies this
      ensures State() == old(State()).(entries := Without(old(entries), Ids(removed)))
    {
      FilterAll(entries, KeepsId([]));
      assert Ids(removed[..0]) == [];
      for i := 0 to |removed|
        invariant State() == old(State()).(entries := Without(old(entries), Ids(removed[..i])))
      {
        WithoutTwice(old(entries), Ids(removed[..i]), removed[i].id);
        assert Ids(removed[..i]) + [removed[i].id] == Ids(removed[..i + 1]);
        var _ := Remove(removed[i].id);
      }
      assert removed[..|removed|] == removed;
    }

    method ListByScope(sessionId: string) returns (hits: seq<Entry>)
      ensures hits == Listed(entries, sessionId)
    {
      hits := Listed(entries, sessionId);
    }
  }

  /** A write to layer 1 whose admission says "none" or "quarantine" lands in layer 0. */
  predicate RoutedToLayer0(draft: Draft) {
    && draft.metadata.admission.Some?
    && (|| draft.metadata.admission.value.retention == Some("none")
        || draft.metadata.admission.value.retention == Some("quarantine"))
  }

  function WriteLayer0(m: MemoryState, draft: Draft): MemoryState {
    m.(layer0 := Upserted(m.layer0, draft))
  }

  function WriteLayer1(m: MemoryState, draft: Draft): MemoryState {
    if RoutedToLayer0(draft) then WriteLayer0(m, draft) else m.(layer1 := Upserted(m.layer1, draft))
  }

  // ----- admission of writes that carry no admission record -----

  datatype AdmissionStatus = StoreIt | DropIt | QuarantineIt

  /** What the text classifier says about a content. */
  datatype Verdict = Verdict(
    status: AdmissionStatus,
    category: string,
    retention: string,
    reason: string,
    namespace: string,
    tags: seq<string>,
    redacted: string,
    safe: bool,
    findings: seq<string>)

  /** The heuristics on natural language, which are not modelled: the verdict on a content, the kind of a
      layer-0 input, and whether a layer-1 input comes from the user. */
  datatype Classifier = Classifier(judge: string -> Verdict, kind: Draft -> string, fromUser: Draft -> bool)

  function TagsOr(draft: Draft): seq<string> {
    if draft.tags.Some? then draft.tags.value else []
  }

  function WithAdmission(draft: Draft, tags: seq<string>, admission: Admission): Draft {
    draft.(tags := Some(Unique(TagsOr(draft) + tags)), metadata := draft.metadata.(admission := Some(admission)))
  }

  function Admit0(c: Classifier, draft: Draft): Draft {
    if draft.metadata.admission.Some? then draft
    else
      var kind := c.kind(draft);
      WithAdmission(
        draft, ["memory:" + kind], Admission(Some("working"), Some(kind), Some("direct-layer0:" + kind), None))
  }

  predicate UserAdmission(c: Classifier, draft: Draft) {
    var v := c.judge(draft.content);
    || !v.safe || c.fromUser(draft) || v.status.StoreIt?
    || v.reason == "low-value-chatter" || v.reason == "casual-self-report"
  }

  function Admit1(c: Classifier, draft: Draft): Draft {
    if draft.metadata.admission.Some? then draft
    else if !UserAdmission(c, draft) then
      WithAdmission(
        draft, ["memory:direct-layer1", "memory:system"],
        Admission(Some("user"), Some("system"), Some("direct-layer1:system"), Some(Safety(Some(true), Some([])))))
    else
      var v := c.judge(draft.content);
      var quarantined, discarded := v.retention == "quarantine", v.retention == "none";
      WithAdmission(
        draft.(
          content := if quarantined then v.redacted else draft.content,
          namespace := if quarantined || discarded then Some(v.namespace) else draft.namespace),
        v.tags + ["memory:direct-layer1", "memory:" + v.category]
        + (if v.status.DropIt? then ["memory:noise"] else [])
        + (if quarantined then ["memory:quarantine", "memory:safety"] else []),
        Admission(
          Some(v.retention), Some(v.category), Some("direct-layer1:" + v.reason),
          Some(Safety(Some(v.safe), Some(v.findings)))))
  }

  predicate Quarantined(e: Entry) {
    e.metadata.admission.Some?
    && (e.metadata.admission.value.retention == Some("none")
        || e.metadata.admission.value.retention == Some("quarantine"))
  }

  /** Every entry carries an admission, and nothing discarded or quarantined is in layer 1. */
  ghost predicate AdmittedMemory(m: MemoryState) {
    && (forall e :: e in m.layer0.entries ==> e.metadata.admission.Some?)
    && (forall e :: e in m.layer1.entries ==> e.metadata.admission.Some? && !Quarantined(e))
  }

  /** Whatever the classifier says, both writes keep layer 1 free of discarded and quarantined content. */
  lemma WritesAreAdmitted(c: Classifier, m: MemoryState, draft: Draft)
    requires AdmittedMemory(m)
    ensures AdmittedMemory(WriteLayer0(m, Admit0(c, draft)))
    ensures AdmittedMemory(WriteLayer1(m, Admit1(c, draft)))
  {
    hide Put, WithAdmission, NewId, Existing, TagsOr, UserAdmission;
    AdmittedDraft(c, draft);
    var e0 := ToEntry(m.layer0, Admit0(c, draft));
    var e1 := ToEntry(m.layer1, Admit1(c, draft));
    assert e0.metadata.admission == Admit0(c, draft).metadata.admission;
    assert e1.metadata.admission == Admit1(c, draft).metadata.admission;
  }

  lemma AdmittedDraft(c: Classifier, draft: Draft)
    ensures Admit0(c, draft).metadata.admission.Some? && Admit1(c, draft).metadata.admission.Some?
  {
  }

  class MemoryCore {
    const layer0: LayerStore
    const layer1: LayerStore
    const classifier: Classifier

    constructor (classifier: Classifier)
      ensures fresh(layer0) && fresh(layer1) && layer0 != layer1
      ensures this.classifier == classifier
      ensures State() == MemoryState(Store(Layer0, [], 0), Store(Layer1, [], 0))
    {
      layer0 := new LayerStore(Layer0);
      layer1 := new LayerStore(Layer1);
      this.classifier := classifier;
    }

    function State(): MemoryState
      reads layer0, layer1
    {
      MemoryState(layer0.State(), layer1.State())
    }

    method Write0(draft: Draft) returns (entry: Entry)
      requires layer0 != layer1
      modifies layer0
      ensures State() == WriteLayer0(old(State()), Admit0(classifier, draft))
      ensures entry == ToEntry(old(layer0.State()), Admit0(classifier, draft))
    {
      entry := layer0.Upsert(Admit0(classifier, draft));
    }

    method Write1(draft: Draft) returns (entry: Entry)
      requires layer0 != layer1
      modifies layer0, layer1
      ensures var admitted := Admit1(classifier, draft);
              && State() == WriteLayer1(old(State()), admitted)
              && entry == ToEntry(if RoutedToLayer0(admitted) then old(layer0.State()) else old(layer1.State()), admitted)
    {
      var admitted := Admit1(classifier, draft);
      if RoutedToLayer0(admitted) {
        entry := layer0.Upsert(admitted);
      } else {
        entry := layer1.Upsert(admitted);
      }
    }
  }
}
