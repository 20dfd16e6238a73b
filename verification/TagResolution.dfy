/** Resolving tag names and ids to tag ids, creating the tags that are missing, and what a second
    resolution of the returned ids gives. */
module TagResolution {
  import opened Options
  import opened Sequences
  import opened Text

  datatype Result<+T, +E> = Ok(value: T) | Err(error: E)

  datatype Tag = Tag(id: string, name: string)

  datatype TagError = EmptyName

  function Lookup(value: string): string {
    Lower(Trim(value))
  }

  /** The two lookup keys of a tag. */
  predicate Claims(t: Tag, key: string) {
    Lookup(t.id) == key || Lookup(t.name) == key
  }

  // ----- the store -----

  function OtherThan(id: string): Tag -> bool {
    (t: Tag) => t.id != id
  }

  function Put(tags: seq<Tag>, t: Tag): seq<Tag> {
    Filter(tags, OtherThan(t.id)) + [t]
  }

  function NewTag(slug: string -> string, name: string): Tag {
    Tag(slug(name), Trim(name))
  }

  class TagStore {
    const slug: string -> string
    var tags: seq<Tag>

    constructor (slug: string -> string, tags: seq<Tag>)
      ensures this.slug == slug && this.tags == tags
    {
      this.slug := slug;
      this.tags := tags;
    }

    method UpsertTag(name: string) returns (r: Result<Tag, TagError>)
      modifies this`tags
      ensures r == if Trim(name) == "" then Err(EmptyName) else Ok(NewTag(slug, name))
      ensures tags == if r.Ok? then Put(old(tags), r.value) else old(tags)
    {
      var id := slug(name);
      var displayName := Trim(name);
      if displayName == "" {
        return Err(EmptyName);
      }
      var next := Tag(id, displayName);
      tags := Put(tags, next);
      return Ok(next);
    }
  }

  // ----- the loop -----

  /** The tag a key leads to: the last one seen that claims it. */
  function Holder(seen: seq<Tag>, key: string): (r: Option<Tag>)
    ensures r.Some? ==> r.value in seen && Claims(r.value, key)
    ensures r.None? ==> forall t :: t in seen ==> !Claims(t, key)
  {
    if seen == [] then None
    else if Claims(seen[|seen| - 1], key) then Some(seen[|seen| - 1])
    else Holder(seen[..|seen| - 1], key)
  }

  /** `seen` is the snapshot followed by the tag each value was resolved to. */
  datatype State = State(tags: seq<Tag>, seen: seq<Tag>, created: seq<string>, failed: bool)

  function Start(tags: seq<Tag>, snapshot: seq<Tag>): State {
    State(tags, snapshot, [], false)
  }

  function Step(slug: string -> string, s: State, value: string): State {
    var held := Holder(s.seen, Lookup(value));
    if held.Some? then s.(seen := s.seen + [held.value])
    else if Trim(value) == "" then s.(failed := true)
    else
      var t := NewTag(slug, value);
      s.(tags := Put(s.tags, t), seen := s.seen + [t], created := s.created + [value])
  }

  function Run(slug: string -> string, s: State, values: seq<string>): State {
    if values == [] then s
    else
      var r := Run(slug, s, values[..|values| - 1]);
      if r.failed then r else Step(slug, r, values[|values| - 1])
  }

  function Ids(tags: seq<Tag>): seq<string> {
    Map(tags, (t: Tag) => t.id)
  }

  /** The ids of the tags the values were resolved to, value by value. */
  function Trace(o: State, snapshot: seq<Tag>): seq<string>
    requires |snapshot| <= |o.seen|
  {
    Ids(o.seen[|snapshot|..])
  }

  /** What is returned: each id once, where it first occurs. */
  function Outcome(o: State, snapshot: seq<Tag>): seq<string>
    requires |snapshot| <= |o.seen|
  {
    Unique(Trace(o, snapshot))
  }

  /** The map holds, for every key, the last seen tag that claims it. */
  ghost predicate Indexes(known: map<string, Tag>, seen: seq<Tag>) {
    forall key :: (key in known <==> Holder(seen, key).Some?)
                  && (key in known ==> Holder(seen, key) == Some(known[key]))
  }

  function Learn(known: map<string, Tag>, t: Tag): map<string, Tag> {
    known[Lookup(t.id) := t][Lookup(t.name) := t]
  }

  lemma LearnIndexes(known: map<string, Tag>, seen: seq<Tag>, t: Tag)
    requires Indexes(known, seen)
    ensures Indexes(Learn(known, t), seen + [t])
  {
    hide Lookup;
    assert (seen + [t])[..|seen|] == seen;
  }

  lemma {:induction false} RunStepwise(slug: string -> string, s: State, values: seq<string>, k: nat)
    requires k <= |values|
    ensures Run(slug, s, values[..k]).failed ==> Run(slug, s, values) == Run(slug, s, values[..k])
    ensures |s.seen| <= |Run(slug, s, values).seen|
    decreases |values|
  {
    hide Step;
    if k < |values| {
      assert values[..|values| - 1][..k] == values[..k];
      RunStepwise(slug, s, values[..|values| - 1], k);
      StepGrows(slug, Run(slug, s, values[..|values| - 1]), values[|values| - 1]);
    } else {
      assert values[..k] == values;
      if k > 0 {
        RunStepwise(slug, s, values[..k - 1], k - 1);
        StepGrows(slug, Run(slug, s, values[..k - 1]), values[k - 1]);
      }
    }
  }

  lemma StepGrows(slug: string -> string, s: State, value: string)
    ensures |s.seen| <= |Step(slug, s, value).seen|
  {
  }

  lemma RunNext(slug: string -> string, s: State, values: seq<string>, k: nat)
    requires k < |values| && !Run(slug, s, values[..k]).failed
    ensures Run(slug, s, values[..k + 1]) == Step(slug, Run(slug, s, values[..k]), values[k])
  {
    assert values[..k + 1][..k] == values[..k];
  }

  method IndexTags(snapshot: seq<Tag>) returns (known: map<string, Tag>)
    ensures Indexes(known, snapshot)
  {
    known := map[];
    for i := 0 to |snapshot|
      invariant Indexes(known, snapshot[..i])
    {
      hide Indexes, Learn;
      LearnIndexes(known, snapshot[..i], snapshot[i]);
      assert snapshot[..i] + [snapshot[i]] == snapshot[..i + 1];
      known := Learn(known, snapshot[i]);
    }
    assert snapshot[..|snapshot|] == snapshot;
  }

  /** `known.get(key) ?? upsertTag(value)`. */
  method FindOrCreate(store: TagStore, known: map<string, Tag>, value: string, ghost s: State)
    returns (r: Result<Tag, TagError>)
    requires Indexes(known, s.seen) && store.tags == s.tags && !s.failed
    modifies store`tags
    ensures var next := Step(store.slug, s, value);
            && store.tags == next.tags
            && (next.failed <==> r == Err(EmptyName))
            && (!next.failed ==> r.Ok? && next.seen == s.seen + [r.value])
  {
    hide Lookup, Trim, Put, Indexes;
    KnownIsHeld(known, s.seen, Lookup(value));
    if Lookup(value) in known {
      return Ok(known[Lookup(value)]);
    }
    r := store.UpsertTag(value);
  }

  method ResolveOrCreateTagIds(store: TagStore, snapshot: seq<Tag>, values: seq<string>)
    returns (r: Result<seq<string>, TagError>)
    modifies store`tags
    ensures var o := Run(store.slug, Start(old(store.tags), snapshot), values);
            && |snapshot| <= |o.seen|
            && store.tags == o.tags
            && r == if o.failed then Err(EmptyName) else Ok(Outcome(o, snapshot))
  {
    var result: seq<string> := [];
    var known := IndexTags(snapshot);
    ghost var start := Start(store.tags, snapshot);
    assert start == State(store.tags, snapshot, [], false);
    ghost var o := start;
    hide *;
    NothingResolved(store.slug, start, values);
    for i := 0 to |values|
      invariant o == Run(store.slug, start, values[..i]) && !o.failed
      invariant store.tags == o.tags && Indexes(known, o.seen)
      invariant |snapshot| <= |o.seen| && result == Outcome(o, snapshot)
    {
      RunNext(store.slug, start, values, i);
      RunStepwise(store.slug, start, values, i + 1);
      ghost var before := o;
      o := Step(store.slug, o, values[i]);
      StepGrows(store.slug, before, values[i]);
      var found := FindOrCreate(store, known, values[i], before);
      if found.Err? {
        return Err(found.error);
      }
      var tag := found.value;
      LearnIndexes(known, before.seen, tag);
      known := Learn(known, tag);
      TraceNext(before, o, snapshot, tag);
      if tag.id !in result {
        result := result + [tag.id];
      }
    }
    assert values[..|values|] == values;
    return Ok(result);
  }

  lemma NothingResolved(slug: string -> string, start: State, values: seq<string>)
    ensures Run(slug, start, values[..0]) == start
    ensures Outcome(start, start.seen) == []
  {
  }

  lemma KnownIsHeld(known: map<string, Tag>, seen: seq<Tag>, key: string)
    requires Indexes(known, seen)
    ensures key in known <==> Holder(seen, key).Some?
    ensures key in known ==> Holder(seen, key) == Some(known[key])
  {
  }

  lemma TraceNext(before: State, after: State, snapshot: seq<Tag>, t: Tag)
    requires |snapshot| <= |before.seen| && after.seen == before.seen + [t]
    ensures Trace(after, snapshot) == Trace(before, snapshot) + [t.id]
    ensures Outcome(after, snapshot)
            == Outcome(before, snapshot) + if t.id in Outcome(before, snapshot) then [] else [t.id]
  {
    hide Unique;
    assert after.seen[|snapshot|..] == before.seen[|snapshot|..] + [t];
    UniqueLast(Trace(before, snapshot), t.id);
  }

  // ----- what one resolution gives -----

  ghost predicate HasId(tags: seq<Tag>, id: string) {
    exists t :: t in tags && t.id == id
  }

  ghost predicate DistinctIds(tags: seq<Tag>) {
    forall i, j :: 0 <= i < j < |tags| ==> tags[i].id != tags[j].id
  }

  /** A snapshot lists the tags of the store, in whatever order. */
  ghost predicate Lists(snapshot: seq<Tag>, tags: seq<Tag>) {
    DistinctIds(snapshot) && DistinctIds(tags) && forall t :: t in snapshot <==> t in tags
  }

  /** Every tag seen has its id in the store. */
  ghost predicate Stored(s: State) {
    DistinctIds(s.tags) && forall t :: t in s.seen ==> HasId(s.tags, t.id)
  }

  lemma PutKeepsIds(tags: seq<Tag>, t: Tag)
    requires DistinctIds(tags)
    ensures DistinctIds(Put(tags, t))
    ensures forall id :: HasId(Put(tags, t), id) <==> HasId(tags, id) || id == t.id
  {
    var rest := Filter(tags, OtherThan(t.id));
    FilterKeepsDistinctIds(tags, OtherThan(t.id));
    assert forall i :: 0 <= i < |rest| ==> rest[i] in rest;
    forall id ensures HasId(Put(tags, t), id) <==> HasId(tags, id) || id == t.id {
      if u :| u in tags && u.id == id {
        assert id == t.id || u in rest;
      }
      assert t in Put(tags, t);
      assert forall u :: u in rest ==> u in Put(tags, t);
    }
  }

  lemma {:induction false} FilterKeepsDistinctIds(tags: seq<Tag>, keep: Tag -> bool)
    requires DistinctIds(tags)
    ensures DistinctIds(Filter(tags, keep))
  {
    if tags != [] {
      var front, last := tags[..|tags| - 1], tags[|tags| - 1];
      FilterKeepsDistinctIds(front, keep);
      var rest := Filter(front, keep);
      forall i | 0 <= i < |rest| ensures rest[i].id != last.id {
        assert rest[i] in rest;
      }
    }
  }

  lemma StepStored(slug: string -> string, s: State, value: string)
    requires Stored(s)
    ensures Stored(Step(slug, s, value))
    ensures forall id :: HasId(s.tags, id) ==> HasId(Step(slug, s, value).tags, id)
  {
    hide HasId, DistinctIds, Put, Lookup, Trim, Claims;
    var held := Holder(s.seen, Lookup(value));
    if held.None? && Trim(value) != "" {
      PutKeepsIds(s.tags, NewTag(slug, value));
    }
  }

  lemma {:induction false} RunStored(slug: string -> string, s: State, values: seq<string>)
    requires Stored(s)
    ensures Stored(Run(slug, s, values))
    ensures forall id :: HasId(s.tags, id) ==> HasId(Run(slug, s, values).tags, id)
  {
    hide Step, Stored, HasId;
    if values != [] {
      var r := Run(slug, s, values[..|values| - 1]);
      RunStored(slug, s, values[..|values| - 1]);
      if !r.failed {
        StepStored(slug, r, values[|values| - 1]);
      }
    }
  }

  lemma LookupOfTrim(value: string)
    ensures Lookup(Trim(value)) == Lookup(value)
  {
    TrimIsTrimmed(value);
    TrimOfTrimmed(Trim(value));
  }

  lemma ListingIsStored(snapshot: seq<Tag>, tags: seq<Tag>)
    requires Lists(snapshot, tags)
    ensures Stored(Start(tags, snapshot))
  {
  }

  /** The tag seen for each value. */
  ghost predicate Answers(o: State, snapshot: seq<Tag>, values: seq<string>) {
    && |o.seen| == |snapshot| + |values|
    && o.seen[..|snapshot|] == snapshot
    && forall k :: 0 <= k < |values| ==> Claims(o.seen[|snapshot| + k], Lookup(values[k]))
  }

  lemma StepAnswers(slug: string -> string, s: State, snapshot: seq<Tag>, values: seq<string>, value: string)
    requires Answers(s, snapshot, values) && !Step(slug, s, value).failed
    ensures Answers(Step(slug, s, value), snapshot, values + [value])
  {
    hide Lookup, Trim, Put;
    LookupOfTrim(value);
    assert Holder(s.seen, Lookup(value)).None? ==> Claims(NewTag(slug, value), Lookup(value));
  }

  lemma {:induction false} RunAnswers(slug: string -> string, tags: seq<Tag>, snapshot: seq<Tag>, values: seq<string>)
    ensures var o := Run(slug, Start(tags, snapshot), values);
            !o.failed ==> Answers(o, snapshot, values)
  {
    hide Step, Answers;
    if values == [] {
      AnswersNothing(tags, snapshot);
    } else {
      var front, last := values[..|values| - 1], values[|values| - 1];
      RunAnswers(slug, tags, snapshot, front);
      var r := Run(slug, Start(tags, snapshot), front);
      if !r.failed && !Step(slug, r, last).failed {
        StepAnswers(slug, r, snapshot, front, last);
        assert values == front + [last];
      }
    }
  }

  lemma AnswersNothing(tags: seq<Tag>, snapshot: seq<Tag>)
    ensures Answers(Start(tags, snapshot), snapshot, [])
  {
  }

  /** Every value is covered: its tag is one whose id or name matches it, and the id of that tag is in
      the store and, once, in the result. */
  lemma EveryValueCovered(slug: string -> string, tags: seq<Tag>, snapshot: seq<Tag>, values: seq<string>, k: nat)
    requires Lists(snapshot, tags) && k < |values|
    ensures var o := Run(slug, Start(tags, snapshot), values);
            !o.failed ==>
              && |o.seen| == |snapshot| + |values|
              && (var t := o.seen[|snapshot| + k];
                  Claims(t, Lookup(values[k])) && HasId(o.tags, t.id) && t.id in Outcome(o, snapshot))
    ensures var o := Run(slug, Start(tags, snapshot), values);
            !o.failed ==> |snapshot| <= |o.seen| && Distinct(Outcome(o, snapshot))
  {
    hide Run, Step, Lookup;
    var o := Run(slug, Start(tags, snapshot), values);
    ListingIsStored(snapshot, tags);
    RunStored(slug, Start(tags, snapshot), values);
    RunAnswers(slug, tags, snapshot, values);
    if !o.failed {
      var t := o.seen[|snapshot| + k];
      assert t in o.seen;
      assert Trace(o, snapshot)[k] == t.id;
    }
  }

  /** No name is created twice, nor one the snapshot already has. */
  ghost predicate CreatedOnce(slug: string -> string, s: State, snapshot: seq<Tag>) {
    && (forall i, j :: 0 <= i < j < |s.created| ==> Lookup(s.created[i]) != Lookup(s.created[j]))
    && (forall v :: v in s.created ==> Holder(snapshot, Lookup(v)).None? && NewTag(slug, v) in s.seen)
    && (forall t :: t in snapshot ==> t in s.seen)
  }

  lemma StepCreatesOnce(slug: string -> string, s: State, snapshot: seq<Tag>, value: string)
    requires CreatedOnce(slug, s, snapshot)
    ensures CreatedOnce(slug, Step(slug, s, value), snapshot)
  {
    hide Lookup, Trim, Put;
    if Holder(s.seen, Lookup(value)).None? && Trim(value) != "" {
      forall v | v in s.created ensures Lookup(v) != Lookup(value) {
        LookupOfTrim(v);
        assert Claims(NewTag(slug, v), Lookup(v));
      }
      assert Holder(snapshot, Lookup(value)).None?;
    }
  }

  /** Each missing name is created at most once, and only when the snapshot has no tag for it. */
  lemma {:induction false} NamesCreatedOnce(
    slug: string -> string, tags: seq<Tag>, snapshot: seq<Tag>, values: seq<string>)
    ensures CreatedOnce(slug, Run(slug, Start(tags, snapshot), values), snapshot)
  {
    if values != [] {
      hide Step, CreatedOnce;
      var front := values[..|values| - 1];
      NamesCreatedOnce(slug, tags, snapshot, front);
      StepCreatesOnce(slug, Run(slug, Start(tags, snapshot), front), snapshot, values[|values| - 1]);
    }
  }

  lemma BlankLookup(value: string)
    ensures Lookup(value) == "" <==> Trim(value) == ""
  {
  }

  lemma StepFails(slug: string -> string, s: State, value: string)
    requires forall v :: Lookup(slug(v)) != ""
    requires !s.failed
    ensures var next := Step(slug, s, value);
            && (next.failed <==> Trim(value) == "" && Holder(s.seen, "").None?)
            && (!next.failed ==> (Holder(next.seen, "").Some? <==> Holder(s.seen, "").Some?))
  {
    hide Lookup, Trim, Put;
    BlankLookup(value);
    LookupOfTrim(value);
    var held := Holder(s.seen, Lookup(value));
    if held.Some? {
      assert (s.seen + [held.value])[..|s.seen|] == s.seen;
    } else if Trim(value) != "" {
      assert (s.seen + [NewTag(slug, value)])[..|s.seen|] == s.seen;
    }
  }

  /** The call fails exactly when a value is blank and no tag of the snapshot is. */
  lemma {:induction false} FailsIff(slug: string -> string, tags: seq<Tag>, snapshot: seq<Tag>, values: seq<string>)
    requires forall v :: Lookup(slug(v)) != ""
    ensures var o := Run(slug, Start(tags, snapshot), values);
            && (o.failed <==> Holder(snapshot, "").None? && exists v :: v in values && Trim(v) == "")
            && (!o.failed ==> (Holder(o.seen, "").Some? <==> Holder(snapshot, "").Some?))
  {
    if values != [] {
      hide Step, Lookup, Trim, Holder;
      var front, last := values[..|values| - 1], values[|values| - 1];
      assert values == front + [last];
      FailsIff(slug, tags, snapshot, front);
      var r := Run(slug, Start(tags, snapshot), front);
      if !r.failed {
        StepFails(slug, r, last);
      }
    }
  }

  lemma StepKeeps(slug: string -> string, s: State, value: string, t: Tag)
    requires t in s.seen
    ensures var next := Step(slug, s, value);
            && t in next.seen
            && (t in next.tags <==> t in s.tags && (next.created != s.created ==> slug(value) != t.id))
            && (next.created == s.created || next.created == s.created + [value])
  {
    hide Lookup, Trim;
    LookupOfTrim(value);
    assert Claims(t, Lookup(t.name));
  }

  lemma {:induction false} KeptUnlessCreated(
    slug: string -> string, tags: seq<Tag>, snapshot: seq<Tag>, values: seq<string>, t: Tag)
    requires t in tags && t in snapshot
    ensures var o := Run(slug, Start(tags, snapshot), values);
            && t in o.seen
            && (t in o.tags <==> forall v :: v in o.created ==> slug(v) != t.id)
  {
    if values != [] {
      hide Step;
      var front, last := values[..|values| - 1], values[|values| - 1];
      KeptUnlessCreated(slug, tags, snapshot, front, t);
      var r := Run(slug, Start(tags, snapshot), front);
      if !r.failed {
        StepKeeps(slug, r, last, t);
      }
    }
  }

  // ----- which names a call creates, told before the call -----

  /** Whether a key is claimed by the snapshot or by the tag of one of the names. */
  ghost predicate Known(slug: string -> string, snapshot: seq<Tag>, names: seq<string>, key: string) {
    Holder(snapshot, key).Some? || exists u :: u in names && Claims(NewTag(slug, u), key)
  }

  datatype Plan = Plan(names: seq<string>, stopped: bool)

  /** The names a call will create, in order, from the snapshot and the values alone: each value that is
      not known yet, up to the first blank one among those. */
  ghost function Planned(slug: string -> string, snapshot: seq<Tag>, values: seq<string>): Plan {
    if values == [] then Plan([], false)
    else
      var p, v := Planned(slug, snapshot, values[..|values| - 1]), values[|values| - 1];
      if p.stopped || Known(slug, snapshot, p.names, Lookup(v)) then p
      else if Trim(v) == "" then p.(stopped := true)
      else p.(names := p.names + [v])
  }

  /** What was seen is the snapshot and the created tags. */
  ghost predicate SeenIsKnown(slug: string -> string, snapshot: seq<Tag>, s: State) {
    && (forall t :: t in snapshot ==> t in s.seen)
    && (forall u :: u in s.created ==> NewTag(slug, u) in s.seen)
    && (forall t :: t in s.seen ==> t in snapshot || exists u :: u in s.created && t == NewTag(slug, u))
  }

  lemma StepSeenIsKnown(slug: string -> string, snapshot: seq<Tag>, s: State, value: string)
    requires SeenIsKnown(slug, snapshot, s)
    ensures SeenIsKnown(slug, snapshot, Step(slug, s, value))
  {
    hide Lookup, Trim, Put, NewTag, Claims;
    var held := Holder(s.seen, Lookup(value));
    if held.None? && Trim(value) != "" {
      var next := Step(slug, s, value);
      forall t | t in next.seen ensures t in snapshot || exists u :: u in next.created && t == NewTag(slug, u) {
        if t !in s.seen {
          assert value in next.created && t == NewTag(slug, value);
        } else if t !in snapshot {
          var u :| u in s.created && t == NewTag(slug, u);
          assert u in next.created;
        }
      }
    }
  }

  lemma HeldIffKnown(slug: string -> string, snapshot: seq<Tag>, s: State, key: string)
    requires SeenIsKnown(slug, snapshot, s)
    ensures Holder(s.seen, key).Some? <==> Known(slug, snapshot, s.created, key)
  {
    hide Lookup, NewTag, Claims;
    if Holder(s.seen, key).Some? && Holder(snapshot, key).None? {
      var t := Holder(s.seen, key).value;
      var u :| u in s.created && t == NewTag(slug, u);
    }
  }

  /** The loop creates exactly the planned names and fails exactly when the plan stops. */
  lemma {:induction false} CreatedAsPlanned(
    slug: string -> string, tags: seq<Tag>, snapshot: seq<Tag>, values: seq<string>)
    ensures var o, p := Run(slug, Start(tags, snapshot), values), Planned(slug, snapshot, values);
            o.created == p.names && o.failed == p.stopped && SeenIsKnown(slug, snapshot, o)
  {
    if values != [] {
      hide SeenIsKnown, Known, Holder, Lookup, Trim, Put;
      var front, last := values[..|values| - 1], values[|values| - 1];
      CreatedAsPlanned(slug, tags, snapshot, front);
      var r := Run(slug, Start(tags, snapshot), front);
      if !r.failed {
        StepSeenIsKnown(slug, snapshot, r, last);
        HeldIffKnown(slug, snapshot, r, Lookup(last));
      }
    }
  }

  /** A tag of the store survives exactly when no planned name has its id as slug; otherwise the new name
      replaces it under the same id. */
  lemma TagKeptIff(slug: string -> string, tags: seq<Tag>, snapshot: seq<Tag>, values: seq<string>, t: Tag)
    requires t in tags && t in snapshot
    ensures t in Run(slug, Start(tags, snapshot), values).tags
            <==> forall v :: v in Planned(slug, snapshot, values).names ==> slug(v) != t.id
  {
    KeptUnlessCreated(slug, tags, snapshot, values, t);
    CreatedAsPlanned(slug, tags, snapshot, values);
  }

  /** A value the snapshot has no tag for. */
  predicate Missing(snapshot: seq<Tag>, value: string) {
    Holder(snapshot, Lookup(value)).None?
  }

  /** One of the names is created with a tag that matches the value. */
  ghost predicate Covered(slug: string -> string, names: seq<string>, value: string) {
    exists u :: u in names && Claims(NewTag(slug, u), Lookup(value))
  }

  lemma CoveredByMore(slug: string -> string, names: seq<string>, name: string, value: string)
    requires Covered(slug, names, value) || Claims(NewTag(slug, name), Lookup(value))
    ensures Covered(slug, names + [name], value)
  {
    hide Lookup, Claims, NewTag;
    if Covered(slug, names, value) {
      var u :| u in names && Claims(NewTag(slug, u), Lookup(value));
      assert u in names + [name];
    } else {
      assert name in names + [name];
    }
  }

  /** Every missing name ends up with a created tag that matches it, and only missing names are created. */
  lemma {:induction false} MissingNamesCreated(slug: string -> string, snapshot: seq<Tag>, values: seq<string>)
    ensures var p := Planned(slug, snapshot, values);
            && (forall v :: v in p.names ==> v in values && Missing(snapshot, v) && Trim(v) != "")
            && (!p.stopped ==> forall v :: v in values && Missing(snapshot, v) ==> Covered(slug, p.names, v))
  {
    if values != [] {
      var front, last := values[..|values| - 1], values[|values| - 1];
      var before := Planned(slug, snapshot, front);
      assert Planned(slug, snapshot, values)
          == if before.stopped || Known(slug, snapshot, before.names, Lookup(last)) then before
             else if Trim(last) == "" then before.(stopped := true)
             else before.(names := before.names + [last]);
      assert Missing(snapshot, last) || Known(slug, snapshot, before.names, Lookup(last));
      hide *;
      assert values == front + [last];
      MissingNamesCreated(slug, snapshot, front);
      OwnKey(slug, last);
      if Missing(snapshot, last) {
        KnownMissing(slug, snapshot, before.names, last);
      }
      forall v | Covered(slug, before.names, v) || v == last ensures Covered(slug, before.names + [last], v) {
        CoveredByMore(slug, before.names, last, v);
      }
    }
  }

  lemma KnownMissing(slug: string -> string, snapshot: seq<Tag>, names: seq<string>, value: string)
    requires Missing(snapshot, value)
    ensures Known(slug, snapshot, names, Lookup(value)) <==> Covered(slug, names, value)
  {
    hide Lookup, Claims, NewTag, Holder;
  }

  lemma OwnKey(slug: string -> string, value: string)
    ensures Claims(NewTag(slug, value), Lookup(value))
  {
    LookupOfTrim(value);
  }

  /** Values that resolve to one new tag have one slug. */
  ghost predicate SlugsAgree(slug: string -> string, values: seq<string>) {
    forall u, v :: u in values && v in values && Claims(NewTag(slug, u), Lookup(v)) ==> slug(u) == slug(v)
  }

  lemma CoverOf(slug: string -> string, names: seq<string>, values: seq<string>, v: string) returns (u: string)
    requires SlugsAgree(slug, values) && (forall n :: n in names ==> n in values)
    requires v in values && Covered(slug, names, v)
    ensures u in names && slug(u) == slug(v)
  {
    hide Lookup, Claims, NewTag;
    u :| u in names && Claims(NewTag(slug, u), Lookup(v));
  }

  /** Where slugs agree the condition needs no plan: a tag is renamed exactly when some missing value has
      its id as slug. */
  lemma TagRenamedIff(slug: string -> string, tags: seq<Tag>, snapshot: seq<Tag>, values: seq<string>, t: Tag)
    requires t in tags && t in snapshot && SlugsAgree(slug, values)
    requires !Run(slug, Start(tags, snapshot), values).failed
    ensures t !in Run(slug, Start(tags, snapshot), values).tags
            <==> exists v :: v in values && Missing(snapshot, v) && slug(v) == t.id
  {
    hide *;
    TagKeptIff(slug, tags, snapshot, values, t);
    CreatedAsPlanned(slug, tags, snapshot, values);
    MissingNamesCreated(slug, snapshot, values);
    var names := Planned(slug, snapshot, values).names;
    if v :| v in values && Missing(snapshot, v) && slug(v) == t.id {
      var u := CoverOf(slug, names, values, v);
      assert exists n :: n in names && slug(n) == t.id;
    } else {
      assert forall n :: n in names ==> slug(n) != t.id;
    }
  }

  /** The default tag "shot-size" loses its name to the value "shot size", whose slug is the same. */
  lemma DefaultTagRenamed(slug: string -> string)
    requires slug("shot size") == "shot-size"
    ensures var t := Tag("shot-size", "\U{666F}\U{522B}");
            var o := Run(slug, Start([t], [t]), ["shot size"]);
            !o.failed && o.tags == [Tag("shot-size", "shot size")] && t !in o.tags
  {
    var t, value := Tag("shot-size", "\U{666F}\U{522B}"), "shot size";
    assert Trim(value) == value && Trim(t.id) == t.id && Trim(t.name) == t.name;
    assert Lookup(value)[4] == ' ' && Lookup(t.id)[4] == '-' && |Lookup(t.name)| == 2;
    hide Lookup, Trim;
    assert [t][..0] == [] && [value][..0] == [];
    assert Holder([t], Lookup(value)).None?;
    assert Filter([t], OtherThan(t.id)) == [];
    assert t.name != value by { assert |t.name| == 2; }
  }

  // ----- resolving the result again -----

  function PosOf(tags: seq<Tag>, id: string): (r: int)
    ensures -1 <= r < |tags|
    ensures r >= 0 ==> tags[r].id == id
    ensures forall j :: r < j < |tags| ==> tags[j].id != id
  {
    if tags == [] then -1
    else if tags[|tags| - 1].id == id then |tags| - 1
    else PosOf(tags[..|tags| - 1], id)
  }

  /** The k-th id leads back to its own tag: no tag after that one in the snapshot claims its key, nor
      does the tag of an id before it in the list. */
  ghost predicate ClearAt(snapshot: seq<Tag>, ids: seq<string>, k: nat)
    requires k < |ids|
  {
    && (forall j :: PosOf(snapshot, ids[k]) < j < |snapshot| ==> !Claims(snapshot[j], Lookup(ids[k])))
    && (forall t :: t in snapshot && t.id in ids[..k] ==> !Claims(t, Lookup(ids[k])))
  }

  ghost predicate Clear(snapshot: seq<Tag>, ids: seq<string>) {
    forall k: nat :: k < |ids| ==> ClearAt(snapshot, ids, k)
  }

  lemma {:induction false} HolderIsLast(tags: seq<Tag>, key: string) returns (j: int)
    ensures -1 <= j < |tags| && (j >= 0 <==> Holder(tags, key).Some?)
    ensures j >= 0 ==> Holder(tags, key) == Some(tags[j])
    ensures forall i :: j < i < |tags| ==> !Claims(tags[i], key)
  {
    hide Lookup;
    if tags == [] || Claims(tags[|tags| - 1], key) {
      j := |tags| - 1;
    } else {
      j := HolderIsLast(tags[..|tags| - 1], key);
    }
  }

  lemma {:induction false} HolderConcat(a: seq<Tag>, b: seq<Tag>, key: string)
    ensures Holder(a + b, key) == if Holder(b, key).Some? then Holder(b, key) else Holder(a, key)
    decreases |b|
  {
    hide Lookup;
    if b == [] {
      assert a + b == a;
    } else {
      assert (a + b)[..|a + b| - 1] == a + b[..|b| - 1];
      HolderConcat(a, b[..|b| - 1], key);
    }
  }

  /** With the first k ids resolved to their own tags, the k-th is as well exactly when it is clear. */
  lemma NextIdHeld(snapshot: seq<Tag>, us: seq<Tag>, ids: seq<string>, k: nat)
    requires DistinctIds(snapshot) && Distinct(ids) && k < |ids| && HasId(snapshot, ids[k])
    requires Ids(us) == ids[..k] && forall u :: u in us ==> u in snapshot
    ensures var held := Holder(snapshot + us, Lookup(ids[k]));
            held.Some? && (held.value.id == ids[k] <==> ClearAt(snapshot, ids, k))
  {
    hide Lookup;
    var key, p := Lookup(ids[k]), PosOf(snapshot, ids[k]);
    HolderConcat(snapshot, us, key);
    assert Claims(snapshot[p], key);
    if Holder(us, key).Some? {
      var u := Holder(us, key).value;
      var m :| 0 <= m < |us| && us[m] == u;
      assert u.id == Ids(us)[m] == ids[m];
      assert u.id in ids[..k];
    } else {
      forall t | t in snapshot && t.id in ids[..k] ensures !Claims(t, key) {
        var m :| 0 <= m < k && ids[m] == t.id;
        assert us[m].id == Ids(us)[m] == t.id;
        SameIdSameTag(snapshot, us[m], t);
      }
      var j := HolderIsLast(snapshot, key);
      assert j >= p;
    }
  }

  lemma SameIdSameTag(tags: seq<Tag>, t: Tag, u: Tag)
    requires DistinctIds(tags) && t in tags && u in tags && t.id == u.id
    ensures t == u
  {
  }

  /** Nothing was created, and each value got the tag that held its key at that point. */
  ghost predicate OnlyLookedUp(o: State, tags: seq<Tag>, snapshot: seq<Tag>, values: seq<string>) {
    && !o.failed && o.created == [] && o.tags == tags
    && |o.seen| == |snapshot| + |values| && o.seen[..|snapshot|] == snapshot
    && (forall t :: t in o.seen ==> t in snapshot)
    && (forall k :: 0 <= k < |values| ==>
          Holder(o.seen[..|snapshot| + k], Lookup(values[k])) == Some(o.seen[|snapshot| + k]))
  }

  lemma StepLooksUp(slug: string -> string, s: State, tags: seq<Tag>, snapshot: seq<Tag>, values: seq<string>, v: string)
    requires OnlyLookedUp(s, tags, snapshot, values) && Holder(snapshot, Lookup(v)).Some?
    ensures OnlyLookedUp(Step(slug, s, v), tags, snapshot, values + [v])
  {
    hide Lookup;
    assert s.seen == snapshot + s.seen[|snapshot|..];
    HolderConcat(snapshot, s.seen[|snapshot|..], Lookup(v));
    hide Holder, Claims;
    var next := Step(slug, s, v);
    forall k | 0 <= k <= |values|
      ensures Holder(next.seen[..|snapshot| + k], Lookup((values + [v])[k])) == Some(next.seen[|snapshot| + k])
    {
      assert next.seen[..|snapshot| + k] == s.seen[..|snapshot| + k];
      assert k == |values| ==> s.seen[..|snapshot| + k] == s.seen;
    }
  }

  lemma {:induction false} RunOnHeld(slug: string -> string, tags: seq<Tag>, snapshot: seq<Tag>, values: seq<string>)
    requires forall v :: v in values ==> Holder(snapshot, Lookup(v)).Some?
    ensures OnlyLookedUp(Run(slug, Start(tags, snapshot), values), tags, snapshot, values)
  {
    if values != [] {
      var front, last := values[..|values| - 1], values[|values| - 1];
      RunOnHeld(slug, tags, snapshot, front);
      var r := Run(slug, Start(tags, snapshot), front);
      assert !r.failed && last in values;
      hide OnlyLookedUp, Step, Lookup, Holder;
      StepLooksUp(slug, r, tags, snapshot, front, last);
      assert values == front + [last];
    }
  }

  lemma {:induction false} UniqueFull(s: seq<string>)
    requires |Unique(s)| == |s|
    ensures Unique(s) == s
  {
    if s != [] {
      UniqueFull(s[..|s| - 1]);
    }
  }

  lemma IdIsHeld(snapshot: seq<Tag>, id: string)
    requires HasId(snapshot, id)
    ensures Holder(snapshot, Lookup(id)).Some?
  {
    hide Lookup;
    var t :| t in snapshot && t.id == id;
    assert Claims(t, Lookup(id));
  }

  lemma TraceAt(o: State, snapshot: seq<Tag>, k: nat)
    requires |snapshot| + k < |o.seen|
    ensures Trace(o, snapshot)[k] == o.seen[|snapshot| + k].id
    ensures Ids(o.seen[|snapshot|..|snapshot| + k]) == Trace(o, snapshot)[..k]
  {
    assert o.seen[|snapshot|..][..k] == o.seen[|snapshot|..|snapshot| + k];
  }

  lemma LookedUpAt(o: State, tags: seq<Tag>, snapshot: seq<Tag>, ids: seq<string>, k: nat)
    requires OnlyLookedUp(o, tags, snapshot, ids) && k < |ids|
    ensures var us := o.seen[|snapshot|..|snapshot| + k];
            && (forall u :: u in us ==> u in snapshot)
            && Holder(snapshot + us, Lookup(ids[k])) == Some(o.seen[|snapshot| + k])
  {
    hide Lookup, Holder;
    var us := o.seen[|snapshot|..|snapshot| + k];
    assert o.seen[..|snapshot| + k] == snapshot + us;
    assert forall u :: u in us ==> u in o.seen;
  }

  lemma TraceStep(o: State, tags: seq<Tag>, snapshot: seq<Tag>, ids: seq<string>, k: nat)
    requires OnlyLookedUp(o, tags, snapshot, ids)
    requires DistinctIds(snapshot) && Distinct(ids) && k < |ids| && HasId(snapshot, ids[k])
    requires Trace(o, snapshot)[..k] == ids[..k]
    ensures Trace(o, snapshot)[k] == ids[k] <==> ClearAt(snapshot, ids, k)
  {
    var us := o.seen[|snapshot|..|snapshot| + k];
    TraceAt(o, snapshot, k);
    LookedUpAt(o, tags, snapshot, ids, k);
    hide *;
    NextIdHeld(snapshot, us, ids, k);
  }

  lemma {:induction false} TraceBySteps(trace: seq<string>, ids: seq<string>, k: nat)
    requires |trace| == |ids| && k <= |ids|
    requires forall i: nat :: i < |ids| && trace[..i] == ids[..i] ==> trace[i] == ids[i]
    ensures trace[..k] == ids[..k]
  {
    if k > 0 {
      TraceBySteps(trace, ids, k - 1);
      assert trace[..k] == trace[..k - 1] + [trace[k - 1]];
    }
  }

  lemma TraceIff(o: State, tags: seq<Tag>, snapshot: seq<Tag>, ids: seq<string>)
    requires OnlyLookedUp(o, tags, snapshot, ids)
    requires DistinctIds(snapshot) && Distinct(ids) && forall id :: id in ids ==> HasId(snapshot, id)
    ensures Trace(o, snapshot) == ids <==> Clear(snapshot, ids)
  {
    var trace := Trace(o, snapshot);
    hide OnlyLookedUp, Trace, Lookup, Claims, ClearAt, HasId, Distinct, DistinctIds;
    forall k: nat | k < |ids| && trace[..k] == ids[..k]
      ensures trace[k] == ids[k] <==> ClearAt(snapshot, ids, k)
    {
      assert ids[k] in ids;
      TraceStep(o, tags, snapshot, ids, k);
    }
    if Clear(snapshot, ids) {
      TraceBySteps(trace, ids, |ids|);
      assert trace[..|ids|] == trace && ids[..|ids|] == ids;
    }
  }

  lemma UniqueIsWhole(trace: seq<string>, ids: seq<string>)
    requires |trace| == |ids| && Distinct(ids)
    ensures Unique(trace) == ids <==> trace == ids
  {
    if trace == ids {
      UniqueOfDistinct(ids);
    } else if Unique(trace) == ids {
      UniqueFull(trace);
    }
  }

  /** Resolving ids that are all in the store creates nothing, and returns them unchanged exactly when
      each of them is clear. */
  lemma RerunStableIff(slug: string -> string, tags: seq<Tag>, snapshot: seq<Tag>, ids: seq<string>)
    requires Lists(snapshot, tags) && Distinct(ids) && forall id :: id in ids ==> HasId(snapshot, id)
    ensures var o := Run(slug, Start(tags, snapshot), ids);
            && !o.failed && o.created == [] && o.tags == tags && |snapshot| <= |o.seen|
            && (Outcome(o, snapshot) == ids <==> Clear(snapshot, ids))
  {
    forall id | id in ids ensures Holder(snapshot, Lookup(id)).Some? {
      IdIsHeld(snapshot, id);
    }
    RunOnHeld(slug, tags, snapshot, ids);
    var o := Run(slug, Start(tags, snapshot), ids);
    assert |Trace(o, snapshot)| == |ids|;
    hide Lookup, Run, Step, Start, Claims, Clear, Holder, HasId, Distinct, DistinctIds, Trace;
    TraceIff(o, tags, snapshot, ids);
    UniqueIsWhole(Trace(o, snapshot), ids);
  }

  /** No lookup key belongs to two tags. */
  ghost predicate NoSharedKeys(tags: seq<Tag>) {
    forall t, u, key :: t in tags && u in tags && Claims(t, key) && Claims(u, key) ==> t == u
  }

  lemma NoSharedKeysIsClear(snapshot: seq<Tag>, ids: seq<string>)
    requires DistinctIds(snapshot) && NoSharedKeys(snapshot)
    requires Distinct(ids) && forall id :: id in ids ==> HasId(snapshot, id)
    ensures Clear(snapshot, ids)
  {
    hide Lookup;
    forall k: nat | k < |ids| ensures ClearAt(snapshot, ids, k) {
      assert ids[k] in ids;
      var own := snapshot[PosOf(snapshot, ids[k])];
      assert own in snapshot && Claims(own, Lookup(ids[k]));
      assert ids[k] !in ids[..k];
    }
  }

  /** Whatever was resolved first, when no two tags of the store share a key, resolving the result again
      creates nothing and gives the same list. */
  lemma ResolvingIsIdempotent(
    slug: string -> string, tags: seq<Tag>, snapshot: seq<Tag>, values: seq<string>, snapshot': seq<Tag>)
    requires Lists(snapshot, tags)
    requires !Run(slug, Start(tags, snapshot), values).failed
    requires Lists(snapshot', Run(slug, Start(tags, snapshot), values).tags)
    ensures |snapshot| <= |Run(slug, Start(tags, snapshot), values).seen|
    ensures var first := Run(slug, Start(tags, snapshot), values);
            var ids := Outcome(first, snapshot);
            var again := Run(slug, Start(first.tags, snapshot'), ids);
            && !again.failed && again.created == [] && again.tags == first.tags && |snapshot'| <= |again.seen|
            && (Outcome(again, snapshot') == ids <==> Clear(snapshot', ids))
            && (NoSharedKeys(snapshot') ==> Outcome(again, snapshot') == ids)
  {
    var first := Run(slug, Start(tags, snapshot), values);
    RunAnswers(slug, tags, snapshot, values);
    var ids := Outcome(first, snapshot);
    ListingIsStored(snapshot, tags);
    RunStored(slug, Start(tags, snapshot), values);
    IdsAreStored(first, snapshot, snapshot');
    assert Distinct(ids);
    hide *;
    RerunStableIff(slug, first.tags, snapshot', ids);
    if NoSharedKeys(snapshot') {
      NoSharedKeysIsClear(snapshot', ids);
    }
  }

  lemma IdsAreStored(o: State, snapshot: seq<Tag>, snapshot': seq<Tag>)
    requires Stored(o) && Lists(snapshot', o.tags) && |snapshot| <= |o.seen|
    ensures DistinctIds(snapshot')
    ensures forall id :: id in Outcome(o, snapshot) ==> HasId(snapshot', id)
  {
    forall id | id in Outcome(o, snapshot) ensures HasId(snapshot', id) {
      var k :| 0 <= k < |o.seen| - |snapshot| && Trace(o, snapshot)[k] == id;
      var t := o.seen[|snapshot| + k];
      assert t in o.seen;
      var u :| u in o.tags && u.id == t.id;
      assert u in snapshot';
    }
  }

  lemma HolderLast(seen: seq<Tag>, t: Tag, key: string)
    ensures Holder(seen + [t], key) == if Claims(t, key) then Some(t) else Holder(seen, key)
  {
    hide Lookup;
    assert (seen + [t])[..|seen|] == seen;
  }

  lemma RunTwo(slug: string -> string, tags: seq<Tag>, x: string, y: string)
    requires Holder(tags, Lookup(x)).Some?
    ensures var t := Holder(tags, Lookup(x)).value;
            Holder(tags + [t], Lookup(y)).Some? ==>
              var o := Run(slug, Start(tags, tags), [x, y]);
              o.seen == tags + [t, Holder(tags + [t], Lookup(y)).value]
  {
    hide Lookup, Holder;
    var start := Start(tags, tags);
    assert Run(slug, start, [x]) == Step(slug, start, x);
    assert [x, y][..1] == [x];
    assert Run(slug, start, [x, y]) == Step(slug, Step(slug, start, x), y);
  }

  lemma OutcomeOfTwo(o: State, snapshot: seq<Tag>, t: Tag, u: Tag)
    requires o.seen == snapshot + [t, u]
    ensures Outcome(o, snapshot) == if t.id == u.id then [t.id] else [t.id, u.id]
  {
    assert o.seen[|snapshot|..] == [t, u];
    assert Trace(o, snapshot) == [t.id] + [u.id];
    assert [] + [t.id] == [t.id] && Unique<string>([]) == [];
    hide Unique;
    UniqueLast([], t.id);
    UniqueLast([t.id], u.id);
  }

  /** Where the keys lead among the tags a (named b) and b (named c), and once a was resolved after them. */
  lemma HoldersOfTwo(t: Tag, u: Tag)
    requires t == Tag("a", "b") && u == Tag("b", "c")
    ensures Holder([t, u], Lookup("a")) == Some(t)
    ensures Holder([t, u] + [t], Lookup("b")) == Some(t) && Holder([t, u] + [t], Lookup("c")) == Some(u)
  {
    assert Lookup("a") == "a" && Lookup("b") == "b" && Lookup("c") == "c";
    hide Lookup, Holder;
    assert [t] == [] + [t] && [t, u] == [t] + [u];
    HolderLast([], t, "a");
    HolderLast([t], u, "a");
    HolderLast([t], u, "c");
    HolderLast([t, u], t, "c");
    HolderLast([t, u], t, "b");
  }

  /** A tag named like the id of another makes the second resolution differ: with the tags a (named b)
      and b (named c), the values a and c give [a, b], and [a, b] gives [a]. */
  lemma SharedKeyBreaksRerun(slug: string -> string)
    ensures var tags := [Tag("a", "b"), Tag("b", "c")];
            var first, again := Run(slug, Start(tags, tags), ["a", "c"]), Run(slug, Start(tags, tags), ["a", "b"]);
            && |tags| <= |first.seen| && Outcome(first, tags) == ["a", "b"]
            && |tags| <= |again.seen| && Outcome(again, tags) == ["a"]
  {
    hide Lookup, Run, Holder, Outcome;
    var t, u := Tag("a", "b"), Tag("b", "c");
    HoldersOfTwo(t, u);
    RunTwo(slug, [t, u], "a", "c");
    RunTwo(slug, [t, u], "a", "b");
    assert t.id != u.id by { assert "a"[0] != "b"[0]; }
    OutcomeOfTwo(Run(slug, Start([t, u], [t, u]), ["a", "c"]), [t, u], t, u);
    OutcomeOfTwo(Run(slug, Start([t, u], [t, u]), ["a", "b"]), [t, u], t, t);
  }

  // ----- which values a tag answers -----

  /** The two texts are the same but for white space at their ends and the case of letters. */
  predicate Agree(a: string, b: string) {
    SameUpToCase(Trim(a), Trim(b))
  }

  /** Lookup keys identify exactly that. */
  lemma LookupAgreesIff(a: string, b: string)
    ensures Lookup(a) == Lookup(b) <==> Agree(a, b)
  {
    hide Trim, Lower;
    LowerAgreesIff(Trim(a), Trim(b));
  }

  predicate Matches(t: Tag, value: string) {
    Agree(value, t.id) || Agree(value, t.name)
  }

  lemma ClaimsIffMatches(t: Tag, value: string)
    ensures Claims(t, Lookup(value)) <==> Matches(t, value)
  {
    hide Lookup, Agree;
    LookupAgreesIff(value, t.id);
    LookupAgreesIff(value, t.name);
  }

  /** A value is missing exactly when it agrees with the id or name of no tag of the snapshot. */
  lemma MissingIff(snapshot: seq<Tag>, value: string)
    ensures Missing(snapshot, value) <==> forall t :: t in snapshot ==> !Matches(t, value)
  {
    forall t ensures Claims(t, Lookup(value)) <==> Matches(t, value) {
      ClaimsIffMatches(t, value);
    }
    hide Lookup, Matches, Claims;
  }

  /** What a call creates agrees with no tag of the snapshot, and every value that agrees with none gets a tag
      created that it agrees with. */
  lemma CreatedIffNothingMatches(
    slug: string -> string, tags: seq<Tag>, snapshot: seq<Tag>, values: seq<string>, v: string)
    requires v in values
    ensures var o := Run(slug, Start(tags, snapshot), values);
            && (v in o.created ==> forall t :: t in snapshot ==> !Matches(t, v))
            && (!o.failed && (forall t :: t in snapshot ==> !Matches(t, v)) ==>
                  exists u :: u in o.created && Matches(NewTag(slug, u), v))
  {
    hide Run, Planned, Matches, Missing, NewTag;
    CreatedAsPlanned(slug, tags, snapshot, values);
    MissingNamesCreated(slug, snapshot, values);
    MissingIff(snapshot, v);
    var names := Planned(slug, snapshot, values).names;
    if Covered(slug, names, v) {
      var u :| u in names && Claims(NewTag(slug, u), Lookup(v));
      ClaimsIffMatches(NewTag(slug, u), v);
    }
  }

  /** Values that all agree with tags of the snapshot create nothing, and each is answered by a tag of the
      snapshot that it agrees with. */
  lemma KnownValuesAnswered(slug: string -> string, tags: seq<Tag>, snapshot: seq<Tag>, values: seq<string>)
    requires forall v :: v in values ==> exists t :: t in snapshot && Matches(t, v)
    ensures var o := Run(slug, Start(tags, snapshot), values);
            && !o.failed && o.created == [] && o.tags == tags && |o.seen| == |snapshot| + |values|
            && forall k :: 0 <= k < |values| ==>
                 o.seen[|snapshot| + k] in snapshot && Matches(o.seen[|snapshot| + k], values[k])
  {
    hide Lookup, Matches, Run, Claims;
    forall v | v in values ensures Holder(snapshot, Lookup(v)).Some? {
      var t :| t in snapshot && Matches(t, v);
      ClaimsIffMatches(t, v);
    }
    RunOnHeld(slug, tags, snapshot, values);
    var o := Run(slug, Start(tags, snapshot), values);
    forall k | 0 <= k < |values|
      ensures o.seen[|snapshot| + k] in snapshot && Matches(o.seen[|snapshot| + k], values[k])
    {
      assert o.seen[|snapshot| + k] in o.seen;
      ClaimsIffMatches(o.seen[|snapshot| + k], values[k]);
    }
  }

  /** The value "NOIR" is answered by the tag named "Noir". */
  lemma CaseIsIgnored(slug: string -> string)
    ensures var tags := [Tag("noir", "Noir")];
            var o := Run(slug, Start(tags, tags), ["NOIR"]);
            |tags| <= |o.seen| && o.created == [] && o.tags == tags && Outcome(o, tags) == ["noir"]
  {
    var t := Tag("noir", "Noir");
    assert Trim("NOIR") == "NOIR" && Trim("noir") == "noir";
    assert Agree("NOIR", t.id) && t in [t];
    hide Trim, Run, Agree;
    KnownValuesAnswered(slug, [t], [t], ["NOIR"]);
    var o := Run(slug, Start([t], [t]), ["NOIR"]);
    assert o.seen[1] == t && o.seen[1..] == [t];
    OutcomeOfOne(o, [t], t);
  }

  lemma OutcomeOfOne(o: State, snapshot: seq<Tag>, t: Tag)
    requires |o.seen| == |snapshot| + 1 && o.seen[|snapshot|] == t
    ensures Outcome(o, snapshot) == [t.id]
  {
    assert Trace(o, snapshot) == [] + [t.id];
    UniqueLast([], t.id);
  }
}
