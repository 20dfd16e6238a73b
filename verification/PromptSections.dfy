/** Prompt-build evidence: selecting a step and the section deltas between consecutive builds. */
module PromptSections {
  import opened Options
  import opened Sequences

  datatype Result<+T, +E> = Ok(value: T) | Err(error: E)

  datatype Payload = Payload(dynamicIds: seq<string>, omittedIds: seq<string>)

  /** A build; its payload is absent when the recorded data is malformed. */
  datatype Build = Build(stepIndex: int, payload: Option<Payload>)

  datatype Selection = Selection(
    stepIndex: int,
    previousStepIndex: Option<int>,
    available: seq<int>,
    payload: Payload,
    previous: Option<Payload>)

  datatype Failure =
    | NoEvidence
    | MissingStep(step: int, available: seq<int>)
    | MalformedBuild(step: int)
    | MalformedPrevious(step: int)

  // ----- available steps -----

  function InsertAsc(x: int, sorted: seq<int>): seq<int> {
    if sorted == [] || x <= sorted[0] then [x] + sorted else [sorted[0]] + InsertAsc(x, sorted[1..])
  }

  function SortAsc(values: seq<int>): seq<int> {
    if values == [] then [] else InsertAsc(values[0], SortAsc(values[1..]))
  }

  function Steps(builds: seq<Build>): seq<int> {
    Map(builds, (b: Build) => b.stepIndex)
  }

  function AvailableSteps(builds: seq<Build>): seq<int> {
    SortAsc(Unique(Steps(builds)))
  }

  ghost predicate StrictlyIncreasing(s: seq<int>) {
    forall i, j :: 0 <= i < j < |s| ==> s[i] < s[j]
  }

  lemma {:induction false} InsertAscKeeps(x: int, sorted: seq<int>)
    requires StrictlyIncreasing(sorted) && x !in sorted
    ensures StrictlyIncreasing(InsertAsc(x, sorted))
    ensures forall y :: y in InsertAsc(x, sorted) <==> y == x || y in sorted
  {
    if sorted != [] {
      assert sorted == [sorted[0]] + sorted[1..];
      assert sorted[0] in sorted;
      if x > sorted[0] {
        InsertAscKeeps(x, sorted[1..]);
        var rest := InsertAsc(x, sorted[1..]);
        forall i | 0 <= i < |rest| ensures sorted[0] < rest[i] {
          assert rest[i] in rest;
        }
      }
    }
  }

  lemma {:induction false} SortAscSorts(values: seq<int>)
    requires Distinct(values)
    ensures StrictlyIncreasing(SortAsc(values))
    ensures forall y :: y in SortAsc(values) <==> y in values
  {
    if values != [] {
      assert values == [values[0]] + values[1..];
      SortAscSorts(values[1..]);
      InsertAscKeeps(values[0], SortAsc(values[1..]));
    }
  }

  /** The reported step indices are sorted, without duplicates, and exactly those of the builds. */
  lemma AvailableStepsExact(builds: seq<Build>, step: int)
    ensures StrictlyIncreasing(AvailableSteps(builds))
    ensures step in AvailableSteps(builds) <==> exists b :: b in builds && b.stepIndex == step
  {
    SortAscSorts(Unique(Steps(builds)));
    if step in Steps(builds) {
      var i :| 0 <= i < |builds| && Steps(builds)[i] == step;
      assert builds[i] in builds;
    }
    if b :| b in builds && b.stepIndex == step {
      var i :| 0 <= i < |builds| && builds[i] == b;
      assert Steps(builds)[i] == step;
    }
  }

  // ----- selection -----

  function LastWithStep(builds: seq<Build>, step: int): (r: int)
    ensures -1 <= r < |builds|
    ensures r >= 0 ==> builds[r].stepIndex == step
    ensures forall j :: r < j < |builds| ==> builds[j].stepIndex != step
  {
    if builds == [] then -1
    else if builds[|builds| - 1].stepIndex == step then |builds| - 1
    else LastWithStep(builds[..|builds| - 1], step)
  }

  method FindLastMatchingPromptBuildIndex(builds: seq<Build>, step: int) returns (index: int)
    ensures index == LastWithStep(builds, step)
  {
    index := |builds| - 1;
    while index >= 0
      invariant -1 <= index < |builds|
      invariant forall j :: index < j < |builds| ==> builds[j].stepIndex != step
    {
      if builds[index].stepIndex == step {
        return;
      }
      index := index - 1;
    }
  }

  function SelectAt(builds: seq<Build>, index: nat): Result<Selection, Failure>
    requires index < |builds|
  {
    var selected := builds[index];
    if selected.payload.None? then Err(MalformedBuild(selected.stepIndex))
    else if index == 0 then
      Ok(Selection(selected.stepIndex, None, AvailableSteps(builds), selected.payload.value, None))
    else
      var previous := builds[index - 1];
      if previous.payload.None? then Err(MalformedPrevious(previous.stepIndex))
      else
        Ok(Selection(
          selected.stepIndex, Some(previous.stepIndex), AvailableSteps(builds),
          selected.payload.value, previous.payload))
  }

  function Resolve(builds: seq<Build>, step: Option<int>): Result<Selection, Failure> {
    if builds == [] then Err(NoEvidence)
    else
      var index := if step.None? then |builds| - 1 else LastWithStep(builds, step.value);
      if index < 0 then Err(MissingStep(step.value, AvailableSteps(builds))) else SelectAt(builds, index)
  }

  method ResolvePromptBuildSelection(builds: seq<Build>, step: Option<int>) returns (r: Result<Selection, Failure>)
    ensures r == Resolve(builds, step)
  {
    if |builds| == 0 {
      return Err(NoEvidence);
    }
    var index := |builds| - 1;
    if step.Some? {
      index := FindLastMatchingPromptBuildIndex(builds, step.value);
    }
    if index < 0 {
      return Err(MissingStep(step.value, AvailableSteps(builds)));
    }
    return SelectAt(builds, index);
  }

  /** A requested step is reported missing exactly when it is not among the available ones, and the
      failure names those. */
  lemma MissingIffNotAvailable(builds: seq<Build>, step: int)
    requires builds != []
    ensures Resolve(builds, Some(step)) == Err(MissingStep(step, AvailableSteps(builds)))
            <==> step !in AvailableSteps(builds)
  {
    AvailableStepsExact(builds, step);
    var r := LastWithStep(builds, step);
    if r >= 0 {
      assert builds[r] in builds;
    } else {
      assert forall b :: b in builds ==> b.stepIndex != step;
    }
  }

  /** Which build is selected: the last one, or the last one of the requested step. */
  ghost predicate IsSelected(builds: seq<Build>, step: Option<int>, index: nat) {
    && index < |builds|
    && (step.None? ==> index + 1 == |builds|)
    && (step.Some? ==> builds[index].stepIndex == step.value
                       && forall j :: index < j < |builds| ==> builds[j].stepIndex != step.value)
  }

  /** A selection gives the payload of the build asked for, without a step of the last one, and step and
      payload of the one recorded before it; it fails exactly when there is no such build, or when it or the
      one before is malformed. */
  lemma SelectedIff(builds: seq<Build>, step: Option<int>, index: nat)
    requires IsSelected(builds, step, index)
    ensures var r, own := Resolve(builds, step), builds[index];
            && (r.Ok? <==> own.payload.Some? && (index > 0 ==> builds[index - 1].payload.Some?))
            && (r.Ok? ==>
                  && r.value.stepIndex == own.stepIndex && Some(r.value.payload) == own.payload
                  && r.value.available == AvailableSteps(builds)
                  && (index == 0 ==> r.value.previousStepIndex.None? && r.value.previous.None?)
                  && (index > 0 ==> r.value.previousStepIndex == Some(builds[index - 1].stepIndex)
                                    && r.value.previous == builds[index - 1].payload))
            && (own.payload.None? ==> r == Err(MalformedBuild(own.stepIndex)))
            && (own.payload.Some? && index > 0 && builds[index - 1].payload.None? ==>
                  r == Err(MalformedPrevious(builds[index - 1].stepIndex)))
  {
    if step.Some? {
      assert LastWithStep(builds, step.value) == index;
    }
    hide AvailableSteps;
  }

  /** Something can be selected exactly when there are builds and the requested step is one of theirs. */
  lemma SomethingSelectedIff(builds: seq<Build>, step: Option<int>)
    ensures (exists index: nat :: IsSelected(builds, step, index))
            <==> builds != [] && (step.Some? ==> step.value in AvailableSteps(builds))
    ensures builds == [] ==> Resolve(builds, step) == Err(NoEvidence)
  {
    if builds != [] {
      if step.Some? {
        AvailableStepsExact(builds, step.value);
        var r := LastWithStep(builds, step.value);
        if r >= 0 {
          assert builds[r] in builds && IsSelected(builds, step, r);
        } else {
          assert forall b :: b in builds ==> b.stepIndex != step.value;
        }
        hide AvailableSteps;
      } else {
        assert IsSelected(builds, step, |builds| - 1);
      }
    }
  }

  // ----- deltas -----

  function NotIn(ids: seq<string>): string -> bool {
    (id: string) => id !in ids
  }

  function DiffSectionIds(source: seq<string>, baseline: seq<string>): seq<string> {
    Filter(source, NotIn(baseline))
  }

  datatype Delta = Delta(added: seq<string>, removed: seq<string>)

  function DeltaBetween(previous: seq<string>, current: seq<string>): Delta {
    Delta(DiffSectionIds(current, previous), DiffSectionIds(previous, current))
  }

  function DynamicDelta(s: Selection): Delta {
    DeltaBetween(if s.previous.Some? then s.previous.value.dynamicIds else [], s.payload.dynamicIds)
  }

  /** The newly omitted and the restored sections. */
  function OmittedDelta(s: Selection): Delta {
    DeltaBetween(if s.previous.Some? then s.previous.value.omittedIds else [], s.payload.omittedIds)
  }

  function IdSet(ids: seq<string>): set<string> {
    set id | id in ids
  }

  function Patched(sections: set<string>, d: Delta): set<string> {
    (sections - IdSet(d.removed)) + IdSet(d.added)
  }

  predicate AllWellFormed(builds: seq<Build>) {
    forall b :: b in builds ==> b.payload.Some?
  }

  /** Applying the reported deltas of the first k builds, in evidence order, from nothing. */
  function Replayed(builds: seq<Build>, k: nat, delta: Selection -> Delta): set<string>
    requires k <= |builds| && AllWellFormed(builds)
  {
    if k == 0 then {}
    else
      assert builds[k - 1] in builds && (k > 1 ==> builds[k - 2] in builds);
      Patched(Replayed(builds, k - 1, delta), delta(SelectAt(builds, k - 1).value))
  }

  lemma PatchReachesCurrent(previous: seq<string>, current: seq<string>)
    ensures Patched(IdSet(previous), DeltaBetween(previous, current)) == IdSet(current)
  {
  }

  /** What the k-th build reports against the build before it. */
  lemma DeltasOfBuild(builds: seq<Build>, k: nat)
    requires k < |builds| && AllWellFormed(builds)
    ensures builds[k] in builds && (k > 0 ==> builds[k - 1] in builds)
    ensures var s, current := SelectAt(builds, k).value, builds[k].payload.value;
            && DynamicDelta(s) == DeltaBetween(if k > 0 then builds[k - 1].payload.value.dynamicIds else [], current.dynamicIds)
            && OmittedDelta(s) == DeltaBetween(if k > 0 then builds[k - 1].payload.value.omittedIds else [], current.omittedIds)
  {
    hide AvailableSteps, DeltaBetween;
  }

  /** Deltas replay: after any number of builds they have rebuilt exactly the dynamic sections of the
      last one, and likewise the omitted sections. */
  lemma {:induction false} DeltasReplay(builds: seq<Build>, k: nat)
    requires 1 <= k <= |builds| && AllWellFormed(builds)
    ensures builds[k - 1] in builds
    ensures Replayed(builds, k, DynamicDelta) == IdSet(builds[k - 1].payload.value.dynamicIds)
    ensures Replayed(builds, k, OmittedDelta) == IdSet(builds[k - 1].payload.value.omittedIds)
  {
    hide DynamicDelta, OmittedDelta, DeltaBetween, Patched, SelectAt, IdSet;
    DeltasOfBuild(builds, k - 1);
    var current := builds[k - 1].payload.value;
    if k == 1 {
      EmptyIdSet();
      PatchReachesCurrent([], current.dynamicIds);
      PatchReachesCurrent([], current.omittedIds);
    } else {
      var previous := builds[k - 2].payload.value;
      DeltasReplay(builds, k - 1);
      PatchReachesCurrent(previous.dynamicIds, current.dynamicIds);
      PatchReachesCurrent(previous.omittedIds, current.omittedIds);
    }
  }

  lemma EmptyIdSet()
    ensures IdSet([]) == {}
  {
  }

  /** A delta never names a section twice over: what is added was not there, what is removed was. */
  lemma DeltaExact(previous: seq<string>, current: seq<string>, id: string)
    ensures var d := DeltaBetween(previous, current);
            && (id in d.added <==> id in current && id !in previous)
            && (id in d.removed <==> id in previous && id !in current)
            && (d == Delta([], []) <==> IdSet(previous) == IdSet(current))
  {
    var d := DeltaBetween(previous, current);
    PatchReachesCurrent(previous, current);
    if d.added != [] {
      assert d.added[0] in IdSet(current) && d.added[0] !in IdSet(previous);
    }
    if d.removed != [] {
      assert d.removed[0] in IdSet(previous) && d.removed[0] !in IdSet(current);
    }
  }
}
