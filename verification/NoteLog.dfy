/** The free-text note log of an assignment and the retry state decoded from it by prefix scans. */
module NoteLog {
  import opened Options
  import opened Sequences

  const RETRY_PREFIX := "Retry requested at "
  const REROUTE_PREFIX := "Adapter rerouted from "

  predicate IsRetry(note: string) { RETRY_PREFIX <= note }

  predicate IsReroute(note: string) { REROUTE_PREFIX <= note }

  lemma PrefixesExclude(note: string)
    ensures !(IsRetry(note) && IsReroute(note))
  {
    assert RETRY_PREFIX[0] == 'R' && REROUTE_PREFIX[0] == 'A';
  }

  // ----- backward scans -----

  /** Index of the last note that satisfies `wanted`, or -1. */
  function LastIndex(notes: seq<string>, wanted: string -> bool): (r: int)
    ensures -1 <= r < |notes|
    ensures r >= 0 ==> wanted(notes[r])
    ensures forall j :: r < j < |notes| ==> !wanted(notes[j])
  {
    if notes == [] then -1
    else if wanted(notes[|notes| - 1]) then |notes| - 1
    else LastIndex(notes[..|notes| - 1], wanted)
  }

  method FindLastIndex(notes: seq<string>, wanted: string -> bool) returns (index: int)
    ensures index == LastIndex(notes, wanted)
  {
    index := |notes| - 1;
    while index >= 0
      invariant -1 <= index < |notes|
      invariant forall j :: index < j < |notes| ==> !wanted(notes[j])
    {
      if wanted(notes[index]) {
        return;
      }
      index := index - 1;
    }
  }

  method FindLastRerouteRequestIndex(notes: seq<string>) returns (index: int)
    ensures index == LastIndex(notes, IsReroute)
  {
    index := FindLastIndex(notes, IsReroute);
  }

  method FindLastRetryRequestIndex(notes: seq<string>) returns (index: int)
    ensures index == LastIndex(notes, IsRetry)
  {
    index := FindLastIndex(notes, IsRetry);
  }

  function CountRetryRequests(notes: seq<string>): nat {
    |Filter(notes[LastIndex(notes, IsReroute) + 1..], IsRetry)|
  }

  predicate HasPendingReroute(notes: seq<string>) {
    LastIndex(notes, IsReroute) > LastIndex(notes, IsRetry)
  }

  // ----- the state machine the log encodes -----

  datatype Recovery = Recovery(retriesUsed: nat, reroutePending: bool)

  function AfterNote(r: Recovery, note: string): Recovery {
    if IsReroute(note) then Recovery(0, true)
    else if IsRetry(note) then Recovery(r.retriesUsed + 1, false)
    else r
  }

  function RecoveryOf(notes: seq<string>): Recovery {
    if notes == [] then Recovery(0, false)
    else AfterNote(RecoveryOf(notes[..|notes| - 1]), notes[|notes| - 1])
  }

  lemma CountAppend(notes: seq<string>, note: string)
    ensures CountRetryRequests(notes + [note])
            == if IsReroute(note) then 0
               else if IsRetry(note) then CountRetryRequests(notes) + 1
               else CountRetryRequests(notes)
  {
    var all, last := notes + [note], LastIndex(notes, IsReroute);
    assert all[..|notes|] == notes;
    if !IsReroute(note) {
      assert all[last + 1..] == notes[last + 1..] + [note];
      FilterLast(notes[last + 1..], note, IsRetry);
    }
  }

  lemma PendingAppend(notes: seq<string>, note: string)
    ensures HasPendingReroute(notes + [note])
            == (IsReroute(note) || (!IsRetry(note) && HasPendingReroute(notes)))
  {
    PrefixesExclude(note);
    assert (notes + [note])[..|notes|] == notes;
  }

  lemma RecoveryAppend(notes: seq<string>, note: string)
    ensures RecoveryOf(notes + [note]) == AfterNote(RecoveryOf(notes), note)
  {
    assert (notes + [note])[..|notes|] == notes;
  }

  lemma EmptyLog()
    ensures CountRetryRequests([]) == 0 && !HasPendingReroute([])
  {
  }

  /** For every log, the two scans compute exactly the state of the machine. */
  lemma {:induction false} ScansRefineMachine(notes: seq<string>)
    ensures RecoveryOf(notes) == Recovery(CountRetryRequests(notes), HasPendingReroute(notes))
  {
    if notes == [] {
      EmptyLog();
    } else {
      hide CountRetryRequests, HasPendingReroute;
      var front, note := notes[..|notes| - 1], notes[|notes| - 1];
      assert notes == front + [note];
      ScansRefineMachine(front);
      CountAppend(front, note);
      PendingAppend(front, note);
      RecoveryAppend(front, note);
    }
  }

  // ----- appending with de-duplication -----

  function NonEmpty(): string -> bool {
    (s: string) => s != ""
  }

  /** `[...new Set(values.filter((value) => value.length > 0))]` */
  function DedupeStrings(values: seq<string>): seq<string> {
    Unique(Filter(values, NonEmpty()))
  }

  ghost predicate CleanLog(notes: seq<string>) {
    Distinct(notes) && "" !in notes
  }

  function WithNote(notes: seq<string>, note: string): seq<string> {
    DedupeStrings(notes + [note])
  }

  lemma DedupeIsClean(values: seq<string>)
    ensures CleanLog(DedupeStrings(values))
  {
  }

  lemma DedupeOfClean(notes: seq<string>)
    requires CleanLog(notes)
    ensures DedupeStrings(notes) == notes
  {
    FilterAll(notes, NonEmpty());
    UniqueOfDistinct(notes);
  }

  /** On a clean log a new note is appended; a note that is already there changes nothing. */
  lemma WithNoteOnClean(notes: seq<string>, note: string)
    requires CleanLog(notes) && note != ""
    ensures WithNote(notes, note) == if note in notes then notes else notes + [note]
  {
    FilterLast(notes, note, NonEmpty());
    FilterAll(notes, NonEmpty());
    UniqueLast(notes, note);
    UniqueOfDistinct(notes);
  }

  function RetryNote(at: string): string {
    RETRY_PREFIX + at + "."
  }

  function RerouteNote(from: string, to: string, at: string): string {
    REROUTE_PREFIX + from + " to " + to + " at " + at + "."
  }

  lemma NotePrefixes(from: string, to: string, at: string)
    ensures IsRetry(RetryNote(at)) && !IsReroute(RetryNote(at))
    ensures IsReroute(RerouteNote(from, to, at)) && !IsRetry(RerouteNote(from, to, at))
  {
    PrefixesExclude(RetryNote(at));
    assert RerouteNote(from, to, at) == REROUTE_PREFIX + (from + " to " + to + " at " + at + ".");
    PrefixesExclude(RerouteNote(from, to, at));
  }

  /** A retry is charged to the budget exactly when its note is not in the log already. A second
      retry stamped with the same time leaves no trace. */
  lemma RetryChargedIffNoteNew(notes: seq<string>, at: string)
    requires CleanLog(notes)
    ensures RecoveryOf(WithNote(notes, RetryNote(at))).retriesUsed == RecoveryOf(notes).retriesUsed + 1
            <==> RetryNote(at) !in notes
  {
    NotePrefixes("", "", at);
    WithNoteOnClean(notes, RetryNote(at));
    RecoveryAppend(notes, RetryNote(at));
  }

  // ----- reading the source adapter back from a reroute note -----

  /** No line terminator, so that the pattern's `.` matches every character. */
  predicate OneLine(s: string) {
    forall c :: c in s ==> c != '\n' && c != '\r' && c != '\U{2028}' && c != '\U{2029}'
  }

  /** `(.+) at ` matches at the start of the text. */
  predicate HasTarget(text: string) {
    exists h: nat :: 1 <= h <= |text| - 4 && OneLine(text[..h]) && text[h..h + 4] == " at "
  }

  /** `(.+) to (.+) at ` matches at the start of the text with a first group of length k. */
  predicate SplitsAt(text: string, k: nat) {
    1 <= k <= |text| - 4 && OneLine(text[..k]) && text[k..k + 4] == " to " && HasTarget(text[k + 4..])
  }

  function LongestSource(text: string, k: nat): (r: Option<string>)
    requires k <= |text|
    ensures r.None? ==> forall j: nat :: j <= k ==> !SplitsAt(text, j)
    ensures r.Some? ==> SplitsAt(text, |r.value|) && r.value <= text
                        && forall j: nat :: |r.value| < j <= k ==> !SplitsAt(text, j)
  {
    if SplitsAt(text, k) then Some(text[..k])
    else if k == 0 then None
    else LongestSource(text, k - 1)
  }

  /** The first group of the greedy pattern `^Adapter rerouted from (.+) to (.+) at `. */
  function MatchSource(note: string): (r: Option<string>)
    ensures r.Some? ==> IsReroute(note)
  {
    if !IsReroute(note) then None
    else
      var text := note[|REROUTE_PREFIX|..];
      LongestSource(text, |text|)
  }

  predicate NoBlank(s: string) {
    ' ' !in s
  }

  /** After the source, a reroute note has just three blanks. */
  lemma BlankPositions(from: string, to: string, at: string)
    requires NoBlank(to) && NoBlank(at)
    ensures var text := from + " to " + to + " at " + at + ".";
            forall p :: |from| < p < |text| && text[p] == ' ' ==>
              p == |from| + 3 || p == |from| + 4 + |to| || p == |from| + 7 + |to|
  {
    var text := from + " to " + to + " at " + at + ".";
    forall p | |from| < p < |text| && p != |from| + 3 && p != |from| + 4 + |to| && p != |from| + 7 + |to|
      ensures text[p] != ' '
    {
      if |from| + 4 <= p < |from| + 4 + |to| {
        assert text[p] == to[p - |from| - 4];
        assert to[p - |from| - 4] in to;
      } else if |from| + 8 + |to| <= p < |text| - 1 {
        assert text[p] == at[p - |from| - |to| - 8];
        assert at[p - |from| - |to| - 8] in at;
      }
    }
  }

  /** Printing a reroute note and matching it gives back the source adapter. The source itself may
      contain blanks, and even " to ", because the pattern is greedy. */
  lemma RerouteNoteRoundTrip(from: string, to: string, at: string)
    requires from != "" && to != ""
    requires OneLine(from) && OneLine(to)
    requires NoBlank(to) && NoBlank(at)
    ensures MatchSource(RerouteNote(from, to, at)) == Some(from)
  {
    var text := from + " to " + to + " at " + at + ".";
    var note := RerouteNote(from, to, at);
    assert note == REROUTE_PREFIX + text;
    assert note[|REROUTE_PREFIX|..] == text;
    SplitAtSource(from, to, at);
    forall k: nat | |from| < k <= |text| ensures !SplitsAt(text, k) {
      NoLaterSplit(from, to, at, k);
    }
    var r := LongestSource(text, |text|);
    assert r.Some? && |r.value| == |from|;
    assert r.value == text[..|from|] == from;
  }

  lemma SplitAtSource(from: string, to: string, at: string)
    requires from != "" && to != "" && OneLine(from) && OneLine(to)
    ensures SplitsAt(from + " to " + to + " at " + at + ".", |from|)
  {
    var text := from + " to " + to + " at " + at + ".";
    var rest := to + " at " + at + ".";
    assert text[..|from|] == from && text[|from|..|from| + 4] == " to ";
    assert text[|from| + 4..] == rest;
    assert rest[..|to|] == to && rest[|to|..|to| + 4] == " at ";
  }

  lemma NoLaterSplit(from: string, to: string, at: string, k: nat)
    requires NoBlank(to) && NoBlank(at) && |from| < k
    ensures !SplitsAt(from + " to " + to + " at " + at + ".", k)
  {
    var text := from + " to " + to + " at " + at + ".";
    if SplitsAt(text, k) {
      var rest := text[k + 4..];
      var h: nat :| 1 <= h <= |rest| - 4 && OneLine(rest[..h]) && rest[h..h + 4] == " at ";
      assert text[k] == text[k..k + 4][0] == ' ';
      assert text[k + 3] == text[k..k + 4][3] == ' ';
      assert text[k + 4 + h] == rest[h] == rest[h..h + 4][0] == ' ';
      assert text[k + 7 + h] == rest[h + 3] == rest[h..h + 4][3] == ' ';
      BlankPositions(from, to, at);
    }
  }

  /** What follows the source reads as a second " to ... at ". */
  predicate SecondSplit(rest: string) {
    exists j: nat :: j + 4 <= |rest| && SecondSplitAt(rest, j)
  }

  predicate SecondSplitAt(rest: string, j: nat)
    requires j + 4 <= |rest|
  {
    OneLine(rest[..j]) && rest[j..j + 4] == " to " && HasTarget(rest[j + 4..])
  }

  lemma OneLineConcat(s: string, t: string)
    ensures OneLine(s + t) <==> OneLine(s) && OneLine(t)
  {
    assert forall c :: c in s + t <==> c in s || c in t;
  }

  lemma LaterSplitIff(from: string, rest: string, k: nat)
    requires OneLine(from) && |from| < k
    ensures SplitsAt(from + " to " + rest, k)
            <==> k >= |from| + 3 && k - |from| - 3 + 4 <= |" " + rest| && SecondSplitAt(" " + rest, k - |from| - 3)
  {
    hide OneLine, HasTarget;
    var text, tail := from + " to " + rest, " " + rest;
    if k + 4 <= |text| {
      if k < |from| + 3 {
        assert text[k..k + 4][0] == text[k] != ' ';
      } else {
        var j := k - |from| - 3;
        assert text == (from + " to") + tail;
        assert text[k..k + 4] == tail[j..j + 4];
        assert text[k + 4..] == tail[j + 4..];
        assert text[..k] == from + (" to" + tail[..j]);
        OneLineConcat(from, " to" + tail[..j]);
        OneLineConcat(" to", tail[..j]);
        assert OneLine(" to") by { PlainTo(); }
      }
    }
  }

  lemma PlainTo()
    ensures OneLine(" to") && OneLine(" ")
  {
  }

  lemma LongestIs(text: string, n: nat)
    requires n <= |text|
    ensures LongestSource(text, |text|) == Some(text[..n])
            <==> SplitsAt(text, n) && forall k: nat :: n < k <= |text| ==> !SplitsAt(text, k)
  {
    hide SplitsAt;
    var r := LongestSource(text, |text|);
    if r.Some? && |r.value| == n {
      assert r.value == text[..n];
    }
  }

  lemma LaterSplits(from: string, rest: string)
    requires OneLine(from)
    ensures var text := from + " to " + rest;
            (forall k: nat :: |from| < k <= |text| ==> !SplitsAt(text, k)) <==> !SecondSplit(" " + rest)
  {
    hide OneLine, SecondSplitAt, SplitsAt;
    var text := from + " to " + rest;
    forall k: nat | |from| < k <= |text| && SplitsAt(text, k) ensures SecondSplit(" " + rest) {
      LaterSplitIff(from, rest, k);
      var j: nat := k - |from| - 3;
      assert SecondSplitAt(" " + rest, j);
    }
    if SecondSplit(" " + rest) {
      var j: nat :| j + 4 <= |" " + rest| && SecondSplitAt(" " + rest, j);
      LaterSplitIff(from, rest, j + |from| + 3);
    }
  }

  lemma SplitsAtSourceIff(from: string, rest: string)
    ensures SplitsAt(from + " to " + rest, |from|) <==> from != "" && OneLine(from) && HasTarget(rest)
  {
    hide OneLine, HasTarget;
    var text := from + " to " + rest;
    assert text[..|from|] == from && text[|from|..|from| + 4] == " to " && text[|from| + 4..] == rest;
  }

  lemma MatchSourceOfText(from: string, to: string, at: string)
    ensures var text := from + " to " + (to + " at " + at + ".");
            MatchSource(RerouteNote(from, to, at)) == LongestSource(text, |text|)
  {
    hide LongestSource;
    var text := from + " to " + (to + " at " + at + ".");
    assert RerouteNote(from, to, at) == REROUTE_PREFIX + text;
    assert (REROUTE_PREFIX + text)[|REROUTE_PREFIX|..] == text;
  }

  /** For all adapters and times: the source is read back exactly when it is a non-empty line, a target
      follows it, and what follows does not read as a second " to ... at ". */
  lemma SourceRecoveredIff(from: string, to: string, at: string)
    ensures var rest := to + " at " + at + ".";
            MatchSource(RerouteNote(from, to, at)) == Some(from)
            <==> from != "" && OneLine(from) && HasTarget(rest) && !SecondSplit(" " + rest)
  {
    hide *;
    var rest := to + " at " + at + ".";
    var text := from + " to " + rest;
    MatchSourceOfText(from, to, at);
    LongestIs(text, |from|);
    assert text[..|from|] == from;
    SplitsAtSourceIff(from, rest);
    if OneLine(from) {
      LaterSplits(from, rest);
    }
  }

  /** With blanks in the target the source is read back wrongly. */
  lemma RerouteNoteMisread()
    ensures MatchSource(RerouteNote("a", "b to c", "T")) == Some("a to b")
  {
    var text := "a to b to c at T.";
    assert RerouteNote("a", "b to c", "T") == REROUTE_PREFIX + text;
    RerouteNoteRoundTrip("a to b", "c", "T");
    assert RerouteNote("a to b", "c", "T") == RerouteNote("a", "b to c", "T");
  }

  /** The source of the last reroute note that the pattern matches. */
  function LastRerouteSource(notes: seq<string>): Option<string> {
    if notes == [] then None
    else if MatchSource(notes[|notes| - 1]).Some? then MatchSource(notes[|notes| - 1])
    else LastRerouteSource(notes[..|notes| - 1])
  }

  method FindLastRerouteSource(notes: seq<string>) returns (source: Option<string>)
    ensures source == LastRerouteSource(notes)
    ensures source.Some? ==>
              exists i :: 0 <= i < |notes| && MatchSource(notes[i]) == source
                          && forall j :: i < j < |notes| ==> MatchSource(notes[j]) == None
    ensures source.None? ==> forall j :: 0 <= j < |notes| ==> MatchSource(notes[j]) == None
  {
    var index := |notes|;
    assert notes[..index] == notes;
    while index > 0
      invariant 0 <= index <= |notes|
      invariant forall j :: index <= j < |notes| ==> MatchSource(notes[j]) == None
      invariant LastRerouteSource(notes) == LastRerouteSource(notes[..index])
    {
      index := index - 1;
      assert notes[..index + 1][..index] == notes[..index];
      if !IsReroute(notes[index]) {
        continue;
      }
      var matched := MatchSource(notes[index]);
      if matched.Some? {
        return matched;
      }
    }
    return None;
  }

  /** After a reroute whose note is new, the log names the adapter rerouted from, whatever came before. */
  lemma SourceAfterReroute(notes: seq<string>, from: string, to: string, at: string)
    requires CleanLog(notes) && RerouteNote(from, to, at) !in notes
    requires from != "" && to != "" && OneLine(from) && OneLine(to) && NoBlank(to) && NoBlank(at)
    ensures LastRerouteSource(WithNote(notes, RerouteNote(from, to, at))) == Some(from)
  {
    RerouteNoteRoundTrip(from, to, at);
    WithNoteOnClean(notes, RerouteNote(from, to, at));
  }
}
