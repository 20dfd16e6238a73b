/** Session preferences, kept twice: as current metadata and as journal events with previous values. */
module Preferences {
  import opened Options
  import opened Sessions

  datatype Preference = OutputStyle | PermissionMode | ResponseLanguage

  function KeyName(p: Preference): string {
    match p
    case OutputStyle => "outputStyle"
    case PermissionMode => "permissionMode"
    case ResponseLanguage => "responseLanguage"
  }

  function EventType(p: Preference): string {
    match p
    case OutputStyle => "control.output_style"
    case PermissionMode => "control.permission_mode"
    case ResponseLanguage => "control.response_language"
  }

  function ValueField(p: Preference): string {
    match p case OutputStyle => "style" case PermissionMode => "mode" case ResponseLanguage => "language"
  }

  function PreviousField(p: Preference): string {
    match p
    case OutputStyle => "previousStyle"
    case PermissionMode => "previousMode"
    case ResponseLanguage => "previousLanguage"
  }

  // ----- metadata -----

  function PreferencesIn(metadata: Json): map<string, Json> {
    var fields := FieldsOf(metadata);
    if "preferences" in fields then FieldsOf(fields["preferences"]) else map[]
  }

  function PreferenceOf(metadata: Json, p: Preference): Option<string> {
    ReadString(PreferencesIn(metadata), KeyName(p))
  }

  function WithPreference(metadata: Json, p: Preference, value: string): Json {
    Obj(FieldsOf(metadata)["preferences" := Obj(PreferencesIn(metadata)[KeyName(p) := Str(value)])])
  }

  // ----- guidance -----

  datatype Guidance = Guidance(
    outputStyle: Option<string>,
    permissionMode: Option<string>,
    responseLanguage: Option<string>)
  {
    function Get(p: Preference): Option<string> {
      match p
      case OutputStyle => outputStyle
      case PermissionMode => permissionMode
      case ResponseLanguage => responseLanguage
    }
  }

  const NO_GUIDANCE := Guidance(None, None, None)

  /** Absent when no preference is set. */
  function SessionGuidance(metadata: Json): Option<Guidance> {
    var g := Guidance(
      PreferenceOf(metadata, OutputStyle),
      PreferenceOf(metadata, PermissionMode),
      PreferenceOf(metadata, ResponseLanguage));
    if g == NO_GUIDANCE then None else Some(g)
  }

  function StrJson(value: Option<string>): Option<Json> {
    if value.Some? then Some(Str(value.value)) else None
  }

  function GuidanceJson(g: Guidance): Json {
    Obj(WithOptional(
      WithOptional(
        WithOptional(map[], "outputStyle", StrJson(g.outputStyle)),
        "permissionMode", StrJson(g.permissionMode)),
      "responseLanguage", StrJson(g.responseLanguage)))
  }

  datatype Source = SessionOverride | RuntimeDefault

  /** The configured defaults, overlaid by what the session sets. */
  function EffectiveValue(defaults: Preference -> string, g: Option<Guidance>, p: Preference): string {
    if g.Some? && g.value.Get(p).Some? then g.value.Get(p).value else defaults(p)
  }

  function EffectiveSource(g: Option<Guidance>, p: Preference): Source {
    if g.Some? && g.value.Get(p).Some? then SessionOverride else RuntimeDefault
  }

  // ----- events -----

  function PreferenceEvent(p: Preference, value: string, previous: Option<string>, g: Option<Guidance>, now: int): Event {
    Event(
      EventType(p),
      Obj(WithOptional(
        WithOptional(map[], PreviousField(p), StrJson(previous))[ValueField(p) := Str(value)],
        "sessionGuidance", if g.Some? then Some(GuidanceJson(g.value)) else None)),
      now)
  }

  datatype ControlSummary = ControlSummary(action: Preference, value: string, previous: Option<string>)

  function DecodeAs(event: Event, p: Preference): Option<ControlSummary> {
    var payload := FieldsOf(event.payload);
    var value := ReadString(payload, ValueField(p));
    if event.eventType == EventType(p) && value.Some?
    then Some(ControlSummary(p, value.value, ReadString(payload, PreviousField(p))))
    else None
  }

  /** One turn of the reader's loop: the three event types in order. */
  function Decode(event: Event): Option<ControlSummary> {
    var style := DecodeAs(event, OutputStyle);
    if style.Some? then style
    else
      var mode := DecodeAs(event, PermissionMode);
      if mode.Some? then mode else DecodeAs(event, ResponseLanguage)
  }

  /** The last event that is a preference event. */
  function Latest(journal: seq<Event>): Option<ControlSummary> {
    if journal == [] then None
    else if Decode(journal[|journal| - 1]).Some? then Decode(journal[|journal| - 1])
    else Latest(journal[..|journal| - 1])
  }

  method ReadLatestGuidanceControlSummary(journal: seq<Event>) returns (summary: Option<ControlSummary>)
    ensures summary == Latest(journal)
    ensures summary.Some? ==>
              exists i :: 0 <= i < |journal| && Decode(journal[i]) == summary
                          && forall j :: i < j < |journal| ==> Decode(journal[j]) == None
    ensures summary.None? ==> forall j :: 0 <= j < |journal| ==> Decode(journal[j]) == None
  {
    hide Decode;
    var index := |journal|;
    assert journal[..index] == journal;
    while index > 0
      invariant 0 <= index <= |journal|
      invariant forall j :: index <= j < |journal| ==> Decode(journal[j]) == None
      invariant Latest(journal) == Latest(journal[..index])
    {
      index := index - 1;
      assert journal[..index + 1][..index] == journal[..index];
      if Decode(journal[index]).Some? {
        return Decode(journal[index]);
      }
    }
    return None;
  }

  // ----- the operation -----

  function Updated(session: Session, p: Preference, value: string, now: int): Session {
    var metadata := WithPreference(session.metadata, p, value);
    var event := PreferenceEvent(p, value, PreferenceOf(session.metadata, p), SessionGuidance(metadata), now);
    Session(metadata, session.journal + [event])
  }

  method UpdateSessionPreference(store: SessionStore, sessionId: string, p: Preference, value: string, now: int)
    returns (metadata: Json, previous: Option<string>, guidance: Option<Guidance>)
    modifies store
    ensures var before := SessionAt(old(store.sessions), sessionId);
            && store.sessions == old(store.sessions)[sessionId := Updated(before, p, value, now)]
            && metadata == WithPreference(before.metadata, p, value)
            && previous == PreferenceOf(before.metadata, p)
            && guidance == SessionGuidance(metadata)
  {
    var session := store.EnsureSession(sessionId);
    var preferences := PreferencesIn(session.metadata);
    previous := ReadString(preferences, KeyName(p));
    var updated := store.UpdateMetadata(
      sessionId, Obj(FieldsOf(session.metadata)["preferences" := Obj(preferences[KeyName(p) := Str(value)])]));
    metadata := updated.metadata;
    guidance := SessionGuidance(metadata);
    store.AppendJournal(sessionId, PreferenceEvent(p, value, previous, guidance, now));
  }

  // ----- laws of one update -----

  lemma SetThenGet(metadata: Json, p: Preference, value: string, q: Preference)
    ensures PreferenceOf(WithPreference(metadata, p, value), q)
            == if q == p then Some(value) else PreferenceOf(metadata, q)
  {
    KeysDiffer(p, q);
  }

  lemma KeysDiffer(p: Preference, q: Preference)
    ensures p != q ==> KeyName(p) != KeyName(q) && EventType(p) != EventType(q)
    ensures ValueField(p) != PreviousField(q) && ValueField(p) != "sessionGuidance" && PreviousField(p) != "sessionGuidance"
  {
    assert |KeyName(p)| == match p case OutputStyle => 11 case PermissionMode => 14 case ResponseLanguage => 16;
    assert |KeyName(q)| == match q case OutputStyle => 11 case PermissionMode => 14 case ResponseLanguage => 16;
    assert |EventType(p)| == match p case OutputStyle => 20 case PermissionMode => 23 case ResponseLanguage => 25;
    assert |EventType(q)| == match q case OutputStyle => 20 case PermissionMode => 23 case ResponseLanguage => 25;
    assert |ValueField(p)| <= 8 < 12 <= |PreviousField(q)|;
    assert PreviousField(p)[0] == 'p';
  }

  /** What is written to the journal is what the reader decodes. */
  lemma EventRoundTrip(p: Preference, value: string, previous: Option<string>, g: Option<Guidance>, now: int)
    ensures Decode(PreferenceEvent(p, value, previous, g, now)) == Some(ControlSummary(p, value, previous))
  {
    forall q ensures q != p ==> DecodeAs(PreferenceEvent(p, value, previous, g, now), q) == None {
      KeysDiffer(q, p);
    }
    DecodeOwn(p, value, previous, g, now);
  }

  lemma DecodeOwn(p: Preference, value: string, previous: Option<string>, g: Option<Guidance>, now: int)
    ensures DecodeAs(PreferenceEvent(p, value, previous, g, now), p) == Some(ControlSummary(p, value, previous))
  {
    KeysDiffer(p, p);
    hide KeyName, EventType, ValueField, PreviousField, GuidanceJson;
  }

  /** Reading the journalled guidance gives back each preference, and there is none to read exactly when no
      preference is set. */
  lemma GuidanceReadsBack(
    p: Preference, value: string, previous: Option<string>, g: Option<Guidance>, now: int, q: Preference)
    ensures var fields := FieldsOf(PreferenceEvent(p, value, previous, g, now).payload);
            && ("sessionGuidance" in fields <==> g.Some?)
            && (g.Some? ==> ReadString(FieldsOf(fields["sessionGuidance"]), KeyName(q)) == g.value.Get(q))
  {
    KeysDiffer(p, q);
    KeysDiffer(p, p);
    if g.Some? {
      FieldReadsBack(g.value, q);
    }
    hide GuidanceJson, KeyName;
  }

  lemma FieldReadsBack(g: Guidance, q: Preference)
    ensures ReadString(FieldsOf(GuidanceJson(g)), KeyName(q)) == g.Get(q)
  {
    KeysDiffer(OutputStyle, PermissionMode);
    KeysDiffer(OutputStyle, ResponseLanguage);
    KeysDiffer(PermissionMode, ResponseLanguage);
  }

  /** The guidance an update journals is the metadata it leaves: each preference, the one just set included. */
  lemma JournalledGuidance(session: Session, p: Preference, value: string, now: int, q: Preference)
    ensures var after := Updated(session, p, value, now);
            var fields := FieldsOf(after.journal[|session.journal|].payload);
            && "sessionGuidance" in fields
            && ReadString(FieldsOf(fields["sessionGuidance"]), KeyName(q))
               == (if q == p then Some(value) else PreferenceOf(session.metadata, q))
  {
    var metadata := WithPreference(session.metadata, p, value);
    var g := SessionGuidance(metadata);
    SetThenGet(session.metadata, p, value, p);
    SetThenGet(session.metadata, p, value, q);
    assert g.Some? && g.value.Get(q) == PreferenceOf(metadata, q);
    GuidanceReadsBack(p, value, PreferenceOf(session.metadata, p), g, now, q);
    hide PreferenceOf, WithPreference, PreferenceEvent, SessionGuidance, KeyName;
  }

  // ----- runs -----

  datatype Op =
    | SetPreference(p: Preference, value: string, now: int)
    | OtherMetadata(metadata: Json)
    | OtherEvent(event: Event)

  /** Other writers leave the preferences alone and journal under other event types. */
  ghost predicate Allowed(s: Session, op: Op) {
    match op
    case SetPreference(_, _, _) => true
    case OtherMetadata(metadata) => PreferencesIn(metadata) == PreferencesIn(s.metadata)
    case OtherEvent(event) => forall p :: event.eventType != EventType(p)
  }

  function Step(s: Session, op: Op): Session {
    match op
    case SetPreference(p, value, now) => Updated(s, p, value, now)
    case OtherMetadata(metadata) => s.(metadata := metadata)
    case OtherEvent(event) => s.(journal := s.journal + [event])
  }

  ghost predicate RunAllowed(s: Session, ops: seq<Op>)
    decreases |ops|
  {
    ops != [] ==> Allowed(s, ops[0]) && RunAllowed(Step(s, ops[0]), ops[1..])
  }

  function Run(s: Session, ops: seq<Op>): Session
    decreases |ops|
  {
    if ops == [] then s else Run(Step(s, ops[0]), ops[1..])
  }

  /** The preference the journal alone tells, given the value before the journal began. */
  function Folded(initial: Option<string>, journal: seq<Event>, p: Preference): Option<string> {
    if journal == [] then initial
    else
      var last := Decode(journal[|journal| - 1]);
      if last.Some? && last.value.action == p then Some(last.value.value)
      else Folded(initial, journal[..|journal| - 1], p)
  }

  /** Every event carries the value it replaced. */
  ghost predicate Chained(start: Json, journal: seq<Event>) {
    forall i :: 0 <= i < |journal| && Decode(journal[i]).Some? ==>
      var e := Decode(journal[i]).value;
      e.previous == Folded(PreferenceOf(start, e.action), journal[..i], e.action)
  }

  /** Metadata and journal tell the same story. */
  ghost predicate Agree(start: Json, s: Session) {
    && (forall p :: PreferenceOf(s.metadata, p) == Folded(PreferenceOf(start, p), s.journal, p))
    && Chained(start, s.journal)
  }

  lemma FoldedAppend(initial: Option<string>, journal: seq<Event>, event: Event, p: Preference)
    ensures Folded(initial, journal + [event], p)
            == if Decode(event).Some? && Decode(event).value.action == p then Some(Decode(event).value.value)
               else Folded(initial, journal, p)
  {
    assert (journal + [event])[..|journal|] == journal;
  }

  lemma ChainedAppend(start: Json, journal: seq<Event>, event: Event)
    requires Chained(start, journal)
    requires Decode(event).Some? ==>
               var e := Decode(event).value;
               e.previous == Folded(PreferenceOf(start, e.action), journal, e.action)
    ensures Chained(start, journal + [event])
  {
    hide Decode, Folded, PreferenceOf;
    assert forall i :: 0 <= i <= |journal| ==> (journal + [event])[..i] == journal[..i];
    assert journal[..|journal|] == journal;
  }

  lemma StepAgrees(start: Json, s: Session, op: Op)
    requires Agree(start, s) && Allowed(s, op)
    ensures Agree(start, Step(s, op))
  {
    match op
    case SetPreference(p, value, now) =>
      var s' := Updated(s, p, value, now);
      var event := PreferenceEvent(p, value, PreferenceOf(s.metadata, p), SessionGuidance(s'.metadata), now);
      EventRoundTrip(p, value, PreferenceOf(s.metadata, p), SessionGuidance(s'.metadata), now);
      ChainedAppend(start, s.journal, event);
      forall q ensures PreferenceOf(s'.metadata, q) == Folded(PreferenceOf(start, q), s'.journal, q) {
        SetThenGet(s.metadata, p, value, q);
        FoldedAppend(PreferenceOf(start, q), s.journal, event, q);
      }
    case OtherMetadata(_) =>
    case OtherEvent(event) =>
      assert Decode(event) == None;
      ChainedAppend(start, s.journal, event);
      forall q ensures PreferenceOf(s.metadata, q) == Folded(PreferenceOf(start, q), s.journal + [event], q) {
        FoldedAppend(PreferenceOf(start, q), s.journal, event, q);
      }
  }

  /** On every run that starts with an empty journal, whatever the starting metadata. */
  lemma {:induction false} RunAgrees(start: Json, s: Session, ops: seq<Op>)
    requires Agree(start, s) && RunAllowed(s, ops)
    ensures Agree(start, Run(s, ops))
    decreases |ops|
  {
    if ops != [] {
      StepAgrees(start, s, ops[0]);
      RunAgrees(start, Step(s, ops[0]), ops[1..]);
    }
  }

  lemma {:induction false} LatestIsCurrent(initial: Option<string>, journal: seq<Event>)
    requires Latest(journal).Some?
    ensures Folded(initial, journal, Latest(journal).value.action) == Some(Latest(journal).value.value)
  {
    if Decode(journal[|journal| - 1]).None? {
      LatestIsCurrent(initial, journal[..|journal| - 1]);
    }
  }

  /** Whether an event of this kind is in the journal. */
  ghost predicate Mentions(journal: seq<Event>, p: Preference) {
    exists j :: 0 <= j < |journal| && Decode(journal[j]).Some? && Decode(journal[j]).value.action == p
  }

  lemma {:induction false} FoldedAbsentIff(journal: seq<Event>, p: Preference)
    ensures Folded(None, journal, p) == None <==> !Mentions(journal, p)
  {
    hide Decode;
    if journal != [] {
      var front, last := journal[..|journal| - 1], Decode(journal[|journal| - 1]);
      FoldedAbsentIff(front, p);
      if Mentions(front, p) {
        var j :| 0 <= j < |front| && Decode(front[j]).Some? && Decode(front[j]).value.action == p;
        assert Decode(journal[j]).Some?;
      }
    }
  }

  /** A fresh session, after any run: the journal alone reproduces the metadata, an event has no
      previous value exactly when no event of its kind came before, the reader returns the current
      value, and the effective setting is the last one set or the configured default. */
  lemma PreferencesOverRuns(ops: seq<Op>, p: Preference, defaults: Preference -> string)
    requires RunAllowed(EMPTY_SESSION, ops)
    ensures var s := Run(EMPTY_SESSION, ops);
            && PreferenceOf(s.metadata, p) == Folded(None, s.journal, p)
            && (forall i :: 0 <= i < |s.journal| && Decode(s.journal[i]).Some? ==>
                  var e := Decode(s.journal[i]).value;
                  && e.previous == Folded(None, s.journal[..i], e.action)
                  && (e.previous == None <==> !Mentions(s.journal[..i], e.action)))
            && (Latest(s.journal).Some? ==>
                  PreferenceOf(s.metadata, Latest(s.journal).value.action) == Some(Latest(s.journal).value.value))
            && EffectiveValue(defaults, SessionGuidance(s.metadata), p)
               == (if Folded(None, s.journal, p).Some? then Folded(None, s.journal, p).value else defaults(p))
            && (EffectiveSource(SessionGuidance(s.metadata), p) == SessionOverride
                <==> Folded(None, s.journal, p) != None)
  {
    var s := Run(EMPTY_SESSION, ops);
    assert PreferencesIn(EMPTY_SESSION.metadata) == map[];
    RunAgrees(EMPTY_SESSION.metadata, EMPTY_SESSION, ops);
    hide Decode, Folded, Latest;
    if Latest(s.journal).Some? {
      LatestIsCurrent(None, s.journal);
    }
    forall i, q: Preference | 0 <= i < |s.journal|
      ensures Folded(None, s.journal[..i], q) == None <==> !Mentions(s.journal[..i], q)
    {
      FoldedAbsentIff(s.journal[..i], q);
    }
  }
}
