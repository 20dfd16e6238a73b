/** JSON values, journal events and the session store that holds metadata and journals. */
module Sessions {
  import opened Options

  datatype Json =
    | Null
    | Bool(flag: bool)
    | Num(number: int)
    | Str(text: string)
    | Arr(items: seq<Json>)
    | Obj(fields: map<string, Json>)

  /** `isRecord(value) ? { ...value } : {}`: anything but an object reads as the empty one. */
  function FieldsOf(value: Json): map<string, Json> {
    if value.Obj? then value.fields else map[]
  }

  /** `typeof fields[name] === "string" ? fields[name] : undefined` */
  function ReadString(fields: map<string, Json>, name: string): Option<string> {
    if name in fields && fields[name].Str? then Some(fields[name].text) else None
  }

  /** `...(value === undefined ? {} : { [name]: value })` */
  function WithOptional(fields: map<string, Json>, name: string, value: Option<Json>): map<string, Json> {
    if value.Some? then fields[name := value.value] else fields
  }

  datatype Event = Event(eventType: string, payload: Json, createdAt: int)

  datatype Session = Session(metadata: Json, journal: seq<Event>)

  const EMPTY_SESSION := Session(Obj(map[]), [])

  function SessionAt(sessions: map<string, Session>, id: string): Session {
    if id in sessions then sessions[id] else EMPTY_SESSION
  }

  function Appended(sessions: map<string, Session>, id: string, event: Event): map<string, Session> {
    var session := SessionAt(sessions, id);
    sessions[id := session.(journal := session.journal + [event])]
  }

  lemma AppendedAfterEnsure(sessions: map<string, Session>, id: string, event: Event)
    ensures Appended(sessions[id := SessionAt(sessions, id)], id, event) == Appended(sessions, id, event)
  {
  }

  class SessionStore {
    var sessions: map<string, Session>

    constructor ()
      ensures sessions == map[]
    {
      sessions := map[];
    }

    /** `getSession(id) ?? createSession({ sessionId: id })` */
    method EnsureSession(id: string) returns (session: Session)
      modifies this
      ensures session == SessionAt(old(sessions), id)
      ensures sessions == old(sessions)[id := session]
    {
      session := SessionAt(sessions, id);
      sessions := sessions[id := session];
    }

    method UpdateMetadata(id: string, metadata: Json) returns (session: Session)
      requires id in sessions
      modifies this
      ensures session == old(sessions)[id].(metadata := metadata)
      ensures sessions == old(sessions)[id := session]
    {
      session := sessions[id].(metadata := metadata);
      sessions := sessions[id := session];
    }

    method AppendJournal(id: string, event: Event)
      requires id in sessions
      modifies this
      ensures sessions == Appended(old(sessions), id, event)
    {
      sessions := sessions[id := sessions[id].(journal := sessions[id].journal + [event])];
    }
  }
}
