// The vocabulary every part of the service shares: events, sessions, and the
// filter a subscriber narrows its feed with. Instants are integers.
module Fleet {

  datatype Option<+T> = None | Some(value: T)

  type MachineId = string
  type RuntimeId = string
  type Time = int

  /** Two sightings of one run: never on the id alone, and either side unknown means no. */
  predicate SameStart(a: Option<Time>, b: Option<Time>)
  {
    a.Some? && b.Some? && a.value == b.value
  }

  datatype Scope = ScopeLocal | ScopeFleet

  datatype EventKind =
    | SessionCreated
    | SessionState
    | SessionClosed
    | SessionRenamed
    | SessionLabels
    | SourceStatus
    | MachineQuota
    | MachineAccount
    | ControlResync

  datatype SourceState = SourceOk | SourceUnreachable | SourceUnauthorized | SourceDegraded

  datatype ResyncReason = EpochChanged | CursorExpired | FeedGap

  datatype RenameVerdict = RenameAccepted | RenameCorroborated | RenameContested | RenameUnconfirmed

  /** An event's payload. Its shape is independent of the event's kind, as it is on the wire. */
  datatype Payload =
    | SessionPayload(id: string, cwd: string, startedAt: Option<Time>)
    | StatePayload(ref: string)
    | LabelsPayload(labelled: string)
    | RenamedPayload(machine: MachineId, from: string, to: string, since: Option<Time>, verdict: RenameVerdict)
    | StatusPayload(source: MachineId, status: SourceState)
    | ResyncPayload(reason: ResyncReason)
    | OtherPayload

  datatype Event = Event(cursor: int, epoch: string, machine: MachineId, kind: EventKind, payload: Payload)

  /** What a driver or a handler hands to the hub: not yet stamped. */
  function Unstamped(machine: MachineId, kind: EventKind, payload: Payload): Event
  {
    Event(0, "", machine, kind, payload)
  }

  /** Both fields narrow, and they compose with AND; the zero value admits everything. */
  datatype SubscribeFilter = SubscribeFilter(sessions: seq<string>, cwdPrefix: string) {
    predicate Matches(id: string, cwd: string)
    {
      && (cwdPrefix != "" ==> cwdPrefix <= cwd)
      && (sessions != [] ==> id in sessions)
    }
  }

  const EVERYTHING := SubscribeFilter([], "")

  function EventTarget(ev: Event): (string, string)
  {
    match ev.payload
    case SessionPayload(id, cwd, _) => (id, cwd)
    case StatePayload(ref) => (ref, "")
    case LabelsPayload(labelled) => (labelled, "")
    case _ => ("", "")
  }

  /** A subscriber's filter applied to a stamped event. */
  predicate MatchesEvent(f: SubscribeFilter, ev: Event)
  {
    if ev.kind == ControlResync || ev.kind == SourceStatus then true
    else
      var (id, cwd) := EventTarget(ev);
      id == "" || f.Matches(id, cwd)
  }

  /** What a filter admits, read off the event: a control event and an event about no session always, and an event
      about a session exactly when the filter names that session, or names none, and the session is known to be in the
      filter's directory. Only a session's own payload knows its directory. */
  lemma FilterAdmits(f: SubscribeFilter, ev: Event)
    ensures MatchesEvent(f, ev) <==>
              || ev.kind == ControlResync || ev.kind == SourceStatus
              || match ev.payload
                 case SessionPayload(id, cwd, _) => id == "" || ((f.sessions == [] || id in f.sessions) && f.cwdPrefix <= cwd)
                 case StatePayload(ref) => ref == "" || ((f.sessions == [] || ref in f.sessions) && f.cwdPrefix == "")
                 case LabelsPayload(id) => id == "" || ((f.sessions == [] || id in f.sessions) && f.cwdPrefix == "")
                 case RenamedPayload(_, _, _, _, _) => true
                 case StatusPayload(_, _) => true
                 case ResyncPayload(_) => true
                 case OtherPayload => true
  {
  }

  /** A session's state, close and label events carry no directory, so a filter on one never admits them:
      its subscriber is told of sessions created there and not of their ends. */
  lemma DirectoryFilterAdmitsCreationsOnly(f: SubscribeFilter, ev: Event)
    requires f.cwdPrefix != "" && ev.kind != ControlResync && ev.kind != SourceStatus
    ensures ev.payload.StatePayload? && ev.payload.ref != "" ==> !MatchesEvent(f, ev)
    ensures ev.payload.LabelsPayload? && ev.payload.labelled != "" ==> !MatchesEvent(f, ev)
    ensures ev.payload.SessionPayload? && ev.payload.id != "" ==>
              (MatchesEvent(f, ev) <==> f.cwdPrefix <= ev.payload.cwd && (f.sessions == [] || ev.payload.id in f.sessions))
  {
  }
}
