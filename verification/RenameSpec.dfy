// Rename corroboration as a value: the critical sections of
// internal/service/rename_corroboration.go, with the runtime's timers beside them.
module RenameSpec {
  import opened Fleet

  /** Sixty minutes, in milliseconds. */
  const RENAME_WINDOW: nat := 60 * 60 * 1000

  datatype RenameKey = RenameKey(machine: MachineId, to: string)

  /** One pending rename. timer names its deadline timer and thereby the watch itself. */
  datatype Watch = Watch(from: string, startedAt: Option<Time>, sawFromRecreated: bool, gapObserved: bool,
                         resolved: bool, timer: nat)

  datatype Timer = Timer(key: RenameKey, due: Time)

  /** armed timers can still be stopped; fired ones have a callback under way that cannot. */
  datatype Plane = Plane(window: nat, pending: map<RenameKey, Watch>,
                         armed: map<nat, Timer>, fired: map<nat, Timer>, nextTimer: nat)

  function InitialPlane(window: nat): Plane
  {
    Plane(window, map[], map[], map[], 0)
  }

  // ---- what an event says -------------------------------------------------

  /** The old identity is back: same machine, same id, same startedAt. */
  predicate IsRecreation(ev: Event, machine: MachineId, from: string, startedAt: Option<Time>)
  {
    && ev.kind == SessionCreated && ev.payload.SessionPayload?
    && ev.machine == machine && ev.payload.id == from
    && SameStart(startedAt, ev.payload.startedAt)
  }

  predicate IsClose(ev: Event, key: RenameKey)
  {
    && ev.kind == SessionClosed && ev.payload.StatePayload?
    && ev.machine == key.machine && ev.payload.ref == key.to
  }

  /** This machine's feed had a hole. */
  predicate IsGap(ev: Event, machine: MachineId)
  {
    && ev.machine == machine
    && ((ev.kind == SourceStatus && ev.payload.StatusPayload? && ev.payload.status == SourceDegraded)
        || ev.kind == ControlResync)
  }

  function RenameEvent(key: RenameKey, from: string, startedAt: Option<Time>, verdict: RenameVerdict): Event
  {
    Unstamped(key.machine, SessionRenamed, RenamedPayload(key.machine, from, key.to, startedAt, verdict))
  }

  // ---- critical sections --------------------------------------------------

  predicate Watchable(from: string, to: string)
  {
    from != "" && to != "" && from != to
  }

  function WatchRename(p: Plane, key: RenameKey, from: string, startedAt: Option<Time>, now: Time): Plane
  {
    if !Watchable(from, key.to) then p else
    var armed := if key in p.pending then p.armed - {p.pending[key].timer} else p.armed;
    p.(pending := p.pending[key := Watch(from, startedAt, false, false, false, p.nextTimer)],
       armed := armed[p.nextTimer := Timer(key, now + p.window)],
       nextTimer := p.nextTimer + 1)
  }

  lemma Watching(p: Plane, key: RenameKey, from: string, startedAt: Option<Time>, now: Time)
    requires Watchable(from, key.to)
    ensures WatchRename(p, key, from, startedAt, now)
         == (var armed := if key in p.pending then p.armed - {p.pending[key].timer} else p.armed;
             Plane(p.window, p.pending[key := Watch(from, startedAt, false, false, false, p.nextTimer)],
                   armed[p.nextTimer := Timer(key, now + p.window)], p.fired, p.nextTimer + 1))
  {
  }

  /** finalizeRenameLocked: the watch is over, its timer is stopped. */
  function Finalize(p: Plane, key: RenameKey): Plane
    requires key in p.pending
  {
    p.(pending := p.pending[key := p.pending[key].(resolved := true)],
       armed := p.armed - {p.pending[key].timer})
  }

  predicate Undecided(p: Plane, key: RenameKey)
  {
    key in p.pending && !p.pending[key].resolved
  }

  /** The deadline's verdict on the watch the key names now. */
  function DeadlineVerdict(w: Watch): RenameVerdict
  {
    if w.gapObserved then RenameUnconfirmed else RenameCorroborated
  }

  /** A close's verdict. Feed gaps play no part in it. */
  function CloseVerdict(w: Watch): RenameVerdict
  {
    if w.sawFromRecreated then RenameContested else RenameUnconfirmed
  }

  function VerdictEvent(p: Plane, key: RenameKey, verdict: RenameVerdict): Event
    requires key in p.pending
  {
    RenameEvent(key, p.pending[key].from, p.pending[key].startedAt, verdict)
  }

  function MarkRecreated(p: Plane, ev: Event): Plane
  {
    p.(pending := map key | key in p.pending :: MarkedRecreated(key, p.pending[key], ev))
  }

  function MarkedRecreated(key: RenameKey, w: Watch, ev: Event): Watch
  {
    if !w.resolved && !w.sawFromRecreated && IsRecreation(ev, key.machine, w.from, w.startedAt)
    then w.(sawFromRecreated := true) else w
  }

  function MarkGap(p: Plane, machine: MachineId): Plane
  {
    p.(pending := map key | key in p.pending :: MarkedGap(key, p.pending[key], machine))
  }

  function MarkedGap(key: RenameKey, w: Watch, machine: MachineId): Watch
  {
    if key.machine == machine && !w.resolved then w.(gapObserved := true) else w
  }

  function CloseKey(ev: Event): RenameKey
    requires ev.payload.StatePayload?
  {
    RenameKey(ev.machine, ev.payload.ref)
  }

  predicate ClosesWatch(p: Plane, ev: Event)
  {
    ev.kind == SessionClosed && ev.payload.StatePayload? && Undecided(p, CloseKey(ev))
  }

  function Observe(p: Plane, ev: Event): Plane
  {
    if ev.kind == SessionCreated && ev.payload.SessionPayload? then MarkRecreated(p, ev)
    else if ClosesWatch(p, ev) then Finalize(p, CloseKey(ev))
    else if IsGap(ev, ev.machine) then MarkGap(p, ev.machine)
    else p
  }

  /** The events observing ev gives rise to: at most one verdict. */
  function FollowUps(p: Plane, ev: Event): seq<Event>
  {
    if ClosesWatch(p, ev)
    then [VerdictEvent(p, CloseKey(ev), CloseVerdict(p.pending[CloseKey(ev)]))]
    else []
  }

  // ---- timers -------------------------------------------------------------

  function Expire(p: Plane, t: nat): Plane
    requires t in p.armed
  {
    p.(armed := p.armed - {t}, fired := p.fired[t := p.armed[t]])
  }

  /** resolveRenameWindow, run by timer t's callback: it looks its watch up by key. */
  function Callback(p: Plane, t: nat): Plane
    requires t in p.fired
  {
    var q := p.(fired := p.fired - {t});
    if Undecided(p, p.fired[t].key) then Finalize(q, p.fired[t].key) else q
  }
}
