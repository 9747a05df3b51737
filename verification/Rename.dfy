// Rename corroboration in the source's own form: a map of pending watches whose flags
// are set in place, guarded by a lock of its own.
module Rename {
  import opened Fleet
  import opened RenameSpec

  /** What the plane still needs to learn about one rename. */
  class PendingRename {
    const from: string
    const startedAt: Option<Time>
    const timer: nat
    const key: RenameKey
    var sawFromRecreated: bool
    var gapObserved: bool
    var resolved: bool

    ghost function View(): Watch
      reads this
    {
      Watch(from, startedAt, sawFromRecreated, gapObserved, resolved, timer)
    }

    constructor (key: RenameKey, from: string, startedAt: Option<Time>, timer: nat)
      ensures this.key == key
      ensures View() == Watch(from, startedAt, false, false, false, timer)
    {
      this.key, this.from, this.startedAt, this.timer := key, from, startedAt, timer;
      sawFromRecreated, gapObserved, resolved := false, false, false;
    }
  }

  class RenamePlane {
    const window: nat
    var pending: map<RenameKey, PendingRename>
    // the runtime's timers
    var armed: map<nat, Timer>
    var fired: map<nat, Timer>
    var nextTimer: nat

    ghost predicate Valid()
      reads this, pending.Values
    {
      forall key :: key in pending ==> pending[key].key == key
    }

    ghost function View(): Plane
      reads this, pending.Values
    {
      Plane(window, map key | key in pending :: pending[key].View(), armed, fired, nextTimer)
    }

    constructor (window: nat)
      ensures Valid() && View() == InitialPlane(window)
      ensures pending == map[]
    {
      this.window := window;
      pending, armed, fired, nextTimer := map[], map[], map[], 0;
    }

    method WatchRename(machine: MachineId, from: string, to: string, startedAt: Option<Time>, now: Time)
      requires Valid()
      modifies this
      ensures Valid() && View() == RenameSpec.WatchRename(old(View()), RenameKey(machine, to), from, startedAt, now)
      ensures forall p :: p in pending.Values ==> p in old(pending.Values) || fresh(p)
    {
      if from == "" || to == "" || from == to {
        return;
      }
      ghost var before := View();
      var p := new PendingRename(RenameKey(machine, to), from, startedAt, nextTimer);
      assert View() == before;
      hide View;
      Track(p, now);
    }

    /** The new watch replaces its key's current one, whose timer is stopped. */
    method Track(p: PendingRename, now: Time)
      requires Valid() && p.timer == nextTimer && Watchable(p.from, p.key.to)
      requires p.View() == Watch(p.from, p.startedAt, false, false, false, p.timer)
      modifies this
      ensures Valid() && View() == RenameSpec.WatchRename(old(View()), p.key, p.from, p.startedAt, now)
      ensures pending == old(pending)[p.key := p]
    {
      ghost var before := View();
      var rest := if p.key in pending then armed - {pending[p.key].timer} else armed;
      pending, armed, nextTimer := pending[p.key := p], rest[nextTimer := Timer(p.key, now + window)], nextTimer + 1;
      Tracked(before, p);
      hide *;
      Watching(before, p.key, p.from, p.startedAt, now);
    }

    lemma Tracked(before: Plane, p: PendingRename)
      requires p.key in pending && pending[p.key] == p
      requires before.pending.Keys + {p.key} == pending.Keys
      requires forall key :: key in pending && key != p.key ==> before.pending[key] == pending[key].View()
      ensures View() == Plane(window, before.pending[p.key := p.View()], armed, fired, nextTimer)
    {
    }

    method FinalizeLocked(key: RenameKey, verdict: RenameVerdict) returns (ev: Event)
      requires Valid() && key in pending
      modifies this, pending[key]
      ensures Valid() && View() == Finalize(old(View()), key)
      ensures ev == VerdictEvent(old(View()), key, verdict)
      ensures pending == old(pending) && pending[key].resolved && pending[key].timer !in armed
    {
      ghost var before := View();
      var p := pending[key];
      p.resolved := true;
      armed := armed - {p.timer};
      assert View().pending == before.pending[key := before.pending[key].(resolved := true)];
      ev := RenameEvent(key, p.from, p.startedAt, verdict);
    }

    /** Timer t's callback. */
    method ResolveWindow(t: nat) returns (ev: Option<Event>)
      requires Valid() && t in fired
      modifies this, pending.Values
      ensures Valid() && View() == Callback(old(View()), t)
      ensures var p, key := old(View()), old(fired[t].key);
              ev == if Undecided(p, key) then Some(VerdictEvent(p, key, DeadlineVerdict(p.pending[key]))) else None
      ensures pending == old(pending)
    {
      var key := fired[t].key;
      fired := fired - {t};
      if key !in pending || pending[key].resolved {
        return None;
      }
      var verdict := if pending[key].gapObserved then RenameUnconfirmed else RenameCorroborated;
      var e := FinalizeLocked(key, verdict);
      ev := Some(e);
    }

    method MarkRecreated(ev: Event)
      requires Valid() && ev.kind == SessionCreated && ev.payload.SessionPayload?
      modifies pending.Values
      ensures Valid() && View() == RenameSpec.MarkRecreated(old(View()), ev)
      ensures forall key :: key in pending ==>
        (pending[key].sawFromRecreated <==>
           || old(pending[key].sawFromRecreated)
           || (key.machine == ev.machine && !pending[key].resolved && pending[key].from == ev.payload.id
               && pending[key].startedAt.Some? && pending[key].startedAt == ev.payload.startedAt))
    {
      var todo := pending.Keys;
      while todo != {}
        invariant todo <= pending.Keys && pending == old(pending) && Valid()
        invariant forall key :: key in pending ==>
          pending[key].View() == if key in todo then old(pending[key].View())
                                 else MarkedRecreated(key, old(pending[key].View()), ev)
      {
        var key :| key in todo;
        var p := pending[key];
        if key.machine == ev.machine && !p.resolved && !p.sawFromRecreated {
          if ev.payload.id == p.from && SameStart(p.startedAt, ev.payload.startedAt) {
            p.sawFromRecreated := true;
          }
        }
        todo := todo - {key};
      }
    }

    method MarkGap(machine: MachineId)
      requires Valid()
      modifies pending.Values
      ensures Valid() && View() == RenameSpec.MarkGap(old(View()), machine)
      ensures forall key :: key in pending ==>
        (pending[key].gapObserved <==> old(pending[key].gapObserved) || (key.machine == machine && !pending[key].resolved))
    {
      var todo := pending.Keys;
      while todo != {}
        invariant todo <= pending.Keys && pending == old(pending) && Valid()
        invariant forall key :: key in pending ==>
          pending[key].View() == if key in todo then old(pending[key].View())
                                 else MarkedGap(key, old(pending[key].View()), machine)
      {
        var key :| key in todo;
        var p := pending[key];
        if key.machine == machine && !p.resolved {
          p.gapObserved := true;
        }
        todo := todo - {key};
      }
    }

    /** Called for every stamped event; returns the verdicts to publish. */
    method Observe(ev: Event) returns (followUps: seq<Event>)
      requires Valid()
      modifies this, pending.Values
      ensures Valid() && View() == RenameSpec.Observe(old(View()), ev)
      ensures followUps == FollowUps(old(View()), ev)
      ensures pending == old(pending)
    {
      followUps := [];
      match ev.kind {
        case SessionCreated =>
          if ev.payload.SessionPayload? {
            MarkRecreated(ev);
          }
        case SessionClosed =>
          if ev.payload.StatePayload? {
            var key := RenameKey(ev.machine, ev.payload.ref);
            if key in pending && !pending[key].resolved {
              var verdict := if pending[key].sawFromRecreated then RenameContested else RenameUnconfirmed;
              var e := FinalizeLocked(key, verdict);
              followUps := [e];
            }
          }
        case SourceStatus =>
          if ev.payload.StatusPayload? && ev.payload.status == SourceDegraded {
            MarkGap(ev.machine);
          }
        case ControlResync =>
          MarkGap(ev.machine);
        case _ =>
      }
    }
  }
}
