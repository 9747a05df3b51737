// The event hub in the source's own form: one cursor, a bounded ring, subscribers with
// bounded channels, and the rename plane that publish recurses through.
module Hub {
  import opened Fleet
  import opened RenameSpec
  import opened Seqs
  import HS = HubSpec
  import R = Rename

  class Subscriber {
    const id: nat
    const filter: SubscribeFilter
    const scope: Scope
    var ch: seq<Event>
    var dropped: bool
    ghost var joined: nat
    ghost var sent: seq<Event>

    ghost function View(): HS.Sub
      reads this
    {
      HS.Sub(filter, scope, ch, dropped, joined, sent)
    }

    constructor (id: nat, filter: SubscribeFilter, scope: Scope, ghost joined: nat)
      ensures this.id == id
      ensures View() == HS.Sub(filter, scope, [], false, joined, [])
      ensures this.filter == filter && this.scope == scope && ch == [] && !dropped
    {
      this.id, this.filter, this.scope := id, filter, scope;
      ch, dropped := [], false;
      this.joined, sent := joined, [];
    }

    /** One iteration of publish's fan-out: never block, mark instead. */
    method Offer(self: MachineId, ev: Event)
      modifies this
      ensures View() == HS.Deliver(self, old(View()), ev)
      ensures |old(ch)| < 64 ==> dropped == old(dropped)
      ensures |old(ch)| >= 64 ==> ch == old(ch)
    {
      if scope == ScopeLocal && ev.machine != "" && ev.machine != self {
        return;
      }
      if !MatchesEvent(filter, ev) {
        return;
      }
      if |ch| < HS.CHANNEL_CAP {
        ch := ch + [ev];
        sent := sent + [ev];
      } else {
        dropped := true;
      }
    }

    /** drainReady: take what is already queued, in order, without waiting. */
    method DrainReady(into: seq<Event>) returns (batch: seq<Event>)
      modifies this
      ensures batch == into + old(ch)
      ensures View() == old(View()).(queue := [])
    {
      batch := into;
      while ch != []
        invariant batch + ch == into + old(ch)
        invariant View() == old(View()).(queue := ch)
        decreases |ch|
      {
        var ev := ch[0];
        assert ch == [ev] + ch[1..];
        ch := ch[1..];
        batch := batch + [ev];
      }
    }
  }

  /** Publishing is recursive, and this is its meaning: stamp, let the rename plane observe, and
      publish the verdict that produced, which produces none itself. */
  ghost function Published(h: HS.HubState, p: Plane, ev: Event): (r: (HS.HubState, Plane))
  {
    var e := HS.Stamped(h, ev);
    var h', p', ups := HS.Stamp(h, ev), Observe(p, e), FollowUps(p, e);
    if ups == [] then (h', p') else (HS.Stamp(h', ups[0]), p')
  }

  /** Only a close asks for a verdict, and for one at most. */
  lemma PublishedIs(h: HS.HubState, p: Plane, ev: Event)
    ensures var e := HS.Stamped(h, ev);
            var ups := FollowUps(p, e);
            && |ups| <= 1 && (ups != [] ==> ev.kind == SessionClosed)
            && Published(h, p, ev)
                 == (if ups == [] then HS.Stamp(h, ev) else HS.Stamp(HS.Stamp(h, ev), ups[0]), Observe(p, e))
  {
  }

  /** A verdict is a rename event: observing it changes nothing and asks for nothing further. */
  lemma VerdictsAreFinal(p: Plane, ev: Event, up: Event, h: HS.HubState, p': Plane)
    requires up in FollowUps(p, ev)
    ensures up.kind == SessionRenamed
    ensures Published(h, p', up) == (HS.Stamp(h, up), p')
  {
    var e := HS.Stamped(h, up);
    assert e.kind == SessionRenamed;
    assert Observe(p', e) == p' && FollowUps(p', e) == [];
  }

  /** publish stamps its event, and right after the close of a watched session one verdict; the log only grows. What is
      stamped is what was published, with the next cursor and the epoch. */
  lemma PublishStampsOneOrTwo(h: HS.HubState, p: Plane, ev: Event)
    requires HS.Inv(h)
    ensures var (h', p') := Published(h, p, ev);
            && HS.Inv(h') && |h.log| < |h'.log| <= |h.log| + 2 && h.log <= h'.log
            && h'.log[|h.log|] == Event(h.cursor + 1, h.epoch, ev.machine, ev.kind, ev.payload)
            && (|h'.log| == |h.log| + 2 <==>
                  && ev.kind == SessionClosed && ev.payload.StatePayload?
                  && RenameKey(ev.machine, ev.payload.ref) in p.pending
                  && !p.pending[RenameKey(ev.machine, ev.payload.ref)].resolved)
            && (|h'.log| == |h.log| + 2 ==>
                  var w := p.pending[RenameKey(ev.machine, ev.payload.ref)];
                  h'.log[|h.log| + 1]
                    == Event(h.cursor + 2, h.epoch, ev.machine, SessionRenamed,
                             RenamedPayload(ev.machine, w.from, ev.payload.ref, w.startedAt,
                                            if w.sawFromRecreated then RenameContested else RenameUnconfirmed)))
  {
    HS.StampKeepsInv(h, ev);
    var e := HS.Stamped(h, ev);
    if FollowUps(p, e) != [] {
      HS.StampKeepsInv(HS.Stamp(h, ev), FollowUps(p, e)[0]);
    }
    hide HS.Inv, HS.FanOut, HS.Trim;
  }

  class Hub {
    const epoch: string
    const self: MachineId
    const retention: nat
    var cursor: nat
    var ring: seq<Event>
    var subs: map<int, Subscriber>
    var nextID: nat
    const rename: R.RenamePlane
    ghost var log: seq<Event>
    ghost const booted: nat

    /** The objects are where they belong. What their values keep is HubSpec.Inv: the constructors
        establish it, and every method below computes a function that preserves it. */
    ghost predicate Valid()
      reads this, subs.Values, rename, rename.pending.Values
    {
      rename.Valid() && Keyed()
    }

    ghost predicate Keyed()
      reads this
    {
      forall id :: id in subs ==> subs[id].id == id
    }

    lemma ValidIs()
      ensures Valid() <==> rename.Valid() && Keyed()
    {
    }

    ghost function View(): HS.HubState
      reads this, subs.Values
    {
      HS.HubState(epoch, self, retention, cursor, ring, map id | id in subs :: subs[id].View(), nextID, log, booted)
    }

    /** newHub. */
    constructor (self: MachineId, epoch: string)
      ensures Valid() && View() == HS.Initial(self, epoch)
      ensures retention == 512 && rename.window == 60 * 60 * 1000
      ensures rename.View() == InitialPlane(RENAME_WINDOW)
      ensures fresh(rename) && subs == map[] && rename.pending == map[]
    {
      this.self, this.epoch, retention := self, epoch, HS.DEFAULT_RETENTION;
      cursor, ring, subs, nextID := 0, [], map[], 0;
      rename := new R.RenamePlane(RENAME_WINDOW);
      log, booted := [], 0;
    }

    /** newHub followed by the restore in NewWithState: the persisted coordinates, an empty window.
        past is what was stamped under them before. */
    constructor Restore(self: MachineId, epoch: string, restored: nat, ghost past: seq<Event>)
      requires |past| == restored && HS.Numbered(past, epoch)
      ensures Valid()
      ensures View() == HS.Initial(self, epoch).(cursor := restored, log := past, booted := restored)
      ensures retention == 512 && rename.window == 60 * 60 * 1000
      ensures fresh(rename) && subs == map[] && rename.pending == map[]
    {
      this.self, this.epoch, retention := self, epoch, HS.DEFAULT_RETENTION;
      cursor, ring, subs, nextID := restored, [], map[], 0;
      rename := new R.RenamePlane(RENAME_WINDOW);
      log, booted := past, restored;
    }

    /** publish's critical section: stamp, retain, fan out. */
    method StampAndFanOut(ev0: Event) returns (ev: Event)
      requires Valid()
      modifies this, subs.Values
      ensures Valid() && View() == HS.Stamp(old(View()), ev0)
      ensures ev == HS.Stamped(old(View()), ev0)
      ensures subs == old(subs)
    {
      ghost var before := View();
      cursor := cursor + 1;
      ev := ev0.(cursor := cursor, epoch := epoch);
      ring := ring + [ev];
      if |ring| > retention {
        ring := ring[|ring| - retention..];
      }
      log := log + [ev];
      assert View().subs == before.subs;
      SendToAll(ev);
    }

    method SendToAll(ev: Event)
      requires Valid()
      modifies subs.Values
      ensures Valid() && View() == old(View()).(subs := HS.FanOut(self, old(View().subs), ev))
    {
      var todo := subs.Values;
      while todo != {}
        invariant todo <= subs.Values
        invariant forall s :: s in subs.Values ==>
          s.View() == if s in todo then old(s.View()) else HS.Deliver(self, old(s.View()), ev)
      {
        var s :| s in todo;
        s.Offer(self, ev);
        todo := todo - {s};
      }
      assert View().subs == HS.FanOut(self, old(View().subs), ev);
    }

    method Publish(ev: Event)
      requires Valid()
      modifies this, subs.Values, rename, rename.pending.Values
      ensures Valid()
      ensures (View(), rename.View()) == Published(old(View()), old(rename.View()), ev)
      ensures subs == old(subs) && rename.pending == old(rename.pending)
      decreases if ev.kind == SessionClosed then 1 else 0
    {
      hide *;
      ghost var p0 := rename.View();
      PublishedIs(View(), p0, ev);
      var stamped := StampAndFanOut(ev);
      ghost var h1 := View();
      ValidIs();
      var followUps := rename.Observe(stamped);
      ValidIs();
      ghost var p1 := rename.View();
      for i := 0 to |followUps|
        invariant Valid()
        invariant subs == old(subs) && rename.pending == old(rename.pending)
        invariant rename.View() == p1
        invariant View() == if i == 0 then h1 else HS.Stamp(h1, followUps[0])
      {
        VerdictsAreFinal(p0, stamped, followUps[i], View(), p1);
        Publish(followUps[i]);
      }
    }

    method Add(scope: Scope, filter: SubscribeFilter, fromCursor: int, fromEpoch: string)
      returns (s: Subscriber, backlog: seq<Event>, resync: bool)
      requires Valid()
      modifies this
      ensures Valid() && fresh(s) && subs == old(subs)[old(nextID) := s]
      ensures s.scope == scope && s.filter == filter && s.ch == [] && !s.dropped
      ensures HS.Resumption(View(), s.id, backlog, resync) == HS.Add(old(View()), scope, filter, fromCursor, fromEpoch)
    {
      ghost var before := View();
      s := Register(scope, filter);
      assert cursor == before.cursor && ring == before.ring && epoch == before.epoch && s.id == before.nextId;
      hide View, Filter, HS.Registered;
      backlog := [];
      if fromCursor == 0 && fromEpoch == "" {
        return s, [], false;
      }
      if fromEpoch != epoch {
        return s, [], true;
      }
      if fromCursor > cursor {
        return s, [], true;
      }
      var oldest := 0;
      if |ring| > 0 {
        oldest := ring[0].cursor;
      }
      if fromCursor < oldest - 1 {
        return s, [], true;
      }
      ghost var p := HS.MatchingAfter(filter, fromCursor);
      for i := 0 to |ring|
        modifies {}
        invariant backlog == Filter(p, ring[..i])
      {
        FilterSnoc(p, ring[..i], ring[i]);
        assert ring[..i + 1] == ring[..i] + [ring[i]];
        if ring[i].cursor > fromCursor && MatchesEvent(filter, ring[i]) {
          backlog := backlog + [ring[i]];
        }
      }
      assert ring[..|ring|] == ring;
      return s, backlog, false;
    }

    /** The first part of add: the subscriber is created and entered. */
    method Register(scope: Scope, filter: SubscribeFilter) returns (s: Subscriber)
      requires Valid()
      modifies this
      ensures Valid() && fresh(s) && subs == old(subs)[old(nextID) := s] && s.id == old(nextID)
      ensures s.scope == scope && s.filter == filter && s.ch == [] && !s.dropped
      ensures View() == HS.Registered(old(View()), scope, filter)
      ensures cursor == old(cursor) && ring == old(ring)
    {
      ghost var before := View();
      s := new Subscriber(nextID, filter, scope, cursor);
      assert View() == before;
      nextID := nextID + 1;
      subs := subs[s.id := s];
      assert View().subs == before.subs[before.nextId := s.View()];
    }

    method Remove(id: int)
      requires Valid()
      modifies this
      ensures Valid() && View() == HS.Remove(old(View()), id)
      ensures subs == old(subs) - {id}
    {
      ghost var before := View();
      if id in subs {
        subs := subs - {id};
      }
      assert View().subs == before.subs - {id};
    }
  }

  /** The long poll's next since: the last stamped cursor of the batch, else what the caller had. */
  function ResumePoint(since: int, batch: seq<Event>): (c: int)
  {
    if batch == [] then since
    else if batch[|batch| - 1].cursor > 0 then batch[|batch| - 1].cursor
    else ResumePoint(since, batch[..|batch| - 1])
  }

  method ResumeCursor(since: int, events: seq<Event>) returns (c: int)
    ensures c == ResumePoint(since, events)
    ensures (c == since && forall i :: 0 <= i < |events| ==> events[i].cursor <= 0)
         || exists i :: 0 <= i < |events| && c == events[i].cursor > 0
                        && forall j :: i < j < |events| ==> events[j].cursor <= 0
  {
    var i := |events| - 1;
    assert events[..|events|] == events;
    while i >= 0
      invariant -1 <= i < |events|
      invariant forall j :: i < j < |events| ==> events[j].cursor <= 0
      invariant ResumePoint(since, events) == ResumePoint(since, events[..i + 1])
    {
      if events[i].cursor > 0 {
        return events[i].cursor;
      }
      assert events[..i + 1][..i] == events[..i];
      i := i - 1;
    }
    return since;
  }
}
