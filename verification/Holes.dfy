// Two runs in which a long-poll client is answered with a hole and no resync (internal/service/http.go,
// internal/service/events.go): the exact conditions in LongPoll are ones a service does run into.
module Holes {
  import opened Fleet
  import opened Seqs
  import opened HubSpec
  import opened LongPoll

  lemma Extend(ws: seq<World>, steps: seq<Step>, step: Step) returns (ws': seq<World>, steps': seq<Step>)
    requires IsRun(ws, steps) && Enabled(ws[|steps|], step)
    ensures IsRun(ws', steps') && ws'[0] == ws[0] && |steps'| == |steps| + 1 && steps'[..|steps|] == steps && steps'[|steps|] == step
    ensures ws'[|steps'|] == Next(ws[|steps|], step)
  {
    hide Next, Enabled;
    ws', steps' := ws + [Next(ws[|steps|], step)], steps + [step];
    assert forall i :: 0 <= i < |steps| ==> ws'[i] == ws[i] && steps'[i] == steps[i];
  }

  /** The client, asking for everything, waits on a channel that was sent the first k events there were. */
  ghost predicate Listening(w: World, id: nat, k: nat)
  {
    && WorldInv(w) && Caught(w) && w.client.phase == Waiting(id) && w.client.filter == EVERYTHING && !w.client.resynced
    && id in w.hub.subs && w.hub.subs[id].joined == 0 && |w.hub.log| == k
    && |w.hub.subs[id].sent| == Min(k, CHANNEL_CAP)
  }

  /** Who asks for everything is sent everything, as long as there is room. */
  lemma DeliverAll(self: MachineId, s: Sub, e: Event)
    requires s.scope == ScopeFleet && s.filter == EVERYTHING
    ensures Deliver(self, s, e)
         == if |s.queue| < CHANNEL_CAP then s.(queue := s.queue + [e], sent := s.sent + [e]) else s.(dropped := true)
  {
  }

  lemma Subscribed(c: Client, s: Sub)
    requires PollInv(c, s)
    ensures s.scope == ScopeFleet && s.filter == c.filter
    ensures c.phase.Waiting? ==> s.queue == s.sent
  {
  }

  /** What a publish does to a poll that asks for everything. */
  lemma PublishReaches(w: World, ev: Event)
    requires WorldInv(w) && Polling(w.client) && w.client.filter == EVERYTHING
    ensures var id, e, w' := PollId(w.client), Stamped(w.hub, ev), Next(w, Publish(ev));
            && id in w.hub.subs && id in w'.hub.subs && WorldInv(w') && (Caught(w) ==> Caught(w'))
            && w'.client == w.client && w'.hub.log == w.hub.log + [e] && e.cursor == |w.hub.log| + 1
            && (w.client.phase.Waiting? ==> w.hub.subs[id].queue == w.hub.subs[id].sent)
            && w'.hub.subs[id]
                 == (var s := w.hub.subs[id];
                     if |s.queue| < CHANNEL_CAP then s.(queue := s.queue + [e], sent := s.sent + [e]) else s.(dropped := true))
  {
    hide *;
    Parts(w);
    PollJoined(w);
    PublishKeeps(w, ev);
    NextPublish(w, ev);
    StampShape(w.hub, ev);
    LogLength(w.hub);
    StampedCursor(w.hub, ev);
    Subscribed(w.client, w.hub.subs[PollId(w.client)]);
    DeliverAll(w.hub.self, w.hub.subs[PollId(w.client)], Stamped(w.hub, ev));
  }

  lemma StampedCursor(h: HubState, ev: Event)
    ensures Stamped(h, ev).cursor == h.cursor + 1
  {
  }

  /** What taking one event does to a poll. */
  lemma TakeReaches(w: World, step: Step)
    requires WorldInv(w) && Enabled(w, step) && (step.PollTake? || step.PollDrain?)
    ensures Polling(w.client) && PollId(w.client) in w.hub.subs
    ensures var id, w' := PollId(w.client), Next(w, step);
            && WorldInv(w') && (Caught(w) ==> Caught(w'))
            && id in w'.hub.subs && w'.hub.subs[id].sent == w.hub.subs[id].sent && w'.hub.subs[id].joined == w.hub.subs[id].joined
            && |w'.hub.subs[id].queue| == |w.hub.subs[id].queue| - 1 && w'.hub.log == w.hub.log
            && w'.client.phase.Draining? && w'.client == w.client.(phase := Draining(id, w'.client.phase.batch))
  {
    hide *;
    TakeEnabled(w, step);
    PollTakes(w, step);
    NextTake(w, step);
    ReceiveShape(w.hub, PollId(w.client));
  }

  lemma ListensOn(w: World, id: nat, k: nat, ev: Event)
    requires Listening(w, id, k)
    ensures Listening(Next(w, Publish(ev)), id, k + 1)
  {
    hide WorldInv, Caught, Next, Stamped;
    PublishReaches(w, ev);
  }

  lemma {:induction false} PublishMany(ws: seq<World>, steps: seq<Step>, id: nat, k: nat, ev: Event, n: nat)
    returns (ws': seq<World>, steps': seq<Step>)
    requires IsRun(ws, steps) && Listening(ws[|steps|], id, k)
    ensures IsRun(ws', steps') && ws'[0] == ws[0] && Listening(ws'[|steps'|], id, k + n)
    decreases n
  {
    hide Listening, Next;
    ws', steps' := ws, steps;
    if n > 0 {
      ws', steps' := PublishMany(ws, steps, id, k, ev, n - 1);
      ListensOn(ws'[|steps'|], id, k + n - 1, ev);
      ws', steps' := Extend(ws', steps', Publish(ev));
    }
  }

  /** The client has taken some of what it was sent and q events are still queued. */
  ghost predicate Taking(w: World, id: nat, sent: seq<Event>, q: nat)
  {
    && WorldInv(w) && Caught(w) && !w.client.resynced
    && w.client.phase.Draining? && w.client.phase.polled == id && w.client.filter == EVERYTHING
    && id in w.hub.subs && w.hub.subs[id].joined == 0 && w.hub.subs[id].sent == sent && |w.hub.subs[id].queue| == q
  }

  lemma {:induction false} DrainMany(ws: seq<World>, steps: seq<Step>, id: nat, sent: seq<Event>, q: nat)
    returns (ws': seq<World>, steps': seq<Step>)
    requires IsRun(ws, steps) && Taking(ws[|steps|], id, sent, q)
    ensures IsRun(ws', steps') && ws'[0] == ws[0] && Taking(ws'[|steps'|], id, sent, 0)
    ensures ws'[|steps'|].hub.log == ws[|steps|].hub.log
    decreases q
  {
    ws', steps' := ws, steps;
    if q > 0 {
      TakesOne(ws[|steps|], id, sent, q);
      hide Taking, Next;
      ws', steps' := Extend(ws, steps, PollDrain);
      ws', steps' := DrainMany(ws', steps', id, sent, q - 1);
    }
  }

  lemma TakesOne(w: World, id: nat, sent: seq<Event>, q: nat)
    requires Taking(w, id, sent, q) && q > 0
    ensures Enabled(w, PollDrain)
    ensures Taking(Next(w, PollDrain), id, sent, q - 1) && Next(w, PollDrain).hub.log == w.hub.log
  {
    hide WorldInv, Caught, Next;
    TakeReaches(w, PollDrain);
  }

  /** A fresh client of a new service. */
  lemma FreshClient(self: MachineId, epoch: string) returns (ws: seq<World>, steps: seq<Step>)
    requires epoch != ""
    ensures IsRun(ws, steps) && Start(ws[0]) && Listening(ws[|steps|], 0, 0)
  {
    var w := World(HubSpec.Initial(self, epoch), Client(EVERYTHING, 0, "", 0, [], Idle, false));
    FirstPoll(w);
    hide *;
    ws, steps := [w], [];
    OneWorld(w);
    ws, steps := Extend(ws, steps, PollStart(false));
  }

  lemma OneWorld(w: World)
    ensures IsRun([w], [])
  {
    hide Next, Enabled;
  }

  lemma FirstPoll(w: World)
    requires w.hub.epoch != "" && w == World(HubSpec.Initial(w.hub.self, w.hub.epoch), Client(EVERYTHING, 0, "", 0, [], Idle, false))
    ensures Start(w) && Enabled(w, PollStart(false)) && Listening(Next(w, PollStart(false)), 0, 0)
  {
    HubSpec.InitialInv(w.hub.self, w.hub.epoch);
    hide Inv, WorldInv, Caught, Filter;
    StartInv(w);
    PollStartKeeps(w, false);
    StartCaughtIff(w, false);
  }

  lemma WakesUp(w: World, id: nat, k: nat)
    requires Listening(w, id, k) && k > 0
    ensures Enabled(w, PollTake)
    ensures var w' := Next(w, PollTake);
            && |w'.hub.log| == k && id in w'.hub.subs && |w'.hub.subs[id].sent| == Min(k, CHANNEL_CAP)
            && Taking(w', id, w'.hub.subs[id].sent, Min(k, CHANNEL_CAP) - 1)
  {
    hide WorldInv, Caught, Next, PollInv;
    PollJoined(w);
    Subscribed(w.client, w.hub.subs[id]);
    TakeReaches(w, PollTake);
  }

  lemma SentWhileTaking(w: World, id: nat, sent: seq<Event>, q: nat, ev: Event)
    requires Taking(w, id, sent, q) && q < CHANNEL_CAP
    ensures var w', e := Next(w, Publish(ev)), Stamped(w.hub, ev);
            && w'.hub.log == w.hub.log + [e] && e.cursor == |w.hub.log| + 1
            && Taking(w', id, sent + [e], q + 1)
  {
    hide WorldInv, Caught, Next, Stamped;
    PublishReaches(w, ev);
  }

  lemma EverythingIsOwed(self: MachineId, log: seq<Event>, s: Sub)
    requires s.joined == 0 && s.scope == ScopeFleet && s.filter == EVERYTHING
    ensures Owed(self, log, s) == log
  {
    FilterAll(Admitter(self, ScopeFleet, EVERYTHING), log);
    assert log[0..] == log;
  }

  lemma SkippedOne(w: World, id: nat, sent: seq<Event>)
    requires Taking(w, id, sent, 0) && |w.hub.log| == CHANNEL_CAP + 2
    requires |sent| == CHANNEL_CAP + 1 && sent[CHANNEL_CAP].cursor == CHANNEL_CAP + 2
    ensures Enabled(w, PollFinish(false)) && !Gapless(w)
  {
    hide WorldInv, Caught, PollInv, Gapless, Owed, Inv, RingInv, Numbered;
    PollJoined(w);
    Subscribed(w.client, w.hub.subs[id]);
    EverythingIsOwed(w.hub.self, w.hub.log, w.hub.subs[id]);
    GaplessIs(w, id, w.hub.subs[id]);
    Parts(w);
    LogLength(w.hub);
    NumberedAt(w.hub, CHANNEL_CAP);
  }

  lemma NumberedAt(h: HubState, i: nat)
    requires RingInv(h) && i < |h.log|
    ensures h.log[i].cursor == i + 1
  {
  }

  /** Sixty-five events reach a client that is slow to wake; it wakes and takes one, a sixty-sixth is sent, and
      it drains the rest. It is about to be answered, with no resync, over a history that lacks the
      sixty-fifth event. */
  lemma SlowClientLosesAnEvent(self: MachineId, epoch: string, ev: Event) returns (ws: seq<World>, steps: seq<Step>)
    requires epoch != ""
    ensures IsRun(ws, steps) && Start(ws[0])
    ensures var w := ws[|steps|];
            && WorldInv(w) && Caught(w) && Enabled(w, PollFinish(false)) && !Gapless(w)
            && !Exact(Next(w, PollFinish(false)).client, w.hub.log) && !Next(w, PollFinish(false)).client.resynced
  {
    ws, steps := FreshClient(self, epoch);
    hide *;
    ws, steps := PublishMany(ws, steps, 0, 0, ev, CHANNEL_CAP + 1);
    WakesUp(ws[|steps|], 0, CHANNEL_CAP + 1);
    ws, steps := Extend(ws, steps, PollTake);
    SentWhileTaking(ws[|steps|], 0, ws[|steps|].hub.subs[0].sent, CHANNEL_CAP - 1, ev);
    var sent := ws[|steps|].hub.subs[0].sent + [Stamped(ws[|steps|].hub, ev)];
    PublishEnabled(ws[|steps|], ev);
    ws, steps := Extend(ws, steps, Publish(ev));
    ws, steps := DrainMany(ws, steps, 0, sent, CHANNEL_CAP);
    SkippedOne(ws[|steps|], 0, sent);
    TakingIsInv(ws[|steps|], 0, sent, 0);
    FinishExactIff(ws[|steps|]);
  }

  lemma PublishEnabled(w: World, ev: Event)
    ensures Enabled(w, Publish(ev))
  {
  }

  lemma TakingIsInv(w: World, id: nat, sent: seq<Event>, q: nat)
    requires Taking(w, id, sent, q) && Enabled(w, PollFinish(false))
    ensures WorldInv(w) && Caught(w) && !Next(w, PollFinish(false)).client.resynced
  {
    hide WorldInv, Caught, Next;
    FinishTells(w);
  }

  lemma FinishTells(w: World)
    requires Enabled(w, PollFinish(false))
    ensures Next(w, PollFinish(false)).client.resynced == w.client.resynced
  {
    hide *;
    FinishEnabled(w, false);
    NextFinish(w, false);
    var id := w.client.phase.polled;
    AnswerIsIdle(w, id, w.hub.subs[id].joined, w.client.phase.batch, false);
  }

  // ---- after a restart -----------------------------------------------------

  /** A poll that asks for everything since cursor 1 subscribed at cursor 2, and q events are queued for it. */
  ghost predicate Behind(w: World, id: nat, q: nat)
  {
    && WorldInv(w) && Polling(w.client) && PollId(w.client) == id && w.client.filter == EVERYTHING
    && w.client.since == 1 && !w.client.resynced
    && id in w.hub.subs && w.hub.subs[id].joined == 2 && |w.hub.subs[id].queue| == q
  }

  lemma BehindMissesOne(w: World, id: nat, q: nat)
    requires Behind(w, id, q)
    ensures !Caught(w)
  {
    hide WorldInv, PollInv, Matching, MatchesEvent;
    PollJoined(w);
    var missed := w.hub.log[1..2];
    EverythingMatches(missed);
    assert |missed| == 1;
  }

  lemma PollsBehind(w: World)
    requires WorldInv(w) && w.client == Client(EVERYTHING, 1, w.hub.epoch, 1, [], Idle, false)
    requires w.hub.cursor == 2 && w.hub.ring == []
    ensures Enabled(w, PollStart(false)) && Behind(Next(w, PollStart(false)), w.hub.nextId, 0)
    ensures Next(w, PollStart(false)).client.phase.Waiting?
  {
    hide WorldInv, Inv, Backlog, Add, Next;
    Parts(w);
    PollStartKeeps(w, false);
    NextPollStart(w, false);
    StartShape(w);
    EmptyWindow(w);
  }

  lemma SentWhileBehind(w: World, id: nat, ev: Event)
    requires Behind(w, id, 0) && w.client.phase.Waiting?
    ensures var w' := Next(w, Publish(ev));
            Behind(w', id, 1) && w'.client.phase.Waiting?
  {
    hide WorldInv, Next, Stamped, Caught;
    PublishReaches(w, ev);
  }

  lemma WakesBehind(w: World, id: nat)
    requires Behind(w, id, 1) && w.client.phase.Waiting?
    ensures Enabled(w, PollTake)
    ensures var w' := Next(w, PollTake);
            Behind(w', id, 0) && Enabled(w', PollFinish(false))
  {
    hide WorldInv, Next, Caught;
    TakeReaches(w, PollTake);
  }

  lemma TwoStamped(self: MachineId, epoch: string, ev: Event) returns (h: HubState)
    requires epoch != ""
    ensures h.epoch == epoch && h.cursor == 2 && Inv(h)
  {
    hide Inv;
    var h0 := HubSpec.Initial(self, epoch);
    HubSpec.InitialInv(self, epoch);
    StampKeepsInv(h0, ev);
    StampKeepsInv(Stamp(h0, ev), ev);
    h := Stamp(Stamp(h0, ev), ev);
  }

  /** A client that has the first of two events; the service restarts and keeps its cursor, not its window. The
      client's next poll is accepted, waits, and is about to be answered with the third event and
      no resync: the second is gone. */
  lemma RestartedServiceSkips(self: MachineId, epoch: string, ev: Event) returns (ws: seq<World>, steps: seq<Step>)
    requires epoch != ""
    ensures IsRun(ws, steps) && Start(ws[0]) && Restart in steps
    ensures var w := ws[|steps|];
            && WorldInv(w) && Enabled(w, PollFinish(false)) && !Caught(w)
            && !Exact(Next(w, PollFinish(false)).client, w.hub.log) && !Next(w, PollFinish(false)).client.resynced
  {
    var h := TwoStamped(self, epoch, ev);
    var w := World(h, Client(EVERYTHING, 1, epoch, 1, [], Idle, false));
    hide *;
    RestartsAt(w);
    ws, steps := [w], [];
    OneWorld(w);
    ws, steps := Extend(ws, steps, Restart);
    PollsBehind(ws[|steps|]);
    ws, steps := Extend(ws, steps, PollStart(false));
    SentWhileBehind(ws[|steps|], 0, ev);
    PublishEnabled(ws[|steps|], ev);
    ws, steps := Extend(ws, steps, Publish(ev));
    WakesBehind(ws[|steps|], 0);
    ws, steps := Extend(ws, steps, PollTake);
    BehindMissesOne(ws[|steps|], 0, 0);
    BehindIsInv(ws[|steps|], 0, 0);
    FinishTells(ws[|steps|]);
    FinishExactIff(ws[|steps|]);
    assert steps[0] == Restart;
  }

  lemma RestartsAt(w: World)
    requires Inv(w.hub) && w.hub.epoch != "" && w.client == Client(EVERYTHING, 1, w.hub.epoch, 1, [], Idle, false)
    ensures Start(w) && Enabled(w, Restart)
    ensures var w' := Next(w, Restart);
            && WorldInv(w') && w'.client == w.client && w'.hub.epoch == w.hub.epoch
            && w'.hub.cursor == w.hub.cursor && w'.hub.ring == [] && w'.hub.nextId == 0
  {
    hide Inv, WorldInv, Caught;
    StartInv(w);
    RestartKeeps(w);
  }

  lemma BehindIsInv(w: World, id: nat, q: nat)
    requires Behind(w, id, q)
    ensures WorldInv(w) && !w.client.resynced
  {
    hide WorldInv;
  }

  // ---- after a restart from a cursor that had fallen behind ----------------

  lemma SharedPast(filter: SubscribeFilter, log: seq<Event>, log': seq<Event>, start: nat, saved: nat)
    requires start <= saved <= |log| && log[..saved] <= log'
    ensures saved <= |log'| && Matching(filter, log[start..saved]) == Matching(filter, log'[start..saved])
  {
    hide Matching;
    assert log[start..saved] == log[..saved][start..saved] == log'[start..saved];
  }

  lemma Cancels(a: seq<Event>, x: seq<Event>, y: seq<Event>, b: seq<Event>)
    ensures (a + x) + b == (a + y) + b <==> x == y
  {
    if (a + x) + b == (a + y) + b {
      assert |x| == |y|;
      forall i | 0 <= i < |x| ensures x[i] == y[i] {
        assert ((a + x) + b)[|a| + i] == x[i] && ((a + y) + b)[|a| + i] == y[i];
      }
    }
  }

  /** A save had fallen behind when the service stopped, and a client comes back with a cursor at or above it once the
      new instance has stamped that far. It is not resynced. What it has together with what it is then replayed is
      the new instance's sequence if and only if the events it asks for among the reused cursors are the same
      ones: whatever was stamped anew there is skipped. */
  lemma SplicedExactIff(h: HubState, saved: nat, w: World)
    requires Inv(w.hub) && w.hub.epoch == h.epoch && h.epoch != ""
    requires w.client.start <= saved <= w.client.since <= |h.log| && h.log[..saved] <= w.hub.log
    requires w.client.got == Matching(w.client.filter, h.log[w.client.start..w.client.since])
    requires !IsFresh(w) && w.hub.ring != [] && !NeedsResync(w.hub, w.client.since, SentEpoch(w))
    ensures w.client.since <= |w.hub.log|
    ensures var c, log := w.client, w.hub.log;
            (c.got + Backlog(w.hub, c.filter, c.since) == Matching(c.filter, log[c.start..]))
            <==> (Matching(c.filter, h.log[saved..c.since]) == Matching(c.filter, log[saved..c.since]))
  {
    hide *;
    var c, log := w.client, w.hub.log;
    AcceptedBacklog(w);
    SharedPast(c.filter, h.log, log, c.start, saved);
    MatchingConcat(c.filter, h.log, c.start, saved, c.since);
    MatchingConcat(c.filter, log, c.start, saved, c.since);
    MatchingConcat(c.filter, log, c.start, c.since, |log|);
    assert log[c.start..|log|] == log[c.start..] && log[c.since..|log|] == log[c.since..];
    Cancels(Matching(c.filter, log[c.start..saved]), Matching(c.filter, h.log[saved..c.since]),
            Matching(c.filter, log[saved..c.since]), Matching(c.filter, log[c.since..]));
  }

  /** Two events are stamped and the save of the second fails. After the restart another one takes its cursor, and the
      client that has the first two is told nothing of it. */
  lemma LaggingSaveSkips(self: MachineId, epoch: string, ev: Event, other: Event) returns (h: HubState, w: World)
    requires epoch != "" && ev.payload != other.payload
    ensures h == Stamp(Stamp(HubSpec.Initial(self, epoch), ev), ev) && Inv(h)
    ensures w.hub == Stamp(RestartedAt(h, 1), other) && Inv(w.hub)
    ensures w.client == Client(EVERYTHING, 2, epoch, 0, h.log, Idle, false)
    ensures !NeedsResync(w.hub, w.client.since, SentEpoch(w)) && Backlog(w.hub, EVERYTHING, 2) == []
    ensures w.client.got + Backlog(w.hub, EVERYTHING, 2) != Matching(EVERYTHING, w.hub.log)
  {
    var h0 := HubSpec.Initial(self, epoch);
    h := Stamp(Stamp(h0, ev), ev);
    w := World(Stamp(RestartedAt(h, 1), other), Client(EVERYTHING, 2, epoch, 0, h.log, Idle, false));
    TwoThenOne(h0, ev, other);
    hide *;
    HubSpec.InitialInv(self, epoch);
    StampKeepsInv(h0, ev);
    StampKeepsInv(Stamp(h0, ev), ev);
    RestartedAtInv(h, 1);
    StampKeepsInv(RestartedAt(h, 1), other);
    MetAgain(w, epoch);
    EverythingMatches(w.hub.log);
    assert h.log[1] != w.hub.log[1];
  }

  lemma TwoThenOne(h0: HubState, ev: Event, other: Event)
    requires h0 == HubSpec.Initial(h0.self, h0.epoch) && ev.payload != other.payload
    ensures var h := Stamp(Stamp(h0, ev), ev);
            && |h.log| == 2
            && var h' := Stamp(RestartedAt(h, 1), other);
               |h'.log| == 2 && h'.epoch == h0.epoch && h'.cursor == 2 && |h'.ring| == 1 && h'.ring[0].cursor == 2
               && h.log[1].payload != h'.log[1].payload
  {
    hide FanOut;
  }

  lemma MetAgain(w: World, epoch: string)
    requires w.hub.epoch == epoch && epoch != "" && w.hub.cursor == 2 && |w.hub.ring| == 1 && w.hub.ring[0].cursor == 2
    requires w.client.since == 2 && w.client.epoch == epoch
    ensures !NeedsResync(w.hub, w.client.since, SentEpoch(w)) && Backlog(w.hub, EVERYTHING, 2) == []
  {
    FilterNone(MatchingAfter(EVERYTHING, 2), w.hub.ring);
  }
}
