// The long poll over the hub (internal/service/http.go), as a system of interleaved steps:
// one client that sends back the cursor it was given, any publisher, any other subscriber.
module LongPoll {
  import opened Fleet
  import opened Seqs
  import opened HubSpec
  import opened Hub

  datatype Phase = Idle | Waiting(id: nat) | Draining(polled: nat, batch: seq<Event>)

  /** since and epoch are what the client sends; got is every event it was ever answered with.
      start is where its history begins. */
  datatype Client = Client(filter: SubscribeFilter, since: nat, epoch: string, start: nat,
                           got: seq<Event>, phase: Phase, resynced: bool)

  datatype World = World(hub: HubState, client: Client)

  datatype Step =
    // the service; a restart continues the epoch and drops every request under way
    | Publish(ev: Event)
    | Restart
    // other subscribers
    | OtherAdd(scope: Scope, filter: SubscribeFilter, cursor: int, epoch: string)
    | OtherRemove(other: int)
    | OtherReceive(other: int)
    // the client's poll; a lost answer leaves the client as it was
    | PollStart(lost: bool)
    | PollTimeout(lost: bool)
    | PollAbort
    | PollTake
    | PollDrain
    | PollFinish(lost: bool)

  /** A cursor without an epoch means "the instance I was already talking to". */
  function SentEpoch(w: World): string
  {
    if w.client.since > 0 && w.client.epoch == "" then w.hub.epoch else w.client.epoch
  }

  predicate IsFresh(w: World)
  {
    Fresh(w.client.since, SentEpoch(w))
  }

  predicate Polling(c: Client)
  {
    c.phase.Waiting? || c.phase.Draining?
  }

  function PollId(c: Client): nat
    requires Polling(c)
  {
    match c.phase case Waiting(id) => id case Draining(id, _) => id
  }

  predicate Enabled(w: World, step: Step)
  {
    var c := w.client;
    match step
    case Publish(_) => true
    case Restart => true
    case OtherAdd(_, _, _, _) => true
    case OtherRemove(id) => !(Polling(c) && PollId(c) == id)
    case OtherReceive(id) => !(Polling(c) && PollId(c) == id) && id in w.hub.subs && w.hub.subs[id].queue != []
    case PollStart(_) => c.phase.Idle? && !c.resynced
    case PollTimeout(_) => c.phase.Waiting?
    case PollAbort => Polling(c)
    case PollTake => c.phase.Waiting? && c.phase.id in w.hub.subs && w.hub.subs[c.phase.id].queue != []
    case PollDrain => c.phase.Draining? && c.phase.polled in w.hub.subs && w.hub.subs[c.phase.polled].queue != []
    case PollFinish(_) => c.phase.Draining? && c.phase.polled in w.hub.subs && w.hub.subs[c.phase.polled].queue == []
  }

  /** The answer to a poll whose subscriber joined at the given cursor. */
  function Answer(w: World, id: nat, joined: nat, batch: seq<Event>, lost: bool): World
  {
    var c := w.client.(phase := Idle);
    var next := ResumePoint(c.since, batch);
    World(Remove(w.hub, id),
          if lost || next < 0 then c
          else c.(since := next, epoch := w.hub.epoch, got := c.got + batch,
                  start := if IsFresh(w) && batch != [] then joined else c.start))
  }

  function Next(w: World, step: Step): World
    requires Enabled(w, step)
  {
    var h, c := w.hub, w.client;
    match step
    case Publish(ev) => World(Stamp(h, ev), c)
    case Restart => World(Restarted(h), c.(phase := Idle))
    case OtherAdd(scope, filter, cursor, epoch) => World(Add(h, scope, filter, cursor, epoch).hub, c)
    case OtherRemove(id) => World(Remove(h, id), c)
    case OtherReceive(id) => World(Receive(h, id), c)
    case PollStart(lost) =>
      var r := Add(h, ScopeFleet, c.filter, c.since, SentEpoch(w));
      if r.resync then World(Remove(r.hub, r.id), if lost then c else c.(resynced := true))
      else if r.backlog != [] then Answer(World(r.hub, c), r.id, h.cursor, r.backlog, lost)
      else World(r.hub, c.(phase := Waiting(r.id)))
    case PollTimeout(lost) => Answer(w, c.phase.id, 0, [], lost)
    case PollAbort => World(Remove(h, PollId(c)), c.(phase := Idle))
    case PollTake =>
      World(Receive(h, c.phase.id), c.(phase := Draining(c.phase.id, [h.subs[c.phase.id].queue[0]])))
    case PollDrain =>
      World(Receive(h, c.phase.polled),
            c.(phase := Draining(c.phase.polled, c.phase.batch + [h.subs[c.phase.polled].queue[0]])))
    case PollFinish(lost) => Answer(w, c.phase.polled, h.subs[c.phase.polled].joined, c.phase.batch, lost)
  }

  /** The client's poll never had an event put on its channel after one was dropped. */
  ghost predicate Gapless(w: World)
  {
    Polling(w.client) && PollId(w.client) in w.hub.subs ==>
      var s := w.hub.subs[PollId(w.client)];
      s.joined <= |w.hub.log| && s.sent <= Owed(w.hub.self, w.hub.log, s)
  }

  lemma UndroppedIsGapless(w: World)
    requires Inv(w.hub) && Polling(w.client) && PollId(w.client) in w.hub.subs
    requires !w.hub.subs[PollId(w.client)].dropped
    ensures Gapless(w)
  {
  }

  // ---- what is kept -------------------------------------------------------

  /** The client's history is exactly the filter-matching log between its start and its cursor. */
  predicate Exact(c: Client, log: seq<Event>)
  {
    && c.start <= c.since
    && (c.since <= |log| ==> c.got == Matching(c.filter, log[c.start..c.since]))
    && (c.since > |log| ==> c.got == [] && c.start == c.since)
  }

  /** What a poll under way has taken is what its channel was sent and no longer holds. */
  ghost predicate PollInv(c: Client, s: Sub)
  {
    && s.filter == c.filter && s.scope == ScopeFleet && c.since <= s.joined
    && match c.phase
       case Waiting(_) => s.queue == s.sent
       case Draining(_, batch) => batch != [] && batch + s.queue == s.sent
       case Idle => true
  }

  predicate Unasked(c: Client)
  {
    c.since == 0 ==> c.got == [] && c.start == 0
  }

  ghost predicate Polls(c: Client, h: HubState)
  {
    Polling(c) ==> PollId(c) in h.subs && PollInv(c, h.subs[PollId(c)])
  }

  ghost predicate WorldInv(w: World)
  {
    Inv(w.hub) && w.hub.epoch != "" && Unasked(w.client) && Exact(w.client, w.hub.log) && Polls(w.client, w.hub)
  }

  /** A client with no history yet, at any cursor. */
  ghost predicate Start(w: World)
  {
    && Inv(w.hub) && w.hub.epoch != ""
    && w.client == Client(w.client.filter, w.client.since, w.client.epoch, w.client.since, [], Idle, false)
  }

  lemma StartInv(w: World)
    requires Start(w)
    ensures WorldInv(w)
  {
  }

  lemma StartsCaught(w: World)
    requires Start(w)
    ensures Caught(w)
  {
    hide Inv;
  }

  /** Between the client's cursor and the poll's subscription there is nothing it asked for. */
  predicate NothingPending(w: World, joined: nat)
    requires joined <= |w.hub.log|
  {
    IsFresh(w) || (w.client.since <= joined && Matching(w.client.filter, w.hub.log[w.client.since..joined]) == [])
  }

  /** The poll under way missed nothing before it subscribed. */
  ghost predicate Caught(w: World)
  {
    Polling(w.client) && PollId(w.client) in w.hub.subs ==>
      var joined := w.hub.subs[PollId(w.client)].joined;
      joined <= |w.hub.log| && NothingPending(w, joined)
  }

  /** A poll's cursor is looked up in a window that has something in it, or nothing was missed at all. */
  predicate MetWindow(w: World)
  {
    || IsFresh(w) || NeedsResync(w.hub, w.client.since, SentEpoch(w)) || w.hub.ring != []
    || (w.client.since <= |w.hub.log| && Matching(w.client.filter, w.hub.log[w.client.since..]) == [])
  }

  // ---- filtering lemmas ---------------------------------------------------

  lemma {:induction false} PrefixEndsAtItsCursor(p: Event -> bool, xs: seq<Event>, base: nat, batch: seq<Event>)
    requires forall i :: 0 <= i < |xs| ==> xs[i].cursor == base + i + 1
    requires batch != [] && batch <= Filter(p, xs)
    ensures var last := batch[|batch| - 1].cursor;
            base < last <= base + |xs| && batch == Filter(p, xs[..last - base])
    decreases |xs|
  {
    var n := |xs| - 1;
    assert xs == xs[..n] + [xs[n]];
    FilterSnoc(p, xs[..n], xs[n]);
    var last := batch[|batch| - 1].cursor;
    if batch <= Filter(p, xs[..n]) {
      PrefixEndsAtItsCursor(p, xs[..n], base, batch);
      assert xs[..n][..last - base] == xs[..last - base];
    } else {
      var whole := Filter(p, xs);
      assert |batch| == |whole|;
      assert batch == whole == Filter(p, xs[..n]) + [xs[n]];
      assert xs[..last - base] == xs;
    }
  }

  lemma MatchingConcat(filter: SubscribeFilter, log: seq<Event>, a: nat, b: nat, c: nat)
    requires a <= b <= c <= |log|
    ensures Matching(filter, log[a..c]) == Matching(filter, log[a..b]) + Matching(filter, log[b..c])
  {
    assert log[a..c] == log[a..b] + log[b..c];
    MatchingSplits(filter, log[a..b], log[b..c]);
  }

  /** What a gapless poll has taken is the matching log from where it joined to the cursor it ends at. */
  lemma BatchIsRange(h: HubState, s: Sub, batch: seq<Event>)
    requires RingInv(h) && s.scope == ScopeFleet && s.joined <= |h.log|
    requires batch != [] && batch <= Owed(h.self, h.log, s)
    ensures var last := batch[|batch| - 1].cursor;
            s.joined < last <= |h.log| && batch == Matching(s.filter, h.log[s.joined..last])
  {
    FleetOwesMatching(h.self, s.filter, h.log[s.joined..]);
    PrefixEndsAtItsCursor(Matcher(s.filter), h.log[s.joined..], s.joined, batch);
    var last := batch[|batch| - 1].cursor;
    assert h.log[s.joined..][..last - s.joined] == h.log[s.joined..last];
  }

  // ---- the invariant by its parts ------------------------------------------

  lemma Parts(w: World)
    requires WorldInv(w)
    ensures Inv(w.hub) && w.hub.epoch != "" && Unasked(w.client) && Exact(w.client, w.hub.log) && Polls(w.client, w.hub)
  {
    hide Inv, Unasked, Exact, Polls;
  }

  lemma Whole(h: HubState, c: Client)
    requires Inv(h) && h.epoch != "" && Unasked(c) && Exact(c, h.log) && Polls(c, h)
    ensures WorldInv(World(h, c))
  {
    hide Inv, Unasked, Exact, Polls;
  }

  lemma PollOf(c: Client, h: HubState)
    requires Polling(c)
    ensures Polls(c, h) <==> PollId(c) in h.subs && PollInv(c, h.subs[PollId(c)])
  {
    hide PollInv, PollId, Polling;
  }

  lemma IdleClient(c: Client, h: HubState)
    requires c.phase == Idle
    ensures !Polling(c) && Polls(c, h)
  {
    hide PollInv;
  }

  lemma SubOf(h: HubState, id: int)
    requires Inv(h) && id in h.subs
    ensures SubInv(h.self, h.log, h.subs[id]) && h.subs[id].joined <= |h.log| && 0 <= id < h.nextId
  {
    hide RingInv, Owed, Subsequence;
  }

  /** The client of a world that keeps the invariant finds its poll's subscriber. */
  lemma PollJoined(w: World)
    requires WorldInv(w) && Polling(w.client)
    ensures PollId(w.client) in w.hub.subs && PollInv(w.client, w.hub.subs[PollId(w.client)])
    ensures w.hub.subs[PollId(w.client)].joined <= |w.hub.log| && PollId(w.client) != w.hub.nextId
  {
    hide *;
    Parts(w);
    PollOf(w.client, w.hub);
    SubOf(w.hub, PollId(w.client));
  }

  lemma ExactGrows(c: Client, log: seq<Event>, log': seq<Event>)
    requires Exact(c, log) && log <= log'
    ensures Exact(c, log')
  {
    hide Matching;
    if c.since <= |log| {
      assert log'[c.start..c.since] == log[c.start..c.since];
    } else if c.since <= |log'| {
      assert log'[c.start..c.since] == [] by {
        assert c.start == c.since;
      }
      NothingMatches(c.filter);
    }
  }

  lemma NothingMatches(filter: SubscribeFilter)
    ensures Matching(filter, []) == []
  {
  }

  lemma SameHistory(c: Client, c': Client, log: seq<Event>)
    requires Unasked(c) && Exact(c, log)
    requires c' == c.(phase := c'.phase, epoch := c'.epoch, resynced := c'.resynced)
    ensures Unasked(c') && Exact(c', log)
  {
    hide Matching;
  }

  lemma SamePending(w: World, w': World, joined: nat)
    requires joined <= |w.hub.log| && w.hub.log <= w'.hub.log && w'.hub.epoch == w.hub.epoch
    requires w'.client.filter == w.client.filter && w'.client.since == w.client.since && w'.client.epoch == w.client.epoch
    ensures NothingPending(w', joined) == NothingPending(w, joined)
  {
    hide Matching;
    if w.client.since <= joined {
      assert w'.hub.log[w.client.since..joined] == w.hub.log[w.client.since..joined];
    }
  }

  /** A step that lets the poll under way go on, if it does, over a log that only grows. */
  lemma CaughtStays(w: World, w': World)
    requires Caught(w) && w.hub.log <= w'.hub.log && w'.hub.epoch == w.hub.epoch
    requires w'.client.filter == w.client.filter && w'.client.since == w.client.since && w'.client.epoch == w.client.epoch
    requires Polling(w'.client) ==>
      && Polling(w.client) && PollId(w'.client) == PollId(w.client) && PollId(w.client) in w.hub.subs
      && PollId(w.client) in w'.hub.subs && w'.hub.subs[PollId(w.client)].joined == w.hub.subs[PollId(w.client)].joined
    ensures Caught(w')
  {
    hide Polling, PollId, NothingPending;
    if Polling(w'.client) {
      SamePending(w, w', w.hub.subs[PollId(w.client)].joined);
    }
  }

  lemma NotPolling(w: World)
    ensures w.client.phase == Idle ==> Caught(w)
  {
    hide NothingPending;
  }

  // ---- each step ----------------------------------------------------------

  lemma DeliverKeepsPoll(c: Client, self: MachineId, s: Sub, e: Event)
    requires PollInv(c, s)
    ensures PollInv(c, Deliver(self, s, e))
    ensures Deliver(self, s, e).joined == s.joined
  {
    hide Admits;
    if c.phase.Draining? {
      assert c.phase.batch + (s.queue + [e]) == (c.phase.batch + s.queue) + [e];
    }
  }

  lemma StampShape(h: HubState, ev: Event)
    ensures var h', e := Stamp(h, ev), Stamped(h, ev);
            && h'.log == h.log + [e] && h'.epoch == h.epoch
            && (forall id :: id in h.subs ==> id in h'.subs && h'.subs[id] == Deliver(h.self, h.subs[id], e))
  {
    hide Deliver, Trim;
  }

  lemma NextPublish(w: World, ev: Event)
    ensures Next(w, Publish(ev)) == World(Stamp(w.hub, ev), w.client)
  {
    hide Stamp;
  }

  lemma PublishKeeps(w: World, ev: Event)
    requires WorldInv(w)
    ensures WorldInv(Next(w, Publish(ev)))
    ensures Caught(w) ==> Caught(Next(w, Publish(ev)))
  {
    hide *;
    var h, c, h', e := w.hub, w.client, Stamp(w.hub, ev), Stamped(w.hub, ev);
    Parts(w);
    NextPublish(w, ev);
    StampKeepsInv(h, ev);
    StampShape(h, ev);
    ExactGrows(c, h.log, h'.log);
    if Polling(c) {
      PollOf(c, h);
      PollOf(c, h');
      DeliverKeepsPoll(c, h.self, h.subs[PollId(c)], e);
    } else {
      NoPoll(c, h');
    }
    Whole(h', c);
    if Caught(w) {
      CaughtStays(w, World(h', c));
    }
  }

  lemma NoPoll(c: Client, h: HubState)
    requires !Polling(c)
    ensures Polls(c, h)
  {
    hide Polling, PollInv;
  }

  lemma NextRestart(w: World)
    ensures Enabled(w, Restart)
    ensures Next(w, Restart) == World(Restarted(w.hub), w.client.(phase := Idle))
    ensures Restarted(w.hub).log == w.hub.log && Restarted(w.hub).epoch == w.hub.epoch
  {
  }

  lemma RestartKeeps(w: World)
    requires WorldInv(w)
    ensures WorldInv(Next(w, Restart)) && Caught(Next(w, Restart))
  {
    hide *;
    Parts(w);
    NextRestart(w);
    RestartedInv(w.hub);
    var w' := Next(w, Restart);
    SameHistory(w.client, w'.client, w.hub.log);
    IdleClient(w'.client, w'.hub);
    Whole(w'.hub, w'.client);
    NotPolling(w');
  }

  /** What other subscribers do to the hub: nothing is stamped, and no other subscriber is touched. */
  lemma OtherShape(w: World, step: Step)
    requires Inv(w.hub) && Enabled(w, step) && (step.OtherAdd? || step.OtherRemove? || step.OtherReceive?)
    requires Polling(w.client) ==> PollId(w.client) in w.hub.subs && PollId(w.client) != w.hub.nextId
    ensures var h' := Next(w, step).hub;
            && Inv(h') && h'.log == w.hub.log && h'.epoch == w.hub.epoch && Next(w, step) == World(h', w.client)
            && (Polling(w.client) ==> PollId(w.client) in h'.subs && h'.subs[PollId(w.client)] == w.hub.subs[PollId(w.client)])
  {
    hide Inv, Add, Polling, PollId;
    match step
    case OtherAdd(scope, filter, cursor, epoch) =>
      AddShape(w.hub, scope, filter, cursor, epoch);
    case OtherRemove(id) =>
      RemoveKeepsInv(w.hub, id);
    case OtherReceive(id) =>
      ReceiveKeepsInv(w.hub, id);
  }

  lemma AddFields(h: HubState, scope: Scope, filter: SubscribeFilter, from: int, epoch: string)
    ensures var r := Add(h, scope, filter, from, epoch);
            && r.hub.log == h.log && r.hub.epoch == h.epoch && r.id == h.nextId
            && Remove(r.hub, r.id).log == h.log && Remove(r.hub, r.id).epoch == h.epoch
            && r.hub.subs == h.subs[h.nextId := Sub(filter, scope, [], false, h.cursor, [])]
            && (r.resync <==> NeedsResync(h, from, epoch))
            && r.backlog == (if Fresh(from, epoch) || r.resync then [] else Backlog(h, filter, from))
  {
    hide Backlog, Oldest;
  }

  lemma AddShape(h: HubState, scope: Scope, filter: SubscribeFilter, from: int, epoch: string)
    requires Inv(h)
    ensures var r := Add(h, scope, filter, from, epoch);
            && Inv(r.hub) && Inv(Remove(r.hub, r.id))
            && r.hub.log == h.log && r.hub.epoch == h.epoch && r.id == h.nextId
            && Remove(r.hub, r.id).log == h.log && Remove(r.hub, r.id).epoch == h.epoch
            && r.hub.subs == h.subs[h.nextId := Sub(filter, scope, [], false, h.cursor, [])]
            && (r.resync <==> NeedsResync(h, from, epoch))
            && r.backlog == (if Fresh(from, epoch) || r.resync then [] else Backlog(h, filter, from))
  {
    hide *;
    AddFields(h, scope, filter, from, epoch);
    AddKeepsInv(h, scope, filter, from, epoch);
    RemoveKeepsInv(Add(h, scope, filter, from, epoch).hub, h.nextId);
  }

  lemma OtherStepKeeps(w: World, step: Step)
    requires WorldInv(w) && Enabled(w, step)
    requires step.OtherAdd? || step.OtherRemove? || step.OtherReceive?
    ensures WorldInv(Next(w, step))
    ensures Caught(w) ==> Caught(Next(w, step))
  {
    hide *;
    var c := w.client;
    Parts(w);
    if Polling(c) {
      PollJoined(w);
    }
    OtherShape(w, step);
    var h' := Next(w, step).hub;
    if Polling(c) {
      PollOf(c, w.hub);
      PollOf(c, h');
    } else {
      NoPoll(c, h');
    }
    Whole(h', c);
    if Caught(w) {
      CaughtStays(w, World(h', c));
    }
  }

  // ---- answering -----------------------------------------------------------

  lemma LastIsResumePoint(since: nat, batch: seq<Event>)
    requires batch != [] && batch[|batch| - 1].cursor > 0
    ensures ResumePoint(since, batch) == batch[|batch| - 1].cursor
  {
  }

  /** The client once it is given a batch. */
  function Advanced(c: Client, batch: seq<Event>, epoch: string, start: nat): Client
    requires batch != [] && batch[|batch| - 1].cursor > 0
  {
    c.(phase := Idle, since := batch[|batch| - 1].cursor, epoch := epoch, got := c.got + batch, start := start)
  }

  lemma AnswerShape(w: World, id: nat, joined: nat, batch: seq<Event>, lost: bool)
    requires batch != [] && batch[|batch| - 1].cursor > 0
    ensures var w' := Answer(w, id, joined, batch, lost);
            && w'.hub == Remove(w.hub, id) && w'.hub.log == w.hub.log && w'.hub.epoch == w.hub.epoch
            && w'.client == if lost then w.client.(phase := Idle)
                            else Advanced(w.client, batch, w.hub.epoch, if IsFresh(w) then joined else w.client.start)
  {
    LastIsResumePoint(w.client.since, batch);
    hide ResumePoint, IsFresh;
  }

  lemma AnswerIsIdle(w: World, id: nat, joined: nat, batch: seq<Event>, lost: bool)
    ensures Answer(w, id, joined, batch, lost).client.phase == Idle
    ensures Answer(w, id, joined, batch, lost).hub.log == w.hub.log
    ensures Answer(w, id, joined, batch, lost).client.resynced == w.client.resynced
  {
    hide ResumePoint, IsFresh;
  }

  /** Taking a range as an answer extends the exact history by it. */
  lemma AnswerKeeps(w: World, id: nat, joined: nat, batch: seq<Event>, lost: bool)
    requires Inv(w.hub) && w.hub.epoch != "" && Unasked(w.client) && Exact(w.client, w.hub.log)
    requires batch != []
    requires var last := batch[|batch| - 1].cursor;
             w.client.since < last <= |w.hub.log| && joined <= last &&
             batch == Matching(w.client.filter, w.hub.log[if IsFresh(w) then joined else w.client.since..last])
    ensures WorldInv(Answer(w, id, joined, batch, lost))
  {
    hide *;
    RemoveKeepsInv(w.hub, id);
    AnswerShape(w, id, joined, batch, lost);
    AnswerIsIdle(w, id, joined, batch, lost);
    var w' := Answer(w, id, joined, batch, lost);
    if lost {
      SameHistory(w.client, w'.client, w.hub.log);
    } else {
      ExactExtends(w, w.hub.log, joined, batch);
    }
    IdleClient(w'.client, w'.hub);
    Whole(w'.hub, w'.client);
  }

  lemma ExactExtends(w: World, log: seq<Event>, joined: nat, batch: seq<Event>)
    requires Unasked(w.client) && Exact(w.client, log) && batch != []
    requires var last := batch[|batch| - 1].cursor;
             w.client.since < last <= |log| && joined <= last &&
             batch == Matching(w.client.filter, log[if IsFresh(w) then joined else w.client.since..last])
    ensures var c := Advanced(w.client, batch, w.hub.epoch, if IsFresh(w) then joined else w.client.start);
            Unasked(c) && Exact(c, log)
  {
    hide Matching;
    var c, last := w.client, batch[|batch| - 1].cursor;
    if IsFresh(w) {
      assert c.got == [] && [] + batch == batch;
    } else {
      MatchingConcat(c.filter, log, c.start, c.since, last);
    }
  }

  // ---- the poll ------------------------------------------------------------

  /** What a poll's first step does, by how its cursor was met. */
  lemma NextPollStart(w: World, lost: bool)
    requires Enabled(w, PollStart(lost))
    ensures w.client.phase == Idle && !w.client.resynced
    ensures var h, c := w.hub, w.client;
            var r := Add(h, ScopeFleet, c.filter, c.since, SentEpoch(w));
            Next(w, PollStart(lost))
              == if r.resync then World(Remove(r.hub, r.id), if lost then c else c.(resynced := true))
                 else if r.backlog != [] then Answer(World(r.hub, c), r.id, h.cursor, r.backlog, lost)
                 else World(r.hub, c.(phase := Waiting(r.id)))
  {
    hide Add, Remove, Answer, SentEpoch;
  }

  /** How the cursor is met. */
  lemma StartShape(w: World)
    requires Inv(w.hub)
    ensures var h, c := w.hub, w.client;
            var r := Add(h, ScopeFleet, c.filter, c.since, SentEpoch(w));
            && Inv(r.hub) && Inv(Remove(r.hub, r.id))
            && r.hub.log == h.log && r.hub.epoch == h.epoch && r.id == h.nextId
            && Remove(r.hub, r.id).log == h.log && Remove(r.hub, r.id).epoch == h.epoch
            && r.id in r.hub.subs && r.hub.subs[r.id] == Sub(c.filter, ScopeFleet, [], false, h.cursor, [])
            && (r.resync <==> NeedsResync(h, c.since, SentEpoch(w)))
            && r.backlog == (if IsFresh(w) || r.resync then [] else Backlog(h, c.filter, c.since))
  {
    hide *;
    AddShape(w.hub, ScopeFleet, w.client.filter, w.client.since, SentEpoch(w));
    FreshIs(w);
  }

  lemma FreshIs(w: World)
    ensures IsFresh(w) == Fresh(w.client.since, SentEpoch(w))
    ensures IsFresh(w) ==> w.client.since == 0
    ensures forall h: HubState :: h.epoch == w.hub.epoch ==> IsFresh(World(h, w.client)) == IsFresh(w)
  {
  }

  /** A poll accepted over a non-empty window is handed the matching log after its cursor. */
  lemma AcceptedBacklog(w: World)
    requires Inv(w.hub) && w.hub.epoch != "" && !IsFresh(w) && w.hub.ring != []
    requires !NeedsResync(w.hub, w.client.since, SentEpoch(w))
    ensures w.client.since <= |w.hub.log|
    ensures var backlog := Backlog(w.hub, w.client.filter, w.client.since);
            && backlog == Matching(w.client.filter, w.hub.log[w.client.since..])
            && (backlog != [] ==>
                 var last := backlog[|backlog| - 1].cursor;
                 && w.client.since < last <= |w.hub.log|
                 && backlog == Matching(w.client.filter, w.hub.log[w.client.since..last]))
  {
    hide *;
    var h, c := w.hub, w.client;
    FreshIs(w);
    AcceptedFrom(h, c.filter, c.since, SentEpoch(w));
    if Backlog(h, c.filter, c.since) != [] {
      BacklogEnds(h, c.filter, c.since);
    }
  }

  lemma BacklogEnds(h: HubState, filter: SubscribeFilter, since: nat)
    requires Inv(h) && since <= |h.log| && Matching(filter, h.log[since..]) != []
    ensures var backlog := Matching(filter, h.log[since..]);
            var last := backlog[|backlog| - 1].cursor;
            since < last <= |h.log| && backlog == Matching(filter, h.log[since..last])
  {
    LogIsNumbered(h, since);
    hide Inv;
    var backlog := Matching(filter, h.log[since..]);
    PrefixEndsAtItsCursor(Matcher(filter), h.log[since..], since, backlog);
    var last := backlog[|backlog| - 1].cursor;
    assert h.log[since..][..last - since] == h.log[since..last];
  }

  lemma LogIsNumbered(h: HubState, from: nat)
    requires Inv(h) && from <= |h.log|
    ensures forall i :: 0 <= i < |h.log[from..]| ==> h.log[from..][i].cursor == from + i + 1
  {
  }

  lemma AcceptedFrom(h: HubState, filter: SubscribeFilter, since: nat, epoch: string)
    requires Inv(h) && h.epoch != "" && h.ring != [] && !Fresh(since, epoch) && !NeedsResync(h, since, epoch)
    ensures since <= h.cursor == |h.log|
    ensures Backlog(h, filter, since) == Matching(filter, h.log[since..])
  {
    ResumeExact(h, ScopeFleet, filter, since);
  }

  lemma EmptyWindow(w: World)
    requires Inv(w.hub) && w.hub.ring == [] && !IsFresh(w) && !NeedsResync(w.hub, w.client.since, SentEpoch(w))
    ensures Backlog(w.hub, w.client.filter, w.client.since) == [] && w.client.since <= |w.hub.log|
  {
  }

  lemma NotPast(w: World)
    requires !NeedsResync(w.hub, w.client.since, SentEpoch(w))
    ensures w.client.since <= w.hub.cursor
  {
  }

  lemma WaitingPolls(c: Client, h: HubState, id: nat, joined: nat)
    requires id in h.subs && h.subs[id] == Sub(c.filter, ScopeFleet, [], false, joined, []) && c.since <= joined
    ensures Polls(c.(phase := Waiting(id)), h)
  {
  }

  lemma PollStartKeeps(w: World, lost: bool)
    requires WorldInv(w) && Enabled(w, PollStart(lost))
    ensures WorldInv(Next(w, PollStart(lost)))
  {
    hide *;
    Parts(w);
    NextPollStart(w, lost);
    StartShape(w);
    var c, w' := w.client, Next(w, PollStart(lost));
    var r := Add(w.hub, ScopeFleet, c.filter, c.since, SentEpoch(w));
    if !r.resync && r.backlog != [] {
      StartAnswers(w, r, lost);
    } else {
      SameHistory(c, w'.client, w.hub.log);
      if r.resync {
        IdleClient(w'.client, w'.hub);
      } else {
        NotPast(w);
        WaitingPolls(c, r.hub, r.id, w.hub.cursor);
      }
      Whole(w'.hub, w'.client);
    }
  }

  lemma StartAnswers(w: World, r: Resumption, lost: bool)
    requires Inv(w.hub) && w.hub.epoch != "" && Unasked(w.client) && Exact(w.client, w.hub.log)
    requires !IsFresh(w) && !NeedsResync(w.hub, w.client.since, SentEpoch(w))
    requires r.backlog == Backlog(w.hub, w.client.filter, w.client.since) != []
    requires Inv(r.hub) && r.hub.log == w.hub.log && r.hub.epoch == w.hub.epoch
    ensures WorldInv(Answer(World(r.hub, w.client), r.id, w.hub.cursor, r.backlog, lost))
  {
    hide *;
    if w.hub.ring == [] {
      EmptyWindow(w);
    }
    AcceptedBacklog(w);
    FreshIs(w);
    var last := r.backlog[|r.backlog| - 1].cursor;
    var joined := if w.hub.cursor <= last then w.hub.cursor else last;
    AnswerKeeps(World(r.hub, w.client), r.id, joined, r.backlog, lost);
    SameAnswer(World(r.hub, w.client), r.id, joined, w.hub.cursor, r.backlog, lost);
  }

  /** Only a fresh poll's answer depends on where it joined. */
  lemma SameAnswer(w: World, id: nat, joined: nat, joined': nat, batch: seq<Event>, lost: bool)
    requires !IsFresh(w)
    ensures Answer(w, id, joined, batch, lost) == Answer(w, id, joined', batch, lost)
  {
    hide ResumePoint, IsFresh;
  }

  /** Which polls start out behind: exactly those whose cursor is accepted by an empty window although
      something they ask for was stamped after it. */
  lemma StartCaughtIff(w: World, lost: bool)
    requires WorldInv(w) && Enabled(w, PollStart(lost))
    ensures Caught(Next(w, PollStart(lost))) <==> MetWindow(w)
  {
    hide *;
    Parts(w);
    NextPollStart(w, lost);
    StartShape(w);
    StartCases(w);
    var c := w.client;
    var r := Add(w.hub, ScopeFleet, c.filter, c.since, SentEpoch(w));
    if r.resync {
      NotPolling(Next(w, PollStart(lost)));
    } else if r.backlog != [] {
      AnswerIsIdle(World(r.hub, c), r.id, w.hub.cursor, r.backlog, lost);
      NotPolling(Next(w, PollStart(lost)));
    } else {
      WaitingCaught(w, r.hub, r.id);
    }
  }

  lemma WaitingCaught(w: World, h: HubState, id: nat)
    requires h.log == w.hub.log && h.epoch == w.hub.epoch && id in h.subs && h.subs[id].joined <= |h.log|
    ensures Caught(World(h, w.client.(phase := Waiting(id)))) <==> NothingPending(w, h.subs[id].joined)
  {
    hide Matching;
  }

  /** A poll that is accepted without a backlog has nothing pending exactly when it met the window. */
  lemma StartCases(w: World)
    requires Inv(w.hub) && w.hub.epoch != ""
    ensures w.hub.cursor == |w.hub.log|
    ensures NeedsResync(w.hub, w.client.since, SentEpoch(w)) ==> MetWindow(w)
    ensures !IsFresh(w) && !NeedsResync(w.hub, w.client.since, SentEpoch(w)) && Backlog(w.hub, w.client.filter, w.client.since) != []
            ==> MetWindow(w)
    ensures IsFresh(w) || (!NeedsResync(w.hub, w.client.since, SentEpoch(w)) && Backlog(w.hub, w.client.filter, w.client.since) == [])
            ==> (NothingPending(w, w.hub.cursor) <==> MetWindow(w))
  {
    hide Inv, RingInv, Backlog, NeedsResync, Matching, SentEpoch, IsFresh;
    LogLength(w.hub);
    if !IsFresh(w) && !NeedsResync(w.hub, w.client.since, SentEpoch(w)) {
      if w.hub.ring == [] {
        EmptyWindow(w);
      } else {
        AcceptedBacklog(w);
      }
      assert w.hub.log[w.client.since..] == w.hub.log[w.client.since..w.hub.cursor];
    }
  }

  /** The poll takes one event off its channel. */
  lemma PollTakes(w: World, step: Step)
    requires WorldInv(w) && Enabled(w, step) && (step.PollTake? || step.PollDrain?)
    ensures WorldInv(Next(w, step))
    ensures Caught(w) ==> Caught(Next(w, step))
  {
    hide *;
    Parts(w);
    TakeEnabled(w, step);
    var c, id := w.client, PollId(w.client);
    PollOf(c, w.hub);
    ReceiveKeepsInv(w.hub, id);
    NextTake(w, step);
    var w' := Next(w, step);
    TakeKeepsPoll(c, w.hub.subs[id], w'.client);
    ReceiveShape(w.hub, id);
    SameHistory(c, w'.client, w.hub.log);
    PollOf(w'.client, w'.hub);
    Whole(w'.hub, w'.client);
    if Caught(w) {
      CaughtStays(w, w');
    }
  }

  lemma TakeEnabled(w: World, step: Step)
    requires Enabled(w, step) && (step.PollTake? || step.PollDrain?)
    ensures Polling(w.client) && PollId(w.client) in w.hub.subs && w.hub.subs[PollId(w.client)].queue != []
  {
  }

  function Taken(c: Client): seq<Event>
  {
    if c.phase.Draining? then c.phase.batch else []
  }

  lemma NextTake(w: World, step: Step)
    requires Enabled(w, step) && (step.PollTake? || step.PollDrain?)
    requires Polling(w.client) && PollId(w.client) in w.hub.subs && w.hub.subs[PollId(w.client)].queue != []
    ensures var id := PollId(w.client);
            Next(w, step) == World(Receive(w.hub, id),
                                   w.client.(phase := Draining(id, Taken(w.client) + [w.hub.subs[id].queue[0]])))
    ensures Polling(Next(w, step).client) && PollId(Next(w, step).client) == PollId(w.client)
  {
    hide Receive;
    assert forall e: Event :: [] + [e] == [e];
  }

  lemma ReceiveShape(h: HubState, id: int)
    requires id in h.subs && h.subs[id].queue != []
    ensures var h', s := Receive(h, id), h.subs[id];
            && h'.log == h.log && h'.epoch == h.epoch && id in h'.subs
            && h'.subs[id] == s.(queue := s.queue[1..]) && h'.subs[id].joined == s.joined && h'.subs[id].sent == s.sent
  {
  }

  lemma TakeKeepsPoll(c: Client, s: Sub, c': Client)
    requires Polling(c) && PollInv(c, s) && s.queue != []
    requires c' == c.(phase := Draining(PollId(c), Taken(c) + [s.queue[0]]))
    ensures PollInv(c', s.(queue := s.queue[1..]))
  {
    if c.phase.Draining? {
      assert (c.phase.batch + [s.queue[0]]) + s.queue[1..] == c.phase.batch + s.queue;
    } else {
      assert ([] + [s.queue[0]]) + s.queue[1..] == s.queue;
    }
  }

  lemma PollEmptyKeeps(w: World, step: Step)
    requires WorldInv(w) && Enabled(w, step) && (step.PollTimeout? || step.PollAbort?)
    ensures WorldInv(Next(w, step)) && Caught(Next(w, step))
  {
    hide *;
    Parts(w);
    EmptyAnswer(w, step);
    var w' := Next(w, step);
    RemoveKeepsInv(w.hub, PollId(w.client));
    SameHistory(w.client, w'.client, w.hub.log);
    IdleClient(w'.client, w'.hub);
    Whole(w'.hub, w'.client);
    NotPolling(w');
  }

  /** No poll goes on, and the client knows what it knew. */
  lemma EmptyAnswer(w: World, step: Step)
    requires Enabled(w, step) && (step.PollTimeout? || step.PollAbort?)
    ensures Polling(w.client)
    ensures var w' := Next(w, step);
            && w'.hub == Remove(w.hub, PollId(w.client)) && w'.hub.log == w.hub.log && w'.hub.epoch == w.hub.epoch
            && w'.client == w.client.(phase := Idle, epoch := w'.client.epoch)
  {
    hide IsFresh;
    assert w.client.got + [] == w.client.got;
  }

  /** A poll that can finish, and what it answers. */
  lemma Finishing(w: World, lost: bool) returns (id: nat, s: Sub, batch: seq<Event>)
    requires WorldInv(w) && Enabled(w, PollFinish(lost))
    ensures w.client.phase == Draining(id, batch) && id in w.hub.subs && s == w.hub.subs[id]
    ensures Polling(w.client) && PollId(w.client) == id
    ensures Next(w, PollFinish(lost)) == Answer(w, id, s.joined, batch, lost)
    ensures batch == s.sent != [] && s.filter == w.client.filter && s.scope == ScopeFleet
    ensures RingInv(w.hub) && SubInv(w.hub.self, w.hub.log, s) && w.client.since <= s.joined <= |w.hub.log|
  {
    hide *;
    FinishEnabled(w, lost);
    Parts(w);
    id, batch := w.client.phase.polled, w.client.phase.batch;
    s := w.hub.subs[id];
    NextFinish(w, lost);
    PollOf(w.client, w.hub);
    TakenIsSent(w.client, s);
    LogLength(w.hub);
    SubOf(w.hub, id);
  }

  lemma FinishEnabled(w: World, lost: bool)
    requires Enabled(w, PollFinish(lost))
    ensures w.client.phase.Draining? && Polling(w.client) && PollId(w.client) == w.client.phase.polled
    ensures w.client.phase.polled in w.hub.subs && w.hub.subs[w.client.phase.polled].queue == []
  {
  }

  lemma NextFinish(w: World, lost: bool)
    requires Enabled(w, PollFinish(lost)) && w.client.phase.Draining? && w.client.phase.polled in w.hub.subs
    ensures var id := w.client.phase.polled;
            Next(w, PollFinish(lost)) == Answer(w, id, w.hub.subs[id].joined, w.client.phase.batch, lost)
  {
    hide Answer;
  }

  lemma TakenIsSent(c: Client, s: Sub)
    requires c.phase.Draining? && PollInv(c, s) && s.queue == []
    ensures c.phase.batch == s.sent != [] && s.filter == c.filter && s.scope == ScopeFleet && c.since <= s.joined
  {
  }

  lemma GaplessIs(w: World, id: nat, s: Sub)
    requires Polling(w.client) && PollId(w.client) == id && id in w.hub.subs && w.hub.subs[id] == s && s.joined <= |w.hub.log|
    ensures Gapless(w) <==> s.sent <= Owed(w.hub.self, w.hub.log, s)
    ensures Caught(w) <==> NothingPending(w, s.joined)
  {
    hide Owed, NothingPending;
  }

  /** What a poll that missed nothing before it subscribed has taken, seen from the client's cursor. */
  lemma RangeFromCursor(w: World, joined: nat, last: nat, batch: seq<Event>)
    requires joined <= last <= |w.hub.log| && w.client.since <= joined && NothingPending(w, joined)
    requires batch == Matching(w.client.filter, w.hub.log[joined..last])
    ensures batch == Matching(w.client.filter, w.hub.log[if IsFresh(w) then joined else w.client.since..last])
  {
    hide Matching, IsFresh;
    if !IsFresh(w) {
      MatchingConcat(w.client.filter, w.hub.log, w.client.since, joined, last);
      assert [] + batch == batch;
    }
  }

  lemma PollFinishKeeps(w: World)
    requires WorldInv(w) && Enabled(w, PollFinish(false)) && Gapless(w) && Caught(w)
    ensures WorldInv(Next(w, PollFinish(false))) && Caught(Next(w, PollFinish(false)))
  {
    hide *;
    var id, s, batch := Finishing(w, false);
    Parts(w);
    GaplessIs(w, id, s);
    BatchIsRange(w.hub, s, batch);
    RangeFromCursor(w, s.joined, batch[|batch| - 1].cursor, batch);
    AnswerKeeps(w, id, s.joined, batch, false);
    AnswerIsIdle(w, id, s.joined, batch, false);
    NotPolling(Next(w, PollFinish(false)));
  }

  /** An answer that never arrives teaches the client nothing. */
  lemma LostFinishKeeps(w: World)
    requires WorldInv(w) && Enabled(w, PollFinish(true))
    ensures WorldInv(Next(w, PollFinish(true))) && Caught(Next(w, PollFinish(true)))
  {
    hide *;
    var id, s, batch := Finishing(w, true);
    Parts(w);
    LostAnswer(w, id, s.joined, batch);
    RemoveKeepsInv(w.hub, id);
    var w' := Next(w, PollFinish(true));
    SameHistory(w.client, w'.client, w.hub.log);
    IdleClient(w'.client, w'.hub);
    Whole(w'.hub, w'.client);
    NotPolling(w');
  }

  lemma LostAnswer(w: World, id: nat, joined: nat, batch: seq<Event>)
    ensures Answer(w, id, joined, batch, true) == World(Remove(w.hub, id), w.client.(phase := Idle))
    ensures Remove(w.hub, id).log == w.hub.log && Remove(w.hub, id).epoch == w.hub.epoch
  {
    hide IsFresh;
  }

  /** Every step keeps the client's history exact; only an answer that arrives needs its poll to be gapless and to
      have started out with nothing missed. */
  lemma StepKeeps(w: World, step: Step)
    requires WorldInv(w) && Enabled(w, step)
    requires step == PollFinish(false) ==> Gapless(w) && Caught(w)
    ensures WorldInv(Next(w, step))
    ensures Caught(w) && (step.PollStart? ==> MetWindow(w)) ==> Caught(Next(w, step))
  {
    hide *;
    match step {
      case Publish(ev) => PublishKeeps(w, ev);
      case Restart => RestartKeeps(w);
      case OtherAdd(_, _, _, _) => OtherStepKeeps(w, step);
      case OtherRemove(_) => OtherStepKeeps(w, step);
      case OtherReceive(_) => OtherStepKeeps(w, step);
      case PollStart(lost) => PollStartKeeps(w, lost); StartCaughtIff(w, lost);
      case PollTimeout(_) => PollEmptyKeeps(w, step);
      case PollAbort => PollEmptyKeeps(w, step);
      case PollTake => PollTakes(w, step);
      case PollDrain => PollTakes(w, step);
      case PollFinish(lost) =>
        if lost {
          LostFinishKeeps(w);
        } else {
          PollFinishKeeps(w);
        }
    }
  }

  // ---- whole runs ---------------------------------------------------------

  ghost predicate IsRun(ws: seq<World>, steps: seq<Step>)
  {
    && |ws| == |steps| + 1
    && (forall i :: 0 <= i < |steps| ==> Enabled(ws[i], steps[i]) && ws[i + 1] == Next(ws[i], steps[i]))
  }

  /** No poll finishes after a delivery that followed a drop, and each is looked up in a window that has
      something in it unless there is nothing to miss. */
  ghost predicate WellMet(ws: seq<World>, steps: seq<Step>)
    requires |ws| == |steps| + 1
  {
    forall i :: 0 <= i < |steps| ==>
      (steps[i] == PollFinish(false) ==> Gapless(ws[i])) && (steps[i].PollStart? ==> MetWindow(ws[i]))
  }

  /** Over any interleaving, timeouts, aborts, lost answers and restarts included: the concatenated batches
      are exactly the filter-matching stamped events between the client's start and its cursor, in
      order, with no omission and no repeat. */
  lemma {:induction false} WholeRunExact(ws: seq<World>, steps: seq<Step>)
    requires IsRun(ws, steps) && Start(ws[0]) && WellMet(ws, steps)
    ensures var w := ws[|steps|];
            WorldInv(w) && Caught(w) && (w.client.since <= |w.hub.log| ==>
              w.client.got == Matching(w.client.filter, w.hub.log[w.client.start..w.client.since]))
    decreases |steps|
  {
    hide Start, WorldInv, Matching, Next, Enabled, Gapless, MetWindow, Caught;
    var n := |steps|;
    if n == 0 {
      StartInv(ws[0]);
      StartsCaught(ws[0]);
    } else {
      assert IsRun(ws[..n], steps[..n - 1]);
      assert WellMet(ws[..n], steps[..n - 1]);
      WholeRunExact(ws[..n], steps[..n - 1]);
      assert ws[..n][n - 1] == ws[n - 1];
      StepKeeps(ws[n - 1], steps[n - 1]);
    }
    Parts(ws[n]);
  }

  /** Every answer that arrives comes from a poll that was gapless and started out with nothing missed. */
  ghost predicate WellAnswered(ws: seq<World>, steps: seq<Step>)
    requires |ws| == |steps| + 1
  {
    forall i :: 0 <= i < |steps| && steps[i] == PollFinish(false) ==> Gapless(ws[i]) && Caught(ws[i])
  }

  predicate AlwaysExact(ws: seq<World>)
  {
    forall i :: 0 <= i < |ws| ==> Exact(ws[i].client, ws[i].hub.log)
  }

  /** The condition is exact over whole runs, restarts included: the client's history is exact all along if and
      only if every answer that arrived came from a gapless poll that missed nothing before it began.
      Which polls begin behind, StartCaughtIff says. */
  lemma RunExactIff(ws: seq<World>, steps: seq<Step>)
    requires IsRun(ws, steps) && Start(ws[0])
    ensures AlwaysExact(ws) <==> WellAnswered(ws, steps)
  {
    hide Start, Next, Enabled, WellAnswered, AlwaysExact;
    if WellAnswered(ws, steps) {
      AnsweredExactly(ws, steps);
    }
    if AlwaysExact(ws) {
      ExactlyAnswered(ws, steps);
    }
  }

  lemma {:induction false} AnsweredExactly(ws: seq<World>, steps: seq<Step>)
    requires IsRun(ws, steps) && Start(ws[0]) && WellAnswered(ws, steps)
    ensures AlwaysExact(ws) && WorldInv(ws[|steps|])
    decreases |steps|
  {
    hide Start, WorldInv, Next, Enabled, Gapless, Caught, Exact;
    var n := |steps|;
    if n == 0 {
      StartInv(ws[0]);
    } else {
      assert IsRun(ws[..n], steps[..n - 1]);
      assert WellAnswered(ws[..n], steps[..n - 1]);
      AnsweredExactly(ws[..n], steps[..n - 1]);
      assert ws[..n][n - 1] == ws[n - 1];
      StepKeeps(ws[n - 1], steps[n - 1]);
    }
    Parts(ws[n]);
    assert forall i :: 0 <= i < n ==> ws[..n][i] == ws[i];
  }

  lemma {:induction false} ExactlyAnswered(ws: seq<World>, steps: seq<Step>)
    requires IsRun(ws, steps) && Start(ws[0]) && AlwaysExact(ws)
    ensures WellAnswered(ws, steps) && WorldInv(ws[|steps|])
    decreases |steps|
  {
    hide Start, WorldInv, Next, Enabled, Gapless, Caught, Exact;
    var n := |steps|;
    if n == 0 {
      StartInv(ws[0]);
    } else {
      assert IsRun(ws[..n], steps[..n - 1]);
      assert AlwaysExact(ws[..n]);
      ExactlyAnswered(ws[..n], steps[..n - 1]);
      var w, step := ws[n - 1], steps[n - 1];
      assert ws[..n][n - 1] == w && Exact(ws[n].client, ws[n].hub.log);
      if step == PollFinish(false) {
        FinishExactIff(w);
        FinishLog(w);
      }
      StepKeeps(w, step);
      forall i | 0 <= i < n && steps[i] == PollFinish(false) ensures Gapless(ws[i]) && Caught(ws[i]) {
        assert i < n - 1 ==> steps[..n - 1][i] == steps[i] && ws[..n][i] == ws[i];
      }
    }
  }

  lemma FinishLog(w: World)
    requires WorldInv(w) && Enabled(w, PollFinish(false))
    ensures Next(w, PollFinish(false)).hub.log == w.hub.log
  {
    hide *;
    var id, s, batch := Finishing(w, false);
    AnswerIsIdle(w, id, s.joined, batch, false);
  }

  /** A poll whose channel saw a delivery after a drop has skipped something for good. */
  lemma LateDeliveryLoses(h: HubState, s: Sub, batch: seq<Event>)
    requires RingInv(h) && SubInv(h.self, h.log, s) && s.scope == ScopeFleet
    requires batch != [] && batch == s.sent && !(s.sent <= Owed(h.self, h.log, s))
    ensures var last := batch[|batch| - 1].cursor;
            s.joined < last <= |h.log| && batch != Matching(s.filter, h.log[s.joined..last])
  {
    hide Matching, Admitted, RingInv, SubInv;
    BatchIsLate(h, s, batch);
    var last := batch[|batch| - 1].cursor;
    assert h.log[s.joined..|h.log|] == h.log[s.joined..];
    MatchingConcat(s.filter, h.log, s.joined, last, |h.log|);
    FleetOwesMatching(h.self, s.filter, h.log[s.joined..]);
  }

  /** Whatever a poll took was stamped after it subscribed. */
  lemma BatchIsLate(h: HubState, s: Sub, batch: seq<Event>)
    requires RingInv(h) && SubInv(h.self, h.log, s) && s.scope == ScopeFleet && batch == s.sent
    ensures forall i :: 0 <= i < |batch| ==> s.joined < batch[i].cursor <= |h.log|
  {
    hide *;
    SentIsLogged(h.self, h.log, s);
    forall i | 0 <= i < |batch| ensures s.joined < batch[i].cursor <= |h.log| {
      assert batch[i] in h.log[s.joined..];
      StampedLate(h, s.joined, batch[i]);
    }
  }

  lemma SentIsLogged(self: MachineId, log: seq<Event>, s: Sub)
    requires SubInv(self, log, s) && s.scope == ScopeFleet
    ensures s.joined <= |log| && forall e :: e in s.sent ==> e in log[s.joined..]
  {
    hide Filter, Subsequence, Admits;
    SubsequenceOf(s.sent, Owed(self, log, s));
    FilterMembers(Admitter(self, s.scope, s.filter), log[s.joined..]);
  }

  lemma StampedLate(h: HubState, joined: nat, e: Event)
    requires RingInv(h) && joined <= |h.log| && e in h.log[joined..]
    ensures joined < e.cursor <= |h.log|
  {
    var i :| 0 <= i < |h.log[joined..]| && h.log[joined..][i] == e;
    assert e == h.log[joined + i];
  }

  /** A poll that starts out behind answers over what it missed. */
  lemma BehindLoses(w: World, joined: nat, last: nat, batch: seq<Event>)
    requires RingInv(w.hub) && w.client.since <= joined < last <= |w.hub.log| && !NothingPending(w, joined)
    requires batch != [] && batch[0].cursor > joined
    ensures !IsFresh(w) && batch != Matching(w.client.filter, w.hub.log[w.client.since..last])
  {
    hide IsFresh, RingInv, MatchesEvent;
    var log, c := w.hub.log, w.client;
    var missed := Matching(c.filter, log[c.since..joined]);
    MatchingConcat(c.filter, log, c.since, joined, last);
    FilterMembers(Matcher(c.filter), log[c.since..joined]);
    assert missed[0] in log[c.since..joined];
    MissedAreEarly(w.hub, c.since, joined, missed[0]);
    assert (missed + Matching(c.filter, log[joined..last]))[0] == missed[0];
  }

  lemma MissedAreEarly(h: HubState, since: nat, joined: nat, e: Event)
    requires RingInv(h) && since <= joined <= |h.log| && e in h.log[since..joined]
    ensures e.cursor <= joined
  {
    var i :| 0 <= i < |h.log[since..joined]| && h.log[since..joined][i] == e;
    assert e == h.log[since + i];
  }

  /** An answer that leaves the history exact was the matching log since the client's cursor, or since the
      poll joined when the client had none. */
  lemma ExactAnswerIsRange(w: World, joined: nat, batch: seq<Event>)
    requires Unasked(w.client) && Exact(w.client, w.hub.log) && batch != []
    requires var last := batch[|batch| - 1].cursor; w.client.since <= last <= |w.hub.log| && 0 < last && joined <= last
    requires Exact(Advanced(w.client, batch, w.hub.epoch, if IsFresh(w) then joined else w.client.start), w.hub.log)
    ensures var c, last := w.client, batch[|batch| - 1].cursor;
            batch == Matching(c.filter, w.hub.log[if IsFresh(w) then joined else c.since..last])
  {
    hide Matching;
    var log, c, last := w.hub.log, w.client, batch[|batch| - 1].cursor;
    if IsFresh(w) {
      assert [] + batch == batch;
    } else {
      MatchingConcat(c.filter, log, c.start, c.since, last);
      assert batch == (c.got + batch)[|c.got|..];
      assert Matching(c.filter, log[c.since..last]) == (c.got + Matching(c.filter, log[c.since..last]))[|c.got|..];
    }
  }

  /** The condition is exact: a poll that finishes keeps the history exact if and only if nothing was put on
      its channel after a drop, and it started out with nothing missed. The handler never looks at dropped. */
  lemma FinishExactIff(w: World)
    requires WorldInv(w) && Enabled(w, PollFinish(false))
    ensures Exact(Next(w, PollFinish(false)).client, w.hub.log) <==> Gapless(w) && Caught(w)
  {
    hide *;
    var id, s, batch := Finishing(w, false);
    if Gapless(w) && Caught(w) {
      PollFinishKeeps(w);
      Parts(Next(w, PollFinish(false)));
      AnswerIsIdle(w, id, s.joined, batch, false);
    } else if Exact(Next(w, PollFinish(false)).client, w.hub.log) {
      FinishLoses(w, id, s, batch);
    }
  }

  lemma FinishLoses(w: World, id: nat, s: Sub, batch: seq<Event>)
    requires WorldInv(w) && Polling(w.client) && PollId(w.client) == id && id in w.hub.subs && s == w.hub.subs[id]
    requires batch == s.sent != [] && s.filter == w.client.filter && s.scope == ScopeFleet
    requires RingInv(w.hub) && SubInv(w.hub.self, w.hub.log, s) && w.client.since <= s.joined <= |w.hub.log|
    requires !(Gapless(w) && Caught(w))
    ensures !Exact(Answer(w, id, s.joined, batch, false).client, w.hub.log)
  {
    hide *;
    Parts(w);
    GaplessIs(w, id, s);
    BatchIsLate(w.hub, s, batch);
    var last := batch[|batch| - 1].cursor;
    AnswerShape(w, id, s.joined, batch, false);
    if Exact(Answer(w, id, s.joined, batch, false).client, w.hub.log) {
      ExactAnswerIsRange(w, s.joined, batch);
      if !NothingPending(w, s.joined) {
        BehindLoses(w, s.joined, last, batch);
      } else {
        RangeFromJoin(w, s.joined, last, batch);
        LateDeliveryLoses(w.hub, s, batch);
      }
    }
  }

  lemma RangeFromJoin(w: World, joined: nat, last: nat, batch: seq<Event>)
    requires joined <= last <= |w.hub.log| && w.client.since <= joined && NothingPending(w, joined)
    requires batch == Matching(w.client.filter, w.hub.log[if IsFresh(w) then joined else w.client.since..last])
    ensures batch == Matching(w.client.filter, w.hub.log[joined..last])
  {
    hide Matching, IsFresh;
    if !IsFresh(w) {
      MatchingConcat(w.client.filter, w.hub.log, w.client.since, joined, last);
      assert [] + Matching(w.client.filter, w.hub.log[joined..last]) == Matching(w.client.filter, w.hub.log[joined..last]);
    }
  }

  /** One poll catches up: an accepted poll that has anything to answer answers at once with all of it. */
  lemma OnePollCatchesUp(w: World)
    requires WorldInv(w) && Enabled(w, PollStart(false)) && !IsFresh(w)
    requires !NeedsResync(w.hub, w.client.since, SentEpoch(w))
    requires Backlog(w.hub, w.client.filter, w.client.since) != []
    ensures w.client.since <= |w.hub.log|
    ensures var c := Next(w, PollStart(false)).client;
            && c.phase == Idle
            && c.got == w.client.got + Matching(w.client.filter, w.hub.log[w.client.since..])
            && c.since <= |w.hub.log| && Matching(c.filter, w.hub.log[c.since..]) == []
  {
    hide *;
    Parts(w);
    if w.hub.ring == [] {
      EmptyWindow(w);
    }
    AcceptedBacklog(w);
    NextPollStart(w, false);
    StartShape(w);
    var log, c := w.hub.log, w.client;
    var r := Add(w.hub, ScopeFleet, c.filter, c.since, SentEpoch(w));
    AnswerShape(World(r.hub, c), r.id, w.hub.cursor, r.backlog, false);
    var last := r.backlog[|r.backlog| - 1].cursor;
    AdvancedFields(c, r.backlog, r.hub.epoch, if IsFresh(World(r.hub, c)) then w.hub.cursor else c.start);
    NothingAfter(c.filter, log, c.since, last, r.backlog);
  }

  lemma AdvancedFields(c: Client, batch: seq<Event>, epoch: string, start: nat)
    requires batch != [] && batch[|batch| - 1].cursor > 0
    ensures var c' := Advanced(c, batch, epoch, start);
            c'.phase == Idle && c'.filter == c.filter && c'.since == batch[|batch| - 1].cursor && c'.got == c.got + batch
  {
  }

  lemma NothingAfter(filter: SubscribeFilter, log: seq<Event>, since: nat, last: nat, batch: seq<Event>)
    requires since <= last <= |log|
    requires batch == Matching(filter, log[since..]) == Matching(filter, log[since..last])
    ensures Matching(filter, log[last..]) == []
  {
    hide Matching;
    assert log[since..|log|] == log[since..] && log[last..|log|] == log[last..];
    MatchingConcat(filter, log, since, last, |log|);
    assert batch == batch + Matching(filter, log[last..]);
    assert |batch + Matching(filter, log[last..])| == |batch|;
  }
}
