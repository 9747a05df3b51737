// The long-poll handler over the hub's objects (internal/service/http.go), cut where it waits: what it
// does before, and what it does when the first event, the timer or the client's departure wakes it.
// LongPoll interleaves everything else in between.
module Watch {
  import opened Fleet
  import opened HubSpec
  import H = Hub
  import L = LongPoll

  /** What is written back; a resync carries no event of the sequence. */
  datatype Answer = Answer(cursor: int, events: seq<Event>, resync: bool)

  /** The answer a poll gets without waiting, if it gets one. */
  function Immediate(r: Resumption, since: int): Option<Answer>
  {
    if r.resync then Some(Answer(since, [], true))
    else if r.backlog != [] then Some(Answer(H.ResumePoint(since, r.backlog), r.backlog, false))
    else None
  }

  function DefaultEpoch(since: int, fromEpoch: string, epoch: string): string
  {
    if since > 0 && fromEpoch == "" then epoch else fromEpoch
  }

  /** Up to the wait: subscribe, and answer at once with a resync or a backlog. */
  method Begin(h: H.Hub, scope: Scope, filter: SubscribeFilter, since: int, sent: string)
    returns (s: H.Subscriber, answer: Option<Answer>)
    requires h.Valid()
    modifies h
    ensures h.Valid() && fresh(s)
    ensures var r := Add(old(h.View()), scope, filter, since, if since > 0 && sent == "" then h.epoch else sent);
      && answer == (if r.resync then Some(Answer(since, [], true))
                    else if r.backlog != [] then Some(Answer(H.ResumePoint(since, r.backlog), r.backlog, false))
                    else None)
      && (answer.Some? ==> h.View() == Remove(r.hub, r.id))
      && (answer.None? ==> h.View() == r.hub && s.id == r.id && h.subs == old(h.subs)[s.id := s])
  {
    var fromEpoch := sent;
    if since > 0 && fromEpoch == "" {
      fromEpoch := h.epoch;
    }
    var backlog, needResync;
    s, backlog, needResync := h.Add(scope, filter, since, fromEpoch);
    if needResync {
      h.Remove(s.id);
      return s, Some(Answer(since, [], true));
    }
    var events := backlog;
    if |events| > 0 {
      var cursor := H.ResumeCursor(since, events);
      h.Remove(s.id);
      return s, Some(Answer(cursor, events, false));
    }
    answer := None;
  }

  /** Woken by an event: take it and whatever else is queued, unsubscribe, answer. */
  method Woken(h: H.Hub, s: H.Subscriber, since: int) returns (answer: Answer)
    requires h.Valid() && s.id in h.subs && h.subs[s.id] == s && s.ch != []
    modifies h, s
    ensures h.Valid() && h.View() == Remove(old(h.View()), s.id)
    ensures answer == Answer(H.ResumePoint(since, old(s.ch)), old(s.ch), false)
  {
    ghost var queued, before := s.ch, h.View();
    var first := s.ch[0];
    s.ch := s.ch[1..];
    var events := s.DrainReady([first]);
    assert events == queued;
    var cursor := H.ResumeCursor(since, events);
    assert Remove(h.View(), s.id) == Remove(before, s.id) by {
      assert forall id :: id in h.subs && id != s.id ==> h.subs[id] != s;
      assert h.View().subs - {s.id} == before.subs - {s.id};
    }
    h.Remove(s.id);
    answer := Answer(cursor, events, false);
  }

  /** Woken by the timer: an empty batch, and the cursor the client came with. */
  method TimedOut(h: H.Hub, s: H.Subscriber, since: int) returns (answer: Answer)
    requires h.Valid()
    modifies h
    ensures h.Valid() && h.View() == Remove(old(h.View()), s.id)
    ensures answer == Answer(since, [], false)
  {
    var cursor := H.ResumeCursor(since, []);
    h.Remove(s.id);
    answer := Answer(cursor, [], false);
  }

  // ---- the handler is the step system's ------------------------------------

  /** What a client makes of an answer it receives: it goes on from the cursor it was given. */
  function Received(w: L.World, a: Answer, joined: nat): L.Client
  {
    var c := w.client.(phase := L.Idle);
    if a.resync then c.(resynced := true)
    else if a.cursor < 0 then c
    else c.(since := a.cursor, epoch := w.hub.epoch, got := c.got + a.events,
            start := if L.IsFresh(w) && a.events != [] then joined else c.start)
  }

  /** The first part of the handler is the first step of a poll. */
  lemma BeginIsPollStart(w: L.World)
    requires L.Enabled(w, L.PollStart(false))
    ensures var c := w.client;
            var r := Add(w.hub, ScopeFleet, c.filter, c.since, DefaultEpoch(c.since, c.epoch, w.hub.epoch));
            var a, w' := Immediate(r, c.since), L.Next(w, L.PollStart(false));
            if a.Some? then w'.hub == Remove(r.hub, r.id) && w'.client == Received(w, a.value, w.hub.cursor)
            else w'.hub == r.hub && w'.client == c.(phase := L.Waiting(r.id))
  {
  }

  /** Taking everything that is queued, one event at a time. */
  function Drained(w: L.World): L.World
    requires w.client.phase.Draining? && w.client.phase.polled in w.hub.subs
    decreases |w.hub.subs[w.client.phase.polled].queue|
  {
    if w.hub.subs[w.client.phase.polled].queue == [] then w else Drained(L.Next(w, L.PollDrain))
  }

  lemma {:induction false} DrainedTakesAll(w: L.World)
    requires w.client.phase.Draining? && w.client.phase.polled in w.hub.subs
    ensures var id, s := w.client.phase.polled, w.hub.subs[w.client.phase.polled];
            && Drained(w).hub == w.hub.(subs := w.hub.subs[id := s.(queue := [])])
            && Drained(w).client == w.client.(phase := L.Draining(id, w.client.phase.batch + s.queue))
    decreases |w.hub.subs[w.client.phase.polled].queue|
  {
    var id := w.client.phase.polled;
    var s, batch := w.hub.subs[id], w.client.phase.batch;
    if s.queue == [] {
      assert w.hub.subs[id := s.(queue := [])] == w.hub.subs;
      assert batch + s.queue == batch;
    } else {
      var w' := L.Next(w, L.PollDrain);
      DrainedTakesAll(w');
      assert (batch + [s.queue[0]]) + s.queue[1..] == batch + s.queue;
      assert w'.hub.subs[id := w'.hub.subs[id].(queue := [])] == w.hub.subs[id := s.(queue := [])];
    }
  }

  /** The rest of it, when an event wakes it and nothing comes between, is taking that event, draining, and
      finishing. */
  lemma WokenIsTakeDrainFinish(w: L.World)
    requires L.Enabled(w, L.PollTake)
    ensures var s := w.hub.subs[w.client.phase.id];
            var w' := Drained(L.Next(w, L.PollTake));
            && L.Enabled(w', L.PollFinish(false))
            && L.Next(w', L.PollFinish(false)).hub == Remove(w.hub, w.client.phase.id)
            && L.Next(w', L.PollFinish(false)).client
                 == Received(w, Answer(H.ResumePoint(w.client.since, s.queue), s.queue, false), s.joined)
  {
    var id := w.client.phase.id;
    var s, w1 := w.hub.subs[id], L.Next(w, L.PollTake);
    DrainedTakesAll(w1);
    var w2 := Drained(w1);
    assert [s.queue[0]] + s.queue[1..] == s.queue;
    assert w2.client.phase.batch == s.queue && w2.hub.subs[id].joined == s.joined;
    assert Remove(w2.hub, id) == Remove(w.hub, id) by {
      assert w2.hub.subs - {id} == w.hub.subs - {id};
    }
  }
}
