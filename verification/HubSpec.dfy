// The event hub as a value: what each critical section of internal/service/events.go
// does to the state, and what every reachable state keeps. The class in Hub.dfy is
// proved to implement these functions.
module HubSpec {
  import opened Fleet
  import opened Seqs

  const CHANNEL_CAP := 64
  const DEFAULT_RETENTION := 512

  /** A subscriber. queue is its channel's content; joined and sent are bookkeeping:
      the cursor when it subscribed, and everything ever put on its channel. */
  datatype Sub = Sub(filter: SubscribeFilter, scope: Scope, queue: seq<Event>, dropped: bool,
                     joined: nat, sent: seq<Event>)

  /** The hub. log is every event ever stamped under this epoch, by this instance or by
      the ones it continues; booted is the cursor this instance started from. */
  datatype HubState = HubState(epoch: string, self: MachineId, retention: nat,
                               cursor: nat, ring: seq<Event>, subs: map<int, Sub>, nextId: nat,
                               log: seq<Event>, booted: nat)

  function Initial(self: MachineId, epoch: string): HubState
  {
    HubState(epoch, self, DEFAULT_RETENTION, 0, [], map[], 0, [], 0)
  }

  /** The instance that continues an epoch after a restart: the cursor is restored, the window is not. */
  function Restarted(h: HubState): HubState
  {
    h.(ring := [], subs := map[], nextId := 0, booted := h.cursor)
  }

  /** The instance that continues it from a saved cursor, which may have fallen behind: what was stamped after that is
      not in its sequence. */
  function RestartedAt(h: HubState, saved: nat): HubState
    requires saved <= |h.log|
  {
    Restarted(h.(cursor := saved, log := h.log[..saved], booted := saved))
  }

  // ---- publishing ---------------------------------------------------------

  /** What live delivery lets through: scope first, then the filter. */
  predicate Admits(self: MachineId, scope: Scope, filter: SubscribeFilter, ev: Event)
  {
    !(scope == ScopeLocal && ev.machine != "" && ev.machine != self) && MatchesEvent(filter, ev)
  }

  function Admitter(self: MachineId, scope: Scope, filter: SubscribeFilter): Event -> bool
  {
    ev => Admits(self, scope, filter, ev)
  }

  function Matcher(filter: SubscribeFilter): Event -> bool
  {
    ev => MatchesEvent(filter, ev)
  }

  function MatchingAfter(filter: SubscribeFilter, from: int): Event -> bool
  {
    (ev: Event) => ev.cursor > from && MatchesEvent(filter, ev)
  }

  function Admitted(self: MachineId, scope: Scope, filter: SubscribeFilter, evs: seq<Event>): seq<Event>
  {
    Filter(Admitter(self, scope, filter), evs)
  }

  function Matching(filter: SubscribeFilter, evs: seq<Event>): seq<Event>
  {
    Filter(Matcher(filter), evs)
  }

  function Stamped(h: HubState, ev: Event): Event
  {
    ev.(cursor := h.cursor + 1, epoch := h.epoch)
  }

  function Trim(ring: seq<Event>, retention: nat): seq<Event>
  {
    if |ring| > retention then ring[|ring| - retention..] else ring
  }

  /** A non-blocking send: the subscriber is marked when its channel is full. */
  function Deliver(self: MachineId, s: Sub, ev: Event): Sub
  {
    if !Admits(self, s.scope, s.filter, ev) then s
    else if |s.queue| < CHANNEL_CAP then s.(queue := s.queue + [ev], sent := s.sent + [ev])
    else s.(dropped := true)
  }

  function FanOut(self: MachineId, subs: map<int, Sub>, ev: Event): map<int, Sub>
  {
    map id | id in subs :: Deliver(self, subs[id], ev)
  }

  /** publish's critical section. */
  function Stamp(h: HubState, ev: Event): HubState
  {
    var e := Stamped(h, ev);
    h.(cursor := h.cursor + 1,
       ring := Trim(h.ring + [e], h.retention),
       subs := FanOut(h.self, h.subs, e),
       log := h.log + [e])
  }

  // ---- subscribing --------------------------------------------------------

  datatype Resumption = Resumption(hub: HubState, id: nat, backlog: seq<Event>, resync: bool)

  predicate Fresh(fromCursor: int, fromEpoch: string)
  {
    fromCursor == 0 && fromEpoch == ""
  }

  function Oldest(h: HubState): int
  {
    if h.ring != [] then h.ring[0].cursor else 0
  }

  predicate NeedsResync(h: HubState, fromCursor: int, fromEpoch: string)
  {
    && !Fresh(fromCursor, fromEpoch)
    && (fromEpoch != h.epoch || fromCursor > h.cursor || fromCursor < Oldest(h) - 1)
  }

  function Backlog(h: HubState, filter: SubscribeFilter, fromCursor: int): seq<Event>
  {
    Filter(MatchingAfter(filter, fromCursor), h.ring)
  }

  /** A new subscriber, with an empty channel, that joins at the current cursor. */
  function Registered(h: HubState, scope: Scope, filter: SubscribeFilter): HubState
  {
    h.(subs := h.subs[h.nextId := Sub(filter, scope, [], false, h.cursor, [])], nextId := h.nextId + 1)
  }

  function Add(h: HubState, scope: Scope, filter: SubscribeFilter, fromCursor: int, fromEpoch: string): Resumption
  {
    var h' := Registered(h, scope, filter);
    if Fresh(fromCursor, fromEpoch) then Resumption(h', h.nextId, [], false)
    else if NeedsResync(h, fromCursor, fromEpoch) then Resumption(h', h.nextId, [], true)
    else Resumption(h', h.nextId, Backlog(h, filter, fromCursor), false)
  }

  function Remove(h: HubState, id: int): HubState
  {
    h.(subs := h.subs - {id})
  }

  /** A receive on a subscriber's channel. */
  function Receive(h: HubState, id: int): HubState
    requires id in h.subs && h.subs[id].queue != []
  {
    h.(subs := h.subs[id := h.subs[id].(queue := h.subs[id].queue[1..])])
  }

  // ---- what every reachable state keeps -----------------------------------

  /** Everything a subscriber should have been sent since it joined. */
  function Owed(self: MachineId, log: seq<Event>, s: Sub): seq<Event>
    requires s.joined <= |log|
  {
    Admitted(self, s.scope, s.filter, log[s.joined..])
  }

  /** What was sent is what was owed with omissions, the channel holds its tail, and dropped says
      exactly that something owed was omitted. */
  ghost predicate SubInv(self: MachineId, log: seq<Event>, s: Sub)
  {
    && s.joined <= |log|
    && |s.queue| <= CHANNEL_CAP
    && |s.queue| <= |s.sent|
    && s.queue == s.sent[|s.sent| - |s.queue|..]
    && Subsequence(s.sent, Owed(self, log, s))
    && (s.dropped <==> s.sent != Owed(self, log, s))
  }

  function Min(a: nat, b: nat): nat { if a < b then a else b }

  /** The log numbers its events 1, 2, 3, ... under one epoch. */
  predicate Numbered(log: seq<Event>, epoch: string)
  {
    forall i :: 0 <= i < |log| ==> log[i].cursor == i + 1 && log[i].epoch == epoch
  }

  /** The ring is a contiguous run of cursors that ends at the cursor: everything this instance
      stamped, up to the retention. */
  predicate RingInv(h: HubState)
  {
    && h.retention >= 1
    && |h.log| == h.cursor
    && h.booted <= h.cursor
    && Numbered(h.log, h.epoch)
    && |h.ring| == Min(h.retention, h.cursor - h.booted)
    && h.ring == h.log[|h.log| - |h.ring|..]
  }

  ghost predicate Inv(h: HubState)
  {
    && RingInv(h)
    && (forall id :: id in h.subs ==> 0 <= id < h.nextId && SubInv(h.self, h.log, h.subs[id]))
  }

  lemma InitialInv(self: MachineId, epoch: string)
    ensures Inv(Initial(self, epoch))
  {
  }

  lemma RestartedInv(h: HubState)
    requires Inv(h)
    ensures Inv(Restarted(h))
  {
  }

  lemma RestartedAtInv(h: HubState, saved: nat)
    requires Inv(h) && saved <= |h.log|
    ensures Inv(RestartedAt(h, saved)) && RestartedAt(h, h.cursor) == Restarted(h)
  {
    hide SubInv;
    assert h.log[..|h.log|] == h.log;
  }

  /** One more event owed: sending it keeps the account as it was, omitting it opens a debt for good. */
  lemma AccountSnoc(sent: seq<Event>, owed: seq<Event>, e: Event)
    requires Subsequence(sent, owed)
    ensures Subsequence(sent, owed + [e]) && sent != owed + [e]
    ensures Subsequence(sent + [e], owed + [e]) && (sent + [e] == owed + [e] <==> sent == owed)
  {
    SubsequenceOf(sent, owed);
    SubsequenceSnoc(sent, owed, e);
    assert (sent + [e])[..|sent|] == sent && (owed + [e])[..|owed|] == owed;
  }

  lemma OwedSnoc(self: MachineId, log: seq<Event>, s: Sub, e: Event)
    requires s.joined <= |log|
    ensures Owed(self, log + [e], s)
         == if Admits(self, s.scope, s.filter, e) then Owed(self, log, s) + [e] else Owed(self, log, s)
  {
    assert (log + [e])[s.joined..] == log[s.joined..] + [e];
    FilterSnoc(Admitter(self, s.scope, s.filter), log[s.joined..], e);
  }

  lemma DeliverKeepsSub(self: MachineId, log: seq<Event>, s: Sub, e: Event)
    requires SubInv(self, log, s)
    ensures SubInv(self, log + [e], Deliver(self, s, e))
  {
    hide Owed, Subsequence, Admits;
    var owed := Owed(self, log, s);
    OwedSnoc(self, log, s, e);
    OwedSame(self, log + [e], s, Deliver(self, s, e));
    if Admits(self, s.scope, s.filter, e) {
      AccountSnoc(s.sent, owed, e);
      if |s.queue| < CHANNEL_CAP {
        TailSnoc(s.sent, s.queue, e);
      }
    }
  }

  lemma TailSnoc(sent: seq<Event>, queue: seq<Event>, e: Event)
    requires |queue| <= |sent| && queue == sent[|sent| - |queue|..]
    ensures (sent + [e])[|sent| - |queue|..] == queue + [e]
  {
  }

  /** What is owed depends on when and for what a subscriber joined, not on what it was sent. */
  lemma OwedSame(self: MachineId, log: seq<Event>, s: Sub, s': Sub)
    requires s.joined <= |log| && s'.joined == s.joined && s'.scope == s.scope && s'.filter == s.filter
    ensures Owed(self, log, s') == Owed(self, log, s)
  {
  }

  /** Stamping keeps the ring a contiguous run that ends at the cursor. */
  lemma StampKeepsInv(h: HubState, ev: Event)
    requires Inv(h)
    ensures Inv(Stamp(h, ev))
  {
    var h' := Stamp(h, ev);
    forall id | id in h'.subs ensures SubInv(h'.self, h'.log, h'.subs[id]) {
      DeliverKeepsSub(h.self, h.log, h.subs[id], Stamped(h, ev));
    }
  }

  lemma AddKeepsInv(h: HubState, scope: Scope, filter: SubscribeFilter, fromCursor: int, fromEpoch: string)
    requires Inv(h)
    ensures Inv(Add(h, scope, filter, fromCursor, fromEpoch).hub)
  {
    hide *;
    AddRegisters(h, scope, filter, fromCursor, fromEpoch);
    RegisteredKeepsInv(h, scope, filter);
  }

  lemma AddRegisters(h: HubState, scope: Scope, filter: SubscribeFilter, fromCursor: int, fromEpoch: string)
    ensures Add(h, scope, filter, fromCursor, fromEpoch).hub == Registered(h, scope, filter)
  {
    hide Backlog, NeedsResync, Registered;
  }

  lemma RegisteredKeepsInv(h: HubState, scope: Scope, filter: SubscribeFilter)
    requires Inv(h)
    ensures Inv(Registered(h, scope, filter))
  {
    var h' := Registered(h, scope, filter);
    OwesNothingYet(h, scope, filter);
    SameRing(h, h');
    hide SubInv, RingInv;
    forall id | id in h'.subs ensures 0 <= id < h'.nextId && SubInv(h'.self, h'.log, h'.subs[id]) {
      if id != h.nextId {
        assert SubInv(h.self, h.log, h.subs[id]);
      }
    }
  }

  lemma SameRing(h: HubState, h': HubState)
    requires RingInv(h) && h'.(subs := h.subs, nextId := h.nextId) == h
    ensures RingInv(h')
  {
  }

  lemma OwesNothingYet(h: HubState, scope: Scope, filter: SubscribeFilter)
    requires RingInv(h)
    ensures SubInv(h.self, h.log, Sub(filter, scope, [], false, h.cursor, []))
  {
    assert h.log[h.cursor..] == [];
  }

  lemma RemoveKeepsInv(h: HubState, id: int)
    requires Inv(h)
    ensures Inv(Remove(h, id))
  {
    var h' := Remove(h, id);
    forall i | i in h'.subs ensures 0 <= i < h'.nextId && SubInv(h'.self, h'.log, h'.subs[i]) {
      assert SubInv(h.self, h.log, h.subs[i]);
    }
  }

  lemma ReceiveKeepsInv(h: HubState, id: int)
    requires Inv(h) && id in h.subs && h.subs[id].queue != []
    ensures Inv(Receive(h, id))
  {
    var h' := Receive(h, id);
    forall i | i in h'.subs ensures 0 <= i < h'.nextId && SubInv(h'.self, h'.log, h'.subs[i]) {
      assert SubInv(h.self, h.log, h.subs[i]);
    }
  }

  // ---- resuming -----------------------------------------------------------

  /** The ring is the whole log after any cursor its window still covers. */
  lemma BacklogIsSuffix(h: HubState, filter: SubscribeFilter, from: nat)
    requires RingInv(h) && h.cursor - |h.ring| <= from <= h.cursor
    ensures Backlog(h, filter, from) == Matching(filter, h.log[from..])
  {
    var p := MatchingAfter(filter, from);
    var cut := from - (h.cursor - |h.ring|);
    RingWindow(h, from);
    FilterSplit(p, h.ring, cut);
    FilterNone(p, h.ring[..cut]);
    FilterCongruence(p, Matcher(filter), h.log[from..]);
    hide Filter, RingInv;
  }

  /** Where the ring is cut by a cursor it covers. */
  lemma RingWindow(h: HubState, from: nat)
    requires RingInv(h) && h.cursor - |h.ring| <= from <= h.cursor
    ensures var cut := from - (h.cursor - |h.ring|);
            && h.ring[cut..] == h.log[from..]
            && (forall e :: e in h.ring[..cut] ==> e.cursor <= from)
            && (forall e :: e in h.log[from..] ==> e.cursor > from)
  {
    var cut := from - (h.cursor - |h.ring|);
    forall i | 0 <= i < cut ensures h.ring[i].cursor <= from {
      assert h.ring[i] == h.log[h.cursor - |h.ring| + i];
    }
  }

  /** Resume exactness. A cursor of this epoch is accepted without a resync only with the
      whole filter-matching suffix of the log behind it, as long as this instance has
      stamped anything at all. */
  lemma ResumeExact(h: HubState, scope: Scope, filter: SubscribeFilter, from: int)
    requires Inv(h) && h.epoch != "" && 0 <= from
    requires !Add(h, scope, filter, from, h.epoch).resync
    requires h.ring != [] || from == h.cursor
    ensures from <= |h.log|
    ensures Add(h, scope, filter, from, h.epoch).backlog == Matching(filter, h.log[from..])
  {
    BacklogIsSuffix(h, filter, from);
  }

  /** And only then: with an empty ring, a cursor below the restored one is accepted although
      everything after it is lost. The condition is exact over all filters. */
  lemma ResumeExactIff(h: HubState, scope: Scope, from: int)
    requires Inv(h) && h.epoch != "" && 0 <= from
    requires !Add(h, scope, EVERYTHING, from, h.epoch).resync
    ensures (forall filter :: Add(h, scope, filter, from, h.epoch).backlog == Matching(filter, h.log[from..]))
       <==> h.ring != [] || from == h.cursor
  {
    if h.ring != [] || from == h.cursor {
      forall filter ensures Add(h, scope, filter, from, h.epoch).backlog == Matching(filter, h.log[from..]) {
        ResumeExact(h, scope, filter, from);
      }
    } else {
      assert Add(h, scope, EVERYTHING, from, h.epoch).backlog == [];
      var lost := h.log[from..];
      FilterNone(Matcher(EVERYTHING), lost);
      assert lost[0] in lost && MatchesEvent(EVERYTHING, lost[0]);
    }
  }

  /** A resync is announced exactly for another epoch, a cursor never stamped, or one the window lost. */
  lemma ResyncIff(h: HubState, scope: Scope, filter: SubscribeFilter, from: nat, epoch: string)
    requires Inv(h) && h.ring != []
    ensures Add(h, scope, filter, from, epoch).resync
       <==> !(from == 0 && epoch == "") && (epoch != h.epoch || from > h.cursor || from < h.cursor - |h.ring|)
  {
    OldestIs(h);
    hide Inv, Backlog, Registered;
  }

  lemma OldestIs(h: HubState)
    requires Inv(h) && h.ring != []
    ensures Oldest(h) == h.cursor - |h.ring| + 1
  {
    assert h.ring[0] == h.log[|h.log| - |h.ring|];
    hide SubInv;
  }

  /** Backlog plus channel: until the subscriber is marked, what it was replayed followed by what it
      was sent is the filter-matching suffix of the log (fleet scope). */
  lemma StreamExactWhileNotDropped(h0: HubState, h: HubState, filter: SubscribeFilter, from: nat, s: Sub)
    requires Inv(h0) && h0.epoch != ""
    requires !Add(h0, ScopeFleet, filter, from, h0.epoch).resync
    requires h0.ring != [] || from == h0.cursor
    requires Inv(h) && h0.log <= h.log && SubInv(h.self, h.log, s)
    requires s.filter == filter && s.scope == ScopeFleet && s.joined == h0.cursor
    ensures from <= |h.log|
    ensures !s.dropped
       <==> Add(h0, ScopeFleet, filter, from, h0.epoch).backlog + s.sent == Matching(filter, h.log[from..])
  {
    hide *;
    ResumeExact(h0, ScopeFleet, filter, from);
    LogLength(h0);
    Account(h.self, h.log, s);
    FleetOwesMatching(h.self, filter, h.log[s.joined..]);
    OwedIs(h.self, h.log, s);
    assert h.log[from..] == h0.log[from..] + h.log[s.joined..];
    MatchingSplits(filter, h0.log[from..], h.log[s.joined..]);
    var backlog := Matching(filter, h0.log[from..]);
    assert (backlog + s.sent)[|backlog|..] == s.sent;
    assert (backlog + Owed(h.self, h.log, s))[|backlog|..] == Owed(h.self, h.log, s);
  }

  lemma LogLength(h: HubState)
    requires Inv(h)
    ensures RingInv(h) && |h.log| == h.cursor
  {
  }

  lemma Account(self: MachineId, log: seq<Event>, s: Sub)
    requires SubInv(self, log, s)
    ensures s.joined <= |log| && (s.dropped <==> s.sent != Owed(self, log, s))
  {
    hide Owed, Subsequence;
  }

  lemma OwedIs(self: MachineId, log: seq<Event>, s: Sub)
    requires s.joined <= |log|
    ensures Owed(self, log, s) == Admitted(self, s.scope, s.filter, log[s.joined..])
  {
  }

  lemma FleetOwesMatching(self: MachineId, filter: SubscribeFilter, evs: seq<Event>)
    ensures Admitted(self, ScopeFleet, filter, evs) == Matching(filter, evs)
  {
    hide Filter, MatchesEvent;
    FilterCongruence(Admitter(self, ScopeFleet, filter), Matcher(filter), evs);
  }

  lemma MatchingSplits(filter: SubscribeFilter, xs: seq<Event>, ys: seq<Event>)
    ensures Matching(filter, xs + ys) == Matching(filter, xs) + Matching(filter, ys)
  {
    hide Filter;
    FilterConcat(Matcher(filter), xs, ys);
  }

  /** The replayed backlog ignores scope while live delivery does not: for a local-scope subscriber
      the replay agrees with what live delivery would have sent exactly when no matching event
      after its cursor came from a peer. */
  lemma LocalReplayIff(h: HubState, filter: SubscribeFilter, from: nat)
    requires Inv(h) && h.epoch != "" && h.ring != []
    requires !Add(h, ScopeLocal, filter, from, h.epoch).resync
    ensures Add(h, ScopeLocal, filter, from, h.epoch).backlog == Admitted(h.self, ScopeLocal, filter, h.log[from..])
       <==> forall ev :: ev in h.log[from..] && MatchesEvent(filter, ev) ==> ev.machine == "" || ev.machine == h.self
  {
    ResumeExact(h, ScopeLocal, filter, from);
    var evs := h.log[from..];
    var p := Matcher(filter);
    var q := Admitter(h.self, ScopeLocal, filter);
    FilterMembers(p, evs);
    FilterMembers(q, evs);
    if forall ev :: ev in evs && MatchesEvent(filter, ev) ==> ev.machine == "" || ev.machine == h.self {
      FilterCongruence(p, q, evs);
    } else {
      var ev :| ev in evs && MatchesEvent(filter, ev) && ev.machine != "" && ev.machine != h.self;
      assert ev in Filter(p, evs) && ev !in Filter(q, evs);
    }
  }

  // ---- who is sent what ----------------------------------------------------

  /** Live delivery, event by event. A subscriber is sent an event only if the event was stamped after it joined, comes
      from its scope, and is about a session it asked for or about none; and unless it is marked, it is sent every
      such event. */
  lemma SentIff(self: MachineId, log: seq<Event>, s: Sub, e: Event)
    requires SubInv(self, log, s)
    ensures var due :=
              && e in log[s.joined..]
              && (s.scope == ScopeFleet || e.machine == "" || e.machine == self)
              && (e.kind == ControlResync || e.kind == SourceStatus
                  || match e.payload
                     case SessionPayload(id, cwd, _) =>
                       id == "" || ((s.filter.sessions == [] || id in s.filter.sessions) && s.filter.cwdPrefix <= cwd)
                     case StatePayload(ref) =>
                       ref == "" || ((s.filter.sessions == [] || ref in s.filter.sessions) && s.filter.cwdPrefix == "")
                     case LabelsPayload(id) =>
                       id == "" || ((s.filter.sessions == [] || id in s.filter.sessions) && s.filter.cwdPrefix == "")
                     case _ => true);
            (e in s.sent ==> due) && (!s.dropped && due ==> e in s.sent)
  {
    var p := Admitter(self, s.scope, s.filter);
    SubsequenceOf(s.sent, Owed(self, log, s));
    FilterMembers(p, log[s.joined..]);
    FilterAdmits(s.filter, e);
    hide Filter, Subsequence, MatchesEvent;
    assert e in Owed(self, log, s) <==> e in log[s.joined..] && p(e);
  }

  /** Replay, event by event: an accepted cursor is replayed what the window holds after it about a session the
      subscriber asked for, or about none. */
  lemma ReplayedIff(h: HubState, filter: SubscribeFilter, from: int, e: Event)
    ensures e in Backlog(h, filter, from) <==>
              && e in h.ring && e.cursor > from
              && (e.kind == ControlResync || e.kind == SourceStatus
                  || match e.payload
                     case SessionPayload(id, cwd, _) =>
                       id == "" || ((filter.sessions == [] || id in filter.sessions) && filter.cwdPrefix <= cwd)
                     case StatePayload(ref) =>
                       ref == "" || ((filter.sessions == [] || ref in filter.sessions) && filter.cwdPrefix == "")
                     case LabelsPayload(id) =>
                       id == "" || ((filter.sessions == [] || id in filter.sessions) && filter.cwdPrefix == "")
                     case _ => true)
  {
    FilterMembers(MatchingAfter(filter, from), h.ring);
    FilterAdmits(filter, e);
    hide Filter, MatchesEvent;
  }

  // ---- both conditions fail in practice ------------------------------------

  /** A service that stamped two events and restarted accepts the first one's cursor and replays nothing. */
  lemma RestartedWindowAcceptsOlderCursor(self: MachineId, epoch: string, ev: Event)
    requires epoch != ""
    ensures var h := Restarted(Stamp(Stamp(Initial(self, epoch), ev), ev));
            var r := Add(h, ScopeFleet, EVERYTHING, 1, epoch);
            && Inv(h) && h.cursor == 2 && h.ring == []
            && !r.resync && r.backlog == [] && Matching(EVERYTHING, h.log[1..]) == h.log[1..] != []
  {
    hide *;
    var h0 := Initial(self, epoch);
    var h1, h2 := Stamp(h0, ev), Stamp(Stamp(h0, ev), ev);
    InitialInv(self, epoch);
    StampKeepsInv(h0, ev);
    StampKeepsInv(h1, ev);
    RestartedInv(h2);
    RestartShape(self, epoch, ev);
    EmptyRingAccepts(Restarted(h2), 1, epoch);
    EverythingMatches(Restarted(h2).log[1..]);
    assert |Restarted(h2).log[1..]| == 1;
  }

  lemma RestartShape(self: MachineId, epoch: string, ev: Event)
    ensures var h := Restarted(Stamp(Stamp(Initial(self, epoch), ev), ev));
            h.cursor == 2 && h.ring == [] && h.epoch == epoch && |h.log| == 2
  {
    hide FanOut, Trim;
  }

  lemma EmptyRingAccepts(h: HubState, from: nat, epoch: string)
    requires h.ring == [] && epoch == h.epoch && epoch != "" && from <= h.cursor
    ensures var r := Add(h, ScopeFleet, EVERYTHING, from, epoch); !r.resync && r.backlog == []
  {
    hide MatchesEvent;
  }

  lemma EverythingMatches(evs: seq<Event>)
    ensures Matching(EVERYTHING, evs) == evs
  {
    hide Filter;
    FilterAll(Matcher(EVERYTHING), evs);
  }

  /** A peer's event, which no local subscriber is sent live, is replayed to one that resumes. */
  lemma PeerEventIsReplayed(self: MachineId, epoch: string, ev: Event)
    requires epoch != "" && ev.machine != "" && ev.machine != self
    ensures var h := Stamp(Initial(self, epoch), ev);
            var r := Add(h, ScopeLocal, EVERYTHING, 0, epoch);
            && Inv(h) && !r.resync && r.backlog == h.log != []
            && Admitted(self, ScopeLocal, EVERYTHING, h.log) == []
  {
    hide *;
    var h := Stamp(Initial(self, epoch), ev);
    InitialInv(self, epoch);
    StampKeepsInv(Initial(self, epoch), ev);
    FirstEvent(self, epoch, ev);
    WholeRingReplays(h, epoch);
    PeersAreNotAdmitted(self, h.log);
  }

  lemma FirstEvent(self: MachineId, epoch: string, ev: Event)
    ensures var h := Stamp(Initial(self, epoch), ev);
            && h.log == h.ring && |h.log| == 1 && h.log[0].cursor == 1 && h.log[0].machine == ev.machine
            && h.epoch == epoch && h.cursor == 1
  {
    hide FanOut;
  }

  lemma WholeRingReplays(h: HubState, epoch: string)
    requires epoch == h.epoch && epoch != "" && |h.ring| == 1 && h.ring[0].cursor == 1 == h.cursor
    ensures var r := Add(h, ScopeLocal, EVERYTHING, 0, epoch); !r.resync && r.backlog == h.ring
  {
    hide Filter;
    FilterAll(MatchingAfter(EVERYTHING, 0), h.ring);
  }

  lemma PeersAreNotAdmitted(self: MachineId, evs: seq<Event>)
    requires forall ev :: ev in evs ==> ev.machine != "" && ev.machine != self
    ensures Admitted(self, ScopeLocal, EVERYTHING, evs) == []
  {
    hide Filter, MatchesEvent;
    FilterNone(Admitter(self, ScopeLocal, EVERYTHING), evs);
  }
}
