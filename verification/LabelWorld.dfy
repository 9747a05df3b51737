// The label store beside the sessions it labels. As long as every rename goes through the service,
// what a live session reads is exactly what was last written to it.
module LabelWorld {
  import opened Fleet
  import opened HistorySpec
  import opened LabelSpec
  import opened LabelRuns

  /** live is every running session with the instant it started at; used is every such instant so far. */
  datatype World = World(store: Store, live: map<Key, Time>, used: set<Time>)

  datatype Event =
    | Begin(k: Key, start: Time, labels: Labels, now: Time)
    | Label(k: Key, patch: LabelSpec.Patch, now: Time)
    | Look(k: Key)
    | Rename(k: Key, to: string, now: Time)
    | Close(k: Key)
    | Die(k: Key)
    | List(rt: RuntimeId, sessions: seq<Session>, listedAt: Time, order: seq<Key>)

  /** The listing names exactly the runtime's live sessions, in some order. */
  ghost predicate IsListing(live: map<Key, Time>, rt: RuntimeId, sessions: seq<Session>)
  {
    && (forall s :: s in sessions ==> Key(rt, s.id) in live && s.startedAt == Some(live[Key(rt, s.id)]))
    && (forall k :: k in live && k.runtime == rt ==> IsLive(sessions, k.id))
  }

  /** The store operation an event comes with. An unobserved end comes with none. */
  function OpOf(w: World, e: Event): Option<Op>
    requires e.Label? || e.Look? ==> e.k in w.live
  {
    match e
    case Begin(k, start, labels, now) => Some(Create(k.runtime, k.id, start, labels, now, k))
    case Label(k, patch, now) => Some(Op.Patch(k.runtime, k.id, w.live[k], patch, now, k))
    case Look(k) => Some(Read(k.runtime, k.id, w.live[k], k))
    case Rename(k, to, now) => Some(Renamed(k.runtime, k.id, to, now, k))
    case Close(k) => Some(Closed(k.runtime, k.id, k))
    case Die(k) => None
    case List(rt, sessions, listedAt, order) => Some(Listing(rt, sessions, listedAt, order))
  }

  ghost predicate Possible(w: World, e: Event)
  {
    && (match e
        case Begin(k, start, _, _) => k.runtime != "" && k !in w.live && start !in w.used
        case Rename(k, to, _) => k in w.live && Key(k.runtime, to) !in w.live
        case Label(k, _, _) => k in w.live
        case Look(k) => k in w.live
        case Close(k) => k in w.live
        case Die(k) => k in w.live
        case List(rt, sessions, _, _) => IsListing(w.live, rt, sessions))
    && (OpOf(w, e).Some? ==> Enabled(w.store, OpOf(w, e).value))
  }

  ghost function Happened(w: World, e: Event): World
    requires Possible(w, e)
  {
    var store := if OpOf(w, e).Some? then Next(w.store, OpOf(w, e).value) else w.store;
    match e
    case Begin(k, start, _, _) => World(store, w.live[k := start], w.used + {start})
    case Rename(k, to, _) => World(store, (w.live - {k})[Key(k.runtime, to) := w.live[k]], w.used)
    case Close(k) => World(store, w.live - {k}, w.used)
    case Die(k) => World(store, w.live - {k}, w.used)
    case _ => World(store, w.live, w.used)
  }

  // ---- what is kept --------------------------------------------------------

  /** A record of a live session's run is at that session's key. */
  predicate Attached(live: map<Key, Time>, k: Key, r: LabelRec)
  {
    forall l :: l in live && r.startedAt == Some(live[l]) ==> l == k
  }

  /** The last labels written to a run; a run nothing was written to has none. */
  function Last(written: map<Time, Labels>, start: Time): Labels
  {
    if start in written then written[start] else map[]
  }

  /** A live session that was given labels has its record. */
  predicate Served(recs: Recs, written: map<Time, Labels>, k: Key, start: Time)
  {
    Last(written, start) != map[] ==> k in recs && recs[k].startedAt == Some(start)
  }

  ghost predicate WInv(w: World)
  {
    && Coherent(w.store)
    && (forall k :: k in w.live ==> k.runtime != "" && w.live[k] in w.used && Served(w.store.recs, w.store.written, k, w.live[k]))
    && (forall k, l :: k in w.live && l in w.live && w.live[k] == w.live[l] ==> k == l)
    && (forall k :: k in w.store.recs ==> Attached(w.live, k, w.store.recs[k]))
    && (forall t :: t in w.store.written ==> t in w.used)
  }

  /** What a live session reads is what was last written to it, exactly. */
  lemma LiveReadsItsOwn(w: World, k: Key)
    requires WInv(w) && k in w.live
    ensures Get(w.store.recs, k, Some(w.live[k])) == Last(w.store.written, w.live[k])
  {
    assert Served(w.store.recs, w.store.written, k, w.live[k]);
  }

  /** Every write to a live session is the only one its run has. */
  lemma WritesAreSole(w: World, e: Event)
    requires WInv(w) && Possible(w, e) && OpOf(w, e).Some?
    ensures Sole(w.store, OpOf(w, e).value)
  {
    match e
    case Begin(_, start, _, _) =>
      forall k | k in w.store.recs ensures w.store.recs[k].startedAt != Some(start) {
        assert IsLast(w.store.written, w.store.recs[k]);
      }
    case Label(k, _, _) =>
    case _ =>
  }

  lemma StepKeeps(w: World, e: Event)
    requires WInv(w) && Possible(w, e)
    ensures WInv(Happened(w, e))
  {
    StaysCoherent(w, e);
    match e
    case Begin(_, _, _, _) => BeginKeeps(w, e);
    case Label(_, _, _) => LabelKeeps(w, e);
    case Look(_) => LookKeeps(w, e);
    case Rename(_, _, _) => RenameKeeps(w, e);
    case Close(_) => EndKeeps(w, e);
    case Die(_) => EndKeeps(w, e);
    case List(_, _, _, _) => ListKeeps(w, e);
    hide *;
  }

  lemma StaysCoherent(w: World, e: Event)
    requires WInv(w) && Possible(w, e)
    ensures Coherent(Happened(w, e).store)
  {
    if OpOf(w, e).Some? {
      WritesAreSole(w, e);
      CoherentIff(w.store, OpOf(w, e).value);
      hide Coherent, Sole, Next, Enabled;
    }
  }

  lemma EndKeeps(w: World, e: Event)
    requires WInv(w) && Possible(w, e) && (e.Close? || e.Die?) && Coherent(Happened(w, e).store)
    ensures WInv(Happened(w, e))
  {
    hide Coherent, Last;
  }

  lemma BeginKeeps(w: World, e: Event)
    requires WInv(w) && Possible(w, e) && e.Begin? && Coherent(Happened(w, e).store)
    ensures WInv(Happened(w, e))
  {
    WriteShape(w.store, OpOf(w, e).value);
  }

  lemma LabelKeeps(w: World, e: Event)
    requires WInv(w) && Possible(w, e) && e.Label? && Coherent(Happened(w, e).store)
    ensures WInv(Happened(w, e))
  {
    var op := OpOf(w, e).value;
    var s' := Next(w.store, op);
    forall k | k in w.live ensures Served(s'.recs, s'.written, k, w.live[k]) {
      LabelServes(w, e, k);
    }
    LabelAttaches(w, e);
    hide Coherent, Next, Served, Attached;
  }

  lemma LabelServes(w: World, e: Event, k: Key)
    requires WInv(w) && Possible(w, e) && e.Label? && k in w.live
    ensures var s' := Next(w.store, OpOf(w, e).value);
            Served(s'.recs, s'.written, k, w.live[k])
  {
    var op := OpOf(w, e).value;
    WriteShape(w.store, op);
    assert Own(w.store, op) == e.k;
    assert Served(w.store.recs, w.store.written, k, w.live[k]);
    hide Coherent, Next, Own, Writes, Finds;
  }

  lemma LabelAttaches(w: World, e: Event)
    requires WInv(w) && Possible(w, e) && e.Label?
    ensures var s' := Next(w.store, OpOf(w, e).value);
            && (forall k :: k in s'.recs ==> Attached(w.live, k, s'.recs[k]))
            && (forall t :: t in s'.written ==> t in w.used)
  {
    var op := OpOf(w, e).value;
    WriteShape(w.store, op);
    assert Own(w.store, op) == e.k;
    hide Coherent, Next, Own, Writes, Finds, Found;
  }

  lemma LookKeeps(w: World, e: Event)
    requires WInv(w) && Possible(w, e) && e.Look? && Coherent(Happened(w, e).store)
    ensures WInv(Happened(w, e))
  {
  }

  lemma RenameKeeps(w: World, e: Event)
    requires WInv(w) && Possible(w, e) && e.Rename? && Coherent(Happened(w, e).store)
    ensures WInv(Happened(w, e))
  {
  }

  /** A complete listing of sessions that were only ever renamed through the service moves no record. */
  lemma ListKeeps(w: World, e: Event)
    requires WInv(w) && Possible(w, e) && e.List? && Coherent(Happened(w, e).store)
    ensures WInv(Happened(w, e))
    ensures forall k :: k in Happened(w, e).store.recs ==> k in w.store.recs && Happened(w, e).store.recs[k] == w.store.recs[k]
  {
    var recs, out := w.store.recs, Happened(w, e).store.recs;
    RetainAccounts(recs, e.rt, e.sessions, e.listedAt, e.order);
    forall k | k in out ensures k in recs && out[k] == recs[k] {
      NothingMoves(w, e, k);
    }
    forall k | k in w.live ensures !Orphan(recs, e.rt, e.sessions, e.listedAt, k) {
      StaysKept(w, e.rt, e.sessions, e.listedAt, k);
    }
    hide Retain, Orphan, Wanted, IsListing, Coherent, IsLive;
  }

  lemma NothingMoves(w: World, e: Event, k: Key)
    requires WInv(w) && Possible(w, e) && e.List? && k in Happened(w, e).store.recs
    ensures k in w.store.recs && Happened(w, e).store.recs[k] == w.store.recs[k]
  {
    var recs := w.store.recs;
    var o := RetainOrigin(recs, e.rt, e.sessions, e.listedAt, e.order, k);
    if Orphan(recs, e.rt, e.sessions, e.listedAt, o) {
      OrphanIsDead(w, e, o, k);
    }
  }

  /** An orphan's run has no live session: its record would have been at that session's key. */
  lemma OrphanIsDead(w: World, e: Event, o: Key, k: Key)
    requires WInv(w) && Possible(w, e) && e.List? && Orphan(w.store.recs, e.rt, e.sessions, e.listedAt, o)
    ensures Wanted(e.rt, e.sessions, w.store.recs[o]) != Some(k)
  {
    if Wanted(e.rt, e.sessions, w.store.recs[o]) == Some(k) {
      WantedStart(w.live, e.rt, e.sessions, w.store.recs[o], k);
      assert Attached(w.live, o, w.store.recs[o]);
      StaysKept(w, e.rt, e.sessions, e.listedAt, k);
    }
  }

  // ---- every run -----------------------------------------------------------

  ghost predicate IsRun(ws: seq<World>, es: seq<Event>)
  {
    && |ws| == |es| + 1 && ws[0] == World(Store(map[], map[]), map[], {})
    && (forall i :: 0 <= i < |es| ==> Possible(ws[i], es[i]) && ws[i + 1] == Happened(ws[i], es[i]))
  }

  lemma {:induction false} RunKeeps(ws: seq<World>, es: seq<Event>)
    requires IsRun(ws, es)
    ensures WInv(ws[|es|])
    decreases |es|
  {
    var n := |es|;
    if n > 0 {
      assert IsRun(ws[..n], es[..n - 1]);
      RunKeeps(ws[..n], es[..n - 1]);
      StepKeeps(ws[n - 1], es[n - 1]);
    }
  }

  /** Over every run of creates, merges, reads, renames, closes, unobserved ends, recycled ids and complete
      listings: each live session reads exactly the labels last written to it, and no other's. */
  lemma LabelsFollowLiveSessions(ws: seq<World>, es: seq<Event>, k: Key)
    requires IsRun(ws, es) && k in ws[|es|].live
    ensures var w := ws[|es|];
            Get(w.store.recs, k, Some(w.live[k])) == Last(w.store.written, w.live[k])
  {
    RunKeeps(ws, es);
    LiveReadsItsOwn(ws[|es|], k);
  }

  // ---- a rename behind the service's back ----------------------------------

  /** The records of renamed-by-hand sessions lag behind: each is under an id nothing live has, and
      the session is unlabelled under its new one. */
  ghost predicate Lagging(w: World, rt: RuntimeId, listedAt: Time)
  {
    && Coherent(w.store)
    && (forall k, l :: k in w.live && l in w.live && w.live[k] == w.live[l] ==> k == l)
    && (forall k :: k in w.live ==> k.runtime != "" && w.live[k] in w.used)
    && (forall t :: t in w.store.written ==> t in w.used)
    && (forall k, l :: k in w.store.recs && l in w.store.recs && w.store.recs[k].startedAt == w.store.recs[l].startedAt ==> k == l)
    && (forall l :: l in w.live && Last(w.store.written, w.live[l]) != map[] ==>
          exists k :: k in w.store.recs && w.store.recs[k].startedAt == Some(w.live[l]))
    && (forall k, l :: k in w.store.recs && l in w.live && w.store.recs[k].startedAt == Some(w.live[l]) && k != l ==>
          k.runtime == rt == l.runtime && k !in w.live && l !in w.store.recs && w.store.recs[k].updatedAt <= listedAt)
  }

  /** One complete listing re-attaches them all, and everything holds again. */
  lemma ListingCatchesUp(w: World, rt: RuntimeId, sessions: seq<Session>, listedAt: Time, order: seq<Key>)
    requires Lagging(w, rt, listedAt) && Possible(w, List(rt, sessions, listedAt, order))
    ensures WInv(Happened(w, List(rt, sessions, listedAt, order)))
  {
    hide Retain, Coherent, IsListing, Orphan, Wanted;
    var recs := w.store.recs;
    var out := Retain(recs, rt, sessions, listedAt, order);
    ListingCoherent(w.store, rt, sessions, listedAt, order);
    RetainAccounts(recs, rt, sessions, listedAt, order);
    forall l | l in w.live && Last(w.store.written, w.live[l]) != map[]
      ensures l in out && out[l].startedAt == Some(w.live[l])
    {
      var k :| k in recs && recs[k].startedAt == Some(w.live[l]);
      CaughtUp(w, rt, sessions, listedAt, order, k, l);
    }
    forall k | k in out ensures Attached(w.live, k, out[k]) {
      NowAttached(w, rt, sessions, listedAt, order, k);
    }
  }

  /** A listed session is where its run's orphan is wanted. */
  lemma WantedAtSession(w: World, rt: RuntimeId, sessions: seq<Session>, r: LabelRec, l: Key)
    requires IsListing(w.live, rt, sessions) && l in w.live && l.runtime == rt && r.startedAt == Some(w.live[l])
    requires forall k, l :: k in w.live && l in w.live && w.live[k] == w.live[l] ==> k == l
    ensures Wanted(rt, sessions, r) == Some(l)
  {
    FirstStartedIsFirst(sessions, r.startedAt);
    var j :| 0 <= j < |sessions| && sessions[j].id == l.id;
    assert sessions[j] in sessions;
    var i := FirstStarted(sessions, r.startedAt);
    assert i >= 0 && sessions[i] in sessions;
  }

  lemma CaughtUp(w: World, rt: RuntimeId, sessions: seq<Session>, listedAt: Time, order: seq<Key>, k: Key, l: Key)
    requires Lagging(w, rt, listedAt) && Possible(w, List(rt, sessions, listedAt, order))
    requires k in w.store.recs && l in w.live && w.store.recs[k].startedAt == Some(w.live[l])
    ensures var out := Retain(w.store.recs, rt, sessions, listedAt, order);
            l in out && out[l].startedAt == Some(w.live[l])
  {
    var recs := w.store.recs;
    var out := Retain(recs, rt, sessions, listedAt, order);
    RetainAccounts(recs, rt, sessions, listedAt, order);
    if k != l {
      LaggingOrphan(w, rt, sessions, listedAt, k, l);
      hide Retain, Orphan, Wanted, Lagging, IsListing, Coherent;
      var o :| Orphan(recs, rt, sessions, listedAt, o) && MovedHere(recs, out, rt, sessions, o, l);
      WantedStart(w.live, rt, sessions, recs[o], l);
    } else {
      StaysKept(w, rt, sessions, listedAt, k);
      hide Retain, Orphan, Wanted, Lagging, IsListing, Coherent;
    }
  }

  lemma LaggingOrphan(w: World, rt: RuntimeId, sessions: seq<Session>, listedAt: Time, k: Key, l: Key)
    requires Lagging(w, rt, listedAt) && IsListing(w.live, rt, sessions) && k != l
    requires k in w.store.recs && l in w.live && w.store.recs[k].startedAt == Some(w.live[l])
    ensures Orphan(w.store.recs, rt, sessions, listedAt, k) && l !in w.store.recs
    ensures Wanted(rt, sessions, w.store.recs[k]) == Some(l)
  {
    WantedAtSession(w, rt, sessions, w.store.recs[k], l);
    NotKept(w, rt, sessions, listedAt, k);
  }

  /** A record that is wanted by a listed session is of its run. */
  lemma WantedStart(live: map<Key, Time>, rt: RuntimeId, sessions: seq<Session>, r: LabelRec, l: Key)
    requires IsListing(live, rt, sessions) && Wanted(rt, sessions, r) == Some(l)
    ensures l in live && r.startedAt == Some(live[l])
  {
    assert sessions[FirstStarted(sessions, r.startedAt)] in sessions;
  }

  lemma StaysKept(w: World, rt: RuntimeId, sessions: seq<Session>, listedAt: Time, k: Key)
    requires IsListing(w.live, rt, sessions) && k in w.live
    ensures !Orphan(w.store.recs, rt, sessions, listedAt, k)
  {
  }

  lemma NowAttached(w: World, rt: RuntimeId, sessions: seq<Session>, listedAt: Time, order: seq<Key>, k: Key)
    requires Lagging(w, rt, listedAt) && Possible(w, List(rt, sessions, listedAt, order))
    requires k in Retain(w.store.recs, rt, sessions, listedAt, order)
    ensures Attached(w.live, k, Retain(w.store.recs, rt, sessions, listedAt, order)[k])
  {
    var recs := w.store.recs;
    var out := Retain(recs, rt, sessions, listedAt, order);
    var o := RetainOrigin(recs, rt, sessions, listedAt, order, k);
    assert IsListing(w.live, rt, sessions);
    hide *;
    if o == k && !Orphan(recs, rt, sessions, listedAt, k) {
      KeptAttached(w, rt, sessions, listedAt, k);
    } else {
      WantedStart(w.live, rt, sessions, recs[o], k);
      AtItsSession(w, rt, listedAt, k, out[k]);
    }
  }

  lemma AtItsSession(w: World, rt: RuntimeId, listedAt: Time, k: Key, r: LabelRec)
    requires Lagging(w, rt, listedAt) && k in w.live && r.startedAt == Some(w.live[k])
    ensures Attached(w.live, k, r)
  {
  }

  lemma KeptAttached(w: World, rt: RuntimeId, sessions: seq<Session>, listedAt: Time, k: Key)
    requires Lagging(w, rt, listedAt) && IsListing(w.live, rt, sessions)
    requires k in w.store.recs && !Orphan(w.store.recs, rt, sessions, listedAt, k)
    ensures Attached(w.live, k, w.store.recs[k])
  {
    forall l | l in w.live && w.store.recs[k].startedAt == Some(w.live[l]) ensures l == k {
      if k != l {
        LaggingOrphan(w, rt, sessions, listedAt, k, l);
      }
    }
  }

  lemma NotKept(w: World, rt: RuntimeId, sessions: seq<Session>, listedAt: Time, k: Key)
    requires IsListing(w.live, rt, sessions) && k in w.store.recs && k.runtime == rt && k !in w.live
    requires w.store.recs[k].updatedAt <= listedAt
    ensures Orphan(w.store.recs, rt, sessions, listedAt, k)
  {
  }
}
