// Every run of the history store (internal/service/history.go): creations, renames, closes and listings in
// any order, each with the save it ends in. What a session leaves behind, and the ways it can be lost.
module HistoryRuns {
  import opened Fleet
  import opened Seqs
  import opened HistorySpec
  import opened HistoryScan
  import opened HistoryObserve
  import HP = HistoryPrune
  import HL = HistoryListing

  datatype Store = Store(seen: Seen, closed: seq<Tomb>)

  /** saved says whether a listing ended in a save; the other operations always do. */
  datatype Op =
    | Create(rt: RuntimeId, session: Session, now: Time)
    | Rename(rt: RuntimeId, from: string, to: string, now: Time)
    | Close(rt: RuntimeId, id: string, now: Time)
    | Listing(a: Call, order: seq<Key>, saved: bool)

  function Saved(s: Store, cut: Time): Store
  {
    Store(PruneSeen(s.seen, cut), PruneClosed(s.closed, cut))
  }

  predicate Enabled(s: Store, op: Op)
  {
    op.Listing? ==> WellFormed(op.a) && Visits(s.seen, s.closed, op.a, op.order)
  }

  function Next(s: Store, op: Op, retention: nat): Store
  {
    match op
    case Create(rt, session, now) =>
      if session.id == "" then s else Saved(s.(seen := Sight(s.seen, rt, session, now)), now - retention)
    case Rename(rt, from, to, now) =>
      if Key(rt, from) !in s.seen || from == to then s
      else Saved(s.(seen := RenameSeen(s.seen, rt, from, to)), now - retention)
    case Close(rt, id, now) =>
      var k := Key(rt, id);
      Saved(Store(s.seen - {k}, s.closed + [TombOf(rt, RecAt(s.seen, k), now, ByClose, None)]), now - retention)
    case Listing(a, order, saved) =>
      var o := Observed(s.seen, s.closed, a, order);
      if saved then Saved(Store(o.seen, o.closed), a.now - retention) else Store(o.seen, o.closed)
  }

  // ---- what is remembered of a session, and how it is lost -----------------

  predicate KeptAs(s: Store, rt: RuntimeId, start: Time, k: Key)
  {
    k in s.seen && k.runtime == rt && s.seen[k].startedAt == Some(start)
  }

  predicate TombedAs(s: Store, rt: RuntimeId, start: Time, t: Tomb)
  {
    t in s.closed && t.runtime == rt && t.startedAt == Some(start)
  }

  /** A session that started then has a record or a tombstone. */
  ghost predicate Remembered(s: Store, rt: RuntimeId, start: Time)
  {
    (exists k :: KeptAs(s, rt, start, k)) || (exists t :: TombedAs(s, rt, start, t))
  }

  /** The listing captured the exit of a session long gone. */
  predicate ExitedBefore(a: Call, k: Key, cut: Time)
  {
    k.runtime == a.rt && exists i :: 0 <= i < |a.exits| && a.exits[i].id == k.id && a.exits[i].at < cut
  }

  /** The record goes and leaves no tombstone: it was not sighted for the whole retention, and no listing ends it;
      its exit was captured and is as old; a creation under its id belongs to another run; a rename ends
      at its id. A missing record that expired is ended rather than lost unless it alone is carried. */
  predicate LosesRecord(s: Store, op: Op, retention: nat, k: Key)
  {
    && k in s.seen
    && match op
       case Create(rt, session, now) =>
         session.id != "" && (if k == Key(rt, session.id) then Recycles(s.seen[k], session) else s.seen[k].lastSeen < now - retention)
       case Rename(rt, from, to, now) =>
         from != to && Key(rt, from) in s.seen && (k == Key(rt, to) || s.seen[k].lastSeen < now - retention)
       case Close(rt, id, now) => k != Key(rt, id) && s.seen[k].lastSeen < now - retention
       case Listing(a, order, saved) =>
         && saved
         && if k in ExitKeys(a.rt, a.exits) then ExitedBefore(a, k, a.now - retention)
            else
              && !(k.runtime == a.rt && Present(a.items, k.id)) && s.seen[k].lastSeen < a.now - retention
              && (a.complete && HP.Awaited(s.seen, a, k) ==> HL.Lone(s.seen, a, k))
  }

  predicate Saves(s: Store, op: Op)
  {
    match op
    case Create(_, session, _) => session.id != ""
    case Rename(rt, from, to, _) => from != to && Key(rt, from) in s.seen
    case Close(_, _, _) => true
    case Listing(_, _, saved) => saved
  }

  function Now(op: Op): Time
  {
    match op
    case Create(_, _, now) => now
    case Rename(_, _, _, now) => now
    case Close(_, _, now) => now
    case Listing(a, _, _) => a.now
  }

  /** The tombstone's retention is over. */
  predicate LosesTomb(s: Store, op: Op, retention: nat, t: Tomb)
  {
    t in s.closed && Saves(s, op) && t.closedAt < Now(op) - retention
  }

  /** The operation meets a session that started then. */
  predicate Sights(op: Op, rt: RuntimeId, start: Time)
  {
    match op
    case Create(r, session, _) => r == rt && session.id != "" && session.startedAt == Some(start)
    case Listing(a, _, _) => a.rt == rt && exists i :: 0 <= i < |a.items| && a.items[i].startedAt == Some(start)
    case _ => false
  }

  /** A listed session has no record, and a missing record of its start goes to it: it adds no sighting. */
  predicate CarriedTo(s: Store, a: Call, start: Time, i: nat)
    requires i < |a.items|
  {
    && a.complete && Key(a.rt, a.items[i].id) !in s.seen
    && exists k :: k in s.seen && KeptAs(s, a.rt, start, k) && HP.Awaited(s.seen, a, k)
  }

  /** The operation leaves a new sighting of a session that started then. */
  predicate SightsAnew(s: Store, op: Op, rt: RuntimeId, start: Time)
  {
    match op
    case Listing(a, _, saved) =>
      a.rt == rt && exists i :: 0 <= i < |a.items| && a.items[i].startedAt == Some(start) && !(saved && CarriedTo(s, a, start, i))
    case _ => Sights(op, rt, start)
  }

  /** The tombstones the operation does not withdraw. */
  function TombsAt(s: Store, op: Op, rt: RuntimeId, start: Time): seq<Tomb>
  {
    if op.Listing? && op.a.rt == rt then HL.TombsLeft(s.closed, op.a, start) else s.closed
  }

  /** Every record and every tombstone of the session is lost, and it is not sighted anew. */
  ghost predicate Forgets(s: Store, op: Op, retention: nat, rt: RuntimeId, start: Time)
  {
    && (forall k :: KeptAs(s, rt, start, k) ==> LosesRecord(s, op, retention, k))
    && (forall t :: t in TombsAt(s, op, rt, start) && TombedAs(s, rt, start, t) ==> LosesTomb(s, op, retention, t))
    && !SightsAnew(s, op, rt, start)
  }

  ghost predicate LostBy(s: Store, op: Op, retention: nat, rt: RuntimeId, start: Time)
  {
    || (exists k :: KeptAs(s, rt, start, k) && LosesRecord(s, op, retention, k))
    || (exists t :: TombedAs(s, rt, start, t) && LosesTomb(s, op, retention, t))
  }

  lemma RememberedBy(s: Store, rt: RuntimeId, start: Time, k: Key)
    requires KeptAs(s, rt, start, k)
    ensures Remembered(s, rt, start)
  {
  }

  lemma RememberedIn(s: Store, rt: RuntimeId, start: Time, t: Tomb)
    requires TombedAs(s, rt, start, t)
    ensures Remembered(s, rt, start)
  {
  }

  lemma NotRemembered(s: Store, rt: RuntimeId, start: Time)
    requires forall k :: !KeptAs(s, rt, start, k)
    requires forall t :: !TombedAs(s, rt, start, t)
    ensures !Remembered(s, rt, start)
  {
  }

  // ---- saving --------------------------------------------------------------

  lemma SavedKeeps(s: Store, cut: Time)
    ensures forall k :: k in Saved(s, cut).seen <==> k in s.seen && s.seen[k].lastSeen >= cut
    ensures forall k :: k in Saved(s, cut).seen ==> Saved(s, cut).seen[k] == s.seen[k]
    ensures forall t :: t in Saved(s, cut).closed <==> t in s.closed && t.closedAt >= cut
    ensures WellKeyed(s.seen) ==> WellKeyed(Saved(s, cut).seen)
  {
    FilterMembers(NotBefore(cut), s.closed);
  }

  // ---- one record, one operation -------------------------------------------

  lemma CreateKeeps(s: Store, op: Op, retention: nat, rt: RuntimeId, start: Time, k: Key)
    requires op.Create? && KeptAs(s, rt, start, k)
    ensures Remembered(Next(s, op, retention), rt, start) || LosesRecord(s, op, retention, k)
  {
    var s1, cut := s.(seen := Sight(s.seen, op.rt, op.session, op.now)), op.now - retention;
    SavedKeeps(s1, cut);
    hide Saved, Remembered;
    if !LosesRecord(s, op, retention, k) {
      RememberedBy(Next(s, op, retention), rt, start, k);
    }
  }

  lemma RenameKeeps(s: Store, op: Op, retention: nat, rt: RuntimeId, start: Time, k: Key)
    requires op.Rename? && KeptAs(s, rt, start, k)
    ensures Remembered(Next(s, op, retention), rt, start) || LosesRecord(s, op, retention, k)
  {
    SavedKeeps(s.(seen := RenameSeen(s.seen, op.rt, op.from, op.to)), op.now - retention);
    hide Saved, Remembered;
    if !LosesRecord(s, op, retention, k) {
      var k' := if Saves(s, op) && k == Key(op.rt, op.from) then Key(op.rt, op.to) else k;
      RememberedBy(Next(s, op, retention), rt, start, k');
    }
  }

  lemma CloseKeeps(s: Store, op: Op, retention: nat, rt: RuntimeId, start: Time, k: Key)
    requires op.Close? && KeptAs(s, rt, start, k)
    ensures Remembered(Next(s, op, retention), rt, start) || LosesRecord(s, op, retention, k)
  {
    var key := Key(op.rt, op.id);
    var t := TombOf(op.rt, RecAt(s.seen, key), op.now, ByClose, None);
    SavedKeeps(Store(s.seen - {key}, s.closed + [t]), op.now - retention);
    hide Saved, Remembered;
    if k == key {
      assert (s.closed + [t])[|s.closed|] == t;
      RememberedIn(Next(s, op, retention), rt, start, t);
    } else if !LosesRecord(s, op, retention, k) {
      RememberedBy(Next(s, op, retention), rt, start, k);
    }
  }

  lemma OtherKeepsTomb(s: Store, op: Op, retention: nat, rt: RuntimeId, start: Time, t: Tomb)
    requires !op.Listing? && TombedAs(s, rt, start, t)
    ensures Remembered(Next(s, op, retention), rt, start) || LosesTomb(s, op, retention, t)
  {
    var s' := Next(s, op, retention);
    hide Sight, RenameSeen, TombOf, RecAt, PruneSeen, Remembered, Filter;
    match op {
      case Create(_, session, now) => FilterMembers(NotBefore(now - retention), s.closed);
      case Rename(_, _, _, now) => FilterMembers(NotBefore(now - retention), s.closed);
      case Close(r, id, now) =>
        var c := s.closed + [TombOf(r, RecAt(s.seen, Key(r, id)), now, ByClose, None)];
        FilterMembers(NotBefore(now - retention), c);
        assert t in c;
    }
    if t in s'.closed {
      RememberedIn(s', rt, start, t);
    }
  }

  // ---- and what is left of no record ---------------------------------------

  lemma CreateLeaves(s: Store, op: Op, retention: nat, rt: RuntimeId, start: Time)
    requires op.Create? && Forgets(s, op, retention, rt, start)
    ensures !Remembered(Next(s, op, retention), rt, start)
  {
    var s1, s', cut := s.(seen := Sight(s.seen, op.rt, op.session, op.now)), Next(s, op, retention), op.now - retention;
    SavedKeeps(s1, cut);
    hide Saved, Remembered;
    forall k ensures !KeptAs(s', rt, start, k) {
      assert KeptAs(s, rt, start, k) ==> LosesRecord(s, op, retention, k);
    }
    forall t ensures !TombedAs(s', rt, start, t) {
      assert TombedAs(s, rt, start, t) ==> LosesTomb(s, op, retention, t);
    }
    NotRemembered(s', rt, start);
  }

  lemma RenameLeaves(s: Store, op: Op, retention: nat, rt: RuntimeId, start: Time)
    requires op.Rename? && Forgets(s, op, retention, rt, start)
    ensures !Remembered(Next(s, op, retention), rt, start)
  {
    var s' := Next(s, op, retention);
    SavedKeeps(s.(seen := RenameSeen(s.seen, op.rt, op.from, op.to)), op.now - retention);
    hide Saved, Remembered;
    forall k ensures !KeptAs(s', rt, start, k) {
      assert KeptAs(s, rt, start, k) ==> LosesRecord(s, op, retention, k);
      var from := Key(op.rt, op.from);
      assert KeptAs(s, rt, start, from) ==> LosesRecord(s, op, retention, from);
    }
    forall t ensures !TombedAs(s', rt, start, t) {
      assert TombedAs(s, rt, start, t) ==> LosesTomb(s, op, retention, t);
    }
    NotRemembered(s', rt, start);
  }

  lemma CloseLeaves(s: Store, op: Op, retention: nat, rt: RuntimeId, start: Time)
    requires op.Close? && Forgets(s, op, retention, rt, start)
    ensures !Remembered(Next(s, op, retention), rt, start)
  {
    var key, s' := Key(op.rt, op.id), Next(s, op, retention);
    var t1 := TombOf(op.rt, RecAt(s.seen, key), op.now, ByClose, None);
    SavedKeeps(Store(s.seen - {key}, s.closed + [t1]), op.now - retention);
    hide Saved, Remembered;
    forall k ensures !KeptAs(s', rt, start, k) {
      assert KeptAs(s, rt, start, k) ==> LosesRecord(s, op, retention, k);
    }
    assert KeptAs(s, rt, start, key) ==> LosesRecord(s, op, retention, key);
    forall t ensures !TombedAs(s', rt, start, t) {
      assert TombedAs(s, rt, start, t) ==> LosesTomb(s, op, retention, t);
    }
    NotRemembered(s', rt, start);
  }

  // ---- a listing -----------------------------------------------------------

  /** A record through a listing, before the save. */
  lemma ListingKeepsRecord(s: Store, a: Call, order: seq<Key>, start: Time, k: Key) returns (t: Option<Tomb>, k': Key)
    requires WellFormed(a) && WellKeyed(s.seen) && Visits(s.seen, s.closed, a, order) && KeptAs(s, k.runtime, start, k)
    ensures var o := Observed(s.seen, s.closed, a, order);
            match t
            case Some(t) =>
              && TombedAs(Store(o.seen, o.closed), k.runtime, start, t)
              && (t.closedAt == a.now
                  || (k in ExitKeys(a.rt, a.exits) && k !in o.ended && (forall cut :: t.closedAt < cut ==> ExitedBefore(a, k, cut))))
            case None =>
              && KeptAs(Store(o.seen, o.closed), k.runtime, start, k') && k !in ExitKeys(a.rt, a.exits) && k !in o.ended
              && (o.seen[k'].lastSeen >= a.now
                  || (o.seen[k'].lastSeen == s.seen[k].lastSeen && !(k.runtime == a.rt && Present(a.items, k.id))))
  {
    hide *;
    var o := Observed(s.seen, s.closed, a, order);
    var s' := Store(o.seen, o.closed);
    KeptIs(s, k.runtime, start, k);
    EveryRecordHasOneFate(s.seen, s.closed, a, order, k);
    t, k' := None, k;
    if k.runtime == a.rt && k in ExitKeys(a.rt, a.exits) {
      var i := HL.ExitLeavesTomb(s.seen, s.closed, a, order, k);
      var tomb := TombOf(a.rt, s.seen[k], a.exits[i].at, ByExit, Some(a.exits[i].status));
      TombIs(a.rt, s.seen[k], a.exits[i].at, ByExit, Some(a.exits[i].status));
      TombedIs(s', k.runtime, start, tomb);
      ExitedAt(a, k, i);
      t := Some(tomb);
    } else if k in o.ended {
      HL.EndedLeavesTomb(s.seen, s.closed, a, order, k);
      AbsentIs(k, s.seen[k], a.now);
      TombedIs(s', k.runtime, start, Absent(k, s.seen[k], a.now));
      t := Some(Absent(k, s.seen[k], a.now));
    } else if k.runtime == a.rt && Present(a.items, k.id) {
      var i :| 0 <= i < |a.items| && a.items[i].id == k.id && o.seen[k] == Updated(s.seen[k], a.items[i], a.now);
      HL.UpdatedStarts(s.seen[k], a.items[i], a.now);
      if Recycles(s.seen[k], a.items[i]) {
        HL.TakenOverLeavesTomb(s.seen, s.closed, a, order, k, i);
        AbsentIs(k, s.seen[k], a.now);
        TombedIs(s', k.runtime, start, Absent(k, s.seen[k], a.now));
        t := Some(Absent(k, s.seen[k], a.now));
      } else {
        KeptAgain(s', k.runtime, start, k);
      }
    } else {
      ExitRuntime(a, k);
      if k in o.carried && k !in o.seen {
        k' := Key(a.rt, o.carried[k].id);
        HL.RenamedIs(s.seen[k], o.carried[k]);
      }
      KeptAgain(s', k.runtime, start, k');
    }
  }

  lemma KeptIs(s: Store, rt: RuntimeId, start: Time, k: Key)
    ensures KeptAs(s, rt, start, k) <==> k in s.seen && k.runtime == rt && s.seen[k].startedAt == Some(start)
  {
  }

  lemma KeptAgain(s: Store, rt: RuntimeId, start: Time, k: Key)
    requires k in s.seen && k.runtime == rt && s.seen[k].startedAt == Some(start)
    ensures KeptAs(s, rt, start, k)
  {
  }

  lemma TombedIs(s: Store, rt: RuntimeId, start: Time, t: Tomb)
    ensures TombedAs(s, rt, start, t) <==> t in s.closed && t.runtime == rt && t.startedAt == Some(start)
  {
  }

  lemma TombIs(rt: RuntimeId, r: Rec, at: Time, kind: ClosureKind, exit: Option<int>)
    ensures var t := TombOf(rt, r, at, kind, exit);
            t.runtime == rt && t.startedAt == r.startedAt && t.closedAt == at
  {
  }

  lemma AbsentIs(k: Key, r: Rec, now: Time)
    ensures var t := Absent(k, r, now);
            t.runtime == k.runtime && t.startedAt == r.startedAt && t.closedAt == now
  {
  }

  lemma ExitedAt(a: Call, k: Key, i: nat)
    requires i < |a.exits| && a.exits[i].id == k.id && k.runtime == a.rt
    ensures forall cut :: a.exits[i].at < cut ==> ExitedBefore(a, k, cut)
  {
  }

  lemma ExitRuntime(a: Call, k: Key)
    ensures k in ExitKeys(a.rt, a.exits) ==> k.runtime == a.rt
  {
  }

  lemma ListingEnabled(s: Store, op: Op)
    requires op.Listing? && Enabled(s, op)
    ensures WellFormed(op.a) && Visits(s.seen, s.closed, op.a, op.order)
  {
  }

  lemma NextListing(s: Store, op: Op, retention: nat)
    requires op.Listing?
    ensures var o := Observed(s.seen, s.closed, op.a, op.order);
            Next(s, op, retention) == if op.saved then Saved(Store(o.seen, o.closed), op.a.now - retention) else Store(o.seen, o.closed)
  {
    hide Observed, Saved;
  }

  lemma ListingLoses(s: Store, op: Op, retention: nat, k: Key)
    requires op.Listing?
    ensures LosesRecord(s, op, retention, k)
       <==> && k in s.seen && op.saved
            && if k in ExitKeys(op.a.rt, op.a.exits) then ExitedBefore(op.a, k, op.a.now - retention)
               else
                 && !(k.runtime == op.a.rt && Present(op.a.items, k.id)) && s.seen[k].lastSeen < op.a.now - retention
                 && (op.a.complete && HP.Awaited(s.seen, op.a, k) ==> HL.Lone(s.seen, op.a, k))
  {
    hide ExitKeys, Present, ExitedBefore, HP.Awaited, HL.Lone;
  }

  lemma ListingLosesTomb(s: Store, op: Op, retention: nat, t: Tomb)
    requires op.Listing?
    ensures LosesTomb(s, op, retention, t) <==> t in s.closed && op.saved && t.closedAt < op.a.now - retention
  {
  }

  /** The store a listing leaves, by what it keeps of the fold. */
  lemma ListingLeaves(s: Store, op: Op, retention: nat)
    requires op.Listing?
    ensures var o, s', cut := Observed(s.seen, s.closed, op.a, op.order), Next(s, op, retention), op.a.now - retention;
            && (forall k :: k in s'.seen <==> k in o.seen && (op.saved ==> o.seen[k].lastSeen >= cut))
            && (forall k :: k in s'.seen ==> s'.seen[k] == o.seen[k])
            && (forall t :: t in s'.closed <==> t in o.closed && (op.saved ==> t.closedAt >= cut))
  {
    hide *;
    NextListing(s, op, retention);
    var o := Observed(s.seen, s.closed, op.a, op.order);
    SavedKeeps(Store(o.seen, o.closed), op.a.now - retention);
  }

  lemma ListingKeeps(s: Store, op: Op, retention: nat, rt: RuntimeId, start: Time, k: Key)
    requires op.Listing? && Enabled(s, op) && WellKeyed(s.seen) && KeptAs(s, rt, start, k)
    ensures Remembered(Next(s, op, retention), rt, start) || LosesRecord(s, op, retention, k)
  {
    hide *;
    ListingEnabled(s, op);
    ListingLeaves(s, op, retention);
    KeptIs(s, rt, start, k);
    var a, cut := op.a, op.a.now - retention;
    var o := Observed(s.seen, s.closed, a, op.order);
    var s1, s' := Store(o.seen, o.closed), Next(s, op, retention);
    var t, k' := ListingKeepsRecord(s, a, op.order, start, k);
    ListingLoses(s, op, retention, k);
    if t.Some? {
      TombedIs(s1, rt, start, t.value);
      TombedIs(s', rt, start, t.value);
      if t.value in s'.closed {
        RememberedIn(s', rt, start, t.value);
      }
    } else {
      KeptIs(s1, rt, start, k');
      if k' in s'.seen {
        KeptAgain(s', rt, start, k');
        RememberedBy(s', rt, start, k');
      } else if a.complete && HP.Awaited(s.seen, a, k) && !HL.Lone(s.seen, a, k) {
        var l := HL.NotLoneEnds(s.seen, s.closed, a, op.order, k);
        HL.AwaitedIs(s.seen, a, k);
        EndedIsRemembered(s, op, retention, start, l);
      }
    }
  }

  lemma EndedIsRemembered(s: Store, op: Op, retention: nat, start: Time, l: Key)
    requires op.Listing? && Enabled(s, op) && WellKeyed(s.seen) && l in s.seen && s.seen[l].startedAt == Some(start)
    requires l in Observed(s.seen, s.closed, op.a, op.order).ended && l.runtime == op.a.rt
    ensures Remembered(Next(s, op, retention), op.a.rt, start)
  {
    hide *;
    ListingEnabled(s, op);
    ListingLeaves(s, op, retention);
    HL.EndedLeavesTomb(s.seen, s.closed, op.a, op.order, l);
    AbsentIs(l, s.seen[l], op.a.now);
    var t, s' := Absent(l, s.seen[l], op.a.now), Next(s, op, retention);
    TombedIs(s', op.a.rt, start, t);
    RememberedIn(s', op.a.rt, start, t);
  }

  /** A session that is listed and not carried to is remembered. */
  lemma ListedKeeps(s: Store, op: Op, retention: nat, start: Time, i: nat)
    requires op.Listing? && Enabled(s, op) && WellKeyed(s.seen) && i < |op.a.items| && op.a.items[i].startedAt == Some(start)
    ensures Remembered(Next(s, op, retention), op.a.rt, start) || (op.saved && CarriedTo(s, op.a, start, i))
  {
    hide *;
    ListingEnabled(s, op);
    ListingLeaves(s, op, retention);
    var a, s', k := op.a, Next(s, op, retention), Key(op.a.rt, op.a.items[i].id);
    var from := HL.ListedIsKept(s.seen, s.closed, a, op.order, i);
    if k in s'.seen {
      KeptAgain(s', a.rt, start, k);
      RememberedBy(s', a.rt, start, k);
    } else {
      HL.RenamedIs(s.seen[from.value], a.items[i]);
      HL.AwaitedIs(s.seen, a, from.value);
      KeptAgain(s, a.rt, start, from.value);
      IsCarriedTo(s, a, start, i, from.value);
    }
  }

  lemma IsCarriedTo(s: Store, a: Call, start: Time, i: nat, k: Key)
    requires i < |a.items| && a.complete && Key(a.rt, a.items[i].id) !in s.seen
    requires k in s.seen && KeptAs(s, a.rt, start, k) && HP.Awaited(s.seen, a, k)
    ensures CarriedTo(s, a, start, i)
  {
    hide KeptAs, HP.Awaited;
  }

  lemma CarriedFrom(s: Store, a: Call, start: Time, i: nat) returns (k: Key)
    requires i < |a.items| && CarriedTo(s, a, start, i)
    ensures a.complete && Key(a.rt, a.items[i].id) !in s.seen
    ensures k in s.seen && KeptAs(s, a.rt, start, k) && HP.Awaited(s.seen, a, k)
  {
    hide KeptAs, HP.Awaited;
    k :| k in s.seen && KeptAs(s, a.rt, start, k) && HP.Awaited(s.seen, a, k);
  }

  /** Of two listed sessions with one start, one at least is sighted now. */
  lemma TwoListed(s: Store, op: Op, retention: nat, start: Time)
    requires op.Listing? && Enabled(s, op) && WellKeyed(s.seen) && !HL.ListedOnce(op.a, start)
    ensures Remembered(Next(s, op, retention), op.a.rt, start)
  {
    hide *;
    ListingEnabled(s, op);
    ListingLeaves(s, op, retention);
    var a, s' := op.a, Next(s, op, retention);
    var i, j := ListedTwice(a, start);
    var from := HL.ListedIsKept(s.seen, s.closed, a, op.order, i);
    var from' := HL.ListedIsKept(s.seen, s.closed, a, op.order, j);
    if from.Some? && from'.Some? {
      var q, q' := from.value, from'.value;
      HL.RenamedIs(s.seen[q], a.items[i]);
      HL.RenamedIs(s.seen[q'], a.items[j]);
      HL.CarriedOrEnded(s.seen, s.closed, a, op.order, q);
      HL.CarriedOrEnded(s.seen, s.closed, a, op.order, q');
      HL.SameItem(a, i, j);
      assert false;
    }
    var n := if from.None? then i else j;
    var k := Key(a.rt, a.items[n].id);
    KeptAgain(s', a.rt, start, k);
    RememberedBy(s', a.rt, start, k);
  }

  lemma ListedTwice(a: Call, start: Time) returns (i: nat, j: nat)
    requires !HL.ListedOnce(a, start)
    ensures i < j < |a.items| && a.items[i].startedAt == Some(start) && a.items[j].startedAt == Some(start)
  {
    i, j :| 0 <= i < j < |a.items| && a.items[i].startedAt == Some(start) && a.items[j].startedAt == Some(start);
  }

  lemma ListingKeepsTomb(s: Store, op: Op, retention: nat, rt: RuntimeId, start: Time, t: Tomb)
    requires op.Listing? && Enabled(s, op) && WellKeyed(s.seen)
    requires TombedAs(s, rt, start, t) && t in TombsAt(s, op, rt, start)
    ensures Remembered(Next(s, op, retention), rt, start) || LosesTomb(s, op, retention, t)
  {
    hide *;
    ListingEnabled(s, op);
    ListingLeaves(s, op, retention);
    ListingLosesTomb(s, op, retention, t);
    TombedIs(s, rt, start, t);
    var a, s' := op.a, Next(s, op, retention);
    if rt == a.rt && !HL.ListedOnce(a, start) {
      TwoListed(s, op, retention, start);
    } else {
      NotWithdrawn(s, op, rt, start, t);
      HL.TombFrom(s.seen, s.closed, a, op.order, t);
      TombedIs(s', rt, start, t);
      if t in s'.closed {
        RememberedIn(s', rt, start, t);
      }
    }
  }

  lemma NotWithdrawn(s: Store, op: Op, rt: RuntimeId, start: Time, t: Tomb)
    requires op.Listing? && Enabled(s, op) && WellKeyed(s.seen) && t.runtime == rt && t.startedAt == Some(start)
    requires rt == op.a.rt ==> HL.ListedOnce(op.a, start)
    ensures t in TombsAt(s, op, rt, start)
       <==> multiset(s.closed)[t] > multiset(Observed(s.seen, s.closed, op.a, op.order).withdrawn)[t]
  {
    hide *;
    ListingEnabled(s, op);
    TombsAtIs(s, op, rt, start);
    if rt == op.a.rt {
      HL.LeftIffNotWithdrawn(s.seen, s.closed, op.a, op.order, start, t);
    } else {
      var withdrawn := Observed(s.seen, s.closed, op.a, op.order).withdrawn;
      TombstonesBalance(s.seen, s.closed, op.a, op.order);
      if t in withdrawn {
        var i :| 0 <= i < |op.a.items| && Premature(t, op.a.rt, op.a.items[i]);
        HL.PrematureIsClose(t, op.a.rt, op.a.items[i]);
        assert false;
      }
      assert t !in multiset(withdrawn);
      assert t in s.closed <==> t in multiset(s.closed);
    }
  }

  lemma TombsAtIs(s: Store, op: Op, rt: RuntimeId, start: Time)
    ensures TombsAt(s, op, rt, start) == if op.Listing? && op.a.rt == rt then HL.TombsLeft(s.closed, op.a, start) else s.closed
  {
    hide HL.TombsLeft;
  }

  // ---- and what a listing leaves of no record ------------------------------

  lemma ForgetsIs(s: Store, op: Op, retention: nat, rt: RuntimeId, start: Time)
    ensures Forgets(s, op, retention, rt, start)
       <==> && (forall k :: KeptAs(s, rt, start, k) ==> LosesRecord(s, op, retention, k))
            && (forall t :: t in TombsAt(s, op, rt, start) && TombedAs(s, rt, start, t) ==> LosesTomb(s, op, retention, t))
            && !SightsAnew(s, op, rt, start)
  {
    hide KeptAs, LosesRecord, TombsAt, TombedAs, LosesTomb, SightsAnew;
  }

  lemma NoNewSighting(s: Store, op: Op, rt: RuntimeId, start: Time, i: nat)
    requires op.Listing? && !SightsAnew(s, op, rt, start) && rt == op.a.rt
    requires i < |op.a.items| && op.a.items[i].startedAt == Some(start)
    ensures op.saved && CarriedTo(s, op.a, start, i)
  {
    hide CarriedTo;
  }

  lemma ListingLeavesNoRecord(s: Store, op: Op, retention: nat, rt: RuntimeId, start: Time, q: Key)
    requires op.Listing? && Enabled(s, op) && WellKeyed(s.seen) && Forgets(s, op, retention, rt, start)
    ensures !KeptAs(Next(s, op, retention), rt, start, q)
  {
    hide *;
    var a, s' := op.a, Next(s, op, retention);
    ListingEnabled(s, op);
    ListingLeaves(s, op, retention);
    ForgetsIs(s, op, retention, rt, start);
    KeptIs(s', rt, start, q);
    if KeptAs(s', rt, start, q) {
      var origin := HL.SeenFrom(s.seen, s.closed, a, op.order, q);
      NoOrigin(s, op, retention, rt, start, q, origin);
    }
  }

  /** Wherever a record of the session would come from, it is gone. */
  lemma NoOrigin(s: Store, op: Op, retention: nat, rt: RuntimeId, start: Time, q: Key, origin: HL.Origin)
    requires op.Listing? && Enabled(s, op) && WellKeyed(s.seen) && Forgets(s, op, retention, rt, start)
    requires q in Observed(s.seen, s.closed, op.a, op.order).seen && q.runtime == rt
    requires HL.ComesFrom(s.seen, op.a, Observed(s.seen, s.closed, op.a, op.order), q, origin)
    ensures var r := Observed(s.seen, s.closed, op.a, op.order).seen[q];
            r.startedAt == Some(start) ==> op.saved && r.lastSeen < op.a.now - retention
  {
    hide *;
    var a, o := op.a, Observed(s.seen, s.closed, op.a, op.order);
    ForgetsIs(s, op, retention, rt, start);
    OriginIs(s.seen, a, o, q, origin);
    if o.seen[q].startedAt == Some(start) {
      match origin {
        case Stayed =>
          LosesKept(s, op, retention, rt, start, q);
        case Sighted(i) =>
          UpdatedFrom(s.seen[q], a.items[i], a.now);
          Here(a.items, i);
          if a.items[i].startedAt == Some(start) {
            NoNewSighting(s, op, rt, start, i);
            var _ := CarriedFrom(s, a, start, i);
          } else {
            LosesKept(s, op, retention, rt, start, q);
            ListingEnabled(s, op);
            HL.ListedNotExited(a, i);
          }
        case Met(i) =>
          HL.NewRecIs(a.items[i], a.now);
          NoNewSighting(s, op, rt, start, i);
          var k := CarriedFrom(s, a, start, i);
          KeptIs(s, rt, start, k);
          HL.AwaitedIs(s.seen, a, k);
          LosesKept(s, op, retention, rt, start, k);
          ListingEnabled(s, op);
          StartsSame(a.items[i].startedAt, s.seen[k].startedAt);
          HL.LoneTarget(s.seen, s.closed, a, op.order, k, i);
          HL.RenamedIs(s.seen[k], a.items[i]);
        case Carried(l) =>
          HL.RenamedIs(s.seen[l], o.carried[l]);
          HL.AwaitedIs(s.seen, a, l);
          LosesKept(s, op, retention, rt, start, l);
      }
    }
  }

  lemma StartsSame(a: Option<Time>, b: Option<Time>)
    requires a.Some? && a == b
    ensures SameStart(a, b)
  {
  }

  lemma UpdatedFrom(r: Rec, s: Session, now: Time)
    ensures Updated(r, s, now).startedAt == if s.startedAt.Some? then s.startedAt else r.startedAt
  {
  }

  lemma OriginIs(seen: Seen, a: Call, o: Fold, q: Key, origin: HL.Origin)
    requires q in o.seen && HL.ComesFrom(seen, a, o, q, origin)
    ensures match origin
            case Stayed => q in seen && q !in ExitKeys(a.rt, a.exits) && !(q.runtime == a.rt && Present(a.items, q.id)) && o.seen[q] == seen[q]
            case Sighted(i) => i < |a.items| && q == Key(a.rt, a.items[i].id) && q in seen && o.seen[q] == Updated(seen[q], a.items[i], a.now)
            case Met(i) => i < |a.items| && q == Key(a.rt, a.items[i].id) && q !in seen && o.seen[q] == NewRec(a.items[i], a.now)
            case Carried(l) =>
              l in seen && a.complete && HP.Awaited(seen, a, l) && l in o.carried && q == Key(a.rt, o.carried[l].id)
              && o.seen[q] == Renamed(seen[l], o.carried[l])
  {
    hide ExitKeys, Present, Updated, NewRec, HP.Awaited, Renamed;
  }

  /** A record of a session that is forgotten is lost. */
  lemma LosesKept(s: Store, op: Op, retention: nat, rt: RuntimeId, start: Time, k: Key)
    requires op.Listing? && Forgets(s, op, retention, rt, start)
    requires k in s.seen && k.runtime == rt && s.seen[k].startedAt == Some(start)
    ensures op.saved
    ensures if k in ExitKeys(op.a.rt, op.a.exits) then ExitedBefore(op.a, k, op.a.now - retention)
            else
              && !(k.runtime == op.a.rt && Present(op.a.items, k.id)) && s.seen[k].lastSeen < op.a.now - retention
              && (op.a.complete && HP.Awaited(s.seen, op.a, k) ==> HL.Lone(s.seen, op.a, k))
  {
    hide *;
    ForgetsIs(s, op, retention, rt, start);
    KeptAgain(s, rt, start, k);
    ListingLoses(s, op, retention, k);
  }

  lemma ListingLeavesNoTomb(s: Store, op: Op, retention: nat, rt: RuntimeId, start: Time, t: Tomb)
    requires op.Listing? && Enabled(s, op) && WellKeyed(s.seen) && Forgets(s, op, retention, rt, start)
    ensures !TombedAs(Next(s, op, retention), rt, start, t)
  {
    hide *;
    var a, s' := op.a, Next(s, op, retention);
    ListingEnabled(s, op);
    ListingLeaves(s, op, retention);
    TombedIs(s', rt, start, t);
    if TombedAs(s', rt, start, t) {
      var o := Observed(s.seen, s.closed, a, op.order);
      HL.TombFrom(s.seen, s.closed, a, op.order, t);
      if t in ExitTombs(s.seen, a.rt, a.exits) {
        NoExitTomb(s, op, retention, rt, start, t);
      } else if t in Tombs(s.seen, o.recycled, a.now) {
        NoRecycledTomb(s, op, retention, rt, start, t);
      } else if t in Tombs(s.seen, o.ended, a.now) {
        NoEndedTomb(s, op, retention, rt, start, t);
      } else {
        NoOldTomb(s, op, retention, rt, start, t);
      }
    }
  }

  lemma NoExitTomb(s: Store, op: Op, retention: nat, rt: RuntimeId, start: Time, t: Tomb)
    requires op.Listing? && Enabled(s, op) && WellKeyed(s.seen) && Forgets(s, op, retention, rt, start)
    requires t in ExitTombs(s.seen, op.a.rt, op.a.exits) && t.runtime == rt && t.startedAt == Some(start)
    ensures op.saved && t.closedAt < op.a.now - retention
  {
    hide *;
    ListingEnabled(s, op);
    var a := op.a;
    HP.ExitTombsAt(s.seen, a.rt, a.exits);
    var i :| 0 <= i < |a.exits| && ExitTombs(s.seen, a.rt, a.exits)[i] == t;
    HL.ExitTombIs(s.seen, a.rt, a.exits[i]);
    var k := Key(a.rt, a.exits[i].id);
    TombIs(a.rt, RecAt(s.seen, k), a.exits[i].at, ByExit, Some(a.exits[i].status));
    KnownRec(s.seen, k);
    LosesKept(s, op, retention, rt, start, k);
    IsExit(a, i);
    ExitedOnce(a, k, i, a.now - retention);
  }

  lemma KnownRec(seen: Seen, k: Key)
    ensures RecAt(seen, k).startedAt.Some? ==> k in seen && RecAt(seen, k) == seen[k]
  {
  }

  lemma IsExit(a: Call, i: nat)
    requires i < |a.exits|
    ensures Key(a.rt, a.exits[i].id) in ExitKeys(a.rt, a.exits)
  {
  }

  lemma ExitedOnce(a: Call, k: Key, i: nat, cut: Time)
    requires WellFormed(a) && i < |a.exits| && a.exits[i].id == k.id && ExitedBefore(a, k, cut)
    ensures a.exits[i].at < cut
  {
    var j :| 0 <= j < |a.exits| && a.exits[j].id == k.id && a.exits[j].at < cut;
    HP.SameExit(a.exits, i, j);
  }

  lemma NoRecycledTomb(s: Store, op: Op, retention: nat, rt: RuntimeId, start: Time, t: Tomb)
    requires op.Listing? && Enabled(s, op) && WellKeyed(s.seen) && Forgets(s, op, retention, rt, start)
    requires t.runtime == rt && t.startedAt == Some(start)
    ensures t !in Tombs(s.seen, Observed(s.seen, s.closed, op.a, op.order).recycled, op.a.now)
  {
    hide *;
    ListingEnabled(s, op);
    var a, recycled := op.a, Observed(s.seen, s.closed, op.a, op.order).recycled;
    HP.RestOfScan(s.seen, s.closed, a, op.order);
    HP.RecycledBefore(s.seen, s.closed, a);
    TombsMembers(s.seen, recycled, a.now, t);
    if k :| k in recycled && t == Absent(k, RecAt(s.seen, k), a.now) {
      AbsentIs(k, RecAt(s.seen, k), a.now);
      KnownRec(s.seen, k);
      LosesKept(s, op, retention, rt, start, k);
      TakenOverIs(s.seen, a, k);
      assert false;
    }
  }

  lemma TakenOverIs(seen: Seen, a: Call, k: Key)
    requires HP.TakenOver(seen, a, k)
    ensures k !in ExitKeys(a.rt, a.exits) && k.runtime == a.rt && Present(a.items, k.id)
  {
    hide ExitKeys, Recycles;
    var i :| 0 <= i < |a.items| && k == Key(a.rt, a.items[i].id) && Recycles(seen[k], a.items[i]);
    Here(a.items, i);
  }

  lemma NoEndedTomb(s: Store, op: Op, retention: nat, rt: RuntimeId, start: Time, t: Tomb)
    requires op.Listing? && Enabled(s, op) && WellKeyed(s.seen) && Forgets(s, op, retention, rt, start)
    requires t.runtime == rt && t.startedAt == Some(start)
    ensures t !in Tombs(s.seen, Observed(s.seen, s.closed, op.a, op.order).ended, op.a.now)
  {
    hide *;
    ListingEnabled(s, op);
    var a, ended := op.a, Observed(s.seen, s.closed, op.a, op.order).ended;
    TombsMembers(s.seen, ended, a.now, t);
    if k :| k in ended && t == Absent(k, RecAt(s.seen, k), a.now) {
      AbsentIs(k, RecAt(s.seen, k), a.now);
      KnownRec(s.seen, k);
      LosesKept(s, op, retention, rt, start, k);
      HL.EndedWasAwaited(s.seen, s.closed, a, op.order, k);
      HL.AwaitedIs(s.seen, a, k);
      HL.LoneIsCarried(s.seen, s.closed, a, op.order, k);
      assert false;
    }
  }

  lemma NoOldTomb(s: Store, op: Op, retention: nat, rt: RuntimeId, start: Time, t: Tomb)
    requires op.Listing? && Enabled(s, op) && WellKeyed(s.seen) && Forgets(s, op, retention, rt, start)
    requires t.runtime == rt && t.startedAt == Some(start)
    requires multiset(s.closed)[t] > multiset(Observed(s.seen, s.closed, op.a, op.order).withdrawn)[t]
    ensures op.saved && t.closedAt < op.a.now - retention
  {
    hide *;
    ForgetsIs(s, op, retention, rt, start);
    if rt == op.a.rt && !HL.ListedOnce(op.a, start) {
      var i, j := ListedTwice(op.a, start);
      NoNewSighting(s, op, rt, start, i);
      NoNewSighting(s, op, rt, start, j);
      var k := CarriedFrom(s, op.a, start, i);
      var _ := CarriedFrom(s, op.a, start, j);
      KeptIs(s, rt, start, k);
      HL.AwaitedIs(s.seen, op.a, k);
      LosesKept(s, op, retention, rt, start, k);
      ListingEnabled(s, op);
      StartsSame(op.a.items[i].startedAt, s.seen[k].startedAt);
      StartsSame(op.a.items[j].startedAt, s.seen[k].startedAt);
      HL.LoneTarget(s.seen, s.closed, op.a, op.order, k, i);
      HL.LoneTarget(s.seen, s.closed, op.a, op.order, k, j);
      HL.SameItem(op.a, i, j);
      assert false;
    }
    NotWithdrawn(s, op, rt, start, t);
    assert t in multiset(s.closed);
    TombedIs(s, rt, start, t);
    ListingLosesTomb(s, op, retention, t);
  }

  // ---- exactly when an operation forgets -----------------------------------

  lemma OpKeepsRecord(s: Store, op: Op, retention: nat, rt: RuntimeId, start: Time, k: Key)
    requires WellKeyed(s.seen) && Enabled(s, op) && KeptAs(s, rt, start, k)
    ensures Remembered(Next(s, op, retention), rt, start) || LosesRecord(s, op, retention, k)
  {
    hide *;
    match op {
      case Create(_, _, _) => CreateKeeps(s, op, retention, rt, start, k);
      case Rename(_, _, _, _) => RenameKeeps(s, op, retention, rt, start, k);
      case Close(_, _, _) => CloseKeeps(s, op, retention, rt, start, k);
      case Listing(_, _, _) => ListingKeeps(s, op, retention, rt, start, k);
    }
  }

  lemma OpKeepsTomb(s: Store, op: Op, retention: nat, rt: RuntimeId, start: Time, t: Tomb)
    requires WellKeyed(s.seen) && Enabled(s, op) && TombedAs(s, rt, start, t) && t in TombsAt(s, op, rt, start)
    ensures Remembered(Next(s, op, retention), rt, start) || LosesTomb(s, op, retention, t)
  {
    hide *;
    if op.Listing? {
      ListingKeepsTomb(s, op, retention, rt, start, t);
    } else {
      OtherKeepsTomb(s, op, retention, rt, start, t);
    }
  }

  lemma OpSightsAnew(s: Store, op: Op, retention: nat, rt: RuntimeId, start: Time)
    requires WellKeyed(s.seen) && Enabled(s, op) && SightsAnew(s, op, rt, start)
    ensures Remembered(Next(s, op, retention), rt, start)
  {
    if op.Listing? {
      var i := NewSighting(s, op, rt, start);
      hide *;
      ListedKeeps(s, op, retention, start, i);
    } else {
      CreationIsKept(s, op, retention, rt, start);
    }
  }

  lemma NewSighting(s: Store, op: Op, rt: RuntimeId, start: Time) returns (i: nat)
    requires op.Listing? && SightsAnew(s, op, rt, start)
    ensures op.a.rt == rt && i < |op.a.items| && op.a.items[i].startedAt == Some(start)
    ensures !(op.saved && CarriedTo(s, op.a, start, i))
  {
    hide CarriedTo;
    i :| 0 <= i < |op.a.items| && op.a.items[i].startedAt == Some(start) && !(op.saved && CarriedTo(s, op.a, start, i));
  }

  lemma CreationIsKept(s: Store, op: Op, retention: nat, rt: RuntimeId, start: Time)
    requires !op.Listing? && SightsAnew(s, op, rt, start)
    ensures Remembered(Next(s, op, retention), rt, start)
  {
    SavedKeeps(s.(seen := Sight(s.seen, op.rt, op.session, op.now)), op.now - retention);
    hide Saved, Remembered;
    RememberedBy(Next(s, op, retention), rt, start, Key(rt, op.session.id));
  }

  lemma OpLeaves(s: Store, op: Op, retention: nat, rt: RuntimeId, start: Time)
    requires WellKeyed(s.seen) && Enabled(s, op) && Forgets(s, op, retention, rt, start)
    ensures !Remembered(Next(s, op, retention), rt, start)
  {
    hide *;
    match op {
      case Create(_, _, _) => CreateLeaves(s, op, retention, rt, start);
      case Rename(_, _, _, _) => RenameLeaves(s, op, retention, rt, start);
      case Close(_, _, _) => CloseLeaves(s, op, retention, rt, start);
      case Listing(_, _, _) =>
        forall k ensures !KeptAs(Next(s, op, retention), rt, start, k) {
          ListingLeavesNoRecord(s, op, retention, rt, start, k);
        }
        forall t ensures !TombedAs(Next(s, op, retention), rt, start, t) {
          ListingLeavesNoTomb(s, op, retention, rt, start, t);
        }
        NotRemembered(Next(s, op, retention), rt, start);
    }
  }

  /** Exactly when an operation leaves nothing of a session: every record of it is lost, every tombstone of it that
      is not withdrawn has expired, and it is not sighted anew. The condition is one on the state before the
      operation, whatever order a listing's scan takes. */
  lemma ForgetsIff(s: Store, op: Op, retention: nat, rt: RuntimeId, start: Time)
    requires WellKeyed(s.seen) && Enabled(s, op)
    ensures !Remembered(Next(s, op, retention), rt, start) <==> Forgets(s, op, retention, rt, start)
  {
    hide *;
    ForgetsIs(s, op, retention, rt, start);
    if Forgets(s, op, retention, rt, start) {
      OpLeaves(s, op, retention, rt, start);
    } else if k :| KeptAs(s, rt, start, k) && !LosesRecord(s, op, retention, k) {
      OpKeepsRecord(s, op, retention, rt, start, k);
    } else if t :| t in TombsAt(s, op, rt, start) && TombedAs(s, rt, start, t) && !LosesTomb(s, op, retention, t) {
      OpKeepsTomb(s, op, retention, rt, start, t);
    } else {
      OpSightsAnew(s, op, retention, rt, start);
    }
  }

  lemma LostAsTomb(s: Store, op: Op, retention: nat, rt: RuntimeId, start: Time, t: Tomb)
    requires TombedAs(s, rt, start, t) && LosesTomb(s, op, retention, t)
    ensures LostBy(s, op, retention, rt, start)
  {
    hide TombedAs, LosesTomb, KeptAs, LosesRecord;
  }

  lemma LostAsRecord(s: Store, op: Op, retention: nat, rt: RuntimeId, start: Time, k: Key)
    requires KeptAs(s, rt, start, k) && LosesRecord(s, op, retention, k)
    ensures LostBy(s, op, retention, rt, start)
  {
    hide TombedAs, LosesTomb, KeptAs, LosesRecord;
  }

  // ---- keys ----------------------------------------------------------------

  lemma {:induction false} ScanKeyed(f: Fold, c: Ctx, order: seq<Key>)
    requires WellKeyed(f.seen)
    ensures WellKeyed(ScanAll(f, c, order).seen)
    decreases |order|
  {
    if order != [] {
      ScanKeyed(f, c, order[..|order| - 1]);
      SettleKeyed(ScanAll(f, c, order[..|order| - 1]), order[|order| - 1], c.now);
      hide Settle, WellKeyed, Missing;
    }
  }

  lemma SettleKeyed(f: Fold, k: Key, now: Time)
    requires WellKeyed(f.seen)
    ensures k in f.seen ==> WellKeyed(Settle(f, k, now).seen)
  {
    hide CarryIndex, Absent;
  }

  lemma {:induction false} SightAllKeyed(seen: Seen, rt: RuntimeId, novel: seq<Session>, now: Time)
    requires WellKeyed(seen)
    ensures WellKeyed(SightAll(seen, rt, novel, now))
    decreases |novel|
  {
    if novel != [] {
      SightAllKeyed(seen, rt, novel[..|novel| - 1], now);
    }
  }

  lemma ReadyIsKeyed(f: Fold, c: Ctx)
    requires ReadyToScan(f, c)
    ensures WellKeyed(f.seen)
  {
    hide Present;
  }

  lemma ObservedKeyed(seen: Seen, closed: seq<Tomb>, a: Call, order: seq<Key>)
    requires WellFormed(a) && WellKeyed(seen) && Visits(seen, closed, a, order)
    ensures WellKeyed(Observed(seen, closed, a, order).seen)
  {
    hide *;
    var f, g := AfterItems(seen, closed, a), Scanned(seen, closed, a, order);
    ItemsAfterExits(seen, closed, a);
    ReadyIsKeyed(f, Context(a));
    ObservedShape(seen, closed, a, order);
    ScanKeyed(f, Context(a), order);
    SightAllKeyed(g.seen, a.rt, g.novel, a.now);
  }

  lemma NextKeyed(s: Store, op: Op, retention: nat)
    requires WellKeyed(s.seen) && Enabled(s, op)
    ensures WellKeyed(Next(s, op, retention).seen)
  {
    if op.Listing? {
      hide *;
      ListingEnabled(s, op);
      NextListing(s, op, retention);
      ObservedKeyed(s.seen, s.closed, op.a, op.order);
      var o := Observed(s.seen, s.closed, op.a, op.order);
      SavedKeeps(Store(o.seen, o.closed), op.a.now - retention);
    } else {
      OtherKeyed(s, op, retention);
    }
  }

  lemma OtherKeyed(s: Store, op: Op, retention: nat)
    requires WellKeyed(s.seen) && !op.Listing?
    ensures WellKeyed(Next(s, op, retention).seen)
  {
    hide PruneClosed, TombOf, RecAt;
  }

  // ---- whole runs ----------------------------------------------------------

  ghost predicate IsRun(ss: seq<Store>, ops: seq<Op>, retention: nat)
  {
    && |ss| == |ops| + 1
    && (forall i :: 0 <= i < |ops| ==> Enabled(ss[i], ops[i]) && ss[i + 1] == Next(ss[i], ops[i], retention))
  }

  /** Forgetting a session that was remembered, or sighted, loses a record or a tombstone of it. */
  lemma ForgettingLoses(s: Store, op: Op, retention: nat, rt: RuntimeId, start: Time)
    requires Forgets(s, op, retention, rt, start) && (Remembered(s, rt, start) || Sights(op, rt, start))
    ensures LostBy(s, op, retention, rt, start)
  {
    hide *;
    ForgetsIs(s, op, retention, rt, start);
    if k :| KeptAs(s, rt, start, k) {
      LostAsRecord(s, op, retention, rt, start, k);
    } else if !Sights(op, rt, start) {
      var t := SomeTomb(s, rt, start);
      NothingWithdrawn(s, op, rt, start);
      TombedIs(s, rt, start, t);
      LostAsTomb(s, op, retention, rt, start, t);
    } else {
      SightedAnew(s, op, rt, start);
      assert false;
    }
  }

  lemma SomeTomb(s: Store, rt: RuntimeId, start: Time) returns (t: Tomb)
    requires Remembered(s, rt, start) && forall k :: !KeptAs(s, rt, start, k)
    ensures TombedAs(s, rt, start, t)
  {
    hide KeptAs, TombedAs;
    t :| TombedAs(s, rt, start, t);
  }

  lemma NothingWithdrawn(s: Store, op: Op, rt: RuntimeId, start: Time)
    requires !Sights(op, rt, start)
    ensures TombsAt(s, op, rt, start) == s.closed
  {
    hide Withdraw, Holder;
    if op.Listing? {
      HL.HolderIs(start, op.a.items);
    }
  }

  /** With no record of it to carry, a session that is met is sighted anew. */
  lemma SightedAnew(s: Store, op: Op, rt: RuntimeId, start: Time)
    requires Sights(op, rt, start) && forall k :: !KeptAs(s, rt, start, k)
    ensures SightsAnew(s, op, rt, start)
  {
    hide HP.Awaited;
    if op.Listing? {
      var i :| 0 <= i < |op.a.items| && op.a.items[i].startedAt == Some(start);
      assert !CarriedTo(s, op.a, start, i);
    }
  }

  /** One operation forgets a session only by losing a record or a tombstone of it. */
  lemma StepRemembers(s: Store, op: Op, retention: nat, rt: RuntimeId, start: Time)
    requires WellKeyed(s.seen) && Enabled(s, op) && (Remembered(s, rt, start) || Sights(op, rt, start))
    ensures Remembered(Next(s, op, retention), rt, start) || LostBy(s, op, retention, rt, start)
  {
    hide *;
    ForgetsIff(s, op, retention, rt, start);
    if Forgets(s, op, retention, rt, start) {
      ForgettingLoses(s, op, retention, rt, start);
    }
  }

  /** Conservation over every run. Whatever is created, renamed, closed, listed and saved in between, a session
      that was ever remembered still is at the end, or some operation since then lost a record or a
      tombstone of it in one of the stated ways. */
  lemma {:induction false} NothingVanishes(ss: seq<Store>, ops: seq<Op>, retention: nat, i: nat, rt: RuntimeId, start: Time)
    requires IsRun(ss, ops, retention) && WellKeyed(ss[0].seen) && i <= |ops| && Remembered(ss[i], rt, start)
    ensures WellKeyed(ss[|ops|].seen)
    ensures Remembered(ss[|ops|], rt, start)
         || exists j :: i <= j < |ops| && LostBy(ss[j], ops[j], retention, rt, start)
    decreases |ops|
  {
    hide Next, Enabled, Remembered, LostBy, WellKeyed;
    var n := |ops| - 1;
    AllKeyed(ss, ops, retention, |ops|);
    if i <= n {
      assert IsRun(ss[..n + 1], ops[..n], retention);
      assert ss[..n + 1][i] == ss[i] && ss[..n + 1][n] == ss[n];
      NothingVanishes(ss[..n + 1], ops[..n], retention, i, rt, start);
      if Remembered(ss[n], rt, start) {
        StepRemembers(ss[n], ops[n], retention, rt, start);
      }
    }
  }

  lemma {:induction false} AllKeyed(ss: seq<Store>, ops: seq<Op>, retention: nat, n: nat)
    requires IsRun(ss, ops, retention) && WellKeyed(ss[0].seen) && n <= |ops|
    ensures WellKeyed(ss[n].seen)
    decreases n
  {
    hide Next, Enabled, WellKeyed;
    if n > 0 {
      AllKeyed(ss, ops, retention, n - 1);
      NextKeyed(ss[n - 1], ops[n - 1], retention);
    }
  }

  /** Nobody remembers a session that is not met: it stays forgotten. */
  lemma StaysForgotten(s: Store, op: Op, retention: nat, rt: RuntimeId, start: Time)
    requires WellKeyed(s.seen) && Enabled(s, op) && !Remembered(s, rt, start)
    ensures Remembered(Next(s, op, retention), rt, start) <==> Sights(op, rt, start)
  {
    hide *;
    ForgetsIff(s, op, retention, rt, start);
    NoPlaces(s, rt, start);
    ForgetsIs(s, op, retention, rt, start);
    if Sights(op, rt, start) {
      SightedAnew(s, op, rt, start);
    } else {
      OnlyIfMet(s, op, rt, start);
    }
  }

  lemma NoPlaces(s: Store, rt: RuntimeId, start: Time)
    requires !Remembered(s, rt, start)
    ensures (forall k :: !KeptAs(s, rt, start, k)) && (forall t :: !TombedAs(s, rt, start, t))
  {
    hide KeptAs, TombedAs;
  }

  lemma OnlyIfMet(s: Store, op: Op, rt: RuntimeId, start: Time)
    ensures SightsAnew(s, op, rt, start) ==> Sights(op, rt, start)
  {
    hide CarriedTo;
  }

  /** Over every run: a session that was remembered is forgotten at the end if and only if some operation since
      forgot it, exactly as ForgetsIff says, and none after that met it. */
  lemma {:induction false} ForgottenIff(ss: seq<Store>, ops: seq<Op>, retention: nat, i: nat, rt: RuntimeId, start: Time)
    requires IsRun(ss, ops, retention) && WellKeyed(ss[0].seen) && i <= |ops| && Remembered(ss[i], rt, start)
    ensures !Remembered(ss[|ops|], rt, start) <==> exists j :: i <= j < |ops| && ForgottenAt(ss, ops, retention, rt, start, j)
    decreases |ops|
  {
    hide Next, Enabled, Remembered, WellKeyed, Forgets, Sights;
    var n := |ops| - 1;
    if i <= n {
      AllKeyed(ss, ops, retention, n);
      var front, prior := ss[..n + 1], ops[..n];
      assert IsRun(front, prior, retention);
      assert front[i] == ss[i] && front[n] == ss[n];
      ForgottenIff(front, prior, retention, i, rt, start);
      if Remembered(ss[n], rt, start) {
        ForgetsIff(ss[n], ops[n], retention, rt, start);
        StillRemembered(ss, ops, front, prior, retention, i, n, rt, start);
      } else {
        StaysForgotten(ss[n], ops[n], retention, rt, start);
        LongForgotten(ss, ops, front, prior, retention, i, n, rt, start);
      }
    }
  }

  /** Operation j forgets a session that was remembered, and none after it meets the session. */
  ghost predicate ForgottenAt(ss: seq<Store>, ops: seq<Op>, retention: nat, rt: RuntimeId, start: Time, j: nat)
    requires |ss| == |ops| + 1 && j < |ops|
  {
    && Remembered(ss[j], rt, start) && Forgets(ss[j], ops[j], retention, rt, start)
    && forall m :: j < m < |ops| ==> !Sights(ops[m], rt, start)
  }

  lemma StillRemembered(ss: seq<Store>, ops: seq<Op>, front: seq<Store>, prior: seq<Op>, retention: nat, i: nat, n: nat,
                        rt: RuntimeId, start: Time)
    requires IsRun(ss, ops, retention) && n == |ops| - 1 && front == ss[..n + 1] && prior == ops[..n] && i <= n && Remembered(ss[n], rt, start)
    requires !exists j :: i <= j < n && ForgottenAt(front, prior, retention, rt, start, j)
    ensures (exists j :: i <= j < |ops| && ForgottenAt(ss, ops, retention, rt, start, j)) <==> Forgets(ss[n], ops[n], retention, rt, start)
  {
    hide Next, Enabled, Remembered, Forgets, Sights;
    if Forgets(ss[n], ops[n], retention, rt, start) {
      assert ForgottenAt(ss, ops, retention, rt, start, n);
    }
    forall j | i <= j < n ensures !ForgottenAt(ss, ops, retention, rt, start, j) {
      assert !ForgottenAt(front, prior, retention, rt, start, j);
      PrefixForgotten(ss, ops, retention, n, rt, start, j);
    }
  }

  lemma LongForgotten(ss: seq<Store>, ops: seq<Op>, front: seq<Store>, prior: seq<Op>, retention: nat, i: nat, n: nat,
                        rt: RuntimeId, start: Time)
    requires IsRun(ss, ops, retention) && n == |ops| - 1 && front == ss[..n + 1] && prior == ops[..n] && i <= n && !Remembered(ss[n], rt, start)
    requires exists j :: i <= j < n && ForgottenAt(front, prior, retention, rt, start, j)
    ensures (exists j :: i <= j < |ops| && ForgottenAt(ss, ops, retention, rt, start, j)) <==> !Sights(ops[n], rt, start)
  {
    hide Next, Enabled, Remembered, Forgets, Sights;
    var j :| i <= j < n && ForgottenAt(front, prior, retention, rt, start, j);
    PrefixForgotten(ss, ops, retention, n, rt, start, j);
  }

  lemma PrefixForgotten(ss: seq<Store>, ops: seq<Op>, retention: nat, n: nat, rt: RuntimeId, start: Time, j: nat)
    requires |ss| == |ops| + 1 && n == |ops| - 1 && j < n
    ensures ForgottenAt(ss, ops, retention, rt, start, j)
       <==> ForgottenAt(ss[..n + 1], ops[..n], retention, rt, start, j) && !Sights(ops[n], rt, start)
  {
    hide Remembered, Forgets, Sights;
    assert ss[..n + 1][j] == ss[j] && ops[..n][j] == ops[j];
    assert forall m :: j < m < n ==> ops[..n][m] == ops[m];
    if ForgottenAt(ss, ops, retention, rt, start, j) {
      assert !Sights(ops[n], rt, start);
    }
  }

  /** Every session ever sighted, by a creation or a listing, with a known start. */
  lemma EverySightedIsAccounted(ss: seq<Store>, ops: seq<Op>, retention: nat, i: nat, rt: RuntimeId, start: Time)
    requires IsRun(ss, ops, retention) && ss[0] == Store(map[], []) && i < |ops| && Sights(ops[i], rt, start)
    ensures Remembered(ss[|ops|], rt, start)
         || exists j :: i <= j < |ops| && LostBy(ss[j], ops[j], retention, rt, start)
  {
    assert WellKeyed(ss[0].seen);
    hide Next, Enabled, Remembered, LostBy, WellKeyed, Sights;
    AllKeyed(ss, ops, retention, i);
    StepRemembers(ss[i], ops[i], retention, rt, start);
    if Remembered(ss[i + 1], rt, start) {
      NothingVanishes(ss, ops, retention, i + 1, rt, start);
    }
  }

  // ---- two closes of a session that did not end ----------------------------

  lemma CreateThenClose(s: Session, rt: RuntimeId, now: Time, retention: nat, closed: seq<Tomb>)
    requires s.id != "" && forall t :: t in closed ==> t.closedAt == now
    ensures var one := Next(Store(map[], closed), Create(rt, s, now), retention);
            && one == Store(map[Key(rt, s.id) := NewRec(s, now)], closed)
            && Next(one, Close(rt, s.id, now), retention)
                 == Store(map[], closed + [TombOf(rt, NewRec(s, now), now, ByClose, None)])
  {
    var k, t, cut := Key(rt, s.id), TombOf(rt, NewRec(s, now), now, ByClose, None), now - retention;
    var seen := map[k := NewRec(s, now)];
    assert Sight(map[], rt, s, now) == seen && PruneSeen(seen, cut) == seen && seen - {k} == map[];
    assert PruneSeen(map[], cut) == map[];
    FilterAll(NotBefore(cut), closed);
    FilterAll(NotBefore(cut), closed + [t]);
  }

  lemma ListingWithdrawsOne(s: Session, rt: RuntimeId, now: Time, retention: nat, t: Tomb)
    requires Premature(t, rt, s) && t.closedAt == now
    ensures var op := Listing(Call(rt, [s], false, now, [], now), [], true);
            && Enabled(Store(map[], [t, t]), op)
            && Next(Store(map[], [t, t]), op, retention) == Store(map[Key(rt, s.id) := NewRec(s, now)], [t])
  {
    var a, cut := Call(rt, [s], false, now, [], now), now - retention;
    var f := Begin(map[], [t, t]);
    assert [s][..0] == [] && DoItems(f, rt, [s][..0], now) == f;
    assert WithdrawIndex([t, t], rt, s) == 1 && RemoveAt([t, t], 1) == [t];
    assert DoItems(f, rt, [s], now) == f.(closed := [t], withdrawn := [t], novel := [s]);
    var seen := map[Key(rt, s.id) := NewRec(s, now)];
    assert SightAll(map[], rt, [s][..0], now) == map[];
    assert SightAll(map[], rt, [s], now) == seen;
    assert Observed(map[], [t, t], a, []).seen == seen && Observed(map[], [t, t], a, []).closed == [t];
    assert PruneSeen(seen, cut) == seen;
    FilterAll(NotBefore(cut), [t]);
  }

  /** A session that is created and closed twice without ending, as when a driver accepts a close it does not
      carry out, has two tombstones. The listing that shows it alive withdraws one: the session is listed
      as live and as closed. */
  lemma ClosedTwiceStaysClosed(rt: RuntimeId, s: Session, now: Time, retention: nat) returns (ss: seq<Store>, ops: seq<Op>)
    requires s.id != "" && s.startedAt.Some?
    ensures IsRun(ss, ops, retention) && ss[0] == Store(map[], [])
    ensures ops == [Create(rt, s, now), Close(rt, s.id, now), Create(rt, s, now), Close(rt, s.id, now),
                    Listing(Call(rt, [s], false, now, [], now), [], true)]
    ensures var end := ss[|ops|];
            && Contradicting(ss[4].closed, rt, s) == 2
            && Key(rt, s.id) in end.seen && Contradicting(end.closed, rt, s) == 1
            && exists t :: t in end.closed && Premature(t, rt, s)
  {
    var t := TombOf(rt, NewRec(s, now), now, ByClose, None);
    assert Premature(t, rt, s);
    CountedTwice(t, rt, s);
    hide *;
    CreateThenClose(s, rt, now, retention, []);
    CreateThenClose(s, rt, now, retention, [t]);
    ListingWithdrawsOne(s, rt, now, retention, t);
    assert [] + [t] == [t] && [t] + [t] == [t, t];
    var live := map[Key(rt, s.id) := NewRec(s, now)];
    var create, close := Create(rt, s, now), Close(rt, s.id, now);
    ss, ops := FiveSteps(Store(map[], []), create, Store(live, []), close, Store(map[], [t]), create, Store(live, [t]), close,
                         Store(map[], [t, t]), Listing(Call(rt, [s], false, now, [], now), [], true), Store(live, [t]), retention);
    assert t in Store(live, [t]).closed;
  }

  lemma CountedTwice(t: Tomb, rt: RuntimeId, s: Session)
    requires Premature(t, rt, s)
    ensures Contradicting([t], rt, s) == 1 && Contradicting([t, t], rt, s) == 2
  {
    assert [t][..0] == [] && [t, t][..1] == [t];
  }

  lemma FiveSteps(s0: Store, o0: Op, s1: Store, o1: Op, s2: Store, o2: Op, s3: Store, o3: Op, s4: Store, o4: Op, s5: Store,
                  retention: nat)
    returns (ss: seq<Store>, ops: seq<Op>)
    requires !o0.Listing? && !o1.Listing? && !o2.Listing? && !o3.Listing? && Enabled(s4, o4)
    requires s1 == Next(s0, o0, retention) && s2 == Next(s1, o1, retention) && s3 == Next(s2, o2, retention)
    requires s4 == Next(s3, o3, retention) && s5 == Next(s4, o4, retention)
    ensures ops == [o0, o1, o2, o3, o4] && |ops| == 5
    ensures IsRun(ss, ops, retention) && ss[0] == s0 && ss[4] == s4 && ss[5] == s5
  {
    hide Next, WellFormed, Visits;
    ss, ops := [s0, s1, s2, s3, s4, s5], [o0, o1, o2, o3, o4];
  }

  // ---- a creation under an id that is taken --------------------------------

  lemma SightedOnce(rt: RuntimeId, s: Session, now: Time, retention: nat)
    requires s.id != ""
    ensures Next(Store(map[], []), Create(rt, s, now), retention) == Store(map[Key(rt, s.id) := NewRec(s, now)], [])
  {
    var seen := map[Key(rt, s.id) := NewRec(s, now)];
    assert Sight(map[], rt, s, now) == seen && PruneSeen(seen, now - retention) == seen;
  }

  lemma SightedOver(rt: RuntimeId, r: Rec, s: Session, now: Time, retention: nat)
    requires s.id != ""
    ensures var k, r' := Key(rt, s.id), HistorySpec.Refresh(r, s, now);
            Next(Store(map[k := r], []), Create(rt, s, now), retention) == Store(map[k := r'], [])
  {
    var k, r' := Key(rt, s.id), HistorySpec.Refresh(r, s, now);
    assert Sight(map[k := r], rt, s, now) == map[k := r'] && PruneSeen(map[k := r'], now - retention) == map[k := r'];
  }

  /** Two sessions created under one id, the first gone unnoticed in between: nothing is left of the first. */
  lemma CreatedOverIsForgotten(rt: RuntimeId, s: Session, later: Time, now: Time, retention: nat)
    returns (ss: seq<Store>, ops: seq<Op>)
    requires s.id != "" && s.startedAt.Some? && s.startedAt.value != later
    ensures IsRun(ss, ops, retention) && ss[0] == Store(map[], [])
    ensures ops == [Create(rt, s, now), Create(rt, s.(startedAt := Some(later)), now)]
    ensures Sights(ops[0], rt, s.startedAt.value) && !Remembered(ss[|ops|], rt, s.startedAt.value)
  {
    var s' := s.(startedAt := Some(later));
    SightedOnce(rt, s, now, retention);
    SightedOver(rt, NewRec(s, now), s', now, retention);
    hide Next;
    var k := Key(rt, s.id);
    ops := [Create(rt, s, now), Create(rt, s', now)];
    ss := [Store(map[], []), Store(map[k := NewRec(s, now)], []),
           Store(map[k := HistorySpec.Refresh(NewRec(s, now), s', now)], [])];
  }

  // ---- a listing that shows a session and forgets it -----------------------

  lemma AloneIsLone(k: Key, r: Rec, s: Session, listedAt: Time, now: Time)
    requires r.id == k.id != s.id && r.lastSeen < listedAt && r.startedAt.Some? && s.startedAt == r.startedAt
    ensures HL.Lone(map[k := r], Call(k.runtime, [s], true, listedAt, [], now), k)
  {
    HP.ExpiredCarryIsUnobserved(k, r, s, r.lastSeen + 1, listedAt, now);
    hide HP.Awaited, HP.NovelTo, Sharing;
  }

  lemma LoneVisit(k: Key, r: Rec, closed: seq<Tomb>, a: Call)
    requires WellFormed(a) && r.id == k.id
    ensures Visits(map[k := r], closed, a, [k])
  {
    hide AfterItems, ReadyToScan, Tombs, ExitTombs, ExitKeys, Updated, Present, UnknownTo, WellFormed;
    ItemsAfterExits(map[k := r], closed, a);
  }

  lemma OneItem(rt: RuntimeId, s: Session, listedAt: Time, now: Time)
    ensures WellFormed(Call(rt, [s], true, listedAt, [], now))
  {
  }

  lemma CarriesAndForgets(k: Key, r: Rec, s: Session, start: Time, listedAt: Time, now: Time, retention: nat)
    requires r.id == k.id != s.id && r.startedAt == Some(start) && s.startedAt == r.startedAt
    requires r.lastSeen < listedAt && r.lastSeen < now - retention
    ensures var st, op := Store(map[k := r], []), Listing(Call(k.runtime, [s], true, listedAt, [], now), [k], true);
            Enabled(st, op) && !Remembered(Next(st, op, retention), k.runtime, start)
  {
    var a := Call(k.runtime, [s], true, listedAt, [], now);
    var st, op := Store(map[k := r], []), Listing(a, [k], true);
    OneItem(k.runtime, s, listedAt, now);
    LoneVisit(k, r, [], a);
    AloneIsLone(k, r, s, listedAt, now);
    HL.LoneIs(st.seen, a, k);
    hide HP.Awaited, HL.Lone, Visits, WellFormed, HL.TombsLeft, ExitedBefore;
    NoTombsLeft(a, start);
    assert CarriedTo(st, a, start, 0) by {
      assert KeptAs(st, a.rt, start, k);
    }
    assert Forgets(st, op, retention, k.runtime, start);
    ForgetsIff(st, op, retention, k.runtime, start);
  }

  lemma NoTombsLeft(a: Call, start: Time)
    ensures HL.TombsLeft([], a, start) == []
  {
    hide Holder;
  }

  /** A session is renamed by hand and not sighted for the whole retention. The complete listing that shows it carries
      its record to its new id, last sighting and all, and the save that follows prunes it: the session is
      listed, and nothing is left of it. */
  lemma ListedIsForgotten(rt: RuntimeId, s: Session, id: string, now: Time, later: Time, retention: nat)
    returns (ss: seq<Store>, ops: seq<Op>)
    requires s.id != "" && s.startedAt.Some? && id != s.id && now + retention < later
    ensures IsRun(ss, ops, retention) && ss[0] == Store(map[], [])
    ensures ops == [Create(rt, s, now), Listing(Call(rt, [s.(id := id)], true, later, [], later), [Key(rt, s.id)], true)]
    ensures Sights(ops[1], rt, s.startedAt.value) && !Remembered(ss[|ops|], rt, s.startedAt.value)
  {
    var k, s' := Key(rt, s.id), s.(id := id);
    SightedOnce(rt, s, now, retention);
    CarriesAndForgets(k, NewRec(s, now), s', s.startedAt.value, later, later, retention);
    hide Next, Remembered, Enabled;
    var live := Store(map[k := NewRec(s, now)], []);
    ops := [Create(rt, s, now), Listing(Call(rt, [s'], true, later, [], later), [k], true)];
    ss := [Store(map[], []), live, Next(live, ops[1], retention)];
    CreateEnabled(ss[0], ops[0]);
  }

  lemma CreateEnabled(s: Store, op: Op)
    ensures !op.Listing? ==> Enabled(s, op)
  {
  }
}
