// What is written down of a session (internal/service/history.go), field by field: the record a sighting, a rename
// or a listing leaves, and the tombstone a close, a captured exit or an absence leaves.
module HistoryFields {
  import opened Fleet
  import opened Seqs
  import opened HistorySpec
  import opened HistoryScan
  import opened HistoryObserve
  import HP = HistoryPrune
  import HL = HistoryListing
  import opened HistoryRuns

  // ---- records -------------------------------------------------------------

  /** After a create: the session as it was reported, where it has no record; else what it reports over what was
      known, a blank never over a known field. */
  lemma CreateWrites(s: Store, rt: RuntimeId, session: Session, now: Time, retention: nat)
    requires session.id != ""
    ensures var k, s' := Key(rt, session.id), Next(s, Create(rt, session, now), retention);
            && k in s'.seen
            && s'.seen[k] ==
                 if k !in s.seen then Rec(session.id, session.name, session.cwd, session.startedAt, session.conversation, now)
                 else var r := s.seen[k];
                      Rec(r.id,
                          if session.name != "" then session.name else r.name,
                          if session.cwd != "" then session.cwd else r.cwd,
                          if session.startedAt != None then session.startedAt else r.startedAt,
                          if session.conversation != None then session.conversation else r.conversation,
                          if r.lastSeen < now then now else r.lastSeen)
  {
    hide PruneClosed;
  }

  /** After a rename: the same record under the new id, named by it, sighted no later than it was. */
  lemma RenameWrites(s: Store, rt: RuntimeId, from: string, to: string, now: Time, retention: nat)
    requires Key(rt, from) in s.seen && from != to && s.seen[Key(rt, from)].lastSeen >= now - retention
    ensures var r, s' := s.seen[Key(rt, from)], Next(s, Rename(rt, from, to, now), retention);
            && Key(rt, from) !in s'.seen && Key(rt, to) in s'.seen
            && s'.seen[Key(rt, to)] == Rec(to, to, r.cwd, r.startedAt, r.conversation, r.lastSeen)
  {
    hide PruneClosed;
  }

  /** After a listing: a listed session's record starts over exactly when it and the record both know their start and
      the two differ; else it is refreshed, a blank never over a known field. */
  lemma ListingWrites(seen: Seen, closed: seq<Tomb>, a: Call, order: seq<Key>, i: nat)
    requires WellFormed(a) && WellKeyed(seen) && Visits(seen, closed, a, order)
    requires i < |a.items| && Key(a.rt, a.items[i].id) in seen
    ensures var session, k, o := a.items[i], Key(a.rt, a.items[i].id), Observed(seen, closed, a, order);
            var r := seen[k];
            && k in o.seen
            && o.seen[k] ==
                 if r.startedAt != None && session.startedAt != None && r.startedAt != session.startedAt
                 then Rec(session.id, session.name, session.cwd, session.startedAt, session.conversation, a.now)
                 else Rec(r.id,
                          if session.name != "" then session.name else r.name,
                          if session.cwd != "" then session.cwd else r.cwd,
                          if session.startedAt != None then session.startedAt else r.startedAt,
                          if session.conversation != None then session.conversation else r.conversation,
                          if r.lastSeen < a.now then a.now else r.lastSeen)
  {
    var session, k := a.items[i], Key(a.rt, a.items[i].id);
    EveryRecordHasOneFate(seen, closed, a, order, k);
    Here(a.items, i);
    HL.ListedNotExited(a, i);
    hide Observed, Visits, Present, ExitKeys;
    var j :| 0 <= j < |a.items| && a.items[j].id == k.id && Observed(seen, closed, a, order).seen[k] == Updated(seen[k], a.items[j], a.now);
    assert j == i;
  }

  /** A listed session without a record gets one: what a missing record of its run knew, if one is carried to it, else
      the session as it is listed. */
  lemma NewListingWrites(seen: Seen, closed: seq<Tomb>, a: Call, order: seq<Key>, i: nat)
    requires WellFormed(a) && WellKeyed(seen) && Visits(seen, closed, a, order)
    requires i < |a.items| && Key(a.rt, a.items[i].id) !in seen
    ensures var session, k, o := a.items[i], Key(a.rt, a.items[i].id), Observed(seen, closed, a, order);
            && k in o.seen
            && (o.seen[k] == Rec(session.id, session.name, session.cwd, session.startedAt, session.conversation, a.now)
                || exists q :: q in seen && q in o.carried && o.carried[q] == session)
  {
    hide *;
    var f, g, session := AfterItems(seen, closed, a), Scanned(seen, closed, a, order), a.items[i];
    HL.ListedIsSeen(seen, closed, a, order, i);
    ItemsAfterExits(seen, closed, a);
    HL.NovelItem(seen, a, i);
    ObservedShape(seen, closed, a, order);
    ScannedFacts(f, Context(a), a.complete, order, g);
    ContextIs(a);
    LeftOver(f, Context(a), g);
    SightNovel(g.seen, a.rt, g.novel, a.now);
    if session in g.novel {
      var n :| 0 <= n < |g.novel| && g.novel[n] == session;
      NewRecSays(session, a.now);
    } else {
      var q := ClaimedBy(f, g, session);
      MissingIff(seen, closed, a, order, q);
    }
  }

  lemma NewRecSays(session: Session, at: Time)
    ensures NewRec(session, at)
         == Rec(session.id, session.name, session.cwd, session.startedAt, session.conversation, at)
  {
  }

  lemma ClaimedBy(f: Fold, g: Fold, session: Session) returns (q: Key)
    requires Unclaimed(f, g) && session in f.novel && session !in g.novel
    ensures q in g.carried && g.carried[q] == session
  {
    q :| q in g.carried && g.carried[q] == session;
  }

  /** A carried record is its run's, under the new id and name. */
  lemma CarryWrites(seen: Seen, closed: seq<Tomb>, a: Call, order: seq<Key>, k: Key)
    requires WellFormed(a) && WellKeyed(seen) && Visits(seen, closed, a, order)
    requires k in seen && k in Observed(seen, closed, a, order).carried
    ensures var o := Observed(seen, closed, a, order);
            var r, session := seen[k], o.carried[k];
            && k !in o.seen && Key(a.rt, session.id) in o.seen
            && r.startedAt != None && session.startedAt == r.startedAt
            && o.seen[Key(a.rt, session.id)] == Rec(session.id, session.name, r.cwd, r.startedAt, r.conversation, r.lastSeen)
  {
    EveryRecordHasOneFate(seen, closed, a, order, k);
    MissingIff(seen, closed, a, order, k);
    hide Observed, Visits;
  }

  // ---- who is judged -------------------------------------------------------

  /** A listing ends or carries exactly the records of its runtime that a complete listing lacks and that were last
      sighted before it was asked for, those whose exit was captured excepted. */
  lemma MissingIff(seen: Seen, closed: seq<Tomb>, a: Call, order: seq<Key>, k: Key)
    requires WellFormed(a) && WellKeyed(seen) && Visits(seen, closed, a, order)
    ensures k in Observed(seen, closed, a, order).ended || k in Observed(seen, closed, a, order).carried <==>
              && a.complete && k in seen && k.runtime == a.rt && seen[k].lastSeen < a.listedAt
              && (forall i :: 0 <= i < |a.items| ==> a.items[i].id != k.id)
              && (forall i :: 0 <= i < |a.exits| ==> a.exits[i].id != k.id)
  {
    hide *;
    var f, g := AfterItems(seen, closed, a), Scanned(seen, closed, a, order);
    ItemsAfterExits(seen, closed, a);
    ObservedShape(seen, closed, a, order);
    ScannedFacts(f, Context(a), a.complete, order, g);
    HP.AwaitedIsJudged(seen, closed, a, k);
    JudgedOnly(f, Context(a), g, k);
    AwaitedSays(seen, a, k);
    if !a.complete {
      TombstonesBalance(seen, closed, a, order);
    }
  }

  lemma JudgedOnly(f: Fold, c: Ctx, g: Fold, k: Key)
    requires Fates(f, c, g)
    ensures k in g.ended || k in g.carried ==> Judged(f, c, k) && k in f.seen
  {
    hide Present;
  }

  lemma AwaitedSays(seen: Seen, a: Call, k: Key)
    ensures HP.Awaited(seen, a, k) <==>
              && k in seen && k.runtime == a.rt && seen[k].lastSeen < a.listedAt
              && (forall i :: 0 <= i < |a.items| ==> a.items[i].id != k.id)
              && (forall i :: 0 <= i < |a.exits| ==> a.exits[i].id != k.id)
  {
    assert k.runtime == a.rt ==> (k in ExitKeys(a.rt, a.exits) <==> exists i :: 0 <= i < |a.exits| && a.exits[i].id == k.id) by {
      if i :| 0 <= i < |a.exits| && a.exits[i].id == k.id {
        assert k.runtime == a.rt ==> k == Key(a.rt, a.exits[i].id);
      }
    }
  }

  /** A listing takes an id over exactly when it lists it for a session of another start, both known. */
  lemma RecycledIff(seen: Seen, closed: seq<Tomb>, a: Call, order: seq<Key>, k: Key)
    requires WellFormed(a) && WellKeyed(seen) && Visits(seen, closed, a, order)
    ensures k in Observed(seen, closed, a, order).recycled <==>
              && k in seen && k.runtime == a.rt
              && exists i :: 0 <= i < |a.items| && a.items[i].id == k.id && a.items[i].startedAt != None
                             && seen[k].startedAt != None && a.items[i].startedAt != seen[k].startedAt
  {
    hide *;
    HP.RecycledBefore(seen, closed, a);
    HP.RestOfScan(seen, closed, a, order);
    TakenOverSays(seen, a, k);
  }

  lemma TakenOverSays(seen: Seen, a: Call, k: Key)
    requires WellFormed(a)
    ensures HP.TakenOver(seen, a, k) <==>
              && k in seen && k.runtime == a.rt
              && exists i :: 0 <= i < |a.items| && a.items[i].id == k.id && a.items[i].startedAt != None
                             && seen[k].startedAt != None && a.items[i].startedAt != seen[k].startedAt
  {
    hide ExitKeys, WellFormed;
    forall i | 0 <= i < |a.items| ensures Key(a.rt, a.items[i].id) !in ExitKeys(a.rt, a.exits) {
      HL.ListedNotExited(a, i);
    }
    if k in seen && k.runtime == a.rt {
      if i :| 0 <= i < |a.items| && a.items[i].id == k.id && Recycles(seen[k], a.items[i]) {
        assert k == Key(a.rt, a.items[i].id);
      }
    }
  }

  // ---- tombstones ----------------------------------------------------------

  /** A relayed close leaves one tombstone, the newest: what the record knew, or the id alone where there is none. */
  lemma CloseWrites(s: Store, rt: RuntimeId, id: string, now: Time, retention: nat)
    requires WellKeyed(s.seen)
    ensures var k, s' := Key(rt, id), Next(s, Close(rt, id, now), retention);
            && k !in s'.seen
            && s'.closed == PruneClosed(s.closed, now - retention) +
                 [if k !in s.seen then Tomb(rt, id, id, "", None, None, 0, now, ByClose, None)
                  else var r := s.seen[k];
                       Tomb(runtime := rt, id := id, name := if r.name != "" then r.name else id, cwd := r.cwd,
                            startedAt := r.startedAt, conversation := r.conversation, lastSeenAt := r.lastSeen,
                            closedAt := now, closedBy := ByClose, exitStatus := None)]
  {
    var t := TombOf(rt, RecAt(s.seen, Key(rt, id)), now, ByClose, None);
    FilterSnoc(NotBefore(now - retention), s.closed, t);
    hide Filter;
  }

  /** After a listing, a tombstone is there if and only if the listing wrote it, or it was there and was not withdrawn.
      It writes one for each captured exit, closed when and with the status that the driver captured, and one for each
      record it ends or whose id it takes over, closed now. Each has what the record knew, or the id alone where there
      is none. */
  lemma ListingTombstones(seen: Seen, closed: seq<Tomb>, a: Call, order: seq<Key>, t: Tomb)
    requires WellFormed(a) && WellKeyed(seen) && Visits(seen, closed, a, order)
    ensures var o := Observed(seen, closed, a, order);
            t in o.closed <==>
              || multiset(closed)[t] > multiset(o.withdrawn)[t]
              || (exists i :: 0 <= i < |a.exits|
                    && var e, k := a.exits[i], Key(a.rt, a.exits[i].id);
                       t == if k !in seen then Tomb(a.rt, e.id, e.id, "", None, None, 0, e.at, ByExit, Some(e.status))
                            else var r := seen[k];
                                 Tomb(runtime := a.rt, id := e.id, name := if r.name != "" then r.name else e.id, cwd := r.cwd,
                                      startedAt := r.startedAt, conversation := r.conversation, lastSeenAt := r.lastSeen,
                                      closedAt := e.at, closedBy := ByExit, exitStatus := Some(e.status)))
              || (exists k :: (k in o.ended || k in o.recycled) && k in seen
                    && var r := seen[k];
                       t == Tomb(runtime := a.rt, id := k.id, name := if r.name != "" then r.name else k.id, cwd := r.cwd,
                                 startedAt := r.startedAt, conversation := r.conversation, lastSeenAt := r.lastSeen,
                                 closedAt := a.now, closedBy := ByAbsent, exitStatus := None))
  {
    hide *;
    var o := Observed(seen, closed, a, order);
    HL.TombFrom(seen, closed, a, order, t);
    ExitTombsSay(seen, a.rt, a.exits, t);
    forall k | k in o.ended || k in o.recycled ensures k in seen && k.runtime == a.rt {
      MissingIff(seen, closed, a, order, k);
      RecycledIff(seen, closed, a, order, k);
    }
    AbsenceTombsSay(seen, a.rt, o.ended, a.now, t);
    AbsenceTombsSay(seen, a.rt, o.recycled, a.now, t);
  }

  lemma ExitTombsSay(seen: Seen, rt: RuntimeId, exits: seq<Exit>, t: Tomb)
    requires WellKeyed(seen)
    ensures t in ExitTombs(seen, rt, exits) <==>
              exists i :: 0 <= i < |exits|
                && var e, k := exits[i], Key(rt, exits[i].id);
                   t == if k !in seen then Tomb(rt, e.id, e.id, "", None, None, 0, e.at, ByExit, Some(e.status))
                        else var r := seen[k];
                             Tomb(runtime := rt, id := e.id, name := if r.name != "" then r.name else e.id, cwd := r.cwd,
                                  startedAt := r.startedAt, conversation := r.conversation, lastSeenAt := r.lastSeen,
                                  closedAt := e.at, closedBy := ByExit, exitStatus := Some(e.status))
  {
    HP.ExitTombsAt(seen, rt, exits);
    hide ExitTombs;
  }

  lemma AbsenceTombsSay(seen: Seen, rt: RuntimeId, ks: seq<Key>, now: Time, t: Tomb)
    requires WellKeyed(seen) && forall k :: k in ks ==> k in seen && k.runtime == rt
    ensures t in Tombs(seen, ks, now) <==>
              exists k :: k in ks && k in seen
                && var r := seen[k];
                   t == Tomb(runtime := rt, id := k.id, name := if r.name != "" then r.name else k.id, cwd := r.cwd,
                             startedAt := r.startedAt, conversation := r.conversation, lastSeenAt := r.lastSeen,
                             closedAt := now, closedBy := ByAbsent, exitStatus := None)
  {
    TombsMembers(seen, ks, now, t);
    hide Tombs;
  }
}
