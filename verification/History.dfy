// Closed-session history in the source's own form: records edited in place through a map of
// objects, a tombstone list cut in place, and loops over both.
module History {
  import opened Fleet
  import opened Seqs
  import opened HistorySpec
  import opened HistoryObserve
  import HO = HistoryObserve
  import HR = HistoryRuns
  import TombList

  /** A live session's record; sightings, renames and carries edit it in place. */
  class SeenRecord {
    const runtime: RuntimeId
    var id: string
    var name: string
    var cwd: string
    var startedAt: Option<Time>
    var conversation: Option<string>
    var lastSeen: Time

    ghost function View(): Rec
      reads this
    {
      Rec(id, name, cwd, startedAt, conversation, lastSeen)
    }

    constructor (runtime: RuntimeId, s: Session, at: Time)
      ensures this.runtime == runtime && View() == NewRec(s, at)
    {
      this.runtime, id, name, cwd := runtime, s.id, s.name, s.cwd;
      startedAt, conversation, lastSeen := s.startedAt, s.conversation, at;
    }

    /** One more sighting; reports whether anything a tombstone would carry changed. */
    method Refresh(s: Session, at: Time) returns (changed: bool)
      modifies this
      ensures View() == HistorySpec.Refresh(old(View()), s, at)
      ensures changed <==> View().(lastSeen := 0) != old(View()).(lastSeen := 0)
    {
      changed := false;
      if s.name != "" && s.name != name {
        name, changed := s.name, true;
      }
      if s.cwd != "" && s.cwd != cwd {
        cwd, changed := s.cwd, true;
      }
      if s.startedAt.Some? && (startedAt.None? || startedAt.value != s.startedAt.value) {
        startedAt, changed := s.startedAt, true;
      }
      if s.conversation.Some? && (conversation.None? || conversation.value != s.conversation.value) {
        conversation, changed := s.conversation, true;
      }
      if at > lastSeen {
        lastSeen := at;
      }
    }
  }

  class HistoryStore {
    var seen: map<Key, SeenRecord>
    const closed: TombList.Tombs
    var retention: nat
    var savedAt: Time

    ghost predicate Valid()
      reads this, seen.Values, closed
    {
      && closed.Valid()
      && (forall k :: k in seen ==> seen[k].runtime == k.runtime && seen[k].id == k.id)
    }

    ghost function Records(): Seen
      reads this`seen, seen.Values
    {
      map k | k in seen :: seen[k].View()
    }

    ghost function Closed(): seq<Tomb>
      reads closed, closed.buf
      requires closed.Valid()
    {
      closed.Contents()
    }

    constructor (retention: nat)
      ensures Valid() && Records() == map[] && Closed() == [] && this.retention == retention
      ensures fresh(closed) && fresh(closed.buf)
    {
      seen := map[];
      closed := new TombList.Tombs();
      this.retention, savedAt := retention, 0;
    }

    method SightLocked(rt: RuntimeId, s: Session, at: Time) returns (changed: bool)
      requires Valid()
      modifies this`seen, seen.Values
      ensures Valid() && Records() == Sight(old(Records()), rt, s, at)
      ensures forall r :: r in seen.Values ==> r in old(seen.Values) || fresh(r)
      ensures Key(rt, s.id) !in old(seen) ==> changed
      ensures !changed ==> SameButSeenAt(old(Records()), Records())
    {
      var k := Key(rt, s.id);
      ghost var was := Records();
      if k !in seen {
        var r := new SeenRecord(rt, s, at);
        assert Records() == was;
        seen := seen[k := r];
        assert Records() == was[k := NewRec(s, at)];
        return true;
      }
      changed := seen[k].Refresh(s, at);
      assert forall q :: q in seen && q != k ==> seen[q] != seen[k];
      assert Records() == was[k := HistorySpec.Refresh(was[k], s, at)];
    }

    method Forget(k: Key)
      requires Valid()
      modifies this`seen
      ensures Valid() && Records() == old(Records()) - {k} && seen == old(seen) - {k}
    {
      seen := seen - {k};
    }

    method TombstoneLocked(runtime: RuntimeId, r: Rec, at: Time, kind: ClosureKind, status: Option<int>)
      requires Valid()
      modifies closed, closed.buf
      ensures Valid() && Closed() == old(Closed()) + [TombOf(runtime, r, at, kind, status)]
      ensures Closed()[|old(Closed())|]
           == Tomb(runtime := runtime, id := r.id, name := if r.name != "" then r.name else r.id, cwd := r.cwd,
                   startedAt := r.startedAt, conversation := r.conversation, lastSeenAt := r.lastSeen,
                   closedAt := at, closedBy := kind, exitStatus := status)
      ensures closed.buf == old(closed.buf) || fresh(closed.buf)
    {
      var name := r.name;
      if name == "" {
        name := r.id;
      }
      closed.Append(Tomb(runtime, r.id, name, r.cwd, r.startedAt, r.conversation, r.lastSeen, at, kind, status));
    }

    method WithdrawLocked(rt: RuntimeId, s: Session) returns (withdrawn: bool)
      requires Valid()
      modifies closed, closed.buf
      ensures Valid() && Closed() == Withdraw(old(Closed()), rt, s)
      ensures closed.buf == old(closed.buf)
      ensures withdrawn <==> Contradicting(old(Closed()), rt, s) > 0
    {
      hide Contradicting, WithdrawIndex, Premature, Records;
      ghost var tombs := Closed();
      WithdrawRemovesOne(tombs, rt, s);
      if s.startedAt.None? {
        NothingContradicts(tombs, rt, s);
        return false;
      }
      var i := NewestPremature(rt, s);
      if i >= 0 {
        closed.RemoveIndex(i);
      }
      return i >= 0;
    }

    /** The loop's search, from the newest back. */
    method NewestPremature(rt: RuntimeId, s: Session) returns (i: int)
      requires Valid() && s.startedAt.Some?
      ensures i == WithdrawIndex(Closed(), rt, s)
    {
      hide Contradicting, WithdrawIndex, Premature, Records, Withdraw;
      ghost var tombs := Closed();
      i := closed.count - 1;
      assert tombs[..closed.count] == tombs;
      WithdrawNone(rt, s);
      while i >= 0
        modifies {}
        invariant -1 <= i < closed.count
        invariant WithdrawIndex(tombs, rt, s) == WithdrawIndex(tombs[..i + 1], rt, s)
      {
        var c := closed.buf[i];
        assert tombs[..i + 1] == tombs[..i] + [c];
        WithdrawSnoc(tombs[..i], c, rt, s);
        PrematureIs(c, rt, s);
        if c.closedBy == ByClose && c.runtime == rt && c.id == s.id &&
           c.startedAt.Some? && c.startedAt.value == s.startedAt.value {
          return;
        }
        i := i - 1;
      }
    }

    lemma PrematureIs(t: Tomb, rt: RuntimeId, s: Session)
      ensures Premature(t, rt, s) <==>
                && t.closedBy == ByClose && t.runtime == rt && t.id == s.id
                && t.startedAt.Some? && s.startedAt.Some? && t.startedAt.value == s.startedAt.value
    {
    }

    method PruneLocked(now: Time) returns (changed: bool)
      requires Valid()
      modifies this`seen, closed, closed.buf
      ensures Valid()
      ensures Closed() == PruneClosed(old(Closed()), now - retention)
      ensures Records() == PruneSeen(old(Records()), now - retention)
      ensures changed <==> Closed() != old(Closed()) || Records() != old(Records())
      ensures closed.buf == old(closed.buf) && seen.Values <= old(seen.Values)
    {
      changed := closed.Compact(now - retention);
      assert Records() == old(Records());
      var dropped := DropExpired(now - retention);
      changed := changed || dropped;
    }

    /** Deletes from the map while iterating over it. */
    method DropExpired(cut: Time) returns (changed: bool)
      requires Valid()
      modifies this`seen
      ensures Valid() && Records() == PruneSeen(old(Records()), cut)
      ensures changed <==> Records() != old(Records())
      ensures seen.Values <= old(seen.Values)
    {
      hide Records, PruneSeen;
      ghost var was, recs := seen, Records();
      RecordsAre();
      changed := false;
      var todo := seen.Keys;
      while todo != {}
        invariant todo <= seen.Keys <= old(seen.Keys) && Valid()
        invariant forall k :: k in seen ==> seen[k] == old(seen)[k]
        invariant forall k :: k in old(seen) ==> (k in seen <==> k in todo || old(seen)[k].lastSeen >= cut)
        invariant changed <==> seen.Keys != old(seen.Keys)
      {
        var k :| k in todo;
        todo := todo - {k};
        if seen[k].lastSeen < cut {
          seen := seen - {k};
          changed := true;
          assert k in old(seen.Keys) && k !in seen.Keys;
        }
      }
      Dropped(was, recs, cut);
    }

    lemma RecordsAre()
      ensures Records().Keys == seen.Keys && forall k :: k in seen ==> Records()[k] == seen[k].View()
    {
    }

    lemma Dropped(was: map<Key, SeenRecord>, recs: Seen, cut: Time)
      requires recs.Keys == was.Keys && forall k :: k in was ==> recs[k] == was[k].View()
      requires forall k :: k in seen ==> k in was && seen[k] == was[k]
      requires forall k :: k in was ==> (k in seen <==> was[k].lastSeen >= cut)
      ensures Records() == PruneSeen(recs, cut)
      ensures Records() == recs <==> seen.Keys == was.Keys
    {
      RecordsAre();
      if seen.Keys == was.Keys {
        assert Records() == recs;
      }
    }

    /** saveLocked, less the write itself. */
    method SaveLocked(now: Time)
      requires Valid()
      modifies this`seen, this`savedAt, closed, closed.buf
      ensures Valid() && savedAt == now
      ensures Closed() == PruneClosed(old(Closed()), now - retention)
      ensures Records() == PruneSeen(old(Records()), now - retention)
    {
      hide Records, PruneSeen, PruneClosed;
      var _ := PruneLocked(now);
      savedAt := now;
    }

    // ---- the store as a value ------------------------------------------------

    ghost function Value(): HR.Store
      requires Valid()
      reads this, seen.Values, closed, closed.buf
    {
      HR.Store(Records(), Closed())
    }

    lemma ValueIs()
      requires Valid()
      ensures Value() == HR.Store(Records(), Closed())
    {
    }

    lemma CreateIs(s: HR.Store, rt: RuntimeId, session: Session, now: Time)
      ensures HR.Next(s, HR.Create(rt, session, now), retention)
           == if session.id == "" then s
              else HR.Store(PruneSeen(Sight(s.seen, rt, session, now), now - retention), PruneClosed(s.closed, now - retention))
    {
      hide PruneSeen, PruneClosed, Sight;
    }

    lemma RenameIs(s: HR.Store, rt: RuntimeId, from: string, to: string, now: Time)
      ensures HR.Next(s, HR.Rename(rt, from, to, now), retention)
           == if Key(rt, from) !in s.seen || from == to then s
              else HR.Store(PruneSeen(HO.RenameSeen(s.seen, rt, from, to), now - retention), PruneClosed(s.closed, now - retention))
    {
      hide PruneSeen, PruneClosed, HO.RenameSeen;
    }

    lemma CloseIs(s: HR.Store, rt: RuntimeId, id: string, now: Time)
      ensures HR.Next(s, HR.Close(rt, id, now), retention)
           == (var k, cut := Key(rt, id), now - retention;
               HR.Store(PruneSeen(s.seen - {k}, cut),
                        PruneClosed(s.closed + [TombOf(rt, RecAt(s.seen, k), now, ByClose, None)], cut)))
    {
      hide PruneSeen, PruneClosed, TombOf, RecAt;
    }

    lemma ListingIs(s: HR.Store, a: Call, order: seq<Key>, saved: bool)
      ensures HR.Next(s, HR.Listing(a, order, saved), retention)
           == (var o, cut := Observed(s.seen, s.closed, a, order), a.now - retention;
               if saved then HR.Store(PruneSeen(o.seen, cut), PruneClosed(o.closed, cut)) else HR.Store(o.seen, o.closed))
    {
      hide PruneSeen, PruneClosed, Observed;
    }

    // ---- requests through this service --------------------------------------

    method Created(rt: RuntimeId, s: Session, now: Time)
      requires Valid()
      modifies this`seen, this`savedAt, seen.Values, closed, closed.buf
      ensures Valid()
      ensures s.id == "" ==> Records() == old(Records()) && Closed() == old(Closed())
      ensures s.id != "" ==>
        && Records() == PruneSeen(Sight(old(Records()), rt, s, now), now - retention)
        && Closed() == PruneClosed(old(Closed()), now - retention)
      ensures Value() == HR.Next(old(Value()), HR.Create(rt, s, now), retention)
    {
      hide *;
      ghost var before := Value();
      CreateIs(before, rt, s, now);
      ValueIs();
      if s.id == "" {
        return;
      }
      var _ := SightLocked(rt, s, now);
      SaveLocked(now);
      ValueIs();
    }

    method Renamed(rt: RuntimeId, from: string, to: string, now: Time)
      requires Valid()
      modifies this`seen, this`savedAt, seen.Values, closed, closed.buf
      ensures Valid()
      ensures Key(rt, from) !in old(seen) || from == to ==> Records() == old(Records()) && Closed() == old(Closed())
      ensures Key(rt, from) in old(seen) && from != to ==>
        && Records() == PruneSeen(HO.RenameSeen(old(Records()), rt, from, to), now - retention)
        && Closed() == PruneClosed(old(Closed()), now - retention)
      ensures Value() == HR.Next(old(Value()), HR.Rename(rt, from, to, now), retention)
    {
      hide *;
      RenameIs(Value(), rt, from, to, now);
      ValueIs();
      RecordKeys();
      if Key(rt, from) !in seen || from == to {
        return;
      }
      Rekey(rt, from, to);
      SaveLocked(now);
      ValueIs();
    }

    /** The record moves with its session. */
    method Rekey(rt: RuntimeId, from: string, to: string)
      requires Valid() && Key(rt, from) in seen && from != to
      modifies this`seen, seen[Key(rt, from)]
      ensures Valid() && seen.Values <= old(seen.Values) && Closed() == old(Closed())
      ensures Records() == HO.RenameSeen(old(Records()), rt, from, to)
    {
      hide *;
      RecordKeys();
      RenameShape(Records(), rt, from, to);
      RecordAt(Key(rt, from));
      MoveRecord(Key(rt, from), to, to);
    }

    /** Re-key a record: out of the map, edited, back in under its new id. */
    method MoveRecord(k: Key, id: string, name: string)
      requires Valid() && k in seen && id != k.id
      modifies this`seen, seen[k]
      ensures Valid() && seen.Values <= old(seen.Values)
      ensures Records() == (old(Records()) - {k})[Key(k.runtime, id) := old(seen[k].View()).(id := id, name := name)]
    {
      var r := seen[k];
      RecordAt(k);
      Apart(k);
      hide Records;
      Forget(k);
      ghost var rest := Records();
      assert r !in seen.Values;
      r.id, r.name := id, name;
      assert Records() == rest;
      Insert(Key(k.runtime, id), r);
    }

    lemma Apart(k: Key)
      requires Valid() && k in seen
      ensures forall q :: q in seen && q != k ==> seen[q] != seen[k]
    {
    }

    method Insert(k: Key, r: SeenRecord)
      requires Valid() && r.runtime == k.runtime && r.id == k.id
      modifies this`seen
      ensures Valid() && Records() == old(Records())[k := r.View()] && seen == old(seen)[k := r]
    {
      seen := seen[k := r];
    }

    method ClosedByRequest(rt: RuntimeId, id: string, now: Time)
      requires Valid()
      modifies this`seen, this`savedAt, closed, closed.buf
      ensures Valid()
      ensures var k, cut := Key(rt, id), now - retention;
        && Records() == PruneSeen(old(Records()) - {k}, cut)
        && Closed() == PruneClosed(old(Closed()) + [TombOf(rt, RecAt(old(Records()), k), now, ByClose, None)], cut)
      ensures Value() == HR.Next(old(Value()), HR.Close(rt, id, now), retention)
    {
      hide PruneSeen, PruneClosed, TombOf, RecAt, Records, Value, HR.Next, HR.Saved;
      CloseIs(Value(), rt, id, now);
      ValueIs();
      ghost var recs, tombs := Records(), Closed();
      var r := Take(Key(rt, id));
      assert Closed() == tombs;
      TombstoneLocked(rt, r, now, ByClose, None);
      assert Records() == recs - {Key(rt, id)};
      SaveLocked(now);
      ValueIs();
    }

    /** The key's record, or the thin one of a session never sighted; either way it is forgotten. */
    method Take(k: Key) returns (r: Rec)
      requires Valid()
      modifies this`seen
      ensures Valid() && r == RecAt(old(Records()), k)
      ensures Records() == old(Records()) - {k} && seen.Values <= old(seen.Values)
    {
      r := Thin(k.id);
      if k in seen {
        r := Snapshot(seen[k]);
      }
      Forget(k);
    }

    method Snapshot(r: SeenRecord) returns (rec: Rec)
      ensures rec == r.View()
    {
      rec := Rec(r.id, r.name, r.cwd, r.startedAt, r.conversation, r.lastSeen);
    }

    // ---- reading -------------------------------------------------------------

    /** list: filters a copy and sorts it; the store is not pruned. */
    method List(since: Time, now: Time) returns (out: seq<Tomb>)
      requires Valid()
      ensures out == Listed(Closed(), now - retention, since)
    {
      hide SortClosed, KeptSince;
      out := Retained(since, now - retention);
      out := SortClosed(out);
    }

    method Retained(since: Time, cut: Time) returns (out: seq<Tomb>)
      requires Valid()
      ensures out == KeptSince(Closed(), cut, since)
    {
      out := [];
      ghost var tombs := Closed();
      ghost var p := Both(NotBefore(since), NotBefore(cut));
      var n := closed.count;
      for i := 0 to n
        invariant out == Filter(p, tombs[..i])
      {
        var c := closed.buf[i];
        assert tombs[i] == c;
        FilterSnoc(p, tombs[..i], c);
        assert tombs[..i + 1] == tombs[..i] + [c];
        if !(c.closedAt < cut || c.closedAt < since) {
          out := out + [c];
        }
      }
      assert tombs[..n] == tombs;
      FilterFilter(NotBefore(since), NotBefore(cut), tombs);
    }

    // ---- observing a listing -------------------------------------------------

    method SettleExits(rt: RuntimeId, exits: seq<Exit>) returns (ghost f: Fold)
      requires Valid()
      modifies this`seen, closed, closed.buf
      ensures Valid() && seen.Values <= old(seen.Values) && (closed.buf == old(closed.buf) || fresh(closed.buf))
      ensures f == DoExits(Begin(old(Records()), old(Closed())), rt, exits) && f.novel == []
      ensures Records() == f.seen && Closed() == f.closed
    {
      f := Begin(Records(), Closed());
      for i := 0 to |exits|
        invariant Valid() && seen.Values <= old(seen.Values) && (closed.buf == old(closed.buf) || fresh(closed.buf))
        invariant f == DoExits(Begin(old(Records()), old(Closed())), rt, exits[..i]) && f.novel == []
        invariant Records() == f.seen && Closed() == f.closed
      {
        var e := exits[i];
        assert exits[..i + 1][..i] == exits[..i];
        f := SettleExit(rt, e, f);
      }
      assert exits[..|exits|] == exits;
    }

    method SettleExit(rt: RuntimeId, e: Exit, ghost f: Fold) returns (ghost g: Fold)
      requires Valid() && Records() == f.seen && Closed() == f.closed
      modifies this`seen, closed, closed.buf
      ensures Valid() && seen.Values <= old(seen.Values) && (closed.buf == old(closed.buf) || fresh(closed.buf))
      ensures g == DoExit(f, rt, e) && g.novel == f.novel && Records() == g.seen && Closed() == g.closed
    {
      hide Records;
      g := DoExit(f, rt, e);
      hide RecAt, TombOf;
      var r := Take(Key(rt, e.id));
      TombstoneLocked(rt, r, e.at, ByExit, Some(e.status));
    }

    method FoldItem(rt: RuntimeId, s: Session, now: Time, novel: seq<Session>, ghost f: Fold)
      returns (left: seq<Session>, changed: bool, ghost g: Fold)
      requires Valid() && Records() == f.seen && Closed() == f.closed && novel == f.novel
      modifies this`seen, seen.Values, closed, closed.buf
      ensures Valid() && (closed.buf == old(closed.buf) || fresh(closed.buf))
      ensures forall r :: r in seen.Values ==> r in old(seen.Values) || fresh(r)
      ensures g == DoItem(f, rt, s, now)
      ensures Records() == g.seen && Closed() == g.closed && left == g.novel
      ensures !changed ==> Closed() == old(Closed()) && SameButSeenAt(old(Records()), Records())
    {
      hide *;
      ItemCases(f, rt, s, now);
      g := DoItem(f, rt, s, now);
      var withdrawn := WithdrawLocked(rt, s);
      left, changed := PlaceItem(rt, s, now, novel, f.seen);
      changed := withdrawn || changed;
    }

    /** One listed session against the record under its id, if there is one. */
    method PlaceItem(rt: RuntimeId, s: Session, now: Time, novel: seq<Session>, ghost recs: Seen)
      returns (left: seq<Session>, changed: bool)
      requires Valid() && Records() == recs
      modifies this`seen, seen.Values, closed, closed.buf
      ensures Valid() && (closed.buf == old(closed.buf) || fresh(closed.buf))
      ensures forall r :: r in seen.Values ==> r in old(seen.Values) || fresh(r)
      ensures Key(rt, s.id) !in recs ==> Records() == recs && Closed() == old(Closed()) && left == novel + [s]
      ensures Key(rt, s.id) in recs ==> left == novel
      ensures Key(rt, s.id) in recs && Recycles(recs[Key(rt, s.id)], s) ==>
        && Records() == recs[Key(rt, s.id) := NewRec(s, now)]
        && Closed() == old(Closed()) + [Absent(Key(rt, s.id), recs[Key(rt, s.id)], now)]
      ensures Key(rt, s.id) in recs && !Recycles(recs[Key(rt, s.id)], s) ==>
        Records() == Sight(recs, rt, s, now) && Closed() == old(Closed())
      ensures !changed ==> Closed() == old(Closed()) && SameButSeenAt(old(Records()), Records())
    {
      assert closed.Valid();
      RecordKeys();
      hide *;
      left, changed := novel, false;
      var k := Key(rt, s.id);
      if k !in seen {
        left := left + [s];
        return;
      }
      RecordAt(k);
      var r := Snapshot(seen[k]);
      if Recycles(r, s) {
        changed := true;
        ReplaceRecycled(rt, r, s, now);
        return;
      }
      changed := SightLocked(rt, s, now);
    }

    /** The old occupant of a recycled id is buried and the new one starts a record of its own. */
    method ReplaceRecycled(rt: RuntimeId, r: Rec, s: Session, now: Time)
      requires Valid() && Key(rt, s.id) in seen && r == seen[Key(rt, s.id)].View()
      modifies this`seen, seen.Values, closed, closed.buf
      ensures Valid() && (closed.buf == old(closed.buf) || fresh(closed.buf))
      ensures forall q :: q in seen.Values ==> q in old(seen.Values) || fresh(q)
      ensures Records() == old(Records())[Key(rt, s.id) := NewRec(s, now)]
      ensures Closed() == old(Closed()) + [Absent(Key(rt, s.id), r, now)]
    {
      ghost var recs := Records();
      var k := Key(rt, s.id);
      ghost var t := Absent(k, r, now);
      hide Absent, TombOf, Records;
      BuryAbsent(k, r, now);
      ghost var tombs := Closed();
      assert Records() == recs;
      Forget(k);
      assert Closed() == tombs;
      var _ := SightLocked(rt, s, now);
      assert Closed() == tombs;
      assert Sight(recs - {k}, rt, s, now) == recs[k := NewRec(s, now)];
    }

    method BuryAbsent(k: Key, r: Rec, now: Time)
      requires Valid()
      modifies closed, closed.buf
      ensures Valid() && Closed() == old(Closed()) + [Absent(k, r, now)]
      ensures closed.buf == old(closed.buf) || fresh(closed.buf)
    {
      TombstoneLocked(k.runtime, r, now, ByAbsent, None);
    }

    method FoldItems(rt: RuntimeId, items: seq<Session>, now: Time, ghost f: Fold)
      returns (novel: seq<Session>, changed: bool, ghost g: Fold)
      requires Valid() && Records() == f.seen && Closed() == f.closed && f.novel == []
      modifies this`seen, seen.Values, closed, closed.buf
      ensures Valid() && (closed.buf == old(closed.buf) || fresh(closed.buf))
      ensures forall r :: r in seen.Values ==> r in old(seen.Values) || fresh(r)
      ensures g == DoItems(f, rt, items, now)
      ensures Records() == g.seen && Closed() == g.closed && novel == g.novel
      ensures !changed ==> Closed() == old(Closed()) && SameButSeenAt(old(Records()), Records())
    {
      hide Records, DoItem;
      g, novel, changed := f, [], false;
      for i := 0 to |items|
        invariant Valid() && (closed.buf == old(closed.buf) || fresh(closed.buf))
        invariant forall r :: r in seen.Values ==> r in old(seen.Values) || fresh(r)
        invariant g == DoItems(f, rt, items[..i], now)
        invariant Records() == g.seen && Closed() == g.closed && novel == g.novel
        invariant !changed ==> Closed() == old(Closed()) && SameButSeenAt(old(Records()), Records())
      {
        assert items[..i + 1][..i] == items[..i];
        var c;
        novel, c, g := FoldItem(rt, items[i], now, novel, g);
        changed := changed || c;
      }
      assert items[..|items|] == items;
    }

    /** The record's run goes on under the id of novel[i]. */
    method CarryOne(k: Key, novel: seq<Session>, i: nat, ghost f: Fold)
      returns (left: seq<Session>)
      requires Valid() && k in seen && Records() == f.seen && novel == f.novel
      requires i < |novel| && novel[i].id != k.id
      modifies this`seen, seen[k]
      ensures Valid() && seen.Values <= old(seen.Values) && left == RemoveAt(novel, i)
      ensures Records() == (f.seen - {k})[Key(k.runtime, novel[i].id) := HistorySpec.Renamed(f.seen[k], novel[i])]
    {
      assert seen[k].View() == f.seen[k];
      hide Records;
      MoveRecord(k, novel[i].id, novel[i].name);
      left := novel[..i] + novel[i + 1..];
    }

    /** The record is over: a tombstone, and no record. */
    method EndOne(k: Key, r: Rec, now: Time)
      requires Valid()
      modifies this`seen, closed, closed.buf
      ensures Valid() && (closed.buf == old(closed.buf) || fresh(closed.buf))
      ensures seen == old(seen) - {k} && Records() == old(Records()) - {k}
      ensures Closed() == old(Closed()) + [Absent(k, r, now)]
    {
      ghost var recs := Records();
      hide Absent, Records, Closed;
      BuryAbsent(k, r, now);
      assert Records() == recs;
      ghost var tombs := Closed();
      Forget(k);
      assert Closed() == tombs;
    }

    /** One judged record of the scan. */
    method SettleOne(k: Key, now: Time, novel: seq<Session>, ghost f: Fold)
      returns (left: seq<Session>, moved: Option<Key>, ghost g: Fold)
      requires Valid() && k in seen && Records() == f.seen && Closed() == f.closed && novel == f.novel
      requires forall s :: s in novel ==> s.id != k.id
      modifies this`seen, seen.Values, closed, closed.buf
      ensures Valid() && (closed.buf == old(closed.buf) || fresh(closed.buf))
      ensures seen.Values <= old(seen.Values)
      ensures g == Settle(f, k, now) && Records() == g.seen && Closed() == g.closed && left == g.novel
      ensures moved.Some? ==> moved.value in g.seen && |left| < |novel|
      ensures moved.None? ==> left == novel
      ensures forall s :: s in left ==> s in novel
      ensures forall q :: q in f.seen && q != k ==> q in g.seen
    {
      hide *;
      RecordAt(k);
      SettleShape(f, k, now);
      g := Settle(f, k, now);
      var r := Snapshot(seen[k]);
      var i := FindCarry(r, novel);
      if i >= 0 {
        left := CarryOne(k, novel, i, f);
        moved := Some(Key(k.runtime, novel[i].id));
      } else {
        EndOne(k, r, now);
        left, moved := novel, None;
      }
    }

    lemma RecordKeys()
      ensures Records().Keys == seen.Keys
    {
    }

    lemma RecordAt(k: Key)
      requires k in seen
      ensures k in Records() && Records()[k] == seen[k].View()
    {
    }

    /** One visit of the scan: what it judges it settles, everything else it leaves. */
    method VisitKey(k: Key, rt: RuntimeId, items: seq<Session>, listedAt: Time, now: Time, novel: seq<Session>, ghost f: Fold)
      returns (left: seq<Session>, moved: Option<Key>, changed: bool, ghost g: Fold)
      requires Valid() && k in seen && Records() == f.seen && Closed() == f.closed && novel == f.novel
      requires forall s :: s in novel ==> Present(items, s.id)
      modifies this`seen, seen.Values, closed, closed.buf
      ensures Valid() && closed.Valid() && (closed.buf == old(closed.buf) || fresh(closed.buf))
      ensures seen.Values <= old(seen.Values)
      ensures g == if Missing(f.seen, rt, items, listedAt, k) then Settle(f, k, now) else f
      ensures Records() == g.seen && Closed() == g.closed && left == g.novel
      ensures moved.Some? ==> moved.value in g.seen && |left| < |novel|
      ensures moved.None? ==> left == novel
      ensures forall s :: s in left ==> s in novel
      ensures forall q :: q in f.seen && q != k ==> q in g.seen
      ensures !changed ==> Closed() == old(Closed()) && Records() == old(Records())
    {
      var present := set i | 0 <= i < |items| :: items[i].id;
      var r := Snapshot(seen[k]);
      assert r == f.seen[k];
      hide Records, Settle;
      if k.runtime != rt || k.id in present || r.lastSeen >= listedAt {
        return novel, None, false, f;
      }
      assert Missing(f.seen, rt, items, listedAt, k);
      left, moved, g := SettleOne(k, now, novel, f);
      changed := true;
    }

    /** One turn of the scan's loop; an inserted key may or may not be met later. */
    method VisitNext(rt: RuntimeId, items: seq<Session>, listedAt: Time, now: Time, novel: seq<Session>,
                     todo: set<Key>, ghost f0: Fold, ghost f: Fold, ghost order: seq<Key>)
      returns (left: seq<Session>, rest: set<Key>, changed: bool, ghost g: Fold, ghost visited: seq<Key>)
      requires Valid() && Records() == f.seen && Closed() == f.closed && novel == f.novel
      requires f == Scan(f0, rt, items, listedAt, now, order)
      requires forall s :: s in novel ==> Present(items, s.id)
      requires todo != {} && todo <= f.seen.Keys && f0.seen.Keys <= Ran(order) + todo
      modifies this`seen, seen.Values, closed, closed.buf
      ensures Valid() && closed.Valid() && (closed.buf == old(closed.buf) || fresh(closed.buf))
      ensures seen.Values <= old(seen.Values)
      ensures g == Scan(f0, rt, items, listedAt, now, visited)
      ensures Records() == g.seen && Closed() == g.closed && left == g.novel
      ensures forall s :: s in left ==> Present(items, s.id)
      ensures rest <= g.seen.Keys && f0.seen.Keys <= Ran(visited) + rest
      ensures |left| < |novel| || (left == novel && |rest| < |todo|)
      ensures !changed ==> Closed() == old(Closed()) && Records() == old(Records())
    {
      RecordKeys();
      hide Records, Closed, Missing, Settle, Present, Scan;
      var k :| k in todo;
      ScanSnoc(f0, rt, items, listedAt, now, order, k);
      visited := order + [k];
      var moved;
      left, moved, changed, g := VisitKey(k, rt, items, listedAt, now, novel, f);
      rest := todo - {k};
      if moved.Some? {
        if * {
          rest := rest + {moved.value};
        }
      }
    }

    /** The scan of a complete listing. It deletes and inserts while it iterates; an inserted key may or
        may not be met later, and is skipped when it is, because its session is listed. */
    method ScanAbsent(rt: RuntimeId, items: seq<Session>, listedAt: Time, now: Time, novel: seq<Session>, ghost f: Fold)
      returns (left: seq<Session>, changed: bool, ghost g: Fold, ghost order: seq<Key>)
      requires Valid() && Records() == f.seen && Closed() == f.closed && novel == f.novel
      requires forall s :: s in novel ==> Present(items, s.id)
      modifies this`seen, seen.Values, closed, closed.buf
      ensures Valid() && (closed.buf == old(closed.buf) || fresh(closed.buf))
      ensures seen.Values <= old(seen.Values)
      ensures g == Scan(f, rt, items, listedAt, now, order)
      ensures f.seen.Keys <= Ran(order)
      ensures Records() == g.seen && Closed() == g.closed && left == g.novel
      ensures !changed ==> Closed() == old(Closed()) && Records() == old(Records())
    {
      assert closed.Valid();
      hide Valid, Records, Closed, Missing, Settle, Present, Scan, Ran;
      left, changed, g, order := novel, false, f, [];
      var todo := seen.Keys;
      RecordKeys();
      ScanNothing(f, rt, items, listedAt, now);
      while todo != {}
        invariant Valid() && closed.Valid() && (closed.buf == old(closed.buf) || fresh(closed.buf))
        invariant seen.Values <= old(seen.Values) && todo <= g.seen.Keys
        invariant g == Scan(f, rt, items, listedAt, now, order)
        invariant f.seen.Keys <= Ran(order) + todo
        invariant Records() == g.seen && Closed() == g.closed && left == g.novel
        invariant forall s :: s in left ==> Present(items, s.id)
        invariant !changed ==> Closed() == old(Closed()) && Records() == old(Records())
        decreases |left|, |todo|
      {
        var c;
        left, todo, c, g, order := VisitNext(rt, items, listedAt, now, left, todo, f, g, order);
        changed := changed || c;
      }
    }

    /** observe: fold a listing in, then save if anything changed or the last save is old. */
    method Observe(rt: RuntimeId, items: seq<Session>, complete: bool, listedAt: Time, exits: seq<Exit>, now: Time)
      returns (saved: bool, ghost order: seq<Key>)
      requires Valid()
      modifies this`seen, this`savedAt, seen.Values, closed, closed.buf
      ensures Valid()
      ensures var a := Call(rt, items, complete, listedAt, exits, now);
        var o := Observed(old(Records()), old(Closed()), a, order);
        && Visits(old(Records()), old(Closed()), a, order)
        && Records() == (if saved then PruneSeen(o.seen, now - retention) else o.seen)
        && Closed() == if saved then PruneClosed(o.closed, now - retention) else o.closed
      ensures now - old(savedAt) >= 5 * 60 * 1000 ==> saved
      ensures !saved ==> Closed() == old(Closed()) && SameButSeenAt(old(Records()), Records())
      ensures var a := Call(rt, items, complete, listedAt, exits, now);
        Value() == HR.Next(old(Value()), HR.Listing(a, order, saved), retention)
    {
      hide *;
      ghost var a := Call(rt, items, complete, listedAt, exits, now);
      ghost var before := Value();
      ValueIs();
      var changed;
      changed, order := FoldListing(rt, items, complete, listedAt, exits, now);
      saved := changed || FlushIsDue(now - savedAt);
      if saved {
        SaveLocked(now);
      }
      ListingIs(before, a, order, saved);
      ValueIs();
    }

    /** observe up to the save. */
    method FoldListing(rt: RuntimeId, items: seq<Session>, complete: bool, listedAt: Time, exits: seq<Exit>, now: Time)
      returns (changed: bool, ghost order: seq<Key>)
      requires Valid()
      modifies this`seen, seen.Values, closed, closed.buf
      ensures Valid() && (closed.buf == old(closed.buf) || fresh(closed.buf))
      ensures forall r :: r in seen.Values ==> r in old(seen.Values) || fresh(r)
      ensures var a := Call(rt, items, complete, listedAt, exits, now);
        var o := Observed(old(Records()), old(Closed()), a, order);
        Visits(old(Records()), old(Closed()), a, order) && Records() == o.seen && Closed() == o.closed
      ensures !changed ==> Closed() == old(Closed()) && SameButSeenAt(old(Records()), Records())
    {
      ghost var a := Call(rt, items, complete, listedAt, exits, now);
      ghost var seen0, closed0 := Records(), Closed();
      hide Records, Closed, Valid, Observed, Visits, DoItems, DoExits, Scan, SightAll, Present;
      ghost var e := SettleExits(rt, exits);
      var novel, c;
      ghost var f, g;
      novel, changed, f := FoldItems(rt, items, now, e);
      NovelPresent(e, rt, items, now);
      novel, c, g, order := JudgeAbsent(rt, items, complete, listedAt, now, novel, f);
      changed := exits != [] || changed || c;
      ObservedIs(seen0, closed0, a, order, g);
    }

    /** The rest of observe: judge who is missing when the listing can say so, then sight who is new. */
    method JudgeAbsent(rt: RuntimeId, items: seq<Session>, complete: bool, listedAt: Time, now: Time,
                       novel: seq<Session>, ghost f: Fold)
      returns (left: seq<Session>, changed: bool, ghost g: Fold, ghost order: seq<Key>)
      requires Valid() && Records() == f.seen && Closed() == f.closed && novel == f.novel
      requires forall s :: s in novel ==> Present(items, s.id)
      modifies this`seen, seen.Values, closed, closed.buf
      ensures Valid() && (closed.buf == old(closed.buf) || fresh(closed.buf))
      ensures forall r :: r in seen.Values ==> r in old(seen.Values) || fresh(r)
      ensures g == if complete then Scan(f, rt, items, listedAt, now, order) else f
      ensures complete ==> f.seen.Keys <= Ran(order)
      ensures Records() == SightAll(g.seen, rt, g.novel, now) && Closed() == g.closed
      ensures !changed ==> Closed() == old(Closed()) && SameButSeenAt(old(Records()), Records())
    {
      hide Records, Closed, Valid, Scan, SightAll, Present;
      left, changed, g, order := novel, false, f, [];
      if complete {
        left, changed, g, order := ScanAbsent(rt, items, listedAt, now, novel, f);
      }
      SightNothing(Records(), rt, now);
      SightRest(rt, left, now);
      changed := changed || left != [];
    }

    method SightRest(rt: RuntimeId, novel: seq<Session>, now: Time)
      requires Valid()
      modifies this`seen, seen.Values
      ensures Valid() && Records() == SightAll(old(Records()), rt, novel, now)
      ensures forall r :: r in seen.Values ==> r in old(seen.Values) || fresh(r)
    {
      for i := 0 to |novel|
        invariant Valid() && Records() == SightAll(old(Records()), rt, novel[..i], now)
        invariant forall r :: r in seen.Values ==> r in old(seen.Values) || fresh(r)
      {
        assert novel[..i + 1][..i] == novel[..i];
        var _ := SightLocked(rt, novel[i], now);
      }
      assert novel[..|novel|] == novel;
    }
  }

  ghost function Ran(order: seq<Key>): set<Key>
  {
    set k | k in order
  }

  lemma RenameShape(seen: Seen, rt: RuntimeId, from: string, to: string)
    ensures Key(rt, from) in seen && from != to ==>
              HO.RenameSeen(seen, rt, from, to)
                == (seen - {Key(rt, from)})[Key(rt, to) := seen[Key(rt, from)].(id := to, name := to)]
  {
  }

  lemma ItemCases(f: Fold, rt: RuntimeId, s: Session, now: Time)
    ensures var g, k, w := DoItem(f, rt, s, now), Key(rt, s.id), Withdraw(f.closed, rt, s);
            && (k !in f.seen ==> g.seen == f.seen && g.closed == w && g.novel == f.novel + [s])
            && (k in f.seen && Recycles(f.seen[k], s) ==>
                  && g.seen == f.seen[k := NewRec(s, now)] && g.novel == f.novel
                  && g.closed == w + [Absent(k, f.seen[k], now)])
            && (k in f.seen && !Recycles(f.seen[k], s) ==>
                  g.seen == Sight(f.seen, rt, s, now) && g.closed == w && g.novel == f.novel)
    ensures Contradicting(f.closed, rt, s) == 0 ==> Withdraw(f.closed, rt, s) == f.closed
  {
    WithdrawRemovesOne(f.closed, rt, s);
    HO.ItemShape(f, rt, s, now);
    hide Contradicting, Premature, Absent, NewRec, HistorySpec.Refresh;
  }

  lemma SettleShape(f: Fold, k: Key, now: Time)
    requires k in f.seen
    ensures var g, r := Settle(f, k, now), f.seen[k];
            var i := CarryIndex(r, f.novel);
            && (i >= 0 ==>
                  && g.novel == RemoveAt(f.novel, i) && |g.novel| < |f.novel| && g.closed == f.closed
                  && Key(k.runtime, f.novel[i].id) in g.seen
                  && g.seen == (f.seen - {k})[Key(k.runtime, f.novel[i].id) := Renamed(r, f.novel[i])])
            && (i < 0 ==> g.novel == f.novel && g.closed == f.closed + [Absent(k, r, now)] && g.seen == f.seen - {k})
            && (forall s :: s in g.novel ==> s in f.novel)
            && (forall q :: q in f.seen && q != k ==> q in g.seen)
  {
  }

  lemma ScanNothing(f: Fold, rt: RuntimeId, items: seq<Session>, listedAt: Time, now: Time)
    ensures Scan(f, rt, items, listedAt, now, []) == f
  {
  }

  lemma ScanSnoc(f: Fold, rt: RuntimeId, items: seq<Session>, listedAt: Time, now: Time, order: seq<Key>, k: Key)
    ensures var g := Scan(f, rt, items, listedAt, now, order);
            Scan(f, rt, items, listedAt, now, order + [k])
              == if Missing(g.seen, rt, items, listedAt, k) then Settle(g, k, now) else g
  {
    assert (order + [k])[..|order|] == order;
  }

  lemma SightNothing(seen: Seen, rt: RuntimeId, now: Time)
    ensures SightAll(seen, rt, [], now) == seen
  {
  }

  lemma ObservedIs(seen: Seen, closed: seq<Tomb>, a: Call, order: seq<Key>, g: Fold)
    requires var f := DoItems(DoExits(Begin(seen, closed), a.rt, a.exits), a.rt, a.items, a.now);
             && g == (if a.complete then Scan(f, a.rt, a.items, a.listedAt, a.now, order) else f)
             && (a.complete ==> f.seen.Keys <= Ran(order))
    ensures Observed(seen, closed, a, order) == g.(seen := SightAll(g.seen, a.rt, g.novel, a.now))
    ensures Visits(seen, closed, a, order)
  {
  }

  /** Five minutes, in milliseconds. */
  const SEEN_FLUSH_INTERVAL := 5 * 60 * 1000

  /** Unchanged records are written again this long after the last save, for their last sightings. */
  predicate FlushIsDue(elapsed: int): (due: bool)
    ensures due <==> elapsed >= 5 * 60 * 1000
  {
    elapsed >= SEEN_FLUSH_INTERVAL
  }

  /** carryIndex: one candidate, or none. */
  method FindCarry(r: Rec, novel: seq<Session>) returns (found: int)
    ensures found == CarryIndex(r, novel)
  {
    if r.startedAt.None? {
      NothingSharesUnknown(novel);
      return -1;
    }
    found := -1;
    for i := 0 to |novel|
      invariant found == Holder(r.startedAt, novel[..i])
      invariant Sharing(r.startedAt, novel[..i]) == if found >= 0 then 1 else 0
    {
      assert novel[..i + 1][..i] == novel[..i];
      if novel[i].startedAt.Some? && novel[i].startedAt.value == r.startedAt.value {
        if found >= 0 {
          SharingGrows(r.startedAt, novel, i + 1);
          return -1;
        }
        found := i;
      }
    }
    assert novel[..|novel|] == novel;
  }

  lemma {:induction false} NothingSharesUnknown(novel: seq<Session>)
    ensures Sharing(None, novel) == 0
  {
    if novel != [] {
      NothingSharesUnknown(novel[..|novel| - 1]);
    }
  }

  lemma {:induction false} SharingGrows(start: Option<Time>, novel: seq<Session>, i: nat)
    requires i <= |novel|
    ensures Sharing(start, novel[..i]) <= Sharing(start, novel)
    decreases |novel|
  {
    if i == |novel| {
      assert novel[..i] == novel;
    } else {
      SharingGrows(start, novel[..|novel| - 1], i);
      assert novel[..|novel| - 1][..i] == novel[..i];
    }
  }

  lemma {:induction false} NovelPresent(f: Fold, rt: RuntimeId, items: seq<Session>, now: Time)
    requires f.novel == []
    ensures forall s :: s in DoItems(f, rt, items, now).novel ==> s in items
    ensures forall s :: s in DoItems(f, rt, items, now).novel ==> Present(items, s.id)
    decreases |items|
  {
    if items != [] {
      var init, s := items[..|items| - 1], items[|items| - 1];
      NovelPresent(f, rt, init, now);
      ItemShape(DoItems(f, rt, init, now), rt, s, now);
      assert items == init + [s];
    }
  }

  lemma {:induction false} NothingContradicts(closed: seq<Tomb>, rt: RuntimeId, s: Session)
    requires s.startedAt.None?
    ensures Contradicting(closed, rt, s) == 0
  {
    if closed != [] {
      NothingContradicts(closed[..|closed| - 1], rt, s);
    }
  }
}
