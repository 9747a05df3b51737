// What one listing makes of a session (internal/service/history.go), from the state before it and for any
// iteration order: where each record and each tombstone left comes from, and who is carried without rivals.
module HistoryListing {
  import opened Fleet
  import opened Seqs
  import opened HistorySpec
  import opened HistoryScan
  import opened HistoryObserve
  import HP = HistoryPrune

  // ---- tombstones ----------------------------------------------------------

  /** A tombstone a listing writes is in the list it leaves. */
  lemma WrittenByListing(seen: Seen, closed: seq<Tomb>, a: Call, order: seq<Key>, t: Tomb)
    requires WellFormed(a) && WellKeyed(seen) && Visits(seen, closed, a, order)
    requires var o := Observed(seen, closed, a, order);
             t in ExitTombs(seen, a.rt, a.exits) || t in Tombs(seen, o.recycled, a.now) || t in Tombs(seen, o.ended, a.now)
    ensures t in Observed(seen, closed, a, order).closed
  {
    hide *;
    var o := Observed(seen, closed, a, order);
    TombstonesBalance(seen, closed, a, order);
    HP.ExitsAreNotRelayed(seen, a.rt, a.exits);
    HP.AbsencesAreAbsences(seen, o.recycled, a.now);
    HP.AbsencesAreAbsences(seen, o.ended, a.now);
    if t in o.withdrawn {
      var i :| 0 <= i < |a.items| && Premature(t, a.rt, a.items[i]);
      PrematureIsClose(t, a.rt, a.items[i]);
      assert false;
    }
    InOne(multiset(o.closed), multiset(o.withdrawn), multiset(closed), multiset(ExitTombs(seen, a.rt, a.exits)),
          multiset(Tombs(seen, o.recycled, a.now)), multiset(Tombs(seen, o.ended, a.now)), t);
  }

  lemma PrematureIsClose(t: Tomb, rt: RuntimeId, s: Session)
    requires Premature(t, rt, s)
    ensures t.closedBy == ByClose && SameStart(t.startedAt, s.startedAt) && t.runtime == rt && t.id == s.id
  {
  }

  lemma InOne(c: multiset<Tomb>, w: multiset<Tomb>, c0: multiset<Tomb>, e: multiset<Tomb>, r: multiset<Tomb>, n: multiset<Tomb>, t: Tomb)
    requires c + w == c0 + e + r + n
    ensures t in c0 || t in e || t in r || t in n ==> t in c || t in w
  {
    assert (c + w)[t] == (c0 + e + r + n)[t];
  }

  /** Every tombstone left was written now, or was there and was not withdrawn; and those are left. */
  lemma TombFrom(seen: Seen, closed: seq<Tomb>, a: Call, order: seq<Key>, t: Tomb)
    requires WellFormed(a) && WellKeyed(seen) && Visits(seen, closed, a, order)
    ensures var o := Observed(seen, closed, a, order);
            t in o.closed <==>
              || t in ExitTombs(seen, a.rt, a.exits) || t in Tombs(seen, o.recycled, a.now) || t in Tombs(seen, o.ended, a.now)
              || multiset(closed)[t] > multiset(o.withdrawn)[t]
  {
    hide *;
    var o := Observed(seen, closed, a, order);
    TombstonesBalance(seen, closed, a, order);
    var written := [ExitTombs(seen, a.rt, a.exits), Tombs(seen, o.recycled, a.now), Tombs(seen, o.ended, a.now)];
    CountOne(multiset(o.closed), multiset(o.withdrawn), multiset(closed), multiset(written[0]), multiset(written[1]),
             multiset(written[2]), t);
    if t in written[0] || t in written[1] || t in written[2] {
      WrittenByListing(seen, closed, a, order, t);
    }
    assert t in o.closed <==> t in multiset(o.closed);
  }

  lemma CountOne(c: multiset<Tomb>, w: multiset<Tomb>, c0: multiset<Tomb>, e: multiset<Tomb>, r: multiset<Tomb>, n: multiset<Tomb>, t: Tomb)
    requires c + w == c0 + e + r + n
    ensures c[t] + w[t] == c0[t] + e[t] + r[t] + n[t]
  {
    assert (c + w)[t] == (c0 + e + r + n)[t];
  }

  /** The tombstone of a record, when the listing ends it. */
  lemma EndedLeavesTomb(seen: Seen, closed: seq<Tomb>, a: Call, order: seq<Key>, k: Key)
    requires WellFormed(a) && WellKeyed(seen) && Visits(seen, closed, a, order) && k in seen
    requires k in Observed(seen, closed, a, order).ended || k in Observed(seen, closed, a, order).recycled
    ensures Absent(k, seen[k], a.now) in Observed(seen, closed, a, order).closed
  {
    hide *;
    var o := Observed(seen, closed, a, order);
    TombsMembers(seen, o.recycled, a.now, Absent(k, seen[k], a.now));
    TombsMembers(seen, o.ended, a.now, Absent(k, seen[k], a.now));
    RecIs(seen, k);
    WrittenByListing(seen, closed, a, order, Absent(k, seen[k], a.now));
  }

  lemma RecIs(seen: Seen, k: Key)
    requires k in seen
    ensures RecAt(seen, k) == seen[k]
  {
  }

  lemma ExitLeavesTomb(seen: Seen, closed: seq<Tomb>, a: Call, order: seq<Key>, k: Key) returns (i: nat)
    requires WellFormed(a) && WellKeyed(seen) && Visits(seen, closed, a, order) && k in seen && k in ExitKeys(a.rt, a.exits)
    ensures i < |a.exits| && a.exits[i].id == k.id && k.runtime == a.rt
    ensures TombOf(a.rt, seen[k], a.exits[i].at, ByExit, Some(a.exits[i].status)) in Observed(seen, closed, a, order).closed
  {
    hide *;
    i := ExitOf(a, k);
    HP.ExitTombsAt(seen, a.rt, a.exits);
    RecIs(seen, k);
    ExitTombIs(seen, a.rt, a.exits[i]);
    assert ExitTombs(seen, a.rt, a.exits)[i] in ExitTombs(seen, a.rt, a.exits);
    WrittenByListing(seen, closed, a, order, ExitTombs(seen, a.rt, a.exits)[i]);
  }

  lemma ExitOf(a: Call, k: Key) returns (i: nat)
    requires k in ExitKeys(a.rt, a.exits)
    ensures i < |a.exits| && a.exits[i].id == k.id && k == Key(a.rt, a.exits[i].id)
  {
    i :| 0 <= i < |a.exits| && k == Key(a.rt, a.exits[i].id);
  }

  lemma ExitTombIs(seen: Seen, rt: RuntimeId, e: Exit)
    ensures HP.ExitTomb(seen, rt, e) == TombOf(rt, RecAt(seen, Key(rt, e.id)), e.at, ByExit, Some(e.status))
  {
  }

  // ---- withdrawing for one session -----------------------------------------

  /** The tombstones withdrawn for this session and no other. */
  function PrematureFor(rt: RuntimeId, s: Session): Tomb -> bool
  {
    (t: Tomb) => Premature(t, rt, s)
  }

  lemma {:induction false} OtherWithdrawal(p: Tomb -> bool, closed: seq<Tomb>, rt: RuntimeId, u: Session)
    requires forall t :: Premature(t, rt, u) ==> !p(t)
    ensures Filter(p, Withdraw(closed, rt, u)) == Filter(p, closed)
    decreases |closed|
  {
    hide Filter, Premature, Withdraw, WithdrawIndex;
    if closed == [] {
      WithdrawNone(rt, u);
    } else {
      var init, last := closed[..|closed| - 1], closed[|closed| - 1];
      assert closed == init + [last];
      OtherWithdrawal(p, init, rt, u);
      WithdrawSnoc(init, last, rt, u);
      FilterSnoc(p, init, last);
      FilterSnoc(p, Withdraw(init, rt, u), last);
    }
  }

  lemma {:induction false} WithdrawnFromFilter(closed: seq<Tomb>, rt: RuntimeId, s: Session)
    ensures HP.Withdrawn(Filter(PrematureFor(rt, s), closed), rt, s) == HP.Withdrawn(closed, rt, s)
    decreases |closed|
  {
    hide Filter, Premature, HP.Withdrawn;
    var p := PrematureFor(rt, s);
    if closed == [] {
      NothingFiltered(p);
    } else {
      var init, last := closed[..|closed| - 1], closed[|closed| - 1];
      assert closed == init + [last];
      WithdrawnFromFilter(init, rt, s);
      FilterSnoc(p, init, last);
      HP.WithdrawnSnoc(init, last, rt, s);
      HP.WithdrawnSnoc(Filter(p, init), last, rt, s);
    }
  }

  lemma NothingFiltered(p: Tomb -> bool)
    ensures Filter(p, []) == []
  {
  }

  /** Another item leaves this session's tombstones as they are. */
  lemma OtherItem(f: Fold, rt: RuntimeId, u: Session, now: Time, s: Session)
    requires u.id != s.id
    ensures Filter(PrematureFor(rt, s), DoItem(f, rt, u, now).closed) == Filter(PrematureFor(rt, s), f.closed)
  {
    hide *;
    var p, k, w := PrematureFor(rt, s), Key(rt, u.id), DoWithdraw(f, rt, u);
    ItemShape(f, rt, u, now);
    HP.WithdrawFields(f, rt, u);
    ForOneId(rt, u, s);
    OtherWithdrawal(p, f.closed, rt, u);
    if k in f.seen && Recycles(f.seen[k], u) {
      FilterSnoc(p, w.closed, Absent(k, f.seen[k], now));
      AbsentIsNotPremature(k, f.seen[k], now, rt, s);
    }
  }

  lemma ForOneId(rt: RuntimeId, u: Session, s: Session)
    requires u.id != s.id
    ensures forall t :: Premature(t, rt, u) ==> !PrematureFor(rt, s)(t)
  {
  }

  lemma AbsentIsNotPremature(k: Key, r: Rec, now: Time, rt: RuntimeId, s: Session)
    ensures !PrematureFor(rt, s)(Absent(k, r, now))
  {
  }

  lemma {:induction false} OtherItems(f: Fold, rt: RuntimeId, items: seq<Session>, now: Time, s: Session)
    requires !Present(items, s.id)
    ensures Filter(PrematureFor(rt, s), DoItems(f, rt, items, now).closed) == Filter(PrematureFor(rt, s), f.closed)
    decreases |items|
  {
    hide Filter, PrematureFor, DoItem;
    if items != [] {
      var init, u := items[..|items| - 1], items[|items| - 1];
      assert forall i :: 0 <= i < |init| ==> init[i] == items[i];
      OtherItems(f, rt, init, now, s);
      OtherItem(DoItems(f, rt, init, now), rt, u, now, s);
    }
  }

  /** Of the tombstones of one start, a listing withdraws the newest one that contradicts the one listed session
      with that start. */
  lemma {:induction false} WithdrawnOf(f: Fold, rt: RuntimeId, items: seq<Session>, now: Time, i: nat, t: Tomb)
    requires DistinctIds(items) && i < |items| && f.withdrawn == []
    requires forall j :: 0 <= j < |items| && j != i ==> !SameStart(t.startedAt, items[j].startedAt)
    ensures multiset(DoItems(f, rt, items, now).withdrawn)[t] == multiset(HP.Withdrawn(f.closed, rt, items[i]))[t]
    decreases |items|
  {
    hide Filter, PrematureFor, DoItem, HP.Withdrawn, Premature;
    var init, u := items[..|items| - 1], items[|items| - 1];
    assert items == init + [u];
    NewId(init, u);
    var g := DoItems(f, rt, init, now);
    ItemWithdraws(g, rt, u, now);
    if i == |init| {
      NothingOf(f, rt, init, now, t);
      OtherItems(f, rt, init, now, u);
      WithdrawnFromFilter(f.closed, rt, u);
      WithdrawnFromFilter(g.closed, rt, u);
    } else {
      assert init[i] == items[i] && forall j :: 0 <= j < |init| ==> init[j] == items[j];
      WithdrawnOf(f, rt, init, now, i, t);
      OtherStart(g.closed, rt, u, t);
    }
  }

  lemma ItemWithdraws(g: Fold, rt: RuntimeId, u: Session, now: Time)
    ensures multiset(DoItem(g, rt, u, now).withdrawn) == multiset(g.withdrawn) + multiset(HP.Withdrawn(g.closed, rt, u))
  {
    hide *;
    ItemShape(g, rt, u, now);
    HP.WithdrawFields(g, rt, u);
  }

  lemma OtherStart(closed: seq<Tomb>, rt: RuntimeId, u: Session, t: Tomb)
    requires !SameStart(t.startedAt, u.startedAt)
    ensures multiset(HP.Withdrawn(closed, rt, u))[t] == 0
  {
    hide WithdrawIndex;
    WithdrawRemovesOne(closed, rt, u);
  }

  lemma {:induction false} NothingOf(f: Fold, rt: RuntimeId, items: seq<Session>, now: Time, t: Tomb)
    requires f.withdrawn == [] && forall j :: 0 <= j < |items| ==> !SameStart(t.startedAt, items[j].startedAt)
    ensures multiset(DoItems(f, rt, items, now).withdrawn)[t] == 0
    decreases |items|
  {
    hide DoItem, HP.Withdrawn;
    if items != [] {
      var init, u := items[..|items| - 1], items[|items| - 1];
      assert forall j :: 0 <= j < |init| ==> init[j] == items[j];
      NothingOf(f, rt, init, now, t);
      ItemWithdraws(DoItems(f, rt, init, now), rt, u, now);
      OtherStart(DoItems(f, rt, init, now).closed, rt, u, t);
    }
  }

  /** The tombstones of a start that are not withdrawn: where one listed session has it, all but the newest that
      contradicts that session. */
  function TombsLeft(closed: seq<Tomb>, a: Call, start: Time): seq<Tomb>
  {
    var i := Holder(Some(start), a.items);
    if i >= 0 then Withdraw(closed, a.rt, a.items[i]) else closed
  }

  lemma {:induction false} HolderIs(start: Time, items: seq<Session>)
    ensures var i := Holder(Some(start), items);
            if i >= 0 then items[i].startedAt == Some(start)
            else forall j :: 0 <= j < |items| ==> items[j].startedAt != Some(start)
    decreases |items|
  {
    if items != [] {
      HolderIs(start, items[..|items| - 1]);
    }
  }

  lemma WithdrawCounts(closed: seq<Tomb>, rt: RuntimeId, s: Session, t: Tomb)
    ensures multiset(closed)[t] == multiset(Withdraw(closed, rt, s))[t] + multiset(HP.Withdrawn(closed, rt, s))[t]
  {
    hide Premature;
    var i := WithdrawIndex(closed, rt, s);
    if i >= 0 {
      RemoveAtMultiset(closed, i);
    }
  }

  /** At most one listed session has the start. */
  predicate ListedOnce(a: Call, start: Time)
  {
    forall i, j :: 0 <= i < j < |a.items| ==> !(a.items[i].startedAt == Some(start) && a.items[j].startedAt == Some(start))
  }

  lemma LeftIffNotWithdrawn(seen: Seen, closed: seq<Tomb>, a: Call, order: seq<Key>, start: Time, t: Tomb)
    requires WellFormed(a) && WellKeyed(seen) && Visits(seen, closed, a, order) && t.startedAt == Some(start)
    requires ListedOnce(a, start)
    ensures t in TombsLeft(closed, a, start)
       <==> multiset(closed)[t] > multiset(Observed(seen, closed, a, order).withdrawn)[t]
  {
    hide *;
    var i := Holder(Some(start), a.items);
    var e := DoExits(Begin(seen, closed), a.rt, a.exits);
    CallIds(a);
    ExitsSettled(seen, closed, a.rt, a.exits);
    HP.NothingWithdrawn(seen, closed);
    HP.AfterItemsIs(seen, closed, a);
    HP.RestOfScan(seen, closed, a, order);
    HolderIs(start, a.items);
    TombsLeftIs(closed, a, start);
    assert t in TombsLeft(closed, a, start) <==> multiset(TombsLeft(closed, a, start))[t] > 0;
    if i >= 0 {
      OnlyItem(a, start, i, t);
      WithdrawnOf(e, a.rt, a.items, a.now, i, t);
      ExitsDoNotCount(seen, closed, a, i);
      WithdrawCounts(closed, a.rt, a.items[i], t);
    } else {
      NoItem(a, start, t);
      NothingOf(e, a.rt, a.items, a.now, t);
    }
  }

  lemma CallIds(a: Call)
    requires WellFormed(a)
    ensures DistinctIds(a.items) && DistinctExits(a.exits)
  {
  }

  lemma TombsLeftIs(closed: seq<Tomb>, a: Call, start: Time)
    ensures var i := Holder(Some(start), a.items);
            TombsLeft(closed, a, start) == if i >= 0 then Withdraw(closed, a.rt, a.items[i]) else closed
  {
    hide Withdraw, Holder;
  }

  lemma OnlyItem(a: Call, start: Time, i: nat, t: Tomb)
    requires ListedOnce(a, start) && i < |a.items| && a.items[i].startedAt == Some(start) && t.startedAt == Some(start)
    ensures forall j :: 0 <= j < |a.items| && j != i ==> !SameStart(t.startedAt, a.items[j].startedAt)
  {
  }

  lemma NoItem(a: Call, start: Time, t: Tomb)
    requires (forall j :: 0 <= j < |a.items| ==> a.items[j].startedAt != Some(start)) && t.startedAt == Some(start)
    ensures forall j :: 0 <= j < |a.items| ==> !SameStart(t.startedAt, a.items[j].startedAt)
  {
  }

  /** What exits write is never withdrawn. */
  lemma ExitsDoNotCount(seen: Seen, closed: seq<Tomb>, a: Call, i: nat)
    requires i < |a.items|
    ensures HP.Withdrawn(closed + ExitTombs(seen, a.rt, a.exits), a.rt, a.items[i]) == HP.Withdrawn(closed, a.rt, a.items[i])
  {
    hide *;
    var s, p, tombs := a.items[i], PrematureFor(a.rt, a.items[i]), ExitTombs(seen, a.rt, a.exits);
    HP.ExitsAreNotRelayed(seen, a.rt, a.exits);
    forall t | t in tombs ensures !p(t) {
      ExitIsNotPremature(t, a.rt, s);
    }
    FilterConcat(p, closed, tombs);
    FilterNone(p, tombs);
    assert Filter(p, closed) + [] == Filter(p, closed);
    WithdrawnFromFilter(closed, a.rt, s);
    WithdrawnFromFilter(closed + tombs, a.rt, s);
  }

  lemma ExitIsNotPremature(t: Tomb, rt: RuntimeId, s: Session)
    requires t.closedBy == ByExit
    ensures !PrematureFor(rt, s)(t)
  {
  }

  // ---- carrying ------------------------------------------------------------

  /** The one missing record of its start, when one newly listed session has that start. */
  predicate Lone(seen: Seen, a: Call, k: Key)
  {
    && a.complete && HP.Awaited(seen, a, k) && k in seen
    && Sharing(seen[k].startedAt, HP.NovelTo(seen, a)) == 1
    && forall l :: l in seen && HP.Awaited(seen, a, l) && SameStart(seen[l].startedAt, seen[k].startedAt) ==> l == k
  }

  /** The scan of a complete listing, in terms of the records before it. */
  lemma ScanFacts(seen: Seen, closed: seq<Tomb>, a: Call, order: seq<Key>)
    requires WellFormed(a) && WellKeyed(seen) && Visits(seen, closed, a, order) && a.complete
    ensures var f, o := AfterItems(seen, closed, a), Observed(seen, closed, a, order);
            var g := ScanAll(f, Context(a), order);
            && ReadyToScan(f, Context(a)) && Covers(f, Context(a), order)
            && f.novel == HP.NovelTo(seen, a) && o.carried == g.carried && o.ended == g.ended
  {
    hide *;
    ItemsAfterExits(seen, closed, a);
    ObservedShape(seen, closed, a, order);
    NovelIs(seen, a);
  }

  lemma NovelIs(seen: Seen, a: Call)
    ensures HP.NovelTo(seen, a) == Filter(UnknownTo(seen - ExitKeys(a.rt, a.exits), a.rt), a.items)
  {
    hide Filter, ExitKeys, UnknownTo;
  }

  lemma CarriedOrEnded(seen: Seen, closed: seq<Tomb>, a: Call, order: seq<Key>, k: Key)
    requires WellFormed(a) && WellKeyed(seen) && Visits(seen, closed, a, order) && a.complete && HP.Awaited(seen, a, k)
    ensures var o := Observed(seen, closed, a, order);
            && k in seen && (k in o.carried <==> k !in o.ended)
            && (k in o.carried ==>
                  && Sharing(seen[k].startedAt, HP.NovelTo(seen, a)) == 1
                  && var h := Holder(seen[k].startedAt, HP.NovelTo(seen, a));
                     h >= 0 && o.carried[k] == HP.NovelTo(seen, a)[h])
  {
    hide *;
    ScanFacts(seen, closed, a, order);
    var f := AfterItems(seen, closed, a);
    var g := ScanAll(f, Context(a), order);
    HP.AwaitedIsJudged(seen, closed, a, k);
    ScanConserves(f, Context(a), order);
    if k in g.carried {
      DeservedIs(f, g, k);
      CarriedToHolder(f, Context(a), g, k);
    }
  }

  lemma DeservedIs(f: Fold, g: Fold, k: Key)
    requires Deserved(f, g) && k in g.carried && k in f.seen
    ensures Sharing(f.seen[k].startedAt, f.novel) == 1
  {
    hide Sharing;
  }

  lemma EndedWasAwaited(seen: Seen, closed: seq<Tomb>, a: Call, order: seq<Key>, k: Key)
    requires WellFormed(a) && WellKeyed(seen) && Visits(seen, closed, a, order)
    requires k in Observed(seen, closed, a, order).ended
    ensures a.complete && HP.Awaited(seen, a, k)
  {
    hide *;
    var f, g := AfterItems(seen, closed, a), Scanned(seen, closed, a, order);
    ItemsAfterExits(seen, closed, a);
    ObservedShape(seen, closed, a, order);
    ScannedFacts(f, Context(a), a.complete, order, g);
    EndedWhenComplete(f, Context(a), g, a, order, k);
    HP.AwaitedIsJudged(seen, closed, a, k);
  }

  lemma EndedWhenComplete(f: Fold, c: Ctx, g: Fold, a: Call, order: seq<Key>, k: Key)
    requires Fates(f, c, g) && ReadyToScan(f, c) && g == (if a.complete then ScanAll(f, c, order) else f) && k in g.ended
    ensures a.complete && Judged(f, c, k)
  {
    hide Judged, ScanAll;
  }

  /** An unexplained or contested start: one of its missing records is ended. */
  lemma NotLoneEnds(seen: Seen, closed: seq<Tomb>, a: Call, order: seq<Key>, k: Key) returns (l: Key)
    requires WellFormed(a) && WellKeyed(seen) && Visits(seen, closed, a, order)
    requires a.complete && HP.Awaited(seen, a, k) && k in seen && seen[k].startedAt.Some? && !Lone(seen, a, k)
    ensures l in seen && l in Observed(seen, closed, a, order).ended && l.runtime == a.rt && seen[l].startedAt == seen[k].startedAt
  {
    hide *;
    CarriedOrEnded(seen, closed, a, order, k);
    var o := Observed(seen, closed, a, order);
    AwaitedIs(seen, a, k);
    l := k;
    if k in o.carried {
      l := RivalOf(seen, a, k);
      CarriedOrEnded(seen, closed, a, order, l);
      AwaitedIs(seen, a, l);
      if l in o.carried {
        ScanFacts(seen, closed, a, order);
        ScanConserves(AfterItems(seen, closed, a), Context(a), order);
        var f := AfterItems(seen, closed, a);
        HP.AwaitedIsJudged(seen, closed, a, k);
        HP.AwaitedIsJudged(seen, closed, a, l);
        TwoIds(f, Context(a), ScanAll(f, Context(a), order), k, l);
      }
    }
  }

  lemma RivalOf(seen: Seen, a: Call, k: Key) returns (l: Key)
    requires a.complete && HP.Awaited(seen, a, k) && k in seen && !Lone(seen, a, k)
    requires Sharing(seen[k].startedAt, HP.NovelTo(seen, a)) == 1
    ensures l in seen && HP.Awaited(seen, a, l) && l != k && seen[l].startedAt == seen[k].startedAt
  {
    hide HP.Awaited, HP.NovelTo, Sharing;
    l :| l in seen && HP.Awaited(seen, a, l) && SameStart(seen[l].startedAt, seen[k].startedAt) && l != k;
  }

  lemma TwoIds(f: Fold, c: Ctx, g: Fold, k: Key, l: Key)
    requires Fates(f, c, g) && k in g.carried && l in g.carried && k != l
    ensures g.carried[k] != g.carried[l]
  {
    hide Judged;
  }

  lemma LoneIsCarried(seen: Seen, closed: seq<Tomb>, a: Call, order: seq<Key>, k: Key)
    requires WellFormed(a) && WellKeyed(seen) && Visits(seen, closed, a, order) && Lone(seen, a, k)
    ensures k in Observed(seen, closed, a, order).carried && k !in Observed(seen, closed, a, order).ended
  {
    hide *;
    LoneIs(seen, a, k);
    CarriedOrEnded(seen, closed, a, order, k);
    if k in Observed(seen, closed, a, order).ended {
      ScanFacts(seen, closed, a, order);
      var f := AfterItems(seen, closed, a);
      var g := ScanAll(f, Context(a), order);
      EndedHadNone(f, Context(a), order);
      ScanConserves(f, Context(a), order);
      HP.AwaitedIsJudged(seen, closed, a, k);
      var l := CarriedRival(f, Context(a), g, k);
      HP.AwaitedIsJudged(seen, closed, a, l);
      LoneAmong(seen, a, k, l);
    }
  }

  lemma LoneIs(seen: Seen, a: Call, k: Key)
    requires Lone(seen, a, k)
    ensures a.complete && HP.Awaited(seen, a, k) && k in seen && Sharing(seen[k].startedAt, HP.NovelTo(seen, a)) == 1
  {
    hide HP.Awaited, HP.NovelTo, Sharing;
  }

  lemma LoneAmong(seen: Seen, a: Call, k: Key, l: Key)
    requires Lone(seen, a, k) && l in seen && HP.Awaited(seen, a, l) && SameStart(seen[l].startedAt, seen[k].startedAt)
    ensures l == k
  {
    hide HP.Awaited, HP.NovelTo, Sharing;
  }

  lemma CarriedRival(f: Fold, c: Ctx, g: Fold, k: Key) returns (l: Key)
    requires Fates(f, c, g) && k in g.ended && k in f.seen && EndedFairly(f, g, k) && Sharing(f.seen[k].startedAt, f.novel) == 1
    ensures l in g.carried && l in f.seen && l != k && Judged(f, c, l) && SameStart(f.seen[l].startedAt, f.seen[k].startedAt)
  {
    hide Judged, Sharing;
    l :| l in g.carried && l in f.seen && SameStart(f.seen[l].startedAt, f.seen[k].startedAt);
  }

  // ---- records -------------------------------------------------------------

  lemma ListedNotExited(a: Call, i: nat)
    requires WellFormed(a) && i < |a.items|
    ensures Key(a.rt, a.items[i].id) !in ExitKeys(a.rt, a.exits)
  {
    Here(a.items, i);
  }

  lemma SameItem(a: Call, i: nat, j: nat)
    requires WellFormed(a) && i < |a.items| && j < |a.items| && a.items[i].id == a.items[j].id
    ensures i == j
  {
  }

  lemma UpdatedStarts(r: Rec, s: Session, now: Time)
    ensures Updated(r, s, now).lastSeen >= now
    ensures s.startedAt.Some? ==> Updated(r, s, now).startedAt == s.startedAt
    ensures !Recycles(r, s) && r.startedAt.Some? ==> Updated(r, s, now).startedAt == r.startedAt
  {
  }

  lemma NewRecIs(s: Session, now: Time)
    ensures NewRec(s, now).startedAt == s.startedAt && NewRec(s, now).lastSeen == now
  {
  }

  lemma RenamedIs(r: Rec, s: Session)
    ensures Renamed(r, s).startedAt == r.startedAt && Renamed(r, s).lastSeen == r.lastSeen && Renamed(r, s).id == s.id
  {
  }

  lemma NovelItem(seen: Seen, a: Call, i: nat)
    requires i < |a.items| && Key(a.rt, a.items[i].id) !in seen
    ensures a.items[i] in Filter(UnknownTo(seen - ExitKeys(a.rt, a.exits), a.rt), a.items)
  {
    hide ExitKeys, Filter;
    FilterMembers(UnknownTo(seen - ExitKeys(a.rt, a.exits), a.rt), a.items);
  }

  lemma AwaitedIs(seen: Seen, a: Call, q: Key)
    requires HP.Awaited(seen, a, q)
    ensures q in seen && q.runtime == a.rt && q !in ExitKeys(a.rt, a.exits) && !Present(a.items, q.id)
  {
    hide ExitKeys, Present;
  }

  /** Where a record left by a listing comes from. */
  datatype Origin = Stayed | Sighted(item: nat) | Met(item: nat) | Carried(from: Key)

  predicate ComesFrom(seen: Seen, a: Call, o: Fold, q: Key, origin: Origin)
    requires q in o.seen
  {
    match origin
    case Stayed =>
      q in seen && q !in ExitKeys(a.rt, a.exits) && !(q.runtime == a.rt && Present(a.items, q.id)) && o.seen[q] == seen[q]
    case Sighted(i) =>
      i < |a.items| && q == Key(a.rt, a.items[i].id) && q in seen && o.seen[q] == Updated(seen[q], a.items[i], a.now)
    case Met(i) =>
      i < |a.items| && q == Key(a.rt, a.items[i].id) && q !in seen && o.seen[q] == NewRec(a.items[i], a.now)
    case Carried(l) =>
      && l in seen && a.complete && HP.Awaited(seen, a, l) && l in o.carried && q == Key(a.rt, o.carried[l].id)
      && o.seen[q] == Renamed(seen[l], o.carried[l])
  }

  lemma SeenFrom(seen: Seen, closed: seq<Tomb>, a: Call, order: seq<Key>, q: Key) returns (origin: Origin)
    requires WellFormed(a) && WellKeyed(seen) && Visits(seen, closed, a, order) && q in Observed(seen, closed, a, order).seen
    ensures ComesFrom(seen, a, Observed(seen, closed, a, order), q, origin)
  {
    hide *;
    var f, g, o := AfterItems(seen, closed, a), Scanned(seen, closed, a, order), Observed(seen, closed, a, order);
    ItemsAfterExits(seen, closed, a);
    ObservedShape(seen, closed, a, order);
    ScannedFacts(f, Context(a), a.complete, order, g);
    ContextIs(a);
    LeftOver(f, Context(a), g);
    SightNovel(g.seen, a.rt, g.novel, a.now);
    if q !in g.seen {
      origin := MetOne(seen, f, g, o, a, q);
    } else if q in f.seen {
      UntouchedAt(f, g, q);
      origin := UpdatedOrStayed(seen, f, o, a, q);
    } else {
      var l := MovedFrom(f, Context(a), g, q);
      CarriedWhenComplete(f, Context(a), g, a, order, l);
      HP.AwaitedIsJudged(seen, closed, a, l);
      origin := Carried(l);
      CarriedIs(seen, a, o, q, l);
    }
  }

  lemma MetOne(seen: Seen, f: Fold, g: Fold, o: Fold, a: Call, q: Key) returns (origin: Origin)
    requires q in o.seen && q !in g.seen && q.runtime == a.rt && Present(g.novel, q.id) && Unclaimed(f, g) && WellFormed(a)
    requires f.novel == Filter(UnknownTo(seen - ExitKeys(a.rt, a.exits), a.rt), a.items)
    requires forall i :: 0 <= i < |g.novel| ==> Key(a.rt, g.novel[i].id) in o.seen && o.seen[Key(a.rt, g.novel[i].id)] == NewRec(g.novel[i], a.now)
    ensures ComesFrom(seen, a, o, q, origin)
  {
    hide Filter, ExitKeys, NewRec, Updated, Renamed, HP.Awaited;
    var n :| 0 <= n < |g.novel| && g.novel[n].id == q.id;
    FilterMembers(UnknownTo(seen - ExitKeys(a.rt, a.exits), a.rt), a.items);
    assert g.novel[n] in f.novel;
    var i :| 0 <= i < |a.items| && a.items[i] == g.novel[n];
    ListedNotExited(a, i);
    origin := Met(i);
  }

  lemma UntouchedAt(f: Fold, g: Fold, q: Key)
    requires Untouched(f, g) && q in f.seen && q in g.seen
    ensures g.seen[q] == f.seen[q]
  {
  }

  lemma UpdatedOrStayed(seen: Seen, f: Fold, o: Fold, a: Call, q: Key) returns (origin: Origin)
    requires SeenUpdated(seen - ExitKeys(a.rt, a.exits), f.seen, a.rt, a.items, a.now)
    requires q in f.seen && q in o.seen && o.seen[q] == f.seen[q]
    ensures ComesFrom(seen, a, o, q, origin)
  {
    hide ExitKeys, NewRec, Updated, Renamed, HP.Awaited;
    if q.runtime == a.rt && Present(a.items, q.id) {
      var i :| 0 <= i < |a.items| && a.items[i].id == q.id;
      assert Key(a.rt, a.items[i].id) == q;
      origin := Sighted(i);
    } else {
      origin := Stayed;
    }
  }

  lemma MovedFrom(f: Fold, c: Ctx, g: Fold, q: Key) returns (l: Key)
    requires Moved(f, c, g) && q in g.seen && q !in f.seen
    ensures l in g.carried && l in f.seen && q == Key(c.rt, g.carried[l].id) && g.seen[q] == Renamed(f.seen[l], g.carried[l])
  {
    hide Renamed;
    l :| l in g.carried && q == Key(c.rt, g.carried[l].id);
    assert MovedTo(f, g, l, Key(c.rt, g.carried[l].id));
  }

  lemma CarriedWhenComplete(f: Fold, c: Ctx, g: Fold, a: Call, order: seq<Key>, l: Key)
    requires Fates(f, c, g) && ReadyToScan(f, c) && g == (if a.complete then ScanAll(f, c, order) else f) && l in g.carried
    ensures a.complete && Judged(f, c, l)
  {
    hide Judged, ScanAll;
  }

  lemma CarriedIs(seen: Seen, a: Call, o: Fold, q: Key, l: Key)
    requires q in o.seen && l in seen && a.complete && HP.Awaited(seen, a, l) && l in o.carried && q == Key(a.rt, o.carried[l].id)
    requires o.seen[q] == Renamed(seen[l], o.carried[l])
    ensures ComesFrom(seen, a, o, q, Carried(l))
  {
    hide Renamed, HP.Awaited;
  }

  /** What is left of a listed session: a record of its run, sighted now unless it was carried to it. */
  lemma ListedIsKept(seen: Seen, closed: seq<Tomb>, a: Call, order: seq<Key>, i: nat) returns (from: Option<Key>)
    requires WellFormed(a) && WellKeyed(seen) && Visits(seen, closed, a, order) && i < |a.items|
    ensures var o, k := Observed(seen, closed, a, order), Key(a.rt, a.items[i].id);
            && k in o.seen && (a.items[i].startedAt.Some? ==> o.seen[k].startedAt == a.items[i].startedAt)
            && match from
               case None => o.seen[k].lastSeen >= a.now
               case Some(q) =>
                 && k !in seen && q in seen && a.complete && HP.Awaited(seen, a, q) && q in o.carried
                 && o.carried[q] == a.items[i] && o.seen[k] == Renamed(seen[q], a.items[i])
  {
    hide *;
    var o, k := Observed(seen, closed, a, order), Key(a.rt, a.items[i].id);
    Here(a.items, i);
    ListedNotExited(a, i);
    ListedIsSeen(seen, closed, a, order, i);
    var origin := SeenFrom(seen, closed, a, order, k);
    from := FromOrigin(seen, a, o, i, origin);
    if from.Some? {
      CarriedOrEnded(seen, closed, a, order, from.value);
      CarriedItem(seen, a, o, i, from.value);
      CarriedStart(seen, closed, a, order, from.value);
    }
  }

  lemma ListedIsSeen(seen: Seen, closed: seq<Tomb>, a: Call, order: seq<Key>, i: nat)
    requires WellFormed(a) && WellKeyed(seen) && Visits(seen, closed, a, order) && i < |a.items|
    ensures Key(a.rt, a.items[i].id) in Observed(seen, closed, a, order).seen
  {
    hide *;
    var f, g, k := AfterItems(seen, closed, a), Scanned(seen, closed, a, order), Key(a.rt, a.items[i].id);
    Here(a.items, i);
    ListedNotExited(a, i);
    if k in seen {
      EveryRecordHasOneFate(seen, closed, a, order, k);
    } else {
      ItemsAfterExits(seen, closed, a);
      NovelItem(seen, a, i);
      ObservedShape(seen, closed, a, order);
      ScannedFacts(f, Context(a), a.complete, order, g);
      ContextIs(a);
      LeftOver(f, Context(a), g);
      SightNovel(g.seen, a.rt, g.novel, a.now);
      if a.items[i] !in g.novel {
        ClaimedIsSeen(f, Context(a), g, a.items[i]);
      } else {
        var n :| 0 <= n < |g.novel| && g.novel[n] == a.items[i];
      }
    }
  }

  lemma ClaimedIsSeen(f: Fold, c: Ctx, g: Fold, s: Session)
    requires Moved(f, c, g) && Unclaimed(f, g) && s in f.novel && s !in g.novel
    ensures Key(c.rt, s.id) in g.seen
  {
    hide Renamed;
    var q :| q in g.carried && g.carried[q] == s;
    assert MovedTo(f, g, q, Key(c.rt, g.carried[q].id));
  }

  lemma FromOrigin(seen: Seen, a: Call, o: Fold, i: nat, origin: Origin) returns (from: Option<Key>)
    requires WellFormed(a) && i < |a.items| && Key(a.rt, a.items[i].id) in o.seen && Present(a.items, a.items[i].id)
    requires ComesFrom(seen, a, o, Key(a.rt, a.items[i].id), origin)
    ensures var k := Key(a.rt, a.items[i].id);
            match from
            case None =>
              o.seen[k].lastSeen >= a.now && (a.items[i].startedAt.Some? ==> o.seen[k].startedAt == a.items[i].startedAt)
            case Some(q) =>
              && q in seen && a.complete && HP.Awaited(seen, a, q) && q in o.carried
              && k == Key(a.rt, o.carried[q].id) && o.seen[k] == Renamed(seen[q], o.carried[q])
  {
    hide ExitKeys, Renamed, HP.Awaited, Recycles;
    from := None;
    match origin {
      case Stayed =>
      case Sighted(j) => SameItem(a, i, j); UpdatedStarts(seen[Key(a.rt, a.items[i].id)], a.items[i], a.now);
      case Met(j) => SameItem(a, i, j); NewRecIs(a.items[i], a.now);
      case Carried(l) => from := Some(l);
    }
  }

  lemma CarriedItem(seen: Seen, a: Call, o: Fold, i: nat, q: Key)
    requires WellFormed(a) && i < |a.items| && q in seen && q in o.carried && Key(a.rt, a.items[i].id) == Key(a.rt, o.carried[q].id)
    requires var h := Holder(seen[q].startedAt, HP.NovelTo(seen, a)); h >= 0 && o.carried[q] == HP.NovelTo(seen, a)[h]
    ensures o.carried[q] == a.items[i] && Key(a.rt, a.items[i].id) !in seen && SameStart(a.items[i].startedAt, seen[q].startedAt)
  {
    hide Filter, ExitKeys;
    var novel := HP.NovelTo(seen, a);
    FilterMembers(UnknownTo(seen - ExitKeys(a.rt, a.exits), a.rt), a.items);
    assert o.carried[q] in novel;
    var j :| 0 <= j < |a.items| && a.items[j] == o.carried[q];
    SameItem(a, i, j);
    ListedNotExited(a, i);
  }

  lemma CarriedStart(seen: Seen, closed: seq<Tomb>, a: Call, order: seq<Key>, q: Key)
    requires q in seen && q in Observed(seen, closed, a, order).carried
    requires SameStart(Observed(seen, closed, a, order).carried[q].startedAt, seen[q].startedAt)
    ensures var o := Observed(seen, closed, a, order);
            Renamed(seen[q], o.carried[q]).startedAt == o.carried[q].startedAt
  {
    hide Observed;
  }

  /** The one newly listed session of a lone record's start is where the record is carried. */
  lemma LoneTarget(seen: Seen, closed: seq<Tomb>, a: Call, order: seq<Key>, k: Key, i: nat)
    requires WellFormed(a) && WellKeyed(seen) && Visits(seen, closed, a, order) && Lone(seen, a, k)
    requires i < |a.items| && Key(a.rt, a.items[i].id) !in seen && SameStart(a.items[i].startedAt, seen[k].startedAt)
    ensures k in Observed(seen, closed, a, order).carried && Observed(seen, closed, a, order).carried[k] == a.items[i]
    ensures Key(a.rt, a.items[i].id) in Observed(seen, closed, a, order).seen
    ensures Observed(seen, closed, a, order).seen[Key(a.rt, a.items[i].id)] == Renamed(seen[k], a.items[i])
  {
    hide *;
    LoneIs(seen, a, k);
    LoneIsCarried(seen, closed, a, order, k);
    CarriedOrEnded(seen, closed, a, order, k);
    NovelItem(seen, a, i);
    NovelIs(seen, a);
    OnlyNovel(seen[k].startedAt, HP.NovelTo(seen, a), a.items[i]);
    AwaitedIs(seen, a, k);
    EveryRecordHasOneFate(seen, closed, a, order, k);
    AwaitedSeen(seen, a, k);
  }

  lemma AwaitedSeen(seen: Seen, a: Call, k: Key)
    requires HP.Awaited(seen, a, k)
    ensures k in seen && seen[k].lastSeen < a.listedAt
  {
    hide ExitKeys, Present;
  }

  lemma OnlyNovel(start: Option<Time>, novel: seq<Session>, s: Session)
    requires Sharing(start, novel) == 1 && s in novel && SameStart(s.startedAt, start)
    ensures Holder(start, novel) >= 0 && novel[Holder(start, novel)] == s
  {
    var n :| 0 <= n < |novel| && novel[n] == s;
    SharingSome(start, novel, n);
  }

  lemma TakenOverLeavesTomb(seen: Seen, closed: seq<Tomb>, a: Call, order: seq<Key>, k: Key, i: nat)
    requires WellFormed(a) && WellKeyed(seen) && Visits(seen, closed, a, order) && k in seen && k !in ExitKeys(a.rt, a.exits)
    requires i < |a.items| && k == Key(a.rt, a.items[i].id) && Recycles(seen[k], a.items[i])
    ensures Absent(k, seen[k], a.now) in Observed(seen, closed, a, order).closed
  {
    hide *;
    HP.RecycledBefore(seen, closed, a);
    HP.RestOfScan(seen, closed, a, order);
    IsTakenOver(seen, a, k, i);
    EndedLeavesTomb(seen, closed, a, order, k);
  }

  lemma IsTakenOver(seen: Seen, a: Call, k: Key, i: nat)
    requires k in seen && k !in ExitKeys(a.rt, a.exits)
    requires i < |a.items| && k == Key(a.rt, a.items[i].id) && Recycles(seen[k], a.items[i])
    ensures HP.TakenOver(seen, a, k)
  {
    hide Recycles, ExitKeys;
  }
}
