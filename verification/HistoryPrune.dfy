// Pruning the seen records early (internal/service/history.go): what a listing then writes that it would
// not have written, or does not write that it would have. Pruning tombstones early shows nowhere.
module HistoryPrune {
  import opened Fleet
  import opened Seqs
  import opened HistorySpec
  import opened HistoryScan
  import opened HistoryObserve

  // ---- what a call leaves behind, from the state before it -----------------

  /** The listed sessions without a record, once the exits are taken. */
  function NovelTo(seen: Seen, a: Call): seq<Session>
  {
    Filter(UnknownTo(seen - ExitKeys(a.rt, a.exits), a.rt), a.items)
  }

  /** What the scan of a complete listing judges. */
  predicate Awaited(seen: Seen, a: Call, k: Key)
  {
    k !in ExitKeys(a.rt, a.exits) && Missing(seen, a.rt, a.items, a.listedAt, k)
  }

  /** The record's id is listed for a session of another start. */
  ghost predicate TakenOver(seen: Seen, a: Call, k: Key)
  {
    && k in seen && k !in ExitKeys(a.rt, a.exits)
    && exists i :: 0 <= i < |a.items| && k == Key(a.rt, a.items[i].id) && Recycles(seen[k], a.items[i])
  }

  /** The record is missing from a complete listing that no one newly listed session explains. */
  predicate Ends(seen: Seen, a: Call, k: Key)
  {
    a.complete && Awaited(seen, a, k) && Sharing(seen[k].startedAt, NovelTo(seen, a)) != 1
  }

  ghost predicate LeavesTomb(seen: Seen, a: Call, k: Key)
  {
    TakenOver(seen, a, k) || Ends(seen, a, k)
  }

  function AbsenceTombs(seen: Seen, closed: seq<Tomb>, a: Call, order: seq<Key>): seq<Key>
  {
    Observed(seen, closed, a, order).recycled + Observed(seen, closed, a, order).ended
  }

  lemma AwaitedIsJudged(seen: Seen, closed: seq<Tomb>, a: Call, k: Key)
    requires WellFormed(a) && WellKeyed(seen)
    ensures var f := AfterItems(seen, closed, a);
            && (Judged(f, Context(a), k) <==> Awaited(seen, a, k))
            && (Awaited(seen, a, k) ==> k in f.seen && k in seen && f.seen[k] == seen[k])
  {
    hide AfterItems, ReadyToScan, Tombs, ExitTombs, ExitKeys, Present, UnknownTo, Updated;
    ItemsAfterExits(seen, closed, a);
  }

  lemma RecycledBefore(seen: Seen, closed: seq<Tomb>, a: Call)
    requires WellFormed(a) && WellKeyed(seen)
    ensures var f := AfterItems(seen, closed, a);
            Distinct(f.recycled) && forall k :: k in f.recycled <==> TakenOver(seen, a, k)
  {
    hide DoItems, DoExits, Tombs, ExitTombs, ExitKeys, Recycles, TombsBalance;
    ExitsSettled(seen, closed, a.rt, a.exits);
    ItemTombs(DoExits(Begin(seen, closed), a.rt, a.exits), a.rt, a.items, a.now);
  }

  /** Where the tombstones are the records' alone: each absence tombstone is a record's that its id's new
      session took over, or that nothing explains. */
  lemma AbsenceTombsAre(seen: Seen, closed: seq<Tomb>, a: Call, order: seq<Key>)
    requires WellFormed(a) && WellKeyed(seen) && Visits(seen, closed, a, order)
    requires a.complete ==> Unambiguous(AfterItems(seen, closed, a), Context(a))
    ensures var gone := AbsenceTombs(seen, closed, a, order);
            && Distinct(gone) && (forall k :: k in gone <==> LeavesTomb(seen, a, k))
            && multiset(Observed(seen, closed, a, order).closed) + multiset(Observed(seen, closed, a, order).withdrawn)
               == multiset(closed) + multiset(ExitTombs(seen, a.rt, a.exits)) + multiset(Tombs(seen, gone, a.now))
  {
    hide *;
    var o := Observed(seen, closed, a, order);
    TombstonesBalance(seen, closed, a, order);
    TombsConcat(seen, o.recycled, o.ended, a.now);
    RecycledBefore(seen, closed, a);
    RestOfScan(seen, closed, a, order);
    EndedBefore(seen, closed, a, order);
    GoneIs(seen, a, o.recycled, o.ended, closed, order);
  }

  lemma RestOfScan(seen: Seen, closed: seq<Tomb>, a: Call, order: seq<Key>)
    requires Visits(seen, closed, a, order)
    ensures var f, o := AfterItems(seen, closed, a), Observed(seen, closed, a, order);
            o.recycled == f.recycled && o.withdrawn == f.withdrawn
  {
    hide *;
    ObservedShape(seen, closed, a, order);
    ScanKeepsRest(AfterItems(seen, closed, a), Context(a), order);
  }

  lemma EndedBefore(seen: Seen, closed: seq<Tomb>, a: Call, order: seq<Key>)
    requires WellFormed(a) && WellKeyed(seen) && Visits(seen, closed, a, order)
    requires a.complete ==> Unambiguous(AfterItems(seen, closed, a), Context(a))
    ensures forall k :: k in Observed(seen, closed, a, order).ended <==> Ends(seen, a, k)
  {
    hide *;
    var f, o := AfterItems(seen, closed, a), Observed(seen, closed, a, order);
    ItemsAfterExits(seen, closed, a);
    ObservedShape(seen, closed, a, order);
    TombstonesBalance(seen, closed, a, order);
    if a.complete {
      FatesDetermined(f, Context(a), order);
    }
    forall k ensures k in o.ended <==> Ends(seen, a, k) {
      AwaitedIsJudged(seen, closed, a, k);
      EndsIs(seen, a, k);
      JudgedIsSeen(f, Context(a), k);
    }
  }

  lemma EndsIs(seen: Seen, a: Call, k: Key)
    ensures Awaited(seen, a, k) ==> k in seen
    ensures Ends(seen, a, k)
       <==> a.complete && Awaited(seen, a, k)
            && Sharing(seen[k].startedAt, Filter(UnknownTo(seen - ExitKeys(a.rt, a.exits), a.rt), a.items)) != 1
  {
    hide Sharing, Filter, UnknownTo, ExitKeys, Present;
  }

  lemma GoneIs(seen: Seen, a: Call, recycled: seq<Key>, ended: seq<Key>, closed: seq<Tomb>, order: seq<Key>)
    requires recycled == Observed(seen, closed, a, order).recycled && ended == Observed(seen, closed, a, order).ended
    requires Distinct(recycled) && Distinct(ended)
    requires forall k :: k in recycled <==> TakenOver(seen, a, k)
    requires forall k :: k in ended <==> Ends(seen, a, k)
    ensures AbsenceTombs(seen, closed, a, order) == recycled + ended
    ensures Distinct(recycled + ended) && forall k :: k in recycled + ended <==> LeavesTomb(seen, a, k)
  {
    hide Observed, TakenOver, Ends;
    forall k | k in recycled && k in ended ensures false {
      NotBoth(seen, a, k);
    }
    forall i, j | 0 <= i < j < |recycled + ended| ensures (recycled + ended)[i] != (recycled + ended)[j] {
      if i < |recycled| <= j {
        assert recycled[i] in recycled && ended[j - |recycled|] in ended;
      }
    }
  }

  lemma NotBoth(seen: Seen, a: Call, k: Key)
    ensures !(TakenOver(seen, a, k) && Ends(seen, a, k))
  {
    hide Recycles, Sharing, NovelTo;
    if TakenOver(seen, a, k) {
      var i :| 0 <= i < |a.items| && k == Key(a.rt, a.items[i].id);
      Here(a.items, i);
    }
  }

  // ---- withdrawing looks at relayed closes alone ---------------------------

  function Relayed(): Tomb -> bool
  {
    (t: Tomb) => t.closedBy == ByClose
  }

  /** The tombstone a withdrawal takes. */
  function Withdrawn(closed: seq<Tomb>, rt: RuntimeId, s: Session): seq<Tomb>
  {
    var i := WithdrawIndex(closed, rt, s);
    if i < 0 then [] else [closed[i]]
  }

  lemma WithdrawnSnoc(init: seq<Tomb>, last: Tomb, rt: RuntimeId, s: Session)
    ensures Withdrawn(init + [last], rt, s) == if Premature(last, rt, s) then [last] else Withdrawn(init, rt, s)
  {
    hide Premature;
    assert (init + [last])[..|init|] == init;
  }

  lemma {:induction false} WithdrawCommutes(closed: seq<Tomb>, rt: RuntimeId, s: Session)
    ensures Filter(Relayed(), Withdraw(closed, rt, s)) == Withdraw(Filter(Relayed(), closed), rt, s)
    ensures Withdrawn(Filter(Relayed(), closed), rt, s) == Withdrawn(closed, rt, s)
    decreases |closed|
  {
    hide *;
    if closed == [] {
      WithdrawFromNone(rt, s);
    } else {
      var init, last := closed[..|closed| - 1], closed[|closed| - 1];
      assert closed == init + [last];
      WithdrawCommutes(init, rt, s);
      FilterSnoc(Relayed(), init, last);
      FilterSnoc(Relayed(), Withdraw(init, rt, s), last);
      WithdrawSnoc(init, last, rt, s);
      WithdrawnSnoc(init, last, rt, s);
      WithdrawSnoc(Filter(Relayed(), init), last, rt, s);
      WithdrawnSnoc(Filter(Relayed(), init), last, rt, s);
      PrematureIsRelayed(last, rt, s);
    }
  }

  lemma WithdrawFromNone(rt: RuntimeId, s: Session)
    ensures Filter(Relayed(), []) == [] && Withdraw([], rt, s) == [] && Withdrawn([], rt, s) == []
  {
  }

  lemma PrematureIsRelayed(t: Tomb, rt: RuntimeId, s: Session)
    ensures Premature(t, rt, s) ==> Relayed()(t)
  {
  }

  /** Two folds with the same relayed closes, and the same ones withdrawn. */
  predicate SameCloses(f: Fold, g: Fold)
  {
    Filter(Relayed(), f.closed) == Filter(Relayed(), g.closed) && f.withdrawn == g.withdrawn
  }

  lemma ItemSameCloses(f: Fold, g: Fold, rt: RuntimeId, s: Session, now: Time)
    requires SameCloses(f, g)
    ensures SameCloses(DoItem(f, rt, s, now), DoItem(g, rt, s, now))
  {
    hide *;
    ItemCloses(f, rt, s, now);
    ItemCloses(g, rt, s, now);
    CloseParts(f, g);
    WithdrawCommutes(f.closed, rt, s);
    WithdrawCommutes(g.closed, rt, s);
    CloseWhole(DoItem(f, rt, s, now), DoItem(g, rt, s, now));
  }

  lemma CloseParts(f: Fold, g: Fold)
    requires SameCloses(f, g)
    ensures Filter(Relayed(), f.closed) == Filter(Relayed(), g.closed) && f.withdrawn == g.withdrawn
  {
    hide Filter, Relayed;
  }

  lemma CloseWhole(f: Fold, g: Fold)
    requires Filter(Relayed(), f.closed) == Filter(Relayed(), g.closed) && f.withdrawn == g.withdrawn
    ensures SameCloses(f, g)
  {
    hide Filter, Relayed;
  }

  lemma ItemCloses(f: Fold, rt: RuntimeId, s: Session, now: Time)
    ensures var g := DoItem(f, rt, s, now);
            && Filter(Relayed(), g.closed) == Filter(Relayed(), Withdraw(f.closed, rt, s))
            && g.withdrawn == f.withdrawn + Withdrawn(f.closed, rt, s)
  {
    hide *;
    ItemShape(f, rt, s, now);
    WithdrawFields(f, rt, s);
    var k, w := Key(rt, s.id), DoWithdraw(f, rt, s);
    if k in f.seen && Recycles(f.seen[k], s) {
      FilterSnoc(Relayed(), w.closed, Absent(k, f.seen[k], now));
      AbsenceIsNotRelayed(k, f.seen[k], now);
    }
  }

  lemma WithdrawFields(f: Fold, rt: RuntimeId, s: Session)
    ensures var w := DoWithdraw(f, rt, s);
            w.closed == Withdraw(f.closed, rt, s) && w.withdrawn == f.withdrawn + Withdrawn(f.closed, rt, s)
  {
    hide WithdrawIndex;
    assert f.withdrawn + [] == f.withdrawn;
  }

  lemma AbsenceIsNotRelayed(k: Key, r: Rec, now: Time)
    ensures !Relayed()(Absent(k, r, now)) && Absent(k, r, now).closedBy == ByAbsent
  {
  }

  lemma {:induction false} ItemsSameCloses(f: Fold, g: Fold, rt: RuntimeId, items: seq<Session>, now: Time)
    requires SameCloses(f, g)
    ensures SameCloses(DoItems(f, rt, items, now), DoItems(g, rt, items, now))
    decreases |items|
  {
    hide SameCloses, DoItem;
    if items != [] {
      ItemsSameCloses(f, g, rt, items[..|items| - 1], now);
      ItemSameCloses(DoItems(f, rt, items[..|items| - 1], now), DoItems(g, rt, items[..|items| - 1], now), rt,
                     items[|items| - 1], now);
    }
  }

  lemma {:induction false} ExitsAreNotRelayed(seen: Seen, rt: RuntimeId, exits: seq<Exit>)
    ensures forall t :: t in ExitTombs(seen, rt, exits) ==> t.closedBy == ByExit
    decreases |exits|
  {
    if exits != [] {
      ExitsAreNotRelayed(seen, rt, exits[..|exits| - 1]);
    }
  }

  /** What a listing withdraws does not depend on the seen records. */
  lemma WithdrawnIgnoresSeen(s1: Seen, s2: Seen, closed: seq<Tomb>, a: Call, o1: seq<Key>, o2: seq<Key>)
    requires DistinctExits(a.exits) && Visits(s1, closed, a, o1) && Visits(s2, closed, a, o2)
    ensures Observed(s1, closed, a, o1).withdrawn == Observed(s2, closed, a, o2).withdrawn
  {
    hide *;
    var e1, e2 := DoExits(Begin(s1, closed), a.rt, a.exits), DoExits(Begin(s2, closed), a.rt, a.exits);
    ExitsSettled(s1, closed, a.rt, a.exits);
    ExitsSettled(s2, closed, a.rt, a.exits);
    ExitCloses(s1, closed, a.rt, a.exits);
    ExitCloses(s2, closed, a.rt, a.exits);
    NothingWithdrawn(s1, closed);
    NothingWithdrawn(s2, closed);
    CloseWhole(e1, e2);
    ItemsSameCloses(e1, e2, a.rt, a.items, a.now);
    AfterItemsIs(s1, closed, a);
    AfterItemsIs(s2, closed, a);
    CloseParts(AfterItems(s1, closed, a), AfterItems(s2, closed, a));
    RestOfScan(s1, closed, a, o1);
    RestOfScan(s2, closed, a, o2);
  }

  lemma AfterItemsIs(seen: Seen, closed: seq<Tomb>, a: Call)
    ensures AfterItems(seen, closed, a) == DoItems(DoExits(Begin(seen, closed), a.rt, a.exits), a.rt, a.items, a.now)
  {
    hide DoItems, DoExits, Begin;
  }

  lemma NothingWithdrawn(seen: Seen, closed: seq<Tomb>)
    ensures Begin(seen, closed).withdrawn == []
  {
  }

  lemma ExitCloses(seen: Seen, closed: seq<Tomb>, rt: RuntimeId, exits: seq<Exit>)
    ensures Filter(Relayed(), closed + ExitTombs(seen, rt, exits)) == Filter(Relayed(), closed)
  {
    hide Filter, ExitTombs;
    ExitsAreNotRelayed(seen, rt, exits);
    FilterConcat(Relayed(), closed, ExitTombs(seen, rt, exits));
    FilterNone(Relayed(), ExitTombs(seen, rt, exits));
  }

  // ---- pruned and unpruned -------------------------------------------------

  predicate Expired(seen: Seen, cut: Time, k: Key)
  {
    k in seen && seen[k].lastSeen < cut
  }

  /** The record says no more of its session than having none. */
  predicate Bare(r: Rec)
  {
    (r.name == "" || r.name == r.id) && r.cwd == "" && r.startedAt == None && r.conversation == None && r.lastSeen == 0
  }

  function ExpiredIn(seen: Seen, cut: Time, a: Call): Session -> bool
  {
    (s: Session) => Expired(seen, cut, Key(a.rt, s.id)) && Key(a.rt, s.id) !in ExitKeys(a.rt, a.exits)
  }

  /** The listed sessions whose records an early prune drops. */
  function ExpiredListed(seen: Seen, cut: Time, a: Call): seq<Session>
  {
    Filter(ExpiredIn(seen, cut, a), a.items)
  }

  /** No captured exit finds an expired record that says anything; no expired record is taken over or ended;
      and whether an unexpired missing record is explained stays as it is when the listed sessions whose
      records expired count as newly listed. */
  ghost predicate PruneUnobserved(seen: Seen, cut: Time, a: Call)
  {
    && (forall i :: 0 <= i < |a.exits| && Expired(seen, cut, Key(a.rt, a.exits[i].id)) ==>
          Bare(seen[Key(a.rt, a.exits[i].id)]))
    && (forall k :: Expired(seen, cut, k) ==> !LeavesTomb(seen, a, k))
    && (forall k :: k in seen && a.complete && Awaited(seen, a, k) && !Expired(seen, cut, k) ==>
          Unswayed(seen[k].startedAt, NovelTo(seen, a), ExpiredListed(seen, cut, a)))
  }

  /** Exactly one newly listed session has the start, with the others counted in as without them. */
  predicate Unswayed(start: Option<Time>, novel: seq<Session>, others: seq<Session>)
  {
    Sharing(start, novel) == 1 <==> Sharing(start, novel) + Sharing(start, others) == 1
  }

  lemma SharingSnoc(start: Option<Time>, xs: seq<Session>, x: Session)
    ensures Sharing(start, xs + [x]) == Sharing(start, xs) + if SameStart(x.startedAt, start) then 1 else 0
  {
    assert (xs + [x])[..|xs|] == xs;
  }

  lemma {:induction false} SharingSplits(start: Option<Time>, p: Session -> bool, q: Session -> bool, r: Session -> bool,
                                         items: seq<Session>)
    requires forall s :: s in items ==> (p(s) <==> q(s) || r(s)) && !(q(s) && r(s))
    ensures Sharing(start, Filter(p, items)) == Sharing(start, Filter(q, items)) + Sharing(start, Filter(r, items))
    decreases |items|
  {
    hide Filter;
    if items == [] {
      NothingListed(start, p);
      NothingListed(start, q);
      NothingListed(start, r);
    } else {
      hide *;
      var init, s := items[..|items| - 1], items[|items| - 1];
      assert items == init + [s];
      SharingSplits(start, p, q, r, init);
      FilterSnoc(p, init, s);
      FilterSnoc(q, init, s);
      FilterSnoc(r, init, s);
      SharingSnoc(start, Filter(p, init), s);
      SharingSnoc(start, Filter(q, init), s);
      SharingSnoc(start, Filter(r, init), s);
    }
  }

  lemma NothingListed(start: Option<Time>, p: Session -> bool)
    ensures Sharing(start, Filter(p, [])) == 0
  {
  }

  /** Listed sessions whose records are pruned are newly listed. */
  lemma PrunedNovel(seen: Seen, cut: Time, a: Call, start: Option<Time>)
    ensures Sharing(start, NovelTo(PruneSeen(seen, cut), a))
         == Sharing(start, NovelTo(seen, a)) + Sharing(start, ExpiredListed(seen, cut, a))
  {
    hide Sharing, Filter, ExitKeys;
    SharingSplits(start, UnknownTo(PruneSeen(seen, cut) - ExitKeys(a.rt, a.exits), a.rt),
                  UnknownTo(seen - ExitKeys(a.rt, a.exits), a.rt), ExpiredIn(seen, cut, a), a.items);
  }

  lemma PrunedTakenOver(seen: Seen, cut: Time, a: Call, k: Key)
    ensures TakenOver(PruneSeen(seen, cut), a, k) <==> TakenOver(seen, a, k) && !Expired(seen, cut, k)
  {
    hide ExitKeys, Recycles;
  }

  lemma PrunedAwaited(seen: Seen, cut: Time, a: Call, k: Key)
    ensures Awaited(PruneSeen(seen, cut), a, k) <==> Awaited(seen, a, k) && !Expired(seen, cut, k)
    ensures Awaited(seen, a, k) ==> k in seen
    ensures k in seen && !Expired(seen, cut, k) ==> k in PruneSeen(seen, cut) && PruneSeen(seen, cut)[k] == seen[k]
  {
    hide ExitKeys, Present;
  }

  lemma EndsUnfolds(seen: Seen, a: Call, k: Key)
    ensures Ends(seen, a, k) ==> k in seen
    ensures k in seen ==> (Ends(seen, a, k) <==> a.complete && Awaited(seen, a, k) && Sharing(seen[k].startedAt, NovelTo(seen, a)) != 1)
    ensures LeavesTomb(seen, a, k) <==> TakenOver(seen, a, k) || Ends(seen, a, k)
  {
    hide Sharing, NovelTo, ExitKeys, Present, TakenOver;
  }

  lemma TakenOverIsListed(seen: Seen, a: Call, k: Key)
    ensures TakenOver(seen, a, k) ==> !Awaited(seen, a, k) && k in seen
  {
    hide Recycles, ExitKeys;
    if TakenOver(seen, a, k) {
      var i :| 0 <= i < |a.items| && k == Key(a.rt, a.items[i].id);
      Here(a.items, i);
    }
  }

  /** One record leaves the same absence tombstone with and without an early prune. */
  lemma SameAbsence(seen: Seen, cut: Time, a: Call, k: Key)
    ensures (LeavesTomb(seen, a, k) <==> LeavesTomb(PruneSeen(seen, cut), a, k))
       <==> && (Expired(seen, cut, k) ==> !LeavesTomb(seen, a, k))
            && (k in seen && a.complete && Awaited(seen, a, k) && !Expired(seen, cut, k) ==>
                  Unswayed(seen[k].startedAt, NovelTo(seen, a), ExpiredListed(seen, cut, a)))
  {
    hide *;
    var seen' := PruneSeen(seen, cut);
    EndsUnfolds(seen, a, k);
    EndsUnfolds(seen', a, k);
    PrunedTakenOver(seen, cut, a, k);
    PrunedAwaited(seen, cut, a, k);
    TakenOverIsListed(seen, a, k);
    ExpiredIsSeen(seen, cut, k);
    if k in seen {
      PrunedNovel(seen, cut, a, seen[k].startedAt);
      UnswayedIs(seen[k].startedAt, NovelTo(seen, a), ExpiredListed(seen, cut, a));
    }
  }

  lemma UnswayedIs(start: Option<Time>, novel: seq<Session>, others: seq<Session>)
    ensures Unswayed(start, novel, others)
       <==> (Sharing(start, novel) == 1 <==> Sharing(start, novel) + Sharing(start, others) == 1)
  {
    hide Sharing;
  }

  lemma ExpiredIsSeen(seen: Seen, cut: Time, k: Key)
    ensures Expired(seen, cut, k) ==> k in seen && k !in PruneSeen(seen, cut)
    ensures k in PruneSeen(seen, cut) ==> k in seen && PruneSeen(seen, cut)[k] == seen[k]
  {
  }

  // ---- tombstones tell their records apart ---------------------------------

  /** Absence tombstones are equal as multisets exactly when they are of the same records. */
  lemma AbsencesTell(seen: Seen, xs: seq<Key>, ys: seq<Key>, now: Time)
    requires WellKeyed(seen) && Distinct(xs) && Distinct(ys)
    requires forall k :: k in xs || k in ys ==> k in seen
    ensures multiset(Tombs(seen, xs, now)) == multiset(Tombs(seen, ys, now)) <==> forall k :: k in xs <==> k in ys
  {
    hide *;
    if forall k :: k in xs <==> k in ys {
      SameMembers(xs, ys);
      TombsOfPermutation(seen, xs, ys, now);
    }
    if multiset(Tombs(seen, xs, now)) == multiset(Tombs(seen, ys, now)) {
      forall k ensures k in xs <==> k in ys {
        if k in xs {
          TombOfMember(seen, xs, ys, k, now);
        }
        if k in ys {
          TombOfMember(seen, ys, xs, k, now);
        }
      }
    }
  }

  lemma TombOfMember(seen: Seen, xs: seq<Key>, ys: seq<Key>, k: Key, now: Time)
    requires WellKeyed(seen) && k in xs && (forall q :: q in xs || q in ys ==> q in seen)
    requires multiset(Tombs(seen, xs, now)) == multiset(Tombs(seen, ys, now))
    ensures k in ys
  {
    hide Tombs;
    var t := Absent(k, RecAt(seen, k), now);
    TombsMembers(seen, xs, now, t);
    TombsMembers(seen, ys, now, t);
    assert t in multiset(Tombs(seen, xs, now));
    assert t in multiset(Tombs(seen, ys, now));
    var q :| q in ys && t == Absent(q, RecAt(seen, q), now);
    assert q.id == k.id && q.runtime == k.runtime;
  }

  function ExitTomb(seen: Seen, rt: RuntimeId, e: Exit): Tomb
  {
    TombOf(rt, RecAt(seen, Key(rt, e.id)), e.at, ByExit, Some(e.status))
  }

  lemma {:induction false} ExitTombsAt(seen: Seen, rt: RuntimeId, exits: seq<Exit>)
    ensures |ExitTombs(seen, rt, exits)| == |exits|
    ensures forall i :: 0 <= i < |exits| ==> ExitTombs(seen, rt, exits)[i] == ExitTomb(seen, rt, exits[i])
    decreases |exits|
  {
    if exits != [] {
      ExitTombsAt(seen, rt, exits[..|exits| - 1]);
    }
    hide TombOf, RecAt;
  }

  /** Exit tombstones are equal as multisets exactly when every exit leaves the same one. */
  lemma ExitsTell(s1: Seen, s2: Seen, rt: RuntimeId, exits: seq<Exit>)
    requires WellKeyed(s1) && WellKeyed(s2) && DistinctExits(exits)
    ensures multiset(ExitTombs(s1, rt, exits)) == multiset(ExitTombs(s2, rt, exits))
       <==> forall i :: 0 <= i < |exits| ==> ExitTomb(s1, rt, exits[i]) == ExitTomb(s2, rt, exits[i])
  {
    hide *;
    var t1, t2 := ExitTombs(s1, rt, exits), ExitTombs(s2, rt, exits);
    ExitTombsAt(s1, rt, exits);
    ExitTombsAt(s2, rt, exits);
    if forall i :: 0 <= i < |exits| ==> ExitTomb(s1, rt, exits[i]) == ExitTomb(s2, rt, exits[i]) {
      assert t1 == t2;
    }
    if multiset(t1) == multiset(t2) {
      forall i | 0 <= i < |exits| ensures ExitTomb(s1, rt, exits[i]) == ExitTomb(s2, rt, exits[i]) {
        assert t1[i] in multiset(t1);
        assert t1[i] in multiset(t2);
        var j :| 0 <= j < |t2| && t2[j] == t1[i];
        ExitTombId(s1, rt, exits[i]);
        ExitTombId(s2, rt, exits[j]);
        SameExit(exits, i, j);
      }
    }
  }

  lemma ExitTombId(seen: Seen, rt: RuntimeId, e: Exit)
    requires WellKeyed(seen)
    ensures ExitTomb(seen, rt, e).id == e.id
  {
  }

  lemma SameExit(exits: seq<Exit>, i: nat, j: nat)
    requires DistinctExits(exits) && i < |exits| && j < |exits| && exits[i].id == exits[j].id
    ensures i == j
  {
  }

  /** An exit's tombstone shows an early prune exactly when the record it drops said something. */
  lemma ExitShows(seen: Seen, cut: Time, rt: RuntimeId, e: Exit)
    requires WellKeyed(seen)
    ensures ExitTomb(seen, rt, e) == ExitTomb(PruneSeen(seen, cut), rt, e)
       <==> (Expired(seen, cut, Key(rt, e.id)) ==> Bare(seen[Key(rt, e.id)]))
  {
  }

  /** Exit tombstones and absence tombstones do not mix. */
  lemma KindsApart(e1: multiset<Tomb>, a1: multiset<Tomb>, e2: multiset<Tomb>, a2: multiset<Tomb>)
    requires forall t :: t in e1 || t in e2 ==> t.closedBy == ByExit
    requires forall t :: t in a1 || t in a2 ==> t.closedBy == ByAbsent
    ensures e1 + a1 == e2 + a2 <==> e1 == e2 && a1 == a2
  {
    if e1 + a1 == e2 + a2 {
      forall t ensures e1[t] == e2[t] && a1[t] == a2[t] {
        assert (e1 + a1)[t] == (e2 + a2)[t];
      }
    }
  }

  lemma AbsencesAreAbsences(seen: Seen, ks: seq<Key>, now: Time)
    ensures forall t :: t in Tombs(seen, ks, now) ==> t.closedBy == ByAbsent
  {
    hide Tombs;
    forall t | t in Tombs(seen, ks, now) ensures t.closedBy == ByAbsent {
      TombsMembers(seen, ks, now, t);
      var k :| k in ks && t == Absent(k, RecAt(seen, k), now);
      AbsenceIsNotRelayed(k, RecAt(seen, k), now);
    }
  }

  lemma PrunedKeyed(seen: Seen, cut: Time)
    requires WellKeyed(seen)
    ensures WellKeyed(PruneSeen(seen, cut))
  {
  }

  lemma LeavesTombIsSeen(seen: Seen, a: Call, k: Key)
    ensures LeavesTomb(seen, a, k) ==> k in seen
  {
    hide *;
    EndsUnfolds(seen, a, k);
    TakenOverIsListed(seen, a, k);
  }

  // ---- exactly when an early prune shows -----------------------------------

  /** Pruning tombstones early is unobservable; pruning seen records early is not. For any records, tombstones
      and listing, the call leaves the tombstones it would have left, if and only if no expired record
      with anything to say exits, none is taken over or ended, and no listed session of an expired
      record competes for another record's run. An expired record that would have been carried
      changes no tombstone. */
  lemma SeenPruneObservedIff(seen: Seen, closed: seq<Tomb>, cut: Time, a: Call, o1: seq<Key>, o2: seq<Key>)
    requires WellFormed(a) && WellKeyed(seen)
    requires Visits(seen, closed, a, o1) && Visits(PruneSeen(seen, cut), closed, a, o2)
    requires a.complete ==>
      && Unambiguous(AfterItems(seen, closed, a), Context(a))
      && Unambiguous(AfterItems(PruneSeen(seen, cut), closed, a), Context(a))
    ensures multiset(Observed(seen, closed, a, o1).closed) == multiset(Observed(PruneSeen(seen, cut), closed, a, o2).closed)
       <==> PruneUnobserved(seen, cut, a)
  {
    hide *;
    var seen' := PruneSeen(seen, cut);
    PrunedKeyed(seen, cut);
    SameTombsIff(seen, seen', closed, a, o1, o2);
    var gone, gone' := AbsenceTombs(seen, closed, a, o1), AbsenceTombs(seen', closed, a, o2);
    AbsenceTombsAre(seen, closed, a, o1);
    AbsenceTombsAre(seen', closed, a, o2);
    forall k | k in gone || k in gone' ensures k in seen {
      LeavesTombIsSeen(seen, a, k);
      LeavesTombIsSeen(seen', a, k);
      ExpiredIsSeen(seen, cut, k);
    }
    forall k | k in gone' ensures k in seen' && seen'[k] == seen[k] {
      LeavesTombIsSeen(seen', a, k);
      ExpiredIsSeen(seen, cut, k);
    }
    TombsOfSubmap(seen, seen', gone', a.now);
    AbsencesTell(seen, gone, gone', a.now);
    ExitsOf(a);
    ExitsTell(seen, seen', a.rt, a.exits);
    UnobservedParts(seen, cut, a, gone, gone');
  }

  /** The same closed tombstones are the same exit tombstones and the same absence tombstones. */
  lemma SameTombsIff(s1: Seen, s2: Seen, closed: seq<Tomb>, a: Call, o1: seq<Key>, o2: seq<Key>)
    requires WellFormed(a) && WellKeyed(s1) && WellKeyed(s2)
    requires Visits(s1, closed, a, o1) && Visits(s2, closed, a, o2)
    requires a.complete ==>
      Unambiguous(AfterItems(s1, closed, a), Context(a)) && Unambiguous(AfterItems(s2, closed, a), Context(a))
    ensures multiset(Observed(s1, closed, a, o1).closed) == multiset(Observed(s2, closed, a, o2).closed)
       <==> && multiset(ExitTombs(s1, a.rt, a.exits)) == multiset(ExitTombs(s2, a.rt, a.exits))
            && multiset(Tombs(s1, AbsenceTombs(s1, closed, a, o1), a.now))
                 == multiset(Tombs(s2, AbsenceTombs(s2, closed, a, o2), a.now))
  {
    hide *;
    AbsenceTombsAre(s1, closed, a, o1);
    AbsenceTombsAre(s2, closed, a, o2);
    ExitsOf(a);
    WithdrawnIgnoresSeen(s1, s2, closed, a, o1, o2);
    ExitsAreNotRelayed(s1, a.rt, a.exits);
    ExitsAreNotRelayed(s2, a.rt, a.exits);
    var g1, g2 := AbsenceTombs(s1, closed, a, o1), AbsenceTombs(s2, closed, a, o2);
    AbsencesAreAbsences(s1, g1, a.now);
    AbsencesAreAbsences(s2, g2, a.now);
    KindsApart(multiset(ExitTombs(s1, a.rt, a.exits)), multiset(Tombs(s1, g1, a.now)),
               multiset(ExitTombs(s2, a.rt, a.exits)), multiset(Tombs(s2, g2, a.now)));
    Cancel(multiset(Observed(s1, closed, a, o1).closed), multiset(Observed(s2, closed, a, o2).closed),
           multiset(Observed(s1, closed, a, o1).withdrawn), multiset(closed),
           multiset(ExitTombs(s1, a.rt, a.exits)), multiset(Tombs(s1, g1, a.now)),
           multiset(ExitTombs(s2, a.rt, a.exits)), multiset(Tombs(s2, g2, a.now)));
  }

  lemma ExitsOf(a: Call)
    requires WellFormed(a)
    ensures DistinctExits(a.exits)
  {
  }

  lemma Cancel(c1: multiset<Tomb>, c2: multiset<Tomb>, w: multiset<Tomb>, c: multiset<Tomb>,
               e1: multiset<Tomb>, a1: multiset<Tomb>, e2: multiset<Tomb>, a2: multiset<Tomb>)
    requires c1 + w == c + e1 + a1 && c2 + w == c + e2 + a2
    ensures c1 == c2 <==> e1 + a1 == e2 + a2
  {
    forall t ensures c1[t] + w[t] == c[t] + (e1 + a1)[t] && c2[t] + w[t] == c[t] + (e2 + a2)[t] {
      assert (c1 + w)[t] == (c + e1 + a1)[t];
      assert (c2 + w)[t] == (c + e2 + a2)[t];
    }
    if c1 == c2 {
      forall t ensures (e1 + a1)[t] == (e2 + a2)[t] {
      }
    }
    if e1 + a1 == e2 + a2 {
      forall t ensures c1[t] == c2[t] {
        assert (e1 + a1)[t] == (e2 + a2)[t];
      }
    }
  }

  lemma UnobservedParts(seen: Seen, cut: Time, a: Call, gone: seq<Key>, gone': seq<Key>)
    requires WellKeyed(seen)
    requires forall k :: k in gone <==> LeavesTomb(seen, a, k)
    requires forall k :: k in gone' <==> LeavesTomb(PruneSeen(seen, cut), a, k)
    ensures PruneUnobserved(seen, cut, a)
       <==> && (forall i :: 0 <= i < |a.exits| ==>
                  ExitTomb(seen, a.rt, a.exits[i]) == ExitTomb(PruneSeen(seen, cut), a.rt, a.exits[i]))
            && (forall k :: k in gone <==> k in gone')
  {
    hide LeavesTomb, Awaited, Unswayed, ExpiredListed, NovelTo, Bare, ExitTomb, PruneSeen;
    forall i | 0 <= i < |a.exits|
      ensures ExitTomb(seen, a.rt, a.exits[i]) == ExitTomb(PruneSeen(seen, cut), a.rt, a.exits[i])
         <==> (Expired(seen, cut, Key(a.rt, a.exits[i].id)) ==> Bare(seen[Key(a.rt, a.exits[i].id)]))
    {
      ExitShows(seen, cut, a.rt, a.exits[i]);
    }
    forall k ensures (k in gone <==> k in gone')
      <==> && (Expired(seen, cut, k) ==> !LeavesTomb(seen, a, k))
           && (k in seen && a.complete && Awaited(seen, a, k) && !Expired(seen, cut, k) ==>
                 Unswayed(seen[k].startedAt, NovelTo(seen, a), ExpiredListed(seen, cut, a)))
    {
      SameAbsence(seen, cut, a, k);
    }
  }

  // ---- the smallest case ---------------------------------------------------

  /** A complete listing without the one session there is a record of writes its tombstone if and only if the
      record had not expired at the earlier prune. */
  lemma LonePruneIsObservable(k: Key, r: Rec, cut: Time, listedAt: Time, now: Time)
    requires r.id == k.id && r.lastSeen < listedAt
    ensures var a := Call(k.runtime, [], true, listedAt, [], now);
            && Observed(map[k := r], [], a, [k]).closed == [Absent(k, r, now)]
            && (Observed(PruneSeen(map[k := r], cut), [], a, [k]).closed == [Absent(k, r, now)] <==> r.lastSeen >= cut)
  {
    LoneRecordEnds(k, r, listedAt, now);
    if r.lastSeen >= cut {
      assert PruneSeen(map[k := r], cut) == map[k := r];
    } else {
      assert PruneSeen(map[k := r], cut) == map[];
      var a := Call(k.runtime, [], true, listedAt, [], now);
      var f := AfterItems(map[], [], a);
      assert ScanAll(f, Context(a), [k][..0]) == f;
      assert ScanAll(f, Context(a), [k]) == f;
    }
  }

  /** An expired record that would have been carried is pruned without a trace among the tombstones. */
  lemma ExpiredCarryIsUnobserved(k: Key, r: Rec, s: Session, cut: Time, listedAt: Time, now: Time)
    requires r.id == k.id != s.id && r.lastSeen < cut && r.lastSeen < listedAt && SameStart(s.startedAt, r.startedAt)
    ensures var a := Call(k.runtime, [s], true, listedAt, [], now);
            && Expired(map[k := r], cut, k) && Awaited(map[k := r], a, k)
            && Sharing(r.startedAt, NovelTo(map[k := r], a)) == 1
            && PruneUnobserved(map[k := r], cut, a)
  {
    var seen, a := map[k := r], Call(k.runtime, [s], true, listedAt, [], now);
    assert NovelTo(seen, a) == [s] by {
      FilterAll(UnknownTo(seen - ExitKeys(a.rt, a.exits), a.rt), [s]);
    }
    assert Sharing(r.startedAt, [s]) == 1 by {
      SharingSnoc(r.startedAt, [], s);
      assert [] + [s] == [s];
    }
  }

  lemma LoneRecordEnds(k: Key, r: Rec, listedAt: Time, now: Time)
    requires r.id == k.id && r.lastSeen < listedAt
    ensures Observed(map[k := r], [], Call(k.runtime, [], true, listedAt, [], now), [k]).closed == [Absent(k, r, now)]
  {
    var a := Call(k.runtime, [], true, listedAt, [], now);
    var f := AfterItems(map[k := r], [], a);
    assert f == Begin(map[k := r], []);
    assert ScanAll(f, Context(a), [k][..0]) == f;
    assert ScanAll(f, Context(a), [k]) == Settle(f, k, now);
  }
}
