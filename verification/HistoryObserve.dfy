// observe as a whole (internal/service/history.go): what one listing does to every record and to the
// list of tombstones, before pruning.
module HistoryObserve {
  import opened Fleet
  import opened Seqs
  import opened HistorySpec
  import opened HistoryScan

  predicate DistinctIds(items: seq<Session>)
  {
    forall i, j :: 0 <= i < j < |items| ==> items[i].id != items[j].id
  }

  predicate DistinctExits(exits: seq<Exit>)
  {
    forall i, j :: 0 <= i < j < |exits| ==> exits[i].id != exits[j].id
  }

  predicate WellKeyed(seen: Seen)
  {
    forall k :: k in seen ==> seen[k].id == k.id
  }

  // ---- captured exits -----------------------------------------------------

  function ExitKeys(rt: RuntimeId, exits: seq<Exit>): set<Key>
  {
    set i | 0 <= i < |exits| :: Key(rt, exits[i].id)
  }

  /** One tombstone for each captured exit, thin when the session was never sighted. */
  function ExitTombs(seen: Seen, rt: RuntimeId, exits: seq<Exit>): seq<Tomb>
  {
    if exits == [] then []
    else
      var e := exits[|exits| - 1];
      ExitTombs(seen, rt, exits[..|exits| - 1])
      + [TombOf(rt, RecAt(seen, Key(rt, e.id)), e.at, ByExit, Some(e.status))]
  }

  lemma {:induction false} ExitsSettled(seen: Seen, closed: seq<Tomb>, rt: RuntimeId, exits: seq<Exit>)
    requires DistinctExits(exits)
    ensures var f := DoExits(Begin(seen, closed), rt, exits);
            && f.seen == seen - ExitKeys(rt, exits)
            && f.closed == closed + ExitTombs(seen, rt, exits)
            && f == Begin(seen, closed).(seen := f.seen, closed := f.closed, exited := f.exited)
  {
    if exits == [] {
      assert seen - {} == seen && closed + [] == closed;
    } else {
      var init, e := exits[..|exits| - 1], exits[|exits| - 1];
      ExitsSettled(seen, closed, rt, init);
      var k := Key(rt, e.id);
      var g := DoExits(Begin(seen, closed), rt, init);
      assert k !in ExitKeys(rt, init);
      assert RecAt(g.seen, k) == RecAt(seen, k);
      assert ExitKeys(rt, exits) == ExitKeys(rt, init) + {k} by {
        assert exits == init + [e];
        assert exits[|init|] == e;
        assert forall i :: 0 <= i < |init| ==> exits[i] == init[i];
      }
      assert g.seen - {k} == seen - ExitKeys(rt, exits);
    }
  }

  // ---- listed sessions ----------------------------------------------------

  /** What a listed session does to the record already under its id. */
  function Updated(r: Rec, s: Session, now: Time): Rec
  {
    if Recycles(r, s) then NewRec(s, now) else Refresh(r, s, now)
  }

  predicate Unknown(seen: Seen, rt: RuntimeId, s: Session)
  {
    Key(rt, s.id) !in seen
  }

  function UnknownTo(seen: Seen, rt: RuntimeId): Session -> bool
  {
    s => Unknown(seen, rt, s)
  }

  /** Every known listed session is updated in place, and no other record changes. */
  predicate SeenUpdated(was: Seen, seen: Seen, rt: RuntimeId, items: seq<Session>, now: Time)
  {
    && seen.Keys == was.Keys
    && (forall i :: 0 <= i < |items| && Key(rt, items[i].id) in was ==>
          seen[Key(rt, items[i].id)] == Updated(was[Key(rt, items[i].id)], items[i], now))
    && (forall k :: k in was && !(k.runtime == rt && Present(items, k.id)) ==> seen[k] == was[k])
  }

  /** After folding the items in, with the unknown ones set aside in order. */
  predicate ItemsFolded(f: Fold, g: Fold, rt: RuntimeId, items: seq<Session>, now: Time)
  {
    && SeenUpdated(f.seen, g.seen, rt, items, now)
    && g.novel == Filter(UnknownTo(f.seen, rt), items)
    && g.carried == map[] && g.ended == [] && g.exited == f.exited
  }

  /** A recycled id's old occupant gets one tombstone. */
  ghost predicate RecycledOk(f: Fold, g: Fold, rt: RuntimeId, items: seq<Session>)
  {
    && Distinct(g.recycled)
    && (forall k :: k in g.recycled <==>
          k in f.seen && exists i :: 0 <= i < |items| && k == Key(rt, items[i].id) && Recycles(f.seen[k], items[i]))
  }

  /** Tombstones in, tombstones out: what was withdrawn and what recycled ids left. */
  predicate TombsBalance(f: Fold, g: Fold, now: Time)
  {
    multiset(g.closed) + multiset(g.withdrawn) == multiset(f.closed) + multiset(Tombs(f.seen, g.recycled, now))
  }

  lemma {:induction false} FoldItems(f: Fold, rt: RuntimeId, items: seq<Session>, now: Time)
    requires f == Begin(f.seen, f.closed).(exited := f.exited)
    requires DistinctIds(items)
    ensures ItemsFolded(f, DoItems(f, rt, items, now), rt, items, now)
    decreases |items|
  {
    if items != [] {
      var init, s := items[..|items| - 1], items[|items| - 1];
      FoldItems(f, rt, init, now);
      assert items == init + [s];
      FilterSnoc(UnknownTo(f.seen, rt), init, s);
      ItemFolded(f, DoItems(f, rt, init, now), rt, init, s, now);
    }
  }

  lemma NewId(init: seq<Session>, s: Session)
    requires DistinctIds(init + [s])
    ensures DistinctIds(init) && !Present(init, s.id)
    ensures forall id :: Present(init + [s], id) <==> Present(init, id) || id == s.id
  {
    var items := init + [s];
    assert items[|init|] == s;
    forall i, j | 0 <= i < j < |init| ensures init[i].id != init[j].id {
      assert items[i].id != items[j].id;
    }
    forall i | 0 <= i < |init| ensures init[i].id != s.id {
      assert items[i].id != items[|init|].id;
    }
    forall id ensures Present(items, id) <==> Present(init, id) || id == s.id {
      if Present(init, id) {
        var i :| 0 <= i < |init| && init[i].id == id;
        assert items[i].id == id;
      }
    }
  }

  /** One item, field by field. */
  lemma ItemShape(g: Fold, rt: RuntimeId, s: Session, now: Time)
    ensures var g', k, w := DoItem(g, rt, s, now), Key(rt, s.id), DoWithdraw(g, rt, s);
            && g'.carried == g.carried && g'.ended == g.ended && g'.exited == g.exited && g'.withdrawn == w.withdrawn
            && g'.seen == (if k in g.seen then g.seen[k := Updated(g.seen[k], s, now)] else g.seen)
            && g'.novel == (if k in g.seen then g.novel else g.novel + [s])
            && g'.recycled == (if k in g.seen && Recycles(g.seen[k], s) then g.recycled + [k] else g.recycled)
            && g'.closed == if k in g.seen && Recycles(g.seen[k], s) then w.closed + [Absent(k, g.seen[k], now)] else w.closed
  {
    WithdrawFrame(g, rt, s);
    var k := Key(rt, s.id);
    if k in g.seen {
      TakesOver(g.seen, rt, s, now);
    }
    hide DoWithdraw, Absent, NewRec, HistorySpec.Refresh, Recycles;
  }

  lemma WithdrawFrame(g: Fold, rt: RuntimeId, s: Session)
    ensures var w := DoWithdraw(g, rt, s);
            w == g.(closed := w.closed, withdrawn := w.withdrawn)
  {
    hide WithdrawIndex;
  }

  /** A sighting under an id starts a new record when the old one was taken out, and refreshes it otherwise. */
  lemma TakesOver(seen: Seen, rt: RuntimeId, s: Session, now: Time)
    requires Key(rt, s.id) in seen
    ensures var k := Key(rt, s.id);
            && Sight(seen - {k}, rt, s, now) == seen[k := NewRec(s, now)]
            && Sight(seen, rt, s, now) == seen[k := HistorySpec.Refresh(seen[k], s, now)]
  {
    hide NewRec, HistorySpec.Refresh;
  }

  lemma ItemFolded(f: Fold, g: Fold, rt: RuntimeId, init: seq<Session>, s: Session, now: Time)
    requires ItemsFolded(f, g, rt, init, now) && DistinctIds(init + [s])
    requires Filter(UnknownTo(f.seen, rt), init + [s])
          == if Unknown(f.seen, rt, s) then Filter(UnknownTo(f.seen, rt), init) + [s] else Filter(UnknownTo(f.seen, rt), init)
    ensures ItemsFolded(f, DoItem(g, rt, s, now), rt, init + [s], now)
  {
    ItemShape(g, rt, s, now);
    NewId(init, s);
    SeenUpdatedMore(f.seen, g.seen, rt, init, s, now);
  }

  lemma SeenUpdatedMore(was: Seen, seen: Seen, rt: RuntimeId, init: seq<Session>, s: Session, now: Time)
    requires SeenUpdated(was, seen, rt, init, now) && DistinctIds(init + [s])
    ensures var k := Key(rt, s.id);
            SeenUpdated(was, if k in seen then seen[k := Updated(seen[k], s, now)] else seen, rt, init + [s], now)
  {
    hide Updated, Present, DistinctIds;
    NewId(init, s);
    var items, k := init + [s], Key(rt, s.id);
    var seen' := if k in seen then seen[k := Updated(seen[k], s, now)] else seen;
    forall i | 0 <= i < |items| && Key(rt, items[i].id) in was
      ensures seen'[Key(rt, items[i].id)] == Updated(was[Key(rt, items[i].id)], items[i], now)
    {
      if i < |init| {
        assert items[i] == init[i];
        Here(init, i);
      }
    }
  }

  lemma Here(items: seq<Session>, i: nat)
    requires i < |items|
    ensures Present(items, items[i].id)
  {
  }

  lemma {:induction false} ItemTombs(f: Fold, rt: RuntimeId, items: seq<Session>, now: Time)
    requires f == Begin(f.seen, f.closed).(exited := f.exited)
    requires DistinctIds(items)
    ensures var g := DoItems(f, rt, items, now);
            RecycledOk(f, g, rt, items) && TombsBalance(f, g, now)
    decreases |items|
  {
    if items != [] {
      var init, s := items[..|items| - 1], items[|items| - 1];
      ItemTombs(f, rt, init, now);
      FoldItems(f, rt, init, now);
      assert items == init + [s];
      OneMoreRecycled(f, DoItems(f, rt, init, now), rt, init, s, now);
    }
  }

  /** Only premature closes of listed sessions are ever withdrawn. */
  lemma {:induction false} WithdrawnWerePremature(f: Fold, rt: RuntimeId, items: seq<Session>, now: Time, t: Tomb)
    requires t in DoItems(f, rt, items, now).withdrawn
    ensures t in f.withdrawn || exists i :: 0 <= i < |items| && Premature(t, rt, items[i])
    decreases |items|
  {
    if items != [] {
      var init, s := items[..|items| - 1], items[|items| - 1];
      var g := DoItems(f, rt, init, now);
      WithdrawBalance(g, rt, s);
      ItemShape(g, rt, s, now);
      if t in g.withdrawn {
        WithdrawnWerePremature(f, rt, init, now, t);
        assert forall i :: 0 <= i < |init| ==> items[i] == init[i];
      }
    }
  }

  lemma WithdrawBalance(g: Fold, rt: RuntimeId, s: Session)
    ensures var w := DoWithdraw(g, rt, s);
            && multiset(w.closed) + multiset(w.withdrawn) == multiset(g.closed) + multiset(g.withdrawn)
            && w == g.(closed := w.closed, withdrawn := w.withdrawn)
            && (forall t :: t in w.withdrawn ==> t in g.withdrawn || Premature(t, rt, s))
  {
    WithdrawRemovesOne(g.closed, rt, s);
    var i := WithdrawIndex(g.closed, rt, s);
    if i >= 0 {
      RemoveAtMultiset(g.closed, i);
    }
  }

  lemma OneMoreRecycled(f: Fold, g: Fold, rt: RuntimeId, init: seq<Session>, s: Session, now: Time)
    requires ItemsFolded(f, g, rt, init, now) && RecycledOk(f, g, rt, init) && TombsBalance(f, g, now)
    requires DistinctIds(init + [s])
    ensures RecycledOk(f, DoItem(g, rt, s, now), rt, init + [s]) && TombsBalance(f, DoItem(g, rt, s, now), now)
  {
    var g' := DoItem(g, rt, s, now);
    var k := Key(rt, s.id);
    WithdrawBalance(g, rt, s);
    ItemShape(g, rt, s, now);
    NewId(init, s);
    assert k in g.seen <==> k in f.seen;
    assert k in f.seen ==> g.seen[k] == f.seen[k];
    RecycledMembers(f, g, g', rt, init, s);
    var w := DoWithdraw(g, rt, s);
    if k in f.seen {
      BalanceStep(f, g, w, g', k, Absent(k, f.seen[k], now), now);
    } else {
      BalanceStep(f, g, w, g', k, Absent(k, Thin(k.id), now), now);
    }
  }

  lemma BalanceStep(f: Fold, g: Fold, w: Fold, g': Fold, k: Key, t: Tomb, now: Time)
    requires TombsBalance(f, g, now)
    requires multiset(w.closed) + multiset(w.withdrawn) == multiset(g.closed) + multiset(g.withdrawn)
    requires g'.withdrawn == w.withdrawn
    requires (g'.closed == w.closed && g'.recycled == g.recycled)
          || (g'.closed == w.closed + [t] && g'.recycled == g.recycled + [k] && k in f.seen && t == Absent(k, f.seen[k], now))
    ensures TombsBalance(f, g', now)
  {
    if |g'.recycled| != |g.recycled| {
      OneMoreTomb(f.seen, g.recycled, k, now);
      assert multiset(g'.closed) == multiset(w.closed) + multiset{t};
      var before := multiset(Tombs(f.seen, g.recycled, now));
      assert (multiset(w.closed) + multiset{t}) + multiset(w.withdrawn)
          == (multiset(w.closed) + multiset(w.withdrawn)) + multiset{t};
      assert multiset(f.closed) + (before + multiset{t}) == (multiset(f.closed) + before) + multiset{t};
    }
  }

  lemma OneMoreTomb(seen: Seen, ks: seq<Key>, k: Key, now: Time)
    requires k in seen
    ensures multiset(Tombs(seen, ks + [k], now)) == multiset(Tombs(seen, ks, now)) + multiset{Absent(k, seen[k], now)}
  {
    assert (ks + [k])[..|ks|] == ks;
  }

  lemma RecycledMembers(f: Fold, g: Fold, g': Fold, rt: RuntimeId, init: seq<Session>, s: Session)
    requires RecycledOk(f, g, rt, init) && DistinctIds(init + [s])
    requires var k := Key(rt, s.id);
             g'.recycled == if k in f.seen && Recycles(f.seen[k], s) then g.recycled + [k] else g.recycled
    ensures RecycledOk(f, g', rt, init + [s])
  {
    hide Recycles;
    var items := init + [s];
    var k := Key(rt, s.id);
    forall q | q in g.recycled
      ensures q != k && q in f.seen && exists i :: 0 <= i < |items| && q == Key(rt, items[i].id) && Recycles(f.seen[q], items[i])
    {
      var i :| 0 <= i < |init| && q == Key(rt, init[i].id) && Recycles(f.seen[q], init[i]);
      assert items[i] == init[i] && items[i].id != items[|init|].id;
    }
    assert items[|init|] == s;
    forall q, i | q in f.seen && 0 <= i < |items| && q == Key(rt, items[i].id) && Recycles(f.seen[q], items[i])
      ensures q in g'.recycled
    {
      if i < |init| {
        assert init[i] == items[i];
      }
    }
  }

  // ---- the whole of observe, before pruning -------------------------------

  /** What one call is given. */
  datatype Call = Call(rt: RuntimeId, items: seq<Session>, complete: bool, listedAt: Time, exits: seq<Exit>, now: Time)

  /** Item ids are distinct, exit ids are distinct, and the driver removed what it reports as exited. */
  predicate WellFormed(a: Call)
  {
    && DistinctIds(a.items) && DistinctExits(a.exits)
    && forall i :: 0 <= i < |a.exits| ==> !Present(a.items, a.exits[i].id)
  }

  function Observed(seen: Seen, closed: seq<Tomb>, a: Call, order: seq<Key>): Fold
  {
    Reconcile(seen, closed, a.rt, a.items, a.complete, a.listedAt, a.exits, a.now, order)
  }

  function AfterItems(seen: Seen, closed: seq<Tomb>, a: Call): Fold
  {
    DoItems(DoExits(Begin(seen, closed), a.rt, a.exits), a.rt, a.items, a.now)
  }

  function Context(a: Call): Ctx
  {
    Ctx(a.rt, a.items, a.listedAt, a.now)
  }

  /** The scan of a complete listing visits every key the map holds when it starts. */
  predicate Visits(seen: Seen, closed: seq<Tomb>, a: Call, order: seq<Key>)
  {
    a.complete ==> forall k :: k in AfterItems(seen, closed, a).seen ==> k in order
  }

  /** After exits and items, in terms of the state before the call. */
  lemma ItemsAfterExits(seen: Seen, closed: seq<Tomb>, a: Call)
    requires WellFormed(a) && WellKeyed(seen)
    ensures var f := AfterItems(seen, closed, a);
            && SeenUpdated(seen - ExitKeys(a.rt, a.exits), f.seen, a.rt, a.items, a.now)
            && f.novel == Filter(UnknownTo(seen - ExitKeys(a.rt, a.exits), a.rt), a.items)
            && (forall k :: k in f.recycled ==> k in seen)
            && multiset(f.closed) + multiset(f.withdrawn)
               == multiset(closed) + multiset(ExitTombs(seen, a.rt, a.exits)) + multiset(Tombs(seen, f.recycled, a.now))
            && ReadyToScan(f, Context(a))
  {
    ExitsSettled(seen, closed, a.rt, a.exits);
    var e := DoExits(Begin(seen, closed), a.rt, a.exits);
    FoldItems(e, a.rt, a.items, a.now);
    ItemTombs(e, a.rt, a.items, a.now);
    var f := AfterItems(seen, closed, a);
    TombsOfSubmap(seen, e.seen, f.recycled, a.now);
    NovelReady(e.seen, f, a);
    assert multiset(e.closed) == multiset(closed) + multiset(ExitTombs(seen, a.rt, a.exits));
  }

  lemma {:induction false} TombsOfSubmap(seen: Seen, part: Seen, ks: seq<Key>, now: Time)
    requires forall k :: k in ks ==> k in part && k in seen && part[k] == seen[k]
    ensures Tombs(part, ks, now) == Tombs(seen, ks, now)
    decreases |ks|
  {
    if ks != [] {
      TombsOfSubmap(seen, part, ks[..|ks| - 1], now);
    }
  }

  lemma NovelReady(was: Seen, f: Fold, a: Call)
    requires WellKeyed(was) && DistinctIds(a.items)
    requires SeenUpdated(was, f.seen, a.rt, a.items, a.now)
    requires f.novel == Filter(UnknownTo(was, a.rt), a.items) && f.carried == map[] && f.ended == []
    ensures ReadyToScan(f, Context(a))
  {
    FilterMembers(UnknownTo(was, a.rt), a.items);
    forall i | 0 <= i < |f.novel| ensures Key(a.rt, f.novel[i].id) !in f.seen && Present(a.items, f.novel[i].id) {
      assert f.novel[i] in a.items;
      var j :| 0 <= j < |a.items| && a.items[j] == f.novel[i];
      Here(a.items, j);
    }
    FilterDistinctIds(UnknownTo(was, a.rt), a.items);
    forall k | k in f.seen ensures f.seen[k].id == k.id {
      if k.runtime == a.rt && Present(a.items, k.id) {
        var i :| 0 <= i < |a.items| && a.items[i].id == k.id;
        assert f.seen[Key(a.rt, a.items[i].id)] == Updated(was[k], a.items[i], a.now);
      }
    }
  }

  lemma {:induction false} FilterDistinctIds(p: Session -> bool, items: seq<Session>)
    requires DistinctIds(items)
    ensures DistinctIds(Filter(p, items))
    decreases |items|
  {
    if items != [] {
      var rest, s := items[1..], items[0];
      FilterDistinctIds(p, rest);
      FilterMembers(p, rest);
      var ys := Filter(p, rest);
      forall i | 0 <= i < |ys| ensures ys[i].id != s.id {
        assert ys[i] in rest;
        var j :| 0 <= j < |rest| && rest[j] == ys[i];
        assert items[j + 1].id != items[0].id;
      }
    }
  }

  /** Sighting the sessions left over adds exactly one record for each. */
  lemma {:induction false} SightNovel(seen: Seen, rt: RuntimeId, novel: seq<Session>, now: Time)
    requires DistinctIds(novel) && forall i :: 0 <= i < |novel| ==> Key(rt, novel[i].id) !in seen
    ensures var out := SightAll(seen, rt, novel, now);
            && (forall k :: k in seen ==> k in out && out[k] == seen[k])
            && (forall i :: 0 <= i < |novel| ==> Key(rt, novel[i].id) in out && out[Key(rt, novel[i].id)] == NewRec(novel[i], now))
            && (forall k :: k in out && k !in seen ==> k.runtime == rt && Present(novel, k.id))
            && |out| == |seen| + |novel|
    decreases |novel|
  {
    if novel != [] {
      var init, s := novel[..|novel| - 1], novel[|novel| - 1];
      assert novel == init + [s];
      NewId(init, s);
      SightNovel(seen, rt, init, now);
      var out, k := SightAll(seen, rt, init, now), Key(rt, s.id);
      assert novel[|init|] == s && k !in seen;
      assert k !in out;
      OneMore(out, k, NewRec(s, now));
      hide NewRec;
    }
  }

  lemma OneMore(seen: Seen, k: Key, r: Rec)
    requires k !in seen
    ensures |seen[k := r]| == |seen| + 1
  {
    assert seen[k := r].Keys == seen.Keys + {k};
    assert |seen.Keys| == |seen| && |seen[k := r].Keys| == |seen[k := r]|;
  }

  function Scanned(seen: Seen, closed: seq<Tomb>, a: Call, order: seq<Key>): Fold
  {
    var f := AfterItems(seen, closed, a);
    if a.complete then ScanAll(f, Context(a), order) else f
  }

  /** What the scan leaves to be sighted, and what observe makes of it. */
  lemma ScanThenSight(seen: Seen, closed: seq<Tomb>, a: Call, order: seq<Key>)
    requires WellFormed(a) && WellKeyed(seen) && Visits(seen, closed, a, order)
    ensures var f, g, o := AfterItems(seen, closed, a), Scanned(seen, closed, a, order), Observed(seen, closed, a, order);
            && o == g.(seen := o.seen)
            && Fates(f, Context(a), g) && Places(f, Context(a), g) && Unclaimed(f, g) && Deserved(f, g)
            && (forall k :: k in f.seen ==>
                  (a.complete && Judged(f, Context(a), k) <==> k in g.carried || k in g.ended))
            && (forall k :: k in g.seen ==> k in o.seen && o.seen[k] == g.seen[k])
            && (forall k :: k in o.seen && k !in g.seen ==> k.runtime == a.rt && Present(a.items, k.id))
            && |o.seen| == |g.seen| + |g.novel|
  {
    hide *;
    var f, g := AfterItems(seen, closed, a), Scanned(seen, closed, a, order);
    ItemsAfterExits(seen, closed, a);
    ObservedShape(seen, closed, a, order);
    ScannedFacts(f, Context(a), a.complete, order, g);
    ContextIs(a);
    LeftOver(f, Context(a), g);
    SightNovel(g.seen, a.rt, g.novel, a.now);
  }

  lemma ContextIs(a: Call)
    ensures Context(a) == Ctx(a.rt, a.items, a.listedAt, a.now)
  {
  }

  lemma ObservedShape(seen: Seen, closed: seq<Tomb>, a: Call, order: seq<Key>)
    requires Visits(seen, closed, a, order)
    ensures var f, g := AfterItems(seen, closed, a), Scanned(seen, closed, a, order);
            && g == (if a.complete then ScanAll(f, Context(a), order) else f)
            && (a.complete ==> Covers(f, Context(a), order))
            && Observed(seen, closed, a, order) == g.(seen := SightAll(g.seen, a.rt, g.novel, a.now))
  {
    hide Scan, DoItems, DoExits, SightAll, Judged;
  }

  lemma ScannedFacts(f: Fold, c: Ctx, complete: bool, order: seq<Key>, g: Fold)
    requires ReadyToScan(f, c) && g == (if complete then ScanAll(f, c, order) else f)
    requires complete ==> Covers(f, c, order)
    ensures Fates(f, c, g) && Places(f, c, g) && Unclaimed(f, g) && Deserved(f, g) && Untouched(f, g) && Moved(f, c, g)
    ensures forall k :: k in f.seen ==> (complete && Judged(f, c, k) <==> k in g.carried || k in g.ended)
  {
    hide ScanAll, Tombs, Missing, Judged, Fates, Untouched, Moved, Balanced;
    if complete {
      ScanConserves(f, c, order);
    } else {
      ScanStarts(f, c);
    }
  }

  lemma LeftOver(f: Fold, c: Ctx, g: Fold)
    requires ReadyToScan(f, c) && Untouched(f, g) && Moved(f, c, g) && Unclaimed(f, g)
    ensures DistinctIds(g.novel)
    ensures forall i :: 0 <= i < |g.novel| ==> Key(c.rt, g.novel[i].id) !in g.seen && Present(c.items, g.novel[i].id)
    ensures forall id :: Present(g.novel, id) ==> Present(c.items, id)
  {
    forall i | 0 <= i < |g.novel| ensures Key(c.rt, g.novel[i].id) !in g.seen && Present(c.items, g.novel[i].id) {
      assert g.novel[i] in f.novel;
      var j :| 0 <= j < |f.novel| && f.novel[j] == g.novel[i];
      assert Present(c.items, f.novel[j].id) && Key(c.rt, f.novel[j].id) !in f.seen;
      assert forall k :: k in g.carried ==> g.novel[i].id != g.carried[k].id;
    }
  }

  /** Conservation. Every record seen before the call has exactly one fate, and the listing decides it:
      another runtime's is untouched; a captured exit ends it; a listed session keeps it, updated, or
      takes its id over; an unlisted one is left alone by an incomplete listing or when it was
      sighted after the listing was asked for, and otherwise carried unchanged, but for id and
      name, to the one newly listed session with its startedAt, or ended. */
  lemma EveryRecordHasOneFate(seen: Seen, closed: seq<Tomb>, a: Call, order: seq<Key>, k: Key)
    requires WellFormed(a) && WellKeyed(seen) && Visits(seen, closed, a, order) && k in seen
    ensures var o := Observed(seen, closed, a, order); var r := seen[k];
            if k.runtime != a.rt then k in o.seen && o.seen[k] == r
            else if k in ExitKeys(a.rt, a.exits) then k !in o.seen && k !in o.carried && k !in o.ended
            else if Present(a.items, k.id) then
              k in o.seen && k !in o.carried && k !in o.ended
              && exists i :: 0 <= i < |a.items| && a.items[i].id == k.id && o.seen[k] == Updated(r, a.items[i], a.now)
            else if !a.complete || r.lastSeen >= a.listedAt then k in o.seen && o.seen[k] == r && k !in o.ended
            else if k in o.carried then
              && k !in o.seen && k !in o.ended
              && SameStart(o.carried[k].startedAt, r.startedAt)
              && Key(a.rt, o.carried[k].id) in o.seen
              && o.seen[Key(a.rt, o.carried[k].id)] == Renamed(r, o.carried[k])
            else k !in o.seen && k in o.ended
  {
    hide ScanAll, AfterItems, Scanned, Observed, Tombs, ExitTombs, Sharing, Unclaimed, Deserved, Balanced, UnknownTo;
    var f, g, o := AfterItems(seen, closed, a), Scanned(seen, closed, a, order), Observed(seen, closed, a, order);
    ItemsAfterExits(seen, closed, a);
    ScanThenSight(seen, closed, a, order);
    NewAreListed(f, Context(a), g);
    assert forall q :: q in ExitKeys(a.rt, a.exits) ==> q.runtime == a.rt;
    if k in ExitKeys(a.rt, a.exits) {
      ExitedIsGone(a, k);
      assert k !in f.seen;
    } else if k.runtime == a.rt && Present(a.items, k.id) {
      assert !Judged(f, Context(a), k);
      ListedIsUpdated(seen, f, a, k);
    } else {
      UnlistedFate(f, g, Context(a), k);
      assert f.seen[k] == seen[k];
    }
  }

  lemma ListedIsUpdated(seen: Seen, f: Fold, a: Call, k: Key)
    requires SeenUpdated(seen - ExitKeys(a.rt, a.exits), f.seen, a.rt, a.items, a.now)
    requires k in seen && k !in ExitKeys(a.rt, a.exits) && k.runtime == a.rt && Present(a.items, k.id)
    ensures k in f.seen
    ensures exists i :: 0 <= i < |a.items| && a.items[i].id == k.id && f.seen[k] == Updated(seen[k], a.items[i], a.now)
  {
    var i :| 0 <= i < |a.items| && a.items[i].id == k.id;
    assert Key(a.rt, a.items[i].id) == k && f.seen[k] == Updated(seen[k], a.items[i], a.now);
  }

  lemma UnlistedFate(f: Fold, g: Fold, c: Ctx, k: Key)
    requires Fates(f, c, g) && Untouched(f, g) && Moved(f, c, g) && k in f.seen
    ensures if k in g.carried then
              && k !in g.seen && k !in g.ended && SameStart(g.carried[k].startedAt, f.seen[k].startedAt)
              && Key(c.rt, g.carried[k].id) in g.seen
              && g.seen[Key(c.rt, g.carried[k].id)] == Renamed(f.seen[k], g.carried[k])
            else if k in g.ended then k !in g.seen
            else k in g.seen && g.seen[k] == f.seen[k]
  {
    hide Judged;
    if k in g.carried {
      assert MovedTo(f, g, k, Key(c.rt, g.carried[k].id));
    }
  }

  lemma ExitedIsGone(a: Call, k: Key)
    requires WellFormed(a) && k in ExitKeys(a.rt, a.exits)
    ensures !Present(a.items, k.id)
  {
  }

  lemma NewAreListed(f: Fold, c: Ctx, g: Fold)
    requires ReadyToScan(f, c) && Fates(f, c, g) && Moved(f, c, g)
    ensures forall k :: k in g.seen && k !in f.seen ==> k.runtime == c.rt && Present(c.items, k.id)
  {
    forall k | k in g.seen && k !in f.seen ensures k.runtime == c.rt && Present(c.items, k.id) {
      var l :| l in g.carried && k == Key(c.rt, g.carried[l].id);
      var n :| 0 <= n < |f.novel| && f.novel[n] == g.carried[l];
    }
  }

  /** The tombstones balance: what was there, less premature closes of sessions that are listed, plus one for
      each captured exit, one for each recycled id, one for each record ended by absence. */
  lemma TombstonesBalance(seen: Seen, closed: seq<Tomb>, a: Call, order: seq<Key>)
    requires WellFormed(a) && WellKeyed(seen) && Visits(seen, closed, a, order)
    ensures var o := Observed(seen, closed, a, order);
            && multiset(o.closed) + multiset(o.withdrawn)
               == multiset(closed) + multiset(ExitTombs(seen, a.rt, a.exits))
                  + multiset(Tombs(seen, o.recycled, a.now)) + multiset(Tombs(seen, o.ended, a.now))
            && Distinct(o.ended)
            && (!a.complete ==> o.ended == [] && o.carried == map[])
    ensures forall t :: t in Observed(seen, closed, a, order).withdrawn ==>
              exists i :: 0 <= i < |a.items| && Premature(t, a.rt, a.items[i])
  {
    var f, g, o := AfterItems(seen, closed, a), Scanned(seen, closed, a, order), Observed(seen, closed, a, order);
    ItemsAfterExits(seen, closed, a);
    ScanThenSight(seen, closed, a, order);
    ExitsSettled(seen, closed, a.rt, a.exits);
    ScanKeepsRest(f, Context(a), order);
    forall t | t in o.withdrawn ensures exists i :: 0 <= i < |a.items| && Premature(t, a.rt, a.items[i]) {
      WithdrawnWerePremature(DoExits(Begin(seen, closed), a.rt, a.exits), a.rt, a.items, a.now, t);
    }
    assert !a.complete ==> o.ended == [] && o.carried == map[];
    forall k | k in g.ended ensures k in f.seen && k in seen && f.seen[k] == seen[k] {
      assert Judged(f, Context(a), k);
    }
    hide *;
    TombsOfSubmap(seen, f.seen, g.ended, a.now);
    CloseBalance(f, g, o, Context(a), seen, closed, multiset(ExitTombs(seen, a.rt, a.exits)));
  }

  lemma {:induction false} ScanKeepsRest(f: Fold, c: Ctx, order: seq<Key>)
    ensures var g := ScanAll(f, c, order);
            g.withdrawn == f.withdrawn && g.recycled == f.recycled && g.exited == f.exited
    decreases |order|
  {
    if order != [] {
      ScanKeepsRest(f, c, order[..|order| - 1]);
    }
  }

  lemma CloseBalance(f: Fold, g: Fold, o: Fold, c: Ctx, seen: Seen, closed: seq<Tomb>, exits: multiset<Tomb>)
    requires Balanced(f, c, g) && o == g.(seen := o.seen)
    requires g.withdrawn == f.withdrawn && g.recycled == f.recycled
    requires multiset(f.closed) + multiset(f.withdrawn) == multiset(closed) + exits + multiset(Tombs(seen, f.recycled, c.now))
    requires Tombs(f.seen, g.ended, c.now) == Tombs(seen, g.ended, c.now)
    ensures multiset(o.closed) + multiset(o.withdrawn)
         == multiset(closed) + exits + multiset(Tombs(seen, o.recycled, c.now)) + multiset(Tombs(seen, o.ended, c.now))
  {
    var ended := multiset(Tombs(seen, g.ended, c.now));
    assert multiset(o.closed) == multiset(f.closed) + ended;
    assert (multiset(f.closed) + ended) + multiset(f.withdrawn) == (multiset(f.closed) + multiset(f.withdrawn)) + ended;
  }

  /** The seen count moves by the uncarried newly listed sessions, less the exits of known sessions, less
      the absences; and every record that is new is a listed session's. */
  lemma SeenCount(seen: Seen, closed: seq<Tomb>, a: Call, order: seq<Key>)
    requires WellFormed(a) && WellKeyed(seen) && Visits(seen, closed, a, order)
    ensures var o := Observed(seen, closed, a, order);
            && |o.seen| + |ExitKeys(a.rt, a.exits) * seen.Keys| + |o.ended| == |seen| + |o.novel|
            && |o.novel| + |o.carried| == |Filter(UnknownTo(seen - ExitKeys(a.rt, a.exits), a.rt), a.items)|
    ensures forall k :: k in Observed(seen, closed, a, order).seen && k !in seen ==>
              k.runtime == a.rt && Present(a.items, k.id)
  {
    var f, g, o := AfterItems(seen, closed, a), Scanned(seen, closed, a, order), Observed(seen, closed, a, order);
    ItemsAfterExits(seen, closed, a);
    ScanThenSight(seen, closed, a, order);
    NewAreListed(f, Context(a), g);
    LessExits(seen, ExitKeys(a.rt, a.exits));
    assert f.seen.Keys == (seen - ExitKeys(a.rt, a.exits)).Keys;
    assert |f.seen| == |f.seen.Keys| && |seen - ExitKeys(a.rt, a.exits)| == |(seen - ExitKeys(a.rt, a.exits)).Keys|;
    hide ScanAll, AfterItems, Scanned, Observed, Tombs, ExitTombs, Sharing, Deserved, UnknownTo, Moved, Untouched, Fates, SeenUpdated;
  }

  lemma LessExits(seen: Seen, gone: set<Key>)
    ensures |seen - gone| + |gone * seen.Keys| == |seen|
  {
    assert (seen - gone).Keys == seen.Keys - gone * seen.Keys;
    assert |seen - gone| == |(seen - gone).Keys| && |seen| == |seen.Keys|;
  }

  /** Confluence of the whole call. */
  lemma ObserveConfluent(seen: Seen, closed: seq<Tomb>, a: Call, o1: seq<Key>, o2: seq<Key>)
    requires WellFormed(a) && WellKeyed(seen) && Visits(seen, closed, a, o1) && Visits(seen, closed, a, o2)
    requires Unambiguous(AfterItems(seen, closed, a), Context(a))
    ensures var r1, r2 := Observed(seen, closed, a, o1), Observed(seen, closed, a, o2);
            r1.seen == r2.seen && multiset(r1.closed) == multiset(r2.closed)
  {
    var f := AfterItems(seen, closed, a);
    ItemsAfterExits(seen, closed, a);
    if a.complete {
      var g1, g2 := Scanned(seen, closed, a, o1), Scanned(seen, closed, a, o2);
      ScanConfluent(f, Context(a), o1, o2);
      ScanConserves(f, Context(a), o1);
      ScanConserves(f, Context(a), o2);
      LeftOver(f, Context(a), g1);
      LeftOver(f, Context(a), g2);
      SightSame(g1.seen, a.rt, g1.novel, g2.novel, a.now);
    }
  }

  /** Whatever order the scan takes, the tombstones are the same. */
  ghost predicate OrderFree(seen: Seen, closed: seq<Tomb>, a: Call)
  {
    forall o1, o2 :: Visits(seen, closed, a, o1) && Visits(seen, closed, a, o2) ==>
      multiset(Observed(seen, closed, a, o1).closed) == multiset(Observed(seen, closed, a, o2).closed)
  }

  /** The condition is exact: the tombstones of a call depend on the iteration order if and only if the listing is
      complete and two missing records compete for one newly listed session. */
  lemma OrderFreeIff(seen: Seen, closed: seq<Tomb>, a: Call)
    requires WellFormed(a) && WellKeyed(seen)
    ensures OrderFree(seen, closed, a) <==> (a.complete ==> Unambiguous(AfterItems(seen, closed, a), Context(a)))
  {
    hide *;
    if a.complete && !Unambiguous(AfterItems(seen, closed, a), Context(a)) {
      RivalsShow(seen, closed, a);
    } else {
      forall o1, o2 | Visits(seen, closed, a, o1) && Visits(seen, closed, a, o2)
        ensures multiset(Observed(seen, closed, a, o1).closed) == multiset(Observed(seen, closed, a, o2).closed)
      {
        if a.complete {
          ObserveConfluent(seen, closed, a, o1, o2);
        } else {
          ObservedShape(seen, closed, a, o1);
          ObservedShape(seen, closed, a, o2);
        }
      }
      FreeOfOrder(seen, closed, a);
    }
  }

  lemma FreeOfOrder(seen: Seen, closed: seq<Tomb>, a: Call)
    requires forall o1, o2 :: Visits(seen, closed, a, o1) && Visits(seen, closed, a, o2) ==>
               multiset(Observed(seen, closed, a, o1).closed) == multiset(Observed(seen, closed, a, o2).closed)
    ensures OrderFree(seen, closed, a)
  {
    hide Visits, Observed;
  }

  lemma RivalsShow(seen: Seen, closed: seq<Tomb>, a: Call)
    requires WellFormed(a) && WellKeyed(seen) && a.complete && !Unambiguous(AfterItems(seen, closed, a), Context(a))
    ensures !OrderFree(seen, closed, a)
  {
    hide *;
    var f, c := AfterItems(seen, closed, a), Context(a);
    ItemsAfterExits(seen, closed, a);
    var k, l := Rivals(f, c);
    var keys := Enumerate(f.seen.Keys);
    var o1, o2 := [k] + keys, [l] + keys;
    VisitsAll(seen, closed, a, o1);
    VisitsAll(seen, closed, a, o2);
    ObservedShape(seen, closed, a, o1);
    ObservedShape(seen, closed, a, o2);
    RivalsDiverge(f, c, o1, o2);
    NotFree(seen, closed, a, o1, o2);
  }

  lemma Rivals(f: Fold, c: Ctx) returns (k: Key, l: Key)
    requires !Unambiguous(f, c)
    ensures k in f.seen && l in f.seen && k != l && Judged(f, c, k) && Judged(f, c, l)
    ensures SameStart(f.seen[k].startedAt, f.seen[l].startedAt) && Sharing(f.seen[k].startedAt, f.novel) == 1
  {
    hide Judged, Sharing, SameStart;
    k, l :| k in f.seen && l in f.seen && k != l && Judged(f, c, k) && Judged(f, c, l)
            && SameStart(f.seen[k].startedAt, f.seen[l].startedAt) && Sharing(f.seen[k].startedAt, f.novel) == 1;
  }

  lemma VisitsAll(seen: Seen, closed: seq<Tomb>, a: Call, order: seq<Key>)
    requires order != [] && forall k :: k in AfterItems(seen, closed, a).seen ==> k in order[1..]
    ensures Visits(seen, closed, a, order)
  {
    hide AfterItems;
    assert order == [order[0]] + order[1..];
  }

  lemma NotFree(seen: Seen, closed: seq<Tomb>, a: Call, o1: seq<Key>, o2: seq<Key>)
    requires Visits(seen, closed, a, o1) && Visits(seen, closed, a, o2)
    requires multiset(Observed(seen, closed, a, o1).closed) != multiset(Observed(seen, closed, a, o2).closed)
    ensures !OrderFree(seen, closed, a)
  {
    hide Visits, Observed;
  }

  lemma SightSame(seen: Seen, rt: RuntimeId, xs: seq<Session>, ys: seq<Session>, now: Time)
    requires DistinctIds(xs) && DistinctIds(ys) && forall s :: s in xs <==> s in ys
    requires forall i :: 0 <= i < |xs| ==> Key(rt, xs[i].id) !in seen
    requires forall i :: 0 <= i < |ys| ==> Key(rt, ys[i].id) !in seen
    ensures SightAll(seen, rt, xs, now) == SightAll(seen, rt, ys, now)
  {
    SightBelow(seen, rt, xs, ys, now);
    SightBelow(seen, rt, ys, xs, now);
    hide *;
    assert SightAll(seen, rt, xs, now).Keys == SightAll(seen, rt, ys, now).Keys;
  }

  lemma SightBelow(seen: Seen, rt: RuntimeId, xs: seq<Session>, ys: seq<Session>, now: Time)
    requires DistinctIds(xs) && DistinctIds(ys) && forall s :: s in xs ==> s in ys
    requires forall i :: 0 <= i < |xs| ==> Key(rt, xs[i].id) !in seen
    requires forall i :: 0 <= i < |ys| ==> Key(rt, ys[i].id) !in seen
    ensures forall k :: k in SightAll(seen, rt, xs, now) ==>
              k in SightAll(seen, rt, ys, now) && SightAll(seen, rt, xs, now)[k] == SightAll(seen, rt, ys, now)[k]
  {
    SightNovel(seen, rt, xs, now);
    SightNovel(seen, rt, ys, now);
    forall k | k in SightAll(seen, rt, xs, now)
      ensures k in SightAll(seen, rt, ys, now) && SightAll(seen, rt, xs, now)[k] == SightAll(seen, rt, ys, now)[k]
    {
      if k !in seen {
        var i :| 0 <= i < |xs| && xs[i].id == k.id;
        assert xs[i] in ys;
        var j :| 0 <= j < |ys| && ys[j] == xs[i];
        assert Key(rt, xs[i].id) == k == Key(rt, ys[j].id);
      }
    }
  }

  // ---- where the code keeps less than its comments say ---------------------

  /** An accepted rename moves its record. */
  function RenameSeen(seen: Seen, rt: RuntimeId, from: string, to: string): Seen
  {
    if Key(rt, from) !in seen || from == to then seen
    else (seen - {Key(rt, from)})[Key(rt, to) := seen[Key(rt, from)].(id := to, name := to)]
  }

  /** It loses no record if and only if none was kept under the new id; a record that was is dropped
      without a tombstone. */
  lemma RenameConservesIff(seen: Seen, rt: RuntimeId, from: string, to: string)
    requires Key(rt, from) in seen && from != to
    ensures |RenameSeen(seen, rt, from, to)| == |seen| <==> Key(rt, to) !in seen
    ensures Key(rt, to) in seen ==> |RenameSeen(seen, rt, from, to)| == |seen| - 1
  {
    var k, k' := Key(rt, from), Key(rt, to);
    var out := RenameSeen(seen, rt, from, to);
    assert out.Keys == seen.Keys - {k} + {k'};
    assert |out| == |out.Keys| && |seen| == |seen.Keys|;
  }
}
