// The scan of a complete listing (internal/service/history.go): it edits the seen map while it
// iterates over it and shrinks the list of newly listed sessions as it goes. What becomes of every
// record, for any iteration order, and when the order matters.
module HistoryScan {
  import opened Fleet
  import opened Seqs
  import opened HistorySpec

  datatype Ctx = Ctx(rt: RuntimeId, items: seq<Session>, listedAt: Time, now: Time)

  function ScanAll(f: Fold, c: Ctx, order: seq<Key>): Fold
  {
    Scan(f, c.rt, c.items, c.listedAt, c.now, order)
  }

  predicate Judged(f: Fold, c: Ctx, k: Key)
  {
    Missing(f.seen, c.rt, c.items, c.listedAt, k)
  }

  /** What folding the items in leaves behind for the scan. */
  predicate ReadyToScan(f: Fold, c: Ctx)
  {
    && f.carried == map[] && f.ended == []
    && (forall k :: k in f.seen ==> f.seen[k].id == k.id)
    && (forall i :: 0 <= i < |f.novel| ==> Key(c.rt, f.novel[i].id) !in f.seen && Present(c.items, f.novel[i].id))
    && (forall i, j :: 0 <= i < j < |f.novel| ==> f.novel[i].id != f.novel[j].id)
  }

  /** The order visits everything the scan judges; it may visit anything else too. */
  predicate Covers(f: Fold, c: Ctx, order: seq<Key>)
  {
    forall k :: k in f.seen && Judged(f, c, k) ==> k in order
  }

  // ---- counting -----------------------------------------------------------

  lemma {:induction false} SharingRemove(start: Option<Time>, xs: seq<Session>, i: nat)
    requires i < |xs|
    ensures Sharing(start, RemoveAt(xs, i)) == Sharing(start, xs) - if SameStart(xs[i].startedAt, start) then 1 else 0
    decreases |xs|
  {
    var n := |xs| - 1;
    if i == n {
      assert RemoveAt(xs, i) == xs[..n];
    } else {
      SharingRemove(start, xs[..n], i);
      var ys := RemoveAt(xs, i);
      assert ys[..n - 1] == RemoveAt(xs[..n], i) && ys[n - 1] == xs[n];
    }
  }

  lemma RemoveAtMembers<T>(xs: seq<T>, i: nat, x: T)
    requires i < |xs| && x in xs
    ensures x == xs[i] || x in RemoveAt(xs, i)
  {
    var j :| 0 <= j < |xs| && xs[j] == x;
    if j < i {
      assert RemoveAt(xs, i)[j] == x;
    } else if j > i {
      assert RemoveAt(xs, i)[j - 1] == x;
    }
  }

  lemma {:induction false} SharingSome(start: Option<Time>, xs: seq<Session>, i: nat)
    requires i < |xs| && SameStart(xs[i].startedAt, start)
    ensures Sharing(start, xs) >= 1
    ensures Sharing(start, xs) == 1 ==> Holder(start, xs) == i
  {
    var n := |xs| - 1;
    if i < n {
      SharingSome(start, xs[..n], i);
    } else if Sharing(start, xs) == 1 {
    }
  }

  lemma {:induction false} SharingPositive(start: Option<Time>, xs: seq<Session>)
    ensures Holder(start, xs) >= 0 <==> Sharing(start, xs) > 0
  {
    if xs != [] {
      SharingPositive(start, xs[..|xs| - 1]);
    }
  }

  lemma {:induction false} SharingSame(a: Option<Time>, b: Option<Time>, xs: seq<Session>)
    requires SameStart(a, b)
    ensures Sharing(a, xs) == Sharing(b, xs)
  {
    if xs != [] {
      SharingSame(a, b, xs[..|xs| - 1]);
    }
  }

  // ---- what the scan keeps ------------------------------------------------

  function Tombs(seen: Seen, ended: seq<Key>, now: Time): seq<Tomb>
  {
    if ended == [] then []
    else
      var k := ended[|ended| - 1];
      Tombs(seen, ended[..|ended| - 1], now) + [Absent(k, RecAt(seen, k), now)]
  }

  /** Nobody is both carried and ended, and only judged records are either; a carried record's new
      session is newly listed and has its startedAt, and no two records share one. */
  predicate Fates(f: Fold, c: Ctx, g: Fold)
  {
    && Distinct(g.ended)
    && (forall k :: k in g.ended ==> k !in g.carried && Judged(f, c, k))
    && (forall k :: k in g.carried ==>
          && Judged(f, c, k)
          && g.carried[k] in f.novel
          && SameStart(g.carried[k].startedAt, f.seen[k].startedAt))
    && (forall k, l :: k in g.carried && l in g.carried && k != l ==> g.carried[k].id != g.carried[l].id)
  }

  /** Records with no fate yet are untouched, and no record with one is still at its old key. */
  predicate Untouched(f: Fold, g: Fold)
  {
    && (forall k :: k in f.seen && k !in g.carried && k !in g.ended ==> k in g.seen && g.seen[k] == f.seen[k])
    && (forall k :: k in g.seen && k in f.seen ==> k !in g.carried && k !in g.ended)
  }

  /** Every carried record is at its run's new key, as it was but for id and name, and nothing else is new. */
  predicate Moved(f: Fold, c: Ctx, g: Fold)
  {
    && (forall k :: k in g.carried ==> k in f.seen && MovedTo(f, g, k, Key(c.rt, g.carried[k].id)))
    && (forall k :: k in g.seen && k !in f.seen ==> exists l :: l in g.carried && k == Key(c.rt, g.carried[l].id))
  }

  predicate MovedTo(f: Fold, g: Fold, k: Key, k': Key)
    requires k in f.seen && k in g.carried
  {
    k' in g.seen && g.seen[k'] == Renamed(f.seen[k], g.carried[k])
  }

  /** One tombstone for each ended record, in the order they were met; no record is lost or made up. */
  predicate Balanced(f: Fold, c: Ctx, g: Fold)
  {
    && g.closed == f.closed + Tombs(f.seen, g.ended, c.now)
    && |g.seen| + |g.ended| == |f.seen|
  }

  predicate Places(f: Fold, c: Ctx, g: Fold)
  {
    Untouched(f, g) && Moved(f, c, g) && Balanced(f, c, g)
  }

  /** The newly listed sessions not yet claimed. */
  predicate Unclaimed(f: Fold, g: Fold)
  {
    && (forall i :: 0 <= i < |g.novel| ==> g.novel[i] in f.novel)
    && (forall i, j :: 0 <= i < j < |g.novel| ==> g.novel[i].id != g.novel[j].id)
    && (forall i, k :: 0 <= i < |g.novel| && k in g.carried ==> g.novel[i].id != g.carried[k].id)
    && (forall s :: s in f.novel && s !in g.novel ==> exists k :: k in g.carried && g.carried[k] == s)
    && |g.novel| + |g.carried| == |f.novel|
  }

  /** Claims only ever take a startedAt that exactly one newly listed session had. */
  ghost predicate Claims(f: Fold, g: Fold)
  {
    forall start :: Claim(f, g, start)
  }

  predicate Claim(f: Fold, g: Fold, start: Option<Time>)
  {
    Sharing(start, g.novel) == Sharing(start, f.novel)
    || (Sharing(start, f.novel) == 1 && Sharing(start, g.novel) == 0
        && exists k :: k in g.carried && k in f.seen && SameStart(f.seen[k].startedAt, start))
  }

  /** Only a record whose startedAt exactly one newly listed session has is ever carried. */
  predicate Deserved(f: Fold, g: Fold)
  {
    forall k :: k in g.carried && k in f.seen ==> Sharing(f.seen[k].startedAt, f.novel) == 1
  }

  ghost predicate ScanInv(f: Fold, c: Ctx, g: Fold)
  {
    Fates(f, c, g) && Places(f, c, g) && Unclaimed(f, g) && Claims(f, g) && Deserved(f, g)
  }

  lemma ScanStarts(f: Fold, c: Ctx)
    requires ReadyToScan(f, c)
    ensures ScanInv(f, c, f)
  {
    assert f.closed + [] == f.closed;
  }

  /** A record carried earlier in the scan and met again is not judged twice. */
  lemma JudgedOnce(f: Fold, c: Ctx, g: Fold, k: Key)
    requires ReadyToScan(f, c) && Fates(f, c, g) && Places(f, c, g)
    ensures Missing(g.seen, c.rt, c.items, c.listedAt, k) <==> Judged(f, c, k) && k !in g.carried && k !in g.ended
    ensures Missing(g.seen, c.rt, c.items, c.listedAt, k) ==> g.seen[k] == f.seen[k]
  {
    hide Balanced, SameStart, MovedTo;
    if k in g.seen && k !in f.seen {
      var l :| l in g.carried && k == Key(c.rt, g.carried[l].id);
      var i :| 0 <= i < |f.novel| && f.novel[i] == g.carried[l];
    }
  }

  // ---- a record is carried ------------------------------------------------

  /** k is visited while session i is the one that continues its run. */
  predicate Carries(f: Fold, c: Ctx, g: Fold, k: Key, i: nat)
  {
    && k in f.seen && Judged(f, c, k) && k !in g.carried && k !in g.ended
    && k in g.seen && g.seen[k] == f.seen[k]
    && i < |g.novel| && CarryIndex(g.seen[k], g.novel) == i
  }

  lemma CarryShape(f: Fold, c: Ctx, g: Fold, k: Key, i: nat)
    requires Carries(f, c, g, k, i)
    ensures var g' := Settle(g, k, c.now);
            && k.runtime == c.rt
            && g'.novel == RemoveAt(g.novel, i) && g'.carried == g.carried[k := g.novel[i]] && g'.ended == g.ended
            && g'.closed == g.closed
            && g'.seen == (g.seen - {k})[Key(c.rt, g.novel[i].id) := Renamed(f.seen[k], g.novel[i])]
            && SameStart(g.novel[i].startedAt, f.seen[k].startedAt)
  {
  }

  lemma CarryFates(f: Fold, c: Ctx, g: Fold, k: Key, i: nat)
    requires Fates(f, c, g) && Unclaimed(f, g) && Carries(f, c, g, k, i)
    ensures Fates(f, c, Settle(g, k, c.now))
  {
    hide Settle, CarryIndex, Judged, RemoveAt, SameStart, Renamed, Unclaimed;
    CarryShape(f, c, g, k, i);
    UnclaimedAt(f, g, i);
  }

  lemma UnclaimedAt(f: Fold, g: Fold, i: nat)
    requires Unclaimed(f, g) && i < |g.novel|
    ensures g.novel[i] in f.novel && forall k :: k in g.carried ==> g.carried[k].id != g.novel[i].id
  {
  }

  lemma ClaimOne(f: Fold, g: Fold, g': Fold, k: Key, i: nat)
    requires Unclaimed(f, g) && i < |g.novel| && k !in g.carried
    requires g'.novel == RemoveAt(g.novel, i) && g'.carried == g.carried[k := g.novel[i]]
    ensures Unclaimed(f, g')
  {
    var s := g.novel[i];
    forall j | 0 <= j < |g'.novel| ensures g'.novel[j] in f.novel && g'.novel[j].id != s.id {
      assert g'.novel[j] == g.novel[if j < i then j else j + 1];
    }
    forall t | t in f.novel && t !in g'.novel ensures exists l :: l in g'.carried && g'.carried[l] == t {
      if t in g.novel {
        RemoveAtMembers(g.novel, i, t);
        assert g'.carried[k] == t;
      } else {
        var l :| l in g.carried && g.carried[l] == t;
        assert g'.carried[l] == t;
      }
    }
  }

  /** The new id was nobody's. */
  lemma NewIdIsFree(f: Fold, c: Ctx, g: Fold, i: nat)
    requires ReadyToScan(f, c) && Places(f, c, g) && Unclaimed(f, g) && i < |g.novel|
    ensures Key(c.rt, g.novel[i].id) !in f.seen && Key(c.rt, g.novel[i].id) !in g.seen
  {
    hide Missing, Judged, Fates, Tombs;
    var s := g.novel[i];
    var k' := Key(c.rt, s.id);
    assert s in f.novel;
    var n :| 0 <= n < |f.novel| && f.novel[n] == s;
    assert forall l :: l in g.carried ==> s.id != g.carried[l].id;
  }

  lemma MovedNow(f: Fold, g: Fold, k: Key, k': Key)
    requires k in f.seen && k in g.carried && k' in g.seen && g.seen[k'] == Renamed(f.seen[k], g.carried[k])
    ensures MovedTo(f, g, k, k')
  {
  }

  lemma StaysMoved(f: Fold, g: Fold, g': Fold, k: Key, k': Key)
    requires k in f.seen && k in g.carried && k in g'.carried && g'.carried[k] == g.carried[k] && MovedTo(f, g, k, k')
    requires k' in g.seen ==> k' in g'.seen && g'.seen[k'] == g.seen[k']
    ensures MovedTo(f, g', k, k')
  {
  }

  lemma MoveOne(f: Fold, c: Ctx, g: Fold, g': Fold, k: Key, s: Session)
    requires Moved(f, c, g) && k in f.seen && k in g.seen && k !in g.carried
    requires Key(c.rt, s.id) !in f.seen && Key(c.rt, s.id) !in g.seen
    requires g'.carried == g.carried[k := s]
    requires g'.seen == (g.seen - {k})[Key(c.rt, s.id) := Renamed(f.seen[k], s)]
    requires forall l :: l in g.carried ==> Key(c.rt, g.carried[l].id) != k
    ensures Moved(f, c, g')
  {
    hide Renamed, MovedTo;
    forall l | l in g'.carried ensures l in f.seen && MovedTo(f, g', l, Key(c.rt, g'.carried[l].id)) {
      if l == k {
        MovedNow(f, g', k, Key(c.rt, s.id));
      } else {
        StaysMoved(f, g, g', l, Key(c.rt, g.carried[l].id));
      }
    }
    forall q | q in g'.seen && q !in f.seen ensures exists l :: l in g'.carried && q == Key(c.rt, g'.carried[l].id) {
      if q == Key(c.rt, s.id) {
        assert g'.carried[k] == s;
      } else {
        var l :| l in g.carried && q == Key(c.rt, g.carried[l].id);
        assert g'.carried[l] == g.carried[l];
      }
    }
  }

  lemma UntouchedOne(f: Fold, g: Fold, g': Fold, k: Key, k': Key, r: Rec)
    requires Untouched(f, g) && k' !in f.seen
    requires g'.seen == g.seen - {k} || g'.seen == (g.seen - {k})[k' := r]
    requires forall l :: (l in g'.carried || l in g'.ended) <==> (l in g.carried || l in g.ended || l == k)
    ensures Untouched(f, g')
  {
  }

  lemma SeenSizes(seen: Seen, k: Key, k': Key, r: Rec)
    requires k in seen && k' !in seen
    ensures |seen - {k}| == |seen| - 1
    ensures |(seen - {k})[k' := r]| == |seen|
  {
    assert |seen.Keys| == |seen|;
    assert (seen - {k}).Keys == seen.Keys - {k};
    assert |(seen - {k}).Keys| == |seen - {k}|;
    var moved := (seen - {k})[k' := r];
    assert moved.Keys == seen.Keys - {k} + {k'};
    assert |moved.Keys| == |moved|;
  }

  lemma CarriedIdsAreNew(f: Fold, c: Ctx, g: Fold)
    requires ReadyToScan(f, c) && Fates(f, c, g)
    ensures forall l :: l in g.carried ==> Key(c.rt, g.carried[l].id) !in f.seen
  {
    forall l | l in g.carried ensures Key(c.rt, g.carried[l].id) !in f.seen {
      var n :| 0 <= n < |f.novel| && f.novel[n] == g.carried[l];
    }
  }

  lemma CarryPlaces(f: Fold, c: Ctx, g: Fold, k: Key, i: nat)
    requires ReadyToScan(f, c) && Fates(f, c, g) && Places(f, c, g) && Unclaimed(f, g) && Carries(f, c, g, k, i)
    ensures Places(f, c, Settle(g, k, c.now))
  {
    CarryShape(f, c, g, k, i);
    NewIdIsFree(f, c, g, i);
    CarriedIdsAreNew(f, c, g);
    assert Untouched(f, g) && Moved(f, c, g) && Balanced(f, c, g);
    hide Settle, CarryIndex, Missing, SameStart, Unclaimed, ReadyToScan, Fates, Tombs, RemoveAt, Renamed, Untouched, Moved;
    var g' := Settle(g, k, c.now);
    var s := g.novel[i];
    MoveOne(f, c, g, g', k, s);
    UntouchedOne(f, g, g', k, Key(c.rt, s.id), Renamed(f.seen[k], s));
    SeenSizes(g.seen, k, Key(c.rt, s.id), Renamed(f.seen[k], s));
  }

  lemma CarryClaims(f: Fold, c: Ctx, g: Fold, k: Key, i: nat)
    requires Claims(f, g) && Deserved(f, g) && Carries(f, c, g, k, i)
    ensures Claims(f, Settle(g, k, c.now)) && Deserved(f, Settle(g, k, c.now))
  {
    CarryShape(f, c, g, k, i);
    var g' := Settle(g, k, c.now);
    var own := f.seen[k].startedAt;
    assert Sharing(own, g.novel) == 1 && Claim(f, g, own);
    hide Settle, CarryIndex, Missing, RemoveAt, Carries, Judged;
    forall start ensures Claim(f, g', start) {
      assert Claim(f, g, start) && Claim(f, g, own);
      SharingRemove(start, g.novel, i);
      if SameStart(g.novel[i].startedAt, start) {
        SharingSame(start, own, g.novel);
        SharingSame(start, own, f.novel);
        assert k in g'.carried && SameStart(f.seen[k].startedAt, start);
      } else if Sharing(start, g.novel) != Sharing(start, f.novel) {
        var l :| l in g.carried && l in f.seen && SameStart(f.seen[l].startedAt, start);
        assert l in g'.carried;
      }
    }
  }

  // ---- a record is ended --------------------------------------------------

  /** k is visited while no one newly listed session continues its run. */
  predicate Ends(f: Fold, c: Ctx, g: Fold, k: Key)
  {
    && k in f.seen && Judged(f, c, k) && k !in g.carried && k !in g.ended
    && k in g.seen && g.seen[k] == f.seen[k] && CarryIndex(g.seen[k], g.novel) < 0
  }

  lemma EndShape(f: Fold, c: Ctx, g: Fold, k: Key)
    requires Ends(f, c, g, k)
    ensures var g' := Settle(g, k, c.now);
            g' == g.(seen := g.seen - {k}, closed := g.closed + [Absent(k, f.seen[k], c.now)], ended := g.ended + [k])
  {
  }

  lemma EndPlaces(f: Fold, c: Ctx, g: Fold, k: Key)
    requires ReadyToScan(f, c) && Fates(f, c, g) && Places(f, c, g) && Ends(f, c, g, k)
    ensures Places(f, c, Settle(g, k, c.now))
  {
    hide Settle, CarryIndex, Missing, SameStart, ReadyToScan, Fates, Untouched, Moved, Absent, Judged;
    EndShape(f, c, g, k);
    CarriedIdsAreNew(f, c, g);
    var g' := Settle(g, k, c.now);
    StillMoved(f, c, g, g', k);
    OneFewer(g.seen, g', k);
    assert g'.ended[..|g'.ended| - 1] == g.ended;
    UntouchedEnd(f, g, g', k);
  }

  lemma StillMoved(f: Fold, c: Ctx, g: Fold, g': Fold, k: Key)
    requires Moved(f, c, g) && g'.seen == g.seen - {k} && g'.carried == g.carried
    requires forall l :: l in g.carried ==> Key(c.rt, g.carried[l].id) != k
    ensures Moved(f, c, g')
  {
    forall l | l in g'.carried ensures l in f.seen && MovedTo(f, g', l, Key(c.rt, g'.carried[l].id)) {
      assert MovedTo(f, g, l, Key(c.rt, g.carried[l].id));
    }
  }

  lemma UntouchedEnd(f: Fold, g: Fold, g': Fold, k: Key)
    requires Untouched(f, g) && g'.seen == g.seen - {k} && g'.carried == g.carried && g'.ended == g.ended + [k]
    ensures Untouched(f, g')
  {
  }

  lemma OneFewer(seen: Seen, g': Fold, k: Key)
    requires k in seen && g'.seen == seen - {k}
    ensures |g'.seen| == |seen| - 1
  {
    assert g'.seen.Keys == seen.Keys - {k} && |g'.seen.Keys| == |g'.seen| && |seen.Keys| == |seen|;
  }

  lemma EndKeeps(f: Fold, c: Ctx, g: Fold, k: Key)
    requires ReadyToScan(f, c) && ScanInv(f, c, g) && Ends(f, c, g, k)
    ensures ScanInv(f, c, Settle(g, k, c.now))
  {
    EndPlaces(f, c, g, k);
    EndShape(f, c, g, k);
    FatesEnd(f, c, g, Settle(g, k, c.now), k);
    SameClaims(f, g, Settle(g, k, c.now));
    assert Deserved(f, Settle(g, k, c.now));
  }

  lemma SameClaims(f: Fold, g: Fold, g': Fold)
    requires Unclaimed(f, g) && Claims(f, g) && g'.novel == g.novel && g'.carried == g.carried
    ensures Unclaimed(f, g') && Claims(f, g')
  {
    forall start ensures Claim(f, g', start) {
      assert Claim(f, g, start);
    }
  }

  lemma FatesEnd(f: Fold, c: Ctx, g: Fold, g': Fold, k: Key)
    requires Fates(f, c, g) && k in f.seen && Judged(f, c, k) && k !in g.carried && k !in g.ended
    requires g'.carried == g.carried && g'.ended == g.ended + [k]
    ensures Fates(f, c, g')
  {
    hide Judged, SameStart;
  }

  /** The scan, whatever it has visited so far. */
  lemma {:induction false} ScanKeeps(f: Fold, c: Ctx, order: seq<Key>)
    requires ReadyToScan(f, c)
    ensures ScanInv(f, c, ScanAll(f, c, order))
    ensures forall k :: k in order && Judged(f, c, k) ==>
              k in ScanAll(f, c, order).carried || k in ScanAll(f, c, order).ended
    decreases |order|
  {
    if order == [] {
      ScanStarts(f, c);
    } else {
      var init, k := order[..|order| - 1], order[|order| - 1];
      ScanKeeps(f, c, init);
      assert order == init + [k];
      var g := ScanAll(f, c, init);
      JudgedOnce(f, c, g, k);
      hide Fates, Places, Unclaimed, Claims, Deserved, ReadyToScan, Sharing, Holder;
      if Missing(g.seen, c.rt, c.items, c.listedAt, k) {
        var i := CarryIndex(g.seen[k], g.novel);
        if i >= 0 {
          CarryFates(f, c, g, k, i);
          CarryShape(f, c, g, k, i);
          ClaimOne(f, g, Settle(g, k, c.now), k, i);
          CarryPlaces(f, c, g, k, i);
          CarryClaims(f, c, g, k, i);
        } else {
          EndKeeps(f, c, g, k);
        }
      }
    }
  }

  // ---- every record gets one fate -----------------------------------------

  /** After a whole scan each judged record is carried or ended, never both; carried ones sit unchanged but
      for id and name under the one newly listed session with their startedAt; ended ones have exactly
      one tombstone each; every other record is untouched. */
  lemma ScanConserves(f: Fold, c: Ctx, order: seq<Key>)
    requires ReadyToScan(f, c) && Covers(f, c, order)
    ensures var g := ScanAll(f, c, order);
            && (forall k :: k in f.seen ==> (Judged(f, c, k) <==> k in g.carried || k in g.ended))
            && (forall k :: k in g.carried ==> k !in g.ended)
            && Fates(f, c, g) && Places(f, c, g) && Unclaimed(f, g) && Deserved(f, g)
  {
    ScanKeeps(f, c, order);
  }

  /** No judged record shares with another a startedAt that exactly one newly listed session has. */
  predicate Unambiguous(f: Fold, c: Ctx)
  {
    forall k, l :: k in f.seen && l in f.seen && k != l && Judged(f, c, k) && Judged(f, c, l) ==>
      !(SameStart(f.seen[k].startedAt, f.seen[l].startedAt) && Sharing(f.seen[k].startedAt, f.novel) == 1)
  }

  /** An ended record had no one session to be carried to, or a rival was carried there. */
  predicate EndedFairly(f: Fold, g: Fold, k: Key)
    requires k in f.seen
  {
    || Sharing(f.seen[k].startedAt, f.novel) != 1
    || exists l :: l in g.carried && l in f.seen && SameStart(f.seen[l].startedAt, f.seen[k].startedAt)
  }

  lemma {:induction false} EndedHadNone(f: Fold, c: Ctx, order: seq<Key>)
    requires ReadyToScan(f, c)
    ensures forall k :: k in ScanAll(f, c, order).ended && k in f.seen ==> EndedFairly(f, ScanAll(f, c, order), k)
    decreases |order|
  {
    if order == [] {
      hide EndedFairly;
    } else {
      var init, k := order[..|order| - 1], order[|order| - 1];
      EndedHadNone(f, c, init);
      ScanKeeps(f, c, init);
      var g := ScanAll(f, c, init);
      JudgedOnce(f, c, g, k);
      hide ReadyToScan, EndedFairly, ScanInv, Missing, Sharing, Settle;
      if Missing(g.seen, c.rt, c.items, c.listedAt, k) {
        EndedForGood(f, c, g, k);
      }
    }
  }

  lemma EndedForGood(f: Fold, c: Ctx, g: Fold, k: Key)
    requires ScanInv(f, c, g)
    requires k in f.seen && Judged(f, c, k) && k !in g.carried && k in g.seen && g.seen[k] == f.seen[k]
    requires forall l :: l in g.ended && l in f.seen ==> EndedFairly(f, g, l)
    ensures var g' := Settle(g, k, c.now);
            forall l :: l in g'.ended && l in f.seen ==> EndedFairly(f, g', l)
  {
    var g' := Settle(g, k, c.now);
    SettleShape(g, k, c.now);
    SharingPositive(g.seen[k].startedAt, g.novel);
    assert Claim(f, g, f.seen[k].startedAt);
    hide Settle, Sharing, Holder, Judged, Fates, Places, Unclaimed, Deserved, SameStart;
    forall l | l in g'.ended && l in f.seen ensures EndedFairly(f, g', l) {
      if l in g.ended {
        StaysFair(f, g, g', l);
      }
    }
  }

  lemma SettleShape(g: Fold, k: Key, now: Time)
    requires k in g.seen
    ensures var g' := Settle(g, k, now);
            && (forall l :: l in g.carried ==> l in g'.carried)
            && (forall l :: l in g'.ended ==> l in g.ended || (l == k && CarryIndex(g.seen[k], g.novel) < 0 && g'.carried == g.carried))
  {
    hide Absent, Renamed, Sharing, Holder;
  }

  lemma StaysFair(f: Fold, g: Fold, g': Fold, l: Key)
    requires l in f.seen && EndedFairly(f, g, l) && forall q :: q in g.carried ==> q in g'.carried
    ensures EndedFairly(f, g', l)
  {
    hide Sharing, SameStart;
  }

  /** Without rivals it never had one. */
  lemma EndedAlone(f: Fold, c: Ctx, g: Fold, k: Key)
    requires Unambiguous(f, c) && Fates(f, c, g) && k in g.ended && k in f.seen && EndedFairly(f, g, k)
    ensures Sharing(f.seen[k].startedAt, f.novel) != 1
  {
    hide Judged, Sharing;
  }

  /** The session a record is carried to is determined. */
  lemma CarriedToHolder(f: Fold, c: Ctx, g: Fold, k: Key)
    requires Fates(f, c, g) && Deserved(f, g) && k in g.carried && k in f.seen
    ensures var h := Holder(f.seen[k].startedAt, f.novel); h >= 0 && g.carried[k] == f.novel[h]
  {
    var s := g.carried[k];
    var n :| 0 <= n < |f.novel| && f.novel[n] == s;
    SharingSome(f.seen[k].startedAt, f.novel, n);
  }

  /** What a whole scan decides, in terms of the records alone. */
  lemma FatesDetermined(f: Fold, c: Ctx, order: seq<Key>)
    requires ReadyToScan(f, c) && Unambiguous(f, c) && Covers(f, c, order)
    ensures var g := ScanAll(f, c, order);
            && (forall k :: k in g.carried <==> k in f.seen && Judged(f, c, k) && Sharing(f.seen[k].startedAt, f.novel) == 1)
            && (forall k :: k in g.ended <==> k in f.seen && Judged(f, c, k) && Sharing(f.seen[k].startedAt, f.novel) != 1)
            && (forall k :: k in g.carried ==>
                  var h := Holder(f.seen[k].startedAt, f.novel); h >= 0 && g.carried[k] == f.novel[h])
  {
    ScanConserves(f, c, order);
    EndedHadNone(f, c, order);
    var g := ScanAll(f, c, order);
    forall k | k in g.ended && k in f.seen ensures Sharing(f.seen[k].startedAt, f.novel) != 1 {
      EndedAlone(f, c, g, k);
    }
    forall k | k in g.carried
      ensures k in f.seen && var h := Holder(f.seen[k].startedAt, f.novel); h >= 0 && g.carried[k] == f.novel[h]
    {
      CarriedToHolder(f, c, g, k);
    }
    hide ScanAll, Places, Unclaimed, Sharing, Holder, ReadyToScan, Unambiguous, SameStart;
  }

  lemma SameFates(f: Fold, c: Ctx, o1: seq<Key>, o2: seq<Key>)
    requires ReadyToScan(f, c) && Unambiguous(f, c) && Covers(f, c, o1) && Covers(f, c, o2)
    ensures var g1, g2 := ScanAll(f, c, o1), ScanAll(f, c, o2);
            g1.carried == g2.carried && forall k :: k in g1.ended <==> k in g2.ended
  {
    FatesDetermined(f, c, o1);
    FatesDetermined(f, c, o2);
    hide *;
    var g1, g2 := ScanAll(f, c, o1), ScanAll(f, c, o2);
    assert g1.carried.Keys == g2.carried.Keys;
  }

  // ---- order independence -------------------------------------------------

  lemma {:induction false} TombsOfPermutation(seen: Seen, xs: seq<Key>, ys: seq<Key>, now: Time)
    requires multiset(xs) == multiset(ys)
    ensures multiset(Tombs(seen, xs, now)) == multiset(Tombs(seen, ys, now))
    decreases |xs|
  {
    if xs == [] {
      assert |multiset(ys)| == |ys|;
    } else {
      var i := PermutationWithout(xs, ys);
      TombsRemove(seen, ys, i, now);
      TombsRemove(seen, xs, |xs| - 1, now);
      assert RemoveAt(xs, |xs| - 1) == xs[..|xs| - 1];
      hide *;
      TombsOfPermutation(seen, xs[..|xs| - 1], RemoveAt(ys, i), now);
    }
  }

  lemma {:induction false} TombsConcat(seen: Seen, xs: seq<Key>, ys: seq<Key>, now: Time)
    ensures Tombs(seen, xs + ys, now) == Tombs(seen, xs, now) + Tombs(seen, ys, now)
    decreases |ys|
  {
    hide Absent, RecAt;
    if ys == [] {
      assert xs + ys == xs;
    } else {
      var init := ys[..|ys| - 1];
      TombsConcat(seen, xs, init, now);
      assert (xs + ys)[..|xs + ys| - 1] == xs + init;
    }
  }

  lemma TombsRemove(seen: Seen, xs: seq<Key>, i: nat, now: Time)
    requires i < |xs|
    ensures multiset(Tombs(seen, xs, now))
         == multiset(Tombs(seen, RemoveAt(xs, i), now)) + multiset{Absent(xs[i], RecAt(seen, xs[i]), now)}
  {
    var one := [xs[i]];
    assert one[..0] == [] && Tombs(seen, one[..0], now) == [];
    assert Tombs(seen, one, now) == [Absent(xs[i], RecAt(seen, xs[i]), now)];
    hide Absent, RecAt, Tombs;
    assert xs == (xs[..i] + [xs[i]]) + xs[i + 1..];
    TombsConcat(seen, xs[..i] + [xs[i]], xs[i + 1..], now);
    TombsConcat(seen, xs[..i], [xs[i]], now);
    TombsConcat(seen, xs[..i], xs[i + 1..], now);
  }

  lemma TombsMembers(seen: Seen, xs: seq<Key>, now: Time, t: Tomb)
    ensures t in Tombs(seen, xs, now) <==> exists k :: k in xs && t == Absent(k, RecAt(seen, k), now)
  {
    hide Absent, RecAt;
    if xs != [] {
      var init, k := xs[..|xs| - 1], xs[|xs| - 1];
      assert xs == init + [k];
      TombsMembers(seen, init, now, t);
    }
  }

  lemma SameSeen(f: Fold, c: Ctx, g1: Fold, g2: Fold)
    requires Untouched(f, g1) && Moved(f, c, g1) && Untouched(f, g2) && Moved(f, c, g2)
    requires g1.carried == g2.carried && forall k :: k in g1.ended <==> k in g2.ended
    ensures forall k :: k in g1.seen ==> k in g2.seen && g1.seen[k] == g2.seen[k]
  {
    hide Renamed;
    forall k | k in g1.seen ensures k in g2.seen && g1.seen[k] == g2.seen[k] {
      if k !in f.seen {
        var l :| l in g1.carried && k == Key(c.rt, g1.carried[l].id);
        assert MovedTo(f, g1, l, k) && MovedTo(f, g2, l, k);
      }
    }
  }

  /** Confluence: when no two judged records compete for one newly listed session, the seen records, the
      sessions left to sight and the tombstones (as a multiset) do not depend on the iteration order. */
  lemma ScanConfluent(f: Fold, c: Ctx, o1: seq<Key>, o2: seq<Key>)
    requires ReadyToScan(f, c) && Unambiguous(f, c) && Covers(f, c, o1) && Covers(f, c, o2)
    ensures var g1, g2 := ScanAll(f, c, o1), ScanAll(f, c, o2);
            && g1.seen == g2.seen
            && multiset(g1.closed) == multiset(g2.closed)
            && (forall s :: s in g1.novel <==> s in g2.novel)
  {
    hide ScanAll, ReadyToScan, Unambiguous, Covers, Missing, Judged, SameStart, Deserved, Sharing, Tombs, Untouched, Moved;
    var g1, g2 := ScanAll(f, c, o1), ScanAll(f, c, o2);
    SameFates(f, c, o1, o2);
    ScanConserves(f, c, o1);
    ScanConserves(f, c, o2);
    SameSeen(f, c, g1, g2);
    SameSeen(f, c, g2, g1);
    assert g1.seen == g2.seen by {
      assert g1.seen.Keys == g2.seen.Keys;
    }
    SameMembers(g1.ended, g2.ended);
    TombsOfPermutation(f.seen, g1.ended, g2.ended, c.now);
    SameLeft(f, g1, g2);
    SameLeft(f, g2, g1);
  }

  lemma SameLeft(f: Fold, g1: Fold, g2: Fold)
    requires Unclaimed(f, g1) && Unclaimed(f, g2) && g1.carried == g2.carried
    ensures forall s :: s in g1.novel ==> s in g2.novel
  {
    forall s | s in g1.novel ensures s in g2.novel {
      var i :| 0 <= i < |g1.novel| && g1.novel[i] == s;
      assert forall k :: k in g1.carried ==> g1.novel[i].id != g1.carried[k].id;
    }
  }

  // ---- and only then ------------------------------------------------------

  lemma {:induction false} CarriedStays(f: Fold, c: Ctx, order: seq<Key>, k: Key)
    requires ReadyToScan(f, c) && order != [] && k in ScanAll(f, c, order[..1]).carried
    ensures k in ScanAll(f, c, order).carried
    decreases |order|
  {
    if |order| == 1 {
      assert order[..1] == order;
    } else {
      var init := order[..|order| - 1];
      assert init[..1] == order[..1];
      CarriedStays(f, c, init, k);
    }
  }

  /** The record met first takes the one session there is. */
  lemma FirstIsCarried(f: Fold, c: Ctx, order: seq<Key>)
    requires ReadyToScan(f, c) && order != []
    requires var k := order[0]; k in f.seen && Judged(f, c, k) && Sharing(f.seen[k].startedAt, f.novel) == 1
    ensures order[0] in ScanAll(f, c, order).carried
  {
    var k := order[0];
    assert order[..1] == [k] && [k][..0] == [];
    SharingPositive(f.seen[k].startedAt, f.novel);
    assert ScanAll(f, c, [k][..0]) == f;
    assert ScanAll(f, c, [k]) == Settle(f, k, c.now);
    CarriedStays(f, c, order, k);
  }

  lemma RivalIsEnded(f: Fold, c: Ctx, order: seq<Key>, k: Key, l: Key)
    requires ReadyToScan(f, c) && Covers(f, c, order)
    requires k != l && k in f.seen && l in f.seen && Judged(f, c, l)
    requires SameStart(f.seen[k].startedAt, f.seen[l].startedAt)
    requires k in ScanAll(f, c, order).carried
    ensures l in ScanAll(f, c, order).ended && k !in ScanAll(f, c, order).ended
  {
    var g := ScanAll(f, c, order);
    SameHolder(f.seen[k].startedAt, f.seen[l].startedAt, f.novel);
    ScanConserves(f, c, order);
    CarriedToHolder(f, c, g, k);
    if l in g.carried {
      CarriedToHolder(f, c, g, l);
    }
  }

  lemma {:induction false} SameHolder(a: Option<Time>, b: Option<Time>, xs: seq<Session>)
    requires SameStart(a, b)
    ensures Holder(a, xs) == Holder(b, xs)
  {
    if xs != [] {
      SameHolder(a, b, xs[..|xs| - 1]);
    }
  }

  /** The condition is exact: two judged records with the startedAt of one newly listed session compete,
      and whichever the iteration meets first decides whose tombstone is written. */
  lemma RivalsDiverge(f: Fold, c: Ctx, o1: seq<Key>, o2: seq<Key>)
    requires ReadyToScan(f, c) && Covers(f, c, o1) && Covers(f, c, o2) && o1 != [] && o2 != [] && o1[0] != o2[0]
    requires o1[0] in f.seen && Judged(f, c, o1[0]) && o2[0] in f.seen && Judged(f, c, o2[0])
    requires SameStart(f.seen[o1[0]].startedAt, f.seen[o2[0]].startedAt)
    requires Sharing(f.seen[o1[0]].startedAt, f.novel) == 1
    ensures multiset(ScanAll(f, c, o1).closed) != multiset(ScanAll(f, c, o2).closed)
  {
    hide ReadyToScan, Covers, ScanAll, Tombs, Judged, Sharing, Absent;
    var k, l := o1[0], o2[0];
    var g1, g2 := ScanAll(f, c, o1), ScanAll(f, c, o2);
    SharingSame(f.seen[k].startedAt, f.seen[l].startedAt, f.novel);
    FirstIsCarried(f, c, o1);
    FirstIsCarried(f, c, o2);
    RivalIsEnded(f, c, o1, k, l);
    RivalIsEnded(f, c, o2, l, k);
    EndedTombs(f, c, o1);
    EndedTombs(f, c, o2);
    TombTells(f, c, g1.ended, g2.ended, l);
    var t := Absent(l, f.seen[l], c.now);
    assert multiset(g1.closed)[t] > multiset(f.closed)[t];
    assert multiset(g2.closed)[t] == multiset(f.closed)[t];
  }

  lemma JudgedIsSeen(f: Fold, c: Ctx, k: Key)
    ensures Judged(f, c, k) ==> k in f.seen
  {
  }

  lemma EndedTombs(f: Fold, c: Ctx, order: seq<Key>)
    requires ReadyToScan(f, c) && Covers(f, c, order)
    ensures var g := ScanAll(f, c, order);
            && multiset(g.closed) == multiset(f.closed) + multiset(Tombs(f.seen, g.ended, c.now))
            && (forall k :: k in f.seen ==> f.seen[k].id == k.id) && (forall k :: k in g.ended ==> k in f.seen)
  {
    hide ScanAll, Tombs, Judged, Sharing, Moved, Untouched, Unclaimed, Deserved;
    ScanConserves(f, c, order);
    forall k | k in ScanAll(f, c, order).ended ensures k in f.seen {
      JudgedIsSeen(f, c, k);
    }
  }

  lemma TombTells(f: Fold, c: Ctx, with: seq<Key>, without: seq<Key>, l: Key)
    requires l in f.seen && l in with && l !in without
    requires (forall k :: k in f.seen ==> f.seen[k].id == k.id) && (forall k :: k in without ==> k in f.seen)
    ensures var t := Absent(l, f.seen[l], c.now);
            t in multiset(Tombs(f.seen, with, c.now)) && t !in multiset(Tombs(f.seen, without, c.now))
  {
    var t := Absent(l, f.seen[l], c.now);
    TombsMembers(f.seen, with, c.now, t);
    TombsMembers(f.seen, without, c.now, t);
    forall k | k in without ensures t != Absent(k, RecAt(f.seen, k), c.now) {
      assert k != l;
    }
  }
}
