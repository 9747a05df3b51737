// Closed-session history as a value: what each operation of internal/service/history.go does to
// the seen records and to the list of tombstones.
module HistorySpec {
  import opened Fleet
  import opened Seqs

  datatype Key = Key(runtime: RuntimeId, id: string)

  /** A live session as a listing reports it. conversation is present only when it is known. */
  datatype Session = Session(id: string, name: string, cwd: string, startedAt: Option<Time>, conversation: Option<string>)

  /** What a tombstone will need once the session can no longer be asked. */
  datatype Rec = Rec(id: string, name: string, cwd: string, startedAt: Option<Time>, conversation: Option<string>, lastSeen: Time)

  datatype ClosureKind = ByClose | ByAbsent | ByExit

  datatype Tomb = Tomb(runtime: RuntimeId, id: string, name: string, cwd: string, startedAt: Option<Time>,
                       conversation: Option<string>, lastSeenAt: Time, closedAt: Time, closedBy: ClosureKind,
                       exitStatus: Option<int>)

  /** An exit a driver captured before it removed the session. */
  datatype Exit = Exit(id: string, status: int, at: Time)

  type Seen = map<Key, Rec>

  // ---- sightings and tombstones -------------------------------------------

  function NewRec(s: Session, at: Time): Rec
  {
    Rec(s.id, s.name, s.cwd, s.startedAt, s.conversation, at)
  }

  /** A sighting never forgets: blank fields leave what is known alone. */
  function Refresh(r: Rec, s: Session, at: Time): Rec
  {
    Rec(r.id,
        if s.name != "" then s.name else r.name,
        if s.cwd != "" then s.cwd else r.cwd,
        if s.startedAt.Some? then s.startedAt else r.startedAt,
        if s.conversation.Some? then s.conversation else r.conversation,
        if at > r.lastSeen then at else r.lastSeen)
  }

  function Sight(seen: Seen, rt: RuntimeId, s: Session, at: Time): Seen
  {
    var k := Key(rt, s.id);
    seen[k := if k in seen then Refresh(seen[k], s, at) else NewRec(s, at)]
  }

  function TombOf(rt: RuntimeId, r: Rec, at: Time, kind: ClosureKind, exit: Option<int>): Tomb
  {
    Tomb(rt, r.id, if r.name == "" then r.id else r.name, r.cwd, r.startedAt, r.conversation, r.lastSeen, at, kind, exit)
  }

  function Absent(k: Key, r: Rec, now: Time): Tomb
  {
    TombOf(k.runtime, r, now, ByAbsent, None)
  }

  /** The record of a session this service never sighted: its id and nothing else. */
  function Thin(id: string): Rec
  {
    Rec(id, "", "", None, None, 0)
  }

  /** The same records, but for when they were last sighted. */
  predicate SameButSeenAt(a: Seen, b: Seen)
  {
    a.Keys == b.Keys && forall k :: k in a ==> a[k].(lastSeen := 0) == b[k].(lastSeen := 0)
  }

  function RecAt(seen: Seen, k: Key): Rec
  {
    if k in seen then seen[k] else Thin(k.id)
  }

  // ---- withdrawing --------------------------------------------------------

  /** A close this service relayed, of a session that is demonstrably still running. */
  predicate Premature(t: Tomb, rt: RuntimeId, s: Session)
  {
    t.closedBy == ByClose && t.runtime == rt && t.id == s.id && SameStart(t.startedAt, s.startedAt)
  }

  /** The position of the newest such tombstone, or -1. */
  function WithdrawIndex(closed: seq<Tomb>, rt: RuntimeId, s: Session): (i: int)
    ensures -1 <= i < |closed|
  {
    if closed == [] then -1
    else if Premature(closed[|closed| - 1], rt, s) then |closed| - 1
    else WithdrawIndex(closed[..|closed| - 1], rt, s)
  }

  function Withdraw(closed: seq<Tomb>, rt: RuntimeId, s: Session): seq<Tomb>
  {
    var i := WithdrawIndex(closed, rt, s);
    if i >= 0 then RemoveAt(closed, i) else closed
  }

  // ---- observing a listing ------------------------------------------------

  /** A listing being folded in, with an account of what became of whom. */
  datatype Fold = Fold(seen: Seen, closed: seq<Tomb>, novel: seq<Session>,
                       exited: seq<Key>, recycled: seq<Key>, withdrawn: seq<Tomb>,
                       carried: map<Key, Session>, ended: seq<Key>)

  function Begin(seen: Seen, closed: seq<Tomb>): Fold
  {
    Fold(seen, closed, [], [], [], [], map[], [])
  }

  function DoExit(f: Fold, rt: RuntimeId, e: Exit): Fold
  {
    var k := Key(rt, e.id);
    f.(seen := f.seen - {k},
       closed := f.closed + [TombOf(rt, RecAt(f.seen, k), e.at, ByExit, Some(e.status))],
       exited := f.exited + [k])
  }

  function DoExits(f: Fold, rt: RuntimeId, exits: seq<Exit>): Fold
  {
    if exits == [] then f else DoExit(DoExits(f, rt, exits[..|exits| - 1]), rt, exits[|exits| - 1])
  }

  /** The id names a session that started at a different time: the old occupant ended. */
  predicate Recycles(r: Rec, s: Session)
  {
    r.startedAt.Some? && s.startedAt.Some? && r.startedAt.value != s.startedAt.value
  }

  function DoWithdraw(f: Fold, rt: RuntimeId, s: Session): Fold
  {
    var i := WithdrawIndex(f.closed, rt, s);
    if i < 0 then f
    else f.(closed := RemoveAt(f.closed, i), withdrawn := f.withdrawn + [f.closed[i]])
  }

  function DoItem(f0: Fold, rt: RuntimeId, s: Session, now: Time): Fold
  {
    var f := DoWithdraw(f0, rt, s);
    var k := Key(rt, s.id);
    if k !in f.seen then f.(novel := f.novel + [s])
    else if Recycles(f.seen[k], s) then
      f.(closed := f.closed + [Absent(k, f.seen[k], now)],
         seen := Sight(f.seen - {k}, rt, s, now),
         recycled := f.recycled + [k])
    else f.(seen := Sight(f.seen, rt, s, now))
  }

  function DoItems(f: Fold, rt: RuntimeId, items: seq<Session>, now: Time): Fold
  {
    if items == [] then f else DoItem(DoItems(f, rt, items[..|items| - 1], now), rt, items[|items| - 1], now)
  }

  predicate Present(items: seq<Session>, id: string)
  {
    exists i :: 0 <= i < |items| && items[i].id == id
  }

  /** What the scan of a complete listing judges: seen before the listing was asked for, and not in it. */
  predicate Missing(seen: Seen, rt: RuntimeId, items: seq<Session>, listedAt: Time, k: Key)
  {
    k in seen && k.runtime == rt && !Present(items, k.id) && seen[k].lastSeen < listedAt
  }

  /** How many of the newly listed sessions share this startedAt. */
  function Sharing(start: Option<Time>, novel: seq<Session>): nat
  {
    if novel == [] then 0
    else Sharing(start, novel[..|novel| - 1]) + if SameStart(novel[|novel| - 1].startedAt, start) then 1 else 0
  }

  /** The one newly listed session that is the record's run under a new id, or -1: ambiguity carries nothing. */
  function CarryIndex(r: Rec, novel: seq<Session>): (i: int)
    ensures -1 <= i < |novel|
    ensures i >= 0 ==> SameStart(novel[i].startedAt, r.startedAt)
  {
    if Sharing(r.startedAt, novel) == 1 then Holder(r.startedAt, novel) else -1
  }

  /** The last newly listed session with this startedAt. */
  function Holder(start: Option<Time>, novel: seq<Session>): (i: int)
    ensures -1 <= i < |novel|
    ensures i >= 0 ==> SameStart(novel[i].startedAt, start)
  {
    if novel == [] then -1
    else if SameStart(novel[|novel| - 1].startedAt, start) then |novel| - 1
    else Holder(start, novel[..|novel| - 1])
  }

  function Renamed(r: Rec, s: Session): Rec
  {
    r.(id := s.id, name := s.name)
  }

  /** One missing record: carried under its run's new id, or ended. */
  function Settle(f: Fold, k: Key, now: Time): Fold
    requires k in f.seen
  {
    var r := f.seen[k];
    var i := CarryIndex(r, f.novel);
    if i >= 0 then
      f.(seen := (f.seen - {k})[Key(k.runtime, f.novel[i].id) := Renamed(r, f.novel[i])],
         novel := RemoveAt(f.novel, i),
         carried := f.carried[k := f.novel[i]])
    else
      f.(seen := f.seen - {k}, closed := f.closed + [Absent(k, r, now)], ended := f.ended + [k])
  }

  /** The scan over the seen map visits its keys in some order, skipping those it does not judge. */
  function Scan(f: Fold, rt: RuntimeId, items: seq<Session>, listedAt: Time, now: Time, order: seq<Key>): Fold
  {
    if order == [] then f
    else
      var g := Scan(f, rt, items, listedAt, now, order[..|order| - 1]);
      var k := order[|order| - 1];
      if Missing(g.seen, rt, items, listedAt, k) then Settle(g, k, now) else g
  }

  function SightAll(seen: Seen, rt: RuntimeId, novel: seq<Session>, now: Time): Seen
  {
    if novel == [] then seen else Sight(SightAll(seen, rt, novel[..|novel| - 1], now), rt, novel[|novel| - 1], now)
  }

  function Reconcile(seen: Seen, closed: seq<Tomb>, rt: RuntimeId, items: seq<Session>, complete: bool,
                     listedAt: Time, exits: seq<Exit>, now: Time, order: seq<Key>): Fold
  {
    var f := DoItems(DoExits(Begin(seen, closed), rt, exits), rt, items, now);
    var g := if complete then Scan(f, rt, items, listedAt, now, order) else f;
    g.(seen := SightAll(g.seen, rt, g.novel, now))
  }

  // ---- retention ----------------------------------------------------------

  function NotBefore(cut: Time): Tomb -> bool
  {
    (t: Tomb) => t.closedAt >= cut
  }

  function PruneClosed(closed: seq<Tomb>, cut: Time): seq<Tomb>
  {
    Filter(NotBefore(cut), closed)
  }

  function PruneSeen(seen: Seen, cut: Time): Seen
  {
    map k | k in seen && seen[k].lastSeen >= cut :: seen[k]
  }

  function Newer(): (Tomb, Tomb) -> bool
  {
    (a: Tomb, b: Tomb) => a.closedAt > b.closedAt
  }

  /** sortClosed. */
  function SortClosed(items: seq<Tomb>): seq<Tomb>
  {
    StableSort(Newer(), items)
  }

  /** The answer to a read: what is retained now and closed at or after since, newest first. */
  function Listed(closed: seq<Tomb>, cut: Time, since: Time): seq<Tomb>
  {
    SortClosed(KeptSince(closed, cut, since))
  }

  function KeptSince(closed: seq<Tomb>, cut: Time, since: Time): seq<Tomb>
  {
    Filter(NotBefore(since), PruneClosed(closed, cut))
  }

  /** Pruning earlier, at any earlier instant, is unobservable in any later read. */
  lemma LazyRetention(closed: seq<Tomb>, earlier: Time, cut: Time, since: Time)
    requires earlier <= cut
    ensures Listed(PruneClosed(closed, earlier), cut, since) == Listed(closed, cut, since)
  {
    FilterFilter(NotBefore(cut), NotBefore(earlier), closed);
    FilterCongruence(Both(NotBefore(cut), NotBefore(earlier)), NotBefore(cut), closed);
  }

  function ClosedAt(at: Time): Tomb -> bool
  {
    (t: Tomb) => t.closedAt == at
  }

  /** A read is newest first, and of the tombstones closed at any one instant it has all or none,
      in stored order. */
  lemma ListedExactly(closed: seq<Tomb>, cut: Time, since: Time, at: Time)
    ensures var out := Listed(closed, cut, since);
            && (forall i, j :: 0 <= i < j < |out| ==> out[i].closedAt >= out[j].closedAt)
            && Filter(ClosedAt(at), out) == if at >= cut && at >= since then Filter(ClosedAt(at), closed) else []
  {
    var kept := Filter(NotBefore(since), PruneClosed(closed, cut));
    var p := Both(ClosedAt(at), Both(NotBefore(since), NotBefore(cut)));
    StableSortSorted(Newer(), kept);
    FilterFilter(NotBefore(since), NotBefore(cut), closed);
    FilterStableSort(ClosedAt(at), Newer(), kept);
    FilterFilter(ClosedAt(at), Both(NotBefore(since), NotBefore(cut)), closed);
    var same := Filter(p, closed);
    FilterMembers(p, closed);
    forall i, j | 0 <= i < j < |same| ensures !Newer()(same[j], same[i]) {
      assert same[i] in same && same[j] in same;
    }
    StableSortFixpoint(Newer(), same);
    if at >= cut && at >= since {
      FilterCongruence(p, ClosedAt(at), closed);
    } else {
      FilterNone(p, closed);
    }
  }

  // ---- withdrawing, exactly -----------------------------------------------

  /** How many tombstones contradict a live session. */
  function Contradicting(closed: seq<Tomb>, rt: RuntimeId, s: Session): nat
  {
    if closed == [] then 0
    else Contradicting(closed[..|closed| - 1], rt, s) + if Premature(closed[|closed| - 1], rt, s) then 1 else 0
  }

  /** One withdrawal removes exactly one contradicting tombstone, the newest, and nothing else; so the
      live list is free of contradictions afterwards if and only if there was at most one. */
  lemma {:induction false} WithdrawRemovesOne(closed: seq<Tomb>, rt: RuntimeId, s: Session)
    ensures var n := Contradicting(closed, rt, s);
            Contradicting(Withdraw(closed, rt, s), rt, s) == if n == 0 then 0 else n - 1
    ensures (Contradicting(Withdraw(closed, rt, s), rt, s) == 0) <==> Contradicting(closed, rt, s) <= 1
    ensures WithdrawIndex(closed, rt, s) == -1 <==> Contradicting(closed, rt, s) == 0
    ensures var i := WithdrawIndex(closed, rt, s);
            i >= 0 ==> Premature(closed[i], rt, s) && forall j :: i < j < |closed| ==> !Premature(closed[j], rt, s)
  {
    hide *;
    if closed == [] {
      WithdrawNone(rt, s);
    } else {
      var init, last := closed[..|closed| - 1], closed[|closed| - 1];
      WithdrawRemovesOne(init, rt, s);
      WithdrawSnoc(init, last, rt, s);
      ContradictingSnoc(init, last, rt, s);
      ContradictingSnoc(Withdraw(init, rt, s), last, rt, s);
      assert closed == init + [last];
    }
  }

  lemma WithdrawNone(rt: RuntimeId, s: Session)
    ensures Contradicting([], rt, s) == 0 && Withdraw([], rt, s) == [] && WithdrawIndex([], rt, s) == -1
  {
  }

  lemma ContradictingSnoc(init: seq<Tomb>, last: Tomb, rt: RuntimeId, s: Session)
    ensures Contradicting(init + [last], rt, s) == Contradicting(init, rt, s) + if Premature(last, rt, s) then 1 else 0
  {
    hide Premature;
    assert (init + [last])[..|init|] == init;
  }

  lemma WithdrawSnoc(init: seq<Tomb>, last: Tomb, rt: RuntimeId, s: Session)
    ensures Withdraw(init + [last], rt, s) == if Premature(last, rt, s) then init else Withdraw(init, rt, s) + [last]
    ensures WithdrawIndex(init + [last], rt, s) == if Premature(last, rt, s) then |init| else WithdrawIndex(init, rt, s)
  {
    hide Premature;
    assert (init + [last])[..|init|] == init;
  }
}
