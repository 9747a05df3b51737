// Labels follow the run, never the id: every run of the label store, with every startedAt known.
module LabelRuns {
  import opened Fleet
  import opened HistorySpec
  import opened LabelSpec

  /** One operation, with what it was asked and how the map's iteration order fell. */
  datatype Op =
    | Create(rt: RuntimeId, id: string, start: Time, labels: Labels, now: Time, at: Key)
    | Patch(rt: RuntimeId, id: string, start: Time, patch: LabelSpec.Patch, now: Time, at: Key)
    | Read(rt: RuntimeId, id: string, start: Time, at: Key)
    | Renamed(rt: RuntimeId, from: string, to: string, now: Time, at: Key)
    | Closed(rt: RuntimeId, id: string, at: Key)
    | Listing(rt: RuntimeId, live: seq<Session>, listedAt: Time, order: seq<Key>)

  /** written is the last labels written to a session, by the instant it started at. */
  datatype Store = Store(recs: Recs, written: map<Time, Labels>)

  ghost predicate Enabled(s: Store, op: Op)
  {
    match op
    case Create(rt, id, _, _, _, at) => Finds(s.recs, rt, id, at)
    case Patch(rt, id, _, _, _, at) => Finds(s.recs, rt, id, at)
    case Read(rt, id, _, at) => Finds(s.recs, rt, id, at)
    case Renamed(rt, from, _, _, at) => Finds(s.recs, rt, from, at)
    case Closed(rt, id, at) => Finds(s.recs, rt, id, at)
    case Listing(rt, live, listedAt, order) => ListsOrphans(s.recs, rt, live, listedAt, order)
  }

  /** The labels an operation writes to its session, if it writes any. */
  function Writes(s: Store, op: Op): Option<Labels>
  {
    match op
    case Create(_, _, start, labels, _, at) =>
      if at in Found(s.recs, at, Some(start)) || labels == map[] then None else Some(labels)
    case Patch(_, _, start, patch, _, at) =>
      var next := MergedLabels(s.recs, at, Some(start), patch);
      if ValidLabels(next) then Some(next) else None
    case _ => None
  }

  ghost function Next(s: Store, op: Op): Store
    requires Enabled(s, op)
  {
    match op
    case Create(rt, id, start, labels, now, at) =>
      Store(SetIfAbsent(s.recs, at, rt, id, Some(start), labels, now),
            if Writes(s, op).Some? then s.written[start := Writes(s, op).value] else s.written)
    case Patch(rt, id, start, patch, now, at) =>
      Store(Merge(s.recs, at, rt, id, Some(start), patch, now),
            if Writes(s, op).Some? then s.written[start := Writes(s, op).value] else s.written)
    case Read(_, _, start, at) => s.(recs := Found(s.recs, at, Some(start)))
    case Renamed(_, from, to, now, at) => s.(recs := Rekey(s.recs, at, from, to, now))
    case Closed(_, _, at) => s.(recs := Remove(s.recs, at))
    case Listing(rt, live, listedAt, order) => s.(recs := Retain(s.recs, rt, live, listedAt, order))
  }

  /** Every record knows when its session started, and has the last labels written to it. */
  predicate Coherent(s: Store)
  {
    forall k :: k in s.recs ==> IsLast(s.written, s.recs[k])
  }

  predicate IsLast(written: map<Time, Labels>, r: LabelRec)
  {
    r.startedAt.Some? && r.startedAt.value in written && r.labels == written[r.startedAt.value]
  }

  /** The write leaves no other record of the same run behind with other labels. */
  predicate Sole(s: Store, op: Op)
  {
    Writes(s, op).Some? ==>
      forall k :: k in s.recs && k != op.at && s.recs[k].startedAt == Some(op.start) ==> s.recs[k].labels == Writes(s, op).value
  }

  /** A read returns nothing, or the last labels written to a session that started then. */
  lemma CoherentReads(s: Store, k: Key, start: Time)
    requires Coherent(s)
    ensures Get(s.recs, k, Some(start)) == map[]
         || (start in s.written && Get(s.recs, k, Some(start)) == s.written[start])
  {
  }

  /** Which step can break the property, exactly: a write that is not sole, and nothing else. */
  lemma CoherentIff(s: Store, op: Op)
    requires Coherent(s) && Enabled(s, op)
    ensures Coherent(Next(s, op)) <==> Sole(s, op)
  {
    match op
    case Create(_, _, _, _, _, _) => WriteCoherentIff(s, op);
    case Patch(_, _, _, _, _, _) => WriteCoherentIff(s, op);
    case Read(_, _, _, _) =>
    case Renamed(_, _, _, _, _) =>
    case Closed(_, _, _) =>
    case Listing(rt, live, listedAt, order) => ListingCoherent(s, rt, live, listedAt, order);
  }

  /** Where an operation on one session keeps its labels. */
  function Own(s: Store, op: Op): Key
    requires op.Create? || op.Patch?
  {
    if op.at in Found(s.recs, op.at, Some(op.start)) then op.at else Key(op.rt, op.id)
  }

  /** A write leaves the records other than its own as they were. */
  lemma WriteShape(s: Store, op: Op)
    requires Enabled(s, op) && (op.Create? || op.Patch?)
    requires op.at in s.recs ==> s.recs[op.at].startedAt.Some?
    ensures var s', own := Next(s, op), Own(s, op);
            && (own == op.at || own !in s.recs)
            && (Writes(s, op).Some? ==>
                  && s'.written == s.written[op.start := Writes(s, op).value]
                  && (Writes(s, op).value != map[] ==> own in s'.recs)
                  && (own in s'.recs ==> s'.recs[own].startedAt == Some(op.start) && s'.recs[own].labels == Writes(s, op).value)
                  && (forall k :: k in s.recs && k != op.at ==> k in s'.recs && s'.recs[k] == s.recs[k])
                  && (forall k :: k in s'.recs && k != own ==> k in s.recs && k != op.at && s'.recs[k] == s.recs[k]))
            && (Writes(s, op).None? ==>
                  && s'.written == s.written && s'.recs == Found(s.recs, op.at, Some(op.start))
                  && (forall k :: k in s'.recs ==> k in s.recs && s'.recs[k] == s.recs[k]))
  {
    hide ValidLabels, Patched;
  }

  lemma WriteCoherentIff(s: Store, op: Op)
    requires Coherent(s) && Enabled(s, op) && (op.Create? || op.Patch?)
    ensures Coherent(Next(s, op)) <==> Sole(s, op)
  {
    OwnLabels(s, op);
    WriteShape(s, op);
    var s' := Next(s, op);
    hide Next, Own, Writes, Found, Finds, IsLast;
    if Writes(s, op).Some? {
      SoleDecides(s.recs, s'.recs, s.written, op.at, Own(s, op), op.start, Writes(s, op).value);
    } else {
      assert forall k :: k in s'.recs ==> IsLast(s'.written, s'.recs[k]);
    }
  }

  lemma OwnLabels(s: Store, op: Op)
    requires Coherent(s) && (op.Create? || op.Patch?)
    ensures op.at in s.recs ==> s.recs[op.at].startedAt.Some?
  {
  }

  lemma SoleDecides(recs: Recs, recs': Recs, written: map<Time, Labels>, at: Key, own: Key, start: Time, next: Labels)
    requires forall k :: k in recs ==> IsLast(written, recs[k])
    requires own in recs' ==> recs'[own].startedAt == Some(start) && recs'[own].labels == next
    requires forall k :: k in recs && k != at ==> k in recs' && recs'[k] == recs[k]
    requires forall k :: k in recs' && k != own ==> k in recs && k != at && recs'[k] == recs[k]
    ensures (forall k :: k in recs' ==> IsLast(written[start := next], recs'[k]))
       <==> (forall k :: k in recs && k != at && recs[k].startedAt == Some(start) ==> recs[k].labels == next)
  {
    if forall k :: k in recs' ==> IsLast(written[start := next], recs'[k]) {
      forall k | k in recs && k != at && recs[k].startedAt == Some(start) ensures recs[k].labels == next {
        assert IsLast(written[start := next], recs'[k]);
      }
    }
  }

  lemma ListingCoherent(s: Store, rt: RuntimeId, live: seq<Session>, listedAt: Time, order: seq<Key>)
    requires Coherent(s) && ListsOrphans(s.recs, rt, live, listedAt, order)
    ensures Coherent(s.(recs := Retain(s.recs, rt, live, listedAt, order)))
  {
    RetainAccounts(s.recs, rt, live, listedAt, order);
    hide Retain, Orphan, Wanted;
  }

  // ---- every run -----------------------------------------------------------

  ghost predicate IsRun(ss: seq<Store>, ops: seq<Op>)
  {
    && |ss| == |ops| + 1
    && (forall i :: 0 <= i < |ops| ==> Enabled(ss[i], ops[i]) && ss[i + 1] == Next(ss[i], ops[i]))
  }

  lemma {:induction false} RunCoherent(ss: seq<Store>, ops: seq<Op>)
    requires IsRun(ss, ops) && Coherent(ss[0])
    requires forall i :: 0 <= i < |ops| ==> Sole(ss[i], ops[i])
    ensures Coherent(ss[|ops|])
    decreases |ops|
  {
    var n := |ops|;
    if n > 0 {
      assert IsRun(ss[..n], ops[..n - 1]);
      RunCoherent(ss[..n], ops[..n - 1]);
      CoherentIff(ss[n - 1], ops[n - 1]);
    }
  }

  // ---- what a reader sees of a write that is not sole ----------------------

  predicate NonEmpty(recs: Recs)
  {
    forall k :: k in recs ==> recs[k].labels != map[]
  }

  /** Asked for the session that started then, the store answers with labels that are not the last written to it. */
  predicate ReadsWrong(s: Store, k: Key, start: Time)
  {
    var got := Get(s.recs, k, Some(start));
    got != map[] && !(start in s.written && got == s.written[start])
  }

  ghost predicate SomeReadWrong(s: Store)
  {
    exists k: Key, start: Time :: ReadsWrong(s, k, start)
  }

  predicate Dated(recs: Recs)
  {
    forall k :: k in recs ==> recs[k].startedAt.Some?
  }

  /** With no empty record kept, a store that is not coherent shows it to a reader. */
  lemma CoherentIffReadsRight(s: Store)
    requires NonEmpty(s.recs) && Dated(s.recs)
    ensures SomeReadWrong(s) <==> !Coherent(s)
  {
    hide Get;
    forall k: Key, start: Time | ReadsWrong(s, k, start) ensures !Coherent(s) {
      if Coherent(s) {
        CoherentReads(s, k, start);
        assert false;
      }
    }
    if !Coherent(s) {
      var k :| k in s.recs && !IsLast(s.written, s.recs[k]);
      ReadsKept(s.recs, k, s.recs[k].startedAt.value);
      assert ReadsWrong(s, k, s.recs[k].startedAt.value);
    }
  }

  lemma WriteKeepsShape(s: Store, op: Op)
    requires Dated(s.recs) && NonEmpty(s.recs) && Enabled(s, op) && (op.Create? || op.Patch?)
    ensures Dated(Next(s, op).recs) && NonEmpty(Next(s, op).recs)
  {
    hide Next, Writes, Enabled, Found, Own;
    WriteShape(s, op);
    if Writes(s, op).Some? && Writes(s, op).value == map[] {
      EmptyWriteDrops(s, op);
    }
  }

  lemma EmptyWriteDrops(s: Store, op: Op)
    requires Enabled(s, op) && (op.Create? || op.Patch?) && Writes(s, op) == Some(map[])
    ensures Own(s, op) !in Next(s, op).recs
  {
    hide ValidLabels, Patched;
  }

  lemma ListingKeepsShape(s: Store, rt: RuntimeId, live: seq<Session>, listedAt: Time, order: seq<Key>)
    requires Dated(s.recs) && NonEmpty(s.recs) && ListsOrphans(s.recs, rt, live, listedAt, order)
    ensures Dated(Retain(s.recs, rt, live, listedAt, order)) && NonEmpty(Retain(s.recs, rt, live, listedAt, order))
  {
    RetainAccounts(s.recs, rt, live, listedAt, order);
    hide Retain, Orphan, Wanted;
  }

  lemma ShapeKept(s: Store, op: Op)
    requires Dated(s.recs) && NonEmpty(s.recs) && Enabled(s, op)
    ensures Dated(Next(s, op).recs) && NonEmpty(Next(s, op).recs)
  {
    match op
    case Create(_, _, _, _, _, _) => WriteKeepsShape(s, op);
    case Patch(_, _, _, _, _, _) => WriteKeepsShape(s, op);
    case Read(_, _, _, _) =>
    case Renamed(_, _, _, _, _) =>
    case Closed(_, _, _) =>
    case Listing(rt, live, listedAt, order) => ListingKeepsShape(s, rt, live, listedAt, order);
  }

  lemma {:induction false} RunKeepsShape(ss: seq<Store>, ops: seq<Op>)
    requires IsRun(ss, ops) && Dated(ss[0].recs) && NonEmpty(ss[0].recs)
    ensures Dated(ss[|ops|].recs) && NonEmpty(ss[|ops|].recs)
    decreases |ops|
  {
    hide Next, Enabled, Dated, NonEmpty;
    var n := |ops|;
    if n > 0 {
      assert IsRun(ss[..n], ops[..n - 1]);
      RunKeepsShape(ss[..n], ops[..n - 1]);
      assert ss[..n][n - 1] == ss[n - 1];
      ShapeKept(ss[n - 1], ops[n - 1]);
    }
  }

  /** Over every run whose writes were sole up to its last operation, the store then answers some read with
      labels that are not the last written if and only if that operation was a write that is not sole. */
  lemma ReadsWrongIff(ss: seq<Store>, ops: seq<Op>)
    requires IsRun(ss, ops) && ss[0] == Store(map[], map[]) && |ops| > 0
    requires forall i :: 0 <= i < |ops| - 1 ==> Sole(ss[i], ops[i])
    ensures SomeReadWrong(ss[|ops|]) <==> !Sole(ss[|ops| - 1], ops[|ops| - 1])
  {
    hide Next, Enabled, Sole;
    var n := |ops| - 1;
    assert IsRun(ss[..n + 1], ops[..n]);
    RunCoherent(ss[..n + 1], ops[..n]);
    assert ss[..n + 1][n] == ss[n];
    CoherentIff(ss[n], ops[n]);
    RunKeepsShape(ss, ops);
    CoherentIffReadsRight(ss[n + 1]);
  }

  /** Over every run of sole writes, whatever ids are recycled, renamed or listed: a read returns nothing
      or the last labels written to a session with that startedAt. */
  lemma LabelsFollowTheRun(ss: seq<Store>, ops: seq<Op>, k: Key, start: Time)
    requires IsRun(ss, ops) && ss[0] == Store(map[], map[])
    requires forall i :: 0 <= i < |ops| ==> Sole(ss[i], ops[i])
    ensures var s := ss[|ops|]; var got := Get(s.recs, k, Some(start));
            got == map[] || (start in s.written && got == s.written[start])
  {
    RunCoherent(ss, ops);
    CoherentReads(ss[|ops|], k, start);
  }

  /** A write that is not sole can be read back wrong. A session is renamed by hand to b, labelled there,
      and renamed by hand back to a; no listing runs in between. At a the old labels are still kept. */
  lemma RenamedByHandReadsStale(rt: RuntimeId, start: Time, one: Labels, two: Labels) returns (ss: seq<Store>, ops: seq<Op>)
    requires rt != "" && one != map[] && two != map[] && one != two && ValidLabels(two)
    ensures IsRun(ss, ops) && ss[0] == Store(map[], map[])
    ensures forall op :: op in ops ==> (op.Create? || op.Patch?) && op.start == start
    ensures var s := ss[|ops|];
            && start in s.written && s.written[start] == two
            && Get(s.recs, Key(rt, "a"), Some(start)) == one
            && Get(s.recs, Key(rt, "b"), Some(start)) == two
  {
    var a, b := Key(rt, "a"), Key(rt, "b");
    var patch: LabelSpec.Patch := map key | key in two :: Some(two[key]);
    assert Patched(map[], patch) == two;
    ops := [Create(rt, "a", start, one, 0, a), Patch(rt, "b", start, patch, 1, b)];
    var s0 := Store(map[], map[]);
    var s1 := Store(map[a := LabelRec("a", Some(start), one, 0)], map[start := one]);
    var s2 := Store(s1.recs[b := LabelRec("b", Some(start), two, 1)], map[start := two]);
    hide Next, Enabled, Get, ValidLabels, Patched;
    CreatedFirst(rt, "a", start, one);
    PatchedNext(s1, rt, "b", start, patch, two);
    ReadsKept(s2.recs, a, start);
    ReadsKept(s2.recs, b, start);
    ss := [s0, s1, s2];
  }

  lemma ReadsKept(recs: Recs, k: Key, start: Time)
    requires k in recs && recs[k].startedAt == Some(start)
    ensures Get(recs, k, Some(start)) == recs[k].labels
  {
  }

  lemma CreatedFirst(rt: RuntimeId, id: string, start: Time, labels: Labels)
    requires rt != "" && labels != map[]
    ensures var s, op := Store(map[], map[]), Create(rt, id, start, labels, 0, Key(rt, id));
            && Enabled(s, op)
            && Next(s, op) == Store(map[Key(rt, id) := LabelRec(id, Some(start), labels, 0)], map[start := labels])
  {
    hide ValidLabels;
  }

  lemma PatchedNext(s: Store, rt: RuntimeId, id: string, start: Time, patch: LabelSpec.Patch, labels: Labels)
    requires rt != "" && Key(rt, id) !in s.recs && Patched(map[], patch) == labels != map[] && ValidLabels(labels)
    requires Key("", id) !in s.recs
    ensures var op := Patch(rt, id, start, patch, 1, Key(rt, id));
            && Enabled(s, op)
            && Next(s, op) == Store(s.recs[Key(rt, id) := LabelRec(id, Some(start), labels, 1)], s.written[start := labels])
  {
    hide ValidLabels, Patched;
  }
}
