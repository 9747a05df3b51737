// Session labels as values (internal/service/labels.go, labels.go): what each operation of the store
// does to its records. Strings here are sequences of bytes.
module LabelSpec {
  import opened Fleet
  import opened HistorySpec
  import opened Seqs

  type Labels = map<string, string>

  /** A label record. Its key is its runtime and id; startedAt says which run it belongs to. */
  datatype LabelRec = LabelRec(id: string, startedAt: Option<Time>, labels: Labels, updatedAt: Time)

  type Recs = map<Key, LabelRec>

  // ---- bounds --------------------------------------------------------------

  const MAX_LABELS := 16
  const MAX_KEY_BYTES := 128
  const MAX_VALUE_BYTES := 128
  const SEPARATOR := ':'

  predicate ValidKey(k: string)
  {
    k != "" && |k| <= MAX_KEY_BYTES && SEPARATOR !in k
  }

  predicate ValidLabels(m: Labels)
  {
    |m| <= MAX_LABELS && forall k :: k in m ==> ValidKey(k) && |m[k]| <= MAX_VALUE_BYTES
  }

  // ---- finding a record ----------------------------------------------------

  /** k is where findLocked looks. Without a runtime, any record with the id will do, and which one is
      taken when there are several is up to the map's iteration order. */
  predicate Finds(recs: Recs, rt: RuntimeId, id: string, k: Key)
  {
    if Key(rt, id) !in recs && rt == "" && exists k' :: k' in recs && k'.id == id
    then k in recs && k.id == id
    else k == Key(rt, id)
  }

  /** The record at k is of a session that had the id before. */
  predicate Stale(recs: Recs, k: Key, start: Option<Time>)
  {
    k in recs && recs[k].startedAt.Some? && start.Some? && recs[k].startedAt.value != start.value
  }

  /** findLocked drops a stale record. */
  function Found(recs: Recs, k: Key, start: Option<Time>): Recs
  {
    if Stale(recs, k, start) then recs - {k} else recs
  }

  function LabelsAt(recs: Recs, k: Key): Labels
  {
    if k in recs then recs[k].labels else map[]
  }

  // ---- operations on one session -------------------------------------------

  function Get(recs: Recs, k: Key, start: Option<Time>): Labels
  {
    LabelsAt(Found(recs, k, start), k)
  }

  function SetIfAbsent(recs: Recs, k: Key, rt: RuntimeId, id: string, start: Option<Time>, labels: Labels, now: Time): Recs
  {
    var r := Found(recs, k, start);
    if k in r || labels == map[] then r else r[Key(rt, id) := LabelRec(id, start, labels, now)]
  }

  /** A patch gives each key it names a value, or takes the key away. */
  type Patch = map<string, Option<string>>

  function Patched(labels: Labels, patch: Patch): Labels
  {
    map key | key in labels.Keys + patch.Keys && (key in patch ==> patch[key].Some?)
      :: if key in patch then patch[key].value else labels[key]
  }

  function MergedLabels(recs: Recs, k: Key, start: Option<Time>, patch: Patch): Labels
  {
    Patched(Get(recs, k, start), patch)
  }

  function Put(recs: Recs, k: Key, rt: RuntimeId, id: string, start: Option<Time>, next: Labels, now: Time): Recs
  {
    if next == map[] then recs - {k}
    else if k in recs then
      recs[k := recs[k].(labels := next, updatedAt := now,
                         startedAt := if recs[k].startedAt.None? then start else recs[k].startedAt)]
    else recs[Key(rt, id) := LabelRec(id, start, next, now)]
  }

  function Merge(recs: Recs, k: Key, rt: RuntimeId, id: string, start: Option<Time>, patch: Patch, now: Time): Recs
  {
    var next := MergedLabels(recs, k, start, patch);
    if ValidLabels(next) then Put(Found(recs, k, start), k, rt, id, start, next, now) else Found(recs, k, start)
  }

  function Rekey(recs: Recs, k: Key, from: string, to: string, now: Time): Recs
  {
    if k !in recs || from == to then recs
    else (recs - {k})[Key(k.runtime, to) := recs[k].(id := to, updatedAt := now)]
  }

  function Remove(recs: Recs, k: Key): Recs
  {
    recs - {k}
  }

  // ---- reconciling with a complete listing ---------------------------------

  predicate IsLive(live: seq<Session>, id: string)
  {
    exists i :: 0 <= i < |live| && live[i].id == id
  }

  /** A record of the runtime that the listing does not name and does not predate. */
  predicate Orphan(recs: Recs, rt: RuntimeId, live: seq<Session>, listedAt: Time, k: Key)
  {
    k in recs && k.runtime == rt && !IsLive(live, k.id) && recs[k].updatedAt <= listedAt
  }

  function Kept(recs: Recs, rt: RuntimeId, live: seq<Session>, listedAt: Time): Recs
  {
    map k | k in recs && !Orphan(recs, rt, live, listedAt, k) :: recs[k]
  }

  /** The first live session that started then, or -1. */
  function FirstStarted(live: seq<Session>, start: Option<Time>): (i: int)
    ensures -1 <= i < |live|
    ensures i >= 0 ==> SameStart(live[i].startedAt, start)
  {
    if live == [] then -1
    else
      var i := FirstStarted(live[..|live| - 1], start);
      if i >= 0 then i
      else if SameStart(live[|live| - 1].startedAt, start) then |live| - 1
      else -1
  }

  /** Where an orphan is wanted: at the first live session of its run. */
  function Wanted(rt: RuntimeId, live: seq<Session>, r: LabelRec): Option<Key>
  {
    var i := FirstStarted(live, r.startedAt);
    if i < 0 then None else Some(Key(rt, live[i].id))
  }

  function Reattach(recs: Recs, rt: RuntimeId, live: seq<Session>, r: LabelRec): Recs
  {
    var w := Wanted(rt, live, r);
    if w.None? || w.value in recs then recs else recs[w.value := r.(id := w.value.id)]
  }

  function ReattachAll(recs: Recs, rt: RuntimeId, live: seq<Session>, orphans: seq<LabelRec>): Recs
  {
    if orphans == [] then recs
    else Reattach(ReattachAll(recs, rt, live, orphans[..|orphans| - 1]), rt, live, orphans[|orphans| - 1])
  }

  function RecsAt(recs: Recs, order: seq<Key>): (rs: seq<LabelRec>)
    requires forall k :: k in order ==> k in recs
    ensures |rs| == |order| && forall i :: 0 <= i < |rs| ==> rs[i] == recs[order[i]]
  {
    seq(|order|, i requires 0 <= i < |order| => recs[order[i]])
  }

  /** order lists the orphans, each once: the order in which the map was iterated. */
  ghost predicate ListsOrphans(recs: Recs, rt: RuntimeId, live: seq<Session>, listedAt: Time, order: seq<Key>)
  {
    && (forall i, j :: 0 <= i < j < |order| ==> order[i] != order[j])
    && (forall k :: k in order <==> Orphan(recs, rt, live, listedAt, k))
  }

  function Retain(recs: Recs, rt: RuntimeId, live: seq<Session>, listedAt: Time, order: seq<Key>): Recs
    requires ListsOrphans(recs, rt, live, listedAt, order)
  {
    ReattachAll(Kept(recs, rt, live, listedAt), rt, live, RecsAt(recs, order))
  }

  // ---- what one operation promises -----------------------------------------

  /** The result is what is validated, so a patch may repair an over-full map; and what merge refuses it
      does not apply. "Nothing is changed" then holds if and only if the id was not recycled: looking
      the record up has already dropped a stale one. */
  lemma RefusedMergeChangesNothingIff(recs: Recs, k: Key, rt: RuntimeId, id: string, start: Option<Time>, patch: Patch, now: Time)
    requires Finds(recs, rt, id, k)
    ensures !ValidLabels(MergedLabels(recs, k, start, patch)) ==>
              (Merge(recs, k, rt, id, start, patch, now) == recs <==> !Stale(recs, k, start))
  {
    if Stale(recs, k, start) {
      assert k in recs && k !in Found(recs, k, start);
    }
  }

  /** A lookup has one answer: it names a runtime, or no two records share the id. */
  ghost predicate Definite(recs: Recs, rt: RuntimeId, id: string)
  {
    rt != "" || forall k, l :: k in recs && l in recs && k.id == id && l.id == id ==> k == l
  }

  /** What merge accepts, a read of the same session returns from then on, key by key: what the patch gives is what is
      read, whatever was there; what it takes away is gone; what it does not name is as it was. */
  lemma MergeThenGet(recs: Recs, k: Key, rt: RuntimeId, id: string, start: Option<Time>, patch: Patch, now: Time, k': Key)
    requires Definite(recs, rt, id) && Finds(recs, rt, id, k)
    requires ValidLabels(MergedLabels(recs, k, start, patch))
    requires Finds(Merge(recs, k, rt, id, start, patch, now), rt, id, k')
    ensures Get(Merge(recs, k, rt, id, start, patch, now), k', start) == MergedLabels(recs, k, start, patch)
    ensures var was, read := Get(recs, k, start), Get(Merge(recs, k, rt, id, start, patch, now), k', start);
            && (forall key :: key in patch && patch[key].Some? ==> key in read && read[key] == patch[key].value)
            && (forall key :: key in patch && patch[key].None? ==> key !in read)
            && (forall key :: key !in patch ==> (key in read <==> key in was) && (key in was ==> read[key] == was[key]))
  {
    ReadsMerged(recs, k, rt, id, start, patch, now, k');
    hide ValidLabels, Finds, Definite, Merge, Get;
  }

  lemma ReadsMerged(recs: Recs, k: Key, rt: RuntimeId, id: string, start: Option<Time>, patch: Patch, now: Time, k': Key)
    requires Definite(recs, rt, id) && Finds(recs, rt, id, k)
    requires ValidLabels(MergedLabels(recs, k, start, patch))
    requires Finds(Merge(recs, k, rt, id, start, patch, now), rt, id, k')
    ensures Get(Merge(recs, k, rt, id, start, patch, now), k', start) == MergedLabels(recs, k, start, patch)
  {
    hide ValidLabels, Patched;
  }

  /** A read is answered with the record's labels, unless there is no record or it is of a session that started at
      another instant, both known. */
  lemma GetSays(recs: Recs, k: Key, start: Option<Time>)
    ensures Get(recs, k, start)
         == if k !in recs || (recs[k].startedAt != None && start != None && recs[k].startedAt != start) then map[]
            else recs[k].labels
  {
  }

  /** An accepted merge leaves one record of the session: the merged labels, written now, with the start it had or
      else the start the caller knows; or none, when nothing is left to say. */
  lemma MergeWrites(recs: Recs, k: Key, rt: RuntimeId, id: string, start: Option<Time>, patch: Patch, now: Time)
    requires Finds(recs, rt, id, k) && ValidLabels(MergedLabels(recs, k, start, patch))
    ensures var next, out := MergedLabels(recs, k, start, patch), Merge(recs, k, rt, id, start, patch, now);
            var kept := k in recs && (recs[k].startedAt == None || start == None || recs[k].startedAt == start);
            var own := if kept then k else Key(rt, id);
            && (own in out <==> next != map[])
            && (own in out ==>
                  out[own] == if kept then LabelRec(recs[k].id, if recs[k].startedAt != None then recs[k].startedAt else start, next, now)
                              else LabelRec(id, start, next, now))
            && (forall q :: q != own && q != k ==> (q in out <==> q in recs) && (q in recs ==> out[q] == recs[q]))
  {
    hide ValidLabels, Patched;
  }

  /** A retried create changes nothing, and the first one overwrote nothing. */
  lemma RetriedCreate(recs: Recs, k: Key, start: Option<Time>, rt: RuntimeId, id: string, first: Labels, second: Labels,
                      t1: Time, t2: Time, k': Key)
    requires Definite(recs, rt, id) && Finds(recs, rt, id, k) && first != map[]
    requires Finds(SetIfAbsent(recs, k, rt, id, start, first, t1), rt, id, k')
    ensures var once := SetIfAbsent(recs, k, rt, id, start, first, t1);
            && SetIfAbsent(once, k', rt, id, start, second, t2) == once
            && Get(once, k', start) == if k in Found(recs, k, start) then Get(recs, k, start) else first
  {
  }

  /** Every stored map is within bounds and not empty. */
  predicate AllValid(recs: Recs)
  {
    forall k :: k in recs ==> recs[k].labels != map[] && ValidLabels(recs[k].labels)
  }

  lemma BoundsAreKept(recs: Recs, k: Key, rt: RuntimeId, id: string, start: Option<Time>, patch: Patch, labels: Labels,
                      from: string, to: string, now: Time)
    requires AllValid(recs)
    ensures AllValid(Merge(recs, k, rt, id, start, patch, now))
    ensures ValidLabels(labels) ==> AllValid(SetIfAbsent(recs, k, rt, id, start, labels, now))
    ensures AllValid(Rekey(recs, k, from, to, now)) && AllValid(Remove(recs, k))
  {
    hide ValidLabels;
  }

  // ---- retain, exactly -----------------------------------------------------

  /** The i-th orphan is the one its session gets: no kept record has the key, and no earlier orphan wants it. */
  predicate Chosen(kept: Recs, rt: RuntimeId, live: seq<Session>, orphans: seq<LabelRec>, i: nat, k: Key)
  {
    && i < |orphans| && k !in kept && Wanted(rt, live, orphans[i]) == Some(k)
    && forall j :: 0 <= j < i ==> Wanted(rt, live, orphans[j]) != Some(k)
  }

  predicate SomeWants(rt: RuntimeId, live: seq<Session>, orphans: seq<LabelRec>, k: Key)
  {
    exists i :: 0 <= i < |orphans| && Wanted(rt, live, orphans[i]) == Some(k)
  }

  lemma {:induction false} ReattachedExactly(kept: Recs, rt: RuntimeId, live: seq<Session>, orphans: seq<LabelRec>)
    ensures var out := ReattachAll(kept, rt, live, orphans);
            && (forall k :: k in out <==> k in kept || SomeWants(rt, live, orphans, k))
            && (forall k :: k in kept ==> out[k] == kept[k])
            && (forall i, k :: 0 <= i < |orphans| && Chosen(kept, rt, live, orphans, i, k) ==>
                  k in out && out[k] == orphans[i].(id := k.id))
    decreases |orphans|
  {
    var out := ReattachAll(kept, rt, live, orphans);
    if orphans != [] {
      var n := |orphans| - 1;
      var init, r := orphans[..n], orphans[n];
      ReattachedExactly(kept, rt, live, init);
      var before := ReattachAll(kept, rt, live, init);
      hide ReattachAll, Wanted;
      forall k ensures k in out <==> k in kept || SomeWants(rt, live, orphans, k) {
        WantsSnoc(rt, live, init, r, k);
      }
      forall i, k | 0 <= i < |orphans| && Chosen(kept, rt, live, orphans, i, k)
        ensures k in out && out[k] == orphans[i].(id := k.id)
      {
        if i < n {
          assert Chosen(kept, rt, live, init, i, k);
        } else {
          assert !SomeWants(rt, live, init, k);
        }
      }
    }
  }

  lemma WantsSnoc(rt: RuntimeId, live: seq<Session>, init: seq<LabelRec>, r: LabelRec, k: Key)
    ensures SomeWants(rt, live, init + [r], k) <==> SomeWants(rt, live, init, k) || Wanted(rt, live, r) == Some(k)
  {
    hide Wanted;
    var all := init + [r];
    if SomeWants(rt, live, init, k) {
      var i :| 0 <= i < |init| && Wanted(rt, live, init[i]) == Some(k);
      assert all[i] == init[i];
    }
    assert all[|init|] == r;
    if SomeWants(rt, live, all, k) {
      var i :| 0 <= i < |all| && Wanted(rt, live, all[i]) == Some(k);
      assert i < |init| ==> all[i] == init[i];
    }
  }

  /** The first of the orphans that want a key. */
  lemma {:induction false} FirstWants(kept: Recs, rt: RuntimeId, live: seq<Session>, orphans: seq<LabelRec>, k: Key) returns (i: nat)
    requires SomeWants(rt, live, orphans, k) && k !in kept
    ensures i < |orphans| && Chosen(kept, rt, live, orphans, i, k)
  {
    hide Wanted;
    i := 0;
    while Wanted(rt, live, orphans[i]) != Some(k)
      invariant i < |orphans| && forall j :: 0 <= j < i ==> Wanted(rt, live, orphans[j]) != Some(k)
      decreases |orphans| - i
    {
      i := i + 1;
    }
  }

  lemma {:induction false} FirstStartedIsFirst(live: seq<Session>, start: Option<Time>)
    ensures var i := FirstStarted(live, start);
            && (forall j :: 0 <= j < (if i < 0 then |live| else i) ==> !SameStart(live[j].startedAt, start))
    decreases |live|
  {
    if live != [] {
      FirstStartedIsFirst(live[..|live| - 1], start);
    }
  }

  /** k holds orphan o's labels: o is of the first live session of its run, which has k. */
  predicate MovedHere(recs: Recs, out: Recs, rt: RuntimeId, live: seq<Session>, o: Key, k: Key)
    requires o in recs
  {
    k in out && out[k] == recs[o].(id := k.id) && Wanted(rt, live, recs[o]) == Some(k)
  }

  /** Everything a complete listing does to the labels, record by record. */
  lemma RetainAccounts(recs: Recs, rt: RuntimeId, live: seq<Session>, listedAt: Time, order: seq<Key>)
    requires ListsOrphans(recs, rt, live, listedAt, order)
    ensures var out := Retain(recs, rt, live, listedAt, order);
            // what is no orphan is kept as it was: nothing is overwritten
            && (forall k :: k in recs && !Orphan(recs, rt, live, listedAt, k) ==> k in out && out[k] == recs[k])
            // every other record left is an orphan's, under the id its run now has, its labels unchanged
            && (forall k :: k in out && !(k in recs && !Orphan(recs, rt, live, listedAt, k)) ==>
                  exists o :: Orphan(recs, rt, live, listedAt, o) && MovedHere(recs, out, rt, live, o, k))
            // an orphan is lost only when no live session is its run, or another record has that session
            && (forall o :: Orphan(recs, rt, live, listedAt, o) ==>
                  var w := Wanted(rt, live, recs[o]);
                  (w.Some? ==>
                     && w.value in out
                     && (MovedHere(recs, out, rt, live, o, w.value)
                         || (w.value in recs && !Orphan(recs, rt, live, listedAt, w.value))
                         || exists o' :: o' != o && Orphan(recs, rt, live, listedAt, o') && MovedHere(recs, out, rt, live, o', w.value))))
  {
    var kept, orphans := Kept(recs, rt, live, listedAt), RecsAt(recs, order);
    var out := Retain(recs, rt, live, listedAt, order);
    ReattachedExactly(kept, rt, live, orphans);
    hide Retain, ReattachAll, Wanted, IsLive;
    forall k | k in out && k !in kept
      ensures exists o :: Orphan(recs, rt, live, listedAt, o) && MovedHere(recs, out, rt, live, o, k)
    {
      var i := FirstWants(kept, rt, live, orphans, k);
      assert order[i] in order;
      assert MovedHere(recs, out, rt, live, order[i], k);
    }
    forall o | Orphan(recs, rt, live, listedAt, o) && Wanted(rt, live, recs[o]).Some?
      ensures var k := Wanted(rt, live, recs[o]).value;
              k in out && (k !in kept ==> exists o' :: Orphan(recs, rt, live, listedAt, o') && MovedHere(recs, out, rt, live, o', k))
    {
      assert o in order;
      var j :| 0 <= j < |order| && order[j] == o;
      var k := Wanted(rt, live, recs[o]).value;
      assert Wanted(rt, live, orphans[j]) == Some(k);
      assert SomeWants(rt, live, orphans, k);
    }
  }

  /** Where a record comes from that is there after a listing. */
  lemma RetainOrigin(recs: Recs, rt: RuntimeId, live: seq<Session>, listedAt: Time, order: seq<Key>, k: Key) returns (o: Key)
    requires ListsOrphans(recs, rt, live, listedAt, order) && k in Retain(recs, rt, live, listedAt, order)
    ensures o in recs
    ensures var out := Retain(recs, rt, live, listedAt, order);
            if o == k && !Orphan(recs, rt, live, listedAt, k) then out[k] == recs[k]
            else Orphan(recs, rt, live, listedAt, o) && Wanted(rt, live, recs[o]) == Some(k) && out[k] == recs[o].(id := k.id)
  {
    RetainAccounts(recs, rt, live, listedAt, order);
    hide Retain, Wanted, Orphan;
    var out := Retain(recs, rt, live, listedAt, order);
    if k in recs && !Orphan(recs, rt, live, listedAt, k) {
      o := k;
    } else {
      o :| Orphan(recs, rt, live, listedAt, o) && MovedHere(recs, out, rt, live, o, k);
    }
  }

  /** Afterwards every record of the runtime names a live session or is newer than the listing. */
  lemma RetainLeavesLive(recs: Recs, rt: RuntimeId, live: seq<Session>, listedAt: Time, order: seq<Key>, k: Key)
    requires ListsOrphans(recs, rt, live, listedAt, order)
    requires k in Retain(recs, rt, live, listedAt, order) && k.runtime == rt
    ensures IsLive(live, k.id) || (k in recs && recs[k].updatedAt > listedAt)
  {
    RetainAccounts(recs, rt, live, listedAt, order);
    var out := Retain(recs, rt, live, listedAt, order);
    if !(k in recs && !Orphan(recs, rt, live, listedAt, k)) {
      var o :| Orphan(recs, rt, live, listedAt, o) && MovedHere(recs, out, rt, live, o, k);
      assert live[FirstStarted(live, recs[o].startedAt)].id == k.id;
    }
  }

  /** It leaves alone what is not the runtime's, what names a live session, and what is newer than it. */
  lemma RetainLeavesAlone(recs: Recs, rt: RuntimeId, live: seq<Session>, listedAt: Time, order: seq<Key>, k: Key)
    requires ListsOrphans(recs, rt, live, listedAt, order) && k in recs
    requires k.runtime != rt || recs[k].updatedAt > listedAt || exists i :: 0 <= i < |live| && live[i].id == k.id
    ensures k in Retain(recs, rt, live, listedAt, order) && Retain(recs, rt, live, listedAt, order)[k] == recs[k]
  {
    KeepsItsOwn(recs, rt, live, listedAt, order, k);
  }

  /** A listing asked for before a write does not undo it: what a create, a merge or a rename wrote later, under whatever
      id, is there afterwards, whatever the listing names. */
  lemma LaterWritesSurvive(recs: Recs, after: Recs, k: Key, rt: RuntimeId, id: string, start: Option<Time>, labels: Labels,
                           patch: Patch, to: string, now: Time, other: RuntimeId, live: seq<Session>, listedAt: Time, order: seq<Key>)
    requires listedAt < now && ListsOrphans(after, other, live, listedAt, order)
    requires after == SetIfAbsent(recs, k, rt, id, start, labels, now) || after == Merge(recs, k, rt, id, start, patch, now)
          || after == Rekey(recs, k, id, to, now)
    ensures forall q :: q in after && (q !in recs || after[q] != recs[q]) ==>
              q in Retain(after, other, live, listedAt, order) && Retain(after, other, live, listedAt, order)[q] == after[q]
  {
    hide Retain, ListsOrphans, ValidLabels, Patched, IsLive, Orphan;
    forall q | q in after && (q !in recs || after[q] != recs[q])
      ensures q in Retain(after, other, live, listedAt, order) && Retain(after, other, live, listedAt, order)[q] == after[q]
    {
      RetainLeavesAlone(after, other, live, listedAt, order, q);
    }
  }

  /** No two orphans that would leave different records want one session that has none. */
  ghost predicate Uncontested(recs: Recs, rt: RuntimeId, live: seq<Session>, listedAt: Time)
  {
    forall a, b, k :: Orphan(recs, rt, live, listedAt, a) && Orphan(recs, rt, live, listedAt, b) && k !in recs
                      && Wanted(rt, live, recs[a]) == Some(k) && Wanted(rt, live, recs[b]) == Some(k) ==>
      recs[a].(id := k.id) == recs[b].(id := k.id)
  }

  /** Which ids end up labelled never depends on the order in which the map is iterated; whose labels
      they get does only where two orphans want one session. */
  lemma RetainConfluent(recs: Recs, rt: RuntimeId, live: seq<Session>, listedAt: Time, o1: seq<Key>, o2: seq<Key>)
    requires ListsOrphans(recs, rt, live, listedAt, o1) && ListsOrphans(recs, rt, live, listedAt, o2)
    ensures Retain(recs, rt, live, listedAt, o1).Keys == Retain(recs, rt, live, listedAt, o2).Keys
    ensures Uncontested(recs, rt, live, listedAt) ==> Retain(recs, rt, live, listedAt, o1) == Retain(recs, rt, live, listedAt, o2)
  {
    hide Retain, Uncontested, ListsOrphans;
    RetainBelow(recs, rt, live, listedAt, o1, o2);
    RetainBelow(recs, rt, live, listedAt, o2, o1);
    if Uncontested(recs, rt, live, listedAt) {
      forall k | k in Retain(recs, rt, live, listedAt, o1)
        ensures Retain(recs, rt, live, listedAt, o1)[k] == Retain(recs, rt, live, listedAt, o2)[k]
      {
        RetainSameAt(recs, rt, live, listedAt, o1, o2, k);
      }
    }
  }

  lemma RetainSameAt(recs: Recs, rt: RuntimeId, live: seq<Session>, listedAt: Time, o1: seq<Key>, o2: seq<Key>, k: Key)
    requires ListsOrphans(recs, rt, live, listedAt, o1) && ListsOrphans(recs, rt, live, listedAt, o2)
    requires Uncontested(recs, rt, live, listedAt)
    requires k in Retain(recs, rt, live, listedAt, o1) && k in Retain(recs, rt, live, listedAt, o2)
    ensures Retain(recs, rt, live, listedAt, o1)[k] == Retain(recs, rt, live, listedAt, o2)[k]
  {
    var a := RetainOrigin(recs, rt, live, listedAt, o1, k);
    var b := RetainOrigin(recs, rt, live, listedAt, o2, k);
    WantedIsLive(recs, rt, live, listedAt, k);
    hide Retain, Wanted, Orphan, ListsOrphans;
    if k in recs && !Orphan(recs, rt, live, listedAt, k) {
      KeepsItsOwn(recs, rt, live, listedAt, o1, k);
      KeepsItsOwn(recs, rt, live, listedAt, o2, k);
    }
  }

  lemma KeepsItsOwn(recs: Recs, rt: RuntimeId, live: seq<Session>, listedAt: Time, order: seq<Key>, k: Key)
    requires ListsOrphans(recs, rt, live, listedAt, order) && k in recs && !Orphan(recs, rt, live, listedAt, k)
    ensures k in Retain(recs, rt, live, listedAt, order) && Retain(recs, rt, live, listedAt, order)[k] == recs[k]
  {
    RetainAccounts(recs, rt, live, listedAt, order);
    hide Retain, Wanted, Orphan, ListsOrphans;
  }

  /** A wanted key names a live session, so no orphan is there. */
  lemma WantedIsLive(recs: Recs, rt: RuntimeId, live: seq<Session>, listedAt: Time, k: Key)
    ensures (exists r :: Wanted(rt, live, r) == Some(k)) ==> !Orphan(recs, rt, live, listedAt, k)
  {
    if r :| Wanted(rt, live, r) == Some(k) {
      assert live[FirstStarted(live, r.startedAt)].id == k.id;
    }
  }

  /** The labels a listing leaves do not depend on the order in which the map is iterated. */
  ghost predicate LabelsOrderFree(recs: Recs, rt: RuntimeId, live: seq<Session>, listedAt: Time)
  {
    forall o1, o2 :: ListsOrphans(recs, rt, live, listedAt, o1) && ListsOrphans(recs, rt, live, listedAt, o2) ==>
      Retain(recs, rt, live, listedAt, o1) == Retain(recs, rt, live, listedAt, o2)
  }

  /** The condition is exact: the order shows if and only if two orphans that differ want one session that has no
      record; whichever is met first gets it. */
  lemma RetainOrderIff(recs: Recs, rt: RuntimeId, live: seq<Session>, listedAt: Time)
    ensures LabelsOrderFree(recs, rt, live, listedAt) <==> Uncontested(recs, rt, live, listedAt)
  {
    hide Retain, ListsOrphans, Orphan, Wanted, Uncontested;
    if Uncontested(recs, rt, live, listedAt) {
      forall o1, o2 | ListsOrphans(recs, rt, live, listedAt, o1) && ListsOrphans(recs, rt, live, listedAt, o2)
        ensures Retain(recs, rt, live, listedAt, o1) == Retain(recs, rt, live, listedAt, o2)
      {
        RetainConfluent(recs, rt, live, listedAt, o1, o2);
      }
    } else {
      var a, b, k := Contest(recs, rt, live, listedAt);
      var o1 := OrphanFirst(recs, rt, live, listedAt, a);
      var o2 := OrphanFirst(recs, rt, live, listedAt, b);
      FirstGetsIt(recs, rt, live, listedAt, o1, k);
      FirstGetsIt(recs, rt, live, listedAt, o2, k);
    }
  }

  lemma Contest(recs: Recs, rt: RuntimeId, live: seq<Session>, listedAt: Time) returns (a: Key, b: Key, k: Key)
    requires !Uncontested(recs, rt, live, listedAt)
    ensures Orphan(recs, rt, live, listedAt, a) && Orphan(recs, rt, live, listedAt, b) && a in recs && b in recs && k !in recs
    ensures Wanted(rt, live, recs[a]) == Some(k) && Wanted(rt, live, recs[b]) == Some(k)
    ensures recs[a].(id := k.id) != recs[b].(id := k.id)
  {
    hide Wanted, IsLive;
    a, b, k :| Orphan(recs, rt, live, listedAt, a) && Orphan(recs, rt, live, listedAt, b) && k !in recs
               && Wanted(rt, live, recs[a]) == Some(k) && Wanted(rt, live, recs[b]) == Some(k)
               && recs[a].(id := k.id) != recs[b].(id := k.id);
  }

  /** Any orphan can be the first the iteration meets. */
  lemma OrphanFirst(recs: Recs, rt: RuntimeId, live: seq<Session>, listedAt: Time, a: Key) returns (order: seq<Key>)
    requires Orphan(recs, rt, live, listedAt, a)
    ensures ListsOrphans(recs, rt, live, listedAt, order) && order != [] && order[0] == a
  {
    hide Orphan;
    OrphansAreKept(recs, rt, live, listedAt);
    var rest := Enumerate((set k | k in recs && Orphan(recs, rt, live, listedAt, k)) - {a});
    order := [a] + rest;
    assert forall i :: 0 < i < |order| ==> order[i] == rest[i - 1];
  }

  lemma OrphansAreKept(recs: Recs, rt: RuntimeId, live: seq<Session>, listedAt: Time)
    ensures forall k :: Orphan(recs, rt, live, listedAt, k) ==> k in recs
  {
  }

  lemma FirstGetsIt(recs: Recs, rt: RuntimeId, live: seq<Session>, listedAt: Time, order: seq<Key>, k: Key)
    requires ListsOrphans(recs, rt, live, listedAt, order) && order != [] && k !in recs
    requires order[0] in recs && Wanted(rt, live, recs[order[0]]) == Some(k)
    ensures var out := Retain(recs, rt, live, listedAt, order);
            k in out && out[k] == recs[order[0]].(id := k.id)
  {
    hide ReattachAll, Wanted, IsLive;
    var kept, orphans := Kept(recs, rt, live, listedAt), RecsAt(recs, order);
    ReattachedExactly(kept, rt, live, orphans);
    assert Chosen(kept, rt, live, orphans, 0, k);
  }

  lemma RetainBelow(recs: Recs, rt: RuntimeId, live: seq<Session>, listedAt: Time, o1: seq<Key>, o2: seq<Key>)
    requires ListsOrphans(recs, rt, live, listedAt, o1) && ListsOrphans(recs, rt, live, listedAt, o2)
    ensures Retain(recs, rt, live, listedAt, o1).Keys <= Retain(recs, rt, live, listedAt, o2).Keys
  {
    RetainAccounts(recs, rt, live, listedAt, o1);
    RetainAccounts(recs, rt, live, listedAt, o2);
    hide Retain, Wanted, Orphan;
  }
}
