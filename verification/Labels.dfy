// The label store in the source's own form (internal/service/labels.go, labels.go): records edited in
// place through a map of objects. Writing the document to disk is left out.
module Labels {
  import opened Fleet
  import opened HistorySpec
  import opened LabelSpec
  import LS = LabelSpec

  class LabelRecord {
    const runtime: RuntimeId
    var id: string
    var startedAt: Option<Time>
    var labels: LS.Labels
    var updatedAt: Time

    ghost function View(): LabelRec
      reads this
    {
      LabelRec(id, startedAt, labels, updatedAt)
    }

    constructor (k: Key, startedAt: Option<Time>, labels: LS.Labels, updatedAt: Time)
      ensures runtime == k.runtime && View() == LabelRec(k.id, startedAt, labels, updatedAt)
    {
      runtime, id := k.runtime, k.id;
      this.startedAt, this.labels, this.updatedAt := startedAt, labels, updatedAt;
    }
  }

  /** ValidateLabels: the keys in turn, up to the first bad one. */
  method ValidateLabels(m: LS.Labels) returns (ok: bool)
    ensures ok <==> ValidLabels(m)
    ensures ok <==> |m| <= 16 && forall k :: k in m ==> k != "" && |k| <= 128 && ':' !in k && |m[k]| <= 128
  {
    if |m| > MAX_LABELS {
      return false;
    }
    var todo := m.Keys;
    while todo != {}
      invariant todo <= m.Keys
      invariant forall k :: k in m.Keys - todo ==> ValidKey(k) && |m[k]| <= MAX_VALUE_BYTES
    {
      var k :| k in todo;
      if !ValidKey(k) || |m[k]| > MAX_VALUE_BYTES {
        return false;
      }
      todo := todo - {k};
    }
    return true;
  }

  /** The patch's loop: a key without a value is deleted. */
  method ApplyPatch(labels: LS.Labels, patch: Patch) returns (next: LS.Labels)
    ensures next == Patched(labels, patch)
    ensures forall key :: key in patch && patch[key].Some? ==> key in next && next[key] == patch[key].value
    ensures forall key :: key in patch && patch[key].None? ==> key !in next
    ensures forall key :: key !in patch ==> (key in next <==> key in labels) && (key in labels ==> next[key] == labels[key])
  {
    next := labels;
    var todo := patch.Keys;
    while todo != {}
      invariant todo <= patch.Keys
      invariant forall key :: key in todo || key !in patch ==> (key in next <==> key in labels) && (key in next ==> next[key] == labels[key])
      invariant forall key :: key in patch && key !in todo ==>
        (key in next <==> patch[key].Some?) && (key in next ==> next[key] == patch[key].value)
    {
      var key :| key in todo;
      todo := todo - {key};
      if patch[key].None? {
        next := next - {key};
      } else {
        next := next[key := patch[key].value];
      }
    }
  }

  lemma PutIs(recs: Recs, k: Key, rt: RuntimeId, id: string, start: Option<Time>, next: LS.Labels, now: Time)
    ensures |next| == 0 ==> LS.Put(recs, k, rt, id, start, next, now) == recs - {k}
    ensures |next| != 0 && k in recs ==>
              LS.Put(recs, k, rt, id, start, next, now)
                == recs[k := recs[k].(labels := next, updatedAt := now,
                                      startedAt := if recs[k].startedAt.None? then start else recs[k].startedAt)]
    ensures |next| != 0 && k !in recs ==>
              LS.Put(recs, k, rt, id, start, next, now) == recs[Key(rt, id) := LabelRec(id, start, next, now)]
  {
  }

  lemma MergeIs(recs: Recs, k: Key, rt: RuntimeId, id: string, start: Option<Time>, patch: Patch, now: Time)
    ensures MergedLabels(recs, k, start, patch) == Patched(LS.Get(recs, k, start), patch)
    ensures var next := MergedLabels(recs, k, start, patch);
            LS.Merge(recs, k, rt, id, start, patch, now)
              == if ValidLabels(next) then LS.Put(Found(recs, k, start), k, rt, id, start, next, now) else Found(recs, k, start)
  {
    hide Found, LS.Put, ValidLabels, Patched, LS.Get;
  }

  class LabelStore {
    var recs: map<Key, LabelRecord>

    ghost predicate Valid()
      reads this, recs.Values
    {
      forall k :: k in recs ==> recs[k].runtime == k.runtime && recs[k].id == k.id
    }

    ghost function View(): Recs
      reads this, recs.Values
    {
      map k | k in recs :: recs[k].View()
    }

    constructor ()
      ensures Valid() && View() == map[]
    {
      recs := map[];
    }

    /** findLocked, as far as the record; a map with several records of the id may yield any. */
    method Lookup(rt: RuntimeId, id: string) returns (k: Key)
      requires Valid()
      ensures Finds(View(), rt, id, k)
      ensures Key(rt, id) in recs || rt != "" ==> k == Key(rt, id)
      ensures k in recs <==> Key(rt, id) in recs || (rt == "" && exists q :: q in recs && q.id == id)
      ensures k.id == id
    {
      k := Key(rt, id);
      if k in recs || rt != "" {
        return;
      }
      var todo := recs.Keys;
      while todo != {}
        invariant todo <= recs.Keys && k == Key(rt, id)
        invariant forall rk :: rk in recs.Keys - todo ==> rk.id != id
      {
        var rk :| rk in todo;
        if rk.id == id {
          assert rk in View();
          return rk;
        }
        todo := todo - {rk};
      }
    }

    /** findLocked: a record whose startedAt contradicts the session's is dropped. */
    method FindLocked(rt: RuntimeId, id: string, start: Option<Time>) returns (k: Key, r: LabelRecord?)
      requires Valid()
      modifies this
      ensures Valid() && Finds(old(View()), rt, id, k) && View() == Found(old(View()), k, start)
      ensures r != null <==> k in recs
      ensures r != null ==> r == recs[k]
      ensures recs.Values <= old(recs.Values)
    {
      k := Lookup(rt, id);
      if k !in recs {
        return k, null;
      }
      r := recs[k];
      if r.startedAt.Some? && start.Some? && r.startedAt.value != start.value {
        recs := recs - {k};
        r := null;
      }
    }

    method Get(rt: RuntimeId, id: string, start: Option<Time>) returns (labels: LS.Labels, ghost k: Key)
      requires Valid()
      modifies this
      ensures Valid() && Finds(old(View()), rt, id, k) && View() == Found(old(View()), k, start)
      ensures labels == LS.Get(old(View()), k, start)
    {
      var at;
      labels, at := Current(rt, id, start);
      k := at;
    }

    method SetIfAbsent(rt: RuntimeId, id: string, start: Option<Time>, given: LS.Labels, now: Time)
      returns (labels: LS.Labels, set_: bool, ghost k: Key)
      requires Valid()
      modifies this
      ensures Valid() && Finds(old(View()), rt, id, k)
      ensures View() == LS.SetIfAbsent(old(View()), k, rt, id, start, given, now)
      ensures set_ <==> k !in Found(old(View()), k, start) && given != map[]
      ensures labels == if k in Found(old(View()), k, start) then LS.Get(old(View()), k, start) else given
    {
      var r;
      k, r := FindLocked(rt, id, start);
      if r != null {
        return r.labels, false, k;
      }
      if |given| == 0 {
        return map[], false, k;
      }
      Add(Key(rt, id), start, given, now);
      return given, true, k;
    }

    method Delete(k: Key)
      requires Valid()
      modifies this
      ensures Valid() && View() == old(View()) - {k} && recs == old(recs) - {k}
    {
      recs := recs - {k};
    }

    method Add(k: Key, start: Option<Time>, labels: LS.Labels, now: Time)
      requires Valid()
      modifies this
      ensures Valid() && View() == old(View())[k := LabelRec(k.id, start, labels, now)]
    {
      ghost var was := View();
      var r := new LabelRecord(k, start, labels, now);
      assert View() == was;
      recs := recs[k := r];
    }

    /** None is a refusal: the result is over the bounds. */
    method Merge(rt: RuntimeId, id: string, start: Option<Time>, patch: Patch, now: Time)
      returns (merged: Option<LS.Labels>, ghost k: Key)
      requires Valid()
      modifies this, recs.Values
      ensures Valid() && Finds(old(View()), rt, id, k)
      ensures View() == LS.Merge(old(View()), k, rt, id, start, patch, now)
      ensures var next := MergedLabels(old(View()), k, start, patch);
        merged == if ValidLabels(next) then Some(next) else None
    {
      hide *;
      var next, at;
      next, at := Current(rt, id, start);
      k := at;
      next := ApplyPatch(next, patch);
      var ok := ValidateLabels(next);
      MergeIs(old(View()), at, rt, id, start, patch, now);
      if !ok {
        return None, k;
      }
      Put(at, rt, id, next, start, now);
      merged := Some(next);
    }

    /** Where the session's labels are, and a copy of them. */
    method Current(rt: RuntimeId, id: string, start: Option<Time>) returns (labels: LS.Labels, k: Key)
      requires Valid()
      modifies this
      ensures Valid() && Finds(old(View()), rt, id, k) && View() == Found(old(View()), k, start)
      ensures labels == LS.Get(old(View()), k, start)
      ensures recs.Values <= old(recs.Values)
    {
      var r;
      k, r := FindLocked(rt, id, start);
      labels := if r == null then map[] else r.labels;
    }

    method Put(k: Key, rt: RuntimeId, id: string, next: LS.Labels, start: Option<Time>, now: Time)
      requires Valid()
      modifies this, recs.Values
      ensures Valid() && View() == LS.Put(old(View()), k, rt, id, start, next, now)
    {
      assert View().Keys == recs.Keys;
      PutIs(View(), k, rt, id, start, next, now);
      hide *;
      if |next| == 0 {
        Delete(k);
      } else if k in recs {
        Overwrite(k, next, start, now);
      } else {
        Add(Key(rt, id), start, next, now);
      }
    }

    method Overwrite(k: Key, next: LS.Labels, start: Option<Time>, now: Time)
      requires Valid() && k in recs
      modifies recs[k]
      ensures Valid()
      ensures var r := old(View())[k];
        View() == old(View())[k := r.(labels := next, updatedAt := now,
                                      startedAt := if r.startedAt.None? then start else r.startedAt)]
    {
      var r := recs[k];
      assert forall q :: q in recs && q != k ==> recs[q] != r;
      r.labels := next;
      r.updatedAt := now;
      if r.startedAt.None? {
        r.startedAt := start;
      }
    }

    method Rekey(rt: RuntimeId, from: string, to: string, now: Time) returns (ghost k: Key)
      requires Valid()
      modifies this, recs.Values
      ensures Valid() && Finds(old(View()), rt, from, k)
      ensures View() == LS.Rekey(old(View()), k, from, to, now)
    {
      var r, at;
      at, r := FindLocked(rt, from, None);
      k := at;
      if r == null || from == to {
        return;
      }
      MoveTo(at, to, now);
    }

    method MoveTo(k: Key, to: string, now: Time)
      requires Valid() && k in recs && k.id != to
      modifies this, recs[k]
      ensures Valid() && View() == (old(View()) - {k})[Key(k.runtime, to) := old(View())[k].(id := to, updatedAt := now)]
    {
      var r := recs[k];
      RecordAt(k);
      Apart(k);
      hide View;
      Delete(k);
      ghost var rest := View();
      assert r !in recs.Values;
      r.id := to;
      r.updatedAt := now;
      assert View() == rest;
      Insert(Key(k.runtime, to), r);
    }

    lemma Apart(k: Key)
      requires Valid() && k in recs
      ensures forall q :: q in recs && q != k ==> recs[q] != recs[k]
    {
    }

    method Insert(k: Key, r: LabelRecord)
      requires Valid() && r.runtime == k.runtime && r.id == k.id
      modifies this
      ensures Valid() && View() == old(View())[k := r.View()] && recs == old(recs)[k := r]
    {
      recs := recs[k := r];
    }

    lemma RecordAt(k: Key)
      requires k in recs
      ensures k in View() && View()[k] == recs[k].View()
    {
    }

    method Remove(rt: RuntimeId, id: string) returns (ghost k: Key)
      requires Valid()
      modifies this
      ensures Valid() && Finds(old(View()), rt, id, k) && View() == LS.Remove(old(View()), k)
    {
      var r, at;
      at, r := FindLocked(rt, id, None);
      k := at;
      if r != null {
        Delete(at);
      }
    }

    // ---- a complete listing --------------------------------------------------

    /** retain: drop the orphans, then re-attach those whose run goes on. order is how the map was iterated. */
    method Retain(rt: RuntimeId, live: seq<Session>, listedAt: Time) returns (ghost order: seq<Key>)
      requires Valid()
      modifies this, recs.Values
      ensures Valid() && ListsOrphans(old(View()), rt, live, listedAt, order)
      ensures View() == LS.Retain(old(View()), rt, live, listedAt, order)
    {
      ghost var before := View();
      var orphans;
      orphans, order := DropOrphans(rt, live, listedAt);
      ghost var rs := RecsAt(before, order);
      ReattachOrphans(rt, live, orphans, rs);
      RetainIs(before, rt, live, listedAt, order);
      hide *;
    }

    /** Deletes from the map while iterating over it. */
    method DropOrphans(rt: RuntimeId, live: seq<Session>, listedAt: Time)
      returns (orphans: seq<LabelRecord>, ghost order: seq<Key>)
      requires Valid()
      modifies this
      ensures Valid() && ListsOrphans(old(View()), rt, live, listedAt, order)
      ensures View() == Kept(old(View()), rt, live, listedAt)
      ensures recs.Values <= old(recs.Values)
      ensures |orphans| == |order| && forall i :: 0 <= i < |order| ==>
        order[i] in old(View()) && orphans[i].View() == old(View())[order[i]]
      ensures forall i :: 0 <= i < |orphans| ==>
        orphans[i] in old(recs.Values) && orphans[i] !in recs.Values && orphans[i].runtime == rt
      ensures forall i, j :: 0 <= i < j < |orphans| ==> orphans[i] != orphans[j]
    {
      ghost var was, before := recs, View();
      assert forall k, l :: k in was && l in was && k != l ==> was[k] != was[l];
      var byId := set i | 0 <= i < |live| :: live[i].id;
      orphans, order := Sift(rt, byId, listedAt);
      SiftedOrphans(before, was, rt, live, listedAt, byId, orphans, order);
    }

    /** What the first loop of retain picks out. */
    predicate Drops(k: Key, r: LabelRecord, rt: RuntimeId, byId: set<string>, listedAt: Time)
      reads r
    {
      k.runtime == rt && k.id !in byId && r.updatedAt <= listedAt
    }

    method Sift(rt: RuntimeId, byId: set<string>, listedAt: Time) returns (orphans: seq<LabelRecord>, ghost order: seq<Key>)
      modifies this
      ensures recs.Keys <= old(recs.Keys) && forall k :: k in recs ==> recs[k] == old(recs)[k]
      ensures forall k :: k in old(recs) ==> (k in recs <==> !Drops(k, old(recs)[k], rt, byId, listedAt))
      ensures forall k :: k in order <==> k in old(recs) && k !in recs
      ensures forall i, j :: 0 <= i < j < |order| ==> order[i] != order[j]
      ensures |orphans| == |order| && forall i :: 0 <= i < |order| ==> order[i] in old(recs) && orphans[i] == old(recs)[order[i]]
    {
      ghost var was := recs;
      orphans, order := [], [];
      var todo := recs.Keys;
      while todo != {}
        invariant todo <= recs.Keys <= was.Keys
        invariant forall k :: k in recs ==> recs[k] == was[k]
        invariant forall k :: k in was ==> (k in recs <==> k in todo || !Drops(k, was[k], rt, byId, listedAt))
        invariant forall k :: k in order <==> k in was && k !in recs
        invariant forall i, j :: 0 <= i < j < |order| ==> order[i] != order[j]
        invariant |orphans| == |order| && forall i :: 0 <= i < |order| ==> order[i] in was && orphans[i] == was[order[i]]
      {
        var k :| k in todo;
        todo := todo - {k};
        if Drops(k, recs[k], rt, byId, listedAt) {
          orphans, order := orphans + [recs[k]], order + [k];
          recs := recs - {k};
        }
      }
    }

    lemma SiftedOrphans(before: Recs, was: map<Key, LabelRecord>, rt: RuntimeId, live: seq<Session>, listedAt: Time,
                        byId: set<string>, orphans: seq<LabelRecord>, order: seq<Key>)
      requires before.Keys == was.Keys && forall k :: k in was ==> was[k].View() == before[k] && was[k].runtime == k.runtime
      requires forall k, l :: k in was && l in was && k != l ==> was[k] != was[l]
      requires byId == set i | 0 <= i < |live| :: live[i].id
      requires recs.Keys <= was.Keys && forall k :: k in recs ==> recs[k] == was[k]
      requires forall k :: k in was ==> (k in recs <==> !Drops(k, was[k], rt, byId, listedAt))
      requires forall k :: k in order <==> k in was && k !in recs
      requires forall i, j :: 0 <= i < j < |order| ==> order[i] != order[j]
      requires |orphans| == |order| && forall i :: 0 <= i < |order| ==> order[i] in was && orphans[i] == was[order[i]]
      ensures ListsOrphans(before, rt, live, listedAt, order) && View() == Kept(before, rt, live, listedAt)
      ensures forall i :: 0 <= i < |orphans| ==>
        orphans[i].View() == before[order[i]] && orphans[i] in was.Values && orphans[i] !in recs.Values && orphans[i].runtime == rt
      ensures forall i, j :: 0 <= i < j < |orphans| ==> orphans[i] != orphans[j]
    {
      forall k | k in was ensures Drops(k, was[k], rt, byId, listedAt) <==> Orphan(before, rt, live, listedAt, k) {
        assert k.id in byId <==> IsLive(live, k.id);
      }
      assert forall k :: k in order <==> Orphan(before, rt, live, listedAt, k);
      hide Orphan;
      forall i | 0 <= i < |orphans|
        ensures orphans[i].View() == before[order[i]] && orphans[i] in was.Values && orphans[i] !in recs.Values && orphans[i].runtime == rt
      {
        assert order[i] in order;
      }
    }

    method ReattachOrphans(rt: RuntimeId, live: seq<Session>, orphans: seq<LabelRecord>, ghost rs: seq<LabelRec>)
      requires Valid() && |rs| == |orphans|
      requires forall i :: 0 <= i < |orphans| ==>
        orphans[i] !in recs.Values && orphans[i].runtime == rt && orphans[i].View() == rs[i]
      requires forall i, j :: 0 <= i < j < |orphans| ==> orphans[i] != orphans[j]
      modifies this, orphans
      ensures Valid() && View() == ReattachAll(old(View()), rt, live, rs)
    {
      hide View;
      for n := 0 to |orphans|
        invariant Valid()
        invariant View() == ReattachAll(old(View()), rt, live, rs[..n])
        invariant forall i :: n <= i < |orphans| ==>
          orphans[i] !in recs.Values && orphans[i].runtime == rt && orphans[i].View() == rs[i]
      {
        assert rs[..n + 1][..n] == rs[..n];
        ReattachOne(rt, live, orphans[n]);
      }
      assert rs[..|orphans|] == rs;
    }

    /** The first live session of the orphan's run gets it, unless that session has labels already. */
    method ReattachOne(rt: RuntimeId, live: seq<Session>, r: LabelRecord)
      requires Valid() && r !in recs.Values && r.runtime == rt
      modifies this, r
      ensures Valid() && View() == Reattach(old(View()), rt, live, old(r.View()))
      ensures recs.Values <= old(recs.Values) + {r}
    {
      ghost var before := View();
      if r.startedAt.None? {
        NothingStarted(live);
        return;
      }
      assert View().Keys == recs.Keys;
      for i := 0 to |live|
        invariant FirstStarted(live[..i], r.startedAt) == -1
      {
        assert live[..i + 1][..i] == live[..i];
        if live[i].startedAt.Some? && live[i].startedAt.value == r.startedAt.value {
          FirstStartedHere(live, r.startedAt, i);
          var k := Key(rt, live[i].id);
          if k !in recs {
            r.id := live[i].id;
            assert View() == before;
            hide View;
            Insert(k, r);
          }
          return;
        }
      }
      assert live[..|live|] == live;
    }
  }

  lemma RetainIs(recs: Recs, rt: RuntimeId, live: seq<Session>, listedAt: Time, order: seq<Key>)
    requires ListsOrphans(recs, rt, live, listedAt, order)
    ensures LS.Retain(recs, rt, live, listedAt, order) == ReattachAll(Kept(recs, rt, live, listedAt), rt, live, RecsAt(recs, order))
  {
  }

  lemma {:induction false} NothingStarted(live: seq<Session>)
    ensures FirstStarted(live, None) == -1
  {
    if live != [] {
      NothingStarted(live[..|live| - 1]);
    }
  }

  lemma {:induction false} FirstStartedHere(live: seq<Session>, start: Option<Time>, i: nat)
    requires i < |live| && FirstStarted(live[..i], start) == -1 && SameStart(live[i].startedAt, start)
    ensures FirstStarted(live, start) == i
    decreases |live|
  {
    if i == |live| - 1 {
    } else {
      assert live[..|live| - 1][..i] == live[..i];
      FirstStartedHere(live[..|live| - 1], start, i);
    }
  }
}
