// The single driver-side stream behind all subscribers (internal/service/events.go): the union
// filter, when it restarts, when peers are pumped, and the linger window.
module Upkeep {
  import opened Fleet
  import opened Seqs

  datatype Listener = Listener(filter: SubscribeFilter, scope: Scope)

  /** What the union must be: everything as soon as one listener names nothing, else the named ids, once each. */
  ghost predicate IsUnion(ls: set<Listener>, u: SubscribeFilter)
  {
    if exists l :: l in ls && l.filter.sessions == [] then u == EVERYTHING
    else
      && u.cwdPrefix == ""
      && Distinct(u.sessions)
      && (forall id :: id in u.sessions <==> exists l :: l in ls && id in l.filter.sessions)
  }

  /** unionFilter, over the listeners in any order. */
  method UnionFilter(ls: set<Listener>) returns (u: SubscribeFilter)
    ensures IsUnion(ls, u)
  {
    var ids: seq<string> := [];
    var todo := ls;
    while todo != {}
      invariant todo <= ls && Distinct(ids)
      invariant forall l :: l in ls - todo ==> l.filter.sessions != []
      invariant forall id :: id in ids <==> exists l :: l in ls - todo && id in l.filter.sessions
    {
      var l :| l in todo;
      if |l.filter.sessions| == 0 {
        return EVERYTHING;
      }
      ids := AppendNew(ids, l.filter.sessions);
      assert ls - (todo - {l}) == (ls - todo) + {l};
      todo := todo - {l};
    }
    assert ls - todo == ls;
    u := SubscribeFilter(ids, "");
  }

  method AppendNew(before: seq<string>, more: seq<string>) returns (ids: seq<string>)
    requires Distinct(before)
    ensures Distinct(ids) && forall id :: id in ids <==> id in before || id in more
  {
    ids := before;
    for i := 0 to |more|
      invariant Distinct(ids) && forall id :: id in ids <==> id in before || id in more[..i]
    {
      assert more[..i + 1] == more[..i] + [more[i]];
      if more[i] !in ids {
        ids := ids + [more[i]];
      }
    }
    assert more[..|more|] == more;
  }

  /** The driver's stream admits every session event any subscriber admits. */
  lemma UnionAdmits(ls: set<Listener>, u: SubscribeFilter, l: Listener, ev: Event)
    requires IsUnion(ls, u) && l in ls && MatchesEvent(l.filter, ev)
    ensures MatchesEvent(u, ev)
  {
  }

  /** And no named union admits an id nobody named. */
  lemma UnionIsTight(ls: set<Listener>, u: SubscribeFilter, id: string, cwd: string)
    requires IsUnion(ls, u) && ls != {} && (forall l :: l in ls ==> l.filter.sessions != [])
    ensures u.Matches(id, cwd) <==> exists l :: l in ls && id in l.filter.sessions
  {
    var l :| l in ls;
    assert l.filter.sessions[0] in u.sessions;
  }

  // ---- sameFilter ---------------------------------------------------------

  method SameFilter(a: SubscribeFilter, b: SubscribeFilter) returns (same: bool)
    ensures same == Same(a, b)
  {
    if a.cwdPrefix != b.cwdPrefix || |a.sessions| != |b.sessions| {
      return false;
    }
    var seen: set<string> := {};
    for i := 0 to |a.sessions|
      invariant seen == set j | 0 <= j < i :: a.sessions[j]
    {
      seen := seen + {a.sessions[i]};
    }
    for i := 0 to |b.sessions|
      invariant forall j :: 0 <= j < i ==> b.sessions[j] in a.sessions
    {
      if b.sessions[i] !in seen {
        assert b.sessions[i] !in a.sessions;
        return false;
      }
    }
    return true;
  }

  /** As written, the comparison looks one way only. */
  predicate Same(a: SubscribeFilter, b: SubscribeFilter)
  {
    a.cwdPrefix == b.cwdPrefix && |a.sessions| == |b.sessions| && forall y :: y in b.sessions ==> y in a.sessions
  }

  function Elements(xs: seq<string>): set<string>
  {
    set x | x in xs
  }

  lemma {:induction false} ElementsCount(xs: seq<string>)
    requires Distinct(xs)
    ensures |Elements(xs)| == |xs|
  {
    if xs != [] {
      var rest := xs[1..];
      ElementsCount(rest);
      assert Elements(xs) == {xs[0]} + Elements(rest);
      assert xs[0] !in rest;
    }
  }

  lemma SubsetOfEqualSize(a: set<string>, b: set<string>)
    requires a <= b && |a| == |b|
    ensures a == b
  {
    assert |b - a| == |b| - |a|;
  }

  /** On filters without duplicates (every union is one) it is equality of sets. */
  lemma SameIsSetEquality(a: SubscribeFilter, b: SubscribeFilter)
    requires Distinct(a.sessions) && Distinct(b.sessions)
    ensures Same(a, b) <==> a.cwdPrefix == b.cwdPrefix && Elements(a.sessions) == Elements(b.sessions)
  {
    ElementsCount(a.sessions);
    ElementsCount(b.sessions);
    if Same(a, b) {
      assert Elements(b.sessions) <= Elements(a.sessions);
      SubsetOfEqualSize(Elements(b.sessions), Elements(a.sessions));
    } else if Elements(a.sessions) == Elements(b.sessions) {
      forall y | y in b.sessions ensures y in a.sessions {
        assert y in Elements(b.sessions);
      }
    }
  }

  /** On filters with duplicates it is neither symmetric nor set equality. */
  lemma SameNeedsDistinctIds()
    ensures var a, b := SubscribeFilter(["x", "y"], ""), SubscribeFilter(["x", "x"], "");
            Same(a, b) && !Same(b, a) && Elements(a.sessions) != Elements(b.sessions)
  {
    var a, b := SubscribeFilter(["x", "y"], ""), SubscribeFilter(["x", "x"], "");
    assert a.sessions[1] == "y" && "y" in a.sessions && "y" !in b.sessions;
    assert "y" in Elements(a.sessions) && "y" !in Elements(b.sessions);
    assert a.sessions[0] == "x";
  }

  /** Two unions of the same demands never restart the stream. */
  lemma EqualDemandIsSame(ls: set<Listener>, u: SubscribeFilter, v: SubscribeFilter)
    requires IsUnion(ls, u) && IsUnion(ls, v)
    ensures Same(u, v)
  {
    if !exists l :: l in ls && l.filter.sessions == [] {
      assert Elements(u.sessions) == Elements(v.sessions);
      SameIsSetEquality(u, v);
    }
  }

  // ---- the stream ---------------------------------------------------------

  /** Subscribing with an add, unsubscribing with a remove, and the linger timer: each one step. */
  class Stream {
    var subs: map<nat, Listener>
    var nextID: nat
    var streamOn: bool
    var streamFilter: SubscribeFilter
    var peersPumped: bool
    const linger: nat
    var lingerArmed: bool

    /** While anybody listens the stream runs, on a filter that is the union of what they ask for. */
    ghost predicate Valid()
      reads this
    {
      && (forall id :: id in subs ==> id < nextID)
      && (subs.Values != {} ==> streamOn && !lingerArmed && Kept(streamFilter, subs.Values))
      && (peersPumped ==> streamOn)
    }

    constructor (linger: nat)
      ensures Valid() && subs == map[] && !streamOn && this.linger == linger
    {
      this.linger := linger;
      subs, nextID, streamOn, streamFilter, peersPumped, lingerArmed := map[], 0, false, EVERYTHING, false, false;
    }

    method WantsPeers() returns (wants: bool)
      ensures wants <==> WantsFleet(subs.Values)
    {
      var todo := subs.Values;
      while todo != {}
        invariant todo <= subs.Values
        invariant forall l :: l in subs.Values - todo ==> l.scope != ScopeFleet
      {
        var l :| l in todo;
        if l.scope == ScopeFleet {
          return true;
        }
        todo := todo - {l};
      }
      return false;
    }

    /** ensureStream. The early return on an unchanged filter leaves the peers as they were. */
    method EnsureStream()
      requires forall id :: id in subs ==> id < nextID
      requires peersPumped ==> streamOn
      modifies this`streamOn, this`streamFilter, this`peersPumped, this`lingerArmed
      ensures Valid()
      ensures subs.Values != {} ==>
        peersPumped == if old(streamOn) && Kept(old(streamFilter), subs.Values) then old(peersPumped)
                       else WantsFleet(subs.Values)
      ensures subs.Values != {} && old(streamOn) && Kept(old(streamFilter), subs.Values) ==> streamFilter == old(streamFilter)
      ensures subs.Values == {} && linger > 0 ==>
        streamOn == old(streamOn) && streamFilter == old(streamFilter) && peersPumped == old(peersPumped)
        && (streamOn ==> lingerArmed)
      ensures subs.Values == {} && linger == 0 ==> !streamOn
    {
      var want := UnionFilter(subs.Values);
      var on, cur := streamOn, streamFilter;
      if subs.Values == {} {
        if on {
          if linger > 0 {
            lingerArmed := true;
          } else {
            streamOn, peersPumped := false, false;
          }
        }
        return;
      }
      lingerArmed := false;
      var same := SameFilter(cur, want);
      KeptIffSame(cur, want, subs.Values);
      if on && same {
        return;
      }
      KeptIffSame(want, want, subs.Values);
      streamOn, streamFilter := true, want;
      peersPumped := WantsPeers();
    }

    /** Service.Events. */
    method Subscribe(filter: SubscribeFilter, scope: Scope) returns (id: nat)
      requires Valid()
      modifies this
      ensures Valid() && subs == old(subs)[id := Listener(filter, scope)] && id !in old(subs)
      ensures forall ev :: MatchesEvent(filter, ev) ==> MatchesEvent(streamFilter, ev)
      ensures old(streamOn) && Kept(old(streamFilter), subs.Values) ==> streamFilter == old(streamFilter)
      ensures peersPumped == if old(streamOn) && Kept(old(streamFilter), subs.Values) then old(peersPumped)
                             else WantsFleet(subs.Values)
    {
      id := nextID;
      subs := subs[id := Listener(filter, scope)];
      nextID := nextID + 1;
      assert subs[id] in subs.Values;
      EnsureStream();
      KeptCovers(streamFilter, subs.Values);
    }

    /** The cancel function Events returned. */
    method Unsubscribe(id: nat)
      requires Valid()
      modifies this
      ensures Valid() && subs == old(subs) - {id}
      ensures subs.Values == {} && linger > 0 ==>
        streamOn == old(streamOn) && streamFilter == old(streamFilter) && peersPumped == old(peersPumped)
        && (streamOn ==> lingerArmed)
      ensures subs.Values == {} && linger == 0 ==> !streamOn
      ensures subs.Values != {} ==>
        peersPumped == if old(streamOn) && Kept(old(streamFilter), subs.Values) then old(peersPumped)
                       else WantsFleet(subs.Values)
      ensures subs.Values != {} && old(streamOn) && Kept(old(streamFilter), subs.Values) ==> streamFilter == old(streamFilter)
    {
      subs := subs - {id};
      EnsureStream();
    }

    /** The linger timer's callback; it may run late, after somebody came back. */
    method LingerExpired()
      requires Valid()
      modifies this
      ensures Valid() && subs == old(subs)
      ensures subs.Values == {} ==> !streamOn && !peersPumped
      ensures subs.Values != {} ==> streamOn && streamFilter == old(streamFilter) && peersPumped == old(peersPumped)
    {
      lingerArmed := false;
      if |subs| > 0 {
        assert subs.Values != {} by {
          var id :| id in subs;
          assert subs[id] in subs.Values;
        }
        return;
      }
      streamOn, peersPumped := false, false;
    }
  }

  ghost predicate WantsFleet(ls: set<Listener>)
  {
    exists l :: l in ls && l.scope == ScopeFleet
  }

  /** Every listener's events get through the driver's filter. */
  ghost predicate Covers(f: SubscribeFilter, ls: set<Listener>)
  {
    forall l, ev :: l in ls && MatchesEvent(l.filter, ev) ==> MatchesEvent(f, ev)
  }

  /** The running filter already is a union of what the listeners ask for. */
  ghost predicate Kept(f: SubscribeFilter, ls: set<Listener>)
  {
    exists u :: IsUnion(ls, u) && Same(f, u)
  }

  lemma UnionCovers(ls: set<Listener>, u: SubscribeFilter)
    requires IsUnion(ls, u)
    ensures Covers(u, ls)
  {
    forall l, ev | l in ls && MatchesEvent(l.filter, ev) ensures MatchesEvent(u, ev) {
      UnionAdmits(ls, u, l, ev);
    }
  }

  lemma SameCovers(f: SubscribeFilter, u: SubscribeFilter, ls: set<Listener>)
    requires Same(f, u) && IsUnion(ls, u)
    ensures Covers(f, ls)
  {
    UnionCovers(ls, u);
    forall ev | MatchesEvent(u, ev) ensures MatchesEvent(f, ev) {
    }
  }

  lemma KeptCovers(f: SubscribeFilter, ls: set<Listener>)
    requires Kept(f, ls)
    ensures Covers(f, ls)
  {
    var u :| IsUnion(ls, u) && Same(f, u);
    SameCovers(f, u, ls);
  }

  lemma KeptIffSame(f: SubscribeFilter, want: SubscribeFilter, ls: set<Listener>)
    requires IsUnion(ls, want)
    ensures Kept(f, ls) <==> Same(f, want)
  {
    if Kept(f, ls) {
      var u :| IsUnion(ls, u) && Same(f, u);
      EqualDemandIsSame(ls, want, u);
      EqualDemandIsSame(ls, u, want);
    }
  }

  /** The first fleet-scope subscriber to arrive gets no peer streams exactly when the stream was on
      without them and its filter did not have to change. */
  method FleetSubscriberServedIff(s: Stream, filter: SubscribeFilter)
    requires s.Valid()
    modifies s
    ensures s.peersPumped
       <==> !(old(s.streamOn && !s.peersPumped) && Kept(old(s.streamFilter), s.subs.Values))
  {
    var id := s.Subscribe(filter, ScopeFleet);
    assert s.subs[id] in s.subs.Values;
  }

  /** A local watcher of everything, then a fleet watcher of everything: the peers are never pumped. */
  method LateFleetSubscriberGetsNoPeers(linger: nat) returns (s: Stream)
    ensures s.Valid() && WantsFleet(s.subs.Values) && !s.peersPumped
  {
    s := new Stream(linger);
    var a := s.Subscribe(EVERYTHING, ScopeLocal);
    assert s.subs.Values == {Listener(EVERYTHING, ScopeLocal)};
    var local := s.subs[a];
    assert !s.peersPumped;
    ghost var before := s.streamFilter;
    EverythingIsKept(before, s.subs.Values, local);
    var b := s.Subscribe(EVERYTHING, ScopeFleet);
    assert s.subs[b] in s.subs.Values && s.subs[a] == local && local in s.subs.Values;
    assert IsUnion(s.subs.Values, EVERYTHING);
    assert Kept(before, s.subs.Values);
  }

  lemma EverythingIsKept(f: SubscribeFilter, ls: set<Listener>, l: Listener)
    requires Kept(f, ls) && l in ls && l.filter == EVERYTHING
    ensures Same(f, EVERYTHING)
  {
  }
}
