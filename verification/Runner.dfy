// The compatibility runner in the source's own form (internal/compat/run.go): validation, selection,
// the closure over needs, the stage order and the run itself, loop by loop. Logging is left out.
module Runner {
  import opened Fleet
  import opened Seqs
  import opened Report
  import opened SuiteSpec
  import opened SuiteRuns

  datatype Reply<+T> = Returned(value: T) | Refused(error: SuiteError)

  // ---- Validate ------------------------------------------------------------

  /** nil if and only if the suite is well formed. */
  method Validate(cat: seq<Spec>, s: Suite) returns (fault: Option<SuiteError>)
    ensures fault.None? <==> WellFormed(cat, s)
    ensures fault.Some? ==> Explains(cat, s, fault.value)
  {
    var index;
    fault, index := ValidateProbes(cat, s);
    if fault.Some? {
      return;
    }
    fault := ValidateNeeds(cat, s, index);
    if fault.Some? {
      return;
    }
    fault := ValidateChecks(cat, s, index);
  }

  /** The map of the first loop: where each probe is declared. */
  ghost predicate Indexes(index: map<string, nat>, ps: seq<Probe>)
  {
    && (forall id :: id in index ==> index[id] < |ps| && ps[index[id]].id == id)
    && (forall i :: 0 <= i < |ps| ==> ps[i].id in index)
  }

  method ValidateProbes(ghost cat: seq<Spec>, s: Suite) returns (fault: Option<SuiteError>, index: map<string, nat>)
    ensures fault.None? <==> ProbesOk(s.probes)
    ensures fault.Some? ==> Explains(cat, s, fault.value)
    ensures fault.None? ==> Indexes(index, s.probes)
  {
    var ps := s.probes;
    index := map[];
    for i := 0 to |ps|
      invariant ProbesOk(ps[..i]) && Indexes(index, ps[..i])
    {
      assert ps[..i + 1] == ps[..i] + [ps[i]];
      if ps[i].id == "" || !ps[i].runnable {
        assert ps[..i + 1][i] == ps[i];
        return Some(BadProbe(i)), index;
      }
      if ps[i].id in index {
        assert ps[..i][index[ps[i].id]] == ps[index[ps[i].id]];
        return Some(DuplicateProbe(ps[i].id)), index;
      }
      index := index[ps[i].id := i];
    }
    assert ps[..|ps|] == ps;
    fault := None;
  }

  method ValidateNeeds(ghost cat: seq<Spec>, s: Suite, index: map<string, nat>) returns (fault: Option<SuiteError>)
    requires ProbesOk(s.probes) && Indexes(index, s.probes)
    ensures fault.None? <==> forall i :: 0 <= i < |s.probes| ==> NeedsOk(s.probes, i)
    ensures fault.Some? ==> Explains(cat, s, fault.value)
  {
    var ps := s.probes;
    for i := 0 to |ps|
      invariant forall k :: 0 <= k < i ==> NeedsOk(ps, k)
    {
      var p := ps[i];
      for k := 0 to |p.needs|
        invariant forall m :: 0 <= m < k ==> exists j :: 0 <= j < |ps| && ps[j].id == p.needs[m] && NoLater(ps, j, i)
      {
        var n := p.needs[k];
        if n !in index {
          assert n in ps[i].needs;
          assert !NeedsOk(ps, i);
          return Some(UnknownNeed(p.id, n));
        }
        var j := index[n];
        if ps[j].stage > p.stage || (ps[j].stage == p.stage && j > i) {
          assert !NeedsOk(ps, i) by {
            assert n in ps[i].needs;
            assert forall j' :: 0 <= j' < |ps| && ps[j'].id == n ==> j' == j;
          }
          return Some(LateNeed(p.id, n));
        }
        assert NoLater(ps, j, i);
      }
      assert NeedsOk(ps, i);
    }
    fault := None;
  }

  method ValidateChecks(cat: seq<Spec>, s: Suite, index: map<string, nat>) returns (fault: Option<SuiteError>)
    requires Indexes(index, s.probes)
    ensures fault.None? <==>
      && (forall i :: 0 <= i < |s.checks| ==> CheckOk(cat, s.probes, s.checks[i]))
      && (forall i, j :: 0 <= i < j < |s.checks| ==> s.checks[i].id != s.checks[j].id)
    ensures fault.Some? ==> Explains(cat, s, fault.value)
  {
    var seen: set<string> := {};
    for i := 0 to |s.checks|
      invariant forall k :: 0 <= k < i ==> CheckOk(cat, s.probes, s.checks[k])
      invariant forall k, m :: 0 <= k < m < i ==> s.checks[k].id != s.checks[m].id
      invariant forall id :: id in seen <==> exists k :: 0 <= k < i && s.checks[k].id == id
    {
      var c := s.checks[i];
      if Lookup(cat, c.id).None? {
        assert !CheckOk(cat, s.probes, s.checks[i]);
        return Some(UnknownCheck(c.id));
      }
      if c.id in seen {
        return Some(DuplicateCheck(c.id));
      }
      seen := seen + {c.id};
      if !c.evaluable {
        assert !CheckOk(cat, s.probes, s.checks[i]);
        return Some(NoEval(c.id));
      }
      for k := 0 to |c.probes|
        invariant forall m :: 0 <= m < k ==> IsProbe(s.probes, c.probes[m])
      {
        if c.probes[k] !in index {
          assert c.probes[k] in c.probes && !IsProbe(s.probes, c.probes[k]);
          assert !CheckOk(cat, s.probes, s.checks[i]);
          return Some(UnknownEvidence(c.id, c.probes[k]));
        }
        assert s.probes[index[c.probes[k]]].id == c.probes[k];
      }
    }
    fault := None;
  }

  // ---- selectChecks --------------------------------------------------------

  method WantedIds(cat: seq<Spec>, only: seq<string>) returns (unknown: Option<string>, want: set<string>)
    ensures unknown.None? ==> forall id :: id in only <==> id in want
    ensures unknown.None? ==> forall id :: id in only ==> Lookup(cat, id).Some?
    ensures unknown.Some? ==> unknown.value in only && Lookup(cat, unknown.value).None?
  {
    want := {};
    for i := 0 to |only|
      invariant forall id :: id in want <==> id in only[..i]
      invariant forall id :: id in want ==> Lookup(cat, id).Some?
    {
      if Lookup(cat, only[i]).None? {
        return Some(only[i]), want;
      }
      want := want + {only[i]};
    }
    assert only[..|only|] == only;
    unknown := None;
  }

  method Choose(checks: seq<Check>, ghost only: seq<string>, want: set<string>) returns (selected: seq<Check>, have: set<string>)
    requires (forall id :: id in only <==> id in want) && (want == {} <==> only == [])
    ensures selected == Selected(checks, only)
    ensures forall id :: id in have <==> exists k :: 0 <= k < |checks| && checks[k].id == id
  {
    selected, have := [], {};
    for i := 0 to |checks|
      invariant selected == Selected(checks[..i], only)
      invariant forall id :: id in have <==> exists k :: 0 <= k < i && checks[k].id == id
    {
      assert checks[..i + 1][..i] == checks[..i];
      have := have + {checks[i].id};
      if |want| == 0 || checks[i].id in want {
        selected := selected + [checks[i]];
      }
    }
    assert checks[..|checks|] == checks;
  }

  /** The checks asked for, in suite order; an error if and only if an id names nothing that can run. */
  method SelectChecks(cat: seq<Spec>, s: Suite, only: seq<string>) returns (r: Reply<seq<Check>>)
    ensures r.Returned? <==> Selectable(cat, s, only)
    ensures r.Returned? ==> r.value == Selected(s.checks, only)
    ensures r.Refused? ==> ExplainsSelection(cat, s, only, r.error)
  {
    var unknown, want := WantedIds(cat, only);
    if unknown.Some? {
      return Refused(UnknownCheck(unknown.value));
    }
    assert want == {} <==> only == [] by {
      assert only != [] ==> only[0] in want;
    }
    var selected, have := Choose(s.checks, only, want);
    hide Selected, Wanted;
    var missing := FirstMissing(want, have);
    if missing.Some? {
      assert missing.value in only;
      return Refused(NoImplementation(missing.value));
    }
    assert forall id :: id in only ==> id in have;
    r := Returned(selected);
  }

  /** An id that was asked for and has no check, if there is one; which one is up to the map. */
  method FirstMissing(want: set<string>, have: set<string>) returns (id: Option<string>)
    ensures id.Some? ==> id.value in want && id.value !in have
    ensures id.None? ==> want <= have
  {
    var todo := want;
    while todo != {}
      invariant todo <= want && want - todo <= have
    {
      var w :| w in todo;
      todo := todo - {w};
      if w !in have {
        return Some(w);
      }
    }
    id := None;
  }

  // ---- the closure ---------------------------------------------------------

  /** need, and the recursive pull that marks it. */
  class Closure {
    const byId: map<string, Probe>
    ghost const probes: seq<Probe>
    var need: set<string>

    ghost predicate Valid()
      reads this
    {
      && (forall id :: id in byId <==> IsProbe(probes, id))
      && (forall id, n :: id in byId ==> (n in byId[id].needs <==> Needs(probes, id, n)))
      && (forall id, n :: id in byId && n in byId[id].needs ==> n in byId)
      && need <= byId.Keys
    }

    constructor (ps: seq<Probe>)
      requires ValidProbes(ps)
      ensures Valid() && need == {} && probes == ps
    {
      var m: map<string, Probe> := map[];
      for i := 0 to |ps|
        invariant forall id :: id in m <==> exists j :: 0 <= j < i && ps[j].id == id
        invariant forall id :: id in m ==> m[id] in ps && m[id].id == id
      {
        m := m[ps[i].id := ps[i]];
      }
      byId, need, probes := m, {}, ps;
      new;
      forall id, n | id in byId ensures n in byId[id].needs <==> Needs(probes, id, n) {
        NeedsOfProbe(ps, byId[id], n);
      }
      forall id, n | id in byId && n in byId[id].needs ensures n in byId {
        var i :| 0 <= i < |ps| && ps[i] == byId[id];
        assert NeedsOk(ps, i);
      }
    }

    /** Marks the probe and all it reaches. Probes whose pull is under way are marked but not finished. */
    method Pull(id: string)
      requires Valid() && id in byId
      modifies this
      ensures Valid() && old(need) <= need && id in need
      ensures forall a, b :: a in need - old(need) && Needs(probes, a, b) ==> b in need
      ensures forall a :: a in need - old(need) ==> Reaches(probes, id, a)
      decreases byId.Keys - need
    {
      if id in need {
        return;
      }
      ghost var before := need;
      need := need + {id};
      ReachesItself(probes, id);
      var needs := byId[id].needs;
      for i := 0 to |needs|
        invariant Valid() && before + {id} <= need
        invariant forall k :: 0 <= k < i ==> needs[k] in need
        invariant forall a, b :: a in need - before - {id} && Needs(probes, a, b) ==> b in need
        invariant forall a :: a in need - before ==> Reaches(probes, id, a)
      {
        ghost var already := need;
        assert needs[i] in needs;
        Pull(needs[i]);
        forall a | a in need - already ensures Reaches(probes, id, a) {
          ReachesFurther(probes, id, needs[i], a);
        }
      }
    }

    /** The loop over the selected checks: need becomes exactly what they need. */
    method PullAll(checks: seq<Check>)
      requires Valid() && need == {}
      requires forall c :: c in checks ==> forall n :: n in c.probes ==> n in byId
      modifies this
      ensures Valid() && forall x :: x in need <==> Needed(probes, checks, x)
    {
      hide Marked;
      NothingMarked(checks);
      for i := 0 to |checks|
        invariant Valid() && Marked(checks, i, 0)
      {
        var c := checks[i];
        for k := 0 to |c.probes|
          invariant Valid() && Marked(checks, i, k)
        {
          PullNext(checks, i, k);
        }
        NextCheck(checks, i);
      }
      MarkedIsNeeded(checks);
    }

    method PullNext(checks: seq<Check>, i: nat, k: nat)
      requires Valid() && i < |checks| && k < |checks[i].probes| && checks[i].probes[k] in byId
      requires Marked(checks, i, k)
      modifies this
      ensures Valid() && Marked(checks, i, k + 1)
    {
      ghost var before := need;
      var id := checks[i].probes[k];
      Pull(id);
      forall x | x in need ensures Needed(probes, checks, x) {
        if x !in before {
          assert checks[i] in checks && id in checks[i].probes && Reaches(probes, id, x);
        }
      }
      hide Needed, Reaches, Needs;
    }

    lemma NothingMarked(checks: seq<Check>)
      requires need == {}
      ensures Marked(checks, 0, 0)
    {
    }

    lemma NextCheck(checks: seq<Check>, i: nat)
      requires i < |checks| && Marked(checks, i, |checks[i].probes|)
      ensures Marked(checks, i + 1, 0)
    {
    }

    /** Everything marked is reached from a probe pulled so far, every such probe is marked, and need is closed. */
    ghost predicate Marked(checks: seq<Check>, i: nat, k: nat)
      reads this
    {
      && (forall a, b :: a in need && Needs(probes, a, b) ==> b in need)
      && (forall c, n :: 0 <= c < |checks| && 0 <= n < |checks[c].probes| && (c < i || (c == i && n < k)) ==> checks[c].probes[n] in need)
      && (forall x :: x in need ==> Needed(probes, checks, x))
    }

    lemma MarkedIsNeeded(checks: seq<Check>)
      requires Marked(checks, |checks|, 0)
      ensures forall x :: x in need <==> Needed(probes, checks, x)
    {
      forall x | Needed(probes, checks, x) ensures x in need {
        var c, id :| c in checks && id in c.probes && Reaches(probes, id, x);
        var i :| 0 <= i < |checks| && checks[i] == c;
        var n :| 0 <= n < |c.probes| && c.probes[n] == id;
        var path :| Path(probes, path) && path[0] == id && path[|path| - 1] == x;
        ClosedHoldsReach(probes, need, path);
      }
    }
  }

  // ---- Run -----------------------------------------------------------------

  /** The probes needed, in suite order. */
  method CollectNeeded(ps: seq<Probe>, need: set<string>) returns (order: seq<Probe>)
    ensures order == Chosen(ps, need)
  {
    order := [];
    for i := 0 to |ps|
      invariant order == Chosen(ps[..i], need)
    {
      ChosenSnoc(ps, need, i);
      if ps[i].id in need {
        order := order + [ps[i]];
      }
    }
    assert ps[..|ps|] == ps;
  }

  lemma ChosenSnoc(ps: seq<Probe>, need: set<string>, i: nat)
    requires i < |ps|
    ensures Chosen(ps[..i + 1], need) == if ps[i].id in need then Chosen(ps[..i], need) + [ps[i]] else Chosen(ps[..i], need)
  {
    FilterSnoc(In(need), ps[..i], ps[i]);
    assert ps[..i + 1] == ps[..i] + [ps[i]];
  }

  /** The loop over the order: skip what is cancelled or blocked, run the rest. */
  method Execute(w: World, order: seq<Probe>) returns (done: Done)
    ensures done == Exec(w, order)
  {
    done := map[];
    for i := 0 to |order|
      invariant done == Exec(w, order[..i])
    {
      assert order[..i + 1][..i] == order[..i];
      var p := order[i];
      if i >= w.cancelAt {
        done := done[p.id := Skipped("run cancelled before it started: " + w.cause)];
      } else {
        var blocked := FindBlocked(done, p.needs);
        if blocked.Some? {
          done := done[p.id := Skipped("prerequisite probe " + blocked.value + " did not complete")];
        } else if p.id in w.errs {
          done := done[p.id := Failed(w.errs[p.id])];
        } else {
          done := done[p.id := Completed];
        }
      }
    }
    assert order[..|order|] == order;
  }

  method FindBlocked(done: Done, needs: seq<string>) returns (n: Option<string>)
    ensures n == FirstNotOk(done, needs)
  {
    for i := 0 to |needs|
      invariant FirstNotOk(done, needs) == FirstNotOk(done, needs[i..])
    {
      if !(needs[i] in done && done[needs[i]].Completed?) {
        return Some(needs[i]);
      }
    }
    n := None;
  }

  /** Run: an invalid suite or selection is refused; otherwise one result per selected check, in suite
      order, from a run over exactly the probes they need. */
  method Run(cat: seq<Spec>, s: Suite, only: seq<string>, w: World) returns (r: Reply<seq<Result>>, need: set<string>)
    ensures r.Returned? <==> WellFormed(cat, s) && Selectable(cat, s, only)
    ensures r.Refused? ==> if WellFormed(cat, s) then ExplainsSelection(cat, s, only, r.error) else Explains(cat, s, r.error)
    ensures r.Returned? ==> IsClosure(s, Selected(s.checks, only), need) && r.value == RunResults(cat, s, w, only, need)
    ensures r.Returned? ==> var checks := Selected(s.checks, only);
              |r.value| == |checks| && forall i :: 0 <= i < |checks| ==> Says(w, Outcomes(s.probes, w, need), checks[i], r.value[i])
  {
    need := {};
    var fault := Validate(cat, s);
    if fault.Some? {
      return Refused(fault.value), need;
    }
    var chosen := SelectChecks(cat, s, only);
    if chosen.Refused? {
      return Refused(chosen.error), need;
    }
    var selected := chosen.value;
    var results, closure := RunSelected(cat, s, only, selected, w);
    r, need := Returned(results), closure;
    forall i | 0 <= i < |selected| ensures Says(w, Outcomes(s.probes, w, need), selected[i], results[i]) {
      ResultSays(cat, s, w, only, need, i);
    }
  }

  /** The closure, the order, the loop over it, and the judging. */
  method RunSelected(cat: seq<Spec>, s: Suite, ghost only: seq<string>, selected: seq<Check>, w: World)
    returns (results: seq<Result>, need: set<string>)
    requires WellFormed(cat, s) && selected == Selected(s.checks, only)
    ensures IsClosure(s, selected, need) && results == RunResults(cat, s, w, only, need)
  {
    var closure := new Closure(s.probes);
    forall c, n | c in selected && n in c.probes ensures n in closure.byId {
      var i :| 0 <= i < |s.checks| && s.checks[i] == c;
      assert CheckOk(cat, s.probes, c);
    }
    hide WellFormed, Needed, Evaluate, Ordered, Exec, Chosen, Selected;
    closure.PullAll(selected);
    need := closure.need;
    var order := CollectNeeded(s.probes, closure.need);
    order := SortByStage(order);
    OrderedIs(s.probes, need);
    var done := Execute(w, order);
    results := EvaluateChecks(cat, w, done, selected);
  }

  method EvaluateChecks(cat: seq<Spec>, w: World, done: Done, selected: seq<Check>) returns (results: seq<Result>)
    ensures results == EvaluateAll(cat, w, done, selected)
  {
    hide Evaluate;
    results := [];
    for i := 0 to |selected|
      invariant results == EvaluateAll(cat, w, done, selected[..i])
    {
      assert selected[..i + 1][..i] == selected[..i];
      results := results + [Evaluate(cat, w, done, selected[i])];
    }
    assert selected[..|selected|] == selected;
  }

  lemma OrderedIs(ps: seq<Probe>, need: set<string>)
    ensures Ordered(ps, need) == SortByStage(Chosen(ps, need))
  {
  }
}
