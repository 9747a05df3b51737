// What running a valid suite promises: the order is topological, a probe's fate is a fact about the
// suite and not about the selection, and --only changes nothing but which results are reported.
module SuiteRuns {
  import opened Fleet
  import opened Seqs
  import opened Report
  import opened SuiteSpec

  // ---- the order is topological --------------------------------------------

  /** need is a set of probes that contains the needs of its members. */
  ghost predicate ClosedSet(ps: seq<Probe>, need: set<string>)
  {
    && (forall a, b :: a in need && Needs(ps, a, b) ==> b in need)
    && (forall x :: x in need ==> IsProbe(ps, x))
  }

  ghost predicate ValidProbes(ps: seq<Probe>)
  {
    ProbesOk(ps) && forall i :: 0 <= i < |ps| ==> NeedsOk(ps, i)
  }

  lemma StageOrderIsStrictWeak()
    ensures StrictWeakOrder(StageOrder())
  {
  }

  lemma {:induction false} ChosenDistinct(ps: seq<Probe>, need: set<string>)
    requires forall i, j :: 0 <= i < j < |ps| ==> ps[i].id != ps[j].id
    ensures Distinct(Chosen(ps, need))
    ensures forall p :: p in Chosen(ps, need) <==> p in ps && p.id in need
  {
    FilterMembers(In(need), ps);
    if ps != [] {
      ChosenDistinct(ps[1..], need);
      assert ps == [ps[0]] + ps[1..];
      assert forall p :: p in ps[1..] ==> p.id != ps[0].id;
    }
  }

  lemma OrderedMembers(ps: seq<Probe>, need: set<string>)
    requires ProbesOk(ps)
    ensures Distinct(Ordered(ps, need))
    ensures forall p :: p in Ordered(ps, need) <==> p in ps && p.id in need
    ensures forall i, j :: 0 <= i < j < |Ordered(ps, need)| ==> Ordered(ps, need)[i].id != Ordered(ps, need)[j].id
  {
    ChosenDistinct(ps, need);
    var order := Ordered(ps, need);
    DistinctPermutation(Chosen(ps, need), order);
    hide Ordered;
    forall i, j | 0 <= i < j < |order| ensures order[i].id != order[j].id {
      assert order[i] in order && order[j] in order;
      SameIdSameProbe(ps, order[i], order[j]);
    }
  }

  lemma SameIdSameProbe(ps: seq<Probe>, p: Probe, q: Probe)
    requires ProbesOk(ps) && p in ps && q in ps
    ensures p.id == q.id ==> p == q
  {
    var i :| 0 <= i < |ps| && ps[i] == p;
    var j :| 0 <= j < |ps| && ps[j] == q;
  }

  /** Probe i's need, chosen, is chosen before it. */
  lemma {:induction false} ChosenPlaces(ps: seq<Probe>, need: set<string>, i: nat, j: nat) returns (a: nat, b: nat)
    requires i < j < |ps| && ps[i].id in need && ps[j].id in need
    ensures a < b < |Chosen(ps, need)| && Chosen(ps, need)[a] == ps[i] && Chosen(ps, need)[b] == ps[j]
  {
    FilterSplit(In(need), ps, j);
    FilterSplit(In(need), ps[..j], i);
    var front := Filter(In(need), ps[..j][..i]);
    var mid := Filter(In(need), ps[..j][i..]);
    assert ps[..j][i..][0] == ps[i] && mid[0] == ps[i];
    var back := Filter(In(need), ps[j..]);
    assert ps[j..][0] == ps[j] && back[0] == ps[j];
    a, b := |front|, |front + mid|;
  }

  /** Every need of the probe in place n, other than itself, is in an earlier place. */
  lemma NeedsComeFirst(ps: seq<Probe>, need: set<string>, n: nat, x: string)
    requires ValidProbes(ps) && ClosedSet(ps, need)
    requires n < |Ordered(ps, need)| && x in Ordered(ps, need)[n].needs && x != Ordered(ps, need)[n].id
    ensures exists m :: 0 <= m < n && Ordered(ps, need)[m].id == x
  {
    hide StrictWeakOrder, Distinct, StableSort, Filter;
    var order, chosen := Ordered(ps, need), Chosen(ps, need);
    OrderedMembers(ps, need);
    ChosenDistinct(ps, need);
    StageOrderIsStrictWeak();
    assert order[n] in order;
    var i :| 0 <= i < |ps| && ps[i] == order[n];
    assert NeedsOk(ps, i);
    var j :| 0 <= j < |ps| && ps[j].id == x && NoLater(ps, j, i);
    assert Needs(ps, ps[i].id, x);
    var a, b;
    if j < i {
      a, b := ChosenPlaces(ps, need, j, i);
    } else {
      b, a := ChosenPlaces(ps, need, i, j);
    }
    StablePrecedes(StageOrder(), chosen, a, b, n);
  }

  function AtStage(stage: int): Probe -> bool
  {
    (p: Probe) => p.stage == stage
  }

  /** Within a stage, the probes that run are the suite's needed probes of that stage, in suite order. */
  lemma SuiteOrderWithinStage(ps: seq<Probe>, need: set<string>, stage: int)
    ensures Filter(AtStage(stage), Ordered(ps, need)) == Filter(Both(AtStage(stage), In(need)), ps)
  {
    hide Filter, StableSort, StrictWeakOrder;
    var chosen, alike := Chosen(ps, need), Alike(StageOrder(), Probe("", stage, [], false));
    StageOrderIsStrictWeak();
    StableSortStable(StageOrder(), chosen, Probe("", stage, [], false));
    FilterCongruence(alike, AtStage(stage), Ordered(ps, need));
    FilterCongruence(alike, AtStage(stage), chosen);
    FilterFilter(AtStage(stage), In(need), ps);
  }

  // ---- a probe's fate, without running anything ----------------------------

  /** Nothing the probe reaches fails, and nothing it reaches needs itself. */
  ghost predicate Healthy(ps: seq<Probe>, errs: map<string, string>, x: string)
  {
    forall y :: Reaches(ps, x, y) ==> y !in errs && !Needs(ps, y, y)
  }

  lemma HealthyUnfolds(ps: seq<Probe>, errs: map<string, string>, x: string)
    ensures Healthy(ps, errs, x) <==>
              x !in errs && !Needs(ps, x, x) && forall n :: Needs(ps, x, n) ==> Healthy(ps, errs, n)
  {
    if Healthy(ps, errs, x) {
      ReachesItself(ps, x);
      forall n, y | Needs(ps, x, n) && Reaches(ps, n, y) ensures y !in errs && !Needs(ps, y, y) {
        ReachesFurther(ps, x, n, y);
      }
    }
    if x !in errs && !Needs(ps, x, x) && forall n :: Needs(ps, x, n) ==> Healthy(ps, errs, n) {
      forall y | Reaches(ps, x, y) ensures y !in errs && !Needs(ps, y, y) {
        if y != x {
          var n := ReachesFirstStep(ps, x, y);
        }
      }
    }
  }

  /** The first need that keeps probe x from running. */
  ghost function FirstObstacle(ps: seq<Probe>, errs: map<string, string>, x: string, needs: seq<string>): (n: Option<string>)
    ensures n.Some? ==> n.value in needs && (n.value == x || !Healthy(ps, errs, n.value))
    ensures n.None? ==> forall i :: 0 <= i < |needs| ==> needs[i] != x && Healthy(ps, errs, needs[i])
  {
    if needs == [] then None
    else if needs[0] == x || !Healthy(ps, errs, needs[0]) then Some(needs[0])
    else FirstObstacle(ps, errs, x, needs[1..])
  }

  /** What becomes of a probe in any run that is not cancelled. */
  ghost function Fate(ps: seq<Probe>, w: World, p: Probe): Outcome
  {
    var n := FirstObstacle(ps, w.errs, p.id, p.needs);
    if n.Some? then BlockedBy(n.value) else Ran(w, p)
  }

  lemma NeedsOfProbe(ps: seq<Probe>, p: Probe, n: string)
    requires ProbesOk(ps) && p in ps
    ensures Needs(ps, p.id, n) <==> n in p.needs
  {
    var i :| 0 <= i < |ps| && ps[i] == p;
  }

  /** A probe completes if and only if everything it reaches is sound: it runs if and only if all it
      needs, at any remove, completes, and a probe that needs itself never runs. */
  lemma FateIsHealth(ps: seq<Probe>, w: World, p: Probe)
    requires ProbesOk(ps) && p in ps
    ensures Fate(ps, w, p).Completed? <==> Healthy(ps, w.errs, p.id)
    ensures !Fate(ps, w, p).Skipped? <==> !Needs(ps, p.id, p.id) && forall n :: Needs(ps, p.id, n) ==> Healthy(ps, w.errs, n)
  {
    forall n ensures Needs(ps, p.id, n) <==> n in p.needs {
      NeedsOfProbe(ps, p, n);
    }
    HealthyUnfolds(ps, w.errs, p.id);
  }

  // ---- a run gives every probe its fate ------------------------------------

  /** The first k turns have been taken. */
  ghost predicate Taken(ps: seq<Probe>, w: World, order: seq<Probe>, k: nat, done: Done)
    requires k <= |order|
  {
    && (forall x :: x in done ==> exists j :: 0 <= j < k && order[j].id == x)
    && (forall j :: 0 <= j < k ==> order[j].id in done && done[order[j].id] == Expected(ps, w, order[j], j))
  }

  ghost function Expected(ps: seq<Probe>, w: World, p: Probe, i: nat): Outcome
  {
    if i < w.cancelAt then Fate(ps, w, p) else Skipped("run cancelled before it started: " + w.cause)
  }

  lemma {:induction false} RunFates(ps: seq<Probe>, w: World, need: set<string>, k: nat)
    requires ValidProbes(ps) && ClosedSet(ps, need) && k <= |Ordered(ps, need)|
    ensures Taken(ps, w, Ordered(ps, need), k, Exec(w, Ordered(ps, need)[..k]))
    decreases k
  {
    var order := Ordered(ps, need);
    if k > 0 {
      RunFates(ps, w, need, k - 1);
      var done := Exec(w, order[..k - 1]);
      assert order[..k][..k - 1] == order[..k - 1];
      OrderedMembers(ps, need);
      if k - 1 < w.cancelAt {
        TurnIsFate(ps, w, need, k - 1, done);
      }
      hide Ordered, Fate, ValidProbes, ClosedSet;
      TakenMore(ps, w, order, k - 1, done, Turn(w, done, order[k - 1], k - 1));
    }
  }

  lemma TakenMore(ps: seq<Probe>, w: World, order: seq<Probe>, k: nat, done: Done, o: Outcome)
    requires k < |order| && Taken(ps, w, order, k, done) && o == Expected(ps, w, order[k], k)
    requires forall i, j :: 0 <= i < j < |order| ==> order[i].id != order[j].id
    ensures Taken(ps, w, order, k + 1, done[order[k].id := o])
  {
    hide Expected;
    var done' := done[order[k].id := o];
    forall x | x in done' ensures exists j :: 0 <= j < k + 1 && order[j].id == x {
      if x in done {
        var j :| 0 <= j < k && order[j].id == x;
      }
    }
  }

  /** At its turn a probe finds each of its needs settled, except itself. */
  lemma TurnIsFate(ps: seq<Probe>, w: World, need: set<string>, i: nat, done: Done)
    requires ValidProbes(ps) && ClosedSet(ps, need) && i < |Ordered(ps, need)| && i < w.cancelAt
    requires Taken(ps, w, Ordered(ps, need), i, done)
    ensures Turn(w, done, Ordered(ps, need)[i], i) == Fate(ps, w, Ordered(ps, need)[i])
  {
    var order := Ordered(ps, need);
    var p := order[i];
    OrderedMembers(ps, need);
    forall n | n in p.needs ensures Ok(done, n) <==> n != p.id && Healthy(ps, w.errs, n) {
      if n == p.id {
        assert !exists j :: 0 <= j < i && order[j].id == n;
      } else {
        NeedsComeFirst(ps, need, i, n);
        var m :| 0 <= m < i && order[m].id == n;
        assert order[m] in order;
        FateIsHealth(ps, w, order[m]);
      }
    }
    SameObstacle(ps, w.errs, done, p.id, p.needs);
  }

  lemma {:induction false} SameObstacle(ps: seq<Probe>, errs: map<string, string>, done: Done, x: string, needs: seq<string>)
    requires forall n :: n in needs ==> (Ok(done, n) <==> n != x && Healthy(ps, errs, n))
    ensures FirstNotOk(done, needs) == FirstObstacle(ps, errs, x, needs)
    decreases |needs|
  {
    if needs != [] {
      assert needs == [needs[0]] + needs[1..];
      SameObstacle(ps, errs, done, x, needs[1..]);
    }
  }

  /** The outcomes of a run over the probes a selection needs. */
  ghost function Outcomes(ps: seq<Probe>, w: World, need: set<string>): Done
  {
    Exec(w, Ordered(ps, need))
  }

  /** Every needed probe has its turn, and exactly the fate the suite gives it if the run is not cancelled by then;
      after that no probe starts. */
  lemma EveryProbeMeetsItsFate(ps: seq<Probe>, w: World, need: set<string>, i: nat)
    requires ValidProbes(ps) && ClosedSet(ps, need) && i < |Ordered(ps, need)|
    ensures var p := Ordered(ps, need)[i];
            p.id in Outcomes(ps, w, need)
            && Outcomes(ps, w, need)[p.id] == (if i < w.cancelAt then Fate(ps, w, p)
                                               else Skipped("run cancelled before it started: " + w.cause))
  {
    var order := Ordered(ps, need);
    RunFates(ps, w, need, |order|);
    assert order[..|order|] == order;
  }

  // ---- --only --------------------------------------------------------------

  /** need is what the selected checks need. */
  ghost predicate IsClosure(s: Suite, checks: seq<Check>, need: set<string>)
  {
    forall x :: x in need <==> Needed(s.probes, checks, x)
  }

  lemma ClosureIsClosed(cat: seq<Spec>, s: Suite, checks: seq<Check>, need: set<string>)
    requires WellFormed(cat, s) && IsClosure(s, checks, need) && forall c :: c in checks ==> c in s.checks
    ensures ClosedSet(s.probes, need)
  {
    forall a, b | a in need && Needs(s.probes, a, b) ensures b in need {
      var c, id :| c in checks && id in c.probes && Reaches(s.probes, id, a);
      ReachesLast(s.probes, id, a, b);
    }
    forall x | x in need ensures IsProbe(s.probes, x) {
      var c, id :| c in checks && id in c.probes && Reaches(s.probes, id, x);
      var i :| 0 <= i < |s.checks| && s.checks[i] == c;
      assert CheckOk(cat, s.probes, c) && IsProbe(s.probes, id);
      ReachedIsProbe(s.probes, id, x);
    }
  }

  lemma ReachesLast(ps: seq<Probe>, a: string, b: string, c: string)
    requires Reaches(ps, a, b) && Needs(ps, b, c)
    ensures Reaches(ps, a, c)
  {
    var path :| Path(ps, path) && path[0] == a && path[|path| - 1] == b;
    var longer := path + [c];
    forall i | 0 <= i < |longer| - 1 ensures Needs(ps, longer[i], longer[i + 1]) {
      assert i < |path| - 1 ==> longer[i] == path[i] && longer[i + 1] == path[i + 1];
    }
    assert Path(ps, longer) && longer[0] == a && longer[|longer| - 1] == c;
  }

  lemma ReachedIsProbe(ps: seq<Probe>, a: string, b: string)
    requires ValidProbes(ps) && IsProbe(ps, a) && Reaches(ps, a, b)
    ensures IsProbe(ps, b)
  {
    var path :| Path(ps, path) && path[0] == a && path[|path| - 1] == b;
    if |path| > 1 {
      assert Needs(ps, path[|path| - 2], path[|path| - 1]);
      var i :| 0 <= i < |ps| && ps[i].id == path[|path| - 2] && b in ps[i].needs;
      assert NeedsOk(ps, i);
    }
  }

  /** A check's result, in any run that is not cancelled and that needs its probes. */
  ghost function FatedResult(cat: seq<Spec>, s: Suite, w: World, c: Check, need: set<string>): Result
  {
    Evaluate(cat, w, Outcomes(s.probes, w, need), c)
  }

  lemma {:induction false} SameEvidence(d1: Done, d2: Done, needs: seq<string>)
    requires forall n :: n in needs ==> n in d1 && n in d2 && d1[n] == d2[n]
    ensures FirstNotOk(d1, needs) == FirstNotOk(d2, needs)
    decreases |needs|
  {
    if needs != [] {
      assert needs == [needs[0]] + needs[1..];
      SameEvidence(d1, d2, needs[1..]);
    }
  }

  /** What a check reads does not depend on what else was selected. */
  lemma SameOutcome(ps: seq<Probe>, w: World, n1: set<string>, n2: set<string>, x: string)
    requires ValidProbes(ps) && ClosedSet(ps, n1) && ClosedSet(ps, n2) && x in n1 && x in n2
    requires w.cancelAt >= |ps|
    ensures x in Outcomes(ps, w, n1) && x in Outcomes(ps, w, n2) && Outcomes(ps, w, n1)[x] == Outcomes(ps, w, n2)[x]
  {
    var i := PlaceOf(ps, n1, x);
    var j := PlaceOf(ps, n2, x);
    EveryProbeMeetsItsFate(ps, w, n1, i);
    EveryProbeMeetsItsFate(ps, w, n2, j);
    OrderedMembers(ps, n1);
    OrderedMembers(ps, n2);
    assert Ordered(ps, n1)[i] in Ordered(ps, n1) && Ordered(ps, n2)[j] in Ordered(ps, n2);
    SameIdSameProbe(ps, Ordered(ps, n1)[i], Ordered(ps, n2)[j]);
  }

  lemma PlaceOf(ps: seq<Probe>, need: set<string>, x: string) returns (i: nat)
    requires ProbesOk(ps) && x in need && IsProbe(ps, x)
    ensures i < |Ordered(ps, need)| && Ordered(ps, need)[i].id == x && i < |ps|
  {
    OrderedMembers(ps, need);
    var j :| 0 <= j < |ps| && ps[j].id == x;
    assert ps[j] in Ordered(ps, need);
    i :| 0 <= i < |Ordered(ps, need)| && Ordered(ps, need)[i] == ps[j];
  }

  lemma SameResult(cat: seq<Spec>, s: Suite, w: World, c: Check, n1: set<string>, n2: set<string>)
    requires ValidProbes(s.probes) && ClosedSet(s.probes, n1) && ClosedSet(s.probes, n2)
    requires (forall n :: n in c.probes ==> n in n1 && n in n2) && w.cancelAt >= |s.probes|
    ensures FatedResult(cat, s, w, c, n1) == FatedResult(cat, s, w, c, n2)
  {
    forall n | n in c.probes
      ensures n in Outcomes(s.probes, w, n1) && n in Outcomes(s.probes, w, n2)
           && Outcomes(s.probes, w, n1)[n] == Outcomes(s.probes, w, n2)[n]
    {
      SameOutcome(s.probes, w, n1, n2, n);
    }
    SameEvidence(Outcomes(s.probes, w, n1), Outcomes(s.probes, w, n2), c.probes);
  }

  /** The selected checks are those asked for by id, in suite order, or all of them when none is asked for. */
  lemma {:induction false} SelectedIsFilter(checks: seq<Check>, only: seq<string>)
    ensures Selected(checks, only) == Filter((c: Check) => only == [] || c.id in only, checks)
  {
    if checks != [] {
      var init, c := checks[..|checks| - 1], checks[|checks| - 1];
      SelectedIsFilter(init, only);
      FilterSnoc((c: Check) => only == [] || c.id in only, init, c);
      assert checks == init + [c];
      hide Filter;
    }
  }

  /** The results of a run restricted to some checks, whose probes' closure is need. */
  ghost function RunResults(cat: seq<Spec>, s: Suite, w: World, only: seq<string>, need: set<string>): seq<Result>
  {
    EvaluateAll(cat, w, Outcomes(s.probes, w, need), Selected(s.checks, only))
  }

  /** The results for the checks asked for, in the order they are in. */
  function Restrict(checks: seq<Check>, rs: seq<Result>, only: seq<string>): seq<Result>
    requires |checks| == |rs|
  {
    if checks == [] then []
    else
      var n := |checks| - 1;
      var init := Restrict(checks[..n], rs[..n], only);
      if Wanted(only, checks[n]) then init + [rs[n]] else init
  }

  lemma {:induction false} AllSelected(checks: seq<Check>)
    ensures Selected(checks, []) == checks
  {
    if checks != [] {
      AllSelected(checks[..|checks| - 1]);
    }
  }

  lemma {:induction false} SelectedMembers(checks: seq<Check>, only: seq<string>)
    ensures forall c :: c in Selected(checks, only) <==> c in checks && Wanted(only, c)
  {
    if checks != [] {
      SelectedMembers(checks[..|checks| - 1], only);
      assert checks == checks[..|checks| - 1] + [checks[|checks| - 1]];
    }
  }

  lemma {:induction false} RestrictedResults(cat: seq<Spec>, w: World, d1: Done, d2: Done, checks: seq<Check>, only: seq<string>)
    requires forall c :: c in checks && Wanted(only, c) ==> Evaluate(cat, w, d1, c) == Evaluate(cat, w, d2, c)
    ensures EvaluateAll(cat, w, d2, Selected(checks, only)) == Restrict(checks, EvaluateAll(cat, w, d1, checks), only)
    decreases |checks|
  {
    if checks != [] {
      var n := |checks| - 1;
      assert checks == checks[..n] + [checks[n]];
      hide Evaluate, Wanted;
      RestrictedResults(cat, w, d1, d2, checks[..n], only);
      assert EvaluateAll(cat, w, d1, checks)[..n] == EvaluateAll(cat, w, d1, checks[..n]);
      var init := Selected(checks[..n], only);
      if Wanted(only, checks[n]) {
        assert (init + [checks[n]])[..|init|] == init;
      }
    }
  }

  /** With every probe's and check's outcome fixed and no cancellation, a run restricted to some checks
      returns exactly the full run's results for those checks, in suite order. */
  lemma OnlyRestrictsTheResults(cat: seq<Spec>, s: Suite, w: World, only: seq<string>, all: set<string>, some: set<string>)
    requires WellFormed(cat, s) && w.cancelAt >= |s.probes|
    requires IsClosure(s, Selected(s.checks, []), all) && IsClosure(s, Selected(s.checks, only), some)
    ensures |RunResults(cat, s, w, [], all)| == |s.checks|
    ensures RunResults(cat, s, w, only, some) == Restrict(s.checks, RunResults(cat, s, w, [], all), only)
  {
    AllSelected(s.checks);
    SelectedMembers(s.checks, only);
    ClosureIsClosed(cat, s, s.checks, all);
    ClosureIsClosed(cat, s, Selected(s.checks, only), some);
    forall c | c in s.checks && Wanted(only, c)
      ensures FatedResult(cat, s, w, c, all) == FatedResult(cat, s, w, c, some)
    {
      forall n | n in c.probes ensures n in all && n in some {
        ReachesItself(s.probes, n);
        assert Needed(s.probes, s.checks, n) && Needed(s.probes, Selected(s.checks, only), n);
      }
      SameResult(cat, s, w, c, all, some);
    }
    RestrictedResults(cat, w, Outcomes(s.probes, w, all), Outcomes(s.probes, w, some), s.checks, only);
  }

  // ---- who runs ------------------------------------------------------------

  /** b is needed by a, at some remove. */
  ghost predicate NeededBelow(ps: seq<Probe>, a: string, b: string)
  {
    exists n :: Needs(ps, a, n) && Reaches(ps, n, b)
  }

  lemma {:induction false} StaysInNeed(ps: seq<Probe>, need: set<string>, a: string, b: string)
    requires ClosedSet(ps, need) && a in need && Reaches(ps, a, b)
    ensures b in need
  {
    var path :| Path(ps, path) && path[0] == a && path[|path| - 1] == b;
    ClosedHoldsReach(ps, need, path);
  }

  /** A needed probe completes if and only if it is healthy. */
  lemma CompletesIffHealthy(ps: seq<Probe>, w: World, need: set<string>, x: string)
    requires ValidProbes(ps) && ClosedSet(ps, need) && x in need && w.cancelAt >= |ps|
    ensures Ok(Outcomes(ps, w, need), x) <==> Healthy(ps, w.errs, x)
  {
    var i := PlaceOf(ps, need, x);
    EveryProbeMeetsItsFate(ps, w, need, i);
    OrderedMembers(ps, need);
    assert Ordered(ps, need)[i] in Ordered(ps, need);
    FateIsHealth(ps, w, Ordered(ps, need)[i]);
  }

  /** In a run that is not cancelled, a probe runs if and only if it does not need itself and every other
      probe it needs, at any remove, completed. */
  lemma RunsIffNeedsComplete(ps: seq<Probe>, w: World, need: set<string>, i: nat)
    requires ValidProbes(ps) && ClosedSet(ps, need) && i < |Ordered(ps, need)| && w.cancelAt >= |ps|
    ensures var x, done := Ordered(ps, need)[i].id, Outcomes(ps, w, need);
            x in done
            && (!done[x].Skipped? <==>
                  !Needs(ps, x, x) && forall y :: NeededBelow(ps, x, y) && y != x ==> Ok(done, y))
            && (!done[x].Skipped? ==> done[x] == if x in w.errs then Failed(w.errs[x]) else Completed)
  {
    var order, done := Ordered(ps, need), Outcomes(ps, w, need);
    var p := order[i];
    OrderedMembers(ps, need);
    assert p in order;
    NoMoreThanAll(ps, need);
    EveryProbeMeetsItsFate(ps, w, need, i);
    FateIsHealth(ps, w, p);
    hide Ordered, Outcomes, Fate, ValidProbes;
    forall n, y | Needs(ps, p.id, n) && Reaches(ps, n, y)
      ensures Healthy(ps, w.errs, n) ==> Ok(done, y)
      ensures n == y && Ok(done, y) ==> Healthy(ps, w.errs, n)
    {
      assert n in need;
      StaysInNeed(ps, need, n, y);
      CompletesIffHealthy(ps, w, need, y);
      HealthIsInherited(ps, w.errs, n, y);
    }
    forall n | Needs(ps, p.id, n) ensures NeededBelow(ps, p.id, n) && Reaches(ps, n, n) {
      ReachesItself(ps, n);
    }
  }

  lemma HealthIsInherited(ps: seq<Probe>, errs: map<string, string>, a: string, b: string)
    requires Reaches(ps, a, b)
    ensures Healthy(ps, errs, a) ==> Healthy(ps, errs, b)
  {
    forall y | Healthy(ps, errs, a) && Reaches(ps, b, y) ensures y !in errs && !Needs(ps, y, y) {
      ReachesThrough(ps, a, b, y);
    }
  }

  lemma ReachesThrough(ps: seq<Probe>, a: string, b: string, c: string)
    requires Reaches(ps, a, b) && Reaches(ps, b, c)
    ensures Reaches(ps, a, c)
  {
    var p :| Path(ps, p) && p[0] == a && p[|p| - 1] == b;
    var q :| Path(ps, q) && q[0] == b && q[|q| - 1] == c;
    var whole := p + q[1..];
    forall i | 0 <= i < |whole| - 1 ensures Needs(ps, whole[i], whole[i + 1]) {
      if i >= |p| - 1 {
        assert whole[i] == q[i - (|p| - 1)] && whole[i + 1] == q[i + 1 - (|p| - 1)];
      } else {
        assert whole[i] == p[i] && whole[i + 1] == p[i + 1];
      }
    }
    assert Path(ps, whole) && whole[0] == a && whole[|whole| - 1] == c;
  }

  lemma NoMoreThanAll(ps: seq<Probe>, need: set<string>)
    ensures |Ordered(ps, need)| <= |ps|
  {
  }

  // ---- where validation admits what cannot run -----------------------------

  /** Validation lets a probe need itself. Such a suite is valid, and the probe is skipped in every run. */
  lemma SelfNeedIsValidAndNeverRuns(w: World, id: string)
    requires id != ""
    ensures var ps := [Probe(id, 0, [id], true)];
            && WellFormed([], Suite(ps, []))
            && Fate(ps, w, ps[0]) == BlockedBy(id)
  {
    var ps := [Probe(id, 0, [id], true)];
    assert ps[0].needs == [id];
    assert NoLater(ps, 0, 0);
    assert NeedsOk(ps, 0);
  }

  /** In a valid suite nothing but an error or a self-need ever keeps a probe from completing. */
  lemma OnlyErrorsAndSelfNeedsBlock(ps: seq<Probe>, w: World, need: set<string>, x: string)
    requires ValidProbes(ps) && ClosedSet(ps, need) && x in need && w.cancelAt >= |ps|
    ensures Ok(Outcomes(ps, w, need), x) <==> !exists y :: Reaches(ps, x, y) && (y in w.errs || Needs(ps, y, y))
  {
    CompletesIffHealthy(ps, w, need, x);
  }

  // ---- what a result is ----------------------------------------------------

  lemma {:induction false} LookupIsFirst(cat: seq<Spec>, id: string)
    ensures Lookup(cat, id).Some? ==>
              exists n :: 0 <= n < |cat| && cat[n].id == id && cat[n] == Lookup(cat, id).value
                          && forall m :: 0 <= m < n ==> cat[m].id != id
  {
    if cat != [] && cat[0].id != id && Lookup(cat, id).Some? {
      LookupIsFirst(cat[1..], id);
      var n :| 0 <= n < |cat[1..]| && cat[1..][n].id == id && cat[1..][n] == Lookup(cat[1..], id).value
               && forall m :: 0 <= m < n ==> cat[1..][m].id != id;
      assert cat[n + 1] == Lookup(cat, id).value;
      assert forall m :: 0 <= m < n + 1 ==> cat[m].id != id;
    }
  }

  lemma SelectedAreCatalogued(cat: seq<Spec>, s: Suite, only: seq<string>, c: Check)
    requires WellFormed(cat, s) && c in Selected(s.checks, only)
    ensures c in s.checks && Lookup(cat, c.id).Some? && forall n :: n in c.probes ==> IsProbe(s.probes, n)
  {
    SelectedMembers(s.checks, only);
    var i :| 0 <= i < |s.checks| && s.checks[i] == c;
    assert CheckOk(cat, s.probes, s.checks[i]);
  }

  /** Everything the check reads was gathered. */
  ghost predicate Evidenced(done: Done, c: Check)
  {
    forall p :: p in c.probes ==> p in done && done[p] == Completed
  }

  ghost predicate Passes(w: World, done: Done, c: Check)
  {
    Evidenced(done, c) && c.id in w.verdicts && w.verdicts[c.id].pass && !w.verdicts[c.id].err
  }

  ghost predicate Fails(w: World, done: Done, c: Check)
  {
    Evidenced(done, c) && c.id in w.verdicts && !w.verdicts[c.id].pass && !w.verdicts[c.id].err
  }

  /** The n-th of the probes is the first that did not complete. */
  ghost predicate FirstIncomplete(done: Done, probes: seq<string>, n: nat)
    requires n < |probes|
  {
    && !(probes[n] in done && done[probes[n]] == Completed)
    && forall m :: 0 <= m < n ==> probes[m] in done && done[probes[m]] == Completed
  }

  /** What a result says of its check: it is an error exactly when a probe the check reads did not complete, or its own
      judgement is one; it passes exactly when they all completed and the judgement is a pass and no error. */
  ghost predicate Says(w: World, done: Done, c: Check, r: Result)
  {
    && r.id == c.id
    && (r.error <==> !Evidenced(done, c) || c.id !in w.verdicts || w.verdicts[c.id].err)
    && (r.pass <==> Passes(w, done, c))
  }

  /** Without evidence a result names the first probe that did not complete, and that probe's error if it had one; with
      it, it gives the judgement's own words. */
  ghost predicate Blames(w: World, done: Done, c: Check, r: Result)
  {
    && (Evidenced(done, c) && c.id in w.verdicts ==> w.verdicts[c.id].detail <= r.detail)
    && forall n :: 0 <= n < |c.probes| && FirstIncomplete(done, c.probes, n) ==>
      && "prerequisite probe " + c.probes[n] + " did not complete: " <= r.detail
      && (c.probes[n] in done && done[c.probes[n]].Failed? ==>
            "prerequisite probe " + c.probes[n] + " did not complete: " + done[c.probes[n]].err <= r.detail)
  }

  /** A run says of each selected check, in suite order, what its probes and its judgement amount to, under the gate
      the catalogue first lists for it. */
  lemma ResultSays(cat: seq<Spec>, s: Suite, w: World, only: seq<string>, need: set<string>, i: nat)
    requires WellFormed(cat, s) && IsClosure(s, Selected(s.checks, only), need) && i < |Selected(s.checks, only)|
    ensures |RunResults(cat, s, w, only, need)| == |Selected(s.checks, only)|
    ensures var c, r := Selected(s.checks, only)[i], RunResults(cat, s, w, only, need)[i];
            && Says(w, Outcomes(s.probes, w, need), c, r) && Blames(w, Outcomes(s.probes, w, need), c, r)
            && exists n :: 0 <= n < |cat| && cat[n].id == c.id && r.gate == cat[n].gate && r.reliedOn == cat[n].reliedOn
                           && forall m :: 0 <= m < n ==> cat[m].id != c.id
  {
    var c, done := Selected(s.checks, only)[i], Outcomes(s.probes, w, need);
    assert c in Selected(s.checks, only);
    SelectedAreCatalogued(cat, s, only, c);
    LookupIsFirst(cat, c.id);
    hide WellFormed, IsClosure, Outcomes, Selected, Says, Blames;
    EvaluationSays(cat, w, done, c);
    EvaluationBlames(cat, w, done, c);
  }

  lemma {:induction false} FirstNotOkIs(done: Done, probes: seq<string>, n: nat)
    requires n < |probes| && FirstIncomplete(done, probes, n)
    ensures FirstNotOk(done, probes) == Some(probes[n])
    decreases n
  {
    if n > 0 {
      FirstNotOkIs(done, probes[1..], n - 1);
    }
  }

  lemma EvidencedIs(done: Done, c: Check)
    ensures Evidenced(done, c) <==> FirstNotOk(done, c.probes).None?
  {
    if FirstNotOk(done, c.probes).Some? {
      var p := FirstNotOk(done, c.probes).value;
      assert p in c.probes && !Ok(done, p);
    } else {
      forall p | p in c.probes ensures Ok(done, p) {
        var n :| 0 <= n < |c.probes| && c.probes[n] == p;
      }
    }
  }

  lemma DetailStays(detail: string, reliedOn: seq<string>)
    ensures detail <= WithReliedOn(detail, reliedOn)
  {
    hide Join;
  }

  lemma NamesProbe(probe: string, why: string, reliedOn: seq<string>)
    ensures var detail := WithReliedOn(Lacking(probe, why), reliedOn);
            && "prerequisite probe " + probe + " did not complete: " <= detail
            && "prerequisite probe " + probe + " did not complete: " + why <= detail
  {
    DetailStays(Lacking(probe, why), reliedOn);
    hide WithReliedOn;
  }

  lemma EvaluationSays(cat: seq<Spec>, w: World, done: Done, c: Check)
    requires Lookup(cat, c.id).Some?
    ensures var r, spec := Evaluate(cat, w, done, c), Lookup(cat, c.id).value;
            Says(w, done, c, r) && r.gate == spec.gate && r.reliedOn == spec.reliedOn
  {
    EvidencedIs(done, c);
    hide Evidenced, Lookup, FirstNotOk, WithReliedOn, Lacking, Why;
  }

  lemma EvaluationBlames(cat: seq<Spec>, w: World, done: Done, c: Check)
    ensures Blames(w, done, c, Evaluate(cat, w, done, c))
  {
    if Evidenced(done, c) && c.id in w.verdicts {
      EvidencedIs(done, c);
      assert Evaluate(cat, w, done, c).detail == WithReliedOn(w.verdicts[c.id].detail, ReliedOnOf(cat, c.id));
      DetailStays(w.verdicts[c.id].detail, ReliedOnOf(cat, c.id));
    }
    hide WithReliedOn, Lacking;
    forall n | 0 <= n < |c.probes| && FirstIncomplete(done, c.probes, n)
      ensures Evaluate(cat, w, done, c).detail == WithReliedOn(Lacking(c.probes[n], Why(done, c.probes[n])), ReliedOnOf(cat, c.id))
    {
      FirstNotOkIs(done, c.probes, n);
    }
    hide *;
    var detail := Evaluate(cat, w, done, c).detail;
    forall n | 0 <= n < |c.probes| && FirstIncomplete(done, c.probes, n)
      ensures "prerequisite probe " + c.probes[n] + " did not complete: " <= detail
      ensures c.probes[n] in done && done[c.probes[n]].Failed? ==>
                "prerequisite probe " + c.probes[n] + " did not complete: " + done[c.probes[n]].err <= detail
    {
      NamesProbe(c.probes[n], Why(done, c.probes[n]), ReliedOnOf(cat, c.id));
      FailureIsWhy(done, c.probes[n]);
    }
    BlamesIs(w, done, c, Evaluate(cat, w, done, c));
  }

  lemma FailureIsWhy(done: Done, probe: string)
    ensures probe in done && done[probe].Failed? ==> Why(done, probe) == done[probe].err
  {
  }

  lemma BlamesIs(w: World, done: Done, c: Check, r: Result)
    requires Evidenced(done, c) && c.id in w.verdicts ==> w.verdicts[c.id].detail <= r.detail
    requires forall n :: 0 <= n < |c.probes| && FirstIncomplete(done, c.probes, n) ==>
               && "prerequisite probe " + c.probes[n] + " did not complete: " <= r.detail
               && (c.probes[n] in done && done[c.probes[n]].Failed? ==>
                     "prerequisite probe " + c.probes[n] + " did not complete: " + done[c.probes[n]].err <= r.detail)
    ensures Blames(w, done, c, r)
  {
    hide FirstIncomplete, Evidenced;
  }

  /** In a run that is not cancelled, a check has its evidence exactly when nothing its probes reach fails or needs itself. */
  lemma EvidenceIff(cat: seq<Spec>, s: Suite, w: World, only: seq<string>, need: set<string>, c: Check)
    requires WellFormed(cat, s) && IsClosure(s, Selected(s.checks, only), need) && c in Selected(s.checks, only)
    requires w.cancelAt >= |s.probes|
    ensures Evidenced(Outcomes(s.probes, w, need), c)
       <==> forall p, y :: p in c.probes && Reaches(s.probes, p, y) ==> y !in w.errs && !Needs(s.probes, y, y)
  {
    ReadsHealth(cat, s, w, only, need, c);
    hide Outcomes, Reaches, Needs, WellFormed, IsClosure, Selected;
  }

  lemma ReadsHealth(cat: seq<Spec>, s: Suite, w: World, only: seq<string>, need: set<string>, c: Check)
    requires WellFormed(cat, s) && IsClosure(s, Selected(s.checks, only), need) && c in Selected(s.checks, only)
    requires w.cancelAt >= |s.probes|
    ensures forall p :: p in c.probes ==> (Ok(Outcomes(s.probes, w, need), p) <==> Healthy(s.probes, w.errs, p))
  {
    SelectedMembers(s.checks, only);
    ClosureIsClosed(cat, s, Selected(s.checks, only), need);
    hide Outcomes, Reaches, Needs, Healthy, Selected, ClosedSet;
    forall p | p in c.probes ensures Ok(Outcomes(s.probes, w, need), p) <==> Healthy(s.probes, w.errs, p) {
      ReachesItself(s.probes, p);
      assert Needed(s.probes, Selected(s.checks, only), p);
      CompletesIffHealthy(s.probes, w, need, p);
    }
  }

  // ---- from probes to the exit code ----------------------------------------

  /** A run certifies its candidate if and only if it judged something and every selected check that is not a mere
      warning has its evidence and passes; it proves a failure if and only if some such check has its evidence and
      fails. A probe that did not complete brings about neither. */
  lemma CertifiedIff(cat: seq<Spec>, s: Suite, w: World, only: seq<string>, need: set<string>)
    requires WellFormed(cat, s) && IsClosure(s, Selected(s.checks, only), need)
    ensures var checks, done := Selected(s.checks, only), Outcomes(s.probes, w, need);
            var code := Code(Finalized(cat, RunResults(cat, s, w, only, need)));
            && (code == 0 <==> checks != [] && forall c :: c in checks && GateOf(cat, c.id) != Warn ==> Passes(w, done, c))
            && (code == 1 <==> exists c :: c in checks && GateOf(cat, c.id) != Warn && Fails(w, done, c))
  {
    var checks, done := Selected(s.checks, only), Outcomes(s.probes, w, need);
    forall c | c in checks ensures Lookup(cat, c.id).Some? {
      SelectedAreCatalogued(cat, s, only, c);
    }
    hide *;
    RunResultsAre(cat, s, w, only, need);
    JudgedCode(cat, w, done, checks);
  }

  lemma RunResultsAre(cat: seq<Spec>, s: Suite, w: World, only: seq<string>, need: set<string>)
    ensures RunResults(cat, s, w, only, need) == EvaluateAll(cat, w, Outcomes(s.probes, w, need), Selected(s.checks, only))
  {
    hide EvaluateAll, Outcomes, Selected;
  }

  lemma JudgedCode(cat: seq<Spec>, w: World, done: Done, checks: seq<Check>)
    requires forall c :: c in checks ==> Lookup(cat, c.id).Some?
    ensures var code := Code(Finalized(cat, EvaluateAll(cat, w, done, checks)));
            && (code == 0 <==> checks != [] && forall c :: c in checks && GateOf(cat, c.id) != Warn ==> Passes(w, done, c))
            && (code == 1 <==> exists c :: c in checks && GateOf(cat, c.id) != Warn && Fails(w, done, c))
  {
    hide *;
    var rs := EvaluateAll(cat, w, done, checks);
    FailureOutranksErrors(cat, rs);
    forall c | c in checks
      ensures Evaluate(cat, w, done, c) in rs
      ensures !Against(Settled(cat, Evaluate(cat, w, done, c))) <==> (GateOf(cat, c.id) != Warn ==> Passes(w, done, c))
      ensures ProvenFailure(Settled(cat, Evaluate(cat, w, done, c))) <==> GateOf(cat, c.id) != Warn && Fails(w, done, c)
    {
      var i :| 0 <= i < |checks| && checks[i] == c;
      assert rs[i] in rs;
      EvaluationWeighs(cat, w, done, c);
    }
    forall r | r in rs ensures exists c :: c in checks && r == Evaluate(cat, w, done, c) {
      var i :| 0 <= i < |rs| && rs[i] == r;
      assert checks[i] in checks;
    }
  }

  lemma EvaluationWeighs(cat: seq<Spec>, w: World, done: Done, c: Check)
    requires Lookup(cat, c.id).Some?
    ensures var r := Settled(cat, Evaluate(cat, w, done, c));
            && (!Against(r) <==> (GateOf(cat, c.id) != Warn ==> Passes(w, done, c)))
            && (ProvenFailure(r) <==> GateOf(cat, c.id) != Warn && Fails(w, done, c))
  {
    EvaluationSays(cat, w, done, c);
    hide Evaluate, Lookup, Evidenced, FirstIncomplete;
  }
}
