// A compatibility suite as a value (internal/compat/run.go): which suites are valid, which probes a
// selection needs, in what order they run and what becomes of each.
module SuiteSpec {
  import opened Fleet
  import opened Seqs
  import opened Report

  datatype Probe = Probe(id: string, stage: int, needs: seq<string>, runnable: bool)

  datatype Check = Check(id: string, probes: seq<string>, evaluable: bool)

  datatype Suite = Suite(probes: seq<Probe>, checks: seq<Check>)

  // ---- valid suites --------------------------------------------------------

  datatype SuiteError =
    | BadProbe(i: nat)
    | DuplicateProbe(probe: string)
    | UnknownNeed(probe: string, need: string)
    | LateNeed(probe: string, need: string)
    | UnknownCheck(check: string)
    | DuplicateCheck(check: string)
    | NoEval(check: string)
    | UnknownEvidence(check: string, need: string)
    | NoImplementation(check: string)

  predicate ProbesOk(ps: seq<Probe>)
  {
    && (forall i :: 0 <= i < |ps| ==> ps[i].id != "" && ps[i].runnable)
    && (forall i, j :: 0 <= i < j < |ps| ==> ps[i].id != ps[j].id)
  }

  /** Probe j may be needed by probe i: it is no later, by stage and then by place. A probe may need itself. */
  predicate NoLater(ps: seq<Probe>, j: nat, i: nat)
    requires i < |ps| && j < |ps|
  {
    ps[j].stage < ps[i].stage || (ps[j].stage == ps[i].stage && j <= i)
  }

  predicate NeedsOk(ps: seq<Probe>, i: nat)
    requires i < |ps|
  {
    forall n :: n in ps[i].needs ==> exists j :: 0 <= j < |ps| && ps[j].id == n && NoLater(ps, j, i)
  }

  predicate IsProbe(ps: seq<Probe>, id: string)
  {
    exists j :: 0 <= j < |ps| && ps[j].id == id
  }

  predicate CheckOk(cat: seq<Spec>, ps: seq<Probe>, c: Check)
  {
    Lookup(cat, c.id).Some? && c.evaluable && forall n :: n in c.probes ==> IsProbe(ps, n)
  }

  predicate WellFormed(cat: seq<Spec>, s: Suite)
  {
    && ProbesOk(s.probes)
    && (forall i :: 0 <= i < |s.probes| ==> NeedsOk(s.probes, i))
    && (forall i :: 0 <= i < |s.checks| ==> CheckOk(cat, s.probes, s.checks[i]))
    && (forall i, j :: 0 <= i < j < |s.checks| ==> s.checks[i].id != s.checks[j].id)
  }

  /** A suite is well formed when its probes can run and have ids of their own, each need is a probe that is no later, by
      stage and then by place, and its checks are catalogued, have ids of their own and something to judge, and read
      probes it has. */
  lemma WellFormedIff(cat: seq<Spec>, s: Suite)
    ensures var ps, cs := s.probes, s.checks;
            WellFormed(cat, s) <==>
              && (forall i :: 0 <= i < |ps| ==> ps[i].id != "" && ps[i].runnable)
              && (forall i, j :: 0 <= i < j < |ps| ==> ps[i].id != ps[j].id)
              && (forall i, n :: 0 <= i < |ps| && n in ps[i].needs ==>
                    exists j :: 0 <= j < |ps| && ps[j].id == n && (ps[j].stage < ps[i].stage || (ps[j].stage == ps[i].stage && j <= i)))
              && (forall i :: 0 <= i < |cs| ==> cs[i].evaluable && exists m :: 0 <= m < |cat| && cat[m].id == cs[i].id)
              && (forall i, n :: 0 <= i < |cs| && n in cs[i].probes ==> exists j :: 0 <= j < |ps| && ps[j].id == n)
              && (forall i, j :: 0 <= i < j < |cs| ==> cs[i].id != cs[j].id)
  {
    var ps, cs := s.probes, s.checks;
    forall i | 0 <= i < |ps|
      ensures NeedsOk(ps, i) <==> forall n :: n in ps[i].needs ==>
                exists j :: 0 <= j < |ps| && ps[j].id == n && (ps[j].stage < ps[i].stage || (ps[j].stage == ps[i].stage && j <= i))
    {
    }
    hide NeedsOk, NoLater, Lookup;
  }

  /** What an error says of the suite. */
  predicate Explains(cat: seq<Spec>, s: Suite, e: SuiteError)
  {
    var ps, cs := s.probes, s.checks;
    match e
    case BadProbe(i) => i < |ps| && (ps[i].id == "" || !ps[i].runnable)
    case DuplicateProbe(p) => exists i, j :: 0 <= i < j < |ps| && ps[i].id == ps[j].id == p
    case UnknownNeed(p, n) => !IsProbe(ps, n) && Needs(ps, p, n)
    case LateNeed(p, n) =>
      exists i, j :: 0 <= i < |ps| && 0 <= j < |ps| && ps[i].id == p && n in ps[i].needs && ps[j].id == n && !NoLater(ps, j, i)
    case UnknownCheck(c) => Lookup(cat, c).None? && exists i :: 0 <= i < |cs| && cs[i].id == c
    case DuplicateCheck(c) => exists i, j :: 0 <= i < j < |cs| && cs[i].id == cs[j].id == c
    case NoEval(c) => exists i :: 0 <= i < |cs| && cs[i].id == c && !cs[i].evaluable
    case UnknownEvidence(c, n) => !IsProbe(ps, n) && exists i :: 0 <= i < |cs| && cs[i].id == c && n in cs[i].probes
    case NoImplementation(_) => false
  }

  // ---- what is needed ------------------------------------------------------

  predicate Needs(ps: seq<Probe>, a: string, b: string)
  {
    exists i :: 0 <= i < |ps| && ps[i].id == a && b in ps[i].needs
  }

  ghost predicate Path(ps: seq<Probe>, path: seq<string>)
  {
    path != [] && forall i :: 0 <= i < |path| - 1 ==> Needs(ps, path[i], path[i + 1])
  }

  /** b is a, or needed by it, or needed by what it needs, and so on. */
  ghost predicate Reaches(ps: seq<Probe>, a: string, b: string)
  {
    exists path :: Path(ps, path) && path[0] == a && path[|path| - 1] == b
  }

  lemma ReachesItself(ps: seq<Probe>, a: string)
    ensures Reaches(ps, a, a)
  {
    assert Path(ps, [a]) && [a][0] == a;
  }

  lemma ReachesFurther(ps: seq<Probe>, a: string, b: string, c: string)
    requires Needs(ps, a, b) && Reaches(ps, b, c)
    ensures Reaches(ps, a, c)
  {
    var path :| Path(ps, path) && path[0] == b && path[|path| - 1] == c;
    var longer := [a] + path;
    forall i | 0 <= i < |longer| - 1 ensures Needs(ps, longer[i], longer[i + 1]) {
      assert i > 0 ==> longer[i] == path[i - 1] && longer[i + 1] == path[i];
    }
    assert Path(ps, longer) && longer[|longer| - 1] == c;
  }

  lemma ReachesFirstStep(ps: seq<Probe>, a: string, c: string) returns (b: string)
    requires Reaches(ps, a, c) && a != c
    ensures Needs(ps, a, b) && Reaches(ps, b, c)
  {
    var path :| Path(ps, path) && path[0] == a && path[|path| - 1] == c;
    b := path[1];
    var rest := path[1..];
    forall i | 0 <= i < |rest| - 1 ensures Needs(ps, rest[i], rest[i + 1]) {
      assert rest[i] == path[i + 1] && rest[i + 1] == path[i + 2];
    }
    assert Path(ps, rest) && rest[0] == b && rest[|rest| - 1] == c;
  }

  /** A set closed under needs that holds a holds everything a reaches. */
  lemma {:induction false} ClosedHoldsReach(ps: seq<Probe>, need: set<string>, path: seq<string>)
    requires forall a, b :: a in need && Needs(ps, a, b) ==> b in need
    requires Path(ps, path) && path[0] in need
    ensures path[|path| - 1] in need
    decreases |path|
  {
    if |path| > 1 {
      var init := path[..|path| - 1];
      assert forall i :: 0 <= i < |init| - 1 ==> Needs(ps, init[i], init[i + 1]) by {
        forall i | 0 <= i < |init| - 1 ensures Needs(ps, init[i], init[i + 1]) {
          assert init[i] == path[i] && init[i + 1] == path[i + 1];
        }
      }
      ClosedHoldsReach(ps, need, init);
      assert Needs(ps, path[|path| - 2], path[|path| - 1]);
    }
  }

  // ---- selection -----------------------------------------------------------

  predicate Wanted(only: seq<string>, c: Check)
  {
    only == [] || c.id in only
  }

  function Selected(checks: seq<Check>, only: seq<string>): (out: seq<Check>)
    ensures forall c :: c in out ==> c in checks && Wanted(only, c)
  {
    if checks == [] then []
    else
      var init := Selected(checks[..|checks| - 1], only);
      if Wanted(only, checks[|checks| - 1]) then init + [checks[|checks| - 1]] else init
  }

  /** Every id asked for is catalogued and implemented. */
  predicate Selectable(cat: seq<Spec>, s: Suite, only: seq<string>)
  {
    forall id :: id in only ==> Lookup(cat, id).Some? && exists i :: 0 <= i < |s.checks| && s.checks[i].id == id
  }

  /** What an error says of a selection. */
  predicate ExplainsSelection(cat: seq<Spec>, s: Suite, only: seq<string>, e: SuiteError)
  {
    match e
    case UnknownCheck(id) => id in only && Lookup(cat, id).None?
    case NoImplementation(id) => id in only && Lookup(cat, id).Some? && forall i :: 0 <= i < |s.checks| ==> s.checks[i].id != id
    case _ => false
  }

  ghost predicate Needed(ps: seq<Probe>, checks: seq<Check>, x: string)
  {
    exists c, id :: c in checks && id in c.probes && Reaches(ps, id, x)
  }

  // ---- the order -----------------------------------------------------------

  function StageOrder(): (Probe, Probe) -> bool
  {
    (a: Probe, b: Probe) => a.stage < b.stage
  }

  function In(need: set<string>): Probe -> bool
  {
    (p: Probe) => p.id in need
  }

  function Chosen(ps: seq<Probe>, need: set<string>): seq<Probe>
  {
    Filter(In(need), ps)
  }

  function SortByStage(ps: seq<Probe>): (out: seq<Probe>)
    ensures |out| == |ps| && multiset(out) == multiset(ps)
  {
    StableSort(StageOrder(), ps)
  }

  function Ordered(ps: seq<Probe>, need: set<string>): seq<Probe>
  {
    SortByStage(Chosen(ps, need))
  }

  // ---- running -------------------------------------------------------------

  datatype Outcome = Completed | Failed(err: string) | Skipped(reason: string)

  type Done = map<string, Outcome>

  datatype Verdict = Verdict(pass: bool, err: bool, detail: string)

  /** What running would do: the error each failing probe returns (a panic is one), each check's verdict,
      and how many probes' turns come before the run is cancelled, and why. */
  datatype World = World(errs: map<string, string>, verdicts: map<string, Verdict>, cancelAt: nat, cause: string)

  predicate Ok(done: Done, id: string)
  {
    id in done && done[id].Completed?
  }

  /** The first need that did not complete. */
  function FirstNotOk(done: Done, needs: seq<string>): (n: Option<string>)
    ensures n.Some? ==> n.value in needs && !Ok(done, n.value)
    ensures n.None? ==> forall i :: 0 <= i < |needs| ==> Ok(done, needs[i])
  {
    if needs == [] then None
    else if !Ok(done, needs[0]) then Some(needs[0])
    else FirstNotOk(done, needs[1..])
  }

  function BlockedBy(n: string): Outcome
  {
    Skipped("prerequisite probe " + n + " did not complete")
  }

  function Ran(w: World, p: Probe): Outcome
  {
    if p.id in w.errs then Failed(w.errs[p.id]) else Completed
  }

  /** The i-th probe's turn. */
  function Turn(w: World, done: Done, p: Probe, i: nat): Outcome
  {
    if i >= w.cancelAt then Skipped("run cancelled before it started: " + w.cause)
    else
      var n := FirstNotOk(done, p.needs);
      if n.Some? then BlockedBy(n.value) else Ran(w, p)
  }

  function Exec(w: World, order: seq<Probe>): Done
  {
    if order == [] then map[]
    else
      var n := |order| - 1;
      var done := Exec(w, order[..n]);
      done[order[n].id := Turn(w, done, order[n], n)]
  }

  // ---- judging -------------------------------------------------------------

  function Why(done: Done, id: string): string
  {
    if id !in done then "did not run"
    else match done[id]
      case Failed(err) => err
      case Skipped(why) => if why == "" then "did not run" else why
      case Completed => "did not run"
  }

  function Join(xs: seq<string>): string
  {
    if xs == [] then "" else if |xs| == 1 then xs[0] else xs[0] + ", " + Join(xs[1..])
  }

  function WithReliedOn(detail: string, reliedOn: seq<string>): string
  {
    if reliedOn == [] then detail
    else if detail == "" then "relied on by: " + Join(reliedOn)
    else detail + " \U{00B7} relied on by: " + Join(reliedOn)
  }

  function GateOf(cat: seq<Spec>, id: string): Gate
  {
    var s := Lookup(cat, id);
    if s.Some? then s.value.gate else Unrecognised
  }

  function ReliedOnOf(cat: seq<Spec>, id: string): seq<string>
  {
    var s := Lookup(cat, id);
    if s.Some? then s.value.reliedOn else []
  }

  function NoEvidence(cat: seq<Spec>, id: string, detail: string): Result
  {
    Result(id, GateOf(cat, id), false, true, WithReliedOn(detail, ReliedOnOf(cat, id)), ReliedOnOf(cat, id))
  }

  function VerdictOf(w: World, id: string): Verdict
  {
    if id in w.verdicts then w.verdicts[id] else Verdict(false, true, "")
  }

  function Judged(cat: seq<Spec>, id: string, v: Verdict): Result
  {
    Result(id, GateOf(cat, id), !v.err && v.pass, v.err, WithReliedOn(v.detail, ReliedOnOf(cat, id)), ReliedOnOf(cat, id))
  }

  function Lacking(probe: string, why: string): string
  {
    "prerequisite probe " + probe + " did not complete: " + why
  }

  function Evaluate(cat: seq<Spec>, w: World, done: Done, c: Check): Result
  {
    var n := FirstNotOk(done, c.probes);
    if n.Some? then
      NoEvidence(cat, c.id, Lacking(n.value, Why(done, n.value)))
    else Judged(cat, c.id, VerdictOf(w, c.id))
  }

  function EvaluateAll(cat: seq<Spec>, w: World, done: Done, cs: seq<Check>): (rs: seq<Result>)
    ensures |rs| == |cs| && forall i :: 0 <= i < |cs| ==> rs[i] == Evaluate(cat, w, done, cs[i])
  {
    hide Evaluate;
    if cs == [] then [] else EvaluateAll(cat, w, done, cs[..|cs| - 1]) + [Evaluate(cat, w, done, cs[|cs| - 1])]
  }
}
