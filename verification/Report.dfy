// The compatibility report (internal/compat/compat.go): what finalizing makes of the checks, and the
// verdict and exit code a caller reads off them. The catalogue is a parameter.
module Report {
  import opened Fleet
  import opened Seqs

  datatype Gate = Must | Warn | Unrecognised

  datatype Spec = Spec(id: string, gate: Gate, reliedOn: seq<string>)

  datatype Result = Result(id: string, gate: Gate, pass: bool, error: bool, detail: string, reliedOn: seq<string>)

  const SCHEMA := 1

  /** An unrecognised gate counts as must. */
  predicate IsMust(g: Gate)
  {
    g != Warn
  }

  // ---- the catalogue -------------------------------------------------------

  /** Lookup: the first entry with the id. */
  function Lookup(cat: seq<Spec>, id: string): (s: Option<Spec>)
    ensures s.Some? ==> s.value in cat && s.value.id == id
    ensures s.None? <==> forall i :: 0 <= i < |cat| ==> cat[i].id != id
  {
    if cat == [] then None
    else if cat[0].id == id then Some(cat[0])
    else Lookup(cat[1..], id)
  }

  /** The place of an id in report order: the map's last writer wins. */
  function Place(cat: seq<Spec>, id: string): Option<nat>
  {
    if cat == [] then None
    else if cat[|cat| - 1].id == id then Some(|cat| - 1)
    else Place(cat[..|cat| - 1], id)
  }

  lemma {:induction false} PlaceNamesId(cat: seq<Spec>, id: string)
    ensures Place(cat, id).Some? ==> Place(cat, id).value < |cat| && cat[Place(cat, id).value].id == id
    decreases |cat|
  {
    if cat != [] && cat[|cat| - 1].id != id {
      PlaceNamesId(cat[..|cat| - 1], id);
    }
  }

  // ---- the order -----------------------------------------------------------

  /** Byte order on strings. */
  predicate StringLess(a: string, b: string)
  {
    b != [] && (a == [] || a[0] < b[0] || (a[0] == b[0] && StringLess(a[1..], b[1..])))
  }

  predicate Before(cat: seq<Spec>, a: string, b: string)
  {
    var i, j := Place(cat, a), Place(cat, b);
    if i.Some? && j.Some? then i.value < j.value
    else if i.Some? != j.Some? then i.Some?
    else StringLess(a, b)
  }

  function ReportOrder(cat: seq<Spec>): (Result, Result) -> bool
  {
    (a: Result, b: Result) => Before(cat, a.id, b.id)
  }

  lemma {:induction false} StringLessTotal(a: string, b: string)
    ensures a == b ==> !StringLess(a, b)
    ensures StringLess(a, b) ==> !StringLess(b, a)
    ensures StringLess(a, b) || StringLess(b, a) || a == b
    decreases |a|
  {
    if a != [] && b != [] && a[0] == b[0] {
      StringLessTotal(a[1..], b[1..]);
      assert a == [a[0]] + a[1..] && b == [b[0]] + b[1..];
    }
  }

  lemma {:induction false} StringLessTransitive(a: string, b: string, c: string)
    requires StringLess(a, b) && StringLess(b, c)
    ensures StringLess(a, c)
    decreases |a|
  {
    if a != [] && a[0] == b[0] == c[0] {
      StringLessTransitive(a[1..], b[1..], c[1..]);
    }
  }

  lemma BeforeTotal(cat: seq<Spec>, a: string, b: string)
    ensures !Before(cat, a, a)
    ensures Before(cat, a, b) ==> !Before(cat, b, a)
    ensures Before(cat, a, b) || Before(cat, b, a) || a == b
  {
    PlaceNamesId(cat, a);
    PlaceNamesId(cat, b);
    StringLessTotal(a, b);
    StringLessTotal(a, a);
  }

  lemma BeforeTransitive(cat: seq<Spec>, a: string, b: string, c: string)
    requires Before(cat, a, b) && Before(cat, b, c)
    ensures Before(cat, a, c)
  {
    if StringLess(a, b) && StringLess(b, c) {
      StringLessTransitive(a, b, c);
    }
  }

  /** The comparator the sort is given is a strict weak order, whatever the catalogue. */
  lemma ReportOrderIsStrictWeak(cat: seq<Spec>)
    ensures StrictWeakOrder(ReportOrder(cat))
  {
    var less := ReportOrder(cat);
    forall x: Result ensures !less(x, x) {
      BeforeTotal(cat, x.id, x.id);
    }
    forall x: Result, y: Result, z: Result | less(x, y) && less(y, z) ensures less(x, z) {
      BeforeTransitive(cat, x.id, y.id, z.id);
    }
    forall x: Result, y: Result, z: Result | less(x, z) ensures less(x, y) || less(y, z) {
      BeforeTotal(cat, x.id, y.id);
      if less(y, x) {
        BeforeTransitive(cat, y.id, x.id, z.id);
      }
    }
  }

  // ---- finalizing ----------------------------------------------------------

  /** One check made consistent: gate and relied-on list from the catalogue, no pass on an error. */
  function Settled(cat: seq<Spec>, c: Result): Result
  {
    var s := Lookup(cat, c.id);
    var d := if s.Some? then c.(gate := s.value.gate, reliedOn := s.value.reliedOn) else c;
    if d.error then d.(pass := false) else d
  }

  function SettledAll(cat: seq<Spec>, cs: seq<Result>): (ds: seq<Result>)
    ensures |ds| == |cs| && forall i :: 0 <= i < |cs| ==> ds[i] == Settled(cat, cs[i])
  {
    if cs == [] then [] else SettledAll(cat, cs[..|cs| - 1]) + [Settled(cat, cs[|cs| - 1])]
  }

  function SortChecks(cat: seq<Spec>, cs: seq<Result>): (ds: seq<Result>)
    ensures |ds| == |cs| && multiset(ds) == multiset(cs)
  {
    StableSort(ReportOrder(cat), cs)
  }

  function Finalized(cat: seq<Spec>, cs: seq<Result>): seq<Result>
  {
    SortChecks(cat, SettledAll(cat, cs))
  }

  /** A must check that does not count in the candidate's favour. */
  predicate Against(c: Result)
  {
    IsMust(c.gate) && (!c.pass || c.error)
  }

  predicate Certified(cs: seq<Result>)
  {
    cs != [] && forall i :: 0 <= i < |cs| ==> !Against(cs[i])
  }

  predicate ProvenFailure(c: Result)
  {
    IsMust(c.gate) && !c.error && !c.pass
  }

  // ---- the report object ---------------------------------------------------

  class Report {
    const catalogue: seq<Spec>
    var schema: int
    var checks: array<Result>
    var pass: bool

    constructor (catalogue: seq<Spec>, checks: array<Result>)
      ensures this.catalogue == catalogue && this.checks == checks
    {
      this.catalogue, this.checks := catalogue, checks;
      schema, pass := 0, false;
    }

    /** Rewrites the checks in place, sorts them in place, and judges them. */
    method Finalize()
      modifies this`schema, this`pass, checks
      ensures schema == 1
      ensures checks[..] == Finalized(catalogue, old(checks[..]))
      ensures pass <==> Certified(checks[..])
    {
      schema := SCHEMA;
      ghost var was := checks[..];
      for i := 0 to checks.Length
        invariant forall j :: 0 <= j < i ==> checks[j] == Settled(catalogue, was[j])
        invariant forall j :: i <= j < checks.Length ==> checks[j] == was[j]
        modifies checks
      {
        var c := checks[i];
        var s := Lookup(catalogue, c.id);
        if s.Some? {
          c := c.(gate := s.value.gate, reliedOn := s.value.reliedOn);
        }
        if c.error {
          c := c.(pass := false);
        }
        checks[i] := c;
      }
      assert checks[..] == SettledAll(catalogue, was);
      SliceStable();
      Judge();
    }

    /** The library's stable sort, with the report's comparator. */
    method SliceStable()
      modifies checks
      ensures checks[..] == SortChecks(catalogue, old(checks[..]))
    {
      var sorted := SortChecks(catalogue, checks[..]);
      forall i | 0 <= i < checks.Length {
        checks[i] := sorted[i];
      }
      assert checks[..] == sorted;
    }

    method Judge()
      modifies this`pass
      ensures pass <==> Certified(checks[..])
    {
      pass := checks.Length > 0;
      for i := 0 to checks.Length
        invariant pass <==> checks.Length > 0 && forall j :: 0 <= j < i ==> !Against(checks[j])
        modifies this`pass
      {
        if IsMust(checks[i].gate) && (!checks[i].pass || checks[i].error) {
          pass := false;
        }
      }
    }

    /** 1 for a proven failure, else 2 for an error or for nothing judged, else 0. */
    method ExitCode() returns (code: nat)
      ensures code == 1 <==> exists i :: 0 <= i < checks.Length && ProvenFailure(checks[i])
      ensures code == 0 <==> Certified(checks[..])
      ensures code <= 2 && code == Code(checks[..])
      ensures code == 1 <==> exists i :: 0 <= i < checks.Length && checks[i].gate != Warn && !checks[i].error && !checks[i].pass
      ensures code == 0 <==> checks.Length > 0 && forall i :: 0 <= i < checks.Length ==>
                checks[i].gate == Warn || (checks[i].pass && !checks[i].error)
    {
      var failed, errored := false, false;
      for i := 0 to checks.Length
        invariant failed <==> exists j :: 0 <= j < i && ProvenFailure(checks[j])
        invariant errored <==> exists j :: 0 <= j < i && IsMust(checks[j].gate) && checks[j].error
      {
        if !IsMust(checks[i].gate) {
        } else if checks[i].error {
          errored := true;
        } else if !checks[i].pass {
          failed := true;
        }
      }
      return if failed then 1 else if errored || checks.Length == 0 then 2 else 0;
    }
  }

  // ---- what finalizing promises --------------------------------------------

  lemma {:induction false} SettledIsFixed(cat: seq<Spec>, cs: seq<Result>)
    requires forall c :: c in cs ==> Settled(cat, c) == c
    ensures SettledAll(cat, cs) == cs
  {
    forall i | 0 <= i < |cs| ensures SettledAll(cat, cs)[i] == cs[i] {
      assert cs[i] in cs;
    }
  }

  lemma FinalizedMembers(cat: seq<Spec>, cs: seq<Result>)
    ensures forall d :: d in Finalized(cat, cs) ==> exists c :: c in cs && d == Settled(cat, c)
    ensures forall d :: d in Finalized(cat, cs) ==> Settled(cat, d) == d
  {
    var ds := SettledAll(cat, cs);
    forall d | d in Finalized(cat, cs) ensures (exists c :: c in cs && d == Settled(cat, c)) && Settled(cat, d) == d {
      assert d in multiset(Finalized(cat, cs)) && d in multiset(ds);
      var i :| 0 <= i < |ds| && ds[i] == d;
      assert cs[i] in cs;
    }
  }

  /** Finalizing twice is finalizing once. */
  lemma FinalizeIdempotent(cat: seq<Spec>, cs: seq<Result>)
    ensures Finalized(cat, Finalized(cat, cs)) == Finalized(cat, cs)
  {
    FinalizedMembers(cat, cs);
    SettledIsFixed(cat, Finalized(cat, cs));
    ReportOrderIsStrictWeak(cat);
    StableSortSorted(ReportOrder(cat), SettledAll(cat, cs));
    StableSortFixpoint(ReportOrder(cat), Finalized(cat, cs));
  }

  /** The report is a permutation of the settled checks: catalogued ones first, in catalogue order, then
      the others by id. No check keeps a gate of its own choosing, and none passes with an error. */
  lemma FinalizedReport(cat: seq<Spec>, cs: seq<Result>)
    ensures var ds := Finalized(cat, cs);
            && multiset(ds) == multiset(SettledAll(cat, cs))
            && (forall i, j :: 0 <= i < j < |ds| ==> !Before(cat, ds[j].id, ds[i].id))
            && (forall i :: 0 <= i < |ds| && Lookup(cat, ds[i].id).Some? ==>
                  ds[i].gate == Lookup(cat, ds[i].id).value.gate && ds[i].reliedOn == Lookup(cat, ds[i].id).value.reliedOn)
            && (forall i :: 0 <= i < |ds| && ds[i].error ==> !ds[i].pass)
            && (forall d :: d in ds ==> exists c :: c in cs && d.id == c.id && d.error == c.error && d.detail == c.detail
                                                   && (d.pass <==> c.pass && !c.error))
  {
    var ds := Finalized(cat, cs);
    FinalizedMembers(cat, cs);
    ReportOrderIsStrictWeak(cat);
    StableSortSorted(ReportOrder(cat), SettledAll(cat, cs));
    forall i, j | 0 <= i < j < |ds| ensures !Before(cat, ds[j].id, ds[i].id) {
      assert !ReportOrder(cat)(ds[j], ds[i]);
    }
    forall i | 0 <= i < |ds| ensures Settled(cat, ds[i]) == ds[i] {
      assert ds[i] in ds;
    }
  }

  /** a is before b, character by character: a proper prefix of it, or smaller where they first differ. */
  lemma {:induction false} StringLessIff(a: string, b: string)
    ensures StringLess(a, b) <==>
              exists n :: 0 <= n <= |a| && n < |b| && a[..n] == b[..n] && (n == |a| || a[n] < b[n])
    decreases |a|
  {
    if a != [] && b != [] && a[0] == b[0] {
      StringLessIff(a[1..], b[1..]);
      if n :| 0 <= n <= |a| && n < |b| && a[..n] == b[..n] && (n == |a| || a[n] < b[n]) {
        assert n > 0 && a[1..][..n - 1] == a[..n][1..] && b[1..][..n - 1] == b[..n][1..];
      }
      if n :| 0 <= n <= |a[1..]| && n < |b[1..]| && a[1..][..n] == b[1..][..n] && (n == |a[1..]| || a[1..][n] < b[1..][n]) {
        assert a[..n + 1] == [a[0]] + a[1..][..n] && b[..n + 1] == [b[0]] + b[1..][..n];
      }
    } else if b != [] {
      assert a[..0] == b[..0];
      assert forall n :: 0 < n <= |a| && n < |b| && a[..n] == b[..n] ==> a[..n][0] == b[..n][0];
    }
  }

  ghost predicate LastEntry(cat: seq<Spec>, n: int, id: string)
  {
    0 <= n < |cat| && cat[n].id == id && forall m :: n < m < |cat| ==> cat[m].id != id
  }

  lemma {:induction false} PlaceIsLast(cat: seq<Spec>, id: string, n: nat)
    requires LastEntry(cat, n, id)
    ensures Place(cat, id) == Some(n)
    decreases |cat|
  {
    if n < |cat| - 1 {
      PlaceIsLast(cat[..|cat| - 1], id, n);
    }
  }

  lemma {:induction false} PlaceKnown(cat: seq<Spec>, id: string)
    ensures Place(cat, id).None? <==> forall m :: 0 <= m < |cat| ==> cat[m].id != id
    decreases |cat|
  {
    if cat != [] {
      PlaceKnown(cat[..|cat| - 1], id);
    }
  }

  /** The order of a report, of any two of its checks: as the catalogue has them, by its last entry for each; those it has
      before those it has not; and those it has not by id, character by character. */
  lemma ReportOrderSays(cat: seq<Spec>, cs: seq<Result>, i: nat, j: nat)
    requires i < j < |Finalized(cat, cs)|
    ensures var x, y := Finalized(cat, cs)[i].id, Finalized(cat, cs)[j].id;
            && (forall m, n :: LastEntry(cat, m, x) && LastEntry(cat, n, y) ==> m <= n)
            && ((exists n :: 0 <= n < |cat| && cat[n].id == y) ==> exists m :: 0 <= m < |cat| && cat[m].id == x)
            && ((forall m :: 0 <= m < |cat| ==> cat[m].id != x) ==>
                  x == y || exists n :: 0 <= n <= |x| && n < |y| && x[..n] == y[..n] && (n == |x| || x[n] < y[n]))
  {
    var x, y := Finalized(cat, cs)[i].id, Finalized(cat, cs)[j].id;
    FinalizedReport(cat, cs);
    hide *;
    NotAfter(cat, x, y);
  }

  lemma NotAfter(cat: seq<Spec>, x: string, y: string)
    requires !Before(cat, y, x)
    ensures forall m, n :: LastEntry(cat, m, x) && LastEntry(cat, n, y) ==> m <= n
    ensures (exists n :: 0 <= n < |cat| && cat[n].id == y) ==> exists m :: 0 <= m < |cat| && cat[m].id == x
    ensures (forall m :: 0 <= m < |cat| ==> cat[m].id != x) ==>
              x == y || exists n :: 0 <= n <= |x| && n < |y| && x[..n] == y[..n] && (n == |x| || x[n] < y[n])
  {
    hide StringLess, Place;
    forall m, n | LastEntry(cat, m, x) && LastEntry(cat, n, y) ensures m <= n {
      PlaceIsLast(cat, x, m);
      PlaceIsLast(cat, y, n);
    }
    PlaceKnown(cat, x);
    PlaceKnown(cat, y);
    StringLessTotal(x, y);
    StringLessIff(x, y);
  }

  ghost predicate DistinctIds(cs: seq<Result>)
  {
    forall i, j :: 0 <= i < j < |cs| ==> cs[i].id != cs[j].id
  }

  /** A sorted list with distinct ids is determined by what is in it. */
  lemma {:induction false} SortedIsUnique(cat: seq<Spec>, xs: seq<Result>, ys: seq<Result>)
    requires Sorted(ReportOrder(cat), xs) && Sorted(ReportOrder(cat), ys)
    requires DistinctIds(xs) && multiset(xs) == multiset(ys)
    ensures xs == ys
  {
    assert |multiset(xs)| == |xs| && |multiset(ys)| == |ys|;
    hide *;
    if xs != [] {
      FirstIsLeast(cat, xs, ys);
      RemoveSame(xs, 0, ys, 0);
      Tail(cat, xs);
      Tail(cat, ys);
      TailDistinct(xs);
      SortedIsUnique(cat, xs[1..], ys[1..]);
    }
  }

  lemma Tail(cat: seq<Spec>, xs: seq<Result>)
    requires xs != [] && Sorted(ReportOrder(cat), xs)
    ensures Sorted(ReportOrder(cat), xs[1..]) && xs == [xs[0]] + xs[1..] && RemoveAt(xs, 0) == xs[1..]
  {
  }

  lemma TailDistinct(xs: seq<Result>)
    requires xs != [] && DistinctIds(xs)
    ensures DistinctIds(xs[1..])
  {
  }

  lemma FirstIsLeast(cat: seq<Spec>, xs: seq<Result>, ys: seq<Result>)
    requires xs != [] && ys != []
    requires Sorted(ReportOrder(cat), xs) && Sorted(ReportOrder(cat), ys)
    requires DistinctIds(xs) && multiset(xs) == multiset(ys)
    ensures xs[0] == ys[0]
  {
    assert ys[0] in multiset(xs) && xs[0] in multiset(ys);
    NoneBeforeFirst(cat, xs, ys[0]);
    NoneBeforeFirst(cat, ys, xs[0]);
    BeforeTotal(cat, xs[0].id, ys[0].id);
    var i :| 0 <= i < |xs| && xs[i] == ys[0];
  }

  lemma NoneBeforeFirst(cat: seq<Spec>, xs: seq<Result>, x: Result)
    requires Sorted(ReportOrder(cat), xs) && x in xs
    ensures !Before(cat, x.id, xs[0].id)
  {
    var i :| 0 <= i < |xs| && xs[i] == x;
    BeforeTotal(cat, x.id, x.id);
    assert i > 0 ==> !ReportOrder(cat)(xs[i], xs[0]);
  }

  /** With distinct ids the report does not depend on the order the checks came in. */
  lemma FinalizeIgnoresInputOrder(cat: seq<Spec>, xs: seq<Result>, ys: seq<Result>)
    requires DistinctIds(xs) && multiset(xs) == multiset(ys)
    ensures Finalized(cat, xs) == Finalized(cat, ys)
  {
    ReportOrderIsStrictWeak(cat);
    StableSortSorted(ReportOrder(cat), SettledAll(cat, xs));
    StableSortSorted(ReportOrder(cat), SettledAll(cat, ys));
    SettledPermutation(cat, xs, ys);
    SortedDistinct(cat, xs);
    SortedIsUnique(cat, Finalized(cat, xs), Finalized(cat, ys));
  }

  lemma SettledRemove(cat: seq<Spec>, ys: seq<Result>, i: nat)
    requires i < |ys|
    ensures multiset(SettledAll(cat, ys)) == multiset(SettledAll(cat, RemoveAt(ys, i))) + multiset{Settled(cat, ys[i])}
  {
    hide Settled;
    var ds := SettledAll(cat, ys);
    assert SettledAll(cat, RemoveAt(ys, i)) == RemoveAt(ds, i);
    RemoveAtMultiset(ds, i);
  }

  lemma {:induction false} SettledPermutation(cat: seq<Spec>, xs: seq<Result>, ys: seq<Result>)
    requires multiset(xs) == multiset(ys)
    ensures multiset(SettledAll(cat, xs)) == multiset(SettledAll(cat, ys))
    decreases |xs|
  {
    if xs == [] {
      assert |multiset(ys)| == |ys|;
    } else {
      var i := PermutationWithout(xs, ys);
      SettledRemove(cat, ys, i);
      SettledRemove(cat, xs, |xs| - 1);
      assert RemoveAt(xs, |xs| - 1) == xs[..|xs| - 1];
      hide *;
      SettledPermutation(cat, xs[..|xs| - 1], RemoveAt(ys, i));
    }
  }

  lemma SortedDistinct(cat: seq<Spec>, xs: seq<Result>)
    requires DistinctIds(xs)
    ensures DistinctIds(Finalized(cat, xs))
  {
    var ds, es := SettledAll(cat, xs), Finalized(cat, xs);
    assert Distinct(ds) && DistinctIds(ds);
    DistinctPermutation(ds, es);
    hide SettledAll, Finalized;
    forall i, j | 0 <= i < j < |es| ensures es[i].id != es[j].id {
      assert es[i] in es && es[j] in es;
      var a :| 0 <= a < |ds| && ds[a] == es[i];
      var b :| 0 <= b < |ds| && ds[b] == es[j];
      assert a != b;
    }
  }

  /** The exit code, decided by the checks of a report alone. */
  function Code(cs: seq<Result>): nat
  {
    if exists i :: 0 <= i < |cs| && ProvenFailure(cs[i]) then 1 else if Certified(cs) then 0 else 2
  }

  /** A proven failure of a must check is what the exit code says, whatever else errored; and no amount of
      reordering, or of warn checks, changes it. */
  lemma FailureOutranksErrors(cat: seq<Spec>, cs: seq<Result>)
    ensures Code(Finalized(cat, cs)) == 1 <==> exists c :: c in cs && ProvenFailure(Settled(cat, c))
    ensures Code(Finalized(cat, cs)) == 0 <==> cs != [] && forall c :: c in cs ==> !Against(Settled(cat, c))
  {
    var es := Finalized(cat, cs);
    FinalizedMembers(cat, cs);
    SettledIsThere(cat, cs);
    assert |es| == |cs|;
    CodeByMembers(es);
    hide *;
  }

  lemma SettledIsThere(cat: seq<Spec>, cs: seq<Result>)
    ensures forall c :: c in cs ==> Settled(cat, c) in Finalized(cat, cs)
  {
    var ds, es := SettledAll(cat, cs), Finalized(cat, cs);
    forall c | c in cs ensures Settled(cat, c) in es {
      var i :| 0 <= i < |cs| && cs[i] == c;
      assert ds[i] in ds && ds[i] in multiset(ds) && ds[i] in multiset(es);
    }
  }

  lemma CodeByMembers(cs: seq<Result>)
    ensures Code(cs) == 1 <==> exists c :: c in cs && ProvenFailure(c)
    ensures Code(cs) == 0 <==> cs != [] && forall c :: c in cs ==> !Against(c)
  {
    assert forall i :: 0 <= i < |cs| ==> cs[i] in cs;
    hide ProvenFailure, Against;
    if exists i :: 0 <= i < |cs| && ProvenFailure(cs[i]) {
      var i :| 0 <= i < |cs| && ProvenFailure(cs[i]);
      FailureIsAgainst(cs[i]);
    }
  }

  lemma FailureIsAgainst(c: Result)
    ensures ProvenFailure(c) ==> Against(c)
  {
  }
}
