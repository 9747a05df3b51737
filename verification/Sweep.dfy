// The coalescing background sweep (internal/service/history.go). Requests arrive from any goroutine;
// each critical section, and each start and end of a sweep, is one step.
module Sweep {
  /** A sweeping goroutine: about to list, listing, or done listing and about to look for more work. */
  datatype Runner = Ready | Listing | Listed

  datatype Act = Asked | Started | Ended

  /** trace is everything that happened, in order. */
  datatype State = State(sweeping: bool, again: bool, runners: seq<Runner>, trace: seq<Act>)

  datatype Step = Request | Start(i: nat) | End(j: nat) | Recheck(k: nat)

  const INITIAL := State(false, false, [], [])

  // ---- the code ------------------------------------------------------------

  /** The two flags, as the methods of the service change them under their lock. */
  class Sweeper {
    var sweeping: bool
    var again: bool

    constructor ()
      ensures !sweeping && !again
    {
      sweeping, again := false, false;
    }

    /** requestSweep, up to the launch: whether the caller is to launch a goroutine. */
    method RequestSweep() returns (launch: bool)
      modifies this
      ensures forall s: State :: s.sweeping == old(sweeping) && s.again == old(again) ==>
        var s' := DoRequest(s);
        s'.sweeping == sweeping && s'.again == again && s'.runners == if launch then s.runners + [Ready] else s.runners
    {
      if sweeping {
        again := true;
        return false;
      }
      sweeping := true;
      launch := true;
    }

    /** The end of the goroutine's loop body: whether it goes around again. */
    method LookAgain() returns (more: bool)
      modifies this
      ensures forall s: State, i: nat :: s.sweeping == old(sweeping) && s.again == old(again) && i < |s.runners| ==>
        var s' := DoRecheck(s, i);
        s'.sweeping == sweeping && s'.again == again
        && s'.runners == if more then s.runners[i := Ready] else s.runners[..i] + s.runners[i + 1..]
    {
      if !again {
        sweeping := false;
        return false;
      }
      again := false;
      more := true;
    }
  }

  // ---- the step system -----------------------------------------------------

  function DoRequest(s: State): State
  {
    if s.sweeping then s.(again := true, trace := s.trace + [Asked])
    else s.(sweeping := true, runners := s.runners + [Ready], trace := s.trace + [Asked])
  }

  function DoRecheck(s: State, i: nat): State
    requires i < |s.runners|
  {
    if s.again then s.(again := false, runners := s.runners[i := Ready])
    else s.(sweeping := false, runners := s.runners[..i] + s.runners[i + 1..])
  }

  predicate Enabled(s: State, step: Step)
  {
    match step
    case Request => true
    case Start(i) => i < |s.runners| && s.runners[i] == Ready
    case End(i) => i < |s.runners| && s.runners[i] == Listing
    case Recheck(i) => i < |s.runners| && s.runners[i] == Listed
  }

  function Next(s: State, step: Step): State
    requires Enabled(s, step)
  {
    match step
    case Request => DoRequest(s)
    case Start(i) => s.(runners := s.runners[i := Listing], trace := s.trace + [Started])
    case End(i) => s.(runners := s.runners[i := Listed], trace := s.trace + [Ended])
    case Recheck(i) => DoRecheck(s, i)
  }

  predicate Idle(s: State)
  {
    s.runners == []
  }

  function Count(a: Act, trace: seq<Act>): nat
  {
    if trace == [] then 0 else Count(a, trace[..|trace| - 1]) + if trace[|trace| - 1] == a then 1 else 0
  }

  lemma CountSnoc(a: Act, trace: seq<Act>, b: Act)
    ensures Count(a, trace + [b]) == Count(a, trace) + if a == b then 1 else 0
  {
    assert (trace + [b])[..|trace|] == trace;
  }

  /** A sweep started after the request. */
  predicate Served(trace: seq<Act>, r: nat)
  {
    exists s :: r < s < |trace| && trace[s] == Started
  }

  lemma ServedSnoc(trace: seq<Act>, b: Act, r: nat)
    requires r < |trace|
    ensures Served(trace + [b], r) <==> Served(trace, r) || b == Started
  {
    var trace' := trace + [b];
    if Served(trace, r) {
      var s :| r < s < |trace| && trace[s] == Started;
      assert trace'[s] == Started;
    }
    assert trace'[|trace|] == b;
  }

  /** Sweeps the state still has to start. */
  function Owed(s: State): nat
  {
    (if s.again then 1 else 0) + if s.runners == [Ready] then 1 else 0
  }

  ghost predicate Inv(s: State)
  {
    && |s.runners| == (if s.sweeping then 1 else 0)
    && (s.again ==> s.sweeping)
    && Count(Started, s.trace) == Count(Ended, s.trace) + (if s.runners == [Listing] then 1 else 0)
    && Count(Started, s.trace) + Owed(s) <= Count(Asked, s.trace)
    && (forall r :: 0 <= r < |s.trace| && s.trace[r] == Asked && !Served(s.trace, r) ==> Owed(s) > 0)
  }

  lemma StepKeeps(s: State, step: Step)
    requires Inv(s) && Enabled(s, step)
    ensures Inv(Next(s, step))
  {
    match step
    case Request => ActKeeps(s, Next(s, step), Asked);
    case Start(_) => ActKeeps(s, Next(s, step), Started);
    case End(_) => ActKeeps(s, Next(s, step), Ended);
    case Recheck(_) => RecheckKeeps(s, step);
  }

  lemma RecheckKeeps(s: State, step: Step)
    requires Inv(s) && Enabled(s, step) && step.Recheck?
    ensures Inv(Next(s, step))
  {
    hide Served, Count;
    assert s.runners == [Listed];
  }

  /** One more act, and what it does to the runners and to what is owed. */
  lemma ActKeeps(s: State, s': State, b: Act)
    requires Inv(s) && s'.trace == s.trace + [b]
    requires |s'.runners| == (if s'.sweeping then 1 else 0) && (s'.again ==> s'.sweeping)
    requires Owed(s') - Owed(s) <= (if b == Asked then 1 else 0) - (if b == Started then 1 else 0)
    requires b == Asked ==> Owed(s') > 0
    requires b == Ended ==> Owed(s') == Owed(s)
    requires (if s'.runners == [Listing] then 1 else 0) - (if s.runners == [Listing] then 1 else 0)
          == (if b == Started then 1 else 0) - (if b == Ended then 1 else 0)
    ensures Inv(s')
  {
    CountSnoc(Asked, s.trace, b);
    CountSnoc(Started, s.trace, b);
    CountSnoc(Ended, s.trace, b);
    hide Served, Count, Owed;
    forall r | 0 <= r < |s'.trace| && s'.trace[r] == Asked && !Served(s'.trace, r) ensures Owed(s') > 0 {
      if r < |s.trace| {
        ServedSnoc(s.trace, b, r);
      }
    }
  }

  // ---- every run -----------------------------------------------------------

  ghost predicate IsRun(ss: seq<State>, steps: seq<Step>)
  {
    && |ss| == |steps| + 1
    && (forall i :: 0 <= i < |steps| ==> Enabled(ss[i], steps[i]) && ss[i + 1] == Next(ss[i], steps[i]))
  }

  lemma {:induction false} RunKeeps(ss: seq<State>, steps: seq<Step>)
    requires IsRun(ss, steps) && Inv(ss[0])
    ensures Inv(ss[|steps|])
    decreases |steps|
  {
    var n := |steps|;
    if n > 0 {
      assert IsRun(ss[..n], steps[..n - 1]);
      RunKeeps(ss[..n], steps[..n - 1]);
      StepKeeps(ss[n - 1], steps[n - 1]);
    }
  }

  /** In every reachable state: one sweep at most is under way, no more have started than were asked for,
      and at rest every request was followed by the start of a sweep. */
  lemma SweepsCoalesce(ss: seq<State>, steps: seq<Step>)
    requires IsRun(ss, steps) && ss[0] == INITIAL
    ensures var s := ss[|steps|];
            && |s.runners| <= 1
            && Count(Ended, s.trace) <= Count(Started, s.trace) <= Count(Ended, s.trace) + 1
            && Count(Started, s.trace) <= Count(Asked, s.trace)
            && (Idle(s) ==> forall r :: 0 <= r < |s.trace| && s.trace[r] == Asked ==> Served(s.trace, r))
  {
    RunKeeps(ss, steps);
  }

  /** What is left to do before the service is at rest, if nobody asks again. */
  function Distance(s: State): nat
  {
    (if s.again then 3 else 0)
    + if |s.runners| != 1 then 0 else match s.runners[0] case Ready => 3 case Listing => 2 case Listed => 1
  }

  /** A request is never stranded: short of rest some step of the goroutine is possible, and each one
      brings rest nearer. */
  lemma AlwaysMovesOn(s: State)
    requires Inv(s)
    ensures Idle(s) <==> Distance(s) == 0
    ensures !Idle(s) ==> Enabled(s, Start(0)) || Enabled(s, End(0)) || Enabled(s, Recheck(0))
    ensures forall step :: Enabled(s, step) && step != Request ==> Distance(Next(s, step)) < Distance(s)
  {
  }

  /** However many requests arrive, what is owed is exact: left alone, the service starts precisely that
      many sweeps before it rests. A burst of requests during one sweep buys one more. */
  lemma {:induction false} LeftAloneStartsWhatIsOwed(ss: seq<State>, steps: seq<Step>)
    requires IsRun(ss, steps) && Inv(ss[0]) && Request !in steps
    ensures Count(Started, ss[|steps|].trace) + Owed(ss[|steps|]) == Count(Started, ss[0].trace) + Owed(ss[0])
    ensures Idle(ss[|steps|]) ==> Count(Started, ss[|steps|].trace) == Count(Started, ss[0].trace) + Owed(ss[0])
    decreases |steps|
  {
    var n := |steps|;
    if n > 0 {
      assert IsRun(ss[..n], steps[..n - 1]);
      LeftAloneStartsWhatIsOwed(ss[..n], steps[..n - 1]);
      RunKeeps(ss[..n], steps[..n - 1]);
      assert steps[n - 1] in steps;
      StepPays(ss[n - 1], steps[n - 1]);
    }
    RunKeeps(ss, steps);
    hide *;
    RestOwesNothing(ss[n]);
  }

  /** A step of the goroutine starts a sweep exactly when it pays for one. */
  lemma StepPays(s: State, step: Step)
    requires Inv(s) && Enabled(s, step) && step != Request
    ensures Count(Started, Next(s, step).trace) + Owed(Next(s, step)) == Count(Started, s.trace) + Owed(s)
  {
    CountSnoc(Started, s.trace, Started);
    CountSnoc(Started, s.trace, Ended);
    hide Count, Served;
  }

  lemma RestOwesNothing(s: State)
    requires Inv(s)
    ensures Idle(s) ==> Owed(s) == 0
  {
  }

  /** A burst while a sweep is listing is served by exactly one further sweep. */
  lemma {:induction false} BurstIsOneSweep(s: State, n: nat)
    requires Inv(s) && s.runners == [Listing] && n > 0
    ensures Owed(Burst(s, n)) == 1 && Inv(Burst(s, n)) && Burst(s, n).runners == [Listing] && Burst(s, n).again
    ensures Count(Asked, Burst(s, n).trace) == Count(Asked, s.trace) + n
    decreases n
  {
    if n > 1 {
      BurstIsOneSweep(s, n - 1);
    }
    var before := if n > 1 then Burst(s, n - 1) else s;
    assert Burst(s, n) == DoRequest(before);
    StepKeeps(before, Request);
    CountSnoc(Asked, before.trace, Asked);
  }

  function Burst(s: State, n: nat): State
  {
    if n == 0 then s else DoRequest(Burst(s, n - 1))
  }
}
