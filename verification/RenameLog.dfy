// What the rename plane observes is what was stamped (internal/service/events.go): every stamped event is
// observed once or still waiting to be, so a verdict rests on events of the log.
module RenameLog {
  import opened Fleet
  import opened RenameSpec
  import opened Seqs
  import opened RenameRuns

  datatype Side = Stamping | Observing

  function EventOf(a: Act, side: Side): seq<Event>
  {
    match side
    case Stamping => if a.Stamped? then [a.ev] else []
    case Observing => if a.Observed? then [a.seen] else []
  }

  /** The events stamped, or observed, by the acts of a trace, in order. */
  function Events(tr: seq<Act>, side: Side): seq<Event>
  {
    if tr == [] then [] else Events(tr[..|tr| - 1], side) + EventOf(tr[|tr| - 1], side)
  }

  lemma EventsSnoc(tr: seq<Act>, a: Act, side: Side)
    ensures Events(tr + [a], side) == Events(tr, side) + EventOf(a, side)
  {
    assert (tr + [a])[..|tr|] == tr;
  }

  lemma {:induction false} EventsMember(tr: seq<Act>, side: Side, ev: Event)
    ensures ev in Events(tr, side) <==> exists k :: 0 <= k < |tr| && ev in EventOf(tr[k], side)
  {
    hide EventOf;
    if tr != [] {
      var init, a := tr[..|tr| - 1], tr[|tr| - 1];
      EventsMember(init, side, ev);
      assert tr == init + [a];
    }
  }

  /** Every stamped event has been observed or is waiting to be, and nothing else is. */
  predicate Logged(tr: seq<Act>, unobserved: seq<Event>)
  {
    multiset(Events(tr, Observing)) + multiset(unobserved) == multiset(Events(tr, Stamping))
  }

  /** At no time were more events observed than had been stamped. */
  predicate InStep(tr: seq<Act>)
  {
    forall n :: 0 <= n <= |tr| ==> multiset(Events(tr[..n], Observing)) <= multiset(Events(tr[..n], Stamping))
  }

  lemma LoggedInStep(tr: seq<Act>, a: Act, unobserved: seq<Event>)
    requires InStep(tr) && Logged(tr + [a], unobserved)
    ensures InStep(tr + [a])
  {
    hide Events;
    forall n | 0 <= n <= |tr| + 1
      ensures multiset(Events((tr + [a])[..n], Observing)) <= multiset(Events((tr + [a])[..n], Stamping))
    {
      if n <= |tr| {
        assert (tr + [a])[..n] == tr[..n];
      } else {
        assert (tr + [a])[..n] == tr + [a];
      }
    }
  }

  // ---- one act -------------------------------------------------------------

  lemma StampLogs(tr: seq<Act>, unobserved: seq<Event>, ev: Event, tag: Tag)
    requires Logged(tr, unobserved) && InStep(tr)
    ensures Logged(tr + [Stamped(ev, tag)], unobserved + [ev]) && InStep(tr + [Stamped(ev, tag)])
  {
    hide Events, InStep;
    EventsSnoc(tr, Stamped(ev, tag), Stamping);
    EventsSnoc(tr, Stamped(ev, tag), Observing);
    assert Events(tr, Observing) + [] == Events(tr, Observing);
    LoggedInStep(tr, Stamped(ev, tag), unobserved + [ev]);
  }

  lemma ObserveLogs(tr: seq<Act>, unobserved: seq<Event>, i: nat)
    requires Logged(tr, unobserved) && InStep(tr) && i < |unobserved|
    ensures Logged(tr + [Observed(unobserved[i])], RemoveAt(unobserved, i)) && InStep(tr + [Observed(unobserved[i])])
  {
    hide Events, InStep, RemoveAt;
    var a := Observed(unobserved[i]);
    EventsSnoc(tr, a, Stamping);
    EventsSnoc(tr, a, Observing);
    assert Events(tr, Stamping) + [] == Events(tr, Stamping);
    RemoveAtMultiset(unobserved, i);
    LoggedInStep(tr, a, RemoveAt(unobserved, i));
  }

  lemma QuietLogs(tr: seq<Act>, unobserved: seq<Event>, a: Act)
    requires Logged(tr, unobserved) && InStep(tr) && !a.Stamped? && !a.Observed?
    ensures Logged(tr + [a], unobserved) && InStep(tr + [a])
  {
    hide Events, InStep;
    EventsSnoc(tr, a, Stamping);
    EventsSnoc(tr, a, Observing);
    assert Events(tr, Stamping) + [] == Events(tr, Stamping) && Events(tr, Observing) + [] == Events(tr, Observing);
    LoggedInStep(tr, a, unobserved);
  }

  // ---- one step ------------------------------------------------------------

  predicate InLog(s: Sys)
  {
    Logged(s.trace, s.unobserved) && InStep(s.trace)
  }

  lemma SameLog(s: Sys, s': Sys)
    requires InLog(s) && s'.trace == s.trace && s'.unobserved == s.unobserved
    ensures InLog(s')
  {
    hide Logged, InStep;
  }

  lemma DecideShows(s: Sys, act: Act, plane: Plane, key: RenameKey, verdict: RenameVerdict)
    requires key in s.plane.pending && s.plane.pending[key].timer in s.watches
    ensures var s' := Decide(s, act, plane, key, verdict);
            && s'.unobserved == s.unobserved
            && s'.trace == (s.trace + [act]) + [Verdict(s.plane.pending[key].timer, verdict, s.now)]
  {
    hide VerdictEvent;
  }

  lemma ObserveStepLogs(s: Sys, i: nat)
    requires InLog(s) && i < |s.unobserved| && Known(s)
    ensures InLog(DoObserve(s, i))
  {
    hide Logged, InStep, Decide, Observe, CloseVerdict, RemoveAt;
    var ev := s.unobserved[i];
    ObserveLogs(s.trace, s.unobserved, i);
    if ClosesWatch(s.plane, ev) {
      var rest := s.(unobserved := RemoveAt(s.unobserved, i));
      var key, verdict := CloseKey(ev), CloseVerdict(s.plane.pending[CloseKey(ev)]);
      DecideShows(rest, Observed(ev), Observe(s.plane, ev), key, verdict);
      QuietLogs(s.trace + [Observed(ev)], rest.unobserved, Verdict(s.plane.pending[key].timer, verdict, s.now));
    }
  }

  lemma CallbackStepLogs(s: Sys, t: nat)
    requires InLog(s) && t in s.plane.fired && Known(s)
    ensures InLog(DoCallback(s, t))
  {
    hide Logged, InStep, Decide, Callback, DeadlineVerdict;
    QuietLogs(s.trace, s.unobserved, Fired(t));
    var key := s.plane.fired[t].key;
    if Undecided(s.plane, key) {
      var verdict := DeadlineVerdict(s.plane.pending[key]);
      DecideShows(s, Fired(t), Callback(s.plane, t), key, verdict);
      QuietLogs(s.trace + [Fired(t)], s.unobserved, Verdict(s.plane.pending[key].timer, verdict, s.now));
    }
  }

  lemma RegisterStepLogs(s: Sys, i: nat)
    requires InLog(s) && i < |s.requests|
    ensures InLog(DoRegister(s, i))
  {
    hide Logged, InStep, Watchable, WatchRename, RemoveAt;
    var r := s.requests[i];
    QuietLogs(s.trace, s.unobserved, Registered(s.plane.nextTimer, r.key, r.from, r.startedAt, r.accepted, s.now));
  }

  lemma StampStepLogs(s: Sys, s': Sys, ev: Event, tag: Tag)
    requires InLog(s) && s'.trace == s.trace + [Stamped(ev, tag)] && s'.unobserved == s.unobserved + [ev]
    ensures InLog(s')
  {
    hide Logged, InStep;
    StampLogs(s.trace, s.unobserved, ev, tag);
  }

  lemma StepLogs(s: Sys, step: Step)
    requires InLog(s) && Enabled(s, step)
    ensures InLog(Next(s, step))
  {
    hide InLog, DoObserve, DoCallback, DoRegister, Known, RemoveAt, RenameEvent;
    match step
    case Publish(ev) => StampStepLogs(s, Next(s, step), ev, External);
    case AcceptRename(key, from, startedAt) =>
      StampStepLogs(s, Next(s, step), RenameEvent(key, from, startedAt, RenameAccepted), Accept);
    case Register(i) => RegisterStepLogs(s, i);
    case ObserveOne(i) => ObserveStepLogs(s, i);
    case Elapse(_) => SameLog(s, Next(s, step));
    case Expire(_) => SameLog(s, Next(s, step));
    case RunCallback(t) => CallbackStepLogs(s, t);
    case StampVerdict(i) => StampStepLogs(s, Next(s, step), s.due[i].ev, VerdictOf(s.due[i].watch));
  }

  // ---- over every run ------------------------------------------------------

  /** Over every run, what was observed and what is waiting to be are together exactly what was stamped, and at no
      time was more observed than had been stamped. */
  lemma {:induction false} EveryRunInLog(ss: seq<Sys>, steps: seq<Step>, window: nat)
    requires IsRun(ss, steps, window)
    ensures Logged(ss[|steps|].trace, ss[|steps|].unobserved) && InStep(ss[|steps|].trace)
    decreases |steps|
  {
    hide Logged, InStep, Enabled, Next;
    var n := |steps|;
    if n == 0 {
      StartsLogged(window);
    } else {
      assert IsRun(ss[..n], steps[..n - 1], window);
      EveryRunInLog(ss[..n], steps[..n - 1], window);
      assert ss[..n][n - 1] == ss[n - 1];
      StepLogs(ss[n - 1], steps[n - 1]);
    }
  }

  lemma StartsLogged(window: nat)
    ensures InLog(Initial(window))
  {
  }

  lemma ObservedWasStamped(tr: seq<Act>, j: nat) returns (k: nat)
    requires InStep(tr) && j < |tr| && tr[j].Observed?
    ensures k < j && tr[k].Stamped? && tr[k].ev == tr[j].seen
  {
    hide Events;
    var prefix, ev := tr[..j + 1], tr[j].seen;
    assert prefix[j] == tr[j];
    EventsMember(prefix, Observing, ev);
    EventsMember(prefix, Stamping, ev);
    assert ev in EventOf(prefix[j], Observing);
    assert ev in multiset(Events(prefix, Observing));
    assert ev in multiset(Events(prefix, Stamping));
    k :| 0 <= k < |prefix| && ev in EventOf(prefix[k], Stamping);
    assert prefix[k] == tr[k];
  }

  /** Over every run, a verdict rests on the log. It is contested if and only if, after the registration and before the
      close, a creation was observed that had been stamped: on the watch's machine, of the old id, with the very start
      the rename was registered with. Every verdict that is not the deadline's follows a close of the new id that
      had been stamped. */
  lemma VerdictsRestOnTheLog(ss: seq<Sys>, steps: seq<Step>, window: nat, r: nat, v: nat)
    requires IsRun(ss, steps, window)
    requires var tr := ss[|steps|].trace; r < v < |tr| && tr[r].Registered? && tr[v].Verdict? && Explained(tr, r, v)
    ensures var tr := ss[|steps|].trace;
            && (tr[v].verdict == RenameContested <==>
                  && !tr[v - 1].Fired?
                  && exists j, k: nat :: k < j && r < j < v - 1 && tr[j].Observed? && tr[k].Stamped? && tr[k].ev == tr[j].seen
                       && tr[k].ev.kind == SessionCreated && tr[k].ev.machine == tr[r].key.machine
                       && tr[k].ev.payload.SessionPayload? && tr[k].ev.payload.id == tr[r].from
                       && tr[r].startedAt.Some? && tr[k].ev.payload.startedAt == tr[r].startedAt)
            && (!tr[v - 1].Fired? ==>
                  exists k: nat :: k < v - 1 && tr[k].Stamped? && tr[v - 1].Observed? && tr[k].ev == tr[v - 1].seen
                       && tr[k].ev.kind == SessionClosed && tr[k].ev.machine == tr[r].key.machine
                       && tr[k].ev.payload.StatePayload? && tr[k].ev.payload.ref == tr[r].key.to)
  {
    hide *;
    EveryRunInLog(ss, steps, window);
    var s := RunEnds(ss, steps, window);
    var tr := s.trace;
    VerdictMeaning(tr, r, v);
    if tr[v].verdict == RenameContested {
      var j :| r < j < v - 1 && tr[j].Observed?
               && tr[j].seen.kind == SessionCreated && tr[j].seen.machine == tr[r].key.machine
               && tr[j].seen.payload.SessionPayload? && tr[j].seen.payload.id == tr[r].from
               && tr[r].startedAt.Some? && tr[j].seen.payload.startedAt == tr[r].startedAt;
      var k := ObservedWasStamped(tr, j);
    }
    if !tr[v - 1].Fired? {
      var k := ObservedWasStamped(tr, v - 1);
    }
  }
}
