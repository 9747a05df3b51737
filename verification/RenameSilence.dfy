// Which rename watches never get a verdict (internal/service/rename_corroboration.go): exactly those that a
// later rename to the same machine and id replaced before they were decided.
module RenameSilence {
  import opened Fleet
  import opened RenameSpec
  import opened Seqs
  import opened RenameRuns

  /** Undecided, and no longer the watch its key names. */
  predicate Replaced(s: Sys, w: nat)
  {
    && w in s.watches && s.watches[w].decided.None?
    && s.watches[w].key in s.plane.pending && s.plane.pending[s.watches[w].key].timer != w
  }

  ghost predicate HasVerdict(s: Sys, w: nat)
  {
    exists v :: 0 <= v < |s.trace| && s.trace[v].Verdict? && s.trace[v].decided == w
  }

  ghost predicate IsAnnounced(s: Sys, w: nat)
  {
    exists k :: 0 <= k < |s.trace| && s.trace[k].Stamped? && s.trace[k].tag == VerdictOf(w)
  }

  /** The same machine and id were the target of a later rename. */
  ghost predicate RenamedAgain(tr: seq<Act>, r: nat)
    requires r < |tr| && tr[r].Registered?
  {
    exists q :: r < q < |tr| && tr[q].Registered? && tr[q].key == tr[r].key
  }

  // ---- one step ------------------------------------------------------------

  /** What a step does to the watches: none is forgotten, each key's current one stays unless it is replaced by
      one never seen before, and only a key's current one is decided. */
  predicate Moves(s: Sys, s': Sys)
  {
    && (forall w :: w in s.watches ==> w in s'.watches && s'.watches[w].key == s.watches[w].key)
    && (forall key :: key in s.plane.pending ==>
          && key in s'.plane.pending
          && (s'.plane.pending[key].timer == s.plane.pending[key].timer || s'.plane.pending[key].timer !in s.watches))
    && (forall w :: w in s.watches && s'.watches[w].decided != s.watches[w].decided ==>
          s.watches[w].key in s.plane.pending && s.plane.pending[s.watches[w].key].timer == w)
  }

  lemma MovesKeepsReplaced(s: Sys, s': Sys, w: nat)
    requires Moves(s, s') && Replaced(s, w)
    ensures Replaced(s', w)
  {
  }

  lemma NewTimers(s: Sys)
    requires Inv(s)
    ensures s.plane.nextTimer !in s.watches
    ensures forall key :: key in s.plane.pending ==>
              s.plane.pending[key].timer in s.watches && s.watches[s.plane.pending[key].timer].key == key
  {
    hide *;
    InvPieces(s);
    PendingKnown(s.trace, s.watches, s.plane.pending);
  }

  lemma RegisterMoves(s: Sys, i: nat)
    requires i < |s.requests| && s.plane.nextTimer !in s.watches
    ensures Moves(s, DoRegister(s, i))
  {
    hide Watchable, RemoveAt;
  }

  lemma DecideMoves(s: Sys, act: Act, plane: Plane, key: RenameKey, verdict: RenameVerdict)
    requires key in s.plane.pending && s.plane.pending[key].timer in s.watches
    requires s.watches[s.plane.pending[key].timer].key == key
    requires forall k :: k in s.plane.pending ==> k in plane.pending && plane.pending[k].timer == s.plane.pending[k].timer
    ensures Moves(s, Decide(s, act, plane, key, verdict))
  {
    hide VerdictEvent;
  }

  lemma ObserveTimersStay(p: Plane, ev: Event)
    ensures forall k :: k in p.pending ==> k in Observe(p, ev).pending && Observe(p, ev).pending[k].timer == p.pending[k].timer
  {
    hide IsRecreation, IsGap;
  }

  lemma ObserveMoves(s: Sys, i: nat)
    requires i < |s.unobserved| && Known(s)
    requires forall key :: key in s.plane.pending ==> s.watches[s.plane.pending[key].timer].key == key
    ensures Moves(s, DoObserve(s, i))
  {
    hide Decide, Observe, CloseVerdict, RemoveAt;
    var ev := s.unobserved[i];
    ObserveTimersStay(s.plane, ev);
    if ClosesWatch(s.plane, ev) {
      var rest := s.(unobserved := RemoveAt(s.unobserved, i));
      DecideMoves(rest, Observed(ev), Observe(s.plane, ev), CloseKey(ev), CloseVerdict(s.plane.pending[CloseKey(ev)]));
    }
  }

  lemma CallbackTimersStay(p: Plane, t: nat)
    requires t in p.fired
    ensures forall k :: k in p.pending ==> k in Callback(p, t).pending && Callback(p, t).pending[k].timer == p.pending[k].timer
  {
  }

  lemma CallbackMoves(s: Sys, t: nat)
    requires t in s.plane.fired && Known(s)
    requires forall key :: key in s.plane.pending ==> s.watches[s.plane.pending[key].timer].key == key
    ensures Moves(s, DoCallback(s, t))
  {
    hide Decide, Callback, DeadlineVerdict;
    CallbackTimersStay(s.plane, t);
    var key := s.plane.fired[t].key;
    if Undecided(s.plane, key) {
      DecideMoves(s, Fired(t), Callback(s.plane, t), key, DeadlineVerdict(s.plane.pending[key]));
    }
  }

  lemma StepMoves(s: Sys, step: Step)
    requires Inv(s) && Enabled(s, step)
    ensures Moves(s, Next(s, step))
  {
    hide *;
    NewTimers(s);
    NextIs(s, step);
    match step {
      case Register(i) => RegisterMoves(s, i);
      case ObserveOne(i) => ObserveMoves(s, i);
      case RunCallback(t) => CallbackMoves(s, t);
      case Publish(_) => OtherMoves(s, step);
      case AcceptRename(_, _, _) => OtherMoves(s, step);
      case Elapse(_) => OtherMoves(s, step);
      case Expire(_) => OtherMoves(s, step);
      case StampVerdict(_) => OtherMoves(s, step);
    }
  }

  lemma NextIs(s: Sys, step: Step)
    requires Enabled(s, step)
    ensures step.Register? ==> step.request < |s.requests| && Next(s, step) == DoRegister(s, step.request)
    ensures step.ObserveOne? ==> step.event < |s.unobserved| && Known(s) && Next(s, step) == DoObserve(s, step.event)
    ensures step.RunCallback? ==> step.fired in s.plane.fired && Known(s) && Next(s, step) == DoCallback(s, step.fired)
  {
    hide DoRegister, DoObserve, DoCallback, Known;
  }

  lemma OtherMoves(s: Sys, step: Step)
    requires Enabled(s, step) && !step.Register? && !step.ObserveOne? && !step.RunCallback?
    ensures Moves(s, Next(s, step))
  {
    hide Known;
  }

  /** Every step keeps a replaced watch replaced. */
  lemma ReplacedStays(s: Sys, step: Step, w: nat)
    requires Inv(s) && Enabled(s, step) && Replaced(s, w)
    ensures Replaced(Next(s, step), w)
  {
    hide *;
    StepMoves(s, step);
    MovesKeepsReplaced(s, Next(s, step), w);
  }

  lemma UndecidedIsSilent(s: Sys, w: nat)
    requires Inv(s) && w in s.watches
    ensures HasVerdict(s, w) <==> s.watches[w].decided.Some?
    ensures IsAnnounced(s, w) ==> HasVerdict(s, w)
  {
    hide WatchOk, LatestOk, Saw, Live, TimerOk, ArmedOk, DueOk;
    assert InfoOk(s.trace, w, s.watches[w]);
    forall v | 0 <= v < |s.trace| ensures ActOk(s.watches, v, s.trace[v]) {
    }
    if s.watches[w].decided.Some? {
      assert s.trace[s.watches[w].decided.value].Verdict?;
    }
  }

  // ---- every continuation --------------------------------------------------

  ghost predicate Follows(ss: seq<Sys>, steps: seq<Step>)
  {
    && |ss| == |steps| + 1
    && (forall i :: 0 <= i < |steps| ==> Enabled(ss[i], steps[i]) && ss[i + 1] == Next(ss[i], steps[i]))
  }

  /** Whatever happens from here on, the watch gets no verdict. */
  ghost predicate CutOff(s: Sys, w: nat)
  {
    forall ss, steps :: Follows(ss, steps) && ss[0] == s ==> !HasVerdict(ss[|steps|], w) && !IsAnnounced(ss[|steps|], w)
  }

  lemma {:induction false} ReplacedForever(ss: seq<Sys>, steps: seq<Step>, w: nat)
    requires Follows(ss, steps) && Inv(ss[0]) && Replaced(ss[0], w)
    ensures Inv(ss[|steps|]) && Replaced(ss[|steps|], w)
    decreases |steps|
  {
    hide Inv, Replaced, Enabled, Next;
    var n := |steps|;
    if n > 0 {
      assert Follows(ss[..n], steps[..n - 1]);
      ReplacedForever(ss[..n], steps[..n - 1], w);
      assert ss[..n][n - 1] == ss[n - 1];
      StepKeeps(ss[n - 1], steps[n - 1]);
      ReplacedStays(ss[n - 1], steps[n - 1], w);
    }
  }

  lemma ReplacedIsCutOff(s: Sys, w: nat)
    requires Inv(s) && Replaced(s, w)
    ensures CutOff(s, w)
  {
    hide Inv, Replaced, Enabled, Next, HasVerdict, IsAnnounced;
    forall ss, steps | Follows(ss, steps) && ss[0] == s
      ensures !HasVerdict(ss[|steps|], w) && !IsAnnounced(ss[|steps|], w)
    {
      ReplacedForever(ss, steps, w);
      ReplacedIs(ss[|steps|], w);
      UndecidedIsSilent(ss[|steps|], w);
    }
  }

  lemma ReplacedIs(s: Sys, w: nat)
    ensures Replaced(s, w) <==>
              && w in s.watches && s.watches[w].decided.None?
              && s.watches[w].key in s.plane.pending && s.plane.pending[s.watches[w].key].timer != w
  {
  }

  /** Nothing happening is a continuation. */
  lemma NotCutOffYet(s: Sys, w: nat)
    requires HasVerdict(s, w)
    ensures !CutOff(s, w)
  {
    hide HasVerdict, IsAnnounced;
    assert Follows([s], []) && [s][0] == s;
  }

  // ---- a current watch can still be decided --------------------------------

  lemma FollowOn(ss: seq<Sys>, steps: seq<Step>, step: Step) returns (ss': seq<Sys>, steps': seq<Step>)
    requires Follows(ss, steps) && Enabled(ss[|steps|], step)
    ensures Follows(ss', steps') && |ss'| == |steps'| + 1 && |steps'| == |steps| + 1
    ensures ss'[0] == ss[0] && ss'[|steps'|] == Next(ss[|steps|], step)
  {
    hide Enabled, Next;
    ss', steps' := ss + [Next(ss[|steps|], step)], steps + [step];
  }

  /** The callback under way decides its key's watch. */
  lemma CallbackGivesVerdict(s: Sys, t: nat, w: nat)
    requires Known(s) && t in s.plane.fired && Undecided(s.plane, s.plane.fired[t].key)
    requires s.plane.pending[s.plane.fired[t].key].timer == w
    ensures Enabled(s, RunCallback(t)) && HasVerdict(Next(s, RunCallback(t)), w)
  {
    CallbackDecides(s, t);
    hide Known, DoCallback, Undecided, Target;
    var tr := Next(s, RunCallback(t)).trace;
    assert tr[|s.trace| + 1].Verdict? && tr[|s.trace| + 1].decided == w;
  }

  /** Waiting makes an armed timer expire, and changes nothing else. */
  lemma TimerRunsOut(s: Sys, w: nat, ms: nat)
    requires w in s.plane.armed && s.plane.armed[w].due <= s.now + ms
    ensures Enabled(s, Elapse(ms)) && Enabled(Next(s, Elapse(ms)), Expire(w))
    ensures var s' := Next(Next(s, Elapse(ms)), Expire(w));
            && s'.plane.pending == s.plane.pending && s'.watches == s.watches
            && w in s'.plane.fired && s'.plane.fired[w] == s.plane.armed[w]
  {
  }

  lemma KnownStays(s: Sys, s': Sys)
    requires Known(s) && s'.plane.pending == s.plane.pending && s'.watches == s.watches
    ensures Known(s')
  {
  }

  lemma CurrentTimer(s: Sys, w: nat)
    requires Inv(s) && w in s.watches
    ensures w in s.plane.armed ==> s.plane.armed[w].key == s.watches[w].key
    ensures w in s.plane.fired ==> s.plane.fired[w].key == s.watches[w].key
  {
    hide TraceInv, PlaneInv, StampInv, RequestsOk, Live, ArmedOk;
    assert w in s.plane.armed ==> TimerOk(s.plane.window, s.watches, w, s.plane.armed[w]);
    assert w in s.plane.fired ==> TimerOk(s.plane.window, s.watches, w, s.plane.fired[w]);
  }

  lemma CurrentIsNotCutOff(s: Sys, w: nat)
    requires Inv(s) && Known(s) && w in s.watches && s.watches[w].decided.None?
    requires s.watches[w].key in s.plane.pending && s.plane.pending[s.watches[w].key].timer == w
    ensures !CutOff(s, w)
  {
    hide *;
    CurrentWatch(s, w);
    CurrentTimer(s, w);
    var ss, steps := [s], [];
    OneState(s);
    if w !in s.plane.fired {
      var due := s.plane.armed[w].due;
      var ms := if due > s.now then due - s.now else 0;
      TimerRunsOut(s, w, ms);
      ss, steps := FollowOn(ss, steps, Elapse(ms));
      ss, steps := FollowOn(ss, steps, Expire(w));
      KnownStays(s, ss[|steps|]);
      SameUndecided(s.plane, ss[|steps|].plane, s.watches[w].key);
    }
    CallbackGivesVerdict(ss[|steps|], w, w);
    ss, steps := FollowOn(ss, steps, RunCallback(w));
    CutOffMeans(s, w, ss, steps);
  }

  lemma OneState(s: Sys)
    ensures Follows([s], [])
  {
    hide Enabled, Next;
  }

  lemma SameUndecided(p: Plane, p': Plane, key: RenameKey)
    requires p'.pending == p.pending
    ensures Undecided(p', key) == Undecided(p, key)
  {
  }

  lemma CutOffMeans(s: Sys, w: nat, ss: seq<Sys>, steps: seq<Step>)
    requires |ss| == |steps| + 1 && Follows(ss, steps) && ss[0] == s && HasVerdict(ss[|steps|], w)
    ensures !CutOff(s, w)
  {
    hide HasVerdict, IsAnnounced, Follows;
  }

  // ---- over every run ------------------------------------------------------

  /** In a reachable state, replaced is: undecided, and its machine and id were renamed to again. */
  lemma ReplacedIffRenamedAgain(s: Sys, r: nat)
    requires Inv(s) && r < |s.trace| && s.trace[r].Registered?
    ensures s.trace[r].watch in s.watches
    ensures Replaced(s, s.trace[r].watch) <==> s.watches[s.trace[r].watch].decided.None? && RenamedAgain(s.trace, r)
  {
    hide *;
    var w := s.trace[r].watch;
    RegisteredInfo(s, r);
    WatchFacts(s, w);
    ReplacedIs(s, w);
    RenamedAgainIs(s.trace, r);
    if Replaced(s, w) {
      assert s.watches[s.plane.pending[s.watches[w].key].timer].reg > r;
    }
    if q :| r < q < |s.trace| && s.trace[q].Registered? && s.trace[q].key == s.trace[r].key {
      RegisteredInfo(s, q);
      WatchFacts(s, s.trace[q].watch);
    }
  }

  lemma RenamedAgainIs(tr: seq<Act>, r: nat)
    requires r < |tr| && tr[r].Registered?
    ensures RenamedAgain(tr, r) <==> exists q :: r < q < |tr| && tr[q].Registered? && tr[q].key == tr[r].key
  {
  }

  /** Over every run: a watch is cut off from a verdict, now and whatever follows, if and only if it has none and
      a later rename to its machine and id was registered. Until then its timer or its callback can still
      decide it. */
  lemma SilencedIff(ss: seq<Sys>, steps: seq<Step>, window: nat, r: nat)
    requires IsRun(ss, steps, window)
    requires var tr := ss[|steps|].trace; r < |tr| && tr[r].Registered?
    ensures var s := ss[|steps|];
            CutOff(s, s.trace[r].watch) <==> !HasVerdict(s, s.trace[r].watch) && RenamedAgain(s.trace, r)
  {
    hide *;
    var s := RunEnds(ss, steps, window);
    EveryRunKeepsInv(ss, steps, window);
    var w := s.trace[r].watch;
    ReplacedIffRenamedAgain(s, r);
    UndecidedIsSilent(s, w);
    WatchFacts(s, w);
    ReplacedIs(s, w);
    if HasVerdict(s, w) {
      NotCutOffYet(s, w);
    } else if Replaced(s, w) {
      ReplacedIsCutOff(s, w);
    } else {
      CurrentIsNotCutOff(s, w);
    }
  }

  /** Over every run: a watch replaced at some point has no verdict, and none is stamped for it, at the end. */
  lemma ReplacedNeverDecided(ss: seq<Sys>, steps: seq<Step>, window: nat, i: nat, w: nat)
    requires IsRun(ss, steps, window) && i <= |steps| && Replaced(ss[i], w)
    ensures Replaced(ss[|steps|], w) && !HasVerdict(ss[|steps|], w) && !IsAnnounced(ss[|steps|], w)
  {
    hide Inv, Replaced, HasVerdict, IsAnnounced, Enabled, Next;
    assert IsRun(ss[..i + 1], steps[..i], window);
    EveryRunKeepsInv(ss[..i + 1], steps[..i], window);
    assert ss[..i + 1][i] == ss[i];
    var tail, rest := ss[i..], steps[i..];
    assert Follows(tail, rest) by {
      forall j | 0 <= j < |rest| ensures Enabled(tail[j], rest[j]) && tail[j + 1] == Next(tail[j], rest[j]) {
        assert tail[j] == ss[i + j] && tail[j + 1] == ss[i + j + 1] && rest[j] == steps[i + j];
      }
    }
    ReplacedForever(tail, rest, w);
    assert tail[|rest|] == ss[|steps|];
    ReplacedIs(ss[|steps|], w);
    UndecidedIsSilent(ss[|steps|], w);
  }

  /** A run in which that happens: watch 0's callback is under way when a second rename to its id is registered. The
      callback decides watch 1, and watch 0 never gets a verdict. */
  lemma ReplacedWatchIsSilent(window: nat) returns (ss: seq<Sys>, steps: seq<Step>)
    ensures IsRun(ss, steps, window) && |ss| == |steps| + 1
    ensures var s := ss[|steps|];
            && HasVerdict(s, 1) && Replaced(s, 0) && !HasVerdict(s, 0) && CutOff(s, 0)
  {
    hide *;
    var key := RenameKey("m", "b");
    Letters(key);
    ss, steps := StaleCallbackUnderWay(window, key);
    var _ := RunEnds(ss, steps, window);
    EveryRunKeepsInv(ss, steps, window);
    WatchIsKeyed(ss[|steps|], key);
    ss, steps := ReplacedByAccept(ss, steps, window, key);
    var s := RunEnds(ss, steps, window);
    EveryRunKeepsInv(ss, steps, window);
    CallbackGivesVerdict(s, 0, 1);
    ReplacedStays(s, RunCallback(0), 0);
    ss, steps := Extend(ss, steps, window, RunCallback(0));
    var s' := RunEnds(ss, steps, window);
    EveryRunKeepsInv(ss, steps, window);
    ReplacedIs(s', 0);
    UndecidedIsSilent(s', 0);
    ReplacedIsCutOff(s', 0);
  }

  lemma Letters(key: RenameKey)
    requires key.to == "b"
    ensures Watchable("a", key.to) && Watchable("c", key.to)
  {
  }

  lemma WatchIsKeyed(s: Sys, key: RenameKey)
    requires Inv(s) && s.plane.pending.Keys == {key} && s.plane.pending[key].timer == 0 && s.watches.Keys == {0}
    ensures 0 in s.watches && s.watches[0].key == key
    ensures s.watches[0].decided.Some? <==> s.plane.pending[key].resolved
  {
    hide TraceInv, TimerInv, StampInv, RequestsOk, FlagsTrue, LatestOk;
    assert key in s.plane.pending && WatchOk(s.trace, s.watches, key, s.plane.pending[key]);
  }

  lemma ReplacedByAccept(ss: seq<Sys>, steps: seq<Step>, window: nat, key: RenameKey)
    returns (ss': seq<Sys>, steps': seq<Step>)
    requires IsRun(ss, steps, window) && |ss| == |steps| + 1 && Watchable("c", key.to)
    requires var s := ss[|steps|];
             && s.requests == [] && s.plane.nextTimer == 1 && s.watches.Keys == {0} && s.watches[0].key == key
             && 0 in s.plane.fired && s.plane.fired[0].key == key && s.watches[0].decided.None?
    ensures IsRun(ss', steps', window) && |ss'| == |steps'| + 1
    ensures var s := ss'[|steps'|];
            && Replaced(s, 0) && 0 in s.plane.fired && s.plane.fired[0].key == key
            && Undecided(s.plane, key) && s.plane.pending[key].timer == 1
  {
    hide IsRun;
    ss', steps' := Extend(ss, steps, window, AcceptRename(key, "c", None));
    var s := ss'[|steps'|];
    var _ := AfterRegister(s, key, "c");
    ss', steps' := Extend(ss', steps', window, Register(0));
    assert 0 in s.watches && Next(s, Register(0)).watches[0] == s.watches[0];
    var _ := RunEnds(ss', steps', window);
  }
}
