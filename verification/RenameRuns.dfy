// Every run of the rename plane. Each step is one critical section or one runtime event:
// publishers stamp and observe separately, so events may be observed in another order than
// they were stamped in; deadline callbacks may run late, after their watch was replaced.
module RenameRuns {
  import opened Fleet
  import opened RenameSpec
  import opened Seqs

  /** Why an event was stamped. */
  datatype Tag = External | Accept | VerdictOf(watch: nat)

  datatype Act =
    | Stamped(ev: Event, tag: Tag)
    | Registered(watch: nat, key: RenameKey, from: string, startedAt: Option<Time>, accepted: nat, at: Time)
    | Observed(seen: Event)
    | Fired(timer: nat)
    | Verdict(decided: nat, verdict: RenameVerdict, now: Time)

  /** A rename whose accept event is stamped and whose watch is not registered yet. */
  datatype Request = Request(key: RenameKey, from: string, startedAt: Option<Time>, accepted: nat)

  /** A verdict that is decided and not stamped yet. */
  datatype Due = Due(watch: nat, ev: Event)

  /** A watch ever registered, and where the trace registers it, decides it and stamps its verdict. */
  datatype Info = Info(key: RenameKey, from: string, startedAt: Option<Time>, accepted: nat, at: Time,
                       reg: nat, decided: Option<nat>, stamped: Option<nat>)

  datatype Sys = Sys(now: Time, plane: Plane, unobserved: seq<Event>, requests: seq<Request>, due: seq<Due>,
                     trace: seq<Act>, watches: map<nat, Info>)

  datatype Step =
    | Publish(ev: Event)
    | AcceptRename(key: RenameKey, from: string, startedAt: Option<Time>)
    | Register(request: nat)
    | ObserveOne(event: nat)
    | Elapse(ms: nat)
    | Expire(armed: nat)
    | RunCallback(fired: nat)
    | StampVerdict(verdict: nat)

  function Initial(window: nat): Sys
  {
    Sys(0, InitialPlane(window), [], [], [], [], map[])
  }

  /** Every pending watch was registered: true in every reachable state. */
  predicate Known(s: Sys)
  {
    forall key :: key in s.plane.pending ==> s.plane.pending[key].timer in s.watches
  }

  predicate Enabled(s: Sys, step: Step)
  {
    match step
    case Publish(_) => true
    case AcceptRename(_, _, _) => true
    case Register(i) => i < |s.requests|
    case ObserveOne(i) => i < |s.unobserved| && Known(s)
    case Elapse(_) => true
    case Expire(t) => t in s.plane.armed && s.plane.armed[t].due <= s.now
    case RunCallback(t) => t in s.plane.fired && Known(s)
    case StampVerdict(i) => i < |s.due| && s.due[i].watch in s.watches
  }

  function DoStamp(s: Sys, ev: Event, tag: Tag): Sys
  {
    s.(unobserved := s.unobserved + [ev], trace := s.trace + [Stamped(ev, tag)])
  }

  function DoRegister(s: Sys, i: nat): Sys
    requires i < |s.requests|
  {
    var r := s.requests[i];
    var rest := s.(requests := RemoveAt(s.requests, i));
    if !Watchable(r.from, r.key.to) then rest else
    var w := s.plane.nextTimer;
    rest.(plane := WatchRename(s.plane, r.key, r.from, r.startedAt, s.now),
          trace := s.trace + [Registered(w, r.key, r.from, r.startedAt, r.accepted, s.now)],
          watches := s.watches[w := Info(r.key, r.from, r.startedAt, r.accepted, s.now, |s.trace|, None, None)])
  }

  /** Record the act that decides the key's watch, the decision, and the event to stamp. */
  function Decide(s: Sys, act: Act, plane: Plane, key: RenameKey, verdict: RenameVerdict): Sys
    requires key in s.plane.pending && s.plane.pending[key].timer in s.watches
  {
    var w := s.plane.pending[key].timer;
    s.(plane := plane,
       trace := s.trace + [act, Verdict(w, verdict, s.now)],
       watches := s.watches[w := s.watches[w].(decided := Some(|s.trace| + 1))],
       due := s.due + [Due(w, VerdictEvent(s.plane, key, verdict))])
  }

  function DoObserve(s: Sys, i: nat): Sys
    requires i < |s.unobserved| && Known(s)
  {
    var ev := s.unobserved[i];
    var rest := s.(unobserved := RemoveAt(s.unobserved, i));
    if ClosesWatch(s.plane, ev) then
      Decide(rest, Observed(ev), Observe(s.plane, ev), CloseKey(ev), CloseVerdict(s.plane.pending[CloseKey(ev)]))
    else rest.(plane := Observe(s.plane, ev), trace := s.trace + [Observed(ev)])
  }

  function DoCallback(s: Sys, t: nat): Sys
    requires t in s.plane.fired && Known(s)
  {
    var key := s.plane.fired[t].key;
    if Undecided(s.plane, key) then
      Decide(s, Fired(t), Callback(s.plane, t), key, DeadlineVerdict(s.plane.pending[key]))
    else s.(plane := Callback(s.plane, t), trace := s.trace + [Fired(t)])
  }

  function Next(s: Sys, step: Step): Sys
    requires Enabled(s, step)
  {
    match step
    case Publish(ev) => DoStamp(s, ev, External)
    case AcceptRename(key, from, startedAt) =>
      DoStamp(s, RenameEvent(key, from, startedAt, RenameAccepted), Accept)
        .(requests := s.requests + [Request(key, from, startedAt, |s.trace|)])
    case Register(i) => DoRegister(s, i)
    case ObserveOne(i) => DoObserve(s, i)
    case Elapse(ms) => s.(now := s.now + ms)
    case Expire(t) => s.(plane := RenameSpec.Expire(s.plane, t))
    case RunCallback(t) => DoCallback(s, t)
    case StampVerdict(i) =>
      DoStamp(s, s.due[i].ev, VerdictOf(s.due[i].watch))
        .(due := RemoveAt(s.due, i),
          watches := s.watches[s.due[i].watch := s.watches[s.due[i].watch].(stamped := Some(|s.trace|))])
  }

  // ---- what the trace says ------------------------------------------------

  /** Some act strictly between lo and hi satisfies q. */
  ghost predicate Saw(tr: seq<Act>, lo: nat, hi: nat, q: Act -> bool)
    requires hi <= |tr|
  {
    exists j :: lo < j < hi && q(tr[j])
  }

  function Recreates(a: Act): Act -> bool
    requires a.Registered?
  {
    (b: Act) => b.Observed? && IsRecreation(b.seen, a.key.machine, a.from, a.startedAt)
  }

  function Closes(a: Act): Act -> bool
    requires a.Registered?
  {
    (b: Act) => b.Observed? && IsClose(b.seen, a.key)
  }

  function Gaps(a: Act): Act -> bool
    requires a.Registered?
  {
    (b: Act) => b.Observed? && IsGap(b.seen, a.key.machine)
  }

  lemma SawSnoc(tr: seq<Act>, lo: nat, b: Act, q: Act -> bool)
    requires lo < |tr|
    ensures Saw(tr + [b], lo, |tr| + 1, q) <==> Saw(tr, lo, |tr|, q) || q(b)
  {
    var tr' := tr + [b];
    assert tr'[|tr|] == b;
    if Saw(tr, lo, |tr|, q) {
      var j :| lo < j < |tr| && q(tr[j]);
      assert q(tr'[j]);
    }
    if Saw(tr', lo, |tr| + 1, q) {
      var j :| lo < j < |tr| + 1 && q(tr'[j]);
      assert j < |tr| ==> q(tr[j]);
    }
  }

  lemma SawStable(tr: seq<Act>, ext: seq<Act>, lo: nat, hi: nat, q: Act -> bool)
    requires hi <= |tr|
    ensures Saw(tr + ext, lo, hi, q) <==> Saw(tr, lo, hi, q)
  {
    var tr' := tr + ext;
    if Saw(tr, lo, hi, q) {
      var j :| lo < j < hi && q(tr[j]);
      assert q(tr'[j]);
    }
    if Saw(tr', lo, hi, q) {
      var j :| lo < j < hi && q(tr'[j]);
      assert q(tr[j]);
    }
  }

  /** The verdict at v, on the watch registered at r, is the one the trace between them calls for. It
      follows the watch's first close, or a deadline callback before any close. */
  ghost predicate Explained(tr: seq<Act>, r: nat, v: nat)
  {
    && r + 1 < v < |tr| && tr[r].Registered? && tr[v].Verdict? && tr[v].decided == tr[r].watch
    && !Saw(tr, r, v - 1, Closes(tr[r]))
    && ((Closes(tr[r])(tr[v - 1])
         && tr[v].verdict == if Saw(tr, r, v - 1, Recreates(tr[r])) then RenameContested else RenameUnconfirmed)
        || (tr[v - 1].Fired?
            && tr[v].verdict == if Saw(tr, r, v - 1, Gaps(tr[r])) then RenameUnconfirmed else RenameCorroborated))
  }

  lemma ExplainedStable(tr: seq<Act>, ext: seq<Act>, r: nat, v: nat)
    requires Explained(tr, r, v)
    ensures Explained(tr + ext, r, v)
  {
    SawStable(tr, ext, r, v - 1, Closes(tr[r]));
    SawStable(tr, ext, r, v - 1, Recreates(tr[r]));
    SawStable(tr, ext, r, v - 1, Gaps(tr[r]));
  }

  // ---- invariants ---------------------------------------------------------

  predicate IsAccept(tr: seq<Act>, i: nat, key: RenameKey, from: string, startedAt: Option<Time>)
  {
    i < |tr| && tr[i] == Stamped(RenameEvent(key, from, startedAt, RenameAccepted), Accept)
  }

  /** What the trace holds about a registered watch. */
  ghost predicate InfoOk(tr: seq<Act>, w: nat, i: Info)
  {
    && i.reg < |tr| && tr[i.reg] == Registered(w, i.key, i.from, i.startedAt, i.accepted, i.at)
    && i.accepted < i.reg && IsAccept(tr, i.accepted, i.key, i.from, i.startedAt)
    && (i.decided.Some? ==> Explained(tr, i.reg, i.decided.value))
    && (i.stamped.Some? ==>
          && i.decided.Some? && i.decided.value < i.stamped.value < |tr|
          && tr[i.stamped.value] == Stamped(Announcement(tr, i), VerdictOf(w)))
  }

  /** The event that announces a decision. */
  function Announcement(tr: seq<Act>, i: Info): Event
    requires i.decided.Some? && i.decided.value < |tr| && tr[i.decided.value].Verdict?
  {
    RenameEvent(i.key, i.from, i.startedAt, tr[i.decided.value].verdict)
  }

  /** Registrations, verdicts and stamped verdicts are each recorded at the one place they happen. */
  predicate ActOk(watches: map<nat, Info>, k: nat, a: Act)
  {
    match a
    case Registered(w, _, _, _, _, _) => w in watches && watches[w].reg == k
    case Verdict(w, _, _) => w in watches && watches[w].decided == Some(k)
    case Stamped(_, VerdictOf(w)) => w in watches && watches[w].stamped == Some(k)
    case _ => true
  }

  /** A pending watch is a registered one, and its flags say what was observed since. */
  ghost predicate WatchOk(tr: seq<Act>, watches: map<nat, Info>, key: RenameKey, p: Watch)
  {
    && p.timer in watches
    && var i := watches[p.timer];
    && i.key == key && i.from == p.from && i.startedAt == p.startedAt
    && (p.resolved <==> i.decided.Some?)
    && (!p.resolved ==> FlagsTrue(tr, i, p))
  }

  ghost predicate FlagsTrue(tr: seq<Act>, i: Info, p: Watch)
  {
    && i.reg < |tr| && tr[i.reg].Registered?
    && p.sawFromRecreated == Saw(tr, i.reg, |tr|, Recreates(tr[i.reg]))
    && p.gapObserved == Saw(tr, i.reg, |tr|, Gaps(tr[i.reg]))
    && !Saw(tr, i.reg, |tr|, Closes(tr[i.reg]))
  }

  /** Each key's current watch is the one registered for it last. */
  predicate LatestOk(pending: map<RenameKey, Watch>, watches: map<nat, Info>, w: nat)
    requires w in watches
  {
    var key := watches[w].key;
    key in pending && pending[key].timer in watches && watches[w].reg <= watches[pending[key].timer].reg
  }

  predicate TimerOk(window: nat, watches: map<nat, Info>, t: nat, timer: Timer)
  {
    t in watches && timer == Timer(watches[t].key, watches[t].at + window)
  }

  predicate ArmedOk(pending: map<RenameKey, Watch>, t: nat, timer: Timer)
  {
    timer.key in pending && pending[timer.key].timer == t && !pending[timer.key].resolved
  }

  predicate Live(p: Plane, w: Watch)
  {
    !w.resolved ==> w.timer in p.armed || w.timer in p.fired
  }

  predicate DueOk(tr: seq<Act>, watches: map<nat, Info>, d: Due)
  {
    && d.watch in watches
    && var i := watches[d.watch];
    && i.decided.Some? && i.stamped.None? && i.decided.value < |tr| && tr[i.decided.value].Verdict?
    && d.ev == Announcement(tr, i)
  }

  predicate InDue(due: seq<Due>, w: nat)
  {
    exists j :: 0 <= j < |due| && due[j].watch == w
  }

  ghost predicate TraceInv(tr: seq<Act>, watches: map<nat, Info>, next: nat)
  {
    && (forall w :: w in watches ==> w < next && InfoOk(tr, w, watches[w]))
    && (forall k :: 0 <= k < |tr| ==> ActOk(watches, k, tr[k]))
  }

  predicate RequestsOk(tr: seq<Act>, requests: seq<Request>)
  {
    forall i :: 0 <= i < |requests| ==>
      IsAccept(tr, requests[i].accepted, requests[i].key, requests[i].from, requests[i].startedAt)
  }

  ghost predicate PlaneInv(tr: seq<Act>, watches: map<nat, Info>, pending: map<RenameKey, Watch>)
  {
    && (forall key :: key in pending ==> WatchOk(tr, watches, key, pending[key]))
    && (forall w :: w in watches ==> LatestOk(pending, watches, w))
  }

  ghost predicate TimerInv(p: Plane, watches: map<nat, Info>, now: Time)
  {
    && (forall t :: t in p.armed ==> TimerOk(p.window, watches, t, p.armed[t]) && ArmedOk(p.pending, t, p.armed[t]))
    && (forall t :: t in p.fired ==> TimerOk(p.window, watches, t, p.fired[t]) && p.fired[t].due <= now)
    && (forall key :: key in p.pending ==> Live(p, p.pending[key]))
  }

  /** Every decided verdict is waiting to be stamped or has been, never both, never twice. */
  ghost predicate StampInv(tr: seq<Act>, watches: map<nat, Info>, due: seq<Due>)
  {
    && (forall i :: 0 <= i < |due| ==> DueOk(tr, watches, due[i]))
    && (forall i, j :: 0 <= i < j < |due| ==> due[i].watch != due[j].watch)
    && (forall w :: w in watches && watches[w].decided.Some? && watches[w].stamped.None? ==> InDue(due, w))
  }

  ghost predicate Inv(s: Sys)
  {
    && TraceInv(s.trace, s.watches, s.plane.nextTimer)
    && RequestsOk(s.trace, s.requests)
    && PlaneInv(s.trace, s.watches, s.plane.pending)
    && TimerInv(s.plane, s.watches, s.now)
    && StampInv(s.trace, s.watches, s.due)
  }

  lemma InitialInv(window: nat)
    ensures Inv(Initial(window))
  {
  }

  // ---- how each invariant survives ----------------------------------------

  lemma InfoGrows(tr: seq<Act>, ext: seq<Act>, w: nat, i: Info)
    requires InfoOk(tr, w, i)
    ensures InfoOk(tr + ext, w, i)
  {
    if i.decided.Some? {
      ExplainedStable(tr, ext, i.reg, i.decided.value);
    }
  }

  /** One more act: a watch's flags stay true if they move as the act says. */
  lemma FlagsGrow(tr: seq<Act>, b: Act, i: Info, p: Watch, p': Watch)
    requires FlagsTrue(tr, i, p)
    requires p'.sawFromRecreated == (p.sawFromRecreated || Recreates(tr[i.reg])(b))
    requires p'.gapObserved == (p.gapObserved || Gaps(tr[i.reg])(b))
    requires !Closes(tr[i.reg])(b)
    ensures FlagsTrue(tr + [b], i, p')
  {
    SawSnoc(tr, i.reg, b, Recreates(tr[i.reg]));
    SawSnoc(tr, i.reg, b, Gaps(tr[i.reg]));
    SawSnoc(tr, i.reg, b, Closes(tr[i.reg]));
  }

  /** The same watches, up to where their verdict was stamped. */
  predicate Agree(watches: map<nat, Info>, watches': map<nat, Info>)
  {
    && watches'.Keys == watches.Keys
    && forall w :: w in watches ==> watches'[w].(stamped := None) == watches[w].(stamped := None)
  }

  lemma TraceGrows(tr: seq<Act>, watches: map<nat, Info>, next: nat, b: Act)
    requires TraceInv(tr, watches, next) && ActOk(watches, |tr|, b)
    ensures TraceInv(tr + [b], watches, next)
  {
    forall w | w in watches ensures InfoOk(tr + [b], w, watches[w]) {
      InfoGrows(tr, [b], w, watches[w]);
    }
  }

  /** An act that is no observation leaves every watch's account as it was. */
  lemma PlaneGrows(tr: seq<Act>, watches: map<nat, Info>, pending: map<RenameKey, Watch>, b: Act, watches': map<nat, Info>)
    requires PlaneInv(tr, watches, pending) && !b.Observed? && Agree(watches, watches')
    ensures PlaneInv(tr + [b], watches', pending)
  {
    forall key | key in pending ensures WatchOk(tr + [b], watches', key, pending[key]) {
      var p := pending[key];
      assert WatchOk(tr, watches, key, p);
      if !p.resolved {
        FlagsGrow(tr, b, watches[p.timer], p, p);
        assert FlagsTrue(tr + [b], watches'[p.timer], p);
      }
    }
    forall w | w in watches' ensures LatestOk(pending, watches', w) {
      assert LatestOk(pending, watches, w);
    }
  }

  lemma StampGrows(tr: seq<Act>, watches: map<nat, Info>, due: seq<Due>, b: Act)
    requires StampInv(tr, watches, due)
    ensures StampInv(tr + [b], watches, due)
  {
    forall i | 0 <= i < |due| ensures DueOk(tr + [b], watches, due[i]) {
      assert DueOk(tr, watches, due[i]);
    }
  }

  /** Acts that are no registration, verdict, stamped verdict or observation change nothing that is kept. */
  lemma QuietAct(s: Sys, b: Act)
    requires Inv(s) && !b.Registered? && !b.Verdict? && !b.Observed? && !(b.Stamped? && b.tag.VerdictOf?)
    ensures Inv(s.(trace := s.trace + [b]))
  {
    TraceGrows(s.trace, s.watches, s.plane.nextTimer, b);
    PlaneGrows(s.trace, s.watches, s.plane.pending, b, s.watches);
    StampGrows(s.trace, s.watches, s.due, b);
  }

  // ---- one step at a time -------------------------------------------------

  lemma ElapseKeeps(s: Sys, ms: nat)
    requires Inv(s)
    ensures Inv(Next(s, Elapse(ms)))
  {
  }

  lemma PublishKeeps(s: Sys, ev: Event)
    requires Inv(s)
    ensures Inv(Next(s, Publish(ev)))
  {
    QuietAct(s, Stamped(ev, External));
  }

  lemma AcceptKeeps(s: Sys, key: RenameKey, from: string, startedAt: Option<Time>)
    requires Inv(s)
    ensures Inv(Next(s, AcceptRename(key, from, startedAt)))
  {
    var ev := RenameEvent(key, from, startedAt, RenameAccepted);
    QuietAct(s, Stamped(ev, Accept));
    var s' := Next(s, AcceptRename(key, from, startedAt));
    assert RequestsOk(s'.trace, s'.requests);
  }

  lemma ExpireKeeps(s: Sys, t: nat)
    requires TimerInv(s.plane, s.watches, s.now) && Enabled(s, Expire(t))
    ensures TimerInv(RenameSpec.Expire(s.plane, t), s.watches, s.now)
  {
    var p' := RenameSpec.Expire(s.plane, t);
    forall key | key in p'.pending ensures Live(p', p'.pending[key]) {
      assert Live(s.plane, s.plane.pending[key]);
    }
  }

  /** Recording where a watch's verdict is stamped. */
  lemma TraceStamped(tr: seq<Act>, watches: map<nat, Info>, next: nat, w: nat, ev: Event)
    requires TraceInv(tr, watches, next) && w in watches
    requires watches[w].decided.Some? && watches[w].stamped.None? && ev == Announcement(tr, watches[w])
    ensures TraceInv(tr + [Stamped(ev, VerdictOf(w))], watches[w := watches[w].(stamped := Some(|tr|))], next)
  {
    var b := Stamped(ev, VerdictOf(w));
    var watches' := watches[w := watches[w].(stamped := Some(|tr|))];
    forall v | v in watches' ensures InfoOk(tr + [b], v, watches'[v]) {
      InfoGrows(tr, [b], v, watches[v]);
    }
    forall k | 0 <= k < |tr| ensures ActOk(watches', k, tr[k]) {
      assert ActOk(watches, k, tr[k]);
    }
  }

  lemma InDueWithout(due: seq<Due>, i: nat, w: nat)
    requires i < |due| && InDue(due, w) && due[i].watch != w
    ensures InDue(RemoveAt(due, i), w)
  {
    var j :| 0 <= j < |due| && due[j].watch == w;
    assert RemoveAt(due, i)[if j < i then j else j - 1] == due[j];
  }

  /** A verdict that was due is stamped and leaves the queue. */
  lemma DueStamped(tr: seq<Act>, watches: map<nat, Info>, due: seq<Due>, i: nat, b: Act)
    requires StampInv(tr, watches, due) && i < |due| && due[i].watch in watches
    ensures var w := due[i].watch;
            StampInv(tr + [b], watches[w := watches[w].(stamped := Some(|tr|))], RemoveAt(due, i))
  {
    var w := due[i].watch;
    var watches' := watches[w := watches[w].(stamped := Some(|tr|))];
    var rest := RemoveAt(due, i);
    forall j | 0 <= j < |rest| ensures DueOk(tr + [b], watches', rest[j]) {
      assert rest[j] == due[if j < i then j else j + 1];
      assert DueOk(tr, watches, due[if j < i then j else j + 1]);
    }
    forall v | v in watches' && watches'[v].decided.Some? && watches'[v].stamped.None? ensures InDue(rest, v) {
      InDueWithout(due, i, v);
    }
  }

  lemma StampVerdictKeeps(s: Sys, i: nat)
    requires Inv(s) && Enabled(s, StampVerdict(i))
    ensures Inv(Next(s, StampVerdict(i)))
  {
    hide InfoOk, Explained, FlagsTrue, WatchOk, LatestOk;
    var d := s.due[i];
    var b := Stamped(d.ev, VerdictOf(d.watch));
    var watches' := s.watches[d.watch := s.watches[d.watch].(stamped := Some(|s.trace|))];
    assert DueOk(s.trace, s.watches, d);
    TraceStamped(s.trace, s.watches, s.plane.nextTimer, d.watch, d.ev);
    PlaneGrows(s.trace, s.watches, s.plane.pending, b, watches');
    DueStamped(s.trace, s.watches, s.due, i, b);
    TimersAgree(s.plane, s.watches, watches', s.now);
    var s' := Next(s, StampVerdict(i));
    assert s'.trace == s.trace + [b] && s'.watches == watches' && s'.requests == s.requests;
    assert RequestsOk(s'.trace, s'.requests);
  }

  lemma TimersAgree(p: Plane, watches: map<nat, Info>, watches': map<nat, Info>, now: Time)
    requires TimerInv(p, watches, now)
    requires forall w :: w in watches ==> w in watches' && watches'[w].key == watches[w].key && watches'[w].at == watches[w].at
    ensures TimerInv(p, watches', now)
  {
  }

  // registering

  lemma RegisterTrace(tr: seq<Act>, watches: map<nat, Info>, w: nat, i: Info)
    requires TraceInv(tr, watches, w)
    requires i.reg == |tr| && i.decided.None? && i.stamped.None?
    requires IsAccept(tr, i.accepted, i.key, i.from, i.startedAt)
    ensures TraceInv(tr + [Registered(w, i.key, i.from, i.startedAt, i.accepted, i.at)], watches[w := i], w + 1)
  {
    var b := Registered(w, i.key, i.from, i.startedAt, i.accepted, i.at);
    var watches' := watches[w := i];
    forall v | v in watches' ensures InfoOk(tr + [b], v, watches'[v]) {
      if v != w {
        InfoGrows(tr, [b], v, watches[v]);
      }
    }
    forall k | 0 <= k < |tr| ensures ActOk(watches', k, tr[k]) {
      assert ActOk(watches, k, tr[k]);
    }
  }

  lemma FreshFlags(tr: seq<Act>, b: Act, i: Info, p: Watch)
    requires b.Registered? && i.reg == |tr| && !p.sawFromRecreated && !p.gapObserved
    ensures FlagsTrue(tr + [b], i, p)
  {
  }

  lemma RegisterPlane(tr: seq<Act>, watches: map<nat, Info>, pending: map<RenameKey, Watch>, w: nat, i: Info, b: Act)
    requires PlaneInv(tr, watches, pending) && w !in watches && b.Registered?
    requires i.reg == |tr| && i.decided.None?
    requires forall v :: v in watches ==> watches[v].reg < |tr|
    ensures PlaneInv(tr + [b], watches[w := i], pending[i.key := Watch(i.from, i.startedAt, false, false, false, w)])
  {
    var watches', pending' := watches[w := i], pending[i.key := Watch(i.from, i.startedAt, false, false, false, w)];
    FreshFlags(tr, b, i, pending'[i.key]);
    forall key | key in pending' ensures WatchOk(tr + [b], watches', key, pending'[key]) {
      if key != i.key {
        var p := pending[key];
        assert WatchOk(tr, watches, key, p);
        if !p.resolved {
          FlagsGrow(tr, b, watches[p.timer], p, p);
        }
      }
    }
    forall v | v in watches' ensures LatestOk(pending', watches', v) {
      if v != w {
        assert LatestOk(pending, watches, v);
        var key := watches[v].key;
        assert WatchOk(tr, watches, key, pending[key]);
      }
    }
  }

  lemma RegisterTimers(p: Plane, watches: map<nat, Info>, now: Time, i: Info)
    requires TimerInv(p, watches, now)
    requires forall key :: key in p.pending ==> p.pending[key].timer in watches && watches[p.pending[key].timer].key == key
    requires p.nextTimer !in watches && i.at == now && Watchable(i.from, i.key.to)
    ensures TimerInv(WatchRename(p, i.key, i.from, i.startedAt, now), watches[p.nextTimer := i], now)
  {
    var p', w := WatchRename(p, i.key, i.from, i.startedAt, now), p.nextTimer;
    var watches' := watches[w := i];
    forall t | t in p'.armed
      ensures TimerOk(p.window, watches', t, p'.armed[t]) && ArmedOk(p'.pending, t, p'.armed[t])
    {
      if t != w {
        assert t in p.armed && ArmedOk(p.pending, t, p.armed[t]);
      }
    }
    forall t | t in p'.fired ensures TimerOk(p.window, watches', t, p'.fired[t]) {
      assert TimerOk(p.window, watches, t, p.fired[t]);
    }
    forall key | key in p'.pending ensures Live(p', p'.pending[key]) {
      if key != i.key {
        assert Live(p, p.pending[key]);
      }
    }
  }

  lemma RegisterStamps(tr: seq<Act>, watches: map<nat, Info>, due: seq<Due>, b: Act, w: nat, i: Info)
    requires StampInv(tr, watches, due) && w !in watches && i.decided.None?
    ensures StampInv(tr + [b], watches[w := i], due)
  {
    forall j | 0 <= j < |due| ensures DueOk(tr + [b], watches[w := i], due[j]) {
      assert DueOk(tr, watches, due[j]);
    }
  }

  lemma PendingKnown(tr: seq<Act>, watches: map<nat, Info>, pending: map<RenameKey, Watch>)
    requires PlaneInv(tr, watches, pending)
    ensures forall key :: key in pending ==> pending[key].timer in watches && watches[pending[key].timer].key == key
  {
    forall key | key in pending ensures pending[key].timer in watches && watches[pending[key].timer].key == key {
      assert WatchOk(tr, watches, key, pending[key]);
    }
  }

  lemma RegisterKeeps(s: Sys, n: nat)
    requires Inv(s) && Enabled(s, Register(n))
    ensures Inv(Next(s, Register(n)))
  {
    InvPieces(s);
    PendingKnown(s.trace, s.watches, s.plane.pending);
    var r := s.requests[n];
    var s' := Next(s, Register(n));
    if Watchable(r.from, r.key.to) {
      var w := s.plane.nextTimer;
      var i := Info(r.key, r.from, r.startedAt, r.accepted, s.now, |s.trace|, None, None);
      var b := Registered(w, r.key, r.from, r.startedAt, r.accepted, s.now);
      RegisterShape(s, n, w, i, b);
      hide *;
      assert TraceInv(s'.trace, s'.watches, s'.plane.nextTimer) by {
        RegisterTrace(s.trace, s.watches, w, i);
      }
      assert PlaneInv(s'.trace, s'.watches, s'.plane.pending) by {
        RegisterPlane(s.trace, s.watches, s.plane.pending, w, i, b);
      }
      assert TimerInv(s'.plane, s'.watches, s'.now) by {
        RegisterTimers(s.plane, s.watches, s.now, i);
      }
      assert StampInv(s'.trace, s'.watches, s'.due) by {
        RegisterStamps(s.trace, s.watches, s.due, b, w, i);
      }
      InvParts(s');
    }
  }

  /** A registration, field by field. */
  lemma RegisterShape(s: Sys, n: nat, w: nat, i: Info, b: Act)
    requires Inv(s) && n < |s.requests| && Watchable(s.requests[n].from, s.requests[n].key.to)
    requires var r := s.requests[n];
             && w == s.plane.nextTimer
             && i == Info(r.key, r.from, r.startedAt, r.accepted, s.now, |s.trace|, None, None)
             && b == Registered(w, r.key, r.from, r.startedAt, r.accepted, s.now)
    ensures var s' := DoRegister(s, n);
            && s'.trace == s.trace + [b] && s'.watches == s.watches[w := i] && s'.due == s.due && s'.now == s.now
            && s'.plane == WatchRename(s.plane, i.key, i.from, i.startedAt, s.now)
            && s'.plane.pending == s.plane.pending[i.key := Watch(i.from, i.startedAt, false, false, false, w)]
            && s'.plane.nextTimer == w + 1
            && RequestsOk(s'.trace, s'.requests)
    ensures IsAccept(s.trace, i.accepted, i.key, i.from, i.startedAt)
    ensures forall v :: v in s.watches ==> s.watches[v].reg < |s.trace|
    ensures w !in s.watches
  {
    assert forall v :: v in s.watches ==> InfoOk(s.trace, v, s.watches[v]);
    hide PlaneInv, TimerInv, StampInv, Explained;
  }

  // observing

  /** A watch's account after one more act, whatever the act does to its flags. */
  lemma WatchGrows(tr: seq<Act>, watches: map<nat, Info>, key: RenameKey, p: Watch, b: Act,
                   watches': map<nat, Info>, p': Watch)
    requires WatchOk(tr, watches, key, p)
    requires p.timer in watches' && watches'[p.timer] == watches[p.timer]
    requires InfoOk(tr, p.timer, watches[p.timer])
    requires p' == p.(sawFromRecreated := p'.sawFromRecreated, gapObserved := p'.gapObserved)
    requires !p.resolved ==>
      var a := tr[watches[p.timer].reg];
      && p'.sawFromRecreated == (p.sawFromRecreated || Recreates(a)(b))
      && p'.gapObserved == (p.gapObserved || Gaps(a)(b))
      && !Closes(a)(b)
    ensures WatchOk(tr + [b], watches', key, p')
  {
    if !p.resolved {
      FlagsGrow(tr, b, watches[p.timer], p, p');
    }
  }

  /** Observing an event that closes no watch sets exactly the flags the event calls for. */
  lemma ObserveWatch(tr: seq<Act>, watches: map<nat, Info>, p: Plane, ev: Event, key: RenameKey)
    requires key in p.pending && WatchOk(tr, watches, key, p.pending[key]) && !ClosesWatch(p, ev)
    requires InfoOk(tr, p.pending[key].timer, watches[p.pending[key].timer])
    ensures key in Observe(p, ev).pending
    ensures WatchOk(tr + [Observed(ev)], watches, key, Observe(p, ev).pending[key])
  {
    var q, q' := p.pending[key], Observe(p, ev).pending[key];
    assert ev.payload.StatePayload? && IsClose(ev, key) ==> CloseKey(ev) == key;
    WatchGrows(tr, watches, key, q, Observed(ev), watches, q');
  }

  lemma ObserveShape(p: Plane, ev: Event)
    requires !ClosesWatch(p, ev)
    ensures var p' := Observe(p, ev);
            && p'.pending.Keys == p.pending.Keys
            && (forall key :: key in p.pending ==> p'.pending[key].timer == p.pending[key].timer)
  {
  }

  lemma ObservePlane(tr: seq<Act>, watches: map<nat, Info>, p: Plane, ev: Event)
    requires PlaneInv(tr, watches, p.pending) && !ClosesWatch(p, ev)
    requires forall w :: w in watches ==> InfoOk(tr, w, watches[w])
    ensures PlaneInv(tr + [Observed(ev)], watches, Observe(p, ev).pending)
  {
    ObserveShape(p, ev);
    PendingKnown(tr, watches, p.pending);
    hide InfoOk, WatchOk, Observe, ClosesWatch;
    var pending' := Observe(p, ev).pending;
    forall key | key in pending' ensures WatchOk(tr + [Observed(ev)], watches, key, pending'[key]) {
      ObserveWatch(tr, watches, p, ev, key);
    }
    forall w | w in watches ensures LatestOk(pending', watches, w) {
      assert LatestOk(p.pending, watches, w);
    }
  }

  lemma ObserveTimers(p: Plane, watches: map<nat, Info>, now: Time, ev: Event)
    requires TimerInv(p, watches, now) && !ClosesWatch(p, ev)
    ensures TimerInv(Observe(p, ev), watches, now)
  {
    var p' := Observe(p, ev);
    forall t | t in p'.armed ensures ArmedOk(p'.pending, t, p'.armed[t]) {
      assert ArmedOk(p.pending, t, p.armed[t]);
    }
    forall key | key in p'.pending ensures Live(p', p'.pending[key]) {
      assert Live(p, p.pending[key]);
    }
  }

  // deciding

  /** The verdict the code reaches from the flags is the one the trace calls for. */
  lemma NewVerdictExplained(tr: seq<Act>, watches: map<nat, Info>, pending: map<RenameKey, Watch>, key: RenameKey,
                            b: Act, v: Act)
    requires PlaneInv(tr, watches, pending) && key in pending && !pending[key].resolved
    requires pending[key].timer in watches && InfoOk(tr, pending[key].timer, watches[pending[key].timer])
    requires b.Fired? || (b.Observed? && IsClose(b.seen, key))
    requires v.Verdict? && v.decided == pending[key].timer
    requires v.verdict == if b.Observed? then CloseVerdict(pending[key]) else DeadlineVerdict(pending[key])
    ensures Explained(tr + [b, v], watches[pending[key].timer].reg, |tr| + 1)
  {
    var r := watches[pending[key].timer].reg;
    assert WatchOk(tr, watches, key, pending[key]);
    SawStable(tr, [b, v], r, |tr|, Closes(tr[r]));
    SawStable(tr, [b, v], r, |tr|, Recreates(tr[r]));
    SawStable(tr, [b, v], r, |tr|, Gaps(tr[r]));
  }

  lemma InfoDecided(tr: seq<Act>, w: nat, i: Info, v: nat)
    requires InfoOk(tr, w, i) && i.decided.None? && Explained(tr, i.reg, v)
    ensures InfoOk(tr, w, i.(decided := Some(v)))
  {
    hide Explained, IsAccept;
  }

  lemma DecideTrace(tr: seq<Act>, watches: map<nat, Info>, next: nat, w: nat, b: Act, v: Act)
    requires TraceInv(tr, watches, next) && w in watches && watches[w].decided.None?
    requires b.Observed? || b.Fired?
    requires v.Verdict? && v.decided == w && Explained(tr + [b, v], watches[w].reg, |tr| + 1)
    ensures TraceInv(tr + [b, v], watches[w := watches[w].(decided := Some(|tr| + 1))], next)
  {
    hide InfoOk, Explained;
    var watches' := watches[w := watches[w].(decided := Some(|tr| + 1))];
    forall u | u in watches' ensures InfoOk(tr + [b, v], u, watches'[u]) {
      InfoGrows(tr, [b, v], u, watches[u]);
      if u == w {
        InfoDecided(tr + [b, v], w, watches[w], |tr| + 1);
      }
    }
    forall k | 0 <= k < |tr| ensures ActOk(watches', k, tr[k]) {
      assert ActOk(watches, k, tr[k]);
    }
    assert (tr + [b, v])[|tr|] == b && (tr + [b, v])[|tr| + 1] == v;
  }

  /** A decision on one key's watch leaves another key's account as it was. */
  lemma OtherWatchDecided(tr: seq<Act>, watches: map<nat, Info>, k: RenameKey, p: Watch, key: RenameKey, w: nat, b: Act, v: Act)
    requires WatchOk(tr, watches, k, p) && InfoOk(tr, p.timer, watches[p.timer])
    requires k != key && w in watches && watches[w].key == key
    requires b.Fired? || (b.Observed? && IsClose(b.seen, key))
    requires v.Verdict?
    ensures WatchOk(tr + [b, v], watches[w := watches[w].(decided := Some(|tr| + 1))], k, p)
  {
    var watches' := watches[w := watches[w].(decided := Some(|tr| + 1))];
    assert tr + [b, v] == (tr + [b]) + [v];
    assert p.timer != w;
    WatchGrows(tr, watches, k, p, b, watches, p);
    InfoGrows(tr, [b], p.timer, watches[p.timer]);
    WatchGrows(tr + [b], watches, k, p, v, watches', p);
  }

  lemma DecidePlane(tr: seq<Act>, watches: map<nat, Info>, pending: map<RenameKey, Watch>, key: RenameKey, b: Act, v: Act)
    requires PlaneInv(tr, watches, pending) && key in pending && !pending[key].resolved && pending[key].timer in watches
    requires forall w :: w in watches ==> InfoOk(tr, w, watches[w])
    requires b.Fired? || (b.Observed? && IsClose(b.seen, key))
    requires v.Verdict?
    ensures var w := pending[key].timer;
            PlaneInv(tr + [b, v], watches[w := watches[w].(decided := Some(|tr| + 1))],
                     pending[key := pending[key].(resolved := true)])
  {
    hide InfoOk, Explained, FlagsTrue;
    var w := pending[key].timer;
    var watches' := watches[w := watches[w].(decided := Some(|tr| + 1))];
    var pending' := pending[key := pending[key].(resolved := true)];
    assert WatchOk(tr, watches, key, pending[key]);
    forall k | k in pending' ensures WatchOk(tr + [b, v], watches', k, pending'[k]) {
      if k != key {
        assert WatchOk(tr, watches, k, pending[k]);
        OtherWatchDecided(tr, watches, k, pending[k], key, w, b, v);
      }
    }
    forall u | u in watches' ensures LatestOk(pending', watches', u) {
      assert LatestOk(pending, watches, u);
    }
  }

  /** The decided watch's timer is stopped; the callbacks that ran (at most the one deciding) are gone. */
  lemma DecideTimers(p: Plane, watches: map<nat, Info>, now: Time, key: RenameKey, ran: set<nat>, at: nat)
    requires TimerInv(p, watches, now) && Undecided(p, key)
    requires forall k :: k in p.pending ==> p.pending[k].timer in watches && watches[p.pending[k].timer].key == k
    requires forall t :: t in ran && t in p.fired ==> p.fired[t].key == key
    ensures var w := p.pending[key].timer;
            TimerInv(Finalize(p.(fired := p.fired - ran), key), watches[w := watches[w].(decided := Some(at))], now)
  {
    var w := p.pending[key].timer;
    var p' := Finalize(p.(fired := p.fired - ran), key);
    forall u | u in p'.armed ensures ArmedOk(p'.pending, u, p'.armed[u]) {
      assert ArmedOk(p.pending, u, p.armed[u]);
    }
    forall k | k in p'.pending ensures Live(p', p'.pending[k]) {
      assert Live(p, p.pending[k]);
      var u := p.pending[k].timer;
      assert u in p.fired ==> TimerOk(p.window, watches, u, p.fired[u]);
    }
  }

  lemma DecideStamps(tr: seq<Act>, watches: map<nat, Info>, due: seq<Due>, w: nat, b: Act, v: Act)
    requires StampInv(tr, watches, due) && w in watches && watches[w].decided.None? && watches[w].stamped.None?
    requires v.Verdict?
    ensures var i := watches[w].(decided := Some(|tr| + 1));
            StampInv(tr + [b, v], watches[w := i], due + [Due(w, RenameEvent(i.key, i.from, i.startedAt, v.verdict))])
  {
    var i := watches[w].(decided := Some(|tr| + 1));
    var d := Due(w, RenameEvent(i.key, i.from, i.startedAt, v.verdict));
    var watches', due' := watches[w := i], due + [d];
    forall j | 0 <= j < |due| ensures DueOk(tr + [b, v], watches', due'[j]) && due[j].watch != w {
      assert DueOk(tr, watches, due[j]);
    }
    assert due'[|due|] == d;
    forall u | u in watches' && watches'[u].decided.Some? && watches'[u].stamped.None? ensures InDue(due', u) {
      if u != w {
        assert InDue(due, u);
        var j :| 0 <= j < |due| && due[j].watch == u;
        assert due'[j] == due[j];
      }
    }
  }

  /** Act b decides the key's watch: it is a close of it, or a deadline callback for the key. */
  ghost predicate Decides(s: Sys, b: Act, key: RenameKey, verdict: RenameVerdict, ran: set<nat>)
  {
    && Undecided(s.plane, key) && Known(s)
    && (b.Fired? || (b.Observed? && IsClose(b.seen, key)))
    && (forall t :: t in ran && t in s.plane.fired ==> s.plane.fired[t].key == key)
    && verdict == if b.Observed? then CloseVerdict(s.plane.pending[key]) else DeadlineVerdict(s.plane.pending[key])
  }

  function Decided(s: Sys, b: Act, key: RenameKey, verdict: RenameVerdict, ran: set<nat>): Sys
    requires key in s.plane.pending && s.plane.pending[key].timer in s.watches
  {
    Decide(s, b, Finalize(s.plane.(fired := s.plane.fired - ran), key), key, verdict)
  }

  lemma DecideKeeps(s: Sys, b: Act, key: RenameKey, verdict: RenameVerdict, ran: set<nat>)
    requires Inv(s) && Decides(s, b, key, verdict, ran)
    ensures Inv(Decided(s, b, key, verdict, ran))
  {
    hide *;
    DecidesWhat(s, b, key, verdict, ran);
    DecidedWatch(s, key);
    InvPieces(s);
    DecideShape(s, b, key, verdict, ran);
    DecideKeepsTrace(s, b, key, verdict, ran);
    var v := Verdict(s.plane.pending[key].timer, verdict, s.now);
    DecidePlane(s.trace, s.watches, s.plane.pending, key, b, v);
    DecideKeepsTimers(s, key, ran, |s.trace| + 1);
    DecideStamps(s.trace, s.watches, s.due, s.plane.pending[key].timer, b, v);
    InvParts(Decided(s, b, key, verdict, ran));
  }

  lemma DecidesWhat(s: Sys, b: Act, key: RenameKey, verdict: RenameVerdict, ran: set<nat>)
    requires Decides(s, b, key, verdict, ran)
    ensures Undecided(s.plane, key) && Known(s)
    ensures key in s.plane.pending && !s.plane.pending[key].resolved && s.plane.pending[key].timer in s.watches
    ensures b.Fired? || (b.Observed? && IsClose(b.seen, key))
    ensures forall t :: t in ran && t in s.plane.fired ==> s.plane.fired[t].key == key
    ensures verdict == if b.Observed? then CloseVerdict(s.plane.pending[key]) else DeadlineVerdict(s.plane.pending[key])
  {
  }

  lemma DecideKeepsTrace(s: Sys, b: Act, key: RenameKey, verdict: RenameVerdict, ran: set<nat>)
    requires Inv(s) && Decides(s, b, key, verdict, ran)
    ensures var s' := Decided(s, b, key, verdict, ran);
            TraceInv(s'.trace, s'.watches, s'.plane.nextTimer)
  {
    hide *;
    DecidesWhat(s, b, key, verdict, ran);
    DecidedWatch(s, key);
    InvPieces(s);
    DecideShape(s, b, key, verdict, ran);
    var w := s.plane.pending[key].timer;
    var v := Verdict(w, verdict, s.now);
    NewVerdictExplained(s.trace, s.watches, s.plane.pending, key, b, v);
    DecideTrace(s.trace, s.watches, s.plane.nextTimer, w, b, v);
  }

  lemma DecideKeepsTimers(s: Sys, key: RenameKey, ran: set<nat>, at: nat)
    requires Inv(s) && Undecided(s.plane, key) && Known(s)
    requires forall t :: t in ran && t in s.plane.fired ==> s.plane.fired[t].key == key
    ensures key in s.plane.pending
    ensures var w := s.plane.pending[key].timer;
            w in s.watches &&
            TimerInv(Finalize(s.plane.(fired := s.plane.fired - ran), key), s.watches[w := s.watches[w].(decided := Some(at))], s.now)
  {
    DecidedWatch(s, key);
    InvPieces(s);
    hide Inv, TimerInv, Finalize;
    DecideTimers(s.plane, s.watches, s.now, key, ran, at);
  }

  lemma InvPieces(s: Sys)
    requires Inv(s)
    ensures TraceInv(s.trace, s.watches, s.plane.nextTimer) && RequestsOk(s.trace, s.requests)
    ensures PlaneInv(s.trace, s.watches, s.plane.pending) && TimerInv(s.plane, s.watches, s.now)
    ensures StampInv(s.trace, s.watches, s.due)
    ensures forall u :: u in s.watches ==> InfoOk(s.trace, u, s.watches[u]) && u < s.plane.nextTimer
  {
  }

  lemma InvParts(s: Sys)
    requires TraceInv(s.trace, s.watches, s.plane.nextTimer) && RequestsOk(s.trace, s.requests)
    requires PlaneInv(s.trace, s.watches, s.plane.pending) && TimerInv(s.plane, s.watches, s.now)
    requires StampInv(s.trace, s.watches, s.due)
    ensures Inv(s)
  {
  }

  /** A decision, field by field. */
  lemma DecideShape(s: Sys, b: Act, key: RenameKey, verdict: RenameVerdict, ran: set<nat>)
    requires key in s.plane.pending && s.plane.pending[key].timer in s.watches
    requires RequestsOk(s.trace, s.requests)
    requires var p := s.plane.pending[key]; var i := s.watches[p.timer];
             i.key == key && i.from == p.from && i.startedAt == p.startedAt
    ensures var s', w, v := Decided(s, b, key, verdict, ran), s.plane.pending[key].timer,
                            Verdict(s.plane.pending[key].timer, verdict, s.now);
            var i := s.watches[w].(decided := Some(|s.trace| + 1));
            && s'.trace == s.trace + [b, v]
            && s'.watches == s.watches[w := i]
            && s'.due == s.due + [Due(w, RenameEvent(i.key, i.from, i.startedAt, v.verdict))]
            && s'.now == s.now && s'.plane == Finalize(s.plane.(fired := s.plane.fired - ran), key)
            && s'.plane.pending == s.plane.pending[key := s.plane.pending[key].(resolved := true)]
            && s'.plane.nextTimer == s.plane.nextTimer
            && RequestsOk(s'.trace, s'.requests)
  {
  }

  lemma DecidedWatch(s: Sys, key: RenameKey)
    requires Inv(s) && Undecided(s.plane, key) && Known(s)
    ensures var p := s.plane.pending[key];
            && InfoOk(s.trace, p.timer, s.watches[p.timer])
            && var i := s.watches[p.timer];
            && i.key == key && i.from == p.from && i.startedAt == p.startedAt && i.decided.None? && i.stamped.None?
            && !p.resolved
    ensures forall k :: k in s.plane.pending ==> s.watches[s.plane.pending[k].timer].key == k
  {
    assert WatchOk(s.trace, s.watches, key, s.plane.pending[key]);
    PendingKnown(s.trace, s.watches, s.plane.pending);
  }

  lemma ObserveKeeps(s: Sys, i: nat)
    requires Inv(s) && Enabled(s, ObserveOne(i))
    ensures Inv(Next(s, ObserveOne(i)))
  {
    hide InfoOk, Explained, FlagsTrue, LatestOk, DueOk, Live, TimerOk, ArmedOk, ActOk, WatchOk;
    var ev := s.unobserved[i];
    var rest := s.(unobserved := RemoveAt(s.unobserved, i));
    if ClosesWatch(s.plane, ev) {
      assert s.plane.fired - {} == s.plane.fired;
      DecideKeeps(rest, Observed(ev), CloseKey(ev), CloseVerdict(s.plane.pending[CloseKey(ev)]), {});
    } else {
      TraceGrows(s.trace, s.watches, s.plane.nextTimer, Observed(ev));
      ObservePlane(s.trace, s.watches, s.plane, ev);
      ObserveTimers(s.plane, s.watches, s.now, ev);
      StampGrows(s.trace, s.watches, s.due, Observed(ev));
      assert RequestsOk(s.trace + [Observed(ev)], s.requests);
    }
  }

  lemma CallbackKeeps(s: Sys, t: nat)
    requires Inv(s) && Enabled(s, RunCallback(t))
    ensures Inv(Next(s, RunCallback(t)))
  {
    hide InfoOk, Explained, FlagsTrue, LatestOk, DueOk, ActOk, WatchOk;
    var key := s.plane.fired[t].key;
    if Undecided(s.plane, key) {
      DecideKeeps(s, Fired(t), key, DeadlineVerdict(s.plane.pending[key]), {t});
    } else {
      QuietAct(s, Fired(t));
      PendingKnown(s.trace, s.watches, s.plane.pending);
      var p' := Callback(s.plane, t);
      forall k | k in p'.pending ensures Live(p', p'.pending[k]) {
        assert Live(s.plane, s.plane.pending[k]);
        assert TimerOk(s.plane.window, s.watches, t, s.plane.fired[t]);
      }
    }
  }

  lemma StepKeeps(s: Sys, step: Step)
    requires Inv(s) && Enabled(s, step)
    ensures Inv(Next(s, step)) && Known(Next(s, step))
  {
    match step {
      case Publish(ev) => PublishKeeps(s, ev);
      case AcceptRename(key, from, startedAt) => AcceptKeeps(s, key, from, startedAt);
      case Register(i) => RegisterKeeps(s, i);
      case ObserveOne(i) => ObserveKeeps(s, i);
      case Elapse(ms) => ElapseKeeps(s, ms);
      case Expire(t) => ExpireKeeps(s, t);
      case RunCallback(t) => CallbackKeeps(s, t);
      case StampVerdict(i) => StampVerdictKeeps(s, i);
    }
    var s' := Next(s, step);
    PendingKnown(s'.trace, s'.watches, s'.plane.pending);
  }

  // ---- every run ----------------------------------------------------------

  ghost predicate IsRun(ss: seq<Sys>, steps: seq<Step>, window: nat)
  {
    && |ss| == |steps| + 1 && ss[0] == Initial(window)
    && (forall i :: 0 <= i < |steps| ==> Enabled(ss[i], steps[i]) && ss[i + 1] == Next(ss[i], steps[i]))
  }

  lemma {:induction false} EveryRunKeepsInv(ss: seq<Sys>, steps: seq<Step>, window: nat)
    requires IsRun(ss, steps, window)
    ensures Inv(ss[|steps|])
    decreases |steps|
  {
    var n := |steps|;
    if n == 0 {
      InitialInv(window);
    } else {
      assert IsRun(ss[..n], steps[..n - 1], window);
      EveryRunKeepsInv(ss[..n], steps[..n - 1], window);
      StepKeeps(ss[n - 1], steps[n - 1]);
    }
  }

  /** Verdict soundness and completeness, over every run: each verdict in the trace is on a watch
      registered before it, and is exactly the one the observations in between call for. */
  lemma VerdictsSound(ss: seq<Sys>, steps: seq<Step>, window: nat, v: nat)
    requires IsRun(ss, steps, window)
    requires var tr := ss[|steps|].trace; v < |tr| && tr[v].Verdict?
    ensures var tr := ss[|steps|].trace;
            exists r :: 0 <= r < v && tr[r].Registered? && tr[r].watch == tr[v].decided && Explained(tr, r, v)
  {
    EveryRunKeepsInv(ss, steps, window);
    var s := ss[|steps|];
    assert ActOk(s.watches, v, s.trace[v]);
    var i := s.watches[s.trace[v].decided];
    assert InfoOk(s.trace, s.trace[v].decided, i);
    assert Explained(s.trace, i.reg, v);
  }

  /** What a verdict says, event by event. It follows the first close of the new id on the watch's machine, or the
      deadline before any. After a close it is contested if and only if, between the registration and the close, the old
      id was created on that machine with the very start the rename was registered with, both known; at the deadline it
      is corroborated if and only if no resync and no degraded source of that machine was observed since. */
  lemma VerdictMeaning(tr: seq<Act>, r: nat, v: nat)
    requires Explained(tr, r, v)
    ensures tr[v - 1].Fired?
         || (tr[v - 1].Observed?
             && var ev := tr[v - 1].seen;
                && ev.kind == SessionClosed && ev.machine == tr[r].key.machine
                && ev.payload.StatePayload? && ev.payload.ref == tr[r].key.to)
    ensures forall j :: r < j < v - 1 && tr[j].Observed? && tr[j].seen.kind == SessionClosed
                        && tr[j].seen.machine == tr[r].key.machine && tr[j].seen.payload.StatePayload? ==>
              tr[j].seen.payload.ref != tr[r].key.to
    ensures tr[v].verdict == RenameContested <==>
              && tr[v - 1].Observed?
              && exists j :: r < j < v - 1 && tr[j].Observed?
                   && tr[j].seen.kind == SessionCreated && tr[j].seen.machine == tr[r].key.machine
                   && tr[j].seen.payload.SessionPayload? && tr[j].seen.payload.id == tr[r].from
                   && tr[r].startedAt.Some? && tr[j].seen.payload.startedAt == tr[r].startedAt
    ensures tr[v].verdict == RenameCorroborated <==>
              && tr[v - 1].Fired?
              && !exists j :: r < j < v - 1 && tr[j].Observed? && tr[j].seen.machine == tr[r].key.machine
                   && (tr[j].seen.kind == ControlResync
                       || (tr[j].seen.kind == SourceStatus && tr[j].seen.payload.StatusPayload?
                           && tr[j].seen.payload.status == SourceDegraded))
    ensures tr[v].verdict != RenameAccepted
  {
    Tells(tr, r, v);
    hide Explained;
    assert Saw(tr, r, v - 1, Closes(tr[r])) <==> exists j :: r < j < v - 1 && Closes(tr[r])(tr[j]);
    assert Saw(tr, r, v - 1, Recreates(tr[r])) <==> exists j :: r < j < v - 1 && Recreates(tr[r])(tr[j]);
    assert Saw(tr, r, v - 1, Gaps(tr[r])) <==> exists j :: r < j < v - 1 && Gaps(tr[r])(tr[j]);
  }

  lemma Tells(tr: seq<Act>, r: nat, v: nat)
    requires Explained(tr, r, v)
    ensures r + 1 < v < |tr| && tr[r].Registered? && tr[v].Verdict? && !Saw(tr, r, v - 1, Closes(tr[r]))
    ensures tr[v - 1].Fired? || Closes(tr[r])(tr[v - 1])
    ensures Closes(tr[r])(tr[v - 1]) ==>
              tr[v].verdict == if Saw(tr, r, v - 1, Recreates(tr[r])) then RenameContested else RenameUnconfirmed
    ensures tr[v - 1].Fired? ==>
              tr[v].verdict == if Saw(tr, r, v - 1, Gaps(tr[r])) then RenameUnconfirmed else RenameCorroborated
  {
    hide Saw, IsClose, IsRecreation, IsGap;
  }

  /** An accepted rename is watched from its registration on if and only if it has two ids and they differ, with a
      deadline one window away and nothing observed yet; the timer of the watch it replaces is stopped. */
  lemma RegistersIff(s: Sys, i: nat)
    requires Enabled(s, Register(i))
    ensures var q, s', w := s.requests[i], Next(s, Register(i)), s.plane.nextTimer;
            if q.from != "" && q.key.to != "" && q.from != q.key.to then
              && s'.trace == s.trace + [Registered(w, q.key, q.from, q.startedAt, q.accepted, s.now)]
              && w in s'.plane.armed && s'.plane.armed[w] == Timer(q.key, s.now + s.plane.window)
              && s'.plane.pending == s.plane.pending[q.key := Watch(q.from, q.startedAt, false, false, false, w)]
              && (q.key in s.plane.pending && s.plane.pending[q.key].timer != w ==> s.plane.pending[q.key].timer !in s'.plane.armed)
            else s'.trace == s.trace && s'.plane == s.plane
  {
    hide RemoveAt;
  }

  /** At most one verdict a watch, and it is stamped at most once, after the accept event. */
  lemma AtMostOneVerdict(ss: seq<Sys>, steps: seq<Step>, window: nat, j: nat, k: nat)
    requires IsRun(ss, steps, window)
    requires var tr := ss[|steps|].trace; j < |tr| && k < |tr|
    ensures var tr := ss[|steps|].trace;
            && (tr[j].Verdict? && tr[k].Verdict? && tr[j].decided == tr[k].decided ==> j == k)
            && (tr[j].Stamped? && tr[k].Stamped? && tr[j].tag.VerdictOf? && tr[j].tag == tr[k].tag ==> j == k)
  {
    EveryRunKeepsInv(ss, steps, window);
    var s := ss[|steps|];
    assert ActOk(s.watches, j, s.trace[j]) && ActOk(s.watches, k, s.trace[k]);
  }

  /** A stamped verdict follows the event that accepted its rename, and both carry the rename's machine, ids and start. */
  lemma VerdictAfterAccept(ss: seq<Sys>, steps: seq<Step>, window: nat, k: nat)
    requires IsRun(ss, steps, window)
    requires var tr := ss[|steps|].trace; k < |tr| && tr[k].Stamped? && tr[k].tag.VerdictOf?
    ensures var tr := ss[|steps|].trace;
            exists a: nat, r: nat, v: nat :: a < r < v < k && tr[r].Registered? && tr[r].watch == tr[k].tag.watch
              && Explained(tr, r, v)
              && tr[a] == Stamped(Event(0, "", tr[r].key.machine, SessionRenamed,
                                        RenamedPayload(tr[r].key.machine, tr[r].from, tr[r].key.to, tr[r].startedAt, RenameAccepted)),
                                  Accept)
              && tr[k].ev == Event(0, "", tr[r].key.machine, SessionRenamed,
                                   RenamedPayload(tr[r].key.machine, tr[r].from, tr[r].key.to, tr[r].startedAt, tr[v].verdict))
  {
    EveryRunKeepsInv(ss, steps, window);
    var s := ss[|steps|];
    var a, r, v := StampedAfter(s, k);
    hide *;
  }

  lemma StampedAfter(s: Sys, k: nat) returns (a: nat, r: nat, v: nat)
    requires Inv(s) && k < |s.trace| && s.trace[k].Stamped? && s.trace[k].tag.VerdictOf?
    ensures var tr := s.trace;
            && a < r < v < k && tr[r].Registered? && tr[r].watch == tr[k].tag.watch && Explained(tr, r, v) && tr[v].Verdict?
            && tr[a] == Stamped(Event(0, "", tr[r].key.machine, SessionRenamed,
                                      RenamedPayload(tr[r].key.machine, tr[r].from, tr[r].key.to, tr[r].startedAt, RenameAccepted)),
                                Accept)
            && tr[k].ev == Event(0, "", tr[r].key.machine, SessionRenamed,
                                 RenamedPayload(tr[r].key.machine, tr[r].from, tr[r].key.to, tr[r].startedAt, tr[v].verdict))
  {
    assert ActOk(s.watches, k, s.trace[k]);
    var i := s.watches[s.trace[k].tag.watch];
    assert InfoOk(s.trace, s.trace[k].tag.watch, i);
    Explains(s.trace, i.reg, i.decided.value);
    hide Inv, Explained;
    a, r, v := i.accepted, i.reg, i.decided.value;
  }

  lemma Explains(tr: seq<Act>, r: nat, v: nat)
    requires Explained(tr, r, v)
    ensures r + 1 < v < |tr| && tr[r].Registered? && tr[v].Verdict?
  {
    hide Saw;
  }

  /** The only way to stay without a verdict: a watch is decided, or still current with its timer armed or
      its callback under way, or replaced by a later rename to the same machine and id. A decided
      verdict is stamped or queued to be. */
  ghost predicate Accounted(s: Sys, r: nat)
    requires r < |s.trace| && s.trace[r].Registered?
  {
    var a := s.trace[r];
    || (exists v :: r < v < |s.trace| && Explained(s.trace, r, v)
         && (InDue(s.due, a.watch)
              || exists k :: v < k < |s.trace| && s.trace[k].Stamped? && s.trace[k].tag == VerdictOf(a.watch)))
    || (Undecided(s.plane, a.key) && s.plane.pending[a.key].timer == a.watch
       && (a.watch in s.plane.armed || a.watch in s.plane.fired))
    || (exists q :: r < q < |s.trace| && s.trace[q].Registered? && s.trace[q].key == a.key)
  }

  /** Over every run, every watch ever registered is accounted for. */
  lemma OnlyReplacementSilences(ss: seq<Sys>, steps: seq<Step>, window: nat, r: nat)
    requires IsRun(ss, steps, window)
    requires var tr := ss[|steps|].trace; r < |tr| && tr[r].Registered?
    ensures Accounted(ss[|steps|], r)
  {
    EveryRunKeepsInv(ss, steps, window);
    SilenceExplained(ss[|steps|], r);
  }

  lemma SilenceExplained(s: Sys, r: nat)
    requires Inv(s) && r < |s.trace| && s.trace[r].Registered?
    ensures Accounted(s, r)
  {
    var a := s.trace[r];
    RegisteredInfo(s, r);
    WatchFacts(s, a.watch);
    hide Inv, Explained, InDue, Live, Undecided;
    var i := s.watches[a.watch];
    if i.decided.Some? {
      assert Explained(s.trace, r, i.decided.value);
    } else {
      var q := s.watches[s.plane.pending[a.key].timer].reg;
      if q == r {
        CurrentWatch(s, a.watch);
      }
    }
  }

  lemma RegisteredInfo(s: Sys, r: nat)
    requires Inv(s) && r < |s.trace| && s.trace[r].Registered?
    ensures s.trace[r].watch in s.watches && s.watches[s.trace[r].watch].reg == r
  {
    assert ActOk(s.watches, r, s.trace[r]);
  }

  lemma CurrentWatch(s: Sys, w: nat)
    requires Inv(s) && w in s.watches && s.watches[w].decided.None?
    requires var key := s.watches[w].key; key in s.plane.pending && s.plane.pending[key].timer == w
    ensures Undecided(s.plane, s.watches[w].key) && (w in s.plane.armed || w in s.plane.fired)
  {
    WatchFacts(s, w);
    hide Inv;
  }

  /** What the invariant says about one registered watch and the current watch of its key. */
  lemma WatchFacts(s: Sys, w: nat)
    requires Inv(s) && w in s.watches
    ensures var i := s.watches[w];
            && i.reg < |s.trace| && s.trace[i.reg] == Registered(w, i.key, i.from, i.startedAt, i.accepted, i.at)
            && (i.decided.Some? ==>
                  && i.reg < i.decided.value < |s.trace| && Explained(s.trace, i.reg, i.decided.value)
                  && (i.stamped.None? ==> InDue(s.due, w))
                  && (i.stamped.Some? ==>
                        && i.decided.value < i.stamped.value < |s.trace|
                        && s.trace[i.stamped.value].Stamped? && s.trace[i.stamped.value].tag == VerdictOf(w)))
            && i.key in s.plane.pending
            && var p := s.plane.pending[i.key];
            && p.timer in s.watches && Live(s.plane, p)
            && (p.resolved <==> s.watches[p.timer].decided.Some?)
            && i.reg <= s.watches[p.timer].reg < |s.trace|
            && s.trace[s.watches[p.timer].reg].Registered? && s.trace[s.watches[p.timer].reg].key == i.key
            && (s.watches[p.timer].reg == i.reg ==> p.timer == w)
  {
    assert InfoOk(s.trace, w, s.watches[w]) && LatestOk(s.plane.pending, s.watches, w);
    var key := s.watches[w].key;
    var p := s.plane.pending[key];
    assert WatchOk(s.trace, s.watches, key, p) && Live(s.plane, p) && InfoOk(s.trace, p.timer, s.watches[p.timer]);
    hide WatchOk, FlagsTrue, Saw, IsAccept, Recreates, Closes, Gaps;
  }

  // ---- the window ---------------------------------------------------------

  /** A deadline verdict on the watch whose own timer fired comes no earlier than the full window after
      the watch was registered. */
  lemma OwnCallbackWaits(ss: seq<Sys>, steps: seq<Step>, window: nat, t: nat)
    requires IsRun(ss, steps, window) && Enabled(ss[|steps|], RunCallback(t))
    requires var p := ss[|steps|].plane; Undecided(p, p.fired[t].key) && p.pending[p.fired[t].key].timer == t
    ensures var s := ss[|steps|];
            && Next(s, RunCallback(t)).trace
                 == s.trace + [Fired(t), Verdict(t, DeadlineVerdict(s.plane.pending[s.plane.fired[t].key]), s.now)]
            && t in s.watches && s.watches[t].at + s.plane.window <= s.now
  {
    hide *;
    var s := RunEnds(ss, steps, window);
    CallbackDecides(s, t);
    OwnTimer(s, t);
  }

  lemma RunEnds(ss: seq<Sys>, steps: seq<Step>, window: nat) returns (s: Sys)
    requires IsRun(ss, steps, window)
    ensures |ss| == |steps| + 1 && s == ss[|steps|]
    ensures Known(s) && TimerInv(s.plane, s.watches, s.now)
  {
    assert |ss| == |steps| + 1 by {
      hide Next, Enabled, Initial;
    }
    hide *;
    EveryRunKeepsInv(ss, steps, window);
    s := ss[|steps|];
    TimersOfInv(s);
  }

  lemma TimersOfInv(s: Sys)
    requires Inv(s)
    ensures Known(s) && TimerInv(s.plane, s.watches, s.now)
  {
    hide TraceInv, TimerInv, StampInv, RequestsOk, FlagsTrue;
    assert forall key :: key in s.plane.pending ==> WatchOk(s.trace, s.watches, key, s.plane.pending[key]);
  }

  /** The watch a callback's key names now. */
  function Target(p: Plane, t: nat): nat
    requires t in p.fired && Undecided(p, p.fired[t].key)
  {
    p.pending[p.fired[t].key].timer
  }

  lemma CallbackDecides(s: Sys, t: nat)
    requires Enabled(s, RunCallback(t))
    ensures t in s.plane.fired
    ensures if Undecided(s.plane, s.plane.fired[t].key) then
              var key := s.plane.fired[t].key;
              && key in s.plane.pending && Target(s.plane, t) == s.plane.pending[key].timer
              && Next(s, RunCallback(t)).trace
                   == s.trace + [Fired(t), Verdict(Target(s.plane, t), DeadlineVerdict(s.plane.pending[key]), s.now)]
            else Next(s, RunCallback(t)).trace == s.trace + [Fired(t)]
  {
    hide Known, Callback, VerdictEvent, DeadlineVerdict;
    assert Known(s);
  }

  lemma OwnTimer(s: Sys, t: nat)
    requires t in s.plane.fired && TimerInv(s.plane, s.watches, s.now)
    ensures t in s.watches && s.watches[t].at + s.plane.window <= s.now
  {
    assert TimerOk(s.plane.window, s.watches, t, s.plane.fired[t]);
  }

  lemma TargetKnown(s: Sys, t: nat)
    requires Known(s) && t in s.plane.fired && Undecided(s.plane, s.plane.fired[t].key)
    ensures Target(s.plane, t) in s.watches
  {
  }

  /** Running the callback gives a verdict on a watch that is younger than the window. */
  ghost predicate DecidesEarly(s: Sys, t: nat)
    requires Enabled(s, RunCallback(t))
  {
    exists w: nat, v ::
      && Next(s, RunCallback(t)).trace == s.trace + [Fired(t), Verdict(w, v, s.now)]
      && w in s.watches && s.now < s.watches[w].at + s.plane.window
  }

  /** The key's watch is not the one the timer was started for, and its own window is still open. */
  predicate Stale(s: Sys, t: nat)
    requires t in s.plane.fired
  {
    && Undecided(s.plane, s.plane.fired[t].key)
    && Target(s.plane, t) != t && Target(s.plane, t) in s.watches
    && s.now < s.watches[Target(s.plane, t)].at + s.plane.window
  }

  /** A callback decides a watch before its window is over exactly when it is not the watch's own: it was
      under way when a later rename replaced its watch, less than a window ago. */
  lemma EarlyIffStale(ss: seq<Sys>, steps: seq<Step>, window: nat, t: nat)
    requires IsRun(ss, steps, window) && Enabled(ss[|steps|], RunCallback(t))
    ensures t in ss[|steps|].plane.fired
    ensures DecidesEarly(ss[|steps|], t) <==> Stale(ss[|steps|], t)
  {
    hide *;
    var s := RunEnds(ss, steps, window);
    CallbackDecides(s, t);
    OwnTimer(s, t);
    if Undecided(s.plane, s.plane.fired[t].key) {
      TargetKnown(s, t);
      EarlyBy(s, t, Target(s.plane, t), DeadlineVerdict(s.plane.pending[s.plane.fired[t].key]));
    } else {
      NotEarly(s, t);
    }
  }

  lemma EarlyBy(s: Sys, t: nat, w: nat, v: RenameVerdict)
    requires Enabled(s, RunCallback(t)) && t in s.plane.fired && Undecided(s.plane, s.plane.fired[t].key)
    requires w == Target(s.plane, t) && w in s.watches && t in s.watches && s.watches[t].at + s.plane.window <= s.now
    requires Next(s, RunCallback(t)).trace == s.trace + [Fired(t), Verdict(w, v, s.now)]
    ensures DecidesEarly(s, t) <==> Stale(s, t)
  {
    hide Next, Enabled, Undecided, Target;
    if DecidesEarly(s, t) {
      var w', v' :| Next(s, RunCallback(t)).trace == s.trace + [Fired(t), Verdict(w', v', s.now)]
                    && w' in s.watches && s.now < s.watches[w'].at + s.plane.window;
      assert (s.trace + [Fired(t), Verdict(w', v', s.now)])[|s.trace| + 1] == Verdict(w', v', s.now);
      assert (s.trace + [Fired(t), Verdict(w, v, s.now)])[|s.trace| + 1] == Verdict(w, v, s.now);
    }
  }

  lemma NotEarly(s: Sys, t: nat)
    requires Enabled(s, RunCallback(t)) && t in s.plane.fired && !Undecided(s.plane, s.plane.fired[t].key)
    requires Next(s, RunCallback(t)).trace == s.trace + [Fired(t)]
    ensures !DecidesEarly(s, t) && !Stale(s, t)
  {
    hide Next, Enabled, Undecided, Target;
    forall w: nat, v ensures Next(s, RunCallback(t)).trace != s.trace + [Fired(t), Verdict(w, v, s.now)] {
      assert |s.trace + [Fired(t), Verdict(w, v, s.now)]| == |s.trace| + 2;
    }
  }

  /** But the callback looks its watch up by key. One that is already under way when a later rename
      replaces its watch decides the replacement: here corroborated at the instant it was registered,
      whatever the window. Stopping the old timer does not reach a callback under way. */
  lemma StaleCallbackDecidesEarly(window: nat) returns (ss: seq<Sys>, steps: seq<Step>)
    ensures IsRun(ss, steps, window)
    ensures var s := ss[|steps|]; var n := |s.trace|;
            && n >= 2 && s.trace[n - 1] == Verdict(1, RenameCorroborated, s.now)
            && 1 in s.watches && s.watches[1].at == s.now
  {
    var key := RenameKey("m", "b");
    ss, steps := StaleCallbackUnderWay(window, key);
    hide IsRun;
    ss, steps := Extend(ss, steps, window, AcceptRename(key, "c", None));
    var s6 := AfterRegister(ss[|steps|], key, "c");
    ss, steps := Extend(ss, steps, window, Register(0));
    ss, steps := Extend(ss, steps, window, RunCallback(0));
  }

  /** Watch 0 on the key has reached its deadline and its callback is under way. */
  lemma StaleCallbackUnderWay(window: nat, key: RenameKey) returns (ss: seq<Sys>, steps: seq<Step>)
    requires Watchable("a", key.to)
    ensures IsRun(ss, steps, window)
    ensures var s := ss[|steps|];
            && s.requests == [] && s.plane.nextTimer == 1 && s.plane.window == window && s.watches.Keys == {0}
            && 0 in s.plane.fired && s.plane.fired[0].key == key
            && s.plane.pending.Keys == {key} && s.plane.pending[key].timer == 0 && !s.plane.pending[key].resolved
  {
    ss, steps := [Initial(window)], [];
    ss, steps := Extend(ss, steps, window, AcceptRename(key, "a", None));
    var s2 := AfterRegister(ss[|steps|], key, "a");
    ss, steps := Extend(ss, steps, window, Register(0));
    ss, steps := Extend(ss, steps, window, Elapse(window));
    ss, steps := Extend(ss, steps, window, Expire(0));
  }

  lemma Extend(ss: seq<Sys>, steps: seq<Step>, window: nat, step: Step) returns (ss': seq<Sys>, steps': seq<Step>)
    requires IsRun(ss, steps, window) && Enabled(ss[|steps|], step)
    ensures IsRun(ss', steps', window) && |steps'| == |steps| + 1
    ensures ss'[|steps'|] == Next(ss[|steps|], step)
  {
    ss', steps' := ss + [Next(ss[|steps|], step)], steps + [step];
  }

  lemma AfterRegister(s: Sys, key: RenameKey, from: string) returns (s': Sys)
    requires |s.requests| == 1 && Watchable(from, key.to)
    requires s.requests[0].key == key && s.requests[0].from == from && s.requests[0].startedAt == None
    ensures Enabled(s, Register(0)) && s' == Next(s, Register(0))
    ensures s'.requests == [] && s'.now == s.now && s'.plane.window == s.plane.window
    ensures var w := s.plane.nextTimer;
            && s'.plane.nextTimer == w + 1 && s'.plane.fired == s.plane.fired
            && s'.plane.pending == s.plane.pending[key := Watch(from, None, false, false, false, w)]
            && w in s'.plane.armed && s'.plane.armed[w] == Timer(key, s.now + s.plane.window)
            && w in s'.watches && s'.watches[w].at == s.now && s'.watches.Keys == s.watches.Keys + {w}
            && |s'.trace| == |s.trace| + 1
  {
    s' := Next(s, Register(0));
  }
}
