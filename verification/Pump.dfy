// The pump that feeds one driver's events into the hub (internal/service/events.go): it retries,
// backs off, and announces on transitions only.
module Pump {
  import opened Fleet
  import opened Seqs

  const BACKOFF_MIN: nat := 500
  const BACKOFF_MAX: nat := 30000

  /** When, within one turn of the loop, the subscription's context is found cancelled. */
  datatype Cancel = Never | BeforeAnnouncing | WhileSleeping

  /** One turn: Subscribe fails, or opens a stream that delivers events and ends. */
  datatype Turn =
    | Refused(unsupported: bool, cancel: Cancel)
    | Streamed(events: seq<Event>, cancel: Cancel)

  /** What a turn does, in order. Opened marks a successful Subscribe. */
  datatype Out = Gap | Opened | RestoredStatus | FeedGapResync | Forward(ev: Event) | Wait(ms: nat)

  function NextBackoff(d: nat): nat
  {
    if d * 2 > BACKOFF_MAX then BACKOFF_MAX else d * 2
  }

  function Pow2(k: nat): nat { if k == 0 then 1 else 2 * Pow2(k - 1) }

  /** The k-th wait since the last success, in closed form. */
  function BackoffAt(k: nat): nat
  {
    var d := BACKOFF_MIN * Pow2(k);
    if d > BACKOFF_MAX then BACKOFF_MAX else d
  }

  lemma NextBackoffIsDoubling(k: nat)
    ensures NextBackoff(BackoffAt(k)) == BackoffAt(k + 1)
    ensures 500 <= BackoffAt(k) <= 30000 && BackoffAt(k) == if 500 * Pow2(k) > 30000 then 30000 else 500 * Pow2(k)
  {
    Pow2Positive(k);
    assert Pow2(k + 1) == 2 * Pow2(k);
  }

  lemma {:induction false} Pow2Positive(k: nat)
    ensures Pow2(k) >= 1
  {
    if k > 0 {
      Pow2Positive(k - 1);
    }
  }

  // ---- what a subscriber can rely on --------------------------------------

  /** A gap was announced and its end was not. */
  predicate GapOpen(out: seq<Out>)
  {
    if out == [] then false
    else match out[|out| - 1]
      case Gap => true
      case FeedGapResync => false
      case _ => GapOpen(out[..|out| - 1])
  }

  function WaitsSinceOpened(out: seq<Out>): nat
  {
    if out == [] then 0
    else match out[|out| - 1]
      case Opened => 0
      case Wait(_) => WaitsSinceOpened(out[..|out| - 1]) + 1
      case _ => WaitsSinceOpened(out[..|out| - 1])
  }

  /** Entry i is in order given everything before it. */
  predicate InOrder(before: seq<Out>, o: Out)
  {
    match o
    case Gap => !GapOpen(before)
    case Opened => true
    case RestoredStatus => GapOpen(before)
    case FeedGapResync => GapOpen(before) && before != [] && before[|before| - 1] == RestoredStatus
    case Forward(_) => !GapOpen(before)
    case Wait(ms) => GapOpen(before) && ms == BackoffAt(WaitsSinceOpened(before))
  }

  /** Gap and restored strictly alternate, every forwarded event after a gap follows a feed-gap
      resync, and the k-th wait since the last success is min(500ms * 2^k, 30s). */
  predicate Honest(out: seq<Out>)
  {
    forall i :: 0 <= i < |out| ==> InOrder(out[..i], out[i])
  }

  lemma HonestSnoc(out: seq<Out>, o: Out)
    requires Honest(out) && InOrder(out, o)
    ensures Honest(out + [o])
    ensures (out + [o])[..|out|] == out
  {
    assert (out + [o])[..|out|] == out;
    forall i | 0 <= i < |out + [o]| ensures InOrder((out + [o])[..i], (out + [o])[i]) {
      assert i < |out| ==> (out + [o])[..i] == out[..i];
    }
  }

  /** Between two gaps there is a restored status and its resync. */
  lemma {:induction false} GapsAlternate(out: seq<Out>, i: nat, j: nat)
    requires Honest(out) && i < j < |out| && out[i] == Gap && out[j] == Gap
    ensures exists r :: i < r < j && r + 1 < j && out[r] == RestoredStatus && out[r + 1] == FeedGapResync
  {
    assert InOrder(out[..j], out[j]);
    var r := ClosingResync(out, i, j);
    assert InOrder(out[..r], out[r]);
    assert out[..r][r - 1] == out[r - 1];
    assert out[r - 1] == RestoredStatus && out[r - 1 + 1] == FeedGapResync;
  }

  lemma {:induction false} ClosingResync(out: seq<Out>, i: nat, j: nat) returns (r: nat)
    requires i < j <= |out| && out[i] == Gap && !GapOpen(out[..j])
    ensures i < r < j && out[r] == FeedGapResync
    decreases j
  {
    assert out[..j][..j - 1] == out[..j - 1];
    if out[j - 1] == FeedGapResync {
      r := j - 1;
    } else {
      r := ClosingResync(out, i, j - 1);
    }
  }

  /** No event is forwarded between a gap and the resync that closes it. */
  lemma ForwardAfterGapFollowsResync(out: seq<Out>, i: nat, j: nat)
    requires Honest(out) && i < j < |out| && out[i] == Gap && out[j].Forward?
    ensures exists r :: i < r < j && out[r] == FeedGapResync
  {
    assert InOrder(out[..j], out[j]);
    var r := ClosingResync(out, i, j);
  }

  // ---- what goes through ---------------------------------------------------

  /** The events the hub was given, in order. */
  function Forwarded(out: seq<Out>): seq<Event>
  {
    if out == [] then []
    else if out[|out| - 1].Forward? then Forwarded(out[..|out| - 1]) + [out[|out| - 1].ev]
    else Forwarded(out[..|out| - 1])
  }

  /** The events the driver's streams delivered. */
  function Delivered(turns: seq<Turn>): seq<Event>
  {
    if turns == [] then []
    else if turns[|turns| - 1].Streamed? then Delivered(turns[..|turns| - 1]) + turns[|turns| - 1].events
    else Delivered(turns[..|turns| - 1])
  }

  // ---- what a run of turns does --------------------------------------------

  /** A turn after which the pump is gone: cancelled, or a driver that cannot stream at all. */
  predicate Final(turn: Turn)
  {
    turn.cancel != Never || (turn.Refused? && turn.unsupported)
  }

  function Forwards(events: seq<Event>): seq<Out>
  {
    if events == [] then [] else Forwards(events[..|events| - 1]) + [Forward(events[|events| - 1])]
  }

  /** How many turns ended in a wait since the last stream opened, that stream's own turn included. */
  function Failures(turns: seq<Turn>): nat
  {
    if turns == [] then 0
    else if turns[|turns| - 1].Streamed? then 1
    else Failures(turns[..|turns| - 1]) + 1
  }

  /** Every turn but the first finds an announced gap: what opened is announced exactly then. */
  function Opening(retrying: bool): seq<Out>
  {
    [Opened] + if retrying then [RestoredStatus, FeedGapResync] else []
  }

  /** What a lost stream is followed by. */
  function Loss(turn: Turn, announced: bool, failures: nat): seq<Out>
  {
    if turn.cancel == BeforeAnnouncing then []
    else (if announced then [] else [Gap]) + if Final(turn) then [] else [Wait(BackoffAt(failures))]
  }

  function TurnTrace(turn: Turn, retrying: bool, failures: nat): seq<Out>
  {
    match turn
    case Refused(_, _) => Loss(turn, retrying, failures)
    case Streamed(events, _) => Opening(retrying) + Forwards(events) + Loss(turn, false, 0)
  }

  /** The whole trace of a run of turns, from the turns alone. */
  function Trace(turns: seq<Turn>): seq<Out>
  {
    if turns == [] then []
    else
      var before, turn := turns[..|turns| - 1], turns[|turns| - 1];
      Trace(before) + TurnTrace(turn, before != [], Failures(before))
  }

  function Backoffs(n: nat): seq<Out>
  {
    if n == 0 then [] else Backoffs(n - 1) + [Wait(BackoffAt(n - 1))]
  }

  lemma TraceSnoc(turns: seq<Turn>, turn: Turn)
    ensures Trace(turns + [turn]) == Trace(turns) + TurnTrace(turn, turns != [], Failures(turns))
    ensures Failures(turns + [turn]) == if turn.Streamed? then 1 else Failures(turns) + 1
    ensures Delivered(turns + [turn]) == Delivered(turns) + if turn.Streamed? then turn.events else []
  {
    hide TurnTrace;
    assert (turns + [turn])[..|turns|] == turns;
  }

  /** After a stream, n refusals: the gap, announced once, and n + 1 waits that double to the cap. */
  lemma {:induction false} LostFor(before: seq<Turn>, lost: Turn, refusals: seq<Turn>)
    requires lost.Streamed? && !Final(lost)
    requires forall k :: 0 <= k < |refusals| ==> refusals[k].Refused? && !Final(refusals[k])
    ensures var n := |refusals|;
            && Trace(before + [lost] + refusals)
                 == Trace(before) + Opening(before != []) + Forwards(lost.events) + [Gap] + Backoffs(n + 1)
            && Failures(before + [lost] + refusals) == n + 1
    decreases |refusals|
  {
    hide *;
    if refusals == [] {
      assert before + [lost] + refusals == before + [lost];
      TraceSnoc(before, lost);
      LostTurn(lost, before != [], Failures(before));
      Regroup(Trace(before), Opening(before != []), Forwards(lost.events), [Gap], Backoffs(1));
    } else {
      var n := |refusals| - 1;
      var rest, turn := refusals[..n], refusals[n];
      LostFor(before, lost, rest);
      assert before + [lost] + refusals == (before + [lost] + rest) + [turn];
      TraceSnoc(before + [lost] + rest, turn);
      OneMoreWait(turn, n + 1);
      Assoc(Trace(before) + Opening(before != []) + Forwards(lost.events) + [Gap], Backoffs(n + 1), [Wait(BackoffAt(n + 1))]);
    }
  }

  lemma Regroup(t: seq<Out>, o: seq<Out>, f: seq<Out>, g: seq<Out>, w: seq<Out>)
    ensures t + ((o + f) + (g + w)) == t + o + f + g + w
  {
    Assoc(t, o + f, g + w);
    Assoc(t, o, f);
    Assoc(t + o + f, g, w);
  }

  lemma LostTurn(turn: Turn, retrying: bool, failures: nat)
    requires turn.Streamed? && !Final(turn)
    ensures TurnTrace(turn, retrying, failures) == (Opening(retrying) + Forwards(turn.events)) + ([Gap] + Backoffs(1))
  {
    hide Forwards, Opening, BackoffAt;
    assert Backoffs(0) == [];
  }

  lemma OneMoreWait(turn: Turn, failures: nat)
    requires turn.Refused? && !Final(turn)
    ensures TurnTrace(turn, true, failures) == [Wait(BackoffAt(failures))]
    ensures Backoffs(failures + 1) == Backoffs(failures) + [Wait(BackoffAt(failures))]
  {
    hide BackoffAt;
  }

  /** The last turn: a pump that is cancelled, or whose driver cannot stream at all, announces a loss that is new, unless it
      was cancelled before it could, and waits for nothing. */
  lemma LastTurnIsNotWaitedOut(before: seq<Turn>, turn: Turn)
    requires turn.cancel != Never || (turn.Refused? && turn.unsupported)
    ensures Trace(before + [turn])
         == Trace(before)
            + if turn.Refused? then (if turn.cancel == BeforeAnnouncing || before != [] then [] else [Gap])
              else Opening(before != []) + Forwards(turn.events) + if turn.cancel == BeforeAnnouncing then [] else [Gap]
  {
    TraceSnoc(before, turn);
    hide Trace, Forwards, Opening, BackoffAt;
  }

  /** Between two streams, whatever happens in between, a subscriber is told exactly: the gap, then one wait for
      each turn lost, then that the stream is back and that what it missed is not in the sequence. */
  lemma BetweenStreams(before: seq<Turn>, lost: Turn, refusals: seq<Turn>, back: Turn)
    requires lost.Streamed? && !Final(lost) && back.Streamed?
    requires forall k :: 0 <= k < |refusals| ==> refusals[k].Refused? && !Final(refusals[k])
    ensures Trace(before + [lost] + refusals + [back])
         == Trace(before) + Opening(before != []) + Forwards(lost.events)
            + [Gap] + Backoffs(|refusals| + 1) + [Opened, RestoredStatus, FeedGapResync]
            + Forwards(back.events) + Loss(back, false, 0)
  {
    hide *;
    LostFor(before, lost, refusals);
    var turns := before + [lost] + refusals;
    TraceSnoc(turns, back);
    BackTurn(back, Failures(turns));
    Assoc(Trace(turns), [Opened, RestoredStatus, FeedGapResync] + Forwards(back.events), Loss(back, false, 0));
    Assoc(Trace(turns), [Opened, RestoredStatus, FeedGapResync], Forwards(back.events));
  }

  lemma BackTurn(turn: Turn, failures: nat)
    requires turn.Streamed?
    ensures TurnTrace(turn, true, failures)
         == ([Opened, RestoredStatus, FeedGapResync] + Forwards(turn.events)) + Loss(turn, false, 0)
  {
    hide Forwards, Loss;
    assert Opening(true) == [Opened, RestoredStatus, FeedGapResync];
  }

  // ---- the loop -----------------------------------------------------------

  /** Appends one action; the accounts move with it. */
  method Emit(before: seq<Out>, o: Out) returns (out: seq<Out>)
    requires Honest(before) && InOrder(before, o)
    ensures out == before + [o] && Honest(out)
    ensures GapOpen(out) == if o == Gap then true else if o == FeedGapResync then false else GapOpen(before)
    ensures WaitsSinceOpened(out)
         == if o == Opened then 0 else WaitsSinceOpened(before) + if o.Wait? then 1 else 0
    ensures Forwarded(out) == Forwarded(before) + if o.Forward? then [o.ev] else []
  {
    HonestSnoc(before, o);
    out := before + [o];
  }

  /** drainStream: forward until the stream ends. */
  method Drain(events: seq<Event>, before: seq<Out>) returns (out: seq<Out>)
    requires Honest(before) && !GapOpen(before)
    ensures Honest(out) && !GapOpen(out) && WaitsSinceOpened(out) == WaitsSinceOpened(before)
    ensures out == before + Forwards(events) && Forwarded(out) == Forwarded(before) + events
  {
    out := before;
    for i := 0 to |events|
      invariant Honest(out) && !GapOpen(out) && WaitsSinceOpened(out) == WaitsSinceOpened(before)
      invariant out == before + Forwards(events[..i]) && Forwarded(out) == Forwarded(before) + events[..i]
    {
      hide Honest, GapOpen, WaitsSinceOpened, Forwarded, Forwards;
      assert events[..i + 1] == events[..i] + [events[i]];
      ForwardsSnoc(events[..i], events[i]);
      Assoc(before, Forwards(events[..i]), [Forward(events[i])]);
      Assoc(Forwarded(before), events[..i], [events[i]]);
      out := Emit(out, Forward(events[i]));
    }
    assert events[..|events|] == events;
  }

  lemma ForwardsSnoc(events: seq<Event>, ev: Event)
    ensures Forwards(events + [ev]) == Forwards(events) + [Forward(ev)]
  {
    assert (events + [ev])[..|events|] == events;
  }

  /** announceFeedGap, on the transition only. */
  method AnnounceGap(before: seq<Out>, announced: bool) returns (out: seq<Out>)
    requires Honest(before) && announced == GapOpen(before)
    ensures Honest(out) && GapOpen(out) && WaitsSinceOpened(out) == WaitsSinceOpened(before)
    ensures Forwarded(out) == Forwarded(before)
    ensures out == before + if announced then [] else [Gap]
  {
    out := before;
    if !announced {
      out := Emit(out, Gap);
    }
  }

  /** A subscription that opened: announceFeedRestored if a gap was announced. */
  method AnnounceOpened(before: seq<Out>, announced: bool) returns (out: seq<Out>)
    requires Honest(before) && announced == GapOpen(before)
    ensures Honest(out) && !GapOpen(out) && WaitsSinceOpened(out) == 0
    ensures Forwarded(out) == Forwarded(before)
    ensures out == before + Opening(announced)
  {
    out := Emit(before, Opened);
    if announced {
      out := Emit(out, RestoredStatus);
      out := Emit(out, FeedGapResync);
    }
  }

  /** What a turn does before it waits. */
  function Announced(turn: Turn, retrying: bool): seq<Out>
  {
    var loss := if turn.cancel == BeforeAnnouncing || (turn.Refused? && retrying) then [] else [Gap];
    if turn.Refused? then loss else Opening(retrying) + Forwards(turn.events) + loss
  }

  lemma TurnIsAnnouncedAndWaitedOut(turn: Turn, retrying: bool, failures: nat)
    ensures TurnTrace(turn, retrying, failures)
         == Announced(turn, retrying)
            + if Final(turn) then [] else [Wait(BackoffAt(if turn.Streamed? then 0 else failures))]
  {
    hide Forwards, Opening, BackoffAt;
  }

  /** One turn of the loop up to its wait. */
  method TakeTurn(turn: Turn, before: seq<Out>, announced: bool) returns (out: seq<Out>, hasOpened: bool)
    requires Honest(before) && announced == GapOpen(before)
    ensures Honest(out) && hasOpened == turn.Streamed?
    ensures turn.cancel != BeforeAnnouncing ==> GapOpen(out)
    ensures WaitsSinceOpened(out) == if hasOpened then 0 else WaitsSinceOpened(before)
    ensures Forwarded(out) == Forwarded(before) + if turn.Streamed? then turn.events else []
    ensures out == before + Announced(turn, announced)
  {
    hide Honest, GapOpen, WaitsSinceOpened, Forwarded, Forwards, Opening;
    if turn.Refused? {
      if turn.cancel == BeforeAnnouncing {
        return before, false;
      }
      out := AnnounceGap(before, announced);
      return out, false;
    }
    out := AnnounceOpened(before, announced);
    out := Drain(turn.events, out);
    Assoc(before, Opening(announced), Forwards(turn.events));
    if turn.cancel == BeforeAnnouncing {
      return out, true;
    }
    out := AnnounceGap(out, false);
    Assoc(before, Opening(announced) + Forwards(turn.events), [Gap]);
    return out, true;
  }

  /** The pump over the turns its context lets it take. Its trace is the turns', whole: everything its streams
      delivered in order, every loss announced and waited out. It stops for good on a driver that
      cannot stream. */
  method Pump(turns: seq<Turn>) returns (out: seq<Out>, taken: nat)
    ensures taken <= |turns| && out == Trace(turns[..taken])
    ensures forall i :: 0 <= i < taken - 1 ==> turns[i].cancel == Never && !(turns[i].Refused? && turns[i].unsupported)
    ensures taken < |turns| ==>
              taken > 0 && (turns[taken - 1].cancel != Never || (turns[taken - 1].Refused? && turns[taken - 1].unsupported))
    ensures Honest(out) && Forwarded(out) == Delivered(turns[..taken])
    ensures taken > 0 && turns[taken - 1].cancel != BeforeAnnouncing ==> GapOpen(out)
  {
    hide *;
    FirstBackoff();
    out, taken := [], 0;
    var backoff := BACKOFF_MIN;
    var gapAnnounced := false;
    assert turns[..0] == [];
    while taken < |turns|
      invariant taken <= |turns| && Told(turns[..taken], out)
      invariant gapAnnounced == GapOpen(out) == (taken > 0)
      invariant WaitsSinceOpened(out) == Failures(turns[..taken]) && backoff == BackoffAt(Failures(turns[..taken]))
      invariant forall i :: 0 <= i < taken ==> turns[i].cancel == Never && !(turns[i].Refused? && turns[i].unsupported)
    {
      var turn := turns[taken];
      ghost var before, was := turns[..taken], out;
      assert turns[..taken + 1] == before + [turn];
      ToldHonestly(before, out);
      taken := taken + 1;
      var hasOpened;
      out, hasOpened := TakeTurn(turn, out, gapAnnounced);
      Announcing(before, turn, was, out);
      if Final(turn) {
        CancelledIsFinal(turn);
        ToldHonestly(turns[..taken], out);
        return;
      }
      CancelledIsFinal(turn);
      gapAnnounced := true;
      if hasOpened {
        backoff := BACKOFF_MIN;
        FirstBackoff();
      }
      NextBackoffIsDoubling(WaitsSinceOpened(out));
      WaitsInOrder(out, backoff);
      out := Emit(out, Wait(backoff));
      ToldAgain(turns[..taken], out);
      backoff := NextBackoff(backoff);
    }
    ToldHonestly(turns[..taken], out);
  }

  /** The trace is the turns', and what they delivered went through. */
  ghost predicate Told(turns: seq<Turn>, out: seq<Out>)
  {
    out == Trace(turns) && Honest(out) && Forwarded(out) == Delivered(turns)
  }

  lemma ToldHonestly(turns: seq<Turn>, out: seq<Out>)
    requires Told(turns, out)
    ensures out == Trace(turns) && Honest(out) && Forwarded(out) == Delivered(turns)
  {
    hide Trace, Honest, Forwarded, Delivered;
  }

  lemma ToldAgain(turns: seq<Turn>, out: seq<Out>)
    requires out == Trace(turns) && Honest(out) && Forwarded(out) == Delivered(turns)
    ensures Told(turns, out)
  {
    hide Trace, Honest, Forwarded, Delivered;
  }

  lemma CancelledIsFinal(turn: Turn)
    ensures Final(turn) <==> turn.cancel != Never || (turn.Refused? && turn.unsupported)
  {
  }

  lemma WaitsInOrder(out: seq<Out>, backoff: nat)
    requires GapOpen(out) && backoff == BackoffAt(WaitsSinceOpened(out))
    ensures InOrder(out, Wait(backoff))
  {
  }

  /** A turn up to its wait, in the account of the whole run. */
  lemma Announcing(before: seq<Turn>, turn: Turn, was: seq<Out>, out: seq<Out>)
    requires Told(before, was) && Honest(out) && out == was + Announced(turn, before != [])
    requires Forwarded(out) == Forwarded(was) + if turn.Streamed? then turn.events else []
    ensures Delivered(before + [turn]) == Forwarded(out)
    ensures Final(turn) ==> Told(before + [turn], out)
    ensures !Final(turn) ==>
              && Trace(before + [turn]) == out + [Wait(BackoffAt(if turn.Streamed? then 0 else Failures(before)))]
              && Failures(before + [turn]) == (if turn.Streamed? then 0 else Failures(before)) + 1
  {
    hide *;
    ToldHonestly(before, was);
    TraceSnoc(before, turn);
    TurnIsAnnouncedAndWaitedOut(turn, before != [], Failures(before));
    if Final(turn) {
      assert Announced(turn, before != []) + [] == Announced(turn, before != []);
      ToldAgain(before + [turn], out);
    } else {
      Assoc(was, Announced(turn, before != []), [Wait(BackoffAt(if turn.Streamed? then 0 else Failures(before)))]);
    }
  }

  lemma FirstBackoff()
    ensures BackoffAt(0) == BACKOFF_MIN && Told([], []) && !GapOpen([]) && WaitsSinceOpened([]) == 0 == Failures([])
  {
  }
}
