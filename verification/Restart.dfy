// The event sequence across restarts (internal/service/service.go): what the state
// directory remembers decides which cursors are handed out again.
module Restart {
  import opened Fleet
  import opened Seqs
  import HubSpec

  /** The coordinates an event is stamped with. */
  datatype Coord = Coord(epoch: string, cursor: nat)

  /** One service over its restarts. doc is the saved document, None when it runs without a store. */
  datatype Life = Life(epoch: string, cursor: nat, doc: Option<Coord>, stamped: seq<Coord>)

  /** A restart adopts the saved coordinates; without a store it starts a new epoch at zero. */
  datatype Step = Stamp(saved: bool) | Restart(newEpoch: string)

  predicate Enabled(l: Life, step: Step)
  {
    // an epoch is the instant of the start: never one that was in use before
    step.Restart? ==> step.newEpoch != "" && step.newEpoch != l.epoch && forall c :: c in l.stamped ==> c.epoch != step.newEpoch
  }

  function Next(l: Life, step: Step): Life
  {
    match step
    case Stamp(saved) =>
      var c := Coord(l.epoch, l.cursor + 1);
      l.(cursor := c.cursor, stamped := l.stamped + [c],
         doc := if l.doc.Some? && saved then Some(c) else l.doc)
    case Restart(newEpoch) =>
      if l.doc.Some? && l.doc.value.epoch != "" then l.(epoch := l.doc.value.epoch, cursor := l.doc.value.cursor)
      else l.(epoch := newEpoch, cursor := 0)
  }

  function First(epoch: string, durable: bool): Life
  {
    Life(epoch, 0, if durable then Some(Coord(epoch, 0)) else None, [])
  }

  /** No coordinates were given out twice, and the current epoch's are 1 .. cursor. */
  predicate Inv(l: Life)
  {
    && l.epoch != ""
    && Distinct(l.stamped)
    && (forall n :: 1 <= n <= l.cursor ==> Coord(l.epoch, n) in l.stamped)
    && (forall c :: c in l.stamped && c.epoch == l.epoch ==> 1 <= c.cursor <= l.cursor)
    && (l.doc.Some? ==> l.doc.value.epoch == l.epoch && l.doc.value.cursor <= l.cursor)
  }

  predicate Synced(l: Life)
  {
    l.doc.Some? ==> l.doc.value.cursor == l.cursor
  }

  lemma StampKeeps(l: Life, saved: bool)
    requires Inv(l)
    ensures Inv(Next(l, Stamp(saved)))
    ensures Synced(l) && saved ==> Synced(Next(l, Stamp(saved)))
  {
    var l' := Next(l, Stamp(saved));
    var c := Coord(l.epoch, l.cursor + 1);
    assert forall n :: 1 <= n <= l.cursor ==> Coord(l.epoch, n) in l'.stamped;
    assert c == l'.stamped[|l.stamped|];
  }

  /** With every save successful, no cursor of an epoch is ever stamped twice, over any number of restarts. */
  lemma {:induction false} NoCursorReused(ls: seq<Life>, steps: seq<Step>, epoch: string, durable: bool)
    requires |ls| == |steps| + 1 && epoch != "" && ls[0] == First(epoch, durable)
    requires forall i :: 0 <= i < |steps| ==>
               Enabled(ls[i], steps[i]) && ls[i + 1] == Next(ls[i], steps[i]) && steps[i] != Stamp(false)
    ensures Inv(ls[|steps|]) && Synced(ls[|steps|]) && Distinct(ls[|steps|].stamped)
    decreases |steps|
  {
    var n := |steps|;
    if n > 0 {
      NoCursorReused(ls[..n], steps[..n - 1], epoch, durable);
      assert Inv(ls[n - 1]) && Enabled(ls[n - 1], steps[n - 1]);
      match steps[n - 1] {
        case Stamp(saved) => StampKeeps(ls[n - 1], saved);
        case Restart(_) =>
      }
    }
  }

  /** A save that failed matters exactly when a restart follows before the next successful one: the first
      event stamped afterwards reuses coordinates if and only if the saved cursor had fallen behind. */
  lemma ReusedIffBehind(l: Life, newEpoch: string, saved: bool)
    requires Inv(l) && l.doc.Some? && Enabled(l, Restart(newEpoch))
    ensures var l' := Next(Next(l, Restart(newEpoch)), Stamp(saved));
            Distinct(l'.stamped) <==> l.doc.value.cursor == l.cursor
  {
    var l' := Next(Next(l, Restart(newEpoch)), Stamp(saved));
    var c := Coord(l.epoch, l.doc.value.cursor + 1);
    assert l'.stamped == l.stamped + [c] && l'.stamped[|l.stamped|] == c;
    if l.doc.value.cursor < l.cursor {
      assert c in l.stamped;
      var i :| 0 <= i < |l.stamped| && l.stamped[i] == c;
      assert l'.stamped[i] == c;
    }
  }

  // ---- the hub's own restart -----------------------------------------------

  /** The hub hands out the life's coordinates. */
  predicate Shows(l: Life, h: HubSpec.HubState)
  {
    l.epoch == h.epoch && l.cursor == h.cursor
  }

  /** The hub and its life go on together; a restart finds the hub where it was, but for its window,
      exactly when the saved cursor had not fallen behind. */
  lemma LivesTogether(l: Life, h: HubSpec.HubState, ev: Event, saved: bool, newEpoch: string)
    requires Inv(l) && Shows(l, h)
    ensures Shows(Next(l, Stamp(saved)), HubSpec.Stamp(h, ev))
    ensures Next(l, Stamp(saved)).stamped[|l.stamped|] == Coord(HubSpec.Stamped(h, ev).epoch, HubSpec.Stamped(h, ev).cursor)
    ensures l.doc.Some? && l.doc.value.epoch != "" && l.doc.value.cursor <= |h.log| ==>
              Shows(Next(l, Restart(newEpoch)), HubSpec.RestartedAt(h, l.doc.value.cursor))
    ensures l.doc.Some? ==> (Shows(Next(l, Restart(newEpoch)), HubSpec.Restarted(h)) <==> Synced(l))
  {
  }
}
