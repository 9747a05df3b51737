# muster, verified

A Dafny model of the parts of muster that have to stay right across every interleaving, restart and rename,
with proofs of what they keep. Each part is modelled twice: as the objects, loops and in-place edits of the
Go source, and as pure functions on values that those are proved to compute. The properties of whole runs
are proved on the functions.

Run `dafny verify dfyconfig.toml` in this directory.

| file | models |
|---|---|
| `Seqs.dfy`, `Fleet.dfy` | sequence facts and the stable sort; events, filters, scopes |
| `HubSpec.dfy`, `Hub.dfy` | the event hub: one cursor sequence, a bounded ring, bounded subscriber channels, resumption |
| `LongPoll.dfy`, `Holes.dfy`, `Watch.dfy` | a long-poll client beside the hub, over every interleaving and restart; runs that end in a hole, and when a life's history is exact; the handler over the hub's objects |
| `Restart.dfy` | the cursor and epoch across restarts and failed saves |
| `Pump.dfy`, `Upkeep.dfy` | the retrying pump; the union filter, peer streams and the linger window |
| `RenameSpec.dfy`, `Rename.dfy`, `RenameRuns.dfy` | rename corroboration: operations, objects, every run |
| `RenameSilence.dfy`, `RenameLog.dfy` | which watches never get a verdict; what verdicts rest on |
| `HistorySpec.dfy`, `HistoryScan.dfy`, `HistoryObserve.dfy` | closed-session history as values; the scan; one whole observation |
| `HistoryPrune.dfy`, `HistoryListing.dfy`, `HistoryRuns.dfy` | what pruning early shows; what one listing makes of a session; every run of the history store |
| `HistoryFields.dfy` | records and tombstones, field by field |
| `TombList.dfy`, `History.dfy` | the tombstone list in its buffer; the history store as objects |
| `Sweep.dfy` | the coalescing background sweep |
| `LabelSpec.dfy`, `Labels.dfy`, `LabelRuns.dfy`, `LabelWorld.dfy` | the label store: operations, objects, every run, and runs beside the sessions it labels |
| `Report.dfy`, `SuiteSpec.dfy`, `SuiteRuns.dfy`, `Runner.dfy` | the compatibility report; suites; what a run promises; the runner's loops |
| `Sender.dfy`, `Attest.dfy` | the sender name's fixed point; the envelope and its inverse |
| `Resolve.dfy` | which driver answers for a bare session id |

How to read it: every method that changes an object says what its whole new state is, usually as a function of
the old one (`View()`, `Records()`). Every lock-protected method is one step. Instants are integers, driver
answers are parameters, and where the source iterates over a map the iteration order is a parameter or an
arbitrary choice, so a result holds for all of them.

## Where the code does less than its comments say

The model follows the code; each difference has a lemma that states it, and where it only sometimes shows, when.

- An empty ring after a restart accepts any older cursor of the saved epoch without a resync
  (internal/service/events.go:216-222 against internal/service/service.go:36-41). `HubSpec.ResumeExactIff`,
  `HubSpec.RestartedWindowAcceptsOlderCursor`; for a long poll, `LongPoll.StartCaughtIff`, `Holes.RestartedServiceSkips`.
- A replayed backlog ignores scope, live delivery does not (internal/service/events.go:223-227 against
  internal/service/events.go:159). `HubSpec.LocalReplayIff`, `HubSpec.PeerEventIsReplayed`.
- `dropped` is set and never read: a poll that is answered after its channel overflowed and was drained again is
  answered with a hole and no resync (internal/service/events.go:173, internal/service/http.go:721-774).
  `LongPoll.FinishExactIff`, `LongPoll.RunExactIff`, `Holes.SlowClientLosesAnEvent`.
- The first fleet-scope subscriber gets no peer streams when the stream was on without them and its filter does not
  change (internal/service/events.go:416-417 against internal/service/events.go:433).
  `Upkeep.FleetSubscriberServedIff`, `Upkeep.LateFleetSubscriberGetsNoPeers`.
- A filter on a directory admits a session's creation and never its state, close or labels, because those events carry
  no directory (internal/service/events.go:373-383, internal/driver/driver.go:333-337); a recycled id is then not
  announced by a close as the filter's comment says. `Fleet.DirectoryFilterAdmitsCreationsOnly`.
- A replaced rename watch never gets a verdict (internal/service/rename_corroboration.go:131-134): a watch is cut off from
  one exactly when it has none and its machine and id were renamed to again. `RenameSilence.SilencedIff`,
  `RenameSilence.ReplacedNeverDecided`; a run, `RenameSilence.ReplacedWatchIsSilent`.
- A timer callback already under way when its watch is replaced decides the replacement at once, whatever its window
  (internal/service/rename_corroboration.go:148-163). `RenameRuns.EarlyIffStale`,
  `RenameRuns.StaleCallbackDecidesEarly`.
- A close decides between contested and unconfirmed only; a gap seen before it makes no difference there
  (internal/service/rename_corroboration.go:169-228). `RenameRuns.VerdictsSound`.
- One listing withdraws only the newest premature tombstone of a session (internal/service/history.go:521-534).
  `HistorySpec.WithdrawRemovesOne`, `HistoryRuns.ClosedTwiceStaysClosed`.
- Pruning tombstones early cannot be observed; pruning seen records early can (internal/service/history.go:222-245).
  `HistorySpec.LazyRetention`, `HistoryPrune.SeenPruneObservedIff`.
- A relayed rename drops the record kept under the new id without a tombstone (internal/service/history.go:370-381).
  `HistoryObserve.RenameConservesIff`.
- A creation under an id with a record of an earlier session writes over its start without a tombstone, where a listing
  of the same session writes one (internal/service/history.go:283-309 against internal/service/history.go:449-458).
  `HistoryRuns.CreatedOverIsForgotten`.
- A record carried to a session's new id keeps its old last sighting, so the save that follows can prune it: the session
  is listed and nothing is left of it until the next listing (internal/service/history.go:469-498).
  `HistoryRuns.ListedIsForgotten`.
- When an operation leaves nothing of a session, by either of these or any other way, is stated exactly on the state before
  it. `HistoryRuns.ForgetsIff`; over whole runs, `HistoryRuns.ForgottenIff`.
- A save that fails before a restart makes cursors be given out again; a client whose cursor is at or above them is not
  resynced once they are, and skips what was stamped anew (internal/service/service.go:246-264,
  internal/service/events.go:201-222). `Restart.ReusedIffBehind`, `Holes.SplicedExactIff`, `Holes.LaggingSaveSkips`.
- When two missing records compete for one newly listed session, who is carried depends on map order
  (internal/service/history.go:469-488). `HistoryObserve.OrderFreeIff`.
- Labels follow the run as long as renames go through the service. A session renamed by hand, labelled, and renamed
  back before a listing reads its old labels (internal/service/labels.go:115-203). `LabelWorld.LabelsFollowLiveSessions`,
  `LabelRuns.ReadsWrongIff`, `LabelRuns.RenamedByHandReadsStale`.
- When two orphans with different labels want one session, whose labels it gets depends on map order
  (internal/service/labels.go:246-273). `LabelSpec.RetainOrderIff`.
- A refused merge is said to change nothing; looking the record up has already dropped it when the id was recycled
  (internal/service/labels.go:168-187). `LabelSpec.RefusedMergeChangesNothingIff`.
- Validation lets a probe need itself; it never runs (internal/compat/run.go:114). `SuiteRuns.RunsIffNeedsComplete`,
  `SuiteRuns.SelfNeedIsValidAndNeverRuns`.

## Model

A row that begins with "Remark" unfolds a definition; it is there to be read beside the results.

| member | source | states |
|---|---|---|
| Fleet.FilterAdmits | internal/service/events.go:359-383 | which events a filter admits, by their payloads: a session's creation, state, close and labels exactly when that session is asked for; control events and events about no session always |
| Fleet.DirectoryFilterAdmitsCreationsOnly | internal/service/events.go:359-383 | a directory filter never admits the state, close or label event of a session, and its creation exactly when it is under it and asked for |
| HubSpec.StampKeepsInv | internal/service/events.go:139-187 | stamping keeps the ring the contiguous tail of the log, within retention, one epoch, ending at the cursor, and every subscriber's account true |
| HubSpec.AddKeepsInv | internal/service/events.go:191-229 | so does adding a subscriber, whatever it asks to resume from |
| HubSpec.RemoveKeepsInv | internal/service/events.go:231-238 | so does removing one |
| HubSpec.ReceiveKeepsInv | internal/service/http.go:797-809 | so does a reader taking an event off its channel |
| HubSpec.DeliverKeepsSub | internal/service/events.go:157-175 | what a subscriber was sent is a subsequence of what it is owed, its channel holds the tail, and it is marked dropped exactly when something owed was omitted |
| HubSpec.BacklogIsSuffix | internal/service/events.go:223-227 | the replay of the ring is the filter-matching suffix of everything ever stamped after the cursor |
| HubSpec.ResumeExact | internal/service/events.go:191-229 | a cursor accepted without resync gets exactly that suffix, if anything is in the ring or the cursor is current |
| HubSpec.ResumeExactIff | internal/service/events.go:216-222 | and only then: the condition is exact over all filters |
| HubSpec.RestartedWindowAcceptsOlderCursor | internal/service/events.go:216-222 | two events, a restart, and the first one's cursor: accepted without a resync, nothing replayed, one event missed |
| HubSpec.ResyncIff | internal/service/events.go:201-222 | a resync is announced exactly for a caller with a cursor or an epoch, and a foreign epoch, a cursor from the future, or one the window lost |
| HubSpec.StreamExactWhileNotDropped | internal/service/events.go:139-229 | replay followed by the channel is the matching suffix of the log if and only if the subscriber is not marked dropped (fleet scope) |
| HubSpec.SentIff | internal/service/events.go:157-175 | live delivery, event by event: a subscriber is sent only events stamped after it joined, from its scope, about sessions it asked for or about none, and all of them unless it is marked |
| HubSpec.ReplayedIff | internal/service/events.go:216-229 | and a resumed one is replayed exactly the events of the window after its cursor about such sessions |
| HubSpec.LocalReplayIff | internal/service/events.go:223-227 | a local subscriber's replay is what live delivery would have sent exactly when no matching event came from a peer |
| HubSpec.PeerEventIsReplayed | internal/service/events.go:223-227 | a peer's event is replayed to a local subscriber that live delivery sends nothing |
| HubSpec.RestartedInv | internal/service/service.go:246-264 | the restored coordinates with an empty window satisfy the hub's invariant |
| Hub.Hub.constructor | internal/service/events.go:126-135 | a new hub is the initial state: a window of 512, renames watched for an hour |
| Hub.Hub.Restore | internal/service/service.go:246-264 | a restored hub has the saved epoch and cursor and an empty ring |
| Hub.Subscriber.Offer | internal/service/events.go:157-175 | scope, filter, then a non-blocking send or, with 64 waiting, the dropped mark, and nothing else |
| Hub.Subscriber.DrainReady | internal/service/http.go:797-809 | everything queued is taken, in order |
| Hub.Hub.StampAndFanOut | internal/service/events.go:140-176 | publish's critical section computes the stamping function on the whole state |
| Hub.Hub.Publish | internal/service/events.go:139-187 | publish with its recursion for verdicts terminates and computes stamp, observe, stamp |
| Hub.PublishStampsOneOrTwo | internal/service/events.go:177-186 | each publish stamps what it was given, and after it one verdict exactly when it closes an undecided watched session, naming that rename; the log only grows |
| Hub.VerdictsAreFinal | internal/service/events.go:177-186 | publishing a verdict observes nothing and asks for nothing further |
| Hub.Hub.Add | internal/service/events.go:191-229 | add's branches compute the resumption function: new subscriber, backlog, resync |
| Hub.Hub.Remove | internal/service/events.go:231-238 | removes that subscriber and no other, if it is there |
| Hub.ResumeCursor | internal/service/http.go:818-825 | the last positive cursor of a batch, else what the caller had |
| LongPoll.StepKeeps | internal/service/http.go:681-774 | every step of service, restarts, other subscribers and client keeps the client's history exact; only an answer that arrives asks for a gapless poll that began with nothing missed |
| LongPoll.WholeRunExact | internal/service/http.go:721-825 | from any cursor, over any interleaving with timeouts, aborts, lost answers and restarts, the concatenated batches are exactly the matching events between start and cursor, when no answer follows a drop and cursors meet a window that is not empty, or nothing to miss |
| LongPoll.RunExactIff | internal/service/http.go:721-825 | over every such run the history is exact all along if and only if every answer that arrived came from a gapless poll that began with nothing missed |
| LongPoll.StartCaughtIff | internal/service/events.go:191-229 | a poll begins with something missed exactly when an empty window accepts its cursor although a matching event was stamped after it |
| LongPoll.FinishExactIff | internal/service/http.go:749-772 | a finishing poll keeps the history exact if and only if nothing was put on its channel after a drop and it began with nothing missed |
| LongPoll.LateDeliveryLoses | internal/service/events.go:166-175 | a poll that took an event sent after a drop has skipped a matching one below its cursor |
| LongPoll.OnePollCatchesUp | internal/service/http.go:744-772 | an accepted poll with something to replay answers at once with all of it |
| LongPoll.UndroppedIsGapless | internal/service/events.go:166-175 | Remark: a subscriber that is not marked has no gap |
| Holes.SlowClientLosesAnEvent | internal/service/http.go:749-772 | a run from a fresh client, 65 events before it wakes and one after, to an answer without resync that lacks the 65th |
| Holes.RestartedServiceSkips | internal/service/service.go:246-264 | a run with a restart to an answer without resync that skips an event |
| Holes.SplicedExactIff | internal/service/service.go:246-264 | after a restart from a saved cursor that had fallen behind, a client accepted at or above it has the new sequence exactly when the matching events at the reused cursors are the same; what was stamped anew there is skipped |
| Holes.LaggingSaveSkips | internal/service/service.go:246-264 | a reachable hub and client where an event is skipped so |
| Watch.Begin | internal/service/http.go:715-747 | up to the wait: subscribe, and answer at once with a resync that leaves the cursor, or with the whole backlog |
| Watch.Woken | internal/service/http.go:756-772 | woken by an event: everything queued is answered in order, with the cursor of the last, and the subscriber is gone |
| Watch.TimedOut | internal/service/http.go:755-772 | woken by the timer: an empty batch and the caller's own cursor |
| Watch.BeginIsPollStart | internal/service/http.go:715-747 | the handler's first part is the first step of a poll in the interleaved system |
| Watch.WokenIsTakeDrainFinish | internal/service/http.go:756-772 | its second part is taking, draining and finishing there, whatever is queued |
| Restart.NoCursorReused | internal/service/service.go:246-264 | with successful saves no cursor of an epoch is stamped twice, over any number of restarts |
| Restart.ReusedIffBehind | internal/service/service.go:246-264 | after a restart the next cursor is a reused one exactly when the saved cursor had fallen behind |
| Restart.LivesTogether | internal/service/service.go:246-264 | the hub stamps the coordinates of its life; after a restart it stands where it stood exactly when the saved cursor had not fallen behind |
| Pump.Pump | internal/service/events.go:467-522 | the whole trace is the one its turns call for and is honest: every loss announced once and waited out, every return announced, all that streams delivered forwarded in order; it stops exactly when cancelled or unsupported, with a gap open unless cancelled before announcing it |
| Pump.BetweenStreams | internal/service/events.go:467-522 | between two streams, any refusals in between: one gap, one doubling wait for each turn lost, then opened, restored status, feed-gap resync, and nothing else |
| Pump.LostFor | internal/service/events.go:486-519 | after a stream is lost, n refusals later: one gap and n + 1 waits |
| Pump.TakeTurn | internal/service/events.go:475-515 | one turn keeps the trace honest and leaves a gap open unless it is cancelled first |
| Pump.Drain | internal/service/events.go:525-549 | forwards everything the stream delivers, in order, with no gap open |
| Pump.GapsAlternate | internal/service/events.go:554-594 | between two gaps there is a restored status immediately followed by a feed-gap resync |
| Pump.ForwardAfterGapFollowsResync | internal/service/events.go:579-594 | no event is forwarded between a gap and the resync that closes it |
| Pump.NextBackoffIsDoubling | internal/service/events.go:609-615 | the k-th wait is min(500ms doubled k times, 30s) |
| Pump.LastTurnIsNotWaitedOut | internal/service/events.go:468-520 | a cancelled turn, or a driver that cannot stream at all: the loss is announced if it is new and nobody cancelled before, and nothing is waited for |
| Upkeep.UnionFilter | internal/service/events.go:338-356 | everything as soon as one subscriber names nothing, else each named id once |
| Upkeep.UnionAdmits | internal/service/events.go:338-371 | the union admits every event a subscriber admits |
| Upkeep.UnionIsTight | internal/service/events.go:338-356 | a named union admits only ids somebody named |
| Upkeep.SameFilter | internal/service/events.go:617-631 | computes the one-sided comparison as written |
| Upkeep.SameIsSetEquality | internal/service/events.go:617-631 | on unions it is equality of sets |
| Upkeep.SameNeedsDistinctIds | internal/service/events.go:617-631 | with duplicates it is neither symmetric nor set equality |
| Upkeep.EqualDemandIsSame | internal/service/events.go:416-417 | two unions of the same demands never restart the stream |
| Upkeep.Stream.EnsureStream | internal/service/events.go:392-441 | with a subscriber the stream runs on a union of the demands; peers are pumped iff somebody wants them, unless an unchanged filter returned early |
| Upkeep.Stream.Subscribe | internal/service/service.go:300-307 | a subscriber's events pass the driver's filter from then on |
| Upkeep.Stream.Unsubscribe | internal/service/events.go:271-290 | the last one leaving arms the linger timer and leaves the stream as it is; while others stay it still covers them |
| Upkeep.Stream.LingerExpired | internal/service/events.go:292-307 | stops the stream exactly when nobody came back |
| Upkeep.FleetSubscriberServedIff | internal/service/events.go:409-436 | when a fleet subscriber gets peer streams, exactly |
| Upkeep.LateFleetSubscriberGetsNoPeers | internal/service/events.go:416-417 | a run in which it gets none |
| Rename.RenamePlane.WatchRename | internal/service/rename_corroboration.go:116-142 | registers a watch, stopping and replacing the key's current one |
| Rename.RenamePlane.ResolveWindow | internal/service/rename_corroboration.go:148-163 | a deadline decides an unresolved watch by its gap flag, once |
| Rename.RenamePlane.FinalizeLocked | internal/service/rename_corroboration.go:249-265 | resolves the watch, stops its timer, and builds its verdict event |
| Rename.RenamePlane.MarkRecreated | internal/service/rename_corroboration.go:175-196 | marks exactly the unresolved watches of the machine whose old id is created with the start they were registered with |
| Rename.RenamePlane.MarkGap | internal/service/rename_corroboration.go:236-244 | marks exactly the machine's unresolved watches |
| Rename.RenamePlane.Observe | internal/service/rename_corroboration.go:169-228 | the event switch: flags, or a verdict for the closed id |
| RenameRuns.EveryRunKeepsInv | internal/service/rename_corroboration.go:116-265 | over every interleaving, flags say what was observed since registration, timers belong to current watches, decided verdicts are queued or stamped |
| RenameRuns.VerdictsSound | internal/service/rename_corroboration.go:144-244 | every verdict is on an earlier watch and is exactly the one the observations in between call for |
| RenameRuns.RegistersIff | internal/service/rename_corroboration.go:116-142 | an accepted rename is watched iff it has two ids that differ, with its deadline a window away and nothing observed; a replaced watch's timer is stopped |
| RenameRuns.VerdictMeaning | internal/service/rename_corroboration.go:144-244 | in fields of the events: a verdict follows the new id's first close there, or the deadline; contested iff it is a close and the old id was created on that machine with that start, both known, in between; corroborated iff it is the deadline and that machine had no resync and no degraded source since |
| RenameRuns.AtMostOneVerdict | internal/service/rename_corroboration.go:148-265 | a watch is decided at most once and its verdict stamped at most once |
| RenameRuns.VerdictAfterAccept | internal/service/rename_corroboration.go:272-285 | a stamped verdict follows the event that accepted its rename, and both carry its machine, ids and start |
| RenameRuns.OnlyReplacementSilences | internal/service/rename_corroboration.go:126-141 | a watch is decided, still current with its timer live, or replaced: nothing else can leave it without a verdict |
| RenameSilence.SilencedIff | internal/service/rename_corroboration.go:126-163 | over every run and every continuation of it: a watch can never get a verdict any more if and only if it has none and a later rename to its machine and id was registered |
| RenameSilence.ReplacedNeverDecided | internal/service/rename_corroboration.go:131-134 | over every run a watch replaced at some point has no verdict at the end, and none stamped |
| RenameSilence.ReplacedStays | internal/service/rename_corroboration.go:116-265 | every step keeps a replaced watch replaced and undecided |
| RenameSilence.ReplacedWatchIsSilent | internal/service/rename_corroboration.go:131-163 | a run in which a replaced watch's own callback decides the other one, and it is cut off itself |
| RenameLog.EveryRunInLog | internal/service/events.go:139-187 | over every run the events observed and those waiting to be are together exactly those stamped, and at no time were more observed |
| RenameLog.VerdictsRestOnTheLog | internal/service/rename_corroboration.go:169-228 | contested iff it is a close's verdict and a stamped creation of the old id there, with the registered start, was observed in between; every verdict not the deadline's follows a stamped close of the new id |
| RenameRuns.OwnCallbackWaits | internal/service/rename_corroboration.go:135-141 | a verdict from the watch's own timer waits out the full window |
| RenameRuns.EarlyIffStale | internal/service/rename_corroboration.go:148-163 | over every run, a callback gives a verdict before the decided watch's window is over if and only if its timer is not that watch's and the window is still open |
| RenameRuns.StaleCallbackDecidesEarly | internal/service/rename_corroboration.go:148-163 | a run in which an old timer's callback decides the replacement at once |
| HistorySpec.LazyRetention | internal/service/history.go:538-551 | pruning tombstones at any earlier instant does not change any later list |
| HistorySpec.ListedExactly | internal/service/history.go:538-555 | a list is newest first and has, of each instant, all retained tombstones in stored order or none |
| HistorySpec.WithdrawRemovesOne | internal/service/history.go:521-534 | one withdrawal removes exactly the newest contradicting tombstone; none is left iff there was at most one |
| HistoryScan.ScanConserves | internal/service/history.go:469-488 | each judged record is carried or ended, never both; carried ones sit unchanged under their run's new id, ended ones have one tombstone, the rest is untouched |
| HistoryScan.FatesDetermined | internal/service/history.go:469-517 | without rivals, who is carried where is a function of the records alone |
| HistoryScan.ScanConfluent | internal/service/history.go:469-488 | then seen map, tombstone multiset and remaining sessions do not depend on iteration order |
| HistoryScan.RivalsDiverge | internal/service/history.go:469-488 | with rivals the tombstones do depend on it |
| HistoryObserve.EveryRecordHasOneFate | internal/service/history.go:410-498 | each prior record has exactly one fate, by the listing: untouched, exited, kept updated, left, carried or ended |
| HistoryFields.MissingIff | internal/service/history.go:469-498 | a listing ends or carries exactly its runtime's records that a complete listing lacks, last sighted before it was asked for, whose exit was not captured |
| HistoryFields.RecycledIff | internal/service/history.go:449-458 | an id is taken over exactly when it is listed for a session of another start, both known |
| HistoryFields.CreateWrites | internal/service/history.go:283-309 | the record a create leaves, field by field: blanks never over what is known |
| HistoryFields.RenameWrites | internal/service/history.go:370-381 | the record a rename leaves: under the new id and name, else as it was |
| HistoryFields.ListingWrites | internal/service/history.go:441-468 | the record a listed session is left with: started over exactly when both starts are known and differ, else refreshed, blanks never over what is known |
| HistoryFields.NewListingWrites | internal/service/history.go:469-498 | a listed session without a record gets one, as it is listed, unless a missing record of its run is carried to it |
| HistoryFields.CarryWrites | internal/service/history.go:469-498 | and that one keeps all but its id and name |
| HistoryFields.CloseWrites | internal/service/history.go:385-404 | the tombstone a relayed close leaves, field by field: what the record knew, named by its id if it had no name; the id alone if there was none |
| HistoryFields.ListingTombstones | internal/service/history.go:335-353 | a tombstone is there after a listing iff it was and is not withdrawn, or is one captured exit's, with the driver's instant and status, or one ended or taken-over record's, closed now, with what the record knew |
| HistoryObserve.TombstonesBalance | internal/service/history.go:410-498 | tombstones after plus withdrawn are those before plus one per exit, recycled id and absence; none by absence on an incomplete listing |
| HistoryObserve.SeenCount | internal/service/history.go:410-498 | the seen count moves by uncarried new sessions less known exits less absences |
| HistoryObserve.WithdrawnWerePremature | internal/service/history.go:441-448 | only relayed closes of listed sessions are withdrawn |
| HistoryObserve.ObserveConfluent | internal/service/history.go:410-498 | a whole call does not depend on iteration order without rivals |
| HistoryObserve.OrderFreeIff | internal/service/history.go:469-517 | the tombstones of a call are the same for every iteration order if and only if no two missing records of a complete listing compete for one new session |
| HistoryPrune.SeenPruneObservedIff | internal/service/history.go:222-245 | for any records, tombstones and listing, an early prune of seen records leaves the same tombstones if and only if no expired record that says anything exits, none is taken over or ended, and no missing record's explanation changes |
| HistoryPrune.LonePruneIsObservable | internal/service/history.go:222-245 | the smallest case: a lone record's tombstone is lost exactly when it had expired |
| HistoryPrune.ExpiredCarryIsUnobserved | internal/service/history.go:469-517 | an expired record that would have been carried is pruned without a trace |
| HistoryPrune.AbsenceTombsAre | internal/service/history.go:410-498 | without rivals the absence tombstones of a call are, from the state before it, those of the records taken over and of the missing ones nothing explains |
| HistoryPrune.WithdrawnIgnoresSeen | internal/service/history.go:441-448 | what a listing withdraws does not depend on the seen records |
| HistoryObserve.RenameConservesIff | internal/service/history.go:370-381 | Remark: a relayed rename loses a record exactly when one was kept under the new id |
| HistoryRuns.ForgetsIff | internal/service/history.go:222-498 | an operation leaves nothing of a session if and only if it loses every record of it, every tombstone not withdrawn has expired, and it is not sighted anew: a condition on the state before it, for every iteration order |
| HistoryRuns.ForgottenIff | internal/service/history.go:222-498 | over every run a remembered session is forgotten at the end if and only if some operation forgot it, exactly so, and none after that met it |
| HistoryRuns.NothingVanishes | internal/service/history.go:222-498 | over every run of creations, renames, closes, listings and saves, a session once remembered still has a record or a tombstone, or an operation since lost one of it in a stated way: expiry, an old exit, a rename onto its id, a creation under its id |
| HistoryRuns.EverySightedIsAccounted | internal/service/history.go:283-498 | so is every session a creation or a listing ever sighted with a known start |
| HistoryListing.ListedIsKept | internal/service/history.go:410-498 | every listed session has a record with its start, sighted now or carried to it |
| HistoryListing.LoneIsCarried | internal/service/history.go:469-517 | the one missing record of a start that one new session has is carried, for every iteration order |
| HistoryListing.NotLoneEnds | internal/service/history.go:469-517 | of a start with no such session, or with rivals for it, some missing record is ended |
| HistoryListing.LeftIffNotWithdrawn | internal/service/history.go:521-534 | of the tombstones of a start one listed session has, a listing withdraws the newest that contradicts it and no other |
| HistoryRuns.CreatedOverIsForgotten | internal/service/history.go:357-366 | a run after which nothing is left of a session whose id another was created under |
| HistoryRuns.ListedIsForgotten | internal/service/history.go:469-498 | a run after whose last listing a listed session has no record and no tombstone |
| HistoryRuns.ClosedTwiceStaysClosed | internal/service/history.go:521-534 | a run after which a listed session is still in the list of closed ones |
| TombList.Tombs.Compact | internal/service/history.go:222-236 | the in-place compaction is the order-preserving filter |
| TombList.Tombs.RemoveIndex | internal/service/history.go:529 | the in-place removal takes out that element and closes up |
| TombList.Tombs.Append | internal/service/history.go:311-327 | append keeps the contents and adds one, in a larger buffer if it must |
| History.SeenRecord.Refresh | internal/service/history.go:283-309 | a sighting never forgets; it reports exactly a change a tombstone would carry |
| History.HistoryStore.SightLocked | internal/service/history.go:283-309 | sights one session and no other |
| History.HistoryStore.TombstoneLocked | internal/service/history.go:311-327 | appends the record's tombstone: its fields in their places, named by its id if it has no name |
| History.HistoryStore.WithdrawLocked | internal/service/history.go:521-534 | removes the newest contradicting tombstone, if any, in place |
| History.HistoryStore.PruneLocked | internal/service/history.go:222-245 | drops exactly what expired from both collections and says whether anything was |
| History.HistoryStore.SaveLocked | internal/service/history.go:250-270 | prunes, and remembers when |
| History.HistoryStore.Created | internal/service/history.go:357-366 | a create through the service is a sighting, then a save, and the create step of every run; an empty id is nothing |
| History.HistoryStore.Renamed | internal/service/history.go:370-381 | a relayed rename moves the record, then saves: the rename step |
| History.HistoryStore.ClosedByRequest | internal/service/history.go:385-400 | a relayed close forgets the record and writes its tombstone, thin if it was never sighted: the close step |
| History.HistoryStore.List | internal/service/history.go:538-551 | answers without pruning |
| History.HistoryStore.Observe | internal/service/history.go:410-498 | the loops compute the reconciliation for some iteration order, and the listing step of every run; what is not saved differs only in last sightings |
| History.HistoryStore.ScanAbsent | internal/service/history.go:469-488 | the loop that deletes and inserts while iterating computes the scan in the order it ran |
| History.FindCarry | internal/service/history.go:503-517 | the one session of the run, or none |
| Sweep.SweepsCoalesce | internal/service/history.go:609-633 | at most one sweep is under way, starts never exceed requests, and at rest every request was followed by a start |
| Sweep.AlwaysMovesOn | internal/service/history.go:617-632 | short of rest a step is possible, and each one brings rest nearer |
| Sweep.LeftAloneStartsWhatIsOwed | internal/service/history.go:606-633 | without new requests the service starts exactly the sweeps it owes |
| Sweep.BurstIsOneSweep | internal/service/history.go:611-615 | any burst during one sweep buys one more |
| Sweep.Sweeper.RequestSweep | internal/service/history.go:609-618 | the flags and the launch are the request step's |
| Sweep.Sweeper.LookAgain | internal/service/history.go:623-630 | the flags and going around again are the recheck step's |
| LabelSpec.RefusedMergeChangesNothingIff | internal/service/labels.go:168-187 | Remark: a refused merge changes nothing exactly when the id was not recycled |
| LabelSpec.MergeThenGet | internal/service/labels.go:171-203 | what a merge accepts, the session reads back, key by key: a given value replaces, a key without one is gone, any other is as it was |
| LabelSpec.GetSays | internal/service/labels.go:115-146 | Remark: a read is the record's labels unless there is none or it is of another start, both known |
| LabelSpec.MergeWrites | internal/service/labels.go:190-203 | an accepted merge leaves the session one record, written now, with the start it had or else the caller's, or none when nothing is left; no other session's changes |
| LabelSpec.RetriedCreate | internal/service/labels.go:148-166 | a retried create changes nothing and reads what is there |
| LabelSpec.BoundsAreKept | internal/service/labels.go:151-218 | every stored map stays within bounds and not empty |
| LabelSpec.ReattachedExactly | internal/service/labels.go:258-273 | which ids end up labelled, and by which orphan, exactly |
| LabelSpec.RetainAccounts | internal/service/labels.go:237-277 | every record kept, moved to its run's session unchanged, or lost only for want of one or because it was taken |
| LabelSpec.RetainLeavesLive | internal/service/labels.go:237-277 | afterwards every record of the runtime names a live session or is newer than the listing |
| LabelSpec.RetainLeavesAlone | internal/service/labels.go:246-257 | it leaves alone another runtime's records, live sessions' and newer ones |
| LabelSpec.LaterWritesSurvive | internal/service/labels.go:230-257 | what a create, a merge or a rename wrote after a listing was asked for survives it, whatever it names |
| LabelSpec.RetainConfluent | internal/service/labels.go:246-273 | which ids are labelled never depends on map order; whose labels does only where two orphans that differ want one session without a record |
| LabelSpec.RetainOrderIff | internal/service/labels.go:246-273 | and there it does: the result is the same for every order if and only if there are no two such |
| Labels.ValidateLabels | labels.go:68-86 | accepts exactly the maps of at most 16 labels, with keys of 1 to 128 bytes and no colon, and values of at most 128 bytes |
| Labels.ApplyPatch | internal/service/labels.go:176-186 | key by key: a given value replaces what was there, a key without one is taken away, every other stays as it was |
| Labels.LabelStore.FindLocked | internal/service/labels.go:115-135 | finds a record, of any runtime when none is named, and drops it if it is of an earlier session |
| Labels.LabelStore.Get | internal/service/labels.go:138-146 | the session's labels, or none |
| Labels.LabelStore.SetIfAbsent | internal/service/labels.go:151-166 | writes only where there was nothing to keep |
| Labels.LabelStore.Merge | internal/service/labels.go:171-203 | the validated result is stored, or refused |
| Labels.LabelStore.Rekey | internal/service/labels.go:206-218 | the record moves with its session |
| Labels.LabelStore.Remove | internal/service/labels.go:221-228 | the record goes with its session |
| Labels.LabelStore.Retain | internal/service/labels.go:237-277 | the two loops compute the reconciliation for the order they iterated in |
| LabelRuns.CoherentIff | internal/service/labels.go:115-277 | of all operations only a write beside another record of the same run can leave a record with labels that are not the last written, and it always does |
| LabelRuns.ReadsWrongIff | internal/service/labels.go:115-277 | over every run of sole writes up to its last operation, some read then returns labels that are neither none nor the last written if and only if that operation is a write that is not sole |
| LabelRuns.LabelsFollowTheRun | internal/service/labels.go:115-277 | over every run of other writes a read returns nothing or the last labels written to a session with that startedAt |
| LabelRuns.RenamedByHandReadsStale | internal/service/labels.go:188-200 | a run in which a read is stale |
| LabelWorld.LabelsFollowLiveSessions | internal/service/labels.go:115-277 | over every run of creates, merges, renames, closes, unobserved ends, recycled ids and listings, a live session reads exactly what was last written to it |
| LabelWorld.ListingCatchesUp | internal/service/labels.go:230-277 | after renames by hand one complete listing re-attaches every lagging record |
| Report.Report.Finalize | internal/compat/compat.go:127-161 | rewrites and sorts the checks in place into the finalized report and sets pass exactly when it certifies |
| Report.Report.ExitCode | internal/compat/compat.go:172-192 | 1 iff some check that is not a warning failed without an error, 0 iff there are checks and all but warnings passed without one (so exactly when pass is set), else 2 |
| Report.FinalizeIdempotent | internal/compat/compat.go:127-161 | finalizing twice is finalizing once |
| Report.ReportOrderIsStrictWeak | internal/compat/compat.go:143-154 | the comparator is a strict weak order for any catalogue |
| Report.FinalizedReport | internal/compat/compat.go:127-161 | a permutation; gates and relied-on lists are the catalogue's; a check passes iff it was given as a pass and no error; the rest is as given |
| Report.ReportOrderSays | internal/compat/compat.go:143-154 | any two checks of a report: as the catalogue has them, catalogued before not, and those it has not by id, character by character |
| Report.FinalizeIgnoresInputOrder | internal/compat/compat.go:127-161 | with distinct ids the report does not depend on input order |
| Report.FailureOutranksErrors | internal/compat/compat.go:163-192 | the exit code of a finalized report, from the checks it was given: a proven must failure outranks everything |
| SuiteRuns.NeedsComeFirst | internal/compat/run.go:195-201 | every need other than a self-need is placed strictly before its user |
| SuiteRuns.SuiteOrderWithinStage | internal/compat/run.go:195-201 | within a stage the probes that run are the suite's needed ones, in suite order |
| SuiteRuns.EveryProbeMeetsItsFate | internal/compat/run.go:208-234 | a probe's outcome is a fact about the suite until the run is cancelled; after that none starts |
| SuiteRuns.RunsIffNeedsComplete | internal/compat/run.go:215-228 | a probe runs iff it does not need itself and everything it needs at any remove completed; then it completes iff it has no error, which is kept |
| SuiteRuns.OnlyErrorsAndSelfNeedsBlock | internal/compat/run.go:97-118 | in a valid suite nothing but an error or a self-need keeps a probe from completing |
| SuiteRuns.OnlyRestrictsTheResults | internal/compat/run.go:166-242 | a restricted run returns exactly the full run's results for those checks, in suite order |
| SuiteRuns.SelectedIsFilter | internal/compat/run.go:248-270 | the selected checks are those whose id is asked for, in suite order, or all |
| SuiteRuns.ResultSays | internal/compat/run.go:334-364 | every result is its check's, under the gate first catalogued: an error iff a probe it reads did not complete or its judgement is one, a pass iff all completed and it is a pass; without evidence it names the first such probe and its error |
| SuiteRuns.EvidenceIff | internal/compat/run.go:208-242 | without cancellation, a check has its evidence iff nothing its probes reach fails or needs itself |
| SuiteRuns.CertifiedIff | internal/compat/compat.go:127-192 | from probes to exit code: 0 iff there are checks and all but warnings have evidence and pass, 1 iff one has evidence and fails; a probe that did not complete brings about neither |
| SuiteRuns.SelfNeedIsValidAndNeverRuns | internal/compat/run.go:114 | a valid suite with a probe that never runs |
| SuiteSpec.WellFormedIff | internal/compat/run.go:97-138 | Remark: what a well-formed suite is, in its probes and checks |
| Runner.Validate | internal/compat/run.go:97-138 | no error if and only if the suite is well formed; an error names a fault the suite has |
| Runner.SelectChecks | internal/compat/run.go:248-270 | the checks asked for in suite order, or an error, exactly when an id names nothing that can run, that names one |
| Runner.Closure.Pull | internal/compat/run.go:179-189 | the recursion marks the probe and only what it reaches, and finishes what it marks |
| Runner.Closure.PullAll | internal/compat/run.go:190-194 | exactly the probes reachable from the selected checks are marked |
| Runner.Execute | internal/compat/run.go:208-234 | the loop computes each probe's turn: cancelled, blocked by its first need that did not complete, or run |
| Runner.Run | internal/compat/run.go:166-242 | refused exactly for an invalid suite or selection; else the results of a run over exactly the probes needed, each saying what `SuiteRuns.ResultSays` tells |
| Sender.NormaliseIdempotent | internal/inboxclient/sender.go:86-101 | the receiver's normaliser is idempotent |
| Sender.SenderNameIsFixed | internal/inboxclient/sender.go:59-80 | a name sent has at most 64 runes, is a fixed point, and has nothing the envelope uses |
| Sender.SentNameIsPlain | internal/inboxclient/sender.go:59-80 | rune by rune: all assigned and visible, no quote, bracket or line break, no space at an end |
| Sender.LastGuardNeverFires | internal/inboxclient/sender.go:71-79 | the last guard never fires: a name is dropped only when nothing survives or a rune is unassigned |
| Sender.FittingNameIsSent | internal/inboxclient/sender.go:59-80 | a name that is already the receiver's and fits is sent unchanged |
| Sender.PlainNameIsSent | internal/inboxclient/sender.go:59-80 | and every such name of at most 64 runes is sent unchanged |
| Sender.LongNameIsCut | internal/inboxclient/sender.go:59-80 | a longer one is sent as its first 63 runes, less spaces at the cut, and an ellipsis |
| Sender.AssignedIsSafeUnderNewerTables | internal/inboxclient/sender.go:108-123 | a name sent stays a fixed point under any newer Unicode tables |
| Sender.UnassignedIsUnsafe | internal/inboxclient/sender.go:108-123 | and a name with an unassigned rune is changed by some |
| Attest.AttestsIff | internal/inboxclient/attest.go:71-84 | attests exactly under one of the two classes and for a text without any of the sixteen runes, whatever the name |
| Attest.AttestedReads | internal/inboxclient/attest.go:135-153 | Remark: the string that is sent, character by character |
| Attest.ParsePrint | internal/inboxclient/attest.go:135-153 | what is printed parses back to name, class and body |
| Attest.PrintParse | internal/inboxclient/attest.go:135-153 | and whatever parses prints back to the same string |
| Attest.AttestedSurvives | internal/inboxclient/attest.go:86-134 | the receiver recovers text, class and normalised name, and its rebuild is the very string that arrived |
| Resolve.ProbeHolders | internal/service/service.go:1136-1163 | two disjoint sets: who affirms the id, and who failed otherwise than with no such session or no support |
| Resolve.ResolveSessionDriver | internal/service/service.go:1013-1097 | the decision, branch by branch; a bare id among several drivers never goes past a runtime that has it, whoever that is |
| Resolve.BareIdGoes | internal/service/service.go:1050-1097 | to the one driver that has it; refused iff several have it, or none has it and some cannot say |
| Resolve.MissGoesToDefault | internal/service/service.go:1050-1097 | when each answers no such session or no support, a registered default answers for it |
| Resolve.ResolutionIsDetermined | internal/service/service.go:1013-1097 | map order never shows in it |
| Resolve.NoFalseAbsence | internal/service/service.go:972-1012 | a bare id never goes past its owner: to one that has it, or to the default only when nobody does |
| Resolve.DefaultIsOnlyATiebreak | internal/service/service.go:972-1012 | once anyone affirms the id or cannot be asked, the default cannot change the answer |

## Left out

- HistoryRuns.NothingVanishes: speaks of sessions whose start is known; one whose start nobody reported has no identity but its id. That an unknown start is kept by one call is `HistoryObserve.EveryRecordHasOneFate`.
- HTTP routing, JSON, SSE framing, headers and audit logging: plumbing over library code.
- Authentication, grants, relay trust, doctor, configuration, enrolment and process launching.
- The tmux, opencode and remote drivers: a driver is what it answers, as a parameter.
- Saving and loading documents: a save is a step that succeeds or not (`Restart`), and otherwise no more than its effect in memory; exit-screen files are not modelled.
- The interleavings inside `ensureStream`, which reads and writes the hub in several critical sections: the call is one step in `Upkeep`, and the hub's own steps in `LongPoll` do not depend on it.
- Integer widths: cursors are unbounded. Clocks: an instant is an integer, and a timer may fire at any step after it is due.
- Strings are sequences: bytes for labels, runes for names and bodies; invalid UTF-8 is not modelled.
- Messages of errors (`Validate`, `ValidateLabels`, `ResolveSessionDriver`) beyond which one it is; `ValidateLabels` reports only whether there is one.
- `ResolveOnly`, `ErroredAll`, probe budgets and the run's log: a probe's and a check's outcome is a parameter, panics included.
- The listing that feeds `observe` and `retain` (`ListSessions`), which decides what is complete: complete and its instant are parameters.
- The receiving runtime's own parser and escaper: `Attest` has a parser of the envelope's grammar and any escaper that needs a lookalike to fire.
- LabelWorld.LabelsFollowLiveSessions: no two sessions ever start at one instant, on any runtime, where the source lets two sessions share an instant; a listing is taken and reconciled in one step; a stale snapshot is covered by `LabelRuns.LabelsFollowTheRun` and `LabelSpec.RetainAccounts`, which hold for any.
- Hub.Hub.Valid: says where the objects are; what their values keep is `HubSpec.Inv`, which every method's function preserves.
- Report.Report.SliceStable: the library's stable sort is its specification, not an algorithm.
