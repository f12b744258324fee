# Verified model of the Verdandi core

This project models five parts of Verdandi and states what they are for as theorems over every input
and every run.

- **The push fixture** (`astra/bench/push.cpp`). A hub keeps a table of values, a ring of 512 published
  events and 16384 latency stamps. Each session keeps a cursor into the ring, a circular write queue of
  17 slots, at most 8 pending replies and the flags of its stream. Every handler is atomic, so the
  whole is a transition system: `HubModel.dfy` has its steps and the inductive invariant over the hub
  and all sessions, `Session.dfy` the part of one session, `PushTheorems.dfy` what follows for every
  run. `PushLag.dfy` says when a session is ended for lag and `PushCauses.dfy` for what else, `PushLog.dfy`
  what every step publishes and under which key (`KeyNames.dfy`), `PushRecord.dfy` which reports are counted
  and as what, `PushAnswers.dfy` and `PushHistory.dfy` where replies come from, `PushProgress.dfy` when a
  session can still end well.
  `Reactor.dfy` is a monitor of the calls a session makes on its stream. It keeps its own account of what
  is outstanding and remembers any broken rule. `PushHub.dfy` has the objects themselves,
  with ring, stamps and queues updated in place, and shows that each method is a step of the model.
- **Admission** (`astra/common/src/admission.cpp`). `AdmissionModel.dfy` has the check of a response and
  its declarative meaning, `AdmissionRuns.dfy` the state machine and its invariant, `AdmissionSteps.dfy`
  what each step does, `AdmissionLife.dfy` what stays fixed over the life of a process, `Admission.dfy` the
  object.
- **The baseline workload** (`testkit/baseline`). `Workload.dfy` has the routing of records and
  subscriptions over the Stars and the loop of one writer, `WriterRuns.dfy` all writers interleaved,
  `FinalView.dfy` the final check, `FinalRun.dfy` the two together.
- **Source synchroniser and profile reader** (`testkit/campaign.py`, `testkit/profile.py`):
  `SyncModel.dfy`, `SyncExact.dfy`, `SyncHistory.dfy`, `Synchronizer.dfy`, `Profile.dfy`.
- **Typed Redis hashes** (`sdk/go`): `RedisNumbers.dfy`, `RedisHash.dfy`, `RedisFields.dfy`.

Counters and sizes are unbounded integers unless a row says otherwise; the Redis number parser is the
place where the width is the point, and there every intermediate value is shown to fit.

## Where the code does less than it says

**The synchroniser** writes a file through `name + ".verdandi-sync-tmp"`. A file that has this very name
is overwritten and then moved away, without a backup. Everything follows from that, and is stated for
every package and tree that passed the check, with conditions that can be read off the package and the
tree before the first write:

- The final check can fail (`SyncHistory.DisorderlyExample`); `SyncExact.FinalCheckExactly` says when.
- Files outside the package can disappear (`SyncHistory.StrangerExample`);
  `SyncExact.OthersUntouchedExactly` says when.
- A displaced content can be lost although the outcome is a success (`SyncHistory.LostExample`);
  `SyncHistory.HistoryKeptExactly` says when.
- A second attempt can be refused by the check (`SyncHistory.LostExample`);
  `SyncHistory.PartwayPassesExactly` says when. What it would do is never different:
  `SyncHistory.RerunConverges`.

A content that is replaced without a backup outside these cases has the digest of its replacement. No
assumption about collisions is made.

**Admission.** The comment at `astra/common/src/admission.hpp:129-131` calls the credential and the time
endpoint fixed from the first success. For the credential that is so exactly for Stars
(`AdmissionLife.CredentialIsFixedExactly`, with the failing run in `AdmissionLife.Reissued`). For the
endpoint the exact conditions are in `AdmissionLife.PulseIsFixedExactly` and
`AdmissionLife.OthersPulseExactly`. What every role has installed is the latest success
(`AdmissionLife.LatestIsInstalled`).

**Redis.** An accepted store does not promise an accepted load: a store is limited by what it sends, a
load by the whole hash. `RedisFields.StoreAndLoad` gives the exact condition and
`RedisFields.StoreSpoilsLoad` a hash for which it fails.

## Model

| member | source | states |
|---|---|---|
| `PushTheorems.FinishedSessionsAreComplete` | astra/bench/push.cpp:124-139 | in every run, a session that called Finish with an OK status has delivered, in order, every broadcast from its join up to and including Drained, then Completed and nothing after it; replaying what it delivered over the table of its join gives the hub's table |
| `PushTheorems.FinishedIsFinal` | astra/bench/push.cpp:319-321 | once the producer has finished, no step of any kind changes the log, the table or the revision |
| `PushTheorems.FinishedStaysFinal` | astra/bench/push.cpp:378-381 | the same over every continuation of a run, so the table a finished session reproduces is the final one |
| `PushTheorems.SessionsMissNothing` | astra/bench/push.cpp:162-174 | in every run, what a joined session has taken is exactly the published events from its join to its cursor, with no gap and no repeat; without an error its delivered broadcasts are a prefix of what was published since its join |
| `PushLag.LagIsExact` | astra/bench/push.cpp:124-174 | for every reachable state, every step and every session open before it: the step ends that session for lag if and only if it is the successful completion of a write of that session, other than Completed, which leaves room for a broadcast the ring has already lost; so no read, publication, join or metadata step ever does |
| `PushLag.LagHappens` | astra/bench/push.cpp:167-171 | some run does end its session for lag |
| `SessionModel.OverwrittenByDistance` | astra/bench/push.cpp:168 | an event is lost from the ring exactly when at least 512 events follow it |
| `PushTheorems.NoLostWakeup` | astra/bench/push.cpp:152-197 | between handlers: an open idle writer has nothing queued, no pending reply, an up-to-date cursor and no buffered last write; at most 15 hinted writes in a row; an open session that is not reading has 8 replies and 17 queued writes; a closing session not yet finished waits for a write or for metadata |
| `PushTheorems.ReactorDiscipline` | astra/bench/push.cpp:108-139 | in every run: at most one read and one write outstanding, the message in flight is always the head slot, no read into a message in use, Finish at most once and never before metadata or during a write, queues within 17 and 8 |
| `PushTheorems.TableHoldsLatest` | astra/bench/push.cpp:319-333 | the key set never changes; an updated entry holds the last update of its key, whose revision is the largest, and any other entry is the initial one |
| `PushTheorems.SampledIffRecent` | astra/bench/push.cpp:283-285 | a stamp is found for a revision if and only if it is among the last 16384 revisions |
| `PushTheorems.StatisticsAreExact` | astra/bench/push.cpp:224-235 | in every run: accepted non-final reports = samples + expired, the histogram sums to the samples, every percentile is the nearest-rank bucket, p50 <= p95 <= p99 |
| `PushTheorems.PublishIsAtomic` | astra/bench/push.cpp:253-262 | a valid publication becomes the next update, in the log and in an existing entry, and is answered Accepted, or changes nothing and is answered Rejected, according to whether the producer has finished |
| `PushHistory.EveryReplyIsEarned` | astra/bench/push.cpp:248-299 | in every run every reply of every session, sent or waiting, was earned at one step of the run, by a message of that very session, followed through all arrivals and departures; the steps behind the replies of a session come in the order of the replies |
| `PushHistory.AcceptedMeansUpdate` | astra/bench/push.cpp:258-261 | in every run the step behind an Accepted reply is a publication with that request, and its data is in the log as the next update of that moment |
| `PushHistory.UpdatesAreUnshared` | astra/bench/push.cpp:258-261 | a step stands behind one reply of one session only; two Accepted replies, of one session or of two, stand for different updates, and the earlier step has the earlier one |
| `PushHistory.RejectedMeansNothing` | astra/bench/push.cpp:258-261 | in every run the step behind a Rejected reply is a publication with that request and leaves the whole hub as it was |
| `PushHistory.ReportsAreTrue` | astra/bench/push.cpp:270-276 | in every run every Completed event is the summary of its own session in the state in which that session asked: the exact number of samples and of expired reports of that moment, and the nearest-rank percentiles of these samples, in ascending order |
| `PushProgress.EndsWellExactly` | astra/bench/push.cpp:263-276 | in every run in which the producer has finished: an open joined session can still end without an error if and only if it joined before Drained was published and the ring still holds its next event; if so, successful completions and one final progress message alone bring it there |
| `PushProgress.GoodEndHappens` | astra/bench/push.cpp:263-276 | some run can be carried on to an end without an error |
| `PushAnswers.StepAnswers` | astra/bench/push.cpp:248-299 | in every step every session gets exactly the replies its own message earns, in order, and the pump loses or reorders none |
| `PushLog.StepWrites` | astra/bench/push.cpp:319-333 | every step writes exactly this to the log: an update with the next revision, the data and the domain of the step, under the key of the entry whose turn it is, and its time, or Ready, a snapshot, Drained, or nothing |
| `PushLog.UpdatesTakeTurns` | astra/bench/push.cpp:79-85 | in every run an update of revision r has as its key the literal prefix of its domain and six digits whose decimal value is r modulo the hot entries, or modulo the entries of the domain when none are hot |
| `PushLog.SameEntryExactly` | astra/bench/push.cpp:79-85 | two updates of a run change the same entry if and only if they are of one domain and their revisions agree modulo that number |
| `PushLog.RevisionMade` | astra/bench/push.cpp:322-324 | every revision of a run was made by a step of it, and the time kept for it is the one that step gave |
| `PushLog.MadeOnce` | astra/bench/push.cpp:322-324 | and by one step only |
| `PushRecord.ReportsAreTimed` | astra/bench/push.cpp:277-291 | in every run: a counted report of revision r adds one sample, in the 100-microsecond bucket of the time between the step that made r and the report, if fewer than 16384 revisions follow r; otherwise one expired report and no sample |
| `PushRecord.StepNotes` | astra/bench/push.cpp:236-291 | in every step the samples, expired reports, last progress and join of every session change by its own join and its own reports, in exactly that way, and by nothing else |
| `PushRecord.JoinedAtTheEnd` | astra/bench/push.cpp:237-247 | a session that joins misses nothing published before or after: its cursor is the number of the next event, and one more recipient is counted |
| `PushCauses.EveryEndHasItsCause` | astra/bench/push.cpp:100-142 | for every reachable state, step and open session: the step ends the session with the stated reason, well, or not at all, as a table of causes over messages, completions and the log says; a first message that is not an accepted join, or one beyond the limit, is such a cause |
| `PushCauses.FirstEndDecides` | astra/bench/push.cpp:198-206 | a closing session keeps the status of its first end in every further step |
| `Histogram.RankIsFound` | astra/bench/push.cpp:228-234 | whatever rank is looked for, the scan ends in the bucket of the sample of that rank |
| `HubModel.BucketBounds` | astra/bench/push.cpp:287-288 | a bucket spans 100 microseconds, so a reported percentile is an upper edge of the delay it stands for; the clamped ends are the only exceptions |
| `HubModel.StepKeeps` | astra/bench/push.cpp:210-217 | the inductive invariant over the hub and all sessions is kept by every enabled step: connect, metadata, read, write, cancel, done, the producer's steps and shutdown |
| `HubModel.StartIsSound` | astra/bench/push.cpp:65-78 | the invariant holds of a new hub |
| `HubModel.HandleKeeps` | astra/bench/push.cpp:236-300 | the invariant survives the handling of a control message, with the nested apply, publish and pump of the same session, while that session still uses its input |
| `HubModel.ReadCompletedKeeps` | astra/bench/push.cpp:108-123 | the whole read handler re-establishes the invariant |
| `HubModel.AnnounceAll` | astra/bench/push.cpp:314-318 | a publication leaves every session in step with the longer log |
| `HubModel.HaltKeeps` | astra/bench/push.cpp:387-393 | shutdown keeps the invariant |
| `SessionModel.PumpKeeps` | astra/bench/push.cpp:152-197 | pump keeps the session invariant and leaves no work that could have been started |
| `SessionModel.WriteKeeps` | astra/bench/push.cpp:124-139 | the write handler re-establishes the invariant, for successful and failed writes |
| `SessionModel.MetadataKeeps` | astra/bench/push.cpp:100-107 | the metadata handler re-establishes the invariant |
| `SessionModel.FailKeeps` | astra/bench/push.cpp:198-206 | fail keeps the invariant and leaves a closing session that has finished or waits for a write or for metadata |
| `SessionModel.FillKeeps` | astra/bench/push.cpp:162-183 | the filling loop keeps the order and completeness of what the session takes |
| `SessionModel.FillStops` | astra/bench/push.cpp:162-183 | the filling loop stops only on a full queue or with no reply and no broadcast left |
| `SessionModel.FillTakes` | astra/bench/push.cpp:162-183 | the filling loop in one formula: the waiting replies in order, then the next events of the log, as many as the 17 places hold and as the ring still has |
| `SessionModel.HintsAreExact` | astra/bench/push.cpp:184-195 | a write starts exactly when there is one to make and metadata is out; it is the head of the queue, and hinted exactly when it is an update with another event behind it and fewer than 15 hinted writes before it in a row |
| `SessionModel.OneWriteAtATime` | astra/bench/push.cpp:184-195 | while a write is under way pump starts no other |
| `SessionModel.PumpFailsExactlyOnLag` | astra/bench/push.cpp:167-171 | an open session is closed by pump exactly when the next event it has room for is lost, with the lag status |
| `SessionModel.ReadKeeps` | astra/bench/push.cpp:218-223 | read keeps the session invariant: one read at a time, none into a message in use, none without room for its reply |
| `SessionModel.NoteKeeps` | astra/bench/push.cpp:282-290 | a progress report keeps the statistics consistent |
| `SessionModel.CompletedKeeps` | astra/bench/push.cpp:265-276 | a Completed reply for the drained revision keeps the invariant, in which Completed only follows every broadcast up to Drained |
| `Slots.HolderIsLive` | astra/bench/push.cpp:172 | slot k % size of a ring still holds entry k exactly while fewer than size entries follow it |
| `Histogram.PercentileIsNearestRank` | astra/bench/push.cpp:224-235 | the reported value is the upper edge of the bucket holding the sample of nearest rank; the value for an exhausted scan is never reached |
| `Histogram.PercentileMonotone` | astra/bench/push.cpp:274-276 | a higher percentage never reports a lower latency |
| `Histogram.RankIsLeast` | astra/bench/push.cpp:225 | the rank is the least number that is at least the given percentage of the samples |
| `Histogram.TallyRecord` | astra/bench/push.cpp:288-289 | counting one sample keeps the histogram equal to the multiset of samples |
| `Keys.PaddedInjective` | astra/bench/push.cpp:82-83 | zero-padded six-digit numbers are different for different indices below the limit |
| `Keys.NameInjective` | astra/bench/push.cpp:79-85 | keys differ when the domain or the index differs |
| `Keys.InitialSize` | astra/bench/push.cpp:65-78 | the initial table has exactly registries + catalogs entries |
| `Keys.KeyExists` | astra/bench/push.cpp:79-85 | under the checked options every update names an existing entry; which one is in PushLog.UpdatesTakeTurns |
| `KeyNames.NameSpells` | astra/bench/push.cpp:82-84 | the key of entry n is the prefix of its domain and the six decimal digits of n |
| `KeyNames.UpdateKeySpells` | astra/bench/push.cpp:79-85 | the key of an update is that of entry revision modulo the entries that take turns |
| `KeyNames.OneKeyPerEntry` | astra/bench/push.cpp:82-84 | a key names one entry of one domain, and an entry has one key |
| `KeyNames.InitialEntries` | astra/bench/push.cpp:65-78 | entry n of a domain is in the first table if and only if n is below the size of the domain; it has revision 0 and a payload of the stated length that starts with n, little-endian, and goes on with ones |
| `KeyNames.InitialNames` | astra/bench/push.cpp:65-78 | and the first table has no other key |
| `PushHub.Hub.constructor` | astra/bench/push.cpp:65-78 | the new hub represents the model's start |
| `PushHub.Hub.FillDomain` | astra/bench/push.cpp:67-77 | the loop over one domain seeds exactly its entries |
| `PushHub.Hub.Append` | astra/bench/push.cpp:315 | the next ring slot takes the event and no session notices |
| `PushHub.Hub.Publish` | astra/bench/push.cpp:314-318 | writing the ring slot and pumping all sessions is one publication of the model |
| `PushHub.Hub.PumpSessions` | astra/bench/push.cpp:316-317 | every session is pumped once and none disturbs another |
| `PushHub.Hub.Store` | astra/bench/push.cpp:322-324 | the entry, the revision and the stamp slot change together and the stamp table still holds the latest revision of each slot |
| `PushHub.Hub.Apply` | astra/bench/push.cpp:319-333 | an update is refused exactly when the producer has finished, and otherwise is the model's update; the table lookup cannot miss |
| `PushHub.Hub.Begin` | astra/bench/push.cpp:337-341 | the producer's first publication is Ready |
| `PushHub.Hub.Drain` | astra/bench/push.cpp:378-381 | the end of the producer publishes Drained with the last revision |
| `PushHub.Hub.Shutdown` | astra/bench/push.cpp:387-393 | all sessions are failed and the hub stops |
| `PushHub.Hub.StopOne` | astra/bench/push.cpp:140-142 | failing one session leaves the hub and the other sessions alone |
| `PushHub.Hub.OnSendInitialMetadataDone` | astra/bench/push.cpp:100-107 | the handler is the model's step |
| `PushHub.Hub.OnReadDone` | astra/bench/push.cpp:108-123 | the handler is the model's step, with the nested publication |
| `PushHub.Hub.OnWriteDone` | astra/bench/push.cpp:124-139 | the handler is the model's step |
| `PushHub.Hub.OnDone` | astra/bench/push.cpp:143-149 | exactly the finished session leaves the list |
| `PushHub.Hub.Synchronize` | astra/bench/push.cpp:95-99 | a new session registers itself and asks for its first message |
| `PushHub.Hub.Admit` | astra/bench/push.cpp:237-247 | a first message that is not an accepted join, or one beyond the recipient limit, ends the session; a join fixes the cursor |
| `PushHub.Hub.Forward` | astra/bench/push.cpp:253-262 | a published message is refused, accepted or rejected as the model says |
| `PushHub.Hub.Advance` | astra/bench/push.cpp:263-292 | a progress report ends the session, completes it, or counts as sample or expired |
| `PushHub.Hub.Complete` | astra/bench/push.cpp:265-276 | only the drained revision completes a session, with its statistics |
| `PushHub.Hub.HandleControl` | astra/bench/push.cpp:236-300 | any control message, nested publication included, is handled as the model says |
| `PushHub.Hub.HandlePublish` | astra/bench/push.cpp:253-262 | a publication reaches every session, the publishing one included |
| `PushHub.Hub.HandleOwn` | astra/bench/push.cpp:249-298 | messages other than a publication change this session alone |
| `PushHub.Session.Read` | astra/bench/push.cpp:218-223 | a read is started under exactly the model's condition |
| `PushHub.Session.Enqueue` | astra/bench/push.cpp:175-182 | the event goes to the slot after the last queued one of the circular queue |
| `PushHub.Session.TakeNext` | astra/bench/push.cpp:162-183 | one round of the filling loop: replies first, then broadcasts, or the reason to stop |
| `PushHub.Session.FillQueue` | astra/bench/push.cpp:162-183 | the filling loop over the circular queue and the shared ring computes the model's queue, cursor and lag verdict |
| `PushHub.Session.Launch` | astra/bench/push.cpp:184-195 | the next write and its buffer hint |
| `PushHub.Session.Pump` | astra/bench/push.cpp:152-197 | pump on the circular queue and the shared ring is the model's pump of the event log |
| `PushHub.Session.Fail` | astra/bench/push.cpp:198-206 | the first failure decides the status |
| `PushHub.Session.OnWriteDone` | astra/bench/push.cpp:124-139 | the head slot is left and the queue moves on |
| `PushHub.Session.Observe` | astra/bench/push.cpp:278-291 | a report is a sample in its bucket, or expired |
| `PushHub.Session.Percentile` | astra/bench/push.cpp:224-235 | the summing loop computes the nearest-rank percentile |
| `PushHub.WindowPush` | astra/bench/push.cpp:175-182 | filling the free slot appends to the circular queue and disturbs no queued slot, the one in flight included |
| `PushHub.WindowPop` | astra/bench/push.cpp:127-131 | leaving the head slot removes exactly the first queued event |
| `PushHub.RingPush` | astra/bench/push.cpp:315 | every ring slot keeps holding the latest event written to it |
| `PushHub.StampPush` | astra/bench/push.cpp:324 | every stamp slot keeps holding the latest revision written to it |
| `AdmissionModel.ValidateMeaning` | astra/common/src/admission.cpp:154-230 | a response is accepted if and only if it satisfies a declarative predicate over the unordered directory |
| `AdmissionModel.OrderDoesNotMatter` | astra/common/src/admission.cpp:188-207 | acceptance does not depend on the order of the returned members |
| `AdmissionModel.AcceptedDirectory` | astra/common/src/admission.cpp:188-218 | on success members and services together are exactly the decoded directory; at most one Polaris, which shares no id, principal or address with a Star; a Star is in its own member list |
| `AdmissionModel.SortMeaning` | astra/common/src/admission.cpp:188-207 | the loop over the members succeeds exactly for a sound directory, and then splits it into stars and services |
| `AdmissionModel.CapacityExactly` | astra/common/src/admission.cpp:158-210 | a response is refused for its size if and only if its endpoint is good and a limit is passed: 8192 members, 8 for a Planet, or more Stars than the configuration allows in an otherwise sound directory |
| `AdmissionRuns.StepKeeps` | astra/common/src/admission.cpp:49-150 | every begin, poll, completion and cancel keeps the invariant |
| `AdmissionRuns.FreshIsSound` | astra/common/src/admission.hpp:103-134 | the invariant holds of a new object |
| `AdmissionRuns.OneIdentity` | astra/common/src/admission.cpp:178 | all successes of a run carry the same local identity, and for a Star the same credential |
| `AdmissionRuns.AdmissionIsPermanent` | astra/common/src/admission.cpp:69-97 | after the first success the identity stays; a Star keeps its admission bytes and signature and from then on only sends List with them, never Register |
| `AdmissionRuns.FailureChangesNothing` | astra/common/src/admission.cpp:154-218 | a step that returns no success leaves the identity, the credential and the endpoint untouched |
| `AdmissionRuns.CancelIsFinal` | astra/common/src/admission.cpp:233-240 | after cancel no RPC starts, no attempt begins, no success is returned and the identity state is frozen; the pending attempt yields one cancelled result |
| `AdmissionRuns.OneResultPerBegin` | astra/common/src/admission.cpp:49-66 | accepted begins = results + 1 if pending; a call object exists exactly in the registration phase; revocation needs a prior success |
| `AdmissionRuns.RevocationIsSticky` | astra/common/src/admission.cpp:131-133 | a revocation is never withdrawn |
| `AdmissionSteps.RevokedExactly` | astra/common/src/admission.cpp:126-133 | in every run the process is revoked if and only if some poll of it took a List call that was answered Unauthenticated or PermissionDenied, a cancelled attempt included |
| `AdmissionSteps.StepDoes` | astra/common/src/admission.cpp:49-150 | what every step sends, begins, revokes and returns, told by the step and the state before it, both directions |
| `AdmissionLife.LatestIsInstalled` | astra/common/src/admission.cpp:220-226 | in every run identity, credential and endpoint are those of the latest success, and there are none before one; a process that is not a Star has only ever sent Register |
| `AdmissionLife.CredentialIsFixedExactly` | astra/common/src/admission.hpp:129-130 | the credential stays after the first success, in every environment and run, if and only if the role is Star |
| `AdmissionLife.Reissued` | astra/common/src/admission.cpp:88-96 | for every other role, an environment and two attempts that change the credential |
| `AdmissionLife.PulseIsFixedExactly` | astra/common/src/admission.hpp:131-132 | the endpoint an admitted Star holds stays in every continuation if and only if it is cancelled, or the formatter leaves the endpoint alone or refuses it |
| `AdmissionLife.OthersPulseExactly` | astra/common/src/admission.hpp:131-132 | for any other role: if and only if it is cancelled, or holds no endpoint and the formatter never yields one |
| `AdmissionObject.Admission.constructor` | astra/common/src/admission.hpp:103-134 | a new object is idle with nothing installed |
| `AdmissionObject.Admission.Begin` | astra/common/src/admission.cpp:49-66 | a begin that is not idle or is cancelled is ignored |
| `AdmissionObject.Admission.StartRegistration` | astra/common/src/admission.cpp:69-97 | List with the held credential for an admitted Star, Register otherwise |
| `AdmissionObject.Admission.SortMembers` | astra/common/src/admission.cpp:183-207 | the loop over the encoded members equals the fold of the model |
| `AdmissionObject.Admission.ValidateResponse` | astra/common/src/admission.cpp:154-230 | failure-atomic: fields change only on success |
| `AdmissionObject.Admission.Conclude` | astra/common/src/admission.cpp:126-148 | a finished call is consumed once and its result recorded |
| `AdmissionObject.Admission.Connect` | astra/common/src/admission.cpp:108-123 | cancel and timeout end the attempt, a ready channel starts one call |
| `AdmissionObject.Admission.Finish` | astra/common/src/admission.cpp:126-149 | a result is returned exactly when the call has completed |
| `AdmissionObject.Admission.Poll` | astra/common/src/admission.cpp:100-150 | one poll is one step of the state machine and returns exactly the result it records |
| `AdmissionObject.Admission.Cancel` | astra/common/src/admission.cpp:233-240 | the flag is set and nothing else changes |
| `AdmissionObject.Admission.Completed` | astra/common/src/admission.cpp:89-96 | a completion touches only its own call |
| `AdmissionObject.Admission.Pending` | astra/common/src/admission.cpp:243-245 | pending exactly while an accepted begin has no result |
| `FinalView.Verify` | testkit/baseline/workload.hpp:242-260 | the bitmap check accepts if and only if, for every watcher, the delivered payloads are a permutation of the latest payloads of exactly its group's records |
| `FinalView.VerifyView` | testkit/baseline/workload.hpp:246-256 | one view passes exactly when its payloads are well formed, of its group, at the latest version and without repetition |
| `FinalView.FullBitmap` | testkit/baseline/workload.hpp:259 | no bit is missing exactly when every view holds every record of its group |
| `FinalView.SlotInjective` | testkit/baseline/workload.hpp:253 | different (record, subscription) pairs have different slots |
| `FinalView.ContentFields` | testkit/baseline/workload.hpp:112-117 | record and version are read back from a payload |
| `FinalView.ContentOfFields` | testkit/baseline/workload.hpp:247-252 | a payload that passes the field checks is the payload of that record and version |
| `FinalView.ExactIfChecked` | testkit/baseline/workload.hpp:246-259 | pigeonhole: good, unrepeated and complete payloads are a permutation of the wanted ones |
| `FinalView.CheckedIfExact` | testkit/baseline/workload.hpp:246-259 | and the other way round |
| `FinalRun.VerifyRun` | testkit/baseline/workload.hpp:242-260 | after a fixed-rate run, however the writers interleaved, the final check accepts if and only if every subscription holds exactly the last payload written to each record of its group |
| `Words.DecodeEncode` | testkit/baseline/workload.hpp:114-115 | a 64-bit word survives its byte encoding |
| `Words.EncodeDecode` | testkit/baseline/workload.hpp:249-250 | and eight bytes survive their decoding |
| `Routing.OpenClients` | testkit/baseline/comet.cpp:13-20 | client c of the first half is on Star c modulo the Stars, and its consuming partner one Star further |
| `Routing.AssignRecords` | testkit/baseline/comet.cpp:21-30 | record r is produced by client r modulo the clients, whose Star is the record's |
| `Routing.AssignWatchers` | testkit/baseline/comet.cpp:34-41 | subscription w follows group w / fanout on consuming client w modulo the clients, on the Star of the subscription |
| `Routing.Subscribe` | testkit/baseline/comet.cpp:35-40 | one subscription follows its group on a consuming client of its Star |
| `Routing.GroupReachesStar` | testkit/baseline/workload.hpp:50-63 | the subscriptions of every group reach every Star |
| `Routing.RecordSeenEverywhere` | testkit/baseline/workload.hpp:60-63 | every record is watched on its own Star and on all others |
| `Routing.WriterStaysOnStar` | testkit/baseline/workload.hpp:144 | all records of a writer lie on one Star |
| `Routing.SpreadIsEqual` | testkit/baseline/workload.hpp:50-53 | records and writers are spread equally over the Stars |
| `WriterRuns.StepKeeps` | testkit/baseline/workload.hpp:140-146 | every operation of every writer, in any interleaving, keeps the invariant over the shared versions and everything written |
| `WriterRuns.EveryIndexOnce` | testkit/baseline/workload.hpp:140 | when all writers have stopped, whatever the interleaving, each global index below the total was performed exactly once and no other |
| `WriterRuns.VersionsRiseByOne` | testkit/baseline/workload.hpp:144-146 | at every moment of every interleaving the versions written to a record are 2, 3, 4 and so on in order, and the counter is the last of them |
| `WriterRuns.InterleavingIsIrrelevant` | testkit/baseline/workload.hpp:140-146 | at every moment of every interleaving the record and the version of an operation are a closed formula of its global index |
| `Schedule.RunWriter` | testkit/baseline/workload.hpp:140-146 | one writer performs exactly its indices below the total, its k-th write has the stated record and version, and other writers' records are untouched |
| `Schedule.WriteNext` | testkit/baseline/workload.hpp:144-146 | one operation raises one version by one |
| `Schedule.IndexPartition` | testkit/baseline/workload.hpp:140 | every global index is the operation of exactly one writer |
| `Schedule.RecordsAreDisjoint` | testkit/baseline/workload.hpp:144 | the record index is in range and belongs to one writer only |
| `Schedule.BlockTouchesEachOnce` | testkit/baseline/workload.hpp:144 | every block of records/writers consecutive operations touches each of the writer's records once |
| `SyncExact.FinalCheckExactly` | testkit/campaign.py:119-120 | after a passed check the final verification succeeds if and only if every temporary name that is a manifest name is itself written later |
| `SyncExact.OthersUntouchedExactly` | testkit/campaign.py:118 | files that are not worked on stay as they were if and only if none of them has the temporary name of a changed file |
| `SyncExact.DroppedAreAbsent` | testkit/campaign.py:112-115 | dropped names are absent, whatever the temporary names |
| `SyncExact.InsideNames` | testkit/campaign.py:112-118 | the exact content of tree and history at every name of the work |
| `SyncHistory.HistoryKeptExactly` | testkit/campaign.py:114-118 | after a passed check every content of the old tree is in the history, or one of its digest in the tree, if and only if every file at a temporary name is written by the package itself: before the owner of the name when its content has to be replaced, after it when it is as wanted |
| `SyncHistory.InstallIsExact` | testkit/campaign.py:112-120 | manifest names verified, dropped names absent, other files untouched and nothing lost: exactly under the three conditions together |
| `SyncHistory.DisplacedIsPrevious` | testkit/campaign.py:106-115 | after a passed check with an empty history, at every moment every content in the history at a name has the digest the previous manifest gives that name, so only what the sender last installed is ever displaced |
| `SyncModel.PassesMeans` | testkit/campaign.py:106-110 | the check passes if and only if every name is safe, no name has a current digest, or absence, that neither the previous nor the new manifest gives it, and every packed content has its digest |
| `SyncHistory.PartwayPassesExactly` | testkit/campaign.py:106-108 | the tree left after k names passes the check again if and only if every temporary name used so far that is in both manifests has been written since |
| `SyncHistory.AlwaysResumable` | testkit/campaign.py:106-108 | that is so after every number of names if and only if no temporary name of a changed file is in both manifests |
| `SyncHistory.RerunConverges` | testkit/campaign.py:112-118 | the same work from the tree left after any number of names reaches the same tree and the same history, for every package and tree |
| `SyncHistory.DisorderlyExample` | testkit/campaign.py:118-120 | a package that passes every check before the first write, loses a file it does not work on and fails its final verification |
| `SyncHistory.StrangerExample` | testkit/campaign.py:118 | a package that is reported as installed and removes a file that is in neither manifest |
| `SyncHistory.LostExample` | testkit/campaign.py:114-118 | a package that is reported as installed and loses a content, and that is refused when it is resumed after its first name |
| `Synchronizer.Remote.CheckNames` | testkit/campaign.py:106-108 | passes exactly when every visited name is safe and not in conflict, and writes nothing; SyncModel.PassesMeans says what that is |
| `Synchronizer.Remote.CheckArchive` | testkit/campaign.py:109-110 | accepts exactly the archives whose contents have the manifest digests |
| `Synchronizer.Remote.InstallOne` | testkit/campaign.py:113-118 | backup, temporary file and move of one name |
| `Synchronizer.Remote.InstallNames` | testkit/campaign.py:112-118 | the loop over changed and dropped names |
| `Synchronizer.Remote.CheckFinal` | testkit/campaign.py:119-120 | the final loop accepts exactly a tree with every manifest digest |
| `Synchronizer.Remote.Check` | testkit/campaign.py:106-110 | passes exactly when every check before the first write does; a disputed name makes it fail |
| `Synchronizer.Remote.Apply` | testkit/campaign.py:106-120 | a name whose current digest is in neither manifest refuses the package and leaves tree and history as they were; nothing is written unless the check passes; after that the package alone decides the outcome, every displaced content has its previous digest, dropped names are absent, and other files stay and displaced contents are kept exactly under the stated conditions |
| `Profile.CountsAreComplete` | testkit/profile.py:85-109 | holes + spans + counters + intervals = min(count, capacity) |
| `Profile.Analyze` | testkit/profile.py:73-137 | the single pass accepts exactly the declarative predicate; it reports the counts of the visited slots and a group for every key with an event and no other, whose five lists are, index by index, the named fields of its events in slot order; group sizes add up to the events, own times never exceed the whole |
| `Profile.Visit` | testkit/profile.py:86-137 | one slot is a hole, an error or an event, counted and filed exactly once |
| `Profile.CheckHeader` | testkit/profile.py:73-84 | exactly the headers of the declarative predicate pass |
| `Profile.CheckEvent` | testkit/profile.py:91-123 | a record passes exactly when its fields, its kind and its parent are as the predicate says |
| `Profile.CheckParent` | testkit/profile.py:110-123 | a parent passes exactly when it is an earlier, enclosing span of the same thread |
| `Profile.KeyFor` | testkit/profile.py:124-125 | events are filed under site, name of the parent's site and kind |
| `Profile.Append` | testkit/profile.py:130-137 | a group gains the named fields of one event at the end of its lists |
| `Profile.Enter` | testkit/profile.py:125-137 | filing one event keeps every group exact |
| `Profile.EventsAreThose` | testkit/profile.py:86-137 | the events of a key are all visited slots with it, in ascending order |
| `Profile.GroupTimesFit` | testkit/profile.py:92-137 | of an accepted file: wall and own lists of a group are equally long and own never exceeds wall, and so for the CPU lists |
| `Profile.GroupHoldsItsEvents` | testkit/profile.py:125-137 | a reported group has one entry for every event with its key, and a key without a group has no event |
| `Profile.GroupsPartitionEvents` | testkit/profile.py:125-137 | the sizes of all groups add up to spans + counters + intervals, so every event is in exactly one |
| `Profile.ChainEnds` | testkit/profile.py:111-122 | every parent chain ends at a root |
| `Profile.ChainPairs` | testkit/profile.py:111-122 | of two records of a chain the one nearer the root has the lower slot, the same thread and the wider interval |
| `Profile.ChainsAreNested` | testkit/profile.py:86-124 | accepted files are forests of nested spans of one thread |
| `RedisNumbers.ParseDecimal` | sdk/go/internal/validate/validate.go:38-61 | exactly the canonical decimals up to the limit are accepted, with their value; every intermediate value stays within the limit |
| `RedisNumbers.ParseUint` | sdk/go/redis_value.go:217-226 | for every width |
| `RedisNumbers.ParseInt` | sdk/go/redis_value.go:191-214 | for every width, the smallest 64-bit value included, without overflow |
| `RedisNumbers.UintRoundTrip` | sdk/go/redis_value.go:217-226 | parsing a printed unsigned value gives it back |
| `RedisNumbers.UintSpelling` | sdk/go/redis_value.go:217-226 | printing a parsed value gives the accepted bytes back |
| `RedisNumbers.IntRoundTrip` | sdk/go/redis_value.go:191-214 | parsing a printed signed value gives it back |
| `RedisNumbers.IntSpelling` | sdk/go/redis_value.go:191-214 | printing a parsed value gives the accepted bytes back |
| `RedisHash.Decode` | sdk/go/redis_value.go:157-187 | decoding by kind |
| `RedisHash.ValueRoundTrip` | sdk/go/redis_value.go:100-124 | decoding undoes encoding for every supported type and every value of it |
| `RedisHash.SpellingIsUnique` | sdk/go/redis_value.go:157-187 | a stored spelling is the only one that decodes to its value |
| `RedisHash.BuildDescriptor` | sdk/go/redis_hash.go:328-389 | a descriptor exists exactly for the describable struct types and lists their fields; a refusal carries the code of the first bad member, else that of the number or the types of the fields |
| `RedisHash.ReadMembers` | sdk/go/redis_hash.go:338-378 | the loop gives the fields of all members, or stops at the first bad one with its code |
| `RedisHash.ChosenAreKept` | sdk/go/redis_hash.go:340-353 | a field is an exported member whose tag is not "-", under its tag, if it has one, even an empty one, else under its own name; the fields are in the order of the members |
| `RedisHash.KeptAreChosen` | sdk/go/redis_hash.go:340-353 | and every such member is a field |
| `RedisHash.MissingIsZero` | sdk/go/redis_hash.go:78-84 | a missing field reads as false, 0 or empty, by kind, just as a stored 0 or empty string does |
| `RedisHash.AddMember` | sdk/go/redis_hash.go:343-370 | one member is checked and counted, or the whole type is at fault |
| `RedisHash.Set` | sdk/go/redis_hash.go:158-176 | a record is written exactly when every value and the total fit, else the code is Capacity; the total is the record's |
| `RedisHash.Get` | sdk/go/redis_hash.go:70-97 | a hash is read exactly when every present field decodes and everything fits; otherwise the code is that of the first bad field: Capacity for a size, Corrupt for a spelling |
| `RedisHash.SetThenGet` | sdk/go/redis_hash.go:63-97 | whatever the hash held: after an accepted write the read accepts, counts the same bytes and returns the record; other fields are untouched |
| `RedisHash.WriteAndRead` | sdk/go/redis_hash.go:142-176 | the two paths one after the other return the record, and a refused write sends nothing |
| `RedisFields.Store` | sdk/go/redis_hash.go:186-219 | a field map is sent exactly when it is non-empty and within the limits; the arguments are its entries in increasing name order; the error is that of the first fault in that order |
| `RedisFields.Walk` | sdk/go/redis_hash.go:203-217 | the loop accepts exactly the maps whose entries and total fit, and otherwise reports the first fault of its order |
| `RedisFields.FirstFaultIsUnique` | sdk/go/redis_hash.go:203-217 | so the order alone decides the error, and a store, whose order is sorted, has one |
| `RedisFields.Load` | sdk/go/redis_hash.go:106-139 | a whole hash is returned exactly when it is within the limits, whatever the iteration order; the error is that of the first fault met |
| `RedisFields.CheckEntry` | sdk/go/redis_hash.go:204-216 | an entry passes exactly when its name, its value and the new total fit, and the total grows by its size |
| `RedisFields.SortForgetsOrder` | sdk/go/redis_hash.go:196-201 | the sorted names do not depend on the map iteration order |
| `RedisFields.LessByFirstDifference` | sdk/go/redis_hash.go:202 | the sorting order is byte by byte: one name is less exactly when at the first difference it ends or has the smaller byte |
| `RedisFields.ArgumentsAreUnique` | sdk/go/redis_hash.go:196-217 | a map has only one argument list |
| `RedisFields.SumForgetsOrder` | sdk/go/redis_command.go:61-67 | the running total is the same for every iteration order |
| `RedisFields.StoreMerges` | sdk/go/redis_hash.go:222-229 | storing merges the fields into the hash |
| `RedisFields.StoreAndLoad` | sdk/go/redis_hash.go:106-219 | loading after a store gives the merge back exactly when the merge is within the limits, and the stored fields when the hash was empty |
| `RedisFields.StoreSpoilsLoad` | sdk/go/redis_hash.go:106-219 | a hash that can be loaded, a store that is accepted, and after it a load that is refused |

## Left out

- gRPC, TLS, threads and the mutex: handlers are atomic steps, completions may come in any order and with any outcome.
- The exception path of `guarded`, `TryCancel` and the log output: they have no effect on the modelled state.
- The service in front of the sessions and its metadata check: single branches.
- Pacing, payload bytes and batching of `produce`: the producer's publications are separate steps with any domain, data and schedule, which covers every pacing; the order Ready, updates and snapshots, Drained is kept.
- The `queue_micros` stamp of an event and the reuse of message objects by `fresh`: they do not influence what is sent.
- Wrap-around of 64-bit counters in the fixtures: it is out of reach of a run.
- Histogram.PercentileIsNearestRank: the rank is an exact rational ceiling, because rounding of doubles is not the point; the double product can move it by one where it is within rounding of a whole number, and `Histogram.RankIsFound` holds for any rank.
- PushHub.Session.Percentile: takes the percentage as a whole number and computes the exact rational rank, for the same reason.
- `identity_->verify`, `decode_member`, `format_pulsar` and the principal are arbitrary functions; deadlines and the channel state are inputs of a poll; request fields and error texts are not modelled.
- RPC bookkeeping of `wake`: only the completion is modelled.
- `sample`, `visible`, `complete` and the attribute bytes of the workload, its closed-loop mode and its timing: they measure and do not decide the schedule.
- Schedule.RunWriter: one writer at a time; the interleaving of all writers is in `WriterRuns`.
- FinalView.Verify: versions are assumed to fit 64 bits, as the counters do.
- Locking, directories, symbolic links and the archive digest of the synchroniser: path safety is an arbitrary predicate on names, a file tree is a map from names to contents.
- SyncHistory.RerunConverges: speaks of interruptions between names, not between the move to the backup and the move over the target, where the name is absent for a moment.
- SyncHistory.HistoryKeptExactly: for a history that does not already hold a content of the tree, as at the start of a package.
- `distribution`, trace output, inventory and the sorting of rows in the profile reader: they only present the groups.
- Profile.Analyze: a file shorter than its header is refused before the model starts; the header and the entries are already unpacked.
- Custom marshalers, reflection and the difference between a nil and an empty byte slice: fields have built-in types and values are compared by content.
- RedisHash.BuildDescriptor: encode and decode support coincide for built-in types, so there is one verdict instead of two cached errors; that the type is a struct is given.
- Redis I/O, contexts, error wrapping, key and TTL checks, `Delete`, `Exists` and `Length`: single branches.
- Command-line parsing, the Catalog and Ephemeris services, the Lua scripts, Polaris, Astrolabe, the admin front end and the build scripts.
