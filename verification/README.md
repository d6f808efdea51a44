# dcm-kcli-provider: the verified core

A Dafny model of the shared state of the kcli service provider and of everything that changes it:

- the bbolt store (JSON rows, name index, listings with a byte pre-filter) - `Resource`, `EntryJson`, `StoreModel`, `Store`;
- the status monitor (two concurrent reconcile passes, per-id debouncing, orphan detection) - `StatusMap`, `Machine`,
  `Poll`, `Rounds`, `Reconcile`, `Reporting`, `Scenarios`, `Orphans`, `Monitor`;
- the create, delete and list handlers, alone and racing the monitor - `Service`, `Handlers`, `Gauges`, `Protocol`, `Deletions`,
  `Creation`, `BusyPolls`, `Paging`, `Decimal`, `Listing`, `Hints`;
- the registration retry loop - `Registrar`.

`dafny verify dfyconfig.toml` checks the whole project.

## How it is built

Classes mirror the code that changes state in place: `Store.Store`, `Monitor.Monitor`, `Handlers.Provider`,
`Hints.Params`, `Registrar.Registrar`. Their methods keep the source's branches and loops and are proved equal to
specification functions. What the provider promises is then proved about those functions. So that these functions say what a
reader would expect, their results are also spelled out in plain terms (literal statuses, codes, keys and names, element
by element), by predicates of their own: `Monitor.RowOutcome`, `Monitor.OrphanOutcome`, `Reporting.Reports`,
`Service.CreateOutcome`, `Service.DeleteOutcome`, `Listing.VmPage`, `Hints.VmRequest`; the methods promise these too.

The centre is `Machine`. A step is one mutex section, one store transaction, one publication or one gauge change, and
works on behalf of one resource id. A `World` is the whole shared state; a `Slice` is the part that concerns one id. What
was stored, published, announced and counted is kept as a log. `Machine.Locality` says that a run of the world, seen at
one id, is a run of that id's slice. So statements over all schedules come down to statements about one slice
(`Poll.Polled`), and two schedules with the same per-id steps end alike.

A poll (`Poll.LegalPoll`) is any order of both store listings, any interleaving of the steps of both passes, any order of
the closing flush, any listing of kweb and any clock readings. A run (`Rounds`) is any sequence of completed creations,
completed deletions and polls, with its states. `Gauges` serializes whole create and delete requests, failures included, with
polls. `Protocol` lets a delete request, and `Creation` any number of create requests, interleave with polls step by step.

## What the code does that its documentation does not say

The code was followed in each case.

- `enhancements/kcli-sp/kcli-sp.md:932-935` says that after several changes within the debounce window the final state is
  published. When the final state is a removal found by the monitor while the window is open, nothing is published: the
  event is scheduled and then dropped (internal/monitor/monitor.go:163-170). `Reporting.RemovedForGood` says exactly when.
- The same document says at 957-958 that resources missing from kweb are marked `DELETED`; the code deletes the row.
- A handler's delete leaves the debounce entries of its id in place. If an event was pending, it follows the `DELETED`,
  exactly once, at the first flush at which its window has elapsed, be that the next poll or a later one, and even onto a new
  row of the same id (`Reporting.StaleEventIff`, `Reporting.StaleOverNew`). Such deletes, and nothing else, break the agreement
  between store and subscribers (`Reporting.SubscriberAgreement`).
- The monitor overwrites `DELETING` while kweb still lists the resource. One overlapping poll cannot turn that into a second
  deletion (`Protocol.DeletedExactlyOnce`), two can (`Protocol.TwoPollsDeleteTwice`).
- The monitor can delete the row of a VM that kweb has, or of a cluster still in `CREATING`. It comes to that exactly through an
  exposing step (`Creation.NeverErased`, `Creation.ErasedIff`): a VM's row stored between a poll's kweb listing that missed the VM
  and that poll's store listing (`Creation.NewVmErased`), or, with two requests past the id check, a row stored while the poll is
  already set to delete the id's row (`Creation.RacingCreateErased`, `Creation.RacingVmErased`) or the stored row's missing VM
  brought back into kweb once the poll has missed it. With one
  request in flight at a time clusters are safe, and VMs but for the first case (`Creation.OneAtATimeSuffices`).
- A poll whose store read fails after kweb's VM listing has succeeded marks and counts every listed VM with the prefix as an
  orphan (internal/monitor/monitor.go:153-157, 320-337; `Monitor.LegalOrphans`).
- Delete endpoints do not check the row's type; the total of both gauges survives that, each gauge does not
  (`Gauges.DeleteConserves`).
- `ACTIVE` needs a cluster type or a VM list, not a version; `DEGRADED` is never produced; the provisioning threshold is
  a constant of ten minutes.

## Model

| member | source | states |
|---|---|---|
| Machine.StepLocal | internal/monitor/monitor.go:229-262 | every atomic step, seen at its own id, does what the slice machine does, and seen at any other id does nothing |
| Machine.Locality | internal/monitor/monitor.go:159-226 | a run of any steps, seen at one id, is the run of that id's slice under that id's own steps |
| Machine.ProjectionsDecide | internal/monitor/monitor.go:109-118 | two step sequences that agree id by id reach the same rows, index, debounce maps and gauges, and the same notes about each id |
| Machine.Interleavings | internal/monitor/monitor.go:109-118 | every interleaving of two threads that work on different ids ends as running one after the other |
| Machine.IndexFollowsRows | internal/store/store.go:203-233 | over any steps without a Put, rows only disappear or change status, and the name index loses exactly the names of the rows that went |
| Machine.ProjectionsFixGauges | internal/monitor/monitor.go:159-226 | step sequences that agree id by id move every gauge by the same amount |
| Poll.MineBody | internal/monitor/monitor.go:159-226 | however the two passes list and interleave, the steps taken for an id are exactly those decided from its stored row |
| Poll.MinePoll | internal/monitor/monitor.go:105-123 | the steps of a whole poll for an id are its row's verdict carried out, and a flush exactly if an event is then due |
| Poll.PollAtId | internal/monitor/monitor.go:105-123 | whatever the listing order, the interleaving and the flush order, a poll takes each id's slice to one function of that slice, the kweb listing and the clock |
| Poll.PollOrderIrrelevant | internal/monitor/monitor.go:105-123 | interleaving independence: two schedules of one poll reach the same store, index, debounce maps and gauges and the same event sequence per id |
| Poll.ListingStable | internal/monitor/monitor.go:153-195 | a pass that lists the store late, at any point of the other pass, still lists the rows of its kind as they were when the poll began |
| Poll.PollKeepsShape | internal/monitor/monitor.go:105-123 | a poll leaves nothing extracted but unpublished, and every row under its own id |
| Rounds.RunAtId | internal/monitor/monitor.go:89-103 | in every run of creations, deletions and polls, each round takes each id's slice where the slice function of that round says, and nothing stays half published between rounds |
| Reconcile.PollRefinesReconcile | internal/monitor/monitor.go:141-227 | every schedule of a poll turns the rows into the pure reconcile of (kweb listing, rows, clock), and the index loses exactly the removed rows' names |
| Monitor.TargetOutcome | internal/monitor/monitor.go:141-227 | what that reconcile makes of a row, in kweb's own words: a listed row gets the status the tables give for the last item of its name, a missing one goes unless it is leaving or a cluster being created, which times out into ERROR |
| Reconcile.SecondPoll | internal/monitor/monitor.go:201-217 | reconciling again with the same listing and no age threshold crossed only removes the absent clusters that the first poll timed out |
| Reconcile.IdempotentIff | internal/monitor/monitor.go:201-217 | so polling again changes nothing if and only if no absent cluster had just timed out |
| StatusMap.VmStatusTable | internal/monitor/status.go:15-36 | the table itself: up and running give RUNNING, down and shutoff PROVISIONING for ten minutes and STOPPED from then on, paused and suspended PAUSED, error, crashed, nostate, fault and every other word ERROR, shuttingdown, stopping and powering-off STOPPING, in every mix of cases |
| StatusMap.ClusterStatusTable | internal/monitor/status.go:38-46 | a cluster with nodes is ACTIVE, one without ERROR once older than the timeout and CREATING until then |
| StatusMap.VmStatusRange | internal/monitor/status.go:15-36 | no kweb status of a listed VM maps to DELETED, DELETING or a cluster status |
| StatusMap.ClusterStatusRange | internal/monitor/status.go:38-46 | no listed cluster maps to DELETED or DELETING |
| StatusMap.CaseIrrelevant | internal/monitor/status.go:11-36 | statuses that fold to the same letters map alike |
| StatusMap.AgeingVm | internal/monitor/status.go:19-24 | under one kweb status a VM's mapping changes with age only from PROVISIONING to STOPPED, at the ten-minute threshold |
| Reporting.SubscriberAgreement | internal/monitor/monitor.go:141-309 | over every run of creations, deletions and polls, after every round the pending event of each stored id carries exactly the stored status or the last thing told about the id is the stored status, and nothing is pending for an absent id - if and only if no delete hits an id with an event pending |
| Reporting.RoundKeepsAgreement | internal/api/server/vm_handlers.go:268-275 | one creation, one poll however scheduled, and a delete of an id with nothing pending keep that agreement; a delete of an id with an event pending breaks it |
| Reporting.QuietPollSettles | internal/monitor/monitor.go:287-309 | a poll that ends after every earlier window has elapsed leaves nothing pending and, for every stored id, the last told status equal to the stored one |
| Reporting.FreshStartAgrees | internal/monitor/monitor.go:141-309 | rows left by an earlier process, with empty debounce maps and subscribers up to date, satisfy the agreement a run starts from |
| Reporting.DebounceInvariant | internal/monitor/monitor.go:229-309 | after every round of every run whose clock never runs backwards: pending ids are among the recently published, each pending event was scheduled inside its id's open window, and two events of one id with no removal by the monitor between them are at least the window apart, deletions by requests notwithstanding |
| Reporting.SilentStart | internal/monitor/monitor.go:229-262 | a process that has published nothing starts with the spacing that a run keeps |
| Reporting.AtMostOneEvent | internal/monitor/monitor.go:229-309 | a poll, however scheduled, publishes at most one event per id |
| Reporting.PollReports | internal/monitor/monitor.go:229-309 | everything a poll, however scheduled, says about an id and leaves pending for it: the removal, the new status or the event already pending, with its type and time, at once or at the closing flush if the window has elapsed by then, and otherwise nothing yet |
| Reporting.RemovalSays | internal/monitor/monitor.go:161-171 | a poll that removes a row publishes DELETED if and only if no event of the id since the monitor last removed it lies within the window, decrements the gauge once, and clears both debounce entries |
| Reporting.RemovedForGood | internal/monitor/monitor.go:161-171 | from the removing poll on, through any rounds that do not create the id again, the id stays absent from the rows and the debounce maps, and all that is said about it is that poll's DELETED, if no event lay within the window, and one decrement |
| Reporting.StaleEventIff | internal/api/server/vm_handlers.go:268-275 | over every run after a handler's delete that does not create the id again: with nothing pending at the delete nothing more is ever said about the id; with an event pending, that event follows the DELETED exactly once, at the first poll at whose closing flush its window has elapsed, and not before |
| Reporting.StaleOverNew | internal/monitor/monitor.go:287-309 | an id created again before that flush gets its predecessor's event: subscribers then hold the old status whatever the stored one is |
| Scenarios.PendingAtDelete | internal/api/server/vm_handlers.go:268-275 | such a delete occurs: a run of a creation, two polls and a delete in which an event is pending at the delete |
| Scenarios.SilentRemoval | internal/monitor/monitor.go:163-168 | a removal goes unsaid: a run of a creation and two polls after which the row is gone and subscribers were last told RUNNING |
| Scenarios.PollExists | internal/monitor/monitor.go:105-123 | whatever a poll sees of kweb and the clock, it can run in some order, so statements about legal polls are about something |
| Reporting.NeverStuckCreating | internal/monitor/monitor.go:201-217 | a cluster kweb never lists stays CREATING without a word until the first successful listing after its timeout, becomes ERROR there, stays so through failed listings, and is removed by the next successful one |
| Reporting.TimesOut | internal/monitor/monitor.go:204-206 | at the timeout the row becomes ERROR, and that is either the last thing told about the id or its pending event |
| Orphans.OrphanAccounting | internal/monitor/monitor.go:315-352 | for every history of listings, the marked set is the last listing's orphans and the counter is the number of times a name newly became an orphan, summed over names |
| Orphans.SteadyOrphansCountOnce | internal/monitor/monitor.go:333-341 | orphans that keep being listed are not counted again |
| Orphans.DetectSays | internal/monitor/monitor.go:315-352 | after a listing a name is marked if and only if some listed VM has it, it starts with dcm-, and no row carries it; the counter grows by the marked names not marked before; without a listing nothing changes |
| Monitor.LegalOrphans | internal/monitor/monitor.go:153-157 | seen from a whole poll: the rows that count are the VM rows stored when the poll began, and when they cannot be read every listed name with the prefix is marked |
| Monitor.IndexVms | internal/monitor/monitor.go:148-151 | the loop builds name to status with the last of equal names winning |
| Monitor.IndexClusters | internal/monitor/monitor.go:190-193 | the loop builds name to "has nodes" with the last of equal names winning |
| Monitor.KnownNames | internal/monitor/monitor.go:320-323 | the loop builds the set of the rows' kcli names |
| Monitor.SequentialShuffle | internal/monitor/monitor.go:109-118 | one pass after the other is one of the legal interleavings |
| Monitor.CarryUnfolds | internal/monitor/monitor.go:163-177 | the world after a verdict is publish, delete, count, forget in that order for a removal, publish then update for a change, and unchanged otherwise |
| Monitor.Monitor.PublishWithDebounce | internal/monitor/monitor.go:229-252 | scheduling, the window check, extraction and publication together are the two atomic steps of the machine |
| Monitor.Monitor.ReviewVm | internal/monitor/monitor.go:159-179 | one turn of the VM loop carries out exactly what is decided about the row |
| Monitor.Monitor.ReviewCluster | internal/monitor/monitor.go:201-226 | one turn of the cluster loop carries out exactly what is decided about the row |
| Monitor.Monitor.PollVMs | internal/monitor/monitor.go:141-181 | the pass lists every VM row once and runs its steps, or does nothing when a listing fails; it returns both listings as the orphan check needs them |
| Monitor.Monitor.PollClusters | internal/monitor/monitor.go:183-227 | the same for clusters |
| Monitor.Monitor.ExtractDue | internal/monitor/monitor.go:287-304 | exactly the pending ids whose window has elapsed are taken out and stamped |
| Monitor.Monitor.FlushPending | internal/monitor/monitor.go:287-309 | exactly the due ids are taken out, all extractions before all publications |
| Monitor.Monitor.DetectVMOrphans | internal/monitor/monitor.go:315-352 | the two loops over the marked set compute the new orphan set and count exactly the newly orphaned names, in the terms of `Orphans.DetectSays` too |
| Monitor.Monitor.Poll | internal/monitor/monitor.go:105-123 | the poll is a legal poll of the machine on what it saw, and its orphan bookkeeping uses that poll's own listings |
| Monitor.Monitor.PollOnce | internal/monitor/monitor.go:311-313 | a poll leaves the reconciled rows and the index without the removed names; each row ends as the tables say, each id is reported as `Reporting.PollReports` says, orphans are marked as `Monitor.LegalOrphans` says, and subscriber agreement is kept |
| EntryJson.StringRoundTrip | internal/store/store.go:131-134 | every string written as a JSON literal reads back as itself, in front of any text |
| EntryJson.RoundTrip | internal/store/store.go:42-48 | every row survives being written and read back, whatever its fields hold |
| EntryJson.EncodedText | internal/store/store.go:42-48 | the text of a row, spelled out: the five members in order under their JSON names, each value escaped |
| EntryJson.EscapeTable | internal/store/store.go:131-134 | the escapes, spelled out: quote, backslash and control characters, the HTML characters and the line separators, and nothing else |
| EntryJson.DecimalIsFaithful | internal/store/store.go:42-48 | the promise asked of the instants' text form can be kept: signed decimal text keeps it |
| EntryJson.MemberContains | internal/store/store.go:14-24 | inside one member of a row the type tag occurs if and only if the member is that type; values with quotes, backslashes or the tag itself never fake it |
| EntryJson.PrefilterExact | internal/store/store.go:14-24 | the text of a row contains the tag of a type if and only if the row has that type |
| Store.PassesExact | internal/store/store.go:164-166 | the pre-filter never skips a wanted row, and passes nothing else for the two known types |
| Store.Store.List | internal/store/store.go:157-178 | pre-filter, decode, check returns exactly the stored rows of the type, each once |
| Store.Store.ListByStatus | internal/store/store.go:180-201 | exactly the rows of the type with the status, each once |
| Store.Store.ListAll | internal/store/store.go:263-278 | every row exactly once |
| Store.Store.Get | internal/store/store.go:142-155 | the row stored under the id, or nothing |
| Store.Store.FindByKcliName | internal/store/store.go:243-261 | the row the index leads to, nothing when the name or the row is missing |
| Store.Store.Put | internal/store/store.go:129-140 | the row under its id and its name in the index, everything else unchanged |
| Store.Store.Delete | internal/store/store.go:203-214 | the row and its stored name are gone, everything else unchanged |
| Store.Store.UpdateStatus | internal/store/store.go:216-233 | only the row's status changes; a missing id is reported and changes nothing |
| StoreModel.PutKeepsExact | internal/store/store.go:129-140 | a Put keeps the index the exact inverse of id to name if and only if it neither renames a live id nor takes another live row's name |
| StoreModel.DeleteKeepsExact | internal/store/store.go:203-214 | a Delete always keeps it exact |
| StoreModel.IndexExactIff | internal/store/store.go:129-233 | over every history of transactions the index stays exact if and only if every Put in it is admissible |
| StoreModel.FindIsScan | internal/monitor/mocks_test.go:183-192 | with an exact index the lookup finds precisely the row a linear scan finds |
| StoreModel.SharedNameHidesRow | internal/store/store.go:203-214 | a VM and a cluster sharing a kcli name: deleting one makes the lookup miss the other, which is still stored |
| Gauges.RetriesAreFree | internal/api/server/vm_handlers.go:22-33 | in any run of requests and polls, creates whose client id is live at the time, to either endpoint, could all be left out without changing the store, what kweb has, or how often kweb was called; each is answered with the stored row's status, or 409 at the other kind's endpoint |
| Service.CreateIsIdempotent | internal/api/server/vm_handlers.go:21-112 | repeating a successful create, whatever the rest of the request and kweb's answer, changes nothing and answers with the same id and status |
| Service.FailedCreateLeavesBoth | internal/api/server/vm_handlers.go:66-100 | a failed create leaves the store as it was, and leaves kweb as it was if and only if kweb was never changed, or the rollback succeeded on a name kweb did not have before, or failed on one it had |
| Service.FailedDeleteLeavesBoth | internal/api/server/vm_handlers.go:251-266 | a failed delete leaves kweb as it was, and the whole store as it was if and only if there was no row, the DELETING mark was not written, or it was undone |
| Service.CreateThenDelete | internal/api/server/vm_handlers.go:66-277 | creating a fresh resource and deleting it restores kweb, the rows, the index and both gauges |
| Service.CreateAnswers | internal/api/server/vm_handlers.go:21-112 | every outcome of a create request, spelled out: the stored row (kind, PROVISIONING or CREATING, the time, "dcm-" with the metadata name, else the client id cut at 63, else a fresh name), the index, the one name kweb gains, the notes, the gauges, the number of calls to kweb, and 201, 400, 409, 500 or 502 |
| Service.DeleteAnswers | internal/api/server/vm_handlers.go:232-278 | every outcome of a delete request, spelled out: an accepted one announces DELETED and counts down once and says nothing else, to no other id; a refused, missing or already leaving one says nothing; rows, index, kweb, gauges, and 204, 404, 500 or 502 |
| Service.InsertedIsRound | internal/api/server/vm_handlers.go:84-104 | a create request that stores its row is a creation round of the runs above |
| Service.DeleteIsRound | internal/api/server/vm_handlers.go:247-277 | a delete request that kweb accepts, its store writes succeeding, is a deletion round |
| Service.IdentityFixed | internal/store/store.go:203-233 | in every interleaving of all steps, name, type and creation time of a row never change between Put and Delete, and an absent id reappears only through a Put |
| Handlers.Provider.CreateVM | internal/api/server/vm_handlers.go:21-112 | the handler's step-by-step effect on store, gauge, kweb and response is the create transition, and the outcome spelled out in `Service.CreateAnswers` |
| Handlers.Provider.CreateCluster | internal/api/server/cluster_handlers.go:24-117 | the same for clusters |
| Handlers.Provider.DeleteVM | internal/api/server/vm_handlers.go:232-278 | the handler's step-by-step effect is the delete transition, with no check of the row's type, and the outcome spelled out in `Service.DeleteAnswers` |
| Handlers.Provider.DeleteCluster | internal/api/server/cluster_handlers.go:241-288 | the same for clusters |
| Gauges.PollGauges | internal/monitor/monitor.go:164-165 | a poll lowers each gauge by exactly the number of rows of that type it removes |
| Gauges.CreateConserves | internal/api/server/cluster_handlers.go:97-107 | a create request keeps both gauges in step with the rows, whatever its outcome |
| Gauges.DeleteConserves | internal/api/server/vm_handlers.go:251-275 | a delete request keeps the total exact, and keeps each gauge exact if and only if it deleted nothing or used the endpoint of the row's own type |
| Gauges.PollConserves | internal/monitor/monitor.go:209-210 | a poll keeps both gauges in step with the rows |
| Gauges.GaugesConserved | cmd/dcm-kcli-provider/server.go:67-79 | over every serialized run of requests and polls from exact gauges, the two gauges together count the stored rows, and each counts its own type when deletes use the matching endpoint |
| Gauges.KindsExactIff | internal/api/server/cluster_handlers.go:283-285 | over every such run from exact gauges, each gauge counts its own type after every call if and only if every delete that took effect used the endpoint of its row's type |
| Protocol.ProgramShape | internal/monitor/monitor.go:159-226 | what a poll sets out to do to a row is either harmless, or one DELETED and one decrement, and the latter exactly when kweb was listed without it and the row is neither leaving nor a cluster in CREATING |
| Protocol.EveryInterleaving | internal/api/server/vm_handlers.go:247-277 | the control and accounting invariant holds after every interleaving of a delete request's steps with any number of polls |
| Protocol.DeletedExactlyOnce | internal/api/server/vm_handlers.go:247-277 | for VMs and clusters alike, with at most one overlapping poll, every interleaving of a successful delete ends with the row absent, exactly one DELETED and exactly one gauge decrement |
| Protocol.DeletedOnceInWorld | internal/api/server/cluster_handlers.go:256-285 | the same in the whole shared state: whatever steps other ids take in between, the id ends absent, announced DELETED once and counted down once |
| Protocol.LegalPollActs | internal/monitor/monitor.go:287-309 | the steps of every legal poll on the id are those of an undisturbed poll of the protocol, so runs of the world with whole polls are among those of that theorem |
| Protocol.DecrementsExplained | internal/api/server/vm_handlers.go:247-277 | with any number of polls, the decrements are one for the request and one per poll that set out to remove the row, and the DELETED events lie between one and that number |
| Protocol.RefusedDeleteLeavesRow | internal/api/server/vm_handlers.go:254-266 | if kweb refuses the delete, no interleaving with polls deletes the row, announces a deletion or decrements the gauge |
| Protocol.TwoPollsDeleteTwice | internal/monitor/monitor.go:174-177 | for VMs and clusters alike, from every initial state some schedule with two overlapping polls publishes DELETED twice and decrements twice, so the bound of one poll is needed |
| Deletions.RacingDeletes | internal/api/server/vm_handlers.go:247-277 | any number of delete requests for one id, checking and marking in separate steps: once all are over, either kweb accepted exactly one and the row is gone, DELETED said once and counted once, or none and the row is as it was with nothing said or counted |
| Protocol.WholePoll | internal/monitor/monitor.go:141-181 | the step-by-step poll of the protocol, undisturbed, does to the slice what the poll function says |
| Protocol.WholeRequest | internal/api/server/vm_handlers.go:232-278 | the step-by-step delete request, undisturbed, is a deletion round if kweb accepts, and leaves the row and everything said as it was if kweb refuses |
| Creation.NeverErased | internal/monitor/monitor.go:159-226 | however any number of create requests for the id and polls interleave, with honest VM listings, failed calls, rollbacks and VMs vanishing, as long as no step is exposing (for clusters: storing a row while the poll is set to delete the row; for VMs: storing the row of a VM kweb has, or bringing the stored row's missing VM back into kweb, while the poll is set to delete the row or its listing of kweb missed the VM) the monitor is never about to delete a cluster row in CREATING, nor the row of a VM that kweb has |
| Creation.ErasedIff | internal/monitor/monitor.go:159-226 | for both kinds, in every state reached without an exposing step, the next step can lead without any further exposing step to such a deletion if and only if it is exposing itself |
| Creation.OneAtATimeSuffices | internal/monitor/monitor.go:204-207 | with at most one request for the id between its id check and its store at any time no step is exposing for clusters, and none is for VMs if besides no row is stored between a poll's kweb listing that missed its VM and that poll's store listing |
| Creation.WholeRequest | internal/api/server/vm_handlers.go:66-104 | the step-by-step create request for an absent id, undisturbed, is a creation round, and kweb gains its VM |
| Creation.NewVmErased | internal/monitor/monitor.go:162-164 | the race from the start: from any idle state without the row, an honest poll and one create request have a schedule after which the poll is about to delete the PROVISIONING row of a VM kweb has |
| Creation.RacingCreateErased | internal/api/server/cluster_handlers.go:25-35 | from any idle state without the row, two cluster requests pass the id check one after the other, and a schedule exists in which the poll is about to delete the second one's CREATING row |
| Creation.RacingVmErased | internal/api/server/vm_handlers.go:22-33 | the same for two VM requests with different names: the first one's VM vanishes, and the second stores the row of a live VM just before the poll deletes the first one's; no row is stored late |
| BusyPolls.AgreementWithCreations | internal/monitor/monitor.go:105-123 | subscriber agreement survives every poll with creations of absent ids merged into it anywhere: between its kweb and store listings, between any two steps, whether or not its listings still saw the new rows |
| Creation.AgreementAtRest | internal/monitor/monitor.go:141-309 | in the whole shared state, at the grain of single steps, with create requests that fail or span polls: with one creation of an id in flight at a time, every id agrees again whenever its poll rests |
| Creation.LegalPollPlays | internal/monitor/monitor.go:287-309 | every legal poll of a world in agreement is one of the runs of that theorem, for every id; a closing flush that takes nothing out takes no step |
| Paging.ComparatorTotal | internal/api/server/vm_handlers.go:156-161 | newest first, then id, is a strict total order on entries with distinct ids |
| Paging.NewestFirst | internal/api/server/vm_handlers.go:156-161 | the order, spelled out: the later creation time first; at equal times the id that is a prefix of the other, or smaller at the first difference |
| Paging.SortCorrect | internal/api/server/vm_handlers.go:156-161 | the sort's result is ordered and has the same entries |
| Paging.SortedUnique | internal/api/server/vm_handlers.go:156-161 | two ordered listings of the same rows are equal, so the store's iteration order does not show |
| Paging.WalkComplete | internal/api/server/vm_handlers.go:182-192 | over an unchanging list, for every page size of at least one, following the tokens ends and the pages concatenate to exactly the list |
| Paging.WalkMissesNothing | internal/api/server/vm_handlers.go:156-192 | a finished walk returns every entry present at its start, while entries are only created between fetches |
| Paging.NothingRepeated | internal/api/server/vm_handlers.go:156-192 | no entry is returned on two pages, while entries are only deleted between fetches |
| Paging.NeverForward | internal/api/server/vm_handlers.go:156-161 | adding entries never moves an entry forward in the order |
| Paging.RowsWithin | internal/api/server/vm_handlers.go:156-161 | rows that stay stored with their creation time stay within the listing, whatever else is created or changes status |
| Paging.OffsetsDrift | internal/api/server/vm_handlers.go:182-192 | a deletion between fetches can skip an entry and a creation can repeat one, so each guarantee needs its premise |
| Listing.TokenResumes | internal/api/server/vm_handlers.go:120-130 | every token the endpoint can hand out is accepted again and resumes at its offset |
| Listing.TokenInRange | internal/api/server/vm_handlers.go:187-192 | a token is only handed out for an offset inside the listing |
| Listing.TokensAccepted | internal/api/server/vm_handlers.go:120-130 | which tokens are accepted: none, or a decimal number with or without a plus sign or leading zeros, not negative and within 64 bits; anything else is refused |
| Listing.Ordered | internal/api/server/vm_handlers.go:139-161 | the listing is the one ordered listing of the rows of the type |
| Listing.VmAnswer | internal/api/server/vm_handlers.go:114-198 | what is answered, item by item: the ids of the ordered listing from the offset on, at most the page size, 50 if none is given; each with its row's status and its kcli name without dcm-, and the address and user of kweb's last item of that name, each left out when empty or unlisted; the next token; a bad token is 400, a failing store 500, an unreachable kweb 502 |
| Listing.ClusterAnswer | internal/api/server/cluster_handlers.go:119-200 | the same for clusters, with kweb's version |
| Listing.ListVMs | internal/api/server/vm_handlers.go:114-198 | the response is the page of the unique ordered listing at the token's offset, spelled out by `Listing.VmAnswer` |
| Listing.ListClusters | internal/api/server/cluster_handlers.go:119-200 | the same for clusters, spelled out by `Listing.ClusterAnswer` |
| Decimal.ItoaDigits | internal/api/server/vm_handlers.go:189 | the decimal text of a number is digits whose value is the number |
| Decimal.TenIsTen | internal/api/server/vm_handlers.go:189 | the digits are base ten, and the largest integer is 2^63 - 1 |
| Decimal.AtoiSigned | internal/api/server/vm_handlers.go:123 | decimal text, bare or signed, is read back as the number if and only if that fits in 64 bits |
| Decimal.AtoiRefuses | internal/api/server/vm_handlers.go:123 | text with anything but digits after a first sign or digit, or with nothing after a sign, is refused |
| Hints.Params.MergeKcliHints | internal/api/server/helpers.go:55-79 | whatever order the hints are visited in, the params gain exactly the allowed, not excluded, absent keys and lose nothing |
| Hints.BuildBody | internal/kweb/client.go:101-108 | the body is the two identifying fields overwritten by every parameter |
| Hints.BodyContents | internal/kweb/client.go:173-180 | in the finished body identity and the request's own parameters are intact, every forwardable hint arrives unchanged, and nothing else does |
| Hints.VmBody | internal/api/server/vm_handlers.go:48-66 | the VM body is the composition of the request's own parameters, the hint merge and the client's merge, with the fields `Hints.VmBodySays` spells out |
| Hints.ClusterBody | internal/api/server/cluster_handlers.go:56-68 | the same for clusters |
| Hints.VmBodySays | internal/api/server/vm_handlers.go:48-66 | the body, key by key: name, profile, parameters[memory] if a positive size was read, parameters[numcpus] if given, parameters[keys] if a key was given; beyond these exactly the allowed hints, unchanged, and none of the blocked keys |
| Hints.ClusterBodySays | internal/api/server/cluster_handlers.go:56-68 | the body, key by key: cluster, kubetype, ctlplanes and workers from the request or else from the hints; beyond these exactly the allowed hints and none of the blocked keys |
| Hints.NoneBlockedAllowed | internal/api/server/helpers.go:34-37 | none of the keys documented as blocked is ever forwarded |
| Hints.VmIdentityKept | internal/api/server/helpers.go:37-79 | whatever the hints, the body carries the resolved name and profile |
| Hints.ClusterIdentityKept | internal/api/server/helpers.go:37-79 | whatever the hints, the body carries the resolved cluster name and kubetype |
| Hints.MemoryExactIff | internal/api/server/helpers.go:81-96 | a parsed size is the exact number of megabytes if and only if that number fits in 64 bits |
| Hints.MemoryUnits | internal/api/server/helpers.go:81-96 | a number with MB, GB or TB is that many times 1, 1024 or 1024 * 1024 megabytes, so 4GB is 4 * 1024, whenever that fits in 64 bits |
| Hints.UnitRead | internal/api/server/helpers.go:81-96 | a size without one of the three units is refused |
| Hints.SpaceAround | internal/api/server/helpers.go:82 | white space before and after a size does not count |
| Registrar.Registrar.Register | internal/registration/registrar.go:137-198 | an attempt is to be retried exactly after a transport error or a status other than 200, 201 and 400 to 499, and succeeds, setting the flag, exactly on 200 and 201 |
| Registrar.Registrar.Run | internal/registration/registrar.go:107-135 | attempts go on exactly after such an answer and an uncancelled wait; the flag holds exactly when the last answer was 200 or 201; the waits are the backoff sequence, from the initial one on |
| Registrar.DoublesInRange | internal/registration/registrar.go:130-133 | with an initial backoff and a non-negative cap below 2^62, no doubling leaves the 64-bit range |
| Registrar.ClosedFormAt | internal/registration/registrar.go:107-135 | in that case, and with a cap so negative that its doubling wraps around to above it, wait k is min(initial * 2^k, max) for every k of at least one |
| Registrar.ClosedFormIff | internal/registration/registrar.go:130-133 | for a positive initial backoff the closed form holds for every k if and only if one of these two cases applies |

## Left out

- Bytes: strings are sequences of code points; invalid UTF-8 (which the encoder replaces), normalisation, and the cut of
  long client ids at 63 bytes (here 63 characters) are not modelled.
- JSON: decoding covers the layout the encoder writes; reordered keys, white space and surrogate-pair escapes are not
  modelled, nor rows written by another tool. The text form of instants is a parameter that is only known to round-trip.
- bbolt: transactions are atomic and iteration order is arbitrary (the real order is by key). Store reads by id never fail,
  so the 500 answers to that are absent. A failing store listing, in a poll or a list request, is covered. The status writes of a delete
  request and the storing of a new row can fail in `Service`; everywhere else store writes succeed.
- Publishing: message texts, an event's own timestamp (taken after the stamp that opens the window) and publication errors,
  which the monitor and the handlers ignore.
- HTTP, NATS, CloudEvents, Prometheus internals, rate limiting, middleware, configuration, logging and id generation (fresh
  ids and names are inputs).
- kweb: its answers are inputs. A call that reports an error is taken to have had no effect. Path escaping of names, the
  health cache and the response fast path are not part of this model.
- Goroutines: the methods of `Monitor.Monitor` run the two passes one after the other; that every interleaving ends alike
  is `Poll.PollOrderIrrelevant`. The list handlers' two concurrent reads are two reads.
- The profile cache, cluster type tables and profile resolution: one flag of the request says whether it is acceptable.
- The Get endpoints, the kubeconfig cache and endpoint extraction.
- The creation mutex, which only covers kweb's create call and orders nothing that is stored.
- Crash and restart: one process lifetime.
- The in-place sort of a listing is modelled on values: the result is the sorted listing, `sort.Slice` itself is not shown.
- Registrar: start, stop and deregistration, building the request, answers whose expected body is missing. Go's choice
  between a timer and a cancellation that are both ready is an input.
- Reporting.SubscriberAgreement: requests happen between polls there; creations inside polls are the subject of
  `BusyPolls.AgreementWithCreations`, deletions inside polls of `Protocol`, without the agreement.
- BusyPolls.AgreementWithCreations: created ids have no row when the poll begins; an id deleted and created again within one
  poll, which could even change kind between its two store listings, is not covered.
- Creation.AgreementAtRest: with one creation of an id in flight at a time and no delete request.
- Protocol.DeletedExactlyOnce: for one delete request of the id (several, without polls, are `Deletions.RacingDeletes`);
  kweb's listing shows the resource exactly while kweb has it, no other row shares its name, and the request goes to the
  endpoint of the row's kind.
- Creation.ErasedIff: kweb's VM listings show exactly what kweb has, nobody but the provider brings the row's VM back into kweb,
  and no delete request is made.
- Handlers.Provider.CreateVM: the profile check is one flag of the request, a failing read in the id check (which the code takes
  for an absent id) does not occur, and the response is its id and status; the code's first answer echoes the request's spec and
  a repeated one builds a nearly empty spec from the row.
- Handlers.Provider.CreateCluster: the same, with the cluster type check as the flag.
- Handlers.Provider.DeleteCluster: does not evict the kubeconfig cache.
- Gauges.GaugesConserved: requests and polls are serialized; what overlapping does to the decrements is
  `Protocol.DecrementsExplained`.
- Registrar.ClosedFormIff: is for a positive initial backoff, as the configuration sets it.
