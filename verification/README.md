# Verification of the enclave runtime

A Dafny model of what the runtime's storage, scheduling and admission rest on, and proofs about it. `dafny verify dfyconfig.toml`
checks the whole project.

The enclave runs over a disk and a bucket its host controls. The host can start and kill enclaves at will, show a disk state from
the past, and lay delete markers over objects under a retention lock; it can neither change nor remove what is retained. Most of the
modules are about what stays true all the same.

| files | what they model |
|---|---|
| `ChainTip` | the search for the newest number of a chain |
| `Anchor`, `AnchorProtocol`, `AnchorProgress`, `AnchorRace`, `Roots` | the anchor protocol: rollback with one live enclave and what a call comes to, the chain's shape and the fence with many, over a bucket read by first retained version |
| `AnchorCodec`, `AnchorText` | an anchor's octets, the marker as text, the admission decision on text, the kernel's import log |
| `Tasks`, `TaskIndex`, `TaskRuns`, `TaskProgress` | the task queue as a class; its index; whole runs with crashes and rolled-back records; an attempt from hand-out to outcome |
| `Pools`, `AnchorPools` | a pool as its record keepers see it, and that the anchor protocol keeps to it |
| `BackgroundFlag` | the control pool's flag and a tenant's records, which roll back independently |
| `Boot`, `BootRuns` | genesis and boot as interleaved, crashing processes over one bucket |
| `Ber`, `BerMeaning`, `BerTags`, `BerTranscoder` | the BER-to-DER transcoder: grammar, meaning, what becomes of tags, and the loops over octets (sections 8.1.3, 8.1.5, 8.7, 10.1 and 10.2 of ITU-T X.690) |
| `Utf8`, `Texts`, `TextLaws`, `Sse`, `SseFraming` | UTF-8 (section 4 of RFC 3629), text helpers, and the server-sent-events framer |
| `LineFramer` | guest output cut into bounded lines |
| `Streams`, `Supervision` | standing connections, the supervising loop, and their interleaving |
| `Catalog`, `CatalogRuns` | disk regions and the tenant catalog, over rollbacks |
| `Approvals`, `ApprovalRuns` | challenges, tokens and the gate; every admission traced to a challenge |
| `Settings`, `SettingsRoundTrip`, `SettingsLaws` | the settings section of a guest file: reading, writing, and exactly which files are read |
| `Wrappers`, `Numbers` | octets, options and results; numbers as octets |

Whole-run statements follow one shape: a state, the actions that can happen to it in any order, a function from a sequence of actions
to the state it leads to, an invariant every action keeps, and the property read off the invariant. Beside what never goes wrong stands
what does come about when nothing interferes (`AnchorProgress`, `TaskProgress`, `RequestAnswered`, `GenesisSucceeds`, `ApprovedIsAdmitted`). Where the source updates state in
place the model has a class whose methods are proved against functions of the old state, and the run models use those same functions.

## What was assumed

- A ZFS sync puts every earlier write in a txg at or below the one it is seen at; txgs grow along a line of states; the host presents
  some state that was once synced. Nonces, pool ids and master keys are never drawn twice.
- The kernel's txg table, read by an anchor call, begins with the import, so a call that finds nothing written since fails rather than
  compare; the reader of the table itself is left out.
- Digests in the protocol models are ideal; in `AnchorCodec` the digest and the signature are parameters, with the law that the
  enclave's own signatures verify.
- A failed store or disk operation ends the boot or enclave it happens in, except where the code goes on: a failed anchor stops later
  ones, a failed close of a stream does not stop the registry.
- `AnchorRace` takes the fence check and the PUT as the two steps they are. `AtomicFenceHolds` names what would follow if they were one.

## Where the code and its comments part

- A generation's read-back (`runtime/src/zfs.rs:421-423`) cannot tell two claimants apart under a delete marker, since the body holds
  nothing of the claimant: `AnchorRace.TwoHoldersHappen`, with the exact condition in `GenerationUniqueUnlessReclaimed`.
- A running enclave does not stop anchoring the moment a higher generation exists (`runtime/src/zfs.rs:348-353`): a PUT whose fence check
  came first can still land, once: `AnchorRace.LatePublishHappens`, `LateExactly`, `SupersededPublishesAtMostOnce`.
- Marking a tenant as having background work (`runtime/src/zfs.rs:1521-1524`) can leave a record the boot scan misses when the flag was
  found set but had never been anchored; nothing acknowledged is affected: `BackgroundFlag.UnansweredMissedHappens`,
  `WrittenMissedIffUnanchored`.
- The genesis lease (`runtime/src/boot.rs:672-674`) can have two winners under a delete marker, having no read-back, and does exactly when
  one is taken over a hidden key (`BootRuns.LeasesIffHidden`). Anchor 0 still decides, so one identity is adopted, but the store can be
  left for no boot to resume: `BootRuns.LeaseTakenTwice`, `ResumesExactly`.
- Already-DER input does not always come back unchanged (`runtime/src/keys/ber.rs:12`), and an explicit context tag over octet strings does not
  keep its children (`runtime/src/keys/ber.rs:81-82`): `BerMeaning.FixedPoints`, `ExplicitTagRewritten`.
- Events are not reassembled however the bytes arrive (`runtime/src/stream.rs:620-622`): a chunk boundary inside a character ends the
  stream: `SseFraming.CutInsideCharacter`.
- More than a terminator's carriage return can come off a line (`runtime/src/guest_io.rs:658-661`), cut or unterminated:
  `LineFraming.TerminatorsCrOnly`, `UnterminatedLosesCr`.
- A close that cannot remove its file leaves the supervising loop unnotified until its timer fires (`runtime/src/stream.rs:318-332`):
  `Supervision.FailedCloseGoesUnseen`.

## Model

| member | source | states |
|---|---|---|
| `AnchorProtocol.NothingAcknowledgedIsLost` | runtime/src/zfs.rs:642-731 | After any run of one live enclave at a time, killed anywhere with its PUT landed or not, a state the host presents is admitted if and only if it descends from the state the newest anchor was taken at; that state itself is admitted, and whatever is admitted begins with every write ever acknowledged |
| `AnchorProtocol.AnchorCoversEverythingWritten` | runtime/src/zfs.rs:809-904 | An anchor call covers everything written before it began, and either acknowledges exactly that, fails for good, or dies with its enclave; it fails at once, with nothing changed, if nothing has reached the disk since the import; nothing else acknowledges anything. That it does succeed when nothing fails is AnchorProgress.CallSucceeds |
| `AnchorProtocol.AcknowledgedGrows` | runtime/src/zfs.rs:799-843 | No step takes back what an anchor call acknowledged |
| `AnchorProtocol.AdmittedDescends` | runtime/src/zfs.rs:1640-1688 | The three-way admission (pool guid, loaded txg no older, own marker or one naming the newest anchor) lets through only descendants of the anchored state, although other states can share the marker |
| `AnchorProtocol.DescendantAdmitted` | runtime/src/zfs.rs:1646-1652 | Every synced descendant of the anchored state is admitted, with the anchor's marker or with that of one never published; so a crash between marker and publication leaves nothing refused |
| `AnchorProtocol.RunKeeps` | runtime/src/zfs.rs:846-905 | The invariant behind both directions holds after every run: markers pin states, states under an unpublished marker extend the newest anchored one, acknowledged writes are in the newest anchored state |
| `AnchorProtocol.FirstSyncKeeps` | runtime/src/zfs.rs:809-825 | The first sync of an anchor call keeps that invariant, the early return when nothing reached the disk since the last anchor and the failure when nothing did since the import included |
| `AnchorProtocol.SecondSyncKeeps` | runtime/src/zfs.rs:852-889 | The sync behind the fresh marker keeps it, whether it seals an anchor or stops; which of the two it does is AnchorProgress.ResyncStopsExactly and ResyncSeals |
| `AnchorProtocol.PublishedKeeps` | runtime/src/zfs.rs:890-967 | The PUT of an anchor, acknowledged or not, keeps it |
| `AnchorProtocol.TxgOrdersLine` | runtime/src/zfs.rs:1646-1652 | Along one line of states a later txg is a later state, which is why comparing txgs orders states that share a line |
| `AnchorProgress.CallSucceeds` | runtime/src/zfs.rs:809-905 | From every reachable state of a live enclave idle at an anchor with something to anchor, sync, marker with an undrawn nonce, sync, PUT and read-back can all be taken, whatever txgs the kernel gives: they end with one anchor more, numbered next, naming the digest of the newest and the txg the line ends in, and with everything that had been written acknowledged |
| `AnchorProgress.GenesisSucceeds` | runtime/src/zfs.rs:618-625 | So for a pool that has no anchors: genesis publishes anchor 0, with no predecessor, of the pool as it was created |
| `AnchorProgress.CallBegins` | runtime/src/zfs.rs:814-825 | The first sync goes on to set a marker exactly when the line has grown since the import and ends at another txg than the newest anchor's; if nothing grew since the import nothing changes, and otherwise all that was written is acknowledged already |
| `AnchorProgress.MarkerGoesOn` | runtime/src/zfs.rs:847-855 | From every reachable state setting the marker puts everything dirty on the disk in a later txg, with the marker of the anchor to come |
| `AnchorProgress.ResyncSeals` | runtime/src/zfs.rs:861-870 | In every reachable state the sync behind the marker seals an anchor of the line as it ends: its txg is always past the newest anchor's |
| `AnchorProgress.ResyncStopsExactly` | runtime/src/zfs.rs:863-870 | In any state at all that sync stops anchoring exactly when the txg reached is not past the newest anchor's |
| `AnchorPools.AdmittedFromFloor` | runtime/src/zfs.rs:1640-1688 | In any run of an anchored pool the states a boot would admit are exactly those of its history from the floor on, the floor being where the newest anchor's state stands |
| `AnchorPools.ReturnRaisesFloor` | runtime/src/zfs.rs:809-844 | When an anchor call returns Ok, by its read-back or early, the floor is at or past the state in use when it began, and so past every line left behind before this one |
| `AnchorPools.NextKeeps` | runtime/src/zfs.rs:642-904 | Every step keeps the pool's history, the line in use and the floor in step with what the protocol holds |
| `AnchorRace.ChainNeverForks` | runtime/src/zfs.rs:951-967 | Under any interleaving of any number of enclaves, with delete markers laid anywhere, the retained anchors are exactly the numbers below some count, each names the retained one before it, and an enclave's newest anchor is always a retained one |
| `AnchorRace.SupersededPublishesAtMostOnce` | runtime/src/zfs.rs:876-888 | Check and PUT being two steps, an enclave superseded by a newer generation can still have at most one anchor with a predecessor retained, and only if that generation was claimed while it was between the two, waiting with that anchor |
| `AnchorRace.AtomicFenceHolds` | runtime/src/zfs.rs:876-904 | Were an enclave's own fence check and PUT one step, it would have none once superseded, whatever the others do |
| `AnchorRace.LateExactly` | runtime/src/zfs.rs:876-904 | An enclave has an anchor retained after a newer generation exists exactly when the generation after its own was first claimed while it was between its fence check and its PUT, and later its PUT won its number |
| `AnchorRace.LatePublishHappens` | runtime/src/zfs.rs:876-904 | A run in which an enclave publishes once after a newer generation exists, so the bound of one is reached |
| `AnchorRace.GenerationUniqueUnlessReclaimed` | runtime/src/zfs.rs:421-451 | A generation has two holders exactly when some step of the run PUT a claim of it where it was already retained under a delete marker: the read-back compares bodies that are a function of the number alone |
| `AnchorRace.ReclaimingTakesADeleteMarker` | runtime/src/zfs.rs:424-451 | Without a delete marker over a generation no such step exists, so then claims are unique |
| `AnchorRace.TwoHoldersHappen` | runtime/src/zfs.rs:354-363 | A run that ends with two live enclaves both told that generation 0 is theirs, against the comment that the read-back rules this out |
| `AnchorRace.ClaimKeepsGenerations` | runtime/src/zfs.rs:424-451 | Through a claim's conditional PUT, a generation stays retained exactly when somebody's PUT of it went through, its number as its body |
| `AnchorRace.GenerationsHaveNoGap` | runtime/src/zfs.rs:424-451 | In any run the generations retained are exactly those below some count, and nobody claims one past it, as the search for the newest relies on |
| `AnchorRace.FenceSeesAnyLater` | runtime/src/zfs.rs:876-888 | The fence looks at the next generation alone, and that is enough: if any later one is retained, the next one is |
| `AnchorRace.UncontestedPublishes` | runtime/src/zfs.rs:876-967 | From every reachable state of the race an enclave that holds the newest anchor and has not been superseded publishes the next one if it is left to: retained, naming the newest, and its own from then on |
| `AnchorRace.SupersededStops` | runtime/src/zfs.rs:876-888 | A superseded one stops at its next fence check with nothing published |
| `AnchorRace.UncontestedClaims` | runtime/src/zfs.rs:421-451 | An enclave that starts after the newest generation claims the next one if it is left to |
| `Roots.Put` | runtime/src/zfs.rs:946-967 | A conditional PUT goes through where nothing is retained or a delete marker lies on top; the body is retained exactly where nothing was, nothing retained and no other key changes, and what it went through for is hidden no more |
| `Roots.Hide` | runtime/src/zfs.rs:926-931 | A delete marker changes no retained version and no other key, and lets a conditional PUT through |
| `ChainTip.Find` | runtime/src/zfs.rs:380-402 | Whatever the store answers, the number returned was found by a probe and its successor missed by one (or it is the largest 64-bit number), within 2*log2(tip+1)+2 probes and without leaving 64 bits |
| `ChainTip.TipOfStandingChain` | runtime/src/zfs.rs:378-402 | On a chain that stands still and has no gaps, that number is its maximum |
| `ChainTip.TipDuringGrowth` | runtime/src/zfs.rs:378-402 | While others keep publishing, it is between the maximum at the first probe and the maximum at the last |
| `AnchorCodec.AcceptsExactly` | runtime/src/zfs.rs:288-337 | Octets are accepted as an anchor if and only if they are the exact layout of the fields returned, under a signature that verifies, for the number and pool asked about, anchor 0 without a predecessor |
| `AnchorCodec.SealedReadsBack` | runtime/src/zfs.rs:232-269 | What was sealed holds the number after its predecessor's and its predecessor's digest, or is anchor 0, and reads back as it was; the one exception is a number that wrapped to 0 behind a non-zero predecessor, which is refused |
| `AnchorCodec.LayoutInjective` | runtime/src/zfs.rs:110-122 | Anchors with the same signed octets are the same anchor |
| `AnchorCodec.OctetsFixAnchor` | runtime/src/zfs.rs:288-337 | Octets are accepted for one number and one pool at most, and are the same anchor whichever was asked for |
| `AnchorCodec.SameDigestOrCollision` | runtime/src/zfs.rs:271-274 | Two accepted strings that hash alike are one anchor for one number and one pool, or two different strings with one digest |
| `AnchorText.RenderInjective` | runtime/src/zfs.rs:1632-1638 | Different markers are different texts |
| `AnchorText.AdmitsExactly` | runtime/src/zfs.rs:1654-1688 | For every text: it is admitted exactly when txg and guid fit and it is the newest anchor's own marker or names that anchor's hash at the next number; and which of the refusals is answered before that |
| `AnchorText.AdmitIsAdmits` | runtime/src/zfs.rs:1673-1683 | On markers an enclave wrote, the decision on text is the decision the rollback theorem is about |
| `AnchorText.SealedAdmitted` | runtime/src/zfs.rs:1654-1688 | A pool with the marker written for an anchor is admitted by the anchor before it, and by that anchor once it is published, a number that wraps included |
| `AnchorText.NoteExactly` | runtime/src/zfs.rs:1697-1720 | Which lines of the kernel's log count, and for what: those with the pool's tag and a note behind it that names an uberblock's txg, ends a load, or starts, stops or fails one |
| `AnchorText.LoadedTxg` | runtime/src/zfs.rs:1690-1722 | Following the kernel's log finds the txg of the last load that completed with nothing started or failed after it, the last one named before that load completed, and nothing if no load stands |
| `AnchorText.FollowFinds` | runtime/src/zfs.rs:1690-1722 | The fold over the log is that declarative reading of it, note by note |
| `TextLaws.AfterExactly` | runtime/src/zfs.rs:1701-1706 | What follows a tag is what stands behind its first occurrence |
| `TextLaws.DecimalExactly` | runtime/src/zfs.rs:1632-1638 | A number's numeral is the only one that does not begin with a nought, or is one |
| `TextLaws.DigitsAreDigits` | runtime/src/zfs.rs:1632-1638 | Decimal and lower-case hexadecimal digits are the usual ones |
| `TextLaws.ParsesBack` | runtime/src/zfs.rs:1709-1710 | A numeral parses back, after a plus sign too, exactly while it fits 64 bits |
| `TextLaws.LeadingNought` | runtime/src/zfs.rs:1709-1710 | Noughts in front of a numeral change nothing |
| `Numbers.FrontCountsMost` | runtime/src/zfs.rs:110-122 | Numbers lie with their most significant octet first |
| `Tasks.TaskQueue.constructor` | runtime/src/tasks.rs:107-119 | A queue starts with an empty index over the records on disk |
| `Tasks.TaskQueue.Open` | runtime/src/tasks.rs:121-200 | Boot takes the records of flagged tenants exactly if all are valid and within the quota, and then holds each of them, interrupted ones retried or failed, pending ones due no earlier than their time |
| `Tasks.TaskQueue.Load` | runtime/src/tasks.rs:175-197 | One record read back: written again if it was interrupted, queued if it is pending |
| `Tasks.TaskQueue.Enqueue` | runtime/src/tasks.rs:214-271 | Input out of bounds is refused, an id in use is answered well exactly for the input it was enqueued with, a new one exactly while there is room in all and for its tenant; then the record is as it was asked for, pending and untouched, on disk, in the index and queued at its time; nothing else changes anything |
| `Tasks.TaskQueue.Cancel` | runtime/src/tasks.rs:282-292 | A known task is marked cancelled, on disk and in the index, and is no longer queued |
| `Tasks.TaskQueue.Forget` | runtime/src/tasks.rs:293-304 | Only a task that has ended and is in no worker's hands is removed, from disk and index alike |
| `Tasks.TaskQueue.Due` | runtime/src/tasks.rs:305-329 | What is handed out is ready and comes before every other ready record, in the round of tenants, then by deadline, then by id; nothing is handed out only if nothing is ready |
| `Tasks.PickUnique` | runtime/src/tasks.rs:312-326 | There is one record whose turn it is |
| `Tasks.TaskQueue.Begin` | runtime/src/tasks.rs:330-356 | A pending record is marked running with one attempt spent, on disk and in the index, whether or not the anchor behind it returns, and may run only if it does; a record in any other state is left alone |
| `Tasks.TaskQueue.Finish` | runtime/src/tasks.rs:357-438 | Each outcome leaves the record, its file, the queue and the workers as that outcome says, a cancellation wins over it, and an outcome that cannot be made or anchored is an error that leaves the index as it was but for the worker's hold; a recurring success is queued at the least later instant at its phase |
| `Tasks.SuccessRunsNext` | runtime/src/tasks.rs:378-394 | Of the outcome itself: a recurring job that succeeds is pending, to run at the least instant after now whose remainder by its interval is its key's hash's, or at the end of the clock if that comes first |
| `Tasks.FailureWaits` | runtime/src/tasks.rs:399-411 | Of the outcome itself: a failed attempt waits 1 s, 2 s, 4 s and so on to 256 s by the attempts spent, within the clock, and keeps the first 512 characters of what was said of it |
| `Tasks.NextRunIsLeast` | runtime/src/tasks.rs:377-394 | The instant computed is the least strictly after now at its phase of its interval, or the end of the clock if that comes first, so missed intervals come to one run |
| `TaskIndex.EnqueuedOk` | runtime/src/tasks.rs:214-271 | Enqueueing keeps the index exact |
| `TaskIndex.CancelledOk` | runtime/src/tasks.rs:282-292 | Cancelling keeps the index exact |
| `TaskIndex.ForgottenOk` | runtime/src/tasks.rs:293-304 | Forgetting keeps the index exact |
| `TaskIndex.PickedOk` | runtime/src/tasks.rs:305-329 | Handing out keeps the index exact, moves a record from the queue to a worker, and never before its time |
| `TaskIndex.BegunOk` | runtime/src/tasks.rs:330-356 | Beginning an attempt keeps the index exact |
| `TaskIndex.ReleasedOk` | runtime/src/tasks.rs:357-364 | Letting go of a record cancelled meanwhile keeps the index exact |
| `TaskIndex.RequeuedOk` | runtime/src/tasks.rs:365-372 | Putting a busy tenant's record back keeps the index exact and the record within its time |
| `TaskIndex.StoredOk` | runtime/src/tasks.rs:373-438 | Storing an outcome keeps the index exact |
| `TaskIndex.ScannedOk` | runtime/src/tasks.rs:175-197 | Whatever valid records boot finds, the index it builds is exact |
| `TaskIndex.RecoveredShape` | runtime/src/tasks.rs:174-197 | An interrupted attempt stays spent, its record tried again under its own occurrence or failed for good, with nothing else changed; it is queued no earlier than its time, or, that being past, within a second of the boot at its own phase |
| `TaskIndex.OutcomeShape` | runtime/src/tasks.rs:373-430 | An outcome keeps a task's identity and the input it was enqueued with, and leaves it in no worker's hands; a success completes it or starts its next occurrence with no attempts spent, a failure keeps the occurrence, waits past now and fails the task exactly when the attempts are spent; when each runs again is Tasks.SuccessRunsNext and FailureWaits |
| `TaskIndex.BoundedBypass` | runtime/src/tasks.rs:305-329 | Between two records of a tenant that always has one ready, no other tenant is served twice |
| `TaskIndex.EarliestFirst` | runtime/src/tasks.rs:312-322 | Within a tenant the earliest deadline goes first, and of equal ones the first id |
| `TaskRuns.AttemptsBounded` | runtime/src/tasks.rs:330-356 | Over every run with crashes that roll each tenant's records back to any state its last anchor allows, an occurrence of a task is executed at most MAX_ATTEMPTS times |
| `TaskRuns.IndexAlwaysExact` | runtime/src/tasks.rs:121-438 | At every moment of such a run the index is exact, mirrors the records on the pools, and every worker's record is still the generation and occurrence it was handed |
| `TaskRuns.HandedOnlyWhenDue` | runtime/src/tasks.rs:305-329 | No record is ever handed out before its run time, recovery and busy tenants included |
| `TaskRuns.EndedStaysEnded` | runtime/src/tasks.rs:88-93 | Until it is forgotten a record that has ended stays as it is while the queue is up; only a cancellation changes how it ended |
| `TaskRuns.AnchorHoldsEnd` | runtime/src/tasks.rs:413-421 | Once an anchor that covers the state in use has returned, the one behind an outcome or any other, a record that has ended there has ended in every state a crash can bring back |
| `TaskRuns.EndedForGood` | runtime/src/tasks.rs:144-199 | From then on, through any run with any crashes and rolled-back boots, that record is never again pending or running, forgotten or not |
| `TaskRuns.NoTenantServedTwiceFirst` | runtime/src/tasks.rs:305-329 | The fairness bound on real runs: while a tenant has a record ready and is not served, no other tenant is served twice, whatever is enqueued, cancelled, begun or finished meanwhile |
| `TaskProgress.AttemptConcludes` | runtime/src/tasks.rs:305-438 | From every reachable state the record whose turn it is can be handed out, begun, anchored, run and finished: it is run exactly once more, its outcome is in the index and in everything a crash can bring back, it is queued again at its new time if it is pending, and no worker holds it |
| `TaskProgress.InputStands` | runtime/src/tasks.rs:235-242 | Nothing that happens to a record while the queue is up changes what it was enqueued with, so the same enqueue again is still answered well and any other refused |
| `TaskRuns.RunKeeps` | runtime/src/tasks.rs:121-438 | The invariant behind these over every run, crashes during recovery included |
| `BackgroundFlag.AnsweredNeverMissed` | runtime/src/zfs.rs:1286-1291 | Once an enqueue and the anchors behind it were answered, in every pair of states the control pool and the tenant's pool can come back in the tenant is flagged and, until it is forgotten, the record is there |
| `BackgroundFlag.FlagSafeIffAnchored` | runtime/src/zfs.rs:1521-1536 | In any run every control state a crash can bring back flags the tenant exactly when the one last anchored does |
| `BackgroundFlag.WrittenMissedIffUnanchored` | runtime/src/zfs.rs:1521-1536 | Before the answer: in any run, writing a record leaves a pair of states in which the boot scan would miss it exactly when the tenant is not flagged in the control state last anchored |
| `BackgroundFlag.FlagSafeOnlyIfAnchored` | runtime/src/zfs.rs:1521-1536 | A request that set the flag leaves every such state flagged; one that found it set anchors nothing and leaves that as it was |
| `BackgroundFlag.FlagSafeForGood` | runtime/src/zfs.rs:1521-1536 | Once every such state is flagged, no crash or restart undoes it |
| `BackgroundFlag.UnansweredMissedHappens` | runtime/src/zfs.rs:1521-1524 | A run that leaves a durable record the scan would miss, against the comment that a crash never does: the second request found a flag that was never anchored |
| `BackgroundFlag.RequestAnswered` | runtime/src/zfs.rs:1286-1291 | From every reachable state a request that nothing interrupts is answered: flag written and anchored if it is not there, record written and anchored, control pool anchored |
| `BootRuns.OneIdentity` | runtime/src/boot.rs:403-505 | Over any run of interleaved, crashing boots every boot that succeeded established the one identity the receipt commits to, whose key signed anchor 0: one sealed key and one history are ever adopted |
| `BootRuns.BootedIsRecorded` | runtime/src/boot.rs:577-639 | A boot that succeeded left a record of its own pair holding that identity in the store; a resumed one opened the sealed key the receipt names |
| `BootRuns.StoredInOrder` | runtime/src/boot.rs:654-752 | A pair record stands only beside a receipt, a receipt beside anchor 0, anchor 0 beside a sealed key |
| `BootRuns.NeverReceiptWithoutKey` | runtime/src/boot.rs:491-496 | Receipt read first and written last, no boot of such a run ever meets a receipt without its sealed key |
| `BootRuns.AbandonedForGood` | runtime/src/boot.rs:497-503 | A sealed key without a receipt, and no genesis left under way, is never booted again by anyone |
| `BootRuns.LeasesIffHidden` | runtime/src/boot.rs:672-696 | More than one cold boot passes the genesis lease exactly when a lease of the run was taken where the sealed key was already retained and hidden under a delete marker |
| `BootRuns.LeaseExclusive` | runtime/src/boot.rs:672-696 | While no delete marker lies over the sealed key, one cold boot at most passes the genesis lease, and moreover its key is the retained one |
| `BootRuns.LeaseTakenTwice` | runtime/src/boot.rs:672-696 | A run in which a delete marker lets two cold boots pass the lease, against the comment that exactly one wins; one of them finishes, and no boot can resume the store |
| `BootRuns.ResumesExactly` | runtime/src/boot.rs:424-467 | A boot left to run alone over a finished genesis succeeds if and only if the retained sealed key is the one the receipt commits to; it then has the receipt's identity, as a resume if its pair was recorded before and as an upgrade if not |
| `BootRuns.GenesisSucceeds` | runtime/src/boot.rs:654-752 | A boot that finds no receipt, key or anchor 0, and is left to run, founds a history: sealed key, anchor 0 signed by it, a receipt that commits to both and its pair's record are retained, and that identity is what it boots with |
| `BootRuns.StrandedForGood` | runtime/src/boot.rs:424-467 | A store that cannot be resumed never can be |
| `Boot.NextKeeps` | runtime/src/boot.rs:403-752 | Every store operation of every boot, and every delete marker, keeps the invariant: what is stored follows from what was stored before it, and no two boots hold one master |
| `Boot.ReceiptKeeps` | runtime/src/boot.rs:716-726 | The receipt is put where there is none, by the boot whose master signed the retained anchor 0, and commits to that anchor and that master; the invariant stands |
| `Boot.ReceiptOnlyThere` | runtime/src/boot.rs:716-726 | No other step of any boot or of the host puts a receipt |
| `BerTranscoder.TranscodeToDer` | runtime/src/keys/ber.rs:23-29 | The transcoder as it runs answers exactly parse, collapse, encode, and refuses exactly what those refuse; what that comes to for identifiers and children is BerTags.TagsKept |
| `BerTranscoder.Transcode` | runtime/src/keys/ber.rs:32-99 | One value from the front of the input: the encoding of what it collapses to, and the input after it |
| `BerTranscoder.TranscodeRegion` | runtime/src/keys/ber.rs:56-65 | A definite region is consumed child by child to its end |
| `BerTranscoder.TranscodeUntilEnd` | runtime/src/keys/ber.rs:66-77 | An indefinite one to its end-of-contents octets |
| `BerTranscoder.Build` | runtime/src/keys/ber.rs:80-98 | A constructed value is emitted whole if it is the universal chunked string or a context tag over octet strings alone, with its children as they are otherwise; under which identifier is BerTags.CollapseTranscribes |
| `BerTranscoder.JoinChunks` | runtime/src/keys/ber.rs:88-91 | The chunks' contents in order, exactly if every child is a primitive octet string whose length reads back |
| `BerMeaning.ToDerExactly` | runtime/src/keys/ber.rs:23-99 | Output y for input x if and only if x is the encoding of a value of the grammar (low tags, lengths of at most four octets, at most 64 levels) whose chunks collapse, and y encodes what it collapses to |
| `BerTags.TagsKept` | runtime/src/keys/ber.rs:23-99 | The same without collapsing: y encodes the value written for the one read, which is unique. Primitives stand as they are; a chunked octet string, and a context tag over octet strings alone, is one primitive of the same class and number with all its content; any other constructed value keeps its identifier, its children written one for one. Refused is exactly a value with chunks that are not octet strings or too long |
| `BerTags.CollapseTranscribes` | runtime/src/keys/ber.rs:78-98 | A value collapses exactly if it can be written, and to what is written for it |
| `BerTags.ChunksComeOutWhole` | runtime/src/keys/ber.rs:87-98 | A chunked octet string of indefinite length comes out as an octet string |
| `BerTags.SequenceStaysOne` | runtime/src/keys/ber.rs:94-98 | A sequence of indefinite length comes out as a sequence of definite length |
| `BerMeaning.ToDerKeepsContent` | runtime/src/keys/ber.rs:80-98 | All content octets read are in what is written, in order, none added |
| `BerMeaning.FixedPoints` | runtime/src/keys/ber.rs:11-15 | An input comes back unchanged exactly when it is a normal value, minimally encoded, no deeper than the bound, its length in four octets; not all DER is, despite the header comment |
| `BerMeaning.Idempotent` | runtime/src/keys/ber.rs:23-29 | Transcoding again changes nothing while the output is below 2^32+6 octets, and is refused from there on |
| `BerMeaning.CollapseNormal` | runtime/src/keys/ber.rs:80-98 | Whatever collapses is normal and no deeper: no universal constructed string, no context tag over octet strings alone |
| `BerMeaning.ExplicitTagRewritten` | runtime/src/keys/ber.rs:78-91 | A DER value that does not come back unchanged: an explicit context tag over one octet string loses a level |
| `Ber.ParseBytes` | runtime/src/keys/ber.rs:32-77 | Every encoding in the grammar is read back as it stands, whatever follows it |
| `Ber.BytesParse` | runtime/src/keys/ber.rs:32-77 | Whatever is read is an encoding in the grammar, of exactly the octets consumed |
| `Ber.MinimalReads` | runtime/src/keys/ber.rs:119-132 | The length octets written read back exactly while four octets hold the length |
| `BerTags.MinimalIsLeast` | runtime/src/keys/ber.rs:119-130 | No other length octets that read the same are as few as those written |
| `BerTags.LengthExactly` | runtime/src/keys/ber.rs:102-117 | The octets read as a length: one below 128, or a count of at most four and so many octets, most significant first, not necessarily the fewest |
| `BerTags.BitsExactly` | runtime/src/keys/ber.rs:83-85 | The tests on identifiers are on the low five bits, bit 6 and the class bits |
| `Ber.LengthThen` | runtime/src/keys/ber.rs:102-117 | A length reads the same whatever follows it |
| `SseFraming.SseFramer.Push` | runtime/src/stream.rs:636-683 | A push answers and leaves what folding the buffer with the chunk, checking its size and taking every complete block gives, errors and what they leave behind included |
| `SseFraming.StreamIsWhole` | runtime/src/stream.rs:635-683 | A stream is read to its end exactly when every chunk is UTF-8 by itself, nothing waiting outgrows the ceiling and every block decodes; its events are then those of the whole text, folded and cut at its leftmost blank lines, a trailing CR held |
| `SseFraming.CuttingsAgree` | runtime/src/stream.rs:620-625 | Any two cuttings of the same octets that are read to the end give the same events |
| `SseFraming.SmallStreamRead` | runtime/src/stream.rs:651-654 | A text within the ceiling that decodes is read to the end, however it is cut between characters |
| `SseFraming.CutInsideCharacter` | runtime/src/stream.rs:637-638 | A chunk boundary inside a character ends the stream although the text is sound |
| `SseFraming.DecodeBlock` | runtime/src/stream.rs:657-681 | A block's id is the trimmed rest of its last id line, its data the trimmed rests of all its data lines end to end; no data is no event, data that is not base64 or more than 256 KiB is an error, and an event without an id gets one from its content |
| `SseFraming.GatherExactly` | runtime/src/stream.rs:658-666 | What the loop over lines gathers is those values, for any lines |
| `SseFraming.OneBlock` | runtime/src/stream.rs:655-681 | Each block adds its event, if it has one, behind those of the blocks before it |
| `TextLaws.TrimExactly` | runtime/src/stream.rs:662-664 | Trimming gives all of a text but the white space at its ends, and there is one such rest |
| `TextLaws.LinesOf` | runtime/src/stream.rs:660 | Lines are what stands before each line feed, and after the last one if anything does |
| `Sse.RewrittenIsHeld` | runtime/src/stream.rs:639-650 | The two replacements and the CR put back fold exactly CRLF, CR and LF each to one LF, a last CR held |
| `Sse.HeldResumes` | runtime/src/stream.rs:639-650 | Folding a folded buffer that has grown is folding the whole text |
| `Sse.CutUnique` | runtime/src/stream.rs:655-656 | Cutting at the leftmost blank line gives the only division of a text into blocks that each end in their one blank line |
| `Utf8.TextJoins` | runtime/src/stream.rs:637-638 | Two texts end to end are one text |
| `Utf8.TextExactly` | runtime/src/stream.rs:637-638 | Octets are read as a text exactly if they are its encoding, which each text has one of |
| `LineFraming.LineFramer.Push` | runtime/src/guest_io.rs:617-652 | A write leaves the line under way, the queue and the counters as its octets would one at a time, whichever records the queue had room for |
| `LineFraming.LineFramer.Extend` | runtime/src/guest_io.rs:631-652 | What fits the cap is kept, the rest counted, and the buffer never exceeds the cap |
| `LineFraming.LineFramer.Emit` | runtime/src/guest_io.rs:655-684 | The line goes to the queue or is counted as lost, less one carriage return |
| `LineFraming.LineFramer.Finish` | runtime/src/guest_io.rs:695-699 | Closing the stream leaves what its end leaves of the framing: an unterminated line is recorded exactly if there is anything of it |
| `LineFraming.FeedJoins` | runtime/src/guest_io.rs:617-629 | Two writes are one write of both: records do not depend on how writes were cut |
| `LineFraming.FeedIsSplit` | runtime/src/guest_io.rs:617-684 | One record per terminated line: its first 16 KiB less one carriage return of that prefix, truncated exactly when the line was longer |
| `LineFraming.Conservation` | runtime/src/guest_io.rs:234-256 | While a stream is open its octets are those in the records, the carriage returns taken off them, the octets counted as cut, the line ends, and the line under way, nothing else |
| `LineFraming.ClosedStream` | runtime/src/guest_io.rs:686-708 | A stream from first octet to close: each line recorded once, in order, the unterminated one included, nothing held back, and every octet in a record, a carriage return taken off one, counted as cut, or a line end |
| `LineFraming.HandedOnOrCounted` | runtime/src/guest_io.rs:677-683 | Every record is handed on or counted as lost, none both |
| `LineFraming.RoomTakesAll` | runtime/src/guest_io.rs:675-683 | A queue with room takes every record, in order |
| `LineFraming.TerminatorsCrOnly` | runtime/src/guest_io.rs:658-664 | A line, terminated or not, is recorded without its terminator's carriage return and otherwise as it was, exactly unless it loses one of its own: a terminated one when the cap falls just behind one in a longer line, an unterminated one whenever its kept prefix ends in one |
| `LineFraming.UnterminatedLosesCr` | runtime/src/guest_io.rs:695-699 | A stream that ends in a carriage return without a line feed loses it, though no terminator was written |
| `Streams.StreamRegistry.Open` | runtime/src/stream.rs:282-316 | A new instruction is recorded under the next generation and wakes the loop; the same one again changes nothing; another origin under a standing id, a ninth stream of one tenant, a bad id or origin is refused, each exactly then, and changes no record |
| `Streams.StreamRegistry.Close` | runtime/src/stream.rs:318-332 | The record goes whatever happens; the loop is woken unless its file would not go |
| `Streams.Supervisors.Reconcile` | runtime/src/stream.rs:472-501 | After a pass exactly the listed records are supervised, each by a running task started for it as it stands, every replaced or dropped task stopped and no other disturbed |
| `Streams.Supervisors.StartWanted` | runtime/src/stream.rs:478-493 | New records are started and changed ones restarted, others left alone |
| `Streams.Supervisors.StopUnwanted` | runtime/src/stream.rs:495-503 | Tasks of records no longer listed are stopped |
| `Supervision.NoWakeupLost` | runtime/src/stream.rs:468-512 | Over any interleaving of opens, closes, notifications, timeouts and passes: when the loop waits with no permit and nothing on its way, exactly the standing records are supervised, each for its own generation, if and only if no close of a standing record failed since it listed them and no task ended since its pass |
| `Supervision.ClosedIsStopped` | runtime/src/stream.rs:475-493 | A task whose record was closed at any moment is not running once the loop waits with nothing on its way and no close has failed, a reopen of the same origin under the same id before the next pass included |
| `Supervision.PassSettles` | runtime/src/stream.rs:472-511 | Whatever came before, a waiting loop can make its next pass, and one with nothing in between leaves exactly the standing records supervised |
| `Streams.PassExists` | runtime/src/stream.rs:472-503 | From any crew in order a pass leads to one staffed for the records listed that disturbed nobody serving one of them |
| `Supervision.FailedCloseGoesUnseen` | runtime/src/stream.rs:318-332 | A run in which a close that fails to remove its file leaves a connection held, with nothing on its way to wake the loop |
| `Catalog.BoundsIffCounted` | runtime/src/zfs.rs:178-186 | A region has bounds exactly when its index is below the count, or regions have no size; no multiplication or addition leaves 64 bits unnoticed |
| `Catalog.RegionsTile` | runtime/src/zfs.rs:174-186 | Regions lie end to end from the start of the disk, each of the size regions have |
| `Catalog.RegionsApart` | runtime/src/zfs.rs:174-181 | Regions are inside the disk and share no sector |
| `Catalog.ExtentsApart` | runtime/src/zfs.rs:1404-1406 | The extents a valid catalog names are inside the disk, off region 0 and pairwise disjoint |
| `Catalog.Validate` | runtime/src/zfs.rs:1538-1565 | Boot takes a catalog exactly when versions, ranges, regions and pool ids are as they must be |
| `Catalog.CatalogDir.FreeRegion` | runtime/src/zfs.rs:1489-1503 | The lowest free region, or none exactly when the disk is full |
| `Catalog.CatalogDir.Create` | runtime/src/zfs.rs:1358-1396 | A new tenant gets the lowest free region, its pool and its history, unflagged, and every other entry stays; nothing changes when the disk is full |
| `Catalog.CatalogDir.MarkBackground` | runtime/src/zfs.rs:1521-1536 | The flag is set afterwards and nothing else of any entry has changed; set again it writes nothing; a tenant without an entry is refused |
| `CatalogRuns.FoundIsAccepted` | runtime/src/zfs.rs:1538-1565 | Through any creations, flags, anchors, crashes and restarts on any state the last anchor allows, lines left behind included, every catalog a boot can find is accepted |
| `CatalogRuns.FoundExtentsApart` | runtime/src/zfs.rs:1404-1406 | The extents such a catalog names are inside the disk, off region 0 and pairwise disjoint |
| `CatalogRuns.LeftBehindComesBack` | runtime/src/zfs.rs:1387-1391 | A run after which a boot can find either of two catalogs that gave the same region to different tenants, neither yet acknowledged |
| `CatalogRuns.AnchoredPlaceStands` | runtime/src/zfs.rs:1387-1391 | A tenant whose entry an anchor covered keeps its pool, region and history in every state a later boot can find, so nobody else is ever given its region |
| `CatalogRuns.LowestUnique` | runtime/src/zfs.rs:1489-1503 | The lowest free region is determined |
| `Approvals.ChallengeStore.Issue` | runtime/src/auth/challenge.rs:107-128 | Lapsed challenges go, and the new one is recorded unless the store is full |
| `Approvals.ChallengeStore.Consume` | runtime/src/auth/challenge.rs:135-145 | A challenge is gone once offered, and good only until it expires |
| `Approvals.ChallengeStore.Outstanding` | runtime/src/auth/challenge.rs:147-152 | What is counted is what has not lapsed |
| `Approvals.TokenStore.Issue` | runtime/src/auth/token.rs:136-158 | Lapsed tokens go, and the new one is recorded under its digest unless the store is full; no live one is evicted |
| `Approvals.TokenStore.Redeem` | runtime/src/auth/token.rs:166-178 | A token is gone once offered, and good only before it expires and for its own interaction |
| `Approvals.TokenStore.Outstanding` | runtime/src/auth/token.rs:180-185 | What is counted is what has not lapsed |
| `Approvals.Gate.Issue` | runtime/src/auth/gate.rs:229-243 | A challenge is recorded for the scope asked for, if its ceremony starts and there is room |
| `Approvals.Gate.Authenticate` | runtime/src/auth/gate.rs:252-297 | An assertion is taken exactly if its challenge is good and an active credential, the ceremony and the use record vouch for it; the challenge is spent either way, and the scope is the one it was issued for |
| `Approvals.Gate.Grant` | runtime/src/auth/gate.rs:303-308 | The token is for that tenant and scope and no other |
| `Approvals.Gate.Redeem` | runtime/src/auth/gate.rs:316-336 | With a header that carries a token, a request gets through, as the tenant it was granted for, exactly if that token is held, has not expired and was granted for this path, this query (none and empty apart) and this method in capitals, letter by letter; the token is gone either way. A header that carries none spends nothing |
| `Approvals.SameScope` | runtime/src/auth/token.rs:66-75 | Two requests are one interaction exactly if path and query are equal and their methods are equal but for the case of ASCII letters |
| `Approvals.OfferedExactly` | runtime/src/auth/gate.rs:317-326 | The token a header carries is what follows the word, trimmed, if it is not empty and at most 128 octets |
| `Approvals.RedeemsExactly` | runtime/src/auth/token.rs:166-178 | Redeeming answers the tenant exactly for a token good for this very request |
| `Approvals.AddedWithin` | runtime/src/auth/token.rs:143-156 | Adding never takes a store past its capacity, lets go of nothing that has not expired, adds exactly if there is room, for as long as it should, and a sweep never grows it |
| `ApprovalRuns.AdmissionsTraced` | runtime/src/auth/gate.rs:252-336 | Over any run every request let through goes back to a challenge of its own, no two to one: issued for its scope, answered for its tenant within the challenge's lifetime, admitted within its token's |
| `ApprovalRuns.StoresBounded` | runtime/src/auth/token.rs:136-158 | Over any run neither store holds more than its capacity |
| `ApprovalRuns.SpentIsTraced` | runtime/src/auth/gate.rs:316-336 | A token that is good names an approval that has admitted nothing, for this tenant and this scope |
| `ApprovalRuns.ApprovedIsAdmitted` | runtime/src/auth/gate.rs:229-336 | From every reachable state with room, a challenge issued, answered in time, granted, and spent in time on the request it was for admits that request for whoever answered it |
| `ApprovalRuns.NextKeeps` | runtime/src/auth/gate.rs:229-336 | Issuing, answering, granting, spending, sweeping and the passing of time keep that invariant |
| `SettingsRoundTrip.ReadBackExactly` | runtime/src/env.rs:92-115 | Appended to a well-formed file that has none, settings are read back as they were exactly when names are distinct variable names, values have no line feed and no trailing carriage return, and the section is below 2^35 octets |
| `SettingsRoundTrip.SecondSectionRefused` | runtime/src/env.rs:52-55 | A file that has settings takes no second section |
| `SettingsRoundTrip.NamesAreDistinct` | runtime/src/env.rs:68-84 | Whatever file they come from, settings have variable names and each of them once |
| `SettingsRoundTrip.AppendSettings` | runtime/src/env.rs:92-115 | The writer's output is the file, a custom section header and the lines, lengths in LEB128 |
| `SettingsRoundTrip.ScanKept` | runtime/src/env.rs:39-59 | Sections already read are read the same when more is appended |
| `Settings.FromGuestFile` | runtime/src/env.rs:23-87 | The settings of a guest file, or the first thing wrong with it |
| `SettingsLaws.SettingsExactly` | runtime/src/env.rs:23-87 | Settings are read if and only if the file is wasm made of whole sections, one at most is the custom section of that name, and its octets are text whose lines, blank ones aside, are NAME=VALUE for these settings in order, names valid and each used once; without such a section there are none |
| `SettingsLaws.SectionExactly` | runtime/src/env.rs:46-63 | A section is read as what stands there: an id, a length and as many octets, and in a custom one a name with its own length in front of the data |
| `SettingsLaws.LinesExactly` | runtime/src/env.rs:70-86 | Which lines are which settings |
| `SettingsLaws.LinesRead` | runtime/src/env.rs:71 | A line ends at LF or CRLF; a last one needs no end and keeps a carriage return of its own |
| `Settings.FindSection` | runtime/src/env.rs:37-59 | The one settings section found by walking the sections once; two are refused |
| `Settings.ReadLines` | runtime/src/env.rs:64-87 | Lines are added one by one, the first that will not do refused |
| `Settings.ReadLength` | runtime/src/env.rs:26-36 | A length is read seven bits at a time, at most five octets of it |
| `Settings.LebReads` | runtime/src/env.rs:93-104 | A length written reads back wherever it stands, exactly if it is below 128 to the number of octets read |
| `SettingsLaws.LebExactly` | runtime/src/env.rs:26-36 | The octets read as a length: at most five, all but the last from 128 up, seven bits of each, least significant first, not necessarily the fewest |

## Left out

- AnchorProtocol.NothingAcknowledgedIsLost: does not cover two enclaves alive at once, as the runtime does not promise it; what holds then is in `AnchorRace`. The floor on the chain from outside and the pinned genesis of a tenant pool only refuse more.
- AnchorText.AdmitIsAdmits: stops short of an anchor numbered 2^64-1, whose successor's number wraps; the protocol models count without bound.
- AnchorRace.ClaimKeepsGenerations: does not model the limit of 1024 tries, after which a boot gives up.
- Tasks.TaskQueue.Finish: is told what the anchor behind it answers; in `TaskRuns` a crash may fall between the two, and a failed write is a crash.
- BootRuns.ResumesExactly: takes the pool itself as one the host shows honestly; whether a disk state is admitted is `AnchorProtocol`'s. Attestation documents are ideal, and objects planted in the bucket by anyone but a boot are not part of this model.
- BerTranscoder.Transcode: lengths are unbounded where the machine's are 64 bits, more than any input in memory.
- SseFraming.DecodeBlock: base64 and the id made from content are parameters.
- LineFraming.LineFramer.Emit: the lossy UTF-8 conversion is a parameter, the tag saying which stream a record is from is not carried, and the counters do not wrap.
- Streams.StreamRegistry.Open: its notification is part of the method here and a step of its own in `Supervision`; the status kept per stream, and origin parsing, are not modelled.
- Catalog.CatalogDir.Create: creations are one at a time, as the creation lock makes them; mapping the region and creating the pool on it may fail and are then no step at all.
- CatalogRuns.FoundIsAccepted: keeps one disk and one region size throughout.
- ApprovalRuns.AdmissionsTraced: grants each approval once, as the one route that grants does (`runtime/src/auth/routes.rs:371-394`); the gate itself would grant the same one again.
- Approvals.Gate.Authenticate: the credential store and the WebAuthn ceremony answer as they will; interleaved revocation is not modelled.
- The txg witness read from the kernel's history table (`runtime/src/zfs.rs:1724-1740`), as one more table of text.
- Slot counting per boot, the arrival answer, and device mappings left by a failed creation, which do not reflect the catalog.
- Dropping a queue or registry operation halfway: each is whole or a crash.
- COSE, X.509 and NSM codecs, the gRPC deframer, KMS, S3, TLS, NBD and dm-crypt: interfaces, or easier instances of the same chunking.
- Guest execution, logging text and error messages.
