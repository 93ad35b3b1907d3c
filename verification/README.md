# DeltaWeave: a verified model

DeltaWeave keeps directory trees of several machines in step, peer to peer. This project models
the state machines behind its I/O and proves what they keep. Verify it with
`dafny verify dfyconfig.toml`.

| file | what it models |
|---|---|
| `Core.dfy` | portable paths, version vectors, the record that peers exchange |
| `Index.dfy` | the local index as a class: scan, rename correlation, direct push, causal check, adoption |
| `ScanLaws.dfy` | what a scan means for every path, and for a second scan |
| `Observing.dfy` | how a traversal becomes an observation; the incremental shortcut |
| `Causal.dfy` | N replicas that scan, take pushes and adopt each other's versions; every run |
| `RenameLoss.dfy` | the one case in which an unseen edit can be overwritten, exactly |
| `Swarm.dfy` | filling a chunk store from several sources that may answer anything |
| `Merkle.dfy` | subtree digests, what they identify, and the comparison of two trees |
| `Snapshot.dfy` | downloading a peer's snapshot along mismatching subtrees |
| `Admission.dfy` | the registry of public roots and private paths, with leases and crashes |
| `Manifest.dfy` | manifests, chunking, delta plans, reassembly |
| `Pipeline.dfy` | the bounded chunk writer as a class, and the disk budget |
| `Transfer.dfy` | sender, receiver and a whole push session |
| `Recovery.dfy` | the journal of causal changes as a class, crashes, and recovery |
| `Manager.dfy` | concurrent add, update and remove of managed folders |
| `Pause.dfy` | pausing against concurrent admission |

## Reading the model

- A loop over local variables is a method with invariants, proved against a specification predicate
  or function; an object with fields is a class (`LocalIndex`, `Writer`, `Registry`, `Journal`). A
  protocol between processes or concurrent calls is a relation or a step function over a state, and
  its theorems speak of every run.
- What lies outside is a parameter: the order in which map entries are visited, the disk, the peer
  (`Peer`), the outcome of every batch (`outcomes`, `outcome`), the moment at which bytes reach the
  disk (`landed`), the caller's authority and the store's success (`Fate`). Theorems quantify over all
  of them.
- History variables (`Track`, `System.log`, `history`, `pushed`, `settled`) are ghost and only followed.
- Digests are collision free where a theorem needs it, stated as a precondition or as an antecedent
  (`CollisionFree`). Integers are unbounded, and each checked or saturating addition of the code is
  written out against `U64_MAX`.
- A check of the code that provably cannot fail stands in the model as an assertion or as the
  unconditional use of a result: the query counter and both duplicate checks of the snapshot walk, and
  the budget check before materialisation.

## Where the code falls short of a promise

- **An unseen edit can be overwritten through a rename.** A rename target takes over the clock of the
  path it came from. `RenameLoss.RenameLosesAnEdit` is a run of two replicas in which a causally checked
  push replaces an edit that the sender never saw; `RenameLoss.RenameOverwritesExactly` says, for every
  run and every later holder of an older version, when such a push is accepted; `Causal.NoLostUpdate`
  holds on every path that no rename has landed on.
- **Recovery can refuse for good.** A replica that is offered a record it already holds journals a
  reinstallation. If that is cut off after it was bound and before the journal says it is installed, the
  recovery finds the record in the index, tries to mark the change, and fails; every later run finds and
  leaves the same state: `Recovery.ReinstallationSticks`, and for all such changes
  `Recovery.Journal.RecoverAgain`. `Recovery.Journal.CrashAndRecover` proves that this is the only
  obstacle when nothing outside is in the way.
- **A worker that will not stop can put two folders on one path.** A failed stop of an add or update
  leaves a live view behind. If every path of that view outside the management directory lies at or below a saved path of the same folder
  and the endpoint is the saved one, no later steps bring two folders into conflict; otherwise some do.
  `Manager.StopFailsExactly` is this equivalence, `Manager.FoldersStayApart` covers all runs whose failed
  stops meet the condition, and `Manager.UnsavedViewIsLost` is a run that ends in a conflict.

An incremental scan may observe less than a complete one, but does not commit less: the observations
differ exactly as `Observing.IncrementalRefinesComplete` says, and with them the number of unchanged
files reported and the retry table; rows and changes are the same unless a file's content changed behind
an unchanged fingerprint (`Observing.IncrementalCommitsTheSame`).

## Model

| member | source | states |
|---|---|---|
| `Core.Observe` | crates/deltaweave-core/src/lib.rs:560-564 | every replica's counter afterwards: the maximum for the observed one, unchanged for all others |
| `Core.Merge` | crates/deltaweave-core/src/lib.rs:566-572 | the result is the least vector that knows everything either input knows |
| `Core.ComputeRelation` | crates/deltaweave-core/src/lib.rs:576-593 | the loop over stored entries decides the pointwise order over all replicas, so explicit zeros do not matter |
| `Index.GroupByKey` | crates/deltaweave-index/src/lib.rs:1730-1784 | each group holds exactly the paths with its identity, each once, and no group is empty |
| `Index.CorrelateRenames` | crates/deltaweave-index/src/lib.rs:1730-1784 | the map holds exactly the pairs that are alone with their identity and differ in nothing but the path, for every visiting order |
| `Index.RenameMapIsUnique` | crates/deltaweave-index/src/lib.rs:1730-1784 | the rename map is a function of rows and observation, not of hash-map order |
| `Index.RenamesAreInjective` | crates/deltaweave-index/src/lib.rs:1730-1784 | no two targets share a source |
| `Index.StampOne` | crates/deltaweave-index/src/lib.rs:1006-1045 | one more change is carried out under the next counter value, or the counter is exhausted |
| `Index.StampObserved` | crates/deltaweave-index/src/lib.rs:996-1045 | the first loop makes exactly the changes of the observed paths, once each; unchanged and changed paths add up to the observed ones |
| `Index.StampMissing` | crates/deltaweave-index/src/lib.rs:1047-1065 | the second loop completes the plan: no path that calls for a change is left out |
| `Index.LocalIndex.ApplyScan` | crates/deltaweave-index/src/lib.rs:960-1134 | succeeds exactly when neither counter nor generation overflows; otherwise nothing changes; rows, counter, generation and report are those of the scan's specification |
| `Index.RowAfter` | crates/deltaweave-index/src/lib.rs:996-1065 | a row is either authored at one definite new counter value or exactly as before |
| `Index.AuthoredFacts` | crates/deltaweave-index/src/lib.rs:1010-1062 | an authored row stands under its own path and knows of this replica exactly its own event |
| `Index.RowsStayCoherent` | crates/deltaweave-index/src/lib.rs:977-1065 | after a scan no row knows more of this replica than the durable counter |
| `Index.AdoptionIsExact` | crates/deltaweave-index/src/lib.rs:719-831 | a record is adopted exactly as received, if and only if the disk shows it in every portable respect; identity and time come from the disk, or from the former row of a tombstone |
| `Index.LocalIndex.EnsureApplicable` | crates/deltaweave-net/src/lib.rs:2691-2713 | the answer in every case: ahead of the local counter, unknown path, following, equal with the same or another state, stale, concurrent |
| `Index.LocalIndex.CommitRemote` | crates/deltaweave-index/src/lib.rs:676-717 | when it succeeds, in both directions, and which records are invalid; the row becomes the record with the disk's identity and time, every other row and the counter stay |
| `Index.LocalIndex.Receive` | crates/deltaweave-net/src/lib.rs:2418-2481 | a push is adopted if and only if it follows or equals the stored row, is valid and is shown by the disk; a refusal changes nothing |
| `Index.LocalIndex.AdoptMaterialized` | crates/deltaweave-index/src/lib.rs:556-582 | a direct push is one local event on its path, if and only if the file is still as it was written |
| `ScanLaws.ScanIsExact` | crates/deltaweave-index/src/lib.rs:996-1065 | no path is dropped; an observed path ends live with the kind, identity, size, time, permission and content of its entry; a missing one is buried unless excused by name or prefix, keeping all else, and an excused one is untouched and no rename source |
| `ScanLaws.TouchedExactly` | crates/deltaweave-index/src/lib.rs:983-1065 | which rows a scan writes: the observed ones whose live row does not have those six values already, and the live ones that are gone without an excuse |
| `ScanLaws.ScannedRow` | crates/deltaweave-index/src/lib.rs:996-1065 | the written row of a path, with the counter value it spent and the change it belongs to |
| `ScanLaws.ClocksAdvance` | crates/deltaweave-index/src/lib.rs:1006-1065 | a path's clock never goes down, except that a rename target, which then held a tombstone, takes over its source's clock |
| `ScanLaws.ReportIsExact` | crates/deltaweave-index/src/lib.rs:996-1065 | the report holds one change for each path that calls for one and no other; the counter rises by their number |
| `ScanLaws.ReportSays` | crates/deltaweave-index/src/lib.rs:1006-1063 | which change is reported for a path, if and only if: renamed, created, modified or deleted |
| `ScanLaws.RenamedExactly` | crates/deltaweave-index/src/lib.rs:1730-1784 | a rename is found if and only if an object vanished and appeared with every value unchanged and no other of its kind and identity did either |
| `ScanLaws.AdoptedIsUnchanged` | crates/deltaweave-index/src/lib.rs:719-831 | a scan of the entry that was adopted finds it unchanged |
| `ScanLaws.RescanIsIdle` | crates/deltaweave-index/src/lib.rs:996-1065 | scanning the same observation again reports nothing and leaves rows and counter |
| `ScanLaws.ScanIsDeterministic` | crates/deltaweave-index/src/lib.rs:960-1134 | the same tree in the same visiting order commits the same rows |
| `ScanLaws.OrderIsImmaterial` | crates/deltaweave-index/src/lib.rs:960-1134 | in any two visiting orders a scan finds the same renames, reports the same changes, spends equally many counter values and leaves rows that agree but for this replica's own entry |
| `Observing.CollectObservation` | crates/deltaweave-index/src/lib.rs:447-508 | the two loops settle every candidate: hashed, reused, preserved or without content, path by path |
| `Observing.CandidateExactly` | crates/deltaweave-index/src/lib.rs:447-508 | what becomes of one candidate, case by case: skipped only by fingerprint and touch set, deferred, unreadable or recorded with the content found |
| `Observing.EstablishedOnce` | crates/deltaweave-index/src/lib.rs:447-508 | the observation does not depend on the order of hashing |
| `Observing.IncrementalRefinesComplete` | crates/deltaweave-index/src/lib.rs:458-487 | the incremental observation equals the complete one if and only if every skipped file is confirmed by its hash and waits for no retry |
| `Observing.AlikeOutcome` | crates/deltaweave-index/src/lib.rs:960-1134 | observations that differ only in files whose live row is to stay commit the same rows and report the same changes |
| `Observing.IncrementalCommitsTheSame` | crates/deltaweave-index/src/lib.rs:411-522 | an incremental scan commits and reports what a complete one does, in both directions, if and only if no skipped file changed behind its fingerprint; pending retries do not matter |
| `Observing.RetryIsHeldBack` | crates/deltaweave-index/src/lib.rs:466-487 | a concrete scan in which the two observations differ and nothing is overlooked |
| `Causal.ScanWrites` | crates/deltaweave-index/src/lib.rs:996-1065 | a scan is a set of local events: each written path continues one clock, and only the two ends of a rename share an event |
| `Causal.PushWrites` | crates/deltaweave-index/src/lib.rs:556-582 | a direct push is one local event on one path |
| `Causal.LocalKeepsInv` | crates/deltaweave-index/src/lib.rs:977-1065 | a local change keeps every clause of the system invariant |
| `Causal.AdoptKeepsInv` | crates/deltaweave-net/src/lib.rs:2418-2481 | so does the adoption of any version ever stored anywhere |
| `Causal.StepKeepsInv` | crates/deltaweave-index/src/lib.rs:556-717 | every step of the replicated system keeps the invariant |
| `Causal.RunsKeepInv` | crates/deltaweave-index/src/lib.rs:556-717 | the invariant holds in every state of every run of any number of replicas |
| `Causal.RowsAdvance` | crates/deltaweave-index/src/lib.rs:556-717 | no step, scan, push or adoption, drops a row or lets its clock go down, except a rename onto a tombstone |
| `Causal.ClocksNeverGoDown` | crates/deltaweave-index/src/lib.rs:556-717 | between any two states of any run a held row stays and its clock only grows, unless a rename landed on the path in between while it held a tombstone |
| `Causal.SameClockSameVersion` | crates/deltaweave-net/src/lib.rs:2702-2707 | in an invariant state, two versions of a path with equal clocks are one version |
| `Causal.UniqueEvents` | crates/deltaweave-net/src/lib.rs:2691-2713 | in every run: equal clocks on a path mean equal state and history anywhere, no message runs ahead of the receiver's counter, and the reused-version rejection never fires |
| `Causal.AcceptsExactly` | crates/deltaweave-net/src/lib.rs:2691-2713 | whatever renames there were, a receiver takes a version in circulation over its own exactly when its clock covers its own |
| `Causal.ClocksAreHistories` | crates/deltaweave-core/src/lib.rs:576-593 | off rename targets, one clock is below another exactly when its events are among the other's |
| `Causal.NoLostUpdate` | crates/deltaweave-net/src/lib.rs:2691-2713 | in every run, off rename targets, a receiver accepts a version over its own if and only if every event behind its own stands behind the incoming one |
| `RenameLoss.RenameOverwritesExactly` | crates/deltaweave-index/src/lib.rs:1006-1019 | in every run, after a rename and any further steps, a peer that holds a version of the target from before takes the renamed file over it if and only if the source's clock covers that version's, apart from the renaming replica; with no earlier rename on either path, that version holds an event the file lacks |
| `RenameLoss.RenameLosesAnEdit` | crates/deltaweave-index/src/lib.rs:1006-1028 | a concrete run in which an edit is accepted away unseen |
| `Swarm.LeastLoaded` | crates/deltaweave-swarm/src/lib.rs:124-143 | the chosen source is eligible, has the chunk and was assigned the fewest; none only if no source qualifies |
| `Swarm.BeforeIsOrder` | crates/deltaweave-swarm/src/lib.rs:114-115 | rarity first, then digest, is a total order |
| `Swarm.InsertInOrder` | crates/deltaweave-swarm/src/lib.rs:102-115 | one chunk is put in its place by rarity and digest |
| `Swarm.RarestFirst` | crates/deltaweave-swarm/src/lib.rs:102-115 | the request is rearranged, nothing lost or repeated, with rarer chunks first and smaller digests first among equals |
| `Swarm.Schedule` | crates/deltaweave-swarm/src/lib.rs:96-152 | rarest first; at most one assignment per chunk, only to eligible sources that have it, and no chunk that such a source has is passed over |
| `Swarm.ScheduleFirst` | crates/deltaweave-net/src/lib.rs:4034-4052 | afterwards every offered chunk is queued at a source that offers it |
| `Swarm.Reassign` | crates/deltaweave-net/src/lib.rs:4272-4316 | all loose chunks find a source in use that has them, or nothing is queued and some chunk has none |
| `Swarm.Collect` | crates/deltaweave-net/src/lib.rs:4070-4073 | a batch is the front of the queue, as long as a batch may be or all of it, and spends request budget |
| `Swarm.LaunchSource` | crates/deltaweave-net/src/lib.rs:4066-4090 | fills one source's streams; others are untouched; nothing moved or requests were spent |
| `Swarm.LaunchAll` | crates/deltaweave-net/src/lib.rs:4064-4092 | afterwards every queue is empty or its source's streams are full |
| `Swarm.TakeAnswer` | crates/deltaweave-net/src/lib.rs:4112-4133 | exactly what the source had is counted, and exactly what it lacks is listed and no longer expected of it |
| `Swarm.HandleAnswer` | crates/deltaweave-net/src/lib.rs:4112-4146 | an answer keeps the whole loop invariant; exactly the delivered chunks are counted; what the source lacks is not asked of it again |
| `Swarm.CountKept` | crates/deltaweave-net/src/lib.rs:4148-4191 | of a failed batch, exactly what reached the store is counted, once, and exactly the rest is listed |
| `Swarm.Divide` | crates/deltaweave-net/src/lib.rs:4192-4201 | exactly the chunks on which the source had not failed before go back to its queue; the others, and all of a disabled source, are to be moved |
| `Swarm.HandleFailure` | crates/deltaweave-net/src/lib.rs:4147-4217 | a failed batch keeps the whole loop invariant; exactly what was kept is counted; the source is disabled if it failed on a chunk before, and only then |
| `Swarm.Retire` | crates/deltaweave-net/src/lib.rs:4202-4216 | the source is out of use and empty, the others are as before, and an error means a chunk that no source in use offers |
| `Swarm.Join` | crates/deltaweave-net/src/lib.rs:4096-4223 | every outcome, a panic or a local error included, keeps the invariant and shrinks what is in flight; exactly what it delivers is counted, and a local error is recorded exactly when there is one |
| `Swarm.DisabledIsEmpty` | crates/deltaweave-net/src/lib.rs:4202-4204 | a disabled source has an empty queue |
| `Swarm.NothingForgotten` | crates/deltaweave-net/src/lib.rs:4063-4224 | at the loop head a chunk is stored, unassigned, queued at a source in use, in flight, or an error is on record; and in at most one queue or batch |
| `Swarm.AtMostTwice` | crates/deltaweave-net/src/lib.rs:4194-4204 | no source is asked for the same chunk more than twice |
| `Swarm.AllSettled` | crates/deltaweave-net/src/lib.rs:4093-4095 | with nothing in flight and no error, each chunk is counted once or was never offered |
| `Swarm.FetchesBounded` | crates/deltaweave-net/src/lib.rs:4066-4073 | no more batches are in flight than there are streams |
| `Swarm.CountersNeverOverflow` | crates/deltaweave-net/src/lib.rs:4116-4121 | the checked additions cannot overflow |
| `Swarm.FillStore` | crates/deltaweave-net/src/lib.rs:3942-4032 | a request that is too long, repeats itself or finds no source is refused, and exactly then so; what the store holds is not fetched; success counts exactly the absent chunks, each delivered by a joined batch; it succeeds whenever each of them is offered by a source that delivers, and fails if one is never delivered |
| `Swarm.FillChunks` | crates/deltaweave-net/src/lib.rs:3979-4270 | for every behaviour of the sources the loop terminates, asks each source for each chunk at most twice, and joins only what is in flight after a fatal outcome; exactly the delivered chunks are counted, once, and success means all of them; a local failure is reported exactly when one happened; an unresolved end means a chunk nobody offered; it succeeds if nothing local fails and each chunk is offered by some source that delivers every batch, whatever the other sources do |
| `Merkle.DigestIdentifies` | crates/deltaweave-reconcile/src/lib.rs:188-211 | equal subtree digests mean equal subtrees, every record with its history |
| `Merkle.DigestIsLocal` | crates/deltaweave-reconcile/src/lib.rs:188-211 | the digest of a node depends on its subtree alone |
| `Merkle.RootDigestIdentifies` | crates/deltaweave-reconcile/src/lib.rs:58-83 | two trees are equal exactly when their root digests are |
| `Merkle.DiffIsExact` | crates/deltaweave-reconcile/src/lib.rs:169-271 | the descent through mismatching nodes finds exactly the paths at which the trees differ |
| `Snapshot.ValidateSummary` | crates/deltaweave-net/src/lib.rs:1409-1448 | accepts exactly the summaries whose parts fit: single, valid, strictly ordered child names, no empty child, counts that add up, a record for its own prefix |
| `Snapshot.RefusedSummaries` | crates/deltaweave-net/src/lib.rs:1409-1448 | what an accepted summary cannot be: too big, empty below the root, with a record of another path, with an empty, unordered or composite child, or with counts that do not add up |
| `Snapshot.InsertRecords` | crates/deltaweave-net/src/lib.rs:1450-1472 | succeeds exactly when no path is there with another record; the result is the union |
| `Snapshot.PrecedesIsStrict` | crates/deltaweave-net/src/lib.rs:1433-1437 | the name order is strict and transitive |
| `Snapshot.PrecedesExactly` | crates/deltaweave-net/src/lib.rs:1433-1437 | the name order is that of the first code points in which two names differ |
| `Snapshot.OrderedApart` | crates/deltaweave-net/src/lib.rs:1433-1437 | so accepted children have pairwise different names |
| `Snapshot.Expand` | crates/deltaweave-net/src/lib.rs:815-839 | replacing a node by its record and children keeps pending prefixes incomparable, no record collected twice, and collected plus promised equal to the root count |
| `Snapshot.Reuse` | crates/deltaweave-net/src/lib.rs:806-813 | so does taking a subtree of the promised size from the local tree, whose paths are all new |
| `Snapshot.Postpone` | crates/deltaweave-net/src/lib.rs:832-838 | so does queueing a child |
| `Snapshot.KidsShareOut` | crates/deltaweave-reconcile/src/lib.rs:188-196 | the counts of a node's children add up to the records below it |
| `Snapshot.HonestWellFormed` | crates/deltaweave-net/src/lib.rs:1409-1448 | an honest summary is accepted if and only if it is within the record limit |
| `Snapshot.HonestExpand` | crates/deltaweave-net/src/lib.rs:815-839 | with an honest peer, expansion loses no record and no node that differs |
| `Snapshot.HonestReuse` | crates/deltaweave-net/src/lib.rs:806-831 | with an honest peer, a reused subtree is the peer's and holds no node worth asking for |
| `Snapshot.MismatchIsNeeded` | crates/deltaweave-net/src/lib.rs:824-838 | only nodes on which the trees disagree are queued |
| `Snapshot.NeededBound` | crates/deltaweave-net/src/lib.rs:832-837 | everything asked, queued or about to be queued is a different disagreeing node |
| `Snapshot.TakeChildren` | crates/deltaweave-net/src/lib.rs:818-839 | keeps both invariants; can fail only on the node limit, and with an honest peer only if the trees disagree on too many nodes |
| `Snapshot.AskNode` | crates/deltaweave-net/src/lib.rs:786-801 | the answer in every case: refused, gone, for another prefix, malformed, at odds with its parent, accepted |
| `Snapshot.TakeNode` | crates/deltaweave-net/src/lib.rs:806-839 | one answered node keeps both invariants, whichever way it is used |
| `Snapshot.HonestEnd` | crates/deltaweave-net/src/lib.rs:771-840 | an exhausted honest walk has collected the peer's records and asked for exactly the root and the disagreeing nodes |
| `Snapshot.FetchSnapshot` | crates/deltaweave-net/src/lib.rs:757-867 | any peer: at most 1,000,000 distinct queries, the repeated-path and final-count checks never fail, the result has the root digest claimed first, and a first answer that matches the local tree ends the walk with it. Honest peer: exactly its records at the price of root plus disagreeing nodes, refused exactly beyond the limits |
| `Admission.StepIsSafe` | crates/deltaweave-net/src/root_admission.rs:336-538 | every step of a session, every release and every crash keeps safety and removes no binding, marker or reservation |
| `Admission.RunsKeepSafe` | crates/deltaweave-net/src/root_admission.rs:336-538 | the same over whole runs |
| `Admission.RootsStayApart` | crates/deltaweave-net/src/root_admission.rs:336-538 | after every step of every run: no leased or managed root is a path prefix of another, nor of a private path or the registry, nor below one; settled bindings have their marker; nothing bound or reserved is ever dropped |
| `Admission.MarkersFailClosed` | crates/deltaweave-net/src/root_admission.rs:187-212 | in any state, a session gets past a settled binding only if its marker says the same, and never overwrites a marker that says something else |
| `Admission.PassedIsSettled` | crates/deltaweave-net/src/root_admission.rs:386-421 | what a session gets past, in any state: entries without holder or owner, set aside, and settled entries with their marker that are in nobody's way |
| `Admission.AdmissibleExactly` | crates/deltaweave-net/src/root_admission.rs:365-422 | when a request fits, in terms of path prefixes |
| `Admission.ReleaseFrees` | crates/deltaweave-net/src/root_admission.rs:26-40 | a released legacy root is nobody's; a released managed root is open to its own binding and to nothing else near it |
| `Admission.PassScan` | crates/deltaweave-net/src/root_admission.rs:386-422 | an entry passes exactly when it is dormant or compatible; if it does not, the request does not fit |
| `Admission.ScanEnd` | crates/deltaweave-net/src/root_admission.rs:386-447 | a completed catalog loop means that the request fits and the lease is to be had |
| `Admission.FinishManaged` | crates/deltaweave-net/src/root_admission.rs:522-537 | intent, marker and settlement go through in a safe state and leave the settled entry |
| `Admission.Registry.ReadCatalog` | crates/deltaweave-net/src/root_admission.rs:385-422 | the loop over the catalog ends well exactly when the request fits, and otherwise leaves leases, bindings and reservations |
| `Admission.Registry.Admit` | crates/deltaweave-net/src/root_admission.rs:336-538 | an undisturbed admission succeeds exactly when the request fits, and never near a leased root or a private path; it is a run of the protocol, drops the entries without holder and settles the rest; a refusal leaves leases, bindings and reservations |
| `Manifest.Validate` | crates/deltaweave-core/src/lib.rs:235-294 | the single pass accepts exactly the manifests whose extents tile the file, within the profile, with one length per digest |
| `Manifest.ValidExactly` | crates/deltaweave-core/src/lib.rs:152-180 | the bounds and parities of the profile, extents that follow each other from the first byte to the last, and one length per digest: exactly these make a manifest valid |
| `Manifest.ManifestFromPieces` | crates/deltaweave-cdc/src/lib.rs:20-67 | the manifest is valid and describes the joined bytes; it exists exactly when the pieces respect the profile and the size fits |
| `Manifest.ReassemblesFile` | crates/deltaweave-cdc/src/lib.rs:80-117 | concatenating intact chunks by digest gives back the described file, whoever stored them |
| `Manifest.MissingIsExact` | crates/deltaweave-cdc/src/lib.rs:127-147 | each absent chunk of the manifest is listed exactly once, and no other |
| `Manifest.MissingInOrder` | crates/deltaweave-cdc/src/lib.rs:112-147 | the list follows the order of first use |
| `Manifest.PayloadFits` | crates/deltaweave-cdc/src/lib.rs:127-147 | the listed payload never exceeds the file |
| `Manifest.ReusedIsCount` | crates/deltaweave-cdc/src/lib.rs:134-140 | the reuse count is the number of extents whose chunk is available |
| `Manifest.BuildPlan` | crates/deltaweave-cdc/src/lib.rs:127-147 | the plan lists exactly the missing chunks, counts the reused extents, and for a consistent manifest its byte sum is exact, never saturated |
| `Manifest.MissingChunks` | crates/deltaweave-store/src/lib.rs:514-528 | the store's inventory gives the same list, damaged files counting as absent |
| `Manifest.MissingAtFirstUse` | crates/deltaweave-store/src/lib.rs:514-528 | a chunk is asked for if and only if, at its first use, the store has no file, a damaged file or a longer file for it |
| `Pipeline.OpeningCheckCovers` | crates/deltaweave-net/src/lib.rs:2793-2842 | after a passed opening check every later batch check and the materialisation check pass, and no file system falls below the reserve, however much has landed, shared or not |
| `Pipeline.BudgetIsExact` | crates/deltaweave-net/src/lib.rs:2793-2842 | the check passes if and only if both file systems keep the reserve after the writes and no sum overflows |
| `Pipeline.WritesAreCharged` | crates/deltaweave-net/src/lib.rs:2799-2807 | a write to the chunk store is charged to the destination too if both share a file system |
| `Pipeline.InstallIsSafe` | crates/deltaweave-store/src/lib.rs:177-240 | installing verified chunks makes each available and damages no intact one |
| `Pipeline.InstallsOne` | crates/deltaweave-store/src/lib.rs:215-260 | an undamaged file that is not longer stays, any other is replaced, no other file is touched |
| `Pipeline.InstallAppends` | crates/deltaweave-store/src/lib.rs:158-212 | batch after batch is the same as all at once |
| `Pipeline.AccountedLand` | crates/deltaweave-net/src/lib.rs:2972-2986 | a landed batch moves from in flight to settled; nothing is lost, repeated or reordered |
| `Pipeline.AccountedFlush` | crates/deltaweave-net/src/lib.rs:2988-3013 | a flush moves the pending chunks in flight and counts their bytes |
| `Pipeline.Writer.Land` | crates/deltaweave-net/src/lib.rs:3019-3024 | the oldest batch ends completely, or with exactly the chunks before the error installed |
| `Pipeline.Writer.Drain` | crates/deltaweave-net/src/lib.rs:3026-3037 | every batch is waited for; one failure is reported |
| `Pipeline.Writer.JoinOldest` | crates/deltaweave-net/src/lib.rs:2972-2986 | removes the oldest batch, or all of them after a failure |
| `Pipeline.Writer.Flush` | crates/deltaweave-net/src/lib.rs:2988-3013 | the number in flight stays within the limit; the batch starts if and only if the oldest one did not fail and its bytes fit into what is free; that check passes whenever the opening check admitted the transfer |
| `Pipeline.Writer.Push` | crates/deltaweave-net/src/lib.rs:2924-2940 | terminates; queued bytes never exceed the larger of the limit and the biggest chunk; a chunk that neither fills a batch nor the queue just waits; less than a batch stays pending, nothing above the limit; the chunk is accepted unless something outside fails |
| `Pipeline.Writer.Finish` | crates/deltaweave-net/src/lib.rs:2942-2960 | on success every pushed chunk has been installed exactly once, in order |
| `Transfer.DescriptorsAre` | crates/deltaweave-net/src/lib.rs:1816-1820 | the lookup table knows exactly the manifest's digests, each with a true descriptor |
| `Transfer.KeptIsReused` | crates/deltaweave-net/src/lib.rs:1826-1830 | counting extents that were not requested and extents that were held gives one number |
| `Transfer.SendRequested` | crates/deltaweave-net/src/lib.rs:1809-1864 | succeeds exactly for distinct, known requests whose source bytes still match; every frame is right and both counters are exact |
| `Transfer.UniqueMissingBytes` | crates/deltaweave-net/src/lib.rs:3039-3057 | exact for repeated requests too, and defined exactly when all are known and the sum fits |
| `Transfer.ReceiveChunks` | crates/deltaweave-net/src/lib.rs:3059-3109 | frames of any sender: success means every requested chunk arrived undamaged and in order and is in the store beside all that was intact; with a working store exactly the right frames succeed |
| `Transfer.PushSession` | crates/deltaweave-net/src/lib.rs:2351-2448 | success makes the store complete and the reassembled file the described one, with the record's digest and size; both sides agree on bytes and reuse; with an unchanged source and working store it succeeds exactly when record and manifest are in order and the opening check passes |
| `Recovery.Journal.MarkIndexed` | crates/deltaweave-store/src/preservation.rs:509-529 | marks exactly the materialised changes, in two durable writes |
| `Recovery.Journal.RecoverOne` | crates/deltaweave-net/src/lib.rs:2609-2666 | gets through exactly when the change settles, and comes to the end its fate decides: rolled back if refused or already being undone, aborted on drift, committed and adopted otherwise; if it does not get through, only this entry and its row have moved, to where a later run can take up; a stuck change is left as it is |
| `Recovery.OutcomeMeans` | crates/deltaweave-net/src/lib.rs:2615-2666 | progress and adoption as functions of the fate imply the end a change comes to |
| `Recovery.Journal.Recover` | crates/deltaweave-net/src/lib.rs:2595-2669 | Ok if and only if the run is not cut off and each open change settles in the index that the changes before it leave; then every causal change of the root is committed, aborted or rolled back as its fate decides, and another run changes nothing; in every run, each entry and row moves only as one change allows, and other roots' entries stay |
| `Recovery.RowStays` | crates/deltaweave-net/src/lib.rs:2595-2669 | in every run, a row changes only through an open change of its own path |
| `Recovery.IndexMatchesJournal` | crates/deltaweave-net/src/lib.rs:2595-2669 | at the end the index holds the record or the precondition of the last open change of each path, as that change ended |
| `Recovery.UntouchedPath` | crates/deltaweave-net/src/lib.rs:2595-2669 | in every run, paths without an open change keep their row |
| `Recovery.StepStands` | crates/deltaweave-net/src/lib.rs:2609-2666 | whatever happens to one change, the rows go on agreeing with the progress of all changes that were open at first |
| `Recovery.PassKeepsStanding` | crates/deltaweave-net/src/lib.rs:2595-2669 | so does every run, cut off anywhere or not |
| `Recovery.StuckBlocks` | crates/deltaweave-net/src/lib.rs:2615-2619 | while a change is stuck no run returns Ok |
| `Recovery.DirectedEnd` | crates/deltaweave-net/src/lib.rs:2630-2666 | over any number of runs, a change that is never refused nor given up ends committed, and one that is never agreed to ends rolled back |
| `Recovery.Journal.RecoverAgain` | crates/deltaweave-net/src/lib.rs:2595-2669 | after any number of failed or interrupted runs, one that returns Ok leaves every change that was open at first finished, with its record in the index if committed and its precondition otherwise, and every other row as at first; committed if never refused, rolled back if never agreed to; a stuck change stays as it is and no run returns Ok |
| `Recovery.Journal.ApplyUntilCrash` | crates/deltaweave-net/src/lib.rs:2418-2483 | where journal and index stand after exactly so many durable steps of an application, the entry that is not yet bound included; enough steps on a record that the disk shows end committed and adopted |
| `Recovery.Journal.CrashAndRecover` | crates/deltaweave-net/src/lib.rs:2418-2669 | after a crash anywhere and any number of interrupted recoveries, the first Ok leaves the new record or the old state in the index as the journal says, the new one if the change was never refused nor given up, and no other row moved; the first run that nothing outside hinders returns Ok, unless the current record's reinstallation was cut off, and then none ever does |
| `Recovery.ReinstallationSticks` | crates/deltaweave-net/src/lib.rs:2615-2619 | a concrete accepted push after whose interruption every run fails and leaves journal and index as they are |
| `Manager.ConflictIsMutual` | crates/deltaweave-control/src/lib.rs:921-939 | the path and endpoint conflict is symmetric |
| `Manager.NothingNew` | crates/deltaweave-control/src/lib.rs:440-700 | only a reservation shows anything beyond what is shown: a rollback returns to a view that the saved one shelters, a save writes what is live |
| `Manager.KeepsApart` | crates/deltaweave-control/src/lib.rs:440-700 | every step keeps distinct folders free of conflicts across both maps |
| `Manager.KeepsInStep` | crates/deltaweave-control/src/lib.rs:440-700 | every step, an excusable failed stop included, keeps the two maps in the relation that the folder's operation calls for |
| `Manager.KeepsDraft` | crates/deltaweave-control/src/lib.rs:349-379 | a configuration being written differs from the current one only in its own change, and no device reference in it dangles |
| `Manager.RunsAreSafe` | crates/deltaweave-control/src/lib.rs:440-700 | the same over whole runs whose failed stops are excusable |
| `Manager.FoldersStayApart` | crates/deltaweave-control/src/lib.rs:440-700 | in every interleaving whose failed stops are excusable: distinct folders never share an endpoint nor have a path at or below one of another, in either map; a pending update can be rolled back safely, no saved device reference dangles, no two devices share an endpoint, an idle folder shows what its saved view shelters, and just that view if no stop left another |
| `Manager.ApartMeans` | crates/deltaweave-control/src/lib.rs:921-939 | a conflict is a shared endpoint, or a path at, above or below one of the other |
| `Manager.AddIsSaved` | crates/deltaweave-control/src/lib.rs:483-541 | an undisturbed add with a known device is saved, and nothing else changes |
| `Manager.AddIsUndone` | crates/deltaweave-control/src/lib.rs:507-536 | an add that does not get through leaves everything as before |
| `Manager.UpdateIsSaved` | crates/deltaweave-control/src/lib.rs:590-622 | an undisturbed update with a known device is saved, and nothing else changes |
| `Manager.UpdateIsUndone` | crates/deltaweave-control/src/lib.rs:623-658 | an update that does not get through leaves everything as before |
| `Manager.RemoveIsComplete` | crates/deltaweave-control/src/lib.rs:661-699 | a remove forgets the folder in both maps, or in neither |
| `Manager.DevicesAreSaved` | crates/deltaweave-control/src/lib.rs:768-843 | when a device may be added, changed or removed, and what is saved then |
| `Manager.SheltersExactly` | crates/deltaweave-control/src/lib.rs:921-939 | a view shelters another, by endpoint and path prefixes, if and only if it conflicts with every view that conflicts with the other |
| `Manager.UnshelteredClashes` | crates/deltaweave-control/src/lib.rs:544-660 | an idle folder whose live view is not sheltered can come into conflict through one more update, one add and one rollback |
| `Manager.StopFailsExactly` | crates/deltaweave-control/src/lib.rs:515-648 | after a failed stop the invariant goes on holding, and no later steps bring two folders into conflict, if and only if the saved view shelters the live one |
| `Manager.StrictStopExactly` | crates/deltaweave-control/src/lib.rs:604-626 | live and saved views stay equal exactly when the interrupted update changed nothing |
| `Manager.UnsavedViewIsLost` | crates/deltaweave-control/src/lib.rs:591-660 | a run with a failed stop that ends with two folders in conflict |
| `Pause.RunsKeepInv` | crates/deltaweave-net/src/lib.rs:130-157 | in every run the write guard excludes all operations, and the flag is up from its store to the next resume |
| `Pause.QuietLasts` | crates/deltaweave-net/src/lib.rs:137-151 | once drained, nothing but a resume admits again |
| `Pause.PauseDrains` | crates/deltaweave-net/src/lib.rs:137-157 | in every interleaving, from the return of a pause to the next resume no admitted operation is active and none is admitted |
| `Pause.AdmissionIsExact` | crates/deltaweave-net/src/lib.rs:137-144 | an operation becomes active exactly by finding the flag down, and only by finishing stops |
| `Pause.ResumeAdmits` | crates/deltaweave-net/src/lib.rs:137-157 | after an undisturbed resume the next operation is admitted |
| `Pause.WaitingOnlyDrains` | crates/deltaweave-net/src/lib.rs:146-150 | while a pause waits, every step is a reader leaving, so it waits for no more steps than there are readers |

## Left out

- Swarm.LeastLoaded: leaves out round-trip time, queue and penalty, which a fill sets alike for all its sources, and breaks ties by source number.
- Causal.UniqueEvents: does not cover the merge of reconciled snapshots or the adoption of an authoritative snapshot, which write records that no replica authored.
- Pipeline.Writer.Land: takes a batch to reach the store when it is joined; batches that write at the same time hold different chunks.
- Pipeline.OpeningCheckCovers: counts payload bytes only, not the file system's own overhead.
- Recovery.Journal.RecoverOne: follows the store's resume and rollback by the progress they journal, not by the files they move.
- Admission.RootsStayApart: takes the marker write as one step, and paths as resolved component lists.
- The retry table with its backoff, collision keys, schema numbers, report sorting and `files_hashed`.
- Walking real directories, file identities, permissions, symlinks and canonical paths.
- The redb, postcard, BLAKE3 and FastCDC encodings; a chunker is any cut into pieces.
- QUIC connections, framing, timeouts, peer identities and share authorisation.
- Reserved names, lengths and character rules of portable paths; components are non-empty and hold no slash.
- Availability paging and the disk checks inside swarm fetches; a failed check is one of the outcomes.
- Reconcile merges, conflict copies and action planning; watchers, worker backoff, folder commands, shutdown, the command line and the web interface.
