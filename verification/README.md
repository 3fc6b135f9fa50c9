# fluxlite verification

A Dafny model of the parts of fluxlite that have to stay right while things fail around them.
fluxlite drives remote machines with SSH commands that may fail with or without having done their
work, and keeps its books in SQLite while collectors, samplers, enforcement passes and operators
write to the same rows. The model covers five connected areas:

1. the refcounted lock table for subscription groups, the worker pool that runs an operation for
   every member of a group, and the reconcile pass on top of both;
2. handing a discovered sing-box fragment over to a managed service, and creating a managed node;
3. the traffic audit: the framed reply of the remote script, the cursor that follows a log, and the
   list of visited sites;
4. byte accounting: kernel counters folded into totals, buckets, periods and lifetime totals, and
   the quota decisions taken from them;
5. planning and deploying relay routes: ports, configurations, the pass over the machines, and what
   the running relays do with a connection.

Every file is one module, named after it. Objects whose methods update fields are classes
(`LockTable`, `SubscriptionStore`, `Node`, `Panel`, `LogSource`, `Ring`, `SingBoxStore`,
`TrafficStore`, `SubscriptionMeters`, `RouteStore`, `Deployer`); each of their methods is proved
against a function or predicate on values, and the claims over whole runs are lemmas about those.
SSH, the database, clocks and other people's writes are inputs: a command or a write comes with a
fault that says whether it fails and what it did all the same. A database transaction is atomic, and
a failed one changes nothing unless its fault says that it reached the database.

`dafny verify dfyconfig.toml` checks the whole project.

## Findings

Where the code does less than its comments or a first reading suggest, the model keeps the code and
the lemma states exactly when the expectation holds.

- The budget of a member run is computed with a 64-bit multiplication by four. A positive budget fits
  into four fifths of the remaining time if and only if the deadline lies ahead. The exception is a
  deadline more than seventy-three years past; callers set theirs minutes ahead
  (`MemberPool.BudgetFits`).
- `reserveSubscription` overwrites whatever entry the table has for its id. It is safe exactly if the
  id has none, which AUTOINCREMENT provides (`SubscriptionLocks.ReserveNeedsUnusedId`).
- A patch works from the group it read. A measurement failure recorded between that read and its
  write is written over: raising the quota of an active group can undo the revocation. The error
  survives if and only if the patch writes nothing, fails to start a member and records it, or meets
  a second failure after its write; the group is allowed again if and only if the patch enables it
  and it is within its limits (`SubscriptionGroups.MeterErrorDuringPatch`, `MeterErrorErased`,
  `FailureUnderPatchIsLost`; over runs `FailureStaysRecorded` and `AllowedAfterFailure`).
- A patch that reads a group in error cannot enable it, but an accepted patch that leaves it disabled
  rewrites the error as a stop, after which the next patch can
  (`SubscriptionGroups.PatchesOnFailedGroup`).
- The shared service is found running before a handover even if it has not loaded the adopted
  fragment. A completed rollback leaves the fragment loaded if and only if it was loaded before or
  the shared service was stopped on the way; everything else is restored (`Handover.RollbackMayLoad`,
  `UnloadedFragmentGetsLoaded`).
- A failed start rolls back in two steps: it reads the row and later writes the flag. It leaves the
  route enabled if and only if the route was when the start began and no mark was there at the read,
  against the comment at internal/api/route_start.go:64-66; a pass that pauses the route between the
  two is undone, and the route ends enabled, marked and over its quota
  (`QuotaEnforcement.FailedStartRestores`, `RollbackUndoesPause`). The
  enabling write itself does the same to a pass after the second check
  (`QuotaEnforcement.EnablingUndoesPause`, `EnabledUnderMark`).
- The script tests a log's size and empties it in two commands. Bytes written in between are thrown
  away unread: an emptying loses nothing if and only if there are none, and apart from those nothing
  is ever lost (`AuditTail.EmptyingLosesRacedBytes`, `RunHasNoGap`, `OnlyRacesMiss`).
- A log emptied by the panel whose reply got lost, or made anew under the same inode, is read
  correctly if and only if it has not grown to the recorded offset (`AuditTail.RegrownFileIsMisread`).
- A source never gets on if and only if the unread bytes up to the read limit are there and hold no
  newline (`AuditTail.StallsExactly`, `LongLineStalls`).
- Readings of a counter show all that passed but for the bytes unread when it restarts, and those of
  the latest reading if the counter passes that again before it is read (`Readings.KnownOrLost`).
- Counter readings are counted exactly if and only if none is older than the one before
  (`SingBoxAccounting.AscendingReadingsAreExact`). Collectors run one after another in one loop
  (internal/watcher/watcher.go:276-319), so none is.
- A top-up is added to the row at once, but samplers and the collector write back whole rows they
  read earlier. The top-up stays if and only if no row read before it is written back after it
  (`SingBoxAccounting.GrantStaysExactly`, `TopUpIsKeptGrants`). The mark that pauses a node over its
  quota stays if and only if no such write resumes the node or brings back a row without the mark,
  read before it was set (`PauseStaysExactly`).
- Stopping a route by hand keeps a quota-pause mark that is already there, so the next pass under the
  cap starts it again, against the comment at internal/service/traffic.go:229-230
  (`QuotaEnforcement.StopKeepsPauseMark`).
- A pass acts on routes as it listed them when it began. A stop without a pause mark lasts, whatever
  enforcement does later, if and only if no pass under way listed the route, with a cap, while it was
  enabled or marked, and none is about to write its flag or mark
  (`QuotaEnforcement.StopLastsExactly`).
- A byte counter is attributed to the hop it was counted at if and only if the route does not come
  back to that machine further on (`RouteCollection.CounterFindsItsHop`); the comment at
  internal/service/traffic.go:41-42 takes that for granted.
- Route validation rejects only consecutive repeats of a node, while a machine keeps one file per
  route. Connections get through if and only if no node is visited twice and no later hop is dialled
  as an IPv6 literal (`RelayChain.ConnectionReachesTarget`).
- Quoted fields are written with Go's escapes, while the format knows fewer (TOML v1.0.0, "String"),
  and the host of a target may contain control characters (internal/model/model.go:394-410). A
  text can be read if and only if slug, listen and remote have no control characters other than
  backspace, tab, newline, form feed and carriage return (`RelayReading.ReadInvertsRender`); no relay
  starts with any other.
- After a full success a hop runs what was planned if and only if the pass did not find a stale relay
  there: file and build as planned, but a process started with something else. A lost reply to a
  write, or a failed restart after an upgrade, leaves one, and no later pass with that plan ever
  restarts it (`Applier.SuccessRunsPlan`, `LeavesStale`, `StaleStays`, `LostReplyLeavesStale`,
  `FailedUpgradeLeavesStale`).
- The routes of a machine share one build, but a pass that replaces it restarts its own relay only,
  and an installation none. Without any fault every other running relay whose file is as planned is
  then stale and reported as unchanged, against the comment at internal/applier/applier.go:154-156.
  A relay is stale if and only if it was at the start, or another route's pass or an installation
  replaced the build under it, or its own pass failed as above
  (`RelayHosts.StaleExactly`, `OthersMakeStale`, `UpgradeReachesOneRoute`).
- A pass reloads systemd only after writing the service definition itself. A definition that was
  written, but whose reload failed, counts as current in every later pass, and none reloads for it:
  after a full success systemd was told of the definition on disk if and only if the pass did not
  find such a one (`Applier.SuccessHasTold`, `LeavesUntold`, `UntoldStays`,
  `FailedReloadIsNotRepeated`). Only the reload of some route's removal makes up for it
  (`RelayHosts.UntoldExactly`). This is about the reload command alone: every pass also runs
  `systemctl enable` (internal/applier/applier.go:266), which may reread definitions by itself.
- A journal reply arrives whole if and only if no entry is blank or starts with the label of the
  cursor; such entries are dropped or taken for the cursor (`AuditFraming.ToldAll`).

## Model

| member | source | states |
|---|---|---|
| SubscriptionLocks.StepKeepsInv | internal/service/subscription_locks.go:17-88 | every atomic step of retain, acquire, cancel, failed try, drain, drop or reserve, by any claim on any group that has or had a row, and every row inserted without a lock, keeps the table, the reference counts, the gates and the record of creators consistent |
| SubscriptionLocks.RunKeepsInv | internal/service/subscription_locks.go:17-88 | that consistency holds at every moment of every interleaving, from a process start over any groups already in the database |
| SubscriptionLocks.MutualExclusion | internal/service/subscription_locks.go:43-70 | at every moment of every interleaving at most one claim holds a group's lock |
| SubscriptionLocks.EntryCountsClaims | internal/service/subscription_locks.go:17-38 | a group has an entry exactly while some claim is on it; all those claims share the entry's lock object, whose refs is their number |
| SubscriptionLocks.LastDropReclaims | internal/service/subscription_locks.go:31-38 | the entry goes in exactly the step in which the last claim on the group drops its reference |
| SubscriptionLocks.GateMeansHolder | internal/service/subscription_locks.go:39-70 | releasing never blocks, a try-lock fails if and only if another claim holds the lock, and a waiter can get in if and only if nobody does |
| SubscriptionLocks.CreatorExcludesOthers | internal/service/subscription_locks.go:74-88 | from the step that publishes a reserved group until its creator releases, the creator holds its lock and nobody else does |
| SubscriptionLocks.HolderFindsCreatorGone | internal/service/subscriptions.go:354-436 | whoever else holds the lock of a reserved group does so after its creator released, so a group still provisioning under that lock has no live creator |
| SubscriptionLocks.CreatorsAreReservers | internal/service/subscription_locks.go:74-88 | at every moment the creators on record are exactly the claims that reserved a group and have not released it since |
| SubscriptionLocks.HolderFindsNoCreator | internal/service/subscriptions.go:354-436 | whoever holds the lock of a group it did not reserve itself, however the group came to be, finds no live creator |
| SubscriptionLocks.EarlierGroupHasNoCreator | internal/service/subscriptions.go:364-372 | a group that was there when the process started, or a collection, never has a creator: work orphaned by a restart has no owner in memory |
| SubscriptionLocks.ReserveNeedsUnusedId | internal/service/subscription_locks.go:74-88 | publishing a held lock for an id keeps the table consistent if and only if the id has no entry |
| SubscriptionLocks.ReusedIdHasTwoHolders | internal/service/subscription_locks.go:74-88 | publishing one for an id that somebody holds would make a second holder |
| SubscriptionLocks.LockTable.Retain | internal/service/subscription_locks.go:17-30 | finds or makes the lock object of a group that has or had a row, this process's or an earlier one's, and counts the claim: exactly one retain step |
| SubscriptionLocks.LockTable.Acquire | internal/service/subscription_locks.go:43-70 | fills the gate: exactly one acquire step |
| SubscriptionLocks.LockTable.Drain | internal/service/subscription_locks.go:39-42 | empties the gate: exactly one drain step |
| SubscriptionLocks.LockTable.Drop | internal/service/subscription_locks.go:31-38 | drops one reference and with the last one the entry: exactly one drop step |
| SubscriptionLocks.LockTable.Reserve | internal/service/subscription_locks.go:74-88 | row and held lock become visible together, or nothing changes |
| MemberPool.BudgetFits | internal/service/subscription_enforcement.go:20-30 | a positive budget times the number of rounds stays within four fifths of the time left if and only if the deadline lies ahead, in wrapping 64-bit arithmetic |
| MemberPool.BudgetIsLargest | internal/service/subscription_enforcement.go:20-30 | the budget is five seconds, or the largest whole number of nanoseconds of which a round for every eight members fits into four fifths of the time left, in wrapping arithmetic |
| MemberPool.StartBound | internal/service/subscription_enforcement.go:31-50 | the worker that is idle first after k runs is idle by k / workers budgets |
| MemberPool.Dispatch | internal/service/subscription_enforcement.go:31-50 | every id runs once, in order, the k-th starting within k / workers budgets; no worker runs two at once |
| MemberPool.RunSubscriptionMembers | internal/service/subscription_enforcement.go:16-62 | refuses exactly if the time left gives no whole nanosecond per round; otherwise all members finish within four fifths of a deadline ahead, and the call fails if and only if some run failed |
| SubscriptionGroups.StoppedWasVerified | internal/service/subscriptions.go:285-294 | over every run of passes, patches and measurements, a group that became stopped was marked by an event in which every one of its own members stopped |
| SubscriptionGroups.ErrorStaysUntilPatched | internal/store/subscriptions.go:208-222 | passes and measurements never take a group out of its error |
| SubscriptionGroups.PatchesOnFailedGroup | internal/service/subscriptions.go:189-271 | a patch that reads a group in error never enables it, and the error stays exactly if the patch writes nothing or a measurement fails again after its write |
| SubscriptionGroups.MeterErrorDuringPatch | internal/service/subscriptions.go:197-250 | after a measurement failure between a patch's read and its write a metered group is in error if and only if the patch writes nothing, fails to start a member and records it, or a second failure follows its write |
| SubscriptionGroups.MeterErrorErased | internal/service/subscriptions.go:197-250 | after such a failure the group is allowed again if and only if the patch enables it, nothing revokes it later and it is within its limits |
| SubscriptionGroups.FailureUnderPatchIsLost | internal/service/subscriptions.go:197-250 | one such input: raising the quota of an active group while its measurement fails leaves it active and allowed |
| SubscriptionGroups.FailureStaysRecorded | internal/store/subscriptions.go:206-211 | over every run without further patches or failures, a group is in error if and only if its measurement failure was recorded and not written over by the patch it fell into |
| SubscriptionGroups.AllowedAfterFailure | internal/service/subscription_enforcement.go:64-106 | over every run without further patches or failures, a group is allowed after a measurement failure if and only if the failure fell into a patch that enables it, no pass took it over since and it is within its limits |
| SubscriptionGroups.SettledByOwnStops | internal/service/subscriptions.go:354-436 | marking taken-over groups by the stops of one pass leaves each as its own faults and own members' stops decide, whatever the others did |
| SubscriptionGroups.SubscriptionStore.Reconcile | internal/service/subscriptions.go:354-436 | a whole pass settles every listed group by itself, leaves all other rows alone, and fails if and only if some group had trouble of its own; column by column: a group that may not run ends disabled, in error if it was provisioning or in error, otherwise stopped if all its members stopped and the mark was written, and stopping if not |
| SubscriptionGroups.PassOutcome | internal/service/subscriptions.go:354-436 | the same for one group, and exactly when it makes the pass report that it is incomplete |
| SubscriptionGroups.ProvisioningEndsInError | internal/service/subscriptions.go:386-391 | over every run of passes and measurements a group left while provisioning is that or in error, from the first pass that reaches it on in error, and every patch that would enable it is turned down |
| SubscriptionGroups.SubscriptionStore.TakeOverAll | internal/service/subscriptions.go:354-402 | writes back, with its lock held, every group no longer allowed, disabled and in error if it was provisioning or in error, else stopping; lists those groups and their members |
| SubscriptionGroups.SubscriptionStore.SettleAll | internal/service/subscriptions.go:416-436 | marks each taken-over group whose own members all stopped |
| SubscriptionGroups.SubscriptionStore.MarkSubscriptionStopped | internal/store/subscriptions.go:215-222 | changes the row only if it is still a disabled group that is stopping |
| SubscriptionGroups.SubscriptionStore.FailMeasurement | internal/store/subscriptions.go:206-211 | whatever the moment, a metered group is no longer allowed afterwards and keeps its usage; an unlimited group, a collection and every other group are untouched |
| SubscriptionGroups.SubscriptionStore.PatchSubscription | internal/service/subscriptions.go:189-294 | an operator's change, with measurements between any two of its steps; column by column: the quota and expiry asked for end up on the row with all usage counted meanwhile, status and switch follow from limits, starts, stops and failures, and the patch fails exactly if it is turned down, or a start, a stop or the mark fails |
| SubscriptionGroups.PatchOutcome | internal/service/subscriptions.go:189-294 | what a patch makes of a group, column by column |
| SubscriptionGroups.StopMembers | internal/service/subscriptions.go:403-415 | yields exactly the members whose stop succeeded, and fails if and only if one did not |
| Handover.Node.Handover | internal/service/singbox_handover.go:84-143 | at every moment of every run the shared service never serves the fragment while the managed one may be up, and a full copy of the fragment exists; the reported cause is the first step that failed, and success and a completed rollback end exactly as AllOrNothing and RollbackMayLoad say |
| Handover.OutcomeIsFirstFailure | internal/service/singbox_handover.go:84-143 | the reported cause is the first needed command that fails, and the reported gap the first command of the rollback that does |
| Handover.AllOrNothing | internal/service/singbox_handover.go:84-143 | success is everything handed over and the row committed; a completed rollback is everything as it was, but for the backup and what the shared service has loaded; the row is committed only on success |
| Handover.RollbackMayLoad | internal/service/singbox_handover.go:96-119 | after a completed rollback the fragment is loaded if and only if it was before or the running shared service was stopped on the way |
| Handover.UnloadedFragmentGetsLoaded | internal/service/singbox_handover.go:96-119 | one such input: a failed deployment beside a shared service that had not loaded the fragment |
| Handover.Node.Switch | internal/service/singbox_handover.go:110-143 | succeeds exactly if each needed command does, names the first that did not, and commits the row exactly on success |
| Handover.Node.Rollback | internal/service/singbox_handover.go:96-109 | safe at every moment; complete only with fragment back, no disabled file, no managed service and the shared service as found |
| NodeCreation.Panel.Create | internal/service/singbox.go:254-366 | at every moment a missing row means a clear machine and an enabled row a finished deployment; success exactly if every needed step succeeded |
| NodeCreation.Panel.Rollback | internal/service/singbox_creation.go:30-51 | releases row and port if and only if the machine was never touched or its removal was confirmed, and the delete succeeded |
| NodeCreation.SelectPort | internal/service/singbox_creation.go:53-91 | returns the requested or the lowest free port; reports none free exactly if every pool port is known to be blocked, and a fault exactly if a check failed first |
| AuditTail.ReadTakesNextLines | internal/service/conn_audit.go:352-367 | from any tracked state, including after a lost reply or a rotation, an answered round consumes exactly the complete lines among the next unread bytes |
| AuditTail.StepKeepsInv | internal/service/conn_audit.go:352-367 | appends, rotations, lost and answered replies with writes between any two of the script's commands, and rediscovery keep the file's bytes from first sight to the cursor equal to the bytes consumed and those thrown away unread, in order; a file emptied or made anew may grow past the recorded offset as long as no script finds it at that offset to empty it and no answered round takes its size |
| AuditTail.RunConsumesExactly | internal/service/conn_audit.go:352-367 | the same over every run, and the lines handed on are those of the consumed bytes |
| AuditTail.RunHasNoGap | internal/service/conn_audit.go:352-367 | over every run what was consumed is the file from first sight to the cursor, without gap or repeat, if and only if nothing was thrown away unread |
| AuditTail.OnlyRacesMiss | internal/service/conn_audit.go:352-358 | a step throws bytes away unread if and only if it empties the file and bytes were written between the size test and the emptying |
| AuditTail.EmptyingLosesRacedBytes | internal/service/conn_audit.go:352-358 | only a file that was consumed to its end is emptied; the bytes thrown away unread are exactly those written between the size test and the emptying, so it loses nothing if and only if there are none |
| AuditTail.EmptyingLosesNothingElse | internal/service/conn_audit.go:352-358 | the same at every emptying of every run |
| AuditTail.LinesCompose | internal/service/conn_audit.go:722-739 | cutting a text after a newline does not change the lines handed on |
| AuditTail.RegrownFileIsMisread | internal/service/conn_audit.go:352-367 | after an emptying whose reply got lost, or a new file under the same inode, the next round gets in step if and only if the file has not grown to the recorded offset when its size is taken |
| AuditTail.LongLineStalls | internal/service/conn_audit.go:722-739 | a line longer than the read limit is never got past, however many rounds are answered |
| AuditTail.StallsExactly | internal/service/conn_audit.go:722-739 | no round consumes anything, whatever is written, if and only if the unread bytes up to the read limit are there and hold no newline |
| AuditTail.LogSource.ReadFile | internal/service/conn_audit.go:722-739 | the cursor ends behind the last newline of the chunk, which is taken to follow the old position or, for another or a shrunk file, its start; yields the lines before it; asks for the file to be emptied if and only if it may be, is consumed to its end and larger than twenty megabytes |
| AuditTail.OnlyLargeFilesAreEmptied | internal/service/conn_audit.go:352-358 | over every run a file is emptied only if it may be and holds more than twenty megabytes |
| AuditFraming.ParseInvertsPrint | internal/service/conn_audit.go:290-519 | for every report with no body line or journal entry that looks like a marker, parsing the printed stream gives back the report, bodies byte for byte; of a journal it gives the entries that are neither blank nor labelled as a cursor, and the printed cursor or else the last labelled entry |
| AuditFraming.ProcessesArrive | internal/service/conn_audit.go:290-345 | that report has every process in order with each of its fields, its configs, missing configs and arguments in the order they were looked at |
| AuditFraming.FileArrives | internal/service/conn_audit.go:482-495 | and of each file what its last report says |
| AuditFraming.JournalArrives | internal/service/conn_audit.go:492-512 | and of each journal what its last report says |
| AuditFraming.ToldAll | internal/service/conn_audit.go:506-512 | a journal's entries all arrive if and only if none is blank or starts with the label of the cursor |
| AuditFraming.BodyIsPrintedVerbatim | internal/service/conn_audit.go:362-365 | a body is printed as it is, with exactly one newline after it |
| AuditFraming.ParseAuditOutput | internal/service/conn_audit.go:410-519 | the loop over lines computes the parser's state function, closing a body that is still open |
| AuditRing.RingCountsEveryVisit | internal/audit/ring.go:51-78 | after any sequence of single visits the ring holds at most 1000 records with distinct ids, and kept counts plus evicted counts are the visits |
| AuditRing.AddKeepsInv | internal/audit/ring.go:51-78 | folding, moving to the front and evicting keep bound, ids and counts |
| AuditRing.AddOutcome | internal/audit/ring.go:51-78 | a visit that repeats one of the newest 64 records, same node and target at most a minute apart, is counted in the newest such record, which takes the later time and moves to the top; any other becomes a record on top, and of more than 1000 the oldest goes |
| AuditRing.MatchesAreShown | internal/audit/ring.go:89-106 | the matches are, in order, exactly the records that are not newer than asked for, on the machine asked for and with the query in one of their texts |
| AuditRing.PagesCover | internal/audit/ring.go:110-130 | pages 1 to n, one after another, are the first matches, and all of them once there are enough pages |
| AuditRing.FrozenViewNeverGrows | internal/audit/ring.go:80-106 | whatever is added, no record joins those visible under a fixed until |
| AuditRing.Ring.Add | internal/audit/ring.go:51-78 | the in-place scan, fold, move and truncation is the ring's value-level add |
| AuditRing.Ring.Page | internal/audit/ring.go:110-130 | one pass yields the page's slice of the filtered list and its total |
| SingBoxAccounting.FoldKeepsOffset | internal/store/singbox.go:275-297 | a fold keeps used minus raw if and only if the reading is not older than the one on record |
| SingBoxAccounting.StepKeepsInv | internal/store/singbox.go:131-150 | stale whole-row writes, the collector's own included, snapshots, top-ups, readings and stores all keep used minus raw the same in every copy of the row |
| SingBoxAccounting.OffsetIsConstant | internal/service/singbox.go:803-832 | in every interleaving within a period used minus raw stays what it was, per direction |
| SingBoxAccounting.StoreIsExact | internal/service/singbox.go:698-797 | after each collector write the usage is the usage at the start plus what the kernel counted until the reading; the row is paused if and only if the row as loaded was, or its base quota is positive and that usage, in and out, reaches base plus top-up, beyond 64 bits cut off |
| SingBoxAccounting.TopUpMovesPausePoint | internal/model/singbox.go:126-141 | a top-up of n lets exactly n more bytes through before a node with a quota is paused |
| SingBoxAccounting.TopUpIsKeptGrants | internal/store/singbox.go:131-150 | at every moment of every interleaving the top-up is that at the start plus the top-ups the row still holds, where a row written back holds those it held when it was read |
| SingBoxAccounting.GrantStaysExactly | internal/store/singbox.go:131-150 | a top-up stays on the row if and only if no row read before it is written back after it, by a sampler or by the collector |
| SingBoxAccounting.PauseStaysExactly | internal/service/singbox.go:757-831 | the pause mark that a collector write leaves stays if and only if no later whole-row write resumes the node or brings back a row without the mark, read before |
| SingBoxAccounting.WriteIsPast | internal/store/singbox.go:131-150 | a whole-row write brings back the top-up of the moment its row was read, and, unless it is the collector's or resumes, the pause mark too |
| SingBoxAccounting.SnapshotIsPast | internal/service/singbox.go:803-831 | a row not yet written back is the row as it was when its writer last read it |
| SingBoxAccounting.AscendingReadingsAreExact | internal/store/singbox.go:275-297 | readings folded one after another count exactly what the counter grew if and only if none is older than the one before, and never less |
| SingBoxAccounting.FoldsCountKnown | internal/store/singbox.go:275-297 | in any order and with any restarts the usage grows by all that the readings show to have passed: the last reading before each drop and the latest |
| SingBoxAccounting.RolledPeriodStartsAtReading | internal/store/singbox.go:262-273 | a period rolled from a row read earlier counts every byte since that row's reading once, if and only if later readings ascend |
| SingBoxAccounting.SingBoxStore.RecordSingBoxTraffic | internal/store/singbox.go:275-297 | column by column: each direction grows by what its counter did, by all of it after a restart; paused if it was or the quota, top-up included, is used up; nothing else changes |
| SingBoxAccounting.SingBoxStore.AddSingBoxTopUp | internal/store/singbox.go:207-216 | adds a positive number of bytes to the one column, whatever the row is now; anything else is refused |
| SingBoxAccounting.SingBoxStore.RollSingBoxPeriod | internal/store/singbox.go:262-273 | writes back the caller's whole row with a period that contains now and starts a whole number of periods after its old end, keeping its raw readings; an unknown row is an error |
| RouteAccounting.NeverOvercounts | internal/store/traffic.go:28-88 | over every run of traffic, kernel restarts, readings and forgotten baselines the total never exceeds what passed |
| RouteAccounting.StretchIsExact | internal/store/traffic.go:28-88 | between two readings without restart or reset the total grows by exactly what passed |
| RouteAccounting.ReadingsCount | internal/store/traffic.go:28-88 | from one reading on, until the baseline is forgotten, the total grows by all that the readings show to have passed, restarts included |
| RouteAccounting.ColumnKeepsCounter | internal/store/traffic.go:28-88 | an unsigned counter survives the signed column |
| RouteAccounting.PeriodSumIsExact | internal/store/traffic.go:186-197 | summing the buckets with day strings not before a day gives exactly the bytes that readings of the entry hop added from that day on |
| RouteAccounting.DailyBucketsSumToTotal | internal/store/traffic.go:28-77 | all buckets of a route together are its entry hop's running total |
| RouteAccounting.HopBytesAreEntryBytes | internal/store/traffic.go:28-77 | the entry hop's total is the sum of what its own readings added |
| RouteAccounting.TrafficStore.RecordTraffic | internal/store/traffic.go:28-77 | one transaction writes hop row and bucket as the run-level function does |
| RouteAccounting.RecordOutcome | internal/store/traffic.go:28-88 | column by column: each direction of the hop grows by what its own counter did, the entry hop's day by as much, and everything else stays |
| RouteAccounting.TrafficStore.ResetTrafficBaseline | internal/store/traffic.go:93-100 | the route's next readings add nothing, while all totals, all buckets and every other route's baselines stay |
| RouteCollection.CollectTraffic | internal/service/traffic.go:26-92 | a round records, in order and until cancelled, exactly the samples of counters whose hop the index knows, each an entry sample exactly at its route's lowest hop |
| RouteCollection.CollectedIsRead | internal/service/traffic.go:58-91 | the samples of a round are exactly the readings of counters reported under a known slug and machine, each with its own bytes under its route's last hop there, but for those whose write fails |
| RouteCollection.LookupIsLastHop | internal/service/traffic.go:42-56 | the index knows of a slug and a machine exactly the last hop there of the route with that slug |
| RouteCollection.CounterFindsItsHop | internal/service/traffic.go:42-56 | a counter is attributed to the hop it was counted at if and only if the route does not come back to that machine further on |
| RouteCollection.FoundIsHop | internal/service/traffic.go:42-56 | whatever the index yields for a slug and a machine is a hop of a route with that slug on that machine |
| RouteCollection.EntryIsLeast | internal/service/traffic.go:95-103 | the entry order is the order of some hop, and no hop has a lower one |
| RouteCollection.RoundsFixEntry | internal/service/traffic.go:44-56 | over any rounds a route's readings are entry readings exactly at its lowest hop |
| RouteCollection.RoundContinues | internal/service/traffic.go:58-91 | recording such samples, as a round does, continues any history of rounds |
| RouteCollection.RoundsSumToEntryTotal | internal/service/traffic.go:26-103 | after any rounds and forgotten baselines a route's buckets together are its lowest hop's running total |
| LifetimeTotals.LifetimeSaturates | internal/store/subscriptions.go:159-192 | the lifetime total is all that the readings of all members show to have passed, for each counter its last reading before each drop and its latest, cut off at the largest 64-bit integer |
| LifetimeTotals.LifetimeIsLatest | internal/store/subscriptions.go:159-192 | while no counter reads lower than before that is the sum of all members' latest readings, in and out, so cut off |
| LifetimeTotals.LifetimeNeverOvercounts | internal/store/subscriptions.go:159-192 | whatever restarts and whatever goes unread, the total never exceeds what really passed, and equals it, so cut off, once every counter was read and lost nothing |
| Readings.KnownOrLost | internal/store/subscriptions.go:171-178 | what really passed is what the readings show, what the next one will, and the bytes unread at a restart or hidden behind one |
| Readings.NoRestartLosesNothing | internal/store/subscriptions.go:171-178 | a counter that never restarts never reads lower and loses nothing |
| LifetimeTotals.SubscriptionMeters.RecordSubscriptionCounters | internal/store/subscriptions.go:159-192 | refuses negative counters, and adds without ever leaving 64 bits, as the run-level function does |
| Calendar.DayStringsAreOrdered | internal/store/traffic.go:186-197 | day strings compare in the database as days do in the calendar |
| Calendar.DayStringShows | internal/service/traffic.go:158-171 | a day string shows year, month and day in this order, separated by dashes |
| Calendar.PeriodStartIsLatestReset | internal/service/traffic.go:158-171 | the period start is the latest reset day not after now, for every reset day and across year ends |
| Calendar.PeriodStartsOnResetDay | internal/service/traffic.go:158-171 | a period starts on the day of the month asked for; below 1 on the first, above 28 on the 28th |
| Calendar.PeriodsPartitionTime | internal/service/traffic.go:158-171 | the start is monotone, and two days share it if and only if no reset day lies after the first up to the second |
| QuotaEnforcement.PassStopsOverQuota | internal/service/traffic.go:194-275 | a pass leaves a listed, capped and measured route that nobody else changes enabled over its quota if and only if it was, and its usage could not be read or its flag not be written |
| QuotaEnforcement.StoppedStaysStopped | internal/service/traffic.go:194-284 | over every run of pass steps, stops, traffic and caps without a start's write, a route stopped without a mark, and beyond the reach of a pass under way, stays stopped and unmarked |
| QuotaEnforcement.StopLastsExactly | internal/service/traffic.go:194-284 | no later run of enforcement enables a route stopped without a mark if and only if no pass under way can still act on what it listed |
| QuotaEnforcement.StopKeepsPauseMark | internal/service/service.go:851-869 | a route stopped by hand is enabled again by the next clean pass if and only if it carried a mark and is under its cap |
| QuotaEnforcement.AloneEnforces | internal/service/traffic.go:194-284 | the steps of a pass that nothing comes between do to the route what a pass does to a row |
| QuotaEnforcement.PassResumesOnlyMarked | internal/service/traffic.go:279-284 | a pass enables a route only after listing it as marked and finding its usage under the listed cap, and after an earlier decision to pause it |
| QuotaEnforcement.ResumeFollowsPause | internal/service/traffic.go:252-275 | every pause mark follows a decision of a pass that had listed the route as enabled and found it over the listed cap |
| QuotaEnforcement.FailedStartRestores | internal/api/route_start.go:62-93 | a rollback that reads and later writes leaves the route enabled if and only if it was when the start began and no mark was there at the read; it leaves it enabled under a mark if and only if moreover one is there at the write |
| QuotaEnforcement.RollbackUndoesPause | internal/api/route_start.go:74-85 | one such run: a whole pass between the rollback's read and its write, which ends enabled, marked and over quota |
| QuotaEnforcement.EnablingUndoesPause | internal/api/route_start.go:55-60 | the same for a start that succeeds, with the pass between its second check and its write |
| QuotaEnforcement.EnabledUnderMark | internal/api/route_start.go:51-90 | an enabling write meets a mark only if a pass set it after the start last read the row, and found it unmarked |
| QuotaEnforcement.MarkSlipsIn | internal/service/traffic.go:252-275 | a mark that appears over a run was set by a pass that had decided to pause |
| QuotaEnforcement.StartKeepsPrior | internal/api/route_start.go:62-84 | a start keeps the flag it found when it first read the row, whatever comes between |
| QuotaEnforcement.UndoingKeepsDecision | internal/api/route_start.go:74-82 | a rollback writes what it decided at its read, whatever comes between |
| QuotaEnforcement.EnablingStartWasChecked | internal/api/route_start.go:29-60 | a start writes the flag only after reading the row twice, before and after deploying, each time unmarked and without a cap or with a positive one not reached by a usage that could be read next |
| QuotaEnforcement.RouteStore.EnforceQuotas | internal/service/traffic.go:194-244 | a pass judges every route by its flags and cap as listed when the pass began and its usage at its turn, with other writers in between; near-limit and failure are reported if and only if some route is near or failed; an undisturbed route over its quota stays enabled exactly if a read or the flag write failed |
| QuotaEnforcement.RouteStore.EnforceOne | internal/service/traffic.go:194-284 | column by column: a listed enabled route whose usage at the turn reaches the listed cap is disabled and marked, a listed marked one below it enabled and unmarked, flag before mark, any other left alone; it errs exactly if an access it needs fails, and is near the limit from nine tenths on |
| QuotaEnforcement.TurnOutcome | internal/service/traffic.go:194-284 | the same of the function the runs are about |
| RouteStart.Panel.StartRoute | internal/api/route_start.go:29-93 | with the row changed by others before every read and write: refused exactly if the row is marked, or its cap not positive or reached, or the usage unreadable; the flag is written only after every hop was confirmed and the same holds of none of the rows read again; a refused start changes nothing, and each failure leaves the row as stated |
| RouteStart.Panel.Deploy | internal/api/route_start.go:37-48 | succeeds only with every hop settled, and fails only if the outcome of some hop was a failure |
| RouteStart.Panel.EnableStarted | internal/api/route_start.go:62-93 | a failed or cancelled enabling is rolled back to the flag found, or to disabled if a mark is there at the rollback's read; it leaves the route enabled under a mark if and only if the mark came between the rollback's read and its write |
| PortAllocation.Allocate | internal/planner/planner.go:90-147 | succeeds if and only if some assignment of ports to all hops exists, returns one with the lowest ports, and otherwise names the first hop no assignment reaches and why |
| PortAllocation.WorksIsAssignment | internal/planner/planner.go:90-147 | an assignment is one port per hop, in the pool of a probed node that passes what the route carries, in nobody's use and no other hop's there, with the requested port at the entry |
| PortAllocation.AnswersAreWorks | internal/planner/planner.go:90-147 | so an allocation succeeds exactly if such a choice of ports exists |
| PortAllocation.FirstFree | internal/planner/planner.go:149-156 | the lowest port of the pool neither used nor reserved; none exactly if there is none |
| PortAllocation.FullPoolIsUnassignable | internal/planner/planner.go:90-156 | pigeonhole: if earlier hops hold every free port of a node, no other choice leaves one for the next hop there |
| PortAllocation.HeldCounts | internal/planner/planner.go:96-104 | an assignment holds as many ports on a node as it has hops there |
| RelayChain.ConnectionReachesTarget | internal/planner/planner.go:160-224 | with any other routes deployed, a connection to a route's entry travels exactly its nodes in order and dials exactly its target, if and only if the route is passable; otherwise it does not get through |
| RelayChain.TravelsFrom | internal/planner/planner.go:160-201 | the same from any hop on |
| RelayChain.ListenerIsOwner | internal/store/store.go:113-114 | whatever listens on a hop's node and port, in either family, is that hop, and forwards to its remote |
| RelayChain.FileIsFirstVisit | internal/planner/planner.go:66-69 | after deploying any routes a file is the configuration of its route's first hop on that machine |
| RelayChain.JoinIsInjective | internal/planner/planner.go:177 | a joined address names one host and one port |
| RelayChain.OnlyTheEntryWidens | internal/planner/planner.go:203-224 | a hop excludes IPv4 if and only if it is the entry of a route asking for IPv6 on a node with an address of its own |
| RelayChain.AllocationKeepsOneOwner | internal/planner/planner.go:90-147 | adding a route with allocated ports keeps one owner per node and port over the whole fleet |
| RelayChain.Build | internal/planner/planner.go:160-201 | the plan of a route with known nodes is the configuration of each hop, letter by letter: the wildcard and port it listens on, the next hop's address or the target it forwards to; otherwise the first unknown node is named |
| RelayChain.ConfigSpelledOut | internal/planner/planner.go:160-224 | the same of the function the deployment is about |
| Applier.Deployer.Apply | internal/applier/applier.go:75-117 | every result splits at one hop: settled behind it, untouched and skipped before it; every restart came after everything behind it was settled; each outcome is what the hop's own machine and faults decide; a pass over settled machines touches nothing whatever fails |
| Applier.Deployer.ApplyHop | internal/applier/applier.go:125-186 | a hop ends settled or reported as failed, with the outcome its machine and faults decide; changed means restarted and confirmed on the planned files; nothing is restarted over other files |
| Applier.HopReportsFirstFailure | internal/applier/applier.go:125-186 | a hop reports the first of the commands it needs that fails, in the source's order, and what it was there to do if none does |
| Applier.HopOnRelay | internal/applier/applier.go:145-186 | the planned file is written if the hop gets there and the write is not refused; the process changes only by a restart, tried once all before it worked and there is reason for one, and then runs the file and build on disk |
| Applier.Deployer.ApplyConfig | internal/applier/applier.go:145-186 | which of the outcomes is reported, by what is on disk, what was replaced and what runs |
| Applier.Deployer.EnsureRealm | internal/applier/applier.go:192-227 | installs the pinned build, and reports a replacement exactly if another build was there |
| Applier.Deployer.EnsureUnit | internal/applier/applier.go:230-270 | exactly when it succeeds the definition is on disk and enabled; systemd is told exactly of a definition this call wrote |
| Applier.Deployer.RestartRelay | internal/applier/applier.go:281-305 | succeeds only if the relay is up on the file and build on disk a moment later |
| Applier.SuccessRunsPlan | internal/applier/applier.go:145-186 | after a full success a relay runs what was planned if and only if the pass did not find it stale: file and build as planned, process started with something else |
| Applier.DoneHopRunsPlan | internal/applier/applier.go:145-186 | the same for one hop reported as done |
| Applier.LeavesStale | internal/applier/applier.go:125-186 | a hop leaves a stale relay if and only if one runs that is not as planned, file and build come to match, and no restart takes effect |
| Applier.StaleStays | internal/applier/applier.go:153-172 | no number of later passes with the same plan, whatever fails in them, restarts a stale relay, and a faultless one reports it as unchanged |
| Applier.LostReplyLeavesStale | internal/applier/applier.go:179-186 | one way there: the new file was written but the reply got lost, and the next pass reports success |
| Applier.FailedUpgradeLeavesStale | internal/applier/applier.go:153-161 | another: a new build was uploaded and the restart into it failed |
| Applier.SuccessHasTold | internal/applier/applier.go:237-249 | after a full success systemd was told to reread the definition on disk if and only if the pass did not find one it was not told of |
| Applier.LeavesUntold | internal/applier/applier.go:237-249 | a hop leaves a definition systemd was not told of if and only if it found one, or wrote one and did not reach the reload or could not do it |
| Applier.UntoldStays | internal/applier/applier.go:237-249 | no number of later passes, whatever their plans and faults, makes up for the reload |
| Applier.FailedReloadIsNotRepeated | internal/applier/applier.go:237-249 | the way there: the reload fails, and the next faultless pass succeeds without it |
| RelayHosts.OthersMakeStale | internal/applier/applier.go:192-227 | an event that is not of a route makes its relay stale if and only if it replaces another build by the planned one while the relay runs on the planned file and something else than the plan |
| RelayHosts.StaleExactly | internal/applier/applier.go:125-186 | over any run of passes of any routes on a machine, installations and removals of other routes, with one build in view, a relay is stale if and only if it was at the start, or some other event upgraded the build under it, or its own pass failed under it |
| RelayHosts.UpgradeReachesOneRoute | internal/applier/applier.go:153-161 | one such run without faults: a pass of one route upgrades the build, a pass of the other reports its stale relay as unchanged |
| RelayHosts.DeployIsOneHop | internal/applier/applier.go:125-186 | on a machine with several routes a pass does to its own route what one hop does |
| RelayHosts.UntoldExactly | internal/applier/applier.go:374-378 | with the definition on disk systemd is not told of it if and only if it was not at the start and no removal has reloaded since |
| Applier.FaultlessPassSettles | internal/applier/applier.go:75-117 | a pass without faults over supported machines leaves every hop settled |
| Applier.HopDone | internal/applier/applier.go:75-117 | dealing with one more hop keeps the pass's promises about all hops behind it |
| RelayReading.ReadInvertsRender | internal/planner/planner.go:226-257 | a reader of the format finds in the text exactly TCP, UDP if wanted, the family, and one endpoint that listens and forwards as planned; if and only if some character has no spelling in the format it finds nothing |
| RelayReading.UnquotedEscaped | internal/planner/planner.go:236-255 | a quoted field is read back as it was, if all its characters have a spelling in the format, and not at all otherwise |
| RelayConfig.RenderIsInjective | internal/planner/planner.go:226-257 | two configurations with the same text are the same, so comparing texts compares configurations; slugs are single lines, all other fields arbitrary |
| RelayConfig.EscapedIsInjective | internal/planner/planner.go:236-255 | a quoted field names one value, whatever characters it contains and whichever the library prints as themselves |
| RelayConfig.FirstOfEscaped | internal/planner/planner.go:236-255 | an escaped text can be read back one character at a time |
| Delivery.RoutesThatAreUpDeliver | internal/planner/planner.go:160-257 | with every route's relays running their plans, what the relays read in their texts alone carries each connection through its route's nodes in order to exactly its target, if and only if no later hop is dialled as an IPv6 literal |
| Delivery.FleetCanBeUp | internal/planner/planner.go:160-257 | any deployable fleet can be as the claim above asks if and only if no route visits a machine twice and all its texts can be read, and one relay for each deployed file makes it so |
| Delivery.UpFleetDelivers | internal/planner/planner.go:160-257 | on a fleet brought up that way every connection is delivered along its route, if and only if no later hop is dialled as an IPv6 literal |
| Delivery.TwoHopsDeliver | internal/planner/planner.go:160-257 | two nodes and a route of two hops meet all that is asked for, and connections go over both to the target if and only if the second is dialled over IPv4 |
| Delivery.FleetRunsItsPlans | internal/applier/applier.go:145-186 | the configurations that run are exactly those deploying all routes writes |
| Delivery.SuccessfulPassIsUp | internal/applier/applier.go:75-186 | a fully successful pass leaves the route running its plan if and only if it did not find a stale relay on any of its machines |
| Delivery.UpVisitsOnce | internal/model/model.go:369-374 | a route whose hops all run their plans visits no node twice |

## Left out

- SSH, shell, systemd and OpenRC, iptables, SQLite and HTTP themselves: commands, writes and reads are steps with faults.
- The panel's web pages and the Telegram texts: presentation only.
- Cryptography, tokens, rendering of subscriptions and sing-box configurations: foreign libraries and field copying.
- Regular expressions over logs, metrics and listener lists, and the live probing behind the ports in use: formats of foreign tools; the ports in use are an input.
- Creating and deleting whole subscription groups member by member (internal/service/subscriptions.go:82-167 and 295-350): the lock they hold is modelled, the loops over members are not.
- The list of members that CollectSubscriptionTraffic builds: its pool and each member's result (a measurement or a failure) are modelled.
- The single-slot gate for adoptions and the parsing of the shared service's state: a handover starts from the state found.
- Resetting a node's usage (internal/store/singbox.go:254-260): it breaks the constant the accounting keeps, so runs exclude it.
- SingBoxAccounting.TopUpIsKeptGrants: reducing a quota (internal/store/singbox.go:218-252) reads and writes the same columns and is not among the events.
- Applier.SuccessHasTold: says whether a reload command was run; whether systemd rereads definitions by itself when a service is enabled, as every pass has it do, is not modelled. Neither are relays that crash and come back between passes.
- RelayHosts.StaleExactly: passes of two routes over one machine at the same time; one pass after another is modelled.
- Editing the hops of a route while it is counted, and what connections do on machines whose relays are stale.
- Overflow of sums and period lengths in the database: totals other than the lifetime total are unbounded integers.
- The hash of a relay configuration: deployment compares the texts themselves (internal/applier/applier.go:153), although the comment at internal/applier/applier.go:4-6 speaks of hashes.
- RelayConfig.EscapedIsInjective: texts are sequences of characters; bytes that are not UTF-8 are not modelled, and which characters print as themselves is a parameter.
- Counter rules (internal/applier/accounting.go): they never fail a hop; a rebuild appears as a forgotten baseline.
- AuditTail.LogSource.ReadFile: follows files only; a journal's own cursor (internal/service/conn_audit.go:743-756) is parsed but not followed.
- AuditTail.RunConsumesExactly: a rotation in the middle of one script's commands; writes between them are modelled.
- AuditFraming.ParseInvertsPrint: journals are taken as printed after the cut to their last 5000 lines, and numbers as digits without a sign.
- AuditRing.Ring.Page: the query is compared with fields already in lower case.
- QuotaEnforcement.RouteStore.EnforceOne: the near-limit ratio is compared in integers, not in floating point.
- QuotaEnforcement.StoppedStaysStopped: an edit that writes the enabled flag from an older read (internal/store/routes.go:177-199) is not among the events; a change of the cap is.
- QuotaEnforcement.RouteStore.EnforceQuotas: other writers act between the turns of two routes; between the two writes of one turn they act only in the runs of steps.
- RouteCollection.CollectTraffic: the error that the round returns, the first of its failed reads and writes.
- PortAllocation.Allocate: nodes and ports in use are read once per allocation, as the caching lookup of internal/service/ports.go does for listeners.
- RelayChain.ConnectionReachesTarget: hosts are distinct between nodes, every route's files are the ones of its current plan, and a host name that is not an IPv6 literal is dialled over IPv4.
