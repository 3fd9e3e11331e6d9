# GrowthTrack: verified model

A Dafny model of the parts of GrowthTrack whose correctness depends on order, retries,
interleaving and accumulation, with proofs about every run of them.

The centre is the notification delivery protocol. A table of delivery rows is changed by four
kinds of committed step: a manual compose or a daily report (which insert rows and send to each),
the retry job's listing, one listed row's retry, and a provider callback. `DeliveryRuns` states
these steps as a state machine over committed transactions, `DeliverySafety` proves the invariant
of every run and `DeliveryTheorems` draws the results from it. `DeliveryOperations` is the same
protocol as code over updatable tables, each method proved to perform exactly its step.

| file | models |
|---|---|
| `Deliveries.dfy` | delivery rows, the retry budget, the status ranks, dispatch |
| `DeliveryRuns.dfy`, `DeliverySafety.dfy`, `DeliveryTheorems.dfy` | the protocol's steps, its invariant, its results |
| `DeliveryOperations.dfy`, `ContentVariables.dfy` | repositories, compose, callback, retry job and daily report as methods; positional variables |
| `DailyTicks.dfy` | daily-report ticks of several schedulers, interleaved statement by statement |
| `Administrators.dfy` | concurrent removals and bootstraps under advisory locks |
| `Directory.dfy`, `Recipients.dfy` | users, teams, lists, consents, versions; recipient resolution; the services as a class |
| `Saves.dfy` | concurrent version-checked saves, interleaved statement by statement |
| `Lockout.dfy` | login lockout and its rate bound |
| `Import.dfy` | the nightly import |
| `Memlog.dfy`, `ConfigMerge.dfy`, `Brands.dfy` | the memory log, the layered configuration merge, brand classification |
| `Strings.dfy`, `Prelude.dfy` | white space and line boundaries; options, results |

What the environment is taken to guarantee is written as `DeliveryRuns.Enabled`: the provider never
hands out a message id twice, UUIDs are fresh, a retry is stamped no earlier than the listing it
works from. One row's claim, send and record commit as one step and a callback is one atomic step;
there is one retry scheduler. The retry limit and the three backoff windows are constants of a run
and otherwise arbitrary. A callback may name any id at any time, also one whose row has not been
committed yet; such a callback is superseded.

## Model

| member | source | states |
|---|---|---|
| Deliveries.DispatchIsPointwise | domain/notifications.py:188-279 | for distinct claimable rows agreeing with the store: one outcome per row in input order, equal to the stored status; each count up by one; one provider call per reachable row, in order; each outcome a function of that row's own recipient and answer |
| Deliveries.DispatchRowMeaning | domain/notifications.py:235-277 | a claimable row is asked for exactly once, with its recipient's number, the template and the recipient's variables, or not at all when either is missing; status, SID, reason, count and stamp are what the answer calls for; a row that is not claimable is left alone |
| Deliveries.DispatchMeaning | domain/notifications.py:235-277 | the same for every row of a dispatch, with one outcome each, and no request for any other delivery |
| Deliveries.DispatchFrame | domain/notifications.py:235-238 | a row not handed to dispatch is untouched, whatever happens to the others |
| DeliverySafety.DispatchRowKeeps | domain/notifications.py:206-277 | claiming, sending and recording one row keeps the row, SID, call-count and callback invariants |
| DeliverySafety.CreateKeeps | adapters/persistence/notifications.py:267-300 | inserting a Notification's rows under the two partial unique indexes and dispatching them, or being rolled back, keeps the protocol invariant |
| DeliverySafety.RetryKeeps | scheduler/main.py:224-287 | one listed row's turn, committed or rolled back, keeps the protocol invariant |
| DeliverySafety.CallbackKeeps | domain/notifications.py:576-599 | any callback, applied or not, keeps the protocol invariant |
| DeliverySafety.RunKeeps | domain/notifications.py:158-279 | the invariant holds after every run from a state that has it |
| DeliveryTheorems.CommittedStates | domain/notifications.py:158-169 | in every committed state status bounds the attempt count, in-flight and delivered rows have a SID, FAILED means the budget is spent, and provider calls and applied callbacks per row never exceed attempts, at most 1 + max |
| DeliveryTheorems.AppliedCounts | domain/notifications.py:598-599 | each applied callback counts once, for its own delivery |
| DeliveryTheorems.CommittedTables | alembic/versions/c4a8f21e6b3d_notifications_and_message_templates.py:80-96 | in every committed state both partial unique indexes hold (one scheduled row per recipient and day, one manual row per recipient and Notification), every delivery has its Notification and every Notification a delivery, and every provider call passed the variables stored on its row |
| DeliveryTheorems.CreateMeaning | domain/notifications.py:492-535 | creating rows adds all of them, each as its one attempt leaves it and with its one request, or none when an index refuses one |
| DeliveryTheorems.StepSpendsBudget | domain/notifications.py:549-599 | a step leaves a row alone or strictly lowers the measure 2 * attempts left (+1 while SENDING); terminal rows are never touched |
| DeliveryTheorems.RowsSettle | domain/notifications.py:549-561 | over any run DELIVERED and FAILED are absorbing and a row changes at most as often as its measure says |
| DeliveryTheorems.SnapshotStaysSound | scheduler/main.py:223-287 | however composes, callbacks and other rows' retries interleave after the listing, a row whose turn has not come is stored exactly as listed |
| DeliveryTheorems.RetryStatusAgrees | domain/notifications.py:215-216 | hence the status a failed retry computes from the listed count, whether the provider refused it or a related record is missing, is the one the stored, incremented count calls for |
| DeliveryTheorems.RetryMeaning | scheduler/main.py:224-287 | a committed turn makes one request, for the number and with the template looked up and the variables stored on the row, or none when a record is missing, and stores on that row alone what the answer calls for |
| DeliveryTheorems.SidsIdentifyRows | adapters/persistence/notifications.py:336-355 | no two rows ever share a SID: the ambiguous-lookup branch is unreachable |
| DeliveryTheorems.AppliedIffSending | domain/notifications.py:579-599 | a callback is applied if and only if some row is still SENDING under the SID it names |
| DeliveryTheorems.CallbackSettles | domain/notifications.py:587-599 | in every run a callback settles the row in flight under its SID: DELIVERED after a delivery, after a failure FAILED_RETRYABLE while attempts remain and else FAILED, with the callback's reason and stamp, and touches nothing else |
| DeliveryTheorems.CallbackMeaning | domain/notifications.py:576-599 | for any table: a callback for the one row carrying its SID settles it when it is QUEUED or SENDING and is otherwise rejected |
| DeliveryTheorems.CallbackSuperseded | domain/notifications.py:579-585 | a callback whose SID no row or several carry changes nothing |
| DeliveryTheorems.AppliedAtMostOnce | domain/notifications.py:576-599 | after a callback for a SID was applied, no later callback for it is, whatever ran between |
| DeliveryTheorems.OverwrittenForGood | domain/notifications.py:579-585 | once no row carries a handed-out SID, every later callback naming it is superseded and changes nothing, after any further run |
| DeliveryTheorems.RetryOverwrites | adapters/persistence/notifications.py:316-334 | a retry takes the previous SID out of circulation |
| DeliveryTheorems.ListedOnceElapsed | adapters/persistence/notifications.py:367-387 | with max at most 3 a retryable row has exactly one window and is listed iff that window has elapsed |
| DeliveryTheorems.RetryNeverRushed | adapters/persistence/notifications.py:367-387 | an attempt count only rises out of FAILED_RETRYABLE, by one, stamped at least the window after the recorded failure |
| DeliveryTheorems.StrandedIffOverThree | config.py:67-81 | no run ever strands a retryable row if and only if max is at most 3 (for larger max a stranding run is built) |
| DeliveryOperations.ManualCreationInserts | domain/notifications.py:492-511 | rows composed for distinct recipients are well formed and can never violate a unique index |
| DeliveryOperations.ManualMeaning | domain/notifications.py:485-535 | composing gives each recipient one row and one request to the user's number with the template's content SID and the composed variables |
| DeliveryOperations.ValidValuesMeaning | domain/notifications.py:426-429 | values are valid exactly when named as the slots are and none is blank |
| DeliveryOperations.TargetsMeaning | domain/notifications.py:443-469 | targets are the raw selections, typed, in order |
| DeliveryOperations.DailyMeaning | domain/scheduled_notifications.py:160-258 | a report is refused whole exactly when a recipient already has a row of the day; otherwise each gets one row and, if still found, one request to the user's number with the company figures and the doctor section of the user's own team |
| DeliveryOperations.DailyAddressees | domain/scheduled_notifications.py:117-127 | a report addresses exactly the listed active users with a number and an unrevoked consent, once each |
| DeliveryOperations.TurnMeaning | scheduler/main.py:224-272 | a turn of the job looks up the row's own Notification's template and the recipient's current number |
| DeliveryOperations.DailyCreationWellFormed | domain/scheduled_notifications.py:160-222 | the daily report's rows are well formed; a recipient has content variables iff it was re-fetched, so the missing-key path is never taken for a known recipient |
| DeliveryOperations.BuildDailyVariables | domain/scheduled_notifications.py:171-204 | with the per-territory cache every re-fetched recipient gets its own territory's variables, and each distinct territory's section is asked for exactly once |
| DeliveryOperations.DeliveryService.BulkCreate | adapters/persistence/notifications.py:267-300 | inserts all rows exactly when no primary key or unique index is violated, otherwise restores the last commit |
| DeliveryOperations.DeliveryService.DispatchOne | domain/notifications.py:235-277 | one claim, send and record: the one request, the stored fields and the outcome the answer calls for; an unclaimable row is skipped |
| DeliveryOperations.DeliveryService.DispatchDeliveries | domain/notifications.py:188-279 | the loop performs the dispatch specification, and for rows agreeing with the store leaves each row, outcome and request as its attempt calls for |
| DeliveryOperations.DeliveryService.GetByProviderMessageSid | adapters/persistence/notifications.py:336-355 | the only row carrying the SID, none if there is none or several |
| DeliveryOperations.DeliveryService.ApplyStatusUpdate | domain/notifications.py:576-599 | performs the callback step; result and stored row by the outcome, the attempts left and whether the one row with the SID is settled |
| DeliveryOperations.DeliveryService.ListRetryEligible | adapters/persistence/notifications.py:367-387 | lists each eligible row exactly once and nothing else |
| DeliveryOperations.DeliveryService.RunRetryFailedDeliveries | scheduler/main.py:211-292 | the job, with composes, daily reports and callbacks committing between the turns, users changing and turns rolling back, is the run of listing, those steps and the turns |
| DeliveryOperations.DeliveryService.ComposeAndSend | domain/notifications.py:412-537 | exact error conditions with nothing changed; otherwise every addressee gets one row and one request to the user's number with the template, outcomes equal what is stored, and targets and the notification.sent entry are recorded |
| DeliveryOperations.DeliveryService.RunDailyReport | domain/scheduled_notifications.py:107-277 | succeeds exactly when due, unlocked, addressed to somebody and provisioned; then every addressee gets its row and its request; a skipped tick changes nothing and calls nobody |
| ContentVariables.StrRoundTrip | domain/notifications.py:487-490 | decimal keys determine their position |
| ContentVariables.StrDigits | domain/notifications.py:487-490 | keys are plain decimal numbers |
| ContentVariables.PositionalEntries | domain/notifications.py:485-490 | the keys are exactly "1".."n", each holding its slot's value |
| ContentVariables.PositionalRoundTrip | domain/notifications.py:425-428 | when the names given are exactly the slots, the named values are recoverable from the positional ones |
| DailyTicks.OneReportEach | domain/scheduled_notifications.py:113-153 | under every interleaving of ticks each recipient gets at most one scheduled row and one first provider call per day, and every committed Notification has a row |
| DailyTicks.SendMeaning | domain/notifications.py:235-250 | a send asks for the tick's next recipient if found, and for nobody otherwise |
| DailyTicks.CheckedTooLate | scheduler/main.py:114-136 | a tick that checks after a report of the day was committed never reports |
| DailyTicks.RejectedTicksLeaveNothing | domain/scheduled_notifications.py:223-239 | a tick turned away by check, lock or index made no call and left no Notification and no row; a committed one left both |
| DailyTicks.InsertNeverBlocks | adapters/persistence/notifications.py:249-256 | the try-lock makes the insert the only uncommitted one |
| DailyTicks.CommitsIffUnscheduled | domain/scheduled_notifications.py:223-239 | a tick holding the lock can commit its report if and only if none of its recipients has a row of that day; another report of the day does not stop it |
| DailyTicks.TwoReportsIffDisjoint | domain/scheduled_notifications.py:113-119 | some interleaving lets two ticks both report on one day to given recipients if and only if the two share none |
| Administrators.AlwaysAnAdministrator | domain/administrators.py:26-42 | under every interleaving of removals (also of one target, read before any lock) and bootstraps, an active Administrator remains if there was one, and at most one bootstrap commits |
| Administrators.NoBootstrapAfterFirst | domain/bootstrap.py:38-70 | once any Administrator row exists, active or not, no bootstrap commits |
| Administrators.RemovalAlone | domain/recipients.py:264-287 | a removal finding the lock free deactivates its target alone, unless that is the only active Administrator |
| Administrators.BootstrapAlone | domain/bootstrap.py:38-70 | a bootstrap finding its lock free inserts an active Administrator exactly when there is no Administrator row |
| Lockout.LockStateKept | domain/auth.py:58-115 | in every state: unlocked with fewer failures than the threshold, or locked with exactly the threshold |
| Lockout.ReplyMeaning | domain/auth.py:58-107 | logged in if and only if active, Administrator, right password and no running lock; told of the lock if and only if active, Administrator and locked |
| Lockout.AttemptMeaning | domain/auth.py:58-115 | what an attempt stores, case by case: nothing while locked, zero and no lock on success, one more failure and the lock from the threshold on |
| Lockout.ResetMeaning | domain/password_reset.py:88-107 | a completed reset clears an active Administrator's count and lock and nothing else |
| Lockout.RateBound | domain/auth.py:58-104 | without a success, at most threshold * (L / duration + 1) wrong passwords are counted in an interval of length L |
| Lockout.RateBoundAttained | domain/auth.py:72-93 | for every policy and length some run reaches the bound exactly |
| Lockout.AuthenticationService.Authenticate | domain/auth.py:51-115 | who gets in and who is told of a lock, by the stored fields; success clears count and lock; the lock is audited exactly when it is set; the account follows the lockout step |
| Directory.RunKeeps | domain/recipients.py:205-262 | over every run each user has at most one active consent, recorded for the number the user has now, and active users have distinct numbers |
| Directory.ConsentHistory | adapters/persistence/consent.py:71-94 | consents are only appended or revoked; a revoked one never changes |
| Directory.AuditBalances | domain/recipients.py:524-575 | per user, grants minus both kinds of revocation in the audit log is 1 with an active consent and 0 without, after every run |
| Directory.UpdateUserMeaning | domain/recipients.py:205-262 | each reply's exact condition; a save stores the requested name, number and team on that user alone and revokes the active consents if and only if the number changes |
| Directory.CreateUserMeaning | domain/recipients.py:155-203 | each reply's exact condition and the stored user |
| Directory.RemoveUserMeaning | domain/recipients.py:264-287 | refused exactly for the only active Administrator; otherwise that user alone becomes inactive |
| Directory.RenameMeaning | domain/recipients.py:320-346 | each reply's exact condition; refused while doctors refer to the name unless only case or surrounding white space changes |
| Directory.RenameStores | adapters/persistence/teams.py:107-114 | an accepted rename stores the stripped name under the next version |
| Directory.TeamMeaning | domain/recipients.py:297-318 | creating and removing a team: replies and stored team |
| Directory.SaveListMeaning | domain/recipients.py:445-472 | each reply's exact condition, the first unfit member deciding, and the stored list |
| Directory.ListMeaning | domain/recipients.py:412-443 | creating and removing a list: replies and stored list |
| Directory.ConsentMeaning | domain/recipients.py:524-575 | each reply's exact condition and the stored consents |
| Directory.SavesSeeWhatWasRead | adapters/persistence/users.py:180-189 | a save quoting the version its author read is accepted only if the user, team or list is still exactly as read |
| Directory.OneSavePerVersion | domain/recipients.py:221-236 | of two serialized saves of one user, team or list quoting the same version the second gets a version conflict, whatever ran between |
| Saves.ConcurrentSaves | domain/recipients.py:221-237 | under every interleaving, of all saves of one record quoting one version at most one commits, and what it overwrote is exactly what it had read, so whether the number changed was judged rightly |
| Saves.SecondGuard | adapters/persistence/users.py:180-189 | a save past the early check is accepted by the conditional UPDATE if and only if the record is still what it read, and is a version conflict otherwise |
| Saves.SecondGuardFires | domain/recipients.py:231-235 | two saves can both pass the early check; committing the first turns the second away |
| Saves.SaveStores | adapters/persistence/users.py:180-189 | a committed save stores the new value under the next version on that record alone; an aborted one stores nothing |
| Directory.TerritoriesStayMapped | domain/recipients.py:335-346 | over every run a team whose territory doctors refer to keeps that territory |
| Directory.DedupeOrder | domain/notifications.py:128 | deduplication keeps the order of first occurrence |
| Directory.SavedMembers | domain/recipients.py:394-410 | a saved list has exactly the requested members, once each, all active with a number |
| Recipients.ResolutionMeaning | domain/notifications.py:104-155 | selected = overlap + ineligible + unique; the ids are exactly the selected, active, addressable, consented users, once each, in order of first selection |
| Recipients.WhoReceives | domain/notifications.py:104-155 | the ids are exactly the users some selected user id, active team or active list names and that are active with a number and an unrevoked consent; selected counts every entry, overlap the repeats, ineligible the named users left out |
| Recipients.ExpansionOrder | domain/notifications.py:110-126 | entries come in the order users, team members, list members, each in its own order |
| Recipients.ResolvedAreConsented | domain/notifications.py:131-147 | after any run of directory operations every resolved id has an active consent for the number that will be dialled |
| Recipients.InactiveSelectionsIgnored | domain/notifications.py:111-125 | archived or unknown teams and lists change nothing, wherever they stand in the selection |
| Recipients.ActiveSelections | domain/notifications.py:111-125 | the active part of a selection is exactly its known, active teams and lists |
| Recipients.DirectoryService.Resolve | domain/notifications.py:104-155 | the loops compute the resolution; ids and counts by what the selection names and who may receive |
| Recipients.DirectoryService.UpdateUser | domain/recipients.py:205-262 | every error condition with nothing changed, otherwise the requested fields stored, auto-revocation and audit entries |
| Recipients.DirectoryService.RevokeActive | adapters/persistence/consent.py:87-94 | revokes exactly the user's active consents and says whether there was one |
| Recipients.DirectoryService.RemoveUser | domain/recipients.py:264-287 | deactivates unless that would leave no active Administrator |
| Recipients.DirectoryService.UpdateTeam | domain/recipients.py:320-362 | every error condition with nothing changed, otherwise the renamed team and its audit entry |
| Recipients.DirectoryService.UpdateRecipientList | domain/recipients.py:445-488 | every error condition with nothing changed, otherwise the saved list with its name, kind and members, and its audit entry |
| Recipients.DirectoryService.GrantConsent | domain/recipients.py:524-545 | appends one consent for the current number, or one of three errors |
| Recipients.DirectoryService.RevokeConsent | domain/recipients.py:547-575 | revokes the active consent, or one of three errors |
| Import.ValidatedConverts | domain/ingestion.py:82-172 | a row its validator accepts never makes the transformation raise |
| Import.ValidatorMeaning | domain/ingestion.py:82-172 | the validator accepts a row exactly when each field, as fetched, is what the kind of row asks for |
| Import.ImportedFigures | domain/ingestion.py:312-359 | a successful import leaves for each date and team, brand and doctor the figures its last valid row spells, and everything else as before |
| Import.BatchUpsertIsSingly | adapters/persistence/sales_data.py:43-73 | keep-last deduplication and conflict update equal upserting the rows one by one |
| Import.BatchIsOneByOne | domain/ingestion.py:312-359 | importing a validated batch with the team cache leaves the tables that importing its rows singly, each looking its team up afresh, would |
| Import.ImportTwice | domain/ingestion.py:300-303 | importing the same batch twice equals importing it once |
| Import.ImportService.TransformSalesRows | domain/ingestion.py:320-334 | the loop with its cache performs the transformation and creates exactly the missing teams |
| Import.ImportService.Validate | domain/ingestion.py:259-295 | keeps the valid rows in order and counts every other one as rejected |
| Import.ImportService.MarkFailed | adapters/persistence/import_runs.py:85-117 | undoes everything uncommitted and commits only the failure record |
| Import.ImportService.Run | domain/ingestion.py:201-242 | success accounts for every fetched row and leaves the figures the last valid rows spell; a failure or a crash leaves the data as it was, a failure recording only itself |
| Import.ImportService.RunNights | domain/ingestion.py:201-226 | over any number of runs no committed run record is ever RUNNING |
| Memlog.SplitRendered | _bmad/scripts/memlog.py:90-113 | a rendered file splits back into its body, even with arbitrary values and with colons in keys |
| Memlog.RenderRoundTrip | _bmad/scripts/memlog.py:90-113 | for every text split accepts, rendering and splitting again gives the same fields in order and the same body up to trailing newlines |
| Memlog.RunsOnlyAppend | _bmad/scripts/memlog.py:145-187 | over any run of one init, appends and sets whose labels and field keys have no line boundary, every command succeeds, the body's lines are exactly the entries appended in order and entry_count is the number of appends |
| Memlog.FilesGrow | _bmad/scripts/memlog.py:164-177 | over any further such run the file's body keeps the lines it had, in place, and entry_count rises by the number of appends |
| Memlog.AppendAddsOneLine | _bmad/scripts/memlog.py:167-173 | an append adds exactly one line if and only if its label has no line boundary |
| Memlog.AppendMeaning | _bmad/scripts/memlog.py:164-177 | read back, an appended log has every field as it was, the stamp moved last, and one line more |
| Memlog.SetCommandMeaning | _bmad/scripts/memlog.py:180-187 | read back, a set log has the field replaced in place or added, the stamp moved last, and its body |
| Memlog.EntryMeaning | _bmad/scripts/memlog.py:167-172 | the written line: tag in parentheses, then the words |
| Memlog.CountMeaning | _bmad/scripts/memlog.py:132-133 | entry_count counts exactly the lines that start with "- " |
| Memlog.WordsMeaning | _bmad/scripts/memlog.py:167 | white space separates words and nothing else does |
| Memlog.RenderedLines | _bmad/scripts/memlog.py:110-113 | the rendered file line by line |
| Memlog.SplitRefuses | _bmad/scripts/memlog.py:96-101 | exactly which texts are refused, and how |
| Memlog.InitMeaning | _bmad/scripts/memlog.py:152-158 | init takes each field at its first "=" and refuses one without |
| Memlog.MemlogFile.ReadFile | _bmad/scripts/memlog.py:90-107 | the loop fills the fields and finds the body that split specifies, with its two errors |
| Memlog.MemlogFile.CmdInit | _bmad/scripts/memlog.py:145-161 | creates the file once, from well-formed fields only |
| Memlog.MemlogFile.Run | _bmad/scripts/memlog.py:164-187 | append and set write the edited file and acknowledge its entry count; an unreadable file is left alone |
| ConfigMerge.KeyedMergeMeaning | _bmad/scripts/resolve_config.py:82-102 | for distinct base keys the result's keys are distinct, base order then first appearance, each with the last item that carries it |
| ConfigMerge.DistinctIffBaseDistinct | _bmad/scripts/resolve_config.py:85-90 | the merged keys are distinct exactly when the base's are |
| ConfigMerge.BaseItems | _bmad/scripts/resolve_config.py:82-102 | for any base keys, a base item is replaced, by the last override with its key, exactly when it is the last base item with it |
| ConfigMerge.ArraysMeaning | _bmad/scripts/resolve_config.py:73-111 | arrays merge by "code" when all items have it, else by "id", else are appended |
| ConfigMerge.MergeMeaning | _bmad/scripts/resolve_config.py:114-125 | tables merge entry by entry; unlike kinds replace |
| ConfigMerge.MergedLookup | _bmad/scripts/resolve_config.py:114-136 | what any path holds in the merge of any two values: the override's value merged with the base's, or the base's unless the override blocks the path |
| ConfigMerge.HighestLayerWins | _bmad/scripts/resolve_config.py:161-163 | for any layers a path is missing if and only if no layer defines it or a higher one hides it, and the highest layer's scalar wins if and only if it is not hidden |
| ConfigMerge.FourLayers | _bmad/scripts/resolve_config.py:156-170 | the same for any four layers and a dotted key |
| ConfigMerge.AgreeingLayersHideNothing | _bmad/scripts/resolve_config.py:114-125 | layers that agree on which paths are tables hide nothing that any of them defines |
| ConfigMerge.MergeByKey | _bmad/scripts/resolve_config.py:82-102 | the two loops compute the keyed merge, non-table items included |
| ConfigMerge.DeepMerge | _bmad/scripts/resolve_config.py:114-125 | the recursive loop computes the merge |
| ConfigMerge.ExtractKey | _bmad/scripts/resolve_config.py:128-136 | walks the dotted path, missing as soon as a step is |
| ConfigMerge.PartsMeaning | _bmad/scripts/resolve_config.py:129 | a dotted key's parts are the pieces between its dots |
| ConfigMerge.GetMeaning | _bmad/scripts/resolve_config.py:128-136 | what is stored at a path is found there and nowhere off it |
| Brands.SortedMeaning | domain/metrics.py:201-211 | the sort permutes its input into key order and is stable |
| Brands.ClassificationChooses | domain/metrics.py:198-211 | each list is the exact best-k prefix, under its own key, of what the earlier lists left; focus among decliners only |
| Brands.ClassificationMeaning | domain/metrics.py:198-211 | by the rows' own fields: who is chosen for each list, in which order, and that nobody better or with room left is left out |
| Brands.BeforeMeaning | domain/metrics.py:201-210 | lowest rank, highest rank and lowest growth first, then by name |
| Brands.PrecedesMeaning | domain/metrics.py:201-210 | names compare by their first difference |
| Brands.ClassificationDisjoint | domain/metrics.py:198-211 | the lists share no brand id, every focus brand declines, and only negative sizes are rejected |
| Brands.OrderIndependent | domain/metrics.py:201-211 | with distinct (rank, name) pairs the result is the same for every order of the rows |
| Brands.OrderFreeIffDistinctKeys | domain/metrics.py:198-211 | for rows with distinct ids the result is the same for every order of the rows and all sizes if and only if no two rows share rank and name |

## Left out

- HTTP routes, pages, migrations, CSV reading, Twilio requests, signature checks, tokens and password hashing: the sender is an arbitrary answer per row, the hasher a boolean, parsing an arbitrary partial function.
- A crash or database error between a provider send and its commit: only committed dispatches are counted, and after such a crash a message may be sent again.
- Two retry schedulers at once, and two callbacks for one SID interleaved inside the status update: the code guards neither.
- Whether consent or activity still hold at retry time: the retry re-reads the recipient but does not resolve again.
- The report's start time: the due check uses the UTC date and the operational day the Dhaka date; only "not yet dispatched for the day" is modelled.
- Consent grants racing a number change and concurrent wrong passwords on one account: directory operations and login attempts are serialized.
- Administrators.AlwaysAnAdministrator: the concurrent removal and bootstrap steps, like those of DailyTicks and Saves, are modelled on values, as steps of a state machine, because interleaving is their point; the guard run alone is also a method (`Recipients.DirectoryService.EnsureCanDeactivate`).
- DeliveryOperations.DeliveryService.DispatchOne: the claim and the record of one row carry the same stamp; the claim's own stamp is overwritten before the commit. The reason text of a send attempted without content variables is a fixed string.
- DeliveryOperations.DeliveryService.RunDailyReport: the company-wide figures and doctor sections are inputs; the lookup of the template by name is a stored field.
- Directory.TerritoriesStayMapped: lower-casing covers the ASCII letters only, and doctors' territories are given already normalized.
- ConfigMerge.KeyedMergeMeaning: keys compare as values; Python's equality of 1, 1.0 and true as dictionary keys, and the TypeError for a key that is itself an array or table, are not modelled. The order of a table's keys is not represented.
- Brands.SortedMeaning: `sorted` is represented by a stable insertion sort; figures are exact reals, not decimals with 28 digits.
- Import.BatchIsOneByOne: tables map a key to its payload; the row ids given at insertion are not represented. Staging tables are represented by the columns they keep.
- Weighted company-wide averages, doctor ranking, template maintenance, theme preference, sessions and the dashboard status tile: each is a single pass or a single update without state shared with another operation. `_bmad/scripts/resolve_customization.py` repeats the merge code modelled in `ConfigMerge`.
- Creating and removing teams and recipient lists: operations of `Directory` on values, without a method of their own.
- Password reset tokens (their expiry and single use), the password update and its audit entry: of a completed reset only the cleared lockout is represented, as `Lockout`'s Reset event.
- DeliveryStatus.RETRYING appears only in the rank table, since no step produces it.
