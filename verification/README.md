# M-WAF verification model

A Dafny model of the parts of M-WAF that carry unbounded state: event delivery from Agent to Manager, incident
aggregation, atomic policy activation, package deployment markers, account and enrollment transactions, the policy
configuration algebra, the printer and parser pairs, keyset pagination and the rate limiters. `dafny verify
dfyconfig.toml` checks all of it.

How the pieces fit together:

- `Events`, `AuditLog`, `Delivery`, `Flush`: the Agent reads an append-only log from a checkpoint that may point inside
  a line, spools each batch, sends it, commits the checkpoint and removes the spool file. `Delivery` is the protocol as a
  transition system with lost requests, lost replies, duplicates and crashes between any two steps, against a Manager
  whose batch records and event rows can be pruned and whose table refuses a repeated event id; `Flush` is
  `flushAudit` as a class whose every run is a run of that system, whatever fails.
- `Incidents`: the dedup transaction with the unique event key, the classification of events and the upsert of
  incidents, as a class over tables and as a fold over histories.
- `Activation`: a file system with failing operations and a history of every intermediate tree.
- `PackageMarkers`, `PackageCycle`: the three persisted markers as a transition system, and one control cycle as a
  method whose runs are runs of that system.
- `LastAdmin`: row-lock steps of concurrent transactions. `Enrollment`: tokens, servers and enterprise termination.
- `RateLimit`: both limiters as classes, against limiters that remember everything.
- `Cursor`, `Pagination`: base64url cursors (section 5 of RFC 4648), the SQL query, the page cut, and browsing.
- `LockFormat`, `SourceLock`, `SourceLockTexts`; `Lines`, `GuidedLine`, `RuleIdText`, `GuidedRules`; `Grouping`, `CrsDirectives`, `CrsIndex`: the
  printer and parser pairs and the CRS index.
- `Policy`, `PolicyValidation`, `PolicyBuild`, `PolicyComposition`, `PolicyLayers`, `PolicyFields`, `PolicyLists`, `PolicyEdits`,
  `PolicyRuns`, `PolicyProjection`, `TemplateProjection`, `CustomRuleText`, `PolicyCases`, `UserRules`, `PolicyDigest`: building a
  configuration from template and settings, splitting it into base and override, editing it, projecting it back.
- `Prelude`, `Text`, `Sorting`, `RuleIds`: option and result types, Go string functions, stable sorting, least free
  rule ids.

Foreign or pattern-matching code is a parameter, so the theorems hold for every such function: the parser of an audit
line, the rule ids and chain flags of CRS rules, the digest, the order of setup keys. Where a theorem takes
functions with conditions, lemmas show that the ones in use meet them: `Incidents.SourceRules` are the rules of
incidents, `PolicyComposition.CoreMapFixed` the setup keys, `CrsDirectives.ConfIsSensible` the reading of lines, and
`CustomRuleText` (with `CleanKeepsNames` and `EmptyTextIsSafe`) the clean-ups and rule texts, put together in
`PolicyCases`, and `UserRules` (with `TextsFind`, `CleaningShows` and `ValidationReadsFirst`) the id pattern of
`RuleIdText`.
Failures of files, network, configtest and reload are nondeterministic choices, counted in a ghost field, so that contracts
can say what happens when none occurs. Digests are compared by content.

Findings, each with a lemma that states exactly when it happens, and where that is a failure with a concrete input:

- Delivery: a batch with two events of one id is refused by the unique event key every time. A spooled batch can still
  be stored exactly when its event ids differ (`Delivery.StorableExactly`); when they do not, delivery stops for good
  (`Delivery.PoisonedBatchStopsDelivery`). Ids are made of a digest of the log line, so any line that yields an event and
  is logged twice leads there (`Delivery.RepeatedLinePoisons`). A spooled batch whose record was pruned is never stored
  twice while one of its rows remains, and is stuck exactly as long (`Delivery.StuckWhileRowsRemain`).
- User rules: the handler reads the id of a new rule back as the first one in the printed line, and the rule's value
  stands before the id. Ids stay in place exactly when the value shows no id, or a free one of the enterprise range
  (`UserRules.UserRuleKeepsIds`). With the value `id:5` the rule is refused; with `id:50000` it is accepted and recorded
  under 50000, while its text gives it the id 40000 (`UserRules.ValueTakesId`).
- Merging guided rules again: a no-break space between name and colon hides an id that the trimmed lines show
  (`RuleIdText.TrimmingShowsId`), so the same rules may then get other ids; not so when the pattern takes every blank of
  the text for one (`GuidedRules.GuidedRoundTrip`).
- Package deployments: a FAILED report need not be final. `PackageMarkers.FailedIsFinal` says after which states it is;
  it is not after a failed restart (`PackageMarkers.FailedThenApplied`), nor when the process stops between a FAILED
  report for a failed installation and the failed marker (`PackageMarkers.FailedThenInstalledAgain`).
- Incidents: the category and time of an incident depend on how its events were split into batches
  (`Incidents.CategoryIsOverall`, `Incidents.CategoryDependsOnSplit`).
- Source lock: the reader looks for the list mark, two blanks before the dash included, in the whole text, while the
  rewriter accepts any indentation. `SourceLockTexts.RoundTripExactly` says when a rewritten lock is read back; with
  items indented by one blank it is not (`SourceLockTexts.RewriteNotReadBack`).
- Inherited scalars: the rendered override then holds no setup values, so an enterprise setup item that is not under a
  scalar's key does not reach the Agent (`PolicyComposition.InheritedSetup`, `PolicyCases.InheritedItemIsLost`). The
  code creates setup values with system scope only (`internal/manager/policy_configuration.go:689`), so such an
  item can come only from a stored configuration.
- Templates: a setup key that differs from a scalar's key only by blanks around it survives building but is lost when
  the configuration is projected to its template and built again (`TemplateProjection.TemplateFixpoint`,
  `PolicyCases.BlankKeyIsLost`).
- Settings: projecting a legacy one-address bypass with a reason loses the reason (`PolicyProjection.ProjectionUndone`,
  `PolicyProjection.ReasonIsLost`, `PolicyCases.MaintenanceReasonIsLost`).
- Install tokens: the comment on EnsurePersistentEnterpriseInstallToken says a token is created only when no usable one
  exists; from the marker date of persistent tokens on, the code issues more
  (`Enrollment.EnsureCreatesOnlyWhenNoneUsable`, `Enrollment.SecondPersistentTokenAfterMarkerDate`).
- Digests: updating the digest blanks the ids of all items of the configuration itself and of every copy that shares its
  slices (`PolicyDigest.Record.UpdateDigest`, `PolicyDigest.UpdateDigestOfCopy`).
- Guided rules: an argument name with a dot is accepted and printed, but not recognised again (`GuidedLine.ParsePrinted`,
  exact for every rule).
- Cursors: one for a time before 1970 is encoded but refused when it comes back (`Cursor.CursorRoundTrip`); links are
  then followed by page number, and `Pagination.BrowsingShowsWindows` says exactly when browsing is right all the same.
  The listed columns are TIMESTAMP(6) (`migrations/001_initial.sql:99`, `migrations/013_operator_mvp.sql:6`), which
  cannot hold such a time, so this concerns the functions and no stored row.

## Model

| member | source | states |
|---|---|---|
| AuditLog.ReadBatch | internal/agent/audit.go:39-113 | from any valid position the batch is exactly the events between the position and the returned one, at most `limit` and as many whole lines as fit, a line being split only when it alone exceeds the limit; never a partial last line, and not empty while a complete line ahead holds an event |
| AuditLog.ResumesInSameFile | internal/agent/audit.go:55-65 | reading goes on at a position in the same, long enough file, and otherwise begins anew |
| AuditLog.DoneThenAhead | internal/agent/audit.go:39-113 | events passed by a position and events ahead of it make up the whole log, in order |
| AuditLog.AppendKeepsPositions | internal/agent/audit.go:65-101 | appending to the log leaves every position valid and what it has passed unchanged |
| AuditLog.AtEnd | internal/agent/audit.go:76-113 | when only an unfinished line is left, what was passed is all that was ahead |
| Delivery.NextInv | internal/agent/agent.go:336-391 | every protocol step keeps the invariant: at most one spooled item, which is the next slice after the checkpoint or already stored |
| Delivery.ExactlyOnce | internal/agent/agent.go:336-391 | after any run the Manager holds exactly a prefix of the log's events, once each and in order, covering everything before the checkpoint, and the spool holds at most one accounted item |
| Delivery.DeliveryStores | internal/manager/store.go:400-465 | a delivery of a pending batch stores its events exactly when it has no record and no event id is repeated or present, and is answered exactly when it has a record or is stored |
| Delivery.StuckWhileRowsRemain | migrations/001_initial.sql:94-116 | when the record of a stored batch that is still spooled was pruned, delivering it again changes nothing and is not answered exactly while one of its event rows remains |
| Delivery.StorableExactly | internal/manager/store.go:436-465 | from every state in which a spooled batch is not stored, some continuation stores its events if and only if their ids differ |
| Delivery.PoisonedBatchStopsDelivery | internal/manager/store.go:436-465 | once a pending batch repeats an event id, no later step of any run stores an event or moves the checkpoint |
| Delivery.RepeatedLinePoisons | internal/agent/audit.go:172-190 | for every parser and every line that yields an event, a run from the initial state that logs the line twice, reads both and spools them ends in such a state |
| Flush.Pipeline.FlushAudit | internal/agent/agent.go:336-391 | every flush, whatever fails, is a run of the protocol; the rows it adds are those of a batch spooled before and then the events it reads, each with its own policy revision or else the one given, all of them when nothing fails; a batch it leaves spooled holds the last events it read, stamped likewise; without failure the log is drained or the share sent |
| Flush.Pipeline.Drain | internal/agent/agent.go:342-356 | resending spooled items is a run of the protocol and stops at the share; it adds at most the rows of the item, as they were spooled, and moves the checkpoint behind it |
| Flush.Pipeline.FillOnce | internal/agent/agent.go:357-389 | one read-spool-send round is a run of the protocol that adds exactly the events read, each with its own policy revision or else the one given, and moves the checkpoint behind them; if nothing was read, nothing is ahead |
| Flush.Pipeline.Pending | internal/agent/spool.go:51-87 | the listing holds every spooled item once, in the order of file names |
| Flush.Pipeline.Spool | internal/agent/spool.go:32-49 | spooling a fresh batch is the protocol's put step, or nothing when it fails |
| Incidents.EventStore.InsertEventBatch | internal/manager/store.go:400-465 | the transaction makes the tables what one ingest step makes of them; a new incident has rank and time of the leading event of its key in the batch, a known one the greater rank and the earlier time; a known batch, an unknown server and a repeated event id are reported without changing them |
| Incidents.PrimaryLeads | internal/manager/incidents.go:184-199 | the primary event of a key is the first of the best kind there is: classified detections before other detections, these before classified summaries and these before other summaries |
| Incidents.SharedKey | internal/manager/incidents.go:89-97 | events of one request share their key, else those of one transaction, else an event has its own id, each cut to 128 characters |
| Incidents.SummaryRanges | internal/manager/incidents.go:99-102 | a rule is a summary exactly when its id begins with 949, 959 or 980 |
| Incidents.EventStore.GroupByKey | internal/manager/store.go:421-434 | groups hold the events of each key in arrival order, and the order list has each key once |
| Incidents.EventStore.UpsertGroups | internal/manager/store_incidents.go:33-55 | exactly the touched incidents are merged with their group |
| Incidents.RedeliveryChangesNothing | internal/manager/store.go:400-420 | delivering an accepted batch again changes no table |
| Incidents.IncidentsSummariseRows | internal/manager/store_incidents.go:33-55 | over every history an incident exists exactly for keys of stored rows, is blocked exactly if one of them is, and has as primary the least non-summary row, else the least row |
| Incidents.RowsAreAccepted | internal/manager/store.go:436-465 | the stored rows of an incident are exactly its events in accepted deliveries |
| Incidents.IncidentSummarisesEvents | internal/manager/store_incidents.go:33-55 | over every history an incident exists exactly when an event of its key was accepted, and is blocked exactly when one of them is |
| Incidents.BlockedIndependentOfBatching | internal/manager/store_incidents.go:33-55 | two histories that accept the same events of a key agree on whether its incident exists and is blocked, however the events were batched, ordered or redelivered |
| Incidents.OrderDoesNotMatter | internal/manager/incidents.go:184-199 | for the same accepted batches in any order, category rank and time are the maximum and minimum over the per-batch primaries |
| Incidents.CategoryIsOverall | internal/manager/incidents.go:184-199 | over every history the stored category is that of the primary of all accepted events exactly when no batch's primary outranks it, and the stored time is that primary's exactly when no batch's primary is earlier |
| Incidents.SplitKeepsCategory | internal/manager/incidents.go:184-199 | a history with one request's events in two batches stores the category of the history with one batch exactly when the primary that loses the comparison does not outrank the winner |
| Incidents.CategoryDependsOnSplit | internal/manager/incidents.go:104-120 | a concrete scanner event and cross-site scripting event of one request: the stored incident is a scanner's at time 2 after one batch, and cross-site scripting at time 1 after two |
| Activation.Host.ApplyBundleFiles | internal/agent/policy.go:182-252 | an unsafe revision is refused with nothing touched; when no operation fails the revision is applied if and only if it is safe and new and the active path is a link or a directory that can be moved aside, and otherwise nothing of it is left; for every pattern of failures the active link resolves to a complete directory in every intermediate tree; success leaves it on exactly the staged files after configtest and reload, other outcomes on the previous target, and the results of the reloads are those of the outcome |
| Activation.Host.PrepareActiveLink | internal/agent/policy.go:254-277 | a link yields its resolved target and changes nothing; a real directory is moved aside with its contents |
| Activation.Host.ReplaceSymlink | internal/agent/policy.go:279-293 | the link changes in one step or not at all; on failure nothing but the temporary name is touched, and a link made there is gone unless removing it fails too |
| Activation.Host.RollBack | internal/agent/policy.go:238-249 | a completed rollback leaves the link on the previous target, reloaded, and the previous directory untouched throughout |
| Activation.Host.Publish | internal/agent/policy.go:182-223 | the revision directory appears whole, by rename, with exactly the staged files |
| Activation.MergeFiles | internal/agent/policy.go:138-147 | base and override files are merged exactly when no name is in both |
| PackageMarkers.FailedStaysFailed | internal/agent/agent.go:198-289 | across restarts and crashes a deployment whose failed marker was written is never installed again nor reported APPLIED |
| PackageMarkers.ReportedStaysSilent | internal/agent/agent.go:198-289 | once the reported marker names a deployment nothing more is sent or installed for it |
| PackageMarkers.FailedIsFinal | internal/agent/agent.go:198-289 | after any run with a FAILED report some continuation reports APPLIED for the same deployment if and only if it is the current one and neither the failed nor the reported marker names it, or a cycle that found it installed is about to report |
| PackageMarkers.FailedThenApplied | internal/agent/agent.go:263-285 | a run that reports FAILED for a failed restart and then APPLIED |
| PackageMarkers.FailedThenInstalledAgain | internal/agent/agent.go:245-257 | a run that reports FAILED for a failed installation, stops before the failed marker, installs again and reports APPLIED |
| PackageCycle.Cycle.PackageDeployment | internal/agent/agent.go:198-289 | one control cycle is a run of the marker machine; when nothing fails it installs, reports and marks exactly what old markers, restart request, inventory and installation call for, and otherwise a first part of that; APPLIED is reported only when the inventory matches an installed, unreported deployment that no restart is pending for |
| LastAdmin.StepKeepsAdmin | internal/manager/store_identity.go:255-346 | no single lock, read, check, write or commit step takes the last active administrator from an enterprise that stays active |
| LastAdmin.LastAdministratorStays | internal/manager/store_identity.go:255-346 | no interleaving of updates, deletes, creations and terminations leaves an active enterprise without an administrator once it had one |
| Enrollment.QuotasHold | internal/manager/store.go:215-289 | after any run each enrollment token made at most one server, and an install token's counter is the number of its servers and within its maximum |
| Enrollment.TerminationIsFinal | internal/manager/store_enterprise_lifecycle.go:78-175 | once an enterprise is terminated it stays so, gets no server, none of its tokens is usable and none of its users can be looked up, whatever follows |
| Enrollment.EnsureCreatesOnlyWhenNoneUsable | internal/manager/store_install_tokens.go:115-174 | a token is created only when none is usable exactly when, if one is usable, some usable one has an expiry that has not passed |
| Enrollment.SecondPersistentTokenAfterMarkerDate | internal/manager/store_install_tokens.go:115-174 | from the marker date on a second persistent token is issued beside a usable one |
| Enrollment.ConsumesUsable | internal/manager/store.go:139-289 | enrolling succeeds exactly with a token that the validation accepts, before it expires, below the install token's maximum and for a new server, which gets the token's enterprise |
| Enrollment.ExchangeInTime | internal/manager/store_install_tokens.go:252-294 | an exchanged token lasts as long as asked, but no longer than an install token that ends, and is usable |
| Enrollment.CreatedInstallToken | internal/manager/store_install_tokens.go:81-110 | an install token is made exactly for an active enterprise with a name and a future expiry, without a limit when none is given, and is usable at once |
| Enrollment.RevokedOnce | internal/manager/store_install_tokens.go:205-224 | revoking succeeds once, for the enterprise's own scope or no scope, and ends the token |
| Enrollment.EndedEnterprise | internal/manager/store_enterprise_lifecycle.go:78-175 | an enterprise is ended exactly when active, named again and without system administrators; its row goes exactly when nothing refers to it, and otherwise what does is closed and the rest left alone |
| Enrollment.FoundUser | internal/manager/store_identity.go:104-108 | a user is found exactly while neither deleted nor of an enterprise that ended |
| Enrollment.EnterpriseStore.ConsumeEnrollment | internal/manager/store.go:215-289 | the transaction consumes the token, counts the install token and adds the server, or changes nothing |
| Enrollment.EnterpriseStore.EndEnterprise | internal/manager/store_enterprise_lifecycle.go:78-175 | the sequence of table updates deletes or terminates the enterprise as a whole, or changes nothing |
| RateLimit.RequestLimiter.Allow | internal/manager/session.go:253-275 | the answer and the asking key's window are those of a limiter that never evicts; other keys lose their windows exactly when these are stale and more than 1024 are held |
| RateLimit.EvictionNeverMatters | internal/manager/session.go:253-275 | over any run the answers equal those of a limiter that keeps all windows |
| RateLimit.RunBound | internal/manager/session.go:253-275 | no half-open interval of one window length admits a key as often as twice the limit, nor more than once for limits below two |
| RateLimit.BoundIsReached | internal/manager/session.go:253-275 | for every limit and window length there are requests of which one less than twice the limit are admitted within two instants |
| RateLimit.RunRefusal | internal/manager/session.go:253-275 | over any run a key is refused only when it was admitted as often as the limit says within the window length that ends then |
| RateLimit.LoginLimiter.Allow | internal/manager/session.go:279-292 | the stored attempts are cut to the last fifteen minutes and fewer than five of them allow |
| RateLimit.PruningInvisible | internal/manager/session.go:279-304 | at any later time pruned attempts and full history agree on the last fifteen minutes |
| RateLimit.LoginAnswer | internal/manager/session.go:279-304 | the answer is exactly fewer than five failures since the last reset in the last fifteen minutes |
| Cursor.EncodeDecode | internal/manager/admin_monitoring_handlers.go:186-191 | base64url without padding decodes to what was encoded, for every byte string |
| Cursor.BreakSkipped | internal/manager/admin_monitoring_handlers.go:193-208 | a line break anywhere in a cursor does not change what is decoded |
| Cursor.ParseInRange | internal/manager/admin_monitoring_handlers.go:193-208 | numbers are read with either sign or none exactly when 64 bits hold them |
| Cursor.CursorRoundTrip | internal/manager/admin_monitoring_handlers.go:182-208 | decoding an encoded position gives it back exactly for a positive time, non-zero id and known direction, and nothing otherwise |
| Pagination.Paginate | internal/manager/admin_monitoring_handlers.go:210-229 | truncating and reversing the slice in place gives the page cut from one record too many, with the right flags |
| Pagination.BelowIsSuffix | internal/manager/store.go:647-664 | the rows below the i-th of the sorted table, newest first, are the rest of it |
| Pagination.AboveIsPrefix | internal/manager/store_incidents.go:103-120 | the rows above the i-th, oldest first, are the sorted table up to it, backwards |
| Pagination.ServerServes | internal/manager/store.go:647-664 | pages found by number, by next cursor and by previous cursor are all windows of one sorted list |
| Pagination.LinkDecodes | internal/manager/admin_monitoring_handlers.go:182-208 | a link made for a record leads to that record's position exactly for positive times |
| Pagination.BrowseIsLed | internal/manager/server.go:770-803 | for every table and every sequence of links the page on screen is the window that the links lead to, by cursor where it decodes and else by page number |
| Pagination.BrowsingShowsWindows | internal/manager/server.go:770-803 | for every sequence of next and previous links the page is the window of the sorted table that the same moves reach on the whole list, with links exactly where there is more, if and only if each page beyond the last page number begins with a record whose cursor decodes |
| Pagination.WalkSeesAll | internal/manager/server.go:770-803 | following next links for n pages shows exactly the first n pages of the sorted table if and only if the links beyond the last page number decode; and then, once none is offered, every record was shown once, strictly descending by time and id |
| LockFormat.NewLineReads | cmd/mwaf-crs-updater/main.go:340-341 | a rewritten line is an entry that reads back as its key and value |
| LockFormat.UnquoteQuoted | cmd/mwaf-crs-updater/main.go:226-298 | a value reads the same in quotes of either kind |
| LockFormat.RenderedText | cmd/mwaf-crs-updater/main.go:335-345 | the lines written for each key of a lock, with the repository as an address |
| SourceLock.ReadSourceLock | cmd/mwaf-crs-updater/main.go:226-298 | the scan takes exactly the entries of the channel's block, or of the legacy block, fails on an over-long line it reaches, and then checks completeness |
| SourceLock.AcceptedLock | cmd/mwaf-crs-updater/main.go:286-297 | a lock is accepted exactly when it is complete, with a verified tag object unless the file has the old form, and a missing repository is the upstream one |
| SourceLock.VerifiedIsSaid | cmd/mwaf-crs-updater/main.go:226-298 | a lock in list form is read only if a line of the channel's block says that the tag signature was verified |
| SourceLock.RewriteLines | cmd/mwaf-crs-updater/main.go:304-345 | exactly the entries of the block under a rewritten key change, in place, and it fails exactly when a key is missing |
| SourceLock.RewriteSourceLock | cmd/mwaf-crs-updater/main.go:304-350 | the text of the rewritten lines, or an error when a key is missing |
| SourceLock.BlocksApart | cmd/mwaf-crs-updater/main.go:323-334 | no line is in the blocks of two channels |
| SourceLock.RewrittenBlock | cmd/mwaf-crs-updater/main.go:304-350 | the rewritten block holds every new value, and the line of the file |
| SourceLock.SourceLockRoundTrip | cmd/mwaf-crs-updater/main.go:226-350 | for texts in list form before and after, reading the rewritten text gives the new lock with the file's line after the usual checks, any other channel reads as before, and lines outside the block are unchanged |
| SourceLockTexts.ListFormByLine | cmd/mwaf-crs-updater/main.go:254-257 | a text is in list form exactly when one of its lines holds the mark |
| SourceLockTexts.ReadsUnlisted | cmd/mwaf-crs-updater/main.go:254-296 | without the list form a lock is read exactly for the stable channel and when the last entry under each key, whatever its block, says what the lock holds |
| SourceLockTexts.RoundTripExactly | cmd/mwaf-crs-updater/main.go:226-350 | for every readable text, the new lock is read back if and only if the rewritten text is in list form with the line in the channel's block, or the channel is stable and the last line of all under each key, once rewritten, says what the lock holds; likewise for any other channel |
| SourceLockTexts.SettlesIs | cmd/mwaf-crs-updater/main.go:254-296 | for texts that were not in list form this is so exactly when, under each rewritten key, the last line of all lies in the channel's block or already says the new value |
| SourceLockTexts.SecondBlockWins | cmd/mwaf-crs-updater/main.go:226-350 | of two unmarked blocks the first is rewritten and the second is read |
| SourceLockTexts.RewriteNotReadBack | cmd/mwaf-crs-updater/main.go:226-350 | a concrete file with items indented by one blank: the rewrite to v4.9.0 succeeds and v4.3.0 of the other block is read, before and after |
| Lines.LinesOfTrimmed | internal/manager/policy_authoring_handlers.go:304-307 | trimming a whole text does not change its trimmed non-empty lines |
| Lines.LinesOfUnix | internal/manager/policy_authoring_handlers.go:315-316 | carriage returns before line feeds do not change them either |
| GuidedLine.ParsePrinted | internal/manager/policy_authoring_handlers.go:27-27 | a printed valid rule parses back to its trimmed form exactly when its field has no dot |
| GuidedLine.PrintedIsLine | internal/manager/policy_authoring_handlers.go:300-300 | a printed rule is one trimmed line |
| GuidedLine.PrintedText | internal/manager/policy_authoring_handlers.go:300-300 | the printed line is the format string with field, operator, value, id, action and number in place |
| GuidedLine.NormalFields | internal/manager/policy_authoring_handlers.go:262-290 | a rule is looked at with trimmed fields, and with an argument only where one is used |
| GuidedLine.ValidRule | internal/manager/policy_authoring_handlers.go:262-290 | a rule is valid exactly when its trimmed field, operator and action are known, its value is a text of at most 512 bytes without quotes, backslashes and line breaks, and an argument is one where it is used |
| GuidedLine.ArgumentIs | internal/manager/policy_authoring_handlers.go:342-353 | an argument is valid exactly when it has one to 128 characters, all of them letters, digits, underscores, hyphens or dots |
| GuidedRules.IdsAreLeastFree | internal/manager/policy_authoring_handlers.go:292-302 | allocated ids strictly increase, lie in 40000..89999, avoid ids found in the advanced text and leave no free id behind |
| GuidedRules.IdsExist | internal/manager/policy_authoring_handlers.go:292-299 | allocation fails exactly when fewer ids are free than rules need one |
| GuidedRules.GuidedLinesAre | internal/manager/policy_authoring_handlers.go:250-303 | a merge prints every rule under its allocated id exactly when all rules are valid and ids suffice |
| GuidedRules.MergeGuidedPolicyRules | internal/manager/policy_authoring_handlers.go:250-310 | the loop over rules with used ids yields the guided lines followed by the trimmed advanced text, or nothing |
| GuidedRules.SplitGuidedPolicyRules | internal/manager/policy_authoring_handlers.go:312-340 | the loop yields the lines that are no guided rules, trimmed, and the rules of the others |
| GuidedRules.SplitMerged | internal/manager/policy_authoring_handlers.go:250-340 | splitting a merged text gives back the undotted rules and leaves dotted ones as lines before the advanced ones |
| GuidedRules.GuidedRoundTrip | internal/manager/policy_authoring_handlers.go:250-340 | undotted rules and advanced text without guided lines survive merge and split; merging again reproduces the text, ids included, when the advanced text has only its trimmed lines, and its trimmed lines when the id pattern takes every blank for one |
| RuleIdText.LinesShow | internal/manager/policy_config.go:138-138 | a text and its trimmed lines show the same ids when the pattern takes every blank for one |
| RuleIdText.TrimmingShowsId | internal/manager/policy_config.go:138-138 | a text with a no-break space that shows no id, and whose trimmed lines show one |
| RuleIdText.JoinShows | internal/manager/policy_authoring_handlers.go:250-258 | the ids of each rule text are found in the joined texts |
| RuleIdText.PrintShows | internal/manager/policy_operator_handlers.go:682-688 | the first id in a printed valid rule is the one it was given, unless its value shows an id: then it is the first of those |
| RuleIdText.CanonicalShows | internal/manager/policy_configuration.go:310-323 | cleaning a rule text keeps the first id it shows |
| Grouping.GroupsPartition | internal/crsindex/index.go:510-567 | groups are disjoint and ordered, start at an element that is not skipped, run exactly while there is more, and cover all that is not skipped |
| CrsDirectives.LogicalDirectives | internal/crsindex/index.go:538-567 | the builder loop gives one directive for each group of lines, with the line it starts at |
| CrsDirectives.ConfReads | internal/crsindex/index.go:538-567 | a trimmed line is a comment when it begins with a number sign, and is continued, without its backslash, when it ends with one |
| CrsDirectives.DirectiveConservation | internal/crsindex/index.go:538-567 | every line is skipped or in exactly one directive, and start lines strictly increase |
| CrsDirectives.ParseRuleFile | internal/crsindex/index.go:510-536 | the loop gives one rule for each chain, or an error at a rule without id |
| CrsDirectives.RuleConservation | internal/crsindex/index.go:510-536 | every directive is in exactly one rule's chain or no rule, in source order, and splitting a rule's text gives its chain |
| CrsDirectives.FileConservation | internal/crsindex/index.go:510-567 | both laws for the text of a whole file |
| CrsIndex.TallyCounts | internal/crsindex/index.go:180-188 | counts per key are the numbers of occurrences and sum to the number of rules |
| CrsIndex.SortAscending | internal/crsindex/index.go:173-178 | rules with distinct ids are sorted into strictly ascending order, none lost |
| CrsIndex.BuildIndex | internal/crsindex/index.go:145-188 | the index holds all rules by strictly ascending id with counts by phase and level that sum to the rule count, and fails exactly on a duplicate id or no rule |
| Policy.NumberedStay | internal/manager/policy_configuration.go:234-237 | lists numbered by index are cleaned and not moved by normalisation |
| Policy.CoreValues | internal/manager/policy_configuration.go:481-493 | the value of each setup key that the scalars decide |
| PolicyValidation.ValidateIds | internal/manager/policy_configuration.go:263-334 | the passes with one set of used ids accept exactly configurations whose reserved ids are in range and whose rule ids are pairwise distinct |
| PolicyValidation.ValidIdsAre | internal/manager/policy_configuration.go:263-334 | item by item: an exclusion has no id or one of 5000..9999, an IP rule has one of these, and no two items share an id |
| PolicyValidation.Ranges | internal/manager/policy_configuration.go:55-62 | the ranges of generated, system, enterprise and legacy rule ids |
| PolicyBuild.BuildExclusions | internal/manager/policy_configuration.go:694-773 | the append loops place system exclusions, then enterprise ones, by index and with a running generated id |
| PolicyLayers.SettingsDoNotInterfere | internal/manager/policy_configuration.go:658-814 | for every template and all settings the built configuration passes the composition check against the base of the template, system items first |
| PolicyLayers.BuiltSplitsAndComposes | internal/manager/policy_delivery.go:142-259 | rendering base and override of a built configuration apart and applying both equals rendering it whole |
| PolicyLayers.BuiltIds | internal/manager/policy_configuration.go:694-773 | reserved ids run 5000, 5001, … over exactly the exclusions loaded before the CRS, in list order, system below enterprise |
| PolicyComposition.PolicyOverrideFromConfiguration | internal/manager/policy_delivery.go:210-259 | the loops collect exactly the enterprise items, and the setup values with the scalars where they are included |
| PolicyComposition.SplitJoin | internal/manager/policy_delivery.go:178-201 | splitting a list by layer and joining gives it back exactly when system items come first |
| PolicyComposition.OverlaySetup | internal/manager/policy_configuration.go:481-493 | laying override setup values over the base gives the effective map exactly when no enterprise item contradicts a scalar |
| PolicyComposition.InheritedSetup | internal/policybundle/bundle.go:240-248 | under inherited scalars the rendered setup is the effective one exactly when every enterprise item is under a scalar's key |
| PolicyComposition.SplitThenCompose | internal/manager/policy_delivery.go:142-259 | an accepted base and override overlay to exactly the effective engine, setup, exclusions, rules and IP rules, in order, if and only if no enterprise setup item contradicts a scalar |
| PolicyFields.ComposesWhenShared | internal/manager/policy_delivery.go:142-201 | a base and an effective configuration are accepted together exactly when they share release, namespace, inherited scalars and, but for ids, the system items |
| PolicyFields.RenderedFields | internal/manager/policy_delivery.go:261-270 | every item is rendered in its place with the fields that rendering takes |
| PolicyFields.NormalizedFields | internal/manager/policy_configuration.go:188-238 | normalising cleans the text fields of every item, loses no item and sorts by order number |
| PolicyFields.NormalizedSetup | internal/manager/policy_configuration.go:188-238 | setup items are trimmed, their values squashed, and sorted by key |
| PolicyFields.FilledScalars | internal/manager/policy_configuration.go:658-688 | zero scalars of the settings are filled in from the template, the blocking level or fixed values, and no others are changed |
| PolicyFields.ResolvedScalars | internal/manager/policy_config.go:93-135 | inherited, own and older scalars are resolved as their source says, and own ones that are missing are an error |
| PolicyFields.BuiltFromTemplate | internal/manager/policy_configuration.go:694-755 | every exclusion of a template is built at its place, with its fields, stage and reservation |
| PolicyFields.BuiltFromSettings | internal/manager/policy_configuration.go:756-773 | every exclusion of the settings follows, likewise |
| PolicyFields.BuiltRules | internal/manager/policy_configuration.go:774-801 | each rule line of template and settings becomes a custom rule of its layer, in order, marked when its id is outside the layer's range |
| PolicyFields.BuiltSetupItems | internal/manager/policy_configuration.go:683-691 | the setup items are exactly the template's values under keys that the scalars do not decide |
| PolicyCases.InheritedItemIsLost | internal/manager/policy_delivery.go:210-259 | a concrete enterprise setup item under inherited scalars that composing the bundles loses |
| PolicyLists.Remove | internal/manager/policy_operator_handlers.go:505-515 | the loop keeps the wanted items and numbers them by index |
| PolicyLists.RemoveInPlace | internal/manager/policy_mutation.go:152-159 | the same in the slice itself |
| PolicyLists.RemoveKeeps | internal/manager/policy_mutation.go:189-199 | removing enterprise items keeps the numbering and the system part, in front, unchanged |
| PolicyEdits.NextGeneratedPolicyRuleId | internal/manager/policy_mutation.go:119-133 | the scan finds the least generated id that no exclusion or IP rule uses |
| RuleIds.LeastFreeIs | internal/manager/policy_mutation.go:119-133 | that id is in range and unused with none free below it, and there is none exactly when all are used |
| PolicyEdits.EditConfiguration | internal/manager/policy_operator_handlers.go:485-747 | an append adds one enterprise item at the end, with the least free id where one is given, or fails when none is free; a delete or expiry leaves, renumbered in order, exactly the items without the id or scope asked for or whose time is not over, and fails exactly when none goes |
| PolicyEdits.EditedDoesEdit | internal/manager/policy_mutation.go:139-206 | the specification function of the edits does the same, for all edits, deletes and expiries |
| PolicyEdits.PreparedIps | internal/manager/policy_mutation.go:33-42 | a prepared revision holds exactly the unexpired IP rules, cleaned |
| PolicyEdits.PreparedKeeps | internal/manager/policy_mutation.go:15-47 | preparing a revision keeps the system layer |
| PolicyEdits.EditsKeepTheSystemLayer | internal/manager/policy_operator_handlers.go:418-747 | after every sequence of edits and expiries, with items reloaded under any ids, the configuration still composes with its base |
| PolicyRuns.BuiltIsKept | internal/manager/policy_configuration.go:658-814 | a configuration built from any template and settings is one that edits keep |
| PolicyRuns.SystemLayerIsImmutable | internal/manager/policy_delivery.go:142-259 | after any edits, rendering base and override apart still equals rendering the whole |
| PolicyRuns.EditKeepsIds | internal/manager/policy_mutation.go:119-133 | every edit keeps rule ids distinct, generated ids in their range, custom rules in the namespace of their scope or a legacy range, and texts showing the ids, if and only if it is not an added rule whose first shown id is taken or no enterprise id |
| PolicyRuns.GivenIsFree | internal/manager/policy_authoring_handlers.go:250-302 | the id that the allocator gives, from the rule texts alone, is an enterprise id that no rule has |
| PolicyRuns.PreparedKeepsIds | internal/manager/policy_mutation.go:15-47 | dropping expired rules, sorting, cleaning and blanking item ids keep this |
| PolicyRuns.RunsKeepIds | internal/manager/policy_operator_handlers.go:418-747 | after every run of edits and reloads, what the next edit gives has its ids in place before it is checked under the same condition, and the checks refuse it otherwise |
| PolicyRuns.ValidInPlace | internal/manager/policy_configuration.go:263-334 | every configuration that validation accepts is one such runs can start from |
| UserRules.MergedLine | internal/manager/policy_operator_handlers.go:674-682 | the first line of the existing texts merged with a user rule is the rule under the given id, and there is none exactly when the rule is invalid or no id is free |
| UserRules.RecordedId | internal/manager/policy_operator_handlers.go:682-693 | the rule is recorded under its given id, unless its value shows one |
| UserRules.SafeLineReads | internal/manager/policy_configuration.go:310-323 | the id that validation reads from a safe trimmed line is the first it shows |
| UserRules.SingleRuleOnly | internal/manager/policy_configuration.go:310-323 | it reads an id only from a text with one safe rule line |
| UserRules.UserRuleKeepsIds | internal/manager/policy_operator_handlers.go:674-693 | adding a user rule keeps all ids in place if and only if its value shows no id, or a free one of the enterprise range |
| UserRules.UserRunsKeepIds | internal/manager/policy_operator_handlers.go:648-700 | the same after every run, before the checks are made, with the printer, the pattern and the clean-ups in use; the checks refuse any other rule |
| UserRules.ValueTakesId | internal/manager/policy_operator_handlers.go:674-693 | the first user rule of a policy is printed under 40000, and with the value id:n it is recorded under n for every n of up to five digits |
| PolicyProjection.ApplyToSettings | internal/manager/policy_configuration.go:498-539 | the loops sort enterprise exclusions into addresses, paths and exclusions, and join enabled enterprise rules |
| PolicyProjection.ProjectionUndone | internal/manager/policy_configuration.go:498-539 | rebuilding from the projection gives the same configuration if and only if address bypasses precede path bypasses, these precede the other enterprise exclusions, and all such bypasses are bare |
| PolicyProjection.SettingsFixpoint | internal/manager/policy_configuration.go:498-539 | rebuilding from the projection gives the same configuration when the settings hold no legacy one-address or one-path bypass among their exclusions |
| PolicyProjection.SettingsStabilise | internal/manager/policy_configuration.go:498-539 | whatever the settings, a second round changes nothing more |
| PolicyProjection.ReasonIsLost | internal/manager/policy_configuration.go:516-528 | a legacy one-address bypass with a reason is moved and the rebuilt configuration differs |
| PolicyCases.MaintenanceReasonIsLost | internal/manager/policy_configuration.go:516-528 | a concrete bypass of one address with a reason, with the clean-ups in use: the rebuilt configuration differs |
| TemplateProjection.TemplateFixpoint | internal/manager/policy_configuration.go:585-649 | rebuilding a base from its projected template gives the same configuration if and only if no template key becomes, by trimming, a key that the scalars decide |
| PolicyCases.BlankKeyIsLost | internal/manager/policy_configuration.go:585-649 | a concrete template key with a blank before it, with the clean-ups in use: the rebuilt configuration differs |
| CustomRuleText.SafeCustomRules | internal/manager/policy_config.go:271-313 | the canonical text and rule count exactly for texts within the size limit whose lines are all accepted under distinct ids |
| CustomRuleText.RuleLinesAre | internal/manager/policy_config.go:271-313 | rule lines are the trimmed lines with text that do not begin with a number sign |
| CustomRuleText.SafeLinesAgain | internal/manager/policy_config.go:271-313 | the rule lines of a safe text, joined, are a safe text with the same rule lines |
| CustomRuleText.RuleTextsReparse | internal/manager/policy_configuration.go:774-801 | the texts and clean-ups in use meet what the fixpoints ask of them |
| CustomRuleText.CleanIsIdempotent | internal/manager/policy_configuration.go:201-237 | trimming and joining fields by one blank are idempotent, as the theorems about runs and projections ask |
| CustomRuleText.AtMostOrders | internal/manager/policy_configuration.go:234-234 | setup keys are totally ordered by the order of strings |
| PolicyDigest.Record.Normalize | internal/manager/policy_configuration.go:188-238 | cleaning and sorting every slice in place gives the normalised configuration |
| PolicyDigest.Record.UpdateDigest | internal/manager/policy_configuration.go:456-479 | the receiver is normalised, its item ids are blanked and its digest set, its own id and owner stay |
| PolicyDigest.UpdateDigestOfCopy | internal/manager/policy_configuration.go:456-470 | every copy that shares the slices loses its item ids too |
| PolicyDigest.DigestIgnoresIds | internal/manager/policy_configuration.go:456-479 | configurations that differ only in item ids, own id, owner and digest have one digest |

## Left out

- The parser of audit lines and the safety checks of single rule lines are parameters; a line without a time stamp, which the program dates with the current time, is not modelled, and the rule-id and chain patterns of CRS files are not matched.
- Log rotation and truncation are modelled by `AuditLog.ResumePosition`, but are not steps of the exactly-once theorem, since an unread tail can be dropped there.
- SourceLock.ReadSourceLock: the limit on a scanned line counts characters without the carriage return, where the scanner counts bytes with it.
- Flush.Pipeline.FlushAudit: the log file is there; reading an absent one gives no events and no position.
- The byte accounting of the spool: a full spool is a failing put.
- backfillSecurityIncidentBatch, which assigns incidents to events stored before there were incidents.
- An active link that points at nothing: when it is replaced is stated for every link, what a failed activation leaves only for a link that resolves and for a real directory.
- Activation.Host.ApplyBundleFiles: files inside directories are one map per directory, and sub-directories are part of the names.
- The event handler's limits on a batch and its trimming and cutting of event fields before they are stored; lower-casing in the classification covers what has an ASCII result.
- SQL text, column precision and schema constraints other than the unique key of agent and event id; transactions are atomic steps except in `LastAdmin`.
- PolicyEdits.EditsKeepTheSystemLayer: a reload keeps the order of the items; IP rules may share an order number after an expiry, and which of them a database then lists first is not modelled.
- Network prefixes are strings with a canonical form; parsing of addresses, IPv4-mapped ones included, is not modelled.
- Checks of exclusion targets, tags and conditions are parameters of validation; load stage, type, scope and action are enumerations, so that unknown words in them do not arise.
- validateConfigurationRuleIDs, which compares a configuration with a CRS index, the overlap check of exceptions and their forms.
- PolicyValidation.ValidateIds: the id passes of ValidateAt; the other checks are the predicate `PolicyValidation.Valid`.
- Rule metadata of the CRS index other than id, file, phase and level, and the source inventory.
- HTTP handlers, templates, filters, sessions, cryptography, process execution, archives, rollout control and bundle rendering.
