# A verified model of the security monitor's stateful core

This project models, in Dafny, how raw events become alerts: the worker's consuming loop and its failures,
the sliding windows and five windowed rules, alert correlation and triage, the statistical baseline, and three
smaller pieces with exact bounds (simulator pacing, the rate limiter, the live lists of the console).
`dafny verify dfyconfig.toml` checks everything.

| file | what it models |
|---|---|
| `Text.dfy` | decimal numbers, ordered lists of strings, the k smallest members of a set |
| `Events.dfy` | events, severities, statuses, detections |
| `Windows.dfy` | the expiring sorted-set store and its class |
| `Rules.dfy` | the five windowed rules and the engine's loop |
| `Firing.dfy` | windows and rules together: firing against naive counts over the full history |
| `Reporting.dfy` | what each rule's detection says, in terms of the full history |
| `Correlation.dfy` | alerts as objects, and what a series of folds adds up to |
| `Alerts.dfy` | the alerts table: correlation and triage as a state machine, and the services as a class |
| `Batching.dfy` | batches against one event at a time |
| `Burst.dfy` | windows, rules and correlation together: a login attack in the alerts table |
| `Monitoring.dfy` | what the table keeps while detectors and analysts work on it |
| `Processing.dfy` | the batch loop with its counters and minute rollover |
| `Delivery.dfy` | log, seen-id set, table and committed offset as a transition system with failures |
| `Worker.dfy` | the consuming loop as a class that follows that system |
| `Reprocessing.dfy` | the two together: what clean runs store, and what failing runs evaluate besides |
| `Anomaly.dfy` | the exponentially weighted baseline, over real numbers |
| `RateLimit.dfy`, `Simulator.dfy`, `Realtime.dfy` | the smaller pieces |

Instants and window lengths are integers in microseconds. Wall clocks, random tokens and the fate of every
external call are inputs. Classes carry the fields of the program's classes; their methods are tied to functions on values, and the
main results are lemmas about those functions, over all inputs or all runs.

## Where the code and its documentation differ

The model follows the code.

- "Offset not committed, batch retried" (docs/architecture.md:183) and "commit only after durable persist"
  (backend/app/streaming/pipeline.py:3-7) do not always hold. An exception before the database commit is survived by the
  worker, and the next commit passes over the batch; a batch broken off between marking its ids as seen and the commit of
  the transaction is taken for duplicates when it is delivered again; a restart before any offset was committed begins at the
  end of the log. `Delivery.MissingIff` says exactly when an event is missing, and three runs show each case.
- "At most one open window per key; a resolved alert does not block a fresh one" (docs/architecture.md:170-172): the
  constraint is on (rule, key, status). It allows two active alerts after a re-open (`Alerts.ReopenYieldsTwoActive`) or
  an insert decided on a stale read (`Alerts.StaleInsertYieldsTwoActive`); `Alerts.OneActiveIff` is the exact condition. And
  it refuses to resolve a key's second alert while the first is resolved (`Alerts.SecondResolutionRefused`).
- The separator "never appears in our values" (backend/app/detection/windows.py:20): validation strips it from the ends of a
  user name (backend/app/schemas/event.py:33-37) but leaves it inside, and such a name is cut there (`Windows.DecodeEncode`).
  RULE-002 and RULE-007 count values as cut, which can only hide some (`Firing.PasswordSprayAgainstNames`), and does
  (`Firing.SeparatorHidesNames`); counts, ports and byte sums are not affected.
- Triggers are documented with "more than" (docs/detection-rules.md:31-66); the code compares with "at least".
- Deduplication within a batch: all ids are looked up before any is marked, so an id that is new and repeated inside one
  batch is evaluated each time (`Burst.RepeatedIdInBatch`). `Batching.EvaluatedOnceIff` is the exact condition.
- An event without an id draws a new one whenever it is read, so redelivery can store it again
  (`Delivery.NamelessStoredTwice`); `Delivery.NamelessCount` says how often.
- Resuming the console's list is meant to bring back the events held while paused. The update that does so reads the buffer
  through a reference (frontend/src/realtime/RealtimeProvider.tsx:60) that line 61 empties. React 18 runs such an update only when it
  renders if another of the component, here line 58's, is pending; the events held are then lost. `Realtime.Provider.SetPaused`
  covers both timings and `Realtime.LateResumeIff` says when they differ.
- A constant series can be flagged, with a threshold of zero or less (`Anomaly.ConstantSeries`).

## Model

| member | source | states |
|---|---|---|
| `Windows.DecodeEncode` | backend/app/detection/windows.py:23-28 | A value comes back from its sorted-set member exactly when it holds no separator; otherwise it is cut short. |
| `Windows.EncodeToken` | backend/app/detection/windows.py:23-24 | Two members with different random tokens never collide, whatever the values hold. |
| `Windows.RunIsSurvivors` | backend/app/detection/windows.py:60-81 | After any sequence of additions and looks on a key, in any order of stamps, the set holds exactly the additions whose stamp exceeds every later use's now - window, listed in the order of insertion. |
| `Windows.RunIsRecent` | backend/app/detection/windows.py:60-81 | When the last use carries the latest clock, the set is the half-open window over the full history. |
| `Windows.ExpiryUnobservable` | backend/app/detection/windows.py:67-81 | With every addition stamped in [wall - 30 s, wall], a store that expires keys after window + 30 s holds the same entries as one that never does, over every mix of additions and wall-clock looks. |
| `Windows.SlackIsTight` | backend/app/detection/windows.py:67 | For every positive window and every delay beyond 30 s there is a history in which expiry loses a member the window still covers. |
| `Windows.AddToSteps` | backend/app/detection/windows.py:60-69 | One addition on the store of encoded members is one step of the abstract key, expiry included. |
| `Windows.LookAtSteps` | backend/app/detection/windows.py:73-80 | The same for a wall-clock look. |
| `Windows.EachKeyOnItsOwn` | backend/app/detection/windows.py:48-49 | In any interleaving of commands on many keys, each key holds what its own uses alone would leave. |
| `Windows.WindowStore.AddAndMeasure` | backend/app/detection/windows.py:51-71 | The new store is the abstract addition, and the result describes what the key then holds. |
| `Windows.ResultSays` | backend/app/detection/windows.py:31-46 | A result tells the number of entries, their distinct values in order, and the greatest distance between two of their stamps. |
| `Windows.WindowStore.Measure` | backend/app/detection/windows.py:73-81 | Trims by the wall clock without adding; a key left empty disappears, the deadline does not move. |
| `Windows.WindowStore.IncrSum` | backend/app/detection/windows.py:91-116 | Adds an amount and returns the sum of the amounts the window holds. |
| `Windows.WindowStore.SumAmounts` | backend/app/detection/windows.py:110-116 | The loop over encoded members yields the sum of the decoded amounts, skipping what is no number. |
| `Text.FirstDifference` | backend/app/detection/correlation.py:80-82 | Strings are ordered by their first difference, a proper prefix first. |
| `Text.ParseRender` | backend/app/detection/windows.py:106-113 | An integer written into a member and parsed again is itself, so no amount is lost on the way. |
| `Rules.RunStreamConcat` | backend/app/detection/engine.py:74-96 | Evaluating a stream in two parts gives the same windows and the same detection sequence. |
| `Rules.DetectionEngine.SetEnabled` | backend/app/detection/engine.py:68-72 | Afterwards this rule is off exactly when it was not enabled, and every other rule is as before. |
| `Rules.OffMeansAbsent` | backend/app/detection/engine.py:77-79 | Switching rules off is taking them out of the catalogue: no window of theirs changes, nothing is detected, and the other rules see no difference. |
| `Rules.DetectionEngine.Evaluate` | backend/app/detection/engine.py:74-96 | The loop over the enabled, applicable detectors makes exactly the window changes and detections of the specification, in catalogue order. |
| `Rules.DetectionEngine.EvaluateBruteForce` | backend/app/detection/rules/brute_force.py:30-90 | A failure adds and measures, a success only looks; the verdict and the new window are the specified ones. |
| `Rules.DetectionEngine.EvaluatePasswordSpray` | backend/app/detection/rules/password_spray.py:29-72 | RULE-002 on the real store does what its specification says. |
| `Rules.DetectionEngine.EvaluatePortScan` | backend/app/detection/rules/port_scan.py:37-87 | RULE-003 likewise. |
| `Rules.DetectionEngine.EvaluateDataExfiltration` | backend/app/detection/rules/data_exfiltration.py:37-87 | RULE-006 likewise, on the windowed sum. |
| `Rules.DetectionEngine.EvaluateAuthAnomaly` | backend/app/detection/rules/auth_anomaly.py:37-87 | RULE-007 likewise; failures go to a window of their own and conclude nothing. |
| `Firing.KeyInjective` | backend/app/detection/windows.py:48-49 | Window keys of different rule windows, or of different entities, never coincide, although names and entities are joined by colons. |
| `Firing.KeyHolds` | backend/app/detection/engine.py:74-96 | After any history of events, the key a rule looks at holds exactly what that rule's own past uses left there. |
| `Firing.FiredIff` | backend/app/detection/engine.py:85-87 | The engine reports a rule for the last event exactly when that rule's verdict on its own key is a detection. |
| `Firing.FiresOnHistory` | backend/app/detection/engine.py:74-96 | For on-time histories whose last use is the latest, the verdict drawn from the trimmed, expiring set equals the verdict of a plain pass over the whole history. |
| `Firing.FiresInAnyOrder` | backend/app/detection/engine.py:74-96 | In any order of stamps, a rule fires exactly when its verdict on the surviving additions of its window is a detection. |
| `Firing.LooksAt` | backend/app/detection/rules/port_scan.py:9-35 | Which events each rule looks at, by event type and fields: a scan, say, is any of four network events with an address and a port. |
| `Firing.BruteForceFires` | backend/app/detection/rules/brute_force.py:30-52 | For every last event, RULE-001 fires exactly when it is enabled, the event is a failed or successful login with an address, and the naive count of the address's failures inside the window reaches the threshold. |
| `Firing.BruteForceFiresInAnyOrder` | backend/app/detection/rules/brute_force.py:30-52 | In any order of stamps, RULE-001 fires exactly when the surviving failures of the address reach the threshold. |
| `Firing.PasswordSprayFires` | backend/app/detection/rules/password_spray.py:29-43 | For every last event, RULE-002 fires exactly when it is enabled, the event is a failed login with an address and a name, and the naive set of distinct lower-cased accounts, each taken up to its first separator, reaches the threshold. |
| `Firing.PasswordSprayAgainstNames` | backend/app/detection/rules/password_spray.py:29-43 | So it never fires on fewer distinct accounts than the threshold, and misses none when no name holds a separator. |
| `Firing.SeparatorHidesNames` | backend/app/detection/windows.py:20-28 | Two names that differ only after a separator are counted as one, and a threshold of two is missed. |
| `Firing.InnerSeparators` | backend/app/detection/windows.py:20-28 | Two such names. |
| `Firing.PortScanFires` | backend/app/detection/rules/port_scan.py:37-51 | For every last event, RULE-003 fires exactly when it is enabled, the event is a connection attempt, denied or allowed by the firewall, or a network flow, with an address and a port, and the naive set of distinct ports tried by such events reaches the threshold. |
| `Firing.DataExfiltrationFires` | backend/app/detection/rules/data_exfiltration.py:37-53 | For every last event, RULE-006 fires exactly when it is enabled, the event is a flow, an allowed connection or a web request that sends bytes from an address, and the naive byte sum of the source and destination pair reaches a threshold other than zero. |
| `Firing.AuthAnomalyFires` | backend/app/detection/rules/auth_anomaly.py:37-58 | For every last event, RULE-007 fires exactly when it is enabled, the event is a successful login to an account from an address, and enough distinct addresses, each taken up to its first separator, logged in to that account. |
| `Firing.WholeAddresses` | backend/app/detection/windows.py:20-28 | Addresses free of the separator are told apart as they are. |
| `Reporting.Reported` | backend/app/detection/engine.py:74-96 | A rule that fires on the last event makes exactly one detection, its verdict on the plain pass over the history. |
| `Reporting.BruteForceReports` | backend/app/detection/rules/brute_force.py:54-90 | RULE-001's detection says the naive count, the accounts that failed, in order, a key made of the address, its confidence with bounds and cap, and a breach, critical, exactly on a success. |
| `Reporting.PasswordSprayReports` | backend/app/detection/rules/password_spray.py:44-72 | RULE-002's says the naive number of attempts, the 25 smallest of the distinct accounts, a key of its own made of the address, and its confidence. |
| `Reporting.PortScanReports` | backend/app/detection/rules/port_scan.py:52-87 | RULE-003's says the naive number of attempts and of distinct ports, a key of its own made of the address, the host tried, and its confidence. |
| `Reporting.DataExfiltrationReports` | backend/app/detection/rules/data_exfiltration.py:54-87 | RULE-006's says the naive byte sum, is high exactly from three thresholds on, and has a key of its own made of the address. |
| `Reporting.AuthAnomalyReports` | backend/app/detection/rules/auth_anomaly.py:59-87 | RULE-007's says the 20 smallest of the distinct addresses, is high exactly from two beyond the threshold on, and has a key made of the lower-cased account. |
| `Reporting.KeyTellsSubject` | backend/app/detection/rules/port_scan.py:53-66 | Two detections of a rule share a correlation key, and so an alert, exactly when they are about the same address, or account. |
| `Correlation.Alert.constructor` | backend/app/detection/correlation.py:34-60 | A new alert object has the columns a first detection gives it, lists capped. |
| `Correlation.Alert.FoldIn` | backend/app/detection/correlation.py:71-97 | Folding in place, column by column, gives the specified row. |
| `Correlation.Alert.AddEvidence` | backend/app/detection/correlation.py:87-91 | The evidence loop appends each item that is not there yet and keeps the last 25. |
| `Correlation.FirstAndLast` | backend/app/detection/correlation.py:34-72 | After any series of detections the alert was first seen at the first and last seen at the last, and keeps the first one's rule, key, address and host. |
| `Correlation.ConfidenceIsGreatest` | backend/app/detection/correlation.py:74 | Confidence is the greatest ever reported. |
| `Correlation.ScoreIsGreatest` | backend/app/detection/correlation.py:96-97 | So is the anomaly score, none exactly when none was reported; once scores are compared zero is the floor. |
| `Correlation.MetadataIsLatest` | backend/app/detection/correlation.py:93-95 | Each metadata key carries the value of the last detection that had it. |
| `Correlation.EventCountIsLargestClaim` | backend/app/detection/correlation.py:47-73 | After any series of detections the event count is the largest of their claims, a hint plus one per later detection, and at least their number. |
| `Correlation.WorstAndFirst` | backend/app/detection/correlation.py:75-78 | Severity is the worst ever reported; title and description are those of the first detection that reported it. |
| `Correlation.UsersAreSmallest` | backend/app/detection/correlation.py:80-82 | Capping at every fold loses nothing: the stored users are the 50 smallest of all users ever reported. |
| `Correlation.HostsAreSmallest` | backend/app/detection/correlation.py:83-86 | The stored hosts are the 50 smallest nonempty ones ever reported. |
| `Correlation.UsersOrderIndependent` | backend/app/detection/correlation.py:80-82 | Two series that report the same users end with the same list, whatever their order. |
| `Correlation.EvidenceBounded` | backend/app/detection/correlation.py:87-91 | From single-item detections the evidence is duplicate-free, at most 25 long, and all of it was reported. |
| `Correlation.EvidenceIsLast` | backend/app/detection/correlation.py:87-91 | When all items differ, the evidence is exactly the last 25. |
| `Alerts.AlwaysUnique` | backend/app/models/alert.py:49-53 | In every reachable table, stale-read inserts and re-opens included, no two alerts of a (rule, key) share a status. |
| `Alerts.AtMostFive` | backend/app/models/alert.py:49-53 | Hence a key never has more than five alerts. |
| `Alerts.OneActiveIff` | backend/app/models/alert.py:49-53 | Whatever the step, one active alert per key is kept exactly when the step is not an accepted re-open, or an accepted stale insert, while another alert of the key is acknowledged or investigated. |
| `Alerts.AlwaysOneActiveIff` | backend/app/detection/correlation.py:32-61 | A run keeps one active alert per key throughout exactly when none of its steps is such a one. |
| `Alerts.AtMostThree` | backend/app/detection/correlation.py:32-61 | Then a key has at most one active alert and at most three in all, stale folds and harmless stale inserts included. |
| `Alerts.ReopenBreaksIff` | backend/app/services/alerts.py:38-39 | An accepted re-open leaves one active alert per key exactly when no other alert of the key is acknowledged or investigated. |
| `Alerts.ReopenYieldsTwoActive` | backend/app/services/alerts.py:38-39 | A five-step run that ends with two active alerts for one key. |
| `Alerts.StaleInsertYieldsTwoActive` | backend/app/detection/correlation.py:32-61 | A three-step run in which an insert decided on a stale read does the same. |
| `Alerts.SecondResolutionRefused` | backend/app/models/alert.py:50-53 | After resolve and re-fire, resolving the second alert violates the constraint and changes nothing. |
| `Alerts.HistoryIsAuditTail` | backend/app/services/alerts.py:62-87 | Over any interleaving of folds and triage, an alert's status history is exactly the last 25 of its audit records, which form a chain of legal changes from open to the current status. |
| `Alerts.AuditIsChanges` | backend/app/services/alerts.py:62-86 | The audit trail of a run holds one record for each request that changed a status, and nothing else. |
| `Alerts.AlertsOnlyGrow` | backend/app/detection/correlation.py:72-97 | Over any run, triage and stale reads included, no alert disappears, loses its origin, or goes down in event count, severity, confidence or anomaly score. |
| `Alerts.AlertStore.GetOpenByKey` | backend/app/storage/repositories.py:231-239 | Finds an active alert of the rule and key exactly when there is one. |
| `Alerts.AlertStore.Add` | backend/app/storage/repositories.py:244-247 | Appends the alert, with a new id, and touches no other. |
| `Alerts.AlertStore.Correlate` | backend/app/detection/correlation.py:29-97 | Creates exactly when no active alert of the key exists, folds in place otherwise; the table is the specified one. |
| `Alerts.AlertStore.Violates` | backend/app/models/alert.py:53 | True exactly when another alert of the key already has that status. |
| `Alerts.AlertStore.UpdateStatus` | backend/app/services/alerts.py:47-91 | The outcomes of a triage request and the table each leaves; the table changes exactly when the status does. |
| `Alerts.LegalMoves` | backend/app/services/alerts.py:18-39 | A change of status is legal exactly from an active status, or to open. |
| `Alerts.OutcomeOf` | backend/app/services/alerts.py:47-91 | A request for an alert there is: unchanged when it has that status, invalid when it is closed and the target another than open, in conflict when another alert of its key has that status, and changed otherwise. |
| `Alerts.WhatChanges` | backend/app/services/alerts.py:66-86 | A change gives the one alert the status asked for, touches only the status history of its metadata, adds one audit record with the status before and after, and leaves everything else. |
| `Alerts.NotFoundIff` | backend/app/services/alerts.py:47-60 | Not found exactly when no alert has the id. |
| `Monitoring.DetectionsWellFormed` | backend/app/detection/engine.py:74-96 | Every detection of the five rules has one item of evidence, users in order and once each, and no status history of its own. |
| `Monitoring.AlwaysSound` | backend/app/services/alerts.py:62-87 | Over any run of events and triage requests: histories are audit tails, statuses are unique per key, evidence and user lists keep bound, order and distinctness. No condition on the detections is left. |
| `Monitoring.OneActiveUnlessReopened` | backend/app/detection/correlation.py:32-34 | ... and no key ever has two active alerts exactly when no request re-opens one while another of its key is in hand; events never double one. |
| `Batching.EvaluateThenCorrelate` | backend/app/streaming/pipeline.py:106-138 | Evaluating all events of a batch before correlating any gives the windows and alerts of correlating after each event. |
| `Batching.BatchingTransparent` | backend/app/streaming/pipeline.py:68-138 | Every way of cutting a stream into batches of which none repeats an id that is new to it yields the stored rows, windows, detection sequence and alerts of one event at a time; ids seen before may repeat anywhere. |
| `Batching.EvaluatedOnceIff` | backend/app/streaming/pipeline.py:88-104 | Every id is evaluated at most once if and only if no batch repeats an id that is new to it. |
| `Batching.StoredRows` | backend/app/storage/repositories.py:61-73 | The event table after any failure-free stream is the table of its first occurrences, and the seen-id set is its key set. |
| `Batching.FirstWriteWins` | backend/app/storage/repositories.py:66-71 | The row under an id is the first event that carried it. |
| `Burst.AttackRaisesOneAlert` | backend/app/detection/rules/brute_force.py:43-83 | N failures of one address in order within one window, with no active alert before: exactly one new active alert, with event count exactly N, once N reaches the threshold, and none before; other events may mix in. |
| `Burst.CountNeverInflated` | backend/app/detection/correlation.py:73 | In any run of events and triage requests no RULE-001 alert counts more than the logins processed from its address. |
| `Burst.RepeatedIdInBatch` | backend/app/streaming/pipeline.py:88-104 | The condition of BatchingTransparent is needed: threshold-many copies of one failure in one batch raise an alert with that count, copy by copy none. |
| `Processing.Pipeline.Validate` | backend/app/streaming/pipeline.py:72-83 | Counts every raw event as ingested and every rejected one as invalid, and keeps the valid ones in order. |
| `Processing.ValidInOrder` | backend/app/streaming/pipeline.py:72-83 | Validating two stretches of raw events one after the other gives the valid events of both, in order. |
| `Processing.Pipeline.Unseen` | backend/app/streaming/pipeline.py:88-93 | Keeps exactly the events whose id is not in the seen set when the batch starts. |
| `Processing.Pipeline.BulkInsert` | backend/app/storage/repositories.py:61-73 | Inserts what is not there yet and returns the growth of the table. |
| `Processing.Pipeline.Correlate` | backend/app/streaming/pipeline.py:126-138 | Correlates a batch's detections in order; the created count grows with the alerts table, the correlated count by the rest. |
| `Processing.Pipeline.ProcessBatch` | backend/app/streaming/pipeline.py:68-153 | The new state is the specified batch step, and conservation holds again: ingested = invalid + duplicate + absorbed, persisted = growth of the table, created = alerts in the table, created + correlated = detections, across all five-second reports. |
| `Processing.MinuteCounts` | backend/app/streaming/pipeline.py:166-176 | A minute's totals are the number of its events, of its failed logins, database errors and firewall denials, and the bytes its events sent. |
| `Processing.MinuteNames` | backend/app/streaming/pipeline.py:175-176 | ... and exactly the addresses they name. |
| `Processing.Pipeline.ReportIfDue` | backend/app/streaming/pipeline.py:178-223 | A window of five seconds or more is reported and a new one begins at zero; a shorter one goes on. Nothing is counted twice or lost. |
| `Processing.MinuteMeter.Update` | backend/app/streaming/pipeline.py:163-230 | A batch counts towards the open minute even when the clock has left it, and then that minute is flushed; every event is in exactly one minute, and a flush carries exactly its minute's totals. |
| `Delivery.NextInv` | backend/app/streaming/pipeline.py:88-138 | Every step (fetch, check, mark, persist, publish, commit, caught exception, crash and restart, expiry) keeps the account of which records are dealt with. |
| `Delivery.CommittedIsAccountedFor` | backend/app/streaming/pipeline.py:3-7 | The same account in terms of what the run has recorded: stored, in a batch given up, filtered with its id orphaned, or skipped. |
| `Delivery.MissingIff` | backend/app/streaming/pipeline.py:3-7 | Exactly when "committed" does not mean "stored": over every run, an event below the committed offset whose id no other record carries is missing if and only if a start without a committed offset skipped it, or the worker passed it by unstored, in a batch that failed before its database commit or by filtering it as seen, and committed an offset before it restarted. |
| `Delivery.OnlyEscapes` | backend/app/worker.py:78-89 | The direction that needs no unique id: whatever is missing below the committed offset was missed in one of these ways. |
| `Delivery.FilterNeedsOrphan` | backend/app/streaming/pipeline.py:101-117 | An unstored event is filtered as seen only after an earlier batch, broken off between SADD and the database commit, had marked its id. |
| `Delivery.HarmlessRunStoresAll` | backend/app/streaming/pipeline.py:3-7 | In runs without those events, "committed" does mean "stored". |
| `Delivery.GivenUpIsLost` | backend/app/worker.py:81-89 | The other direction, for a failed batch: a commit before the next restart, and the event is never stored, whatever the rest of the run does. |
| `Delivery.RestartReadsAgain` | backend/app/worker.py:81-89 | After such a failure a restart before the next commit puts the position back at or before the event. |
| `Delivery.FilteredIsLost` | backend/app/streaming/pipeline.py:88-104 | ... for an event filtered as seen though not stored. |
| `Delivery.SkippedIsLost` | backend/app/streaming/kafka.py:113 | ... and for what a start without a committed offset skips, commit or not. |
| `Delivery.FirstWriteStays` | backend/app/storage/repositories.py:66-71 | A stored row keeps its first value for good, through every failure and redelivery. |
| `Delivery.RowsAreRecords` | backend/app/streaming/pipeline.py:117-123 | Every row is a record of the log under that record's own id. |
| `Delivery.FailureThenCommitLoses` | backend/app/worker.py:81-89 | From any idle, caught-up state: an exception before the database commit and the next batch's commit lose an event. |
| `Delivery.CrashAfterMarkLoses` | backend/app/streaming/pipeline.py:101-117 | From any idle state with an unread event: a crash between SADD and the transaction, and the redelivery commits the event without storing it. |
| `Delivery.RestartWithoutOffsetLoses` | backend/app/streaming/kafka.py:113 | A restart before the first commit begins at the end of the log and skips what is there. |
| `Delivery.NamelessStoredTwice` | backend/app/schemas/event.py:224-228 | An event without an id, redelivered after a crash past the database commit, is stored under two ids. |
| `Delivery.NamelessCount` | backend/app/schemas/event.py:224-228 | Exactly how often that happens: over every run, an event without an id has as many rows as batches that hold it reach their database commit. |
| `Delivery.DuplicatedIff` | backend/app/storage/repositories.py:61-73 | So it is stored more than once if and only if two such batches do. |
| `Worker.Consumer.Poll` | backend/app/streaming/kafka.py:126-149 | Advances the position past the records taken and hands on those that decode, if any. |
| `Worker.Consumer.ProcessBatch` | backend/app/streaming/pipeline.py:68-138 | Filter, mark and store in that order, broken off by an exception at any point, follow the protocol. |
| `Worker.Consumer.Turn` | backend/app/worker.py:78-89 | One turn of the loop is the protocol's turn; the consumed count grows by the batch only when the commit went through. |
| `Worker.Consumer.Work` | backend/app/worker.py:78-89 | Whatever arrives and wherever exceptions strike, the loop keeps the account of committed events; if none strikes before a database commit, all are stored. |
| `Worker.Consumer.Restart` | backend/app/streaming/kafka.py:106-117 | Resumes at the committed offset, or at the end of the log without one. |
| `Worker.LateExceptionsCostNothing` | backend/app/worker.py:81-89 | Exceptions after the database commit lose nothing. |
| `Worker.LagFollows` | backend/app/streaming/kafka.py:155-171 | The lag falls by the number of records read and rises by the number that arrive. |
| `Worker.Lag` | backend/app/streaming/kafka.py:155-171 | The loop's total; zero exactly when every partition has been read to its reported end, none without partitions or end offsets. |
| `Reprocessing.CleanTurnIsBatch` | backend/app/worker.py:81-84 | A clean turn of the worker over events with ids of their own leaves the rows and seen set that the batch loop leaves. |
| `Reprocessing.CleanRunIsBatches` | backend/app/worker.py:78-89 | So does every clean run from the first start, and the batches it hands on are, in order, the records read. |
| `Reprocessing.CleanRunStoresFirsts` | backend/app/storage/repositories.py:61-73 | ... so its table is that of the first occurrences among the records read, and the seen set is its keys. |
| `Reprocessing.EvaluatedIsStoredAndWasted` | backend/app/streaming/pipeline.py:101-138 | Over every run, whatever fails: of the events of any kind, those evaluated are those stored and those evaluated to no effect, counted with repetitions. |
| `Reprocessing.ExcessIff` | backend/app/streaming/pipeline.py:106-123 | More are evaluated than stored exactly when some action broke off a batch after evaluating one, or stored one whose id was stored already. |
| `Reprocessing.FiringOverFailures` | backend/app/detection/rules/brute_force.py:43-52 | Over a failing run RULE-001 fires exactly when the failures stored in the window, together with those evaluated to no effect, reach the threshold. |
| `Reprocessing.EveryEvaluation` | backend/app/streaming/pipeline.py:106-113 | Every evaluation of a run is the r-th of a batch in hand, after all that was evaluated before that batch. |
| `Reprocessing.FiringInBatch` | backend/app/detection/rules/brute_force.py:43-52 | At every such evaluation RULE-001 fires exactly when the failures in the window, those stored, those evaluated to no effect and those of the batch so far, reach the threshold. |
| `Reprocessing.AlertCountsOverFailures` | backend/app/detection/correlation.py:47-73 | Over every run, whatever fails, a RULE-001 alert counts at most the address's logins stored and those evaluated to no effect. |
| `Anomaly.BlendIsMixture` | backend/app/detection/anomaly.py:85-88 | One update is the mean and variance of the mixture in which the new value weighs the step size and the old weights share the rest. |
| `Anomaly.AlwaysMixture` | backend/app/detection/anomaly.py:56-93 | After any series, with any data-dependent steps, the stored mean and variance are those of a nonnegative weighting of the observations that sums to 1. |
| `Anomaly.WithinObservations` | backend/app/detection/anomaly.py:56-93 | Hence min <= mean <= max and 0 <= var <= (max - mean)(mean - min). |
| `Anomaly.SpikeMovesMean` | backend/app/detection/anomaly.py:85-87 | With std >= 1e-9 one observation of any size moves the mean by at most alpha * max(1, T) * std. |
| `Anomaly.SpikeSwellsVariance` | backend/app/detection/anomaly.py:85-88 | ... and the new variance is at most var + alpha * max(1, T) * |z| * var. |
| `Anomaly.NoGuardWithoutSpread` | backend/app/detection/anomaly.py:64 | Below 1e-9 the guard does not act: for every bound some observation moves the mean further. |
| `Anomaly.StepTaken` | backend/app/detection/anomaly.py:82-88 | The exact step: alpha up to T deviations, and beyond them alpha divided by one more than the excess score. |
| `Anomaly.StepWithoutSpread` | backend/app/detection/anomaly.py:64-85 | Below 1e-9 the step is alpha, unless the threshold is negative. |
| `Anomaly.FlagsIff` | backend/app/detection/anomaly.py:64-66 | With std >= 1e-9 an observation is flagged exactly when enough came before it and it lies T deviations from the mean, above or below; without spread exactly when enough came and T <= 0. |
| `Anomaly.FlagsMirrored` | backend/app/detection/anomaly.py:64-66 | mean + d is flagged exactly when mean - d is. |
| `Anomaly.ScoreMeans` | backend/app/detection/anomaly.py:64-68 | The reported score times the deviation is the distance from the mean, so its sign tells above from below; zero without spread. |
| `Anomaly.ShiftInvariant` | backend/app/detection/anomaly.py:62-66 | Adding a constant to a whole series changes no flag decision. |
| `Anomaly.ConstantSeries` | backend/app/detection/anomaly.py:62-66 | A constant series is flagged exactly when the threshold is not positive and the minimum of samples has been seen. |
| `Anomaly.Detector.Observe` | backend/app/detection/anomaly.py:56-94 | Stores the updated baseline for this metric alone and reports exactly the flagged observations, with the figures in force before the update. |
| `Anomaly.Detector.Read` | backend/app/detection/anomaly.py:96-101 | Mean, standard deviation and count on record, zero without one; the count is that of all observations. |
| `Anomaly.KeptWithin` | backend/app/detection/anomaly.py:56-101 | What is stored keeps within whatever bounds the observations keep. |
| `RateLimit.CountersAreExact` | backend/app/core/security.py:64-70 | The 90-second time to live outlasts every window it serves: while a window lasts its counter is the number of requests that reached it. |
| `RateLimit.AdmittedIsCapped` | backend/app/core/security.py:64-71 | In each minute window a client gets through exactly its first requests up to the limit. |
| `RateLimit.AtMostTwiceTheLimit` | backend/app/core/security.py:61-82 | In no sixty seconds does the store admit more than twice the limit for a client. |
| `RateLimit.AtMostTwiceTheLimitAndFailures` | backend/app/core/security.py:61-82 | With the store failing now and then, no more get through than that and one for each failure. |
| `RateLimit.TwiceTheLimitHappens` | backend/app/core/security.py:64-71 | For every limit a run reaches that bound within a microsecond. |
| `RateLimit.Limiter.Dispatch` | backend/app/core/security.py:61-82 | A request passes exactly when fewer than limit came before it in its window, or the limiter is open for it. |
| `Simulator.FirstTicks` | simulator/simulator/engine.py:172-174 | The first n ticks budget rate * (n / 10) + (rate / 10) * (n % 10) + min(n % 10, rate % 10). |
| `Simulator.TenTicksAreASecond` | simulator/simulator/engine.py:172-174 | Any ten consecutive ticks budget exactly the rate. |
| `Simulator.PacingIsEven` | simulator/simulator/engine.py:172-174 | Any n consecutive ticks stay within two and a half events of n tenths of the rate. |
| `Simulator.PacingIsNoCloser` | simulator/simulator/engine.py:172-174 | That distance is reached. |
| `Simulator.Engine.EmitTick` | simulator/simulator/engine.py:141-153 | Sends queued attacks first and ordinary events after them, up to the budget or the first failed send, whose event is gone. |
| `Simulator.Engine.MaybeLaunch` | simulator/simulator/engine.py:126-139 | A mixed scenario queues whenever launched, a dedicated one only into an empty queue. |
| `Simulator.Engine.Run` | simulator/simulator/engine.py:155-176 | The loop sends each tick's budget, ten times the rate during a burst and nothing while paused, up to the tick's first failure; at a constant rate that is the sum of the budgets. Launched attacks are taken in order, each once. |
| `Realtime.Provider.SetPaused` | frontend/src/realtime/RealtimeProvider.tsx:57-63 | Resuming shows the 250 newest events since the last clear, as if there had been no pause; or, when the update runs late, loses exactly the events held back. |
| `Realtime.LateResumeIff` | frontend/src/realtime/RealtimeProvider.tsx:57-63 | A late update shows the right list if and only if nothing was held. |
| `Realtime.Provider.OnEvent` | frontend/src/realtime/RealtimeProvider.tsx:104-111 | The event is the newest since the last clear; it is put before the list, or before the buffer while paused, and the other stays. |
| `Realtime.Provider.ClearEvents` | frontend/src/realtime/RealtimeProvider.tsx:65-68 | Forgets shown and held events alike. |
| `Realtime.Provider.OnAlert` | frontend/src/realtime/RealtimeProvider.tsx:112-117 | The alert comes first, and the list stays the first 80 of the unbounded one. |
| `Realtime.CutEveryTime` | frontend/src/realtime/RealtimeProvider.tsx:115-117 | Cutting to 80 after every message shows the same as cutting an unbounded move-to-front list now. |
| `Realtime.UnboundedIsByRecency` | frontend/src/realtime/RealtimeProvider.tsx:115-117 | The unbounded list is the latest message of every alert, by recency. |
| `Realtime.Provider.WhatIsShown` | frontend/src/realtime/RealtimeProvider.tsx:57-117 | Whatever was paused, resumed and cleared, an unpaused list is the newest 250, unless a late update lost some; ids are distinct; an alert's latest message is listed unless the list is full. |

## Left out

- The rules for privilege escalation and suspicious SQL: pattern matching on one event without state.
- The learning-based detector, analytics and reporting queries, authentication, producers, retries and logging.
- Validation of raw events: its result, a valid event or none, is an input; so is the derivation of an id, except whether it is stable.
- Publishing to the console and its cap of 100 events per batch; the shape of the metrics payload.
- Standalone alerts from the per-minute baseline: the flush of a minute's totals is modelled, what is then made of them is not.
- `Rules.DetectionEngine.EvaluatePortScan`: the sample of ports in the metadata, 30 of an unordered set, and the rate in the text are absent.
- `Worker.Consumer.ProcessBatch`: windows and alerts are absent; `Processing.Pipeline.ProcessBatch` has them for batches without failures, `Reprocessing` the evaluations of failing runs, event by event.
- `Anomaly.Detector.Observe`: the anomaly score, an exponential of the excess over the threshold, and the rounding of the reported figures are absent.
- Texts: a description is the list of values put into it, an item of evidence lists the parts of its summary, and no lemma says which values; recommended actions, detection kinds and rounding for display are absent.
- Time stamps of status changes in history and audit, notes and request ids.
- Where a rule's thresholds and windows come from: they are inputs.
- Lower-casing is modelled for ASCII letters only.
- Collisions of random tokens and generated ids.
- Several partitions or workers on one log: `Delivery` has one of each. Two workers appear in `Alerts`, as reads gone stale before an insert or a fold.
- Concurrent lost updates on one alert row: each fold and each triage change is atomic.
- Which alert the query returns when two are active: the model takes the first; uniqueness and history are proved for any (`StaleFold`).
- Connection failures inside a window operation: it happens or it does not.
- Negative window lengths. The results against naive counts need a window longer than zero, as a window of zero still holds the entry just added.
- The alerts of failing runs: a detection of a batch that is not stored leaves none, and its window entries stay, which `Reprocessing` counts.
- Floating point: arithmetic is over the reals, and a standard deviation is any nonnegative root of the variance.
- The seven-day life of a stored baseline is an operation of its own, called or not.
- Burst timing and the reading of controls from the store in the simulator: each tick's controls are inputs.
- Sockets, reconnection and rendering in the console.
