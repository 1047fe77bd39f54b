# Models of the APEX desktop and MCP safety layers

APEX is a digital-forensics tool. Around its engine it has stateful layers that must hold under
concurrency, failing disks and restarts: a background task manager with a crash journal, an HTTP
rate limiter, a call budget, a store of human confirmations with limited uses, a gate on scopes and
roles, a cache of public keys, and a settings file that is replaced in place. It also has a few exact
text and number codecs. This project models these parts and proves what they keep over every run, and
for the codecs that what is printed is read back.

`dafny verify dfyconfig.toml` checks everything. Each subject is one module or a small group:

| files | subject |
|---|---|
| `Json.dfy`, `Tables.dfy`, `Totals.dfy`, `Texts.dfy` | options, JSON values, ordered dictionaries, counting, Python's string operations |
| `Receipts.dfy` | the receipt projection of a task record and its recovery at the next start |
| `TaskSteps.dfy`, `TaskLaws.dfy`, `TaskRuns.dfy`, `TaskJournal.dfy`, `TaskOutcomes.dfy`, `TaskFaults.dfy`, `TaskWitness.dfy`, `Tasks.dfy` | the task manager: its locked steps, its invariant, theorems over runs, what the journal holds of a finished task, what each step does to a record and what a task comes to, values that stop it, runs that reach the bounds, and the object itself |
| `RateLimiter.dfy`, `Budget.dfy`, `KeyCache.dfy` | the rate limiter, the tool budget, the cache of public keys |
| `Confirmation.dfy`, `DbConfirmation.dfy`, `ToolRegistry.dfy` | confirmation grants in memory and in a database, and the registry that spends them |
| `FrontendGate.dfy` | the gate on cases, scopes and roles |
| `Settings.dfy` | publication of the machine settings file |
| `Base64Url.dfy`, `JsonPointer.dfy`, `XPathLiteral.dfy`, `Redaction.dfy` | the codecs |

The code is modelled in two layers wherever it changes state. A class has the source's fields and
methods, loops included, one method for each block that runs under a lock. A state machine has one
step for each such block and interleaves them freely; its theorems are about every run. The methods
are proved to do to the object's state what the steps say. For the confirmations, the call as a
whole, and for the settings file a save as a whole, is shown to be one of the machine's runs
(`ToolCalls.CallIsRun`, `SettingsFiles.SaveIsRun`).

## What was found

Some promises fail in a corner. Each is stated with its exact condition.

- **A cancel between publishing and closing leaks a queue slot.** `worker` publishes the outcome in
  one locked block and removes the token in another. A cancel that falls between them puts the status
  back to CANCELLING; nothing ever changes it again until a restart (`TaskRuns.GapCancelLeaks`). The
  queue bound over all interleavings is therefore 17 and not 16 (`TaskRuns.QueueTheorem`), 17 is
  reached (`TaskWitness.SeventeenReached`), and without such cancels it is 16: from a queue within its
  limit, such a cancel of a full queue is the only step that leaves it (`TaskLaws.StepKeeps`). None of
  this needs any assumption on the statuses that the engine reports.
- **A raising `services.close()` removes the bound.** It skips the closing block: the token and the
  offered CANCEL stay, nothing is saved, and the worker moves on. Any number of tasks can be left
  behind so and then be cancelled back into the queue (`TaskWitness.AnyNumberReached`). What holds is
  17 besides the tasks left behind.
- **A value that is no JSON blocks the manager without a word.** Only `OSError` is caught around the
  closing save. A closing save is missed, unmarked, exactly when some record in memory cannot be
  written, whoever's it is (`TaskJournal.FinaliseExact`). The promise that a finished task without
  `receipt_error` is in the journal with what it came to then fails, except for a task about which
  there is nothing to tell beyond its admission (`TaskJournal.ClosingExact`); a run in which it fails
  for the offending task and for a clean one after it is `TaskWitness.MissedReached`. In runs whose
  reported values can all be printed it never fails (`TaskJournal.PrintableTheorem`). Once a finished
  record holds such a value no save succeeds and no task is admitted until the process ends
  (`TaskFaults.UnwritableHalts`).
- **A status that is not a non-blank text costs the next start its history.** The status of a reported
  job is taken over as it is and saved, but a start accepts no journal with such a record
  (`TaskRuns.WrittenReadable`, `TaskJournal.RestartTheorem`); a run gets there
  (`TaskWitness.HistoryLost`).
- **A recovered record whose kind is a list or an object halts the manager.** Every save raises
  `TypeError`; until the next start nothing changes at all and no task is admitted
  (`TaskFaults.UnhashableKindHalts`), although the journal was loaded without complaint
  (`TaskFaults.UnhashableKindLoads`). When a task is admitted is stated exactly in
  `TaskFaults.StartExact`.
- **Load, save, load equals load** exactly when every loaded record holds no more than a receipt does
  (`Receipts.LoadSaveLoad`). Journals written by the code itself are always stable
  (`Receipts.SaveLoadStable`), and stay journals of receipts over restarts (`TaskRuns.JournalTheorem`).
- **`Retry-After` can undershoot the wait** by less than a millisecond, exactly when the wait exceeds
  a whole number of seconds, at least one, by less than that (`RateLimiter.HeaderTells`).
- **A budget whose window is not positive has no limits**, and its constructor accepts one. Exactly
  when each bound holds is stated in `Budget.WindowsHoldIff`, `Budget.IntervalsHoldIff` and
  `Budget.PagesHoldIff`.
- **A later grant hides an earlier one.** The in-memory frontend provider looks up only the identifier
  published last for a tuple, so uses left on an earlier grant for the same tuple are out of reach
  (`Confirmations.LookUpDecides`; runs in which a call is refused for that reason alone are in
  `Confirmations.UsesHidden`). The database provider scans and has no such effect
  (`DbConfirmations.ConfirmationFor`).
- **A confirmation is spent before the payload is checked.** An approved call whose payload the context
  bridge then refuses has used up its grant and never reaches the engine; the count is therefore
  `invocations <= approvals == uses` (`Confirmations.SpendingTheorem`).
- **Two role lists are partly dead.** With per-case roles the later test on roles never refuses anything
  (`FrontendGate.AbleExact`): only ADMIN can read raw views although the list for it also names ANALYST
  and APPROVER, and EXPORTER cannot use an export tool that mutates state or needs confirmation.
- **An empty `case_roles` claim switches the gate to the session's roles**, so that dropping a role in
  another case can turn a refusal into an admission (`FrontendGate.DroppingAnotherCaseAdmits`, exactly
  when in `FrontendGate.LosingTheClaim`). Sessions built from claims never get there
  (`FrontendGate.ClaimsNeverFallBack`).
- **The cooldown on unknown key identifiers ends where the cache is stale.** While the key server fails
  and the cache is out of date, every request goes to it (`KeyCache.OutageFetchesEveryTime`), although
  the comment on the cooldown says that crafted tokens cannot hammer it. Within the cooldown a request
  fetches exactly when the cache is stale (`KeyCache.CooldownExact`).
- **Names that occur in the mark survive redaction.** For names without angle brackets, no name is ever
  left in a redacted text if and only if none of them is part of "<env-name>"
  (`Redaction.NoNameSurvivesIff`). With angle brackets a name is safe when it cannot overlap a mark at
  all (`Redaction.TextTheorem`). Keys of captured JSON are not redacted at all
  (`Redaction.JsonTheorem`).
- **A reset under a taken backup name** loses a content exactly when that name was its last place
  (`SettingsFiles.ResetKeepsIff`).

One property is of the task manager alone and cannot be met by its caller in this repository: `start`
does not test the case id, and a blank one would cost the next start its history
(`TaskRuns.BlankCaseLosesHistory`); the only caller looks every case id up first
(src/apex_desktop/operations.py:115-117). A written journal is readable exactly when every id, case id
and status in it is a non-blank text (`TaskRuns.WrittenReadable`).

## Assumptions

- Task and grant identifiers from `uuid4` are fresh; digests used as bucket keys differ from
  "overflow"; writing a file and renaming it over another is atomic and may fail.
- Clocks are real numbers that never go back. The limiter's window is positive, as its configuration
  check enforces.
- A conditional update and its commit are one atomic step that sees the latest committed row. Rows of the
  grants table are only ever inserted, unused, under fresh identifiers.
- The gate for confirmations and the frontend provider are one object, as `server.py` wires them when
  no other confirmation provider is given.
- The sequence of settings changes has no writer other than this process.

## Model

| member | source | states |
|---|---|---|
| Tables.PopPut | src/apex_desktop/tasks.py:221-231 | taking back a failed admission restores the dictionary of records, order included |
| Receipts.ProjectIdempotent | src/apex_desktop/tasks.py:129-173 | projecting a receipt again changes nothing, the summary and `candidate_count` included |
| Receipts.ProjectFixesReceipts | src/apex_desktop/tasks.py:129-173 | the projection leaves a record alone exactly when it has no receipt error and at most a summary of a derived output |
| Receipts.ProjectTells | src/apex_desktop/tasks.py:129-173 | the receipt of a record key by key: the result goes unless the task is one of the five derived kinds and its result a dictionary, of which the kept keys stay with their values and a list of candidates is counted; the receipt error goes; everything else stays |
| Receipts.UnprintableAnywhere | src/apex_desktop/tasks.py:174-180 | a value that is no JSON keeps a receipt from being printed under whatever key it stands |
| Receipts.RecoverStable | src/apex_desktop/tasks.py:115-122 | recovery is stable and leaves no task queued, running or cancelling |
| Receipts.RecoverTells | src/apex_desktop/tasks.py:115-122 | recovery key by key: the status becomes INTERRUPTED if it was QUEUED, RUNNING or CANCELLING and otherwise stays; kind, job and error stay or get their defaults; the actions go; everything else stays |
| Receipts.LoadTells | src/apex_desktop/tasks.py:115-122 | the last element with an id is what is loaded for it, recovered |
| Receipts.ProjectRecoverCommute | src/apex_desktop/tasks.py:115-173 | recovering a receipt gives the receipt of the recovered record |
| Receipts.LoadSaved | src/apex_desktop/tasks.py:115-182 | a save and a load give every record back, projected and recovered, under its id and in the same order |
| Receipts.LoadSaveLoad | src/apex_desktop/tasks.py:115-182 | for every list of records: load, save, load equals load if and only if every loaded record is a receipt |
| Receipts.SaveLoadStable | src/apex_desktop/tasks.py:115-182 | after one save, any further save and load change nothing |
| TaskLaws.BootInv | src/apex_desktop/tasks.py:65-122 | whatever the journal file holds and whatever becomes of a damaged one, a start establishes the invariant |
| TaskOutcomes.ReadableTells | src/apex_desktop/tasks.py:80-96 | a file is accepted if and only if it is a list of dictionaries whose id, case id and status are texts with something in them |
| TaskOutcomes.BootTells | src/apex_desktop/tasks.py:65-113 | a start without a file or with one that it does not accept comes up empty; the latter is set aside if possible and reported |
| TaskOutcomes.BootLoads | src/apex_desktop/tasks.py:115-122 | from a file that it accepts a start takes the last element of each id, recovered key by key |
| TaskOutcomes.BootLoadsOnly | src/apex_desktop/tasks.py:115-122 | and no other ids |
| TaskLaws.StepKeeps | src/apex_desktop/tasks.py:184-315 | every locked block, a failing close and every restart keep the whole invariant: filing, places in the pool, live tokens, journal, queue; and a queue within its limit leaves it if and only if it is full and a task that has left it is cancelled |
| TaskLaws.AdmittedKeeps | src/apex_desktop/tasks.py:211-231 | admission with its save keeps the invariant and at most 16 active tasks |
| TaskLaws.FinaliseKeeps | src/apex_desktop/tasks.py:270-282 | the closing block keeps the invariant whether or not its save succeeds |
| TaskRuns.JournalTheorem | src/apex_desktop/tasks.py:115-182 | in every reachable state, restarts included, the journal holds every task id in memory, and for a finished task that is not marked as unsaved and that no save has missed the entry recovers to the recovered projection of its record if and only if it is a receipt; always so when the first file was missing or held receipts, and once the present process has admitted a task |
| TaskJournal.PrintableTheorem | src/apex_desktop/tasks.py:115-282 | in every run, restarts included, from a file of receipts, where the file and what the engine reports can be printed, every finished task that is not marked as unsaved is in the journal with the recovered projection of its record |
| TaskJournal.FinaliseExact | src/apex_desktop/tasks.py:270-282 | a closing save is missed, and then saves nothing, if and only if some record cannot be written; the record is marked if and only if all can and the disk refuses; otherwise the task is in the journal with what it came to |
| TaskJournal.ClosingExact | src/apex_desktop/tasks.py:270-282 | in every reachable state: a task closed without a mark is in the journal with what it came to if and only if every record can be written, or its own can and tells nothing that its admission did not |
| TaskJournal.RestartTheorem | src/apex_desktop/tasks.py:87-122 | the next start gives such a task back under its id with its own status, job and error, key by key as its receipt recovered, if it accepts the journal, and comes up with no history at all if it does not |
| TaskWitness.MissedReached | src/apex_desktop/tasks.py:248-282 | a run from an empty journal ends with two finished tasks, neither marked as unsaved and neither in the journal with what it came to, although one of the two records can be written |
| TaskWitness.HistoryLost | src/apex_desktop/tasks.py:87-96 | a run from an empty journal saves a finished task in a journal that no start accepts |
| TaskRuns.WrittenReadable | src/apex_desktop/tasks.py:87-96 | a journal written by the code can be read back if and only if every record has non-blank id, case id and status |
| TaskRuns.BlankCaseLosesHistory | src/apex_desktop/tasks.py:195-231 | taken by itself, `start` with a blank case id makes the next start come up with an empty history |
| TaskRuns.QueueTheorem | src/apex_desktop/tasks.py:203-306 | in any run at most 17 tasks are active besides those left behind by a failing close, so 17 where none fails, and at most 16 where no task is cancelled after it has left the queue |
| TaskWitness.SeventeenReached | src/apex_desktop/tasks.py:203-306 | a run from an empty journal reaches 17 active tasks |
| TaskWitness.AnyNumberReached | src/apex_desktop/tasks.py:267-306 | where closing the services may raise, runs reach any number of active tasks |
| TaskRuns.CancelTheorem | src/apex_desktop/tasks.py:239-306 | a cancel accepted before the worker has looked at the token keeps `run` from ever being entered; one accepted before the outcome is published makes the published status CANCELLED |
| TaskRuns.OfferTheorem | src/apex_desktop/tasks.py:219-306 | in every reachable state a record that offers CANCEL has a live token |
| TaskRuns.FinalTheorem | src/apex_desktop/tasks.py:270-306 | once the token is gone every cancel is refused and the record never changes again, up to its receipt error |
| TaskRuns.GapCancelLeaks | src/apex_desktop/tasks.py:248-306 | a cancel of a task whose outcome is published, before its closing block or instead of it, takes a queue slot that the task keeps, as CANCELLING, until the process ends |
| TaskRuns.GapCancelHeals | src/apex_desktop/tasks.py:263-306 | when the publishing block raised, the next block of the worker gives the slot back |
| TaskFaults.StartExact | src/apex_desktop/tasks.py:202-231 | a task is admitted if and only if the disk takes the journal, fewer than sixteen tasks are active, and every record has a hashable status and kind and a receipt that can be written |
| TaskOutcomes.AdmissionTells | src/apex_desktop/tasks.py:211-231 | an admitted task waits, QUEUED and with an open token, offers its cancel exactly when asked for, changes no other record but for marks, and the journal then holds every record |
| TaskOutcomes.RefusalTells | src/apex_desktop/tasks.py:202-231 | for each reason of a refused admission exactly when it is the one that is met |
| TaskOutcomes.RefusesAlways | src/apex_desktop/tasks.py:211-306 | a task admitted without a cancel is never cancelled while the process lasts |
| TaskOutcomes.SubmitTells | src/apex_desktop/tasks.py:284-285 | a task reaches the pool behind all others |
| TaskOutcomes.WithdrawTells | src/apex_desktop/tasks.py:286-293 | a refused submit takes back record and token, and the receipt when the save succeeds |
| TaskOutcomes.BeginTells | src/apex_desktop/tasks.py:240-241 | the worker takes the head of the queue, which becomes RUNNING; nothing else changes |
| TaskOutcomes.LookTells | src/apex_desktop/tasks.py:242-247 | it goes on into `run` if and only if the token is open |
| TaskOutcomes.ProgressTells | src/apex_desktop/tasks.py:233-235 | a report changes only the job |
| TaskOutcomes.AcknowledgeTells | src/apex_desktop/tasks.py:242-245 | a task stopped by then is published as CANCELLED and nothing else of it changes |
| TaskOutcomes.FailureTells | src/apex_desktop/tasks.py:263-266 | an exception is published as FAILED if and only if the token is open, and otherwise as CANCELLED, with its cause as the error; no other field and no other record changes |
| TaskOutcomes.ReturnTells | src/apex_desktop/tasks.py:248-262 | publishing changes only result, job and status of its record; raising in it leaves the public error of an unexpected exception |
| TaskOutcomes.JobStatusTells | src/apex_desktop/tasks.py:251 | the status of a reported job: its own, or SUCCEEDED when there is none or it names none; an exception exactly for anything else |
| TaskOutcomes.PartialTells | src/apex_desktop/tasks.py:252-255 | a result is partial if and only if it is a dictionary that says so or denies to have covered everything |
| TaskOutcomes.CloseTells | src/apex_desktop/tasks.py:270-282 | the closing block takes token and offers, and marks the record when all can be written and the disk refuses; nothing else changes |
| TaskOutcomes.OutcomeStays | src/apex_desktop/tasks.py:248-306 | within the process the published status, and the record up to its offers, its mark and the status of a late cancel, stay whatever happens |
| TaskOutcomes.FailureTheorem | src/apex_desktop/tasks.py:263-306 | however the process goes on, a task whose `run` raised is published as FAILED, or CANCELLED exactly when its token was stopped, and keeps its cause and its job |
| TaskOutcomes.ReturnTheorem | src/apex_desktop/tasks.py:248-306 | however it goes on, a task whose `run` returned keeps its result and is published as CANCELLED exactly when stopped by then, and otherwise with the status of the last job in its list, PARTIAL, or the reported job's status |
| TaskOutcomes.CancelTells | src/apex_desktop/tasks.py:297-306 | a cancel is accepted if and only if the record is of that case, offers it and has a token; it stops the token and sets CANCELLING, and a refused one does nothing |
| TaskOutcomes.ListingTells | src/apex_desktop/tasks.py:184-193 | a listing shows the records of the case in their order, all or the last hundred |
| TaskOutcomes.RetryTells | src/apex_desktop/tasks.py:184-191 | a listing saves if and only if it is asked to retry and a record of the case says that it is unsaved; after a save every record is in the journal and none is marked |
| TaskOutcomes.StopTells | src/apex_desktop/tasks.py:308-310 | closing the application stops tokens and changes nothing else |
| TaskOutcomes.CloseSaveTells | src/apex_desktop/tasks.py:312-315 | it then saves if and only if some record says that it is unsaved |
| TaskFaults.UnhashableKindHalts | src/apex_desktop/tasks.py:128-137 | with a record of an unhashable kind, whatever is asked until the next start, nothing changes but the identifiers used up, and no task is admitted |
| TaskFaults.UnhashableKindLoads | src/apex_desktop/tasks.py:87-122 | a journal with such a record is loaded like any other |
| TaskFaults.UnwritableHalts | src/apex_desktop/tasks.py:174-180 | once a finished record holds a value that its receipt cannot take, no save succeeds and no task is admitted until the process ends |
| TaskRuns.ScanTells | src/apex_desktop/tasks.py:256-260 | the loop over a result list raises exactly when some job in it has no status, and otherwise the last job wins |
| TaskRuns.PublishTells | src/apex_desktop/tasks.py:248-262 | what is published: a cancel wins over everything, the last job of a result list over the reported job, an admitted gap over success; and exactly when publishing raises |
| TaskManager.Tasks.constructor | src/apex_desktop/tasks.py:65-122 | reading the journal gives the state that a restart step gives |
| TaskManager.Tasks.BuildReceipts | src/apex_desktop/tasks.py:127-173 | one receipt per record in order, or an exception exactly when some kind is unhashable |
| TaskManager.Tasks.Save | src/apex_desktop/tasks.py:124-182 | a save replaces the journal and clears all receipt errors, or fails in one of three ways and changes nothing |
| TaskManager.Tasks.CountActive | src/apex_desktop/tasks.py:203-209 | the sum is the number of active tasks, or an exception exactly when some status is unhashable |
| TaskManager.Tasks.Enrol | src/apex_desktop/tasks.py:221-231 | a failed admission leaves records, tokens and journal as they were |
| TaskManager.Tasks.Admit | src/apex_desktop/tasks.py:202-231 | `start` up to its release of the lock is one step and keeps the invariant |
| TaskManager.Tasks.SubmitRefused | src/apex_desktop/tasks.py:284-294 | a refused submit removes record, token and, when it can be written, the receipt |
| TaskManager.Tasks.BeginTask | src/apex_desktop/tasks.py:237-241 | the worker's first block is one step and keeps the invariant |
| TaskManager.Tasks.LookAtToken | src/apex_desktop/tasks.py:242-247 | the worker's look at its token, outside the lock, is one step |
| TaskManager.Tasks.ReportProgress | src/apex_desktop/tasks.py:233-235 | a progress report changes only the job of its record |
| TaskManager.Tasks.Publish | src/apex_desktop/tasks.py:248-262 | the publishing block is one step and keeps the invariant |
| TaskManager.Tasks.Fail | src/apex_desktop/tasks.py:263-266 | an exception is published as FAILED, or as CANCELLED when the token was cancelled |
| TaskManager.Tasks.FinishTask | src/apex_desktop/tasks.py:270-282 | the closing block is one step; a save that the disk refuses only marks the record, any other error leaves no mark |
| TaskManager.Tasks.LeaveStranded | src/apex_desktop/tasks.py:267-269 | a close that raises leaves the task with its token and its offered cancel |
| TaskManager.Tasks.Cancel | src/apex_desktop/tasks.py:297-306 | a cancel is accepted exactly for a record of that case that offers CANCEL and has a token; a refused one changes nothing |
| TaskManager.Tasks.ListRows | src/apex_desktop/tasks.py:184-193 | listing gives the last hundred records of the case in order and writes at most one save, only when asked to |
| TaskManager.Tasks.SaveOnClose | src/apex_desktop/tasks.py:308-315 | closing saves once when some receipt is unsaved |
| RateLimiter.SameDecisions | src/apex_mcp/http_transport.py:168-191 | for every sequence of requests in time order the pruned deques choose the same buckets and accept the same requests as a limiter that keeps its full log and counts the window |
| RateLimiter.WaitTells | src/apex_mcp/http_transport.py:186-192 | at every request of every sequence in time order, the positive wait by which the code answers 429 says exactly that the request is rejected, by the deques and by the full log alike |
| RateLimiter.DecisionTells | src/apex_mcp/http_transport.py:186-191 | in every sequence of requests in time order each one is accepted if and only if fewer than `max_requests` of the earlier ones accepted at its bucket lie within the window |
| RateLimiter.BucketTells | src/apex_mcp/http_transport.py:172-185 | each request goes to its client's own bucket unless that is not in use while 4096 others are live, and only then to the shared one; a sweep forgets exactly the buckets without a request in the window |
| RateLimiter.BoundedMemory | src/apex_mcp/http_transport.py:159-191 | never more than 4096 client buckets, 4097 in all, nor more than `max_requests` entries in one |
| RateLimiter.TwiceMax | src/apex_mcp/http_transport.py:177-191 | every window lets at most twice `max_requests` requests of one client through |
| RateLimiter.RetryTheorem | src/apex_mcp/http_transport.py:177-192 | in any sequence of requests in time order after a rejected request, a later request at the same bucket, with nothing accepted there in between whatever else happened, is accepted if and only if the wait that the first was told is over |
| RateLimiter.RetryExact | src/apex_mcp/http_transport.py:186-192 | the same on one deque, with the exact condition of a rejection |
| RateLimiter.HeaderTells | src/apex_mcp/http_transport.py:196 | the header is within a thousandth below and 0.999 above the wait, and below it exactly in the stated case |
| RateLimiter.HttpRateLimit.Sweep | src/apex_mcp/http_transport.py:177-182 | the sweep prunes every bucket and drops exactly the empty ones |
| RateLimiter.HttpRateLimit.PopExpired | src/apex_mcp/http_transport.py:186-187 | the loop removes exactly the leading expired entries |
| RateLimiter.HttpRateLimit.Handle | src/apex_mcp/http_transport.py:168-191 | one request does to the buckets what the specification of a call does |
| Budget.RunKept | src/apex_mcp/budget.py:43-91 | over every run a scope's counters are the sums of what its window paid for, and windows start at least a window apart |
| Budget.CallTells | src/apex_mcp/budget.py:43-54 | after every run with a positive length, from the log alone: a call is refused for their number if and only if the window in force has paid for as many as the limit, as a loop if and only if it has not and the window has paid for this page, and is allowed otherwise |
| Budget.ResultTells | src/apex_mcp/budget.py:56-83 | the same for results: each refusal has exactly its own cause, in the order of the tests, and everything else is allowed |
| Budget.LoggedTells | src/apex_mcp/budget.py:43-91 | what is allowed is booked as it was asked for at the start of its window, nothing else is, and windows start with the first operation that finds none in force |
| Budget.WindowTheorem | src/apex_mcp/budget.py:43-83 | with a positive length, within one window calls, items and bytes stay within their limits and no cursor is accepted twice |
| Budget.WindowsHoldIff | src/apex_mcp/budget.py:43-91 | the limit of a resource holds for every window of every run if and only if the length is positive or nothing of the resource can be allowed at all |
| Budget.PagesHoldIff | src/apex_mcp/budget.py:43-54 | no window of any run takes a cursor twice if and only if the length is positive or no call is allowed |
| Budget.TwiceTheorem | src/apex_mcp/budget.py:43-91 | with a positive length, any interval as long as a window sees at most twice each limit |
| Budget.IntervalsHoldIff | src/apex_mcp/budget.py:43-91 | twice the limit holds for every interval of every run if and only if the length is not zero or nothing of the resource can be allowed at all |
| Budget.NoWindowNoLimit | src/apex_mcp/budget.py:26-54 | with a length of zero or less and a positive limit on calls every call is allowed, however many there are |
| Budget.ToolBudget.FindWindow | src/apex_mcp/budget.py:85-91 | the window in force is found, or a new one starts now |
| Budget.ToolBudget.BeginCall | src/apex_mcp/budget.py:43-54 | one call is allowed or refused as specified, and only an allowed one is booked |
| Budget.ToolBudget.AcceptResult | src/apex_mcp/budget.py:56-83 | one result is allowed or refused as specified, and only an allowed one is booked |
| KeyCache.CooldownTheorem | src/apex_backend/auth/jwt_verifier.py:110-123 | an interval as short as both the cooldown and the lifetime sees three fetches only if the first of them failed |
| KeyCache.FreshFetchesApart | src/apex_backend/auth/jwt_verifier.py:110-123 | a fetch while the cache is fresh lies more than the cooldown after any earlier one for an unknown identifier, whether or not they succeed |
| KeyCache.CooldownExact | src/apex_backend/auth/jwt_verifier.py:110-123 | no longer than the cooldown after a fetch for an unknown identifier, a request fetches if and only if the cache is stale |
| KeyCache.FetchTells | src/apex_backend/auth/jwt_verifier.py:110-146 | after any requests the next one fetches if and only if the lifetime of the last good document is over, or its identifier is unknown to that document and the last fetch for such a one is more than ten seconds ago |
| KeyCache.AnswerTells | src/apex_backend/auth/jwt_verifier.py:119-173 | the answer is the key of the last entry for the identifier in the last good document, and without an identifier that of the one it names first |
| KeyCache.OutageFetchesEveryTime | src/apex_backend/auth/jwt_verifier.py:110-146 | with a stale cache and a failing server every request fetches, and the keys stay |
| KeyCache.AnswersFromLastDocument | src/apex_backend/auth/jwt_verifier.py:119-173 | an answer is the key of the identifier's last usable entry in the last good document, and no answer means there is none |
| KeyCache.KeyStore.FetchJwks | src/apex_backend/auth/jwt_verifier.py:125-173 | a good document replaces the keys, anything else leaves them |
| KeyCache.KeyStore.ResolveKey | src/apex_backend/auth/jwt_verifier.py:103-123 | resolving a key changes the cache and answers as specified |
| Confirmations.StepKeeps | src/apex_mcp/confirmation.py:56-78 | every interleaved step of issuers and callers keeps stores, history and payments in agreement |
| Confirmations.InstantTells | src/apex_mcp/confirmation.py:68-71 | an expiry without a zone is read as UTC, and one with a zone is ahead of UTC by its offset |
| Confirmations.IssueTells | src/apex_mcp/confirmation.py:56-61 | a grant is taken if and only if it allows a use; it replaces one of its name, unused, and touches no other |
| Confirmations.StoreTells | src/apex_mcp/confirmation.py:51-54 | of the grants that a store is built from the last one of each name counts |
| Confirmations.SpendingTheorem | src/apex_mcp/tool_registry.py:184-235 | over every interleaving and for every tuple of actor, session, case, tool, fingerprint and targets: invocations <= approvals == uses taken <= uses granted for exactly that tuple; each approval before the expiry of the issue that paid for it; no unpaid invocation |
| Confirmations.AskDecides | src/apex_mcp/confirmation.py:63-122 | the two dictionaries approve exactly when the history of issues and payments has an unexpired, unspent issue for the tuple |
| Confirmations.LookUpDecides | src/apex_mcp/frontend_security.py:228-260 | a frontend call is approved if and only if the issue last published for its tuple can pay |
| Confirmations.UsesHidden | src/apex_mcp/frontend_security.py:215-260 | for any two grants of one tuple that are in force, the second for one use: runs reach a call that is refused although the first grant has all its uses left |
| DbConfirmations.SplitTheorem | src/apex_backend/auth/db_confirmation.py:63-98 | with any number of callers between their reads and updates, `uses_count` is the number of True answers and at most `max_uses`, every True matches all six fields before expiry, and the run is a run of the locked store with the same answers |
| DbConfirmations.AnswersExact | src/apex_backend/auth/db_confirmation.py:63-98 | each finished call takes effect exactly once, at its read or at its update, with the answer it returned |
| DbConfirmations.StepRefines | src/apex_backend/auth/db_confirmation.py:63-98 | each step of the split form is at most one locked operation with the same answer |
| DbConfirmations.ConfirmationFor | src/apex_backend/auth/db_confirmation.py:28-61 | a request is found if and only if some row would be accepted now, and it is for the first such row |
| DbConfirmations.GrantTable.Authorize | src/apex_backend/auth/db_confirmation.py:63-98 | undisturbed, a call answers and counts as the locked store does |
| ToolCalls.InMemoryConfirmationProvider.constructor | src/apex_mcp/confirmation.py:51-54 | a later grant of the list replaces an earlier one of its identifier |
| ToolCalls.InMemoryConfirmationProvider.Issue | src/apex_mcp/confirmation.py:56-61 | issuing replaces the grant and forgets its uses, or refuses a grant without uses |
| ToolCalls.InMemoryConfirmationProvider.Authorize | src/apex_mcp/confirmation.py:63-78 | one use is taken exactly when the request is approved |
| ToolCalls.FrontendProvider.Issue | src/apex_mcp/frontend_security.py:215-226 | a grant is published for its tuple only once it was taken |
| ToolCalls.TargetsExact | src/apex_mcp/tool_registry.py:331-355 | the targets are exactly the non-empty texts in the sixteen fields, each once, in the order in which fields first name them |
| ToolCalls.TargetIds | src/apex_mcp/tool_registry.py:331-355 | the loop computes those targets |
| ToolCalls.ToolRegistry.Register | src/apex_mcp/tool_registry.py:98-133 | a binding is taken if and only if it passes every test, and then adds exactly its own tool with the engine's descriptor |
| ToolCalls.ToolRegistry.RequireConfirmation | src/apex_mcp/confirmation.py:95-122 | the gate consults the provider only for a request equal in all six fields to what is expected |
| ToolCalls.ToolRegistry.Admit | src/apex_mcp/tool_registry.py:157-183 | a call reaches its confirmation exactly when every earlier test passed, with the request looked up for its own tuple |
| ToolCalls.ToolRegistry.CallTool | src/apex_mcp/tool_registry.py:138-271 | every call emits one event; the engine is invoked exactly for an admitted call that is approved or needs no approval and whose payload is accepted; the event reports the decision |
| ToolCalls.KeyTells | src/apex_mcp/tool_registry.py:157-222 | a call is confirmed under the identity of its token, or without one under what the caller says, the text of its case argument, its tool and fingerprint, and exactly the texts that target fields name |
| ToolCalls.VerdictTells | src/apex_mcp/confirmation.py:63-122 | an admitted call is approved if and only if a person brings a grant that matches the whole key, is unexpired and has a use left; then that grant loses one use and nothing else changes |
| ToolCalls.CallTells | src/apex_mcp/tool_registry.py:157-240 | from the outside: exactly when the engine is invoked, under which key, which decision is reported and what becomes of the store |
| ToolCalls.IdentityDecides | src/apex_mcp/tool_registry.py:161-190 | with a token neither the actor nor the session that the caller names make any difference, nor for a tool that needs confirmation the request that it brings |
| ToolCalls.CallIsRun | src/apex_mcp/tool_registry.py:157-235 | an undisturbed call is a run of the interleaved system with the same store and outcome |
| FrontendGate.ScopesForRoles | src/apex_backend/auth/scopes.py:22-27 | the loop computes the union of the roles' scopes |
| FrontendGate.ScopeTells | src/apex_backend/auth/scopes.py:9-19 | the scope table, scope by scope: which roles have it |
| FrontendGate.RequiredTells | src/apex_mcp/frontend_security.py:112-131 | what a tool demands of the scopes of a token or a role |
| FrontendGate.RolesTell | src/apex_mcp/frontend_security.py:151-159 | what a tool demands of a set of roles |
| FrontendGate.Require | src/apex_mcp/frontend_security.py:100-178 | the gate admits exactly what its four tests together admit, and refuses a foreign case before anything else |
| FrontendGate.AbleExact | src/apex_backend/auth/scopes.py:9-19 | the scope table and the required scopes together, as a table of the roles able to use each kind of tool; and the test on roles adds nothing to it |
| FrontendGate.PerCaseExact | src/apex_mcp/frontend_security.py:109-178 | with per-case roles: admitted if and only if the cases are the session's, the token has the scopes and the role in each target case is able to use the tool |
| FrontendGate.UnionDecomposes | src/apex_mcp/frontend_security.py:109-178 | two sets of cases are admitted together if and only if each is admitted |
| FrontendGate.NonInterference | src/apex_mcp/frontend_security.py:136-172 | neither roles in other cases nor the session's roles change the verdict while the claim names some case |
| FrontendGate.EmptyClaimDecides | src/apex_mcp/frontend_security.py:151-178 | without per-case roles an approval tool is admitted if and only if APPROVER or ADMIN is among the session's roles, an export tool with APPROVER, EXPORTER or ADMIN, a raw view or another mutating tool with ANALYST, APPROVER or ADMIN, and any other tool with whatever roles, given its cases and scopes |
| FrontendGate.LosingTheClaim | src/apex_mcp/frontend_security.py:136-178 | exactly when losing all per-case roles turns a refusal into an admission, or an admission into a refusal |
| FrontendGate.DroppingAnotherCaseAdmits | src/apex_mcp/frontend_security.py:136-178 | dropping the only role, one of another case, turns a refusal into an admission |
| FrontendGate.ResolveTells | src/apex_mcp/frontend_security.py:302-344 | claims make a session if and only if they name a person, a session, a tenant, a case, and roles of which one is known and none is unknown |
| FrontendGate.ClaimsNeverFallBack | src/apex_mcp/frontend_security.py:302-344 | a session built from claims always has a case with a role, so its calls are judged case by case |
| SettingsFiles.StepKeeps | src/apex_desktop/machine.py:95-161 | every file operation, failure or stop keeps the files in order and loses no unusable content |
| SettingsFiles.SettingsTheorem | src/apex_desktop/machine.py:95-161 | over every run of concurrent saves and resets with failures: the active file is the first content or the whole of a saved one, and every unusable content that was ever active is still active or in a backup, byte for byte |
| SettingsFiles.AbsentOnlyAfterReset | src/apex_desktop/machine.py:95-161 | the active file is absent only if it always was, or since a reset |
| SettingsFiles.ResetKeepsIff | src/apex_desktop/machine.py:95-120 | what a reset under a taken name loses, exactly |
| SettingsFiles.SettingsFolder.Preserve | src/apex_desktop/machine.py:95-112 | a save copies an unusable file and leaves it in place, a reset moves whatever is there; earlier backups stay |
| SettingsFiles.SettingsFolder.SaveConfig | src/apex_desktop/machine.py:123-161 | whichever operation fails, the active file and the backups afterwards; a failed save leaves the active file, a successful one has first copied what it found unusable |
| SettingsFiles.SettingsFolder.ResetConfig | src/apex_desktop/machine.py:115-120 | a reset moves the active file to its backup or changes nothing |
| SettingsFiles.SaveIsRun | src/apex_desktop/machine.py:123-161 | an undisturbed save, whatever fails in it, is a run of the interleaved system with the same effect on the files |
| SettingsFiles.PublishTells | src/apex_desktop/machine.py:150-161 | a save makes active the whole of what it was given and touches no backup |
| SettingsFiles.StopTells | src/apex_desktop/machine.py:95-161 | a failing operation or a stop leaves the active file and every other save alone, releases the lock and leaves behind what had been copied |
| SettingsFiles.ResetIsStep | src/apex_desktop/machine.py:95-120 | a reset of the interleaved system moves the active file to its name and changes nothing else |
| Base64Url.OctetsExact | src/apex_backend/auth/keys.py:42-44 | the encoder's octets never overflow, give the integer back and start with no zero octet |
| Base64Url.FeedEncoded | src/apex_backend/auth/jwt_verifier.py:176-178 | decoding a padded text gives exactly the encoded octets and ends cleanly |
| Base64Url.EncodedBody | src/apex_backend/auth/keys.py:44 | the text before its padding has no padding character and a length that is never one more than a multiple of four, and that length determines the padding |
| Base64Url.RoundTrip | src/apex_backend/auth/jwt_verifier.py:176-178 | for every integer the decoder gives back what the encoder was given, only characters of the URL-safe alphabet, re-padding restores exactly what was stripped, and the octet string is minimal (sections 2 and 6.3.1 of RFC 7518, section 5 of RFC 4648) |
| Base64Url.DigitTells | src/apex_backend/auth/keys.py:44 | the alphabet (section 5 of RFC 4648) |
| Base64Url.JunkIgnored | src/apex_backend/auth/jwt_verifier.py:176-178 | the decoder passes over characters of neither alphabet wherever they stand, and over padding before the second digit of a group |
| Base64Url.DecodableIff | src/apex_backend/auth/jwt_verifier.py:176-178 | a text of the alphabet is refused if and only if its length is one more than a multiple of four |
| Base64Url.Injective | src/apex_backend/auth/keys.py:42-44 | distinct integers have distinct texts |
| Percent.QuoteRoundTrip | tools/validate_design_basic.py:32 | percent-decoding undoes percent-encoding of UTF-8 for every string and every choice of unencoded characters that does not include the percent sign |
| Percent.StandsForItself | tools/validate_design_basic.py:32 | percent-decoding leaves a string alone if and only if it has no percent sign with two hexadecimal digits |
| Percent.TruncatedTells | tools/validate_design_basic.py:32 | a character that is cut off is replaced as a whole |
| JsonPointer.ResolvePointer | tools/validate_design_basic.py:25-36 | the loop follows the tokens through nested objects, with the source's two errors |
| JsonPointer.EscapeRoundTrip | tools/validate_design_basic.py:32 | decoding "~1" and then "~0" undoes the escape of every key (sections 3 and 4 of RFC 6901) |
| JsonPointer.PrintedPathResolves | tools/validate_design_basic.py:25-36 | for every document and path, resolving the printed pointer gives the value at the path or the first missing key (section 6 of RFC 6901) |
| JsonPointer.ValueAtTells | tools/validate_design_basic.py:31-35 | a path leads through a chain of members to its value, or fails at the first key that is not there |
| JsonPointer.UnsupportedTells | tools/validate_design_basic.py:27-30 | a fragment is refused as such if and only if it is neither empty nor begins with a slash |
| JsonPointer.RawTokenExact | tools/validate_design_basic.py:32 | a key printed without percent-encoding comes back if and only if its escaped form holds no percent sign with two hexadecimal digits |
| XPathLiteral.RoundTrip | tools/verify_windows_event_message_renderer.py:194-200 | reading the literal of any string as an XPath expression gives the string back (sections 3.7 and 4.2 of XPath 1.0) |
| XPathLiteral.ConcatShape | tools/verify_windows_event_message_renderer.py:199-200 | with both quotes in the value there are at least three arguments, each without an apostrophe or a lone one |
| XPathLiteral.LiteralTells | tools/verify_windows_event_message_renderer.py:194-200 | apostrophes where they will do, then double quotes, and concat exactly for a value with both |
| XPathLiteral.Injective | tools/verify_windows_event_message_renderer.py:194-200 | distinct strings have distinct literals |
| Redaction.RedactedCommand | tools/verify_windows_host_runtime.py:835-846 | exactly the items after a flag become the mark; length and all other items stay |
| Redaction.HiddenTells | tools/verify_windows_host_runtime.py:835-846 | an item is hidden if and only if the flags immediately before it are odd in number |
| Redaction.SecretEnvNames | tools/verify_windows_host_runtime.py:849-860 | the captured names are exactly the non-empty items that the redacted command hides |
| Redaction.RedactEnvNamesInText | tools/verify_windows_host_runtime.py:863-867 | the loop replaces the names one after the other, longest first |
| Redaction.CapitalsAreClean | tools/verify_windows_host_runtime.py:863-867 | names of capitals, digits and underscores are never part of the mark |
| Redaction.BracketFreeClean | tools/verify_windows_host_runtime.py:863-867 | a name without angle brackets cannot overlap a mark if and only if it is not part of it |
| Redaction.TextTheorem | tools/verify_windows_host_runtime.py:863-867 | for names that cannot overlap a mark, with or without angle brackets: no name occurs in the output, which is the text with some names replaced by the mark and nothing else changed |
| Redaction.NoNameSurvivesIff | tools/verify_windows_host_runtime.py:863-867 | for names without angle brackets: no name is left in the redaction of any text if and only if no name is part of the mark |
| Redaction.ForeignLetterIsClean | tools/verify_windows_host_runtime.py:863-867 | one character that the mark does not have is enough for a name to be redacted for good |
| Redaction.WholeWord | tools/verify_windows_host_runtime.py:863-867 | a name that stands as a word becomes exactly the mark, even when shorter names are part of it |
| Redaction.NothingToHide | tools/verify_windows_host_runtime.py:863-867 | a text without any name is unchanged |
| Redaction.OutputHidesWhatCommandHides | tools/verify_windows_host_runtime.py:426-460 | nothing that the redacted command hides occurs in the redacted output |
| Redaction.JsonTheorem | tools/verify_windows_host_runtime.py:870-879 | in captured JSON no name is left in a string value, and one is left in a key exactly when it was there |
| Redaction.JsonKeepsTheRest | tools/verify_windows_host_runtime.py:870-879 | captured JSON keeps its shape, its keys and its other values, and of its texts everything but names |

## Left out

- JSON text: parsing and printing. Of the errors of printing only a value that `json.dumps` refuses is modelled; a lone surrogate, which fails later, when the text is encoded, is not.
- `encode` and `public_error`: an encoded result and a public error are given as JSON values.
- `build_services`: its exceptions count as exceptions of `run`.
- A progress report after the worker has finished, and a work item that stays in the pool although `submit` raised.
- Names of set-aside journals: two damaged journals within one second share a name; the model keeps both.
- Engine statuses that are neither texts nor hashable beyond the exception they cause in `start`.
- The bound of `_truncate`, decoding of captured bytes, and the violation walkers of the host runtime tool.
- Floating-point rounding of clocks, and requests that are not HTTP.
- `_item_count` and serialisation in the budget: item and byte counts are parameters.
- Confirmation gates built without a provider, which deny everything, or with another provider than the frontend's.
- `is_authenticated_actor`, the request fingerprint, schema validation, the capability gate and the context bridge: parameters of a call.
- The budget's window inside `call_tool`: its verdict is a parameter there and the budget is modelled by itself.
- Stripping and upper-casing of role texts and of case identifiers, and the order in which missing scopes are listed.
- Registration and lookup of sessions in the in-memory frontend provider, and bearer-token verification.
- DbConfirmations.SplitTheorem: starts from an empty table and does not model isolation levels weaker than a conditional update that sees the latest committed row.
- RSA keys, PEM texts and signatures: whether a key parses is a parameter.
- Base64Url.RoundTrip: texts are ASCII characters and not byte strings.
- JsonPointer.PrintedPathResolves: keys are sequences of Unicode scalar values, so lone surrogates are not covered.
- Redaction.TextTheorem: not for names that can overlap a mark; for those without angle brackets `Redaction.NoNameSurvivesIff` decides, and for the others it depends on how the name overlaps itself.
- Validation of settings values (models, directories, pydantic) and the response after a save or reset: whether a content is usable is a parameter.
- Removal of temporary settings files.
- The managed configuration of settings through the environment, which refuses saves and resets.
- Front end, OCR, STT, packaging, fixtures, tool tables and locale tables.
