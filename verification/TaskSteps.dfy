/** The background task manager as a state machine over the blocks its lock protects,
    the steps of its one worker thread, and process restarts. */
module TaskSteps {
  import opened Wrappers
  import opened JsonValues
  import opened Tables
  import opened Receipts

  const QUEUE_LIMIT := 16

  /** Where the single worker stands. `Raised` is between the publish block leaving by an
      exception and the block that records the failure; `Settled` is the gap between
      the block that publishes an outcome and the block that finalises the task. */
  datatype Phase =
    | Idle
    | Begun(id: Text)
    | SawCancel(id: Text)
    | Working(id: Text)
    | Raised(id: Text, cause: Json)
    | Settled(id: Text)

  /** `admitted` are the tasks whose `start` call has left the lock and not yet reached
      the pool; `stranded` are those that the worker left without their closing block because
      closing their services raised. The last five fields are history: ids ever used by this
      process, tasks it admitted, tasks whose token the worker looked at and found open on its way
      into `run`, the status each task first published, and tasks whose closing save raised an
      error that is not the disk's since the last save that succeeded. */
  datatype State = State(
    records: Table<Text, Record>,
    tokens: map<Text, bool>,
    journal: File,
    corrupt: seq<File>,
    recovered: bool,
    admitted: set<Text>,
    queue: seq<Text>,
    phase: Phase,
    stranded: set<Text>,
    known: set<Text>,
    born: set<Text>,
    ran: set<Text>,
    published: map<Text, Json>,
    skipped: set<Text>)

  // ------------------------------------------------------------------ saving

  datatype SaveOutcome = Saved | DiskError | KindError | PrintError

  ghost predicate KindsHashable(rows: map<Text, Record>) {
    forall id | id in rows :: Hashable(KindOf(rows[id]))
  }

  ghost predicate AllWritable(rows: map<Text, Record>) {
    forall id | id in rows :: Writable(rows[id])
  }

  /** A set test on an unhashable kind, and then a value that is no JSON, raise before anything
      is written. */
  ghost function SaveResult(rows: map<Text, Record>, disk: bool): SaveOutcome {
    if !KindsHashable(rows) then KindError
    else if !AllWritable(rows) then PrintError
    else if disk then Saved else DiskError
  }

  ghost function Cleared(t: Table<Text, Record>): Table<Text, Record> {
    Table(map id | id in t.rows :: t.rows[id].(receiptError := None), t.order)
  }

  ghost function SaveState(s: State, disk: bool): State {
    if SaveResult(s.records.rows, disk) == Saved
    then s.(journal := Items(ReceiptList(s.records.rows, s.records.order)), records := Cleared(s.records), skipped := {})
    else s
  }

  // --------------------------------------------------------------- admission

  ghost function ActiveIds(rows: map<Text, Record>): set<Text> {
    set id | id in rows && Active(StatusOf(rows[id]))
  }

  ghost predicate CountFails(rows: map<Text, Record>) {
    exists id | id in rows :: !Hashable(StatusOf(rows[id]))
  }

  function NewRecord(id: Text, caseId: Text, kind: Text, cancellable: bool): Record {
    Record(Some(Str(id)), Some(Str(caseId)), Some(Str(kind)), Some(QUEUED), Some(Null), Some(Null),
           Some(List(if cancellable then [CANCEL] else [])), None, None, map[])
  }

  datatype StartOutcome = Started | QueueFull | StatusError | NotSaved(cause: SaveOutcome)

  ghost function StartOf(rows: map<Text, Record>, id: Text, r: Record, disk: bool): StartOutcome {
    if CountFails(rows) then StatusError
    else if |ActiveIds(rows)| >= QUEUE_LIMIT then QueueFull
    else
      var o := SaveResult(rows[id := r], disk);
      if o == Saved then Started else NotSaved(o)
  }

  ghost function StartResult(s: State, id: Text, caseId: Text, kind: Text, cancellable: bool, disk: bool): StartOutcome {
    StartOf(s.records.rows, id, NewRecord(id, caseId, kind, cancellable), disk)
  }

  /** A saved new record, its token, and its place on the way to the pool. */
  ghost function Admitted(s: State, id: Text, r: Record): State {
    var t := s.records.Put(id, r);
    s.(records := Cleared(t), journal := Items(ReceiptList(t.rows, t.order)),
       tokens := s.tokens[id := false], admitted := s.admitted + {id},
       known := s.known + {id}, born := s.born + {id}, skipped := {})
  }

  ghost function Admit(s: State, id: Text, caseId: Text, kind: Text, cancellable: bool, disk: bool): State {
    match StartResult(s, id, caseId, kind, cancellable, disk)
    case Started => Admitted(s, id, NewRecord(id, caseId, kind, cancellable))
    case NotSaved(_) => s.(known := s.known + {id})
    case _ => s
  }

  ghost function Withdrawn(s: State, id: Text): State {
    s.(records := s.records.Pop(id), tokens := s.tokens - {id}, admitted := s.admitted - {id})
  }

  // --------------------------------------------------------------- the worker

  ghost function Row(s: State, id: Text): Record { RowOf(s.records.rows, id) }

  /** token.is_cancelled */
  ghost predicate Stopped(s: State, id: Text) { id in s.tokens && s.tokens[id] }

  /** The worker has looked at the token of its task. */
  ghost function Looked(s: State, id: Text): State {
    if Stopped(s, id) then s.(phase := SawCancel(id)) else s.(phase := Working(id), ran := s.ran + {id})
  }

  ghost function Update(s: State, id: Text, r: Record): State {
    s.(records := s.records.(rows := s.records.rows[id := r]))
  }

  function WithStatus(r: Record, status: Json): Record {
    r.(status := Some(status))
  }

  /** A record after some of the assignments of a block, and whether the block went on. */
  datatype Attempt = Attempt(record: Record, ok: bool)

  /** The loop over a result list: every job in it replaces the record's job and status;
      a job without a status raises. */
  function ScanJobs(r: Record, items: seq<Json>, n: nat): Attempt
    requires n <= |items|
  {
    if n == 0 then Attempt(r, true)
    else
      var a := ScanJobs(r, items, n - 1);
      if a.ok && IsJob(items[n - 1]) then
        var fields := items[n - 1].fields;
        var taken := a.record.(job := Some(items[n - 1]));
        if JobStatusKey in fields then Attempt(WithStatus(taken, fields[JobStatusKey]), true) else Attempt(taken, false)
      else a
  }

  predicate IsJob(item: Json) {
    item.Obj? && JobType in item.fields
  }

  predicate SaysPartial(result: Json) {
    && result.Obj?
    && (|| Truthy(Get(result.fields, Kept(IsPartial)).GetOr(Null))
        || Get(result.fields, Kept(CoverageComplete)) == Some(Bool(false)))
  }

  /** The status of the last reported job, when that job can be asked for it. */
  function JobStatus(job: Json): Option<Json> {
    if !Truthy(job) then Some(SUCCEEDED)
    else if job.Obj? then Some(Get(job.fields, JobStatusKey).GetOr(SUCCEEDED))
    else None
  }

  /** The block that publishes the result of `run`. */
  function PublishResult(r: Record, result: Json, cancelled: bool): Attempt {
    var stored := r.(result := Some(result));
    match JobStatus(r.job.GetOr(Null))
    case None => Attempt(stored, false)
    case Some(status) =>
      var told := WithStatus(stored, if SaysPartial(result) then PARTIAL else status);
      var a := if result.List? then ScanJobs(told, result.items, |result.items|) else Attempt(told, true);
      if a.ok && cancelled then Attempt(WithStatus(a.record, CANCELLED), true) else a
  }

  /** What is recorded for an exception that carries no code of its own. */
  const UNEXPECTED_ERROR := Obj(map[
    Code := Str(DesktopOperationFailed), MessageKey := Str(ErrorDesktopOperationFailed), Retryable := Bool(false)])

  /** The block left normally has settled the task; left by an exception it has not. */
  ghost function Returned(s: State, id: Text, a: Attempt): State {
    if a.ok then Settle(Update(s, id, a.record), id, StatusOf(a.record))
    else Update(s, id, a.record).(phase := Raised(id, UNEXPECTED_ERROR))
  }

  ghost function Return(s: State, id: Text, result: Json): State {
    Returned(s, id, PublishResult(Row(s, id), result, Stopped(s, id)))
  }

  ghost function Settle(s: State, id: Text, status: Json): State {
    s.(phase := Settled(id), published := s.published[id := status])
  }

  function FailRecord(r: Record, cause: Json, cancelled: bool): Record {
    WithStatus(r, if cancelled then CANCELLED else FAILED).(error := Some(cause))
  }

  const RECEIPT_ERROR := Obj(map[
    Code := Str(TaskReceiptNotSaved), MessageKey := Str(ErrorTaskReceiptNotSaved), Retryable := Bool(true)])

  /** The closing block before its save: the row offers nothing any more and the token is gone. */
  ghost function Closed(s: State, id: Text): State {
    Update(s, id, Row(s, id).(actions := Some(List([])))).(tokens := s.tokens - {id}, phase := Idle)
  }

  ghost function MarkUnsaved(s: State, id: Text): State {
    Update(s, id, Row(s, id).(receiptError := Some(RECEIPT_ERROR)))
  }

  /** Only an error of the disk is caught and marked. */
  ghost function Finalise(s: State, id: Text, disk: bool): State {
    var c := Closed(s, id);
    match SaveResult(c.records.rows, disk)
    case Saved => SaveState(c, disk)
    case DiskError => MarkUnsaved(c, id)
    case _ => c.(skipped := c.skipped + {id})
  }

  // ------------------------------------------------------ cancel, list, close

  predicate OffersCancel(r: Record) {
    r.actions.Some? && r.actions.value.List? && CANCEL in r.actions.value.items
  }

  ghost predicate CancelAccepted(s: State, caseId: Text, id: Text) {
    && id in s.records.rows
    && s.records.rows[id].caseId == Some(Str(caseId))
    && OffersCancel(s.records.rows[id])
    && id in s.tokens
  }

  ghost function Marked(s: State, id: Text): State {
    Update(s, id, WithStatus(Row(s, id), CANCELLING))
  }

  ghost function StopToken(s: State, id: Text): State {
    s.(tokens := s.tokens[id := true])
  }

  ghost function AfterCancel(s: State, caseId: Text, id: Text): State {
    if CancelAccepted(s, caseId, id) then StopToken(Marked(s, id), id) else s
  }

  function Unsaved(r: Record): bool {
    Truthy(r.receiptError.GetOr(Null))
  }

  ghost predicate RetryWanted(s: State, caseId: Text, retry: bool) {
    retry && exists id | id in s.records.rows ::
      s.records.rows[id].caseId == Some(Str(caseId)) && Unsaved(s.records.rows[id])
  }

  /** The records of one case among the first n in dictionary order. */
  ghost function OfCase(t: Table<Text, Record>, n: nat, caseId: Text): seq<Record>
    requires n <= |t.order|
  {
    if n == 0 then []
    else
      var r := RowOf(t.rows, t.order[n - 1]);
      OfCase(t, n - 1, caseId) + if r.caseId == Some(Str(caseId)) then [r] else []
  }

  const LIST_LIMIT := 100

  ghost function LastRows(rows: seq<Record>): seq<Record> {
    if |rows| <= LIST_LIMIT then rows else rows[|rows| - LIST_LIMIT..]
  }

  // ----------------------------------------------------------------- restart

  /** What became of the attempt to set a corrupt journal aside. */
  datatype Move = Renamed | Copied | Stuck

  predicate Readable(file: File) {
    file.Items? && forall e | e in file.items :: ValidElement(e)
  }

  ghost function Boot(file: File, move: Move, corrupt: seq<File>): State {
    var blank := State(Table(map[], []), map[], file, corrupt, false, {}, [], Idle, {}, {}, {}, {}, map[], {});
    if file.Missing? then blank
    else if Readable(file) then
      var t := Load(file.items);
      blank.(records := t, known := t.rows.Keys)
    else
      blank.(recovered := true,
             journal := if move.Renamed? then Missing else file,
             corrupt := if move.Stuck? then corrupt else corrupt + [file])
  }

  // ------------------------------------------------------------------- steps

  datatype Step =
    | Start(id: Text, caseId: Text, kind: Text, cancellable: bool, disk: bool)
    | Submit(id: Text)
    | SubmitFails(id: Text, disk: bool)
    | Begin
    | CheckToken
    | AcknowledgeCancel
    | Progress(job: Json)
    | RunReturns(result: Json)
    | RunRaises(cause: Json)
    | RecordFailure
    | FinaliseTask(disk: bool)
    | ServicesFail
    | CancelTask(caseId: Text, id: Text)
    | ListTasks(caseId: Text, retry: bool, disk: bool)
    | CloseToken(id: Text)
    | CloseSave(disk: bool)
    | Restart(move: Move)

  ghost predicate Enabled(s: State, step: Step) {
    match step
    case Start(id, _, _, _, _) => id !in s.known
    case Submit(id) => id in s.admitted
    case SubmitFails(id, _) => id in s.admitted
    case Begin => s.phase.Idle? && s.queue != []
    case CheckToken => s.phase.Begun?
    case AcknowledgeCancel => s.phase.SawCancel?
    case Progress(_) => s.phase.Working?
    case RunReturns(_) => s.phase.Working?
    case RunRaises(_) => s.phase.Working?
    case RecordFailure => s.phase.Raised?
    case FinaliseTask(_) => s.phase.Settled?
    // Services are built on the way into `run`.
    case ServicesFail => s.phase.Settled? && s.phase.id in s.ran
    case CloseToken(id) => id in s.tokens
    case _ => true
  }

  ghost predicate PhaseHas(phase: Phase, id: Text) {
    !phase.Idle? && phase.id == id
  }

  ghost function Next(s: State, step: Step): State
    requires Enabled(s, step)
  {
    match step
    case Start(id, caseId, kind, cancellable, disk) => Admit(s, id, caseId, kind, cancellable, disk)
    case Submit(id) => s.(admitted := s.admitted - {id}, queue := s.queue + [id])
    case SubmitFails(id, disk) => SaveState(Withdrawn(s, id), disk)
    case Begin =>
      var id := s.queue[0];
      Update(s, id, WithStatus(Row(s, id), RUNNING)).(queue := s.queue[1..], phase := Begun(id))
    case CheckToken =>
      Looked(s, s.phase.id)
    case AcknowledgeCancel =>
      var id := s.phase.id;
      Settle(Update(s, id, WithStatus(Row(s, id), CANCELLED)), id, CANCELLED)
    case Progress(job) => Update(s, s.phase.id, Row(s, s.phase.id).(job := Some(job)))
    case RunReturns(result) => Return(s, s.phase.id, result)
    case RunRaises(cause) => s.(phase := Raised(s.phase.id, cause))
    case RecordFailure =>
      var id := s.phase.id;
      var r := FailRecord(Row(s, id), s.phase.cause, Stopped(s, id));
      Settle(Update(s, id, r), id, StatusOf(r))
    case FinaliseTask(disk) => Finalise(s, s.phase.id, disk)
    case ServicesFail => s.(phase := Idle, stranded := s.stranded + {s.phase.id})
    case CancelTask(caseId, id) => AfterCancel(s, caseId, id)
    case ListTasks(caseId, retry, disk) => if RetryWanted(s, caseId, retry) then SaveState(s, disk) else s
    case CloseToken(id) => StopToken(s, id)
    case CloseSave(disk) =>
      if exists id | id in s.records.rows :: Unsaved(s.records.rows[id]) then SaveState(s, disk) else s
    case Restart(move) => Boot(s.journal, move, s.corrupt)
  }
}
