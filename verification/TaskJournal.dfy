/** When the journal holds what a finished task came to, exactly, and what a restart makes of it. */
module TaskJournal {
  import opened Wrappers
  import opened JsonValues
  import opened Tables
  import opened Receipts
  import opened TaskSteps
  import opened TaskLaws
  import opened TaskRuns

  /** What the journal holds for a task recovers to the recovered projection of its record. */
  ghost predicate Told(s: State, id: Text) {
    id in s.records.rows && Stored(s.journal, id) == Some(Recover(Project(s.records.rows[id])))
  }

  // ------------------------------------------------- values that JSON can hold

  /** Every value of a record can be printed. */
  predicate Plain(r: Record) {
    Dumps(r) && PrintableIfAny(r.receiptError)
  }

  /** A file that was read from JSON text is like that. */
  predicate PlainFile(file: File) {
    file.Items? ==> forall e | e in file.items :: e.Dict? ==> Plain(e.record)
  }

  /** What the engine reports can be printed. */
  predicate PlainStep(step: Step) {
    match step
    case Progress(job) => Printable(job)
    case RunReturns(result) => Printable(result)
    case RunRaises(cause) => Printable(cause)
    case _ => true
  }

  lemma PlainProjects(r: Record)
    requires Plain(r)
    ensures Writable(r)
  {
    var p := Project(r);
    if p.result.Some? {
      var fields := r.result.value.fields;
      assert forall k | k in Summary(fields) :: k == Kept(CandidateCount) || (k in fields && Summary(fields)[k] == fields[k]);
    }
  }

  lemma WrittenPlain(t: Table<Text, Record>, file: File)
    requires Writes(t, file)
    ensures PlainFile(file)
  {
    forall i | 0 <= i < |t.order|
      ensures Plain(ReceiptList(t.rows, t.order)[i].record)
    {
      assert t.order[i] in t.order;
    }
  }

  /** A journal that can be printed stays one, whatever is reported. */
  lemma PlainFileKept(s: State, step: Step)
    requires Inv(s) && Enabled(s, step) && PlainFile(s.journal)
    ensures PlainFile(Next(s, step).journal)
  {
    var file := Next(s, step).journal;
    JournalMoves(s, step);
    if Written(file) {
      var t: Table<Text, Record> :| Writes(t, file);
      WrittenPlain(t, file);
    }
  }

  lemma {:induction false} FilledPlain(items: seq<Element>, n: nat)
    requires Loadable(items) && n <= |items| && forall e | e in items :: Plain(e.record)
    ensures forall id | id in Fill(Recovered(items), n).rows :: Plain(Fill(Recovered(items), n).rows[id])
  {
    if n > 0 {
      FilledPlain(items, n - 1);
      assert items[n - 1] in items;
    }
  }

  lemma StoredPlain(file: File, id: Text)
    requires PlainFile(file) && Stored(file, id).Some?
    ensures Plain(Stored(file, id).value)
  {
    FilledPlain(file.items, |file.items|);
  }

  // ----------------------------------------------------------- printable runs

  ghost predicate PlainRow(s: State, id: Text) {
    id in s.records.rows ==> Plain(s.records.rows[id])
  }

  /** Everything in memory and in the journal can be printed, and no closing save was missed. */
  ghost predicate PlainState(s: State) {
    && (forall id :: PlainRow(s, id))
    && (s.phase.Raised? ==> Printable(s.phase.cause))
    && PlainFile(s.journal) && s.skipped == {}
  }

  lemma PlainNew(id: Text, caseId: Text, kind: Text, cancellable: bool)
    ensures Plain(NewRecord(id, caseId, kind, cancellable))
  {
    assert Printable(List(if cancellable then [CANCEL] else []));
  }

  lemma {:induction false} PlainScan(r: Record, items: seq<Json>, n: nat)
    requires n <= |items| && Plain(r) && forall i | 0 <= i < |items| :: Printable(items[i])
    ensures Plain(ScanJobs(r, items, n).record)
  {
    if n > 0 {
      PlainScan(r, items, n - 1);
      assert Printable(items[n - 1]);
    }
  }

  lemma PlainJobStatus(job: Json)
    requires Printable(job)
    ensures PrintableIfAny(JobStatus(job))
  {
  }

  lemma PlainPublished(r: Record, result: Json, cancelled: bool)
    requires Plain(r) && Printable(result)
    ensures Plain(PublishResult(r, result, cancelled).record)
  {
    PlainJobStatus(r.job.GetOr(Null));
    if JobStatus(r.job.GetOr(Null)).Some? && result.List? {
      var told := WithStatus(r.(result := Some(result)), JobStatus(r.job.GetOr(Null)).value);
      PlainScan(told, result.items, |result.items|);
    }
  }

  lemma PlainClosed(s: State)
    requires PlainState(s) && s.phase.Settled? && s.phase.id in s.records.rows
    ensures PlainState(Closed(s, s.phase.id)) && AllWritable(Closed(s, s.phase.id).records.rows)
  {
    var c := Closed(s, s.phase.id);
    forall id
      ensures PlainRow(c, id) && (id in c.records.rows ==> Writable(c.records.rows[id]))
    {
      assert PlainRow(s, id);
      if id in c.records.rows {
        PlainProjects(c.records.rows[id]);
      }
    }
  }

  lemma PlainFinalised(s: State, disk: bool)
    requires Inv(s) && PlainState(s) && s.phase.Settled?
    ensures var n := Finalise(s, s.phase.id, disk); (forall id :: PlainRow(n, id)) && n.skipped == {} && n.phase.Idle?
  {
    var c := Closed(s, s.phase.id);
    assert Sane(s, s.phase.id);
    ClosedKeeps(s);
    PlainClosed(s);
    assert KindsHashable(c.records.rows) by {
      assert forall id | id in c.records.rows :: Row(c, id) == c.records.rows[id];
    }
    PlainMarked(c, s.phase.id);
    PlainSaved(c, disk);
  }

  lemma PlainMarked(c: State, id: Text)
    requires PlainState(c) && id in c.records.rows
    ensures PlainState(MarkUnsaved(c, id))
  {
    forall x
      ensures PlainRow(MarkUnsaved(c, id), x)
    {
      assert PlainRow(c, x);
    }
  }

  lemma PlainSaved(s: State, disk: bool)
    requires forall id :: PlainRow(s, id)
    ensures forall id :: PlainRow(SaveState(s, disk), id)
  {
    forall id
      ensures PlainRow(SaveState(s, disk), id)
    {
      assert PlainRow(s, id);
    }
  }

  lemma PlainUpdate(s: State, id: Text, r: Record)
    requires (forall x :: PlainRow(s, x)) && Plain(r)
    ensures forall x :: PlainRow(Update(s, id, r), x)
  {
    forall x
      ensures PlainRow(Update(s, id, r), x)
    {
      assert PlainRow(s, x);
    }
  }

  lemma PlainAdmitted(s: State, id: Text, caseId: Text, kind: Text, cancellable: bool, disk: bool)
    requires forall x :: PlainRow(s, x)
    ensures forall x :: PlainRow(Admit(s, id, caseId, kind, cancellable, disk), x)
  {
    var n := Admit(s, id, caseId, kind, cancellable, disk);
    PlainNew(id, caseId, kind, cancellable);
    forall x
      ensures PlainRow(n, x)
    {
      assert PlainRow(s, x);
    }
  }

  lemma PlainWithdrawn(s: State, id: Text, disk: bool)
    requires forall x :: PlainRow(s, x)
    ensures forall x :: PlainRow(SaveState(Withdrawn(s, id), disk), x)
  {
    forall x
      ensures PlainRow(Withdrawn(s, id), x)
    {
      assert PlainRow(s, x);
    }
    PlainSaved(Withdrawn(s, id), disk);
  }

  lemma PlainBooted(file: File, move: Move, corrupt: seq<File>)
    requires PlainFile(file)
    ensures PlainState(Boot(file, move, corrupt))
  {
    var s := Boot(file, move, corrupt);
    if Readable(file) {
      FilledPlain(file.items, |file.items|);
    }
    assert forall id :: PlainRow(s, id);
  }

  /** The steps in which the worker writes to a record, apart from the closing block. */
  predicate Rewrites(step: Step) {
    step.Begin? || step.AcknowledgeCancel? || step.Progress? || step.RunReturns? || step.RecordFailure?
  }

  /** The worker's record stays printable when what it is told can be printed. */
  lemma PlainWorker(s: State, step: Step)
    requires Enabled(s, step) && Rewrites(step) && PlainStep(step) && PlainState(s)
    ensures forall id :: PlainRow(Next(s, step), id)
  {
    var id := if step.Begin? then s.queue[0] else s.phase.id;
    assert PlainRow(s, id) && Plain(BLANK);
    assert Printable(RUNNING) && Printable(CANCELLED) && Printable(FAILED);
    var r := match step
      case Begin => WithStatus(Row(s, id), RUNNING)
      case AcknowledgeCancel => WithStatus(Row(s, id), CANCELLED)
      case Progress(job) => Row(s, id).(job := Some(job))
      case RunReturns(result) => PublishResult(Row(s, id), result, Stopped(s, id)).record
      case RecordFailure => FailRecord(Row(s, id), s.phase.cause, Stopped(s, id))
      case _ => BLANK;
    if step.RunReturns? {
      PlainPublished(Row(s, id), step.result, Stopped(s, id));
    }
    PlainUpdate(s, id, r);
    assert Next(s, step).records == Update(s, id, r).records;
    SameRowsPlain(Update(s, id, r), Next(s, step));
  }

  lemma SameRowsPlain(s: State, n: State)
    requires (forall id :: PlainRow(s, id)) && n.records == s.records
    ensures forall id :: PlainRow(n, id)
  {
    forall id
      ensures PlainRow(n, id)
    {
      assert PlainRow(s, id);
    }
  }

  /** Nothing but a value reported by the worker becomes the cause of a failure. */
  lemma PlainCause(s: State, step: Step)
    requires Inv(s) && Enabled(s, step) && PlainStep(step) && PlainState(s)
    ensures Next(s, step).phase.Raised? ==> Printable(Next(s, step).phase.cause)
  {
    assert Printable(UNEXPECTED_ERROR);
    if step.FinaliseTask? {
      PlainFinalised(s, step.disk);
    }
  }

  lemma NothingSkipped(s: State, step: Step)
    requires Inv(s) && Enabled(s, step) && PlainState(s)
    ensures Next(s, step).skipped == {}
  {
    if step.FinaliseTask? {
      PlainFinalised(s, step.disk);
    }
  }

  lemma PlainRows(s: State, step: Step)
    requires Inv(s) && Enabled(s, step) && PlainStep(step) && PlainState(s)
    ensures forall id :: PlainRow(Next(s, step), id)
  {
    if Rewrites(step) {
      PlainWorker(s, step);
    } else {
      match step
      case Start(id, caseId, kind, cancellable, disk) => PlainAdmitted(s, id, caseId, kind, cancellable, disk);
      case SubmitFails(id, disk) => PlainWithdrawn(s, id, disk);
      case FinaliseTask(disk) => PlainFinalised(s, disk);
      case CancelTask(caseId, id) => PlainCancelled(s, caseId, id);
      case ListTasks(_, _, disk) => PlainSaved(s, disk);
      case CloseSave(disk) => PlainSaved(s, disk);
      case Restart(move) => PlainBooted(s.journal, move, s.corrupt);
      case Submit(_) => SameRowsPlain(s, Next(s, step));
      case CheckToken => SameRowsPlain(s, Next(s, step));
      case RunRaises(_) => SameRowsPlain(s, Next(s, step));
      case ServicesFail => SameRowsPlain(s, Next(s, step));
      case CloseToken(_) => SameRowsPlain(s, Next(s, step));
    }
  }

  lemma PlainCancelled(s: State, caseId: Text, id: Text)
    requires forall x :: PlainRow(s, x)
    ensures forall x :: PlainRow(AfterCancel(s, caseId, id), x)
  {
    if CancelAccepted(s, caseId, id) {
      assert PlainRow(s, id) && Printable(CANCELLING);
      var r := WithStatus(Row(s, id), CANCELLING);
      PlainUpdate(s, id, r);
      SameRowsPlain(Update(s, id, r), AfterCancel(s, caseId, id));
    }
  }

  /** Runs in which everything reported can be printed keep everything printable. */
  lemma PlainKept(s: State, step: Step)
    requires Inv(s) && Enabled(s, step) && PlainStep(step) && PlainState(s)
    ensures PlainState(Next(s, step))
  {
    PlainFileKept(s, step);
    PlainRows(s, step);
    PlainCause(s, step);
    NothingSkipped(s, step);
  }

  lemma {:induction false} PlainRun(s: State, steps: seq<Step>, t: State)
    requires Inv(s) && Run(s, steps, t) && PlainState(s) && forall step | step in steps :: PlainStep(step)
    ensures PlainState(t)
    decreases |steps|
  {
    if steps != [] {
      assert steps[0] in steps;
      StepKeeps(s, steps[0]);
      PlainKept(s, steps[0]);
      PlainRun(Next(s, steps[0]), steps[1..], t);
    }
  }

  /** Where everything that is reported can be printed, no task is ever missed: in every reachable
      state, restarts included, each finished task that its record does not call unsaved is in the
      journal with what it came to. */
  lemma {:induction false} PrintableTheorem(file: File, move: Move, corrupt: seq<File>, steps: seq<Step>, t: State, id: Text)
    requires Run(Boot(file, move, corrupt), steps, t)
    requires PlainFile(file) && forall step | step in steps :: PlainStep(step)
    ensures Finished(t, id) && (HoldsReceipts(file) || t.born != {}) ==> Told(t, id)
  {
    BootInv(file, move, corrupt);
    PlainBooted(file, move, corrupt);
    PlainRun(Boot(file, move, corrupt), steps, t);
    JournalTheorem(file, move, corrupt, steps, t, id);
  }

  // ------------------------------------------------ the closing save, exactly

  /** The record of a task as a restart would give it back had the task never begun. */
  function Unstarted(r: Record): Record {
    r.(status := Some(INTERRUPTED), job := Some(Null), error := Some(Null), actions := Some(List([])),
       result := None, receiptError := None)
  }

  /** The journal still holds the task as it was admitted. */
  ghost predicate AsAdmitted(s: State, id: Text) {
    Stored(s.journal, id) == Some(Unstarted(Row(s, id)))
  }

  predicate Untouched(r: Record) {
    r.kind.Some? && Active(StatusOf(r)) && r.job == Some(Null) && r.error == Some(Null) && r.result.None?
  }

  ghost predicate Waits(s: State, id: Text) {
    id in s.admitted || id in s.queue
  }

  ghost predicate OthersWritable(s: State, id: Text) {
    forall x | x in s.records.rows && x != id :: Writable(s.records.rows[x])
  }

  /** Until a task begins the journal holds it as it was admitted, and from then on while there is
      another record that cannot be written. */
  ghost predicate Snapped(s: State, id: Text) {
    && (Waits(s, id) ==> Untouched(Row(s, id)) && AsAdmitted(s, id))
    && (PhaseHas(s.phase, id) ==> OthersWritable(s, id) || AsAdmitted(s, id))
  }

  /** After a save. */
  lemma SnappedSaved(n: State, t: Table<Text, Record>, id: Text)
    requires Writes(t, n.journal) && n.records == Cleared(t)
    requires Waits(n, id) ==> id in t.rows && Untouched(t.rows[id])
    ensures Snapped(n, id)
  {
    SavedRow(t, id);
    forall x | x in n.records.rows
      ensures Writable(n.records.rows[x])
    {
      assert Project(n.records.rows[x]) == Project(t.rows[x]);
    }
  }

  /** Without one, when the rows stay as they are. */
  lemma SnappedSame(s: State, n: State, id: Text)
    requires Snapped(s, id) && n.journal == s.journal && n.records == s.records
    requires Waits(n, id) ==> Waits(s, id)
    requires PhaseHas(n.phase, id) ==> PhaseHas(s.phase, id)
    ensures Snapped(n, id)
  {
  }

  /** And when one of them changes. */
  lemma SnappedRow(s: State, n: State, k: Text, r: Record, id: Text)
    requires Snapped(s, id) && n.journal == s.journal && n.records.rows == s.records.rows[k := r]
    requires Waits(n, id) ==> Waits(s, id) && (id == k ==> Untouched(r))
    requires PhaseHas(n.phase, id) ==> PhaseHas(s.phase, id) || Waits(s, id)
    requires if id == k then Unstarted(r) == Unstarted(Row(s, k))
             else PhaseHas(n.phase, id) ==> k in s.records.rows && (Writable(Row(s, k)) ==> Writable(r))
    ensures Snapped(n, id)
  {
  }

  lemma SaveSnapped(s: State, disk: bool, id: Text)
    requires Storable(s.records) && Snapped(s, id) && (Waits(s, id) ==> id in s.records.rows)
    ensures Snapped(SaveState(s, disk), id)
  {
    if SaveResult(s.records.rows, disk) == Saved {
      SnappedSaved(SaveState(s, disk), s.records, id);
    }
  }

  lemma AdmittedSnapped(s: State, added: Text, r: Record, id: Text)
    requires Storable(s.records) && AllWritable(s.records.rows[added := r])
    requires Id(r) == added && Untouched(r) && Snapped(s, id) && (Waits(s, id) ==> id in s.records.rows)
    ensures Snapped(Admitted(s, added, r), id)
  {
    PutStorable(s.records, added, r);
    SnappedSaved(Admitted(s, added, r), s.records.Put(added, r), id);
  }

  lemma AdmitSnapped(s: State, added: Text, caseId: Text, kind: Text, cancellable: bool, disk: bool, id: Text)
    requires Storable(s.records) && Snapped(s, id) && (Waits(s, id) ==> id in s.records.rows)
    ensures Snapped(Admit(s, added, caseId, kind, cancellable, disk), id)
  {
    if StartResult(s, added, caseId, kind, cancellable, disk) == Started {
      AdmittedSnapped(s, added, NewRecord(added, caseId, kind, cancellable), id);
    } else {
      SnappedSame(s, Admit(s, added, caseId, kind, cancellable, disk), id);
    }
  }

  lemma WithdrawnSnapped(s: State, gone: Text, disk: bool, id: Text)
    requires Storable(Withdrawn(s, gone).records) && gone in s.admitted && Snapped(s, id)
    requires Waits(s, id) ==> id in s.records.rows && (id == gone ==> id !in s.queue)
    requires PhaseHas(s.phase, id) ==> id != gone
    ensures Snapped(SaveState(Withdrawn(s, gone), disk), id)
  {
    var w := Withdrawn(s, gone);
    assert Snapped(w, id) by {
      assert id != gone ==> Row(w, id) == Row(s, id);
    }
    SaveSnapped(w, disk, id);
  }

  lemma ClosedSnapped(s: State, id: Text)
    requires s.phase.Settled? && Snapped(s, id) && (PhaseHas(s.phase, id) ==> !Waits(s, id))
    ensures Snapped(Closed(s, s.phase.id), id)
  {
    var r := Row(s, s.phase.id).(actions := Some(List([])));
    SnappedRow(s, Closed(s, s.phase.id), s.phase.id, r, id);
  }

  lemma FinaliseSnapped(s: State, disk: bool, id: Text)
    requires s.phase.Settled? && Snapped(s, id) && Storable(Closed(s, s.phase.id).records)
    requires (Waits(s, id) ==> id in s.records.rows) && (PhaseHas(s.phase, id) ==> !Waits(s, id))
    ensures Snapped(Finalise(s, s.phase.id, disk), id)
  {
    var done := s.phase.id;
    var c := Closed(s, done);
    ClosedSnapped(s, id);
    match SaveResult(c.records.rows, disk)
    case Saved => SaveSnapped(c, disk, id);
    case DiskError => UnsavedSnapped(c, done, id);
    case _ => SnappedSame(c, c.(skipped := c.skipped + {done}), id);
  }

  lemma UnsavedSnapped(c: State, done: Text, id: Text)
    requires Snapped(c, id) && c.phase.Idle? && (id == done ==> !Waits(c, id))
    ensures Snapped(MarkUnsaved(c, done), id)
  {
    SnappedRow(c, MarkUnsaved(c, done), done, Row(c, done).(receiptError := Some(RECEIPT_ERROR)), id);
  }

  lemma CancellingKeeps(r: Record)
    ensures Writable(r) ==> Writable(WithStatus(r, CANCELLING))
    ensures Untouched(r) ==> Untouched(WithStatus(r, CANCELLING))
    ensures Unstarted(WithStatus(r, CANCELLING)) == Unstarted(r)
  {
  }

  lemma OthersUpdated(s: State, k: Text, r: Record, id: Text)
    requires k in s.records.rows && OthersWritable(s, id) && (Writable(Row(s, k)) ==> Writable(r))
    ensures OthersWritable(Update(s, k, r), id)
  {
  }

  lemma UpdateSnapped(s: State, k: Text, r: Record, id: Text)
    requires k in s.records.rows && Snapped(s, id) && Unstarted(r) == Unstarted(Row(s, k))
    requires (Untouched(Row(s, k)) ==> Untouched(r)) && (Writable(Row(s, k)) ==> Writable(r))
    ensures Snapped(Update(s, k, r), id)
  {
    var n := Update(s, k, r);
    assert Row(n, id) == if id == k then r else Row(s, id);
    if OthersWritable(s, id) {
      OthersUpdated(s, k, r, id);
    }
  }

  lemma CancelSnapped(s: State, caseId: Text, gone: Text, id: Text)
    requires Snapped(s, id)
    ensures Snapped(AfterCancel(s, caseId, gone), id)
  {
    if CancelAccepted(s, caseId, gone) {
      MarkedSnapped(s, gone, id);
      SnappedSame(Marked(s, gone), StopToken(Marked(s, gone), gone), id);
    }
  }

  lemma MarkedSnapped(s: State, gone: Text, id: Text)
    requires gone in s.records.rows && Snapped(s, id)
    ensures Snapped(Marked(s, gone), id)
  {
    var r := WithStatus(Row(s, gone), CANCELLING);
    CancellingKeeps(Row(s, gone));
    UpdateSnapped(s, gone, r, id);
  }

  lemma BeginSnapped(s: State, id: Text)
    requires Enabled(s, Begin) && NoRepeats(s.queue) && s.queue[0] !in s.admitted && Snapped(s, id)
    ensures Snapped(Next(s, Begin), id)
  {
    var k := s.queue[0];
    SnappedRow(s, Next(s, Begin), k, WithStatus(Row(s, k), RUNNING), id);
  }

  lemma {:induction false} ScanUnstarted(r: Record, items: seq<Json>, n: nat)
    requires n <= |items|
    ensures Unstarted(ScanJobs(r, items, n).record) == Unstarted(r)
  {
    if n > 0 {
      ScanUnstarted(r, items, n - 1);
    }
  }

  lemma PublishUnstarted(r: Record, result: Json, cancelled: bool)
    ensures Unstarted(PublishResult(r, result, cancelled).record) == Unstarted(r)
  {
    if JobStatus(r.job.GetOr(Null)).Some? && result.List? {
      var told := WithStatus(r.(result := Some(result)), JobStatus(r.job.GetOr(Null)).value);
      ScanUnstarted(told, result.items, |result.items|);
    }
  }

  /** The worker goes on with its own task. */
  lemma WorkSnapped(s: State, n: State, r: Record, id: Text)
    requires !s.phase.Idle? && Snapped(s, id) && (PhaseHas(s.phase, id) ==> !Waits(s, id))
    requires Unstarted(r) == Unstarted(Row(s, s.phase.id))
    requires n == Update(s, s.phase.id, r).(phase := n.phase, published := n.published) && PhaseHas(n.phase, s.phase.id)
    ensures Snapped(n, id)
  {
    SnappedRow(s, n, s.phase.id, r, id);
  }

  lemma ReturnSnapped(s: State, result: Json, id: Text)
    requires s.phase.Working? && Snapped(s, id) && (PhaseHas(s.phase, id) ==> !Waits(s, id))
    ensures Snapped(Return(s, s.phase.id, result), id)
  {
    var a := PublishResult(Row(s, s.phase.id), result, Stopped(s, s.phase.id));
    PublishUnstarted(Row(s, s.phase.id), result, Stopped(s, s.phase.id));
    WorkSnapped(s, Returned(s, s.phase.id, a), a.record, id);
  }

  lemma WaitsApart(s: State, id: Text)
    requires Inv(s)
    ensures Waits(s, id) ==> id in s.records.rows && !PhaseHas(s.phase, id) && !(id in s.admitted && id in s.queue)
  {
    assert Sane(s, id);
  }

  lemma WorkerSnapped(s: State, step: Step, id: Text)
    requires Inv(s) && Enabled(s, step) && Snapped(s, id) && OfWorker(step)
    ensures Snapped(Next(s, step), id)
  {
    WaitsApart(s, id);
    match step
    case Begin =>
      WaitsApart(s, s.queue[0]);
      BeginSnapped(s, id);
    case CheckToken => SnappedSame(s, Next(s, step), id);
    case AcknowledgeCancel => WorkSnapped(s, Next(s, step), WithStatus(Row(s, s.phase.id), CANCELLED), id);
    case Progress(job) => WorkSnapped(s, Next(s, step), Row(s, s.phase.id).(job := Some(job)), id);
    case RunReturns(result) => ReturnSnapped(s, result, id);
    case RunRaises(_) => SnappedSame(s, Next(s, step), id);
    case RecordFailure =>
      WorkSnapped(s, Next(s, step), FailRecord(Row(s, s.phase.id), s.phase.cause, Stopped(s, s.phase.id)), id);
    case FinaliseTask(disk) =>
      ClosedKeeps(s);
      OrderlyStorable(Closed(s, s.phase.id));
      FinaliseSnapped(s, disk, id);
    case ServicesFail => SnappedSame(s, Next(s, step), id);
  }

  lemma SnappedKept(s: State, step: Step, id: Text)
    requires Inv(s) && Enabled(s, step) && Snapped(s, id)
    ensures Snapped(Next(s, step), id)
  {
    WaitsApart(s, id);
    OrderlyStorable(s);
    if OfWorker(step) {
      WorkerSnapped(s, step, id);
    } else {
      match step
      case Start(added, caseId, kind, cancellable, disk) => AdmitSnapped(s, added, caseId, kind, cancellable, disk, id);
      case Submit(_) => SnappedSame(s, Next(s, step), id);
      case SubmitFails(gone, disk) =>
        WithdrawnKeeps(s, gone);
        OrderlyStorable(Withdrawn(s, gone));
        WaitsApart(s, gone);
        WithdrawnSnapped(s, gone, disk, id);
      case CancelTask(caseId, gone) => CancelSnapped(s, caseId, gone, id);
      case ListTasks(_, _, disk) => SaveSnapped(s, disk, id);
      case CloseToken(_) => SnappedSame(s, Next(s, step), id);
      case CloseSave(disk) => SaveSnapped(s, disk, id);
      case Restart(_) =>
    }
  }

  lemma {:induction false} SnappedRun(s: State, steps: seq<Step>, t: State, id: Text)
    requires Inv(s) && Run(s, steps, t) && PlainFile(s.journal) && Snapped(s, id)
    ensures PlainFile(t.journal) && Snapped(t, id)
    decreases |steps|
  {
    if steps != [] {
      StepKeeps(s, steps[0]);
      PlainFileKept(s, steps[0]);
      SnappedKept(s, steps[0], id);
      SnappedRun(Next(s, steps[0]), steps[1..], t, id);
    }
  }

  /** What the closing save of a task does to its record and to the journal: it is missed, and then
      nothing is saved, exactly when some record cannot be written; the record is marked exactly
      when all can and the disk refuses. */
  lemma FinaliseExact(s: State, disk: bool)
    requires Inv(s) && s.phase.Settled? && Row(s, s.phase.id).receiptError.None?
    ensures var id := s.phase.id;
            var n := Next(s, FinaliseTask(disk));
            var all := AllWritable(Closed(s, id).records.rows);
            && (id in n.skipped <==> !all)
            && (Row(n, id).receiptError.Some? <==> all && !disk)
            && (!all ==> n.journal == s.journal && n.records == Closed(s, id).records)
            && (all && disk ==> Told(n, id))
  {
    var id := s.phase.id;
    var c := Closed(s, id);
    assert Sane(s, id);
    ClosedKeeps(s);
    assert KindsHashable(c.records.rows) by {
      assert forall x | x in c.records.rows :: Row(c, x) == c.records.rows[x];
    }
    if !AllWritable(c.records.rows) {
      assert Finalise(s, id, disk) == c.(skipped := c.skipped + {id});
    } else if disk {
      OrderlyStorable(c);
      SavedTold(c, id);
      assert Finalise(s, id, disk) == SaveState(c, true);
    } else {
      assert Finalise(s, id, disk) == MarkUnsaved(c, id);
    }
  }

  lemma SavedTold(s: State, id: Text)
    requires Storable(s.records) && SaveResult(s.records.rows, true) == Saved && id in s.records.rows
    ensures Told(SaveState(s, true), id)
  {
    SavedRow(s.records, id);
    assert Project(Cleared(s.records).rows[id]) == Project(s.records.rows[id]);
  }

  lemma RecoveredPlain(r: Record)
    requires r.kind.Some? && Plain(Recover(Project(r))) && PrintableIfAny(r.actions)
    ensures Writable(r)
  {
    assert Project(r).status.Some? && Active(StatusOf(Project(r))) ==> Printable(Project(r).status.value);
  }

  /** Exactly when a task that is closed without a mark is in the journal with what it came to: when
      every record can be written at its closing save; or when only its own can, the journal still
      holds it as it was admitted, and there is nothing more to tell about it. */
  lemma {:induction false} ClosingExact(file: File, move: Move, corrupt: seq<File>, steps: seq<Step>, s: State, disk: bool)
    requires Run(Boot(file, move, corrupt), steps, s) && PlainFile(file)
    requires s.phase.Settled? && Row(s, s.phase.id).receiptError.None?
    ensures var id := s.phase.id;
            var n := Next(s, FinaliseTask(disk));
            var c := Closed(s, id);
            Finished(n, id) ==>
              (Told(n, id) <==>
                 || AllWritable(c.records.rows)
                 || (Writable(Row(c, id)) && Recover(Project(Row(c, id))) == Unstarted(Row(c, id))))
  {
    var id := s.phase.id;
    var c := Closed(s, id);
    BootInv(file, move, corrupt);
    RunKeeps(Boot(file, move, corrupt), steps, s);
    SnappedRun(Boot(file, move, corrupt), steps, s, id);
    FinaliseExact(s, disk);
    assert Sane(s, id) && Journaled(s, id);
    StoredPlain(s.journal, id);
    if !AllWritable(c.records.rows) {
      if Stored(s.journal, id) == Some(Recover(Project(Row(c, id)))) {
        RecoveredPlain(Row(c, id));
      }
      if Writable(Row(c, id)) {
        assert !OthersWritable(s, id);
      }
    }
  }

  // ------------------------------------------------------------ the next start

  /** What a restart leaves of a record, key by key: it is stored as its receipt and given back. */
  ghost predicate ComesBack(r: Record, back: Record) {
    exists p :: IsReceiptOf(r, p) && GivesBack(p, back)
  }

  lemma RecoveredComesBack(r: Record)
    ensures ComesBack(r, Recover(Project(r)))
  {
    ProjectTells(r);
    RecoverTells(Project(r));
  }

  /** What the next start finds of a finished task that no save has missed: if it accepts the
      journal, the task with its own status, job and error, and otherwise no history at all. Only
      a task whose cancel came too late is interrupted. */
  lemma {:induction false} RestartTheorem(file: File, move: Move, corrupt: seq<File>, steps: seq<Step>, t: State, again: Move, id: Text)
    requires Run(Boot(file, move, corrupt), steps, t)
    requires Settles(t, id) && (HoldsReceipts(file) || t.born != {})
    ensures var u := Boot(t.journal, again, t.corrupt);
            if Readable(t.journal)
            then
              && id in u.records.rows && u.records.rows[id] == Recover(Project(t.records.rows[id]))
              && ComesBack(t.records.rows[id], u.records.rows[id])
              && (StatusOf(t.records.rows[id]) !in {Str(Queued), Str(Running), Str(Cancelling)} ==>
                    u.records.rows[id].status == t.records.rows[id].status)
              && u.records.rows[id].job == Some(t.records.rows[id].job.GetOr(Null))
              && u.records.rows[id].error == Some(t.records.rows[id].error.GetOr(Null))
            else u.recovered && u.records.rows == map[]
  {
    RecoveredComesBack(t.records.rows[id]);
    JournalTheorem(file, move, corrupt, steps, t, id);
    BootFinds(t.journal, again, t.corrupt, id);
  }

  lemma BootFinds(file: File, move: Move, corrupt: seq<File>, id: Text)
    requires Stored(file, id).Some?
    ensures var u := Boot(file, move, corrupt);
            if Readable(file)
            then id in u.records.rows && u.records.rows[id] == Stored(file, id).value
            else u.recovered && u.records.rows == map[]
  {
  }
}
