/** Theorems about whole runs of the task manager, restarts included. */
module TaskRuns {
  import opened Wrappers
  import opened JsonValues
  import opened Tables
  import opened Receipts
  import opened TaskSteps
  import opened TaskLaws

  /** `steps` leads from s to t. */
  ghost predicate Run(s: State, steps: seq<Step>, t: State)
    decreases |steps|
  {
    if steps == [] then s == t
    else Enabled(s, steps[0]) && Run(Next(s, steps[0]), steps[1..], t)
  }

  /** The same, within one process: no step is a restart. */
  ghost predicate ProcessRun(s: State, steps: seq<Step>, t: State) {
    Run(s, steps, t) && forall step | step in steps :: !step.Restart?
  }

  lemma {:induction false} RunKeeps(s: State, steps: seq<Step>, t: State)
    requires Inv(s) && Run(s, steps, t)
    ensures Inv(t)
    decreases |steps|
  {
    if steps != [] {
      StepKeeps(s, steps[0]);
      RunKeeps(Next(s, steps[0]), steps[1..], t);
    }
  }

  // -------------------------------------------------------------- the journal

  /** What the file holds under any id is a receipt. */
  ghost predicate HoldsReceipts(file: File) {
    forall id :: Stored(file, id).Some? ==> IsReceipt(Stored(file, id).value)
  }

  lemma SavedReceipts(t: Table<Text, Record>)
    requires Storable(t)
    ensures HoldsReceipts(Items(ReceiptList(t.rows, t.order)))
  {
    forall id | id in t.rows
      ensures IsReceipt(Recover(Project(t.rows[id])))
    {
      SavedAgrees(t.rows[id]);
      ProjectFixesReceipts(Recover(Project(t.rows[id])));
    }
    forall id
      ensures Stored(Items(ReceiptList(t.rows, t.order)), id)
              == if id in t.rows then Some(Recover(Project(t.rows[id]))) else None
    {
      SavedRow(t, id);
    }
  }

  /** The code has written this file. */
  ghost predicate Written(file: File) {
    exists t: Table<Text, Record> :: Writes(t, file)
  }

  ghost predicate Writes(t: Table<Text, Record>, file: File) {
    Storable(t) && AllWritable(t.rows) && file == Items(ReceiptList(t.rows, t.order))
  }

  lemma SaveWrites(s: State, disk: bool)
    requires Orderly(s)
    ensures SaveState(s, disk).journal == s.journal || Writes(s.records, SaveState(s, disk).journal)
  {
    OrderlyStorable(s);
  }

  lemma AdmitWrites(s: State, id: Text, caseId: Text, kind: Text, cancellable: bool, disk: bool)
    requires Orderly(s) && id !in s.known
    ensures var file := Admit(s, id, caseId, kind, cancellable, disk).journal; file == s.journal || Written(file)
  {
    if StartResult(s, id, caseId, kind, cancellable, disk) == Started {
      var r := NewRecord(id, caseId, kind, cancellable);
      AdmittedWrites(s, id, r);
    }
  }

  lemma AdmittedWrites(s: State, id: Text, r: Record)
    requires Orderly(s) && Id(r) == id && r.kind.Some? && AllWritable(s.records.rows[id := r])
    ensures Written(Admitted(s, id, r).journal)
  {
    OrderlyStorable(s);
    PutStorable(s.records, id, r);
    assert Writes(s.records.Put(id, r), Admitted(s, id, r).journal);
  }

  lemma FinaliseWrites(s: State, disk: bool)
    requires Inv(s) && s.phase.Settled?
    ensures var file := Finalise(s, s.phase.id, disk).journal;
            file == s.journal || Writes(Closed(s, s.phase.id).records, file)
  {
    ClosedKeeps(s);
    SaveWrites(Closed(s, s.phase.id), disk);
  }

  /** A step leaves the journal as it is, sets it aside, or writes it from records that it holds. */
  lemma JournalMoves(s: State, step: Step)
    requires Inv(s) && Enabled(s, step)
    ensures var file := Next(s, step).journal; file == s.journal || file == Missing || Written(file)
  {
    match step
    case Start(id, caseId, kind, cancellable, disk) => AdmitWrites(s, id, caseId, kind, cancellable, disk);
    case SubmitFails(id, disk) =>
      WithdrawnKeeps(s, id);
      SaveWrites(Withdrawn(s, id), disk);
    case RunReturns(result) => assert Return(s, s.phase.id, result).journal == s.journal;
    case FinaliseTask(disk) => FinaliseWrites(s, disk);
    case ListTasks(_, _, disk) => SaveWrites(s, disk);
    case CloseSave(disk) => SaveWrites(s, disk);
    case _ =>
  }

  /** A journal of receipts stays one over every step, restarts included. */
  lemma ReceiptsKept(s: State, step: Step)
    requires Inv(s) && Enabled(s, step) && HoldsReceipts(s.journal)
    ensures HoldsReceipts(Next(s, step).journal)
  {
    var file := Next(s, step).journal;
    JournalMoves(s, step);
    MissingHoldsReceipts();
    if Written(file) {
      var t: Table<Text, Record> :| Writes(t, file);
      SavedReceipts(t);
    }
  }

  lemma {:induction false} RunReceipts(s: State, steps: seq<Step>, t: State)
    requires Inv(s) && Run(s, steps, t) && HoldsReceipts(s.journal)
    ensures HoldsReceipts(t.journal)
    decreases |steps|
  {
    if steps != [] {
      StepKeeps(s, steps[0]);
      ReceiptsKept(s, steps[0]);
      RunReceipts(Next(s, steps[0]), steps[1..], t);
    }
  }

  /** Whatever file the first process starts from and whatever happens, restarts included: the
      journal holds every id in memory, and for a finished task that no save has missed the entry
      recovers to the recovered projection of its record exactly when that entry is a receipt.
      It always is when the first file held receipts only, or was missing, and in any case once
      the present process has admitted a task. */
  lemma {:induction false} JournalTheorem(file: File, move: Move, corrupt: seq<File>, steps: seq<Step>, t: State, id: Text)
    requires Run(Boot(file, move, corrupt), steps, t)
    ensures id in t.records.rows ==> Stored(t.journal, id).Some?
    ensures Settles(t, id) ==>
              (Stored(t.journal, id) == Some(Recover(Project(t.records.rows[id])))
               <==> IsReceipt(Stored(t.journal, id).value))
    ensures Settles(t, id) && (HoldsReceipts(file) || t.born != {}) ==>
              Stored(t.journal, id) == Some(Recover(Project(t.records.rows[id])))
  {
    var s := Boot(file, move, corrupt);
    BootInv(file, move, corrupt);
    RunKeeps(s, steps, t);
    assert Sane(t, id) && Journaled(t, id);
    if Settles(t, id) {
      EntryTells(Stored(t.journal, id).value, t.records.rows[id]);
      ProjectFixesReceipts(Stored(t.journal, id).value);
      if HoldsReceipts(file) {
        MissingHoldsReceipts();
        RunReceipts(s, steps, t);
      }
    }
  }

  /** An entry that agrees with a record as far as receipts go. */
  lemma EntryTells(kept: Record, r: Record)
    requires Project(kept) == Project(Recover(r)) && r.kind.Some?
    ensures kept == Recover(Project(r)) <==> IsReceipt(kept)
  {
    ProjectRecoverCommute(r);
    ProjectFixesReceipts(kept);
    ProjectIdempotent(Recover(r));
  }

  lemma MissingHoldsReceipts()
    ensures HoldsReceipts(Missing)
  {
  }

  /** A journal this code writes is readable at the next start exactly when every record's
      id, case id and status are non-blank texts; otherwise the whole history is set aside. */
  lemma WrittenReadable(t: Table<Text, Record>)
    requires t.Valid()
    ensures Readable(Items(ReceiptList(t.rows, t.order))) <==>
            forall id | id in t.rows :: ValidElement(Dict(t.rows[id]))
  {
    var items := ReceiptList(t.rows, t.order);
    assert forall i | 0 <= i < |items| :: items[i] in items && t.order[i] in t.rows;
    if forall e | e in items :: ValidElement(e) {
      forall id | id in t.rows
        ensures ValidElement(Dict(t.rows[id]))
      {
        var i :| 0 <= i < |t.order| && t.order[i] == id;
        assert ValidElement(items[i]);
      }
    }
  }

  /** `start` itself does not test the case id, as its caller does: one admitted blank case id
      would cost the next start its history. */
  lemma BlankCaseLosesHistory(s: State, id: Text, caseId: Text, kind: Text, cancellable: bool, disk: bool, move: Move)
    requires Inv(s) && id !in s.known && Blank(caseId)
    requires StartResult(s, id, caseId, kind, cancellable, disk) == Started
    ensures var u := Boot(Admit(s, id, caseId, kind, cancellable, disk).journal, move, s.corrupt);
            u.recovered && u.records.rows == map[]
  {
    var t := s.records.Put(id, NewRecord(id, caseId, kind, cancellable));
    assert Sane(s, id);
    OrderlyStorable(s);
    PutValid(s.records, id, NewRecord(id, caseId, kind, cancellable));
    UnreadableAfterBlank(t, id, caseId);
  }

  lemma {:induction false} UnreadableAfterBlank(t: Table<Text, Record>, id: Text, caseId: Text)
    requires t.Valid() && id in t.rows && t.rows[id].caseId == Some(Str(caseId)) && Blank(caseId)
    ensures !Readable(Items(ReceiptList(t.rows, t.order)))
  {
    assert !ValidElement(Dict(t.rows[id]));
    WrittenReadable(t);
  }

  // ---------------------------------------------------------- the queue bound

  ghost predicate NoGapCancel(s: State, steps: seq<Step>)
    decreases |steps|
  {
    steps != [] && Enabled(s, steps[0]) ==> !GapCancel(s, steps[0]) && NoGapCancel(Next(s, steps[0]), steps[1..])
  }

  lemma {:induction false} BoundKept(s: State, steps: seq<Step>, t: State)
    requires Inv(s) && Run(s, steps, t) && NoGapCancel(s, steps) && Occupied(s) <= QUEUE_LIMIT
    ensures Occupied(t) <= QUEUE_LIMIT
    decreases |steps|
  {
    if steps != [] {
      StepKeeps(s, steps[0]);
      BoundKept(Next(s, steps[0]), steps[1..], t);
    }
  }

  lemma {:induction false} NoneStranded(s: State, steps: seq<Step>, t: State)
    requires Run(s, steps, t) && s.stranded == {} && forall step | step in steps :: !step.ServicesFail?
    ensures t.stranded == {}
    decreases |steps|
  {
    if steps != [] {
      assert steps[0] in steps;
      NoneStranded(Next(s, steps[0]), steps[1..], t);
    }
  }

  /** In every run at most 17 tasks occupy the queue besides those that the worker has left behind,
      and at most 16 in all unless a task is cancelled after it has left the queue. */
  lemma {:induction false} QueueTheorem(file: File, move: Move, corrupt: seq<File>, steps: seq<Step>, t: State)
    requires Run(Boot(file, move, corrupt), steps, t)
    ensures Occupied(t) <= 17 + |t.stranded|
    ensures (forall step | step in steps :: !step.ServicesFail?) ==> Occupied(t) <= 17
    ensures NoGapCancel(Boot(file, move, corrupt), steps) ==> Occupied(t) <= 16
  {
    var s := Boot(file, move, corrupt);
    BootInv(file, move, corrupt);
    RunKeeps(s, steps, t);
    ServingOccupied(t);
    if forall step | step in steps :: !step.ServicesFail? {
      NoneStranded(s, steps, t);
    }
    if NoGapCancel(s, steps) {
      BoundKept(s, steps, t);
    }
  }

  // ------------------------------------------------------------- cancellation

  predicate OfWorker(step: Step) {
    || step.Begin? || step.CheckToken? || step.AcknowledgeCancel? || step.Progress?
    || step.RunReturns? || step.RunRaises? || step.RecordFailure? || step.FinaliseTask? || step.ServicesFail?
  }

  /** The task a step is about. */
  ghost function Subject(s: State, step: Step): Option<Text>
    requires Enabled(s, step)
  {
    if step.Begin? then Some(s.queue[0])
    else if OfWorker(step) then Some(s.phase.id)
    else match step
    case Start(id, _, _, _, _) => Some(id)
    case Submit(id) => Some(id)
    case SubmitFails(id, _) => Some(id)
    case CancelTask(_, id) => Some(id)
    case CloseToken(id) => Some(id)
    case _ => None
  }

  /** All there is to say about one task: its record without the mark that its receipt is
      unsaved, its token, whether the worker found it open, and the status first published. */
  datatype Story = Story(row: Option<Record>, token: Option<bool>, ran: bool, published: Option<Json>)

  ghost function StoryOf(s: State, id: Text): Story {
    Story(if id in s.records.rows then Some(Lasting(s.records.rows[id])) else None,
          if id in s.tokens then Some(s.tokens[id]) else None,
          id in s.ran,
          if id in s.published then Some(s.published[id]) else None)
  }

  lemma SavedStory(s: State, n: State, id: Text)
    requires n == s.(records := n.records, journal := n.journal, skipped := n.skipped)
    requires n.records == s.records || n.records == Cleared(s.records)
    ensures StoryOf(n, id) == StoryOf(s, id)
  {
  }

  lemma SaveElsewhere(s: State, disk: bool, id: Text)
    ensures StoryOf(SaveState(s, disk), id) == StoryOf(s, id)
  {
    SavedStory(s, SaveState(s, disk), id);
  }

  lemma UpdateElsewhere(s: State, done: Text, r: Record, id: Text)
    requires id != done
    ensures StoryOf(Update(s, done, r), id) == StoryOf(s, id)
  {
  }

  lemma ClosedElsewhere(s: State, done: Text, id: Text)
    requires id != done
    ensures StoryOf(Closed(s, done), id) == StoryOf(s, id)
  {
    UpdateElsewhere(s, done, Row(s, done).(actions := Some(List([]))), id);
  }

  lemma FinaliseElsewhere(s: State, done: Text, disk: bool, id: Text)
    requires id != done
    ensures StoryOf(Finalise(s, done, disk), id) == StoryOf(s, id)
  {
    var c := Closed(s, done);
    ClosedElsewhere(s, done, id);
    match SaveResult(c.records.rows, disk)
    case Saved => SaveElsewhere(c, disk, id);
    case DiskError => UpdateElsewhere(c, done, Row(c, done).(receiptError := Some(RECEIPT_ERROR)), id);
    case _ => assert StoryOf(c.(skipped := c.skipped + {done}), id) == StoryOf(c, id);
  }

  lemma AdmittedElsewhere(s: State, added: Text, r: Record, id: Text)
    requires id != added
    ensures StoryOf(Admitted(s, added, r), id) == StoryOf(s, id)
  {
  }

  lemma AdmitElsewhere(s: State, added: Text, caseId: Text, kind: Text, cancellable: bool, disk: bool, id: Text)
    requires id != added
    ensures StoryOf(Admit(s, added, caseId, kind, cancellable, disk), id) == StoryOf(s, id)
  {
    if StartResult(s, added, caseId, kind, cancellable, disk) == Started {
      AdmittedElsewhere(s, added, NewRecord(added, caseId, kind, cancellable), id);
    }
  }

  lemma ReturnElsewhere(s: State, done: Text, result: Json, id: Text)
    requires id != done
    ensures StoryOf(Return(s, done, result), id) == StoryOf(s, id)
  {
    var a := PublishResult(Row(s, done), result, Stopped(s, done));
    UpdateElsewhere(s, done, a.record, id);
    if a.ok {
    } else {
    }
  }

  lemma WorkerElsewhere(s: State, step: Step, id: Text)
    requires Enabled(s, step) && OfWorker(step) && Subject(s, step) != Some(id)
    ensures StoryOf(Next(s, step), id) == StoryOf(s, id)
  {
    match step
    case Begin =>
    case CheckToken =>
    case AcknowledgeCancel =>
    case Progress(_) =>
    case RunReturns(result) => ReturnElsewhere(s, s.phase.id, result, id);
    case RunRaises(_) =>
    case RecordFailure =>
    case FinaliseTask(disk) => FinaliseElsewhere(s, s.phase.id, disk, id);
    case ServicesFail =>
  }

  /** A step changes nothing for the other tasks. */
  lemma Elsewhere(s: State, step: Step, id: Text)
    requires Enabled(s, step) && !step.Restart? && Subject(s, step) != Some(id)
    ensures StoryOf(Next(s, step), id) == StoryOf(s, id)
  {
    if OfWorker(step) {
      WorkerElsewhere(s, step, id);
    } else {
      match step
      case Start(added, caseId, kind, cancellable, disk) =>
        AdmitElsewhere(s, added, caseId, kind, cancellable, disk, id);
      case Submit(_) =>
      case SubmitFails(other, disk) => SaveElsewhere(Withdrawn(s, other), disk, id);
      case CancelTask(_, _) =>
      case ListTasks(_, _, disk) => SaveElsewhere(s, disk, id);
      case CloseToken(_) =>
      case CloseSave(disk) => SaveElsewhere(s, disk, id);
    }
  }

  // What each step does for its own task.

  /** Once a task is over it is not the subject of any step but refused cancels. */
  lemma OverStep(s: State, step: Step, id: Text)
    requires Enabled(s, step) && !step.Restart?
    requires id in s.records.rows && id !in s.tokens && Placed(s, id) && Filed(s, id)
    ensures StoryOf(Next(s, step), id) == StoryOf(s, id)
  {
    if Subject(s, step) == Some(id) {
      assert step.CancelTask?;
      assert Next(s, step) == s;
    } else {
      Elsewhere(s, step, id);
    }
  }

  lemma KnownGrows(s: State, step: Step)
    requires Enabled(s, step) && !step.Restart?
    ensures s.known <= Next(s, step).known
  {
  }

  /** A cancel or a close has stopped the task's token before the worker has looked at it. */
  ghost predicate Barred(s: State, id: Text) {
    id in s.known && id !in s.ran && StoryOf(s, id).token != Some(false)
  }

  lemma BarredStep(s: State, step: Step, id: Text)
    requires Enabled(s, step) && !step.Restart? && Barred(s, id) && Placed(s, id)
    ensures Barred(Next(s, step), id)
  {
    KnownGrows(s, step);
    if Subject(s, step) == Some(id) {
      BarredOwnStep(s, step, id);
    } else {
      Elsewhere(s, step, id);
    }
  }

  lemma RanOnlyThen(s: State, step: Step)
    requires Enabled(s, step) && !step.Restart?
    ensures Next(s, step).ran == if step.CheckToken? && !Stopped(s, s.phase.id) then s.ran + {s.phase.id} else s.ran
  {
  }

  lemma StartTokens(s: State, id: Text, caseId: Text, kind: Text, cancellable: bool, disk: bool)
    ensures var n := Admit(s, id, caseId, kind, cancellable, disk);
            n.tokens == s.tokens || n.tokens == s.tokens[id := false]
  {
  }

  lemma CancelTokens(s: State, caseId: Text, id: Text)
    ensures var n := AfterCancel(s, caseId, id); n.tokens == s.tokens || n.tokens == s.tokens[id := true]
  {
  }

  lemma FinaliseTokens(s: State, id: Text, disk: bool)
    ensures Finalise(s, id, disk).tokens == s.tokens - {id}
  {
  }

  /** Apart from these kinds of step none touches a token. */
  lemma SameTokens(s: State, step: Step)
    requires Enabled(s, step) && !step.Restart?
    requires !step.Start? && !step.FinaliseTask? && !step.SubmitFails? && !step.CancelTask? && !step.CloseToken?
    ensures Next(s, step).tokens == s.tokens
  {
  }

  lemma TokenStaysStopped(s: State, step: Step, id: Text)
    requires Enabled(s, step) && !step.Restart? && id in s.known && !(id in s.tokens && !s.tokens[id])
    ensures !(id in Next(s, step).tokens && !Next(s, step).tokens[id])
  {
    match step
    case Start(x, caseId, kind, cancellable, disk) => StartTokens(s, x, caseId, kind, cancellable, disk);
    case FinaliseTask(disk) => FinaliseTokens(s, s.phase.id, disk);
    case SubmitFails(x, disk) => assert SaveState(Withdrawn(s, x), disk).tokens == s.tokens - {x};
    case CancelTask(caseId, x) => CancelTokens(s, caseId, x);
    case CloseToken(_) =>
    case _ => SameTokens(s, step);
  }

  /** Of its own steps a task that is barred from `run` takes none that enters it. */
  lemma BarredOwnStep(s: State, step: Step, id: Text)
    requires Enabled(s, step) && !step.Restart? && Barred(s, id) && Placed(s, id) && Subject(s, step) == Some(id)
    ensures id !in Next(s, step).ran && StoryOf(Next(s, step), id).token != Some(false)
  {
    RanOnlyThen(s, step);
    TokenStaysStopped(s, step, id);
  }

  /** A cancel or a close has stopped the task's token before its outcome was published. */
  ghost predicate Doomed(s: State, id: Text) {
    && id in s.known
    && StoryOf(s, id).token != Some(false)
    && (id in s.published ==> s.published[id] == CANCELLED)
  }

  lemma DoomedFinalise(s: State, id: Text, disk: bool)
    requires Doomed(s, id)
    ensures Doomed(Finalise(s, id, disk), id)
  {
    var c := Closed(s, id);
    if SaveResult(c.records.rows, disk) == Saved {
      SaveElsewhere(c, disk, id);
    }
  }

  lemma DoomedReturned(s: State, id: Text, a: Attempt)
    requires Doomed(s, id) && (a.ok ==> StatusOf(a.record) == CANCELLED)
    ensures Doomed(Returned(s, id, a), id)
  {
    if a.ok {
    } else {
    }
  }

  lemma PublishCancelled(r: Record, result: Json)
    ensures var a := PublishResult(r, result, true); a.ok ==> StatusOf(a.record) == CANCELLED
  {
  }

  lemma DoomedReturn(s: State, id: Text, result: Json)
    requires Doomed(s, id) && id in s.tokens
    ensures Doomed(Return(s, id, result), id)
  {
    assert Stopped(s, id);
    PublishCancelled(Row(s, id), result);
    DoomedReturned(s, id, PublishResult(Row(s, id), result, true));
  }

  lemma DoomedOwnStep(s: State, step: Step, id: Text)
    requires Enabled(s, step) && !step.Restart? && Doomed(s, id) && Placed(s, id)
    requires Subject(s, step) == Some(id)
    ensures Doomed(Next(s, step), id)
  {
    if OfWorker(step) {
      DoomedWorkerStep(s, step, id);
    } else {
      match step
      case Submit(_) =>
      case SubmitFails(_, disk) => SaveElsewhere(Withdrawn(s, id), disk, id);
      case CancelTask(_, _) =>
      case CloseToken(_) =>
      case _ =>
    }
  }

  lemma DoomedWorkerStep(s: State, step: Step, id: Text)
    requires Enabled(s, step) && OfWorker(step) && Doomed(s, id) && Placed(s, id) && Subject(s, step) == Some(id)
    ensures Doomed(Next(s, step), id)
  {
    match step
    case Begin =>
    case CheckToken =>
    case AcknowledgeCancel =>
    case Progress(_) =>
    case RunReturns(result) => DoomedReturn(s, id, result);
    case RunRaises(_) =>
    case RecordFailure =>
    case FinaliseTask(disk) => DoomedFinalise(s, id, disk);
    case ServicesFail =>
  }

  lemma DoomedStep(s: State, step: Step, id: Text)
    requires Enabled(s, step) && !step.Restart? && Doomed(s, id) && Placed(s, id)
    ensures Doomed(Next(s, step), id)
  {
    if Subject(s, step) == Some(id) {
      DoomedOwnStep(s, step, id);
    } else {
      KnownGrows(s, step);
      Elsewhere(s, step, id);
    }
  }

  lemma {:induction false} BarredRun(s: State, steps: seq<Step>, t: State, id: Text)
    requires Inv(s) && ProcessRun(s, steps, t) && Barred(s, id)
    ensures Barred(t, id)
    decreases |steps|
  {
    if steps != [] {
      assert steps[0] in steps && Sane(s, id);
      StepKeeps(s, steps[0]);
      BarredStep(s, steps[0], id);
      BarredRun(Next(s, steps[0]), steps[1..], t, id);
    }
  }

  lemma {:induction false} DoomedRun(s: State, steps: seq<Step>, t: State, id: Text)
    requires Inv(s) && ProcessRun(s, steps, t) && Doomed(s, id)
    ensures Doomed(t, id)
    decreases |steps|
  {
    if steps != [] {
      assert steps[0] in steps && Sane(s, id);
      StepKeeps(s, steps[0]);
      DoomedStep(s, steps[0], id);
      DoomedRun(Next(s, steps[0]), steps[1..], t, id);
    }
  }

  /** A cancel accepted before the worker has looked at the token keeps `run` from ever being
      entered; one accepted before the outcome is published makes that outcome CANCELLED. */
  lemma {:induction false} CancelTheorem(s: State, caseId: Text, id: Text, steps: seq<Step>, t: State)
    requires Inv(s) && CancelAccepted(s, caseId, id)
    requires ProcessRun(Next(s, CancelTask(caseId, id)), steps, t)
    ensures id !in s.ran ==> id !in t.ran
    ensures id !in s.published && id in t.published ==> t.published[id] == CANCELLED
  {
    var n := Next(s, CancelTask(caseId, id));
    assert Sane(s, id);
    StepKeeps(s, CancelTask(caseId, id));
    if id !in s.ran {
      BarredRun(n, steps, t, id);
    }
    if id !in s.published {
      DoomedRun(n, steps, t, id);
    }
  }

  lemma {:induction false} OverRun(s: State, steps: seq<Step>, t: State, id: Text)
    requires Inv(s) && ProcessRun(s, steps, t) && id in s.records.rows && id !in s.tokens
    ensures StoryOf(t, id) == StoryOf(s, id)
    decreases |steps|
  {
    if steps != [] {
      assert steps[0] in steps && Sane(s, id);
      StepKeeps(s, steps[0]);
      OverStep(s, steps[0], id);
      OverRun(Next(s, steps[0]), steps[1..], t, id);
    }
  }

  /** A task without a token keeps its record for good, and every cancel of it is refused. */
  lemma {:induction false} FinalTheorem(s: State, steps: seq<Step>, t: State, id: Text)
    requires Inv(s) && ProcessRun(s, steps, t) && id in s.records.rows && id !in s.tokens
    ensures id in t.records.rows && Lasting(t.records.rows[id]) == Lasting(s.records.rows[id])
    ensures id !in t.tokens && forall caseId :: !CancelAccepted(t, caseId, id)
  {
    OverRun(s, steps, t, id);
    assert StoryOf(t, id).row == StoryOf(s, id).row;
    assert StoryOf(t, id).token == None;
  }

  /** In every reachable state a record that offers CANCEL has a live token. */
  lemma {:induction false} OfferTheorem(file: File, move: Move, corrupt: seq<File>, steps: seq<Step>, t: State, id: Text)
    requires Run(Boot(file, move, corrupt), steps, t)
    ensures id in t.records.rows && OffersCancel(t.records.rows[id]) ==> id in t.tokens
  {
    BootInv(file, move, corrupt);
    RunKeeps(Boot(file, move, corrupt), steps, t);
    assert Sane(t, id);
  }

  /** Marked as being cancelled after its outcome was published. */
  ghost predicate Lost(s: State, id: Text) {
    && id in s.records.rows && StatusOf(s.records.rows[id]) == CANCELLING
    && (id in s.tokens ==> s.phase == Settled(id) || id in s.stranded)
  }

  lemma LostFinalise(s: State, id: Text, disk: bool)
    requires id in s.records.rows && StatusOf(s.records.rows[id]) == CANCELLING
    ensures Lost(Finalise(s, id, disk), id)
  {
    var c := Closed(s, id);
    if SaveResult(c.records.rows, disk) == Saved {
      SaveElsewhere(c, disk, id);
      assert StoryOf(c, id).row == StoryOf(SaveState(c, disk), id).row;
    }
  }

  lemma LostOwnStep(s: State, step: Step, id: Text)
    requires Enabled(s, step) && !step.Restart? && Lost(s, id) && Sane(s, id) && Subject(s, step) == Some(id)
    ensures Lost(Next(s, step), id)
  {
    if step.FinaliseTask? {
      LostFinalise(s, id, step.disk);
    } else {
      assert step.ServicesFail? || step.CancelTask? || step.CloseToken?;
    }
  }

  lemma LostStep(s: State, step: Step, id: Text)
    requires Inv(s) && Enabled(s, step) && !step.Restart? && Lost(s, id)
    ensures Lost(Next(s, step), id)
  {
    assert Sane(s, id);
    if Subject(s, step) == Some(id) {
      LostOwnStep(s, step, id);
    } else {
      Elsewhere(s, step, id);
      LostElsewhere(s, Next(s, step), id);
      StepKeeps(s, step);
      assert Sane(Next(s, step), id);
    }
  }

  lemma LostElsewhere(s: State, n: State, id: Text)
    requires Lost(s, id) && StoryOf(n, id) == StoryOf(s, id)
    ensures id in n.records.rows && StatusOf(n.records.rows[id]) == CANCELLING
    ensures id in n.tokens <==> id in s.tokens
  {
    assert Lasting(n.records.rows[id]) == Lasting(s.records.rows[id]);
  }

  lemma {:induction false} LostRun(s: State, steps: seq<Step>, t: State, id: Text)
    requires Inv(s) && ProcessRun(s, steps, t) && Lost(s, id)
    ensures Lost(t, id)
    decreases |steps|
  {
    if steps != [] {
      assert steps[0] in steps;
      StepKeeps(s, steps[0]);
      LostStep(s, steps[0], id);
      LostRun(Next(s, steps[0]), steps[1..], t, id);
    }
  }

  /** A cancel of a task that has left the queue takes a place in it again. Once the outcome was
      published the task keeps that place, as CANCELLING, until the process ends. */
  lemma {:induction false} GapCancelLeaks(s: State, caseId: Text, id: Text, steps: seq<Step>, t: State)
    requires Inv(s) && GapCancel(s, CancelTask(caseId, id)) && !(s.phase.Raised? && s.phase.id == id)
    requires ProcessRun(Next(s, CancelTask(caseId, id)), steps, t)
    ensures Occupied(Next(s, CancelTask(caseId, id))) == Occupied(s) + 1
    ensures id in ActiveIds(t.records.rows) && StatusOf(t.records.rows[id]) == CANCELLING
  {
    var n := Next(s, CancelTask(caseId, id));
    assert Sane(s, id);
    StepKeeps(s, CancelTask(caseId, id));
    CancelKeeps(s, caseId, id);
    LostRun(n, steps, t, id);
  }

  /** Only when the publishing block raised does the worker's next block give the place back. */
  lemma GapCancelHeals(s: State, caseId: Text, id: Text)
    requires Inv(s) && GapCancel(s, CancelTask(caseId, id)) && s.phase.Raised? && s.phase.id == id
    ensures var n := AfterCancel(s, caseId, id);
            Occupied(n) == Occupied(s) + 1 && n.phase.Raised? && Occupied(Next(n, RecordFailure)) == Occupied(s)
  {
    CancelKeeps(s, caseId, id);
    CancelMarks(s, caseId, id);
    FailureLeaves(AfterCancel(s, caseId, id));
  }

  lemma CancelMarks(s: State, caseId: Text, id: Text)
    requires CancelAccepted(s, caseId, id)
    ensures var n := AfterCancel(s, caseId, id); n.phase == s.phase && StatusOf(Row(n, id)) == CANCELLING
  {
  }

  /** Recording a failure takes the worker's task out of the queue. */
  lemma FailureLeaves(s: State)
    requires s.phase.Raised?
    ensures Occupied(Next(s, RecordFailure)) == Occupied(s) - One(StatusOf(Row(s, s.phase.id)))
  {
    var id := s.phase.id;
    OccupiedAfterUpdate(s, id, FailRecord(Row(s, id), s.phase.cause, Stopped(s, id)));
  }

  // ------------------------------------------------------ what is published

  ghost predicate NoJobAfter(items: seq<Json>, k: int, n: nat)
    requires n <= |items|
  {
    forall j | k < j < n && 0 <= j :: !(items[j].Obj? && JobType in items[j].fields)
  }

  /** The last of the first n items that is a job. */
  ghost predicate LastJob(items: seq<Json>, k: int, n: nat)
    requires n <= |items|
  {
    0 <= k < n && items[k].Obj? && JobType in items[k].fields && NoJobAfter(items, k, n)
  }

  lemma {:induction false} ScanRaises(r: Record, items: seq<Json>, n: nat)
    requires n <= |items|
    ensures ScanJobs(r, items, n).ok
            <==> forall j | 0 <= j < n && items[j].Obj? && JobType in items[j].fields :: JobStatusKey in items[j].fields
  {
    if n > 0 {
      ScanRaises(r, items, n - 1);
    }
  }

  lemma {:induction false} ScanSame(r: Record, items: seq<Json>, n: nat)
    requires n <= |items| && NoJobAfter(items, -1, n)
    ensures ScanJobs(r, items, n).record == r
  {
    if n > 0 {
      assert !IsJob(items[n - 1]);
      ScanSame(r, items, n - 1);
    }
  }

  lemma {:induction false} ScanTakes(r: Record, items: seq<Json>, k: nat, n: nat)
    requires n <= |items| && LastJob(items, k, n) && ScanJobs(r, items, n).ok
    ensures ScanJobs(r, items, n).record.job == Some(items[k])
    ensures JobStatusKey in items[k].fields && ScanJobs(r, items, n).record.status == Some(items[k].fields[JobStatusKey])
  {
    if k < n - 1 {
      assert !IsJob(items[n - 1]);
      ScanTakes(r, items, k, n - 1);
    }
  }

  /** The loop raises exactly when one of the jobs has no status; otherwise the last job wins. */
  lemma {:induction false} ScanTells(r: Record, items: seq<Json>, n: nat)
    requires n <= |items|
    ensures ScanJobs(r, items, n).ok
            <==> forall j | 0 <= j < n && items[j].Obj? && JobType in items[j].fields :: JobStatusKey in items[j].fields
    ensures ScanJobs(r, items, n).ok && NoJobAfter(items, -1, n) ==> ScanJobs(r, items, n).record == r
    ensures ScanJobs(r, items, n).ok ==>
              forall k | LastJob(items, k, n) ::
                && ScanJobs(r, items, n).record.job == Some(items[k])
                && JobStatusKey in items[k].fields
                && ScanJobs(r, items, n).record.status == Some(items[k].fields[JobStatusKey])
  {
    ScanRaises(r, items, n);
    if NoJobAfter(items, -1, n) {
      ScanSame(r, items, n);
    }
    if ScanJobs(r, items, n).ok {
      forall k | LastJob(items, k, n)
        ensures ScanJobs(r, items, n).record.job == Some(items[k])
        ensures JobStatusKey in items[k].fields
        ensures ScanJobs(r, items, n).record.status == Some(items[k].fields[JobStatusKey])
      {
        ScanTakes(r, items, k, n);
      }
    }
  }

  /** What the publish block does: it raises exactly when the reported job cannot be asked for
      its status or a job in the result has none; a cancel wins over everything, the last job
      in a result list over what was reported, and an admitted gap over success. */
  lemma PublishTells(r: Record, result: Json, cancelled: bool)
    ensures var a := PublishResult(r, result, cancelled);
            && a.record.result == Some(result)
            && (a.ok <==>
                  && JobStatus(r.job.GetOr(Null)).Some?
                  && (result.List? ==> forall j | 0 <= j < |result.items| && result.items[j].Obj? && JobType in result.items[j].fields ::
                                         JobStatusKey in result.items[j].fields))
            && (a.ok && cancelled ==> a.record.status == Some(CANCELLED))
            && (a.ok && !cancelled && result.List? ==>
                  forall k | LastJob(result.items, k, |result.items|) ::
                    a.record.job == Some(result.items[k])
                    && a.record.status == Some(result.items[k].fields[JobStatusKey]))
            && (a.ok && !cancelled && (result.List? ==> NoJobAfter(result.items, -1, |result.items|)) ==>
                  a.record.status == if SaysPartial(result) then Some(PARTIAL) else JobStatus(r.job.GetOr(Null)))
  {
    if result.List? && JobStatus(r.job.GetOr(Null)).Some? {
      var told := WithStatus(r.(result := Some(result)), JobStatus(r.job.GetOr(Null)).value);
      ScanTells(told, result.items, |result.items|);
      ScanKeeps(told, result.items, |result.items|);
    }
  }
}
