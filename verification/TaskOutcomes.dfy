/** What a task comes to: each step in the words of the record, and what later steps leave of it. */
module TaskOutcomes {
  import opened Wrappers
  import opened JsonValues
  import opened Tables
  import opened Receipts
  import opened TaskSteps
  import opened TaskLaws
  import opened TaskRuns
  import opened TaskJournal

  /** Nothing but this row has changed among the records, the tokens and the journal. */
  ghost predicate OnlyRow(s: State, n: State, id: Text) {
    && n.records.order == s.records.order && n.records.rows.Keys == s.records.rows.Keys
    && (forall x | x in s.records.rows && x != id :: n.records.rows[x] == s.records.rows[x])
    && n.tokens == s.tokens && n.journal == s.journal
  }

  // --------------------------------------------------------------- admission

  /** The record of a new task. */
  ghost predicate IsNew(r: Record, id: Text, caseId: Text, kind: Text, cancellable: bool) {
    && r.taskId == Some(Str(id)) && r.caseId == Some(Str(caseId)) && r.kind == Some(Str(kind))
    && r.status == Some(Str(Queued)) && r.job == Some(Null) && r.error == Some(Null)
    && r.result == None && r.receiptError == None && r.extra == map[]
    && r.actions == Some(List(if cancellable then [Str(Cancel)] else []))
  }

  lemma SavedAll(t: Table<Text, Record>, n: State)
    requires Storable(t) && n.records == Cleared(t) && n.journal == Items(ReceiptList(t.rows, t.order))
    ensures forall x | x in n.records.rows :: Told(n, x) && n.records.rows[x].receiptError.None?
  {
    forall x | x in n.records.rows
      ensures Told(n, x)
    {
      SavedRow(t, x);
      assert Project(Cleared(t).rows[x]) == Project(t.rows[x]);
    }
  }

  /** An admitted task waits with an open token, can be cancelled exactly when that was asked for, and
      the journal then holds every task with what it has come to so far. */
  lemma AdmissionTells(s: State, id: Text, caseId: Text, kind: Text, cancellable: bool, disk: bool)
    requires Inv(s) && id !in s.known && StartResult(s, id, caseId, kind, cancellable, disk) == Started
    ensures var n := Next(s, Start(id, caseId, kind, cancellable, disk));
            && n.records.order == s.records.order + [id] && n.records.rows.Keys == s.records.rows.Keys + {id}
            && IsNew(n.records.rows[id], id, caseId, kind, cancellable)
            && (OffersCancel(n.records.rows[id]) <==> cancellable)
            && n.tokens == s.tokens[id := false] && n.admitted == s.admitted + {id}
            && (forall x | x in s.records.rows :: n.records.rows[x] == s.records.rows[x].(receiptError := None))
            && (forall x | x in n.records.rows :: Told(n, x))
  {
    var r := NewRecord(id, caseId, kind, cancellable);
    assert Sane(s, id);
    OrderlyStorable(s);
    NewTells(id, caseId, kind, cancellable);
    AdmittedTells(s, id, r);
  }

  lemma NewTells(id: Text, caseId: Text, kind: Text, cancellable: bool)
    ensures var r := NewRecord(id, caseId, kind, cancellable);
            IsNew(r, id, caseId, kind, cancellable) && (OffersCancel(r) <==> cancellable)
  {
    assert cancellable ==> NewRecord(id, caseId, kind, cancellable).actions.value.items[0] == CANCEL;
  }

  lemma AdmittedTells(s: State, id: Text, r: Record)
    requires Storable(s.records) && id !in s.records.rows && Id(r) == id && r.kind.Some? && r.receiptError.None?
    ensures var n := Admitted(s, id, r);
            && n.records.order == s.records.order + [id] && n.records.rows.Keys == s.records.rows.Keys + {id}
            && n.records.rows[id] == r && n.tokens == s.tokens[id := false] && n.admitted == s.admitted + {id}
            && (forall x | x in s.records.rows :: n.records.rows[x] == s.records.rows[x].(receiptError := None))
            && (forall x | x in n.records.rows :: Told(n, x))
  {
    PutStorable(s.records, id, r);
    SavedAll(s.records.Put(id, r), Admitted(s, id, r));
  }

  lemma SaveSplits(rows: map<Text, Record>, id: Text, r: Record)
    requires id !in rows && Hashable(KindOf(r)) && Writable(r)
    ensures KindsHashable(rows[id := r]) <==> forall x | x in rows :: Hashable(KindOf(rows[x]))
    ensures AllWritable(rows[id := r]) <==> forall x | x in rows :: Writable(rows[x])
  {
    assert forall x | x in rows :: x in rows[id := r] && rows[id := r][x] == rows[x];
  }

  /** Why a task is not admitted, in the order in which the reasons are met. */
  lemma RefusalTells(s: State, id: Text, caseId: Text, kind: Text, cancellable: bool, disk: bool)
    requires id !in s.records.rows
    ensures var o := StartResult(s, id, caseId, kind, cancellable, disk);
            var counts := forall x | x in s.records.rows :: Hashable(StatusOf(s.records.rows[x]));
            var kinds := forall x | x in s.records.rows :: Hashable(KindOf(s.records.rows[x]));
            var writes := forall x | x in s.records.rows :: Writable(s.records.rows[x]);
            && (o == StatusError <==> !counts)
            && (o == QueueFull <==> counts && Occupied(s) >= 16)
            && (o == NotSaved(KindError) <==> counts && Occupied(s) < 16 && !kinds)
            && (o == NotSaved(PrintError) <==> counts && Occupied(s) < 16 && kinds && !writes)
            && (o == NotSaved(DiskError) <==> counts && Occupied(s) < 16 && kinds && writes && !disk)
  {
    var r := NewRecord(id, caseId, kind, cancellable);
    PlainNew(id, caseId, kind, cancellable);
    PlainProjects(r);
    SaveSplits(s.records.rows, id, r);
  }

  /** A save that succeeds changes no record but for the marks; one that fails changes nothing. */
  lemma SaveTells(s: State, disk: bool)
    requires Storable(s.records)
    ensures var n := SaveState(s, disk);
            && n.records.rows.Keys == s.records.rows.Keys && n.tokens == s.tokens && n.admitted == s.admitted
            && (forall x | x in s.records.rows :: Lasting(n.records.rows[x]) == Lasting(s.records.rows[x]))
            && (if SaveResult(s.records.rows, disk) == Saved then
                  (forall x :: Stored(n.journal, x).Some? <==> x in s.records.rows) && forall x | x in n.records.rows :: Told(n, x)
                else n == s)
  {
    forall x
      ensures SaveResult(s.records.rows, disk) == Saved ==> (Stored(SaveState(s, disk).journal, x).Some? <==> x in s.records.rows)
    {
      SavedRow(s.records, x);
    }
    if SaveResult(s.records.rows, disk) == Saved {
      SavedAll(s.records, SaveState(s, disk));
    }
  }

  /** A refused submit takes record and token back, and with a save the receipt as well. */
  lemma WithdrawTells(s: State, id: Text, disk: bool)
    requires Inv(s) && id in s.admitted
    ensures var n := SaveState(Withdrawn(s, id), disk);
            && n == Next(s, SubmitFails(id, disk))
            && n.records.rows.Keys == s.records.rows.Keys - {id} && n.tokens == s.tokens - {id} && n.admitted == s.admitted - {id}
            && (forall x | x in n.records.rows :: Lasting(n.records.rows[x]) == Lasting(s.records.rows[x]))
            && (SaveResult(s.records.rows - {id}, disk) == Saved ==> Stored(n.journal, id) == None)
            && (SaveResult(s.records.rows - {id}, disk) != Saved ==> n.journal == s.journal)
  {
    WithdrawnKeeps(s, id);
    OrderlyStorable(Withdrawn(s, id));
    SaveTells(Withdrawn(s, id), disk);
  }

  /** A task that has reached the pool waits behind all others. */
  lemma SubmitTells(s: State, id: Text)
    requires Inv(s) && id in s.admitted
    ensures var n := Next(s, Submit(id));
            && n == s.(admitted := n.admitted, queue := n.queue)
            && n.admitted == s.admitted - {id} && n.queue == s.queue + [id]
  {
  }

  // -------------------------------------------------------------- the worker

  /** The worker takes the head of the queue and says that it is running. */
  lemma BeginTells(s: State)
    requires Inv(s) && Enabled(s, Begin)
    ensures var id := s.queue[0];
            var n := Next(s, Begin);
            && id in s.records.rows && OnlyRow(s, n, id) && s.queue == [id] + n.queue && n.phase == Begun(id)
            && n.records.rows[id] == s.records.rows[id].(status := Some(Str(Running)))
  {
    assert s.queue[0] in s.queue && Sane(s, s.queue[0]);
  }

  /** It goes on into `run` exactly when the token is still open. */
  lemma LookTells(s: State)
    requires Inv(s) && s.phase.Begun?
    ensures var id := s.phase.id;
            var n := Next(s, CheckToken);
            && id in s.tokens && OnlyRow(s, n, id) && n.records == s.records
            && n.phase == (if s.tokens[id] then SawCancel(id) else Working(id))
            && n.ran == (if s.tokens[id] then s.ran else s.ran + {id})
  {
    assert Sane(s, s.phase.id);
  }

  lemma ProgressTells(s: State, job: Json)
    requires Inv(s) && s.phase.Working?
    ensures var id := s.phase.id;
            var n := Next(s, Progress(job));
            && id in s.records.rows && OnlyRow(s, n, id) && n.phase == s.phase
            && n.records.rows[id] == s.records.rows[id].(job := Some(job))
  {
    assert Sane(s, s.phase.id);
  }

  /** An exception is kept until it is recorded; nothing else changes. */
  lemma RaiseTells(s: State, cause: Json)
    requires Inv(s) && s.phase.Working?
    ensures Next(s, RunRaises(cause)) == s.(phase := Raised(s.phase.id, cause))
  {
  }

  /** A failing close leaves the token and the row as they are, and the worker free. */
  lemma StrandTells(s: State)
    requires Inv(s) && s.phase.Settled? && s.phase.id in s.ran
    ensures var n := Next(s, ServicesFail);
            n == s.(phase := Idle, stranded := n.stranded) && n.stranded == s.stranded + {s.phase.id}
  {
  }

  /** A task that is stopped before `run` is published as cancelled. */
  lemma AcknowledgeTells(s: State)
    requires Inv(s) && s.phase.SawCancel?
    ensures var id := s.phase.id;
            var n := Next(s, AcknowledgeCancel);
            && id in s.records.rows && OnlyRow(s, n, id) && n.phase == Settled(id)
            && n.records.rows[id] == s.records.rows[id].(status := Some(Str(Cancelled)))
            && n.published == s.published[id := Str(Cancelled)]
  {
    assert Sane(s, s.phase.id);
  }

  /** An exception is published as failed, or as cancelled exactly when the token is stopped, with the
      cause on the record; nothing else about any record changes. */
  lemma FailureTells(s: State)
    requires Inv(s) && s.phase.Raised?
    ensures var id := s.phase.id;
            var n := Next(s, RecordFailure);
            && id in s.tokens && id in s.records.rows && OnlyRow(s, n, id) && n.phase == Settled(id)
            && (n.records.rows[id].status == Some(Str(Failed)) <==> !s.tokens[id])
            && (n.records.rows[id].status == Some(Str(Cancelled)) <==> s.tokens[id])
            && n.records.rows[id].error == Some(s.phase.cause)
            && n.records.rows[id] == s.records.rows[id].(status := n.records.rows[id].status, error := n.records.rows[id].error)
            && id in n.published && Some(n.published[id]) == n.records.rows[id].status
            && (forall x | x != id :: x in n.published <==> x in s.published)
            && (forall x | x != id && x in s.published :: n.published[x] == s.published[x])
  {
    assert Sane(s, s.phase.id);
  }

  /** What python takes for false. */
  lemma FalsyTells(j: Json)
    ensures !Truthy(j) <==> j in {Null, Bool(false), Num(0.0), Str(Other("")), List([]), Obj(map[])}
  {
  }

  /** The status of a reported job: success when there is none or it names none, and an exception
      when it is no dictionary. */
  lemma JobStatusTells(job: Json)
    ensures job in {Null, Bool(false), Num(0.0), Str(Other("")), List([]), Obj(map[])} ==> JobStatus(job) == Some(Str(Succeeded))
    ensures job.Obj? && JobStatusKey in job.fields ==> JobStatus(job) == Some(job.fields[JobStatusKey])
    ensures job.Obj? && JobStatusKey !in job.fields ==> JobStatus(job) == Some(Str(Succeeded))
    ensures JobStatus(job) == None <==>
            !job.Obj? && job !in {Null, Bool(false), Num(0.0), Str(Other("")), List([])}
  {
    FalsyTells(job);
  }

  /** A result is partial when it says so, or says that it has not covered everything. */
  lemma PartialTells(result: Json)
    ensures SaysPartial(result) <==>
            && result.Obj?
            && (|| (Kept(IsPartial) in result.fields
                    && result.fields[Kept(IsPartial)] !in {Null, Bool(false), Num(0.0), Str(Other("")), List([]), Obj(map[])})
                || (Kept(CoverageComplete) in result.fields && result.fields[Kept(CoverageComplete)] == Bool(false)))
  {
    if result.Obj? {
      FalsyTells(Get(result.fields, Kept(IsPartial)).GetOr(Null));
    }
  }

  /** What leaves the publishing block, and that everything but result, job and status stays. */
  lemma ReturnTells(s: State, result: Json)
    requires Inv(s) && s.phase.Working?
    ensures var id := s.phase.id;
            var n := Next(s, RunReturns(result));
            && id in s.tokens && id in s.records.rows && OnlyRow(s, n, id)
            && n.records.rows[id] == s.records.rows[id].(result := Some(result), job := n.records.rows[id].job, status := n.records.rows[id].status)
            && (!result.List? ==> n.records.rows[id].job == s.records.rows[id].job)
            && (n.phase == Settled(id) ==> id in n.published && Some(n.published[id]) == n.records.rows[id].status)
            && (n.phase != Settled(id) ==> n.published == s.published && n.phase == Raised(id, Unexpected()))
  {
    var id := s.phase.id;
    assert Sane(s, id);
    PublishFields(Row(s, id), result, Stopped(s, id));
    ReturnedRow(s, id, PublishResult(Row(s, id), result, Stopped(s, id)));
  }

  /** The public error of an exception that carries no code of its own. */
  function Unexpected(): Json {
    Obj(map[Code := Str(DesktopOperationFailed), MessageKey := Str(ErrorDesktopOperationFailed), Retryable := Bool(false)])
  }

  lemma ReturnedRow(s: State, id: Text, a: Attempt)
    requires id in s.records.rows
    ensures var n := Returned(s, id, a);
            && OnlyRow(s, n, id) && n.records.rows[id] == a.record
            && (a.ok ==> n.phase == Settled(id) && id in n.published && n.published[id] == StatusOf(a.record))
            && (!a.ok ==> n.phase == Raised(id, Unexpected()) && n.published == s.published)
  {
  }

  lemma PublishFields(r: Record, result: Json, cancelled: bool)
    ensures var a := PublishResult(r, result, cancelled).record;
            a == r.(result := Some(result), job := a.job, status := a.status) && (!result.List? ==> a.job == r.job)
    ensures PublishResult(r, result, cancelled).ok ==> PublishResult(r, result, cancelled).record.status.Some?
  {
    if JobStatus(r.job.GetOr(Null)).Some? && result.List? {
      var told := WithStatus(r.(result := Some(result)), JobStatus(r.job.GetOr(Null)).value);
      ScanFields(told, result.items, |result.items|);
    }
  }

  lemma {:induction false} ScanFields(r: Record, items: seq<Json>, n: nat)
    requires n <= |items|
    ensures var a := ScanJobs(r, items, n).record;
            a == r.(job := a.job, status := a.status) && (r.status.Some? ==> a.status.Some?)
  {
    if n > 0 {
      ScanFields(r, items, n - 1);
    }
  }

  /** The closing block takes the token and the offers away, and marks the record exactly when every
      record can be written and the disk refuses. */
  lemma CloseTells(s: State, disk: bool)
    requires Inv(s) && s.phase.Settled?
    ensures var id := s.phase.id;
            var n := Next(s, FinaliseTask(disk));
            && n.tokens == s.tokens - {id} && n.phase.Idle? && n.records.rows.Keys == s.records.rows.Keys && id in s.records.rows
            && Lasting(n.records.rows[id]) == Lasting(s.records.rows[id].(actions := Some(List([]))))
            && (AllWritable(Closed(s, id).records.rows) && !disk ==>
                  n.records.rows[id].receiptError
                  == Some(Obj(map[Code := Str(TaskReceiptNotSaved), MessageKey := Str(ErrorTaskReceiptNotSaved), Retryable := Bool(true)])))
            && (forall x | x in s.records.rows && x != id :: Lasting(n.records.rows[x]) == Lasting(s.records.rows[x]))
  {
    var id := s.phase.id;
    assert Sane(s, id);
    ClosedHashable(s);
    ClosedTells(s, id);
    FinaliseRows(Closed(s, id), id, disk);
  }

  lemma ClosedHashable(s: State)
    requires Inv(s) && s.phase.Settled?
    ensures KindsHashable(Closed(s, s.phase.id).records.rows)
  {
    ClosedKeeps(s);
    assert forall x | x in Closed(s, s.phase.id).records.rows :: Row(Closed(s, s.phase.id), x) == Closed(s, s.phase.id).records.rows[x];
  }

  lemma ClosedTells(s: State, id: Text)
    requires id in s.records.rows
    ensures var c := Closed(s, id);
            && c.tokens == s.tokens - {id} && c.phase.Idle? && c.records.rows.Keys == s.records.rows.Keys
            && c.records.rows[id] == s.records.rows[id].(actions := Some(List([])))
            && (forall x | x in s.records.rows && x != id :: c.records.rows[x] == s.records.rows[x])
  {
  }

  lemma FinaliseRows(c: State, id: Text, disk: bool)
    requires id in c.records.rows && KindsHashable(c.records.rows)
    ensures var n := match SaveResult(c.records.rows, disk)
              case Saved => SaveState(c, disk)
              case DiskError => MarkUnsaved(c, id)
              case _ => c.(skipped := c.skipped + {id});
            && n.tokens == c.tokens && n.phase == c.phase && n.records.rows.Keys == c.records.rows.Keys
            && (forall x | x in c.records.rows :: Lasting(n.records.rows[x]) == Lasting(c.records.rows[x]))
            && (AllWritable(c.records.rows) && !disk ==> n.records.rows[id].receiptError == Some(RECEIPT_ERROR))
  {
  }

  // -------------------------------------------------------- over whole runs

  /** The part of a record that a task has come to. */
  ghost function Fixed(r: Record): Record { r.(status := None, actions := None, receiptError := None) }

  /** The task was published with this status, and its record is still what it was then, but for a
      cancel that came too late. */
  ghost predicate CameTo(s: State, id: Text, r: Record, status: Json) {
    && id in s.records.rows && id in s.published && s.published[id] == status
    && Fixed(s.records.rows[id]) == Fixed(r)
    && (s.records.rows[id].status == r.status || s.records.rows[id].status == Some(Str(Cancelling)))
  }

  lemma CameToElsewhere(s: State, n: State, id: Text, r: Record, status: Json)
    requires CameTo(s, id, r, status) && StoryOf(n, id) == StoryOf(s, id)
    ensures CameTo(n, id, r, status)
  {
    assert Lasting(n.records.rows[id]) == Lasting(s.records.rows[id]);
    assert Fixed(Lasting(n.records.rows[id])) == Fixed(n.records.rows[id]);
    assert Fixed(Lasting(s.records.rows[id])) == Fixed(s.records.rows[id]);
    assert Lasting(n.records.rows[id]).status == n.records.rows[id].status;
  }

  lemma CameToClosed(s: State, disk: bool, r: Record, status: Json)
    requires Inv(s) && s.phase.Settled? && CameTo(s, s.phase.id, r, status)
    ensures CameTo(Finalise(s, s.phase.id, disk), s.phase.id, r, status)
  {
    var id := s.phase.id;
    var n := Finalise(s, id, disk);
    CloseTells(s, disk);
    FinalisePublished(s, id, disk);
    var a, b := n.records.rows[id], s.records.rows[id].(actions := Some(List([])));
    assert Fixed(Lasting(a)) == Fixed(a) && Fixed(Lasting(b)) == Fixed(b) == Fixed(s.records.rows[id]);
    assert Lasting(a).status == a.status && Lasting(b).status == b.status;
  }

  lemma FinalisePublished(s: State, id: Text, disk: bool)
    ensures Finalise(s, id, disk).published == s.published
  {
  }

  lemma CameToCancelled(s: State, caseId: Text, id: Text, r: Record, status: Json)
    requires CameTo(s, id, r, status)
    ensures CameTo(AfterCancel(s, caseId, id), id, r, status)
  {
  }

  lemma CameToStep(s: State, step: Step, id: Text, r: Record, status: Json)
    requires Inv(s) && Enabled(s, step) && !step.Restart? && CameTo(s, id, r, status)
    ensures CameTo(Next(s, step), id, r, status)
  {
    assert Sane(s, id);
    if Subject(s, step) != Some(id) {
      Elsewhere(s, step, id);
      CameToElsewhere(s, Next(s, step), id, r, status);
    } else if step.FinaliseTask? {
      CameToClosed(s, step.disk, r, status);
    } else if step.CancelTask? {
      CameToCancelled(s, step.caseId, id, r, status);
    } else {
      assert step.ServicesFail? || step.CloseToken?;
    }
  }

  /** What a task came to stays, within the process: the status that was published, and the record up
      to its offers, its mark and a status put back by a late cancel. */
  lemma {:induction false} OutcomeStays(s: State, steps: seq<Step>, t: State, id: Text, r: Record, status: Json)
    requires Inv(s) && ProcessRun(s, steps, t) && CameTo(s, id, r, status)
    ensures CameTo(t, id, r, status)
    decreases |steps|
  {
    if steps != [] {
      assert steps[0] in steps;
      StepKeeps(s, steps[0]);
      CameToStep(s, steps[0], id, r, status);
      OutcomeStays(Next(s, steps[0]), steps[1..], t, id, r, status);
    }
  }

  /** However the process goes on, a task whose `run` raised has been published as failed, or as
      cancelled exactly when its token was stopped, and its record keeps that and the cause. */
  lemma {:induction false} FailureTheorem(s: State, steps: seq<Step>, t: State, id: Text, cause: Json)
    requires Inv(s) && s.phase == Raised(id, cause) && ProcessRun(Next(s, RecordFailure), steps, t)
    ensures id in s.tokens && id in t.published && id in t.records.rows
    ensures t.published[id] == (if s.tokens[id] then Str(Cancelled) else Str(Failed))
    ensures t.records.rows[id].error == Some(cause) && t.records.rows[id].job == Row(s, id).job
    ensures t.records.rows[id].status in {Some(t.published[id]), Some(Str(Cancelling))}
  {
    var n := Next(s, RecordFailure);
    FailureTells(s);
    StepKeeps(s, RecordFailure);
    var r := n.records.rows[id];
    OutcomeStays(n, steps, t, id, r, n.published[id]);
    assert Fixed(t.records.rows[id]).error == Fixed(r).error && Fixed(t.records.rows[id]).job == Fixed(r).job;
  }

  /** And a task whose `run` returned without raising afterwards: cancelled exactly when its token was
      stopped by then; otherwise the status of the last job in a list of results, or partial when the
      result says so, or the status of the reported job. The record keeps the result. */
  lemma {:induction false} ReturnTheorem(s: State, result: Json, steps: seq<Step>, t: State)
    requires Inv(s) && s.phase.Working?
    requires ProcessRun(Next(s, RunReturns(result)), steps, t) && Next(s, RunReturns(result)).phase.Settled?
    ensures var id := s.phase.id;
            && id in s.tokens && id in t.published && id in t.records.rows
            && (s.tokens[id] ==> t.published[id] == Str(Cancelled))
            && (!s.tokens[id] && result.List? ==>
                  forall k | LastJob(result.items, k, |result.items|) ::
                    JobStatusKey in result.items[k].fields && t.published[id] == result.items[k].fields[JobStatusKey]
                    && t.records.rows[id].job == Some(result.items[k]))
            && (!s.tokens[id] && (result.List? ==> NoJobAfter(result.items, -1, |result.items|)) ==>
                  Some(t.published[id]) == if SaysPartial(result) then Some(Str(Partial)) else JobStatus(Row(s, id).job.GetOr(Null)))
            && (!result.List? ==> t.records.rows[id].job == Row(s, id).job)
            && t.records.rows[id].result == Some(result)
            && t.records.rows[id].status in {Some(t.published[id]), Some(Str(Cancelling))}
  {
    var id := s.phase.id;
    var n := Next(s, RunReturns(result));
    ReturnTells(s, result);
    PublishTells(Row(s, id), result, Stopped(s, id));
    StepKeeps(s, RunReturns(result));
    var r := n.records.rows[id];
    ReturnedIs(s, result);
    OutcomeStays(n, steps, t, id, r, n.published[id]);
    assert Fixed(t.records.rows[id]).result == Fixed(r).result && Fixed(t.records.rows[id]).job == Fixed(r).job;
  }

  lemma ReturnedIs(s: State, result: Json)
    requires s.phase.Working? && s.phase.id in s.records.rows
    ensures var a := PublishResult(Row(s, s.phase.id), result, Stopped(s, s.phase.id));
            Next(s, RunReturns(result)).records.rows[s.phase.id] == a.record && (Next(s, RunReturns(result)).phase.Settled? <==> a.ok)
  {
  }

  // ------------------------------------------------------ cancel, list, retry

  /** Exactly when a cancel is accepted, and what it does; a refused one does nothing. */
  lemma CancelTells(s: State, caseId: Text, id: Text)
    ensures var n := Next(s, CancelTask(caseId, id));
            if && id in s.records.rows && id in s.tokens && s.records.rows[id].caseId == Some(Str(caseId))
               && s.records.rows[id].actions.Some? && s.records.rows[id].actions.value.List?
               && Str(Cancel) in s.records.rows[id].actions.value.items
            then
              && n.tokens == s.tokens[id := true] && n == s.(tokens := n.tokens, records := n.records)
              && n.records.order == s.records.order
              && n.records.rows == s.records.rows[id := s.records.rows[id].(status := Some(Str(Cancelling)))]
            else n == s
  {
  }

  /** The application's close stops tokens, whatever they belong to, and changes nothing else. */
  lemma StopTells(s: State, id: Text)
    requires id in s.tokens
    ensures Next(s, CloseToken(id)) == s.(tokens := s.tokens[id := true])
  {
  }

  /** A task that does not offer to be cancelled, or is gone. */
  ghost predicate Refuses(s: State, id: Text) {
    id in s.known && (id in s.records.rows ==> !OffersCancel(s.records.rows[id]))
  }

  lemma RefusesElsewhere(s: State, n: State, id: Text)
    requires Refuses(s, id) && StoryOf(n, id) == StoryOf(s, id) && s.known <= n.known
    ensures Refuses(n, id)
  {
    if id in n.records.rows {
      assert Lasting(n.records.rows[id]) == Lasting(s.records.rows[id]);
      assert Lasting(n.records.rows[id]).actions == n.records.rows[id].actions;
      assert Lasting(s.records.rows[id]).actions == s.records.rows[id].actions;
    }
  }

  lemma FinaliseOffers(s: State, disk: bool)
    requires Inv(s) && s.phase.Settled?
    ensures var rows := Finalise(s, s.phase.id, disk).records.rows;
            s.phase.id in rows && rows[s.phase.id].actions == Some(List([]))
  {
    CloseTells(s, disk);
    var r := Finalise(s, s.phase.id, disk).records.rows[s.phase.id];
    assert Lasting(r).actions == r.actions;
  }

  /** The row keeps its offers. */
  lemma {:induction false} OffersStay(s: State, n: State, id: Text)
    requires Refuses(s, id) && s.known <= n.known && id in s.records.rows && id in n.records.rows
    requires n.records.rows[id].actions == s.records.rows[id].actions
    ensures Refuses(n, id)
  {
  }

  lemma RefusesWorker(s: State, step: Step, id: Text)
    requires Inv(s) && Enabled(s, step) && OfWorker(step) && Refuses(s, id) && Subject(s, step) == Some(id)
    ensures Refuses(Next(s, step), id)
  {
    assert Sane(s, id);
    KnownGrows(s, step);
    if step.FinaliseTask? {
      FinaliseOffers(s, step.disk);
    } else {
      WorkerOffers(s, step, id);
      OffersStay(s, Next(s, step), id);
    }
  }

  lemma WorkerOffers(s: State, step: Step, id: Text)
    requires Inv(s) && Enabled(s, step) && OfWorker(step) && !step.FinaliseTask? && Subject(s, step) == Some(id)
    ensures id in s.records.rows && id in Next(s, step).records.rows
    ensures Next(s, step).records.rows[id].actions == s.records.rows[id].actions
  {
    assert Sane(s, id);
    match step
    case Begin => BeginTells(s);
    case CheckToken => LookTells(s);
    case AcknowledgeCancel => AcknowledgeTells(s);
    case Progress(job) => ProgressTells(s, job);
    case RunReturns(result) => ReturnTells(s, result);
    case RunRaises(_) =>
    case RecordFailure => FailureTells(s);
    case ServicesFail =>
  }

  lemma RefusesStep(s: State, step: Step, id: Text)
    requires Inv(s) && Enabled(s, step) && !step.Restart? && Refuses(s, id)
    ensures Refuses(Next(s, step), id)
  {
    KnownGrows(s, step);
    assert Sane(s, id);
    if Subject(s, step) != Some(id) {
      Elsewhere(s, step, id);
      RefusesElsewhere(s, Next(s, step), id);
    } else if OfWorker(step) {
      RefusesWorker(s, step, id);
    } else if step.SubmitFails? {
      WithdrawTells(s, id, step.disk);
    } else {
      assert step.Submit? || step.CancelTask? || step.CloseToken?;
    }
  }

  /** A task that was admitted as one that cannot be cancelled never is, until the process ends. */
  lemma {:induction false} RefusesAlways(s: State, steps: seq<Step>, t: State, id: Text)
    requires Inv(s) && ProcessRun(s, steps, t) && Refuses(s, id)
    ensures Refuses(t, id) && forall caseId :: !CancelAccepted(t, caseId, id)
    decreases |steps|
  {
    if steps != [] {
      assert steps[0] in steps;
      StepKeeps(s, steps[0]);
      RefusesStep(s, steps[0], id);
      RefusesAlways(Next(s, steps[0]), steps[1..], t, id);
    }
  }

  // What a listing shows.

  predicate Shows(t: Table<Text, Record>, caseId: Text, i: nat) {
    i < |t.order| && RowOf(t.rows, t.order[i]).caseId == Some(Str(caseId))
  }

  /** The places before n in the dictionary that hold a record of the case. */
  function Places(t: Table<Text, Record>, caseId: Text, n: nat): set<nat> {
    set i: nat | i < n && Shows(t, caseId, i)
  }

  lemma PlacesMore(t: Table<Text, Record>, caseId: Text, n: nat)
    ensures |Places(t, caseId, n + 1)| == |Places(t, caseId, n)| + if Shows(t, caseId, n) then 1 else 0
  {
    var more := Places(t, caseId, n + 1);
    assert n !in Places(t, caseId, n);
    assert more == if Shows(t, caseId, n) then Places(t, caseId, n) + {n} else Places(t, caseId, n);
  }

  lemma {:induction false} OfCaseCount(t: Table<Text, Record>, caseId: Text, n: nat)
    requires n <= |t.order|
    ensures |OfCase(t, n, caseId)| == |Places(t, caseId, n)|
  {
    if n > 0 {
      OfCaseCount(t, caseId, n - 1);
      PlacesMore(t, caseId, n - 1);
    }
  }

  lemma {:induction false} OfCaseAt(t: Table<Text, Record>, caseId: Text, i: nat, n: nat)
    requires i < n <= |t.order| && Shows(t, caseId, i)
    ensures var k := |Places(t, caseId, i)|;
            k < |OfCase(t, n, caseId)| && OfCase(t, n, caseId)[k] == RowOf(t.rows, t.order[i])
  {
    if i < n - 1 {
      OfCaseAt(t, caseId, i, n - 1);
    } else {
      OfCaseCount(t, caseId, i);
    }
  }

  /** A listing shows the records of the case in the order of their admission: all of them, or the
      last hundred when there are more. */
  lemma ListingTells(t: Table<Text, Record>, caseId: Text)
    ensures var rows := LastRows(OfCase(t, |t.order|, caseId));
            var all := |Places(t, caseId, |t.order|)|;
            && |rows| == (if all <= 100 then all else 100)
            && forall i: nat | Shows(t, caseId, i) && all - |rows| <= |Places(t, caseId, i)| ::
                 |Places(t, caseId, i)| < all && rows[|Places(t, caseId, i)| - (all - |rows|)] == RowOf(t.rows, t.order[i])
  {
    OfCaseCount(t, caseId, |t.order|);
    forall i: nat | Shows(t, caseId, i)
      ensures var k := |Places(t, caseId, i)|;
              k < |OfCase(t, |t.order|, caseId)| && OfCase(t, |t.order|, caseId)[k] == RowOf(t.rows, t.order[i])
    {
      OfCaseAt(t, caseId, i, |t.order|);
    }
  }

  /** The record says that its receipt was not saved. */
  ghost predicate SaysUnsaved(r: Record) {
    r.receiptError.Some? && r.receiptError.value !in {Null, Bool(false), Num(0.0), Str(Other("")), List([]), Obj(map[])}
  }

  lemma UnsavedTells(r: Record)
    ensures Unsaved(r) <==> SaysUnsaved(r)
  {
    FalsyTells(r.receiptError.GetOr(Null));
  }

  /** Every record is in the journal and none is marked any more. */
  ghost predicate AllTold(s: State, n: State) {
    && n.records.rows.Keys == s.records.rows.Keys
    && forall x | x in n.records.rows :: Told(n, x) && n.records.rows[x] == Lasting(s.records.rows[x])
  }

  ghost predicate SomeUnsaved(rows: map<Text, Record>, caseId: Option<Text>) {
    exists x | x in rows :: (caseId.Some? ==> rows[x].caseId == Some(Str(caseId.value))) && SaysUnsaved(rows[x])
  }

  lemma SavedAllTold(s: State)
    requires Storable(s.records)
    ensures SaveResult(s.records.rows, true) == Saved ==> AllTold(s, SaveState(s, true))
  {
    if SaveResult(s.records.rows, true) == Saved {
      SavedAll(s.records, SaveState(s, true));
    }
  }

  lemma AllUnsaved(rows: map<Text, Record>)
    ensures forall x | x in rows :: Unsaved(rows[x]) <==> SaysUnsaved(rows[x])
  {
    forall x | x in rows
      ensures Unsaved(rows[x]) <==> SaysUnsaved(rows[x])
    {
      UnsavedTells(rows[x]);
    }
  }

  lemma WantedCase(s: State, caseId: Text)
    ensures RetryWanted(s, caseId, true) <==> SomeUnsaved(s.records.rows, Some(caseId))
  {
    AllUnsaved(s.records.rows);
  }

  lemma WantedAny(rows: map<Text, Record>)
    ensures SomeUnsaved(rows, None) <==> exists x | x in rows :: Unsaved(rows[x])
  {
    AllUnsaved(rows);
  }

  lemma ListIs(s: State, caseId: Text, retry: bool, disk: bool)
    ensures Next(s, ListTasks(caseId, retry, disk)) == if retry && RetryWanted(s, caseId, true) then SaveState(s, disk) else s
  {
  }

  /** A listing that is asked to retry saves exactly when a record of the case says that it is unsaved;
      with a save that succeeds every record is in the journal and none says so any more. */
  lemma RetryTells(s: State, caseId: Text, retry: bool, disk: bool)
    requires Storable(s.records)
    ensures var n := Next(s, ListTasks(caseId, retry, disk));
            if retry && SomeUnsaved(s.records.rows, Some(caseId)) && SaveResult(s.records.rows, disk) == Saved
            then AllTold(s, n) else n == s
  {
    ListIs(s, caseId, retry, disk);
    WantedCase(s, caseId);
    SavedOrNot(s, disk);
  }

  lemma SavedOrNot(s: State, disk: bool)
    requires Storable(s.records)
    ensures if SaveResult(s.records.rows, disk) == Saved then AllTold(s, SaveState(s, disk)) else SaveState(s, disk) == s
  {
    SavedAllTold(s);
    assert disk ==> SaveState(s, disk) == SaveState(s, true);
  }

  /** Closing saves exactly when some record says that it is unsaved. */
  lemma CloseSaveTells(s: State, disk: bool)
    requires Storable(s.records)
    ensures var n := Next(s, CloseSave(disk));
            if SomeUnsaved(s.records.rows, None) && SaveResult(s.records.rows, disk) == Saved
            then AllTold(s, n) else n == s
  {
    WantedAny(s.records.rows);
    SavedOrNot(s, disk);
  }

  // --------------------------------------------------------------- the start

  /** A text with something in it. */
  ghost predicate IsText(v: Option<Json>) {
    v.Some? && v.value.Str? && (v.value.t.Other? ==> exists i | 0 <= i < |v.value.t.s| :: !IsSpace(v.value.t.s[i]))
  }

  /** Which files are accepted. */
  lemma ReadableTells(file: File)
    ensures Readable(file) <==>
            && file.Items?
            && forall i | 0 <= i < |file.items| ::
                 && file.items[i].Dict? && IsText(file.items[i].record.taskId)
                 && IsText(file.items[i].record.caseId) && IsText(file.items[i].record.status)
  {
    if file.Items? {
      forall e: Element
        ensures ValidElement(e) <==> e.Dict? && IsText(e.record.taskId) && IsText(e.record.caseId) && IsText(e.record.status)
      {
        if e.Dict? {
          TextTells(e.record.taskId);
          TextTells(e.record.caseId);
          TextTells(e.record.status);
        }
      }
    }
  }

  lemma TextTells(v: Option<Json>)
    ensures NonBlankText(v) <==> IsText(v)
  {
  }

  /** What a process starts with: nothing without a file; the last element of each id, given back,
      from a file that it accepts; and nothing, with the file set aside if possible, from any other. */
  lemma BootTells(file: File, move: Move, corrupt: seq<File>)
    ensures var u := Boot(file, move, corrupt);
            && u.tokens == map[] && u.admitted == {} && u.queue == [] && u.phase.Idle?
            && (file.Missing? || !Readable(file) ==> u.records.rows == map[])
            && (u.recovered <==> !file.Missing? && !Readable(file))
            && (!u.recovered ==> u.journal == file && u.corrupt == corrupt)
            && (u.recovered ==> u.journal == (if move.Renamed? then Missing else file)
                                && u.corrupt == corrupt + if move.Stuck? then [] else [file])
  {
    assert corrupt + [] == corrupt;
  }

  predicate HasId(e: Element, id: Text) {
    e.Dict? && Id(e.record) == id
  }

  lemma BootLoads(file: File, move: Move, corrupt: seq<File>, i: nat, id: Text)
    requires Readable(file) && i < |file.items| && HasId(file.items[i], id)
    requires forall j | i < j < |file.items| :: !HasId(file.items[j], id)
    ensures var rows := Boot(file, move, corrupt).records.rows;
            && id in rows && GivesBack(file.items[i].record, rows[id]) && rows[id].taskId == Some(Str(id))
  {
    assert forall k | 0 <= k < |file.items| :: file.items[k] in file.items && ValidElement(file.items[k]);
    LoadTells(file.items, i);
  }

  lemma BootLoadsOnly(file: File, move: Move, corrupt: seq<File>, id: Text)
    requires Readable(file)
    ensures id in Boot(file, move, corrupt).records.rows <==> exists i | 0 <= i < |file.items| :: HasId(file.items[i], id)
  {
    assert forall k | 0 <= k < |file.items| :: file.items[k] in file.items;
    LoadOnly(file.items, id);
  }
}
