/** The task manager as the object it is: each method is one block under the lock, or one
    step of the worker, and does to the object's state what TaskSteps says. */
module TaskManager {
  import opened Wrappers
  import opened JsonValues
  import opened Tables
  import opened Receipts
  import opened TaskSteps
  import opened TaskLaws

  class Tasks {
    var records: Table<Text, Record>
    var tokens: map<Text, bool>
    var journal: File
    var corrupt: seq<File>
    var recovered: bool
    var admitted: set<Text>
    var queue: seq<Text>
    var phase: Phase
    ghost var stranded: set<Text>
    ghost var known: set<Text>
    ghost var born: set<Text>
    ghost var ran: set<Text>
    ghost var published: map<Text, Json>
    ghost var skipped: set<Text>

    ghost function St(): State
      reads this
    {
      State(records, tokens, journal, corrupt, recovered, admitted, queue, phase, stranded, known, born, ran, published, skipped)
    }

    ghost predicate Valid()
      reads this
    {
      Inv(St())
    }

    /** Reads the journal: a list of usable records is loaded and settled, anything else is set aside. */
    constructor (file: File, move: Move, corruptBefore: seq<File>)
      ensures St() == Boot(file, move, corruptBefore)
      ensures Valid()
    {
      records, tokens, journal, corrupt := Table(map[], []), map[], file, corruptBefore;
      recovered, admitted, queue, phase := false, {}, [], Idle;
      stranded, known, born, ran, published, skipped := {}, {}, {}, {}, map[], {};
      new;
      if file != Missing {
        var parsed := IsUsable(file);
        if parsed {
          LoadRecords(file.items);
          known := records.rows.Keys;
        } else {
          match move {
            case Renamed => journal, corrupt := Missing, corrupt + [file];
            case Copied => corrupt := corrupt + [file];
            case Stuck =>
          }
          recovered := true;
        }
      }
      assert St() == Boot(file, move, corruptBefore);
      BootInv(file, move, corruptBefore);
    }

    /** The tests on the parsed file, which stop at the first item that fails. */
    static method IsUsable(file: File) returns (parsed: bool)
      ensures parsed == Readable(file)
    {
      if !file.Items? {
        return false;
      }
      for i := 0 to |file.items|
        invariant forall k | 0 <= k < i :: ValidElement(file.items[k])
      {
        if !ValidElement(file.items[i]) {
          assert file.items[i] in file.items;
          return false;
        }
      }
      return true;
    }

    /** The items, settled for a process that has just started. */
    method LoadRecords(items: seq<Element>)
      requires Readable(Items(items)) && records == Table(map[], [])
      modifies `records
      ensures Loadable(items) && records == Load(items)
    {
      for i := 0 to |items|
        invariant Loadable(items) && records == Fill(Recovered(items), i)
      {
        assert items[i] in items;
        var record := items[i].record;
        if Active(StatusOf(record)) {
          record := record.(status := Some(INTERRUPTED));
        }
        record := record.(actions := Some(List([])));
        record := record.(kind := Some(record.kind.GetOr(Str(Unknown))));
        record := record.(job := Some(record.job.GetOr(Null)));
        record := record.(error := Some(record.error.GetOr(Null)));
        records := records.Put(Id(record), record);
      }
    }

    /** The receipts of all records; None when a kind cannot be looked up in a set. */
    method BuildReceipts() returns (receipts: Option<seq<Element>>)
      requires records.Valid()
      ensures receipts.None? <==> !KindsHashable(records.rows)
      ensures receipts.Some? ==> receipts.value == ReceiptList(records.rows, records.order)
    {
      var built: seq<Element> := [];
      for i := 0 to |records.order|
        invariant built == ReceiptList(records.rows, records.order[..i])
        invariant forall k | 0 <= k < i :: Hashable(KindOf(RowOf(records.rows, records.order[k])))
      {
        var record := RowOf(records.rows, records.order[i]);
        if !Hashable(KindOf(record)) {
          assert records.order[i] in records.rows;
          return None;
        }
        built := built + [Dict(Project(record))];
      }
      assert records.order[..|records.order|] == records.order;
      assert forall id | id in records.rows :: id in records.order && Hashable(KindOf(RowOf(records.rows, id)));
      return Some(built);
    }

    /** Takes the mark that its receipt is unsaved from every record. */
    method ForgetErrors()
      requires records.Valid()
      modifies `records
      ensures records == Cleared(old(records))
    {
      var rows := records.rows;
      for i := 0 to |records.order|
        invariant rows.Keys == records.rows.Keys
        invariant forall k | 0 <= k < |records.order| ::
                    RowOf(rows, records.order[k])
                    == if k < i then RowOf(records.rows, records.order[k]).(receiptError := None) else RowOf(records.rows, records.order[k])
      {
        var id := records.order[i];
        rows := rows[id := RowOf(rows, id).(receiptError := None)];
      }
      forall id | id in records.rows
        ensures rows[id] == records.rows[id].(receiptError := None)
      {
        assert id in records.order;
      }
      assert rows == Cleared(records).rows;
      records := Table(rows, records.order);
    }

    /** Whether json.dumps takes the receipts. */
    method CanPrint(receipts: seq<Element>) returns (ok: bool)
      requires records.Valid() && receipts == ReceiptList(records.rows, records.order)
      ensures ok <==> AllWritable(records.rows)
    {
      for i := 0 to |receipts|
        invariant forall k | 0 <= k < i :: Writable(RowOf(records.rows, records.order[k]))
      {
        if receipts[i].Dict? && !Dumps(receipts[i].record) {
          assert records.order[i] in records.rows;
          return false;
        }
      }
      assert forall id | id in records.rows :: id in records.order && Writable(RowOf(records.rows, id));
      return true;
    }

    /** Writes a receipt for every record; when that succeeds no record is unsaved any more. */
    method Save(disk: bool) returns (outcome: SaveOutcome)
      requires records.Valid()
      modifies `records, `journal, `skipped
      ensures outcome == SaveResult(old(records.rows), disk) && St() == SaveState(old(St()), disk)
      ensures outcome == Saved ==>
                && records == Cleared(old(records)) && skipped == {}
                && journal == Items(ReceiptList(old(records.rows), old(records.order)))
      ensures outcome != Saved ==> records == old(records) && journal == old(journal) && skipped == old(skipped)
    {
      var receipts := BuildReceipts();
      if receipts.None? {
        return KindError;
      }
      var printed := CanPrint(receipts.value);
      if !printed {
        return PrintError;
      }
      if !disk {
        return DiskError;
      }
      journal := Items(receipts.value);
      ForgetErrors();
      skipped := {};
      return Saved;
    }

    /** The sum in `start`; None when a status cannot be looked up in a set. */
    method CountActive() returns (count: Option<nat>)
      requires records.Valid()
      ensures count.None? <==> CountFails(records.rows)
      ensures count.Some? ==> count.value == |ActiveIds(records.rows)|
    {
      var active := 0;
      for i := 0 to |records.order|
        invariant Countable(records, i)
        invariant active == |ActiveAmong(records, i)|
      {
        var status := StatusOf(RowOf(records.rows, records.order[i]));
        ActiveAmongNext(records, i);
        if !Hashable(status) {
          StatusFails(records, i);
          return None;
        }
        if Active(status) {
          active := active + 1;
        }
      }
      AllCounted(records);
      return Some(active);
    }

    /** Puts the new record and its token in place and saves; a failed save takes both back. */
    method Enrol(id: Text, record: Record, disk: bool) returns (saved: SaveOutcome)
      requires records.Valid() && id !in records.rows && id !in tokens
      modifies `records, `tokens, `journal, `skipped
      ensures saved == SaveResult(old(records.rows)[id := record], disk)
      ensures saved != Saved ==>
                records == old(records) && tokens == old(tokens) && journal == old(journal) && skipped == old(skipped)
      ensures saved == Saved ==>
                && records == Cleared(old(records).Put(id, record)) && skipped == {}
                && tokens == old(tokens)[id := false]
                && journal == Items(ReceiptList(old(records).Put(id, record).rows, old(records).Put(id, record).order))
    {
      PutValid(records, id, record);
      PopPut(records, id, record);
      records := records.Put(id, record);
      tokens := tokens[id := false];
      saved := Save(disk);
      if saved != Saved {
        records := records.Pop(id);
        tokens := tokens - {id};
        assert tokens == old(tokens);
      }
    }

    /** The locked block of `start`, field by field. */
    method AdmitBlock(id: Text, caseId: Text, kind: Text, cancellable: bool, disk: bool) returns (outcome: StartOutcome)
      requires records.Valid() && id !in records.rows && id !in tokens
      modifies `records, `tokens, `journal, `admitted, `known, `born, `skipped
      ensures outcome == StartOf(old(records.rows), id, NewRecord(id, caseId, kind, cancellable), disk)
      ensures outcome == Started ==>
                var t := old(records).Put(id, NewRecord(id, caseId, kind, cancellable));
                && records == Cleared(t) && journal == Items(ReceiptList(t.rows, t.order))
                && tokens == old(tokens)[id := false] && skipped == {}
                && admitted == old(admitted) + {id} && born == old(born) + {id}
      ensures outcome != Started ==>
                && records == old(records) && journal == old(journal) && tokens == old(tokens)
                && admitted == old(admitted) && born == old(born) && skipped == old(skipped)
      ensures known == if outcome == Started || outcome.NotSaved? then old(known) + {id} else old(known)
    {
      var active := CountActive();
      if active.None? {
        return StatusError;
      }
      if active.value >= QUEUE_LIMIT {
        return QueueFull;
      }
      var saved := Enrol(id, NewRecord(id, caseId, kind, cancellable), disk);
      known := known + {id};
      if saved == Saved {
        admitted, born := admitted + {id}, born + {id};
        return Started;
      }
      return NotSaved(saved);
    }

    /** `start` up to the moment it leaves the lock. */
    method Admit(id: Text, caseId: Text, kind: Text, cancellable: bool, disk: bool) returns (outcome: StartOutcome)
      requires Valid() && id !in known
      modifies this
      ensures outcome == StartResult(old(St()), id, caseId, kind, cancellable, disk)
      ensures St() == Next(old(St()), Start(id, caseId, kind, cancellable, disk))
      ensures Valid()
    {
      ghost var before := St();
      OrderlyStorable(before);
      assert Sane(before, id);
      outcome := AdmitBlock(id, caseId, kind, cancellable, disk);
      StartIs(before, St(), id, caseId, kind, cancellable, disk);
    }

    /** The pool accepts the task, outside the lock. */
    method SubmitToPool(id: Text)
      requires Valid() && id in admitted
      modifies `admitted, `queue
      ensures St() == Next(old(St()), Submit(id)) && Valid()
    {
      StepKeeps(St(), Submit(id));
      admitted := admitted - {id};
      queue := queue + [id];
    }

    method Withdraw(id: Text)
      modifies `records, `tokens, `admitted
      ensures St() == Withdrawn(old(St()), id)
    {
      records := records.Pop(id);
      tokens := tokens - {id};
      admitted := admitted - {id};
    }

    /** The pool refuses: the record, the token and, if it can be written, the receipt go. */
    method SubmitRefused(id: Text, disk: bool) returns (saved: SaveOutcome)
      requires Valid() && id in admitted
      modifies this
      ensures saved == SaveResult(old(records.rows) - {id}, disk)
      ensures St() == Next(old(St()), SubmitFails(id, disk)) && Valid()
    {
      StepKeeps(St(), SubmitFails(id, disk));
      WithdrawnKeeps(St(), id);
      OrderlyStorable(Withdrawn(St(), id));
      Withdraw(id);
      saved := Save(disk);
    }

    /** The worker takes the next task. */
    method BeginTask()
      requires Valid() && phase.Idle? && queue != []
      modifies this
      ensures St() == Next(old(St()), Begin) && Valid()
    {
      StepKeeps(St(), Begin);
      var id := queue[0];
      queue := queue[1..];
      phase := Begun(id);
      SetRow(id, WithStatus(RowOf(records.rows, id), RUNNING));
    }

    method SetRow(id: Text, r: Record)
      modifies `records
      ensures records == old(records).(rows := old(records.rows)[id := r]) && St() == Update(old(St()), id, r)
    {
      records := Table(records.rows[id := r], records.order);
    }

    /** The worker looks at the token, outside the lock. */
    method LookAtToken()
      requires Valid() && phase.Begun?
      modifies `phase, `ran
      ensures St() == Next(old(St()), CheckToken) && Valid()
    {
      assert Sane(St(), phase.id);
      StepKeeps(St(), CheckToken);
      if tokens[phase.id] {
        phase := SawCancel(phase.id);
      } else {
        ran := ran + {phase.id};
        phase := Working(phase.id);
      }
    }

    method Acknowledge()
      requires Valid() && phase.SawCancel?
      modifies this
      ensures St() == Next(old(St()), AcknowledgeCancel) && Valid()
    {
      StepKeeps(St(), AcknowledgeCancel);
      Conclude(phase.id, WithStatus(RowOf(records.rows, phase.id), CANCELLED), true);
    }

    method ReportProgress(job: Json)
      requires Valid() && phase.Working?
      modifies `records
      ensures St() == Next(old(St()), Progress(job)) && Valid()
    {
      StepKeeps(St(), Progress(job));
      SetRow(phase.id, RowOf(records.rows, phase.id).(job := Some(job)));
    }

    /** The assignments of the publish block to the record, and whether it raised. */
    method PublishRecord(r: Record, result: Json, cancelled: bool) returns (record: Record, ok: bool)
      ensures Attempt(record, ok) == PublishResult(r, result, cancelled)
    {
      record := r.(result := Some(result));
      var job := record.job.GetOr(Null);
      var status := SUCCEEDED;
      if Truthy(job) {
        if !job.Obj? {
          return record, false;
        }
        status := Get(job.fields, JobStatusKey).GetOr(SUCCEEDED);
      }
      record := record.(status := Some(status));
      if SaysPartial(result) {
        record := record.(status := Some(PARTIAL));
      }
      if result.List? {
        ghost var told := record;
        for i := 0 to |result.items|
          invariant ScanJobs(told, result.items, i) == Attempt(record, true)
        {
          var item := result.items[i];
          if IsJob(item) {
            record := record.(job := Some(item));
            if JobStatusKey !in item.fields {
              ScanStops(told, result.items, i + 1, |result.items|);
              return record, false;
            }
            record := record.(status := Some(item.fields[JobStatusKey]));
          }
        }
      }
      if cancelled {
        record := record.(status := Some(CANCELLED));
      }
      return record, true;
    }

    /** `run` has returned. */
    method Publish(result: Json)
      requires Valid() && phase.Working?
      modifies this
      ensures St() == Next(old(St()), RunReturns(result)) && Valid()
    {
      assert Sane(St(), phase.id);
      StepKeeps(St(), RunReturns(result));
      var record, ok := PublishRecord(RowOf(records.rows, phase.id), result, tokens[phase.id]);
      Conclude(phase.id, record, ok);
    }

    /** The record as the block leaves it, and where that takes the worker. */
    method Conclude(id: Text, record: Record, ok: bool)
      modifies `records, `phase, `published
      ensures St() == Returned(old(St()), id, Attempt(record, ok))
    {
      SetRow(id, record);
      if ok {
        phase := Settled(id);
        published := published[id := StatusOf(record)];
      } else {
        phase := Raised(id, UNEXPECTED_ERROR);
      }
    }

    /** `run`, or building its services, has raised. */
    method Raise(cause: Json)
      requires Valid() && phase.Working?
      modifies `phase
      ensures St() == Next(old(St()), RunRaises(cause)) && Valid()
    {
      StepKeeps(St(), RunRaises(cause));
      phase := Raised(phase.id, cause);
    }

    method Fail()
      requires Valid() && phase.Raised?
      modifies this
      ensures St() == Next(old(St()), RecordFailure) && Valid()
    {
      assert Sane(St(), phase.id);
      StepKeeps(St(), RecordFailure);
      var id := phase.id;
      var r := RowOf(records.rows, id);
      r := r.(status := Some(if tokens[id] then CANCELLED else FAILED));
      r := r.(error := Some(phase.cause));
      Conclude(id, r, true);
    }

    method CloseRow(id: Text)
      modifies `records, `tokens, `phase
      ensures St() == Closed(old(St()), id)
    {
      SetRow(id, RowOf(records.rows, id).(actions := Some(List([]))));
      tokens := tokens - {id};
      phase := Idle;
    }

    /** Saves, and marks the row when the disk refuses; any other error leaves the worker unseen. */
    method SaveOrMark(id: Text, disk: bool)
      requires records.Valid()
      modifies `records, `journal, `skipped
      ensures St() == match SaveResult(old(records.rows), disk)
                      case Saved => SaveState(old(St()), disk)
                      case DiskError => MarkUnsaved(old(St()), id)
                      case _ => old(St()).(skipped := old(skipped) + {id})
    {
      var saved := Save(disk);
      if saved == DiskError {
        SetRow(id, RowOf(records.rows, id).(receiptError := Some(RECEIPT_ERROR)));
      } else if saved != Saved {
        skipped := skipped + {id};
      }
    }

    /** Closing the services raises: the rest of the worker's last block is not reached. */
    method LeaveStranded()
      requires Valid() && phase.Settled? && phase.id in ran
      modifies `phase, `stranded
      ensures St() == Next(old(St()), ServicesFail) && Valid()
    {
      StepKeeps(St(), ServicesFail);
      stranded := stranded + {phase.id};
      phase := Idle;
    }

    /** The closing block. */
    method FinishTask(disk: bool)
      requires Valid() && phase.Settled?
      modifies this
      ensures St() == Next(old(St()), FinaliseTask(disk)) && Valid()
    {
      StepKeeps(St(), FinaliseTask(disk));
      ClosedKeeps(St());
      OrderlyStorable(Closed(St(), phase.id));
      var id := phase.id;
      CloseRow(id);
      SaveOrMark(id, disk);
    }

    /** Stops the token and marks the record. */
    method MarkCancelling(id: Text)
      modifies `tokens, `records
      ensures tokens == old(tokens)[id := true]
      ensures records == old(records).(rows := old(records.rows)[id := WithStatus(RowOf(old(records.rows), id), CANCELLING)])
    {
      tokens := tokens[id := true];
      SetRow(id, WithStatus(RowOf(records.rows, id), CANCELLING));
    }

    /** None when there is no such task, or it can no longer be cancelled. */
    method Cancel(caseId: Text, id: Text) returns (record: Option<Record>)
      requires Valid()
      modifies `tokens, `records
      ensures St() == Next(old(St()), CancelTask(caseId, id)) && Valid()
      ensures record == if CancelAccepted(old(St()), caseId, id) then Some(RowOf(records.rows, id)) else None
    {
      StepKeeps(St(), CancelTask(caseId, id));
      if id !in records.rows || records.rows[id].caseId != Some(Str(caseId)) {
        return None;
      }
      if !OffersCancel(records.rows[id]) || id !in tokens {
        return None;
      }
      MarkCancelling(id);
      return Some(records.rows[id]);
    }

    method AnyUnsaved(caseId: Option<Text>) returns (any: bool)
      requires records.Valid()
      ensures any <==> exists id | id in records.rows ::
                         (caseId.Some? ==> records.rows[id].caseId == Some(Str(caseId.value))) && Unsaved(records.rows[id])
    {
      for i := 0 to |records.order|
        invariant forall k | 0 <= k < i ::
                    !((caseId.Some? ==> RowOf(records.rows, records.order[k]).caseId == Some(Str(caseId.value)))
                      && Unsaved(RowOf(records.rows, records.order[k])))
      {
        var r := RowOf(records.rows, records.order[i]);
        if (caseId.Some? ==> r.caseId == Some(Str(caseId.value))) && Unsaved(r) {
          assert records.order[i] in records.rows;
          return true;
        }
      }
      assert forall id | id in records.rows :: id in records.order && RowOf(records.rows, id) == records.rows[id];
      return false;
    }

    method RowsOf(caseId: Text) returns (rows: seq<Record>)
      ensures rows == LastRows(OfCase(records, |records.order|, caseId))
    {
      rows := [];
      for i := 0 to |records.order|
        invariant rows == OfCase(records, i, caseId)
      {
        var r := RowOf(records.rows, records.order[i]);
        if r.caseId == Some(Str(caseId)) {
          rows := rows + [r];
        }
      }
      if |rows| > LIST_LIMIT {
        rows := rows[|rows| - LIST_LIMIT..];
      }
    }

    /** A retry saves, and only when it has cause to. */
    method RetryReceipts(caseId: Text, retry: bool, disk: bool)
      requires Valid()
      modifies `records, `journal, `skipped
      ensures St() == if RetryWanted(old(St()), caseId, retry) then SaveState(old(St()), disk) else old(St())
    {
      OrderlyStorable(St());
      if retry {
        var wanted := AnyUnsaved(Some(caseId));
        if wanted {
          var _ := Save(disk);
        }
      }
    }

    /** The last hundred records of a case; a retry saves first. */
    method ListRows(caseId: Text, retry: bool, disk: bool) returns (rows: seq<Record>)
      requires Valid()
      modifies `records, `journal, `skipped
      ensures St() == Next(old(St()), ListTasks(caseId, retry, disk)) && Valid()
      ensures rows == LastRows(OfCase(records, |records.order|, caseId))
    {
      StepKeeps(St(), ListTasks(caseId, retry, disk));
      RetryReceipts(caseId, retry, disk);
      rows := RowsOf(caseId);
    }

    /** `close` stops every token without taking the lock, one at a time. */
    method StopOne(id: Text)
      requires Valid() && id in tokens
      modifies `tokens
      ensures St() == Next(old(St()), CloseToken(id)) && Valid()
    {
      StepKeeps(St(), CloseToken(id));
      tokens := tokens[id := true];
    }

    /** The last block of `close`. */
    method SaveOnClose(disk: bool)
      requires Valid()
      modifies `records, `journal, `skipped
      ensures St() == Next(old(St()), CloseSave(disk)) && Valid()
    {
      StepKeeps(St(), CloseSave(disk));
      OrderlyStorable(St());
      var wanted := AnyUnsaved(None);
      if wanted {
        var _ := Save(disk);
      }
    }
  }

  /** A job without a status stops the loop for good. */
  lemma {:induction false} ScanStops(r: Record, items: seq<Json>, n: nat, m: nat)
    requires n <= m <= |items| && !ScanJobs(r, items, n).ok
    ensures ScanJobs(r, items, m) == ScanJobs(r, items, n)
    decreases m - n
  {
    if n < m {
      ScanStops(r, items, n, m - 1);
    }
  }

  /** The fields that `start` writes, when it leaves the lock. */
  ghost predicate StartFields(s: State, n: State, id: Text, r: Record, outcome: StartOutcome) {
    && n == s.(records := n.records, tokens := n.tokens, journal := n.journal,
               admitted := n.admitted, known := n.known, born := n.born, skipped := n.skipped)
    && (outcome == Started ==>
          && n.skipped == {}
          && n.records == Cleared(s.records.Put(id, r))
          && n.journal == Items(ReceiptList(s.records.Put(id, r).rows, s.records.Put(id, r).order))
          && n.tokens == s.tokens[id := false]
          && n.admitted == s.admitted + {id} && n.born == s.born + {id})
    && (outcome != Started ==> n == s.(known := n.known))
    && n.known == if outcome == Started || outcome.NotSaved? then s.known + {id} else s.known
  }

  lemma StartIs(s: State, n: State, id: Text, caseId: Text, kind: Text, cancellable: bool, disk: bool)
    requires Inv(s) && id !in s.known
    requires StartFields(s, n, id, NewRecord(id, caseId, kind, cancellable),
                         StartResult(s, id, caseId, kind, cancellable, disk))
    ensures n == Next(s, Start(id, caseId, kind, cancellable, disk)) && Inv(n)
  {
    StepKeeps(s, Start(id, caseId, kind, cancellable, disk));
    var outcome := StartResult(s, id, caseId, kind, cancellable, disk);
    if outcome == Started {
      assert n == Admitted(s, id, NewRecord(id, caseId, kind, cancellable));
    } else if outcome.NotSaved? {
    } else {
    }
  }

  ghost function ActiveAmong(t: Table<Text, Record>, n: nat): set<Text>
    requires t.Valid() && n <= |t.order|
  {
    set id | id in t.order[..n] && Active(StatusOf(t.rows[id]))
  }

  ghost predicate Countable(t: Table<Text, Record>, n: nat)
    requires n <= |t.order|
  {
    forall k | 0 <= k < n :: Hashable(StatusOf(RowOf(t.rows, t.order[k])))
  }

  lemma AllCounted(t: Table<Text, Record>)
    requires t.Valid() && Countable(t, |t.order|)
    ensures !CountFails(t.rows) && ActiveAmong(t, |t.order|) == ActiveIds(t.rows)
  {
    forall id | id in t.rows
      ensures Hashable(StatusOf(t.rows[id]))
    {
      assert id in t.order;
    }
  }

  lemma ActiveAmongNext(t: Table<Text, Record>, n: nat)
    requires t.Valid() && n < |t.order|
    ensures |ActiveAmong(t, n + 1)| == |ActiveAmong(t, n)| + One(StatusOf(RowOf(t.rows, t.order[n])))
  {
    assert t.order[..n + 1] == t.order[..n] + [t.order[n]];
    assert t.order[n] !in ActiveAmong(t, n);
    assert ActiveAmong(t, n + 1)
        == ActiveAmong(t, n) + if Active(StatusOf(t.rows[t.order[n]])) then {t.order[n]} else {};
  }

  lemma StatusFails(t: Table<Text, Record>, n: nat)
    requires t.Valid() && n < |t.order| && !Hashable(StatusOf(RowOf(t.rows, t.order[n])))
    ensures CountFails(t.rows)
  {
    assert t.order[n] in t.rows;
  }
}
