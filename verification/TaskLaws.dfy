/** What every run of the task manager keeps: the journal, the queue bound, and cancellation. */
module TaskLaws {
  import opened Wrappers
  import opened JsonValues
  import opened Tables
  import opened Totals
  import opened Receipts
  import opened TaskSteps

  // -------------------------------------------------------- the invariant, id by id

  /** Rows are filed under their own, known, ids; a live token has a row. */
  ghost predicate Filed(s: State, id: Text) {
    && (id in s.records.order <==> id in s.records.rows)
    && (id in s.records.rows ==> id in s.known && Id(Row(s, id)) == id && Row(s, id).kind.Some?)
    && (id in s.tokens ==> id in s.records.rows)
    && (id in s.born || id in s.ran || id in s.published ==> id in s.known)
  }

  /** A live token is at exactly one place on its way through the pool. */
  ghost predicate Placed(s: State, id: Text) {
    && (id in s.tokens <==> id in s.admitted || id in s.queue || PhaseHas(s.phase, id) || id in s.stranded)
    && (id in s.admitted ==> id !in s.queue && !PhaseHas(s.phase, id) && id !in s.stranded)
    && (id in s.queue ==> !PhaseHas(s.phase, id) && id !in s.stranded)
    && (id in s.stranded ==> !PhaseHas(s.phase, id))
  }

  ghost predicate Late(s: State, id: Text) {
    (s.phase.Raised? || s.phase.Settled?) && s.phase.id == id
  }

  /** A live task occupies the queue until its outcome may have been published; only a live
      task offers cancellation; while any task is live every kind can be saved. */
  ghost predicate Lively(s: State, id: Text) {
    && (id in s.tokens ==> Late(s, id) || id in s.stranded || Active(StatusOf(Row(s, id))))
    && (OffersCancel(Row(s, id)) ==> id in s.tokens)
    && (s.tokens != map[] ==> Hashable(KindOf(Row(s, id))))
  }

  /** A token was found open, an outcome published, and a closing save missed, only for tasks that
      have got that far. */
  ghost predicate Dated(s: State, id: Text) {
    && (id in s.tokens && id in s.ran ==> s.phase == Working(id) || Late(s, id) || id in s.stranded)
    && (id in s.tokens ==> (id in s.published <==> s.phase == Settled(id) || id in s.stranded))
    && (id in s.skipped ==> id !in s.tokens)
  }

  /** What loading a file files under this id, whether or not a start accepts the file. */
  ghost function Stored(file: File, id: Text): Option<Record> {
    if file.Items? && Loadable(file.items) && id in Load(file.items).rows
    then Some(Load(file.items).rows[id]) else None
  }

  /** A finished task whose record does not say that it is unsaved. */
  ghost predicate Finished(s: State, id: Text) {
    id in s.records.rows && id !in s.tokens && Row(s, id).receiptError.None?
  }

  /** And no save has been missed since. */
  ghost predicate Settles(s: State, id: Text) {
    Finished(s, id) && id !in s.skipped
  }

  /** The journal holds every id in memory, agrees with every task that is neither live nor
      marked as unsaved, and, once this process has admitted a task, holds receipts only. */
  ghost predicate Journaled(s: State, id: Text) {
    && (id in s.records.rows ==> Stored(s.journal, id).Some?)
    && (Settles(s, id) ==> Project(Stored(s.journal, id).GetOr(BLANK)) == Project(Recover(Row(s, id))))
    && (s.born != {} && Stored(s.journal, id).Some? ==>
          Project(Stored(s.journal, id).value) == Stored(s.journal, id).value)
  }

  ghost predicate Sane(s: State, id: Text) {
    Filed(s, id) && Placed(s, id) && Lively(s, id) && Dated(s, id)
  }

  ghost function Occupied(s: State): nat {
    |ActiveIds(s.records.rows)|
  }

  /** The tasks in the queue that are not stranded. */
  ghost function Serving(s: State): nat {
    |ServingIds(s.records.rows, s.stranded)|
  }

  ghost function ServingIds(rows: map<Text, Record>, stranded: set<Text>): set<Text> {
    set id | id in rows && id !in stranded && Active(StatusOf(rows[id]))
  }

  /** The worker's own task has left the queue and is not finalised yet. */
  ghost predicate InGap(s: State) {
    && (s.phase.Raised? || s.phase.Settled?)
    && !Active(StatusOf(Row(s, s.phase.id)))
  }

  /** Apart from stranded tasks, never more than 17 occupy the queue, and never more than 16
      while the worker's own task has left it. */
  ghost predicate Bounded(s: State) {
    Serving(s) <= if InGap(s) then QUEUE_LIMIT else QUEUE_LIMIT + 1
  }

  ghost predicate Orderly(s: State) {
    NoRepeats(s.records.order) && NoRepeats(s.queue) && forall id :: Sane(s, id)
  }

  ghost predicate JournalInOrder(s: State) {
    forall id :: Journaled(s, id)
  }

  ghost predicate Inv(s: State) {
    Orderly(s) && Bounded(s) && JournalInOrder(s)
  }

  lemma OrderlyStorable(s: State)
    requires Orderly(s)
    ensures Storable(s.records)
  {
    forall id
      ensures id in s.records.order <==> id in s.records.rows
      ensures id in s.records.rows ==> Id(s.records.rows[id]) == id && s.records.rows[id].kind.Some?
    {
      assert Sane(s, id);
    }
  }

  lemma PutStorable(t: Table<Text, Record>, id: Text, r: Record)
    requires Storable(t) && Id(r) == id && r.kind.Some?
    ensures Storable(t.Put(id, r))
  {
    PutValid(t, id, r);
  }

  // ---------------------------------------------------------- counting the queue

  lemma SizesApartFromOne<T>(a: set<T>, b: set<T>, x: T)
    requires a - {x} == b - {x}
    ensures |a| - (if x in a then 1 else 0) == |b| - (if x in b then 1 else 0)
  {
    assert a == if x in a then (a - {x}) + {x} else a - {x};
    assert b == if x in b then (b - {x}) + {x} else b - {x};
  }

  function One(status: Json): nat { if Active(status) then 1 else 0 }

  lemma OccupiedAfterUpdate(s: State, id: Text, r: Record)
    ensures Occupied(Update(s, id, r)) == Occupied(s) - One(StatusOf(Row(s, id))) + One(StatusOf(r))
  {
    var a, b := ActiveIds(s.records.rows), ActiveIds(s.records.rows[id := r]);
    assert a - {id} == b - {id};
    SizesApartFromOne(a, b, id);
  }

  lemma ServingAfterUpdate(s: State, id: Text, r: Record)
    ensures Serving(Update(s, id, r))
            == if id in s.stranded then Serving(s) else Serving(s) - One(StatusOf(Row(s, id))) + One(StatusOf(r))
  {
    var a, b := ServingIds(s.records.rows, s.stranded), ServingIds(s.records.rows[id := r], s.stranded);
    assert a - {id} == b - {id};
    SizesApartFromOne(a, b, id);
  }

  lemma ServingOccupied(s: State)
    ensures Serving(s) <= Occupied(s) <= Serving(s) + |s.stranded|
  {
    var serving, active := ServingIds(s.records.rows, s.stranded), ActiveIds(s.records.rows);
    SubsetSmaller(serving, active);
    SubsetSmaller(active, serving + s.stranded);
  }

  lemma ActiveCleared(t: Table<Text, Record>)
    ensures ActiveIds(Cleared(t).rows) == ActiveIds(t.rows)
    ensures forall out :: ServingIds(Cleared(t).rows, out) == ServingIds(t.rows, out)
  {
  }

  // ------------------------------------------------------------ saving the journal

  lemma SavedRow(t: Table<Text, Record>, id: Text)
    requires Storable(t)
    ensures Stored(Items(ReceiptList(t.rows, t.order)), id)
            == if id in t.rows then Some(Recover(Project(t.rows[id]))) else None
  {
    LoadSaved(t);
  }

  lemma SavedAgrees(r: Record)
    requires r.kind.Some?
    ensures Project(Recover(Project(r))) == Recover(Project(r)) == Project(Recover(r.(receiptError := None)))
  {
    ProjectRecoverCommute(r);
    ProjectIdempotent(Recover(r));
  }

  /** Right after a successful save the journal is in order for every id. */
  lemma SaveJournaled(s: State, t: Table<Text, Record>, id: Text)
    requires Storable(t)
    requires s.records == Cleared(t) && s.journal == Items(ReceiptList(t.rows, t.order))
    ensures Journaled(s, id)
  {
    SavedRow(t, id);
    if id in t.rows {
      SavedAgrees(t.rows[id]);
    }
  }

  lemma SaveOrderly(s: State, disk: bool)
    requires Orderly(s)
    ensures Orderly(SaveState(s, disk))
    ensures Occupied(SaveState(s, disk)) == Occupied(s) && Serving(SaveState(s, disk)) == Serving(s)
  {
    ActiveCleared(s.records);
    forall id
      ensures Sane(SaveState(s, disk), id)
    {
      assert Sane(s, id);
    }
  }

  lemma SaveKeeps(s: State, disk: bool)
    requires Inv(s)
    ensures Inv(SaveState(s, disk))
    ensures Occupied(SaveState(s, disk)) == Occupied(s)
  {
    SaveOrderly(s, disk);
    if SaveResult(s.records.rows, disk) == Saved {
      SavedInOrder(s, disk);
      assert InGap(SaveState(s, disk)) == InGap(s);
    }
  }

  /** Changes to live rows, and forgotten rows, do not disturb the journal. */
  lemma JournalFrame(s: State, t: State)
    requires JournalInOrder(s) && t.journal == s.journal && t.born == s.born
    requires t.records.rows.Keys <= s.records.rows.Keys
    requires forall id | Settles(t, id) :: Settles(s, id) && Row(t, id) == Row(s, id)
    ensures JournalInOrder(t)
  {
    forall id
      ensures Journaled(t, id)
    {
      assert Journaled(s, id);
    }
  }

  // ----------------------------------------------------------------- admission

  lemma SavedKinds(rows: map<Text, Record>, disk: bool, id: Text)
    requires SaveResult(rows, disk) == Saved
    ensures Hashable(KindOf(RowOf(rows, id)))
  {
  }

  lemma AdmittedJournal(s: State, id: Text, r: Record)
    requires Orderly(s) && id !in s.known && Id(r) == id && r.kind.Some?
    ensures JournalInOrder(Admitted(s, id, r))
  {
    var n := Admitted(s, id, r);
    var t := s.records.Put(id, r);
    OrderlyStorable(s);
    PutStorable(s.records, id, r);
    forall x
      ensures Journaled(n, x)
    {
      SaveJournaled(n, t, x);
    }
  }

  lemma AdmittedBound(s: State, id: Text, r: Record)
    requires id !in s.records.rows && Occupied(s) < QUEUE_LIMIT
    ensures Occupied(Admitted(s, id, r)) <= QUEUE_LIMIT && Bounded(Admitted(s, id, r))
  {
    var n := Admitted(s, id, r);
    ActiveCleared(s.records.Put(id, r));
    OccupiedAfterUpdate(s, id, r);
    ServingOccupied(n);
  }

  /** n is s with a new live row, as far as it concerns x. */
  ghost predicate Enrolled(s: State, n: State, id: Text, r: Record, x: Text) {
    && n == s.(records := n.records, journal := n.journal, tokens := s.tokens[id := false],
               admitted := s.admitted + {id}, known := s.known + {id}, born := s.born + {id}, skipped := {})
    && n.records.order == s.records.order + [id]
    && (x in n.records.rows <==> x == id || x in s.records.rows)
    && Row(n, x) == (if x == id then r else Row(s, x)).(receiptError := None)
  }

  lemma EnrolledSane(s: State, n: State, id: Text, r: Record, x: Text)
    requires Sane(s, id) && Sane(s, x) && id !in s.known && Enrolled(s, n, id, r, x)
    requires Id(r) == id && r.kind.Some? && Active(StatusOf(r)) && Hashable(KindOf(Row(n, x)))
    ensures Sane(n, x)
  {
    assert x in n.records.order <==> x == id || x in s.records.order;
  }

  lemma AdmittedKeeps(s: State, id: Text, r: Record, disk: bool)
    requires Inv(s) && id !in s.known && Occupied(s) < QUEUE_LIMIT
    requires Id(r) == id && r.kind.Some? && Active(StatusOf(r))
    requires SaveResult(s.records.rows[id := r], disk) == Saved
    ensures Inv(Admitted(s, id, r)) && Occupied(Admitted(s, id, r)) <= QUEUE_LIMIT
  {
    var n := Admitted(s, id, r);
    assert Sane(s, id);
    AdmittedBound(s, id, r);
    AdmittedJournal(s, id, r);
    forall x
      ensures Sane(n, x)
    {
      assert Sane(s, x);
      SavedKinds(s.records.rows[id := r], disk, x);
      if x == id || x in s.records.rows {
        EnrolledSane(s, n, id, r, x);
      } else {
        assert Row(n, x) == BLANK;
      }
    }
  }

  lemma StartKeeps(s: State, id: Text, caseId: Text, kind: Text, cancellable: bool, disk: bool)
    requires Inv(s) && id !in s.known
    ensures Inv(Admit(s, id, caseId, kind, cancellable, disk))
    ensures StartResult(s, id, caseId, kind, cancellable, disk) == Started ==>
              Occupied(Admit(s, id, caseId, kind, cancellable, disk)) <= QUEUE_LIMIT
  {
    match StartResult(s, id, caseId, kind, cancellable, disk)
    case Started =>
      AdmittedKeeps(s, id, NewRecord(id, caseId, kind, cancellable), disk);
    case NotSaved(_) =>
      var n := s.(known := s.known + {id});
      forall x
        ensures Sane(n, x)
      {
        assert Sane(s, x);
      }
      JournalFrame(s, n);
    case _ =>
  }

  lemma WithdrawnKeeps(s: State, id: Text)
    requires Inv(s) && id in s.admitted
    ensures Inv(Withdrawn(s, id)) && Occupied(Withdrawn(s, id)) <= Occupied(s)
  {
    var n := Withdrawn(s, id);
    assert Sane(s, id);
    WithoutNoRepeats(s.records.order, id);
    assert ActiveIds(n.records.rows) == ActiveIds(s.records.rows) - {id};
    assert ServingIds(n.records.rows, n.stranded) == ServingIds(s.records.rows, s.stranded) - {id};
    forall x
      ensures Sane(n, x)
    {
      assert Sane(s, x);
    }
    JournalFrame(s, n);
  }

  // ---------------------------------------------------------------- the worker

  /** Rewriting the row of a live task, with the phase and history moved on as `n` says. */
  lemma LiveRowKeeps(s: State, id: Text, r: Record, n: State)
    requires Inv(s) && id in s.tokens
    requires Id(r) == id && r.kind == Row(s, id).kind && (OffersCancel(r) ==> OffersCancel(Row(s, id)))
    requires n == Update(s, id, r).(phase := n.phase, queue := n.queue, published := n.published, tokens := n.tokens)
    requires n.tokens.Keys == s.tokens.Keys
    requires NoRepeats(n.queue)
    requires forall x :: Placed(s, x) ==> Placed(n, x)
    requires forall x | x in s.tokens && x != id :: Late(n, x) <==> Late(s, x)
    requires Late(n, id) || id in s.stranded || Active(StatusOf(r))
    requires forall x :: Dated(s, x) ==> Dated(n, x)
    requires n.published.Keys <= s.published.Keys + {id}
    requires Serving(Update(s, id, r)) <= if InGap(n) then QUEUE_LIMIT else QUEUE_LIMIT + 1
    ensures Inv(n)
  {
    assert Sane(s, id);
    forall x
      ensures Sane(n, x)
    {
      assert Sane(s, x);
    }
    JournalFrame(s, n);
  }

  lemma BeginKeeps(s: State)
    requires Inv(s) && Enabled(s, Begin)
    ensures Inv(Next(s, Begin)) && Occupied(Next(s, Begin)) <= Occupied(s)
  {
    var id := s.queue[0];
    assert id in s.queue;
    assert Sane(s, id);
    var r := WithStatus(Row(s, id), RUNNING);
    var n := Next(s, Begin);
    OccupiedAfterUpdate(s, id, r);
    ServingAfterUpdate(s, id, r);
    assert forall x :: x in s.queue <==> x == id || x in n.queue;
    LiveRowKeeps(s, id, r, n);
  }

  /** Steps that leave the rows alone: the worker looks at a token, `run` raises, the
      application closes a token, a task reaches the pool. */
  lemma SameRowsKeeps(s: State, n: State)
    requires Inv(s)
    requires n == s.(phase := n.phase, ran := n.ran, tokens := n.tokens, admitted := n.admitted, queue := n.queue)
    requires n.tokens.Keys == s.tokens.Keys && NoRepeats(n.queue)
    requires forall x :: Sane(s, x) ==> Placed(n, x) && Dated(n, x) && (x in n.ran ==> x in n.known)
    requires forall x | Late(s, x) :: Late(n, x)
    requires InGap(n) ==> InGap(s)
    ensures Inv(n) && Occupied(n) == Occupied(s)
  {
    forall x
      ensures Sane(n, x)
    {
      assert Sane(s, x);
    }
    JournalFrame(s, n);
  }

  lemma SubmitKeeps(s: State, id: Text)
    requires Inv(s) && id in s.admitted
    ensures Inv(Next(s, Submit(id)))
  {
    assert Sane(s, id);
    SameRowsKeeps(s, Next(s, Submit(id)));
  }

  lemma CheckTokenKeeps(s: State)
    requires Inv(s) && s.phase.Begun?
    ensures Inv(Looked(s, s.phase.id))
  {
    var id := s.phase.id;
    var n := Looked(s, id);
    assert Sane(s, id);
    forall x | Sane(s, x)
      ensures Placed(n, x) && Dated(n, x) && (x in n.ran ==> x in n.known)
    {
      LookedPlaced(s, id, x);
      LookedDated(s, id, x);
    }
    assert !InGap(n);
    SameRowsKeeps(s, n);
  }

  lemma LookedPlaced(s: State, id: Text, x: Text)
    requires s.phase == Begun(id) && Placed(s, x)
    ensures Placed(Looked(s, id), x)
  {
    SamePlace(s, Looked(s, id), x);
  }

  lemma SamePlace(s: State, n: State, x: Text)
    requires Placed(s, x) && n == s.(phase := n.phase, ran := n.ran)
    requires PhaseHas(n.phase, x) <==> PhaseHas(s.phase, x)
    ensures Placed(n, x)
  {
  }

  lemma LookedDated(s: State, id: Text, x: Text)
    requires s.phase == Begun(id) && Filed(s, id) && Filed(s, x) && Dated(s, x)
    requires id in s.records.rows
    ensures Dated(Looked(s, id), x) && (x in Looked(s, id).ran ==> x in s.known)
  {
    SameDate(s, Looked(s, id), x);
  }

  lemma SameDate(s: State, n: State, x: Text)
    requires Dated(s, x) && n == s.(phase := n.phase, ran := n.ran)
    requires s.phase.Begun? && (n.phase.SawCancel? || n.phase.Working?)
    requires x in n.ran ==> x in s.ran || n.phase == Working(x)
    ensures Dated(n, x)
  {
  }

  lemma RunRaisesKeeps(s: State, cause: Json)
    requires Inv(s) && s.phase.Working?
    ensures Inv(Next(s, RunRaises(cause)))
  {
    assert Sane(s, s.phase.id);
    SameRowsKeeps(s, Next(s, RunRaises(cause)));
  }

  lemma CloseTokenKeeps(s: State, id: Text)
    requires Inv(s) && id in s.tokens
    ensures Inv(Next(s, CloseToken(id)))
  {
    SameRowsKeeps(s, Next(s, CloseToken(id)));
  }

  /** The worker rewrites its own row and, unless it only reports progress, moves on. */
  lemma WorkerRowKeeps(s: State, r: Record, n: State)
    requires Inv(s) && (s.phase.SawCancel? || s.phase.Working? || s.phase.Raised?)
    requires var row := Row(s, s.phase.id); Id(r) == Id(row) && r.kind == row.kind && r.actions == row.actions
    requires || n == Settle(Update(s, s.phase.id, r), s.phase.id, StatusOf(r))
             || (n == Update(s, s.phase.id, r).(phase := n.phase) && n.phase.Raised? && n.phase.id == s.phase.id)
             || (n == Update(s, s.phase.id, r) && s.phase.Working? && r.status == Row(s, s.phase.id).status)
    requires s.phase.Raised? ==> !Active(StatusOf(r))
    ensures Inv(n) && Occupied(n) <= Occupied(s)
  {
    var id := s.phase.id;
    assert Sane(s, id);
    OccupiedAfterUpdate(s, id, r);
    ServingAfterUpdate(s, id, r);
    LiveRowKeeps(s, id, r, n);
  }

  lemma {:induction false} ScanKeeps(r: Record, items: seq<Json>, n: nat)
    requires n <= |items|
    ensures var a := ScanJobs(r, items, n).record;
            Id(a) == Id(r) && a.kind == r.kind && a.actions == r.actions && a.result == r.result && a.error == r.error
  {
    if n > 0 {
      ScanKeeps(r, items, n - 1);
    }
  }

  lemma ReturnKeeps(s: State, result: Json)
    requires Inv(s) && s.phase.Working?
    ensures Inv(Return(s, s.phase.id, result)) && Occupied(Return(s, s.phase.id, result)) <= Occupied(s)
  {
    var id := s.phase.id;
    assert Sane(s, id);
    var a := PublishResult(Row(s, id), result, Stopped(s, id));
    if result.List? {
      var told := WithStatus(Row(s, id).(result := Some(result)), JobStatus(Row(s, id).job.GetOr(Null)).GetOr(Null));
      ScanKeeps(told, result.items, |result.items|);
    }
    WorkerRowKeeps(s, a.record, Return(s, id, result));
  }

  lemma MarkedKeeps(s: State, id: Text)
    requires Inv(s) && id in s.tokens
    ensures Inv(Marked(s, id))
    ensures Occupied(Marked(s, id)) == Occupied(s) + if Active(StatusOf(Row(s, id))) then 0 else 1
  {
    assert Sane(s, id);
    var r := WithStatus(Row(s, id), CANCELLING);
    OccupiedAfterUpdate(s, id, r);
    ServingAfterUpdate(s, id, r);
    LiveRowKeeps(s, id, r, Marked(s, id));
  }

  lemma CancelKeeps(s: State, caseId: Text, id: Text)
    requires Inv(s)
    ensures Inv(AfterCancel(s, caseId, id))
    ensures Occupied(AfterCancel(s, caseId, id))
            == Occupied(s) + if CancelAccepted(s, caseId, id) && !Active(StatusOf(Row(s, id))) then 1 else 0
  {
    if CancelAccepted(s, caseId, id) {
      MarkedKeeps(s, id);
      CloseTokenKeeps(Marked(s, id), id);
      assert AfterCancel(s, caseId, id) == Next(Marked(s, id), CloseToken(id));
    }
  }

  // -------------------------------------------------------------- finalisation

  /** The worker leaves a task behind with its token. */
  lemma ServicesFailKeeps(s: State)
    requires Inv(s) && Enabled(s, ServicesFail)
    ensures Inv(Next(s, ServicesFail)) && Occupied(Next(s, ServicesFail)) == Occupied(s)
  {
    var id := s.phase.id;
    var n := Next(s, ServicesFail);
    var a, b := ServingIds(s.records.rows, s.stranded), ServingIds(n.records.rows, n.stranded);
    assert Sane(s, id);
    assert b == a - {id};
    forall x
      ensures Sane(n, x)
    {
      assert Sane(s, x);
    }
    JournalFrame(s, n);
  }

  lemma ClosedKeeps(s: State)
    requires Inv(s) && s.phase.Settled?
    ensures Orderly(Closed(s, s.phase.id))
    ensures Occupied(Closed(s, s.phase.id)) == Occupied(s) && Serving(Closed(s, s.phase.id)) == Serving(s)
    ensures forall x :: Hashable(KindOf(Row(Closed(s, s.phase.id), x)))
  {
    var id := s.phase.id;
    var n := Closed(s, id);
    assert Sane(s, id);
    OccupiedAfterUpdate(s, id, n.records.rows[id]);
    ServingAfterUpdate(s, id, n.records.rows[id]);
    forall x
      ensures Sane(n, x) && Hashable(KindOf(Row(n, x)))
    {
      assert Sane(s, x);
    }
  }

  /** A closing save that failed: the row may be marked, and otherwise the task is skipped. */
  lemma UnsavedKeeps(s: State, c: State, n: State, r: Record)
    requires Inv(s) && s.phase.Settled? && c == Closed(s, s.phase.id)
    requires Orderly(c) && Occupied(c) == Occupied(s) && Serving(c) == Serving(s)
    requires forall x :: Hashable(KindOf(Row(c, x)))
    requires var id := s.phase.id;
             || (r == Row(c, id).(receiptError := Some(RECEIPT_ERROR)) && n == Update(c, id, r))
             || (r == Row(c, id) && n == c.(skipped := c.skipped + {id}))
    ensures Inv(n) && Occupied(n) == Occupied(s)
  {
    var id := s.phase.id;
    assert Sane(s, id) && Sane(c, id);
    OccupiedAfterUpdate(c, id, r);
    ServingAfterUpdate(c, id, r);
    forall x
      ensures Sane(n, x)
    {
      if n == MarkUnsaved(c, id) {
        MarkSane(c, id, x);
      } else {
        SkipSane(c, id, x);
      }
    }
    JournalFrame(s, n);
  }

  lemma MarkSane(c: State, id: Text, x: Text)
    requires Sane(c, x) && id in c.records.rows
    ensures Sane(MarkUnsaved(c, id), x)
  {
    LastingSane(c, MarkUnsaved(c, id), x);
  }

  /** Receipt errors do not count. */
  lemma LastingSane(c: State, n: State, x: Text)
    requires Sane(c, x) && n == c.(records := n.records) && n.records.order == c.records.order
    requires (x in n.records.rows <==> x in c.records.rows) && Lasting(Row(n, x)) == Lasting(Row(c, x))
    ensures Sane(n, x)
  {
    assert Row(n, x) == Row(c, x).(receiptError := Row(n, x).receiptError);
  }

  /** A record without the mark that its receipt is unsaved. */
  ghost function Lasting(r: Record): Record { r.(receiptError := None) }

  lemma SkipSane(c: State, id: Text, x: Text)
    requires Sane(c, x) && id !in c.tokens
    ensures Sane(c.(skipped := c.skipped + {id}), x)
  {
  }

  lemma FinaliseKeeps(s: State, disk: bool)
    requires Inv(s) && s.phase.Settled?
    ensures Inv(Finalise(s, s.phase.id, disk))
    ensures Occupied(Finalise(s, s.phase.id, disk)) == Occupied(s)
  {
    var id := s.phase.id;
    var c := Closed(s, id);
    var n := Finalise(s, id, disk);
    assert Sane(s, id);
    ClosedKeeps(s);
    if SaveResult(c.records.rows, disk) != Saved {
      UnsavedKeeps(s, c, n, n.records.rows[id]);
    } else {
      SaveOrderly(c, disk);
      SavedInOrder(c, disk);
    }
  }

  lemma SavedInOrder(s: State, disk: bool)
    requires Orderly(s) && SaveResult(s.records.rows, disk) == Saved
    ensures JournalInOrder(SaveState(s, disk))
  {
    OrderlyStorable(s);
    forall id
      ensures Journaled(SaveState(s, disk), id)
    {
      SaveJournaled(SaveState(s, disk), s.records, id);
    }
  }

  // ------------------------------------------------------------------- restart

  lemma BootInv(file: File, move: Move, corrupt: seq<File>)
    ensures Inv(Boot(file, move, corrupt)) && Occupied(Boot(file, move, corrupt)) == 0
  {
    var s := Boot(file, move, corrupt);
    if Readable(file) {
      FilledRecovered(file.items, |file.items|);
    }
    assert ActiveIds(s.records.rows) == {} by {
      forall id | id in s.records.rows
        ensures !Active(StatusOf(s.records.rows[id]))
      {
        RecoverStable(s.records.rows[id]);
      }
    }
    forall id
      ensures Sane(s, id) && Journaled(s, id)
    {
    }
  }

  // --------------------------------------------------------------- every step

  /** A cancel of a task that has left the queue and still has its token: in the gap between
      publishing and finalising, or stranded after it. */
  ghost predicate GapCancel(s: State, step: Step) {
    step.CancelTask? && CancelAccepted(s, step.caseId, step.id) && !Active(StatusOf(Row(s, step.id)))
  }

  /** Every step keeps the invariant, and from within the limit only such a cancel leaves it, when
      the queue is full. */
  lemma StepKeeps(s: State, step: Step)
    requires Inv(s) && Enabled(s, step)
    ensures Inv(Next(s, step))
    ensures Occupied(s) <= QUEUE_LIMIT ==>
              (Occupied(Next(s, step)) <= QUEUE_LIMIT <==> !(GapCancel(s, step) && Occupied(s) == QUEUE_LIMIT))
  {
    match step
    case Start(id, caseId, kind, cancellable, disk) => StartKeeps(s, id, caseId, kind, cancellable, disk);
    case Submit(id) => SubmitKeeps(s, id);
    case SubmitFails(id, disk) =>
      WithdrawnKeeps(s, id);
      SaveKeeps(Withdrawn(s, id), disk);
    case Begin => BeginKeeps(s);
    case CheckToken => CheckTokenKeeps(s);
    case AcknowledgeCancel =>
      var r := WithStatus(Row(s, s.phase.id), CANCELLED);
      WorkerRowKeeps(s, r, Next(s, step));
    case Progress(job) =>
      WorkerRowKeeps(s, Row(s, s.phase.id).(job := Some(job)), Next(s, step));
    case RunReturns(result) => ReturnKeeps(s, result);
    case RunRaises(cause) => RunRaisesKeeps(s, cause);
    case RecordFailure =>
      var r := FailRecord(Row(s, s.phase.id), s.phase.cause, Stopped(s, s.phase.id));
      WorkerRowKeeps(s, r, Next(s, step));
    case FinaliseTask(disk) => FinaliseKeeps(s, disk);
    case ServicesFail => ServicesFailKeeps(s);
    case CancelTask(caseId, id) => CancelKeeps(s, caseId, id);
    case ListTasks(caseId, retry, disk) => SaveKeeps(s, disk);
    case CloseToken(id) => CloseTokenKeeps(s, id);
    case CloseSave(disk) => SaveKeeps(s, disk);
    case Restart(move) => BootInv(s.journal, move, s.corrupt);
  }
}
