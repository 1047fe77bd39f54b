/** Runs that take the task queue over its limit, and runs that lose what a task came to. */
module TaskWitness {
  import opened Wrappers
  import opened JsonValues
  import opened Tables
  import opened Receipts
  import opened TaskSteps
  import opened TaskLaws
  import opened TaskRuns
  import opened TaskFaults
  import opened TaskJournal

  lemma {:induction false} RunThen(s: State, steps: seq<Step>, t: State, step: Step)
    requires Run(s, steps, t) && Enabled(t, step)
    ensures Run(s, steps + [step], Next(t, step))
    decreases |steps|
  {
    if steps != [] {
      assert (steps + [step])[1..] == steps[1..] + [step];
      RunThen(Next(s, steps[0]), steps[1..], t, step);
    }
  }

  /** Reachable by a process that starts without a journal. */
  ghost predicate Reachable(t: State) {
    exists steps :: Run(Boot(Missing, Renamed, []), steps, t)
  }

  lemma ReachNext(t: State, step: Step)
    requires Reachable(t) && Enabled(t, step)
    ensures Reachable(Next(t, step))
  {
    var s := Boot(Missing, Renamed, []);
    var steps :| Run(s, steps, t);
    RunThen(s, steps, t, step);
  }

  const CASE := Other("case")

  function Nth(n: nat): Text { Other(seq(n, _ => 'x')) }

  predicate Ready(r: Record) {
    && r.status == Some(QUEUED) && r.kind == Some(Str(Ocr)) && r.job == Some(Null)
    && r.caseId == Some(Str(CASE)) && OffersCancel(r) && Writable(r) && r.receiptError.None?
  }

  ghost predicate WaitsAt(t: State, n: nat, id: Text) {
    && (id in t.known ==> id.Other? && |id.s| < n)
    && (id in t.tokens ==> !t.tokens[id])
    && (id in t.records.rows ==> Ready(t.records.rows[id]))
  }

  /** n tasks wait, all cancellable, none stopped. */
  ghost predicate Waiting(t: State, n: nat) {
    && Inv(t) && t.phase.Idle? && t.admitted == {} && Occupied(t) == n && |t.queue| == n
    && forall id :: WaitsAt(t, n, id)
  }

  /** Nothing under this id stands in the way of admitting a task called Nth(n). */
  ghost predicate CalmAt(t: State, n: nat, id: Text) {
    && (id in t.known ==> id.Other? && |id.s| < n)
    && (id in t.records.rows ==> Calm(t.records.rows[id]))
  }

  /** Such a record stands in the way of no save. */
  predicate Calm(r: Record) {
    Hashable(StatusOf(r)) && Hashable(KindOf(r)) && Writable(r)
  }

  lemma CalmStarts(t: State, n: nat)
    requires Inv(t) && Occupied(t) < QUEUE_LIMIT && forall id :: CalmAt(t, n, id)
    ensures Nth(n) !in t.known
    ensures StartResult(t, Nth(n), CASE, Ocr, true, true) == Started
    ensures var u := Next(t, Start(Nth(n), CASE, Ocr, true, true));
            && u == Admitted(t, Nth(n), NewRecord(Nth(n), CASE, Ocr, true))
            && Inv(u) && Occupied(u) == Occupied(t) + 1
  {
    var id := Nth(n);
    var r := NewRecord(id, CASE, Ocr, true);
    assert CalmAt(t, n, id) && Sane(t, id);
    forall x | x in t.records.rows
      ensures Calm(t.records.rows[x])
    {
      assert CalmAt(t, n, x);
    }
    StartExact(t, id, CASE, Ocr, true, true);
    StepKeeps(t, Start(id, CASE, Ocr, true, true));
    ActiveCleared(t.records.Put(id, r));
    OccupiedAfterUpdate(t, id, r);
  }

  lemma WaitingIsCalm(t: State, n: nat)
    requires forall x :: WaitsAt(t, n, x)
    ensures forall x :: CalmAt(t, n, x)
  {
    forall x
      ensures CalmAt(t, n, x)
    {
      assert WaitsAt(t, n, x);
    }
  }

  lemma WaitOneMore(t: State, n: nat) returns (u: State)
    requires Waiting(t, n) && n < QUEUE_LIMIT
    ensures Waiting(u, n + 1)
    ensures Enabled(t, Start(Nth(n), CASE, Ocr, true, true))
    ensures var m := Next(t, Start(Nth(n), CASE, Ocr, true, true));
            Enabled(m, Submit(Nth(n))) && u == Next(m, Submit(Nth(n)))
  {
    var id := Nth(n);
    WaitingIsCalm(t, n);
    CalmStarts(t, n);
    u := Submits(Next(t, Start(id, CASE, Ocr, true, true)), id);
    AllWait(t, n, u, n + 1);
  }

  lemma Submits(m: State, id: Text) returns (u: State)
    requires Inv(m) && id in m.admitted
    ensures Enabled(m, Submit(id)) && u == Next(m, Submit(id))
    ensures u == m.(admitted := m.admitted - {id}, queue := m.queue + [id]) && Inv(u) && Occupied(u) == Occupied(m)
  {
    u := Next(m, Submit(id));
    StepKeeps(m, Submit(id));
  }

  lemma AllWait(t: State, n: nat, u: State, k: nat)
    requires k == n + 1 && forall x :: WaitsAt(t, n, x)
    requires u.records == Cleared(t.records.Put(Nth(n), NewRecord(Nth(n), CASE, Ocr, true)))
    requires u.known == t.known + {Nth(n)} && u.tokens == t.tokens[Nth(n) := false]
    ensures forall x :: WaitsAt(u, k, x)
  {
    var r := NewRecord(Nth(n), CASE, Ocr, true);
    assert r.actions.value.items[0] == CANCEL;
    NewRecordSaves(Nth(n), CASE, Ocr, true);
    forall x
      ensures WaitsAt(u, k, x)
    {
      assert WaitsAt(t, n, x);
    }
  }

  lemma NoneWait()
    ensures Reachable(Boot(Missing, Renamed, [])) && Waiting(Boot(Missing, Renamed, []), 0)
  {
    var s := Boot(Missing, Renamed, []);
    BootInv(Missing, Renamed, []);
    assert Run(s, [], s);
    assert forall id :: WaitsAt(s, 0, id);
  }

  lemma ReachOneMore(m: State, n: nat) returns (t: State)
    requires Reachable(m) && Waiting(m, n) && n < QUEUE_LIMIT
    ensures Reachable(t) && Waiting(t, n + 1)
  {
    t := WaitOneMore(m, n);
    var start := Start(Nth(n), CASE, Ocr, true, true);
    ReachNext(m, start);
    ReachNext(Next(m, start), Submit(Nth(n)));
  }

  lemma {:induction false} WaitMany(n: nat) returns (t: State)
    requires n <= QUEUE_LIMIT
    ensures Reachable(t) && Waiting(t, n)
  {
    if n == 0 {
      t := Boot(Missing, Renamed, []);
      NoneWait();
    } else {
      var m := WaitMany(n - 1);
      t := ReachOneMore(m, n - 1);
    }
  }

  lemma FirstRuns(a: State) returns (b: State, c: State)
    requires Waiting(a, QUEUE_LIMIT)
    ensures Enabled(a, Begin) && b == Next(a, Begin)
    ensures Enabled(b, CheckToken) && c == Next(b, CheckToken)
    ensures Inv(c) && Occupied(c) == QUEUE_LIMIT && c.phase == Working(a.queue[0]) && !Stopped(c, a.queue[0])
    ensures var r := Row(c, a.queue[0]); Ready(r.(status := Some(QUEUED))) && r.status == Some(RUNNING)
    ensures forall x :: CalmAt(c, QUEUE_LIMIT, x)
  {
    var id := a.queue[0];
    QueuedIsReady(a, QUEUE_LIMIT, id);
    b := Next(a, Begin);
    StepKeeps(a, Begin);
    OccupiedAfterUpdate(a, id, WithStatus(Row(a, id), RUNNING));
    c := Next(b, CheckToken);
    StepKeeps(b, CheckToken);
    forall x
      ensures CalmAt(c, QUEUE_LIMIT, x)
    {
      assert WaitsAt(a, QUEUE_LIMIT, x);
    }
  }

  /** What is left of a record when `run` has returned nothing. */
  function Returning(r: Record): Record {
    WithStatus(r.(result := Some(Null)), SUCCEEDED)
  }

  lemma ReturningIs(r: Record)
    requires Ready(r.(status := Some(QUEUED))) && r.kind == Some(Str(Ocr))
    ensures Calm(Returning(r)) && !Active(StatusOf(Returning(r))) && OffersCancel(Returning(r))
    ensures PublishResult(r, Null, false) == Attempt(Returning(r), true)
  {
  }

  /** The task at work returns: it has left the queue, and can still be cancelled. */
  lemma FirstReturns(c: State, id: Text, n: nat) returns (d: State)
    requires Inv(c) && c.phase == Working(id) && !Stopped(c, id)
    requires Ready(Row(c, id).(status := Some(QUEUED))) && Row(c, id).status == Some(RUNNING)
    requires forall x :: CalmAt(c, n, x)
    ensures Enabled(c, RunReturns(Null)) && d == Next(c, RunReturns(Null))
    ensures d == Settle(Update(c, id, Returning(Row(c, id))), id, SUCCEEDED)
    ensures Inv(d) && Occupied(d) == Occupied(c) - 1
    ensures CancelAccepted(d, CASE, id) && InGap(d)
    ensures forall x :: CalmAt(d, n, x)
  {
    var done := Returning(Row(c, id));
    assert Sane(c, id);
    ReturningIs(Row(c, id));
    StepKeeps(c, RunReturns(Null));
    d := Settle(Update(c, id, done), id, SUCCEEDED);
    OccupiedAfterUpdate(c, id, done);
    CalmAfterReturn(c, d, n, id, done);
  }

  lemma CalmAfterReturn(c: State, d: State, n: nat, id: Text, done: Record)
    requires forall x :: CalmAt(c, n, x)
    requires d.known == c.known && d.records.rows == c.records.rows[id := done]
    requires Calm(done) && id in c.records.rows
    ensures forall x :: CalmAt(d, n, x)
  {
    forall x
      ensures CalmAt(d, n, x)
    {
      assert CalmAt(c, n, x);
    }
  }

  /** With sixteen tasks waiting, the first of them finishes, a seventeenth is admitted, and a
      cancel of the first then falls into the gap: seventeen tasks occupy the queue. */
  lemma SeventeenReached()
    ensures exists t :: Reachable(t) && Occupied(t) == 17
  {
    var a := WaitMany(QUEUE_LIMIT);
    var b, c := FirstRuns(a);
    var d := FirstReturns(c, a.queue[0], QUEUE_LIMIT);
    ReachNext(a, Begin);
    ReachNext(b, CheckToken);
    ReachNext(c, RunReturns(Null));
    CalmStarts(d, QUEUE_LIMIT);
    var start := Start(Nth(QUEUE_LIMIT), CASE, Ocr, true, true);
    ReachNext(d, start);
    var e := Next(d, start);
    GapCancelCounts(d, e, a.queue[0]);
    ReachNext(e, CancelTask(CASE, a.queue[0]));
  }

  lemma GapCancelCounts(d: State, e: State, id: Text)
    requires Inv(d) && d.phase == Settled(id) && CancelAccepted(d, CASE, id) && InGap(d)
    requires Nth(QUEUE_LIMIT) !in d.known && Occupied(e) == QUEUE_LIMIT
    requires e == Admitted(d, Nth(QUEUE_LIMIT), NewRecord(Nth(QUEUE_LIMIT), CASE, Ocr, true))
    ensures Occupied(Next(e, CancelTask(CASE, id))) == QUEUE_LIMIT + 1
  {
    assert Sane(d, id);
    assert CancelAccepted(e, CASE, id);
    OccupiedAfterUpdate(e, id, WithStatus(Row(e, id), CANCELLING));
  }

  // ---------------------------------------------- services that fail to close

  /** A finished task that the worker left with its token, cancelled since or not. */
  predicate Left(r: Record, cancelled: bool) {
    Calm(r) && r.caseId == Some(Str(CASE)) && OffersCancel(r) && StatusOf(r) == if cancelled then CANCELLING else SUCCEEDED
  }

  ghost predicate LeftAt(t: State, n: nat, k: nat, id: Text) {
    && (id in t.known ==> id.Other? && |id.s| < n && id == Nth(|id.s|))
    && (id in t.records.rows ==> id in t.tokens && Left(t.records.rows[id], id.Other? && |id.s| < k))
  }

  /** n tasks are stranded and nothing else is there; the first k of them have been cancelled. */
  ghost predicate Behind(t: State, n: nat, k: nat) {
    && Inv(t) && t.phase.Idle? && t.admitted == {} && t.queue == [] && Occupied(t) == k <= n
    && (forall i: nat | i < n :: Nth(i) in t.records.rows)
    && forall id :: LeftAt(t, n, k, id)
  }

  function RunningRow(n: nat): Record {
    WithStatus(NewRecord(Nth(n), CASE, Ocr, true), RUNNING)
  }

  /** The rows after the admission of one more task, which has this row since. */
  ghost function Grown(t: State, n: nat, r: Record): map<Text, Record> {
    Cleared(t.records.Put(Nth(n), NewRecord(Nth(n), CASE, Ocr, true))).rows[Nth(n) := r]
  }

  /** One more task goes through the pool up to the entry of its `run`. */
  lemma EntersRun(t: State, n: nat) returns (c: State)
    requires Behind(t, n, 0) && Reachable(t)
    ensures Reachable(c) && Inv(c) && c.phase == Working(Nth(n)) && !Stopped(c, Nth(n)) && Nth(n) in c.ran
    ensures c.records.rows == Grown(t, n, RunningRow(n))
    ensures c.known == t.known + {Nth(n)} && c.tokens == t.tokens[Nth(n) := false]
    ensures c.admitted == {} && c.queue == [] && c.stranded == t.stranded && Occupied(c) == 1
  {
    var id := Nth(n);
    forall x
      ensures CalmAt(t, n, x)
    {
      assert LeftAt(t, n, 0, x);
    }
    CalmStarts(t, n);
    var start := Start(id, CASE, Ocr, true, true);
    var m := Next(t, start);
    ReachNext(t, start);
    c := FromAdmitted(m, id);
  }

  lemma FromAdmitted(m: State, id: Text) returns (c: State)
    requires Reachable(m) && Inv(m) && m.phase.Idle? && m.queue == [] && m.admitted == {id} && id in m.tokens && !m.tokens[id]
    requires id in m.records.rows && Active(StatusOf(Row(m, id)))
    ensures Reachable(c) && Inv(c) && Occupied(c) == Occupied(m)
    ensures c == m.(admitted := {}, phase := Working(id), ran := m.ran + {id},
                    records := m.records.(rows := m.records.rows[id := WithStatus(Row(m, id), RUNNING)]))
  {
    var q := Next(m, Submit(id));
    StepKeeps(m, Submit(id));
    ReachNext(m, Submit(id));
    assert q.queue == [id] + [] && q.admitted == {};
    c := HeadRuns(q, id, []);
    OccupiedAfterUpdate(q, id, WithStatus(Row(q, id), RUNNING));
  }

  lemma LeaveOneMore(t: State, n: nat) returns (u: State)
    requires Behind(t, n, 0) && Reachable(t)
    ensures Behind(u, n + 1, 0) && Reachable(u)
  {
    var id := Nth(n);
    var c := EntersRun(t, n);
    CalmOneMore(t, n, c, n + 1);
    GrownRow(t, n);
    u := ReturnsAndStrands(c, id, n + 1);
    BehindOneMore(t, n, u, n + 1);
  }

  lemma GrownRow(t: State, n: nat)
    ensures RowOf(Grown(t, n, RunningRow(n)), Nth(n)) == RunningRow(n)
    ensures Grown(t, n, RunningRow(n))[Nth(n) := Returning(RunningRow(n))] == Grown(t, n, Returning(RunningRow(n)))
  {
  }

  lemma ReturnsAndStrands(c: State, id: Text, n: nat) returns (u: State)
    requires Reachable(c) && Inv(c) && c.phase == Working(id) && !Stopped(c, id) && id in c.ran && Occupied(c) == 1
    requires Ready(Row(c, id).(status := Some(QUEUED))) && Row(c, id).status == Some(RUNNING)
    requires forall x :: CalmAt(c, n, x)
    ensures Reachable(u) && Inv(u) && Occupied(u) == 0
    ensures u == c.(phase := Idle, stranded := c.stranded + {id}, published := u.published,
                    records := c.records.(rows := c.records.rows[id := Returning(Row(c, id))]))
  {
    var d := FirstReturns(c, id, n);
    ReachNext(c, RunReturns(Null));
    u := Strands(d);
  }

  lemma Strands(d: State) returns (u: State)
    requires Reachable(d) && Inv(d) && d.phase.Settled? && d.phase.id in d.ran
    ensures Reachable(u) && Inv(u) && Occupied(u) == Occupied(d)
    ensures u == d.(phase := Idle, stranded := d.stranded + {d.phase.id})
  {
    u := Next(d, ServicesFail);
    ReachNext(d, ServicesFail);
    ServicesFailKeeps(d);
  }

  lemma CalmOneMore(t: State, n: nat, c: State, k: nat)
    requires k == n + 1 && forall x :: LeftAt(t, n, 0, x)
    requires c.known == t.known + {Nth(n)}
    requires c.records.rows == Grown(t, n, RunningRow(n))
    ensures forall x :: CalmAt(c, k, x)
    ensures Ready(Row(c, Nth(n)).(status := Some(QUEUED)))
  {
    NewRecordSaves(Nth(n), CASE, Ocr, true);
    assert NewRecord(Nth(n), CASE, Ocr, true).actions.value.items[0] == CANCEL;
    forall x
      ensures CalmAt(c, k, x)
    {
      assert LeftAt(t, n, 0, x);
    }
  }

  lemma LeftOneMore(t: State, n: nat, u: State, k: nat, x: Text)
    requires k == n + 1 && LeftAt(t, n, 0, x)
    requires u.known == t.known + {Nth(n)} && u.tokens == t.tokens[Nth(n) := false]
    requires u.records.rows == Grown(t, n, Returning(RunningRow(n)))
    ensures LeftAt(u, k, 0, x)
  {
    NewRecordSaves(Nth(n), CASE, Ocr, true);
    assert NewRecord(Nth(n), CASE, Ocr, true).actions.value.items[0] == CANCEL;
  }

  lemma BehindOneMore(t: State, n: nat, u: State, k: nat)
    requires k == n + 1 && Behind(t, n, 0) && Inv(u) && Occupied(u) == 0
    requires u.phase.Idle? && u.admitted == {} && u.queue == []
    requires u.known == t.known + {Nth(n)} && u.tokens == t.tokens[Nth(n) := false]
    requires u.records.rows == Grown(t, n, Returning(RunningRow(n)))
    ensures Behind(u, k, 0)
  {
    forall x
      ensures LeftAt(u, k, 0, x)
    {
      assert LeftAt(t, n, 0, x);
      LeftOneMore(t, n, u, k, x);
    }
    forall i: nat | i < k
      ensures Nth(i) in u.records.rows
    {
      assert i < n ==> Nth(i) in t.records.rows;
    }
  }

  lemma {:induction false} LeaveMany(n: nat) returns (t: State)
    ensures Behind(t, n, 0) && Reachable(t)
  {
    if n == 0 {
      t := Boot(Missing, Renamed, []);
      NoneWait();
      assert forall id :: LeftAt(t, 0, 0, id);
    } else {
      var m := LeaveMany(n - 1);
      t := LeaveOneMore(m, n - 1);
    }
  }

  lemma CancelOneMore(t: State, n: nat, k: nat) returns (u: State)
    requires Behind(t, n, k) && Reachable(t) && k < n
    ensures Behind(u, n, k + 1) && Reachable(u)
  {
    var id := Nth(k);
    assert LeftAt(t, n, k, id) && Nth(k) in t.records.rows;
    u := Next(t, CancelTask(CASE, id));
    StepKeeps(t, CancelTask(CASE, id));
    ReachNext(t, CancelTask(CASE, id));
    CancelKeeps(t, CASE, id);
    CancelledMore(t, n, k, u, k + 1);
  }

  lemma CancelledMore(t: State, n: nat, k: nat, u: State, j: nat)
    requires Inv(t) && j == k + 1 && (forall id :: LeftAt(t, n, k, id)) && u.known == t.known && Nth(k) in t.records.rows
    requires u.tokens == t.tokens[Nth(k) := true] && u.records == Marked(t, Nth(k)).records
    ensures forall id :: LeftAt(u, n, j, id)
  {
    forall id
      ensures LeftAt(u, n, j, id)
    {
      assert LeftAt(t, n, k, id);
      assert Sane(t, id);
    }
  }

  lemma {:induction false} CancelMany(n: nat, k: nat) returns (t: State)
    requires k <= n
    ensures Behind(t, n, k) && Reachable(t)
  {
    if k == 0 {
      t := LeaveMany(n);
    } else {
      var m := CancelMany(n, k - 1);
      t := CancelOneMore(m, n, k - 1);
    }
  }

  /** When closing the services may raise there is no bound at all: any number of tasks can be left
      behind and then be cancelled back into the queue. */
  lemma AnyNumberReached(n: nat)
    ensures exists t :: Reachable(t) && Occupied(t) == n
  {
    var t := CancelMany(n, n);
  }

  // ---------------------------------------------------- a save that is missed

  predicate HasStatus(job: Json) {
    job.Obj? && JobStatusKey in job.fields
  }

  /** What a task with this last report comes to. */
  function Reported(r: Record, job: Json): Record
    requires HasStatus(job)
  {
    r.(status := Some(job.fields[JobStatusKey]), job := Some(job), result := Some(Null))
  }

  lemma ReportedIs(r: Record, job: Json)
    requires HasStatus(job) && r.job == Some(job)
    ensures PublishResult(r, Null, false) == Attempt(Reported(r, job), true)
  {
    assert Truthy(job);
  }

  /** The task at the head of the queue begins and gets as far as `run`. */
  lemma HeadRuns(a: State, id: Text, rest: seq<Text>) returns (c: State)
    requires Reachable(a) && Inv(a) && a.phase.Idle? && a.queue == [id] + rest
    requires id in a.tokens && !a.tokens[id] && id in a.records.rows
    ensures Reachable(c) && Inv(c)
    ensures c == a.(queue := rest, phase := Working(id), ran := a.ran + {id},
                    records := a.records.(rows := a.records.rows[id := WithStatus(Row(a, id), RUNNING)]))
  {
    var b := Next(a, Begin);
    StepKeeps(a, Begin);
    ReachNext(a, Begin);
    c := Next(b, CheckToken);
    StepKeeps(b, CheckToken);
    ReachNext(b, CheckToken);
  }

  /** It reports this job. */
  lemma Reports(c: State, id: Text, job: Json) returns (p: State)
    requires Reachable(c) && Inv(c) && c.phase == Working(id)
    ensures Reachable(p) && Inv(p)
    ensures p == Update(c, id, Row(c, id).(job := Some(job)))
  {
    p := Next(c, Progress(job));
    StepKeeps(c, Progress(job));
    ReachNext(c, Progress(job));
  }

  /** And returns nothing. */
  lemma ReturnsReported(p: State, id: Text, job: Json) returns (d: State)
    requires Reachable(p) && Inv(p) && p.phase == Working(id) && !Stopped(p, id)
    requires HasStatus(job) && Row(p, id).job == Some(job)
    ensures Reachable(d) && Inv(d)
    ensures d == Settle(Update(p, id, Reported(Row(p, id), job)), id, job.fields[JobStatusKey])
  {
    ReportedIs(Row(p, id), job);
    d := Next(p, RunReturns(Null));
    StepKeeps(p, RunReturns(Null));
    ReachNext(p, RunReturns(Null));
  }

  /** A task that is closed next to a record that cannot be written. */
  lemma Misses(d: State, x: Text) returns (e: State)
    requires Reachable(d) && Inv(d) && d.phase.Settled?
    requires Row(d, d.phase.id).receiptError.None? && StatusOf(Row(d, d.phase.id)) == SUCCEEDED
    requires var c := Closed(d, d.phase.id); x in c.records.rows && !Writable(Row(c, x))
    ensures Reachable(e) && Inv(e) && Finished(e, d.phase.id) && !Told(e, d.phase.id)
    ensures e == Closed(d, d.phase.id).(skipped := e.skipped) && e.journal == d.journal
  {
    var s := Boot(Missing, Renamed, []);
    var steps :| Run(s, steps, d);
    e := Next(d, FinaliseTask(true));
    StepKeeps(d, FinaliseTask(true));
    ReachNext(d, FinaliseTask(true));
    FinaliseExact(d, true);
    ClosingExact(Missing, Renamed, [], steps, d, true);
    assert Sane(d, d.phase.id);
  }

  /** A report whose status is a text and which holds a value that is no JSON, or none such. */
  function Job(printable: bool): Json {
    Obj(map[JobStatusKey := SUCCEEDED, Named("detail") := if printable then Null else Unprintable])
  }

  lemma JobPrints(r: Record, printable: bool)
    requires Ready(r.(status := Some(QUEUED), job := Some(Null))) && r.kind == Some(Str(Ocr))
    ensures Writable(Reported(r, Job(printable)).(actions := Some(List([])))) <==> printable
  {
    var job := Job(printable);
    assert Printable(job) <==> printable by {
      assert Named("detail") in job.fields;
      assert forall k | k in job.fields :: k == JobStatusKey || k == Named("detail");
    }
  }

  /** The head of the queue comes to the end of its `run`. */
  lemma HeadSettles(a: State, id: Text, rest: seq<Text>, job: Json) returns (d: State)
    requires Reachable(a) && Inv(a) && a.phase.Idle? && a.queue == [id] + rest && HasStatus(job)
    requires id in a.tokens && !a.tokens[id] && id in a.records.rows
    ensures Reachable(d) && Inv(d) && d.phase == Settled(id)
    ensures d.queue == rest && d.journal == a.journal && d.tokens == a.tokens
    ensures d.records.rows == a.records.rows[id := Reported(Row(a, id), job)]
  {
    var c := HeadRuns(a, id, rest);
    var p := Reports(c, id, job);
    d := ReturnsReported(p, id, job);
    assert Reported(Row(p, id), job) == Reported(Row(a, id), job);
  }

  /** And its closing save is missed. */
  lemma HeadMissed(a: State, id: Text, rest: seq<Text>, printable: bool, x: Text) returns (e: State)
    requires Reachable(a) && Inv(a) && a.phase.Idle? && a.queue == [id] + rest
    requires id in a.tokens && !a.tokens[id] && id in a.records.rows && Ready(Row(a, id))
    requires if printable then x != id && x in a.records.rows && !Writable(Row(a, x)) else x == id
    ensures Reachable(e) && Inv(e) && e.phase.Idle? && e.queue == rest && e.journal == a.journal
    ensures e.tokens == a.tokens - {id}
    ensures e.records.rows == a.records.rows[id := Reported(Row(a, id), Job(printable)).(actions := Some(List([])))]
    ensures Finished(e, id) && !Told(e, id) && (Writable(Row(e, id)) <==> printable)
  {
    var d := HeadSettles(a, id, rest, Job(printable));
    JobPrints(Row(a, id), printable);
    ClosedRows(a, d, id, Job(printable));
    e := Misses(d, x);
  }

  lemma ClosedRows(a: State, d: State, id: Text, job: Json)
    requires HasStatus(job) && d.records.rows == a.records.rows[id := Reported(Row(a, id), job)]
    ensures Closed(d, id).records.rows == a.records.rows[id := Reported(Row(a, id), job).(actions := Some(List([])))]
  {
  }

  /** Two tasks of which the first reports a value that is no JSON: both end as finished, nothing
      says so of either, and the journal still holds both as they were admitted. The record of the
      second could have been written. */
  lemma MissedReached()
    ensures exists t, x, y :: Reachable(t) && x != y && Finished(t, x) && !Told(t, x) && Finished(t, y) && !Told(t, y)
                              && !Writable(Row(t, x)) && Writable(Row(t, y))
  {
    var a := WaitMany(2);
    var x, y := a.queue[0], a.queue[1];
    QueuedIsReady(a, 2, x);
    QueuedIsReady(a, 2, y);
    assert a.queue == [x] + [y];
    var b := HeadMissed(a, x, [y], false, x);
    var t := HeadMissed(b, y, [], true, x);
    StillMissed(b, t, x);
  }

  lemma QueuedIsReady(a: State, n: nat, id: Text)
    requires Waiting(a, n) && id in a.queue
    ensures id in a.tokens && !a.tokens[id] && id in a.records.rows && Ready(Row(a, id))
  {
    assert WaitsAt(a, n, id) && Sane(a, id);
  }

  lemma StillMissed(b: State, t: State, x: Text)
    requires Finished(b, x) && !Told(b, x) && x in t.records.rows && x !in t.tokens
    requires t.journal == b.journal && t.records.rows[x] == b.records.rows[x]
    ensures Finished(t, x) && !Told(t, x)
  {
  }

  // -------------------------------------------- a journal that is not accepted

  /** A save that succeeds, of a record whose status is no text. */
  lemma {:induction false} StatusUnread(t: Table<Text, Record>, id: Text)
    requires t.Valid() && id in t.rows && !NonBlankText(t.rows[id].status)
    ensures !Readable(Items(ReceiptList(t.rows, t.order)))
  {
    assert !ValidElement(Dict(t.rows[id]));
    WrittenReadable(t);
  }

  /** The job is reported with a number for its status. */
  const ODD_JOB := Obj(map[JobStatusKey := Num(5.0)])

  lemma OddJobSaves(d: State, id: Text)
    requires Reachable(d) && Inv(d) && d.phase == Settled(id) && Row(d, id).receiptError.None?
    requires StatusOf(Row(d, id)) == Num(5.0) && AllWritable(Closed(d, id).records.rows)
    ensures Reachable(Next(d, FinaliseTask(true)))
    ensures var e := Next(d, FinaliseTask(true)); Settles(e, id) && Told(e, id) && !Readable(e.journal)
  {
    var c := Closed(d, id);
    ReachNext(d, FinaliseTask(true));
    FinaliseExact(d, true);
    assert Sane(d, id);
    ClosedKeeps(d);
    OrderlyStorable(c);
    StatusUnread(c.records, id);
    SavesAll(c, id);
  }

  lemma SavesAll(c: State, id: Text)
    requires Orderly(c) && AllWritable(c.records.rows) && id in c.records.rows && id !in c.tokens
    requires forall x :: Hashable(KindOf(Row(c, x)))
    ensures var e := SaveState(c, true);
            Finished(e, id) && SaveResult(c.records.rows, true) == Saved
            && e.journal == Items(ReceiptList(c.records.rows, c.records.order))
  {
    assert forall x | x in c.records.rows :: Row(c, x) == c.records.rows[x];
  }

  /** A task whose job came with a status that is no text is saved like any other, and the next
      start accepts nothing of the journal. */
  lemma HistoryLost()
    ensures exists t, id :: Reachable(t) && Settles(t, id) && Told(t, id) && !Readable(t.journal)
  {
    var a := WaitMany(1);
    var id := a.queue[0];
    QueuedIsReady(a, 1, id);
    assert a.queue == [id] + [];
    var d := HeadSettles(a, id, [], ODD_JOB);
    OddJobClosed(a, d, id);
    OddJobSaves(d, id);
  }

  lemma OddJobClosed(a: State, d: State, id: Text)
    requires Waiting(a, 1) && id in a.records.rows && Ready(Row(a, id))
    requires d.records.rows == a.records.rows[id := Reported(Row(a, id), ODD_JOB)]
    ensures AllWritable(Closed(d, id).records.rows)
  {
    OddJobWritable(Row(a, id));
    forall x | x in Closed(d, id).records.rows
      ensures Writable(Closed(d, id).records.rows[x])
    {
      assert WaitsAt(a, 1, x);
    }
  }

  lemma OddJobWritable(r: Record)
    requires Ready(r)
    ensures Writable(Reported(r, ODD_JOB).(actions := Some(List([]))))
  {
    assert forall k | k in ODD_JOB.fields :: k == JobStatusKey;
    assert Printable(ODD_JOB);
  }
}
