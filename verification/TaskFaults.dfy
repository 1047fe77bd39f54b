/** What goes wrong for good, until the process ends: values that no save can take. */
module TaskFaults {
  import opened Wrappers
  import opened JsonValues
  import opened Tables
  import opened Receipts
  import opened TaskSteps
  import opened TaskLaws
  import opened TaskRuns

  lemma NewRecordSaves(id: Text, caseId: Text, kind: Text, cancellable: bool)
    ensures Hashable(KindOf(NewRecord(id, caseId, kind, cancellable)))
    ensures Writable(NewRecord(id, caseId, kind, cancellable))
  {
  }

  /** A new task is admitted exactly when the disk takes the journal, fewer than sixteen tasks are
      active, and every record has a hashable status and kind and a receipt that can be written. */
  lemma StartExact(s: State, id: Text, caseId: Text, kind: Text, cancellable: bool, disk: bool)
    requires id !in s.records.rows
    ensures StartResult(s, id, caseId, kind, cancellable, disk) == Started
            <==> && disk && Occupied(s) < 16
                 && forall x | x in s.records.rows ::
                      && !StatusOf(s.records.rows[x]).List? && !StatusOf(s.records.rows[x]).Obj?
                      && !KindOf(s.records.rows[x]).List? && !KindOf(s.records.rows[x]).Obj?
                      && Writable(s.records.rows[x])
  {
    var r := NewRecord(id, caseId, kind, cancellable);
    var rows := s.records.rows[id := r];
    NewRecordSaves(id, caseId, kind, cancellable);
    assert forall x | x in s.records.rows :: x in rows && rows[x] == s.records.rows[x];
  }

  // ------------------------------------------------------- an unhashable kind

  ghost predicate BadKind(s: State, id: Text) {
    id in s.records.rows && !Hashable(KindOf(s.records.rows[id]))
  }

  lemma NothingUnderWay(s: State)
    requires Inv(s) && s.tokens == map[]
    ensures s.admitted == {} && s.queue == [] && s.phase.Idle?
  {
    forall x
      ensures x !in s.admitted && x !in s.queue && !PhaseHas(s.phase, x)
    {
      assert Sane(s, x);
    }
    assert s.phase.Idle? || PhaseHas(s.phase, s.phase.id);
    HeadIn(s.queue, {});
  }

  lemma HeadIn(ids: seq<Text>, all: set<Text>)
    requires forall id | id in ids :: id in all
    ensures ids != [] ==> all != {}
  {
    if ids != [] {
      assert ids[0] in all;
    }
  }

  /** No task is under way next to a record with such a kind. */
  lemma BadKindIdle(s: State, id: Text)
    requires Inv(s) && BadKind(s, id)
    ensures s.tokens == map[] && s.admitted == {} && s.queue == [] && s.phase.Idle?
  {
    assert Sane(s, id);
    NothingUnderWay(s);
  }

  lemma BadKindStep(s: State, step: Step, id: Text)
    requires Inv(s) && Enabled(s, step) && !step.Restart? && BadKind(s, id)
    ensures Next(s, step) == s.(known := Next(s, step).known)
  {
    BadKindIdle(s, id);
    assert !KindsHashable(s.records.rows);
    if step.Start? {
      assert Sane(s, step.id);
      StartExact(s, step.id, step.caseId, step.kind, step.cancellable, step.disk);
    } else if step.CancelTask? {
      assert !CancelAccepted(s, step.caseId, step.id);
    }
  }

  /** One loaded record whose kind is a list or a dictionary stops the manager: whatever is asked
      of it until the next start, nothing changes but the identifiers used up, and no task is
      admitted. */
  lemma {:induction false} UnhashableKindHalts(s: State, steps: seq<Step>, t: State, id: Text)
    requires Inv(s) && ProcessRun(s, steps, t) && BadKind(s, id)
    ensures t == s.(known := t.known)
    ensures forall x, caseId, kind, cancellable, disk | x !in t.records.rows ::
              StartResult(t, x, caseId, kind, cancellable, disk) != Started
    decreases |steps|
  {
    if steps != [] {
      assert steps[0] in steps;
      BadKindStep(s, steps[0], id);
      StepKeeps(s, steps[0]);
      UnhashableKindHalts(Next(s, steps[0]), steps[1..], t, id);
    } else {
      forall x, caseId, kind, cancellable, disk | x !in t.records.rows
        ensures StartResult(t, x, caseId, kind, cancellable, disk) != Started
      {
        StartExact(t, x, caseId, kind, cancellable, disk);
      }
    }
  }

  /** A journal with such a record is loaded like any other. */
  lemma UnhashableKindLoads(id: Text, caseId: Text, kind: Json, move: Move)
    requires !Blank(id) && !Blank(caseId) && (kind.List? || kind.Obj?)
    ensures var r := Record(Some(Str(id)), Some(Str(caseId)), Some(kind), Some(SUCCEEDED), None, None, None, None, None, map[]);
            var file := Items([Dict(r)]);
            Readable(file) && BadKind(Boot(file, move, []), id)
  {
    var r := Record(Some(Str(id)), Some(Str(caseId)), Some(kind), Some(SUCCEEDED), None, None, None, None, None, map[]);
    var items := [Dict(r)];
    assert forall e | e in items :: e == Dict(r) && ValidElement(e);
    FillLookup(Recovered(items), 1, id);
    assert Recovered(items)[0] == (id, Recover(r));
    assert Fill(Recovered(items), 0).Put(id, Recover(r)) == Load(items);
  }

  // ---------------------------------------------------- a value that is no JSON

  /** A finished task whose receipt cannot be written. */
  ghost predicate Unwritable(s: State, id: Text) {
    id in s.records.rows && id !in s.tokens && !Writable(s.records.rows[id])
  }

  lemma UnwritableSave(rows: map<Text, Record>, id: Text, disk: bool)
    requires id in rows && !Writable(rows[id])
    ensures SaveResult(rows, disk) != Saved
  {
  }

  lemma UnwritableStart(s: State, step: Step, id: Text)
    requires Inv(s) && step.Start? && Enabled(s, step) && Unwritable(s, id)
    ensures var n := Admit(s, step.id, step.caseId, step.kind, step.cancellable, step.disk);
            n.journal == s.journal && n.born == s.born
  {
    assert Sane(s, step.id);
    StartExact(s, step.id, step.caseId, step.kind, step.cancellable, step.disk);
  }

  lemma UnwritableFinish(s: State, other: Text, disk: bool, id: Text)
    requires id != other && Unwritable(s, id)
    ensures Finalise(s, other, disk).journal == s.journal && Finalise(s, other, disk).born == s.born
  {
    assert Row(Closed(s, other), id) == Row(s, id);
    UnwritableSave(Closed(s, other).records.rows, id, disk);
    UnsavedFinish(s, other, disk);
  }

  lemma UnsavedFinish(s: State, other: Text, disk: bool)
    requires SaveResult(Closed(s, other).records.rows, disk) != Saved
    ensures Finalise(s, other, disk).journal == s.journal && Finalise(s, other, disk).born == s.born
  {
  }

  lemma UnwritableSaveState(s: State, disk: bool, id: Text)
    requires id in s.records.rows && !Writable(s.records.rows[id])
    ensures SaveState(s, disk) == s
  {
    UnwritableSave(s.records.rows, id, disk);
  }

  predicate Saves(step: Step) {
    step.Start? || step.SubmitFails? || step.FinaliseTask? || step.ListTasks? || step.CloseSave? || step.Restart?
  }

  lemma OthersDoNotSave(s: State, step: Step)
    requires Enabled(s, step) && !Saves(step)
    ensures Next(s, step).journal == s.journal && Next(s, step).born == s.born
  {
  }

  lemma UnwritableStep(s: State, step: Step, id: Text)
    requires Inv(s) && Enabled(s, step) && !step.Restart? && Unwritable(s, id)
    ensures Next(s, step).journal == s.journal && Next(s, step).born == s.born
  {
    assert Sane(s, id);
    if step.Start? {
      UnwritableStart(s, step, id);
    } else if step.SubmitFails? {
      UnwritableSaveState(Withdrawn(s, step.id), step.disk, id);
    } else if step.FinaliseTask? {
      UnwritableFinish(s, s.phase.id, step.disk, id);
    } else if step.ListTasks? || step.CloseSave? {
      UnwritableSaveState(s, step.disk, id);
    } else {
      OthersDoNotSave(s, step);
    }
  }

  lemma UnwritableStays(s: State, step: Step, id: Text)
    requires Inv(s) && Enabled(s, step) && !step.Restart? && Unwritable(s, id)
    ensures Unwritable(Next(s, step), id)
  {
    assert Sane(s, id);
    OverStep(s, step, id);
    SameWritable(s, Next(s, step), id);
  }

  lemma SameWritable(s: State, n: State, id: Text)
    requires id in s.records.rows && StoryOf(n, id) == StoryOf(s, id)
    ensures id in n.records.rows && Writable(n.records.rows[id]) == Writable(s.records.rows[id])
    ensures id in n.tokens <==> id in s.tokens
  {
    assert Lasting(n.records.rows[id]) == Lasting(s.records.rows[id]);
    assert Project(n.records.rows[id]) == Project(s.records.rows[id]);
  }

  /** Once a finished record holds a value that its receipt cannot take, no save succeeds and no
      task is admitted until the process ends. */
  lemma {:induction false} UnwritableHalts(s: State, steps: seq<Step>, t: State, id: Text)
    requires Inv(s) && ProcessRun(s, steps, t) && Unwritable(s, id)
    ensures t.journal == s.journal && t.born == s.born && Unwritable(t, id)
    ensures forall x, caseId, kind, cancellable, disk | x !in t.records.rows ::
              StartResult(t, x, caseId, kind, cancellable, disk) != Started
    decreases |steps|
  {
    if steps != [] {
      assert steps[0] in steps;
      StepKeeps(s, steps[0]);
      UnwritableStep(s, steps[0], id);
      UnwritableStays(s, steps[0], id);
      UnwritableHalts(Next(s, steps[0]), steps[1..], t, id);
    } else {
      forall x, caseId, kind, cancellable, disk | x !in t.records.rows
        ensures StartResult(t, x, caseId, kind, cancellable, disk) != Started
      {
        StartExact(t, x, caseId, kind, cancellable, disk);
      }
    }
  }
}
