/** The database store of confirmation grants: every authorisation is a read that may be stale by
    the time of its conditional update. */
module DbConfirmations {
  import opened Wrappers
  import opened Totals
  import opened Confirmations

  /** A row of the grants table. */
  datatype Row = Row(grant: Grant, usesCount: int)

  /** What one call of authorize still has to do: it has taken the time, it has read the row and
      accepted it, or it has returned. */
  datatype Progress = Begun | Passed | Done(ok: bool)

  datatype Caller = Caller(request: Request, now: int, progress: Progress)

  datatype Db = Db(rows: map<string, Row>, callers: seq<Caller>)

  datatype DbStep =
    | Insert(grant: Grant)                 // the backend issues a grant under a fresh identifier
    | Enter(request: Request, now: int)
    | Read(who: nat)
    | Update(who: nat)

  /** The tests made on the row that was read. */
  predicate Accepts(rows: map<string, Row>, r: Request, now: int) {
    && r.id in rows
    && now < Instant(rows[r.id].grant.expires)
    && rows[r.id].usesCount < rows[r.id].grant.maxUses
    && Matches(rows[r.id].grant, r)
  }

  /** UPDATE ... SET uses_count = uses_count + 1 WHERE grant_id = ... AND uses_count < max_uses */
  function UpdateRows(rows: map<string, Row>, id: string): (map<string, Row>, bool) {
    if id in rows && rows[id].usesCount < rows[id].grant.maxUses
    then (rows[id := rows[id].(usesCount := rows[id].usesCount + 1)], true)
    else (rows, false)
  }

  predicate DbEnabled(d: Db, step: DbStep) {
    match step
    case Insert(g) => g.id !in d.rows
    case Enter(_, _) => true
    case Read(i) => i < |d.callers| && d.callers[i].progress.Begun?
    case Update(i) => i < |d.callers| && d.callers[i].progress.Passed?
  }

  function To(d: Db, who: nat, p: Progress): Db
    requires who < |d.callers|
  {
    d.(callers := d.callers[who := d.callers[who].(progress := p)])
  }

  function DbNext(d: Db, step: DbStep): Db
    requires DbEnabled(d, step)
  {
    match step
    case Insert(g) => d.(rows := d.rows[g.id := Row(g, 0)])
    case Enter(r, now) => d.(callers := d.callers + [Caller(r, now, Begun)])
    case Read(i) =>
      var c := d.callers[i];
      To(d, i, if Accepts(d.rows, c.request, c.now) then Passed else Done(false))
    case Update(i) =>
      var (rows, ok) := UpdateRows(d.rows, d.callers[i].request.id);
      To(d.(rows := rows), i, Done(ok))
  }

  ghost predicate DbRun(states: seq<Db>, steps: seq<DbStep>) {
    && |states| == |steps| + 1
    && forall i | 0 <= i < |steps| :: DbEnabled(states[i], steps[i]) && states[i + 1] == DbNext(states[i], steps[i])
  }

  // ---------------------------------------------------------------- counting

  /** Calls that returned True under one identifier. */
  function TrueFor(id: string): Caller -> nat {
    (c: Caller) => if c.request.id == id && c.progress == Done(true) then 1 else 0
  }

  /** A caller that got past the read, and above all one that was told True, asked for exactly
      what the grant is for, before the grant expired. */
  ghost predicate CallerOk(rows: map<string, Row>, c: Caller) {
    c.progress.Passed? || c.progress == Done(true) ==>
      && c.request.id in rows && Matches(rows[c.request.id].grant, c.request)
      && c.now < Instant(rows[c.request.id].grant.expires)
  }

  ghost predicate RowOk(d: Db, id: string) {
    && (id in d.rows ==> d.rows[id].grant.id == id && Total(d.callers, TrueFor(id)) == d.rows[id].usesCount <= Weight(d.rows[id].grant))
    && (id !in d.rows ==> Total(d.callers, TrueFor(id)) == 0)
  }

  ghost predicate DbInv(d: Db) {
    && (forall id: string :: RowOk(d, id))
    && (forall i | 0 <= i < |d.callers| :: CallerOk(d.rows, d.callers[i]))
  }

  lemma ReadKeeps(d: Db, who: nat)
    requires DbInv(d) && DbEnabled(d, Read(who))
    ensures DbInv(DbNext(d, Read(who)))
  {
    var t := DbNext(d, Read(who));
    forall id: string
      ensures RowOk(t, id)
    {
      assert RowOk(d, id);
      TotalUpdate(d.callers, who, t.callers[who], TrueFor(id));
    }
  }

  lemma UpdateKeeps(d: Db, who: nat)
    requires DbInv(d) && DbEnabled(d, Update(who))
    ensures DbInv(DbNext(d, Update(who)))
  {
    var t := DbNext(d, Update(who));
    assert CallerOk(d.rows, d.callers[who]);
    forall id: string
      ensures RowOk(t, id)
    {
      assert RowOk(d, id);
      TotalUpdate(d.callers, who, t.callers[who], TrueFor(id));
    }
    forall i | 0 <= i < |t.callers|
      ensures CallerOk(t.rows, t.callers[i])
    {
      assert CallerOk(d.rows, d.callers[i]);
    }
  }

  lemma DbStepKeeps(d: Db, step: DbStep)
    requires DbInv(d) && DbEnabled(d, step)
    ensures DbInv(DbNext(d, step))
  {
    var t := DbNext(d, step);
    match step {
      case Insert(g) =>
        forall id: string
          ensures RowOk(t, id)
        {
          assert RowOk(d, id);
        }
        forall i | 0 <= i < |t.callers|
          ensures CallerOk(t.rows, t.callers[i])
        {
          assert CallerOk(d.rows, d.callers[i]);
        }
      case Enter(r, now) =>
        forall id: string
          ensures RowOk(t, id)
        {
          assert RowOk(d, id);
          TotalAppend(d.callers, Caller(r, now, Begun), TrueFor(id));
        }
      case Read(i) => ReadKeeps(d, i);
      case Update(i) => UpdateKeeps(d, i);
    }
  }

  lemma {:induction false} DbRunKeeps(states: seq<Db>, steps: seq<DbStep>)
    requires DbRun(states, steps) && DbInv(states[0])
    ensures DbInv(states[|steps|])
    decreases |steps|
  {
    if steps != [] {
      var n := |steps| - 1;
      DbRunKeeps(states[..n + 1], steps[..n]);
      DbStepKeeps(states[n], steps[n]);
    }
  }

  // ---------------------------------------------------------------- refinement

  /** The same grants and uses in the locked in-memory store. */
  function Abstract(rows: map<string, Row>): Store {
    Store(map id | id in rows :: rows[id].grant, map id | id in rows :: rows[id].usesCount)
  }

  /** One locked operation: a grant issued, or an authorisation and its answer. */
  datatype Locked = LockedIssue(grant: Grant) | LockedAuthorize(who: nat, ok: bool)

  /** Where a step of the split form takes effect: a refusal by the read at the read, any other
      answer at the update. */
  function Effect(d: Db, step: DbStep): seq<Locked>
    requires DbEnabled(d, step)
  {
    match step
    case Insert(g) => [LockedIssue(g)]
    case Enter(_, _) => []
    case Read(i) => if Accepts(d.rows, d.callers[i].request, d.callers[i].now) then [] else [LockedAuthorize(i, false)]
    case Update(i) => [LockedAuthorize(i, UpdateRows(d.rows, d.callers[i].request.id).1)]
  }

  function Effects(states: seq<Db>, steps: seq<DbStep>): seq<Locked>
    requires DbRun(states, steps)
    decreases |steps|
  {
    if steps == [] then []
    else
      var n := |steps| - 1;
      Effects(states[..n + 1], steps[..n]) + Effect(states[n], steps[n])
  }

  /** A row that was inserted without uses behaves like a grant without uses, which the in-memory
      store can only receive from its constructor. */
  function PutGrant(s: Store, g: Grant): Store {
    Store(s.grants[g.id := g], s.uses[g.id := 0])
  }

  /** One locked operation, and whether its answer is the one recorded. */
  function LockedNext(s: Store, callers: seq<Caller>, op: Locked): (Store, bool) {
    match op
    case LockedIssue(g) => (PutGrant(s, g), true)
    case LockedAuthorize(who, ok) =>
      if who < |callers| then
        var (t, answer) := AuthorizeIn(s, callers[who].request, callers[who].now);
        (t, answer == ok)
      else (s, false)
  }

  /** The locked store, run over the same operations, gives the same answers and ends the same. */
  ghost predicate LockedRun(s: Store, callers: seq<Caller>, ops: seq<Locked>, final: Store)
    decreases |ops|
  {
    if ops == [] then s == final
    else LockedNext(s, callers, ops[0]).1 && LockedRun(LockedNext(s, callers, ops[0]).0, callers, ops[1..], final)
  }

  /** The same callers later on, with perhaps more of them. */
  ghost predicate Later(callers: seq<Caller>, after: seq<Caller>) {
    && |callers| <= |after|
    && forall i | 0 <= i < |callers| :: callers[i].request == after[i].request && callers[i].now == after[i].now
  }

  lemma {:induction false} LockedMore(s: Store, callers: seq<Caller>, ops: seq<Locked>, mid: Store, more: seq<Locked>, final: Store, after: seq<Caller>)
    requires LockedRun(s, callers, ops, mid) && LockedRun(mid, after, more, final) && Later(callers, after)
    ensures LockedRun(s, after, ops + more, final)
    decreases |ops|
  {
    if ops == [] {
      assert ops + more == more;
    } else {
      assert (ops + more)[1..] == ops[1..] + more;
      LockedMore(LockedNext(s, callers, ops[0]).0, callers, ops[1..], mid, more, final, after);
    }
  }

  /** Each step of the split form is at most one locked operation with the same answer. */
  lemma StepRefines(d: Db, step: DbStep)
    requires DbInv(d) && DbEnabled(d, step)
    ensures LockedRun(Abstract(d.rows), d.callers, Effect(d, step), Abstract(DbNext(d, step).rows))
  {
    match step {
      case Insert(g) =>
        assert PutGrant(Abstract(d.rows), g) == Abstract(DbNext(d, step).rows);
        Single(Abstract(d.rows), d.callers, LockedIssue(g));
      case Enter(_, _) =>
      case Read(i) => ReadRefines(d, i);
      case Update(i) => UpdateRefines(d, i);
    }
  }

  lemma {:induction false} Single(s: Store, callers: seq<Caller>, op: Locked)
    requires LockedNext(s, callers, op).1
    ensures LockedRun(s, callers, [op], LockedNext(s, callers, op).0)
  {
    assert [op][1..] == [];
  }

  lemma ReadRefines(d: Db, who: nat)
    requires DbInv(d) && DbEnabled(d, Read(who))
    ensures LockedRun(Abstract(d.rows), d.callers, Effect(d, Read(who)), Abstract(d.rows))
  {
    var c := d.callers[who];
    if !Accepts(d.rows, c.request, c.now) {
      assert RowOk(d, c.request.id);
      Single(Abstract(d.rows), d.callers, LockedAuthorize(who, false));
    }
  }

  lemma UpdateRefines(d: Db, who: nat)
    requires DbInv(d) && DbEnabled(d, Update(who))
    ensures LockedRun(Abstract(d.rows), d.callers, Effect(d, Update(who)), Abstract(DbNext(d, Update(who)).rows))
  {
    var c := d.callers[who];
    var (rows, ok) := UpdateRows(d.rows, c.request.id);
    assert CallerOk(d.rows, c) && RowOk(d, c.request.id);
    if ok {
      assert AuthorizeIn(Abstract(d.rows), c.request, c.now).0 == Abstract(rows);
    }
    Single(Abstract(d.rows), d.callers, LockedAuthorize(who, ok));
  }

  lemma {:induction false} LockedSame(s: Store, callers: seq<Caller>, ops: seq<Locked>, final: Store, after: seq<Caller>)
    requires LockedRun(s, callers, ops, final) && Later(callers, after)
    ensures LockedRun(s, after, ops, final)
    decreases |ops|
  {
    if ops != [] {
      LockedSame(LockedNext(s, callers, ops[0]).0, callers, ops[1..], final, after);
    }
  }

  lemma Extend(s: Store, ops: seq<Locked>, d: Db, step: DbStep)
    requires DbInv(d) && DbEnabled(d, step) && LockedRun(s, d.callers, ops, Abstract(d.rows))
    ensures LockedRun(s, DbNext(d, step).callers, ops + Effect(d, step), Abstract(DbNext(d, step).rows))
  {
    var t := DbNext(d, step);
    StepRefines(d, step);
    assert Later(d.callers, t.callers);
    LockedSame(Abstract(d.rows), d.callers, Effect(d, step), Abstract(t.rows), t.callers);
    LockedMore(s, d.callers, ops, Abstract(d.rows), Effect(d, step), Abstract(t.rows), t.callers);
  }

  lemma {:induction false} RunRefines(states: seq<Db>, steps: seq<DbStep>)
    requires DbRun(states, steps) && DbInv(states[0])
    ensures LockedRun(Abstract(states[0].rows), states[|steps|].callers, Effects(states, steps), Abstract(states[|steps|].rows))
    decreases |steps|
  {
    if steps != [] {
      var n := |steps| - 1;
      var before, d := states[..n + 1], states[n];
      assert before[0] == states[0] && before[n] == d && |steps[..n]| == n;
      RunRefines(before, steps[..n]);
      DbRunKeeps(before, steps[..n]);
      Extend(Abstract(states[0].rows), Effects(before, steps[..n]), d, steps[n]);
    }
  }

  /** The answers that one caller gets. */
  function AnswersTo(ops: seq<Locked>, who: nat): seq<bool> {
    if ops == [] then []
    else
      var op := ops[|ops| - 1];
      AnswersTo(ops[..|ops| - 1], who) + if op.LockedAuthorize? && op.who == who then [op.ok] else []
  }

  function AnswerOf(d: Db, who: nat): seq<bool> {
    if who < |d.callers| && d.callers[who].progress.Done? then [d.callers[who].progress.ok] else []
  }

  lemma AnswersMore(ops: seq<Locked>, more: seq<Locked>, who: nat)
    requires |more| <= 1
    ensures AnswersTo(ops + more, who) == AnswersTo(ops, who) + AnswersTo(more, who)
  {
    if more == [] {
      assert ops + more == ops;
    } else {
      assert (ops + more)[..|ops + more| - 1] == ops && more[..0] == [];
    }
  }

  lemma AnswerStep(d: Db, step: DbStep, who: nat)
    requires DbEnabled(d, step)
    ensures |Effect(d, step)| <= 1
    ensures AnswerOf(DbNext(d, step), who) == AnswerOf(d, who) + AnswersTo(Effect(d, step), who)
  {
    if Effect(d, step) != [] {
      assert Effect(d, step)[..0] == [];
    }
  }

  lemma AnswersAfter(ops: seq<Locked>, d: Db, step: DbStep, who: nat)
    requires DbEnabled(d, step) && AnswersTo(ops, who) == AnswerOf(d, who)
    ensures AnswersTo(ops + Effect(d, step), who) == AnswerOf(DbNext(d, step), who)
  {
    AnswerStep(d, step, who);
    AnswersMore(ops, Effect(d, step), who);
  }

  /** Every call that has returned takes effect exactly once, with the answer that it returned. */
  lemma {:induction false} AnswersExact(states: seq<Db>, steps: seq<DbStep>, who: nat)
    requires DbRun(states, steps) && states[0] == Db(map[], [])
    ensures AnswersTo(Effects(states, steps), who) == AnswerOf(states[|steps|], who)
    decreases |steps|
  {
    if steps != [] {
      var n := |steps| - 1;
      AnswersExact(states[..n + 1], steps[..n], who);
      AnswersAfter(Effects(states[..n + 1], steps[..n]), states[n], steps[n], who);
    }
  }

  /** Any number of callers, each reading and later updating, in any interleaving: the uses of
      every grant are exactly the calls that were told True, at most as many as it allows; each of
      those asked for what the grant is for before it expired; and the run is a run of the locked
      store in which every finished call acts once, at its read or its update, with its answer. */
  lemma {:induction false} SplitTheorem(states: seq<Db>, steps: seq<DbStep>)
    requires DbRun(states, steps) && states[0] == Db(map[], [])
    ensures var d := states[|steps|];
            && (forall id | id in d.rows :: Total(d.callers, TrueFor(id)) == d.rows[id].usesCount <= Weight(d.rows[id].grant))
            && (forall i | 0 <= i < |d.callers| :: CallerOk(d.rows, d.callers[i]))
            && LockedRun(Store(map[], map[]), d.callers, Effects(states, steps), Abstract(d.rows))
            && (forall who: nat :: AnswersTo(Effects(states, steps), who) == AnswerOf(d, who))
  {
    DbRunKeeps(states, steps);
    RunRefines(states, steps);
    assert Abstract(map[]) == Store(map[], map[]);
    var d := states[|steps|];
    forall id | id in d.rows
      ensures Total(d.callers, TrueFor(id)) == d.rows[id].usesCount <= Weight(d.rows[id].grant)
    {
      assert RowOk(d, id);
    }
    forall who: nat
      ensures AnswersTo(Effects(states, steps), who) == AnswerOf(d, who)
    {
      AnswersExact(states, steps, who);
    }
  }

  // ------------------------------------------------------------- looking up

  /** The table's rows in the order of some query. */
  ghost predicate Lists(table: seq<Row>, rows: map<string, Row>) {
    && (forall i | 0 <= i < |table| :: table[i].grant.id in rows && rows[table[i].grant.id] == table[i])
    && (forall id | id in rows :: exists i | 0 <= i < |table| :: table[i].grant.id == id)
  }

  /** The WHERE clause of the query. */
  predicate Selected(row: Row, k: Key, now: int) {
    && row.grant.actor == k.actor && row.grant.session == k.session && row.grant.caseId == k.caseId
    && row.grant.tool == k.tool && row.grant.fingerprint == k.fingerprint && Instant(row.grant.expires) > now
  }

  /** A request is found exactly when some row would be accepted now, and the one that is found
      is the first such row: here no grant hides another. */
  method ConfirmationFor(table: seq<Row>, ghost rows: map<string, Row>, k: Key, now: int) returns (r: Option<Request>)
    requires Lists(table, rows)
    ensures r.Some? ==> RequestKey(r.value) == k && Accepts(rows, r.value, now)
    ensures r.Some? ==> exists i | 0 <= i < |table| ::
              table[i].grant.id == r.value.id && forall j | 0 <= j < i :: !Accepts(rows, RequestFor(table[j].grant.id, k), now)
    ensures r.None? ==> forall id :: !Accepts(rows, RequestFor(id, k), now)
  {
    var i := 0;
    while i < |table|
      invariant i <= |table|
      invariant forall j | 0 <= j < i :: !Accepts(rows, RequestFor(table[j].grant.id, k), now)
    {
      var row := table[i];
      if Selected(row, k, now) && row.usesCount < row.grant.maxUses && row.grant.targets == k.targets {
        return Some(RequestFor(row.grant.id, k));
      }
      i := i + 1;
    }
    r := None;
  }

  // ------------------------------------------------------------- the object

  class GrantTable {
    var rows: map<string, Row>

    ghost predicate Valid()
      reads this
    {
      forall id | id in rows :: rows[id].grant.id == id
    }

    constructor ()
      ensures rows == map[] && Valid()
    {
      rows := map[];
    }

    method Read(r: Request, now: int) returns (passed: bool)
      ensures passed == Accepts(rows, r, now)
    {
      if r.id !in rows {
        return false;
      }
      var row := rows[r.id];
      if Instant(row.grant.expires) <= now {
        return false;
      }
      if row.usesCount >= row.grant.maxUses {
        return false;
      }
      return Matches(row.grant, r);
    }

    method Increment(id: string) returns (changed: bool)
      modifies this`rows
      ensures (rows, changed) == UpdateRows(old(rows), id)
    {
      changed := id in rows && rows[id].usesCount < rows[id].grant.maxUses;
      if changed {
        rows := rows[id := rows[id].(usesCount := rows[id].usesCount + 1)];
      }
    }

    /** Undisturbed between its read and its update, a call does what the locked store does. */
    method Authorize(r: Request, now: int) returns (ok: bool)
      requires Valid()
      modifies this`rows
      ensures Valid()
      ensures ok == AuthorizeIn(Abstract(old(rows)), r, now).1
      ensures Abstract(rows) == AuthorizeIn(Abstract(old(rows)), r, now).0
    {
      var passed := Read(r, now);
      if !passed {
        return false;
      }
      ok := Increment(r.id);
    }
  }
}
