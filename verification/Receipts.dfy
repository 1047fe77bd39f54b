/** What the task journal keeps of a record, and what a restart makes of it. */
module Receipts {
  import opened Wrappers
  import opened JsonValues
  import opened Tables

  /** A task record: one optional value for each key the code reads or writes,
      and every other key in `extra`. */
  datatype Record = Record(
    taskId: Option<Json>,
    caseId: Option<Json>,
    kind: Option<Json>,
    status: Option<Json>,
    job: Option<Json>,
    error: Option<Json>,
    actions: Option<Json>,
    result: Option<Json>,
    receiptError: Option<Json>,
    extra: map<Key, Json>)

  /** An element of the list stored in the journal. */
  datatype Element = NotDict | Dict(record: Record)

  /** The journal: no file, a file that does not parse to a list, or a list. */
  datatype File = Missing | Damaged(text: string) | Items(items: seq<Element>)

  const QUEUED := Str(Queued)
  const RUNNING := Str(Running)
  const CANCELLING := Str(Cancelling)
  const CANCELLED := Str(Cancelled)
  const INTERRUPTED := Str(Interrupted)
  const SUCCEEDED := Str(Succeeded)
  const PARTIAL := Str(Partial)
  const FAILED := Str(Failed)
  const CANCEL := Str(Cancel)

  function KindOf(r: Record): Json { r.kind.GetOr(Null) }

  function StatusOf(r: Record): Json { r.status.GetOr(Null) }

  predicate Active(status: Json) {
    status == QUEUED || status == RUNNING || status == CANCELLING
  }

  // ------------------------------------------------------------- projection

  const DERIVED_KINDS: set<Json> := {Str(Recovery), Str(StreamExport), Str(Carving), Str(Ocr), Str(Stt)}

  /** The part of a result dictionary that is written to the journal. */
  function Summary(fields: map<Key, Json>): map<Key, Json> {
    var kept := map k | k in fields && k.Kept? :: fields[k];
    if Candidates in fields && fields[Candidates].List?
    then kept[Kept(CandidateCount) := Num(|fields[Candidates].items| as real)]
    else kept
  }

  function Project(r: Record): Record {
    r.(receiptError := None,
       result := if KindOf(r) in DERIVED_KINDS && r.result.Some? && r.result.value.Obj?
                 then Some(Obj(Summary(r.result.value.fields))) else None)
  }

  predicate PrintableIfAny(v: Option<Json>) {
    v.Some? ==> Printable(v.value)
  }

  /** json.dumps takes a receipt. */
  predicate Dumps(p: Record) {
    && PrintableIfAny(p.taskId) && PrintableIfAny(p.caseId) && PrintableIfAny(p.kind)
    && PrintableIfAny(p.status) && PrintableIfAny(p.job) && PrintableIfAny(p.error)
    && PrintableIfAny(p.actions) && PrintableIfAny(p.result)
    && forall k | k in p.extra :: Printable(p.extra[k])
  }

  /** A value that is no JSON keeps a receipt from being printed, wherever it stands. */
  lemma UnprintableAnywhere(p: Record, v: Json, k: Key)
    requires !Printable(v)
    ensures !Dumps(p.(taskId := Some(v))) && !Dumps(p.(caseId := Some(v))) && !Dumps(p.(kind := Some(v)))
    ensures !Dumps(p.(status := Some(v))) && !Dumps(p.(job := Some(v))) && !Dumps(p.(error := Some(v)))
    ensures !Dumps(p.(actions := Some(v))) && !Dumps(p.(result := Some(v))) && !Dumps(p.(extra := p.extra[k := v]))
  {
    assert k in p.extra[k := v];
  }

  /** The receipt of a record can be written. */
  predicate Writable(r: Record) {
    Dumps(Project(r))
  }

  /** What is kept of the result of a derived output: the keys that are kept, with their values, and
      the number of candidates in place of the list. */
  ghost predicate Summarises(fields: map<Key, Json>, kept: map<Key, Json>) {
    && (forall k | k in kept :: k.Kept?)
    && (forall key | Kept(key) != Kept(CandidateCount) ::
          Kept(key) in kept <==> Kept(key) in fields)
    && (forall key | Kept(key) != Kept(CandidateCount) && Kept(key) in fields :: kept[Kept(key)] == fields[Kept(key)])
    && (if Candidates in fields && fields[Candidates].List? then
          Kept(CandidateCount) in kept && kept[Kept(CandidateCount)] == Num(|fields[Candidates].items| as real)
        else Get(kept, Kept(CandidateCount)) == Get(fields, Kept(CandidateCount)))
  }

  /** The receipt of a record, key by key. */
  ghost predicate IsReceiptOf(r: Record, p: Record) {
    && p == r.(result := p.result, receiptError := None)
    && (if r.kind in {Some(Str(Recovery)), Some(Str(StreamExport)), Some(Str(Carving)), Some(Str(Ocr)), Some(Str(Stt))}
           && r.result.Some? && r.result.value.Obj?
        then p.result.Some? && p.result.value.Obj? && Summarises(r.result.value.fields, p.result.value.fields)
        else p.result.None?)
  }

  lemma ProjectTells(r: Record)
    ensures IsReceiptOf(r, Project(r))
  {
    if r.result.Some? && r.result.value.Obj? {
      SummaryTells(r.result.value.fields);
    }
  }

  lemma SummaryTells(fields: map<Key, Json>)
    ensures Summarises(fields, Summary(fields))
  {
    var kept := map k | k in fields && k.Kept? :: fields[k];
    assert forall key :: Kept(key) in kept <==> Kept(key) in fields;
  }

  /** Projecting a receipt again changes nothing, `candidate_count` included. */
  lemma ProjectIdempotent(r: Record)
    ensures Project(Project(r)) == Project(r)
  {
    var p := Project(r);
    if p.result.Some? {
      var s := p.result.value.fields;
      assert Summary(s) == s;
    }
  }

  /** A record that the projection leaves alone, tested on its keys. */
  predicate IsReceipt(r: Record) {
    && r.receiptError.None?
    && (r.result.Some? ==>
          && KindOf(r) in DERIVED_KINDS
          && r.result.value.Obj?
          && forall k | k in r.result.value.fields :: k.Kept?)
  }

  lemma ProjectFixesReceipts(r: Record)
    ensures Project(r) == r <==> IsReceipt(r)
  {
    if r.result.Some? && r.result.value.Obj? {
      var fields := r.result.value.fields;
      assert forall k | k in Summary(fields) :: k.Kept?;
      if forall k | k in fields :: k.Kept? {
        assert Summary(fields) == fields;
      }
    }
  }

  // --------------------------------------------------------------- recovery

  predicate NonBlankText(v: Option<Json>) {
    v.Some? && v.value.Str? && !Blank(v.value.t)
  }

  predicate ValidElement(e: Element) {
    e.Dict? && NonBlankText(e.record.taskId) && NonBlankText(e.record.caseId) && NonBlankText(e.record.status)
  }

  /** What a restart does to one stored record. */
  function Recover(r: Record): Record {
    r.(status := if Active(StatusOf(r)) then Some(INTERRUPTED) else r.status,
       actions := Some(List([])),
       kind := Some(r.kind.GetOr(Str(Unknown))),
       job := Some(r.job.GetOr(Null)),
       error := Some(r.error.GetOr(Null)))
  }

  /** What a restart makes of a stored record, key by key. */
  ghost predicate GivesBack(stored: Record, r: Record) {
    && (stored.status in {Some(Str(Queued)), Some(Str(Running)), Some(Str(Cancelling))} ==> r.status == Some(Str(Interrupted)))
    && (stored.status !in {Some(Str(Queued)), Some(Str(Running)), Some(Str(Cancelling))} ==> r.status == stored.status)
    && r.taskId == stored.taskId && r.caseId == stored.caseId && r.result == stored.result
    && r.receiptError == stored.receiptError && r.extra == stored.extra
    && (if stored.kind.Some? then r.kind == stored.kind else r.kind == Some(Str(Unknown)))
    && (if stored.job.Some? then r.job == stored.job else r.job == Some(Null))
    && (if stored.error.Some? then r.error == stored.error else r.error == Some(Null))
    && r.actions == Some(List([]))
  }

  /** Only a task that was waiting, running or being cancelled changes its status. */
  lemma RecoverTells(r: Record)
    ensures GivesBack(r, Recover(r))
  {
  }

  lemma RecoverStable(r: Record)
    ensures Recover(Recover(r)) == Recover(r)
    ensures !Active(StatusOf(Recover(r)))
  {
  }

  /** On a record that has its kind, projecting and recovering commute. */
  lemma ProjectRecoverCommute(r: Record)
    requires r.kind.Some?
    ensures Project(Recover(r)) == Recover(Project(r))
  {
  }

  // ------------------------------------------------------ loading and saving

  function Id(r: Record): Text {
    if r.taskId.Some? && r.taskId.value.Str? then r.taskId.value.t else Other("")
  }

  predicate Loadable(items: seq<Element>) {
    forall e | e in items :: e.Dict?
  }

  /** The stored elements, recovered, with the ids they are filed under. */
  function Recovered(items: seq<Element>): (pairs: seq<(Text, Record)>)
    requires Loadable(items)
    ensures |pairs| == |items|
  {
    seq(|items|, i requires 0 <= i < |items| => (Id(items[i].record), Recover(items[i].record)))
  }

  function Load(items: seq<Element>): Table<Text, Record>
    requires Loadable(items)
  {
    Fill(Recovered(items), |items|)
  }

  /** A dictionary of records that the code can save: filed under their own ids, with a kind. */
  ghost predicate Storable(t: Table<Text, Record>) {
    && t.Valid()
    && forall id | id in t.rows :: Id(t.rows[id]) == id && t.rows[id].kind.Some?
  }

  const BLANK := Record(None, None, None, None, None, None, None, None, None, map[])

  function RowOf(rows: map<Text, Record>, id: Text): Record {
    if id in rows then rows[id] else BLANK
  }

  /** What is written for these records, in dictionary order. */
  function ReceiptList(rows: map<Text, Record>, ids: seq<Text>): (items: seq<Element>)
    ensures |items| == |ids| && Loadable(items)
  {
    seq(|ids|, i requires 0 <= i < |ids| => Dict(Project(RowOf(rows, ids[i]))))
  }

  /** A loaded dictionary can be saved, and every row of it is already recovered. */
  lemma {:induction false} FilledRecovered(items: seq<Element>, n: nat)
    requires Loadable(items) && n <= |items|
    ensures Storable(Fill(Recovered(items), n))
    ensures forall id | id in Fill(Recovered(items), n).rows ::
              Recover(Fill(Recovered(items), n).rows[id]) == Fill(Recovered(items), n).rows[id]
  {
    FillLookup(Recovered(items), n, Unknown);
    if n > 0 {
      FilledRecovered(items, n - 1);
      RecoverStable(items[n - 1].record);
    }
  }

  /** The last of the elements with an id is the one that is loaded for it. */
  lemma {:induction false} LoadTells(items: seq<Element>, i: nat)
    requires Loadable(items) && i < |items|
    requires forall j | i < j < |items| :: Id(items[j].record) != Id(items[i].record)
    ensures var rows := Load(items).rows;
            Id(items[i].record) in rows && GivesBack(items[i].record, rows[Id(items[i].record)])
  {
    LastIs(items, i, |items|);
    FillLookup(Recovered(items), |items|, Id(items[i].record));
    RecoverTells(items[i].record);
  }

  lemma {:induction false} LastIs(items: seq<Element>, i: nat, n: nat)
    requires Loadable(items) && i < n <= |items|
    requires forall j | i < j < |items| :: Id(items[j].record) != Id(items[i].record)
    ensures LastFor(Recovered(items), n, Id(items[i].record)) == Some(Recover(items[i].record))
  {
    if i < n - 1 {
      LastIs(items, i, n - 1);
    }
  }

  /** And nothing else is loaded. */
  lemma {:induction false} LoadOnly(items: seq<Element>, id: Text)
    requires Loadable(items)
    ensures id in Load(items).rows <==> exists i | 0 <= i < |items| :: Id(items[i].record) == id
  {
    FilledIds(items, |items|, id);
  }

  lemma {:induction false} FilledIds(items: seq<Element>, n: nat, id: Text)
    requires Loadable(items) && n <= |items|
    ensures id in Fill(Recovered(items), n).rows <==> exists i | 0 <= i < n :: Id(items[i].record) == id
  {
    if n > 0 {
      FilledIds(items, n - 1, id);
    }
  }

  /** A save followed by a load. */
  function Reloaded(t: Table<Text, Record>): Table<Text, Record>
  {
    Load(ReceiptList(t.rows, t.order))
  }

  /** Reloading what was saved gives every record, projected and recovered, in the same order. */
  lemma LoadSaved(t: Table<Text, Record>)
    requires Storable(t)
    ensures Storable(Reloaded(t))
    ensures Reloaded(t).order == t.order && Reloaded(t).rows.Keys == t.rows.Keys
    ensures forall id | id in t.rows :: Reloaded(t).rows[id] == Recover(Project(t.rows[id]))
  {
    var items := ReceiptList(t.rows, t.order);
    var pairs := Recovered(items);
    forall i | 0 <= i < |items|
      ensures pairs[i] == (t.order[i], Recover(Project(t.rows[t.order[i]])))
    {
      assert t.order[i] in t.order;
    }
    FillDistinct(pairs, |items|);
    FilledRecovered(items, |items|);
    var again := Reloaded(t);
    assert again.order == t.order;
    forall id | id in t.rows
      ensures id in again.rows && again.rows[id] == Recover(Project(t.rows[id]))
    {
      var i :| 0 <= i < |t.order| && t.order[i] == id;
      LastForDistinct(pairs, |items|, i);
      FillLookup(pairs, |items|, id);
    }
  }

  /** One record through a save and a load. */
  lemma RoundTrip(r: Record)
    requires Recover(r) == r
    ensures var t := Recover(Project(r));
            && Recover(Project(t)) == t
            && (t == r <==> IsReceipt(r))
  {
    ProjectRecoverCommute(r);
    ProjectIdempotent(r);
    ProjectFixesReceipts(r);
  }

  lemma ReceiptRoundTrip(r: Record)
    requires r.kind.Some?
    ensures Recover(Project(Recover(Project(r)))) == Recover(Project(r))
  {
    RecoverStable(Project(r));
    ProjectRecoverCommute(Project(r));
    ProjectIdempotent(r);
  }

  /** A load, a save and a load give what the load alone gave exactly when every
      loaded record holds no more than a receipt does. */
  lemma {:induction false} LoadSaveLoad(items: seq<Element>)
    requires Loadable(items)
    ensures Storable(Load(items))
    ensures Reloaded(Load(items)) == Load(items)
            <==> forall id | id in Load(items).rows :: IsReceipt(Load(items).rows[id])
  {
    var once := Load(items);
    FilledRecovered(items, |items|);
    LoadSaved(once);
    forall id | id in once.rows
      ensures Reloaded(once).rows[id] == once.rows[id] <==> IsReceipt(once.rows[id])
    {
      RoundTrip(once.rows[id]);
    }
    if forall id | id in once.rows :: IsReceipt(once.rows[id]) {
      assert Reloaded(once).rows == once.rows;
    }
  }

  /** After one save, further saves and loads change nothing. */
  lemma SaveLoadStable(t: Table<Text, Record>)
    requires Storable(t)
    ensures Storable(Reloaded(t)) && Reloaded(Reloaded(t)) == Reloaded(t)
  {
    LoadSaved(t);
    LoadSaved(Reloaded(t));
    forall id | id in t.rows
      ensures Reloaded(Reloaded(t)).rows[id] == Reloaded(t).rows[id]
    {
      ReceiptRoundTrip(t.rows[id]);
    }
    assert Reloaded(Reloaded(t)).rows == Reloaded(t).rows;
  }
}
