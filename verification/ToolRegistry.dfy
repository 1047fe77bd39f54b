/** The registry of tools: what may be registered, and the one path by which a call reaches the
    engine, with the confirmation providers that it consults on the way. */
module ToolCalls {
  import opened Wrappers
  import opened Confirmations

  // ------------------------------------------------------------ the providers

  class InMemoryConfirmationProvider {
    var grants: map<string, Grant>
    var uses: map<string, int>

    ghost predicate Valid()
      reads this
    {
      forall id | id in grants :: grants[id].id == id
    }

    ghost function Contents(): Store
      reads this
    {
      Store(grants, uses)
    }

    constructor (initial: seq<Grant>)
      ensures Valid() && Contents() == StoreOf(initial)
    {
      grants := map[];
      uses := map[];
      new;
      for i := 0 to |initial|
        invariant Contents() == StoreOf(initial[..i]) && Valid()
      {
        grants := grants[initial[i].id := initial[i]];
        assert initial[..i + 1][..i] == initial[..i];
      }
      assert initial[..|initial|] == initial;
    }

    method Issue(g: Grant) returns (ok: bool)
      requires Valid()
      modifies this
      ensures Valid() && (Contents(), ok) == IssueTo(old(Contents()), g)
    {
      if g.maxUses < 1 {
        return false;
      }
      grants := grants[g.id := g];
      uses := uses - {g.id};
      ok := true;
    }

    method Authorize(r: Request, now: int) returns (ok: bool)
      requires Valid()
      modifies this`uses
      ensures Valid() && (Contents(), ok) == AuthorizeIn(old(Contents()), r, now)
    {
      if r.id !in grants || !Matches(grants[r.id], r) {
        return false;
      }
      var grant := grants[r.id];
      if Instant(grant.expires) <= now {
        return false;
      }
      var used := if grant.id in uses then uses[grant.id] else 0;
      if used >= grant.maxUses {
        return false;
      }
      uses := uses[grant.id := used + 1];
      ok := true;
    }
  }

  class FrontendProvider {
    const confirmations: InMemoryConfirmationProvider
    var confirmationIds: map<Key, string>

    ghost predicate Valid()
      reads this, confirmations
    {
      confirmations.Valid()
    }

    constructor ()
      ensures Valid() && fresh(confirmations)
      ensures confirmations.Contents() == StoreOf([]) && confirmationIds == map[]
    {
      confirmations := new InMemoryConfirmationProvider([]);
      confirmationIds := map[];
    }

    /** A refused grant raises before its identifier is published. */
    method Issue(g: Grant) returns (ok: bool)
      requires Valid()
      modifies this, confirmations
      ensures Valid() && (confirmations.Contents(), ok) == IssueTo(old(confirmations.Contents()), g)
      ensures confirmationIds == if ok then old(confirmationIds)[GrantKey(g) := g.id] else old(confirmationIds)
    {
      ok := confirmations.Issue(g);
      if ok {
        confirmationIds := confirmationIds[GrantKey(g) := g.id];
      }
    }

    method ConfirmationFor(k: Key) returns (r: Option<Request>)
      ensures r == Found(confirmationIds, k)
    {
      if k in confirmationIds {
        r := Some(RequestFor(confirmationIds[k], k));
      } else {
        r := None;
      }
    }
  }

  // ------------------------------------------------------------- target ids

  /** The arguments that the registry itself reads, in the order in which it reads the targets. */
  datatype Field =
    | ResourceId | ContextSnapshotId | ReportId | ReportVersionId | LeftReportVersionId
    | RightReportVersionId | SectionId | CustodySnapshotId | ExpectedCustodySnapshotId
    | ExpectedApprovalId | PackageId | ExportManifestId | RecommendationId | ScopeSummaryId
    | KeywordSetId | TargetId
    | CaseId

  /** An argument is a text, or some other value with its str(). */
  datatype Argument = Text(s: string) | NotText(str: string)

  const TARGET_FIELDS: seq<Field> := [
    ResourceId, ContextSnapshotId, ReportId, ReportVersionId, LeftReportVersionId,
    RightReportVersionId, SectionId, CustodySnapshotId, ExpectedCustodySnapshotId,
    ExpectedApprovalId, PackageId, ExportManifestId, RecommendationId, ScopeSummaryId,
    KeywordSetId, TargetId]

  /** A field names a target when it holds a text other than the empty one. */
  predicate Names(args: map<Field, Argument>, f: Field, v: string) {
    f in args && args[f] == Text(v) && v != ""
  }

  function Targets(args: map<Field, Argument>, fields: seq<Field>): seq<string> {
    if fields == [] then []
    else
      var before := Targets(args, fields[..|fields| - 1]);
      var f := fields[|fields| - 1];
      if f in args && args[f].Text? && args[f].s != "" && args[f].s !in before then before + [args[f].s] else before
  }

  method TargetIds(args: map<Field, Argument>) returns (values: seq<string>)
    ensures values == Targets(args, TARGET_FIELDS)
  {
    values := [];
    for i := 0 to |TARGET_FIELDS|
      invariant values == Targets(args, TARGET_FIELDS[..i])
    {
      assert TARGET_FIELDS[..i + 1][..i] == TARGET_FIELDS[..i];
      var f := TARGET_FIELDS[i];
      if f in args {
        var value := args[f];
        if value.Text? && value.s != "" && value.s !in values {
          values := values + [value.s];
        }
      }
    }
    assert TARGET_FIELDS[..|TARGET_FIELDS|] == TARGET_FIELDS;
  }

  /** The first field that names a target. */
  ghost predicate FirstNames(args: map<Field, Argument>, fields: seq<Field>, i: nat, v: string) {
    i < |fields| && Names(args, fields[i], v) && forall j | 0 <= j < i :: !Names(args, fields[j], v)
  }

  /** The targets are the named texts, each once, in the order in which fields first name them. */
  lemma {:induction false} TargetsExact(args: map<Field, Argument>, fields: seq<Field>)
    ensures forall v :: v in Targets(args, fields) <==> exists i | 0 <= i < |fields| :: Names(args, fields[i], v)
    ensures forall i, j | 0 <= i < j < |Targets(args, fields)| :: Targets(args, fields)[i] != Targets(args, fields)[j]
    ensures forall a: nat, b: nat, i, j | 0 <= i < j < |Targets(args, fields)| ::
              FirstNames(args, fields, a, Targets(args, fields)[i]) && FirstNames(args, fields, b, Targets(args, fields)[j]) ==> a < b
  {
    if fields != [] {
      var n := |fields| - 1;
      TargetsExact(args, fields[..n]);
      var before, all := Targets(args, fields[..n]), Targets(args, fields);
      forall v
        ensures v in all <==> exists i | 0 <= i < |fields| :: Names(args, fields[i], v)
      {
        if v in before {
          var i :| 0 <= i < n && Names(args, fields[..n][i], v);
          assert Names(args, fields[i], v);
        }
        if exists i | 0 <= i < |fields| :: Names(args, fields[i], v) {
          var i :| 0 <= i < |fields| && Names(args, fields[i], v);
          if i < n {
            assert Names(args, fields[..n][i], v);
          }
        }
      }
      forall a: nat, b: nat, i, j | 0 <= i < j < |all| && FirstNames(args, fields, a, all[i]) && FirstNames(args, fields, b, all[j])
        ensures a < b
      {
        FirstBefore(args, fields, fields[..n], a, before[i]);
        if j < |before| {
          FirstBefore(args, fields, fields[..n], b, before[j]);
        }
      }
    }
  }

  lemma FirstBefore(args: map<Field, Argument>, fields: seq<Field>, front: seq<Field>, a: nat, v: string)
    requires fields != [] && front == fields[..|fields| - 1] && FirstNames(args, fields, a, v)
    requires exists i | 0 <= i < |front| :: Names(args, front[i], v)
    ensures FirstNames(args, front, a, v)
  {
    var i :| 0 <= i < |front| && Names(args, front[i], v);
    assert Names(args, fields[i], v);
  }

  // ---------------------------------------------------------------- one call

  datatype Descriptor = Descriptor(toolName: string, requiresConfirmation: bool)

  /** What the caller of call_tool passes; `token` says that an access token came with it. */
  datatype Query = Query(
    tool: string, fingerprint: string, args: map<Field, Argument>, given: Option<Request>,
    actor: Option<string>, session: Option<string>, token: bool)

  datatype Identity = Identity(actor: string, session: string)

  /** The answers of the parts that are not modelled: schema, capability, session, role gate,
      frontend context, budget, the clock, the context bridge, and everything after the engine. */
  datatype World = World(
    inputOk: bool, capable: bool, identity: Option<Identity>, rolesOk: bool, contextOk: bool,
    budgetOk: bool, now: int, person: string -> bool, prepareOk: bool, resultOk: bool)

  datatype Decision = Approved | Denied

  datatype Invocation = Invocation(key: Key, confirmed: bool)

  datatype Event = Event(tool: string, fingerprint: string, failed: bool, actor: Option<string>, session: Option<string>, decision: Option<Decision>)

  /** Everything that must hold before the confirmation is looked at. */
  predicate Admitted(known: map<string, Descriptor>, q: Query, w: World) {
    && q.tool in known && w.inputOk && w.capable
    && (q.token ==> w.identity.Some? && w.rolesOk && w.contextOk)
    && w.budgetOk
  }

  function TrustedActor(q: Query, w: World): Option<string> {
    if q.token && w.identity.Some? then Some(w.identity.value.actor) else q.actor
  }

  function TrustedSession(q: Query, w: World): Option<string> {
    if q.token && w.identity.Some? then Some(w.identity.value.session) else q.session
  }

  /** str(arguments.get("case_id", "")) */
  function CaseOf(args: map<Field, Argument>): string {
    if CaseId !in args then ""
    else match args[CaseId] case Text(t) => t case NotText(t) => t
  }

  function KeyOf(q: Query, w: World): Key {
    Key(TrustedActor(q, w).GetOr(""), TrustedSession(q, w).GetOr(""), CaseOf(q.args), q.tool, q.fingerprint, Targets(q.args, TARGET_FIELDS))
  }

  predicate IsMachine(q: Query, w: World) {
    TrustedActor(q, w).Some? && !w.person(TrustedActor(q, w).value)
  }

  /** The request that is put to the gate. */
  function Presented(ids: map<Key, string>, needs: bool, q: Query, w: World): Option<Request> {
    if q.token && needs then Found(ids, KeyOf(q, w)) else q.given
  }

  /** A trusted actor that is not a person is refused before the gate. */
  function Put(s: Store, needs: bool, r: Option<Request>, machine: bool, expected: Key, now: int): (Store, Verdict) {
    if needs && r.Some? && machine then (s, Refused) else Require(s, needs, r, expected, now)
  }

  function Reported(v: Verdict): Option<Decision> {
    match v
    case NotNeeded => None
    case Granted => Some(Approved)
    case Refused => Some(Denied)
  }

  /** The verdict on an admitted call and the store after it. */
  function Judged(s: Store, ids: map<Key, string>, needs: bool, q: Query, w: World): (Store, Verdict) {
    Put(s, needs, Presented(ids, needs, q, w), IsMachine(q, w), KeyOf(q, w), w.now)
  }

  // -------------------------------------------------------------- the object

  datatype Binding = Binding(
    toolName: string, operation: string, objectRoot: bool, inputChecks: bool,
    hasOutputRef: bool, refKnown: bool, hasOutputSchema: bool, outputChecks: bool)

  datatype Refusal =
    | OutsideAllowlist | NoDescriptor | Duplicate | NotCanonical | RootNotObject | InputRefused
    | TwoOutputs | UnknownOutput | OutputRefused | NotCapable

  class ToolRegistry {
    const allowed: set<string>
    const descriptors: map<string, Descriptor>
    const frontend: FrontendProvider
    var registered: map<string, Descriptor>
    /** What the engine has been asked to do, and what telemetry has been told. */
    var invoked: seq<Invocation>
    var events: seq<Event>

    /** Only allowlisted tools, each under its own name with the engine's descriptor of it. */
    ghost predicate Valid()
      reads this, frontend, frontend.confirmations
    {
      && frontend.Valid()
      && (forall t | t in descriptors :: descriptors[t].toolName == t)
      && (forall t | t in registered :: t in allowed && t in descriptors && registered[t] == descriptors[t])
    }

    constructor (allowed: set<string>, descriptors: map<string, Descriptor>, frontend: FrontendProvider)
      requires frontend.Valid() && forall t | t in descriptors :: descriptors[t].toolName == t
      ensures Valid() && registered == map[] && invoked == [] && events == []
      ensures this.allowed == allowed && this.descriptors == descriptors && this.frontend == frontend
    {
      this.allowed := allowed;
      this.descriptors := descriptors;
      this.frontend := frontend;
      registered := map[];
      invoked := [];
      events := [];
    }

    /** A binding is taken only when it passes every test, and then adds exactly its own tool;
        nothing ever replaces a tool. */
    method Register(b: Binding, capable: bool) returns (refused: Option<Refusal>)
      requires Valid()
      modifies this`registered
      ensures Valid()
      ensures refused.None? <==>
              && b.toolName in allowed && b.toolName in descriptors && b.toolName !in old(registered)
              && b.operation == b.toolName && b.objectRoot && b.inputChecks
              && !(b.hasOutputRef && b.hasOutputSchema)
              && (b.hasOutputRef ==> b.refKnown) && (b.hasOutputSchema ==> b.outputChecks) && capable
      ensures registered == if refused.None? && b.toolName in descriptors
                            then old(registered)[b.toolName := descriptors[b.toolName]] else old(registered)
    {
      if b.toolName !in allowed { return Some(OutsideAllowlist); }
      if b.toolName !in descriptors { return Some(NoDescriptor); }
      if b.toolName in registered { return Some(Duplicate); }
      if b.operation != b.toolName { return Some(NotCanonical); }
      if !b.objectRoot { return Some(RootNotObject); }
      if !b.inputChecks { return Some(InputRefused); }
      if b.hasOutputRef && b.hasOutputSchema { return Some(TwoOutputs); }
      if b.hasOutputRef && !b.refKnown { return Some(UnknownOutput); }
      if b.hasOutputSchema && !b.outputChecks { return Some(OutputRefused); }
      if !capable { return Some(NotCapable); }
      registered := registered[b.toolName := descriptors[b.toolName]];
      return None;
    }

    /** ConfirmationGate.require with this provider; None is ConfirmationRequiredError. */
    method RequireConfirmation(d: Descriptor, r: Option<Request>, expected: Key, now: int) returns (granted: Option<bool>)
      requires frontend.Valid() && d.toolName == expected.tool
      modifies frontend.confirmations`uses
      ensures frontend.Valid()
      ensures var (store, verdict) := Require(old(frontend.confirmations.Contents()), d.requiresConfirmation, r, expected, now);
              && frontend.confirmations.Contents() == store
              && granted == match verdict case NotNeeded => Some(false) case Granted => Some(true) case Refused => None
    {
      if !d.requiresConfirmation {
        return Some(false);
      }
      if || r.None?
         || r.value.tool != d.toolName
         || r.value.actor != expected.actor
         || r.value.session != expected.session
         || r.value.caseId != expected.caseId
         || r.value.fingerprint != expected.fingerprint
         || r.value.targets != expected.targets
      {
        return None;
      }
      var ok := frontend.confirmations.Authorize(r.value, now);
      return if ok then Some(true) else None;
    }

    /** The step of an admitted call that puts its confirmation to the gate; None is an exception. */
    method Confirm(d: Descriptor, r: Option<Request>, machine: bool, expected: Key, now: int) returns (granted: Option<bool>, decision: Option<Decision>)
      requires frontend.Valid() && d.toolName == expected.tool
      modifies frontend.confirmations`uses
      ensures frontend.Valid()
      ensures var (store, verdict) := Put(old(frontend.confirmations.Contents()), d.requiresConfirmation, r, machine, expected, now);
              && frontend.confirmations.Contents() == store
              && granted == (match verdict case NotNeeded => Some(false) case Granted => Some(true) case Refused => None)
              && decision == Reported(verdict)
    {
      if !d.requiresConfirmation {
        return Some(false), None;
      }
      if r.Some? && machine {
        return None, Some(Denied);
      }
      granted := RequireConfirmation(d, r, expected, now);
      decision := Some(if granted.None? then Denied else Approved);
    }

    /** Everything up to the budget, in order; the look-up of the confirmation is part of it. */
    method Admit(q: Query, w: World) returns (ok: bool, actor: Option<string>, session: Option<string>, confirmation: Option<Request>, key: Key)
      requires Valid()
      ensures ok == Admitted(registered, q, w)
      ensures ok ==> actor == TrustedActor(q, w) && session == TrustedSession(q, w) && key == KeyOf(q, w)
      ensures ok ==> confirmation == Presented(frontend.confirmationIds, registered[q.tool].requiresConfirmation, q, w)
    {
      ok, actor, session, confirmation := false, q.actor, q.session, q.given;
      var caseId := CaseOf(q.args);
      key := Key(actor.GetOr(""), session.GetOr(""), caseId, q.tool, q.fingerprint, []);
      if q.tool !in registered { return; }
      if !w.inputOk { return; }
      if !w.capable { return; }
      var targetIds := TargetIds(q.args);
      if q.token {
        if w.identity.None? { return; }
        if !w.rolesOk { return; }
        if !w.contextOk { return; }
        actor, session := Some(w.identity.value.actor), Some(w.identity.value.session);
        if registered[q.tool].requiresConfirmation {
          confirmation := frontend.ConfirmationFor(
            Key(w.identity.value.actor, w.identity.value.session, caseId, q.tool, q.fingerprint, targetIds));
        }
      }
      key := Key(actor.GetOr(""), session.GetOr(""), caseId, q.tool, q.fingerprint, targetIds);
      ok := w.budgetOk;
    }

    /** The try block: each early return is an exception. */
    method TryCall(q: Query, w: World) returns (failed: bool, actor: Option<string>, session: Option<string>, decision: Option<Decision>)
      requires Valid()
      modifies this`invoked, frontend.confirmations`uses
      ensures Valid()
      ensures Effect(old(frontend.confirmations.Contents()), frontend.confirmations.Contents(), frontend.confirmationIds, registered, q, w,
                     old(invoked), invoked, decision)
      ensures failed == !(w.resultOk && |invoked| == |old(invoked)| + 1)
      ensures var named := Admitted(registered, q, w) && registered[q.tool].requiresConfirmation;
              actor == (if named then TrustedActor(q, w) else None) && session == (if named then TrustedSession(q, w) else None)
    {
      failed, actor, session, decision := true, None, None, None;
      var admitted, trustedActor, trustedSession, confirmation, key := Admit(q, w);
      if !admitted { return; }
      var d := registered[q.tool];
      if d.requiresConfirmation {
        actor, session := trustedActor, trustedSession;
      }
      var granted;
      granted, decision := Confirm(d, confirmation, trustedActor.Some? && !w.person(trustedActor.value), key, w.now);
      if granted.None? { return; }
      if !w.prepareOk { return; }
      invoked := invoked + [Invocation(key, granted.value)];
      failed := !w.resultOk;
    }

    /** One event for every call, however it ends, and no invocation of a tool that needs
        confirmation except after an approval that its event reports. */
    method CallTool(q: Query, w: World) returns (failed: bool)
      requires Valid()
      modifies this`invoked, this`events, frontend.confirmations`uses
      ensures Valid()
      ensures |events| == |old(events)| + 1 && events[..|old(events)|] == old(events)
      ensures events[|old(events)|].tool == q.tool && events[|old(events)|].fingerprint == q.fingerprint
      ensures events[|old(events)|].failed == failed == !(w.resultOk && |invoked| == |old(invoked)| + 1)
      ensures Effect(old(frontend.confirmations.Contents()), frontend.confirmations.Contents(), frontend.confirmationIds, registered, q, w,
                     old(invoked), invoked, events[|old(events)|].decision)
      ensures var e := events[|old(events)|];
              if Admitted(registered, q, w) && registered[q.tool].requiresConfirmation
              then e.actor == (if q.token then Some(w.identity.value.actor) else q.actor)
                   && e.session == (if q.token then Some(w.identity.value.session) else q.session)
              else e.actor == None && e.session == None
    {
      var actor, session, decision;
      failed, actor, session, decision := TryCall(q, w);
      events := events + [Event(q.tool, q.fingerprint, failed, actor, session, decision)];
    }
  }

  /** What a call does to the store and the engine, and the decision that it reports. */
  ghost predicate Effect(
    s: Store, t: Store, ids: map<Key, string>, known: map<string, Descriptor>, q: Query, w: World,
    before: seq<Invocation>, after: seq<Invocation>, decision: Option<Decision>)
  {
    if !Admitted(known, q, w) then t == s && after == before && decision == None
    else
      var needs := known[q.tool].requiresConfirmation;
      var (store, verdict) := Judged(s, ids, needs, q, w);
      && t == store
      && decision == Reported(verdict)
      && after == before + if !verdict.Refused? && w.prepareOk then [Invocation(KeyOf(q, w), needs)] else []
  }

  // -------------------------------------------------------- what a call means

  /** What a call is confirmed under: the identity of the token, or without one what the caller says;
      the text of its case argument; and every text that one of its target fields names. */
  lemma KeyTells(q: Query, w: World)
    requires q.token ==> w.identity.Some?
    ensures var k := KeyOf(q, w);
            && (q.token ==> k.actor == w.identity.value.actor && k.session == w.identity.value.session)
            && (!q.token ==> k.actor == (if q.actor.Some? then q.actor.value else "")
                             && k.session == (if q.session.Some? then q.session.value else ""))
            && k.tool == q.tool && k.fingerprint == q.fingerprint
            && (CaseId !in q.args ==> k.caseId == "")
            && (forall t | CaseId in q.args && q.args[CaseId] in {Text(t), NotText(t)} :: k.caseId == t)
            && (forall v :: v in k.targets <==> exists f :: f != CaseId && Names(q.args, f, v))
  {
    TargetsExact(q.args, TARGET_FIELDS);
    forall v
      ensures v in KeyOf(q, w).targets <==> exists f :: f != CaseId && Names(q.args, f, v)
    {
      if f :| f != CaseId && Names(q.args, f, v) {
        var i := Place(f);
        assert Names(q.args, TARGET_FIELDS[i], v);
      }
    }
  }

  /** Where a field stands among those that name targets. */
  function Place(f: Field): (i: nat)
    requires f != CaseId
    ensures i < |TARGET_FIELDS| && TARGET_FIELDS[i] == f
  {
    match f
    case ResourceId => 0 case ContextSnapshotId => 1 case ReportId => 2 case ReportVersionId => 3
    case LeftReportVersionId => 4 case RightReportVersionId => 5 case SectionId => 6 case CustodySnapshotId => 7
    case ExpectedCustodySnapshotId => 8 case ExpectedApprovalId => 9 case PackageId => 10 case ExportManifestId => 11
    case RecommendationId => 12 case ScopeSummaryId => 13 case KeywordSetId => 14 case TargetId => 15
  }

  /** A grant of the store that pays for a call under this key. */
  predicate InForce(s: Store, id: string, k: Key, now: int) {
    && id in s.grants
    && var g := s.grants[id];
       && g.actor == k.actor && g.session == k.session && g.caseId == k.caseId && g.tool == k.tool
       && g.fingerprint == k.fingerprint && g.targets == k.targets
       && now < Instant(g.expires) && (if g.id in s.uses then s.uses[g.id] else 0) < g.maxUses
  }

  /** The call comes with this identifier: with a token it is the one published for its key, and
      otherwise the caller has to present a request that is equal to the key. */
  predicate Brings(ids: map<Key, string>, q: Query, k: Key, id: string) {
    if q.token then k in ids && ids[k] == id
    else q.given == Some(Request(id, k.actor, k.session, k.caseId, k.tool, k.fingerprint, k.targets))
  }

  /** The actor that is known, if any, is a person. */
  predicate PersonAsks(q: Query, w: World)
    requires q.token ==> w.identity.Some?
  {
    if q.token then w.person(w.identity.value.actor) else q.actor.Some? ==> w.person(q.actor.value)
  }

  ghost predicate Approvable(s: Store, ids: map<Key, string>, q: Query, w: World)
    requires q.token ==> w.identity.Some?
  {
    PersonAsks(q, w) && exists id :: Brings(ids, q, KeyOf(q, w), id) && InForce(s, id, KeyOf(q, w), w.now)
  }

  /** The grant that the call brings is used once more, and nothing else changes in the store. */
  ghost predicate TakesOneUse(s: Store, t: Store, ids: map<Key, string>, q: Query, w: World)
    requires q.token ==> w.identity.Some?
  {
    exists id :: Brings(ids, q, KeyOf(q, w), id) && InForce(s, id, KeyOf(q, w), w.now) && Used(s, t, s.grants[id].id)
  }

  predicate Used(s: Store, t: Store, id: string) {
    t.grants == s.grants && t.uses == s.uses[id := 1 + if id in s.uses then s.uses[id] else 0]
  }

  /** The verdict on an admitted call: approved exactly when a person brings a grant in force for its
      key, which then loses one use; nothing else touches the store. */
  lemma VerdictTells(s: Store, ids: map<Key, string>, needs: bool, q: Query, w: World)
    requires q.token ==> w.identity.Some?
    ensures var (t, verdict) := Judged(s, ids, needs, q, w);
            && (verdict.NotNeeded? <==> !needs)
            && (verdict.Granted? <==> needs && Approvable(s, ids, q, w))
            && (!verdict.Granted? ==> t == s)
            && (verdict.Granted? ==> TakesOneUse(s, t, ids, q, w))
  {
    var k := KeyOf(q, w);
    var r := Presented(ids, needs, q, w);
    if needs && r.Some? && RequestKey(r.value) == k {
      assert r.value == RequestFor(r.value.id, k) && Brings(ids, q, k, r.value.id);
    }
  }

  /** Everything that comes before the confirmation. */
  ghost predicate Reaches(known: map<string, Descriptor>, q: Query, w: World) {
    && q.tool in known && w.inputOk && w.capable && w.budgetOk
    && (q.token ==> w.identity.Some? && w.rolesOk && w.contextOk)
  }

  /** What a call does, from the outside: the engine is asked once, under the call's key, exactly when
      everything before the confirmation passes, the tool needs none or it is approved, and the
      payload is accepted; and the decision that is reported. */
  lemma {:induction false} CallTells(
    s: Store, t: Store, ids: map<Key, string>, known: map<string, Descriptor>, q: Query, w: World,
    before: seq<Invocation>, after: seq<Invocation>, decision: Option<Decision>)
    requires Effect(s, t, ids, known, q, w, before, after, decision)
    ensures if Reaches(known, q, w) then
              var needs := known[q.tool].requiresConfirmation;
              var approved := Approvable(s, ids, q, w);
              && after == before + (if (needs ==> approved) && w.prepareOk then [Invocation(KeyOf(q, w), needs)] else [])
              && (decision == None <==> !needs)
              && (decision == Some(Approved) <==> needs && approved)
              && (decision == Some(Denied) <==> needs && !approved)
              && (!(needs && approved) ==> t == s)
              && (needs && approved ==> TakesOneUse(s, t, ids, q, w))
            else t == s && after == before && decision == None
  {
    if Reaches(known, q, w) {
      VerdictTells(s, ids, known[q.tool].requiresConfirmation, q, w);
    }
  }

  /** With a token nothing that the caller says about itself matters, and for a tool that needs a
      confirmation not the request either that the caller brings. */
  lemma {:induction false} IdentityDecides(
    s: Store, t: Store, ids: map<Key, string>, known: map<string, Descriptor>, q: Query, r: Query, w: World,
    before: seq<Invocation>, after: seq<Invocation>, decision: Option<Decision>)
    requires q.token && r == q.(actor := r.actor, session := r.session, given := r.given)
    requires r.given == q.given || (q.tool in known && known[q.tool].requiresConfirmation)
    ensures Effect(s, t, ids, known, q, w, before, after, decision) <==> Effect(s, t, ids, known, r, w, before, after, decision)
  {
    if Admitted(known, q, w) {
      KeyTells(q, w);
      KeyTells(r, w);
    }
  }

  // ------------------------------------------------- one call among the steps

  function Play(s: System, steps: seq<Step>): Option<System>
    decreases |steps|
  {
    if steps == [] then Some(s)
    else if !Enabled(s, steps[0]) then None
    else Play(Next(s, steps[0]), steps[1..])
  }

  /** The steps of an admitted call, as number `who`. */
  function Script(who: nat, needs: bool, q: Query, w: World, stage: Stage, cleared: bool): seq<Step> {
    [Arrive(Call(KeyOf(q, w), needs, IsMachine(q, w), stage))]
    + (if stage.Looking? then [Look(who)] else [])
    + [Ask(who, w.now)]
    + (if cleared then [if w.prepareOk then Invoke(who) else Raise(who)] else [])
  }

  lemma {:induction false} PlayMore(s: System, step: Step, rest: seq<Step>)
    requires Enabled(s, step)
    ensures Play(s, [step] + rest) == Play(Next(s, step), rest)
  {
    assert ([step] + rest)[1..] == rest;
  }

  lemma {:induction false} AskedIs(s: System, who: nat, now: int)
    requires who < |s.calls| && s.calls[who].stage.Holding?
    ensures var c := s.calls[who];
            var (store, verdict) := Put(s.store, c.needs, c.stage.request, c.machine, c.key, now);
            var t := AskStep(s, who, now);
            && t.store == store && t.ids == s.ids && |t.calls| == |s.calls| && t.calls[..who] == s.calls[..who]
            && t.calls[who].key == c.key && t.calls[who].needs == c.needs
            && (if verdict.Refused? then t.calls[who].stage == Stopped(None)
                else t.calls[who].stage.Cleared? && (Paid(t.calls[who]).Some? ==> verdict.Granted?))
  {
  }

  /** An undisturbed call is a run of the interleaved system that ends in the same store, with the
      call invoked or stopped as the object does it. */
  lemma CallIsRun(s: System, needs: bool, q: Query, w: World)
    ensures var (store, verdict) := Judged(s.store, s.ids, needs, q, w);
            var stage := if q.token && needs then Looking else Holding(q.given);
            var end := Play(s, Script(|s.calls|, needs, q, w, stage, !verdict.Refused?));
            && end.Some? && end.value.store == store && end.value.ids == s.ids
            && |end.value.calls| == |s.calls| + 1 && end.value.calls[..|s.calls|] == s.calls
            && var c := end.value.calls[|s.calls|];
               c.key == KeyOf(q, w) && c.needs == needs
               && (c.stage.Invoked? <==> !verdict.Refused? && w.prepareOk)
               && (Paid(c).Some? ==> verdict.Granted?)
  {
    var (store, verdict) := Judged(s.store, s.ids, needs, q, w);
    var who := |s.calls|;
    var stage := if q.token && needs then Looking else Holding(q.given);
    var held := Call(KeyOf(q, w), needs, IsMachine(q, w), Holding(Presented(s.ids, needs, q, w)));
    var tail := [Ask(who, w.now)] + if verdict.Refused? then [] else [if w.prepareOk then Invoke(who) else Raise(who)];
    Arrives(s, needs, q, w, tail);
    Finishes(s.(calls := s.calls + [held]), who, w, !verdict.Refused?);
    assert Script(who, needs, q, w, stage, !verdict.Refused?)
        == [Arrive(held.(stage := stage))] + (if stage.Looking? then [Look(who)] else []) + tail;
  }

  /** The first steps of a call leave it holding its request. */
  lemma Arrives(s: System, needs: bool, q: Query, w: World, tail: seq<Step>)
    ensures var stage := if q.token && needs then Looking else Holding(q.given);
            var held := Call(KeyOf(q, w), needs, IsMachine(q, w), Holding(Presented(s.ids, needs, q, w)));
            Play(s, [Arrive(held.(stage := stage))] + (if stage.Looking? then [Look(|s.calls|)] else []) + tail)
            == Play(s.(calls := s.calls + [held]), tail)
  {
    var stage := if q.token && needs then Looking else Holding(q.given);
    var held := Call(KeyOf(q, w), needs, IsMachine(q, w), Holding(Presented(s.ids, needs, q, w)));
    var first := held.(stage := stage);
    var look := if stage.Looking? then [Look(|s.calls|)] else [];
    assert [Arrive(first)] + look + tail == [Arrive(first)] + (look + tail);
    PlayMore(s, Arrive(first), look + tail);
    var s1 := Next(s, Arrive(first));
    if stage.Looking? {
      PlayMore(s1, Look(|s.calls|), tail);
      assert (s.calls + [first])[|s.calls| := held] == s.calls + [held];
    } else {
      assert look + tail == tail;
    }
  }

  /** The last steps put the request to the gate and invoke the engine or stop. */
  lemma {:induction false} Finishes(s: System, who: nat, w: World, cleared: bool)
    requires who < |s.calls| && s.calls[who].stage.Holding?
    requires var c := s.calls[who];
             cleared == !Put(s.store, c.needs, c.stage.request, c.machine, c.key, w.now).1.Refused?
    ensures var c := s.calls[who];
            var (store, verdict) := Put(s.store, c.needs, c.stage.request, c.machine, c.key, w.now);
            var end := Play(s, [Ask(who, w.now)] + if cleared then [if w.prepareOk then Invoke(who) else Raise(who)] else []);
            && end.Some? && end.value.store == store && end.value.ids == s.ids
            && |end.value.calls| == |s.calls| && end.value.calls[..who] == s.calls[..who]
            && end.value.calls[who].key == c.key && end.value.calls[who].needs == c.needs
            && (end.value.calls[who].stage.Invoked? <==> cleared && w.prepareOk)
            && (Paid(end.value.calls[who]).Some? ==> verdict.Granted?)
  {
    AskedIs(s, who, w.now);
    var t := Next(s, Ask(who, w.now));
    if cleared {
      var last := if w.prepareOk then Invoke(who) else Raise(who);
      PlayMore(s, Ask(who, w.now), [last]);
      assert [last][1..] == [] && Play(t, [last]) == Some(Next(t, last));
    } else {
      PlayMore(s, Ask(who, w.now), []);
    }
  }
}
