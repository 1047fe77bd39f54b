/** Human confirmation grants with limited uses, and the calls that spend them, one locked block
    at a time over every interleaving of issuers and callers. */
module Confirmations {
  import opened Wrappers
  import opened Totals

  // --------------------------------------------------------------- the store

  /** A datetime: without a zone it is read as UTC. */
  datatype Stamp = Naive(clock: int) | Zoned(clock: int, offset: int)

  function Instant(t: Stamp): int {
    match t
    case Naive(c) => c
    case Zoned(c, offset) => c - offset
  }

  /** A clock is read as UTC without a zone, and with one it runs ahead of UTC by the offset. */
  lemma InstantTells(clock: int, offset: int, d: int)
    ensures Instant(Zoned(clock, 0)) == Instant(Naive(clock)) == clock
    ensures Instant(Zoned(clock + d, offset + d)) == Instant(Zoned(clock, offset))
  {
  }

  /** What a confirmation is for. */
  datatype Key = Key(actor: string, session: string, caseId: string, tool: string, fingerprint: string, targets: seq<string>)

  datatype Grant = Grant(
    id: string, actor: string, session: string, caseId: string, tool: string,
    fingerprint: string, targets: seq<string>, expires: Stamp, maxUses: int)

  datatype Request = Request(
    id: string, actor: string, session: string, caseId: string, tool: string,
    fingerprint: string, targets: seq<string>)

  function GrantKey(g: Grant): Key {
    Key(g.actor, g.session, g.caseId, g.tool, g.fingerprint, g.targets)
  }

  function RequestKey(r: Request): Key {
    Key(r.actor, r.session, r.caseId, r.tool, r.fingerprint, r.targets)
  }

  function RequestFor(id: string, k: Key): Request {
    Request(id, k.actor, k.session, k.caseId, k.tool, k.fingerprint, k.targets)
  }

  predicate Matches(g: Grant, r: Request) {
    && g.actor == r.actor
    && g.session == r.session
    && g.caseId == r.caseId
    && g.tool == r.tool
    && g.fingerprint == r.fingerprint
    && g.targets == r.targets
  }

  datatype Store = Store(grants: map<string, Grant>, uses: map<string, int>)

  function UsesOf(s: Store, id: string): int {
    if id in s.uses then s.uses[id] else 0
  }

  /** False is the ValueError of a grant without uses. */
  function IssueTo(s: Store, g: Grant): (Store, bool) {
    if g.maxUses < 1 then (s, false)
    else (Store(s.grants[g.id := g], s.uses - {g.id}), true)
  }

  function AuthorizeIn(s: Store, r: Request, now: int): (Store, bool) {
    if r.id !in s.grants || !Matches(s.grants[r.id], r) then (s, false)
    else
      var g := s.grants[r.id];
      if Instant(g.expires) <= now || UsesOf(s, g.id) >= g.maxUses then (s, false)
      else (s.(uses := s.uses[g.id := UsesOf(s, g.id) + 1]), true)
  }

  /** A grant with uses takes the place of any other under its name and starts unused. */
  lemma IssueTells(s: Store, g: Grant)
    ensures var (t, ok) := IssueTo(s, g);
            && (ok <==> g.maxUses >= 1) && (!ok ==> t == s)
            && (ok ==> g.id in t.grants && t.grants[g.id] == g && UsesOf(t, g.id) == 0)
            && (forall id | id != g.id :: (id in t.grants <==> id in s.grants) && UsesOf(t, id) == UsesOf(s, id))
            && (forall id | id != g.id && id in s.grants :: t.grants[id] == s.grants[id])
  {
  }

  datatype Verdict = NotNeeded | Granted | Refused

  /** ConfirmationGate.require; Refused is ConfirmationRequiredError. */
  function Require(s: Store, needs: bool, r: Option<Request>, expected: Key, now: int): (Store, Verdict) {
    if !needs then (s, NotNeeded)
    else if r.None? || RequestKey(r.value) != expected then (s, Refused)
    else
      var (s', ok) := AuthorizeIn(s, r.value, now);
      (s', if ok then Granted else Refused)
  }

  // ------------------------------------------------------------- the history

  /** One successful issue: what it granted, how much of it was used, and whether its identifier
      was already published for the frontend's look-ups. */
  datatype Issued = Issued(grant: Grant, used: nat, pointed: bool)

  /** What an issue allows. A grant handed to the constructor may have no uses at all. */
  function Weight(g: Grant): nat {
    if g.maxUses < 0 then 0 else g.maxUses
  }

  /** The issue that paid for a call, and when. */
  datatype Payment = Payment(entry: nat, at: int)

  /** How far a call got, and what paid for it. */
  datatype Stage =
    | Looking
    | Holding(request: Option<Request>)
    | Cleared(paid: Option<Payment>)
    | Invoked(paid: Option<Payment>)
    | Stopped(paid: Option<Payment>)

  /** A call to a tool; `machine` says that its trusted actor is present but not a person. */
  datatype Call = Call(key: Key, needs: bool, machine: bool, stage: Stage)

  function Paid(c: Call): Option<Payment> {
    match c.stage
    case Looking => None
    case Holding(_) => None
    case Cleared(p) => p
    case Invoked(p) => p
    case Stopped(p) => p
  }

  /** `book` and `live` are history: every issue, and which one an identifier now stands for. */
  datatype System = System(
    store: Store, ids: map<Key, string>, calls: seq<Call>,
    book: seq<Issued>, live: map<string, nat>)

  datatype Step =
    | Issue(grant: Grant)
    | Point(entry: nat)
    | Arrive(call: Call)
    | Look(who: nat)
    | Ask(who: nat, now: int)
    | Invoke(who: nat)
    | Raise(who: nat)

  predicate Enabled(s: System, step: Step) {
    match step
    case Issue(_) => true
    case Point(e) => e < |s.book| && !s.book[e].pointed
    case Arrive(call) => call.stage.Looking? || call.stage.Holding?
    case Look(i) => i < |s.calls| && s.calls[i].stage.Looking?
    case Ask(i, _) => i < |s.calls| && s.calls[i].stage.Holding?
    case Invoke(i) => i < |s.calls| && s.calls[i].stage.Cleared?
    case Raise(i) => i < |s.calls| && !s.calls[i].stage.Invoked? && !s.calls[i].stage.Stopped?
  }

  function At(s: System, who: nat, stage: Stage): System
    requires who < |s.calls|
  {
    s.(calls := s.calls[who := s.calls[who].(stage := stage)])
  }

  /** The request that the frontend provider finds for a key. */
  function Found(ids: map<Key, string>, k: Key): Option<Request> {
    if k in ids then Some(RequestFor(ids[k], k)) else None
  }

  /** The issue that an identifier stands for pays for a call. */
  function Pay(s: System, who: nat, id: string, now: int): System
    requires who < |s.calls|
  {
    if id in s.live && s.live[id] < |s.book| then
      var e := s.live[id];
      At(s.(book := s.book[e := s.book[e].(used := s.book[e].used + 1)]), who, Cleared(Some(Payment(e, now))))
    else At(s, who, Cleared(None))
  }

  function AskStep(s: System, who: nat, now: int): System
    requires who < |s.calls| && s.calls[who].stage.Holding?
  {
    var c := s.calls[who];
    var r := c.stage.request;
    if c.needs && r.Some? && c.machine then At(s, who, Stopped(None))
    else
      var (store, verdict) := Require(s.store, c.needs, r, c.key, now);
      match verdict
      case NotNeeded => At(s, who, Cleared(None))
      case Refused => At(s.(store := store), who, Stopped(None))
      case Granted =>
        Pay(s.(store := store), who, r.value.id, now)
  }

  function IssueStep(s: System, g: Grant): System {
    var (store, ok) := IssueTo(s.store, g);
    if ok then s.(store := store, book := s.book + [Issued(g, 0, false)], live := s.live[g.id := |s.book|]) else s
  }

  function PointStep(s: System, e: nat): System
    requires e < |s.book|
  {
    s.(ids := s.ids[GrantKey(s.book[e].grant) := s.book[e].grant.id],
       book := s.book[e := s.book[e].(pointed := true)])
  }

  function Next(s: System, step: Step): System
    requires Enabled(s, step)
  {
    match step
    case Issue(g) => IssueStep(s, g)
    case Point(e) => PointStep(s, e)
    case Arrive(call) => s.(calls := s.calls + [call])
    case Look(i) => At(s, i, Holding(Found(s.ids, s.calls[i].key)))
    case Ask(i, now) => AskStep(s, i, now)
    case Invoke(i) => At(s, i, Invoked(s.calls[i].stage.paid))
    case Raise(i) => At(s, i, Stopped(Paid(s.calls[i])))
  }

  /** The provider built from a list of grants: a later one replaces an earlier one of its name. */
  function StoreOf(grants: seq<Grant>): Store {
    if grants == [] then Store(map[], map[])
    else
      var g := grants[|grants| - 1];
      Store(StoreOf(grants[..|grants| - 1]).grants[g.id := g], map[])
  }

  /** The last grant of each name is the one that counts, and none is used yet. */
  lemma {:induction false} StoreTells(grants: seq<Grant>, i: nat)
    requires i < |grants| && forall j | i < j < |grants| :: grants[j].id != grants[i].id
    ensures var s := StoreOf(grants);
            s.uses == map[] && grants[i].id in s.grants && s.grants[grants[i].id] == grants[i]
  {
    if i < |grants| - 1 {
      StoreTells(grants[..|grants| - 1], i);
    }
  }

  function LiveOf(grants: seq<Grant>): map<string, nat> {
    if grants == [] then map[]
    else LiveOf(grants[..|grants| - 1])[grants[|grants| - 1].id := |grants| - 1]
  }

  function Init(grants: seq<Grant>): System {
    System(StoreOf(grants), map[], [], seq(|grants|, i requires 0 <= i < |grants| => Issued(grants[i], 0, false)), LiveOf(grants))
  }

  ghost predicate Run(states: seq<System>, steps: seq<Step>) {
    && |states| == |steps| + 1
    && forall i | 0 <= i < |steps| :: Enabled(states[i], steps[i]) && states[i + 1] == Next(states[i], steps[i])
  }

  // ---------------------------------------------------------------- counting

  function UsedFor(k: Key): Issued -> nat {
    (e: Issued) => if GrantKey(e.grant) == k then e.used else 0
  }

  function GrantedFor(k: Key): Issued -> nat {
    (e: Issued) => if GrantKey(e.grant) == k then Weight(e.grant) else 0
  }

  function ApprovedFor(k: Key): Call -> nat {
    (c: Call) => if c.key == k && Paid(c).Some? then 1 else 0
  }

  /** Invocations of a tool that requires confirmation. */
  function InvokedFor(k: Key): Call -> nat {
    (c: Call) => if c.key == k && c.needs && c.stage.Invoked? then 1 else 0
  }

  function PaidBy(e: nat): Call -> nat {
    (c: Call) => if Paid(c).Some? && Paid(c).value.entry == e then 1 else 0
  }

  // --------------------------------------------------------------- invariant

  ghost predicate LiveId(s: Store, book: seq<Issued>, live: map<string, nat>, id: string) {
    && (id in s.grants <==> id in live)
    && (id in live ==>
          && live[id] < |book| && book[live[id]].grant == s.grants[id] && s.grants[id].id == id
          && UsesOf(s, id) == book[live[id]].used)
  }

  /** A payment is for a call that needed one, by an issue for exactly its key, before it expired. */
  ghost predicate PaidRightly(c: Call, p: Payment, book: seq<Issued>) {
    && c.needs && p.entry < |book|
    && GrantKey(book[p.entry].grant) == c.key
    && p.at < Instant(book[p.entry].grant.expires)
  }

  ghost predicate CallOk(c: Call, book: seq<Issued>) {
    && (Paid(c).Some? ==> PaidRightly(c, Paid(c).value, book))
    && ((c.stage.Cleared? || c.stage.Invoked?) && c.needs ==> Paid(c).Some?)
  }

  ghost predicate Inv(s: System) {
    && (forall id: string :: LiveId(s.store, s.book, s.live, id))
    && (forall i | 0 <= i < |s.book| :: s.book[i].used <= Weight(s.book[i].grant))
    && (forall i | 0 <= i < |s.calls| :: CallOk(s.calls[i], s.book))
    && (forall e: nat | e < |s.book| :: Total(s.calls, PaidBy(e)) == s.book[e].used)
    && (forall k: Key :: Total(s.calls, ApprovedFor(k)) == Total(s.book, UsedFor(k)))
  }

  // ------------------------------------------------------------------- steps

  /** Moving one call on without a new payment. */
  lemma MoveKeeps(s: System, who: nat, stage: Stage)
    requires Inv(s) && who < |s.calls|
    requires var c := s.calls[who].(stage := stage);
             Paid(c) == Paid(s.calls[who]) && CallOk(c, s.book)
    ensures Inv(At(s, who, stage))
  {
    var c := s.calls[who].(stage := stage);
    var t := At(s, who, stage);
    forall e: nat | e < |s.book|
      ensures Total(t.calls, PaidBy(e)) == s.book[e].used
    {
      TotalUpdate(s.calls, who, c, PaidBy(e));
    }
    forall k: Key
      ensures Total(t.calls, ApprovedFor(k)) == Total(s.book, UsedFor(k))
    {
      TotalUpdate(s.calls, who, c, ApprovedFor(k));
    }
  }

  lemma ArriveKeeps(s: System, c: Call)
    requires Inv(s) && (c.stage.Looking? || c.stage.Holding?)
    ensures Inv(s.(calls := s.calls + [c]))
  {
    var t := s.(calls := s.calls + [c]);
    forall e: nat | e < |s.book|
      ensures Total(t.calls, PaidBy(e)) == s.book[e].used
    {
      TotalAppend(s.calls, c, PaidBy(e));
    }
    forall k: Key
      ensures Total(t.calls, ApprovedFor(k)) == Total(s.book, UsedFor(k))
    {
      TotalAppend(s.calls, c, ApprovedFor(k));
    }
  }

  lemma PointKeeps(s: System, e: nat)
    requires Inv(s) && e < |s.book|
    ensures Inv(PointStep(s, e))
  {
    var t := PointStep(s, e);
    forall id: string
      ensures LiveId(t.store, t.book, t.live, id)
    {
      assert LiveId(s.store, s.book, s.live, id);
    }
    forall k: Key
      ensures Total(t.calls, ApprovedFor(k)) == Total(t.book, UsedFor(k))
    {
      TotalUpdate(s.book, e, t.book[e], UsedFor(k));
    }
  }

  lemma IssueKeeps(s: System, g: Grant)
    requires Inv(s)
    ensures Inv(IssueStep(s, g))
  {
    if g.maxUses >= 1 {
      var t := IssueStep(s, g);
      var n := |s.book|;
      forall id: string
        ensures LiveId(t.store, t.book, t.live, id)
      {
        assert LiveId(s.store, s.book, s.live, id);
      }
      TotalZero(s.calls, PaidBy(n));
      forall k: Key
        ensures Total(t.calls, ApprovedFor(k)) == Total(t.book, UsedFor(k))
      {
        TotalAppend(s.book, Issued(g, 0, false), UsedFor(k));
      }
    }
  }

  ghost predicate Affordable(s: System, who: nat, now: int, r: Request) {
    && who < |s.calls| && s.calls[who].needs && s.calls[who].stage == Holding(Some(r))
    && RequestKey(r) == s.calls[who].key && AuthorizeIn(s.store, r, now).1
  }

  lemma PayBooks(s: System, who: nat, now: int, r: Request)
    requires Inv(s) && Affordable(s, who, now, r)
    ensures r.id in s.live && s.live[r.id] < |s.book|
    ensures s.book[s.live[r.id]].used < Weight(s.book[s.live[r.id]].grant)
    ensures PaidRightly(s.calls[who], Payment(s.live[r.id], now), s.book)
    ensures var t := Pay(s.(store := AuthorizeIn(s.store, r, now).0), who, r.id, now);
            forall id: string :: LiveId(t.store, t.book, t.live, id)
  {
    assert LiveId(s.store, s.book, s.live, r.id);
    var t := Pay(s.(store := AuthorizeIn(s.store, r, now).0), who, r.id, now);
    forall id: string
      ensures LiveId(t.store, t.book, t.live, id)
    {
      assert LiveId(s.store, s.book, s.live, id);
    }
  }

  lemma {:induction false} PayCounts(s: System, who: nat, e: nat, now: int)
    requires Inv(s) && who < |s.calls| && s.calls[who].stage.Holding? && e < |s.book|
    requires GrantKey(s.book[e].grant) == s.calls[who].key
    ensures var calls := s.calls[who := s.calls[who].(stage := Cleared(Some(Payment(e, now))))];
            var book := s.book[e := s.book[e].(used := s.book[e].used + 1)];
            && (forall f: nat | f < |book| :: Total(calls, PaidBy(f)) == book[f].used)
            && (forall k: Key :: Total(calls, ApprovedFor(k)) == Total(book, UsedFor(k)))
  {
    var c := s.calls[who].(stage := Cleared(Some(Payment(e, now))));
    var entry := s.book[e].(used := s.book[e].used + 1);
    forall f: nat | f < |s.book|
      ensures Total(s.calls[who := c], PaidBy(f)) == s.book[e := entry][f].used
    {
      TotalUpdate(s.calls, who, c, PaidBy(f));
    }
    forall k: Key
      ensures Total(s.calls[who := c], ApprovedFor(k)) == Total(s.book[e := entry], UsedFor(k))
    {
      TotalUpdate(s.calls, who, c, ApprovedFor(k));
      TotalUpdate(s.book, e, entry, UsedFor(k));
    }
  }

  /** A granted confirmation moves one use from the live issue to the call. */
  lemma PayKeeps(s: System, who: nat, now: int, r: Request)
    requires Inv(s) && Affordable(s, who, now, r)
    ensures Inv(Pay(s.(store := AuthorizeIn(s.store, r, now).0), who, r.id, now))
  {
    PayBooks(s, who, now, r);
    PayCounts(s, who, s.live[r.id], now);
  }

  lemma {:induction false} AskKeeps(s: System, who: nat, now: int)
    requires Inv(s) && who < |s.calls| && s.calls[who].stage.Holding?
    ensures Inv(AskStep(s, who, now))
  {
    var c := s.calls[who];
    var r := c.stage.request;
    if !c.needs {
      MoveKeeps(s, who, Cleared(None));
    } else if r.None? || c.machine || RequestKey(r.value) != c.key || !AuthorizeIn(s.store, r.value, now).1 {
      MoveKeeps(s, who, Stopped(None));
    } else {
      PayKeeps(s, who, now, r.value);
    }
  }

  lemma StepKeeps(s: System, step: Step)
    requires Inv(s) && Enabled(s, step)
    ensures Inv(Next(s, step))
  {
    match step {
      case Issue(g) => IssueKeeps(s, g);
      case Point(e) => PointKeeps(s, e);
      case Arrive(call) => ArriveKeeps(s, call);
      case Look(i) => MoveKeeps(s, i, Holding(Found(s.ids, s.calls[i].key)));
      case Ask(i, now) => AskKeeps(s, i, now);
      case Invoke(i) => MoveKeeps(s, i, Invoked(s.calls[i].stage.paid));
      case Raise(i) => MoveKeeps(s, i, Stopped(Paid(s.calls[i])));
    }
  }

  lemma {:induction false} InitLive(grants: seq<Grant>, id: string)
    ensures var (s, live) := (StoreOf(grants), LiveOf(grants));
            && s.uses == map[] && (id in s.grants <==> id in live)
            && (id in live ==> live[id] < |grants| && grants[live[id]] == s.grants[id] && s.grants[id].id == id)
  {
    if grants != [] {
      InitLive(grants[..|grants| - 1], id);
    }
  }

  lemma InitKeeps(grants: seq<Grant>)
    ensures Inv(Init(grants))
  {
    var s := Init(grants);
    forall id: string
      ensures LiveId(s.store, s.book, s.live, id)
    {
      InitLive(grants, id);
    }
    forall k: Key
      ensures Total(s.book, UsedFor(k)) == 0
    {
      TotalZero(s.book, UsedFor(k));
    }
  }

  lemma {:induction false} RunKeeps(states: seq<System>, steps: seq<Step>)
    requires Run(states, steps) && Inv(states[0])
    ensures Inv(states[|steps|])
    decreases |steps|
  {
    if steps != [] {
      var n := |steps| - 1;
      RunKeeps(states[..n + 1], steps[..n]);
      StepKeeps(states[n], steps[n]);
    }
  }

  // ---------------------------------------------------------------- theorems

  /** Whatever the interleaving of issuers, look-ups, checks and failures: each issue pays for as
      many approvals as uses were taken from it, never more than it allows, and only for calls of
      exactly its actor, session, case, tool, fingerprint and targets. So for every such tuple
      invocations <= approvals == uses taken <= uses granted. */
  lemma {:induction false} SpendingTheorem(grants: seq<Grant>, states: seq<System>, steps: seq<Step>, k: Key)
    requires Run(states, steps) && states[0] == Init(grants)
    ensures var s := states[|steps|];
            && Total(s.calls, InvokedFor(k)) <= Total(s.calls, ApprovedFor(k))
            && Total(s.calls, ApprovedFor(k)) == Total(s.book, UsedFor(k)) <= Total(s.book, GrantedFor(k))
            && (forall e: nat | e < |s.book| :: Total(s.calls, PaidBy(e)) == s.book[e].used <= Weight(s.book[e].grant))
            && (forall i | 0 <= i < |s.calls| && Paid(s.calls[i]).Some? ::
                  PaidRightly(s.calls[i], Paid(s.calls[i]).value, s.book))
            && (forall i | 0 <= i < |s.calls| && s.calls[i].needs && s.calls[i].stage.Invoked? :: Paid(s.calls[i]).Some?)
  {
    InitKeeps(grants);
    RunKeeps(states, steps);
    var s := states[|steps|];
    TotalLe(s.calls, InvokedFor(k), ApprovedFor(k));
    TotalLe(s.book, UsedFor(k), GrantedFor(k));
  }

  /** The issue that would pay for a request of this key and name. */
  ghost predicate Pays(s: System, id: string, k: Key, now: int) {
    && id in s.live && s.live[id] < |s.book|
    && var e := s.book[s.live[id]];
       GrantKey(e.grant) == k && e.used < e.grant.maxUses && now < Instant(e.grant.expires)
  }

  /** The two dictionaries decide exactly as the whole history of issues and payments does. */
  lemma {:induction false} AskDecides(s: System, who: nat, now: int)
    requires Inv(s) && who < |s.calls| && s.calls[who].stage.Holding?
    ensures var c := s.calls[who];
            AskStep(s, who, now).calls[who].stage.Cleared?
            <==> !c.needs
                 || (c.stage.request.Some? && !c.machine && RequestKey(c.stage.request.value) == c.key
                     && Pays(s, c.stage.request.value.id, c.key, now))
  {
    var r := s.calls[who].stage.request;
    if r.Some? {
      assert LiveId(s.store, s.book, s.live, r.value.id);
    }
  }

  /** A frontend call is approved exactly when the issue last published for its key can pay: uses
      left on an earlier issue for the same key are out of reach, and so is a key whose
      identifier was issued again for another key. */
  lemma {:induction false} LookUpDecides(s: System, who: nat, now: int)
    requires Inv(s) && who < |s.calls| && s.calls[who].stage.Looking? && s.calls[who].needs
    ensures var c := s.calls[who];
            var t := Next(Next(s, Look(who)), Ask(who, now));
            t.calls[who].stage.Cleared? <==> !c.machine && c.key in s.ids && Pays(s, s.ids[c.key], c.key, now)
  {
    var t := Next(s, Look(who));
    StepKeeps(s, Look(who));
    AskDecides(t, who, now);
  }

  lemma {:induction false} RunThen(states: seq<System>, steps: seq<Step>, step: Step)
    requires Run(states, steps) && Enabled(states[|steps|], step)
    ensures Run(states + [Next(states[|steps|], step)], steps + [step])
  {
  }

  ghost predicate Reachable(s: System) {
    exists states, steps :: Run(states, steps) && states[0] == Init([]) && states[|steps|] == s
  }

  lemma ReachNext(s: System, step: Step)
    requires Reachable(s) && Enabled(s, step)
    ensures Reachable(Next(s, step))
  {
    var states, steps :| Run(states, steps) && states[0] == Init([]) && states[|steps|] == s;
    RunThen(states, steps, step);
  }

  /** Two grants for one key under two identifiers, taken and published one after the other. */
  lemma TwoIssued(a: Grant, b: Grant) returns (s: System)
    requires GrantKey(a) == GrantKey(b) && a.id != b.id && a.maxUses >= 1 && b.maxUses >= 1
    ensures Reachable(s) && s.calls == [] && s.ids == map[GrantKey(a) := b.id]
    ensures s.book == [Issued(a, 0, true), Issued(b, 0, true)] && s.live == map[a.id := 0, b.id := 1]
    ensures s.store == Store(map[a.id := a, b.id := b], map[])
  {
    s := Init([]);
    assert Run([s], []);
    ReachNext(s, Issue(a));
    s := Next(s, Issue(a));
    ReachNext(s, Point(0));
    s := Next(s, Point(0));
    ReachNext(s, Issue(b));
    s := Next(s, Issue(b));
    assert s.store.uses == map[];
    ReachNext(s, Point(1));
    s := Next(s, Point(1));
  }

  /** One call for this key arrives and is looked up. */
  lemma Arrives(s: System, k: Key) returns (t: System)
    requires Reachable(s) && k in s.ids
    ensures Reachable(t) && t == s.(calls := s.calls + [Call(k, true, false, Holding(Some(RequestFor(s.ids[k], k))))])
  {
    var n := |s.calls|;
    var call := Call(k, true, false, Looking);
    ReachNext(s, Arrive(call));
    t := Next(s, Arrive(call));
    ReachNext(t, Look(n));
    t := Next(t, Look(n));
    assert t.calls == s.calls + [Call(k, true, false, Holding(Some(RequestFor(s.ids[k], k))))];
  }

  /** For any two such grants that are both in force, the second for one use: after one approval the
      next call is refused, although the first grant has all its uses left and could pay for it. */
  lemma UsesHidden(a: Grant, b: Grant, now: int)
    requires GrantKey(a) == GrantKey(b) && a.id != b.id && a.maxUses >= 1 && b.maxUses == 1
    requires now < Instant(a.expires) && now < Instant(b.expires)
    ensures exists s :: Reachable(s) && |s.calls| == 2
              && s.calls[0].key == s.calls[1].key == GrantKey(a) && s.calls[1].needs && !s.calls[1].machine
              && s.calls[0].stage.Cleared? && s.calls[1].stage == Stopped(None)
              && Pays(s, a.id, GrantKey(a), now)
  {
    var k := GrantKey(a);
    var s := TwoIssued(a, b);
    var t := Arrives(s, k);
    ReachNext(t, Ask(0, now));
    var u := Next(t, Ask(0, now));
    assert u.store.uses == map[b.id := 1] && u.book[0] == s.book[0];
    var v := Arrives(u, k);
    SpentRefuses(v, 1, k, b, now);
    ReachNext(v, Ask(1, now));
  }

  lemma SpentRefuses(s: System, who: nat, k: Key, g: Grant, now: int)
    requires who < |s.calls| && s.calls[who] == Call(k, true, false, Holding(Some(RequestFor(g.id, k))))
    requires g.id in s.store.grants && s.store.grants[g.id] == g && UsesOf(s.store, g.id) >= g.maxUses
    ensures Next(s, Ask(who, now)) == At(s, who, Stopped(None))
  {
  }
}
