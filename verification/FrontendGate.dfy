/** The per-tool gate on scopes, roles and cases, and the table of scopes that it shares with the
    issuer of tokens. */
module FrontendGate {
  import opened Wrappers

  datatype Role = Viewer | Analyst | Approver | Exporter | Admin

  /** A role as it stands in a claim, once stripped and upper-cased: one of the five, another
      text, nothing but blanks, or not a text at all. */
  datatype RoleText = Known(role: Role) | Unknown(text: string) | Blank | NotText

  datatype Scope = Mcp | Read | Write | Confirm | Approve | Export | Raw | Foreign(name: string)

  /** The tools that the gate tells apart by name. */
  datatype ToolKind = Approval | ExportTool | RawRead | Other

  datatype Tool = Tool(kind: ToolKind, mutates: bool, confirms: bool)

  datatype Session = Session(allowed: set<string>, roles: set<RoleText>)

  /** `caseRoles` is empty when the claim is absent or empty. */
  datatype Token = Token(scopes: set<Scope>, caseRoles: map<string, RoleText>)

  // ------------------------------------------------------------------ scopes

  const BASE: set<Scope> := {Mcp, Read}

  function RoleScopes(r: RoleText): set<Scope> {
    if !r.Known? then {}
    else
      match r.role
      case Viewer => BASE
      case Analyst => BASE + {Write, Confirm}
      case Exporter => BASE + {Export}
      case Approver => BASE + {Write, Confirm, Approve, Export}
      case Admin => BASE + {Write, Confirm, Approve, Export, Raw}
  }

  function ScopesFor(roles: set<RoleText>): set<Scope> {
    set r, s | r in roles && s in RoleScopes(r) :: s
  }

  /** What several roles grant is what each of them grants. */
  lemma ScopesUnion(a: set<RoleText>, b: set<RoleText>)
    ensures ScopesFor(a + b) == ScopesFor(a) + ScopesFor(b) && ScopesFor({}) == {}
  {
  }

  method ScopesForRoles(roles: set<RoleText>) returns (result: set<Scope>)
    ensures result == ScopesFor(roles)
  {
    result := {};
    var todo := roles;
    while todo != {}
      invariant todo <= roles && result == ScopesFor(roles - todo)
      decreases todo
    {
      var role :| role in todo;
      result := result + RoleScopes(role);
      todo := todo - {role};
    }
    assert roles - {} == roles;
  }

  // ---------------------------------------------------------------- the gate

  function RequiredScopes(t: Tool): set<Scope> {
    BASE
    + (if t.mutates then {Write} else {})
    + (if t.confirms then {Confirm} else {})
    + (if t.kind.RawRead? then {Raw} else {})
    + (if t.kind.Approval? then {Approve} else {})
    + (if t.kind.ExportTool? then {Export} else {})
  }

  function RequiredRoles(t: Tool): set<RoleText> {
    match t.kind
    case Approval => {Known(Approver), Known(Admin)}
    case ExportTool => {Known(Approver), Known(Exporter), Known(Admin)}
    case RawRead => {Known(Analyst), Known(Approver), Known(Admin)}
    case Other => if t.mutates then {Known(Analyst), Known(Approver), Known(Admin)} else {}
  }

  function RoleIn(caseRoles: map<string, RoleText>, c: string): RoleText {
    if c in caseRoles then caseRoles[c] else Blank
  }

  datatype Verdict =
    | Admitted
    | TenantViolation
    | MissingScopes(scopes: set<Scope>)
    | MissingRoles(roles: set<RoleText>)

  /** What the tool still misses in a case. */
  function CaseMissing(token: Token, t: Tool, c: string): set<Scope> {
    RequiredScopes(t) - RoleScopes(RoleIn(token.caseRoles, c))
  }

  ghost predicate Admits(s: Session, token: Token, t: Tool, targets: set<string>) {
    && targets <= s.allowed
    && RequiredScopes(t) <= token.scopes
    && (token.caseRoles != map[] ==> forall c | c in targets :: CaseMissing(token, t, c) == {})
    && (RequiredRoles(t) != {} ==>
          if token.caseRoles != map[] then forall c | c in targets :: RoleIn(token.caseRoles, c) in RequiredRoles(t)
          else s.roles * RequiredRoles(t) != {})
  }

  /** The targets in the order in which they are looked at. */
  ghost predicate Orders(order: seq<string>, targets: set<string>) {
    forall c :: c in order <==> c in targets
  }

  /** The first of the cases that are looked at in which a scope is missing. */
  ghost predicate FirstMissing(token: Token, t: Tool, order: seq<string>, i: int) {
    && token.caseRoles != map[] && 0 <= i < |order| && CaseMissing(token, t, order[i]) != {}
    && forall j | 0 <= j < i :: CaseMissing(token, t, order[j]) == {}
  }

  /** The gate, which raises at the first failure that it meets. */
  method Require(s: Session, token: Token, t: Tool, targets: set<string>, order: seq<string>) returns (v: Verdict)
    requires Orders(order, targets)
    ensures v.Admitted? <==> Admits(s, token, t, targets)
    ensures v.TenantViolation? <==> !(targets <= s.allowed)
    ensures v.MissingScopes? ==> v.scopes != {} && v.scopes <= RequiredScopes(t)
    ensures targets <= s.allowed && RequiredScopes(t) - token.scopes != {} ==>
              v == MissingScopes(RequiredScopes(t) - token.scopes)
    ensures forall i | FirstMissing(token, t, order, i) && targets <= s.allowed && RequiredScopes(t) <= token.scopes ::
              v == MissingScopes(CaseMissing(token, t, order[i]))
    ensures v.MissingRoles? ==> v.roles == RequiredRoles(t)
  {
    if !(targets <= s.allowed) {
      return TenantViolation;
    }
    var required := RequiredScopes(t);
    var missing := required - token.scopes;
    if missing != {} {
      return MissingScopes(missing);
    }
    if token.caseRoles != map[] {
      for i := 0 to |order|
        invariant forall j | 0 <= j < i :: CaseMissing(token, t, order[j]) == {}
      {
        var role := RoleIn(token.caseRoles, order[i]);
        var caseScopes := {};
        if !role.Blank? {
          caseScopes := ScopesForRoles({role});
        }
        OneRole(role);
        assert CaseMissing(token, t, order[i]) == required - caseScopes && order[i] in targets;
        if required - caseScopes != {} {
          return MissingScopes(required - caseScopes);
        }
      }
      forall c | c in targets
        ensures CaseMissing(token, t, c) == {}
      {
        var j :| 0 <= j < |order| && order[j] == c;
      }
    }
    var roles := RequiredRoles(t);
    if roles != {} {
      if token.caseRoles != map[] {
        for i := 0 to |order|
          invariant forall j | 0 <= j < i :: RoleIn(token.caseRoles, order[j]) in roles
        {
          if RoleIn(token.caseRoles, order[i]) !in roles {
            assert order[i] in targets;
            return MissingRoles(roles);
          }
        }
        forall c | c in targets
          ensures RoleIn(token.caseRoles, c) in roles
        {
          var j :| 0 <= j < |order| && order[j] == c;
        }
      } else if s.roles * roles == {} {
        return MissingRoles(roles);
      }
    }
    return Admitted;
  }

  lemma OneRole(r: RoleText)
    ensures ScopesFor({r}) == RoleScopes(r)
  {
  }

  // -------------------------------------------------------------- properties

  /** The scope table, scope by scope: who has it. */
  lemma ScopeTells(r: RoleText, s: Scope)
    ensures s in RoleScopes(r) <==>
            match s
            case Mcp => r.Known?
            case Read => r.Known?
            case Write => r in {Known(Analyst), Known(Approver), Known(Admin)}
            case Confirm => r in {Known(Analyst), Known(Approver), Known(Admin)}
            case Approve => r in {Known(Approver), Known(Admin)}
            case Export => r in {Known(Approver), Known(Exporter), Known(Admin)}
            case Raw => r == Known(Admin)
            case Foreign(_) => false
  {
  }

  /** What a tool demands of a set of scopes. */
  ghost predicate ScopesSuffice(t: Tool, scopes: set<Scope>) {
    && Mcp in scopes && Read in scopes
    && (t.mutates ==> Write in scopes) && (t.confirms ==> Confirm in scopes)
    && (t.kind.Approval? ==> Approve in scopes) && (t.kind.ExportTool? ==> Export in scopes)
    && (t.kind.RawRead? ==> Raw in scopes)
  }

  lemma RequiredTells(t: Tool, scopes: set<Scope>)
    ensures RequiredScopes(t) <= scopes <==> ScopesSuffice(t, scopes)
  {
    var required := RequiredScopes(t);
    assert Mcp in required && Read in required;
    if t.mutates { assert Write in required; }
    if t.confirms { assert Confirm in required; }
    if t.kind.Approval? { assert Approve in required; }
    if t.kind.ExportTool? { assert Export in required; }
    if t.kind.RawRead? { assert Raw in required; }
  }

  /** What a tool demands of a set of roles. */
  ghost predicate RolesSuffice(t: Tool, roles: set<RoleText>) {
    match t.kind
    case Approval => Known(Approver) in roles || Known(Admin) in roles
    case ExportTool => Known(Approver) in roles || Known(Exporter) in roles || Known(Admin) in roles
    case RawRead => Known(Analyst) in roles || Known(Approver) in roles || Known(Admin) in roles
    case Other => t.mutates ==> Known(Analyst) in roles || Known(Approver) in roles || Known(Admin) in roles
  }

  lemma RolesTell(t: Tool, roles: set<RoleText>)
    ensures RequiredRoles(t) == {} || (exists r :: r in roles && r in RequiredRoles(t)) <==> RolesSuffice(t, roles)
  {
    if t.kind.Other? && !t.mutates {
      assert RequiredRoles(t) == {};
    } else {
      assert Known(Admin) in RequiredRoles(t) && Known(Approver) in RequiredRoles(t);
    }
  }

  /** The roles that can use a tool, tool by tool. */
  function Able(t: Tool): set<RoleText> {
    if t.kind.RawRead? then {Known(Admin)}
    else if t.kind.Approval? then {Known(Approver), Known(Admin)}
    else if t.kind.ExportTool? && !t.mutates && !t.confirms then {Known(Exporter), Known(Approver), Known(Admin)}
    else if t.kind.ExportTool? then {Known(Approver), Known(Admin)}
    else if t.mutates || t.confirms then {Known(Analyst), Known(Approver), Known(Admin)}
    else {Known(Viewer), Known(Analyst), Known(Approver), Known(Exporter), Known(Admin)}
  }

  /** The scope table and the required scopes, read role by role. */
  lemma AbleExact(t: Tool, r: RoleText)
    ensures RequiredScopes(t) <= RoleScopes(r) <==> r in Able(t)
    ensures r in Able(t) && RequiredRoles(t) != {} ==> r in RequiredRoles(t)
  {
    assert Mcp in RequiredScopes(t);
    if t.kind.RawRead? { assert Raw in RequiredScopes(t); }
    if t.kind.Approval? { assert Approve in RequiredScopes(t); }
    if t.kind.ExportTool? { assert Export in RequiredScopes(t); }
    if t.mutates { assert Write in RequiredScopes(t); }
    if t.confirms { assert Confirm in RequiredScopes(t); }
  }

  /** With per-case roles the gate is exactly this: every target case is the session's, the token
      has the scopes, and the actor's role in each target case is able to use the tool. The later
      test on roles never refuses anything more, and neither the session's roles nor the roles
      in other cases matter. */
  lemma PerCaseExact(s: Session, token: Token, t: Tool, targets: set<string>)
    requires token.caseRoles != map[]
    ensures Admits(s, token, t, targets) <==>
            && targets <= s.allowed && ScopesSuffice(t, token.scopes)
            && forall c | c in targets :: c in token.caseRoles && token.caseRoles[c] in Able(t)
  {
    RequiredTells(t, token.scopes);
    forall c | c in targets
      ensures CaseMissing(token, t, c) == {} <==> RoleIn(token.caseRoles, c) in Able(t)
      ensures RoleIn(token.caseRoles, c) in Able(t) && RequiredRoles(t) != {} ==> RoleIn(token.caseRoles, c) in RequiredRoles(t)
    {
      AbleExact(t, RoleIn(token.caseRoles, c));
      assert CaseMissing(token, t, c) == {} <==> RequiredScopes(t) <= RoleScopes(RoleIn(token.caseRoles, c));
    }
  }

  /** Asking for two sets of cases at once is asking for each of them. */
  lemma UnionDecomposes(s: Session, token: Token, t: Tool, one: set<string>, two: set<string>)
    ensures Admits(s, token, t, one + two) <==> Admits(s, token, t, one) && Admits(s, token, t, two)
  {
    if token.caseRoles != map[] {
      PerCaseExact(s, token, t, one);
      PerCaseExact(s, token, t, two);
      PerCaseExact(s, token, t, one + two);
    }
  }

  ghost predicate SameCases(a: Token, b: Token, targets: set<string>) {
    forall c | c in targets :: RoleIn(a.caseRoles, c) == RoleIn(b.caseRoles, c)
  }

  /** Roles elsewhere change nothing, as long as the claim names some case. */
  lemma NonInterference(s: Session, roles: set<RoleText>, a: Token, b: Token, t: Tool, targets: set<string>)
    requires a.caseRoles != map[] && b.caseRoles != map[] && a.scopes == b.scopes && SameCases(a, b, targets)
    ensures Admits(s, a, t, targets) <==> Admits(s.(roles := roles), b, t, targets)
  {
    PerCaseExact(s, a, t, targets);
    PerCaseExact(s.(roles := roles), b, t, targets);
    forall c | c in targets
      ensures (c in a.caseRoles && a.caseRoles[c] in Able(t)) <==> (c in b.caseRoles && b.caseRoles[c] in Able(t))
    {
      assert RoleIn(a.caseRoles, c) == RoleIn(b.caseRoles, c);
    }
  }

  /** With no case named at all the session's roles decide instead: an approval tool is admitted
      exactly with APPROVER or ADMIN among them, an export tool with APPROVER, EXPORTER or ADMIN, a
      raw view and any other tool that mutates state with ANALYST, APPROVER or ADMIN, and the
      remaining tools whatever the roles are. */
  lemma EmptyClaimDecides(s: Session, token: Token, t: Tool, targets: set<string>)
    requires token.caseRoles == map[]
    ensures Admits(s, token, t, targets) <==>
            targets <= s.allowed && ScopesSuffice(t, token.scopes) && RolesSuffice(t, s.roles)
  {
    RequiredTells(t, token.scopes);
    RolesTell(t, s.roles);
    if s.roles * RequiredRoles(t) != {} {
      var r :| r in s.roles * RequiredRoles(t);
    }
    if r :| r in s.roles && r in RequiredRoles(t) {
      assert r in s.roles * RequiredRoles(t);
    }
  }

  /** Exactly when losing all per-case roles turns a refusal into an admission, and the other way
      round: the case and scope tests pass, and the roles per case and the session's disagree. */
  lemma LosingTheClaim(s: Session, token: Token, t: Tool, targets: set<string>)
    requires token.caseRoles != map[]
    ensures var without := token.(caseRoles := map[]);
            var passes := targets <= s.allowed && ScopesSuffice(t, token.scopes);
            var perCase := forall c | c in targets :: c in token.caseRoles && token.caseRoles[c] in Able(t);
            var perSession := RolesSuffice(t, s.roles);
            && (!Admits(s, token, t, targets) && Admits(s, without, t, targets) <==> passes && !perCase && perSession)
            && (Admits(s, token, t, targets) && !Admits(s, without, t, targets) <==> passes && perCase && !perSession)
  {
    PerCaseExact(s, token, t, targets);
    EmptyClaimDecides(s, token.(caseRoles := map[]), t, targets);
  }

  lemma DroppingAnotherCaseAdmits(other: string, mine: string, t: Tool)
    requires other != mine
    ensures var s := Session({mine}, {Known(Admin)});
            var token := Token(RequiredScopes(t), map[other := Known(Viewer)]);
            && !Admits(s, token, t, {mine})
            && Admits(s, token.(caseRoles := map[]), t, {mine})
  {
    var s := Session({mine}, {Known(Admin)});
    var token := Token(RequiredScopes(t), map[other := Known(Viewer)]);
    assert other in token.caseRoles;
    PerCaseExact(s, token, t, {mine});
    assert mine in {mine};
    EmptyClaimDecides(s, token.(caseRoles := map[]), t, {mine});
    assert Known(Admin) in s.roles;
  }

  // -------------------------------------------------- sessions built from claims

  /** The identity claims once stripped, the case claims, and whether the actor is a person. */
  datatype Claims = Claims(
    actor: string, session: string, tenant: string, person: bool,
    caseRoles: Option<Option<map<string, RoleText>>>, allowed: set<string>)

  /** None stands for every refusal. The outer option of the claim is its presence, the inner one
      whether it is a dictionary. */
  function Resolve(c: Claims): Option<Session> {
    if c.actor == "" || c.session == "" || c.tenant == "" then None
    else if c.caseRoles.None? || c.caseRoles.value.None? then None
    else
      var caseRoles := c.caseRoles.value.value;
      var roles := set k | k in caseRoles && (caseRoles[k].Known? || caseRoles[k].Unknown?) :: caseRoles[k];
      if !c.person || c.allowed == {} || roles == {} || exists r | r in roles :: !r.Known? then None
      else Some(Session(c.allowed, roles))
  }

  /** Which claims make a session, and what it holds. */
  lemma ResolveTells(c: Claims)
    ensures Resolve(c).Some? <==>
            && c.actor != "" && c.session != "" && c.tenant != "" && c.person && c.allowed != {}
            && c.caseRoles.Some? && c.caseRoles.value.Some?
            && var caseRoles := c.caseRoles.value.value;
               && (exists k :: k in caseRoles && caseRoles[k].Known?)
               && (forall k | k in caseRoles :: !caseRoles[k].Unknown?)
    ensures Resolve(c).Some? ==>
              && Resolve(c).value.allowed == c.allowed
              && (forall r :: r in Resolve(c).value.roles <==> r.Known? && r in c.caseRoles.value.value.Values)
  {
    if c.caseRoles.Some? && c.caseRoles.value.Some? {
      var caseRoles := c.caseRoles.value.value;
      var roles := set k | k in caseRoles && (caseRoles[k].Known? || caseRoles[k].Unknown?) :: caseRoles[k];
      assert forall k | k in caseRoles && (caseRoles[k].Known? || caseRoles[k].Unknown?) :: caseRoles[k] in roles;
      if roles != {} {
        var r :| r in roles;
        var k :| k in caseRoles && caseRoles[k] == r;
      }
    }
  }

  /** A session built from claims always comes with a case that has a role, so the gate never
      falls back on the session's roles: a call passes exactly when every target case is allowed
      and the actor's own role there is able to use the tool. */
  lemma ClaimsNeverFallBack(c: Claims, scopes: set<Scope>, t: Tool, targets: set<string>)
    requires Resolve(c).Some?
    ensures c.caseRoles.Some? && c.caseRoles.value.Some? && c.caseRoles.value.value != map[]
    ensures var caseRoles := c.caseRoles.value.value;
            Admits(Resolve(c).value, Token(scopes, caseRoles), t, targets) <==>
            && targets <= c.allowed && ScopesSuffice(t, scopes)
            && forall k | k in targets :: k in caseRoles && caseRoles[k] in Able(t)
  {
    var caseRoles := c.caseRoles.value.value;
    var r :| r in Resolve(c).value.roles;
    var k :| k in caseRoles && caseRoles[k] == r;
    PerCaseExact(Resolve(c).value, Token(scopes, caseRoles), t, targets);
  }
}
