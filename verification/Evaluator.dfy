/** The decision and its evidence, and the end-to-end correctness of compiled policies. */
module Evaluator {
  import opened Text
  import opened Dsl
  import opened DslPrint
  import opened Entities
  import opened Json
  import opened Requests
  import opened Contexts
  import opened Translate
  import opened TranslateReads
  import opened Semantics
  import Cedar
  import CedarText

  datatype MatchedPolicy = MatchedPolicy(id: string, allow: bool, reason: string)

  datatype Note = Diagnostic(error: Cedar.EvalError) | DenyByDefault

  datatype Config = Config(policySet: seq<Cedar.CedarPolicy>, revision: string, signature: Option<string>, host: Host)

  datatype Decision = Decision(
    allow: bool,
    request: AuthzRequest,
    matched: seq<MatchedPolicy>,
    determining: Option<MatchedPolicy>,
    revision: string,
    signature: Option<string>,
    notes: seq<Note>)

  const DEFAULT_DENY := MatchedPolicy("deny-by-default", false, "no permit matched or explicit forbid")

  function MatchedOf(reasons: seq<Cedar.CedarPolicy>, allow: bool): (r: seq<MatchedPolicy>)
    ensures |r| == |reasons|
    ensures forall i | 0 <= i < |reasons| :: r[i] == MatchedPolicy(reasons[i].id, allow, "matched by Cedar evaluator")
  {
    seq(|reasons|, i requires 0 <= i < |reasons| =>
      MatchedPolicy(reasons[i].id, allow, "matched by Cedar evaluator"))
  }

  function Diagnostics(errors: seq<Cedar.EvalError>): (r: seq<Note>)
    ensures |r| == |errors| && forall i | 0 <= i < |errors| :: r[i] == Diagnostic(errors[i])
  {
    seq(|errors|, i requires 0 <= i < |errors| => Diagnostic(errors[i]))
  }

  function DecisionOf(resp: Cedar.Response, req: AuthzRequest, cfg: Config): Decision {
    var matched := MatchedOf(resp.reasons, resp.allow);
    Decision(
      resp.allow, req, matched,
      if matched != [] then Some(matched[0]) else if !resp.allow then Some(DEFAULT_DENY) else None,
      cfg.revision, cfg.signature,
      Diagnostics(resp.errors) + if matched == [] && !resp.allow then [DenyByDefault] else [])
  }

  /** What `evaluate` returns. */
  function Evaluation(req: AuthzRequest, cfg: Config): Result<Decision, RequestError> {
    match Validate(req)
    case Err(e) => Err(e)
    case Ok(_) =>
      match EntityStage(req, cfg.host)
      case Err(e) => Err(e)
      case Ok(_) =>
        match ReadContext(ContextJson(req))
        case None => Err(BadContext)
        case Some(context) =>
          Ok(DecisionOf(Cedar.Authorize(cfg.policySet, Cedar.Request(Upper(req.action), context)), req, cfg))
  }

  method Evaluate(req: AuthzRequest, cfg: Config) returns (r: Result<Decision, RequestError>)
    ensures r == Evaluation(req, cfg)
  {
    hide ContextJson, ReadContext, Cedar.Authorize, EntityStage;
    var valid := Validate(req);
    if valid.Err? {
      return Err(valid.error);
    }
    var built := BuildEntities(req, cfg.host);
    if built.Err? {
      return Err(built.error);
    }
    var json := BuildContextJson(req);
    var context := ReadContext(json);
    if context.None? {
      return Err(BadContext);
    }
    var response := Cedar.Authorize(cfg.policySet, Cedar.Request(Upper(req.action), context.value));

    var matched: seq<MatchedPolicy> := [];
    for i := 0 to |response.reasons|
      invariant matched == MatchedOf(response.reasons, response.allow)[..i]
    {
      matched := matched + [MatchedPolicy(response.reasons[i].id, response.allow, "matched by Cedar evaluator")];
    }

    var notes: seq<Note> := [];
    for i := 0 to |response.errors|
      invariant notes == Diagnostics(response.errors)[..i]
    {
      notes := notes + [Diagnostic(response.errors[i])];
    }

    assert matched == MatchedOf(response.reasons, response.allow);
    assert notes == Diagnostics(response.errors) && notes + [] == notes;
    var determining: Option<MatchedPolicy> := None;
    if matched != [] {
      determining := Some(matched[0]);
    } else if !response.allow {
      determining := Some(DEFAULT_DENY);
    }
    if matched == [] && !response.allow {
      notes := notes + [DenyByDefault];
    }
    return Ok(Decision(response.allow, req, matched, determining, cfg.revision, cfg.signature, notes));
  }

  // ----- end to end -----

  /** A request that passes validation, whose entities can be built and whose context document can be read. */
  predicate Evaluable(req: AuthzRequest, host: Host) {
    && Validate(req).Ok? && EntitiesAccepted(req, host) && PlainTarget(req) && RequestControlFree(req)
    && DistinctKeys(req.values) && KeysUnreserved(req.values)
  }

  /** The decision made by the compiled text, once it is read back, on the request's document. */
  function Outcome(ps: seq<Policy>, req: AuthzRequest, host: Host): Option<Decision> {
    match CedarText.ParseCedar(CedarOf(ps))
    case None => None
    case Some(policies) =>
      match Evaluation(req, Config(policies, "", None, host))
      case Err(_) => None
      case Ok(d) => Some(d)
  }

  predicate Allows(ps: seq<Policy>, req: AuthzRequest, host: Host) {
    var d := Outcome(ps, req, host);
    d.Some? && d.value.allow
  }

  predicate Compilable(ps: seq<Policy>) {
    AllPlain(ps) && AllWellFormed(ps)
  }

  lemma WellFormedSubjects(ps: seq<Policy>)
    requires AllWellFormed(ps)
    ensures forall p | p in ps :: "" !in p.whereSubjects
  {
    forall p | p in ps
      ensures "" !in p.whereSubjects
    {
      assert WellFormed(p);
    }
  }

  lemma EvaluationOf(req: AuthzRequest, cfg: Config)
    requires Evaluable(req, cfg.host)
    ensures Evaluation(req, cfg) == Ok(DecisionOf(Cedar.Authorize(cfg.policySet, CedarRequest(req)), req, cfg))
  {
    hide ContextJson, ReadContext, ContextOf, Cedar.Authorize, DecisionOf, PlainTarget, RequestControlFree,
      DistinctKeys, KeysUnreserved, EntityStage;
    ContextReadsBack(req);
  }

  /** An evaluation that succeeds at all read the document of a control-free request. */
  lemma {:induction false} EvaluationNeedsContext(req: AuthzRequest, cfg: Config)
    requires PlainTarget(req)
    ensures Evaluation(req, cfg).Ok? <==> Evaluable(req, cfg.host)
  {
    hide ContextJson, ReadContext, ContextOf, Cedar.Authorize, DecisionOf, PlainTarget, RequestControlFree,
      DistinctKeys, KeysUnreserved, EntityStage, Validate;
    ContextReadsBack(req);
  }

  /**
   * Compiler correctness: on the text of plain policies, printing Cedar, parsing it, building the
   * context document, reading it and deciding comes to the meaning of the policies.
   */
  lemma {:induction false} CompiledMeansPermitted(ps: seq<Policy>, req: AuthzRequest, host: Host)
    requires Compilable(ps) && Evaluable(req, host)
    ensures Outcome(ps, req, host).Some?
    ensures Allows(ps, req, host) <==> Permitted(ps, req)
  {
    hide CedarText.ParseCedar, CedarOf, Cedar.Authorize, Evaluation, Permitted, CedarRequest, Evaluable, AllPlain, AllWellFormed;
    CedarReadsBack(ps);
    EvaluationOf(req, Config(CedarPoliciesOf(ps), "", None, host));
    WellFormedSubjects(ps);
    AuthorizeIffPermitted(ps, req);
  }

  /** Compiler correctness from source text: every text that parses to plain names. */
  lemma {:induction false} SourceMeansPermitted(text: string, ps: seq<Policy>, req: AuthzRequest, host: Host)
    requires Parse(text) == Ok(ps) && AllPlain(ps) && Evaluable(req, host)
    ensures Outcome(ps, req, host).Some?
    ensures Allows(ps, req, host) <==> Permitted(ps, req)
  {
    hide Parse, Evaluable, Allows, Permitted, AllPlain, AllWellFormed;
    ParseWellFormed(text);
    CompiledMeansPermitted(ps, req, host);
  }

  /** A policy alone allows exactly the requests it holds for. */
  lemma OnePolicyAllows(p: Policy, req: AuthzRequest, host: Host)
    requires Compilable([p]) && Evaluable(req, host)
    ensures Allows([p], req, host) <==> p.effect == Allow && Holds(p, req)
  {
    hide Allows, Compilable, Evaluable, Holds, Permitted;
    CompiledMeansPermitted([p], req, host);
    PermittedAlone(p, req);
  }

  /** A manager is allowed what a policy for direct reports grants, and nobody else is. */
  lemma DirectReportsPolicyAllows(id: string, action: string, kind: string, raw: string, req: AuthzRequest, host: Host)
    requires Evaluable(req, host)
    requires Compilable([Policy(id, Allow, action, kind, [], ["DIRECT_REPORTS"], [], [], raw)])
    ensures Allows([Policy(id, Allow, action, kind, [], ["DIRECT_REPORTS"], [], [], raw)], req, host) <==>
      && action == Upper(req.action) && kind == Upper(req.resource.kind) && req.subject.Some?
      && exists rel :: rel in req.relationships && (rel.kind == ManagerOf || rel.kind == DirectReports)
                       && rel.from == req.principal.id && rel.to == req.subject.value.id
  {
    hide Allows, Compilable, Evaluable, Upper, Holds;
    var p := Policy(id, Allow, action, kind, [], ["DIRECT_REPORTS"], [], [], raw);
    OnePolicyAllows(p, req, host);
    HoldsIff(p, req);
    assert "DIRECT_REPORTS" in p.whereSubjects && "DIRECT_REPORTS" != "SELF";
    assert forall s | s in p.whereSubjects :: s == "DIRECT_REPORTS";
  }

  /** A policy for the principal itself allows exactly the requests on the principal. */
  lemma SelfPolicyAllows(id: string, action: string, kind: string, raw: string, req: AuthzRequest, host: Host)
    requires Evaluable(req, host)
    requires Compilable([Policy(id, Allow, action, kind, [], ["SELF"], [], [], raw)])
    ensures Allows([Policy(id, Allow, action, kind, [], ["SELF"], [], [], raw)], req, host) <==>
      && action == Upper(req.action) && kind == Upper(req.resource.kind)
      && req.subject.Some? && req.subject.value.id == req.principal.id
  {
    hide Allows, Compilable, Evaluable, Upper, Holds;
    var p := Policy(id, Allow, action, kind, [], ["SELF"], [], [], raw);
    OnePolicyAllows(p, req, host);
    HoldsIff(p, req);
    assert "SELF" in p.whereSubjects;
    assert forall s | s in p.whereSubjects :: s == "SELF";
  }

  /** Ordinary requests, without control characters and with context keys of their own, are always evaluable. */
  lemma OrdinaryRequestsEvaluable(req: AuthzRequest, host: Host)
    requires IsCedar(host.library) && AttributesPlain(req) && OrdinarySubject(req)
    requires Validate(req).Ok? && PlainTarget(req) && RequestControlFree(req)
    requires DistinctKeys(req.values) && KeysUnreserved(req.values)
    ensures Evaluable(req, host)
  {
    hide IsCedar, AttributesPlain, OrdinarySubject, Validate, PlainTarget, RequestControlFree, DistinctKeys, KeysUnreserved,
      EntitiesAccepted;
    PlainEntitiesAccepted(req, host);
  }

  /** The requests differ at most in the case of action and resource kind. */
  predicate SameButCase(a: AuthzRequest, b: AuthzRequest) {
    && b == a.(action := b.action, resource := a.resource.(kind := b.resource.kind))
    && Upper(a.action) == Upper(b.action) && Upper(a.resource.kind) == Upper(b.resource.kind)
  }

  lemma SameCasePlain(a: string, b: string)
    requires Upper(a) == Upper(b)
    ensures PlainName(a) <==> PlainName(b)
    ensures ControlFree(a) <==> ControlFree(b)
  {
    UpperKeepsNonLetters(a, '"');
    UpperKeepsNonLetters(a, '\\');
    UpperKeepsNonLetters(b, '"');
    UpperKeepsNonLetters(b, '\\');
    UpperControlFree(a);
    UpperControlFree(b);
    PlainNameIs(a);
    PlainNameIs(b);
  }

  lemma PlainNameIs(s: string)
    ensures PlainName(s) <==> '"' !in s && '\\' !in s
  {}

  lemma PlainKindWhole(kind: string)
    requires PlainName(kind) && ControlFree(kind)
    ensures FateOf(kind) == Whole
  {
    PlainNameIs(kind);
    assert '\r' !in kind;
    PlainIsWhole(kind);
  }

  lemma SameEntities(a: AuthzRequest, b: AuthzRequest, host: Host)
    requires IsCedar(host.library) && SameButCase(a, b) && EntitiesAccepted(a, host)
    requires PlainName(b.resource.kind) && ControlFree(b.resource.kind)
    ensures EntitiesAccepted(b, host)
  {
    hide Entities.ReadsAttribute, FailsAttribute, Nodes, Acyclic, FateOf, Upper, SubjectType, PlainName, ControlFree, Literal, SetsAccepted;
    NodesAcyclicIff(a, host.groupMembers);
    NodesAcyclicIff(b, host.groupMembers);
    assert OwnParent(a, host.groupMembers) == OwnParent(b, host.groupMembers);
    PlainKindWhole(b.resource.kind);
    LiteralReads(b.resource.kind);
    var was, now := ResourceStrings(a), ResourceStrings(b);
    forall i | 0 <= i < |now|
      ensures host.library.attribute(Literal(now[i]))
    {
      if i > 0 { assert now[i] == was[i]; }
    }
    assert PrincipalSets(a) == PrincipalSets(b) && PrincipalStrings(a) == PrincipalStrings(b);
    assert SubjectSets(a) == SubjectSets(b) && SubjectStrings(a) == SubjectStrings(b);
  }

  lemma CaseKeepsEvaluable(a: AuthzRequest, b: AuthzRequest, host: Host)
    requires IsCedar(host.library) && SameButCase(a, b) && Evaluable(a, host)
    ensures Evaluable(b, host)
  {
    hide IsCedar, EntitiesAccepted, Upper, Trim, PlainName, ControlFree, AllControlFree, DistinctKeys, KeysUnreserved;
    SameCaseBlank(a.action, b.action);
    SameCaseBlank(a.resource.kind, b.resource.kind);
    SameCasePlain(a.action, b.action);
    SameCasePlain(a.resource.kind, b.resource.kind);
    SameEntities(a, b, host);
  }

  /** Two evaluable requests that differ only in case are decided alike. */
  lemma SameDecision(ps: seq<Policy>, a: AuthzRequest, b: AuthzRequest, host: Host)
    requires Compilable(ps) && SameButCase(a, b) && Evaluable(a, host) && Evaluable(b, host)
    ensures Allows(ps, a, host) <==> Allows(ps, b, host)
  {
    hide Allows, Evaluable, Compilable, Outcome, Upper, Overlap;
    CompiledMeansPermitted(ps, a, host);
    CompiledMeansPermitted(ps, b, host);
    assert SubjectInDirectReports(a) == SubjectInDirectReports(b);
    assert forall s :: SubjectMatches(s, a) == SubjectMatches(s, b);
    assert forall p :: Holds(p, a) <==> Holds(p, b);
  }

  /** Action and resource kind are case-insensitive: neither whether a request is decided nor how depends on their case. */
  lemma CaseIrrelevant(ps: seq<Policy>, a: AuthzRequest, b: AuthzRequest, host: Host)
    requires IsCedar(host.library) && Compilable(ps) && SameButCase(a, b)
    ensures Evaluable(a, host) <==> Evaluable(b, host)
    ensures Evaluable(a, host) ==> (Allows(ps, a, host) <==> Allows(ps, b, host))
  {
    hide IsCedar, Allows, Evaluable, Compilable, Upper;
    assert SameButCase(b, a);
    if Evaluable(a, host) { CaseKeepsEvaluable(a, b, host); }
    if Evaluable(b, host) { CaseKeepsEvaluable(b, a, host); }
    if Evaluable(a, host) { SameDecision(ps, a, b, host); }
  }

  lemma {:induction false} RawNotPrinted(ps: seq<Policy>)
    ensures PolicyTexts(UnrawAll(ps)) == PolicyTexts(ps)
    decreases ps
  {
    if ps != [] {
      assert UnrawAll(ps)[1..] == UnrawAll(ps[1..]);
      assert PolicyText(UnrawPolicy(ps[0])) == PolicyText(ps[0]) by { hide Join; }
      RawNotPrinted(ps[1..]);
    }
  }

  /** The source text kept in a policy has no part in its compilation. */
  lemma {:induction false} RawIrrelevant(ps: seq<Policy>, req: AuthzRequest, host: Host)
    ensures CedarOf(UnrawAll(ps)) == CedarOf(ps)
    ensures Outcome(UnrawAll(ps), req, host) == Outcome(ps, req, host)
    ensures Allows(UnrawAll(ps), req, host) <==> Allows(ps, req, host)
  {
    hide PolicyTexts, CedarText.ParseCedar, Evaluation;
    RawNotPrinted(ps);
  }

  // ----- the evidence -----

  function Deciding(ps: seq<Policy>, req: AuthzRequest, allow: bool): seq<string> {
    if ps == [] then []
    else (if (ps[0].effect == Allow) == allow && Holds(ps[0], req) then [ps[0].id] else [])
         + Deciding(ps[1..], req, allow)
  }

  function Ids(cs: seq<Cedar.CedarPolicy>): (r: seq<string>)
    ensures |r| == |cs| && forall i | 0 <= i < |cs| :: r[i] == cs[i].id
  {
    seq(|cs|, i requires 0 <= i < |cs| => cs[i].id)
  }

  lemma {:induction false} ApplicableAreDeciding(ps: seq<Policy>, req: AuthzRequest, allow: bool)
    requires forall p | p in ps :: "" !in p.whereSubjects
    ensures Ids(Cedar.Applicable(CedarPoliciesOf(ps), allow, CedarRequest(req))) == Deciding(ps, req, allow)
  {
    hide Cedar.Applies, Holds, CedarRequest, CedarPolicyOf;
    if ps != [] {
      assert forall p | p in ps[1..] :: p in ps;
      assert ps[0] in ps;
      ApplicableAreDeciding(ps[1..], req, allow);
      AppliesIffHolds(ps[0], req);
      TranslatedHead(ps[0]);
      assert CedarPoliciesOf(ps)[1..] == CedarPoliciesOf(ps[1..]);
      var rest := Cedar.Applicable(CedarPoliciesOf(ps[1..]), allow, CedarRequest(req));
      IdsCons(CedarPolicyOf(ps[0]), rest);
    }
  }

  lemma TranslatedHead(p: Policy)
    ensures CedarPolicyOf(p).id == p.id && CedarPolicyOf(p).permit == (p.effect == Allow)
  {
    hide AllExpr, Parts;
  }

  lemma IdsCons(c: Cedar.CedarPolicy, rest: seq<Cedar.CedarPolicy>)
    ensures Ids([c] + rest) == [c.id] + Ids(rest) && Ids([] + rest) == [] + Ids(rest)
  {
    assert [] + rest == rest;
  }

  function MatchedIds(d: Decision): (r: seq<string>)
    ensures |r| == |d.matched| && forall i | 0 <= i < |d.matched| :: r[i] == d.matched[i].id
  {
    seq(|d.matched|, i requires 0 <= i < |d.matched| => d.matched[i].id)
  }

  /**
   * The evidence of a decision names exactly the policies that decided it, there is always a
   * determining one, nothing was skipped because of an error, and default denial is noted.
   */
  lemma {:induction false} EvidenceIsExact(ps: seq<Policy>, req: AuthzRequest, d: Decision, host: Host)
    requires Compilable(ps) && Evaluable(req, host) && Outcome(ps, req, host) == Some(d)
    ensures MatchedIds(d) == if Deciding(ps, req, false) != [] then Deciding(ps, req, false) else Deciding(ps, req, true)
    ensures forall m | m in d.matched :: m.allow == d.allow && m.reason == "matched by Cedar evaluator"
    ensures d.determining == Some(if d.matched != [] then d.matched[0]
                                  else MatchedPolicy("deny-by-default", false, "no permit matched or explicit forbid"))
    ensures d.notes == if d.matched == [] then [DenyByDefault] else []
  {
    hide CedarText.ParseCedar, CedarOf, Cedar.Applicable, Evaluation, CedarRequest, Evaluable, AllPlain, AllWellFormed, Deciding, Cedar.Errors;
    CedarReadsBack(ps);
    EvaluationOf(req, Config(CedarPoliciesOf(ps), "", None, host));
    WellFormedSubjects(ps);
    ApplicableAreDeciding(ps, req, false);
    ApplicableAreDeciding(ps, req, true);
    NoErrors(ps, req);
    var resp := Cedar.Authorize(CedarPoliciesOf(ps), CedarRequest(req));
    assert MatchedIds(d) == Ids(resp.reasons);
  }

  // ----- the algebra of policy sets -----

  lemma CompilableSubset(ps: seq<Policy>, qs: seq<Policy>)
    requires Compilable(ps) && forall q | q in qs :: q in ps
    ensures Compilable(qs)
  {
    hide WellFormed, PlainPolicy;
  }

  /** Order and repetition of policies do not matter. */
  lemma {:induction false} OrderIrrelevant(ps: seq<Policy>, qs: seq<Policy>, req: AuthzRequest, host: Host)
    requires Compilable(ps) && Evaluable(req, host)
    requires forall p :: p in ps <==> p in qs
    ensures Allows(ps, req, host) <==> Allows(qs, req, host)
  {
    hide Allows, Evaluable, Holds, Compilable, Outcome;
    CompilableSubset(ps, qs);
    CompiledMeansPermitted(ps, req, host);
    CompiledMeansPermitted(qs, req, host);
  }

  /** More deny and review policies never turn a denial into an allowance. */
  lemma {:induction false} AddingDenials(ps: seq<Policy>, qs: seq<Policy>, req: AuthzRequest, host: Host)
    requires Compilable(ps + qs) && Evaluable(req, host)
    requires forall q | q in qs :: q.effect != Allow
    ensures Allows(ps + qs, req, host) <==> Allows(ps, req, host) && !(exists q :: q in qs && Holds(q, req))
  {
    hide Allows, Evaluable, Holds, Compilable, Outcome;
    CompilableSubset(ps + qs, ps);
    CompiledMeansPermitted(ps + qs, req, host);
    CompiledMeansPermitted(ps, req, host);
    PermittedAppend(ps, qs, req);
  }

  /** More allow policies never turn an allowance into a denial. */
  lemma {:induction false} AddingAllowances(ps: seq<Policy>, qs: seq<Policy>, req: AuthzRequest, host: Host)
    requires Compilable(ps + qs) && Evaluable(req, host)
    requires forall q | q in qs :: q.effect == Allow
    ensures Allows(ps, req, host) ==> Allows(ps + qs, req, host)
  {
    hide Allows, Evaluable, Holds, Compilable, Outcome;
    CompilableSubset(ps + qs, ps);
    CompiledMeansPermitted(ps + qs, req, host);
    CompiledMeansPermitted(ps, req, host);
    PermittedAppend(ps, qs, req);
  }

  lemma PermittedAppend(ps: seq<Policy>, qs: seq<Policy>, req: AuthzRequest)
    ensures (forall q | q in qs :: q.effect != Allow) ==>
      (Permitted(ps + qs, req) <==> Permitted(ps, req) && !(exists q :: q in qs && Holds(q, req)))
    ensures (forall q | q in qs :: q.effect == Allow) ==> (Permitted(ps, req) ==> Permitted(ps + qs, req))
  {
    hide Holds;
    assert forall p :: p in ps + qs <==> p in ps || p in qs;
  }

  /** Policies whose allowances no role can lose and whose denials no role can gain. */
  predicate RoleMonotone(ps: seq<Policy>) {
    forall p | p in ps :: if p.effect == Allow then p.unlessRoles == [] else p.whenRoles == []
  }

  lemma HoldsMonotone(p: Policy, req: AuthzRequest, roles: seq<string>)
    requires forall r | r in req.principal.roles :: r in roles
    ensures var more := req.(principal := req.principal.(roles := roles));
            && (p.unlessRoles == [] && Holds(p, req) ==> Holds(p, more))
            && (p.whenRoles == [] && Holds(p, more) ==> Holds(p, req))
  {
    hide Upper, SubjectInDirectReports;
    var more := req.(principal := req.principal.(roles := roles));
    assert SubjectInDirectReports(more) == SubjectInDirectReports(req) by { SameReports(req, roles); }
    assert forall s :: SubjectMatches(s, more) == SubjectMatches(s, req);
    assert forall xs :: Overlap(xs, req.principal.roles) ==> Overlap(xs, roles);
  }

  lemma SameReports(req: AuthzRequest, roles: seq<string>)
    ensures SubjectInDirectReports(req.(principal := req.principal.(roles := roles))) == SubjectInDirectReports(req)
  {}

  /** Under role-monotone policies, more roles never lose access. */
  lemma {:induction false} MoreRolesKeepAccess(ps: seq<Policy>, req: AuthzRequest, roles: seq<string>, host: Host)
    requires Compilable(ps) && RoleMonotone(ps)
    requires forall r | r in req.principal.roles :: r in roles
    requires Evaluable(req, host) && Evaluable(req.(principal := req.principal.(roles := roles)), host)
    ensures Allows(ps, req, host) ==> Allows(ps, req.(principal := req.principal.(roles := roles)), host)
  {
    hide Allows, Evaluable, Holds, Compilable, Outcome;
    var more := req.(principal := req.principal.(roles := roles));
    CompiledMeansPermitted(ps, req, host);
    CompiledMeansPermitted(ps, more, host);
    forall p | p in ps
      ensures p.effect == Allow && Holds(p, req) ==> Holds(p, more)
      ensures p.effect != Allow && Holds(p, more) ==> Holds(p, req)
    {
      HoldsMonotone(p, req, roles);
    }
  }
}
