/** What policies mean, and that compiling, reading back and evaluating them means the same. */
module Semantics {
  import opened Text
  import opened Dsl
  import opened Requests
  import opened Contexts
  import opened Translate
  import Cedar

  // ----- the meaning of the policy language -----

  predicate Overlap(xs: seq<string>, ys: seq<string>) {
    exists x :: x in xs && x in ys
  }

  predicate SubjectMatches(s: string, req: AuthzRequest) {
    if s == "SELF" then SubjectIsSelf(req)
    else if s == "DIRECT_REPORTS" then SubjectInDirectReports(req)
    else req.subject.Some? && req.subject.value.id == s
  }

  /**
   * The policy is about the request: `where` and `or` lines form one disjunction over subjects and
   * another over groups, an absent list does not restrict, and no `unless` role may be held.
   */
  predicate Holds(p: Policy, req: AuthzRequest) {
    && p.resource == Upper(req.resource.kind)
    && p.action == Upper(req.action)
    && (p.whenRoles == [] || Overlap(p.whenRoles, req.principal.roles))
    && (p.whereSubjects == [] || exists s :: s in p.whereSubjects && SubjectMatches(s, req))
    && (p.whereGroups == [] || Overlap(p.whereGroups, SubjectGroups(req)))
    && !Overlap(p.unlessRoles, req.principal.roles)
  }

  lemma SubjectMatchesIff(s: string, req: AuthzRequest)
    ensures SubjectMatches(s, req) <==>
      && req.subject.Some?
      && (if s == "SELF" then req.subject.value.id == req.principal.id
          else if s == "DIRECT_REPORTS" then
            (exists rel :: rel in req.relationships && (rel.kind == ManagerOf || rel.kind == DirectReports)
                           && rel.from == req.principal.id && rel.to == req.subject.value.id)
          else req.subject.value.id == s)
  {
    SubjectFlags(req);
  }

  /** The meaning of a policy, in terms of the request alone. */
  lemma HoldsIff(p: Policy, req: AuthzRequest)
    ensures Holds(p, req) <==>
      && p.action == Upper(req.action) && p.resource == Upper(req.resource.kind)
      && (p.whenRoles != [] ==> exists r :: r in p.whenRoles && r in req.principal.roles)
      && (p.whereSubjects != [] ==>
            && req.subject.Some?
            && exists s ::
                 && s in p.whereSubjects
                 && (if s == "SELF" then req.subject.value.id == req.principal.id
                     else if s == "DIRECT_REPORTS" then
                       (exists rel :: rel in req.relationships && (rel.kind == ManagerOf || rel.kind == DirectReports)
                                      && rel.from == req.principal.id && rel.to == req.subject.value.id)
                     else req.subject.value.id == s))
      && (p.whereGroups != [] ==> req.subject.Some? && exists g :: g in p.whereGroups && g in req.subject.value.groups)
      && (forall r | r in p.unlessRoles :: r !in req.principal.roles)
  {
    hide Upper, SubjectIsSelf, SubjectInDirectReports, SubjectMatches;
    forall s { SubjectMatchesIff(s, req); }
  }

  /** Deny by default, and a deny or review overrides every allow. */
  predicate Permitted(ps: seq<Policy>, req: AuthzRequest) {
    && (exists p :: p in ps && p.effect == Allow && Holds(p, req))
    && !(exists p :: p in ps && p.effect != Allow && Holds(p, req))
  }

  lemma PermittedAlone(p: Policy, req: AuthzRequest)
    ensures Permitted([p], req) <==> p.effect == Allow && Holds(p, req)
  {
    hide Holds;
    assert p in [p];
  }

  // ----- evaluating translated conditions -----

  predicate KnownAtom(a: Atom) {
    match a
    case Has(attr, _) => attr == "principal_roles" || attr == "subject_groups"
    case Is(attr, _) => attr == "resource_kind" || attr == "action_name" || attr == "subject_id"
    case Flag(attr) => attr == "subject_is_self" || attr == "subject_in_direct_reports"
  }

  predicate AtomTruth(a: Atom, req: AuthzRequest) {
    match a
    case Has(attr, v) => if attr == "principal_roles" then v in req.principal.roles else v in SubjectGroups(req)
    case Is(attr, v) =>
      if attr == "resource_kind" then v == Upper(req.resource.kind)
      else if attr == "action_name" then v == Upper(req.action)
      else v == SubjectId(req)
    case Flag(attr) => if attr == "subject_is_self" then SubjectIsSelf(req) else SubjectInDirectReports(req)
  }

  predicate AnyTruth(atoms: seq<Atom>, req: AuthzRequest) {
    exists a :: a in atoms && AtomTruth(a, req)
  }

  predicate PartTruth(p: Part, req: AuthzRequest) {
    match p
    case One(a) => AtomTruth(a, req)
    case AnyOf(atoms) => AnyTruth(atoms, req)
    case NoneOf(atoms) => !AnyTruth(atoms, req)
  }

  predicate KnownPart(p: Part) {
    match p
    case One(a) => KnownAtom(a)
    case AnyOf(atoms) => atoms != [] && forall a | a in atoms :: KnownAtom(a)
    case NoneOf(atoms) => atoms != [] && forall a | a in atoms :: KnownAtom(a)
  }

  lemma AttributeValues(req: AuthzRequest)
    ensures var c := ContextOf(req);
            && "principal_roles" in c && c["principal_roles"] == Cedar.Set(StrSet(req.principal.roles))
            && "subject_groups" in c && c["subject_groups"] == Cedar.Set(StrSet(SubjectGroups(req)))
            && "resource_kind" in c && c["resource_kind"] == Cedar.Str(Upper(req.resource.kind))
            && "action_name" in c && c["action_name"] == Cedar.Str(Upper(req.action))
            && "subject_id" in c && c["subject_id"] == Cedar.Str(SubjectId(req))
            && "subject_is_self" in c && c["subject_is_self"] == Cedar.Bool(SubjectIsSelf(req))
            && "subject_in_direct_reports" in c
            && c["subject_in_direct_reports"] == Cedar.Bool(SubjectInDirectReports(req))
  {
    hide Upper, SubjectIsSelf, SubjectInDirectReports, SubjectId, SubjectGroups, StrSet, ValuesRecord;
  }

  /** Every attribute a translated test reads is present with the type it needs. */
  lemma EvalAtom(a: Atom, req: AuthzRequest)
    requires KnownAtom(a)
    ensures Cedar.Eval(AtomExpr(a), ContextOf(req)) == Cedar.EvalResult.Ok(Cedar.Bool(AtomTruth(a, req)))
  {
    hide ContextOf, Upper, SubjectIsSelf, SubjectInDirectReports, SubjectId, SubjectGroups;
    var c := ContextOf(req);
    AttributeValues(req);
    assert Cedar.Eval(Cedar.Attr(Cedar.ContextVar, a.attr), c) == Ok(c[a.attr]);
  }

  lemma {:induction false} EvalOrChain(left: Cedar.Expr, b: bool, atoms: seq<Atom>, req: AuthzRequest)
    requires Cedar.Eval(left, ContextOf(req)) == Ok(Cedar.Bool(b))
    requires forall a | a in atoms :: KnownAtom(a)
    ensures Cedar.Eval(OrChain(left, atoms), ContextOf(req)) == Ok(Cedar.Bool(b || AnyTruth(atoms, req)))
    decreases atoms
  {
    hide ContextOf, KnownAtom, AtomTruth, AtomExpr;
    if atoms == [] {
    } else {
      var a, rest := atoms[0], atoms[1..];
      assert a in atoms;
      assert forall x | x in rest :: x in atoms;
      EvalAtom(a, req);
      EvalOrChain(Cedar.Or(left, AtomExpr(a)), b || AtomTruth(a, req), rest, req);
      AnyTruthCons(atoms, req);
    }
  }

  lemma AnyTruthCons(atoms: seq<Atom>, req: AuthzRequest)
    requires atoms != []
    ensures AnyTruth(atoms, req) <==> AtomTruth(atoms[0], req) || AnyTruth(atoms[1..], req)
  {
    hide AtomTruth;
    assert forall a :: a in atoms <==> a == atoms[0] || a in atoms[1..];
  }

  lemma EvalPart(p: Part, req: AuthzRequest)
    requires KnownPart(p)
    ensures PartOk(p) && Cedar.Eval(PartExpr(p), ContextOf(req)) == Ok(Cedar.Bool(PartTruth(p, req)))
  {
    hide ContextOf, KnownAtom, AtomTruth, AtomExpr, OrChain;
    match p
    case One(a) => EvalAtom(a, req);
    case AnyOf(atoms) => EvalAny(atoms, req);
    case NoneOf(atoms) => EvalAny(atoms, req);
  }

  lemma EvalAny(atoms: seq<Atom>, req: AuthzRequest)
    requires atoms != [] && forall a | a in atoms :: KnownAtom(a)
    ensures Cedar.Eval(AnyExpr(atoms), ContextOf(req)) == Ok(Cedar.Bool(AnyTruth(atoms, req)))
  {
    hide ContextOf, KnownAtom, AtomTruth, AtomExpr, OrChain;
    assert atoms[0] in atoms;
    assert forall x | x in atoms[1..] :: x in atoms;
    EvalAtom(atoms[0], req);
    EvalOrChain(AtomExpr(atoms[0]), AtomTruth(atoms[0], req), atoms[1..], req);
    AnyTruthCons(atoms, req);
  }

  predicate AllTruth(parts: seq<Part>, req: AuthzRequest) {
    forall p | p in parts :: PartTruth(p, req)
  }

  lemma AllTruthCons(parts: seq<Part>, req: AuthzRequest)
    requires parts != []
    ensures AllTruth(parts, req) <==> PartTruth(parts[0], req) && AllTruth(parts[1..], req)
  {
    hide PartTruth;
    assert forall p :: p in parts <==> p == parts[0] || p in parts[1..];
  }

  lemma {:induction false} EvalAndChain(left: Cedar.Expr, b: bool, parts: seq<Part>, req: AuthzRequest)
    requires Cedar.Eval(left, ContextOf(req)) == Ok(Cedar.Bool(b))
    requires forall p | p in parts :: KnownPart(p) && PartOk(p)
    ensures Cedar.Eval(AndChain(left, parts), ContextOf(req)) == Ok(Cedar.Bool(b && AllTruth(parts, req)))
    decreases parts
  {
    hide ContextOf, KnownPart, PartOk, PartTruth, PartExpr;
    if parts == [] {
    } else {
      var p, rest := parts[0], parts[1..];
      assert p in parts;
      assert forall x | x in rest :: x in parts;
      EvalPart(p, req);
      EvalAndChain(Cedar.And(left, PartExpr(p)), b && PartTruth(p, req), rest, req);
      AllTruthCons(parts, req);
    }
  }

  lemma EvalAll(parts: seq<Part>, req: AuthzRequest)
    requires parts != [] && forall p | p in parts :: KnownPart(p) && PartOk(p)
    ensures Cedar.Eval(AllExpr(parts), ContextOf(req)) == Ok(Cedar.Bool(AllTruth(parts, req)))
  {
    hide ContextOf, KnownPart, PartOk, PartTruth, PartExpr, AndChain;
    assert parts[0] in parts;
    assert forall x | x in parts[1..] :: x in parts;
    EvalPart(parts[0], req);
    EvalAndChain(PartExpr(parts[0]), PartTruth(parts[0], req), parts[1..], req);
    AllTruthCons(parts, req);
  }

  lemma PartsKnown(p: Policy)
    ensures forall q | q in Parts(p) :: KnownPart(q)
  {}

  /** No translated condition ever errs: it evaluates to a truth value on every request's record. */
  lemma {:induction false} TranslatedNeverErrs(p: Policy, req: AuthzRequest)
    ensures Cedar.Eval(CedarPolicyOf(p).condition, ContextOf(req)) == Ok(Cedar.Bool(AllTruth(Parts(p), req)))
  {
    hide ContextOf, KnownPart, PartOk, PartTruth, Parts, AllExpr;
    PartsKnown(p);
    PartsOk(p);
    EvalAll(Parts(p), req);
  }

  // ----- the condition means the policy -----

  lemma RolesTruth(roles: seq<string>, req: AuthzRequest)
    ensures AnyTruth(RoleAtoms(roles), req) <==> Overlap(roles, req.principal.roles)
  {
    var atoms := RoleAtoms(roles);
    if x :| x in roles && x in req.principal.roles {
      var i :| 0 <= i < |roles| && roles[i] == x;
      assert atoms[i] in atoms && AtomTruth(atoms[i], req);
    }
  }

  lemma GroupsTruth(groups: seq<string>, req: AuthzRequest)
    ensures AnyTruth(GroupAtoms(groups), req) <==> Overlap(groups, SubjectGroups(req))
  {
    hide SubjectGroups;
    var atoms := GroupAtoms(groups);
    if x :| x in groups && x in SubjectGroups(req) {
      var i :| 0 <= i < |groups| && groups[i] == x;
      assert atoms[i] in atoms && AtomTruth(atoms[i], req);
    }
  }

  lemma SubjectAtomTruth(s: string, req: AuthzRequest)
    requires s != ""
    ensures AtomTruth(SubjectAtom(s), req) <==> SubjectMatches(s, req)
  {
    hide SubjectIsSelf, SubjectInDirectReports;
  }

  lemma SubjectsTruth(subjects: seq<string>, req: AuthzRequest)
    requires "" !in subjects
    ensures AnyTruth(SubjectAtoms(subjects), req) <==> exists s :: s in subjects && SubjectMatches(s, req)
  {
    hide SubjectMatches, AtomTruth, SubjectAtom;
    var atoms := SubjectAtoms(subjects);
    if s :| s in subjects && SubjectMatches(s, req) {
      var i :| 0 <= i < |subjects| && subjects[i] == s;
      SubjectAtomTruth(s, req);
      assert atoms[i] in atoms && AtomTruth(atoms[i], req);
    }
    if a :| a in atoms && AtomTruth(a, req) {
      var i :| 0 <= i < |atoms| && atoms[i] == a;
      SubjectAtomTruth(subjects[i], req);
      assert subjects[i] in subjects && SubjectMatches(subjects[i], req);
    }
  }

  function KindTest(p: Policy): Part { One(Is("resource_kind", p.resource)) }

  function ActionTest(p: Policy): Part { One(Is("action_name", p.action)) }

  predicate IsPart(p: Policy, q: Part) {
    || q == KindTest(p) || q == ActionTest(p)
    || (p.whenRoles != [] && q == AnyOf(RoleAtoms(p.whenRoles)))
    || (p.whereSubjects != [] && q == AnyOf(SubjectAtoms(p.whereSubjects)))
    || (p.whereGroups != [] && q == AnyOf(GroupAtoms(p.whereGroups)))
    || (p.unlessRoles != [] && q == NoneOf(RoleAtoms(p.unlessRoles)))
  }

  lemma PartsAre(p: Policy, q: Part)
    ensures q in Parts(p) <==> IsPart(p, q)
  {
    hide RoleAtoms, SubjectAtoms, GroupAtoms;
    assert Parts(p)[0] == KindTest(p) && Parts(p)[1] == ActionTest(p);
  }

  lemma PartsTruth(p: Policy, req: AuthzRequest)
    requires "" !in p.whereSubjects
    ensures AllTruth(Parts(p), req) <==> Holds(p, req)
  {
    hide AnyTruth, Overlap, SubjectMatches, SubjectGroups, Upper, Parts, RoleAtoms, SubjectAtoms, GroupAtoms;
    RolesTruth(p.whenRoles, req);
    SubjectsTruth(p.whereSubjects, req);
    GroupsTruth(p.whereGroups, req);
    RolesTruth(p.unlessRoles, req);
    NothingOverlaps(req.principal.roles);
    forall q
      ensures q in Parts(p) <==> IsPart(p, q)
    {
      PartsAre(p, q);
    }
    assert IsPart(p, KindTest(p)) && IsPart(p, ActionTest(p));
    assert p.whenRoles != [] ==> IsPart(p, AnyOf(RoleAtoms(p.whenRoles)));
    assert p.whereSubjects != [] ==> IsPart(p, AnyOf(SubjectAtoms(p.whereSubjects)));
    assert p.whereGroups != [] ==> IsPart(p, AnyOf(GroupAtoms(p.whereGroups)));
    assert p.unlessRoles != [] ==> IsPart(p, NoneOf(RoleAtoms(p.unlessRoles)));
  }

  lemma NothingOverlaps(ys: seq<string>)
    ensures !Overlap([], ys)
  {}

  function CedarRequest(req: AuthzRequest): Cedar.Request {
    Cedar.Request(Upper(req.action), ContextOf(req))
  }

  /**
   * A translated policy applies exactly when the policy holds; the action in its head and the
   * action in its condition never disagree.
   */
  lemma {:induction false} AppliesIffHolds(p: Policy, req: AuthzRequest)
    requires "" !in p.whereSubjects
    ensures Cedar.Applies(CedarPolicyOf(p), CedarRequest(req)) == Ok(Holds(p, req))
    ensures Cedar.Applies(CedarPolicyOf(p), CedarRequest(req))
         == match Cedar.AsBool(Cedar.Eval(CedarPolicyOf(p).condition, ContextOf(req)))
            case Ok(v) => Ok(v == Cedar.Bool(true))
            case Err(x) => Err(x)
  {
    hide ContextOf, AllTruth, Parts, AllExpr;
    TranslatedNeverErrs(p, req);
    PartsTruth(p, req);
  }

  lemma {:induction false} AuthorizeIffPermitted(ps: seq<Policy>, req: AuthzRequest)
    requires forall p | p in ps :: "" !in p.whereSubjects
    ensures Cedar.Authorize(CedarPoliciesOf(ps), CedarRequest(req)).allow <==> Permitted(ps, req)
  {
    hide Cedar.Applies, Cedar.Authorize, Holds, CedarRequest;
    var cs := CedarPoliciesOf(ps);
    Cedar.AuthorizeIff(cs, CedarRequest(req));
    forall p | p in ps
      ensures CedarPolicyOf(p) in cs
      ensures Cedar.Applies(CedarPolicyOf(p), CedarRequest(req)) == Ok(Holds(p, req))
    {
      var i :| 0 <= i < |ps| && ps[i] == p;
      assert cs[i] in cs;
      AppliesIffHolds(p, req);
    }
    forall c | c in cs
      ensures exists p :: p in ps && c == CedarPolicyOf(p)
    {
      var i :| 0 <= i < |cs| && cs[i] == c;
      assert ps[i] in ps;
    }
  }

  lemma {:induction false} NoErrors(ps: seq<Policy>, req: AuthzRequest)
    ensures Cedar.Errors(CedarPoliciesOf(ps), CedarRequest(req)) == []
  {
    hide ContextOf, CedarPolicyOf, AllTruth, Cedar.Eval;
    if ps != [] {
      TranslatedNeverErrs(ps[0], req);
      NoErrors(ps[1..], req);
      assert CedarPoliciesOf(ps)[1..] == CedarPoliciesOf(ps[1..]);
    }
  }
}
