/** Translation of policies to Cedar text, and what that text reads as: translate.rs. */
module Translate {
  import opened Text
  import Dsl
  import opened Cedar

  // ----- conditions as data -----

  /** An elementary test on the request context. */
  datatype Atom =
    | Has(attr: string, v: string)
    | Is(attr: string, v: string)
    | Flag(attr: string)

  /** A conjunct of a condition: one test, a disjunction of tests, or a negated disjunction. */
  datatype Part =
    | One(atom: Atom)
    | AnyOf(atoms: seq<Atom>)
    | NoneOf(atoms: seq<Atom>)

  function SubjectAtom(s: string): Atom {
    if s == "SELF" then Flag("subject_is_self")
    else if s == "DIRECT_REPORTS" then Flag("subject_in_direct_reports")
    else Is("subject_id", s)
  }

  function RoleAtoms(roles: seq<string>): (r: seq<Atom>)
    ensures |r| == |roles|
    ensures forall i | 0 <= i < |roles| :: r[i] == Has("principal_roles", roles[i])
  {
    seq(|roles|, i requires 0 <= i < |roles| => Has("principal_roles", roles[i]))
  }

  function SubjectAtoms(subjects: seq<string>): (r: seq<Atom>)
    ensures |r| == |subjects|
    ensures forall i | 0 <= i < |subjects| :: r[i] == SubjectAtom(subjects[i])
  {
    seq(|subjects|, i requires 0 <= i < |subjects| => SubjectAtom(subjects[i]))
  }

  function GroupAtoms(groups: seq<string>): (r: seq<Atom>)
    ensures |r| == |groups|
    ensures forall i | 0 <= i < |groups| :: r[i] == Has("subject_groups", groups[i])
  {
    seq(|groups|, i requires 0 <= i < |groups| => Has("subject_groups", groups[i]))
  }

  function Optional(parts: seq<Part>, present: bool): seq<Part> {
    if present then parts else []
  }

  /** The conjuncts of a policy's condition, in the order of the text. */
  function Parts(p: Dsl.Policy): seq<Part> {
    [One(Is("resource_kind", p.resource)), One(Is("action_name", p.action))]
    + Optional([AnyOf(RoleAtoms(p.whenRoles))], p.whenRoles != [])
    + Optional([AnyOf(SubjectAtoms(p.whereSubjects))], p.whereSubjects != [])
    + Optional([AnyOf(GroupAtoms(p.whereGroups))], p.whereGroups != [])
    + Optional([NoneOf(RoleAtoms(p.unlessRoles))], p.unlessRoles != [])
  }

  // ----- the text -----

  function AtomText(a: Atom): string {
    match a
    case Has(attr, v) => "context." + attr + ".contains(\"" + v + "\")"
    case Is(attr, v) => "context." + attr + " == \"" + v + "\""
    case Flag(attr) => "context." + attr
  }

  function AtomTexts(atoms: seq<Atom>): (r: seq<string>)
    ensures |r| == |atoms|
    ensures forall i | 0 <= i < |atoms| :: r[i] == AtomText(atoms[i])
  {
    seq(|atoms|, i requires 0 <= i < |atoms| => AtomText(atoms[i]))
  }

  function PartText(p: Part): string {
    match p
    case One(a) => AtomText(a)
    case AnyOf(atoms) => "(" + Join(AtomTexts(atoms), " || ") + ")"
    case NoneOf(atoms) => "!(" + Join(AtomTexts(atoms), " || ") + ")"
  }

  function PartTexts(parts: seq<Part>): (r: seq<string>)
    ensures |r| == |parts|
    ensures forall i | 0 <= i < |parts| :: r[i] == PartText(parts[i])
  {
    seq(|parts|, i requires 0 <= i < |parts| => PartText(parts[i]))
  }

  function EffectWord(e: Dsl.Effect): string {
    match e
    case Allow => "permit"
    case Deny => "forbid"
    case Review => "forbid"
  }

  function Frame(id: string, effect: string, action: string, condition: string): string {
    "@id(" + "\"" + id + "\"" + ")\n" + effect + " (\n  principal,\n  action == Action::" + "\"" + action + "\""
    + ",\n  resource\n) when {\n  " + condition + "\n};\n"
  }

  function PolicyText(p: Dsl.Policy): string {
    Frame(p.id, EffectWord(p.effect), p.action, Join(PartTexts(Parts(p)), " &&\n  "))
  }

  const COMMENT := " Generated by authz-policy from PAAC DSL"

  const HEADER := "//" + COMMENT + "\n"

  function PolicyTexts(ps: seq<Dsl.Policy>): string {
    if ps == [] then "" else PolicyText(ps[0]) + "\n" + PolicyTexts(ps[1..])
  }

  /** What `dsl_to_cedar` returns. */
  function CedarOf(ps: seq<Dsl.Policy>): string {
    HEADER + PolicyTexts(ps)
  }

  // ----- the translation as written -----

  lemma RoleCheckText(r: string)
    ensures "context.principal_roles.contains(\"" + r + "\")" == AtomText(Has("principal_roles", r))
  {
    assert "context.principal_roles.contains(\"" == "context." + "principal_roles" + ".contains(\"";
  }

  lemma GroupCheckText(g: string)
    ensures "context.subject_groups.contains(\"" + g + "\")" == AtomText(Has("subject_groups", g))
  {
    assert "context.subject_groups.contains(\"" == "context." + "subject_groups" + ".contains(\"";
  }

  lemma SelfText()
    ensures "context.subject_is_self" == AtomText(Flag("subject_is_self"))
  {
    assert "context.subject_is_self" == "context." + "subject_is_self";
  }

  lemma DirectReportsText()
    ensures "context." + "subject_in_direct_reports" == AtomText(Flag("subject_in_direct_reports"))
  {}

  lemma SubjectIdText(s: string)
    ensures "context.subject_id == \"" + s + "\"" == AtomText(Is("subject_id", s))
  {
    assert "context.subject_id == \"" == "context." + "subject_id" + " == \"";
  }

  lemma HeadTexts(p: Dsl.Policy)
    ensures "context.resource_kind == \"" + p.resource + "\"" == AtomText(Is("resource_kind", p.resource))
    ensures "context.action_name == \"" + p.action + "\"" == AtomText(Is("action_name", p.action))
  {
    assert "context.resource_kind == \"" == "context." + "resource_kind" + " == \"";
    assert "context.action_name == \"" == "context." + "action_name" + " == \"";
  }

  method RoleChecks(roles: seq<string>) returns (checks: seq<string>)
    ensures checks == AtomTexts(RoleAtoms(roles))
  {
    hide AtomText;
    checks := [];
    for i := 0 to |roles|
      invariant checks == AtomTexts(RoleAtoms(roles))[..i]
    {
      RoleCheckText(roles[i]);
      checks := checks + ["context.principal_roles.contains(\"" + roles[i] + "\")"];
    }
  }

  method GroupChecks(groups: seq<string>) returns (checks: seq<string>)
    ensures checks == AtomTexts(GroupAtoms(groups))
  {
    hide AtomText;
    checks := [];
    for i := 0 to |groups|
      invariant checks == AtomTexts(GroupAtoms(groups))[..i]
    {
      GroupCheckText(groups[i]);
      checks := checks + ["context.subject_groups.contains(\"" + groups[i] + "\")"];
    }
  }

  method SubjectChecks(subjects: seq<string>) returns (checks: seq<string>)
    ensures checks == AtomTexts(SubjectAtoms(subjects))
  {
    hide AtomText;
    checks := [];
    for i := 0 to |subjects|
      invariant checks == AtomTexts(SubjectAtoms(subjects))[..i]
    {
      var s := subjects[i];
      SelfText();
      DirectReportsText();
      SubjectIdText(s);
      if s == "SELF" {
        checks := checks + ["context.subject_is_self"];
      } else if s == "DIRECT_REPORTS" {
        checks := checks + ["context." + "subject_in_direct_reports"];
      } else {
        checks := checks + ["context.subject_id == \"" + s + "\""];
      }
    }
  }

  method TranslateOne(p: Dsl.Policy) returns (text: string)
    ensures text == PolicyText(p)
  {
    hide Join, AtomText, AtomTexts, PartText, PartTexts, Parts, RoleAtoms, SubjectAtoms, GroupAtoms, Frame;
    var effect := match p.effect
      case Allow => "permit"
      case Deny => "forbid"
      case Review => "forbid";

    var whenParts: seq<string> := [];
    HeadTexts(p);
    OneText(Is("resource_kind", p.resource));
    OneText(Is("action_name", p.action));
    whenParts := whenParts + ["context.resource_kind == \"" + p.resource + "\""];
    whenParts := whenParts + ["context.action_name == \"" + p.action + "\""];
    ghost var parts := [One(Is("resource_kind", p.resource)), One(Is("action_name", p.action))];
    TwoPartTexts(parts);
    assert whenParts == PartTexts(parts);

    if p.whenRoles != [] {
      var roleChecks := RoleChecks(p.whenRoles);
      AnyOfText(RoleAtoms(p.whenRoles));
      PartTextsSnoc(parts, AnyOf(RoleAtoms(p.whenRoles)));
      whenParts := whenParts + ["(" + Join(roleChecks, " || ") + ")"];
    }
    parts := parts + Optional([AnyOf(RoleAtoms(p.whenRoles))], p.whenRoles != []);
    assert whenParts == PartTexts(parts);

    if p.whereSubjects != [] {
      var subj := SubjectChecks(p.whereSubjects);
      AnyOfText(SubjectAtoms(p.whereSubjects));
      PartTextsSnoc(parts, AnyOf(SubjectAtoms(p.whereSubjects)));
      whenParts := whenParts + ["(" + Join(subj, " || ") + ")"];
    }
    parts := parts + Optional([AnyOf(SubjectAtoms(p.whereSubjects))], p.whereSubjects != []);
    assert whenParts == PartTexts(parts);

    if p.whereGroups != [] {
      var gchecks := GroupChecks(p.whereGroups);
      AnyOfText(GroupAtoms(p.whereGroups));
      PartTextsSnoc(parts, AnyOf(GroupAtoms(p.whereGroups)));
      whenParts := whenParts + ["(" + Join(gchecks, " || ") + ")"];
    }
    parts := parts + Optional([AnyOf(GroupAtoms(p.whereGroups))], p.whereGroups != []);
    assert whenParts == PartTexts(parts);

    if p.unlessRoles != [] {
      var unless := RoleChecks(p.unlessRoles);
      NoneOfText(RoleAtoms(p.unlessRoles));
      PartTextsSnoc(parts, NoneOf(RoleAtoms(p.unlessRoles)));
      whenParts := whenParts + ["!(" + Join(unless, " || ") + ")"];
    }
    parts := parts + Optional([NoneOf(RoleAtoms(p.unlessRoles))], p.unlessRoles != []);
    assert whenParts == PartTexts(parts);
    PartsInOrder(p);

    var condition := Join(whenParts, " &&\n  ");
    text := Frame(p.id, effect, p.action, condition);
  }

  lemma PartsInOrder(p: Dsl.Policy)
    ensures Parts(p) ==
      [One(Is("resource_kind", p.resource)), One(Is("action_name", p.action))]
      + Optional([AnyOf(RoleAtoms(p.whenRoles))], p.whenRoles != [])
      + Optional([AnyOf(SubjectAtoms(p.whereSubjects))], p.whereSubjects != [])
      + Optional([AnyOf(GroupAtoms(p.whereGroups))], p.whereGroups != [])
      + Optional([NoneOf(RoleAtoms(p.unlessRoles))], p.unlessRoles != [])
  {}

  lemma OneText(a: Atom)
    ensures PartText(One(a)) == AtomText(a)
  {}

  lemma AnyOfText(atoms: seq<Atom>)
    ensures PartText(AnyOf(atoms)) == "(" + Join(AtomTexts(atoms), " || ") + ")"
  {}

  lemma NoneOfText(atoms: seq<Atom>)
    ensures PartText(NoneOf(atoms)) == "!(" + Join(AtomTexts(atoms), " || ") + ")"
  {}

  lemma TwoPartTexts(parts: seq<Part>)
    requires |parts| == 2
    ensures PartTexts(parts) == [PartText(parts[0]), PartText(parts[1])]
  {}

  lemma PartTextsSnoc(parts: seq<Part>, q: Part)
    ensures PartTexts(parts + [q]) == PartTexts(parts) + [PartText(q)]
  {}

  method DslToCedar(policies: seq<Dsl.Policy>) returns (out: string)
    ensures out == CedarOf(policies)
  {
    hide PolicyText, HEADER;
    out := "";
    out := out + HEADER;
    for i := 0 to |policies|
      invariant CedarOf(policies) == out + PolicyTexts(policies[i..])
    {
      var one := TranslateOne(policies[i]);
      assert policies[i..][1..] == policies[i + 1..];
      Assoc(out, one + "\n", PolicyTexts(policies[i + 1..]));
      out := out + one;
      out := out + "\n";
    }
    assert policies[|policies|..] == [];
  }

  // ----- the expression a condition reads as -----

  function AtomExpr(a: Atom): Expr {
    match a
    case Has(attr, v) => Contains(Attr(ContextVar, attr), Lit(v))
    case Is(attr, v) => Eq(Attr(ContextVar, attr), Lit(v))
    case Flag(attr) => Attr(ContextVar, attr)
  }

  /** Chains of operators group to the left. */
  function OrChain(left: Expr, atoms: seq<Atom>): Expr
    decreases atoms
  {
    if atoms == [] then left else OrChain(Or(left, AtomExpr(atoms[0])), atoms[1..])
  }

  function AnyExpr(atoms: seq<Atom>): Expr
    requires atoms != []
  {
    OrChain(AtomExpr(atoms[0]), atoms[1..])
  }

  predicate PartOk(p: Part) {
    p.One? || p.atoms != []
  }

  function PartExpr(p: Part): Expr
    requires PartOk(p)
  {
    match p
    case One(a) => AtomExpr(a)
    case AnyOf(atoms) => AnyExpr(atoms)
    case NoneOf(atoms) => Not(AnyExpr(atoms))
  }

  function AndChain(left: Expr, parts: seq<Part>): Expr
    requires forall p | p in parts :: PartOk(p)
    decreases parts
  {
    if parts == [] then left else AndChain(And(left, PartExpr(parts[0])), parts[1..])
  }

  function AllExpr(parts: seq<Part>): Expr
    requires parts != [] && forall p | p in parts :: PartOk(p)
  {
    AndChain(PartExpr(parts[0]), parts[1..])
  }

  lemma PartsOk(p: Dsl.Policy)
    ensures Parts(p) != [] && forall q | q in Parts(p) :: PartOk(q)
  {}

  /** The Cedar policy that a policy's translation denotes. */
  function CedarPolicyOf(p: Dsl.Policy): CedarPolicy {
    PartsOk(p);
    CedarPolicy(p.id, p.effect == Dsl.Allow, p.action, AllExpr(Parts(p)))
  }

  function CedarPoliciesOf(ps: seq<Dsl.Policy>): (r: seq<CedarPolicy>)
    ensures |r| == |ps| && forall i | 0 <= i < |ps| :: r[i] == CedarPolicyOf(ps[i])
  {
    seq(|ps|, i requires 0 <= i < |ps| => CedarPolicyOf(ps[i]))
  }
}
