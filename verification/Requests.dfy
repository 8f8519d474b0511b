/** Authorization requests, the context document built for them, and what it reads as: evaluate.rs. */
module Requests {
  import opened Text
  import opened Json

  /** An insertion-ordered map of strings. */
  type StringMap = seq<(string, string)>

  datatype RelationshipKind = ManagerOf | DirectReports | GroupMember | Delegation

  datatype Relationship = Relationship(kind: RelationshipKind, from: string, to: string)

  datatype Principal = Principal(id: string, roles: seq<string>, groups: seq<string>, attrs: StringMap)

  datatype Subject = Subject(id: string, kind: string, groups: seq<string>, attrs: StringMap)

  datatype Resource = Resource(kind: string, id: Option<string>, attrs: StringMap)

  datatype AuthzRequest = AuthzRequest(
    principal: Principal,
    action: string,
    resource: Resource,
    subject: Option<Subject>,
    values: StringMap,
    relationships: seq<Relationship>,
    actingAs: Option<string>,
    onBehalfOf: Option<string>)

  /** `AttributePanic` stands for the panic of an attribute that is no Cedar expression: it ends the request as an error does. */
  datatype RequestError =
    | PrincipalRequired
    | ActionRequired
    | KindRequired
    | AttributePanic
    | BadSubjectKind
    | BadEntities
    | BadContext

  function Validate(req: AuthzRequest): Result<(), RequestError> {
    if Trim(req.principal.id) == "" then Err(PrincipalRequired)
    else if Trim(req.action) == "" then Err(ActionRequired)
    else if Trim(req.resource.kind) == "" then Err(KindRequired)
    else Ok(())
  }

  /** Requests are refused for the first of id, action and resource kind that holds nothing but whitespace. */
  lemma ValidateReports(req: AuthzRequest)
    ensures Validate(req) ==
      if Blank(req.principal.id) then Err(PrincipalRequired)
      else if Blank(req.action) then Err(ActionRequired)
      else if Blank(req.resource.kind) then Err(KindRequired)
      else Ok(())
  {
    TrimNothing(req.principal.id);
    TrimNothing(req.action);
    TrimNothing(req.resource.kind);
  }

  predicate SubjectIsSelf(req: AuthzRequest) {
    req.subject.Some? && req.subject.value.id == req.principal.id
  }

  /** Some management edge leads from the principal to the subject. */
  predicate SubjectInDirectReports(req: AuthzRequest) {
    req.subject.Some? &&
    exists i | 0 <= i < |req.relationships| ::
      IsReport(req.relationships[i], req.principal.id, req.subject.value.id)
  }

  predicate IsReport(rel: Relationship, principal: string, subject: string) {
    (rel.kind == DirectReports || rel.kind == ManagerOf) && rel.from == principal && rel.to == subject
  }

  method FindDirectReport(req: AuthzRequest) returns (found: bool)
    ensures found == SubjectInDirectReports(req)
    ensures found <==>
      && req.subject.Some?
      && exists rel :: rel in req.relationships && (rel.kind == ManagerOf || rel.kind == DirectReports)
                       && rel.from == req.principal.id && rel.to == req.subject.value.id
  {
    if req.subject.None? {
      return false;
    }
    for i := 0 to |req.relationships|
      invariant forall j | 0 <= j < i :: !IsReport(req.relationships[j], req.principal.id, req.subject.value.id)
    {
      var rel := req.relationships[i];
      if (rel.kind == DirectReports || rel.kind == ManagerOf)
         && rel.from == req.principal.id && rel.to == req.subject.value.id {
        return true;
      }
    }
    return false;
  }

  /** The subject is the principal, or the target of a management edge from the principal. */
  lemma SubjectFlags(req: AuthzRequest)
    ensures SubjectIsSelf(req) <==> req.subject.Some? && req.subject.value.id == req.principal.id
    ensures SubjectInDirectReports(req) <==>
      && req.subject.Some?
      && exists rel :: rel in req.relationships && (rel.kind == ManagerOf || rel.kind == DirectReports)
                       && rel.from == req.principal.id && rel.to == req.subject.value.id
  {
    if req.subject.Some? {
      if i :| 0 <= i < |req.relationships| && IsReport(req.relationships[i], req.principal.id, req.subject.value.id) {
        assert req.relationships[i] in req.relationships;
      }
    }
  }

  // ----- the document -----

  /** A member value: text put in quotes as it is, escaped text, a flag, or a list of strings. */
  datatype Field =
    | Verbatim(s: string)
    | Escaped(s: string)
    | Flag(b: bool)
    | List(items: seq<string>)

  type Member = (string, Field)

  function FieldText(f: Field): string {
    match f
    case Verbatim(s) => "\"" + s + "\""
    case Escaped(s) => Quote(s)
    case Flag(b) => if b then "true" else "false"
    case List(items) => ListText(items)
  }

  function MemberText(m: Member): string {
    Quote(m.0) + ": " + FieldText(m.1)
  }

  function MemberTexts(ms: seq<Member>): (r: seq<string>)
    ensures |r| == |ms| && forall i | 0 <= i < |ms| :: r[i] == MemberText(ms[i])
  {
    seq(|ms|, i requires 0 <= i < |ms| => MemberText(ms[i]))
  }

  function SubjectId(req: AuthzRequest): string {
    if req.subject.Some? then req.subject.value.id else ""
  }

  function SubjectGroups(req: AuthzRequest): seq<string> {
    if req.subject.Some? then req.subject.value.groups else []
  }

  function HeadMembers(req: AuthzRequest): seq<Member> {
    [("action_name", Verbatim(Upper(req.action))),
     ("resource_kind", Verbatim(Upper(req.resource.kind))),
     ("subject_is_self", Flag(SubjectIsSelf(req))),
     ("subject_in_direct_reports", Flag(SubjectInDirectReports(req))),
     ("subject_id", Escaped(SubjectId(req))),
     ("subject_groups", List(SubjectGroups(req)))]
  }

  function ValueMembers(values: StringMap): (r: seq<Member>)
    ensures |r| == |values| && forall i | 0 <= i < |values| :: r[i] == (values[i].0, Escaped(values[i].1))
  {
    seq(|values|, i requires 0 <= i < |values| => (values[i].0, Escaped(values[i].1)))
  }

  function TailMembers(req: AuthzRequest): seq<Member> {
    [("principal_roles", List(req.principal.roles)), ("principal_groups", List(req.principal.groups))]
  }

  function Members(req: AuthzRequest): seq<Member> {
    HeadMembers(req) + ValueMembers(req.values) + TailMembers(req)
  }

  /** What `build_context_json` returns. */
  function ContextJson(req: AuthzRequest): string {
    "{" + Join(MemberTexts(Members(req)), ", ") + "}"
  }

  /** `"name": value`, for a name that is written as it is. */
  function PairText(name: string, value: string): string {
    "\"" + name + "\": " + value
  }

  /** A name that escaping leaves alone. */
  predicate PlainName(name: string) {
    forall i | 0 <= i < |name| :: name[i] != '"' && name[i] != '\\'
  }

  lemma FixedNamesArePlain()
    ensures PlainName("action_name") && PlainName("resource_kind")
    ensures PlainName("subject_is_self") && PlainName("subject_in_direct_reports")
    ensures PlainName("subject_id") && PlainName("subject_groups")
    ensures PlainName("principal_roles") && PlainName("principal_groups")
  {}

  lemma PairSnoc(ms: seq<Member>, name: string, f: Field)
    requires PlainName(name)
    ensures MemberTexts(ms + [(name, f)]) == MemberTexts(ms) + [PairText(name, FieldText(f))]
  {
    hide FieldText;
    EscapeNothing(name);
    assert "\"" + ": " == "\": ";
    assert MemberText((name, f)) == PairText(name, FieldText(f));
    MemberTextsSnoc(ms, (name, f));
  }

  method QuotedList(items: seq<string>) returns (out: seq<string>)
    ensures out == QuoteAll(items)
  {
    out := [];
    for i := 0 to |items|
      invariant out == QuoteAll(items)[..i]
    {
      EscapeOnePass(items[i]);
      out := out + ["\"" + EscapeAsWritten(items[i]) + "\""];
    }
  }

  /** The pairs that precede the context values. */
  method HeadPairs(req: AuthzRequest) returns (pairs: seq<string>)
    ensures pairs == MemberTexts(HeadMembers(req))
  {
    hide PlainName, Join, QuoteAll, SubjectInDirectReports, SubjectIsSelf, Upper, PairText, MemberText, MemberTexts, Escape;
    FixedNamesArePlain();
    ghost var ms: seq<Member> := [];
    NoMemberTexts();
    pairs := [];

    PairSnoc(ms, "action_name", Verbatim(Upper(req.action)));
    pairs := pairs + [PairText("action_name", "\"" + Upper(req.action) + "\"")];
    ms := ms + [("action_name", Verbatim(Upper(req.action)))];

    PairSnoc(ms, "resource_kind", Verbatim(Upper(req.resource.kind)));
    pairs := pairs + [PairText("resource_kind", "\"" + Upper(req.resource.kind) + "\"")];
    ms := ms + [("resource_kind", Verbatim(Upper(req.resource.kind)))];

    var isSelf := SubjectIsSelf(req);
    PairSnoc(ms, "subject_is_self", Flag(isSelf));
    pairs := pairs + [PairText("subject_is_self", if isSelf then "true" else "false")];
    ms := ms + [("subject_is_self", Flag(isSelf))];

    var inReports := FindDirectReport(req);
    PairSnoc(ms, "subject_in_direct_reports", Flag(inReports));
    pairs := pairs + [PairText("subject_in_direct_reports", if inReports then "true" else "false")];
    ms := ms + [("subject_in_direct_reports", Flag(inReports))];

    var subjectPairs := SubjectPairs(req);
    PairSnoc(ms, "subject_id", Escaped(SubjectId(req)));
    ms := ms + [("subject_id", Escaped(SubjectId(req)))];
    PairSnoc(ms, "subject_groups", List(SubjectGroups(req)));
    ms := ms + [("subject_groups", List(SubjectGroups(req)))];
    pairs := pairs + subjectPairs;
    assert ms == HeadMembers(req);
  }

  method SubjectPairs(req: AuthzRequest) returns (pairs: seq<string>)
    ensures pairs == [PairText("subject_id", FieldText(Escaped(SubjectId(req)))),
                      PairText("subject_groups", FieldText(List(SubjectGroups(req))))]
  {
    hide Join, QuoteAll, PairText, Escape;
    if req.subject.Some? {
      var id := req.subject.value.id;
      EscapeOnePass(id);
      var groups := QuotedList(req.subject.value.groups);
      pairs := [PairText("subject_id", "\"" + EscapeAsWritten(id) + "\""),
                PairText("subject_groups", "[" + Join(groups, ", ") + "]")];
    } else {
      EmptyTexts();
      pairs := [PairText("subject_id", "\"\""), PairText("subject_groups", "[]")];
    }
  }

  lemma NoMemberTexts()
    ensures MemberTexts([]) == []
  {}

  lemma EmptyTexts()
    ensures FieldText(Escaped("")) == "\"\"" && FieldText(List([])) == "[]"
  {
    assert QuoteAll([]) == [];
  }

  /** The document is collected pair by pair, in the order of the source. */
  method BuildContextJson(req: AuthzRequest) returns (json: string)
    ensures json == ContextJson(req)
  {
    hide Join, QuoteAll, HeadMembers, PlainName, PairText, MemberText, MemberTexts, ValueMembers;
    var pairs := HeadPairs(req);
    ghost var ms := HeadMembers(req);
    for i := 0 to |req.values|
      invariant ms == HeadMembers(req) + ValueMembers(req.values[..i])
      invariant pairs == MemberTexts(ms)
    {
      var (k, v) := req.values[i];
      EscapeOnePass(k);
      EscapeOnePass(v);
      ValueText(k, v);
      pairs := pairs + ["\"" + EscapeAsWritten(k) + "\": \"" + EscapeAsWritten(v) + "\""];
      MemberTextsSnoc(ms, (k, Escaped(v)));
      ValueMembersSnoc(req.values, i);
      Assoc(HeadMembers(req), ValueMembers(req.values[..i]), [(k, Escaped(v))]);
      ms := ms + [(k, Escaped(v))];
    }
    assert req.values[..|req.values|] == req.values;

    FixedNamesArePlain();
    var roles := QuotedList(req.principal.roles);
    pairs := pairs + [PairText("principal_roles", "[" + Join(roles, ", ") + "]")];
    PairSnoc(ms, "principal_roles", List(req.principal.roles));
    ms := ms + [("principal_roles", List(req.principal.roles))];
    var groups := QuotedList(req.principal.groups);
    pairs := pairs + [PairText("principal_groups", "[" + Join(groups, ", ") + "]")];
    PairSnoc(ms, "principal_groups", List(req.principal.groups));
    ms := ms + [("principal_groups", List(req.principal.groups))];
    assert ms == Members(req);
    json := "{" + Join(pairs, ", ") + "}";
  }

  lemma ValueText(k: string, v: string)
    ensures MemberText((k, Escaped(v))) == "\"" + Escape(k) + "\": \"" + Escape(v) + "\""
  {
    hide Escape;
    assert "\"" + ": " + "\"" == "\": \"";
  }

  lemma ValueMembersSnoc(values: StringMap, i: nat)
    requires i < |values|
    ensures ValueMembers(values[..i + 1]) == ValueMembers(values[..i]) + [(values[i].0, Escaped(values[i].1))]
  {}

  lemma MemberTextsSnoc(ms: seq<Member>, m: Member)
    ensures MemberTexts(ms + [m]) == MemberTexts(ms) + [MemberText(m)]
  {
    hide MemberText;
  }

  // ----- the record the document stands for -----

  predicate FieldReadable(f: Field) {
    match f
    case Verbatim(s) => ControlFree(s)
    case Escaped(s) => ControlFree(s)
    case Flag(_) => true
    case List(items) => forall v | v in items :: ControlFree(v)
  }

  predicate MemberReadable(m: Member) {
    ControlFree(m.0) && FieldReadable(m.1)
  }

  function FieldJson(f: Field): Json {
    match f
    case Verbatim(s) => Str(s)
    case Escaped(s) => Str(s)
    case Flag(b) => Json.Bool(b)
    case List(items) => Arr(StrAll(items))
  }

  function MemberJsons(ms: seq<Member>): (r: seq<Entry>)
    ensures |r| == |ms| && forall i | 0 <= i < |ms| :: r[i] == Entry(ms[i].0, FieldJson(ms[i].1))
  {
    seq(|ms|, i requires 0 <= i < |ms| => Entry(ms[i].0, FieldJson(ms[i].1)))
  }

  /** Text in quotes that was not escaped must not need escaping. */
  predicate VerbatimPlain(f: Field) {
    f.Verbatim? ==> '"' !in f.s && '\\' !in f.s
  }

  lemma ReadField(f: Field, rest: string)
    requires VerbatimPlain(f)
    ensures ReadValue(" " + FieldText(f) + rest)
         == if FieldReadable(f) then Some((FieldJson(f), rest)) else None
  {
    hide ControlFree, ListText, Quote;
    var s := FieldText(f) + rest;
    assert " " + FieldText(f) + rest == " " + s;
    ReadAfterBlank(s);
    match f
    case Verbatim(v) =>
      assert FieldText(f) == Quote(v) by { QuoteNothing(v); }
      ReadQuote(v, rest);
    case Escaped(v) => ReadQuote(v, rest);
    case Flag(b) => ReadFlag(b, rest);
    case List(items) => ReadList(items, rest);
  }

  lemma QuoteNothing(v: string)
    requires '"' !in v && '\\' !in v
    ensures "\"" + v + "\"" == Quote(v)
  {
    EscapeNothing(v);
  }

  lemma ReadFlag(b: bool, rest: string)
    ensures ReadValue((if b then "true" else "false") + rest) == Some((Json.Bool(b), rest))
  {
    var s := (if b then "true" else "false") + rest;
    assert s[0] == if b then 't' else 'f';
    assert s[if b then 4 else 5..] == rest;
  }

  lemma SkipBlankBefore(s: string)
    ensures SkipBlank(" " + s) == SkipBlank(s)
  {
    assert (" " + s)[1..] == s;
  }

  lemma ReadMembersAfterBlank(s: string)
    ensures ReadMembers(" " + s) == ReadMembers(s)
  {
    SkipBlankBefore(s);
  }

  lemma SkipNothing(s: string)
    requires s != "" && s[0] != ' ' && s[0] != '\t' && s[0] != '\n' && s[0] != '\r'
    ensures SkipBlank(s) == s
  {}

  lemma MemberTextShape(m: Member, rest: string)
    ensures var s, afterName := MemberText(m) + rest, ": " + FieldText(m.1) + rest;
            && s != "" && s[0] == '"' && s[1..] == Escape(m.0) + "\"" + afterName
            && afterName[0] == ':' && afterName[1..] == " " + FieldText(m.1) + rest
  {
    hide Escape, FieldText;
    var s, afterName := MemberText(m) + rest, ": " + FieldText(m.1) + rest;
    assert ": " == ":" + " ";
    assert afterName == ":" + (" " + FieldText(m.1) + rest);
    assert s == "\"" + (Escape(m.0) + "\"" + afterName);
  }

  /** One member, up to where the next one or the closing brace is expected. */
  lemma ReadMemberText(m: Member, rest: string)
    requires VerbatimPlain(m.1) && rest != "" && (rest[0] == ',' || rest[0] == '}')
    ensures ReadMembers(MemberText(m) + rest)
         == if !MemberReadable(m) then None
            else if rest[0] == '}' then Some(([Entry(m.0, FieldJson(m.1))], rest[1..]))
            else match ReadMembers(rest[1..])
                 case None => None
                 case Some((ms, end)) => Some(([Entry(m.0, FieldJson(m.1))] + ms, end))
  {
    hide SkipBlank, ReadValue, ReadString, ControlFree, FieldReadable, MemberText, FieldText, FieldJson, VerbatimPlain, Escape;
    var s, afterName := MemberText(m) + rest, ": " + FieldText(m.1) + rest;
    MemberTextShape(m, rest);
    ReadEscaped(m.0, afterName);
    ReadField(m.1, rest);
    SkipNothing(s);
    SkipNothing(afterName);
    SkipNothing(rest);
  }

  lemma ReadMembersCons(m: Member, more: string)
    requires VerbatimPlain(m.1)
    ensures ReadMembers(MemberText(m) + ("," + (" " + more)))
         == if !MemberReadable(m) then None
            else match ReadMembers(more)
                 case None => None
                 case Some((ms, end)) => Some(([Entry(m.0, FieldJson(m.1))] + ms, end))
  {
    hide ReadMembers, MemberText, MemberReadable, FieldJson, VerbatimPlain;
    var tail := "," + (" " + more);
    assert tail[0] == ',' && tail[1..] == " " + more;
    ReadMemberText(m, tail);
    ReadMembersAfterBlank(more);
  }

  lemma MemberTextsJoin(ms: seq<Member>, end: string)
    requires |ms| > 1
    ensures Join(MemberTexts(ms), ", ") + end
         == MemberText(ms[0]) + ("," + (" " + (Join(MemberTexts(ms[1..]), ", ") + end)))
  {
    hide MemberText;
    assert MemberTexts(ms)[1..] == MemberTexts(ms[1..]);
    assert ", " == "," + " ";
  }

  lemma MemberTextsOne(ms: seq<Member>)
    requires |ms| == 1
    ensures Join(MemberTexts(ms), ", ") == MemberText(ms[0])
  {}

  lemma MemberJsonsCons(ms: seq<Member>)
    requires ms != []
    ensures MemberJsons(ms) == [Entry(ms[0].0, FieldJson(ms[0].1))] + MemberJsons(ms[1..])
    ensures |ms| == 1 ==> MemberJsons(ms) == [Entry(ms[0].0, FieldJson(ms[0].1))]
  {
    hide FieldJson;
  }

  lemma {:induction false} ReadMemberTexts(ms: seq<Member>, rest: string)
    requires ms != [] && forall m | m in ms :: VerbatimPlain(m.1)
    ensures ReadMembers(Join(MemberTexts(ms), ", ") + ("}" + rest))
         == if forall m | m in ms :: MemberReadable(m) then Some((MemberJsons(ms), rest)) else None
  {
    hide ReadMembers, MemberText, MemberTexts, MemberJsons, Join, MemberReadable, FieldJson, VerbatimPlain;
    var m := ms[0];
    var end := "}" + rest;
    assert m in ms && end[0] == '}' && end[1..] == rest;
    MemberJsonsCons(ms);
    if |ms| == 1 {
      MemberTextsOne(ms);
      ReadMemberText(m, end);
    } else {
      assert forall n :: n in ms <==> n == m || n in ms[1..];
      MemberTextsJoin(ms, end);
      ReadMembersCons(m, Join(MemberTexts(ms[1..]), ", ") + end);
      ReadMemberTexts(ms[1..], rest);
    }
  }

  /** An object is readable exactly when all its members are, and then it reads as them. */
  lemma ReadObject(ms: seq<Member>)
    requires ms != [] && forall m | m in ms :: VerbatimPlain(m.1)
    ensures ReadDocument("{" + Join(MemberTexts(ms), ", ") + "}")
         == if forall m | m in ms :: MemberReadable(m) then Some(Obj(MemberJsons(ms))) else None
  {
    hide Join, SkipBlank, ReadMembers, MemberReadable, MemberTexts, MemberJsons, FieldJson, VerbatimPlain;
    var joined := Join(MemberTexts(ms), ", ");
    var body := joined + ("}" + "");
    var s := "{" + body;
    assert "{" + joined + "}" == s;
    assert s[0] == '{' && s[1..] == body;
    FirstMember(ms);
    assert body[0] == '"';
    SkipNothing(s);
    SkipNothing(body);
    ReadMemberTexts(ms, "");
    SkipBlankOfNothing();
  }

  lemma SkipBlankOfNothing()
    ensures SkipBlank("") == ""
  {}

  lemma FirstMember(ms: seq<Member>)
    requires ms != []
    ensures Join(MemberTexts(ms), ", ") != "" && Join(MemberTexts(ms), ", ")[0] == '"'
  {
    assert MemberText(ms[0])[0] == '"';
  }
}
