/** The entities built for a request before it is evaluated, and when that succeeds: entities.rs. */
module Entities {
  import opened Text
  import opened Json
  import opened Requests
  import opened CedarText

  /** Extra groups of the evaluator's configuration, with their members. */
  type GroupMembers = seq<(string, seq<string>)>

  datatype Uid = Uid(kind: string, id: string)

  /** An entity with its parents; its attributes are looked at as texts. */
  datatype Node = Node(uid: Uid, parents: set<Uid>)

  /** What Cedar accepts: a type name, the text of an attribute's expression, and a set of entities. */
  datatype Library = Library(
    typeName: string -> bool,
    attribute: string -> bool,
    hierarchy: seq<Node> -> bool)

  /** What surrounds an evaluation. */
  datatype Host = Host(library: Library, groupMembers: GroupMembers)

  // ----- the texts of the attributes -----

  /** Only quotes are escaped. */
  function EscapeQuotes(v: string): string {
    Replace(v, '"', "\\\"")
  }

  function Literal(v: string): string {
    "\"" + (EscapeQuotes(v) + "\"")
  }

  function Literals(vals: seq<string>): (r: seq<string>)
    ensures |r| == |vals| && forall i | 0 <= i < |vals| :: r[i] == Literal(vals[i])
  {
    seq(|vals|, i requires 0 <= i < |vals| => Literal(vals[i]))
  }

  function SetText(vals: seq<string>): string {
    "[" + (Join(Literals(vals), ", ") + "]")
  }

  function Values(m: StringMap): (r: seq<string>)
    ensures |r| == |m| && forall i | 0 <= i < |m| :: r[i] == m[i].1
  {
    seq(|m|, i requires 0 <= i < |m| => m[i].1)
  }

  /** Where the relationships of one kind lead from the principal. */
  function Related(rels: seq<Relationship>, kind: RelationshipKind, from: string): seq<string> {
    if rels == [] then []
    else (if rels[0].kind == kind && rels[0].from == from then [rels[0].to] else []) + Related(rels[1..], kind, from)
  }

  function Reports(req: AuthzRequest): seq<string> {
    Related(req.relationships, DirectReports, req.principal.id)
  }

  function Managed(req: AuthzRequest): seq<string> {
    Related(req.relationships, ManagerOf, req.principal.id)
  }

  function Present(v: Option<string>): seq<string> {
    if v.Some? then [v.value] else []
  }

  /** The lists of the principal entity; nobody managed gives no list. */
  function PrincipalSets(req: AuthzRequest): seq<seq<string>> {
    [req.principal.roles, req.principal.groups, Reports(req)] + if Managed(req) == [] then [] else [Managed(req)]
  }

  function PrincipalStrings(req: AuthzRequest): seq<string> {
    Values(req.principal.attrs) + Present(req.onBehalfOf) + Present(req.actingAs)
  }

  function SubjectSets(req: AuthzRequest): seq<seq<string>> {
    if req.subject.None? then [] else [req.subject.value.groups]
  }

  function SubjectStrings(req: AuthzRequest): seq<string> {
    if req.subject.None? then [] else Values(req.subject.value.attrs)
  }

  function ResourceStrings(req: AuthzRequest): seq<string> {
    [req.resource.kind] + Values(req.resource.attrs)
  }

  /** An empty kind and `user` in any case stand for an employee. */
  function SubjectType(kind: string): string {
    if kind == "" || Lower(kind) == "user" then "Employee" else kind
  }

  predicate StringsAccepted(lib: Library, vals: seq<string>) {
    forall i | 0 <= i < |vals| :: lib.attribute(Literal(vals[i]))
  }

  predicate SetsAccepted(lib: Library, sets: seq<seq<string>>) {
    forall i | 0 <= i < |sets| :: lib.attribute(SetText(sets[i]))
  }

  // ----- the entities and their parents -----

  function Group(id: string): Uid {
    Uid("Group", id)
  }

  function Groups(ids: seq<string>): set<Uid> {
    set g | g in ids :: Group(g)
  }

  /** The groups an id is put into by relationships and by the configuration. */
  function Memberships(rels: seq<Relationship>, members: GroupMembers, id: string): set<Uid> {
    (set i | 0 <= i < |rels| && rels[i].kind == GroupMember && rels[i].from == id :: Group(rels[i].to))
    + (set i | 0 <= i < |members| && id in members[i].1 :: Group(members[i].0))
  }

  function PrincipalNode(req: AuthzRequest, members: GroupMembers): Node {
    Node(Uid("User", req.principal.id),
         Memberships(req.relationships, members, req.principal.id) + Groups(req.principal.groups))
  }

  function SubjectNode(req: AuthzRequest, members: GroupMembers): Node
    requires req.subject.Some?
  {
    var subj := req.subject.value;
    Node(Uid(SubjectType(subj.kind), subj.id), Memberships(req.relationships, members, subj.id) + Groups(subj.groups))
  }

  function ResourceId(req: AuthzRequest): string {
    if req.resource.id.Some? then req.resource.id.value else req.resource.kind
  }

  /** An entity whose id is taken already is not added again. */
  function AddNode(nodes: seq<Node>, n: Node): seq<Node> {
    if exists i :: 0 <= i < |nodes| && nodes[i].uid == n.uid then nodes else nodes + [n]
  }

  function AddGroups(nodes: seq<Node>, groups: seq<string>): seq<Node>
    decreases groups
  {
    if groups == [] then nodes else AddGroups(AddNode(nodes, Node(Group(groups[0]), {})), groups[1..])
  }

  /** Every group that is mentioned. */
  function GroupNames(req: AuthzRequest, members: GroupMembers): seq<string> {
    req.principal.groups + (if req.subject.Some? then req.subject.value.groups else [])
    + Linked(req.relationships) + Configured(members)
  }

  function Linked(rels: seq<Relationship>): seq<string> {
    if rels == [] then []
    else (if rels[0].kind == GroupMember then [rels[0].to] else []) + Linked(rels[1..])
  }

  function Configured(members: GroupMembers): (r: seq<string>)
    ensures |r| == |members| && forall i | 0 <= i < |members| :: r[i] == members[i].0
  {
    seq(|members|, i requires 0 <= i < |members| => members[i].0)
  }

  function Nodes(req: AuthzRequest, members: GroupMembers): seq<Node> {
    var principal := [PrincipalNode(req, members)];
    var people := if req.subject.Some? then AddNode(principal, SubjectNode(req, members)) else principal;
    var withResource := AddNode(people, Node(Uid("Resource", ResourceId(req)), {}));
    AddNode(AddGroups(withResource, GroupNames(req, members)), Node(Uid("Action", Upper(req.action)), {}))
  }

  /** What `build_entities` and the entity store make of a request, in the order of the code. */
  function EntityStage(req: AuthzRequest, host: Host): Result<seq<Node>, RequestError> {
    var lib := host.library;
    if !SetsAccepted(lib, PrincipalSets(req)) || !StringsAccepted(lib, PrincipalStrings(req)) then Err(AttributePanic)
    else if !SetsAccepted(lib, SubjectSets(req)) || !StringsAccepted(lib, SubjectStrings(req)) then Err(AttributePanic)
    else if req.subject.Some? && !lib.typeName(SubjectType(req.subject.value.kind)) then Err(BadSubjectKind)
    else if !StringsAccepted(lib, ResourceStrings(req)) then Err(AttributePanic)
    else if !lib.hierarchy(Nodes(req, host.groupMembers)) then Err(BadEntities)
    else Ok(Nodes(req, host.groupMembers))
  }

  predicate EntitiesAccepted(req: AuthzRequest, host: Host) {
    EntityStage(req, host).Ok?
  }

  // ----- the stage as written -----

  lemma RelatedSnoc(rels: seq<Relationship>, rel: Relationship, kind: RelationshipKind, from: string)
    ensures Related(rels + [rel], kind, from)
         == Related(rels, kind, from) + if rel.kind == kind && rel.from == from then [rel.to] else []
  {
    if rels == [] {
      assert [] + [rel] == [rel] && [rel][1..] == [];
    } else {
      assert (rels + [rel])[1..] == rels[1..] + [rel];
      RelatedSnoc(rels[1..], rel, kind, from);
    }
  }

  lemma LinkedSnoc(rels: seq<Relationship>, rel: Relationship)
    ensures Linked(rels + [rel]) == Linked(rels) + if rel.kind == GroupMember then [rel.to] else []
  {
    if rels == [] {
      assert [] + [rel] == [rel] && [rel][1..] == [];
    } else {
      assert (rels + [rel])[1..] == rels[1..] + [rel];
      LinkedSnoc(rels[1..], rel);
    }
  }

  function ParentsIn(parents: map<string, set<Uid>>, id: string): set<Uid> {
    if id in parents then parents[id] else {}
  }

  lemma MembershipsSnoc(rels: seq<Relationship>, rel: Relationship, members: GroupMembers, id: string)
    ensures Memberships(rels + [rel], members, id)
         == Memberships(rels, members, id) + if rel.kind == GroupMember && rel.from == id then {Group(rel.to)} else {}
  {
    var more := rels + [rel];
    assert forall i | 0 <= i < |rels| :: more[i] == rels[i];
    assert more[|rels|] == rel;
  }

  lemma ConfiguredMembership(rels: seq<Relationship>, members: GroupMembers, m: (string, seq<string>), id: string)
    ensures Memberships(rels, members + [m], id)
         == Memberships(rels, members, id) + if id in m.1 then {Group(m.0)} else {}
  {
    var more := members + [m];
    assert forall i | 0 <= i < |members| :: more[i] == members[i];
    assert more[|members|] == m;
  }

  /** One pass over the relationships: the edges that leave the principal, the linked groups, and everybody's parents. */
  method CollectEdges(req: AuthzRequest)
    returns (managed: seq<string>, reports: seq<string>, linked: seq<string>, parents: map<string, set<Uid>>)
    ensures managed == Managed(req) && reports == Reports(req) && linked == Linked(req.relationships)
    ensures forall id :: ParentsIn(parents, id) == Memberships(req.relationships, [], id)
  {
    hide Memberships;
    managed, reports, linked, parents := [], [], [], map[];
    var rels := req.relationships;
    NoMemberships();
    for i := 0 to |rels|
      invariant managed == Related(rels[..i], ManagerOf, req.principal.id)
      invariant reports == Related(rels[..i], DirectReports, req.principal.id)
      invariant linked == Linked(rels[..i])
      invariant forall id :: ParentsIn(parents, id) == Memberships(rels[..i], [], id)
    {
      var rel := rels[i];
      assert rels[..i + 1] == rels[..i] + [rel];
      RelatedSnoc(rels[..i], rel, ManagerOf, req.principal.id);
      RelatedSnoc(rels[..i], rel, DirectReports, req.principal.id);
      LinkedSnoc(rels[..i], rel);
      forall id { MembershipsSnoc(rels[..i], rel, [], id); }
      match rel.kind
      case ManagerOf =>
        if rel.from == req.principal.id { managed := managed + [rel.to]; }
      case DirectReports =>
        if rel.from == req.principal.id { reports := reports + [rel.to]; }
      case GroupMember =>
        linked := linked + [rel.to];
        parents := parents[rel.from := ParentsIn(parents, rel.from) + {Group(rel.to)}];
      case Delegation =>
    }
    assert rels[..|rels|] == rels;
  }

  lemma NoMemberships()
    ensures forall id :: Memberships([], [], id) == {}
  {}

  /** The extra memberships of the configuration. */
  method AddConfigured(rels: seq<Relationship>, members: GroupMembers, given: map<string, set<Uid>>)
    returns (parents: map<string, set<Uid>>)
    requires forall id :: ParentsIn(given, id) == Memberships(rels, [], id)
    ensures forall id :: ParentsIn(parents, id) == Memberships(rels, members, id)
  {
    hide Memberships;
    parents := given;
    for i := 0 to |members|
      invariant forall id :: ParentsIn(parents, id) == Memberships(rels, members[..i], id)
    {
      var group, ids := members[i].0, members[i].1;
      ghost var before := parents;
      for j := 0 to |ids|
        invariant forall id :: ParentsIn(parents, id) == ParentsIn(before, id) + if id in ids[..j] then {Group(group)} else {}
      {
        assert ids[..j + 1] == ids[..j] + [ids[j]];
        parents := parents[ids[j] := ParentsIn(parents, ids[j]) + {Group(group)}];
      }
      assert ids[..|ids|] == ids;
      assert members[..i + 1] == members[..i] + [members[i]];
      forall id { ConfiguredMembership(rels, members[..i], members[i], id); }
    }
    assert members[..|members|] == members;
  }

  method ParseStrings(lib: Library, vals: seq<string>) returns (ok: bool)
    ensures ok == StringsAccepted(lib, vals)
  {
    for i := 0 to |vals|
      invariant forall j | 0 <= j < i :: lib.attribute(Literal(vals[j]))
    {
      if !lib.attribute(Literal(vals[i])) {
        return false;
      }
    }
    return true;
  }

  method ParseSets(lib: Library, sets: seq<seq<string>>) returns (ok: bool)
    ensures ok == SetsAccepted(lib, sets)
  {
    for i := 0 to |sets|
      invariant forall j | 0 <= j < i :: lib.attribute(SetText(sets[j]))
    {
      if !lib.attribute(SetText(sets[i])) {
        return false;
      }
    }
    return true;
  }

  method InsertNode(nodes: seq<Node>, n: Node) returns (r: seq<Node>)
    ensures r == AddNode(nodes, n)
  {
    for i := 0 to |nodes|
      invariant forall j | 0 <= j < i :: nodes[j].uid != n.uid
    {
      if nodes[i].uid == n.uid {
        return nodes;
      }
    }
    return nodes + [n];
  }

  method BuildEntities(req: AuthzRequest, host: Host) returns (r: Result<seq<Node>, RequestError>)
    ensures r == EntityStage(req, host)
  {
    hide Memberships, AddNode, SubjectType;
    var lib := host.library;
    var managed, reports, linked, parents := CollectEdges(req);
    parents := AddConfigured(req.relationships, host.groupMembers, parents);
    var sets := [req.principal.roles, req.principal.groups, reports];
    if managed != [] {
      sets := sets + [managed];
    }
    assert sets == PrincipalSets(req);
    var setsOk := ParseSets(lib, sets);
    var stringsOk := ParseStrings(lib, PrincipalStrings(req));
    if !setsOk || !stringsOk {
      return Err(AttributePanic);
    }
    var nodes := [Node(Uid("User", req.principal.id), ParentsIn(parents, req.principal.id) + Groups(req.principal.groups))];
    var groups := req.principal.groups;
    if req.subject.Some? {
      var subj := req.subject.value;
      setsOk := ParseSets(lib, SubjectSets(req));
      stringsOk := ParseStrings(lib, SubjectStrings(req));
      if !setsOk || !stringsOk {
        return Err(AttributePanic);
      }
      var kind := SubjectType(subj.kind);
      if !lib.typeName(kind) {
        return Err(BadSubjectKind);
      }
      nodes := InsertNode(nodes, Node(Uid(kind, subj.id), ParentsIn(parents, subj.id) + Groups(subj.groups)));
      groups := groups + subj.groups;
    } else {
      assert groups + [] == groups;
    }
    stringsOk := ParseStrings(lib, ResourceStrings(req));
    if !stringsOk {
      return Err(AttributePanic);
    }
    nodes := InsertNode(nodes, Node(Uid("Resource", ResourceId(req)), {}));
    groups := groups + linked + Configured(host.groupMembers);
    ghost var start := nodes;
    for i := 0 to |groups|
      invariant AddGroups(start, groups) == AddGroups(nodes, groups[i..])
    {
      assert groups[i..][0] == groups[i] && groups[i..][1..] == groups[i + 1..];
      nodes := InsertNode(nodes, Node(Group(groups[i]), {}));
    }
    nodes := InsertNode(nodes, Node(Uid("Action", Upper(req.action)), {}));
    assert nodes == Nodes(req, host.groupMembers);
    if !lib.hierarchy(nodes) {
      return Err(BadEntities);
    }
    return Ok(nodes);
  }

  // ----- what becomes of a string between its quotes -----

  /**
   * With only its quotes escaped, a string is the whole inside of a literal, or it has a broken
   * escape, or its last backslash takes the closing quote, or a backslash undoes the escape of a quote.
   */
  datatype Fate = Whole | Broken | Unclosed | Undone

  function FateOf(v: string): Fate
    decreases |v|
  {
    if v == "" then Whole
    else if v[0] == '\r' then Broken
    else if v[0] != '\\' then FateOf(v[1..])
    else if |v| == 1 then Unclosed
    else if v[1] == '"' then Undone
    else
      EscapeShortens(v[1..]);
      match ReadEscape(v[1..])
      case None => Broken
      case Some((_, rest)) => FateOf(rest)
  }

  lemma EscapeQuotesCons(v: string)
    requires v != ""
    ensures EscapeQuotes(v) == (if v[0] == '"' then "\\\"" else [v[0]]) + EscapeQuotes(v[1..])
  {}

  lemma {:induction false} UnicodeAgrees(v: string, value: nat, digits: nat, rest: string)
    ensures ReadUnicode(EscapeQuotes(v) + ("\"" + rest), value, digits)
         == match ReadUnicode(v, value, digits)
            case None => None
            case Some((c, t)) => Some((c, EscapeQuotes(t) + ("\"" + rest)))
    decreases v
  {
    hide Replace;
    var s := EscapeQuotes(v) + ("\"" + rest);
    if v == "" {
      assert EscapeQuotes(v) == "" by { EscapeQuotesNothing(); }
      assert s[0] == '"';
    } else {
      EscapeQuotesCons(v);
      if v[0] == '"' {
        assert s[0] == '\\';
      } else {
        assert s[0] == v[0] && s[1..] == EscapeQuotes(v[1..]) + ("\"" + rest);
        UnicodeAgrees(v[1..], value, digits, rest);
        if HexValue(v[0]).Some? { UnicodeAgrees(v[1..], 16 * value + HexValue(v[0]).value, digits + 1, rest); }
      }
    }
  }

  lemma EscapeQuotesNothing()
    ensures EscapeQuotes("") == ""
  {}

  /** An escape reads the same once the quotes after it are escaped. */
  lemma EscapeAgrees(v: string, rest: string)
    requires v != "" && v[0] != '"'
    ensures ReadEscape(EscapeQuotes(v) + ("\"" + rest))
         == match ReadEscape(v) case None => None case Some((c, t)) => Some((c, EscapeQuotes(t) + ("\"" + rest)))
  {
    hide Replace, ReadUnicode;
    var tail := "\"" + rest;
    var s := EscapeQuotes(v) + tail;
    EscapeQuotesCons(v);
    EscapeQuotesNothing();
    var one := EscapeQuotes(v[1..]) + tail;
    assert s[0] == v[0] && s[1..] == one;
    if |v| == 1 {
      assert one[0] == '"';
    } else {
      EscapeQuotesCons(v[1..]);
      assert v[1..][1..] == v[2..] && v[1..][0] == v[1];
      var two := EscapeQuotes(v[2..]) + tail;
      if v[1] == '"' {
        assert s[1] == '\\';
      } else {
        assert s[1] == v[1] && s[2..] == two;
        UnicodeAgrees(v[2..], 0, 0, rest);
        if |v| == 2 {
          assert two[0] == '"';
        } else {
          EscapeQuotesCons(v[2..]);
          assert v[2..][1..] == v[3..] && v[2..][0] == v[2];
          if v[2] == '"' {
            assert s[2] == '\\';
          } else {
            assert s[2] == v[2] && s[3..] == EscapeQuotes(v[3..]) + tail;
          }
        }
      }
    }
  }

  /**
   * The literal is read to its end, not beyond it and not short of it, exactly for whole strings; broken
   * ones stop the reader, and unclosed ones send it into what follows.
   */
  lemma {:induction false} FateIsReading(v: string, rest: string)
    ensures var r := ReadQuoted(EscapeQuotes(v) + ("\"" + rest));
            && (FateOf(v) == Whole <==> r.Some? && r.value.1 == rest)
            && (FateOf(v) == Broken || (FateOf(v) == Unclosed && ReadQuoted(rest).None?) ==> r.None?)
    decreases |v|
  {
    hide Replace, ReadUnicode;
    var s := EscapeQuotes(v) + ("\"" + rest);
    EscapeQuotesNothing();
    if v == "" {
      assert s[0] == '"' && s[1..] == rest;
    } else {
      EscapeQuotesCons(v);
      var tail := EscapeQuotes(v[1..]) + ("\"" + rest);
      if v[0] == '"' {
        assert s[0] == '\\' && s[1..][0] == '"' && s[1..][1..] == tail;
        FateIsReading(v[1..], rest);
      } else if v[0] != '\\' {
        assert s[0] == v[0] && s[1..] == tail;
        FateIsReading(v[1..], rest);
      } else {
        assert s[0] == '\\' && s[1..] == tail;
        BackslashReading(v, rest);
        if |v| > 1 && v[1] != '"' {
          EscapeAgrees(v[1..], rest);
          EscapeShortens(v[1..]);
          if ReadEscape(v[1..]).Some? { FateIsReading(ReadEscape(v[1..]).value.1, rest); }
        }
      }
    }
  }

  /** A backslash at the end, or before a quote, takes the reader past the end or stops it short. */
  lemma BackslashReading(v: string, rest: string)
    requires v != "" && v[0] == '\\'
    ensures |v| == 1 || v[1] == '"' ==>
      var r := ReadQuoted("\\" + (EscapeQuotes(v[1..]) + ("\"" + rest)));
      (r.Some? ==> r.value.1 != rest) && (|v| == 1 && ReadQuoted(rest).None? ==> r.None?)
  {
    hide Replace, ReadUnicode;
    var tail := EscapeQuotes(v[1..]) + ("\"" + rest);
    var s := "\\" + tail;
    assert s[0] == '\\' && s[1..] == tail;
    EscapeQuotesNothing();
    if |v| == 1 {
      assert tail[0] == '"' && tail[1..] == rest;
    } else if v[1] == '"' {
      EscapeQuotesCons(v[1..]);
      var inner := EscapeQuotes(v[2..]) + ("\"" + rest);
      assert v[1..][1..] == v[2..];
      assert tail[0] == '\\' && tail[1..] == "\"" + inner;
      assert ("\"" + inner)[0] == '"' && ("\"" + inner)[1..] == inner;
    }
  }

  // ----- reading the text of an attribute -----

  /** The items of a list of literals, up to its closing bracket. */
  predicate ReadsItems(s: string)
    decreases |s|
  {
    s != "" && s[0] == '"' &&
    match ReadQuoted(s[1..])
    case None => false
    case Some((_, rest)) => rest == "]" || (", " <= rest && ReadsItems(rest[2..]))
  }

  /** Item by item, the list comes to a literal that cannot be read. */
  predicate FailsItems(s: string)
    decreases |s|
  {
    s != "" && s[0] == '"' &&
    match ReadQuoted(s[1..])
    case None => true
    case Some((_, rest)) => ", " <= rest && FailsItems(rest[2..])
  }

  /** The text is one literal, or a set of literals. */
  predicate ReadsAttribute(t: string) {
    if "[" <= t then t == "[]" || ReadsItems(t[1..])
    else "\"" <= t && ReadQuoted(t[1..]).Some? && ReadQuoted(t[1..]).value.1 == ""
  }

  predicate FailsAttribute(t: string) {
    if "[" <= t then FailsItems(t[1..]) else "\"" <= t && ReadQuoted(t[1..]).None?
  }

  const KEYWORDS := {"true", "false", "if", "then", "else", "in", "is", "like", "has", "__cedar"}

  predicate TypeNameChars(s: string) {
    forall i | 0 <= i < |s| :: IsWordChar(s[i]) || s[i] == ':'
  }

  /** No chain of parents leads back to where it starts. */
  ghost predicate Acyclic(nodes: seq<Node>) {
    exists rank: Uid -> nat :: Ranked(nodes, rank)
  }

  ghost predicate Ranked(nodes: seq<Node>, rank: Uid -> nat) {
    forall n, p | n in nodes && p in n.parents :: rank(p) < rank(n.uid)
  }

  /**
   * What is taken from Cedar's documentation: literals and sets of literals are attributes, a literal
   * that cannot be read is a syntax error, identifiers other than keywords are type names, which hold
   * no other characters, and entities are accepted exactly when their parents form no cycle.
   */
  ghost predicate IsCedar(lib: Library) {
    && (forall t | ReadsAttribute(t) :: lib.attribute(t))
    && (forall t | FailsAttribute(t) :: !lib.attribute(t))
    && (forall s | IsWord(s) && s !in KEYWORDS :: lib.typeName(s))
    && (forall s | lib.typeName(s) :: TypeNameChars(s))
    && (forall nodes :: lib.hierarchy(nodes) <==> Acyclic(nodes))
  }

  lemma {:induction false} ItemsReadOrFail(s: string)
    ensures !(ReadsItems(s) && FailsItems(s))
    decreases |s|
  {
    hide ReadQuoted;
    if s != "" && s[0] == '"' && ReadQuoted(s[1..]).Some? {
      var rest := ReadQuoted(s[1..]).value.1;
      if ", " <= rest { ItemsReadOrFail(rest[2..]); }
    }
  }

  /** Such a library exists. */
  lemma CedarExists()
    ensures exists lib :: IsCedar(lib)
  {
    hide ReadsItems, ReadQuoted;
    var lib := Library(s => IsWord(s) && s !in KEYWORDS, t => ReadsAttribute(t), nodes => Acyclic(nodes));
    forall t | FailsAttribute(t)
      ensures !ReadsAttribute(t)
    {
      if "[" <= t { ItemsReadOrFail(t[1..]); }
    }
    assert IsCedar(lib);
  }

  // ----- which requests pass -----

  predicate AllWhole(vals: seq<string>) {
    forall i | 0 <= i < |vals| :: FateOf(vals[i]) == Whole
  }

  /** No backslash undoes the escape of a quote. */
  predicate StringsStay(vals: seq<string>) {
    forall i | 0 <= i < |vals| :: FateOf(vals[i]) != Undone
  }

  /** The first string that is not whole is broken, or is the last one and unclosed. */
  predicate SetStays(vals: seq<string>) {
    vals == [] ||
    match FateOf(vals[0])
    case Whole => SetStays(vals[1..])
    case Broken => true
    case Unclosed => |vals| == 1
    case Undone => false
  }

  lemma LiteralReads(v: string)
    requires FateOf(v) != Undone
    ensures if FateOf(v) == Whole then ReadsAttribute(Literal(v)) else FailsAttribute(Literal(v))
  {
    hide FateOf, ReadsItems, FailsItems, EscapeQuotes;
    FateIsReading(v, "");
    var t := Literal(v);
    assert "\"" + "" == "\"";
    assert t[0] == '"' && t[1..] == EscapeQuotes(v) + ("\"" + "");
  }

  /** The items of a non-empty list read on exactly as long as its strings are whole. */
  lemma {:induction false} ItemsRead(vals: seq<string>)
    requires vals != [] && SetStays(vals)
    ensures var s := Join(Literals(vals), ", ") + "]"; if AllWhole(vals) then ReadsItems(s) else FailsItems(s)
    decreases vals
  {
    hide FateOf, ReadQuoted, EscapeQuotes;
    var v := vals[0];
    if |vals| == 1 {
      BracketClosesNothing();
      ItemReads(v, "]");
      assert Join(Literals(vals), ", ") + "]" == Literal(v) + "]";
    } else {
      var more := Join(Literals(vals[1..]), ", ") + "]";
      assert Literals(vals)[1..] == Literals(vals[1..]);
      assert Join(Literals(vals), ", ") + "]" == Literal(v) + (", " + more);
      ItemReads(v, ", " + more);
      assert ", " <= ", " + more && (", " + more)[2..] == more;
      if FateOf(v) == Whole {
        ItemsRead(vals[1..]);
        assert vals == [v] + vals[1..];
      }
    }
  }

  lemma BracketClosesNothing()
    ensures ReadQuoted("]") == None
  {
    assert "]"[1..] == "";
  }

  lemma ItemReads(v: string, rest: string)
    requires FateOf(v) == Whole || FateOf(v) == Broken || (FateOf(v) == Unclosed && ReadQuoted(rest).None?)
    ensures var s := Literal(v) + rest;
            && s[0] == '"'
            && (if FateOf(v) == Whole then ReadQuoted(s[1..]).Some? && ReadQuoted(s[1..]).value.1 == rest
                else ReadQuoted(s[1..]).None?)
  {
    hide FateOf, ReadQuoted, EscapeQuotes;
    FateIsReading(v, rest);
    var s := Literal(v) + rest;
    assert s[0] == '"' && s[1..] == EscapeQuotes(v) + ("\"" + rest);
  }

  lemma SetReads(vals: seq<string>)
    requires SetStays(vals)
    ensures if AllWhole(vals) then ReadsAttribute(SetText(vals)) else FailsAttribute(SetText(vals))
  {
    hide FateOf, ReadQuoted, ReadsItems, FailsItems, EscapeQuotes;
    var t := SetText(vals);
    assert t[0] == '[' && t[1..] == Join(Literals(vals), ", ") + "]";
    if vals == [] {
      assert Literals(vals) == [];
    } else {
      ItemsRead(vals);
    }
  }

  /** Every string that becomes part of an attribute. */
  function AttributeLists(req: AuthzRequest): seq<seq<string>> {
    PrincipalSets(req) + [PrincipalStrings(req)] + SubjectSets(req) + [SubjectStrings(req)] + [ResourceStrings(req)]
  }

  predicate AttributesWhole(req: AuthzRequest) {
    forall l | l in AttributeLists(req) :: AllWhole(l)
  }

  /** Every attribute is decided without reading on behind a literal that closes early. */
  predicate AttributesStay(req: AuthzRequest) {
    && (forall l | l in PrincipalSets(req) + SubjectSets(req) :: SetStays(l))
    && StringsStay(PrincipalStrings(req)) && StringsStay(SubjectStrings(req)) && StringsStay(ResourceStrings(req))
  }

  /** An entity of the request is its own parent, which only a group as subject can be. */
  predicate OwnParent(req: AuthzRequest, members: GroupMembers) {
    req.subject.Some? && SubjectNode(req, members).uid in SubjectNode(req, members).parents
  }

  lemma AddNodeKeeps(nodes: seq<Node>, n: Node)
    ensures forall x :: x in nodes ==> x in AddNode(nodes, n)
    ensures forall x :: x in AddNode(nodes, n) ==> x in nodes || x == n
  {}

  lemma {:induction false} AddGroupsKeeps(nodes: seq<Node>, groups: seq<string>)
    ensures forall x :: x in nodes ==> x in AddGroups(nodes, groups)
    ensures forall x :: x in AddGroups(nodes, groups) ==> x in nodes || x.parents == {}
    decreases groups
  {
    hide AddNode;
    if groups != [] {
      var n := Node(Group(groups[0]), {});
      AddNodeKeeps(nodes, n);
      AddGroupsKeeps(AddNode(nodes, n), groups[1..]);
    }
  }

  /** Only the principal and the subject have parents, and both are among the entities. */
  lemma NodesAre(req: AuthzRequest, members: GroupMembers)
    ensures forall n :: n in Nodes(req, members) ==>
      n == PrincipalNode(req, members) || (req.subject.Some? && n == SubjectNode(req, members)) || n.parents == {}
    ensures PrincipalNode(req, members) in Nodes(req, members)
    ensures req.subject.Some? ==> SubjectNode(req, members) in Nodes(req, members)
  {
    hide AddGroups, PrincipalNode, SubjectNode, GroupNames;
    var principal := [PrincipalNode(req, members)];
    var people := if req.subject.Some? then AddNode(principal, SubjectNode(req, members)) else principal;
    if req.subject.Some? { SubjectIsNoUser(req, members); }
    var resource := Node(Uid("Resource", ResourceId(req)), {});
    AddNodeKeeps(people, resource);
    AddGroupsKeeps(AddNode(people, resource), GroupNames(req, members));
    AddNodeKeeps(AddGroups(AddNode(people, resource), GroupNames(req, members)), Node(Uid("Action", Upper(req.action)), {}));
  }

  lemma SubjectIsNoUser(req: AuthzRequest, members: GroupMembers)
    requires req.subject.Some?
    ensures SubjectNode(req, members).uid != PrincipalNode(req, members).uid
  {
    hide Memberships, Groups, Lower;
    assert Lower("User") == "user" by { UserIsUser(); }
  }

  lemma UserIsUser()
    ensures Lower("User") == "user"
  {}

  lemma ParentsAreGroups(req: AuthzRequest, members: GroupMembers)
    ensures forall p | p in PrincipalNode(req, members).parents :: p.kind == "Group"
    ensures req.subject.Some? ==> forall p | p in SubjectNode(req, members).parents :: p.kind == "Group"
  {}

  /** The entities of a request form no cycle unless the subject is its own parent. */
  lemma NodesAcyclicIff(req: AuthzRequest, members: GroupMembers)
    ensures Acyclic(Nodes(req, members)) <==> !OwnParent(req, members)
  {
    hide Nodes, PrincipalNode, SubjectNode;
    NodesAre(req, members);
    ParentsAreGroups(req, members);
    var nodes := Nodes(req, members);
    if OwnParent(req, members) {
      var n := SubjectNode(req, members);
      forall rank: Uid -> nat
        ensures !Ranked(nodes, rank)
      {
        assert n in nodes && n.uid in n.parents;
        assert !(rank(n.uid) < rank(n.uid));
      }
    } else {
      var user := PrincipalNode(req, members).uid;
      var rank: Uid -> nat :=
        u => if u == user then 2 else if req.subject.Some? && u == SubjectNode(req, members).uid then 1 else 0;
      UserKind(req, members);
      if req.subject.Some? { SubjectIsNoUser(req, members); }
      assert Ranked(nodes, rank);
    }
  }

  lemma UserKind(req: AuthzRequest, members: GroupMembers)
    ensures PrincipalNode(req, members).uid.kind == "User" != "Group"
  {}

  lemma SetsAcceptedIff(lib: Library, sets: seq<seq<string>>)
    requires IsCedar(lib) && forall l | l in sets :: SetStays(l)
    ensures SetsAccepted(lib, sets) <==> forall l | l in sets :: AllWhole(l)
  {
    hide AllWhole, SetStays, ReadsAttribute, FailsAttribute, SetText, Acyclic;
    forall i | 0 <= i < |sets|
      ensures lib.attribute(SetText(sets[i])) <==> AllWhole(sets[i])
    {
      SetReads(sets[i]);
    }
  }

  lemma StringsAcceptedIff(lib: Library, vals: seq<string>)
    requires IsCedar(lib) && StringsStay(vals)
    ensures StringsAccepted(lib, vals) <==> AllWhole(vals)
  {
    hide FateOf, ReadsAttribute, FailsAttribute, Literal, Acyclic;
    forall i | 0 <= i < |vals|
      ensures lib.attribute(Literal(vals[i])) <==> FateOf(vals[i]) == Whole
    {
      LiteralReads(vals[i]);
    }
  }

  /**
   * The entities of a request are built exactly when each of its strings reads back as a literal, the
   * subject's kind is a type name, and the subject is not its own parent.
   */
  lemma EntitiesAcceptedIff(req: AuthzRequest, host: Host)
    requires IsCedar(host.library) && AttributesStay(req)
    ensures EntitiesAccepted(req, host) <==>
      && AttributesWhole(req)
      && (req.subject.Some? ==> host.library.typeName(SubjectType(req.subject.value.kind)))
      && !OwnParent(req, host.groupMembers)
  {
    hide AllWhole, StringsStay, SetStays, SetsAccepted, StringsAccepted, PrincipalSets, PrincipalStrings, SubjectSets,
      SubjectStrings, ResourceStrings, SubjectType, Nodes, OwnParent, Acyclic, ReadsAttribute, FailsAttribute, IsWord, KEYWORDS;
    NodesAcyclicIff(req, host.groupMembers);
    var lib := host.library;
    var a, b, c, d, e := PrincipalSets(req), PrincipalStrings(req), SubjectSets(req), SubjectStrings(req), ResourceStrings(req);
    assert forall l :: l in AttributeLists(req) <==> l in a || l == b || l in c || l == d || l == e;
    SetsAcceptedIff(lib, a);
    StringsAcceptedIff(lib, b);
    SetsAcceptedIff(lib, c);
    StringsAcceptedIff(lib, d);
    StringsAcceptedIff(lib, e);
  }

  /** Without backslashes and carriage returns every string is whole. */
  lemma {:induction false} PlainIsWhole(v: string)
    requires '\\' !in v && '\r' !in v
    ensures FateOf(v) == Whole
    decreases |v|
  {
    if v != "" {
      assert v[0] in v && forall c | c in v[1..] :: c in v;
      PlainIsWhole(v[1..]);
    }
  }

  lemma {:induction false} WholeStays(vals: seq<string>)
    requires AllWhole(vals)
    ensures SetStays(vals) && StringsStay(vals)
    decreases vals
  {
    hide FateOf;
    if vals != [] { WholeStays(vals[1..]); }
  }

  predicate AttributesPlain(req: AuthzRequest) {
    forall l, v | l in AttributeLists(req) && v in l :: '\\' !in v && '\r' !in v
  }

  /** No subject, or one whose kind is an identifier and not a group. */
  predicate OrdinarySubject(req: AuthzRequest) {
    req.subject.Some? ==>
      var t := SubjectType(req.subject.value.kind);
      IsWord(t) && t !in KEYWORDS && t != "Group"
  }

  /** Requests of ordinary strings and an ordinary subject always have their entities built. */
  lemma PlainEntitiesAccepted(req: AuthzRequest, host: Host)
    requires IsCedar(host.library) && AttributesPlain(req) && OrdinarySubject(req)
    ensures EntitiesAccepted(req, host)
  {
    hide EntitiesAccepted, FateOf, SubjectType, IsWord, KEYWORDS, ReadsAttribute, FailsAttribute, SetStays, StringsStay,
      Acyclic, PrincipalSets, PrincipalStrings, SubjectSets, SubjectStrings, ResourceStrings, Memberships, Groups;
    forall l | l in AttributeLists(req)
      ensures AllWhole(l) && SetStays(l) && StringsStay(l)
    {
      assert AllWhole(l) by { PlainAreWhole(l); }
      WholeStays(l);
    }
    ListsAre(req);
    if req.subject.Some? { ParentsAreGroups(req, host.groupMembers); }
    EntitiesAcceptedIff(req, host);
  }

  lemma PlainAreWhole(l: seq<string>)
    requires forall v | v in l :: '\\' !in v && '\r' !in v
    ensures AllWhole(l)
  {
    hide FateOf;
    forall i | 0 <= i < |l|
      ensures FateOf(l[i]) == Whole
    {
      PlainIsWhole(l[i]);
    }
  }

  lemma ListsAre(req: AuthzRequest)
    ensures forall l | l in PrincipalSets(req) + SubjectSets(req) :: l in AttributeLists(req)
    ensures PrincipalStrings(req) in AttributeLists(req) && SubjectStrings(req) in AttributeLists(req)
    ensures ResourceStrings(req) in AttributeLists(req)
  {
    hide PrincipalSets, PrincipalStrings, SubjectSets, SubjectStrings, ResourceStrings;
    var a, b, c, d, e := PrincipalSets(req), PrincipalStrings(req), SubjectSets(req), SubjectStrings(req), ResourceStrings(req);
    assert forall l :: l in AttributeLists(req) <==> l in a || l == b || l in c || l == d || l == e;
  }

  // ----- two requests that fail -----

  lemma {:induction false} BrokenStays(vals: seq<string>, i: nat)
    requires i < |vals| && FateOf(vals[i]) == Broken && forall j | 0 <= j < i :: FateOf(vals[j]) == Whole
    ensures SetStays(vals)
    decreases i
  {
    hide FateOf;
    if i > 0 { BrokenStays(vals[1..], i - 1); }
  }

  lemma DomainNameIsBroken()
    ensures FateOf("CORP\\Finance") == Broken
  {
    var v := "CORP\\Finance";
    assert v[1..] == "ORP\\Finance";
    assert v[1..][1..] == "RP\\Finance";
    assert v[1..][1..][1..] == "P\\Finance";
    assert v[1..][1..][1..][1..] == "\\Finance";
    assert "\\Finance"[1..] == "Finance";
    assert ReadEscape("Finance") == None;
  }

  /** A role written with its domain, behind roles that read well, ends the evaluation in a panic. */
  lemma DomainRoleFails(req: AuthzRequest, host: Host, i: nat)
    requires IsCedar(host.library)
    requires i < |req.principal.roles| && req.principal.roles[i] == "CORP\\Finance"
    requires forall j | 0 <= j < i :: FateOf(req.principal.roles[j]) == Whole
    ensures EntityStage(req, host) == Err(AttributePanic)
  {
    hide FateOf, SetStays, ReadsAttribute, FailsAttribute, SetText, Nodes, Acyclic;
    DomainNameIsBroken();
    BrokenStays(req.principal.roles, i);
    SetReads(req.principal.roles);
    assert PrincipalSets(req)[0] == req.principal.roles;
  }

  /** A subject kind with a blank in it is an error. */
  lemma SpacedKindFails(req: AuthzRequest, host: Host)
    requires IsCedar(host.library) && req.subject.Some? && req.subject.value.kind == "Sales Rep"
    ensures !EntitiesAccepted(req, host)
  {
    hide ReadsAttribute, FailsAttribute, Nodes, Acyclic, SetsAccepted, StringsAccepted, IsWord, KEYWORDS;
    assert Lower("Sales Rep")[5] == ' ' && "user" != Lower("Sales Rep");
    assert SubjectType("Sales Rep") == "Sales Rep";
    assert "Sales Rep"[5] == ' ';
  }
}
