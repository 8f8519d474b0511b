/** Which entities a request has, with which parents and attributes, in terms of the request: entities.rs. */
module EntityContents {
  import opened Text
  import opened Requests
  import opened Entities
  import opened CedarText

  // ----- parents -----

  /** The request or the configuration makes this id a member of the group. */
  ghost predicate MemberOf(req: AuthzRequest, members: GroupMembers, id: string, group: string) {
    || (exists rel :: rel in req.relationships && rel.kind == GroupMember && rel.from == id && rel.to == group)
    || (exists e :: e in members && e.0 == group && id in e.1)
  }

  lemma MembershipsAre(req: AuthzRequest, members: GroupMembers, id: string, p: Uid)
    ensures p in Memberships(req.relationships, members, id) <==> p.kind == "Group" && MemberOf(req, members, id, p.id)
  {
    var rels := req.relationships;
    if p in Memberships(rels, members, id) {
      if i :| 0 <= i < |rels| && rels[i].kind == GroupMember && rels[i].from == id && p == Group(rels[i].to) {
        assert rels[i] in rels;
      } else {
        var i :| 0 <= i < |members| && id in members[i].1 && p == Group(members[i].0);
        assert members[i] in members;
      }
    }
    if p.kind == "Group" {
      assert p == Group(p.id);
      if rel :| rel in rels && rel.kind == GroupMember && rel.from == id && rel.to == p.id {
        var i :| 0 <= i < |rels| && rels[i] == rel;
        assert Group(rels[i].to) in Memberships(rels, members, id);
      }
      if e :| e in members && e.0 == p.id && id in e.1 {
        var i :| 0 <= i < |members| && members[i] == e;
        assert Group(members[i].0) in Memberships(rels, members, id);
      }
    }
  }

  lemma GroupsAre(ids: seq<string>, p: Uid)
    ensures p in Groups(ids) <==> p.kind == "Group" && p.id in ids
  {
    if p.kind == "Group" { assert p == Group(p.id); }
  }

  /** The parents of principal and subject are the groups they list and those they are made members of. */
  lemma ParentsAre(req: AuthzRequest, members: GroupMembers, p: Uid)
    ensures var node := PrincipalNode(req, members);
            && node.uid == Uid("User", req.principal.id)
            && (p in node.parents <==>
                  p.kind == "Group" && (p.id in req.principal.groups || MemberOf(req, members, req.principal.id, p.id)))
    ensures req.subject.Some? ==>
      var node, subject := SubjectNode(req, members), req.subject.value;
      && node.uid.id == subject.id
      && (p in node.parents <==>
            p.kind == "Group" && (p.id in subject.groups || MemberOf(req, members, subject.id, p.id)))
  {
    hide Memberships, Groups, MemberOf;
    MembershipsAre(req, members, req.principal.id, p);
    GroupsAre(req.principal.groups, p);
    if req.subject.Some? {
      MembershipsAre(req, members, req.subject.value.id, p);
      GroupsAre(req.subject.value.groups, p);
    }
  }

  /** Only a subject of kind `Group` can be its own parent: when it lists itself or is made a member of itself. */
  lemma OwnParentIff(req: AuthzRequest, members: GroupMembers)
    ensures OwnParent(req, members) <==>
      && req.subject.Some? && req.subject.value.kind == "Group"
      && (req.subject.value.id in req.subject.value.groups || MemberOf(req, members, req.subject.value.id, req.subject.value.id))
  {
    hide MemberOf, Memberships, Lower;
    if req.subject.Some? {
      ParentsAre(req, members, SubjectNode(req, members).uid);
      GroupIsNoUser();
    }
  }

  lemma GroupIsNoUser()
    ensures Lower("Group") != "user"
  {
    assert Lower("Group")[0] == 'g';
  }

  // ----- entities -----

  ghost predicate Listed(nodes: seq<Node>, u: Uid) {
    exists n :: n in nodes && n.uid == u
  }

  lemma ListedAfterAdd(nodes: seq<Node>, n: Node, u: Uid)
    ensures Listed(AddNode(nodes, n), u) <==> Listed(nodes, u) || u == n.uid
  {
    if i :| 0 <= i < |nodes| && nodes[i].uid == n.uid {
      assert nodes[i] in nodes;
    } else {
      assert n in nodes + [n];
      assert forall x :: x in nodes ==> x in nodes + [n];
    }
  }

  lemma {:induction false} ListedAfterGroups(nodes: seq<Node>, groups: seq<string>, u: Uid)
    ensures Listed(AddGroups(nodes, groups), u) <==> Listed(nodes, u) || (u.kind == "Group" && u.id in groups)
    decreases groups
  {
    hide AddNode, Listed;
    if groups != [] {
      var n := Node(Group(groups[0]), {});
      ListedAfterAdd(nodes, n, u);
      ListedAfterGroups(AddNode(nodes, n), groups[1..], u);
    }
  }

  lemma {:induction false} LinkedAre(rels: seq<Relationship>, group: string)
    ensures group in Linked(rels) <==> exists rel :: rel in rels && rel.kind == GroupMember && rel.to == group
    decreases rels
  {
    if rels != [] {
      LinkedAre(rels[1..], group);
      assert forall rel :: rel in rels <==> rel == rels[0] || rel in rels[1..];
    }
  }

  /** A group is an entity when principal or subject lists it, a membership leads to it, or the configuration names it. */
  ghost predicate IsGroupOf(req: AuthzRequest, members: GroupMembers, group: string) {
    || group in req.principal.groups || (req.subject.Some? && group in req.subject.value.groups)
    || (exists rel :: rel in req.relationships && rel.kind == GroupMember && rel.to == group)
    || (exists e :: e in members && e.0 == group)
  }

  lemma GroupNamesAre(req: AuthzRequest, members: GroupMembers, group: string)
    ensures group in GroupNames(req, members) <==> IsGroupOf(req, members, group)
  {
    hide Linked;
    LinkedAre(req.relationships, group);
    var names := Configured(members);
    if group in names {
      var i :| 0 <= i < |names| && names[i] == group;
      assert members[i] in members;
    }
    if e :| e in members && e.0 == group {
      var i :| 0 <= i < |members| && members[i] == e;
      assert names[i] == group;
    }
  }

  /** The entities of a request: principal, subject, resource and action, and every group there is. */
  lemma EntitiesAre(req: AuthzRequest, members: GroupMembers, u: Uid)
    ensures Listed(Nodes(req, members), u) <==>
      || u == Uid("User", req.principal.id)
      || (req.subject.Some? && u == SubjectNode(req, members).uid)
      || u == Uid("Resource", if req.resource.id.Some? then req.resource.id.value else req.resource.kind)
      || u == Uid("Action", Upper(req.action))
      || (u.kind == "Group" && IsGroupOf(req, members, u.id))
  {
    hide Listed, AddNode, AddGroups, Memberships, Groups, GroupNames, IsGroupOf, Upper, SubjectNode;
    GroupNamesAre(req, members, u.id);
    var principal := [PrincipalNode(req, members)];
    assert Listed(principal, u) <==> u == Uid("User", req.principal.id) by { ListedAlone(PrincipalNode(req, members), u); }
    var people := if req.subject.Some? then AddNode(principal, SubjectNode(req, members)) else principal;
    if req.subject.Some? { ListedAfterAdd(principal, SubjectNode(req, members), u); }
    var resource := Node(Uid("Resource", ResourceId(req)), {});
    ListedAfterAdd(people, resource, u);
    ListedAfterGroups(AddNode(people, resource), GroupNames(req, members), u);
    ListedAfterAdd(AddGroups(AddNode(people, resource), GroupNames(req, members)), Node(Uid("Action", Upper(req.action)), {}), u);
  }

  lemma ListedAlone(n: Node, u: Uid)
    ensures Listed([n], u) <==> u == n.uid
  {
    assert n in [n];
  }

  // ----- attributes -----

  ghost predicate ReadsBack(v: string) {
    FateOf(v) == Whole
  }

  ghost predicate AllReadBack(vals: seq<string>) {
    forall v | v in vals :: ReadsBack(v)
  }

  ghost predicate ValuesReadBack(m: StringMap) {
    forall e | e in m :: ReadsBack(e.1)
  }

  lemma WholeMeans(vals: seq<string>)
    ensures AllWhole(vals) <==> AllReadBack(vals)
  {
    hide FateOf;
    forall i | 0 <= i < |vals|
      ensures ReadsBack(vals[i]) <==> FateOf(vals[i]) == Whole
      ensures vals[i] in vals
    {}
  }

  lemma ValuesMean(m: StringMap)
    ensures AllReadBack(Values(m)) <==> ValuesReadBack(m)
  {
    hide ReadsBack;
    forall e | e in m
      ensures e.1 in Values(m)
    {
      var i :| 0 <= i < |m| && m[i] == e;
      assert Values(m)[i] == e.1;
    }
    forall v | v in Values(m)
      ensures exists e :: e in m && e.1 == v
    {
      var i :| 0 <= i < |Values(m)| && Values(m)[i] == v;
      assert m[i] in m;
    }
  }

  lemma {:induction false} RelatedAre(rels: seq<Relationship>, kind: RelationshipKind, from: string, to: string)
    ensures to in Related(rels, kind, from) <==> exists rel :: rel in rels && rel.kind == kind && rel.from == from && rel.to == to
    decreases rels
  {
    if rels != [] {
      RelatedAre(rels[1..], kind, from, to);
      assert forall rel :: rel in rels <==> rel == rels[0] || rel in rels[1..];
    }
  }

  lemma RelatedMean(rels: seq<Relationship>, kind: RelationshipKind, from: string)
    ensures AllReadBack(Related(rels, kind, from)) <==>
      forall rel | rel in rels && rel.kind == kind && rel.from == from :: ReadsBack(rel.to)
  {
    hide ReadsBack, Related;
    forall to { RelatedAre(rels, kind, from, to); }
  }

  /** The strings that become attributes: all of the principal's, the subject's and the resource's, and the other ends of management edges. */
  lemma AttributesWholeIff(req: AuthzRequest)
    ensures AttributesWhole(req) <==>
      && AllReadBack(req.principal.roles) && AllReadBack(req.principal.groups) && ValuesReadBack(req.principal.attrs)
      && (forall rel | rel in req.relationships && rel.kind == DirectReports && rel.from == req.principal.id :: ReadsBack(rel.to))
      && (forall rel | rel in req.relationships && rel.kind == ManagerOf && rel.from == req.principal.id :: ReadsBack(rel.to))
      && (req.onBehalfOf.Some? ==> ReadsBack(req.onBehalfOf.value)) && (req.actingAs.Some? ==> ReadsBack(req.actingAs.value))
      && (req.subject.Some? ==> AllReadBack(req.subject.value.groups) && ValuesReadBack(req.subject.value.attrs))
      && ReadsBack(req.resource.kind) && ValuesReadBack(req.resource.attrs)
  {
    hide FateOf, ReadsBack, ValuesReadBack, Values, Related, PrincipalSets, PrincipalStrings, SubjectSets, SubjectStrings,
      ResourceStrings, AttributesWhole;
    RelatedMean(req.relationships, DirectReports, req.principal.id);
    RelatedMean(req.relationships, ManagerOf, req.principal.id);
    ValuesMean(req.principal.attrs);
    ValuesMean(req.resource.attrs);
    if req.subject.Some? { ValuesMean(req.subject.value.attrs); }
    ListsMean(req);
    SetsMean(req);
    StringsMean(req);
  }

  lemma AppendReadsBack(a: seq<string>, b: seq<string>)
    ensures AllReadBack(a + b) <==> AllReadBack(a) && AllReadBack(b)
  {
    hide ReadsBack;
    assert forall v :: v in a + b <==> v in a || v in b;
  }

  lemma StringsMean(req: AuthzRequest)
    ensures AllReadBack(PrincipalStrings(req)) <==>
      AllReadBack(Values(req.principal.attrs)) && AllReadBack(Present(req.onBehalfOf)) && AllReadBack(Present(req.actingAs))
    ensures AllReadBack(ResourceStrings(req)) <==> ReadsBack(req.resource.kind) && AllReadBack(Values(req.resource.attrs))
    ensures AllReadBack(SubjectStrings(req)) <==> (req.subject.Some? ==> AllReadBack(Values(req.subject.value.attrs)))
  {
    hide ReadsBack, Values;
    AppendReadsBack(Values(req.principal.attrs), Present(req.onBehalfOf));
    AppendReadsBack(Values(req.principal.attrs) + Present(req.onBehalfOf), Present(req.actingAs));
    AppendReadsBack([req.resource.kind], Values(req.resource.attrs));
    assert req.resource.kind in [req.resource.kind];
  }

  lemma SetsMean(req: AuthzRequest)
    ensures (forall l | l in PrincipalSets(req) :: AllReadBack(l)) <==>
      AllReadBack(req.principal.roles) && AllReadBack(req.principal.groups) && AllReadBack(Reports(req)) && AllReadBack(Managed(req))
    ensures (forall l | l in SubjectSets(req) :: AllReadBack(l)) <==> (req.subject.Some? ==> AllReadBack(req.subject.value.groups))
  {
    hide ReadsBack, Related;
    var a := PrincipalSets(req);
    assert req.principal.roles in a && req.principal.groups in a && Reports(req) in a;
    assert Managed(req) != [] ==> Managed(req) in a;
    if req.subject.Some? { assert req.subject.value.groups in SubjectSets(req); }
  }

  lemma ListsMean(req: AuthzRequest)
    ensures AttributesWhole(req) <==>
      && (forall l | l in PrincipalSets(req) :: AllReadBack(l)) && AllReadBack(PrincipalStrings(req))
      && (forall l | l in SubjectSets(req) :: AllReadBack(l)) && AllReadBack(SubjectStrings(req))
      && AllReadBack(ResourceStrings(req))
  {
    hide AllReadBack, AllWhole, PrincipalSets, PrincipalStrings, SubjectSets, SubjectStrings, ResourceStrings;
    forall l { WholeMeans(l); }
    var a, b, c, d, e := PrincipalSets(req), PrincipalStrings(req), SubjectSets(req), SubjectStrings(req), ResourceStrings(req);
    assert forall l :: l in AttributeLists(req) <==> l in a || l == b || l in c || l == d || l == e;
  }

  // ----- failures -----

  ghost predicate PrincipalReadsBack(req: AuthzRequest) {
    && (forall l | l in PrincipalSets(req) :: AllReadBack(l)) && AllReadBack(PrincipalStrings(req))
  }

  ghost predicate SubjectReadsBack(req: AuthzRequest) {
    && (forall l | l in SubjectSets(req) :: AllReadBack(l)) && AllReadBack(SubjectStrings(req))
  }

  /**
   * The first failure: an attribute of principal or subject ends in the panic, then a kind that is no
   * type name is an error, then an attribute of the resource panics, and then a cycle is an error.
   */
  lemma StageFails(req: AuthzRequest, host: Host)
    requires IsCedar(host.library) && AttributesStay(req)
    ensures EntityStage(req, host) ==
      if !PrincipalReadsBack(req) || !SubjectReadsBack(req) then Err(AttributePanic)
      else if req.subject.Some? && !host.library.typeName(SubjectType(req.subject.value.kind)) then Err(BadSubjectKind)
      else if !AllReadBack(ResourceStrings(req)) then Err(AttributePanic)
      else if OwnParent(req, host.groupMembers) then Err(BadEntities)
      else Ok(Nodes(req, host.groupMembers))
  {
    hide AllWhole, AllReadBack, StringsStay, SetStays, SetsAccepted, StringsAccepted, PrincipalSets, PrincipalStrings,
      SubjectSets, SubjectStrings, ResourceStrings, SubjectType, Nodes, OwnParent, Acyclic, ReadsAttribute, FailsAttribute,
      IsWord, KEYWORDS;
    NodesAcyclicIff(req, host.groupMembers);
    forall l { WholeMeans(l); }
    SetsAcceptedIff(host.library, PrincipalSets(req));
    StringsAcceptedIff(host.library, PrincipalStrings(req));
    SetsAcceptedIff(host.library, SubjectSets(req));
    StringsAcceptedIff(host.library, SubjectStrings(req));
    StringsAcceptedIff(host.library, ResourceStrings(req));
  }
}
