/** The context record that a request is evaluated on. */
module Contexts {
  import opened Text
  import opened Json
  import opened Requests
  import Cedar

  // ----- JSON to Cedar values -----

  function ValueOf(j: Json): Option<Cedar.Value>
    decreases j, 1
  {
    match j
    case Null => None
    case Bool(b) => Some(Cedar.Bool(b))
    case Num(_) => None
    case Str(s) => Some(Cedar.Str(s))
    case Arr(items) =>
      (match SetOf(items) case None => None case Some(vs) => Some(Cedar.Set(vs)))
    case Obj(members) =>
      (match RecordOf(members) case None => None case Some(m) => Some(Cedar.Record(m)))
  }

  function SetOf(items: seq<Json>): Option<set<Cedar.Value>>
    decreases items, 0
  {
    if items == [] then Some({})
    else
      match (ValueOf(items[0]), SetOf(items[1..]))
      case (Some(v), Some(vs)) => Some({v} + vs)
      case _ => None
  }

  /** Member names must be unique (section 4 of RFC 8259 leaves the other case open). */
  function RecordOf(members: seq<Entry>): Option<Cedar.Context>
    decreases members, 0
  {
    if members == [] then Some(map[])
    else
      match (ValueOf(members[0].value), RecordOf(members[1..]))
      case (Some(v), Some(m)) => if members[0].key in m then None else Some(m[members[0].key := v])
      case _ => None
  }

  /** What the context document denotes, when it can be read. */
  function ReadContext(text: string): Option<Cedar.Context> {
    match ReadDocument(text)
    case Some(Obj(members)) => RecordOf(members)
    case _ => None
  }

  // ----- the intended record -----

  function StrSet(items: seq<string>): set<Cedar.Value> {
    set v | v in items :: Cedar.Str(v)
  }

  function ValuesRecord(values: StringMap): Cedar.Context {
    if values == [] then map[] else ValuesRecord(values[1..])[values[0].0 := Cedar.Str(values[0].1)]
  }

  function FixedRecord(req: AuthzRequest): Cedar.Context {
    map["action_name" := Cedar.Str(Upper(req.action)),
        "resource_kind" := Cedar.Str(Upper(req.resource.kind)),
        "subject_is_self" := Cedar.Bool(SubjectIsSelf(req)),
        "subject_in_direct_reports" := Cedar.Bool(SubjectInDirectReports(req)),
        "subject_id" := Cedar.Str(SubjectId(req)),
        "subject_groups" := Cedar.Set(StrSet(SubjectGroups(req))),
        "principal_roles" := Cedar.Set(StrSet(req.principal.roles)),
        "principal_groups" := Cedar.Set(StrSet(req.principal.groups))]
  }

  /** The record of roles, groups, flags and values that the request stands for. */
  function ContextOf(req: AuthzRequest): Cedar.Context {
    ValuesRecord(req.values) + FixedRecord(req)
  }

  const RESERVED := {"action_name", "resource_kind", "subject_is_self", "subject_in_direct_reports",
                     "subject_id", "subject_groups", "principal_roles", "principal_groups"}

  predicate DistinctKeys(values: StringMap) {
    forall i, j | 0 <= i < j < |values| :: values[i].0 != values[j].0
  }

  predicate KeysUnreserved(values: StringMap) {
    forall i | 0 <= i < |values| :: values[i].0 !in RESERVED
  }

  /** Action and kind are written without escaping. */
  predicate PlainTarget(req: AuthzRequest) {
    PlainName(req.action) && PlainName(req.resource.kind)
  }

  predicate AllControlFree(items: seq<string>) {
    forall i | 0 <= i < |items| :: ControlFree(items[i])
  }

  /** No text that ends up in the document holds a control character. */
  predicate RequestControlFree(req: AuthzRequest) {
    && ControlFree(req.action) && ControlFree(req.resource.kind)
    && ControlFree(SubjectId(req)) && AllControlFree(SubjectGroups(req))
    && (forall i | 0 <= i < |req.values| :: ControlFree(req.values[i].0) && ControlFree(req.values[i].1))
    && AllControlFree(req.principal.roles) && AllControlFree(req.principal.groups)
  }

  // ----- the record read back -----

  predicate DistinctNames(members: seq<Entry>) {
    forall i, j | 0 <= i < j < |members| :: members[i].key != members[j].key
  }

  ghost predicate Records(m: Cedar.Context, members: seq<Entry>) {
    && (forall k :: k in m <==> exists i :: 0 <= i < |members| && members[i].key == k)
    && (forall i | 0 <= i < |members| :: members[i].key in m && Some(m[members[i].key]) == ValueOf(members[i].value))
  }

  lemma {:induction false} RecordOfMembers(members: seq<Entry>)
    requires forall i | 0 <= i < |members| :: ValueOf(members[i].value).Some?
    ensures RecordOf(members).Some? <==> DistinctNames(members)
    ensures RecordOf(members).Some? ==> Records(RecordOf(members).value, members)
  {
    hide ValueOf;
    if members != [] {
      var rest := members[1..];
      RecordOfMembers(rest);
      DistinctCons(members);
      if RecordOf(rest).Some? && RecordOf(members).Some? {
        RecordsCons(RecordOf(rest).value, members, ValueOf(members[0].value).value);
      }
    }
  }

  lemma DistinctCons(members: seq<Entry>)
    requires members != []
    ensures DistinctNames(members) <==>
      DistinctNames(members[1..]) && !(exists i :: 0 <= i < |members[1..]| && members[1..][i].key == members[0].key)
  {
    var rest := members[1..];
    assert forall i | 0 < i < |members| :: members[i] == rest[i - 1];
    if DistinctNames(members) {
      assert forall i | 0 <= i < |rest| :: rest[i] == members[i + 1];
    }
  }

  lemma RecordsCons(m: Cedar.Context, members: seq<Entry>, v: Cedar.Value)
    requires members != [] && Records(m, members[1..]) && members[0].key !in m
    requires ValueOf(members[0].value) == Some(v)
    ensures Records(m[members[0].key := v], members)
  {
    hide ValueOf;
    var m2, rest := m[members[0].key := v], members[1..];
    forall k
      ensures k in m2 <==> exists i :: 0 <= i < |members| && members[i].key == k
    {
      if k in m {
        var i :| 0 <= i < |rest| && rest[i].key == k;
        assert members[i + 1].key == k;
      }
      if i :| 0 <= i < |members| && members[i].key == k {
        if i > 0 { assert rest[i - 1].key == k; }
      }
    }
    forall i | 0 <= i < |members|
      ensures members[i].key in m2 && Some(m2[members[i].key]) == ValueOf(members[i].value)
    {
      if i > 0 { assert rest[i - 1] == members[i]; }
    }
  }

  // ----- fields as values -----

  function FieldValue(f: Field): Cedar.Value {
    match f
    case Verbatim(s) => Cedar.Str(s)
    case Escaped(s) => Cedar.Str(s)
    case Flag(b) => Cedar.Bool(b)
    case List(items) => Cedar.Set(StrSet(items))
  }

  lemma {:induction false} SetOfStrs(items: seq<string>)
    ensures SetOf(StrAll(items)) == Some(StrSet(items))
  {
    if items == [] {
      assert StrAll(items) == [] && StrSet(items) == {};
    } else {
      SetOfStrs(items[1..]);
      assert StrAll(items)[1..] == StrAll(items[1..]);
      assert StrSet(items) == {Cedar.Str(items[0])} + StrSet(items[1..]) by {
        assert items == [items[0]] + items[1..];
      }
    }
  }

  lemma FieldValueOf(f: Field)
    ensures ValueOf(FieldJson(f)) == Some(FieldValue(f))
  {
    if f.List? {
      SetOfStrs(f.items);
    }
  }

  // ----- the round trip -----

  lemma UpperControlFree(s: string)
    ensures ControlFree(Upper(s)) <==> ControlFree(s)
  {
    assert forall i | 0 <= i < |s| :: IsControl(Upper(s)[i]) == IsControl(s[i]);
  }

  lemma UpperPlain(s: string)
    requires PlainName(s)
    ensures '"' !in Upper(s) && '\\' !in Upper(s)
  {
    UpperKeepsNonLetters(s, '"');
    UpperKeepsNonLetters(s, '\\');
  }

  lemma ListReadable(items: seq<string>)
    ensures FieldReadable(List(items)) <==> AllControlFree(items)
  {
    hide ControlFree;
    if FieldReadable(List(items)) {
      forall i | 0 <= i < |items| ensures ControlFree(items[i]) { assert items[i] in items; }
    }
  }

  lemma FixedNamesControlFree()
    ensures ControlFree("action_name") && ControlFree("resource_kind")
    ensures ControlFree("subject_is_self") && ControlFree("subject_in_direct_reports")
    ensures ControlFree("subject_id") && ControlFree("subject_groups")
    ensures ControlFree("principal_roles") && ControlFree("principal_groups")
  {
    hide ControlFree;
    FixedSubjectNamesControlFree();
    FixedOtherNamesControlFree();
  }

  lemma FixedOtherNamesControlFree()
    ensures ControlFree("action_name") && ControlFree("resource_kind")
    ensures ControlFree("principal_roles") && ControlFree("principal_groups")
  {}

  lemma FixedSubjectNamesControlFree()
    ensures ControlFree("subject_is_self") && ControlFree("subject_in_direct_reports")
    ensures ControlFree("subject_id") && ControlFree("subject_groups")
  {}

  lemma MembersReadable(req: AuthzRequest)
    ensures (forall m | m in Members(req) :: MemberReadable(m)) <==> RequestControlFree(req)
  {
    hide ControlFree, AllControlFree, Upper, SubjectIsSelf, SubjectInDirectReports, SubjectId, SubjectGroups;
    FixedNamesControlFree();
    UpperControlFree(req.action);
    UpperControlFree(req.resource.kind);
    ListReadable(SubjectGroups(req));
    ListReadable(req.principal.roles);
    ListReadable(req.principal.groups);
    var h, v, t := HeadMembers(req), ValueMembers(req.values), TailMembers(req);
    assert forall m :: m in Members(req) <==> m in h || m in v || m in t;
    if forall m | m in Members(req) :: MemberReadable(m) {
      assert h[0] in h && h[1] in h && h[4] in h && h[5] in h && t[0] in t && t[1] in t;
      forall i | 0 <= i < |req.values|
        ensures ControlFree(req.values[i].0) && ControlFree(req.values[i].1)
      {
        assert v[i] in v && MemberReadable(v[i]);
      }
    }
  }

  lemma MembersVerbatimPlain(req: AuthzRequest)
    requires PlainTarget(req)
    ensures forall m | m in Members(req) :: VerbatimPlain(m.1)
  {
    hide PlainName, SubjectIsSelf, SubjectInDirectReports, SubjectId, SubjectGroups;
    UpperPlain(req.action);
    UpperPlain(req.resource.kind);
  }

  // ----- names -----

  const HEAD_NAMES := ["action_name", "resource_kind", "subject_is_self", "subject_in_direct_reports",
                       "subject_id", "subject_groups"]
  const TAIL_NAMES := ["principal_roles", "principal_groups"]

  lemma FixedNamesDiffer()
    ensures NoRepeats(HEAD_NAMES) && NoRepeats(TAIL_NAMES)
    ensures forall n | n in HEAD_NAMES :: n !in TAIL_NAMES
    ensures forall n :: n in RESERVED <==> n in HEAD_NAMES || n in TAIL_NAMES
  {}

  lemma NoRepeatsAppend(a: seq<string>, b: seq<string>)
    ensures NoRepeats(a + b) <==> NoRepeats(a) && NoRepeats(b) && (forall n | n in a :: n !in b)
  {
    var s := a + b;
    assert forall i | 0 <= i < |b| :: s[|a| + i] == b[i];
    if NoRepeats(s) {
      forall i, j | 0 <= i < j < |a| ensures a[i] != a[j] { assert s[i] != s[j]; }
      forall i, j | 0 <= i < j < |b| ensures b[i] != b[j] { assert s[|a| + i] != s[|a| + j]; }
      forall n | n in a ensures n !in b {
        var i :| 0 <= i < |a| && a[i] == n;
        forall j | 0 <= j < |b| ensures b[j] != n { assert s[i] != s[|a| + j]; }
      }
    }
    if NoRepeats(a) && NoRepeats(b) && (forall n | n in a :: n !in b) {
      forall i, j | 0 <= i < j < |s|
        ensures s[i] != s[j]
      {
        if j < |a| {
          assert a[i] != a[j];
        } else if i < |a| {
          assert a[i] in a && b[j - |a|] in b;
        } else {
          assert b[i - |a|] != b[j - |a|];
        }
      }
    }
  }

  function Keys(values: StringMap): (r: seq<string>)
    ensures |r| == |values| && forall i | 0 <= i < |values| :: r[i] == values[i].0
  {
    seq(|values|, i requires 0 <= i < |values| => values[i].0)
  }

  lemma MembersDistinct(req: AuthzRequest)
    ensures DistinctNames(MemberJsons(Members(req))) <==> DistinctKeys(req.values) && KeysUnreserved(req.values)
  {
    hide FieldJson, HeadMembers, HEAD_NAMES, TAIL_NAMES, RESERVED;
    var keys := Keys(req.values);
    var names := HEAD_NAMES + keys + TAIL_NAMES;
    MemberNames(req);
    FixedNamesDiffer();
    NoRepeatsAppend(HEAD_NAMES + keys, TAIL_NAMES);
    NoRepeatsAppend(HEAD_NAMES, keys);
    assert NoRepeats(keys) <==> DistinctKeys(req.values);
    assert DistinctNames(MemberJsons(Members(req))) <==> NoRepeats(names);
    if KeysUnreserved(req.values) {
      forall n | n in keys
        ensures n !in HEAD_NAMES && n !in TAIL_NAMES
      {
        var i :| 0 <= i < |keys| && keys[i] == n;
        assert req.values[i].0 !in RESERVED;
      }
      assert forall n | n in HEAD_NAMES + keys :: n !in TAIL_NAMES;
    } else {
      var i :| 0 <= i < |req.values| && req.values[i].0 in RESERVED;
      var n := keys[i];
      assert n in keys && n in HEAD_NAMES + keys;
      if n in HEAD_NAMES {
        assert !NoRepeats(HEAD_NAMES + keys);
      } else {
        assert n in TAIL_NAMES;
        assert !NoRepeats(names);
      }
    }
  }

  lemma MemberNames(req: AuthzRequest)
    ensures var names := HEAD_NAMES + Keys(req.values) + TAIL_NAMES;
            && |Members(req)| == |names|
            && forall i | 0 <= i < |names| :: Members(req)[i].0 == names[i]
  {
    hide SubjectIsSelf, SubjectInDirectReports, SubjectId, SubjectGroups, Upper;
    HeadNames(req);
    var h, v, t := HeadMembers(req), ValueMembers(req.values), TailMembers(req);
    var keys := Keys(req.values);
    forall i | 0 <= i < |h| + |v| + |t|
      ensures Members(req)[i].0 == (HEAD_NAMES + keys + TAIL_NAMES)[i]
    {
      hide HeadMembers, TailMembers, HEAD_NAMES, TAIL_NAMES;
    }
  }

  lemma HeadNames(req: AuthzRequest)
    ensures |HeadMembers(req)| == |HEAD_NAMES| && forall i | 0 <= i < |HEAD_NAMES| :: HeadMembers(req)[i].0 == HEAD_NAMES[i]
    ensures |TailMembers(req)| == |TAIL_NAMES| && forall i | 0 <= i < |TAIL_NAMES| :: TailMembers(req)[i].0 == TAIL_NAMES[i]
  {
    hide SubjectIsSelf, SubjectInDirectReports, SubjectId, SubjectGroups, Upper;
  }

  // ----- the round trip -----

  lemma {:induction false} ValuesRecordIs(values: StringMap)
    requires DistinctKeys(values)
    ensures forall k :: k in ValuesRecord(values) <==> exists i :: 0 <= i < |values| && values[i].0 == k
    ensures forall i | 0 <= i < |values| :: values[i].0 in ValuesRecord(values)
                                         && ValuesRecord(values)[values[i].0] == Cedar.Str(values[i].1)
  {
    if values != [] {
      var rest := values[1..];
      ValuesRecordIs(rest);
      forall i | 0 <= i < |values|
        ensures values[i].0 in ValuesRecord(values) && ValuesRecord(values)[values[i].0] == Cedar.Str(values[i].1)
      {
        if i > 0 { assert rest[i - 1] == values[i]; }
      }
      forall k
        ensures k in ValuesRecord(values) <==> exists i :: 0 <= i < |values| && values[i].0 == k
      {
        if k in ValuesRecord(rest) {
          var i :| 0 <= i < |rest| && rest[i].0 == k;
          assert values[i + 1].0 == k;
        }
        if i :| 0 <= i < |values| && values[i].0 == k {
          if i > 0 { assert rest[i - 1].0 == k; }
        }
      }
    }
  }

  lemma RecordsUnique(m1: Cedar.Context, m2: Cedar.Context, members: seq<Entry>)
    requires Records(m1, members) && Records(m2, members)
    ensures m1 == m2
  {
    hide ValueOf;
    assert m1.Keys == m2.Keys;
    forall k | k in m1 ensures m1[k] == m2[k] {
      var i :| 0 <= i < |members| && members[i].key == k;
    }
  }

  lemma HeadRecorded(req: AuthzRequest)
    ensures var r, ms := FixedRecord(req), HeadMembers(req);
            forall i | 0 <= i < |ms| :: ms[i].0 in r && r[ms[i].0] == FieldValue(ms[i].1)
  {
    hide SubjectIsSelf, SubjectInDirectReports, SubjectId, SubjectGroups, Upper, StrSet;
    var r := FixedRecord(req);
    assert r["action_name"] == Cedar.Str(Upper(req.action));
    assert r["resource_kind"] == Cedar.Str(Upper(req.resource.kind));
    assert r["subject_is_self"] == Cedar.Bool(SubjectIsSelf(req));
    assert r["subject_in_direct_reports"] == Cedar.Bool(SubjectInDirectReports(req));
    assert r["subject_id"] == Cedar.Str(SubjectId(req));
    assert r["subject_groups"] == Cedar.Set(StrSet(SubjectGroups(req)));
  }

  lemma TailRecorded(req: AuthzRequest)
    ensures var r, ms := FixedRecord(req), TailMembers(req);
            forall i | 0 <= i < |ms| :: ms[i].0 in r && r[ms[i].0] == FieldValue(ms[i].1)
  {
    hide SubjectIsSelf, SubjectInDirectReports, SubjectId, SubjectGroups, Upper, StrSet;
  }

  lemma MemberRecorded(req: AuthzRequest, i: nat)
    requires DistinctKeys(req.values) && KeysUnreserved(req.values)
    requires i < |Members(req)|
    ensures var m := Members(req)[i]; m.0 in ContextOf(req) && ContextOf(req)[m.0] == FieldValue(m.1)
  {
    hide FixedRecord, ValuesRecord, HeadMembers, TailMembers, FieldValue, RESERVED;
    HeadRecorded(req);
    TailRecorded(req);
    HeadNames(req);
    FixedKeys(req);
    ValuesRecordIs(req.values);
    var n := |req.values|;
    if 6 <= i < n + 6 {
      var (k, v) := req.values[i - 6];
      assert Members(req)[i] == (k, Escaped(v));
      assert k !in FixedRecord(req);
      assert FieldValue(Escaped(v)) == Cedar.Str(v) by { EscapedValue(v); }
    }
  }

  lemma EscapedValue(v: string)
    ensures FieldValue(Escaped(v)) == Cedar.Str(v)
  {}

  /** The members of the document, as a record, are the intended one. */
  lemma MembersRecord(req: AuthzRequest)
    requires DistinctKeys(req.values) && KeysUnreserved(req.values)
    ensures Records(ContextOf(req), MemberJsons(Members(req)))
  {
    hide Members, FieldJson, ValueOf, FieldValue, FixedRecord, DistinctKeys, KeysUnreserved, RESERVED;
    var ms, r := Members(req), ContextOf(req);
    var js := MemberJsons(ms);
    forall i | 0 <= i < |js|
      ensures js[i].key in r && Some(r[js[i].key]) == ValueOf(js[i].value)
    {
      MemberRecorded(req, i);
      FieldValueOf(ms[i].1);
    }
    forall k
      ensures k in r <==> exists i :: 0 <= i < |js| && js[i].key == k
    {
      if k in r {
        KeyIsMember(req, k);
        var i :| 0 <= i < |ms| && ms[i].0 == k;
        assert js[i].key == k;
      }
    }
  }

  lemma KeyIsMember(req: AuthzRequest, k: string)
    requires DistinctKeys(req.values) && k in ContextOf(req)
    ensures exists i :: 0 <= i < |Members(req)| && Members(req)[i].0 == k
  {
    hide Members, HEAD_NAMES, TAIL_NAMES, RESERVED, FixedRecord;
    FixedKeys(req);
    if k in RESERVED {
      NameIsMember(req, k);
    } else {
      ValuesRecordIs(req.values);
      MemberNames(req);
      var names := HEAD_NAMES + Keys(req.values) + TAIL_NAMES;
      var j :| 0 <= j < |req.values| && req.values[j].0 == k;
      assert names[|HEAD_NAMES| + j] == k;
      assert Members(req)[|HEAD_NAMES| + j].0 == k;
    }
  }

  lemma FixedKeys(req: AuthzRequest)
    ensures FixedRecord(req).Keys == RESERVED
  {}

  lemma NameIsMember(req: AuthzRequest, k: string)
    requires k in RESERVED
    ensures exists i :: 0 <= i < |Members(req)| && Members(req)[i].0 == k
  {
    hide HEAD_NAMES, TAIL_NAMES, RESERVED, Members;
    FixedNamesDiffer();
    MemberNames(req);
    var names := HEAD_NAMES + Keys(req.values) + TAIL_NAMES;
    assert k in names;
    var i :| 0 <= i < |names| && names[i] == k;
    assert Members(req)[i].0 == k;
  }

  /**
   * The context document can be read exactly when nothing in it holds a control character and no
   * context key is used twice, and it then denotes the intended record.
   */
  lemma {:induction false} ContextReadsBack(req: AuthzRequest)
    requires PlainTarget(req)
    ensures ReadContext(ContextJson(req))
         == if RequestControlFree(req) && DistinctKeys(req.values) && KeysUnreserved(req.values)
            then Some(ContextOf(req)) else None
  {
    hide ReadDocument, RequestControlFree, DistinctKeys, KeysUnreserved, Members, PlainTarget, Join, MemberTexts,
      VerbatimPlain, MemberReadable, ContextOf, FieldJson, ValueOf, MemberJsons, RecordOf;
    var ms := Members(req);
    assert ms != [] by { MemberNames(req); }
    MembersVerbatimPlain(req);
    ReadObject(ms);
    MembersReadable(req);
    MembersDistinct(req);
    MemberJsonValues(ms);
    var js := MemberJsons(ms);
    RecordOfMembers(js);
    if RequestControlFree(req) && DistinctKeys(req.values) && KeysUnreserved(req.values) {
      MembersRecord(req);
      RecordsUnique(RecordOf(js).value, ContextOf(req), js);
    }
  }

  lemma MemberJsonValues(ms: seq<Member>)
    ensures forall i | 0 <= i < |MemberJsons(ms)| :: ValueOf(MemberJsons(ms)[i].value).Some?
  {
    hide ValueOf, FieldJson;
    forall i | 0 <= i < |ms|
      ensures ValueOf(MemberJsons(ms)[i].value).Some?
    {
      FieldValueOf(ms[i].1);
    }
  }

  lemma FixedEntries(req: AuthzRequest)
    ensures var c := FixedRecord(req);
            && c.Keys == RESERVED
            && c["action_name"] == Cedar.Str(Upper(req.action)) && c["resource_kind"] == Cedar.Str(Upper(req.resource.kind))
            && c["subject_id"] == Cedar.Str(SubjectId(req)) && c["subject_groups"] == Cedar.Set(StrSet(SubjectGroups(req)))
            && c["subject_is_self"] == Cedar.Bool(SubjectIsSelf(req))
            && c["subject_in_direct_reports"] == Cedar.Bool(SubjectInDirectReports(req))
            && c["principal_roles"] == Cedar.Set(StrSet(req.principal.roles))
            && c["principal_groups"] == Cedar.Set(StrSet(req.principal.groups))
  {
    hide SubjectIsSelf, SubjectInDirectReports, SubjectId, SubjectGroups, Upper, StrSet;
    FixedKeys(req);
  }

  /** The record, entry by entry, in terms of the request. */
  lemma ContextEntries(req: AuthzRequest)
    requires DistinctKeys(req.values) && KeysUnreserved(req.values)
    ensures var c := ContextOf(req);
            && (forall k :: k in c <==> k in RESERVED || exists e :: e in req.values && e.0 == k)
            && (forall e | e in req.values :: e.0 in c && c[e.0] == Cedar.Str(e.1))
            && c["action_name"] == Cedar.Str(Upper(req.action)) && c["resource_kind"] == Cedar.Str(Upper(req.resource.kind))
            && c["subject_id"] == Cedar.Str(if req.subject.Some? then req.subject.value.id else "")
            && c["subject_is_self"] == Cedar.Bool(req.subject.Some? && req.subject.value.id == req.principal.id)
            && c["subject_groups"] == Cedar.Set(StrSet(if req.subject.Some? then req.subject.value.groups else []))
            && c["principal_roles"] == Cedar.Set(StrSet(req.principal.roles))
            && c["principal_groups"] == Cedar.Set(StrSet(req.principal.groups))
    ensures ContextOf(req)["subject_in_direct_reports"] == Cedar.Bool(
      && req.subject.Some?
      && exists rel :: rel in req.relationships && (rel.kind == ManagerOf || rel.kind == DirectReports)
                       && rel.from == req.principal.id && rel.to == req.subject.value.id)
  {
    hide SubjectIsSelf, SubjectInDirectReports, ContextOf, FixedRecord, SubjectId, SubjectGroups, Upper, StrSet, RESERVED;
    SubjectFlags(req);
    FixedEntries(req);
    ValueEntries(req);
    ReservedNames();
    SubjectParts(req);
  }

  lemma ReservedNames()
    ensures "action_name" in RESERVED && "resource_kind" in RESERVED && "subject_id" in RESERVED && "subject_groups" in RESERVED
    ensures "subject_is_self" in RESERVED && "subject_in_direct_reports" in RESERVED
    ensures "principal_roles" in RESERVED && "principal_groups" in RESERVED
  {}

  lemma SubjectParts(req: AuthzRequest)
    ensures SubjectId(req) == (if req.subject.Some? then req.subject.value.id else "")
    ensures SubjectGroups(req) == (if req.subject.Some? then req.subject.value.groups else [])
  {}

  /** The fixed entries are those of the fixed record; the others are the context values. */
  lemma ValueEntries(req: AuthzRequest)
    requires DistinctKeys(req.values) && KeysUnreserved(req.values)
    ensures var c, fixed := ContextOf(req), FixedRecord(req);
            && (forall k :: k in c <==> k in RESERVED || exists e :: e in req.values && e.0 == k)
            && (forall e | e in req.values :: e.0 in c && c[e.0] == Cedar.Str(e.1))
            && (forall k | k in RESERVED :: k in fixed && c[k] == fixed[k])
  {
    hide FixedRecord, RESERVED, ValuesRecord;
    FixedKeys(req);
    ValuesRecordIs(req.values);
    var c, values := ContextOf(req), ValuesRecord(req.values);
    forall k
      ensures k in values <==> exists e :: e in req.values && e.0 == k
    {
      if e :| e in req.values && e.0 == k {
        var i :| 0 <= i < |req.values| && req.values[i] == e;
      }
      if i :| 0 <= i < |req.values| && req.values[i].0 == k { assert req.values[i] in req.values; }
    }
    forall e | e in req.values
      ensures e.0 in c && c[e.0] == Cedar.Str(e.1)
    {
      var i :| 0 <= i < |req.values| && req.values[i] == e;
      assert req.values[i].0 !in RESERVED;
    }
  }
}
