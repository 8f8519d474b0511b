/** Flattened arguments and dotted lookup agree on every tree; requests built for tools. */
module CatalogAgreement {
  import opened Text
  import opened Json
  import opened Requests
  import opened Contexts
  import opened Catalog

  // ----- trees -----

  /** Keys of an object are distinct, at every level. */
  predicate UniqueKeys(val: Json)
    decreases val, 1
  {
    val.Obj? ==> UniqueMembers(val.members)
  }

  predicate UniqueMembers(members: seq<Entry>)
    decreases members, 0
  {
    members != [] ==>
      && Find(members[1..], members[0].key).None?
      && UniqueKeys(members[0].value)
      && UniqueMembers(members[1..])
  }

  /** No key, at any level, holds the character `c`. */
  predicate KeysWithout(val: Json, c: char)
    decreases val, 1
  {
    val.Obj? ==> MembersWithout(val.members, c)
  }

  predicate MembersWithout(members: seq<Entry>, c: char)
    decreases members, 0
  {
    members != [] ==>
      c !in members[0].key && KeysWithout(members[0].value, c) && MembersWithout(members[1..], c)
  }

  // ----- the leaves are what lookup finds -----

  /** `path` leads to a leaf whose text is `text`. */
  predicate LeadsTo(found: Option<Json>, text: string) {
    found.Some? && IsLeaf(found.value) && text == LeafText(found.value)
  }

  predicate IsLeafPath(val: Json, l: Leaf) {
    l.path != [] && LeadsTo(Lookup(val, l.path), l.text)
  }

  predicate IsLeafPathOf(members: seq<Entry>, l: Leaf) {
    l.path != [] && Find(members, l.path[0]).Some?
    && LeadsTo(Lookup(Find(members, l.path[0]).value, l.path[1..]), l.text)
  }

  lemma {:induction false} LeavesAreLeafPaths(val: Json)
    requires UniqueKeys(val)
    ensures forall l :: l in Leaves(val) <==> IsLeafPath(val, l)
    decreases val, 1
  {
    hide LeafText, IsLeaf;
    if val.Obj? {
      MemberLeavesAreLeafPaths(val.members);
      assert forall l :: IsLeafPath(val, l) <==> IsLeafPathOf(val.members, l);
    }
  }

  lemma {:induction false} MemberLeavesAreLeafPaths(members: seq<Entry>)
    requires UniqueMembers(members)
    ensures forall l :: l in LeavesOfMembers(members) <==> IsLeafPathOf(members, l)
    decreases members, 0
  {
    hide LeadsTo, Lookup, Find;
    if members == [] {
      FindNothing();
    } else {
      var m, rest := members[0], members[1..];
      MemberLeavesAreLeafPaths(rest);
      if m.value.Obj? {
        LeavesAreLeafPaths(m.value);
      }
      forall l
        ensures l in LeavesOfMembers(members) <==> IsLeafPathOf(members, l)
      {
        FirstMemberLeaves(m, l);
        if l.path != [] {
          FindCons(members, l.path[0]);
        }
        assert l in LeavesOfMembers(members) <==> l in LeavesOfMember(m) || l in LeavesOfMembers(rest);
      }
    }
  }

  lemma FindNothing()
    ensures forall k :: Find([], k) == None
  {}

  lemma FindCons(members: seq<Entry>, k: string)
    requires members != []
    ensures Find(members, k) == if members[0].key == k then Some(members[0].value) else Find(members[1..], k)
  {}

  lemma FirstMemberLeaves(m: Entry, l: Leaf)
    requires m.value.Obj? ==> forall x :: x in Leaves(m.value) <==> IsLeafPath(m.value, x)
    ensures l in LeavesOfMember(m) <==>
      l.path != [] && l.path[0] == m.key && LeadsTo(Lookup(m.value, l.path[1..]), l.text)
  {
    hide LeafText;
    if m.value.Obj? {
      var inner := Leaves(m.value);
      var under := Under(m.key, inner);
      if l in under {
        var i :| 0 <= i < |under| && under[i] == l;
        assert inner[i] in inner;
        assert l.path[1..] == inner[i].path;
      }
      if l.path != [] && l.path[0] == m.key && LeadsTo(Lookup(m.value, l.path[1..]), l.text) {
        var x := Leaf(l.path[1..], l.text);
        assert x.path != [];
        assert x in inner;
        var i :| 0 <= i < |inner| && inner[i] == x;
        assert l.path == [m.key] + l.path[1..];
        assert under[i] == l;
      }
    } else {
      assert [m.key][1..] == [];
      if l.path != [] && l.path[0] == m.key && LeadsTo(Lookup(m.value, l.path[1..]), l.text) {
        assert l.path == [m.key] + l.path[1..];
        assert l.path[1..] == [] && Lookup(m.value, []) == Some(m.value);
        assert l == Leaf([m.key], LeafText(m.value));
      }
    }
  }

  predicate DistinctPaths(leaves: seq<Leaf>) {
    forall i, j | 0 <= i < j < |leaves| :: leaves[i].path != leaves[j].path
  }

  lemma {:induction false} LeavesDistinct(val: Json)
    requires UniqueKeys(val)
    ensures DistinctPaths(Leaves(val))
    decreases val, 1
  {
    if val.Obj? {
      MemberLeavesDistinct(val.members);
    }
  }

  lemma {:induction false} MemberLeavesDistinct(members: seq<Entry>)
    requires UniqueMembers(members)
    ensures DistinctPaths(LeavesOfMembers(members))
    decreases members, 0
  {
    hide LeadsTo, Lookup, Find;
    if members != [] {
      var m, rest := members[0], members[1..];
      MemberLeavesDistinct(rest);
      MemberLeavesAreLeafPaths(rest);
      if m.value.Obj? {
        LeavesDistinct(m.value);
        LeavesAreLeafPaths(m.value);
      }
      var first, others := LeavesOfMember(m), LeavesOfMembers(rest);
      assert DistinctPaths(first) by { UnderDistinct(m); }
      forall i, j | 0 <= i < |first| && 0 <= j < |others|
        ensures first[i].path != others[j].path
      {
        FirstMemberLeaves(m, first[i]);
        assert others[j] in others;
      }
      DistinctAppend(first, others);
    }
  }

  lemma UnderDistinct(m: Entry)
    requires m.value.Obj? ==> DistinctPaths(Leaves(m.value))
    ensures DistinctPaths(LeavesOfMember(m))
  {
    if m.value.Obj? {
      var inner := Leaves(m.value);
      forall i, j | 0 <= i < j < |inner|
        ensures [m.key] + inner[i].path != [m.key] + inner[j].path
      {
        assert ([m.key] + inner[i].path)[1..] == inner[i].path;
        assert ([m.key] + inner[j].path)[1..] == inner[j].path;
      }
    }
  }

  lemma DistinctAppend(a: seq<Leaf>, b: seq<Leaf>)
    requires DistinctPaths(a) && DistinctPaths(b)
    requires forall i, j | 0 <= i < |a| && 0 <= j < |b| :: a[i].path != b[j].path
    ensures DistinctPaths(a + b)
  {}

  predicate PathWithout(path: seq<string>, c: char) {
    forall k | k in path :: c !in k
  }

  lemma {:induction false} LeavesWithout(val: Json, c: char)
    requires KeysWithout(val, c)
    ensures forall l | l in Leaves(val) :: PathWithout(l.path, c)
    decreases val, 1
  {
    if val.Obj? {
      MemberLeavesWithout(val.members, c);
    }
  }

  lemma {:induction false} MemberLeavesWithout(members: seq<Entry>, c: char)
    requires MembersWithout(members, c)
    ensures forall l | l in LeavesOfMembers(members) :: PathWithout(l.path, c)
    decreases members, 0
  {
    if members != [] {
      var m := members[0];
      MemberLeavesWithout(members[1..], c);
      LeavesWithout(m.value, c);
      forall l | l in LeavesOfMember(m)
        ensures PathWithout(l.path, c)
      {
        if m.value.Obj? {
          var i :| 0 <= i < |Under(m.key, Leaves(m.value))| && Under(m.key, Leaves(m.value))[i] == l;
          assert Leaves(m.value)[i] in Leaves(m.value);
        }
      }
    }
  }

  // ----- flattening, exactly -----

  lemma JoinInjective(p: seq<string>, q: seq<string>, c: char)
    requires p != [] && q != [] && PathWithout(p, c) && PathWithout(q, c)
    requires Join(p, [c]) == Join(q, [c])
    ensures p == q
  {
    SplitJoin(p, c);
    SplitJoin(q, c);
  }

  lemma EntriesDistinct(prefix: string, leaves: seq<Leaf>)
    requires DistinctPaths(leaves)
    requires forall l | l in leaves :: l.path != [] && PathWithout(l.path, '_')
    ensures DistinctKeys(EntriesOf(prefix, leaves))
  {
    hide PathWithout, Join;
    forall i, j | 0 <= i < j < |leaves|
      ensures prefix + Join(leaves[i].path, "_") != prefix + Join(leaves[j].path, "_")
    {
      assert leaves[i] in leaves && leaves[j] in leaves;
      var a, b := Join(leaves[i].path, "_"), Join(leaves[j].path, "_");
      if prefix + a == prefix + b {
        assert a == (prefix + a)[|prefix|..] == b;
        JoinInjective(leaves[i].path, leaves[j].path, '_');
      }
    }
  }

  /**
   * Flattening a tree whose keys hold no underscore appends exactly one entry per leaf, in document
   * order, keyed by the joined path; the leaves are the non-null, non-object values lookup can reach.
   */
  lemma {:induction false} FlattenIsExact(val: Json, out: StringMap)
    requires UniqueKeys(val) && KeysWithout(val, '_')
    requires forall i | 0 <= i < |out| :: !("arg_" <= out[i].0)
    ensures Flatten(val, "arg_", out) == out + EntriesOf("arg_", Leaves(val))
    ensures DistinctKeys(EntriesOf("arg_", Leaves(val)))
    ensures forall l :: l in Leaves(val) <==> IsLeafPath(val, l)
    ensures DistinctPaths(Leaves(val))
  {
    hide LeadsTo, Lookup, Join, Put;
    var leaves := Leaves(val);
    LeavesAreLeafPaths(val);
    LeavesDistinct(val);
    LeavesWithout(val, '_');
    PathsNonEmpty(val);
    EntriesDistinct("arg_", leaves);
    FlattenInsertsLeaves(val, "arg_", out);
    var es := EntriesOf("arg_", leaves);
    forall i | 0 <= i < |es|
      ensures !HasKey(out, es[i].0)
    {
      assert "arg_" <= es[i].0;
    }
    PutAllNew(out, es);
  }

  /** So the entry under a leaf's joined path is that leaf's text. */
  lemma {:induction false} FlattenedLeaf(val: Json, l: Leaf)
    requires UniqueKeys(val) && KeysWithout(val, '_') && IsLeafPath(val, l)
    ensures Get(Flatten(val, "arg_", []), "arg_" + Join(l.path, "_")) == Some(l.text)
  {
    hide IsLeafPath, Join, Flatten, Leaves, UniqueKeys, KeysWithout, DistinctPaths, DistinctKeys, Get;
    FlattenIsExact(val, []);
    var leaves := Leaves(val);
    var i :| 0 <= i < |leaves| && leaves[i] == l;
    var es := EntriesOf("arg_", leaves);
    assert [] + es == es;
    GetAt(es, i);
  }

  // ----- dotted lookup, exactly -----

  /** Leading components `name` are dropped as long as another one follows. */
  function StripLeading(path: seq<string>, name: string): (r: seq<string>)
    ensures path != [] ==> r != []
  {
    if |path| >= 2 && path[0] == name then StripLeading(path[1..], name) else path
  }

  function StripRoots(path: seq<string>): (r: seq<string>)
    ensures path != [] ==> r != []
  {
    StripLeading(StripLeading(path, "args"), "$")
  }

  /** A joined path starts with `name.` exactly when its first component is `name` and not its last. */
  lemma JoinStartsWith(path: seq<string>, name: string)
    requires path != [] && PathWithout(path, '.') && '.' !in name
    ensures name + "." <= Join(path, ".") <==> |path| >= 2 && path[0] == name
  {
    hide Join, IndexOf;
    var s := Join(path, ".");
    var p := name + ".";
    assert '.' !in path[0];
    if |path| >= 2 {
      var rest := Join(path[1..], ".");
      assert s == path[0] + "." + rest by { JoinHead(path); }
      if p <= s {
        var t := s[|name| + 1..];
        assert s == p + t;
        SameFirstComponent(path[0], rest, name, t);
      }
    } else {
      assert s == path[0] by { JoinHead(path); }
      NoDotNoPrefix(s, name);
    }
  }

  lemma NoDotNoPrefix(s: string, name: string)
    requires '.' !in s
    ensures !(name + "." <= s)
  {
    assert (name + ".")[|name|] == '.';
    assert |name| < |s| ==> s[|name|] != '.';
  }

  lemma JoinHead(path: seq<string>)
    requires path != []
    ensures Join(path, ".") == if |path| == 1 then path[0] else path[0] + "." + Join(path[1..], ".")
  {}

  lemma SameFirstComponent(a: string, s: string, b: string, t: string)
    requires '.' !in a && '.' !in b && a + "." + s == b + "." + t
    ensures a == b
  {
    hide IndexOf;
    IndexOfAt(a, '.', s);
    IndexOfAt(b, '.', t);
    var whole := a + "." + s;
    assert whole[..|a|] == a && whole[..|b|] == b;
  }

  lemma {:induction false} TrimIsStrip(path: seq<string>, name: string)
    requires path != [] && PathWithout(path, '.') && '.' !in name
    ensures TrimStartStr(Join(path, "."), name + ".") == Join(StripLeading(path, name), ".")
  {
    JoinStartsWith(path, name);
    if |path| >= 2 && path[0] == name {
      var s, rest := Join(path, "."), Join(path[1..], ".");
      assert s == name + "." + rest;
      assert s[|name| + 1..] == rest;
      TrimIsStrip(path[1..], name);
    }
  }

  lemma {:induction false} StripKeepsWithout(path: seq<string>, name: string, c: char)
    requires PathWithout(path, c)
    ensures PathWithout(StripLeading(path, name), c)
    decreases path
  {
    if |path| >= 2 && path[0] == name {
      StripKeepsWithout(path[1..], name, c);
    }
  }

  /** Dotted lookup finds what the path leads to once its leading roots are dropped. */
  lemma {:induction false} ExtractIsLookup(val: Json, path: seq<string>)
    requires path != [] && PathWithout(path, '.')
    ensures Extract(val, Join(path, "."))
         == match Lookup(val, StripRoots(path)) case None => None case Some(v) => Some(ArgumentText(v))
  {
    hide Lookup, ArgumentText, Join, PathWithout, StripLeading;
    var inner := StripLeading(path, "args");
    StripKeepsWithout(path, "args", '.');
    StripKeepsWithout(inner, "$", '.');
    TrimIsStrip(path, "args");
    TrimIsStrip(inner, "$");
    assert "args" + "." == "args." && "$" + "." == "$.";
    SplitOfJoin(StripRoots(path));
  }

  lemma SplitOfJoin(path: seq<string>)
    requires path != [] && PathWithout(path, '.')
    ensures SplitOn(Join(path, "."), '.') == path
  {
    SplitJoin(path, '.');
  }

  /** The path does not start with a root that lookup drops. */
  predicate Rooted(path: seq<string>) {
    |path| >= 2 ==> path[0] != "args" && path[0] != "$"
  }

  /**
   * Flattened arguments agree with dotted lookup: for every scalar leaf whose path lookup takes as
   * it is, the entry under the `_`-joined path is what the `.`-joined path extracts.
   */
  lemma {:induction false} FlattenAgreesWithExtract(val: Json, l: Leaf)
    requires UniqueKeys(val) && KeysWithout(val, '_') && KeysWithout(val, '.')
    requires IsLeafPath(val, l) && !Lookup(val, l.path).value.Arr?
    requires Rooted(l.path)
    ensures Get(Flatten(val, "arg_", []), "arg_" + Join(l.path, "_")) == Some(l.text)
    ensures Extract(val, Join(l.path, ".")) == Some(l.text)
  {
    hide Flatten, Extract, Join, KeysWithout, UniqueKeys;
    FlattenedLeaf(val, l);
    LeavesAreLeafPaths(val);
    LeavesWithout(val, '.');
    assert l in Leaves(val);
    ExtractIsLookup(val, l.path);
    assert StripRoots(l.path) == l.path;
  }

  /** However the tree looks, a scalar leaf at the path is what dotted lookup of the path finds. */
  ghost predicate AlwaysAgrees(path: seq<string>) {
    forall val, text | UniqueKeys(val) && KeysWithout(val, '_') && KeysWithout(val, '.') :: AgreesOn(val, path, text)
  }

  predicate AgreesOn(val: Json, path: seq<string>, text: string) {
    IsLeafPath(val, Leaf(path, text)) && !Lookup(val, path).value.Arr? ==> Extract(val, Join(path, ".")) == Some(text)
  }

  /** The tree with one leaf, at the path. */
  function Chain(path: seq<string>, leaf: Json): Json {
    if path == [] then leaf else Obj([Entry(path[0], Chain(path[1..], leaf))])
  }

  lemma ChildOfChain(path: seq<string>, leaf: Json, key: string)
    requires path != []
    ensures Child(Chain(path, leaf), key) == if key == path[0] then Some(Chain(path[1..], leaf)) else None
  {
    FindCons([Entry(path[0], Chain(path[1..], leaf))], key);
    FindNothing();
  }

  lemma {:induction false} ChainKeys(path: seq<string>, s: string, c: char)
    requires PathWithout(path, c)
    ensures UniqueKeys(Chain(path, Str(s))) && KeysWithout(Chain(path, Str(s)), c)
    decreases path
  {
    if path != [] {
      assert path[0] in path && PathWithout(path[1..], c);
      ChainKeys(path[1..], s, c);
      var members := [Entry(path[0], Chain(path[1..], Str(s)))];
      assert members[1..] == [];
    }
  }

  lemma {:induction false} ChainLeaf(path: seq<string>, leaf: Json)
    ensures Lookup(Chain(path, leaf), path) == Some(leaf)
    decreases path
  {
    if path != [] {
      ChildOfChain(path, leaf, path[0]);
      ChainLeaf(path[1..], leaf);
    }
  }

  /** A shorter path leads nowhere or to an object. */
  lemma {:induction false} ShorterPath(path: seq<string>, leaf: Json, q: seq<string>)
    requires |q| < |path|
    ensures var found := Lookup(Chain(path, leaf), q); found.None? || found.value.Obj?
    decreases path
  {
    if q != [] {
      ChildOfChain(path, leaf, q[0]);
      if q[0] == path[0] { ShorterPath(path[1..], leaf, q[1..]); }
    }
  }

  lemma {:induction false} StripShortens(path: seq<string>, name: string)
    ensures |StripLeading(path, name)| <= |path|
    ensures |path| >= 2 && path[0] == name ==> |StripLeading(path, name)| < |path|
    decreases path
  {
    if |path| >= 2 && path[0] == name { StripShortens(path[1..], name); }
  }

  lemma RootsShorten(path: seq<string>)
    requires !Rooted(path)
    ensures |StripRoots(path)| < |path|
  {
    hide StripLeading;
    StripShortens(path, "args");
    StripShortens(StripLeading(path, "args"), "$");
    if path[0] != "args" { StripNothing(path, "args"); }
  }

  lemma StripNothing(path: seq<string>, name: string)
    requires path != [] && path[0] != name
    ensures StripLeading(path, name) == path
  {}

  lemma ObjectText(members: seq<Entry>)
    ensures ArgumentText(Obj(members)) != "x"
  {
    assert ArgumentText(Obj(members))[0] == '{';
  }

  /** Under a root name the chain to the leaf is a tree on which lookup misses the leaf. */
  lemma RootedMisses(path: seq<string>)
    requires !Rooted(path) && PathWithout(path, '_') && PathWithout(path, '.')
    ensures !AlwaysAgrees(path)
  {
    hide Lookup, Extract, Join, UniqueKeys, KeysWithout, StripRoots, Rooted, ArgumentText, Chain, PathWithout;
    var val := Chain(path, Str("x"));
    assert path != [] by { RootedNeedsTwo(path); }
    ChainKeys(path, "x", '_');
    ChainKeys(path, "x", '.');
    ChainLeaf(path, Str("x"));
    RootsShorten(path);
    ShorterPath(path, Str("x"), StripRoots(path));
    ExtractIsLookup(val, path);
    var found := Lookup(val, StripRoots(path));
    if found.Some? { ObjectText(found.value.members); }
    StrLeads(path);
    assert !AgreesOn(val, path, "x");
  }

  lemma RootedNeedsTwo(path: seq<string>)
    requires !Rooted(path)
    ensures |path| >= 2
  {}

  lemma StrLeads(path: seq<string>)
    requires path != [] && Lookup(Chain(path, Str("x")), path) == Some(Str("x"))
    ensures IsLeafPath(Chain(path, Str("x")), Leaf(path, "x"))
  {
    hide Lookup, Chain;
  }

  /** The exact condition: the two readings agree on every tree if and only if the path starts at no root name. */
  lemma RootedIffAgrees(path: seq<string>)
    requires path != [] && PathWithout(path, '_') && PathWithout(path, '.')
    ensures Rooted(path) <==> AlwaysAgrees(path)
  {
    hide Rooted, Extract, Join, UniqueKeys, KeysWithout, PathWithout, Lookup, Flatten;
    if Rooted(path) {
      forall val, text | UniqueKeys(val) && KeysWithout(val, '_') && KeysWithout(val, '.')
        ensures AgreesOn(val, path, text)
      {
        if IsLeafPath(val, Leaf(path, text)) && !Lookup(val, path).value.Arr? {
          FlattenAgreesWithExtract(val, Leaf(path, text));
        }
      }
    } else {
      RootedMisses(path);
    }
  }

  // ----- requests for tool calls -----

  function FindResource(resources: seq<CatalogResource>, idOrKind: string): Option<CatalogResource> {
    if resources == [] then None
    else if resources[0].id == idOrKind || resources[0].kind == idOrKind then Some(resources[0])
    else FindResource(resources[1..], idOrKind)
  }

  function FindTool(tools: seq<ToolMapping>, name: string): Option<ToolMapping> {
    if tools == [] then None
    else if tools[0].toolName == name then Some(tools[0])
    else FindTool(tools[1..], name)
  }

  function PutOptional(m: StringMap, k: string, v: Option<string>): StringMap {
    if v.Some? then Put(m, k, v.value) else m
  }

  /** The catalogued attributes of a resource override the tool's defaults. */
  function ResourceAttrs(m: StringMap, res: Option<CatalogResource>): StringMap {
    if res.None? then m
    else
      var r := res.value;
      PutAll(PutOptional(PutOptional(m, "department", r.department), "sensitivity", r.sensitivity), r.attrs)
  }

  function StringArg(args: Json, name: Option<string>): Option<string> {
    if name.None? then None
    else
      match Child(args, name.value)
      case Some(Str(s)) => Some(s)
      case _ => None
  }

  function MapArgs(args: Json, mappings: StringMap, ctx: StringMap): StringMap
    decreases mappings
  {
    if mappings == [] then ctx
    else
      MapArgs(args, mappings[1..], PutOptional(ctx, mappings[0].0, Extract(args, mappings[0].1)))
  }

  const AGENT := Some("agent:paac-proxy")

  /** What `authz_for_tool` returns. */
  function ToolRequest(catalog: ResourceCatalog, principal: Principal, toolName: string, args: Json): AuthzRequest {
    var flat := Flatten(args, "arg_", [("tool_name", toolName)]);
    match FindTool(catalog.tools, toolName)
    case None =>
      AuthzRequest(principal, "TOOL_INVOKE", Resource("TOOL_UNKNOWN", Some(toolName), []), None, flat, [], AGENT, None)
    case Some(m) =>
      var id := StringArg(args, m.resourceIdArg);
      var res := if id.Some? then FindResource(catalog.resources, id.value) else None;
      AuthzRequest(principal, m.action, Resource(m.resourceKind, id, ResourceAttrs(m.defaultAttrs, res)), None,
                   MapArgs(args, m.argMappings, flat), [], AGENT, None)
  }

  method AuthzForTool(catalog: ResourceCatalog, principal: Principal, toolName: string, args: Json)
    returns (req: AuthzRequest)
    ensures req == ToolRequest(catalog, principal, toolName, args)
  {
    hide Put, PutAll, Flatten, Extract;
    var ctx := new IndexMap([]);
    ctx.Insert("tool_name", toolName);
    assert ctx.entries == [("tool_name", toolName)] by { PutFirst("tool_name", toolName); }
    FlattenJsonArgs(args, "arg_", ctx);
    var found := FindTool(catalog.tools, toolName);
    if found.Some? {
      var m := found.value;
      var id := StringArg(args, m.resourceIdArg);
      var res := if id.Some? then FindResource(catalog.resources, id.value) else None;
      var attrs := new IndexMap(m.defaultAttrs);
      if res.Some? {
        InsertResource(attrs, res.value);
      }
      InsertMapped(ctx, args, m.argMappings);
      return AuthzRequest(principal, m.action, Resource(m.resourceKind, id, attrs.entries), None, ctx.entries, [],
                          AGENT, None);
    }
    return AuthzRequest(principal, "TOOL_INVOKE", Resource("TOOL_UNKNOWN", Some(toolName), []), None, ctx.entries, [],
                        AGENT, None);
  }

  lemma PutFirst(k: string, v: string)
    ensures Put([], k, v) == [(k, v)]
  {}

  method InsertResource(attrs: IndexMap, res: CatalogResource)
    modifies attrs
    ensures attrs.entries == ResourceAttrs(old(attrs.entries), Some(res))
  {
    hide Put;
    if res.department.Some? {
      attrs.Insert("department", res.department.value);
    }
    if res.sensitivity.Some? {
      attrs.Insert("sensitivity", res.sensitivity.value);
    }
    for i := 0 to |res.attrs|
      invariant ResourceAttrs(old(attrs.entries), Some(res)) == PutAll(attrs.entries, res.attrs[i..])
    {
      assert res.attrs[i..][0] == res.attrs[i] && res.attrs[i..][1..] == res.attrs[i + 1..];
      attrs.Insert(res.attrs[i].0, res.attrs[i].1);
    }
  }

  method InsertMapped(ctx: IndexMap, args: Json, mappings: StringMap)
    modifies ctx
    ensures ctx.entries == MapArgs(args, mappings, old(ctx.entries))
  {
    hide Put, Extract;
    for i := 0 to |mappings|
      invariant MapArgs(args, mappings, old(ctx.entries)) == MapArgs(args, mappings[i..], ctx.entries)
    {
      assert mappings[i..][0] == mappings[i] && mappings[i..][1..] == mappings[i + 1..];
      var val := ExtractNestedArg(args, mappings[i].1);
      if val.Some? {
        ctx.Insert(mappings[i].0, val.value);
      }
    }
  }

  // ----- the context keys of tool requests -----

  lemma {:induction false} PutKeys(m: StringMap, k: string, v: string)
    requires DistinctKeys(m)
    ensures DistinctKeys(Put(m, k, v))
    ensures forall i | 0 <= i < |Put(m, k, v)| :: Put(m, k, v)[i].0 == k || HasKey(m, Put(m, k, v)[i].0)
  {
    if m != [] && m[0].0 != k {
      var rest := m[1..];
      forall i, j | 0 <= i < j < |rest| ensures rest[i].0 != rest[j].0 { assert m[i + 1].0 != m[j + 1].0; }
      PutKeys(rest, k, v);
      var p := Put(rest, k, v);
      forall i | 0 <= i < |p|
        ensures p[i].0 != m[0].0 && (p[i].0 == k || HasKey(m, p[i].0))
      {
        if p[i].0 != k {
          var j :| 0 <= j < |rest| && rest[j].0 == p[i].0;
          assert m[j + 1].0 == p[i].0;
        }
      }
    } else if m != [] {
      var p := Put(m, k, v);
      forall i | 0 <= i < |p|
        ensures p[i].0 == m[i].0
      {}
    }
  }

  /** The keys are distinct and none of them is one of the document's own names. */
  predicate Acceptable(m: StringMap) {
    DistinctKeys(m) && KeysUnreserved(m)
  }

  lemma PutAcceptable(m: StringMap, k: string, v: string)
    requires Acceptable(m) && k !in RESERVED
    ensures Acceptable(Put(m, k, v))
  {
    hide RESERVED, Put;
    PutKeys(m, k, v);
  }

  lemma ArgumentKeys(key: string)
    requires "arg_" <= key
    ensures key !in RESERVED
  {
    assert key[0] == 'a' && key[1] == 'r';
  }

  lemma {:induction false} FlattenAcceptable(val: Json, prefix: string, out: StringMap)
    requires "arg_" <= prefix && Acceptable(out)
    ensures Acceptable(Flatten(val, prefix, out))
    decreases val, 1
  {
    if val.Obj? {
      FlattenMembersAcceptable(val.members, prefix, out);
    }
  }

  lemma {:induction false} FlattenMembersAcceptable(members: seq<Entry>, prefix: string, out: StringMap)
    requires "arg_" <= prefix && Acceptable(out)
    ensures Acceptable(FlattenMembers(members, prefix, out))
    decreases members, 0
  {
    hide Put, RESERVED, Acceptable, LeafText;
    if members != [] {
      var v, key := members[0].value, prefix + members[0].key;
      ArgumentKeys(key);
      var next := if v.Obj? then Flatten(v, key + "_", out) else if v.Null? then out else Put(out, key, LeafText(v));
      if v.Obj? {
        FlattenAcceptable(v, key + "_", out);
      } else if !v.Null? {
        PutAcceptable(out, key, LeafText(v));
      }
      FlattenMembersAcceptable(members[1..], prefix, next);
    }
  }

  lemma {:induction false} MapArgsAcceptable(args: Json, mappings: StringMap, ctx: StringMap)
    requires Acceptable(ctx) && KeysUnreserved(mappings)
    ensures Acceptable(MapArgs(args, mappings, ctx))
    decreases mappings
  {
    hide Put, Extract, RESERVED, Acceptable;
    if mappings != [] {
      var val := Extract(args, mappings[0].1);
      if val.Some? {
        PutAcceptable(ctx, mappings[0].0, val.value);
      }
      forall i | 0 <= i < |mappings[1..]| ensures mappings[1..][i].0 !in RESERVED { assert mappings[i + 1].0 !in RESERVED; }
      MapArgsAcceptable(args, mappings[1..], PutOptional(ctx, mappings[0].0, val));
    }
  }

  /**
   * Whatever the arguments are, the context of a tool request uses no name of the context document,
   * unless the catalog itself maps an argument to one.
   */
  lemma {:induction false} ToolRequestAcceptable(catalog: ResourceCatalog, principal: Principal, toolName: string, args: Json)
    requires forall t | t in catalog.tools :: KeysUnreserved(t.argMappings)
    ensures Acceptable(ToolRequest(catalog, principal, toolName, args).values)
  {
    hide Flatten, MapArgs, RESERVED;
    var start := [("tool_name", toolName)];
    assert Acceptable(start) by { ToolNameUnreserved(); }
    FlattenAcceptable(args, "arg_", start);
    var found := FindTool(catalog.tools, toolName);
    if found.Some? {
      FoundTool(catalog.tools, toolName);
      MapArgsAcceptable(args, found.value.argMappings, Flatten(args, "arg_", start));
    }
  }

  lemma ToolNameUnreserved()
    ensures "tool_name" !in RESERVED
  {}

  lemma {:induction false} FoundTool(tools: seq<ToolMapping>, name: string)
    requires FindTool(tools, name).Some?
    ensures FindTool(tools, name).value in tools && FindTool(tools, name).value.toolName == name
    decreases tools
  {
    if tools[0].toolName != name {
      FoundTool(tools[1..], name);
    }
  }
}
