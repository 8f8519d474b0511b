/** The request of a tool call, member by member, in terms of the catalog and the arguments: catalog.rs. */
module ToolRequests {
  import opened Text
  import opened Json
  import opened Requests
  import opened Contexts
  import opened Catalog
  import opened CatalogAgreement

  // ----- what a lookup finds -----

  /** The first tool of that name. */
  ghost predicate IsTool(tools: seq<ToolMapping>, name: string, m: ToolMapping) {
    exists i :: 0 <= i < |tools| && tools[i] == m && m.toolName == name && forall j | 0 <= j < i :: tools[j].toolName != name
  }

  /** The first resource of that id or kind. */
  ghost predicate IsResource(resources: seq<CatalogResource>, name: string, r: CatalogResource) {
    exists i :: 0 <= i < |resources| && resources[i] == r && (r.id == name || r.kind == name)
                && forall j | 0 <= j < i :: resources[j].id != name && resources[j].kind != name
  }

  lemma {:induction false} ToolFound(tools: seq<ToolMapping>, name: string)
    ensures match FindTool(tools, name)
            case Some(m) => IsTool(tools, name, m)
            case None => forall i | 0 <= i < |tools| :: tools[i].toolName != name
    decreases tools
  {
    if tools != [] {
      if tools[0].toolName == name {
        assert IsTool(tools, name, tools[0]);
      } else {
        var rest := tools[1..];
        ToolFound(rest, name);
        if FindTool(rest, name).Some? {
          var m := FindTool(rest, name).value;
          var i :| 0 <= i < |rest| && rest[i] == m && m.toolName == name && forall j | 0 <= j < i :: rest[j].toolName != name;
          assert tools[i + 1] == m;
          assert forall j | 0 < j < i + 1 :: tools[j] == rest[j - 1];
        } else {
          assert forall i | 0 < i < |tools| :: tools[i] == rest[i - 1];
        }
      }
    }
  }

  lemma {:induction false} ResourceFound(resources: seq<CatalogResource>, name: string)
    ensures match FindResource(resources, name)
            case Some(r) => IsResource(resources, name, r)
            case None => forall i | 0 <= i < |resources| :: resources[i].id != name && resources[i].kind != name
    decreases resources
  {
    if resources != [] {
      if resources[0].id == name || resources[0].kind == name {
        assert IsResource(resources, name, resources[0]);
      } else {
        var rest := resources[1..];
        ResourceFound(rest, name);
        if FindResource(rest, name).Some? {
          var r := FindResource(rest, name).value;
          var i :| 0 <= i < |rest| && rest[i] == r && (r.id == name || r.kind == name)
                   && forall j | 0 <= j < i :: rest[j].id != name && rest[j].kind != name;
          assert resources[i + 1] == r;
          assert forall j | 0 < j < i + 1 :: resources[j] == rest[j - 1];
        } else {
          assert forall i | 0 < i < |resources| :: resources[i] == rest[i - 1];
        }
      }
    }
  }

  // ----- insertion-ordered maps as maps -----

  lemma {:induction false} GetAfterPut(m: StringMap, k: string, v: string, x: string)
    ensures Get(Put(m, k, v), x) == if x == k then Some(v) else Get(m, x)
    decreases m
  {
    if m != [] && m[0].0 != k { GetAfterPut(m[1..], k, v, x); }
  }

  lemma {:induction false} GetMissing(m: StringMap, x: string)
    ensures Get(m, x).Some? <==> exists i :: 0 <= i < |m| && m[i].0 == x
    decreases m
  {
    if m != [] && m[0].0 != x {
      GetMissing(m[1..], x);
      if i :| 0 <= i < |m| && m[i].0 == x { assert m[1..][i - 1].0 == x; }
      if i :| 0 <= i < |m[1..]| && m[1..][i].0 == x { assert m[i + 1].0 == x; }
    }
  }

  /** What is inserted wins. */
  lemma {:induction false} GetAfterPutAll(m: StringMap, entries: StringMap, x: string)
    requires DistinctKeys(entries)
    ensures Get(PutAll(m, entries), x) == if Get(entries, x).Some? then Get(entries, x) else Get(m, x)
    decreases entries
  {
    if entries != [] {
      var (k, v) := entries[0];
      var rest := entries[1..];
      assert forall i, j | 0 <= i < j < |rest| :: rest[i].0 == entries[i + 1].0 && rest[j].0 == entries[j + 1].0;
      GetAfterPutAll(Put(m, k, v), rest, x);
      GetAfterPut(m, k, v, x);
      if x == k {
        GetMissing(rest, x);
        assert forall i | 0 <= i < |rest| :: rest[i].0 == entries[i + 1].0;
      }
    }
  }

  lemma {:induction false} GetPassesPutAll(m: StringMap, entries: StringMap, x: string)
    requires forall i | 0 <= i < |entries| :: entries[i].0 != x
    ensures Get(PutAll(m, entries), x) == Get(m, x)
    decreases entries
  {
    if entries != [] {
      var rest := entries[1..];
      assert forall i | 0 <= i < |rest| :: rest[i] == entries[i + 1];
      GetPassesPutAll(Put(m, entries[0].0, entries[0].1), rest, x);
      GetAfterPut(m, entries[0].0, entries[0].1, x);
    }
  }

  // ----- the request of a tool call -----

  /** The argument that holds the resource's id, when there is one and it is a string. */
  function ArgumentNamed(args: Json, name: Option<string>): Option<string> {
    if name.None? then None
    else match Lookup(args, [name.value]) case Some(Str(s)) => Some(s) case _ => None
  }

  /** The attribute of a catalogued resource: its own ones first, then sensitivity and department, then the tool's default. */
  function CataloguedAttr(r: CatalogResource, defaults: StringMap, key: string): Option<string> {
    if Get(r.attrs, key).Some? then Get(r.attrs, key)
    else if key == "sensitivity" && r.sensitivity.Some? then r.sensitivity
    else if key == "department" && r.department.Some? then r.department
    else Get(defaults, key)
  }

  lemma ArgumentIsNamed(args: Json, name: Option<string>)
    ensures StringArg(args, name) == ArgumentNamed(args, name)
  {
    hide Find;
    if name.Some? { LookupOne(args, name.value); }
  }

  /**
   * The request of a catalogued call has the mapping's action and resource kind, the id that the mapped
   * argument holds, and neither subject nor relationships.
   */
  lemma KnownToolRequest(catalog: ResourceCatalog, principal: Principal, toolName: string, args: Json, m: ToolMapping)
    requires IsTool(catalog.tools, toolName, m)
    ensures var req := ToolRequest(catalog, principal, toolName, args);
            && req.principal == principal && req.action == m.action && req.resource.kind == m.resourceKind
            && req.resource.id == ArgumentNamed(args, m.resourceIdArg)
            && req.subject == None && req.relationships == []
            && req.actingAs == Some("agent:paac-proxy") && req.onBehalfOf == None
  {
    hide Flatten, MapArgs, ResourceAttrs, StringArg, ArgumentNamed, FindResource;
    ToolIsFound(catalog.tools, toolName, m);
    ArgumentIsNamed(args, m.resourceIdArg);
  }

  lemma ToolIsFound(tools: seq<ToolMapping>, name: string, m: ToolMapping)
    requires IsTool(tools, name, m)
    ensures FindTool(tools, name) == Some(m)
  {
    hide FindTool;
    ToolFound(tools, name);
    var i :| 0 <= i < |tools| && tools[i] == m && m.toolName == name && forall j | 0 <= j < i :: tools[j].toolName != name;
    if FindTool(tools, name).Some? {
      var found := FindTool(tools, name).value;
      var k :| 0 <= k < |tools| && tools[k] == found && found.toolName == name && forall j | 0 <= j < k :: tools[j].toolName != name;
      assert i == k;
    }
  }

  lemma ResourceIsFound(resources: seq<CatalogResource>, name: string, r: CatalogResource)
    requires IsResource(resources, name, r)
    ensures FindResource(resources, name) == Some(r)
  {
    hide FindResource;
    ResourceFound(resources, name);
    var i :| 0 <= i < |resources| && resources[i] == r && (r.id == name || r.kind == name)
             && forall j | 0 <= j < i :: resources[j].id != name && resources[j].kind != name;
    if FindResource(resources, name).Some? {
      var found := FindResource(resources, name).value;
      var k :| 0 <= k < |resources| && resources[k] == found && (found.id == name || found.kind == name)
               && forall j | 0 <= j < k :: resources[j].id != name && resources[j].kind != name;
      assert i == k;
    }
  }

  /** The resource the id names, by its id or its kind, gives its attributes; without one the defaults remain. */
  lemma KnownToolAttributes(catalog: ResourceCatalog, principal: Principal, toolName: string, args: Json, m: ToolMapping, key: string)
    requires IsTool(catalog.tools, toolName, m)
    requires forall r | r in catalog.resources :: DistinctKeys(r.attrs)
    ensures var attrs, id := ToolRequest(catalog, principal, toolName, args).resource.attrs, ArgumentNamed(args, m.resourceIdArg);
            && (forall r | id.Some? && IsResource(catalog.resources, id.value, r) :: Get(attrs, key) == CataloguedAttr(r, m.defaultAttrs, key))
            && ((id.None? || forall r | r in catalog.resources :: r.id != id.value && r.kind != id.value) ==> attrs == m.defaultAttrs)
  {
    hide Flatten, MapArgs, ResourceAttrs, StringArg, FindResource, ArgumentNamed, IsResource, CataloguedAttr, Get, DistinctKeys;
    ToolIsFound(catalog.tools, toolName, m);
    ArgumentIsNamed(args, m.resourceIdArg);
    var id := ArgumentNamed(args, m.resourceIdArg);
    if id.None? {
      NoResourceAttrs(m.defaultAttrs);
    } else {
      forall r | IsResource(catalog.resources, id.value, r)
        ensures Get(ToolRequest(catalog, principal, toolName, args).resource.attrs, key) == CataloguedAttr(r, m.defaultAttrs, key)
      {
        ResourceIsFound(catalog.resources, id.value, r);
        assert r in catalog.resources by { ResourceIsIn(catalog.resources, id.value, r); }
        ResourceAttrsAre(m.defaultAttrs, r, key);
      }
      if forall r | r in catalog.resources :: r.id != id.value && r.kind != id.value {
        NothingNamed(catalog.resources, id.value);
        NoResourceAttrs(m.defaultAttrs);
      }
    }
  }

  lemma ResourceIsIn(resources: seq<CatalogResource>, name: string, r: CatalogResource)
    requires IsResource(resources, name, r)
    ensures r in resources
  {}

  lemma NothingNamed(resources: seq<CatalogResource>, name: string)
    requires forall r | r in resources :: r.id != name && r.kind != name
    ensures FindResource(resources, name) == None
  {
    hide FindResource;
    ResourceFound(resources, name);
    if FindResource(resources, name).Some? { ResourceIsIn(resources, name, FindResource(resources, name).value); }
  }

  lemma NoResourceAttrs(m: StringMap)
    ensures ResourceAttrs(m, None) == m
  {}

  lemma ResourceAttrsAre(m: StringMap, r: CatalogResource, key: string)
    requires DistinctKeys(r.attrs)
    ensures Get(ResourceAttrs(m, Some(r)), key) == CataloguedAttr(r, m, key)
  {
    hide Get, Put, PutAll, DistinctKeys;
    var one := PutOptional(m, "department", r.department);
    var two := PutOptional(one, "sensitivity", r.sensitivity);
    if r.department.Some? { GetAfterPut(m, "department", r.department.value, key); }
    if r.sensitivity.Some? { GetAfterPut(one, "sensitivity", r.sensitivity.value, key); }
    GetAfterPutAll(two, r.attrs, key);
    assert "sensitivity" != "department";
  }

  // ----- the context of a tool call -----

  /** What the mapping reads for this context key. */
  function Mapped(args: Json, mappings: StringMap, key: string): Option<string> {
    match Get(mappings, key)
    case None => None
    case Some(path) => Extract(args, path)
  }

  lemma {:induction false} MappedWins(args: Json, mappings: StringMap, ctx: StringMap, key: string)
    requires DistinctKeys(mappings)
    ensures Get(MapArgs(args, mappings, ctx), key)
         == if Mapped(args, mappings, key).Some? then Mapped(args, mappings, key) else Get(ctx, key)
    decreases mappings
  {
    hide Extract, Put;
    if mappings != [] {
      var (k, path) := mappings[0];
      var rest := mappings[1..];
      var val := Extract(args, path);
      assert forall i, j | 0 <= i < j < |rest| :: rest[i].0 == mappings[i + 1].0 && rest[j].0 == mappings[j + 1].0;
      MappedWins(args, rest, PutOptional(ctx, k, val), key);
      if val.Some? { GetAfterPut(ctx, k, val.value, key); }
      if k == key {
        GetMissing(rest, key);
        assert forall i | 0 <= i < |rest| :: rest[i].0 == mappings[i + 1].0;
      }
    }
  }

  lemma FlattenedKeys(args: Json, start: StringMap, key: string)
    ensures !("arg_" <= key) ==> Get(Flatten(args, "arg_", start), key) == Get(start, key)
  {
    hide Flatten, Leaves, Join, Get;
    FlattenInsertsLeaves(args, "arg_", start);
    if !("arg_" <= key) {
      var es := EntriesOf("arg_", Leaves(args));
      assert forall i | 0 <= i < |es| :: "arg_" <= es[i].0;
      GetPassesPutAll(start, es, key);
    }
  }

  lemma FlattenedEntry(args: Json, start: StringMap, l: Leaf)
    requires UniqueKeys(args) && KeysWithout(args, '_') && IsLeafPath(args, l)
    ensures Get(Flatten(args, "arg_", start), "arg_" + Join(l.path, "_")) == Some(l.text)
  {
    hide Flatten, Leaves, Join, Get, IsLeafPath, UniqueKeys, KeysWithout, DistinctKeys, DistinctPaths;
    FlattenIsExact(args, []);
    FlattenedLeaf(args, l);
    FlattenInsertsLeaves(args, "arg_", start);
    FlattenInsertsLeaves(args, "arg_", []);
    var es, key := EntriesOf("arg_", Leaves(args)), "arg_" + Join(l.path, "_");
    GetAfterPutAll(start, es, key);
    GetAfterPutAll([], es, key);
    assert Get([], key) == None by { NothingToGet(key); }
  }

  lemma NothingToGet(key: string)
    ensures Get([], key) == None
  {}

  /**
   * A mapped context key holds what its path leads to; otherwise `tool_name` holds the name, and the
   * key of each argument holds its text.
   */
  lemma ToolContext(catalog: ResourceCatalog, principal: Principal, toolName: string, args: Json, m: ToolMapping, key: string, l: Leaf)
    requires IsTool(catalog.tools, toolName, m) && DistinctKeys(m.argMappings)
    ensures var values, mapped := ToolRequest(catalog, principal, toolName, args).values, Mapped(args, m.argMappings, key);
            && (mapped.Some? ==> Get(values, key) == mapped)
            && (mapped.None? && key == "tool_name" ==> Get(values, key) == Some(toolName))
            && (mapped.None? && key == "arg_" + Join(l.path, "_") && UniqueKeys(args) && KeysWithout(args, '_') && IsLeafPath(args, l) ==>
                  Get(values, key) == Some(l.text))
  {
    hide Flatten, MapArgs, Mapped, ResourceAttrs, StringArg, FindResource, Get, DistinctKeys, IsLeafPath, UniqueKeys, KeysWithout, Join;
    ToolIsFound(catalog.tools, toolName, m);
    var start := [("tool_name", toolName)];
    var flat := Flatten(args, "arg_", start);
    MappedWins(args, m.argMappings, flat, key);
    if key == "tool_name" {
      assert !("arg_" <= "tool_name") by { assert "tool_name"[0] == 't'; }
      FlattenedKeys(args, start, key);
      assert Get(start, key) == Some(toolName) by { FirstIsGot(key, toolName); }
    }
    if key == "arg_" + Join(l.path, "_") && UniqueKeys(args) && KeysWithout(args, '_') && IsLeafPath(args, l) {
      FlattenedEntry(args, start, l);
    }
  }

  lemma FirstIsGot(key: string, value: string)
    ensures Get([(key, value)], key) == Some(value)
  {}

  /** A call outside the catalog is a `TOOL_INVOKE` on `TOOL_UNKNOWN` with its own name as id and every argument in its context. */
  lemma UnknownToolRequestIs(catalog: ResourceCatalog, principal: Principal, toolName: string, args: Json, l: Leaf)
    requires forall t | t in catalog.tools :: t.toolName != toolName
    ensures var req := ToolRequest(catalog, principal, toolName, args);
            && req.principal == principal && req.action == "TOOL_INVOKE"
            && req.resource == Resource("TOOL_UNKNOWN", Some(toolName), [])
            && req.subject == None && req.relationships == []
            && req.actingAs == Some("agent:paac-proxy") && req.onBehalfOf == None
            && Get(req.values, "tool_name") == Some(toolName)
            && (UniqueKeys(args) && KeysWithout(args, '_') && IsLeafPath(args, l) ==>
                  Get(req.values, "arg_" + Join(l.path, "_")) == Some(l.text))
  {
    hide Flatten, MapArgs, ResourceAttrs, StringArg, FindResource, FindTool, Get, IsLeafPath, UniqueKeys, KeysWithout, Join;
    ToolFound(catalog.tools, toolName);
    var start := [("tool_name", toolName)];
    assert !("arg_" <= "tool_name") by { assert "tool_name"[0] == 't'; }
    FlattenedKeys(args, start, "tool_name");
    FirstIsGot("tool_name", toolName);
    if UniqueKeys(args) && KeysWithout(args, '_') && IsLeafPath(args, l) { FlattenedEntry(args, start, l); }
  }

  /** The texts that arguments are given as: a string is itself, and other scalars are as JSON writes them. */
  lemma ScalarTexts(s: string, number: string, v: Json)
    ensures LeafText(Str(s)) == s && LeafText(Num(number)) == number
    ensures LeafText(Bool(true)) == "true" && LeafText(Bool(false)) == "false"
    ensures v.Str? || v.Num? || v.Bool? ==> ArgumentText(v) == LeafText(v)
    ensures v.Arr? ==> "[" + LeafText(v) + "]" == Render(v) == ArgumentText(v)
    ensures v.Obj? || v.Null? ==> ArgumentText(v) == Render(v)
  {}
}
