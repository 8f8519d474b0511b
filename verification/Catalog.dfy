/** Tool calls as requests: argument flattening and dotted lookup in catalog.rs. */
module Catalog {
  import opened Text
  import opened Json
  import opened Requests
  import opened Contexts

  datatype CatalogResource = CatalogResource(
    id: string, kind: string, department: Option<string>, sensitivity: Option<string>, attrs: StringMap)

  datatype ToolMapping = ToolMapping(
    toolName: string, action: string, resourceKind: string, resourceIdArg: Option<string>,
    defaultAttrs: StringMap, argMappings: StringMap)

  datatype ResourceCatalog = ResourceCatalog(resources: seq<CatalogResource>, tools: seq<ToolMapping>)

  // ----- insertion-ordered maps -----

  /** Inserting keeps the place of a key that is present already. */
  function Put(m: StringMap, k: string, v: string): StringMap {
    if m == [] then [(k, v)]
    else if m[0].0 == k then [(k, v)] + m[1..]
    else [m[0]] + Put(m[1..], k, v)
  }

  function PutAll(m: StringMap, entries: StringMap): StringMap
    decreases entries
  {
    if entries == [] then m else PutAll(Put(m, entries[0].0, entries[0].1), entries[1..])
  }

  function Get(m: StringMap, k: string): Option<string> {
    if m == [] then None else if m[0].0 == k then Some(m[0].1) else Get(m[1..], k)
  }

  predicate HasKey(m: StringMap, k: string) {
    exists i :: 0 <= i < |m| && m[i].0 == k
  }

  lemma PutPasses(m: StringMap, i: nat, k: string, v: string)
    requires i < |m| && m[i].0 != k
    ensures m[..i] + Put(m[i..], k, v) == m[..i + 1] + Put(m[i + 1..], k, v)
  {
    var rest := Put(m[i + 1..], k, v);
    assert m[i..][1..] == m[i + 1..];
    assert Put(m[i..], k, v) == [m[i]] + rest;
    assert m[..i + 1] == m[..i] + [m[i]];
    Assoc(m[..i], [m[i]], rest);
  }

  lemma PutStops(m: StringMap, i: nat, k: string, v: string)
    requires i <= |m| && (i < |m| ==> m[i].0 == k)
    ensures m[..i] + Put(m[i..], k, v) == if i < |m| then m[..i] + [(k, v)] + m[i + 1..] else m + [(k, v)]
  {
    if i < |m| {
      assert m[i..][1..] == m[i + 1..];
      Assoc(m[..i], [(k, v)], m[i + 1..]);
    } else {
      assert m[..i] == m && m[i..] == [];
    }
  }

  class IndexMap {
    var entries: StringMap

    constructor (entries: StringMap)
      ensures this.entries == entries
    {
      this.entries := entries;
    }

    method Insert(k: string, v: string)
      modifies this
      ensures entries == Put(old(entries), k, v)
    {
      hide Put;
      ghost var was := entries;
      var i := 0;
      assert was[..0] + Put(was[0..], k, v) == Put(was, k, v) by { assert was[0..] == was; }
      while i < |entries| && entries[i].0 != k
        invariant i <= |entries| && entries == was
        invariant Put(was, k, v) == was[..i] + Put(was[i..], k, v)
      {
        PutPasses(was, i, k, v);
        i := i + 1;
      }
      PutStops(was, i, k, v);
      if i < |entries| {
        entries := entries[..i] + [(k, v)] + entries[i + 1..];
      } else {
        entries := entries + [(k, v)];
      }
    }
  }

  lemma {:induction false} PutNew(m: StringMap, k: string, v: string)
    requires !HasKey(m, k)
    ensures Put(m, k, v) == m + [(k, v)]
  {
    if m != [] {
      assert m[0].0 != k;
      forall i | 0 <= i < |m[1..]| ensures m[1..][i].0 != k { assert m[i + 1].0 != k; }
      PutNew(m[1..], k, v);
    }
  }

  lemma {:induction false} PutAllAppend(m: StringMap, a: StringMap, b: StringMap)
    ensures PutAll(m, a + b) == PutAll(PutAll(m, a), b)
    decreases a
  {
    if a == [] {
      assert a + b == b;
    } else {
      assert (a + b)[1..] == a[1..] + b;
      PutAllAppend(Put(m, a[0].0, a[0].1), a[1..], b);
    }
  }

  /** Fresh, distinct keys are appended in order. */
  lemma {:induction false} PutAllNew(m: StringMap, entries: StringMap)
    requires DistinctKeys(entries)
    requires forall i | 0 <= i < |entries| :: !HasKey(m, entries[i].0)
    ensures PutAll(m, entries) == m + entries
    decreases entries
  {
    if entries == [] {
      assert m + entries == m;
    } else {
      var (k, v) := entries[0];
      PutNew(m, k, v);
      var m2 := m + [(k, v)];
      forall i | 0 <= i < |entries[1..]|
        ensures !HasKey(m2, entries[1..][i].0)
      {
        assert entries[1..][i] == entries[i + 1];
        assert !HasKey(m, entries[i + 1].0);
      }
      forall i, j | 0 <= i < j < |entries[1..]|
        ensures entries[1..][i].0 != entries[1..][j].0
      {
        assert entries[i + 1].0 != entries[j + 1].0;
      }
      PutAllNew(m2, entries[1..]);
      assert m2 + entries[1..] == m + entries;
    }
  }

  lemma {:induction false} GetAt(m: StringMap, i: nat)
    requires i < |m| && DistinctKeys(m)
    ensures Get(m, m[i].0) == Some(m[i].1)
  {
    if i > 0 {
      assert m[0].0 != m[i].0;
      forall a, b | 0 <= a < b < |m[1..]| ensures m[1..][a].0 != m[1..][b].0 { assert m[a + 1].0 != m[b + 1].0; }
      assert m[1..][i - 1] == m[i];
      GetAt(m[1..], i - 1);
    }
  }

  // ----- compact JSON text, as `Value::to_string` writes it -----

  function HexDigit(n: nat): char
    requires n < 16
  {
    "0123456789abcdef"[n]
  }

  function RenderChar(c: char): string {
    if c == '"' then "\\\""
    else if c == '\\' then "\\\\"
    else if c == '\U{8}' then "\\b"
    else if c == '\U{C}' then "\\f"
    else if c == '\n' then "\\n"
    else if c == '\r' then "\\r"
    else if c == '\t' then "\\t"
    else if c < ' ' then "\\u00" + [HexDigit(c as int / 16), HexDigit(c as int % 16)]
    else [c]
  }

  function RenderChars(s: string): string {
    if s == "" then "" else RenderChar(s[0]) + RenderChars(s[1..])
  }

  function Render(j: Json): string
    decreases j, 1
  {
    match j
    case Null => "null"
    case Bool(b) => if b then "true" else "false"
    case Num(text) => text
    case Str(s) => "\"" + RenderChars(s) + "\""
    case Arr(items) => "[" + Join(RenderItems(items), ",") + "]"
    case Obj(members) => "{" + Join(RenderMembers(members), ",") + "}"
  }

  function RenderItems(items: seq<Json>): seq<string>
    decreases items, 0
  {
    if items == [] then [] else [Render(items[0])] + RenderItems(items[1..])
  }

  function RenderMembers(members: seq<Entry>): seq<string>
    decreases members, 0
  {
    if members == [] then []
    else ["\"" + RenderChars(members[0].key) + "\":" + Render(members[0].value)] + RenderMembers(members[1..])
  }

  // ----- flattening -----

  /** The text of a value that is neither an object nor null. */
  function LeafText(v: Json): string
    requires IsLeaf(v)
  {
    match v
    case Str(s) => s
    case Num(text) => text
    case Bool(b) => if b then "true" else "false"
    case Arr(items) => Join(RenderItems(items), ",")
  }

  predicate IsLeaf(v: Json) {
    v.Str? || v.Num? || v.Bool? || v.Arr?
  }

  /** What `flatten_json_args` leaves in `out`. */
  function Flatten(val: Json, prefix: string, out: StringMap): StringMap
    decreases val, 1
  {
    match val
    case Obj(members) => FlattenMembers(members, prefix, out)
    case _ => out
  }

  function FlattenMembers(members: seq<Entry>, prefix: string, out: StringMap): StringMap
    decreases members, 0
  {
    if members == [] then out
    else
      var v := members[0].value;
      var key := prefix + members[0].key;
      var next :=
        if v.Obj? then Flatten(v, key + "_", out)
        else if v.Null? then out
        else Put(out, key, LeafText(v));
      FlattenMembers(members[1..], prefix, next)
  }

  method RenderAll(items: seq<Json>) returns (strs: seq<string>)
    ensures strs == RenderItems(items)
  {
    strs := [];
    for i := 0 to |items|
      invariant RenderItems(items) == strs + RenderItems(items[i..])
    {
      assert items[i..][1..] == items[i + 1..];
      strs := strs + [Render(items[i])];
    }
  }

  method FlattenJsonArgs(val: Json, prefix: string, out: IndexMap)
    modifies out
    ensures out.entries == Flatten(val, prefix, old(out.entries))
    decreases val
  {
    if val.Obj? {
      var members := val.members;
      for i := 0 to |members|
        invariant Flatten(val, prefix, old(out.entries)) == FlattenMembers(members[i..], prefix, out.entries)
      {
        var v := members[i].value;
        var key := prefix + members[i].key;
        assert members[i..][0] == members[i] && members[i..][1..] == members[i + 1..];
        match v
        case Str(s) => out.Insert(key, s);
        case Num(n) => out.Insert(key, n);
        case Bool(b) => out.Insert(key, if b then "true" else "false");
        case Obj(_) => FlattenJsonArgs(v, key + "_", out);
        case Arr(items) =>
          var strs := RenderAll(items);
          out.Insert(key, Join(strs, ","));
        case Null =>
      }
    }
  }

  // ----- the leaves of a tree -----

  datatype Leaf = Leaf(path: seq<string>, text: string)

  function Under(key: string, leaves: seq<Leaf>): (r: seq<Leaf>)
    ensures |r| == |leaves|
    ensures forall i | 0 <= i < |leaves| :: r[i] == Leaf([key] + leaves[i].path, leaves[i].text)
  {
    seq(|leaves|, i requires 0 <= i < |leaves| => Leaf([key] + leaves[i].path, leaves[i].text))
  }

  /** All leaves with their paths, in document order. */
  function Leaves(val: Json): seq<Leaf>
    decreases val, 1
  {
    match val
    case Obj(members) => LeavesOfMembers(members)
    case _ => []
  }

  function LeavesOfMember(m: Entry): seq<Leaf>
    decreases m, 2
  {
    if m.value.Obj? then Under(m.key, Leaves(m.value))
    else if m.value.Null? then []
    else [Leaf([m.key], LeafText(m.value))]
  }

  function LeavesOfMembers(members: seq<Entry>): seq<Leaf>
    decreases members, 0
  {
    if members == [] then [] else LeavesOfMember(members[0]) + LeavesOfMembers(members[1..])
  }

  function EntriesOf(prefix: string, leaves: seq<Leaf>): (r: StringMap)
    ensures |r| == |leaves|
    ensures forall i | 0 <= i < |leaves| :: r[i] == (prefix + Join(leaves[i].path, "_"), leaves[i].text)
  {
    seq(|leaves|, i requires 0 <= i < |leaves| => (prefix + Join(leaves[i].path, "_"), leaves[i].text))
  }

  lemma EntriesAppend(prefix: string, a: seq<Leaf>, b: seq<Leaf>)
    ensures EntriesOf(prefix, a + b) == EntriesOf(prefix, a) + EntriesOf(prefix, b)
  {}

  lemma EntriesUnder(prefix: string, key: string, leaves: seq<Leaf>)
    requires forall l | l in leaves :: l.path != []
    ensures EntriesOf(prefix + key + "_", leaves) == EntriesOf(prefix, Under(key, leaves))
  {
    var u := Under(key, leaves);
    forall i | 0 <= i < |leaves|
      ensures EntriesOf(prefix + key + "_", leaves)[i] == EntriesOf(prefix, u)[i]
    {
      var p := leaves[i].path;
      assert leaves[i] in leaves;
      assert ([key] + p)[1..] == p;
      assert Join([key] + p, "_") == key + "_" + Join(p, "_");
      assert prefix + key + "_" + Join(p, "_") == prefix + (key + "_" + Join(p, "_"));
    }
  }

  lemma {:induction false} PathsNonEmpty(val: Json)
    ensures forall l | l in Leaves(val) :: l.path != []
    decreases val, 1
  {
    if val.Obj? {
      MemberPathsNonEmpty(val.members);
    }
  }

  lemma {:induction false} MemberPathsNonEmpty(members: seq<Entry>)
    ensures forall l | l in LeavesOfMembers(members) :: l.path != []
    decreases members, 0
  {
    if members != [] {
      MemberPathsNonEmpty(members[1..]);
    }
  }

  /** Flattening inserts the leaves one after the other, keyed by their joined paths. */
  lemma {:induction false} FlattenInsertsLeaves(val: Json, prefix: string, out: StringMap)
    ensures Flatten(val, prefix, out) == PutAll(out, EntriesOf(prefix, Leaves(val)))
    decreases val, 1
  {
    if val.Obj? {
      FlattenMembersInserts(val.members, prefix, out);
    } else {
      assert EntriesOf(prefix, []) == [];
    }
  }

  lemma {:induction false} FlattenMembersInserts(members: seq<Entry>, prefix: string, out: StringMap)
    ensures FlattenMembers(members, prefix, out) == PutAll(out, EntriesOf(prefix, LeavesOfMembers(members)))
    decreases members, 0
  {
    hide Put, Join, LeafText;
    if members == [] {
      assert EntriesOf(prefix, []) == [];
    } else {
      var m := members[0];
      var v, key := m.value, prefix + m.key;
      var first := LeavesOfMember(m);
      var entries := EntriesOf(prefix, first);
      var next := if v.Obj? then Flatten(v, key + "_", out) else if v.Null? then out else Put(out, key, LeafText(v));
      if v.Obj? {
        FlattenInsertsLeaves(v, key + "_", out);
        PathsNonEmpty(v);
        EntriesUnder(prefix, m.key, Leaves(v));
      } else if v.Null? {
        assert entries == [];
      } else {
        OneEntry(prefix, m.key, LeafText(v), out);
      }
      assert next == PutAll(out, entries);
      FlattenMembersInserts(members[1..], prefix, next);
      EntriesAppend(prefix, first, LeavesOfMembers(members[1..]));
      PutAllAppend(out, entries, EntriesOf(prefix, LeavesOfMembers(members[1..])));
    }
  }

  lemma OneEntry(prefix: string, key: string, text: string, out: StringMap)
    ensures PutAll(out, EntriesOf(prefix, [Leaf([key], text)])) == Put(out, prefix + key, text)
  {
    hide Put;
    var es := EntriesOf(prefix, [Leaf([key], text)]);
    assert Join([key], "_") == key;
    assert es == [(prefix + key, text)];
    assert es[1..] == [];
  }

  // ----- lookup -----

  function Find(members: seq<Entry>, key: string): Option<Json> {
    if members == [] then None
    else if members[0].key == key then Some(members[0].value)
    else Find(members[1..], key)
  }

  function Child(val: Json, key: string): Option<Json> {
    if val.Obj? then Find(val.members, key) else None
  }

  function Lookup(val: Json, path: seq<string>): Option<Json>
    decreases path
  {
    if path == [] then Some(val)
    else
      match Child(val, path[0])
      case None => None
      case Some(v) => Lookup(v, path[1..])
  }

  lemma LookupOne(val: Json, key: string)
    ensures Lookup(val, [key]) == Child(val, key)
  {
    hide Find;
    assert [key][1..] == [];
  }

  lemma LookupTwo(val: Json, outer: string, inner: string)
    ensures Lookup(val, [outer, inner])
         == match Child(val, outer) case None => None case Some(v) => Child(v, inner)
  {
    hide Find;
    assert [outer, inner][1..] == [inner];
    if Child(val, outer).Some? { LookupOne(Child(val, outer).value, inner); }
  }

  function ArgumentText(v: Json): string {
    match v
    case Str(s) => s
    case Num(n) => n
    case Bool(b) => if b then "true" else "false"
    case _ => Render(v)
  }

  function CleanPath(path: string): string {
    TrimStartStr(TrimStartStr(path, "args."), "$.")
  }

  /** What `extract_nested_arg` returns. */
  function Extract(val: Json, path: string): Option<string> {
    match Lookup(val, SplitOn(CleanPath(path), '.'))
    case None => None
    case Some(v) => Some(ArgumentText(v))
  }

  method ExtractNestedArg(val: Json, path: string) returns (r: Option<string>)
    ensures r == Extract(val, path)
  {
    var parts := SplitOn(CleanPath(path), '.');
    var current := val;
    for i := 0 to |parts|
      invariant Lookup(val, parts) == Lookup(current, parts[i..])
    {
      assert parts[i..][0] == parts[i] && parts[i..][1..] == parts[i + 1..];
      var next := Child(current, parts[i]);
      if next.None? {
        return None;
      }
      current := next.value;
    }
    return Some(ArgumentText(current));
  }
}
