/** The role-by-resource matrix: lib.rs of authz-board. */
module Board {
  import opened Text
  import opened Dsl
  import opened Requests
  import opened Semantics
  import opened Entities
  import opened Evaluator

  datatype Cell = Cell(role: string, resource: string, policies: seq<string>, summary: string)

  datatype Matrix = Matrix(roles: seq<string>, resources: seq<string>, cells: seq<Cell>)

  /** The policy is listed in the cell of the role and the resource. */
  predicate Concerns(p: Policy, role: string, resource: string) {
    p.resource == resource && (p.whenRoles == [] || role in p.whenRoles || role in p.unlessRoles)
  }

  function Matched(ps: seq<Policy>, role: string, resource: string): seq<Policy> {
    if ps == [] then []
    else (if Concerns(ps[0], role, resource) then [ps[0]] else []) + Matched(ps[1..], role, resource)
  }

  function EffectName(e: Effect): string {
    match e case Allow => "Allow" case Deny => "Deny" case Review => "Review"
  }

  function Described(ps: seq<Policy>): (r: seq<string>)
    ensures |r| == |ps| && forall i | 0 <= i < |ps| :: r[i] == EffectName(ps[i].effect) + " " + ps[i].id
  {
    seq(|ps|, i requires 0 <= i < |ps| => EffectName(ps[i].effect) + " " + ps[i].id)
  }

  function PolicyIds(ps: seq<Policy>): (r: seq<string>)
    ensures |r| == |ps| && forall i | 0 <= i < |ps| :: r[i] == ps[i].id
  {
    seq(|ps|, i requires 0 <= i < |ps| => ps[i].id)
  }

  function CellFor(ps: seq<Policy>, role: string, resource: string): Cell {
    var matched := Matched(ps, role, resource);
    Cell(role, resource, PolicyIds(matched),
         if matched == [] then "DENY (default)" else Join(Described(matched), "; "))
  }

  predicate MentionsRole(ps: seq<Policy>, role: string) {
    exists p :: p in ps && (role in p.whenRoles || role in p.unlessRoles)
  }

  predicate MentionsResource(ps: seq<Policy>, resource: string) {
    exists p :: p in ps && p.resource == resource
  }

  /** Where the cell of a row and a column is, with `n` columns. */
  function At(row: nat, n: nat, column: nat): nat {
    row * n + column
  }

  /** The rows are the roles mentioned, or one row `*`; the columns the resources; the cells row by row. */
  ghost predicate IsMatrixOf(m: Matrix, ps: seq<Policy>) {
    && NoRepeats(m.roles) && NoRepeats(m.resources)
    && (if exists r :: MentionsRole(ps, r) then forall r :: r in m.roles <==> MentionsRole(ps, r) else m.roles == ["*"])
    && (forall r :: r in m.resources <==> MentionsResource(ps, r))
    && |m.cells| == |m.roles| * |m.resources|
    && forall i: nat, j: nat | i < |m.roles| && j < |m.resources| ::
         At(i, |m.resources|, j) < |m.cells|
         && m.cells[At(i, |m.resources|, j)] == CellFor(ps, m.roles[i], m.resources[j])
  }

  method AddMissing(xs: seq<string>, items: seq<string>) returns (r: seq<string>)
    requires NoRepeats(xs)
    ensures NoRepeats(r) && forall x :: x in r <==> x in xs || x in items
  {
    r := xs;
    for i := 0 to |items|
      invariant NoRepeats(r) && forall x :: x in r <==> x in xs || x in items[..i]
    {
      assert items[..i + 1] == items[..i] + [items[i]];
      if items[i] !in r {
        r := r + [items[i]];
      }
    }
    assert items[..|items|] == items;
  }

  method MatchCell(ps: seq<Policy>, role: string, resource: string) returns (cell: Cell)
    ensures cell == CellFor(ps, role, resource)
  {
    hide Concerns;
    var matched: seq<Policy> := [];
    for i := 0 to |ps|
      invariant Matched(ps, role, resource) == matched + Matched(ps[i..], role, resource)
    {
      assert ps[i..][0] == ps[i] && ps[i..][1..] == ps[i + 1..];
      if Concerns(ps[i], role, resource) {
        matched := matched + [ps[i]];
      }
    }
    assert ps[|ps|..] == [] && matched + [] == matched;
    var summary := if matched == [] then "DENY (default)" else Join(Described(matched), "; ");
    cell := Cell(role, resource, PolicyIds(matched), summary);
  }

  method CollectNames(ps: seq<Policy>) returns (roles: seq<string>, resources: seq<string>)
    ensures NoRepeats(roles) && NoRepeats(resources)
    ensures forall r :: r in roles <==> MentionsRole(ps, r)
    ensures forall r :: r in resources <==> MentionsResource(ps, r)
  {
    roles, resources := [], [];
    for i := 0 to |ps|
      invariant NoRepeats(roles) && NoRepeats(resources)
      invariant forall r :: r in roles <==> MentionsRole(ps[..i], r)
      invariant forall r :: r in resources <==> MentionsResource(ps[..i], r)
    {
      var p := ps[i];
      forall r { MentionsSnoc(ps[..i], p, r); }
      assert ps[..i + 1] == ps[..i] + [p];
      roles := AddMissing(roles, p.whenRoles);
      roles := AddMissing(roles, p.unlessRoles);
      if p.resource !in resources {
        resources := resources + [p.resource];
      }
    }
    assert ps[..|ps|] == ps;
  }

  lemma MentionsSnoc(ps: seq<Policy>, p: Policy, r: string)
    ensures MentionsRole(ps + [p], r) <==> MentionsRole(ps, r) || r in p.whenRoles || r in p.unlessRoles
    ensures MentionsResource(ps + [p], r) <==> MentionsResource(ps, r) || p.resource == r
  {
    assert forall q :: q in ps + [p] <==> q in ps || q == p;
  }

  method MatrixRow(ps: seq<Policy>, role: string, resources: seq<string>) returns (row: seq<Cell>)
    ensures |row| == |resources|
    ensures forall j | 0 <= j < |row| :: row[j] == CellFor(ps, role, resources[j])
  {
    hide CellFor;
    row := [];
    for j := 0 to |resources|
      invariant |row| == j && forall b | 0 <= b < j :: row[b] == CellFor(ps, role, resources[b])
    {
      var cell := MatchCell(ps, role, resources[j]);
      row := row + [cell];
    }
  }

  lemma RowMajor(a: nat, b: nat, i: nat, n: nat)
    requires a < i && b < n
    ensures At(a, n, b) < i * n
  {
    assert (a + 1) * n <= i * n;
  }

  /** The first `i` rows are in place. */
  ghost predicate RowsDone(cells: seq<Cell>, i: nat, ps: seq<Policy>, roles: seq<string>, resources: seq<string>)
    requires i <= |roles|
  {
    && |cells| == i * |resources|
    && forall a: nat, b: nat | a < i && b < |resources| ::
         At(a, |resources|, b) < |cells|
         && cells[At(a, |resources|, b)] == CellFor(ps, roles[a], resources[b])
  }

  lemma OneMoreRow(cells: seq<Cell>, row: seq<Cell>, i: nat, ps: seq<Policy>, roles: seq<string>, resources: seq<string>)
    requires i < |roles| && RowsDone(cells, i, ps, roles, resources) && |row| == |resources|
    requires forall j | 0 <= j < |row| :: row[j] == CellFor(ps, roles[i], resources[j])
    ensures RowsDone(cells + row, i + 1, ps, roles, resources)
  {
    hide CellFor, At;
    var n, all := |resources|, cells + row;
    NextRow(i, n);
    forall a: nat, b: nat | a < i + 1 && b < n
      ensures At(a, n, b) < |all| && all[At(a, n, b)] == CellFor(ps, roles[a], resources[b])
    {
      RowMajor(a, b, i + 1, n);
      if a < i {
        RowMajor(a, b, i, n);
        assert all[At(a, n, b)] == cells[At(a, n, b)];
      } else {
        LastRow(i, n, b);
        assert all[At(a, n, b)] == row[b];
      }
    }
  }

  lemma NextRow(i: nat, n: nat)
    ensures (i + 1) * n == i * n + n
  {}

  lemma LastRow(i: nat, n: nat, b: nat)
    ensures At(i, n, b) == i * n + b
  {}

  method BuildMatrix(ps: seq<Policy>) returns (m: Matrix)
    ensures IsMatrixOf(m, ps)
  {
    hide CellFor, MentionsRole, MentionsResource, RowsDone, At;
    var roles, resources := CollectNames(ps);
    if roles == [] {
      roles := ["*"];
    } else {
      assert MentionsRole(ps, roles[0]);
    }
    var cells: seq<Cell> := [];
    NoRows(ps, roles, resources);
    for i := 0 to |roles|
      invariant RowsDone(cells, i, ps, roles, resources)
    {
      var row := MatrixRow(ps, roles[i], resources);
      OneMoreRow(cells, row, i, ps, roles, resources);
      cells := cells + row;
    }
    m := Matrix(roles, resources, cells);
    AllRows(m, ps);
  }

  lemma NoRows(ps: seq<Policy>, roles: seq<string>, resources: seq<string>)
    ensures RowsDone([], 0, ps, roles, resources)
  {}

  lemma AllRows(m: Matrix, ps: seq<Policy>)
    requires RowsDone(m.cells, |m.roles|, ps, m.roles, m.resources)
    requires NoRepeats(m.roles) && NoRepeats(m.resources)
    requires if exists r :: MentionsRole(ps, r) then forall r :: r in m.roles <==> MentionsRole(ps, r) else m.roles == ["*"]
    requires forall r :: r in m.resources <==> MentionsResource(ps, r)
    ensures IsMatrixOf(m, ps)
  {
    hide CellFor, MentionsRole, MentionsResource, At;
  }

  // ----- soundness -----

  lemma MatchedContains(ps: seq<Policy>, p: Policy, role: string, resource: string)
    ensures p in Matched(ps, role, resource) <==> p in ps && Concerns(p, role, resource)
  {
    hide Concerns;
    if ps != [] {
      MatchedContains(ps[1..], p, role, resource);
      assert p in ps <==> p == ps[0] || p in ps[1..];
    }
  }

  lemma EmptyCell(ps: seq<Policy>, role: string, resource: string)
    ensures CellFor(ps, role, resource).policies == [] <==> forall p | p in ps :: !Concerns(p, role, resource)
  {
    hide Concerns;
    var matched := Matched(ps, role, resource);
    forall p { MatchedContains(ps, p, role, resource); }
    assert matched != [] ==> matched[0] in matched;
  }

  /** The principal's roles are rows whose cells in the column of `resource` list no policy. */
  ghost predicate BlankFor(m: Matrix, roles: seq<string>, resource: string) {
    forall r | r in roles ::
      r in m.roles && forall c | c in m.cells && c.role == r && c.resource == resource :: c.policies == []
  }

  lemma CellExists(m: Matrix, ps: seq<Policy>, role: string, resource: string)
    requires IsMatrixOf(m, ps) && role in m.roles && resource in m.resources
    ensures CellFor(ps, role, resource) in m.cells
  {
    hide CellFor, MentionsRole, MentionsResource, At;
    var i :| 0 <= i < |m.roles| && m.roles[i] == role;
    var j :| 0 <= j < |m.resources| && m.resources[j] == resource;
    assert m.cells[At(i, |m.resources|, j)] in m.cells;
  }

  /**
   * The matrix is sound: if every role of a principal is a row and none of their cells for a
   * resource lists a policy, the compiled policies deny every request on that resource.
   */
  lemma {:induction false} BlankMeansDenied(m: Matrix, ps: seq<Policy>, req: AuthzRequest, host: Host)
    requires IsMatrixOf(m, ps) && Compilable(ps) && Evaluable(req, host)
    requires req.principal.roles != [] && BlankFor(m, req.principal.roles, Upper(req.resource.kind))
    ensures !Allows(ps, req, host)
  {
    hide Allows, Evaluable, Compilable, CellFor, Upper, MentionsRole, SubjectMatches;
    CompiledMeansPermitted(ps, req, host);
    var kind := Upper(req.resource.kind);
    if Permitted(ps, req) {
      var p :| p in ps && p.effect == Allow && Holds(p, req);
      var role := req.principal.roles[0];
      if p.whenRoles != [] {
        role :| role in p.whenRoles && role in req.principal.roles;
      }
      assert role in req.principal.roles && Concerns(p, role, kind);
      assert MentionsResource(ps, kind);
      CellExists(m, ps, role, kind);
      EmptyCell(ps, role, kind);
      CellNames(ps, role, kind);
      assert false;
    }
  }

  lemma CellNames(ps: seq<Policy>, role: string, resource: string)
    ensures CellFor(ps, role, resource).role == role && CellFor(ps, role, resource).resource == resource
  {}

  /** Rows are the roles that policies name, or `*` when none does, and columns the resources they are about. */
  lemma MatrixRows(m: Matrix, ps: seq<Policy>, role: string, resource: string)
    requires IsMatrixOf(m, ps)
    ensures role in m.roles <==>
      || (exists p :: p in ps && (role in p.whenRoles || role in p.unlessRoles))
      || (role == "*" && forall p | p in ps :: p.whenRoles == [] && p.unlessRoles == [])
    ensures resource in m.resources <==> exists p :: p in ps && p.resource == resource
  {
    hide CellFor, NoRepeats;
    forall p | p in ps && !(p.whenRoles == [] && p.unlessRoles == [])
      ensures exists r :: MentionsRole(ps, r)
    {
      var r := if p.whenRoles != [] then p.whenRoles[0] else p.unlessRoles[0];
      assert MentionsRole(ps, r);
    }
  }

  /** A cell lists the policies on its resource that are for all roles or name its role, and says so when there is none. */
  lemma {:induction false} CellLists(ps: seq<Policy>, role: string, resource: string, id: string)
    ensures id in CellFor(ps, role, resource).policies <==>
      exists p :: p in ps && p.id == id && p.resource == resource
                  && (p.whenRoles == [] || role in p.whenRoles || role in p.unlessRoles)
    ensures CellFor(ps, role, resource).policies == [] ==> CellFor(ps, role, resource).summary == "DENY (default)"
  {
    hide Join;
    MatchedAre(ps, role, resource);
    var matched := Matched(ps, role, resource);
    if id in PolicyIds(matched) {
      var i :| 0 <= i < |matched| && PolicyIds(matched)[i] == id;
      assert matched[i] in matched;
    }
    if p :| p in matched && p.id == id {
      var i :| 0 <= i < |matched| && matched[i] == p;
      assert PolicyIds(matched)[i] == id;
    }
  }

  lemma {:induction false} MatchedAre(ps: seq<Policy>, role: string, resource: string)
    ensures forall p :: p in Matched(ps, role, resource) <==>
      p in ps && p.resource == resource && (p.whenRoles == [] || role in p.whenRoles || role in p.unlessRoles)
    decreases ps
  {
    if ps != [] {
      MatchedAre(ps[1..], role, resource);
      assert forall p :: p in ps <==> p == ps[0] || p in ps[1..];
    }
  }

  /** Each policy of a cell is summed up by its effect and its id. */
  lemma SummaryNames(p: Policy)
    ensures Described([p]) == [(match p.effect case Allow => "Allow" case Deny => "Deny" case Review => "Review") + " " + p.id]
    ensures forall role :: p.whenRoles == [] ==> CellFor([p], role, p.resource).summary == Described([p])[0]
  {
    forall role | p.whenRoles == []
      ensures CellFor([p], role, p.resource).summary == Described([p])[0]
    {
      assert [p][1..] == [] && Matched([p], role, p.resource) == [p];
    }
  }
}
