/** The line-oriented policy language: the parser of crates/authz-policy/src/dsl.rs. */
module Dsl {
  import opened Text

  datatype Effect = Allow | Deny | Review

  datatype Policy = Policy(
    id: string,
    effect: Effect,
    action: string,
    resource: string,
    whenRoles: seq<string>,
    whereSubjects: seq<string>,
    unlessRoles: seq<string>,
    whereGroups: seq<string>,
    raw: string)

  datatype ParseError =
    | ExpectedName(line: nat)
    | OutsidePolicy(line: nat)
    | UnknownStatement(line: nat, text: string)
    | ExpectedActionResource(line: nat)
    | UnsupportedWhen(line: nat, text: string)
    | UnsupportedWhere(line: nat, text: string)
    | UnsupportedUnless(line: nat, text: string)
    | MissingEffect(id: string)
    | MissingAction(id: string)
    | MissingResource(id: string)

  /** What a policy under construction holds. */
  datatype Fields = Fields(
    id: string,
    effect: Option<Effect>,
    action: Option<string>,
    resource: Option<string>,
    whenRoles: seq<string>,
    whereSubjects: seq<string>,
    whereGroups: seq<string>,
    unlessRoles: seq<string>,
    raw: string)

  // ----- one line -----

  function StripComment(line: string): string {
    line[..IndexOf(line, '#')]
  }

  /** The part of a source line that the parser looks at. */
  function Effective(raw: string): string {
    Trim(StripComment(raw))
  }

  function ParseName(s: string): Option<string> {
    var t := Trim(s);
    if |t| >= 2 && t[0] == '"' && t[|t| - 1] == '"' then Some(t[1..|t| - 1])
    else
      var words := Words(t);
      if words == [] then None else Some(words[0])
  }

  function ParseList(s: string): seq<string> {
    NonEmptyTrimmed(SplitOn(TrimEndChar(TrimStartChar(Trim(s), '['), ']'), ','))
  }

  function NonEmptyTrimmed(items: seq<string>): seq<string> {
    if items == [] then []
    else
      var x := Trim(items[0]);
      (if x == "" then [] else [x]) + NonEmptyTrimmed(items[1..])
  }

  function NewFields(id: string, raw: string): Fields {
    Fields(id, None, None, None, [], [], [], [], raw)
  }

  function Finish(f: Fields): Result<Policy, ParseError> {
    if f.effect.None? then Err(MissingEffect(f.id))
    else if f.action.None? then Err(MissingAction(f.id))
    else if f.resource.None? then Err(MissingResource(f.id))
    else Ok(Policy(f.id, f.effect.value, f.action.value, f.resource.value,
                   f.whenRoles, f.whereSubjects, f.unlessRoles, f.whereGroups, f.raw))
  }

  /** What one line inside a policy says. */
  datatype Clause =
    | WhenRoles(roles: seq<string>)
    | Head(effect: Effect, action: string, resource: string)
    | Subject(subject: string)
    | Group(group: string)
    | UnlessRoles(roles: seq<string>)
    | Malformed(error: ParseError)

  /** The roles of `role == R` or `role in [R, ...]`. */
  function RoleArgument(rest: string): Option<seq<string>> {
    if "role ==" <= rest then Some([Trim(rest[7..])])
    else if "role in " <= rest then Some(ParseList(rest[8..]))
    else None
  }

  function WhenClause(arg: string, loc: nat): Clause {
    var rest := Trim(arg);
    match RoleArgument(rest)
    case Some(roles) => WhenRoles(roles)
    case None => Malformed(UnsupportedWhen(loc, rest))
  }

  function UnlessClause(arg: string, loc: nat): Clause {
    var rest := Trim(arg);
    match RoleArgument(rest)
    case Some(roles) => UnlessRoles(roles)
    case None => Malformed(UnsupportedUnless(loc, rest))
  }

  function HeadClause(effect: Effect, arg: string, loc: nat): Clause {
    var parts := Words(arg);
    if |parts| < 2 then Malformed(ExpectedActionResource(loc))
    else Head(effect, Upper(parts[0]), Upper(parts[1]))
  }

  /** The group a `subject in` line names, without its `_GROUP` suffixes. */
  function GroupName(name: string): string {
    if EndsWith(name, "_GROUP") || name == "EXECUTIVE_GROUP" || HasSub(name, "GROUP")
    then TrimEndStr(name, "_GROUP")
    else name
  }

  function WhereClause(arg: string, loc: nat): Clause {
    var rest := Trim(arg);
    if rest == "subject == SELF" || rest == "subject==SELF" then Subject("SELF")
    else if "subject in " <= rest then
      var name := Trim(rest[11..]);
      if name == "DIRECT_REPORTS" then Subject("DIRECT_REPORTS") else Group(GroupName(name))
    else if "subject == " <= rest then Subject(Trim(rest[11..]))
    else Malformed(UnsupportedWhere(loc, rest))
  }

  function ClauseOf(line: string, loc: nat): Clause {
    if "when " <= line then WhenClause(line[5..], loc)
    else if "allow " <= line then HeadClause(Allow, line[6..], loc)
    else if "deny " <= line then HeadClause(Deny, line[5..], loc)
    else if "review " <= line then HeadClause(Review, line[7..], loc)
    else if "where " <= line then WhereClause(line[6..], loc)
    else if "or " <= line then WhereClause(line[3..], loc)
    else if "unless " <= line then UnlessClause(line[7..], loc)
    else Malformed(UnknownStatement(loc, line))
  }

  function Extend(f: Fields, c: Clause): Fields {
    match c
    case WhenRoles(roles) => f.(whenRoles := f.whenRoles + roles)
    case Head(e, a, r) => f.(effect := Some(e), action := Some(a), resource := Some(r))
    case Subject(s) => f.(whereSubjects := f.whereSubjects + [s])
    case Group(g) => f.(whereGroups := f.whereGroups + [g])
    case UnlessRoles(roles) => f.(unlessRoles := f.unlessRoles + roles)
    case Malformed(_) => f
  }

  // ----- the whole text -----

  datatype State = State(current: Option<Fields>, policies: seq<Policy>)

  const INITIAL := State(None, [])

  /** Closes the policy under construction, if there is one. */
  function Flush(st: State): Result<seq<Policy>, ParseError> {
    if st.current.None? then Ok(st.policies)
    else
      match Finish(st.current.value)
      case Ok(p) => Ok(st.policies + [p])
      case Err(e) => Err(e)
  }

  function Open(st: State, raw: string, line: string, loc: nat): Result<State, ParseError>
    requires "policy " <= line
  {
    match Flush(st)
    case Err(e) => Err(e)
    case Ok(policies) =>
      match ParseName(line[7..])
      case None => Err(ExpectedName(loc))
      case Some(id) => Ok(State(Some(NewFields(id, raw)), policies))
  }

  function Continue(st: State, raw: string, line: string, loc: nat): Result<State, ParseError> {
    if st.current.None? then Err(OutsidePolicy(loc))
    else
      var f := st.current.value;
      var c := ClauseOf(line, loc);
      if c.Malformed? then Err(c.error)
      else Ok(State(Some(Extend(f.(raw := f.raw + "\n" + raw), c)), st.policies))
  }

  function Step(st: State, raw: string, loc: nat): Result<State, ParseError> {
    var line := Effective(raw);
    if line == "" then Ok(st)
    else if "policy " <= line then Open(st, raw, line, loc)
    else Continue(st, raw, line, loc)
  }

  function Run(lines: seq<string>, loc: nat, st: State): Result<State, ParseError> {
    if lines == [] then Ok(st)
    else
      match Step(st, lines[0], loc)
      case Ok(next) => Run(lines[1..], loc + 1, next)
      case Err(e) => Err(e)
  }

  function ParseFrom(lines: seq<string>, loc: nat, st: State): Result<seq<Policy>, ParseError> {
    match Run(lines, loc, st)
    case Ok(last) => Flush(last)
    case Err(e) => Err(e)
  }

  function ParseLines(lines: seq<string>): Result<seq<Policy>, ParseError> {
    ParseFrom(lines, 1, INITIAL)
  }

  /** What `parse_dsl` returns. */
  function Parse(input: string): Result<seq<Policy>, ParseError> {
    ParseLines(Lines(input))
  }

  /** The effect that the first word of a statement names. */
  function EffectNamed(line: string): Option<Effect> {
    if "allow " <= line then Some(Allow)
    else if "deny " <= line then Some(Deny)
    else if "review " <= line then Some(Review)
    else None
  }

  function AfterKeyword(f: Fields, line: string): Fields {
    if EffectNamed(line).Some? then f.(effect := EffectNamed(line)) else f
  }

  lemma KeywordSetsEffect(f: Fields, line: string, loc: nat)
    requires !ClauseOf(line, loc).Malformed?
    ensures Extend(AfterKeyword(f, line), ClauseOf(line, loc)) == Extend(f, ClauseOf(line, loc))
  {
    hide WhenClause, WhereClause, UnlessClause, Words;
    FirstWords(line);
  }

  /** No two keywords start the same line. */
  lemma FirstWords(line: string)
    ensures EffectNamed(line).Some? ==>
      !("when " <= line) && !("where " <= line) && !("or " <= line) && !("unless " <= line)
    ensures EffectNamed(line) == Some(Allow) <==> "allow " <= line
    ensures EffectNamed(line) == Some(Deny) <==> "deny " <= line
    ensures EffectNamed(line) == Some(Review) <==> "review " <= line
  {
    if line != "" {
      assert "allow "[0] == 'a' && "deny "[0] == 'd' && "review "[0] == 'r';
      assert "when "[0] == 'w' && "where "[0] == 'w' && "or "[0] == 'o' && "unless "[0] == 'u';
    }
  }

  // ----- the parser as written: a policy under construction is updated in place -----

  class Partial {
    var id: string
    var effect: Option<Effect>
    var action: Option<string>
    var resource: Option<string>
    var whenRoles: seq<string>
    var whereSubjects: seq<string>
    var whereGroups: seq<string>
    var unlessRoles: seq<string>
    var raw: string

    ghost function View(): Fields
      reads this
    {
      Fields(id, effect, action, resource, whenRoles, whereSubjects, whereGroups, unlessRoles, raw)
    }

    constructor (id: string, raw: string)
      ensures View() == NewFields(id, raw)
    {
      this.id, this.raw := id, raw;
      effect, action, resource := None, None, None;
      whenRoles, whereSubjects, whereGroups, unlessRoles := [], [], [], [];
    }

    method FinishPolicy() returns (r: Result<Policy, ParseError>)
      ensures r == Finish(View())
    {
      if effect.None? { return Err(MissingEffect(id)); }
      if action.None? { return Err(MissingAction(id)); }
      if resource.None? { return Err(MissingResource(id)); }
      return Ok(Policy(id, effect.value, action.value, resource.value,
                       whenRoles, whereSubjects, unlessRoles, whereGroups, raw));
    }

    method AppendRaw(line: string)
      modifies this`raw
      ensures raw == old(raw) + "\n" + line
    {
      raw := raw + "\n" + line;
    }

    method ParseWhen(arg: string, loc: nat) returns (err: Option<ParseError>)
      modifies this`whenRoles
      ensures Reports(old(View()), WhenClause(arg, loc), err)
    {
      var rest := Trim(arg);
      if "role ==" <= rest {
        whenRoles := whenRoles + [Trim(rest[7..])];
        return None;
      }
      if "role in " <= rest {
        whenRoles := whenRoles + ParseList(rest[8..]);
        return None;
      }
      return Some(UnsupportedWhen(loc, rest));
    }

    method ParseActionResource(arg: string, loc: nat) returns (err: Option<ParseError>)
      requires effect.Some?
      modifies this`action, this`resource
      ensures Reports(old(View()), HeadClause(effect.value, arg, loc), err)
    {
      var parts := Words(arg);
      if |parts| < 2 {
        return Some(ExpectedActionResource(loc));
      }
      action := Some(Upper(parts[0]));
      resource := Some(Upper(parts[1]));
      return None;
    }

    method ParseWhere(arg: string, loc: nat) returns (err: Option<ParseError>)
      modifies this`whereSubjects, this`whereGroups
      ensures Reports(old(View()), WhereClause(arg, loc), err)
    {
      var rest := Trim(arg);
      if rest == "subject == SELF" || rest == "subject==SELF" {
        whereSubjects := whereSubjects + ["SELF"];
        return None;
      }
      if "subject in " <= rest {
        var name := Trim(rest[11..]);
        if name == "DIRECT_REPORTS" {
          whereSubjects := whereSubjects + ["DIRECT_REPORTS"];
        } else if EndsWith(name, "_GROUP") || name == "EXECUTIVE_GROUP" || HasSub(name, "GROUP") {
          whereGroups := whereGroups + [TrimEndStr(name, "_GROUP")];
        } else {
          whereGroups := whereGroups + [name];
        }
        return None;
      }
      if "subject == " <= rest {
        whereSubjects := whereSubjects + [Trim(rest[11..])];
        return None;
      }
      return Some(UnsupportedWhere(loc, rest));
    }

    method ParseUnless(arg: string, loc: nat) returns (err: Option<ParseError>)
      modifies this`unlessRoles
      ensures Reports(old(View()), UnlessClause(arg, loc), err)
    {
      var rest := Trim(arg);
      if "role ==" <= rest {
        unlessRoles := unlessRoles + [Trim(rest[7..])];
        return None;
      }
      if "role in " <= rest {
        unlessRoles := unlessRoles + ParseList(rest[8..]);
        return None;
      }
      return Some(UnsupportedUnless(loc, rest));
    }

    /** The line was reported malformed and changed nothing, or the clause it holds was added to the policy. */
    ghost predicate Reports(before: Fields, c: Clause, err: Option<ParseError>)
      reads this
    {
      if c.Malformed? then err == Some(c.error) && View() == before else err == None && View() == Extend(before, c)
    }

    /** An effect keyword takes effect even when the rest of its line is malformed. */
    method ParseStatement(line: string, loc: nat) returns (err: Option<ParseError>)
      modifies this
      ensures Reports(AfterKeyword(old(View()), line), ClauseOf(line, loc), err)
    {
      hide WhenClause, WhereClause, UnlessClause, HeadClause;
      FirstWords(line);
      if "when " <= line {
        err := ParseWhen(line[5..], loc);
      } else if "allow " <= line {
        effect := Some(Allow);
        err := ParseActionResource(line[6..], loc);
      } else if "deny " <= line {
        effect := Some(Deny);
        err := ParseActionResource(line[5..], loc);
      } else if "review " <= line {
        effect := Some(Review);
        err := ParseActionResource(line[7..], loc);
      } else if "where " <= line {
        err := ParseWhere(line[6..], loc);
      } else if "or " <= line {
        err := ParseWhere(line[3..], loc);
      } else if "unless " <= line {
        err := ParseUnless(line[7..], loc);
      } else {
        err := Some(UnknownStatement(loc, line));
      }
    }
  }

  method ParseDsl(input: string) returns (r: Result<seq<Policy>, ParseError>)
    ensures r == Parse(input)
  {
    var policies: seq<Policy> := [];
    var current: Partial? := null;
    var lines := Lines(input);
    ghost var st := INITIAL;

    for lineno := 0 to |lines|
      invariant current != null ==> fresh(current)
      invariant st == State(if current == null then None else Some(current.View()), policies)
      invariant Run(lines, 1, INITIAL) == Run(lines[lineno..], lineno + 1, st)
    {
      var rawLine := lines[lineno];
      var line := Effective(rawLine);
      var loc := lineno + 1;
      assert lines[lineno..][0] == rawLine && lines[lineno..][1..] == lines[lineno + 1..];
      if line == "" {
        continue;
      }
      if "policy " <= line {
        if current != null {
          var finished := current.FinishPolicy();
          if finished.Err? {
            return Err(finished.error);
          }
          policies := policies + [finished.value];
        }
        var id := ParseName(line[7..]);
        if id.None? {
          return Err(ExpectedName(loc));
        }
        current := new Partial(id.value, rawLine);
        st := State(Some(current.View()), policies);
        continue;
      }
      if current == null {
        return Err(OutsidePolicy(loc));
      }
      current.AppendRaw(rawLine);
      ghost var before := current.View();
      var err := current.ParseStatement(line, loc);
      if err.Some? {
        return Err(err.value);
      }
      KeywordSetsEffect(before, line, loc);
      st := State(Some(current.View()), policies);
    }
    assert lines[|lines|..] == [];

    if current != null {
      var finished := current.FinishPolicy();
      if finished.Err? {
        return Err(finished.error);
      }
      policies := policies + [finished.value];
    }
    return Ok(policies);
  }

  // ----- the name error can never be reported -----

  lemma {:induction false} NameAlwaysFound(raw: string)
    requires "policy " <= Effective(raw)
    ensures ParseName(Effective(raw)[7..]).Some?
  {
    var line := Effective(raw);
    var rest := line[7..];
    assert line[6] == ' ' && line[|line| - 1] != ' ';
    assert rest[|rest| - 1] == line[|line| - 1];
    TrimStartKeepsEnd(rest);
  }

  lemma TrimStartKeepsEnd(s: string)
    requires s != "" && !IsSpace(s[|s| - 1])
    ensures Trim(s) != ""
  {
    if IsSpace(s[0]) {
      TrimStartKeepsEnd(s[1..]);
    }
  }

  // ----- what the parser ignores -----

  function Unraw(f: Fields): Fields { f.(raw := "") }

  function UnrawPolicy(p: Policy): Policy { p.(raw := "") }

  function UnrawAll(ps: seq<Policy>): (r: seq<Policy>)
    ensures |r| == |ps| && forall i | 0 <= i < |ps| :: r[i] == UnrawPolicy(ps[i])
  {
    seq(|ps|, i requires 0 <= i < |ps| => UnrawPolicy(ps[i]))
  }

  function UnrawState(st: State): State {
    State(if st.current.None? then None else Some(Unraw(st.current.value)), UnrawAll(st.policies))
  }

  function UnrawRun(r: Result<State, ParseError>): Result<State, ParseError> {
    match r case Ok(st) => Ok(UnrawState(st)) case Err(e) => Err(e)
  }

  function UnrawResult(r: Result<seq<Policy>, ParseError>): Result<seq<Policy>, ParseError> {
    match r case Ok(ps) => Ok(UnrawAll(ps)) case Err(e) => Err(e)
  }

  lemma FlushUnraw(st: State)
    ensures Flush(UnrawState(st)) == UnrawResult(Flush(st))
  {
    if Flush(st).Ok? {
      assert Flush(UnrawState(st)).Ok?;
      assert Flush(UnrawState(st)).value == UnrawAll(Flush(st).value);
    }
  }

  lemma StepUnraw(st1: State, raw1: string, st2: State, raw2: string, loc: nat)
    requires UnrawState(st1) == UnrawState(st2)
    requires Effective(raw1) == Effective(raw2)
    ensures UnrawRun(Step(st1, raw1, loc)) == UnrawRun(Step(st2, raw2, loc))
  {
    hide Effective, ClauseOf, ParseName;
    FlushUnraw(st1);
    FlushUnraw(st2);
  }

  /** Up to `raw`, the outcome depends only on the effective lines. */
  lemma {:induction false} RunDependsOnEffective(lines1: seq<string>, st1: State, lines2: seq<string>, st2: State, loc: nat)
    requires UnrawState(st1) == UnrawState(st2)
    requires |lines1| == |lines2|
    requires forall i | 0 <= i < |lines1| :: Effective(lines1[i]) == Effective(lines2[i])
    ensures UnrawRun(Run(lines1, loc, st1)) == UnrawRun(Run(lines2, loc, st2))
  {
    if lines1 != [] {
      StepUnraw(st1, lines1[0], st2, lines2[0], loc);
      var s1, s2 := Step(st1, lines1[0], loc), Step(st2, lines2[0], loc);
      if s1.Ok? && s2.Ok? {
        RunDependsOnEffective(lines1[1..], s1.value, lines2[1..], s2.value, loc + 1);
      }
    }
  }

  lemma {:induction false} RunAppend(a: seq<string>, b: seq<string>, loc: nat, st: State)
    ensures Run(a + b, loc, st)
         == match Run(a, loc, st) case Ok(mid) => Run(b, loc + |a|, mid) case Err(e) => Err(e)
  {
    hide Step;
    if a == [] {
      assert a + b == b;
    } else {
      assert (a + b)[1..] == a[1..] + b;
      var s := Step(st, a[0], loc);
      if s.Ok? {
        RunAppend(a[1..], b, loc + 1, s.value);
      }
    }
  }

  // ----- compositionality -----

  /** The first effective line, if there is one, opens a policy. */
  predicate OpensPolicy(lines: seq<string>) {
    lines == [] ||
    var line := Effective(lines[0]);
    if line == "" then OpensPolicy(lines[1..]) else "policy " <= line
  }

  /** Policies already closed, and the line numbering, only shift the outcome. */
  lemma {:induction false} ParseShift(lines: seq<string>, loc1: nat, loc2: nat, cur: Option<Fields>, ps: seq<Policy>, qs: seq<Policy>)
    ensures var r1 := ParseFrom(lines, loc1, State(cur, ps + qs));
            var r2 := ParseFrom(lines, loc2, State(cur, qs));
            && (r1.Ok? <==> r2.Ok?)
            && (r2.Ok? ==> r1.value == ps + r2.value)
    decreases |lines|
  {
    hide Effective, ClauseOf, ParseName;
    var st1, st2 := State(cur, ps + qs), State(cur, qs);
    if lines == [] {
    } else {
      ClauseIgnoresLine(Effective(lines[0]), loc1, loc2);
      var s1, s2 := Step(st1, lines[0], loc1), Step(st2, lines[0], loc2);
      assert s1.Ok? <==> s2.Ok?;
      if s1.Ok? {
        var next := s2.value.policies;
        assert s1.value.policies == ps + next;
        ParseShift(lines[1..], loc1 + 1, loc2 + 1, s2.value.current, ps, next);
        assert s1.value == State(s2.value.current, ps + next);
      }
    }
  }

  /** Line numbers occur in errors only. */
  lemma ClauseIgnoresLine(line: string, loc1: nat, loc2: nat)
    ensures ClauseOf(line, loc1).Malformed? <==> ClauseOf(line, loc2).Malformed?
    ensures !ClauseOf(line, loc1).Malformed? ==> ClauseOf(line, loc1) == ClauseOf(line, loc2)
  {}

  lemma {:induction false} ParseFromScratch(lines: seq<string>, loc1: nat, loc2: nat, st: State)
    requires OpensPolicy(lines)
    ensures var r := ParseFrom(lines, loc1, st);
            var r0 := ParseFrom(lines, loc2, INITIAL);
            && (r.Ok? <==> Flush(st).Ok? && r0.Ok?)
            && (r.Ok? ==> r.value == Flush(st).value + r0.value)
    decreases |lines|
  {
    if lines == [] {
    } else if Effective(lines[0]) == "" {
      ParseFromScratch(lines[1..], loc1 + 1, loc2 + 1, st);
    } else if Flush(st).Ok? {
      NameAlwaysFound(lines[0]);
      var fields := NewFields(ParseName(Effective(lines[0])[7..]).value, lines[0]);
      var done := Flush(st).value;
      ParseShift(lines[1..], loc1 + 1, loc2 + 1, Some(fields), done, []);
      assert done + [] == done;
    }
  }

  /** The text up to its last line break, and what follows it. */
  lemma LastBreak(a: string) returns (body: string, last: string)
    ensures a == body + last && '\n' !in last && (body == "" || body[|body| - 1] == '\n')
    decreases a
  {
    if a == "" || a[|a| - 1] == '\n' {
      body, last := a, "";
    } else {
      body, last := LastBreak(a[..|a| - 1]);
      last := last + [a[|a| - 1]];
    }
  }

  /** Terminating the last line affects that line only. */
  lemma LinesTrailingBreak(a: string, body: string, last: string)
    requires a == body + last && '\n' !in last
    requires body == "" || body[|body| - 1] == '\n'
    ensures Lines(a) == Lines(body) + if last == "" then [] else [last]
    ensures Lines(a + "\n") == Lines(body) + [StripCr(last)]
  {
    LinesCons(last, "");
    assert last + "\n" + "" == last + "\n";
    if body == "" {
      assert a == last;
    } else {
      var c := body[..|body| - 1];
      assert body == c + "\n";
      LinesAppend(c, last);
      LinesAppend(c, last + "\n");
      Assoc(body, last, "\n");
    }
  }

  lemma EffectiveIgnoresCr(line: string)
    ensures Effective(StripCr(line)) == Effective(line)
  {
    var l := StripCr(line);
    if l != line {
      assert line == l + "\r";
      if '#' in l {
        var i := IndexOf(l, '#');
        IndexOfAt(l[..i], '#', l[i + 1..] + "\r");
        assert line == l[..i] + "#" + (l[i + 1..] + "\r");
        assert line[..i] == l[..i];
      } else {
        assert IndexOf(l, '#') == |l|;
        assert '#' !in line;
        assert IndexOf(line, '#') == |line|;
        assert StripComment(line) == l + "\r" && StripComment(l) == l;
        TrimAppendSpace(l, '\r');
      }
    }
  }

  lemma BlankLine(loc: nat, st: State)
    ensures Run([""], loc, st) == Ok(st)
  {
    assert Effective("") == "";
  }

  lemma UnrawParse(lines1: seq<string>, lines2: seq<string>)
    requires UnrawRun(Run(lines1, 1, INITIAL)) == UnrawRun(Run(lines2, 1, INITIAL))
    ensures UnrawResult(ParseFrom(lines1, 1, INITIAL)) == UnrawResult(ParseFrom(lines2, 1, INITIAL))
  {
    hide Run, Flush, UnrawState;
    var r1, r2 := Run(lines1, 1, INITIAL), Run(lines2, 1, INITIAL);
    if r1.Ok? && r2.Ok? {
      FlushUnraw(r1.value);
      FlushUnraw(r2.value);
    }
  }

  /** A line break at the end changes at most `raw`, and that only after a carriage return. */
  lemma {:induction false} ParseTrailingBreak(a: string)
    ensures UnrawResult(Parse(a + "\n")) == UnrawResult(Parse(a))
    ensures (a == "" || a[|a| - 1] != '\r') ==> Parse(a + "\n") == Parse(a)
  {
    hide Step, Effective, Flush, Lines;
    var body, last := LastBreak(a);
    LinesTrailingBreak(a, body, last);
    var l, l2 := Lines(a), Lines(a + "\n");
    if last == "" {
      assert l2 == l + [""];
      RunAppend(l, [""], 1, INITIAL);
      var mid := Run(l, 1, INITIAL);
      if mid.Ok? {
        BlankLine(1 + |l|, mid.value);
      }
    } else {
      EffectiveIgnoresCr(last);
      RunDependsOnEffective(l2, INITIAL, l, INITIAL, 1);
      UnrawParse(l2, l);
    }
  }

  lemma UnrawAppend(ps: seq<Policy>, qs: seq<Policy>)
    ensures UnrawAll(ps + qs) == UnrawAll(ps) + UnrawAll(qs)
  {}

  /** Parsing is compositional at every line that opens a policy. */
  lemma ParseLinesAppend(la: seq<string>, lb: seq<string>)
    requires OpensPolicy(lb)
    ensures var r := ParseLines(la + lb);
            && (r.Ok? <==> ParseLines(la).Ok? && ParseLines(lb).Ok?)
            && (r.Ok? ==> r.value == ParseLines(la).value + ParseLines(lb).value)
  {
    hide Step, Effective, Flush, OpensPolicy;
    RunAppend(la, lb, 1, INITIAL);
    var mid := Run(la, 1, INITIAL);
    if mid.Ok? {
      ParseFromScratch(lb, 1 + |la|, 1, mid.value);
    }
  }

  /**
   * Parsing is compositional: text that starts a new policy can be parsed on its own.
   */
  lemma {:induction false} ParseAppend(a: string, b: string)
    requires OpensPolicy(Lines(b))
    ensures var r := Parse(a + "\n" + b);
            && (r.Ok? <==> Parse(a).Ok? && Parse(b).Ok?)
            && (r.Ok? ==> UnrawAll(r.value) == UnrawAll(Parse(a).value + Parse(b).value))
            && (r.Ok? && (a == "" || a[|a| - 1] != '\r') ==> r.value == Parse(a).value + Parse(b).value)
  {
    hide Run, Flush, Lines, OpensPolicy;
    LinesAppend(a, b);
    ParseLinesAppend(Lines(a + "\n"), Lines(b));
    ParseTrailingBreak(a);
    if Parse(a).Ok? && Parse(b).Ok? {
      UnrawAppend(Parse(a + "\n").value, Parse(b).value);
      UnrawAppend(Parse(a).value, Parse(b).value);
    }
  }

  // ----- reading text whose lines are known -----

  /** The line is read as the clause `c`. */
  predicate Says(line: string, c: Clause) {
    var l := Effective(line);
    l != "" && !("policy " <= l) && !c.Malformed? && ClauseOf(l, 0) == c
  }

  /** The line opens the policy `id`. */
  predicate Opens(line: string, id: string) {
    var l := Effective(line);
    "policy " <= l && ParseName(l[7..]) == Some(id)
  }

  predicate IsBlank(line: string) {
    Effective(line) == ""
  }

  /** A policy as written: its first line, and then lines with what they say. */
  datatype Block = Block(opening: string, id: string, body: seq<(string, Clause)>)

  ghost predicate Readable(b: Block) {
    Opens(b.opening, b.id) && forall i | 0 <= i < |b.body| :: Says(b.body[i].0, b.body[i].1)
  }

  function BodyLines(body: seq<(string, Clause)>): seq<string> {
    if body == [] then [] else [body[0].0] + BodyLines(body[1..])
  }

  function BlockLines(b: Block): seq<string> {
    [b.opening] + BodyLines(b.body)
  }

  function ExtendAll(f: Fields, body: seq<(string, Clause)>): Fields
    decreases body
  {
    if body == [] then f
    else ExtendAll(Extend(f.(raw := f.raw + "\n" + body[0].0), body[0].1), body[1..])
  }

  lemma {:induction false} RunBody(body: seq<(string, Clause)>, loc: nat, f: Fields, ps: seq<Policy>)
    requires forall i | 0 <= i < |body| :: Says(body[i].0, body[i].1)
    ensures Run(BodyLines(body), loc, State(Some(f), ps)) == Ok(State(Some(ExtendAll(f, body)), ps))
  {
    hide Effective, ClauseOf;
    if body != [] {
      var line, c := body[0].0, body[0].1;
      ClauseIgnoresLine(Effective(line), 0, loc);
      RunBody(body[1..], loc + 1, Extend(f.(raw := f.raw + "\n" + line), c), ps);
      assert BodyLines(body)[1..] == BodyLines(body[1..]);
    }
  }

  lemma {:induction false} RunBlanks(lines: seq<string>, loc: nat, st: State)
    requires forall i | 0 <= i < |lines| :: IsBlank(lines[i])
    ensures Run(lines, loc, st) == Ok(st)
  {
    if lines != [] {
      RunBlanks(lines[1..], loc + 1, st);
    }
  }

  lemma OpenStep(line: string, id: string)
    requires Opens(line, id)
    ensures Step(INITIAL, line, 1) == Ok(State(Some(NewFields(id, line)), []))
    ensures Effective(line) != "" && "policy " <= Effective(line)
  {
    hide Effective, ParseName;
  }

  lemma RunCons(line: string, rest: seq<string>, loc: nat, st: State)
    ensures Run([line] + rest, loc, st)
         == match Step(st, line, loc) case Ok(next) => Run(rest, loc + 1, next) case Err(e) => Err(e)
  {
    hide Step;
    assert ([line] + rest)[1..] == rest;
  }

  lemma OpensPolicyCons(line: string, rest: seq<string>)
    requires Effective(line) != "" && "policy " <= Effective(line)
    ensures OpensPolicy([line] + rest)
  {
    hide Effective;
  }

  /** A block, with blank lines after it, parses to the one policy it spells out. */
  lemma {:induction false} ParseBlock(b: Block, blanks: seq<string>)
    requires Readable(b)
    requires forall i | 0 <= i < |blanks| :: IsBlank(blanks[i])
    ensures ParseLines(BlockLines(b) + blanks)
         == match Finish(ExtendAll(NewFields(b.id, b.opening), b.body)) case Ok(p) => Ok([p]) case Err(e) => Err(e)
    ensures OpensPolicy(BlockLines(b) + blanks)
  {
    hide Effective, Step, Run, Finish, Opens, Says, IsBlank, ExtendAll, OpensPolicy;
    var f := NewFields(b.id, b.opening);
    var body := BodyLines(b.body);
    OpenStep(b.opening, b.id);
    Assoc([b.opening], body, blanks);
    RunCons(b.opening, body + blanks, 1, INITIAL);
    OpensPolicyCons(b.opening, body + blanks);
    RunAppend(body, blanks, 2, State(Some(f), []));
    RunBody(b.body, 2, f, []);
    RunBlanks(blanks, 2 + |body|, State(Some(ExtendAll(f, b.body)), []));
    assert forall p: Policy :: [] + [p] == [p];
  }

  lemma EffectiveOfPlain(line: string)
    requires '#' !in line && IsTrimmed(line)
    ensures Effective(line) == line
  {}

  lemma CommentIsBlank(line: string)
    requires "#" <= line
    ensures IsBlank(line)
  {
    assert line[0] == '#';
    assert IndexOf(line, '#') == 0;
  }
}
