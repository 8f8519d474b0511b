/** Which policies the parser can return, and a canonical way to write each of them down. */
module DslPrint {
  import opened Text
  import opened Dsl

  // ----- the policies that have a text -----

  /** Neither a comment mark nor a line break. */
  predicate Clean(s: string) {
    '#' !in s && '\n' !in s
  }

  predicate WellFormedWord(w: string) {
    Clean(w) && w != "" && NoSpace(w) && Upper(w) == w
  }

  predicate WellFormedRole(r: string) {
    Clean(r) && IsTrimmed(r)
  }

  predicate WellFormedSubject(s: string) {
    Clean(s) && IsTrimmed(s) && s != ""
  }

  predicate WellFormedGroup(g: string) {
    Clean(g) && (g != "" ==> !IsSpace(g[0])) && !EndsWith(g, "_GROUP")
  }

  predicate WellFormed(p: Policy) {
    && Clean(p.id)
    && WellFormedWord(p.action) && WellFormedWord(p.resource)
    && (forall r | r in p.whenRoles :: WellFormedRole(r))
    && (forall s | s in p.whereSubjects :: WellFormedSubject(s))
    && (forall g | g in p.whereGroups :: WellFormedGroup(g))
    && (forall r | r in p.unlessRoles :: WellFormedRole(r))
  }

  predicate AllWellFormed(ps: seq<Policy>) {
    forall p | p in ps :: WellFormed(p)
  }

  // ----- every policy the parser returns is well formed -----

  predicate FieldsWellFormed(f: Fields) {
    && Clean(f.id)
    && (f.action.Some? ==> WellFormedWord(f.action.value))
    && (f.resource.Some? ==> WellFormedWord(f.resource.value))
    && (forall r | r in f.whenRoles :: WellFormedRole(r))
    && (forall s | s in f.whereSubjects :: WellFormedSubject(s))
    && (forall g | g in f.whereGroups :: WellFormedGroup(g))
    && (forall r | r in f.unlessRoles :: WellFormedRole(r))
  }

  predicate ClauseWellFormed(c: Clause) {
    match c
    case WhenRoles(rs) => forall r | r in rs :: WellFormedRole(r)
    case Head(_, a, r) => WellFormedWord(a) && WellFormedWord(r)
    case Subject(s) => WellFormedSubject(s)
    case Group(g) => WellFormedGroup(g)
    case UnlessRoles(rs) => forall r | r in rs :: WellFormedRole(r)
    case Malformed(_) => true
  }

  predicate StateWellFormed(st: State) {
    AllWellFormed(st.policies) && (st.current.Some? ==> FieldsWellFormed(st.current.value))
  }

  lemma EffectiveIsClean(raw: string)
    requires '\n' !in raw
    ensures Clean(Effective(raw)) && IsTrimmed(Effective(raw))
  {
    TrimKeepsChars(StripComment(raw));
    assert '#' !in StripComment(raw);
  }

  lemma TrimIsClean(s: string)
    requires Clean(s)
    ensures Clean(Trim(s))
  {
    TrimKeepsChars(s);
  }

  lemma WordIsWellFormed(s: string, i: nat)
    requires Clean(s) && i < |Words(s)|
    ensures WellFormedWord(Upper(Words(s)[i]))
  {
    WordsAreWords(s);
    var w := Words(s)[i];
    assert w in Words(s);
    UpperKeepsNonLetters(w, '#');
    UpperKeepsNonLetters(w, '\n');
    UpperKeepsSpaces(w);
    UpperIdempotent(w);
  }

  lemma NameIsClean(s: string)
    requires Clean(s) && ParseName(s).Some?
    ensures Clean(ParseName(s).value)
  {
    TrimIsClean(s);
    WordsAreWords(Trim(s));
  }

  lemma SplitKeepsClean(s: string, c: char)
    requires Clean(s)
    ensures forall x | x in SplitOn(s, c) :: Clean(x)
    decreases |s|
  {
    var i := IndexOf(s, c);
    if i < |s| {
      SplitKeepsClean(s[i + 1..], c);
    }
  }

  lemma NonEmptyTrimmedRoles(items: seq<string>)
    requires forall x | x in items :: Clean(x)
    ensures forall x | x in NonEmptyTrimmed(items) :: WellFormedRole(x)
  {
    if items != [] {
      assert items[0] in items;
      TrimIsClean(items[0]);
      assert forall x | x in items[1..] :: x in items;
      NonEmptyTrimmedRoles(items[1..]);
    }
  }

  lemma {:induction false} TrimCharKeepsClean(s: string, c: char)
    requires Clean(s)
    ensures Clean(TrimStartChar(s, c)) && Clean(TrimEndChar(s, c))
    decreases s
  {
    if s != "" {
      TrimCharKeepsClean(s[1..], c);
      TrimCharKeepsClean(s[..|s| - 1], c);
    }
  }

  lemma RoleArgumentWellFormed(rest: string)
    requires Clean(rest) && RoleArgument(rest).Some?
    ensures forall r | r in RoleArgument(rest).value :: WellFormedRole(r)
  {
    if "role ==" <= rest {
      TrimIsClean(rest[7..]);
    } else {
      var t := Trim(rest[8..]);
      TrimIsClean(rest[8..]);
      TrimCharKeepsClean(t, '[');
      TrimCharKeepsClean(TrimStartChar(t, '['), ']');
      var items := SplitOn(TrimEndChar(TrimStartChar(t, '['), ']'), ',');
      SplitKeepsClean(TrimEndChar(TrimStartChar(t, '['), ']'), ',');
      NonEmptyTrimmedRoles(items);
    }
  }

  lemma GroupNameWellFormed(name: string)
    requires Clean(name) && IsTrimmed(name)
    ensures WellFormedGroup(GroupName(name))
  {
    hide HasSub;
    assert TrimEndStr(name, "_GROUP") <= name;
  }

  lemma WhereWellFormed(arg: string, loc: nat)
    requires Clean(arg)
    ensures ClauseWellFormed(WhereClause(arg, loc))
  {
    hide GroupName;
    var rest := Trim(arg);
    TrimIsClean(arg);
    if rest == "subject == SELF" || rest == "subject==SELF" {
    } else if "subject in " <= rest {
      TrimIsClean(rest[11..]);
      GroupNameWellFormed(Trim(rest[11..]));
    } else if "subject == " <= rest {
      TrimIsClean(rest[11..]);
      assert rest[10] == ' ' && rest[|rest| - 1] != ' ';
      assert rest[11..] != "" && rest[11..][|rest| - 12] == rest[|rest| - 1];
      TrimStartKeepsEnd(rest[11..]);
    }
  }

  lemma ClauseOfWellFormed(line: string, loc: nat)
    requires Clean(line)
    ensures ClauseWellFormed(ClauseOf(line, loc))
  {
    hide RoleArgument, WhereClause, Words;
    if "when " <= line {
      TrimIsClean(line[5..]);
      if RoleArgument(Trim(line[5..])).Some? { RoleArgumentWellFormed(Trim(line[5..])); }
    } else if "allow " <= line {
      if |Words(line[6..])| >= 2 { WordIsWellFormed(line[6..], 0); WordIsWellFormed(line[6..], 1); }
    } else if "deny " <= line {
      if |Words(line[5..])| >= 2 { WordIsWellFormed(line[5..], 0); WordIsWellFormed(line[5..], 1); }
    } else if "review " <= line {
      if |Words(line[7..])| >= 2 { WordIsWellFormed(line[7..], 0); WordIsWellFormed(line[7..], 1); }
    } else if "where " <= line {
      WhereWellFormed(line[6..], loc);
    } else if "or " <= line {
      WhereWellFormed(line[3..], loc);
    } else if "unless " <= line {
      TrimIsClean(line[7..]);
      if RoleArgument(Trim(line[7..])).Some? { RoleArgumentWellFormed(Trim(line[7..])); }
    }
  }

  lemma StepWellFormed(st: State, raw: string, loc: nat)
    requires StateWellFormed(st) && '\n' !in raw && Step(st, raw, loc).Ok?
    ensures StateWellFormed(Step(st, raw, loc).value)
  {
    hide Effective, ClauseOf, ParseName, Clean, WellFormedWord, WellFormedRole, WellFormedSubject, WellFormedGroup;
    var line := Effective(raw);
    EffectiveIsClean(raw);
    if line == "" {
    } else if "policy " <= line {
      SliceIsClean(line, 7);
      if ParseName(line[7..]).Some? { NameIsClean(line[7..]); }
    } else {
      ClauseOfWellFormed(line, loc);
    }
  }

  lemma SliceIsClean(s: string, k: nat)
    requires Clean(s) && k <= |s|
    ensures Clean(s[k..])
  {}

  lemma {:induction false} RunWellFormed(lines: seq<string>, loc: nat, st: State)
    requires StateWellFormed(st) && Run(lines, loc, st).Ok?
    requires forall l | l in lines :: '\n' !in l
    ensures StateWellFormed(Run(lines, loc, st).value)
  {
    hide Step, StateWellFormed;
    if lines != [] {
      assert lines[0] in lines;
      StepWellFormed(st, lines[0], loc);
      RunWellFormed(lines[1..], loc + 1, Step(st, lines[0], loc).value);
    }
  }

  /** Soundness of the parser: it returns well-formed policies only. */
  lemma {:induction false} ParseWellFormed(input: string)
    requires Parse(input).Ok?
    ensures AllWellFormed(Parse(input).value)
  {
    hide Step, Lines, Clean, WellFormedWord, WellFormedRole, WellFormedSubject, WellFormedGroup;
    LinesHaveNoBreak(input);
    RunWellFormed(Lines(input), 1, INITIAL);
  }

  // ----- the canonical text of a policy -----

  function Keyword(e: Effect): string {
    match e case Allow => "allow" case Deny => "deny" case Review => "review"
  }

  /** The first condition on the subject starts with `where`, and the others with `or`. */
  function Lead(first: bool): string {
    if first then "where " else "or "
  }

  function SubjectArg(s: string): string {
    if s == "DIRECT_REPORTS" then "subject in " + s else "subject == " + s
  }

  function SubjectLine(first: bool, s: string): string {
    Lead(first) + SubjectArg(s)
  }

  function WhenLine(role: string): string { "when role == " + role }

  function UnlessLine(role: string): string { "unless role == " + role }

  function WhenBody(roles: seq<string>): seq<(string, Clause)> {
    if roles == [] then [] else [(WhenLine(roles[0]), WhenRoles([roles[0]]))] + WhenBody(roles[1..])
  }

  function SubjectBody(first: bool, subjects: seq<string>): seq<(string, Clause)>
    decreases subjects
  {
    if subjects == [] then []
    else [(SubjectLine(first, subjects[0]), Subject(subjects[0]))] + SubjectBody(false, subjects[1..])
  }

  function GroupLine(first: bool, g: string): string {
    Lead(first) + ("subject in " + (g + "_GROUP"))
  }

  function GroupBody(first: bool, groups: seq<string>): seq<(string, Clause)>
    decreases groups
  {
    if groups == [] then []
    else [(GroupLine(first, groups[0]), Group(groups[0]))] + GroupBody(false, groups[1..])
  }

  function UnlessBody(roles: seq<string>): seq<(string, Clause)> {
    if roles == [] then [] else [(UnlessLine(roles[0]), UnlessRoles([roles[0]]))] + UnlessBody(roles[1..])
  }

  function HeadLine(e: Effect, action: string, resource: string): string {
    Keyword(e) + " " + action + " " + resource
  }

  function OpeningLine(id: string): string {
    "policy " + ("\"" + id + "\"")
  }

  function PolicyBody(p: Policy): seq<(string, Clause)> {
    WhenBody(p.whenRoles)
    + [(HeadLine(p.effect, p.action, p.resource), Head(p.effect, p.action, p.resource))]
    + SubjectBody(true, p.whereSubjects) + GroupBody(p.whereSubjects == [], p.whereGroups) + UnlessBody(p.unlessRoles)
  }

  function PolicyBlock(p: Policy): Block {
    Block(OpeningLine(p.id), p.id, PolicyBody(p))
  }

  function PrintLines(ps: seq<Policy>): seq<string> {
    if ps == [] then [] else BlockLines(PolicyBlock(ps[0])) + PrintLines(ps[1..])
  }

  function Unlines(lines: seq<string>): string {
    if lines == [] then "" else lines[0] + "\n" + Unlines(lines[1..])
  }

  function Print(ps: seq<Policy>): string {
    Unlines(PrintLines(ps))
  }

  // ----- what each canonical line says -----

  lemma TrimLeadingSpace(s: string)
    requires IsTrimmed(s)
    ensures Trim(" " + s) == s
  {
    assert (" " + s)[1..] == s;
    assert TrimStart(" " + s) == TrimStart(s) == s;
  }

  /** The line survives comment stripping and trimming up to a trailing blank. */
  lemma EffectiveOfPrefixed(prefix: string, s: string)
    requires Clean(prefix) && Clean(s) && IsTrimmed(s)
    requires prefix != "" && !IsSpace(prefix[0])
    requires |prefix| >= 2 && prefix[|prefix| - 1] == ' ' && !IsSpace(prefix[|prefix| - 2])
    ensures Effective(prefix + s) == if s == "" then prefix[..|prefix| - 1] else prefix + s
  {
    var line := prefix + s;
    assert '#' !in line;
    assert StripComment(line) == line;
    if s == "" {
      var p := prefix[..|prefix| - 1];
      assert line == p + " ";
      TrimAppendSpace(p, ' ');
    } else {
      assert line[|line| - 1] == s[|s| - 1];
    }
  }

  /** `lines` gives the line back as it is. */
  predicate Printable(line: string) {
    '\n' !in line && StripCr(line) == line
  }

  lemma LinePrintable(prefix: string, s: string)
    requires Clean(prefix) && prefix != "" && prefix[|prefix| - 1] == ' '
    requires Clean(s) && IsTrimmed(s)
    ensures Printable(prefix + s)
  {
    var line := prefix + s;
    assert line[|line| - 1] == if s == "" then ' ' else s[|s| - 1];
  }

  // Which keyword a line starts with decides how it is read.

  lemma WhenKeyword(rest: string, loc: nat)
    ensures ClauseOf("when " + rest, loc) == WhenClause(rest, loc) && !("policy " <= "when " + rest)
  {
    hide WhenClause;
    assert ("when " + rest)[0] == 'w' && ("when " + rest)[5..] == rest;
  }

  lemma UnlessKeyword(rest: string, loc: nat)
    ensures ClauseOf("unless " + rest, loc) == UnlessClause(rest, loc) && !("policy " <= "unless " + rest)
  {
    hide UnlessClause;
    assert ("unless " + rest)[0] == 'u' && ("unless " + rest)[7..] == rest;
  }

  lemma WhereKeyword(first: bool, rest: string, loc: nat)
    ensures ClauseOf(Lead(first) + rest, loc) == WhereClause(rest, loc) && !("policy " <= Lead(first) + rest)
  {
    hide WhereClause;
    var line := Lead(first) + rest;
    if first {
      assert line[0] == 'w' && line[2] == 'e' && line[3] == 'r' && line[6..] == rest;
    } else {
      assert line[0] == 'o' && line[3..] == rest;
    }
  }

  lemma HeadKeyword(e: Effect, rest: string, loc: nat)
    ensures var line := Keyword(e) + " " + rest;
            ClauseOf(line, loc) == HeadClause(e, rest, loc) && !("policy " <= line)
  {
    hide HeadClause;
    var line := Keyword(e) + " " + rest;
    match e
    case Allow => assert line[0] == 'a' && line[6..] == rest;
    case Deny => assert line[0] == 'd' && line[5..] == rest;
    case Review => assert line[0] == 'r' && line[7..] == rest;
  }

  lemma RoleArgumentReads(r: string)
    requires IsTrimmed(r)
    ensures RoleArgument(if r == "" then "role ==" else "role ==" + (" " + r)) == Some([r])
  {
    hide ParseList;
    if r == "" {
      assert "role =="[7..] == "" && Trim("") == "";
    } else {
      var rest := "role ==" + (" " + r);
      assert "role ==" <= rest && rest[7..] == " " + r;
      TrimLeadingSpace(r);
    }
  }

  /** How a role line looks once it is stripped. */
  lemma RoleLineEffective(keyword: string, r: string)
    requires Clean(keyword) && keyword != "" && !IsSpace(keyword[0])
    requires WellFormedRole(r)
    ensures var rest := if r == "" then "role ==" else "role ==" + (" " + r);
            Effective(keyword + "role == " + r) == keyword + rest
  {
    var prefix := keyword + "role == ";
    assert prefix[|prefix| - 1] == ' ' && prefix[|prefix| - 2] == '=';
    EffectiveOfPrefixed(prefix, r);
    assert "role == " == "role ==" + " ";
    assert prefix == keyword + "role ==" + " ";
    if r == "" {
      assert prefix[..|prefix| - 1] == keyword + "role ==";
    } else {
      Assoc(keyword + "role ==", " ", r);
      Assoc(keyword, "role ==", " " + r);
    }
  }

  lemma RoleArgumentTrimmed(r: string)
    requires IsTrimmed(r)
    ensures var rest := if r == "" then "role ==" else "role ==" + (" " + r); Trim(rest) == rest
  {
    if r != "" {
      var rest := "role ==" + (" " + r);
      assert rest[0] == 'r' && rest[|rest| - 1] == r[|r| - 1];
    }
  }

  lemma WhenLineSays(r: string)
    requires WellFormedRole(r)
    ensures Says(WhenLine(r), WhenRoles([r])) && Printable(WhenLine(r))
  {
    hide Effective, ClauseOf, RoleArgument;
    LinePrintable("when role == ", r);
    assert "when " + "role == " + r == "when role == " + r;
    RoleLineEffective("when ", r);
    RoleArgumentReads(r);
    RoleArgumentTrimmed(r);
    WhenKeyword(if r == "" then "role ==" else "role ==" + (" " + r), 0);
  }

  lemma UnlessLineSays(r: string)
    requires WellFormedRole(r)
    ensures Says(UnlessLine(r), UnlessRoles([r])) && Printable(UnlessLine(r))
  {
    hide Effective, ClauseOf, RoleArgument;
    LinePrintable("unless role == ", r);
    assert "unless " + "role == " + r == "unless role == " + r;
    RoleLineEffective("unless ", r);
    RoleArgumentReads(r);
    RoleArgumentTrimmed(r);
    UnlessKeyword(if r == "" then "role ==" else "role ==" + (" " + r), 0);
  }

  lemma SelfArgument()
    ensures "subject == SELF" == "subject == " + "SELF" && "subject == SELF"[11..] == "SELF" && Trim("SELF") == "SELF"
    ensures !("subject in " <= "subject == SELF") && !("subject in " <= "subject==SELF") && !("subject == " <= "subject==SELF")
  {
    assert "subject == SELF"[8] == '=' && "subject==SELF"[8] == '=' && "subject==SELF"[7] == '=';
  }

  lemma SubjectIdReads(s: string)
    requires WellFormedSubject(s)
    ensures WhereClause("subject == " + s, 0) == Subject(s)
  {
    hide GroupName;
    var rest := "subject == " + s;
    assert rest[0] == 's' && rest[|rest| - 1] == s[|s| - 1];
    assert Trim(rest) == rest;
    assert rest[7] == ' ' && rest[8] == '=' && rest[11..] == s;
    assert "subject == SELF"[11..] == "SELF";
  }

  lemma SubjectInReads(name: string)
    requires name != "" && IsTrimmed(name)
    ensures WhereClause("subject in " + name, 0)
         == if name == "DIRECT_REPORTS" then Subject(name) else Group(GroupName(name))
  {
    hide GroupName, Trim;
    var rest := "subject in " + name;
    SelfArgument();
    assert "subject in " <= rest && rest[11..] == name && Trim(name) == name;
    assert Trim(rest) == rest by { assert rest[0] == 's' && rest[|rest| - 1] == name[|name| - 1]; }
  }

  lemma GroupReads(g: string)
    requires WellFormedGroup(g)
    ensures WhereClause("subject in " + (g + "_GROUP"), 0) == Group(g)
  {
    hide WhereClause, GroupName;
    var name := g + "_GROUP";
    assert name[|name| - 1] == 'P' && name[0] == if g == "" then '_' else g[0];
    SubjectInReads(name);
    GroupNameOf(g);
  }

  lemma GroupNameOf(g: string)
    requires WellFormedGroup(g)
    ensures GroupName(g + "_GROUP") == g && g + "_GROUP" != "DIRECT_REPORTS"
  {
    hide HasSub;
    var name := g + "_GROUP";
    assert name[|name| - 1] == 'P';
    assert name[|g|..] == "_GROUP" && name[..|g|] == g;
    assert EndsWith(name, "_GROUP");
    assert TrimEndStr(name, "_GROUP") == TrimEndStr(g, "_GROUP") == g;
  }

  /** A `where` or `or` line that needs no stripping says what its argument reads as. */
  lemma WhereLineSays(first: bool, rest: string, c: Clause)
    requires Clean(rest) && rest != "" && IsTrimmed(rest)
    requires WhereClause(rest, 0) == c && !c.Malformed?
    ensures Says(Lead(first) + rest, c) && Printable(Lead(first) + rest)
  {
    hide ClauseOf, WhereClause;
    LinePrintable(Lead(first), rest);
    EffectiveOfPrefixed(Lead(first), rest);
    WhereKeyword(first, rest, 0);
  }

  lemma DirectReportsClean()
    ensures IsTrimmed("DIRECT_REPORTS") && "DIRECT_REPORTS" != ""
    ensures var rest := "subject in " + "DIRECT_REPORTS"; Clean(rest) && rest != "" && IsTrimmed(rest)
  {
    var rest := "subject in " + "DIRECT_REPORTS";
    assert rest[0] == 's' && rest[|rest| - 1] == 'S';
  }

  lemma SubjectArgClean(s: string)
    requires WellFormedSubject(s) && s != "DIRECT_REPORTS"
    ensures var rest := "subject == " + s; Clean(rest) && rest != "" && IsTrimmed(rest)
  {
    var rest := "subject == " + s;
    assert rest[0] == 's' && rest[|rest| - 1] == s[|s| - 1];
  }

  lemma SubjectLineSays(first: bool, s: string)
    requires WellFormedSubject(s)
    ensures Says(SubjectLine(first, s), Subject(s)) && Printable(SubjectLine(first, s))
  {
    hide Says, Printable, WellFormedSubject, WhereClause, Lead, Clean, IsTrimmed;
    if s == "DIRECT_REPORTS" {
      DirectReportsClean();
      SubjectInReads(s);
    } else {
      SubjectArgClean(s);
      SubjectIdReads(s);
    }
    WhereLineSays(first, SubjectArg(s), Subject(s));
  }

  lemma GroupLineSays(first: bool, g: string)
    requires WellFormedGroup(g)
    ensures Says(GroupLine(first, g), Group(g)) && Printable(GroupLine(first, g))
  {
    hide Says, Printable, WhereClause, Lead;
    GroupReads(g);
    var rest := "subject in " + (g + "_GROUP");
    assert rest[0] == 's' && rest[|rest| - 1] == 'P';
    WhereLineSays(first, rest, Group(g));
  }

  lemma KeywordIsClean(e: Effect)
    ensures Clean(Keyword(e)) && Keyword(e) != "" && !IsSpace(Keyword(e)[0])
  {}

  lemma HeadLineSays(e: Effect, action: string, resource: string)
    requires WellFormedWord(action) && WellFormedWord(resource)
    ensures Says(HeadLine(e, action, resource), Head(e, action, resource))
    ensures Printable(HeadLine(e, action, resource))
  {
    hide Words, ClauseOf, Keyword;
    var prefix := Keyword(e) + " " + action + " ";
    var arg := action + " " + resource;
    KeywordIsClean(e);
    LinePrintable(prefix, resource);
    EffectiveOfPrefixed(prefix, resource);
    assert Keyword(e) + " " + action + " " + resource == Keyword(e) + " " + arg;
    HeadKeyword(e, arg, 0);
    WordsTwo(action, resource);
  }

  lemma OpeningLineOpens(id: string)
    requires Clean(id)
    ensures Opens(OpeningLine(id), id) && Printable(OpeningLine(id))
  {
    hide ParseName;
    var line := OpeningLine(id);
    assert line[|line| - 1] == '"';
    EffectiveOfPlain(line);
    assert line[7..] == "\"" + id + "\"";
    QuotedNameReads(id);
  }

  lemma QuotedNameReads(id: string)
    requires Clean(id)
    ensures ParseName("\"" + id + "\"") == Some(id)
  {
    hide Words;
    var quoted := "\"" + id + "\"";
    assert quoted[1..|quoted| - 1] == id;
  }

  // ----- what the lines of one list build up -----

  lemma {:induction false} ExtendAllAppend(f: Fields, a: seq<(string, Clause)>, b: seq<(string, Clause)>)
    ensures ExtendAll(f, a + b) == ExtendAll(ExtendAll(f, a), b)
    decreases a
  {
    if a == [] {
      assert a + b == b;
    } else {
      assert (a + b)[1..] == a[1..] + b;
      ExtendAllAppend(Extend(f.(raw := f.raw + "\n" + a[0].0), a[0].1), a[1..], b);
    }
  }

  predicate AllSay(body: seq<(string, Clause)>) {
    forall i | 0 <= i < |body| :: Says(body[i].0, body[i].1) && Printable(body[i].0)
  }

  lemma {:induction false} WhenBodyBuilds(roles: seq<string>, f: Fields)
    requires forall r | r in roles :: WellFormedRole(r)
    ensures AllSay(WhenBody(roles))
    ensures Unraw(ExtendAll(f, WhenBody(roles))) == Unraw(f).(whenRoles := f.whenRoles + roles)
    decreases roles
  {
    hide Says, Printable, WhenLine, UnlessLine;
    if roles != [] {
      WhenLineSays(roles[0]);
      WhenBodyBuilds(roles[1..], Extend(f.(raw := f.raw + "\n" + WhenLine(roles[0])), WhenRoles([roles[0]])));
      assert f.whenRoles + [roles[0]] + roles[1..] == f.whenRoles + roles;
    }
  }

  lemma {:induction false} UnlessBodyBuilds(roles: seq<string>, f: Fields)
    requires forall r | r in roles :: WellFormedRole(r)
    ensures AllSay(UnlessBody(roles))
    ensures Unraw(ExtendAll(f, UnlessBody(roles))) == Unraw(f).(unlessRoles := f.unlessRoles + roles)
    decreases roles
  {
    hide Says, Printable, WhenLine, UnlessLine;
    if roles != [] {
      UnlessLineSays(roles[0]);
      UnlessBodyBuilds(roles[1..], Extend(f.(raw := f.raw + "\n" + UnlessLine(roles[0])), UnlessRoles([roles[0]])));
      assert f.unlessRoles + [roles[0]] + roles[1..] == f.unlessRoles + roles;
    }
  }

  lemma {:induction false} SubjectBodyBuilds(first: bool, subjects: seq<string>, f: Fields)
    requires forall s | s in subjects :: WellFormedSubject(s)
    ensures AllSay(SubjectBody(first, subjects))
    ensures Unraw(ExtendAll(f, SubjectBody(first, subjects))) == Unraw(f).(whereSubjects := f.whereSubjects + subjects)
    decreases subjects
  {
    hide Says, Printable, SubjectLine;
    if subjects != [] {
      var line := SubjectLine(first, subjects[0]);
      SubjectLineSays(first, subjects[0]);
      SubjectBodyBuilds(false, subjects[1..], Extend(f.(raw := f.raw + "\n" + line), Subject(subjects[0])));
      assert f.whereSubjects + [subjects[0]] + subjects[1..] == f.whereSubjects + subjects;
    }
  }

  lemma {:induction false} GroupBodyBuilds(first: bool, groups: seq<string>, f: Fields)
    requires forall g | g in groups :: WellFormedGroup(g)
    ensures AllSay(GroupBody(first, groups))
    ensures Unraw(ExtendAll(f, GroupBody(first, groups))) == Unraw(f).(whereGroups := f.whereGroups + groups)
    decreases groups
  {
    hide Says, Printable, GroupLine;
    if groups != [] {
      var line := GroupLine(first, groups[0]);
      GroupLineSays(first, groups[0]);
      GroupBodyBuilds(false, groups[1..], Extend(f.(raw := f.raw + "\n" + line), Group(groups[0])));
      assert f.whereGroups + [groups[0]] + groups[1..] == f.whereGroups + groups;
    }
  }

  // ----- round trip -----

  lemma AllSayAppend(a: seq<(string, Clause)>, b: seq<(string, Clause)>)
    requires AllSay(a) && AllSay(b)
    ensures AllSay(a + b)
  {
    hide Says, Printable;
  }

  lemma PolicyBodyBuilds(p: Policy)
    requires WellFormed(p)
    ensures AllSay(PolicyBody(p))
    ensures Unraw(ExtendAll(NewFields(p.id, OpeningLine(p.id)), PolicyBody(p)))
         == Fields(p.id, Some(p.effect), Some(p.action), Some(p.resource),
                   p.whenRoles, p.whereSubjects, p.whereGroups, p.unlessRoles, "")
  {
    hide AllSay, Says, Printable, Clean, WellFormedWord, WellFormedRole, WellFormedSubject, WellFormedGroup,
      WhenBody, SubjectBody, GroupBody, UnlessBody, HeadLine, OpeningLine;
    var f0 := NewFields(p.id, OpeningLine(p.id));
    var whens, head := WhenBody(p.whenRoles), (HeadLine(p.effect, p.action, p.resource), Head(p.effect, p.action, p.resource));
    var subjects, groups := SubjectBody(true, p.whereSubjects), GroupBody(p.whereSubjects == [], p.whereGroups);
    var unlesses := UnlessBody(p.unlessRoles);
    WhenBodyBuilds(p.whenRoles, f0);
    ExtendAllAppend(f0, whens, [head]);
    var f2 := ExtendAll(f0, whens + [head]);
    SubjectBodyBuilds(true, p.whereSubjects, f2);
    ExtendAllAppend(f0, whens + [head], subjects);
    var f3 := ExtendAll(f2, subjects);
    GroupBodyBuilds(p.whereSubjects == [], p.whereGroups, f3);
    ExtendAllAppend(f0, whens + [head] + subjects, groups);
    var f4 := ExtendAll(f3, groups);
    UnlessBodyBuilds(p.unlessRoles, f4);
    ExtendAllAppend(f0, whens + [head] + subjects + groups, unlesses);
    HeadLineSays(p.effect, p.action, p.resource);
    assert AllSay([head]) by { SingletonSays(head); }
    AllSayAppend(whens, [head]);
    AllSayAppend(whens + [head], subjects);
    AllSayAppend(whens + [head] + subjects, groups);
    AllSayAppend(whens + [head] + subjects + groups, unlesses);
  }

  lemma SingletonSays(said: (string, Clause))
    requires Says(said.0, said.1) && Printable(said.0)
    ensures AllSay([said])
  {
    hide Says, Printable;
  }

  lemma ParsePolicyBlock(p: Policy)
    requires WellFormed(p)
    ensures UnrawResult(ParseLines(BlockLines(PolicyBlock(p)))) == Ok([UnrawPolicy(p)])
    ensures OpensPolicy(BlockLines(PolicyBlock(p)))
  {
    hide Says, Opens, Clean, WellFormedWord, WellFormedRole, WellFormedSubject, WellFormedGroup,
      PolicyBody, OpeningLine, OpensPolicy, BlockLines, ParseLines;
    PolicyBodyBuilds(p);
    OpeningLineOpens(p.id);
    ParseBlock(PolicyBlock(p), []);
    assert BlockLines(PolicyBlock(p)) + [] == BlockLines(PolicyBlock(p));
    var f := ExtendAll(NewFields(p.id, OpeningLine(p.id)), PolicyBody(p));
    assert Finish(f).Ok? && UnrawPolicy(Finish(f).value) == UnrawPolicy(p);
    assert UnrawAll([Finish(f).value]) == [UnrawPolicy(p)];
  }

  lemma {:induction false} PrintLinesParse(ps: seq<Policy>)
    requires AllWellFormed(ps)
    ensures UnrawResult(ParseLines(PrintLines(ps))) == Ok(UnrawAll(ps))
    ensures OpensPolicy(PrintLines(ps))
  {
    hide WellFormed, ParseLines, BlockLines, PolicyBlock, OpensPolicy, UnrawAll;
    if ps == [] {
      ParseNothing();
    } else {
      assert forall p | p in ps[1..] :: p in ps;
      PrintLinesParse(ps[1..]);
      ParsePolicyBlock(ps[0]);
      var first, rest := BlockLines(PolicyBlock(ps[0])), PrintLines(ps[1..]);
      ParseLinesAppend(first, rest);
      OpensPolicyAppend(first, rest);
      UnrawAppend(ParseLines(first).value, ParseLines(rest).value);
      UnrawCons(ps);
    }
  }

  lemma UnrawCons(ps: seq<Policy>)
    requires ps != []
    ensures UnrawAll(ps) == [UnrawPolicy(ps[0])] + UnrawAll(ps[1..])
  {}

  lemma ParseNothing()
    ensures UnrawResult(ParseLines([])) == Ok(UnrawAll([])) && OpensPolicy([])
  {}

  lemma {:induction false} OpensPolicyAppend(a: seq<string>, b: seq<string>)
    requires OpensPolicy(a) && OpensPolicy(b)
    ensures OpensPolicy(a + b)
  {
    hide Effective;
    if a == [] {
      assert a + b == b;
    } else {
      assert (a + b)[1..] == a[1..] + b;
      if Effective(a[0]) == "" {
        OpensPolicyAppend(a[1..], b);
      }
    }
  }

  lemma {:induction false} LinesOfUnlines(lines: seq<string>)
    requires forall l | l in lines :: Printable(l)
    ensures Lines(Unlines(lines)) == lines
  {
    if lines != [] {
      assert lines[0] in lines;
      assert forall l | l in lines[1..] :: l in lines;
      LinesCons(lines[0], Unlines(lines[1..]));
      LinesOfUnlines(lines[1..]);
    }
  }

  lemma {:induction false} BodyIsPrintable(body: seq<(string, Clause)>)
    requires AllSay(body)
    ensures forall l | l in BodyLines(body) :: Printable(l)
  {
    hide Printable, Says;
    if body != [] {
      BodyIsPrintable(body[1..]);
    }
  }

  lemma {:induction false} PrintLinesPrintable(ps: seq<Policy>)
    requires AllWellFormed(ps)
    ensures forall l | l in PrintLines(ps) :: Printable(l)
  {
    hide Printable, AllSay, PolicyBody, OpeningLine, ExtendAll, Opens, Unraw, NewFields;
    if ps != [] {
      var p := ps[0];
      assert forall q | q in ps[1..] :: q in ps;
      PrintLinesPrintable(ps[1..]);
      PolicyBodyBuilds(p);
      BodyIsPrintable(PolicyBody(p));
      OpeningLineOpens(p.id);
    }
  }

  /**
   * Completeness of the parser: every well-formed policy list has a text, and parsing that text
   * gives the list back up to `raw`.
   */
  lemma {:induction false} ParsePrint(ps: seq<Policy>)
    requires AllWellFormed(ps)
    ensures UnrawResult(Parse(Print(ps))) == Ok(UnrawAll(ps))
  {
    hide AllWellFormed, PrintLines, Printable, ParseLines;
    PrintLinesPrintable(ps);
    LinesOfUnlines(PrintLines(ps));
    PrintLinesParse(ps);
  }

  /** The parser's image, up to `raw`, is exactly the well-formed policy lists. */
  lemma {:induction false} ImageIsWellFormed(ps: seq<Policy>)
    ensures AllWellFormed(ps) <==> exists text :: UnrawResult(Parse(text)) == Ok(UnrawAll(ps))
  {
    hide Parse, Print, Clean, WellFormedWord, WellFormedRole, WellFormedSubject, WellFormedGroup;
    if AllWellFormed(ps) {
      ParsePrint(ps);
    }
    if text :| UnrawResult(Parse(text)) == Ok(UnrawAll(ps)) {
      ParseWellFormed(text);
      var qs := Parse(text).value;
      assert |qs| == |ps|;
      forall p | p in ps
        ensures WellFormed(p)
      {
        var i :| 0 <= i < |ps| && ps[i] == p;
        assert UnrawPolicy(qs[i]) == UnrawAll(qs)[i] == UnrawPolicy(p);
        assert qs[i] in qs;
      }
    }
  }
}
