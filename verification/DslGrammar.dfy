/** What the policy language is: its clauses, its texts and its errors, spelled out apart from the parser of dsl.rs. */
module DslGrammar {
  import opened Text
  import opened Dsl
  import opened DslPrint

  // ----- the clauses -----

  ghost predicate RolesSpelled(text: string, roles: seq<string>) {
    || (exists r :: text == "role ==" + r && roles == [Trim(r)])
    || (exists r :: text == "role in " + r && roles == ParseList(r))
  }

  ghost predicate SubjectSpelled(text: string, s: string) {
    || ((text == "subject == SELF" || text == "subject==SELF") && s == "SELF")
    || (exists n :: text == "subject in " + n && Trim(n) == "DIRECT_REPORTS" && s == "DIRECT_REPORTS")
    || (exists n :: text == "subject == " + n && s == Trim(n))
  }

  /** A group is named with any number of `_GROUP` suffixes. */
  ghost predicate NamesGroup(name: string, g: string) {
    !EndsWith(g, "_GROUP") && exists k: nat :: name == g + Times("_GROUP", k)
  }

  ghost predicate GroupSpelled(text: string, g: string) {
    exists n :: text == "subject in " + n && Trim(n) != "DIRECT_REPORTS" && NamesGroup(Trim(n), g)
  }

  ghost predicate HeadSpelled(arg: string, action: string, resource: string) {
    exists a, r, more :: Words(arg) == [a, r] + more && action == Upper(a) && resource == Upper(r)
  }

  /** The clauses a line can be, without its comment and outer whitespace. */
  ghost predicate Spells(line: string, c: Clause) {
    match c
    case WhenRoles(roles) => exists arg :: line == "when " + arg && RolesSpelled(Trim(arg), roles)
    case UnlessRoles(roles) => exists arg :: line == "unless " + arg && RolesSpelled(Trim(arg), roles)
    case Head(Allow, a, r) => exists arg :: line == "allow " + arg && HeadSpelled(arg, a, r)
    case Head(Deny, a, r) => exists arg :: line == "deny " + arg && HeadSpelled(arg, a, r)
    case Head(Review, a, r) => exists arg :: line == "review " + arg && HeadSpelled(arg, a, r)
    case Subject(s) => exists arg :: (line == "where " + arg || line == "or " + arg) && SubjectSpelled(Trim(arg), s)
    case Group(g) => exists arg :: (line == "where " + arg || line == "or " + arg) && GroupSpelled(Trim(arg), g)
    case Malformed(_) => false
  }

  lemma RolesAreSpelled(text: string, roles: seq<string>)
    ensures RoleArgument(text) == Some(roles) <==> RolesSpelled(text, roles)
  {
    hide ParseList, Trim;
    if "role ==" <= text { assert text == "role ==" + text[7..]; }
    if "role in " <= text { assert text == "role in " + text[8..]; }
    if r :| text == "role ==" + r { assert text[7..] == r; }
    if r :| text == "role in " + r { assert text[8..] == r && text[5] == 'i'; }
  }

  lemma {:induction false} SuffixesTrimmed(g: string, k: nat)
    requires !EndsWith(g, "_GROUP")
    ensures TrimEndStr(g + Times("_GROUP", k), "_GROUP") == g
    decreases k
  {
    if k == 0 {
      assert g + "" == g;
    } else {
      var s := g + Times("_GROUP", k);
      Assoc(g, Times("_GROUP", k - 1), "_GROUP");
      assert EndsWith(s, "_GROUP") && s[..|s| - 6] == g + Times("_GROUP", k - 1);
      SuffixesTrimmed(g, k - 1);
    }
  }

  lemma GroupIsSpelled(name: string, g: string)
    ensures GroupName(name) == g <==> NamesGroup(name, g)
  {
    hide HasSub;
    assert GroupName(name) == TrimEndStr(name, "_GROUP");
    var n := TrimEndStrTakes(name, "_GROUP");
    if NamesGroup(name, g) {
      var k: nat :| name == g + Times("_GROUP", k);
      SuffixesTrimmed(g, k);
    }
  }

  lemma SubjectIsSpelled(rest: string, arg: string, s: string)
    requires rest == Trim(arg)
    ensures WhereClause(arg, 0) == Subject(s) <==> SubjectSpelled(rest, s)
  {
    hide Trim, GroupName;
    SelfArgument();
    if "subject in " <= rest { assert rest == "subject in " + rest[11..]; }
    if "subject == " <= rest { assert rest == "subject == " + rest[11..]; }
    if n :| rest == "subject in " + n { assert rest[11..] == n && rest[8] == 'i'; }
    if n :| rest == "subject == " + n { assert rest[11..] == n && rest[8] == '=' && rest[7] == ' '; }
  }

  lemma WhereGroup(rest: string, arg: string, g: string)
    requires rest == Trim(arg)
    ensures WhereClause(arg, 0) == Group(g) <==>
      "subject in " <= rest && Trim(rest[11..]) != "DIRECT_REPORTS" && GroupName(Trim(rest[11..])) == g
  {
    hide Trim, GroupName;
    SelfArgument();
  }

  lemma GroupClauseSpelled(rest: string, arg: string, g: string)
    requires rest == Trim(arg)
    ensures WhereClause(arg, 0) == Group(g) <==> GroupSpelled(rest, g)
  {
    hide Trim, GroupName, WhereClause, NamesGroup;
    WhereGroup(rest, arg, g);
    if "subject in " <= rest {
      assert rest == "subject in " + rest[11..];
      GroupIsSpelled(Trim(rest[11..]), g);
    }
    if n :| rest == "subject in " + n { assert rest[11..] == n; }
  }

  lemma HeadIsSpelled(e: Effect, arg: string, a: string, r: string)
    ensures HeadClause(e, arg, 0) == Head(e, a, r) <==> HeadSpelled(arg, a, r)
  {
    hide Words, Upper;
    var ws := Words(arg);
    if |ws| >= 2 { assert ws == [ws[0], ws[1]] + ws[2..]; }
  }

  lemma RolesClause(arg: string, c: Clause)
    ensures WhenClause(arg, 0) == c && !c.Malformed? <==> c.WhenRoles? && RolesSpelled(Trim(arg), c.roles)
    ensures UnlessClause(arg, 0) == c && !c.Malformed? <==> c.UnlessRoles? && RolesSpelled(Trim(arg), c.roles)
  {
    hide Trim, RoleArgument, RolesSpelled;
    var rest := Trim(arg);
    if c.WhenRoles? { RolesAreSpelled(rest, c.roles); }
    if c.UnlessRoles? { RolesAreSpelled(rest, c.roles); }
  }

  lemma ConditionClause(arg: string, c: Clause)
    ensures WhereClause(arg, 0) == c && !c.Malformed? <==>
      || (c.Subject? && SubjectSpelled(Trim(arg), c.subject))
      || (c.Group? && GroupSpelled(Trim(arg), c.group))
  {
    hide Trim, GroupName, SubjectSpelled, GroupSpelled;
    match c
    case Subject(s) => SubjectIsSpelled(Trim(arg), arg, s);
    case Group(g) => GroupClauseSpelled(Trim(arg), arg, g);
    case _ =>
  }

  lemma HeadClauseIs(e: Effect, arg: string, c: Clause)
    ensures HeadClause(e, arg, 0) == c && !c.Malformed? <==>
      c.Head? && c.effect == e && HeadSpelled(arg, c.action, c.resource)
  {
    hide Words, Upper, HeadSpelled;
    if c.Head? { HeadIsSpelled(e, arg, c.action, c.resource); }
  }

  /** Which keyword a line starts with decides how it is read. */
  lemma StatementReads(arg: string, loc: nat)
    ensures ClauseOf("when " + arg, loc) == WhenClause(arg, loc)
    ensures ClauseOf("unless " + arg, loc) == UnlessClause(arg, loc)
    ensures ClauseOf("where " + arg, loc) == WhereClause(arg, loc)
    ensures ClauseOf("or " + arg, loc) == WhereClause(arg, loc)
    ensures ClauseOf("allow " + arg, loc) == HeadClause(Allow, arg, loc)
    ensures ClauseOf("deny " + arg, loc) == HeadClause(Deny, arg, loc)
    ensures ClauseOf("review " + arg, loc) == HeadClause(Review, arg, loc)
  {
    hide ClauseOf, WhereClause, WhenClause, UnlessClause, HeadClause;
    WhenKeyword(arg, loc);
    UnlessKeyword(arg, loc);
    WhereKeyword(true, arg, loc);
    WhereKeyword(false, arg, loc);
    HeadKeyword(Allow, arg, loc);
    HeadKeyword(Deny, arg, loc);
    HeadKeyword(Review, arg, loc);
    assert "allow" + " " == "allow " && "deny" + " " == "deny " && "review" + " " == "review ";
  }

  lemma SpelledIsRead(line: string, c: Clause)
    requires Spells(line, c)
    ensures ClauseOf(line, 0) == c && !c.Malformed?
  {
    hide Trim, ClauseOf, WhenClause, UnlessClause, WhereClause, HeadClause, RolesSpelled, SubjectSpelled, GroupSpelled, HeadSpelled;
    match c
    case WhenRoles(roles) =>
      var arg :| line == "when " + arg && RolesSpelled(Trim(arg), roles);
      StatementReads(arg, 0);
      RolesClause(arg, c);
    case UnlessRoles(roles) =>
      var arg :| line == "unless " + arg && RolesSpelled(Trim(arg), roles);
      StatementReads(arg, 0);
      RolesClause(arg, c);
    case Head(e, a, r) =>
      var arg :| line == (match e case Allow => "allow " case Deny => "deny " case Review => "review ") + arg && HeadSpelled(arg, a, r);
      StatementReads(arg, 0);
      HeadClauseIs(e, arg, c);
    case Subject(s) =>
      var arg :| (line == "where " + arg || line == "or " + arg) && SubjectSpelled(Trim(arg), s);
      StatementReads(arg, 0);
      ConditionClause(arg, c);
    case Group(g) =>
      var arg :| (line == "where " + arg || line == "or " + arg) && GroupSpelled(Trim(arg), g);
      StatementReads(arg, 0);
      ConditionClause(arg, c);
  }

  lemma WhenIsSpelled(line: string, c: Clause)
    requires "when " <= line && WhenClause(line[5..], 0) == c && !c.Malformed?
    ensures Spells(line, c)
  {
    hide Trim, WhenClause, RolesSpelled;
    assert line == "when " + line[5..];
    RolesClause(line[5..], c);
  }

  lemma UnlessIsSpelled(line: string, c: Clause)
    requires "unless " <= line && UnlessClause(line[7..], 0) == c && !c.Malformed?
    ensures Spells(line, c)
  {
    hide Trim, UnlessClause, RolesSpelled;
    assert line == "unless " + line[7..];
    RolesClause(line[7..], c);
  }

  lemma WhereIsSpelled(line: string, arg: string, c: Clause)
    requires (line == "where " + arg || line == "or " + arg) && WhereClause(arg, 0) == c && !c.Malformed?
    ensures Spells(line, c)
  {
    hide Trim, WhereClause, SubjectSpelled, GroupSpelled;
    ConditionClause(arg, c);
  }

  lemma HeadLineIsSpelled(line: string, e: Effect, arg: string, c: Clause)
    requires line == (match e case Allow => "allow " case Deny => "deny " case Review => "review ") + arg
    requires HeadClause(e, arg, 0) == c && !c.Malformed?
    ensures Spells(line, c)
  {
    hide HeadClause, HeadSpelled;
    HeadClauseIs(e, arg, c);
  }

  lemma ReadIsSpelled(line: string, c: Clause)
    requires ClauseOf(line, 0) == c && !c.Malformed?
    ensures Spells(line, c)
  {
    hide Spells, WhenClause, UnlessClause, WhereClause, HeadClause;
    if "when " <= line {
      WhenIsSpelled(line, c);
    } else if "allow " <= line {
      assert line == "allow " + line[6..];
      HeadLineIsSpelled(line, Allow, line[6..], c);
    } else if "deny " <= line {
      assert line == "deny " + line[5..];
      HeadLineIsSpelled(line, Deny, line[5..], c);
    } else if "review " <= line {
      assert line == "review " + line[7..];
      HeadLineIsSpelled(line, Review, line[7..], c);
    } else if "where " <= line {
      assert line == "where " + line[6..];
      WhereIsSpelled(line, line[6..], c);
    } else if "or " <= line {
      assert line == "or " + line[3..];
      WhereIsSpelled(line, line[3..], c);
    } else if "unless " <= line {
      UnlessIsSpelled(line, c);
    }
  }

  /** Exactly the lines of the language are read, and each as the clause it spells. */
  lemma {:induction false} ClauseSpelled(line: string, c: Clause)
    ensures (ClauseOf(line, 0) == c && !c.Malformed?) <==> Spells(line, c)
  {
    hide ClauseOf, Spells;
    if ClauseOf(line, 0) == c && !c.Malformed? { ReadIsSpelled(line, c); }
    if Spells(line, c) { SpelledIsRead(line, c); }
  }

  predicate Reported(c: Clause, e: ParseError) {
    c.Malformed? ==> c.error == e
  }

  /** A line outside the language is reported under its number, with the part that could not be read. */
  lemma ErrorsNameLines(arg: string, loc: nat)
    ensures Reported(ClauseOf("when " + arg, loc), UnsupportedWhen(loc, Trim(arg)))
    ensures Reported(ClauseOf("unless " + arg, loc), UnsupportedUnless(loc, Trim(arg)))
    ensures Reported(ClauseOf("where " + arg, loc), UnsupportedWhere(loc, Trim(arg)))
    ensures Reported(ClauseOf("or " + arg, loc), UnsupportedWhere(loc, Trim(arg)))
    ensures Reported(ClauseOf("allow " + arg, loc), ExpectedActionResource(loc))
    ensures Reported(ClauseOf("deny " + arg, loc), ExpectedActionResource(loc))
    ensures Reported(ClauseOf("review " + arg, loc), ExpectedActionResource(loc))
  {
    hide Trim, ClauseOf, WhereClause, WhenClause, UnlessClause, HeadClause;
    StatementReads(arg, loc);
    RolesErrors(arg, loc);
    WhereErrors(arg, loc);
    HeadErrors(arg, loc);
  }

  /** A line that starts with no keyword is unknown. */
  lemma UnknownReported(line: string, loc: nat)
    requires !StartsStatement(line)
    ensures ClauseOf(line, loc) == Malformed(UnknownStatement(loc, line))
  {}

  lemma HeadErrors(arg: string, loc: nat)
    ensures forall e :: Reported(HeadClause(e, arg, loc), ExpectedActionResource(loc))
  {
    hide Words;
  }

  lemma RolesErrors(arg: string, loc: nat)
    ensures WhenClause(arg, loc).Malformed? ==> WhenClause(arg, loc).error == UnsupportedWhen(loc, Trim(arg))
    ensures UnlessClause(arg, loc).Malformed? ==> UnlessClause(arg, loc).error == UnsupportedUnless(loc, Trim(arg))
  {
    hide Trim, RoleArgument;
  }

  lemma WhereErrors(arg: string, loc: nat)
    ensures WhereClause(arg, loc).Malformed? ==> WhereClause(arg, loc).error == UnsupportedWhere(loc, Trim(arg))
  {
    hide Trim, GroupName;
  }

  predicate StartsStatement(line: string) {
    || "when " <= line || "unless " <= line || "where " <= line || "or " <= line
    || "allow " <= line || "deny " <= line || "review " <= line
  }

  // ----- comments, lists, names -----

  /** A comment runs to the end of its line. */
  lemma CommentsIgnored(code: string, comment: string)
    requires '#' !in code
    ensures Effective(code + "#" + comment) == Trim(code) && Effective(code) == Trim(code)
  {
    IndexOfAt(code, '#', comment);
    assert (code + "#" + comment)[..|code|] == code;
    assert IndexOf(code, '#') == |code| && code[..|code|] == code;
  }

  lemma {:induction false} TrimEndAfter(a: string, b: string)
    ensures TrimEnd(a + b) == if Blank(b) then TrimEnd(a) else a + TrimEnd(b)
    decreases |b|
  {
    if b == "" {
      assert a + b == a;
    } else {
      var last := b[|b| - 1];
      var init := b[..|b| - 1];
      assert (a + b)[..|a + b| - 1] == a + init && (a + b)[|a + b| - 1] == last;
      BlankSnoc(init, last);
      assert b == init + [last];
      if IsSpace(last) {
        TrimEndAfter(a, init);
      }
    }
  }

  lemma BlankSnoc(init: string, last: char)
    ensures Blank(init + [last]) <==> Blank(init) && IsSpace(last)
  {
    hide IsSpace;
    var s := init + [last];
    assert s[|init|] == last;
    assert forall i | 0 <= i < |init| :: s[i] == init[i];
  }

  lemma KeywordLine(keyword: string, rest: string)
    requires keyword != "" && '#' !in keyword && !IsSpace(keyword[0]) && !IsSpace(keyword[|keyword| - 1])
    ensures var r := StripComment(rest);
            Effective(keyword + " " + rest) == if Blank(r) then keyword else keyword + " " + TrimEnd(r)
  {
    var r := StripComment(rest);
    var line := keyword + " " + rest;
    var i := IndexOf(rest, '#');
    if i < |rest| {
      IndexOfAt(keyword + " " + r, '#', rest[i + 1..]);
      assert line == (keyword + " " + r) + "#" + rest[i + 1..];
    } else {
      assert '#' !in line;
    }
    assert StripComment(line) == keyword + " " + r;
    TrimEndAfter(keyword + " ", r);
    TrimEndAfter(keyword, " ");
    assert Blank(" ");
  }

  /** A line with `or` says what it says with `where`. */
  lemma OrSaysAsWhere(rest: string, c: Clause)
    ensures Says("or " + rest, c) <==> Says("where " + rest, c)
  {
    hide WhereClause, Effective, StripComment, TrimEnd, Blank, ClauseOf;
    KeywordLine("or", rest);
    KeywordLine("where", rest);
    assert "or" + " " == "or " && "where" + " " == "where ";
    var r := StripComment(rest);
    if Blank(r) {
      BareKeywords();
    } else {
      WhereKeyword(true, TrimEnd(r), 0);
      WhereKeyword(false, TrimEnd(r), 0);
    }
  }

  lemma BareKeywords()
    ensures ClauseOf("or", 0).Malformed? && ClauseOf("where", 0).Malformed?
  {
    assert "where"[0] == 'w' && "where"[2] == 'e' && "or"[0] == 'o';
  }

  /** The items of a bracketed list come out in order. */
  lemma {:induction false} ListReads(items: seq<string>)
    requires items != [] && forall x | x in items :: x != "" && IsTrimmed(x) && ',' !in x
    requires !("[" <= items[0]) && !EndsWith(items[|items| - 1], "]")
    ensures ParseList("[" + Join(items, ", ") + "]") == items
  {
    hide SplitOn, NonEmptyTrimmed, Join;
    var joined := Join(items, ", ");
    JoinEnds(items);
    var last := items[|items| - 1];
    assert last[|last| - 1..] == [last[|last| - 1]];
    var s := "[" + joined + "]";
    assert IsTrimmed(s) && Trim(s) == s;
    assert s[1..] == joined + "]";
    assert TrimStartChar(s, '[') == joined + "]";
    assert (joined + "]")[..|joined|] == joined;
    assert TrimEndChar(joined + "]", ']') == joined;
    ItemsRead("", items);
    assert "" + joined == joined;
  }

  lemma {:induction false} JoinEnds(items: seq<string>)
    requires items != [] && forall x | x in items :: x != ""
    ensures var joined, first, last := Join(items, ", "), items[0], items[|items| - 1];
            && joined != "" && first != "" && last != ""
            && joined[0] == first[0] && joined[|joined| - 1] == last[|last| - 1]
    decreases items
  {
    assert items[0] in items;
    if |items| > 1 {
      assert forall x | x in items[1..] :: x in items;
      JoinEnds(items[1..]);
      assert items[1..][|items| - 2] == items[|items| - 1];
    }
  }

  lemma {:induction false} ItemsRead(blank: string, items: seq<string>)
    requires Blank(blank) && ',' !in blank
    requires items != [] && forall x | x in items :: x != "" && IsTrimmed(x) && ',' !in x
    ensures NonEmptyTrimmed(SplitOn(blank + Join(items, ", "), ',')) == items
    decreases items
  {
    hide SplitOn, Trim;
    var x := items[0];
    assert x in items;
    TrimBlankBefore(blank, x);
    if |items| == 1 {
      SplitNothing(blank + x, ',');
      assert NonEmptyTrimmed([]) == [] && [blank + x][1..] == [];
      assert [x] + [] == items;
    } else {
      var rest := Join(items[1..], ", ");
      assert ", " == "," + " ";
      assert blank + Join(items, ", ") == (blank + x) + "," + (" " + rest);
      SplitOnFirst(blank + x, ',', " " + rest);
      assert forall y | y in items[1..] :: y in items;
      ItemsRead(" ", items[1..]);
      assert ([blank + x] + SplitOn(" " + rest, ','))[1..] == SplitOn(" " + rest, ',');
      assert [x] + items[1..] == items;
    }
  }

  lemma {:induction false} TrimBlankBefore(blank: string, x: string)
    requires Blank(blank) && IsTrimmed(x)
    ensures Trim(blank + x) == x
    decreases blank
  {
    if blank == "" {
      assert blank + x == x;
    } else {
      assert (blank + x)[1..] == blank[1..] + x;
      TrimBlankBefore(blank[1..], x);
    }
  }

  /** A list has every item that is not blank, trimmed, and no other. */
  lemma ListItems(s: string, x: string)
    ensures var inner := TrimEndChar(TrimStartChar(Trim(s), '['), ']');
            x in ParseList(s) <==> x != "" && exists p :: p in SplitOn(inner, ',') && Trim(p) == x
  {
    hide Trim, SplitOn;
    ItemsKept(SplitOn(TrimEndChar(TrimStartChar(Trim(s), '['), ']'), ','), x);
  }

  lemma {:induction false} ItemsKept(items: seq<string>, x: string)
    ensures x in NonEmptyTrimmed(items) <==> x != "" && exists p :: p in items && Trim(p) == x
    decreases items
  {
    hide Trim;
    if items != [] {
      ItemsKept(items[1..], x);
      assert forall p :: p in items <==> p == items[0] || p in items[1..];
    }
  }

  /** A name is what stands between the quotes, or the first word. */
  lemma OpenerSpelled(line: string, id: string)
    ensures Opens(line, id) <==>
      exists n :: Effective(line) == "policy " + n && NameSpelled(Trim(n), id)
  {
    hide Effective, Trim, Words;
    var l := Effective(line);
    if "policy " <= l {
      assert l == "policy " + l[7..];
      var t := Trim(l[7..]);
      if |t| >= 2 && t[0] == '"' && t[|t| - 1] == '"' { assert t == "\"" + t[1..|t| - 1] + "\""; }
      if t == "\"" + id + "\"" { assert t[1..|t| - 1] == id; }
    }
    if n :| l == "policy " + n { assert l[7..] == n; }
  }

  predicate NameSpelled(t: string, id: string) {
    || t == "\"" + id + "\""
    || (!(|t| >= 2 && t[0] == '"' && t[|t| - 1] == '"') && Words(t) != [] && Words(t)[0] == id)
  }

  // ----- whole texts -----

  datatype Numbered = Numbered(loc: nat, text: string)

  /** The lines that are not blank, with their numbers. */
  function NonBlank(lines: seq<string>, loc: nat): seq<Numbered> {
    if lines == [] then []
    else (if IsBlank(lines[0]) then [] else [Numbered(loc, lines[0])]) + NonBlank(lines[1..], loc + 1)
  }

  predicate IsOpener(line: string) {
    "policy " <= Effective(line)
  }

  function Texts(ns: seq<Numbered>): (r: seq<string>)
    ensures |r| == |ns| && forall i | 0 <= i < |ns| :: r[i] == ns[i].text
  {
    seq(|ns|, i requires 0 <= i < |ns| => ns[i].text)
  }

  function AllBlockLines(bs: seq<Block>): seq<string> {
    if bs == [] then [] else AllBlockLines(bs[..|bs| - 1]) + BlockLines(bs[|bs| - 1])
  }

  /** The lines are those of the blocks, and each block says what it is said to. */
  ghost predicate Spelled(bs: seq<Block>, ns: seq<Numbered>) {
    Texts(ns) == AllBlockLines(bs) && forall b | b in bs :: Readable(b)
  }

  // What the clauses of a block add up to: each list is made of its own clauses in order, and the
  // last of several head lines counts.

  function WhenRolesIn(body: seq<(string, Clause)>): seq<string> {
    if body == [] then []
    else
      var c := body[|body| - 1].1;
      WhenRolesIn(body[..|body| - 1]) + if c.WhenRoles? then c.roles else []
  }

  function UnlessRolesIn(body: seq<(string, Clause)>): seq<string> {
    if body == [] then []
    else
      var c := body[|body| - 1].1;
      UnlessRolesIn(body[..|body| - 1]) + if c.UnlessRoles? then c.roles else []
  }

  function SubjectsIn(body: seq<(string, Clause)>): seq<string> {
    if body == [] then []
    else
      var c := body[|body| - 1].1;
      SubjectsIn(body[..|body| - 1]) + if c.Subject? then [c.subject] else []
  }

  function GroupsIn(body: seq<(string, Clause)>): seq<string> {
    if body == [] then []
    else
      var c := body[|body| - 1].1;
      GroupsIn(body[..|body| - 1]) + if c.Group? then [c.group] else []
  }

  predicate HasHead(b: Block) {
    exists i :: 0 <= i < |b.body| && b.body[i].1.Head?
  }

  /** The last head line of a block. */
  function HeadIn(body: seq<(string, Clause)>): (h: Option<Clause>)
    ensures h.Some? ==> h.value.Head?
    ensures h.Some? <==> exists i :: 0 <= i < |body| && body[i].1.Head?
  {
    if body == [] then None
    else
      var c := body[|body| - 1].1;
      if c.Head? then Some(c) else HeadIn(body[..|body| - 1])
  }

  /** The opening line and the lines after it, as they were written. */
  function SourceOf(opening: string, body: seq<(string, Clause)>): string {
    if body == [] then opening else SourceOf(opening, body[..|body| - 1]) + "\n" + body[|body| - 1].0
  }

  function PolicyOf(b: Block): Policy
    requires HasHead(b)
  {
    var h := HeadIn(b.body).value;
    Policy(b.id, h.effect, h.action, h.resource, WhenRolesIn(b.body), SubjectsIn(b.body),
           UnlessRolesIn(b.body), GroupsIn(b.body), SourceOf(b.opening, b.body))
  }

  function PoliciesOf(bs: seq<Block>): (r: seq<Policy>)
    requires forall b | b in bs :: HasHead(b)
    ensures |r| == |bs| && forall i | 0 <= i < |bs| :: r[i] == PolicyOf(bs[i])
  {
    seq(|bs|, i requires 0 <= i < |bs| => PolicyOf(bs[i]))
  }

  /** All blocks are complete, but for the last one. */
  predicate ClosedBefore(bs: seq<Block>) {
    forall i | 0 <= i < |bs| - 1 :: HasHead(bs[i])
  }

  // ----- the parser over numbered lines -----

  function RunNumbered(ns: seq<Numbered>, st: State): Result<State, ParseError> {
    if ns == [] then Ok(st)
    else
      match RunNumbered(ns[..|ns| - 1], st)
      case Err(e) => Err(e)
      case Ok(mid) => Step(mid, ns[|ns| - 1].text, ns[|ns| - 1].loc)
  }

  lemma {:induction false} RunNumberedCons(n: Numbered, ns: seq<Numbered>, st: State)
    ensures RunNumbered([n] + ns, st)
         == match Step(st, n.text, n.loc) case Err(e) => Err(e) case Ok(mid) => RunNumbered(ns, mid)
    decreases ns
  {
    hide Step;
    if ns == [] {
      assert [n] + ns == [n] && [n][..0] == [];
      assert RunNumbered([], st) == Ok(st);
    } else {
      assert ([n] + ns)[..|ns|] == [n] + ns[..|ns| - 1];
      RunNumberedCons(n, ns[..|ns| - 1], st);
    }
  }

  /** Blank lines only count. */
  lemma {:induction false} RunSkipsBlank(lines: seq<string>, loc: nat, st: State)
    ensures Run(lines, loc, st) == RunNumbered(NonBlank(lines, loc), st)
    decreases lines
  {
    hide Effective, ClauseOf, Flush, ParseName;
    if lines != [] {
      var next := Step(st, lines[0], loc);
      if IsBlank(lines[0]) {
        assert [] + NonBlank(lines[1..], loc + 1) == NonBlank(lines[1..], loc + 1);
        RunSkipsBlank(lines[1..], loc + 1, st);
      } else {
        RunNumberedCons(Numbered(loc, lines[0]), NonBlank(lines[1..], loc + 1), st);
        if next.Ok? { RunSkipsBlank(lines[1..], loc + 1, next.value); }
      }
    }
  }

  lemma {:induction false} NumberedAreNotBlank(lines: seq<string>, loc: nat)
    ensures forall n | n in NonBlank(lines, loc) :: !IsBlank(n.text)
    decreases lines
  {
    hide IsBlank;
    if lines != [] { NumberedAreNotBlank(lines[1..], loc + 1); }
  }

  function FieldsOf(b: Block): Fields {
    var h := HeadIn(b.body);
    var given := h.Some?;
    Fields(b.id, if given then Some(h.value.effect) else None, if given then Some(h.value.action) else None,
           if given then Some(h.value.resource) else None, WhenRolesIn(b.body), SubjectsIn(b.body), GroupsIn(b.body),
           UnlessRolesIn(b.body), SourceOf(b.opening, b.body))
  }

  function StateAfter(bs: seq<Block>): State
    requires ClosedBefore(bs)
  {
    if bs == [] then INITIAL
    else
      var n := |bs| - 1;
      State(Some(FieldsOf(bs[n])), PoliciesOf(bs[..n]))
  }

  lemma FlushAfter(bs: seq<Block>)
    requires ClosedBefore(bs)
    ensures var r := Flush(StateAfter(bs));
            if bs != [] && !HasHead(bs[|bs| - 1]) then r == Err(MissingEffect(bs[|bs| - 1].id))
            else (forall b | b in bs :: HasHead(b)) && r == Ok(PoliciesOf(bs))
  {
    hide WhenRolesIn, SubjectsIn, GroupsIn, UnlessRolesIn, SourceOf;
    if bs != [] && HasHead(bs[|bs| - 1]) {
      assert bs == bs[..|bs| - 1] + [bs[|bs| - 1]];
      assert PoliciesOf(bs) == PoliciesOf(bs[..|bs| - 1]) + [PolicyOf(bs[|bs| - 1])];
    }
  }

  /** One more clause line. */
  function WithLine(b: Block, line: string, c: Clause): Block {
    b.(body := b.body + [(line, c)])
  }

  lemma FieldsWithLine(b: Block, line: string, c: Clause)
    requires !c.Malformed?
    ensures FieldsOf(WithLine(b, line, c)) == Extend(FieldsOf(b).(raw := FieldsOf(b).raw + "\n" + line), c)
  {
    var body := b.body + [(line, c)];
    assert body[..|body| - 1] == b.body;
  }

  lemma FieldsOfOpener(line: string, id: string)
    ensures FieldsOf(Block(line, id, [])) == NewFields(id, line)
  {}

  lemma {:induction false} BodyLinesSnoc(body: seq<(string, Clause)>, said: (string, Clause))
    ensures BodyLines(body + [said]) == BodyLines(body) + [said.0]
    decreases body
  {
    if body == [] {
      assert body + [said] == [said] && BodyLines([said][1..]) == [];
    } else {
      assert (body + [said])[1..] == body[1..] + [said];
      BodyLinesSnoc(body[1..], said);
    }
  }

  /** One more line of the last block. */
  lemma LinesWithLine(bs: seq<Block>, b: Block, line: string, c: Clause)
    ensures AllBlockLines(bs + [WithLine(b, line, c)]) == AllBlockLines(bs + [b]) + [line]
  {
    BodyLinesSnoc(b.body, (line, c));
    LinesWithBlock(bs, b);
    LinesWithBlock(bs, WithLine(b, line, c));
    assert BlockLines(WithLine(b, line, c)) == BlockLines(b) + [line];
    Assoc(AllBlockLines(bs), BlockLines(b), [line]);
  }

  lemma LinesWithBlock(bs: seq<Block>, b: Block)
    ensures AllBlockLines(bs + [b]) == AllBlockLines(bs) + BlockLines(b)
  {
    assert (bs + [b])[..|bs|] == bs;
  }

  lemma SaidAtAnyLine(line: string, c: Clause, loc: nat)
    requires Says(line, c)
    ensures ClauseOf(Effective(line), loc) == c && !IsBlank(line) && !IsOpener(line) && !c.Malformed?
  {
    hide Effective, ClauseOf;
    ClauseIgnoresLine(Effective(line), 0, loc);
  }

  lemma StepContinues(bs: seq<Block>, b: Block, n: Numbered, c: Clause)
    requires ClosedBefore(bs + [b]) && Says(n.text, c)
    ensures ClosedBefore(bs + [WithLine(b, n.text, c)])
    ensures Step(StateAfter(bs + [b]), n.text, n.loc) == Ok(StateAfter(bs + [WithLine(b, n.text, c)]))
  {
    hide Effective, ClauseOf, FieldsOf, HasHead, Says, Extend;
    SaidAtAnyLine(n.text, c, n.loc);
    FieldsWithLine(b, n.text, c);
    var after := bs + [WithLine(b, n.text, c)];
    assert forall i | 0 <= i < |bs| :: after[i] == (bs + [b])[i];
    assert after[..|bs|] == bs == (bs + [b])[..|bs|];
  }

  lemma StepOpens(bs: seq<Block>, n: Numbered, id: string)
    requires (forall b | b in bs :: HasHead(b)) && Opens(n.text, id)
    ensures ClosedBefore(bs) && ClosedBefore(bs + [Block(n.text, id, [])])
    ensures Step(StateAfter(bs), n.text, n.loc) == Ok(StateAfter(bs + [Block(n.text, id, [])]))
  {
    hide Effective, ParseName, FieldsOf, HasHead, NewFields;
    FlushAfter(bs);
    FieldsOfOpener(n.text, id);
    var after := bs + [Block(n.text, id, [])];
    assert forall i | 0 <= i < |bs| :: after[i] == bs[i];
    assert after[..|bs|] == bs;
    if bs != [] { assert bs[|bs| - 1] in bs; }
  }

  lemma ReadableWithLine(b: Block, line: string, c: Clause)
    ensures Readable(WithLine(b, line, c)) <==> Readable(b) && Says(line, c)
  {
    hide Says, Opens;
    var body := b.body + [(line, c)];
    assert body[|b.body|] == (line, c);
    assert forall i | 0 <= i < |b.body| :: body[i] == b.body[i];
  }

  lemma TextsSplit(ns: seq<Numbered>, lines: seq<string>, line: string)
    requires Texts(ns) == lines + [line]
    ensures ns != [] && Texts(ns[..|ns| - 1]) == lines && ns[|ns| - 1].text == line
  {
    var m := |ns| - 1;
    assert |ns| == |lines| + 1;
    assert Texts(ns) == Texts(ns[..m]) + [ns[m].text];
  }

  /** Without the last line, which opens the last block. */
  lemma SpelledOpening(before: seq<Block>, b: Block, ns: seq<Numbered>)
    requires Spelled(before + [b], ns) && b.body == []
    ensures ns != [] && Spelled(before, ns[..|ns| - 1]) && ns[|ns| - 1].text == b.opening && Opens(b.opening, b.id)
  {
    hide Readable, Opens, Says;
    LinesWithBlock(before, b);
    assert BlockLines(b) == [b.opening];
    TextsSplit(ns, AllBlockLines(before), b.opening);
    assert b in before + [b] && forall x | x in before :: x in before + [b];
    OpeningOf(b);
  }

  /** Without the last line, which is a clause of the last block. */
  lemma SpelledClause(before: seq<Block>, shorter: Block, line: string, c: Clause, ns: seq<Numbered>)
    requires Spelled(before + [WithLine(shorter, line, c)], ns)
    ensures ns != [] && Spelled(before + [shorter], ns[..|ns| - 1]) && ns[|ns| - 1].text == line && Says(line, c)
  {
    hide Readable, Opens, Says, AllBlockLines, WithLine;
    LinesWithLine(before, shorter, line, c);
    TextsSplit(ns, AllBlockLines(before + [shorter]), line);
    ReadableWithLine(shorter, line, c);
    assert WithLine(shorter, line, c) in before + [WithLine(shorter, line, c)];
    assert forall x | x in before :: x in before + [WithLine(shorter, line, c)];
  }

  /** The parser comes to the blocks that the lines spell. */
  lemma {:induction false} RunOfSpelled(bs: seq<Block>, ns: seq<Numbered>)
    requires Spelled(bs, ns) && ClosedBefore(bs)
    ensures RunNumbered(ns, INITIAL) == Ok(StateAfter(bs))
    decreases |ns|
  {
    hide Step, StateAfter, HasHead, Readable, Opens, Says, BlockLines;
    if bs == [] {
      assert ns == [];
      NoBlocks();
    } else {
      var before, b := bs[..|bs| - 1], bs[|bs| - 1];
      assert bs == before + [b];
      var m := |ns| - 1;
      if b.body == [] {
        SpelledOpening(before, b, ns);
        AllHeads(before, b);
        RunOfSpelled(before, ns[..m]);
        StepOpens(before, ns[m], b.id);
      } else {
        var k := |b.body| - 1;
        var (line, c) := b.body[k];
        var shorter := b.(body := b.body[..k]);
        assert b.body == shorter.body + [(line, c)];
        SpelledClause(before, shorter, line, c, ns);
        SameHeads(before, b, shorter);
        RunOfSpelled(before + [shorter], ns[..m]);
        StepContinues(before, shorter, ns[m], c);
      }
    }
  }

  lemma AllHeads(before: seq<Block>, b: Block)
    requires ClosedBefore(before + [b])
    ensures ClosedBefore(before) && forall x | x in before :: HasHead(x)
  {
    hide HasHead;
    forall x | x in before
      ensures HasHead(x)
    {
      var i :| 0 <= i < |before| && before[i] == x;
      assert (before + [b])[i] == x;
    }
  }

  lemma SameHeads(before: seq<Block>, b: Block, other: Block)
    requires ClosedBefore(before + [b])
    ensures ClosedBefore(before + [other])
  {
    hide HasHead;
    assert forall i | 0 <= i < |before| :: (before + [other])[i] == (before + [b])[i];
  }

  lemma OpeningOf(b: Block)
    requires Readable(b)
    ensures Opens(b.opening, b.id)
  {}

  lemma NoBlocks()
    ensures ClosedBefore([]) && StateAfter([]) == INITIAL && AllBlockLines([]) == []
  {}

  /** What one more line that is not blank does. */
  lemma StepAfter(bs: seq<Block>, n: Numbered)
    requires ClosedBefore(bs) && !IsBlank(n.text)
    ensures var r := Step(StateAfter(bs), n.text, n.loc);
            if IsOpener(n.text) then
              if bs != [] && !HasHead(bs[|bs| - 1]) then r == Err(MissingEffect(bs[|bs| - 1].id))
              else r.Ok? && (forall b | b in bs :: HasHead(b)) && exists id :: Opens(n.text, id)
            else if bs == [] then r == Err(OutsidePolicy(n.loc))
            else
              var c := ClauseOf(Effective(n.text), n.loc);
              if c.Malformed? then r == Err(c.error) else r.Ok? && Says(n.text, c)
  {
    hide Effective, ClauseOf, ParseName, FieldsOf, HasHead, Flush, PoliciesOf;
    FlushAfter(bs);
    if IsOpener(n.text) {
      NameAlwaysFound(n.text);
      assert Opens(n.text, ParseName(Effective(n.text)[7..]).value);
    } else {
      ClauseIgnoresLine(Effective(n.text), 0, n.loc);
    }
  }

  /** Lines that are accepted so far spell blocks. */
  lemma {:induction false} SpelledOfRun(ns: seq<Numbered>, st: State) returns (bs: seq<Block>)
    requires forall n | n in ns :: !IsBlank(n.text)
    requires RunNumbered(ns, INITIAL) == Ok(st)
    ensures Spelled(bs, ns) && ClosedBefore(bs) && st == StateAfter(bs)
    decreases |ns|
  {
    hide Step, StateAfter, HasHead, Readable, IsBlank, IsOpener, Opens, Says, ClauseOf, Effective;
    if ns == [] {
      bs := [];
      NoBlocks();
    } else {
      var m := |ns| - 1;
      var init, n := ns[..m], ns[m];
      var before := SpelledOfRun(init, RunNumbered(init, INITIAL).value);
      assert Texts(ns) == Texts(init) + [n.text];
      StepAfter(before, n);
      if IsOpener(n.text) {
        var id :| Opens(n.text, id);
        var b := Block(n.text, id, []);
        StepOpens(before, n, id);
        bs := before + [b];
        LinesWithBlock(before, b);
        assert Readable(b) by { EmptyBlockReadable(n.text, id); }
      } else {
        var k := |before| - 1;
        var b, c := before[k], ClauseOf(Effective(n.text), n.loc);
        assert before == before[..k] + [b];
        StepContinues(before[..k], b, n, c);
        bs := before[..k] + [WithLine(b, n.text, c)];
        LinesWithLine(before[..k], b, n.text, c);
        ReadableWithLine(b, n.text, c);
      }
    }
  }

  lemma EmptyBlockReadable(line: string, id: string)
    requires Opens(line, id)
    ensures Readable(Block(line, id, [])) && BlockLines(Block(line, id, [])) == [line]
  {
    hide Opens;
  }

  /** The blocks say what stands before line `k`, and there the text goes wrong. */
  ghost predicate Faulty(bs: seq<Block>, ns: seq<Numbered>, k: nat, e: ParseError) {
    && k <= |ns| && Spelled(bs, ns[..k]) && ClosedBefore(bs)
    && if k < |ns| && !IsOpener(ns[k].text) then
         if bs == [] then e == OutsidePolicy(ns[k].loc)
         else ClauseOf(Effective(ns[k].text), ns[k].loc) == Malformed(e)
       else bs != [] && !HasHead(bs[|bs| - 1]) && e == MissingEffect(bs[|bs| - 1].id)
  }

  ghost predicate Reads(bs: seq<Block>, ns: seq<Numbered>, ps: seq<Policy>) {
    Spelled(bs, ns) && (forall b | b in bs :: HasHead(b)) && ps == PoliciesOf(bs)
  }

  lemma ParseNumbered(text: string)
    ensures var ns := NonBlank(Lines(text), 1);
            && (forall n | n in ns :: !IsBlank(n.text))
            && Parse(text) == match RunNumbered(ns, INITIAL) case Ok(last) => Flush(last) case Err(e) => Err(e)
  {
    hide Lines, NonBlank, RunNumbered, Flush, Run, IsBlank;
    NumberedAreNotBlank(Lines(text), 1);
    RunSkipsBlank(Lines(text), 1, INITIAL);
  }

  /**
   * The language of policy texts: a text parses to a policy list exactly when its lines are those of
   * complete blocks, and the policies are what the clauses of each block add up to.
   */
  lemma {:induction false} ParsesTo(text: string, ps: seq<Policy>)
    ensures Parse(text) == Ok(ps) <==> exists bs :: Reads(bs, NonBlank(Lines(text), 1), ps)
  {
    hide Parse, Lines, NonBlank, RunNumbered, Flush, IsBlank, StateAfter, HasHead, PoliciesOf, Spelled;
    ParseNumbered(text);
    var ns := NonBlank(Lines(text), 1);
    if Parse(text) == Ok(ps) {
      var bs := SpelledOfRun(ns, RunNumbered(ns, INITIAL).value);
      FlushAfter(bs);
      assert Reads(bs, ns, ps);
    }
    if bs :| Reads(bs, ns, ps) {
      RunOfSpelled(bs, ns);
      FlushAfter(bs);
      if bs != [] { assert bs[|bs| - 1] in bs; }
    }
  }

  lemma {:induction false} FirstError(ns: seq<Numbered>, e: ParseError) returns (k: nat)
    requires RunNumbered(ns, INITIAL) == Err(e)
    ensures k < |ns| && RunNumbered(ns[..k], INITIAL).Ok?
    ensures Step(RunNumbered(ns[..k], INITIAL).value, ns[k].text, ns[k].loc) == Err(e)
    decreases |ns|
  {
    hide Step;
    var m := |ns| - 1;
    if RunNumbered(ns[..m], INITIAL).Ok? {
      k := m;
    } else {
      k := FirstError(ns[..m], e);
      assert ns[..m][..k] == ns[..k];
    }
  }

  lemma {:induction false} ErrorStays(ns: seq<Numbered>, k: nat, e: ParseError)
    requires k < |ns| && RunNumbered(ns[..k], INITIAL).Ok?
    requires Step(RunNumbered(ns[..k], INITIAL).value, ns[k].text, ns[k].loc) == Err(e)
    ensures RunNumbered(ns, INITIAL) == Err(e)
    decreases |ns|
  {
    hide Step;
    var m := |ns| - 1;
    if k < m {
      assert ns[..m][..k] == ns[..k];
      ErrorStays(ns[..m], k, e);
    }
  }

  /**
   * The errors: a text fails exactly where its lines stop being those of blocks, at the first line
   * outside a policy or outside the language, or at the end of a policy without a head line.
   */
  lemma {:induction false} FailsWith(text: string, e: ParseError)
    ensures Parse(text) == Err(e) <==> exists bs, k: nat :: Faulty(bs, NonBlank(Lines(text), 1), k, e)
  {
    hide Parse, Lines, NonBlank, RunNumbered, Flush, IsBlank, IsOpener, StateAfter, HasHead, PoliciesOf, Spelled, Step,
      ClauseOf, Effective, ClosedBefore;
    ParseNumbered(text);
    var ns := NonBlank(Lines(text), 1);
    if Parse(text) == Err(e) {
      var k: nat := |ns|;
      if RunNumbered(ns, INITIAL).Err? { k := FirstError(ns, e); }
      assert ns[..|ns|] == ns;
      var bs := SpelledOfRun(ns[..k], RunNumbered(ns[..k], INITIAL).value);
      FlushAfter(bs);
      if k < |ns| { StepAfter(bs, ns[k]); }
      assert Faulty(bs, ns, k, e);
    }
    if bs, k: nat :| Faulty(bs, ns, k, e) {
      RunOfSpelled(bs, ns[..k]);
      assert ns[..|ns|] == ns;
      FlushAfter(bs);
      if k < |ns| {
        StepAfter(bs, ns[k]);
        ErrorStays(ns, k, e);
      }
    }
  }

  lemma ClauseErrors(line: string, loc: nat)
    ensures var c := ClauseOf(line, loc);
            c.Malformed? ==> !c.error.ExpectedName? && !c.error.MissingAction? && !c.error.MissingResource?
  {
    hide Trim, RoleArgument, Words, GroupName;
  }

  /** Three of the parser's errors can never be reported. */
  lemma {:induction false} NeverReported(text: string, e: ParseError)
    requires Parse(text) == Err(e)
    ensures !e.ExpectedName? && !e.MissingAction? && !e.MissingResource?
  {
    hide Parse, Lines, NonBlank, IsOpener, HasHead, Spelled, ClauseOf, Effective, ClosedBefore;
    FailsWith(text, e);
    var ns := NonBlank(Lines(text), 1);
    var bs, k: nat :| Faulty(bs, ns, k, e);
    if k < |ns| { ClauseErrors(Effective(ns[k].text), ns[k].loc); }
  }
}
