/** Draft policies generated from directory groups: adapters.rs and idp.rs. */
module Drafts {
  import opened Text
  import opened Dsl
  import opened DslPrint
  import opened TranslateReads
  import opened Requests
  import opened Semantics
  import opened Entities
  import opened Evaluator
  import CedarText

  // ----- what a generator writes for one group -----

  /** The names a generator derives from a group; two of the drafts are written for some groups only. */
  datatype GroupDraft = GroupDraft(gid: string, profileId: string, expenseId: Option<string>, payrollId: Option<string>)

  function RoleInLine(gid: string): string {
    "when " + ("role in " + ("[" + gid + "]"))
  }

  function ProfileLines(id: string, gid: string): seq<string> {
    [OpeningLine(id), RoleInLine(gid), HeadLine(Allow, "READ", "EMPLOYEE_PROFILE"), SubjectLine(true, "SELF"), ""]
  }

  function ExpenseLines(id: string): seq<string> {
    [OpeningLine(id), HeadLine(Deny, "READ", "TRAVEL_EXPENSE"), GroupLine(true, "EXECUTIVE"), "unless role in [CFO, CEO]", ""]
  }

  function PayrollLines(id: string): seq<string> {
    [OpeningLine(id), HeadLine(Deny, "EXPORT", "SALARY"), "unless role == PAYROLL_ADMIN", ""]
  }

  function DraftLines(d: GroupDraft): seq<string> {
    ProfileLines(d.profileId, d.gid)
    + (if d.expenseId.Some? then ExpenseLines(d.expenseId.value) else [])
    + (if d.payrollId.Some? then PayrollLines(d.payrollId.value) else [])
  }

  function AllDraftLines(ds: seq<GroupDraft>): seq<string> {
    if ds == [] then [] else DraftLines(ds[0]) + AllDraftLines(ds[1..])
  }

  // ----- the three generators -----

  datatype Generator = Ldap | Idp(kind: string) | AutoDiscovered

  function GroupId(g: Generator, name: string): string {
    if g.Ldap? then Upper(name) else ReplaceChar(Upper(name), ' ', '_')
  }

  function DraftOf(g: Generator, name: string): GroupDraft {
    var gid := GroupId(g, name);
    var payroll := HasSub(gid, "PAYROLL");
    var expense := if g.Ldap? then HasSub(gid, "EXECUTIVE") || gid == "EXECUTIVE"
                   else HasSub(gid, "EXEC") || HasSub(gid, "FINANCE");
    match g
    case Ldap =>
      GroupDraft(gid, "draft_group_" + gid + "_read_profile",
                 if expense then Some("draft_protect_executive_expenses") else None,
                 if payroll then Some("draft_payroll_salary_export") else None)
    case Idp(kind) =>
      GroupDraft(gid, "draft_" + kind + "_" + gid + "_self_profile",
                 if expense then Some("draft_" + kind + "_" + gid + "_protect_exec_expense") else None,
                 if payroll then Some("draft_payroll_export") else None)
    case AutoDiscovered =>
      GroupDraft(gid, "auto_discovered_" + gid + "_self_profile",
                 if expense then Some("auto_discovered_" + gid + "_protect_exec_expense") else None,
                 if payroll then Some("auto_discovered_payroll_salary_export") else None)
  }

  function DraftsOf(g: Generator, names: seq<string>): (r: seq<GroupDraft>)
    ensures |r| == |names| && forall i | 0 <= i < |names| :: r[i] == DraftOf(g, names[i])
  {
    seq(|names|, i requires 0 <= i < |names| => DraftOf(g, names[i]))
  }

  const REVIEW_LINE := "# Review and commit manually " + "\U{2014} never auto-deployed."

  const LDAP_LINE := "# DRAFT policies generated " + "from LDAP group sync"

  const AUTO_LINE := "# Auto-Discovered baseline " + "policies across LDAP, AD, " + "Entra ID, and Cognito stores."

  function IdpLine(kind: string): string {
    "# DRAFT policies from " + kind + (" sync \U{2014} review, commit, " + "sign, deploy. Never auto-applied.")
  }

  function HeaderLines(g: Generator): seq<string> {
    match g
    case Ldap => [LDAP_LINE, REVIEW_LINE, ""]
    case Idp(kind) => [IdpLine(kind), ""]
    case AutoDiscovered => [AUTO_LINE, REVIEW_LINE, ""]
  }

  /** The text a generator returns. */
  function DraftText(g: Generator, names: seq<string>): string {
    Unlines(HeaderLines(g) + AllDraftLines(DraftsOf(g, names)))
  }

  lemma {:induction false} UnlinesAppend(a: seq<string>, b: seq<string>)
    ensures Unlines(a + b) == Unlines(a) + Unlines(b)
  {
    if a == [] {
      assert a + b == b;
    } else {
      assert (a + b)[1..] == a[1..] + b;
      UnlinesAppend(a[1..], b);
    }
  }

  lemma {:induction false} AllDraftLinesSnoc(ds: seq<GroupDraft>, d: GroupDraft)
    ensures AllDraftLines(ds + [d]) == AllDraftLines(ds) + DraftLines(d)
  {
    hide DraftLines;
    if ds == [] {
      assert ds + [d] == [d] && [d][1..] == [];
    } else {
      assert (ds + [d])[1..] == ds[1..] + [d];
      AllDraftLinesSnoc(ds[1..], d);
    }
  }

  lemma NoDrafts(g: Generator)
    ensures DraftText(g, []) == Unlines(HeaderLines(g))
  {
    hide HeaderLines;
    assert DraftsOf(g, []) == [];
    assert HeaderLines(g) + [] == HeaderLines(g);
  }

  /** What one more group adds to the text. */
  lemma DraftStep(g: Generator, names: seq<string>, i: nat, d: GroupDraft)
    requires i < |names| && d == DraftOf(g, names[i])
    ensures DraftText(g, names[..i + 1])
         == DraftText(g, names[..i]) + Unlines(ProfileLines(d.profileId, d.gid))
            + (if d.expenseId.Some? then Unlines(ExpenseLines(d.expenseId.value)) else "")
            + (if d.payrollId.Some? then Unlines(PayrollLines(d.payrollId.value)) else "")
  {
    hide DraftOf, HeaderLines, ProfileLines, ExpenseLines, PayrollLines, Unlines;
    var before := HeaderLines(g) + AllDraftLines(DraftsOf(g, names[..i]));
    assert DraftsOf(g, names[..i + 1]) == DraftsOf(g, names[..i]) + [d];
    AllDraftLinesSnoc(DraftsOf(g, names[..i]), d);
    var p := ProfileLines(d.profileId, d.gid);
    var e := if d.expenseId.Some? then ExpenseLines(d.expenseId.value) else [];
    var q := if d.payrollId.Some? then PayrollLines(d.payrollId.value) else [];
    assert HeaderLines(g) + AllDraftLines(DraftsOf(g, names[..i + 1])) == before + p + e + q;
    UnlinesAppend(before, p);
    UnlinesAppend(before + p, e);
    UnlinesAppend(before + p + e, q);
    NoLines();
  }

  lemma NoLines()
    ensures Unlines([]) == ""
  {}

  method DraftPoliciesFromGroups(names: seq<string>) returns (out: string)
    ensures out == DraftText(Ldap, names)
  {
    hide DraftText, HasSub, Unlines, ProfileLines, ExpenseLines, PayrollLines;
    out := Unlines(HeaderLines(Ldap));
    NoDrafts(Ldap);
    for i := 0 to |names|
      invariant out == DraftText(Ldap, names[..i])
    {
      DraftStep(Ldap, names, i, DraftOf(Ldap, names[i]));
      var gid := Upper(names[i]);
      out := out + Unlines(ProfileLines("draft_group_" + gid + "_read_profile", gid));
      if HasSub(gid, "EXECUTIVE") || gid == "EXECUTIVE" {
        out := out + Unlines(ExpenseLines("draft_protect_executive_expenses"));
      }
      if HasSub(gid, "PAYROLL") {
        out := out + Unlines(PayrollLines("draft_payroll_salary_export"));
      }
    }
    assert names[..|names|] == names;
  }

  method DefaultDraftsFromGroups(kind: string, names: seq<string>) returns (out: string)
    ensures out == DraftText(Idp(kind), names)
  {
    hide DraftText, HasSub, Unlines, ProfileLines, ExpenseLines, PayrollLines;
    out := Unlines(HeaderLines(Idp(kind)));
    NoDrafts(Idp(kind));
    for i := 0 to |names|
      invariant out == DraftText(Idp(kind), names[..i])
    {
      DraftStep(Idp(kind), names, i, DraftOf(Idp(kind), names[i]));
      var gid := ReplaceChar(Upper(names[i]), ' ', '_');
      out := out + Unlines(ProfileLines("draft_" + kind + "_" + gid + "_self_profile", gid));
      if HasSub(gid, "EXEC") || HasSub(gid, "FINANCE") {
        out := out + Unlines(ExpenseLines("draft_" + kind + "_" + gid + "_protect_exec_expense"));
      }
      if HasSub(gid, "PAYROLL") {
        out := out + Unlines(PayrollLines("draft_payroll_export"));
      }
    }
    assert names[..|names|] == names;
  }

  method GenerateAutoDiscoveredDraftPolicies(names: seq<string>) returns (out: string)
    ensures out == DraftText(AutoDiscovered, names)
  {
    hide DraftText, HasSub, Unlines, ProfileLines, ExpenseLines, PayrollLines;
    out := Unlines(HeaderLines(AutoDiscovered));
    NoDrafts(AutoDiscovered);
    for i := 0 to |names|
      invariant out == DraftText(AutoDiscovered, names[..i])
    {
      DraftStep(AutoDiscovered, names, i, DraftOf(AutoDiscovered, names[i]));
      var gid := ReplaceChar(Upper(names[i]), ' ', '_');
      out := out + Unlines(ProfileLines("auto_discovered_" + gid + "_self_profile", gid));
      if HasSub(gid, "EXEC") || HasSub(gid, "FINANCE") {
        out := out + Unlines(ExpenseLines("auto_discovered_" + gid + "_protect_exec_expense"));
      }
      if HasSub(gid, "PAYROLL") {
        out := out + Unlines(PayrollLines("auto_discovered_payroll_salary_export"));
      }
    }
    assert names[..|names|] == names;
  }

  // ----- what the text parses to -----

  /** A group id that reads back as it is from a bracketed list and from a string literal. */
  predicate PlainGroupId(gid: string) {
    && gid != "" && IsTrimmed(gid) && Clean(gid) && CedarText.Plain(gid)
    && ',' !in gid && gid[0] != '[' && gid[|gid| - 1] != ']'
  }

  predicate PlainId(id: string) {
    Clean(id) && CedarText.Plain(id)
  }

  function ProfilePolicy(id: string, gid: string): Policy {
    Policy(id, Allow, "READ", "EMPLOYEE_PROFILE", [gid], ["SELF"], [], [], "")
  }

  function ExpensePolicy(id: string): Policy {
    Policy(id, Deny, "READ", "TRAVEL_EXPENSE", [], [], ["CFO", "CEO"], ["EXECUTIVE"], "")
  }

  function PayrollPolicy(id: string): Policy {
    Policy(id, Deny, "EXPORT", "SALARY", [], [], ["PAYROLL_ADMIN"], [], "")
  }

  /** The policies meant for one group, in order. */
  function Intended(d: GroupDraft): seq<Policy> {
    [ProfilePolicy(d.profileId, d.gid)]
    + (if d.expenseId.Some? then [ExpensePolicy(d.expenseId.value)] else [])
    + (if d.payrollId.Some? then [PayrollPolicy(d.payrollId.value)] else [])
  }

  function AllIntended(ds: seq<GroupDraft>): seq<Policy> {
    if ds == [] then [] else Intended(ds[0]) + AllIntended(ds[1..])
  }

  /** The brackets around a list are removed, and nothing else. */
  lemma Unbracketed(inner: string)
    requires inner != "" && inner[0] != '[' && inner[|inner| - 1] != ']'
    ensures TrimEndChar(TrimStartChar(Trim("[" + inner + "]"), '['), ']') == inner
  {
    var s, t := "[" + inner + "]", inner + "]";
    assert s[0] == '[' && s[|s| - 1] == ']' && Trim(s) == s;
    assert s[1..] == t && t[0] == inner[0];
    assert TrimStartChar(s, '[') == TrimStartChar(t, '[') == t;
    assert t[..|t| - 1] == inner;
    assert TrimEndChar(t, ']') == TrimEndChar(inner, ']') == inner;
  }

  lemma ListOfOne(gid: string)
    requires PlainGroupId(gid)
    ensures ParseList("[" + gid + "]") == [gid]
  {
    hide CedarText.Plain, SplitOn;
    Unbracketed(gid);
    SplitNothing(gid, ',');
    assert [gid][1..] == [];
    assert NonEmptyTrimmed([gid]) == [gid];
  }

  lemma RoleInReads(list: string)
    requires list != "" && !IsSpace(list[0]) && !IsSpace(list[|list| - 1])
    ensures Trim("role in " + list) == "role in " + list
    ensures RoleArgument("role in " + list) == Some(ParseList(list))
  {
    hide ParseList;
    var rest := "role in " + list;
    assert rest[0] == 'r' && rest[|rest| - 1] == list[|list| - 1];
    assert rest[5] == 'i' && rest[8..] == list;
  }

  lemma RoleInLineSays(gid: string)
    requires PlainGroupId(gid)
    ensures Says(RoleInLine(gid), WhenRoles([gid])) && Printable(RoleInLine(gid))
  {
    hide ParseList, RoleArgument, ClauseOf, CedarText.Plain;
    var list := "[" + gid + "]";
    var rest := "role in " + list;
    var line := RoleInLine(gid);
    assert line[0] == 'w' && line[|line| - 1] == ']';
    ListOfOne(gid);
    RoleInReads(list);
    EffectiveOfPlain(line);
    WhenKeyword(rest, 0);
  }

  lemma ListOfTwo(a: string, b: string)
    requires PlainGroupId(a) && PlainGroupId(b)
    ensures ParseList("[" + (a + ", " + b) + "]") == [a, b]
  {
    hide CedarText.Plain, SplitOn, Trim, TrimStartChar, TrimEndChar, NonEmptyTrimmed;
    var inner := a + ", " + b;
    assert ", " == [','] + " ";
    assert inner == a + [','] + (" " + b);
    assert inner[0] == a[0] && inner[|inner| - 1] == b[|b| - 1];
    Unbracketed(inner);
    SplitOnFirst(a, ',', " " + b);
    SplitNothing(" " + b, ',');
    TrimLeadingSpace(b);
    TwoItems(a, " " + b);
  }

  lemma TwoItems(a: string, b: string)
    requires Trim(a) != "" && Trim(b) != ""
    ensures NonEmptyTrimmed([a] + [b]) == [Trim(a), Trim(b)]
  {
    var items := [a] + [b];
    assert items[1..] == [b] && [b][1..] == [];
    assert NonEmptyTrimmed([b]) == [Trim(b)];
  }

  lemma ExecutivesLineSays()
    ensures Says("unless role in [CFO, CEO]", UnlessRoles(["CFO", "CEO"])) && Printable("unless role in [CFO, CEO]")
  {
    hide ParseList, RoleArgument, ClauseOf, Clean, CedarText.Plain, Effective;
    var list := "[" + ("CFO" + ", " + "CEO") + "]";
    var rest := "role in " + list;
    var line := "unless " + rest;
    ExecutivesText();
    ExecutivesArePlain();
    ExecutivesAreClean();
    ListOfTwo("CFO", "CEO");
    assert list[0] == '[' && list[|list| - 1] == ']';
    RoleInReads(list);
    UnlessKeyword(rest, 0);
    assert line[0] == 'u' && line[|line| - 1] == ']';
    EffectiveOfPlain(line);
  }

  lemma ExecutivesText()
    ensures "unless role in [CFO, CEO]" == "unless " + ("role in " + ("[" + ("CFO" + ", " + "CEO") + "]"))
  {
    assert "[CFO, CEO]" == "[" + ("CFO" + ", " + "CEO") + "]";
  }

  lemma ExecutivesArePlain()
    ensures PlainGroupId("CFO") && PlainGroupId("CEO")
  {}

  lemma ExecutivesAreClean()
    ensures Clean("unless role in [CFO, CEO]")
  {}

  lemma PayrollLineSays()
    ensures Says("unless role == PAYROLL_ADMIN", UnlessRoles(["PAYROLL_ADMIN"]))
    ensures Printable("unless role == PAYROLL_ADMIN")
  {
    hide Says, Printable;
    UnlessLineSays("PAYROLL_ADMIN");
    assert "unless role == " + "PAYROLL_ADMIN" == "unless role == PAYROLL_ADMIN";
  }

  function ProfileBlock(id: string, gid: string): Block {
    Block(OpeningLine(id), id,
          [(RoleInLine(gid), WhenRoles([gid])),
           (HeadLine(Allow, "READ", "EMPLOYEE_PROFILE"), Head(Allow, "READ", "EMPLOYEE_PROFILE")),
           (SubjectLine(true, "SELF"), Dsl.Subject("SELF"))])
  }

  function ExpenseBlock(id: string): Block {
    Block(OpeningLine(id), id,
          [(HeadLine(Deny, "READ", "TRAVEL_EXPENSE"), Head(Deny, "READ", "TRAVEL_EXPENSE")),
           (GroupLine(true, "EXECUTIVE"), Group("EXECUTIVE")),
           ("unless role in [CFO, CEO]", UnlessRoles(["CFO", "CEO"]))])
  }

  function PayrollBlock(id: string): Block {
    Block(OpeningLine(id), id,
          [(HeadLine(Deny, "EXPORT", "SALARY"), Head(Deny, "EXPORT", "SALARY")),
           ("unless role == PAYROLL_ADMIN", UnlessRoles(["PAYROLL_ADMIN"]))])
  }

  /** The lines parse to the given policies and can stand after anything. */
  ghost predicate Yields(lines: seq<string>, ps: seq<Policy>) {
    && UnrawResult(ParseLines(lines)) == Ok(ps)
    && OpensPolicy(lines)
    && forall l | l in lines :: Printable(l)
  }

  lemma YieldsAppend(a: seq<string>, ps: seq<Policy>, b: seq<string>, qs: seq<Policy>)
    requires Yields(a, ps) && Yields(b, qs)
    ensures Yields(a + b, ps + qs)
  {
    hide ParseLines, OpensPolicy, Printable;
    ParseLinesAppend(a, b);
    OpensPolicyAppend(a, b);
    UnrawAppend(ParseLines(a).value, ParseLines(b).value);
  }

  lemma YieldsNothing()
    ensures Yields([], [])
  {
    ParseNothing();
  }

  lemma TextsArePlain()
    ensures WellFormedWord("READ") && WellFormedWord("EXPORT") && WellFormedWord("SALARY")
    ensures WellFormedSubject("SELF") && WellFormedGroup("EXECUTIVE")
  {}

  lemma ResourcesArePlain()
    ensures WellFormedWord("EMPLOYEE_PROFILE") && WellFormedWord("TRAVEL_EXPENSE")
  {}

  /** A readable block of printable lines, closed by an empty line, yields the policy it spells out. */
  lemma BlockYields(b: Block, lines: seq<string>, p: Policy)
    requires Readable(b) && lines == BlockLines(b) + [""]
    requires forall l | l in BlockLines(b) :: Printable(l)
    requires Finish(ExtendAll(NewFields(b.id, b.opening), b.body)).Ok?
    requires UnrawPolicy(Finish(ExtendAll(NewFields(b.id, b.opening), b.body)).value) == p
    ensures Yields(lines, [p])
  {
    hide Readable, BlockLines, ParseLines, OpensPolicy, ExtendAll, Finish, Printable;
    EmptyIsBlank();
    ParseBlock(b, [""]);
    var q := Finish(ExtendAll(NewFields(b.id, b.opening), b.body)).value;
    assert UnrawAll([q]) == [p];
  }

  lemma EmptyIsBlank()
    ensures IsBlank("") && Printable("")
  {}

  function ExtendOne(f: Fields, said: (string, Clause)): Fields {
    Extend(f.(raw := f.raw + "\n" + said.0), said.1)
  }

  lemma BodyCons(said: (string, Clause), rest: seq<(string, Clause)>, f: Fields)
    ensures BodyLines([said] + rest) == [said.0] + BodyLines(rest)
    ensures ExtendAll(f, [said] + rest) == ExtendAll(ExtendOne(f, said), rest)
  {
    hide Extend;
    assert ([said] + rest)[1..] == rest;
  }

  lemma BodyOfThree(a: (string, Clause), b: (string, Clause), c: (string, Clause), f: Fields)
    ensures BodyLines([a, b, c]) == [a.0, b.0, c.0]
    ensures ExtendAll(f, [a, b, c]) == ExtendOne(ExtendOne(ExtendOne(f, a), b), c)
  {
    hide ExtendAll, ExtendOne, BodyLines;
    BodyOfTwo(b, c, ExtendOne(f, a));
    BodyCons(a, [b, c], f);
    assert [a] + [b, c] == [a, b, c];
  }

  lemma BodyOfTwo(a: (string, Clause), b: (string, Clause), f: Fields)
    ensures BodyLines([a, b]) == [a.0, b.0]
    ensures ExtendAll(f, [a, b]) == ExtendOne(ExtendOne(f, a), b)
  {
    hide ExtendOne;
    BodyCons(a, [b], f);
    BodyCons(b, [], ExtendOne(f, a));
    assert [a] + [b] == [a, b] && [b] + [] == [b];
  }

  lemma ProfileYields(id: string, gid: string)
    requires Clean(id) && PlainGroupId(gid)
    ensures Yields(ProfileLines(id, gid), [ProfilePolicy(id, gid)])
  {
    hide Says, Opens, Printable, Yields, PlainGroupId, WellFormedWord, WellFormedSubject, WellFormedGroup,
      OpeningLine, RoleInLine, HeadLine, SubjectLine;
    TextsArePlain();
    ResourcesArePlain();
    OpeningLineOpens(id);
    RoleInLineSays(gid);
    HeadLineSays(Allow, "READ", "EMPLOYEE_PROFILE");
    SubjectLineSays(true, "SELF");
    var b := ProfileBlock(id, gid);
    BodyOfThree(b.body[0], b.body[1], b.body[2], NewFields(b.id, b.opening));
    assert b.body == [b.body[0], b.body[1], b.body[2]];
    BlockYields(b, ProfileLines(id, gid), ProfilePolicy(id, gid));
  }

  lemma ExpenseYields(id: string)
    requires Clean(id)
    ensures Yields(ExpenseLines(id), [ExpensePolicy(id)])
  {
    hide Says, Opens, Printable, Yields, WellFormedWord, WellFormedSubject, WellFormedGroup,
      OpeningLine, HeadLine, GroupLine;
    TextsArePlain();
    ResourcesArePlain();
    OpeningLineOpens(id);
    HeadLineSays(Deny, "READ", "TRAVEL_EXPENSE");
    GroupLineSays(true, "EXECUTIVE");
    ExecutivesLineSays();
    var b := ExpenseBlock(id);
    BodyOfThree(b.body[0], b.body[1], b.body[2], NewFields(b.id, b.opening));
    assert b.body == [b.body[0], b.body[1], b.body[2]];
    BlockYields(b, ExpenseLines(id), ExpensePolicy(id));
  }

  lemma PayrollYields(id: string)
    requires Clean(id)
    ensures Yields(PayrollLines(id), [PayrollPolicy(id)])
  {
    hide Says, Opens, Printable, Yields, WellFormedWord, WellFormedSubject, WellFormedGroup, OpeningLine, HeadLine;
    TextsArePlain();
    OpeningLineOpens(id);
    HeadLineSays(Deny, "EXPORT", "SALARY");
    PayrollLineSays();
    var b := PayrollBlock(id);
    BodyOfTwo(b.body[0], b.body[1], NewFields(b.id, b.opening));
    assert b.body == [b.body[0], b.body[1]];
    BlockYields(b, PayrollLines(id), PayrollPolicy(id));
  }

  /** The names of a draft can be read back. */
  predicate DraftReadable(d: GroupDraft) {
    && PlainGroupId(d.gid) && PlainId(d.profileId)
    && (d.expenseId.Some? ==> PlainId(d.expenseId.value))
    && (d.payrollId.Some? ==> PlainId(d.payrollId.value))
  }

  lemma DraftYields(d: GroupDraft)
    requires DraftReadable(d)
    ensures Yields(DraftLines(d), Intended(d))
  {
    hide Yields, ProfileLines, ExpenseLines, PayrollLines, ProfilePolicy, ExpensePolicy, PayrollPolicy, PlainGroupId;
    var p, ps := ProfileLines(d.profileId, d.gid), [ProfilePolicy(d.profileId, d.gid)];
    var e, es := if d.expenseId.Some? then ExpenseLines(d.expenseId.value) else [],
                 if d.expenseId.Some? then [ExpensePolicy(d.expenseId.value)] else [];
    var q, qs := if d.payrollId.Some? then PayrollLines(d.payrollId.value) else [],
                 if d.payrollId.Some? then [PayrollPolicy(d.payrollId.value)] else [];
    YieldsNothing();
    ProfileYields(d.profileId, d.gid);
    if d.expenseId.Some? { ExpenseYields(d.expenseId.value); }
    if d.payrollId.Some? { PayrollYields(d.payrollId.value); }
    YieldsAppend(p, ps, e, es);
    YieldsAppend(p + e, ps + es, q, qs);
  }

  lemma {:induction false} AllDraftsYield(ds: seq<GroupDraft>)
    requires forall d | d in ds :: DraftReadable(d)
    ensures Yields(AllDraftLines(ds), AllIntended(ds))
  {
    hide Yields, DraftLines, Intended, DraftReadable;
    YieldsNothing();
    if ds != [] {
      assert forall d | d in ds[1..] :: d in ds;
      DraftYields(ds[0]);
      AllDraftsYield(ds[1..]);
      YieldsAppend(DraftLines(ds[0]), Intended(ds[0]), AllDraftLines(ds[1..]), AllIntended(ds[1..]));
    }
  }

  // ----- names -----

  /** The group name becomes a plain group id, and the directory kind can stand in an id. */
  predicate PlainGroup(g: Generator, name: string) {
    PlainGroupId(GroupId(g, name)) && (g.Idp? ==> PlainId(g.kind))
  }

  lemma PlainIdAppend(a: string, b: string)
    requires PlainId(a) && PlainId(b)
    ensures PlainId(a + b)
  {}

  /** Letters, digits and underscores only. */
  predicate Simple(s: string) {
    forall i | 0 <= i < |s| :: CedarText.IsWordChar(s[i])
  }

  lemma SimpleIsPlain(s: string)
    requires Simple(s)
    ensures PlainId(s)
  {}

  lemma FixedIdsArePlain()
    ensures PlainId("draft_group_") && PlainId("_read_profile") && PlainId("draft_") && PlainId("_")
    ensures PlainId("_self_profile") && PlainId("auto_discovered_") && PlainId("_protect_exec_expense")
  {
    hide PlainId;
    SimpleIsPlain("draft_group_");
    SimpleIsPlain("_read_profile");
    SimpleIsPlain("draft_");
    SimpleIsPlain("_");
    SimpleIsPlain("_self_profile");
    SimpleIsPlain("auto_discovered_");
    SimpleIsPlain("_protect_exec_expense");
  }

  lemma LongIdIsPlain()
    ensures PlainId("auto_discovered_payroll_salary_export")
  {
    SimpleIsPlain("auto_discovered_payroll_salary_export");
  }

  lemma WholeIdsArePlain()
    ensures PlainId("draft_protect_executive_expenses") && PlainId("draft_payroll_salary_export")
    ensures PlainId("auto_discovered_payroll_salary_export") && PlainId("draft_payroll_export")
  {
    hide PlainId;
    SimpleIsPlain("draft_payroll_export");
    SimpleIsPlain("draft_payroll_salary_export");
    SimpleIsPlain("draft_protect_executive_expenses");
    LongIdIsPlain();
  }

  lemma DraftNamesReadable(g: Generator, name: string)
    requires PlainGroup(g, name)
    ensures DraftReadable(DraftOf(g, name))
  {
    hide PlainId, HasSub, GroupId;
    var gid := GroupId(g, name);
    FixedIdsArePlain();
    WholeIdsArePlain();
    GroupIdIsPlain(gid);
    match g
    case Ldap =>
      PlainIdAppend("draft_group_", gid);
      PlainIdAppend("draft_group_" + gid, "_read_profile");
    case Idp(kind) =>
      PlainIdAppend("draft_", kind);
      PlainIdAppend("draft_" + kind, "_");
      PlainIdAppend("draft_" + kind + "_", gid);
      PlainIdAppend("draft_" + kind + "_" + gid, "_self_profile");
      PlainIdAppend("draft_" + kind + "_" + gid, "_protect_exec_expense");
    case AutoDiscovered =>
      PlainIdAppend("auto_discovered_", gid);
      PlainIdAppend("auto_discovered_" + gid, "_self_profile");
      PlainIdAppend("auto_discovered_" + gid, "_protect_exec_expense");
  }

  lemma GroupIdIsPlain(gid: string)
    requires PlainGroupId(gid)
    ensures PlainId(gid)
  {}

  // ----- the header -----

  predicate OneLine(s: string) {
    forall i | 0 <= i < |s| :: s[i] != '\n' && s[i] != '\r'
  }

  lemma CommentLine(line: string)
    requires OneLine(line) && "#" <= line
    ensures IsBlank(line) && Printable(line)
  {
    CommentIsBlank(line);
  }

  lemma OneLineAppend(a: string, b: string)
    requires OneLine(a) && OneLine(b)
    ensures OneLine(a + b)
  {}

  lemma HeaderPieces()
    ensures OneLine("# Review and commit manually ") && OneLine("\U{2014} never auto-deployed.")
    ensures OneLine("# DRAFT policies generated ") && OneLine("from LDAP group sync")
    ensures OneLine("# Auto-Discovered baseline ")
  {}

  lemma MoreHeaderPieces()
    ensures OneLine("policies across LDAP, AD, ") && OneLine("Entra ID, and Cognito stores.")
    ensures OneLine("# DRAFT policies from ")
    ensures OneLine(" sync \U{2014} review, commit, ") && OneLine("sign, deploy. Never auto-applied.")
  {}

  lemma PlainIsOneLine(s: string)
    requires PlainId(s)
    ensures OneLine(s)
  {}

  lemma FixedHeaders()
    ensures forall l | l in [LDAP_LINE, REVIEW_LINE, AUTO_LINE] :: OneLine(l) && "#" <= l
  {
    hide OneLine;
    HeaderPieces();
    MoreHeaderPieces();
    OneLineAppend("# Review and commit manually ", "\U{2014} never auto-deployed.");
    OneLineAppend("# DRAFT policies generated ", "from LDAP group sync");
    OneLineAppend("# Auto-Discovered baseline ", "policies across LDAP, AD, ");
    OneLineAppend("# Auto-Discovered baseline " + "policies across LDAP, AD, ", "Entra ID, and Cognito stores.");
  }

  lemma IdpHeader(kind: string)
    requires PlainId(kind)
    ensures OneLine(IdpLine(kind)) && "#" <= IdpLine(kind)
  {
    hide OneLine, PlainId;
    MoreHeaderPieces();
    PlainIsOneLine(kind);
    OneLineAppend(" sync \U{2014} review, commit, ", "sign, deploy. Never auto-applied.");
    OneLineAppend("# DRAFT policies from ", kind);
    OneLineAppend("# DRAFT policies from " + kind, " sync \U{2014} review, commit, " + "sign, deploy. Never auto-applied.");
  }

  lemma HeaderIsBlank(g: Generator)
    requires g.Idp? ==> PlainId(g.kind)
    ensures forall l | l in HeaderLines(g) :: IsBlank(l) && Printable(l)
  {
    hide IsBlank, Printable, OneLine, IdpLine, LDAP_LINE, REVIEW_LINE, AUTO_LINE;
    EmptyIsBlank();
    FixedHeaders();
    if g.Idp? { IdpHeader(g.kind); }
    forall l | l in HeaderLines(g)
      ensures IsBlank(l) && Printable(l)
    {
      if l != "" {
        assert g.Idp? || l in [LDAP_LINE, REVIEW_LINE, AUTO_LINE];
        CommentLine(l);
      }
    }
  }

  /**
   * Whatever the generator, the text it writes for plain groups parses to exactly the intended
   * policies, group by group.
   */
  lemma {:induction false} DraftsParse(g: Generator, names: seq<string>)
    requires forall n | n in names :: PlainGroup(g, n)
    requires g.Idp? ==> PlainId(g.kind)
    ensures UnrawResult(Parse(DraftText(g, names))) == Ok(AllIntended(DraftsOf(g, names)))
  {
    hide PlainGroup, PlainId, DraftReadable, AllDraftLines, AllIntended, HeaderLines, Printable, IsBlank, ParseLines, OpensPolicy, DraftOf;
    var ds := DraftsOf(g, names);
    forall d | d in ds
      ensures DraftReadable(d)
    {
      var i :| 0 <= i < |ds| && ds[i] == d;
      assert names[i] in names;
      DraftNamesReadable(g, names[i]);
    }
    AllDraftsYield(ds);
    HeaderIsBlank(g);
    var h, b := HeaderLines(g), AllDraftLines(ds);
    assert forall l | l in h + b :: Printable(l);
    LinesOfUnlines(h + b);
    BlankLinesParse(h);
    ParseLinesAppend(h, b);
    assert [] + ParseLines(b).value == ParseLines(b).value;
  }

  lemma BlankLinesParse(lines: seq<string>)
    requires forall l | l in lines :: IsBlank(l)
    ensures ParseLines(lines) == Ok([])
  {
    hide IsBlank;
    RunBlanks(lines, 1, INITIAL);
  }

  // ----- what the drafts allow -----

  lemma {:induction false} IntendedPolicies(ds: seq<GroupDraft>, p: Policy)
    ensures p in AllIntended(ds) ==> exists d :: d in ds && p in Intended(d)
    ensures forall d | d in ds :: ProfilePolicy(d.profileId, d.gid) in AllIntended(ds)
  {
    hide ProfilePolicy, ExpensePolicy, PayrollPolicy;
    if ds != [] {
      IntendedPolicies(ds[1..], p);
      assert forall d :: d in ds <==> d == ds[0] || d in ds[1..];
      assert ProfilePolicy(ds[0].profileId, ds[0].gid) in Intended(ds[0]);
    }
  }

  lemma ProfileHolds(id: string, gid: string, req: AuthzRequest)
    ensures Holds(ProfilePolicy(id, gid), req) <==>
      && Upper(req.action) == "READ" && Upper(req.resource.kind) == "EMPLOYEE_PROFILE"
      && SubjectIsSelf(req) && gid in req.principal.roles
  {
    hide Upper, SubjectIsSelf, SubjectInDirectReports, SubjectGroups;
    var p := ProfilePolicy(id, gid);
    assert Overlap(p.whenRoles, req.principal.roles) <==> gid in req.principal.roles;
    assert "SELF" in p.whereSubjects;
    assert !Overlap([], req.principal.roles);
  }

  lemma DenialsElsewhere(d: GroupDraft, p: Policy, req: AuthzRequest)
    requires p in Intended(d) && p.effect != Allow && Holds(p, req)
    ensures Upper(req.resource.kind) != "EMPLOYEE_PROFILE"
  {
    hide Upper;
  }

  lemma IntendedCompilable(g: Generator, names: seq<string>)
    requires forall n | n in names :: PlainGroup(g, n)
    requires g.Idp? ==> PlainId(g.kind)
    ensures Compilable(AllIntended(DraftsOf(g, names)))
  {
    hide PlainGroup, DraftReadable, AllIntended, DraftOf, Intended, PlainPolicy, WellFormed;
    var ds := DraftsOf(g, names);
    forall p | p in AllIntended(ds)
      ensures PlainPolicy(p) && WellFormed(p)
    {
      IntendedPolicies(ds, p);
      var d :| d in ds && p in Intended(d);
      var i :| 0 <= i < |ds| && ds[i] == d;
      assert names[i] in names;
      DraftNamesReadable(g, names[i]);
      IntendedIsPlain(d, p);
    }
  }

  lemma IntendedIsPlain(d: GroupDraft, p: Policy)
    requires DraftReadable(d) && p in Intended(d)
    ensures PlainPolicy(p) && WellFormed(p)
  {
    hide WellFormedWord, WellFormedSubject, WellFormedGroup, CedarText.Plain, Clean;
    TextsArePlain();
    ResourcesArePlain();
    FixedNamesPlain();
    FixedRolesWellFormed();
  }

  lemma FixedNamesPlain()
    ensures CedarText.Plain("READ") && CedarText.Plain("EXPORT") && CedarText.Plain("SALARY")
    ensures CedarText.Plain("EMPLOYEE_PROFILE") && CedarText.Plain("TRAVEL_EXPENSE")
    ensures CedarText.Plain("SELF") && CedarText.Plain("EXECUTIVE")
    ensures CedarText.Plain("CFO") && CedarText.Plain("CEO") && CedarText.Plain("PAYROLL_ADMIN")
  {
    hide CedarText.Plain;
    SimpleIsPlain("READ");
    SimpleIsPlain("EXPORT");
    SimpleIsPlain("SALARY");
    SimpleIsPlain("EMPLOYEE_PROFILE");
    SimpleIsPlain("TRAVEL_EXPENSE");
    SimpleIsPlain("SELF");
    SimpleIsPlain("EXECUTIVE");
    SimpleIsPlain("CFO");
    SimpleIsPlain("CEO");
    SimpleIsPlain("PAYROLL_ADMIN");
  }

  lemma FixedRolesWellFormed()
    ensures WellFormedRole("CFO") && WellFormedRole("CEO") && WellFormedRole("PAYROLL_ADMIN")
  {}

  /** A group whose id is one of the principal's roles. */
  predicate InGroup(ds: seq<GroupDraft>, req: AuthzRequest) {
    exists d :: d in ds && d.gid in req.principal.roles
  }

  predicate ReadsOwnProfile(req: AuthzRequest) {
    Upper(req.action) == "READ" && Upper(req.resource.kind) == "EMPLOYEE_PROFILE" && SubjectIsSelf(req)
  }

  lemma PermitNeedsGroup(ds: seq<GroupDraft>, req: AuthzRequest)
    requires Permitted(AllIntended(ds), req)
    ensures ReadsOwnProfile(req) && InGroup(ds, req)
  {
    hide AllIntended, Intended, ProfilePolicy, Holds, Upper, SubjectIsSelf;
    var ps := AllIntended(ds);
    var p :| p in ps && p.effect == Allow && Holds(p, req);
    IntendedPolicies(ds, p);
    var d :| d in ds && p in Intended(d);
    AllowIsProfile(d, p);
    ProfileHolds(d.profileId, d.gid, req);
  }

  lemma GroupPermits(ds: seq<GroupDraft>, req: AuthzRequest)
    requires ReadsOwnProfile(req) && InGroup(ds, req)
    ensures Permitted(AllIntended(ds), req)
  {
    hide AllIntended, Intended, ProfilePolicy, Holds, Upper, SubjectIsSelf;
    var ps := AllIntended(ds);
    var d :| d in ds && d.gid in req.principal.roles;
    var p := ProfilePolicy(d.profileId, d.gid);
    IntendedPolicies(ds, p);
    ProfileHolds(d.profileId, d.gid, req);
    ProfileIsAllow(d.profileId, d.gid);
    forall q | q in ps && q.effect != Allow
      ensures !Holds(q, req)
    {
      IntendedPolicies(ds, q);
      var e :| e in ds && q in Intended(e);
      if Holds(q, req) { DenialsElsewhere(e, q, req); }
    }
  }

  /**
   * Compiled on its own, a draft allows a request exactly when it reads the principal's own profile
   * and the principal holds a role equal to the id of one of the groups.
   */
  lemma {:induction false} DraftsAllow(g: Generator, names: seq<string>, req: AuthzRequest, host: Host)
    requires forall n | n in names :: PlainGroup(g, n)
    requires g.Idp? ==> PlainId(g.kind)
    requires Evaluable(req, host)
    ensures Allows(AllIntended(DraftsOf(g, names)), req, host) <==>
      ReadsOwnProfile(req) && exists n :: n in names && GroupId(g, n) in req.principal.roles
  {
    hide PlainGroup, PlainId, AllIntended, Evaluable, Allows, Compilable, Permitted, ReadsOwnProfile, GroupId;
    var ds := DraftsOf(g, names);
    IntendedCompilable(g, names);
    CompiledMeansPermitted(AllIntended(ds), req, host);
    if Permitted(AllIntended(ds), req) { PermitNeedsGroup(ds, req); }
    if ReadsOwnProfile(req) && InGroup(ds, req) { GroupPermits(ds, req); }
    GroupNames(g, names, req);
  }

  /** End to end: the decisions of a generated text, once parsed and compiled. */
  lemma {:induction false} DraftTextAllows(g: Generator, names: seq<string>, ps: seq<Policy>, req: AuthzRequest, host: Host)
    requires forall n | n in names :: PlainGroup(g, n)
    requires g.Idp? ==> PlainId(g.kind)
    requires Parse(DraftText(g, names)) == Ok(ps) && Evaluable(req, host)
    ensures Allows(ps, req, host) <==>
      ReadsOwnProfile(req) && exists n :: n in names && GroupId(g, n) in req.principal.roles
  {
    hide PlainGroup, PlainId, AllIntended, Evaluable, Allows, ReadsOwnProfile, GroupId, Parse, DraftText, Outcome;
    DraftsParse(g, names);
    DraftsAllow(g, names, req, host);
    RawIrrelevant(ps, req, host);
  }

  lemma GroupNames(g: Generator, names: seq<string>, req: AuthzRequest)
    ensures InGroup(DraftsOf(g, names), req) <==> exists n :: n in names && GroupId(g, n) in req.principal.roles
  {
    hide GroupId, DraftOf;
    var ds := DraftsOf(g, names);
    forall i | 0 <= i < |ds| ensures ds[i].gid == GroupId(g, names[i]) { DraftGroup(g, names[i]); }
    if d :| d in ds && d.gid in req.principal.roles {
      var i :| 0 <= i < |ds| && ds[i] == d;
      assert names[i] in names;
    }
    if n :| n in names && GroupId(g, n) in req.principal.roles {
      var i :| 0 <= i < |names| && names[i] == n;
      assert ds[i] in ds;
    }
  }

  lemma DraftGroup(g: Generator, name: string)
    ensures DraftOf(g, name).gid == GroupId(g, name)
  {
    hide GroupId, HasSub;
  }

  lemma ProfileIsAllow(id: string, gid: string)
    ensures ProfilePolicy(id, gid).effect == Allow
  {}

  lemma AllowIsProfile(d: GroupDraft, p: Policy)
    requires p in Intended(d) && p.effect == Allow
    ensures p == ProfilePolicy(d.profileId, d.gid)
  {}

  // ----- what the drafts of one group are -----

  /** Every group drafts the reading of the own profile, and some names more. */
  ghost predicate DraftsFor(ps: seq<Policy>, gid: string, profileId: string, expense: bool, expenseId: string,
                            payroll: bool, payrollId: string) {
    ps == [Policy(profileId, Allow, "READ", "EMPLOYEE_PROFILE", [gid], ["SELF"], [], [], "")]
          + (if expense then [Policy(expenseId, Deny, "READ", "TRAVEL_EXPENSE", [], [], ["CFO", "CEO"], ["EXECUTIVE"], "")] else [])
          + (if payroll then [Policy(payrollId, Deny, "EXPORT", "SALARY", [], [], ["PAYROLL_ADMIN"], [], "")] else [])
  }

  /** Groups of an LDAP directory, named in upper case. */
  lemma LdapDrafts(name: string)
    ensures var gid := Upper(name);
            DraftsFor(Intended(DraftOf(Ldap, name)), gid, "draft_group_" + gid + "_read_profile",
                      Occurs(gid, "EXECUTIVE"), "draft_protect_executive_expenses",
                      Occurs(gid, "PAYROLL"), "draft_payroll_salary_export")
  {
    hide HasSub, Upper;
    var gid := Upper(name);
    HasSubIff(gid, "EXECUTIVE");
    HasSubIff(gid, "PAYROLL");
    assert "EXECUTIVE" == "" + "EXECUTIVE" + "";
  }

  /** Groups of an identity provider, named in upper case with underscores for blanks. */
  lemma IdpDrafts(kind: string, name: string)
    ensures var gid := ReplaceChar(Upper(name), ' ', '_');
            DraftsFor(Intended(DraftOf(Idp(kind), name)), gid, "draft_" + kind + "_" + gid + "_self_profile",
                      Occurs(gid, "EXEC") || Occurs(gid, "FINANCE"), "draft_" + kind + "_" + gid + "_protect_exec_expense",
                      Occurs(gid, "PAYROLL"), "draft_payroll_export")
  {
    hide HasSub, Upper, ReplaceChar;
    var gid := ReplaceChar(Upper(name), ' ', '_');
    HasSubIff(gid, "EXEC");
    HasSubIff(gid, "FINANCE");
    HasSubIff(gid, "PAYROLL");
  }

  lemma AutoDiscoveredDrafts(name: string)
    ensures var gid := ReplaceChar(Upper(name), ' ', '_');
            DraftsFor(Intended(DraftOf(AutoDiscovered, name)), gid, "auto_discovered_" + gid + "_self_profile",
                      Occurs(gid, "EXEC") || Occurs(gid, "FINANCE"), "auto_discovered_" + gid + "_protect_exec_expense",
                      Occurs(gid, "PAYROLL"), "auto_discovered_payroll_salary_export")
  {
    hide HasSub, Upper, ReplaceChar;
    var gid := ReplaceChar(Upper(name), ' ', '_');
    HasSubIff(gid, "EXEC");
    HasSubIff(gid, "FINANCE");
    HasSubIff(gid, "PAYROLL");
  }
}
