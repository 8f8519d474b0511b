/** Reading the Cedar fragment back from text: a tokenizer and a recursive-descent parser. */
module CedarText {
  import opened Text
  import opened Cedar

  datatype Token = Word(s: string) | Quoted(s: string) | Mark(s: string)

  // ----- tokens -----

  predicate IsWordChar(c: char) {
    'a' <= c <= 'z' || 'A' <= c <= 'Z' || '0' <= c <= '9' || c == '_'
  }

  predicate IsWord(s: string) {
    s != "" && !('0' <= s[0] <= '9') && forall i | 0 <= i < |s| :: IsWordChar(s[i])
  }

  function WordSpan(s: string): (n: nat)
    ensures n <= |s|
    ensures s != "" && IsWordChar(s[0]) ==> n > 0
  {
    if s == "" || !IsWordChar(s[0]) then 0 else 1 + WordSpan(s[1..])
  }

  predicate IsScalar(n: nat) {
    n < 0xD800 || 0xE000 <= n < 0x11_0000
  }

  /** The digits of a Unicode escape, at most six, up to the closing brace. */
  function ReadUnicode(s: string, value: nat, digits: nat): Option<(char, string)>
    decreases s
  {
    if s == "" then None
    else if s[0] == '}' then if digits > 0 && IsScalar(value) then Some((value as char, s[1..])) else None
    else if s[0] == '_' && digits > 0 then ReadUnicode(s[1..], value, digits)
    else if HexValue(s[0]).None? || digits >= 6 then None
    else ReadUnicode(s[1..], 16 * value + HexValue(s[0]).value, digits + 1)
  }

  const SIMPLE_ESCAPES := map['n' := '\n', 'r' := '\r', 't' := '\t', '0' := '\0', '\'' := '\'', '"' := '"', '\\' := '\\']

  /** The character that an escape stands for, after its backslash, and what follows it. */
  function ReadEscape(s: string): Option<(char, string)> {
    if s == "" then None
    else if s[0] in SIMPLE_ESCAPES then Some((SIMPLE_ESCAPES[s[0]], s[1..]))
    else if s[0] == 'x' then
      if |s| >= 3 && HexValue(s[1]).Some? && HexValue(s[2]).Some? && HexValue(s[1]).value < 8 then
        Some(((16 * HexValue(s[1]).value + HexValue(s[2]).value) as char, s[3..]))
      else None
    else if s[0] == 'u' && |s| >= 2 && s[1] == '{' then ReadUnicode(s[2..], 0, 0)
    else None
  }

  lemma {:induction false} UnicodeShortens(s: string, value: nat, digits: nat)
    ensures var r := ReadUnicode(s, value, digits); r.Some? ==> |r.value.1| < |s|
    decreases s
  {
    if s != "" && s[0] == '_' && digits > 0 {
      UnicodeShortens(s[1..], value, digits);
    } else if s != "" && s[0] != '}' && HexValue(s[0]).Some? && digits < 6 {
      UnicodeShortens(s[1..], 16 * value + HexValue(s[0]).value, digits + 1);
    }
  }

  lemma EscapeShortens(s: string)
    ensures var r := ReadEscape(s); r.Some? ==> |r.value.1| < |s|
  {
    hide ReadUnicode, HexValue, SIMPLE_ESCAPES;
    if s != "" && s[0] == 'u' && |s| >= 2 {
      UnicodeShortens(s[2..], 0, 0);
    }
  }

  /** The contents of a string literal and what follows its closing quote. */
  function ReadQuoted(s: string): (r: Option<(string, string)>)
    ensures r.Some? ==> |r.value.1| < |s|
    decreases |s|
  {
    if s == "" || s[0] == '\r' then None
    else if s[0] == '"' then Some(("", s[1..]))
    else if s[0] == '\\' then
      EscapeShortens(s[1..]);
      match ReadEscape(s[1..])
      case None => None
      case Some((c, rest)) => Consed(c, ReadQuoted(rest))
    else Consed(s[0], ReadQuoted(s[1..]))
  }

  function AfterLine(s: string): (r: string)
    ensures |r| <= |s|
  {
    if s == "" || s[0] == '\n' then s else AfterLine(s[1..])
  }

  function Before(ts: seq<Token>, r: Option<seq<Token>>): Option<seq<Token>> {
    match r case None => None case Some(us) => Some(ts + us)
  }

  predicate IsDoubleMark(s: string) {
    s == "==" || s == "::" || s == "&&" || s == "||"
  }

  predicate IsSingleMark(c: char) {
    c == '@' || c == '(' || c == ')' || c == '{' || c == '}' || c == ',' || c == ';' || c == '.' || c == '!'
  }

  function Tokens(s: string): Option<seq<Token>>
    decreases |s|
  {
    if s == "" then Some([])
    else if IsSpace(s[0]) then Tokens(s[1..])
    else if s[0] == '"' then
      match ReadQuoted(s[1..])
      case None => None
      case Some((v, rest)) => Before([Quoted(v)], Tokens(rest))
    else if IsWordChar(s[0]) then
      var n := WordSpan(s);
      if IsWord(s[..n]) then Before([Word(s[..n])], Tokens(s[n..])) else None
    else if IsSingleMark(s[0]) then Before([Mark([s[0]])], Tokens(s[1..]))
    else if |s| >= 2 && s[0] == '/' && s[1] == '/' then Tokens(AfterLine(s))
    else if |s| >= 2 && IsDoubleMark(s[..2]) then Before([Mark(s[..2])], Tokens(s[2..]))
    else None
  }

  /** `text` contributes the tokens `ts` in front of `rest`. */
  ghost predicate Reads(text: string, ts: seq<Token>, rest: string) {
    Tokens(text + rest) == Before(ts, Tokens(rest))
  }

  /** A word that ends just before `rest` is complete. */
  predicate AtBoundary(rest: string) {
    rest == "" || !IsWordChar(rest[0])
  }

  /** Text read in two pieces. */
  lemma ReadsAppend(t1: string, ts1: seq<Token>, t2: string, ts2: seq<Token>, t: string, ts: seq<Token>, rest: string)
    requires Reads(t1, ts1, t2 + rest) && Reads(t2, ts2, rest)
    requires t == t1 + t2 && ts == ts1 + ts2
    ensures Reads(t, ts, rest)
  {
    hide Tokens;
    Assoc(t1, t2, rest);
    if Tokens(rest).Some? {
      Assoc(ts1, ts2, Tokens(rest).value);
    }
  }

  lemma BeforeNothing(r: Option<seq<Token>>)
    ensures Before([], r) == r
  {
    if r.Some? {
      assert [] + r.value == r.value;
    }
  }

  lemma ReadsSpace(c: char, rest: string)
    requires IsSpace(c)
    ensures Reads([c], [], rest)
  {
    var s := [c] + rest;
    assert s[1..] == rest && s[0] == c;
    assert Tokens(s) == Tokens(rest);
    BeforeNothing(Tokens(rest));
  }

  lemma ReadsMark(c: char, rest: string)
    requires IsSingleMark(c)
    ensures Reads([c], [Mark([c])], rest)
  {
    var s := [c] + rest;
    assert s[1..] == rest && s[0] == c;
  }

  lemma ReadsDoubleMark(m: string, rest: string)
    requires IsDoubleMark(m)
    ensures Reads(m, [Mark(m)], rest)
  {
    var s := m + rest;
    assert s[..2] == m && s[2..] == rest && s[0] == m[0];
  }

  lemma {:induction false} WordSpanAt(w: string, rest: string)
    requires forall i | 0 <= i < |w| :: IsWordChar(w[i])
    requires AtBoundary(rest)
    ensures WordSpan(w + rest) == |w|
    decreases w
  {
    hide IsWordChar;
    if w == "" {
      assert w + rest == rest;
    } else {
      assert (w + rest)[1..] == w[1..] + rest;
      WordSpanAt(w[1..], rest);
    }
  }

  lemma ReadsWord(w: string, rest: string)
    requires IsWord(w) && AtBoundary(rest)
    ensures Reads(w, [Word(w)], rest)
  {
    var s := w + rest;
    WordSpanAt(w, rest);
    assert s[0] == w[0];
    assert s[..|w|] == w && s[|w|..] == rest;
  }

  /** A name that needs no escaping inside a string literal. */
  predicate Plain(s: string) {
    '"' !in s && '\\' !in s && '\r' !in s
  }

  lemma {:induction false} ReadQuotedPlain(v: string, rest: string)
    requires Plain(v)
    ensures ReadQuoted(v + "\"" + rest) == Some((v, rest))
  {
    var s := v + "\"" + rest;
    if v == "" {
      assert s[1..] == rest;
    } else {
      assert s[0] == v[0] && v[0] in v && v == [v[0]] + v[1..];
      assert s[1..] == v[1..] + "\"" + rest;
      ReadQuotedPlain(v[1..], rest);
    }
  }

  lemma ReadsQuoted(v: string, rest: string)
    requires Plain(v)
    ensures Reads("\"" + v + "\"", [Quoted(v)], rest)
  {
    var s := "\"" + v + "\"" + rest;
    assert s[1..] == v + "\"" + rest;
    ReadQuotedPlain(v, rest);
  }

  lemma {:induction false} AfterLineAt(line: string, rest: string)
    requires '\n' !in line
    ensures AfterLine(line + "\n" + rest) == "\n" + rest
  {
    var s := line + "\n" + rest;
    if line == "" {
      assert s == "\n" + rest;
    } else {
      assert s[1..] == line[1..] + "\n" + rest;
      AfterLineAt(line[1..], rest);
    }
  }

  lemma ReadsComment(text: string, rest: string)
    requires '\n' !in text
    ensures Reads("//" + text + "\n", [], rest)
  {
    var line := "//" + text;
    var s := line + "\n" + rest;
    AfterLineAt(line, rest);
    assert s[0] == '/' && s[1] == '/';
    assert Tokens(s) == Tokens("\n" + rest);
    ReadsSpace('\n', rest);
  }

  // ----- expressions -----

  type ExprRest = Option<(Expr, seq<Token>)>

  function ParseOr(t: seq<Token>): (r: ExprRest)
    ensures r.Some? ==> |r.value.1| < |t|
    decreases |t|, 6
  {
    match ParseAnd(t)
    case None => None
    case Some((e, rest)) => ParseOrTail(e, rest)
  }

  function ParseOrTail(left: Expr, t: seq<Token>): (r: ExprRest)
    ensures r.Some? ==> |r.value.1| <= |t|
    decreases |t|, 0
  {
    if t != [] && t[0] == Mark("||") then
      match ParseAnd(t[1..])
      case None => None
      case Some((e, rest)) => ParseOrTail(Or(left, e), rest)
    else Some((left, t))
  }

  function ParseAnd(t: seq<Token>): (r: ExprRest)
    ensures r.Some? ==> |r.value.1| < |t|
    decreases |t|, 5
  {
    match ParseRelation(t)
    case None => None
    case Some((e, rest)) => ParseAndTail(e, rest)
  }

  function ParseAndTail(left: Expr, t: seq<Token>): (r: ExprRest)
    ensures r.Some? ==> |r.value.1| <= |t|
    decreases |t|, 0
  {
    if t != [] && t[0] == Mark("&&") then
      match ParseRelation(t[1..])
      case None => None
      case Some((e, rest)) => ParseAndTail(And(left, e), rest)
    else Some((left, t))
  }

  function ParseRelation(t: seq<Token>): (r: ExprRest)
    ensures r.Some? ==> |r.value.1| < |t|
    decreases |t|, 4
  {
    match ParseUnary(t)
    case None => None
    case Some((e, rest)) =>
      if rest != [] && rest[0] == Mark("==") then
        match ParseUnary(rest[1..])
        case None => None
        case Some((e2, rest2)) => Some((Eq(e, e2), rest2))
      else Some((e, rest))
  }

  function ParseUnary(t: seq<Token>): (r: ExprRest)
    ensures r.Some? ==> |r.value.1| < |t|
    decreases |t|, 3
  {
    if t != [] && t[0] == Mark("!") then
      match ParseUnary(t[1..])
      case None => None
      case Some((e, rest)) => Some((Not(e), rest))
    else
      match ParsePrimary(t)
      case None => None
      case Some((e, rest)) => ParseMembers(e, rest)
  }

  function ParsePrimary(t: seq<Token>): (r: ExprRest)
    ensures r.Some? ==> |r.value.1| < |t|
    decreases |t|, 2
  {
    if t == [] then None
    else if t[0] == Word("context") then Some((ContextVar, t[1..]))
    else if t[0].Quoted? then Some((Lit(t[0].s), t[1..]))
    else if t[0] == Mark("(") then
      match ParseOr(t[1..])
      case None => None
      case Some((e, rest)) =>
        if rest != [] && rest[0] == Mark(")") then Some((e, rest[1..])) else None
    else None
  }

  /** `.name` and `.contains(...)` after a primary expression. */
  function ParseMembers(e: Expr, t: seq<Token>): (r: ExprRest)
    ensures r.Some? ==> |r.value.1| <= |t|
    decreases |t|, 1
  {
    if |t| >= 2 && t[0] == Mark(".") && t[1].Word? then
      if |t| >= 3 && t[2] == Mark("(") then
        if t[1].s != "contains" then None
        else
          match ParseOr(t[3..])
          case None => None
          case Some((arg, rest)) =>
            if rest != [] && rest[0] == Mark(")") then ParseMembers(Contains(e, arg), rest[1..]) else None
      else ParseMembers(Attr(e, t[1].s), t[2..])
    else Some((e, t))
  }

  // ----- policies -----

  /** The fixed tokens around the four varying parts of a policy. */
  const BEFORE_ID := [Mark("@"), Word("id"), Mark("(")]
  const AFTER_ID := [Mark(")")]
  const BEFORE_ACTION := [Mark("("), Word("principal"), Mark(","), Word("action"), Mark("=="), Word("Action"), Mark("::")]
  const AFTER_ACTION := [Mark(","), Word("resource"), Mark(")"), Word("when"), Mark("{")]
  const AFTER_CONDITION := [Mark("}"), Mark(";")]

  function Expect(ts: seq<Token>, t: seq<Token>): Option<seq<Token>> {
    if ts <= t then Some(t[|ts|..]) else None
  }

  function ParsePolicy(t: seq<Token>): (r: Option<(CedarPolicy, seq<Token>)>)
    ensures r.Some? ==> |r.value.1| < |t|
  {
    var t1 := Expect(BEFORE_ID, t);
    if t1.None? || t1.value == [] || !t1.value[0].Quoted? then None else
    var id := t1.value[0].s;
    var t2 := Expect(AFTER_ID, t1.value[1..]);
    if t2.None? || t2.value == [] || !(t2.value[0] == Word("permit") || t2.value[0] == Word("forbid")) then None else
    var permit := t2.value[0] == Word("permit");
    var t3 := Expect(BEFORE_ACTION, t2.value[1..]);
    if t3.None? || t3.value == [] || !t3.value[0].Quoted? then None else
    var action := t3.value[0].s;
    var t4 := Expect(AFTER_ACTION, t3.value[1..]);
    if t4.None? then None else
    match ParseOr(t4.value)
    case None => None
    case Some((condition, t5)) =>
      match Expect(AFTER_CONDITION, t5)
      case None => None
      case Some(rest) => Some((CedarPolicy(id, permit, action, condition), rest))
  }

  function ParsePolicies(t: seq<Token>): Option<seq<CedarPolicy>>
    decreases |t|
  {
    if t == [] then Some([])
    else
      match ParsePolicy(t)
      case None => None
      case Some((p, rest)) =>
        match ParsePolicies(rest)
        case None => None
        case Some(ps) => Some([p] + ps)
  }

  /** `PolicySet::from_str` on the fragment. */
  function ParseCedar(text: string): Option<seq<CedarPolicy>> {
    match Tokens(text)
    case None => None
    case Some(t) => ParsePolicies(t)
  }
}
