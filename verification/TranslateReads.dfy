/** Reading translated text back: the Cedar text of a policy list denotes exactly its policies. */
module TranslateReads {
  import opened Text
  import Dsl
  import opened Cedar
  import opened CedarText
  import opened Translate

  // ----- tokens of each piece of text -----

  function AtomTokens(a: Atom): seq<Token> {
    match a
    case Has(attr, v) =>
      [Word("context"), Mark("."), Word(attr), Mark("."), Word("contains"), Mark("("), Quoted(v), Mark(")")]
    case Is(attr, v) => [Word("context"), Mark("."), Word(attr), Mark("=="), Quoted(v)]
    case Flag(attr) => [Word("context"), Mark("."), Word(attr)]
  }

  predicate AtomOk(a: Atom) {
    IsWord(a.attr) && (!a.Flag? ==> Plain(a.v))
  }

  function DisjunctionTokens(atoms: seq<Atom>): seq<Token>
    requires atoms != []
  {
    if |atoms| == 1 then AtomTokens(atoms[0])
    else AtomTokens(atoms[0]) + ([Mark("||")] + DisjunctionTokens(atoms[1..]))
  }

  predicate PartReadable(p: Part) {
    match p
    case One(a) => AtomOk(a)
    case AnyOf(atoms) => atoms != [] && forall a | a in atoms :: AtomOk(a)
    case NoneOf(atoms) => atoms != [] && forall a | a in atoms :: AtomOk(a)
  }

  function PartTokens(p: Part): seq<Token>
    requires PartOk(p)
  {
    match p
    case One(a) => AtomTokens(a)
    case AnyOf(atoms) => [Mark("(")] + (DisjunctionTokens(atoms) + [Mark(")")])
    case NoneOf(atoms) => [Mark("!")] + ([Mark("(")] + (DisjunctionTokens(atoms) + [Mark(")")]))
  }

  function ConjunctionTokens(parts: seq<Part>): seq<Token>
    requires parts != [] && forall p | p in parts :: PartOk(p)
  {
    if |parts| == 1 then PartTokens(parts[0])
    else PartTokens(parts[0]) + ([Mark("&&")] + ConjunctionTokens(parts[1..]))
  }

  // ----- tokenizing -----

  lemma ReadsContextDot(rest: string)
    ensures Reads("context.", [Word("context"), Mark(".")], rest)
  {
    hide Tokens;
    ReadsMark('.', rest);
    assert ("." + rest)[0] == '.';
    ReadsWord("context", "." + rest);
    ReadsAppend("context", [Word("context")], ".", [Mark(".")], "context.", [Word("context"), Mark(".")], rest);
  }

  lemma ReadsContains(v: string, rest: string)
    requires Plain(v)
    ensures Reads(".contains(\"" + v + "\")", [Mark("."), Word("contains"), Mark("("), Quoted(v), Mark(")")], rest)
  {
    hide Tokens;
    var q := "\"" + v + "\"";
    var t1, k1 := q + ")", [Quoted(v), Mark(")")];
    var t2, k2 := "(" + t1, [Mark("("), Quoted(v), Mark(")")];
    var t3, k3 := "contains" + t2, [Word("contains"), Mark("("), Quoted(v), Mark(")")];
    ReadsMark(')', rest);
    ReadsQuoted(v, ")" + rest);
    ReadsAppend(q, [Quoted(v)], ")", [Mark(")")], t1, k1, rest);
    ReadsMark('(', t1 + rest);
    ReadsAppend("(", [Mark("(")], t1, k1, t2, k2, rest);
    assert (t2 + rest)[0] == '(';
    ReadsWord("contains", t2 + rest);
    ReadsAppend("contains", [Word("contains")], t2, k2, t3, k3, rest);
    ReadsMark('.', t3 + rest);
    ReadsAppend(".", [Mark(".")], t3, k3, "." + t3, [Mark(".")] + k3, rest);
    ContainsText(v);
    assert [Mark(".")] + k3 == [Mark("."), Word("contains"), Mark("("), Quoted(v), Mark(")")];
  }

  lemma ContainsText(v: string)
    ensures ".contains(\"" + v + "\")" == "." + ("contains" + ("(" + ("\"" + v + "\"" + ")")))
  {
    assert "." + "contains" + "(" + "\"" == ".contains(\"";
    assert "\"" + ")" == "\")";
  }

  lemma ReadsEquals(v: string, rest: string)
    requires Plain(v)
    ensures Reads(" == \"" + v + "\"", [Mark("=="), Quoted(v)], rest)
  {
    hide Tokens;
    var q := "\"" + v + "\"";
    var t1 := " " + q;
    var t2 := "==" + t1;
    ReadsQuoted(v, rest);
    ReadsSpace(' ', q + rest);
    ReadsAppend(" ", [], q, [Quoted(v)], t1, [Quoted(v)], rest);
    ReadsDoubleMark("==", t1 + rest);
    ReadsAppend("==", [Mark("==")], t1, [Quoted(v)], t2, [Mark("=="), Quoted(v)], rest);
    ReadsSpace(' ', t2 + rest);
    ReadsAppend(" ", [], t2, [Mark("=="), Quoted(v)], " " + t2, [Mark("=="), Quoted(v)], rest);
    assert " " + "==" + " " + "\"" == " == \"";
    assert " " + t2 == " == \"" + v + "\"";
  }

  lemma ReadsHas(attr: string, v: string, rest: string)
    requires AtomOk(Has(attr, v)) && AtBoundary(rest)
    ensures Reads(AtomText(Has(attr, v)), AtomTokens(Has(attr, v)), rest)
  {
    hide Tokens, Plain, IsWord;
    var a := Has(attr, v);
    var call := ".contains(\"" + v + "\")";
    var ks := [Mark("."), Word("contains"), Mark("("), Quoted(v), Mark(")")];
    ReadsContains(v, rest);
    assert (call + rest)[0] == '.';
    ReadsAttribute(attr, call, ks, rest);
    assert AtomText(a) == "context." + attr + call;
    assert AtomTokens(a) == [Word("context"), Mark("."), Word(attr)] + ks;
  }

  lemma ReadsIs(attr: string, v: string, rest: string)
    requires AtomOk(Is(attr, v)) && AtBoundary(rest)
    ensures Reads(AtomText(Is(attr, v)), AtomTokens(Is(attr, v)), rest)
  {
    hide Tokens, Plain, IsWord;
    var a := Is(attr, v);
    var test := " == \"" + v + "\"";
    var ks := [Mark("=="), Quoted(v)];
    ReadsEquals(v, rest);
    assert (test + rest)[0] == ' ';
    ReadsAttribute(attr, test, ks, rest);
    assert AtomText(a) == "context." + attr + test;
    assert AtomTokens(a) == [Word("context"), Mark("."), Word(attr)] + ks;
  }

  lemma ReadsAtom(a: Atom, rest: string)
    requires AtomOk(a) && AtBoundary(rest)
    ensures Reads(AtomText(a), AtomTokens(a), rest)
  {
    hide Tokens;
    match a
    case Has(attr, v) => ReadsHas(attr, v, rest);
    case Is(attr, v) => ReadsIs(attr, v, rest);
    case Flag(attr) =>
      assert "" + rest == rest;
      BeforeNothing(Tokens(rest));
      ReadsAttribute(attr, "", [], rest);
      assert "context." + attr + "" == AtomText(a);
      assert [Word("context"), Mark("."), Word(attr)] + [] == AtomTokens(a);
  }

  lemma ReadsAttribute(attr: string, tail: string, ks: seq<Token>, rest: string)
    requires IsWord(attr) && AtBoundary(tail + rest) && Reads(tail, ks, rest)
    ensures Reads("context." + attr + tail, [Word("context"), Mark("."), Word(attr)] + ks, rest)
  {
    hide Tokens;
    ReadsWord(attr, tail + rest);
    ReadsContextDot(attr + (tail + rest));
    ReadsAppend("context.", [Word("context"), Mark(".")], attr, [Word(attr)],
                "context." + attr, [Word("context"), Mark("."), Word(attr)], tail + rest);
    ReadsAppend("context." + attr, [Word("context"), Mark("."), Word(attr)], tail, ks,
                "context." + attr + tail, [Word("context"), Mark("."), Word(attr)] + ks, rest);
  }

  lemma ReadsSpaces(text: string, rest: string)
    requires forall i | 0 <= i < |text| :: IsSpace(text[i])
    ensures Reads(text, [], rest)
  {
    hide Tokens;
    if text == "" {
      assert "" + rest == rest;
      BeforeNothing(Tokens(rest));
    } else {
      ReadsSpaces(text[1..], rest);
      ReadsSpace(text[0], text[1..] + rest);
      ReadsAppend([text[0]], [], text[1..], [], text, [], rest);
    }
  }

  /** A two-character mark between blanks. */
  lemma ReadsSpacedMark(before: string, m: string, after: string, rest: string)
    requires IsDoubleMark(m)
    requires forall i | 0 <= i < |before| :: IsSpace(before[i])
    requires forall i | 0 <= i < |after| :: IsSpace(after[i])
    ensures Reads(before + m + after, [Mark(m)], rest)
  {
    hide Tokens;
    ReadsSpaces(after, rest);
    ReadsDoubleMark(m, after + rest);
    ReadsAppend(m, [Mark(m)], after, [], m + after, [Mark(m)], rest);
    ReadsSpaces(before, m + after + rest);
    ReadsAppend(before, [], m + after, [Mark(m)], before + m + after, [Mark(m)], rest);
  }

  lemma ReadsOrMark(rest: string)
    ensures Reads(" || ", [Mark("||")], rest)
  {
    hide Tokens;
    ReadsSpacedMark(" ", "||", " ", rest);
    assert " " + "||" + " " == " || ";
  }

  lemma ReadsAndMark(rest: string)
    ensures Reads(" &&\n  ", [Mark("&&")], rest)
  {
    hide Tokens;
    ReadsSpacedMark(" ", "&&", "\n  ", rest);
    assert " " + "&&" + "\n  " == " &&\n  ";
  }

  lemma {:induction false} ReadsDisjunction(atoms: seq<Atom>, rest: string)
    requires atoms != [] && forall a | a in atoms :: AtomOk(a)
    requires AtBoundary(rest)
    ensures Reads(Join(AtomTexts(atoms), " || "), DisjunctionTokens(atoms), rest)
  {
    hide Tokens, AtomText, AtomTokens, AtomOk;
    assert atoms[0] in atoms;
    if |atoms| == 1 {
      ReadsAtom(atoms[0], rest);
    } else {
      assert forall a | a in atoms[1..] :: a in atoms;
      ReadsDisjunction(atoms[1..], rest);
      assert AtomTexts(atoms)[1..] == AtomTexts(atoms[1..]);
      var tail, tailTokens := Join(AtomTexts(atoms[1..]), " || "), DisjunctionTokens(atoms[1..]);
      ReadsOrMark(tail + rest);
      ReadsAppend(" || ", [Mark("||")], tail, tailTokens, " || " + tail, [Mark("||")] + tailTokens, rest);
      assert (" || " + tail + rest)[0] == ' ';
      ReadsAtom(atoms[0], " || " + tail + rest);
      ReadsAppend(AtomText(atoms[0]), AtomTokens(atoms[0]), " || " + tail, [Mark("||")] + tailTokens,
                  Join(AtomTexts(atoms), " || "), DisjunctionTokens(atoms), rest);
    }
  }

  /** A parenthesised disjunction. */
  lemma ReadsGroup(atoms: seq<Atom>, rest: string)
    requires atoms != [] && forall a | a in atoms :: AtomOk(a)
    ensures Reads("(" + Join(AtomTexts(atoms), " || ") + ")", [Mark("(")] + (DisjunctionTokens(atoms) + [Mark(")")]), rest)
  {
    hide Tokens, AtomText, AtomTokens, AtomOk, Join, AtomTexts, DisjunctionTokens;
    var body, bodyTokens := Join(AtomTexts(atoms), " || "), DisjunctionTokens(atoms);
    ReadsMark(')', rest);
    assert (")" + rest)[0] == ')';
    ReadsDisjunction(atoms, ")" + rest);
    ReadsAppend(body, bodyTokens, ")", [Mark(")")], body + ")", bodyTokens + [Mark(")")], rest);
    ReadsMark('(', body + ")" + rest);
    ReadsAppend("(", [Mark("(")], body + ")", bodyTokens + [Mark(")")],
                "(" + body + ")", [Mark("(")] + (bodyTokens + [Mark(")")]), rest);
  }

  lemma ReadsPart(p: Part, rest: string)
    requires PartReadable(p) && AtBoundary(rest)
    ensures PartOk(p) && Reads(PartText(p), PartTokens(p), rest)
  {
    hide Tokens, AtomText, AtomTokens, AtomOk, Join, AtomTexts, DisjunctionTokens;
    match p
    case One(a) => ReadsAtom(a, rest);
    case AnyOf(atoms) => ReadsGroup(atoms, rest);
    case NoneOf(atoms) =>
      var body := Join(AtomTexts(atoms), " || ");
      var g := "(" + body + ")";
      ReadsGroup(atoms, rest);
      ReadsMark('!', g + rest);
      assert "!" + "(" == "!(";
      ReadsAppend("!", [Mark("!")], g, [Mark("(")] + (DisjunctionTokens(atoms) + [Mark(")")]),
                  "!(" + body + ")", PartTokens(p), rest);
  }

  lemma {:induction false} ReadsConjunction(parts: seq<Part>, rest: string)
    requires parts != [] && forall p | p in parts :: PartReadable(p) && PartOk(p)
    requires AtBoundary(rest)
    ensures Reads(Join(PartTexts(parts), " &&\n  "), ConjunctionTokens(parts), rest)
  {
    hide Tokens, PartText, PartTokens, PartReadable;
    assert parts[0] in parts;
    if |parts| == 1 {
      ReadsPart(parts[0], rest);
    } else {
      assert forall p | p in parts[1..] :: p in parts;
      ReadsConjunction(parts[1..], rest);
      assert PartTexts(parts)[1..] == PartTexts(parts[1..]);
      var tail, tailTokens := Join(PartTexts(parts[1..]), " &&\n  "), ConjunctionTokens(parts[1..]);
      ReadsAndMark(tail + rest);
      ReadsAppend(" &&\n  ", [Mark("&&")], tail, tailTokens, " &&\n  " + tail, [Mark("&&")] + tailTokens, rest);
      assert (" &&\n  " + tail + rest)[0] == ' ';
      ReadsPart(parts[0], " &&\n  " + tail + rest);
      ReadsAppend(PartText(parts[0]), PartTokens(parts[0]), " &&\n  " + tail, [Mark("&&")] + tailTokens,
                  Join(PartTexts(parts), " &&\n  "), ConjunctionTokens(parts), rest);
    }
  }

  // ----- a whole policy -----

  /** Which parts of a policy end up in string literals. */
  predicate PlainPolicy(p: Dsl.Policy) {
    && Plain(p.id) && Plain(p.action) && Plain(p.resource)
    && (forall r | r in p.whenRoles :: Plain(r))
    && (forall s | s in p.whereSubjects :: Plain(s))
    && (forall g | g in p.whereGroups :: Plain(g))
    && (forall r | r in p.unlessRoles :: Plain(r))
  }

  predicate AllPlain(ps: seq<Dsl.Policy>) {
    forall p | p in ps :: PlainPolicy(p)
  }

  lemma AttributesAreWords()
    ensures IsWord("resource_kind") && IsWord("action_name") && IsWord("principal_roles")
    ensures IsWord("subject_groups") && IsWord("subject_id")
    ensures IsWord("subject_is_self") && IsWord("subject_in_direct_reports")
  {
    hide IsWord;
    RecordAttributesAreWords();
    SubjectAttributesAreWords();
  }

  lemma RecordAttributesAreWords()
    ensures IsWord("resource_kind") && IsWord("action_name") && IsWord("principal_roles")
  {}

  lemma SubjectAttributesAreWords()
    ensures IsWord("subject_groups") && IsWord("subject_id")
    ensures IsWord("subject_is_self") && IsWord("subject_in_direct_reports")
  {}

  lemma PartsReadable(p: Dsl.Policy)
    requires PlainPolicy(p)
    ensures Parts(p) != [] && forall q | q in Parts(p) :: PartReadable(q) && PartOk(q)
  {
    hide IsWord, Plain;
    AttributesAreWords();
    RoleAtomsReadable(p.whenRoles);
    RoleAtomsReadable(p.unlessRoles);
    forall a | a in SubjectAtoms(p.whereSubjects) ensures AtomOk(a) {}
    forall a | a in GroupAtoms(p.whereGroups) ensures AtomOk(a) {}
  }

  lemma RoleAtomsReadable(roles: seq<string>)
    requires forall r | r in roles :: Plain(r)
    ensures forall a | a in RoleAtoms(roles) :: AtomOk(a)
  {
    hide IsWord, Plain;
    AttributesAreWords();
  }

  /** The tokens of a policy, from the action onwards and from the effect onwards. */
  function ActionTokens(action: string, condition: seq<Token>): seq<Token> {
    BEFORE_ACTION + ([Quoted(action)] + (AFTER_ACTION + (condition + AFTER_CONDITION)))
  }

  function FrameTokens(id: string, effect: string, action: string, condition: seq<Token>): seq<Token> {
    BEFORE_ID + ([Quoted(id)] + (AFTER_ID + ([Word(effect)] + ActionTokens(action, condition))))
  }

  lemma ReadsEnd(rest: string)
    ensures Reads("\n};\n", AFTER_CONDITION, rest)
  {
    hide Tokens;
    ReadsSpaces("\n", rest);
    ReadsMark(';', "\n" + rest);
    ReadsAppend(";", [Mark(";")], "\n", [], ";\n", [Mark(";")], rest);
    ReadsMark('}', ";\n" + rest);
    ReadsAppend("}", [Mark("}")], ";\n", [Mark(";")], "};\n", AFTER_CONDITION, rest);
    ReadsSpaces("\n", "};\n" + rest);
    ReadsAppend("\n", [], "};\n", AFTER_CONDITION, "\n};\n", AFTER_CONDITION, rest);
  }

  lemma ReadsWordThen(w: string, tail: string, ks: seq<Token>, t: string, ts: seq<Token>, rest: string)
    requires IsWord(w) && AtBoundary(tail + rest) && Reads(tail, ks, rest)
    requires t == w + tail && ts == [Word(w)] + ks
    ensures Reads(t, ts, rest)
  {
    hide Tokens;
    ReadsWord(w, tail + rest);
    ReadsAppend(w, [Word(w)], tail, ks, t, ts, rest);
  }

  lemma ReadsMarkThen(c: char, tail: string, ks: seq<Token>, t: string, ts: seq<Token>, rest: string)
    requires IsSingleMark(c) && Reads(tail, ks, rest)
    requires t == [c] + tail && ts == [Mark([c])] + ks
    ensures Reads(t, ts, rest)
  {
    hide Tokens;
    ReadsMark(c, tail + rest);
    ReadsAppend([c], [Mark([c])], tail, ks, t, ts, rest);
  }

  lemma ReadsSpacesThen(spaces: string, tail: string, ks: seq<Token>, t: string, rest: string)
    requires forall i | 0 <= i < |spaces| :: IsSpace(spaces[i])
    requires Reads(tail, ks, rest) && t == spaces + tail
    ensures Reads(t, ks, rest)
  {
    hide Tokens;
    ReadsSpaces(spaces, tail + rest);
    assert [] + ks == ks;
    ReadsAppend(spaces, [], tail, ks, t, ks, rest);
  }

  /** The text between the action and the condition, after the closing quote of the action. */
  lemma ReadsAfterAction(rest: string)
    ensures Reads(",\n  resource\n) when {\n  ", AFTER_ACTION, rest)
  {
    hide Tokens;
    ReadsSpaces("\n  ", rest);
    var t1, k1 := "{" + "\n  ", [Mark("{")] + [];
    ReadsMarkThen('{', "\n  ", [], t1, k1, rest);
    ReadsSpacesThen(" ", t1, k1, " " + t1, rest);
    assert (" " + t1 + rest)[0] == ' ';
    var t2, k2 := "when" + (" " + t1), [Word("when")] + k1;
    ReadsWordThen("when", " " + t1, k1, t2, k2, rest);
    ReadsSpacesThen(" ", t2, k2, " " + t2, rest);
    var t3, k3 := ")" + (" " + t2), [Mark(")")] + k2;
    ReadsMarkThen(')', " " + t2, k2, t3, k3, rest);
    ReadsSpacesThen("\n", t3, k3, "\n" + t3, rest);
    assert ("\n" + t3 + rest)[0] == '\n';
    var t4, k4 := "resource" + ("\n" + t3), [Word("resource")] + k3;
    ReadsWordThen("resource", "\n" + t3, k3, t4, k4, rest);
    ReadsSpacesThen("\n  ", t4, k4, "\n  " + t4, rest);
    ReadsMarkThen(',', "\n  " + t4, k4, "," + ("\n  " + t4), [Mark(",")] + k4, rest);
    AfterActionText();
    assert [Mark(",")] + k4 == AFTER_ACTION;
  }

  lemma AfterActionText()
    ensures ",\n  resource\n) when {\n  "
         == "," + ("\n  " + ("resource" + ("\n" + (")" + (" " + ("when" + (" " + ("{" + "\n  "))))))))
  {}

  /** The text between the effect and the action, up to its opening quote. */
  lemma ReadsBeforeAction(rest: string)
    ensures Reads(" (\n  principal,\n  action == Action::", BEFORE_ACTION, rest)
  {
    hide Tokens;
    ReadsDoubleMark("::", rest);
    assert ("::" + rest)[0] == ':';
    var t1, k1 := "Action" + "::", [Word("Action")] + [Mark("::")];
    ReadsWordThen("Action", "::", [Mark("::")], t1, k1, rest);
    ReadsSpacedMark(" ", "==", " ", t1 + rest);
    var e := " " + "==" + " ";
    var t2, k2 := e + t1, [Mark("==")] + k1;
    ReadsAppend(e, [Mark("==")], t1, k1, t2, k2, rest);
    assert (t2 + rest)[0] == ' ';
    var t3, k3 := "action" + t2, [Word("action")] + k2;
    ReadsWordThen("action", t2, k2, t3, k3, rest);
    ReadsSpacesThen("\n  ", t3, k3, "\n  " + t3, rest);
    var t4, k4 := "," + ("\n  " + t3), [Mark(",")] + k3;
    ReadsMarkThen(',', "\n  " + t3, k3, t4, k4, rest);
    assert (t4 + rest)[0] == ',';
    var t5, k5 := "principal" + t4, [Word("principal")] + k4;
    ReadsWordThen("principal", t4, k4, t5, k5, rest);
    ReadsSpacesThen("\n  ", t5, k5, "\n  " + t5, rest);
    var t6, k6 := "(" + ("\n  " + t5), [Mark("(")] + k5;
    ReadsMarkThen('(', "\n  " + t5, k5, t6, k6, rest);
    ReadsSpacesThen(" ", t6, k6, " " + t6, rest);
    BeforeActionText();
    assert k6 == BEFORE_ACTION;
  }

  lemma BeforeActionText()
    ensures " (\n  principal,\n  action == Action::"
         == " " + ("(" + ("\n  " + ("principal" + ("," + ("\n  " + ("action" + (" " + "==" + " " + ("Action" + "::"))))))))
  {}

  lemma ReadsFrame(id: string, effect: string, action: string, condition: string, ks: seq<Token>, rest: string)
    requires Plain(id) && Plain(action) && (effect == "permit" || effect == "forbid")
    requires forall r :: AtBoundary(r) ==> Reads(condition, ks, r)
    ensures Reads(Frame(id, effect, action, condition), FrameTokens(id, effect, action, ks), rest)
  {
    hide Tokens, IsWord;
    // from the condition to the end
    var e := "\n};\n";
    ReadsEnd(rest);
    assert (e + rest)[0] == '\n';
    assert Reads(condition, ks, e + rest);
    var t1, k1 := condition + e, ks + AFTER_CONDITION;
    ReadsAppend(condition, ks, e, AFTER_CONDITION, t1, k1, rest);
    ReadsAfterAction(t1 + rest);
    var t2, k2 := ",\n  resource\n) when {\n  " + t1, AFTER_ACTION + k1;
    ReadsAppend(",\n  resource\n) when {\n  ", AFTER_ACTION, t1, k1, t2, k2, rest);
    // the action
    ReadsQuoted(action, t2 + rest);
    var q := "\"" + action + "\"";
    var t3, k3 := q + t2, [Quoted(action)] + k2;
    ReadsAppend(q, [Quoted(action)], t2, k2, t3, k3, rest);
    ReadsBeforeAction(t3 + rest);
    var b := " (\n  principal,\n  action == Action::";
    var t4, k4 := b + t3, BEFORE_ACTION + k3;
    ReadsAppend(b, BEFORE_ACTION, t3, k3, t4, k4, rest);
    // the effect
    assert (t4 + rest)[0] == ' ';
    EffectsAreWords();
    ReadsWordThen(effect, t4, k4, effect + t4, [Word(effect)] + k4, rest);
    ReadsIdentity(id, effect + t4, [Word(effect)] + k4, rest);
    FrameText(id, effect, action, condition);
  }

  lemma EffectsAreWords()
    ensures IsWord("permit") && IsWord("forbid") && IsWord("id")
  {}

  /** The `@id(...)` line. */
  lemma ReadsIdentity(id: string, tail: string, ks: seq<Token>, rest: string)
    requires Plain(id) && Reads(tail, ks, rest)
    ensures Reads("@id(" + ("\"" + id + "\"" + (")\n" + tail)), BEFORE_ID + ([Quoted(id)] + (AFTER_ID + ks)), rest)
  {
    hide Tokens, IsWord;
    var t1, k1 := "\n" + tail, ks;
    ReadsSpacesThen("\n", tail, ks, t1, rest);
    var t2, k2 := ")\n" + tail, AFTER_ID + ks;
    ReadsMarkThen(')', t1, k1, t2, k2, rest);
    var q := "\"" + id + "\"";
    ReadsQuoted(id, t2 + rest);
    var t3, k3 := q + t2, [Quoted(id)] + k2;
    ReadsAppend(q, [Quoted(id)], t2, k2, t3, k3, rest);
    var t4, k4 := "(" + t3, [Mark("(")] + k3;
    ReadsMarkThen('(', t3, k3, t4, k4, rest);
    EffectsAreWords();
    assert (t4 + rest)[0] == '(';
    var t5, k5 := "id" + t4, [Word("id")] + k4;
    ReadsWordThen("id", t4, k4, t5, k5, rest);
    ReadsMarkThen('@', t5, k5, "@id(" + t3, BEFORE_ID + k3, rest);
  }

  lemma FrameText(id: string, effect: string, action: string, condition: string)
    ensures Frame(id, effect, action, condition)
         == "@id(" + ("\"" + id + "\"" + (")\n" + (effect + (" (\n  principal,\n  action == Action::"
            + ("\"" + action + "\"" + (",\n  resource\n) when {\n  " + (condition + "\n};\n")))))))
  {
  }

  function PolicyTokens(p: Dsl.Policy): seq<Token> {
    PartsOk(p);
    FrameTokens(p.id, EffectWord(p.effect), p.action, ConjunctionTokens(Parts(p)))
  }

  lemma ReadsPolicy(p: Dsl.Policy, rest: string)
    requires PlainPolicy(p)
    ensures Reads(PolicyText(p), PolicyTokens(p), rest)
  {
    hide Tokens, Frame, FrameTokens, ConjunctionTokens, Join, PartTexts, PartReadable, PartOk, Parts, Plain;
    PartsReadable(p);
    var condition, ks := Join(PartTexts(Parts(p)), " &&\n  "), ConjunctionTokens(Parts(p));
    forall r | AtBoundary(r)
      ensures Reads(condition, ks, r)
    {
      ReadsConjunction(Parts(p), r);
    }
    ReadsFrame(p.id, EffectWord(p.effect), p.action, condition, ks, rest);
  }

  function AllPolicyTokens(ps: seq<Dsl.Policy>): seq<Token> {
    if ps == [] then [] else PolicyTokens(ps[0]) + AllPolicyTokens(ps[1..])
  }

  lemma {:induction false} ReadsPolicies(ps: seq<Dsl.Policy>)
    requires AllPlain(ps)
    ensures Reads(PolicyTexts(ps), AllPolicyTokens(ps), "")
  {
    hide Tokens, PolicyText, PolicyTokens, PlainPolicy;
    if ps == [] {
      ReadsSpaces("", "");
    } else {
      assert forall p | p in ps[1..] :: p in ps;
      ReadsPolicies(ps[1..]);
      var tail, ks := PolicyTexts(ps[1..]), AllPolicyTokens(ps[1..]);
      ReadsSpacesThen("\n", tail, ks, "\n" + tail, "");
      ReadsPolicy(ps[0], "\n" + tail + "");
      ReadsAppend(PolicyText(ps[0]), PolicyTokens(ps[0]), "\n" + tail, ks, PolicyTexts(ps), AllPolicyTokens(ps), "");
    }
  }

  lemma ReadsHeader(rest: string)
    ensures Reads(HEADER, [], rest)
  {
    hide Tokens;
    ReadsComment(COMMENT, rest);
  }

  lemma TokensOfCedar(ps: seq<Dsl.Policy>)
    requires AllPlain(ps)
    ensures Tokens(CedarOf(ps)) == Some(AllPolicyTokens(ps))
  {
    hide Tokens, AllPlain, PolicyTexts, AllPolicyTokens, HEADER;
    ReadsPolicies(ps);
    var body, ks := PolicyTexts(ps), AllPolicyTokens(ps);
    ReadsHeader(body + "");
    assert [] + ks == ks;
    assert HEADER + body == CedarOf(ps);
    ReadsAppend(HEADER, [], body, ks, CedarOf(ps), ks, "");
    assert CedarOf(ps) + "" == CedarOf(ps);
    TokensOfNothing();
    assert ks + [] == ks;
  }

  lemma TokensOfNothing()
    ensures Tokens("") == Some([])
  {}

  // ----- parsing the tokens -----

  /** What can follow a complete operand. */
  predicate Stops(rest: seq<Token>) {
    rest == [] || rest[0] == Mark(")") || rest[0] == Mark("||") || rest[0] == Mark("&&") || rest[0] == Mark("}")
  }

  lemma MembersStop(e: Expr, rest: seq<Token>)
    requires rest == [] || rest[0] != Mark(".")
    ensures ParseMembers(e, rest) == Some((e, rest))
  {}

  lemma ParseQuotedOperand(v: string, rest: seq<Token>)
    requires rest == [] || rest[0] != Mark(".")
    ensures ParseUnary([Quoted(v)] + rest) == Some((Lit(v), rest))
  {
    var t := [Quoted(v)] + rest;
    assert t[1..] == rest;
    assert ParsePrimary(t) == Some((Lit(v), rest));
    MembersStop(Lit(v), rest);
  }

  lemma ParseLiteral(v: string, rest: seq<Token>)
    requires rest != [] && rest[0] == Mark(")")
    ensures ParseOr([Quoted(v)] + rest) == Some((Lit(v), rest))
  {
    hide ParseUnary, ParsePrimary, ParseMembers;
    var t := [Quoted(v)] + rest;
    ParseQuotedOperand(v, rest);
    assert ParseRelation(t) == Some((Lit(v), rest));
    assert ParseAndTail(Lit(v), rest) == Some((Lit(v), rest));
    assert ParseAnd(t) == Some((Lit(v), rest));
    assert ParseOrTail(Lit(v), rest) == Some((Lit(v), rest));
  }

  lemma ParseContextAttr(attr: string, rest: seq<Token>)
    requires rest == [] || rest[0] != Mark("(")
    ensures ParseUnary([Word("context"), Mark("."), Word(attr)] + rest) == ParseMembers(Attr(ContextVar, attr), rest)
  {
    hide ParseOr;
    var t := [Word("context"), Mark("."), Word(attr)] + rest;
    var t1 := [Mark("."), Word(attr)] + rest;
    assert t[1..] == t1;
    assert ParsePrimary(t) == Some((ContextVar, t1));
    assert t1[2..] == rest;
    assert ParseMembers(ContextVar, t1) == ParseMembers(Attr(ContextVar, attr), rest);
  }

  lemma ParseContainsCall(e: Expr, v: string, rest: seq<Token>)
    requires Stops(rest)
    ensures ParseMembers(e, [Mark("."), Word("contains"), Mark("("), Quoted(v), Mark(")")] + rest)
         == Some((Contains(e, Lit(v)), rest))
  {
    hide ParseOr;
    var t := [Mark("."), Word("contains"), Mark("("), Quoted(v), Mark(")")] + rest;
    var close := [Mark(")")] + rest;
    assert t[3..] == [Quoted(v)] + close;
    ParseLiteral(v, close);
    assert close[1..] == rest;
    MembersStop(Contains(e, Lit(v)), rest);
  }

  lemma ParseAtom(a: Atom, rest: seq<Token>)
    requires Stops(rest)
    ensures ParseRelation(AtomTokens(a) + rest) == Some((AtomExpr(a), rest))
  {
    hide ParseUnary, ParseMembers, ParsePrimary;
    var head := [Word("context"), Mark("."), Word(a.attr)];
    var e := Attr(ContextVar, a.attr);
    match a
    case Has(attr, v) =>
      var call := [Mark("."), Word("contains"), Mark("("), Quoted(v), Mark(")")];
      assert AtomTokens(a) + rest == head + (call + rest);
      ParseContextAttr(attr, call + rest);
      ParseContainsCall(e, v, rest);
    case Is(attr, v) =>
      var tail := [Mark("==")] + ([Quoted(v)] + rest);
      assert AtomTokens(a) + rest == head + tail;
      ParseContextAttr(attr, tail);
      MembersStop(e, tail);
      assert tail[1..] == [Quoted(v)] + rest;
      ParseQuotedOperand(v, rest);
    case Flag(attr) =>
      ParseContextAttr(attr, rest);
      MembersStop(e, rest);
  }

  /** A relation not followed by `&&` is a whole conjunction. */
  lemma ParseAndOne(t: seq<Token>, e: Expr, rest: seq<Token>)
    requires ParseRelation(t) == Some((e, rest))
    requires rest == [] || rest[0] != Mark("&&")
    ensures ParseAnd(t) == Some((e, rest))
  {
    hide ParseRelation;
    assert ParseAndTail(e, rest) == Some((e, rest));
  }

  lemma {:induction false} ParseDisjunctionTail(left: Expr, atoms: seq<Atom>, rest: seq<Token>)
    requires atoms != [] && rest != [] && rest[0] == Mark(")")
    ensures ParseOrTail(left, [Mark("||")] + DisjunctionTokens(atoms) + rest) == Some((OrChain(left, atoms), rest))
    decreases atoms
  {
    hide ParseAnd, ParseRelation, AtomTokens, AtomExpr;
    var t := [Mark("||")] + DisjunctionTokens(atoms) + rest;
    var next := if |atoms| == 1 then rest else [Mark("||")] + DisjunctionTokens(atoms[1..]) + rest;
    var e := AtomExpr(atoms[0]);
    assert t[1..] == AtomTokens(atoms[0]) + next;
    ParseAtom(atoms[0], next);
    ParseAndOne(t[1..], e, next);
    if |atoms| == 1 {
      assert ParseOrTail(Or(left, e), rest) == Some((Or(left, e), rest));
      assert OrChain(Or(left, e), atoms[1..]) == Or(left, e);
    } else {
      ParseDisjunctionTail(Or(left, e), atoms[1..], rest);
    }
  }

  lemma ParseDisjunction(atoms: seq<Atom>, rest: seq<Token>)
    requires atoms != [] && rest != [] && rest[0] == Mark(")")
    ensures ParseOr(DisjunctionTokens(atoms) + rest) == Some((AnyExpr(atoms), rest))
  {
    hide ParseAnd, ParseRelation, AtomTokens, AtomExpr;
    var t := DisjunctionTokens(atoms) + rest;
    var next := if |atoms| == 1 then rest else [Mark("||")] + DisjunctionTokens(atoms[1..]) + rest;
    var e := AtomExpr(atoms[0]);
    assert t == AtomTokens(atoms[0]) + next;
    ParseAtom(atoms[0], next);
    ParseAndOne(t, e, next);
    if |atoms| == 1 {
      assert ParseOrTail(e, rest) == Some((e, rest));
      assert OrChain(e, atoms[1..]) == e;
    } else {
      ParseDisjunctionTail(e, atoms[1..], rest);
    }
  }

  lemma ParseGroup(atoms: seq<Atom>, rest: seq<Token>)
    requires atoms != [] && Stops(rest)
    ensures ParseUnary([Mark("(")] + (DisjunctionTokens(atoms) + [Mark(")")]) + rest) == Some((AnyExpr(atoms), rest))
  {
    hide ParseOr, DisjunctionTokens, AnyExpr;
    var t := [Mark("(")] + (DisjunctionTokens(atoms) + [Mark(")")]) + rest;
    var close := [Mark(")")] + rest;
    assert t[1..] == DisjunctionTokens(atoms) + close;
    ParseDisjunction(atoms, close);
    assert close[1..] == rest;
    assert ParsePrimary(t) == Some((AnyExpr(atoms), rest));
    MembersStop(AnyExpr(atoms), rest);
  }

  lemma RelationOfUnary(t: seq<Token>, e: Expr, rest: seq<Token>)
    requires ParseUnary(t) == Some((e, rest)) && Stops(rest)
    ensures ParseRelation(t) == Some((e, rest))
  {
    hide ParseUnary;
  }

  lemma ParsePart(p: Part, rest: seq<Token>)
    requires PartOk(p) && Stops(rest)
    ensures ParseRelation(PartTokens(p) + rest) == Some((PartExpr(p), rest))
  {
    hide ParseRelation, ParsePrimary, ParseMembers, DisjunctionTokens, AnyExpr, AtomTokens;
    match p
    case One(a) => ParseAtom(a, rest);
    case AnyOf(atoms) =>
      ParseGroup(atoms, rest);
      RelationOfUnary(PartTokens(p) + rest, AnyExpr(atoms), rest);
    case NoneOf(atoms) =>
      var t := PartTokens(p) + rest;
      var g := [Mark("(")] + (DisjunctionTokens(atoms) + [Mark(")")]) + rest;
      assert t[1..] == g;
      ParseGroup(atoms, rest);
      assert ParseUnary(t) == Some((Not(AnyExpr(atoms)), rest));
      RelationOfUnary(t, Not(AnyExpr(atoms)), rest);
  }

  lemma {:induction false} ParseConjunctionTail(left: Expr, parts: seq<Part>, rest: seq<Token>)
    requires parts != [] && (forall p | p in parts :: PartOk(p))
    requires rest != [] && rest[0] == Mark("}")
    ensures ParseAndTail(left, [Mark("&&")] + ConjunctionTokens(parts) + rest) == Some((AndChain(left, parts), rest))
    decreases parts
  {
    hide ParseRelation, PartTokens, PartExpr, PartOk;
    var t := [Mark("&&")] + ConjunctionTokens(parts) + rest;
    assert parts[0] in parts;
    assert forall p | p in parts[1..] :: p in parts;
    var next := if |parts| == 1 then rest else [Mark("&&")] + ConjunctionTokens(parts[1..]) + rest;
    var e := PartExpr(parts[0]);
    assert t[1..] == PartTokens(parts[0]) + next;
    ParsePart(parts[0], next);
    if |parts| == 1 {
      assert ParseAndTail(And(left, e), rest) == Some((And(left, e), rest));
      assert AndChain(And(left, e), parts[1..]) == And(left, e);
    } else {
      ParseConjunctionTail(And(left, e), parts[1..], rest);
    }
  }

  lemma ParseConjunction(parts: seq<Part>, rest: seq<Token>)
    requires parts != [] && (forall p | p in parts :: PartOk(p))
    requires rest != [] && rest[0] == Mark("}")
    ensures ParseOr(ConjunctionTokens(parts) + rest) == Some((AllExpr(parts), rest))
  {
    hide ParseRelation, PartTokens, PartExpr, PartOk;
    var t := ConjunctionTokens(parts) + rest;
    assert parts[0] in parts;
    assert forall p | p in parts[1..] :: p in parts;
    var next := if |parts| == 1 then rest else [Mark("&&")] + ConjunctionTokens(parts[1..]) + rest;
    var e := PartExpr(parts[0]);
    assert t == PartTokens(parts[0]) + next;
    ParsePart(parts[0], next);
    if |parts| == 1 {
      assert ParseAndTail(e, rest) == Some((e, rest));
      assert AndChain(e, parts[1..]) == e;
    } else {
      ParseConjunctionTail(e, parts[1..], rest);
    }
    assert ParseAnd(t) == Some((AllExpr(parts), rest));
    assert ParseOrTail(AllExpr(parts), rest) == Some((AllExpr(parts), rest));
  }

  lemma ExpectAt(ts: seq<Token>, rest: seq<Token>)
    ensures Expect(ts, ts + rest) == Some(rest)
  {
    assert (ts + rest)[|ts|..] == rest;
  }

  lemma ParsePolicyTokens(p: Dsl.Policy, rest: seq<Token>)
    ensures ParsePolicy(PolicyTokens(p) + rest) == Some((CedarPolicyOf(p), rest))
  {
    hide ParseOr, ConjunctionTokens, Parts, AllExpr, Expect;
    PartsOk(p);
    var ks := ConjunctionTokens(Parts(p));
    var end := AFTER_CONDITION + rest;
    var t4 := ks + end;
    var t3 := AFTER_ACTION + t4;
    var t2 := BEFORE_ACTION + ([Quoted(p.action)] + t3);
    var t1 := AFTER_ID + ([Word(EffectWord(p.effect))] + t2);
    var t0 := BEFORE_ID + ([Quoted(p.id)] + t1);
    PolicyTokensAre(p, rest);
    assert PolicyTokens(p) + rest == t0;
    ExpectAt(BEFORE_ID, [Quoted(p.id)] + t1);
    ExpectAt(AFTER_ID, [Word(EffectWord(p.effect))] + t2);
    ExpectAt(BEFORE_ACTION, [Quoted(p.action)] + t3);
    ExpectAt(AFTER_ACTION, t4);
    ExpectAt(AFTER_CONDITION, rest);
    assert end[0] == Mark("}");
    ParseConjunction(Parts(p), end);
  }

  lemma PolicyTokensAre(p: Dsl.Policy, rest: seq<Token>)
    requires Parts(p) != [] && forall q | q in Parts(p) :: PartOk(q)
    ensures PolicyTokens(p) + rest
         == BEFORE_ID + ([Quoted(p.id)] + (AFTER_ID + ([Word(EffectWord(p.effect))]
            + (BEFORE_ACTION + ([Quoted(p.action)] + (AFTER_ACTION + (ConjunctionTokens(Parts(p)) + (AFTER_CONDITION + rest))))))))
  {
    hide BEFORE_ID, AFTER_ID, BEFORE_ACTION, AFTER_ACTION, AFTER_CONDITION, ConjunctionTokens, Parts, PartOk;
    var ks := ConjunctionTokens(Parts(p));
    var id, effect, action := [Quoted(p.id)], [Word(EffectWord(p.effect))], [Quoted(p.action)];
    Assoc(ks, AFTER_CONDITION, rest);
    Assoc(AFTER_ACTION, ks + AFTER_CONDITION, rest);
    Assoc(action, AFTER_ACTION + (ks + AFTER_CONDITION), rest);
    Assoc(BEFORE_ACTION, action + (AFTER_ACTION + (ks + AFTER_CONDITION)), rest);
    var t := ActionTokens(p.action, ks);
    Assoc(effect, t, rest);
    Assoc(AFTER_ID, effect + t, rest);
    Assoc(id, AFTER_ID + (effect + t), rest);
    Assoc(BEFORE_ID, id + (AFTER_ID + (effect + t)), rest);
  }

  lemma {:induction false} ParseAllPolicies(ps: seq<Dsl.Policy>)
    ensures ParsePolicies(AllPolicyTokens(ps)) == Some(CedarPoliciesOf(ps))
  {
    hide ParsePolicy, PolicyTokens, CedarPolicyOf;
    if ps != [] {
      ParsePolicyTokens(ps[0], AllPolicyTokens(ps[1..]));
      ParseAllPolicies(ps[1..]);
      assert CedarPoliciesOf(ps) == [CedarPolicyOf(ps[0])] + CedarPoliciesOf(ps[1..]);
    }
  }

  /** The text that `dsl_to_cedar` writes reads back as the policies it was written from. */
  lemma {:induction false} CedarReadsBack(ps: seq<Dsl.Policy>)
    requires AllPlain(ps)
    ensures ParseCedar(CedarOf(ps)) == Some(CedarPoliciesOf(ps))
  {
    hide Tokens, ParsePolicies, AllPolicyTokens, CedarOf, AllPlain;
    TokensOfCedar(ps);
    ParseAllPolicies(ps);
  }
}
