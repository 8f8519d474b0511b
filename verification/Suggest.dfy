/** Suggestions drawn from the audit log: lib.rs of authz-suggest. */
module Suggest {
  import opened Text
  import opened Dsl
  import opened DslPrint
  import opened TranslateReads
  import opened Requests
  import opened Semantics
  import opened Entities
  import opened Evaluator
  import opened Drafts

  datatype AuditRecord = AuditRecord(action: string, resource: string, denied: bool)

  datatype Suggestion = Suggestion(name: string, rationale: string, dsl: string)

  type Pair = (string, string)

  function PairOf(r: AuditRecord): Pair {
    (Upper(r.action), Upper(r.resource))
  }

  /** How often the pair was denied. */
  function DenyCount(records: seq<AuditRecord>, k: Pair): nat {
    if records == [] then 0
    else (if records[0].denied && PairOf(records[0]) == k then 1 else 0) + DenyCount(records[1..], k)
  }

  function Digit(n: nat): char
    requires n < 10
  {
    "0123456789"[n]
  }

  function NatText(n: nat): string {
    if n < 10 then [Digit(n)] else NatText(n / 10) + [Digit(n % 10)]
  }

  function NameFor(k: Pair): string {
    "audit_deny_" + Lower(k.0) + "_" + Lower(k.1)
  }

  function SuggestionLines(k: Pair, n: nat): seq<string> {
    [OpeningLine(NameFor(k)), HeadLine(Deny, k.0, k.1), "# suggested from " + NatText(n) + " audit DENY events"]
  }

  function SuggestionFor(k: Pair, n: nat): Suggestion {
    Suggestion(NameFor(k), NatText(n) + " DENY decisions observed for " + k.0 + " " + k.1, Unlines(SuggestionLines(k, n)))
  }

  predicate AllDistinct(keys: seq<Pair>) {
    forall i, j | 0 <= i < j < |keys| :: keys[i] != keys[j]
  }

  lemma DenyCountSnoc(records: seq<AuditRecord>, r: AuditRecord, k: Pair)
    ensures DenyCount(records + [r], k) == DenyCount(records, k) + if r.denied && PairOf(r) == k then 1 else 0
  {
    if records == [] {
      assert [] + [r] == [r] && [r][1..] == [];
    } else {
      assert (records + [r])[1..] == records[1..] + [r];
      DenyCountSnoc(records[1..], r, k);
    }
  }

  method CountDenials(records: seq<AuditRecord>) returns (counts: map<Pair, nat>)
    ensures forall k :: k in counts <==> DenyCount(records, k) > 0
    ensures forall k | k in counts :: counts[k] == DenyCount(records, k)
  {
    counts := map[];
    for i := 0 to |records|
      invariant forall k :: k in counts <==> DenyCount(records[..i], k) > 0
      invariant forall k | k in counts :: counts[k] == DenyCount(records[..i], k)
    {
      var r := records[i];
      assert records[..i + 1] == records[..i] + [r];
      forall k { DenyCountSnoc(records[..i], r, k); }
      if r.denied {
        var key := PairOf(r);
        counts := counts[key := (if key in counts then counts[key] else 0) + 1];
      }
    }
    assert records[..|records|] == records;
  }

  /** One suggestion for each of the pairs, with its exact count. */
  ghost predicate SuggestsPairs(out: seq<Suggestion>, keys: seq<Pair>, records: seq<AuditRecord>) {
    && |out| == |keys| && AllDistinct(keys)
    && forall i | 0 <= i < |out| :: out[i] == SuggestionFor(keys[i], DenyCount(records, keys[i]))
  }

  /**
   * One suggestion for every pair denied at least twice, with its exact count, and no other; the
   * order of a hash map's entries is left open.
   */
  method SuggestFromAudit(records: seq<AuditRecord>) returns (out: seq<Suggestion>)
    ensures exists keys :: SuggestsPairs(out, keys, records) && forall k :: k in keys <==> DenyCount(records, k) >= 2
  {
    hide SuggestionFor;
    var counts := CountDenials(records);
    out := [];
    ghost var keys: seq<Pair> := [];
    var rest := counts.Keys;
    while rest != {}
      invariant rest <= counts.Keys
      invariant SuggestsPairs(out, keys, records)
      invariant forall k :: k in keys <==> k in counts && k !in rest && counts[k] >= 2
      decreases rest
    {
      var k :| k in rest;
      rest := rest - {k};
      var n := counts[k];
      if n >= 2 {
        assert k !in keys;
        out := out + [SuggestionFor(k, n)];
        keys := keys + [k];
      }
    }
  }

  // ----- what a suggestion says -----

  function SuggestedPolicy(k: Pair): Policy {
    Policy(NameFor(k), Deny, k.0, k.1, [], [], [], [], "")
  }

  predicate PlainPair(k: Pair) {
    WellFormedWord(k.0) && WellFormedWord(k.1)
  }

  lemma {:induction false} NatTextIsOneLine(n: nat)
    ensures OneLine(NatText(n))
    decreases n
  {
    if n >= 10 {
      NatTextIsOneLine(n / 10);
    }
  }

  lemma LowerKeepsNonLetters(s: string, c: char)
    requires UpperChar(c) == c && LowerChar(c) == c && c !in s
    ensures c !in Lower(s)
  {
    assert forall i | 0 <= i < |s| :: s[i] in s && Lower(s)[i] != c;
  }

  lemma NameIsClean(k: Pair)
    requires PlainPair(k)
    ensures Clean(NameFor(k))
  {
    LowerKeepsNonLetters(k.0, '#');
    LowerKeepsNonLetters(k.0, '\n');
    LowerKeepsNonLetters(k.1, '#');
    LowerKeepsNonLetters(k.1, '\n');
  }

  lemma NoteIsBlank(n: nat)
    ensures var l := "# suggested from " + NatText(n) + " audit DENY events"; IsBlank(l) && Printable(l)
  {
    hide OneLine, IsBlank, Printable;
    NatTextIsOneLine(n);
    NotePieces();
    OneLineAppend("# suggested from ", NatText(n));
    OneLineAppend("# suggested from " + NatText(n), " audit DENY events");
    CommentLine("# suggested from " + NatText(n) + " audit DENY events");
  }

  lemma NotePieces()
    ensures OneLine("# suggested from ") && OneLine(" audit DENY events")
  {}

  /** For plain names, the text parses to one unconditional deny of the pair. */
  lemma {:induction false} SuggestionParses(k: Pair, n: nat)
    requires PlainPair(k)
    ensures UnrawResult(Parse(SuggestionFor(k, n).dsl)) == Ok([SuggestedPolicy(k)])
  {
    hide Says, Opens, Printable, IsBlank, WellFormedWord, OpeningLine, HeadLine, ParseLines, NameFor, Lines, Unlines, NatText;
    var id := NameFor(k);
    NameIsClean(k);
    OpeningLineOpens(id);
    HeadLineSays(Deny, k.0, k.1);
    NoteIsBlank(n);
    var said := (HeadLine(Deny, k.0, k.1), Head(Deny, k.0, k.1));
    var note := "# suggested from " + NatText(n) + " audit DENY events";
    var b := Block(OpeningLine(id), id, [said]);
    BodyCons(said, [], NewFields(id, b.opening));
    assert [said] + [] == [said];
    var lines := SuggestionLines(k, n);
    assert lines == BlockLines(b) + [note];
    ParseBlock(b, [note]);
    LinesOfUnlines(lines);
    SuggestedUnraw(id, k, b.opening, said);
  }

  lemma SuggestedUnraw(id: string, k: Pair, opening: string, said: (string, Clause))
    requires said.1 == Head(Deny, k.0, k.1) && id == NameFor(k)
    ensures var f := ExtendOne(NewFields(id, opening), said);
            Finish(f).Ok? && UnrawAll([Finish(f).value]) == [SuggestedPolicy(k)]
  {
    hide NameFor;
  }

  /** Adding a suggestion to any policy set denies all requests of the pair and changes no other decision. */
  lemma {:induction false} SuggestionDeniesPair(ps: seq<Policy>, k: Pair, req: AuthzRequest, host: Host)
    requires Compilable(ps + [SuggestedPolicy(k)]) && Evaluable(req, host)
    ensures Allows(ps + [SuggestedPolicy(k)], req, host) <==>
      Allows(ps, req, host) && (Upper(req.action), Upper(req.resource.kind)) != k
  {
    hide Allows, Evaluable, Compilable, Upper, NameFor, SubjectInDirectReports, SubjectIsSelf;
    var p := SuggestedPolicy(k);
    AddingDenials(ps, [p], req, host);
    assert !Overlap([], req.principal.roles);
    assert Holds(p, req) <==> (Upper(req.action), Upper(req.resource.kind)) == k;
    assert p in [p];
  }

  /** End to end: adding the policies parsed from a suggestion's text, whatever the count in its comment. */
  lemma {:induction false} SuggestionTextDenies(ps: seq<Policy>, k: Pair, n: nat, parsed: seq<Policy>, req: AuthzRequest, host: Host)
    requires PlainPair(k) && Parse(SuggestionFor(k, n).dsl) == Ok(parsed)
    requires Compilable(ps + [SuggestedPolicy(k)]) && Evaluable(req, host)
    ensures Allows(ps + parsed, req, host) <==> Allows(ps, req, host) && (Upper(req.action), Upper(req.resource.kind)) != k
  {
    hide Allows, Evaluable, Compilable, Upper, Parse, SuggestionFor, PlainPair, Outcome, NameFor;
    SuggestionParses(k, n);
    SuggestionDeniesPair(ps, k, req, host);
    RawIrrelevant(ps + parsed, req, host);
    RawIrrelevant(ps + [SuggestedPolicy(k)], req, host);
    UnrawAppend(ps, parsed);
    UnrawAppend(ps, [SuggestedPolicy(k)]);
    assert UnrawAll([SuggestedPolicy(k)]) == [SuggestedPolicy(k)];
  }

  /** A plain suggestion can always be compiled along with plain policies. */
  lemma {:induction false} SuggestionCompilable(ps: seq<Policy>, k: Pair)
    requires Compilable(ps) && PlainPair(k) && PlainId(k.0) && PlainId(k.1)
    ensures Compilable(ps + [SuggestedPolicy(k)])
  {
    hide WellFormedWord;
    NameIsClean(k);
    var p := SuggestedPolicy(k);
    LowerKeepsNonLetters(k.0, '"');
    LowerKeepsNonLetters(k.0, '\\');
    LowerKeepsNonLetters(k.0, '\r');
    LowerKeepsNonLetters(k.1, '"');
    LowerKeepsNonLetters(k.1, '\\');
    LowerKeepsNonLetters(k.1, '\r');
    SimpleIsPlain("audit_deny_");
    assert PlainPolicy(p) && WellFormed(p);
  }

  /** The records that deny a pair, compared in upper case. */
  function Denials(records: seq<AuditRecord>, action: string, resource: string): set<nat> {
    set i: nat | i < |records| && records[i].denied && Upper(records[i].action) == action && Upper(records[i].resource) == resource
  }

  /** A pair's count is the number of records that deny it. */
  lemma {:induction false} DenyCountIs(records: seq<AuditRecord>, k: Pair)
    ensures DenyCount(records, k) == |Denials(records, k.0, k.1)|
    decreases |records|
  {
    hide Upper;
    if records == [] {
      assert Denials(records, k.0, k.1) == {};
    } else {
      var n := |records| - 1;
      var init, r := records[..n], records[n];
      assert records == init + [r];
      DenyCountIs(init, k);
      DenyCountSnoc(init, r, k);
      var before := Denials(init, k.0, k.1);
      assert n !in before;
      assert Denials(records, k.0, k.1) == if r.denied && PairOf(r) == k then before + {n} else before;
    }
  }

  /** The number a decimal text stands for. */
  function DecimalValue(s: string): nat
    requires forall i | 0 <= i < |s| :: '0' <= s[i] <= '9'
  {
    if s == "" then 0 else 10 * DecimalValue(s[..|s| - 1]) + (s[|s| - 1] as nat - '0' as nat)
  }

  lemma DigitValue(n: nat)
    requires n < 10
    ensures '0' <= Digit(n) <= '9' && Digit(n) as nat - '0' as nat == n
  {
    assert Digit(0) == '0' && Digit(1) == '1' && Digit(2) == '2' && Digit(3) == '3' && Digit(4) == '4';
  }

  /** Counts are written in decimal, without leading zeros. */
  lemma {:induction false} NatTextReads(n: nat)
    ensures NatText(n) != "" && forall i | 0 <= i < |NatText(n)| :: '0' <= NatText(n)[i] <= '9'
    ensures DecimalValue(NatText(n)) == n
    ensures n > 0 ==> NatText(n)[0] != '0'
    decreases n
  {
    hide Digit;
    DigitValue(n % 10);
    var s := NatText(n);
    if n < 10 {
      DigitValue(n);
      assert s[..0] == "" && DecimalValue("") == 0;
    } else {
      NatTextReads(n / 10);
      assert s[..|s| - 1] == NatText(n / 10);
    }
  }

  /** The text of a suggestion, and what it says of itself. */
  lemma SuggestionSays(k: Pair, n: nat)
    ensures var s, name := SuggestionFor(k, n), "audit_deny_" + Lower(k.0) + "_" + Lower(k.1);
            && s.name == name && s.rationale == NatText(n) + " DENY decisions observed for " + k.0 + " " + k.1
            && s.dsl == Unlines(["policy \"" + name + "\"", "deny " + k.0 + " " + k.1,
                                 "# suggested from " + NatText(n) + " audit DENY events"])
            && SuggestedPolicy(k) == Policy(name, Deny, k.0, k.1, [], [], [], [], "")
  {
    hide NatText, Lower, Unlines;
    LinesSay(NameFor(k), k);
  }

  lemma LinesSay(name: string, k: Pair)
    ensures OpeningLine(name) == "policy \"" + name + "\"" && HeadLine(Deny, k.0, k.1) == "deny " + k.0 + " " + k.1
  {
    assert "policy " + "\"" == "policy \"";
    Assoc("policy ", "\"", name + "\"");
    assert "deny" + " " == "deny ";
  }
}
