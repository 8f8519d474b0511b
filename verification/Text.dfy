/** Options, results, and the parts of Rust's `str` API the modelled code relies on. */
module Text {
  datatype Option<+T> = None | Some(value: T)

  datatype Result<+T, +E> = Ok(value: T) | Err(error: E)

  /** `char::is_whitespace`: the Unicode White_Space property. */
  predicate IsSpace(c: char) {
    || '\t' <= c <= '\r' || c == ' ' || c == '\U{85}' || c == '\U{A0}' || c == '\U{1680}'
    || '\U{2000}' <= c <= '\U{200A}' || c == '\U{2028}' || c == '\U{2029}' || c == '\U{202F}'
    || c == '\U{205F}' || c == '\U{3000}'
  }

  predicate NoSpace(s: string) {
    forall i | 0 <= i < |s| :: !IsSpace(s[i])
  }

  /** Neither end of `s` is whitespace. */
  predicate IsTrimmed(s: string) {
    s != "" ==> !IsSpace(s[0]) && !IsSpace(s[|s| - 1])
  }

  lemma Assoc<T>(a: seq<T>, b: seq<T>, c: seq<T>)
    ensures (a + b) + c == a + (b + c)
  {}

  // ----- trimming -----

  function TrimStart(s: string): (r: string)
    ensures |r| <= |s|
    ensures r != "" ==> !IsSpace(r[0])
  {
    if s != "" && IsSpace(s[0]) then TrimStart(s[1..]) else s
  }

  function TrimEnd(s: string): (r: string)
    ensures r <= s
    ensures r != "" ==> !IsSpace(r[|r| - 1])
  {
    if s != "" && IsSpace(s[|s| - 1]) then TrimEnd(s[..|s| - 1]) else s
  }

  function Trim(s: string): (r: string)
    ensures IsTrimmed(r)
    ensures IsTrimmed(s) ==> r == s
  {
    TrimEnd(TrimStart(s))
  }

  lemma {:induction false} TrimStartNothing(s: string)
    ensures TrimStart(s) == "" <==> forall i | 0 <= i < |s| :: IsSpace(s[i])
    decreases s
  {
    if s != "" && IsSpace(s[0]) {
      TrimStartNothing(s[1..]);
      assert forall i | 0 < i < |s| :: s[i] == s[1..][i - 1];
      assert forall i | 0 <= i < |s[1..]| :: s[1..][i] == s[i + 1];
    }
  }

  lemma {:induction false} TrimEndSomething(s: string)
    requires s != "" && !IsSpace(s[0])
    ensures TrimEnd(s) != ""
    decreases s
  {
    if IsSpace(s[|s| - 1]) { TrimEndSomething(s[..|s| - 1]); }
  }

  /** Trimming leaves nothing exactly of blank strings. */
  lemma TrimNothing(s: string)
    ensures Trim(s) == "" <==> forall i | 0 <= i < |s| :: IsSpace(s[i])
  {
    TrimStartNothing(s);
    if TrimStart(s) != "" { TrimEndSomething(TrimStart(s)); }
  }

  lemma TrimKeepsChars(s: string)
    ensures forall c :: c in Trim(s) ==> c in s
  {
    TrimStartKeepsChars(s);
    assert forall c :: c in TrimEnd(TrimStart(s)) ==> c in TrimStart(s);
  }

  lemma {:induction false} TrimStartKeepsChars(s: string)
    ensures forall c :: c in TrimStart(s) ==> c in s
    decreases s
  {
    if s != "" && IsSpace(s[0]) {
      TrimStartKeepsChars(s[1..]);
    }
  }

  /** One more blank at the end is trimmed away. */
  lemma {:induction false} TrimAppendSpace(s: string, c: char)
    requires IsSpace(c)
    ensures Trim(s + [c]) == Trim(s)
  {
    if s == "" {
      assert s + [c] == [c];
      assert TrimStart([c][1..]) == "";
    } else if IsSpace(s[0]) {
      assert (s + [c])[1..] == s[1..] + [c];
      TrimAppendSpace(s[1..], c);
    } else {
      assert (s + [c])[..|s|] == s;
    }
  }

  /** `trim_start_matches` and `trim_end_matches` with a character pattern. */
  function TrimStartChar(s: string, c: char): string {
    if s != "" && s[0] == c then TrimStartChar(s[1..], c) else s
  }

  function TrimEndChar(s: string, c: char): string {
    if s != "" && s[|s| - 1] == c then TrimEndChar(s[..|s| - 1], c) else s
  }

  /** `trim_start_matches` and `trim_end_matches` with a string pattern. */
  function TrimStartStr(s: string, p: string): (r: string)
    ensures p != "" ==> !(p <= r)
  {
    if p != "" && p <= s then TrimStartStr(s[|p|..], p) else s
  }

  predicate EndsWith(s: string, p: string) {
    |p| <= |s| && s[|s| - |p|..] == p
  }

  function TrimEndStr(s: string, p: string): (r: string)
    ensures r <= s
    ensures p != "" ==> !EndsWith(r, p)
  {
    if p != "" && EndsWith(s, p) then TrimEndStr(s[..|s| - |p|], p) else s
  }

  predicate HasSub(s: string, p: string) {
    p <= s || (s != "" && HasSub(s[1..], p))
  }

  // ----- searching and splitting -----

  function IndexOf(s: string, c: char): (r: nat)
    ensures r <= |s|
    ensures forall i | 0 <= i < r :: s[i] != c
    ensures r < |s| ==> s[r] == c
  {
    if s == "" || s[0] == c then 0 else 1 + IndexOf(s[1..], c)
  }

  /** Where the first occurrence is, when we can see it. */
  lemma IndexOfAt(a: string, c: char, b: string)
    requires c !in a
    ensures IndexOf(a + [c] + b, c) == |a|
  {
    var s := a + [c] + b;
    assert s[|a|] == c;
    assert forall i | 0 <= i < |a| :: s[i] == a[i];
  }

  /** `str::split` with a character. */
  function SplitOn(s: string, c: char): (r: seq<string>)
    ensures r != []
  {
    var i := IndexOf(s, c);
    if i == |s| then [s] else [s[..i]] + SplitOn(s[i + 1..], c)
  }

  lemma SplitNothing(s: string, c: char)
    requires c !in s
    ensures SplitOn(s, c) == [s]
  {
    assert IndexOf(s, c) == |s|;
  }

  lemma SplitOnFirst(a: string, c: char, b: string)
    requires c !in a
    ensures SplitOn(a + [c] + b, c) == [a] + SplitOn(b, c)
  {
    IndexOfAt(a, c, b);
    var s := a + [c] + b;
    assert s[..|a|] == a && s[|a| + 1..] == b;
  }

  function Join(parts: seq<string>, sep: string): string {
    if parts == [] then ""
    else if |parts| == 1 then parts[0]
    else parts[0] + sep + Join(parts[1..], sep)
  }

  /** Splitting undoes joining when the separator occurs in no part. */
  lemma {:induction false} SplitJoin(parts: seq<string>, c: char)
    requires parts != []
    requires forall p | p in parts :: c !in p
    ensures SplitOn(Join(parts, [c]), c) == parts
  {
    if |parts| == 1 {
      SplitNothing(parts[0], c);
      assert parts == [parts[0]];
    } else {
      var rest := Join(parts[1..], [c]);
      assert forall p | p in parts[1..] :: p in parts;
      SplitJoin(parts[1..], c);
      SplitOnFirst(parts[0], c, rest);
      assert parts == [parts[0]] + parts[1..];
    }
  }

  /** How many characters come before the first whitespace. */
  function WordLen(s: string): (r: nat)
    ensures r <= |s|
    ensures s != "" && !IsSpace(s[0]) ==> r > 0
  {
    if s == "" || IsSpace(s[0]) then 0 else 1 + WordLen(s[1..])
  }

  lemma {:induction false} WordLenIsFirstSpace(s: string)
    ensures forall i | 0 <= i < WordLen(s) :: !IsSpace(s[i])
    ensures WordLen(s) < |s| ==> IsSpace(s[WordLen(s)])
    decreases s
  {
    if s != "" && !IsSpace(s[0]) {
      WordLenIsFirstSpace(s[1..]);
      assert forall i | 0 < i < WordLen(s) :: s[i] == s[1..][i - 1];
    }
  }

  /** `str::split_whitespace`. */
  function Words(s: string): seq<string>
    decreases |s|
  {
    var t := TrimStart(s);
    if t == "" then [] else
      var n := WordLen(t);
      [t[..n]] + Words(t[n..])
  }

  lemma WordsOne(a: string)
    requires a != "" && NoSpace(a)
    ensures Words(a) == [a]
  {
    WordLenIsFirstSpace(a);
    assert WordLen(a) == |a| && a[..|a|] == a;
    assert Words(a[|a|..]) == [];
  }

  lemma WordLenAt(a: string, b: string)
    requires NoSpace(a)
    requires b != "" ==> IsSpace(b[0])
    ensures WordLen(a + b) == |a|
  {
    var s := a + b;
    assert forall i | 0 <= i < |a| :: s[i] == a[i];
    assert b != "" ==> s[|a|] == b[0];
    WordLenIsFirstSpace(s);
  }

  lemma WordsCons(a: string, b: string)
    requires a != "" && NoSpace(a)
    requires b != "" ==> IsSpace(b[0])
    ensures Words(a + b) == [a] + Words(b)
  {
    var s := a + b;
    WordLenAt(a, b);
    assert s[0] == a[0];
    assert TrimStart(s) == s;
    assert s[..|a|] == a && s[|a|..] == b;
  }

  lemma WordsSkip(c: char, b: string)
    requires IsSpace(c)
    ensures Words([c] + b) == Words(b)
  {
    var s := [c] + b;
    assert s[1..] == b;
    assert TrimStart(s) == TrimStart(b);
  }

  lemma WordsTwo(a: string, b: string)
    requires a != "" && NoSpace(a) && b != "" && NoSpace(b)
    ensures Words(a + " " + b) == [a, b]
  {
    WordsCons(a, " " + b);
    WordsSkip(' ', b);
    WordsOne(b);
    Assoc(a, " ", b);
  }

  lemma {:induction false} WordsAreWords(s: string)
    ensures forall w | w in Words(s) :: w != "" && NoSpace(w) && forall c | c in w :: c in s
    decreases |s|
  {
    var t := TrimStart(s);
    TrimStartKeepsChars(s);
    if t != "" {
      WordLenIsFirstSpace(t);
      WordsAreWords(t[WordLen(t)..]);
    }
  }

  /** `str::lines`: a line ends at `\n`, or at `\r\n`; a last line needs no terminator. */
  function Lines(s: string): seq<string>
  {
    if s == "" then [] else
      var i := IndexOf(s, '\n');
      if i == |s| then [s] else [StripCr(s[..i])] + Lines(s[i + 1..])
  }

  function StripCr(line: string): string {
    if line != "" && line[|line| - 1] == '\r' then line[..|line| - 1] else line
  }

  lemma LinesCons(line: string, rest: string)
    requires '\n' !in line
    ensures Lines(line + "\n" + rest) == [StripCr(line)] + Lines(rest)
  {
    IndexOfAt(line, '\n', rest);
    var s := line + "\n" + rest;
    assert s[..|line|] == line && s[|line| + 1..] == rest;
  }

  /** Line splitting distributes over a line break. */
  lemma {:induction false} LinesAppend(a: string, b: string)
    ensures Lines(a + "\n" + b) == Lines(a + "\n") + Lines(b)
    decreases |a|
  {
    var i := IndexOf(a, '\n');
    if i == |a| {
      LinesCons(a, b);
      LinesCons(a, "");
      assert a + "\n" == a + "\n" + "";
    } else {
      var head, tail := a[..i], a[i + 1..];
      assert a == head + "\n" + tail;
      Assoc(head + "\n", tail, "\n");
      Assoc(head + "\n", tail + "\n", b);
      LinesAppend(tail, b);
      LinesCons(head, tail + "\n" + b);
      LinesCons(head, tail + "\n");
      Assoc([StripCr(head)], Lines(tail + "\n"), Lines(b));
    }
  }

  lemma {:induction false} LinesHaveNoBreak(s: string)
    ensures forall l | l in Lines(s) :: '\n' !in l
    decreases |s|
  {
    if s != "" {
      var i := IndexOf(s, '\n');
      if i < |s| {
        LinesHaveNoBreak(s[i + 1..]);
        assert '\n' !in StripCr(s[..i]);
      }
    }
  }

  /** One more character in front of what was read. */
  function Consed(c: char, r: Option<(string, string)>): Option<(string, string)> {
    match r case None => None case Some((v, rest)) => Some(([c] + v, rest))
  }

  /** The value of a hexadecimal digit. */
  function HexValue(c: char): Option<nat> {
    if '0' <= c <= '9' then Some((c - '0') as nat)
    else if 'a' <= c <= 'f' then Some((c - 'a') as nat + 10)
    else if 'A' <= c <= 'F' then Some((c - 'A') as nat + 10)
    else None
  }

  predicate NoRepeats(xs: seq<string>) {
    forall i, j | 0 <= i < j < |xs| :: xs[i] != xs[j]
  }

  // ----- ASCII case -----

  function UpperChar(c: char): char {
    if 'a' <= c <= 'z' then (c as int - 32) as char else c
  }

  function LowerChar(c: char): char {
    if 'A' <= c <= 'Z' then (c as int + 32) as char else c
  }

  /** `to_ascii_uppercase`. */
  function Upper(s: string): (r: string)
    ensures |r| == |s|
    ensures forall i | 0 <= i < |s| :: r[i] == UpperChar(s[i])
  {
    seq(|s|, i requires 0 <= i < |s| => UpperChar(s[i]))
  }

  /** `to_ascii_lowercase`. */
  function Lower(s: string): (r: string)
    ensures |r| == |s|
    ensures forall i | 0 <= i < |s| :: r[i] == LowerChar(s[i])
  {
    seq(|s|, i requires 0 <= i < |s| => LowerChar(s[i]))
  }

  /** `str::replace` of one character by another. */
  function ReplaceChar(s: string, a: char, b: char): (r: string)
    ensures |r| == |s|
    ensures forall i | 0 <= i < |s| :: r[i] == if s[i] == a then b else s[i]
  {
    seq(|s|, i requires 0 <= i < |s| => if s[i] == a then b else s[i])
  }

  lemma UpperIdempotent(s: string)
    ensures Upper(Upper(s)) == Upper(s)
  {}

  /** Raising case neither makes nor destroys a character that is not a letter. */
  lemma UpperKeepsNonLetters(s: string, c: char)
    requires UpperChar(c) == c && LowerChar(c) == c
    ensures c in Upper(s) <==> c in s
  {
    if c in Upper(s) {
      var i :| 0 <= i < |s| && Upper(s)[i] == c;
      assert s[i] == c;
    }
    if c in s {
      var i :| 0 <= i < |s| && s[i] == c;
      assert Upper(s)[i] == c;
    }
  }

  lemma SameCaseBlank(a: string, b: string)
    requires Upper(a) == Upper(b)
    ensures Trim(a) == "" <==> Trim(b) == ""
  {
    TrimNothing(a);
    TrimNothing(b);
    UpperKeepsSpaces(a);
    UpperKeepsSpaces(b);
    assert |a| == |b|;
    assert forall i | 0 <= i < |a| :: IsSpace(a[i]) == IsSpace(Upper(a)[i]) == IsSpace(b[i]);
  }

  lemma UpperKeepsSpaces(s: string)
    ensures forall i | 0 <= i < |s| :: IsSpace(Upper(s)[i]) == IsSpace(s[i])
  {}

  // ----- what the functions above mean -----

  const SMALL_LETTERS := "abcdefghijklmnopqrstuvwxyz"
  const CAPITAL_LETTERS := "ABCDEFGHIJKLMNOPQRSTUVWXYZ"

  /** The 26 letters change case in order, and no other character does. */
  lemma CaseOfLetters(c: char)
    ensures |SMALL_LETTERS| == |CAPITAL_LETTERS| == 26
    ensures forall i | 0 <= i < 26 ::
      && UpperChar(SMALL_LETTERS[i]) == CAPITAL_LETTERS[i] && LowerChar(CAPITAL_LETTERS[i]) == SMALL_LETTERS[i]
    ensures c !in SMALL_LETTERS ==> UpperChar(c) == c
    ensures c !in CAPITAL_LETTERS ==> LowerChar(c) == c
  {
    forall i | 0 <= i < 26
      ensures SMALL_LETTERS[i] as int == 97 + i && CAPITAL_LETTERS[i] as int == 65 + i
    {}
    if 'a' <= c <= 'z' { assert SMALL_LETTERS[c as int - 97] == c; }
    if 'A' <= c <= 'Z' { assert CAPITAL_LETTERS[c as int - 65] == c; }
  }

  predicate Blank(s: string) {
    forall i | 0 <= i < |s| :: IsSpace(s[i])
  }

  /** Trimming takes whitespace off both ends, and nothing else. */
  lemma TrimTakesBlanks(s: string) returns (before: string, after: string)
    ensures s == before + Trim(s) + after && Blank(before) && Blank(after)
  {
    before := TrimStartTakes(s);
    after := TrimEndTakes(TrimStart(s));
    Assoc(before, Trim(s), after);
  }

  lemma {:induction false} TrimStartTakes(s: string) returns (before: string)
    ensures s == before + TrimStart(s) && Blank(before)
    decreases s
  {
    if s != "" && IsSpace(s[0]) {
      var rest := TrimStartTakes(s[1..]);
      before := [s[0]] + rest;
    } else {
      before := "";
    }
  }

  lemma {:induction false} TrimEndTakes(s: string) returns (after: string)
    ensures s == TrimEnd(s) + after && Blank(after)
    decreases s
  {
    if s != "" && IsSpace(s[|s| - 1]) {
      var rest := TrimEndTakes(s[..|s| - 1]);
      after := rest + [s[|s| - 1]];
    } else {
      after := "";
    }
  }

  /** One string occurs in another exactly when the other can be cut around it. */
  lemma {:induction false} HasSubIff(s: string, p: string)
    ensures HasSub(s, p) <==> Occurs(s, p)
    decreases s
  {
    if p <= s {
      assert s == "" + p + s[|p|..];
      assert Occurs(s, p);
    } else {
      if s != "" {
        HasSubIff(s[1..], p);
        OccursLater(s, p);
      }
    }
  }

  ghost predicate Occurs(s: string, p: string) {
    exists a, b :: s == a + p + b
  }

  lemma OccursLater(s: string, p: string)
    requires s != "" && !(p <= s)
    ensures Occurs(s, p) <==> Occurs(s[1..], p)
  {
    if Occurs(s[1..], p) {
      var a, b :| s[1..] == a + p + b;
      assert s == ([s[0]] + a) + p + b;
    }
    if Occurs(s, p) {
      var a, b :| s == a + p + b;
      assert p <= p + b && (a == "" ==> a + p + b == p + b);
      assert s[1..] == a[1..] + p + b;
    }
  }

  /** A line may end in `\r\n`. */
  lemma LinesCrLf(line: string, rest: string)
    requires '\n' !in line
    ensures Lines(line + "\r\n" + rest) == [line] + Lines(rest)
  {
    assert line + "\r\n" + rest == (line + "\r") + "\n" + rest;
    LinesCons(line + "\r", rest);
  }

  lemma LastLine(line: string)
    requires '\n' !in line && line != ""
    ensures Lines(line) == [line]
  {
    assert IndexOf(line, '\n') == |line|;
  }

  /** A suffix is taken off as often as it is there. */
  lemma {:induction false} TrimEndStrTakes(s: string, p: string) returns (n: nat)
    requires p != ""
    ensures s == TrimEndStr(s, p) + Times(p, n) && !EndsWith(TrimEndStr(s, p), p)
    decreases |s|
  {
    if EndsWith(s, p) {
      var init := s[..|s| - |p|];
      var m := TrimEndStrTakes(init, p);
      n := m + 1;
      var core := TrimEndStr(init, p);
      assert s == init + p by { CutEnd(s, p); }
      assert TrimEndStr(s, p) == core;
      Assoc(core, Times(p, m), p);
    } else {
      n := 0;
      assert Times(p, 0) == "" && s + "" == s;
    }
  }

  lemma CutEnd(s: string, p: string)
    requires EndsWith(s, p)
    ensures s == s[..|s| - |p|] + p
  {}

  function Times(p: string, n: nat): string {
    if n == 0 then "" else Times(p, n - 1) + p
  }
}
