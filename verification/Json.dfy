/** JSON values, and a reader for the strings, booleans, arrays and objects of RFC 8259. */
module Json {
  import opened Text

  datatype Json =
    | Null
    | Bool(b: bool)
    | Num(text: string)
    | Str(s: string)
    | Arr(items: seq<Json>)
    | Obj(members: seq<Entry>)

  datatype Entry = Entry(key: string, value: Json)

  /** Section 7: these characters must not occur in a string as they are. */
  predicate IsControl(c: char) {
    c < ' '
  }

  predicate ControlFree(s: string) {
    forall i | 0 <= i < |s| :: !IsControl(s[i])
  }

  /** Section 2: insignificant whitespace. */
  function SkipBlank(s: string): (r: string)
    ensures |r| <= |s|
  {
    if s != "" && (s[0] == ' ' || s[0] == '\t' || s[0] == '\n' || s[0] == '\r') then SkipBlank(s[1..]) else s
  }

  function SimpleEscape(c: char): Option<char> {
    if c == '"' || c == '\\' || c == '/' then Some(c)
    else if c == 'b' then Some('\U{8}')
    else if c == 'f' then Some('\U{C}')
    else if c == 'n' then Some('\n')
    else if c == 'r' then Some('\r')
    else if c == 't' then Some('\t')
    else None
  }

  /** The character of four hexadecimal digits, unless they are one half of a surrogate pair. */
  function FourDigits(s: string): Option<char>
    requires |s| == 4
  {
    match (HexValue(s[0]), HexValue(s[1]), HexValue(s[2]), HexValue(s[3]))
    case (Some(a), Some(b), Some(c), Some(d)) =>
      var value := 4096 * a + 256 * b + 16 * c + d;
      if value < 0xD800 || 0xE000 <= value < 0x1_0000 then Some(value as char) else None
    case _ => None
  }

  /** Section 7: the characters up to the closing quote, and what follows it. */
  function ReadString(s: string): (r: Option<(string, string)>)
    ensures r.Some? ==> |r.value.1| < |s|
  {
    if s == "" || IsControl(s[0]) then None
    else if s[0] == '"' then Some(("", s[1..]))
    else if s[0] == '\\' then
      if |s| >= 2 && SimpleEscape(s[1]).Some? then Consed(SimpleEscape(s[1]).value, ReadString(s[2..]))
      else if |s| >= 6 && s[1] == 'u' && FourDigits(s[2..6]).Some? then Consed(FourDigits(s[2..6]).value, ReadString(s[6..]))
      else None
    else Consed(s[0], ReadString(s[1..]))
  }

  predicate IsDigit(c: char) {
    '0' <= c <= '9'
  }

  predicate IsNumberChar(c: char) {
    IsDigit(c) || c == '-' || c == '+' || c == '.' || c == 'e' || c == 'E'
  }

  function NumberSpan(s: string): (n: nat)
    ensures n <= |s|
  {
    if s == "" || !IsNumberChar(s[0]) then 0 else 1 + NumberSpan(s[1..])
  }

  function DigitSpan(s: string): (n: nat)
    ensures n <= |s|
  {
    if s == "" || !IsDigit(s[0]) then 0 else 1 + DigitSpan(s[1..])
  }

  /** Section 6: an integer without leading zeros, then perhaps a fraction and an exponent. */
  predicate IsNumber(s: string)
    ensures IsNumber(s) ==> s != ""
  {
    var t := if "-" <= s then s[1..] else s;
    var n := DigitSpan(t);
    n > 0 && (t[0] == '0' ==> n == 1) && IsFraction(t[n..])
  }

  predicate IsFraction(s: string) {
    if "." <= s then DigitSpan(s[1..]) > 0 && IsExponent(s[1..][DigitSpan(s[1..])..]) else IsExponent(s)
  }

  predicate IsExponent(s: string) {
    s == "" ||
    ((s[0] == 'e' || s[0] == 'E') &&
     var t := s[1..];
     var u := if "+" <= t || "-" <= t then t[1..] else t;
     u != "" && DigitSpan(u) == |u|)
  }

  /** Section 3: a value, and what follows it. */
  function ReadValue(s: string): (r: Option<(Json, string)>)
    ensures r.Some? ==> |r.value.1| < |s|
    decreases |s|, 0
  {
    var t := SkipBlank(s);
    if t == "" then None
    else if t[0] == '"' then
      match ReadString(t[1..])
      case None => None
      case Some((v, rest)) => Some((Str(v), rest))
    else if t[0] == '[' then
      var u := SkipBlank(t[1..]);
      if u != "" && u[0] == ']' then Some((Arr([]), u[1..]))
      else
        match ReadElements(t[1..])
        case None => None
        case Some((items, rest)) => Some((Arr(items), rest))
    else if t[0] == '{' then
      var u := SkipBlank(t[1..]);
      if u != "" && u[0] == '}' then Some((Obj([]), u[1..]))
      else
        match ReadMembers(t[1..])
        case None => None
        case Some((members, rest)) => Some((Obj(members), rest))
    else if "true" <= t then Some((Bool(true), t[4..]))
    else if "false" <= t then Some((Bool(false), t[5..]))
    else if "null" <= t then Some((Null, t[4..]))
    else if IsNumber(t[..NumberSpan(t)]) then Some((Num(t[..NumberSpan(t)]), t[NumberSpan(t)..]))
    else None
  }

  /** Section 5: the elements of an array up to its closing bracket. */
  function ReadElements(s: string): (r: Option<(seq<Json>, string)>)
    ensures r.Some? ==> |r.value.1| < |s|
    decreases |s|, 1
  {
    match ReadValue(s)
    case None => None
    case Some((v, rest)) =>
      var t := SkipBlank(rest);
      if t == "" then None
      else if t[0] == ']' then Some(([v], t[1..]))
      else if t[0] == ',' then
        match ReadElements(t[1..])
        case None => None
        case Some((vs, end)) => Some(([v] + vs, end))
      else None
  }

  /** Section 4: the members of an object up to its closing brace. */
  function ReadMembers(s: string): (r: Option<(seq<Entry>, string)>)
    ensures r.Some? ==> |r.value.1| < |s|
    decreases |s|, 1
  {
    var t := SkipBlank(s);
    if t == "" || t[0] != '"' then None
    else
      match ReadString(t[1..])
      case None => None
      case Some((name, afterName)) =>
        var u := SkipBlank(afterName);
        if u == "" || u[0] != ':' then None
        else
          match ReadValue(u[1..])
          case None => None
          case Some((v, rest)) =>
            var w := SkipBlank(rest);
            if w == "" then None
            else if w[0] == '}' then Some(([Entry(name, v)], w[1..]))
            else if w[0] == ',' then
              match ReadMembers(w[1..])
              case None => None
              case Some((ms, end)) => Some(([Entry(name, v)] + ms, end))
            else None
  }

  function ReadDocument(s: string): Option<Json> {
    match ReadValue(s)
    case None => None
    case Some((v, rest)) => if SkipBlank(rest) == "" then Some(v) else None
  }

  // ----- writing -----

  /** `str::replace` of a character by a string. */
  function Replace(s: string, c: char, sub: string): string {
    if s == "" then "" else (if s[0] == c then sub else [s[0]]) + Replace(s[1..], c, sub)
  }

  /** Backslashes are doubled first, and then quotes get one. */
  function EscapeAsWritten(s: string): string {
    Replace(Replace(s, '\\', "\\\\"), '"', "\\\"")
  }

  /** Escaping in one pass. */
  function Escape(s: string): string {
    if s == "" then ""
    else (if s[0] == '"' || s[0] == '\\' then ['\\', s[0]] else [s[0]]) + Escape(s[1..])
  }

  lemma {:induction false} ReplaceAppend(a: string, b: string, c: char, sub: string)
    ensures Replace(a + b, c, sub) == Replace(a, c, sub) + Replace(b, c, sub)
  {
    if a == "" {
      assert a + b == b;
    } else {
      assert (a + b)[1..] == a[1..] + b;
      ReplaceAppend(a[1..], b, c, sub);
    }
  }

  /** The second replacement never touches what the first one wrote. */
  lemma {:induction false} EscapeOnePass(s: string)
    ensures EscapeAsWritten(s) == Escape(s)
  {
    if s != "" {
      var first := if s[0] == '\\' then "\\\\" else [s[0]];
      ReplaceAppend(first, Replace(s[1..], '\\', "\\\\"), '"', "\\\"");
      EscapeOnePass(s[1..]);
      assert first[1..] == if s[0] == '\\' then "\\" else "";
      assert Replace("\\", '"', "\\\"") == "\\" + Replace("\\"[1..], '"', "\\\"");
    }
  }

  function Quote(s: string): string {
    "\"" + Escape(s) + "\""
  }

  function QuoteAll(items: seq<string>): (r: seq<string>)
    ensures |r| == |items| && forall i | 0 <= i < |items| :: r[i] == Quote(items[i])
  {
    seq(|items|, i requires 0 <= i < |items| => Quote(items[i]))
  }

  function StrAll(items: seq<string>): (r: seq<Json>)
    ensures |r| == |items| && forall i | 0 <= i < |items| :: r[i] == Str(items[i])
  {
    seq(|items|, i requires 0 <= i < |items| => Str(items[i]))
  }

  lemma {:induction false} EscapeNothing(s: string)
    requires '"' !in s && '\\' !in s
    ensures Escape(s) == s
  {
    if s != "" {
      assert s[0] in s;
      EscapeNothing(s[1..]);
      assert s == [s[0]] + s[1..];
    }
  }

  // ----- reading what was written -----

  /** An escaped string reads back, and it is readable exactly when it holds no control character. */
  lemma {:induction false} ReadEscaped(v: string, rest: string)
    ensures ReadString(Escape(v) + "\"" + rest) == if ControlFree(v) then Some((v, rest)) else None
  {
    var s := Escape(v) + "\"" + rest;
    if v == "" {
      assert s[0] == '"' && s[1..] == rest;
    } else {
      var tail := Escape(v[1..]) + "\"" + rest;
      ReadEscaped(v[1..], rest);
      assert v == [v[0]] + v[1..];
      assert ControlFree(v) <==> !IsControl(v[0]) && ControlFree(v[1..]) by { ControlFreeCons(v); }
      if v[0] == '"' || v[0] == '\\' {
        assert s[0] == '\\' && s[1] == v[0] && s[2..] == tail;
      } else {
        assert s[0] == v[0] && s[1..] == tail;
      }
    }
  }

  lemma ControlFreeCons(v: string)
    requires v != ""
    ensures ControlFree(v) <==> !IsControl(v[0]) && ControlFree(v[1..])
  {
    assert v == [v[0]] + v[1..];
    if !IsControl(v[0]) && ControlFree(v[1..]) {
      assert forall i | 0 < i < |v| :: v[i] == v[1..][i - 1];
    }
  }

  lemma ReadQuote(v: string, rest: string)
    ensures ReadValue(Quote(v) + rest) == if ControlFree(v) then Some((Str(v), rest)) else None
  {
    hide ReadString;
    var s := Quote(v) + rest;
    assert s[0] == '"' && s[1..] == Escape(v) + "\"" + rest;
    ReadEscaped(v, rest);
  }

  /** A single blank in front of a value is skipped. */
  lemma ReadAfterBlank(s: string)
    ensures ReadValue(" " + s) == ReadValue(s)
  {
    assert (" " + s)[1..] == s;
  }

  lemma ReadElementsCons(v: string, more: string)
    ensures ReadElements(Quote(v) + ("," + (" " + more)))
         == if !ControlFree(v) then None
            else match ReadElements(more) case None => None case Some((vs, end)) => Some(([Str(v)] + vs, end))
  {
    hide ReadValue, Quote, ControlFree;
    var tail := "," + (" " + more);
    assert tail[0] == ',' && tail[1..] == " " + more;
    ReadQuote(v, tail);
    ReadElementsAfterBlank(more);
  }

  lemma QuotesJoin(items: seq<string>, end: string)
    requires items != []
    ensures Join(QuoteAll(items), ", ") + end
         == Quote(items[0]) + if |items| == 1 then end else "," + (" " + (Join(QuoteAll(items[1..]), ", ") + end))
  {
    hide Quote;
    assert QuoteAll(items)[1..] == QuoteAll(items[1..]);
    assert ", " == "," + " ";
  }

  lemma StrAllCons(items: seq<string>)
    requires items != []
    ensures StrAll(items) == [Str(items[0])] + StrAll(items[1..])
    ensures |items| == 1 ==> StrAll(items) == [Str(items[0])]
  {}

  lemma {:induction false} ReadQuotes(items: seq<string>, rest: string)
    requires items != []
    ensures ReadElements(Join(QuoteAll(items), ", ") + ("]" + rest))
         == if forall v | v in items :: ControlFree(v) then Some((StrAll(items), rest)) else None
  {
    hide ReadValue, ReadElements, Quote, QuoteAll, StrAll, Join, ControlFree;
    var v := items[0];
    var end := "]" + rest;
    assert end[0] == ']' && end[1..] == rest;
    assert forall x :: x in items <==> x == v || x in items[1..];
    StrAllCons(items);
    QuotesJoin(items, end);
    if |items| == 1 {
      LastQuote(v, end);
    } else {
      ReadElementsCons(v, Join(QuoteAll(items[1..]), ", ") + end);
      ReadQuotes(items[1..], rest);
    }
  }

  lemma LastQuote(v: string, end: string)
    requires end != "" && end[0] == ']'
    ensures ReadElements(Quote(v) + end) == if ControlFree(v) then Some(([Str(v)], end[1..])) else None
  {
    hide ReadValue, Quote, ControlFree;
    ReadQuote(v, end);
  }

  lemma ReadElementsAfterBlank(s: string)
    ensures ReadElements(" " + s) == ReadElements(s)
  {
    hide ReadValue;
    ReadAfterBlank(s);
  }

  function ListText(items: seq<string>): string {
    "[" + Join(QuoteAll(items), ", ") + "]"
  }

  lemma ReadList(items: seq<string>, rest: string)
    ensures ReadValue(ListText(items) + rest)
         == if forall v | v in items :: ControlFree(v) then Some((Arr(StrAll(items)), rest)) else None
  {
    hide ReadElements, ControlFree, Quote, QuoteAll, StrAll, Join;
    var s := ListText(items) + rest;
    var body := Join(QuoteAll(items), ", ") + ("]" + rest);
    Assoc(Join(QuoteAll(items), ", "), "]", rest);
    assert s[0] == '[' && s[1..] == body;
    if items == [] {
      NoQuotes();
      assert body == "]" + rest;
      assert body[1..] == rest;
    } else {
      assert body[0] == '"' by { FirstQuote(items); }
      ReadQuotes(items, rest);
    }
  }

  lemma NoQuotes()
    ensures Join(QuoteAll([]), ", ") == "" && StrAll([]) == []
  {}

  lemma FirstQuote(items: seq<string>)
    requires items != []
    ensures Join(QuoteAll(items), ", ") != "" && Join(QuoteAll(items), ", ")[0] == '"'
  {
    assert Quote(items[0])[0] == '"';
  }
}
