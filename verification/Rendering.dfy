/** Compact JSON text reads back as the tree it was written from: the values of flattened arguments. */
module Rendering {
  import opened Text
  import opened Json
  import opened Catalog

  /** All its numbers are JSON numbers. */
  predicate Renderable(j: Json)
    decreases j, 1
  {
    match j
    case Num(text) => IsNumber(text)
    case Arr(items) => RenderableItems(items)
    case Obj(members) => RenderableMembers(members)
    case _ => true
  }

  predicate RenderableItems(items: seq<Json>)
    decreases items, 0
  {
    items != [] ==> Renderable(items[0]) && RenderableItems(items[1..])
  }

  predicate RenderableMembers(members: seq<Entry>)
    decreases members, 0
  {
    members != [] ==> Renderable(members[0].value) && RenderableMembers(members[1..])
  }

  /** Where a value ends. */
  predicate Ends(rest: string) {
    rest == "" || rest[0] == ',' || rest[0] == ']' || rest[0] == '}'
  }

  // ----- strings -----

  lemma HexDigitReads(n: nat)
    requires n < 16
    ensures HexValue(HexDigit(n)) == Some(n)
  {
    assert HexDigit(0) == '0' && HexDigit(1) == '1' && HexDigit(2) == '2' && HexDigit(3) == '3' && HexDigit(4) == '4'
        && HexDigit(5) == '5' && HexDigit(6) == '6' && HexDigit(7) == '7';
    assert HexDigit(8) == '8' && HexDigit(9) == '9' && HexDigit(10) == 'a' && HexDigit(11) == 'b' && HexDigit(12) == 'c'
        && HexDigit(13) == 'd' && HexDigit(14) == 'e' && HexDigit(15) == 'f';
  }

  lemma ControlReads(c: char)
    requires c < ' '
    ensures FourDigits("00" + [HexDigit(c as int / 16), HexDigit(c as int % 16)]) == Some(c)
  {
    hide HexDigit, HexValue;
    var n := c as int;
    HexDigitReads(0);
    HexDigitReads(n / 16);
    HexDigitReads(n % 16);
    assert HexValue('0') == Some(0) by { ZeroReads(); }
    var s := "00" + [HexDigit(n / 16), HexDigit(n % 16)];
    assert s[0] == '0' && s[1] == '0' && s[2] == HexDigit(n / 16) && s[3] == HexDigit(n % 16);
  }

  lemma ZeroReads()
    ensures HexValue('0') == Some(0)
  {}

  lemma CharReads(c: char, more: string)
    ensures ReadString(RenderChar(c) + more) == Consed(c, ReadString(more))
  {
    hide FourDigits, HexDigit;
    var s := RenderChar(c) + more;
    if c == '"' || c == '\\' || c == '\U{8}' || c == '\U{C}' || c == '\n' || c == '\r' || c == '\t' {
      assert s[0] == '\\' && s[2..] == more;
    } else if c < ' ' {
      ControlCharReads(c, more);
    } else {
      assert s[0] == c && s[1..] == more;
    }
  }

  lemma ControlCharReads(c: char, more: string)
    requires c < ' '
    ensures ReadString("\\u00" + [HexDigit(c as int / 16), HexDigit(c as int % 16)] + more) == Consed(c, ReadString(more))
  {
    hide FourDigits, HexDigit;
    var digits := "00" + [HexDigit(c as int / 16), HexDigit(c as int % 16)];
    var s := "\\u00" + [HexDigit(c as int / 16), HexDigit(c as int % 16)] + more;
    ControlReads(c);
    assert "\\u00" == "\\u" + "00";
    assert s == "\\u" + digits + more;
    assert s[0] == '\\' && s[1] == 'u' && s[2..6] == digits && s[6..] == more;
    assert SimpleEscape('u') == None;
  }

  lemma {:induction false} CharsRead(v: string, rest: string)
    ensures ReadString(RenderChars(v) + ("\"" + rest)) == Some((v, rest))
    decreases v
  {
    hide RenderChar;
    var end := "\"" + rest;
    if v == "" {
      assert "" + end == end && end[0] == '"' && end[1..] == rest;
    } else {
      CharsRead(v[1..], rest);
      Assoc(RenderChar(v[0]), RenderChars(v[1..]), end);
      CharReads(v[0], RenderChars(v[1..]) + end);
      assert [v[0]] + v[1..] == v;
    }
  }

  // ----- numbers -----

  lemma {:induction false} DigitsSpan(s: string)
    ensures forall i | 0 <= i < DigitSpan(s) :: IsDigit(s[i])
    decreases s
  {
    if s != "" && IsDigit(s[0]) {
      DigitsSpan(s[1..]);
      assert forall i | 0 < i < DigitSpan(s) :: s[i] == s[1..][i - 1];
    }
  }

  predicate AllNumberChars(s: string) {
    forall i | 0 <= i < |s| :: IsNumberChar(s[i])
  }

  lemma ExponentChars(s: string)
    requires IsExponent(s)
    ensures AllNumberChars(s)
  {
    if s != "" {
      var t := s[1..];
      var u := if "+" <= t || "-" <= t then t[1..] else t;
      DigitsSpan(u);
      assert AllNumberChars(u);
      if u != t { assert t == [t[0]] + u; }
      assert s == [s[0]] + t;
    }
  }

  lemma AppendNumberChars(a: string, b: string)
    requires AllNumberChars(a) && AllNumberChars(b)
    ensures AllNumberChars(a + b)
  {}

  lemma DigitsThen(s: string)
    requires AllNumberChars(s[DigitSpan(s)..])
    ensures AllNumberChars(s)
  {
    var n := DigitSpan(s);
    DigitsSpan(s);
    assert AllNumberChars(s[..n]);
    AppendNumberChars(s[..n], s[n..]);
    assert s == s[..n] + s[n..];
  }

  lemma FractionChars(s: string)
    requires IsFraction(s)
    ensures AllNumberChars(s)
  {
    hide IsExponent, DigitSpan;
    if "." <= s {
      ExponentChars(s[1..][DigitSpan(s[1..])..]);
      DigitsThen(s[1..]);
      assert s == "." + s[1..];
      AppendNumberChars(".", s[1..]);
    } else {
      ExponentChars(s);
    }
  }

  lemma NumberChars(s: string)
    requires IsNumber(s)
    ensures AllNumberChars(s)
  {
    hide IsFraction, DigitSpan;
    var t := if "-" <= s then s[1..] else s;
    FractionChars(t[DigitSpan(t)..]);
    DigitsThen(t);
    if "-" <= s {
      assert s == "-" + t;
      AppendNumberChars("-", t);
    }
  }

  lemma {:induction false} NumberEnds(text: string, rest: string)
    requires AllNumberChars(text) && Ends(rest)
    ensures NumberSpan(text + rest) == |text|
    decreases text
  {
    if text == "" {
      assert text + rest == rest;
    } else {
      assert (text + rest)[1..] == text[1..] + rest;
      NumberEnds(text[1..], rest);
    }
  }

  lemma NumberReads(text: string, rest: string)
    requires IsNumber(text) && Ends(rest)
    ensures ReadValue(text + rest) == Some((Num(text), rest))
  {
    hide NumberSpan, IsNumber;
    NumberChars(text);
    NumberEnds(text, rest);
    var s := text + rest;
    assert text != "" && IsNumberChar(text[0]) && s[0] == text[0];
    assert s[..|text|] == text && s[|text|..] == rest;
    assert "true"[0] == 't' && "false"[0] == 'f' && "null"[0] == 'n';
  }

  // ----- values -----

  lemma StringReads(v: string, rest: string)
    ensures ReadValue("\"" + RenderChars(v) + "\"" + rest) == Some((Str(v), rest))
  {
    hide RenderChars, ReadString;
    var s := "\"" + RenderChars(v) + "\"" + rest;
    assert s[0] == '"' && s[1..] == RenderChars(v) + ("\"" + rest);
    CharsRead(v, rest);
  }

  lemma WordReads(j: Json, rest: string)
    requires j.Null? || j.Bool?
    ensures ReadValue(Render(j) + rest) == Some((j, rest))
  {
    var s := Render(j) + rest;
    match j
    case Null => assert s[0] == 'n' && s[4..] == rest;
    case Bool(b) => assert s[0] == (if b then 't' else 'f') && s[if b then 4 else 5..] == rest;
  }

  lemma NotBlank(s: string)
    requires s != "" && s[0] != ' ' && s[0] != '\t' && s[0] != '\n' && s[0] != '\r'
    ensures SkipBlank(s) == s
  {}

  /** A rendered value starts with none of the marks that end one. */
  lemma RenderStarts(j: Json)
    requires Renderable(j)
    ensures var s := Render(j);
            s != "" && s[0] != ' ' && s[0] != '\t' && s[0] != '\n' && s[0] != '\r' && s[0] != ']' && s[0] != '}'
  {
    hide RenderItems, RenderMembers, RenderChars, Join;
    if j.Num? { NumberChars(j.text); }
  }

  /** What is written for a tree reads as that tree, and up to its end only. */
  lemma {:induction false} RenderReads(j: Json, rest: string)
    requires Renderable(j) && Ends(rest)
    ensures ReadValue(Render(j) + rest) == Some((j, rest))
    decreases j, 1
  {
    hide ReadElements, ReadMembers, ReadString, RenderChars, Join, RenderableItems, RenderableMembers, IsNumber, NumberSpan;
    var s := Render(j) + rest;
    match j
    case Num(text) => NumberReads(text, rest);
    case Str(v) => StringReads(v, rest);
    case Arr(items) =>
      var body := Join(RenderItems(items), ",") + ("]" + rest);
      assert s[0] == '[' && s[1..] == body;
      if items == [] {
        NothingRendered();
        assert body == "]" + rest && body[1..] == rest;
        NotBlank(body);
      } else {
        ItemsRead(items, rest);
        ItemsStart(items, "]" + rest);
        NotBlank(body);
      }
    case Obj(members) =>
      var body := Join(RenderMembers(members), ",") + ("}" + rest);
      assert s[0] == '{' && s[1..] == body;
      if members == [] {
        NothingRendered();
        assert body == "}" + rest && body[1..] == rest;
        NotBlank(body);
      } else {
        MembersRead(members, rest);
        MembersStart(members, "}" + rest);
        NotBlank(body);
      }
    case _ => WordReads(j, rest);
  }

  lemma NothingRendered()
    ensures Join(RenderItems([]), ",") == "" && Join(RenderMembers([]), ",") == ""
  {}

  lemma JoinCons(first: string, rest: seq<string>, end: string)
    ensures Join([first] + rest, ",") + end == first + if rest == [] then end else "," + (Join(rest, ",") + end)
  {
    assert ([first] + rest)[1..] == rest;
  }

  lemma ItemsJoin(items: seq<Json>, end: string)
    requires items != []
    ensures Join(RenderItems(items), ",") + end
         == Render(items[0]) + if |items| == 1 then end else "," + (Join(RenderItems(items[1..]), ",") + end)
  {
    hide Render, Join;
    JoinCons(Render(items[0]), RenderItems(items[1..]), end);
  }

  lemma ItemsStart(items: seq<Json>, end: string)
    requires items != [] && RenderableItems(items)
    ensures var s := Join(RenderItems(items), ",") + end;
            s != "" && s[0] != ' ' && s[0] != '\t' && s[0] != '\n' && s[0] != '\r' && s[0] != ']'
  {
    hide Render, Join;
    ItemsJoin(items, end);
    RenderStarts(items[0]);
  }

  lemma {:induction false} ItemsRead(items: seq<Json>, rest: string)
    requires items != [] && RenderableItems(items)
    ensures ReadElements(Join(RenderItems(items), ",") + ("]" + rest)) == Some((items, rest))
    decreases items, 0
  {
    hide ReadValue, Render, RenderItems, Join;
    var end := "]" + rest;
    assert end[0] == ']' && end[1..] == rest;
    ItemsJoin(items, end);
    if |items| == 1 {
      RenderReads(items[0], end);
      NotBlank(end);
      assert items == [items[0]];
    } else {
      var more := Join(RenderItems(items[1..]), ",") + end;
      var tail := "," + more;
      assert tail[0] == ',' && tail[1..] == more;
      RenderReads(items[0], tail);
      NotBlank(tail);
      ItemsRead(items[1..], rest);
      assert items == [items[0]] + items[1..];
    }
  }

  function MemberText(m: Entry): string {
    "\"" + RenderChars(m.key) + "\":" + Render(m.value)
  }

  lemma MembersJoin(members: seq<Entry>, end: string)
    requires members != []
    ensures Join(RenderMembers(members), ",") + end
         == MemberText(members[0]) + if |members| == 1 then end else "," + (Join(RenderMembers(members[1..]), ",") + end)
  {
    hide Render, RenderChars, Join;
    JoinCons(MemberText(members[0]), RenderMembers(members[1..]), end);
  }

  lemma MembersStart(members: seq<Entry>, end: string)
    requires members != []
    ensures var s := Join(RenderMembers(members), ",") + end; s != "" && s[0] == '"'
  {
    hide Render, RenderChars, Join;
    MembersJoin(members, end);
  }

  lemma MemberReads(m: Entry, tail: string)
    requires Renderable(m.value) && tail != "" && (tail[0] == ',' || tail[0] == '}')
    requires ReadValue(Render(m.value) + tail) == Some((m.value, tail))
    ensures ReadMembers(MemberText(m) + tail)
         == if tail[0] == '}' then Some(([m], tail[1..]))
            else match ReadMembers(tail[1..]) case None => None case Some((ms, end)) => Some(([m] + ms, end))
  {
    hide ReadValue, ReadString, Render, RenderChars, Renderable;
    var value := Render(m.value) + tail;
    var afterName := ":" + value;
    var s := MemberText(m) + tail;
    assert "\":" == "\"" + ":";
    assert s[0] == '"' && s[1..] == RenderChars(m.key) + ("\"" + afterName);
    assert afterName[0] == ':' && afterName[1..] == value;
    CharsRead(m.key, afterName);
    NotBlank(s);
    NotBlank(afterName);
    NotBlank(tail);
  }

  lemma {:induction false} MembersRead(members: seq<Entry>, rest: string)
    requires members != [] && RenderableMembers(members)
    ensures ReadMembers(Join(RenderMembers(members), ",") + ("}" + rest)) == Some((members, rest))
    decreases members, 0
  {
    hide ReadValue, ReadMembers, Render, RenderMembers, Join, MemberText;
    var m, end := members[0], "}" + rest;
    assert end[0] == '}' && end[1..] == rest;
    MembersJoin(members, end);
    if |members| == 1 {
      RenderReads(m.value, end);
      MemberReads(m, end);
      assert members == [m];
    } else {
      var more := Join(RenderMembers(members[1..]), ",") + end;
      var tail := "," + more;
      assert tail[0] == ',' && tail[1..] == more;
      RenderReads(m.value, tail);
      MemberReads(m, tail);
      MembersRead(members[1..], rest);
      assert members == [m] + members[1..];
    }
  }

  /** The text of a tree is a document that reads as the tree. */
  lemma {:induction false} RenderRoundTrip(j: Json)
    requires Renderable(j)
    ensures ReadDocument(Render(j)) == Some(j)
  {
    hide ReadValue, Render, Renderable;
    RenderReads(j, "");
    assert Render(j) + "" == Render(j);
    assert SkipBlank("") == "";
  }

  /** The text an array argument is flattened to is the list of its items, and reads back as them. */
  lemma ArrayTextReads(items: seq<Json>)
    requires RenderableItems(items)
    ensures ReadDocument("[" + LeafText(Arr(items)) + "]") == Some(Arr(items))
  {
    hide ReadDocument, RenderItems, Join;
    RenderRoundTrip(Arr(items));
  }
}
