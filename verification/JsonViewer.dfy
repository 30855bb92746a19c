/** JSON text as `JSON.stringify(value, null, 2)` prints it (section 25.5.2 of ECMA-262). */
module JsonPrinter {
  import opened Text

  datatype Member = Member(key: string, value: Json)

  /** What is left to print after toJSON calls and dropped properties. A Literal is a number, true, false or null. */
  datatype Json =
    | Literal(text: string)
    | Str(value: string)
    | Arr(items: seq<Json>)
    | Obj(members: seq<Member>)

  predicate LiteralText(t: string) {
    && t != ""
    && forall i :: 0 <= i < |t| ==> 'a' <= t[i] <= 'z' || '0' <= t[i] <= '9' || t[i] in "+-."
  }

  /** Literals are literals, and no object has the same key twice. */
  predicate Valid(j: Json) {
    match j
    case Literal(t) => LiteralText(t)
    case Str(_) => true
    case Arr(items) => forall i :: 0 <= i < |items| ==> Valid(items[i])
    case Obj(ms) =>
      && (forall i :: 0 <= i < |ms| ==> Valid(ms[i].value))
      && (forall i, k :: 0 <= i < k < |ms| ==> ms[i].key != ms[k].key)
  }

  /** One code point of QuoteJSONString (25.5.2.3). */
  function EscapeChar(c: char): string {
    if c == '"' then "\\\""
    else if c == '\\' then "\\\\"
    else if c == '\U{8}' then "\\b"
    else if c == '\t' then "\\t"
    else if c == '\n' then "\\n"
    else if c == '\U{C}' then "\\f"
    else if c == '\r' then "\\r"
    else if c < ' ' then "\\u00" + [HexDigit(c as int / 16), HexDigit(c as int % 16)]
    else [c]
  }

  function Escape(s: string): string {
    if s == "" then "" else EscapeChar(s[0]) + Escape(s[1..])
  }

  function Quote(s: string): string {
    "\"" + Escape(s) + "\""
  }

  /** A key that QuoteJSONString copies as it is. */
  predicate Plain(s: string) {
    forall i :: 0 <= i < |s| ==> s[i] != '"' && s[i] != '\\' && s[i] >= ' '
  }

  function Indent(d: nat): (r: string)
    ensures |r| == 2 * d && forall i :: 0 <= i < |r| ==> r[i] == ' '
  {
    seq(2 * d, _ => ' ')
  }

  /** A non-empty array or object: brackets around an indented body. */
  function Wrap(open: string, indent: string, body: string, stepback: string, close: string): string {
    open + "\n" + indent + body + "\n" + stepback + close
  }

  /** A member or item, and what follows it in a list of them. */
  function Separated(first: string, last: bool, indent: string, rest: string): string {
    if last then first else first + "," + "\n" + indent + rest
  }

  /** SerializeJSONProperty with a gap of two spaces, for a value standing at depth `d`. */
  function Print(j: Json, d: nat): string
    decreases j, 1
  {
    match j
    case Literal(t) => t
    case Str(s) => Quote(s)
    case Arr(items) =>
      if items == [] then "[]"
      else Wrap("[", Indent(d + 1), PrintItems(items, d + 1), Indent(d), "]")
    case Obj(ms) =>
      if ms == [] then "{}"
      else Wrap("{", Indent(d + 1), PrintMembers(ms, d + 1), Indent(d), "}")
  }

  function PrintMembers(ms: seq<Member>, d: nat): string
    decreases ms, 0
  {
    if ms == [] then ""
    else
      Separated(Quote(ms[0].key) + ": " + Print(ms[0].value, d), |ms| == 1, Indent(d), PrintMembers(ms[1..], d))
  }

  function PrintItems(items: seq<Json>, d: nat): string
    decreases items, 0
  {
    if items == [] then ""
    else
      Separated(Print(items[0], d), |items| == 1, Indent(d), PrintItems(items[1..], d))
  }

  // ---- Quoted text read back, by the string grammar of section 7 of RFC 8259.

  /** The characters up to the closing quote, and what comes after it; None for anything that is no string. */
  function ReadString(s: string): Option<(string, string)> {
    if s == "" || s[0] < ' ' then None
    else if s[0] == '"' then Some(("", s[1..]))
    else if s[0] != '\\' then ReadMore(s[0], ReadString(s[1..]))
    else if |s| > 1 && s[1] in "\"\\/bfnrt" then ReadMore(Unescaped(s[1]), ReadString(s[2..]))
    else if |s| > 5 && s[1] == 'u' && (forall i :: 2 <= i < 6 ==> IsHex(s[i])) && !Surrogate(CodeUnit(s[2], s[3], s[4], s[5]))
    then ReadMore(CodeUnit(s[2], s[3], s[4], s[5]) as char, ReadString(s[6..]))
    else None
  }

  function ReadMore(c: char, rest: Option<(string, string)>): Option<(string, string)> {
    match rest
    case None => None
    case Some((more, after)) => Some(([c] + more, after))
  }

  function Unescaped(c: char): char {
    if c == 'b' then '\U{8}'
    else if c == 'f' then '\U{C}'
    else if c == 'n' then '\n'
    else if c == 'r' then '\r'
    else if c == 't' then '\t'
    else c
  }

  function CodeUnit(a: char, b: char, c: char, d: char): (n: nat)
    requires IsHex(a) && IsHex(b) && IsHex(c) && IsHex(d)
    ensures n < 0x1_0000
  {
    ((HexValue(a) * 16 + HexValue(b)) * 16 + HexValue(c)) * 16 + HexValue(d)
  }

  predicate Surrogate(n: nat) {
    0xD800 <= n < 0xE000
  }

  lemma ShortRead(e: char, rest: string)
    requires e in "\"\\/bfnrt"
    ensures ReadString("\\" + [e] + rest) == ReadMore(Unescaped(e), ReadString(rest))
  {
    var s := "\\" + [e] + rest;
    assert s[0] == '\\' && s[1] == e && s[2..] == rest;
    hide Unescaped;
  }

  lemma PlainRead(c: char, rest: string)
    requires c >= ' ' && c != '"' && c != '\\'
    ensures ReadString([c] + rest) == ReadMore(c, ReadString(rest))
  {
    assert ([c] + rest)[0] == c && ([c] + rest)[1..] == rest;
  }

  lemma LowCode(n: nat)
    requires n < 32
    ensures var a, b := HexDigit(n / 16), HexDigit(n % 16);
      IsHex('0') && IsHex(a) && IsHex(b) && CodeUnit('0', '0', a, b) == n && !Surrogate(n)
  {
    HexDigitsInOrder(n / 16);
    HexDigitsInOrder(n % 16);
    hide HexDigit, IsHex;
  }

  lemma LowRead(n: nat, rest: string)
    requires n < 32
    ensures ReadString("\\u00" + [HexDigit(n / 16), HexDigit(n % 16)] + rest) == ReadMore(n as char, ReadString(rest))
  {
    LowCode(n);
    hide CodeUnit, HexDigit, IsHex, Surrogate, Unescaped;
    var a, b := HexDigit(n / 16), HexDigit(n % 16);
    var s := "\\u00" + [a, b] + rest;
    assert s[0] == '\\' && s[1] == 'u' && s[2] == '0' && s[3] == '0' && s[4] == a && s[5] == b && s[6..] == rest;
  }

  lemma EscapeRead(c: char, rest: string)
    ensures ReadString(EscapeChar(c) + rest) == ReadMore(c, ReadString(rest))
  {
    hide ReadString, HexDigit, ReadMore;
    if c in {'"', '\\', '\U{8}', '\t', '\n', '\U{C}', '\r'} {
      var e := EscapeChar(c)[1];
      ShortRead(e, rest);
      assert EscapeChar(c) == "\\" + [e];
    } else if c < ' ' {
      LowRead(c as int, rest);
    } else {
      PlainRead(c, rest);
    }
  }

  lemma Behind(c: char, a: string, b: string, after: string)
    ensures ([c] + a + b)[0] == c && ([c] + a + b)[1..] + after == a + (b + after)
  {
    assert ([c] + a + b)[1..] == a + b;
  }

  lemma InFront(a: string, b: string, c: string)
    ensures (a + b) + c == a + (b + c)
  {
  }

  lemma QuoteSplits(k: string, after: string)
    ensures Quote(k)[0] == '"' && Quote(k)[1..] + after == Escape(k) + ("\"" + after)
  {
    hide Escape;
    Behind('"', Escape(k), "\"", after);
  }

  lemma EscapeSplits(k: string, rest: string)
    requires k != ""
    ensures Escape(k) + rest == EscapeChar(k[0]) + (Escape(k[1..]) + rest) && [k[0]] + k[1..] == k
  {
    hide EscapeChar;
    InFront(EscapeChar(k[0]), Escape(k[1..]), rest);
  }

  lemma NothingQuoted(after: string)
    ensures Escape("") + ("\"" + after) == "\"" + after && ReadString("\"" + after) == Some(("", after))
  {
    assert ("\"" + after)[1..] == after;
  }

  /** Every string, whatever its characters, is what its quoted form reads back to, and the form ends where it should. */
  lemma {:induction false} QuotedReadsBack(k: string, after: string)
    ensures Quote(k)[0] == '"' && ReadString(Quote(k)[1..] + after) == Some((k, after))
    decreases |k|
  {
    hide Quote, Escape, EscapeChar, ReadString;
    QuoteSplits(k, after);
    if k == "" {
      NothingQuoted(after);
    } else {
      QuotedReadsBack(k[1..], after);
      QuoteSplits(k[1..], after);
      EscapeSplits(k, "\"" + after);
      EscapeRead(k[0], Escape(k[1..]) + ("\"" + after));
    }
  }

  lemma TwoItems(first: Json, second: Json, d: nat)
    ensures PrintItems([first, second], d) == Print(first, d) + "," + "\n" + Indent(d) + Print(second, d)
  {
    hide Print, Indent;
    assert [first, second][1..] == [second];
  }

  /** How an array is laid out. */
  lemma ArrayPrinted()
    ensures Print(Arr([Literal("1"), Literal("2")]), 0) == "[\n  1,\n  2\n]"
  {
    TwoItems(Literal("1"), Literal("2"), 1);
    assert Indent(0) == "" && Indent(1) == "  ";
    var body := PrintItems([Literal("1"), Literal("2")], 1);
    hide PrintItems, Indent;
    assert body == "1,\n  2";
    assert Wrap("[", "  ", body, "", "]") == "[\n  1,\n  2\n]";
  }

  /** How an object is laid out. */
  lemma ObjectPrinted()
    ensures Print(Obj([Member("a", Literal("1"))]), 0) == "{\n  \"a\": 1\n}"
  {
    var list := [Member("a", Literal("1"))];
    assert Indent(0) == "" && Indent(1) == "  ";
    KeyQuoted('a');
    hide Quote, Indent;
    assert PrintMembers(list, 1) == "\"a\": 1";
  }

  lemma KeyQuoted(c: char)
    requires 'a' <= c <= 'z'
    ensures Quote([c]) == ['"', c, '"']
  {
    assert [c][1..] == "" && Escape([c]) == [c] + "";
  }

  /** The single-character escapes of section 25.5.2.3, and an example of the others. */
  lemma ShortEscapes()
    ensures EscapeChar('\U{8}') == "\\b" && EscapeChar('\t') == "\\t" && EscapeChar('\n') == "\\n"
    ensures EscapeChar('\U{C}') == "\\f" && EscapeChar('\r') == "\\r" && EscapeChar('"') == "\\\"" && EscapeChar('\\') == "\\\\"
    ensures EscapeChar('\U{1F}') == "\\u001f" && EscapeChar('/') == "/"
  {
  }

  // ---- The same text line by line: `head` stands before the value's first line, `tail` after its last.

  function Lines(j: Json, d: nat, head: string, tail: string): (r: seq<string>)
    ensures |r| >= 1
    decreases j, 1
  {
    match j
    case Literal(t) => [head + t + tail]
    case Str(s) => [head + Quote(s) + tail]
    case Arr(items) =>
      if items == [] then [head + "[]" + tail]
      else [head + "["] + ItemLines(items, d + 1) + [Indent(d) + "]" + tail]
    case Obj(ms) =>
      if ms == [] then [head + "{}" + tail]
      else [head + "{"] + MemberLines(ms, d + 1) + [Indent(d) + "}" + tail]
  }

  function Comma<T>(rest: seq<T>): string {
    if |rest| <= 1 then "" else ","
  }

  function MemberHead(key: string, d: nat): string {
    Indent(d) + Quote(key) + ": "
  }

  function MemberLines(ms: seq<Member>, d: nat): (r: seq<string>)
    ensures ms != [] ==> r != []
    decreases ms, 0
  {
    if ms == [] then []
    else Lines(ms[0].value, d, MemberHead(ms[0].key, d), Comma(ms)) + MemberLines(ms[1..], d)
  }

  function ItemLines(items: seq<Json>, d: nat): (r: seq<string>)
    ensures items != [] ==> r != []
    decreases items, 0
  {
    if items == [] then []
    else Lines(items[0], d, Indent(d), Comma(items)) + ItemLines(items[1..], d)
  }

  lemma {:induction false} PrintIsLines(j: Json, d: nat, head: string, tail: string)
    ensures Join(Lines(j, d, head, tail), "\n") == head + Print(j, d) + tail
    decreases j, 1
  {
    match j
    case Literal(t) =>
    case Str(s) =>
    case Arr(items) =>
      if items != [] {
        PrintItemsIsLines(items, d + 1);
        WrapLines(head, "[", Indent(d + 1), PrintItems(items, d + 1), ItemLines(items, d + 1), Indent(d), "]", tail);
      }
    case Obj(ms) =>
      if ms != [] {
        PrintMembersIsLines(ms, d + 1);
        WrapLines(head, "{", Indent(d + 1), PrintMembers(ms, d + 1), MemberLines(ms, d + 1), Indent(d), "}", tail);
      }
  }

  lemma WrapLines(head: string, open: string, indent: string, body: string, lines: seq<string>,
                  stepback: string, close: string, tail: string)
    requires lines != [] && Join(lines, "\n") == indent + body
    ensures Join([head + open] + lines + [stepback + close + tail], "\n")
         == head + Wrap(open, indent, body, stepback, close) + tail
  {
    JoinConcat([head + open] + lines, [stepback + close + tail], "\n");
    JoinConcat([head + open], lines, "\n");
    assert (head + open) + "\n" + (indent + body) + "\n" + (stepback + close + tail)
        == head + Wrap(open, indent, body, stepback, close) + tail;
  }

  lemma SeparatedLines(indent: string, first: string, firstLines: seq<string>, rest: string, restLines: seq<string>)
    requires firstLines != [] && restLines != []
    requires Join(firstLines, "\n") == indent + first + ","
    requires Join(restLines, "\n") == indent + rest
    ensures Join(firstLines + restLines, "\n") == indent + Separated(first, false, indent, rest)
  {
    JoinConcat(firstLines, restLines, "\n");
    Regroup(indent, first, ",", "\n", indent, rest);
  }

  lemma Regroup(a: string, b: string, c: string, d: string, e: string, f: string)
    ensures (a + b + c) + d + (e + f) == a + (b + c + d + e + f)
  {
    assert (a + b + c) + d == a + (b + c + d);
    assert (a + (b + c + d)) + (e + f) == a + ((b + c + d) + (e + f));
    assert (b + c + d) + (e + f) == b + c + d + e + f;
  }

  lemma {:induction false} PrintMembersIsLines(ms: seq<Member>, d: nat)
    requires ms != []
    ensures Join(MemberLines(ms, d), "\n") == Indent(d) + PrintMembers(ms, d)
    decreases ms, 0
  {
    var head, first := MemberHead(ms[0].key, d), Print(ms[0].value, d);
    var lines := Lines(ms[0].value, d, head, Comma(ms));
    PrintIsLines(ms[0].value, d, head, Comma(ms));
    Assoc(Indent(d), Quote(ms[0].key), ": ", first, Comma(ms));
    if |ms| == 1 {
      assert MemberLines(ms, d) == lines;
    } else {
      PrintMembersIsLines(ms[1..], d);
      SeparatedLines(Indent(d), Quote(ms[0].key) + ": " + first, lines, PrintMembers(ms[1..], d), MemberLines(ms[1..], d));
    }
  }

  lemma Assoc(a: string, b: string, c: string, d: string, e: string)
    ensures (a + b + c) + d + e == a + (b + c + d) + e
  {
  }

  lemma {:induction false} PrintItemsIsLines(items: seq<Json>, d: nat)
    requires items != []
    ensures Join(ItemLines(items, d), "\n") == Indent(d) + PrintItems(items, d)
    decreases items, 0
  {
    var lines := Lines(items[0], d, Indent(d), Comma(items));
    PrintIsLines(items[0], d, Indent(d), Comma(items));
    if |items| == 1 {
      assert ItemLines(items, d) == lines;
    } else {
      PrintItemsIsLines(items[1..], d);
      SeparatedLines(Indent(d), Print(items[0], d), lines, PrintItems(items[1..], d), ItemLines(items[1..], d));
    }
  }

  // ---- No line holds a line break, so splitting the printed text gives the lines back.

  ghost predicate OneLine(s: string) {
    '\n' !in s
  }

  lemma {:induction false} EscapeOneLine(s: string)
    ensures OneLine(Escape(s))
  {
    if s != "" {
      EscapeOneLine(s[1..]);
    }
  }

  lemma {:induction false} LinesOneLine(j: Json, d: nat, head: string, tail: string)
    requires Valid(j) && OneLine(head) && OneLine(tail)
    ensures forall i :: 0 <= i < |Lines(j, d, head, tail)| ==> OneLine(Lines(j, d, head, tail)[i])
    decreases j, 1
  {
    match j
    case Literal(t) =>
    case Str(s) => EscapeOneLine(s);
    case Arr(items) => ItemLinesOneLine(items, d + 1);
    case Obj(ms) => MemberLinesOneLine(ms, d + 1);
  }

  lemma {:induction false} MemberLinesOneLine(ms: seq<Member>, d: nat)
    requires forall i :: 0 <= i < |ms| ==> Valid(ms[i].value)
    ensures forall i :: 0 <= i < |MemberLines(ms, d)| ==> OneLine(MemberLines(ms, d)[i])
    decreases ms, 0
  {
    if ms != [] {
      EscapeOneLine(ms[0].key);
      LinesOneLine(ms[0].value, d, MemberHead(ms[0].key, d), Comma(ms));
      MemberLinesOneLine(ms[1..], d);
    }
  }

  lemma {:induction false} ItemLinesOneLine(items: seq<Json>, d: nat)
    requires forall i :: 0 <= i < |items| ==> Valid(items[i])
    ensures forall i :: 0 <= i < |ItemLines(items, d)| ==> OneLine(ItemLines(items, d)[i])
    decreases items, 0
  {
    if items != [] {
      LinesOneLine(items[0], d, Indent(d), Comma(items));
      ItemLinesOneLine(items[1..], d);
    }
  }

  /** Splitting the ECMA-262 text at line breaks gives exactly the modelled lines. */
  lemma PrintedLines(j: Json)
    requires Valid(j)
    ensures Split(Print(j, 0), '\n') == Lines(j, 0, "", "")
  {
    PrintIsLines(j, 0, "", "");
    LinesOneLine(j, 0, "", "");
    SplitJoin(Lines(j, 0, "", ""), '\n');
    assert "" + Print(j, 0) + "" == Print(j, 0);
  }
}
