/** Splitting a free-text argument string into arguments, with single and double quotes. */
module ArgSplitter {
  import opened Text

  datatype Scan = Scan(args: seq<string>, current: string, quote: Option<char>, hasToken: bool)

  predicate IsQuote(c: char) {
    c == '"' || c == '\''
  }

  const START := Scan([], "", None, false)

  function Step(s: Scan, ch: char): Scan {
    if s.quote.Some? then
      if ch == s.quote.value then s.(quote := None) else s.(current := s.current + [ch])
    else if IsQuote(ch) then s.(quote := Some(ch), hasToken := true)
    else if IsSpace(ch) then
      if s.hasToken then Scan(s.args + [s.current], "", None, false) else s
    else s.(current := s.current + [ch], hasToken := true)
  }

  function Run(s: Scan, input: string): Scan
    decreases |input|
  {
    if input == "" then s else Run(Step(s, input[0]), input[1..])
  }

  function Flush(s: Scan): seq<string> {
    if s.hasToken then s.args + [s.current] else s.args
  }

  /** A quote still open at the end is taken as closed there. */
  function Parse(input: string): seq<string> {
    Flush(Run(START, input))
  }

  method ParseArgs(input: string) returns (args: seq<string>)
    ensures args == Parse(input)
  {
    args := [];
    var current, quote, hasToken := "", None, false;
    for i := 0 to |input|
      invariant Run(Scan(args, current, quote, hasToken), input[i..]) == Run(START, input)
    {
      var ch := input[i];
      assert input[i..][0] == ch && input[i..][1..] == input[i + 1..];
      if quote.Some? {
        if ch == quote.value {
          quote := None;
        } else {
          current := current + [ch];
        }
      } else if IsQuote(ch) {
        quote, hasToken := Some(ch), true;
      } else if IsSpace(ch) {
        if hasToken {
          args, current, hasToken := args + [current], "", false;
        }
      } else {
        current, hasToken := current + [ch], true;
      }
    }
    if hasToken {
      args := args + [current];
    }
  }

  lemma {:induction false} RunConcat(s: Scan, a: string, b: string)
    ensures Run(s, a + b) == Run(Run(s, a), b)
    decreases |a|
  {
    if a == "" {
      assert a + b == b;
    } else {
      assert (a + b)[1..] == a[1..] + b;
      RunConcat(Step(s, a[0]), a[1..], b);
    }
  }

  /** Arguments already found play no part in what follows. */
  lemma {:induction false} RunPrefix(before: seq<string>, s: Scan, input: string)
    ensures Run(s.(args := before + s.args), input) == Run(s, input).(args := before + Run(s, input).args)
    decreases |input|
  {
    if input != "" {
      RunPrefix(before, Step(s, input[0]), input[1..]);
      assert before + s.args + [s.current] == before + (s.args + [s.current]);
    }
  }

  ghost predicate Sound(s: Scan) {
    && (s.quote.Some? ==> s.hasToken && IsQuote(s.quote.value))
    && (!s.hasToken ==> s.current == "")
  }

  lemma {:induction false} RunSound(s: Scan, input: string)
    requires Sound(s)
    ensures Sound(Run(s, input))
    decreases |input|
  {
    if input != "" {
      RunSound(Step(s, input[0]), input[1..]);
    }
  }

  predicate White(w: string) {
    w != "" && forall i :: 0 <= i < |w| ==> IsSpace(w[i])
  }

  lemma {:induction false} RunWhite(s: Scan, w: string)
    requires White(w) && Sound(s) && s.quote.None?
    ensures Run(s, w) == Scan(Flush(s), "", None, false)
    decreases |w|
  {
    assert !IsQuote(w[0]);
    if |w| > 1 {
      RunWhite(Step(s, w[0]), w[1..]);
    } else {
      assert w[1..] == "";
    }
  }

  lemma {:induction false} RunInQuote(s: Scan, text: string)
    requires s.quote.Some? && s.quote.value !in text
    ensures Run(s, text) == s.(current := s.current + text)
    decreases |text|
  {
    if text == "" {
      assert s.current + text == s.current;
    } else {
      RunInQuote(Step(s, text[0]), text[1..]);
      assert s.current + [text[0]] + text[1..] == s.current + text;
    }
  }

  predicate QuoteOpen(s: string) {
    Run(START, s).quote.Some?
  }

  /** Once a token has begun, it is the next argument, and it only grows. */
  lemma {:induction false} TokenGrows(s: Scan, input: string)
    requires s.hasToken
    ensures var r := Flush(Run(s, input)); |r| > |s.args| && r[..|s.args|] == s.args && s.current <= r[|s.args|]
    decreases |input|
  {
    if input == "" {
    } else {
      var s' := Step(s, input[0]);
      if s'.hasToken {
        TokenGrows(s', input[1..]);
      } else {
        var rest := s'.(args := []);
        RunPrefix(s'.args, rest, input[1..]);
        assert s'.args + rest.args == s'.args;
        assert s'.args[..|s.args|] == s.args;
      }
    }
  }

  /** With a quote left open the white space becomes part of the argument that s ended in. */
  lemma OpenQuoteGoesOn(s: string, w: string, t: string)
    requires White(w) && QuoteOpen(s)
    ensures Flush(Run(Run(START, s), w + t)) != Parse(s) + Parse(t)
  {
    RunSound(START, s);
    var end := Run(START, s);
    var next := Step(end, w[0]);
    assert (w + t)[1..] == w[1..] + t;
    assert Run(end, w + t) == Run(next, w[1..] + t);
    TokenGrows(next, w[1..] + t);
    assert next.current == end.current + [w[0]];
    assert (Parse(s) + Parse(t))[|end.args|] == end.current;
  }

  lemma ClosedQuotesPart(s: string, w: string, t: string)
    requires White(w) && !QuoteOpen(s)
    ensures Flush(Run(Run(Run(START, s), w), t)) == Parse(s) + Parse(t)
  {
    RunSound(START, s);
    var end := Run(START, s);
    RunWhite(end, w);
    RunPrefix(Flush(end), START, t);
    assert Flush(end) + [] == Flush(end);
    assert START.(args := Flush(end) + START.args) == Scan(Flush(end), "", None, false);
    var tail := Run(START, t);
    assert Flush(end) + tail.args + [tail.current] == Flush(end) + (tail.args + [tail.current]);
  }

  /**
   * Parsing s, white space, t gives the arguments of s followed by those of t if and only if s leaves no quote open.
   */
  lemma ParseConcatIff(s: string, w: string, t: string)
    requires White(w)
    ensures Parse(s + w + t) == Parse(s) + Parse(t) <==> !QuoteOpen(s)
  {
    assert s + w + t == s + (w + t);
    RunConcat(START, s, w + t);
    RunConcat(Run(START, s), w, t);
    hide QuoteOpen, White, Run;
    if QuoteOpen(s) {
      OpenQuoteGoesOn(s, w, t);
    } else {
      ClosedQuotesPart(s, w, t);
    }
  }

  /** Each argument between two of its quote characters, and white space between the arguments. */
  function Quoted(args: seq<string>, quotes: seq<char>, gaps: seq<string>): string
    requires |quotes| == |args| && |gaps| == |args|
  {
    if args == [] then ""
    else if |args| == 1 then [quotes[0]] + args[0] + [quotes[0]]
    else [quotes[0]] + args[0] + [quotes[0]] + gaps[0] + Quoted(args[1..], quotes[1..], gaps[1..])
  }

  lemma QuotedArgument(arg: string, q: char)
    requires IsQuote(q) && q !in arg
    ensures Run(START, [q] + arg + [q]) == Scan([], arg, None, true)
  {
    var open := Scan([], "", Some(q), true);
    RunConcat(START, [q] + arg, [q]);
    RunConcat(START, [q], arg);
    assert Run(START, [q]) == open by {
      assert [q][1..] == "";
    }
    RunInQuote(open, arg);
    assert "" + arg == arg;
    assert [q][1..] == "";
  }

  /** Every list of arguments, empty ones included, comes back from its quoted form. */
  lemma {:induction false} QuotedParsesBack(args: seq<string>, quotes: seq<char>, gaps: seq<string>)
    requires |quotes| == |args| && |gaps| == |args|
    requires forall i :: 0 <= i < |args| ==> IsQuote(quotes[i]) && quotes[i] !in args[i] && White(gaps[i])
    ensures Parse(Quoted(args, quotes, gaps)) == args
  {
    if args != [] {
      var first := [quotes[0]] + args[0] + [quotes[0]];
      QuotedArgument(args[0], quotes[0]);
      assert Parse(first) == [args[0]];
      if |args| > 1 {
        var rest := Quoted(args[1..], quotes[1..], gaps[1..]);
        QuotedParsesBack(args[1..], quotes[1..], gaps[1..]);
        ParseConcatIff(first, gaps[0], rest);
        assert [args[0]] + args[1..] == args;
      }
    }
  }

  // ---- Arguments as one would type them: plain and quoted pieces side by side.

  datatype Piece = Plain(text: string) | Between(text: string, quote: char)

  predicate GoodPiece(p: Piece) {
    match p
    case Plain(text) => text != "" && forall i :: 0 <= i < |text| ==> text[i] != '"' && text[i] != '\'' && text[i] !in SPACES
    case Between(text, q) => (q == '"' || q == '\'') && q !in text
  }

  function TypedPiece(p: Piece): string {
    match p
    case Plain(text) => text
    case Between(text, q) => [q] + text + [q]
  }

  function Typed(pieces: seq<Piece>): string {
    if pieces == [] then "" else TypedPiece(pieces[0]) + Typed(pieces[1..])
  }

  /** What the argument stands for: the pieces' texts, one after the other. */
  function Meant(pieces: seq<Piece>): string {
    if pieces == [] then "" else pieces[0].text + Meant(pieces[1..])
  }

  predicate GoodArgument(pieces: seq<Piece>) {
    pieces != [] && forall i :: 0 <= i < |pieces| ==> GoodPiece(pieces[i])
  }

  predicate Blank(w: string) {
    w == "" || White(w)
  }

  function CommandLine(args: seq<seq<Piece>>, gaps: seq<string>): string
    requires |gaps| == |args|
  {
    if args == [] then ""
    else if |args| == 1 then Typed(args[0])
    else Typed(args[0]) + gaps[0] + CommandLine(args[1..], gaps[1..])
  }

  lemma {:induction false} RunPlain(s: Scan, text: string)
    requires s.quote.None? && GoodPiece(Plain(text))
    ensures Run(s, text) == s.(current := s.current + text, hasToken := true)
    decreases |text|
  {
    var next := Step(s, text[0]);
    SpacesListed(text[0]);
    hide IsSpace, SPACES;
    if |text| > 1 {
      RunPlain(next, text[1..]);
      assert s.current + [text[0]] + text[1..] == s.current + text;
    } else {
      assert text == [text[0]] && text[1..] == "";
    }
  }

  lemma RunBetween(s: Scan, text: string, q: char)
    requires s.quote.None? && GoodPiece(Between(text, q))
    ensures Run(s, [q] + text + [q]) == s.(current := s.current + text, hasToken := true)
  {
    var open := s.(quote := Some(q), hasToken := true);
    RunConcat(s, [q] + text, [q]);
    RunConcat(s, [q], text);
    assert [q][1..] == "" && Run(s, [q]) == open;
    RunInQuote(open, text);
  }

  lemma RunPiece(s: Scan, p: Piece)
    requires s.quote.None? && GoodPiece(p)
    ensures Run(s, TypedPiece(p)) == s.(current := s.current + p.text, hasToken := true)
  {
    hide Run;
    match p
    case Plain(text) => RunPlain(s, text);
    case Between(text, q) => RunBetween(s, text, q);
  }

  lemma PiecesMore(pieces: seq<Piece>, current: string)
    requires pieces != []
    ensures Typed(pieces) == TypedPiece(pieces[0]) + Typed(pieces[1..])
    ensures current + pieces[0].text + Meant(pieces[1..]) == current + Meant(pieces)
  {
    hide TypedPiece;
    Assoc(current, pieces[0].text, Meant(pieces[1..]));
  }

  lemma Assoc(a: string, b: string, c: string)
    ensures a + b + c == a + (b + c)
  {
  }

  lemma NoPieces(s: Scan)
    ensures Run(s, Typed([])) == s.(current := s.current + Meant([]))
  {
    assert s.current + "" == s.current;
  }

  lemma {:induction false} RunTyped(s: Scan, pieces: seq<Piece>)
    requires s.quote.None? && forall i :: 0 <= i < |pieces| ==> GoodPiece(pieces[i])
    ensures Run(s, Typed(pieces)) == s.(current := s.current + Meant(pieces), hasToken := s.hasToken || pieces != [])
    decreases |pieces|
  {
    hide *;
    if pieces == [] {
      NoPieces(s);
    } else {
      var p, rest := pieces[0], pieces[1..];
      PiecesMore(pieces, s.current);
      RunConcat(s, TypedPiece(p), Typed(rest));
      RunPiece(s, p);
      RunTyped(s.(current := s.current + p.text, hasToken := true), rest);
    }
  }

  lemma ArgumentRead(pieces: seq<Piece>)
    requires GoodArgument(pieces)
    ensures Run(START, Typed(pieces)) == Scan([], Meant(pieces), None, true)
  {
    RunTyped(START, pieces);
    assert "" + Meant(pieces) == Meant(pieces);
  }

  lemma {:induction false} CommandLineRead(args: seq<seq<Piece>>, gaps: seq<string>)
    requires |gaps| == |args| && forall i :: 0 <= i < |args| ==> GoodArgument(args[i]) && White(gaps[i])
    ensures Parse(CommandLine(args, gaps)) == seq(|args|, i requires 0 <= i < |args| => Meant(args[i]))
    ensures !QuoteOpen(CommandLine(args, gaps))
    decreases |args|
  {
    hide GoodArgument, White;
    if args != [] {
      var first := Typed(args[0]);
      ArgumentRead(args[0]);
      if |args| > 1 {
        var rest := CommandLine(args[1..], gaps[1..]);
        CommandLineRead(args[1..], gaps[1..]);
        ParseConcatIff(first, gaps[0], rest);
        ClosedAfter(first, gaps[0], rest);
      }
    }
  }

  lemma ClosedAfter(s: string, w: string, t: string)
    requires White(w) && !QuoteOpen(s) && !QuoteOpen(t)
    ensures !QuoteOpen(s + w + t)
  {
    assert s + w + t == s + (w + t);
    RunConcat(START, s, w + t);
    RunConcat(Run(START, s), w, t);
    RunSound(START, s);
    RunWhite(Run(START, s), w);
    var end := Flush(Run(START, s));
    RunPrefix(end, START, t);
    assert START.(args := end + START.args) == Scan(end, "", None, false);
  }

  /**
   * What was typed parses to what was meant: arguments of plain and quoted pieces, with any white space between, before
   * and after them. Plain words, quoted arguments and mixtures of both are special cases.
   */
  lemma TypedParsesBack(args: seq<seq<Piece>>, gaps: seq<string>, before: string, after: string)
    requires |gaps| == |args| && forall i :: 0 <= i < |args| ==> GoodArgument(args[i]) && White(gaps[i])
    requires Blank(before) && Blank(after)
    ensures Parse(before + CommandLine(args, gaps) + after) == seq(|args|, i requires 0 <= i < |args| => Meant(args[i]))
  {
    var line := CommandLine(args, gaps);
    CommandLineRead(args, gaps);
    RunConcat(START, before + line, after);
    RunConcat(START, before, line);
    assert Run(START, before) == START by {
      if before != "" {
        RunWhite(START, before);
      }
    }
    RunSound(START, line);
    if after != "" {
      RunWhite(Run(START, line), after);
    }
  }
}
