/** What whole lines of a vimrc come to: spacing, several options in one line, errors and their numbers, and the leader. */
module VimrcLines {
  import opened Text
  import opened Vimrc
  import opened VimrcParser

  // ---- A line is its words, however they are spaced.

  predicate Gap(w: string) {
    w != "" && forall i :: 0 <= i < |w| ==> IsSpace(w[i])
  }

  function Spaced(words: seq<string>, gaps: seq<string>): string
    requires |gaps| == |words|
  {
    if words == [] then ""
    else if |words| == 1 then words[0]
    else words[0] + gaps[0] + Spaced(words[1..], gaps[1..])
  }

  ghost predicate Gaps(gaps: seq<string>) {
    forall i :: 0 <= i < |gaps| ==> Gap(gaps[i])
  }

  lemma {:induction false} WordsAfterGap(gap: string, s: string)
    requires forall i :: 0 <= i < |gap| ==> IsSpace(gap[i])
    ensures Words(gap + s) == Words(s)
  {
    hide IsSpace;
    if gap == "" {
      assert gap + s == s;
    } else {
      assert (gap + s)[1..] == gap[1..] + s;
      WordsAfterGap(gap[1..], s);
    }
  }

  lemma FirstWord(word: string, rest: string)
    requires IsWord(word) && (rest == "" || IsSpace(rest[0]))
    ensures Words(word + rest) == [word] + Words(rest)
  {
    WordEndOf(word, rest);
    assert (word + rest)[..|word|] == word && (word + rest)[|word|..] == rest;
  }

  lemma {:induction false} WordsOfSpaced(words: seq<string>, gaps: seq<string>)
    requires |gaps| == |words| && AllWords(words) && Gaps(gaps)
    ensures Words(Spaced(words, gaps)) == words
  {
    if |words| == 1 {
      FirstWord(words[0], "");
      assert words[0] + "" == words[0] && words == [words[0]] + [];
    } else if words != [] {
      WordsOfSpaced(words[1..], gaps[1..]);
      var rest := Spaced(words[1..], gaps[1..]);
      assert Gap(gaps[0]);
      hide Words, IsSpace;
      FirstWord(words[0], gaps[0] + rest);
      WordsAfterGap(gaps[0], rest);
      assert words[0] + gaps[0] + rest == words[0] + (gaps[0] + rest);
    }
  }

  lemma {:induction false} SpacedEnds(words: seq<string>, gaps: seq<string>)
    requires |gaps| == |words| && words != [] && AllWords(words)
    ensures Trimmed(Spaced(words, gaps)) && Spaced(words, gaps)[0] == words[0][0]
    ensures words[0] <= Spaced(words, gaps)
    ensures |words| > 1 ==> Gaps(gaps) ==> |words[0]| < |Spaced(words, gaps)| && IsSpace(Spaced(words, gaps)[|words[0]|])
  {
    hide IsSpace;
    assert IsWord(words[0]);
    if |words| > 1 {
      SpacedEnds(words[1..], gaps[1..]);
      assert Gaps(gaps) ==> Gap(gaps[0]);
    }
  }

  /** Words that do not begin a comment or a `let`. */
  ghost predicate CommandWords(words: seq<string>) {
    words != [] && AllWords(words) && words[0][0] != '"' && words[0] != "let"
  }

  lemma NoLeader(words: seq<string>, gaps: seq<string>)
    requires |gaps| == |words| && CommandWords(words) && Gaps(gaps)
    ensures MapLeader(Spaced(words, gaps)) == None
  {
    var text := Spaced(words, gaps);
    SpacedEnds(words, gaps);
    if StartsWith(text, "let") && |text| >= 4 && IsSpace(text[3]) {
      LetIsFirst(text, words[0]);
    }
    hide Spaced, AllWords;
  }

  lemma LetIsFirst(text: string, word: string)
    requires StartsWith(text, "let") && |text| >= 4 && IsSpace(text[3])
    requires word != "" && word <= text && (forall i :: 0 <= i < |word| ==> !IsSpace(word[i]))
    requires |word| < |text| ==> IsSpace(text[|word|])
    ensures word == "let"
  {
    assert !IsSpace('l') && !IsSpace('e') && !IsSpace('t');
    assert text[0] == "let"[0] && text[1] == "let"[1] && text[2] == "let"[2];
    hide IsSpace;
    forall i | 0 <= i < |word|
      ensures word[i] == text[i] && i != 3
    {
      assert word[i] == text[i];
    }
    assert |word| == 3;
    assert word == text[..3] == "let";
  }

  /** Whatever the white space, a line is read as the command of its first word with the others as arguments. */
  lemma LineOfWords(leader: string, before: string, words: seq<string>, gaps: seq<string>, after: string)
    requires |gaps| == |words| && CommandWords(words) && Gaps(gaps) && Spaces(before) && Spaces(after)
    ensures ParseLine(leader, before + (Spaced(words, gaps) + after)) == ParseCommand(leader, words[0], words[1..])
  {
    SpacedEnds(words, gaps);
    WordsOfSpaced(words, gaps);
    NoLeader(words, gaps);
    TrimSpaces(before, Spaced(words, gaps), after);
    hide ParseCommand, Words, Trim, MapLeader, Spaced;
  }

  lemma LineAsWritten(leader: string, words: seq<string>, gaps: seq<string>)
    requires |gaps| == |words| && CommandWords(words) && Gaps(gaps)
    ensures ParseLine(leader, Spaced(words, gaps)) == ParseCommand(leader, words[0], words[1..])
  {
    LineOfWords(leader, "", words, gaps, "");
    hide *;
    assert "" + (Spaced(words, gaps) + "") == Spaced(words, gaps);
  }

  // ---- Several options in one line.

  predicate IsSet(word: string) {
    word == "set" || word == "se"
  }

  lemma SetWords(command: string, tokens: seq<string>)
    requires IsSet(command) && AllWords(tokens)
    ensures CommandWords([command] + tokens) && CommandOf(command) == SetCommand
  {
    assert "se" !in INHERITED && "set" !in INHERITED by {
      NotInheritedSet();
    }
    hide INHERITED;
    assert !IsSpace('s') && !IsSpace('e') && !IsSpace('t');
    hide IsSpace;
    assert IsWord(command);
  }

  function SetLine(command: string, tokens: seq<string>, gaps: seq<string>): string
    requires |gaps| == |tokens| + 1
  {
    Spaced([command] + tokens, gaps)
  }

  lemma SetLineRead(leader: string, command: string, tokens: seq<string>, gaps: seq<string>)
    requires IsSet(command) && AllWords(tokens) && tokens != [] && |gaps| == |tokens| + 1 && Gaps(gaps)
    ensures ParseLine(leader, Spaced([command] + tokens, gaps)) == Outcome(leader, SetDirectives(tokens), SetReasons(tokens))
  {
    SetWords(command, tokens);
    SetParses(leader, command, tokens);
    hide *;
    LineAsWritten(leader, [command] + tokens, gaps);
    assert ([command] + tokens)[1..] == tokens;
  }

  lemma SetParses(leader: string, command: string, tokens: seq<string>)
    requires CommandOf(command) == SetCommand && tokens != []
    ensures ParseCommand(leader, command, tokens) == Outcome(leader, SetDirectives(tokens), SetReasons(tokens))
  {
    hide CommandOf, SetDirectives, SetReasons;
  }

  lemma SetMore(tokens: seq<string>, rest: seq<string>)
    requires tokens != []
    ensures SetDirectives(tokens + rest)
         == (match ParseSet(tokens[0]) case None => [] case Some(d) => [d]) + SetDirectives(tokens[1..] + rest)
    ensures SetReasons(tokens + rest)
         == (match ParseSet(tokens[0]) case None => [ToggleUnsupported] case Some(_) => []) + SetReasons(tokens[1..] + rest)
  {
    hide ParseSet;
    assert (tokens + rest)[1..] == tokens[1..] + rest;
  }

  lemma SetNone(tokens: seq<string>)
    ensures SetDirectives([]) == [] && SetReasons([]) == [] && [] + tokens == tokens == tokens + []
  {
  }

  lemma {:induction false} SetConcat(a: seq<string>, b: seq<string>)
    ensures SetDirectives(a + b) == SetDirectives(a) + SetDirectives(b)
    ensures SetReasons(a + b) == SetReasons(a) + SetReasons(b)
  {
    hide *;
    SetNone(b);
    SetNone(a);
    if a == [] {
      assert SetDirectives(a) + SetDirectives(b) == SetDirectives(b) && SetReasons(a) + SetReasons(b) == SetReasons(b);
    } else {
      SetMore(a, b);
      SetMore(a, []);
      SetNone(a[1..]);
      SetConcat(a[1..], b);
    }
  }

  /** A set line with two lists of options says what two lines with one list each say, one after the other. */
  lemma SetLineSplits(leader: string, command: string, a: seq<string>, b: seq<string>,
                      gaps: seq<string>, gapsA: seq<string>, gapsB: seq<string>)
    requires IsSet(command) && AllWords(a) && AllWords(b) && a != [] && b != []
    requires |gaps| == |a| + |b| + 1 && |gapsA| == |a| + 1 && |gapsB| == |b| + 1 && Gaps(gaps) && Gaps(gapsA) && Gaps(gapsB)
    ensures var whole, first, second := ParseLine(leader, SetLine(command, a + b, gaps)),
                ParseLine(leader, SetLine(command, a, gapsA)), ParseLine(leader, SetLine(command, b, gapsB));
      whole == Outcome(leader, first.directives + second.directives, first.reasons + second.reasons)
  {
    SetLineRead(leader, command, a + b, gaps);
    SetLineRead(leader, command, a, gapsA);
    SetLineRead(leader, command, b, gapsB);
    SetConcat(a, b);
  }

  function OptionTokens(options: seq<(string, Value)>): seq<string> {
    if options == [] then [] else [OptionToken(options[0].0, options[0].1)] + OptionTokens(options[1..])
  }

  function OptionDirectives(options: seq<(string, Value)>): seq<Directive> {
    if options == [] then [] else [SetOption(options[0].0, options[0].1)] + OptionDirectives(options[1..])
  }

  lemma {:induction false} TokensReadBack(options: seq<(string, Value)>)
    requires forall i :: 0 <= i < |options| ==> Writable(SetOption(options[i].0, options[i].1))
    ensures |OptionTokens(options)| == |options| && AllWords(OptionTokens(options))
    ensures SetDirectives(OptionTokens(options)) == OptionDirectives(options) && SetReasons(OptionTokens(options)) == []
  {
    hide Writable, ParseSet, OptionToken, IsWord;
    if options != [] {
      var token := OptionToken(options[0].0, options[0].1);
      OptionReadsBack(options[0].0, options[0].1);
      TokensReadBack(options[1..]);
      SetConcat([token], OptionTokens(options[1..]));
      OneToken(token);
    }
  }

  lemma OneToken(token: string)
    ensures SetDirectives([token]) == match ParseSet(token) case None => [] case Some(d) => [d]
    ensures SetReasons([token]) == match ParseSet(token) case None => [ToggleUnsupported] case Some(_) => []
  {
    assert [token][1..] == [];
  }

  /** All the options of a set line are set, in order. */
  lemma OptionsReadBack(leader: string, command: string, options: seq<(string, Value)>, gaps: seq<string>)
    requires IsSet(command) && options != [] && forall i :: 0 <= i < |options| ==> Writable(SetOption(options[i].0, options[i].1))
    requires |gaps| == |options| + 1 && Gaps(gaps)
    ensures |OptionTokens(options)| == |options|
    ensures ParseLine(leader, SetLine(command, OptionTokens(options), gaps)) == Outcome(leader, OptionDirectives(options), [])
  {
    TokensReadBack(options);
    hide Writable, OptionTokens, OptionDirectives;
    SetLineRead(leader, command, OptionTokens(options), gaps);
  }

  // ---- Nothing a line says gets lost.

  /** How many directives and errors a line gives together. */
  function Yield(line: string): nat {
    var text := Trim(line);
    if text == "" || text[0] == '"' || MapLeader(text).Some? then 0
    else
      var words := Words(text);
      if |words| > 1 && IsSet(words[0]) then |words| - 1 else 1
  }

  lemma {:induction false} SetYields(tokens: seq<string>)
    ensures |SetDirectives(tokens)| + |SetReasons(tokens)| == |tokens|
  {
    hide ParseSet;
    if tokens != [] {
      SetYields(tokens[1..]);
    }
  }

  lemma {:induction false} TrimStartFirst(s: string)
    ensures TrimStart(s) != "" ==> !IsSpace(TrimStart(s)[0])
  {
    hide IsSpace;
    if s != "" && IsSpace(s[0]) {
      TrimStartFirst(s[1..]);
    }
  }

  lemma {:induction false} TrimEndKeepsStart(s: string)
    ensures TrimEnd(s) <= s && (TrimEnd(s) != "" ==> !IsSpace(TrimEnd(s)[|TrimEnd(s)| - 1]))
  {
    hide IsSpace;
    if s != "" && IsSpace(s[|s| - 1]) {
      TrimEndKeepsStart(s[..|s| - 1]);
    }
  }

  lemma TrimIsTrimmed(s: string)
    ensures Trim(s) == "" || Trimmed(Trim(s))
  {
    TrimStartFirst(s);
    TrimEndKeepsStart(TrimStart(s));
    hide TrimStart, TrimEnd, IsSpace;
  }

  lemma HasWords(text: string)
    requires Trimmed(text)
    ensures Words(text) != []
  {
  }

  lemma SetIsOnlySet(word: string)
    ensures CommandOf(word) == SetCommand <==> IsSet(word)
  {
    NotInheritedSet();
    assert "se" !in INHERITED;
    hide INHERITED;
  }

  lemma CommandYields(leader: string, command: string, args: seq<string>)
    ensures var o := ParseCommand(leader, command, args);
      && o.leader == leader
      && |o.directives| + |o.reasons| == if args != [] && IsSet(command) then |args| else 1
  {
    hide CommandOf, SetDirectives, SetReasons, ReplaceLeader, Includes, Join;
    SetIsOnlySet(command);
    SetYields(args);
  }

  /**
   * A blank line, a comment and a mapleader give nothing; a set line gives one directive or error for each of its
   * options; any other line gives exactly one. Only a mapleader changes the leader.
   */
  lemma NothingIsLost(leader: string, line: string)
    ensures var o := ParseLine(leader, line);
      && |o.directives| + |o.reasons| == Yield(line)
      && (MapLeader(Trim(line)).None? ==> o.leader == leader)
  {
    var text := Trim(line);
    TrimIsTrimmed(line);
    hide ParseCommand, Words, Trim, MapLeader;
    if text != "" && text[0] != '"' && MapLeader(text).None? {
      HasWords(text);
      CommandYields(leader, Words(text)[0], Words(text)[1..]);
    }
  }

  // ---- What the names of commands and the placeholder are.

  /** The letter a command's name begins with. */
  function ModeLetter(mode: Option<Mode>): string {
    match mode
    case None => ""
    case Some(Normal) => "n"
    case Some(Insert) => "i"
    case Some(Visual) => "v"
  }

  lemma NamesSpelled(mode: Option<Mode>, noremap: bool)
    ensures MapName(mode, noremap) == ModeLetter(mode) + if noremap then "noremap" else "map"
    ensures UnmapName(mode) == ModeLetter(mode) + "unmap" && ClearName(mode) == ModeLetter(mode) + "mapclear"
  {
    match mode
    case None =>
    case Some(Normal) =>
    case Some(Insert) =>
    case Some(Visual) =>
  }

  /** Every command is named by the letter of its mode and what it does, and read by that name. */
  lemma NamesCompose(mode: Option<Mode>, noremap: bool)
    ensures CommandOf(ModeLetter(mode) + if noremap then "noremap" else "map") == MapCommand(mode, noremap)
    ensures CommandOf(ModeLetter(mode) + "unmap") == UnmapCommand(mode)
    ensures CommandOf(ModeLetter(mode) + "mapclear") == ClearCommand(mode)
  {
    NamesSpelled(mode, noremap);
    MapNames(mode, noremap);
    UnmapNames(mode);
    ClearNames(mode);
    hide *;
  }

  /** The placeholder is `<leader>`, each letter small or capital. */
  lemma LeaderInAnyCase(w: string)
    ensures IsLeader(w) <==>
      && |w| == 8 && w[0] == '<' && w[7] == '>'
      && w[1] in "lL" && w[2] in "eE" && w[3] in "aA" && w[4] in "dD" && w[5] in "eE" && w[6] in "rR"
  {
    if |w| == 8 {
      forall k | 0 <= k < 8
        ensures AsciiLower(w[k]) == LEADER[k] <==> w[k] == LEADER[k] || ('a' <= LEADER[k] <= 'z' && w[k] as int + 32 == LEADER[k] as int)
      {
      }
      hide AsciiLower;
      assert IsLeader(w) <==> (
        && AsciiLower(w[0]) == LEADER[0] && AsciiLower(w[1]) == LEADER[1] && AsciiLower(w[2]) == LEADER[2]
        && AsciiLower(w[3]) == LEADER[3] && AsciiLower(w[4]) == LEADER[4] && AsciiLower(w[5]) == LEADER[5]
        && AsciiLower(w[6]) == LEADER[6] && AsciiLower(w[7]) == LEADER[7]);
      assert LEADER == "<leader>";
    }
  }

  // ---- Which lines are errors.

  ghost predicate MapsWith(word: string, noremap: bool) {
    (exists mode :: word == MapName(mode, noremap)) || (!noremap && word in INHERITED)
  }

  ghost predicate UnmapsWith(word: string) {
    exists mode :: word == UnmapName(mode)
  }

  ghost predicate ClearsWith(word: string) {
    exists mode :: word == ClearName(mode)
  }

  predicate Toggles(token: string) {
    EndsWith(token, "!") || StartsWith(token, "inv")
  }

  /** What is wrong with a line of these words. */
  ghost predicate Wrong(leader: string, words: seq<string>, reason: Reason)
    requires words != []
  {
    var command := words[0];
    match reason
    case ExpectsKeyAndTarget(c) => c == command && (MapsWith(command, false) || MapsWith(command, true)) && |words| < 3
    case MapsToItself(key, c) =>
      && c == command && MapsWith(command, false) && |words| >= 3
      && key == ReplaceLeader(words[1], leader, 0) && Includes(Join(words[2..], " "), key)
    case ExpectsOneKey(c) => c == command && UnmapsWith(command) && |words| != 2
    case TakesNoArguments(c) => c == command && ClearsWith(command) && |words| > 1
    case ExpectsOption => IsSet(command) && |words| == 1
    case ToggleUnsupported => IsSet(command) && exists i :: 1 <= i < |words| && Toggles(words[i])
    case Unsupported(c) =>
      && c == command && !MapsWith(command, false) && !MapsWith(command, true)
      && !UnmapsWith(command) && !ClearsWith(command) && !IsSet(command)
  }

  lemma MapsNamed(word: string)
    requires CommandOf(word).MapCommand?
    ensures var c := CommandOf(word); word == MapName(c.mode, c.noremap) || (word in INHERITED && c.mode == None && !c.noremap)
  {
    hide INHERITED;
  }

  lemma CommandsNamed(word: string)
    ensures match CommandOf(word)
            case MapCommand(mode, noremap) => word == MapName(mode, noremap) || (word in INHERITED && mode == None && !noremap)
            case UnmapCommand(mode) => word == UnmapName(mode)
            case ClearCommand(mode) => word == ClearName(mode)
            case SetCommand => IsSet(word)
            case Unknown => word !in INHERITED
  {
    if CommandOf(word).MapCommand? {
      MapsNamed(word);
      hide CommandOf, MapName;
    } else {
      hide INHERITED, MapName;
    }
  }

  /** The command tables, read backwards: which names map, unmap, clear and set. */
  lemma CommandsAre(word: string)
    ensures MapsWith(word, false) <==> CommandOf(word).MapCommand? && !CommandOf(word).noremap
    ensures MapsWith(word, true) <==> CommandOf(word).MapCommand? && CommandOf(word).noremap
    ensures UnmapsWith(word) <==> CommandOf(word).UnmapCommand?
    ensures ClearsWith(word) <==> CommandOf(word).ClearCommand?
    ensures IsSet(word) <==> CommandOf(word).SetCommand?
  {
    CommandsNamed(word);
    SetIsOnlySet(word);
    if word in INHERITED {
      InheritedMap(word);
    }
    hide CommandOf, INHERITED, MapName, UnmapName, ClearName;
    forall mode, noremap | word == MapName(mode, noremap)
      ensures CommandOf(word) == MapCommand(mode, noremap)
    {
      MapNames(mode, noremap);
    }
    forall mode | word == UnmapName(mode)
      ensures CommandOf(word) == UnmapCommand(mode)
    {
      UnmapNames(mode);
    }
    forall mode | word == ClearName(mode)
      ensures CommandOf(word) == ClearCommand(mode)
    {
      ClearNames(mode);
    }
  }

  lemma InheritedMap(word: string)
    requires word in INHERITED
    ensures CommandOf(word) == MapCommand(None, false)
  {
  }

  lemma {:induction false} TogglesReported(tokens: seq<string>)
    ensures SetReasons(tokens) != [] <==> exists i :: 0 <= i < |tokens| && Toggles(tokens[i])
    ensures forall r :: r in SetReasons(tokens) ==> r == ToggleUnsupported
  {
    if tokens != [] {
      TogglesReported(tokens[1..]);
      ParsedUnlessToggled(tokens[0]);
      hide ParseSet, Toggles;
      if i :| 0 <= i < |tokens[1..]| && Toggles(tokens[1..][i]) {
        assert Toggles(tokens[i + 1]);
      }
      if i :| 0 <= i < |tokens| && Toggles(tokens[i]) {
        assert i > 0 ==> Toggles(tokens[1..][i - 1]);
      }
    }
  }

  lemma ParsedUnlessToggled(token: string)
    ensures ParseSet(token).None? <==> Toggles(token)
  {
    hide IndexOf;
  }

  lemma SetWrong(leader: string, words: seq<string>, reason: Reason)
    requires words != [] && CommandOf(words[0]) == SetCommand
    ensures reason in ParseCommand(leader, words[0], words[1..]).reasons <==> Wrong(leader, words, reason)
  {
    var tokens := words[1..];
    TogglesReported(tokens);
    CommandsAre(words[0]);
    hide CommandOf, MapsWith, UnmapsWith, ClearsWith, SetReasons, SetDirectives, Toggles, IsSet;
    if i :| 0 <= i < |tokens| && Toggles(tokens[i]) {
      assert Toggles(words[i + 1]);
      assert SetReasons(tokens)[0] in SetReasons(tokens);
    }
    if i :| 1 <= i < |words| && Toggles(words[i]) {
      assert Toggles(tokens[i - 1]);
    }
  }

  /** A line of words gives exactly the errors there are reasons for. */
  lemma ErrorsAreExact(leader: string, words: seq<string>, gaps: seq<string>, reason: Reason)
    requires |gaps| == |words| && CommandWords(words) && Gaps(gaps)
    ensures reason in ParseLine(leader, Spaced(words, gaps)).reasons <==> Wrong(leader, words, reason)
  {
    LineAsWritten(leader, words, gaps);
    CommandsAre(words[0]);
    hide ParseLine, CommandOf, MapsWith, UnmapsWith, ClearsWith, Spaced, ReplaceLeader, Includes, Join, AllWords, Gaps;
    if CommandOf(words[0]) == SetCommand {
      SetWrong(leader, words, reason);
    } else {
      hide SetDirectives, SetReasons;
      assert |words| >= 3 ==> words[1..][0] == words[1] && words[1..][1..] == words[2..];
    }
  }

  /** Errors carry the number of their line, counted from one, its text and one of its reasons, and come in line order. */
  lemma {:induction false} ErrorsNumbered(lines: seq<string>, n: nat)
    requires n <= |lines|
    ensures forall e :: e in ErrorsOf(lines, n) <==>
      && 1 <= e.line <= n && e.text == Trim(lines[e.line - 1])
      && e.reason in ParseLine(LeaderAfter(lines, e.line - 1), lines[e.line - 1]).reasons
    ensures forall i, k :: 0 <= i < k < |ErrorsOf(lines, n)| ==> ErrorsOf(lines, n)[i].line <= ErrorsOf(lines, n)[k].line
  {
    hide ParseLine, Trim, LeaderAfter;
    if n > 0 {
      ErrorsNumbered(lines, n - 1);
      var reasons := ParseLine(LeaderAfter(lines, n - 1), lines[n - 1]).reasons;
      ErrorsOfOne(n, Trim(lines[n - 1]), reasons);
      var before, here := ErrorsOf(lines, n - 1), ErrorsAt(n, Trim(lines[n - 1]), reasons);
      forall e
        ensures e in ErrorsOf(lines, n) <==> e in before || e in here
      {
      }
      forall i | 0 <= i < |before|
        ensures before[i].line <= n - 1
      {
        assert before[i] in before;
      }
      forall i | 0 <= i < |here|
        ensures here[i].line == n
      {
        assert here[i] in here;
      }
    }
  }

  lemma ErrorsOfOne(line: nat, text: string, reasons: seq<Reason>)
    ensures forall e :: e in ErrorsAt(line, text, reasons) <==> e.line == line && e.text == text && e.reason in reasons
  {
    var errors := ErrorsAt(line, text, reasons);
    forall e: Error | e.line == line && e.text == text && e.reason in reasons
      ensures e in errors
    {
      var i :| 0 <= i < |reasons| && reasons[i] == e.reason;
      assert errors[i] == e;
    }
  }

  // ---- The leader.

  lemma {:induction false} TrimStartSplits(s: string) returns (spaces: string)
    ensures Spaces(spaces) && s == spaces + TrimStart(s)
    ensures s != "" && IsSpace(s[0]) ==> spaces != ""
  {
    if s != "" && IsSpace(s[0]) {
      var more := TrimStartSplits(s[1..]);
      spaces := [s[0]] + more;
      assert s == [s[0]] + s[1..];
    } else {
      spaces := "";
    }
  }

  /** What the parser finds in a mapleader line, part by part. */
  ghost predicate LeaderFound(text: string, global: bool, name: string, bare: string, equals: string, value: string) {
    && |text| >= 4 && IsSpace(text[3]) && text == "let" + text[3..] && name == TrimStart(text[3..])
    && name == (if global then "g:" else "") + bare
    && |bare| >= 9 && bare == "mapleader" + bare[9..] && equals == TrimStart(bare[9..])
    && equals != "" && equals == "=" + equals[1..] && value == TrimStart(equals[1..])
  }

  lemma LeaderIsFound(text: string, value: string) returns (global: bool, name: string, bare: string, equals: string)
    requires MapLeader(text) == Some(value)
    ensures LeaderFound(text, global, name, bare, equals, value) && value != "" && SingleLine(value)
  {
    hide IsSpace, SingleLine, TrimStart;
    name := TrimStart(text[3..]);
    global := StartsWith(name, "g:");
    bare := if global then name[2..] else name;
    equals := TrimStart(bare[9..]);
    hide MapLeader;
    assert text == "let" + text[3..];
    assert name == (if global then "g:" else "") + bare;
    assert bare == "mapleader" + bare[9..];
  }

  lemma FoundText(text: string, a: string, global: bool, b: string, c: string, name: string, bare: string, equals: string, value: string)
    requires text == "let" + (a + name) && name == (if global then "g:" else "") + bare
    requires bare == "mapleader" + (b + equals) && equals == "=" + (c + value)
    ensures text == LeaderText(a, global, b, c, value)
  {
  }

  /** Only lines of that form set the leader. */
  lemma LeaderLinesOnly(text: string, value: string)
    requires MapLeader(text) == Some(value)
    ensures exists a, global, b, c :: a != "" && Spaces(a) && Spaces(b) && Spaces(c) && text == LeaderText(a, global, b, c, value)
    ensures value != "" && !IsSpace(value[0]) && SingleLine(value)
  {
    var global, name, bare, equals := LeaderIsFound(text, value);
    hide MapLeader, IsSpace, TrimStart, Spaces, SingleLine, LeaderText;
    var a := TrimStartSplits(text[3..]);
    var b := TrimStartSplits(bare[9..]);
    var c := TrimStartSplits(equals[1..]);
    TrimStartFirst(equals[1..]);
    FoundText(text, a, global, b, c, name, bare, equals, value);
  }

  /** The leader in force is the value of the last mapleader line so far, or the default. */
  lemma {:induction false} LastLeaderHolds(lines: seq<string>, k: nat, n: nat)
    requires n <= |lines| && k <= n && forall j :: k <= j < n ==> MapLeader(Trim(lines[j])).None?
    requires k > 0 ==> MapLeader(Trim(lines[k - 1])).Some?
    ensures LeaderAfter(lines, n) == if k == 0 then DEFAULT_LEADER else Unquote(MapLeader(Trim(lines[k - 1])).value)
    decreases n
  {
    hide ParseLine, Trim, MapLeader, Unquote;
    if k < n {
      LastLeaderHolds(lines, k, n - 1);
      NothingIsLost(LeaderAfter(lines, n - 1), lines[n - 1]);
    } else if n > 0 {
      LeaderSets(LeaderAfter(lines, n - 1), lines[n - 1]);
    }
  }

  lemma LeaderSets(leader: string, line: string)
    requires MapLeader(Trim(line)).Some?
    ensures ParseLine(leader, line) == Outcome(Unquote(MapLeader(Trim(line)).value), [], [])
  {
    assert Trim(line)[0] == "let"[0];
    hide Trim, Unquote;
  }

  /** A mapped key comes out with the leader in force in place of its placeholders. */
  lemma MappedKeyUsesLeader(leader: string, mode: Option<Mode>, noremap: bool, pieces: seq<string>, marks: seq<string>,
                            target: seq<string>, gaps: seq<string>)
    requires CutAtLeaders(pieces, marks) && NoPattern(leader) && IsWord(Interleave(pieces, marks))
    requires AllWords(target) && target != [] && |gaps| == |target| + 2 && Gaps(gaps)
    requires noremap || !Includes(Join(target, " "), Join(pieces, leader))
    ensures ParseLine(leader, Spaced([MapName(mode, noremap), Interleave(pieces, marks)] + target, gaps))
         == Outcome(leader, [Map(Join(pieces, leader), Join(target, " "), mode, noremap)], [])
  {
    var key := Interleave(pieces, marks);
    LeadersSubstituted(leader, pieces, marks);
    MapNames(mode, noremap);
    KeyLine(leader, MapName(mode, noremap), [key] + target, gaps);
    hide *;
    assert [MapName(mode, noremap)] + ([key] + target) == [MapName(mode, noremap), key] + target;
    assert ([key] + target)[1..] == target;
    KeyMapped(leader, MapName(mode, noremap), [key] + target, Map(Join(pieces, leader), Join(target, " "), mode, noremap), pieces, marks);
  }

  lemma KeyMapped(leader: string, command: string, args: seq<string>, d: Directive, pieces: seq<string>, marks: seq<string>)
    requires CutAtLeaders(pieces, marks) && Substitutes(leader, pieces, marks)
    requires |args| >= 2 && args[0] == Interleave(pieces, marks)
    requires d.Map? && d == Map(Join(pieces, leader), Join(args[1..], " "), d.mode, d.noremap)
    requires CommandOf(command) == MapCommand(d.mode, d.noremap) && (d.noremap || !Includes(d.rhs, d.lhs))
    ensures ParseCommand(leader, command, args) == Outcome(leader, [d], [])
  {
    hide CommandOf, Includes, Join, Interleave, CutAtLeaders, ParseCommand, ReplaceLeader;
    MapParses(leader, command, args, d);
  }

  lemma KeyLine(leader: string, command: string, args: seq<string>, gaps: seq<string>)
    requires IsWord(command) && command[0] in "mniuvs" && AllWords(args) && |gaps| == |args| + 1 && Gaps(gaps)
    ensures ParseLine(leader, Spaced([command] + args, gaps)) == ParseCommand(leader, command, args)
  {
    assert command[0] != 'l' && command[0] != '"';
    hide IsWord;
    assert AllWords([command] + args);
    assert command != "let";
    LineAsWritten(leader, [command] + args, gaps);
    assert ([command] + args)[1..] == args;
  }

  /** And so does an unmapped one. */
  lemma UnmappedKeyUsesLeader(leader: string, mode: Option<Mode>, pieces: seq<string>, marks: seq<string>, gaps: seq<string>)
    requires CutAtLeaders(pieces, marks) && NoPattern(leader) && IsWord(Interleave(pieces, marks))
    requires |gaps| == 2 && Gaps(gaps)
    ensures ParseLine(leader, Spaced([UnmapName(mode), Interleave(pieces, marks)], gaps))
         == Outcome(leader, [Unmap(Join(pieces, leader), mode)], [])
  {
    var key := Interleave(pieces, marks);
    LeadersSubstituted(leader, pieces, marks);
    UnmapNames(mode);
    KeyLine(leader, UnmapName(mode), [key], gaps);
    assert [UnmapName(mode)] + [key] == [UnmapName(mode), key];
    hide ParseLine, CommandOf, Interleave, Join, CutAtLeaders, ReplaceLeader;
  }

  // ---- What replacement patterns in a leader do.

  /** What a `$` and the character behind it stand for in a leader, for the placeholder at i. */
  function PatternText(c: char, s: string, i: nat): string
    requires LeaderAt(s, i)
  {
    match c
    case '$' => "$"
    case '&' => s[i..i + |LEADER|]
    case '`' => s[..i]
    case _ => s[i + |LEADER|..]
  }

  lemma PatternFirst(c: char, rest: string, s: string, i: nat)
    requires LeaderAt(s, i) && c in "$&`'"
    ensures Expand(['$', c] + rest, s, i) == PatternText(c, s, i) + Expand(rest, s, i)
  {
    hide LeaderAt;
    var t := ['$', c] + rest;
    assert t[0] == '$' && t[1] == c && t[2..] == rest;
  }

  lemma PlainFirst(c: char, rest: string, s: string, i: nat)
    requires LeaderAt(s, i) && !PatternAt([c] + rest, 0)
    ensures Expand([c] + rest, s, i) == [c] + Expand(rest, s, i)
  {
    hide LeaderAt;
    assert ([c] + rest)[1..] == rest;
  }

  lemma NotBefore(plain: string, c: char, rest: string)
    requires plain != "" && forall k :: 0 <= k < |plain| ==> !PatternAt(plain + ['$', c] + rest, k)
    ensures plain + ['$', c] + rest == [plain[0]] + (plain[1..] + ['$', c] + rest)
    ensures forall k :: 0 <= k < |plain[1..]| ==> !PatternAt(plain[1..] + ['$', c] + rest, k)
    ensures !PatternAt([plain[0]] + (plain[1..] + ['$', c] + rest), 0)
  {
    var t, t' := plain + ['$', c] + rest, plain[1..] + ['$', c] + rest;
    assert t == [plain[0]] + t';
    forall k | 0 <= k < |plain[1..]|
      ensures !PatternAt(t', k)
    {
      assert !PatternAt(t, k + 1);
      assert t'[k] == t[k + 1] && (k + 1 < |t'| ==> t'[k + 1] == t[k + 2]);
    }
    assert !PatternAt(t, 0);
  }

  lemma Prepended(plain: string, middle: string, rest: string)
    ensures "" + middle + rest == middle + rest
    ensures plain != "" ==> [plain[0]] + (plain[1..] + middle + rest) == plain + middle + rest
  {
    assert plain != "" ==> plain == [plain[0]] + plain[1..];
  }

  /**
   * The first pattern of a leader gives a dollar sign, the placeholder as it is written, what stands before it in the
   * key, or what stands behind it; the text before the pattern is copied, and so on with what comes after.
   */
  lemma {:induction false} PatternsExpand(plain: string, c: char, rest: string, s: string, i: nat)
    requires LeaderAt(s, i) && c in "$&`'" && forall k :: 0 <= k < |plain| ==> !PatternAt(plain + ['$', c] + rest, k)
    ensures Expand(plain + ['$', c] + rest, s, i) == plain + PatternText(c, s, i) + Expand(rest, s, i)
    decreases |plain|
  {
    hide *;
    Prepended(plain, PatternText(c, s, i), Expand(rest, s, i));
    if plain == "" {
      PatternFirst(c, rest, s, i);
      assert plain + ['$', c] + rest == ['$', c] + rest;
    } else {
      NotBefore(plain, c, rest);
      PlainFirst(plain[0], plain[1..] + ['$', c] + rest, s, i);
      PatternsExpand(plain[1..], c, rest, s, i);
    }
  }
}
