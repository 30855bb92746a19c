/** Reading a vimrc: lines to directives and errors, with the leader key threaded through. */
module VimrcParser {
  import opened Text
  import opened Vimrc

  // ---- String operations of the parser.

  function TrimStart(s: string): (r: string)
    ensures |r| <= |s|
  {
    if s != "" && IsSpace(s[0]) then TrimStart(s[1..]) else s
  }

  function TrimEnd(s: string): (r: string)
    ensures |r| <= |s|
  {
    if s != "" && IsSpace(s[|s| - 1]) then TrimEnd(s[..|s| - 1]) else s
  }

  function Trim(s: string): string {
    TrimEnd(TrimStart(s))
  }

  function WordEnd(s: string): (n: nat)
    ensures n <= |s|
    ensures s != "" && !IsSpace(s[0]) ==> n > 0
    ensures forall i :: 0 <= i < n ==> !IsSpace(s[i])
    ensures n < |s| ==> IsSpace(s[n])
  {
    if s == "" || IsSpace(s[0]) then 0 else 1 + WordEnd(s[1..])
  }

  /** The pieces between runs of white space: what splitting a trimmed, non-empty text there gives. */
  function Words(s: string): (r: seq<string>)
    decreases |s|
  {
    if s == "" then []
    else if IsSpace(s[0]) then Words(s[1..])
    else [s[..WordEnd(s)]] + Words(s[WordEnd(s)..])
  }

  predicate StartsWith(s: string, prefix: string) {
    prefix <= s
  }

  predicate EndsWith(s: string, suffix: string) {
    |suffix| <= |s| && s[|s| - |suffix|..] == suffix
  }

  predicate PartAt(s: string, part: string, i: nat) {
    i + |part| <= |s| && s[i..i + |part|] == part
  }

  predicate Includes(s: string, part: string) {
    exists i :: 0 <= i <= |s| && PartAt(s, part, i)
  }

  function IndexOf(s: string, c: char): (r: int)
    ensures -1 <= r < |s|
    ensures r >= 0 ==> s[r] == c
    ensures r == -1 ==> c !in s
    ensures forall i :: 0 <= i < r ==> s[i] != c
  {
    if s == "" then -1
    else if s[0] == c then 0
    else
      var r := IndexOf(s[1..], c);
      if r < 0 then -1 else r + 1
  }

  function AsciiLower(c: char): char {
    if 'A' <= c <= 'Z' then c + 32 as char else c
  }

  const LEADER := "<leader>"

  /** The placeholder in any letter case. */
  predicate IsLeader(w: string) {
    |w| == |LEADER| && forall k :: 0 <= k < |LEADER| ==> AsciiLower(w[k]) == LEADER[k]
  }

  predicate LeaderAt(s: string, i: nat) {
    i + |LEADER| <= |s| && IsLeader(s[i..i + |LEADER|])
  }

  /** The replacement patterns of String.prototype.replace, for a match of the leader at i. */
  function Expand(template: string, s: string, i: nat): string
    requires LeaderAt(s, i)
  {
    if template == "" then ""
    else if |template| > 1 && template[0] == '$' && template[1] in "$&`'" then
      (if template[1] == '$' then "$"
       else if template[1] == '&' then s[i..i + |LEADER|]
       else if template[1] == '`' then s[..i]
       else s[i + |LEADER|..])
      + Expand(template[2..], s, i)
    else [template[0]] + Expand(template[1..], s, i)
  }

  function ReplaceLeader(s: string, leader: string, i: nat): string
    requires i <= |s|
    decreases |s| - i
  {
    if i == |s| then ""
    else if LeaderAt(s, i) then Expand(leader, s, i) + ReplaceLeader(s, leader, i + |LEADER|)
    else [s[i]] + ReplaceLeader(s, leader, i + 1)
  }

  // ---- Commands.

  /** Members every object inherits: the command tables are plain objects, so these names are found in them too. */
  const INHERITED := {
    "constructor", "toString", "toLocaleString", "valueOf", "hasOwnProperty", "isPrototypeOf", "propertyIsEnumerable",
    "__proto__", "__defineGetter__", "__defineSetter__", "__lookupGetter__", "__lookupSetter__"}

  datatype Command =
    | MapCommand(mode: Option<Mode>, noremap: bool)
    | UnmapCommand(mode: Option<Mode>)
    | ClearCommand(mode: Option<Mode>)
    | SetCommand
    | Unknown

  function CommandOf(word: string): Command {
    if word == "map" then MapCommand(None, false)
    else if word == "nmap" then MapCommand(Some(Normal), false)
    else if word == "imap" then MapCommand(Some(Insert), false)
    else if word == "vmap" then MapCommand(Some(Visual), false)
    else if word == "noremap" then MapCommand(None, true)
    else if word == "nnoremap" then MapCommand(Some(Normal), true)
    else if word == "inoremap" then MapCommand(Some(Insert), true)
    else if word == "vnoremap" then MapCommand(Some(Visual), true)
    else if word in INHERITED then MapCommand(None, false)
    else if word == "unmap" then UnmapCommand(None)
    else if word == "nunmap" then UnmapCommand(Some(Normal))
    else if word == "iunmap" then UnmapCommand(Some(Insert))
    else if word == "vunmap" then UnmapCommand(Some(Visual))
    else if word == "mapclear" then ClearCommand(None)
    else if word == "nmapclear" then ClearCommand(Some(Normal))
    else if word == "imapclear" then ClearCommand(Some(Insert))
    else if word == "vmapclear" then ClearCommand(Some(Visual))
    else if word == "set" || word == "se" then SetCommand
    else Unknown
  }

  datatype Reason =
    | ExpectsKeyAndTarget(command: string)
    | MapsToItself(lhs: string, command: string)
    | ExpectsOneKey(command: string)
    | TakesNoArguments(command: string)
    | ExpectsOption
    | ToggleUnsupported
    | Unsupported(command: string)

  /** One line's outcome: the leader from here on, its directives and its errors. */
  datatype Outcome = Outcome(leader: string, directives: seq<Directive>, reasons: seq<Reason>)

  function Unquote(value: string): string {
    var trimmed := Trim(value);
    if |trimmed| > 1 && trimmed[0] in "\"'" && trimmed[|trimmed| - 1] == trimmed[0] then trimmed[1..|trimmed| - 1] else trimmed
  }

  predicate LineTerminator(c: char) {
    c in {'\n', '\r', '\U{2028}', '\U{2029}'}
  }

  predicate SingleLine(s: string) {
    forall i :: 0 <= i < |s| ==> !LineTerminator(s[i])
  }

  /** `let mapleader = value`, also written `g:mapleader`. */
  function MapLeader(text: string): Option<string> {
    if !StartsWith(text, "let") || |text| < 4 || !IsSpace(text[3]) then None
    else
      var name := TrimStart(text[3..]);
      var bare := if StartsWith(name, "g:") then name[2..] else name;
      if !StartsWith(bare, "mapleader") then None
      else
        var equals := TrimStart(bare[9..]);
        if !StartsWith(equals, "=") then None
        else
          var value := TrimStart(equals[1..]);
          if value != "" && SingleLine(value) then Some(value) else None
  }

  /** One token of a set command; None is the unsupported toggle. */
  function ParseSet(token: string): Option<Directive> {
    var equals := IndexOf(token, '=');
    if EndsWith(token, "!") || StartsWith(token, "inv") then None
    else if equals > 0 then Some(SetOption(token[..equals], Value.Text(token[equals + 1..])))
    else if StartsWith(token, "no") && |token| > 2 then Some(SetOption(token[2..], Flag(false)))
    else Some(SetOption(token, Flag(true)))
  }

  function SetDirectives(tokens: seq<string>): seq<Directive> {
    if tokens == [] then []
    else (match ParseSet(tokens[0]) case None => [] case Some(d) => [d]) + SetDirectives(tokens[1..])
  }

  function SetReasons(tokens: seq<string>): seq<Reason> {
    if tokens == [] then []
    else (match ParseSet(tokens[0]) case None => [ToggleUnsupported] case Some(_) => []) + SetReasons(tokens[1..])
  }

  function ParseCommand(leader: string, command: string, args: seq<string>): Outcome {
    match CommandOf(command)
    case MapCommand(mode, noremap) =>
      if |args| < 2 then Outcome(leader, [], [ExpectsKeyAndTarget(command)])
      else
        var lhs, rhs := ReplaceLeader(args[0], leader, 0), Join(args[1..], " ");
        if !noremap && Includes(rhs, lhs) then Outcome(leader, [], [MapsToItself(lhs, command)])
        else Outcome(leader, [Map(lhs, rhs, mode, noremap)], [])
    case UnmapCommand(mode) =>
      if |args| != 1 then Outcome(leader, [], [ExpectsOneKey(command)])
      else Outcome(leader, [Unmap(ReplaceLeader(args[0], leader, 0), mode)], [])
    case ClearCommand(mode) =>
      if |args| > 0 then Outcome(leader, [], [TakesNoArguments(command)]) else Outcome(leader, [MapClear(mode)], [])
    case SetCommand =>
      if args == [] then Outcome(leader, [], [ExpectsOption])
      else Outcome(leader, SetDirectives(args), SetReasons(args))
    case Unknown => Outcome(leader, [], [Unsupported(command)])
  }

  function ParseLine(leader: string, rawLine: string): Outcome {
    var text := Trim(rawLine);
    if text == "" || text[0] == '"' then Outcome(leader, [], [])
    else
      match MapLeader(text)
      case Some(value) => Outcome(Unquote(value), [], [])
      case None =>
        var words := Words(text);
        if words == [] then Outcome(leader, [], []) else ParseCommand(leader, words[0], words[1..])
  }

  datatype Error = Error(line: nat, text: string, reason: Reason)

  function ErrorsAt(line: nat, text: string, reasons: seq<Reason>): seq<Error> {
    seq(|reasons|, i requires 0 <= i < |reasons| => Error(line, text, reasons[i]))
  }

  const DEFAULT_LEADER := "\\"

  function LeaderAfter(lines: seq<string>, n: nat): string
    requires n <= |lines|
  {
    if n == 0 then DEFAULT_LEADER else ParseLine(LeaderAfter(lines, n - 1), lines[n - 1]).leader
  }

  /** The directives of the first n lines, none dropped yet. */
  function DirectivesOf(lines: seq<string>, n: nat): seq<Directive>
    requires n <= |lines|
  {
    if n == 0 then [] else DirectivesOf(lines, n - 1) + ParseLine(LeaderAfter(lines, n - 1), lines[n - 1]).directives
  }

  function ErrorsOf(lines: seq<string>, n: nat): seq<Error>
    requires n <= |lines|
  {
    if n == 0 then []
    else ErrorsOf(lines, n - 1) + ErrorsAt(n, Trim(lines[n - 1]), ParseLine(LeaderAfter(lines, n - 1), lines[n - 1]).reasons)
  }

  method ParseVimrc(lines: seq<string>) returns (directives: seq<Directive>, errors: seq<Error>)
    ensures directives == KeepLast(DirectivesOf(lines, |lines|))
    ensures errors == ErrorsOf(lines, |lines|)
  {
    directives, errors := [], [];
    var leader := DEFAULT_LEADER;
    for index := 0 to |lines|
      invariant leader == LeaderAfter(lines, index)
      invariant directives == DirectivesOf(lines, index) && errors == ErrorsOf(lines, index)
    {
      hide ParseLine, Trim;
      var outcome := ParseLine(leader, lines[index]);
      leader := outcome.leader;
      directives := directives + outcome.directives;
      errors := errors + ErrorsAt(index + 1, Trim(lines[index]), outcome.reasons);
    }
    directives := DedupeMappings(directives);
  }

  // ---- Writing directives, and reading them back.

  predicate IsWord(s: string) {
    s != "" && forall i :: 0 <= i < |s| ==> !IsSpace(s[i])
  }

  predicate AllWords(ws: seq<string>) {
    forall i :: 0 <= i < |ws| ==> IsWord(ws[i])
  }

  lemma {:induction false} WordEndOf(w: string, rest: string)
    requires IsWord(w) && (rest == "" || IsSpace(rest[0]))
    ensures WordEnd(w + rest) == |w|
  {
    assert (w + rest)[1..] == w[1..] + rest;
    if |w| > 1 {
      WordEndOf(w[1..], rest);
    } else {
      assert w[1..] + rest == rest;
    }
  }

  /** Words joined by single spaces come apart again. */
  lemma {:induction false} WordsOfJoin(ws: seq<string>)
    requires AllWords(ws)
    ensures Words(Join(ws, " ")) == ws
  {
    if ws != [] {
      var rest := if |ws| == 1 then "" else " " + Join(ws[1..], " ");
      var s := Join(ws, " ");
      assert s == ws[0] + rest;
      WordEndOf(ws[0], rest);
      assert s[..|ws[0]|] == ws[0] && s[|ws[0]|..] == rest;
      WordsOfJoin(ws[1..]);
      if |ws| > 1 {
        assert rest[1..] == Join(ws[1..], " ");
      }
    }
  }

  lemma {:induction false} JoinEnds(ws: seq<string>)
    requires AllWords(ws) && ws != []
    ensures var s := Join(ws, " "); s != "" && s[0] == ws[0][0] && !IsSpace(s[|s| - 1])
  {
    if |ws| > 1 {
      JoinEnds(ws[1..]);
    }
  }

  lemma TrimJoin(ws: seq<string>)
    requires AllWords(ws) && ws != []
    ensures Trim(Join(ws, " ")) == Join(ws, " ")
  {
    JoinEnds(ws);
  }

  function MapName(mode: Option<Mode>, noremap: bool): string {
    match mode
    case None => if noremap then "noremap" else "map"
    case Some(Normal) => if noremap then "nnoremap" else "nmap"
    case Some(Insert) => if noremap then "inoremap" else "imap"
    case Some(Visual) => if noremap then "vnoremap" else "vmap"
  }

  function UnmapName(mode: Option<Mode>): string {
    match mode
    case None => "unmap"
    case Some(Normal) => "nunmap"
    case Some(Insert) => "iunmap"
    case Some(Visual) => "vunmap"
  }

  function ClearName(mode: Option<Mode>): string {
    match mode
    case None => "mapclear"
    case Some(Normal) => "nmapclear"
    case Some(Insert) => "imapclear"
    case Some(Visual) => "vmapclear"
  }

  function OptionToken(name: string, value: Value): string {
    match value
    case Flag(on) => if on then name else "no" + name
    case Text(text) => name + "=" + text
  }

  /** The words a directive is written with. */
  function Written(d: Directive): seq<string> {
    match d
    case Map(lhs, rhs, mode, noremap) => [MapName(mode, noremap), lhs] + Words(rhs)
    case Unmap(lhs, mode) => [UnmapName(mode), lhs]
    case MapClear(mode) => [ClearName(mode)]
    case SetOption(name, value) => ["set", OptionToken(name, value)]
  }

  /** A key as it can be written: one word without the leader's placeholder. */
  predicate PlainKey(lhs: string) {
    IsWord(lhs) && forall i :: 0 <= i < |lhs| ==> !LeaderAt(lhs, i)
  }

  predicate PlainName(name: string) {
    && IsWord(name) && IndexOf(name, '=') <= 0
    && !EndsWith(name, "!") && !StartsWith(name, "inv") && !(StartsWith(name, "no") && |name| > 2)
  }

  /** What a vimrc line can say. */
  predicate Writable(d: Directive) {
    match d
    case Map(lhs, rhs, _, noremap) =>
      && PlainKey(lhs) && AllWords(Words(rhs)) && rhs != "" && rhs == Join(Words(rhs), " ")
      && (noremap || !Includes(rhs, lhs))
    case Unmap(lhs, _) => PlainKey(lhs)
    case MapClear(_) => true
    case SetOption(name, Flag(on)) =>
      if on then PlainName(name) else IsWord(name) && '=' !in name && !EndsWith(name, "!")
    case SetOption(name, Text(text)) =>
      && IsWord(name) && '=' !in name && !StartsWith(name + "=" + text, "inv")
      && (forall i :: 0 <= i < |text| ==> !IsSpace(text[i])) && !EndsWith(name + "=" + text, "!")
  }

  function WrittenLine(d: Directive): string {
    Join(Written(d), " ")
  }

  lemma {:induction false} NothingToReplace(s: string, leader: string, i: nat)
    requires i <= |s| && forall k :: i <= k < |s| ==> !LeaderAt(s, k)
    ensures ReplaceLeader(s, leader, i) == s[i..]
    decreases |s| - i
  {
    if i < |s| {
      NothingToReplace(s, leader, i + 1);
    }
  }

  // ---- What the leader does to a key.

  predicate PatternAt(t: string, i: nat) {
    i + 1 < |t| && t[i] == '$' && t[i + 1] in "$&`'"
  }

  /** The leader holds none of the character pairs that mean something to String.prototype.replace. */
  ghost predicate NoPattern(t: string) {
    forall i :: 0 <= i < |t| ==> !PatternAt(t, i)
  }

  lemma {:induction false} ExpandPlain(template: string, s: string, i: nat)
    requires LeaderAt(s, i) && NoPattern(template)
    ensures Expand(template, s, i) == template
  {
    if template != "" {
      assert !PatternAt(template, 0);
      forall k | 0 <= k < |template[1..]|
        ensures !PatternAt(template[1..], k)
      {
        assert !PatternAt(template, k + 1);
      }
      ExpandPlain(template[1..], s, i);
    }
  }

  /** A key cut at its placeholders, which may be written in any letter case. */
  ghost predicate CutAtLeaders(pieces: seq<string>, marks: seq<string>) {
    && |pieces| == |marks| + 1
    && (forall k :: 0 <= k < |marks| ==> IsLeader(marks[k]))
    && (forall k, i :: 0 <= k < |pieces| && 0 <= i < |pieces[k]| ==> !LeaderAt(pieces[k], i))
  }

  function Interleave(pieces: seq<string>, marks: seq<string>): string
    requires |pieces| == |marks| + 1
    decreases |marks|
  {
    if marks == [] then pieces[0] else pieces[0] + (marks[0] + Interleave(pieces[1..], marks[1..]))
  }

  lemma SkipOne(s: string, leader: string, i: nat)
    requires i < |s| && !LeaderAt(s, i)
    ensures ReplaceLeader(s, leader, i) == [s[i]] + ReplaceLeader(s, leader, i + 1)
  {
  }

  lemma SliceOnto(s: string, i: nat, n: nat, rest: string)
    requires i < n <= |s|
    ensures [s[i]] + (s[i + 1..n] + rest) == s[i..n] + rest
  {
    assert [s[i]] + s[i + 1..n] == s[i..n];
  }

  lemma {:induction false} LeaderSkips(s: string, leader: string, i: nat, n: nat)
    requires i <= n <= |s| && forall k :: i <= k < n ==> !LeaderAt(s, k)
    ensures ReplaceLeader(s, leader, i) == s[i..n] + ReplaceLeader(s, leader, n)
    decreases n - i
  {
    hide *;
    if i < n {
      SkipOne(s, leader, i);
      LeaderSkips(s, leader, i + 1, n);
      SliceOnto(s, i, n, ReplaceLeader(s, leader, n));
    }
  }

  /** No placeholder begins inside a piece, not even one that reaches into the placeholder behind it. */
  lemma NoneInside(before: string, piece: string, after: string, k: nat)
    requires forall i :: 0 <= i < |piece| ==> !LeaderAt(piece, i)
    requires after != "" ==> after[0] == '<'
    requires |before| <= k < |before| + |piece|
    ensures !LeaderAt(before + (piece + after), k)
  {
    var s, i, n := before + (piece + after), k - |before|, k + |LEADER|;
    if n <= |before| + |piece| {
      assert !LeaderAt(piece, i);
      assert s[k..n] == piece[i..i + |LEADER|];
    } else if n <= |s| {
      NoBracketInside(s[k..n], |before| + |piece| - k);
    }
  }

  lemma NoBracketInside(w: string, o: nat)
    requires 0 < o < |w| == |LEADER| && w[o] == '<'
    ensures !IsLeader(w)
  {
    assert LEADER[o] != '<';
  }

  lemma PieceSkipped(before: string, piece: string, after: string, leader: string)
    requires forall i :: 0 <= i < |piece| ==> !LeaderAt(piece, i)
    requires after != "" ==> after[0] == '<'
    ensures ReplaceLeader(before + (piece + after), leader, |before|)
         == piece + ReplaceLeader(before + (piece + after), leader, |before + piece|)
  {
    hide LeaderAt, ReplaceLeader;
    var s, n := before + (piece + after), |before| + |piece|;
    forall k | |before| <= k < n
      ensures !LeaderAt(s, k)
    {
      NoneInside(before, piece, after, k);
    }
    LeaderSkips(s, leader, |before|, n);
    assert s[|before|..n] == piece;
  }

  lemma {:induction false} LeadersFrom(before: string, pieces: seq<string>, marks: seq<string>, leader: string)
    requires CutAtLeaders(pieces, marks) && NoPattern(leader)
    ensures ReplaceLeader(before + Interleave(pieces, marks), leader, |before|) == Join(pieces, leader)
    decreases |marks|
  {
    hide *;
    CutFirst(pieces, marks);
    var piece := pieces[0];
    if marks == [] {
      PieceSkipped(before, piece, "", leader);
      assert piece + "" == piece && before + piece == before + (piece + "");
      NothingLeft(before + piece, leader);
      JoinOne(pieces, leader);
    } else {
      var mark, rest := marks[0], Interleave(pieces[1..], marks[1..]);
      var s, next := before + (piece + (mark + rest)), before + piece + mark;
      JoinMore(pieces, leader);
      PieceSkipped(before, piece, mark + rest, leader);
      Reassociate(before, piece, mark, rest);
      MarkAt(before + piece, mark, rest);
      ReplaceHere(s, leader, |before + piece|);
      ExpandPlain(leader, s, |before + piece|);
      LeadersFrom(next, pieces[1..], marks[1..], leader);
    }
  }

  lemma NothingLeft(s: string, leader: string)
    ensures ReplaceLeader(s, leader, |s|) == ""
  {
  }

  lemma JoinOne(pieces: seq<string>, sep: string)
    requires |pieces| == 1
    ensures Join(pieces, sep) == pieces[0]
  {
  }

  lemma Reassociate(a: string, b: string, c: string, d: string)
    ensures a + (b + (c + d)) == a + b + c + d
  {
  }

  lemma CutFirst(pieces: seq<string>, marks: seq<string>)
    requires CutAtLeaders(pieces, marks)
    ensures |pieces| == |marks| + 1
    ensures forall i :: 0 <= i < |pieces[0]| ==> !LeaderAt(pieces[0], i)
    ensures marks == [] ==> |pieces| == 1 && Interleave(pieces, marks) == pieces[0]
    ensures marks != [] ==> CutAtLeaders(pieces[1..], marks[1..]) && IsLeader(marks[0]) && marks[0] != "" && marks[0][0] == '<'
    ensures marks != [] ==> |pieces| > 1 && Interleave(pieces, marks) == pieces[0] + (marks[0] + Interleave(pieces[1..], marks[1..]))
  {
    if marks != [] {
      assert IsLeader(marks[0]);
      assert AsciiLower(marks[0][0]) == LEADER[0];
    }
  }

  lemma MarkAt(before: string, mark: string, rest: string)
    requires IsLeader(mark)
    ensures LeaderAt(before + mark + rest, |before|) && |mark| == |LEADER|
  {
    assert (before + mark + rest)[|before|..|before| + |LEADER|] == mark;
  }

  lemma ReplaceHere(s: string, leader: string, n: nat)
    requires LeaderAt(s, n)
    ensures n + |LEADER| <= |s|
    ensures ReplaceLeader(s, leader, n) == Expand(leader, s, n) + ReplaceLeader(s, leader, n + |LEADER|)
  {
  }

  lemma JoinMore(pieces: seq<string>, sep: string)
    requires |pieces| > 1
    ensures Join(pieces, sep) == pieces[0] + (sep + Join(pieces[1..], sep))
  {
  }

  /** For the placeholder alone a pair comes out as a dollar sign, as the placeholder or as nothing. */
  lemma ExpandStep(r: string)
    requires r != ""
    ensures PatternAt(r, 0) && r[1] == '$' ==> Expand(r, LEADER, 0) == ['$'] + Expand(r[2..], LEADER, 0)
    ensures PatternAt(r, 0) && r[1] == '&' ==> Expand(r, LEADER, 0) != "" && Expand(r, LEADER, 0)[0] == '<'
    ensures PatternAt(r, 0) && r[1] != '$' && r[1] != '&' ==> Expand(r, LEADER, 0) == Expand(r[2..], LEADER, 0)
    ensures !PatternAt(r, 0) ==> Expand(r, LEADER, 0) == [r[0]] + Expand(r[1..], LEADER, 0)
  {
  }

  lemma Regroup(z: string, r: string, n: nat)
    requires z != "" && n <= |r|
    ensures z + r == z + r[..n] + r[n..] == [z[0]] + (z[1..] + r[..n] + r[n..])
  {
  }

  /** With a pair in it the template comes out changed: for the placeholder alone, these are all the cases. */
  lemma {:induction false} ExpandGrown(z: string, r: string)
    requires z != "" && '<' !in z
    ensures Expand(r, LEADER, 0) != z + r
    decreases |r|
  {
    if r != "" {
      ExpandStep(r);
      hide Expand;
      if PatternAt(r, 0) {
        Regroup(z, r, 2);
        hide PatternAt;
        if r[1] == '$' {
          ExpandGrown(z[1..] + r[..2], r[2..]);
          HeadAndTail('$', Expand(r[2..], LEADER, 0), z[0], z[1..] + r[..2] + r[2..]);
        } else if r[1] == '&' {
          assert (z + r)[0] == z[0];
        } else {
          ExpandGrown(z + r[..2], r[2..]);
        }
      } else {
        Regroup(z, r, 1);
        hide PatternAt;
        HeadAndTail(r[0], Expand(r[1..], LEADER, 0), z[0], z[1..] + r[..1] + r[1..]);
        if r[0] != '<' {
          ExpandGrown(z[1..] + r[..1], r[1..]);
        }
      }
    }
  }

  lemma HeadAndTail(a: char, x: string, b: char, y: string)
    ensures [a] + x == [b] + y <==> a == b && x == y
  {
    assert ([a] + x)[1..] == x && ([b] + y)[1..] == y;
  }

  lemma {:induction false} ExpandChanges(t: string)
    requires !NoPattern(t)
    ensures Expand(t, LEADER, 0) != t
  {
    var i :| 0 <= i < |t| && PatternAt(t, i);
    ExpandStep(t);
    hide Expand;
    if PatternAt(t, 0) {
      var r := t[2..];
      assert t == t[..2] + r;
      if t[1] == '$' {
        ExpandGrown("$", r);
        assert t == ['$'] + ("$" + r);
        HeadAndTail('$', Expand(r, LEADER, 0), '$', "$" + r);
      } else if t[1] == '&' {
        assert t[0] == '$';
      } else {
        ExpandGrown(t[..2], r);
      }
    } else {
      assert PatternAt(t[1..], i - 1);
      ExpandChanges(t[1..]);
      assert t == [t[0]] + t[1..];
      HeadAndTail(t[0], Expand(t[1..], LEADER, 0), t[0], t[1..]);
    }
  }

  ghost predicate Substitutes(leader: string, pieces: seq<string>, marks: seq<string>) {
    CutAtLeaders(pieces, marks) ==> ReplaceLeader(Interleave(pieces, marks), leader, 0) == Join(pieces, leader)
  }

  /**
   * Every key comes out with the leader in place of each placeholder, in whatever case, if and only if the leader holds
   * no `$` before one of `$`, `&`, a back quote or a quote.
   */
  lemma LeadersReplacedIff(leader: string)
    ensures (forall pieces, marks :: Substitutes(leader, pieces, marks)) <==> NoPattern(leader)
  {
    hide *;
    if NoPattern(leader) {
      forall pieces, marks
        ensures Substitutes(leader, pieces, marks)
      {
        LeadersSubstituted(leader, pieces, marks);
      }
    } else {
      OnlyLeader(leader, ["", ""], [LEADER]);
    }
  }

  lemma LeadersSubstituted(leader: string, pieces: seq<string>, marks: seq<string>)
    requires NoPattern(leader)
    ensures Substitutes(leader, pieces, marks)
  {
    if CutAtLeaders(pieces, marks) {
      LeadersFrom("", pieces, marks, leader);
      assert "" + Interleave(pieces, marks) == Interleave(pieces, marks);
    }
  }

  lemma OnlyLeader(leader: string, pieces: seq<string>, marks: seq<string>)
    requires !NoPattern(leader) && pieces == ["", ""] && marks == [LEADER]
    ensures !Substitutes(leader, pieces, marks)
  {
    OnlyLeaderCut(pieces, marks);
    ExpandChanges(leader);
    ReplaceHere(LEADER, leader, 0);
    JoinMore(pieces, leader);
    hide ReplaceLeader, Expand, NoPattern, Interleave, CutAtLeaders;
    assert pieces[1..] == [""];
    assert ReplaceLeader(LEADER, leader, |LEADER|) == "" by {
      NothingToReplace(LEADER, leader, |LEADER|);
    }
    assert "" + (leader + "") == leader;
  }

  lemma OnlyLeaderCut(pieces: seq<string>, marks: seq<string>)
    requires pieces == ["", ""] && marks == [LEADER]
    ensures CutAtLeaders(pieces, marks) && Interleave(pieces, marks) == LEADER && LeaderAt(LEADER, 0)
  {
    assert LEADER[0..|LEADER|] == LEADER && IsLeader(LEADER);
    assert pieces[1..] == [""] && marks[1..] == [];
  }

  // ---- Lines that set the leader.

  ghost predicate Spaces(s: string) {
    forall i :: 0 <= i < |s| ==> IsSpace(s[i])
  }

  ghost predicate Trimmed(s: string) {
    s != "" && !IsSpace(s[0]) && !IsSpace(s[|s| - 1])
  }

  lemma {:induction false} TrimStartSpaces(spaces: string, s: string)
    requires Spaces(spaces) && s != "" && !IsSpace(s[0])
    ensures TrimStart(spaces + s) == s
  {
    hide IsSpace;
    if spaces == "" {
      assert spaces + s == s;
    } else {
      TrimStartSpaces(spaces[1..], s);
      assert (spaces + s)[1..] == spaces[1..] + s;
    }
  }

  lemma {:induction false} TrimEndSpaces(s: string, spaces: string)
    requires Spaces(spaces) && s != "" && !IsSpace(s[|s| - 1])
    ensures TrimEnd(s + spaces) == s
  {
    hide IsSpace;
    if spaces == "" {
      assert s + spaces == s;
    } else {
      var n := |spaces| - 1;
      TrimEndSpaces(s, spaces[..n]);
      assert (s + spaces)[..|s + spaces| - 1] == s + spaces[..n];
    }
  }

  lemma TrimSpaces(before: string, s: string, after: string)
    requires Spaces(before) && Spaces(after) && Trimmed(s)
    ensures Trim(before + (s + after)) == s
  {
    TrimStartSpaces(before, s + after);
    TrimEndSpaces(s, after);
  }

  /** `let`, the name with or without `g:`, an equals sign and the value, spaced as one likes. */
  function LeaderText(a: string, global: bool, b: string, c: string, value: string): string {
    "let" + (a + ((if global then "g:" else "") + ("mapleader" + (b + ("=" + (c + value))))))
  }

  lemma PrefixRead(prefix: string, spaces: string, s: string)
    requires Spaces(spaces) && s != "" && !IsSpace(s[0])
    ensures StartsWith(prefix + (spaces + s), prefix) && TrimStart((prefix + (spaces + s))[|prefix|..]) == s
  {
    TrimStartSpaces(spaces, s);
    assert (prefix + (spaces + s))[|prefix|..] == spaces + s;
  }

  lemma NameRead(global: bool, bare: string)
    requires Trimmed(bare) && bare[0] == 'm'
    ensures var name := (if global then "g:" else "") + bare;
      && Trimmed(name) && name != "" && !IsSpace(name[0]) && (StartsWith(name, "g:") <==> global)
      && (if global then name[2..] else name) == bare
  {
  }

  lemma NoSpaceLetters()
    ensures !IsSpace('=') && !IsSpace('m') && !IsSpace('l')
  {
  }

  lemma TrimmedAround(prefix: string, middle: string, s: string)
    requires prefix != "" && !IsSpace(prefix[0]) && Trimmed(s)
    ensures Trimmed(prefix + (middle + s))
  {
    var t := prefix + (middle + s);
    assert t[0] == prefix[0] && t[|t| - 1] == s[|s| - 1];
  }

  lemma TrimmedFirst(s: string)
    requires Trimmed(s)
    ensures s != "" && !IsSpace(s[0])
  {
  }

  lemma SpaceBehind(a: string, name: string)
    requires a != "" && Spaces(a)
    ensures var text := "let" + (a + name); |text| >= 4 && IsSpace(text[3])
  {
    assert ("let" + (a + name))[3] == a[0];
  }

  lemma LeaderTextRead(a: string, global: bool, b: string, c: string, value: string)
    requires a != "" && Spaces(a) && Spaces(b) && Spaces(c)
    requires Trimmed(value) && SingleLine(value)
    ensures MapLeader(LeaderText(a, global, b, c, value)) == Some(value) && Trimmed(LeaderText(a, global, b, c, value))
  {
    var equals := "=" + (c + value);
    var bare := "mapleader" + (b + equals);
    var name := (if global then "g:" else "") + bare;
    var text := "let" + (a + name);
    assert text == LeaderText(a, global, b, c, value);
    assert equals[0] == '=' && bare[0] == 'm';
    hide *;
    NoSpaceLetters();
    TrimmedFirst(value);
    TrimmedAround("=", c, value);
    TrimmedAround("mapleader", b, equals);
    NameRead(global, bare);
    TrimmedAround("let", a, name);
    PrefixRead("=", c, value);
    PrefixRead("mapleader", b, equals);
    PrefixRead("let", a, name);
    SpaceBehind(a, name);
    LeaderParts(text, name, bare, equals, value, global);
  }

  lemma LeaderParts(text: string, name: string, bare: string, equals: string, value: string, global: bool)
    requires StartsWith(text, "let") && |text| >= 4 && IsSpace(text[3]) && TrimStart(text[3..]) == name
    requires (StartsWith(name, "g:") <==> global) && (if global then name[2..] else name) == bare
    requires StartsWith(bare, "mapleader") && TrimStart(bare[9..]) == equals
    requires StartsWith(equals, "=") && TrimStart(equals[1..]) == value
    requires value != "" && SingleLine(value)
    ensures MapLeader(text) == Some(value)
  {
  }

  /** A mapleader line sets the leader for the lines below it, quoted or not, and says nothing else. */
  lemma LeaderLine(leader: string, before: string, a: string, global: bool, b: string, c: string, value: string, after: string)
    requires Spaces(before) && a != "" && Spaces(a) && Spaces(b) && Spaces(c) && Spaces(after)
    requires Trimmed(value) && SingleLine(value)
    ensures ParseLine(leader, before + (LeaderText(a, global, b, c, value) + after)) == Outcome(Unquote(value), [], [])
  {
    LeaderTextRead(a, global, b, c, value);
    TrimSpaces(before, LeaderText(a, global, b, c, value), after);
    assert LeaderText(a, global, b, c, value)[0] == 'l';
    hide MapLeader, Unquote, Trim;
  }

  /** Two quotes of the same kind around a value. */
  predicate InQuotes(value: string) {
    |value| > 1 && value[0] in "\"'" && value[|value| - 1] == value[0]
  }

  /** A value in quotes of either kind stands for what is between them, any other one, mixed quotes included, for itself. */
  lemma LeaderValue(value: string, quote: char)
    requires quote in "\"'"
    ensures Unquote([quote] + value + [quote]) == value
    ensures Trimmed(value) && !InQuotes(value) ==> Unquote(value) == value
  {
    var quoted := [quote] + value + [quote];
    assert "" + (quoted + "") == quoted;
    TrimSpaces("", quoted, "");
    assert quoted[1..|quoted| - 1] == value;
    if Trimmed(value) {
      assert "" + (value + "") == value;
      TrimSpaces("", value, "");
    }
  }

  // ---- Set tokens.

  lemma {:induction false} FirstIndex(s: string, c: char, n: nat)
    requires n < |s| && s[n] == c && forall i :: 0 <= i < n ==> s[i] != c
    ensures IndexOf(s, c) == n
  {
    if n > 0 {
      FirstIndex(s[1..], c, n - 1);
    }
  }

  lemma OptionReadsBack(name: string, value: Value)
    requires Writable(SetOption(name, value))
    ensures IsWord(OptionToken(name, value)) && ParseSet(OptionToken(name, value)) == Some(SetOption(name, value))
  {
    hide Writable, ParseSet, IsWord;
    match value
    case Flag(true) => OnReadsBack(name);
    case Flag(false) => OffReadsBack(name);
    case Text(text) => TextReadsBack(name, text);
  }

  lemma OnReadsBack(name: string)
    requires Writable(SetOption(name, Flag(true)))
    ensures IsWord(name) && ParseSet(name) == Some(SetOption(name, Flag(true)))
  {
    hide IndexOf;
  }

  lemma SameEnd(before: string, s: string)
    requires s != ""
    ensures EndsWith(before + s, "!") <==> EndsWith(s, "!")
  {
    assert (before + s)[|before + s| - 1..] == s[|s| - 1..];
  }

  lemma OffToken(name: string)
    requires name != ""
    ensures IsWord("no" + name) <==> IsWord(name)
    ensures !StartsWith("no" + name, "inv") && StartsWith("no" + name, "no") && ("no" + name)[2..] == name
    ensures '=' in "no" + name <==> '=' in name
    ensures EndsWith("no" + name, "!") <==> EndsWith(name, "!")
  {
    var token := "no" + name;
    assert token[0] == 'n' && !IsSpace('n') && !IsSpace('o');
    SameEnd("no", name);
    hide EndsWith, IsSpace;
    assert forall i :: 0 <= i < |name| ==> token[i + 2] == name[i];
  }

  lemma OffReadsBack(name: string)
    requires Writable(SetOption(name, Flag(false)))
    ensures IsWord("no" + name) && ParseSet("no" + name) == Some(SetOption(name, Flag(false)))
  {
    OffToken(name);
    hide IsWord, StartsWith, EndsWith, IndexOf;
  }

  lemma TextReadsBack(name: string, text: string)
    requires Writable(SetOption(name, Text(text)))
    ensures IsWord(OptionToken(name, Text(text)))
    ensures ParseSet(OptionToken(name, Text(text))) == Some(SetOption(name, Text(text)))
  {
    var token := OptionToken(name, Text(text));
    FirstIndex(token, '=', |name|);
    assert token[..|name|] == name && token[|name| + 1..] == text;
  }

  lemma MapNames(mode: Option<Mode>, noremap: bool)
    ensures IsWord(MapName(mode, noremap)) && CommandOf(MapName(mode, noremap)) == MapCommand(mode, noremap)
    ensures MapName(mode, noremap)[0] in "mniuvs"
  {
    hide INHERITED;
    match mode
    case None =>
    case Some(Normal) =>
    case Some(Insert) =>
    case Some(Visual) =>
  }

  lemma UnmapNames(mode: Option<Mode>)
    ensures IsWord(UnmapName(mode)) && CommandOf(UnmapName(mode)) == UnmapCommand(mode)
    ensures UnmapName(mode)[0] in "mniuvs"
  {
    var name := UnmapName(mode);
    assert name[|name| - 1] == 'p';
    NotInherited(name);
    hide INHERITED;
    match mode
    case None =>
    case Some(Normal) =>
    case Some(Insert) =>
    case Some(Visual) =>
  }

  lemma ClearNames(mode: Option<Mode>)
    ensures IsWord(ClearName(mode)) && CommandOf(ClearName(mode)) == ClearCommand(mode)
    ensures ClearName(mode)[0] in "mniuvs"
  {
    var name := ClearName(mode);
    assert name[|name| - 2] == 'a';
    NotInherited(name);
    hide INHERITED;
    match mode
    case None =>
    case Some(Normal) =>
    case Some(Insert) =>
    case Some(Visual) =>
  }

  /** No inherited member ends like an unmap or mapclear command. */
  lemma NotInherited(word: string)
    requires |word| > 1 && (word[|word| - 1] == 'p' || word[|word| - 2] == 'a')
    ensures word !in INHERITED
  {
  }

  ghost predicate ReadsBack(leader: string, d: Directive) {
    && AllWords(Written(d)) && Written(d) != [] && Written(d)[0][0] in "mniuvs"
    && ParseCommand(leader, Written(d)[0], Written(d)[1..]) == Outcome(leader, [d], [])
  }

  lemma MapParses(leader: string, command: string, args: seq<string>, d: Directive)
    requires d.Map? && CommandOf(command) == MapCommand(d.mode, d.noremap)
    requires |args| >= 2 && ReplaceLeader(args[0], leader, 0) == d.lhs && Join(args[1..], " ") == d.rhs
    requires d.noremap || !Includes(d.rhs, d.lhs)
    ensures ParseCommand(leader, command, args) == Outcome(leader, [d], [])
  {
    hide CommandOf, ReplaceLeader, Join, Includes;
  }

  lemma MapIsWords(d: Directive)
    requires Writable(d) && d.Map?
    ensures AllWords(Written(d)) && Words(d.rhs) != []
  {
    hide CommandOf, MapName, Words, Includes, LeaderAt, IsWord;
    MapNames(d.mode, d.noremap);
  }

  lemma MapReadsBack(leader: string, d: Directive)
    requires Writable(d) && d.Map?
    ensures ReadsBack(leader, d)
  {
    MapIsWords(d);
    MapNames(d.mode, d.noremap);
    NothingToReplace(d.lhs, leader, 0);
    hide CommandOf, MapName, Words, ReplaceLeader, Includes, LeaderAt, Join, IsWord, AllWords, ParseCommand;
    var args := Written(d)[1..];
    assert args == [d.lhs] + Words(d.rhs) && args[1..] == Words(d.rhs);
    MapParses(leader, MapName(d.mode, d.noremap), args, d);
  }

  lemma OptionCommandReadsBack(leader: string, d: Directive)
    requires Writable(d) && d.SetOption?
    ensures ReadsBack(leader, d)
  {
    hide OptionToken, ParseSet;
    var ws := Written(d);
    OptionReadsBack(d.name, d.value);
    SetIsSet();
    hide CommandOf;
    assert ws[1..] == [OptionToken(d.name, d.value)];
    assert SetDirectives(ws[1..]) == [d] + SetDirectives([]) && SetReasons(ws[1..]) == [] + SetReasons([]);
  }

  lemma SetIsSet()
    ensures CommandOf("set") == SetCommand && IsWord("set")
  {
    NotInheritedSet();
    hide INHERITED;
  }

  lemma NotInheritedSet()
    ensures "set" !in INHERITED
  {
  }

  lemma WrittenReadsBack(leader: string, d: Directive)
    requires Writable(d)
    ensures ReadsBack(leader, d)
  {
    match d
    case Map(_, _, _, _) => MapReadsBack(leader, d);
    case SetOption(_, _) => OptionCommandReadsBack(leader, d);
    case Unmap(lhs, mode) =>
      hide CommandOf, UnmapName;
      UnmapNames(mode);
      NothingToReplace(lhs, leader, 0);
    case MapClear(mode) =>
      hide CommandOf, ClearName;
      ClearNames(mode);
  }

  /** A written line reads back as its directive, whatever the leader is. */
  lemma LineReadsBack(leader: string, d: Directive)
    requires Writable(d)
    ensures ParseLine(leader, WrittenLine(d)) == Outcome(leader, [d], [])
  {
    hide Writable, ParseCommand, Trim, Words;
    WrittenReadsBack(leader, d);
    var ws := Written(d);
    TrimJoin(ws);
    WordsOfJoin(ws);
    JoinEnds(ws);
    assert MapLeader(WrittenLine(d)) == None;
  }

  // ---- Nothing else can be read: under the default leader every directive of a line can be written.

  lemma {:induction false} WordsAreWords(s: string)
    ensures AllWords(Words(s))
    decreases |s|
  {
    hide IsSpace;
    if s != "" {
      if IsSpace(s[0]) {
        WordsAreWords(s[1..]);
      } else {
        WordsAreWords(s[WordEnd(s)..]);
      }
    }
  }

  lemma DefaultExpands(s: string, i: nat)
    requires LeaderAt(s, i)
    ensures Expand(DEFAULT_LEADER, s, i) == DEFAULT_LEADER
  {
    ExpandPlain(DEFAULT_LEADER, s, i);
  }

  lemma ReplaceStep(s: string, i: nat)
    requires i < |s|
    ensures var r := ReplaceLeader(s, DEFAULT_LEADER, i);
      if LeaderAt(s, i) then i + |LEADER| <= |s| && r == DEFAULT_LEADER + ReplaceLeader(s, DEFAULT_LEADER, i + |LEADER|)
      else r == [s[i]] + ReplaceLeader(s, DEFAULT_LEADER, i + 1)
  {
    if LeaderAt(s, i) {
      DefaultExpands(s, i);
    }
  }

  lemma {:induction false} ReplacedIsWord(s: string, i: nat)
    requires IsWord(s) && i <= |s|
    ensures forall k :: 0 <= k < |ReplaceLeader(s, DEFAULT_LEADER, i)| ==> !IsSpace(ReplaceLeader(s, DEFAULT_LEADER, i)[k])
    ensures i < |s| ==> ReplaceLeader(s, DEFAULT_LEADER, i) != ""
    decreases |s| - i
  {
    if i < |s| {
      assert !IsSpace(s[i]) && !IsSpace('\\');
      ReplaceStep(s, i);
      hide ReplaceLeader, IsSpace;
      ReplacedIsWord(s, if LeaderAt(s, i) then i + |LEADER| else i + 1);
    }
  }

  lemma HeadReplaced(s: string, i: nat)
    requires i <= |s| && ReplaceLeader(s, DEFAULT_LEADER, i) != "" && ReplaceLeader(s, DEFAULT_LEADER, i)[0] != '\\'
    ensures i < |s| && ReplaceLeader(s, DEFAULT_LEADER, i) == [s[i]] + ReplaceLeader(s, DEFAULT_LEADER, i + 1)
  {
    if i == |s| {
      NothingLeft(s, DEFAULT_LEADER);
    } else {
      ReplaceStep(s, i);
    }
  }

  lemma CopiedOne(s: string, i: nat, m: nat, tail: string)
    requires i < |s| && 0 < m <= |tail| + 1
    ensures ([s[i]] + tail)[..m] == [s[i]] + tail[..m - 1]
    ensures i + m <= |s| ==> s[i..i + m] == [s[i]] + s[i + 1..i + m]
  {
  }

  /** Without a backslash in it the start of the result is copied from the key. */
  lemma {:induction false} CopiedPrefix(s: string, i: nat, m: nat)
    requires i <= |s| && m <= |ReplaceLeader(s, DEFAULT_LEADER, i)| && '\\' !in ReplaceLeader(s, DEFAULT_LEADER, i)[..m]
    ensures i + m <= |s| && s[i..i + m] == ReplaceLeader(s, DEFAULT_LEADER, i)[..m]
    decreases m
  {
    hide *;
    var r := ReplaceLeader(s, DEFAULT_LEADER, i);
    if m > 0 {
      assert r[..m][0] == r[0];
      HeadReplaced(s, i);
      CopiedOne(s, i, m, ReplaceLeader(s, DEFAULT_LEADER, i + 1));
      CopiedPrefix(s, i + 1, m - 1);
    }
  }

  lemma NoBackslash(w: string)
    requires IsLeader(w)
    ensures '\\' !in w
  {
    forall k | 0 <= k < |w|
      ensures w[k] != '\\'
    {
      assert AsciiLower(w[k]) == LEADER[k] && LEADER[k] != '\\';
    }
  }

  lemma {:induction false} ReplacedHasNone(s: string, i: nat, k: nat)
    requires i <= |s|
    ensures !LeaderAt(ReplaceLeader(s, DEFAULT_LEADER, i), k)
    decreases |s| - i
  {
    var r := ReplaceLeader(s, DEFAULT_LEADER, i);
    if i == |s| {
      NothingLeft(s, DEFAULT_LEADER);
    } else if k == 0 {
      LeadReplaced(s, i);
    } else {
      hide *;
      ReplaceStep(s, i);
      var next, head := if LeaderAt(s, i) then i + |LEADER| else i + 1, if LeaderAt(s, i) then DEFAULT_LEADER else [s[i]];
      var tail := ReplaceLeader(s, DEFAULT_LEADER, next);
      ReplacedHasNone(s, next, k - 1);
      LeaderShifted(head, tail, k);
    }
  }

  lemma LeaderShifted(head: string, tail: string, k: nat)
    requires head == DEFAULT_LEADER || |head| == 1
    requires k > 0
    ensures LeaderAt(head + tail, k) <==> LeaderAt(tail, k - 1)
  {
    hide IsLeader;
    if k + |LEADER| <= |head + tail| {
      assert (head + tail)[k..k + |LEADER|] == tail[k - 1..k - 1 + |LEADER|];
    }
  }

  lemma LeadReplaced(s: string, i: nat)
    requires i < |s|
    ensures !LeaderAt(ReplaceLeader(s, DEFAULT_LEADER, i), 0)
  {
    var r := ReplaceLeader(s, DEFAULT_LEADER, i);
    ReplaceStep(s, i);
    hide ReplaceLeader;
    if LeaderAt(r, 0) {
      assert r[0..|LEADER|] == r[..|LEADER|] && r[..|LEADER|][0] == r[0];
      NoBackslash(r[..|LEADER|]);
      CopiedPrefix(s, i, |LEADER|);
    }
  }

  lemma ReplacedIsPlain(s: string)
    requires IsWord(s)
    ensures PlainKey(ReplaceLeader(s, DEFAULT_LEADER, 0))
  {
    var r := ReplaceLeader(s, DEFAULT_LEADER, 0);
    ReplacedIsWord(s, 0);
    hide ReplaceLeader, LeaderAt, IsSpace;
    forall k | 0 <= k < |r|
      ensures !LeaderAt(r, k)
    {
      ReplacedHasNone(s, 0, k);
    }
  }

  lemma MapIsWritable(lhs: string, targets: seq<string>, mode: Option<Mode>, noremap: bool)
    requires PlainKey(lhs) && AllWords(targets) && targets != []
    requires noremap || !Includes(Join(targets, " "), lhs)
    ensures Writable(Map(lhs, Join(targets, " "), mode, noremap))
  {
    WordsOfJoin(targets);
    JoinEnds(targets);
    hide Includes, PlainKey, Join, Words;
  }

  lemma TextIsWritable(token: string, equals: nat)
    requires IsWord(token) && 0 < equals < |token| && token[equals] == '=' && '=' !in token[..equals]
    requires !StartsWith(token, "inv") && !EndsWith(token, "!")
    ensures Writable(SetOption(token[..equals], Value.Text(token[equals + 1..])))
  {
    var name, text := token[..equals], token[equals + 1..];
    assert name + "=" + text == token;
    hide IsSpace, StartsWith, EndsWith;
  }

  lemma OffIsWritable(token: string)
    requires IsWord(token) && '=' !in token && StartsWith(token, "no") && |token| > 2 && !EndsWith(token, "!")
    ensures Writable(SetOption(token[2..], Flag(false)))
  {
    assert "no" + token[2..] == token;
    OffToken(token[2..]);
    hide IsWord, StartsWith, EndsWith;
  }

  lemma OptionIsWritable(token: string)
    requires IsWord(token) && ParseSet(token).Some?
    ensures ParseSet(token).value.SetOption? && Writable(ParseSet(token).value)
  {
    var equals := IndexOf(token, '=');
    hide IsWord, StartsWith, EndsWith, IndexOf, Writable;
    if equals > 0 {
      TextIsWritable(token, equals);
    } else if StartsWith(token, "no") && |token| > 2 {
      NotFirst(token);
      OffIsWritable(token);
    } else {
      OnIsWritable(token);
    }
  }

  lemma NotFirst(token: string)
    requires StartsWith(token, "no") && IndexOf(token, '=') <= 0
    ensures '=' !in token
  {
    assert token[0] == 'n';
    hide IndexOf;
  }

  lemma OnIsWritable(token: string)
    requires PlainName(token)
    ensures Writable(SetOption(token, Flag(true)))
  {
  }

  lemma {:induction false} SetDirectivesWritable(tokens: seq<string>, d: Directive)
    requires AllWords(tokens) && d in SetDirectives(tokens)
    ensures Writable(d)
  {
    var first := match ParseSet(tokens[0]) case None => [] case Some(x) => [x];
    if d in first {
      OptionIsWritable(tokens[0]);
    } else {
      SetDirectivesWritable(tokens[1..], d);
    }
  }

  lemma CommandWritable(command: string, args: seq<string>, d: Directive)
    requires AllWords(args) && d in ParseCommand(DEFAULT_LEADER, command, args).directives
    ensures Writable(d)
  {
    hide CommandOf, SetDirectives, ReplaceLeader, PlainKey;
    match CommandOf(command)
    case MapCommand(mode, noremap) =>
      ReplacedIsPlain(args[0]);
      MapIsWritable(ReplaceLeader(args[0], DEFAULT_LEADER, 0), args[1..], mode, noremap);
    case UnmapCommand(_) => ReplacedIsPlain(args[0]);
    case ClearCommand(_) =>
    case SetCommand => SetDirectivesWritable(args, d);
    case Unknown =>
  }

  lemma ParsedIsWritable(line: string, d: Directive)
    requires d in ParseLine(DEFAULT_LEADER, line).directives
    ensures Writable(d)
  {
    var words := Words(Trim(line));
    WordsAreWords(Trim(line));
    hide ParseCommand, Words, Trim, MapLeader, Writable;
    CommandWritable(words[0], words[1..], d);
  }

  /** The directives that can be written are exactly those that a line can express. */
  lemma WritableIffExpressible(d: Directive)
    ensures Writable(d) <==> exists line :: d in ParseLine(DEFAULT_LEADER, line).directives
  {
    hide Writable, ParseLine;
    if Writable(d) {
      LineReadsBack(DEFAULT_LEADER, d);
      assert d in ParseLine(DEFAULT_LEADER, WrittenLine(d)).directives;
    }
    forall line | d in ParseLine(DEFAULT_LEADER, line).directives
      ensures Writable(d)
    {
      ParsedIsWritable(line, d);
    }
  }

  lemma {:induction false} LinesReadBack(ds: seq<Directive>, lines: seq<string>, n: nat)
    requires forall i :: 0 <= i < |ds| ==> Writable(ds[i])
    requires |lines| == |ds| && forall i :: 0 <= i < |ds| ==> lines[i] == WrittenLine(ds[i])
    requires n <= |ds|
    ensures LeaderAfter(lines, n) == DEFAULT_LEADER && DirectivesOf(lines, n) == ds[..n] && ErrorsOf(lines, n) == []
  {
    hide ParseLine, Writable, Trim, WrittenLine;
    if n > 0 {
      LinesReadBack(ds, lines, n - 1);
      LineReadsBack(DEFAULT_LEADER, ds[n - 1]);
    }
  }

  /** Writing directives down and reading them back gives an editor the same keymap and options, and no errors. */
  lemma VimrcRoundTrip(ds: seq<Directive>, e: Editor, reach: Reach)
    requires forall i :: 0 <= i < |ds| ==> Writable(ds[i])
    ensures var lines := seq(|ds|, i requires 0 <= i < |ds| => WrittenLine(ds[i]));
      && ErrorsOf(lines, |lines|) == []
      && Run(KeepLast(DirectivesOf(lines, |lines|)), e, reach) == Run(ds, e, reach)
  {
    hide Writable, WrittenLine;
    var lines := seq(|ds|, i requires 0 <= i < |ds| => WrittenLine(ds[i]));
    LinesReadBack(ds, lines, |ds|);
    assert ds[..|ds|] == ds;
    DedupePreservesKeymap(ds, e, reach);
  }

  /** A line that gives only errors costs nothing else: the directives are those of the file without it. */
  lemma {:induction false} BadLineIsHarmless(before: seq<string>, bad: string, after: seq<string>, n: nat)
    requires n <= |after|
    requires var o := ParseLine(LeaderAfter(before, |before|), bad); o.directives == [] && o.leader == LeaderAfter(before, |before|)
    ensures LeaderAfter(before + [bad] + after, |before| + 1 + n) == LeaderAfter(before + after, |before| + n)
    ensures DirectivesOf(before + [bad] + after, |before| + 1 + n) == DirectivesOf(before + after, |before| + n)
  {
    hide ParseLine;
    var lines, without := before + [bad] + after, before + after;
    if n == 0 {
      SamePrefix(before, lines, |before|);
      SamePrefix(before, without, |before|);
    } else {
      BadLineIsHarmless(before, bad, after, n - 1);
      assert lines[|before| + n] == without[|before| + n - 1];
    }
  }

  lemma {:induction false} SamePrefix(a: seq<string>, b: seq<string>, n: nat)
    requires n <= |a| && n <= |b| && a[..n] == b[..n]
    ensures LeaderAfter(a, n) == LeaderAfter(b, n) && DirectivesOf(a, n) == DirectivesOf(b, n)
  {
    hide ParseLine;
    if n > 0 {
      assert a[..n - 1] == a[..n][..n - 1] && b[..n - 1] == b[..n][..n - 1];
      assert a[n - 1] == a[..n][n - 1] && b[n - 1] == b[..n][n - 1];
      SamePrefix(a, b, n - 1);
    }
  }
}
