/** Finding the printed line of a key path: `findKeyPosition` against the JSON printer. */
module JsonLocator {
  import opened Text
  import opened JsonPrinter

  /** The regular expression `^\s{2*depth}"key":` of the scan, the key taken literally. */
  predicate Matches(line: string, depth: nat, key: string) {
    var n, mark := 2 * depth, "\"" + key + "\":";
    && n + |mark| <= |line|
    && (forall i :: 0 <= i < n ==> IsSpace(line[i]))
    && line[n..n + |mark|] == mark
  }

  /** The first line at or after `from` that matches, or |lines|. */
  function FirstMatch(lines: seq<string>, depth: nat, key: string, from: nat): (r: nat)
    requires from <= |lines|
    ensures from <= r <= |lines|
    ensures r < |lines| ==> Matches(lines[r], depth, key)
    ensures forall i :: from <= i < r ==> !Matches(lines[i], depth, key)
    decreases |lines| - from
  {
    if from == |lines| || Matches(lines[from], depth, key) then from
    else FirstMatch(lines, depth, key, from + 1)
  }

  /** Greedy search: each key of the path on the first matching line after the previous key's; -1 when one is missing. */
  function Locate(lines: seq<string>, path: seq<string>, depth: nat, from: nat): (r: int)
    requires from <= |lines|
    ensures -1 <= r < |lines|
    decreases |path|
  {
    if path == [] then -1
    else
      var i := FirstMatch(lines, depth, path[0], from);
      if i == |lines| then -1
      else if |path| == 1 then i
      else Locate(lines, path[1..], depth + 1, i + 1)
  }

  /** What `findKeyPosition` answers. */
  function KeyPosition(jsonStr: string, path: seq<string>): int {
    Locate(Split(jsonStr, '\n'), path, 1, 0)
  }

  lemma LocateStep(lines: seq<string>, path: seq<string>, depth: nat, from: nat)
    requires from <= |lines|
    ensures path == [] ==> Locate(lines, path, depth, from) == -1
    ensures path != [] ==>
              var i := FirstMatch(lines, depth, path[0], from);
              Locate(lines, path, depth, from)
              == if i == |lines| then -1 else if |path| == 1 then i else Locate(lines, path[1..], depth + 1, i + 1)
  {
  }

  method FindKeyPosition(jsonStr: string, path: seq<string>) returns (r: int)
    ensures r == KeyPosition(jsonStr, path)
  {
    hide Matches, Split, Locate;
    var lines := Split(jsonStr, '\n');
    var lineSearchOffset := 0;
    var pathIdx := 0;
    while pathIdx < |path|
      invariant 0 <= pathIdx <= |path| && 0 <= lineSearchOffset <= |lines|
      invariant Locate(lines, path, 1, 0) == Locate(lines, path[pathIdx..], pathIdx + 1, lineSearchOffset)
    {
      var targetKey := path[pathIdx];
      var found := false;
      ghost var rest := path[pathIdx..];
      assert rest[0] == targetKey && rest[1..] == path[pathIdx + 1..];
      ghost var first := FirstMatch(lines, pathIdx + 1, targetKey, lineSearchOffset);
      LocateStep(lines, rest, pathIdx + 1, lineSearchOffset);
      var i := lineSearchOffset;
      while i < |lines|
        invariant lineSearchOffset <= i <= first && !found
      {
        if Matches(lines[i], pathIdx + 1, targetKey) {
          lineSearchOffset := i + 1;
          found := true;
          if pathIdx == |path| - 1 {
            return i;
          }
          break;
        }
        i := i + 1;
      }
      if !found {
        return -1;
      }
      pathIdx := pathIdx + 1;
    }
    LocateStep(lines, path[pathIdx..], pathIdx + 1, lineSearchOffset);
    return -1;
  }

  // ---- Reference: where an entry stands, by counting the lines of the values printed before it.

  ghost predicate HasPath(j: Json, path: seq<string>)
    decreases |path|
  {
    && path != []
    && j.Obj?
    && MemberHasPath(j.members, path)
  }

  ghost predicate MemberHasPath(ms: seq<Member>, path: seq<string>)
    requires path != []
    decreases |path|, |ms|
  {
    && ms != []
    && if ms[0].key == path[0] then |path| == 1 || HasPath(ms[0].value, path[1..])
       else MemberHasPath(ms[1..], path)
  }

  function LineCount(j: Json): nat
    decreases j, 1
  {
    match j
    case Literal(_) => 1
    case Str(_) => 1
    case Arr(items) => if items == [] then 1 else 2 + ItemsLineCount(items)
    case Obj(ms) => if ms == [] then 1 else 2 + MembersLineCount(ms)
  }

  function MembersLineCount(ms: seq<Member>): nat
    decreases ms, 0
  {
    if ms == [] then 0 else LineCount(ms[0].value) + MembersLineCount(ms[1..])
  }

  function ItemsLineCount(items: seq<Json>): nat
    decreases items, 0
  {
    if items == [] then 0 else LineCount(items[0]) + ItemsLineCount(items[1..])
  }

  /** The number of lines above the entry at `path`. */
  ghost function EntryLine(j: Json, path: seq<string>): nat
    requires HasPath(j, path)
    decreases |path|
  {
    1 + MemberLine(j.members, path)
  }

  ghost function MemberLine(ms: seq<Member>, path: seq<string>): nat
    requires path != [] && MemberHasPath(ms, path)
    decreases |path|, |ms|
  {
    if ms[0].key != path[0] then LineCount(ms[0].value) + MemberLine(ms[1..], path)
    else if |path| == 1 then 0
    else EntryLine(ms[0].value, path[1..])
  }

  // ---- What each printed line announces: the key and depth of an entry, or nothing.

  type Mark = Option<(nat, string)>

  function Outline(j: Json, d: nat, entry: Mark): (r: seq<Mark>)
    ensures |r| == LineCount(j) && r[0] == entry
    decreases j, 1
  {
    match j
    case Literal(_) => [entry]
    case Str(_) => [entry]
    case Arr(items) => if items == [] then [entry] else [entry] + ItemsOutline(items, d + 1) + [None]
    case Obj(ms) => if ms == [] then [entry] else [entry] + MembersOutline(ms, d + 1) + [None]
  }

  function MembersOutline(ms: seq<Member>, d: nat): (r: seq<Mark>)
    ensures |r| == MembersLineCount(ms)
    decreases ms, 0
  {
    if ms == [] then [] else Outline(ms[0].value, d, Some((d, ms[0].key))) + MembersOutline(ms[1..], d)
  }

  function ItemsOutline(items: seq<Json>, d: nat): (r: seq<Mark>)
    ensures |r| == ItemsLineCount(items)
    decreases items, 0
  {
    if items == [] then [] else Outline(items[0], d, None) + ItemsOutline(items[1..], d)
  }

  /** The scan's test on a line is exactly whether the line announces that key at that depth. */
  ghost predicate Announces(line: string, mark: Mark) {
    forall n: nat, key: string :: n >= 1 && Plain(key) ==> (Matches(line, n, key) <==> mark == Some((n, key)))
  }

  ghost predicate Agree(lines: seq<string>, outline: seq<Mark>) {
    && |lines| == |outline|
    && forall i :: 0 <= i < |lines| ==> Announces(lines[i], outline[i])
  }

  /** A plain key read back from quoted text is the key that was quoted. */
  lemma {:induction false} QuotedKey(key: string, k: string, more: string)
    requires Plain(key)
    requires key + "\":" <= Escape(k) + "\"" + more
    ensures key == k && more != "" && more[0] == ':'
  {
    var left, right := key + "\":", Escape(k) + "\"" + more;
    assert left[0] == right[0];
    if k == "" {
      assert right == "\"" + more;
      assert left[1] == right[1];
    } else {
      assert right[0] == EscapeChar(k[0])[0];
      assert key != "" && EscapeChar(k[0]) == [k[0]];
      SameTails(k[0], key[1..], "\":", Escape(k[1..]), "\"", more);
      assert key == [k[0]] + key[1..] && k == [k[0]] + k[1..];
      QuotedKey(key[1..], k[1..], more);
    }
  }

  lemma SameTails(c: char, a: string, b: string, x: string, y: string, z: string)
    requires ([c] + a) + b <= ([c] + x) + y + z
    ensures a + b <= x + y + z
  {
    assert (([c] + a) + b)[1..] == a + b;
    assert (([c] + x) + y + z)[1..] == x + y + z;
  }

  lemma {:induction false} PlainEscapes(k: string)
    requires Plain(k)
    ensures Escape(k) == k
  {
    if k != "" {
      PlainEscapes(k[1..]);
    }
  }

  /** On a line indented to depth d, only depth d can match, and then right after the indent. */
  lemma MatchAtIndent(d: nat, rest: string, n: nat, key: string)
    requires rest != "" && !IsSpace(rest[0])
    ensures Matches(Indent(d) + rest, n, key) <==> n == d && "\"" + key + "\":" <= rest
  {
    var line, mark := Indent(d) + rest, "\"" + key + "\":";
    if n < d {
      assert 2 * n < |line| ==> line[2 * n] == ' ';
      assert mark[0] == '"';
      if 2 * n + |mark| <= |line| {
        assert line[2 * n..2 * n + |mark|][0] == line[2 * n];
      }
    } else if n > d {
      assert line[2 * d] == rest[0];
    } else {
      assert line[2 * d..] == rest;
      if |mark| <= |rest| {
        assert line[2 * d..2 * d + |mark|] == rest[..|mark|];
      }
    }
  }

  lemma PlainLine(d: nat, rest: string)
    requires rest != "" && !IsSpace(rest[0]) && rest[0] != '"'
    ensures Announces(Indent(d) + rest, None)
  {
    forall n: nat, key: string
      ensures !Matches(Indent(d) + rest, n, key)
    {
      MatchAtIndent(d, rest, n, key);
      assert ("\"" + key + "\":")[0] == '"';
    }
  }

  lemma QuotedLine(d: nat, k: string, more: string)
    requires more == "" || more[0] != ':'
    ensures Announces(Indent(d) + (Quote(k) + more), None)
  {
    hide Matches, Escape;
    var rest := Quote(k) + more;
    forall n: nat, key: string | Plain(key)
      ensures !Matches(Indent(d) + rest, n, key)
    {
      MatchAtIndent(d, rest, n, key);
      if "\"" + key + "\":" <= rest {
        assert ("\"" + key + "\":")[1..] == key + "\":" && rest[1..] == Escape(k) + "\"" + more;
        QuotedKey(key, k, more);
      }
    }
  }

  lemma EntryLineAnnounces(d: nat, k: string, more: string)
    ensures Announces(MemberHead(k, d) + more, Some((d, k)))
  {
    var rest := Quote(k) + (": " + more);
    hide Matches, Escape;
    assert MemberHead(k, d) + more == Indent(d) + rest;
    forall n: nat, key: string | Plain(key)
      ensures Matches(Indent(d) + rest, n, key) <==> n == d && key == k
    {
      MatchAtIndent(d, rest, n, key);
      if "\"" + key + "\":" <= rest {
        assert ("\"" + key + "\":")[1..] == key + "\":" && rest[1..] == Escape(k) + "\"" + (": " + more);
        QuotedKey(key, k, ": " + more);
      }
      if key == k {
        PlainEscapes(k);
        assert rest == ("\"" + key + "\":") + (" " + more);
      }
    }
  }

  /** What stands before a value on its first line: an entry's key, or only the indent. */
  ghost predicate HeadFits(head: string, d: nat, entry: Mark) {
    || (entry == None && head == Indent(d))
    || (entry.Some? && entry.value.0 == d && head == MemberHead(entry.value.1, d))
  }

  lemma FirstLineAnnounces(head: string, d: nat, entry: Mark, rest: string)
    requires HeadFits(head, d, entry)
    requires rest != "" && !IsSpace(rest[0]) && rest[0] != '"'
    ensures Announces(head + rest, entry)
  {
    if entry.Some? {
      EntryLineAnnounces(d, entry.value.1, rest);
    } else {
      PlainLine(d, rest);
    }
  }

  lemma LeafAgrees(d: nat, head: string, text: string, tail: string, entry: Mark)
    requires HeadFits(head, d, entry)
    requires text != "" && !IsSpace(text[0]) && text[0] != '"'
    ensures Announces(head + text + tail, entry)
  {
    assert head + text + tail == head + (text + tail);
    FirstLineAnnounces(head, d, entry, text + tail);
  }

  lemma LiteralAgrees(d: nat, head: string, text: string, tail: string, entry: Mark)
    requires HeadFits(head, d, entry) && LiteralText(text)
    ensures Announces(head + text + tail, entry)
  {
    LeafAgrees(d, head, text, tail, entry);
  }

  lemma BracketAgrees(d: nat, head: string, text: string, tail: string, entry: Mark)
    requires HeadFits(head, d, entry) && text in {"[", "{", "[]", "{}"}
    ensures Announces(head + text + tail, entry) && Announces(head + text, entry)
  {
    LeafAgrees(d, head, text, tail, entry);
    FirstLineAnnounces(head, d, entry, text);
  }

  lemma StringAgrees(d: nat, head: string, s: string, tail: string, entry: Mark)
    requires HeadFits(head, d, entry) && tail in {"", ","}
    ensures Announces(head + Quote(s) + tail, entry)
  {
    assert head + Quote(s) + tail == head + (Quote(s) + tail);
    if entry.Some? {
      EntryLineAnnounces(d, entry.value.1, Quote(s) + tail);
    } else {
      QuotedLine(d, s, tail);
    }
  }

  lemma LineAgrees(line: string, entry: Mark)
    requires Announces(line, entry)
    ensures Agree([line], [entry])
  {
  }

  lemma BlockAgrees(open: string, lines: seq<string>, close: string, entry: Mark, outline: seq<Mark>)
    requires Announces(open, entry) && Agree(lines, outline) && Announces(close, None)
    ensures Agree([open] + lines + [close], [entry] + outline + [None])
  {
  }

  lemma {:induction false} LinesAgree(j: Json, d: nat, head: string, tail: string, entry: Mark)
    requires Valid(j) && HeadFits(head, d, entry) && tail in {"", ","}
    ensures Agree(Lines(j, d, head, tail), Outline(j, d, entry))
    decreases j, 1
  {
    hide Announces, Agree, HeadFits, IsSpace;
    match j
    case Literal(t) =>
      LiteralAgrees(d, head, t, tail, entry);
      LineAgrees(head + t + tail, entry);
    case Str(s) =>
      StringAgrees(d, head, s, tail, entry);
      LineAgrees(head + Quote(s) + tail, entry);
    case Arr(items) =>
      if items == [] {
        BracketAgrees(d, head, "[]", tail, entry);
        LineAgrees(head + "[]" + tail, entry);
      } else {
        BracketAgrees(d, head, "[", tail, entry);
        ItemLinesAgree(items, d + 1);
        CloseAnnounces(d, "]", tail);
        BlockAgrees(head + "[", ItemLines(items, d + 1), Indent(d) + "]" + tail, entry, ItemsOutline(items, d + 1));
      }
    case Obj(ms) =>
      if ms == [] {
        BracketAgrees(d, head, "{}", tail, entry);
        LineAgrees(head + "{}" + tail, entry);
      } else {
        BracketAgrees(d, head, "{", tail, entry);
        MemberLinesAgree(ms, d + 1);
        CloseAnnounces(d, "}", tail);
        BlockAgrees(head + "{", MemberLines(ms, d + 1), Indent(d) + "}" + tail, entry, MembersOutline(ms, d + 1));
      }
  }

  lemma CloseAnnounces(d: nat, close: string, tail: string)
    requires close in {"]", "}"}
    ensures Announces(Indent(d) + close + tail, None)
  {
    assert Indent(d) + close + tail == Indent(d) + (close + tail);
    PlainLine(d, close + tail);
  }

  lemma {:induction false} MemberLinesAgree(ms: seq<Member>, d: nat)
    requires forall i :: 0 <= i < |ms| ==> Valid(ms[i].value)
    ensures Agree(MemberLines(ms, d), MembersOutline(ms, d))
    decreases ms, 0
  {
    if ms != [] {
      LinesAgree(ms[0].value, d, MemberHead(ms[0].key, d), Comma(ms), Some((d, ms[0].key)));
      MemberLinesAgree(ms[1..], d);
    }
  }

  lemma {:induction false} ItemLinesAgree(items: seq<Json>, d: nat)
    requires forall i :: 0 <= i < |items| ==> Valid(items[i])
    ensures Agree(ItemLines(items, d), ItemsOutline(items, d))
    decreases items, 0
  {
    if items != [] {
      LinesAgree(items[0], d, Indent(d), Comma(items), None);
      ItemLinesAgree(items[1..], d);
    }
  }

  lemma {:induction false} InsideIsDeeper(j: Json, d: nat, entry: Mark)
    ensures forall i :: 1 <= i < |Outline(j, d, entry)| && Outline(j, d, entry)[i].Some? ==> Outline(j, d, entry)[i].value.0 > d
    decreases j, 1
  {
    match j
    case Literal(_) =>
    case Str(_) =>
    case Arr(items) => ItemsAreDeeper(items, d + 1);
    case Obj(ms) => MembersAreDeeper(ms, d + 1);
  }

  lemma {:induction false} MembersAreDeeper(ms: seq<Member>, d: nat)
    ensures forall i :: 0 <= i < |MembersOutline(ms, d)| && MembersOutline(ms, d)[i].Some? ==> MembersOutline(ms, d)[i].value.0 >= d
    decreases ms, 0
  {
    if ms != [] {
      InsideIsDeeper(ms[0].value, d, Some((d, ms[0].key)));
      MembersAreDeeper(ms[1..], d);
    }
  }

  lemma {:induction false} ItemsAreDeeper(items: seq<Json>, d: nat)
    ensures forall i :: 0 <= i < |ItemsOutline(items, d)| && ItemsOutline(items, d)[i].Some? ==> ItemsOutline(items, d)[i].value.0 >= d
    decreases items, 0
  {
    if items != [] {
      InsideIsDeeper(items[0], d, None);
      ItemsAreDeeper(items[1..], d);
    }
  }

  lemma {:induction false} FirstMatchSkips(lines: seq<string>, n: nat, key: string, from: nat, until: nat)
    requires from <= until <= |lines|
    requires forall i :: from <= i < until ==> !Matches(lines[i], n, key)
    ensures FirstMatch(lines, n, key, from) == FirstMatch(lines, n, key, until)
    decreases until - from
  {
    if from < until {
      FirstMatchSkips(lines, n, key, from + 1, until);
    }
  }

  /** `part` stands in `whole` from position `from` on. */
  ghost predicate At<T>(whole: seq<T>, from: nat, part: seq<T>) {
    && from + |part| <= |whole|
    && forall i :: 0 <= i < |part| ==> whole[from + i] == part[i]
  }

  lemma AtParts<T>(whole: seq<T>, from: nat, a: seq<T>, b: seq<T>)
    ensures At(whole, from, a + b) <==> At(whole, from, a) && At(whole, from + |a|, b)
  {
    if At(whole, from, a + b) {
      forall i | 0 <= i < |a|
        ensures whole[from + i] == a[i]
      {
        assert (a + b)[i] == a[i];
      }
      forall i | 0 <= i < |b|
        ensures whole[from + |a| + i] == b[i]
      {
        assert (a + b)[|a| + i] == b[i] && whole[from + (|a| + i)] == (a + b)[|a| + i];
      }
    }
    if At(whole, from, a) && At(whole, from + |a|, b) {
      forall i | 0 <= i < |a + b|
        ensures whole[from + i] == (a + b)[i]
      {
        if i >= |a| {
          assert whole[from + |a| + (i - |a|)] == b[i - |a|];
        }
      }
    }
  }

  lemma LocateHit(lines: seq<string>, outline: seq<Mark>, d: nat, path: seq<string>, from: nat)
    requires d >= 1 && Agree(lines, outline) && from < |lines|
    requires path != [] && Plain(path[0]) && outline[from] == Some((d, path[0]))
    ensures Locate(lines, path, d, from) == if |path| == 1 then from else Locate(lines, path[1..], d + 1, from + 1)
  {
    assert Announces(lines[from], outline[from]);
    assert Matches(lines[from], d, path[0]);
  }

  lemma LocateMiss(lines: seq<string>, outline: seq<Mark>, d: nat, path: seq<string>, from: nat, v: Json, k: string)
    requires d >= 1 && Agree(lines, outline) && At(outline, from, Outline(v, d, Some((d, k))))
    requires path != [] && Plain(path[0]) && path[0] != k
    ensures Locate(lines, path, d, from) == Locate(lines, path, d, from + LineCount(v))
  {
    hide Matches;
    InsideIsDeeper(v, d, Some((d, k)));
    forall i | from <= i < from + LineCount(v)
      ensures !Matches(lines[i], d, path[0])
    {
      assert outline[from + (i - from)] == Outline(v, d, Some((d, k)))[i - from];
      assert Announces(lines[i], outline[i]);
    }
    FirstMatchSkips(lines, d, path[0], from, from + LineCount(v));
  }

  /** Among the members of an object the scan lands on the member that line counting points to. */
  lemma {:induction false} LocateMember(lines: seq<string>, outline: seq<Mark>, from: nat, ms: seq<Member>, d: nat, path: seq<string>)
    requires d >= 1 && Agree(lines, outline) && At(outline, from, MembersOutline(ms, d))
    requires path != [] && MemberHasPath(ms, path)
    requires forall i :: 0 <= i < |path| ==> Plain(path[i])
    ensures Locate(lines, path, d, from) == from + MemberLine(ms, path)
    decreases |path|, |ms|
  {
    hide Matches, Announces, Locate, FirstMatch, Plain, At;
    var v, entry := ms[0].value, Some((d, ms[0].key));
    AtParts(outline, from, Outline(v, d, entry), MembersOutline(ms[1..], d));
    if ms[0].key == path[0] {
      AtFirst(outline, from, Outline(v, d, entry));
      LocateHit(lines, outline, d, path, from);
      if |path| > 1 {
        MembersAt(outline, from, v, d, entry, path[1..]);
        LocateMember(lines, outline, from + 1, v.members, d + 1, path[1..]);
      }
    } else {
      LocateMiss(lines, outline, d, path, from, v, ms[0].key);
      LocateMember(lines, outline, from + LineCount(v), ms[1..], d, path);
    }
  }

  lemma AtWhole<T>(whole: seq<T>)
    ensures At(whole, 0, whole)
  {
  }

  lemma AtFirst<T>(whole: seq<T>, from: nat, part: seq<T>)
    requires At(whole, from, part) && part != []
    ensures from < |whole| && whole[from] == part[0]
  {
    assert whole[from + 0] == part[0];
  }

  lemma MembersAt(outline: seq<Mark>, from: nat, v: Json, d: nat, entry: Mark, path: seq<string>)
    requires HasPath(v, path) && At(outline, from, Outline(v, d, entry))
    ensures At(outline, from + 1, MembersOutline(v.members, d + 1))
  {
    hide At;
    assert v.members != [];
    AtParts(outline, from, [entry] + MembersOutline(v.members, d + 1), [None]);
    AtParts(outline, from, [entry], MembersOutline(v.members, d + 1));
  }

  /** The opening bracket announces nothing. */
  lemma BracketSkipped(lines: seq<string>, outline: seq<Mark>, path: seq<string>)
    requires Agree(lines, outline) && lines != [] && outline[0] == None && path != [] && Plain(path[0])
    ensures Locate(lines, path, 1, 0) == Locate(lines, path, 1, 1)
  {
    hide Matches;
    assert Announces(lines[0], outline[0]);
    FirstMatchSkips(lines, 1, path[0], 0, 1);
    LocateStep(lines, path, 1, 0);
    LocateStep(lines, path, 1, 1);
  }

  /**
   * For every JSON tree and every path of unescaped keys that exists in it through objects, the located line of the
   * printed text is the one that line counting gives for that entry.
   */
  lemma LocatorFindsEntry(j: Json, path: seq<string>)
    requires Valid(j) && HasPath(j, path)
    requires forall i :: 0 <= i < |path| ==> Plain(path[i])
    ensures KeyPosition(Print(j, 0), path) == EntryLine(j, path)
  {
    var lines, outline := PrintedAgrees(j);
    MembersAt(outline, 0, j, 0, None, path);
    assert outline[0] == None;
    hide Locate, Agree, Outline, MembersOutline, At, Split, Print, MemberLine, Plain;
    LocateMember(lines, outline, 1, j.members, 1, path);
    BracketSkipped(lines, outline, path);
  }

  lemma PrintedAgrees(j: Json) returns (lines: seq<string>, outline: seq<Mark>)
    requires Valid(j)
    ensures lines == Split(Print(j, 0), '\n') && outline == Outline(j, 0, None) && Agree(lines, outline)
  {
    PrintedLines(j);
    assert Indent(0) == "";
    LinesAgree(j, 0, "", "", None);
    lines, outline := Split(Print(j, 0), '\n'), Outline(j, 0, None);
  }

  // ---- The line counted to is the one on which the value at that path is printed.

  ghost function ValueAt(j: Json, path: seq<string>): Json
    requires HasPath(j, path)
    decreases |path|
  {
    MemberValue(j.members, path)
  }

  ghost function MemberValue(ms: seq<Member>, path: seq<string>): Json
    requires path != [] && MemberHasPath(ms, path)
    decreases |path|, |ms|
  {
    if ms[0].key != path[0] then MemberValue(ms[1..], path)
    else if |path| == 1 then ms[0].value
    else ValueAt(ms[0].value, path[1..])
  }

  /** `lines` holds, from line `at` on, the entry `key` at depth `d` with the whole printed value. */
  ghost predicate ShowsEntry(lines: seq<string>, at: nat, d: nat, key: string, value: Json) {
    || At(lines, at, Lines(value, d, MemberHead(key, d), ""))
    || At(lines, at, Lines(value, d, MemberHead(key, d), ","))
  }

  lemma {:induction false} LinesCounted(j: Json, d: nat, head: string, tail: string)
    requires Valid(j)
    ensures |Lines(j, d, head, tail)| == LineCount(j)
    decreases j, 1
  {
    match j
    case Literal(_) =>
    case Str(_) =>
    case Arr(items) => ItemLinesAgree(items, d + 1);
    case Obj(ms) => MemberLinesAgree(ms, d + 1);
  }

  /** The first member's lines, and behind them those of the others. */
  lemma MembersApart(lines: seq<string>, from: nat, ms: seq<Member>, d: nat)
    requires ms != [] && Valid(ms[0].value) && At(lines, from, MemberLines(ms, d))
    ensures At(lines, from, Lines(ms[0].value, d, MemberHead(ms[0].key, d), Comma(ms)))
    ensures At(lines, from + LineCount(ms[0].value), MemberLines(ms[1..], d))
  {
    hide At;
    LinesCounted(ms[0].value, d, MemberHead(ms[0].key, d), Comma(ms));
    AtParts(lines, from, Lines(ms[0].value, d, MemberHead(ms[0].key, d), Comma(ms)), MemberLines(ms[1..], d));
  }

  lemma {:induction false} MemberShown(lines: seq<string>, from: nat, ms: seq<Member>, d: nat, path: seq<string>)
    requires forall i :: 0 <= i < |ms| ==> Valid(ms[i].value)
    requires At(lines, from, MemberLines(ms, d))
    requires path != [] && MemberHasPath(ms, path)
    ensures ShowsEntry(lines, from + MemberLine(ms, path), d + |path| - 1, path[|path| - 1], MemberValue(ms, path))
    decreases |path|, |ms|
  {
    hide At, Lines, MemberLines;
    var v, head := ms[0].value, MemberHead(ms[0].key, d);
    MembersApart(lines, from, ms, d);
    if ms[0].key != path[0] {
      hide ShowsEntry;
      MemberShown(lines, from + LineCount(v), ms[1..], d, path);
    } else if |path| > 1 {
      hide ShowsEntry;
      MemberLinesAt(lines, from, v, d, head, Comma(ms), path[1..]);
      MemberShown(lines, from + 1, v.members, d + 1, path[1..]);
      assert path[1..][|path| - 2] == path[|path| - 1];
      assert MemberLine(ms, path) == 1 + MemberLine(v.members, path[1..]);
      assert MemberValue(ms, path) == MemberValue(v.members, path[1..]);
    }
  }

  lemma MemberLinesAt(lines: seq<string>, from: nat, v: Json, d: nat, head: string, tail: string, path: seq<string>)
    requires HasPath(v, path) && At(lines, from, Lines(v, d, head, tail))
    ensures At(lines, from + 1, MemberLines(v.members, d + 1))
  {
    hide At;
    assert v.members != [];
    AtParts(lines, from, [head + "{"] + MemberLines(v.members, d + 1), [Indent(d) + "}" + tail]);
    AtParts(lines, from, [head + "{"], MemberLines(v.members, d + 1));
  }

  lemma EntryLineShowsValue(j: Json, path: seq<string>)
    requires Valid(j) && HasPath(j, path)
    ensures ShowsEntry(Split(Print(j, 0), '\n'), EntryLine(j, path), |path|, path[|path| - 1], ValueAt(j, path))
  {
    hide ShowsEntry, Split, MemberLines, At, Lines, MemberLine, MemberValue, MemberHasPath;
    PrintedLines(j);
    var lines := Lines(j, 0, "", "");
    assert At(lines, 0, lines) by {
      AtWhole(lines);
    }
    MemberLinesAt(lines, 0, j, 0, "", "", path);
    MemberShown(lines, 1, j.members, 1, path);
  }

  // ---- Paths that need not exist: when exactly the result is -1.

  /** Entries standing one below the other that announce the keys of the path at successive depths. */
  ghost predicate Chain(outline: seq<Mark>, path: seq<string>, depth: nat, from: nat, at: seq<nat>) {
    && |at| == |path|
    && (forall t :: 0 <= t < |at| ==> from <= at[t] < |outline| && outline[at[t]] == Some((depth + t, path[t])))
    && (forall t, u :: 0 <= t < u < |at| ==> at[t] < at[u])
  }

  lemma FoundFirst(lines: seq<string>, outline: seq<Mark>, path: seq<string>, depth: nat, from: nat)
    requires depth >= 1 && from <= |lines| && Agree(lines, outline)
    requires path != [] && Plain(path[0]) && Locate(lines, path, depth, from) != -1
    ensures var i := FirstMatch(lines, depth, path[0], from);
      && i < |lines| == |outline| && outline[i] == Some((depth, path[0]))
      && (|path| > 1 ==> Locate(lines, path[1..], depth + 1, i + 1) != -1)
  {
    LocateStep(lines, path, depth, from);
    hide Matches, Locate;
    var i := FirstMatch(lines, depth, path[0], from);
    assert Announces(lines[i], outline[i]);
  }

  lemma ChainCons(outline: seq<Mark>, path: seq<string>, depth: nat, from: nat, i: nat, rest: seq<nat>)
    requires path != [] && from <= i < |outline| && outline[i] == Some((depth, path[0]))
    requires Chain(outline, path[1..], depth + 1, i + 1, rest)
    ensures Chain(outline, path, depth, from, [i] + rest)
  {
    var at := [i] + rest;
    forall t | 0 <= t < |at|
      ensures from <= at[t] < |outline| && outline[at[t]] == Some((depth + t, path[t]))
    {
      if t > 0 {
        assert at[t] == rest[t - 1] && path[t] == path[1..][t - 1];
      }
    }
  }

  lemma EmptyChain(outline: seq<Mark>, depth: nat, from: nat)
    ensures Chain(outline, [], depth, from, [])
  {
  }

  lemma {:induction false} FoundGivesChain(lines: seq<string>, outline: seq<Mark>, path: seq<string>, depth: nat, from: nat)
    returns (at: seq<nat>)
    requires depth >= 1 && from <= |lines| && Agree(lines, outline)
    requires forall i :: 0 <= i < |path| ==> Plain(path[i])
    requires path != [] && Locate(lines, path, depth, from) != -1
    ensures Chain(outline, path, depth, from, at)
    decreases |path|
  {
    hide *;
    FoundFirst(lines, outline, path, depth, from);
    var i := FirstMatch(lines, depth, path[0], from);
    var rest := [];
    if |path| > 1 {
      rest := FoundGivesChain(lines, outline, path[1..], depth + 1, i + 1);
    } else {
      EmptyChain(outline, depth + 1, i + 1);
      assert path[1..] == [];
    }
    ChainCons(outline, path, depth, from, i, rest);
    at := [i] + rest;
  }

  lemma {:induction false} ChainIsFound(lines: seq<string>, outline: seq<Mark>, path: seq<string>, depth: nat, from: nat, at: seq<nat>)
    requires depth >= 1 && from <= |lines| && Agree(lines, outline)
    requires forall i :: 0 <= i < |path| ==> Plain(path[i])
    requires path != [] && Chain(outline, path, depth, from, at)
    ensures Locate(lines, path, depth, from) != -1
    decreases |path|
  {
    hide Matches;
    var i := FirstMatch(lines, depth, path[0], from);
    assert Announces(lines[at[0]], outline[at[0]]);
    assert i <= at[0];
    if |path| > 1 {
      var rest := at[1..];
      forall t | 0 <= t < |rest|
        ensures i + 1 <= rest[t] < |outline| && outline[rest[t]] == Some((depth + 1 + t, path[1..][t]))
      {
        assert rest[t] == at[t + 1] && at[0] < at[t + 1];
      }
      ChainIsFound(lines, outline, path[1..], depth + 1, i + 1, rest);
    }
  }

  /** On any tree and any non-empty path of plain keys, -1 comes back exactly when no such chain of entries is printed. */
  lemma NotFoundIffNoChain(j: Json, path: seq<string>)
    requires Valid(j) && path != []
    requires forall i :: 0 <= i < |path| ==> Plain(path[i])
    ensures KeyPosition(Print(j, 0), path) == -1
       <==> !exists at :: Chain(Outline(j, 0, None), path, 1, 0, at)
  {
    hide Chain, Locate;
    var lines, outline := PrintedAgrees(j);
    if Locate(lines, path, 1, 0) != -1 {
      var at := FoundGivesChain(lines, outline, path, 1, 0);
    }
    forall at | Chain(outline, path, 1, 0, at)
      ensures Locate(lines, path, 1, 0) != -1
    {
      ChainIsFound(lines, outline, path, 1, 0, at);
    }
  }

  // ---- Any text and any keys: the earliest line on which a chain of matching lines can end.

  /** Lines, one below the other, that match the keys at successive depths. */
  ghost predicate MatchChain(lines: seq<string>, path: seq<string>, depth: nat, from: nat, at: seq<nat>) {
    && |at| == |path|
    && (forall t :: 0 <= t < |at| ==> from <= at[t] < |lines| && Matches(lines[at[t]], depth + t, path[t]))
    && (forall t, u :: 0 <= t < u < |at| ==> at[t] < at[u])
  }

  lemma MatchChainCons(lines: seq<string>, path: seq<string>, depth: nat, from: nat, i: nat, rest: seq<nat>)
    requires path != [] && from <= i < |lines| && Matches(lines[i], depth, path[0])
    requires MatchChain(lines, path[1..], depth + 1, i + 1, rest)
    ensures MatchChain(lines, path, depth, from, [i] + rest)
  {
    hide Matches;
    var at := [i] + rest;
    forall t | 0 <= t < |at|
      ensures from <= at[t] < |lines| && Matches(lines[at[t]], depth + t, path[t])
    {
      if t > 0 {
        assert at[t] == rest[t - 1] && path[t] == path[1..][t - 1];
      }
    }
  }

  lemma MatchChainTail(lines: seq<string>, path: seq<string>, depth: nat, from: nat, at: seq<nat>, i: nat)
    requires path != [] && MatchChain(lines, path, depth, from, at) && i <= at[0]
    ensures MatchChain(lines, path[1..], depth + 1, i + 1, at[1..])
  {
    hide Matches;
    var rest := at[1..];
    forall t | 0 <= t < |rest|
      ensures i + 1 <= rest[t] < |lines| && Matches(lines[rest[t]], depth + 1 + t, path[1..][t])
    {
      assert rest[t] == at[t + 1] && at[0] < at[t + 1] && path[1..][t] == path[t + 1];
    }
  }

  ghost predicate EndsAt(lines: seq<string>, path: seq<string>, depth: nat, from: nat, at: seq<nat>, last: int) {
    MatchChain(lines, path, depth, from, at) && at != [] && at[|at| - 1] == last
  }

  lemma EndsAtCons(lines: seq<string>, path: seq<string>, depth: nat, from: nat, i: nat, rest: seq<nat>, last: int)
    requires path != [] && from <= i < |lines| && Matches(lines[i], depth, path[0])
    requires EndsAt(lines, path[1..], depth + 1, i + 1, rest, last)
    ensures EndsAt(lines, path, depth, from, [i] + rest, last)
  {
    MatchChainCons(lines, path, depth, from, i, rest);
    hide MatchChain, Matches;
  }

  lemma EndsAtOne(lines: seq<string>, path: seq<string>, depth: nat, from: nat, i: nat)
    requires |path| == 1 && from <= i < |lines| && Matches(lines[i], depth, path[0])
    ensures EndsAt(lines, path, depth, from, [i], i)
  {
    hide Matches;
  }

  /** A found line ends a chain. */
  lemma {:induction false} LocatedEndsChain(lines: seq<string>, path: seq<string>, depth: nat, from: nat) returns (at: seq<nat>)
    requires from <= |lines| && path != [] && Locate(lines, path, depth, from) != -1
    ensures EndsAt(lines, path, depth, from, at, Locate(lines, path, depth, from))
    decreases |path|
  {
    hide *;
    LocateStep(lines, path, depth, from);
    var i := FirstMatch(lines, depth, path[0], from);
    if |path| == 1 {
      EndsAtOne(lines, path, depth, from, i);
      at := [i];
    } else {
      var rest := LocatedEndsChain(lines, path[1..], depth + 1, i + 1);
      EndsAtCons(lines, path, depth, from, i, rest, Locate(lines, path[1..], depth + 1, i + 1));
      at := [i] + rest;
    }
  }

  lemma MatchChainLength(lines: seq<string>, path: seq<string>, depth: nat, from: nat, at: seq<nat>)
    requires MatchChain(lines, path, depth, from, at)
    ensures |at| == |path|
    ensures path != [] ==> from <= at[0] < |lines| && Matches(lines[at[0]], depth, path[0])
  {
    hide Matches;
  }

  lemma FirstIsFirst(lines: seq<string>, depth: nat, key: string, from: nat, i: nat)
    requires from <= i < |lines| && Matches(lines[i], depth, key)
    ensures FirstMatch(lines, depth, key, from) <= i
  {
  }

  lemma EndsAtTail(lines: seq<string>, path: seq<string>, depth: nat, from: nat, at: seq<nat>, last: int, i: nat)
    requires |path| > 1 && EndsAt(lines, path, depth, from, at, last) && i <= at[0]
    ensures EndsAt(lines, path[1..], depth + 1, i + 1, at[1..], last)
  {
    MatchChainLength(lines, path, depth, from, at);
    MatchChainTail(lines, path, depth, from, at, i);
    hide MatchChain;
    assert at[1..][|at| - 2] == at[|at| - 1];
  }

  lemma EndsAtFirst(lines: seq<string>, path: seq<string>, depth: nat, from: nat, at: seq<nat>, last: int)
    requires path != [] && EndsAt(lines, path, depth, from, at, last)
    ensures at != [] && from <= at[0] < |lines| && Matches(lines[at[0]], depth, path[0]) && (|path| == 1 ==> at[0] == last)
  {
    MatchChainLength(lines, path, depth, from, at);
    hide MatchChain, Matches;
  }

  /** No chain ends above it. */
  lemma {:induction false} LocatedIsEarliest(lines: seq<string>, path: seq<string>, depth: nat, from: nat, at: seq<nat>, last: int)
    requires from <= |lines| && path != [] && EndsAt(lines, path, depth, from, at, last)
    ensures -1 != Locate(lines, path, depth, from) <= last
    decreases |path|
  {
    hide *;
    LocateStep(lines, path, depth, from);
    EndsAtFirst(lines, path, depth, from, at, last);
    FirstIsFirst(lines, depth, path[0], from, at[0]);
    if |path| > 1 {
      var i := FirstMatch(lines, depth, path[0], from);
      EndsAtTail(lines, path, depth, from, at, last, i);
      LocatedIsEarliest(lines, path[1..], depth + 1, i + 1, at[1..], last);
    }
  }

  /**
   * In every text and for every non-empty path, keys of any kind, the answer is the earliest line on which a chain of
   * lines matching the keys can end, and -1 if there is no such chain.
   */
  lemma AnswerIsEarliestEnd(text: string, path: seq<string>)
    requires path != []
    ensures KeyPosition(text, path) != -1 ==> exists at :: EndsAt(Split(text, '\n'), path, 1, 0, at, KeyPosition(text, path))
    ensures forall at, last :: EndsAt(Split(text, '\n'), path, 1, 0, at, last) ==> -1 != KeyPosition(text, path) <= last
  {
    hide Split, Locate, EndsAt;
    var lines, r := Split(text, '\n'), KeyPosition(text, path);
    forall at, last | EndsAt(lines, path, 1, 0, at, last)
      ensures -1 != r <= last
    {
      LocatedIsEarliest(lines, path, 1, 0, at, last);
    }
    if r != -1 {
      var at := LocatedEndsChain(lines, path, 1, 0);
      assert EndsAt(lines, path, 1, 0, at, r);
    }
  }

  const STRAY := Obj([Member("a", Literal("1")), Member("c", Obj([Member("b", Literal("2"))]))])

  /** A path that does not exist can be answered with a line of another branch: here `a.b` with the line of `c.b`. */
  lemma AbsentPathCanBeFound()
    ensures Valid(STRAY) && !HasPath(STRAY, ["a", "b"])
    ensures HasPath(STRAY, ["c", "b"]) && KeyPosition(Print(STRAY, 0), ["a", "b"]) == EntryLine(STRAY, ["c", "b"])
  {
    var ab := ["a", "b"];
    var inner := Obj([Member("b", Literal("2"))]);
    assert Valid(inner);
    assert !MemberHasPath(STRAY.members[1..], ab) by {
      assert !MemberHasPath(STRAY.members[2..], ab);
    }
    assert MembersOutline(inner.members, 2) == [Some((2, "b"))];
    assert Outline(inner, 1, Some((1, "c"))) == [Some((1, "c")), Some((2, "b")), None];
    var cs := [Member("c", inner)];
    assert MembersOutline(cs, 1) == Outline(inner, 1, Some((1, "c")));
    assert STRAY.members[1..] == cs;
    assert MembersOutline(STRAY.members, 1) == [Some((1, "a"))] + MembersOutline(cs, 1);
    assert Outline(STRAY, 0, None) == [None, Some((1, "a")), Some((1, "c")), Some((2, "b")), None, None];
    StrayEntry();
    StrayFound();
  }

  lemma FirstAnnounced(lines: seq<string>, outline: seq<Mark>, d: nat, key: string, from: nat, at: nat)
    requires d >= 1 && Agree(lines, outline) && Plain(key) && from <= at < |lines|
    requires outline[at] == Some((d, key)) && forall i :: from <= i < at ==> outline[i] != Some((d, key))
    ensures FirstMatch(lines, d, key, from) == at
  {
    hide Matches;
    forall i | from <= i <= at
      ensures Matches(lines[i], d, key) <==> i == at
    {
      assert Announces(lines[i], outline[i]);
    }
    FirstMatchSkips(lines, d, key, from, at);
  }

  lemma TwoKeysLocated(lines: seq<string>, outline: seq<Mark>)
    requires Agree(lines, outline) && outline == [None, Some((1, "a")), Some((1, "c")), Some((2, "b")), None, None]
    ensures Locate(lines, ["a", "b"], 1, 0) == 3
  {
    var ab := ["a", "b"];
    hide Matches, FirstMatch, Announces, Locate;
    FirstAnnounced(lines, outline, 1, "a", 0, 1);
    FirstAnnounced(lines, outline, 2, "b", 2, 3);
    LocateStep(lines, ab, 1, 0);
    assert ab[1..] == ["b"];
    LocateStep(lines, ["b"], 2, 2);
  }

  lemma StrayFound()
    requires Valid(STRAY) && Outline(STRAY, 0, None) == [None, Some((1, "a")), Some((1, "c")), Some((2, "b")), None, None]
    ensures KeyPosition(Print(STRAY, 0), ["a", "b"]) == 3
  {
    hide Outline, Locate, Print, Valid, Split, Agree, STRAY;
    var lines, outline := PrintedAgrees(STRAY);
    TwoKeysLocated(lines, outline);
  }

  lemma StrayEntry()
    ensures HasPath(STRAY, ["c", "b"]) && EntryLine(STRAY, ["c", "b"]) == 3
  {
    var cb := ["c", "b"];
    var inner := Obj([Member("b", Literal("2"))]);
    assert cb[1..] == ["b"] && STRAY.members[1..] == [Member("c", inner)];
    assert MemberHasPath(inner.members, ["b"]) && MemberLine(inner.members, ["b"]) == 0;
    assert HasPath(inner, ["b"]) && EntryLine(inner, ["b"]) == 1;
    assert MemberLine(STRAY.members[1..], cb) == 1;
    assert LineCount(STRAY.members[0].value) == 1;
  }

  // ---- Keys that are printed with escapes.

  lemma ConsPrefix(c: char, a: string, b: string)
    ensures [c] + a <= [c] + b <==> a <= b
  {
    assert ([c] + a)[1..] == a && ([c] + b)[1..] == b;
  }

  lemma SlashFirst(slashes: string, key: string, escaped: string, more: string)
    requires slashes != "" && forall i :: 0 <= i < |slashes| ==> slashes[i] == '\\'
    ensures "\\" + key + "\"" == ['\\'] + (key + "\"")
    ensures slashes + ("\\\\" + escaped) + more == ['\\'] + (slashes + "\\" + escaped + more)
  {
    assert slashes + "\\" == "\\" + slashes;
    assert slashes + ("\\\\" + escaped) == (slashes + "\\") + "\\" + escaped;
    assert "\\" + slashes + "\\" + escaped + more == ['\\'] + (slashes + "\\" + escaped + more);
  }

  /** With a backslash too many in front, an escaped key never reads like the key itself. */
  lemma {:induction false} EscapedApart(slashes: string, key: string, more: string)
    requires slashes != "" && forall i :: 0 <= i < |slashes| ==> slashes[i] == '\\'
    ensures !(key + "\"" <= slashes + Escape(key) + more)
    decreases |key|
  {
    if key != "" && key[0] == '\\' {
      var k := key[1..];
      EscapedApart(slashes + "\\", k, more);
      SlashFirst(slashes, k, Escape(k), more);
      ConsPrefix('\\', k + "\"", slashes + "\\" + Escape(k) + more);
      assert key == "\\" + k;
    } else {
      HeadsApart(key + "\"", slashes + Escape(key) + more);
    }
  }

  lemma HeadsApart(a: string, b: string)
    requires a != "" && b != "" && a[0] != b[0]
    ensures !(a <= b)
  {
  }

  lemma EscapedChar(c: char)
    ensures EscapeChar(c) == [c] <==> c != '"' && c != '\\' && c >= ' '
    ensures EscapeChar(c) == [c] || EscapeChar(c)[0] == '\\'
    ensures EscapeChar('\\') == "\\\\"
  {
  }

  lemma EscapeHead(key: string)
    requires !Plain(key)
    ensures key == [key[0]] + key[1..] && Escape(key) == EscapeChar(key[0]) + Escape(key[1..])
    ensures EscapeChar(key[0]) == [key[0]] ==> !Plain(key[1..])
    ensures EscapeChar(key[0]) == [key[0]] || EscapeChar(key[0])[0] == '\\'
    ensures key[0] == '\\' ==> EscapeChar(key[0]) == "\\\\"
  {
    EscapedChar(key[0]);
    hide EscapeChar;
    var i :| 0 <= i < |key| && !(key[i] != '"' && key[i] != '\\' && key[i] >= ' ');
    assert i > 0 ==> key[1..][i - 1] == key[i];
  }

  lemma BackslashKeyDiffers(k: string, more: string)
    ensures !("\\" + k + "\"" <= "\\\\" + Escape(k) + more)
  {
    hide *;
    EscapedApart("\\", k, more);
    Cons('\\', k, "\"");
    Cons('\\', "\\" + Escape(k), more);
    assert "\\\\" + Escape(k) == ['\\'] + ("\\" + Escape(k));
    ConsPrefix('\\', k + "\"", "\\" + Escape(k) + more);
  }

  lemma {:induction false} EscapedKeyDiffers(key: string, more: string)
    requires !Plain(key)
    ensures !(key + "\"" <= Escape(key) + more)
    decreases |key|
  {
    EscapeHead(key);
    var c, k := key[0], key[1..];
    hide *;
    if EscapeChar(c) == [c] {
      EscapedKeyDiffers(k, more);
      Cons(c, k, "\"");
      Cons(c, Escape(k), more);
      ConsPrefix(c, k + "\"", Escape(k) + more);
    } else if c == '\\' {
      BackslashKeyDiffers(k, more);
    } else {
      HeadsApart(key + "\"", Escape(key) + more);
    }
  }

  lemma Cons(c: char, a: string, b: string)
    ensures ([c] + a) + b == [c] + (a + b)
  {
  }

  /** The line of an entry with such a key does not match it. */
  lemma EscapedLineMissed(d: nat, key: string, more: string)
    requires !Plain(key)
    ensures !Matches(MemberHead(key, d) + more, d, key)
  {
    hide Matches, Escape, Plain;
    var rest := Quote(key) + (": " + more);
    assert MemberHead(key, d) + more == Indent(d) + rest;
    MatchAtIndent(d, rest, d, key);
    var after := "\"" + (": " + more);
    QuoteMark(key, Escape(key), ": " + more);
    ConsPrefix('"', key + "\":", Escape(key) + after);
    assert key + "\"" + ":" == key + "\":";
    LongerPrefix(key + "\"", ":", Escape(key) + after);
    EscapedKeyDiffers(key, after);
  }

  lemma QuoteMark(key: string, escaped: string, more: string)
    ensures "\"" + key + "\":" == ['"'] + (key + "\":")
    ensures "\"" + escaped + "\"" + more == ['"'] + (escaped + ("\"" + more))
  {
  }

  lemma LongerPrefix(a: string, b: string, c: string)
    ensures a + b <= c ==> a <= c
  {
    if a + b <= c {
      assert c[..|a|] == (a + b)[..|a|] == a;
    }
  }

  lemma {:induction false} LocatedMatches(lines: seq<string>, path: seq<string>, depth: nat, from: nat)
    requires from <= |lines| && path != [] && Locate(lines, path, depth, from) != -1
    ensures Matches(lines[Locate(lines, path, depth, from)], depth + |path| - 1, path[|path| - 1])
    decreases |path|
  {
    hide Matches;
    if |path| > 1 {
      LocatedMatches(lines, path[1..], depth + 1, FirstMatch(lines, depth, path[0], from) + 1);
    }
  }

  /** An entry whose own key needs escaping is never found: whatever comes back is not its line. */
  lemma EscapedKeyNeverFound(j: Json, path: seq<string>)
    requires Valid(j) && HasPath(j, path) && !Plain(path[|path| - 1])
    ensures KeyPosition(Print(j, 0), path) != EntryLine(j, path)
  {
    var lines, r, key, d := Split(Print(j, 0), '\n'), KeyPosition(Print(j, 0), path), path[|path| - 1], |path|;
    EntryLineShowsValue(j, path);
    hide Locate, Matches, Split;
    if r == EntryLine(j, path) {
      LocatedMatches(lines, path, 1, 0);
      var value := ValueAt(j, path);
      var tail := if At(lines, r, Lines(value, d, MemberHead(key, d), "")) then "" else ",";
      AtFirst(lines, r, Lines(value, d, MemberHead(key, d), tail));
      var more := FirstLine(value, d, MemberHead(key, d), tail);
      EscapedLineMissed(d, key, more);
    }
  }

  lemma FirstLine(j: Json, d: nat, head: string, tail: string) returns (more: string)
    ensures Lines(j, d, head, tail)[0] == head + more
  {
    match j
    case Literal(t) => more := t + tail; assert head + t + tail == head + more;
    case Str(s) => more := Quote(s) + tail; assert head + Quote(s) + tail == head + more;
    case Arr(items) =>
      more := if items == [] then "[]" + tail else "[";
      assert head + "[]" + tail == head + ("[]" + tail);
    case Obj(ms) =>
      more := if ms == [] then "{}" + tail else "{";
      assert head + "{}" + tail == head + ("{}" + tail);
  }
}
