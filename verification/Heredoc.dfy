/**
 Heredoc extraction (spec/parse.go, splitQuoted and extractHeredoc): a line whose last token is
 <<MARKER takes the lines that follow, up to one that trims to MARKER, as its body.
 */
module Heredoc {
  import opened Prelude

  /** unicode.IsSpace. */
  predicate IsSpace(c: char) {
    || '\t' <= c <= '\r' || c == ' ' || c == '\U{85}' || c == '\U{A0}' || c == '\U{1680}'
    || '\U{2000}' <= c <= '\U{200A}' || c == '\U{2028}' || c == '\U{2029}' || c == '\U{202F}'
    || c == '\U{205F}' || c == '\U{3000}'
  }

  function TrimLeft(s: string): string {
    if s != "" && IsSpace(s[0]) then TrimLeft(s[1..]) else s
  }

  function TrimRight(s: string): string {
    if s != "" && IsSpace(s[|s| - 1]) then TrimRight(s[..|s| - 1]) else s
  }

  function TrimSpace(s: string): string {
    TrimRight(TrimLeft(s))
  }

  predicate Trimmed(s: string) {
    s == "" || (!IsSpace(s[0]) && !IsSpace(s[|s| - 1]))
  }

  lemma {:induction false} TrimRightKeepsStart(s: string)
    ensures TrimRight(s) <= s
    ensures TrimRight(s) == "" || !IsSpace(TrimRight(s)[|TrimRight(s)| - 1])
    decreases |s|
  {
    if s != "" && IsSpace(s[|s| - 1]) { TrimRightKeepsStart(s[..|s| - 1]); }
  }

  lemma {:induction false} TrimSpaceTrims(s: string)
    ensures Trimmed(TrimSpace(s))
    decreases |s|
  {
    if s != "" && IsSpace(s[0]) {
      TrimSpaceTrims(s[1..]);
    } else {
      TrimRightKeepsStart(s);
    }
  }

  /** The characters of Unicode's White_Space property. */
  const WhiteSpace: set<char> := {
    '\t', '\n', '\U{B}', '\U{C}', '\r', ' ', '\U{85}', '\U{A0}', '\U{1680}', '\U{2000}', '\U{2001}', '\U{2002}',
    '\U{2003}', '\U{2004}', '\U{2005}', '\U{2006}', '\U{2007}', '\U{2008}', '\U{2009}', '\U{200A}', '\U{2028}',
    '\U{2029}', '\U{202F}', '\U{205F}', '\U{3000}' }

  lemma SpaceIsWhiteSpace(c: char)
    ensures IsSpace(c) <==> c in WhiteSpace
  {
  }

  /** All of s is white space. */
  ghost predicate White(s: string) {
    forall i :: 0 <= i < |s| ==> s[i] in WhiteSpace
  }

  lemma {:induction false} TrimLeftCuts(s: string) returns (l: string)
    ensures s == l + TrimLeft(s) && White(l)
    ensures TrimLeft(s) == "" || TrimLeft(s)[0] !in WhiteSpace
  {
    if s != "" {
      SpaceIsWhiteSpace(s[0]);
    }
    if s != "" && IsSpace(s[0]) {
      var rest := TrimLeftCuts(s[1..]);
      l := [s[0]] + rest;
    } else {
      l := "";
    }
  }

  lemma {:induction false} TrimRightCuts(s: string) returns (r: string)
    ensures s == TrimRight(s) + r && White(r)
    ensures TrimRight(s) == "" || TrimRight(s)[|TrimRight(s)| - 1] !in WhiteSpace
  {
    if s != "" {
      SpaceIsWhiteSpace(s[|s| - 1]);
    }
    if s != "" && IsSpace(s[|s| - 1]) {
      var rest := TrimRightCuts(s[..|s| - 1]);
      r := rest + [s[|s| - 1]];
    } else {
      r := "";
    }
  }

  /** Trimming cuts white space off both ends and leaves none there. */
  lemma TrimSpaceCuts(s: string) returns (l: string, r: string)
    ensures s == l + TrimSpace(s) + r && White(l) && White(r)
    ensures TrimSpace(s) != "" ==> TrimSpace(s)[0] !in WhiteSpace && TrimSpace(s)[|TrimSpace(s)| - 1] !in WhiteSpace
  {
    l := TrimLeftCuts(s);
    r := TrimRightCuts(TrimLeft(s));
    var t := TrimSpace(s);
    assert s == l + (t + r) == l + t + r;
    if t != "" { assert TrimLeft(s)[0] == t[0]; }
  }

  // ---------------------------------------------------------------------------------------
  // Tokens
  // ---------------------------------------------------------------------------------------

  predicate Blank(c: char) { c == ' ' || c == '\t' }

  /** The tokens of `s`, having already read `current` of the first one. */
  function Tokens(s: string, current: string, inQuote: bool): seq<string>
    decreases |s|
  {
    if s == "" then (if current == "" then [] else [current])
    else if s[0] == '"' then Tokens(s[1..], current + [s[0]], !inQuote)
    else if Blank(s[0]) && !inQuote then
      (if current == "" then [] else [current]) + Tokens(s[1..], "", false)
    else Tokens(s[1..], current + [s[0]], inQuote)
  }

  method SplitQuoted(s: string) returns (parts: seq<string>)
    ensures parts == Tokens(s, "", false)
  {
    parts := [];
    var current, inQuote := "", false;
    assert s[0..] == s;
    for i := 0 to |s|
      invariant parts + Tokens(s[i..], current, inQuote) == Tokens(s, "", false)
    {
      var c := s[i];
      assert s[i..][0] == c && s[i..][1..] == s[i + 1..];
      if c == '"' {
        inQuote := !inQuote;
        current := current + [c];
      } else if Blank(c) && !inQuote {
        if current != "" {
          assert (parts + [current]) + Tokens(s[i + 1..], "", false) == parts + ([current] + Tokens(s[i + 1..], "", false));
          parts := parts + [current];
          current := "";
        } else {
          assert [] + Tokens(s[i + 1..], "", false) == Tokens(s[i + 1..], "", false);
        }
      } else {
        current := current + [c];
      }
    }
    assert s[|s|..] == "";
    if current != "" { parts := parts + [current]; }
  }

  /** How many quotation marks stand before position i. */
  function Quotes(s: string, i: nat): nat
    requires i <= |s|
  {
    if i == 0 then 0 else Quotes(s, i - 1) + (if s[i - 1] == '"' then 1 else 0)
  }

  /** A blank outside quotation marks separates tokens. */
  predicate Separates(s: string, i: nat)
    requires i < |s|
  {
    (s[i] == ' ' || s[i] == '\t') && Quotes(s, i) % 2 == 0
  }

  /** s[a..b] is a maximal run of text without a separating blank. */
  ghost predicate Run(s: string, a: int, b: int) {
    && 0 <= a < b <= |s|
    && (a == 0 || Separates(s, a - 1))
    && (b == |s| || Separates(s, b))
    && forall i :: a <= i < b ==> !Separates(s, i)
  }

  /** Where the tokens of `s` lie, reading on from i in a token begun at a. */
  function Spans(s: string, a: nat, i: nat): seq<(nat, nat)>
    requires a <= i <= |s|
    decreases |s| - i
  {
    if i == |s| then (if a == i then [] else [(a, i)])
    else if Separates(s, i) then (if a == i then [] else [(a, i)]) + Spans(s, i + 1, i + 1)
    else Spans(s, a, i + 1)
  }

  /** The reading so far: a begins a token and nothing up to i separates. */
  ghost predicate Reading(s: string, a: nat, i: nat) {
    && a <= i <= |s| && (a == 0 || Separates(s, a - 1))
    && forall j :: a <= j < i ==> !Separates(s, j)
  }

  /** The spans are runs, from a on and in order. */
  ghost predicate InOrder(s: string, spans: seq<(nat, nat)>, a: nat) {
    && (forall k :: 0 <= k < |spans| ==> Run(s, spans[k].0, spans[k].1) && a <= spans[k].0)
    && forall j, k :: 0 <= j < k < |spans| ==> spans[j].1 < spans[k].0
  }

  lemma InOrderCons(s: string, a: nat, i: nat, rest: seq<(nat, nat)>)
    requires a < i && Run(s, a, i) && InOrder(s, rest, i + 1)
    ensures InOrder(s, [(a, i)] + rest, a)
  {
  }

  lemma InOrderFrom(s: string, a: nat, i: nat, spans: seq<(nat, nat)>)
    requires a <= i && InOrder(s, spans, i)
    ensures InOrder(s, spans, a)
  {
  }

  lemma SpansEnd(s: string, a: nat, i: nat, rest: seq<(nat, nat)>)
    requires Reading(s, a, i) && (i == |s| || Separates(s, i)) && InOrder(s, rest, i + 1)
    ensures InOrder(s, (if a == i then [] else [(a, i)]) + rest, a)
  {
    if a < i {
      InOrderCons(s, a, i, rest);
    } else {
      assert [] + rest == rest;
      InOrderFrom(s, a, i + 1, rest);
    }
  }

  lemma SpansAtEnd(s: string, a: nat)
    requires Reading(s, a, |s|)
    ensures InOrder(s, Spans(s, a, |s|), a)
  {
    SpansEnd(s, a, |s|, []);
    assert Spans(s, a, |s|) + [] == Spans(s, a, |s|);
  }

  lemma SpansAtSeparator(s: string, a: nat, i: nat)
    requires Reading(s, a, i) && i < |s| && Separates(s, i) && InOrder(s, Spans(s, i + 1, i + 1), i + 1)
    ensures InOrder(s, Spans(s, a, i), a)
  {
    SpansEnd(s, a, i, Spans(s, i + 1, i + 1));
  }

  lemma ReadingOn(s: string, a: nat, i: nat)
    requires Reading(s, a, i) && i < |s|
    ensures if Separates(s, i) then Reading(s, i + 1, i + 1) else Reading(s, a, i + 1)
  {
  }

  lemma {:induction false} SpansInOrder(s: string, a: nat, i: nat)
    requires Reading(s, a, i)
    ensures InOrder(s, Spans(s, a, i), a)
    decreases |s| - i
  {
    if i == |s| {
      SpansAtEnd(s, a);
    } else {
      ReadingOn(s, a, i);
      if Separates(s, i) {
        SpansInOrder(s, i + 1, i + 1);
        SpansAtSeparator(s, a, i);
      } else {
        SpansInOrder(s, a, i + 1);
      }
    }
  }

  /** No run is left out. */
  lemma {:induction false} SpansComplete(s: string, a: nat, i: nat, b: nat, e: nat)
    requires Reading(s, a, i) && a <= b && Run(s, b, e)
    ensures (b, e) in Spans(s, a, i)
    decreases |s| - i
  {
    assert b == a || i < b;
    if i < |s| {
      if Separates(s, i) {
        if b == a { assert e == i; } else { SpansComplete(s, i + 1, i + 1, b, e); }
      } else {
        SpansComplete(s, a, i + 1, b, e);
      }
    }
  }

  /** The tokens are the texts of the spans. */
  ghost predicate TextsOf(s: string, spans: seq<(nat, nat)>, tokens: seq<string>) {
    && |tokens| == |spans|
    && forall k :: 0 <= k < |spans| ==> spans[k].0 <= spans[k].1 <= |s| && tokens[k] == s[spans[k].0..spans[k].1]
  }

  lemma TextsCons(s: string, a: nat, i: nat, spans: seq<(nat, nat)>, tokens: seq<string>)
    requires a <= i <= |s| && TextsOf(s, spans, tokens)
    ensures TextsOf(s, (if a == i then [] else [(a, i)]) + spans, (if s[a..i] == "" then [] else [s[a..i]]) + tokens)
  {
    if a == i { assert [] + spans == spans && [] + tokens == tokens; }
  }

  lemma TokensAtSeparator(s: string, a: nat, i: nat)
    requires a <= i < |s| && Separates(s, i)
    ensures Tokens(s[i..], s[a..i], false) == (if s[a..i] == "" then [] else [s[a..i]]) + Tokens(s[i + 1..], "", false)
  {
    assert s[i..][0] == s[i] && s[i..][1..] == s[i + 1..];
  }

  lemma {:induction false} TokensAtSpans(s: string, a: nat, i: nat, inQuote: bool)
    requires a <= i <= |s| && (inQuote <==> Quotes(s, i) % 2 == 1)
    ensures TextsOf(s, Spans(s, a, i), Tokens(s[i..], s[a..i], inQuote))
    decreases |s| - i
  {
    if i < |s| {
      assert s[i..][0] == s[i] && s[i..][1..] == s[i + 1..] && s[a..i] + [s[i]] == s[a..i + 1];
      if Separates(s, i) {
        assert s[i + 1..i + 1] == "";
        TokensAtSpans(s, i + 1, i + 1, false);
        TokensAtSeparator(s, a, i);
        TextsCons(s, a, i, Spans(s, i + 1, i + 1), Tokens(s[i + 1..], "", false));
      } else {
        TokensAtSpans(s, a, i + 1, if s[i] == '"' then !inQuote else inQuote);
      }
    }
  }

  /** The tokens of a text are all its maximal runs without a blank outside quotation marks, in order. */
  lemma TokensAreRuns(s: string)
    ensures var spans := Spans(s, 0, 0);
            && TextsOf(s, spans, Tokens(s, "", false)) && InOrder(s, spans, 0)
            && forall a, b :: Run(s, a, b) ==> (a, b) in spans
  {
    assert s[0..] == s && s[0..0] == "";
    TokensAtSpans(s, 0, 0, false);
    SpansInOrder(s, 0, 0);
    forall a, b | Run(s, a, b) ensures (a, b) in Spans(s, 0, 0) { SpansComplete(s, 0, 0, a, b); }
  }

  function Last(parts: seq<string>): string
    requires parts != []
  {
    parts[|parts| - 1]
  }

  ghost predicate SuffixOf(t: string, s: string) {
    |t| <= |s| && s[|s| - |t|..] == t
  }

  lemma SuffixStep(t: string, s: string, front: string)
    requires SuffixOf(t, s)
    ensures SuffixOf(t, front + s)
  {
    assert (front + s)[|front + s| - |t|..] == s[|s| - |t|..];
  }

  /** A blank between tokens: what follows supplies the last token. */
  lemma TokensAfterBlank(s: string, current: string)
    requires s != "" && Blank(s[0]) && Tokens(s[1..], "", false) != []
    ensures Tokens(s, current, false) != []
    ensures Last(Tokens(s, current, false)) == Last(Tokens(s[1..], "", false))
  {
    var rest := Tokens(s[1..], "", false);
    assert [] + rest == rest;
    assert ([current] + rest)[|rest|] == rest[|rest| - 1];
  }

  /** If the text does not end in a blank, its last token runs to its very end. */
  lemma {:induction false} LastTokenIsSuffix(s: string, current: string, inQuote: bool)
    requires if s == "" then current != "" else !Blank(s[|s| - 1])
    ensures Tokens(s, current, inQuote) != []
    ensures Last(Tokens(s, current, inQuote)) != ""
    ensures SuffixOf(Last(Tokens(s, current, inQuote)), current + s)
    decreases |s|
  {
    if s == "" {
      assert current + s == current;
    } else {
      var c, rest := s[0], s[1..];
      assert rest != "" ==> rest[|rest| - 1] == s[|s| - 1];
      assert current + [c] + rest == current + s;
      if Blank(c) && !inQuote {
        LastTokenIsSuffix(rest, "", false);
        TokensAfterBlank(s, current);
        assert "" + rest == rest;
        SuffixStep(Last(Tokens(rest, "", false)), rest, current + [c]);
      } else {
        LastTokenIsSuffix(rest, current + [c], if c == '"' then !inQuote else inQuote);
      }
    }
  }

  /** strings.LastIndex: the greatest offset at or below `from` where sub occurs, or -1. */
  function LastIndexFrom(s: string, sub: string, from: int): (i: int)
    requires from + |sub| <= |s|
    ensures -1 <= i && i <= (if from < 0 then -1 else from)
    decreases from + 1
  {
    if from < 0 then -1
    else if s[from..from + |sub|] == sub then from
    else LastIndexFrom(s, sub, from - 1)
  }

  function LastIndex(s: string, sub: string): int {
    if |sub| <= |s| then LastIndexFrom(s, sub, |s| - |sub|) else -1
  }

  /** On a trimmed line the cut made by LastIndex removes precisely the last token. */
  lemma CutRemovesLastToken(line: string)
    requires Trimmed(line) && line != ""
    ensures Tokens(line, "", false) != []
    ensures var t := Last(Tokens(line, "", false));
            && t != "" && SuffixOf(t, line)
            && LastIndex(line, t) == |line| - |t|
            && line == line[..|line| - |t|] + t
  {
    LastTokenIsSuffix(line, "", false);
    assert "" + line == line;
    var t := Last(Tokens(line, "", false));
    assert line[|line| - |t|..|line|] == line[|line| - |t|..];
  }

  // ---------------------------------------------------------------------------------------
  // Bodies
  // ---------------------------------------------------------------------------------------

  /** The marker a line announces, if its last token is << followed by something. */
  function Marker(line: string): Option<string> {
    var parts := Tokens(line, "", false);
    if parts == [] then None
    else if !HasPrefix(Last(parts), "<<") || |Last(parts)| == 2 then None
    else Some(Last(parts)[2..])
  }

  /** The text ends in << and m, set off by a blank outside quotation marks, and m holds no such blank. */
  ghost predicate Announces(line: string, m: string) {
    var a := |line| - |m| - 2;
    && m != "" && a >= 0 && line[a..] == "<<" + m
    && (a == 0 || Separates(line, a - 1))
    && forall i :: a <= i < |line| ==> !Separates(line, i)
  }

  lemma {:induction false} LastSpanEnds(s: string, a: nat, i: nat)
    requires a <= i <= |s| && (i == |s| ==> a < i)
    requires i < |s| ==> !Blank(s[|s| - 1])
    ensures var spans := Spans(s, a, i); spans != [] && spans[|spans| - 1].1 == |s|
    decreases |s| - i
  {
    if i < |s| {
      if Separates(s, i) { LastSpanEnds(s, i + 1, i + 1); } else { LastSpanEnds(s, a, i + 1); }
    }
  }

  /** The last token of a text that does not end in a blank is its last run. */
  lemma LastRun(s: string) returns (b: nat)
    requires s != "" && !Blank(s[|s| - 1])
    ensures Run(s, b, |s|) && Tokens(s, "", false) != [] && Last(Tokens(s, "", false)) == s[b..]
  {
    TokensAreRuns(s);
    LastSpanEnds(s, 0, 0);
    var spans := Spans(s, 0, 0);
    b := spans[|spans| - 1].0;
    assert Run(s, b, spans[|spans| - 1].1) && s[b..|s|] == s[b..];
  }

  lemma OneRunToTheEnd(s: string, a: nat, b: nat)
    requires Run(s, a, |s|) && Run(s, b, |s|)
    ensures a == b
  {
  }

  lemma OpenerIs(t: string, m: string)
    ensures HasPrefix(t, "<<") && |t| != 2 && t[2..] == m <==> t == "<<" + m && m != ""
  {
    if t == "<<" + m { assert t[..2] == "<<" && t[2..] == m; }
    if HasPrefix(t, "<<") { assert t == t[..2] + t[2..]; }
  }

  lemma AnnouncesIs(line: string, m: string, b: nat)
    requires line != "" && Run(line, b, |line|)
    ensures Announces(line, m) <==> line[b..] == "<<" + m && m != ""
  {
    var a := |line| - |m| - 2;
    if Announces(line, m) { OneRunToTheEnd(line, a, b); }
    if line[b..] == "<<" + m { assert |line| - b == |m| + 2; }
  }

  /** A line announces a heredoc exactly if its text says so. */
  lemma MarkerExactly(line: string, m: string)
    requires line == "" || !Blank(line[|line| - 1])
    ensures Marker(line) == Some(m) <==> Announces(line, m)
  {
    if line != "" {
      var b := LastRun(line);
      OpenerIs(line[b..], m);
      AnnouncesIs(line, m, b);
    }
  }

  /** The next line at or after pos that trims to the marker; |lines| if there is none. */
  function FindMarker(lines: seq<string>, pos: nat, marker: string): (m: nat)
    requires pos <= |lines|
    ensures pos <= m <= |lines|
    ensures m < |lines| ==> TrimSpace(lines[m]) == marker
    ensures forall i :: pos <= i < m ==> TrimSpace(lines[i]) != marker
    decreases |lines| - pos
  {
    if pos == |lines| || TrimSpace(lines[pos]) == marker then pos else FindMarker(lines, pos + 1, marker)
  }

  function DropTrailingEmpty(lines: seq<string>): seq<string> {
    if lines != [] && lines[|lines| - 1] == "" then DropTrailingEmpty(lines[..|lines| - 1]) else lines
  }

  /** Lines separated (not terminated) by newlines. */
  function JoinLines(lines: seq<string>): string {
    if lines == [] then ""
    else if |lines| == 1 then lines[0]
    else JoinLines(lines[..|lines| - 1]) + "\n" + lines[|lines| - 1]
  }

  function Body(lines: seq<string>): string {
    JoinLines(DropTrailingEmpty(lines))
  }

  /** What the builder accumulates: every line terminated. */
  function Terminated(lines: seq<string>): string {
    if lines == [] then "" else Terminated(lines[..|lines| - 1]) + lines[|lines| - 1] + "\n"
  }

  function TrimNewlines(s: string): string {
    if s != "" && s[|s| - 1] == '\n' then TrimNewlines(s[..|s| - 1]) else s
  }

  /** Exactly the empty lines at the end are dropped. */
  lemma {:induction false} BodyKeeps(lines: seq<string>, n: nat)
    requires n <= |lines| && (n == 0 || lines[n - 1] != "")
    requires forall i :: n <= i < |lines| ==> lines[i] == ""
    ensures Body(lines) == JoinLines(lines[..n])
    decreases |lines|
  {
    if n == |lines| {
      assert lines[..n] == lines;
    } else {
      assert lines[..|lines| - 1][..n] == lines[..n];
      BodyKeeps(lines[..|lines| - 1], n);
    }
  }

  /** A scanner never delivers a newline inside a line. */
  ghost predicate Scanned(lines: seq<string>) {
    forall i :: 0 <= i < |lines| ==> '\n' !in lines[i]
  }

  lemma {:induction false} TerminatedIsJoined(lines: seq<string>)
    requires lines != []
    ensures Terminated(lines) == JoinLines(lines) + "\n"
  {
    if |lines| == 1 {
      assert lines[..0] == [];
      assert "" + lines[0] + "\n" == lines[0] + "\n";
    } else {
      TerminatedIsJoined(lines[..|lines| - 1]);
    }
  }

  /** Right-trimming the accumulated text is dropping the trailing empty lines. */
  lemma {:induction false} TrimmedIsBody(lines: seq<string>)
    requires Scanned(lines)
    ensures TrimNewlines(Terminated(lines)) == Body(lines)
  {
    if lines != [] {
      var init, last := lines[..|lines| - 1], lines[|lines| - 1];
      var text := Terminated(lines);
      assert text == Terminated(init) + last + "\n";
      assert text[..|text| - 1] == Terminated(init) + last;
      if last == "" {
        assert Terminated(init) + last == Terminated(init);
        TrimmedIsBody(init);
      } else {
        assert last[|last| - 1] in last;
        TerminatedIsJoined(lines);
        assert text[..|text| - 1] == JoinLines(lines);
      }
    }
  }

  datatype Extracted = Extracted(line: string, body: string, next: nat)

  /** The rest of the line, the body, and where reading resumes; None when no line trims to the marker. */
  function Extract(lines: seq<string>, pos: nat, line: string): Option<Extracted>
    requires pos <= |lines|
  {
    var marker := Marker(line);
    if marker.None? then Some(Extracted(line, "", pos))
    else
      var m := FindMarker(lines, pos, marker.value);
      if m == |lines| then None
      else
        var cut := LastIndex(line, "<<" + marker.value);
        Some(Extracted(TrimSpace(line[..if cut < 0 then 0 else cut]), Body(lines[pos..m]), m + 1))
  }

  /** The rest of a line that announces a heredoc. */
  lemma MarkerCut(line: string)
    requires Trimmed(line) && line != "" && Marker(line).Some?
    ensures var opener := "<<" + Marker(line).value;
            && Last(Tokens(line, "", false)) == opener && SuffixOf(opener, line)
            && LastIndex(line, opener) == |line| - |opener|
  {
    CutRemovesLastToken(line);
    var t := Last(Tokens(line, "", false));
    assert t == t[..2] + t[2..];
    assert t == "<<" + Marker(line).value;
  }

  lemma FindMarkerIs(lines: seq<string>, pos: nat, marker: string, m: nat)
    requires pos <= m <= |lines|
    requires m < |lines| ==> TrimSpace(lines[m]) == marker
    requires forall j :: pos <= j < m ==> TrimSpace(lines[j]) != marker
    ensures FindMarker(lines, pos, marker) == m
  {
  }

  lemma TerminatedSnoc(lines: seq<string>, pos: nat, i: nat)
    requires pos <= i < |lines|
    ensures Terminated(lines[pos..i + 1]) == Terminated(lines[pos..i]) + lines[i] + "\n"
  {
    assert lines[pos..i + 1][..i - pos] == lines[pos..i];
  }

  lemma FoundBody(lines: seq<string>, pos: nat, marker: string, i: nat)
    requires pos <= i < |lines| && Scanned(lines) && TrimSpace(lines[i]) == marker
    requires forall j :: pos <= j < i ==> TrimSpace(lines[j]) != marker
    ensures FindMarker(lines, pos, marker) == i
    ensures TrimNewlines(Terminated(lines[pos..i])) == Body(lines[pos..i])
  {
    FindMarkerIs(lines, pos, marker, i);
    TrimmedIsBody(lines[pos..i]);
  }

  /** The reading loop. */
  method ReadBody(lines: seq<string>, pos: nat, marker: string) returns (body: Option<string>, next: nat)
    requires pos <= |lines| && Scanned(lines)
    ensures var m := FindMarker(lines, pos, marker);
            if m == |lines| then body.None? else body == Some(Body(lines[pos..m])) && next == m + 1
  {
    var b := "";
    for i := pos to |lines|
      invariant b == Terminated(lines[pos..i])
      invariant forall j :: pos <= j < i ==> TrimSpace(lines[j]) != marker
    {
      if TrimSpace(lines[i]) == marker {
        FoundBody(lines, pos, marker, i);
        return Some(TrimNewlines(b)), i + 1;
      }
      TerminatedSnoc(lines, pos, i);
      b := b + lines[i] + "\n";
    }
    FindMarkerIs(lines, pos, marker, |lines|);
    return None, 0;
  }

  method ExtractHeredoc(lines: seq<string>, pos: nat, line: string) returns (r: Option<Extracted>)
    requires pos <= |lines| && Scanned(lines) && Trimmed(line)
    ensures r == Extract(lines, pos, line)
  {
    var parts := SplitQuoted(line);
    if parts == [] { return Some(Extracted(line, "", pos)); }
    var last := parts[|parts| - 1];
    if !HasPrefix(last, "<<") || |last| == 2 { return Some(Extracted(line, "", pos)); }
    var marker := last[2..];
    assert Marker(line) == Some(marker);
    MarkerCut(line);
    var idx := LastIndex(line, last);
    ExtractWith(lines, pos, line, marker, idx);
    var cleanLine := TrimSpace(line[..idx]);
    var body, next := ReadBody(lines, pos, marker);
    if body.None? { return None; }
    return Some(Extracted(cleanLine, body.value, next));
  }

  lemma NothingAnnounced(lines: seq<string>, pos: nat, line: string)
    requires pos <= |lines| && Trimmed(line)
    requires forall m :: !Announces(line, m)
    ensures Extract(lines, pos, line) == Some(Extracted(line, "", pos))
  {
    if Marker(line).Some? { MarkerExactly(line, Marker(line).value); }
  }

  lemma MarkerAnnounced(line: string, marker: string)
    requires Trimmed(line) && Announces(line, marker)
    ensures |marker| + 2 <= |line| && Marker(line) == Some(marker)
    ensures LastIndex(line, "<<" + marker) == |line| - |marker| - 2
  {
    MarkerExactly(line, marker);
    MarkerCut(line);
  }

  /** e is `front` with the lines from pos up to the first that trims to the marker, that line consumed as well. */
  ghost predicate TakesBody(lines: seq<string>, pos: nat, marker: string, front: string, e: Extracted) {
    && pos < e.next <= |lines|
    && TrimSpace(lines[e.next - 1]) == marker
    && (forall i :: pos <= i < e.next - 1 ==> TrimSpace(lines[i]) != marker)
    && e.line == TrimSpace(front)
    && e.body == Body(lines[pos..e.next - 1])
  }

  /**
   Extraction is exact on every trimmed line. A line that announces nothing is handed back alone. From
   one that announces a marker the announcement is cut off; the body is the lines up to the first that
   trims to the marker, trailing empty ones dropped; exactly those lines and the marker line are
   consumed; and extraction fails only if there is no such line.
   */
  lemma ExtractExact(lines: seq<string>, pos: nat, line: string, marker: string)
    requires pos <= |lines| && Trimmed(line)
    ensures (forall m :: !Announces(line, m)) ==> Extract(lines, pos, line) == Some(Extracted(line, "", pos))
    ensures Announces(line, marker) ==>
              && |marker| + 2 <= |line|
              && (Extract(lines, pos, line).None? <==> forall i :: pos <= i < |lines| ==> TrimSpace(lines[i]) != marker)
              && (Extract(lines, pos, line).Some? ==>
                    TakesBody(lines, pos, marker, line[..|line| - |marker| - 2], Extract(lines, pos, line).value))
  {
    if Announces(line, marker) {
      MarkerAnnounced(line, marker);
      ExtractedAt(lines, pos, line, marker, |line| - |marker| - 2);
    } else if forall m :: !Announces(line, m) {
      NothingAnnounced(lines, pos, line);
    }
  }

  lemma ExtractedAt(lines: seq<string>, pos: nat, line: string, marker: string, cut: nat)
    requires pos <= |lines| && Marker(line) == Some(marker)
    requires LastIndex(line, "<<" + marker) == cut <= |line|
    ensures Extract(lines, pos, line).None? <==> forall i :: pos <= i < |lines| ==> TrimSpace(lines[i]) != marker
    ensures Extract(lines, pos, line).Some? ==> TakesBody(lines, pos, marker, line[..cut], Extract(lines, pos, line).value)
  {
    ExtractWith(lines, pos, line, marker, cut);
    FoundMarker(lines, pos, marker);
  }

  lemma FoundMarker(lines: seq<string>, pos: nat, marker: string)
    requires pos <= |lines|
    ensures FindMarker(lines, pos, marker) == |lines| <==> forall i :: pos <= i < |lines| ==> TrimSpace(lines[i]) != marker
  {
    var m := FindMarker(lines, pos, marker);
    if m < |lines| { assert TrimSpace(lines[m]) == marker; }
  }

  lemma ExtractWith(lines: seq<string>, pos: nat, line: string, marker: string, cut: nat)
    requires pos <= |lines| && Marker(line) == Some(marker)
    requires LastIndex(line, "<<" + marker) == cut <= |line|
    ensures Extract(lines, pos, line) ==
            var m := FindMarker(lines, pos, marker);
            if m == |lines| then None
            else Some(Extracted(TrimSpace(line[..cut]), Body(lines[pos..m]), m + 1))
  {
  }
}
