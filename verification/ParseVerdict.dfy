/**
 When a source parses, and what each of its instructions was read from, without the parser's recursion:
 the statements that account for its lines, the comments between them, and the ARGs in force.
 */
module ParseVerdict {
  import opened Prelude
  import opened AgentSpec
  import opened ArgExpansion
  import opened Heredoc
  import opened Inheritance
  import opened Parser
  import opened Validation
  import Declarations

  // ---------------------------------------------------------------------------------------
  // What an instruction was read from
  // ---------------------------------------------------------------------------------------

  /** args holds, for every key, the default of the last ARG line that gives one. */
  ghost predicate InForce(insts: seq<Instruction>, args: map<string, string>) {
    forall key :: Declarations.LastSays(insts, Declarations.ArgAt(key), Declarations.Value(args, key))
  }

  /** inst is what was read, its body (if it is one that takes a body) being the heredoc's. */
  ghost predicate TakesBodyOf(raw: Instruction, body: string, inst: Instruction) {
    && (raw.ContextInst? ==>
          && inst.ContextInst? && inst.name == raw.name && inst.desc == raw.desc && inst.file == raw.file
          && inst.heredoc == body && (body == "" || inst.file.None?))
    && (raw.BinInst? ==>
          inst.BinInst? && inst.name == raw.name && inst.image == raw.image && inst.desc == raw.desc && inst.heredoc == body)
    && (!raw.ContextInst? && !raw.BinInst? ==> inst == raw)
  }

  /** The k-th statement is its line, less the heredoc, read under the ARGs of exactly the statements before it. */
  ghost predicate ReadFrom(lines: seq<string>, stmts: seq<Statement>, k: nat, read: LineReader, args: map<string, string>) {
    && k < |stmts| && stmts[k].start < |lines|
    && InForce(Insts(stmts[..k]), args)
    && var e := Extract(lines, stmts[k].start + 1, TrimSpace(lines[stmts[k].start]));
       && e.Some? && stmts[k].end == e.value.next
       && var raw := read(stmts[k].start, e.value.line, args);
          raw.Some? && TakesBodyOf(raw.value, e.value.body, stmts[k].inst)
  }

  lemma AttachTakesBody(raw: Instruction, body: string)
    requires !Clashes(raw, body)
    ensures TakesBodyOf(raw, body, Attach(raw, body))
  {
  }

  lemma StatementRead(lines: seq<string>, stmts: seq<Statement>, k: nat, read: LineReader)
    requires Derived(lines, stmts, read) && k < |stmts|
    ensures exists args :: ReadFrom(lines, stmts, k, read, args)
  {
    var before := Insts(stmts[..k]);
    Declarations.FoldMaps(before);
    var args := Fold(before).args;
    assert InForce(before, args);
    assert ReadStatement(lines, stmts[k].start, stmts[..k], read) == Ok(stmts[k]);
    var e := Extract(lines, stmts[k].start + 1, TrimSpace(lines[stmts[k].start])).value;
    AttachTakesBody(read(stmts[k].start, e.line, args).value, e.body);
    assert ReadFrom(lines, stmts, k, read, args);
  }

  /** And what is read of a line is the grammar's reading of its expansion under those ARGs. */
  lemma StatementExpanded(lines: seq<string>, stmts: seq<Statement>, k: nat, expand: Expander, lex: Lexer)
    requires Derived(lines, stmts, ExpandThenLex(expand, lex)) && Faithful(expand) && k < |stmts|
    ensures exists args, text :: IsExpansion(lines, stmts, k, args, text)
                                 && lex(text).Some? && TakesBodyOf(lex(text).value, BodyAt(lines, stmts[k].start), stmts[k].inst)
  {
    StatementRead(lines, stmts, k, ExpandThenLex(expand, lex));
    var args :| ReadFrom(lines, stmts, k, ExpandThenLex(expand, lex), args);
    var text := expand(stmts[k].start, LineAt(lines, stmts[k].start), args);
    assert IsExpansion(lines, stmts, k, args, text);
  }

  /** The line at pos less its heredoc, and the heredoc's body. */
  function LineAt(lines: seq<string>, pos: nat): string
    requires pos < |lines|
  {
    var e := Extract(lines, pos + 1, TrimSpace(lines[pos]));
    if e.Some? then e.value.line else ""
  }

  function BodyAt(lines: seq<string>, pos: nat): string
    requires pos < |lines|
  {
    var e := Extract(lines, pos + 1, TrimSpace(lines[pos]));
    if e.Some? then e.value.body else ""
  }

  ghost predicate IsExpansion(lines: seq<string>, stmts: seq<Statement>, k: nat, args: map<string, string>, text: string) {
    && k < |stmts| && stmts[k].start < |lines|
    && InForce(Insts(stmts[..k]), args) && Expands(LineAt(lines, stmts[k].start), args, text)
  }

  // ---------------------------------------------------------------------------------------
  // When a source parses
  // ---------------------------------------------------------------------------------------

  predicate Marked(lines: seq<string>) {
    lines != [] && HasPrefix(lines[0], "\U{FEFF}")
  }

  /** A syntax comment stands on the first line, if anywhere, and names the one supported syntax. */
  predicate Fits(lines: seq<string>, i: nat)
    requires i < |lines|
  {
    HasPrefix(TrimSpace(lines[i]), "# syntax=") ==>
      i == 0 && TrimSpace(lines[i])[|"# syntax="|..] == "openotters/agentfile:1"
  }

  ghost predicate CommentsFit(lines: seq<string>, pos: nat, stmts: seq<Statement>)
    requires pos <= |lines|
  {
    forall i :: 0 <= i < pos && !Covered(stmts, i) ==> Fits(lines, i)
  }

  lemma PragmaIsComment(s: string)
    ensures HasPrefix(s, "# syntax=") ==> HasPrefix(s, "#")
  {
    if HasPrefix(s, "# syntax=") { assert s[0] == s[..|"# syntax="|][0]; }
  }

  lemma CommentFits(lines: seq<string>, pos: nat, syntax: string)
    requires pos < |lines|
    ensures Comment(pos, TrimSpace(lines[pos]), syntax).Ok? <==> Fits(lines, pos)
  {
  }

  lemma CoveredSnoc(stmts: seq<Statement>, s: Statement, i: nat)
    ensures Covered(stmts + [s], i) <==> Covered(stmts, i) || s.start <= i < s.end
  {
    var all := stmts + [s];
    if k :| 0 <= k < |stmts| && stmts[k].start <= i < stmts[k].end { assert all[k].start <= i < all[k].end; }
    if s.start <= i < s.end { assert all[|stmts|].start <= i < all[|stmts|].end; }
    if k :| 0 <= k < |all| && all[k].start <= i < all[k].end { if k < |stmts| { assert all[k] == stmts[k]; } }
  }

  /** What every turn keeps besides. */
  ghost predicate Tidy(src: Source, pos: nat, script: Script) {
    && pos <= |src.lines| && CommentsFit(src.lines, pos, script.stmts) && (pos > 0 ==> !Marked(src.lines))
  }

  lemma TurnTidy(src: Source, read: LineReader, pos: nat, script: Script)
    requires pos < |src.lines| && Tidy(src, pos, script) && Turn(src, pos, script, read).Ok?
    ensures Tidy(src, Turn(src, pos, script, read).value.next, Turn(src, pos, script, read).value.script)
  {
    var p := Turn(src, pos, script, read).value;
    var trimmed := TrimSpace(src.lines[pos]);
    if Idle(src.lines[pos]) {
      if HasPrefix(trimmed, "#") { CommentFits(src.lines, pos, script.syntax); }
      PragmaIsComment(trimmed);
    } else {
      StatementExtent(src.lines, pos, script.stmts, read);
      var s := ReadStatement(src.lines, pos, script.stmts, read).value;
      forall i | 0 <= i < p.next && !Covered(p.script.stmts, i) ensures Fits(src.lines, i) {
        CoveredSnoc(script.stmts, s, i);
      }
    }
  }

  lemma ScanTidy(src: Source, read: LineReader)
    requires ScanAll(src, read).Ok?
    ensures Tidy(src, |src.lines|, ScanAll(src, read).value)
  {
    var inv := (p: nat, s: Script) => Tidy(src, p, s);
    forall p: nat, s | p < |src.lines| && inv(p, s) && Turn(src, p, s, read).Ok?
      ensures inv(Turn(src, p, s, read).value.next, Turn(src, p, s, read).value.script)
    {
      TurnTidy(src, read, p, s);
    }
    ScanKeeps(src, 0, EmptyScript, read, inv);
  }

  /** These statements account for the source, comments included. */
  ghost predicate Explains(src: Source, stmts: seq<Statement>, read: LineReader) {
    && !src.broken && !Marked(src.lines)
    && Accounts(src.lines, |src.lines|, stmts) && Derived(src.lines, stmts, read)
    && CommentsFit(src.lines, |src.lines|, stmts)
  }

  /** The scan has read the first k of these statements and has not passed the next. */
  ghost predicate On(src: Source, stmts: seq<Statement>, pos: nat, script: Script, k: nat) {
    && k <= |stmts| && script.stmts == stmts[..k]
    && EndOf(stmts, k) <= pos <= (if k < |stmts| then stmts[k].start else |src.lines|)
  }

  lemma GapUncovered(lines: seq<string>, stmts: seq<Statement>, k: nat, i: nat)
    requires Accounts(lines, |lines|, stmts) && k <= |stmts|
    requires EndOf(stmts, k) <= i < (if k < |stmts| then stmts[k].start else |lines|)
    ensures !Covered(stmts, i)
  {
    forall m | 0 <= m < |stmts| ensures !(stmts[m].start <= i < stmts[m].end) {
      if m < k { assert stmts[m].end <= EndOf(stmts, k); } else { assert stmts[k].start <= stmts[m].start; }
    }
  }

  lemma IdleTurn(src: Source, stmts: seq<Statement>, read: LineReader, pos: nat, script: Script, k: nat)
    requires Explains(src, stmts, read) && On(src, stmts, pos, script, k)
    requires pos < |src.lines| && (k < |stmts| ==> pos < stmts[k].start)
    ensures var turn := Turn(src, pos, script, read);
            turn.Ok? && turn.value.next == pos + 1 && On(src, stmts, pos + 1, turn.value.script, k)
  {
    GapUncovered(src.lines, stmts, k, pos);
    GapIsIdle(src.lines, stmts, k, pos);
    assert Fits(src.lines, pos);
    if HasPrefix(TrimSpace(src.lines[pos]), "#") { CommentFits(src.lines, pos, script.syntax); }
  }

  lemma TurnReads(src: Source, pos: nat, script: Script, read: LineReader, s: Statement)
    requires pos < |src.lines| && !Marked(src.lines) && !Idle(src.lines[pos])
    requires ReadStatement(src.lines, pos, script.stmts, read) == Ok(s)
    ensures Turn(src, pos, script, read) == Ok(Progress(script.(stmts := script.stmts + [s]), s.end))
  {
  }

  lemma DerivedAt(lines: seq<string>, stmts: seq<Statement>, read: LineReader, k: nat)
    requires Derived(lines, stmts, read) && k < |stmts|
    ensures stmts[k].start < |lines| && !Idle(lines[stmts[k].start])
    ensures ReadStatement(lines, stmts[k].start, stmts[..k], read) == Ok(stmts[k])
  {
  }

  lemma OnNext(src: Source, stmts: seq<Statement>, script: Script, k: nat)
    requires Accounts(src.lines, |src.lines|, stmts) && k < |stmts| && On(src, stmts, stmts[k].start, script, k)
    ensures On(src, stmts, stmts[k].end, script.(stmts := script.stmts + [stmts[k]]), k + 1)
  {
    assert stmts[..k + 1] == stmts[..k] + [stmts[k]];
  }

  lemma StatementTurn(src: Source, stmts: seq<Statement>, read: LineReader, script: Script, k: nat)
    requires Explains(src, stmts, read) && k < |stmts| && On(src, stmts, stmts[k].start, script, k)
    ensures stmts[k].start < |src.lines|
    ensures Turn(src, stmts[k].start, script, read) ==
            Ok(Progress(script.(stmts := script.stmts + [stmts[k]]), stmts[k].end))
  {
    DerivedAt(src.lines, stmts, read, k);
    TurnReads(src, stmts[k].start, script, read, stmts[k]);
  }

  lemma OnEnd(src: Source, stmts: seq<Statement>, script: Script, k: nat)
    requires Accounts(src.lines, |src.lines|, stmts) && On(src, stmts, |src.lines|, script, k)
    ensures script.stmts == stmts
  {
    assert stmts[..|stmts|] == stmts;
  }

  /** The scan follows any statements that explain the source. */
  lemma {:induction false} ScanFollows(src: Source, stmts: seq<Statement>, read: LineReader, pos: nat, script: Script, k: nat)
    requires Explains(src, stmts, read) && On(src, stmts, pos, script, k) && pos <= |src.lines|
    ensures Scan(src, pos, script, read).Ok? && Scan(src, pos, script, read).value.stmts == stmts
    decreases |src.lines| - pos
  {
    if pos == |src.lines| {
      OnEnd(src, stmts, script, k);
    } else if k < |stmts| && pos == stmts[k].start {
      StatementTurn(src, stmts, read, script, k);
      OnNext(src, stmts, script, k);
      var p := Turn(src, pos, script, read).value;
      ScanFollows(src, stmts, read, p.next, p.script, k + 1);
    } else {
      IdleTurn(src, stmts, read, pos, script, k);
      var p := Turn(src, pos, script, read).value;
      ScanFollows(src, stmts, read, p.next, p.script, k);
    }
  }

  lemma Explained(src: Source, read: LineReader)
    requires ReadsWellFormed(read) && ScanAll(src, read).Ok?
    ensures Explains(src, ScanAll(src, read).value.stmts, read)
  {
    ScanRegular(src, read);
    ScanTidy(src, read);
    ScanReadsAll(src, 0, EmptyScript, read);
  }

  lemma {:induction false} ScanReadsAll(src: Source, pos: nat, script: Script, read: LineReader)
    requires pos <= |src.lines| && Scan(src, pos, script, read).Ok?
    ensures !src.broken
    decreases |src.lines| - pos
  {
    if pos < |src.lines| {
      var p := Turn(src, pos, script, read).value;
      ScanReadsAll(src, p.next, p.script, read);
    }
  }

  /**
   A source parses exactly if some statements account for all its lines: each read from its own lines
   under the ARGs before it, the lines between them blank or comments, a syntax comment only on the
   first line and for the supported syntax, no byte-order mark, no read error; and if these start with
   FROM and fold to a valid agent. That agent is the result.
   */
  lemma ParsesExactly(src: Source, read: LineReader, af: Agentfile)
    requires ReadsWellFormed(read)
    ensures ParsesTo(src, read, Ok(af)) <==>
            && af.syntax == "openotters/agentfile:1"
            && exists stmts :: Explains(src, stmts, read) && StartsWithFrom(stmts)
                               && af.agent == Fold(Insts(stmts)) && Valid(af.agent)
  {
    if ParsesTo(src, read, Ok(af)) {
      Explained(src, read);
      ParseIsFold(src, read, Ok(af));
    }
    if af.syntax == "openotters/agentfile:1" {
      if stmts :| Explains(src, stmts, read) && StartsWithFrom(stmts) && af.agent == Fold(Insts(stmts)) && Valid(af.agent) {
        ScanFollows(src, stmts, read, 0, EmptyScript, 0);
        ScanRegular(src, read);
      }
    }
  }
}
