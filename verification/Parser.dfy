/**
 The line-oriented parser (spec/parse.go, parser.parse). Reading one line is a parameter: `read` stands
 for ARG expansion, keyword normalisation and the grammar, applied to a line whose heredoc has been
 cut off. It is told the line's position, so that it may expand equal lines in different map orders.
 The reference is a recursion over the lines; the parser object refines it.
 */
module Parser {
  import opened Prelude
  import opened AgentSpec
  import opened AgentMutation
  import opened ArgExpansion
  import opened Heredoc
  import opened Inheritance
  import opened Validation

  const DefaultSyntax := "openotters/agentfile:1"
  const SyntaxPragma := "# syntax="
  const ByteOrderMark := "\U{FEFF}"

  /** The scanned lines, and whether the scanner stopped on an error instead of the end of input. */
  datatype Source = Source(lines: seq<string>, broken: bool)

  /** From a position, its text and the ARGs declared so far to an instruction, heredoc not yet attached. */
  type LineReader = (nat, string, map<string, string>) -> Option<Instruction>

  /** ARG expansion as one run resolves it, and the grammar of an expanded line. */
  type Expander = (nat, string, map<string, string>) -> string
  type Lexer = string -> Option<Instruction>

  function ExpandThenLex(expand: Expander, lex: Lexer): LineReader {
    (pos: nat, line: string, args: map<string, string>) => lex(expand(pos, line, args))
  }

  datatype ParseError =
    | StartsWithMark | SyntaxNotFirst | UnsupportedSyntax | Unterminated | BadTokens
    | SecondFrom | FileAndHeredoc | ReadFailed | FromNotFirst | Invalid(part: Part)

  /** An instruction and the lines [start, end) it was read from. */
  datatype Statement = Statement(inst: Instruction, start: nat, end: nat)

  datatype Script = Script(syntax: string, stmts: seq<Statement>)

  function Insts(stmts: seq<Statement>): (r: seq<Instruction>)
    ensures |r| == |stmts|
  {
    seq(|stmts|, i requires 0 <= i < |stmts| => stmts[i].inst)
  }

  function Keyword(inst: Instruction): string {
    match inst
    case FromInst(_) => "FROM"
    case RuntimeInst(_) => "RUNTIME"
    case ModelInst(_) => "MODEL"
    case NameInst(_) => "NAME"
    case ContextInst(_, _, _, _) => "CONTEXT"
    case ConfigInst(_, _, _, _, _) => "CONFIG"
    case BinInst(_, _, _, _) => "BIN"
    case AddInst(_, _, _) => "ADD"
    case LabelInst(_, _) => "LABEL"
    case ExecInst(_) => "EXEC"
    case ArgInst(_, _) => "ARG"
    case EnvInst(_, _, _) => "ENV"
    case CapabilityInst(_) => "CAPABILITY"
  }

  function Attach(inst: Instruction, body: string): Instruction {
    match inst
    case ContextInst(name, desc, file, _) => ContextInst(name, desc, file, body)
    case BinInst(name, image, desc, _) => BinInst(name, image, desc, body)
    case _ => inst
  }

  predicate Clashes(inst: Instruction, body: string) {
    inst.ContextInst? && inst.file.Some? && body != ""
  }

  predicate SeenFrom(stmts: seq<Statement>) {
    exists i :: 0 <= i < |stmts| && stmts[i].inst.FromInst?
  }

  /** What a comment line does to the syntax. */
  function Comment(line: nat, trimmed: string, syntax: string): Result<string, ParseError> {
    if !HasPrefix(trimmed, SyntaxPragma) then Ok(syntax)
    else if line != 0 then Err(SyntaxNotFirst)
    else if trimmed[|SyntaxPragma|..] != DefaultSyntax then Err(UnsupportedSyntax)
    else Ok(trimmed[|SyntaxPragma|..])
  }

  /** The statement that starts at line pos, whose trimmed text is neither empty nor a comment. */
  function ReadStatement(lines: seq<string>, pos: nat, stmts: seq<Statement>, read: LineReader): Result<Statement, ParseError>
    requires pos < |lines|
  {
    var e := Extract(lines, pos + 1, TrimSpace(lines[pos]));
    if e.None? then Err(Unterminated)
    else
      var inst := read(pos, e.value.line, Fold(Insts(stmts)).args);
      if inst.None? then Err(BadTokens)
      else if inst.value.FromInst? && SeenFrom(stmts) then Err(SecondFrom)
      else if Clashes(inst.value, e.value.body) then Err(FileAndHeredoc)
      else Ok(Statement(Attach(inst.value, e.value.body), pos, e.value.next))
  }

  lemma StatementExtent(lines: seq<string>, pos: nat, stmts: seq<Statement>, read: LineReader)
    requires pos < |lines|
    ensures var r := ReadStatement(lines, pos, stmts, read);
            r.Ok? ==> r.value.start == pos < r.value.end <= |lines|
  {
  }

  /** Where the parser stands between instructions. */
  datatype Progress = Progress(script: Script, next: nat)

  /** One turn of the parser's loop, at line pos. */
  function Turn(src: Source, pos: nat, script: Script, read: LineReader): (r: Result<Progress, ParseError>)
    requires pos < |src.lines|
    ensures r.Ok? ==> pos < r.value.next <= |src.lines|
  {
    var trimmed := TrimSpace(src.lines[pos]);
    if pos == 0 && HasPrefix(src.lines[0], ByteOrderMark) then Err(StartsWithMark)
    else if trimmed == "" then Ok(Progress(script, pos + 1))
    else if HasPrefix(trimmed, "#") then
      var syntax := Comment(pos, trimmed, script.syntax);
      if syntax.Err? then Err(syntax.error) else Ok(Progress(script.(syntax := syntax.value), pos + 1))
    else
      var s := ReadStatement(src.lines, pos, script.stmts, read);
      if s.Err? then Err(s.error)
      else
        StatementExtent(src.lines, pos, script.stmts, read);
        Ok(Progress(script.(stmts := script.stmts + [s.value]), s.value.end))
  }

  function Scan(src: Source, pos: nat, script: Script, read: LineReader): Result<Script, ParseError>
    requires pos <= |src.lines|
    decreases |src.lines| - pos
  {
    if pos == |src.lines| then (if src.broken then Err(ReadFailed) else Ok(script))
    else
      var turn := Turn(src, pos, script, read);
      if turn.Err? then Err(turn.error) else Scan(src, turn.value.next, turn.value.script, read)
  }

  const EmptyScript := Script("", [])

  function ScanAll(src: Source, read: LineReader): Result<Script, ParseError> {
    Scan(src, 0, EmptyScript, read)
  }

  predicate StartsWithFrom(stmts: seq<Statement>) {
    stmts == [] || stmts[0].inst.FromInst?
  }

  function SyntaxOf(script: Script): string {
    if script.syntax == "" then DefaultSyntax else script.syntax
  }

  /** The verdict of a parse: the script's own error, a misplaced FROM, a validation fault, or the folded agent. */
  ghost predicate ParsesTo(src: Source, read: LineReader, r: Result<Agentfile, ParseError>) {
    var scanned := ScanAll(src, read);
    if scanned.Err? then r == Err(scanned.error)
    else if !StartsWithFrom(scanned.value.stmts) then r == Err(FromNotFirst)
    else
      var agent := Fold(Insts(scanned.value.stmts));
      if Valid(agent) then r == Ok(Agentfile(SyntaxOf(scanned.value), agent))
      else r.Err? && r.error.Invalid? && Offends(agent, r.error.part)
  }

  lemma InstsSnoc(stmts: seq<Statement>, s: Statement)
    ensures Insts(stmts + [s]) == Insts(stmts) + [s.inst]
    ensures Fold(Insts(stmts + [s])) == Apply(Fold(Insts(stmts)), s.inst)
  {
    assert Insts(stmts + [s])[..|stmts|] == Insts(stmts);
  }

  // ---------------------------------------------------------------------------------------
  // The parser object
  // ---------------------------------------------------------------------------------------

  class LineParser {
    const src: Source
    const read: LineReader
    var line: nat
    var syntax: string
    var firstInstruction: string
    var fromSeen: bool
    ghost var stmts: seq<Statement>

    constructor (src: Source, read: LineReader)
      ensures this.src == src && this.read == read
      ensures Consistent() && line == 0 && syntax == "" && stmts == []
    {
      this.src, this.read := src, read;
      line, syntax, firstInstruction, fromSeen := 0, "", "", false;
      stmts := [];
    }

    /** The parser's own bookkeeping agrees with the statements read so far. */
    ghost predicate Consistent()
      reads this
    {
      && line <= |src.lines|
      && (fromSeen <==> SeenFrom(stmts))
      && (firstInstruction == "" <==> stmts == [])
      && (stmts != [] ==> firstInstruction == Keyword(stmts[0].inst))
    }

    method Parse() returns (r: Result<Agentfile, ParseError>)
      requires Consistent() && line == 0 && syntax == "" && stmts == [] && Scanned(src.lines)
      modifies this
      ensures ParsesTo(src, read, r)
    {
      var agent := new MutableAgent();
      assert Insts([]) == [];
      while line < |src.lines|
        invariant Consistent() && fresh(agent)
        invariant agent.Value() == Fold(Insts(stmts))
        invariant Scan(src, line, Script(syntax, stmts), read) == ScanAll(src, read)
        decreases |src.lines| - line
      {
        var error := Advance(agent);
        if error.Some? { return Err(error.value); }
      }
      if src.broken { return Err(ReadFailed); }
      r := Finish(agent);
    }

    /** One turn of the loop: deal with the current line and whatever it consumes. */
    method Advance(agent: MutableAgent) returns (error: Option<ParseError>)
      requires Consistent() && Scanned(src.lines) && line < |src.lines|
      requires agent.Value() == Fold(Insts(stmts))
      modifies this, agent
      ensures var turn := Turn(src, old(line), Script(old(syntax), old(stmts)), read);
              if turn.Err? then error == Some(turn.error)
              else error.None? && turn.value == Progress(Script(syntax, stmts), line)
                   && Consistent() && agent.Value() == Fold(Insts(stmts))
    {
      if line == 0 && HasPrefix(src.lines[0], ByteOrderMark) { return Some(StartsWithMark); }
      var trimmed := TrimSpace(src.lines[line]);
      if trimmed == "" {
        line := line + 1;
      } else if HasPrefix(trimmed, "#") {
        var s := Comment(line, trimmed, syntax);
        if s.Err? { return Some(s.error); }
        syntax := s.value;
        line := line + 1;
      } else {
        error := Step(agent, trimmed);
        return;
      }
      error := None;
    }

    /** After the last line: FROM must have come first, and the agent must be valid. */
    method Finish(agent: MutableAgent) returns (r: Result<Agentfile, ParseError>)
      requires Consistent() && agent.Value() == Fold(Insts(stmts))
      requires ScanAll(src, read) == Ok(Script(syntax, stmts))
      modifies this`syntax
      ensures ParsesTo(src, read, r)
    {
      if firstInstruction != "" && firstInstruction != "FROM" { return Err(FromNotFirst); }
      KeywordFrom(stmts);
      if syntax == "" { syntax := DefaultSyntax; }
      var parsed := Snapshot(agent);
      var fault := Validate(parsed);
      if fault.Some? { return Err(Invalid(fault.value)); }
      return Ok(Agentfile(syntax, parsed));
    }

    /** One instruction line and its heredoc. */
    method Step(agent: MutableAgent, trimmed: string) returns (error: Option<ParseError>)
      requires Consistent() && Scanned(src.lines)
      requires line < |src.lines| && trimmed == TrimSpace(src.lines[line])
      requires agent.Value() == Fold(Insts(stmts))
      modifies this`line, this`firstInstruction, this`fromSeen, this`stmts, agent
      ensures var s := ReadStatement(src.lines, old(line), old(stmts), read);
              if s.Err? then error == Some(s.error)
              else error.None? && Consistent() && line == s.value.end > old(line) && stmts == old(stmts) + [s.value]
                   && agent.Value() == Fold(Insts(stmts))
    {
      var s := ReadOne(agent.args, trimmed);
      if s.Err? { return Some(s.error); }
      InstsSnoc(stmts, s.value);
      FromSnoc(stmts, s.value);
      StatementExtent(src.lines, line, stmts, read);
      agent.ApplyInstruction(s.value.inst);
      if firstInstruction == "" { firstInstruction := Keyword(s.value.inst); }
      if s.value.inst.FromInst? { fromSeen := true; }
      stmts := stmts + [s.value];
      line := s.value.end;
      return None;
    }

    /** Read, but do not yet apply, the statement at the current line. */
    method ReadOne(args: map<string, string>, trimmed: string) returns (s: Result<Statement, ParseError>)
      requires Consistent() && Scanned(src.lines)
      requires line < |src.lines| && trimmed == TrimSpace(src.lines[line])
      requires args == Fold(Insts(stmts)).args
      ensures s == ReadStatement(src.lines, line, stmts, read)
    {
      TrimSpaceTrims(src.lines[line]);
      var e := ExtractHeredoc(src.lines, line + 1, trimmed);
      if e.None? { return Err(Unterminated); }
      var inst := read(line, e.value.line, args);
      if inst.None? { return Err(BadTokens); }
      if inst.value.FromInst? && fromSeen { return Err(SecondFrom); }
      if Clashes(inst.value, e.value.body) { return Err(FileAndHeredoc); }
      return Ok(Statement(Attach(inst.value, e.value.body), line, e.value.next));
    }

    method Snapshot(agent: MutableAgent) returns (a: Agent)
      ensures a == agent.Value()
    {
      a := Agent(agent.from, agent.runtime, agent.model, agent.name, agent.contexts, agent.configs, agent.bins,
                 agent.adds, agent.exec, agent.labels, agent.args, agent.envs, agent.capabilities);
    }
  }

  lemma FromSnoc(stmts: seq<Statement>, s: Statement)
    ensures SeenFrom(stmts + [s]) <==> SeenFrom(stmts) || s.inst.FromInst?
  {
    var all := stmts + [s];
    if SeenFrom(stmts) {
      var i :| 0 <= i < |stmts| && stmts[i].inst.FromInst?;
      assert all[i].inst.FromInst?;
    }
    if s.inst.FromInst? { assert all[|stmts|].inst.FromInst?; }
  }

  lemma KeywordFrom(stmts: seq<Statement>)
    ensures StartsWithFrom(stmts) <==> stmts == [] || Keyword(stmts[0].inst) == "FROM"
  {
    if stmts != [] && !stmts[0].inst.FromInst? {
      var k := Keyword(stmts[0].inst);
      assert |k| != 4 || k[0] != 'F';
    }
  }

  // ---------------------------------------------------------------------------------------
  // What a successful parse has read
  // ---------------------------------------------------------------------------------------

  /** Line i carries nothing of its own. */
  predicate Idle(line: string) {
    TrimSpace(line) == "" || HasPrefix(TrimSpace(line), "#")
  }

  ghost predicate Covered(stmts: seq<Statement>, i: nat) {
    exists k :: 0 <= k < |stmts| && stmts[k].start <= i < stmts[k].end
  }

  /** Statements come in order, do not overlap, and account for every line before pos that is not idle. */
  ghost predicate Accounts(lines: seq<string>, pos: nat, stmts: seq<Statement>)
    requires pos <= |lines|
  {
    && (forall k :: 0 <= k < |stmts| ==> stmts[k].start < stmts[k].end <= pos)
    && (forall k, m :: 0 <= k < m < |stmts| ==> stmts[k].end <= stmts[m].start)
    && (forall i :: 0 <= i < pos ==> Covered(stmts, i) || Idle(lines[i]))
  }

  lemma AccountsIdle(lines: seq<string>, pos: nat, stmts: seq<Statement>)
    requires pos < |lines| && Accounts(lines, pos, stmts) && Idle(lines[pos])
    ensures Accounts(lines, pos + 1, stmts)
  {
  }

  lemma AccountsStatement(lines: seq<string>, pos: nat, stmts: seq<Statement>, s: Statement)
    requires pos <= |lines| && Accounts(lines, pos, stmts)
    requires s.start == pos < s.end <= |lines|
    ensures Accounts(lines, s.end, stmts + [s])
  {
    var all := stmts + [s];
    forall i | 0 <= i < s.end ensures Covered(all, i) || Idle(lines[i]) {
      if i < pos {
        if Covered(stmts, i) {
          var k :| 0 <= k < |stmts| && stmts[k].start <= i < stmts[k].end;
          assert all[k].start <= i < all[k].end;
        }
      } else {
        assert all[|stmts|].start <= i < all[|stmts|].end;
      }
    }
  }

  lemma TurnAccounts(src: Source, pos: nat, script: Script, read: LineReader)
    requires pos < |src.lines| && Accounts(src.lines, pos, script.stmts)
    requires Turn(src, pos, script, read).Ok?
    ensures var p := Turn(src, pos, script, read).value;
            Accounts(src.lines, p.next, p.script.stmts)
  {
    if Idle(src.lines[pos]) {
      AccountsIdle(src.lines, pos, script.stmts);
    } else {
      var s := ReadStatement(src.lines, pos, script.stmts, read).value;
      StatementExtent(src.lines, pos, script.stmts, read);
      AccountsStatement(src.lines, pos, script.stmts, s);
    }
  }

  /** At most one FROM, and only well-formed instructions. */
  ghost predicate Proper(stmts: seq<Statement>) {
    && (forall k, m :: 0 <= k < m < |stmts| ==> !(stmts[k].inst.FromInst? && stmts[m].inst.FromInst?))
    && (forall k :: 0 <= k < |stmts| ==> WellFormed(stmts[k].inst))
  }

  ghost predicate ReadsWellFormed(read: LineReader) {
    forall pos, line, args :: read(pos, line, args).Some? ==> WellFormed(read(pos, line, args).value)
  }

  lemma ReadProper(lines: seq<string>, pos: nat, stmts: seq<Statement>, read: LineReader)
    requires pos < |lines| && ReadsWellFormed(read) && Proper(stmts)
    requires ReadStatement(lines, pos, stmts, read).Ok?
    ensures Proper(stmts + [ReadStatement(lines, pos, stmts, read).value])
  {
  }

  lemma TurnProper(src: Source, pos: nat, script: Script, read: LineReader)
    requires pos < |src.lines| && ReadsWellFormed(read) && Proper(script.stmts)
    requires Turn(src, pos, script, read).Ok?
    ensures Proper(Turn(src, pos, script, read).value.script.stmts)
  {
    if !Idle(src.lines[pos]) { ReadProper(src.lines, pos, script.stmts, read); }
  }

  /** Each statement starts on a line that is not idle and is what that line reads as after the statements before it. */
  ghost predicate Derived(lines: seq<string>, stmts: seq<Statement>, read: LineReader) {
    forall k :: 0 <= k < |stmts| ==>
      && stmts[k].start < |lines| && !Idle(lines[stmts[k].start])
      && ReadStatement(lines, stmts[k].start, stmts[..k], read) == Ok(stmts[k])
  }

  predicate KnownSyntax(syntax: string) {
    syntax == "" || syntax == DefaultSyntax
  }

  lemma DerivedSnoc(lines: seq<string>, stmts: seq<Statement>, s: Statement, read: LineReader)
    requires Derived(lines, stmts, read)
    requires s.start < |lines| && !Idle(lines[s.start]) && ReadStatement(lines, s.start, stmts, read) == Ok(s)
    ensures Derived(lines, stmts + [s], read)
  {
    var all := stmts + [s];
    forall k | 0 <= k < |all|
      ensures all[k].start < |lines| && !Idle(lines[all[k].start])
           && ReadStatement(lines, all[k].start, all[..k], read) == Ok(all[k])
    {
      if k < |stmts| { assert all[..k] == stmts[..k]; } else { assert all[..k] == stmts; }
    }
  }

  lemma TurnDerived(src: Source, pos: nat, script: Script, read: LineReader)
    requires pos < |src.lines| && Derived(src.lines, script.stmts, read) && KnownSyntax(script.syntax)
    requires Turn(src, pos, script, read).Ok?
    ensures var p := Turn(src, pos, script, read).value.script;
            Derived(src.lines, p.stmts, read) && KnownSyntax(p.syntax)
  {
    if !Idle(src.lines[pos]) {
      var s := ReadStatement(src.lines, pos, script.stmts, read).value;
      StatementExtent(src.lines, pos, script.stmts, read);
      DerivedSnoc(src.lines, script.stmts, s, read);
    }
  }

  /** What holds at the start and is kept by every turn holds when the last line has been read. */
  lemma {:induction false} ScanKeeps(src: Source, pos: nat, script: Script, read: LineReader, inv: (nat, Script) -> bool)
    requires pos <= |src.lines| && inv(pos, script)
    requires forall p: nat, s :: p < |src.lines| && inv(p, s) && Turn(src, p, s, read).Ok? ==>
               inv(Turn(src, p, s, read).value.next, Turn(src, p, s, read).value.script)
    requires Scan(src, pos, script, read).Ok?
    ensures inv(|src.lines|, Scan(src, pos, script, read).value)
    decreases |src.lines| - pos
  {
    if pos < |src.lines| {
      var p := Turn(src, pos, script, read).value;
      ScanKeeps(src, p.next, p.script, read, inv);
    }
  }

  /** What every turn keeps of the script read so far. */
  ghost predicate Regular(src: Source, read: LineReader, pos: nat, script: Script) {
    && pos <= |src.lines| && Accounts(src.lines, pos, script.stmts)
    && Proper(script.stmts) && Derived(src.lines, script.stmts, read) && KnownSyntax(script.syntax)
  }

  lemma TurnRegular(src: Source, read: LineReader, pos: nat, script: Script)
    requires pos < |src.lines| && ReadsWellFormed(read) && Regular(src, read, pos, script)
    requires Turn(src, pos, script, read).Ok?
    ensures Regular(src, read, Turn(src, pos, script, read).value.next, Turn(src, pos, script, read).value.script)
  {
    TurnAccounts(src, pos, script, read);
    TurnProper(src, pos, script, read);
    TurnDerived(src, pos, script, read);
  }

  lemma ScanRegular(src: Source, read: LineReader)
    requires ReadsWellFormed(read) && ScanAll(src, read).Ok?
    ensures Regular(src, read, |src.lines|, ScanAll(src, read).value)
  {
    var inv := (p: nat, s: Script) => Regular(src, read, p, s);
    forall p: nat, s | p < |src.lines| && inv(p, s) && Turn(src, p, s, read).Ok?
      ensures inv(Turn(src, p, s, read).value.next, Turn(src, p, s, read).value.script)
    {
      TurnRegular(src, read, p, s);
    }
    ScanKeeps(src, 0, EmptyScript, read, inv);
  }

  /** Where the statement after the first k would start looking. */
  function EndOf(stmts: seq<Statement>, k: nat): nat
    requires k <= |stmts|
  {
    if k == 0 then 0 else stmts[k - 1].end
  }

  /** Lines from the end of the first k statements to the start of the next are idle. */
  lemma GapIsIdle(lines: seq<string>, stmts: seq<Statement>, k: nat, i: nat)
    requires Accounts(lines, |lines|, stmts) && k <= |stmts|
    requires EndOf(stmts, k) <= i < (if k < |stmts| then stmts[k].start else |lines|)
    requires i < |lines|
    ensures Idle(lines[i])
  {
    forall m | 0 <= m < |stmts| ensures !(stmts[m].start <= i < stmts[m].end) {
      if m < k { assert stmts[m].end <= EndOf(stmts, k); } else { assert stmts[k].start <= stmts[m].start; }
    }
  }

  /** Statements start on lines that are not idle. */
  ghost predicate StartsProperly(lines: seq<string>, stmts: seq<Statement>) {
    forall k :: 0 <= k < |stmts| ==> stmts[k].start < |lines| && !Idle(lines[stmts[k].start])
  }

  /** Two scripts of the same lines that agree so far do not start their next statements on different lines. */
  lemma SameStart(lines: seq<string>, a: seq<Statement>, b: seq<Statement>, k: nat)
    requires Accounts(lines, |lines|, a) && Accounts(lines, |lines|, b)
    requires StartsProperly(lines, a) && k < |a| && k <= |b| && EndOf(a, k) == EndOf(b, k)
    ensures k < |b| && b[k].start <= a[k].start
  {
    var i := a[k].start;
    assert EndOf(a, k) <= i && !Idle(lines[i]);
    if k == |b| || i < b[k].start { GapIsIdle(lines, b, k, i); }
  }

  lemma NextStart(lines: seq<string>, a: seq<Statement>, b: seq<Statement>, k: nat)
    requires Accounts(lines, |lines|, a) && Accounts(lines, |lines|, b)
    requires StartsProperly(lines, a) && StartsProperly(lines, b)
    requires k < |a| && k <= |b| && a[..k] == b[..k]
    ensures k < |b| && a[k].start == b[k].start
  {
    if k > 0 { assert a[k - 1] == a[..k][k - 1] == b[..k][k - 1] == b[k - 1]; }
    SameStart(lines, a, b, k);
    SameStart(lines, b, a, k);
  }

  ghost predicate Extends<T>(a: seq<T>, b: seq<T>, k: nat) {
    k < |a| && k <= |b| && a[..k] == b[..k] ==> k < |b| && a[k] == b[k]
  }

  lemma {:induction false} EqualByPrefixes<T>(a: seq<T>, b: seq<T>, k: nat)
    requires forall m: nat :: m < k ==> Extends(a, b, m)
    requires k <= |a|
    ensures k <= |b| && a[..k] == b[..k]
  {
    if k > 0 {
      EqualByPrefixes(a, b, k - 1);
      assert Extends(a, b, k - 1);
      assert a[..k] == a[..k - 1] + [a[k - 1]] && b[..k] == b[..k - 1] + [b[k - 1]];
    }
  }

  lemma ScriptContains(lines: seq<string>, a: seq<Statement>, b: seq<Statement>, read: LineReader)
    requires Accounts(lines, |lines|, a) && Accounts(lines, |lines|, b)
    requires Derived(lines, a, read) && Derived(lines, b, read)
    ensures |a| <= |b| && a == b[..|a|]
  {
    forall k: nat | k < |a| ensures Extends(a, b, k) {
      if k <= |b| && a[..k] == b[..k] {
        NextStart(lines, a, b, k);
        assert ReadStatement(lines, a[k].start, a[..k], read) == Ok(a[k]);
        assert ReadStatement(lines, b[k].start, b[..k], read) == Ok(b[k]);
      }
    }
    EqualByPrefixes(a, b, |a|);
    assert a[..|a|] == a;
  }

  /** The source and the reader determine the script: there is only one that accounts for every line. */
  lemma ScriptDetermined(lines: seq<string>, a: seq<Statement>, b: seq<Statement>, read: LineReader)
    requires Accounts(lines, |lines|, a) && Accounts(lines, |lines|, b)
    requires Derived(lines, a, read) && Derived(lines, b, read)
    ensures a == b
  {
    ScriptContains(lines, a, b, read);
    ScriptContains(lines, b, a, read);
  }

  /**
   A successful parse is the fold of a script whose first instruction, and no other, is a FROM; every
   line of the source is blank, a comment, or belongs to exactly one instruction; each instruction is
   read from its own line and body under the ARGs before it; and the syntax is the supported one.
   */
  lemma ParseIsFold(src: Source, read: LineReader, r: Result<Agentfile, ParseError>)
    requires ReadsWellFormed(read)
    requires ParsesTo(src, read, r) && r.Ok?
    ensures ScanAll(src, read).Ok?
    ensures var stmts := ScanAll(src, read).value.stmts;
            && r.value.agent == Fold(Insts(stmts)) && Valid(r.value.agent)
            && AllWellFormed(Insts(stmts)) && HasFrom(Insts(stmts))
            && (forall k :: 0 <= k < |stmts| ==> (stmts[k].inst.FromInst? <==> k == 0))
            && Accounts(src.lines, |src.lines|, stmts)
            && Derived(src.lines, stmts, read)
    ensures r.value.syntax == DefaultSyntax
    ensures forall stmts :: Accounts(src.lines, |src.lines|, stmts) && Derived(src.lines, stmts, read) ==>
              stmts == ScanAll(src, read).value.stmts
  {
    ScanRegular(src, read);
    var stmts := ScanAll(src, read).value.stmts;
    FoldFrom(Insts(stmts));
    var i :| 0 <= i < |Insts(stmts)| && Insts(stmts)[i].FromInst?;
    assert stmts[0].inst.FromInst?;
    forall other | Accounts(src.lines, |src.lines|, other) && Derived(src.lines, other, read) ensures other == stmts {
      ScriptDetermined(src.lines, other, stmts, read);
    }
  }

  // ---------------------------------------------------------------------------------------
  // Map order does not show
  // ---------------------------------------------------------------------------------------

  /** Every expansion is one that visiting the ARGs in some order may produce. */
  ghost predicate Faithful(expand: Expander) {
    forall pos, line, args :: Expands(line, args, expand(pos, line, args))
  }

  /** The instruction text at pos is a plain template and the ARGs in force there are plain. */
  ghost predicate PlainAt(lines: seq<string>, pos: nat, stmts: seq<Statement>)
    requires pos < |lines|
  {
    var e := Extract(lines, pos + 1, TrimSpace(lines[pos]));
    e.Some? ==> PlainLine(e.value.line) && PlainArgs(Fold(Insts(stmts)).args)
  }

  /** The scan meets only plain instruction lines, under plain ARGs. */
  ghost predicate PlainScan(src: Source, pos: nat, script: Script, read: LineReader)
    requires pos <= |src.lines|
    decreases |src.lines| - pos
  {
    pos < |src.lines| ==>
      && (!Idle(src.lines[pos]) ==> PlainAt(src.lines, pos, script.stmts))
      && var turn := Turn(src, pos, script, read);
         turn.Ok? ==> PlainScan(src, turn.value.next, turn.value.script, read)
  }

  lemma TurnOrderIndependent(src: Source, pos: nat, script: Script, e1: Expander, e2: Expander, lex: Lexer)
    requires pos < |src.lines| && Faithful(e1) && Faithful(e2)
    requires !Idle(src.lines[pos]) ==> PlainAt(src.lines, pos, script.stmts)
    ensures Turn(src, pos, script, ExpandThenLex(e1, lex)) == Turn(src, pos, script, ExpandThenLex(e2, lex))
  {
    if !Idle(src.lines[pos]) {
      var e := Extract(src.lines, pos + 1, TrimSpace(src.lines[pos]));
      if e.Some? {
        var args := Fold(Insts(script.stmts)).args;
        ExpansionUnique(e.value.line, args, e1(pos, e.value.line, args), e2(pos, e.value.line, args));
      }
    }
  }

  lemma {:induction false} ScanOrderIndependent(src: Source, pos: nat, script: Script, e1: Expander, e2: Expander, lex: Lexer)
    requires pos <= |src.lines| && Faithful(e1) && Faithful(e2)
    requires PlainScan(src, pos, script, ExpandThenLex(e1, lex))
    ensures Scan(src, pos, script, ExpandThenLex(e1, lex)) == Scan(src, pos, script, ExpandThenLex(e2, lex))
    decreases |src.lines| - pos
  {
    if pos < |src.lines| {
      TurnOrderIndependent(src, pos, script, e1, e2, lex);
      var turn := Turn(src, pos, script, ExpandThenLex(e1, lex));
      if turn.Ok? { ScanOrderIndependent(src, turn.value.next, turn.value.script, e1, e2, lex); }
    }
  }

  /**
   However each line's expansion happens to visit the ARGs, a source whose instruction lines are plain
   templates under plain ARGs parses to the same script, hence to the same agent or the same error.
   */
  lemma ParseOrderIndependent(src: Source, e1: Expander, e2: Expander, lex: Lexer)
    requires Faithful(e1) && Faithful(e2)
    requires PlainScan(src, 0, EmptyScript, ExpandThenLex(e1, lex))
    ensures ScanAll(src, ExpandThenLex(e1, lex)) == ScanAll(src, ExpandThenLex(e2, lex))
    ensures forall r :: ParsesTo(src, ExpandThenLex(e1, lex), r) <==> ParsesTo(src, ExpandThenLex(e2, lex), r)
  {
    ScanOrderIndependent(src, 0, EmptyScript, e1, e2, lex);
  }

  /** Two files that parse: their merge is valid and is the fold of both scripts run together. */
  lemma ParsedInheritance(parent: Source, child: Source, read: LineReader,
                          p: Result<Agentfile, ParseError>, c: Result<Agentfile, ParseError>)
    requires ReadsWellFormed(read)
    requires ParsesTo(parent, read, p) && p.Ok?
    requires ParsesTo(child, read, c) && c.Ok?
    ensures ScanAll(parent, read).Ok? && ScanAll(child, read).Ok?
    ensures MergeAgent(p.value.agent, c.value.agent) ==
            Fold(Insts(ScanAll(parent, read).value.stmts) + Insts(ScanAll(child, read).value.stmts))
    ensures Valid(MergeAgent(p.value.agent, c.value.agent))
  {
    ParseIsFold(parent, read, p);
    ParseIsFold(child, read, c);
    InheritanceIsConcatenation(Insts(ScanAll(parent, read).value.stmts), Insts(ScanAll(child, read).value.stmts));
    MergePreservesValid(p.value.agent, c.value.agent);
  }
}
