/**
 Resolution of files that were parsed: what a successful Resolve returns is the parse of all the
 ancestors' instructions, root first, run together.
 */
module ResolvedParse {
  import opened Prelude
  import opened AgentSpec
  import opened Inheritance
  import opened Parser
  import opened Resolve
  import opened Validation

  /** af is what some source parses to. Each file may have been read with expansions of its own. */
  ghost predicate IsParsed(af: Agentfile) {
    exists src, read :: ReadsWellFormed(read) && ParsesTo(src, read, Ok(af))
  }

  /** insts is a script whose fold is the file's agent, headed by its FROM. */
  ghost predicate ScriptOf(af: Agentfile, insts: seq<Instruction>) {
    af.agent == Fold(insts) && AllWellFormed(insts) && HasFrom(insts)
  }

  lemma ParseGives(src: Source, read: LineReader, af: Agentfile)
    requires ReadsWellFormed(read) && ParsesTo(src, read, Ok(af))
    ensures HasScript(af) && Sound(af)
  {
    ParseIsFold(src, read, Ok(af));
    assert ScriptOf(af, Insts(ScanAll(src, read).value.stmts));
  }

  /** The file and everything the registry serves were parsed. */
  ghost predicate ServesParsed(af: Agentfile, reg: Registry) {
    IsParsed(af) && forall from :: reg.pull(from).Some? ==> IsParsed(reg.pull(from).value)
  }

  /** What holds of the file and of everything served holds of the whole lineage. */
  lemma {:induction false} LineageAll(af: Agentfile, reg: Registry, k: nat, good: Agentfile -> bool)
    requires good(af) && forall from :: reg.pull(from).Some? ==> good(reg.pull(from).value)
    requires Ancestor(af, reg, k).Some?
    ensures forall i :: 0 <= i <= k ==> good(Lineage(af, reg, k)[i])
    decreases k
  {
    if k > 0 {
      var p := Parent(af, reg).value;
      LineageAll(p, reg, k - 1, good);
      assert forall i :: 1 <= i <= k ==> Lineage(af, reg, k)[i] == Lineage(p, reg, k - 1)[i - 1];
    }
  }

  ghost predicate HasScript(af: Agentfile) {
    exists insts :: ScriptOf(af, insts)
  }

  lemma {:induction false} Scripts(line: seq<Agentfile>) returns (scripts: seq<seq<Instruction>>)
    requires forall i :: 0 <= i < |line| ==> HasScript(line[i])
    ensures |scripts| == |line| && forall i :: 0 <= i < |line| ==> ScriptOf(line[i], scripts[i])
  {
    if line == [] {
      scripts := [];
    } else {
      var first :| ScriptOf(line[0], first);
      var rest := Scripts(line[1..]);
      scripts := [first] + rest;
      assert forall i :: 1 <= i < |line| ==> line[i] == line[1..][i - 1] && scripts[i] == rest[i - 1];
    }
  }

  ghost predicate Sound(af: Agentfile) {
    Valid(af.agent) && af.syntax == DefaultSyntax
  }

  lemma MergeSound(parent: Agentfile, child: Agentfile)
    requires Sound(parent) && Sound(child)
    ensures Sound(Merge(parent, child))
  {
    MergePreservesValid(parent.agent, child.agent);
  }

  lemma ParsedHasScript(af: Agentfile)
    requires IsParsed(af)
    ensures HasScript(af) && Sound(af)
  {
    var src, read :| ReadsWellFormed(read) && ParsesTo(src, read, Ok(af));
    ParseGives(src, read, af);
  }

  lemma {:induction false} MergedSound(line: seq<Agentfile>)
    requires line != [] && forall i :: 0 <= i < |line| ==> Sound(line[i])
    ensures Sound(MergeDown(line))
  {
    if |line| > 1 {
      forall i | 0 <= i < |line[1..]| ensures Sound(line[1..][i]) { assert Sound(line[i + 1]); }
      MergedSound(line[1..]);
      MergeSound(MergeDown(line[1..]), line[0]);
    }
  }

  /** line is what these scripts parse to, and v the parse of all of them, root first, run together. */
  ghost predicate RunTogether(line: seq<Agentfile>, v: Agentfile) {
    exists scripts :: ParsedFrom(line, scripts) && v.agent == Fold(RootToChild(scripts))
  }

  lemma MergedRunsTogether(line: seq<Agentfile>)
    requires line != [] && forall i :: 0 <= i < |line| ==> HasScript(line[i])
    ensures RunTogether(line, MergeDown(line))
  {
    var scripts := Scripts(line);
    ResolvedIsConcatenation(line, scripts);
  }

  /** v is the parse of scripts of the file and its first n ancestors, root first, run together. */
  ghost predicate IsParseOf(v: Agentfile, af: Agentfile, reg: Registry, n: nat) {
    Ancestor(af, reg, n).Some? && Sound(v) && RunTogether(Lineage(af, reg, n), v)
  }

  lemma ServesSound(af: Agentfile, reg: Registry)
    requires ServesParsed(af, reg)
    ensures HasScript(af) && Sound(af)
    ensures forall from :: reg.pull(from).Some? ==> HasScript(reg.pull(from).value) && Sound(reg.pull(from).value)
  {
    ParsedHasScript(af);
    forall from | reg.pull(from).Some? ensures HasScript(reg.pull(from).value) && Sound(reg.pull(from).value) {
      ParsedHasScript(reg.pull(from).value);
    }
  }

  lemma MergedIsParse(af: Agentfile, reg: Registry, n: nat, v: Agentfile)
    requires ServesParsed(af, reg) && MergedTo(af, reg, n, v)
    ensures IsParseOf(v, af, reg, n)
  {
    ServesSound(af, reg);
    LineageAll(af, reg, n, HasScript);
    LineageAll(af, reg, n, Sound);
    var line := Lineage(af, reg, n);
    MergedSound(line);
    MergedRunsTogether(line);
  }

  /**
   If the file and every file fetched were parsed, then a successful resolution walked up to a root,
   and its agent is the parse of the scripts of the whole lineage, root's first and the file's own
   last, run together; it is valid, and of the supported syntax.
   */
  lemma ResolvedIsParse(af: Agentfile, reg: Registry)
    requires ResolveDepth(af, reg, 0, []).result.Ok?
    ensures var o := ResolveDepth(af, reg, 0, []);
            RootAt(af, reg, |o.fetches|) && (ServesParsed(af, reg) ==> IsParseOf(o.result.value, af, reg, |o.fetches|))
  {
    var o := ResolveDepth(af, reg, 0, []);
    ResolveSound(af, reg, 0, []);
    SuccessIsMerge(af, reg, 0, []);
    if ServesParsed(af, reg) { MergedIsParse(af, reg, |o.fetches|, o.result.value); }
  }
}
