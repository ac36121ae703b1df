/**
 The parsed Agentfile (spec/types.go), its instructions (spec/grammar.go) and the two
 separately written ways of combining declarations: the parser's in-file fold
 (applyInstruction in spec/parse.go) and the resolver's parent/child merge (resolve/resolve.go).
 */
module AgentSpec {
  import opened Prelude

  datatype ConfigValue = NoValue | BoolValue(b: bool) | IntValue(i: int) | FloatValue(r: real) | StringValue(s: string)

  datatype Context = Context(name: string, description: string, content: string, file: string)
  datatype Config = Config(key: string, value: ConfigValue, description: string, required: bool)
  datatype Bin = Bin(name: string, image: string, description: string, usage: string)
  datatype Add = Add(src: string, name: string, description: string)
  datatype Env = Env(key: string, value: string, description: string)

  datatype Agent = Agent(
    from: string,
    runtime: string,
    model: string,
    name: string,
    contexts: seq<Context>,
    configs: seq<Config>,
    bins: seq<Bin>,
    adds: seq<Add>,
    exec: seq<string>,
    labels: map<string, string>,
    args: map<string, string>,
    envs: seq<Env>,
    capabilities: seq<string>)

  datatype Agentfile = Agentfile(syntax: string, agent: Agent)

  const NewAgent := Agent("", "", "", "", [], [], [], [], [], map[], map[], [], [])

  /** One tokenised line together with the heredoc body that followed it ("" when there was none). */
  datatype Instruction =
    | FromInst(ref: string)
    | RuntimeInst(ref: string)
    | ModelInst(ref: string)
    | NameInst(ref: string)
    | ContextInst(name: string, desc: Option<string>, file: Option<string>, heredoc: string)
    | ConfigInst(key: string, required: bool, value: Option<ConfigValue>, quoted: Option<string>, desc: Option<string>)
    | BinInst(name: string, image: string, desc: Option<string>, heredoc: string)
    | AddInst(src: string, dest: Option<string>, desc: Option<string>)
    | LabelInst(key: string, val: string)
    | ExecInst(argv: seq<string>)
    | ArgInst(key: string, default: Option<string>)
    | EnvInst(key: string, val: string, desc: Option<string>)
    | CapabilityInst(names: seq<string>)

  /** What the grammar guarantees of a token stream: identifiers and the EXEC list are never empty. */
  predicate WellFormed(inst: Instruction) {
    match inst
    case FromInst(ref) => ref != ""
    case RuntimeInst(ref) => ref != ""
    case ModelInst(ref) => ref != ""
    case NameInst(ref) => ref != ""
    case ExecInst(argv) => argv != []
    case _ => true
  }

  ghost predicate AllWellFormed(insts: seq<Instruction>) {
    forall i :: 0 <= i < |insts| ==> WellFormed(insts[i])
  }

  // ---------------------------------------------------------------------------------------
  // In-file duplicates: applyInstruction
  // ---------------------------------------------------------------------------------------

  /** Replace the FIRST context of the same name in place, or append: the parser's loop. */
  function ReplaceFirst(cs: seq<Context>, c: Context): seq<Context> {
    if cs == [] then [c]
    else if cs[0].name == c.name then [c] + cs[1..]
    else [cs[0]] + ReplaceFirst(cs[1..], c)
  }

  /** Append a capability unless it is empty or already granted. */
  function AddCapability(caps: seq<string>, name: string): seq<string> {
    if name == "" || name in caps then caps else caps + [name]
  }

  function AddCapabilities(caps: seq<string>, names: seq<string>): seq<string>
    decreases names
  {
    if names == [] then caps else AddCapabilities(AddCapability(caps, names[0]), names[1..])
  }

  function ContextOf(inst: Instruction): Context
    requires inst.ContextInst?
  {
    Context(inst.name, inst.desc.GetOr(""), inst.heredoc, inst.file.GetOr(""))
  }

  function ConfigOf(inst: Instruction): Config
    requires inst.ConfigInst?
  {
    Config(inst.key,
           if inst.quoted.Some? then StringValue(inst.quoted.value) else inst.value.GetOr(NoValue),
           inst.desc.GetOr(""), inst.required)
  }

  function BinOf(inst: Instruction): Bin
    requires inst.BinInst?
  {
    Bin(inst.name, inst.image, inst.desc.GetOr(""), inst.heredoc)
  }

  function AddOf(inst: Instruction): Add
    requires inst.AddInst?
  {
    Add(inst.src, if inst.dest.Some? then inst.dest.value else BaseName(inst.src), inst.desc.GetOr(""))
  }

  function EnvOf(inst: Instruction): Env
    requires inst.EnvInst?
  {
    Env(inst.key, inst.val, inst.desc.GetOr(""))
  }

  function Apply(a: Agent, inst: Instruction): Agent {
    match inst
    case FromInst(ref) => a.(from := ref)
    case RuntimeInst(ref) => a.(runtime := ref, configs := [])
    case ModelInst(ref) => a.(model := ref)
    case NameInst(ref) => a.(name := ref)
    case ContextInst(_, _, _, _) => a.(contexts := ReplaceFirst(a.contexts, ContextOf(inst)))
    case ConfigInst(_, _, _, _, _) => a.(configs := a.configs + [ConfigOf(inst)])
    case BinInst(_, _, _, _) => a.(bins := a.bins + [BinOf(inst)])
    case AddInst(_, _, _) => a.(adds := a.adds + [AddOf(inst)])
    case LabelInst(key, val) => a.(labels := a.labels[key := val])
    case ExecInst(argv) => a.(exec := argv)
    case ArgInst(key, default) => if default.Some? then a.(args := a.args[key := default.value]) else a
    case EnvInst(_, _, _) => a.(envs := a.envs + [EnvOf(inst)])
    case CapabilityInst(names) => a.(capabilities := AddCapabilities(a.capabilities, names))
  }

  /** The agent the parser holds after reading `insts` in order. */
  function Fold(insts: seq<Instruction>): Agent {
    if insts == [] then NewAgent
    else Apply(Fold(insts[..|insts| - 1]), insts[|insts| - 1])
  }

  // ---------------------------------------------------------------------------------------
  // FROM inheritance: mergeAgent
  // ---------------------------------------------------------------------------------------

  /** Index of the last context called `name` among the first n, or -1. */
  function LastNamedBelow(cs: seq<Context>, name: string, n: nat): (i: int)
    requires n <= |cs|
    ensures -1 <= i < n
    ensures i >= 0 ==> cs[i].name == name
    ensures forall j :: i < j < n ==> cs[j].name != name
  {
    if n == 0 then -1 else if cs[n - 1].name == name then n - 1 else LastNamedBelow(cs, name, n - 1)
  }

  /** Index of the last context called `name`, or -1: what the resolver's byName index holds. */
  function LastNamed(cs: seq<Context>, name: string): (i: int)
    ensures -1 <= i < |cs|
    ensures i >= 0 ==> cs[i].name == name
    ensures forall j :: i < j < |cs| ==> cs[j].name != name
  {
    LastNamedBelow(cs, name, |cs|)
  }

  /** Replace the LAST context of the same name, or append: the resolver's keyed overwrite. */
  function Upsert(cs: seq<Context>, c: Context): seq<Context> {
    var i := LastNamed(cs, c.name);
    if i >= 0 then cs[i := c] else cs + [c]
  }

  function MergeContexts(parent: seq<Context>, child: seq<Context>): seq<Context> {
    if child == [] then parent
    else Upsert(MergeContexts(parent, child[..|child| - 1]), child[|child| - 1])
  }

  /** Order of first appearance, duplicates dropped. */
  function Dedup(s: seq<string>): seq<string> {
    if s == [] then []
    else
      var rest := Dedup(s[..|s| - 1]);
      if s[|s| - 1] in rest then rest else rest + [s[|s| - 1]]
  }

  function MergeAgent(parent: Agent, child: Agent): Agent {
    Agent(
      child.from,
      if child.runtime != "" then child.runtime else parent.runtime,
      if child.model != "" then child.model else parent.model,
      if child.name != "" then child.name else parent.name,
      MergeContexts(parent.contexts, child.contexts),
      if child.runtime != "" then child.configs else parent.configs + child.configs,
      parent.bins + child.bins,
      parent.adds + child.adds,
      if child.exec != [] then child.exec else parent.exec,
      parent.labels + child.labels,
      parent.args + child.args,
      parent.envs + child.envs,
      Dedup(parent.capabilities + child.capabilities))
  }
}
