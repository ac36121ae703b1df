/**
 The in-place forms: the parser's mutable Agent, updated line by line (applyInstruction), and the
 resolver's map-indexed accumulation loops (mergeContexts, mergeStringSet). Each is proved to
 compute the value-level function of AgentSpec that the inheritance theorems are about.
 */
module AgentMutation {
  import opened Prelude
  import opened AgentSpec
  import opened Inheritance

  class MutableAgent {
    var from: string
    var runtime: string
    var model: string
    var name: string
    var contexts: seq<Context>
    var configs: seq<Config>
    var bins: seq<Bin>
    var adds: seq<Add>
    var exec: seq<string>
    var labels: map<string, string>
    var args: map<string, string>
    var envs: seq<Env>
    var capabilities: seq<string>

    ghost function Value(): Agent
      reads this
    {
      Agent(from, runtime, model, name, contexts, configs, bins, adds, exec, labels, args, envs, capabilities)
    }

    constructor ()
      ensures Value() == NewAgent
    {
      from, runtime, model, name := "", "", "", "";
      contexts, configs, bins, adds, exec := [], [], [], [], [];
      labels, args := map[], map[];
      envs, capabilities := [], [];
    }

    /** The directive switch: one line changes the agent exactly as `Apply` says. */
    method ApplyInstruction(inst: Instruction)
      modifies this
      ensures Value() == Apply(old(Value()), inst)
    {
      if Scalar(inst) {
        ApplyScalar(inst);
      } else if inst.ConfigInst? || inst.BinInst? || inst.AddInst? || inst.EnvInst? {
        ApplyAppend(inst);
      } else {
        ApplyKeyed(inst);
      }
    }

    /** Its replace cases; RUNTIME also drops the CONFIGs read so far. */
    method ApplyScalar(inst: Instruction)
      requires Scalar(inst)
      modifies this
      ensures Value() == Apply(old(Value()), inst)
    {
      match inst
      case FromInst(ref) => from := ref;
      case RuntimeInst(ref) => runtime := ref; configs := [];
      case ModelInst(ref) => model := ref;
      case NameInst(ref) => name := ref;
      case ExecInst(argv) => exec := argv;
    }

    /** Its append cases. */
    method ApplyAppend(inst: Instruction)
      requires inst.ConfigInst? || inst.BinInst? || inst.AddInst? || inst.EnvInst?
      modifies this
      ensures Value() == Apply(old(Value()), inst)
    {
      match inst
      case ConfigInst(key, required, value, quoted, desc) =>
        var cfg := Config(key, NoValue, "", required);
        if quoted.Some? {
          cfg := cfg.(value := StringValue(quoted.value));
        } else if value.Some? {
          cfg := cfg.(value := value.value);
        }
        if desc.Some? { cfg := cfg.(description := desc.value); }
        configs := configs + [cfg];
      case BinInst(binName, image, desc, heredoc) =>
        var bin := Bin(binName, image, "", heredoc);
        if desc.Some? { bin := bin.(description := desc.value); }
        bins := bins + [bin];
      case AddInst(src, dest, desc) =>
        var add := Add(src, "", "");
        add := add.(name := if dest.Some? then dest.value else BaseName(src));
        if desc.Some? { add := add.(description := desc.value); }
        adds := adds + [add];
      case EnvInst(key, val, desc) =>
        var e := Env(key, val, "");
        if desc.Some? { e := e.(description := desc.value); }
        envs := envs + [e];
    }

    /** Its keyed-merge and set-union cases. */
    method ApplyKeyed(inst: Instruction)
      requires inst.ContextInst? || inst.LabelInst? || inst.ArgInst? || inst.CapabilityInst?
      modifies this
      ensures Value() == Apply(old(Value()), inst)
    {
      match inst
      case ContextInst(ctxName, desc, file, heredoc) =>
        var ctx := Context(ctxName, "", heredoc, "");
        if desc.Some? { ctx := ctx.(description := desc.value); }
        if file.Some? { ctx := ctx.(file := file.value); }
        PutContext(ctx);
      case LabelInst(key, val) => labels := labels[key := val];
      case ArgInst(key, default) => if default.Some? { args := args[key := default.value]; }
      case CapabilityInst(names) => Grant(names);
    }

    /** Overwrite the first context of that name, or append. */
    method PutContext(c: Context)
      modifies this`contexts
      ensures contexts == ReplaceFirst(old(contexts), c)
    {
      for i := 0 to |contexts|
        invariant contexts == old(contexts)
        invariant forall j :: 0 <= j < i ==> contexts[j].name != c.name
      {
        if contexts[i].name == c.name {
          ReplaceFirstAt(contexts, c, i);
          contexts := contexts[i := c];
          return;
        }
      }
      ReplaceFirstAbsent(contexts, c);
      contexts := contexts + [c];
    }

    /** Add each non-empty name not granted yet. */
    method Grant(names: seq<string>)
      modifies this`capabilities
      ensures capabilities == AddCapabilities(old(capabilities), names)
    {
      for i := 0 to |names|
        invariant AddCapabilities(old(capabilities), names) == AddCapabilities(capabilities, names[i..])
      {
        assert names[i..][1..] == names[i + 1..];
        if names[i] != "" {
          var already := false;
          for j := 0 to |capabilities|
            invariant already <==> names[i] in capabilities[..j]
          {
            if capabilities[j] == names[i] {
              already := true;
              assert names[i] in capabilities[..j + 1];
              break;
            }
          }
          if !already {
            capabilities := capabilities + [names[i]];
          }
        }
      }
    }
  }

  /** Read a whole instruction sequence into a fresh agent. */
  method Replay(insts: seq<Instruction>) returns (a: MutableAgent)
    ensures fresh(a)
    ensures a.Value() == Fold(insts)
    ensures Normal(a.Value())
  {
    a := new MutableAgent();
    for i := 0 to |insts|
      invariant fresh(a)
      invariant a.Value() == Fold(insts[..i])
    {
      a.ApplyInstruction(insts[i]);
      assert insts[..i + 1][..i] == insts[..i];
    }
    assert insts[..|insts|] == insts;
    FoldNormal(insts);
  }

  /** What the resolver's byName map must say about the accumulated slice. */
  ghost predicate Indexes(byName: map<string, int>, cs: seq<Context>) {
    forall n :: (n in byName <==> LastNamed(cs, n) >= 0) && (n in byName ==> byName[n] == LastNamed(cs, n))
  }

  lemma IndexesAppend(byName: map<string, int>, cs: seq<Context>, c: Context)
    requires Indexes(byName, cs)
    ensures Indexes(byName[c.name := |cs|], cs + [c])
  {
    forall n ensures LastNamed(cs + [c], n) == if n == c.name then |cs| else LastNamed(cs, n) {
      LastNamedIs(cs + [c], n, if n == c.name then |cs| else LastNamed(cs, n));
    }
  }

  lemma IndexesOverwrite(byName: map<string, int>, cs: seq<Context>, c: Context)
    requires Indexes(byName, cs)
    requires c.name in byName
    ensures Indexes(byName, cs[byName[c.name] := c])
  {
    forall n ensures LastNamed(cs[byName[c.name] := c], n) == LastNamed(cs, n) {
      LastNamedIs(cs[byName[c.name] := c], n, LastNamed(cs, n));
    }
  }

  method MergeContextLists(parent: seq<Context>, child: seq<Context>) returns (result: seq<Context>)
    ensures result == MergeContexts(parent, child)
  {
    var byName: map<string, int> := map[];
    result := [];
    for i := 0 to |parent|
      invariant result == parent[..i]
      invariant Indexes(byName, result)
    {
      IndexesAppend(byName, result, parent[i]);
      byName := byName[parent[i].name := |result|];
      result := result + [parent[i]];
    }
    for i := 0 to |child|
      invariant result == MergeContexts(parent, child[..i])
      invariant Indexes(byName, result)
    {
      var c := child[i];
      assert child[..i + 1][..i] == child[..i];
      if c.name in byName {
        IndexesOverwrite(byName, result, c);
        result := result[byName[c.name] := c];
      } else {
        IndexesAppend(byName, result, c);
        byName := byName[c.name := |result|];
        result := result + [c];
      }
    }
    assert child[..|child|] == child;
  }

  method MergeStringSet(parent: seq<string>, child: seq<string>) returns (out: seq<string>)
    ensures out == Dedup(parent + child)
    ensures NoDuplicates(out) && forall x :: x in out <==> x in parent || x in child
  {
    var seen: set<string> := {};
    out := [];
    for i := 0 to |parent|
      invariant out == Dedup(parent[..i])
      invariant forall x :: x in seen <==> x in out
    {
      assert parent[..i + 1] == parent[..i] + [parent[i]];
      DedupSnoc(parent[..i], parent[i]);
      DedupProperties(parent[..i]);
      if parent[i] !in seen {
        seen := seen + {parent[i]};
        out := out + [parent[i]];
      }
    }
    assert parent[..|parent|] == parent;
    assert parent + child[..0] == parent;
    for i := 0 to |child|
      invariant out == Dedup(parent + child[..i])
      invariant forall x :: x in seen <==> x in out
    {
      assert parent + child[..i + 1] == (parent + child[..i]) + [child[i]];
      DedupSnoc(parent + child[..i], child[i]);
      DedupProperties(parent + child[..i]);
      if child[i] !in seen {
        seen := seen + {child[i]};
        out := out + [child[i]];
      }
    }
    assert child[..|child|] == child;
    DedupProperties(parent + child);
  }

  /** mergeAgent assembled from the loops above. */
  method MergeParentChild(parent: Agent, child: Agent) returns (merged: Agent)
    ensures merged == MergeAgent(parent, child)
  {
    var contexts := MergeContextLists(parent.contexts, child.contexts);
    var capabilities := MergeStringSet(parent.capabilities, child.capabilities);
    merged := Agent(
      child.from,
      if child.runtime != "" then child.runtime else parent.runtime,
      if child.model != "" then child.model else parent.model,
      if child.name != "" then child.name else parent.name,
      contexts,
      if child.runtime != "" then child.configs else parent.configs + child.configs,
      parent.bins + child.bins,
      parent.adds + child.adds,
      if |child.exec| > 0 then child.exec else parent.exec,
      parent.labels + child.labels,
      parent.args + child.args,
      parent.envs + child.envs,
      capabilities);
  }
}
