/**
 Inheritance is concatenation: merging two parsed Agentfiles gives the agent that the parser
 itself would have produced from the parent's instructions followed by the child's. The four
 "Merge Semantics" behaviours (replace, append, keyed-merge, set-union) are therefore the same
 whether a duplicate arises within one file or across FROM.
 */
module Inheritance {
  import opened Prelude
  import opened AgentSpec

  ghost predicate UniqueNames(cs: seq<Context>) {
    forall i, j :: 0 <= i < j < |cs| ==> cs[i].name != cs[j].name
  }

  // ---------------------------------------------------------------------------------------
  // Contexts: keyed-merge
  // ---------------------------------------------------------------------------------------

  lemma LastNamedIs(cs: seq<Context>, name: string, i: int)
    requires -1 <= i < |cs|
    requires i >= 0 ==> cs[i].name == name
    requires forall j :: i < j < |cs| ==> cs[j].name != name
    ensures LastNamed(cs, name) == i
  {
  }

  lemma {:induction false} ReplaceFirstAt(cs: seq<Context>, c: Context, i: nat)
    requires i < |cs| && cs[i].name == c.name
    requires forall j :: 0 <= j < i ==> cs[j].name != c.name
    ensures ReplaceFirst(cs, c) == cs[i := c]
    decreases i
  {
    if i == 0 {
      assert cs[0 := c] == [c] + cs[1..];
    } else {
      ReplaceFirstAt(cs[1..], c, i - 1);
      assert cs[i := c] == [cs[0]] + cs[1..][i - 1 := c];
    }
  }

  lemma {:induction false} ReplaceFirstAbsent(cs: seq<Context>, c: Context)
    requires forall j :: 0 <= j < |cs| ==> cs[j].name != c.name
    ensures ReplaceFirst(cs, c) == cs + [c]
  {
    if cs != [] {
      ReplaceFirstAbsent(cs[1..], c);
      assert cs + [c] == [cs[0]] + (cs[1..] + [c]);
    }
  }

  lemma ReplaceFirstIsUpsert(cs: seq<Context>, c: Context)
    requires UniqueNames(cs)
    ensures ReplaceFirst(cs, c) == Upsert(cs, c)
  {
    var i := LastNamed(cs, c.name);
    if i >= 0 { ReplaceFirstAt(cs, c, i); } else { ReplaceFirstAbsent(cs, c); }
  }

  lemma UpsertUnique(cs: seq<Context>, c: Context)
    requires UniqueNames(cs)
    ensures UniqueNames(Upsert(cs, c))
  {
  }

  lemma {:induction false} MergeContextsUnique(a: seq<Context>, b: seq<Context>)
    requires UniqueNames(a)
    ensures UniqueNames(MergeContexts(a, b))
  {
    if b != [] {
      MergeContextsUnique(a, b[..|b| - 1]);
      UpsertUnique(MergeContexts(a, b[..|b| - 1]), b[|b| - 1]);
    }
  }

  lemma UpsertSame(s: seq<Context>, y: Context, x: Context)
    requires x.name == y.name
    ensures Upsert(Upsert(s, y), x) == Upsert(s, x)
  {
    var i := LastNamed(s, y.name);
    if i >= 0 {
      LastNamedIs(s[i := y], x.name, i);
    } else {
      LastNamedIs(s + [y], x.name, |s|);
      assert (s + [y])[|s| := x] == s + [x];
    }
  }

  lemma UpdatesCommute(s: seq<Context>, i: nat, x: Context, k: nat, z: Context)
    requires i < |s| && k < |s| && i != k
    ensures s[i := x][k := z] == s[k := z][i := x]
  {
  }

  /** Upserts under different names commute once the first name is present. */
  lemma UpsertCommutes(s: seq<Context>, x: Context, z: Context)
    requires x.name != z.name
    requires LastNamed(s, x.name) >= 0
    ensures Upsert(Upsert(s, x), z) == Upsert(Upsert(s, z), x)
  {
    var i, k := LastNamed(s, x.name), LastNamed(s, z.name);
    UpsertElsewhere(s, x, z.name);
    UpsertElsewhere(s, z, x.name);
    if k >= 0 {
      UpdatesCommute(s, i, x, k, z);
    } else {
      assert (s + [z])[i := x] == s[i := x] + [z];
    }
  }

  /** An upsert does not move the last entry of another name. */
  lemma UpsertElsewhere(s: seq<Context>, x: Context, name: string)
    requires x.name != name
    ensures LastNamed(Upsert(s, x), name) == LastNamed(s, name)
  {
    LastNamedIs(Upsert(s, x), name, LastNamed(s, name));
  }

  lemma UpsertPresent(s: seq<Context>, y: Context)
    ensures LastNamed(Upsert(s, y), y.name) >= 0
  {
    var i := LastNamed(s, y.name);
    LastNamedIs(Upsert(s, y), y.name, if i >= 0 then i else |s|);
  }

  lemma UpsertKeeps(s: seq<Context>, name: string, z: Context)
    requires LastNamed(s, name) >= 0
    ensures LastNamed(Upsert(s, z), name) >= 0
  {
    if z.name == name {
      UpsertPresent(s, z);
    } else {
      LastNamedIs(Upsert(s, z), name, LastNamed(s, name));
    }
  }

  lemma {:induction false} MergeKeeps(s: seq<Context>, name: string, t: seq<Context>)
    requires LastNamed(s, name) >= 0
    ensures LastNamed(MergeContexts(s, t), name) >= 0
  {
    if t != [] {
      MergeKeeps(s, name, t[..|t| - 1]);
      UpsertKeeps(MergeContexts(s, t[..|t| - 1]), name, t[|t| - 1]);
    }
  }

  lemma {:induction false} MergeContextsAppend(a: seq<Context>, b: seq<Context>, c: seq<Context>)
    ensures MergeContexts(a, b + c) == MergeContexts(MergeContexts(a, b), c)
  {
    if c == [] {
      assert b + c == b;
    } else {
      var c' := c[..|c| - 1];
      assert (b + c)[..|b + c| - 1] == b + c';
      MergeContextsAppend(a, b, c');
    }
  }

  /** Overwriting an entry early, then merging entries of other names, is overwriting it late. */
  lemma {:induction false} OverwriteEarlyOrLate(s: seq<Context>, y: Context, x: Context, t: seq<Context>)
    requires x.name == y.name
    requires forall j :: 0 <= j < |t| ==> t[j].name != x.name
    ensures MergeContexts(Upsert(s, x), t) == Upsert(MergeContexts(Upsert(s, y), t), x)
  {
    if t == [] {
      UpsertSame(s, y, x);
    } else {
      var t', z := t[..|t| - 1], t[|t| - 1];
      OverwriteEarlyOrLate(s, y, x, t');
      var m := MergeContexts(Upsert(s, y), t');
      UpsertPresent(s, y);
      MergeKeeps(Upsert(s, y), x.name, t');
      UpsertCommutes(m, x, z);
    }
  }

  /** Upserting into the child before merging is upserting into the merge. */
  lemma MergeAfterUpsert(a: seq<Context>, l: seq<Context>, x: Context)
    ensures MergeContexts(a, Upsert(l, x)) == Upsert(MergeContexts(a, l), x)
  {
    var i := LastNamed(l, x.name);
    if i < 0 {
      assert (l + [x])[..|l|] == l;
    } else {
      var l1, y, l2 := l[..i], l[i], l[i + 1..];
      assert l == l1 + [y] + l2;
      assert l[i := x] == l1 + [x] + l2;
      assert (l1 + [x])[..i] == l1 && (l1 + [y])[..i] == l1;
      MergeContextsAppend(a, l1 + [x], l2);
      MergeContextsAppend(a, l1 + [y], l2);
      OverwriteEarlyOrLate(MergeContexts(a, l1), y, x, l2);
    }
  }

  lemma {:induction false} MergeContextsAssociative(a: seq<Context>, b: seq<Context>, c: seq<Context>)
    ensures MergeContexts(MergeContexts(a, b), c) == MergeContexts(a, MergeContexts(b, c))
  {
    if c != [] {
      var c', x := c[..|c| - 1], c[|c| - 1];
      MergeContextsAssociative(a, b, c');
      MergeAfterUpsert(a, MergeContexts(b, c'), x);
    }
  }

  // ---------------------------------------------------------------------------------------
  // Capabilities: set-union
  // ---------------------------------------------------------------------------------------

  /** Dedup keeps exactly the elements, each once, in order of first appearance. */
  lemma {:induction false} DedupProperties(s: seq<string>)
    ensures NoDuplicates(Dedup(s))
    ensures forall x :: x in Dedup(s) <==> x in s
  {
    if s != [] {
      var s', x := s[..|s| - 1], s[|s| - 1];
      DedupProperties(s');
      assert s == s' + [x];
    }
  }

  lemma {:induction false} DedupOfDistinct(s: seq<string>)
    requires NoDuplicates(s)
    ensures Dedup(s) == s
  {
    if s != [] {
      var s', x := s[..|s| - 1], s[|s| - 1];
      DedupOfDistinct(s');
      assert s == s' + [x];
      forall i | 0 <= i < |s'| ensures s'[i] != x { assert s[i] == s'[i]; }
    }
  }

  lemma DedupSnoc(s: seq<string>, x: string)
    ensures Dedup(s + [x]) == if x in s then Dedup(s) else Dedup(s) + [x]
  {
    assert (s + [x])[..|s|] == s;
    DedupProperties(s);
  }

  lemma {:induction false} DedupLeft(s: seq<string>, t: seq<string>)
    ensures Dedup(Dedup(s) + t) == Dedup(s + t)
  {
    DedupProperties(s);
    if t == [] {
      assert Dedup(s) + t == Dedup(s) && s + t == s;
      DedupOfDistinct(Dedup(s));
    } else {
      var t', x := t[..|t| - 1], t[|t| - 1];
      DedupLeft(s, t');
      assert s + t == (s + t') + [x];
      assert Dedup(s) + t == (Dedup(s) + t') + [x];
      DedupSnoc(s + t', x);
      DedupSnoc(Dedup(s) + t', x);
    }
  }

  lemma {:induction false} DedupRight(s: seq<string>, t: seq<string>)
    ensures Dedup(s + Dedup(t)) == Dedup(s + t)
  {
    if t != [] {
      var t', x := t[..|t| - 1], t[|t| - 1];
      DedupRight(s, t');
      DedupProperties(t');
      assert t == t' + [x];
      assert s + t == (s + t') + [x];
      DedupSnoc(t', x);
      DedupSnoc(s + t', x);
      if x in t' {
        assert Dedup(t) == Dedup(t');
      } else {
        assert s + Dedup(t) == (s + Dedup(t')) + [x];
        DedupSnoc(s + Dedup(t'), x);
        assert x in s + Dedup(t') <==> x in s + t';
      }
    }
  }

  lemma {:induction false} AddCapabilitiesDistinct(caps: seq<string>, names: seq<string>)
    requires NoDuplicates(caps)
    ensures NoDuplicates(AddCapabilities(caps, names))
    decreases names
  {
    if names != [] {
      AddCapabilitiesDistinct(AddCapability(caps, names[0]), names[1..]);
    }
  }

  lemma DedupAddOne(p: seq<string>, caps: seq<string>, n: string)
    ensures Dedup(p + AddCapability(caps, n)) == AddCapability(Dedup(p + caps), n)
  {
    DedupProperties(p + caps);
    if n != "" && n !in caps {
      assert p + (caps + [n]) == (p + caps) + [n];
      DedupSnoc(p + caps, n);
    }
  }

  /** The parser's in-line dedup, applied on either side of the union, gives the same list. */
  lemma {:induction false} DedupAddCapabilities(p: seq<string>, caps: seq<string>, names: seq<string>)
    ensures Dedup(p + AddCapabilities(caps, names)) == AddCapabilities(Dedup(p + caps), names)
    decreases names
  {
    if names != [] {
      DedupAddOne(p, caps, names[0]);
      DedupAddCapabilities(p, AddCapability(caps, names[0]), names[1..]);
    }
  }

  // ---------------------------------------------------------------------------------------
  // The homomorphism
  // ---------------------------------------------------------------------------------------

  ghost predicate Normal(a: Agent) {
    UniqueNames(a.contexts) && NoDuplicates(a.capabilities)
  }

  lemma ApplyNormal(a: Agent, inst: Instruction)
    requires Normal(a)
    ensures Normal(Apply(a, inst))
  {
    if inst.ContextInst? {
      ReplaceFirstIsUpsert(a.contexts, ContextOf(inst));
      UpsertUnique(a.contexts, ContextOf(inst));
    } else if inst.CapabilityInst? {
      AddCapabilitiesDistinct(a.capabilities, inst.names);
    }
  }

  /** Every agent the parser can produce has one context per name and one entry per capability. */
  lemma {:induction false} FoldNormal(insts: seq<Instruction>)
    ensures Normal(Fold(insts))
  {
    if insts != [] {
      FoldNormal(insts[..|insts| - 1]);
      ApplyNormal(Fold(insts[..|insts| - 1]), insts[|insts| - 1]);
    }
  }

  lemma MergeAfterContext(p: Agent, c: Agent, x: Context)
    requires Normal(p) && Normal(c)
    ensures MergeContexts(p.contexts, ReplaceFirst(c.contexts, x)) == ReplaceFirst(MergeContexts(p.contexts, c.contexts), x)
  {
    ReplaceFirstIsUpsert(c.contexts, x);
    MergeContextsUnique(p.contexts, c.contexts);
    ReplaceFirstIsUpsert(MergeContexts(p.contexts, c.contexts), x);
    MergeAfterUpsert(p.contexts, c.contexts, x);
  }

  lemma PutAfterUnion(a: map<string, string>, b: map<string, string>, key: string, value: string)
    ensures a + b[key := value] == (a + b)[key := value]
  {
  }

  predicate Scalar(inst: Instruction) {
    inst.FromInst? || inst.RuntimeInst? || inst.ModelInst? || inst.NameInst? || inst.ExecInst?
  }

  lemma MergeAfterScalar(p: Agent, c: Agent, inst: Instruction)
    requires WellFormed(inst) && Scalar(inst)
    ensures MergeAgent(p, Apply(c, inst)) == Apply(MergeAgent(p, c), inst)
  {
  }

  lemma MergeAfterAppend(p: Agent, c: Agent, inst: Instruction)
    requires inst.ConfigInst? || inst.BinInst? || inst.AddInst? || inst.EnvInst?
    ensures MergeAgent(p, Apply(c, inst)) == Apply(MergeAgent(p, c), inst)
  {
    if inst.ConfigInst? {
      SeqAssociative(p.configs, c.configs, [ConfigOf(inst)]);
    } else if inst.BinInst? {
      SeqAssociative(p.bins, c.bins, [BinOf(inst)]);
    } else if inst.AddInst? {
      SeqAssociative(p.adds, c.adds, [AddOf(inst)]);
    } else {
      SeqAssociative(p.envs, c.envs, [EnvOf(inst)]);
    }
  }

  lemma MergeAfterPut(p: Agent, c: Agent, inst: Instruction)
    requires inst.LabelInst? || inst.ArgInst?
    ensures MergeAgent(p, Apply(c, inst)) == Apply(MergeAgent(p, c), inst)
  {
    if inst.LabelInst? {
      PutAfterUnion(p.labels, c.labels, inst.key, inst.val);
    } else if inst.default.Some? {
      PutAfterUnion(p.args, c.args, inst.key, inst.default.value);
    }
  }

  lemma MergeAfterContextLine(p: Agent, c: Agent, inst: Instruction)
    requires Normal(p) && Normal(c) && inst.ContextInst?
    ensures MergeAgent(p, Apply(c, inst)) == Apply(MergeAgent(p, c), inst)
  {
    MergeAfterContext(p, c, ContextOf(inst));
  }

  lemma MergeAfterCapability(p: Agent, c: Agent, inst: Instruction)
    requires inst.CapabilityInst?
    ensures MergeAgent(p, Apply(c, inst)) == Apply(MergeAgent(p, c), inst)
  {
    DedupAddCapabilities(p.capabilities, c.capabilities, inst.names);
  }

  /** One more line in the child is one more line applied to the merged agent. */
  lemma MergeAfterApply(p: Agent, c: Agent, inst: Instruction)
    requires Normal(p) && Normal(c)
    requires WellFormed(inst)
    ensures MergeAgent(p, Apply(c, inst)) == Apply(MergeAgent(p, c), inst)
  {
    if Scalar(inst) {
      MergeAfterScalar(p, c, inst);
    } else if inst.ConfigInst? || inst.BinInst? || inst.AddInst? || inst.EnvInst? {
      MergeAfterAppend(p, c, inst);
    } else if inst.LabelInst? || inst.ArgInst? {
      MergeAfterPut(p, c, inst);
    } else if inst.ContextInst? {
      MergeAfterContextLine(p, c, inst);
    } else {
      MergeAfterCapability(p, c, inst);
    }
  }

  /** Merging an agent with an empty child changes nothing but FROM, which becomes empty. */
  lemma MergeWithEmpty(p: Agent)
    requires Normal(p)
    ensures MergeAgent(p, NewAgent) == p.(from := "")
  {
    assert p.configs + [] == p.configs;
    assert p.bins + [] == p.bins;
    assert p.adds + [] == p.adds;
    assert p.envs + [] == p.envs;
    assert p.capabilities + [] == p.capabilities;
    assert p.labels + map[] == p.labels;
    assert p.args + map[] == p.args;
    DedupOfDistinct(p.capabilities);
  }

  ghost predicate HasFrom(insts: seq<Instruction>) {
    exists i :: 0 <= i < |insts| && insts[i].FromInst?
  }

  lemma HasFromSnoc(init: seq<Instruction>, last: Instruction)
    ensures HasFrom(init + [last]) <==> HasFrom(init) || last.FromInst?
  {
    var insts := init + [last];
    if last.FromInst? {
      assert insts[|init|].FromInst?;
    } else if i :| 0 <= i < |init| && init[i].FromInst? {
      assert insts[i].FromInst?;
    } else {
      assert forall i :: 0 <= i < |init| ==> insts[i] == init[i];
    }
  }

  /** FROM of a fold: non-empty exactly when some line is a FROM, and independent of everything before it. */
  lemma {:induction false} FoldFrom(insts: seq<Instruction>)
    requires AllWellFormed(insts)
    ensures Fold(insts).from != "" <==> HasFrom(insts)
  {
    if insts != [] {
      var init, last := insts[..|insts| - 1], insts[|insts| - 1];
      FoldFrom(init);
      assert insts == init + [last];
      HasFromSnoc(init, last);
      ApplyKeepsFrom(Fold(init), last);
      assert WellFormed(last);
    }
  }

  /** The merge, with FROM taken from the last of the two that has one. */
  ghost function Joined(p: Agent, c: Agent): Agent {
    MergeAgent(p, c).(from := if c.from != "" then c.from else p.from)
  }

  lemma JoinedAfterApply(p: Agent, c: Agent, inst: Instruction)
    requires Normal(p) && Normal(c) && WellFormed(inst)
    ensures Joined(p, Apply(c, inst)) == Apply(Joined(p, c), inst)
  {
    MergeAfterApply(p, c, inst);
    ApplyFrom(MergeAgent(p, c), inst, if c.from != "" then c.from else p.from);
    ApplyKeepsFrom(c, inst);
  }

  /** Only FROM lines read or write the FROM field. */
  lemma ApplyFrom(a: Agent, inst: Instruction, from: string)
    ensures Apply(a.(from := from), inst) == if inst.FromInst? then Apply(a, inst) else Apply(a, inst).(from := from)
  {
  }

  lemma ApplyKeepsFrom(a: Agent, inst: Instruction)
    ensures Apply(a, inst).from == if inst.FromInst? then inst.ref else a.from
  {
  }

  lemma FoldSnoc(insts: seq<Instruction>, inst: Instruction)
    ensures Fold(insts + [inst]) == Apply(Fold(insts), inst)
  {
    assert (insts + [inst])[..|insts|] == insts;
  }

  lemma {:induction false} FoldAppend(p: seq<Instruction>, c: seq<Instruction>)
    requires AllWellFormed(c)
    ensures Fold(p + c) == Joined(Fold(p), Fold(c))
  {
    FoldNormal(p);
    if c == [] {
      assert p + c == p;
      MergeWithEmpty(Fold(p));
    } else {
      var c', last := c[..|c| - 1], c[|c| - 1];
      assert c == c' + [last];
      assert p + c == (p + c') + [last];
      FoldAppend(p, c');
      FoldNormal(c');
      FoldSnoc(c', last);
      FoldSnoc(p + c', last);
      JoinedAfterApply(Fold(p), Fold(c'), last);
    }
  }

  /**
   MAIN THEOREM. For any parent and child instruction sequences, the resolver's merge of the two
   parsed agents IS the parse of the concatenation, on every field, exactly when the child carries
   a FROM (every Agentfile does) or the parent has none.
   */
  lemma InheritanceIsConcatenation(p: seq<Instruction>, c: seq<Instruction>)
    requires AllWellFormed(p) && AllWellFormed(c)
    ensures MergeAgent(Fold(p), Fold(c)) == Fold(p + c) <==> (HasFrom(c) || !HasFrom(p))
  {
    FoldAppend(p, c);
    FoldFrom(p);
    FoldFrom(c);
  }

  lemma CapabilitiesAssociative(a: seq<string>, b: seq<string>, c: seq<string>)
    ensures Dedup(Dedup(a + b) + c) == Dedup(a + Dedup(b + c))
  {
    DedupLeft(a + b, c);
    DedupRight(a, b + c);
    assert a + b + c == a + (b + c);
  }

  lemma SeqAssociative<T>(a: seq<T>, b: seq<T>, c: seq<T>)
    ensures (a + b) + c == a + (b + c)
  {
  }

  lemma MapAssociative(a: map<string, string>, b: map<string, string>, c: map<string, string>)
    ensures (a + b) + c == a + (b + c)
  {
  }

  /** Any grouping of an inheritance chain yields the same agent, for agents of any shape. */
  lemma MergeAssociative(a: Agent, b: Agent, c: Agent)
    ensures MergeAgent(MergeAgent(a, b), c) == MergeAgent(a, MergeAgent(b, c))
  {
    MergeContextsAssociative(a.contexts, b.contexts, c.contexts);
    CapabilitiesAssociative(a.capabilities, b.capabilities, c.capabilities);
    SeqAssociative(a.configs, b.configs, c.configs);
    SeqAssociative(a.bins, b.bins, c.bins);
    SeqAssociative(a.adds, b.adds, c.adds);
    SeqAssociative(a.envs, b.envs, c.envs);
    MapAssociative(a.labels, b.labels, c.labels);
    MapAssociative(a.args, b.args, c.args);
  }
}
