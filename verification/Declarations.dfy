/**
 What a file declares, read off its instructions without replaying them: the four "Merge Semantics"
 behaviours as statements about the instruction sequence. The parser's fold is proved to compute
 exactly this, field by field.
 */
module Declarations {
  import opened Prelude
  import opened AgentSpec
  import opened Inheritance

  type Picker<!T> = Instruction -> Option<T>

  // ---------------------------------------------------------------------------------------
  // Reading a sequence of instructions
  // ---------------------------------------------------------------------------------------

  /** Everything picked, in order. */
  function Select<T>(insts: seq<Instruction>, pick: Picker<T>): seq<T> {
    if insts == [] then []
    else
      var rest, last := Select(insts[..|insts| - 1], pick), pick(insts[|insts| - 1]);
      if last.Some? then rest + [last.value] else rest
  }

  /** x is what the last matching instruction says; None when there is no matching instruction. */
  ghost predicate LastSays<T>(insts: seq<Instruction>, pick: Picker<T>, x: Option<T>) {
    match x
    case None => forall i :: 0 <= i < |insts| ==> pick(insts[i]).None?
    case Some(_) => exists i :: 0 <= i < |insts| && pick(insts[i]) == x && Silent(insts, pick, i + 1)
  }

  /** Nothing from position k on matches. */
  ghost predicate Silent<T>(insts: seq<Instruction>, pick: Picker<T>, k: int) {
    forall j :: k <= j < |insts| && 0 <= j ==> pick(insts[j]).None?
  }

  lemma SelectSnoc<T>(insts: seq<Instruction>, inst: Instruction, pick: Picker<T>)
    ensures Select(insts + [inst], pick) ==
            Select(insts, pick) + (if pick(inst).Some? then [pick(inst).value] else [])
  {
    assert (insts + [inst])[..|insts|] == insts;
  }

  lemma LastSaysSnoc<T>(insts: seq<Instruction>, inst: Instruction, pick: Picker<T>, x: Option<T>)
    requires LastSays(insts, pick, x)
    ensures LastSays(insts + [inst], pick, if pick(inst).Some? then pick(inst) else x)
  {
    var all := insts + [inst];
    if pick(inst).Some? {
      assert pick(all[|insts|]) == pick(inst) && Silent(all, pick, |insts| + 1);
    } else if x.Some? {
      var i :| 0 <= i < |insts| && pick(insts[i]) == x && Silent(insts, pick, i + 1);
      assert pick(all[i]) == x;
      forall j | i + 1 <= j < |all| ensures pick(all[j]).None? { if j < |insts| { assert all[j] == insts[j]; } }
      assert Silent(all, pick, i + 1);
    } else {
      forall j | 0 <= j < |all| ensures pick(all[j]).None? { if j < |insts| { assert all[j] == insts[j]; } }
    }
  }

  // ---------------------------------------------------------------------------------------
  // Replace: the last declaration wins, and RUNTIME starts the CONFIGs afresh
  // ---------------------------------------------------------------------------------------

  function From(i: Instruction): Option<string> { if i.FromInst? then Some(i.ref) else None }
  function Runtime(i: Instruction): Option<string> { if i.RuntimeInst? then Some(i.ref) else None }
  function Model(i: Instruction): Option<string> { if i.ModelInst? then Some(i.ref) else None }
  function Name(i: Instruction): Option<string> { if i.NameInst? then Some(i.ref) else None }
  function Exec(i: Instruction): Option<seq<string>> { if i.ExecInst? then Some(i.argv) else None }

  ghost predicate Says<T(!new)>(insts: seq<Instruction>, pick: Picker<T>, default: T, value: T) {
    exists x :: LastSays(insts, pick, x) && value == x.GetOr(default)
  }

  lemma SaysSnoc<T(!new)>(insts: seq<Instruction>, inst: Instruction, pick: Picker<T>, default: T, value: T)
    requires Says(insts, pick, default, value)
    ensures Says(insts + [inst], pick, default, pick(inst).GetOr(value))
  {
    var x :| LastSays(insts, pick, x) && value == x.GetOr(default);
    LastSaysSnoc(insts, inst, pick, x);
  }

  ghost predicate ScalarsSay(insts: seq<Instruction>, a: Agent) {
    && Says(insts, From, "", a.from) && Says(insts, Runtime, "", a.runtime) && Says(insts, Model, "", a.model)
    && Says(insts, Name, "", a.name) && Says(insts, Exec, [], a.exec)
  }

  lemma ScalarsEmpty()
    ensures ScalarsSay([], NewAgent)
  {
    assert LastSays([], From, None) && LastSays([], Runtime, None) && LastSays([], Model, None);
    assert LastSays([], Name, None) && LastSays([], Exec, None);
  }

  lemma ApplyScalars(a: Agent, inst: Instruction)
    ensures var b := Apply(a, inst);
            && b.from == From(inst).GetOr(a.from) && b.runtime == Runtime(inst).GetOr(a.runtime)
            && b.model == Model(inst).GetOr(a.model) && b.name == Name(inst).GetOr(a.name)
            && b.exec == Exec(inst).GetOr(a.exec)
  {
  }

  lemma {:induction false} FoldScalars(insts: seq<Instruction>)
    ensures ScalarsSay(insts, Fold(insts))
  {
    if insts == [] {
      ScalarsEmpty();
    } else {
      var init, last := insts[..|insts| - 1], insts[|insts| - 1];
      assert insts == init + [last];
      FoldScalars(init);
      var a := Fold(init);
      ApplyScalars(a, last);
      SaysSnoc(init, last, From, "", a.from);
      SaysSnoc(init, last, Runtime, "", a.runtime);
      SaysSnoc(init, last, Model, "", a.model);
      SaysSnoc(init, last, Name, "", a.name);
      SaysSnoc(init, last, Exec, [], a.exec);
    }
  }

  // ---------------------------------------------------------------------------------------
  // Append: everything declared, in order
  // ---------------------------------------------------------------------------------------

  /** "" when the line does not say. */
  function Text(said: Option<string>): string { if said.Some? then said.value else "" }

  function BinAt(i: Instruction): Option<Bin> {
    if i.BinInst? then Some(Bin(i.name, i.image, Text(i.desc), i.heredoc)) else None
  }

  /** Without a name of its own the file keeps the last component of its path. */
  function AddAt(i: Instruction): Option<Add> {
    if !i.AddInst? then None
    else Some(Add(i.src, if i.dest.None? then BaseName(i.src) else i.dest.value, Text(i.desc)))
  }

  function EnvAt(i: Instruction): Option<Env> {
    if i.EnvInst? then Some(Env(i.key, i.val, Text(i.desc))) else None
  }

  /** What a CONFIG line sets: a quoted value is text whatever it looks like and wins over an unquoted one. */
  function SetBy(value: Option<ConfigValue>, quoted: Option<string>): ConfigValue {
    match (quoted, value)
    case (Some(text), _) => StringValue(text)
    case (None, Some(v)) => v
    case (None, None) => NoValue
  }

  function ConfigAt(i: Instruction): Option<Config> {
    if i.ConfigInst? then Some(Config(i.key, SetBy(i.value, i.quoted), Text(i.desc), i.required)) else None
  }

  /** The CONFIGs that count are those after position k, where k is just past the last RUNTIME. */
  ghost predicate ConfigsFrom(insts: seq<Instruction>, k: nat) {
    k <= |insts| && Silent(insts, Runtime, k) && (k == 0 || insts[k - 1].RuntimeInst?)
  }

  ghost predicate ListsSay(insts: seq<Instruction>, a: Agent) {
    && a.bins == Select(insts, BinAt) && a.adds == Select(insts, AddAt) && a.envs == Select(insts, EnvAt)
    && exists k: nat :: ConfigsFrom(insts, k) && a.configs == Select(insts[k..], ConfigAt)
  }

  lemma ApplyLists(a: Agent, inst: Instruction)
    ensures var b := Apply(a, inst);
            && b.bins == a.bins + (if BinAt(inst).Some? then [BinAt(inst).value] else [])
            && b.adds == a.adds + (if AddAt(inst).Some? then [AddAt(inst).value] else [])
            && b.envs == a.envs + (if EnvAt(inst).Some? then [EnvAt(inst).value] else [])
  {
    var b := Apply(a, inst);
    assert !inst.BinInst? ==> b.bins == a.bins + [];
    assert !inst.AddInst? ==> b.adds == a.adds + [];
    assert !inst.EnvInst? ==> b.envs == a.envs + [];
  }

  lemma ApplyConfigs(a: Agent, inst: Instruction)
    ensures Apply(a, inst).configs ==
            if inst.RuntimeInst? then [] else a.configs + (if ConfigAt(inst).Some? then [ConfigAt(inst).value] else [])
  {
    assert !inst.RuntimeInst? && !inst.ConfigInst? ==> a.configs + [] == a.configs;
  }

  lemma ConfigsFromSnoc(init: seq<Instruction>, last: Instruction, k: nat)
    requires ConfigsFrom(init, k) && !last.RuntimeInst?
    ensures ConfigsFrom(init + [last], k)
    ensures (init + [last])[k..] == init[k..] + [last]
  {
    var insts := init + [last];
    forall j | k <= j < |insts| ensures Runtime(insts[j]).None? { if j < |init| { assert insts[j] == init[j]; } }
    if k > 0 { assert insts[k - 1] == init[k - 1]; }
  }

  lemma ConfigsSnoc(init: seq<Instruction>, last: Instruction, a: Agent, k: nat) returns (k': nat)
    requires ConfigsFrom(init, k) && a.configs == Select(init[k..], ConfigAt)
    ensures ConfigsFrom(init + [last], k')
    ensures Apply(a, last).configs == Select((init + [last])[k'..], ConfigAt)
  {
    ApplyConfigs(a, last);
    if last.RuntimeInst? {
      k' := |init| + 1;
      assert (init + [last])[k'..] == [];
    } else {
      k' := k;
      ConfigsFromSnoc(init, last, k);
      SelectSnoc(init[k..], last, ConfigAt);
    }
  }

  lemma {:induction false} FoldLists(insts: seq<Instruction>)
    ensures ListsSay(insts, Fold(insts))
  {
    if insts == [] {
      assert ConfigsFrom(insts, 0) && insts[0..] == [];
    } else {
      var init, last := insts[..|insts| - 1], insts[|insts| - 1];
      assert insts == init + [last];
      FoldLists(init);
      ApplyLists(Fold(init), last);
      SelectSnoc(init, last, BinAt);
      SelectSnoc(init, last, AddAt);
      SelectSnoc(init, last, EnvAt);
      var k: nat :| ConfigsFrom(init, k) && Fold(init).configs == Select(init[k..], ConfigAt);
      var k' := ConfigsSnoc(init, last, Fold(init), k);
    }
  }

  // ---------------------------------------------------------------------------------------
  // Keyed merge: one entry per key, the last declaration's, in order of first appearance
  // ---------------------------------------------------------------------------------------

  function LabelAt(key: string): Picker<string> {
    (i: Instruction) => if i.LabelInst? && i.key == key then Some(i.val) else None
  }

  function ArgAt(key: string): Picker<string> {
    (i: Instruction) => if i.ArgInst? && i.key == key then i.default else None
  }

  function ContextAt(name: string): Picker<Context> {
    (i: Instruction) => 
      if i.ContextInst? && i.name == name then Some(Context(name, Text(i.desc), i.heredoc, Text(i.file))) else None
  }

  function ContextName(i: Instruction): Option<string> { if i.ContextInst? then Some(i.name) else None }

  function Value<T>(m: map<string, T>, key: string): Option<T> {
    if key in m then Some(m[key]) else None
  }

  function NamesOf(cs: seq<Context>): (names: seq<string>)
    ensures |names| == |cs|
  {
    seq(|cs|, i requires 0 <= i < |cs| => cs[i].name)
  }

  /** The entry of that name, if there is one. */
  function Named(cs: seq<Context>, name: string): Option<Context> {
    var i := LastNamed(cs, name);
    if i >= 0 then Some(cs[i]) else None
  }

  ghost predicate MapsSay(insts: seq<Instruction>, a: Agent) {
    forall key ::
      LastSays(insts, LabelAt(key), Value(a.labels, key)) && LastSays(insts, ArgAt(key), Value(a.args, key))
  }

  ghost predicate ContextsSay(insts: seq<Instruction>, a: Agent) {
    && NamesOf(a.contexts) == Dedup(Select(insts, ContextName))
    && forall name :: LastSays(insts, ContextAt(name), Named(a.contexts, name))
  }

  lemma ApplyMaps(a: Agent, inst: Instruction, key: string)
    ensures var b := Apply(a, inst);
            && Value(b.labels, key) == (if LabelAt(key)(inst).Some? then LabelAt(key)(inst) else Value(a.labels, key))
            && Value(b.args, key) == (if ArgAt(key)(inst).Some? then ArgAt(key)(inst) else Value(a.args, key))
  {
  }

  lemma {:induction false} FoldMaps(insts: seq<Instruction>)
    ensures MapsSay(insts, Fold(insts))
  {
    if insts != [] {
      var init, last := insts[..|insts| - 1], insts[|insts| - 1];
      assert insts == init + [last];
      FoldMaps(init);
      var a := Fold(init);
      forall key
        ensures LastSays(insts, LabelAt(key), Value(Apply(a, last).labels, key))
             && LastSays(insts, ArgAt(key), Value(Apply(a, last).args, key))
      {
        ApplyMaps(a, last, key);
        LastSaysSnoc(init, last, LabelAt(key), Value(a.labels, key));
        LastSaysSnoc(init, last, ArgAt(key), Value(a.args, key));
      }
    }
  }

  lemma UpsertNamed(cs: seq<Context>, c: Context, name: string)
    ensures Named(Upsert(cs, c), name) == if c.name == name then Some(c) else Named(cs, name)
  {
    if c.name == name {
      var i := LastNamed(cs, name);
      LastNamedIs(Upsert(cs, c), name, if i >= 0 then i else |cs|);
    } else {
      UpsertElsewhere(cs, c, name);
    }
  }

  lemma UpsertNames(cs: seq<Context>, c: Context)
    ensures NamesOf(Upsert(cs, c)) == if c.name in NamesOf(cs) then NamesOf(cs) else NamesOf(cs) + [c.name]
  {
    var i := LastNamed(cs, c.name);
    if i >= 0 {
      assert NamesOf(cs)[i] == c.name;
      assert NamesOf(cs[i := c]) == NamesOf(cs);
    } else {
      assert NamesOf(cs + [c]) == NamesOf(cs) + [c.name];
    }
  }

  lemma ContextsSnoc(init: seq<Instruction>, last: Instruction, a: Agent)
    requires last.ContextInst? && UniqueNames(a.contexts) && ContextsSay(init, a)
    ensures ContextsSay(init + [last], Apply(a, last))
  {
    var insts, c := init + [last], ContextOf(last);
    ReplaceFirstIsUpsert(a.contexts, c);
    UpsertNames(a.contexts, c);
    SelectSnoc(init, last, ContextName);
    DedupSnoc(Select(init, ContextName), c.name);
    DedupProperties(Select(init, ContextName));
    forall name ensures LastSays(insts, ContextAt(name), Named(Apply(a, last).contexts, name)) {
      UpsertNamed(a.contexts, c, name);
      LastSaysSnoc(init, last, ContextAt(name), Named(a.contexts, name));
    }
  }

  lemma ContextsSkip(init: seq<Instruction>, last: Instruction, a: Agent)
    requires !last.ContextInst? && ContextsSay(init, a)
    ensures ContextsSay(init + [last], Apply(a, last))
  {
    assert Apply(a, last).contexts == a.contexts;
    SelectSnoc(init, last, ContextName);
    assert Select(init, ContextName) + [] == Select(init, ContextName);
    forall name ensures LastSays(init + [last], ContextAt(name), Named(a.contexts, name)) {
      LastSaysSnoc(init, last, ContextAt(name), Named(a.contexts, name));
    }
  }

  lemma {:induction false} FoldContexts(insts: seq<Instruction>)
    ensures ContextsSay(insts, Fold(insts))
  {
    if insts == [] {
      assert NamesOf([]) == [];
    } else {
      var init, last := insts[..|insts| - 1], insts[|insts| - 1];
      assert insts == init + [last];
      FoldContexts(init);
      FoldNormal(init);
      if last.ContextInst? { ContextsSnoc(init, last, Fold(init)); } else { ContextsSkip(init, last, Fold(init)); }
    }
  }

  // ---------------------------------------------------------------------------------------
  // Set union: each name once, in order of first appearance
  // ---------------------------------------------------------------------------------------

  function Kept(name: string): seq<string> {
    if name == "" then [] else [name]
  }

  function NonEmpty(names: seq<string>): seq<string> {
    if names == [] then [] else Kept(names[0]) + NonEmpty(names[1..])
  }

  /** Every capability name listed, in order, repetitions included. */
  function Requested(insts: seq<Instruction>): seq<string> {
    if insts == [] then []
    else
      var last := insts[|insts| - 1];
      Requested(insts[..|insts| - 1]) + (if last.CapabilityInst? then NonEmpty(last.names) else [])
  }

  lemma GrantOne(s: seq<string>, n: string)
    ensures AddCapability(Dedup(s), n) == Dedup(s + Kept(n))
  {
    DedupProperties(s);
    if n == "" { assert s + Kept(n) == s; } else { DedupSnoc(s, n); }
  }

  lemma {:induction false} GrantIsUnion(s: seq<string>, names: seq<string>)
    ensures AddCapabilities(Dedup(s), names) == Dedup(s + NonEmpty(names))
    decreases names
  {
    if names == [] {
      assert s + [] == s;
    } else {
      GrantOne(s, names[0]);
      GrantIsUnion(s + Kept(names[0]), names[1..]);
      SeqAssociative(s, Kept(names[0]), NonEmpty(names[1..]));
    }
  }

  lemma {:induction false} FoldCapabilities(insts: seq<Instruction>)
    ensures Fold(insts).capabilities == Dedup(Requested(insts))
  {
    if insts != [] {
      var init, last := insts[..|insts| - 1], insts[|insts| - 1];
      FoldCapabilities(init);
      if last.CapabilityInst? {
        GrantIsUnion(Requested(init), last.names);
      } else {
        assert Requested(init) + [] == Requested(init);
      }
    }
  }

  // ---------------------------------------------------------------------------------------
  // The whole agent
  // ---------------------------------------------------------------------------------------

  ghost predicate Declares(insts: seq<Instruction>, a: Agent) {
    && ScalarsSay(insts, a)
    && ListsSay(insts, a)
    && MapsSay(insts, a)
    && ContextsSay(insts, a)
    && a.capabilities == Dedup(Requested(insts))
  }

  /** The parser computes exactly what the file declares. */
  lemma FoldDeclares(insts: seq<Instruction>)
    ensures Declares(insts, Fold(insts))
  {
    FoldScalars(insts);
    FoldLists(insts);
    FoldMaps(insts);
    FoldContexts(insts);
    FoldCapabilities(insts);
  }

  // ---------------------------------------------------------------------------------------
  // What each entry holds, read off the line that made it
  // ---------------------------------------------------------------------------------------

  lemma {:induction false} Selected<T>(insts: seq<Instruction>, pick: Picker<T>, x: T)
    ensures x in Select(insts, pick) <==> exists i :: 0 <= i < |insts| && pick(insts[i]) == Some(x)
  {
    if insts != [] {
      var init, last := insts[..|insts| - 1], insts[|insts| - 1];
      Selected(init, pick, x);
      if i :| 0 <= i < |insts| && pick(insts[i]) == Some(x) && i < |init| { assert pick(init[i]) == Some(x); }
    }
  }

  /** Line i is a CONFIG line no later RUNTIME drops. */
  ghost predicate ConfigLine(insts: seq<Instruction>, i: int) {
    && 0 <= i < |insts| && insts[i].ConfigInst?
    && forall j :: i < j < |insts| ==> !insts[j].RuntimeInst?
  }

  /** The entry line i makes, field by field. */
  ghost predicate ConfigFrom(i: Instruction, c: Config)
    requires i.ConfigInst?
  {
    && c.key == i.key && c.required == i.required
    && (i.quoted.Some? ==> c.value == StringValue(i.quoted.value))
    && (i.quoted.None? && i.value.Some? ==> c.value == i.value.value)
    && (i.quoted.None? && i.value.None? ==> c.value == NoValue)
    && c.description == if i.desc.Some? then i.desc.value else ""
  }

  lemma ConfigAtIs(i: Instruction, c: Config)
    ensures ConfigAt(i) == Some(c) <==> i.ConfigInst? && ConfigFrom(i, c)
  {
  }

  lemma ConfigLineIs(insts: seq<Instruction>, k: nat, i: int)
    requires ConfigsFrom(insts, k)
    ensures ConfigLine(insts, i) <==> k <= i < |insts| && insts[i].ConfigInst?
  {
    if k <= i < |insts| {
      forall j | i < j < |insts| ensures !insts[j].RuntimeInst? { assert Runtime(insts[j]).None?; }
    }
  }

  lemma ConfigsSelected(insts: seq<Instruction>, k: nat, c: Config)
    requires ConfigsFrom(insts, k)
    ensures c in Select(insts[k..], ConfigAt) <==> exists i :: ConfigLine(insts, i) && ConfigFrom(insts[i], c)
  {
    var tail := insts[k..];
    Selected(tail, ConfigAt, c);
    if i :| 0 <= i < |tail| && ConfigAt(tail[i]) == Some(c) {
      ConfigAtIs(insts[k + i], c);
      ConfigLineIs(insts, k, k + i);
    }
    if i :| ConfigLine(insts, i) && ConfigFrom(insts[i], c) {
      ConfigAtIs(insts[i], c);
      ConfigLineIs(insts, k, i);
      assert tail[i - k] == insts[i];
    }
  }

  /** The CONFIG entries held are those of the CONFIG lines after the last RUNTIME, and each is what its line says. */
  lemma ConfigsHeld(insts: seq<Instruction>, c: Config)
    ensures c in Fold(insts).configs <==> exists i :: ConfigLine(insts, i) && ConfigFrom(insts[i], c)
  {
    FoldLists(insts);
    var k: nat :| ConfigsFrom(insts, k) && Fold(insts).configs == Select(insts[k..], ConfigAt);
    ConfigsSelected(insts, k, c);
  }

  /** A key is required exactly if, after the last RUNTIME, some CONFIG line for it says so. */
  lemma RequiredExactly(insts: seq<Instruction>, key: string)
    ensures (exists c :: c in Fold(insts).configs && c.key == key && c.required) <==>
            exists i :: ConfigLine(insts, i) && insts[i].key == key && insts[i].required
  {
    if c :| c in Fold(insts).configs && c.key == key && c.required {
      ConfigsHeld(insts, c);
    }
    if i :| ConfigLine(insts, i) && insts[i].key == key && insts[i].required {
      var c := ConfigAt(insts[i]).value;
      assert ConfigFrom(insts[i], c);
      ConfigsHeld(insts, c);
      assert c in Fold(insts).configs && c.key == key && c.required;
    }
  }

  ghost predicate Slashes(p: string) {
    forall i :: 0 <= i < |p| ==> p[i] == '/'
  }

  /** b is p's last component, trailing slashes apart. */
  ghost predicate LastComponent(p: string, dir: string, b: string, tail: string) {
    p == dir + b + tail && Slashes(tail) && '/' !in b && b != "" && (dir == "" || dir[|dir| - 1] == '/')
  }

  /** The name an ADD without one gets is the last component of its source. */
  lemma {:induction false} BaseNameIs(p: string, dir: string, b: string, tail: string)
    requires LastComponent(p, dir, b, tail)
    ensures BaseName(p) == b
    decreases |tail|
  {
    if tail == "" {
      assert p == dir + b && b[|b| - 1] in b;
      AfterLastSlashOf(dir, b);
    } else {
      assert p[..|p| - 1] == dir + b + tail[..|tail| - 1];
      BaseNameIs(p[..|p| - 1], dir, b, tail[..|tail| - 1]);
    }
  }

  /** A path without a component has the base name "." when it is empty, "/" when it is all slashes. */
  lemma {:induction false} BaseNameOfSlashes(p: string)
    requires Slashes(p)
    ensures BaseName(p) == if p == "" then "." else "/"
    decreases |p|
  {
    if |p| > 1 { BaseNameOfSlashes(p[..|p| - 1]); }
  }

  ghost predicate BinFrom(i: Instruction, b: Bin) {
    && i.BinInst? && b.name == i.name && b.image == i.image && b.usage == i.heredoc
    && b.description == if i.desc.Some? then i.desc.value else ""
  }

  lemma BinsHeld(insts: seq<Instruction>, b: Bin)
    ensures b in Fold(insts).bins <==> exists i :: 0 <= i < |insts| && BinFrom(insts[i], b)
  {
    FoldLists(insts);
    Selected(insts, BinAt, b);
    forall i | 0 <= i < |insts| ensures BinAt(insts[i]) == Some(b) <==> BinFrom(insts[i], b) {}
  }

  ghost predicate AddFrom(i: Instruction, a: Add) {
    && i.AddInst? && a.src == i.src && a.name == (if i.dest.Some? then i.dest.value else BaseName(i.src))
    && a.description == if i.desc.Some? then i.desc.value else ""
  }

  lemma AddsHeld(insts: seq<Instruction>, a: Add)
    ensures a in Fold(insts).adds <==> exists i :: 0 <= i < |insts| && AddFrom(insts[i], a)
  {
    FoldLists(insts);
    Selected(insts, AddAt, a);
    forall i | 0 <= i < |insts| ensures AddAt(insts[i]) == Some(a) <==> AddFrom(insts[i], a) {}
  }

  ghost predicate EnvFrom(i: Instruction, e: Env) {
    && i.EnvInst? && e.key == i.key && e.value == i.val
    && e.description == if i.desc.Some? then i.desc.value else ""
  }

  lemma EnvsHeld(insts: seq<Instruction>, e: Env)
    ensures e in Fold(insts).envs <==> exists i :: 0 <= i < |insts| && EnvFrom(insts[i], e)
  {
    FoldLists(insts);
    Selected(insts, EnvAt, e);
    forall i | 0 <= i < |insts| ensures EnvAt(insts[i]) == Some(e) <==> EnvFrom(insts[i], e) {}
  }

  /** Line i is the last CONTEXT line of that name. */
  ghost predicate ContextLine(insts: seq<Instruction>, name: string, i: int) {
    && 0 <= i < |insts| && insts[i].ContextInst? && insts[i].name == name
    && forall j :: i < j < |insts| && insts[j].ContextInst? ==> insts[j].name != name
  }

  ghost predicate ContextFrom(i: Instruction, c: Context)
    requires i.ContextInst?
  {
    && c.name == i.name && c.content == i.heredoc
    && c.file == (if i.file.Some? then i.file.value else "")
    && c.description == (if i.desc.Some? then i.desc.value else "")
  }

  lemma ContextSaid(insts: seq<Instruction>, c: Context)
    ensures LastSays(insts, ContextAt(c.name), Some(c)) <==>
            exists i :: ContextLine(insts, c.name, i) && ContextFrom(insts[i], c)
  {
    var pick := ContextAt(c.name);
    if LastSays(insts, pick, Some(c)) {
      var i :| 0 <= i < |insts| && pick(insts[i]) == Some(c) && Silent(insts, pick, i + 1);
      assert forall j :: i < j < |insts| ==> pick(insts[j]).None?;
      assert ContextLine(insts, c.name, i) && ContextFrom(insts[i], c);
    }
    if i :| ContextLine(insts, c.name, i) && ContextFrom(insts[i], c) {
      assert pick(insts[i]) == Some(c) && Silent(insts, pick, i + 1);
    }
  }

  lemma HeldIsNamed(cs: seq<Context>, c: Context)
    requires NoDuplicates(NamesOf(cs))
    ensures c in cs <==> Named(cs, c.name) == Some(c)
  {
    if m :| 0 <= m < |cs| && cs[m] == c { OnlyNamed(cs, m); }
  }

  /** A context held under a name is what the last CONTEXT line of that name says: body as content, argument as file. */
  lemma ContextsHeld(insts: seq<Instruction>, c: Context)
    ensures c in Fold(insts).contexts <==> exists i :: ContextLine(insts, c.name, i) && ContextFrom(insts[i], c)
  {
    FoldContexts(insts);
    var cs := Fold(insts).contexts;
    DedupProperties(Select(insts, ContextName));
    HeldIsNamed(cs, c);
    ContextSaid(insts, c);
    if LastSays(insts, ContextAt(c.name), Some(c)) {
      LastSaysUnique(insts, ContextAt(c.name), Named(cs, c.name), Some(c));
    }
  }

  lemma LastSaysUnique<T>(insts: seq<Instruction>, pick: Picker<T>, x: Option<T>, y: Option<T>)
    requires LastSays(insts, pick, x) && LastSays(insts, pick, y)
    ensures x == y
  {
    if x.Some? && y.Some? {
      var i :| 0 <= i < |insts| && pick(insts[i]) == x && Silent(insts, pick, i + 1);
      var j :| 0 <= j < |insts| && pick(insts[j]) == y && Silent(insts, pick, j + 1);
      assert i == j;
    }
  }

  lemma SaysUnique<T(!new)>(insts: seq<Instruction>, pick: Picker<T>, default: T, v: T, w: T)
    requires Says(insts, pick, default, v) && Says(insts, pick, default, w)
    ensures v == w
  {
    var x :| LastSays(insts, pick, x) && v == x.GetOr(default);
    var y :| LastSays(insts, pick, y) && w == y.GetOr(default);
    LastSaysUnique(insts, pick, x, y);
  }

  lemma ScalarsUnique(insts: seq<Instruction>, a: Agent, b: Agent)
    requires ScalarsSay(insts, a) && ScalarsSay(insts, b)
    ensures a.from == b.from && a.runtime == b.runtime && a.model == b.model && a.name == b.name && a.exec == b.exec
  {
    SaysUnique(insts, From, "", a.from, b.from);
    SaysUnique(insts, Runtime, "", a.runtime, b.runtime);
    SaysUnique(insts, Model, "", a.model, b.model);
    SaysUnique(insts, Name, "", a.name, b.name);
    SaysUnique(insts, Exec, [], a.exec, b.exec);
  }

  lemma ListsUnique(insts: seq<Instruction>, a: Agent, b: Agent)
    requires ListsSay(insts, a) && ListsSay(insts, b)
    ensures a.bins == b.bins && a.adds == b.adds && a.envs == b.envs && a.configs == b.configs
  {
    var k: nat :| ConfigsFrom(insts, k) && a.configs == Select(insts[k..], ConfigAt);
    var m: nat :| ConfigsFrom(insts, m) && b.configs == Select(insts[m..], ConfigAt);
    assert k > 0 ==> Runtime(insts[k - 1]).Some?;
    assert m > 0 ==> Runtime(insts[m - 1]).Some?;
    assert k == m;
  }

  lemma MapsUnique(insts: seq<Instruction>, a: Agent, b: Agent)
    requires MapsSay(insts, a) && MapsSay(insts, b)
    ensures a.labels == b.labels && a.args == b.args
  {
    forall key ensures Value(a.labels, key) == Value(b.labels, key) && Value(a.args, key) == Value(b.args, key) {
      LastSaysUnique(insts, LabelAt(key), Value(a.labels, key), Value(b.labels, key));
      LastSaysUnique(insts, ArgAt(key), Value(a.args, key), Value(b.args, key));
    }
    SameMap(a.labels, b.labels);
    SameMap(a.args, b.args);
  }

  lemma SameMap(m: map<string, string>, n: map<string, string>)
    requires forall key :: Value(m, key) == Value(n, key)
    ensures m == n
  {
    forall key ensures (key in m <==> key in n) && (key in m ==> m[key] == n[key]) {
      assert Value(m, key) == Value(n, key);
    }
  }

  lemma ContextsUnique(insts: seq<Instruction>, a: Agent, b: Agent)
    requires ContextsSay(insts, a) && ContextsSay(insts, b)
    ensures a.contexts == b.contexts
  {
    DedupProperties(Select(insts, ContextName));
    forall i | 0 <= i < |a.contexts| ensures a.contexts[i] == b.contexts[i] {
      var name := a.contexts[i].name;
      assert NamesOf(a.contexts)[i] == NamesOf(b.contexts)[i];
      OnlyNamed(a.contexts, i);
      OnlyNamed(b.contexts, i);
      LastSaysUnique(insts, ContextAt(name), Named(a.contexts, name), Named(b.contexts, name));
    }
  }

  lemma OnlyNamed(cs: seq<Context>, i: nat)
    requires i < |cs| && NoDuplicates(NamesOf(cs))
    ensures Named(cs, cs[i].name) == Some(cs[i])
  {
    forall j | i < j < |cs| ensures cs[j].name != cs[i].name { assert NamesOf(cs)[j] != NamesOf(cs)[i]; }
    LastNamedIs(cs, cs[i].name, i);
  }

  /** The declarations leave no freedom: the fold is the only agent they describe. */
  lemma DeclaresExactly(insts: seq<Instruction>, a: Agent)
    ensures Declares(insts, a) <==> a == Fold(insts)
  {
    FoldDeclares(insts);
    if Declares(insts, a) {
      ScalarsUnique(insts, a, Fold(insts));
      ListsUnique(insts, a, Fold(insts));
      MapsUnique(insts, a, Fold(insts));
      ContextsUnique(insts, a, Fold(insts));
    }
  }

  /** So does inheritance: a merged agent is what parent and child declare together. */
  lemma MergeDeclares(parent: seq<Instruction>, child: seq<Instruction>)
    requires AllWellFormed(parent) && AllWellFormed(child) && HasFrom(child)
    ensures Declares(parent + child, MergeAgent(Fold(parent), Fold(child)))
  {
    InheritanceIsConcatenation(parent, child);
    FoldDeclares(parent + child);
  }
}
