/**
 Structural validation of an agent (spec/parse.go, Validate), and how it fares under the two ways an
 agent is built further: inheritance and the deploy-time CONFIG override.
 */
module Validation {
  import opened Prelude
  import opened AgentSpec
  import opened Inheritance
  import opened Configs
  import opened SortedKeys
  import SpawnEnv
  import SpawnEnvLayers

  predicate Alnum(c: char) {
    'A' <= c <= 'Z' || 'a' <= c <= 'z' || '0' <= c <= '9'
  }

  predicate LowerAlnum(c: char) {
    'a' <= c <= 'z' || '0' <= c <= '9'
  }

  /** ^[A-Za-z0-9][A-Za-z0-9._-]{0,62}$ */
  predicate PathSafe(name: string) {
    1 <= |name| <= 63 && Alnum(name[0])
    && forall i :: 0 <= i < |name| ==> Alnum(name[i]) || name[i] in {'.', '_', '-'}
  }

  /** ^[a-z0-9]([a-z0-9-]{0,61}[a-z0-9])?$ */
  predicate Label(name: string) {
    1 <= |name| <= 63 && LowerAlnum(name[0]) && LowerAlnum(name[|name| - 1])
    && forall i :: 0 <= i < |name| ==> LowerAlnum(name[i]) || name[i] == '-'
  }

  /** ^[A-Z_][A-Z0-9_]*$ */
  predicate EnvName(key: string) {
    key != "" && !('0' <= key[0] <= '9')
    && forall i :: 0 <= i < |key| ==> 'A' <= key[i] <= 'Z' || '0' <= key[i] <= '9' || key[i] == '_'
  }

  /** An accepted name is a single path component that stays in its directory. */
  lemma PathSafeStays(name: string)
    requires PathSafe(name)
    ensures name != "" && name != "." && name != ".." && '/' !in name && '\\' !in name && '=' !in name
    ensures name[0] != '.' && name[0] != '-'
  {
  }

  predicate LetterOrDigit(c: char) {
    'A' <= c <= 'Z' || 'a' <= c <= 'z' || '0' <= c <= '9'
  }

  /** A path-safe name is a letter or digit and up to 62 letters, digits, dots, underscores and dashes. */
  lemma PathSafeShape(name: string)
    ensures PathSafe(name) <==>
            exists first: char, rest :: name == [first] + rest && |rest| <= 62 && LetterOrDigit(first)
              && forall i :: 0 <= i < |rest| ==> LetterOrDigit(rest[i]) || rest[i] == '.' || rest[i] == '_' || rest[i] == '-'
  {
    if PathSafe(name) { assert name == [name[0]] + name[1..]; }
  }

  predicate SmallOrDigit(c: char) {
    'a' <= c <= 'z' || '0' <= c <= '9'
  }

  /** One small letter or digit, up to 61 of these and dashes, and one more. */
  ghost predicate LabelParts(name: string, first: char, mid: string, last: char) {
    && name == [first] + mid + [last] && |mid| <= 61 && SmallOrDigit(first) && SmallOrDigit(last)
    && forall i :: 0 <= i < |mid| ==> SmallOrDigit(mid[i]) || mid[i] == '-'
  }

  lemma LabelOfParts(name: string, first: char, mid: string, last: char)
    requires LabelParts(name, first, mid, last)
    ensures Label(name)
  {
    forall i | 0 <= i < |name| ensures LowerAlnum(name[i]) || name[i] == '-' {
      if 0 < i < |name| - 1 { assert name[i] == mid[i - 1]; }
    }
  }

  lemma PartsOfLabel(name: string)
    requires Label(name) && |name| > 1
    ensures LabelParts(name, name[0], name[1..|name| - 1], name[|name| - 1])
  {
    assert name == [name[0]] + name[1..|name| - 1] + [name[|name| - 1]];
  }

  /** A label is a single small letter or digit, or two of them with up to 61 of these and dashes between. */
  lemma LabelShape(name: string)
    ensures Label(name) <==>
            (|name| == 1 && SmallOrDigit(name[0])) || exists first, mid, last :: LabelParts(name, first, mid, last)
  {
    if Label(name) && |name| > 1 { PartsOfLabel(name); }
    if first, mid, last :| LabelParts(name, first, mid, last) { LabelOfParts(name, first, mid, last); }
  }

  /** An ENV name is a capital or underscore, then capitals, digits and underscores. */
  lemma EnvNameShape(key: string)
    ensures EnvName(key) <==>
            exists first: char, rest :: key == [first] + rest && ('A' <= first <= 'Z' || first == '_')
              && forall i :: 0 <= i < |rest| ==> 'A' <= rest[i] <= 'Z' || '0' <= rest[i] <= '9' || rest[i] == '_'
  {
    if EnvName(key) { assert key == [key[0]] + key[1..]; }
  }

  const ReservedContexts: set<string> := {"AGENT", "WORKSPACE", "MOUNTS"}

  const ReservedEnvKeys: set<string> :=
    {"PATH", "HOME", "XDG_CONFIG_HOME", "XDG_CACHE_HOME", "XDG_DATA_HOME", "TMPDIR", "LANG",
     "OTTERS_AGENT_ROOT", "OTTERSD_URL", "OTTERS_AGENT_TOKEN"}

  predicate ValidContext(c: Context) { c.name !in ReservedContexts && PathSafe(c.name) }
  predicate ValidBin(b: Bin) { PathSafe(b.name) }
  predicate ValidAdd(a: Add) { PathSafe(a.name) }
  predicate ValidConfig(c: Config) { Label(c.key) && !(c.required && c.value != NoValue) }
  predicate ValidEnv(e: Env) {
    EnvName(e.key) && e.key !in ReservedEnvKeys && !HasSuffix(e.key, "_API_KEY") && !HasSuffix(e.key, "_API_BASE")
  }

  /** Names a valid agent cannot use: three contexts, ten variables and two suffixes are taken. */
  lemma ReservedNames(c: Context, e: Env)
    ensures ValidContext(c) ==> c.name != "AGENT" && c.name != "WORKSPACE" && c.name != "MOUNTS"
    ensures ValidEnv(e) ==> !SpawnEnv.IsReservedEnvKey(e.key)
  {
  }

  datatype Part = FromPart | NamePart | ContextPart(i: nat) | BinPart(i: nat) | AddPart(i: nat)
                | ConfigPart(i: nat) | CapabilityPart(i: nat) | EnvPart(i: nat)

  ghost predicate Valid(a: Agent) {
    && a.from != ""
    && (a.name != "" ==> PathSafe(a.name))
    && (forall i :: 0 <= i < |a.contexts| ==> ValidContext(a.contexts[i]))
    && (forall i :: 0 <= i < |a.bins| ==> ValidBin(a.bins[i]))
    && (forall i :: 0 <= i < |a.adds| ==> ValidAdd(a.adds[i]))
    && (forall i :: 0 <= i < |a.configs| ==> ValidConfig(a.configs[i]))
    && (forall i :: 0 <= i < |a.capabilities| ==> Label(a.capabilities[i]))
    && (forall i :: 0 <= i < |a.envs| ==> ValidEnv(a.envs[i]))
  }

  /** The part of the agent an error is about breaks its rule. */
  ghost predicate Offends(a: Agent, p: Part) {
    match p
    case FromPart => a.from == ""
    case NamePart => a.name != "" && !PathSafe(a.name)
    case ContextPart(i) => i < |a.contexts| && !ValidContext(a.contexts[i])
    case BinPart(i) => i < |a.bins| && !ValidBin(a.bins[i])
    case AddPart(i) => i < |a.adds| && !ValidAdd(a.adds[i])
    case ConfigPart(i) => i < |a.configs| && !ValidConfig(a.configs[i])
    case CapabilityPart(i) => i < |a.capabilities| && !Label(a.capabilities[i])
    case EnvPart(i) => i < |a.envs| && !ValidEnv(a.envs[i])
  }

  /** Accepts exactly the valid agents; a rejection points at a part that is at fault. */
  method Validate(a: Agent) returns (fault: Option<Part>)
    ensures fault.None? <==> Valid(a)
    ensures fault.Some? ==> Offends(a, fault.value)
  {
    if a.from == "" { return Some(FromPart); }
    if a.name != "" && !PathSafe(a.name) { return Some(NamePart); }
    for i := 0 to |a.contexts|
      invariant forall j :: 0 <= j < i ==> ValidContext(a.contexts[j])
    {
      if !ValidContext(a.contexts[i]) { return Some(ContextPart(i)); }
    }
    for i := 0 to |a.bins|
      invariant forall j :: 0 <= j < i ==> ValidBin(a.bins[j])
    {
      if !ValidBin(a.bins[i]) { return Some(BinPart(i)); }
    }
    for i := 0 to |a.adds|
      invariant forall j :: 0 <= j < i ==> ValidAdd(a.adds[j])
    {
      if !ValidAdd(a.adds[i]) { return Some(AddPart(i)); }
    }
    for i := 0 to |a.configs|
      invariant forall j :: 0 <= j < i ==> ValidConfig(a.configs[j])
    {
      if !ValidConfig(a.configs[i]) { return Some(ConfigPart(i)); }
    }
    for i := 0 to |a.capabilities|
      invariant forall j :: 0 <= j < i ==> Label(a.capabilities[j])
    {
      if !Label(a.capabilities[i]) { return Some(CapabilityPart(i)); }
    }
    for i := 0 to |a.envs|
      invariant forall j :: 0 <= j < i ==> ValidEnv(a.envs[j])
    {
      if !ValidEnv(a.envs[i]) { return Some(EnvPart(i)); }
    }
    return None;
  }

  // ---------------------------------------------------------------------------------------
  // Inheritance preserves validity
  // ---------------------------------------------------------------------------------------

  lemma {:induction false} MergedContextsValid(p: seq<Context>, c: seq<Context>)
    requires forall i :: 0 <= i < |p| ==> ValidContext(p[i])
    requires forall i :: 0 <= i < |c| ==> ValidContext(c[i])
    ensures forall i :: 0 <= i < |MergeContexts(p, c)| ==> ValidContext(MergeContexts(p, c)[i])
  {
    if c != [] { MergedContextsValid(p, c[..|c| - 1]); }
  }

  /** A resolved agent needs no second validation: merging two valid agents gives a valid one. */
  lemma MergePreservesValid(p: Agent, c: Agent)
    requires Valid(p) && Valid(c)
    ensures Valid(MergeAgent(p, c))
  {
    MergedContextsValid(p.contexts, c.contexts);
    DedupProperties(p.capabilities + c.capabilities);
    var m := MergeAgent(p, c);
    forall i | 0 <= i < |m.capabilities| ensures Label(m.capabilities[i]) {
      assert m.capabilities[i] in p.capabilities + c.capabilities;
    }
  }

  // ---------------------------------------------------------------------------------------
  // What validation buys at spawn
  // ---------------------------------------------------------------------------------------

  /** A validated ENV passes the spawn-time filter untouched, and a validated CONFIG key exports collision-free. */
  lemma ValidPartsSpawn(e: Env, c: Config)
    requires ValidEnv(e) && ValidConfig(c)
    ensures !SpawnEnv.IsReservedEnvKey(e.key) && e.key != "" && '=' !in e.key
    ensures SpawnEnv.LabelKey(c.key)
  {
    assert ReservedEnvKeys == SpawnEnv.LockedKeys;
  }

  /** Dropping overridden entries keeps an ENV list valid. */
  lemma {:induction false} KeptValid(declared: seq<Env>, incoming: set<string>)
    requires forall i :: 0 <= i < |declared| ==> ValidEnv(declared[i])
    ensures ValidEntries(SpawnEnvLayers.Kept(declared, incoming))
    ensures SpawnEnv.Skipped(SpawnEnvLayers.Kept(declared, incoming)) == []
    ensures forall e :: e in SpawnEnvLayers.Kept(declared, incoming) ==> e.Some?
  {
    if declared != [] {
      KeptValid(declared[1..], incoming);
      ValidPartsSpawn(declared[0], Config("a", NoValue, "", false));
      var rest := SpawnEnvLayers.Kept(declared[1..], incoming);
      if declared[0].key in incoming {
        assert [] + rest == rest;
      } else {
        assert ([Some(declared[0])] + rest)[1..] == rest;
      }
    }
  }

  /** What Validate would demand of an ENV list in which run-time overrides may be nil. */
  ghost predicate ValidEntries(envs: seq<Option<Env>>) {
    forall i :: 0 <= i < |envs| && envs[i].Some? ==> ValidEnv(envs[i].value)
  }

  lemma ValidEntriesAppend(a: seq<Option<Env>>, b: seq<Option<Env>>)
    ensures ValidEntries(a + b) <==> ValidEntries(a) && ValidEntries(b)
  {
    assert forall i :: 0 <= i < |a| ==> (a + b)[i] == a[i];
    assert forall i :: 0 <= i < |b| ==> (a + b)[|a| + i] == b[i];
    if ValidEntries(a + b) {
      forall i | 0 <= i < |a| && a[i].Some? ensures ValidEnv(a[i].value) { assert (a + b)[i] == a[i]; }
      forall i | 0 <= i < |b| && b[i].Some? ensures ValidEnv(b[i].value) { assert (a + b)[|a| + i] == b[i]; }
    }
  }

  lemma {:induction false} SkippedAppend(a: seq<Option<Env>>, b: seq<Option<Env>>)
    ensures SpawnEnv.Skipped(a + b) == SpawnEnv.Skipped(a) + SpawnEnv.Skipped(b)
  {
    if a == [] {
      assert a + b == b;
    } else {
      assert (a + b)[1..] == a[1..] + b;
      SkippedAppend(a[1..], b);
    }
  }

  /** The ENV of a validated agent after run-time overrides, which nobody validates. */
  function WithExtra(a: Agent, extra: seq<Option<Env>>): seq<Option<Env>> {
    SpawnEnvLayers.Kept(a.envs, SpawnEnvLayers.KeysOf(extra)) + extra
  }

  /**
   Validating after the overrides would accept exactly when the overrides themselves are valid; and
   of the entries that are passed on to the spawn, exactly the overrides' reserved ones are skipped.
   */
  lemma ExtraEnvsKeepValid(a: Agent, extra: seq<Option<Env>>)
    requires Valid(a)
    ensures ValidEntries(WithExtra(a, extra)) <==> ValidEntries(extra)
    ensures SpawnEnv.Skipped(WithExtra(a, extra)) == SpawnEnv.Skipped(extra)
  {
    var kept := SpawnEnvLayers.Kept(a.envs, SpawnEnvLayers.KeysOf(extra));
    KeptValid(a.envs, SpawnEnvLayers.KeysOf(extra));
    ValidEntriesAppend(kept, extra);
    SkippedAppend(kept, extra);
    assert [] + SpawnEnv.Skipped(extra) == SpawnEnv.Skipped(extra);
  }

  /** A valid declared entry is read under its own, unreserved name. */
  lemma DeclaredNotSmuggled(a: Agent, name: string)
    requires Valid(a) && SpawnEnv.IsReservedEnvKey(name)
    ensures SpawnEnvLayers.UserSeen(SpawnEnvLayers.Declared(a.envs), name).None?
  {
    var envs := SpawnEnvLayers.Declared(a.envs);
    SpawnEnvLayers.UserSeenExactly(envs, name);
    forall i | 0 <= i < |envs| ensures !SpawnEnvLayers.ReadAs(envs[i], name) {
      ValidPartsSpawn(a.envs[i], Config("a", NoValue, "", false));
      SpawnEnv.EntryParts(a.envs[i].key, "");
    }
  }

  /**
   No key of a spawned agent holds an '=', so that nothing is smuggled in under a locked name, exactly
   when no run-time override does and the model's provider does not: validation sees to the rest.
   */
  lemma ValidAgentSpawns(a: Agent, extra: seq<Option<Env>>, s: SpawnEnv.Spawn)
    requires Valid(a)
    requires s.envs == WithExtra(a, extra) && s.provider == SpawnEnv.Provider(a.model)
    ensures SpawnEnvLayers.NoEquals(s) <==>
            '=' !in SpawnEnv.Provider(a.model) && forall i :: 0 <= i < |extra| && extra[i].Some? ==> '=' !in extra[i].value.key
    ensures '=' !in a.model ==> '=' !in SpawnEnv.Provider(a.model)
  {
    var kept := SpawnEnvLayers.Kept(a.envs, SpawnEnvLayers.KeysOf(extra));
    KeptValid(a.envs, SpawnEnvLayers.KeysOf(extra));
    forall i | 0 <= i < |kept| && kept[i].Some? ensures '=' !in kept[i].value.key {
      ValidPartsSpawn(kept[i].value, Config("a", NoValue, "", false));
    }
    assert forall i :: 0 <= i < |kept| ==> s.envs[i] == kept[i];
    assert forall i :: 0 <= i < |extra| ==> s.envs[|kept| + i] == extra[i];
    if '=' !in a.model { BeforeSlashClean(a.model); }
  }

  lemma {:induction false} BeforeSlashClean(s: string)
    requires '=' !in s
    ensures '=' !in SpawnEnv.BeforeSlash(s)
  {
    if s != "" && s[0] != '/' {
      assert s[0] in s;
      assert forall c :: c in s[1..] ==> c in s;
      BeforeSlashClean(s[1..]);
    }
  }

  // ---------------------------------------------------------------------------------------
  // Overrides do not preserve validity
  // ---------------------------------------------------------------------------------------

  ghost predicate ValidConfigs(cs: seq<Config>) {
    forall i :: 0 <= i < |cs| ==> ValidConfig(cs[i])
  }

  /** The first entry for key is marked required. */
  ghost predicate FirstRequired(cs: seq<Config>, key: string) {
    cs != [] && if cs[0].key == key then cs[0].required else FirstRequired(cs[1..], key)
  }

  lemma {:induction false} OverwriteValid(cs: seq<Config>, values: map<string, string>)
    requires ValidConfigs(cs)
    ensures ValidConfigs(Overwrite(cs, values)) <==> forall k :: k in values ==> !FirstRequired(cs, k)
    decreases cs
  {
    if cs != [] {
      var c, tail := cs[0], cs[1..];
      var rest := if c.key in values then values - {c.key} else values;
      OverwriteValid(tail, rest);
      var head := if c.key in values then c.(value := StringValue(values[c.key])) else c;
      assert Overwrite(cs, values) == [head] + Overwrite(tail, rest);
      ValidCons(head, Overwrite(tail, rest));
      assert forall k :: k in values && k != c.key ==> k in rest;
      assert forall k :: k in rest ==> k in values && k != c.key;
      assert forall k :: k != c.key ==> (FirstRequired(cs, k) <==> FirstRequired(tail, k));
      assert FirstRequired(cs, c.key) <==> c.required;
    }
  }

  lemma ValidCons(c: Config, cs: seq<Config>)
    ensures ValidConfigs([c] + cs) <==> ValidConfig(c) && ValidConfigs(cs)
  {
    var all := [c] + cs;
    assert forall i :: 0 <= i < |cs| ==> all[i + 1] == cs[i];
    if ValidConfigs(all) {
      assert ValidConfig(all[0]);
      forall i | 0 <= i < |cs| ensures ValidConfig(cs[i]) { assert ValidConfig(all[i + 1]); }
    }
  }

  lemma {:induction false} AppendedValid(keys: seq<string>, values: map<string, string>)
    requires forall k :: k in keys ==> k in values
    ensures ValidConfigs(Appended(keys, values)) <==> forall k :: k in keys ==> Label(k)
    decreases keys
  {
    if keys != [] {
      AppendedValid(keys[1..], values);
      ValidCons(Config(keys[0], StringValue(values[keys[0]]), "", false), Appended(keys[1..], values));
      assert forall k :: k in keys <==> k == keys[0] || k in keys[1..];
    }
  }

  /**
   Validate is not stable under WithConfig: the overridden configs are valid exactly when no supplied
   key is one the Agentfile marks required, and every supplied key it does not declare is a label.
   (So validation has to come before the override, as the materialiser does it.)
   */
  lemma OverrideKeepsValid(before: seq<Config>, values: map<string, string>, after: seq<Config>)
    requires ValidConfigs(before) && OverrideOf(before, values, after)
    ensures ValidConfigs(after) <==>
            (forall k :: k in values ==> !FirstRequired(before, k)) &&
            (forall k :: k in values && !Declares(before, k) ==> Label(k))
  {
    var keys :| Lists(keys, Undeclared(before, values).Keys)
                && (forall k :: k in keys ==> k in values)
                && after == Overwrite(before, values) + Appended(keys, values);
    UndeclaredIs(before, values);
    OverwriteValid(before, values);
    AppendedValid(keys, values);
    var a, b := Overwrite(before, values), Appended(keys, values);
    assert forall i :: 0 <= i < |a| ==> after[i] == a[i];
    assert forall i :: 0 <= i < |b| ==> after[|a| + i] == b[i];
    if ValidConfigs(after) {
      forall i | 0 <= i < |a| ensures ValidConfig(a[i]) { assert ValidConfig(after[i]); }
      forall i | 0 <= i < |b| ensures ValidConfig(b[i]) { assert ValidConfig(after[|a| + i]); }
    }
  }
}
