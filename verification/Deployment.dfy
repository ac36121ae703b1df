/**
 From an Agentfile's CONFIG and ENV lines to the running process: validation, deploy-time overrides of
 both, the required gate and the flattening, composed with the spawn environment.
 */
module Deployment {
  import opened Prelude
  import opened AgentSpec
  import opened SortedKeys
  import opened Configs
  import opened SpawnEnv
  import opened SpawnEnvLayers
  import opened Validation

  /** What the CONFIG lines alone say about a key. */
  function Printed(cs: seq<Config>, key: string, show: Printer): Option<string> {
    var v := LastSet(cs, key);
    if v.Some? then Some(show(v.value)) else None
  }

  /** Of the keys that say something and export to the same variable, this is the greatest: the one that counts. */
  ghost predicate Counts(said: string -> Option<string>, key: string) {
    && key != "" && said(key).Some?
    && forall d :: d != "" && d != key && said(d).Some? && ConfigKeyToEnv(d) == ConfigKeyToEnv(key) ==> Less(d, key)
  }

  function Said(cs: seq<Config>, show: Printer): string -> Option<string> {
    key => Printed(cs, key, show)
  }

  /** Among keys that are labels every one counts: no two of them export to the same variable. */
  lemma LabelsCount(said: string -> Option<string>, key: string)
    requires said(key).Some? && forall d :: said(d).Some? ==> LabelKey(d)
    ensures Counts(said, key)
  {
    forall d | d != key && said(d).Some? ensures ConfigKeyToEnv(d) != ConfigKeyToEnv(key) {
      ConfigKeysInjective(d, key);
    }
  }

  lemma CountsExports(cs: seq<Config>, show: Printer, flat: map<string, string>, key: string)
    requires FlatViewOf(flat, cs, show) && Counts(Said(cs, show), key)
    ensures ConfigValueIs(flat, ConfigKeyToEnv(key), Printed(cs, key, show))
  {
    assert Said(cs, show)(key).Some?;
    forall d | d in flat && d != "" && ConfigKeyToEnv(d) == ConfigKeyToEnv(key) && d != key ensures Less(d, key) {
      assert Said(cs, show)(d).Some?;
    }
    assert Exports(flat, key, ConfigKeyToEnv(key));
  }

  /** The variable of a key that counts carries what its lines say, below the user's ENV and above all else. */
  lemma SeenByProcess(cs: seq<Config>, show: Printer, s: Spawn, join: Joiner, env: seq<string>, key: string)
    requires FlatViewOf(s.configs, cs, show) && Counts(Said(cs, show), key)
    requires IsEnvOf(s, join, env)
    ensures Lookup(env, ConfigKeyToEnv(key)) == FirstOf(UserSeen(s.envs, ConfigKeyToEnv(key)), Printed(cs, key, show))
  {
    CountsExports(cs, show, s.configs, key);
    LayeredPrecedence(s, join, env, ConfigKeyToEnv(key));
    assert Said(cs, show)(key).Some?;
  }

  // ---------------------------------------------------------------------------------------
  // The whole way
  // ---------------------------------------------------------------------------------------

  /** What deployment settles a key to, in terms of the agent's own lines and the supplied values. */
  function Settled(cs: seq<Config>, values: map<string, string>, key: string, show: Printer): Option<string> {
    if key in values then Some(Printed(AfterFirst(cs, key), key, show).GetOr(values[key])) else Printed(cs, key, show)
  }

  /** The required keys deployment leaves without a value. */
  ghost predicate LeftUnset(cs: seq<Config>, values: map<string, string>, key: string) {
    Requires(cs, key) &&
    if key in values then LastEntry(AfterFirst(cs, key), key) == Some(NoValue) else LastEntry(cs, key) == Some(NoValue)
  }

  lemma SettledView(before: seq<Config>, values: map<string, string>, after: seq<Config>, key: string, show: Printer)
    requires OverrideOf(before, values, after) && PrintsStrings(show)
    ensures Printed(after, key, show) == Settled(before, values, key, show)
    ensures Missing(after, key) <==> LeftUnset(before, values, key)
  {
    OverrideViews(before, values, after, key);
    OverrideRequires(before, values, after, key);
    if key in values {
      OverrideSatisfiesGate(before, values, after, key);
    } else if Requires(before, key) {
      var i :| 0 <= i < |before| && before[i].key == key && before[i].required;
      assert Declares(before, key);
      LastEntryDeclared(before, key);
    }
  }

  /** A required key that is not left unset is settled. */
  lemma RequiredSettled(before: seq<Config>, values: map<string, string>, key: string, show: Printer)
    requires Requires(before, key) && !LeftUnset(before, values, key)
    ensures Settled(before, values, key, show).Some?
  {
    if key !in values {
      var i :| 0 <= i < |before| && before[i].key == key && before[i].required;
      assert Declares(before, key);
      LastEntryDeclared(before, key);
      LastEntrySet(before, key);
    }
  }

  function SettledBy(a: Agent, values: map<string, string>, show: Printer): string -> Option<string> {
    key => Settled(a.configs, values, key, show)
  }

  /** A validated agent whose supplied values have label keys has no two settled keys that share a variable: all count. */
  lemma ValidKeysCount(a: Agent, values: map<string, string>, show: Printer, key: string)
    requires Valid(a) && forall k :: k in values ==> LabelKey(k)
    requires Settled(a.configs, values, key, show).Some?
    ensures Counts(SettledBy(a, values, show), key)
  {
    forall d | SettledBy(a, values, show)(d).Some? ensures LabelKey(d) {
      if d !in values {
        LastEntrySet(a.configs, d);
        LastEntryDeclared(a.configs, d);
        var i :| 0 <= i < |a.configs| && a.configs[i].key == d;
        ValidPartsSpawn(Env("A", "", ""), a.configs[i]);
      }
    }
    LabelsCount(SettledBy(a, values, show), key);
  }

  /** env gives every settled key that counts its value, unless the user's ENV says something under its variable. */
  ghost predicate Delivers(env: seq<string>, a: Agent, values: map<string, string>, envs: seq<Option<Env>>, show: Printer) {
    forall key :: Counts(SettledBy(a, values, show), key) ==>
      Lookup(env, ConfigKeyToEnv(key)) == FirstOf(UserSeen(envs, ConfigKeyToEnv(key)), Settled(a.configs, values, key, show))
  }

  /** env keeps the locked base, except for what the overrides or the provider smuggle in. */
  ghost predicate KeepsLocked(env: seq<string>, s: Spawn, extra: seq<Option<Env>>, join: Joiner) {
    forall name :: name in LockedKeys ==>
      Lookup(env, name) ==
      FirstOf(UserSeen(extra, name), FirstOf(CredentialSeen(s, name), PairLookup(LockedPairs(s.options, join), name)))
  }

  datatype Deployed = Invalid(part: Part) | Unset(keys: seq<string>) | Running(env: seq<string>)

  /** How the agent is spawned once its CONFIGs are flattened. */
  function SpawnOf(a: Agent, extra: seq<Option<Env>>, flat: map<string, string>, options: EnvOptions,
                   apiKey: string, apiBase: string): Spawn {
    Spawn(options, Provider(a.model), apiKey, apiBase, flat, WithExtra(a, extra))
  }

  /**
   Validate, override CONFIG and ENV, gate, flatten, spawn. An agent is refused exactly when its own
   declarations are invalid or a required key stays unset, and the refusal names the fault or all such
   keys. Run-time ENV overrides never lead to a refusal: the process sees, under the variable of every
   settled key that counts, what the merged ENV says, else the settled value; under a locked name what
   the overrides or the provider smuggle in, else the locked base. Every required key is settled.
   */
  method Deploy(a: Agent, values: map<string, string>, extra: seq<Option<Env>>, show: Printer, options: EnvOptions,
                apiKey: string, apiBase: string, join: Joiner) returns (r: Deployed)
    requires PrintsStrings(show)
    ensures r.Invalid? <==> !Valid(a)
    ensures r.Invalid? ==> Offends(a, r.part)
    ensures r.Unset? <==> Valid(a) && exists k :: LeftUnset(a.configs, values, k)
    ensures r.Unset? ==> forall k :: k in r.keys <==> LeftUnset(a.configs, values, k)
    ensures r.Running? ==> Delivers(r.env, a, values, WithExtra(a, extra), show)
    ensures r.Running? ==> KeepsLocked(r.env, SpawnOf(a, extra, map[], options, apiKey, apiBase), extra, join)
    ensures r.Running? ==> forall k :: Requires(a.configs, k) ==> Settled(a.configs, values, k, show).Some?
  {
    var fault := Validate(a);
    if fault.Some? { return Invalid(fault.value); }
    var list := new ConfigList(a.configs);
    list.WithConfig(values);
    var envs := WithExtraEnvs(a.envs, extra);
    var missing := RequiredConfigsProvided(list.configs);
    forall k ensures Missing(list.configs, k) <==> LeftUnset(a.configs, values, k) {
      SettledView(a.configs, values, list.configs, k, show);
    }
    if missing != [] {
      assert LeftUnset(a.configs, values, missing[0]) by { assert missing[0] in missing; }
      return Unset(missing);
    }
    var flat := Flatten(list.configs, show);
    var s := Spawn(options, Provider(a.model), apiKey, apiBase, flat, envs);
    var env := BuildEnv(s, join);
    forall name | name in LockedKeys
      ensures Lookup(env, name) ==
              FirstOf(UserSeen(extra, name), FirstOf(CredentialSeen(s, name), PairLookup(LockedPairs(s.options, join), name)))
    {
      LockedKeysExactly(s, join, env, name);
      ExtraEnvsOverride(a.envs, extra, name);
      DeclaredNotSmuggled(a, name);
    }
    DeliveredAll(a, values, list.configs, show, s, join, env);
    forall k | Requires(a.configs, k) ensures Settled(a.configs, values, k, show).Some? {
      RequiredSettled(a.configs, values, k, show);
    }
    return Running(env);
  }

  lemma DeliveredAll(a: Agent, values: map<string, string>, after: seq<Config>, show: Printer,
                     s: Spawn, join: Joiner, env: seq<string>)
    requires OverrideOf(a.configs, values, after) && PrintsStrings(show)
    requires FlatViewOf(s.configs, after, show) && IsEnvOf(s, join, env)
    ensures Delivers(env, a, values, s.envs, show)
  {
    forall k ensures Printed(after, k, show) == Settled(a.configs, values, k, show) {
      SettledView(a.configs, values, after, k, show);
    }
    forall key | Counts(SettledBy(a, values, show), key)
      ensures Lookup(env, ConfigKeyToEnv(key)) == FirstOf(UserSeen(s.envs, ConfigKeyToEnv(key)), Settled(a.configs, values, key, show))
    {
      assert forall d :: Said(after, show)(d) == SettledBy(a, values, show)(d);
      SeenByProcess(after, show, s, join, env, key);
    }
  }
}
