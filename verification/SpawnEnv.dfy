/**
 The environment a runtime is spawned with (executor/env.go; executor/system/process.go buildCmdEnv;
 executor/docker/container.go buildEnv): a locked base, provider credentials, the CONFIG export and
 the user's ENV, concatenated. The process sees the last entry for each name.
 */
module SpawnEnv {
  import opened Prelude
  import opened AgentSpec
  import opened SortedKeys

  // ---------------------------------------------------------------------------------------
  // Entries and last-write-wins lookup
  // ---------------------------------------------------------------------------------------

  function Entry(key: string, value: string): string {
    key + "=" + value
  }

  function KeyOf(entry: string): string {
    if entry == "" || entry[0] == '=' then "" else [entry[0]] + KeyOf(entry[1..])
  }

  function ValueOf(entry: string): string {
    if entry == "" then "" else if entry[0] == '=' then entry[1..] else ValueOf(entry[1..])
  }

  function Lookup(env: seq<string>, key: string): Option<string> {
    if env == [] then None
    else
      var later := Lookup(env[1..], key);
      if later.Some? then later
      else if KeyOf(env[0]) == key then Some(ValueOf(env[0])) else None
  }

  /** An entry is read under the part of its key before the first '=': under the whole key, if there is none. */
  lemma {:induction false} EntryParts(key: string, value: string)
    ensures KeyOf(Entry(key, value)) == KeyOf(key)
    ensures '=' !in key ==> KeyOf(key) == key && ValueOf(Entry(key, value)) == value
    decreases |key|
  {
    var e := Entry(key, value);
    if key == "" {
      assert e[0] == '=' && e[1..] == value;
    } else {
      assert e[0] == key[0] && key[0] in key;
      assert e[1..] == Entry(key[1..], value);
      EntryParts(key[1..], value);
      assert key == [key[0]] + key[1..];
    }
  }

  lemma {:induction false} KeyOfAppend(a: string, b: string)
    ensures KeyOf(a + b) == if '=' in a then KeyOf(a) else a + KeyOf(b)
    decreases |a|
  {
    if a == "" {
      assert a + b == b;
    } else {
      assert (a + b)[1..] == a[1..] + b;
      KeyOfAppend(a[1..], b);
      assert a == [a[0]] + a[1..];
    }
  }

  lemma {:induction false} KeyOfPlain(s: string)
    ensures '=' !in KeyOf(s) && KeyOf(s) <= s
    decreases |s|
  {
    if s != "" && s[0] != '=' {
      KeyOfPlain(s[1..]);
      assert s == [s[0]] + s[1..];
    }
  }

  lemma {:induction false} LookupAppend(a: seq<string>, b: seq<string>, key: string)
    ensures Lookup(a + b, key) == if Lookup(b, key).Some? then Lookup(b, key) else Lookup(a, key)
  {
    if a == [] { assert a + b == b; }
    else {
      assert (a + b)[1..] == a[1..] + b;
      LookupAppend(a[1..], b, key);
    }
  }

  // ---------------------------------------------------------------------------------------
  // The locked base
  // ---------------------------------------------------------------------------------------

  datatype EnvOptions = EnvOptions(agentRoot: string, path: string, daemonURL: string, agentToken: string)

  /** filepath.Join, as far as it matters here. */
  type Joiner = (string, string) -> string

  const PathKey := "PATH"
  const HomeKey := "HOME"
  const ConfigHomeKey := "XDG_CONFIG_HOME"
  const CacheHomeKey := "XDG_CACHE_HOME"
  const DataHomeKey := "XDG_DATA_HOME"
  const TmpKey := "TMPDIR"
  const LangKey := "LANG"
  const RootKey := "OTTERS_AGENT_ROOT"
  const DaemonKey := "OTTERSD_URL"
  const TokenKey := "OTTERS_AGENT_TOKEN"

  const LockedKeys: set<string> :=
    {PathKey, HomeKey, ConfigHomeKey, CacheHomeKey, DataHomeKey, TmpKey, LangKey, RootKey, DaemonKey, TokenKey}

  /** The base as (key, value) pairs, in order. */
  function LockedPairs(o: EnvOptions, join: Joiner): seq<(string, string)> {
    var home := join(o.agentRoot, "home");
    [(PathKey, o.path), (HomeKey, home), (ConfigHomeKey, join(home, ".config")), (CacheHomeKey, join(home, ".cache")),
     (DataHomeKey, join(join(home, ".local"), "share")), (TmpKey, join(o.agentRoot, "tmp")), (LangKey, "C.UTF-8"),
     (RootKey, o.agentRoot)]
    + (if o.daemonURL != "" && o.agentToken != "" then [(DaemonKey, o.daemonURL), (TokenKey, o.agentToken)] else [])
  }

  function Entries(pairs: seq<(string, string)>): seq<string> {
    if pairs == [] then [] else [Entry(pairs[0].0, pairs[0].1)] + Entries(pairs[1..])
  }

  function PairLookup(pairs: seq<(string, string)>, key: string): Option<string> {
    if pairs == [] then None
    else
      var later := PairLookup(pairs[1..], key);
      if later.Some? then later else if pairs[0].0 == key then Some(pairs[0].1) else None
  }

  lemma {:induction false} EntriesLookup(pairs: seq<(string, string)>, key: string)
    requires forall i :: 0 <= i < |pairs| ==> '=' !in pairs[i].0
    ensures Lookup(Entries(pairs), key) == PairLookup(pairs, key)
  {
    if pairs != [] {
      EntriesLookup(pairs[1..], key);
      EntryParts(pairs[0].0, pairs[0].1);
      assert Entries(pairs)[1..] == Entries(pairs[1..]);
    }
  }

  /** Something is read under a name exactly when some key is that name up to its first '='. */
  lemma {:induction false} EntriesSeen(pairs: seq<(string, string)>, name: string)
    ensures Lookup(Entries(pairs), name).Some? <==> exists i :: 0 <= i < |pairs| && KeyOf(pairs[i].0) == name
  {
    if pairs != [] {
      EntriesSeen(pairs[1..], name);
      EntryParts(pairs[0].0, pairs[0].1);
      assert Entries(pairs)[1..] == Entries(pairs[1..]);
      if i :| 0 <= i < |pairs[1..]| && KeyOf(pairs[1..][i].0) == name { assert KeyOf(pairs[i + 1].0) == name; }
      if i :| 0 < i < |pairs| && KeyOf(pairs[i].0) == name { assert KeyOf(pairs[1..][i - 1].0) == name; }
    }
  }

  lemma {:induction false} PairLookupIn(pairs: seq<(string, string)>, key: string)
    ensures PairLookup(pairs, key).Some? <==> exists i :: 0 <= i < |pairs| && pairs[i].0 == key
  {
    if pairs != [] {
      PairLookupIn(pairs[1..], key);
      if i :| 0 <= i < |pairs[1..]| && pairs[1..][i].0 == key { assert pairs[i + 1].0 == key; }
      if i :| 0 < i < |pairs| && pairs[i].0 == key { assert pairs[1..][i - 1].0 == key; }
    }
  }

  /** A pair whose key no later pair repeats is the one looked up. */
  lemma {:induction false} PairAt(pairs: seq<(string, string)>, i: nat)
    requires i < |pairs| && forall j :: i < j < |pairs| ==> pairs[j].0 != pairs[i].0
    ensures PairLookup(pairs, pairs[i].0) == Some(pairs[i].1)
  {
    if i > 0 {
      PairAt(pairs[1..], i - 1);
    } else {
      PairLookupIn(pairs[1..], pairs[0].0);
      assert forall j :: 0 <= j < |pairs[1..]| ==> pairs[1..][j] == pairs[j + 1];
    }
  }

  /** The base has ten names, none of them twice. */
  lemma LockedNames(o: EnvOptions, join: Joiner)
    ensures var names := ["PATH", "HOME", "XDG_CONFIG_HOME", "XDG_CACHE_HOME", "XDG_DATA_HOME", "TMPDIR", "LANG",
                          "OTTERS_AGENT_ROOT", "OTTERSD_URL", "OTTERS_AGENT_TOKEN"];
            var pairs := LockedPairs(o, join);
            && |pairs| == (if o.daemonURL != "" && o.agentToken != "" then 10 else 8)
            && (forall i :: 0 <= i < |pairs| ==> pairs[i].0 == names[i])
            && (forall i, j :: 0 <= i < j < |names| ==> names[i] != names[j])
  {
  }

  /** What the base holds under each of its names. */
  lemma LockedValues(o: EnvOptions, join: Joiner)
    ensures var base, home := Entries(LockedPairs(o, join)), join(o.agentRoot, "home");
            && Lookup(base, "PATH") == Some(o.path)
            && Lookup(base, "HOME") == Some(home)
            && Lookup(base, "XDG_CONFIG_HOME") == Some(join(home, ".config"))
            && Lookup(base, "XDG_CACHE_HOME") == Some(join(home, ".cache"))
            && Lookup(base, "XDG_DATA_HOME") == Some(join(join(home, ".local"), "share"))
            && Lookup(base, "TMPDIR") == Some(join(o.agentRoot, "tmp"))
            && Lookup(base, "LANG") == Some("C.UTF-8")
            && Lookup(base, "OTTERS_AGENT_ROOT") == Some(o.agentRoot)
            && (o.daemonURL != "" && o.agentToken != "" ==>
                  Lookup(base, "OTTERSD_URL") == Some(o.daemonURL) && Lookup(base, "OTTERS_AGENT_TOKEN") == Some(o.agentToken))
  {
    LockedNames(o, join);
    var pairs := LockedPairs(o, join);
    forall i | 0 <= i < |pairs| ensures Lookup(Entries(pairs), pairs[i].0) == Some(pairs[i].1) {
      LockedAt(o, join, i);
    }
    assert pairs[0].0 == "PATH" && pairs[1].0 == "HOME" && pairs[2].0 == "XDG_CONFIG_HOME" && pairs[3].0 == "XDG_CACHE_HOME";
    assert pairs[4].0 == "XDG_DATA_HOME" && pairs[5].0 == "TMPDIR" && pairs[6].0 == "LANG" && pairs[7].0 == "OTTERS_AGENT_ROOT";
    if |pairs| == 10 { assert pairs[8].0 == "OTTERSD_URL" && pairs[9].0 == "OTTERS_AGENT_TOKEN"; }
  }

  lemma LockedAt(o: EnvOptions, join: Joiner, i: nat)
    requires i < |LockedPairs(o, join)|
    ensures var pairs := LockedPairs(o, join); Lookup(Entries(pairs), pairs[i].0) == Some(pairs[i].1)
  {
    LockedNames(o, join);
    var pairs := LockedPairs(o, join);
    EntriesLookup(pairs, pairs[i].0);
    PairAt(pairs, i);
  }

  // ---------------------------------------------------------------------------------------
  // Credentials
  // ---------------------------------------------------------------------------------------

  function ToUpper(s: string): (u: string)
    ensures |u| == |s|
  {
    if s == "" then "" else [UpperChar(s[0])] + ToUpper(s[1..])
  }

  function UpperChar(c: char): char {
    if 'a' <= c <= 'z' then c - 'a' + 'A' else c
  }

  /** The provider is what precedes the first slash, when that is not empty. */
  function Provider(model: string): string {
    if '/' in model then BeforeSlash(model) else ""
  }

  function BeforeSlash(s: string): string {
    if s == "" || s[0] == '/' then "" else [s[0]] + BeforeSlash(s[1..])
  }

  function CredentialPairs(provider: string, apiKey: string, apiBase: string): seq<(string, string)> {
    if provider == "" then []
    else
      (if apiKey != "" then [(ToUpper(provider) + "_API_KEY", apiKey)] else [])
      + (if apiBase != "" then [(ToUpper(provider) + "_API_BASE", apiBase)] else [])
  }

  const Lower := "abcdefghijklmnopqrstuvwxyz"
  const Upper := "ABCDEFGHIJKLMNOPQRSTUVWXYZ"

  /** The n-th letters of both alphabets. */
  lemma Letters(n: nat)
    requires n < 26
    ensures |Lower| == |Upper| == 26
    ensures Lower[n] == 'a' + n as char && Upper[n] == 'A' + n as char
  {
    assert n == 0 || n == 1 || n == 2 || n == 3 || n == 4 || n == 5 || n == 6 || n == 7 || n == 8 || n == 9 || n == 10
        || n == 11 || n == 12 || n == 13 || n == 14 || n == 15 || n == 16 || n == 17 || n == 18 || n == 19 || n == 20
        || n == 21 || n == 22 || n == 23 || n == 24 || n == 25;
  }

  /** u is c, or the capital of the small letter c. */
  ghost predicate Capital(c: char, u: char) {
    if exists n :: 0 <= n < |Lower| && c == Lower[n] then exists n :: 0 <= n < |Lower| && c == Lower[n] && u == Upper[n]
    else u == c
  }

  lemma UpperCharIs(c: char)
    ensures Capital(c, UpperChar(c))
  {
    if 'a' <= c <= 'z' {
      var n := c as int - 'a' as int;
      Letters(n);
      assert c == Lower[n] && UpperChar(c) == Upper[n];
    } else {
      forall n | 0 <= n < |Lower| ensures c != Lower[n] { Letters(n); }
    }
  }

  /** Upper-casing replaces each small letter by its capital and nothing else. */
  lemma {:induction false} ToUpperIs(s: string, i: nat)
    requires i < |s|
    ensures Capital(s[i], ToUpper(s)[i])
  {
    if i == 0 { UpperCharIs(s[0]); } else { ToUpperIs(s[1..], i - 1); }
  }

  /** A model names a provider exactly if a slash follows it directly and none precedes. */
  lemma ProviderExactly(model: string, provider: string)
    requires provider != ""
    ensures Provider(model) == provider <==> exists rest :: model == provider + "/" + rest && '/' !in provider
  {
    if rest :| model == provider + "/" + rest && '/' !in provider {
      BeforeSlashIs(provider, rest);
    }
    if Provider(model) == provider {
      var rest := BeforeSlashSplits(model);
      assert model == provider + "/" + rest;
    }
  }

  lemma {:induction false} BeforeSlashIs(a: string, rest: string)
    requires '/' !in a
    ensures BeforeSlash(a + "/" + rest) == a && '/' in a + "/" + rest
    decreases |a|
  {
    var s := a + "/" + rest;
    assert s[|a|] == '/';
    if a != "" {
      assert a[0] in a && s[1..] == a[1..] + "/" + rest;
      BeforeSlashIs(a[1..], rest);
      assert a == [a[0]] + a[1..];
    }
  }

  lemma {:induction false} BeforeSlashSplits(s: string) returns (rest: string)
    requires '/' in s
    ensures s == BeforeSlash(s) + "/" + rest && '/' !in BeforeSlash(s)
  {
    if s[0] == '/' {
      rest := s[1..];
    } else {
      rest := BeforeSlashSplits(s[1..]);
      assert s == [s[0]] + s[1..];
    }
  }

  lemma {:induction false} ToUpperOf(s: string, u: string)
    requires |u| == |s| && forall i :: 0 <= i < |s| ==> u[i] == UpperChar(s[i])
    ensures ToUpper(s) == u
  {
    if s != "" {
      ToUpperOf(s[1..], u[1..]);
      assert u == [u[0]] + u[1..];
    }
  }

  lemma AnthropicUpper(provider: string)
    requires provider == "anthropic"
    ensures ToUpper(provider) == "ANTHROPIC"
  {
    ToUpperOf(provider, "ANTHROPIC");
  }

  /** For instance, a model anthropic/... makes the credentials ANTHROPIC_API_KEY and ANTHROPIC_API_BASE. */
  lemma AnthropicCredentials(provider: string, rest: string, apiKey: string, apiBase: string)
    requires provider == "anthropic" && apiKey != "" && apiBase != ""
    ensures CredentialPairs(Provider(provider + "/" + rest), apiKey, apiBase) ==
            [("ANTHROPIC_API_KEY", apiKey), ("ANTHROPIC_API_BASE", apiBase)]
  {
    ProviderExactly(provider + "/" + rest, provider);
    AnthropicUpper(provider);
    assert "ANTHROPIC" + "_API_KEY" == "ANTHROPIC_API_KEY" && "ANTHROPIC" + "_API_BASE" == "ANTHROPIC_API_BASE";
  }

  // ---------------------------------------------------------------------------------------
  // The CONFIG export
  // ---------------------------------------------------------------------------------------

  const ConfigPrefix := "RUNTIME_"

  function EnvChar(c: char): char {
    if 'a' <= c <= 'z' then c - 'a' + 'A'
    else if 'A' <= c <= 'Z' || '0' <= c <= '9' then c
    else '_'
  }

  function EnvChars(key: string): (r: string)
    ensures |r| == |key| && forall i :: 0 <= i < |key| ==> r[i] == EnvChar(key[i])
  {
    seq(|key|, i requires 0 <= i < |key| => EnvChar(key[i]))
  }

  function ConfigKeyToEnv(key: string): string {
    ConfigPrefix + EnvChars(key)
  }

  /** The variable's name is RUNTIME_ and, per character of the key, a capital, a digit or an underscore. */
  lemma ConfigKeyIs(key: string, i: nat)
    requires i < |key|
    ensures var name := ConfigKeyToEnv(key);
            && |name| == 8 + |key| && name[..8] == "RUNTIME_"
            && (key[i] in Lower ==> Capital(key[i], name[8 + i]))
            && ('A' <= key[i] <= 'Z' || '0' <= key[i] <= '9' ==> name[8 + i] == key[i])
            && (key[i] !in Lower && !('A' <= key[i] <= 'Z') && !('0' <= key[i] <= '9') ==> name[8 + i] == '_')
  {
    var c := key[i];
    UpperCharIs(c);
    if 'a' <= c <= 'z' { Letters(c as int - 'a' as int); }
    if n :| 0 <= n < |Lower| && Lower[n] == c { Letters(n); }
  }

  method BuildConfigKey(key: string) returns (name: string)
    ensures name == ConfigKeyToEnv(key)
  {
    name := ConfigPrefix;
    for i := 0 to |key|
      invariant name == ConfigPrefix + EnvChars(key)[..i]
    {
      assert EnvChars(key)[..i + 1] == EnvChars(key)[..i] + [EnvChars(key)[i]];
      if 'a' <= key[i] <= 'z' {
        name := name + [key[i] - 'a' + 'A'];
      } else if 'A' <= key[i] <= 'Z' || '0' <= key[i] <= '9' {
        name := name + [key[i]];
      } else {
        name := name + "_";
      }
    }
    assert EnvChars(key)[..|key|] == EnvChars(key);
  }

  /** A DNS-1123 label's alphabet (RFC 1123, section 2.1): lowercase letters, digits and '-'. */
  predicate LabelKey(key: string) {
    key != "" && forall i :: 0 <= i < |key| ==> 'a' <= key[i] <= 'z' || '0' <= key[i] <= '9' || key[i] == '-'
  }

  lemma LabelCharsInjective(c: char, d: char)
    requires 'a' <= c <= 'z' || '0' <= c <= '9' || c == '-'
    requires 'a' <= d <= 'z' || '0' <= d <= '9' || d == '-'
    ensures EnvChar(c) == EnvChar(d) <==> c == d
  {
  }

  /** Two label keys never export to the same variable. */
  lemma ConfigKeysInjective(a: string, b: string)
    requires LabelKey(a) && LabelKey(b)
    ensures ConfigKeyToEnv(a) == ConfigKeyToEnv(b) <==> a == b
  {
    if ConfigKeyToEnv(a) == ConfigKeyToEnv(b) {
      var n := |ConfigPrefix|;
      assert ConfigKeyToEnv(a)[n..] == EnvChars(a) && ConfigKeyToEnv(b)[n..] == EnvChars(b);
      assert EnvChars(a) == EnvChars(b);
      forall i | 0 <= i < |a| ensures a[i] == b[i] {
        assert EnvChars(a)[i] == EnvChars(b)[i];
        LabelCharsInjective(a[i], b[i]);
      }
    }
  }

  function ConfigPairs(keys: seq<string>, configs: map<string, string>): seq<(string, string)>
    requires forall k :: k in keys ==> k in configs
  {
    if keys == [] then [] else [(ConfigKeyToEnv(keys[0]), configs[keys[0]])] + ConfigPairs(keys[1..], configs)
  }

  ghost predicate ConfigListing(keys: seq<string>, configs: map<string, string>) {
    Lists(keys, configs.Keys - {""})
  }

  /** env is base followed by one entry per non-empty key, in sorted order. */
  ghost predicate ConfigsAppended(base: seq<string>, configs: map<string, string>, env: seq<string>) {
    exists keys :: ConfigListing(keys, configs) && (forall k :: k in keys ==> k in configs)
                   && env == base + Entries(ConfigPairs(keys, configs))
  }

  method AppendConfigEnv(base: seq<string>, configs: map<string, string>) returns (env: seq<string>)
    ensures ConfigsAppended(base, configs, env)
  {
    var keys := SortKeys(configs.Keys - {""});
    assert forall k :: k in keys ==> k in configs;
    env := base;
    assert keys[0..] == keys;
    for i := 0 to |keys|
      invariant env + Entries(ConfigPairs(keys[i..], configs)) == base + Entries(ConfigPairs(keys, configs))
    {
      assert keys[i..][1..] == keys[i + 1..];
      var pairs := ConfigPairs(keys[i..], configs);
      assert pairs[1..] == ConfigPairs(keys[i + 1..], configs);
      var name := BuildConfigKey(keys[i]);
      assert keys[i] in keys;
      env := env + [Entry(name, configs[keys[i]])];
    }
    assert keys[|keys|..] == [];
    assert env == base + Entries(ConfigPairs(keys, configs));
  }

  /** c is the key whose value the variable takes: the last, in sorted order, that exports to it. */
  ghost predicate Exports(configs: map<string, string>, c: string, name: string) {
    && c in configs && c != "" && ConfigKeyToEnv(c) == name
    && forall d :: d in configs && d != "" && ConfigKeyToEnv(d) == name && d != c ==> Less(d, c)
  }

  /** If the first of the sorted keys is the greatest that exports to name, it is the only one. */
  lemma NoneAfterGreatest(keys: seq<string>, name: string)
    requires Increasing(keys) && keys != []
    requires forall d :: d in keys && ConfigKeyToEnv(d) == name && d != keys[0] ==> Less(d, keys[0])
    ensures forall d :: d in keys[1..] ==> ConfigKeyToEnv(d) != name
  {
    forall d | d in keys[1..] ensures ConfigKeyToEnv(d) != name {
      var i :| 1 <= i < |keys| && keys[i] == d;
      assert Less(keys[0], keys[i]);
      LessTotal(keys[0], d);
    }
  }

  lemma {:induction false} ConfigPairsLookup(keys: seq<string>, configs: map<string, string>, name: string)
    requires Increasing(keys) && forall k :: k in keys ==> k in configs
    ensures PairLookup(ConfigPairs(keys, configs), name).None? ==> forall k :: k in keys ==> ConfigKeyToEnv(k) != name
    ensures forall c | c in keys && ConfigKeyToEnv(c) == name &&
                       (forall d :: d in keys && ConfigKeyToEnv(d) == name && d != c ==> Less(d, c)) ::
              PairLookup(ConfigPairs(keys, configs), name) == Some(configs[c])
    ensures PairLookup(ConfigPairs(keys, configs), name).Some? ==> exists c :: c in keys && ConfigKeyToEnv(c) == name
    decreases keys
  {
    if keys != [] {
      var head, tail := keys[0], keys[1..];
      assert keys == [head] + tail;
      assert ConfigPairs(keys, configs)[1..] == ConfigPairs(tail, configs);
      ConfigPairsLookup(tail, configs, name);
      forall c | c in keys && ConfigKeyToEnv(c) == name &&
                 (forall d :: d in keys && ConfigKeyToEnv(d) == name && d != c ==> Less(d, c))
        ensures PairLookup(ConfigPairs(keys, configs), name) == Some(configs[c])
      {
        if c !in tail { NoneAfterGreatest(keys, name); }
      }
    }
  }

  // ---------------------------------------------------------------------------------------
  // The user's ENV
  // ---------------------------------------------------------------------------------------

  predicate IsReservedEnvKey(key: string) {
    key in LockedKeys || HasSuffix(key, "_API_KEY") || HasSuffix(key, "_API_BASE")
  }

  lemma ReservedExactly(key: string)
    ensures IsReservedEnvKey(key) <==>
            || key in {"PATH", "HOME", "XDG_CONFIG_HOME", "XDG_CACHE_HOME", "XDG_DATA_HOME", "TMPDIR", "LANG",
                       "OTTERS_AGENT_ROOT", "OTTERSD_URL", "OTTERS_AGENT_TOKEN"}
            || (exists name :: key == name + "_API_KEY") || exists name :: key == name + "_API_BASE"
  {
    SuffixIs(key, "_API_KEY");
    SuffixIs(key, "_API_BASE");
  }

  lemma SuffixIs(s: string, suffix: string)
    ensures HasSuffix(s, suffix) <==> exists front :: s == front + suffix
  {
    if HasSuffix(s, suffix) { assert s == s[..|s| - |suffix|] + suffix; }
    if front :| s == front + suffix { assert s[|s| - |suffix|..] == suffix; }
  }

  /** The pair an entry contributes, if it is neither nil, unnamed nor reserved. */
  function UserPair(e: Option<Env>): seq<(string, string)> {
    if e.None? || e.value.key == "" || IsReservedEnvKey(e.value.key) then [] else [(e.value.key, e.value.value)]
  }

  function UserPairs(envs: seq<Option<Env>>): seq<(string, string)> {
    if envs == [] then [] else UserPair(envs[0]) + UserPairs(envs[1..])
  }

  /** The reserved name an entry tried to set, if any. */
  function Refused(e: Option<Env>): seq<string> {
    if e.Some? && e.value.key != "" && IsReservedEnvKey(e.value.key) then [e.value.key] else []
  }

  function Skipped(envs: seq<Option<Env>>): seq<string> {
    if envs == [] then [] else Refused(envs[0]) + Skipped(envs[1..])
  }

  lemma {:induction false} EntriesAppend(a: seq<(string, string)>, b: seq<(string, string)>)
    ensures Entries(a + b) == Entries(a) + Entries(b)
  {
    if a == [] { assert a + b == b; }
    else {
      assert (a + b)[1..] == a[1..] + b;
      EntriesAppend(a[1..], b);
    }
  }

  lemma UserNext(envs: seq<Option<Env>>, i: nat)
    requires i < |envs|
    ensures Entries(UserPairs(envs[i..])) == Entries(UserPair(envs[i])) + Entries(UserPairs(envs[i + 1..]))
    ensures Skipped(envs[i..]) == Refused(envs[i]) + Skipped(envs[i + 1..])
  {
    assert envs[i..][1..] == envs[i + 1..];
    EntriesAppend(UserPair(envs[i]), UserPairs(envs[i + 1..]));
  }

  lemma Regroup(a: seq<string>, b: seq<string>, c: seq<string>)
    ensures (a + b) + c == a + (b + c)
  {
  }

  lemma EntriesOne(key: string, value: string)
    ensures Entries([(key, value)]) == [Entry(key, value)]
  {
    assert [(key, value)][1..] == [];
  }

  method AppendUserEnv(base: seq<string>, envs: seq<Option<Env>>) returns (env: seq<string>, skipped: seq<string>)
    ensures env == base + Entries(UserPairs(envs))
    ensures skipped == Skipped(envs)
  {
    env, skipped := base, [];
    assert envs[0..] == envs;
    for i := 0 to |envs|
      invariant env + Entries(UserPairs(envs[i..])) == base + Entries(UserPairs(envs))
      invariant skipped + Skipped(envs[i..]) == Skipped(envs)
    {
      UserNext(envs, i);
      Regroup(env, Entries(UserPair(envs[i])), Entries(UserPairs(envs[i + 1..])));
      Regroup(skipped, Refused(envs[i]), Skipped(envs[i + 1..]));
      env, skipped := AppendOne(env, skipped, envs[i]);
    }
    assert envs[|envs|..] == [];
  }

  /** The switch inside the loop. */
  method AppendOne(env: seq<string>, skipped: seq<string>, e: Option<Env>) returns (env': seq<string>, skipped': seq<string>)
    ensures env' == env + Entries(UserPair(e))
    ensures skipped' == skipped + Refused(e)
  {
    env', skipped' := env, skipped;
    if e.None? || e.value.key == "" {
      return;
    } else if IsReservedEnvKey(e.value.key) {
      skipped' := skipped + [e.value.key];
    } else {
      EntriesOne(e.value.key, e.value.value);
      env' := env + [Entry(e.value.key, e.value.value)];
    }
  }

  // ---------------------------------------------------------------------------------------
  // Assembly
  // ---------------------------------------------------------------------------------------

  datatype Spawn = Spawn(
    options: EnvOptions, provider: string, apiKey: string, apiBase: string,
    configs: map<string, string>, envs: seq<Option<Env>>)

  function Assembled(s: Spawn, keys: seq<string>, join: Joiner): seq<string>
    requires forall k :: k in keys ==> k in s.configs
  {
    Entries(LockedPairs(s.options, join)) + Entries(CredentialPairs(s.provider, s.apiKey, s.apiBase))
    + Entries(ConfigPairs(keys, s.configs)) + Entries(UserPairs(s.envs))
  }

  ghost predicate IsEnvOf(s: Spawn, join: Joiner, env: seq<string>) {
    exists keys :: ConfigListing(keys, s.configs) && (forall k :: k in keys ==> k in s.configs)
                   && env == Assembled(s, keys, join)
  }

  /** Both executors build the list in this order. */
  method BuildEnv(s: Spawn, join: Joiner) returns (env: seq<string>)
    ensures IsEnvOf(s, join, env)
  {
    env := Entries(LockedPairs(s.options, join));
    env := env + Entries(CredentialPairs(s.provider, s.apiKey, s.apiBase));
    ghost var base := env;
    env := AppendConfigEnv(env, s.configs);
    ghost var keys :| ConfigListing(keys, s.configs) && (forall k :: k in keys ==> k in s.configs)
                      && env == base + Entries(ConfigPairs(keys, s.configs));
    var skipped: seq<string>;
    env, skipped := AppendUserEnv(env, s.envs);
    assert env == Assembled(s, keys, join);
  }

  const UnixScheme := "unix://"
  const ContainerSocket := "/run/ottersd.sock"
  const DockerHost := "host.docker.internal"

  function Contains(s: string, sub: string): bool {
    HasPrefix(s, sub) || (s != "" && Contains(s[1..], sub))
  }

  /** How the container reaches the daemon: its URL, a socket to bind, a host mapping. */
  datatype DaemonAccess = DaemonAccess(url: string, socketSource: Option<string>, extraHost: string)

  function AccessDaemon(url: string): DaemonAccess {
    if url == "" then DaemonAccess("", None, "")
    else if HasPrefix(url, UnixScheme) then DaemonAccess(UnixScheme + ContainerSocket, Some(url[|UnixScheme|..]), "")
    else if Contains(url, DockerHost) then DaemonAccess(url, None, DockerHost + ":host-gateway")
    else DaemonAccess(url, None, "")
  }
}
