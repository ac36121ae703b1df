/** The assembled spawn environment, seen through last-write-wins lookup, is layered precedence. */
module SpawnEnvLayers {
  import opened Prelude
  import opened AgentSpec
  import opened SortedKeys
  import opened SpawnEnv

  /** The entry, if admitted, is read under this name. */
  predicate ReadAs(e: Option<Env>, name: string) {
    UserPair(e) != [] && KeyOf(e.value.key) == name
  }

  /** What the user's ENV says under a name: the last admitted entry that is read under it. */
  function UserSeen(envs: seq<Option<Env>>, name: string): Option<string> {
    if envs == [] then None
    else
      var later := UserSeen(envs[1..], name);
      if later.Some? then later
      else if ReadAs(envs[0], name) then Some(ValueOf(Entry(envs[0].value.key, envs[0].value.value))) else None
  }

  /** What the provider's credentials say under a name. */
  function CredentialSeen(s: Spawn, name: string): Option<string> {
    Lookup(Entries(CredentialPairs(s.provider, s.apiKey, s.apiBase)), name)
  }

  /** The exported CONFIG value for a name. */
  ghost predicate ConfigValueIs(configs: map<string, string>, name: string, v: Option<string>) {
    if v.Some? then exists c :: Exports(configs, c, name) && configs[c] == v.value
    else forall c :: c in configs && c != "" ==> ConfigKeyToEnv(c) != name
  }

  /** What validation guarantees of the agent's own ENV keys, and what a provider name normally is. */
  ghost predicate NoEquals(s: Spawn) {
    && '=' !in s.provider
    && forall i :: 0 <= i < |s.envs| && s.envs[i].Some? ==> '=' !in s.envs[i].value.key
  }

  ghost predicate KeysClean(pairs: seq<(string, string)>) {
    forall i :: 0 <= i < |pairs| ==> '=' !in pairs[i].0
  }

  lemma {:induction false} UserLayer(envs: seq<Option<Env>>, name: string)
    ensures Lookup(Entries(UserPairs(envs)), name) == UserSeen(envs, name)
  {
    if envs != [] {
      UserLayer(envs[1..], name);
      EntriesAppend(UserPair(envs[0]), UserPairs(envs[1..]));
      if UserPair(envs[0]) != [] {
        var key, value := envs[0].value.key, envs[0].value.value;
        EntriesOne(key, value);
        EntryParts(key, value);
        assert ([Entry(key, value)] + Entries(UserPairs(envs[1..])))[1..] == Entries(UserPairs(envs[1..]));
      } else {
        assert [] + Entries(UserPairs(envs[1..])) == Entries(UserPairs(envs[1..]));
      }
    }
  }

  /** The user's ENV says something under a name exactly when an admitted entry is read under it. */
  lemma {:induction false} UserSeenExactly(envs: seq<Option<Env>>, name: string)
    ensures UserSeen(envs, name).Some? <==> exists i :: 0 <= i < |envs| && ReadAs(envs[i], name)
  {
    if envs != [] {
      UserSeenExactly(envs[1..], name);
      if i :| 0 <= i < |envs[1..]| && ReadAs(envs[1..][i], name) { assert ReadAs(envs[i + 1], name); }
      if i :| 0 < i < |envs| && ReadAs(envs[i], name) { assert ReadAs(envs[1..][i - 1], name); }
    }
  }

  lemma {:induction false} ConfigPairsClean(keys: seq<string>, configs: map<string, string>)
    requires forall k :: k in keys ==> k in configs
    ensures KeysClean(ConfigPairs(keys, configs))
    decreases keys
  {
    if keys != [] {
      ConfigPairsClean(keys[1..], configs);
      var name := ConfigKeyToEnv(keys[0]);
      assert forall i :: |ConfigPrefix| <= i < |name| ==> name[i] == EnvChar(keys[0][i - |ConfigPrefix|]);
      assert '=' !in ConfigPrefix;
      assert '=' !in name;
    }
  }

  lemma {:induction false} UpperEquals(s: string)
    ensures '=' in ToUpper(s) <==> '=' in s
  {
    if s != "" {
      UpperEquals(s[1..]);
      assert s == [s[0]] + s[1..];
    }
  }

  lemma LockedClean(o: EnvOptions, join: Joiner)
    ensures KeysClean(LockedPairs(o, join))
  {
  }

  lemma GreatestExporter(s: seq<string>, configs: map<string, string>, name: string, c: string)
    requires Increasing(s) && c in s && ConfigKeyToEnv(c) == name
    requires forall k :: k in s <==> k in configs && k != ""
    ensures exists g :: Exports(configs, g, name)
    decreases |s|
  {
    var i := |s| - 1;
    while ConfigKeyToEnv(s[i]) != name
      invariant 0 <= i < |s|
      invariant forall j :: i < j < |s| ==> ConfigKeyToEnv(s[j]) != name
      invariant exists j :: 0 <= j <= i && ConfigKeyToEnv(s[j]) == name
      decreases i
    {
      i := i - 1;
    }
    forall d | d in configs && d != "" && ConfigKeyToEnv(d) == name && d != s[i] ensures Less(d, s[i]) {
      assert d in s;
      var j :| 0 <= j < |s| && s[j] == d;
    }
    assert s[i] in s;
    assert Exports(configs, s[i], name);
  }

  lemma ConfigLayer(keys: seq<string>, configs: map<string, string>, name: string)
    requires ConfigListing(keys, configs) && forall k :: k in keys ==> k in configs
    ensures ConfigValueIs(configs, name, PairLookup(ConfigPairs(keys, configs), name))
  {
    ConfigPairsLookup(keys, configs, name);
    var v := PairLookup(ConfigPairs(keys, configs), name);
    assert forall k :: k in keys <==> k in configs && k != "";
    if v.Some? {
      var c :| c in keys && ConfigKeyToEnv(c) == name;
      GreatestExporter(keys, configs, name, c);
      var g :| Exports(configs, g, name);
      assert g in keys;
      assert v == Some(configs[g]);
    }
  }

  function FirstOf(a: Option<string>, b: Option<string>): Option<string> {
    if a.Some? then a else b
  }

  /**
   MAIN THEOREM. For every name, whatever the keys and the provider look like, the process sees what
   the user's ENV says under it, else the CONFIG export, else the provider's credentials, else the
   locked base.
   */
  lemma LayeredPrecedence(s: Spawn, join: Joiner, env: seq<string>, name: string)
    requires IsEnvOf(s, join, env)
    ensures exists config :: ConfigValueIs(s.configs, name, config)
    ensures forall config :: ConfigValueIs(s.configs, name, config) ==>
              Lookup(env, name) ==
              FirstOf(UserSeen(s.envs, name),
              FirstOf(config,
              FirstOf(CredentialSeen(s, name), PairLookup(LockedPairs(s.options, join), name))))
  {
    var keys :| ConfigListing(keys, s.configs) && (forall k :: k in keys ==> k in s.configs)
                && env == Assembled(s, keys, join);
    LayersByLookup(s, keys, join, name);
    UserLayer(s.envs, name);
    ConfigLayer(keys, s.configs, name);
    var exported := PairLookup(ConfigPairs(keys, s.configs), name);
    forall config | ConfigValueIs(s.configs, name, config) ensures config == exported {
      ConfigValueUnique(s.configs, name, config, exported);
    }
  }

  lemma ConfigValueUnique(configs: map<string, string>, name: string, v: Option<string>, w: Option<string>)
    requires ConfigValueIs(configs, name, v) && ConfigValueIs(configs, name, w)
    ensures v == w
  {
    if v.Some? && w.Some? {
      var c :| Exports(configs, c, name) && configs[c] == v.value;
      var d :| Exports(configs, d, name) && configs[d] == w.value;
      LessTotal(c, d);
    }
  }

  lemma LayersByLookup(s: Spawn, keys: seq<string>, join: Joiner, name: string)
    requires forall k :: k in keys ==> k in s.configs
    ensures Lookup(Assembled(s, keys, join), name) ==
            FirstOf(Lookup(Entries(UserPairs(s.envs)), name),
            FirstOf(PairLookup(ConfigPairs(keys, s.configs), name),
            FirstOf(CredentialSeen(s, name), PairLookup(LockedPairs(s.options, join), name))))
  {
    var l, c := Entries(LockedPairs(s.options, join)), Entries(CredentialPairs(s.provider, s.apiKey, s.apiBase));
    var g, u := Entries(ConfigPairs(keys, s.configs)), Entries(UserPairs(s.envs));
    LockedClean(s.options, join);
    ConfigPairsClean(keys, s.configs);
    EntriesLookup(LockedPairs(s.options, join), name);
    EntriesLookup(ConfigPairs(keys, s.configs), name);
    LookupAppend(l + c + g, u, name);
    LookupAppend(l + c, g, name);
    LookupAppend(l, c, name);
  }

  // ---------------------------------------------------------------------------------------
  // Consequences
  // ---------------------------------------------------------------------------------------

  /** A reserved name can only be read off a key that goes on with '='. */
  lemma ReservedNotSeen(s: Spawn, name: string)
    requires NoEquals(s) && IsReservedEnvKey(name)
    ensures UserSeen(s.envs, name).None?
  {
    UserSeenExactly(s.envs, name);
    forall i | 0 <= i < |s.envs| ensures !ReadAs(s.envs[i], name) {
      if s.envs[i].Some? { EntryParts(s.envs[i].value.key, ""); }
    }
  }

  lemma NotExported(configs: map<string, string>, name: string)
    requires !HasPrefix(name, ConfigPrefix)
    ensures ConfigValueIs(configs, name, None)
  {
    forall c | c in configs && c != "" ensures ConfigKeyToEnv(c) != name {
      assert ConfigKeyToEnv(c)[..|ConfigPrefix|] == ConfigPrefix;
    }
  }

  lemma LockedNotExported(name: string)
    requires name in LockedKeys
    ensures !HasPrefix(name, ConfigPrefix)
  {
    assert name[0] != 'R';
    PrefixChars(name, ConfigPrefix);
  }

  lemma LockedNotCredential(name: string, prefix: string)
    requires name in LockedKeys
    ensures name != prefix + "_API_KEY" && name != prefix + "_API_BASE"
  {
    var k, b := prefix + "_API_KEY", prefix + "_API_BASE";
    assert k[|k| - 1] == 'Y' && b[|b| - 1] == 'E' && b[|b| - 2] == 'S';
    assert name[|name| - 1] != 'Y' && (name[|name| - 1] == 'E' ==> name[|name| - 2] == 'M');
  }

  /** What a credential's variable is read as. */
  lemma CredentialNames(provider: string)
    ensures KeyOf(ToUpper(provider) + "_API_KEY") ==
            if '=' in provider then KeyOf(ToUpper(provider)) else ToUpper(provider) + "_API_KEY"
    ensures KeyOf(ToUpper(provider) + "_API_BASE") ==
            if '=' in provider then KeyOf(ToUpper(provider)) else ToUpper(provider) + "_API_BASE"
  {
    CredentialName(provider, "_API_KEY");
    CredentialName(provider, "_API_BASE");
  }

  lemma CredentialName(provider: string, suffix: string)
    requires '=' !in suffix
    ensures KeyOf(ToUpper(provider) + suffix) ==
            if '=' in provider then KeyOf(ToUpper(provider)) else ToUpper(provider) + suffix
  {
    UpperEquals(provider);
    KeyOfAppend(ToUpper(provider), suffix);
    EntryParts(suffix, "");
  }

  lemma CredentialKeys(s: Spawn, name: string)
    ensures CredentialSeen(s, name).Some? <==>
            s.provider != "" &&
            ((s.apiKey != "" && KeyOf(ToUpper(s.provider) + "_API_KEY") == name) ||
             (s.apiBase != "" && KeyOf(ToUpper(s.provider) + "_API_BASE") == name))
  {
    var pairs, up := CredentialPairs(s.provider, s.apiKey, s.apiBase), ToUpper(s.provider);
    EntriesSeen(pairs, name);
    if s.provider != "" {
      if s.apiKey != "" { assert pairs[0].0 == up + "_API_KEY"; }
      if s.apiBase != "" { assert pairs[|pairs| - 1].0 == up + "_API_BASE"; }
    }
  }

  /** The credentials are read under a locked name exactly when the provider starts with it and an '='. */
  lemma LockedCredential(s: Spawn, name: string)
    requires name in LockedKeys
    ensures CredentialSeen(s, name).Some? <==>
            '=' in s.provider && KeyOf(ToUpper(s.provider)) == name && (s.apiKey != "" || s.apiBase != "")
  {
    CredentialKeys(s, name);
    CredentialNames(s.provider);
    LockedNotCredential(name, ToUpper(s.provider));
  }

  /** Some admitted ENV entry, or the credentials, are read under this locked name although their key is another. */
  ghost predicate Smuggled(s: Spawn, name: string) {
    || (exists i :: 0 <= i < |s.envs| && ReadAs(s.envs[i], name))
    || ('=' in s.provider && KeyOf(ToUpper(s.provider)) == name && (s.apiKey != "" || s.apiBase != ""))
  }

  /**
   A locked name keeps its base value unless something is smuggled in under it, and then it reads
   what was smuggled in; and that takes an ENV key or a provider with an '=' in it.
   */
  lemma LockedKeysExactly(s: Spawn, join: Joiner, env: seq<string>, name: string)
    requires IsEnvOf(s, join, env) && name in LockedKeys
    ensures var over := FirstOf(UserSeen(s.envs, name), CredentialSeen(s, name));
            && Lookup(env, name) == FirstOf(over, PairLookup(LockedPairs(s.options, join), name))
            && (over.Some? <==> Smuggled(s, name))
    ensures NoEquals(s) ==> !Smuggled(s, name)
  {
    LockedNotExported(name);
    NotExported(s.configs, name);
    UserSeenExactly(s.envs, name);
    LockedCredential(s, name);
    LayeredPrecedence(s, join, env, name);
    if NoEquals(s) { ReservedNotSeen(s, name); }
  }

  /** So nothing overrides the locked base of an agent whose ENV keys and provider hold no '='. */
  lemma LockedKeysKept(s: Spawn, join: Joiner, env: seq<string>, name: string)
    requires IsEnvOf(s, join, env) && name in LockedKeys
    ensures !Smuggled(s, name) ==> Lookup(env, name) == PairLookup(LockedPairs(s.options, join), name)
    ensures NoEquals(s) ==> Lookup(env, name) == PairLookup(LockedPairs(s.options, join), name)
  {
    LockedKeysExactly(s, join, env, name);
  }

  /** An ENV called "HOME=" passes the filter for reserved names and replaces the locked HOME. */
  lemma HomeOverridden(s: Spawn, join: Joiner, env: seq<string>, value: string)
    requires s.envs == [Some(Env("HOME=", value, ""))]
    requires IsEnvOf(s, join, env)
    ensures Lookup(env, HomeKey) == Some("=" + value)
  {
    HomeEntry(value);
    assert s.envs[1..] == [];
    assert UserSeen(s.envs, HomeKey) == Some("=" + value);
    LockedKeysExactly(s, join, env, HomeKey);
  }

  lemma HomeEntry(value: string)
    ensures ReadAs(Some(Env("HOME=", value, "")), HomeKey)
    ensures ValueOf(Entry("HOME=", value)) == "=" + value
  {
    assert "HOME=" == "HOME" + "=";
    NotReserved("HOME=");
    KeyOfAppend("HOME", "=");
    KeyOfPlain("HOME");
    EntryParts("HOME", "=" + value);
    assert Entry("HOME=", value) == Entry("HOME", "=" + value);
  }

  lemma NotReserved(key: string)
    requires key != "" && key[|key| - 1] == '='
    ensures !IsReservedEnvKey(key)
  {
    forall name | name in LockedKeys ensures key != name { assert name[|name| - 1] != '='; }
    SuffixLast(key, "_API_KEY");
    SuffixLast(key, "_API_BASE");
  }

  lemma SuffixLast(s: string, suffix: string)
    requires suffix != ""
    ensures HasSuffix(s, suffix) ==> s != "" && s[|s| - 1] == suffix[|suffix| - 1]
  {
    if HasSuffix(s, suffix) { assert s[|s| - |suffix|..][|suffix| - 1] == s[|s| - 1]; }
  }

  lemma DaemonPairs(o: EnvOptions, join: Joiner)
    ensures var l := LockedPairs(o, join);
            if o.daemonURL != "" && o.agentToken != ""
            then PairLookup(l, DaemonKey) == Some(o.daemonURL) && PairLookup(l, TokenKey) == Some(o.agentToken)
            else PairLookup(l, DaemonKey).None? && PairLookup(l, TokenKey).None?
  {
    var l := LockedPairs(o, join);
    PairLookupIn(l, DaemonKey);
    PairLookupIn(l, TokenKey);
    if o.daemonURL != "" && o.agentToken != "" {
      var base := l[..8];
      var pair := [(DaemonKey, o.daemonURL), (TokenKey, o.agentToken)];
      assert l == base + pair;
      PairLookupAppend(base, pair, DaemonKey);
      PairLookupAppend(base, pair, TokenKey);
      assert |DaemonKey| != |TokenKey|;
      var token := [(TokenKey, o.agentToken)];
      assert token[1..] == [];
      assert PairLookup(token, DaemonKey).None? && PairLookup(token, TokenKey) == Some(o.agentToken);
      assert pair[1..] == token;
    }
  }

  lemma {:induction false} PairLookupAppend(a: seq<(string, string)>, b: seq<(string, string)>, key: string)
    ensures PairLookup(a + b, key) == FirstOf(PairLookup(b, key), PairLookup(a, key))
  {
    if a == [] { assert a + b == b; }
    else {
      assert (a + b)[1..] == a[1..] + b;
      PairLookupAppend(a[1..], b, key);
    }
  }

  /**
   The daemon URL and token are both present with the configured values, or both absent, unless one
   of the names is smuggled in; and both or neither are present at all exactly when both are
   configured, or both names are smuggled in, or neither.
   */
  lemma DaemonBothOrNeither(s: Spawn, join: Joiner, env: seq<string>)
    requires IsEnvOf(s, join, env)
    ensures var both := s.options.daemonURL != "" && s.options.agentToken != "";
            && (!Smuggled(s, DaemonKey) && !Smuggled(s, TokenKey) ==>
                  Lookup(env, DaemonKey) == (if both then Some(s.options.daemonURL) else None) &&
                  Lookup(env, TokenKey) == (if both then Some(s.options.agentToken) else None))
            && ((Lookup(env, DaemonKey).Some? <==> Lookup(env, TokenKey).Some?) <==>
                both || (Smuggled(s, DaemonKey) <==> Smuggled(s, TokenKey)))
    ensures NoEquals(s) ==> !Smuggled(s, DaemonKey) && !Smuggled(s, TokenKey)
  {
    assert DaemonKey in LockedKeys && TokenKey in LockedKeys;
    LockedKeysExactly(s, join, env, DaemonKey);
    LockedKeysExactly(s, join, env, TokenKey);
    DaemonPairs(s.options, join);
  }

  /** In a container the pair is present under the same condition: rewriting the URL never empties or creates it. */
  lemma DaemonAccessKeepsPair(url: string)
    ensures AccessDaemon(url).url != "" <==> url != ""
    ensures AccessDaemon(url).socketSource.Some? <==> HasPrefix(url, UnixScheme)
    ensures AccessDaemon(url).socketSource.Some? ==>
              AccessDaemon(url).url == UnixScheme + ContainerSocket && url == UnixScheme + AccessDaemon(url).socketSource.value
    ensures AccessDaemon(url).socketSource.None? ==> AccessDaemon(url).url == url
    ensures !(AccessDaemon(url).socketSource.Some? && AccessDaemon(url).extraHost != "")
  {
  }

  lemma AtFront(sub: string, back: string)
    ensures HasPrefix(sub + back, sub)
  {
  }

  lemma {:induction false} ContainsExactly(s: string, sub: string)
    ensures Contains(s, sub) <==> exists front, back :: s == front + sub + back
  {
    if HasPrefix(s, sub) {
      assert s == "" + sub + s[|sub|..];
    } else if s != "" {
      ContainsExactly(s[1..], sub);
      if front, back :| s[1..] == front + sub + back { assert s == ([s[0]] + front) + sub + back; }
      if front, back :| s == front + sub + back {
        AtFront(sub, back);
        assert front == "" ==> s == sub + back;
        assert s[1..] == front[1..] + sub + back;
      }
    } else {
      forall front, back ensures s != front + sub + back { assert |front + sub + back| >= |sub|; }
    }
  }

  /** What the container is given to reach the daemon: a bound socket, a mapping of the host's name, or the URL as it is. */
  lemma DaemonAccessExactly(url: string, path: string)
    ensures AccessDaemon("unix://" + path) == DaemonAccess("unix:///run/ottersd.sock", Some(path), "")
    ensures !HasPrefix(url, "unix://") ==>
              AccessDaemon(url) ==
              DaemonAccess(url, None, if exists a, b :: url == a + "host.docker.internal" + b
                                      then "host.docker.internal:host-gateway" else "")
  {
    var s := "unix://" + path;
    assert s[..|UnixScheme|] == UnixScheme && s[|UnixScheme|..] == path;
    assert "unix://" + "/run/ottersd.sock" == "unix:///run/ottersd.sock";
    assert "host.docker.internal" + ":host-gateway" == "host.docker.internal:host-gateway";
    ContainsExactly(url, "host.docker.internal");
  }

  /** Every CONFIG with a label key is recovered under its variable, unless the user's ENV takes that name. */
  lemma ConfigRecovered(s: Spawn, join: Joiner, env: seq<string>, key: string)
    requires IsEnvOf(s, join, env)
    requires forall k :: k in s.configs ==> LabelKey(k)
    requires key in s.configs
    ensures Lookup(env, ConfigKeyToEnv(key)) == FirstOf(UserSeen(s.envs, ConfigKeyToEnv(key)), Some(s.configs[key]))
  {
    forall d | d in s.configs && d != key ensures ConfigKeyToEnv(d) != ConfigKeyToEnv(key) {
      ConfigKeysInjective(d, key);
    }
    assert Exports(s.configs, key, ConfigKeyToEnv(key));
    LayeredPrecedence(s, join, env, ConfigKeyToEnv(key));
  }

  predicate LegalChar(c: char) {
    'A' <= c <= 'Z' || '0' <= c <= '9' || c == '_'
  }

  /** RUNTIME_ followed by one or more legal characters. */
  predicate ExportName(name: string) {
    HasPrefix(name, ConfigPrefix) && |name| > |ConfigPrefix| &&
    forall i :: |ConfigPrefix| <= i < |name| ==> LegalChar(name[i])
  }

  lemma ExportIsLegal(c: string)
    requires c != ""
    ensures ExportName(ConfigKeyToEnv(c))
  {
    var name, n := ConfigKeyToEnv(c), |ConfigPrefix|;
    assert name[..n] == ConfigPrefix;
    forall i | n <= i < |name| ensures LegalChar(name[i]) {
      assert name[i] == EnvChars(c)[i - n] == EnvChar(c[i - n]);
    }
  }

  lemma LegalIsExport(name: string)
    requires ExportName(name)
    ensures ConfigKeyToEnv(name[|ConfigPrefix|..]) == name
  {
    var c := name[|ConfigPrefix|..];
    forall i | 0 <= i < |c| ensures EnvChar(c[i]) == c[i] {
      assert LegalChar(name[i + |ConfigPrefix|]);
    }
    assert EnvChars(c) == c;
    assert name == name[..|ConfigPrefix|] + c;
  }

  /** A CONFIG export can carry a given name exactly when the name is RUNTIME_ and legal characters. */
  lemma Exportable(name: string)
    ensures (exists c :: c != "" && ConfigKeyToEnv(c) == name) <==> ExportName(name)
  {
    if c :| c != "" && ConfigKeyToEnv(c) == name { ExportIsLegal(c); }
    if ExportName(name) {
      LegalIsExport(name);
      assert name[|ConfigPrefix|..] != "";
    }
  }

  lemma CredentialLookup(up: string, apiKey: string, apiBase: string, pairs: seq<(string, string)>)
    requires pairs == (if apiKey != "" then [(up + "_API_KEY", apiKey)] else [])
                      + (if apiBase != "" then [(up + "_API_BASE", apiBase)] else [])
    ensures apiKey != "" ==> PairLookup(pairs, up + "_API_KEY") == Some(apiKey)
    ensures apiBase != "" ==> PairLookup(pairs, up + "_API_BASE") == Some(apiBase)
  {
    assert |up + "_API_KEY"| != |up + "_API_BASE"|;
    var first := if apiKey != "" then [(up + "_API_KEY", apiKey)] else [];
    var rest := if apiBase != "" then [(up + "_API_BASE", apiBase)] else [];
    PairLookupAppend(first, rest, up + "_API_KEY");
    PairLookupAppend(first, rest, up + "_API_BASE");
    assert first != [] ==> first[1..] == [];
    assert rest != [] ==> rest[1..] == [];
    PairLookupIn(rest, up + "_API_KEY");
  }

  lemma {:induction false} NeverLookedUp(env: seq<string>, name: string)
    requires '=' in name
    ensures Lookup(env, name).None?
  {
    if env != [] {
      NeverLookedUp(env[1..], name);
      KeyOfPlain(env[0]);
    }
  }

  lemma OwnCredentials(s: Spawn)
    requires s.provider != "" && '=' !in s.provider
    ensures s.apiKey != "" ==> CredentialSeen(s, ToUpper(s.provider) + "_API_KEY") == Some(s.apiKey)
    ensures s.apiBase != "" ==> CredentialSeen(s, ToUpper(s.provider) + "_API_BASE") == Some(s.apiBase)
  {
    var up := ToUpper(s.provider);
    UpperEquals(s.provider);
    assert '=' !in "_API_KEY" && '=' !in "_API_BASE";
    var pairs := CredentialPairs(s.provider, s.apiKey, s.apiBase);
    CredentialLookup(up, s.apiKey, s.apiBase, pairs);
    EntriesLookup(pairs, up + "_API_KEY");
    EntriesLookup(pairs, up + "_API_BASE");
  }

  /** A value is seen under a credential's name exactly when no layer above says something else there. */
  predicate Reaches(s: Spawn, name: string, value: string, config: Option<string>) {
    && '=' !in s.provider
    && var over := FirstOf(UserSeen(s.envs, name), config);
       over.None? || over.value == value
  }

  /**
   A provider credential reaches the process exactly when the provider has no '=' in it and neither
   the user's ENV nor a CONFIG export says something else under its name. For ENV that takes a key
   with an '=' in it.
   */
  lemma CredentialsExactly(s: Spawn, join: Joiner, env: seq<string>, keyConfig: Option<string>, baseConfig: Option<string>)
    requires s.provider != "" && IsEnvOf(s, join, env)
    requires ConfigValueIs(s.configs, ToUpper(s.provider) + "_API_KEY", keyConfig)
    requires ConfigValueIs(s.configs, ToUpper(s.provider) + "_API_BASE", baseConfig)
    ensures s.apiKey != "" ==>
              (Lookup(env, ToUpper(s.provider) + "_API_KEY") == Some(s.apiKey) <==>
               Reaches(s, ToUpper(s.provider) + "_API_KEY", s.apiKey, keyConfig))
    ensures s.apiBase != "" ==>
              (Lookup(env, ToUpper(s.provider) + "_API_BASE") == Some(s.apiBase) <==>
               Reaches(s, ToUpper(s.provider) + "_API_BASE", s.apiBase, baseConfig))
    ensures NoEquals(s) ==> UserSeen(s.envs, ToUpper(s.provider) + "_API_KEY").None?
                            && UserSeen(s.envs, ToUpper(s.provider) + "_API_BASE").None?
  {
    var up := ToUpper(s.provider);
    UpperEquals(s.provider);
    if '=' !in s.provider { OwnCredentials(s); }
    if s.apiKey != "" { CredentialReaches(s, join, env, up + "_API_KEY", s.apiKey, keyConfig); }
    if s.apiBase != "" { CredentialReaches(s, join, env, up + "_API_BASE", s.apiBase, baseConfig); }
    if NoEquals(s) { CredentialNamesReserved(s, up); }
  }

  lemma CredentialReaches(s: Spawn, join: Joiner, env: seq<string>, name: string, value: string, config: Option<string>)
    requires IsEnvOf(s, join, env) && ConfigValueIs(s.configs, name, config)
    requires if '=' in s.provider then '=' in name else CredentialSeen(s, name) == Some(value)
    ensures Lookup(env, name) == Some(value) <==> Reaches(s, name, value, config)
  {
    if '=' in s.provider { NeverLookedUp(env, name); } else { LayeredPrecedence(s, join, env, name); }
  }

  lemma CredentialNamesReserved(s: Spawn, up: string)
    requires NoEquals(s)
    ensures UserSeen(s.envs, up + "_API_KEY").None? && UserSeen(s.envs, up + "_API_BASE").None?
  {
    var key, base := up + "_API_KEY", up + "_API_BASE";
    assert key[|key| - 8..] == "_API_KEY" && base[|base| - 9..] == "_API_BASE";
    ReservedNotSeen(s, key);
    ReservedNotSeen(s, base);
  }

  /** No CONFIG gets in the way when the provider's name is neither RUNTIME nor RUNTIME_ followed by something. */
  lemma CredentialsKept(s: Spawn, join: Joiner, env: seq<string>)
    requires s.provider != "" && IsEnvOf(s, join, env)
    requires ToUpper(s.provider) != "RUNTIME" && !HasPrefix(ToUpper(s.provider), ConfigPrefix)
    ensures s.apiKey != "" ==>
              (Lookup(env, ToUpper(s.provider) + "_API_KEY") == Some(s.apiKey) <==>
               Reaches(s, ToUpper(s.provider) + "_API_KEY", s.apiKey, None))
    ensures s.apiBase != "" ==>
              (Lookup(env, ToUpper(s.provider) + "_API_BASE") == Some(s.apiBase) <==>
               Reaches(s, ToUpper(s.provider) + "_API_BASE", s.apiBase, None))
    ensures NoEquals(s) ==> Reaches(s, ToUpper(s.provider) + "_API_KEY", s.apiKey, None)
                            && Reaches(s, ToUpper(s.provider) + "_API_BASE", s.apiBase, None)
  {
    var up := ToUpper(s.provider);
    PrefixOfCredential(up, "_API_KEY");
    PrefixOfCredential(up, "_API_BASE");
    NotExported(s.configs, up + "_API_KEY");
    NotExported(s.configs, up + "_API_BASE");
    CredentialsExactly(s, join, env, None, None);
  }

  /** Appending "_API_..." starts with RUNTIME_ only if the provider itself is RUNTIME or starts with RUNTIME_. */
  lemma PrefixOfCredential(up: string, suffix: string)
    requires suffix != "" && suffix[0] == '_' && |suffix| >= 2
    requires up != "RUNTIME" && !HasPrefix(up, ConfigPrefix) && up != ""
    ensures !HasPrefix(up + suffix, ConfigPrefix)
  {
    var s, p := up + suffix, ConfigPrefix;
    if |up| >= |p| {
      assert s[..|p|] == up[..|p|];
    } else {
      PrefixChars(s, p);
      assert s[|up|] == '_';
      assert forall i :: 0 <= i < 7 ==> p[i] == "RUNTIME"[i] && p[i] != '_';
      assert |up| == 7 ==> exists i :: 0 <= i < 7 && up[i] != "RUNTIME"[i];
      assert forall i :: 0 <= i < |up| ==> s[i] == up[i];
    }
  }

  lemma ApiKeyExport()
    ensures LabelKey("api-key") && ConfigKeyToEnv("api-key") == "RUNTIME_API_KEY"
  {
    assert EnvChars("api-key") == "API_KEY";
  }

  /** The condition is needed: a provider called runtime loses its key to CONFIG api-key. */
  lemma RuntimeProviderShadowed(s: Spawn, join: Joiner, env: seq<string>)
    requires s.provider == "runtime" && s.apiKey != "" && s.envs == []
    requires s.configs.Keys == {"api-key"} && s.configs["api-key"] != s.apiKey
    requires IsEnvOf(s, join, env)
    ensures Lookup(env, "RUNTIME_API_KEY") == Some(s.configs["api-key"]) != Some(s.apiKey)
  {
    ApiKeyExport();
    ConfigRecovered(s, join, env, "api-key");
  }

  // ---------------------------------------------------------------------------------------
  // Run-time ENV overrides (spec/types.go, WithExtraEnvs)
  // ---------------------------------------------------------------------------------------

  function KeysOf(envs: seq<Option<Env>>): set<string> {
    set i | 0 <= i < |envs| && envs[i].Some? :: envs[i].value.key
  }

  /** Declared entries whose key is not overridden, in order. */
  function Kept(declared: seq<Env>, incoming: set<string>): seq<Option<Env>> {
    if declared == [] then []
    else (if declared[0].key in incoming then [] else [Some(declared[0])]) + Kept(declared[1..], incoming)
  }

  method WithExtraEnvs(declared: seq<Env>, extra: seq<Option<Env>>) returns (merged: seq<Option<Env>>)
    ensures merged == Kept(declared, KeysOf(extra)) + extra
  {
    var incoming: set<string> := {};
    for i := 0 to |extra|
      invariant incoming == KeysOf(extra[..i])
    {
      assert extra[..i + 1] == extra[..i] + [extra[i]];
      KeysOfSnoc(extra[..i], extra[i]);
      if extra[i].Some? { incoming := incoming + {extra[i].value.key}; }
    }
    assert extra[..|extra|] == extra;
    merged := [];
    assert declared[0..] == declared;
    for i := 0 to |declared|
      invariant merged + Kept(declared[i..], incoming) == Kept(declared, incoming)
    {
      assert declared[i..][1..] == declared[i + 1..];
      var rest := Kept(declared[i + 1..], incoming);
      assert [] + rest == rest;
      if declared[i].key !in incoming {
        assert (merged + [Some(declared[i])]) + rest == merged + ([Some(declared[i])] + rest);
        merged := merged + [Some(declared[i])];
      }
    }
    assert declared[|declared|..] == [];
    merged := merged + extra;
  }

  lemma KeysOfSnoc(envs: seq<Option<Env>>, e: Option<Env>)
    ensures KeysOf(envs + [e]) == KeysOf(envs) + if e.Some? then {e.value.key} else {}
  {
    var all := envs + [e];
    forall k ensures k in KeysOf(all) <==> k in KeysOf(envs) || (e.Some? && k == e.value.key) {
      if k in KeysOf(envs) {
        var i :| 0 <= i < |envs| && envs[i].Some? && envs[i].value.key == k;
        assert all[i].Some? && all[i].value.key == k;
      }
      if e.Some? && k == e.value.key { assert all[|envs|].Some? && all[|envs|].value.key == k; }
    }
  }

  lemma {:induction false} UserSeenAppend(a: seq<Option<Env>>, b: seq<Option<Env>>, name: string)
    ensures UserSeen(a + b, name) == FirstOf(UserSeen(b, name), UserSeen(a, name))
  {
    if a == [] { assert a + b == b; }
    else {
      assert (a + b)[1..] == a[1..] + b;
      UserSeenAppend(a[1..], b, name);
    }
  }

  function Declared(envs: seq<Env>): seq<Option<Env>> {
    seq(|envs|, i requires 0 <= i < |envs| => Some(envs[i]))
  }

  /** Dropping an overridden entry only hides names that an override says something under. */
  lemma {:induction false} KeptSeen(declared: seq<Env>, incoming: set<string>, name: string)
    requires forall i :: 0 <= i < |declared| && declared[i].key in incoming ==> !ReadAs(Some(declared[i]), name)
    ensures UserSeen(Kept(declared, incoming), name) == UserSeen(Declared(declared), name)
  {
    if declared != [] {
      assert forall i :: 1 <= i < |declared| ==> declared[i] == declared[1..][i - 1];
      KeptSeen(declared[1..], incoming, name);
      var rest := Kept(declared[1..], incoming);
      assert Declared(declared)[1..] == Declared(declared[1..]);
      if declared[0].key !in incoming {
        assert ([Some(declared[0])] + rest)[1..] == rest;
      } else {
        assert [] + rest == rest;
      }
    }
  }

  /** What the process sees is the override's value if it gives one, else the declared one; dropping duplicates loses nothing. */
  lemma ExtraEnvsOverride(declared: seq<Env>, extra: seq<Option<Env>>, name: string)
    ensures UserSeen(Kept(declared, KeysOf(extra)) + extra, name) ==
            FirstOf(UserSeen(extra, name), UserSeen(Declared(declared), name))
  {
    UserSeenAppend(Kept(declared, KeysOf(extra)), extra, name);
    UserSeenExactly(extra, name);
    if UserSeen(extra, name).None? {
      forall i | 0 <= i < |declared| && declared[i].key in KeysOf(extra) ensures !ReadAs(Some(declared[i]), name) {
        var j :| 0 <= j < |extra| && extra[j].Some? && extra[j].value.key == declared[i].key;
        assert !ReadAs(extra[j], name);
      }
      KeptSeen(declared, KeysOf(extra), name);
    }
  }
}
