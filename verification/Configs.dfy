/**
 Layered configuration: the deploy-time override WithConfig (spec/types.go), the required-config
 gate RequiredConfigsProvided (spec/parse.go) and the flattening configsFromSpec
 (executor/system/workspace.go) that decides what the runtime finally sees.
 */
module Configs {
  import opened Prelude
  import opened AgentSpec
  import opened SortedKeys

  /** How values are printed (fmt's %v); a string prints as itself. */
  type Printer = ConfigValue -> string

  ghost predicate PrintsStrings(show: Printer) {
    forall s :: show(StringValue(s)) == s
  }

  // ---------------------------------------------------------------------------------------
  // Last-write-wins views of the append-only list
  // ---------------------------------------------------------------------------------------

  ghost predicate Declares(cs: seq<Config>, key: string) {
    exists i :: 0 <= i < |cs| && cs[i].key == key
  }

  /** The value of the last entry for key, set or not. */
  function LastEntry(cs: seq<Config>, key: string): Option<ConfigValue> {
    if cs == [] then None
    else
      var later := LastEntry(cs[1..], key);
      if later.Some? then later else if cs[0].key == key then Some(cs[0].value) else None
  }

  /** The last value anyone set for key. */
  function LastSet(cs: seq<Config>, key: string): Option<ConfigValue> {
    if cs == [] then None
    else
      var later := LastSet(cs[1..], key);
      if later.Some? then later
      else if cs[0].key == key && cs[0].value != NoValue then Some(cs[0].value) else None
  }

  ghost predicate Requires(cs: seq<Config>, key: string) {
    exists i :: 0 <= i < |cs| && cs[i].key == key && cs[i].required
  }

  /** The keys the gate complains about. */
  ghost predicate Missing(cs: seq<Config>, key: string) {
    Requires(cs, key) && LastEntry(cs, key).GetOr(NoValue) == NoValue
  }

  lemma {:induction false} LastEntryAppend(a: seq<Config>, b: seq<Config>, key: string)
    ensures LastEntry(a + b, key) == if LastEntry(b, key).Some? then LastEntry(b, key) else LastEntry(a, key)
  {
    if a == [] { assert a + b == b; }
    else {
      assert (a + b)[1..] == a[1..] + b;
      LastEntryAppend(a[1..], b, key);
    }
  }

  lemma {:induction false} LastSetAppend(a: seq<Config>, b: seq<Config>, key: string)
    ensures LastSet(a + b, key) == if LastSet(b, key).Some? then LastSet(b, key) else LastSet(a, key)
  {
    if a == [] { assert a + b == b; }
    else {
      assert (a + b)[1..] == a[1..] + b;
      LastSetAppend(a[1..], b, key);
    }
  }

  lemma {:induction false} LastEntryDeclared(cs: seq<Config>, key: string)
    ensures LastEntry(cs, key).Some? <==> Declares(cs, key)
  {
    if cs != [] {
      LastEntryDeclared(cs[1..], key);
      assert forall i :: 1 <= i < |cs| ==> cs[i] == cs[1..][i - 1];
      if Declares(cs[1..], key) {
        var i :| 0 <= i < |cs[1..]| && cs[1..][i].key == key;
        assert cs[i + 1].key == key;
      }
    }
  }

  /** If the last entry is set it is also the last value set. */
  lemma {:induction false} LastEntrySet(cs: seq<Config>, key: string)
    ensures LastEntry(cs, key).GetOr(NoValue) != NoValue ==> LastSet(cs, key) == LastEntry(cs, key)
    ensures LastSet(cs, key).Some? ==> LastSet(cs, key).value != NoValue
    ensures LastEntry(cs, key).None? ==> LastSet(cs, key).None?
  {
    if cs != [] { LastEntrySet(cs[1..], key); }
  }

  // ---------------------------------------------------------------------------------------
  // Flattening
  // ---------------------------------------------------------------------------------------

  ghost predicate FlatViewOf(flat: map<string, string>, cs: seq<Config>, show: Printer) {
    forall k :: (k in flat <==> k != "" && LastSet(cs, k).Some?)
                && (k in flat ==> flat[k] == show(LastSet(cs, k).value))
  }

  lemma LastSetSnoc(cs: seq<Config>, c: Config, key: string)
    ensures LastSet(cs + [c], key) == if c.key == key && c.value != NoValue then Some(c.value) else LastSet(cs, key)
  {
    LastSetAppend(cs, [c], key);
    assert [c][1..] == [];
  }

  lemma LastEntrySnoc(cs: seq<Config>, c: Config, key: string)
    ensures LastEntry(cs + [c], key) == if c.key == key then Some(c.value) else LastEntry(cs, key)
  {
    LastEntryAppend(cs, [c], key);
    assert [c][1..] == [];
  }

  lemma FlatViewSnoc(flat: map<string, string>, cs: seq<Config>, c: Config, show: Printer)
    requires FlatViewOf(flat, cs, show)
    ensures FlatViewOf(if c.key != "" && c.value != NoValue then flat[c.key := show(c.value)] else flat, cs + [c], show)
  {
    forall k ensures LastSet(cs + [c], k) ==
        if c.key == k && c.value != NoValue then Some(c.value) else LastSet(cs, k)
    {
      LastSetSnoc(cs, c, k);
    }
  }

  method Flatten(cs: seq<Config>, show: Printer) returns (flat: map<string, string>)
    ensures FlatViewOf(flat, cs, show)
  {
    flat := map[];
    for i := 0 to |cs|
      invariant FlatViewOf(flat, cs[..i], show)
    {
      var c := cs[i];
      assert cs[..i + 1] == cs[..i] + [c];
      FlatViewSnoc(flat, cs[..i], c, show);
      if c.key != "" && c.value != NoValue {
        flat := flat[c.key := show(c.value)];
      }
    }
    assert cs[..|cs|] == cs;
  }

  // ---------------------------------------------------------------------------------------
  // The required gate
  // ---------------------------------------------------------------------------------------

  /** Returns the required keys still without a value, sorted; none means the gate accepts. */
  method RequiredConfigsProvided(cs: seq<Config>) returns (missing: seq<string>)
    ensures Increasing(missing)
    ensures forall k :: k in missing <==> Missing(cs, k)
  {
    var required: set<string> := {};
    var value: map<string, ConfigValue> := map[];
    for i := 0 to |cs|
      invariant forall k :: k in required <==> Requires(cs[..i], k)
      invariant LastEntriesOf(value, cs[..i])
    {
      var c := cs[i];
      assert cs[..i + 1] == cs[..i] + [c];
      forall k ensures Requires(cs[..i + 1], k) <==> Requires(cs[..i], k) || (c.key == k && c.required) {
        RequiresAppend(cs[..i], c, k);
      }
      LastEntriesSnoc(value, cs[..i], c);
      if c.required { required := required + {c.key}; }
      value := value[c.key := c.value];
    }
    assert cs[..|cs|] == cs;
    var unset := set k | k in required && (k !in value || value[k] == NoValue);
    missing := SortKeys(unset);
  }

  ghost predicate LastEntriesOf(value: map<string, ConfigValue>, cs: seq<Config>) {
    forall k :: (k in value <==> LastEntry(cs, k).Some?) && (k in value ==> value[k] == LastEntry(cs, k).value)
  }

  lemma LastEntriesSnoc(value: map<string, ConfigValue>, cs: seq<Config>, c: Config)
    requires LastEntriesOf(value, cs)
    ensures LastEntriesOf(value[c.key := c.value], cs + [c])
  {
    forall k ensures LastEntry(cs + [c], k) == if c.key == k then Some(c.value) else LastEntry(cs, k) {
      LastEntrySnoc(cs, c, k);
    }
  }

  lemma RequiresAppend(cs: seq<Config>, c: Config, key: string)
    ensures Requires(cs + [c], key) <==> Requires(cs, key) || (c.key == key && c.required)
  {
    if Requires(cs, key) {
      var i :| 0 <= i < |cs| && cs[i].key == key && cs[i].required;
      assert (cs + [c])[i].key == key;
    }
    if c.key == key && c.required { assert (cs + [c])[|cs|].key == key; }
  }

  /** If the gate accepts, every required key reaches the runtime with its last declared value. */
  lemma GateGuaranteesFlattened(cs: seq<Config>, show: Printer, flat: map<string, string>)
    requires FlatViewOf(flat, cs, show)
    requires forall k :: !Missing(cs, k)
    ensures forall k :: k != "" && Requires(cs, k) ==>
              k in flat && LastEntry(cs, k).Some? && flat[k] == show(LastEntry(cs, k).value)
  {
    forall k | k != "" && Requires(cs, k)
      ensures k in flat && LastEntry(cs, k).Some? && flat[k] == show(LastEntry(cs, k).value)
    {
      assert !Missing(cs, k);
      LastEntrySet(cs, k);
    }
  }

  /**
   The gate does not quite look at the flattened view: flattening skips valueless entries, the gate
   takes the last entry whatever it holds. The two agree on whether a required key is missing except
   exactly when the key's last entry is valueless while an earlier one set it (then the gate rejects
   a key that has a value), or the key is empty and set (then the gate accepts one that has none).
   */
  lemma GateAgreesWithFlattened(cs: seq<Config>, show: Printer, flat: map<string, string>, key: string)
    requires FlatViewOf(flat, cs, show)
    ensures (Missing(cs, key) <==> Requires(cs, key) && key !in flat) <==>
            !(Requires(cs, key) &&
              if key == "" then LastEntry(cs, key).GetOr(NoValue) != NoValue
              else LastEntry(cs, key) == Some(NoValue) && LastSet(cs, key).Some?)
    ensures key != "" && Requires(cs, key) && key !in flat ==> Missing(cs, key)
  {
    LastEntrySet(cs, key);
    if Requires(cs, key) {
      var i :| 0 <= i < |cs| && cs[i].key == key && cs[i].required;
      assert Declares(cs, key);
      LastEntryDeclared(cs, key);
    }
  }

  /** CONFIG k=v followed by CONFIG k! is rejected, although the runtime would have seen k=v. */
  lemma GateRejectsSetKey(show: Printer, flat: map<string, string>)
    requires PrintsStrings(show)
    requires FlatViewOf(flat, [Config("k", StringValue("v"), "", false), Config("k", NoValue, "", true)], show)
    ensures Missing([Config("k", StringValue("v"), "", false), Config("k", NoValue, "", true)], "k")
    ensures "k" in flat && flat["k"] == "v"
  {
    var first, second := Config("k", StringValue("v"), "", false), Config("k", NoValue, "", true);
    var cs := [first, second];
    assert cs == [first] + [second];
    LastEntrySnoc([first], second, "k");
    LastSetSnoc([first], second, "k");
    LastSetSnoc([], first, "k");
    assert [] + [first] == [first];
    assert cs[1].key == "k" && cs[1].required;
  }

  // ---------------------------------------------------------------------------------------
  // The deploy-time override
  // ---------------------------------------------------------------------------------------

  /** Each supplied value goes to the FIRST entry of its key and is then used up. */
  function Overwrite(cs: seq<Config>, remaining: map<string, string>): seq<Config> {
    if cs == [] then []
    else if cs[0].key in remaining then
      [cs[0].(value := StringValue(remaining[cs[0].key]))] + Overwrite(cs[1..], remaining - {cs[0].key})
    else [cs[0]] + Overwrite(cs[1..], remaining)
  }

  function Undeclared(cs: seq<Config>, remaining: map<string, string>): map<string, string> {
    if cs == [] then remaining else Undeclared(cs[1..], remaining - {cs[0].key})
  }

  function Appended(keys: seq<string>, values: map<string, string>): (cs: seq<Config>)
    requires forall k :: k in keys ==> k in values
    ensures |cs| == |keys|
  {
    if keys == [] then [] else [Config(keys[0], StringValue(values[keys[0]]), "", false)] + Appended(keys[1..], values)
  }

  /** after is what WithConfig(values) makes of before. */
  ghost predicate OverrideOf(before: seq<Config>, values: map<string, string>, after: seq<Config>) {
    exists keys :: Lists(keys, Undeclared(before, values).Keys)
                   && (forall k :: k in keys ==> k in values)
                   && after == Overwrite(before, values) + Appended(keys, values)
  }

  lemma {:induction false} UndeclaredIs(cs: seq<Config>, values: map<string, string>)
    ensures Undeclared(cs, values) == map k | k in values && !Declares(cs, k) :: values[k]
  {
    if cs != [] {
      UndeclaredIs(cs[1..], values - {cs[0].key});
      forall k ensures Declares(cs, k) <==> cs[0].key == k || Declares(cs[1..], k) {
        if Declares(cs[1..], k) {
          var i :| 0 <= i < |cs[1..]| && cs[1..][i].key == k;
          assert cs[i + 1].key == k;
        }
        if Declares(cs, k) && cs[0].key != k {
          var i :| 0 <= i < |cs| && cs[i].key == k;
          assert cs[1..][i - 1].key == k;
        }
        if cs[0].key == k { assert cs[0].key == k; }
      }
    }
  }

  class ConfigList {
    var configs: seq<Config>

    constructor (configs: seq<Config>)
      ensures this.configs == configs
    {
      this.configs := configs;
    }

    method WithConfig(values: map<string, string>)
      modifies this
      ensures OverrideOf(old(configs), values, configs)
    {
      var remaining := OverwriteDeclared(values);
      var keys := SortKeys(remaining.Keys);
      AppendUndeclared(keys, values);
    }

    /** Walk the entries, writing in place and deleting from the working map. */
    method OverwriteDeclared(values: map<string, string>) returns (remaining: map<string, string>)
      modifies this
      ensures configs == Overwrite(old(configs), values)
      ensures remaining == Undeclared(old(configs), values)
      ensures forall k :: k in remaining ==> k in values
    {
      ghost var before := configs;
      remaining := values;
      WalkStart(before, values);
      for i := 0 to |configs|
        invariant Walked(before, values, i, configs, remaining)
      {
        var c := configs[i];
        WalkNext(before, values, i, configs, remaining);
        if c.key in remaining {
          configs := configs[i := c.(value := StringValue(remaining[c.key]))];
          remaining := remaining - {c.key};
        }
      }
      WalkEnd(before, values, configs, remaining);
    }

    method AppendUndeclared(keys: seq<string>, values: map<string, string>)
      requires forall k :: k in keys ==> k in values
      modifies this
      ensures configs == old(configs) + Appended(keys, values)
    {
      assert keys[0..] == keys;
      for i := 0 to |keys|
        invariant configs + Appended(keys[i..], values) == old(configs) + Appended(keys, values)
      {
        assert keys[i..][1..] == keys[i + 1..];
        configs := configs + [Config(keys[i], StringValue(values[keys[i]]), "", false)];
      }
      assert keys[|keys|..] == [];
    }
  }

  /** What the walk leaves of one entry. */
  function Written(c: Config, remaining: map<string, string>): Config {
    if c.key in remaining then c.(value := StringValue(remaining[c.key])) else c
  }

  lemma OverwriteHead(before: seq<Config>, i: nat, remaining: map<string, string>)
    requires i < |before|
    ensures var c, rest := before[i], before[i + 1..];
            && Overwrite(before[i..], remaining) == [Written(c, remaining)] + Overwrite(rest, remaining - {c.key})
            && Undeclared(before[i..], remaining) == Undeclared(rest, remaining - {c.key})
            && (c.key !in remaining ==> remaining - {c.key} == remaining)
  {
    assert before[i..][1..] == before[i + 1..];
    if before[i].key !in remaining { assert remaining - {before[i].key} == remaining; }
  }

  /** The walk before entry i: what is done and what is left make up the whole overwrite. */
  ghost predicate Walked(before: seq<Config>, values: map<string, string>, i: int, now: seq<Config>, remaining: map<string, string>) {
    && 0 <= i <= |before| == |now|
    && now[i..] == before[i..]
    && now[..i] + Overwrite(before[i..], remaining) == Overwrite(before, values)
    && Undeclared(before[i..], remaining) == Undeclared(before, values)
    && forall k :: k in remaining ==> k in values
  }

  lemma WalkStart(before: seq<Config>, values: map<string, string>)
    ensures Walked(before, values, 0, before, values)
  {
    assert before[0..] == before && before[..0] == [];
  }

  lemma WalkEnd(before: seq<Config>, values: map<string, string>, now: seq<Config>, remaining: map<string, string>)
    requires Walked(before, values, |before|, now, remaining)
    ensures now == Overwrite(before, values) && remaining == Undeclared(before, values)
  {
    assert now[..|before|] == now && before[|before|..] == [];
  }

  /** One entry of the walk. */
  lemma WalkNext(before: seq<Config>, values: map<string, string>, i: nat, now: seq<Config>, remaining: map<string, string>)
    requires i < |before| && Walked(before, values, i, now, remaining)
    ensures now[i] == before[i]
    ensures Walked(before, values, i + 1, now[i := Written(now[i], remaining)], remaining - {now[i].key})
    ensures now[i].key !in remaining ==>
              now[i := Written(now[i], remaining)] == now && remaining - {now[i].key} == remaining
  {
    var w := Written(now[i], remaining);
    var now' := now[i := w];
    assert now[i] == now[i..][0] == before[i..][0];
    OverwriteHead(before, i, remaining);
    var rest := Overwrite(before[i + 1..], remaining - {now[i].key});
    assert now'[..i + 1] == now[..i] + [w];
    assert (now[..i] + [w]) + rest == now[..i] + ([w] + rest);
    assert now'[i + 1..] == now[i..][1..] == before[i..][1..] == before[i + 1..];
  }

  /** The entries that follow the first one for key. */
  function AfterFirst(cs: seq<Config>, key: string): seq<Config> {
    if cs == [] then [] else if cs[0].key == key then cs[1..] else AfterFirst(cs[1..], key)
  }

  lemma {:induction false} OverwriteViews(cs: seq<Config>, values: map<string, string>, key: string)
    ensures key !in values ==>
              LastSet(Overwrite(cs, values), key) == LastSet(cs, key) && LastEntry(Overwrite(cs, values), key) == LastEntry(cs, key)
    ensures key in values ==> (LastSet(Overwrite(cs, values), key) ==
              if LastEntry(cs, key).None? then None
              else if LastSet(AfterFirst(cs, key), key).Some? then LastSet(AfterFirst(cs, key), key)
              else Some(StringValue(values[key])))
    ensures key in values ==> (LastEntry(Overwrite(cs, values), key) ==
              if LastEntry(cs, key).None? then None
              else if LastEntry(AfterFirst(cs, key), key).Some? then LastEntry(AfterFirst(cs, key), key)
              else Some(StringValue(values[key])))
    decreases cs
  {
    if cs != [] {
      var rest := if cs[0].key in values then values - {cs[0].key} else values;
      OverwriteViews(cs[1..], rest, key);
      assert Overwrite(cs, values)[1..] == Overwrite(cs[1..], rest);
      if key in values && cs[0].key != key {
        AfterFirstView(cs[1..], key);
      }
    }
  }

  lemma {:induction false} AfterFirstView(cs: seq<Config>, key: string)
    ensures LastEntry(cs, key).None? ==> LastEntry(AfterFirst(cs, key), key).None? && LastSet(cs, key).None?
  {
    if cs != [] { AfterFirstView(cs[1..], key); }
  }

  lemma {:induction false} AppendedViews(keys: seq<string>, values: map<string, string>, key: string)
    requires forall k :: k in keys ==> k in values
    ensures LastSet(Appended(keys, values), key) == if key in keys then Some(StringValue(values[key])) else None
    ensures LastEntry(Appended(keys, values), key) == LastSet(Appended(keys, values), key)
    decreases keys
  {
    if keys != [] {
      AppendedViews(keys[1..], values, key);
      assert Appended(keys, values)[1..] == Appended(keys[1..], values);
      assert key in keys <==> key == keys[0] || key in keys[1..];
    }
  }

  /** What each key's last set value and last entry become. */
  lemma OverrideViews(before: seq<Config>, values: map<string, string>, after: seq<Config>, key: string)
    requires OverrideOf(before, values, after)
    ensures key !in values ==> LastSet(after, key) == LastSet(before, key) && LastEntry(after, key) == LastEntry(before, key)
    ensures key in values ==> (LastSet(after, key) ==
              if LastSet(AfterFirst(before, key), key).Some? then LastSet(AfterFirst(before, key), key)
              else Some(StringValue(values[key])))
    ensures key in values ==> (LastEntry(after, key) ==
              if LastEntry(AfterFirst(before, key), key).Some? then LastEntry(AfterFirst(before, key), key)
              else Some(StringValue(values[key])))
  {
    var keys :| Lists(keys, Undeclared(before, values).Keys)
                && (forall k :: k in keys ==> k in values)
                && after == Overwrite(before, values) + Appended(keys, values);
    UndeclaredIs(before, values);
    LastEntryDeclared(before, key);
    OverwriteViews(before, values, key);
    AppendedViews(keys, values, key);
    LastSetAppend(Overwrite(before, values), Appended(keys, values), key);
    LastEntryAppend(Overwrite(before, values), Appended(keys, values), key);
    LastEntrySet(AfterFirst(before, key), key);
    AfterFirstView(before, key);
  }

  /**
   A supplied value is what the runtime sees exactly when no later duplicate entry of the key sets
   something else: with duplicates (an inherited key, say) only the first entry is overwritten.
   Keys not supplied are never affected.
   */
  lemma OverrideReachesRuntime(before: seq<Config>, values: map<string, string>, after: seq<Config>,
                               show: Printer, flat: map<string, string>, was: map<string, string>)
    requires OverrideOf(before, values, after) && PrintsStrings(show)
    requires FlatViewOf(flat, after, show) && FlatViewOf(was, before, show)
    ensures forall k :: k != "" && k in values ==>
              k in flat &&
              (flat[k] == values[k] <==>
                 LastSet(AfterFirst(before, k), k).None? || show(LastSet(AfterFirst(before, k), k).value) == values[k])
    ensures forall k :: k !in values ==> (k in flat <==> k in was) && (k in flat ==> flat[k] == was[k])
  {
    forall k | k != "" && k in values
      ensures k in flat &&
              (flat[k] == values[k] <==>
                 LastSet(AfterFirst(before, k), k).None? || show(LastSet(AfterFirst(before, k), k).value) == values[k])
    {
      OverrideViews(before, values, after, k);
    }
    forall k | k !in values ensures (k in flat <==> k in was) && (k in flat ==> flat[k] == was[k]) {
      OverrideViews(before, values, after, k);
    }
  }

  /** A supplied key is missing afterwards exactly when it is required and its last entry is a valueless duplicate. */
  lemma OverrideSatisfiesGate(before: seq<Config>, values: map<string, string>, after: seq<Config>, key: string)
    requires OverrideOf(before, values, after) && key in values
    ensures Missing(after, key) <==> Requires(before, key) && LastEntry(AfterFirst(before, key), key) == Some(NoValue)
  {
    OverrideViews(before, values, after, key);
    OverrideRequires(before, values, after, key);
  }

  lemma RequiresJoin(a: seq<Config>, b: seq<Config>, key: string)
    ensures Requires(a + b, key) <==> Requires(a, key) || Requires(b, key)
  {
    var all := a + b;
    if i :| 0 <= i < |a| && a[i].key == key && a[i].required { assert all[i].key == key && all[i].required; }
    if i :| 0 <= i < |b| && b[i].key == key && b[i].required { assert all[|a| + i].key == key && all[|a| + i].required; }
  }

  lemma {:induction false} OverwriteRequires(cs: seq<Config>, values: map<string, string>)
    ensures |Overwrite(cs, values)| == |cs|
    ensures forall i :: 0 <= i < |cs| ==>
              Overwrite(cs, values)[i].key == cs[i].key && Overwrite(cs, values)[i].required == cs[i].required
    decreases cs
  {
    if cs != [] {
      OverwriteRequires(cs[1..], if cs[0].key in values then values - {cs[0].key} else values);
    }
  }

  lemma {:induction false} AppendedRequires(keys: seq<string>, values: map<string, string>)
    requires forall k :: k in keys ==> k in values
    ensures forall i :: 0 <= i < |keys| ==> !Appended(keys, values)[i].required
    decreases keys
  {
    if keys != [] { AppendedRequires(keys[1..], values); }
  }

  /** An override never makes a key required, nor frees one. */
  lemma OverrideRequires(before: seq<Config>, values: map<string, string>, after: seq<Config>, key: string)
    requires OverrideOf(before, values, after)
    ensures Requires(after, key) <==> Requires(before, key)
  {
    var keys :| Lists(keys, Undeclared(before, values).Keys)
                && (forall k :: k in keys ==> k in values)
                && after == Overwrite(before, values) + Appended(keys, values);
    OverwriteRequires(before, values);
    AppendedRequires(keys, values);
    RequiresJoin(Overwrite(before, values), Appended(keys, values), key);
    if i :| 0 <= i < |before| && before[i].key == key && before[i].required {
      assert Overwrite(before, values)[i].key == key;
    }
  }

  ghost predicate UniqueKeys(cs: seq<Config>) {
    forall i, j :: 0 <= i < j < |cs| ==> cs[i].key != cs[j].key
  }

  lemma {:induction false} UniqueAfterFirst(cs: seq<Config>, key: string)
    requires UniqueKeys(cs)
    ensures LastEntry(AfterFirst(cs, key), key).None?
  {
    if cs != [] {
      if cs[0].key == key {
        LastEntryDeclared(cs[1..], key);
        assert forall i :: 0 <= i < |cs[1..]| ==> cs[1..][i] == cs[i + 1];
      } else {
        UniqueAfterFirst(cs[1..], key);
      }
    }
  }

  /** When every key is declared at most once, every supplied value takes effect and satisfies its requirement. */
  lemma OverrideOfUniqueKeys(before: seq<Config>, values: map<string, string>, after: seq<Config>,
                             show: Printer, flat: map<string, string>)
    requires UniqueKeys(before)
    requires OverrideOf(before, values, after) && PrintsStrings(show) && FlatViewOf(flat, after, show)
    ensures forall k :: k in values ==> !Missing(after, k) && (k != "" ==> k in flat && flat[k] == values[k])
  {
    forall k | k in values ensures !Missing(after, k) && (k != "" ==> k in flat && flat[k] == values[k]) {
      UniqueAfterFirst(before, k);
      LastEntrySet(AfterFirst(before, k), k);
      OverrideViews(before, values, after, k);
    }
  }

  /** The override is silently lost on a key declared by both a parent and its child. */
  lemma OverrideLostOnDuplicate(show: Printer, flat: map<string, string>, after: seq<Config>)
    requires PrintsStrings(show)
    requires var before := [Config("k", StringValue("parent"), "", false), Config("k", StringValue("child"), "", false)];
             OverrideOf(before, map["k" := "deploy"], after)
    requires FlatViewOf(flat, after, show)
    ensures "k" in flat && flat["k"] == "child"
  {
    var p, c := Config("k", StringValue("parent"), "", false), Config("k", StringValue("child"), "", false);
    var before := [p, c];
    OverrideViews(before, map["k" := "deploy"], after, "k");
    assert before[1..] == [c] && [c][1..] == [];
    assert LastSet([c], "k") == Some(StringValue("child"));
  }
}
