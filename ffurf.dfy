/**
 * The `FfurfConfig` object: a registry of typed configuration keys, each
 * with a value and the source it came from. Declarations and writes change
 * the registry in place; the merges from dictionaries and from the process
 * environment are loops over the declared keys, in declaration order.
 */
module Ffurf {
  import opened Values
  import opened Ordering
  import opened Registry
  import opened Merge
  import opened Env

  /** A run of distinct names has as many members as elements. */
  lemma {:induction false} DistinctCard(ks: seq<string>)
    requires Distinct(ks)
    ensures |set k | k in ks| == |ks|
    decreases |ks|
  {
    if ks != [] {
      var init, last := ks[..|ks| - 1], ks[|ks| - 1];
      assert (set k | k in ks) == (set k | k in init) + {last};
      assert last !in init;
      DistinctCard(init);
    }
  }

  /** Every record of a key map satisfies its key: `is_valid()` on that map. */
  predicate AllSatisfied(cfg: map<string, KeyConf>)
  {
    forall k :: k in cfg ==> Satisfied(cfg[k])
  }

  /**
   * `is_valid()` on a fresh registry, and after declaring one key without a
   * default: an unset required key makes the configuration invalid, an unset
   * optional key does not.
   */
  lemma ValidityExamples(key: string, t: KeyType)
    ensures AllSatisfied(map[])
    ensures Declare(key, t, None, false, None, false).Ok?
    ensures !AllSatisfied(map[key := Declare(key, t, None, false, None, false).value])
    ensures Declare(key, t, None, false, None, true).Ok?
    ensures AllSatisfied(map[key := Declare(key, t, None, false, None, true).value])
  {
    var m := map[key := Declare(key, t, None, false, None, false).value];
    assert key in m && !Satisfied(m[key]);
  }

  class FfurfConfig {
    /** `self.config`: the record of every declared key. */
    var config: map<string, KeyConf>
    /** `self.config_keys`: the declared names. */
    var configKeys: set<string>
    /** The insertion order of `self.config`, which its loops follow. */
    var order: seq<string>

    ghost predicate WellFormed()
      reads this
    {
      && configKeys == config.Keys
      && Distinct(order)
      && (forall k :: k in order <==> k in config)
      && (forall k :: k in config ==> config[k].name == k && Consistent(config[k]))
    }

    /** `FfurfConfig()`: nothing is declared, so the configuration is valid. */
    constructor ()
      ensures WellFormed()
      ensures config == map[] && configKeys == {} && order == []
      ensures IsValid()
    {
      config := map[];
      configKeys := {};
      order := [];
    }

    // -------------------------------------------------------------------
    // Registry
    // -------------------------------------------------------------------

    /**
     * `add_config_key`: store the record `Declare` builds, replacing any
     * earlier declaration of `key` in place, and add `key` to the names.
     * Only `int(...)` of a truthy default can raise, before anything changes.
     */
    method AddConfigKey(key: string, keyType: KeyType, default: Option<Value>, secret: bool,
                        partialSecret: Option<int>, optional: bool) returns (out: Outcome)
      requires WellFormed()
      modifies this
      ensures WellFormed()
      ensures out.Raised? <==> Declare(key, keyType, default, secret, partialSecret, optional).Err?
      ensures out.Raised? ==>
                out.error == ValueErr
                && config == old(config) && configKeys == old(configKeys) && order == old(order)
      ensures out.Done? ==>
                config == old(config)[key := Declare(key, keyType, default, secret, partialSecret, optional).value]
                && configKeys == old(configKeys) + {key}
                && order == if key in old(config) then old(order) else old(order) + [key]
      ensures out.Done? ==>
                (IsValid() <==> (optional || Truthy(config[key].value))
                                && forall k :: k in old(config) && k != key ==> Satisfied(old(config)[k]))
    {
      var r := Declare(key, keyType, default, secret, partialSecret, optional);
      if r.Err? {
        return Raised(r.error);
      }
      if key !in config {
        order := order + [key];
      }
      config := config[key := r.value];
      configKeys := configKeys + {key};
      out := Done;
    }

    /** `k in self`. */
    function Contains(k: string): (b: bool)
      reads this
      ensures WellFormed() ==> (b <==> k in config && k in order)
    {
      k in configKeys
    }

    /** `len(self)`: the number of declared keys. */
    function Len(): (n: nat)
      reads this
      requires WellFormed()
      ensures n == |config| && n == |order|
    {
      DistinctCard(order);
      assert (set k | k in order) == configKeys;
      |configKeys|
    }

    /** `list(self)`: the declared names, each once, in ascending order. */
    ghost function SortedKeys(): (r: seq<string>)
      reads this
      requires WellFormed()
      ensures |r| == Len()
      ensures forall k :: k in r <==> Contains(k)
      ensures StrictlyAscending(r)
    {
      Sorted(configKeys)
    }

    // -------------------------------------------------------------------
    // The write path
    // -------------------------------------------------------------------

    /**
     * `set_config_key(key, value, source)`, called from `caller`. It raises
     * and changes nothing, or replaces the value and source of `key` alone.
     */
    method SetConfigKey(key: string, value: Option<Value>, source: Option<string>, caller: Frame)
      returns (out: Outcome)
      requires WellFormed()
      modifies this
      ensures WellFormed()
      ensures Step(config, out) == SetKey(old(config), key, value, source, caller)
      ensures configKeys == old(configKeys) && order == old(order)
      ensures out.Done? ==> Get(key, None) == if value.None? then None else Coerce(config[key].keyType, value.value)
    {
      var src := EffectiveSource(source, caller);
      if key !in config {
        return Raised(KeyErr(key));
      }
      var c := config[key];
      var v := value;
      if value.None? {
        if !c.optional {
          return Raised(NullErr(key));
        }
      } else {
        v := Coerce(c.keyType, value.value);
        if v.None? {
          return Raised(TypeErr(key));
        }
      }
      config := config[key := c.(value := v, source := Some(src))];
      out := Done;
    }

    /** `self[key] = value`, written at `caller`: a write whose source is that call site. */
    method SetItem(key: string, value: Option<Value>, caller: Frame) returns (out: Outcome)
      requires WellFormed()
      modifies this
      ensures WellFormed()
      ensures Step(config, out) == SetKey(old(config), key, value, Some(CallSiteSource(caller)), caller)
      ensures configKeys == old(configKeys) && order == old(order)
    {
      out := SetConfigKey(key, value, Some(CallSiteSource(caller)), caller);
    }

    // -------------------------------------------------------------------
    // Merges
    // -------------------------------------------------------------------

    /** One tier of the `_from_dict` loop body: write the tier's entry for `k`, if it has one. */
    method WriteTier(k: string, t: Tier, source: string, site: Frame) returns (out: Outcome)
      requires WellFormed()
      modifies this
      ensures WellFormed()
      ensures Step(config, out) == ApplyTier(Step(old(config), Done), k, t, source, site)
      ensures configKeys == old(configKeys) && order == old(order)
    {
      match t
      case Miss => out := Done;
      case Broken(e) => out := Raised(e);
      case Hit(raw) => out := SetConfigKey(k, raw, Some(source), site);
    }

    /** The body of the `_from_dict` loop for the key `k`: its three tiers in turn. */
    method MergeOneKey(k: string, d: Doc, src: string, profile: Option<string>, site: Frame)
      returns (out: Outcome)
      requires WellFormed()
      modifies this
      ensures WellFormed()
      ensures Step(config, out) == MergeKey(old(config), k, d, src, profile, site)
      ensures configKeys == old(configKeys) && order == old(order)
    {
      out := WriteTier(k, RootTier(d, k), src, site);
      if out.Done? {
        out := WriteTier(k, DefaultTier(d, k), DefaultLabel(src), site);
        if out.Done? && ProfileSelected(profile) {
          out := WriteTier(k, ProfileTier(d, profile.value, k), ProfileLabel(src, profile.value), site);
        }
      }
    }

    /**
     * `_from_dict(d, src, profile)`: for every declared key in insertion
     * order, write its root entry, then its `default` entry, then (when a
     * profile is selected) its profile entry; the first exception ends the
     * loop and leaves the keys already written as they are. `site` is the
     * frame the inner writes see as their caller.
     */
    method MergeDict(d: Doc, src: string, profile: Option<string>, site: Frame) returns (out: Outcome)
      requires WellFormed()
      modifies this
      ensures WellFormed()
      ensures Step(config, out) == MergeAll(old(config), old(order), d, src, profile, site)
      ensures configKeys == old(configKeys) && order == old(order)
    {
      ghost var cfg0 := config;
      out := Done;
      var i := 0;
      while i < |order|
        invariant 0 <= i <= |order|
        invariant WellFormed()
        invariant configKeys == old(configKeys) && order == old(order)
        invariant out == Done
        invariant Step(config, Done) == MergeAll(cfg0, order[..i], d, src, profile, site)
      {
        var k := order[i];
        MergeAllSnoc(cfg0, order, i, d, src, profile, site);
        out := MergeOneKey(k, d, src, profile, site);
        if out.Raised? {
          RaisedStops(cfg0, order, i + 1, d, src, profile, site);
          return;
        }
        i := i + 1;
      }
      assert order[..i] == order;
    }

    /**
     * `from_dict(d, source, profile)`, called from `caller`: the merge with
     * the caller's site as its source; the `source` argument is not used.
     */
    method FromDict(d: Doc, source: string, profile: Option<string>, caller: Frame, site: Frame)
      returns (out: Outcome)
      requires WellFormed()
      modifies this
      ensures WellFormed()
      ensures Step(config, out) == MergeAll(old(config), old(order), d, CallSiteSource(caller), profile, site)
      ensures configKeys == old(configKeys) && order == old(order)
    {
      out := MergeDict(d, CallSiteSource(caller), profile, site);
    }

    /**
     * `from_toml(path, profile)` and `from_json(path, profile)`, with the
     * file's existence and its parsed contents given: a missing file raises
     * and changes nothing; otherwise the contents are merged with the path
     * as source and without the profile.
     */
    method FromFile(path: string, present: bool, parsed: Doc, profile: Option<string>, site: Frame)
      returns (out: Outcome)
      requires WellFormed()
      modifies this
      ensures WellFormed()
      ensures !present ==> out == Raised(FileMissing(path)) && config == old(config)
      ensures present ==> Step(config, out) == MergeAll(old(config), old(order), parsed, path, None, site)
      ensures configKeys == old(configKeys) && order == old(order)
    {
      if !present {
        return Raised(FileMissing(path));
      }
      out := MergeDict(parsed, path, None, site);
    }

    /**
     * `from_env()` with the process environment `env`: for every declared
     * key whose variable is set and non-empty, merge the one-entry
     * dictionary `{key: value}` with source `env:<VARIABLE>`.
     */
    method FromEnv(env: map<string, string>, site: Frame) returns (out: Outcome)
      requires WellFormed()
      modifies this
      ensures WellFormed()
      ensures Step(config, out) == FromEnvAll(old(config), old(order), old(order), env, site)
      ensures configKeys == old(configKeys) && order == old(order)
    {
      ghost var cfg0 := config;
      out := Done;
      var i := 0;
      while i < |order|
        invariant 0 <= i <= |order|
        invariant WellFormed()
        invariant configKeys == old(configKeys) && order == old(order)
        invariant out == Done
        invariant Step(config, Done) == FromEnvAll(cfg0, order[..i], order, env, site)
      {
        var k := order[i];
        FromEnvSnoc(cfg0, order, i, order, env, site);
        var name := KeyToEnvKey(k);
        var found := if name in env then Some(env[name]) else None;
        if found.Some? && found.value != "" {
          out := MergeDict(EnvDoc(k, found.value), EnvLabel(name), None, site);
          if out.Raised? {
            EnvRaisedStops(cfg0, order, i + 1, order, env, site);
            return;
          }
        }
        i := i + 1;
      }
      assert order[..i] == order;
    }

    // -------------------------------------------------------------------
    // Read views
    // -------------------------------------------------------------------

    /** `get(k, default)`: never raises; `default` stands in for an undeclared or unset key. */
    function Get(k: string, default: Option<Value>): (r: Option<Value>)
      reads this
      ensures k !in config ==> r == default
      ensures k in config && config[k].value.None? ==> r == default
      ensures k in config && config[k].value.Some? ==> r == config[k].value
    {
      var v := if k in config then config[k].value else default;
      if v.None? then default else v
    }

    /** `self[k]`: `get(k)` for a declared key, `KeyError` otherwise. */
    function GetItem(k: string): (r: Result<Option<Value>, Error>)
      reads this
      ensures r.Err? <==> !Contains(k)
      ensures r.Err? ==> r.error == KeyErr(k)
      ensures r.Ok? ==> r.value == Get(k, None)
    {
      if k !in configKeys then Err(KeyErr(k)) else Ok(Get(k, None))
    }

    /** `get_keyconf(k)`: the record of a declared key. */
    function GetKeyConf(k: string): (r: Result<KeyConf, Error>)
      reads this
      ensures r.Err? <==> k !in configKeys || k !in config
      ensures r.Err? ==> r.error == KeyErr(k)
      ensures r.Ok? ==> r.value == config[k]
      ensures r.Ok? && WellFormed() ==> r.value.name == k && Consistent(r.value)
    {
      if k !in configKeys then Err(KeyErr(k))
      else if k !in config then Err(KeyErr(k))
      else Ok(config[k])
    }

    /** `get_source(k)`: `str` of a declared key's source, `"None"` when it has none. */
    function GetSource(k: string): (r: Result<string, Error>)
      reads this
      ensures r.Err? <==> k !in configKeys || k !in config
      ensures r.Err? ==> r.error == KeyErr(k)
      ensures r.Ok? && config[k].source.Some? ==> r.value == config[k].source.value
      ensures r.Ok? && config[k].source.None? ==> r.value == "None"
      ensures r.Ok? && WellFormed() && config[k].value.Some? ==> r.value == config[k].source.value
    {
      if k !in configKeys then Err(KeyErr(k))
      else if k !in config then Err(KeyErr(k))
      else Ok(SourceText(config[k]))
    }

    /** `get_clean(k)`: the display text of a declared key, with secrets masked. */
    function GetClean(k: string): (r: Result<string, Error>)
      reads this
      ensures r == Err(KeyErr(k)) <==> k !in configKeys
      ensures k in configKeys && GetItem(k) == Ok(None) ==> r == Ok("")
      ensures k in config && k in configKeys ==> r == Redact(config[k])
      ensures k in config && k in configKeys && config[k].secret && config[k].value.Some? ==> r == Ok(Mask)
    {
      if k !in configKeys then Err(KeyErr(k))
      else if k !in config then Ok("")
      else Redact(config[k])
    }

    // -------------------------------------------------------------------
    // Validity
    // -------------------------------------------------------------------

    /** Every declared key is optional or holds a truthy value. */
    predicate IsValid()
      reads this
    {
      AllSatisfied(config)
    }

    /** `is_valid()`: the loop over the records, stopping at the first unsatisfied one. */
    method CheckValid() returns (b: bool)
      requires WellFormed()
      ensures b == IsValid()
    {
      var i := 0;
      while i < |order|
        invariant 0 <= i <= |order|
        invariant forall j :: 0 <= j < i ==> Satisfied(config[order[j]])
      {
        var c := config[order[i]];
        if !Truthy(c.value) && !c.optional {
          return false;
        }
        i := i + 1;
      }
      return true;
    }
  }
}
