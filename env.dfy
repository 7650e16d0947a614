/**
 * Environment variables: the name ffurf derives for each key, and
 * `from_env`, which merges every set, non-empty variable as a one-entry
 * root dictionary.
 */
module Env {
  import opened Values
  import opened Registry
  import opened Merge

  /** `ch.isalnum()`, for ASCII characters. */
  predicate IsAlnum(ch: char)
  {
    'a' <= ch <= 'z' || 'A' <= ch <= 'Z' || '0' <= ch <= '9'
  }

  /** Letters and digits are alphanumeric; the separators `-`, `_`, `.` and space are not. */
  lemma AlnumExamples()
    ensures IsAlnum('m') && IsAlnum('Y') && IsAlnum('7')
    ensures !IsAlnum('-') && !IsAlnum('_') && !IsAlnum('.') && !IsAlnum(' ')
  {
  }

  /** `ch.upper()`, for ASCII characters. */
  function Upper(ch: char): (u: char)
    ensures 'a' <= ch <= 'z' ==> u as int == ch as int - 32 && 'A' <= u <= 'Z'
    ensures !('a' <= ch <= 'z') ==> u == ch
    ensures IsAlnum(ch) <==> IsAlnum(u)
    ensures !('a' <= u <= 'z')
  {
    if 'a' <= ch <= 'z' then (ch as int - 32) as char else ch
  }

  /** `[ch if ch.isalnum() else "_" for ch in k]`, joined. */
  function Underscored(k: string): (r: string)
    ensures |r| == |k|
    ensures forall i :: 0 <= i < |k| ==> r[i] == if IsAlnum(k[i]) then k[i] else '_'
  {
    if k == [] then [] else [if IsAlnum(k[0]) then k[0] else '_'] + Underscored(k[1..])
  }

  /** `s.upper()`. */
  function UpperAll(s: string): (r: string)
    ensures |r| == |s|
    ensures forall i :: 0 <= i < |s| ==> r[i] == Upper(s[i])
  {
    if s == [] then [] else [Upper(s[0])] + UpperAll(s[1..])
  }

  /** The static `key_to_envkey`. */
  function KeyToEnvKey(k: string): (r: string)
    ensures |r| == |k|
    ensures forall i :: 0 <= i < |k| ==> r[i] == if IsAlnum(k[i]) then Upper(k[i]) else '_'
    ensures forall i :: 0 <= i < |r| ==> IsAlnum(r[i]) || r[i] == '_'
  {
    UpperAll(Underscored(k))
  }

  /** Deriving the variable name from a derived name changes nothing. */
  lemma EnvKeyIdempotent(k: string)
    ensures KeyToEnvKey(KeyToEnvKey(k)) == KeyToEnvKey(k)
  {
    var e := KeyToEnvKey(k);
    assert forall i :: 0 <= i < |e| ==> KeyToEnvKey(e)[i] == e[i];
  }

  lemma EnvKeyExamples()
    ensures KeyToEnvKey("my-str") == "MY_STR"
    ensures KeyToEnvKey("my_str") == "MY_STR"
    ensures KeyToEnvKey("MY_str") == "MY_STR"
  {
    assert KeyToEnvKey("my-str") == "MY_STR" by {
      assert forall i :: 0 <= i < 6 ==> KeyToEnvKey("my-str")[i] == "MY_STR"[i];
    }
    assert KeyToEnvKey("my_str") == "MY_STR" by {
      assert forall i :: 0 <= i < 6 ==> KeyToEnvKey("my_str")[i] == "MY_STR"[i];
    }
    assert KeyToEnvKey("MY_str") == "MY_STR" by {
      assert forall i :: 0 <= i < 6 ==> KeyToEnvKey("MY_str")[i] == "MY_STR"[i];
    }
  }

  /** `os.getenv(name)` when the result is truthy: set and non-empty. */
  function EnvValue(env: map<string, string>, k: string): (r: Option<string>)
    ensures r.Some? <==> KeyToEnvKey(k) in env && env[KeyToEnvKey(k)] != ""
    ensures r.Some? ==> r.value == env[KeyToEnvKey(k)]
  {
    var name := KeyToEnvKey(k);
    if name in env && env[name] != "" then Some(env[name]) else None
  }

  function EnvLabel(name: string): string { "env:" + name }

  /** The one-entry dictionary `{k: value}`. */
  function EnvDoc(k: string, value: string): (d: Doc)
    ensures d.root == map[k := Some(VStr(value))] && d.defaults.None? && d.profiles.None?
  {
    Doc(map[k := Some(VStr(value))], None, None)
  }

  /**
   * The `from_env` loop over the keys `ks`; each set variable merges its
   * one-entry dictionary over all the keys `all` of the configuration.
   */
  function FromEnvAll(cfg: map<string, KeyConf>, ks: seq<string>, all: seq<string>,
                      env: map<string, string>, site: Frame): (r: Step)
    ensures r.cfg.Keys == cfg.Keys
    decreases |ks|
  {
    if ks == [] then Step(cfg, Done)
    else
      var prev := FromEnvAll(cfg, ks[..|ks| - 1], all, env, site);
      var k := ks[|ks| - 1];
      if prev.outcome.Raised? || EnvValue(env, k).None? then prev
      else MergeAll(prev.cfg, all, EnvDoc(k, EnvValue(env, k).value), EnvLabel(KeyToEnvKey(k)), None, site)
  }

  /** One more key of the `from_env` loop, on the state the shorter loop left. */
  lemma FromEnvSnoc(cfg: map<string, KeyConf>, ks: seq<string>, i: nat, all: seq<string>,
                    env: map<string, string>, site: Frame)
    requires i < |ks|
    requires FromEnvAll(cfg, ks[..i], all, env, site).outcome.Done?
    ensures var prev := FromEnvAll(cfg, ks[..i], all, env, site);
            FromEnvAll(cfg, ks[..i + 1], all, env, site)
              == if EnvValue(env, ks[i]).None? then prev
                 else MergeAll(prev.cfg, all, EnvDoc(ks[i], EnvValue(env, ks[i]).value),
                               EnvLabel(KeyToEnvKey(ks[i])), None, site)
  {
    assert ks[..i + 1][..i] == ks[..i];
  }

  /** Once the loop over a prefix of the keys raised, the rest of the keys are not visited. */
  lemma {:induction false} EnvRaisedStops(cfg: map<string, KeyConf>, ks: seq<string>, n: nat, all: seq<string>,
                                          env: map<string, string>, site: Frame)
    requires n <= |ks|
    requires FromEnvAll(cfg, ks[..n], all, env, site).outcome.Raised?
    ensures FromEnvAll(cfg, ks, all, env, site) == FromEnvAll(cfg, ks[..n], all, env, site)
    decreases |ks| - n
  {
    if n < |ks| {
      assert ks[..n + 1][..n] == ks[..n];
      EnvRaisedStops(cfg, ks, n + 1, all, env, site);
    } else {
      assert ks[..n] == ks;
    }
  }

  /** With a one-entry dictionary for `k`, only `k` resolves to something new. */
  lemma EnvDocResolved(c: KeyConf, k: string, j: string, value: string, name: string, site: Frame)
    ensures Winner(EnvDoc(k, value), j, EnvLabel(name), None, site)
              == if j == k then Some(Entry(Some(VStr(value)), EnvLabel(name))) else None
    ensures Resolved(c, EnvDoc(k, value), j, EnvLabel(name), None, site)
              == if j == k then Resolved(c, EnvDoc(k, value), k, EnvLabel(name), None, site) else c
  {
  }

  /**
   * With a one-entry dictionary for `k`, key `j` refuses the merge exactly
   * when it is `k` and refuses the value, or when `k` is `default` and `j`
   * occurs in the value: the default tier then indexes a string.
   */
  lemma EnvDocMerges(c: KeyConf, k: string, j: string, value: string)
    ensures KeyMerges(c, EnvDoc(k, value), j, None) <==>
              (j == k ==> Accepts(c, Some(VStr(value)))) && (k == "default" ==> !IsSubstring(j, value))
  {
  }

  /**
   * Whether merging `{k: value}` over the keys `all` returns: `k` accepts
   * the value and, when `k` is `default`, no key occurs in the value.
   */
  predicate EnvKeyMerges(c: KeyConf, k: string, value: string, all: seq<string>)
  {
    Accepts(c, Some(VStr(value))) && (k == "default" ==> forall j :: j in all ==> !IsSubstring(j, value))
  }

  /** The record an environment variable's value gives a key, when its type accepts it. */
  function EnvWritten(c: KeyConf, value: string, name: string): KeyConf
  {
    match Write(c, Some(VStr(value)), EnvLabel(name))
    case Ok(c') => c'
    case Err(_) => c
  }

  /** Merging one variable's dictionary changes that variable's key alone. */
  lemma EnvMergeOne(cfg: map<string, KeyConf>, all: seq<string>, k: string, value: string,
                    name: string, site: Frame)
    requires Distinct(all) && k in all
    requires forall j :: j in all ==> j in cfg
    ensures var r := MergeAll(cfg, all, EnvDoc(k, value), EnvLabel(name), None, site);
            r.outcome.Done? <==> EnvKeyMerges(cfg[k], k, value, all)
    ensures var r := MergeAll(cfg, all, EnvDoc(k, value), EnvLabel(name), None, site);
            r.outcome.Done? ==>
              Write(cfg[k], Some(VStr(value)), EnvLabel(name)).Ok?
              && r.cfg == cfg[k := EnvWritten(cfg[k], value, name)]
  {
    var d := EnvDoc(k, value);
    MergeAllResolves(cfg, all, d, EnvLabel(name), None, site);
    forall j | j in all
      ensures KeyMerges(cfg[j], d, j, None) <==>
                (j == k ==> Accepts(cfg[k], Some(VStr(value)))) && (k == "default" ==> !IsSubstring(j, value))
    {
      EnvDocMerges(cfg[j], k, j, value);
    }
    var r := MergeAll(cfg, all, d, EnvLabel(name), None, site);
    if r.outcome.Done? {
      forall j | j in cfg
        ensures r.cfg[j] == cfg[k := EnvWritten(cfg[k], value, name)][j]
      {
        if j in all {
          EnvDocResolved(cfg[j], k, j, value, name, site);
        }
      }
      EnvDocResolved(cfg[k], k, k, value, name, site);
    }
  }

  /**
   * `from_env` returns exactly when every key whose variable is set and
   * non-empty accepts that value, and, for a key named `default`, no
   * declared key occurs in its value; then
   * each such key holds the value, coerced by its type, with source
   * `env:<VARIABLE>`, and every other key is unchanged.
   */
  lemma {:induction false} FromEnvResolves(cfg: map<string, KeyConf>, ks: seq<string>, all: seq<string>,
                                           env: map<string, string>, site: Frame)
    requires Distinct(ks) && Distinct(all)
    requires forall k :: k in ks ==> k in all
    requires forall k :: k in all ==> k in cfg
    ensures FromEnvAll(cfg, ks, all, env, site).outcome.Done? <==>
              forall k :: k in ks && EnvValue(env, k).Some? ==> EnvKeyMerges(cfg[k], k, EnvValue(env, k).value, all)
    ensures FromEnvAll(cfg, ks, all, env, site).outcome.Done? ==>
              forall k :: k in ks && EnvValue(env, k).Some? ==>
                Write(cfg[k], Some(VStr(EnvValue(env, k).value)), EnvLabel(KeyToEnvKey(k))).Ok?
                && FromEnvAll(cfg, ks, all, env, site).cfg[k]
                     == EnvWritten(cfg[k], EnvValue(env, k).value, KeyToEnvKey(k))
    ensures FromEnvAll(cfg, ks, all, env, site).outcome.Done? ==>
              forall k :: k in cfg && (k !in ks || EnvValue(env, k).None?) ==>
                FromEnvAll(cfg, ks, all, env, site).cfg[k] == cfg[k]
    decreases |ks|
  {
    if ks != [] {
      var init, k := ks[..|ks| - 1], ks[|ks| - 1];
      assert forall j :: j in ks <==> j in init || j == k;
      assert k !in init;
      assert Distinct(init);
      FromEnvResolves(cfg, init, all, env, site);
      var prev := FromEnvAll(cfg, init, all, env, site);
      if prev.outcome.Done? && EnvValue(env, k).Some? {
        EnvMergeOne(prev.cfg, all, k, EnvValue(env, k).value, KeyToEnvKey(k), site);
        assert prev.cfg[k] == cfg[k];
      }
    }
  }

  /** An int key takes the variable text `"100"` as `100`, with source `env:MY_INT`. */
  lemma EnvWrittenInt(c: KeyConf)
    requires c.keyType == TInt
    ensures Accepts(c, Some(VStr("100")))
    ensures EnvWritten(c, "100", "MY_INT") == c.(value := Some(VInt(100)), source := Some("env:MY_INT"))
  {
    assert Decimal(100) == "100";
    CoerceDecimalToInt(100);
    assert Coerce(TInt, VStr("100")) == Some(VInt(100));
    assert EnvLabel("MY_INT") == "env:MY_INT";
  }

  lemma EnvKeyMyInt()
    ensures KeyToEnvKey("my-int") == "MY_INT"
  {
    assert forall i :: 0 <= i < 6 ==> KeyToEnvKey("my-int")[i] == "MY_INT"[i];
  }

  /** `from_env` over a single declared key whose variable is set to a value that merges. */
  lemma SingleKeyFromEnv(c: KeyConf, k: string, env: map<string, string>, value: string, site: Frame)
    requires EnvValue(env, k) == Some(value) && EnvKeyMerges(c, k, value, [k])
    ensures FromEnvAll(map[k := c], [k], [k], env, site)
              == Step(map[k := EnvWritten(c, value, KeyToEnvKey(k))], Done)
  {
    var cfg := map[k := c];
    FromEnvResolves(cfg, [k], [k], env, site);
    var r := FromEnvAll(cfg, [k], [k], env, site);
    assert r.cfg == map[k := EnvWritten(c, value, KeyToEnvKey(k))];
  }

  /**
   * Two `str` keys `a` and `default` with `DEFAULT=abc`: the key `default`
   * takes the text, yet `from_env` raises, since `"a" in "abc"` holds and
   * the default tier then indexes the string.
   */
  lemma EnvDefaultKeyExample(ca: KeyConf, cd: KeyConf, site: Frame)
    requires ca.keyType == TStr && cd.keyType == TStr
    ensures Accepts(cd, Some(VStr("abc")))
    ensures FromEnvAll(map["a" := ca, "default" := cd], ["a", "default"], ["a", "default"],
                       map["DEFAULT" := "abc"], site).outcome.Raised?
  {
    var ks := ["a", "default"];
    var env := map["DEFAULT" := "abc"];
    EnvKeyDefault();
    assert EnvValue(env, "default") == Some("abc");
    assert "abc"[0..1] == "a" && OccursAt("a", "abc", 0);
    assert IsSubstring("a", "abc") && ks[0] == "a";
    assert !EnvKeyMerges(cd, "default", "abc", ks);
    assert Distinct(ks);
    FromEnvResolves(map["a" := ca, "default" := cd], ks, ks, env, site);
  }

  lemma EnvKeyDefault()
    ensures KeyToEnvKey("default") == "DEFAULT"
  {
    assert forall i :: 0 <= i < 7 ==> KeyToEnvKey("default")[i] == "DEFAULT"[i];
  }

  /**
   * `from_env` with `MY_INT=100` and one int key `my-int`: the key holds
   * `100`, from source `env:MY_INT`.
   */
  lemma EnvIntExample(c: KeyConf, site: Frame)
    requires c.keyType == TInt
    ensures FromEnvAll(map["my-int" := c], ["my-int"], ["my-int"], map["MY_INT" := "100"], site)
              == Step(map["my-int" := c.(value := Some(VInt(100)), source := Some("env:MY_INT"))], Done)
  {
    EnvKeyMyInt();
    assert EnvValue(map["MY_INT" := "100"], "my-int") == Some("100");
    EnvWrittenInt(c);
    SingleKeyFromEnv(c, "my-int", map["MY_INT" := "100"], "100", site);
  }
}
