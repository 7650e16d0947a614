/**
 * The tiered dictionary merge of `_from_dict`: for every declared key, in
 * the configuration's insertion order, the root entry, then the `default`
 * section, then the selected `profile` section are written through the
 * single write path; later tiers overwrite earlier ones and a failure stops
 * the merge without undoing what was already written.
 */
module Merge {
  import opened Values
  import opened Registry

  type Section = map<string, Option<Value>>

  /**
   * A dictionary handed to the merge: its ordinary root entries, its
   * `"default"` entry when that is a dict, and its `"profile"` entry when
   * that is a dict of dicts. A section is not also a root entry: a nested
   * dict is no key value.
   */
  datatype Doc = Doc(root: Section, defaults: Option<Section>, profiles: Option<map<string, Section>>)

  predicate Distinct(ks: seq<string>)
  {
    forall i, j :: 0 <= i < j < |ks| ==> ks[i] != ks[j]
  }

  /** Python `k in s` for strings. */
  predicate IsSubstring(k: string, s: string)
  {
    exists i :: 0 <= i <= |s| && OccursAt(k, s, i)
  }

  predicate OccursAt(k: string, s: string, i: nat)
  {
    i + |k| <= |s| && s[i..i + |k|] == k
  }

  /**
   * Python's substring test: the empty string and `s` itself occur in `s`,
   * a longer string never does, and an occurrence survives extending `s`.
   */
  lemma SubstringFacts(k: string, s: string, t: string)
    ensures IsSubstring("", s) && IsSubstring(s, s)
    ensures |k| > |s| ==> !IsSubstring(k, s)
    ensures IsSubstring(k, s) ==> IsSubstring(k, s + t) && IsSubstring(k, t + s)
  {
    assert OccursAt("", s, 0) && OccursAt(s, s, 0);
    if IsSubstring(k, s) {
      var i :| 0 <= i <= |s| && OccursAt(k, s, i);
      assert (s + t)[i..i + |k|] == s[i..i + |k|];
      assert OccursAt(k, s + t, i);
      assert (t + s)[|t| + i..|t| + i + |k|] == s[i..i + |k|];
      assert OccursAt(k, t + s, |t| + i);
    }
  }

  /** What one tier has for a key: an entry, nothing, or the exception looking it up raises. */
  datatype Tier = Hit(raw: Option<Value>) | Miss | Broken(error: Error)

  /** `k in d`, and `d[k]`. */
  function RootTier(d: Doc, k: string): (t: Tier)
    ensures t.Hit? <==> k in d.root
    ensures t.Hit? ==> t.raw == d.root[k]
    ensures !t.Broken?
  {
    if k in d.root then Hit(d.root[k]) else Miss
  }

  /**
   * `k in d.get("default", {})`, and `d["default"][k]`. A scalar stored under
   * `"default"` is searched as Python searches it: a string by substring
   * (then indexing it by `k` raises), anything else raises at once.
   */
  function DefaultTier(d: Doc, k: string): (t: Tier)
    ensures d.defaults.Some? ==> (t.Hit? <==> k in d.defaults.value) && !t.Broken?
    ensures t.Hit? ==> d.defaults.Some? && t.raw == d.defaults.value[k]
    ensures d.defaults.None? && "default" !in d.root ==> t.Miss?
    ensures d.defaults.None? && "default" in d.root ==>
              (t.Miss? <==> d.root["default"].Some? && d.root["default"].value.VStr?
                            && !IsSubstring(k, d.root["default"].value.s))
    ensures t.Broken? ==> t.error == NotContainer
  {
    if d.defaults.Some? then
      if k in d.defaults.value then Hit(d.defaults.value[k]) else Miss
    else if "default" in d.root then
      match d.root["default"]
      case Some(VStr(s)) => if IsSubstring(k, s) then Broken(NotContainer) else Miss
      case _ => Broken(NotContainer)
    else Miss
  }

  /**
   * `k in d.get("profile", {}).get(p)`, and `d["profile"][p][k]`. A missing
   * profile makes the test `k in None`, which raises TypeError; a scalar
   * under `"profile"` has no `.get`, which raises AttributeError.
   */
  function ProfileTier(d: Doc, p: string, k: string): (t: Tier)
    ensures t.Broken? <==> d.profiles.None? || p !in d.profiles.value
    ensures t.Hit? <==> d.profiles.Some? && p in d.profiles.value && k in d.profiles.value[p]
    ensures t.Hit? ==> t.raw == d.profiles.value[p][k]
    ensures t.Broken? ==> t.error == if d.profiles.None? && "profile" in d.root then NoAttribute else NotContainer
  {
    if d.profiles.Some? then
      if p in d.profiles.value then
        if k in d.profiles.value[p] then Hit(d.profiles.value[p][k]) else Miss
      else Broken(NotContainer)
    else if "profile" in d.root then Broken(NoAttribute)
    else Broken(NotContainer)
  }

  /** `if profile:` */
  function ProfileSelected(profile: Option<string>): (b: bool)
    ensures b <==> profile.Some? && |profile.value| > 0
  {
    profile.Some? && profile.value != ""
  }

  function DefaultLabel(src: string): string { src + ":default" }

  function ProfileLabel(src: string, p: string): string { src + ":profile." + p }

  /** One tier's step for key `k` after the earlier tiers returned. */
  function ApplyTier(s: Step, k: string, t: Tier, source: string, site: Frame): (r: Step)
    ensures r.cfg.Keys == s.cfg.Keys
  {
    match t
    case Miss => s
    case Broken(e) => Step(s.cfg, Raised(e))
    case Hit(raw) => SetKey(s.cfg, k, raw, Some(source), site)
  }

  /** The body of the `_from_dict` loop for one key. */
  function MergeKey(cfg: map<string, KeyConf>, k: string, d: Doc, src: string,
                    profile: Option<string>, site: Frame): (r: Step)
    ensures r.cfg.Keys == cfg.Keys
  {
    var s1 := ApplyTier(Step(cfg, Done), k, RootTier(d, k), src, site);
    if s1.outcome.Raised? then s1
    else
      var s2 := ApplyTier(s1, k, DefaultTier(d, k), DefaultLabel(src), site);
      if s2.outcome.Raised? || !ProfileSelected(profile) then s2
      else ApplyTier(s2, k, ProfileTier(d, profile.value, k), ProfileLabel(src, profile.value), site)
  }

  /** The `_from_dict` loop over the keys `ks`, stopping at the first exception. */
  function MergeAll(cfg: map<string, KeyConf>, ks: seq<string>, d: Doc, src: string,
                    profile: Option<string>, site: Frame): (r: Step)
    ensures r.cfg.Keys == cfg.Keys
    decreases |ks|
  {
    if ks == [] then Step(cfg, Done)
    else
      var prev := MergeAll(cfg, ks[..|ks| - 1], d, src, profile, site);
      if prev.outcome.Raised? then prev
      else MergeKey(prev.cfg, ks[|ks| - 1], d, src, profile, site)
  }

  // ---------------------------------------------------------------------
  // When the merge returns
  // ---------------------------------------------------------------------

  /** A tier lets the merge go on: it has no entry, or the record accepts its entry. */
  predicate TierAccepts(c: KeyConf, t: Tier)
  {
    match t
    case Miss => true
    case Broken(_) => false
    case Hit(raw) => Accepts(c, raw)
  }

  /** No tier of `d` raises for the key `k` with record `c`. */
  predicate KeyMerges(c: KeyConf, d: Doc, k: string, profile: Option<string>)
  {
    && TierAccepts(c, RootTier(d, k))
    && TierAccepts(c, DefaultTier(d, k))
    && (ProfileSelected(profile) ==> TierAccepts(c, ProfileTier(d, profile.value, k)))
  }

  /** One tier's step: it returns exactly when the tier accepts, and then writes at most its entry. */
  lemma TierStep(s: Step, k: string, t: Tier, source: string, site: Frame)
    requires s.outcome.Done? && k in s.cfg
    ensures ApplyTier(s, k, t, source, site).outcome.Done? <==> TierAccepts(s.cfg[k], t)
    ensures ApplyTier(s, k, t, source, site).outcome.Raised? ==> ApplyTier(s, k, t, source, site).cfg == s.cfg
    ensures ApplyTier(s, k, t, source, site).outcome.Raised? && t.Broken? ==>
              ApplyTier(s, k, t, source, site).outcome.error == t.error
    ensures ApplyTier(s, k, t, source, site).outcome.Done? ==>
              ApplyTier(s, k, t, source, site).cfg
                == if t.Hit? then s.cfg[k := Write(s.cfg[k], t.raw, EffectiveSource(Some(source), site)).value]
                   else s.cfg
  {
  }

  // ---------------------------------------------------------------------
  // The precedence rule, stated independently of the loop
  // ---------------------------------------------------------------------

  /** An entry to write and the source it is recorded with. */
  datatype Entry = Entry(raw: Option<Value>, source: string)

  /** The highest tier that has `k`: profile, then default, then root. */
  function Winner(d: Doc, k: string, src: string, profile: Option<string>, site: Frame): Option<Entry>
  {
    if ProfileSelected(profile) && ProfileTier(d, profile.value, k).Hit? then
      Some(Entry(ProfileTier(d, profile.value, k).raw, ProfileLabel(src, profile.value)))
    else if DefaultTier(d, k).Hit? then
      Some(Entry(DefaultTier(d, k).raw, DefaultLabel(src)))
    else if k in d.root then
      Some(Entry(d.root[k], EffectiveSource(Some(src), site)))
    else None
  }

  /** The record of `k` once the winning entry, if any, is written. */
  function Resolved(c: KeyConf, d: Doc, k: string, src: string, profile: Option<string>, site: Frame): KeyConf
  {
    match Winner(d, k, src, profile, site)
    case None => c
    case Some(e) =>
      match Write(c, e.raw, e.source)
      case Ok(c') => c'
      case Err(_) => c
  }

  /**
   * Merging one key changes that key alone. It returns exactly when no tier
   * raises and the record accepts every tier's entry, and then the key holds
   * the highest tier's entry (written through its type) with that tier's
   * source, or is unchanged when no tier has it.
   */
  lemma MergeKeyResolves(cfg: map<string, KeyConf>, k: string, d: Doc, src: string,
                         profile: Option<string>, site: Frame)
    requires k in cfg
    ensures MergeKey(cfg, k, d, src, profile, site).cfg.Keys == cfg.Keys
    ensures forall j :: j in cfg && j != k ==> MergeKey(cfg, k, d, src, profile, site).cfg[j] == cfg[j]
    ensures MergeKey(cfg, k, d, src, profile, site).outcome.Done? <==> KeyMerges(cfg[k], d, k, profile)
    ensures MergeKey(cfg, k, d, src, profile, site).outcome.Done? ==>
              MergeKey(cfg, k, d, src, profile, site).cfg[k] == Resolved(cfg[k], d, k, src, profile, site)
    ensures MergeKey(cfg, k, d, src, profile, site).outcome.Done? && Winner(d, k, src, profile, site).Some? ==>
              var e := Winner(d, k, src, profile, site).value;
              Write(cfg[k], e.raw, e.source).Ok?
  {
    var c := cfg[k];
    var s0 := Step(cfg, Done);
    var t1 := RootTier(d, k);
    TierStep(s0, k, t1, src, site);
    var s1 := ApplyTier(s0, k, t1, src, site);
    if s1.outcome.Done? {
      var t2 := DefaultTier(d, k);
      TierStep(s1, k, t2, DefaultLabel(src), site);
      if t2.Hit? {
        WriteForgetsPrior(c, s1.cfg[k].value, s1.cfg[k].source, t2.raw, DefaultLabel(src));
      }
      var s2 := ApplyTier(s1, k, t2, DefaultLabel(src), site);
      if s2.outcome.Done? && ProfileSelected(profile) {
        var t3 := ProfileTier(d, profile.value, k);
        TierStep(s2, k, t3, ProfileLabel(src, profile.value), site);
        if t3.Hit? {
          WriteForgetsPrior(c, s2.cfg[k].value, s2.cfg[k].source, t3.raw, ProfileLabel(src, profile.value));
        }
      }
    }
  }

  /**
   * The whole merge returns exactly when every key merges; then every merged
   * key holds its resolved record. Keys outside the loop are unchanged.
   */
  lemma {:induction false} MergeAllResolves(cfg: map<string, KeyConf>, ks: seq<string>, d: Doc, src: string,
                                            profile: Option<string>, site: Frame)
    requires Distinct(ks) && forall k :: k in ks ==> k in cfg
    ensures MergeAll(cfg, ks, d, src, profile, site).cfg.Keys == cfg.Keys
    ensures forall k :: k in cfg && k !in ks ==> MergeAll(cfg, ks, d, src, profile, site).cfg[k] == cfg[k]
    ensures MergeAll(cfg, ks, d, src, profile, site).outcome.Done? <==>
              forall k :: k in ks ==> KeyMerges(cfg[k], d, k, profile)
    ensures MergeAll(cfg, ks, d, src, profile, site).outcome.Done? ==>
              forall k :: k in ks ==>
                MergeAll(cfg, ks, d, src, profile, site).cfg[k] == Resolved(cfg[k], d, k, src, profile, site)
    ensures MergeAll(cfg, ks, d, src, profile, site).outcome.Done? ==>
              forall k :: k in ks && Winner(d, k, src, profile, site).Some? ==>
                Write(cfg[k], Winner(d, k, src, profile, site).value.raw,
                      Winner(d, k, src, profile, site).value.source).Ok?
    decreases |ks|
  {
    if ks != [] {
      var init, last := ks[..|ks| - 1], ks[|ks| - 1];
      assert forall k :: k in ks <==> k in init || k == last;
      assert last !in init;
      MergeAllResolves(cfg, init, d, src, profile, site);
      var prev := MergeAll(cfg, init, d, src, profile, site);
      if prev.outcome.Done? {
        MergeKeyResolves(prev.cfg, last, d, src, profile, site);
      }
    }
  }

  /** The merge of one more key is that key's merge on the state the shorter merge left. */
  lemma MergeAllSnoc(cfg: map<string, KeyConf>, ks: seq<string>, i: nat, d: Doc, src: string,
                     profile: Option<string>, site: Frame)
    requires i < |ks|
    requires MergeAll(cfg, ks[..i], d, src, profile, site).outcome.Done?
    ensures MergeAll(cfg, ks[..i + 1], d, src, profile, site)
              == MergeKey(MergeAll(cfg, ks[..i], d, src, profile, site).cfg, ks[i], d, src, profile, site)
  {
    assert ks[..i + 1][..i] == ks[..i];
  }

  /** Once the merge of a prefix raised, the rest of the keys are not visited. */
  lemma {:induction false} RaisedStops(cfg: map<string, KeyConf>, ks: seq<string>, n: nat, d: Doc, src: string,
                                       profile: Option<string>, site: Frame)
    requires n <= |ks|
    requires MergeAll(cfg, ks[..n], d, src, profile, site).outcome.Raised?
    ensures MergeAll(cfg, ks, d, src, profile, site) == MergeAll(cfg, ks[..n], d, src, profile, site)
    decreases |ks| - n
  {
    if n < |ks| {
      assert ks[..n + 1][..n] == ks[..n];
      RaisedStops(cfg, ks, n + 1, d, src, profile, site);
    } else {
      assert ks[..n] == ks;
    }
  }

  /**
   * The merge of `ks` reached `ks[j]` with everything before it returned,
   * and `ks[j]` is a key that does not merge; in `after`, the keys before
   * `ks[j]` hold their resolved records and the keys after it their original
   * ones.
   */
  ghost predicate FailedAt(cfg: map<string, KeyConf>, ks: seq<string>, j: nat, d: Doc, src: string,
                           profile: Option<string>, site: Frame, after: map<string, KeyConf>)
    requires j < |ks| && forall k :: k in ks ==> k in cfg
    requires after.Keys == cfg.Keys
  {
    && MergeAll(cfg, ks[..j], d, src, profile, site).outcome.Done?
    && !KeyMerges(cfg[ks[j]], d, ks[j], profile)
    && (forall i :: 0 <= i < j ==> after[ks[i]] == Resolved(cfg[ks[i]], d, ks[i], src, profile, site))
    && (forall i :: j < i < |ks| ==> after[ks[i]] == cfg[ks[i]])
  }

  /**
   * No rollback: when the merge raises, it does so at a key `ks[j]` whose
   * tiers refuse it; the keys before it hold their resolved records and the
   * keys after it are untouched.
   */
  lemma {:induction false} MergeAllNoRollback(cfg: map<string, KeyConf>, ks: seq<string>, d: Doc, src: string,
                                              profile: Option<string>, site: Frame)
    requires Distinct(ks) && forall k :: k in ks ==> k in cfg
    requires MergeAll(cfg, ks, d, src, profile, site).outcome.Raised?
    ensures var r := MergeAll(cfg, ks, d, src, profile, site);
            exists j :: 0 <= j < |ks| && FailedAt(cfg, ks, j, d, src, profile, site, r.cfg)
    decreases |ks|
  {
    var init := ks[..|ks| - 1];
    assert Distinct(init);
    assert forall k :: k in init ==> k in ks;
    var prev := MergeAll(cfg, init, d, src, profile, site);
    if prev.outcome.Raised? {
      MergeAllNoRollback(cfg, init, d, src, profile, site);
      var j :| 0 <= j < |init| && FailedAt(cfg, init, j, d, src, profile, site, prev.cfg);
      FailedEarlier(cfg, ks, j, d, src, profile, site);
    } else {
      FailedLast(cfg, ks, d, src, profile, site);
    }
  }

  lemma FailedEarlier(cfg: map<string, KeyConf>, ks: seq<string>, j: nat, d: Doc, src: string,
                      profile: Option<string>, site: Frame)
    requires |ks| > 0 && Distinct(ks) && forall k :: k in ks ==> k in cfg
    requires j < |ks| - 1
    requires MergeAll(cfg, ks[..|ks| - 1], d, src, profile, site).outcome.Raised?
    requires FailedAt(cfg, ks[..|ks| - 1], j, d, src, profile, site,
                      MergeAll(cfg, ks[..|ks| - 1], d, src, profile, site).cfg)
    ensures FailedAt(cfg, ks, j, d, src, profile, site, MergeAll(cfg, ks, d, src, profile, site).cfg)
  {
    var init, last := ks[..|ks| - 1], ks[|ks| - 1];
    var prev := MergeAll(cfg, init, d, src, profile, site);
    var r := MergeAll(cfg, ks, d, src, profile, site);
    assert r == prev;
    assert init[..j] == ks[..j];
    assert last !in init;
    MergeAllResolves(cfg, init, d, src, profile, site);
    forall i | 0 <= i < j
      ensures r.cfg[ks[i]] == Resolved(cfg[ks[i]], d, ks[i], src, profile, site)
    {
      assert ks[i] == init[i];
    }
    forall i | j < i < |ks|
      ensures r.cfg[ks[i]] == cfg[ks[i]]
    {
      if i < |init| {
        assert ks[i] == init[i];
      }
    }
  }

  lemma FailedLast(cfg: map<string, KeyConf>, ks: seq<string>, d: Doc, src: string,
                   profile: Option<string>, site: Frame)
    requires |ks| > 0 && Distinct(ks) && forall k :: k in ks ==> k in cfg
    requires MergeAll(cfg, ks[..|ks| - 1], d, src, profile, site).outcome.Done?
    requires MergeAll(cfg, ks, d, src, profile, site).outcome.Raised?
    ensures FailedAt(cfg, ks, |ks| - 1, d, src, profile, site, MergeAll(cfg, ks, d, src, profile, site).cfg)
  {
    var init, last := ks[..|ks| - 1], ks[|ks| - 1];
    var prev := MergeAll(cfg, init, d, src, profile, site);
    var r := MergeAll(cfg, ks, d, src, profile, site);
    assert r == MergeKey(prev.cfg, last, d, src, profile, site);
    assert Distinct(init) && last !in init;
    assert forall k :: k in init ==> k in ks;
    MergeAllResolves(cfg, init, d, src, profile, site);
    MergeKeyResolves(prev.cfg, last, d, src, profile, site);
    assert prev.cfg[last] == cfg[last];
    forall i | 0 <= i < |ks| - 1
      ensures r.cfg[ks[i]] == Resolved(cfg[ks[i]], d, ks[i], src, profile, site)
    {
      assert ks[i] == init[i] && ks[i] != last;
    }
  }

  /** The merge over a single declared key. */
  lemma SingleKeyMerge(c: KeyConf, k: string, d: Doc, src: string, profile: Option<string>, site: Frame)
    ensures MergeAll(map[k := c], [k], d, src, profile, site).outcome.Done? <==> KeyMerges(c, d, k, profile)
    ensures KeyMerges(c, d, k, profile) ==>
              MergeAll(map[k := c], [k], d, src, profile, site)
                == Step(map[k := Resolved(c, d, k, src, profile, site)], Done)
    ensures !KeyMerges(c, d, k, profile) ==>
              MergeAll(map[k := c], [k], d, src, profile, site).cfg.Keys == {k}
  {
    var cfg := map[k := c];
    MergeAllResolves(cfg, [k], d, src, profile, site);
    if KeyMerges(c, d, k, profile) {
      assert MergeAll(cfg, [k], d, src, profile, site).cfg == map[k := Resolved(c, d, k, src, profile, site)];
    }
  }

  /**
   * The precedence rule on one integer key: with root 1, default 2 and
   * profile `sam` 3, the merge with profile `sam` stores 3 from the profile
   * tier, and without a profile it stores 2 from the default tier.
   */
  lemma PrecedenceExample(c: KeyConf, src: string, site: Frame)
    requires c.keyType == TInt
    ensures var d := Doc(map["my-int" := Some(VInt(1))], Some(map["my-int" := Some(VInt(2))]),
                         Some(map["sam" := map["my-int" := Some(VInt(3))]]));
            && MergeAll(map["my-int" := c], ["my-int"], d, src, Some("sam"), site)
                 == Step(map["my-int" := c.(value := Some(VInt(3)), source := Some(ProfileLabel(src, "sam")))], Done)
            && MergeAll(map["my-int" := c], ["my-int"], d, src, None, site)
                 == Step(map["my-int" := c.(value := Some(VInt(2)), source := Some(DefaultLabel(src)))], Done)
  {
    var d := Doc(map["my-int" := Some(VInt(1))], Some(map["my-int" := Some(VInt(2))]),
                 Some(map["sam" := map["my-int" := Some(VInt(3))]]));
    assert KeyMerges(c, d, "my-int", Some("sam")) && KeyMerges(c, d, "my-int", None);
    SingleKeyMerge(c, "my-int", d, src, Some("sam"), site);
    SingleKeyMerge(c, "my-int", d, src, None, site);
  }

  /**
   * A dictionary with only a root entry 1 stores 1 with the dictionary's
   * label; asked for profile `sam`, which it lacks, the merge raises.
   */
  lemma RootOnlyExample(c: KeyConf, src: string, site: Frame)
    requires c.keyType == TInt && src != ""
    ensures var d := Doc(map["my-int" := Some(VInt(1))], None, None);
            && MergeAll(map["my-int" := c], ["my-int"], d, src, None, site)
                 == Step(map["my-int" := c.(value := Some(VInt(1)), source := Some(src))], Done)
            && MergeAll(map["my-int" := c], ["my-int"], d, src, Some("sam"), site).outcome == Raised(NotContainer)
  {
    var d := Doc(map["my-int" := Some(VInt(1))], None, None);
    assert KeyMerges(c, d, "my-int", None);
    SingleKeyMerge(c, "my-int", d, src, None, site);
    var ks := ["my-int"];
    assert ks[..0] == [];
  }
}
