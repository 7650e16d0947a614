/**
 * The per-key record of an ffurf configuration, how a declaration builds it,
 * the single write path that replaces its value and source, and the per-key
 * views (redacted display text, validity).
 */
module Registry {
  import opened Values

  /** The exceptions the configuration object raises, by cause. */
  datatype Error =
    | KeyErr(key: string)       // KeyError(key): the key was never declared
    | NullErr(key: string)      // Exception("<key> cannot be null")
    | TypeErr(key: string)      // TypeError(key): the key's type rejected the value
    | ValueErr                  // ValueError from int(...) on a declared default
    | NotContainer              // TypeError from `in` or `[]` on a non-container
    | NoAttribute               // AttributeError from `.get` on a non-dict
    | FileMissing(path: string) // OSError from a missing configuration file

  /** How a state-changing call ends: it returns, or it raises. */
  datatype Outcome = Done | Raised(error: Error)

  /** The record `config[name]`. */
  datatype KeyConf = KeyConf(
    name: string,
    keyType: KeyType,
    value: Option<Value>,
    source: Option<string>,
    secret: bool,
    partialSecret: Option<int>,
    optional: bool)

  /** The caller's frame, as `inspect.getframeinfo` reports it. */
  datatype Frame = Frame(filename: string, lineno: nat)

  const DefaultSource: string := "ffurf:default"
  const Mask: string := "********"

  /** The derived source `"src:<file>.<line>"` of a call site. */
  function CallSiteSource(f: Frame): (r: string)
    ensures |r| > 4 && r[..4] == "src:"
  {
    "src:" + f.filename + "." + Decimal(f.lineno)
  }

  /** What every stored record satisfies. */
  ghost predicate Consistent(c: KeyConf)
  {
    && (c.value.Some? ==> HasType(c.keyType, c.value.value) && c.source.Some?)
    && (c.secret ==> c.partialSecret.None?)
  }

  /**
   * The record `add_config_key` stores, or the exception raised while
   * building it (only `int(...)` of a truthy default can raise).
   */
  function Declare(key: string, t: KeyType, default: Option<Value>, secret: bool,
                   partialSecret: Option<int>, optional: bool): (r: Result<KeyConf, Error>)
    ensures r.Err? <==> Truthy(default) && Coerce(t, default.value).None?
    ensures r.Err? ==> r.error == ValueErr
    ensures r.Ok? ==> Consistent(r.value)
    ensures r.Ok? ==> r.value.name == key && r.value.keyType == t
                      && r.value.secret == secret && r.value.optional == optional
    ensures r.Ok? ==> r.value.partialSecret == if secret then None else partialSecret
    ensures r.Ok? ==> (r.value.source.Some? <==> Truthy(default))
                      && (r.value.source.Some? ==> r.value.source.value == DefaultSource)
    ensures r.Ok? && Truthy(default) ==> r.value.value == Coerce(t, default.value)
    ensures r.Ok? && !Truthy(default) ==> r.value.value.None?
  {
    var value := if Truthy(default) then Coerce(t, default.value) else None;
    if Truthy(default) && value.None? then Err(ValueErr)
    else
      Ok(KeyConf(key, t, value,
                 if Truthy(default) then Some(DefaultSource) else None,
                 secret, if secret then None else partialSecret, optional))
  }

  /** A falsy default such as `0` is not stored: the key starts unset. */
  lemma FalsyDefaultIsDropped(key: string, secret: bool, partialSecret: Option<int>, optional: bool)
    ensures Declare(key, TInt, Some(VInt(0)), secret, partialSecret, optional).Ok?
    ensures Declare(key, TInt, Some(VInt(0)), secret, partialSecret, optional).value.value.None?
    ensures Declare(key, TInt, Some(VInt(0)), secret, partialSecret, optional).value.source.None?
  {
  }

  /** The source a write records: the given one, or the call site when it is absent or empty. */
  function EffectiveSource(source: Option<string>, caller: Frame): (r: string)
    ensures r != ""
    ensures source.Some? && source.value != "" ==> r == source.value
    ensures source.None? || source.value == "" ==> r == CallSiteSource(caller)
  {
    if source.None? || source.value == "" then CallSiteSource(caller) else source.value
  }

  /** Whether a key's record takes the raw value: `None` only when optional, anything else through its type. */
  predicate Accepts(c: KeyConf, raw: Option<Value>)
  {
    if raw.None? then c.optional else Coerce(c.keyType, raw.value).Some?
  }

  /**
   * The write path of `set_config_key` on a declared key's record, with the
   * source already resolved: a `None` value is refused unless the key is
   * optional, any other value goes through the key's type.
   */
  function Write(c: KeyConf, raw: Option<Value>, source: string): (r: Result<KeyConf, Error>)
    ensures r.Err? <==> (raw.None? && !c.optional) || (raw.Some? && Coerce(c.keyType, raw.value).None?)
    ensures r.Ok? <==> Accepts(c, raw)
    ensures r.Err? ==> r.error == if raw.None? then NullErr(c.name) else TypeErr(c.name)
    ensures r.Ok? ==> r.value == c.(value := r.value.value, source := Some(source))
    ensures r.Ok? ==> r.value.value == if raw.None? then None else Coerce(c.keyType, raw.value)
    ensures r.Ok? && Consistent(c) ==> Consistent(r.value)
  {
    if raw.None? then
      if c.optional then Ok(c.(value := None, source := Some(source))) else Err(NullErr(c.name))
    else
      match Coerce(c.keyType, raw.value)
      case None => Err(TypeErr(c.name))
      case Some(v) => Ok(c.(value := Some(v), source := Some(source)))
  }

  /** A write does not depend on the value and source it replaces. */
  lemma WriteForgetsPrior(c: KeyConf, v: Option<Value>, s: Option<string>, raw: Option<Value>, source: string)
    ensures Write(c.(value := v, source := s), raw, source).Ok? == Write(c, raw, source).Ok?
    ensures Write(c.(value := v, source := s), raw, source).Ok? ==>
              Write(c.(value := v, source := s), raw, source) == Write(c, raw, source)
  {
  }

  /** The state of the key map after a call, and how the call ended. */
  datatype Step = Step(cfg: map<string, KeyConf>, outcome: Outcome)

  /**
   * `set_config_key(key, raw, source)` on the map `config`: it either raises
   * and changes nothing, or replaces exactly the value and source of `key`.
   */
  function SetKey(cfg: map<string, KeyConf>, key: string, raw: Option<Value>,
                  source: Option<string>, caller: Frame): (r: Step)
    ensures r.cfg.Keys == cfg.Keys
    ensures r.outcome.Raised? ==> r.cfg == cfg
    ensures r.outcome == Raised(KeyErr(key)) <==> key !in cfg
    ensures key in cfg && raw.None? ==>
              (r.outcome.Done? <==> cfg[key].optional)
              && (r.outcome.Raised? ==> r.outcome.error == NullErr(cfg[key].name))
    ensures key in cfg && raw.Some? ==>
              (r.outcome.Done? <==> Coerce(cfg[key].keyType, raw.value).Some?)
              && (r.outcome.Raised? ==> r.outcome.error == TypeErr(cfg[key].name))
    ensures r.outcome.Done? ==>
              forall k :: k in cfg && k != key ==> r.cfg[k] == cfg[k]
    ensures r.outcome.Done? ==>
              r.cfg[key] == cfg[key].(value := r.cfg[key].value,
                                      source := Some(EffectiveSource(source, caller)))
    ensures r.outcome.Done? ==>
              r.cfg[key].value == if raw.None? then None else Coerce(cfg[key].keyType, raw.value)
  {
    if key !in cfg then Step(cfg, Raised(KeyErr(key)))
    else
      match Write(cfg[key], raw, EffectiveSource(source, caller))
      case Err(e) => Step(cfg, Raised(e))
      case Ok(c) => Step(cfg[key := c], Done)
  }

  /** Falsy values such as `0` are written like any other value. */
  lemma ZeroIsAccepted(cfg: map<string, KeyConf>, key: string, source: string, caller: Frame)
    requires key in cfg && cfg[key].keyType == TInt
    ensures SetKey(cfg, key, Some(VInt(0)), Some(source), caller).outcome.Done?
    ensures SetKey(cfg, key, Some(VInt(0)), Some(source), caller).cfg[key].value == Some(VInt(0))
  {
  }

  /** Read after write: the written value, coerced, is what is stored. */
  lemma {:induction false} SetThenGet(cfg: map<string, KeyConf>, key: string, i: int, caller: Frame)
    requires key in cfg && cfg[key].keyType == TInt
    ensures SetKey(cfg, key, Some(VStr(Decimal(i))), None, caller).outcome.Done?
    ensures SetKey(cfg, key, Some(VStr(Decimal(i))), None, caller).cfg[key].value == Some(VInt(i))
    ensures SetKey(cfg, key, Some(VStr(Decimal(i))), None, caller).cfg[key].source
              == Some(CallSiteSource(caller))
  {
    CoerceDecimalToInt(i);
  }

  // ---------------------------------------------------------------------
  // Per-key views
  // ---------------------------------------------------------------------

  /** A key does not make the configuration invalid: it is optional or its value is truthy. */
  function Satisfied(c: KeyConf): (b: bool)
    ensures b <==> c.optional || (c.value.Some? && c.value.value != VStr("") && c.value.value != VInt(0))
  {
    c.optional || Truthy(c.value)
  }

  /** Python `s[-n:]`. */
  function TailSlice(s: string, n: int): (r: string)
    ensures n > 0 ==> r == s[|s| - (if n < |s| then n else |s|)..]
    ensures n <= 0 ==> r == s[(if -n < |s| then -n else |s|)..]
  {
    var start := -n;
    var from := if start < 0 then (if |s| + start < 0 then 0 else |s| + start)
                else if start > |s| then |s| else start;
    s[from..]
  }

  /**
   * `get_clean` on a declared key: empty when unset, the mask alone for a
   * secret, the mask and the last N characters for a truthy
   * `partial_secret = N`, and otherwise `str(value)`. Slicing an int value
   * raises TypeError.
   */
  function Redact(c: KeyConf): (r: Result<string, Error>)
    ensures c.value.None? ==> r == Ok("")
    ensures c.value.Some? && c.secret ==> r == Ok(Mask)
    ensures (c.value.Some? && !c.secret && c.partialSecret.Some? && c.partialSecret.value > 0
             && c.value.value.VStr?) ==>
              var s, n := c.value.value.s, c.partialSecret.value;
              r == Ok(Mask + s[|s| - (if n < |s| then n else |s|)..])
    ensures (c.value.Some? && !c.secret && c.partialSecret.Some? && c.partialSecret.value < 0
             && c.value.value.VStr?) ==>
              var s, n := c.value.value.s, -c.partialSecret.value;
              r == Ok(Mask + s[(if n < |s| then n else |s|)..])
    ensures (c.value.Some? && !c.secret && c.partialSecret.Some? && c.partialSecret.value != 0
             && c.value.value.VInt?) ==> r == Err(NotContainer)
    ensures c.value.Some? && !c.secret && (c.partialSecret.None? || c.partialSecret.value == 0) ==>
              r == Ok(StrOf(c.value.value))
  {
    match c.value
    case None => Ok("")
    case Some(v) =>
      if c.secret then Ok(Mask)
      else if c.partialSecret.Some? && c.partialSecret.value != 0 then
        match v
        case VStr(s) => Ok(Mask + TailSlice(s, c.partialSecret.value))
        case VInt(_) => Err(NotContainer)
      else Ok(StrOf(v))
  }

  /** The redacted text of a secret key does not depend on its value. */
  lemma SecretHidesValue(c: KeyConf, v: Value, w: Value)
    requires c.secret
    ensures Redact(c.(value := Some(v))) == Redact(c.(value := Some(w)))
  {
  }

  /**
   * The redacted text of a partial secret reveals at most its last N
   * characters: two values with the same last N characters read the same.
   */
  lemma PartialSecretShowsOnlyTail(c: KeyConf, s: string, t: string)
    requires !c.secret && c.partialSecret.Some? && c.partialSecret.value > 0
    requires |s| >= c.partialSecret.value && |t| >= c.partialSecret.value
    requires s[|s| - c.partialSecret.value..] == t[|t| - c.partialSecret.value..]
    ensures Redact(c.(value := Some(VStr(s)))) == Redact(c.(value := Some(VStr(t))))
    ensures |Redact(c.(value := Some(VStr(s)))).value| == |Mask| + c.partialSecret.value
  {
  }

  lemma PartialSecretExample(c: KeyConf)
    requires !c.secret && c.partialSecret == Some(4)
    ensures Redact(c.(value := Some(VStr("thisisverysecrethoot")))) == Ok("********hoot")
  {
    var s := "thisisverysecrethoot";
    assert TailSlice(s, 4) == s[16..] == "hoot";
    assert Redact(c.(value := Some(VStr(s)))) == Ok(Mask + TailSlice(s, 4));
    assert Mask + "hoot" == "********hoot";
  }

  /** `str(source)`: the recorded source, or `"None"` when there is none. */
  function SourceText(c: KeyConf): (r: string)
    ensures c.source.Some? ==> r == c.source.value
    ensures c.source.None? ==> r == "None"
  {
    match c.source
    case Some(s) => s
    case None => "None"
  }
}
