# ffurf configuration store, in Dafny

ffurf keeps a registry of named, typed configuration keys. Each key records
its value and the source the value came from ("ffurf:default", a call site
"src:<file>.<line>", "env:<VARIABLE>", a dictionary label with
":default"/":profile.<p>", or a file path). Values reach a key through one
write path, which coerces them through the key's type and refuses `None` for
a required key. Dictionaries are merged per key in three tiers (root, then
`default`, then the selected `profile`). Environment variables are merged as
one-entry dictionaries. Secrets are masked in the display view, and the
configuration is valid when every required key holds a truthy value.

Layout:

- `values.dfy` (module `Values`): the scalar values `str`/`int`, their key types, Python truthiness, `str(int)` and a decimal `int(str)`, and the coercion a key's type applies.
- `ordering.dfy` (module `Ordering`): Python's string order and `sorted` of a set of names.
- `registry.dfy` (module `Registry`): the per-key record, the declaration, the single write path on a key map, and the redacted and source views of one record.
- `merge.dfy` (module `Merge`): the three-tier merge of one dictionary, as a fold over the declared keys, with an independent statement of which tier wins.
- `env.dfy` (module `Env`): environment variable names and the loop of `from_env`.
- `ffurf.dfy` (module `Ffurf`): the class `FfurfConfig`. Its fields `config`, `configKeys` and `order` are updated in place by methods whose loops follow the source's loops. Each method is proved equal to the fold functions above, and its read views are functions.

Python's dict keeps insertion order, and `_from_dict`, `from_env` and
`is_valid` iterate `self.config` in that order. The model holds that order
in the field `order`; it decides which keys were already written when a
merge raises part-way.

Where the code and its documented or tested behaviour disagree, the model
follows the code:

- A default of `0` (or `""`) is not stored. `add_config_key` keeps a default only when it is truthy, so the key starts unset with no source (`Registry.FalsyDefaultIsDropped`).
- `is_valid` is a truthiness test, so a key holding `0` or `""` that is not optional makes the configuration invalid.
- There is no `append_source`. A write always replaces the source.
- `from_toml` and `from_json` accept a `profile` but never pass it to the merge (`Ffurf.FfurfConfig.FromFile`).
- `from_dict` ignores its `source` argument. It always labels the merge with its caller's site (`Ffurf.FfurfConfig.FromDict`).
- With a profile selected that the dictionary lacks, the test `k in d.get("profile", {}).get(profile)` evaluates `k in None` and raises TypeError. This includes a dictionary with no `profile` entry at all. Only a `profile` entry that is a scalar raises AttributeError instead (`Merge.ProfileTier`, `Merge.RootOnlyExample`).
- A scalar string stored under a root `default` entry is searched as a substring. This happens with `from_env` on a key literally named `default`. A match then raises (`Merge.DefaultTier`, `Env.EnvDefaultKeyExample`).
- A failed merge does not roll back the keys it already wrote (`Merge.MergeAllNoRollback`).

Every path below is relative to the repository root.

## Model

| member | source | states |
|---|---|---|
| Values.Coerce | ffurf/__init__.py:126-130 | the coerced value has the key's type; it fails exactly when an `int` key receives a text that is not an integer literal; a value already of the key's type is kept; `str` gives `str(v)`; an `int` key given a literal gets the int `int(...)` reads from it |
| Values.Truthy | ffurf/__init__.py:31-32 | Python truthiness: `None`, `""` and `0` are falsy, every other value is truthy |
| Values.ParseInt | ffurf/__init__.py:128 | `int(s)` succeeds exactly on an integer literal (an optional sign, then one or more ASCII digits); a negative result comes from a leading minus |
| Values.ParseIntCanonical | ffurf/__init__.py:128 | the int read from a literal renders back as the literal's canonical text (no `+`, no leading zeros, no `-` on zero), so `int("007")` is 7 and `int("+5")` is 5 |
| Values.Decimal | ffurf/__init__.py:65 | `%d` and `str(i)`: a minus sign exactly for a negative int, then digits without leading zeros |
| Values.CoerceIdempotent | ffurf/__init__.py:126-130 | coercing an already coerced value changes nothing |
| Values.CoerceDecimalToInt | ffurf/__init__.py:126-130 | the decimal text of an int, coerced through an `int` key, is that int |
| Values.DecimalRoundTrip | ffurf/__init__.py:65 | `int(str(i)) == i` for the `%d` rendering of a line number or an int value |
| Values.StrOf | ffurf/__init__.py:106 | `str(v)` is the string itself, or for an int its canonical decimal text, which reads back as the int |
| Ordering.BelowIrreflexive | ffurf/__init__.py:69 | no name sorts before itself |
| Ordering.BelowTransitive | ffurf/__init__.py:69 | the string order is transitive |
| Ordering.BelowTotal | ffurf/__init__.py:69 | of two different names one sorts first |
| Ordering.BelowAsymmetric | ffurf/__init__.py:69 | two names never sort before each other |
| Ordering.LeastExists | ffurf/__init__.py:69 | every non-empty set of names has a least one |
| Ordering.Sorted | ffurf/__init__.py:69 | `sorted(s)` lists exactly the members of `s`, each once, strictly ascending |
| Ordering.AscendingUnique | ffurf/__init__.py:69 | two strictly ascending listings of the same names are equal |
| Ordering.SortedUnique | ffurf/__init__.py:69 | `sorted(s)` is the only strictly ascending listing of `s` |
| Registry.Declare | ffurf/__init__.py:18-36 | the record built by `add_config_key`: name, type, secret and optional as given; partial secret dropped when secret; value is the coerced default and source "ffurf:default" iff the default is truthy, else both unset; ValueError exactly when a truthy default fails `int(...)` |
| Registry.FalsyDefaultIsDropped | ffurf/__init__.py:31-32 | a default of `0` leaves the key unset with no source |
| Registry.CallSiteSource | ffurf/__init__.py:64-65 | the call-site source starts with "src:" |
| Registry.EffectiveSource | ffurf/__init__.py:115-117 | the recorded source is the given one when it is non-empty, otherwise the call site, and never empty |
| Registry.Write | ffurf/__init__.py:122-137 | on one record: NullErr exactly for `None` on a required key, TypeErr exactly when coercion fails, success exactly when the record accepts the value; on success only value and source change, the value is the coerced one or `None` |
| Registry.WriteForgetsPrior | ffurf/__init__.py:132-137 | whether and how a write succeeds does not depend on the value and source it replaces |
| Registry.SetKey | ffurf/__init__.py:114-137 | `set_config_key` on the key map: KeyError exactly for an undeclared key; any exception leaves the map unchanged and creates no key; success changes only that key's value and source, to the coerced value and the effective source |
| Registry.ZeroIsAccepted | ffurf/__init__.py:122-130 | writing `0` to an int key succeeds and stores `0` |
| Registry.SetThenGet | ffurf/__init__.py:114-137 | writing the decimal text of `i` to an int key with no source stores `i` with the call-site source |
| Registry.Satisfied | ffurf/__init__.py:110 | a record does not make the configuration invalid exactly when it is optional or holds a value other than `None`, `""` and `0` |
| Registry.TailSlice | ffurf/__init__.py:105 | Python `s[-n:]`: the last min(n, len) characters for positive `n` |
| Registry.Redact | ffurf/__init__.py:98-106 | `get_clean` of a record: "" when unset, the mask alone for a secret, the mask plus the last N characters for a partial secret N > 0 on a string, the mask plus the text after its first -N characters for N < 0, TypeError for a non-zero N on an int, `str(value)` otherwise |
| Registry.SecretHidesValue | ffurf/__init__.py:102-103 | the display text of a secret does not depend on its value |
| Registry.PartialSecretShowsOnlyTail | ffurf/__init__.py:104-105 | two values with the same last N characters display the same, as the mask plus N characters |
| Registry.PartialSecretExample | ffurf/__init__.py:104-105 | "thisisverysecrethoot" with N=4 displays as "********hoot" |
| Registry.SourceText | ffurf/__init__.py:92 | `str(source)`: the source, or "None" when there is none |
| Merge.DefaultTier | ffurf/__init__.py:153-154 | with a `default` section the tier has a key iff the section does and then carries its entry; without any `default` entry it has none; a scalar `default` entry raises TypeError unless it is a string not containing the key; it never hits without a section |
| Merge.SubstringFacts | ffurf/__init__.py:153 | Python's `k in s` on strings: the empty string and `s` itself occur in `s`, a longer string never does, and an occurrence survives extending `s` on either side |
| Merge.ProfileTier | ffurf/__init__.py:156-161 | the tier raises exactly when the selected profile is missing, TypeError (`k in None`) unless `profile` is a scalar, where it is AttributeError; it has a key iff that profile's section does, and then carries its entry |
| Merge.ProfileSelected | ffurf/__init__.py:156 | `if profile:` holds exactly for a non-empty profile name |
| Merge.ApplyTier | ffurf/__init__.py:149-161 | one tier's write keeps the set of declared keys |
| Merge.TierStep | ffurf/__init__.py:149-161 | one tier's step returns exactly when the tier has no entry or the record accepts its entry; a raise changes nothing and carries the tier's error; a return writes at most that entry |
| Merge.MergeKey | ffurf/__init__.py:146-163 | merging one key keeps the set of declared keys |
| Merge.MergeAll | ffurf/__init__.py:146-163 | the merge loop keeps the set of declared keys |
| Merge.MergeKeyResolves | ffurf/__init__.py:148-163 | merging one key changes no other key; it returns exactly when no tier raises and the record accepts every tier's entry; then the key holds the highest tier's entry (profile, else default, else root) with that tier's source, or is unchanged when no tier has it |
| Merge.MergeAllResolves | ffurf/__init__.py:144-163 | the merge returns exactly when every declared key merges; then every key holds its winning entry and source; keys outside the loop are unchanged |
| Merge.MergeAllSnoc | ffurf/__init__.py:146 | the loop over one more key is that key's merge on the state the shorter loop left |
| Merge.RaisedStops | ffurf/__init__.py:146-163 | once a key raised, no later key is visited |
| Merge.MergeAllNoRollback | ffurf/__init__.py:144-163 | when the merge raises, it does so at a key whose tiers refuse it; the keys before it hold their merged records and the keys after it their original ones |
| Merge.SingleKeyMerge | ffurf/__init__.py:144-163 | the merge over one key returns exactly when it merges, and then stores that key's resolved record |
| Merge.PrecedenceExample | ffurf/__init__.py:148-163 | root 1, default 2, profile `sam` 3: the merge with profile `sam` stores 3 from "<label>:profile.sam", without a profile it stores 2 from "<label>:default", for any label including an empty one |
| Merge.RootOnlyExample | ffurf/__init__.py:149-158 | a root-only dictionary stores 1 with its label; asked for the missing profile `sam` it raises TypeError |
| Merge.RootTier | ffurf/__init__.py:149-150 | the root tier has the key exactly when `k in d`, carries `d[k]`, and never raises |
| Env.Upper | ffurf/__init__.py:167 | a lower-case ASCII letter becomes its capital, every other character is kept |
| Env.AlnumExamples | ffurf/__init__.py:167 | `isalnum()` holds for ASCII letters and digits and fails for `-`, `_`, `.` and space |
| Env.Underscored | ffurf/__init__.py:167 | each character that is not alphanumeric becomes `_`, the rest are kept, the length is kept |
| Env.UpperAll | ffurf/__init__.py:167 | `.upper()` maps each character and keeps the length |
| Env.KeyToEnvKey | ffurf/__init__.py:165-167 | the variable name has the key's length, upper-cases each alphanumeric character, maps each other one to `_`, and holds only alphanumerics and `_` |
| Env.EnvKeyIdempotent | ffurf/__init__.py:165-167 | deriving the name twice gives the same name |
| Env.EnvKeyExamples | ffurf/__init__.py:167 | "my-str", "my_str" and "MY_str" all give "MY_STR" |
| Env.EnvValue | ffurf/__init__.py:171-173 | a key's variable is used exactly when it is set and non-empty |
| Env.EnvDoc | ffurf/__init__.py:174 | the one-entry dictionary `{k: value}`: a root entry for `k` alone, no sections |
| Env.FromEnvAll | ffurf/__init__.py:169-174 | the `from_env` loop keeps the set of declared keys |
| Env.FromEnvSnoc | ffurf/__init__.py:170-174 | the loop over one more key merges that key's variable, if set, on the state the shorter loop left |
| Env.EnvRaisedStops | ffurf/__init__.py:170-174 | once a merge raised, no later key is visited |
| Env.EnvDocResolved | ffurf/__init__.py:174 | in a one-entry dictionary only its key has a winning entry, from the root with source "env:<VARIABLE>" |
| Env.EnvDocMerges | ffurf/__init__.py:149-174 | with a one-entry dictionary `{k: value}`, key `j` refuses the merge exactly when it is `k` and refuses the value, or when `k` is `default` and `j` occurs in the value (the default tier's substring test, then indexing a string) |
| Env.EnvMergeOne | ffurf/__init__.py:146-174 | merging one variable's dictionary returns exactly when the key accepts the value and, for a key named `default`, no declared key occurs in the value; then it writes that key through its type and leaves every other key unchanged |
| Env.FromEnvResolves | ffurf/__init__.py:169-174 | `from_env` returns exactly when every key whose variable is set accepts its value and, for a key named `default`, no declared key occurs in that value; then each such key holds the coerced value with source "env:<VARIABLE>", and every other key is unchanged |
| Env.SingleKeyFromEnv | ffurf/__init__.py:169-174 | `from_env` over one key whose variable is set to a value that merges (accepted, and for the key `default` not containing it) returns and stores that value with source "env:<VARIABLE>" |
| Env.EnvDefaultKeyExample | ffurf/__init__.py:153-174 | two `str` keys `a` and `default` with `DEFAULT=abc`: `default` accepts the text, yet `from_env` raises, because `"a" in "abc"` holds |
| Env.EnvKeyDefault | ffurf/__init__.py:167 | the key "default" is read from `DEFAULT` |
| Env.EnvWrittenInt | ffurf/__init__.py:172-174 | an int key accepts the text "100" and stores 100 with source "env:MY_INT" |
| Env.EnvKeyMyInt | ffurf/__init__.py:167 | the key "my-int" is read from `MY_INT` |
| Env.EnvIntExample | ffurf/__init__.py:169-174 | `from_env` with `MY_INT=100` and an int key `my-int` returns, and the key holds 100 from source "env:MY_INT" |
| Ffurf.ValidityExamples | ffurf/__init__.py:108-112 | an empty registry is valid; a required key declared without a default makes it invalid; an optional one does not |
| Ffurf.FfurfConfig.constructor | ffurf/__init__.py:14-16 | a new configuration has no keys and is valid |
| Ffurf.FfurfConfig.AddConfigKey | ffurf/__init__.py:18-37 | stores the declared record under the key, replacing an earlier one in place, and adds the name; raises before any change when the default fails coercion; afterwards valid iff the new record and the other records are satisfied |
| Ffurf.FfurfConfig.Contains | ffurf/__init__.py:75-76 | `k in self` iff the key has a record |
| Ffurf.FfurfConfig.Len | ffurf/__init__.py:72-73 | `len(self)` is the number of records |
| Ffurf.FfurfConfig.SortedKeys | ffurf/__init__.py:68-70 | iteration yields every declared name once, strictly ascending, `len(self)` of them |
| Ffurf.FfurfConfig.SetConfigKey | ffurf/__init__.py:114-137 | the new key map and outcome are those of `SetKey`; names and order are unchanged; after success `get(key)` is the coerced value |
| Ffurf.FfurfConfig.SetItem | ffurf/__init__.py:63-66 | `self[k] = v` is the write with the call-site source |
| Ffurf.FfurfConfig.WriteTier | ffurf/__init__.py:149-161 | one tier's conditional write, as `ApplyTier` gives it |
| Ffurf.FfurfConfig.MergeOneKey | ffurf/__init__.py:148-163 | the loop body for one key, as `MergeKey` gives it |
| Ffurf.FfurfConfig.MergeDict | ffurf/__init__.py:144-163 | `_from_dict` leaves the key map and outcome that `MergeAll` gives over the insertion order |
| Ffurf.FfurfConfig.FromDict | ffurf/__init__.py:139-142 | `from_dict` merges under the caller's site, whatever source it is given |
| Ffurf.FfurfConfig.FromFile | ffurf/__init__.py:195-211 | a missing file raises with no change; otherwise its contents merge labelled by the path and without a profile |
| Ffurf.FfurfConfig.FromEnv | ffurf/__init__.py:169-174 | `from_env` leaves the key map and outcome that `FromEnvAll` gives over the insertion order |
| Ffurf.FfurfConfig.Get | ffurf/__init__.py:78-82 | `get(k, default)` never raises; it gives the stored value when set, even a falsy one, and `default` for an undeclared or unset key |
| Ffurf.FfurfConfig.GetItem | ffurf/__init__.py:58-61 | `self[k]` raises KeyError exactly for an undeclared key and otherwise equals `get(k)` |
| Ffurf.FfurfConfig.GetKeyConf | ffurf/__init__.py:84-87 | the record of a declared key, named by it and consistent; KeyError otherwise |
| Ffurf.FfurfConfig.GetSource | ffurf/__init__.py:89-92 | `str` of a declared key's source, "None" when it has none, a source always present for a set key; KeyError otherwise |
| Ffurf.FfurfConfig.GetClean | ffurf/__init__.py:94-106 | KeyError exactly for an undeclared key, "" for an unset one, the mask alone for a set secret, otherwise the record's redacted text |
| Ffurf.FfurfConfig.CheckValid | ffurf/__init__.py:108-112 | `is_valid()` is true iff every declared key is optional or holds a truthy value |

## Left out

- `__rich_console__`, `__str__`, `__repr__` and the exporters `to_toml`, `to_json`, `to_env` and `to_dictstr` are not modelled. They render through `rich`, the TOML and JSON serialisers, and Python `repr`.
- Call-site capture through `inspect` is not modelled. The caller's file and line come in as a `Frame` parameter. The frame that inner writes of a merge see is the `site` parameter.
- `os.getenv` is not modelled. The process environment comes in as a map parameter of `FromEnv`.
- File existence, reading and parsing in `from_toml` and `from_json` are not modelled. `FromFile` takes the existence test and the parsed document as parameters. The message written to standard error is left out.
- Key types are limited to `str` and `int`, and values to `str` and `int` scalars. Arbitrary callables as types are left out, as are floats, booleans, lists and nested dicts as values.
- Values.ParseInt: `int(str)` accepts only an optional sign followed by ASCII digits. Surrounding whitespace, `_` separators and non-ASCII digits are not accepted.
- Env.KeyToEnvKey: `isalnum` and `upper` are modelled for ASCII characters only.
- Registry.Redact: a partial secret is an `int`; other truthy values Python would accept there are not modelled.
- A declared key literally named `default` or `profile` whose entry in the dictionary is a section is not modelled. Python would write `str()` of that dict into a `str` key, and an `int` key would raise TypeError there because `int()` of a dict fails; the model sees no root entry there.
- Ffurf.FfurfConfig.SortedKeys: Python's `sorted` is modelled by its result, as a ghost function. No sorting algorithm is modelled.
- A selected profile whose entry under `profile` is not a dict, such as `{"profile": {"sam": "x"}}` or `{"profile": {"sam": None}}`, is not modelled: `Doc` holds profiles only as sections. Python would then run a substring test on the string, or raise TypeError for `None`.
- Merge.MergeAllNoRollback: says which key raised and that it refuses a tier, but not which error is raised or that the key keeps the writes of its earlier tiers.
