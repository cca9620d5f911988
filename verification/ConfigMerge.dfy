/** The start-up merge of roles/k8s_infra/files/hermes_merge_config.py: the ops-managed
    config.yaml is laid over the user's, keys from the secret .env are put in, and the next
    start merges the result again. */
module ConfigMerge {
  import opened EnvFile
  import opened Options
  import opened PyText

  /** What YAML loads. Of scalars only null, strings, and the text and truth value of the
      rest matter here. */
  datatype Val
    = Null
    | Str(text: string)
    | Other(repr: string, truthy: bool)
    | List(items: seq<Val>)
    | Dict(entries: Entries)

  type Entries = map<string, Val>

  // ---- deep_override -------------------------------------------------------------------

  function Override(user: Val, ops: Val): Val
    decreases ops
  {
    if user.Dict? && ops.Dict? then
      Dict(map k | k in user.entries.Keys + ops.entries.Keys ::
        if k !in ops.entries then user.entries[k]
        else if k in user.entries then Override(user.entries[k], ops.entries[k])
        else ops.entries[k])
    else ops
  }

  lemma OverrideIs(user: Entries, ops: Entries, result: Entries)
    requires result.Keys == user.Keys + ops.Keys
    requires forall k :: k in result ==>
               result[k] == if k !in ops then user[k] else if k in user then Override(user[k], ops[k]) else ops[k]
    ensures Dict(result) == Override(Dict(user), Dict(ops))
  {
    assert result == Override(Dict(user), Dict(ops)).entries;
  }

  lemma OverrideLeaf(user: Val, ops: Val)
    requires !(user.Dict? && ops.Dict?)
    ensures Override(user, ops) == ops
  {
  }

  /** The loop over the items of `ops`, in any order. */
  method DeepOverride(user: Entries, ops: Entries) returns (result: Entries)
    ensures Dict(result) == Override(Dict(user), Dict(ops))
    decreases Dict(ops)
  {
    hide Override;
    result := user;
    var left := ops.Keys;
    while left != {}
      invariant left <= ops.Keys && result.Keys == user.Keys + (ops.Keys - left)
      invariant forall k :: k in result ==>
                  result[k] == if k !in ops || k in left then user[k]
                               else if k in user then Override(user[k], ops[k]) else ops[k]
      decreases left
    {
      var k :| k in left;
      left := left - {k};
      if ops[k].Dict? && k in result && result[k].Dict? {
        var merged := DeepOverride(result[k].entries, ops[k].entries);
        result := result[k := Dict(merged)];
      } else {
        if k in user { OverrideLeaf(user[k], ops[k]); }
        result := result[k := ops[k]];
      }
    }
    OverrideIs(user, ops, result);
  }

  // ---- what an override does, path by path ---------------------------------------------

  function Lookup(v: Val, path: seq<string>): Option<Val>
    decreases path
  {
    if path == [] then Some(v)
    else if v.Dict? && path[0] in v.entries then Lookup(v.entries[path[0]], path[1..])
    else None
  }

  /** Ops does not shadow the path: following it one leaves the mappings of `ops` at a key
      they do not have. */
  predicate Free(ops: Val, path: seq<string>)
    decreases path
  {
    path != [] && ops.Dict? && (path[0] !in ops.entries || Free(ops.entries[path[0]], path[1..]))
  }

  /** Paths that ops does not shadow keep what the user had there, or did not have. Everywhere
      else ops wins: its values that are not mappings are found, and nothing else is. */
  lemma {:induction false} OverrideByPath(user: Val, ops: Val, path: seq<string>)
    requires user.Dict? && ops.Dict?
    ensures Free(ops, path) ==> Lookup(Override(user, ops), path) == Lookup(user, path)
    ensures !Free(ops, path) && Lookup(ops, path).Some? && Lookup(ops, path).value.Dict? ==>
              Lookup(Override(user, ops), path).Some? && Lookup(Override(user, ops), path).value.Dict?
    ensures !Free(ops, path) && !(Lookup(ops, path).Some? && Lookup(ops, path).value.Dict?) ==>
              Lookup(Override(user, ops), path) == Lookup(ops, path)
    decreases path
  {
    if path != [] && path[0] in ops.entries {
      var k, rest := path[0], path[1..];
      FreeIsAbsent(ops.entries[k], rest);
      assert Free(ops, path) <==> Free(ops.entries[k], rest);
      if k in user.entries && user.entries[k].Dict? && ops.entries[k].Dict? {
        OverrideByPath(user.entries[k], ops.entries[k], rest);
      } else {
        assert Override(user, ops).entries[k] == ops.entries[k];
        assert Free(ops.entries[k], rest) ==> Lookup(user, path) == None;
      }
    }
  }

  lemma {:induction false} FreeIsAbsent(ops: Val, path: seq<string>)
    ensures Free(ops, path) ==> Lookup(ops, path).None?
    decreases path
  {
    if path != [] && ops.Dict? && path[0] in ops.entries { FreeIsAbsent(ops.entries[path[0]], path[1..]); }
  }

  // ---- doing it twice ------------------------------------------------------------------

  lemma {:induction false} OverrideSelf(ops: Val)
    ensures Override(ops, ops) == ops
    decreases ops
  {
    if ops.Dict? {
      forall k | k in ops.entries ensures Override(ops.entries[k], ops.entries[k]) == ops.entries[k] {
        OverrideSelf(ops.entries[k]);
      }
      assert Override(ops, ops).entries == ops.entries;
    }
  }

  lemma {:induction false} OverrideTwice(user: Val, ops: Val)
    ensures Override(Override(user, ops), ops) == Override(user, ops)
    decreases ops
  {
    if user.Dict? && ops.Dict? {
      var once := Override(user, ops);
      forall k | k in ops.entries ensures Override(once.entries[k], ops.entries[k]) == once.entries[k] {
        if k in user.entries { OverrideTwice(user.entries[k], ops.entries[k]); } else { OverrideSelf(ops.entries[k]); }
      }
      assert Override(once, ops).entries == once.entries;
    } else {
      OverrideSelf(ops);
    }
  }

  /** `m[path] = value`, where all but the last key lead through mappings. */
  function Put(v: Val, path: seq<string>, value: Val): Val
    decreases path
  {
    if path == [] then value
    else if !v.Dict? then v
    else if |path| == 1 then Dict(v.entries[path[0] := value])
    else if path[0] !in v.entries then v
    else Dict(v.entries[path[0] := Put(v.entries[path[0]], path[1..], value)])
  }

  /** Overriding a merged document again does not disturb a value put in after the first
      time, once it is put in again. */
  lemma {:induction false} PutAbsorbs(user: Val, ops: Val, path: seq<string>, value: Val)
    ensures var once := Put(Override(user, ops), path, value);
            Put(Override(once, ops), path, value) == once
    decreases path
  {
    var over := Override(user, ops);
    OverrideTwice(user, ops);
    if path == [] {
    } else if !over.Dict? {
    } else if |path| > 1 && path[0] in over.entries {
      AtKey(user, ops, path[0]);
      hide Override;
      if path[0] in ops.entries {
        PutAbsorbs(Below(user, ops, path[0]), ops.entries[path[0]], path[1..], value);
      } else {
        PutTwice(over.entries[path[0]], path[1..], value);
      }
      PutBelow(over, ops, path, value);
    } else {
      PutHere(over, ops, path, value);
    }
  }

  /** The user's value that an override leaves at a key of `ops` is an override itself. */
  function Below(user: Val, ops: Val, k: string): Val
    requires ops.Dict? && k in ops.entries
  {
    if user.Dict? && k in user.entries then user.entries[k] else ops.entries[k]
  }

  lemma AtKey(user: Val, ops: Val, k: string)
    requires Override(user, ops).Dict? && k in Override(user, ops).entries
    ensures ops.Dict?
    ensures k in ops.entries ==> Override(user, ops).entries[k] == Override(Below(user, ops, k), ops.entries[k])
  {
    if ops.Dict? && k in ops.entries { OverrideSelf(ops.entries[k]); }
  }

  lemma PutHere(over: Val, ops: Val, path: seq<string>, value: Val)
    requires path != [] && over.Dict? && ops.Dict? && Override(over, ops) == over
    requires |path| == 1 || path[0] !in over.entries
    ensures Put(Override(Put(over, path, value), ops), path, value) == Put(over, path, value)
  {
    var once := Put(over, path, value);
    PutElsewhere(over, ops, path, value);
    hide Override;
    assert Put(Override(once, ops), path, value).entries == once.entries;
  }

  lemma PutBelow(over: Val, ops: Val, path: seq<string>, value: Val)
    requires |path| > 1 && over.Dict? && path[0] in over.entries && ops.Dict? && Override(over, ops) == over
    requires var once := Put(over.entries[path[0]], path[1..], value);
             once
              == Put(if path[0] in ops.entries then Override(once, ops.entries[path[0]]) else once, path[1..], value)
    ensures Put(Override(Put(over, path, value), ops), path, value) == Put(over, path, value)
  {
    var once := Put(over, path, value);
    PutElsewhere(over, ops, path, value);
    PutUnder(over, path, value);
    PutUnder(Override(once, ops), path, value);
    hide Override, Put;
    assert Put(Override(once, ops), path, value).entries == once.entries;
  }

  lemma PutUnder(v: Val, path: seq<string>, value: Val)
    requires |path| > 1 && v.Dict? && path[0] in v.entries
    ensures Put(v, path, value) == Dict(v.entries[path[0] := Put(v.entries[path[0]], path[1..], value)])
  {
  }

  /** Overriding by `ops`, if it changed nothing before, changes nothing off the path after. */
  lemma PutElsewhere(over: Val, ops: Val, path: seq<string>, value: Val)
    requires path != [] && over.Dict? && ops.Dict? && Override(over, ops) == over
    ensures Put(over, path, value).Dict? && Override(Put(over, path, value), ops).Dict?
    ensures Override(Put(over, path, value), ops).entries.Keys == Put(over, path, value).entries.Keys
    ensures forall j :: j in Put(over, path, value).entries ==>
              Override(Put(over, path, value), ops).entries[j] ==
                if j in ops.entries && j == path[0] then Override(Put(over, path, value).entries[j], ops.entries[j])
                else Put(over, path, value).entries[j]
  {
    var once := Put(over, path, value);
    forall j | j in once.entries && j != path[0] ensures Override(once, ops).entries[j] == once.entries[j] {
      assert over.entries[j] == once.entries[j] && Override(over, ops).entries[j] == over.entries[j];
    }
  }

  lemma {:induction false} PutTwice(v: Val, path: seq<string>, value: Val)
    ensures Put(Put(v, path, value), path, value) == Put(v, path, value)
    decreases path
  {
    if |path| > 1 && v.Dict? && path[0] in v.entries { PutTwice(v.entries[path[0]], path[1..], value); }
  }

  // ---- custom providers ----------------------------------------------------------------

  /** Python raises on a path the model does not continue after. */
  datatype Result<T> = Ok(value: T) | TypeError

  predicate Truthy(v: Val) {
    match v
    case Null => false
    case Str(text) => text != ""
    case Other(_, truthy) => truthy
    case List(items) => items != []
    case Dict(entries) => entries != map[]
  }

  /** `m.get(key)`; null and a missing key are the same. */
  function Field(v: Val, key: string): Val {
    if v.Dict? && key in v.entries then v.entries[key] else Null
  }

  /** What a Python set can hold. */
  predicate Hashable(v: Val) { !v.List? && !v.Dict? }

  /** The names of the entries that are mappings. */
  function Names(cps: seq<Val>): set<Val> {
    set cp | cp in cps && cp.Dict? :: Field(cp, "name")
  }

  predicate IsUnused(cp: Val, names: set<Val>) {
    cp.Dict? && Field(cp, "name") !in names
  }

  function Unused(cps: seq<Val>, names: set<Val>): seq<Val> {
    if cps == [] then []
    else if IsUnused(cps[0], names) then [cps[0]] + Unused(cps[1..], names)
    else Unused(cps[1..], names)
  }

  /** The ops-managed entries, then the user's mappings under names that ops does not use. */
  function MergeByName(ops: seq<Val>, user: seq<Val>): Result<seq<Val>> {
    if forall name :: name in Names(ops) + Names(user) ==> Hashable(name) then Ok(ops + Unused(user, Names(ops)))
    else TypeError
  }

  /** `str(v)`, except that of lists and mappings. */
  function Text(v: Val): string {
    match v
    case Null => "None"
    case Str(text) => text
    case Other(repr, _) => repr
    case List(_) => "[]"
    case Dict(_) => "{}"
  }

  /** `re.sub(r"[^A-Z0-9]", "_", name.upper())`, of ASCII */
  function Sanitized(name: string): (r: string)
    ensures |r| == |name|
  {
    seq(|name|, i requires 0 <= i < |name| =>
      if 'a' <= name[i] <= 'z' then 'A' + (name[i] - 'a')
      else if 'A' <= name[i] <= 'Z' || '0' <= name[i] <= '9' then name[i] else '_')
  }

  /** `(env.get(key) or "").strip()` */
  function Secret(env: Env, key: string): string {
    match Get(env, key)
    case None => ""
    case Some(value) => Strip(value)
  }

  function KeyOf(cp: Val, env: Env): string
    requires cp.Dict?
  {
    var name := if "name" in cp.entries then Text(cp.entries["name"]) else "";
    Secret(env, "CUSTOM_PROVIDER_" + Sanitized(name) + "_API_KEY")
  }

  /** A provider without a key of its own gets the one the secrets hold for its name. */
  function Inject(cp: Val, env: Env): Val {
    if !cp.Dict? || Truthy(Field(cp, "key_env")) || Truthy(Field(cp, "api_key")) || KeyOf(cp, env) == "" then cp
    else Dict(cp.entries["api_key" := Str(KeyOf(cp, env))])
  }

  function InjectAll(cps: seq<Val>, env: Env): (r: seq<Val>)
    ensures |r| == |cps|
  {
    seq(|cps|, i requires 0 <= i < |cps| => Inject(cps[i], env))
  }

  lemma InjectTwice(cp: Val, env: Env)
    ensures Inject(Inject(cp, env), env) == Inject(cp, env)
    ensures Inject(cp, env).Dict? <==> cp.Dict?
    ensures Field(Inject(cp, env), "name") == Field(cp, "name")
  {
  }

  lemma InjectAllTwice(a: seq<Val>, b: seq<Val>, env: Env)
    ensures InjectAll(InjectAll(a, env), env) == InjectAll(a, env)
    ensures InjectAll(a + b, env) == InjectAll(a, env) + InjectAll(b, env)
    ensures Names(InjectAll(a, env)) == Names(a)
  {
    forall i | 0 <= i < |a| ensures Inject(Inject(a[i], env), env) == Inject(a[i], env) { InjectTwice(a[i], env); }
    hide Inject;
    NamesInjected(a, env);
  }

  lemma NamesInjected(a: seq<Val>, env: Env)
    ensures Names(InjectAll(a, env)) == Names(a)
  {
    hide Inject, Field;
    forall name | name in Names(a) ensures name in Names(InjectAll(a, env)) {
      var i :| 0 <= i < |a| && a[i].Dict? && Field(a[i], "name") == name;
      InjectTwice(a[i], env);
      assert InjectAll(a, env)[i] == Inject(a[i], env);
    }
    forall name | name in Names(InjectAll(a, env)) ensures name in Names(a) {
      var i :| 0 <= i < |a| && Inject(a[i], env).Dict? && Field(Inject(a[i], env), "name") == name;
      InjectTwice(a[i], env);
      assert a[i] in a;
    }
  }

  lemma {:induction false} UnusedOfInjected(cps: seq<Val>, names: set<Val>, env: Env)
    ensures Unused(InjectAll(cps, env), names) == InjectAll(Unused(cps, names), env)
  {
    hide Inject, Field;
    if cps != [] {
      InjectTwice(cps[0], env);
      UnusedOfInjected(cps[1..], names, env);
      assert InjectAll(cps, env)[1..] == InjectAll(cps[1..], env);
    }
  }

  lemma {:induction false} UnusedOfSum(a: seq<Val>, b: seq<Val>, names: set<Val>)
    ensures Unused(a + b, names) == Unused(a, names) + Unused(b, names)
  {
    hide IsUnused;
    if a == [] {
      assert a + b == b;
    } else {
      UnusedOfSum(a[1..], b, names);
      assert (a + b)[1..] == a[1..] + b;
      assert IsUnused(a[0], names) ==>
        [a[0]] + (Unused(a[1..], names) + Unused(b, names))
        == [a[0]] + Unused(a[1..], names) + Unused(b, names);
    }
  }

  lemma {:induction false} UnusedIs(cps: seq<Val>, names: set<Val>, cp: Val)
    ensures cp in Unused(cps, names) <==> cp in cps && cp.Dict? && Field(cp, "name") !in names
  {
    hide Field;
    if cps != [] {
      UnusedIs(cps[1..], names, cp);
      assert cps == [cps[0]] + cps[1..];
    }
  }

  lemma {:induction false} UnusedTwice(cps: seq<Val>, names: set<Val>)
    ensures Unused(Unused(cps, names), names) == Unused(cps, names)
  {
    hide IsUnused;
    if cps != [] {
      UnusedTwice(cps[1..], names);
      var rest := Unused(cps[1..], names);
      assert ([cps[0]] + rest)[1..] == rest;
    }
  }

  lemma {:induction false} UnusedOfOwn(cps: seq<Val>, names: set<Val>)
    requires forall cp :: cp in cps && cp.Dict? ==> Field(cp, "name") in names
    ensures Unused(cps, names) == []
  {
    if cps != [] { UnusedOfOwn(cps[1..], names); }
  }

  /** Merging the merged and keyed list again gives the same list. */
  lemma MergeByNameTwice(ops: seq<Val>, user: seq<Val>, env: Env)
    requires MergeByName(ops, user).Ok?
    ensures var once := InjectAll(MergeByName(ops, user).value, env);
            MergeByName(ops, once).Ok? && InjectAll(MergeByName(ops, once).value, env) == once
  {
    var names, kept := Names(ops), Unused(user, Names(ops));
    var once := InjectAll(ops + kept, env);
    InjectAllTwice(ops, kept, env);
    InjectAllTwice(kept, [], env);
    var a, b := InjectAll(ops, env), InjectAll(kept, env);
    assert Unused(once, names) == b by {
      UnusedOfSum(a, b, names);
      UnusedOfOwn(a, names);
      UnusedOfInjected(kept, names, env);
      UnusedTwice(user, names);
    }
    NamesInjected(ops + kept, env);
    assert forall name :: name in Names(once) ==> Hashable(name) by {
      hide Hashable, Field;
      forall name | name in Names(ops + kept) ensures name in Names(ops) + Names(user) {
        var cp :| cp in ops + kept && cp.Dict? && Field(cp, "name") == name;
        UnusedIs(user, names, cp);
      }
    }
    InjectAllTwice(ops, b, env);
    InjectAllTwice(ops + kept, [], env);
  }

  // ---- the whole merge, top-level key by top-level key ---------------------------------

  const PROVIDERS := "custom_providers"

  function At(m: Entries, k: string): Option<Val> {
    if k in m then Some(m[k]) else None
  }

  function OverrideAt(user: Option<Val>, ops: Option<Val>): Option<Val> {
    if ops.None? then user else if user.None? then ops else Some(Override(user.value, ops.value))
  }

  function ItemsOf(v: Option<Val>): seq<Val> {
    if v.Some? && v.value.List? then v.value.items else []
  }

  /** A missing `model` is made; one that is not a mapping cannot take the key. */
  function ModelAt(w: Option<Val>, key: string): Result<Option<Val>> {
    if key == "" then Ok(w)
    else if w.None? then Ok(Some(Dict(map["api_key" := Str(key)])))
    else if !w.value.Dict? then TypeError
    else Ok(Some(Put(w.value, ["api_key"], Str(key))))
  }

  /** The key goes only into a vision model that is there. */
  function VisionAt(w: Option<Val>, key: string): Option<Val> {
    if key == "" || w.None? then w else Some(Put(w.value, ["vision", "api_key"], Str(key)))
  }

  /** Iterating over a mapping or a string meets no mapping; a number cannot be iterated. */
  function KeyedAt(w: Option<Val>, env: Env): Result<Option<Val>> {
    if w.Some? && w.value.List? then Ok(Some(List(InjectAll(w.value.items, env))))
    else if w.Some? && w.value.Other? && w.value.truthy then TypeError
    else Ok(w)
  }

  function ProvidersAt(user: Option<Val>, ops: Option<Val>, env: Env): Result<Option<Val>> {
    if ItemsOf(ops) == [] then KeyedAt(OverrideAt(user, ops), env)
    else
      match MergeByName(ItemsOf(ops), ItemsOf(user))
      case Ok(cps) => KeyedAt(Some(List(cps)), env)
      case TypeError => TypeError
  }

  function OpenaiKey(env: Env): string { Secret(env, "OPENAI_API_KEY") }

  function MergedAt(k: string, user: Option<Val>, ops: Option<Val>, env: Env): Result<Option<Val>> {
    if k == PROVIDERS then ProvidersAt(user, ops, env)
    else if k == "model" then ModelAt(OverrideAt(user, ops), OpenaiKey(env))
    else if k == "auxiliary" then Ok(VisionAt(OverrideAt(user, ops), OpenaiKey(env)))
    else Ok(OverrideAt(user, ops))
  }

  ghost predicate IsMerge(user: Entries, ops: Entries, env: Env, r: Result<Entries>) {
    if r.Ok? then forall k :: MergedAt(k, At(user, k), At(ops, k), env) == Ok(At(r.value, k))
    else MergedAt(PROVIDERS, At(user, PROVIDERS), At(ops, PROVIDERS), env).TypeError?
         || MergedAt("model", At(user, "model"), At(ops, "model"), env).TypeError?
  }

  lemma OverrideByKey(user: Entries, ops: Entries, merged: Entries, k: string)
    requires Dict(merged) == Override(Dict(user), Dict(ops))
    ensures At(merged, k) == OverrideAt(At(user, k), At(ops, k))
  {
  }

  method InjectKey(cp: Val, env: Env) returns (keyed: Val)
    ensures keyed == Inject(cp, env)
  {
    hide KeyOf, Truthy, Field;
    keyed := cp;
    if cp.Dict? && !Truthy(Field(cp, "key_env")) && !Truthy(Field(cp, "api_key")) {
      var key := KeyOf(cp, env);
      if key != "" { keyed := Dict(cp.entries["api_key" := Str(key)]); }
    }
  }

  /** The loop changes the entries in place. */
  method InjectKeys(cps: seq<Val>, env: Env) returns (result: seq<Val>)
    ensures result == InjectAll(cps, env)
  {
    hide Inject;
    result := cps;
    var i := 0;
    while i < |cps|
      invariant 0 <= i <= |cps| == |result|
      invariant forall j :: 0 <= j < |cps| ==> result[j] == if j < i then Inject(cps[j], env) else cps[j]
    {
      var keyed := InjectKey(cps[i], env);
      result := result[i := keyed];
      i := i + 1;
    }
  }

  /** The steps on `custom_providers`. */
  method MergeProviders(user: Option<Val>, ops: Option<Val>, over: Option<Val>, env: Env)
    returns (r: Result<Option<Val>>)
    requires over == OverrideAt(user, ops)
    ensures r == ProvidersAt(user, ops, env)
  {
    var providers := over;
    var opsCps, userCps := ItemsOf(ops), ItemsOf(user);
    hide MergeByName, Override, InjectAll;
    if opsCps != [] {
      var all := MergeByName(opsCps, userCps);
      if all.TypeError? { return TypeError; }
      providers := Some(List(all.value));
    }
    if providers.Some? && providers.value.List? {
      var keyed := InjectKeys(providers.value.items, env);
      providers := Some(List(keyed));
    } else if providers.Some? && providers.value.Other? && providers.value.truthy {
      return TypeError;
    }
    return Ok(providers);
  }

  ghost predicate HasModelKeys(m: Entries, key: string, r: Result<Entries>) {
    if r.Ok? then
      && ModelAt(At(m, "model"), key) == Ok(At(r.value, "model"))
      && At(r.value, "auxiliary") == VisionAt(At(m, "auxiliary"), key)
      && forall k :: k != "model" && k != "auxiliary" ==> At(r.value, k) == At(m, k)
    else ModelAt(At(m, "model"), key).TypeError?
  }

  lemma PutTwoDeep(v: Val, j: string, k: string, x: Val)
    ensures Put(v, [j, k], x) ==
            if v.Dict? && j in v.entries && v.entries[j].Dict?
            then Dict(v.entries[j := Dict(v.entries[j].entries[k := x])]) else v
  {
    assert [j, k][1..] == [k];
    if v.Dict? && j in v.entries && !v.entries[j].Dict? { assert v.entries[j := v.entries[j]] == v.entries; }
  }

  /** The steps on `model` and on `auxiliary.vision`. */
  method InjectModelKeys(m: Entries, key: string) returns (r: Result<Entries>)
    ensures HasModelKeys(m, key, r)
  {
    if key == "" { return Ok(m); }
    var result := m;
    if "model" !in result { result := result["model" := Dict(map[])]; }
    if !result["model"].Dict? { return TypeError; }
    result := result["model" := Dict(result["model"].entries["api_key" := Str(key)])];
    assert map["api_key" := Str(key)] == map[]["api_key" := Str(key)];
    if "auxiliary" in result {
      PutTwoDeep(result["auxiliary"], "vision", "api_key", Str(key));
      hide Put;
      if result["auxiliary"].Dict? {
        var auxiliary := result["auxiliary"].entries;
        if "vision" in auxiliary && auxiliary["vision"].Dict? {
          var vision := auxiliary["vision"].entries["api_key" := Str(key)];
          result := result["auxiliary" := Dict(auxiliary["vision" := Dict(vision)])];
        }
      }
    }
    return Ok(result);
  }

  lemma MergeSteps(user: Entries, ops: Entries, env: Env, over: Entries, keyed: Result<Entries>)
    requires Dict(over) == Override(Dict(user), Dict(ops)) && HasModelKeys(over, OpenaiKey(env), keyed)
    ensures var providers := ProvidersAt(At(user, PROVIDERS), At(ops, PROVIDERS), env);
            IsMerge(user, ops, env,
                    if providers.TypeError? || keyed.TypeError? then TypeError
                    else if providers.value.Some? then Ok(keyed.value[PROVIDERS := providers.value.value]) else keyed)
  {
    hide *;
    var providers := ProvidersAt(At(user, PROVIDERS), At(ops, PROVIDERS), env);
    if providers.TypeError? || keyed.TypeError? {
      MergeFails(user, ops, env, over, keyed);
    } else {
      var r := if providers.value.Some? then keyed.value[PROVIDERS := providers.value.value] else keyed.value;
      forall k ensures MergedAt(k, At(user, k), At(ops, k), env) == Ok(At(r, k)) {
        MergeStepsAt(user, ops, env, over, keyed.value, r, k);
      }
      MergeIs(user, ops, env, r);
      assert providers.value.None? ==> Ok(r) == keyed;
    }
  }

  lemma MergeIs(user: Entries, ops: Entries, env: Env, r: Entries)
    requires forall k :: MergedAt(k, At(user, k), At(ops, k), env) == Ok(At(r, k))
    ensures IsMerge(user, ops, env, Ok(r))
  {
    hide MergedAt;
  }

  lemma MergeFails(user: Entries, ops: Entries, env: Env, over: Entries, keyed: Result<Entries>)
    requires Dict(over) == Override(Dict(user), Dict(ops)) && HasModelKeys(over, OpenaiKey(env), keyed)
    requires ProvidersAt(At(user, PROVIDERS), At(ops, PROVIDERS), env).TypeError? || keyed.TypeError?
    ensures IsMerge(user, ops, env, TypeError)
  {
    OverrideByKey(user, ops, over, "model");
    hide Override, OverrideAt, ProvidersAt, ModelAt, VisionAt, OpenaiKey;
  }

  lemma MergeStepsAt(user: Entries, ops: Entries, env: Env, over: Entries, keyed: Entries, r: Entries, k: string)
    requires Dict(over) == Override(Dict(user), Dict(ops)) && HasModelKeys(over, OpenaiKey(env), Ok(keyed))
    requires var providers := ProvidersAt(At(user, PROVIDERS), At(ops, PROVIDERS), env);
             providers.Ok? && r == if providers.value.Some? then keyed[PROVIDERS := providers.value.value] else keyed
    ensures MergedAt(k, At(user, k), At(ops, k), env) == Ok(At(r, k))
  {
    OverrideByKey(user, ops, over, k);
    NoProviders(At(user, PROVIDERS), At(ops, PROVIDERS), env);
    hide Override, OverrideAt, ProvidersAt, ModelAt, VisionAt, OpenaiKey;
  }

  lemma NoProviders(user: Option<Val>, ops: Option<Val>, env: Env)
    ensures ProvidersAt(user, ops, env) == Ok(None) ==> OverrideAt(user, ops) == None
  {
  }

  /** The script. What it does to `custom_providers` touches no other key, so the two halves
      of that work stand together here. */
  method Merge(user: Entries, ops: Entries, env: Env) returns (r: Result<Entries>)
    ensures IsMerge(user, ops, env, r)
  {
    var over := DeepOverride(user, ops);
    OverrideByKey(user, ops, over, PROVIDERS);
    var keyed := InjectModelKeys(over, OpenaiKey(env));
    MergeSteps(user, ops, env, over, keyed);
    hide *;
    var providers := MergeProviders(At(user, PROVIDERS), At(ops, PROVIDERS), At(over, PROVIDERS), env);
    if providers.TypeError? || keyed.TypeError? {
      r := TypeError;
    } else if providers.value.Some? {
      r := Ok(keyed.value[PROVIDERS := providers.value.value]);
    } else {
      r := keyed;
    }
  }

  /** One start, on both files; a merge that raises leaves them as they are. */
  method Start(user: Entries, userEnv: string, ops: Entries, opsEnv: string)
    returns (config: Result<Entries>, env: string)
    ensures IsMerge(user, ops, Parse(opsEnv), config)
    ensures env == if config.Ok? then Next(userEnv, opsEnv) else userEnv
  {
    hide *;
    var secrets := ParseEnv(opsEnv);
    config := Merge(user, ops, secrets);
    if config.TypeError? { return config, userEnv; }
    var variables := ParseEnv(userEnv);
    env := WriteEnv(Update(variables, secrets));
    NextIs(userEnv, opsEnv);
  }

  lemma NextIs(user: string, ops: string)
    ensures Next(user, ops) == Print(Update(Parse(user), Parse(ops)))
  {
  }

  /** A start on what a start has left changes neither file. */
  lemma StartIsFinal(
    user: Entries, userEnv: string, ops: Entries, opsEnv: string, merged: Entries, again: Result<Entries>)
    requires IsMerge(user, ops, Parse(opsEnv), Ok(merged)) && IsMerge(merged, ops, Parse(opsEnv), again)
    ensures again == Ok(merged) && Next(Next(userEnv, opsEnv), opsEnv) == Next(userEnv, opsEnv)
  {
    MergeIsFinal(user, ops, Parse(opsEnv), merged, again);
    NextIsFinal(userEnv, opsEnv, "");
  }

  // ---- the next start ------------------------------------------------------------------

  lemma OverrideAtTwice(user: Option<Val>, ops: Option<Val>)
    ensures OverrideAt(OverrideAt(user, ops), ops) == OverrideAt(user, ops)
  {
    if ops.Some? {
      OverrideSelf(ops.value);
      if user.Some? { OverrideTwice(user.value, ops.value); }
    }
  }

  /** A value put into the merged document survives the next override and put. */
  lemma PutAtTwice(user: Option<Val>, ops: Option<Val>, path: seq<string>, value: Val)
    requires OverrideAt(user, ops).Some?
    ensures var once := Put(OverrideAt(user, ops).value, path, value);
            OverrideAt(Some(once), ops).Some? && Put(OverrideAt(Some(once), ops).value, path, value) == once
  {
    if ops.None? {
      PutTwice(user.value, path, value);
    } else if user.None? {
      OverrideSelf(ops.value);
      PutAbsorbs(ops.value, ops.value, path, value);
    } else {
      PutAbsorbs(user.value, ops.value, path, value);
    }
  }

  lemma ModelAtTwice(user: Option<Val>, ops: Option<Val>, key: string, w: Option<Val>)
    requires ModelAt(OverrideAt(user, ops), key) == Ok(w)
    ensures ModelAt(OverrideAt(w, ops), key) == Ok(w)
  {
    OverrideAtTwice(user, ops);
    var over := OverrideAt(user, ops);
    assert map["api_key" := Str(key)]["api_key" := Str(key)] == map["api_key" := Str(key)];
    if key != "" && over.Some? {
      PutAtTwice(user, ops, ["api_key"], Str(key));
      PutKeepsDict(over.value, ops, Str(key));
      hide Override, Put;
    }
  }

  lemma PutKeepsDict(over: Val, ops: Option<Val>, x: Val)
    requires over.Dict? && (ops.Some? ==> Override(over, ops.value) == over)
    ensures Put(over, ["api_key"], x).Dict? && OverrideAt(Some(Put(over, ["api_key"], x)), ops).value.Dict?
  {
  }

  lemma VisionAtTwice(user: Option<Val>, ops: Option<Val>, key: string)
    ensures var w := VisionAt(OverrideAt(user, ops), key); VisionAt(OverrideAt(w, ops), key) == w
  {
    OverrideAtTwice(user, ops);
    if key != "" && OverrideAt(user, ops).Some? {
      PutAtTwice(user, ops, ["vision", "api_key"], Str(key));
    }
  }

  lemma KeyedAtTwice(w: Option<Val>, env: Env)
    requires KeyedAt(w, env).Ok?
    ensures KeyedAt(KeyedAt(w, env).value, env) == KeyedAt(w, env)
    ensures !(w.Some? && w.value.List?) ==> KeyedAt(w, env).value == w
    ensures w == Some(List([])) ==> KeyedAt(w, env).value == w
  {
    if w.Some? && w.value.List? { InjectAllTwice(w.value.items, [], env); }
  }

  lemma ProvidersAtTwice(user: Option<Val>, ops: Option<Val>, env: Env, w: Option<Val>)
    requires ProvidersAt(user, ops, env) == Ok(w)
    ensures ProvidersAt(w, ops, env) == Ok(w)
  {
    if ItemsOf(ops) == [] {
      KeyedAtTwice(OverrideAt(user, ops), env);
      OverrideAtTwice(user, ops);
      assert ops.Some? && ops.value.List? ==> OverrideAt(user, ops) == Some(List([]));
      assert ops.Some? && !ops.value.List? ==> !OverrideAt(user, ops).value.List?;
      hide KeyedAt, Override;
    } else {
      MergeByNameTwice(ItemsOf(ops), ItemsOf(user), env);
      hide MergeByName, InjectAll;
    }
  }

  /** The merge is final: the next start, with the same ops-managed files, neither fails nor
      changes anything, whatever the two documents say. */
  lemma MergeIsFinal(user: Entries, ops: Entries, env: Env, merged: Entries, again: Result<Entries>)
    requires IsMerge(user, ops, env, Ok(merged)) && IsMerge(merged, ops, env, again)
    ensures again == Ok(merged)
  {
    forall k ensures MergedAt(k, At(merged, k), At(ops, k), env) == Ok(At(merged, k)) {
      MergedAtTwice(k, At(user, k), At(ops, k), env, At(merged, k));
    }
    hide MergedAt;
    if again.Ok? {
      forall k ensures At(again.value, k) == At(merged, k) {
        assert MergedAt(k, At(merged, k), At(ops, k), env) == Ok(At(again.value, k));
      }
      SameEntries(again.value, merged);
    }
  }

  lemma MergedAtTwice(k: string, user: Option<Val>, ops: Option<Val>, env: Env, w: Option<Val>)
    requires MergedAt(k, user, ops, env) == Ok(w)
    ensures MergedAt(k, w, ops, env) == Ok(w)
  {
    if k == PROVIDERS { ProvidersAtTwice(user, ops, env, w); }
    else if k == "model" { ModelAtTwice(user, ops, OpenaiKey(env), w); }
    else if k == "auxiliary" { VisionAtTwice(user, ops, OpenaiKey(env)); }
    else { OverrideAtTwice(user, ops); }
  }

  lemma SameEntries(a: Entries, b: Entries)
    requires forall k :: At(a, k) == At(b, k)
    ensures a == b
  {
    forall k ensures k in a <==> k in b { assert At(a, k) == At(b, k); }
    forall k | k in a ensures a[k] == b[k] { assert At(a, k) == At(b, k); }
  }

  // ---- what users and operators get ----------------------------------------------------

  /** Neither path leads through the other. */
  ghost predicate Apart(p: seq<string>, q: seq<string>) {
    !(p <= q) && !(q <= p)
  }

  lemma {:induction false} PutApart(v: Val, q: seq<string>, value: Val, p: seq<string>)
    requires Apart(p, q)
    ensures Lookup(Put(v, q, value), p) == Lookup(v, p)
    decreases q
  {
    if |q| > 1 && v.Dict? && q[0] in v.entries && p[0] == q[0] {
      ApartBelow(p, q);
      PutApart(v.entries[q[0]], q[1..], value, p[1..]);
    } else if |q| == 1 {
      HeadsDiffer(p, q[0]);
    }
  }

  lemma HeadsDiffer(p: seq<string>, k: string)
    requires Apart(p, [k])
    ensures p != [] && p[0] != k
  {
    assert p == [] ==> p <= [k];
    assert p != [] && p[0] == k ==> [k] <= p;
  }

  lemma ApartBelow(p: seq<string>, q: seq<string>)
    requires Apart(p, q) && p[0] == q[0]
    ensures Apart(p[1..], q[1..])
  {
    assert p == [p[0]] + p[1..] && q == [q[0]] + q[1..];
  }

  /** Outside `custom_providers` and the two places where a secret goes, the result is the
      override. With `OverrideByPath`: every value ops sets is there, and every path of the
      user's that ops does not shadow is kept. */
  lemma MergedByPath(user: Entries, ops: Entries, env: Env, merged: Entries, path: seq<string>)
    requires IsMerge(user, ops, env, Ok(merged)) && path != [] && path[0] != PROVIDERS
    requires Apart(path, ["model", "api_key"]) && Apart(path, ["auxiliary", "vision", "api_key"])
    ensures Lookup(Dict(merged), path) == Lookup(Override(Dict(user), Dict(ops)), path)
  {
    var k, rest := path[0], path[1..];
    var over := Override(Dict(user), Dict(ops));
    OverrideByKey(user, ops, over.entries, k);
    assert MergedAt(k, At(user, k), At(ops, k), env) == Ok(At(merged, k));
    if k == "model" {
      ApartBelow(path, ["model", "api_key"]);
      assert ["model", "api_key"][1..] == ["api_key"];
      ModelApart(At(over.entries, k), OpenaiKey(env), rest);
    } else if k == "auxiliary" {
      ApartBelow(path, ["auxiliary", "vision", "api_key"]);
      assert ["auxiliary", "vision", "api_key"][1..] == ["vision", "api_key"];
      if At(over.entries, k).Some? { PutApart(over.entries[k], ["vision", "api_key"], Str(OpenaiKey(env)), rest); }
    }
  }

  lemma ModelApart(w: Option<Val>, key: string, rest: seq<string>)
    requires ModelAt(w, key).Ok? && Apart(rest, ["api_key"])
    ensures w.Some? ==> Lookup(ModelAt(w, key).value.value, rest) == Lookup(w.value, rest)
    ensures w.None? && key != "" ==> Lookup(ModelAt(w, key).value.value, rest) == None
  {
    if w.Some? && key != "" && w.value.Dict? { PutApart(w.value, ["api_key"], Str(key), rest); }
    HeadsDiffer(rest, "api_key");
  }

  /** The key of the secrets ends up in the model, whatever the user or ops had there. */
  lemma ModelHasTheKey(user: Entries, ops: Entries, env: Env, merged: Entries)
    requires IsMerge(user, ops, env, Ok(merged)) && OpenaiKey(env) != ""
    ensures Lookup(Dict(merged), ["model", "api_key"]) == Some(Str(OpenaiKey(env)))
  {
    hide Lookup, ModelAt, OverrideAt, OpenaiKey;
    MergedModel(user, ops, env, merged);
    ModelKey(OverrideAt(At(user, "model"), At(ops, "model")), OpenaiKey(env));
    LookupTwo(Dict(merged), "model", "api_key");
  }

  lemma MergedModel(user: Entries, ops: Entries, env: Env, merged: Entries)
    requires IsMerge(user, ops, env, Ok(merged))
    ensures ModelAt(OverrideAt(At(user, "model"), At(ops, "model")), OpenaiKey(env)) == Ok(At(merged, "model"))
  {
    hide ModelAt, OverrideAt, OpenaiKey, ProvidersAt, VisionAt;
    assert MergedAt("model", At(user, "model"), At(ops, "model"), env) == Ok(At(merged, "model"));
  }

  lemma ModelKey(w: Option<Val>, key: string)
    requires key != "" && ModelAt(w, key).Ok?
    ensures ModelAt(w, key).value.Some? && Lookup(ModelAt(w, key).value.value, ["api_key"]) == Some(Str(key))
  {
    assert ["api_key"][1..] == [];
  }

  lemma LookupTwo(v: Val, j: string, k: string)
    ensures Lookup(v, [j, k]) == if v.Dict? && j in v.entries then Lookup(v.entries[j], [k]) else None
  {
    assert [j, k][1..] == [k];
  }

  /** A provider that the user added and whose name ops does not use. */
  ghost predicate UserAdded(cp: Val, user: seq<Val>, ops: Option<Val>) {
    cp in user && cp.Dict? && Field(cp, "name") !in Names(ItemsOf(ops))
  }

  /** No merge that succeeds drops one of them. */
  ghost predicate KeepsUserAdded(ops: Option<Val>, env: Env) {
    forall user, w, cp :: ProvidersAt(Some(List(user)), ops, env) == Ok(w) && UserAdded(cp, user, ops) ==>
      Inject(cp, env) in ItemsOf(w)
  }

  /** The condition on the ops file; a bare number would make every merge fail. */
  predicate LeavesRoom(ops: Option<Val>) {
    ops.None? || ItemsOf(ops) != [] || (ops.value.Other? && ops.value.truthy)
  }

  /** The user's own providers are kept if and only if ops has no `custom_providers` or a list
      with entries: an empty list, or a null, in the ops file wipes them out. */
  lemma UserProvidersKeptIff(ops: Option<Val>, env: Env)
    ensures KeepsUserAdded(ops, env) <==> LeavesRoom(ops)
  {
    hide Names, Field, Inject, InjectAll, MergeByName, Override;
    if ops.None? || ItemsOf(ops) != [] {
      forall user, w, cp | ProvidersAt(Some(List(user)), ops, env) == Ok(w) && UserAdded(cp, user, ops)
        ensures Inject(cp, env) in ItemsOf(w)
      {
        KeptProvider(user, ops, env, w, cp);
      }
    } else if !LeavesRoom(ops) {
      WipedProvider(ops, env);
    } else {
      forall user: seq<Val> ensures ProvidersAt(Some(List(user)), ops, env).TypeError? { NumberFails(user, ops, env); }
    }
  }

  lemma NumberFails(user: seq<Val>, ops: Option<Val>, env: Env)
    requires ops.Some? && ops.value.Other? && ops.value.truthy
    ensures ProvidersAt(Some(List(user)), ops, env).TypeError?
  {
  }

  lemma KeptProvider(user: seq<Val>, ops: Option<Val>, env: Env, w: Option<Val>, cp: Val)
    requires ops.None? || ItemsOf(ops) != []
    requires ProvidersAt(Some(List(user)), ops, env) == Ok(w) && UserAdded(cp, user, ops)
    ensures Inject(cp, env) in ItemsOf(w)
  {
    var all := if ops.None? then user else ItemsOf(ops) + Unused(user, Names(ItemsOf(ops)));
    UnusedIs(user, Names(ItemsOf(ops)), cp);
    hide Unused, Field, Inject;
    assert cp in all;
    var i :| 0 <= i < |all| && all[i] == cp;
    assert InjectAll(all, env)[i] == Inject(cp, env);
  }

  lemma WipedProvider(ops: Option<Val>, env: Env)
    requires !LeavesRoom(ops)
    ensures !KeepsUserAdded(ops, env)
  {
    var cp := Dict(map["name" := Str("mine")]);
    var user := [cp];
    assert UserAdded(cp, user, ops);
    var w := OverrideAt(Some(List(user)), ops);
    KeyedAtTwice(w, env);
    assert ProvidersAt(Some(List(user)), ops, env) == Ok(w);
    assert ItemsOf(w) == [];
  }
}
