/** What roles/k8s_infra/files/hermes_merge_config.py makes of lines, secrets and providers. */
module MergeMeaning {
  import opened EnvFile
  import opened ConfigMerge
  import opened Options
  import opened PyText
  import Strings = Text

  // ---- lines of a .env file ------------------------------------------------------------

  /** A text without line breaks is one line. */
  lemma {:induction false} OneLineIsALine(s: string)
    requires OneLine(s)
    ensures Lines(s) == [s]
  {
    if s != "" {
      OneLineIsALine(s[1..]);
      assert [s[0]] + s[1..] == s;
    }
  }

  lemma LinesHead(c: char, s: string)
    ensures Lines([c] + s) == if IsBreak(c) then [""] + Lines(s) else [[c] + Lines(s)[0]] + Lines(s)[1..]
  {
    assert ([c] + s)[1..] == s;
  }

  /** A line break ends a line. */
  lemma {:induction false} BreakEndsALine(a: string, c: char, b: string)
    requires IsBreak(c)
    ensures Lines(a + [c] + b) == Lines(a) + Lines(b)
  {
    hide Lines, IsBreak;
    if a == "" {
      NoLine();
      LinesHead(c, b);
      assert a + [c] + b == [c] + b;
    } else {
      var x, rest := a[0], a[1..];
      BreakEndsALine(rest, c, b);
      LinesHead(x, rest);
      LinesHead(x, rest + [c] + b);
      assert a == [x] + rest && a + [c] + b == [x] + (rest + [c] + b);
      HeadOfSum(x, Lines(rest), Lines(b));
    }
  }

  lemma NoLine()
    ensures Lines("") == [""]
  {
  }

  lemma HeadOfSum(x: char, a: seq<string>, b: seq<string>)
    requires a != []
    ensures [""] + (a + b) == ([""] + a) + b
    ensures [[x] + (a + b)[0]] + (a + b)[1..] == ([[x] + a[0]] + a[1..]) + b
  {
  }

  /** The line assigns the value to the variable: without the spaces at its ends it is no
      comment, and its first "=" stands between the name, stripped, and the value. */
  ghost predicate Assigns(line: string, key: string, value: string) {
    var s := Strip(line);
    && s != "" && s[0] != '#'
    && exists i: nat :: i < |s| && s[i] == '=' && '=' !in s[..i] && key == Strip(s[..i]) && value == s[i + 1..]
  }

  lemma FirstEquals(s: string, i: nat)
    requires i < |s| && s[i] == '=' && '=' !in s[..i]
    ensures Strings.Find(s, "=", 0) == i
  {
    forall j: nat | j < i ensures !Strings.At(s, j, "=") {
      assert s[..i][j] == s[j] && s[j..j + 1] == [s[j]];
    }
    Strings.FindUnique(s, "=", 0, i);
  }

  lemma FindsEquals(s: string)
    ensures Strings.Find(s, "=", 0) >= 0 ==>
              var i := Strings.Find(s, "=", 0); i < |s| && s[i] == '=' && '=' !in s[..i]
  {
    var i := Strings.Find(s, "=", 0);
    Strings.FindIsFirst(s, "=", 0);
    if i >= 0 {
      assert s[i..i + 1] == "=";
      forall j: nat | j < i ensures s[..i][j] != '=' {
        assert !Strings.At(s, j, "=");
        assert s[j..j + 1] == [s[j]];
      }
    }
  }

  lemma AssignmentMeans(line: string, key: string, value: string)
    ensures ParseLine(line) == Some(Pair(key, value)) <==> Assigns(line, key, value)
  {
    var s := Strip(line);
    hide Strip, Strings.Find;
    FindsEquals(s);
    if Assigns(line, key, value) {
      var i: nat :| i < |s| && s[i] == '=' && '=' !in s[..i] && key == Strip(s[..i]) && value == s[i + 1..];
      FirstEquals(s, i);
    }
  }

  /** Line `i` assigns the value, and none behind it assigns another. */
  ghost predicate LastAssigns(lines: seq<string>, i: nat, key: string, value: string) {
    i < |lines| && Assigns(lines[i], key, value) && forall j :: i < j < |lines| ==> AssignsNot(lines[j], key)
  }

  ghost predicate AssignsNot(line: string, key: string) {
    forall value :: !Assigns(line, key, value)
  }

  lemma AssignsOnce(line: string, key: string)
    ensures ParseLine(line).Some? && ParseLine(line).value.key == key ==>
              Assigns(line, key, ParseLine(line).value.value)
    ensures !(ParseLine(line).Some? && ParseLine(line).value.key == key) ==> AssignsNot(line, key)
  {
    hide ParseLine, Assigns;
    if ParseLine(line).Some? { AssignmentMeans(line, key, ParseLine(line).value.value); }
    forall value ensures ParseLine(line) == Some(Pair(key, value)) <==> Assigns(line, key, value) {
      AssignmentMeans(line, key, value);
    }
  }

  /** Nothing in the lines assigns it. */
  ghost predicate NoneAssigns(lines: seq<string>, key: string) {
    forall i :: 0 <= i < |lines| ==> AssignsNot(lines[i], key)
  }

  lemma LastBehind(line: string, lines: seq<string>, i: nat, key: string, value: string)
    ensures LastAssigns(lines, i, key, value) ==> LastAssigns([line] + lines, i + 1, key, value)
    ensures NoneAssigns(lines, key) && Assigns(line, key, value) ==> LastAssigns([line] + lines, 0, key, value)
    ensures NoneAssigns(lines, key) && AssignsNot(line, key) ==> NoneAssigns([line] + lines, key)
  {
    hide Assigns, AssignsNot;
  }

  lemma {:induction false} AddLinesMeans(d: Env, lines: seq<string>, key: string)
    ensures NoneAssigns(lines, key) ==> Get(AddLines(d, lines), key) == Get(d, key)
    ensures !NoneAssigns(lines, key) ==>
              exists i: nat, value: string ::
                LastAssigns(lines, i, key, value) && Get(AddLines(d, lines), key) == Some(value)
    decreases lines
  {
    if lines != [] {
      var line, rest := lines[0], lines[1..];
      assert lines == [line] + rest;
      AssignsOnce(line, key);
      AddLinesMeans(AddLine(d, line), rest, key);
      if ParseLine(line).Some? { SetGet(d, ParseLine(line).value.key, ParseLine(line).value.value, key); }
      hide Assigns, AssignsNot, ParseLine, LastAssigns, NoneAssigns;
      if NoneAssigns(rest, key) {
        if ParseLine(line).Some? && ParseLine(line).value.key == key {
          LastBehind(line, rest, 0, key, ParseLine(line).value.value);
        } else {
          LastBehind(line, rest, 0, key, "");
        }
      } else {
        var i: nat, value: string :|
          LastAssigns(rest, i, key, value) && Get(AddLines(AddLine(d, line), rest), key) == Some(value);
        LastBehind(line, rest, i, key, value);
      }
    }
  }

  /** What is read from a file: for each variable the value of the last line that assigns it. */
  lemma ParseMeans(text: string, key: string)
    ensures NoneAssigns(Lines(text), key) ==> Get(Parse(text), key) == None
    ensures !NoneAssigns(Lines(text), key) ==>
              exists i: nat, value: string ::
                LastAssigns(Lines(text), i, key, value) && Get(Parse(text), key) == Some(value)
  {
    AddLinesMeans([], Lines(text), key);
  }

  // ---- secrets -------------------------------------------------------------------------

  /** The variable is set to text that is more than spaces; `secret` is that text, stripped. */
  ghost predicate Holds(env: Env, key: string, secret: string) {
    secret != "" && exists value :: Pair(key, value) in env && secret == Strip(value)
  }

  lemma SecretMeans(env: Env, key: string, secret: string)
    requires EnvFile.Distinct(env)
    ensures secret != "" ==> (Secret(env, key) == secret <==> Holds(env, key, secret))
    ensures OpenaiKey(env) == Secret(env, "OPENAI_API_KEY")
  {
    hide Strip;
    if value :| Pair(key, value) in env { DistinctGet(env, Pair(key, value)); }
    if Get(env, key).Some? {
      GetIn(env, key);
    }
  }

  lemma {:induction false} GetIn(env: Env, key: string)
    requires Get(env, key).Some?
    ensures Pair(key, Get(env, key).value) in env
  {
    if env[0].key != key { GetIn(env[1..], key); }
  }

  // ---- keys ----------------------------------------------------------------------------

  /** The name in capitals, with "_" for everything but letters and digits. */
  predicate IsCapital(name: string, capital: string) {
    && |capital| == |name|
    && forall i :: 0 <= i < |name| ==> IsCapitalOf(name[i] as int, capital[i] as int)
  }

  predicate IsCapitalOf(code: int, capital: int) {
    if 97 <= code <= 122 then capital == code - 32
    else if 65 <= code <= 90 || 48 <= code <= 57 then capital == code
    else capital == 95
  }

  lemma SanitizedMeans(name: string, capital: string)
    requires IsCapital(name, capital)
    ensures Sanitized(name) == capital
  {
    forall i | 0 <= i < |name| ensures Sanitized(name)[i] == capital[i] {
      assert IsCapitalOf(name[i] as int, capital[i] as int);
    }
  }

  /** What Python takes for nothing. */
  predicate Nothing(v: Val) {
    v == Null || v == Str("") || v == List([]) || v == Dict(map[]) || (v.Other? && !v.truthy)
  }

  /** A provider gets the key of the secrets under its own name, and only if it has neither a
      key nor the name of a variable for one. */
  lemma ProviderKeyMeans(cp: Val, env: Env, name: string, capital: string, key: string)
    requires cp.Dict? && Field(cp, "name") == Str(name) && IsCapital(name, capital) && EnvFile.Distinct(env)
    ensures var keyless := Nothing(Field(cp, "key_env")) && Nothing(Field(cp, "api_key"));
            && (!keyless ==> Inject(cp, env) == cp)
            && (keyless && Holds(env, "CUSTOM_PROVIDER_" + capital + "_API_KEY", key) ==>
                  Inject(cp, env) == Dict(cp.entries["api_key" := Str(key)]))
            && (keyless && (forall other :: !Holds(env, "CUSTOM_PROVIDER_" + capital + "_API_KEY", other)) ==>
                  Inject(cp, env) == cp)
  {
    var variable := "CUSTOM_PROVIDER_" + capital + "_API_KEY";
    hide *;
    KeyOfMeans(cp, env, name, capital);
    NothingMeans(Field(cp, "key_env"));
    NothingMeans(Field(cp, "api_key"));
    InjectIs(cp, env);
    SecretMeans(env, variable, key);
    SecretMeans(env, variable, Secret(env, variable));
    NotEmpty(env, variable, key);
  }

  lemma NotEmpty(env: Env, variable: string, key: string)
    ensures Holds(env, variable, key) ==> key != ""
  {
    hide Strip;
  }

  lemma NothingMeans(v: Val)
    ensures Nothing(v) <==> !Truthy(v)
  {
  }

  lemma KeyOfMeans(cp: Val, env: Env, name: string, capital: string)
    requires cp.Dict? && Field(cp, "name") == Str(name) && IsCapital(name, capital)
    ensures KeyOf(cp, env) == Secret(env, "CUSTOM_PROVIDER_" + capital + "_API_KEY")
  {
    SanitizedMeans(name, capital);
    hide Sanitized, Secret, IsCapital;
  }

  lemma InjectIs(cp: Val, env: Env)
    requires cp.Dict?
    ensures var keyless := !Truthy(Field(cp, "key_env")) && !Truthy(Field(cp, "api_key"));
            Inject(cp, env)
            == if keyless && KeyOf(cp, env) != "" then Dict(cp.entries["api_key" := Str(KeyOf(cp, env))]) else cp
  {
    hide Truthy, Field, KeyOf;
  }

  // ---- the merged document -------------------------------------------------------------

  /** The key goes into the model, which is made if missing. */
  lemma ModelMeans(user: Entries, ops: Entries, env: Env, merged: Entries)
    requires IsMerge(user, ops, env, Ok(merged))
    ensures var (over, key) := (OverrideAt(At(user, "model"), At(ops, "model")), Secret(env, "OPENAI_API_KEY"));
            && (key == "" ==> At(merged, "model") == over)
            && (key != "" && over.None? ==> At(merged, "model") == Some(Dict(map["api_key" := Str(key)])))
            && (key != "" && over.Some? ==>
                  over.value.Dict? && At(merged, "model") == Some(Dict(over.value.entries["api_key" := Str(key)])))
  {
    hide Secret, OverrideAt;
    MergedModel(user, ops, env, merged);
    var over := OverrideAt(At(user, "model"), At(ops, "model"));
    if over.Some? { assert Put(over.value, ["api_key"], Str(OpenaiKey(env))) == PutOne(over.value, OpenaiKey(env)); }
  }

  function PutOne(v: Val, key: string): Val {
    if v.Dict? then Dict(v.entries["api_key" := Str(key)]) else v
  }

  /** It goes into the vision model only if there is one; nothing else of `auxiliary` changes. */
  lemma VisionMeans(user: Entries, ops: Entries, env: Env, merged: Entries)
    requires IsMerge(user, ops, env, Ok(merged))
    ensures var (over, key) := (OverrideAt(At(user, "auxiliary"), At(ops, "auxiliary")), Secret(env, "OPENAI_API_KEY"));
            if key != "" && over.Some? && over.value.Dict? && Field(over.value, "vision").Dict? then
              var vision := Field(over.value, "vision").entries["api_key" := Str(key)];
              At(merged, "auxiliary") == Some(Dict(over.value.entries["vision" := Dict(vision)]))
            else At(merged, "auxiliary") == over
  {
    hide Secret, OverrideAt, ProvidersAt, ModelAt, Put;
    assert MergedAt("auxiliary", At(user, "auxiliary"), At(ops, "auxiliary"), env) == Ok(At(merged, "auxiliary"));
    var over := OverrideAt(At(user, "auxiliary"), At(ops, "auxiliary"));
    if over.Some? { PutTwoDeep(over.value, "vision", "api_key", Str(OpenaiKey(env))); }
  }

  /** The entries of ops come first and in order; the rest are the user's mappings under names
      that no mapping of ops has. */
  ghost predicate ProvidersMerged(ops: seq<Val>, user: seq<Val>, env: Env, items: seq<Val>) {
    && |items| >= |ops|
    && (forall i :: 0 <= i < |ops| ==> items[i] == Inject(ops[i], env))
    && (forall i :: |ops| <= i < |items| ==> FromUser(items[i], ops, user, env))
    && (forall cp :: OnlyUsers(cp, ops, user) ==> Inject(cp, env) in items[|ops|..])
  }

  ghost predicate FromUser(item: Val, ops: seq<Val>, user: seq<Val>, env: Env) {
    exists cp :: OnlyUsers(cp, ops, user) && item == Inject(cp, env)
  }

  ghost predicate OnlyUsers(cp: Val, ops: seq<Val>, user: seq<Val>) {
    cp in user && cp.Dict? && forall other :: other in ops && other.Dict? ==> Field(other, "name") != Field(cp, "name")
  }

  lemma OnlyUsersMeans(cp: Val, ops: seq<Val>, user: seq<Val>)
    ensures OnlyUsers(cp, ops, user) <==> cp in user && IsUnused(cp, Names(ops))
  {
    hide Field;
  }

  lemma MergedItems(ops: seq<Val>, user: seq<Val>, env: Env)
    ensures ProvidersMerged(ops, user, env, InjectAll(ops + Unused(user, Names(ops)), env))
  {
    var unused := Unused(user, Names(ops));
    var all := ops + unused;
    var items := InjectAll(all, env);
    hide Names, Field, Inject, Unused, OnlyUsers;
    forall cp ensures OnlyUsers(cp, ops, user) <==> cp in unused {
      UnusedIs(user, Names(ops), cp);
      OnlyUsersMeans(cp, ops, user);
    }
    forall i | 0 <= i < |ops| ensures items[i] == Inject(ops[i], env) { assert all[i] == ops[i]; }
    forall i | |ops| <= i < |items| ensures FromUser(items[i], ops, user, env) {
      assert all[i] == unused[i - |ops|] && all[i] in unused;
      assert OnlyUsers(all[i], ops, user) && items[i] == Inject(all[i], env);
    }
    forall cp | OnlyUsers(cp, ops, user) ensures Inject(cp, env) in items[|ops|..] {
      var i :| 0 <= i < |unused| && unused[i] == cp;
      assert items[|ops|..][i] == items[|ops| + i] == Inject(all[|ops| + i], env);
    }
    hide FromUser;
  }

  /** The providers after a merge, when ops has some. */
  lemma ProvidersMean(user: Entries, ops: Entries, env: Env, merged: Entries)
    requires IsMerge(user, ops, env, Ok(merged)) && ItemsOf(At(ops, PROVIDERS)) != []
    ensures At(merged, PROVIDERS).Some? && At(merged, PROVIDERS).value.List?
    ensures ProvidersMerged(ItemsOf(At(ops, PROVIDERS)), ItemsOf(At(user, PROVIDERS)), env,
                            At(merged, PROVIDERS).value.items)
  {
    assert MergedAt(PROVIDERS, At(user, PROVIDERS), At(ops, PROVIDERS), env) == Ok(At(merged, PROVIDERS)) by {
      hide ProvidersAt, ModelAt, VisionAt, OverrideAt;
    }
    hide Unused, Names, InjectAll, ProvidersMerged, ModelAt, VisionAt, OverrideAt;
    MergedItems(ItemsOf(At(ops, PROVIDERS)), ItemsOf(At(user, PROVIDERS)), env);
  }
}
