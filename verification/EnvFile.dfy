/** The .env files of roles/k8s_infra/files/hermes_merge_config.py: reading, laying the
    ops-managed variables over the user's, and writing the result, which the next start reads
    again. */
module EnvFile {
  import opened Options
  import opened Text
  import opened PyText

  datatype Pair = Pair(key: string, value: string)

  /** A dict in the order of insertion. */
  type Env = seq<Pair>

  function Get(d: Env, key: string): (r: Option<string>)
    ensures r.Some? <==> exists p :: p in d && p.key == key
  {
    if d == [] then None
    else if d[0].key == key then Some(d[0].value)
    else Get(d[1..], key)
  }

  /** `d[key] = value` keeps the place of a key that is there. */
  function Set(d: Env, key: string, value: string): Env {
    if d == [] then [Pair(key, value)]
    else if d[0].key == key then [Pair(key, value)] + d[1..]
    else [d[0]] + Set(d[1..], key, value)
  }

  ghost predicate Distinct(d: Env) {
    forall i, j :: 0 <= i < j < |d| ==> d[i].key != d[j].key
  }

  // ---- reading -------------------------------------------------------------------------

  /** The lines of a file. Of "\r\n" the second half is one more empty line here, and empty
      lines are skipped. */
  function Lines(text: string): (r: seq<string>)
    ensures r != []
  {
    if text == "" then [""]
    else
      var rest := Lines(text[1..]);
      if IsBreak(text[0]) then [""] + rest else [[text[0]] + rest[0]] + rest[1..]
  }

  /** A stripped line: blank, a comment, without "=", or a variable and the rest. */
  function Assignment(s: string): Option<Pair> {
    if s == "" || s[0] == '#' || Find(s, "=", 0) < 0 then None
    else Some(Pair(Strip(s[..Find(s, "=", 0)]), s[Find(s, "=", 0) + 1..]))
  }

  function ParseLine(line: string): Option<Pair> {
    Assignment(Strip(line))
  }

  function AddLine(d: Env, line: string): Env {
    match ParseLine(line)
    case None => d
    case Some(p) => Set(d, p.key, p.value)
  }

  function AddLines(d: Env, lines: seq<string>): Env
    decreases lines
  {
    if lines == [] then d else AddLines(AddLine(d, lines[0]), lines[1..])
  }

  /** `parse_env`; a missing file reads like an empty one. */
  function Parse(text: string): Env {
    AddLines([], Lines(text))
  }

  method ParseEnv(text: string) returns (out: Env)
    ensures out == Parse(text)
  {
    out := [];
    var rest := Lines(text);
    hide Find, Strip, Lines, Set;
    while rest != []
      invariant AddLines(out, rest) == Parse(text)
      decreases |rest|
    {
      var s := Strip(rest[0]);
      rest := rest[1..];
      if s == "" || s[0] == '#' || Find(s, "=", 0) < 0 {
        continue;
      }
      var split := Find(s, "=", 0);
      out := Set(out, Strip(s[..split]), s[split + 1..]);
    }
  }

  // ---- merging and writing -------------------------------------------------------------

  /** `user_env.update(ops_env)` */
  function Update(d: Env, e: Env): Env
    decreases e
  {
    if e == [] then d else Update(Set(d, e[0].key, e[0].value), e[1..])
  }

  function Print(d: Env): string {
    if d == [] then "" else d[0].key + "=" + d[0].value + "\n" + Print(d[1..])
  }

  method WriteEnv(d: Env) returns (text: string)
    ensures text == Print(d)
  {
    text := "";
    var rest := d;
    while rest != []
      invariant text + Print(rest) == Print(d)
      decreases |rest|
    {
      PrintNext(text, rest);
      hide Print;
      text := text + rest[0].key + "=" + rest[0].value + "\n";
      rest := rest[1..];
    }
  }

  lemma PrintNext(text: string, d: Env)
    requires d != []
    ensures text + Print(d) == text + d[0].key + "=" + d[0].value + "\n" + Print(d[1..])
  {
    var line, rest := d[0].key + "=" + d[0].value + "\n", Print(d[1..]);
    assert Print(d) == line + rest;
    hide Print;
    assert text + (line + rest) == text + line + rest;
    assert text + line == text + d[0].key + "=" + d[0].value + "\n";
  }

  /** One start: what the user's .env is after it. */
  function Next(user: string, ops: string): string {
    Print(Update(Parse(user), Parse(ops)))
  }

  // ---- dicts ---------------------------------------------------------------------------

  lemma {:induction false} SetGet(d: Env, key: string, value: string, other: string)
    ensures Get(Set(d, key, value), other) == if other == key then Some(value) else Get(d, other)
  {
    if d != [] && d[0].key != key { SetGet(d[1..], key, value, other); }
  }

  lemma {:induction false} SetSame(d: Env, key: string, value: string)
    requires Get(d, key) == Some(value)
    ensures Set(d, key, value) == d
  {
    if d[0].key == key {
      assert d == [d[0]] + d[1..];
    } else {
      SetSame(d[1..], key, value);
      assert d == [d[0]] + d[1..];
    }
  }

  lemma {:induction false} SetKeys(d: Env, key: string, value: string, p: Pair)
    requires p in Set(d, key, value)
    ensures p == Pair(key, value) || p in d
  {
    if d != [] && d[0].key != key && p != d[0] { SetKeys(d[1..], key, value, p); }
  }

  lemma {:induction false} SetDistinct(d: Env, key: string, value: string)
    requires Distinct(d)
    ensures Distinct(Set(d, key, value))
  {
    if d != [] && d[0].key != key {
      SetDistinct(d[1..], key, value);
      forall p | p in Set(d[1..], key, value) ensures p.key != d[0].key {
        SetKeys(d[1..], key, value, p);
      }
    }
  }

  lemma DistinctHead(e: Env)
    requires Distinct(e) && e != []
    ensures Get(e[1..], e[0].key) == None
  {
    forall p | p in e[1..] ensures p.key != e[0].key {
      var i :| 0 <= i < |e[1..]| && e[1..][i] == p;
      assert e[i + 1].key != e[0].key;
    }
  }

  /** The ops-managed variables win; every other one the user has is kept. */
  lemma {:induction false} UpdateGet(d: Env, e: Env, key: string)
    requires Distinct(e)
    ensures Get(Update(d, e), key) == if Get(e, key).Some? then Get(e, key) else Get(d, key)
    decreases e
  {
    if e != [] {
      UpdateGet(Set(d, e[0].key, e[0].value), e[1..], key);
      SetGet(d, e[0].key, e[0].value, key);
      DistinctHead(e);
    }
  }

  lemma {:induction false} UpdateNothingNew(d: Env, e: Env)
    requires forall p :: p in e ==> Get(d, p.key) == Some(p.value)
    ensures Update(d, e) == d
  {
    if e != [] {
      SetSame(d, e[0].key, e[0].value);
      UpdateNothingNew(d, e[1..]);
    }
  }

  lemma {:induction false} DistinctGet(e: Env, p: Pair)
    requires Distinct(e) && p in e
    ensures Get(e, p.key) == Some(p.value)
  {
    if e[0] != p {
      assert p in e[1..];
      DistinctGet(e[1..], p);
      var i :| 0 <= i < |e[1..]| && e[1..][i] == p;
      assert e[i + 1].key != e[0].key;
    }
  }

  lemma UpdateTwice(d: Env, e: Env)
    requires Distinct(e)
    ensures Update(Update(d, e), e) == Update(d, e)
  {
    forall p | p in e ensures Get(Update(d, e), p.key) == Some(p.value) {
      DistinctGet(e, p);
      UpdateGet(d, e, p.key);
    }
    UpdateNothingNew(Update(d, e), e);
  }

  // ---- the text round trip -------------------------------------------------------------

  /** A pair that its own line gives back. */
  predicate Clean(p: Pair) {
    && OneLine(p.key) && OneLine(p.value) && (forall i :: 0 <= i < |p.key| ==> p.key[i] != '=')
    && (p.key != "" ==> !IsSpace(p.key[0]) && !IsSpace(p.key[|p.key| - 1]) && p.key[0] != '#')
    && (p.value != "" ==> !IsSpace(p.value[|p.value| - 1]))
  }

  lemma StripClean(s: string)
    requires s != "" ==> !IsSpace(s[0]) && !IsSpace(s[|s| - 1])
    ensures Strip(s) == s
  {
    hide IsSpace;
  }

  lemma FindSeparator(key: string, value: string)
    requires forall i :: 0 <= i < |key| ==> key[i] != '='
    ensures Find(key + "=" + value, "=", 0) == |key|
  {
    var s := key + "=" + value;
    forall j: nat | j < |key| ensures !At(s, j, "=") { assert s[j] == key[j]; }
    assert s[|key|] == '=' && At(s, |key|, "=");
    FindUnique(s, "=", 0, |key|);
  }

  /** Both ends of a written line are no whitespace, so reading strips nothing. */
  lemma LineEnds(p: Pair)
    requires Clean(p)
    ensures var s := p.key + "=" + p.value; s != "" && s[0] != '#' && !IsSpace(s[0]) && !IsSpace(s[|s| - 1])
  {
    var s := p.key + "=" + p.value;
    assert !IsSpace('=');
    hide IsSpace;
    assert s[0] == if p.key == "" then '=' else p.key[0];
    assert s[|s| - 1] == if p.value == "" then '=' else p.value[|p.value| - 1];
  }

  lemma ParseClean(p: Pair)
    requires Clean(p)
    ensures ParseLine(p.key + "=" + p.value) == Some(p)
  {
    hide IsSpace, Strip, Find;
    var s := p.key + "=" + p.value;
    LineEnds(p);
    StripClean(s);
    StripClean(p.key);
    FindSeparator(p.key, p.value);
    assert s[..|p.key|] == p.key && s[|p.key| + 1..] == p.value;
  }

  /** Stripping cuts off both ends up to the first and after the last non-space. */
  lemma StripCuts(s: string) returns (from: nat)
    ensures from + |Strip(s)| <= |s| && Strip(s) == s[from..from + |Strip(s)|]
    ensures Strip(s) != "" ==> !IsSpace(Strip(s)[0]) && !IsSpace(Strip(s)[|Strip(s)| - 1])
    ensures s != "" && !IsSpace(s[0]) ==> from == 0
  {
    hide IsSpace, RStrip, LStrip;
    from := |s| - |LStrip(s)|;
    PrefixOfSuffix(s, from, Strip(s));
    assert Strip(s) != "" ==> Strip(s)[0] == LStrip(s)[0];
  }

  lemma PrefixOfSuffix(s: string, from: nat, r: string)
    requires from <= |s| && r <= s[from..]
    ensures from + |r| <= |s| && r == s[from..from + |r|]
  {
  }

  /** Whatever a line says, what is read from it is clean. */
  lemma LineIsClean(line: string)
    requires OneLine(line)
    ensures ParseLine(line).Some? ==> Clean(ParseLine(line).value)
  {
    hide IsSpace, Strip, Find;
    var s := Strip(line);
    var from := StripCuts(line);
    if ParseLine(line).Some? {
      var i := Find(s, "=", 0);
      BeforeSeparator(s);
      var k := s[..i];
      var f := StripCuts(k);
      assert s[i] == '=';
      var key, value := Strip(k), s[i + 1..];
      assert OneLine(s) && OneLine(k) && OneLine(key) && OneLine(value);
      assert key != "" ==> k[0] == s[0] && f == 0 && key[0] == s[0];
      assert value != "" ==> value[|value| - 1] == s[|s| - 1];
    }
  }

  lemma BeforeSeparator(s: string)
    requires Find(s, "=", 0) >= 0
    ensures s[Find(s, "=", 0)] == '=' && forall j :: 0 <= j < Find(s, "=", 0) ==> s[j] != '='
  {
    var i := Find(s, "=", 0);
    FindIsFirst(s, "=", 0);
    assert s[i..i + 1][0] == '=';
    forall j | 0 <= j < i ensures s[j] != '=' {
      if s[j] == '=' { assert s[j..j + 1] == "=" && At(s, j, "="); }
    }
  }

  // ---- whole files ---------------------------------------------------------------------

  ghost predicate CleanEnv(d: Env) {
    Distinct(d) && forall p :: p in d ==> Clean(p)
  }

  lemma {:induction false} LinesAreLines(text: string)
    ensures forall l :: l in Lines(text) ==> OneLine(l)
  {
    if text != "" {
      LinesAreLines(text[1..]);
      var rest := Lines(text[1..]);
      assert OneLine(rest[0]) && forall l :: l in rest[1..] ==> l in rest;
      assert IsBreak(text[0]) || OneLine([text[0]] + rest[0]);
      hide OneLine;
    }
  }

  lemma SetClean(d: Env, p: Pair)
    requires CleanEnv(d) && Clean(p)
    ensures CleanEnv(Set(d, p.key, p.value))
  {
    SetDistinct(d, p.key, p.value);
    forall q | q in Set(d, p.key, p.value) ensures Clean(q) { SetKeys(d, p.key, p.value, q); }
  }

  lemma {:induction false} AddLinesClean(d: Env, lines: seq<string>)
    requires CleanEnv(d) && forall l :: l in lines ==> OneLine(l)
    ensures CleanEnv(AddLines(d, lines))
    decreases lines
  {
    hide ParseLine, Clean, Distinct, OneLine;
    if lines != [] {
      LineIsClean(lines[0]);
      if ParseLine(lines[0]).Some? { SetClean(d, ParseLine(lines[0]).value); }
      AddLinesClean(AddLine(d, lines[0]), lines[1..]);
    }
  }

  /** Whatever a file says, what is read from it can be written and read again. */
  lemma ParseIsClean(text: string)
    ensures CleanEnv(Parse(text))
  {
    LinesAreLines(text);
    AddLinesClean([], Lines(text));
  }

  lemma {:induction false} UpdateClean(d: Env, e: Env)
    requires CleanEnv(d) && forall p :: p in e ==> Clean(p)
    ensures CleanEnv(Update(d, e))
    decreases e
  {
    hide Clean, Distinct;
    if e != [] {
      SetClean(d, e[0]);
      UpdateClean(Set(d, e[0].key, e[0].value), e[1..]);
    }
  }

  lemma {:induction false} LinesOfLine(line: string, rest: string)
    requires OneLine(line)
    ensures Lines(line + "\n" + rest) == [line] + Lines(rest)
  {
    if line == "" {
      assert ("\n" + rest)[1..] == rest;
      assert line + "\n" + rest == "\n" + rest;
    } else {
      LinesOfLine(line[1..], rest);
      var s := line + "\n" + rest;
      assert s[1..] == line[1..] + "\n" + rest && s[0] == line[0] && !IsBreak(s[0]);
      assert [s[0]] + line[1..] == line && ([line[1..]] + Lines(rest))[1..] == Lines(rest);
    }
  }

  lemma {:induction false} SetNew(d: Env, p: Pair)
    requires Get(d, p.key) == None
    ensures Set(d, p.key, p.value) == d + [p]
  {
    if d != [] { SetNew(d[1..], p); }
  }

  lemma {:induction false} ReadsWhatWasWritten(before: Env, d: Env)
    requires CleanEnv(before + d)
    ensures AddLines(before, Lines(Print(d))) == before + d
    decreases d
  {
    hide ParseLine, Clean, Lines, Set;
    if d == [] {
      BlankAddsNothing(before);
      assert before + d == before;
    } else {
      WrittenLine(before, d);
      ReadsWhatWasWritten(before + [d[0]], d[1..]);
      assert before + [d[0]] + d[1..] == before + d;
    }
  }

  lemma BlankAddsNothing(d: Env)
    ensures AddLines(d, Lines(Print([]))) == d
  {
    assert Lines("") == [""] && ParseLine("") == None;
    assert [""][1..] == [];
    assert AddLines(d, [""]) == AddLines(d, []);
  }

  lemma WrittenLine(before: Env, d: Env)
    requires d != [] && CleanEnv(before + d)
    ensures CleanEnv(before + [d[0]] + d[1..])
    ensures AddLines(before, Lines(Print(d))) == AddLines(before + [d[0]], Lines(Print(d[1..])))
  {
    hide ParseLine, Clean, Lines, Set, Distinct;
    var p, line, rest := d[0], d[0].key + "=" + d[0].value, Print(d[1..]);
    assert before + [p] + d[1..] == before + d;
    NextIsNew(before, d);
    ParseClean(p);
    WrittenIsOneLine(p);
    LinesOfLine(line, rest);
    assert Print(d) == line + "\n" + rest;
    assert ([line] + Lines(rest))[1..] == Lines(rest);
  }

  lemma WrittenIsOneLine(p: Pair)
    requires Clean(p)
    ensures OneLine(p.key + "=" + p.value)
  {
  }

  lemma NextIsNew(before: Env, d: Env)
    requires d != [] && CleanEnv(before + d)
    ensures Clean(d[0]) && Set(before, d[0].key, d[0].value) == before + [d[0]]
  {
    var p := d[0];
    assert (before + d)[|before|] == p;
    forall q | q in before ensures q.key != p.key {
      var i :| 0 <= i < |before| && before[i] == q;
      assert (before + d)[i] == q;
    }
    SetNew(before, p);
  }

  /** Writing and reading again changes nothing. */
  lemma ParseInvertsPrint(d: Env)
    requires CleanEnv(d)
    ensures Parse(Print(d)) == d
  {
    assert [] + d == d;
    ReadsWhatWasWritten([], d);
  }

  /** After a start the file holds the ops-managed variables and, where ops sets none, the
      user's; and the next start leaves the file as it is, to the character. */
  lemma NextIsFinal(user: string, ops: string, key: string)
    ensures Get(Parse(Next(user, ops)), key) ==
              if Get(Parse(ops), key).Some? then Get(Parse(ops), key) else Get(Parse(user), key)
    ensures Next(Next(user, ops), ops) == Next(user, ops)
  {
    var d, e := Parse(user), Parse(ops);
    ParseIsClean(user);
    ParseIsClean(ops);
    hide Parse, Clean, Get;
    UpdateClean(d, e);
    ParseInvertsPrint(Update(d, e));
    UpdateGet(d, e, key);
    UpdateTwice(d, e);
  }
}
