/** A value that may be missing. */
module Options {
  datatype Option<+T> = None | Some(value: T)
}

/** The fragment of Python's `str` the modelled programs use. Text is `string`; an
    index that Python clamps is clamped here too. */
module Text {

  /** `t` occurs in `s` at index `i`. */
  predicate At(s: string, i: nat, t: string) {
    i + |t| <= |s| && s[i..i + |t|] == t
  }

  /** `t in s`. */
  ghost predicate Contains(s: string, t: string) {
    exists i: nat :: At(s, i, t)
  }

  /** `s.endswith(t)`. */
  predicate EndsWith(s: string, t: string) {
    |t| <= |s| && s[|s| - |t|..] == t
  }

  /** `s.find(t, from)`: the first occurrence at or after `from`, or -1 (see `FindIsFirst`). */
  function Find(s: string, t: string, from: nat): (r: int)
    ensures r == -1 || from <= r <= |s| - |t|
    decreases |s| - from
  {
    if from + |t| > |s| then -1
    else if At(s, from, t) then from
    else Find(s, t, from + 1)
  }

  lemma {:induction false} FindIsFirst(s: string, t: string, from: nat)
    ensures var r := Find(s, t, from);
            && (r >= 0 ==> At(s, r, t))
            && forall j: nat :: from <= j && (r < 0 || j < r) ==> !At(s, j, t)
    decreases |s| - from
  {
    if from + |t| <= |s| && !At(s, from, t) { FindIsFirst(s, t, from + 1); }
  }

  /** The two clauses of `Find` leave no freedom: anything that meets them is `Find`. */
  lemma FindUnique(s: string, t: string, from: nat, r: int)
    requires -1 <= r
    requires r >= 0 ==> from <= r && At(s, r, t)
    requires forall j: nat :: from <= j && (r < 0 || j < r) ==> !At(s, j, t)
    ensures Find(s, t, from) == r
  {
    var f := Find(s, t, from);
    FindIsFirst(s, t, from);
    assert f >= 0 ==> r >= 0 && r <= f;
  }

  lemma AtInPrefix(s: string, u: string, j: nat, t: string)
    requires j + |t| <= |s|
    ensures At(s + u, j, t) == At(s, j, t)
  {
    assert (s + u)[j..j + |t|] == s[j..j + |t|];
  }

  lemma AtInSuffix(s: string, e: nat, j: nat, t: string)
    requires e <= j && e <= |s|
    ensures At(s, j, t) == At(s[e..], j - e, t)
  {
    if j + |t| <= |s| {
      assert s[e..][j - e..j - e + |t|] == s[j..j + |t|];
    }
  }

  /** Searching from `pos` is searching the rest of the string. */
  lemma FindInSuffix(s: string, t: string, pos: nat)
    requires pos <= |s|
    ensures Find(s, t, pos) == (var r := Find(s[pos..], t, 0); if r < 0 then -1 else r + pos)
  {
    var r := Find(s[pos..], t, 0);
    FindIsFirst(s[pos..], t, 0);
    if r >= 0 { AtInSuffix(s, pos, r + pos, t); }
    forall j: nat | pos <= j && (r < 0 || j < r + pos) ensures !At(s, j, t) {
      AtInSuffix(s, pos, j, t);
    }
    FindUnique(s, t, pos, if r < 0 then -1 else r + pos);
  }

  lemma EndsWithInSuffix(s: string, e: nat, t: string)
    requires e <= |s| && |t| <= |s| - e
    ensures EndsWith(s, t) == EndsWith(s[e..], t)
  {
    assert s[e..][|s| - e - |t|..] == s[|s| - |t|..];
  }
}

/** Python's whitespace, `rfind`, `strip` and negative slices. */
module PyText {
  import opened Text

  predicate IsBreak(c: char) { c == '\n' || c == '\r' }

  /** The text holds no line break. */
  predicate OneLine(s: string) {
    forall i :: 0 <= i < |s| ==> !IsBreak(s[i])
  }

  /** `str.isspace` of one character, which is also what `\s` matches. */
  predicate IsSpace(c: char) {
    var u := c as int;
    || 0x09 <= u <= 0x0D || 0x1C <= u <= 0x20 || u == 0x85 || u == 0xA0 || u == 0x1680
    || 0x2000 <= u <= 0x200A || u == 0x2028 || u == 0x2029 || u == 0x202F || u == 0x205F || u == 0x3000
  }

  /** `s.rstrip()` */
  function RStrip(s: string): (r: string)
    ensures r <= s
    ensures r == "" || !IsSpace(r[|r| - 1])
    ensures forall i :: |r| <= i < |s| ==> IsSpace(s[i])
  {
    if s == "" || !IsSpace(s[|s| - 1]) then s else RStrip(s[..|s| - 1])
  }

  /** `s.lstrip()` */
  function LStrip(s: string): (r: string)
    ensures |r| <= |s| && r == s[|s| - |r|..]
    ensures r == "" || !IsSpace(r[0])
    ensures forall i :: 0 <= i < |s| - |r| ==> IsSpace(s[i])
  {
    if s == "" || !IsSpace(s[0]) then s else LStrip(s[1..])
  }

  /** `s.strip()` */
  function Strip(s: string): string {
    RStrip(LStrip(s))
  }

  /** `s[-k:]`; a `k` of 0 is the whole of `s`. */
  function Last<T>(s: seq<T>, k: nat): seq<T> {
    if k == 0 || k >= |s| then s else s[|s| - k..]
  }

  /** `s.rfind(t, 0, end)` */
  function RFind(s: string, t: string, end: nat): (r: int)
    ensures r == -1 || (0 <= r && r + |t| <= |s| && At(s, r, t))
  {
    var e := if end < |s| then end else |s|;
    if e < |t| then -1
    else if At(s, e - |t|, t) then e - |t|
    else if e == 0 then -1
    else RFind(s, t, e - 1)
  }
}
