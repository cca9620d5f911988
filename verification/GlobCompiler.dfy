/** `pattern_to_regex` of repo_scripts/check_dist_secrets.py: the compiler from
    gitattributes path patterns to regular expressions, against a matcher that walks the
    pattern itself. Paths contain no newline. */
module GlobCompiler {

  /** The five pieces the compiler emits. */
  datatype Token =
    | Directories    // (?:.*/)?
    | Anything       // .*
    | Segment        // [^/]*
    | OneChar        // [^/]
    | Literal(c: char)

  /** The language of one piece, over text without newlines. */
  predicate Accepts(t: Token, s: string) {
    match t
    case Directories => s == "" || s[|s| - 1] == '/'
    case Anything => true
    case Segment => '/' !in s
    case OneChar => |s| == 1 && s[0] != '/'
    case Literal(c) => s == [c]
  }

  /** The anchored concatenation of the pieces matches all of `s`. */
  ghost predicate Matches(tokens: seq<Token>, s: string)
    decreases |tokens|
  {
    if tokens == [] then s == "" else exists k :: 0 <= k <= |s| && SplitsAt(tokens, s, k)
  }

  ghost predicate SplitsAt(tokens: seq<Token>, s: string, k: nat)
    requires tokens != [] && k <= |s|
    decreases |tokens|, 0
  {
    Accepts(tokens[0], s[..k]) && Matches(tokens[1..], s[k..])
  }

  // ---- the compiler --------------------------------------------------------------------

  predicate StartsWith(s: string, t: string) {
    |t| <= |s| && s[..|t|] == t
  }

  /** The pieces for a pattern that is already anchored. */
  function Tokens(p: string): seq<Token> {
    if p == "" then []
    else if StartsWith(p, "**/") then [Directories] + Tokens(p[3..])
    else if StartsWith(p, "**") then [Anything] + Tokens(p[2..])
    else if p[0] == '*' then [Segment] + Tokens(p[1..])
    else if p[0] == '?' then [OneChar] + Tokens(p[1..])
    else [Literal(p[0])] + Tokens(p[1..])
  }

  /** A pattern without a slash matches at any depth. */
  function Anchored(pattern: string): string {
    if '/' !in pattern then "**/" + pattern else pattern
  }

  /** What the compiler's loop emits at `i`, and how far it advances. */
  function NextToken(p: string, i: nat): (Token, nat)
    requires i < |p|
  {
    if StartsWith(p[i..], "**/") then (Directories, 3)
    else if StartsWith(p[i..], "**") then (Anything, 2)
    else if p[i] == '*' then (Segment, 1)
    else if p[i] == '?' then (OneChar, 1)
    else (Literal(p[i]), 1)
  }

  ghost predicate Compiled(p: string, out: seq<Token>, i: nat) {
    i <= |p| && Tokens(p) == out + Tokens(p[i..])
  }

  lemma CompiledEnds(p: string, out: seq<Token>)
    ensures Compiled(p, [], 0)
    ensures Compiled(p, out, |p|) ==> out == Tokens(p)
  {
    assert p[0..] == p && p[|p|..] == "";
  }

  lemma CompiledStep(p: string, out: seq<Token>, i: nat)
    requires Compiled(p, out, i) && i < |p|
    ensures Compiled(p, out + [NextToken(p, i).0], i + NextToken(p, i).1)
  {
    var r, step := p[i..], NextToken(p, i);
    assert r[step.1..] == p[i + step.1..];
    assert Tokens(r) == [step.0] + Tokens(r[step.1..]);
    assert out + ([step.0] + Tokens(r[step.1..])) == out + [step.0] + Tokens(r[step.1..]);
  }

  method PatternToRegex(pattern: string) returns (out: seq<Token>)
    ensures out == Tokens(Anchored(pattern))
    ensures forall s :: Matches(out, s) <==> Covers(pattern, s)
  {
    var p := if '/' !in pattern then "**/" + pattern else pattern;
    out := [];
    var i := 0;
    hide Tokens, Compiled, StartsWith;
    CompiledEnds(p, out);
    while i < |p|
      invariant i <= |p| && Compiled(p, out, i)
      decreases |p| - i
    {
      CompiledStep(p, out, i);
      CompiledInside(p, out + [NextToken(p, i).0], i + NextToken(p, i).1);
      if StartsWith(p[i..], "**/") {
        out, i := out + [Directories], i + 3;
      } else if StartsWith(p[i..], "**") {
        out, i := out + [Anything], i + 2;
      } else if p[i] == '*' {
        out, i := out + [Segment], i + 1;
      } else if p[i] == '?' {
        out, i := out + [OneChar], i + 1;
      } else {
        out, i := out + [Literal(p[i])], i + 1;
      }
    }
    CompiledEnds(p, out);
    forall s ensures Matches(out, s) <==> Covers(pattern, s) { AnchoringMeans(pattern, s); }
  }

  lemma CompiledInside(p: string, out: seq<Token>, i: nat)
    requires Compiled(p, out, i)
    ensures i <= |p|
  {
  }

  // ---- the matcher ---------------------------------------------------------------------

  /** Walks pattern and path together, one character at a time. */
  predicate Glob(p: string, s: string)
    decreases |p|, |s|
  {
    if p == "" then s == ""
    else if StartsWith(p, "**/") then Glob(p[3..], s) || BelowSomeDirectory(p[3..], s)
    else if StartsWith(p, "**") then Glob(p[2..], s) || (s != "" && Glob(p, s[1..]))
    else if p[0] == '*' then Glob(p[1..], s) || (s != "" && s[0] != '/' && Glob(p, s[1..]))
    else if p[0] == '?' then s != "" && s[0] != '/' && Glob(p[1..], s[1..])
    else s != "" && s[0] == p[0] && Glob(p[1..], s[1..])
  }

  /** `p` matches what is behind some slash of `s`. */
  predicate BelowSomeDirectory(p: string, s: string)
    decreases |p|, |s|
  {
    s != "" && ((s[0] == '/' && Glob(p, s[1..])) || BelowSomeDirectory(p, s[1..]))
  }

  // ---- each piece, unfolded ------------------------------------------------------------

  lemma MatchesHead(t: Token, ts: seq<Token>, s: string)
    ensures Matches([t] + ts, s) <==> exists k :: 0 <= k <= |s| && Accepts(t, s[..k]) && Matches(ts, s[k..])
  {
    var all := [t] + ts;
    assert all[0] == t && all[1..] == ts;
    forall k | 0 <= k <= |s| ensures SplitsAt(all, s, k) <==> Accepts(t, s[..k]) && Matches(ts, s[k..]) {}
  }

  /** A piece that takes exactly one character. */
  lemma MatchesOne(t: Token, ts: seq<Token>, s: string)
    requires t.OneChar? || t.Literal?
    ensures Matches([t] + ts, s) <==> s != "" && Accepts(t, s[..1]) && Matches(ts, s[1..])
  {
    MatchesHead(t, ts, s);
    forall k | 0 <= k <= |s| && Accepts(t, s[..k]) ensures k == 1 {}
  }

  /** A piece that takes any number of characters of some kind. */
  lemma MatchesRun(t: Token, ts: seq<Token>, s: string)
    requires t.Anything? || t.Segment?
    ensures Matches([t] + ts, s) <==>
            Matches(ts, s) || (s != "" && (t.Segment? ==> s[0] != '/') && Matches([t] + ts, s[1..]))
  {
    hide Matches;
    MatchesHead(t, ts, s);
    assert s[0..] == s && Accepts(t, s[..0]);
    if s != "" {
      var r := s[1..];
      MatchesHead(t, ts, r);
      forall k | 1 <= k <= |s|
        ensures s[k..] == r[k - 1..]
        ensures Accepts(t, s[..k]) <==> (t.Segment? ==> s[0] != '/') && Accepts(t, r[..k - 1])
      {
        assert s[..k] == [s[0]] + r[..k - 1];
      }
      if k :| 1 <= k <= |s| && Accepts(t, s[..k]) && Matches(ts, s[k..]) {
        assert Accepts(t, r[..k - 1]) && Matches(ts, r[k - 1..]);
      }
      if k :| 0 <= k <= |r| && (t.Segment? ==> s[0] != '/') && Accepts(t, r[..k]) && Matches(ts, r[k..]) {
        assert Accepts(t, s[..k + 1]) && Matches(ts, s[k + 1..]);
      }
    }
  }

  lemma MatchesDirectories(ts: seq<Token>, s: string)
    ensures Matches([Directories] + ts, s) <==>
            Matches(ts, s) || exists j :: 0 <= j < |s| && s[j] == '/' && Matches(ts, s[j + 1..])
  {
    MatchesHead(Directories, ts, s);
    assert s[0..] == s && Accepts(Directories, s[..0]);
    if k :| 1 <= k <= |s| && Accepts(Directories, s[..k]) && Matches(ts, s[k..]) {
      assert s[k - 1] == '/' && s[k - 1 + 1..] == s[k..];
    }
    if j :| 0 <= j < |s| && s[j] == '/' && Matches(ts, s[j + 1..]) {
      assert Accepts(Directories, s[..j + 1]);
    }
  }

  lemma {:induction false} BelowMeans(p: string, s: string)
    ensures BelowSomeDirectory(p, s) <==> exists j :: 0 <= j < |s| && s[j] == '/' && Glob(p, s[j + 1..])
    decreases |s|
  {
    hide Glob;
    if s != "" {
      BelowMeans(p, s[1..]);
      if j :| 0 <= j < |s| && s[j] == '/' && Glob(p, s[j + 1..]) {
        if j > 0 { assert s[1..][j - 1] == '/' && s[1..][j - 1 + 1..] == s[j + 1..]; }
      }
      if j :| 0 <= j < |s[1..]| && s[1..][j] == '/' && Glob(p, s[1..][j + 1..]) {
        assert s[j + 1] == '/' && s[j + 1 + 1..] == s[1..][j + 1..];
      }
    }
  }

  // ---- main results --------------------------------------------------------------------

  /** The compiled expression accepts a path exactly if the pattern, walked directly, does. */
  lemma {:induction false} CompilerKeepsMeaning(p: string, s: string)
    ensures Matches(Tokens(p), s) <==> Glob(p, s)
    decreases |p|, |s|
  {
    hide Matches;
    if p == "" {
      MatchesNothing(s);
    } else if StartsWith(p, "**/") {
      MatchesDirectories(Tokens(p[3..]), s);
      BelowMeans(p[3..], s);
      CompilerKeepsMeaning(p[3..], s);
      forall j | 0 <= j < |s| && s[j] == '/' ensures Matches(Tokens(p[3..]), s[j + 1..]) <==> Glob(p[3..], s[j + 1..]) {
        CompilerKeepsMeaning(p[3..], s[j + 1..]);
      }
    } else if StartsWith(p, "**") {
      MatchesRun(Anything, Tokens(p[2..]), s);
      CompilerKeepsMeaning(p[2..], s);
      if s != "" { CompilerKeepsMeaning(p, s[1..]); }
    } else if p[0] == '*' {
      MatchesRun(Segment, Tokens(p[1..]), s);
      CompilerKeepsMeaning(p[1..], s);
      if s != "" { CompilerKeepsMeaning(p, s[1..]); }
    } else {
      MatchesOne(if p[0] == '?' then OneChar else Literal(p[0]), Tokens(p[1..]), s);
      if s != "" { CompilerKeepsMeaning(p[1..], s[1..]); }
    }
  }

  lemma MatchesNothing(s: string)
    ensures Matches([], s) <==> s == ""
  {
  }

  /** What is behind the last slash. */
  function LastComponent(s: string): string {
    if '/' !in s then s else LastComponent(s[1..])
  }

  /** No two stars in a row. */
  predicate NoDoubleStar(p: string) {
    forall i :: 0 <= i < |p| - 1 ==> !(p[i] == '*' && p[i + 1] == '*')
  }

  lemma StartsWithStars(p: string)
    ensures StartsWith(p, "**/") || StartsWith(p, "**") ==> |p| >= 2 && p[0] == '*' && p[1] == '*'
  {
    if StartsWith(p, "**") { assert p[0] == p[..2][0] && p[1] == p[..2][1]; }
    if StartsWith(p, "**/") { assert p[0] == p[..3][0] && p[1] == p[..3][1]; }
  }

  /** A pattern without slash and `**` matches text without slash only. */
  lemma {:induction false} PlainStaysInComponent(p: string, s: string)
    requires '/' !in p && NoDoubleStar(p) && Glob(p, s)
    ensures '/' !in s
    decreases |p|, |s|
  {
    if p != "" {
      StartsWithStars(p);
      if p[0] == '*' {
        if Glob(p[1..], s) { PlainStaysInComponent(p[1..], s); } else { PlainStaysInComponent(p, s[1..]); }
      } else {
        PlainStaysInComponent(p[1..], s[1..]);
      }
    }
  }

  lemma {:induction false} LastComponentIs(s: string, j: nat)
    requires j <= |s| && (j == 0 || s[j - 1] == '/') && '/' !in s[j..]
    ensures LastComponent(s) == s[j..]
    decreases j
  {
    if j > 0 {
      assert s[1..][j - 1..] == s[j..];
      LastComponentIs(s[1..], j - 1);
    }
  }

  lemma {:induction false} LastSlash(s: string) returns (j: nat)
    ensures j <= |s| && (j == 0 || s[j - 1] == '/') && '/' !in s[j..]
  {
    if '/' !in s {
      j := 0;
    } else if '/' in s[1..] {
      j := LastSlash(s[1..]);
      assert s[1..][j..] == s[j + 1..];
      j := j + 1;
    } else {
      j := 1;
    }
  }

  /** The pattern behind its leading run of stars. */
  function DropLeadingStars(p: string): string {
    if p != "" && p[0] == '*' then DropLeadingStars(p[1..]) else p
  }

  /** What the pattern matches at any depth is decided by the last component. */
  ghost predicate Confined(p: string) {
    forall s :: Glob(p, s) ==> Glob(p, LastComponent(s))
  }

  /** Behind a leading run of stars, a match may begin later. */
  lemma {:induction false} LeadingStars(p: string, s: string, k: nat)
    requires '/' !in p && StartsWith(p, "**") && k <= |s| && Glob(p, s[k..])
    ensures Glob(p, s)
    decreases k
  {
    NotDirectories(p);
    if k > 0 {
      assert s[k - 1..][1..] == s[k..];
      LeadingStars(p, s, k - 1);
    } else {
      assert s[0..] == s;
    }
  }

  lemma NotDirectories(p: string)
    requires '/' !in p
    ensures !StartsWith(p, "**/")
  {
    SlashInside(p);
  }

  lemma SlashInside(p: string)
    ensures StartsWith(p, "**/") ==> '/' in p
  {
    if StartsWith(p, "**/") { assert p[2] == p[..3][2]; }
  }

  lemma DropTwo(p: string)
    requires StartsWith(p, "**")
    ensures DropLeadingStars(p) == DropLeadingStars(p[2..]) && Shortest(p) == Shortest(p[2..])
  {
    StartsWithStars(p);
    assert p[1..][1..] == p[2..] && p[1..][0] == p[1];
  }

  lemma NoSlashBehind(s: string, last: nat)
    requires last <= |s| && '/' !in s[last..]
    ensures forall j :: last <= j < |s| ==> s[j] != '/'
  {
    forall j | last <= j < |s| ensures s[j] != '/' { assert s[last..][j - last] == s[j]; }
  }

  /** A match of a pattern whose stars in a row all lead ends in a match of the rest. */
  lemma {:induction false} PlainEnd(p: string, s: string) returns (k: nat)
    requires '/' !in p && Glob(p, s)
    ensures k <= |s| && Glob(DropLeadingStars(p), s[k..])
    decreases |p|, |s|
  {
    NotDirectories(p);
    StartsWithStars(p);
    assert s[0..] == s;
    if p == "" || p[0] != '*' {
      k := 0;
    } else {
      var rest := if StartsWith(p, "**") then p[2..] else p[1..];
      if StartsWith(p, "**") { DropTwo(p); }
      if Glob(rest, s) {
        k := PlainEnd(rest, s);
      } else {
        k := PlainEnd(p, s[1..]);
        assert s[1..][k..] == s[k + 1..];
        k := k + 1;
      }
    }
  }

  /** Two leading stars take anything in front of a match of the rest. */
  lemma {:induction false} StarsThenEnd(p: string, s: string, k: nat)
    requires '/' !in p && StartsWith(p, "**") && k <= |s| && Glob(DropLeadingStars(p), s[k..])
    ensures Glob(p, s)
  {
    StarsThenRest(p, s[k..]);
    LeadingStars(p, s, k);
  }

  lemma {:induction false} StarsThenRest(p: string, s: string)
    requires '/' !in p && Glob(DropLeadingStars(p), s)
    ensures Glob(p, s)
    decreases |p|
  {
    NotDirectories(p);
    StartsWithStars(p);
    if p != "" && p[0] == '*' {
      if StartsWith(p, "**") {
        DropTwo(p);
        StarsThenRest(p[2..], s);
      } else {
        StarsThenRest(p[1..], s);
      }
    }
  }

  lemma {:induction false} DropsOnlyStars(p: string)
    ensures |DropLeadingStars(p)| <= |p| && p[|p| - |DropLeadingStars(p)|..] == DropLeadingStars(p)
    ensures forall i :: 0 <= i < |p| - |DropLeadingStars(p)| ==> p[i] == '*'
    ensures DropLeadingStars(p) != "" ==> DropLeadingStars(p)[0] != '*'
  {
    if p != "" && p[0] == '*' {
      DropsOnlyStars(p[1..]);
      var n := |p| - |DropLeadingStars(p)|;
      assert p[1..][n - 1..] == p[n..];
      forall i | 0 < i < n ensures p[i] == '*' { assert p[1..][i - 1] == p[i]; }
    } else {
      assert p[0..] == p;
    }
  }

  /** The condition suffices. */
  lemma PlainIsConfined(p: string)
    requires '/' !in p && NoDoubleStar(DropLeadingStars(p))
    ensures Confined(p)
  {
    DropsOnlyStars(p);
    forall s | Glob(p, s) ensures Glob(p, LastComponent(s)) { PlainMatchIsConfined(p, s); }
  }

  lemma PlainMatchIsConfined(p: string, s: string)
    requires '/' !in p && NoDoubleStar(DropLeadingStars(p)) && Glob(p, s)
    ensures Glob(p, LastComponent(s))
  {
    DropsOnlyStars(p);
    hide Glob;
    if StartsWith(p, "**") {
      var q := DropLeadingStars(p);
      var k := PlainEnd(p, s);
      var last := LastSlash(s);
      LastComponentIs(s, last);
      PlainStaysInComponent(q, s[k..]);
      NoSlashBehind(s, k);
      assert s[last..][k - last..] == s[k..];
      StarsThenEnd(p, s[last..], k - last);
    } else {
      OneLeadingStar(p);
      PlainStaysInComponent(p, s);
    }
  }

  lemma OneLeadingStar(p: string)
    requires NoDoubleStar(DropLeadingStars(p)) && !StartsWith(p, "**")
    ensures NoDoubleStar(p)
  {
    DropsOnlyStars(p);
    var q := DropLeadingStars(p);
    var n := |p| - |q|;
    forall i | 0 <= i < |p| - 1 ensures !(p[i] == '*' && p[i + 1] == '*') {
      if i >= n { assert p[i] == q[i - n] && p[i + 1] == q[i + 1 - n]; }
      else { assert p[i + 1] == q[0]; }
    }
  }

  // ---- patterns that reach across components -------------------------------------------

  /** The shortest match of a pattern without a slash: no star takes anything. */
  function Shortest(p: string): (s: string)
    ensures '/' !in p ==> '/' !in s
  {
    if p == "" then ""
    else if p[0] == '*' then Shortest(p[1..])
    else [if p[0] == '?' then 'x' else p[0]] + Shortest(p[1..])
  }

  /** Nothing shorter matches. */
  lemma {:induction false} MatchesAreLonger(p: string, s: string)
    requires '/' !in p && Glob(p, s)
    ensures |s| >= |Shortest(p)|
    decreases |p|, |s|
  {
    NotDirectories(p);
    StartsWithStars(p);
    if p != "" {
      if StartsWith(p, "**") {
        DropTwo(p);
        if Glob(p[2..], s) { MatchesAreLonger(p[2..], s); } else { MatchesAreLonger(p, s[1..]); }
      } else if p[0] == '*' {
        if Glob(p[1..], s) { MatchesAreLonger(p[1..], s); } else { MatchesAreLonger(p, s[1..]); }
      } else {
        MatchesAreLonger(p[1..], s[1..]);
      }
    }
  }

  /** The pattern can be matched piecewise, unless two stars in a row are torn apart. */
  lemma {:induction false} MatchesPiecewise(p: string, i: nat, t: string)
    requires '/' !in p && i <= |p| && (i == 0 || i == |p| || p[i - 1] != '*') && Glob(p[i..], t)
    ensures Glob(p, Shortest(p[..i]) + t)
    decreases |p|
  {
    hide Shortest;
    NotDirectories(p);
    StartsWithStars(p);
    ShortestPiece(p, i);
    if i == 0 {
      assert p[0..] == p && Shortest(p[..0]) + t == t;
    } else if StartsWith(p, "**") {
      PieceBehind(p, i, 2);
      MatchesPiecewise(p[2..], i - 2, t);
    } else {
      PieceBehind(p, i, 1);
      MatchesPiecewise(p[1..], i - 1, t);
      var c, rest := if p[0] == '?' then 'x' else p[0], Shortest(p[1..][..i - 1]);
      assert p[0] != '*' ==> Shortest(p[..i]) + t == [c] + (rest + t);
    }
  }

  lemma ShortestPiece(p: string, i: nat)
    requires i <= |p|
    ensures i == 0 ==> Shortest(p[..i]) == ""
    ensures i > 0 && p[0] == '*' ==> Shortest(p[..i]) == Shortest(p[1..][..i - 1])
    ensures i > 0 && p[0] != '*' ==>
              Shortest(p[..i]) == [if p[0] == '?' then 'x' else p[0]] + Shortest(p[1..][..i - 1])
    ensures i > 1 && p[0] == p[1] == '*' ==> Shortest(p[..i]) == Shortest(p[2..][..i - 2])
  {
    if i > 0 { assert p[..i][1..] == p[1..][..i - 1]; }
    if i > 1 { assert p[1..][..i - 1][1..] == p[2..][..i - 2] && p[1..][..i - 1][0] == p[1]; }
  }

  lemma PieceBehind(p: string, i: nat, n: nat)
    requires n <= i <= |p|
    ensures p[n..][i - n..] == p[i..] && (i > n ==> p[n..][i - n - 1] == p[i - 1])
  {
  }

  lemma {:induction false} ShortestOfSum(a: string, b: string)
    ensures Shortest(a + b) == Shortest(a) + Shortest(b)
  {
    if a == "" {
      assert a + b == b;
    } else {
      assert (a + b)[1..] == a[1..] + b;
      ShortestOfSum(a[1..], b);
    }
  }

  /** The first two stars in a row behind the leading run. */
  lemma {:induction false} LateStars(p: string) returns (i: nat)
    requires !NoDoubleStar(DropLeadingStars(p))
    ensures 0 < i < |p| - 1 && p[i - 1] != '*' && p[i] == p[i + 1] == '*'
  {
    DropsOnlyStars(p);
    var q := DropLeadingStars(p);
    i :| 0 <= i < |q| - 1 && q[i] == '*' && q[i + 1] == '*';
    while q[i - 1] == '*'
      invariant 0 < i < |q| - 1 && q[i] == '*' && q[i + 1] == '*'
      decreases i
    {
      i := i - 1;
    }
    var n := |p| - |q|;
    assert p[n + i - 1] == q[i - 1] && p[n + i] == q[i] && p[n + i + 1] == q[i + 1];
    i := n + i;
  }

  /** A path that such a pattern matches although it does not match the last component. */
  lemma LateStarsCross(p: string) returns (s: string)
    requires '/' !in p && !NoDoubleStar(DropLeadingStars(p))
    ensures Glob(p, s) && !Glob(p, LastComponent(s))
  {
    var i := LateStars(p);
    var a, w := Shortest(p[..i]), Shortest(p[i + 2..]);
    MatchesShortest(p[i + 2..]);
    assert p[i..][2..] == p[i + 2..];
    CrossesStars(p[i..], w);
    MatchesPiecewise(p, i, "/" + w);
    s := a + ("/" + w);
    LastComponentIs(s, |a| + 1);
    assert s[|a| + 1..] == w;
    BehindIsShorter(p, i);
    hide Glob, Shortest;
    if Glob(p, w) { MatchesAreLonger(p, w); }
  }

  lemma MatchesShortest(p: string)
    requires '/' !in p
    ensures Glob(p, Shortest(p))
  {
    assert p[..|p|] == p && p[|p|..] == "" && Shortest(p) + "" == Shortest(p);
    MatchesPiecewise(p, |p|, "");
  }

  lemma BehindIsShorter(p: string, i: nat)
    requires 0 < i < |p| - 1 && p[i - 1] != '*'
    ensures |Shortest(p)| > |Shortest(p[i + 2..])|
  {
    assert p[..i - 1] + p[i - 1..] == p;
    ShortestOfSum(p[..i - 1], p[i - 1..]);
    assert p[i - 1..][1..] == p[i..] && p[i..i + 2] + p[i + 2..] == p[i..];
    ShortestOfSum(p[i..i + 2], p[i + 2..]);
  }

  lemma CrossesStars(r: string, w: string)
    requires '/' !in r && |r| >= 2 && r[0] == r[1] == '*' && Glob(r[2..], w)
    ensures Glob(r, "/" + w)
  {
    NotDirectories(r);
    assert r[..2] == "**";
    assert ("/" + w)[1..] == w;
  }

  // ---- the rule for patterns without a slash -------------------------------------------

  /** At any depth: the pattern matches the path itself or what is behind one of its slashes. */
  lemma AtSomeDepth(pattern: string, s: string)
    requires '/' !in pattern
    ensures Matches(Tokens(Anchored(pattern)), s) <==>
            Glob(pattern, s) || exists j :: 0 <= j < |s| && s[j] == '/' && Glob(pattern, s[j + 1..])
  {
    var p := Anchored(pattern);
    CompilerKeepsMeaning(p, s);
    assert p[..3] == "**/" && p[3..] == pattern;
    assert Glob(p, s) <==> Glob(pattern, s) || BelowSomeDirectory(pattern, s);
    hide Glob, Matches;
    BelowMeans(pattern, s);
  }

  /** A pattern with a slash is anchored at the root; any other matches at any depth. */
  ghost predicate Covers(pattern: string, s: string) {
    if '/' in pattern then Glob(pattern, s)
    else Glob(pattern, s) || exists j :: 0 <= j < |s| && s[j] == '/' && Glob(pattern, s[j + 1..])
  }

  lemma AnchoringMeans(pattern: string, s: string)
    ensures Matches(Tokens(Anchored(pattern)), s) <==> Covers(pattern, s)
  {
    hide Matches, Glob;
    if '/' in pattern { CompilerKeepsMeaning(pattern, s); } else { AtSomeDepth(pattern, s); }
  }

  /** A pattern without wildcards matches itself only. */
  lemma {:induction false} PlainMatchesItself(p: string, s: string)
    requires '*' !in p && '?' !in p
    ensures Glob(p, s) <==> s == p
    decreases |p|
  {
    StartsWithStars(p);
    if p != "" && s != "" { PlainMatchesItself(p[1..], s[1..]); }
    if p != "" && s != "" { assert p == [p[0]] + p[1..] && s == [s[0]] + s[1..]; }
  }

  /** One star matches any text within a component, a question mark one character of it, two
      stars anything, and two stars with a slash any directories. */
  lemma {:induction false} WildcardsMean(s: string)
    ensures Glob("*", s) <==> '/' !in s
    ensures Glob("?", s) <==> |s| == 1 && s[0] != '/'
    ensures Glob("**", s)
    ensures Glob("**/", s) <==> s == "" || s[|s| - 1] == '/'
  {
    assert "*"[1..] == "" && "?"[1..] == "" && "**"[2..] == "" && "**/"[3..] == "";
    StartsWithStars("*");
    StartsWithStars("?");
    NotDirectories("**");
    BelowMeans("", s);
    if s != "" {
      WildcardsMean(s[1..]);
      assert s == [s[0]] + s[1..];
    }
    assert s != "" ==> s[|s| - 1 + 1..] == "";
  }

  /** What is behind a slash has the same last component. */
  lemma SameLast(s: string, j: nat)
    requires j < |s| && s[j] == '/'
    ensures LastComponent(s[j + 1..]) == LastComponent(s)
  {
    var last := LastSlash(s);
    LastComponentIs(s, last);
    NoSlashBehind(s, last);
    assert s[j + 1..][last - j - 1..] == s[last..];
    assert last > j + 1 ==> s[j + 1..][last - j - 2] == s[last - 1];
    LastComponentIs(s[j + 1..], last - j - 1);
  }

  /** The last component is the path or stands behind a slash. */
  lemma LastIsAtSomeDepth(pattern: string, s: string)
    requires Glob(pattern, LastComponent(s))
    ensures Glob(pattern, s) || exists j :: 0 <= j < |s| && s[j] == '/' && Glob(pattern, s[j + 1..])
  {
    hide Glob;
    var last := LastSlash(s);
    LastComponentIs(s, last);
    if last == 0 {
      assert s[0..] == s;
    } else {
      assert s[last - 1] == '/' && s[last - 1 + 1..] == s[last..];
    }
  }

  lemma ConfinedObeys(pattern: string, s: string)
    requires '/' !in pattern && Confined(pattern)
    ensures Matches(Tokens(Anchored(pattern)), s) <==> Glob(pattern, LastComponent(s))
  {
    hide Glob, Matches, LastComponent;
    AtSomeDepth(pattern, s);
    if j :| 0 <= j < |s| && s[j] == '/' && Glob(pattern, s[j + 1..]) { SameLast(s, j); }
    if Glob(pattern, LastComponent(s)) { LastIsAtSomeDepth(pattern, s); }
  }

  /** Without two stars in a row behind the leading run, a pattern without a slash matches a
      path at any depth exactly if it matches the path's last component. */
  lemma SlashFreeMatchesLastComponent(pattern: string, s: string)
    requires '/' !in pattern && NoDoubleStar(DropLeadingStars(pattern))
    ensures Matches(Tokens(Anchored(pattern)), s) <==> Glob(pattern, LastComponent(s))
  {
    PlainIsConfined(pattern);
    ConfinedObeys(pattern, s);
  }

  /** The rule holds for all paths. */
  ghost predicate ObeysLastComponent(pattern: string) {
    forall s :: Matches(Tokens(Anchored(pattern)), s) <==> Glob(pattern, LastComponent(s))
  }

  /** Exactly when it does: no two stars in a row stand behind the leading run of stars. */
  lemma SlashFreeRuleIff(pattern: string)
    requires '/' !in pattern
    ensures ObeysLastComponent(pattern) <==> NoDoubleStar(DropLeadingStars(pattern))
  {
    hide Glob, Matches, NoDoubleStar;
    if NoDoubleStar(DropLeadingStars(pattern)) {
      forall s ensures Matches(Tokens(Anchored(pattern)), s) <==> Glob(pattern, LastComponent(s)) {
        SlashFreeMatchesLastComponent(pattern, s);
      }
    } else {
      var s := LateStarsCross(pattern);
      AtSomeDepth(pattern, s);
      assert Matches(Tokens(Anchored(pattern)), s) && !Glob(pattern, LastComponent(s));
    }
  }

  /** For example "a**": it matches "a/b", but not its last component. */
  lemma DoubleStarCrossesComponents()
    ensures Matches(Tokens(Anchored("a**")), "a/b") && !Glob("a**", LastComponent("a/b"))
  {
    assert "a**"[1..] == "**" && "**"[2..] == "" && "/b"[1..] == "b" && "b"[1..] == "";
    assert Glob("**", "") && Glob("**", "b");
    assert Glob("**", "/b");
    assert "a/b"[1..] == "/b";
    StartsWithStars("a**");
    assert Glob("a**", "a/b");
    assert "a/b"[2..] == "b";
    LastComponentIs("a/b", 2);
    hide Glob;
    AtSomeDepth("a**", "a/b");
  }
}
