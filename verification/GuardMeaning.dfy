/** dgxarley/integration/streaming_repetition_guard.py: what the guard's verdicts say about
    words and characters. The guard compares joined n-grams and pattern blocks; here the same
    verdicts are stated by counting windows of words and equal positions. */
module GuardMeaning {
  import opened Options
  import opened PyText
  import opened RepetitionSpec

  // ---- joined n-grams ------------------------------------------------------------------

  /** What the regular expression `\b\w+\b` finds holds no space. */
  predicate Plain(words: seq<string>) {
    forall i :: 0 <= i < |words| ==> ' ' !in words[i]
  }

  lemma JoinHead(words: seq<string>)
    requires |words| >= 2 && Plain(words)
    ensures |Join(words)| > |words[0]| && Join(words)[|words[0]|] == ' '
    ensures Join(words)[..|words[0]|] == words[0] && Join(words)[|words[0]| + 1..] == Join(words[1..])
    ensures forall k :: 0 <= k < |words[0]| ==> Join(words)[k] != ' '
  {
  }

  /** Joined with spaces, as many words give the same text only if they are the same words. */
  lemma {:induction false} JoinDetermines(a: seq<string>, b: seq<string>)
    requires |a| == |b| && Plain(a) && Plain(b) && Join(a) == Join(b)
    ensures a == b
  {
    if |a| == 1 {
      assert a[0] == b[0];
    } else if |a| >= 2 {
      JoinHead(a);
      JoinHead(b);
      assert |a[0]| == |b[0]|;
      JoinDetermines(a[1..], b[1..]);
      assert a == [a[0]] + a[1..] && b == [b[0]] + b[1..];
    }
  }

  /** Two n-grams are the same text exactly if the `n` words are the same. */
  lemma GramsAgreeIff(ts: seq<string>, us: seq<string>, n: nat, i: nat, j: nat)
    requires Plain(ts) && Plain(us) && i + n <= |ts| && j + n <= |us|
    ensures GramAt(ts, n, i) == GramAt(us, n, j) <==> ts[i..i + n] == us[j..j + n]
  {
    hide Join;
    if GramAt(ts, n, i) == GramAt(us, n, j) { JoinDetermines(ts[i..i + n], us[j..j + n]); }
  }

  // ---- flood ---------------------------------------------------------------------------

  /** These words stand at position `i`. */
  predicate StandsAt(ts: seq<string>, words: seq<string>, i: nat) {
    i + |words| <= |ts| && ts[i..i + |words|] == words
  }

  function Places(ts: seq<string>, words: seq<string>): set<nat> {
    set i: nat | i < |ts| && StandsAt(ts, words, i)
  }

  /** At how many positions the `n` words that stand at `i` do. */
  function HowOften(ts: seq<string>, n: nat, i: nat): nat
    requires i + n <= |ts|
  {
    |Places(ts, ts[i..i + n])|
  }

  lemma {:induction false} CountIsPlaces(gs: seq<string>, g: string)
    ensures multiset(gs)[g] == |set i: nat | i < |gs| && gs[i] == g|
  {
    if gs != [] {
      var init, n := gs[..|gs| - 1], |gs| - 1;
      CountIsPlaces(init, g);
      assert gs == init + [gs[n]];
      var before := set i: nat | i < |init| && init[i] == g;
      var places := set i: nat | i < |gs| && gs[i] == g;
      assert places == before + (if gs[n] == g then {n} else {});
    }
  }

  /** A gram is counted as often as its words occur in the history. */
  lemma GramCount(ts: seq<string>, n: nat, i: nat)
    requires Plain(ts) && n >= 1 && i + n <= |ts|
    ensures multiset(Grams(ts, n))[GramAt(ts, n, i)] == HowOften(ts, n, i)
  {
    hide GramAt;
    var gs, g := Grams(ts, n), GramAt(ts, n, i);
    CountIsPlaces(gs, g);
    forall j: nat | j < |ts| ensures j < |gs| && gs[j] == g <==> StandsAt(ts, ts[i..i + n], j) {
      if j + n <= |ts| { GramsAgreeIff(ts, ts, n, j, i); }
    }
    assert (set j: nat | j < |gs| && gs[j] == g) == Places(ts, ts[i..i + n]);
  }

  /** The worst count is the largest number of positions that one window of `n` words has. */
  lemma WorstCountIs(ts: seq<string>, n: nat)
    requires Plain(ts) && 1 <= n <= |ts|
    ensures forall i: nat :: i < |ts| - n + 1 ==> HowOften(ts, n, i) <= MaxCount(Grams(ts, n))
    ensures exists i: nat :: i < |ts| - n + 1 && HowOften(ts, n, i) == MaxCount(Grams(ts, n))
  {
    var gs := Grams(ts, n);
    MaxCountIsMax(gs);
    hide HowOften, MaxCount;
    forall i: nat | i < |ts| - n + 1 ensures HowOften(ts, n, i) <= MaxCount(gs) { GramCount(ts, n, i); }
    var g :| g in gs && multiset(gs)[g] == MaxCount(gs);
    var i: nat :| i < |gs| && gs[i] == g;
    GramCount(ts, n, i);
  }

  /** `count` places of `n` words are too many for this many words, and dense enough. */
  predicate TooOften(cfg: Config, count: nat, total: nat) {
    && count >= (if cfg.ngramCountScaleTokens > 0 then cfg.ngramMaxCount + total / cfg.ngramCountScaleTokens
                 else cfg.ngramMaxCount)
    && (count * cfg.ngramN) as real >= cfg.ngramMinRatio * total as real
  }

  lemma DenseEnough(x: real, total: real, ratio: real)
    requires total > 0.0
    ensures x / total >= ratio <==> x >= ratio * total
  {
    assert (x / total) * total == x;
    assert x / total >= ratio ==> (x / total) * total >= ratio * total;
    assert x / total < ratio ==> (x / total) * total < ratio * total;
  }

  lemma MoreIsTooOften(cfg: Config, count: nat, more: nat, total: nat)
    requires TooOften(cfg, count, total) && count <= more
    ensures TooOften(cfg, more, total)
  {
    assert count * cfg.ngramN <= more * cfg.ngramN;
  }

  lemma FloodIs(cfg: Config, ts: seq<string>)
    requires |ts| >= 1
    ensures Flood(cfg, ts) <==> TooOften(cfg, MaxCount(Grams(ts, cfg.ngramN)), |ts|)
  {
    hide MaxCount, Grams;
    DenseEnough((MaxCount(Grams(ts, cfg.ngramN)) * cfg.ngramN) as real, |ts| as real, cfg.ngramMinRatio);
  }

  /** Flood: some `n` words stand at too many positions of the history. */
  lemma FloodMeans(cfg: Config, ts: seq<string>)
    requires Plain(ts) && 1 <= cfg.ngramN <= |ts|
    ensures Flood(cfg, ts) <==>
            exists i: nat :: i < |ts| - cfg.ngramN + 1 && TooOften(cfg, HowOften(ts, cfg.ngramN, i), |ts|)
  {
    hide Flood, MaxCount, Grams, HowOften, TooOften;
    var n := cfg.ngramN;
    FloodIs(cfg, ts);
    WorstCountIs(ts, n);
    var worst := MaxCount(Grams(ts, n));
    if i: nat :| i < |ts| - n + 1 && TooOften(cfg, HowOften(ts, n, i), |ts|) {
      MoreIsTooOften(cfg, HowOften(ts, n, i), worst, |ts|);
    }
  }

  // ---- stagnation ----------------------------------------------------------------------

  function Window(ts: seq<string>, n: nat, i: nat): seq<string>
    requires i + n <= |ts|
  {
    ts[i..i + n]
  }

  /** The different windows of `n` words. */
  function Windows(ts: seq<string>, n: nat): set<seq<string>> {
    set i: nat | i < |ts| - n + 1 :: Window(ts, n, i)
  }

  function Joined(windows: set<seq<string>>): set<string> {
    set w | w in windows :: Join(w)
  }

  ghost predicate AllPlain(windows: set<seq<string>>, n: nat) {
    forall w :: w in windows ==> |w| == n && Plain(w)
  }

  lemma {:induction false} JoinedKeepsCount(windows: set<seq<string>>, n: nat)
    requires AllPlain(windows, n)
    ensures |Joined(windows)| == |windows|
    decreases |windows|
  {
    hide Join, Plain;
    if w :| w in windows {
      var rest := windows - {w};
      JoinedKeepsCount(rest, n);
      forall v | v in rest ensures Join(v) != Join(w) {
        if Join(v) == Join(w) { JoinDetermines(v, w); }
      }
      assert Joined(windows) == Joined(rest) + {Join(w)};
    }
  }

  lemma JoinedMeets(a: set<seq<string>>, b: set<seq<string>>, n: nat)
    requires AllPlain(a, n) && AllPlain(b, n)
    ensures Joined(a) * Joined(b) == Joined(a * b)
  {
    hide Join, Plain;
    forall v, w | v in a && w in b && Join(v) == Join(w) ensures v == w { JoinDetermines(v, w); }
  }

  lemma GramsAreWindows(ts: seq<string>, n: nat)
    requires Plain(ts)
    ensures AsSet(Grams(ts, n)) == Joined(Windows(ts, n)) && AllPlain(Windows(ts, n), n)
  {
    hide Join;
    var gs := Grams(ts, n);
    forall i: nat | i < |ts| - n + 1 ensures gs[i] == Join(Window(ts, n, i)) && gs[i] in gs {}
    forall g | g in gs ensures g in Joined(Windows(ts, n)) {
      var i: nat :| i < |gs| && gs[i] == g;
      assert Window(ts, n, i) in Windows(ts, n);
    }
  }

  /** The history up to the first feed that has enough words, after `k` feeds. */
  ghost predicate FirstWithEnough(cfg: Config, hist: seq<Chunk>, k: nat) {
    && 0 < k <= |hist| && HasEnough(cfg, hist, k)
    && forall j :: 0 < j < k ==> !HasEnough(cfg, hist, j)
  }

  predicate HasEnough(cfg: Config, hist: seq<Chunk>, k: nat)
    requires k <= |hist|
  {
    |TokensOf(hist[..k])| >= cfg.ngramN && |TokensOf(hist[..k])| >= cfg.minTokensBeforeCheck
  }

  /** The last words, as many as the window holds; `[-0:]` is all. */
  function LastWords(ts: seq<string>, w: nat): seq<string>
    requires w <= |ts|
  {
    if w == 0 then ts else ts[|ts| - w..]
  }

  /** Of the different windows among the last words, this share stood in the history when it
      first had enough words. */
  ghost predicate Recycles(cfg: Config, ts: seq<string>, early: seq<string>) {
    && |ts| >= cfg.stagnationWindow + cfg.ngramN
    && var recent := Windows(LastWords(ts, cfg.stagnationWindow), cfg.ngramN);
       recent != {} && |recent * Windows(early, cfg.ngramN)| as real >= cfg.stagnationThreshold * |recent| as real
  }

  lemma RecycledMeans(cfg: Config, ts: seq<string>, early: seq<string>)
    requires Plain(ts) && Plain(early)
    ensures Stagnant(cfg, ts, Some(AsSet(Grams(early, cfg.ngramN)))) <==> Recycles(cfg, ts, early)
  {
    hide Join, Plain, Grams, AsSet, Windows;
    var n, w := cfg.ngramN, cfg.stagnationWindow;
    if |ts| >= w + n {
      PlainPart(ts, w);
      var recent, before := Windows(LastWords(ts, w), n), Windows(early, n);
      GramsAreWindows(LastWords(ts, w), n);
      GramsAreWindows(early, n);
      JoinedKeepsCount(recent, n);
      JoinedKeepsCount(recent * before, n);
      JoinedMeets(recent, before, n);
      assert Recent(cfg, ts) == Joined(recent) by { hide Joined; }
      hide Joined, LastWords, AllPlain;
      if recent != {} { DenseEnough(|recent * before| as real, |recent| as real, cfg.stagnationThreshold); }
      EmptyCount(recent, Joined(recent));
    }
  }

  /** The share that a report of stagnation gives as its confidence. */
  lemma RecycledShareIs(cfg: Config, ts: seq<string>, early: seq<string>)
    requires Plain(ts) && Plain(early) && |ts| >= cfg.stagnationWindow
    ensures var n := cfg.ngramN;
            var recent := Windows(LastWords(ts, cfg.stagnationWindow), n);
            recent != {} ==>
              && Recent(cfg, ts) != {}
              && RecycledRatio(Recent(cfg, ts), AsSet(Grams(early, n)))
                 == |recent * Windows(early, n)| as real / |recent| as real
  {
    hide Join, Plain, Grams, AsSet, Windows;
    var n, w := cfg.ngramN, cfg.stagnationWindow;
    PlainPart(ts, w);
    var recent, before := Windows(LastWords(ts, w), n), Windows(early, n);
    GramsAreWindows(LastWords(ts, w), n);
    GramsAreWindows(early, n);
    JoinedKeepsCount(recent, n);
    JoinedKeepsCount(recent * before, n);
    JoinedMeets(recent, before, n);
    assert Recent(cfg, ts) == Joined(recent) by { hide Joined; }
    hide Joined, LastWords, AllPlain;
    EmptyCount(recent, Joined(recent));
  }

  lemma EmptyCount<T, U>(a: set<T>, b: set<U>)
    requires |a| == |b|
    ensures a == {} <==> b == {}
  {
    if |a| == 0 { assert a == {} && b == {}; }
  }

  lemma PlainPart(ts: seq<string>, w: nat)
    requires Plain(ts) && w <= |ts|
    ensures Plain(LastWords(ts, w)) && LastWords(ts, w) == Last(ts, w)
  {
    assert w == |ts| ==> ts[0..] == ts;
  }

  /** Stagnation: that share reaches the threshold. */
  lemma StagnantMeans(cfg: Config, hist: seq<Chunk>)
    requires Plain(TokensOf(hist))
    ensures Stagnant(cfg, TokensOf(hist), Early(cfg, hist)) <==>
            exists k: nat :: FirstWithEnough(cfg, hist, k) && Recycles(cfg, TokensOf(hist), TokensOf(hist[..k]))
  {
    hide Stagnant, Recycles, Plain;
    var ts := TokensOf(hist);
    EarlyIsFirst(cfg, hist);
    if Early(cfg, hist).Some? {
      var k :| && 0 < k <= |hist| && Qualifies(cfg, TokensOf(hist[..k]))
               && (forall j :: 0 < j < k ==> !Qualifies(cfg, TokensOf(hist[..j])))
               && Early(cfg, hist).value == AsSet(Grams(TokensOf(hist[..k]), cfg.ngramN));
      assert FirstWithEnough(cfg, hist, k);
      TokensPart(hist, k);
      RecycledMeans(cfg, ts, TokensOf(hist[..k]));
      forall l: nat | FirstWithEnough(cfg, hist, l) ensures l == k { FirstIsOne(cfg, hist, k, l); }
    } else {
      assert forall k :: 0 < k <= |hist| && HasEnough(cfg, hist, k) ==> Qualifies(cfg, TokensOf(hist[..k]));
      NotStagnant(cfg, ts);
    }
  }

  lemma FirstIsOne(cfg: Config, hist: seq<Chunk>, k: nat, l: nat)
    requires FirstWithEnough(cfg, hist, k) && FirstWithEnough(cfg, hist, l)
    ensures k == l
  {
    hide HasEnough;
  }

  lemma NotStagnant(cfg: Config, ts: seq<string>)
    ensures !Stagnant(cfg, ts, None)
  {
  }

  lemma LastOf(hist: seq<Chunk>)
    requires hist != []
    ensures TextOf(hist) == TextOf(hist[..|hist| - 1]) + hist[|hist| - 1].text
    ensures TokensOf(hist) == TokensOf(hist[..|hist| - 1]) + hist[|hist| - 1].words
  {
  }

  lemma SumIsAssociative<T>(a: seq<T>, b: seq<T>, c: seq<T>)
    ensures (a + b) + c == a + (b + c)
  {
  }

  lemma Empty()
    ensures TextOf([]) == "" && TokensOf([]) == []
  {
  }

  /** The words and the text of a history are those of its chunks in order. */
  lemma {:induction false} HistoryJoins(a: seq<Chunk>, b: seq<Chunk>)
    ensures TokensOf(a + b) == TokensOf(a) + TokensOf(b) && TextOf(a + b) == TextOf(a) + TextOf(b)
  {
    hide TextOf, TokensOf;
    Empty();
    if b == [] {
      assert a + b == a;
    } else {
      var n, init := |b| - 1, b[..|b| - 1];
      HistoryJoins(a, init);
      assert (a + b)[..|a + b| - 1] == a + init && (a + b)[|a + b| - 1] == b[n];
      LastOf(b);
      LastOf(a + b);
      SumIsAssociative(TextOf(a), TextOf(init), b[n].text);
      SumIsAssociative(TokensOf(a), TokensOf(init), b[n].words);
    }
  }

  lemma HistoryOfOne(c: Chunk)
    ensures TokensOf([c]) == c.words && TextOf([c]) == c.text
  {
    assert [c][..0] == [];
  }

  lemma TokensPart(hist: seq<Chunk>, k: nat)
    requires k <= |hist| && Plain(TokensOf(hist))
    ensures Plain(TokensOf(hist[..k]))
  {
    HistoryJoins(hist[..k], hist[k..]);
    assert hist == hist[..k] + hist[k..];
    var part := TokensOf(hist[..k]);
    assert forall i :: 0 <= i < |part| ==> part[i] == TokensOf(hist)[i];
  }

  // ---- suffix loops --------------------------------------------------------------------

  /** In how many positions two blocks agree. */
  function Agreeing(a: string, b: string): nat {
    |set x: nat | x < |a| && x < |b| && a[x] == b[x]|
  }

  lemma {:induction false} MatchesFrom(a: string, b: string, k: nat)
    requires k <= |a| && k <= |b|
    ensures Matches(a[k..], b[k..]) == |set x: nat | k <= x < |a| && x < |b| && a[x] == b[x]|
    decreases |a| - k
  {
    var here := set x: nat | k <= x < |a| && x < |b| && a[x] == b[x];
    if k < |a| && k < |b| {
      MatchesFrom(a, b, k + 1);
      var rest := set x: nat | k + 1 <= x < |a| && x < |b| && a[x] == b[x];
      assert here == rest + (if a[k] == b[k] then {k} else {});
      assert a[k..][1..] == a[k + 1..] && b[k..][1..] == b[k + 1..];
    } else {
      assert here == {};
    }
  }

  lemma MatchesIs(a: string, b: string)
    ensures Matches(a, b) == Agreeing(a, b)
  {
    MatchesFrom(a, b, 0);
    assert a[0..] == a && b[0..] == b;
    assert (set x: nat | 0 <= x < |a| && x < |b| && a[x] == b[x]) == set x: nat | x < |a| && x < |b| && a[x] == b[x];
  }

  /** The `j`-th block of length `p` from the end, the last being number 0, agrees with the
      last in 90 percent of its positions. */
  predicate CopyAt(tail: string, p: nat, j: nat)
    requires p <= |tail|
  {
    var from := |tail| - (j + 1) * p;
    from >= 0 && from + p <= |tail| && 10 * Agreeing(tail[from..from + p], tail[|tail| - p..]) >= 9 * p
  }

  /** The text ends in exactly `r` such copies in a row, the last one counted. */
  ghost predicate EndsIn(tail: string, p: nat, r: nat)
    requires p <= |tail|
  {
    r >= 1 && (forall j: nat :: 1 <= j < r ==> CopyAt(tail, p, j)) && !CopyAt(tail, p, r)
  }

  lemma CopiesAreAlike(tail: string, p: nat, j: nat)
    requires 1 <= p <= |tail|
    ensures CopyAt(tail, p, j) <==> AlikeAt(tail, p, j)
  {
    Scaled(p, j);
    hide Matches, Agreeing;
    var from := |tail| - (j + 1) * p;
    if from >= 0 {
      assert from + p == |tail| - j * p;
      MatchesIs(tail[from..from + p], tail[|tail| - p..]);
    }
  }

  lemma RepsMeans(tail: string, p: nat, r: nat)
    requires 1 <= p <= |tail|
    ensures Reps(tail, p) == r <==> EndsIn(tail, p, r)
  {
    hide CopyAt, AlikeAt;
    ChainCounts(tail, p, 1);
    forall j: nat ensures CopyAt(tail, p, j) <==> AlikeAt(tail, p, j) { CopiesAreAlike(tail, p, j); }
    if EndsIn(tail, p, r) { ChainIs(tail, p, 1, r); }
  }

  /** With the `k`-th length tried, 5 characters more each time, it ends in `r` copies. */
  ghost predicate TriedWith(cfg: Config, tail: string, k: nat, r: nat) {
    var p := cfg.suffixMinPattern + 5 * k;
    2 * p <= |tail| && EndsIn(tail, p, r)
  }

  /** The most copies, at the shortest length that has them. */
  ghost predicate Chosen(cfg: Config, tail: string, k: nat, r: nat) {
    && TriedWith(cfg, tail, k, r) && r >= cfg.suffixMinReps
    && forall j: nat, q: nat :: TriedWith(cfg, tail, j, q) ==> q < r || (q == r && j >= k)
  }

  /** Not only spaces, and besides them only what rules and separators are made of. */
  predicate RuledLine(pattern: string) {
    && (exists c :: c in pattern && !IsSpace(c))
    && (forall c :: c in pattern ==> IsSpace(c) || c in {'|', ':', '*', '_', '-', '='})
  }

  lemma InParts(s: string, t: string, c: char)
    ensures c in s + t <==> c in s || c in t
  {
  }

  lemma {:induction false} RStripKeeps(s: string, c: char)
    requires !IsSpace(c)
    ensures c in s <==> c in RStrip(s)
  {
    hide IsSpace;
    if s != "" && IsSpace(s[|s| - 1]) {
      RStripKeeps(s[..|s| - 1], c);
      InParts(s[..|s| - 1], [s[|s| - 1]], c);
      assert s == s[..|s| - 1] + [s[|s| - 1]];
    }
  }

  lemma {:induction false} LStripKeeps(s: string, c: char)
    requires !IsSpace(c)
    ensures c in s <==> c in LStrip(s)
  {
    hide IsSpace;
    if s != "" && IsSpace(s[0]) {
      LStripKeeps(s[1..], c);
      InParts([s[0]], s[1..], c);
      assert s == [s[0]] + s[1..];
    }
  }

  lemma StripKeeps(s: string)
    ensures forall c :: !IsSpace(c) ==> (c in s <==> c in Strip(s))
    ensures Strip(s) != "" ==> exists c :: c in Strip(s) && !IsSpace(c)
  {
    StripEnds(s);
    assert Strip(s) == RStrip(LStrip(s));
    hide *;
    forall c | !IsSpace(c) ensures c in s <==> c in Strip(s) {
      LStripKeeps(s, c);
      RStripKeeps(LStrip(s), c);
    }
  }

  lemma StripEnds(s: string)
    ensures Strip(s) != "" ==> Strip(s)[|Strip(s)| - 1] in Strip(s) && !IsSpace(Strip(s)[|Strip(s)| - 1])
  {
    hide IsSpace;
  }

  lemma StructuralChars(pattern: string)
    ensures Structural(pattern) <==>
            && Strip(pattern) != ""
            && forall c :: c in Strip(pattern) ==> IsSpace(c) || c in {'|', ':', '*', '_', '-', '='}
  {
    hide IsSpace, Strip;
    var s := Strip(pattern);
    forall c ensures c in "|:*_-=" <==> c in {'|', ':', '*', '_', '-', '='} { RuleMarks(c); }
    assert forall i :: 0 <= i < |s| ==> s[i] in s;
  }

  lemma RuleMarks(c: char)
    ensures c in "|:*_-=" <==> c in {'|', ':', '*', '_', '-', '='}
  {
  }

  lemma StructuralMeans(pattern: string)
    ensures Structural(pattern) <==> RuledLine(pattern)
  {
    hide Structural, IsSpace, Strip;
    StructuralChars(pattern);
    StripKeeps(pattern);
  }

  /** What `Best` settles on. */
  lemma BestMeans(cfg: Config, tail: string)
    requires cfg.Usable()
    ensures var best := Best(cfg, tail, TriedCount(cfg, tail));
            && (best.0 > 0 ==> exists k: nat :: Chosen(cfg, tail, k, best.0) && best.1 == Length(cfg, k))
            && (best.0 == 0 ==> forall k: nat, r: nat :: !Chosen(cfg, tail, k, r))
  {
    var n := TriedCount(cfg, tail);
    var best := Best(cfg, tail, n);
    BestIsBest(cfg, tail, n);
    hide Best, TriedWith, Reps, TriedCount;
    forall j: nat, q: nat | TriedWith(cfg, tail, j, q) ensures j < n && Reps(tail, Length(cfg, j)) == q >= 1 {
      TriedMeans(cfg, tail, j, q);
    }
    if best.0 > 0 {
      var i :| && 0 <= i < n && best.1 == Length(cfg, i)
               && Reps(tail, best.1) == best.0 >= cfg.suffixMinReps
               && forall j :: 0 <= j < i ==> Reps(tail, Length(cfg, j)) < best.0;
      TriedMeans(cfg, tail, i, best.0);
      assert Chosen(cfg, tail, i, best.0);
    }
  }

  lemma TriedMeans(cfg: Config, tail: string, j: nat, q: nat)
    requires cfg.Usable()
    ensures TriedWith(cfg, tail, j, q) <==>
            Length(cfg, j) * 2 <= |tail| && j < TriedCount(cfg, tail) && Reps(tail, Length(cfg, j)) == q
    ensures TriedWith(cfg, tail, j, q) ==> q >= 1
  {
    TriedLengths(cfg, tail, j);
    hide Reps, TriedCount;
    if Length(cfg, j) * 2 <= |tail| { RepsMeans(tail, Length(cfg, j), q); }
  }

  lemma ChosenIsOne(cfg: Config, tail: string, k: nat, r: nat, l: nat, q: nat)
    requires Chosen(cfg, tail, k, r) && Chosen(cfg, tail, l, q)
    ensures k == l && r == q
  {
    hide TriedWith;
  }

  /** The trailing characters; a window of 0 is the whole text. */
  function Trailing(text: string, window: nat): string {
    if 0 < window < |text| then text[|text| - window..] else text
  }

  /** The last `p` characters. */
  function Block(tail: string, p: nat): string {
    if p <= |tail| then tail[|tail| - p..] else tail
  }

  lemma BestFits(cfg: Config, tail: string)
    requires cfg.Usable()
    ensures var best := Best(cfg, tail, TriedCount(cfg, tail));
            best.0 > 0 ==> best.0 >= cfg.suffixMinReps && best.1 * 2 <= |tail| && best.1 >= cfg.suffixMinPattern
  {
    BestIsBest(cfg, tail, TriedCount(cfg, tail));
    hide Best, Reps, TriedCount;
  }

  lemma SuffixLoopIs(cfg: Config, text: string)
    requires cfg.Usable()
    ensures var tail := Trailing(text, cfg.suffixWindow);
            var best := Best(cfg, tail, TriedCount(cfg, tail));
            SuffixLoop(cfg, text) <==> best.0 > 0 && !Structural(Block(tail, best.1))
  {
    TrailingIs(cfg, text);
    hide Trailing, TailOf, Structural, Best, TriedCount, Reps, Block;
    var tail := TailOf(cfg, text);
    var best := Best(cfg, tail, TriedCount(cfg, tail));
    BestFits(cfg, tail);
    if best.1 <= |tail| { BlockIs(tail, best.1); }
  }

  lemma TrailingIs(cfg: Config, text: string)
    ensures Trailing(text, cfg.suffixWindow) == TailOf(cfg, text)
  {
  }

  lemma BlockIs(tail: string, p: nat)
    requires p <= |tail|
    ensures Block(tail, p) == tail[|tail| - p..]
  {
  }

  lemma ChosenBlock(cfg: Config, tail: string, k: nat, r: nat)
    requires cfg.Usable() && Chosen(cfg, tail, k, r)
    ensures LoopsWith(cfg, tail, k, r) <==> !Structural(Block(tail, Length(cfg, k)))
  {
    hide Structural, RuledLine, Chosen;
    StructuralMeans(Block(tail, Length(cfg, k)));
  }

  /** Suffix loop: the last characters end in enough copies of a block of some tried length,
      and the one with the most copies is more than rules and spaces. */
  lemma SuffixLoopMeans(cfg: Config, text: string)
    requires cfg.Usable()
    ensures SuffixLoop(cfg, text) <==>
            exists k: nat, r: nat :: LoopsWith(cfg, Trailing(text, cfg.suffixWindow), k, r)
  {
    var tail := Trailing(text, cfg.suffixWindow);
    var best := Best(cfg, tail, TriedCount(cfg, tail));
    forall l: nat, q: nat | LoopsWith(cfg, tail, l, q) ensures Chosen(cfg, tail, l, q) {}
    hide *;
    SuffixLoopIs(cfg, text);
    BestMeans(cfg, tail);
    if best.0 > 0 {
      var k: nat :| Chosen(cfg, tail, k, best.0) && best.1 == Length(cfg, k);
      ChosenBlock(cfg, tail, k, best.0);
      forall l: nat, q: nat | LoopsWith(cfg, tail, l, q) ensures l == k && q == best.0 {
        ChosenIsOne(cfg, tail, k, best.0, l, q);
      }
    }
  }

  ghost predicate LoopsWith(cfg: Config, tail: string, k: nat, r: nat) {
    Chosen(cfg, tail, k, r) && !RuledLine(Block(tail, cfg.suffixMinPattern + 5 * k))
  }

  /** The confidence after a suffix check: raised to `r` copies out of one more than asked for,
      never lowered by that, and otherwise decayed by 5 percent. */
  lemma ConfidenceMeans(cfg: Config, text: string, before: real, k: nat, r: nat)
    requires cfg.Usable() && 0.0 <= before <= 1.0
    ensures var tail := Trailing(text, cfg.suffixWindow);
            var after := ConfidenceStep(cfg, text, before);
            && (|tail| < 2 * cfg.suffixMinPattern ==> after == before)
            && (Chosen(cfg, tail, k, r) ==> RaisedTo(cfg, r, before, after))
            && (|tail| >= 2 * cfg.suffixMinPattern && (forall l: nat, q: nat :: !Chosen(cfg, tail, l, q)) ==>
                  after == before - before / 20.0)
  {
    var tail := Trailing(text, cfg.suffixWindow);
    var best := Best(cfg, tail, TriedCount(cfg, tail));
    assert Chosen(cfg, tail, k, r) ==> 2 * cfg.suffixMinPattern <= |tail|;
    hide *;
    TrailingIs(cfg, text);
    ConfidenceUnfolds(cfg, text, before);
    BestMeans(cfg, tail);
    BestFits(cfg, tail);
    if 2 * cfg.suffixMinPattern <= |tail| { SomeLengthIsTried(cfg, tail); }
    if Chosen(cfg, tail, k, r) {
      var l: nat :| Chosen(cfg, tail, l, best.0);
      ChosenIsOne(cfg, tail, k, r, l, best.0);
      RaisedMeans(cfg, r, before);
    }
  }

  lemma ConfidenceUnfolds(cfg: Config, text: string, before: real)
    requires cfg.Usable() && 0.0 <= before <= 1.0
    ensures var tail := TailOf(cfg, text);
            var reps := Best(cfg, tail, TriedCount(cfg, tail)).0;
            ConfidenceStep(cfg, text, before)
            == if |tail| < cfg.suffixMinPattern * 2 then before
               else if reps >= cfg.suffixMinReps then Raised(cfg, reps, before)
               else before * 0.95
  {
    hide TailOf, Best, TriedCount, Raised;
  }

  /** Not lowered, and no less than `r` out of one more than asked for, or 1. */
  predicate RaisedTo(cfg: Config, r: nat, before: real, after: real) {
    var share := after * (cfg.suffixMinReps + 1) as real;
    after >= before && (after == before || after == 1.0 || share == r as real) && (after >= 1.0 || share >= r as real)
  }

  lemma RaisedMeans(cfg: Config, r: nat, before: real)
    requires 0.0 <= before <= 1.0
    ensures RaisedTo(cfg, r, before, Raised(cfg, r, before))
  {
    var all := (cfg.suffixMinReps + 1) as real;
    assert (r as real / all) * all == r as real;
    assert Raised(cfg, r, before) >= r as real / all ==> Raised(cfg, r, before) * all >= (r as real / all) * all;
  }

  lemma RepsPositive(tail: string, p: nat)
    requires 1 <= p <= |tail|
    ensures Reps(tail, p) >= 1
  {
  }

  lemma SomeLengthIsTried(cfg: Config, tail: string)
    requires cfg.Usable() && 2 * cfg.suffixMinPattern <= |tail|
    ensures Best(cfg, tail, TriedCount(cfg, tail)).0 == 0 ==> cfg.suffixMinReps > 0
  {
    TriedLengths(cfg, tail, 0);
    BestIsBest(cfg, tail, TriedCount(cfg, tail));
    RepsPositive(tail, Length(cfg, 0));
    hide Best, Reps, TriedCount;
  }

  // ---- the verdict ---------------------------------------------------------------------

  ghost predicate Floods(cfg: Config, ts: seq<string>) {
    |ts| >= cfg.ngramN && exists i: nat :: i < |ts| - cfg.ngramN + 1 && TooOften(cfg, HowOften(ts, cfg.ngramN, i), |ts|)
  }

  ghost predicate Loops(cfg: Config, text: string) {
    exists k: nat, r: nat :: LoopsWith(cfg, Trailing(text, cfg.suffixWindow), k, r)
  }

  ghost predicate Stagnates(cfg: Config, hist: seq<Chunk>) {
    exists k: nat :: FirstWithEnough(cfg, hist, k) && Recycles(cfg, TokensOf(hist), TokensOf(hist[..k]))
  }

  /** The verdict of a feed with enough words to hold an n-gram: on every `checkEveryN`-th feed,
      once there are enough words, the first of flood, suffix loop and stagnation. */
  lemma VerdictMeans(cfg: Config, hist: seq<Chunk>)
    requires cfg.Usable() && Plain(TokensOf(hist)) && |TokensOf(hist)| >= cfg.ngramN
    ensures var due := |TokensOf(hist)| >= cfg.minTokensBeforeCheck && |hist| % cfg.checkEveryN == 0;
            var (a, b, c) := (Floods(cfg, TokensOf(hist)), Loops(cfg, TextOf(hist)), Stagnates(cfg, hist));
            && (Verdict(cfg, hist) == Some(NGramFlood) <==> due && a)
            && (Verdict(cfg, hist) == Some(SuffixLoopFound) <==> due && !a && b)
            && (Verdict(cfg, hist) == Some(Stagnation) <==> due && !a && !b && c)
  {
    FloodMeans(cfg, TokensOf(hist));
    SuffixLoopMeans(cfg, TextOf(hist));
    StagnantMeans(cfg, hist);
    hide Flood, SuffixLoop, Stagnant, TooOften, HowOften, LoopsWith, FirstWithEnough, Recycles, Plain, TextOf, TokensOf;
  }
}
