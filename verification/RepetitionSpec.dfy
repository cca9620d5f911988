/** dgxarley/integration/streaming_repetition_guard.py: what a verdict of the guard means,
    recomputed from the whole history. */
module RepetitionSpec {
  import opened Options
  import opened PyText

  /** A stream chunk and the lower-cased words in it (the regular expression that finds
      them is not modelled). */
  datatype Chunk = Chunk(text: string, words: seq<string>)

  datatype Config = Config(
    ngramN: nat, ngramMaxCount: int, ngramCountScaleTokens: int, ngramMinRatio: real,
    suffixWindow: nat, suffixMinPattern: nat, suffixMinReps: nat,
    stagnationWindow: nat, stagnationThreshold: real,
    minTokensBeforeCheck: int, checkEveryN: nat)
  {
    /** The divisors `check_every_n` and the pattern length, and the gram length, are positive. */
    predicate Usable() {
      ngramN >= 1 && suffixMinPattern >= 1 && checkEveryN >= 1
    }
  }

  function TextOf(hist: seq<Chunk>): string {
    if hist == [] then "" else TextOf(hist[..|hist| - 1]) + hist[|hist| - 1].text
  }

  function TokensOf(hist: seq<Chunk>): seq<string> {
    if hist == [] then [] else TokensOf(hist[..|hist| - 1]) + hist[|hist| - 1].words
  }

  // ---- n-grams -------------------------------------------------------------------------

  /** `" ".join(words)` */
  function Join(words: seq<string>): string {
    if words == [] then ""
    else if |words| == 1 then words[0]
    else words[0] + " " + Join(words[1..])
  }

  function GramAt(tokens: seq<string>, n: nat, i: nat): string
    requires i + n <= |tokens|
  {
    Join(tokens[i..i + n])
  }

  /** All n-grams of the history, in order. */
  function Grams(tokens: seq<string>, n: nat): (gs: seq<string>)
    ensures |gs| == (if |tokens| < n then 0 else |tokens| - n + 1)
    ensures forall i :: 0 <= i < |gs| ==> gs[i] == GramAt(tokens, n, i)
  {
    seq(if |tokens| < n then 0 else |tokens| - n + 1,
        i requires 0 <= i && i + n <= |tokens| => GramAt(tokens, n, i))
  }

  /** How often the most frequent gram occurs. */
  function MaxCount(gs: seq<string>): nat {
    if gs == [] then 0
    else
      var last := multiset(gs)[gs[|gs| - 1]];
      var before := MaxCount(gs[..|gs| - 1]);
      if last > before then last else before
  }

  lemma {:induction false} MaxCountIsMax(gs: seq<string>)
    ensures forall g :: multiset(gs)[g] <= MaxCount(gs)
    ensures gs != [] ==> exists g :: g in gs && multiset(gs)[g] == MaxCount(gs)
  {
    if gs != [] {
      var init, last := gs[..|gs| - 1], gs[|gs| - 1];
      MaxCountIsMax(init);
      assert gs == init + [last];
      forall g ensures multiset(gs)[g] <= MaxCount(gs) {
        assert multiset(gs)[g] == multiset(init)[g] + (if g == last then 1 else 0);
      }
      if multiset(gs)[last] > MaxCount(init) {
        assert last in gs;
      } else {
        assert multiset(gs)[last] >= 1;
        var g :| g in init && multiset(init)[g] == MaxCount(init);
        assert g in gs && multiset(gs)[g] == multiset(init)[g] + (if g == last then 1 else 0);
      }
    }
  }

  /** The n-gram limit at this length of output. */
  function EffectiveMax(cfg: Config, tokenCount: nat): int {
    if cfg.ngramCountScaleTokens <= 0 then cfg.ngramMaxCount
    else cfg.ngramMaxCount + tokenCount / cfg.ngramCountScaleTokens
  }

  /** Some n-gram is over the limit and dense enough. */
  predicate Flood(cfg: Config, tokens: seq<string>) {
    var worst := MaxCount(Grams(tokens, cfg.ngramN));
    && worst >= EffectiveMax(cfg, |tokens|)
    && (worst * cfg.ngramN) as real / (if |tokens| > 1 then |tokens| else 1) as real >= cfg.ngramMinRatio
  }

  // ---- suffix loops --------------------------------------------------------------------

  /** The trailing characters the check looks at. */
  function TailOf(cfg: Config, text: string): string {
    if |text| > cfg.suffixWindow then Last(text, cfg.suffixWindow) else text
  }

  /** Positions in which two blocks agree. */
  function Matches(a: string, b: string): (m: nat)
    ensures m <= |a| && m <= |b|
  {
    if a == "" || b == "" then 0 else (if a[0] == b[0] then 1 else 0) + Matches(a[1..], b[1..])
  }

  /** At least 90 percent of the positions agree. */
  predicate Alike(block: string, pattern: string) {
    10 * Matches(block, pattern) >= 9 * |pattern|
  }

  /** The `j`-th block of length `p` from the end (the final one is number 0) lies in the
      tail and is like the final one. */
  predicate AlikeAt(tail: string, p: nat, j: nat): (b: bool)
    requires 1 <= p <= |tail|
    ensures b ==> j < |tail|
  {
    Scaled(p, j);
    && (j + 1) * p <= |tail|
    && Alike(tail[|tail| - (j + 1) * p..|tail| - j * p], tail[|tail| - p..])
  }

  lemma Scaled(p: nat, j: nat)
    requires p >= 1
    ensures j <= j * p && (j + 1) * p == j * p + p
  {
  }

  /** How many blocks, from number `j` on, are like the final one without interruption. */
  function Chain(tail: string, p: nat, j: nat): nat
    requires 1 <= p <= |tail|
    decreases |tail| - j
  {
    if !AlikeAt(tail, p, j) then 0 else 1 + Chain(tail, p, j + 1)
  }

  /** Repetitions of the final block of length `p`. */
  function Reps(tail: string, p: nat): nat
    requires 1 <= p <= |tail|
  {
    1 + Chain(tail, p, 1)
  }

  /** `Reps` is decided by: every block before it is like the final one, the next is not. */
  lemma {:induction false} ChainIs(tail: string, p: nat, j: nat, r: nat)
    requires 1 <= p <= |tail| && j <= r
    requires forall k :: j <= k < r ==> AlikeAt(tail, p, k)
    requires !AlikeAt(tail, p, r)
    ensures j + Chain(tail, p, j) == r
    decreases r - j
  {
    hide AlikeAt;
    if j < r { ChainIs(tail, p, j + 1, r); }
  }

  lemma {:induction false} ChainCounts(tail: string, p: nat, j: nat)
    requires 1 <= p <= |tail|
    ensures var r := j + Chain(tail, p, j);
            (forall k: nat :: j <= k < r ==> AlikeAt(tail, p, k)) && !AlikeAt(tail, p, r)
    decreases |tail| - j
  {
    hide AlikeAt;
    if AlikeAt(tail, p, j) { ChainCounts(tail, p, j + 1); }
  }

  /** The `k`-th pattern length tried. */
  function Length(cfg: Config, k: nat): nat {
    cfg.suffixMinPattern + 5 * k
  }

  function TriedCount(cfg: Config, tail: string): nat {
    if |tail| / 2 < cfg.suffixMinPattern then 0 else (|tail| / 2 - cfg.suffixMinPattern) / 5 + 1
  }

  lemma TriedLengths(cfg: Config, tail: string, k: nat)
    ensures k < TriedCount(cfg, tail) <==> Length(cfg, k) * 2 <= |tail|
  {
  }

  /** The most repetitions, and the shortest length that has them, among the first `k`
      lengths that reach the minimum; (0, 0) if none does. */
  function Best(cfg: Config, tail: string, k: nat): (nat, nat)
    requires cfg.Usable() && k <= TriedCount(cfg, tail)
  {
    if k == 0 then (0, 0)
    else
      var before := Best(cfg, tail, k - 1);
      TriedLengths(cfg, tail, k - 1);
      var p := Length(cfg, k - 1);
      var r := Reps(tail, p);
      if r >= cfg.suffixMinReps && r > before.0 then (r, p) else before
  }

  /** Table rules and separators, which repeat by nature. */
  predicate Structural(pattern: string) {
    var s := Strip(pattern);
    s != "" && forall i :: 0 <= i < |s| ==> IsSpace(s[i]) || s[i] in "|:*_-="
  }

  /** The verdict of the suffix check. */
  predicate SuffixLoop(cfg: Config, text: string)
    requires cfg.Usable()
  {
    var tail := TailOf(cfg, text);
    var best := Best(cfg, tail, TriedCount(cfg, tail));
    |tail| >= cfg.suffixMinPattern * 2 && best.0 >= cfg.suffixMinReps && best.0 > 0
    && best.1 <= |tail| && !Structural(tail[|tail| - best.1..])
  }

  // ---- stagnation ----------------------------------------------------------------------

  function AsSet(gs: seq<string>): set<string> {
    set g | g in gs
  }

  predicate Qualifies(cfg: Config, tokens: seq<string>) {
    |tokens| >= cfg.ngramN && |tokens| >= cfg.minTokensBeforeCheck
  }

  /** The n-grams of the history at the first feed that qualifies, if one did. */
  function Early(cfg: Config, hist: seq<Chunk>): Option<set<string>> {
    if hist == [] then None
    else
      var before := Early(cfg, hist[..|hist| - 1]);
      if before.Some? then before
      else if Qualifies(cfg, TokensOf(hist)) then Some(AsSet(Grams(TokensOf(hist), cfg.ngramN)))
      else None
  }

  lemma {:induction false} EarlyIsFirst(cfg: Config, hist: seq<Chunk>)
    ensures Early(cfg, hist).None? <==> forall k :: 0 < k <= |hist| ==> !Qualifies(cfg, TokensOf(hist[..k]))
    ensures Early(cfg, hist).Some? ==>
              exists k :: && 0 < k <= |hist| && Qualifies(cfg, TokensOf(hist[..k]))
                          && (forall j :: 0 < j < k ==> !Qualifies(cfg, TokensOf(hist[..j])))
                          && Early(cfg, hist).value == AsSet(Grams(TokensOf(hist[..k]), cfg.ngramN))
  {
    if hist != [] {
      var init := hist[..|hist| - 1];
      EarlyIsFirst(cfg, init);
      assert hist[..|hist|] == hist;
      assert forall k :: 0 < k < |hist| ==> hist[..k] == init[..k];
      if Early(cfg, init).Some? {
        var k :| && 0 < k <= |init| && Qualifies(cfg, TokensOf(init[..k]))
                 && (forall j :: 0 < j < k ==> !Qualifies(cfg, TokensOf(init[..j])))
                 && Early(cfg, init).value == AsSet(Grams(TokensOf(init[..k]), cfg.ngramN));
        assert hist[..k] == init[..k];
      } else if Qualifies(cfg, TokensOf(hist)) {
        assert Qualifies(cfg, TokensOf(hist[..|hist|]));
      }
    }
  }

  /** The distinct n-grams of the most recent tokens. */
  function Recent(cfg: Config, tokens: seq<string>): set<string> {
    AsSet(Grams(Last(tokens, cfg.stagnationWindow), cfg.ngramN))
  }

  /** The fraction of `recent` that is in `early`. */
  function RecycledRatio(recent: set<string>, early: set<string>): (r: real)
    requires recent != {}
    ensures 0.0 <= r <= 1.0
  {
    FewerInPart(recent * early, recent);
    |recent * early| as real / |recent| as real
  }

  lemma FewerInPart(part: set<string>, all: set<string>)
    requires part <= all
    ensures |part| <= |all|
  {
    assert all == part + (all - part);
  }

  predicate Stagnant(cfg: Config, tokens: seq<string>, early: Option<set<string>>) {
    && early.Some?
    && |tokens| >= cfg.stagnationWindow + cfg.ngramN
    && Recent(cfg, tokens) != {}
    && RecycledRatio(Recent(cfg, tokens), early.value) >= cfg.stagnationThreshold
  }

  // ---- verdicts ------------------------------------------------------------------------

  datatype StopReason = NGramFlood | SuffixLoopFound | Stagnation

  /** Whether this feed runs the checks. */
  predicate Checks(cfg: Config, hist: seq<Chunk>)
    requires cfg.Usable()
  {
    |TokensOf(hist)| >= cfg.minTokensBeforeCheck && |hist| % cfg.checkEveryN == 0
  }

  /** What the feed that ends this history of non-empty chunks reports. */
  function Verdict(cfg: Config, hist: seq<Chunk>): Option<StopReason>
    requires cfg.Usable()
  {
    if !Checks(cfg, hist) then None
    else if Flood(cfg, TokensOf(hist)) then Some(NGramFlood)
    else if SuffixLoop(cfg, TextOf(hist)) then Some(SuffixLoopFound)
    else if Stagnant(cfg, TokensOf(hist), Early(cfg, hist)) then Some(Stagnation)
    else None
  }

  function Min(a: real, b: real): real { if a <= b then a else b }

  function Max(a: real, b: real): real { if a >= b then a else b }

  /** The confidence once a pattern with `reps` repetitions is found. */
  function Raised(cfg: Config, reps: nat, before: real): (c: real)
    requires 0.0 <= before <= 1.0
    ensures 0.0 <= c <= 1.0
  {
    Max(before, Min(reps as real / (cfg.suffixMinReps + 1) as real, 1.0))
  }

  /** The smoothed confidence after a suffix check on `text`. */
  function ConfidenceStep(cfg: Config, text: string, before: real): (c: real)
    requires cfg.Usable() && 0.0 <= before <= 1.0
    ensures 0.0 <= c <= 1.0
  {
    var tail := TailOf(cfg, text);
    var reps := Best(cfg, tail, TriedCount(cfg, tail)).0;
    if |tail| < cfg.suffixMinPattern * 2 then before
    else if reps >= cfg.suffixMinReps then Raised(cfg, reps, before)
    else before * 0.95
  }

  /** The confidence after this history: the suffix check runs unless the flood check stopped. */
  function Confidence(cfg: Config, hist: seq<Chunk>): (c: real)
    requires cfg.Usable()
    ensures 0.0 <= c <= 1.0
  {
    if hist == [] then 0.0
    else
      var before := Confidence(cfg, hist[..|hist| - 1]);
      if !Checks(cfg, hist) || Flood(cfg, TokensOf(hist)) then before
      else ConfidenceStep(cfg, TextOf(hist), before)
  }

  // ---- what the suffix check guarantees ------------------------------------------------

  /** The confidence the last feed reports: none before the checks begin, certainty on a
      flood, the recycled share on stagnation, else the smoothed one. */
  function ReportedConfidence(cfg: Config, hist: seq<Chunk>): (c: real)
    requires cfg.Usable()
    ensures 0.0 <= c <= 1.0
  {
    if |TokensOf(hist)| < cfg.minTokensBeforeCheck then 0.0
    else if Verdict(cfg, hist) == Some(NGramFlood) then 1.0
    else if Verdict(cfg, hist) == Some(Stagnation)
      then RecycledRatio(Recent(cfg, TokensOf(hist)), Early(cfg, hist).value)
    else Confidence(cfg, hist)
  }

  lemma {:induction false} BestIsBest(cfg: Config, tail: string, k: nat)
    requires cfg.Usable() && k <= TriedCount(cfg, tail)
    ensures forall i :: 0 <= i < k ==> Length(cfg, i) * 2 <= |tail|
    ensures var b := Best(cfg, tail, k);
            && (forall i :: 0 <= i < k && Reps(tail, Length(cfg, i)) >= cfg.suffixMinReps ==>
                              Reps(tail, Length(cfg, i)) <= b.0)
            && (b.0 == 0 ==> b.1 == 0)
            && (b.0 > 0 ==> exists i :: && 0 <= i < k && b.1 == Length(cfg, i)
                                        && Reps(tail, b.1) == b.0 >= cfg.suffixMinReps
                                        && forall j :: 0 <= j < i ==> Reps(tail, Length(cfg, j)) < b.0)
  {
    hide Reps;
    forall i | 0 <= i < k ensures Length(cfg, i) * 2 <= |tail| { TriedLengths(cfg, tail, i); }
    if k > 0 {
      BestIsBest(cfg, tail, k - 1);
      assert Length(cfg, k - 1) * 2 <= |tail|;
      var p, before := Length(cfg, k - 1), Best(cfg, tail, k - 1);
      if Reps(tail, p) >= cfg.suffixMinReps && Reps(tail, p) > before.0 {
        forall j | 0 <= j < k - 1 ensures Reps(tail, Length(cfg, j)) < Reps(tail, p) {}
      }
    }
  }

  lemma {:induction false} MatchesItself(s: string)
    ensures Matches(s, s) == |s|
  {
    if s != "" { MatchesItself(s[1..]); }
  }

  /** The `j`-th block from the end equals the final one. */
  predicate ExactAt(tail: string, p: nat, j: nat)
    requires 1 <= p <= |tail|
  {
    Scaled(p, j);
    (j + 1) * p <= |tail| && tail[|tail| - (j + 1) * p..|tail| - j * p] == tail[|tail| - p..]
  }

  lemma ExactIsAlike(tail: string, p: nat, j: nat)
    requires 1 <= p <= |tail| && ExactAt(tail, p, j)
    ensures AlikeAt(tail, p, j)
  {
    MatchesItself(tail[|tail| - p..]);
  }

  /** Completeness: if the window ends in at least `suffixMinReps` exact copies of a block
      of a tried length, the check settles on a pattern with at least as many repetitions,
      and reports it exactly when that pattern is not structural. */
  lemma ExactLoopIsReported(cfg: Config, text: string, i: nat, copies: nat)
    requires cfg.Usable() && copies >= 2 && copies >= cfg.suffixMinReps
    requires Length(cfg, i) * 2 <= |TailOf(cfg, text)|
    requires forall j :: 0 <= j < copies ==> ExactAt(TailOf(cfg, text), Length(cfg, i), j)
    ensures var tail := TailOf(cfg, text);
            var best := Best(cfg, tail, TriedCount(cfg, tail));
            && best.0 >= copies && best.1 <= |tail|
            && (SuffixLoop(cfg, text) <==> !Structural(tail[|tail| - best.1..]))
  {
    hide Structural, Best, Reps, TailOf;
    var tail := TailOf(cfg, text);
    var p := Length(cfg, i);
    TriedLengths(cfg, tail, i);
    BestIsBest(cfg, tail, TriedCount(cfg, tail));
    assert Reps(tail, p) >= copies by {
      ChainCounts(tail, p, 1);
      var r := 1 + Chain(tail, p, 1);
      if r < copies { ExactIsAlike(tail, p, r); }
      RepsIs(tail, p);
    }
  }

  lemma RepsIs(tail: string, p: nat)
    requires 1 <= p <= |tail|
    ensures Reps(tail, p) == 1 + Chain(tail, p, 1)
  {
  }

  /** Soundness: a report names a tried length and at least `suffixMinReps` adjacent blocks
      of it that end the window, each of which agrees with the final one in 90 percent of
      its positions; one block more would not. */
  lemma ReportIsLoop(cfg: Config, text: string)
    requires cfg.Usable() && SuffixLoop(cfg, text)
    ensures var tail := TailOf(cfg, text);
            exists i: nat, r: nat ::
              && i < TriedCount(cfg, tail) && Length(cfg, i) * 2 <= |tail| && r >= cfg.suffixMinReps
                                     && (forall j: nat :: j < r ==> AlikeAt(tail, Length(cfg, i), j))
                                     && !AlikeAt(tail, Length(cfg, i), r)
                                     && !Structural(tail[|tail| - Length(cfg, i)..])
  {
    hide Structural, Best, TailOf, AlikeAt;
    var tail := TailOf(cfg, text);
    var best := Best(cfg, tail, TriedCount(cfg, tail));
    BestIsBest(cfg, tail, TriedCount(cfg, tail));
    var i: nat :| i < TriedCount(cfg, tail) && best.1 == Length(cfg, i) && Reps(tail, best.1) == best.0;
    ChainCounts(tail, best.1, 1);
    ExactZero(tail, best.1);
    assert forall j: nat :: j < best.0 ==> AlikeAt(tail, Length(cfg, i), j);
  }

  lemma ExactZero(tail: string, p: nat)
    requires 1 <= p <= |tail|
    ensures AlikeAt(tail, p, 0)
  {
    assert tail[|tail| - 1 * p..|tail| - 0 * p] == tail[|tail| - p..];
    ExactIsAlike(tail, p, 0);
  }
}
