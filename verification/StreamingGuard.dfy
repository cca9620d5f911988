/** dgxarley/integration/streaming_repetition_guard.py: the incremental guard, and the
    stream wrapper with its two independent guards. */
module StreamingGuard {
  import opened Options
  import opened PyText
  import opened RepetitionSpec

  datatype FeedResult = FeedResult(reason: Option<StopReason>, tokensSeen: nat, worstNgramCount: nat,
                                   loopConfidence: real)
  {
    predicate ShouldStop() { reason.Some? }
  }

  const MARKERS := [". ", ".\n", "!\n", "? ", "?\n"]

  /** End of the last occurrence, before `end`, of the first marker that occurs at all. */
  function FirstMarkerEnd(text: string, markers: seq<string>, end: nat): (r: Option<nat>)
    ensures r.Some? ==> r.value <= |text|
  {
    if markers == [] then None
    else
      var pos := RFind(text, markers[0], end);
      if pos != -1 then Some(pos + |markers[0]|) else FirstMarkerEnd(text, markers[1..], end)
  }

  /** Where the clean text ends after a report on `text`. */
  function MarkLoopStart(cfg: Config, text: string, cleanPos: nat): (r: nat)
    requires cleanPos <= |text|
    ensures cleanPos <= r <= |text|
  {
    var approx := if |text| > cfg.suffixWindow then |text| - cfg.suffixWindow else 0;
    var sentence := FirstMarkerEnd(text, MARKERS + ["\n"], approx + 100);
    if sentence.Some? && sentence.value > cleanPos then sentence.value else cleanPos
  }

  function CleanText(text: string, cleanPos: nat): (r: string)
    requires cleanPos <= |text|
    ensures r <= text
  {
    if cleanPos > 0 then RStrip(text[..cleanPos]) else RStrip(text)
  }

  lemma Snoc(hist: seq<Chunk>, c: Chunk)
    ensures (hist + [c])[..|hist|] == hist
    ensures TextOf(hist + [c]) == TextOf(hist) + c.text
    ensures TokensOf(hist + [c]) == TokensOf(hist) + c.words
  {
    assert (hist + [c])[..|hist|] == hist;
  }

  /** The grams of the longer history begin with those of the shorter one. */
  lemma GramsExtend(old_: seq<string>, added: seq<string>, n: nat)
    requires n >= 1
    ensures Grams(old_, n) == Grams(old_ + added, n)[..|Grams(old_, n)|]
  {
    forall i | 0 <= i < |Grams(old_, n)| ensures Grams(old_, n)[i] == Grams(old_ + added, n)[i] {
      assert old_[i..i + n] == (old_ + added)[i..i + n];
    }
  }

  class RepetitionGuard {
    const config: Config
    var fullText: string
    var tokens: seq<string>
    var tokenCount: nat
    var feedCount: nat
    var ngramCounts: multiset<string>
    var worstNgramCount: nat
    var earlyNgrams: set<string>
    var earlyNgramsFrozen: bool
    var loopConfidence: real
    var lastCleanPos: nat
    /** The non-empty chunks fed so far. */
    ghost var history: seq<Chunk>

    /** Every incremental field is what the whole history says it is. */
    ghost predicate Valid()
      reads this
    {
      Current() && loopConfidence == Confidence(config, history)
    }

    /** The same, apart from the confidence. */
    ghost predicate Current()
      reads this
    {
      && config.Usable()
      && fullText == TextOf(history) && tokens == TokensOf(history)
      && tokenCount == |tokens| && feedCount == |history|
      && CountsFor(tokens)
      && EarlyFor(Early(config, history))
      && lastCleanPos <= |fullText|
    }

    ghost predicate CountsFor(ts: seq<string>)
      reads this
    {
      && ngramCounts == multiset(Grams(ts, config.ngramN))
      && worstNgramCount == MaxCount(Grams(ts, config.ngramN))
    }

    ghost predicate EarlyFor(early: Option<set<string>>)
      reads this
    {
      if earlyNgramsFrozen then early == Some(earlyNgrams) else early == None
    }

    constructor (cfg: Config)
      requires cfg.Usable()
      ensures Valid() && config == cfg && history == [] && lastCleanPos == 0
    {
      config := cfg;
      fullText, tokens, tokenCount, feedCount := "", [], 0, 0;
      ngramCounts, worstNgramCount := multiset{}, 0;
      earlyNgrams, earlyNgramsFrozen := {}, false;
      loopConfidence, lastCleanPos := 0.0, 0;
      history := [];
      new;
      assert Grams([], config.ngramN) == [];
    }

    /** Ingest one chunk. The verdict is the one recomputed from the whole history. */
    method Feed(chunk: Chunk) returns (r: FeedResult)
      requires Valid()
      modifies this
      ensures Valid()
      ensures lastCleanPos >= old(lastCleanPos)
      ensures r.tokensSeen == |TokensOf(history)| && 0.0 <= r.loopConfidence <= 1.0
      ensures chunk.text == "" ==> r.reason.None? && r.loopConfidence == 0.0 && r.worstNgramCount == 0
      ensures chunk.text == "" ==> history == old(history) && lastCleanPos == old(lastCleanPos)
      ensures chunk.text != "" ==>
                && history == old(history) + [chunk]
                && r.reason == Verdict(config, history)
                && r.loopConfidence == ReportedConfidence(config, history)
                && r.worstNgramCount == MaxCount(Grams(TokensOf(history), config.ngramN))
                && lastCleanPos == (if r.ShouldStop() then MarkLoopStart(config, TextOf(history), old(lastCleanPos))
                                    else old(lastCleanPos))
    {
      if chunk.text == "" {
        return FeedResult(None, tokenCount, 0, 0.0);
      }
      ghost var past := history;
      Ingest(chunk);
      r := Judge(past, chunk);
    }

    /** Append a non-empty chunk to text, tokens and n-grams. */
    method Ingest(chunk: Chunk)
      requires Current()
      modifies `fullText, `tokens, `tokenCount, `feedCount, `history,
               `ngramCounts, `worstNgramCount, `earlyNgrams, `earlyNgramsFrozen
      ensures Current() && history == old(history) + [chunk]
    {
      hide Early, Grams, MaxCount, TextOf, TokensOf;
      ghost var past := history;
      Snoc(past, chunk);
      fullText := fullText + chunk.text;
      feedCount := feedCount + 1;
      tokens := tokens + chunk.words;
      tokenCount := tokenCount + |chunk.words|;
      history := history + [chunk];
      UpdateNgrams(past, chunk, chunk.words);
    }

    /** The part of `feed` that decides. */
    method Judge(ghost past: seq<Chunk>, ghost chunk: Chunk) returns (r: FeedResult)
      requires Current() && history == past + [chunk] && loopConfidence == Confidence(config, past)
      modifies `lastCleanPos, `loopConfidence
      ensures Current() && loopConfidence == Confidence(config, history)
      ensures r.reason == Verdict(config, history) && r.loopConfidence == ReportedConfidence(config, history)
      ensures r.tokensSeen == |tokens| && r.worstNgramCount == worstNgramCount
      ensures lastCleanPos == if r.ShouldStop() then MarkLoopStart(config, fullText, old(lastCleanPos))
                              else old(lastCleanPos)
    {
      hide TextOf, TokensOf, Early, Grams, MaxCount, Checks, Verdict, Confidence, ConfidenceStep, MarkLoopStart,
           Flood, SuffixLoop, Stagnant, Recent, RecycledRatio, ReportedConfidence;
      ReportedWhen(config, history);
      HistoryStep(config, past, chunk);
      ChecksWhen(config, history);
      r := FeedResult(None, tokenCount, worstNgramCount, 0.0);
      if tokenCount < config.minTokensBeforeCheck {
        return;
      }
      if feedCount % config.checkEveryN != 0 {
        return r.(loopConfidence := loopConfidence);
      }
      VerdictOrder(config, history);
      var stop := CheckNgramFlood();
      if stop {
        return r.(reason := Some(NGramFlood), loopConfidence := 1.0);
      }
      stop := CheckSuffixLoop();
      if stop {
        return r.(reason := Some(SuffixLoopFound), loopConfidence := loopConfidence);
      }
      var ratio;
      stop, ratio := CheckStagnation();
      if stop {
        return r.(reason := Some(Stagnation), loopConfidence := ratio);
      }
      return r.(loopConfidence := loopConfidence);
    }

    /** Count the n-grams that contain a new word, and freeze the early ones in time. */
    method UpdateNgrams(ghost past: seq<Chunk>, ghost chunk: Chunk, newWords: seq<string>)
      requires config.Usable() && tokenCount == |tokens| && history == past + [chunk]
      requires tokens == TokensOf(history) == TokensOf(past) + newWords
      requires CountsFor(TokensOf(past)) && EarlyFor(Early(config, past))
      modifies `ngramCounts, `worstNgramCount, `earlyNgrams, `earlyNgramsFrozen
      ensures CountsFor(tokens) && EarlyFor(Early(config, history))
    {
      hide TokensOf, Early, MaxCount, Grams, Join, GramAt;
      var n := config.ngramN;
      ghost var gs := Grams(tokens, n);
      GramsExtend(TokensOf(past), newWords, n);
      EarlyStep(config, past, chunk);
      assert Early(config, history) == if earlyNgramsFrozen then Some(earlyNgrams)
                                       else if Qualifies(config, tokens) then Some(AsSet(gs)) else None;
      if |tokens| < n {
        return;
      }
      var start := if |tokens| - |newWords| - n + 1 > 0 then |tokens| - |newWords| - n + 1 else 0;
      CountGramsFrom(start);
      if !earlyNgramsFrozen && tokenCount >= config.minTokensBeforeCheck {
        earlyNgrams := Keys(ngramCounts);
        KeysOfGrams(gs);
        earlyNgramsFrozen := true;
      }
    }

    method CountGramsFrom(start: nat)
      requires config.ngramN <= |tokens| && start <= |tokens| - config.ngramN + 1
      requires CountedTo(Grams(tokens, config.ngramN), start, ngramCounts, worstNgramCount)
      modifies `ngramCounts, `worstNgramCount
      ensures CountsFor(tokens)
    {
      hide CountedTo, MaxCount, Grams;
      ghost var gs := Grams(tokens, config.ngramN);
      for i := start to |tokens| - config.ngramN + 1
        invariant CountedTo(gs, i, ngramCounts, worstNgramCount)
      {
        var gram := GramAt(tokens, config.ngramN, i);
        CountStep(gs, i, ngramCounts, worstNgramCount);
        ngramCounts := ngramCounts[gram := ngramCounts[gram] + 1];
        if ngramCounts[gram] > worstNgramCount {
          worstNgramCount := ngramCounts[gram];
        }
      }
      CountedAll(gs, ngramCounts, worstNgramCount);
    }

    method CheckNgramFlood() returns (stop: bool)
      requires tokenCount == |tokens| && CountsFor(tokens) && lastCleanPos <= |fullText|
      modifies `lastCleanPos
      ensures stop == Flood(config, tokens)
      ensures lastCleanPos == if stop then MarkLoopStart(config, fullText, old(lastCleanPos)) else old(lastCleanPos)
    {
      if worstNgramCount < EffectiveMax(config, tokenCount) {
        return false;
      }
      var ratio := (worstNgramCount * config.ngramN) as real / (if tokenCount > 1 then tokenCount else 1) as real;
      if ratio < config.ngramMinRatio {
        return false;
      }
      lastCleanPos := MarkLoopStart(config, fullText, lastCleanPos);
      return true;
    }

    /** Repetitions of the last `patLen` characters, counted block by block from the end. */
    static method CountRepetitions(tail: string, patLen: nat) returns (reps: nat)
      requires patLen >= 1 && patLen * 2 <= |tail|
      ensures reps == Reps(tail, patLen)
    {
      var pattern := tail[|tail| - patLen..];
      reps := 1;
      var pos := |tail| - patLen * 2;
      var going := true;
      while going && pos >= 0
        invariant reps >= 1 && pos == |tail| - (reps + 1) * patLen
        invariant forall j: nat :: 1 <= j < reps ==> AlikeAt(tail, patLen, j)
        invariant !going ==> !AlikeAt(tail, patLen, reps)
        decreases |tail| - reps, going
      {
        BlockPosition(tail, patLen, reps, pos);
        var matches := Matches(tail[pos..pos + patLen], pattern);
        if 10 * matches >= 9 * patLen {
          reps := reps + 1;
          pos := pos - patLen;
        } else {
          going := false;
        }
      }
      ChainIs(tail, patLen, 1, reps);
    }

    /** The pattern length with the most repetitions. */
    method BestPattern(tail: string) returns (bestReps: nat, bestPatLen: nat)
      requires config.Usable()
      ensures (bestReps, bestPatLen) == Best(config, tail, TriedCount(config, tail))
    {
      bestReps, bestPatLen := 0, 0;
      var patLen := config.suffixMinPattern;
      ghost var k := 0;
      hide *;
      BestStart(config, tail);
      while patLen <= |tail| / 2
        invariant BestSoFar(config, tail, k, patLen, bestReps, bestPatLen)
        invariant patLen >= 1
        decreases |tail| - patLen
      {
        var reps := CountRepetitions(tail, patLen);
        BestTurn(config, tail, k, patLen, bestReps, bestPatLen);
        if reps >= config.suffixMinReps && reps > bestReps {
          bestReps, bestPatLen := reps, patLen;
        }
        patLen := patLen + 5;
        k := k + 1;
      }
      BestDone(config, tail, k, patLen, bestReps, bestPatLen);
    }

    method CheckSuffixLoop() returns (stop: bool)
      requires config.Usable() && lastCleanPos <= |fullText| && 0.0 <= loopConfidence <= 1.0
      modifies `lastCleanPos, `loopConfidence
      ensures stop == SuffixLoop(config, fullText)
      ensures loopConfidence == ConfidenceStep(config, fullText, old(loopConfidence))
      ensures lastCleanPos == if stop then MarkLoopStart(config, fullText, old(lastCleanPos)) else old(lastCleanPos)
    {
      hide *;
      var tail := TailOf(config, fullText);
      if |tail| < config.suffixMinPattern * 2 {
        TooShort(config, fullText, loopConfidence);
        return false;
      }
      var bestReps, bestPatLen := BestPattern(tail);
      SuffixVerdict(config, fullText, loopConfidence, bestReps, bestPatLen);
      if bestReps >= config.suffixMinReps {
        loopConfidence := Raised(config, bestReps, loopConfidence);
        if bestPatLen >= config.suffixMinPattern {
          var patternText := tail[|tail| - bestPatLen..];
          if Structural(patternText) {
            return false;
          }
          lastCleanPos := MarkLoopStart(config, fullText, lastCleanPos);
          return true;
        }
      } else {
        loopConfidence := loopConfidence * 0.95;
      }
      return false;
    }

    /** The distinct n-grams of a token sequence. */
    static method GramSet(ts: seq<string>, n: nat) returns (grams: set<string>)
      ensures grams == AsSet(Grams(ts, n))
    {
      grams := {};
      ghost var gs := Grams(ts, n);
      if |ts| >= n {
        for i := 0 to |ts| - n + 1
          invariant grams == AsSet(gs[..i])
        {
          grams := grams + {GramAt(ts, n, i)};
          assert gs[..i + 1] == gs[..i] + [gs[i]];
        }
        assert gs[..|gs|] == gs;
      }
    }

    method CheckStagnation() returns (stop: bool, ratio: real)
      requires config.Usable() && lastCleanPos <= |fullText|
      modifies `lastCleanPos
      ensures stop == Stagnant(config, tokens, if earlyNgramsFrozen then Some(earlyNgrams) else None)
      ensures stop ==> ratio == RecycledRatio(Recent(config, tokens), earlyNgrams)
      ensures lastCleanPos == if stop then MarkLoopStart(config, fullText, old(lastCleanPos)) else old(lastCleanPos)
    {
      if !earlyNgramsFrozen {
        return false, 0.0;
      }
      var n, w := config.ngramN, config.stagnationWindow;
      if |tokens| < w + n {
        return false, 0.0;
      }
      var recentGrams := GramSet(Last(tokens, w), n);
      assert recentGrams == Recent(config, tokens);
      hide *;
      if recentGrams == {} {
        return false, 0.0;
      }
      ratio := RecycledRatio(recentGrams, earlyNgrams);
      stop := ratio >= config.stagnationThreshold;
      if stop {
        lastCleanPos := MarkLoopStart(config, fullText, lastCleanPos);
      }
    }

    /** The text before the repetition: always a prefix of what was fed. */
    method GetCleanText() returns (r: string)
      requires Valid()
      ensures r == CleanText(TextOf(history), lastCleanPos) && r <= TextOf(history)
    {
      if lastCleanPos > 0 {
        r := RStrip(fullText[..lastCleanPos]);
      } else {
        r := RStrip(fullText);
      }
    }
  }

  lemma BlockPosition(tail: string, p: nat, j: nat, pos: int)
    requires p >= 1 && p * 2 <= |tail| && j >= 1 && pos == |tail| - (j + 1) * p
    ensures pos - p == |tail| - (j + 2) * p
    ensures pos >= 0 ==> pos + p <= |tail| && AlikeAt(tail, p, j) == Alike(tail[pos..pos + p], tail[|tail| - p..])
    ensures pos < 0 ==> !AlikeAt(tail, p, j)
  {
    Scaled(p, j);
    Scaled(p, j + 1);
  }

  /** The best pattern among the first `k` lengths; `patLen` is the next to try. */
  ghost predicate BestSoFar(cfg: Config, tail: string, k: nat, patLen: nat, reps: nat, len: nat) {
    cfg.Usable() && patLen == Length(cfg, k) && k <= TriedCount(cfg, tail) && (reps, len) == Best(cfg, tail, k)
  }

  lemma BestStart(cfg: Config, tail: string)
    requires cfg.Usable()
    ensures BestSoFar(cfg, tail, 0, cfg.suffixMinPattern, 0, 0) && cfg.suffixMinPattern >= 1
  {
  }

  lemma BestTurn(cfg: Config, tail: string, k: nat, patLen: nat, reps: nat, len: nat)
    requires BestSoFar(cfg, tail, k, patLen, reps, len) && 1 <= patLen <= |tail| / 2
    ensures Reps(tail, patLen) >= cfg.suffixMinReps && Reps(tail, patLen) > reps ==>
              BestSoFar(cfg, tail, k + 1, patLen + 5, Reps(tail, patLen), patLen)
    ensures !(Reps(tail, patLen) >= cfg.suffixMinReps && Reps(tail, patLen) > reps) ==>
              BestSoFar(cfg, tail, k + 1, patLen + 5, reps, len)
  {
    hide Reps;
    TriedLengths(cfg, tail, k);
  }

  lemma BestDone(cfg: Config, tail: string, k: nat, patLen: nat, reps: nat, len: nat)
    requires BestSoFar(cfg, tail, k, patLen, reps, len) && patLen > |tail| / 2
    ensures (reps, len) == Best(cfg, tail, TriedCount(cfg, tail))
  {
    TriedLengths(cfg, tail, k);
  }

  lemma HistoryStep(cfg: Config, past: seq<Chunk>, c: Chunk)
    requires cfg.Usable()
    ensures var hist := past + [c];
            Confidence(cfg, hist) ==
            if !Checks(cfg, hist) || Flood(cfg, TokensOf(hist)) then Confidence(cfg, past)
            else ConfidenceStep(cfg, TextOf(hist), Confidence(cfg, past))
  {
    assert (past + [c])[..|past|] == past;
  }

  lemma ChecksWhen(cfg: Config, hist: seq<Chunk>)
    requires cfg.Usable()
    ensures Checks(cfg, hist) <==> |TokensOf(hist)| >= cfg.minTokensBeforeCheck && |hist| % cfg.checkEveryN == 0
    ensures !Checks(cfg, hist) ==> Verdict(cfg, hist) == None
  {
  }

  lemma ReportedWhen(cfg: Config, hist: seq<Chunk>)
    requires cfg.Usable()
    ensures |TokensOf(hist)| < cfg.minTokensBeforeCheck ==> ReportedConfidence(cfg, hist) == 0.0
    ensures |TokensOf(hist)| >= cfg.minTokensBeforeCheck ==>
              && (Verdict(cfg, hist) == Some(NGramFlood) ==> ReportedConfidence(cfg, hist) == 1.0)
              && (Verdict(cfg, hist) == Some(Stagnation) ==>
                    && Recent(cfg, TokensOf(hist)) != {} && Early(cfg, hist).Some?
                    && ReportedConfidence(cfg, hist)
                        == RecycledRatio(Recent(cfg, TokensOf(hist)), Early(cfg, hist).value))
              && (Verdict(cfg, hist) in {None, Some(SuffixLoopFound)} ==>
                    ReportedConfidence(cfg, hist) == Confidence(cfg, hist))
  {
  }

  lemma VerdictOrder(cfg: Config, hist: seq<Chunk>)
    requires cfg.Usable() && Checks(cfg, hist)
    ensures Verdict(cfg, hist) ==
            if Flood(cfg, TokensOf(hist)) then Some(NGramFlood)
            else if SuffixLoop(cfg, TextOf(hist)) then Some(SuffixLoopFound)
            else if Stagnant(cfg, TokensOf(hist), Early(cfg, hist)) then Some(Stagnation)
            else None
  {
  }

  function Keys(counts: multiset<string>): set<string> {
    set g | g in counts
  }

  lemma KeysOfGrams(gs: seq<string>)
    ensures Keys(multiset(gs)) == AsSet(gs)
  {
    assert forall g :: g in multiset(gs) <==> g in gs;
  }

  /** Counter and maximum cover the first `i` grams. */
  ghost predicate CountedTo(gs: seq<string>, i: nat, counts: multiset<string>, worst: nat) {
    i <= |gs| && counts == multiset(gs[..i]) && worst == MaxCount(gs[..i])
  }

  lemma CountStep(gs: seq<string>, i: nat, counts: multiset<string>, worst: nat)
    requires i < |gs| && CountedTo(gs, i, counts, worst)
    ensures var c := counts[gs[i]] + 1;
            CountedTo(gs, i + 1, counts[gs[i] := c], if c > worst then c else worst)
  {
    assert gs[..i + 1] == gs[..i] + [gs[i]];
    assert gs[..i + 1][..i] == gs[..i];
  }

  lemma CountedAll(gs: seq<string>, counts: multiset<string>, worst: nat)
    requires CountedTo(gs, |gs|, counts, worst)
    ensures counts == multiset(gs) && worst == MaxCount(gs)
  {
    assert gs[..|gs|] == gs;
  }

  lemma EarlyStep(cfg: Config, past: seq<Chunk>, c: Chunk)
    ensures var hist := past + [c];
            Early(cfg, hist) ==
            if Early(cfg, past).Some? then Early(cfg, past)
            else if Qualifies(cfg, TokensOf(hist)) then Some(AsSet(Grams(TokensOf(hist), cfg.ngramN)))
            else None
  {
    assert (past + [c])[..|past|] == past;
  }

  lemma TooShort(cfg: Config, text: string, before: real)
    requires cfg.Usable() && 0.0 <= before <= 1.0 && |TailOf(cfg, text)| < cfg.suffixMinPattern * 2
    ensures !SuffixLoop(cfg, text) && ConfidenceStep(cfg, text, before) == before
  {
  }

  lemma SuffixVerdict(cfg: Config, text: string, before: real, reps: nat, len: nat)
    requires cfg.Usable() && 0.0 <= before <= 1.0 && |TailOf(cfg, text)| >= cfg.suffixMinPattern * 2
    requires (reps, len) == Best(cfg, TailOf(cfg, text), TriedCount(cfg, TailOf(cfg, text)))
    ensures reps < cfg.suffixMinReps ==> !SuffixLoop(cfg, text) && ConfidenceStep(cfg, text, before) == before * 0.95
    ensures reps >= cfg.suffixMinReps ==> cfg.suffixMinPattern <= len <= |TailOf(cfg, text)|
    ensures reps >= cfg.suffixMinReps ==> ConfidenceStep(cfg, text, before) == Raised(cfg, reps, before)
    ensures reps >= cfg.suffixMinReps ==>
              SuffixLoop(cfg, text) == !Structural(TailOf(cfg, text)[|TailOf(cfg, text)| - len..])
  {
    hide Structural, Best, Reps, Raised;
    var tail := TailOf(cfg, text);
    if |tail| >= cfg.suffixMinPattern * 2 {
      BestIsBest(cfg, tail, TriedCount(cfg, tail));
      TriedLengths(cfg, tail, 0);
      RepsIs(tail, Length(cfg, 0));
    }
  }

  // ---- guarded_stream ------------------------------------------------------------------

  datatype StreamChunk = StreamChunk(content: Chunk, reasoning: Chunk)

  datatype Source = ContentSource | ReasoningSource

  function Piece(c: StreamChunk, source: Source): Chunk {
    if source.ContentSource? then c.content else c.reasoning
  }

  /** What one guard is fed by the first `k` chunks: the non-empty pieces of its field. */
  function Fed(chunks: seq<StreamChunk>, source: Source, k: nat): seq<Chunk>
    requires k <= |chunks|
  {
    if k == 0 then []
    else
      var before := Fed(chunks, source, k - 1);
      var piece := Piece(chunks[k - 1], source);
      if piece.text == "" then before else before + [piece]
  }

  /** After `k` chunks the history of this field alone calls for a stop. */
  predicate Trips(cfg: Config, chunks: seq<StreamChunk>, source: Source, k: nat)
    requires cfg.Usable() && k <= |chunks|
  {
    Fed(chunks, source, k) != [] && Verdict(cfg, Fed(chunks, source, k)).Some?
  }

  /** Neither field calls for a stop at any point of the first `k` chunks. */
  ghost predicate Quiet(cfg: Config, chunks: seq<StreamChunk>, k: nat)
    requires cfg.Usable() && k <= |chunks|
  {
    forall j :: 0 <= j <= k ==> !Trips(cfg, chunks, ContentSource, j) && !Trips(cfg, chunks, ReasoningSource, j)
  }

  lemma FedStep(cfg: Config, chunks: seq<StreamChunk>, source: Source, k: nat)
    requires cfg.Usable() && k < |chunks| && !Trips(cfg, chunks, source, k)
    ensures Piece(chunks[k], source).text == "" ==> Fed(chunks, source, k + 1) == Fed(chunks, source, k)
    ensures Piece(chunks[k], source).text == "" ==> !Trips(cfg, chunks, source, k + 1)
    ensures Piece(chunks[k], source).text != "" ==>
              Fed(chunks, source, k + 1) == Fed(chunks, source, k) + [Piece(chunks[k], source)]
    ensures Piece(chunks[k], source).text != "" ==>
              Trips(cfg, chunks, source, k + 1) == Verdict(cfg, Fed(chunks, source, k + 1)).Some?
  {
    hide Verdict;
  }

  lemma QuietStep(cfg: Config, chunks: seq<StreamChunk>, k: nat)
    requires cfg.Usable() && k <= |chunks|
    ensures k == 0 ==> Quiet(cfg, chunks, 0)
    ensures Quiet(cfg, chunks, k) ==> !Trips(cfg, chunks, ContentSource, k) && !Trips(cfg, chunks, ReasoningSource, k)
    ensures k > 0 && Quiet(cfg, chunks, k - 1) ==>
              (Quiet(cfg, chunks, k) <==>
               !Trips(cfg, chunks, ContentSource, k) && !Trips(cfg, chunks, ReasoningSource, k))
  {
    hide *;
    QuietAtStart(cfg, chunks);
    QuietSays(cfg, chunks, k);
    if k > 0 { QuietOneMore(cfg, chunks, k); }
  }

  lemma QuietAtStart(cfg: Config, chunks: seq<StreamChunk>)
    requires cfg.Usable()
    ensures Quiet(cfg, chunks, 0)
  {
    NothingTripsYet(cfg, chunks);
    hide Trips;
  }

  lemma QuietSays(cfg: Config, chunks: seq<StreamChunk>, k: nat)
    requires cfg.Usable() && k <= |chunks|
    ensures Quiet(cfg, chunks, k) ==> !Trips(cfg, chunks, ContentSource, k) && !Trips(cfg, chunks, ReasoningSource, k)
  {
    hide Trips, Config.Usable;
  }

  lemma QuietOneMore(cfg: Config, chunks: seq<StreamChunk>, k: nat)
    requires cfg.Usable() && 0 < k <= |chunks|
    ensures Quiet(cfg, chunks, k) <==>
            Quiet(cfg, chunks, k - 1)
            && !Trips(cfg, chunks, ContentSource, k) && !Trips(cfg, chunks, ReasoningSource, k)
  {
    hide Trips, Config.Usable;
  }

  lemma NothingTripsYet(cfg: Config, chunks: seq<StreamChunk>)
    requires cfg.Usable()
    ensures !Trips(cfg, chunks, ContentSource, 0) && !Trips(cfg, chunks, ReasoningSource, 0)
  {
    hide Verdict;
  }

  /** One chunk of one field goes to its guard, unless it is empty. */
  method FeedPiece(cfg: Config, guard: RepetitionGuard, ghost chunks: seq<StreamChunk>, ghost source: Source,
                   ghost k: nat, piece: Chunk)
    returns (stop: bool)
    requires cfg.Usable() && k < |chunks| && piece == Piece(chunks[k], source) && !Trips(cfg, chunks, source, k)
    requires guard.Valid() && guard.config == cfg && guard.history == Fed(chunks, source, k)
    modifies guard
    ensures guard.Valid() && guard.history == Fed(chunks, source, k + 1)
    ensures stop == Trips(cfg, chunks, source, k + 1)
  {
    hide *;
    FedStep(cfg, chunks, source, k);
    stop := false;
    if piece.text != "" {
      var result := guard.Feed(piece);
      stop := result.reason.Some?;
    }
  }

  /** `k` chunks is as far as neither field calls for a stop; `stoppedBy` is the field that
      does at the next one. */
  ghost predicate LongestQuiet(cfg: Config, chunks: seq<StreamChunk>, k: nat, stoppedBy: Option<Source>)
    requires cfg.Usable()
  {
    && k <= |chunks| && Quiet(cfg, chunks, k)
    && if stoppedBy.None? then k == |chunks|
       else k < |chunks| && Trips(cfg, chunks, stoppedBy.value, k + 1) && !Quiet(cfg, chunks, k + 1)
  }

  lemma QuietUpTo(cfg: Config, chunks: seq<StreamChunk>, k: nat)
    requires cfg.Usable() && k <= |chunks| && Quiet(cfg, chunks, k)
    ensures k == |chunks| ==> LongestQuiet(cfg, chunks, k, None)
    ensures !Trips(cfg, chunks, ContentSource, k) && !Trips(cfg, chunks, ReasoningSource, k)
    ensures k < |chunks| && Trips(cfg, chunks, ContentSource, k + 1) ==>
              LongestQuiet(cfg, chunks, k, Some(ContentSource))
    ensures k < |chunks| && Trips(cfg, chunks, ReasoningSource, k + 1) ==>
              LongestQuiet(cfg, chunks, k, Some(ReasoningSource))
    ensures k < |chunks| && !Trips(cfg, chunks, ContentSource, k + 1) && !Trips(cfg, chunks, ReasoningSource, k + 1) ==>
              Quiet(cfg, chunks, k + 1)
  {
    hide Trips, Quiet;
    QuietStep(cfg, chunks, k);
    if k < |chunks| { QuietStep(cfg, chunks, k + 1); }
  }

  lemma FedStart(cfg: Config, chunks: seq<StreamChunk>)
    requires cfg.Usable()
    ensures Fed(chunks, ContentSource, 0) == [] == Fed(chunks, ReasoningSource, 0) && Quiet(cfg, chunks, 0)
  {
    QuietStep(cfg, chunks, 0);
  }

  /** Pass chunks on until a guard stops: exactly the longest prefix in which neither does. */
  method GuardedStream(cfg: Config, chunks: seq<StreamChunk>)
    returns (yielded: seq<StreamChunk>, stoppedBy: Option<Source>)
    requires cfg.Usable()
    ensures yielded <= chunks && LongestQuiet(cfg, chunks, |yielded|, stoppedBy)
    // The reasoning of a chunk is looked at before its content.
    ensures stoppedBy == Some(ContentSource) ==>
              |yielded| < |chunks| && !Trips(cfg, chunks, ReasoningSource, |yielded| + 1)
  {
    hide *;
    var contentGuard := new RepetitionGuard(cfg);
    var reasoningGuard := new RepetitionGuard(cfg);
    FedStart(cfg, chunks);
    for i := 0 to |chunks|
      invariant Quiet(cfg, chunks, i)
      invariant contentGuard != reasoningGuard && fresh(contentGuard) && fresh(reasoningGuard)
      invariant contentGuard.Valid() && reasoningGuard.Valid()
      invariant contentGuard.config == cfg == reasoningGuard.config
      invariant contentGuard.history == Fed(chunks, ContentSource, i)
      invariant reasoningGuard.history == Fed(chunks, ReasoningSource, i)
    {
      QuietUpTo(cfg, chunks, i);
      var stop := FeedPiece(cfg, reasoningGuard, chunks, ReasoningSource, i, Piece(chunks[i], ReasoningSource));
      if stop {
        return chunks[..i], Some(ReasoningSource);
      }
      stop := FeedPiece(cfg, contentGuard, chunks, ContentSource, i, Piece(chunks[i], ContentSource));
      if stop {
        return chunks[..i], Some(ContentSource);
      }
    }
    QuietUpTo(cfg, chunks, |chunks|);
    return chunks, None;
  }
}
