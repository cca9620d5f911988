/** Where `_mark_loop_start` of dgxarley/integration/streaming_repetition_guard.py cuts, and
    when that is the nearest sentence boundary. */
module CleanCut {
  import opened Options
  import opened Text
  import opened PyText
  import opened RepetitionSpec
  import opened StreamingGuard

  /** The marker occurs at `i` and ends by `end`. */
  predicate Occurs(text: string, marker: string, end: nat, i: nat) {
    At(text, i, marker) && i + |marker| <= end
  }

  lemma OccursInside(text: string, marker: string, end: nat, i: nat)
    ensures Occurs(text, marker, end, i) ==> i + |marker| <= |text|
  {
  }

  lemma {:induction false} RFindWithin(text: string, marker: string, end: nat, i: nat)
    requires end <= |text|
    ensures RFind(text, marker, end) >= 0 ==> Occurs(text, marker, end, RFind(text, marker, end))
    ensures Occurs(text, marker, end, i) ==> i <= RFind(text, marker, end)
    decreases end
  {
    hide At;
    if |marker| <= end && end > 0 && !At(text, end - |marker|, marker) {
      RFindWithin(text, marker, end - 1, i);
    }
  }

  lemma RFindReach(text: string, marker: string, end: nat)
    requires end > |text|
    ensures RFind(text, marker, end) == RFind(text, marker, |text|)
  {
    hide At;
  }

  /** What `rfind` finds is an occurrence, and none begins behind it. */
  lemma RFindIsLast(text: string, marker: string, end: nat, i: nat)
    ensures RFind(text, marker, end) >= 0 ==> Occurs(text, marker, end, RFind(text, marker, end))
    ensures Occurs(text, marker, end, i) ==> i <= RFind(text, marker, end)
  {
    OccursInside(text, marker, end, i);
    RFindWithin(text, marker, if end <= |text| then end else |text|, i);
    if end > |text| { RFindReach(text, marker, end); }
    hide RFind, At;
  }

  // ---- the cut -------------------------------------------------------------------------

  /** The end of the last occurrence of a marker within reach; 0 if there is none. */
  function LastEnd(text: string, marker: string, end: nat): nat {
    if RFind(text, marker, end) < 0 then 0 else RFind(text, marker, end) + |marker|
  }

  /** The first kind of marker that occurs within reach. */
  function FirstKind(text: string, markers: seq<string>, end: nat): (k: nat)
    ensures k <= |markers|
  {
    if markers == [] || RFind(text, markers[0], end) >= 0 then 0 else 1 + FirstKind(text, markers[1..], end)
  }

  /** The cut is the last end of a marker, within reach, of the first kind that occurs there;
      there is none if and only if no kind does. */
  lemma {:induction false} CutIsLastOfFirstKind(text: string, markers: seq<string>, end: nat)
    ensures var k := FirstKind(text, markers, end);
            && (forall m :: 0 <= m < k ==> RFind(text, markers[m], end) < 0)
            && (k < |markers| ==> RFind(text, markers[k], end) >= 0)
            && FirstMarkerEnd(text, markers, end)
               == if k < |markers| then Some(LastEnd(text, markers[k], end)) else None
  {
    hide RFind;
    if markers != [] && RFind(text, markers[0], end) < 0 {
      CutIsLastOfFirstKind(text, markers[1..], end);
      var k := FirstKind(text, markers[1..], end);
      assert k < |markers[1..]| ==> markers[1..][k] == markers[k + 1];
      forall m | 0 <= m < k + 1 ensures RFind(text, markers[m], end) < 0 {
        if m > 0 { assert markers[1..][m - 1] == markers[m]; }
      }
    }
  }

  /** No marker ends within reach but behind `pos`. */
  ghost predicate IsNearest(text: string, markers: seq<string>, end: nat, pos: nat) {
    forall m, i: nat :: 0 <= m < |markers| && Occurs(text, markers[m], end, i) ==> i + |markers[m]| <= pos
  }

  lemma LastEndBounds(text: string, marker: string, end: nat, pos: nat)
    ensures (forall i: nat :: Occurs(text, marker, end, i) ==> i + |marker| <= pos) <==>
            LastEnd(text, marker, end) <= pos
  {
    var r := RFind(text, marker, end);
    RFindIsLast(text, marker, end, 0);
    forall i: nat ensures Occurs(text, marker, end, i) ==> i <= r { RFindIsLast(text, marker, end, i); }
    hide RFind, Occurs;
  }

  lemma NearestByKind(text: string, markers: seq<string>, end: nat, pos: nat)
    ensures IsNearest(text, markers, end, pos) <==>
            forall m :: 0 <= m < |markers| ==> LastEnd(text, markers[m], end) <= pos
  {
    forall m | 0 <= m < |markers|
      ensures (forall i: nat :: Occurs(text, markers[m], end, i) ==> i + |markers[m]| <= pos) <==>
              LastEnd(text, markers[m], end) <= pos
    {
      LastEndBounds(text, markers[m], end, pos);
    }
    hide Occurs, LastEnd;
  }

  /** Only kinds behind the first one that occurs can end behind it. */
  lemma NearestByLaterKinds(text: string, markers: seq<string>, end: nat, pos: nat)
    requires var k := FirstKind(text, markers, end); k < |markers| ==> LastEnd(text, markers[k], end) <= pos
    ensures IsNearest(text, markers, end, pos) <==>
            forall m :: FirstKind(text, markers, end) < m < |markers| ==> LastEnd(text, markers[m], end) <= pos
  {
    NearestByKind(text, markers, end, pos);
    CutIsLastOfFirstKind(text, markers, end);
    hide RFind, FirstMarkerEnd, FirstKind, IsNearest;
    assert forall m :: 0 <= m < FirstKind(text, markers, end) ==> LastEnd(text, markers[m], end) == 0;
    hide LastEnd;
  }

  /** The cut is the nearest boundary exactly if no later kind of marker ends behind the last
      occurrence of the first kind that occurs. */
  lemma CutIsNearestIff(text: string, markers: seq<string>, end: nat)
    requires FirstMarkerEnd(text, markers, end).Some?
    ensures FirstKind(text, markers, end) < |markers|
    ensures IsNearest(text, markers, end, FirstMarkerEnd(text, markers, end).value) <==>
            forall m :: FirstKind(text, markers, end) < m < |markers| ==>
              LastEnd(text, markers[m], end) <= LastEnd(text, markers[FirstKind(text, markers, end)], end)
  {
    CutIsLastOfFirstKind(text, markers, end);
    hide RFind, FirstMarkerEnd, FirstKind, IsNearest, LastEnd;
    NearestByLaterKinds(text, markers, end, FirstMarkerEnd(text, markers, end).value);
  }

  // ---- the clean position --------------------------------------------------------------

  /** The kinds of boundary, in the order in which they are looked for. */
  function Kinds(): seq<string> { [". ", ".\n", "!\n", "? ", "?\n", "\n"] }

  /** How far the search for a boundary reaches. */
  function Reach(cfg: Config, text: string): nat {
    (if |text| > cfg.suffixWindow then |text| - cfg.suffixWindow else 0) + 100
  }

  /** Where a report leaves the clean position: at the end of the last marker of the first kind
      that occurs within reach, unless it was behind that already. */
  lemma MarkLoopStartIs(cfg: Config, text: string, cleanPos: nat)
    requires cleanPos <= |text|
    ensures var k := FirstKind(text, Kinds(), Reach(cfg, text));
            MarkLoopStart(cfg, text, cleanPos) ==
              if k < |Kinds()| && LastEnd(text, Kinds()[k], Reach(cfg, text)) > cleanPos
              then LastEnd(text, Kinds()[k], Reach(cfg, text)) else cleanPos
  {
    assert Kinds() == MARKERS + ["\n"];
    CutIsLastOfFirstKind(text, Kinds(), Reach(cfg, text));
  }

  /** So after a report the clean position is the nearest sentence boundary, exactly if every
      later kind of marker last ends in front of the old position, or of the last end of the
      first kind that occurs. */
  lemma MarkLoopStartIsNearestIff(cfg: Config, text: string, cleanPos: nat)
    requires cleanPos <= |text|
    ensures var (k, reach) := (FirstKind(text, Kinds(), Reach(cfg, text)), Reach(cfg, text));
            IsNearest(text, Kinds(), reach, MarkLoopStart(cfg, text, cleanPos)) <==>
            forall m :: k < m < |Kinds()| ==>
              || LastEnd(text, Kinds()[m], reach) <= cleanPos
              || LastEnd(text, Kinds()[m], reach) <= LastEnd(text, Kinds()[k], reach)
  {
    MarkLoopStartIs(cfg, text, cleanPos);
    hide RFind, FirstMarkerEnd, FirstKind, IsNearest, MarkLoopStart, Kinds, Reach, LastEnd;
    NearestByLaterKinds(text, Kinds(), Reach(cfg, text), MarkLoopStart(cfg, text, cleanPos));
  }

  /** The clean text is what stands in front of the clean position, or all of it while there is
      none, without the spaces at its end. */
  lemma CleanTextMeans(text: string, cleanPos: nat)
    requires cleanPos <= |text|
    ensures var cut := if cleanPos > 0 then cleanPos else |text|;
            var clean := CleanText(text, cleanPos);
            && |clean| <= cut && clean == text[..|clean|]
            && (clean != "" ==> !IsSpace(clean[|clean| - 1]))
            && forall i :: |clean| <= i < cut ==> IsSpace(text[i])
  {
    hide IsSpace;
    var part := if cleanPos > 0 then text[..cleanPos] else text;
    var clean := RStrip(part);
    assert forall i :: |clean| <= i < |part| ==> IsSpace(part[i]);
  }

  // ---- a stream in which it is not -----------------------------------------------------

  const DEFAULTS := Config(4, 8, 100, 14.0 / 100.0, 600, 30, 4, 80, 85.0 / 100.0, 40, 3)

  /** "x x x ..." */
  function Drone(n: nat): string {
    seq(2 * n, i => if i % 2 == 0 then 'x' else ' ')
  }

  function Words(n: nat): seq<string> {
    seq(n, _ => "x")
  }

  /** A sentence, a question, and then one word over and over. */
  const STUCK := [Chunk("a. b? ", ["a", "b"]), Chunk(Drone(20), Words(20)), Chunk(Drone(20), Words(20))]

  lemma StuckText()
    ensures TextOf(STUCK) == "a. b? " + Drone(40) && TokensOf(STUCK) == ["a", "b"] + Words(40)
  {
    assert STUCK[..2][..1] == STUCK[..1] && STUCK[..1][..0] == [];
    assert TextOf(STUCK[..1]) == "" + "a. b? " == "a. b? ";
    assert TokensOf(STUCK[..1]) == [] + ["a", "b"] == ["a", "b"];
    assert STUCK[..2][1] == STUCK[1];
    assert TextOf(STUCK[..2]) == "a. b? " + Drone(20);
    assert TokensOf(STUCK[..2]) == ["a", "b"] + Words(20);
    assert Drone(20) + Drone(20) == Drone(40) && Words(20) + Words(20) == Words(40);
    assert "a. b? " + Drone(20) + Drone(20) == "a. b? " + (Drone(20) + Drone(20));
    assert ["a", "b"] + Words(20) + Words(20) == ["a", "b"] + (Words(20) + Words(20));
  }

  lemma {:induction false} RunIsCounted(gs: seq<string>, g: string, from: nat)
    requires from <= |gs| && forall i :: from <= i < |gs| ==> gs[i] == g
    ensures multiset(gs)[g] >= |gs| - from
  {
    if |gs| > from {
      RunIsCounted(gs[..|gs| - 1], g, from);
      assert gs == gs[..|gs| - 1] + [g];
    }
  }

  /** Under the default thresholds the guard stops here for an n-gram flood. */
  lemma StuckFloods()
    ensures DEFAULTS.Usable() && Verdict(DEFAULTS, STUCK) == Some(NGramFlood)
  {
    StuckText();
    var tokens := TokensOf(STUCK);
    var gs := Grams(tokens, 4);
    var g := Join(Words(4));
    forall i | 2 <= i < |gs| ensures gs[i] == g {
      assert tokens[i..i + 4] == Words(4);
    }
    RunIsCounted(gs, g, 2);
    MaxCountIsMax(gs);
    FloodFromCount(tokens, MaxCount(gs));
  }

  lemma FloodFromCount(tokens: seq<string>, worst: nat)
    requires |tokens| == 42 && worst == MaxCount(Grams(tokens, 4)) && worst >= 37
    ensures Flood(DEFAULTS, tokens)
  {
    hide MaxCount, Grams;
    assert (worst * 4) as real / 42.0 >= 148.0 / 42.0;
  }

  /** The clean text then ends behind "a. ", although "b? " ends nearer to the repetition and
      within reach. */
  lemma CutIsNotNearest()
    ensures DEFAULTS.Usable() && Verdict(DEFAULTS, STUCK).Some?
    ensures MarkLoopStart(DEFAULTS, TextOf(STUCK), 0) == 3
    ensures Occurs(TextOf(STUCK), "? ", Reach(DEFAULTS, TextOf(STUCK)), 4)
    ensures var text := TextOf(STUCK);
            !IsNearest(text, Kinds(), Reach(DEFAULTS, text), MarkLoopStart(DEFAULTS, text, 0))
  {
    StuckFloods();
    StuckText();
    var text := "a. b? " + Drone(40);
    StuckBoundaries(text, Drone(40));
    assert Reach(DEFAULTS, text) == 100;
    MarkLoopStartIs(DEFAULTS, text, 0);
    hide Verdict, Drone, RFind, MarkLoopStart, Occurs, TextOf, Reach;
    assert Kinds()[0] == ". " && Kinds()[3] == "? ";
    assert FirstKind(text, Kinds(), 100) == 0;
  }

  lemma StuckBoundaries(text: string, drone: string)
    requires text == "a. b? " + drone && forall i :: 0 <= i < |drone| ==> drone[i] != '.'
    ensures RFind(text, ". ", 100) == 1 && Occurs(text, "? ", 100, 4)
  {
    assert text[1..3] == ". " && text[4..6] == "? ";
    RFindIsLast(text, ". ", 100, 1);
    var r := RFind(text, ". ", 100);
    hide RFind;
    assert r >= 1 && text[r..r + 2][0] == text[r] == '.';
    forall i | 6 <= i < |text| ensures text[i] != '.' { assert text[i] == drone[i - 6]; }
  }
}
