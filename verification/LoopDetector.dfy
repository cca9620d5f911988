/** `detect_loops` of dgxarley/integration/repetition_detector.py: adjacent exact copies of
    a block, found by a scan that jumps over what it has reported. */
module LoopDetector {
  import opened PyText

  /** `pattern` is the block, cut to 200 characters for display. */
  datatype LoopHit = LoopHit(pattern: string, length: nat, repetitions: nat, start: nat)
  {
    function End(): nat { start + length * repetitions }

    predicate Covers(p: nat) { start <= p < End() }

    /** The other hit's range lies inside this one's. */
    predicate Contains(other: LoopHit) { start <= other.start && other.End() <= End() }
  }

  /** The `k`-th block of length `len` from `start` on equals the first. */
  predicate CopyAt(text: string, start: nat, len: nat, k: nat) {
    var at := start + k * len;
    at + len <= |text| && text[at..at + len] == text[start..start + len]
  }

  lemma NextCopy(start: nat, len: nat, k: nat)
    ensures start + (k + 1) * len == start + k * len + len
  {
  }

  predicate Blank(s: string) {
    forall i :: 0 <= i < |s| ==> IsSpace(s[i])
  }

  /** Exactly `repetitions` adjacent copies, the next block not being another one. */
  ghost predicate IsLoop(text: string, h: LoopHit, minRepetitions: nat) {
    && h.repetitions >= 1 && h.repetitions >= minRepetitions && h.start + h.length <= |text|
    && (forall k :: 0 <= k < h.repetitions ==> CopyAt(text, h.start, h.length, k))
    && !CopyAt(text, h.start, h.length, h.repetitions)
    && !Blank(text[h.start..h.start + h.length])
    && h.pattern == Shown(text[h.start..h.start + h.length])
  }

  function Shown(pattern: string): string {
    if |pattern| > 200 then pattern[..200] + "..." else pattern
  }

  /** At least `minRepetitions` copies of a block that is not blank begin at `p`. */
  ghost predicate Repeats(text: string, p: nat, len: nat, minRepetitions: nat) {
    && p + len <= |text| && !Blank(text[p..p + len])
    && forall k :: 0 <= k < minRepetitions ==> CopyAt(text, p, len, k)
  }

  ghost predicate Covered(hits: seq<LoopHit>, p: nat) {
    exists i :: 0 <= i < |hits| && hits[i].Covers(p)
  }

  /** All hits are loops, and none lies inside an earlier one. */
  ghost predicate Sound(text: string, hits: seq<LoopHit>, minRepetitions: nat) {
    && (forall i :: 0 <= i < |hits| ==> IsLoop(text, hits[i], minRepetitions))
    && (forall i, j :: 0 <= i < j < |hits| ==> !hits[i].Contains(hits[j]))
  }

  /** Every position before `end` where copies of length `len` begin is covered. */
  ghost predicate Complete(text: string, hits: seq<LoopHit>, len: nat, minRepetitions: nat, end: nat) {
    forall p: nat :: p < end && Repeats(text, p, len, minRepetitions) ==> Covered(hits, p)
  }

  // ---- the scan ------------------------------------------------------------------------

  /** Count the copies of the block at `pos`; `checkPos` is the end of the last one. */
  method CountCopies(text: string, pos: nat, plen: nat) returns (reps: nat, checkPos: nat)
    requires plen >= 1 && pos + plen <= |text|
    ensures reps >= 1 && checkPos == pos + plen * reps <= |text|
    ensures forall k :: 0 <= k < reps ==> CopyAt(text, pos, plen, k)
    ensures !CopyAt(text, pos, plen, reps)
  {
    var pattern := text[pos..pos + plen];
    reps, checkPos := 1, pos + plen;
    var going := true;
    while going && checkPos + plen <= |text|
      invariant reps >= 1 && checkPos == pos + reps * plen <= |text|
      invariant forall k :: 0 <= k < reps ==> CopyAt(text, pos, plen, k)
      invariant !going ==> !CopyAt(text, pos, plen, reps)
      decreases |text| - checkPos, going
    {
      NextCopy(pos, plen, reps);
      if text[checkPos..checkPos + plen] == pattern {
        assert CopyAt(text, pos, plen, reps);
        reps := reps + 1;
        checkPos := checkPos + plen;
      } else {
        going := false;
      }
    }
  }

  /** Hits are found by length and then by position, those of one length without overlap; so
      far with lengths below `len`, or with it and before `end`. */
  ghost predicate UpTo(hits: seq<LoopHit>, len: nat, end: nat) {
    && (forall i :: 0 <= i < |hits| ==> hits[i].length < len || (hits[i].length == len && hits[i].End() <= end))
    && (forall i, j :: 0 <= i < j < |hits| ==>
          hits[i].length < hits[j].length || (hits[i].length == hits[j].length && hits[i].End() <= hits[j].start))
  }

  /** `any(s <= loop_start and e >= loop_end for s, e in covered_ranges)` */
  predicate AlreadyCovered(hits: seq<LoopHit>, hit: LoopHit) {
    exists i :: 0 <= i < |hits| && hits[i].Contains(hit)
  }

  /** The scan for one block length. */
  method ScanLength(text: string, plen: nat, minRepetitions: nat, before: seq<LoopHit>) returns (hits: seq<LoopHit>)
    requires Sound(text, before, minRepetitions) && UpTo(before, plen, 0)
    ensures before <= hits && Sound(text, hits, minRepetitions) && UpTo(hits, plen + 1, 0)
    ensures forall i :: |before| <= i < |hits| ==> hits[i].length == plen
    ensures minRepetitions >= 2 ==> Complete(text, hits, plen, minRepetitions, |text| + 1)
  {
    hide IsLoop, CopyAt, Covered, LoopHit.End, LoopHit.Contains, UpTo, Sound;
    hits := before;
    var pos := 0;
    while pos + plen * 2 <= |text|
      invariant before <= hits && Sound(text, hits, minRepetitions) && UpTo(hits, plen, pos)
      invariant forall i :: |before| <= i < |hits| ==> hits[i].length == plen
      invariant Complete(text, hits, plen, minRepetitions, pos)
      decreases |text| - pos
    {
      var pattern := text[pos..pos + plen];
      UpToLater(hits, plen, pos, pos + 1);
      if Blank(pattern) {
        pos := pos + 1;
      } else {
        var reps, checkPos := CountCopies(text, pos, plen);
        if reps >= minRepetitions {
          var hit := LoopHit(Shown(pattern), plen, reps, pos);
          LoopFound(text, hit, minRepetitions, checkPos);
          ghost var was := hits;
          UpToSnoc(hits, hit, checkPos);
          UpToLater(hits, plen, pos, checkPos);
          if !AlreadyCovered(hits, hit) {
            SoundSnoc(text, hits, hit, minRepetitions);
            hits := hits + [hit];
          }
          Jump(text, was, hits, hit, minRepetitions, pos, checkPos);
          pos := checkPos;
        } else {
          TooFew(text, pos, plen, minRepetitions, reps);
          pos := pos + 1;
        }
      }
    }
    UpToNext(hits, plen, pos);
    if minRepetitions >= 2 { NoRoomLeft(text, hits, plen, minRepetitions, pos); }
  }

  lemma UpToLater(hits: seq<LoopHit>, len: nat, end: nat, later: nat)
    requires UpTo(hits, len, end) && end <= later
    ensures UpTo(hits, len, later)
  {
    hide LoopHit.End;
  }

  lemma UpToNext(hits: seq<LoopHit>, len: nat, end: nat)
    requires UpTo(hits, len, end)
    ensures UpTo(hits, len + 1, 0)
  {
    hide LoopHit.End;
  }

  lemma UpToSnoc(hits: seq<LoopHit>, hit: LoopHit, end: nat)
    requires UpTo(hits, hit.length, hit.start) && hit.End() == end
    ensures UpTo(hits + [hit], hit.length, end)
  {
    assert hit.start <= hit.End();
    hide LoopHit.End;
  }

  lemma LoopFound(text: string, hit: LoopHit, minRepetitions: nat, checkPos: nat)
    requires hit.repetitions >= 1 && hit.repetitions >= minRepetitions && hit.start + hit.length <= |text|
    requires forall k :: 0 <= k < hit.repetitions ==> CopyAt(text, hit.start, hit.length, k)
    requires !CopyAt(text, hit.start, hit.length, hit.repetitions)
    requires !Blank(text[hit.start..hit.start + hit.length])
    requires hit.pattern == Shown(text[hit.start..hit.start + hit.length])
    requires checkPos == hit.start + hit.length * hit.repetitions
    ensures IsLoop(text, hit, minRepetitions) && hit.End() == checkPos
  {
  }

  lemma SoundSnoc(text: string, hits: seq<LoopHit>, hit: LoopHit, minRepetitions: nat)
    requires Sound(text, hits, minRepetitions) && IsLoop(text, hit, minRepetitions) && !AlreadyCovered(hits, hit)
    ensures Sound(text, hits + [hit], minRepetitions)
  {
    hide IsLoop, LoopHit.Contains;
  }

  /** Everything jumped over lies in the new hit, or in the earlier one around it. */
  lemma Jump(
    text: string, was: seq<LoopHit>, hits: seq<LoopHit>, hit: LoopHit, minRepetitions: nat, pos: nat, checkPos: nat)
    requires Complete(text, was, hit.length, minRepetitions, pos)
    requires hit.start == pos && hit.End() == checkPos
    requires hits == (if AlreadyCovered(was, hit) then was else was + [hit])
    ensures Complete(text, hits, hit.length, minRepetitions, checkPos)
  {
    hide Repeats;
    forall p: nat | p < checkPos && Repeats(text, p, hit.length, minRepetitions) ensures Covered(hits, p) {
      if p < pos {
        var i :| 0 <= i < |was| && was[i].Covers(p);
        assert hits[i].Covers(p);
      } else if AlreadyCovered(was, hit) {
        var i :| 0 <= i < |was| && was[i].Contains(hit);
        assert hits[i].Covers(p);
      } else {
        assert hits[|was|].Covers(p);
      }
    }
  }

  lemma TooFew(text: string, p: nat, len: nat, minRepetitions: nat, reps: nat)
    requires reps < minRepetitions && !CopyAt(text, p, len, reps)
    ensures !Repeats(text, p, len, minRepetitions)
  {
  }

  lemma NoRoomLeft(text: string, hits: seq<LoopHit>, len: nat, minRepetitions: nat, pos: nat)
    requires minRepetitions >= 2 && pos + len * 2 > |text| && Complete(text, hits, len, minRepetitions, pos)
    ensures Complete(text, hits, len, minRepetitions, |text| + 1)
  {
    hide Covered;
    forall p: nat | Repeats(text, p, len, minRepetitions) ensures p < pos {
      assert CopyAt(text, p, len, 1);
    }
  }

  lemma CompleteGrows(text: string, before: seq<LoopHit>, hits: seq<LoopHit>, len: nat, minRepetitions: nat, end: nat)
    requires before <= hits && Complete(text, before, len, minRepetitions, end)
    ensures Complete(text, hits, len, minRepetitions, end)
  {
    hide Repeats;
    forall p: nat | p < end && Repeats(text, p, len, minRepetitions) ensures Covered(hits, p) {
      var i :| 0 <= i < |before| && before[i].Covers(p);
      assert hits[i].Covers(p);
    }
  }

  // ---- score and order -----------------------------------------------------------------

  /** The characters of all copies but the first. */
  function Wasted(hits: seq<LoopHit>): nat
    requires forall i :: 0 <= i < |hits| ==> hits[i].repetitions >= 1
  {
    if hits == [] then 0 else hits[0].length * (hits[0].repetitions - 1) + Wasted(hits[1..])
  }

  function Size(h: LoopHit): nat { h.length * h.repetitions }

  /** A stable insertion in descending order of size. */
  function Insert(h: LoopHit, sorted: seq<LoopHit>): seq<LoopHit> {
    if sorted == [] || Size(h) >= Size(sorted[0]) then [h] + sorted else [sorted[0]] + Insert(h, sorted[1..])
  }

  /** `hits.sort(key=..., reverse=True)` */
  function SortHits(hits: seq<LoopHit>): seq<LoopHit> {
    if hits == [] then [] else Insert(hits[0], SortHits(hits[1..]))
  }

  predicate Descending(hits: seq<LoopHit>) {
    hits == [] || ((forall h :: h in hits[1..] ==> Size(h) <= Size(hits[0])) && Descending(hits[1..]))
  }

  lemma {:induction false} InsertIsPermutation(h: LoopHit, sorted: seq<LoopHit>)
    ensures multiset(Insert(h, sorted)) == multiset(sorted) + multiset{h}
  {
    hide Size;
    if sorted != [] && Insert(h, sorted) != [h] + sorted {
      InsertIsPermutation(h, sorted[1..]);
      assert sorted == [sorted[0]] + sorted[1..];
    }
  }

  lemma {:induction false} InsertKeepsOrder(h: LoopHit, sorted: seq<LoopHit>)
    requires Descending(sorted)
    ensures Descending(Insert(h, sorted))
  {
    hide Size;
    if sorted == [] || Size(h) >= Size(sorted[0]) {
      assert ([h] + sorted)[1..] == sorted;
    } else {
      var rest := Insert(h, sorted[1..]);
      InsertKeepsOrder(h, sorted[1..]);
      InsertIsPermutation(h, sorted[1..]);
      assert ([sorted[0]] + rest)[1..] == rest;
      forall x | x in rest ensures Size(x) <= Size(sorted[0]) {
        assert x in multiset(rest);
      }
    }
  }

  lemma {:induction false} SortIsSorted(hits: seq<LoopHit>)
    ensures multiset(SortHits(hits)) == multiset(hits) && Descending(SortHits(hits))
  {
    hide Size, Insert, Descending;
    if hits != [] {
      SortIsSorted(hits[1..]);
      InsertIsPermutation(hits[0], SortHits(hits[1..]));
      InsertKeepsOrder(hits[0], SortHits(hits[1..]));
      assert hits == [hits[0]] + hits[1..];
    } else {
      DescendingEmpty();
    }
  }

  lemma DescendingEmpty()
    ensures Descending([])
  {
  }

  // ---- the whole detector --------------------------------------------------------------

  /** The `k`-th length of the range the detector walks through. */
  function LengthAt(minPatternLen: nat, step: nat, k: nat): nat {
    minPatternLen + k * step
  }

  /** Copies of any length in the range are covered by some hit. */
  ghost predicate AllCovered(text: string, hits: seq<LoopHit>, minPatternLen: nat, maxPatternLen: nat,
                             minRepetitions: nat, step: nat)
  {
    forall k: nat, p: nat ::
      (LengthAt(minPatternLen, step, k) <= maxPatternLen
       && Repeats(text, p, LengthAt(minPatternLen, step, k), minRepetitions))
      ==> Covered(hits, p)
  }

  /** `found` is the order of discovery, `hits` the same hits by size. */
  method DetectLoops(text: string, minPatternLen: nat, maxPatternLen: nat, minRepetitions: nat, step: nat)
    returns (score: real, hits: seq<LoopHit>, ghost found: seq<LoopHit>)
    requires step >= 1
    ensures multiset(hits) == multiset(found) && Descending(hits)
    ensures Sound(text, found, minRepetitions)
    ensures minRepetitions >= 2 ==> AllCovered(text, found, minPatternLen, maxPatternLen, minRepetitions, step)
    ensures Tried(found, minPatternLen, maxPatternLen, step) && UpTo(found, maxPatternLen + 1, 0)
    ensures forall i :: 0 <= i < |found| ==> found[i].repetitions >= 1
    ensures score == Score(Wasted(found), |text|)
  {
    var result: seq<LoopHit> := [];
    var plen := minPatternLen;
    ghost var rounds := 0;
    var longest := if maxPatternLen <= |text| / 2 then maxPatternLen else |text| / 2;
    hide *;
    ScanStart(text, minPatternLen, step, minRepetitions);
    while plen <= longest
      invariant plen == LengthAt(minPatternLen, step, rounds)
      invariant Sound(text, result, minRepetitions)
      invariant minRepetitions >= 2 ==> CompleteTo(text, result, minPatternLen, step, minRepetitions, rounds)
      invariant UpTo(result, plen, 0) && Tried(result, minPatternLen, maxPatternLen, step)
      decreases longest - plen
    {
      ghost var before := result;
      result := ScanLength(text, plen, minRepetitions, result);
      if minRepetitions >= 2 {
        CompleteSnoc(text, before, result, minPatternLen, step, minRepetitions, rounds);
      }
      NextLength(minPatternLen, step, rounds);
      TriedMore(before, result, minPatternLen, maxPatternLen, step, rounds);
      plen := plen + step;
      rounds := rounds + 1;
    }
    if minRepetitions >= 2 {
      AllLengthsDone(text, result, minPatternLen, maxPatternLen, minRepetitions, step, rounds);
    }
    AtLeastOnce(text, result, minRepetitions);
    TriedWithin(result, minPatternLen, maxPatternLen, step, plen);
    SortIsSorted(result);
    score := Score(Wasted(result), |text|);
    hits, found := SortHits(result), result;
  }

  /** The share of the text that only repeats, at most 1. */
  function Score(wasted: nat, textLength: nat): (score: real)
    ensures 0.0 <= score <= 1.0
  {
    var ratio := wasted as real / (if textLength > 1 then textLength else 1) as real;
    if ratio <= 1.0 then ratio else 1.0
  }

  /** The first `rounds` lengths are done. */
  ghost predicate CompleteTo(text: string, hits: seq<LoopHit>, minPatternLen: nat, step: nat, minRepetitions: nat,
                             rounds: nat)
  {
    forall k: nat :: k < rounds ==> Complete(text, hits, LengthAt(minPatternLen, step, k), minRepetitions, |text| + 1)
  }

  lemma ScanStart(text: string, minPatternLen: nat, step: nat, minRepetitions: nat)
    ensures Sound(text, [], minRepetitions) && CompleteTo(text, [], minPatternLen, step, minRepetitions, 0)
    ensures LengthAt(minPatternLen, step, 0) == minPatternLen
    ensures UpTo([], minPatternLen, 0) && forall n: nat :: Tried([], minPatternLen, n, step)
  {
  }

  /** All hits have lengths of the range. */
  ghost predicate Tried(hits: seq<LoopHit>, minPatternLen: nat, maxPatternLen: nat, step: nat) {
    forall i :: 0 <= i < |hits| ==> InRange(hits[i].length, minPatternLen, maxPatternLen, step)
  }

  ghost predicate InRange(length: nat, minPatternLen: nat, maxPatternLen: nat, step: nat) {
    length <= maxPatternLen && exists k: nat :: length == LengthAt(minPatternLen, step, k)
  }

  lemma TriedMore(before: seq<LoopHit>, hits: seq<LoopHit>, minPatternLen: nat, maxPatternLen: nat, step: nat, k: nat)
    requires before <= hits && Tried(before, minPatternLen, maxPatternLen, step) && step >= 1
    requires LengthAt(minPatternLen, step, k) <= maxPatternLen && UpTo(hits, LengthAt(minPatternLen, step, k) + 1, 0)
    requires forall i :: |before| <= i < |hits| ==> hits[i].length == LengthAt(minPatternLen, step, k)
    ensures Tried(hits, minPatternLen, maxPatternLen, step) && UpTo(hits, LengthAt(minPatternLen, step, k) + step, 0)
  {
    hide LengthAt, LoopHit.End;
    assert InRange(LengthAt(minPatternLen, step, k), minPatternLen, maxPatternLen, step);
    hide InRange;
    WiderUpTo(hits, LengthAt(minPatternLen, step, k) + 1, LengthAt(minPatternLen, step, k) + step);
  }

  lemma WiderUpTo(hits: seq<LoopHit>, len: nat, more: nat)
    requires UpTo(hits, len, 0) && len <= more
    ensures UpTo(hits, more, 0)
  {
    hide LoopHit.End;
  }

  lemma TriedWithin(hits: seq<LoopHit>, minPatternLen: nat, maxPatternLen: nat, step: nat, len: nat)
    requires Tried(hits, minPatternLen, maxPatternLen, step) && UpTo(hits, len, 0)
    ensures UpTo(hits, maxPatternLen + 1, 0)
  {
    hide LoopHit.End;
    forall i | 0 <= i < |hits| ensures hits[i].length < maxPatternLen + 1 {
      assert InRange(hits[i].length, minPatternLen, maxPatternLen, step);
    }
  }

  lemma NextLength(minPatternLen: nat, step: nat, k: nat)
    ensures LengthAt(minPatternLen, step, k + 1) == LengthAt(minPatternLen, step, k) + step
  {
  }

  lemma CompleteSnoc(text: string, before: seq<LoopHit>, hits: seq<LoopHit>, minPatternLen: nat, step: nat,
                     minRepetitions: nat, rounds: nat)
    requires before <= hits && CompleteTo(text, before, minPatternLen, step, minRepetitions, rounds)
    requires Complete(text, hits, LengthAt(minPatternLen, step, rounds), minRepetitions, |text| + 1)
    ensures CompleteTo(text, hits, minPatternLen, step, minRepetitions, rounds + 1)
  {
    hide Complete, LengthAt;
    forall k: nat | k < rounds
      ensures Complete(text, hits, LengthAt(minPatternLen, step, k), minRepetitions, |text| + 1)
    {
      CompleteGrows(text, before, hits, LengthAt(minPatternLen, step, k), minRepetitions, |text| + 1);
    }
  }

  lemma AllLengthsDone(text: string, hits: seq<LoopHit>, minPatternLen: nat, maxPatternLen: nat, minRepetitions: nat,
                       step: nat, rounds: nat)
    requires minRepetitions >= 2 && CompleteTo(text, hits, minPatternLen, step, minRepetitions, rounds)
    requires LengthAt(minPatternLen, step, rounds) > maxPatternLen || LengthAt(minPatternLen, step, rounds) > |text| / 2
    ensures AllCovered(text, hits, minPatternLen, maxPatternLen, minRepetitions, step)
  {
    hide Repeats, Covered, LengthAt;
    forall k: nat, p: nat | LengthAt(minPatternLen, step, k) <= maxPatternLen
                            && Repeats(text, p, LengthAt(minPatternLen, step, k), minRepetitions)
      ensures Covered(hits, p)
    {
      TwoCopiesFit(text, p, LengthAt(minPatternLen, step, k), minRepetitions);
      LengthsGrow(minPatternLen, step, rounds, k);
      assert Complete(text, hits, LengthAt(minPatternLen, step, k), minRepetitions, |text| + 1);
    }
  }

  lemma LengthsGrow(minPatternLen: nat, step: nat, j: nat, k: nat)
    ensures j <= k ==> LengthAt(minPatternLen, step, j) <= LengthAt(minPatternLen, step, k)
  {
    if j <= k { assert j * step <= k * step; }
  }

  lemma TwoCopiesFit(text: string, p: nat, len: nat, minRepetitions: nat)
    requires minRepetitions >= 2 && Repeats(text, p, len, minRepetitions)
    ensures len <= |text| / 2 && p <= |text|
  {
    assert CopyAt(text, p, len, 1);
  }

  lemma AtLeastOnce(text: string, hits: seq<LoopHit>, minRepetitions: nat)
    requires Sound(text, hits, minRepetitions)
    ensures forall i :: 0 <= i < |hits| ==> hits[i].repetitions >= 1
  {
  }

  // ---- what order and score mean -------------------------------------------------------

  /** The largest number of characters first, and all in the order of discovery otherwise. */
  lemma {:induction false} DescendingMeans(hits: seq<LoopHit>, i: nat, j: nat)
    requires Descending(hits) && i < j < |hits|
    ensures hits[i].length * hits[i].repetitions >= hits[j].length * hits[j].repetitions
    decreases i
  {
    if i > 0 { DescendingMeans(hits[1..], i - 1, j - 1); } else { assert hits[j] in hits[1..]; }
  }

  /** The hits of one size. */
  function OfSize(hits: seq<LoopHit>, size: nat): seq<LoopHit> {
    if hits == [] then [] else (if Size(hits[0]) == size then [hits[0]] else []) + OfSize(hits[1..], size)
  }

  function One(h: LoopHit, size: nat): seq<LoopHit> { if Size(h) == size then [h] else [] }

  lemma OfSizeCons(h: LoopHit, hits: seq<LoopHit>, size: nat)
    ensures OfSize([h] + hits, size) == One(h, size) + OfSize(hits, size)
  {
    hide Size;
    assert ([h] + hits)[1..] == hits;
  }

  lemma OnesCommute(g: LoopHit, h: LoopHit, size: nat, rest: seq<LoopHit>)
    requires Size(g) != Size(h)
    ensures One(g, size) + (One(h, size) + rest) == One(h, size) + (One(g, size) + rest)
  {
    hide Size;
  }

  lemma {:induction false} InsertIsStable(h: LoopHit, sorted: seq<LoopHit>, size: nat)
    ensures OfSize(Insert(h, sorted), size) == OfSize([h] + sorted, size)
  {
    if sorted != [] && Size(h) < Size(sorted[0]) {
      var rest := sorted[1..];
      assert Insert(h, sorted) == [sorted[0]] + Insert(h, rest) && sorted == [sorted[0]] + rest;
      hide *;
      InsertIsStable(h, rest, size);
      OfSizeCons(sorted[0], Insert(h, rest), size);
      OfSizeCons(h, rest, size);
      OfSizeCons(h, sorted, size);
      OfSizeCons(sorted[0], rest, size);
      OnesCommute(sorted[0], h, size, OfSize(rest, size));
    }
  }

  /** Sorting keeps hits of the same size in their order. */
  lemma {:induction false} SortIsStable(hits: seq<LoopHit>, size: nat)
    ensures OfSize(SortHits(hits), size) == OfSize(hits, size)
  {
    hide Size, Insert, Descending;
    if hits != [] {
      SortIsStable(hits[1..], size);
      SortIsSorted(hits[1..]);
      InsertIsStable(hits[0], SortHits(hits[1..]), size);
      assert ([hits[0]] + SortHits(hits[1..]))[1..] == SortHits(hits[1..]);
    }
  }

  /** What is shown of a block: all of it, or 200 characters and three dots. */
  lemma ShownMeans(pattern: string)
    ensures |pattern| <= 200 ==> Shown(pattern) == pattern
    ensures |pattern| > 200 ==> 
              |Shown(pattern)| == 203 && pattern[..200] <= Shown(pattern) && Shown(pattern)[200..] == "..."
  {
  }

  /** Wasted are all characters of the hits but those of one copy each. */
  lemma {:induction false} WastedAddsUp(a: seq<LoopHit>, b: seq<LoopHit>)
    requires forall i :: 0 <= i < |a| ==> a[i].repetitions >= 1
    requires forall i :: 0 <= i < |b| ==> b[i].repetitions >= 1
    ensures forall i :: 0 <= i < |a + b| ==> (a + b)[i].repetitions >= 1
    ensures Wasted(a + b) == Wasted(a) + Wasted(b)
  {
    if a == [] {
      assert a + b == b;
    } else {
      WastedAddsUp(a[1..], b);
      assert a + b == [a[0]] + (a[1..] + b);
      assert (a + b)[1..] == a[1..] + b && (a + b)[0] == a[0];
    }
  }

  lemma WastedByOne(h: LoopHit)
    requires h.repetitions >= 1
    ensures Wasted([h]) + h.length == (h.End() - h.start)
  {
    assert [h][1..] == [];
    assert h.length * h.repetitions == h.length * (h.repetitions - 1) + h.length;
  }

  /** The score is their share of the text, at most 1. */
  lemma ScoreMeans(wasted: nat, textLength: nat)
    ensures wasted >= textLength && wasted >= 1 ==> Score(wasted, textLength) == 1.0
    ensures wasted < textLength ==> Score(wasted, textLength) * textLength as real == wasted as real
    ensures wasted == 0 ==> Score(wasted, textLength) == 0.0
  {
    var n := if textLength > 1 then textLength else 1;
    Ratio(wasted as real, n as real);
    assert wasted < textLength ==> n == textLength;
    assert wasted >= 1 && wasted >= textLength ==> wasted >= n;
  }

  lemma Ratio(x: real, y: real)
    requires y > 0.0
    ensures (x / y) * y == x && (x >= y ==> x / y >= 1.0) && (x < y ==> x / y < 1.0) && (x == 0.0 ==> x / y == 0.0)
  {
    var q := x / y;
    assert q * y == x;
    Factor(q, y);
  }

  lemma Factor(q: real, y: real)
    requires y > 0.0
    ensures (q < 1.0 ==> q * y < y) && (q >= 1.0 ==> q * y >= y)
  {
    assert q * y - y == (q - 1.0) * y;
  }
}
