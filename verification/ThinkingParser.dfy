/** dgxarley/integration/thinking_parser.py: the streaming splitter of
    `<think>...</think>` text.

    `Scan` reads a whole text at once; `ThinkingParser` is the incremental class with
    its partial-tag buffer. `ChunkInvariance` says that the cutting of the stream into
    chunks is invisible. */
module ThinkingParsing {
  import opened Text

  const OPEN := "<think>"
  const CLOSE := "</think>"

  /** The tag the parser looks for. */
  function Tag(inThinking: bool): string {
    if inThinking then CLOSE else OPEN
  }

  /** What one pass over some text produced, and the state it ended in. */
  datatype Outcome = Outcome(thinking: string, content: string, inThinking: bool, pending: string,
                             opens: nat, closes: nat)

  /** Route `s` in front of `o`'s output. */
  function Emit(inThinking: bool, s: string, o: Outcome): Outcome {
    if inThinking then o.(thinking := s + o.thinking) else o.(content := s + o.content)
  }

  /** Count the tag that ends a stretch of mode `inThinking`. */
  function Count(inThinking: bool, o: Outcome): Outcome {
    if inThinking then o.(closes := o.closes + 1) else o.(opens := o.opens + 1)
  }

  /** Sequential composition: `o` followed by what came out of the rest. */
  function Then(o: Outcome, rest: Outcome): Outcome {
    Outcome(o.thinking + rest.thinking, o.content + rest.content, rest.inThinking, rest.pending,
            o.opens + rest.opens, o.closes + rest.closes)
  }

  /** The longest length `k <= trim` such that `s` ends in the first `k` characters of `tag`. */
  function Held(s: string, tag: string, trim: nat): (k: nat)
    requires trim <= |tag|
    ensures k <= trim && EndsWith(s, tag[..k])
    ensures forall j: nat :: k < j <= trim ==> !EndsWith(s, tag[..j])
  {
    if trim == 0 || EndsWith(s, tag[..trim]) then trim else Held(s, tag, trim - 1)
  }

  lemma HeldUnique(s: string, tag: string, trim: nat, k: nat)
    requires k <= trim <= |tag| && EndsWith(s, tag[..k])
    requires forall j: nat :: k < j <= trim ==> !EndsWith(s, tag[..j])
    ensures Held(s, tag, trim) == k
  {
    var h := Held(s, tag, trim);
    assert EndsWith(s, tag[..h]) && h <= trim;
  }

  /** The end of a text without another tag: all of it is output, except a tail that may
      be the beginning of the tag. */
  function Flush(inThinking: bool, s: string): Outcome {
    var k := Tail(s, Tag(inThinking));
    Emit(inThinking, s[..|s| - k], Outcome("", "", inThinking, s[|s| - k..], 0, 0))
  }

  /** Reads a whole text in one go: the text is cut at the leftmost tag of the current mode. */
  function Scan(inThinking: bool, s: string): Outcome
    decreases |s|
  {
    var i := Find(s, Tag(inThinking), 0);
    if i < 0 then Flush(inThinking, s)
    else Emit(inThinking, s[..i], Count(inThinking, Scan(!inThinking, s[i + |Tag(inThinking)|..])))
  }

  // ---- one tag and the text around it --------------------------------------------------

  /** `<` only in front, `>` only at the end. */
  ghost predicate TagLike(tag: string) {
    && |tag| >= 2
    && (forall i :: 0 <= i < |tag| ==> (tag[i] == '<' <==> i == 0))
    && (forall i :: 0 <= i < |tag| ==> (tag[i] == '>' <==> i == |tag| - 1))
  }

  lemma TagShape(inThinking: bool)
    ensures TagLike(Tag(inThinking))
  {
  }

  /** Number of characters at the end of `s` that may still become the tag. */
  function Tail(s: string, tag: string): (k: nat)
    requires |tag| >= 1
    ensures k <= |s| && k < |tag|
  {
    Held(s, tag, |tag| - 1)
  }

  /** An occurrence of the tag that starts in `s` and runs past it begins in the held tail. */
  lemma StraddleIsHeld(s: string, t: string, tag: string, p: nat)
    requires |tag| >= 1 && p < |s| < p + |tag| && At(s + t, p, tag)
    ensures |s| - p <= Tail(s, tag)
  {
    var k := |s| - p;
    assert s[p..] == (s + t)[p..p + |tag|][..k];
    assert EndsWith(s, tag[..k]);
  }

  /** No occurrence of the tag begins in front of the held tail. */
  lemma NoneBeforeTail(s: string, t: string, tag: string, p: nat)
    requires |tag| >= 1 && Find(s, tag, 0) < 0 && p < |s| - Tail(s, tag)
    ensures !At(s + t, p, tag)
  {
    FindIsFirst(s, tag, 0);
    hide Find, Tail;
    if p + |tag| <= |s| {
      AtInPrefix(s, t, p, tag);
    } else if At(s + t, p, tag) {
      StraddleIsHeld(s, t, tag, p);
    }
  }

  /** What is in front of the held tail plays no role for the next search... */
  lemma FindAfterFlush(s: string, t: string, tag: string)
    requires |tag| >= 1 && Find(s, tag, 0) < 0
    ensures var e := |s| - Tail(s, tag);
            Find(s + t, tag, 0) == (var j := Find(s[e..] + t, tag, 0); if j < 0 then -1 else e + j)
  {
    hide At, Find, Tail;
    var e := |s| - Tail(s, tag);
    FindIsFirst(s + t, tag, e);
    forall p: nat | p < e ensures !At(s + t, p, tag) { NoneBeforeTail(s, t, tag, p); }
    FindUnique(s + t, tag, 0, Find(s + t, tag, e));
    assert (s + t)[e..] == s[e..] + t;
    FindInSuffix(s + t, tag, e);
  }

  /** ...nor for the next tail. */
  lemma TailAfterFlush(s: string, t: string, tag: string)
    requires |tag| >= 1
    ensures Tail(s + t, tag) == Tail(s[|s| - Tail(s, tag)..] + t, tag)
  {
    var e := |s| - Tail(s, tag);
    var u := s[e..] + t;
    assert (s + t)[e..] == u;
    var h := Tail(u, tag);
    EndsWithInSuffix(s + t, e, tag[..h]);
    forall j: nat | h < j <= |tag| - 1 ensures !EndsWith(s + t, tag[..j]) {
      if j <= |u| {
        EndsWithInSuffix(s + t, e, tag[..j]);
      } else if EndsWith(s + t, tag[..j]) {
        HeldThroughAppend(s, t, tag, j);
      }
    }
    HeldUnique(s + t, tag, |tag| - 1, h);
  }

  lemma HeldThroughAppend(s: string, t: string, tag: string, j: nat)
    requires |t| <= j <= |tag| - 1 && EndsWith(s + t, tag[..j])
    ensures j - |t| <= Tail(s, tag)
  {
    var l := j - |t|;
    assert s[|s| - l..] == (s + t)[|s + t| - j..][..l] == tag[..j][..l] == tag[..l];
    assert EndsWith(s, tag[..l]);
  }

  /** A tag found in `s` is still the first one in `s + t`. */
  lemma FindInPrefix(s: string, t: string, tag: string)
    requires Find(s, tag, 0) >= 0
    ensures Find(s + t, tag, 0) == Find(s, tag, 0)
  {
    var i := Find(s, tag, 0);
    FindIsFirst(s, tag, 0);
    AtInPrefix(s, t, i, tag);
    forall j: nat | j < i ensures !At(s + t, j, tag) {
      AtInPrefix(s, t, j, tag);
    }
    FindUnique(s + t, tag, 0, i);
  }

  /** Reading `s + t` is reading `s`, and then `t` behind what `s` left pending. */
  lemma {:induction false} ScanAppend(m: bool, s: string, t: string)
    ensures Scan(m, s + t) == Then(Scan(m, s), Scan(Scan(m, s).inThinking, Scan(m, s).pending + t))
    decreases |s|
  {
    hide Scan, Find, Tag;
    var i := Find(s, Tag(m), 0);
    if i < 0 {
      ScanAppendFlushed(m, s, t);
    } else {
      var r := s[i + |Tag(m)|..];
      FindInPrefix(s, t, Tag(m));
      ScanFound(m, s, i);
      ScanFound(m, s + t, i);
      assert (s + t)[..i] == s[..i] && (s + t)[i + |Tag(m)|..] == r + t;
      ScanAppend(!m, r, t);
      EmitThen(m, s[..i], Count(m, Scan(!m, r)), Scan(Scan(m, s).inThinking, Scan(m, s).pending + t));
    }
  }

  lemma ScanAppendFlushed(m: bool, s: string, t: string)
    requires Find(s, Tag(m), 0) < 0
    ensures Scan(m, s + t) == Then(Scan(m, s), Scan(Scan(m, s).inThinking, Scan(m, s).pending + t))
  {
    var tag := Tag(m);
    var e := |s| - Tail(s, tag);
    var u := s[e..] + t;
    assert Scan(m, s) == Emit(m, s[..e], Outcome("", "", m, s[e..], 0, 0));
    assert Scan(m, s + t) == Emit(m, s[..e], Scan(m, u)) by {
      ScanBehindTail(s, t, m, e);
    }
    EmitIdle(m, s[..e], s[e..], Scan(m, u));
  }

  lemma ScanBehindTail(s: string, t: string, m: bool, e: nat)
    requires Find(s, Tag(m), 0) < 0 && e == |s| - Tail(s, Tag(m))
    ensures Scan(m, s + t) == Emit(m, s[..e], Scan(m, s[e..] + t))
  {
    var tag, u := Tag(m), s[e..] + t;
    assert s + t == s[..e] + u;
    FindAfterFlush(s, t, tag);
    TailAfterFlush(s, t, tag);
    if Find(u, tag, 0) >= 0 {
      ScanFoundBehind(m, s[..e], u, Find(u, tag, 0));
    } else {
      ScanFlushedBehind(m, s[..e], u);
    }
  }

  lemma ScanFound(m: bool, s: string, j: nat)
    requires Find(s, Tag(m), 0) == j
    ensures |Tag(m)| > 0
    ensures Scan(m, s) == Emit(m, s[..j], Count(m, Scan(!m, s[j + |Tag(m)|..])))
  {
  }

  lemma ScanFlushed(m: bool, s: string)
    requires Find(s, Tag(m), 0) < 0
    ensures var e := |s| - Tail(s, Tag(m)); Scan(m, s) == Emit(m, s[..e], Outcome("", "", m, s[e..], 0, 0))
  {
  }

  lemma ScanFoundBehind(m: bool, a: string, u: string, j: nat)
    requires Find(u, Tag(m), 0) == j && Find(a + u, Tag(m), 0) == |a| + j
    ensures Scan(m, a + u) == Emit(m, a, Scan(m, u))
  {
    hide Scan, Find, Tag;
    ScanFound(m, u, j);
    ScanFound(m, a + u, |a| + j);
    var n := j + |Tag(m)|;
    var rest := Count(m, Scan(!m, u[n..]));
    assert (a + u)[..|a| + j] == a + u[..j];
    assert (a + u)[|a| + n..] == u[n..];
    EmitTwice(m, a, u[..j], rest);
  }

  lemma ScanFlushedBehind(m: bool, a: string, u: string)
    requires Find(u, Tag(m), 0) < 0 && Find(a + u, Tag(m), 0) < 0
    requires Tail(a + u, Tag(m)) == Tail(u, Tag(m))
    ensures Scan(m, a + u) == Emit(m, a, Scan(m, u))
  {
    var h := |u| - Tail(u, Tag(m));
    assert (a + u)[..|a| + h] == a + u[..h] && (a + u)[|a| + h..] == u[h..];
    EmitTwice(m, a, u[..h], Outcome("", "", m, u[h..], 0, 0));
  }

  lemma EmitThen(m: bool, a: string, o: Outcome, rest: Outcome)
    ensures Emit(m, a, Then(o, rest)) == Then(Emit(m, a, o), rest)
  {
    assert a + (o.thinking + rest.thinking) == (a + o.thinking) + rest.thinking;
    assert a + (o.content + rest.content) == (a + o.content) + rest.content;
  }

  lemma EmitTwice(m: bool, a: string, b: string, o: Outcome)
    ensures Emit(m, a + b, o) == Emit(m, a, Emit(m, b, o))
  {
    assert (a + b) + o.thinking == a + (b + o.thinking);
    assert (a + b) + o.content == a + (b + o.content);
  }

  /** Append `a` to the output of mode `m`. */
  function Route(acc: Outcome, m: bool, a: string): Outcome {
    if m then acc.(thinking := acc.thinking + a) else acc.(content := acc.content + a)
  }

  lemma RouteEmit(acc: Outcome, m: bool, a: string, o: Outcome)
    ensures Then(acc, Emit(m, a, o)) == Then(Route(acc, m, a), o)
    ensures Then(acc, Count(m, o)) == Then(Count(m, acc), o)
  {
    assert acc.thinking + (a + o.thinking) == (acc.thinking + a) + o.thinking;
    assert acc.content + (a + o.content) == (acc.content + a) + o.content;
  }

  /** Python's `s[i:j]`. */
  function Slice(s: string, i: nat, j: nat): string
    requires i <= j <= |s|
  {
    s[i..j]
  }

  function Finish(acc: Outcome, m: bool, pending: string): Outcome {
    acc.(inThinking := m, pending := pending)
  }

  /** The parse loop's invariant: `acc` followed by what is still to be read at `pos` is
      the reading of the whole buffer; once the tail is flushed, `acc` is all of it. */
  ghost predicate Halfway(start: bool, buf: string, acc: Outcome, m: bool, pos: nat, flushed: bool) {
    && pos <= |buf|
    && if flushed then pos == |buf| && Scan(start, buf) == acc
       else (pos == 0 || buf[pos - 1] == '>') && Scan(start, buf) == Then(acc, Scan(m, buf[pos..]))
  }

  lemma ParseStart(m: bool, buf: string)
    ensures Halfway(m, buf, Outcome("", "", m, "", 0, 0), m, 0, false)
  {
    assert buf[0..] == buf;
    ThenFromNothing(m, Scan(m, buf));
  }

  /** The turn of the parse loop that finds no tag; `e` is where the held tail begins. */
  lemma FlushTurn(start: bool, buf: string, acc: Outcome, m: bool, pos: nat, e: nat)
    requires Halfway(start, buf, acc, m, pos, false) && pos < |buf|
    requires Find(buf, Tag(m), pos) < 0 && e == |buf| - Tail(buf, Tag(m))
    ensures pos <= e
    ensures Halfway(start, buf, Finish(Route(acc, m, Slice(buf, pos, e)), m, Slice(buf, e, |buf|)), m, |buf|, true)
  {
    hide Scan, Find, Tag, Tail;
    TagShape(m);
    assert Tail(buf, Tag(m)) == Tail(buf[pos..], Tag(m)) by {
      assert buf[0..] == buf;
      if pos > 0 { TailStopsAtCloser(buf, Tag(m), pos); }
    }
    FindInSuffix(buf, Tag(m), pos);
    ScanFlushed(m, buf[pos..]);
    assert buf[pos..][..e - pos] == buf[pos..e];
    assert buf[pos..][e - pos..] == buf[e..] == buf[e..|buf|];
    RouteEmit(acc, m, buf[pos..e], Outcome("", "", m, buf[e..], 0, 0));
  }

  /** The turn that finds one at `i`; `next` is where it ends. */
  lemma FoundTurn(start: bool, buf: string, acc: Outcome, m: bool, pos: nat, i: nat, next: nat)
    requires Halfway(start, buf, acc, m, pos, false) && i == Find(buf, Tag(m), pos) && next == i + |Tag(m)|
    ensures pos <= i < next <= |buf|
    ensures Halfway(start, buf, Count(m, Route(acc, m, Slice(buf, pos, i))), !m, next, false)
  {
    hide Scan, Find, Tag, Tail;
    TagShape(m);
    FindInSuffix(buf, Tag(m), pos);
    FindIsFirst(buf, Tag(m), pos);
    ScanFound(m, buf[pos..], i - pos);
    assert buf[pos..][..i - pos] == buf[pos..i];
    assert buf[pos..][i - pos + |Tag(m)|..] == buf[next..];
    assert buf[next - 1] == buf[i..next][|Tag(m)| - 1] == Tag(m)[|Tag(m)| - 1];
    RouteEmit(acc, m, buf[pos..i], Count(m, Scan(!m, buf[next..])));
    RouteEmit(Route(acc, m, buf[pos..i]), m, "", Scan(!m, buf[next..]));
  }

  lemma ParseEnd(start: bool, buf: string, acc: Outcome, m: bool, flushed: bool)
    requires Halfway(start, buf, acc, m, |buf|, flushed)
    ensures Scan(start, buf) == if flushed then acc else Finish(acc, m, "")
  {
    assert buf[|buf|..] == "";
    EmptyIsIdle(m);
    assert acc.thinking + "" == acc.thinking && acc.content + "" == acc.content;
  }

  lemma ThenFromNothing(m: bool, o: Outcome)
    ensures Then(Outcome("", "", m, "", 0, 0), o) == o
  {
    assert "" + o.thinking == o.thinking && "" + o.content == o.content;
  }

  lemma EmptyIsIdle(m: bool)
    ensures Idle(m, "") && Scan(m, "") == Outcome("", "", m, "", 0, 0)
  {
  }

  lemma EmitIdle(m: bool, a: string, pending: string, o: Outcome)
    ensures Emit(m, a, o) == Then(Emit(m, a, Outcome("", "", m, pending, 0, 0)), o)
  {
    assert "" + o.content == o.content && "" + o.thinking == o.thinking && a + "" == a;
  }

  /** A proper tag prefix holds no `>`, so a tail cannot reach back over one. */
  lemma TailStopsAtCloser(s: string, tag: string, pos: nat)
    requires TagLike(tag) && 0 < pos <= |s| && s[pos - 1] == '>'
    ensures Tail(s, tag) == Tail(s[pos..], tag)
  {
    forall j: nat | j <= |tag| - 1 ensures EndsWith(s, tag[..j]) == EndsWith(s[pos..], tag[..j]) {
      if j <= |s| - pos {
        EndsWithInSuffix(s, pos, tag[..j]);
      } else if j <= |s| {
        var i := pos - 1 - (|s| - j);
        assert s[|s| - j..][i] != tag[..j][i];
      }
    }
    HeldUnique(s, tag, |tag| - 1, Tail(s[pos..], tag));
  }

  // ---- main results --------------------------------------------------------------------

  /** What the parser keeps back is always the longest beginning of the awaited tag that
      the whole text read so far ends in. */
  lemma {:induction false} PendingIsLongestTagPrefix(m: bool, s: string)
    ensures var o := Scan(m, s);
            var tag := Tag(o.inThinking);
            && |o.pending| < |tag| && o.pending == tag[..|o.pending|]
            && EndsWith(s, o.pending)
            && forall k: nat :: |o.pending| < k < |tag| ==> !EndsWith(s, tag[..k])
    decreases |s|
  {
    PendingIsTail(m, s);
    var tag := Tag(Scan(m, s).inThinking);
    assert EndsWith(s, tag[..Tail(s, tag)]);
  }

  lemma {:induction false} PendingIsTail(m: bool, s: string)
    ensures var k := Tail(s, Tag(Scan(m, s).inThinking)); Scan(m, s).pending == s[|s| - k..]
    decreases |s|
  {
    hide Scan, Find, Tag, Tail;
    TagShape(m);
    var j := Find(s, Tag(m), 0);
    if j < 0 {
      ScanFlushed(m, s);
    } else {
      FindIsFirst(s, Tag(m), 0);
      var n := j + |Tag(m)|;
      var o := Scan(!m, s[n..]);
      ScanFound(m, s, j);
      PendingIsTail(!m, s[n..]);
      TagShape(o.inThinking);
      assert At(s, j, Tag(m));
      assert s[n - 1] == s[j..n][|Tag(m)| - 1] == Tag(m)[|Tag(m)| - 1] == '>';
      assert s[n..][|s[n..]| - Tail(s[n..], Tag(o.inThinking))..] == s[|s| - Tail(s[n..], Tag(o.inThinking))..];
      TailStopsAtCloser(s, Tag(o.inThinking), n);
    }
  }

  /** The state of a parser between two chunks: reading nothing more changes nothing. */
  ghost predicate Idle(m: bool, pending: string) {
    Scan(m, pending) == Outcome("", "", m, pending, 0, 0)
  }

  lemma PendingIsIdle(m: bool, s: string)
    ensures Idle(Scan(m, s).inThinking, Scan(m, s).pending)
  {
    ScanAppend(m, s, "");
    var o := Scan(m, s);
    var r := Scan(o.inThinking, o.pending + "");
    assert s + "" == s && o.pending + "" == o.pending;
    assert |o.thinking + r.thinking| == |o.thinking| && |o.content + r.content| == |o.content|;
  }

  function Concat(chunks: seq<string>): string {
    if chunks == [] then "" else chunks[0] + Concat(chunks[1..])
  }

  /** Feed after feed: every chunk is read behind what the one before left pending. */
  function ScanChunks(m: bool, pending: string, chunks: seq<string>): Outcome
    decreases |chunks|
  {
    if chunks == [] then Outcome("", "", m, pending, 0, 0)
    else
      var o := Scan(m, pending + chunks[0]);
      Then(o, ScanChunks(o.inThinking, o.pending, chunks[1..]))
  }

  /** How the stream was cut into chunks cannot be seen: output, mode, buffer and the tags
      counted are those of reading the whole text at once. */
  lemma {:induction false} ChunkInvariance(m: bool, pending: string, chunks: seq<string>)
    requires Idle(m, pending)
    ensures ScanChunks(m, pending, chunks) == Scan(m, pending + Concat(chunks))
    decreases |chunks|
  {
    hide Scan;
    if chunks == [] {
      assert pending + "" == pending;
    } else {
      var s, rest := pending + chunks[0], Concat(chunks[1..]);
      var o := Scan(m, s);
      PendingIsIdle(m, s);
      ChunkInvariance(o.inThinking, o.pending, chunks[1..]);
      ScanAppend(m, s, rest);
      assert s + rest == pending + Concat(chunks);
    }
  }

  /** No character is lost or invented: each is output, pending, or part of a removed tag. */
  lemma {:induction false} Conservation(m: bool, s: string)
    ensures var o := Scan(m, s);
            && |s| == |o.thinking| + |o.content| + |o.pending| + 7 * o.opens + 8 * o.closes
            && o.opens == o.closes + (if o.inThinking then 1 else 0) - (if m then 1 else 0)
    decreases |s|
  {
    hide Find;
    var j := Find(s, Tag(m), 0);
    if j < 0 {
      ScanFlushed(m, s);
    } else {
      ScanFound(m, s, j);
      Conservation(!m, s[j + |Tag(m)|..]);
    }
  }

  // ---- segments: printing and reading back ---------------------------------------------

  /** The text cut at its tags, alternating between the modes. */
  function Segments(m: bool, s: string): (r: seq<string>)
    ensures |r| >= 1
    decreases |s|
  {
    var i := Find(s, Tag(m), 0);
    if i < 0 then [s] else [s[..i]] + Segments(!m, s[i + |Tag(m)|..])
  }

  /** The text that has these segments: a tag between each two of them. */
  function Print(m: bool, segs: seq<string>): string
    requires |segs| >= 1
    decreases |segs|
  {
    if |segs| == 1 then segs[0] else segs[0] + Tag(m) + Print(!m, segs[1..])
  }

  /** No segment holds the tag that would end it. */
  ghost predicate Separated(m: bool, segs: seq<string>)
    decreases |segs|
  {
    segs == [] || (!Contains(segs[0], Tag(m)) && Separated(!m, segs[1..]))
  }

  /** All text of the mode `want` in an alternation that begins in mode `m`. */
  function Select(want: bool, m: bool, segs: seq<string>): string
    decreases |segs|
  {
    if segs == [] then "" else (if want == m then segs[0] else "") + Select(want, !m, segs[1..])
  }

  lemma NotContains(s: string, t: string)
    ensures Contains(s, t) == (Find(s, t, 0) >= 0)
  {
    var i := Find(s, t, 0);
    FindIsFirst(s, t, 0);
    if i >= 0 { assert At(s, i, t); }
  }

  lemma {:induction false} PrintSegments(m: bool, s: string)
    ensures Print(m, Segments(m, s)) == s && Separated(m, Segments(m, s))
    decreases |s|
  {
    var tag := Tag(m);
    var i := Find(s, tag, 0);
    FindIsFirst(s, tag, 0);
    if i < 0 {
      NotContains(s, tag);
      assert Separated(!m, [s][1..]);
    } else {
      var rest := Segments(!m, s[i + |tag|..]);
      PrintSegments(!m, s[i + |tag|..]);
      assert Segments(m, s)[1..] == rest;
      assert s == s[..i] + tag + s[i + |tag|..] by { assert s[i..i + |tag|] == tag; }
      assert s == s[..i] + s[i..];
      forall p: nat | p + |tag| <= i ensures !At(s[..i], p, tag) {
        AtInPrefix(s[..i], s[i..], p, tag);
      }
    }
  }

  /** Printing then reading gives the segments back: no tag arises across a seam. */
  lemma {:induction false} SegmentsPrint(m: bool, segs: seq<string>)
    requires |segs| >= 1 && Separated(m, segs)
    ensures Segments(m, Print(m, segs)) == segs
    decreases |segs|
  {
    NotContains(segs[0], Tag(m));
    if |segs| > 1 {
      var tag, rest := Tag(m), Print(!m, segs[1..]);
      var s := segs[0] + tag + rest;
      SegmentsPrint(!m, segs[1..]);
      FirstTagEndsSegment(segs[0], rest, m);
      assert s[..|segs[0]|] == segs[0] && s[|segs[0]| + |tag|..] == rest;
      assert segs == [segs[0]] + segs[1..];
    }
  }

  lemma FirstTagEndsSegment(seg: string, rest: string, m: bool)
    requires Find(seg, Tag(m), 0) < 0
    ensures Find(seg + Tag(m) + rest, Tag(m), 0) == |seg|
  {
    var tag := Tag(m);
    var s := seg + tag + rest;
    TagShape(m);
    FindIsFirst(seg, tag, 0);
    assert s[|seg|..|seg| + |tag|] == tag;
    forall j: nat | j < |seg| ensures !At(s, j, tag) {
      if j + |tag| <= |seg| {
        AtInPrefix(seg, tag + rest, j, tag);
        assert s == seg + (tag + rest);
      } else {
        assert s[|seg|] == tag[0] == '<';
        assert j + |tag| <= |s| ==> s[j..j + |tag|][|seg| - j] == s[|seg|];
      }
    }
    FindUnique(s, tag, 0, |seg|);
  }

  /** What is still pending of a mode. */
  function Pending(o: Outcome, thinking: bool): string {
    if o.inThinking == thinking then o.pending else ""
  }

  /** The outputs and what is pending are the segments of their modes, in order. */
  ghost predicate SelectedBy(m: bool, segs: seq<string>, o: Outcome) {
    && Select(true, m, segs) == o.thinking + Pending(o, true)
    && Select(false, m, segs) == o.content + Pending(o, false)
    && o.inThinking == LastMode(m, |segs|)
  }

  /** The mode of the last of `n` segments. */
  predicate LastMode(m: bool, n: nat) { m == (n % 2 == 1) }

  lemma LastModeFlips(m: bool, n: nat)
    ensures LastMode(m, n + 1) == LastMode(!m, n)
  {
  }

  lemma SelectedLast(m: bool, s: string, e: nat)
    requires e <= |s|
    ensures SelectedBy(m, [s], Emit(m, s[..e], Outcome("", "", m, s[e..], 0, 0)))
  {
    hide Select;
    assert s[..e] + "" == s[..e] && s == s[..e] + s[e..];
    SelectOne(true, m, s);
    SelectOne(false, m, s);
  }

  lemma SelectedFront(m: bool, seg: string, segs: seq<string>, o: Outcome)
    requires SelectedBy(!m, segs, o)
    ensures SelectedBy(m, [seg] + segs, Emit(m, seg, Count(m, o)))
  {
    hide Select, LastMode, Pending;
    LastModeFlips(m, |segs|);
    SelectCons(true, m, seg, segs);
    SelectCons(false, m, seg, segs);
    Reassociate(seg, o.thinking, Pending(o, true));
    Reassociate(seg, o.content, Pending(o, false));
    PendingStays(m, seg, o, true);
    PendingStays(m, seg, o, false);
  }

  lemma PendingStays(m: bool, seg: string, o: Outcome, thinking: bool)
    ensures Pending(Emit(m, seg, Count(m, o)), thinking) == Pending(o, thinking)
  {
  }

  lemma Reassociate(a: string, b: string, c: string)
    ensures a + (b + c) == a + b + c
  {
  }

  /** What `Scan` outputs, in terms of the segments: all thinking text and all content text,
      in order, the last one short of its pending tail. */
  lemma {:induction false} ScanSelects(m: bool, s: string)
    ensures SelectedBy(m, Segments(m, s), Scan(m, s))
    decreases |s|
  {
    hide Scan, Find, Tag, Tail, Select, Segments, SelectedBy, Emit, Count;
    var i := Find(s, Tag(m), 0);
    SegmentsStep(m, s);
    if i < 0 {
      ScanFlushed(m, s);
      SelectedLast(m, s, |s| - Tail(s, Tag(m)));
    } else {
      var r := s[i + |Tag(m)|..];
      ScanFound(m, s, i);
      ScanSelects(!m, r);
      SelectedFront(m, s[..i], Segments(!m, r), Scan(!m, r));
    }
  }

  lemma SegmentsStep(m: bool, s: string)
    ensures var i := Find(s, Tag(m), 0);
            Segments(m, s) == if i < 0 then [s] else [s[..i]] + Segments(!m, s[i + |Tag(m)|..])
  {
  }

  lemma SelectCons(want: bool, m: bool, seg: string, rest: seq<string>)
    ensures Select(want, m, [seg] + rest) == if want == m then seg + Select(want, !m, rest) else Select(want, !m, rest)
  {
    assert ([seg] + rest)[1..] == rest;
  }

  lemma SelectOne(want: bool, m: bool, s: string)
    ensures Select(want, m, [s]) == if want == m then s else ""
  {
    assert [s] == [s] + [] && s + "" == s;
    SelectCons(want, m, s, []);
  }

  /** Round trip: print any alternation whose segments are free of their closing tag, cut
      the text anyhow, and feed it: the thinking and the content segments come back, up to
      the pending tail of the last one. */
  lemma RoundTrip(segs: seq<string>, chunks: seq<string>)
    requires |segs| >= 1 && Separated(false, segs) && Concat(chunks) == Print(false, segs)
    ensures var o := ScanChunks(false, "", chunks);
            && Select(true, false, segs) == o.thinking + (if o.inThinking then o.pending else "")
            && Select(false, false, segs) == o.content + (if o.inThinking then "" else o.pending)
            && o.inThinking == (|segs| % 2 == 0)
  {
    hide Scan, ScanChunks, Select, Segments, Print, Separated, Idle, Concat;
    EmptyIsIdle(false);
    SegmentsPrint(false, segs);
    ScanSelects(false, Print(false, segs));
    ChunkInvariance(false, "", chunks);
    assert "" + Concat(chunks) == Concat(chunks);
  }

  /** Written out: what stands between the two tags is thinking, and all else is content. */
  lemma ThinkTags(before: string, thought: string, after: string)
    requires !Contains(before, "<think>") && !Contains(thought, "</think>") && !Contains(after, "<think>")
    ensures var o := Scan(false, before + "<think>" + thought + "</think>" + after);
            && o.thinking == thought && o.content + o.pending == before + after && !o.inThinking
            && o.opens == 1 && o.closes == 1
  {
    var text := before + "<think>" + thought + "</think>" + after;
    var segs := [before, thought, after];
    assert Print(false, segs) == text by { PrintThree(before, thought, after); }
    SelectThree(before, thought, after);
    Conservation(false, text);
    hide Scan, ScanChunks, Select, Print, Separated, Concat, Contains;
    EmptyIsIdle(false);
    ConcatOne(text);
    RoundTrip(segs, [text]);
    ChunkInvariance(false, "", [text]);
    assert "" + text == text;
  }

  lemma ConcatOne(text: string)
    ensures Concat([text]) == text && "" + Concat([text]) == text
  {
    assert [text][1..] == [];
  }

  lemma PrintThree(a: string, b: string, c: string)
    ensures Print(false, [a, b, c]) == a + "<think>" + b + "</think>" + c
  {
    assert [a, b, c][1..] == [b, c] && [b, c][1..] == [c];
    assert Print(false, [c]) == c;
    assert Print(true, [b, c]) == b + "</think>" + c;
    assert a + "<think>" + (b + "</think>" + c) == a + "<think>" + b + "</think>" + c;
  }

  lemma SelectThree(a: string, b: string, c: string)
    ensures Select(true, false, [a, b, c]) == b && Select(false, false, [a, b, c]) == a + c
    ensures !Contains(a, "<think>") && !Contains(b, "</think>") && !Contains(c, "<think>") ==>
              Separated(false, [a, b, c])
  {
    assert [a, b, c][1..] == [b, c] && [b, c][1..] == [c] && [c][1..] == [];
    hide Contains;
    assert Select(true, true, []) == "" && Select(false, true, []) == "" && c + "" == c && b + "" == b;
    assert Select(true, false, [c]) == "" + "" && Select(false, false, [c]) == c + "";
    assert Select(true, true, [b, c]) == b + "" && Select(false, true, [b, c]) == "" + c;
    assert Separated(false, [c]) <==> !Contains(c, "<think>");
    assert Separated(true, [b, c]) <==> !Contains(b, "</think>") && Separated(false, [c]);
  }

  // ---- the class -----------------------------------------------------------------------

  datatype ThinkingResult = ThinkingResult(thinking: string, content: string, isThinking: bool)

  class ThinkingParser {
    var inThinking: bool
    var buffer: string
    var sawReasoningContent: bool
    var thinkingChars: nat
    var contentChars: nat

    /** The buffer is a tail in the sense of `Scan`, until the server's own
        `reasoning_content` has made it irrelevant. */
    ghost predicate Valid()
      reads this
    {
      !sawReasoningContent ==> Idle(inThinking, buffer)
    }

    constructor ()
      ensures Valid() && !inThinking && buffer == "" && !sawReasoningContent
      ensures thinkingChars == 0 && contentChars == 0
    {
      inThinking, buffer, sawReasoningContent, thinkingChars, contentChars := false, "", false, 0, 0;
    }

    /** Classify one chunk. A server-separated chunk passes through, and from the first of
        those on so does everything; otherwise the tags are parsed. */
    method Feed(content: string, reasoningContent: string) returns (r: ThinkingResult)
      requires Valid()
      modifies this
      ensures Valid()
      ensures sawReasoningContent == (old(sawReasoningContent) || reasoningContent != "")
      ensures thinkingChars == old(thinkingChars) + |r.thinking|
      ensures contentChars == old(contentChars) + |r.content|
      ensures r.isThinking == inThinking
      ensures sawReasoningContent ==>
                && r.thinking == reasoningContent && r.content == content && buffer == old(buffer)
                && inThinking == (content == "" && (reasoningContent != "" || old(inThinking)))
      ensures !sawReasoningContent ==>
                var o := Scan(old(inThinking), old(buffer) + content);
                r.thinking == o.thinking && r.content == o.content && inThinking == o.inThinking && buffer == o.pending
    {
      if reasoningContent != "" {
        sawReasoningContent, inThinking := true, true;
        thinkingChars := thinkingChars + |reasoningContent|;
        if content != "" {
          inThinking := false;
          contentChars := contentChars + |content|;
        }
        return ThinkingResult(reasoningContent, content, inThinking);
      }
      if sawReasoningContent {
        if content != "" {
          inThinking := false;
          contentChars := contentChars + |content|;
        }
        return ThinkingResult("", content, inThinking);
      }
      if content == "" {
        assert buffer + content == buffer;
        return ThinkingResult("", "", inThinking);
      }
      r := ParseTags(content);
    }

    /** The search for a partial tag at the end of the buffer, longest first. */
    static method PartialTag(buf: string, m: bool) returns (trim: nat)
      ensures trim == Tail(buf, Tag(m))
    {
      var tag := Tag(m);
      trim := |tag| - 1;
      while trim > 0 && !EndsWith(buf, tag[..trim])
        invariant trim <= |tag| - 1
        invariant forall j: nat :: trim < j <= |tag| - 1 ==> !EndsWith(buf, tag[..j])
      {
        trim := trim - 1;
      }
      HeldUnique(buf, tag, |tag| - 1, trim);
    }

    /** The parse loop over `buf`, from the mode `m`. */
    static method ParseBuffer(buf: string, m: bool) returns (out: Outcome)
      ensures out == Scan(m, buf)
    {
      out := Outcome("", "", m, "", 0, 0);
      var pos := 0;
      var inThinking, flushed := m, false;
      hide *;
      ParseStart(m, buf);
      while pos < |buf|
        invariant pos <= |buf| && (flushed ==> pos == |buf|)
        invariant Halfway(m, buf, out, inThinking, pos, flushed)
        decreases |buf| - pos
      {
        var tag := Tag(inThinking);
        var idx := Find(buf, tag, pos);
        if idx < 0 {
          var trim := PartialTag(buf, inThinking);
          var e := |buf| - trim;
          FlushTurn(m, buf, out, inThinking, pos, e);
          out := Finish(Route(out, inThinking, Slice(buf, pos, e)), inThinking, Slice(buf, e, |buf|));
          pos := |buf|;
          flushed := true;
        } else {
          FoundTurn(m, buf, out, inThinking, pos, idx, idx + |tag|);
          out := Count(inThinking, Route(out, inThinking, Slice(buf, pos, idx)));
          inThinking := !inThinking;
          pos := idx + |tag|;
        }
      }
      ParseEnd(m, buf, out, inThinking, flushed);
      if !flushed {
        out := Finish(out, inThinking, "");
      }
    }

    method ParseTags(text: string) returns (r: ThinkingResult)
      modifies this
      ensures sawReasoningContent == old(sawReasoningContent)
      ensures Idle(inThinking, buffer)
      ensures var o := Scan(old(inThinking), old(buffer) + text);
              && r == ThinkingResult(o.thinking, o.content, o.inThinking)
              && inThinking == o.inThinking && buffer == o.pending
              && thinkingChars == old(thinkingChars) + |o.thinking|
              && contentChars == old(contentChars) + |o.content|
    {
      var o := ParseBuffer(buffer + text, inThinking);
      PendingIsIdle(inThinking, buffer + text);
      inThinking, buffer := o.inThinking, o.pending;
      thinkingChars := thinkingChars + |o.thinking|;
      contentChars := contentChars + |o.content|;
      r := ThinkingResult(o.thinking, o.content, inThinking);
    }

    /** The consumer's loop: feed every chunk of an inline-tag stream and join the outputs.
        The result depends on the text only. */
    method FeedAll(chunks: seq<string>) returns (thinking: string, content: string)
      requires Valid() && !sawReasoningContent
      modifies this
      ensures Valid() && !sawReasoningContent
      ensures var o := Scan(old(inThinking), old(buffer) + Concat(chunks));
              && thinking == o.thinking && content == o.content
              && inThinking == o.inThinking && buffer == o.pending
    {
      hide Scan;
      thinking, content := "", "";
      ghost var m, b := inThinking, buffer;
      assert b + Concat(chunks[..0]) == b;
      for i := 0 to |chunks|
        invariant Valid() && !sawReasoningContent
        invariant Scan(m, b + Concat(chunks[..i])) ==
                  Outcome(thinking, content, inThinking, buffer,
                          Scan(m, b + Concat(chunks[..i])).opens, Scan(m, b + Concat(chunks[..i])).closes)
      {
        ScanAppend(m, b + Concat(chunks[..i]), chunks[i]);
        ConcatSnoc(b, chunks, i);
        var r := Feed(chunks[i], "");
        thinking, content := thinking + r.thinking, content + r.content;
      }
      assert chunks[..|chunks|] == chunks;
    }
  }

  lemma {:induction false} ConcatSnoc(b: string, chunks: seq<string>, i: nat)
    requires i < |chunks|
    ensures b + Concat(chunks[..i + 1]) == b + Concat(chunks[..i]) + chunks[i]
    decreases i
  {
    var head, rest := chunks[0], chunks[1..];
    if i == 0 {
      assert chunks[..1] == [head] && Concat([head]) == head + "";
    } else {
      ConcatSnoc("", rest, i - 1);
      assert chunks[..i + 1] == [head] + rest[..i] && chunks[..i] == [head] + rest[..i - 1];
      assert Concat(rest[..i]) == Concat(rest[..i - 1]) + chunks[i] by {
        assert "" + Concat(rest[..i]) == Concat(rest[..i]) && "" + Concat(rest[..i - 1]) == Concat(rest[..i - 1]);
        assert rest[i - 1] == chunks[i];
      }
    }
  }
}
