/** dgxarley/integration/gsm8k_chat.py: the event sweep of `summarize` and the binned
    timeline of `windowed_throughput`, over reals. Rounding for display is not modelled. */
module Throughput {

  // ---- the sweep -----------------------------------------------------------------------

  /** One request: active from `start` until just before `end`. */
  datatype Row = Row(start: real, end: real, completionTokens: nat)
  {
    predicate Counts() { completionTokens > 0 && end - start > 0.0 }

    function Rate(): (r: real)
      requires Counts()
      ensures r > 0.0
    {
      PositiveRatio(completionTokens as real, end - start);
      completionTokens as real / (end - start)
    }
  }

  lemma PositiveRatio(x: real, y: real)
    requires x > 0.0 && y > 0.0
    ensures x / y > 0.0
  {
    var q := x / y;
    assert q * y == x;
    assert q <= 0.0 ==> q * y <= 0.0;
  }

  /** The summed rates of the requests active at time `t`. */
  function Load(rows: seq<Row>, t: real): real {
    if rows == [] then 0.0
    else
      var r := rows[0];
      (if r.Counts() && r.start <= t < r.end then r.Rate() else 0.0) + Load(rows[1..], t)
  }

  datatype Event = Event(time: real, delta: real)

  function EventsOf(rows: seq<Row>): seq<Event> {
    if rows == [] then []
    else if rows[0].Counts() then
      [Event(rows[0].start, rows[0].Rate()), Event(rows[0].end, -rows[0].Rate())] + EventsOf(rows[1..])
    else EventsOf(rows[1..])
  }

  /** The order of Python's tuples: by time, at ties by rate, so that ends come first. */
  predicate Before(a: Event, b: Event) {
    a.time < b.time || (a.time == b.time && a.delta <= b.delta)
  }

  function Insert(e: Event, sorted: seq<Event>): seq<Event> {
    if sorted == [] || Before(e, sorted[0]) then [e] + sorted else [sorted[0]] + Insert(e, sorted[1..])
  }

  /** `events.sort()` */
  function Sort(events: seq<Event>): seq<Event> {
    if events == [] then [] else Insert(events[0], Sort(events[1..]))
  }

  ghost predicate Sorted(events: seq<Event>) {
    forall i, j :: 0 <= i < j < |events| ==> Before(events[i], events[j])
  }

  /** `current` after the first `k` events. */
  function Current(events: seq<Event>, k: nat): real
    requires k <= |events|
  {
    if k == 0 then 0.0 else Current(events, k - 1) + events[k - 1].delta
  }

  /** What the events up to and including time `t` add up to. */
  function SumUpTo(events: seq<Event>, t: real): real {
    if events == [] then 0.0
    else (if events[0].time <= t then events[0].delta else 0.0) + SumUpTo(events[1..], t)
  }

  lemma {:induction false} LoadIsSum(rows: seq<Row>, t: real)
    ensures SumUpTo(EventsOf(rows), t) == Load(rows, t)
  {
    if rows != [] {
      LoadIsSum(rows[1..], t);
      if rows[0].Counts() {
        var a, b := Event(rows[0].start, rows[0].Rate()), Event(rows[0].end, -rows[0].Rate());
        assert ([a, b] + EventsOf(rows[1..]))[1..] == [b] + EventsOf(rows[1..]);
        assert ([b] + EventsOf(rows[1..]))[1..] == EventsOf(rows[1..]);
      }
    }
  }

  lemma {:induction false} InsertSum(e: Event, sorted: seq<Event>, t: real)
    ensures SumUpTo(Insert(e, sorted), t) == (if e.time <= t then e.delta else 0.0) + SumUpTo(sorted, t)
  {
    if sorted == [] || Before(e, sorted[0]) {
      assert ([e] + sorted)[1..] == sorted;
    } else {
      InsertSum(e, sorted[1..], t);
      assert ([sorted[0]] + Insert(e, sorted[1..]))[1..] == Insert(e, sorted[1..]);
    }
  }

  lemma {:induction false} SortSum(events: seq<Event>, t: real)
    ensures SumUpTo(Sort(events), t) == SumUpTo(events, t)
  {
    if events != [] {
      SortSum(events[1..], t);
      InsertSum(events[0], Sort(events[1..]), t);
    }
  }

  lemma {:induction false} InsertSorts(e: Event, sorted: seq<Event>)
    requires Sorted(sorted)
    ensures Sorted(Insert(e, sorted)) && forall x :: x in Insert(e, sorted) <==> x == e || x in sorted
  {
    if sorted != [] && !Before(e, sorted[0]) {
      InsertSorts(e, sorted[1..]);
      assert sorted == [sorted[0]] + sorted[1..];
      var rest := Insert(e, sorted[1..]);
      forall i | 0 <= i < |rest| ensures Before(sorted[0], rest[i]) {
        assert rest[i] in rest;
      }
    }
  }

  lemma {:induction false} SortSorts(events: seq<Event>)
    ensures Sorted(Sort(events)) && forall x :: x in Sort(events) <==> x in events
  {
    if events != [] {
      SortSorts(events[1..]);
      InsertSorts(events[0], Sort(events[1..]));
      assert events == [events[0]] + events[1..];
    }
  }

  lemma {:induction false} RatesAreNotZero(rows: seq<Row>)
    ensures forall e :: e in EventsOf(rows) ==> e.delta != 0.0
  {
    if rows != [] { RatesAreNotZero(rows[1..]); }
  }

  /** How many of the sorted events lie at or before `t`. */
  function CountUpTo(events: seq<Event>, t: real): (k: nat)
    requires Sorted(events)
    ensures k <= |events|
    ensures forall i :: 0 <= i < |events| ==> (events[i].time <= t <==> i < k)
  {
    if events == [] || events[0].time > t then 0 else 1 + CountUpTo(events[1..], t)
  }

  lemma {:induction false} CurrentTail(events: seq<Event>, k: nat)
    requires 0 < k <= |events|
    ensures Current(events, k) == events[0].delta + Current(events[1..], k - 1)
  {
    if k > 1 { CurrentTail(events, k - 1); }
  }

  /** In sorted order, the sum up to a time is a value that `current` takes. */
  lemma {:induction false} SumIsCurrent(events: seq<Event>, t: real)
    requires Sorted(events)
    ensures SumUpTo(events, t) == Current(events, CountUpTo(events, t))
  {
    if events != [] && events[0].time <= t {
      SumIsCurrent(events[1..], t);
      CurrentTail(events, CountUpTo(events, t));
    } else if events != [] {
      NothingBefore(events, t);
    }
  }

  lemma {:induction false} NothingBefore(events: seq<Event>, t: real)
    requires forall e :: e in events ==> e.time > t
    ensures SumUpTo(events, t) == 0.0
  {
    if events != [] { NothingBefore(events[1..], t); }
  }

  /** A value that no other exceeds is still reached once all events of its time are in. */
  lemma {:induction false} PeakOutlastsTies(events: seq<Event>, k: nat, j: nat)
    requires Sorted(events) && 0 < k <= j <= |events| && events[k - 1].delta > 0.0
    requires forall i :: k <= i < j ==> events[i].time == events[k - 1].time
    ensures Current(events, j) >= Current(events, k)
    decreases j
  {
    if j > k {
      PeakOutlastsTies(events, k, j - 1);
      assert Before(events[k - 1], events[j - 1]);
    }
  }

  ghost predicate IsHighest(events: seq<Event>, peak: real, k: nat) {
    && k <= |events| && Current(events, k) == peak
    && forall i :: 0 <= i <= |events| ==> Current(events, i) <= peak
  }

  /** The highest value of `current` is the load at some time: at ties the ends are in front,
      so no value rests on a request that is already over. */
  lemma PeakIsALoad(events: seq<Event>, peak: real, k: nat) returns (t: real)
    requires Sorted(events) && IsHighest(events, peak, k) && forall e :: e in events ==> e.delta != 0.0
    ensures SumUpTo(events, t) == peak
  {
    if k == 0 {
      t := if events == [] then 0.0 else events[0].time - 1.0;
      forall e | e in events ensures e.time > t {
        var i :| 0 <= i < |events| && events[i] == e;
        if i > 0 { assert Before(events[0], events[i]); }
      }
      NothingBefore(events, t);
    } else {
      assert Current(events, k - 1) <= peak;
      t := events[k - 1].time;
      var j := CountUpTo(events, t);
      assert events[k - 1] in events && k - 1 < j;
      forall i | k <= i < j ensures events[i].time == t {
        assert Before(events[k - 1], events[i]);
      }
      PeakOutlastsTies(events, k, j);
      SumIsCurrent(events, t);
    }
  }

  /** `concurrent_peak_tok_s`: the most that was ever active at once. */
  method Peak(rows: seq<Row>) returns (peak: real)
    ensures forall t :: Load(rows, t) <= peak
    ensures exists t :: Load(rows, t) == peak
  {
    var events := Sort(EventsOf(rows));
    SortSorts(EventsOf(rows));
    RatesAreNotZero(rows);
    var current := 0.0;
    peak := 0.0;
    ghost var at := 0;
    hide Sort, EventsOf, Load, SumUpTo;
    for i := 0 to |events|
      invariant current == Current(events, i)
      invariant at <= i && Current(events, at) == peak
      invariant forall k :: 0 <= k <= i ==> Current(events, k) <= peak
    {
      current := current + events[i].delta;
      if current > peak {
        peak := current;
        at := i + 1;
      }
    }
    forall t ensures Load(rows, t) <= peak {
      LoadIsSum(rows, t);
      SortSum(EventsOf(rows), t);
      SumIsCurrent(events, t);
    }
    ghost var t := PeakIsALoad(events, peak, at);
    LoadIsSum(rows, t);
    SortSum(EventsOf(rows), t);
  }

  // ---- the sliding window --------------------------------------------------------------

  /** `sum(series[i:j])` */
  function Sum(series: seq<real>, i: nat, j: nat): real
    requires i <= j <= |series|
  {
    if i == j then 0.0 else Sum(series, i, j - 1) + series[j - 1]
  }

  lemma {:induction false} SumHead(series: seq<real>, i: nat, j: nat)
    requires i < j <= |series|
    ensures Sum(series, i, j) == series[i] + Sum(series, i + 1, j)
    decreases j
  {
    if i + 1 < j { SumHead(series, i, j - 1); }
  }

  function WindowSum(series: seq<real>, window: nat, i: nat): real
    requires i + window <= |series|
  {
    Sum(series, i, i + window)
  }

  /** The best sum of `window` adjacent bins. */
  method BestWindow(series: seq<real>, window: nat) returns (best: real)
    requires 1 <= window <= |series|
    ensures forall i :: 0 <= i <= |series| - window ==> WindowSum(series, window, i) <= best
    ensures exists i :: 0 <= i <= |series| - window && WindowSum(series, window, i) == best
  {
    var running := 0.0;
    for i := 0 to window
      invariant running == Sum(series, 0, i)
    {
      running := running + series[i];
    }
    best := running;
    ghost var at := 0;
    for i := window to |series|
      invariant running == Sum(series, i - window, i)
      invariant 0 <= at <= i - window && WindowSum(series, window, at) == best
      invariant forall k :: 0 <= k <= i - window ==> WindowSum(series, window, k) <= best
    {
      SumHead(series, i - window, i + 1);
      running := running + (series[i] - series[i - window]);
      if running > best {
        best := running;
        at := i - window + 1;
      }
    }
  }

  /** The load in terms of the requests: the tokens of each request that is running, spread
      evenly over its time. One that ends when it starts never runs. */
  function Running(rows: seq<Row>, t: real): real {
    if rows == [] then 0.0
    else
      var r := rows[0];
      (if r.start <= t < r.end then r.completionTokens as real / (r.end - r.start) else 0.0) + Running(rows[1..], t)
  }

  lemma {:induction false} LoadMeans(rows: seq<Row>, t: real)
    ensures Load(rows, t) == Running(rows, t)
  {
    if rows != [] {
      LoadMeans(rows[1..], t);
      if rows[0].start <= t < rows[0].end { NothingPerSecond(rows[0].end - rows[0].start); }
    }
  }

  lemma NothingPerSecond(d: real)
    requires d > 0.0
    ensures 0.0 / d == 0.0
  {
    assert (0.0 / d) * d == 0.0;
  }

  // ---- the bins ------------------------------------------------------------------------

  /** A streamed request: how much arrived in which half-second bin, in tokens or in
      characters that stand for them. */
  datatype Streamed = Streamed(timeline: seq<(nat, real)>, unitIsTokens: bool, completionTokens: nat)

  function Arrived(timeline: seq<(nat, real)>): real {
    if timeline == [] then 0.0 else timeline[0].1 + Arrived(timeline[1..])
  }

  /** What a request should add to the series. */
  function Share(r: Streamed): real {
    if Arrived(r.timeline) == 0.0 || r.completionTokens == 0 then 0.0
    else if r.unitIsTokens then Arrived(r.timeline)
    else r.completionTokens as real
  }

  function Shares(rows: seq<Streamed>): real {
    if rows == [] then 0.0 else Shares(rows[..|rows| - 1]) + Share(rows[|rows| - 1])
  }

  function At(bins: map<nat, real>, i: nat): real {
    if i in bins then bins[i] else 0.0
  }

  function BinSum(bins: map<nat, real>, n: nat): real {
    if n == 0 then 0.0 else BinSum(bins, n - 1) + At(bins, n - 1)
  }

  lemma {:induction false} BinAdd(bins: map<nat, real>, k: nat, v: real, n: nat)
    ensures BinSum(bins[k := At(bins, k) + v], n) == BinSum(bins, n) + (if k < n then v else 0.0)
  {
    if n > 0 { BinAdd(bins, k, v, n - 1); }
  }

  lemma {:induction false} BinSumBeyond(bins: map<nat, real>, m: nat, n: nat)
    requires m <= n && forall k :: k in bins ==> k < m
    ensures BinSum(bins, n) == BinSum(bins, m)
  {
    if m < n { BinSumBeyond(bins, m, n - 1); }
  }

  ghost predicate Below(timeline: seq<(nat, real)>, bound: nat) {
    forall i :: 0 <= i < |timeline| ==> timeline[i].0 < bound
  }

  function Times(c: real, scale: real): real { c * scale }

  function Weighted(timeline: seq<(nat, real)>, scale: real): real {
    if timeline == [] then 0.0 else Times(timeline[0].1, scale) + Weighted(timeline[1..], scale)
  }

  lemma {:induction false} WeightedIsProduct(timeline: seq<(nat, real)>, scale: real)
    ensures Weighted(timeline, scale) == Times(Arrived(timeline), scale)
  {
    if timeline != [] {
      WeightedIsProduct(timeline[1..], scale);
      Distribute(timeline[0].1, Arrived(timeline[1..]), scale);
    }
  }

  lemma Distribute(a: real, b: real, scale: real)
    ensures Times(a + b, scale) == Times(a, scale) + Times(b, scale)
  {
  }

  /** What arrived in bin `k`. */
  function InBin(timeline: seq<(nat, real)>, k: nat): real {
    if timeline == [] then 0.0 else (if timeline[0].0 == k then timeline[0].1 else 0.0) + InBin(timeline[1..], k)
  }

  /** What a request adds to bin `k`: its tokens, or its characters in proportion to its tokens. */
  function ShareIn(r: Streamed, k: nat): real {
    if Arrived(r.timeline) == 0.0 || r.completionTokens == 0 then 0.0
    else if r.unitIsTokens then InBin(r.timeline, k)
    else r.completionTokens as real / Arrived(r.timeline) * InBin(r.timeline, k)
  }

  function SharesIn(rows: seq<Streamed>, k: nat): real {
    if rows == [] then 0.0 else SharesIn(rows[..|rows| - 1], k) + ShareIn(rows[|rows| - 1], k)
  }

  function WeightedIn(timeline: seq<(nat, real)>, k: nat, scale: real): real {
    if timeline == [] then 0.0
    else (if timeline[0].0 == k then Times(timeline[0].1, scale) else 0.0) + WeightedIn(timeline[1..], k, scale)
  }

  lemma {:induction false} WeightedInIsProduct(timeline: seq<(nat, real)>, k: nat, scale: real)
    ensures WeightedIn(timeline, k, scale) == Times(InBin(timeline, k), scale)
  {
    if timeline != [] {
      WeightedInIsProduct(timeline[1..], k, scale);
      Distribute(if timeline[0].0 == k then timeline[0].1 else 0.0, InBin(timeline[1..], k), scale);
    }
  }

  lemma ScaledInBin(r: Streamed, k: nat)
    requires Arrived(r.timeline) != 0.0 && r.completionTokens != 0
    ensures WeightedIn(r.timeline, k, Scale(r)) == ShareIn(r, k)
  {
    WeightedInIsProduct(r.timeline, k, Scale(r));
  }

  /** Tokens a unit of the timeline stands for. */
  function Scale(r: Streamed): real
    requires Arrived(r.timeline) != 0.0
  {
    if r.unitIsTokens then 1.0 else r.completionTokens as real / Arrived(r.timeline)
  }

  lemma ScaledTotal(r: Streamed)
    requires Arrived(r.timeline) != 0.0 && r.completionTokens != 0
    ensures Weighted(r.timeline, Scale(r)) == Share(r)
  {
    WeightedIsProduct(r.timeline, Scale(r));
  }

  /** Add one request, scaled so that its characters add up to its tokens. */
  method AddRow(bins: map<nat, real>, r: Streamed, ghost bound: nat) returns (out: map<nat, real>)
    requires Below(r.timeline, bound) && forall k :: k in bins ==> k < bound
    ensures BinSum(out, bound) == BinSum(bins, bound) + Share(r)
    ensures forall k :: At(out, k) == At(bins, k) + ShareIn(r, k)
    ensures forall k :: k in out ==> k < bound
  {
    out := bins;
    if Arrived(r.timeline) == 0.0 || r.completionTokens == 0 {
      return;
    }
    var scale := Scale(r);
    ScaledTotal(r);
    forall k: nat ensures WeightedIn(r.timeline, k, scale) == ShareIn(r, k) { ScaledInBin(r, k); }
    hide Scale, Share, ShareIn, Times, BinSum;
    assert r.timeline[0..] == r.timeline;
    for i := 0 to |r.timeline|
      invariant forall k :: k in out ==> k < bound
      invariant BinSum(out, bound) + Weighted(r.timeline[i..], scale)
               == BinSum(bins, bound) + Weighted(r.timeline, scale)
      invariant forall k :: At(out, k) + WeightedIn(r.timeline[i..], k, scale)
                            == At(bins, k) + WeightedIn(r.timeline, k, scale)
    {
      var (t, c) := r.timeline[i];
      BinAdd(out, t, Times(c, scale), bound);
      out := out[t := At(out, t) + Times(c, scale)];
      assert r.timeline[i..][1..] == r.timeline[i + 1..];
    }
    assert r.timeline[|r.timeline|..] == [];
  }

  /** The series holds every counted token exactly once. */
  method Bin(rows: seq<Streamed>) returns (bins: map<nat, real>, series: seq<real>)
    ensures Sum(series, 0, |series|) == Shares(rows)
    ensures forall i :: 0 <= i < |series| ==> series[i] == At(bins, i) == SharesIn(rows, i)
    ensures forall k :: k in bins ==> k < |series|
    ensures forall k :: k >= |series| ==> SharesIn(rows, k) == 0.0
    ensures series != [] ==> |series| - 1 in bins
  {
    bins := map[];
    ghost var bound := BoundOf(rows);
    BinSumBeyond(bins, 0, bound);
    for i := 0 to |rows|
      invariant BinSum(bins, bound) == Shares(rows[..i]) && forall k :: k in bins ==> k < bound
      invariant forall k :: At(bins, k) == SharesIn(rows[..i], k)
    {
      assert rows[..i + 1][..i] == rows[..i];
      bins := AddRow(bins, rows[i], bound);
    }
    assert rows[..|rows|] == rows;
    var n: nat := 0;
    var keys := bins.Keys;
    while keys != {}
      invariant keys <= bins.Keys && n <= bound && (n > 0 ==> n - 1 in bins)
      invariant forall k :: k in bins && k !in keys ==> k < n
      decreases |keys|
    {
      var k :| k in keys;
      n := if k >= n then k + 1 else n;
      keys := keys - {k};
    }
    BinSumBeyond(bins, n, bound);
    series := seq(n, i requires 0 <= i => At(bins, i));
    SeriesSum(bins, series, n);
  }

  lemma {:induction false} SeriesSum(bins: map<nat, real>, series: seq<real>, n: nat)
    requires n <= |series| && forall i :: 0 <= i < |series| ==> series[i] == At(bins, i)
    ensures Sum(series, 0, n) == BinSum(bins, n)
  {
    if n > 0 { SeriesSum(bins, series, n - 1); }
  }

  lemma BoundOf(rows: seq<Streamed>) returns (bound: nat)
    ensures forall i :: 0 <= i < |rows| ==> Below(rows[i].timeline, bound)
  {
    bound := 0;
    for i := 0 to |rows|
      invariant forall j :: 0 <= j < i ==> Below(rows[j].timeline, bound)
    {
      for j := 0 to |rows[i].timeline|
        invariant forall k :: 0 <= k < i ==> Below(rows[k].timeline, bound)
        invariant forall k :: 0 <= k < j ==> rows[i].timeline[k].0 < bound
      {
        if rows[i].timeline[j].0 >= bound { bound := rows[i].timeline[j].0 + 1; }
      }
    }
  }
}
