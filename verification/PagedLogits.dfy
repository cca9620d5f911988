/** The paged indexer logits: the Triton kernel of
    roles/k8s_dgx/files/sglang_patches/p35_dsa_indexer_triton_logits.py against the torch
    reference of roles/k8s_dgx/files/sglang_patches/p30_dsa_torch_backend.py.

    A grid of independent programs, one per request and KV page, stores into one shared
    buffer. Tensors are flat sequences, as in memory; the scalar operations are parameters,
    so both sides agree bit for bit whenever those do. */
module PagedLogits {

  const BLOCK := 64
  const D := 128
  /** Bytes of one page: 64 rows of 128 fp8 values, then 64 fp32 scales. */
  const PAGE := BLOCK * (D + 4)
  const SCALE_OFFSET := BLOCK * D

  type Byte = x: nat | x < 256

  datatype Logit = NegInf | Num(value: real)

  datatype Ops = Ops(fp8: Byte -> real, fp32: seq<Byte> -> real,
                     dot: (seq<real>, seq<real>) -> real, sum: seq<real> -> real)

  /** One call: `q` is [batch, heads, D], `weight` [batch, heads], `pageTable` [batch, width].
      The dispatch takes the kernel for 16 heads or more. */
  datatype Input = Input(ops: Ops, batch: nat, heads: nat, q: seq<Byte>, kv: seq<Byte>, weight: seq<real>,
                         seqLens: seq<int>, pageTable: seq<int>, width: nat, maxSeqLen: nat)
  {
    ghost predicate Shaped() {
      && heads >= 16
      && |q| == batch * (heads * D)
      && |kv| % PAGE == 0
      && |weight| == batch * heads
      && |seqLens| == batch
      && |pageTable| == batch * width
    }

    function MaxPages(): nat { (maxSeqLen + BLOCK - 1) / BLOCK }

    function GridWidth(): nat { if width <= MaxPages() then width else MaxPages() }

    predicate IsPage(page: int) { 0 <= page < |kv| / PAGE }

    /** The pages in use are pages of the cache. Table entries behind the end of a sequence
        may be anything. */
    ghost predicate UsedPagesExist()
      requires Shaped()
    {
      forall b: nat, p: nat :: b < batch && p < GridWidth() && p * BLOCK < seqLens[b] ==>
        Within(b, width, p, batch) && IsPage(pageTable[b * width + p])
    }
  }

  /** Row-major addressing: cell `j` of row `i` lies within a `rows` by `n` table. */
  ghost predicate Within(i: nat, n: nat, j: nat, rows: nat) {
    i * n + j < rows * n
  }

  lemma InTable(i: nat, n: nat, j: nat, rows: nat)
    requires i < rows && j < n
    ensures Within(i, n, j, rows) && i * n + n <= rows * n
  {
    assert (i + 1) * n <= rows * n;
  }

  lemma RowsApart(i: nat, k: nat, n: nat)
    ensures i < k ==> i * n + n <= k * n
  {
    if i < k { assert (i + 1) * n <= k * n; }
  }

  /** Different cells have different addresses. */
  lemma CellsDisjoint(i: nat, j: nat, k: nat, l: nat, n: nat)
    requires j < n && l < n && i * n + j == k * n + l
    ensures i == k && j == l
  {
    RowsApart(i, k, n);
    RowsApart(k, i, n);
  }

  // ---- the arithmetic of one row -------------------------------------------------------

  function Maximum(x: real, y: real): real { if x > y then x else y }

  /** One head's share of a row: `tl.dot`, `tl.maximum`, and the head's weight. */
  function HeadTerm(ops: Ops, kvRow: seq<real>, qRow: seq<real>, weight: real): real {
    Maximum(ops.dot(kvRow, qRow), 0.0) * weight
  }

  /** One row of the kernel's block: `tl.sum` over the heads, and the row's scale. */
  function RowScore(ops: Ops, kvRow: seq<real>, q: seq<seq<real>>, weight: seq<real>, scale: real): real
    requires |q| == |weight|
  {
    ops.sum(seq(|q|, h requires 0 <= h < |q| => HeadTerm(ops, kvRow, q[h], weight[h]))) * scale
  }

  function Decode(ops: Ops, bytes: seq<Byte>): seq<real> {
    seq(|bytes|, i requires 0 <= i < |bytes| => ops.fp8(bytes[i]))
  }

  // ---- the reference: whole tensors ----------------------------------------------------

  function RowAt<T>(s: seq<T>, n: nat, i: nat): (r: seq<T>)
    requires n > 0 && i < |s| / n
    ensures |r| == n
  {
    RowEnds(|s|, n, i);
    s[i * n..i * n + n]
  }

  /** `view(-1, n)`: the sequence cut into rows of `n`. */
  function View<T>(s: seq<T>, n: nat): (r: seq<seq<T>>)
    requires n > 0
    ensures |r| == |s| / n
    ensures forall i :: 0 <= i < |r| ==> r[i] == RowAt(s, n, i)
  {
    seq(|s| / n, i requires 0 <= i < |s| / n => RowAt(s, n, i))
  }

  lemma RowEnds(size: nat, n: nat, i: nat)
    requires n > 0
    ensures i < size / n <==> i * n + n <= size
  {
    var q := size / n;
    assert q * n <= size < q * n + n;
    RowsApart(i, q, n);
    RowsApart(q, i, n);
  }

  lemma ViewRow<T>(s: seq<T>, n: nat, i: nat)
    requires n > 0 && i * n + n <= |s|
    ensures i < |View(s, n)| && View(s, n)[i] == s[i * n..i * n + n]
  {
    RowEnds(|s|, n, i);
  }

  function Flatten<T>(rows: seq<seq<T>>): seq<T> {
    if rows == [] then [] else rows[0] + Flatten(rows[1..])
  }

  lemma {:induction false} FlattenSlice<T>(rows: seq<seq<T>>, n: nat, i: nat, a: nat, len: nat)
    requires forall k :: 0 <= k < |rows| ==> |rows[k]| == n
    requires i < |rows| && a + len <= n
    ensures i * n + a + len <= |Flatten(rows)|
    ensures Flatten(rows)[i * n + a..i * n + a + len] == rows[i][a..a + len]
    decreases i
  {
    if i > 0 {
      FlattenSlice(rows[1..], n, i - 1, a, len);
      assert i * n == (i - 1) * n + n;
      BehindHead(rows[0], Flatten(rows[1..]), (i - 1) * n + a, len);
    }
  }

  lemma BehindHead<T>(head: seq<T>, rest: seq<T>, k: nat, len: nat)
    requires k + len <= |rest|
    ensures (head + rest)[|head| + k..|head| + k + len] == rest[k..k + len]
  {
  }

  lemma {:induction false} FlattenLength<T>(rows: seq<seq<T>>, n: nat)
    requires forall k :: 0 <= k < |rows| ==> |rows[k]| == n
    ensures |Flatten(rows)| == |rows| * n
  {
    if rows != [] {
      FlattenLength(rows[1..], n);
      assert |rows| * n == (|rows| - 1) * n + n;
    }
  }

  /** What the reference needs beyond the shapes: a table wide enough, and every entry of
      the columns it gathers a page, in use or not. */
  ghost predicate ReferenceDefined(x: Input)
    requires x.Shaped()
  {
    && x.width >= x.MaxPages()
    && forall b: nat, p: nat :: b < x.batch && p < x.MaxPages() ==>
         Within(b, x.width, p, x.batch) && x.IsPage(x.pageTable[b * x.width + p])
  }

  ghost function GatheredPage(x: Input, b: nat, p: nat): (r: seq<Byte>)
    requires x.Shaped() && ReferenceDefined(x) && b < x.batch && p < x.MaxPages()
    ensures |r| == PAGE
  {
    PageId(x, b, p);
    View(x.kv, PAGE)[x.pageTable[b * x.width + p]]
  }

  /** `kvcache_flat[page_ids]` for one request. */
  ghost function Gathered(x: Input, b: nat): (r: seq<seq<Byte>>)
    requires x.Shaped() && ReferenceDefined(x) && b < x.batch
    ensures |r| == x.MaxPages()
    ensures forall p :: 0 <= p < |r| ==> |r[p]| == PAGE && r[p] == GatheredPage(x, b, p)
  {
    seq(x.MaxPages(), p requires 0 <= p < x.MaxPages() => GatheredPage(x, b, p))
  }

  lemma PageId(x: Input, b: nat, p: nat)
    requires x.Shaped() && ReferenceDefined(x) && b < x.batch && p < x.MaxPages()
    ensures b * x.width + p < |x.pageTable| && x.IsPage(x.pageTable[b * x.width + p])
  {
    InTable(b, x.width, p, x.batch);
  }

  function Heads(pages: seq<seq<Byte>>): (r: seq<seq<Byte>>)
    requires forall p :: 0 <= p < |pages| ==> |pages[p]| == PAGE
    ensures |r| == |pages| && forall p :: 0 <= p < |pages| ==> r[p] == pages[p][..SCALE_OFFSET]
  {
    seq(|pages|, p requires 0 <= p < |pages| => pages[p][..SCALE_OFFSET])
  }

  function Scales(pages: seq<seq<Byte>>): (r: seq<seq<Byte>>)
    requires forall p :: 0 <= p < |pages| ==> |pages[p]| == PAGE
    ensures |r| == |pages| && forall p :: 0 <= p < |pages| ==> r[p] == pages[p][SCALE_OFFSET..]
  {
    seq(|pages|, p requires 0 <= p < |pages| => pages[p][SCALE_OFFSET..])
  }

  /** `q_fp8[:, 0]` of one request, one row a head. */
  function QueryView(x: Input, b: nat): seq<seq<real>>
    requires x.heads > 0 && b < |x.q| / (x.heads * D)
  {
    var rows := View(View(x.q, x.heads * D)[b], D);
    seq(|rows|, h requires 0 <= h < |rows| => Decode(x.ops, rows[h]))
  }

  lemma RequestExists(x: Input, b: nat)
    requires x.Shaped() && b < x.batch
    ensures b < |x.q| / (x.heads * D) && b < |x.weight| / x.heads
    ensures b * (x.heads * D) + x.heads * D <= |x.q| && b * x.heads + x.heads <= |x.weight|
  {
    RowsApart(b, x.batch, x.heads * D);
    RowsApart(b, x.batch, x.heads);
    RowEnds(|x.q|, x.heads * D, b);
    RowEnds(|x.weight|, x.heads, b);
  }

  /** The gathered values of one request, one row a position. */
  ghost function ValueRows(x: Input, b: nat): (r: seq<seq<Byte>>)
    requires x.Shaped() && ReferenceDefined(x) && b < x.batch
    ensures |r| == x.MaxPages() * BLOCK
  {
    FlattenLength(Heads(Gathered(x, b)), SCALE_OFFSET);
    View(Flatten(Heads(Gathered(x, b))), D)
  }

  /** The gathered scales. */
  ghost function ScaleRows(x: Input, b: nat): (r: seq<seq<Byte>>)
    requires x.Shaped() && ReferenceDefined(x) && b < x.batch
    ensures |r| == x.MaxPages() * BLOCK
  {
    FlattenLength(Scales(Gathered(x, b)), PAGE - SCALE_OFFSET);
    View(Flatten(Scales(Gathered(x, b))), 4)
  }

  function DecodeAll(ops: Ops, rows: seq<seq<Byte>>): seq<seq<real>> {
    seq(|rows|, c requires 0 <= c < |rows| => Decode(ops, rows[c]))
  }

  // The steps on the whole tensor of one request.

  /** `torch.bmm(kv_value, q.transpose(1, 2))`: positions by heads. */
  function Bmm(ops: Ops, kv: seq<seq<real>>, q: seq<seq<real>>): seq<seq<real>> {
    seq(|kv|, c requires 0 <= c < |kv| => seq(|q|, h requires 0 <= h < |q| => ops.dot(kv[c], q[h])))
  }

  /** `F.relu` */
  function Relu(row: seq<real>): seq<real> {
    seq(|row|, h requires 0 <= h < |row| => if row[h] < 0.0 then 0.0 else row[h])
  }

  function Times(a: seq<real>, b: seq<real>): seq<real>
    requires |a| == |b|
  {
    seq(|a|, i requires 0 <= i < |a| => a[i] * b[i])
  }

  function ReluAll(score: seq<seq<real>>): seq<seq<real>> {
    seq(|score|, c requires 0 <= c < |score| => Relu(score[c]))
  }

  /** `score * weight.unsqueeze(1)` */
  function Weighted(score: seq<seq<real>>, weight: seq<real>): seq<seq<real>>
    requires forall c :: 0 <= c < |score| ==> |score[c]| == |weight|
  {
    seq(|score|, c requires 0 <= c < |score| => Times(score[c], weight))
  }

  /** `score.sum(dim=2)` */
  function SumHeads(ops: Ops, score: seq<seq<real>>): seq<real> {
    seq(|score|, c requires 0 <= c < |score| => ops.sum(score[c]))
  }

  /** All scores of one request. */
  function Scores(ops: Ops, kv: seq<seq<real>>, q: seq<seq<real>>, weight: seq<real>, scale: seq<real>): seq<real>
    requires |q| == |weight| && |kv| == |scale|
  {
    Times(SumHeads(ops, Weighted(ReluAll(Bmm(ops, kv, q)), weight)), scale)
  }

  ghost function ReferenceScores(x: Input, b: nat): (r: seq<real>)
    requires x.Shaped() && ReferenceDefined(x) && b < x.batch
    ensures |r| == x.MaxPages() * BLOCK
  {
    RequestExists(x, b);
    ViewsFit(x, b);
    var scales := ScaleRows(x, b);
    Scores(x.ops, DecodeAll(x.ops, ValueRows(x, b)), QueryView(x, b), View(x.weight, x.heads)[b],
           seq(|scales|, c requires 0 <= c < |scales| => x.ops.fp32(scales[c])))
  }

  lemma ViewsFit(x: Input, b: nat)
    requires x.Shaped() && b < x.batch && b < |x.q| / (x.heads * D) && b < |x.weight| / x.heads
    ensures |QueryView(x, b)| == x.heads == |View(x.weight, x.heads)[b]|
  {
    assert |View(x.q, x.heads * D)[b]| == x.heads * D;
    assert (x.heads * D) / D == x.heads;
  }

  /** Cell (`b`, `c`) of the reference's result. */
  ghost function Reference(x: Input, b: nat, c: nat): Logit
    requires x.Shaped() && ReferenceDefined(x) && b < x.batch && c < x.maxSeqLen
  {
    if c >= x.seqLens[b] then NegInf else Num(ReferenceScores(x, b)[c])
  }

  // ---- the kernel: addresses -----------------------------------------------------------

  /** The query of request `b`, loaded head by head. */
  function QueryLoad(x: Input, b: nat): (r: seq<seq<real>>)
    requires b * (x.heads * D) + x.heads * D <= |x.q|
    ensures |r| == x.heads
  {
    seq(x.heads, h requires 0 <= h < x.heads =>
      Decode(x.ops, x.q[b * (x.heads * D) + h * D..b * (x.heads * D) + h * D + D]))
  }

  function WeightLoad(x: Input, b: nat): (r: seq<real>)
    requires b * x.heads + x.heads <= |x.weight|
    ensures |r| == x.heads
  {
    x.weight[b * x.heads..b * x.heads + x.heads]
  }

  /** The fp8 values of row `i` of a page. */
  function ValueLoad(x: Input, page: nat, i: nat): seq<Byte>
    requires x.IsPage(page) && i < BLOCK
  {
    PageInCache(x, page);
    var offset := page * PAGE + i * D;
    x.kv[offset..offset + D]
  }

  /** The four bytes of element `i` of a page's scales, in the cache seen as fp32. */
  function ScaleLoad(x: Input, page: nat, i: nat): seq<Byte>
    requires x.IsPage(page) && i < BLOCK
  {
    PageInCache(x, page);
    var index := page * (PAGE / 4) + SCALE_OFFSET / 4 + i;
    x.kv[4 * index..4 * index + 4]
  }

  /** What the program of page `p` stores in its lane `i`. */
  function LaneValue(x: Input, b: nat, p: nat, i: nat): Logit
    requires x.Shaped() && x.UsedPagesExist() && b < x.batch && p < x.GridWidth() && i < BLOCK
  {
    var base := p * BLOCK;
    if base >= x.seqLens[b] then NegInf
    else
      assert Within(b, x.width, p, x.batch) && x.IsPage(x.pageTable[b * x.width + p]);
      var page := x.pageTable[b * x.width + p];
      RequestExists(x, b);
      var score := RowScore(x.ops, Decode(x.ops, ValueLoad(x, page, i)), QueryLoad(x, b), WeightLoad(x, b),
                            x.ops.fp32(ScaleLoad(x, page, i)));
      if base + i < x.seqLens[b] then Num(score) else NegInf
  }

  lemma PageInCache(x: Input, page: int)
    requires x.IsPage(page)
    ensures page * PAGE + PAGE <= |x.kv| && 4 * (page * (PAGE / 4)) == page * PAGE
  {
  }

  /** `tl.store(out_ptr + out_off, values, mask=rows < MAX_SEQ)` */
  method StoreBlock(out: array<Logit>, outOff: nat, base: nat, maxSeqLen: nat, values: seq<Logit>)
    requires |values| == BLOCK
    requires base < maxSeqLen ==> outOff + (maxSeqLen - base) <= out.Length
    modifies out
    ensures forall k :: 0 <= k < out.Length ==>
              out[k] == if outOff <= k < outOff + BLOCK && base + (k - outOff) < maxSeqLen then values[k - outOff]
                        else old(out[k])
  {
    for i := 0 to BLOCK
      invariant forall k :: 0 <= k < out.Length ==>
                  out[k] == if outOff <= k < outOff + i && base + (k - outOff) < maxSeqLen then values[k - outOff]
                            else old(out[k])
    {
      if base + i < maxSeqLen {
        out[outOff + i] := values[i];
      }
    }
  }

  /** The program of request `b` and page `p`. Behind the end of the sequence it stores -inf
      and exits before it touches page table or cache. */
  method Program(x: Input, b: nat, p: nat, out: array<Logit>)
    requires x.Shaped() && x.UsedPagesExist() && b < x.batch && p < x.GridWidth()
    requires out.Length == x.batch * x.maxSeqLen
    modifies out
    ensures forall k :: 0 <= k < out.Length ==> out[k] == Stored(x, b, p, k, old(out[k]))
  {
    hide View, RowScore, Decode, ValueLoad, ScaleLoad, QueryLoad, WeightLoad;
    var base := p * BLOCK;
    var outOff := b * x.maxSeqLen + base;
    RowsApart(b, x.batch, x.maxSeqLen);
    if base >= x.seqLens[b] {
      StoreBlock(out, outOff, base, x.maxSeqLen, seq(BLOCK, _ => NegInf));
      return;
    }
    assert Within(b, x.width, p, x.batch) && x.IsPage(x.pageTable[b * x.width + p]);
    var page := x.pageTable[b * x.width + p];
    RequestExists(x, b);
    var q, w := QueryLoad(x, b), WeightLoad(x, b);
    var scores := seq(BLOCK, i requires 0 <= i < BLOCK =>
      if base + i < x.seqLens[b]
      then Num(RowScore(x.ops, Decode(x.ops, ValueLoad(x, page, i)), q, w, x.ops.fp32(ScaleLoad(x, page, i))))
      else NegInf);
    StoreBlock(out, outOff, base, x.maxSeqLen, scores);
  }

  /** The effect of one program on one address. */
  ghost function Stored(x: Input, b: nat, p: nat, k: nat, before: Logit): Logit
    requires x.Shaped() && x.UsedPagesExist() && b < x.batch && p < x.GridWidth()
  {
    var i := k - b * x.maxSeqLen - p * BLOCK;
    if 0 <= i < BLOCK && p * BLOCK + i < x.maxSeqLen then LaneValue(x, b, p, i) else before
  }

  // ---- the launch ----------------------------------------------------------------------

  datatype Cell = Cell(b: nat, p: nat)

  /** A schedule of the grid: every program occurs. Their order is arbitrary, and running
      one again changes nothing. */
  ghost predicate IsSchedule(x: Input, schedule: seq<Cell>) {
    && (forall c :: c in schedule ==> c.b < x.batch && c.p < x.GridWidth())
    && (forall b: nat, p: nat :: b < x.batch && p < x.GridWidth() ==> Cell(b, p) in schedule)
  }

  /** What the launch leaves in cell (`b`, `c`). */
  function LaunchValue(x: Input, b: nat, c: nat): Logit
    requires x.Shaped() && x.UsedPagesExist() && b < x.batch && c < x.maxSeqLen
  {
    if c / BLOCK < x.GridWidth() then LaneValue(x, b, c / BLOCK, c % BLOCK) else NegInf
  }

  /** The cell has its final value. */
  ghost predicate Final(x: Input, out: seq<Logit>, b: nat, c: nat)
    requires x.Shaped() && x.UsedPagesExist() && b < x.batch && c < x.maxSeqLen
  {
    b * x.maxSeqLen + c < |out| && out[b * x.maxSeqLen + c] == LaunchValue(x, b, c)
  }

  /** A program finalizes the cells of its page, and leaves every final cell final. */
  lemma ProgramFinalizes(x: Input, b: nat, p: nat, before: seq<Logit>, after: seq<Logit>, b': nat, c: nat)
    requires x.Shaped() && x.UsedPagesExist() && b < x.batch && p < x.GridWidth() && b' < x.batch && c < x.maxSeqLen
    requires |before| == |after| == x.batch * x.maxSeqLen
    requires forall k :: 0 <= k < |after| ==> after[k] == Stored(x, b, p, k, before[k])
    requires (b == b' && p == c / BLOCK) || Final(x, before, b', c)
    ensures Final(x, after, b', c)
  {
    hide LaneValue, Stored, LaunchValue, Input.UsedPagesExist;
    InTable(b', x.maxSeqLen, c, x.batch);
    var k := b' * x.maxSeqLen + c;
    assert after[k] == Stored(x, b, p, k, before[k]);
    if b == b' && p == c / BLOCK {
      OwnIsFinal(x, b, c, before[k]);
    } else {
      StoresOnlyOwn(x, b, p, b', c, before[k]);
    }
  }

  lemma OwnIsFinal(x: Input, b: nat, c: nat, before: Logit)
    requires x.Shaped() && x.UsedPagesExist() && b < x.batch && c < x.maxSeqLen && c / BLOCK < x.GridWidth()
    ensures Stored(x, b, c / BLOCK, b * x.maxSeqLen + c, before) == LaunchValue(x, b, c)
  {
    hide LaneValue, Stored, Input.UsedPagesExist;
    StoresOwn(x, b, c, before);
  }

  lemma StoresOwn(x: Input, b: nat, c: nat, before: Logit)
    requires x.Shaped() && x.UsedPagesExist() && b < x.batch && c < x.maxSeqLen && c / BLOCK < x.GridWidth()
    ensures Stored(x, b, c / BLOCK, b * x.maxSeqLen + c, before) == LaneValue(x, b, c / BLOCK, c % BLOCK)
  {
    hide LaneValue, Input.UsedPagesExist;
  }

  lemma StoresOnlyOwn(x: Input, b: nat, p: nat, b': nat, c: nat, before: Logit)
    requires x.Shaped() && x.UsedPagesExist() && b < x.batch && p < x.GridWidth() && b' < x.batch && c < x.maxSeqLen
    requires b != b' || p != c / BLOCK
    ensures Stored(x, b, p, b' * x.maxSeqLen + c, before) == before
  {
    hide LaneValue, Input.UsedPagesExist;
    var i := b' * x.maxSeqLen + c - b * x.maxSeqLen - p * BLOCK;
    if 0 <= i < BLOCK && p * BLOCK + i < x.maxSeqLen {
      CellsDisjoint(b, p * BLOCK + i, b', c, x.maxSeqLen);
      assert false;
    }
  }

  /** No program stores the cell, or one in `done` has. */
  ghost predicate Reached(x: Input, done: seq<Cell>, b: nat, c: nat) {
    b < x.batch && c < x.maxSeqLen && (c / BLOCK >= x.GridWidth() || Cell(b, c / BLOCK) in done)
  }

  /** Every cell that no program stores, or that one in `done` has stored, is final. */
  ghost predicate FinalSoFar(x: Input, done: seq<Cell>, out: seq<Logit>)
    requires x.Shaped() && x.UsedPagesExist()
  {
    forall b: nat, c: nat :: Reached(x, done, b, c) ==> Final(x, out, b, c)
  }

  lemma LaunchStep(x: Input, schedule: seq<Cell>, n: nat, before: seq<Logit>, after: seq<Logit>)
    requires x.Shaped() && x.UsedPagesExist() && IsSchedule(x, schedule) && n < |schedule|
    requires |before| == |after| == x.batch * x.maxSeqLen && FinalSoFar(x, schedule[..n], before)
    requires schedule[n].b < x.batch && schedule[n].p < x.GridWidth()
    requires forall k :: 0 <= k < |after| ==> after[k] == Stored(x, schedule[n].b, schedule[n].p, k, before[k])
    ensures FinalSoFar(x, schedule[..n + 1], after)
  {
    hide Final, Stored, Input.UsedPagesExist;
    forall b: nat, c: nat | Reached(x, schedule[..n + 1], b, c) ensures Final(x, after, b, c) {
      ProgramFinalizes(x, schedule[n].b, schedule[n].p, before, after, b, c);
    }
  }

  lemma LaunchStart(x: Input, out: seq<Logit>)
    requires x.Shaped() && x.UsedPagesExist() && |out| == x.batch * x.maxSeqLen
    requires x.GridWidth() * BLOCK < x.maxSeqLen ==> forall k :: 0 <= k < |out| ==> out[k] == NegInf
    ensures FinalSoFar(x, [], out) && LanesFinalSoFar(x, [], out)
  {
    hide Final, Input.UsedPagesExist;
    forall b: nat, c: nat | b < x.batch && c < x.maxSeqLen && c / BLOCK >= x.GridWidth() ensures Final(x, out, b, c) {
      Prefilled(x, out, b, c);
    }
  }

  lemma LaunchEnd(x: Input, schedule: seq<Cell>, out: seq<Logit>)
    requires x.Shaped() && x.UsedPagesExist() && IsSchedule(x, schedule) && FinalSoFar(x, schedule, out)
    ensures forall b: nat, c: nat :: b < x.batch && c < x.maxSeqLen ==> Final(x, out, b, c)
  {
    hide Final, Input.UsedPagesExist;
    forall b: nat, c: nat | b < x.batch && c < x.maxSeqLen ensures Reached(x, schedule, b, c) {}
  }

  /** Launch the programs in any order over a buffer with arbitrary contents. */
  method Launch(x: Input, schedule: seq<Cell>) returns (out: array<Logit>)
    requires x.Shaped() && x.UsedPagesExist() && IsSchedule(x, schedule)
    ensures fresh(out) && out.Length == x.batch * x.maxSeqLen
    ensures forall b: nat, c: nat :: b < x.batch && c < x.maxSeqLen ==> Final(x, out[..], b, c)
  {
    hide Stored, Final, FinalSoFar, LanesFinalSoFar, Input.UsedPagesExist;
    out := new Logit[x.batch * x.maxSeqLen];
    if x.GridWidth() * BLOCK < x.maxSeqLen {
      forall k | 0 <= k < out.Length { out[k] := NegInf; }
    }
    LaunchStart(x, out[..]);
    assert schedule[..0] == [];
    for n := 0 to |schedule|
      invariant FinalSoFar(x, schedule[..n], out[..])
    {
      var cell := schedule[n];
      ghost var before := out[..];
      Program(x, cell.b, cell.p, out);
      LaunchStep(x, schedule, n, before, out[..]);
    }
    assert schedule[..|schedule|] == schedule;
    LaunchEnd(x, schedule, out[..]);
  }

  lemma Prefilled(x: Input, out: seq<Logit>, b: nat, c: nat)
    requires x.Shaped() && x.UsedPagesExist() && b < x.batch && c < x.maxSeqLen && c / BLOCK >= x.GridWidth()
    requires |out| == x.batch * x.maxSeqLen && forall k :: 0 <= k < |out| ==> out[k] == NegInf
    ensures Final(x, out, b, c)
  {
    InTable(b, x.maxSeqLen, c, x.batch);
  }

  // ---- the same, store by store --------------------------------------------------------

  datatype Lane = Lane(b: nat, p: nat, i: nat)

  predicate InGrid(x: Input, l: Lane) {
    l.b < x.batch && l.p < x.GridWidth() && l.i < BLOCK
  }

  /** All lanes of all programs, in any order: the programs interleave between the stores of
      single elements. */
  ghost predicate IsInterleaving(x: Input, stores: seq<Lane>) {
    && (forall l :: l in stores ==> InGrid(x, l))
    && (forall l :: InGrid(x, l) ==> l in stores)
  }

  /** No lane stores the cell, or the one that does is done. */
  ghost predicate LaneReached(x: Input, done: seq<Lane>, b: nat, c: nat) {
    b < x.batch && c < x.maxSeqLen && (c / BLOCK >= x.GridWidth() || Lane(b, c / BLOCK, c % BLOCK) in done)
  }

  /** One masked store: a lane behind MAX_SEQ stores nothing. */
  method StoreLane(x: Input, l: Lane, out: array<Logit>)
    requires x.Shaped() && x.UsedPagesExist() && InGrid(x, l) && out.Length == x.batch * x.maxSeqLen
    modifies out
    ensures out[..] == LaneStored(x, l, old(out[..]))
  {
    var c := l.p * BLOCK + l.i;
    if c < x.maxSeqLen {
      InTable(l.b, x.maxSeqLen, c, x.batch);
      out[l.b * x.maxSeqLen + c] := LaneValue(x, l.b, l.p, l.i);
    }
  }

  ghost function LaneStored(x: Input, l: Lane, before: seq<Logit>): (after: seq<Logit>)
    requires x.Shaped() && x.UsedPagesExist() && InGrid(x, l) && |before| == x.batch * x.maxSeqLen
    ensures |after| == |before|
  {
    var c := l.p * BLOCK + l.i;
    if c < x.maxSeqLen then
      InTable(l.b, x.maxSeqLen, c, x.batch);
      before[l.b * x.maxSeqLen + c := LaneValue(x, l.b, l.p, l.i)]
    else before
  }

  /** A store finalizes its cell and no other cell changes. */
  lemma LaneFinalizes(x: Input, l: Lane, before: seq<Logit>, b: nat, c: nat)
    requires x.Shaped() && x.UsedPagesExist() && InGrid(x, l) && b < x.batch && c < x.maxSeqLen
    requires |before| == x.batch * x.maxSeqLen
    requires l == Lane(b, c / BLOCK, c % BLOCK) || Final(x, before, b, c)
    ensures Final(x, LaneStored(x, l, before), b, c)
  {
    hide LaneValue, LaneStored, Input.UsedPagesExist;
    InTable(b, x.maxSeqLen, c, x.batch);
    LaneStoredAt(x, l, before, b, c);
  }

  lemma LaneStoredAt(x: Input, l: Lane, before: seq<Logit>, b: nat, c: nat)
    requires x.Shaped() && x.UsedPagesExist() && InGrid(x, l) && b < x.batch && c < x.maxSeqLen
    requires |before| == x.batch * x.maxSeqLen && b * x.maxSeqLen + c < |before|
    ensures LaneStored(x, l, before)[b * x.maxSeqLen + c] ==
            if l == Lane(b, c / BLOCK, c % BLOCK) then LaneValue(x, l.b, l.p, l.i) else before[b * x.maxSeqLen + c]
  {
    hide LaneValue, Input.UsedPagesExist, InGrid;
    OwnLane(x, l, b, c);
  }

  /** The address of a cell is stored to by its own lane only. */
  lemma OwnLane(x: Input, l: Lane, b: nat, c: nat)
    requires InGrid(x, l) && c < x.maxSeqLen
    ensures l == Lane(b, c / BLOCK, c % BLOCK) ==> l.p * BLOCK + l.i == c
    ensures l.p * BLOCK + l.i < x.maxSeqLen && l.b * x.maxSeqLen + (l.p * BLOCK + l.i) == b * x.maxSeqLen + c ==>
              l == Lane(b, c / BLOCK, c % BLOCK)
  {
    var own := l.p * BLOCK + l.i;
    if own < x.maxSeqLen && l.b * x.maxSeqLen + own == b * x.maxSeqLen + c {
      CellsDisjoint(l.b, own, b, c, x.maxSeqLen);
    }
  }

  ghost predicate LanesFinalSoFar(x: Input, done: seq<Lane>, out: seq<Logit>)
    requires x.Shaped() && x.UsedPagesExist()
  {
    forall b: nat, c: nat :: LaneReached(x, done, b, c) ==> Final(x, out, b, c)
  }

  lemma LanesStep(x: Input, stores: seq<Lane>, n: nat, before: seq<Logit>)
    requires x.Shaped() && x.UsedPagesExist() && n < |stores| && InGrid(x, stores[n])
    requires |before| == x.batch * x.maxSeqLen && LanesFinalSoFar(x, stores[..n], before)
    ensures LanesFinalSoFar(x, stores[..n + 1], LaneStored(x, stores[n], before))
  {
    hide Final, LaneStored, Input.UsedPagesExist, InGrid;
    forall b: nat, c: nat | LaneReached(x, stores[..n + 1], b, c)
      ensures Final(x, LaneStored(x, stores[n], before), b, c)
    {
      LaneFinalizes(x, stores[n], before, b, c);
    }
  }

  lemma LanesEnd(x: Input, stores: seq<Lane>, out: seq<Logit>)
    requires x.Shaped() && x.UsedPagesExist() && IsInterleaving(x, stores) && LanesFinalSoFar(x, stores, out)
    ensures forall b: nat, c: nat :: b < x.batch && c < x.maxSeqLen ==> Final(x, out, b, c)
  {
    hide Final, Input.UsedPagesExist;
    forall b: nat, c: nat | b < x.batch && c < x.maxSeqLen ensures LaneReached(x, stores, b, c) {
      assert c / BLOCK < x.GridWidth() ==> InGrid(x, Lane(b, c / BLOCK, c % BLOCK));
    }
  }

  /** Launch over a buffer with arbitrary contents, the programs interleaving at will. */
  method LaunchInterleaved(x: Input, stores: seq<Lane>) returns (out: array<Logit>)
    requires x.Shaped() && x.UsedPagesExist() && IsInterleaving(x, stores)
    ensures fresh(out) && out.Length == x.batch * x.maxSeqLen
    ensures forall b: nat, c: nat :: b < x.batch && c < x.maxSeqLen ==> Final(x, out[..], b, c)
  {
    hide LaneStored, Final, FinalSoFar, LanesFinalSoFar, Input.UsedPagesExist;
    out := new Logit[x.batch * x.maxSeqLen];
    if x.GridWidth() * BLOCK < x.maxSeqLen {
      forall k | 0 <= k < out.Length { out[k] := NegInf; }
    }
    LaunchStart(x, out[..]);
    assert stores[..0] == [];
    for n := 0 to |stores|
      invariant LanesFinalSoFar(x, stores[..n], out[..])
    {
      ghost var before := out[..];
      StoreLane(x, stores[n], out);
      LanesStep(x, stores, n, before);
    }
    assert stores[..|stores|] == stores;
    LanesEnd(x, stores, out[..]);
  }

  // ---- main results --------------------------------------------------------------------

  /** The buffer is filled beforehand exactly when the grid leaves some cell alone. */
  lemma PrefillExactlyWhenNeeded(x: Input)
    ensures x.GridWidth() * BLOCK < x.maxSeqLen <==> exists c: nat :: c < x.maxSeqLen && c / BLOCK >= x.GridWidth()
    ensures x.width >= x.MaxPages() ==> forall c: nat :: c < x.maxSeqLen ==> c / BLOCK < x.GridWidth()
  {
    if x.GridWidth() * BLOCK < x.maxSeqLen {
      assert (x.GridWidth() * BLOCK) / BLOCK >= x.GridWidth();
    }
  }

  /** Two programs never store to the same address. */
  lemma WritesDisjoint(x: Input, b: nat, p: nat, i: nat, b': nat, p': nat, i': nat)
    requires i < BLOCK && i' < BLOCK && p * BLOCK + i < x.maxSeqLen && p' * BLOCK + i' < x.maxSeqLen
    requires b * x.maxSeqLen + p * BLOCK + i == b' * x.maxSeqLen + p' * BLOCK + i'
    ensures b == b' && p == p' && i == i'
  {
    CellsDisjoint(b, p * BLOCK + i, b', p' * BLOCK + i', x.maxSeqLen);
  }

  /** The kernel's loads of query and weights are the reference's views. */
  lemma LoadsAreViews(x: Input, b: nat)
    requires x.Shaped() && b < x.batch && b < |x.q| / (x.heads * D) && b < |x.weight| / x.heads
    requires b * (x.heads * D) + x.heads * D <= |x.q| && b * x.heads + x.heads <= |x.weight|
    ensures QueryLoad(x, b) == QueryView(x, b) && WeightLoad(x, b) == View(x.weight, x.heads)[b]
  {
    var own := View(x.q, x.heads * D)[b];
    var at := b * (x.heads * D);
    assert own == x.q[at..at + x.heads * D];
    forall h | 0 <= h < x.heads ensures View(own, D)[h] == x.q[at + h * D..at + h * D + D] {
      assert h * D + D <= x.heads * D;
      SliceOfSlice(x.q, at, x.heads * D, h * D, D);
      ViewRow(own, D, h);
    }
  }

  /** Row `p * 64 + i` of the gathered values is where the kernel reads lane `i` of page `p`. */
  lemma ValueAddress(pages: seq<seq<Byte>>, p: nat, i: nat)
    requires forall k :: 0 <= k < |pages| ==> |pages[k]| == PAGE
    requires p < |pages| && i < BLOCK
    ensures p * BLOCK + i < |View(Flatten(Heads(pages)), D)|
    ensures View(Flatten(Heads(pages)), D)[p * BLOCK + i] == pages[p][i * D..i * D + D]
  {
    hide Flatten, View;
    var rows := Heads(pages);
    FlattenLength(rows, SCALE_OFFSET);
    FlattenSlice(rows, SCALE_OFFSET, p, i * D, D);
    ViewRow(Flatten(rows), D, p * BLOCK + i);
    assert rows[p][i * D..i * D + D] == pages[p][i * D..i * D + D];
  }

  lemma ScaleAddress(pages: seq<seq<Byte>>, p: nat, i: nat)
    requires forall k :: 0 <= k < |pages| ==> |pages[k]| == PAGE
    requires p < |pages| && i < BLOCK
    ensures p * BLOCK + i < |View(Flatten(Scales(pages)), 4)|
    ensures View(Flatten(Scales(pages)), 4)[p * BLOCK + i] == pages[p][SCALE_OFFSET + 4 * i..SCALE_OFFSET + 4 * i + 4]
  {
    hide Flatten, View;
    var rows := Scales(pages);
    FlattenLength(rows, PAGE - SCALE_OFFSET);
    FlattenSlice(rows, PAGE - SCALE_OFFSET, p, 4 * i, 4);
    ViewRow(Flatten(rows), 4, p * BLOCK + i);
    assert rows[p][4 * i..4 * i + 4] == pages[p][SCALE_OFFSET + 4 * i..SCALE_OFFSET + 4 * i + 4];
  }

  /** The bytes of a row in the gathered page are those at the kernel's two addresses. */
  lemma SameBytes(x: Input, b: nat, p: nat, i: nat, page: nat)
    requires x.Shaped() && ReferenceDefined(x) && b < x.batch && p < x.MaxPages() && i < BLOCK
    requires b * x.width + p < |x.pageTable| && page == x.pageTable[b * x.width + p] && x.IsPage(page)
    ensures GatheredPage(x, b, p)[i * D..i * D + D] == ValueLoad(x, page, i)
    ensures GatheredPage(x, b, p)[SCALE_OFFSET + 4 * i..SCALE_OFFSET + 4 * i + 4] == ScaleLoad(x, page, i)
  {
    hide View, RowAt;
    PageInCache(x, page);
    ViewRow(x.kv, PAGE, page);
    SliceOfSlice(x.kv, page * PAGE, PAGE, i * D, D);
    SliceOfSlice(x.kv, page * PAGE, PAGE, SCALE_OFFSET + 4 * i, 4);
  }

  lemma SliceOfSlice<T>(s: seq<T>, a: nat, n: nat, k: nat, len: nat)
    requires a + n <= |s| && k + len <= n
    ensures s[a..a + n][k..k + len] == s[a + k..a + k + len]
  {
    var row := s[a..a + n];
    var left, right := row[k..k + len], s[a + k..a + k + len];
    forall i | 0 <= i < len ensures left[i] == right[i] {
      assert left[i] == row[k + i] == s[a + (k + i)];
    }
  }

  /** So the reference's rows are the kernel's loads. */
  lemma RowsAreLoads(x: Input, b: nat, c: nat, page: nat)
    requires x.Shaped() && ReferenceDefined(x) && b < x.batch && c < x.maxSeqLen
    requires b * x.width + c / BLOCK < |x.pageTable| && page == x.pageTable[b * x.width + c / BLOCK] && x.IsPage(page)
    ensures c < x.MaxPages() * BLOCK
    ensures ValueRows(x, b)[c] == ValueLoad(x, page, c % BLOCK)
    ensures ScaleRows(x, b)[c] == ScaleLoad(x, page, c % BLOCK)
  {
    hide Flatten, View, Heads, Scales, ValueLoad, ScaleLoad, GatheredPage;
    ValueAddress(Gathered(x, b), c / BLOCK, c % BLOCK);
    ScaleAddress(Gathered(x, b), c / BLOCK, c % BLOCK);
    SameBytes(x, b, c / BLOCK, c % BLOCK, page);
  }

  /** Each score of the whole-tensor steps is the kernel's score of that row. */
  lemma ScoreOfRow(ops: Ops, kv: seq<seq<real>>, q: seq<seq<real>>, weight: seq<real>, scale: seq<real>, c: nat)
    requires |q| == |weight| && |kv| == |scale| && c < |kv|
    ensures |Scores(ops, kv, q, weight, scale)| == |kv|
    ensures Scores(ops, kv, q, weight, scale)[c] == RowScore(ops, kv[c], q, weight, scale[c])
  {
    var heads := seq(|q|, h requires 0 <= h < |q| => HeadTerm(ops, kv[c], q[h], weight[h]));
    var row := Bmm(ops, kv, q)[c];
    forall h | 0 <= h < |q| ensures Times(Relu(row), weight)[h] == heads[h] {
      assert row[h] == ops.dot(kv[c], q[h]) && Relu(row)[h] == Maximum(row[h], 0.0);
    }
    assert Times(Relu(row), weight) == heads;
  }

  /** The reference gathers every column, so it asks for more than the kernel. */
  lemma ReferenceNeedsMore(x: Input)
    requires x.Shaped() && ReferenceDefined(x)
    ensures x.UsedPagesExist() && x.GridWidth() == x.MaxPages()
  {
  }

  /** Kernel and reference agree in every cell, wherever the reference is defined. */
  lemma LaunchIsReference(x: Input, b: nat, c: nat)
    requires x.Shaped() && ReferenceDefined(x) && x.UsedPagesExist() && b < x.batch && c < x.maxSeqLen
    ensures LaunchValue(x, b, c) == Reference(x, b, c)
  {
    hide View, RowScore, Scores, QueryLoad, QueryView, WeightLoad, Decode, ValueLoad, ScaleLoad, ValueRows, ScaleRows;
    ReferenceNeedsMore(x);
    if c < x.seqLens[b] {
      RequestExists(x, b);
      ViewsFit(x, b);
      LoadsAreViews(x, b);
      PageId(x, b, c / BLOCK);
      RowsAreLoads(x, b, c, x.pageTable[b * x.width + c / BLOCK]);
      var scales := ScaleRows(x, b);
      ScoreOfRow(x.ops, DecodeAll(x.ops, ValueRows(x, b)), QueryView(x, b), View(x.weight, x.heads)[b],
                 seq(|scales|, k requires 0 <= k < |scales| => x.ops.fp32(scales[k])), c);
    }
  }

  // ---- the value of a logit ------------------------------------------------------------

  function Total(s: seq<real>): real {
    if s == [] then 0.0 else s[0] + Total(s[1..])
  }

  /** Exact arithmetic. */
  ghost predicate Exact(ops: Ops) {
    && (forall s :: ops.sum(s) == Total(s))
    && (forall u, v :: |u| == |v| ==> ops.dot(u, v) == Total(Times(u, v)))
  }

  function ByteAt(s: seq<Byte>, i: int): Byte { if 0 <= i < |s| then s[i] else 0 }

  /** The values of row `c % 64` of the page that holds position `c`. */
  function PositionRow(x: Input, c: nat, page: int): (r: seq<real>)
    ensures |r| == D
  {
    seq(D, (k: nat) => x.ops.fp8(ByteAt(x.kv, page * PAGE + c % BLOCK * D + k)))
  }

  function HeadRow(x: Input, b: nat, h: nat): (r: seq<real>)
    ensures |r| == D
  {
    seq(D, (k: nat) => x.ops.fp8(ByteAt(x.q, (b * x.heads + h) * D + k)))
  }

  /** What a head contributes: its weight times its dot product, if that is positive. */
  function HeadScore(x: Input, b: nat, c: nat, page: int, h: nat): real {
    var dot := Total(Times(PositionRow(x, c, page), HeadRow(x, b, h)));
    if dot > 0.0 && b * x.heads + h < |x.weight| then x.weight[b * x.heads + h] * dot else 0.0
  }

  /** The scale of position `c`, four bytes behind the values of its page. */
  function ScaleAt(x: Input, c: nat, page: int): real {
    var at := page * PAGE + BLOCK * D + 4 * (c % BLOCK);
    x.ops.fp32([ByteAt(x.kv, at), ByteAt(x.kv, at + 1), ByteAt(x.kv, at + 2), ByteAt(x.kv, at + 3)])
  }

  function PageOf(x: Input, b: nat, c: nat): int {
    var i := b * x.width + c / BLOCK;
    if i < |x.pageTable| then x.pageTable[i] else -1
  }

  lemma ValueIs(x: Input, c: nat, page: nat)
    requires x.IsPage(page)
    ensures Decode(x.ops, ValueLoad(x, page, c % BLOCK)) == PositionRow(x, c, page)
  {
    PageInCache(x, page);
    var offset := page * PAGE + c % BLOCK * D;
    var u, v := Decode(x.ops, ValueLoad(x, page, c % BLOCK)), PositionRow(x, c, page);
    forall k | 0 <= k < D ensures u[k] == v[k] {
      assert ValueLoad(x, page, c % BLOCK)[k] == x.kv[offset + k] == ByteAt(x.kv, offset + k);
    }
  }

  lemma QueryIs(x: Input, b: nat, h: nat)
    requires h < x.heads && b * (x.heads * D) + x.heads * D <= |x.q|
    ensures QueryLoad(x, b)[h] == HeadRow(x, b, h)
  {
    var at := b * (x.heads * D) + h * D;
    assert (b * x.heads + h) * D == at;
    assert h * D + D <= x.heads * D;
    var u, v := QueryLoad(x, b)[h], HeadRow(x, b, h);
    assert u == Decode(x.ops, x.q[at..at + D]);
    forall k | 0 <= k < D ensures u[k] == v[k] {
      assert x.q[at..at + D][k] == x.q[at + k] == ByteAt(x.q, at + k);
    }
  }

  lemma ScaleIs(x: Input, c: nat, page: nat)
    requires x.IsPage(page)
    ensures x.ops.fp32(ScaleLoad(x, page, c % BLOCK)) == ScaleAt(x, c, page)
  {
    PageInCache(x, page);
    var at := page * PAGE + BLOCK * D + 4 * (c % BLOCK);
    assert ScaleLoad(x, page, c % BLOCK)
        == [ByteAt(x.kv, at), ByteAt(x.kv, at + 1), ByteAt(x.kv, at + 2), ByteAt(x.kv, at + 3)];
  }

  lemma ExactDot(ops: Ops, u: seq<real>, v: seq<real>)
    requires Exact(ops) && |u| == |v|
    ensures ops.dot(u, v) == Total(Times(u, v))
  {
    hide Total, Times;
  }

  lemma ExactSum(ops: Ops, s: seq<real>)
    requires Exact(ops)
    ensures ops.sum(s) == Total(s)
  {
    hide Total;
  }

  lemma WeightIs(x: Input, b: nat, h: nat)
    requires h < x.heads && b * x.heads + x.heads <= |x.weight|
    ensures WeightLoad(x, b)[h] == x.weight[b * x.heads + h] && b * x.heads + h < |x.weight|
  {
  }

  lemma TermIs(ops: Ops, u: seq<real>, v: seq<real>, weight: real, dot: real)
    requires ops.dot(u, v) == dot
    ensures HeadTerm(ops, u, v, weight) == if dot > 0.0 then weight * dot else 0.0
  {
  }

  lemma HeadScoreIs(x: Input, b: nat, c: nat, page: nat, h: nat, index: nat)
    requires Exact(x.ops) && index == b * x.heads + h && index < |x.weight|
    ensures HeadTerm(x.ops, PositionRow(x, c, page), HeadRow(x, b, h), x.weight[index]) == HeadScore(x, b, c, page, h)
  {
    hide Exact, Total, Times, PositionRow, HeadRow, HeadTerm;
    var u, v := PositionRow(x, c, page), HeadRow(x, b, h);
    var dot := Total(Times(u, v));
    assert HeadScore(x, b, c, page, h) == if dot > 0.0 then x.weight[index] * dot else 0.0;
    hide *;
    ExactDot(x.ops, u, v);
    TermIs(x.ops, u, v, x.weight[index], dot);
  }

  lemma RowScoreIs(x: Input, b: nat, c: nat, page: nat)
    requires x.IsPage(page) && Exact(x.ops)
    requires b * (x.heads * D) + x.heads * D <= |x.q| && b * x.heads + x.heads <= |x.weight|
    ensures RowScore(x.ops, Decode(x.ops, ValueLoad(x, page, c % BLOCK)), QueryLoad(x, b), WeightLoad(x, b),
                     x.ops.fp32(ScaleLoad(x, page, c % BLOCK)))
         == Total(HeadScores(x, b, c, page)) * ScaleAt(x, c, page)
  {
    hide Exact, Total, Times, PositionRow, HeadRow, HeadTerm, HeadScore, RowScore, ScaleAt;
    hide Decode, ValueLoad, ScaleLoad, QueryLoad, WeightLoad;
    var q, w := QueryLoad(x, b), WeightLoad(x, b);
    ScaleIs(x, c, page);
    ValueIs(x, c, page);
    var u, terms := PositionRow(x, c, page), HeadScores(x, b, c, page);
    forall h | 0 <= h < x.heads ensures HeadTerm(x.ops, u, q[h], w[h]) == terms[h] {
      QueryIs(x, b, h);
      WeightIs(x, b, h);
      assert terms[h] == HeadScore(x, b, c, page, h) by { hide HeadScore; }
      hide *;
      HeadScoreIs(x, b, c, page, h, b * x.heads + h);
    }
    hide *;
    HeadsSum(x.ops, u, q, w, x.ops.fp32(ScaleLoad(x, page, c % BLOCK)), terms);
  }

  function HeadScores(x: Input, b: nat, c: nat, page: int): (r: seq<real>)
    ensures |r| == x.heads
  {
    seq(x.heads, (h: nat) => HeadScore(x, b, c, page, h))
  }

  lemma HeadsSum(ops: Ops, kvRow: seq<real>, q: seq<seq<real>>, weight: seq<real>, scale: real, terms: seq<real>)
    requires Exact(ops) && |q| == |weight| == |terms|
    requires forall h :: 0 <= h < |q| ==> HeadTerm(ops, kvRow, q[h], weight[h]) == terms[h]
    ensures RowScore(ops, kvRow, q, weight, scale) == Total(terms) * scale
  {
    hide Total, HeadTerm, Exact;
    assert seq(|q|, h requires 0 <= h < |q| => HeadTerm(ops, kvRow, q[h], weight[h])) == terms;
    ExactSum(ops, terms);
  }

  /** Every stored logit: what the heads contribute, summed, times the scale of the row; -inf
      behind the end of the sequence and outside the grid. */
  lemma LogitIs(x: Input, b: nat, c: nat)
    requires x.Shaped() && x.UsedPagesExist() && b < x.batch && c < x.maxSeqLen && Exact(x.ops)
    ensures LaunchValue(x, b, c)
         == if c < x.seqLens[b] && c / BLOCK < x.GridWidth()
            then Num(Total(HeadScores(x, b, c, PageOf(x, b, c))) * ScaleAt(x, c, PageOf(x, b, c)))
            else NegInf
  {
    hide RowScore, QueryLoad, WeightLoad, Decode, ValueLoad, ScaleLoad, HeadScores, ScaleAt, Total, Exact;
    if c < x.seqLens[b] && c / BLOCK < x.GridWidth() {
      var p := c / BLOCK;
      assert Within(b, x.width, p, x.batch) && x.IsPage(x.pageTable[b * x.width + p]);
      RequestExists(x, b);
      RowScoreIs(x, b, c, x.pageTable[b * x.width + p]);
    }
  }
}
