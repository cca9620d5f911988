/** Weight sharding of roles/k8s_dgx/files/sglang_cpu_shard.py: the splits, and the experts of
    a layer. */
module TensorSplit {

  datatype Result<T> = Ok(value: T) | AssertionError | KeyError

  /** A two-dimensional tensor; `width` counts its columns even when it has no rows. */
  datatype Matrix<T> = Matrix(rows: seq<seq<T>>, width: nat)
  {
    ghost predicate Valid() { forall i :: 0 <= i < |rows| ==> |rows[i]| == width }
  }

  /** The `rank`-th of equal slices of length `c`. */
  function Slice<T>(s: seq<T>, c: nat, rank: nat): seq<T>
    requires Fits(s, c, rank)
  {
    s[rank * c..(rank + 1) * c]
  }

  predicate Fits<T>(s: seq<T>, c: nat, rank: nat) {
    0 <= rank * c <= (rank + 1) * c <= |s|
  }

  /** The quotient by the number of ranks, if there is no remainder. */
  function Share(size: nat, tp: nat): (c: nat)
    requires tp > 0
  {
    size / tp
  }

  predicate Even(size: nat, tp: nat)
    requires tp > 0
  {
    size % tp == 0
  }

  lemma Quotient(size: nat, tp: nat)
    requires tp > 0
    ensures tp * Share(size, tp) <= size && (Even(size, tp) <==> tp * Share(size, tp) == size)
  {
    assert size == tp * (size / tp) + size % tp;
  }

  lemma RankFits(c: nat, tp: nat, rank: nat)
    requires rank < tp
    ensures 0 <= rank * c <= (rank + 1) * c <= tp * c
  {
    Grows(0, rank, c);
    Grows(rank, rank + 1, c);
    Grows(rank + 1, tp, c);
  }

  lemma {:induction false} Grows(a: nat, b: nat, c: nat)
    requires a <= b
    ensures a * c <= b * c
    decreases b
  {
    if a < b {
      Grows(a, b - 1, c);
      assert b * c == (b - 1) * c + c;
    }
  }

  lemma ShareFits<T>(s: seq<T>, tp: nat, rank: nat)
    requires tp > 0 && rank < tp
    ensures Fits(s, Share(|s|, tp), rank)
    ensures Even(|s|, tp) <==> tp * Share(|s|, tp) == |s|
  {
    hide Share, Even;
    Quotient(|s|, tp);
    RankFits(Share(|s|, tp), tp, rank);
  }

  function SplitColumn<T>(t: Matrix<T>, tp: nat, rank: nat): Result<Matrix<T>>
    requires t.Valid() && rank < tp
  {
    if !Even(t.width, tp) then AssertionError
    else
      var c := Share(t.width, tp);
      Ok(Matrix(seq(|t.rows|, i requires 0 <= i < |t.rows| =>
        ShareFits(t.rows[i], tp, rank); Slice(t.rows[i], c, rank)), c))
  }

  function SplitRow<T>(t: Matrix<T>, tp: nat, rank: nat): Result<Matrix<T>>
    requires rank < tp
  {
    if !Even(|t.rows|, tp) then AssertionError
    else
      ShareFits(t.rows, tp, rank);
      Ok(Matrix(Slice(t.rows, Share(|t.rows|, tp), rank), t.width))
  }

  /** The vocabulary rounded up to a multiple of the number of ranks. */
  function Chunk(vocab: nat, tp: nat): nat
    requires tp > 0
  {
    (vocab + tp - 1) / tp
  }

  function Padded<T>(rows: seq<T>, zero: T, size: nat): (r: seq<T>) {
    if |rows| < size then rows + seq(size - |rows|, _ => zero) else rows
  }

  function SplitVocab<T>(t: Matrix<T>, zero: seq<T>, tp: nat, rank: nat, vocab: nat): Matrix<T>
    requires rank < tp
  {
    var c := Chunk(vocab, tp);
    RankFits(c, tp, rank);
    Matrix(Slice(Padded(t.rows, zero, tp * c), c, rank), t.width)
  }

  // ---- joining the shards again --------------------------------------------------------

  function Join<T>(parts: seq<seq<T>>): seq<T> {
    if parts == [] then [] else Join(parts[..|parts| - 1]) + parts[|parts| - 1]
  }

  lemma {:induction false} SlicesJoin<T>(s: seq<T>, c: nat, n: nat, parts: seq<seq<T>>)
    requires n * c <= |s| && |parts| == n
    requires forall r :: 0 <= r < n ==> Fits(s, c, r) && parts[r] == Slice(s, c, r)
    ensures Join(parts) == s[..n * c]
  {
    if n > 0 {
      assert (n - 1) * c + c == n * c;
      SlicesJoin(s, c, n - 1, parts[..n - 1]);
      assert Fits(s, c, n - 1) && parts[n - 1] == Slice(s, c, n - 1);
      assert s[..n * c] == s[..(n - 1) * c] + s[(n - 1) * c..n * c];
    }
  }

  lemma EvenSlicesJoin<T>(s: seq<T>, tp: nat, parts: seq<seq<T>>)
    requires tp > 0 && Even(|s|, tp) && |parts| == tp
    requires forall r :: 0 <= r < tp ==> Fits(s, Share(|s|, tp), r) && parts[r] == Slice(s, Share(|s|, tp), r)
    ensures Join(parts) == s
  {
    ShareFits(s, tp, 0);
    SlicesJoin(s, Share(|s|, tp), tp, parts);
    assert s[..|s|] == s;
  }

  /** The column shards of all ranks, side by side, are the tensor. */
  lemma ColumnsRejoin<T>(t: Matrix<T>, tp: nat, shards: seq<Matrix<T>>, i: nat)
    requires t.Valid() && tp > 0 && |shards| == tp && i < |t.rows|
    requires forall r :: 0 <= r < tp ==> SplitColumn(t, tp, r) == Ok(shards[r])
    ensures forall r :: 0 <= r < tp ==> |shards[r].rows| == |t.rows|
    ensures Join(seq(tp, r requires 0 <= r < tp => shards[r].rows[i])) == t.rows[i]
  {
    assert SplitColumn(t, tp, 0) == Ok(shards[0]);
    forall r | 0 <= r < tp ensures |shards[r].rows| == |t.rows| && Fits(t.rows[i], Share(t.width, tp), r)
                                   && shards[r].rows[i] == Slice(t.rows[i], Share(t.width, tp), r) {
      ShareFits(t.rows[i], tp, r);
      assert SplitColumn(t, tp, r) == Ok(shards[r]);
    }
    EvenSlicesJoin(t.rows[i], tp, seq(tp, r requires 0 <= r < tp => shards[r].rows[i]));
  }

  /** The row shards of all ranks, one below the other, are the tensor. */
  lemma RowsRejoin<T>(t: Matrix<T>, tp: nat, shards: seq<Matrix<T>>)
    requires tp > 0 && |shards| == tp
    requires forall r :: 0 <= r < tp ==> SplitRow(t, tp, r) == Ok(shards[r])
    ensures Join(seq(tp, r requires 0 <= r < tp => shards[r].rows)) == t.rows
  {
    assert SplitRow(t, tp, 0) == Ok(shards[0]);
    forall r | 0 <= r < tp
      ensures Fits(t.rows, Share(|t.rows|, tp), r) && shards[r].rows == Slice(t.rows, Share(|t.rows|, tp), r)
    {
      ShareFits(t.rows, tp, r);
      assert SplitRow(t, tp, r) == Ok(shards[r]);
    }
    EvenSlicesJoin(t.rows, tp, seq(tp, r requires 0 <= r < tp => shards[r].rows));
  }

  /** The vocabulary shards hold the tensor and then rows of zeros; but a tensor with more
      rows than the padded vocabulary loses the rows beyond it. */
  lemma VocabRejoins<T>(t: Matrix<T>, zero: seq<T>, tp: nat, vocab: nat, shards: seq<seq<seq<T>>>)
    requires tp > 0 && |shards| == tp
    requires forall r :: 0 <= r < tp ==> shards[r] == SplitVocab(t, zero, tp, r, vocab).rows
    ensures vocab <= tp * Chunk(vocab, tp) < vocab + tp
    ensures |Join(shards)| == tp * Chunk(vocab, tp)
    ensures t.rows <= Join(shards) <==> |t.rows| <= tp * Chunk(vocab, tp)
    ensures forall k :: 0 <= k < |Join(shards)| ==> Join(shards)[k] == if k < |t.rows| then t.rows[k] else zero
  {
    var c := Chunk(vocab, tp);
    assert vocab + tp - 1 == tp * c + (vocab + tp - 1) % tp;
    var s := Padded(t.rows, zero, tp * c);
    forall r | 0 <= r < tp ensures Fits(s, c, r) && shards[r] == Slice(s, c, r) {
      RankFits(c, tp, r);
      assert shards[r] == SplitVocab(t, zero, tp, r, vocab).rows;
    }
    SlicesJoin(s, c, tp, shards);
  }
}

/** `process_moe_experts` for one weight suffix. */
module ExpertSharding {
  import opened TensorSplit

  /** The experts of a layer in the checkpoint. The program takes all shapes from the first. */
  datatype Experts<T> = Experts(gate: seq<Matrix<T>>, up: seq<Matrix<T>>, down: seq<Matrix<T>>,
                                inputs: nat, gateOut: nat, upOut: nat, downIn: nat, downOut: nat)
  {
    ghost predicate Valid() {
      && |gate| == |up| == |down|
      && (forall e :: 0 <= e < |gate| ==> gate[e].Valid() && |gate[e].rows| == inputs && gate[e].width == gateOut)
      && (forall e :: 0 <= e < |up| ==> up[e].Valid() && |up[e].rows| == inputs && up[e].width == upOut)
      && (forall e :: 0 <= e < |down| ==> down[e].Valid() && |down[e].rows| == downIn && down[e].width == downOut)
    }
  }

  datatype Shard<T> = Shard(w13: seq<Matrix<T>>, w2: seq<Matrix<T>>)

  /** Gate and up projection of one expert, in the columns of one matrix. */
  function Fused<T>(x: Experts<T>, e: nat): (m: Matrix<T>)
    requires x.Valid() && e < |x.gate|
    ensures m.Valid()
  {
    Matrix(seq(x.inputs, i requires 0 <= i < x.inputs => x.gate[e].rows[i] + x.up[e].rows[i]), x.gateOut + x.upOut)
  }

  function PerRank(n: nat, ep: nat): nat { if ep > 1 then n / ep else n }
  function Start(n: nat, ep: nat, rank: nat): nat { if ep > 1 then rank * PerRank(n, ep) else 0 }
  function InnerTp(tp: nat, ep: nat): nat { if ep > 1 then tp / ep else tp }
  function InnerRank(ep: nat, rank: nat): nat { if ep > 1 then 0 else rank }

  /** What the shard of local expert `k` is, by rank. */
  ghost predicate IsShard<T(!new)>(x: Experts<T>, tp: nat, ep: nat, rank: nat, r: Result<Shard<T>>)
    requires x.Valid() && rank < tp
  {
    var n, per, start, inner := |x.gate|, PerRank(|x.gate|, ep), Start(|x.gate|, ep, rank), InnerTp(tp, ep);
    if start >= n then r == Ok(Shard([], []))
    else if start + per > n then r == KeyError
    else if inner > 1 && (!Even(x.gateOut + x.upOut, inner) || !Even(x.downIn, inner)) then r == AssertionError
    else
      && r.Ok? && |r.value.w13| == |r.value.w2| == per
      && forall k :: 0 <= k < per ==>
           HoldsExpert(x, start + k, inner, InnerRank(ep, rank), r.value.w13[k], r.value.w2[k])
  }

  ghost predicate HoldsExpert<T(!new)>(x: Experts<T>, e: nat, inner: nat, innerRank: nat, w13: Matrix<T>, w2: Matrix<T>)
    requires x.Valid() && e < |x.gate|
  {
    if inner > 1 then
      && innerRank < inner
      && SplitColumn(Fused(x, e), inner, innerRank) == Ok(w13)
      && SplitRow(x.down[e], inner, innerRank) == Ok(w2)
    else w13 == Fused(x, e) && w2 == x.down[e]
  }

  ghost predicate Uniform<T(!new)>(stack: seq<Matrix<T>>, height: nat, width: nat) {
    forall k :: 0 <= k < |stack| ==> stack[k].Valid() && |stack[k].rows| == height && stack[k].width == width
  }

  /** A three-dimensional tensor is split matrix by matrix. */
  function SplitColumns<T(!new)>(stack: seq<Matrix<T>>, ghost height: nat, width: nat, tp: nat, rank: nat)
    : Result<seq<Matrix<T>>>
    requires Uniform(stack, height, width) && rank < tp
  {
    if !Even(width, tp) then AssertionError
    else Ok(seq(|stack|, k requires 0 <= k < |stack| => SplitColumn(stack[k], tp, rank).value))
  }

  function SplitRows<T(!new)>(stack: seq<Matrix<T>>, height: nat, ghost width: nat, tp: nat, rank: nat)
    : Result<seq<Matrix<T>>>
    requires Uniform(stack, height, width) && rank < tp
  {
    if !Even(height, tp) then AssertionError
    else Ok(seq(|stack|, k requires 0 <= k < |stack| => SplitRow(stack[k], tp, rank).value))
  }

  /** The loop over the experts of this rank fills two tensors, which inner tensor
      parallelism then splits. */
  method ProcessMoeExperts<T(!new)>(x: Experts<T>, tp: nat, ep: nat, rank: nat) returns (r: Result<Shard<T>>)
    requires x.Valid() && rank < tp
    ensures IsShard(x, tp, ep, rank, r)
  {
    var n, per, start := |x.gate|, PerRank(|x.gate|, ep), Start(|x.gate|, ep, rank);
    var inner, innerRank := InnerTp(tp, ep), InnerRank(ep, rank);
    assert inner > 1 ==> innerRank < inner;
    hide PerRank, Start, InnerTp, InnerRank, Fused;
    if start >= n { return Ok(Shard([], [])); }
    if start + per > n { return KeyError; }
    var empty: Matrix<T> := Matrix([], 0);
    var w13 := new Matrix<T>[per](_ => empty);
    var w2 := new Matrix<T>[per](_ => empty);
    var local := 0;
    while local < per
      invariant 0 <= local <= per
      invariant forall k :: 0 <= k < local ==> w13[k] == Fused(x, start + k) && w2[k] == x.down[start + k]
    {
      w13[local] := Fused(x, start + local);
      w2[local] := x.down[start + local];
      local := local + 1;
    }
    r := SplitInner(x, w13[..], w2[..], start, inner, innerRank);
  }

  method SplitInner<T(!new)>(
    x: Experts<T>, w13: seq<Matrix<T>>, w2: seq<Matrix<T>>, start: nat, inner: nat, innerRank: nat)
    returns (r: Result<Shard<T>>)
    requires x.Valid() && |w13| == |w2| && start + |w13| <= |x.gate| && (inner > 1 ==> innerRank < inner)
    requires forall k :: 0 <= k < |w13| ==> w13[k] == Fused(x, start + k) && w2[k] == x.down[start + k]
    ensures if inner > 1 && (!Even(x.gateOut + x.upOut, inner) || !Even(x.downIn, inner)) then r == AssertionError
            else
              && r.Ok? && |r.value.w13| == |r.value.w2| == |w13|
              && forall k :: 0 <= k < |w13| ==>
                   HoldsExpert(x, start + k, inner, innerRank, r.value.w13[k], r.value.w2[k])
  {
    if inner <= 1 { return Ok(Shard(w13, w2)); }
    var columns := SplitColumns(w13, x.inputs, x.gateOut + x.upOut, inner, innerRank);
    if columns.AssertionError? { return AssertionError; }
    var rows := SplitRows(w2, x.downIn, x.downOut, inner, innerRank);
    if rows.AssertionError? { return AssertionError; }
    hide Share;
    r := Ok(Shard(columns.value, rows.value));
  }

  // ---- what the ranks hold together ----------------------------------------------------

  function All13<T>(shards: seq<Shard<T>>): seq<seq<Matrix<T>>> {
    seq(|shards|, r requires 0 <= r < |shards| => shards[r].w13)
  }

  function All2<T>(shards: seq<Shard<T>>): seq<seq<Matrix<T>>> {
    seq(|shards|, r requires 0 <= r < |shards| => shards[r].w2)
  }

  function FusedAll<T>(x: Experts<T>): seq<Matrix<T>>
    requires x.Valid()
  {
    seq(|x.gate|, e requires 0 <= e < |x.gate| => Fused(x, e))
  }

  ghost predicate AreShards<T(!new)>(x: Experts<T>, tp: nat, ep: nat, shards: seq<Shard<T>>) {
    x.Valid() && |shards| == tp && forall r :: 0 <= r < tp ==> IsShard(x, tp, ep, r, Ok(shards[r]))
  }

  /** With one rank per expert group, rank `r` holds the `r`-th run of experts, whole. */
  lemma GroupSlice<T(!new)>(x: Experts<T>, tp: nat, shards: seq<Shard<T>>, r: nat)
    requires AreShards(x, tp, tp, shards) && tp > 1 && r < tp
    ensures var per := |x.gate| / tp;
            && Fits(FusedAll(x), per, r) && shards[r].w13 == Slice(FusedAll(x), per, r)
            && Fits(x.down, per, r) && shards[r].w2 == Slice(x.down, per, r)
  {
    var n, per := |x.gate|, |x.gate| / tp;
    ShareFits(x.down, tp, r);
    assert IsShard(x, tp, tp, r, Ok(shards[r]));
    assert InnerTp(tp, tp) == 1;
    hide Fused;
    if r * per < n {
      assert (r + 1) * per == r * per + per;
      forall k | 0 <= k < per
        ensures shards[r].w13[k] == FusedAll(x)[r * per + k] && shards[r].w2[k] == x.down[r * per + k]
      {
        assert HoldsExpert(x, r * per + k, 1, 0, shards[r].w13[k], shards[r].w2[k]);
      }
    }
  }

  /** `ep == tp`: joining the ranks gives the experts in order, each once, except that those
      left over by an uneven division are in no shard. So nothing is lost if and only if the
      number of ranks divides the number of experts. */
  lemma ExpertParallelism<T(!new)>(x: Experts<T>, tp: nat, shards: seq<Shard<T>>)
    requires AreShards(x, tp, tp, shards) && tp > 1
    ensures tp * (|x.gate| / tp) <= |x.gate|
    ensures Join(All13(shards)) == FusedAll(x)[..tp * (|x.gate| / tp)]
    ensures Join(All2(shards)) == x.down[..tp * (|x.gate| / tp)]
    ensures Join(All13(shards)) == FusedAll(x) && Join(All2(shards)) == x.down <==> |x.gate| % tp == 0
  {
    var n, per := |x.gate|, |x.gate| / tp;
    assert n == tp * per + n % tp;
    forall r | 0 <= r < tp
      ensures Fits(FusedAll(x), per, r) && All13(shards)[r] == Slice(FusedAll(x), per, r)
      ensures Fits(x.down, per, r) && All2(shards)[r] == Slice(x.down, per, r)
    {
      GroupSlice(x, tp, shards, r);
    }
    hide Fused;
    SlicesJoin(FusedAll(x), per, tp, All13(shards));
    SlicesJoin(x.down, per, tp, All2(shards));
    assert FusedAll(x)[..n] == FusedAll(x) && x.down[..n] == x.down;
  }

  /** Tensor parallelism alone: every rank has a part of every expert, and the parts side by
      side (gate and up), or one below the other (down), are the expert. */
  lemma TensorParallelism<T(!new)>(x: Experts<T>, tp: nat, ep: nat, shards: seq<Shard<T>>, e: nat, i: nat)
    requires AreShards(x, tp, ep, shards) && tp > 1 && ep <= 1 && e < |x.gate| && i < x.inputs
    ensures forall r :: 0 <= r < tp ==>
              |shards[r].w13| == |shards[r].w2| == |x.gate| && |shards[r].w13[e].rows| == x.inputs
    ensures Join(seq(tp, r requires 0 <= r < tp => shards[r].w13[e].rows[i])) == x.gate[e].rows[i] + x.up[e].rows[i]
    ensures Join(seq(tp, r requires 0 <= r < tp => shards[r].w2[e].rows)) == x.down[e].rows
  {
    forall r | 0 <= r < tp
      ensures |shards[r].w13| == |shards[r].w2| == |x.gate|
      ensures SplitColumn(Fused(x, e), tp, r) == Ok(shards[r].w13[e])
      ensures SplitRow(x.down[e], tp, r) == Ok(shards[r].w2[e])
    {
      EveryRankHasAPart(x, tp, ep, shards, e, r);
    }
    hide *;
    var columns := seq(tp, r requires 0 <= r < tp => shards[r].w13[e]);
    var rows := seq(tp, r requires 0 <= r < tp => shards[r].w2[e]);
    JoinColumns(x, tp, columns, e, i);
    RowsRejoin(x.down[e], tp, rows);
    assert seq(tp, r requires 0 <= r < tp => shards[r].w13[e].rows[i])
        == seq(tp, r requires 0 <= r < tp => columns[r].rows[i]);
    assert seq(tp, r requires 0 <= r < tp => shards[r].w2[e].rows) == seq(tp, r requires 0 <= r < tp => rows[r].rows);
  }

  lemma EveryRankHasAPart<T(!new)>(x: Experts<T>, tp: nat, ep: nat, shards: seq<Shard<T>>, e: nat, r: nat)
    requires AreShards(x, tp, ep, shards) && tp > 1 && ep <= 1 && e < |x.gate| && r < tp
    ensures |shards[r].w13| == |shards[r].w2| == |x.gate|
    ensures SplitColumn(Fused(x, e), tp, r) == Ok(shards[r].w13[e]) && SplitRow(x.down[e], tp, r) == Ok(shards[r].w2[e])
  {
    assert IsShard(x, tp, ep, r, Ok(shards[r]));
    hide Fused, SplitColumn, SplitRow;
    assert HoldsExpert(x, 0 + e, tp, r, shards[r].w13[e], shards[r].w2[e]);
  }

  lemma JoinColumns<T(!new)>(x: Experts<T>, tp: nat, columns: seq<Matrix<T>>, e: nat, i: nat)
    requires x.Valid() && e < |x.gate| && i < x.inputs && tp > 0 && |columns| == tp
    requires forall r :: 0 <= r < tp ==> SplitColumn(Fused(x, e), tp, r) == Ok(columns[r])
    ensures forall r :: 0 <= r < tp ==> |columns[r].rows| == x.inputs
    ensures Join(seq(tp, r requires 0 <= r < tp => columns[r].rows[i])) == x.gate[e].rows[i] + x.up[e].rows[i]
  {
    hide SplitColumn;
    ColumnsRejoin(Fused(x, e), tp, columns, i);
  }

  /** Both at once loses weights: every rank takes the first part of its experts, so no rank
      holds the last column of any expert it has. */
  lemma MixedParallelismLosesColumns<T(!new)>(
    x: Experts<T>, tp: nat, ep: nat, shards: seq<Shard<T>>, r: nat, k: nat, i: nat)
    requires AreShards(x, tp, ep, shards) && ep > 1 && InnerTp(tp, ep) > 1
    requires r < tp && k < |shards[r].w13| && i < x.inputs
    ensures Start(|x.gate|, ep, r) + k < |x.gate| && i < |shards[r].w13[k].rows|
    ensures FirstPart(x, Start(|x.gate|, ep, r) + k, i, InnerTp(tp, ep), shards[r].w13[k].rows[i])
  {
    assert IsShard(x, tp, ep, r, Ok(shards[r]));
    var e, inner := Start(|x.gate|, ep, r) + k, InnerTp(tp, ep);
    hide Start, PerRank, InnerTp, Fused, SplitColumn, SplitRow, FirstPart;
    assert HoldsExpert(x, e, inner, 0, shards[r].w13[k], shards[r].w2[k]);
    SplitIsFirstPart(x, e, i, inner, shards[r].w13[k]);
  }

  /** Only the first of `inner` equal parts of the expert's columns, never all of them. */
  ghost predicate FirstPart<T(!new)>(x: Experts<T>, e: nat, i: nat, inner: nat, row: seq<T>)
    requires x.Valid() && e < |x.gate| && i < x.inputs
  {
    var whole := x.gate[e].rows[i] + x.up[e].rows[i];
    row <= whole && |row| * inner == |whole| && (|whole| > 0 ==> row != whole)
  }

  lemma SplitIsFirstPart<T(!new)>(x: Experts<T>, e: nat, i: nat, inner: nat, m: Matrix<T>)
    requires x.Valid() && e < |x.gate| && i < x.inputs && inner > 1 && SplitColumn(Fused(x, e), inner, 0) == Ok(m)
    ensures |m.rows| == x.inputs && FirstPart(x, e, i, inner, m.rows[i])
  {
    var whole := Fused(x, e).rows[i];
    ShareFits(whole, inner, 0);
    FirstSlice(whole, Share(|whole|, inner), inner);
    assert m.rows[i] == Slice(whole, Share(|whole|, inner), 0);
    hide Even, Share, Slice, Fits, SplitColumn;
  }

  lemma FirstSlice<T>(whole: seq<T>, c: nat, inner: nat)
    requires inner > 1 && inner * c == |whole|
    ensures Fits(whole, c, 0) && |Slice(whole, c, 0)| == c && Slice(whole, c, 0) <= whole
    ensures c * inner == |whole| && (|whole| > 0 ==> c != |whole|)
  {
    assert inner * c >= 2 * c;
  }

  // ---- exactly when the ranks hold everything ------------------------------------------

  /** The `k`-th expert of rank `r` is expert `e`. */
  ghost predicate Local<T>(x: Experts<T>, ep: nat, shards: seq<Shard<T>>, r: nat, k: nat, e: nat) {
    r < |shards| && k < |shards[r].w13| && k < |shards[r].w2| && Start(|x.gate|, ep, r) + k == e
  }

  /** The `part`-th of equal parts of a given size holds position `c`. */
  predicate InPart(part: nat, size: nat, c: nat) {
    part * size <= c < part * size + size
  }

  /** `m` is the `part`-th part of the whole matrix's columns, column `c` is in it, and in every
      row it holds what the whole holds there. */
  ghost predicate ColumnIn<T(!new)>(m: Matrix<T>, whole: Matrix<T>, part: nat, c: nat) {
    && InPart(part, m.width, c) && |m.rows| == |whole.rows|
    && forall i :: 0 <= i < |whole.rows| ==>
         && |m.rows[i]| == m.width && c < |whole.rows[i]| && m.rows[i][c - part * m.width] == whole.rows[i][c]
  }

  /** The same for row `d`. */
  ghost predicate RowIn<T(!new)>(m: Matrix<T>, whole: Matrix<T>, part: nat, d: nat) {
    InPart(part, |m.rows|, d) && d < |whole.rows| && m.rows[d - part * |m.rows|] == whole.rows[d]
  }

  /** Some rank has this column of the expert's fused gate and up matrix. */
  ghost predicate HasColumn<T(!new)>(x: Experts<T>, ep: nat, shards: seq<Shard<T>>, e: nat, c: nat)
    requires x.Valid() && e < |x.gate|
  {
    exists r: nat, k: nat ::
      Local(x, ep, shards, r, k, e) && ColumnIn(shards[r].w13[k], Fused(x, e), InnerRank(ep, r), c)
  }

  /** Some rank has this row of the expert's down matrix. */
  ghost predicate HasRow<T(!new)>(x: Experts<T>, ep: nat, shards: seq<Shard<T>>, e: nat, d: nat)
    requires x.Valid() && e < |x.gate|
  {
    exists r: nat, k: nat ::
      Local(x, ep, shards, r, k, e) && RowIn(shards[r].w2[k], x.down[e], InnerRank(ep, r), d)
  }

  /** The ranks together hold every expert whole. */
  ghost predicate HoldEverything<T(!new)>(x: Experts<T>, ep: nat, shards: seq<Shard<T>>)
    requires x.Valid()
  {
    && (forall e: nat, c: nat :: e < |x.gate| && c < x.gateOut + x.upOut ==> HasColumn(x, ep, shards, e, c))
    && (forall e: nat, d: nat :: e < |x.gate| && d < x.downIn ==> HasRow(x, ep, shards, e, d))
  }

  /** Inner tensor parallelism must be off, and the ranks must reach the last expert. */
  predicate EnoughRanks(n: nat, tp: nat, ep: nat) {
    ep <= 1 || (InnerTp(tp, ep) <= 1 && tp * PerRank(n, ep) >= n)
  }

  lemma LocalPart<T(!new)>(x: Experts<T>, tp: nat, ep: nat, shards: seq<Shard<T>>, r: nat, k: nat)
    requires AreShards(x, tp, ep, shards) && r < tp && k < |shards[r].w13|
    ensures k < PerRank(|x.gate|, ep) && k < |shards[r].w2| && Start(|x.gate|, ep, r) + k < |x.gate|
    ensures HoldsExpert(x, Start(|x.gate|, ep, r) + k, InnerTp(tp, ep), InnerRank(ep, r),
                        shards[r].w13[k], shards[r].w2[k])
  {
    hide HoldsExpert, Start, PerRank, InnerTp, InnerRank;
    assert IsShard(x, tp, ep, r, Ok(shards[r]));
  }

  /** How large a part is. */
  lemma PartSize<T(!new)>(x: Experts<T>, e: nat, inner: nat, innerRank: nat, w13: Matrix<T>, w2: Matrix<T>)
    requires x.Valid() && e < |x.gate| && HoldsExpert(x, e, inner, innerRank, w13, w2)
    ensures inner <= 1 ==> w13.width == x.gateOut + x.upOut && |w2.rows| == x.downIn
    ensures inner > 1 ==> innerRank < inner && inner * w13.width == x.gateOut + x.upOut && inner * |w2.rows| == x.downIn
  {
    if inner > 1 {
      Quotient(x.gateOut + x.upOut, inner);
      Quotient(x.downIn, inner);
      RowPart(x.down[e], inner, innerRank, w2);
      hide Share, Even;
    }
  }

  /** A part holds what the expert holds there: its rows are slices of the expert's rows. */
  lemma PartIsSlice<T(!new)>(x: Experts<T>, e: nat, inner: nat, innerRank: nat, w13: Matrix<T>, w2: Matrix<T>)
    requires x.Valid() && e < |x.gate| && HoldsExpert(x, e, inner, innerRank, w13, w2)
    requires inner <= 1 ==> innerRank == 0
    ensures |w13.rows| == x.inputs
    ensures forall i :: 0 <= i < x.inputs ==>
              && Fits(Fused(x, e).rows[i], w13.width, innerRank)
              && w13.rows[i] == Slice(Fused(x, e).rows[i], w13.width, innerRank)
    ensures Fits(x.down[e].rows, |w2.rows|, innerRank) && w2.rows == Slice(x.down[e].rows, |w2.rows|, innerRank)
  {
    if inner > 1 {
      RowPart(x.down[e], inner, innerRank, w2);
      forall i | 0 <= i < x.inputs ensures Fits(Fused(x, e).rows[i], w13.width, innerRank)
      {
        ShareFits(Fused(x, e).rows[i], inner, innerRank);
      }
      ShareFits(x.down[e].rows, inner, innerRank);
      hide Share, Even, Fits;
    }
  }

  lemma ColumnOfSlice<T(!new)>(m: Matrix<T>, whole: Matrix<T>, part: nat, c: nat)
    requires whole.Valid() && |m.rows| == |whole.rows| && InPart(part, m.width, c) && c < whole.width
    requires forall i :: 0 <= i < |whole.rows| ==>
               Fits(whole.rows[i], m.width, part) && m.rows[i] == Slice(whole.rows[i], m.width, part)
    ensures ColumnIn(m, whole, part, c)
  {
    assert (part + 1) * m.width == part * m.width + m.width;
  }

  lemma RowOfSlice<T(!new)>(m: Matrix<T>, whole: Matrix<T>, part: nat, d: nat)
    requires InPart(part, |m.rows|, d) && d < |whole.rows|
    requires Fits(whole.rows, |m.rows|, part) && m.rows == Slice(whole.rows, |m.rows|, part)
    ensures RowIn(m, whole, part, d)
  {
    assert (part + 1) * |m.rows| == part * |m.rows| + |m.rows|;
  }

  /** So a position inside a local expert's part is held with its contents. */
  lemma PartHolds<T(!new)>(x: Experts<T>, tp: nat, ep: nat, shards: seq<Shard<T>>, e: nat, r: nat, k: nat, c: nat)
    requires AreShards(x, tp, ep, shards) && r < tp && Local(x, ep, shards, r, k, e) && e < |x.gate|
    requires ep <= 1 && tp <= 1 ==> r == 0
    ensures c < x.gateOut + x.upOut && InPart(InnerRank(ep, r), shards[r].w13[k].width, c) ==>
              HasColumn(x, ep, shards, e, c)
    ensures c < x.downIn && InPart(InnerRank(ep, r), |shards[r].w2[k].rows|, c) ==> HasRow(x, ep, shards, e, c)
  {
    var inner, part, w13, w2 := InnerTp(tp, ep), InnerRank(ep, r), shards[r].w13[k], shards[r].w2[k];
    LocalPart(x, tp, ep, shards, r, k);
    assert inner <= 1 ==> part == 0;
    assert |x.down[e].rows| == x.downIn && Fused(x, e).width == x.gateOut + x.upOut && |Fused(x, e).rows| == x.inputs;
    hide AreShards, HoldsExpert, Fused, InnerTp, InnerRank, InPart, Fits, Slice, Start, PerRank;
    PartIsSlice(x, e, inner, part, w13, w2);
    if c < x.gateOut + x.upOut && InPart(part, w13.width, c) { ColumnOfSlice(w13, Fused(x, e), part, c); }
    if c < x.downIn && InPart(part, |w2.rows|, c) { RowOfSlice(w2, x.down[e], part, c); }
    hide ColumnIn, RowIn;
  }

  lemma RowPart<T(!new)>(t: Matrix<T>, inner: nat, innerRank: nat, m: Matrix<T>)
    requires innerRank < inner && SplitRow(t, inner, innerRank) == Ok(m)
    ensures |m.rows| == Share(|t.rows|, inner) && Even(|t.rows|, inner)
  {
    var c := Share(|t.rows|, inner);
    ShareFits(t.rows, inner, innerRank);
    hide Share, Even;
    assert (innerRank + 1) * c - innerRank * c == c;
  }

  lemma LastIsOutside(size: nat, inner: nat)
    requires inner > 1 && inner * size > 0
    ensures !InPart(0, size, inner * size - 1)
  {
    assert inner * size == 2 * size + (inner - 2) * size;
  }

  /** With inner tensor parallelism inside expert groups the last columns and rows are lost. */
  lemma MixedLoses<T(!new)>(x: Experts<T>, tp: nat, ep: nat, shards: seq<Shard<T>>, e: nat)
    requires AreShards(x, tp, ep, shards) && ep > 1 && InnerTp(tp, ep) > 1 && e < |x.gate|
    ensures x.gateOut + x.upOut > 0 ==> !HasColumn(x, ep, shards, e, x.gateOut + x.upOut - 1)
    ensures x.downIn > 0 ==> !HasRow(x, ep, shards, e, x.downIn - 1)
  {
    var inner := InnerTp(tp, ep);
    forall r: nat, k: nat | Local(x, ep, shards, r, k, e)
      ensures x.gateOut + x.upOut > 0 ==> !InPart(InnerRank(ep, r), shards[r].w13[k].width, x.gateOut + x.upOut - 1)
      ensures x.downIn > 0 ==> !InPart(InnerRank(ep, r), |shards[r].w2[k].rows|, x.downIn - 1)
    {
      LocalPart(x, tp, ep, shards, r, k);
      PartSize(x, e, inner, InnerRank(ep, r), shards[r].w13[k], shards[r].w2[k]);
      hide HoldsExpert, Start, PerRank, InnerTp, InPart, AreShards;
      if x.gateOut + x.upOut > 0 { LastIsOutside(shards[r].w13[k].width, inner); }
      if x.downIn > 0 { LastIsOutside(|shards[r].w2[k].rows|, inner); }
    }
    hide Local, InPart, AreShards, InnerTp, InnerRank;
  }

  /** Experts behind the last rank's are in no shard. */
  lemma TooFewRanksLose<T(!new)>(x: Experts<T>, tp: nat, ep: nat, shards: seq<Shard<T>>, r: nat, k: nat)
    requires AreShards(x, tp, ep, shards) && ep > 1
    ensures !Local(x, ep, shards, r, k, tp * PerRank(|x.gate|, ep))
  {
    if r < tp && k < |shards[r].w13| {
      LocalPart(x, tp, ep, shards, r, k);
      var per := PerRank(|x.gate|, ep);
      hide HoldsExpert, PerRank, AreShards;
      RankFits(per, tp, r);
      assert (r + 1) * per == r * per + per;
    }
  }

  /** Without it, and with enough ranks, every expert is in one shard, whole. */
  lemma EachExpertInOneShard<T(!new)>(x: Experts<T>, tp: nat, ep: nat, shards: seq<Shard<T>>, e: nat)
    returns (r: nat, k: nat)
    requires AreShards(x, tp, ep, shards) && ep > 1 && EnoughRanks(|x.gate|, tp, ep) && e < |x.gate|
    ensures Local(x, ep, shards, r, k, e) && shards[r].w13[k] == Fused(x, e) && shards[r].w2[k] == x.down[e]
  {
    r, k := RankOf(tp, PerRank(|x.gate|, ep), e);
    hide PerRank, Fused, InnerTp, EnoughRanks;
    assert IsShard(x, tp, ep, r, Ok(shards[r]));
    assert HoldsExpert(x, e, InnerTp(tp, ep), InnerRank(ep, r), shards[r].w13[k], shards[r].w2[k]);
  }

  lemma RankOf(tp: nat, per: nat, e: nat) returns (r: nat, k: nat)
    requires e < tp * per
    ensures r < tp && k < per && r * per + k == e
  {
    assert per == 0 ==> tp * per == 0;
    r, k := e / per, e % per;
    assert e == per * r + k && per * r == per * tp + per * (r - tp);
  }

  /** Tensor parallelism alone spreads every expert over all ranks. */
  lemma SpreadOverRanks<T(!new)>(x: Experts<T>, tp: nat, ep: nat, shards: seq<Shard<T>>, e: nat, c: nat)
    requires AreShards(x, tp, ep, shards) && tp > 0 && ep <= 1 && e < |x.gate|
    ensures c < x.gateOut + x.upOut ==> HasColumn(x, ep, shards, e, c)
    ensures c < x.downIn ==> HasRow(x, ep, shards, e, c)
  {
    forall r | 0 <= r < tp
      ensures Local(x, ep, shards, r, e, e) && InnerRank(ep, r) == r
      ensures tp == 1 ==> shards[r].w13[e].width == x.gateOut + x.upOut && |shards[r].w2[e].rows| == x.downIn
      ensures tp > 1 ==> tp * shards[r].w13[e].width == x.gateOut + x.upOut && tp * |shards[r].w2[e].rows| == x.downIn
    {
      assert IsShard(x, tp, ep, r, Ok(shards[r]));
      LocalPart(x, tp, ep, shards, r, e);
      PartSize(x, e, tp, r, shards[r].w13[e], shards[r].w2[e]);
    }
    hide AreShards, Local, InPart, InnerRank;
    if c < x.gateOut + x.upOut {
      var r := PartOf(tp, x.gateOut + x.upOut, c);
      SamePart(tp, x.gateOut + x.upOut, shards[r].w13[e].width, r, c);
      PartHolds(x, tp, ep, shards, e, r, e, c);
    }
    if c < x.downIn {
      var r := PartOf(tp, x.downIn, c);
      SamePart(tp, x.downIn, |shards[r].w2[e].rows|, r, c);
      PartHolds(x, tp, ep, shards, e, r, e, c);
    }
  }

  /** The rank whose part holds position `c`. */
  lemma PartOf(tp: nat, size: nat, c: nat) returns (r: nat)
    requires tp > 0 && c < size
    ensures r < tp && (Even(size, tp) ==> InPart(r, Share(size, tp), c))
  {
    if Even(size, tp) {
      Quotient(size, tp);
      var w := Share(size, tp);
      hide Share, Even;
      assert w == 0 ==> tp * w == 0;
      r := c / w;
      assert c == w * r + c % w;
      if r >= tp { assert w * r == w * tp + w * (r - tp); }
    } else {
      r := 0;
    }
  }

  lemma SamePart(tp: nat, size: nat, w: nat, r: nat, c: nat)
    requires tp > 0 && (if tp == 1 then w == size else tp * w == size)
    requires Even(size, tp) ==> InPart(r, Share(size, tp), c)
    ensures InPart(r, w, c)
  {
    assert tp * w == size;
    Quotients(size, tp, w);
  }

  lemma Quotients(size: nat, tp: nat, w: nat)
    requires tp > 0 && tp * w == size
    ensures Even(size, tp) && Share(size, tp) == w
  {
    assert size == tp * (size / tp) + size % tp;
    var d: int := w - size / tp;
    assert tp * d == size % tp;
    assert d > 0 ==> tp * d >= tp;
    assert d < 0 ==> tp * d + tp <= 0;
  }

  /** Exactly when the ranks together hold every expert whole, provided that none failed and
      that there is something to hold: there are no expert groups, or no tensor parallelism
      inside them and enough of them to reach the last expert. */
  lemma HoldEverythingIff<T(!new)>(x: Experts<T>, tp: nat, ep: nat, shards: seq<Shard<T>>)
    requires AreShards(x, tp, ep, shards) && tp > 0 && |x.gate| > 0 && (x.gateOut + x.upOut > 0 || x.downIn > 0)
    ensures HoldEverything(x, ep, shards) <==> EnoughRanks(|x.gate|, tp, ep)
    ensures EnoughRanks(|x.gate|, tp, ep) <==> ep <= 1 || (tp / ep <= 1 && tp * (|x.gate| / ep) >= |x.gate|)
  {
    assert x.Valid();
    hide AreShards, HasColumn, HasRow, InnerTp, PerRank;
    if ep <= 1 {
      forall e: nat, c: nat | e < |x.gate|
        ensures c < x.gateOut + x.upOut ==> HasColumn(x, ep, shards, e, c)
        ensures c < x.downIn ==> HasRow(x, ep, shards, e, c)
      {
        SpreadOverRanks(x, tp, ep, shards, e, c);
      }
    } else if EnoughRanks(|x.gate|, tp, ep) {
      forall e: nat, c: nat | e < |x.gate|
        ensures c < x.gateOut + x.upOut ==> HasColumn(x, ep, shards, e, c)
        ensures c < x.downIn ==> HasRow(x, ep, shards, e, c)
      {
        HoldsWhole(x, tp, ep, shards, e, c);
      }
    } else if InnerTp(tp, ep) > 1 {
      MixedLoses(x, tp, ep, shards, 0);
    } else {
      LosesLastExperts(x, tp, ep, shards);
    }
  }

  lemma HoldsWhole<T(!new)>(x: Experts<T>, tp: nat, ep: nat, shards: seq<Shard<T>>, e: nat, c: nat)
    requires AreShards(x, tp, ep, shards) && ep > 1 && EnoughRanks(|x.gate|, tp, ep) && e < |x.gate|
    ensures c < x.gateOut + x.upOut ==> HasColumn(x, ep, shards, e, c)
    ensures c < x.downIn ==> HasRow(x, ep, shards, e, c)
  {
    var r, k := EachExpertInOneShard(x, tp, ep, shards, e);
    assert InnerRank(ep, r) == 0 && Fused(x, e).width == x.gateOut + x.upOut && |x.down[e].rows| == x.downIn;
    assert r < tp;
    hide AreShards, Local, EnoughRanks, Fused, HasColumn, HasRow;
    PartHolds(x, tp, ep, shards, e, r, k, c);
  }

  lemma LosesLastExperts<T(!new)>(x: Experts<T>, tp: nat, ep: nat, shards: seq<Shard<T>>)
    requires AreShards(x, tp, ep, shards) && ep > 1 && tp * PerRank(|x.gate|, ep) < |x.gate|
    ensures var e := tp * PerRank(|x.gate|, ep);
            !HasColumn(x, ep, shards, e, 0) && !HasRow(x, ep, shards, e, 0)
  {
    forall r: nat, k: nat ensures !Local(x, ep, shards, r, k, tp * PerRank(|x.gate|, ep)) {
      TooFewRanksLose(x, tp, ep, shards, r, k);
    }
    hide AreShards, Local, InPart;
  }

  /** Two experts with one input, two fused columns and two rows of `down`. */
  const PAIR := Experts([Matrix([[1]], 1), Matrix([[2]], 1)], [Matrix([[3]], 1), Matrix([[4]], 1)],
                        [Matrix([[5], [6]], 1), Matrix([[7], [8]], 1)], 1, 1, 1, 2, 1)

  lemma FirstHalf(a: int, b: int)
    ensures Matrix([[a, b]], 2).Valid() && SplitColumn(Matrix([[a, b]], 2), 2, 0) == Ok(Matrix([[a]], 1))
    ensures SplitRow(Matrix([[a], [b]], 1), 2, 0) == Ok(Matrix([[a]], 1))
  {
    assert Share(2, 2) == 1 && Even(2, 2);
    hide Share, Even;
    assert Slice([a, b], 1, 0) == [a] && Slice([[a], [b]], 1, 0) == [[a]];
    var m := Matrix([[a, b]], 2);
    assert SplitColumn(m, 2, 0).value.rows == [[a]];
  }

  lemma PairShard(e: nat, w13: Matrix<int>, w2: Matrix<int>)
    requires e < 2 && w13 == Matrix([[e + 1]], 1) && w2 == Matrix([[2 * e + 5]], 1)
    ensures PAIR.Valid() && HoldsExpert(PAIR, e, 2, 0, w13, w2)
  {
    FirstHalf(e + 1, e + 3);
    FirstHalf(2 * e + 5, 2 * e + 6);
    hide SplitColumn, SplitRow;
    assert PAIR.gate[e].rows[0] == [e + 1] && PAIR.up[e].rows[0] == [e + 3];
    assert [e + 1] + [e + 3] == [e + 1, e + 3];
    assert Fused(PAIR, e).rows == [[e + 1, e + 3]];
    assert PAIR.down[e] == Matrix([[2 * e + 5], [2 * e + 6]], 1);
  }

  /** What four ranks in two groups make of them. */
  const PAIR_SHARDS: seq<Shard<int>> :=
    [Shard([Matrix([[1]], 1)], [Matrix([[5]], 1)]),
     Shard([Matrix([[2]], 1)], [Matrix([[7]], 1)]), Shard([], []), Shard([], [])]

  lemma PairIsShard(r: nat)
    requires r < 4
    ensures PAIR.Valid() && IsShard(PAIR, 4, 2, r, Ok(PAIR_SHARDS[r]))
  {
    if r < 2 { PairShard(r, PAIR_SHARDS[r].w13[0], PAIR_SHARDS[r].w2[0]); }
    hide HoldsExpert, Fused;
  }

  /** For example: both experts lose their second column, which is their up projection, and
      their second row. */
  lemma PairOnFourRanks()
    ensures AreShards(PAIR, 4, 2, PAIR_SHARDS) && !HoldEverything(PAIR, 2, PAIR_SHARDS)
  {
    forall r | 0 <= r < 4 ensures PAIR.Valid() && IsShard(PAIR, 4, 2, r, Ok(PAIR_SHARDS[r])) { PairIsShard(r); }
    hide IsShard, HoldEverything;
    assert AreShards(PAIR, 4, 2, PAIR_SHARDS);
    HoldEverythingIff(PAIR, 4, 2, PAIR_SHARDS);
  }
}
