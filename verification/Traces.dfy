// Which nodes each benchmark of latency_measurer.cpp reads, as functions of the
// call's arguments and the number of nodes alone.

module Traces {
  import opened Modular
  import opened Rings

  const LATENCY_BATCH := 128
  const STORE_BATCH := 256
  const STORE_SLOTS := 16
  const MIN_BUFFER_SIZE := 32 * 1024 * 1024
  const MIN_NODES := 524288

  // The buffer holds at least MIN_BUFFER_SIZE bytes, cut down to whole lines.
  function NodeCount(requested: nat): (n: nat)
    ensures n >= MIN_NODES == 524288 && MIN_BUFFER_SIZE == 33554432
    ensures n * LINE <= (if requested > MIN_BUFFER_SIZE then requested else MIN_BUFFER_SIZE) < (n + 1) * LINE
  {
    (if requested > MIN_BUFFER_SIZE then requested else MIN_BUFFER_SIZE) / LINE
  }

  datatype Call =
    | Hit(iterations: int, warmup: int, rounds: int)
    | ForcedMiss(iterations: int, warmup: int, rounds: int)
    | Stores(iterations: int, warmup: int, rounds: int)
    | Strides(strides: seq<nat>, iterations: int, warmup: int, rounds: int)

  predicate Accepted(iterations: int, warmup: int, rounds: int) {
    iterations > 0 && warmup >= 0 && rounds > 0
  }

  // One sample for each iteration of each round.
  function SampleCount(rounds: nat, iterations: nat): nat {
    ProductNatural(rounds, iterations);
    rounds * iterations
  }

  lemma RoundDone(round: nat, iterations: nat)
    ensures SampleCount(0, iterations) == 0
    ensures SampleCount(round + 1, iterations) == SampleCount(round, iterations) + iterations
  {
    Distribute(round, 1, iterations);
  }

  // --- one benchmark each ---------------------------------------------------

  function HitTrace(batches: nat): seq<nat> {
    if batches == 0 then [] else HitTrace(batches - 1) + seq(LATENCY_BATCH, _ => 0)
  }

  // Batch b of a forced-miss run covers the positions from b % n on.
  function MissTrace(order: seq<nat>, batches: nat): seq<nat>
    requires |order| > 0
  {
    if batches == 0 then []
    else MissTrace(order, batches - 1) + Window(order, (batches - 1) % |order|, LATENCY_BATCH)
  }

  lemma MissLastBatch(order: seq<nat>, batches: nat, j: nat)
    requires |order| > 0 && batches > 0 && j < LATENCY_BATCH
    requires |MissTrace(order, batches - 1)| == (batches - 1) * LATENCY_BATCH
    ensures |MissTrace(order, batches)| == batches * LATENCY_BATCH
    ensures MissTrace(order, batches - 1) <= MissTrace(order, batches)
    ensures MissTrace(order, batches)[(batches - 1) * LATENCY_BATCH + j] == order[Cyclic(batches - 1 + j, |order|)]
  {
    var b, earlier := batches - 1, MissTrace(order, batches - 1);
    CyclicAdd(b, j, |order|);
    var window := Window(order, Cyclic(b, |order|), LATENCY_BATCH);
    assert MissTrace(order, batches) == earlier + window;
    hide Cyclic, MissTrace;
    assert (earlier + window)[|earlier| + j] == window[j];
  }

  // The j-th load of batch b reads the node b + j positions into the order.
  lemma {:induction false} MissTraceAt(order: seq<nat>, batches: nat, b: nat, j: nat)
    requires |order| > 0 && b < batches && j < 128
    ensures |MissTrace(order, batches)| == batches * 128
    ensures MissTrace(order, batches)[b * 128 + j] == order[Cyclic(b + j, |order|)]
    decreases batches
  {
    if batches > 1 {
      MissTraceAt(order, batches - 1, if b < batches - 1 then b else 0, j);
    }
    assert |MissTrace(order, 0)| == 0;
    hide MissTrace, Cyclic;
    MissLastBatch(order, batches, j);
    if b < batches - 1 {
      assert b * LATENCY_BATCH + j < (batches - 1) * LATENCY_BATCH;
    }
  }

  lemma NothingRead(order: seq<nat>)
    requires |order| > 0
    ensures HitTrace(0) == [] && MissTrace(order, 0) == []
  {
  }

  function StrideWindow(n: nat, d: nat, x: nat, k: nat): seq<nat>
    requires n > 0
  {
    seq(k, i requires 0 <= i < k => (x + i * d) % n)
  }

  lemma StrideTrace(n: nat, d: nat, x: nat, k: nat)
    requires x < n
    ensures ChaseTrace(StrideRing(n, d), x, k) == StrideWindow(n, d, x, k)
  {
    forall i | 0 <= i < k ensures ChaseTrace(StrideRing(n, d), x, k)[i] == (x + i * d) % n {
      ChaseReadsFollow(StrideRing(n, d), x, k, i);
      StrideFollow(n, d, x, i);
    }
  }

  // Successive batches start one link apart; reading that link costs one more load.
  function StrideBatches(n: nat, d: nat, x: nat, batches: nat): seq<nat>
    requires n > 0
  {
    if batches == 0 then []
    else
      var start := (x + (batches - 1) * d) % n;
      StrideBatches(n, d, x, batches - 1) + StrideWindow(n, d, start, LATENCY_BATCH) + [start]
  }

  // Where load j of batch b of a run from x reads: b + j strides on; the load
  // after the batch reads the batch's own first node again.
  function StrideNode(n: nat, d: nat, x: nat, b: nat, j: nat): int
    requires n > 0
  {
    (x + (if j < LATENCY_BATCH then b + j else b) * d) % n
  }

  lemma StrideLastBatch(n: nat, d: nat, x: nat, batches: nat, j: nat)
    requires n > 0 && batches > 0 && j <= LATENCY_BATCH
    requires |StrideBatches(n, d, x, batches - 1)| == (batches - 1) * (LATENCY_BATCH + 1)
    ensures |StrideBatches(n, d, x, batches)| == batches * (LATENCY_BATCH + 1)
    ensures StrideBatches(n, d, x, batches - 1) <= StrideBatches(n, d, x, batches)
    ensures StrideBatches(n, d, x, batches)[(batches - 1) * (LATENCY_BATCH + 1) + j]
            == StrideNode(n, d, x, batches - 1, j)
  {
    var b, start := batches - 1, (x + (batches - 1) * d) % n;
    AddMod(x + b * d, j * d, n);
    Distribute(b, j, d);
    assert StrideBatches(n, d, x, batches)
        == StrideBatches(n, d, x, b) + StrideWindow(n, d, start, LATENCY_BATCH) + [start];
  }

  lemma {:induction false} StrideBatchesAt(n: nat, d: nat, x: nat, batches: nat, b: nat, j: nat)
    requires n > 0 && b < batches && j <= 128
    ensures |StrideBatches(n, d, x, batches)| == batches * 129
    ensures StrideBatches(n, d, x, batches)[b * 129 + j] == StrideNode(n, d, x, b, j)
    decreases batches
  {
    if batches > 1 {
      StrideBatchesAt(n, d, x, batches - 1, if b < batches - 1 then b else 0, j);
    }
    assert |StrideBatches(n, d, x, 0)| == 0;
    hide StrideBatches, StrideNode;
    StrideLastBatch(n, d, x, batches, j);
    if b < batches - 1 {
      assert b * (LATENCY_BATCH + 1) + j < (batches - 1) * (LATENCY_BATCH + 1);
    }
  }

  function StrideRounds(n: nat, d: nat, rounds: nat, iterations: nat): seq<nat>
    requires n > 0
  {
    if rounds == 0 then []
    else StrideRounds(n, d, rounds - 1, iterations) + StrideBatches(n, d, (rounds - 1) % n, iterations)
  }

  function RoundStride(raw: nat): nat {
    if raw / LINE * LINE > LINE then raw / LINE * LINE else LINE
  }

  // The stride becomes whole lines, at least one, and the ring steps as many.
  lemma WholeLines(raw: nat)
    ensures var stride := RoundStride(raw);
            && stride == StrideLines(stride) * LINE
            && StrideLines(stride) == StrideLines(raw)
            && StrideLines(raw) == (if raw / 64 > 1 then raw / 64 else 1)
            && (raw >= LINE ==> stride <= raw < stride + LINE)
  {
  }

  function StrideTraces(n: nat, raw: nat, iterations: nat, warmup: nat, rounds: nat): seq<nat>
    requires n > 0
  {
    var d := StrideLines(RoundStride(raw));
    StrideBatches(n, d, 0, warmup) + StrideRounds(n, d, rounds, iterations)
  }

  function StridesTrace(n: nat, strides: seq<nat>, iterations: nat, warmup: nat, rounds: nat): seq<nat>
    requires n > 0
    decreases |strides|
  {
    if strides == [] then []
    else
      var last := |strides| - 1;
      StridesTrace(n, strides[..last], iterations, warmup, rounds)
      + StrideTraces(n, strides[last], iterations, warmup, rounds)
  }

  lemma NoStrides(n: nat, strides: seq<nat>, iterations: nat, warmup: nat, rounds: nat)
    requires n > 0
    ensures StridesTrace(n, strides[..0], iterations, warmup, rounds) == []
  {
  }

  lemma OneMoreStride(n: nat, strides: seq<nat>, s: nat, iterations: nat, warmup: nat, rounds: nat)
    requires n > 0 && s < |strides|
    ensures StridesTrace(n, strides[..s + 1], iterations, warmup, rounds)
            == StridesTrace(n, strides[..s], iterations, warmup, rounds)
               + StrideTraces(n, strides[s], iterations, warmup, rounds)
  {
    hide StrideTraces;
    assert strides[..s + 1][..s] == strides[..s];
  }

  // --- where every load of a call goes ----------------------------------------

  // A hit call reads node 0 only.
  lemma {:induction false} HitReads(batches: nat)
    ensures |HitTrace(batches)| == batches * 128
    ensures forall i :: 0 <= i < |HitTrace(batches)| ==> HitTrace(batches)[i] == 0
  {
    if batches > 0 {
      HitReads(batches - 1);
    }
  }

  lemma LastRound(n: nat, d: nat, rounds: nat, iterations: nat)
    requires n > 0 && rounds > 0
    ensures StrideRounds(n, d, rounds, iterations)
            == StrideRounds(n, d, rounds - 1, iterations) + StrideBatches(n, d, (rounds - 1) % n, iterations)
  {
  }

  lemma NoRounds(n: nat, d: nat, iterations: nat)
    requires n > 0
    ensures StrideRounds(n, d, 0, iterations) == [] && StrideBatches(n, d, 0, 0) == []
  {
  }

  lemma BatchesLength(n: nat, d: nat, x: nat, batches: nat)
    requires n > 0
    ensures |StrideBatches(n, d, x, batches)| == batches * 129
  {
    if batches > 0 {
      StrideBatchesAt(n, d, x, batches, 0, 0);
    }
  }

  // The loads of round r of a stride run are those of its own batches.
  lemma {:induction false} RoundSlice(n: nat, d: nat, rounds: nat, iterations: nat, size: nat, r: nat)
    requires n > 0 && r < rounds && size == iterations * 129
    ensures var all := StrideRounds(n, d, rounds, iterations);
            && |all| == rounds * size && 0 <= r * size <= (r + 1) * size <= |all|
            && all[r * size..(r + 1) * size] == StrideBatches(n, d, r % n, iterations)
    decreases rounds
  {
    hide *;
    var last := rounds - 1;
    var earlier, batches := StrideRounds(n, d, last, iterations), StrideBatches(n, d, last % n, iterations);
    LastRound(n, d, rounds, iterations);
    BatchesLength(n, d, last % n, iterations);
    RoundRange(r, last, size);
    OneMore(last, size);
    if last == 0 {
      NoRounds(n, d, iterations);
    } else {
      RoundSlice(n, d, last, iterations, size, if r < last then r else 0);
    }
    if r < last {
      SliceOfFirst(earlier, batches, r * size, (r + 1) * size);
    } else {
      assert (earlier + batches)[|earlier|..] == batches;
    }
  }

  // The loads of a stride call, by stride, batch and load: the warmup runs from
  // node 0, round r from node r, and the ring steps by whole lines of the
  // requested stride, at least one.
  lemma WarmupReads(n: nat, raw: nat, iterations: nat, warmup: nat, rounds: nat, b: nat, j: nat)
    requires n > 0 && b < warmup && j <= 128
    ensures var d, t := if raw / 64 > 1 then raw / 64 else 1, StrideTraces(n, raw, iterations, warmup, rounds);
            b * 129 + j < |t| && t[b * 129 + j] == ((if j < 128 then b + j else b) * d) % n
  {
    WholeLines(raw);
    BatchesLength(n, StrideLines(RoundStride(raw)), 0, warmup);
    StrideBatchesAt(n, StrideLines(RoundStride(raw)), 0, warmup, b, j);
    hide StrideBatches, StrideRounds;
  }

  lemma RoundStart(n: nat, d: nat, r: nat, k: nat)
    requires n > 0
    ensures (r % n + k * d) % n == (r + k * d) % n
  {
    AddMod(r, k * d, n);
  }

  lemma StrideNodeIs(n: nat, d: nat, x: nat, b: nat, j: nat)
    requires n > 0
    ensures StrideNode(n, d, x, b, j) == (x + (if j < 128 then b + j else b) * d) % n
  {
  }

  lemma RoundNode(n: nat, d: nat, iterations: nat, r: nat, b: nat, j: nat)
    requires n > 0 && b < iterations && j <= 128
    ensures b * 129 + j < |StrideBatches(n, d, r % n, iterations)| == iterations * 129
    ensures StrideBatches(n, d, r % n, iterations)[b * 129 + j] == (r + (if j < 128 then b + j else b) * d) % n
  {
    StrideBatchesAt(n, d, r % n, iterations, b, j);
    hide *;
    StrideNodeIs(n, d, r % n, b, j);
    RoundStart(n, d, r, if j < 128 then b + j else b);
  }

  lemma AfterFirst(first: seq<nat>, all: seq<nat>, from: nat, to: nat, i: nat)
    requires from <= to <= |all| && i < to - from
    ensures (first + all)[|first| + from + i] == all[from..to][i]
  {
  }

  lemma StrideTracesParts(n: nat, raw: nat, iterations: nat, warmup: nat, rounds: nat, d: nat)
    requires n > 0 && d == if raw / 64 > 1 then raw / 64 else 1
    ensures StrideTraces(n, raw, iterations, warmup, rounds)
            == StrideBatches(n, d, 0, warmup) + StrideRounds(n, d, rounds, iterations)
    ensures |StrideBatches(n, d, 0, warmup)| == warmup * 129
  {
    WholeLines(raw);
    BatchesLength(n, d, 0, warmup);
    hide StrideBatches, StrideRounds;
  }

  lemma RoundReads(n: nat, raw: nat, iterations: nat, warmup: nat, rounds: nat, size: nat, r: nat, b: nat, j: nat)
    requires n > 0 && r < rounds && b < iterations && j <= 128 && size == iterations * 129
    ensures var d, t := if raw / 64 > 1 then raw / 64 else 1, StrideTraces(n, raw, iterations, warmup, rounds);
            var at := warmup * 129 + r * size + b * 129 + j;
            0 <= at < |t| && t[at] == (r + (if j < 128 then b + j else b) * d) % n
  {
    hide *;
    var d := if raw / 64 > 1 then raw / 64 else 1;
    var first, all := StrideBatches(n, d, 0, warmup), StrideRounds(n, d, rounds, iterations);
    StrideTracesParts(n, raw, iterations, warmup, rounds, d);
    RoundSlice(n, d, rounds, iterations, size, r);
    RoundNode(n, d, iterations, r, b, j);
    OneMore(r, size);
    AfterFirst(first, all, r * size, (r + 1) * size, b * 129 + j);
  }

  // The loads of one stride: 129 a batch, in the warmup and in each round.
  ghost predicate IsCallSize(size: nat, iterations: nat, warmup: nat, rounds: nat) {
    size == warmup * 129 + rounds * (iterations * 129)
  }

  lemma TracesLength(n: nat, raw: nat, iterations: nat, warmup: nat, rounds: nat, size: nat)
    requires n > 0 && IsCallSize(size, iterations, warmup, rounds)
    ensures |StrideTraces(n, raw, iterations, warmup, rounds)| == size
  {
    var d := if raw / 64 > 1 then raw / 64 else 1;
    StrideTracesParts(n, raw, iterations, warmup, rounds, d);
    hide StrideTraces, StrideBatches, StrideRounds;
    if rounds > 0 {
      RoundSlice(n, d, rounds, iterations, iterations * 129, 0);
    } else {
      NoRounds(n, d, iterations);
    }
  }

  // The loads of a stride call are those of its strides, one after the other.
  lemma {:induction false} StrideSlice(n: nat, strides: seq<nat>, iterations: nat, warmup: nat, rounds: nat,
                                       size: nat, s: nat)
    requires n > 0 && s < |strides| && IsCallSize(size, iterations, warmup, rounds)
    ensures var all := StridesTrace(n, strides, iterations, warmup, rounds);
            && |all| == |strides| * size && 0 <= s * size <= (s + 1) * size <= |all|
            && all[s * size..(s + 1) * size] == StrideTraces(n, strides[s], iterations, warmup, rounds)
    decreases |strides|
  {
    hide *;
    var last := |strides| - 1;
    var earlier := StridesTrace(n, strides[..last], iterations, warmup, rounds);
    var nodes := StrideTraces(n, strides[last], iterations, warmup, rounds);
    OneMoreStride(n, strides, last, iterations, warmup, rounds);
    assert strides[..last + 1] == strides;
    TracesLength(n, strides[last], iterations, warmup, rounds, size);
    RoundRange(s, last, size);
    OneMore(last, size);
    if last == 0 {
      NoStrides(n, strides, iterations, warmup, rounds);
    } else {
      StrideSlice(n, strides[..last], iterations, warmup, rounds, size, if s < last then s else 0);
    }
    if s < last {
      SliceOfFirst(earlier, nodes, s * size, (s + 1) * size);
    } else {
      assert (earlier + nodes)[|earlier|..] == nodes;
    }
  }

  // The loads of one call; a rejected call and a store call read no link.
  function CallTrace(n: nat, order: seq<nat>, call: Call): seq<nat>
    requires n > 0 && |order| == n
  {
    if !Accepted(call.iterations, call.warmup, call.rounds) then []
    else
      match call
      case Hit(iterations, warmup, rounds) => HitTrace(warmup + SampleCount(rounds, iterations))
      case ForcedMiss(iterations, warmup, rounds) =>
        MissTrace(order, warmup) + MissTrace(order, SampleCount(rounds, iterations))
      case Stores(_, _, _) => []
      case Strides(strides, iterations, warmup, rounds) =>
        StridesTrace(n, strides, iterations, warmup, rounds)
  }

  // Which loads a call consists of.
  lemma CallReads(n: nat, order: seq<nat>, call: Call)
    requires n > 0 && |order| == n
    ensures call.iterations <= 0 || call.warmup < 0 || call.rounds <= 0 || call.Stores? ==>
              CallTrace(n, order, call) == []
    ensures call.iterations > 0 && call.warmup >= 0 && call.rounds > 0 ==>
              && (call.Hit? ==> CallTrace(n, order, call) == HitTrace(call.warmup + call.rounds * call.iterations))
              && (call.ForcedMiss? ==>
                    CallTrace(n, order, call)
                    == MissTrace(order, call.warmup) + MissTrace(order, call.rounds * call.iterations))
              && (call.Strides? ==>
                    CallTrace(n, order, call)
                    == StridesTrace(n, call.strides, call.iterations, call.warmup, call.rounds))
  {
    hide HitTrace, MissTrace, StridesTrace;
    if call.iterations > 0 && call.rounds > 0 {
      ProductNatural(call.rounds, call.iterations);
    }
  }

  function CallsTrace(n: nat, order: seq<nat>, calls: seq<Call>): seq<nat>
    requires n > 0 && |order| == n
    decreases |calls|
  {
    if calls == [] then []
    else CallsTrace(n, order, calls[..|calls| - 1]) + CallTrace(n, order, calls[|calls| - 1])
  }

  lemma OneMoreCall(n: nat, order: seq<nat>, calls: seq<Call>, k: nat)
    requires n > 0 && |order| == n && k < |calls|
    ensures CallsTrace(n, order, calls[..k + 1]) == CallsTrace(n, order, calls[..k]) + CallTrace(n, order, calls[k])
  {
    hide CallTrace;
    assert calls[..k + 1][..k] == calls[..k];
  }

  // A forced-miss batch flushes exactly the lines the chase after it reads, and
  // it reads no line twice.
  lemma FlushedIsRead(next: seq<nat>, order: seq<nat>, s: nat)
    requires IsRandomRing(next, order) && Links(next) && s < |order|
    requires LATENCY_BATCH <= |order|
    ensures var t := ChaseTrace(next, order[s], LATENCY_BATCH);
            && t == Window(order, s, LATENCY_BATCH)
            && (forall i, j :: 0 <= i < j < LATENCY_BATCH ==> t[i] != t[j])
  {
    RandomTrace(next, order, s, LATENCY_BATCH);
    forall i, j | 0 <= i < j < LATENCY_BATCH
      ensures Window(order, s, LATENCY_BATCH)[i] != Window(order, s, LATENCY_BATCH)[j]
    {
      WindowDistinct(order, s, LATENCY_BATCH, i, j);
    }
  }
}
