// LatencyMeasurer: a buffer of nodes, one cache line each, whose links are
// rebuilt in place before each benchmark.  Addresses are node indices.

module LatencyMeasurement {
  import opened Modular
  import opened Rings
  import opened Traces
  import opened Samples
  import opened Statistics

  // What a benchmark returns: the summary of its samples, or the exception.
  datatype Outcome = Thrown | Measured(summary: Summary)

  // One sample: the cycles of a timed batch, less the timer's own, per step.
  function PerStep(elapsed: nat, overhead: nat, steps: nat): (sample: real)
    requires steps > 0
    ensures sample >= 0.0 && (elapsed <= overhead ==> sample == 0.0)
  {
    (if elapsed > overhead then elapsed - overhead else 0) as real / steps as real
  }

  // Times the steps, a sample gives the elapsed cycles beyond the overhead.
  lemma PerStepIsNet(elapsed: nat, overhead: nat, steps: nat)
    requires steps > 0
    ensures PerStep(elapsed, overhead, steps) * steps as real
            == if elapsed >= overhead then (elapsed - overhead) as real else 0.0
  {
  }

  // The samples of the timed batches first, ..., first + count - 1; clock(k) is
  // how many cycles batch k takes.
  function Timings(clock: nat -> nat, overhead: nat, steps: nat, first: nat, count: nat): (samples: seq<real>)
    requires steps > 0
    ensures |samples| == count
  {
    seq(count, k requires 0 <= k < count => PerStep(clock(first + k), overhead, steps))
  }

  lemma MoreTimings(clock: nat -> nat, overhead: nat, steps: nat, count: nat, more: nat)
    requires steps > 0
    ensures Timings(clock, overhead, steps, 0, count + more)
            == Timings(clock, overhead, steps, 0, count) + Timings(clock, overhead, steps, count, more)
  {
  }

  lemma OneMoreTiming(clock: nat -> nat, overhead: nat, steps: nat, count: nat)
    requires steps > 0
    ensures Timings(clock, overhead, steps, 0, count + 1)
            == Timings(clock, overhead, steps, 0, count) + [PerStep(clock(count), overhead, steps)]
  {
  }

  lemma NoTimings(clock: nat -> nat, overhead: nat, steps: nat)
    requires steps > 0
    ensures Timings(clock, overhead, steps, 0, 0) == []
  {
  }

  // What a call must return: one sample for each iteration of each round.
  function Expected(clock: nat -> nat, overhead: nat, steps: nat, iterations: int, warmup: int, rounds: int): Outcome
    requires steps > 0
  {
    if !Accepted(iterations, warmup, rounds) then Thrown
    else Measured(Summarize(Timings(clock, overhead, steps, 0, SampleCount(rounds, iterations))))
  }

  // The cycles beyond the overhead of the first count batches together.
  function NetTotal(clock: nat -> nat, overhead: nat, count: int): nat
    decreases count
  {
    if count <= 0 then 0
    else
      NetTotal(clock, overhead, count - 1)
      + if clock(count - 1) >= overhead then clock(count - 1) - overhead else 0
  }

  lemma NoSum()
    ensures Sum([]) == 0.0
  {
  }

  lemma AddProducts(n: real, a: real, b: real)
    ensures (a + b) * n == a * n + b * n
  {
  }

  lemma SumOfOneMore(s: seq<real>, x: real)
    ensures Sum(s + [x]) == Sum(s) + x
  {
    SumAppend(Itself(), s, [x]);
    assert [x][1..] == [];
  }

  lemma {:induction false} TimingsTotal(clock: nat -> nat, overhead: nat, steps: nat, count: nat)
    requires steps > 0
    ensures Sum(Timings(clock, overhead, steps, 0, count)) * steps as real == NetTotal(clock, overhead, count) as real
  {
    hide Timings, PerStep, Sum;
    if count == 0 {
      NoTimings(clock, overhead, steps);
      NoSum();
    } else {
      var sample := PerStep(clock(count - 1), overhead, steps);
      var earlier := Timings(clock, overhead, steps, 0, count - 1);
      TimingsTotal(clock, overhead, steps, count - 1);
      OneMoreTiming(clock, overhead, steps, count - 1);
      PerStepIsNet(clock(count - 1), overhead, steps);
      SumOfOneMore(earlier, sample);
      AddProducts(steps as real, Sum(earlier), sample);
    }
  }

  // Every timed batch takes exactly the overhead and c cycles a step.
  ghost predicate SteadyClock(clock: nat -> nat, overhead: nat, steps: nat, count: int, c: nat) {
    forall k: nat :: k < count ==> clock(k) == overhead + steps * c
  }

  // What a result must report of `count` timed batches: all of them, each with
  // its share of the mean; no less than the fastest and no more than the
  // slowest; and c exactly, if each takes c cycles a step beyond the overhead.
  ghost predicate Reports(r: Outcome, clock: nat -> nat, overhead: nat, steps: nat, count: int) {
    && r.Measured? && r.summary.count == count
    && count as real * r.summary.mean * steps as real == NetTotal(clock, overhead, count) as real
    && (forall k: nat :: k < count && clock(k) >= overhead ==>
          && r.summary.min * steps as real <= (clock(k) - overhead) as real
          && (clock(k) - overhead) as real <= r.summary.max * steps as real)
    && (forall c: nat :: SteadyClock(clock, overhead, steps, count, c) ==>
          r.summary == Summary(count, c as real, c as real, c as real, c as real, 0.0, c as real, c as real))
  }

  lemma TimingAt(clock: nat -> nat, overhead: nat, steps: nat, count: nat, k: nat)
    requires steps > 0 && k < count && clock(k) >= overhead
    ensures Timings(clock, overhead, steps, 0, count)[k] * steps as real == (clock(k) - overhead) as real
  {
    assert clock(0 + k) == clock(k);
    PerStepIsNet(clock(k), overhead, steps);
    hide PerStep;
  }

  lemma ScaleOrder(n: real, a: real, b: real)
    requires n > 0.0 && a <= b
    ensures a * n <= b * n
  {
    ProductNonNegative(n, b - a);
  }

  lemma BetweenExtremes(clock: nat -> nat, overhead: nat, steps: nat, count: nat, k: nat)
    requires steps > 0 && k < count && clock(k) >= overhead
    ensures var r := Summarize(Timings(clock, overhead, steps, 0, count));
            && r.min * steps as real <= (clock(k) - overhead) as real
            && (clock(k) - overhead) as real <= r.max * steps as real
  {
    hide *;
    var samples := Timings(clock, overhead, steps, 0, count);
    SummaryExtremes(samples);
    TimingAt(clock, overhead, steps, count, k);
    ScaleOrder(steps as real, Summarize(samples).min, samples[k]);
    ScaleOrder(steps as real, samples[k], Summarize(samples).max);
  }

  lemma SameProduct(n: real, a: real, b: real)
    requires n > 0.0 && a * n == n * b
    ensures a == b
  {
    assert (a - b) * n == 0.0;
  }

  lemma SteadySample(overhead: nat, steps: nat, c: nat)
    requires steps > 0
    ensures PerStep(overhead + steps * c, overhead, steps) == c as real
  {
    ProductNatural(steps, c);
    PerStepIsNet(overhead + steps * c, overhead, steps);
    var sample := PerStep(overhead + steps * c, overhead, steps);
    assert (steps * c) as real == steps as real * c as real;
    hide PerStep;
    SameProduct(steps as real, sample, c as real);
  }

  lemma SteadySamples(clock: nat -> nat, overhead: nat, steps: nat, count: nat, c: nat)
    requires steps > 0 && SteadyClock(clock, overhead, steps, count, c)
    ensures forall k :: 0 <= k < count ==> Timings(clock, overhead, steps, 0, count)[k] == c as real
  {
    forall k | 0 <= k < count ensures Timings(clock, overhead, steps, 0, count)[k] == c as real {
      assert clock(0 + k) == overhead + steps * c;
      SteadySample(overhead, steps, c);
    }
  }

  lemma SummaryReports(clock: nat -> nat, overhead: nat, steps: nat, count: nat)
    requires steps > 0 && count > 0
    ensures Reports(Measured(Summarize(Timings(clock, overhead, steps, 0, count))), clock, overhead, steps, count)
  {
    hide Summarize, Timings, PerStep, SteadyClock, NetTotal, Sum;
    TimingsTotal(clock, overhead, steps, count);
    SummaryExtremes(Timings(clock, overhead, steps, 0, count));
    forall k: nat | k < count && clock(k) >= overhead
      ensures var r := Summarize(Timings(clock, overhead, steps, 0, count));
              && r.min * steps as real <= (clock(k) - overhead) as real
              && (clock(k) - overhead) as real <= r.max * steps as real
    {
      BetweenExtremes(clock, overhead, steps, count, k);
    }
    forall c: nat | SteadyClock(clock, overhead, steps, count, c)
      ensures Summarize(Timings(clock, overhead, steps, 0, count))
              == Summary(count, c as real, c as real, c as real, c as real, 0.0, c as real, c as real)
    {
      SteadySamples(clock, overhead, steps, count, c);
      SummaryOfConstant(Timings(clock, overhead, steps, 0, count), c as real);
    }
  }

  lemma SampleCountPositive(rounds: nat, iterations: nat)
    requires rounds > 0 && iterations > 0
    ensures SampleCount(rounds, iterations) == rounds * iterations > 0
  {
  }

  lemma ExpectedReports(clock: nat -> nat, overhead: nat, steps: nat, iterations: int, warmup: int, rounds: int)
    requires steps > 0 && Accepted(iterations, warmup, rounds)
    ensures Reports(Expected(clock, overhead, steps, iterations, warmup, rounds), clock, overhead, steps,
                    rounds * iterations)
  {
    SampleCountPositive(rounds, iterations);
    SummaryReports(clock, overhead, steps, SampleCount(rounds, iterations));
    hide SampleCount, Summarize, Timings, Reports;
  }

  lemma ReportsIsMeasured(r: Outcome, clock: nat -> nat, overhead: nat, steps: nat, count: int)
    requires Reports(r, clock, overhead, steps, count)
    ensures r != Thrown
  {
  }

  lemma NoneThrown(r: seq<Outcome>)
    requires forall s :: 0 <= s < |r| ==> r[s] != Thrown
    ensures r != [Thrown]
  {
    assert |r| > 0 ==> r[0] != Thrown;
  }

  // The cache may evict any lines at any time.
  ghost method AfterEvictions(held: set<nat>) returns (kept: set<nat>)
    ensures kept <= held
  {
    var some: set<nat> :| some <= held;
    kept := some;
  }

  // Every load misses whose line was neither cached beforehand nor read before it.
  ghost predicate FirstTouchesMiss(cached: set<nat>, nodes: seq<nat>, missed: seq<bool>) {
    && |missed| == |nodes|
    && forall j :: 0 <= j < |nodes| ==> nodes[j] in cached || nodes[j] in nodes[..j] || missed[j]
  }

  // The loads recorded after `before` all missed.
  ghost predicate AllMissedSince(before: seq<bool>, after: seq<bool>) {
    before <= after && forall j :: |before| <= j < |after| ==> after[j]
  }

  lemma OneMoreLoad(cached: set<nat>, nodes: seq<nat>, missed: seq<bool>, held: set<nat>, node: nat, miss: bool)
    requires FirstTouchesMiss(cached, nodes, missed)
    requires held <= cached + Elements(nodes) && miss == (node !in held)
    ensures FirstTouchesMiss(cached, nodes + [node], missed + [miss])
    ensures held + {node} <= cached + Elements(nodes + [node])
  {
    var nodes', missed' := nodes + [node], missed + [miss];
    forall j | 0 <= j < |nodes'|
      ensures nodes'[j] in cached || nodes'[j] in nodes'[..j] || missed'[j]
    {
      if j < |nodes| {
        assert nodes'[..j] == nodes[..j];
      } else {
        assert nodes'[..j] == nodes;
      }
    }
  }

  lemma StrideLink(n: nat, d: nat, x: nat, i: nat, start: nat)
    requires n > 0 && start == Cyclic(x + i * d, n)
    ensures StrideRing(n, d)[start] == Cyclic(x + (i + 1) * d, n)
  {
    assert StrideRing(n, d)[start] == Cyclic(start + d, n);
    hide Cyclic, StrideRing;
    CyclicAdd(x + i * d, d, n);
    Distribute(i, 1, d);
  }

  lemma {:induction false} SelfLoopTrace(next: seq<nat>, k: nat)
    requires Links(next) && |next| > 0 && next[0] == 0
    ensures ChaseTrace(next, 0, k) == seq(k, _ => 0)
  {
    if k > 0 {
      SelfLoopTrace(next, k - 1);
    }
  }

  // Distinct nodes, none of them cached: every load is a first touch.
  lemma AllMiss(cached: set<nat>, nodes: seq<nat>, missed: seq<bool>)
    requires FirstTouchesMiss(cached, nodes, missed)
    requires cached !! Elements(nodes)
    requires forall i, j :: 0 <= i < j < |nodes| ==> nodes[i] != nodes[j]
    ensures forall j :: 0 <= j < |missed| ==> missed[j]
  {
    forall j | 0 <= j < |missed| ensures missed[j] {
      assert nodes[j] in Elements(nodes);
    }
  }

  class LatencyMeasurer {
    const buffer: array<nat>      // the links
    const overhead: nat           // timer_overhead_cycles_
    const shuffled: seq<nat>      // what std::shuffle with the fixed seed makes of 0, ..., n-1
    var order: seq<nat>           // random_order_
    ghost var cached: set<nat>    // the lines an ideal cache holds
    ghost var trace: seq<nat>     // every node whose link was loaded
    ghost var missed: seq<bool>   // whether that load found its line cached

    ghost predicate Valid()
      reads this, buffer
    {
      && buffer.Length >= MIN_NODES
      && Links(buffer[..])
      && IsPermutation(shuffled, buffer.Length)
      && |missed| == |trace|
    }

    constructor (requested: nat, overhead: nat, shuffled: seq<nat>)
      requires IsPermutation(shuffled, NodeCount(requested))
      ensures Valid() && fresh(buffer) && buffer.Length == NodeCount(requested)
      ensures this.overhead == overhead && this.shuffled == shuffled && trace == []
      ensures forall i :: 0 <= i < buffer.Length ==> buffer[i] == i
    {
      var n := NodeCount(requested);
      var links := new nat[n];
      ghost var stored: set<nat> := {};
      for i := 0 to n
        invariant forall k :: 0 <= k < i ==> links[k] == k
      {
        links[i] := i;
        stored := AfterEvictions(stored + {i});
      }
      buffer := links;
      this.overhead := overhead;
      this.shuffled := shuffled;
      order := [];
      cached, trace, missed := stored, [], [];
    }

    // --- building -----------------------------------------------------------

    // A store brings its line into the cache, where any lines may be evicted.
    method Store(node: nat, next: nat)
      requires Valid() && node < buffer.Length && next < buffer.Length
      modifies buffer, `cached
      ensures Valid() && buffer[..] == old(buffer[..])[node := next]
      ensures cached <= old(cached) + {node}
    {
      buffer[node] := next;
      cached := AfterEvictions(cached + {node});
    }

    method BuildSelfLoop()
      requires Valid()
      modifies buffer, `cached
      ensures Valid() && buffer[..] == old(buffer[..])[0 := 0]
      ensures cached <= old(cached) + {0}
    {
      Store(0, 0);
    }

    method BuildRandomRing()
      requires Valid()
      modifies buffer, `order, `cached
      ensures Valid() && order == shuffled && IsRandomRing(buffer[..], order)
    {
      order := shuffled;
      var n := buffer.Length;
      for i := 0 to n
        invariant Valid() && order == shuffled
        invariant forall k :: 0 <= k < i ==> buffer[order[k]] == order[Cyclic(k + 1, n)]
      {
        Store(order[i], order[(i + 1) % n]);
      }
    }

    method BuildStrideRing(strideBytes: nat)
      requires Valid()
      modifies buffer, `cached
      ensures Valid() && buffer[..] == StrideRing(buffer.Length, StrideLines(strideBytes))
    {
      var d := if strideBytes / LINE > 1 then strideBytes / LINE else 1;
      var n := buffer.Length;
      for i := 0 to n
        invariant Valid()
        invariant forall k :: 0 <= k < i ==> buffer[k] == (k + d) % n
      {
        Store(i, (i + d) % n);
      }
    }

    // --- flushing, chasing, storing -----------------------------------------

    method FlushRandomPath(start: nat, steps: nat)
      requires Valid() && |order| == buffer.Length
      modifies `cached
      ensures cached == old(cached) - Elements(Window(order, start, steps))
    {
      for i := 0 to steps
        invariant cached == old(cached) - Elements(Window(order, start, i))
      {
        cached := cached - {order[(start + i) % |order|]};
        assert Window(order, start, i + 1) == Window(order, start, i) + [order[Cyclic(start + i, |order|)]];
      }
    }

    // Load the link of a node: a hit only if its line is cached, after which the
    // line is cached and any lines may have been evicted.
    method Load(node: nat) returns (next: nat)
      requires Valid() && node < buffer.Length
      modifies `cached, `trace, `missed
      ensures Valid() && next == buffer[node]
      ensures trace == old(trace) + [node]
      ensures missed == old(missed) + [node !in old(cached)]
      ensures cached <= old(cached) + {node}
    {
      next := buffer[node];
      trace := trace + [node];
      missed := missed + [node !in cached];
      cached := AfterEvictions(cached + {node});
    }

    // The loads of a chase, and which of them must miss.
    method Chase(start: nat, steps: nat) returns (ghost outcome: seq<bool>)
      requires Valid() && start < buffer.Length
      modifies `cached, `trace, `missed
      ensures Valid()
      ensures trace == old(trace) + ChaseTrace(buffer[..], start, steps)
      ensures missed == old(missed) + outcome
      ensures FirstTouchesMiss(old(cached), ChaseTrace(buffer[..], start, steps), outcome)
    {
      var current := start;
      outcome := [];
      for i := 0 to steps
        invariant Valid() && current == Follow(buffer[..], start, i)
        invariant trace == old(trace) + ChaseTrace(buffer[..], start, i)
        invariant missed == old(missed) + outcome
        invariant FirstTouchesMiss(old(cached), ChaseTrace(buffer[..], start, i), outcome)
        invariant cached <= old(cached) + Elements(ChaseTrace(buffer[..], start, i))
      {
        FollowMore(buffer[..], start, i);
        ghost var miss := current !in cached;
        OneMoreLoad(old(cached), ChaseTrace(buffer[..], start, i), outcome, cached, current, miss);
        outcome := outcome + [miss];
        current := Load(current);
      }
    }

    // A chase between two readings of the counter.
    method TimedPointerChase(start: nat, steps: nat, elapsed: nat)
        returns (sample: real, ghost outcome: seq<bool>)
      requires Valid() && start < buffer.Length && steps > 0
      modifies `cached, `trace, `missed
      ensures Valid() && sample == PerStep(elapsed, overhead, steps)
      ensures sample * steps as real == if elapsed >= overhead then (elapsed - overhead) as real else 0.0
      ensures trace == old(trace) + ChaseTrace(buffer[..], start, steps)
      ensures missed == old(missed) + outcome
      ensures FirstTouchesMiss(old(cached), ChaseTrace(buffer[..], start, steps), outcome)
    {
      hide PerStep, FirstTouchesMiss, ChaseTrace, Links;
      PerStepIsNet(elapsed, overhead, steps);
      outcome := Chase(start, steps);
      sample := PerStep(elapsed, overhead, steps);
    }

    method TimedStoreBatch(steps: nat, elapsed: nat) returns (sample: real)
      requires Valid() && steps > 0
      modifies buffer, `cached
      ensures Valid() && sample == PerStep(elapsed, overhead, steps)
      ensures sample * steps as real == if elapsed >= overhead then (elapsed - overhead) as real else 0.0
      ensures forall k :: 0 <= k < buffer.Length ==>
                buffer[k] == if k < steps && k < 16 then k else old(buffer[k])
    {
      for i := 0 to steps
        invariant Valid()
        invariant forall k :: 0 <= k < buffer.Length ==>
                    buffer[k] == if k < i && k < STORE_SLOTS then k else old(buffer[k])
      {
        var slot := i % STORE_SLOTS;
        Store(slot, slot);
      }
      sample := PerStep(elapsed, overhead, steps);
      PerStepIsNet(elapsed, overhead, steps);
    }

    // --- the benchmarks -----------------------------------------------------

    // One chase around the self-loop of node 0.
    method HitBatch(ghost batches: nat, ghost base: seq<nat>, elapsed: nat) returns (sample: real)
      requires Valid() && buffer[0] == 0
      requires trace == base + HitTrace(batches)
      modifies `cached, `trace, `missed
      ensures Valid() && sample == PerStep(elapsed, overhead, LATENCY_BATCH)
      ensures trace == base + HitTrace(batches + 1)
    {
      ghost var outcome;
      sample, outcome := TimedPointerChase(0, LATENCY_BATCH, elapsed);
      SelfLoopTrace(buffer[..], LATENCY_BATCH);
    }

    method MeasureHit(iterations: int, warmup: int, rounds: int, clock: nat -> nat) returns (r: Outcome)
      requires Valid()
      modifies this, buffer
      ensures Valid() && trace == old(trace) + CallTrace(buffer.Length, shuffled, Hit(iterations, warmup, rounds))
      ensures r == Expected(clock, overhead, LATENCY_BATCH, iterations, warmup, rounds)
      ensures iterations <= 0 || warmup < 0 || rounds <= 0 <==> r == Thrown
      ensures r != Thrown ==> Reports(r, clock, overhead, 128, rounds * iterations)
    {
      hide Reports;
      hide Summarize, SampleCount, Timings, HitTrace, MissTrace, StridesTrace;
      if iterations <= 0 || warmup < 0 || rounds <= 0 {
        return Thrown;
      }
      NoTimings(clock, overhead, LATENCY_BATCH);
      RoundDone(0, iterations);
      NothingRead(shuffled);
      BuildSelfLoop();
      for i := 0 to warmup
        invariant Valid() && buffer[0] == 0
        invariant trace == old(trace) + HitTrace(i)
      {
        var _ := HitBatch(i, old(trace), 0);
      }
      var samples: seq<real> := [];
      for round := 0 to rounds
        invariant Valid() && buffer[0] == 0 && |samples| == SampleCount(round, iterations)
        invariant samples == Timings(clock, overhead, LATENCY_BATCH, 0, |samples|)
        invariant trace == old(trace) + HitTrace(warmup + |samples|)
      {
        RoundDone(round, iterations);
        for i := 0 to iterations
          invariant Valid() && buffer[0] == 0 && |samples| == SampleCount(round, iterations) + i
          invariant samples == Timings(clock, overhead, LATENCY_BATCH, 0, |samples|)
          invariant trace == old(trace) + HitTrace(warmup + |samples|)
        {
          OneMoreTiming(clock, overhead, LATENCY_BATCH, |samples|);
          var sample := HitBatch(warmup + |samples|, old(trace), clock(|samples|));
          samples := samples + [sample];
        }
      }
      var summary := SummarizeImpl(samples);
      ExpectedReports(clock, overhead, LATENCY_BATCH, iterations, warmup, rounds);
      r := Measured(summary);
    }

    // Flush a window of the order, then chase through it.
    method MissBatch(position: nat, elapsed: nat) returns (sample: real)
      requires Valid() && IsRandomRing(buffer[..], order) && position < |order|
      modifies `cached, `trace, `missed
      ensures Valid() && sample == PerStep(elapsed, overhead, LATENCY_BATCH)
      ensures trace == old(trace) + Window(order, position, LATENCY_BATCH)
      ensures AllMissedSince(old(missed), missed)
    {
      FlushRandomPath(position, LATENCY_BATCH);
      ghost var flushed, outcome := cached, [];
      sample, outcome := TimedPointerChase(order[position], LATENCY_BATCH, elapsed);
      FlushedIsRead(buffer[..], order, position);
      AllMiss(flushed, Window(order, position, LATENCY_BATCH), outcome);
    }

    // The batches numbered first, ..., first + batches - 1; one sample each.
    method MissBatches(first: nat, batches: nat, clock: nat -> nat, ghost base: seq<nat>)
        returns (samples: seq<real>)
      requires Valid() && IsRandomRing(buffer[..], order)
      requires trace == base + MissTrace(order, first)
      modifies `cached, `trace, `missed
      ensures Valid() && AllMissedSince(old(missed), missed)
      ensures trace == base + MissTrace(order, first + batches)
      ensures samples == Timings(clock, overhead, LATENCY_BATCH, first, batches)
    {
      samples := [];
      for i := 0 to batches
        invariant samples == Timings(clock, overhead, LATENCY_BATCH, first, i)
        invariant Valid() && IsRandomRing(buffer[..], order)
        invariant AllMissedSince(old(missed), missed)
        invariant trace == base + MissTrace(order, first + i)
      {
        var sample := MissBatch((first + i) % buffer.Length, clock(first + i));
        samples := samples + [sample];
      }
    }

    // The rounds of a forced-miss call, from the ring it has just built.
    method RunMisses(iterations: nat, rounds: nat, clock: nat -> nat) returns (samples: seq<real>)
      requires Valid() && order == shuffled && IsRandomRing(buffer[..], order)
      modifies `cached, `trace, `missed
      ensures Valid() && AllMissedSince(old(missed), missed)
      ensures samples == Timings(clock, overhead, LATENCY_BATCH, 0, SampleCount(rounds, iterations))
      ensures trace == old(trace) + MissTrace(shuffled, SampleCount(rounds, iterations))
    {
      hide SampleCount, Timings, MissTrace, Window;
      NoTimings(clock, overhead, LATENCY_BATCH);
      RoundDone(0, iterations);
      NothingRead(shuffled);
      samples := [];
      for round := 0 to rounds
        invariant |samples| == SampleCount(round, iterations)
        invariant samples == Timings(clock, overhead, LATENCY_BATCH, 0, |samples|)
        invariant Valid() && order == shuffled && IsRandomRing(buffer[..], order)
        invariant trace == old(trace) + MissTrace(shuffled, |samples|)
        invariant AllMissedSince(old(missed), missed)
      {
        RoundDone(round, iterations);
        MoreTimings(clock, overhead, LATENCY_BATCH, |samples|, iterations);
        var more := MissBatches(|samples|, iterations, clock, old(trace));
        samples := samples + more;
      }
    }

    // The ring is rebuilt for every call; within the call each batch flushes its
    // own window and every single timed load misses.
    method MeasureForcedMiss(iterations: int, warmup: int, rounds: int, clock: nat -> nat) returns (r: Outcome)
      requires Valid()
      modifies this, buffer
      ensures Valid()
      ensures trace == old(trace) + CallTrace(buffer.Length, shuffled, ForcedMiss(iterations, warmup, rounds))
      ensures AllMissedSince(old(missed), missed)
      ensures r == Expected(clock, overhead, LATENCY_BATCH, iterations, warmup, rounds)
      ensures iterations <= 0 || warmup < 0 || rounds <= 0 <==> r == Thrown
      ensures r != Thrown ==> Reports(r, clock, overhead, 128, rounds * iterations)
    {
      hide Reports, Summarize, SampleCount, Timings, HitTrace, MissTrace, StridesTrace, Window;
      if iterations <= 0 || warmup < 0 || rounds <= 0 || buffer.Length < 64 {
        return Thrown;
      }
      BuildRandomRing();
      NothingRead(shuffled);
      var _ := MissBatches(0, warmup, _ => 0, trace);
      var samples := RunMisses(iterations, rounds, clock);
      var summary := SummarizeImpl(samples);
      ExpectedReports(clock, overhead, LATENCY_BATCH, iterations, warmup, rounds);
      r := Measured(summary);
    }

    method MeasureStore(iterations: int, warmup: int, rounds: int, clock: nat -> nat) returns (r: Outcome)
      requires Valid()
      modifies this, buffer
      ensures Valid() && trace == old(trace) + CallTrace(buffer.Length, shuffled, Stores(iterations, warmup, rounds))
      ensures forall k :: 0 <= k < buffer.Length ==>
                buffer[k] == if iterations > 0 && warmup >= 0 && rounds > 0 && k < 16 then k else old(buffer[k])
      ensures r == Expected(clock, overhead, STORE_BATCH, iterations, warmup, rounds)
      ensures iterations <= 0 || warmup < 0 || rounds <= 0 <==> r == Thrown
      ensures r != Thrown ==> Reports(r, clock, overhead, 256, rounds * iterations)
    {
      hide Reports;
      hide Summarize, SampleCount, Timings, HitTrace, MissTrace, StridesTrace;
      if iterations <= 0 || warmup < 0 || rounds <= 0 {
        return Thrown;
      }
      NoTimings(clock, overhead, STORE_BATCH);
      RoundDone(0, iterations);
      for i := 0 to warmup
        invariant Valid() && trace == old(trace)
        invariant forall k :: 0 <= k < buffer.Length ==>
                    buffer[k] == old(buffer[k]) || (k < STORE_SLOTS && buffer[k] == k)
      {
        var _ := TimedStoreBatch(STORE_BATCH, 0);
      }
      var samples: seq<real> := [];
      for round := 0 to rounds
        invariant Valid() && trace == old(trace) && |samples| == SampleCount(round, iterations)
        invariant samples == Timings(clock, overhead, STORE_BATCH, 0, |samples|)
        invariant forall k :: 0 <= k < buffer.Length ==>
                    buffer[k] == old(buffer[k]) || (k < STORE_SLOTS && buffer[k] == k)
        invariant round > 0 ==> forall k :: 0 <= k < STORE_SLOTS ==> buffer[k] == k
      {
        RoundDone(round, iterations);
        for i := 0 to iterations
          invariant Valid() && trace == old(trace) && |samples| == SampleCount(round, iterations) + i
          invariant samples == Timings(clock, overhead, STORE_BATCH, 0, |samples|)
          invariant forall k :: 0 <= k < buffer.Length ==>
                      buffer[k] == old(buffer[k]) || (k < STORE_SLOTS && buffer[k] == k)
          invariant i > 0 ==> forall k :: 0 <= k < STORE_SLOTS ==> buffer[k] == k
        {
          OneMoreTiming(clock, overhead, STORE_BATCH, |samples|);
          var sample := TimedStoreBatch(STORE_BATCH, clock(|samples|));
          samples := samples + [sample];
        }
      }
      var summary := SummarizeImpl(samples);
      ExpectedReports(clock, overhead, STORE_BATCH, iterations, warmup, rounds);
      r := Measured(summary);
    }

    // Batch i of a run from node x: chase, then load one more link to move on.
    method StrideStep(start: nat, ghost x: nat, ghost i: nat, ghost d: nat, elapsed: nat)
        returns (next: nat, sample: real)
      requires Valid() && buffer[..] == StrideRing(buffer.Length, d)
      requires start == Cyclic(x + i * d, buffer.Length)
      modifies `cached, `trace, `missed
      ensures Valid() && next == Cyclic(x + (i + 1) * d, buffer.Length)
      ensures trace == old(trace) + StrideWindow(buffer.Length, d, start, LATENCY_BATCH) + [start]
      ensures sample == PerStep(elapsed, overhead, LATENCY_BATCH)
    {
      ghost var outcome;
      sample, outcome := TimedPointerChase(start, LATENCY_BATCH, elapsed);
      StrideTrace(buffer.Length, d, start, LATENCY_BATCH);
      next := Load(start);
      StrideLink(buffer.Length, d, x, i, start);
    }

    // Consecutive batches from node x on, timed from clock(first) on.
    method StrideRun(x: nat, batches: nat, ghost d: nat, clock: nat -> nat, first: nat)
        returns (samples: seq<real>)
      requires Valid() && x < buffer.Length && buffer[..] == StrideRing(buffer.Length, d)
      modifies `cached, `trace, `missed
      ensures Valid() && trace == old(trace) + StrideBatches(buffer.Length, d, x, batches)
      ensures samples == Timings(clock, overhead, LATENCY_BATCH, first, batches)
    {
      samples := [];
      var current := x;
      CyclicSmall(x, buffer.Length);
      for i := 0 to batches
        invariant samples == Timings(clock, overhead, LATENCY_BATCH, first, i)
        invariant Valid() && current == Cyclic(x + i * d, buffer.Length)
        invariant trace == old(trace) + StrideBatches(buffer.Length, d, x, i)
      {
        var sample;
        current, sample := StrideStep(current, x, i, d, clock(first + i));
        samples := samples + [sample];
      }
    }

    method MeasureOneStride(raw: nat, iterations: nat, warmup: nat, rounds: nat, clock: nat -> nat)
        returns (r: Outcome)
      requires Valid() && Accepted(iterations, warmup, rounds)
      modifies this, buffer
      ensures Valid() && r == Expected(clock, overhead, LATENCY_BATCH, iterations, warmup, rounds)
      ensures trace == old(trace) + StrideTraces(buffer.Length, raw, iterations, warmup, rounds)
    {
      hide Summarize, SampleCount, Timings, StrideBatches;
      NoTimings(clock, overhead, LATENCY_BATCH);
      RoundDone(0, iterations);
      var stride := if raw / LINE * LINE > LINE then raw / LINE * LINE else LINE;
      BuildStrideRing(stride);
      ghost var n, d := buffer.Length, StrideLines(stride);
      var _ := StrideRun(0, warmup, d, _ => 0, 0);
      ghost var before := trace;
      var samples: seq<real> := [];
      for round := 0 to rounds
        invariant |samples| == SampleCount(round, iterations)
        invariant samples == Timings(clock, overhead, LATENCY_BATCH, 0, |samples|)
        invariant Valid() && buffer[..] == StrideRing(n, d)
        invariant trace == before + StrideRounds(n, d, round, iterations)
      {
        RoundDone(round, iterations);
        MoreTimings(clock, overhead, LATENCY_BATCH, |samples|, iterations);
        var more := StrideRun(round % buffer.Length, iterations, d, clock, |samples|);
        samples := samples + more;
      }
      var summary := SummarizeImpl(samples);
      r := Measured(summary);
    }

    method RunStrides(strides: seq<nat>, iterations: nat, warmup: nat, rounds: nat, clocks: nat -> nat -> nat)
        returns (r: seq<Outcome>)
      requires Valid() && Accepted(iterations, warmup, rounds)
      modifies this, buffer
      ensures Valid()
      ensures trace == old(trace) + StridesTrace(buffer.Length, strides, iterations, warmup, rounds)
      ensures |r| == |strides| && forall s :: 0 <= s < |r| ==>
                r[s] == Expected(clocks(s), overhead, LATENCY_BATCH, iterations, warmup, rounds)
    {
      hide StridesTrace, StrideTraces, Expected;
      r := [];
      NoStrides(buffer.Length, strides, iterations, warmup, rounds);
      for s := 0 to |strides|
        invariant Valid()
        invariant trace == old(trace) + StridesTrace(buffer.Length, strides[..s], iterations, warmup, rounds)
        invariant |r| == s && forall k :: 0 <= k < s ==>
                    r[k] == Expected(clocks(k), overhead, LATENCY_BATCH, iterations, warmup, rounds)
      {
        var outcome := MeasureOneStride(strides[s], iterations, warmup, rounds, clocks(s));
        OneMoreStride(buffer.Length, strides, s, iterations, warmup, rounds);
        r := r + [outcome];
      }
      assert strides[..|strides|] == strides;
    }

    // clocks(s) times the batches of stride s.
    method MeasureStrides(strides: seq<nat>, iterations: int, warmup: int, rounds: int, clocks: nat -> nat -> nat)
        returns (r: seq<Outcome>)
      requires Valid()
      modifies this, buffer
      ensures Valid()
      ensures trace == old(trace) + CallTrace(buffer.Length, shuffled, Strides(strides, iterations, warmup, rounds))
      ensures if Accepted(iterations, warmup, rounds)
              then |r| == |strides| && forall s :: 0 <= s < |r| ==>
                     && r[s] == Expected(clocks(s), overhead, LATENCY_BATCH, iterations, warmup, rounds)
                     && Reports(r[s], clocks(s), overhead, 128, rounds * iterations)
              else r == [Thrown]
      ensures iterations <= 0 || warmup < 0 || rounds <= 0 <==> r == [Thrown]
    {
      if iterations <= 0 || warmup < 0 || rounds <= 0 {
        return [Thrown];
      }
      hide Expected, Reports;
      r := RunStrides(strides, iterations, warmup, rounds, clocks);
      forall s | 0 <= s < |strides| ensures Reports(r[s], clocks(s), overhead, 128, rounds * iterations) {
        ExpectedReports(clocks(s), overhead, LATENCY_BATCH, iterations, warmup, rounds);
      }
      forall s | 0 <= s < |strides| ensures r[s] != Thrown {
        assert Reports(r[s], clocks(s), overhead, 128, rounds * iterations);
        ReportsIsMeasured(r[s], clocks(s), overhead, 128, rounds * iterations);
      }
      NoneThrown(r);
    }

    // --- any sequence of calls ----------------------------------------------

    method Perform(call: Call, clocks: nat -> nat -> nat)
      requires Valid()
      modifies this, buffer
      ensures Valid() && trace == old(trace) + CallTrace(buffer.Length, shuffled, call)
    {
      match call {
        case Hit(iterations, warmup, rounds) => var _ := MeasureHit(iterations, warmup, rounds, clocks(0));
        case ForcedMiss(iterations, warmup, rounds) =>
          var _ := MeasureForcedMiss(iterations, warmup, rounds, clocks(0));
        case Stores(iterations, warmup, rounds) => var _ := MeasureStore(iterations, warmup, rounds, clocks(0));
        case Strides(strides, iterations, warmup, rounds) =>
          var _ := MeasureStrides(strides, iterations, warmup, rounds, clocks);
      }
    }

    // History independence: however the calls before it have rewritten the
    // links, each call reads the nodes its own arguments say, and every link
    // names a node throughout.
    method PerformAll(calls: seq<Call>, clocks: nat -> nat -> nat)
      requires Valid()
      modifies this, buffer
      ensures Valid() && trace == old(trace) + CallsTrace(buffer.Length, shuffled, calls)
    {
      hide CallTrace;
      for k := 0 to |calls|
        invariant Valid() && trace == old(trace) + CallsTrace(buffer.Length, shuffled, calls[..k])
      {
        Perform(calls[k], clocks);
        OneMoreCall(buffer.Length, shuffled, calls, k);
      }
      assert calls[..|calls|] == calls;
    }
  }
}
