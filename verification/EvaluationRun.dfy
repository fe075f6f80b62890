// The accumulation loop of EvaluationLab::run, over traces that are arbitrary
// except for their length.

module EvaluationRun {
  import opened Samples
  import opened Modular
  import opened Medians
  import opened Outliers
  import opened Blocks
  import opened Classification

  // What one round collects: the two traces and the eight samples re-collected
  // after the simulated capture fault.
  datatype Capture = Capture(fixed: seq<real>, random: seq<real>, recovery: seq<real>)

  const FAULT_SAMPLES := 8

  ghost predicate Collected(captures: seq<Capture>, count: nat) {
    forall k :: 0 <= k < |captures| ==>
      |captures[k].fixed| == |captures[k].random| == count && |captures[k].recovery| == FAULT_SAMPLES
  }

  // In the first round the tail of the fixed trace is lost and re-collected.
  function Repaired(round: nat, c: Capture): seq<real> {
    if round == 0 && |c.fixed| > FAULT_SAMPLES then c.fixed[..|c.fixed| - FAULT_SAMPLES] + c.recovery
    else c.fixed
  }

  function AlignSamples(first: seq<real>, second: seq<real>): (r: seq<real>)
    ensures r <= first && |r| == if |first| < |second| then |first| else |second|
  {
    first[..if |first| < |second| then |first| else |second|]
  }

  // --- what the rounds contribute, as independent sums ------------------------

  function FixedTraces(captures: seq<Capture>): seq<seq<real>> {
    seq(|captures|, k requires 0 <= k < |captures| => Repaired(k, captures[k]))
  }

  function RandomTraces(captures: seq<Capture>): seq<seq<real>> {
    seq(|captures|, k requires 0 <= k < |captures| => captures[k].random)
  }

  // The blocks of all traces, one trace after the other.
  function AllBlocks(traces: seq<seq<real>>, window: nat): seq<real>
    decreases |traces|
  {
    if traces == [] then []
    else AllBlocks(traces[..|traces| - 1], window) + AverageBlocks(traces[|traces| - 1], window)
  }

  // The raw samples behind those blocks.
  function AllUsed(traces: seq<seq<real>>, window: nat): seq<real>
    requires window > 0
    decreases |traces|
  {
    if traces == [] then []
    else AllUsed(traces[..|traces| - 1], window) + Used(traces[|traces| - 1], window)
  }

  // The median of each trace's blocks, for traces that have a block.
  function RunMedians(traces: seq<seq<real>>, window: nat): seq<real>
    decreases |traces|
  {
    if traces == [] then []
    else
      var last := traces[|traces| - 1];
      RunMedians(traces[..|traces| - 1], window)
      + (if |last| < window then [] else [MedianOf(AverageBlocks(last, window))])
  }

  // The pairs of averaged samples a full-length division of all traces would
  // give, and the pairs that whole windows of each trace give.
  function RequestedPairs(runs: nat, trace: nat, window: nat): nat
    requires window > 0
  {
    runs * trace / window
  }

  function AlignedPairs(runs: nat, trace: nat, window: nat): nat
    requires window > 0
  {
    runs * (trace / window)
  }

  datatype RunResult = RunResult(
    faults: nat, recovered: nat, recoveryRate: real,
    fixedAll: seq<real>, randomAll: seq<real>, runMedians: seq<real>,
    requestedPairs: nat, alignedSamples: nat, alignmentLoss: real,
    fixedMetrics: RobustMetrics, randomMetrics: RobustMetrics, classificationError: real)

  datatype Outcome = NotRun | Ran(result: RunResult)

  lemma WholeRatio(n: real)
    requires n > 0.0
    ensures 100.0 * n / n == 100.0
  {
    var q := 100.0 * n / n;
    assert q * n == 100.0 * n;
    assert (q - 100.0) * n == 0.0;
  }

  function RecoveryRate(faults: nat, recovered: nat): (rate: real)
    ensures faults == recovered ==> rate == 100.0
  {
    if faults == 0 then 100.0
    else
      WholeRatio(faults as real);
      100.0 * recovered as real / faults as real
  }

  function Loss(aligned: nat, requested: nat): real {
    if requested == 0 then 0.0 else 100.0 * (1.0 - aligned as real / requested as real)
  }

  lemma LossInRange(aligned: nat, requested: nat)
    requires aligned <= requested
    ensures 0.0 <= Loss(aligned, requested) <= 100.0
  {
    if requested > 0 {
      PartOfWhole(aligned as real, requested as real);
    }
  }

  lemma LossBounds(lost: int, rest: nat, runs: nat, m: nat, window: nat)
    requires runs > 0 && m < window && rest < window && lost * window + rest == runs * m
    ensures 0 <= lost < runs
  {
    Distribute(-lost, 1, window);
    Distribute(lost, runs, window);
    assert lost < 0 ==> (-lost - 1) * window >= 0;
    assert lost >= runs ==> (lost - runs) * window >= 0;
    assert runs * m < runs * window;
  }

  // runs * floor(trace / window) pairs of the floor(runs * trace / window)
  // requested ones: fewer than one pair a run is lost.
  lemma LossCount(runs: nat, trace: nat, window: nat)
    requires runs > 0 && window > 0
    ensures 0 <= RequestedPairs(runs, trace, window) - AlignedPairs(runs, trace, window) < runs
  {
    var q, m, t := trace / window, trace % window, runs * trace;
    DivMod(trace, window);
    DivMod(t, window);
    assert t == runs * (q * window + m);
    assert runs * (q * window + m) == runs * (q * window) + runs * m;
    Associate(runs, q, window);
    LossBounds(t / window - runs * q, t % window, runs, m, window) by {
      Distribute(t / window, runs * q, window);
    }
  }

  method CompareWithRequest(runs: nat, traceSamples: nat, window: nat, aligned: nat)
      returns (requested: nat, loss: real)
    requires runs > 0 && window > 0 && aligned == AlignedPairs(runs, traceSamples, window)
    ensures requested == RequestedPairs(runs, traceSamples, window)
    ensures 0 <= requested - aligned < runs && loss == Loss(aligned, requested) && 0.0 <= loss <= 100.0
  {
    LossCount(runs, traceSamples, window);
    requested := RequestedPairs(runs, traceSamples, window);
    hide RequestedPairs, AlignedPairs;
    LossInRange(aligned, requested);
    loss := 0.0;
    if requested > 0 {
      loss := 100.0 * (1.0 - aligned as real / requested as real);
    }
  }

  lemma OneMoreTrace(traces: seq<seq<real>>, window: nat, k: nat)
    requires k < |traces|
    ensures var blocks := AverageBlocks(traces[k], window);
            && AllBlocks(traces[..k + 1], window) == AllBlocks(traces[..k], window) + blocks
            && RunMedians(traces[..k + 1], window)
               == RunMedians(traces[..k], window) + (if |traces[k]| < window then [] else [MedianOf(blocks)])
  {
    hide AverageBlocks, MedianOf;
    assert traces[..k + 1][..k] == traces[..k];
  }

  lemma NoBlocksIff(length: nat, window: nat)
    requires window > 0
    ensures length / window == 0 <==> length < window
  {
    DivMod(length, window);
    if length < window {
      ModUnique(length, window, 0, length);
    }
  }

  // Traces of one length give blocks of one length, so alignment drops nothing.
  method AverageAndAlign(fixed: seq<real>, random: seq<real>, window: nat)
      returns (alignedFixed: seq<real>, alignedRandom: seq<real>)
    requires window > 0 && |fixed| == |random|
    ensures alignedFixed == AverageBlocks(fixed, window)
    ensures alignedRandom == AverageBlocks(random, window)
    ensures |alignedFixed| == |alignedRandom|
    ensures |alignedFixed| == 0 <==> |fixed| < window
  {
    var fixedAveraged := ComputeAverages(fixed, window);
    var randomAveraged := ComputeAverages(random, window);
    BlockCount(fixed, window);
    BlockCount(random, window);
    NoBlocksIff(|fixed|, window);
    alignedFixed := AlignSamples(fixedAveraged, randomAveraged);
    alignedRandom := randomAveraged[..|alignedFixed|];
  }

  // --- block by block ---------------------------------------------------------

  // Of `all` blocks, b a round, block j of round k is the mean of window j of the trace.
  ghost predicate BlockIsMean(all: seq<real>, b: nat, k: nat, j: nat, trace: seq<real>, window: nat) {
    k * b + j < |all| && IsWindowMean(all[k * b + j], trace, window, j)
  }

  ghost predicate TraceKept(all: seq<real>, b: nat, k: nat, trace: seq<real>, window: nat) {
    forall j :: 0 <= j < b ==> BlockIsMean(all, b, k, j, trace, window)
  }

  // The random blocks are the window means of the random traces.
  ghost predicate KeepsRandom(all: seq<real>, captures: seq<Capture>, window: nat, b: nat) {
    forall k :: 0 <= k < |captures| ==> TraceKept(all, b, k, captures[k].random, window)
  }

  // The fixed blocks are those of the fixed traces; in round 0 the last eight
  // samples of a longer trace are the re-collected ones.
  ghost predicate KeepsFixed(all: seq<real>, captures: seq<Capture>, window: nat, b: nat) {
    && (forall k :: 0 <= k < |captures| && (k > 0 || |captures[k].fixed| <= 8) ==>
          TraceKept(all, b, k, captures[k].fixed, window))
    && (|captures| > 0 && |captures[0].fixed| > 8 ==>
          var count := |captures[0].fixed|;
          TraceKept(all, b, 0, captures[0].fixed[..count - 8] + captures[0].recovery, window))
  }

  ghost predicate MedianOfRound(median: real, all: seq<real>, b: nat, k: nat) {
    0 <= k * b <= (k + 1) * b <= |all| && median == MedianOf(all[k * b..(k + 1) * b])
  }

  // Each median is that of its round's blocks.
  ghost predicate KeepsMedians(medians: seq<real>, all: seq<real>, b: nat) {
    forall k :: 0 <= k < |medians| ==> MedianOfRound(medians[k], all, b, k)
  }

  ghost predicate SameLengths(traces: seq<seq<real>>, count: nat) {
    forall k :: 0 <= k < |traces| ==> |traces[k]| == count
  }

  lemma LastTrace(traces: seq<seq<real>>, window: nat, count: nat)
    requires traces != [] && SameLengths(traces, count)
    ensures var last := |traces| - 1;
            && AllBlocks(traces, window) == AllBlocks(traces[..last], window) + AverageBlocks(traces[last], window)
            && RunMedians(traces, window)
               == RunMedians(traces[..last], window)
                  + (if count < window then [] else [MedianOf(AverageBlocks(traces[last], window))])
            && SameLengths(traces[..last], count) && |traces[last]| == count
  {
    hide AverageBlocks, MedianOf;
  }

  // floor(trace / window) blocks a trace, none if the window exceeds it.
  lemma {:induction false} BlocksCollected(traces: seq<seq<real>>, window: nat, count: nat)
    requires window > 0 && SameLengths(traces, count)
    ensures |AllBlocks(traces, window)| == AlignedPairs(|traces|, count, window)
    ensures |RunMedians(traces, window)| == if count < window then 0 else |traces|
    decreases |traces|
  {
    if traces != [] {
      var k := |traces| - 1;
      BlocksCollected(traces[..k], window, count);
      BlockCount(traces[k], window);
      OneMore(k, count / window);
      hide AverageBlocks;
    }
  }

  lemma PairCounts(runs: nat, trace: nat, window: nat)
    requires window > 0
    ensures RequestedPairs(runs, trace, window) == runs * trace / window
    ensures AlignedPairs(runs, trace, window) == runs * (trace / window)
  {
  }

  lemma {:induction false} RoundBlocks(traces: seq<seq<real>>, window: nat, count: nat, b: nat, k: nat)
    requires window > 0 && SameLengths(traces, count) && k < |traces| && b == count / window
    ensures var all := AllBlocks(traces, window);
            0 <= k * b <= (k + 1) * b <= |all| && all[k * b..(k + 1) * b] == AverageBlocks(traces[k], window)
    decreases |traces|
  {
    hide *;
    var last := |traces| - 1;
    var earlier, blocks := AllBlocks(traces[..last], window), AverageBlocks(traces[last], window);
    LastTrace(traces, window, count);
    BlocksCollected(traces[..last], window, count);
    PairCounts(last, count, window);
    BlockCount(traces[last], window);
    RoundRange(k, last, b);
    if k < last {
      RoundBlocks(traces[..last], window, count, b, k);
      SliceOfFirst(earlier, blocks, k * b, (k + 1) * b);
    } else {
      assert (earlier + blocks)[|earlier|..] == blocks;
    }
  }

  lemma RoundBlockAt(traces: seq<seq<real>>, window: nat, count: nat, b: nat, k: nat, j: nat)
    requires window > 0 && SameLengths(traces, count) && k < |traces| && b == count / window && j < b
    ensures BlockIsMean(AllBlocks(traces, window), b, k, j, traces[k], window)
  {
    hide AllBlocks, AverageBlocks, IsWindowMean;
    var all := AllBlocks(traces, window);
    RoundBlocks(traces, window, count, b, k);
    BlockAt(traces[k], window, j);
    OneMore(k, b);
    assert all[k * b..(k + 1) * b][j] == all[k * b + j];
  }

  lemma {:induction false} MedianAt(traces: seq<seq<real>>, window: nat, count: nat, k: nat)
    requires window > 0 && SameLengths(traces, count) && k < |traces| && count >= window
    ensures k < |RunMedians(traces, window)|
    ensures RunMedians(traces, window)[k] == MedianOf(AverageBlocks(traces[k], window))
    decreases |traces|
  {
    hide *;
    var last := |traces| - 1;
    LastTrace(traces, window, count);
    BlocksCollected(traces[..last], window, count);
    if k < last {
      MedianAt(traces[..last], window, count, k);
    }
  }

  lemma RoundIsKept(traces: seq<seq<real>>, window: nat, count: nat, b: nat, k: nat)
    requires window > 0 && SameLengths(traces, count) && k < |traces| && b == count / window
    ensures TraceKept(AllBlocks(traces, window), b, k, traces[k], window)
  {
    forall j | 0 <= j < b ensures BlockIsMean(AllBlocks(traces, window), b, k, j, traces[k], window) {
      RoundBlockAt(traces, window, count, b, k, j);
    }
    hide *;
  }

  lemma FixedIsKept(captures: seq<Capture>, window: nat, count: nat, b: nat)
    requires window > 0 && Collected(captures, count) && b == count / window
    ensures KeepsFixed(AllBlocks(FixedTraces(captures), window), captures, window, b)
  {
    hide AllBlocks, TraceKept;
    var traces := FixedTraces(captures);
    assert SameLengths(traces, count);
    forall k | 0 <= k < |captures| && (k > 0 || |captures[k].fixed| <= 8)
      ensures TraceKept(AllBlocks(traces, window), b, k, captures[k].fixed, window)
    {
      RoundIsKept(traces, window, count, b, k);
      assert traces[k] == captures[k].fixed;
    }
    if |captures| > 0 && |captures[0].fixed| > 8 {
      RoundIsKept(traces, window, count, b, 0);
      assert traces[0] == captures[0].fixed[..count - 8] + captures[0].recovery;
    }
  }

  lemma RandomIsKept(captures: seq<Capture>, window: nat, count: nat, b: nat)
    requires window > 0 && Collected(captures, count) && b == count / window
    ensures KeepsRandom(AllBlocks(RandomTraces(captures), window), captures, window, b)
  {
    hide AllBlocks, TraceKept;
    var traces := RandomTraces(captures);
    assert SameLengths(traces, count);
    forall k | 0 <= k < |captures| ensures TraceKept(AllBlocks(traces, window), b, k, captures[k].random, window) {
      RoundIsKept(traces, window, count, b, k);
    }
  }

  lemma MedianIsKept(traces: seq<seq<real>>, window: nat, count: nat, b: nat, k: nat)
    requires window > 0 && SameLengths(traces, count) && b == count / window && k < |traces| && count >= window
    ensures k < |RunMedians(traces, window)|
    ensures MedianOfRound(RunMedians(traces, window)[k], AllBlocks(traces, window), b, k)
  {
    hide AllBlocks, RunMedians, MedianOf, AverageBlocks;
    MedianAt(traces, window, count, k);
    RoundBlocks(traces, window, count, b, k);
  }

  lemma MediansAreKept(traces: seq<seq<real>>, window: nat, count: nat, b: nat)
    requires window > 0 && SameLengths(traces, count) && b == count / window
    ensures KeepsMedians(RunMedians(traces, window), AllBlocks(traces, window), b)
  {
    hide AllBlocks, RunMedians, MedianOf, AverageBlocks, MedianOfRound;
    BlocksCollected(traces, window, count);
    forall k | 0 <= k < |RunMedians(traces, window)|
      ensures MedianOfRound(RunMedians(traces, window)[k], AllBlocks(traces, window), b, k)
    {
      MedianIsKept(traces, window, count, b, k);
    }
  }

  // --- the run ----------------------------------------------------------------

  lemma NoTraces(window: nat)
    ensures AllBlocks([], window) == [] && RunMedians([], window) == []
  {
  }

  lemma AllIsKept(captures: seq<Capture>, window: nat, count: nat)
    requires window > 0 && Collected(captures, count)
    ensures var b := count / window;
            var fixed, random := AllBlocks(FixedTraces(captures), window), AllBlocks(RandomTraces(captures), window);
            && KeepsFixed(fixed, captures, window, b) && KeepsRandom(random, captures, window, b)
            && KeepsMedians(RunMedians(FixedTraces(captures), window), fixed, b)
            && |fixed| == |random| == AlignedPairs(|captures|, count, window)
            && |RunMedians(FixedTraces(captures), window)| == if count < window then 0 else |captures|
  {
    hide KeepsFixed, KeepsRandom, KeepsMedians;
    FixedIsKept(captures, window, count, count / window);
    RandomIsKept(captures, window, count, count / window);
    MediansAreKept(FixedTraces(captures), window, count, count / window);
    BlocksCollected(FixedTraces(captures), window, count);
    BlocksCollected(RandomTraces(captures), window, count);
  }

  method PlayRounds(runs: nat, traceSamples: nat, window: nat, captures: seq<Capture>)
      returns (faults: nat, recovered: nat, fixedAll: seq<real>, randomAll: seq<real>, runMedians: seq<real>)
    requires runs > 0 && window > 0 && |captures| == runs && Collected(captures, traceSamples)
    ensures faults == recovered == if traceSamples > FAULT_SAMPLES then 1 else 0
    ensures fixedAll == AllBlocks(FixedTraces(captures), window)
    ensures randomAll == AllBlocks(RandomTraces(captures), window)
    ensures runMedians == RunMedians(FixedTraces(captures), window)
  {
    hide AverageBlocks, MedianOf, AllBlocks, RunMedians;
    NoTraces(window);
    faults, recovered, fixedAll, randomAll, runMedians := 0, 0, [], [], [];
    ghost var fixedTraces, randomTraces := FixedTraces(captures), RandomTraces(captures);
    for k := 0 to runs
      invariant faults == recovered == if k > 0 && traceSamples > FAULT_SAMPLES then 1 else 0
      invariant fixedAll == AllBlocks(fixedTraces[..k], window)
      invariant randomAll == AllBlocks(randomTraces[..k], window)
      invariant runMedians == RunMedians(fixedTraces[..k], window)
    {
      OneMoreTrace(fixedTraces, window, k);
      OneMoreTrace(randomTraces, window, k);
      var fixed, random := captures[k].fixed, captures[k].random;
      if k == 0 && |fixed| > FAULT_SAMPLES {
        faults := faults + 1;
        fixed := fixed[..|fixed| - FAULT_SAMPLES];
        fixed := fixed + captures[k].recovery;
        if |fixed| == traceSamples {
          recovered := recovered + 1;
        }
      }
      assert fixed == fixedTraces[k] && random == randomTraces[k] && |fixed| == traceSamples;
      var alignedFixed, alignedRandom := AverageAndAlign(fixed, random, window);
      if |alignedFixed| != 0 {
        fixedAll := fixedAll + alignedFixed;
        randomAll := randomAll + alignedRandom;
        runMedians := runMedians + [MedianOf(alignedFixed)];
      }
    }
    assert fixedTraces[..runs] == fixedTraces && randomTraces[..runs] == randomTraces;
  }

  // The rounds.
  method Accumulate(runs: nat, traceSamples: nat, window: nat, captures: seq<Capture>)
      returns (faults: nat, recovered: nat, fixedAll: seq<real>, randomAll: seq<real>, runMedians: seq<real>)
    requires runs > 0 && window > 0 && |captures| == runs && Collected(captures, traceSamples)
    ensures faults == recovered == if traceSamples > FAULT_SAMPLES then 1 else 0
    ensures fixedAll == AllBlocks(FixedTraces(captures), window)
    ensures randomAll == AllBlocks(RandomTraces(captures), window)
    ensures runMedians == RunMedians(FixedTraces(captures), window)
    ensures KeepsFixed(fixedAll, captures, window, traceSamples / window)
    ensures KeepsRandom(randomAll, captures, window, traceSamples / window)
    ensures KeepsMedians(runMedians, fixedAll, traceSamples / window)
    ensures |fixedAll| == |randomAll| == AlignedPairs(runs, traceSamples, window)
    ensures |runMedians| == if traceSamples < window then 0 else runs
  {
    hide *;
    AllIsKept(captures, window, traceSamples);
    faults, recovered, fixedAll, randomAll, runMedians := PlayRounds(runs, traceSamples, window, captures);
  }

  // What a run has gathered, read off the captures.
  ghost predicate Gathered(r: RunResult, runs: nat, traceSamples: nat, window: nat, captures: seq<Capture>)
    requires window > 0
  {
    var b := traceSamples / window;
    && |r.fixedAll| == |r.randomAll| == r.alignedSamples == runs * b
    && |r.runMedians| == (if traceSamples < window then 0 else runs)
    && KeepsFixed(r.fixedAll, captures, window, b)
    && KeepsRandom(r.randomAll, captures, window, b)
    && KeepsMedians(r.runMedians, r.fixedAll, b)
  }

  // The loss is the share of the requested pairs that is missing, in percent.
  ghost predicate LossIsShare(r: RunResult, runs: nat, traceSamples: nat, window: nat)
    requires window > 0
  {
    && r.requestedPairs == runs * traceSamples / window
    && (r.requestedPairs == 0 ==> r.alignmentLoss == 0.0)
    && r.alignmentLoss * r.requestedPairs as real == 100.0 * (r.requestedPairs - r.alignedSamples) as real
  }

  lemma ShowGathered(r: RunResult, runs: nat, traceSamples: nat, window: nat, captures: seq<Capture>)
    requires window > 0
    requires |r.fixedAll| == |r.randomAll| == r.alignedSamples == AlignedPairs(runs, traceSamples, window)
    requires |r.runMedians| == if traceSamples < window then 0 else runs
    requires KeepsFixed(r.fixedAll, captures, window, traceSamples / window)
    requires KeepsRandom(r.randomAll, captures, window, traceSamples / window)
    requires KeepsMedians(r.runMedians, r.fixedAll, traceSamples / window)
    ensures Gathered(r, runs, traceSamples, window, captures)
  {
    hide KeepsFixed, KeepsRandom, KeepsMedians;
  }

  lemma LossTimes(aligned: nat, requested: nat)
    requires aligned <= requested
    ensures Loss(aligned, requested) * requested as real == 100.0 * (requested - aligned) as real
    ensures requested == 0 ==> Loss(aligned, requested) == 0.0
  {
    if requested > 0 {
      var q := aligned as real / requested as real;
      assert q * requested as real == aligned as real;
      assert (1.0 - q) * requested as real == requested as real - aligned as real;
    }
  }

  lemma ShowLoss(r: RunResult, runs: nat, traceSamples: nat, window: nat)
    requires window > 0 && r.requestedPairs == RequestedPairs(runs, traceSamples, window)
    requires r.alignedSamples <= r.requestedPairs && r.alignmentLoss == Loss(r.alignedSamples, r.requestedPairs)
    ensures LossIsShare(r, runs, traceSamples, window)
  {
    LossTimes(r.alignedSamples, r.requestedPairs);
    hide Loss;
  }

  lemma PathIsEmpty(path: string)
    ensures |path| == 0 <==> path == ""
  {
  }

  method Run(runs: int, traceSamples: int, window: nat, reportPath: string, captures: seq<Capture>)
      returns (r: Outcome)
    requires runs > 0 && traceSamples > 0 ==> |captures| == runs && Collected(captures, traceSamples)
    ensures r.NotRun? <==> runs <= 0 || traceSamples <= 0 || window == 0 || reportPath == ""
    ensures r.Ran? ==>
              && r.result.fixedAll == AllBlocks(FixedTraces(captures), window)
              && r.result.randomAll == AllBlocks(RandomTraces(captures), window)
              && r.result.runMedians == RunMedians(FixedTraces(captures), window)
              && r.result.alignedSamples == |r.result.fixedAll| == AlignedPairs(runs, traceSamples, window)
              && r.result.requestedPairs == RequestedPairs(runs, traceSamples, window)
              && r.result.fixedMetrics == Metrics(r.result.fixedAll, DEFAULT_THRESHOLD)
              && r.result.randomMetrics == Metrics(r.result.randomAll, DEFAULT_THRESHOLD)
              && r.result.classificationError == ErrorRate(r.result.fixedAll, r.result.randomAll)
              && r.result.alignmentLoss == Loss(r.result.alignedSamples, r.result.requestedPairs)
    ensures r.Ran? ==>
              && runs > 0 && traceSamples > 0 && window > 0
              && Gathered(r.result, runs, traceSamples, window, captures)
              && LossIsShare(r.result, runs, traceSamples, window)
    ensures r.Ran? ==> 0.0 <= r.result.alignmentLoss <= 100.0
    ensures r.Ran? ==> r.result.recovered == r.result.faults == (if traceSamples > FAULT_SAMPLES then 1 else 0)
    ensures r.Ran? ==> r.result.recoveryRate == 100.0
  {
    hide *;
    PathIsEmpty(reportPath);
    if runs <= 0 || traceSamples <= 0 || window == 0 || |reportPath| == 0 {
      return NotRun;
    }
    var faults, recovered, fixedAll, randomAll, runMedians := Accumulate(runs, traceSamples, window, captures);
    PairCounts(runs, traceSamples, window);
    var requested, loss := CompareWithRequest(runs, traceSamples, window, |fixedAll|);
    var fixedMetrics := ComputeRobustMetrics(fixedAll, DEFAULT_THRESHOLD);
    var randomMetrics := ComputeRobustMetrics(randomAll, DEFAULT_THRESHOLD);
    var error := ClassificationErrorRate(fixedAll, randomAll);
    r := Ran(RunResult(faults, recovered, RecoveryRate(faults, recovered), fixedAll, randomAll, runMedians,
                       requested, |fixedAll|, loss, fixedMetrics, randomMetrics, error));
    ShowGathered(r.result, runs, traceSamples, window, captures);
    ShowLoss(r.result, runs, traceSamples, window);
  }

  // --- how much is accumulated, and what is kept of it ------------------------

  lemma SumConcat(a: seq<real>, b: seq<real>)
    ensures Sum(a + b) == Sum(a) + Sum(b)
  {
    SumAppend(Itself(), a, b);
  }

  lemma AddTotals(n: real, a: real, b: real, ab: real, s: real, t: real)
    requires n * a == s && n * b == t && ab == a + b
    ensures n * ab == s + t
  {
    Spread(n, a, b);
  }

  lemma SameTotalConcat(window: nat, a: seq<real>, s: seq<real>, b: seq<real>, t: seq<real>)
    requires SameTotal(window, a, s) && SameTotal(window, b, t)
    ensures SameTotal(window, a + b, s + t)
  {
    hide Sum;
    SumConcat(a, b);
    SumConcat(s, t);
    AddTotals(window as real, Sum(a), Sum(b), Sum(a + b), Sum(s), Sum(t));
  }

  lemma ContractsConcat(window: nat, a: seq<real>, s: seq<real>, b: seq<real>, t: seq<real>, c: real)
    requires Contracts(window, a, s, c) && Contracts(window, b, t, c)
    ensures Contracts(window, a + b, s + t, c)
  {
    hide SumSquares;
    SquaresAppend(a, b, c);
    SquaresAppend(s, t, c);
    AddContractions(window as real, SumSquares(a, c), SumSquares(b, c), SumSquares(a + b, c),
                    SumSquares(s, c), SumSquares(t, c));
  }

  // Over a whole run the accumulated blocks keep the total of the samples
  // behind them and are no noisier than those samples, about any centre.
  lemma {:induction false} RunKeepsTotals(traces: seq<seq<real>>, window: nat, c: real)
    requires window > 0
    ensures SameTotal(window, AllBlocks(traces, window), AllUsed(traces, window))
    ensures Contracts(window, AllBlocks(traces, window), AllUsed(traces, window), c)
    decreases |traces|
  {
    if traces != [] {
      var earlier, last := traces[..|traces| - 1], traces[|traces| - 1];
      RunKeepsTotals(earlier, window, c);
      BlocksKeepSum(last, window);
      BlocksContract(last, window, c);
      hide SameTotal, Contracts;
      SameTotalConcat(window, AllBlocks(earlier, window), AllUsed(earlier, window),
                      AverageBlocks(last, window), Used(last, window));
      ContractsConcat(window, AllBlocks(earlier, window), AllUsed(earlier, window),
                      AverageBlocks(last, window), Used(last, window), c);
    }
  }

  function Concat(traces: seq<seq<real>>): seq<real>
    decreases |traces|
  {
    if traces == [] then [] else Concat(traces[..|traces| - 1]) + traces[|traces| - 1]
  }

  // When the window divides the trace, nothing is lost: the fixed and the random
  // blocks are window-averages of everything collected.
  lemma {:induction false} WholeWindowsUseAll(traces: seq<seq<real>>, window: nat, blocks: nat)
    requires window > 0 && forall k :: 0 <= k < |traces| ==> |traces[k]| == blocks * window
    ensures AllUsed(traces, window) == Concat(traces)
    decreases |traces|
  {
    if traces != [] {
      var last := |traces| - 1;
      WholeWindowsUseAll(traces[..last], window, blocks);
      UsesAll(traces[last], window, blocks);
    }
  }
}
