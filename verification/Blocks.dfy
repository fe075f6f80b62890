// average_blocks of evaluation_lab.cpp: the means of consecutive windows.

module Blocks {
  import opened Samples
  import opened Modular

  // The means of the complete windows; a remainder shorter than one is dropped.
  function AverageBlocks(s: seq<real>, window: nat): seq<real>
    decreases |s|
  {
    if window == 0 || |s| < window then []
    else [Mean(s[..window])] + AverageBlocks(s[window..], window)
  }

  lemma NextBlock(length: nat, window: nat)
    requires 0 < window <= length
    ensures length / window == (length - window) / window + 1
    ensures (length / window) * window == ((length - window) / window) * window + window <= length
  {
    var k := (length - window) / window;
    DivMod(length - window, window);
    Distribute(k, 1, window);
    ModUnique(length, window, k + 1, (length - window) % window);
    DivMod(length, window);
  }

  lemma {:induction false} BlockCount(s: seq<real>, window: nat)
    requires window > 0
    ensures |AverageBlocks(s, window)| == |s| / window
    decreases |s|
  {
    if |s| >= window {
      BlockCount(s[window..], window);
      NextBlock(|s|, window);
    } else {
      ModUnique(|s|, window, 0, |s|);
    }
  }

  // The part of the input that falls into complete windows.
  function Used(s: seq<real>, window: nat): seq<real>
    requires window > 0
  {
    DivMod(|s|, window);
    s[..(|s| / window) * window]
  }

  lemma UsedStep(s: seq<real>, window: nat)
    requires 0 < window
    ensures |s| >= window ==> Used(s, window) == s[..window] + Used(s[window..], window)
    ensures |s| < window ==> Used(s, window) == []
  {
    if |s| >= window {
      NextBlock(|s|, window);
    } else {
      ModUnique(|s|, window, 0, |s|);
    }
  }

  lemma BlockFits(i: nat, count: nat, window: nat, length: nat)
    requires i < count && count * window <= length
    ensures (i + 1) * window == i * window + window <= length
  {
    Distribute(i, 1, window);
    var left: nat := count - (i + 1);
    Distribute(left, i + 1, window);
    ProductNatural(left, window);
  }

  lemma LastBlock(s: seq<real>, count: nat, window: nat)
    requires window > 0 && count == |s| / window && count * window <= |s|
    ensures AverageBlocks(s[count * window..], window) == []
  {
    DivMod(|s|, window);
  }

  // The program's nested loops compute the means.
  method ComputeAverages(samples: seq<real>, window: nat) returns (result: seq<real>)
    ensures result == AverageBlocks(samples, window)
  {
    if |samples| == 0 || window == 0 {
      return [];
    }
    var count := |samples| / window;
    result := [];
    DivMod(|samples|, window);
    for i := 0 to count
      invariant i * window <= |samples|
      invariant result + AverageBlocks(samples[i * window..], window) == AverageBlocks(samples, window)
    {
      BlockFits(i, count, window, |samples|);
      ghost var rest := samples[i * window..];
      var sum := 0.0;
      for j := 0 to window
        invariant sum + Sum(rest[j..window]) == Sum(rest[..window])
      {
        assert rest[j..window][1..] == rest[j + 1..window];
        sum := sum + samples[i * window + j];
      }
      assert rest[window..] == samples[(i + 1) * window..];
      result := result + [sum / window as real];
    }
    LastBlock(samples, count, window);
  }

  // window * mean is the sum of the samples from j * window up to (j + 1) * window.
  ghost predicate IsWindowMean(mean: real, trace: seq<real>, window: nat, j: nat) {
    && 0 <= j * window <= (j + 1) * window <= |trace|
    && window as real * mean == Sum(trace[j * window..(j + 1) * window])
  }

  lemma ProductAtLeast(k: nat, window: nat)
    requires k > 0
    ensures k * window >= window
  {
    Distribute(k, 1, window);
    assert (k - 1) * window >= 0;
  }

  lemma FirstFits(count: nat, window: nat, length: nat)
    requires count > 0 && count * window <= length
    ensures window <= length
  {
    ProductAtLeast(count, window);
  }

  lemma FirstMean(s: seq<real>, window: nat)
    requires 0 < window <= |s|
    ensures IsWindowMean(AverageBlocks(s, window)[0], s, window, 0)
  {
    MeanTimesCount(s[..window]);
    assert s[0 * window..(0 + 1) * window] == s[..window];
    hide Sum, Mean;
  }

  lemma LaterMean(mean: real, s: seq<real>, window: nat, j: nat)
    requires j > 0 && window <= |s| && IsWindowMean(mean, s[window..], window, j - 1)
    ensures IsWindowMean(mean, s, window, j)
  {
    var before, from, to := (j - 1) * window, j * window, (j + 1) * window;
    Distribute(j, 1, window);
    ProductNatural(j - 1, window);
    assert before == from - window && from == to - window && (j - 1 + 1) * window == from;
    assert s[window..][before..from] == s[from..to];
    hide Sum;
  }

  lemma {:induction false} BlockAt(s: seq<real>, window: nat, j: nat)
    requires window > 0 && j < |s| / window
    ensures j < |AverageBlocks(s, window)| && IsWindowMean(AverageBlocks(s, window)[j], s, window, j)
    decreases j
  {
    BlockCount(s, window);
    DivMod(|s|, window);
    FirstFits(|s| / window, window, |s|);
    if j == 0 {
      FirstMean(s, window);
    } else {
      NextBlock(|s|, window);
      BlockAt(s[window..], window, j - 1);
      LaterMean(AverageBlocks(s, window)[j], s, window, j);
    }
  }

  // --- conservation ---------------------------------------------------------

  // window * sum of blocks == sum of samples
  ghost predicate SameTotal(window: nat, blocks: seq<real>, samples: seq<real>) {
    window as real * Sum(blocks) == Sum(samples)
  }

  lemma SameTotalFirst(window: nat, first: seq<real>, blocks: seq<real>, samples: seq<real>)
    requires window > 0 && |first| == window && SameTotal(window, blocks, samples)
    ensures SameTotal(window, [Mean(first)] + blocks, first + samples)
  {
    var mean := Mean(first);
    MeanTimesCount(first);
    SumAppend(Itself(), first, samples);
    assert ([mean] + blocks)[1..] == blocks;
    assert Sum([mean] + blocks) == mean + Sum(blocks);
    hide SumOf, Sum, Mean;
    Spread(window as real, mean, Sum(blocks));
  }

  // The blocks, each counted window times, keep the sum of the samples they cover.
  lemma {:induction false} BlocksKeepSum(s: seq<real>, window: nat)
    requires window > 0
    ensures SameTotal(window, AverageBlocks(s, window), Used(s, window))
    decreases |s|
  {
    UsedStep(s, window);
    if |s| >= window {
      BlocksKeepSum(s[window..], window);
      SameTotalFirst(window, s[..window], AverageBlocks(s[window..], window), Used(s[window..], window));
    }
  }

  // One block: its mean, taken window times, is no further from c than its samples.
  lemma BlockContracts(block: seq<real>, c: real)
    requires block != []
    ensures |block| as real * SquaredGap(Mean(block), c) <= SumSquares(block, c)
  {
    MeanIsCentre(block, c);
    SquaresNonNegative(block, Mean(block));
    hide SquaredGap, Mean, SumOf;
  }

  // window * sum of (block - c)^2 <= sum of (sample - c)^2
  ghost predicate Contracts(window: nat, blocks: seq<real>, samples: seq<real>, c: real) {
    window as real * SumSquares(blocks, c) <= SumSquares(samples, c)
  }

  lemma SquaresAppend(a: seq<real>, b: seq<real>, c: real)
    ensures SumSquares(a + b, c) == SumSquares(a, c) + SumSquares(b, c)
  {
    SumAppend(SquaredFrom(c), a, b);
  }

  lemma HeadSquare(mean: real, blocks: seq<real>, c: real)
    ensures SumSquares([mean] + blocks, c) == SquaredGap(mean, c) + SumSquares(blocks, c)
  {
    assert ([mean] + blocks)[1..] == blocks;
  }

  lemma AddContractions(n: real, first: real, rest: real, both: real, firstSquares: real, restSquares: real)
    requires n * first <= firstSquares && n * rest <= restSquares && both == first + rest
    ensures n * both <= firstSquares + restSquares
  {
    Spread(n, first, rest);
  }

  lemma ContractsAppend(window: nat, first: seq<real>, mean: real, blocks: seq<real>, samples: seq<real>, c: real)
    requires window as real * SquaredGap(mean, c) <= SumSquares(first, c)
    requires Contracts(window, blocks, samples, c)
    ensures Contracts(window, [mean] + blocks, first + samples, c)
  {
    hide SumOf, SumSquares, SquaredGap;
    HeadSquare(mean, blocks, c);
    SquaresAppend(first, samples, c);
    AddContractions(window as real, SquaredGap(mean, c), SumSquares(blocks, c), SumSquares([mean] + blocks, c),
                    SumSquares(first, c), SumSquares(samples, c));
  }

  lemma ContractsFirst(window: nat, first: seq<real>, blocks: seq<real>, samples: seq<real>, c: real)
    requires window > 0 && |first| == window && Contracts(window, blocks, samples, c)
    ensures Contracts(window, [Mean(first)] + blocks, first + samples, c)
  {
    hide Contracts, SquaredGap, Mean;
    BlockContracts(first, c);
    ContractsAppend(window, first, Mean(first), blocks, samples, c);
  }

  // Averaging never adds noise: about any centre, the blocks' squares times the
  // window are at most the squares of the samples they cover.
  lemma {:induction false} BlocksContract(s: seq<real>, window: nat, c: real)
    requires window > 0
    ensures Contracts(window, AverageBlocks(s, window), Used(s, window), c)
    decreases |s|
  {
    UsedStep(s, window);
    if |s| >= window {
      BlocksContract(s[window..], window, c);
      ContractsFirst(window, s[..window], AverageBlocks(s[window..], window), Used(s[window..], window), c);
    }
  }

  // --- composition ----------------------------------------------------------

  lemma FirstBlock(first: seq<real>, rest: seq<real>, window: nat)
    requires 0 < window <= |first|
    ensures AverageBlocks(first + rest, window)
            == [Mean(first[..window])] + AverageBlocks(first[window..] + rest, window)
  {
    assert (first + rest)[..window] == first[..window];
    assert (first + rest)[window..] == first[window..] + rest;
  }

  // Cutting the input after k windows cuts the blocks.
  lemma {:induction false} SplitBlocks(first: seq<real>, rest: seq<real>, window: nat, k: nat)
    requires window > 0 && |first| == k * window
    ensures |AverageBlocks(first, window)| == k
    ensures AverageBlocks(first + rest, window) == AverageBlocks(first, window) + AverageBlocks(rest, window)
    decreases k
  {
    if k == 0 {
      assert first + rest == rest;
    } else {
      Distribute(k, 1, window);
      ProductAtLeast(k, window);
      SplitBlocks(first[window..], rest, window, k - 1);
      FirstBlock(first, rest, window);
    }
  }

  lemma UsesAll(s: seq<real>, window: nat, k: nat)
    requires window > 0 && |s| == k * window
    ensures Used(s, window) == s
  {
    ModUnique(|s|, window, k, 0);
  }

  lemma TooShort(length: nat, a: nat, b: nat)
    requires a > 0 && length < b * a
    ensures length / a < b
  {
    var q := length / a;
    DivMod(length, a);
    Distribute(q, b, a);
    assert q >= b ==> (q - b) * a >= 0;
  }

  lemma DivideTwice(total: real, blocks: real, a: real, b: real)
    requires a > 0.0 && b > 0.0 && a * blocks == total
    ensures b * a != 0.0 && blocks / b == total / (b * a)
  {
    var x := blocks / b;
    assert x * b == blocks;
    assert x * (b * a) == total;
  }

  lemma MeanOfMeans(first: seq<real>, blocks: seq<real>, a: nat, b: nat, ab: nat)
    requires a > 0 && b > 0 && ab == b * a && |first| == ab && |blocks| == b
    requires a as real * Sum(blocks) == Sum(first)
    ensures Mean(blocks) == Mean(first)
  {
    DivideTwice(Sum(first), Sum(blocks), a as real, b as real);
    assert ab as real == b as real * a as real;
  }

  lemma WindowMean(first: seq<real>, a: nat, b: nat)
    requires a > 0 && b > 0 && |first| == b * a && |AverageBlocks(first, a)| == b
    ensures Mean(AverageBlocks(first, a)) == Mean(first)
  {
    BlocksKeepSum(first, a);
    UsesAll(first, a, b);
    MeanOfMeans(first, AverageBlocks(first, a), a, b, b * a);
  }

  // Averaging by a and then by b is averaging by their product.
  lemma {:induction false} BlocksCompose(s: seq<real>, a: nat, b: nat, ab: nat)
    requires a > 0 && b > 0 && ab == b * a
    ensures AverageBlocks(AverageBlocks(s, a), b) == AverageBlocks(s, ab)
    decreases |s|
  {
    ProductAtLeast(b, a);
    if |s| < ab {
      BlockCount(s, a);
      TooShort(|s|, a, b);
    } else {
      var first, rest := s[..ab], s[ab..];
      assert s == first + rest;
      var blocks, others := AverageBlocks(first, a), AverageBlocks(rest, a);
      SplitBlocks(first, rest, a, b);
      WindowMean(first, a, b);
      FirstBlock(first, rest, ab);
      FirstBlock(blocks, others, b);
      BlocksCompose(rest, a, b, ab);
      assert first[ab..] + rest == rest && blocks[b..] + others == others;
      assert first[..ab] == first && blocks[..b] == blocks;
    }
  }
}
