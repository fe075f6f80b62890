// The candidate scores of spectre_v1.cpp as arithmetic: counting timed reloads
// into 256 slots, and the scan for the two best slots.

module Scores {
  import opened Modular

  const PROBE_VALUES := 256

  // The slot visited at step i, and the step that visits slot k: multiplying by
  // 167 is undone by multiplying by 23.
  function Mixed(i: nat): (k: nat)
    ensures k < PROBE_VALUES
  {
    (i * 167 + 13) % 256
  }

  function StepOf(k: nat): (i: nat)
    ensures i < PROBE_VALUES
  {
    ((k + 243) * 23) % 256
  }

  // The mixing visits every slot exactly once.
  lemma MixingIsBijective(i: nat, k: nat)
    requires i < PROBE_VALUES && k < PROBE_VALUES
    ensures Mixed(i) == k <==> StepOf(k) == i
  {
    var x, y := i * 167 + 13, (k + 243) * 23;
    DivMod(x, 256);
    DivMod(y, 256);
    if x % 256 == k {
      // y = 23 * (x - 256q + 243) = 3841 * i + 5888 - 256 * 23q, and 3841 = 15 * 256 + 1
      ModUnique(y, 256, 15 * i + 23 - 23 * (x / 256), i);
    }
    if y % 256 == i {
      // x = 167 * (y - 256q) + 13 = 3841 * k + 933376 - 256 * 167q
      ModUnique(x, 256, 15 * k + 3646 - 167 * (y / 256), k);
    }
  }

  // How many attempts found the slot's line cached; fast[a][i] is the outcome of
  // step i of attempt a.
  function Tally(fast: seq<seq<bool>>, k: nat): (t: nat)
    requires k < PROBE_VALUES && forall a :: 0 <= a < |fast| ==> |fast[a]| == PROBE_VALUES
    ensures t <= |fast|
    decreases |fast|
  {
    if fast == [] then 0
    else Tally(fast[..|fast| - 1], k) + (if fast[|fast| - 1][StepOf(k)] then 1 else 0)
  }

  // --- the scan ---------------------------------------------------------------

  ghost predicate IsFirstMaximum(s: seq<int>, best: nat) {
    && best < |s|
    && (forall j :: 0 <= j < |s| ==> s[j] <= s[best])
    && (forall j :: 0 <= j < best ==> s[j] < s[best])
  }

  ghost predicate IsRunnerUp(s: seq<int>, best: nat, second: nat) {
    && second < |s| && second != best && best < |s|
    && forall j :: 0 <= j < |s| && j != best ==> s[j] <= s[second]
  }

  // The scan starts with both candidates at slot 0, so a maximum that stays
  // there is its own runner-up.
  ghost predicate ScanResult(s: seq<int>, best: nat, second: nat) {
    && IsFirstMaximum(s, best)
    && if best == 0 then second == 0 else IsRunnerUp(s, best, second)
  }

  datatype SpectreResult = SpectreResult(
    guessedValue: nat, score: int, secondScore: int, confidence: real, attempts: int, success: bool)

  predicate Separated(best: int, second: int) { best >= 2 * second + 5 }

  predicate Enough(best: int, attempts: int) {
    best >= 5 && best >= attempts / 40
  }

  function Confidence(gap: int, attempts: int): real {
    if attempts > 0 && gap > 0 then gap as real / attempts as real else 0.0
  }

  // What the analysis reports of the scores s.
  ghost predicate Analyzed(s: seq<int>, attempts: int, r: SpectreResult) {
    && r.guessedValue < |s| && IsFirstMaximum(s, r.guessedValue)
    && r.score == s[r.guessedValue] && r.attempts == attempts
    && (exists second: nat :: second < |s| && ScanResult(s, r.guessedValue, second) && r.secondScore == s[second])
    && r.confidence == Confidence(r.score - r.secondScore, attempts)
    && (r.success <==> Separated(r.score, r.secondScore) && Enough(r.score, attempts))
  }

  lemma RatioSign(gap: int, attempts: int)
    requires attempts > 0
    ensures gap as real / attempts as real > 0.0 <==> gap > 0
  {
    var q := gap as real / attempts as real;
    assert q * attempts as real == gap as real;
  }

  method AnalyzeScores(score: array<int>, attempts: int) returns (r: SpectreResult)
    requires score.Length == PROBE_VALUES
    ensures Analyzed(score[..], attempts, r)
  {
    var best, second := 0, 0;
    for i := 1 to PROBE_VALUES
      invariant ScanResult(score[..i], best, second)
    {
      var value := score[i];
      if value > score[best] {
        second := best;
        best := i;
      } else if i != best && value > score[second] {
        second := i;
      }
    }
    assert score[..PROBE_VALUES] == score[..];
    var bestScore, secondScore := score[best], score[second];
    var gap := bestScore - secondScore;
    var confidence := 0.0;
    if attempts > 0 {
      var ratio := gap as real / attempts as real;
      confidence := if ratio > 0.0 then ratio else 0.0;
      RatioSign(gap, attempts);
    }
    var enough := bestScore >= (if attempts / 40 > 5 then attempts / 40 else 5);
    r := SpectreResult(best, bestScore, secondScore, confidence, attempts,
                       bestScore >= 2 * secondScore + 5 && enough);
    assert secondScore == score[..][second];
  }

  // The reported numbers and the verdict, in the scores' own terms.
  lemma AnalysisIs(s: seq<int>, attempts: int, r: SpectreResult)
    requires Analyzed(s, attempts, r)
    ensures r.score >= r.secondScore && (attempts <= 0 ==> r.confidence == 0.0)
    ensures attempts > 0 ==> r.confidence * attempts as real == (r.score - r.secondScore) as real
    ensures r.success <==> r.score >= 2 * r.secondScore + 5 && r.score >= 5 && attempts < 40 * (r.score + 1)
  {
    if attempts > 0 {
      var gap := r.score - r.secondScore;
      var q := gap as real / attempts as real;
      assert q * attempts as real == gap as real;
    }
  }

  // Slot k has enough evidence and stands out from every other slot.
  ghost predicate ClearWinner(s: seq<int>, k: nat, attempts: int) {
    k < |s| && Enough(s[k], attempts) && forall j :: 0 <= j < |s| && j != k ==> Separated(s[k], s[j])
  }

  // The reported second score is the best of the other slots exactly when some
  // other slot scores at least as much as slot 0.
  lemma RunnerUpIsExact(s: seq<int>, attempts: int, r: SpectreResult)
    requires |s| >= 2 && Analyzed(s, attempts, r)
    ensures (exists other: nat :: IsRunnerUp(s, r.guessedValue, other) && r.secondScore == s[other])
            <==> (exists j :: 0 < j < |s| && s[j] >= s[0])
  {
    var best := r.guessedValue;
    var second: nat :| second < |s| && ScanResult(s, best, second) && r.secondScore == s[second];
    if best != 0 {
      assert IsRunnerUp(s, best, second) && s[best] >= s[0];
    } else if j :| 0 < j < |s| && s[j] >= s[0] {
      assert IsRunnerUp(s, 0, j) && s[j] == s[0];
    }
  }

  // On counts of reloads, success means a clear winner other than slot 0.  So it
  // is what the guess deserves exactly when slot 0 is no clear winner: that slot
  // is compared with itself and never succeeds.
  lemma SuccessIff(s: seq<int>, attempts: int, r: SpectreResult)
    requires Analyzed(s, attempts, r) && forall j :: 0 <= j < |s| ==> s[j] >= 0
    ensures r.success <==> r.guessedValue != 0 && ClearWinner(s, r.guessedValue, attempts)
    ensures r.success <==> exists k: nat :: 0 < k && ClearWinner(s, k, attempts)
    ensures (r.success <==> ClearWinner(s, r.guessedValue, attempts)) <==> !ClearWinner(s, 0, attempts)
  {
    var best := r.guessedValue;
    assert best != 0 && r.success ==> ClearWinner(s, best, attempts);
    forall k: nat | ClearWinner(s, k, attempts) ensures best == k {
      assert best != k ==> Separated(s[k], s[best]);
    }
  }

  class CandidateScores {
    const score: array<int>

    constructor ()
      ensures fresh(score) && score.Length == PROBE_VALUES
      ensures forall k :: 0 <= k < PROBE_VALUES ==> score[k] == 0
    {
      score := new int[PROBE_VALUES](_ => 0);
    }

    // One pass over the probe slots in mixed order.
    method ScoreReload(fast: seq<bool>)
      requires score.Length == PROBE_VALUES == |fast|
      modifies score
      ensures forall k :: 0 <= k < PROBE_VALUES ==>
                score[k] == old(score[k]) + if fast[StepOf(k)] then 1 else 0
    {
      for i := 0 to PROBE_VALUES
        invariant forall k :: 0 <= k < PROBE_VALUES ==>
                    score[k] == old(score[k]) + if StepOf(k) < i && fast[StepOf(k)] then 1 else 0
      {
        var mixed := (i * 167 + 13) % 256;
        assert mixed == Mixed(i);
        forall k | 0 <= k < PROBE_VALUES ensures StepOf(k) == i <==> k == mixed {
          MixingIsBijective(i, k);
        }
        if fast[i] {
          score[mixed] := score[mixed] + 1;
        }
      }
    }
  }

  ghost predicate WholePasses(fast: seq<seq<bool>>) {
    forall a :: 0 <= a < |fast| ==> |fast[a]| == PROBE_VALUES
  }

  // The scores after all attempts.
  function Tallies(fast: seq<seq<bool>>): (s: seq<int>)
    requires WholePasses(fast)
    ensures |s| == PROBE_VALUES && forall k :: 0 <= k < PROBE_VALUES ==> s[k] == Tally(fast, k)
  {
    seq(PROBE_VALUES, k requires 0 <= k < PROBE_VALUES => Tally(fast, k))
  }

  lemma ConfidenceInRange(gap: int, attempts: int)
    requires gap <= attempts
    ensures 0.0 <= Confidence(gap, attempts) <= 1.0
  {
    if attempts > 0 && gap > 0 {
      var q := gap as real / attempts as real;
      assert q * attempts as real == gap as real;
    }
  }

  // The attempt loop: the scores count, slot by slot, the attempts that found it
  // cached, and the result is read off those counts.
  method ReadByteWithThreshold(tries: int, fast: seq<seq<bool>>) returns (r: SpectreResult)
    requires WholePasses(fast) && |fast| == if tries > 0 then tries else 0
    ensures Analyzed(Tallies(fast), tries, r)
    ensures r.guessedValue < PROBE_VALUES && r.score == Tally(fast, r.guessedValue)
    ensures forall j: nat :: j < PROBE_VALUES ==> Tally(fast, j) <= r.score
    ensures 0 <= r.secondScore <= r.score <= |fast| && 0.0 <= r.confidence <= 1.0
    ensures (exists other: nat ::
               IsRunnerUp(Tallies(fast), r.guessedValue, other) && r.secondScore == Tallies(fast)[other])
            <==> (exists j :: 0 < j < PROBE_VALUES && Tallies(fast)[j] >= Tallies(fast)[0])
    ensures r.success <==> r.guessedValue != 0 && ClearWinner(Tallies(fast), r.guessedValue, tries)
    ensures r.success <==> exists k: nat :: 0 < k && ClearWinner(Tallies(fast), k, tries)
    ensures (r.success <==> ClearWinner(Tallies(fast), r.guessedValue, tries))
            <==> !ClearWinner(Tallies(fast), 0, tries)
  {
    var scores := new CandidateScores();
    for attempt := 0 to |fast|
      invariant forall k :: 0 <= k < PROBE_VALUES ==> scores.score[k] == Tally(fast[..attempt], k)
    {
      scores.ScoreReload(fast[attempt]);
      assert fast[..attempt + 1][..attempt] == fast[..attempt];
    }
    assert fast[..|fast|] == fast;
    r := AnalyzeScores(scores.score, tries);
    ghost var s := Tallies(fast);
    assert scores.score[..] == s;
    RunnerUpIsExact(s, tries, r);
    SuccessIff(s, tries, r);
    if tries > 0 {
      ConfidenceInRange(r.score - r.secondScore, tries);
    }
  }

  lemma {:induction false} TallyIsCount(fast: seq<seq<bool>>, k: nat)
    requires WholePasses(fast) && k < PROBE_VALUES
    ensures Tally(fast, k) == |set a | 0 <= a < |fast| && fast[a][StepOf(k)]|
    decreases |fast|
  {
    var here := set a | 0 <= a < |fast| && fast[a][StepOf(k)];
    if fast == [] {
      assert here == {};
    } else {
      var last := |fast| - 1;
      var before := fast[..last];
      TallyIsCount(before, k);
      var there := set a | 0 <= a < |before| && before[a][StepOf(k)];
      assert here == if fast[last][StepOf(k)] then there + {last} else there;
    }
  }

  // The slot that step i of every pass reloads counts the passes in which that
  // step was fast.
  lemma TallyCountsSteps(fast: seq<seq<bool>>, i: nat)
    requires WholePasses(fast) && i < 256
    ensures Tally(fast, (i * 167 + 13) % 256) == |set a | 0 <= a < |fast| && fast[a][i]|
  {
    var k := Mixed(i);
    MixingIsBijective(i, k);
    TallyIsCount(fast, k);
    assert (set a | 0 <= a < |fast| && fast[a][StepOf(k)]) == set a | 0 <= a < |fast| && fast[a][i];
  }

  // Five attempts that find slot 0 cached and nothing else.
  function OnlySlotZero(): (fast: seq<seq<bool>>)
    ensures |fast| == 5 && WholePasses(fast)
  {
    seq(5, _ => seq(PROBE_VALUES, i => i == StepOf(0)))
  }

  lemma {:induction false} SameRows(fast: seq<seq<bool>>, row: seq<bool>, k: nat)
    requires k < PROBE_VALUES == |row| && forall a :: 0 <= a < |fast| ==> fast[a] == row
    ensures Tally(fast, k) == if row[StepOf(k)] then |fast| else 0
    decreases |fast|
  {
    if fast != [] {
      SameRows(fast[..|fast| - 1], row, k);
    }
  }

  // They leave slot 0 a clear winner, yet the analysis reports no success.
  lemma SlotZeroIsNeverRead(r: SpectreResult)
    requires Analyzed(Tallies(OnlySlotZero()), 5, r)
    ensures ClearWinner(Tallies(OnlySlotZero()), 0, 5)
    ensures r.guessedValue == 0 && r.score == r.secondScore == 5 && !r.success
  {
    var fast := OnlySlotZero();
    var s := Tallies(fast);
    forall k: nat | k < PROBE_VALUES ensures s[k] == if k == 0 then 5 else 0 {
      MixingIsBijective(StepOf(0), k);
      MixingIsBijective(StepOf(0), 0);
      SameRows(fast, fast[0], k);
    }
  }
}
