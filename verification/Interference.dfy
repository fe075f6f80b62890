// What one process may find the other to have done between two of its own
// accesses, and what that means for the waits of wait_for_value.

module Interference {
  import opened PingPong
  import opened PingPongTheorems

  // The waits of the two programs, named by the flag they wait for.
  datatype Wait = ForReady | ForResponse | ForRequest

  function Waiter(w: Wait): Process {
    if w == ForRequest then ConsumerProcess else ProducerProcess
  }

  function FlagIn(w: Wait, m: Memory): bool {
    match w
    case ForReady => m.ready
    case ForResponse => m.response.up
    case ForRequest => m.request.up
  }

  // About to load the flag.
  predicate AtLoad(w: Wait, s: State) {
    match w
    case ForReady => s.p.pc == PAwaitReady
    case ForResponse => s.p.pc == PLoadResponse
    case ForRequest => s.c.pc == CLoadRequest
  }

  // About to load `stop`.
  predicate AtStopLoad(who: Process, s: State) {
    if who == ProducerProcess then s.p.pc == PLoadStop else s.c.pc == CHead || s.c.pc == CLoadStop
  }

  // --- interference ---------------------------------------------------------

  // What the scheduler may do while `who` is between two of its own accesses.
  predicate Foreign(who: Process, choice: Choice) {
    match choice
    case Step(other) => other != who
    case Timeout(other) => other != who
    case PinFails => who == ProducerProcess
    case ReapFails => who == ConsumerProcess
  }

  // Everything is foreign but the process's own steps, its own waits and, for the
  // consumer, its own pin, for the producer, its own reaping.
  lemma ForeignIff(who: Process, choice: Choice)
    ensures !Foreign(who, choice)
            <==> choice == Step(who) || choice == Timeout(who)
                 || choice == if who == ProducerProcess then ReapFails else PinFails
  {
  }

  function OnlyForeign(who: Process, slice: seq<Choice>): seq<Choice>
    decreases |slice|
  {
    if slice == [] then []
    else (if Foreign(who, slice[0]) then [slice[0]] else []) + OnlyForeign(who, slice[1..])
  }

  // A plan without own choices is played as it is.
  lemma {:induction false} ForeignSliceStays(who: Process, slice: seq<Choice>)
    requires forall k :: 0 <= k < |slice| ==> Foreign(who, slice[k])
    ensures OnlyForeign(who, slice) == slice
    decreases |slice|
  {
    if slice != [] {
      ForeignSliceStays(who, slice[1..]);
    }
  }

  lemma ForeignKeepsOwn(cfg: Config, s: State, who: Process, choice: Choice)
    requires Foreign(who, choice)
    ensures who == ProducerProcess ==> Exec(cfg, s, choice).p == s.p
    ensures who == ConsumerProcess ==>
              Exec(cfg, s, choice).c == s.c || Exec(cfg, s, choice).c == s.c.(pc := CKilled)
  {
  }

  lemma ForeignStep(cfg: Config, s: State, who: Process, slice: seq<Choice>)
    requires slice != []
    ensures OnlyForeign(who, slice)
            == if Foreign(who, slice[0]) then [slice[0]] + OnlyForeign(who, slice[1..])
               else OnlyForeign(who, slice[1..])
    ensures Run(cfg, s, OnlyForeign(who, slice))
            == Run(cfg, if Foreign(who, slice[0]) then Exec(cfg, s, slice[0]) else s, OnlyForeign(who, slice[1..]))
  {
    var rest := OnlyForeign(who, slice[1..]);
    assert ([slice[0]] + rest)[1..] == rest;
    assert [] + rest == rest;
    hide Exec;
  }

  lemma NothingToPlay(cfg: Config, s: State, who: Process)
    ensures OnlyForeign(who, []) == [] && Run(cfg, s, []) == s
  {
  }

  lemma {:induction false} SliceKeepsOwn(cfg: Config, s: State, who: Process, slice: seq<Choice>)
    ensures var u := Run(cfg, s, OnlyForeign(who, slice));
            && (who == ProducerProcess ==> u.p == s.p)
            && (who == ConsumerProcess ==> u.c == s.c || u.c == s.c.(pc := CKilled))
    decreases |slice|
  {
    if slice != [] {
      ForeignStep(cfg, s, who, slice);
      hide Exec, Run, OnlyForeign;
      if Foreign(who, slice[0]) {
        ForeignKeepsOwn(cfg, s, who, slice[0]);
        SliceKeepsOwn(cfg, Exec(cfg, s, slice[0]), who, slice[1..]);
      } else {
        SliceKeepsOwn(cfg, s, who, slice[1..]);
      }
    }
  }

  // --- why a wait fails -----------------------------------------------------

  ghost predicate DownAt(cfg: Config, w: Wait, posted: nat, history: seq<Choice>, at: nat)
    requires at < |history|
  {
    var s := Run(cfg, INITIAL, history[..at]);
    && history[at] == Step(Waiter(w))
    && AtLoad(w, s) && !FlagIn(w, s.mem)
    && (w == ForRequest || s.p.posted == posted)
  }

  // Where in the history, from position `from` on, the waiter loaded the flag
  // and found it down; `posted` is the request the producer waits for.
  ghost predicate FoundDown(cfg: Config, w: Wait, posted: nat, history: seq<Choice>, from: nat, loads: seq<nat>) {
    && (forall k :: 0 <= k < |loads| ==> from <= loads[k] < |history| && DownAt(cfg, w, posted, history, loads[k]))
    && (forall j, k :: 0 <= j < k < |loads| ==> loads[j] < loads[k])
  }

  // Where in the history the process loaded `stop` and found it up.
  ghost predicate FoundStop(cfg: Config, who: Process, history: seq<Choice>, at: nat) {
    && at < |history| && history[at] == Step(who)
    && var s := Run(cfg, INITIAL, history[..at]);
       AtStopLoad(who, s) && s.mem.stop
  }

  ghost predicate RunningAt(cfg: Config, history: seq<Choice>, at: nat)
    requires at < |history|
  {
    var s := Run(cfg, INITIAL, history[..at]);
    history[at] == Step(ProducerProcess) && s.p.pc == PReap && !Dead(s.c)
  }

  // Where the producer looked for the child's exit and found it running.
  ghost predicate FoundRunning(cfg: Config, history: seq<Choice>, looks: seq<nat>) {
    && (forall k :: 0 <= k < |looks| ==> looks[k] < |history| && RunningAt(cfg, history, looks[k]))
    && (forall j, k :: 0 <= j < k < |looks| ==> looks[j] < looks[k])
  }

  lemma NothingFound(cfg: Config, w: Wait, posted: nat, history: seq<Choice>)
    ensures FoundDown(cfg, w, posted, history, |history|, [])
  {
  }

  lemma FoundDownStays(cfg: Config, w: Wait, posted: nat, history: seq<Choice>, more: seq<Choice>, from: nat,
                       loads: seq<nat>)
    requires FoundDown(cfg, w, posted, history, from, loads)
    ensures FoundDown(cfg, w, posted, history + more, from, loads)
  {
    forall k | 0 <= k < |loads| ensures DownAt(cfg, w, posted, history + more, loads[k]) {
      assert (history + more)[..loads[k]] == history[..loads[k]];
      assert DownAt(cfg, w, posted, history, loads[k]);
    }
  }

  lemma FoundDownAgain(cfg: Config, w: Wait, posted: nat, history: seq<Choice>, from: nat, loads: seq<nat>)
    requires FoundDown(cfg, w, posted, history, from, loads) && from <= |history|
    requires var s := Run(cfg, INITIAL, history);
             AtLoad(w, s) && !FlagIn(w, s.mem) && (w == ForRequest || s.p.posted == posted)
    ensures FoundDown(cfg, w, posted, history + [Step(Waiter(w))], from, loads + [|history|])
  {
    var longer := history + [Step(Waiter(w))];
    FoundDownStays(cfg, w, posted, history, [Step(Waiter(w))], from, loads);
    assert longer[..|history|] == history;
    assert DownAt(cfg, w, posted, longer, |history|);
    hide DownAt, Run;
  }

  lemma FoundStopNow(cfg: Config, who: Process, history: seq<Choice>)
    requires var s := Run(cfg, INITIAL, history); AtStopLoad(who, s) && s.mem.stop
    ensures FoundStop(cfg, who, history + [Step(who)], |history|)
  {
    assert (history + [Step(who)])[..|history|] == history;
  }

  lemma NothingLooked(cfg: Config, history: seq<Choice>)
    ensures FoundRunning(cfg, history, [])
  {
  }

  lemma FoundRunningStays(cfg: Config, history: seq<Choice>, more: seq<Choice>, looks: seq<nat>)
    requires FoundRunning(cfg, history, looks)
    ensures FoundRunning(cfg, history + more, looks)
  {
    forall k | 0 <= k < |looks| ensures RunningAt(cfg, history + more, looks[k]) {
      assert (history + more)[..looks[k]] == history[..looks[k]];
      assert RunningAt(cfg, history, looks[k]);
    }
  }

  lemma FoundRunningAgain(cfg: Config, history: seq<Choice>, looks: seq<nat>)
    requires FoundRunning(cfg, history, looks)
    requires var s := Run(cfg, INITIAL, history); s.p.pc == PReap && !Dead(s.c)
    ensures FoundRunning(cfg, history + [Step(ProducerProcess)], looks + [|history|])
  {
    var longer := history + [Step(ProducerProcess)];
    FoundRunningStays(cfg, history, [Step(ProducerProcess)], looks);
    assert longer[..|history|] == history;
    assert RunningAt(cfg, longer, |history|);
    hide RunningAt, Run;
  }

  // --- when the producer's waits succeed ------------------------------------

  // The consumer acts, and neither its waits nor its pin fail.
  predicate FairSlice(slice: seq<Choice>) {
    Step(ConsumerProcess) in slice && Timeout(ConsumerProcess) !in slice && PinFails !in slice
  }

  ghost predicate FairPlan(plan: seq<seq<Choice>>) {
    forall k :: 0 <= k < |plan| ==> FairSlice(plan[k])
  }

  // The consumer's steps until the flag the producer waits for is up.
  function StepsAway(w: Wait, s: State): nat {
    match w
    case ForReady => if s.mem.ready then 0 else if s.c.pc == CPin then 2 else 1
    case ForResponse =>
      if s.mem.response.up then 0
      else (match s.c.pc
            case CRespond => 1
            case CClear => 2
            case CLoadRequest => 3
            case _ => 4)
    case ForRequest => 0
  }

  ghost predicate ProducerWaits(w: Wait, s: State) {
    match w
    case ForReady => s.p.pc == PAwaitReady
    case ForResponse => s.p.pc == PLoadResponse || s.p.pc == PLoadStop
    case ForRequest => false
  }

  lemma ConsumerStepHelps(cfg: Config, w: Wait, s: State)
    requires Smooth(cfg, s) && ProducerWaits(w, s)
    ensures var u := Exec(cfg, s, Step(ConsumerProcess));
            && Smooth(cfg, u) && u.p == s.p
            && StepsAway(w, u) <= StepsAway(w, s)
            && (StepsAway(w, s) > 0 ==> StepsAway(w, u) < StepsAway(w, s))
  {
    StepKeepsSmooth(cfg, s, ConsumerProcess);
    StoresAreShort(cfg, s);
  }

  lemma StillWaits(w: Wait, s: State, t: State)
    requires ProducerWaits(w, s) && t.p == s.p
    ensures ProducerWaits(w, t)
  {
  }

  // While the producer waits, every slice in which the consumer acts brings the
  // flag nearer.
  lemma {:induction false} SliceHelps(cfg: Config, w: Wait, s: State, slice: seq<Choice>)
    requires Smooth(cfg, s) && ProducerWaits(w, s)
    requires Timeout(ConsumerProcess) !in slice && PinFails !in slice
    ensures var u := Run(cfg, s, OnlyForeign(ProducerProcess, slice));
            && Smooth(cfg, u) && u.p == s.p
            && StepsAway(w, u) <= StepsAway(w, s)
            && (Step(ConsumerProcess) in slice && StepsAway(w, s) > 0 ==> StepsAway(w, u) < StepsAway(w, s))
    decreases |slice|
  {
    hide Exec, Smooth, StepsAway, ProducerWaits;
    if slice != [] {
      ForeignStep(cfg, s, ProducerProcess, slice);
      if Foreign(ProducerProcess, slice[0]) {
        assert slice[0] == Step(ConsumerProcess);
        ConsumerStepHelps(cfg, w, s);
        var t := Exec(cfg, s, slice[0]);
        StillWaits(w, s, t);
        SliceHelps(cfg, w, t, slice[1..]);
      } else {
        SliceHelps(cfg, w, s, slice[1..]);
      }
    }
  }

  lemma {:induction false} SliceKeepsSmooth(cfg: Config, s: State, slice: seq<Choice>)
    requires Smooth(cfg, s) && Timeout(ConsumerProcess) !in slice && PinFails !in slice
    ensures Smooth(cfg, Run(cfg, s, OnlyForeign(ProducerProcess, slice)))
    decreases |slice|
  {
    hide Exec, Smooth;
    if slice != [] {
      ForeignStep(cfg, s, ProducerProcess, slice);
      if Foreign(ProducerProcess, slice[0]) {
        StepKeepsSmooth(cfg, s, ConsumerProcess);
        SliceKeepsSmooth(cfg, Exec(cfg, s, slice[0]), slice[1..]);
      } else {
        SliceKeepsSmooth(cfg, s, slice[1..]);
      }
    }
  }

  // The producer's own loads leave the flag where it is.
  lemma LoadKeepsDistance(cfg: Config, w: Wait, s: State)
    requires Smooth(cfg, s) && ProducerWaits(w, s)
    ensures var u := Exec(cfg, s, Step(ProducerProcess));
            Smooth(cfg, u) && StepsAway(w, u) == StepsAway(w, s)
    ensures StepsAway(w, s) == 0 ==> FlagIn(w, s.mem)
    ensures StepsAway(w, s) <= 4
  {
    StepKeepsSmooth(cfg, s, ProducerProcess);
    StoresAreShort(cfg, s);
  }

  lemma StartsSmooth(cfg: Config)
    ensures Smooth(cfg, INITIAL)
  {
  }
}
