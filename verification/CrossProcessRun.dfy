// measure_cross_process and consumer_loop as the programs they are.  Before each
// of its accesses to the shared block the other process, the timeouts included,
// may take any steps; every execution is a run of the state machine.

module CrossProcessRun {
  import opened PingPong
  import opened PingPongTheorems
  import opened Interference

  // Why measure_cross_process returns before the consumer exists.
  datatype Rejection =
    | InvalidIterations | InvalidAffinity | ShmOpenFailed | FtruncateFailed | MmapFailed | ForkFailed

  // How the system calls that create the shared block and the child turn out.
  datatype Setup = SetupOk | SetupFails(reason: Rejection)

  datatype ErrorMessage = Refused(reason: Rejection) | Protocol(message: Message)

  // The samples are the tickets of the requests they time.
  datatype SharedMemoryResult = SharedMemoryResult(
    success: bool, iterations: int, producerCpu: int, consumerCpu: int, samples: seq<nat>, error: ErrorMessage)

  lemma Extend(cfg: Config, history: seq<Choice>, choice: Choice)
    ensures Run(cfg, INITIAL, history + [choice]) == Exec(cfg, Run(cfg, INITIAL, history), choice)
  {
    RunAppend(cfg, INITIAL, history, [choice]);
    assert [choice][1..] == [];
  }

  // Every wait polls often enough for a consumer that acts in between.
  ghost predicate Generous(patience: nat -> nat) {
    forall k: nat :: patience(k) >= 5
  }

  class SharedControl {
    const cfg: Config
    var request: Flag
    var response: Flag
    var consumerReady: bool
    var stop: bool
    var p: Producer               // how far each process is
    var c: Consumer
    var plan: seq<seq<Choice>>    // what the other process does between two accesses
    ghost var history: seq<Choice>

    function View(): State
      reads this
    {
      State(Memory(request, response, consumerReady, stop), p, c)
    }

    // Everything done so far is a run of the state machine.
    ghost predicate Reached()
      reads this
    {
      View() == Run(cfg, INITIAL, history)
    }

    constructor (cfg: Config, plan: seq<seq<Choice>>)
      ensures this.cfg == cfg && this.plan == plan && View() == INITIAL && Reached() && history == []
    {
      this.cfg := cfg;
      request, response, consumerReady, stop := Flag(false, 0), Flag(false, 0), false, false;
      p, c := INITIAL.p, INITIAL.c;
      this.plan := plan;
      history := [];
    }

    ghost method Record(before: State, choice: Choice)
      requires before == Run(cfg, INITIAL, history) && View() == Exec(cfg, before, choice)
      modifies this`history
      ensures Reached() && history == old(history) + [choice]
    {
      Extend(cfg, history, choice);
      history := history + [choice];
    }

    method Perform(choice: Choice)
      requires Reached()
      modifies this
      ensures Reached() && View() == Exec(cfg, old(View()), choice)
      ensures plan == old(plan) && history == old(history) + [choice]
    {
      ghost var before := View();
      var s := Exec(cfg, View(), choice);
      request, response, consumerReady, stop := s.mem.request, s.mem.response, s.mem.ready, s.mem.stop;
      p, c := s.p, s.c;
      Record(before, choice);
    }

    // What comes between two accesses of `who`.
    ghost function Next(who: Process): seq<Choice>
      reads this
    {
      if plan == [] then [] else OnlyForeign(who, plan[0])
    }

    // No wait has expired, nothing has failed, and the plan holds nothing of the kind.
    ghost predicate Undisturbed()
      reads this
    {
      FairPlan(plan) && Smooth(cfg, View())
    }

    method PlayNext(who: Process)
      requires Reached()
      modifies this
      ensures Reached()
      ensures View() == Run(cfg, old(View()), old(Next(who))) && history == old(history) + old(Next(who))
      ensures plan == if old(plan) == [] then [] else old(plan)[1..]
    {
      hide Exec, Run, OnlyForeign, Foreign;
      NothingToPlay(cfg, View(), who);
      if plan == [] {
        assert history + [] == history;
        return;
      }
      var slice := plan[0];
      plan := plan[1..];
      assert slice[0..] == slice;
      for k := 0 to |slice|
        invariant Reached() && plan == old(plan)[1..]
        invariant Run(cfg, View(), OnlyForeign(who, slice[k..])) == Run(cfg, old(View()), OnlyForeign(who, slice))
        invariant history + OnlyForeign(who, slice[k..]) == old(history) + OnlyForeign(who, slice)
      {
        ghost var rest := slice[k..];
        assert rest[0] == slice[k] && rest[1..] == slice[k + 1..];
        ForeignStep(cfg, View(), who, rest);
        if Foreign(who, slice[k]) {
          ghost var later := OnlyForeign(who, rest[1..]);
          assert history + ([slice[k]] + later) == (history + [slice[k]]) + later;
          Perform(slice[k]);
        }
      }
      assert slice[|slice|..] == [];
      NothingToPlay(cfg, View(), who);
      assert history + [] == history;
    }

    lemma PlayedNext(who: Process)
      ensures var u := Run(cfg, View(), Next(who));
              && (plan == [] ==> u == View())
              && (who == ProducerProcess ==> u.p == p)
              && (who == ConsumerProcess ==> u.c == c || u.c == c.(pc := CKilled))
    {
      if plan != [] {
        SliceKeepsOwn(cfg, View(), who, plan[0]);
      }
    }

    lemma PromisingNext()
      requires Undisturbed()
      ensures var u := Run(cfg, View(), Next(ProducerProcess));
              && Smooth(cfg, u)
              && (plan != [] ==> FairPlan(plan[1..]))
              && forall w: Wait :: ProducerWaits(w, View()) ==>
                   && StepsAway(w, u) <= StepsAway(w, View())
                   && (plan != [] && StepsAway(w, View()) > 0 ==> StepsAway(w, u) < StepsAway(w, View()))
    {
      hide Smooth, StepsAway, ProducerWaits;
      if plan != [] {
        assert FairSlice(plan[0]);
        SliceKeepsSmooth(cfg, View(), plan[0]);
        forall w: Wait | ProducerWaits(w, View())
          ensures var u := Run(cfg, View(), Next(ProducerProcess));
                  && StepsAway(w, u) <= StepsAway(w, View())
                  && (StepsAway(w, View()) > 0 ==> StepsAway(w, u) < StepsAway(w, View()))
        {
          SliceHelps(cfg, w, View(), plan[0]);
        }
      }
    }

    // The other process acts as planned.
    method Others(who: Process)
      requires Reached()
      modifies this
      ensures Reached()
      ensures View() == Run(cfg, old(View()), old(Next(who))) && history == old(history) + old(Next(who))
      ensures plan == if old(plan) == [] then [] else old(plan)[1..]
      ensures old(plan) == [] ==> View() == old(View())
      ensures who == ProducerProcess ==> p == old(p)
      ensures who == ConsumerProcess ==> c == old(c) || c == old(c).(pc := CKilled)
      ensures who == ProducerProcess && old(Undisturbed()) ==> Undisturbed()
      ensures who == ProducerProcess && old(Undisturbed()) ==>
                forall w: Wait :: ProducerWaits(w, old(View())) ==>
                  && StepsAway(w, View()) <= StepsAway(w, old(View()))
                  && (old(plan) != [] && StepsAway(w, old(View())) > 0 ==>
                        StepsAway(w, View()) < StepsAway(w, old(View())))
    {
      ghost var s, promising := View(), who == ProducerProcess && Undisturbed();
      PlayedNext(who);
      if promising {
        PromisingNext();
      }
      hide *;
      PlayNext(who);
    }

    predicate FlagUp(w: Wait)
      reads this
    {
      FlagIn(w, View().mem)
    }

    predicate Waiting(w: Wait)
      reads this
    {
      AtLoad(w, View())
    }

    ghost predicate Killed(w: Wait)
      reads this
    {
      w == ForRequest && c.pc == CKilled
    }

    // The producer's wait will succeed within 4 - k more polls and the slices there are.
    ghost predicate Promising(w: Wait, k: nat, slices: nat)
      reads this
    {
      && w != ForRequest && Undisturbed()
      && StepsAway(w, View()) + k <= 4 && |plan| >= slices + StepsAway(w, View())
    }

    // What the producer's own load does to a promising wait.
    lemma LoadLeavesDistance(w: Wait)
      requires Smooth(cfg, View()) && ProducerWaits(w, View())
      ensures var u := Exec(cfg, View(), Step(ProducerProcess));
              && Smooth(cfg, u) && StepsAway(w, u) == StepsAway(w, View())
              && (StepsAway(w, View()) == 0 ==> FlagUp(w)) && StepsAway(w, View()) <= 4
    {
      LoadKeepsDistance(cfg, w, View());
    }

    lemma LoadingIsWaiting(w: Wait)
      requires Waiting(w) && w != ForRequest
      ensures ProducerWaits(w, View())
    {
    }

    // One load of the flag.
    method LoadFlag(w: Wait, ghost posted: nat, ghost from: nat, ghost loads: seq<nat>, ghost k: nat, ghost slices: nat)
        returns (seen: bool, ghost more: seq<nat>)
      requires Reached() && Waiting(w) && (w != ForRequest ==> p.posted == posted)
      requires from <= |history| && FoundDown(cfg, w, posted, history, from, loads)
      modifies this
      ensures Reached() && old(history) <= history
      ensures w == ForReady ==> p == if seen then old(p).(pc := PHead) else old(p)
      ensures w == ForResponse ==>
                p == if seen then old(p).(pc := PClear, heard := p.heard) else old(p).(pc := PLoadStop)
      ensures Killed(w) ==> !seen && c == old(c).(pc := CKilled)
      ensures w == ForRequest && !Killed(w) ==>
                c == if seen then old(c).(pc := CClear, taken := c.taken) else old(c).(pc := CLoadStop)
      ensures !Killed(w) && !seen ==>
                |more| == |loads| + 1 && FoundDown(cfg, w, posted, history, from, more)
      ensures old(plan) == [] && old(FlagUp(w)) && old(c).pc != CKilled ==> seen
      ensures slices > 0 && old(Promising(w, k, slices)) ==>
                && Undisturbed() && |plan| >= slices - 1
                && (!seen ==> Promising(w, k + 1, slices) && StepsAway(w, View()) > 0)
    {
      hide Smooth, FoundDown, StepsAway, FairPlan, Run, ProducerWaits;
      more := loads;
      ghost var promising := slices > 0 && Promising(w, k, slices);
      ghost var before := history;
      if promising {
        LoadingIsWaiting(w);
      }
      Others(Waiter(w));
      FoundDownStays(cfg, w, posted, before, history[|before|..], from, loads);
      if w == ForRequest && c.pc == CKilled {
        return false, loads;
      }
      if promising {
        StillWaits(w, old(View()), View());
        LoadLeavesDistance(w);
      }
      seen := FlagUp(w);
      if !seen {
        FoundDownAgain(cfg, w, posted, history, from, loads);
        more := loads + [|history|];
      }
      Perform(Step(Waiter(w)));
    }

    lemma LoadingStopIsWaiting(w: Wait)
      requires AtStopLoad(ProducerProcess, View()) && w == ForResponse
      ensures ProducerWaits(w, View())
    {
    }

    // One load of `stop`.
    method LoadStop(w: Wait, ghost posted: nat, ghost from: nat, ghost loads: seq<nat>, ghost k: nat, ghost slices: nat)
        returns (stopped: bool, ghost stopAt: nat)
      requires Reached() && (w == ForResponse || w == ForRequest) && AtStopLoad(Waiter(w), View())
      requires w == ForRequest ==> c.pc == CLoadStop
      requires from <= |history| && FoundDown(cfg, w, posted, history, from, loads)
      modifies this
      ensures Reached() && old(history) <= history
      ensures w == ForResponse ==> !stopped && p == old(p).(pc := PLoadResponse)
      ensures Killed(w) ==> c == old(c).(pc := CKilled)
      ensures w == ForRequest && !Killed(w) ==>
                c == if stopped then old(c).(pc := CExited) else old(c).(pc := CLoadRequest)
      ensures stopped && !Killed(w) ==> FoundStop(cfg, ConsumerProcess, history, stopAt)
      ensures FoundDown(cfg, w, posted, history, from, loads)
      ensures old(Promising(w, k, slices)) && StepsAway(w, old(View())) > 0 ==> Promising(w, k, slices)
    {
      hide Smooth, FoundDown, StepsAway, FairPlan, Run, ProducerWaits;
      ghost var promising := Promising(w, k, slices) && StepsAway(w, View()) > 0;
      ghost var before := history;
      stopped, stopAt := false, 0;
      if promising {
        LoadingStopIsWaiting(w);
      }
      Others(Waiter(w));
      FoundDownStays(cfg, w, posted, before, history[|before|..], from, loads);
      if w == ForRequest && c.pc == CKilled {
        return;
      }
      if promising {
        StillWaits(w, old(View()), View());
        LoadLeavesDistance(w);
      }
      stopped := stop;
      HandshakeSafety(cfg, history);
      if stopped {
        FoundStopNow(cfg, ConsumerProcess, history);
        stopAt := |history|;
      }
      FoundDownStays(cfg, w, posted, history, [Step(Waiter(w))], from, loads);
      Perform(Step(Waiter(w)));
    }

    // The deadline is over.
    method Expire(w: Wait, ghost posted: nat, ghost from: nat, ghost loads: seq<nat>)
      requires Reached() && Waiting(w)
      requires from <= |history| && FoundDown(cfg, w, posted, history, from, loads)
      modifies this
      ensures Reached() && old(history) <= history
      ensures w == ForReady ==> p == old(p).(pc := PStop, error := NotReady)
      ensures w == ForResponse ==> p == ProducerGivesUp(old(p))
      ensures w == ForRequest ==> Dead(c) && c.served == old(c).served
      ensures FoundDown(cfg, w, posted, history, from, loads)
    {
      hide FoundDown, Run;
      ghost var before := history;
      Others(Waiter(w));
      FoundDownStays(cfg, w, posted, before, history[|before|..], from, loads);
      if w == ForRequest && c.pc == CKilled {
        return;
      }
      FoundDownStays(cfg, w, posted, history, [Timeout(Waiter(w))], from, loads);
      Perform(Timeout(Waiter(w)));
    }

    lemma PromisingFromTheStart(w: Wait, slices: nat)
      requires w != ForRequest && Undisturbed() && Waiting(w) && |plan| >= slices + 4
      ensures Promising(w, 0, slices)
    {
      LoadingIsWaiting(w);
      LoadLeavesDistance(w);
    }

    lemma PromiseIsBounded(w: Wait, k: nat, slices: nat)
      ensures Promising(w, k, slices) ==> k <= 4
    {
    }

    // wait_for_value: poll the flag, and `stop` where the caller passes it, until
    // the patience runs out.  A wait that fails was killed, or found stop up
    // (which only the consumer's can), or found the flag down in every poll.
    method WaitForValue(w: Wait, polls: nat) returns (seen: bool, ghost loads: seq<nat>, ghost stopAt: nat)
      requires Reached() && Waiting(w)
      modifies this
      ensures Reached() && old(history) <= history
      ensures w == ForReady ==>
                p == if seen then old(p).(pc := PHead) else old(p).(pc := PStop, error := NotReady)
      ensures w == ForResponse ==>
                p == if seen then old(p).(pc := PClear, heard := p.heard) else ProducerGivesUp(old(p))
      ensures w == ForRequest ==>
                if seen then c == old(c).(pc := CClear, taken := c.taken) else Dead(c) && c.served == old(c).served
      ensures !seen ==>
                || Killed(w)
                || (w == ForRequest && FoundStop(cfg, ConsumerProcess, history, stopAt))
                || (|loads| == polls && FoundDown(cfg, w, old(p).posted, history, |old(history)|, loads))
      ensures polls > 0 && old(plan) == [] && old(FlagUp(w)) && old(c).pc != CKilled ==> seen
      ensures w != ForRequest && polls >= 5 && |old(plan)| >= 5 && old(Undisturbed()) ==>
                seen && Undisturbed() && |plan| >= |old(plan)| - 5
    {
      hide Smooth, FoundDown, FoundStop, StepsAway, FairPlan, Run, Exec, Undisturbed, Promising, Reached, Next;
      ghost var from, posted := |history|, p.posted;
      ghost var promising, slices := false, 0;
      if w != ForRequest && |plan| >= 5 && Undisturbed() {
        promising, slices := true, |plan| - 4;
        PromisingFromTheStart(w, slices);
      }
      loads, stopAt := [], 0;
      NothingFound(cfg, w, posted, history);
      for k := 0 to polls
        invariant Reached() && Waiting(w) && old(history) <= history
        invariant w != ForRequest ==> p == old(p)
        invariant w == ForRequest ==> c == old(c)
        invariant |loads| == k && FoundDown(cfg, w, posted, history, from, loads)
        invariant old(plan) == [] && old(FlagUp(w)) && old(c).pc != CKilled ==>
                    k == 0 && plan == [] && FlagUp(w) && c == old(c)
        invariant promising ==> Promising(w, k, slices)
      {
        PromiseIsBounded(w, k, slices);
        seen, loads := LoadFlag(w, posted, from, loads, k, slices);
        if seen || (w == ForRequest && c.pc == CKilled) {
          return;
        }
        if w != ForReady {
          ghost var at;
          var stopped;
          stopped, at := LoadStop(w, posted, from, loads, k + 1, slices);
          stopAt := at;
          if stopped || (w == ForRequest && c.pc == CKilled) {
            return;
          }
        }
      }
      PromiseIsBounded(w, polls, slices);
      Expire(w, posted, from, loads);
      seen := false;
    }

    // --- the producer -------------------------------------------------------

    lemma StepStaysSmooth()
      ensures Smooth(cfg, View()) ==> Smooth(cfg, Exec(cfg, View(), Step(ProducerProcess)))
    {
      if Smooth(cfg, View()) {
        StepKeepsSmooth(cfg, View(), ProducerProcess);
      }
    }

    method PostRequest()
      requires Reached() && p.pc == PHead && p.i < Bound(cfg, p)
      modifies this
      ensures Reached() && old(history) <= history
      ensures p == old(p).(pc := PLoadResponse, posted := old(p).posted + 1)
      ensures old(Undisturbed()) ==> Undisturbed() && |plan| >= |old(plan)| - 1
    {
      hide Run, Smooth, FairPlan;
      Others(ProducerProcess);
      HandshakeSafety(cfg, history);
      assert !request.up && !response.up;
      StepStaysSmooth();
      ghost var before := View();
      request := Flag(true, p.posted + 1);
      p := p.(pc := PLoadResponse, posted := p.posted + 1);
      StoresAreShort(cfg, before);
      Record(before, Step(ProducerProcess));
    }

    method ClearResponse()
      requires Reached() && p.pc == PClear
      modifies this
      ensures Reached() && old(history) <= history
      ensures p == old(p).(pc := PHead, acked := old(p).acked + 1, i := old(p).i + 1,
                           samples := if old(p).measuring then old(p).samples + [old(p).heard] else old(p).samples)
      ensures p.heard == p.posted
      ensures old(Undisturbed()) ==> Undisturbed() && |plan| >= |old(plan)| - 1
    {
      hide Run, Smooth, FairPlan;
      Others(ProducerProcess);
      HandshakeSafety(cfg, history);
      assert response == Flag(true, p.posted);
      StepStaysSmooth();
      ghost var before := View();
      response := Flag(false, p.heard);
      p := p.(pc := PHead, acked := p.acked + 1, i := p.i + 1,
              samples := if p.measuring then p.samples + [p.heard] else p.samples);
      StoresAreShort(cfg, before);
      Record(before, Step(ProducerProcess));
    }

    // The end of a loop, which accesses nothing shared.
    method LeaveLoop()
      requires Reached() && p.pc == PHead && p.i >= Bound(cfg, p)
      modifies this
      ensures Reached() && old(history) <= history
      ensures p == if old(p).measuring then old(p).(pc := PStop) else old(p).(measuring := true, i := 0)
      ensures old(Undisturbed()) ==> Undisturbed() && |plan| == |old(plan)|
    {
      hide Run, Smooth, FairPlan;
      StepStaysSmooth();
      Perform(Step(ProducerProcess));
    }

    // Why the producer is giving up: the wait for the last request it posted, or
    // for the consumer to be ready, found the flag down in every poll.
    ghost predicate GaveUp(w: Wait, patience: nat -> nat, loads: seq<nat>)
      reads this
    {
      |loads| == patience(p.posted) && FoundDown(cfg, w, p.posted, history, 0, loads)
    }

    lemma GaveUpLate(w: Wait, patience: nat -> nat, from: nat, loads: seq<nat>)
      requires |loads| == patience(p.posted) && FoundDown(cfg, w, p.posted, history, from, loads)
      ensures GaveUp(w, patience, loads)
    {
    }

    // The warmup loop; patience(k) bounds the polls of the wait for answer k.
    method WarmUp(patience: nat -> nat) returns (ok: bool, ghost loads: seq<nat>)
      requires Reached() && p == INITIAL.p.(pc := PHead)
      modifies this
      ensures Reached()
      ensures ok ==> p.pc == PHead && p.measuring && p.i == 0 && p.samples == [] && p.error == NoError
      ensures !ok ==> p.pc == PStop && p.samples == [] && p.error == WarmupStopped
      ensures !ok ==> GaveUp(ForResponse, patience, loads)
      ensures Generous(patience) && |old(plan)| >= 7 * cfg.warmup && old(Undisturbed()) ==>
                ok && Undisturbed() && |plan| >= |old(plan)| - 7 * cfg.warmup
    {
      hide Run, FairPlan, Smooth, FoundDown;
      loads := [];
      for i := 0 to cfg.warmup
        invariant Reached() && p.pc == PHead && !p.measuring && p.i == i
        invariant p.samples == [] && p.error == NoError
        invariant Generous(patience) && |old(plan)| >= 7 * cfg.warmup && old(Undisturbed()) ==>
                    Undisturbed() && |plan| >= |old(plan)| - 7 * i
      {
        PostRequest();
        ghost var from := |history|;
        ghost var stopAt;
        var seen;
        seen, loads, stopAt := WaitForValue(ForResponse, patience(p.posted));
        if !seen {
          GaveUpLate(ForResponse, patience, from, loads);
          return false, loads;
        }
        ClearResponse();
      }
      LeaveLoop();
      return true, loads;
    }

    // The measured loop, which records one sample for each answer.
    method Measure(patience: nat -> nat) returns (samples: seq<nat>, completed: bool, ghost loads: seq<nat>)
      requires Reached() && p.pc == PHead && p.measuring && p.i == 0 && p.samples == [] && p.error == NoError
      modifies this
      ensures Reached() && p.pc == PStop && p.samples == samples
      ensures p.error == if completed then NoError else MeasurementStopped
      ensures !completed ==> GaveUp(ForResponse, patience, loads)
      ensures Generous(patience) && |old(plan)| >= 7 * cfg.iterations && old(Undisturbed()) ==> completed
    {
      hide Run, FairPlan, Smooth, FoundDown;
      samples, loads := [], [];
      for i := 0 to cfg.iterations
        invariant Reached() && p.pc == PHead && p.measuring && p.i == i
        invariant p.samples == samples && p.error == NoError
        invariant Generous(patience) && |old(plan)| >= 7 * cfg.iterations && old(Undisturbed()) ==>
                    Undisturbed() && |plan| >= |old(plan)| - 7 * i
      {
        PostRequest();
        ghost var from := |history|;
        ghost var stopAt;
        var seen;
        seen, loads, stopAt := WaitForValue(ForResponse, patience(p.posted));
        if !seen {
          GaveUpLate(ForResponse, patience, from, loads);
          return samples, false, loads;
        }
        ClearResponse();
        samples := samples + [p.heard];
      }
      LeaveLoop();
      return samples, true, loads;
    }

    // Between two accesses of the producer, stop stays up and nobody is killed.
    lemma StopAndLife(before: seq<Choice>)
      requires Reached() && Stopped(p) && p.pc != PDone
      ensures stop && c.pc != CKilled
    {
      ReachableInv(cfg, history);
    }

    // One look for the child's exit.
    method LookForExit(ghost looks: seq<nat>) returns (gone: bool, ghost more: seq<nat>)
      requires Reached() && p.pc == PReap && stop && c.pc != CKilled && FoundRunning(cfg, history, looks)
      modifies this
      ensures Reached() && stop && c.pc != CKilled && old(history) <= history
      ensures p == if gone then old(p).(pc := PDone) else old(p)
      ensures gone ==> Dead(c)
      ensures !gone ==> |more| == |looks| + 1 && FoundRunning(cfg, history, more)
    {
      hide Run, FoundRunning;
      ghost var before := history;
      Others(ProducerProcess);
      StopAndLife(before);
      FoundRunningStays(cfg, before, history[|before|..], looks);
      gone := Dead(c);
      more := looks;
      if !gone {
        FoundRunningAgain(cfg, history, looks);
        more := looks + [|history|];
      }
      Perform(Step(ProducerProcess));
    }

    method EndReaping(fails: bool, ghost looks: seq<nat>)
      requires Reached() && p.pc == PReap && stop && FoundRunning(cfg, history, looks)
      modifies this
      ensures Reached() && p == old(p).(pc := PDone) && stop && old(history) <= history
      ensures !fails ==> Dead(c)
      ensures fails ==> c.pc != CKilled
      ensures FoundRunning(cfg, history, looks)
    {
      hide Run, FoundRunning;
      ghost var before := history;
      Others(ProducerProcess);
      StopAndLife(before);
      FoundRunningStays(cfg, before, history[|before|..], looks);
      ghost var last := if fails then ReapFails else Timeout(ProducerProcess);
      FoundRunningStays(cfg, history, [last], looks);
      Perform(if fails then ReapFails else Timeout(ProducerProcess));
    }

    // Raise stop, then wait_or_kill: look for the child's exit, then kill it, if
    // it was still running at every look.  One of the system calls may report an
    // error instead.
    method ShutDown(polls: nat, fails: bool) returns (ghost looks: seq<nat>)
      requires Reached() && p.pc == PStop
      modifies this
      ensures Reached() && p == old(p).(pc := PDone) && stop && old(history) <= history
      ensures !fails ==> Dead(c)
      ensures fails ==> c.pc != CKilled
      ensures c.pc == CKilled ==> |looks| == polls && FoundRunning(cfg, history, looks)
    {
      hide Run, FoundRunning;
      Others(ProducerProcess);
      ghost var before := View();
      stop := true;
      p := p.(pc := PReap);
      StoresAreShort(cfg, before);
      Record(before, Step(ProducerProcess));
      StopAndLife(history);
      looks := [];
      NothingLooked(cfg, history);
      for k := 0 to polls
        invariant Reached() && p == old(p).(pc := PReap) && stop && c.pc != CKilled && old(history) <= history
        invariant |looks| == k && FoundRunning(cfg, history, looks)
      {
        var gone;
        gone, looks := LookForExit(looks);
        if gone {
          return;
        }
      }
      EndReaping(fails, looks);
    }

    // The producer up to its shutdown.
    method Produce(patience: nat -> nat) returns (samples: seq<nat>, message: Message, ghost loads: seq<nat>)
      requires View() == INITIAL && history == []
      modifies this
      ensures Reached() && p.pc == PStop && p.samples == samples
      ensures message == match p.error
                         case NoError => Empty
                         case NotReady => ConsumerNotReady
                         case WarmupStopped => StoppedInWarmup
                         case MeasurementStopped => StoppedInMeasurement
      ensures message != Empty ==> GaveUp(if p.error == NotReady then ForReady else ForResponse, patience, loads)
      ensures Generous(patience) && FairPlan(old(plan)) && |old(plan)| >= 7 * (cfg.warmup + cfg.iterations) + 5 ==>
                message == Empty
    {
      hide FoundDown, Smooth, FairPlan, GaveUp;
      samples, message := [], Empty;
      ghost var stopAt;
      StartsSmooth(cfg);
      var ready;
      ready, loads, stopAt := WaitForValue(ForReady, patience(0));
      if !ready {
        GaveUpLate(ForReady, patience, 0, loads);
        return [], ConsumerNotReady, loads;
      }
      var warm;
      warm, loads := WarmUp(patience);
      if !warm {
        return [], StoppedInWarmup, loads;
      }
      var completed;
      samples, completed, loads := Measure(patience);
      message := if completed then Empty else StoppedInMeasurement;
    }

    // --- the consumer -------------------------------------------------------

    method Announce()
      requires Reached() && c.pc == CAnnounce
      modifies this
      ensures Reached() && (c == old(c).(pc := CKilled) || c == old(c).(pc := CHead))
    {
      hide Run;
      Others(ConsumerProcess);
      if c.pc == CKilled {
        return;
      }
      ghost var before := View();
      consumerReady := true;
      c := c.(pc := CHead);
      StoresAreShort(cfg, before);
      Record(before, Step(ConsumerProcess));
    }

    method ClearRequest()
      requires Reached() && c.pc == CClear
      modifies this
      ensures Reached() && (c == old(c).(pc := CKilled) || c == old(c).(pc := CRespond))
    {
      hide Run;
      Others(ConsumerProcess);
      if c.pc == CKilled {
        return;
      }
      HandshakeSafety(cfg, history);
      assert request == Flag(true, c.taken) && c.taken == p.posted;
      ghost var before := View();
      request := Flag(false, c.taken);
      c := c.(pc := CRespond);
      StoresAreShort(cfg, before);
      Record(before, Step(ConsumerProcess));
    }

    method Respond()
      requires Reached() && c.pc == CRespond
      modifies this
      ensures Reached()
      ensures c == old(c).(pc := CKilled) || c == old(c).(pc := CHead, served := old(c).served + 1)
    {
      hide Run;
      Others(ConsumerProcess);
      if c.pc == CKilled {
        return;
      }
      HandshakeSafety(cfg, history);
      assert !response.up && c.taken == p.posted;
      ghost var before := View();
      response := Flag(true, c.taken);
      c := c.(pc := CHead, served := c.served + 1);
      StoresAreShort(cfg, before);
      Record(before, Step(ConsumerProcess));
    }

    // One round's look at `stop`.
    method LoadStopAtHead() returns (stopped: bool, ghost stopAt: nat)
      requires Reached() && c.pc == CHead
      modifies this
      ensures Reached() && old(history) <= history
      ensures c == if c.pc == CKilled then old(c).(pc := CKilled)
                   else if stopped then old(c).(pc := CExited) else old(c).(pc := CLoadRequest)
      ensures stopped && c.pc != CKilled ==> FoundStop(cfg, ConsumerProcess, history, stopAt)
    {
      hide Run, FoundStop;
      stopped, stopAt := false, 0;
      Others(ConsumerProcess);
      if c.pc == CKilled {
        return;
      }
      stopped := stop;
      if stopped {
        FoundStopNow(cfg, ConsumerProcess, history);
        stopAt := |history|;
      }
      Perform(Step(ConsumerProcess));
    }

    // Why the consumer has left: it was killed, could not pin itself, found stop
    // up, or found the request down in every poll of its last wait.
    ghost predicate Excused(pinned: bool, patience: nat -> nat, stopAt: nat, loads: seq<nat>)
      reads this
    {
      || c.pc == CKilled || !pinned || FoundStop(cfg, ConsumerProcess, history, stopAt)
      || (|loads| == patience(c.served) && FoundDown(cfg, ForRequest, 0, history, 0, loads))
    }

    lemma ExcusedByWait(pinned: bool, patience: nat -> nat, posted: nat, from: nat, stopAt: nat, loads: seq<nat>)
      requires Killed(ForRequest) || FoundStop(cfg, ConsumerProcess, history, stopAt)
               || (|loads| == patience(c.served) && FoundDown(cfg, ForRequest, posted, history, from, loads))
      ensures Excused(pinned, patience, stopAt, loads)
    {
    }

    // consumer_loop, for any number of rounds; a killed process goes no further.
    method ConsumerLoop(pinned: bool, rounds: nat, patience: nat -> nat)
        returns (left: bool, ghost stopAt: nat, ghost loads: seq<nat>)
      requires Reached() && c == INITIAL.c
      modifies this
      ensures Reached()
      ensures if left then Dead(c) && c.served <= rounds else c.pc == CHead && c.served == rounds
      ensures left ==> Excused(pinned, patience, stopAt, loads)
    {
      hide Run, FoundStop, FoundDown;
      stopAt, loads := 0, [];
      left := true;
      Others(ConsumerProcess);
      if c.pc == CKilled {
        return;
      }
      Perform(if pinned then Step(ConsumerProcess) else PinFails);
      if !pinned {
        return;
      }
      Announce();
      if c.pc == CKilled {
        return;
      }
      for round := 0 to rounds
        invariant Reached() && c.pc == CHead && c.served == round && left
      {
        var stopped;
        stopped, stopAt := LoadStopAtHead();
        if stopped || c.pc == CKilled {
          return;
        }
        ghost var posted, from := p.posted, |history|;
        var seen;
        seen, loads, stopAt := WaitForValue(ForRequest, patience(round));
        if !seen {
          ExcusedByWait(pinned, patience, posted, from, stopAt, loads);
          return;
        }
        ClearRequest();
        if c.pc == CKilled {
          return;
        }
        Respond();
        if c.pc == CKilled {
          return;
        }
      }
      left := false;
    }
  }

  function ResultOf(o: Outcome, producerCpu: int, consumerCpu: int): SharedMemoryResult {
    SharedMemoryResult(o.success, o.iterations, producerCpu, consumerCpu, o.samples, Protocol(o.error))
  }

  ghost predicate ShownBy(cfg: Config, producerCpu: int, consumerCpu: int, patience: nat -> nat,
                          r: SharedMemoryResult, schedule: seq<Choice>, loads: seq<nat>)
  {
    var p := Run(cfg, INITIAL, schedule).p;
    && p.pc == PDone && r == ResultOf(Finish(cfg, p), producerCpu, consumerCpu)
    && (r.error != Protocol(Empty) ==>
          && |loads| == patience(p.posted)
          && FoundDown(cfg, if p.error == NotReady then ForReady else ForResponse, p.posted, schedule, 0, loads))
  }

  // A result that some run of the two processes leads to; if it carries an error,
  // the run shows the wait that gave up after finding its flag down every time.
  ghost predicate FromRun(cfg: Config, producerCpu: int, consumerCpu: int, patience: nat -> nat,
                          r: SharedMemoryResult)
  {
    exists schedule: seq<Choice>, loads: seq<nat> ::
      ShownBy(cfg, producerCpu, consumerCpu, patience, r, schedule, loads)
  }

  function Rejected(reason: Rejection, iterations: int, producerCpu: int, consumerCpu: int): SharedMemoryResult {
    SharedMemoryResult(false, iterations, producerCpu, consumerCpu, [], Refused(reason))
  }

  // The checks of the arguments and the system calls that come before the child.
  predicate Accepted(iterations: int, warmup: int, producerCpu: int, consumerCpu: int, setup: Setup) {
    iterations > 0 && warmup >= 0 && producerCpu >= 0 && consumerCpu >= 0 && setup == SetupOk
  }

  // The call once the consumer has been forked.
  method RunTheCall(cfg: Config, producerCpu: int, consumerCpu: int, plan: seq<seq<Choice>>, patience: nat -> nat,
                    reapPolls: nat, reapFails: bool)
      returns (r: SharedMemoryResult)
    requires cfg.iterations > 0
    ensures FromRun(cfg, producerCpu, consumerCpu, patience, r)
    ensures r.producerCpu == producerCpu && r.consumerCpu == consumerCpu && r.error.Protocol?
    ensures r.success ==>
              && 1 <= r.iterations <= cfg.iterations
              && r.samples == Tickets(cfg.warmup, cfg.warmup + r.iterations)
              && (r.iterations == cfg.iterations <==> r.error == Protocol(Empty))
    ensures !r.success ==> r.error != Protocol(Empty) && r.samples == [] && r.iterations == cfg.iterations
    ensures r.error != Protocol(NoSuccessfulSamples)
    ensures FairPlan(plan) && |plan| >= 7 * (cfg.warmup + cfg.iterations) + 5 && Generous(patience)
            ==> r.success && r.iterations == cfg.iterations && r.error == Protocol(Empty)
  {
    hide Run, FoundDown, Smooth, FairPlan, Generous;
    var control := new SharedControl(cfg, plan);
    ghost var loads, looks;
    var samples: seq<nat>, message;
    samples, message, loads := control.Produce(patience);
    ghost var before, w := control.history, if message == ConsumerNotReady then ForReady else ForResponse;
    looks := control.ShutDown(reapPolls, reapFails);
    if message != Empty {
      FoundDownStays(cfg, w, control.p.posted, before, control.history[|before|..], 0, loads);
      assert before + control.history[|before|..] == control.history;
    }
    OutcomeIsHonest(cfg, control.history);
    if message == ConsumerNotReady || message == StoppedInWarmup {
      r := SharedMemoryResult(false, cfg.iterations, producerCpu, consumerCpu, [], Protocol(message));
    } else if |samples| == 0 {
      r := SharedMemoryResult(false, cfg.iterations, producerCpu, consumerCpu, [],
                              Protocol(if message == Empty then NoSuccessfulSamples else message));
    } else {
      r := SharedMemoryResult(true, |samples|, producerCpu, consumerCpu, samples, Protocol(message));
    }
    assert r == ResultOf(Finish(cfg, control.p), producerCpu, consumerCpu);
    assert ShownBy(cfg, producerCpu, consumerCpu, patience, r, control.history, loads);
  }

  // The whole call.
  method MeasureCrossProcess(iterations: int, warmup: int, producerCpu: int, consumerCpu: int, setup: Setup,
                             plan: seq<seq<Choice>>, patience: nat -> nat, reapPolls: nat, reapFails: bool)
      returns (r: SharedMemoryResult)
    ensures r.producerCpu == producerCpu && r.consumerCpu == consumerCpu
    ensures iterations <= 0 || warmup < 0 ==>
              r == Rejected(InvalidIterations, iterations, producerCpu, consumerCpu)
    ensures iterations > 0 && warmup >= 0 && (producerCpu < 0 || consumerCpu < 0) ==>
              r == Rejected(InvalidAffinity, iterations, producerCpu, consumerCpu)
    ensures iterations > 0 && warmup >= 0 && producerCpu >= 0 && consumerCpu >= 0 && setup.SetupFails? ==>
              r == Rejected(setup.reason, iterations, producerCpu, consumerCpu)
    ensures Accepted(iterations, warmup, producerCpu, consumerCpu, setup) <==> r.error.Protocol?
    ensures r.error.Protocol? ==> FromRun(Config(warmup, iterations), producerCpu, consumerCpu, patience, r)
    ensures r.success ==>
              && 1 <= r.iterations <= iterations
              && r.samples == Tickets(warmup, warmup + r.iterations)
              && (r.iterations == iterations <==> r.error == Protocol(Empty))
    ensures !r.success ==> r.error != Protocol(Empty) && r.samples == [] && r.iterations == iterations
    ensures r.error != Protocol(NoSuccessfulSamples)
    ensures Accepted(iterations, warmup, producerCpu, consumerCpu, setup)
            && FairPlan(plan) && |plan| >= 7 * (warmup + iterations) + 5 && Generous(patience)
            ==> r.success && r.iterations == iterations && r.error == Protocol(Empty)
  {
    if iterations <= 0 || warmup < 0 {
      return Rejected(InvalidIterations, iterations, producerCpu, consumerCpu);
    }
    if producerCpu < 0 || consumerCpu < 0 {
      return Rejected(InvalidAffinity, iterations, producerCpu, consumerCpu);
    }
    if setup.SetupFails? {
      return Rejected(setup.reason, iterations, producerCpu, consumerCpu);
    }
    r := RunTheCall(Config(warmup, iterations), producerCpu, consumerCpu, plan, patience, reapPolls, reapFails);
  }
}
