// What the ping-pong protocol guarantees on every schedule: the order of its
// events, the accounting of its samples, its shutdown and its progress.

module PingPongTheorems {
  import opened PingPong

  lemma InitialInv(cfg: Config)
    ensures Inv(cfg, INITIAL)
  {
  }

  lemma ReachableInv(cfg: Config, schedule: seq<Choice>)
    ensures Inv(cfg, Run(cfg, INITIAL, schedule))
  {
    InitialInv(cfg);
    RunKeepsInv(cfg, INITIAL, schedule);
  }

  // --- safety ---------------------------------------------------------------

  // In every reachable state the two flags are never up together, each store
  // about to be issued acts on the current request and on no other, and the
  // producer's own look at `stop` never sees it raised.
  lemma HandshakeSafety(cfg: Config, schedule: seq<Choice>)
    ensures var s := Run(cfg, INITIAL, schedule);
            && !(s.mem.request.up && s.mem.response.up)
            && (s.p.pc == PHead ==> !s.mem.request.up && !s.mem.response.up)
            && (s.c.pc == CClear ==> s.mem.request == Flag(true, s.c.taken) && s.c.taken == s.p.posted)
            && (s.c.pc == CRespond ==> !s.mem.response.up && s.c.taken == s.p.posted)
            && (s.p.pc == PClear ==> s.mem.response == Flag(true, s.p.posted) && s.p.heard == s.p.posted)
            && (s.p.pc == PLoadStop ==> !s.mem.stop)
  {
    ReachableInv(cfg, schedule);
  }

  // The visible events of a run, with the request each one belongs to.
  datatype Event = Posted(request: nat) | Served(request: nat) | Acknowledged(request: nat)

  function Emitted(cfg: Config, s: State, choice: Choice): seq<Event> {
    match choice
    case Step(ProducerProcess) =>
      if s.p.pc == PHead && s.p.i < Bound(cfg, s.p) then [Posted(s.p.posted + 1)]
      else if s.p.pc == PClear then [Acknowledged(s.p.heard)]
      else []
    case Step(ConsumerProcess) => if s.c.pc == CRespond then [Served(s.c.taken)] else []
    case _ => []
  }

  function Events(cfg: Config, s: State, schedule: seq<Choice>): seq<Event>
    decreases |schedule|
  {
    if schedule == [] then []
    else Emitted(cfg, s, schedule[0]) + Events(cfg, Exec(cfg, s, schedule[0]), schedule[1..])
  }

  // The k-th event of the ideal handshake: post 1, serve 1, acknowledge 1, post 2, ...
  function Ideal(k: nat): Event {
    if k % 3 == 0 then Posted(k / 3 + 1)
    else if k % 3 == 1 then Served(k / 3 + 1)
    else Acknowledged(k / 3 + 1)
  }

  function Happened(s: State): nat { s.p.posted + s.c.served + s.p.acked }

  lemma IdealRound(n: nat)
    ensures Ideal(3 * n) == Posted(n + 1)
    ensures Ideal(3 * n + 1) == Served(n + 1)
    ensures Ideal(3 * n + 2) == Acknowledged(n + 1)
  {
  }

  ghost predicate FollowsIdeal(events: seq<Event>, start: nat) {
    forall k :: 0 <= k < |events| ==> events[k] == Ideal(start + k)
  }

  // The event a choice emits, if any, is the next one of the ideal handshake.
  ghost predicate EmitsNext(cfg: Config, s: State, choice: Choice) {
    var e := Emitted(cfg, s, choice);
    && Happened(Exec(cfg, s, choice)) == Happened(s) + |e|
    && FollowsIdeal(e, Happened(s))
  }

  lemma ProducerEmitsNext(cfg: Config, s: State)
    requires Inv(cfg, s)
    ensures EmitsNext(cfg, s, Step(ProducerProcess))
  {
    StoresAreShort(cfg, s);
    IdealRound(s.p.acked);
  }

  lemma ConsumerEmitsNext(cfg: Config, s: State)
    requires Inv(cfg, s)
    ensures EmitsNext(cfg, s, Step(ConsumerProcess))
  {
    StoresAreShort(cfg, s);
    IdealRound(s.p.acked);
  }

  lemma EmittedIsIdeal(cfg: Config, s: State, choice: Choice)
    requires Inv(cfg, s)
    ensures EmitsNext(cfg, s, choice)
  {
    match choice
    case Step(ProducerProcess) => ProducerEmitsNext(cfg, s);
    case Step(ConsumerProcess) => ConsumerEmitsNext(cfg, s);
    case _ => hide Inv, Ideal;
  }

  lemma NoEvents(start: nat)
    ensures FollowsIdeal([], start)
  {
  }

  lemma FollowsIdealConcat(first: seq<Event>, rest: seq<Event>, start: nat)
    requires FollowsIdeal(first, start) && FollowsIdeal(rest, start + |first|)
    ensures FollowsIdeal(first + rest, start)
  {
  }

  lemma {:induction false} EventsFollowIdeal(cfg: Config, s: State, schedule: seq<Choice>)
    requires Inv(cfg, s)
    ensures FollowsIdeal(Events(cfg, s, schedule), Happened(s))
    decreases |schedule|
  {
    hide Exec, Emitted, Inv, Ideal, FollowsIdeal, Happened;
    if schedule == [] {
      NoEvents(Happened(s));
    } else {
      var choice, later := schedule[0], schedule[1..];
      var t := Exec(cfg, s, choice);
      EmittedIsIdeal(cfg, s, choice);
      ExecKeepsInv(cfg, s, choice);
      EventsFollowIdeal(cfg, t, later);
      FollowsIdealConcat(Emitted(cfg, s, choice), Events(cfg, t, later), Happened(s));
    }
  }

  // Whatever the interleaving and whichever waits expire, the events of a run
  // are an initial part of the ideal handshake: no request is lost, served
  // twice or overwritten, and no acknowledgement answers an earlier request.
  lemma EveryRunIsAHandshake(cfg: Config, schedule: seq<Choice>)
    ensures var events := Events(cfg, INITIAL, schedule);
            forall k :: 0 <= k < |events| ==> events[k] == Ideal(k)
  {
    InitialInv(cfg);
    EventsFollowIdeal(cfg, INITIAL, schedule);
  }

  // --- sample accounting ----------------------------------------------------

  // The tickets lo+1, ..., hi.
  function Tickets(lo: nat, hi: nat): seq<nat>
    requires lo <= hi
  {
    seq(hi - lo, k requires 0 <= k < hi - lo => lo + k + 1)
  }

  // Every measured request is sampled once, in order, and no warmup request is.
  lemma SampleAccounting(cfg: Config, schedule: seq<Choice>)
    ensures var s := Run(cfg, INITIAL, schedule);
            && s.p.acked <= s.c.served <= s.p.acked + 1
            && s.p.acked <= s.p.posted <= s.p.acked + 1
            && s.p.acked <= cfg.warmup + cfg.iterations
            && s.p.samples == (if s.p.acked <= cfg.warmup then [] else Tickets(cfg.warmup, s.p.acked))
            && (s.p.acked > 0 ==> s.mem.ready)
  {
    ReachableInv(cfg, schedule);
    var s := Run(cfg, INITIAL, schedule);
    if s.p.acked > cfg.warmup {
      assert s.p.measuring;
      assert s.p.samples == Tickets(cfg.warmup, s.p.acked);
    }
  }

  datatype Message = Empty | ConsumerNotReady | StoppedInWarmup | StoppedInMeasurement | NoSuccessfulSamples

  // What the producer returns once it is done.
  datatype Outcome = Outcome(success: bool, iterations: nat, samples: seq<nat>, error: Message)

  function Finish(cfg: Config, p: Producer): Outcome {
    match p.error
    case NotReady => Outcome(false, cfg.iterations, [], ConsumerNotReady)
    case WarmupStopped => Outcome(false, cfg.iterations, [], StoppedInWarmup)
    case _ =>
      var message := if p.error == MeasurementStopped then StoppedInMeasurement else Empty;
      if p.samples == [] then
        Outcome(false, cfg.iterations, [], if message == Empty then NoSuccessfulSamples else message)
      else
        Outcome(true, |p.samples|, p.samples, message)
  }

  // A successful result holds between one and all of the requested samples, and
  // all of them exactly when no measured wait failed, that is, when the message
  // is empty.  The message says how far the posts got; with a positive request
  // the last one is never produced.
  ghost predicate Honest(cfg: Config, p: Producer) {
    var r := Finish(cfg, p);
    && (r.success <==> p.acked > cfg.warmup)
    && (r.success ==>
          && 1 <= r.iterations <= cfg.iterations
          && r.samples == Tickets(cfg.warmup, cfg.warmup + r.iterations)
          && (r.iterations == cfg.iterations <==> r.error == Empty))
    && (!r.success ==> r.error != Empty && r.iterations == cfg.iterations && r.samples == [])
    && r.error != NoSuccessfulSamples
    && (r.error == ConsumerNotReady <==> p.posted == 0)
    && (r.error == StoppedInWarmup <==> 0 < p.posted <= cfg.warmup)
    && (r.error == StoppedInMeasurement <==> cfg.warmup < p.posted && p.acked < p.posted)
    && (r.error == Empty <==> p.acked == cfg.warmup + cfg.iterations)
  }

  lemma EndingIsHonest(cfg: Config, s: State)
    requires cfg.iterations > 0 && Inv(cfg, s) && Ending(s.p)
    ensures Honest(cfg, s.p)
  {
    if s.p.samples != [] {
      assert s.p.samples == Tickets(cfg.warmup, cfg.warmup + |s.p.samples|);
    }
  }

  lemma OutcomeIsHonest(cfg: Config, schedule: seq<Choice>)
    requires cfg.iterations > 0
    requires Run(cfg, INITIAL, schedule).p.pc == PDone
    ensures Honest(cfg, Run(cfg, INITIAL, schedule).p)
  {
    ReachableInv(cfg, schedule);
    EndingIsHonest(cfg, Run(cfg, INITIAL, schedule));
  }

  // --- shutdown -------------------------------------------------------------

  // `stop` is raised only by the producer's store, and never lowered.
  lemma StopIsRaisedOnce(cfg: Config, before: seq<Choice>, choice: Choice)
    ensures var s := Run(cfg, INITIAL, before);
            var t := Exec(cfg, s, choice);
            && (s.mem.stop ==> t.mem.stop)
            && (!s.mem.stop && t.mem.stop <==> choice == Step(ProducerProcess) && s.p.pc == PStop)
            && (s.p.pc == PStop ==> !s.mem.stop)
  {
    ReachableInv(cfg, before);
    StoresAreShort(cfg, Run(cfg, INITIAL, before));
  }

  // The consumer's own steps left once `stop` is up, counting one more request.
  function StopRank(c: ConsumerPc): nat {
    match c
    case CLoadRequest => 4
    case CPin => 3
    case CClear => 3
    case CAnnounce => 2
    case CRespond => 2
    case CHead => 1
    case CLoadStop => 1
    case _ => 0
  }

  function MayServe(c: ConsumerPc): nat {
    if c == CLoadRequest || c == CClear || c == CRespond then 1 else 0
  }

  function CountSteps(who: Process, schedule: seq<Choice>): nat
    decreases |schedule|
  {
    if schedule == [] then 0
    else (if schedule[0] == Step(who) then 1 else 0) + CountSteps(who, schedule[1..])
  }

  // Every choice after `stop` keeps it up and uses up what the consumer may still do.
  lemma StopStep(cfg: Config, s: State, choice: Choice)
    requires s.mem.stop
    ensures var t := Exec(cfg, s, choice);
            && t.mem.stop
            && t.c.served + MayServe(t.c.pc) <= s.c.served + MayServe(s.c.pc)
            && StopRank(t.c.pc) <= StopRank(s.c.pc)
            && (choice == Step(ConsumerProcess) && !Dead(s.c) ==> StopRank(t.c.pc) < StopRank(s.c.pc))
            && (Dead(s.c) ==> Dead(t.c))
  {
    StoresAreShort(cfg, s);
  }

  lemma {:induction false} AfterStop(cfg: Config, s: State, schedule: seq<Choice>)
    requires s.mem.stop
    ensures var t := Run(cfg, s, schedule);
            && t.c.served + MayServe(t.c.pc) <= s.c.served + MayServe(s.c.pc)
            && (CountSteps(ConsumerProcess, schedule) >= StopRank(s.c.pc) || Dead(s.c) ==> Dead(t.c))
    decreases |schedule|
  {
    if schedule != [] {
      StopStep(cfg, s, schedule[0]);
      hide Exec;
      AfterStop(cfg, Exec(cfg, s, schedule[0]), schedule[1..]);
    }
  }

  // Once `stop` is up the consumer serves at most one more request and is gone
  // after four of its own steps, whatever the rest of the system does.
  lemma ShutdownIsBounded(cfg: Config, before: seq<Choice>, after: seq<Choice>)
    requires Run(cfg, INITIAL, before).mem.stop
    ensures var s := Run(cfg, INITIAL, before);
            var t := Run(cfg, INITIAL, before + after);
            && t.c.served <= s.c.served + 1
            && (CountSteps(ConsumerProcess, after) >= 4 ==> Dead(t.c))
  {
    ReachableInv(cfg, before);
    RunAppend(cfg, INITIAL, before, after);
    AfterStop(cfg, Run(cfg, INITIAL, before), after);
  }

  // --- progress -------------------------------------------------------------

  // Work left for the consumer before it is waiting (or gone).
  function ConsumerRank(c: ConsumerPc, m: Memory): nat {
    match c
    case CPin => 3
    case CAnnounce => 2
    case CClear => 3
    case CRespond => 2
    case CHead => if m.request.up then 5 else 1
    case CLoadStop => if m.request.up then 5 else if m.stop then 1 else 0
    case CLoadRequest => if m.request.up then 4 else if m.stop then 2 else 0
    case _ => 0
  }

  function ProducerRank(p: Producer, m: Memory): nat {
    match p.pc
    case PAwaitReady => 10
    case PHead => 9
    case PStop => 8
    case PLoadStop => 3
    case PLoadResponse => if m.response.up then 2 else 3
    case PClear => 1
    case PReap => 1
    case PDone => 0
  }

  // Each remaining handshake is worth nine units, more than any single phase.
  function Measure(cfg: Config, s: State): int {
    9 * (cfg.warmup + cfg.iterations - s.p.acked) + (if s.p.measuring then 0 else 1)
    + ProducerRank(s.p, s.mem) + ConsumerRank(s.c.pc, s.mem)
  }

  // A state that only actions of the two processes can have led to.
  ghost predicate Smooth(cfg: Config, s: State) {
    && Inv(cfg, s)
    && s.p.error == NoError && s.c.pc != CKilled
    && (s.c.pc == CExited ==> s.mem.stop)
    && (s.p.pc == PDone ==> s.c.pc == CExited)
    && (s.p.pc != PAwaitReady ==> s.mem.ready)
    && (s.mem.ready ==> s.c.pc != CPin && s.c.pc != CAnnounce)
    && (s.c.pc == CPin || s.c.pc == CAnnounce || s.mem.ready)
  }

  ghost predicate Complete(cfg: Config, s: State) {
    && s.p.pc == PDone && s.c.pc == CExited && s.p.error == NoError
    && s.p.samples == Tickets(cfg.warmup, cfg.warmup + cfg.iterations)
    && s.c.served == s.p.acked == cfg.warmup + cfg.iterations
  }

  lemma StepKeepsSmooth(cfg: Config, s: State, who: Process)
    requires Smooth(cfg, s)
    ensures Smooth(cfg, Exec(cfg, s, Step(who)))
    ensures 0 <= Measure(cfg, Exec(cfg, s, Step(who))) <= Measure(cfg, s)
  {
    StoresAreShort(cfg, s);
    ExecKeepsInv(cfg, s, Step(who));
  }

  function Other(who: Process): Process {
    if who == ProducerProcess then ConsumerProcess else ProducerProcess
  }

  // `who` can do real work: its next action lowers the measure.
  ghost predicate Productive(cfg: Config, s: State, who: Process) {
    Measure(cfg, Exec(cfg, s, Step(who))) < Measure(cfg, s)
  }

  lemma SomeoneIsProductive(cfg: Config, s: State)
    requires Smooth(cfg, s) && s.p.pc != PDone
    ensures Productive(cfg, s, ProducerProcess) || Productive(cfg, s, ConsumerProcess)
  {
    StoresAreShort(cfg, s);
  }

  lemma ProducerStaysProductive(cfg: Config, s: State)
    requires Smooth(cfg, s) && Productive(cfg, s, ProducerProcess)
    ensures Productive(cfg, s, ConsumerProcess)
            || Productive(cfg, Exec(cfg, s, Step(ConsumerProcess)), ProducerProcess)
  {
    StoresAreShort(cfg, s);
    StoresAreShort(cfg, Exec(cfg, s, Step(ConsumerProcess)));
  }

  lemma ConsumerStaysProductive(cfg: Config, s: State)
    requires Smooth(cfg, s) && Productive(cfg, s, ConsumerProcess)
    ensures Productive(cfg, s, ProducerProcess)
            || Productive(cfg, Exec(cfg, s, Step(ProducerProcess)), ConsumerProcess)
  {
    StoresAreShort(cfg, s);
    StoresAreShort(cfg, Exec(cfg, s, Step(ProducerProcess)));
  }

  // Spinning by one process does not take the other's work away.
  lemma ProductiveStays(cfg: Config, s: State, who: Process)
    requires Smooth(cfg, s) && Productive(cfg, s, who)
    ensures Productive(cfg, s, Other(who)) || Productive(cfg, Exec(cfg, s, Step(Other(who))), who)
  {
    if who == ProducerProcess {
      ProducerStaysProductive(cfg, s);
    } else {
      ConsumerStaysProductive(cfg, s);
    }
  }

  ghost predicate OnlySteps(schedule: seq<Choice>) {
    forall k :: 0 <= k < |schedule| ==> schedule[k].Step?
  }

  lemma {:induction false} StepsKeepSmooth(cfg: Config, s: State, schedule: seq<Choice>)
    requires Smooth(cfg, s) && OnlySteps(schedule)
    ensures Smooth(cfg, Run(cfg, s, schedule))
    ensures Measure(cfg, Run(cfg, s, schedule)) <= Measure(cfg, s)
    decreases |schedule|
  {
    if schedule != [] {
      StepKeepsSmooth(cfg, s, schedule[0].who);
      StepsKeepSmooth(cfg, Exec(cfg, s, schedule[0]), schedule[1..]);
    }
  }

  lemma {:induction false} WorkGetsDone(cfg: Config, s: State, who: Process, schedule: seq<Choice>)
    requires Smooth(cfg, s) && OnlySteps(schedule)
    requires Productive(cfg, s, who) && Step(who) in schedule
    ensures Measure(cfg, Run(cfg, s, schedule)) < Measure(cfg, s)
    decreases |schedule|
  {
    var t := Exec(cfg, s, schedule[0]);
    StepKeepsSmooth(cfg, s, schedule[0].who);
    StepsKeepSmooth(cfg, t, schedule[1..]);
    if Measure(cfg, t) == Measure(cfg, s) {
      assert schedule[0].who == Other(who);
      ProductiveStays(cfg, s, who);
      WorkGetsDone(cfg, t, who, schedule[1..]);
    }
  }

  // A round lets both processes act at least once, in any order and number.
  ghost predicate FairRound(round: seq<Choice>) {
    OnlySteps(round) && Step(ProducerProcess) in round && Step(ConsumerProcess) in round
  }

  function Flatten(rounds: seq<seq<Choice>>): seq<Choice>
    decreases |rounds|
  {
    if rounds == [] then [] else rounds[0] + Flatten(rounds[1..])
  }

  lemma DoneIsComplete(cfg: Config, s: State)
    requires Smooth(cfg, s) && s.p.pc == PDone
    ensures Complete(cfg, s)
  {
    assert s.p.samples == Tickets(cfg.warmup, cfg.warmup + cfg.iterations);
  }

  lemma DoneStays(cfg: Config, s: State, who: Process)
    requires s.p.pc == PDone
    ensures Exec(cfg, s, Step(who)).p.pc == PDone
  {
  }

  lemma {:induction false} DoneStaysRun(cfg: Config, s: State, schedule: seq<Choice>)
    requires s.p.pc == PDone && OnlySteps(schedule)
    ensures Run(cfg, s, schedule).p.pc == PDone
    decreases |schedule|
  {
    if schedule != [] {
      DoneStays(cfg, s, schedule[0].who);
      DoneStaysRun(cfg, Exec(cfg, s, schedule[0]), schedule[1..]);
    }
  }

  lemma {:induction false} RoundsFinish(cfg: Config, s: State, rounds: seq<seq<Choice>>)
    requires Smooth(cfg, s)
    requires forall k :: 0 <= k < |rounds| ==> FairRound(rounds[k])
    ensures Smooth(cfg, Run(cfg, s, Flatten(rounds)))
    ensures |rounds| >= Measure(cfg, s) ==> Run(cfg, s, Flatten(rounds)).p.pc == PDone
    ensures s.p.pc == PDone ==> Run(cfg, s, Flatten(rounds)).p.pc == PDone
    decreases |rounds|
  {
    if rounds != [] {
      var round := rounds[0];
      var t := Run(cfg, s, round);
      StepsKeepSmooth(cfg, s, round);
      RunAppend(cfg, s, round, Flatten(rounds[1..]));
      RoundsFinish(cfg, t, rounds[1..]);
      if s.p.pc == PDone {
        DoneStaysRun(cfg, s, round);
      } else {
        SomeoneIsProductive(cfg, s);
        WorkGetsDone(cfg, s,
          if Productive(cfg, s, ProducerProcess) then ProducerProcess else ConsumerProcess, round);
      }
    } else {
      assert s.p.pc != PDone ==> Measure(cfg, s) > 0;
    }
  }

  // If no wait expires and the pin succeeds, every sufficiently long fair
  // schedule completes every handshake, records every sample, and ends with
  // both processes gone: 9 rounds a handshake and 14 more are enough.
  lemma FairRunsComplete(cfg: Config, rounds: seq<seq<Choice>>)
    requires forall k :: 0 <= k < |rounds| ==> FairRound(rounds[k])
    requires |rounds| >= 9 * (cfg.warmup + cfg.iterations) + 14
    ensures Complete(cfg, Run(cfg, INITIAL, Flatten(rounds)))
  {
    InitialInv(cfg);
    RoundsFinish(cfg, INITIAL, rounds);
    DoneIsComplete(cfg, Run(cfg, INITIAL, Flatten(rounds)));
  }
}
