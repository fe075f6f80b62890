// With store buffers, too, every fair schedule without timeouts and failures
// completes the measurement.

module PingPongTsoProgress {
  import opened PingPong
  import opened PingPongTheorems
  import opened PingPongTso
  import opened PingPongTsoTheorems

  // What a process reads: its own queued stores before memory.
  function ProducerView(t: TsoState): Memory { ApplyAll(t.mem, t.pbuf) }

  function ConsumerView(t: TsoState): Memory { ApplyAll(t.mem, t.cbuf) }

  // --- the measure ----------------------------------------------------------

  // A store weighs more than the work its arrival gives the other process.
  function Weight(st: Store): nat {
    match st
    case StoreRequest(f) => if f.up then 11 else 1
    case StoreResponse(_) => 1
    case StoreReady => 1
    case StoreStop => 3
  }

  function TotalWeight(b: seq<Store>): nat
    decreases |b|
  {
    if b == [] then 0 else Weight(b[0]) + TotalWeight(b[1..])
  }

  lemma {:induction false} WeightAppend(a: seq<Store>, st: Store)
    ensures TotalWeight(a + [st]) == TotalWeight(a) + Weight(st)
    decreases |a|
  {
    if a != [] {
      assert (a + [st])[1..] == a[1..] + [st];
      WeightAppend(a[1..], st);
    } else {
      assert [st][1..] == [];
    }
  }

  // Work left for the consumer before it is waiting (or gone).
  function ConsumerWork(c: ConsumerPc, seen: Memory): nat {
    match c
    case CPin => 5
    case CAnnounce => 4
    case CClear => 8
    case CRespond => 6
    case CHead => if seen.request.up then 10 else 1
    case CLoadStop => if seen.request.up then 10 else if seen.stop then 1 else 0
    case CLoadRequest => if seen.request.up then 9 else if seen.stop then 2 else 0
    case _ => 0
  }

  function ProducerWork(p: ProducerPc, seen: Memory): nat {
    match p
    case PAwaitReady => 16
    case PHead => 15
    case PStop => 5
    case PLoadStop => 3
    case PLoadResponse => if seen.response.up then 2 else 3
    case PClear => 1
    case PReap => 1
    case PDone => 0
  }

  // Each remaining handshake is worth twenty units.
  function ProducerShare(cfg: Config, t: TsoState): int {
    20 * (cfg.warmup + cfg.iterations - t.p.acked) + (if t.p.measuring then 0 else 1)
    + ProducerWork(t.p.pc, ProducerView(t)) + TotalWeight(t.pbuf)
  }

  function ConsumerShare(t: TsoState): int {
    ConsumerWork(t.c.pc, ConsumerView(t)) + TotalWeight(t.cbuf)
  }

  function TsoMeasure(cfg: Config, t: TsoState): int { ProducerShare(cfg, t) + ConsumerShare(t) }

  // What holds while no wait expires and nothing fails.
  ghost predicate Undisturbed(t: TsoState) {
    && t.p.error == NoError && t.c.pc != CKilled
    && (t.c.pc == CExited ==> t.mem.stop)
    && (t.p.pc == PDone ==> t.c.pc == CExited)
    && (t.p.pc != PAwaitReady ==> t.mem.ready)
    && (t.c.pc == CPin || t.c.pc == CAnnounce || t.mem.ready || StoreReady in t.cbuf)
  }

  // A state that only actions and drains can have led to.
  ghost predicate TsoSmooth(cfg: Config, t: TsoState) { TsoInv(cfg, t) && Undisturbed(t) }

  predicate Smoothly(choice: TsoChoice) { choice.Drain? || choice.choice.Step? }

  // --- the producer's actions -----------------------------------------------

  lemma AckedInRange(cfg: Config, t: TsoState)
    requires TsoInv(cfg, t)
    ensures t.p.acked <= cfg.warmup + cfg.iterations
    ensures t.p.pc == PClear ==> t.p.acked < cfg.warmup + cfg.iterations
  {
    hide ProducerBuffer, ConsumerBuffer, ApplyAll;
  }

  // An action of the producer lowers its share, or leaves all but its place.
  lemma ProducerTurn(cfg: Config, t: TsoState)
    requires t.p.pc == PLoadStop ==> !ProducerView(t).stop
    ensures var u := TsoExec(cfg, t, Do(Step(ProducerProcess)));
            && u.mem == t.mem && u.c == t.c && u.cbuf == t.cbuf
            && ProducerShare(cfg, u) <= ProducerShare(cfg, t)
            && (ProducerShare(cfg, u) < ProducerShare(cfg, t) || u.pbuf == t.pbuf)
  {
    hide ApplyAll;
    match t.p.pc {
      case PHead => WeightAppend(t.pbuf, StoreRequest(Flag(true, t.p.posted + 1)));
      case PClear => WeightAppend(t.pbuf, StoreResponse(Flag(false, t.p.heard)));
      case PStop => WeightAppend(t.pbuf, StoreStop);
      case _ =>
    }
    assert t.pbuf + [] == t.pbuf;
  }

  lemma InvHasBuffers(cfg: Config, t: TsoState)
    requires TsoInv(cfg, t)
    ensures Buffers(t)
  {
  }

  lemma ProducerKeepsUndisturbed(cfg: Config, t: TsoState)
    requires Undisturbed(t)
    requires t.p.pc == PLoadStop ==> !ProducerView(t).stop
    requires t.p.pc == PAwaitReady ==> ProducerView(t).ready == t.mem.ready
    ensures Undisturbed(TsoExec(cfg, t, Do(Step(ProducerProcess))))
  {
    hide ApplyAll;
  }

  lemma NoReadyQueued(t: TsoState)
    requires Buffers(t)
    ensures ApplyAll(t.mem, t.pbuf).ready == t.mem.ready
  {
    assert Avoids(t.pbuf, 2) by { hide ConsumerBuffer; }
    Untouched(t.mem, t.pbuf);
  }

  lemma ProducerKeepsSmooth(cfg: Config, t: TsoState)
    requires TsoSmooth(cfg, t)
    ensures TsoSmooth(cfg, TsoExec(cfg, t, Do(Step(ProducerProcess))))
    ensures t.p.pc == PLoadStop ==> !ProducerView(t).stop
  {
    hide TsoInv, TsoExec, Undisturbed, ApplyAll, Buffers;
    TsoStep(cfg, t, Do(Step(ProducerProcess)));
    if t.p.pc == PLoadStop {
      ProducerSeesNoStop(cfg, t);
    } else if t.p.pc == PAwaitReady {
      InvHasBuffers(cfg, t);
      NoReadyQueued(t);
    }
    ProducerKeepsUndisturbed(cfg, t);
  }

  // --- the consumer's actions -----------------------------------------------

  // No request waits while the consumer announces itself or answers one.
  lemma NoneWaiting(cfg: Config, t: TsoState)
    requires TsoInv(cfg, t) && (t.c.pc == CAnnounce || t.c.pc == CRespond)
    ensures !ConsumerView(t).request.up
  {
    var b := Issued(t);
    assert t.c.pc == CAnnounce ==> t.p.posted == 0;
    assert Avoids(b, 0);
    Untouched(ConsumerView(t), b);
    hide ApplyAll, Buffers, Issued;
  }

  // An action of the consumer lowers its share, or leaves all but its place.
  lemma ConsumerTurn(cfg: Config, t: TsoState)
    requires t.c.pc == CAnnounce || t.c.pc == CRespond ==> !ConsumerView(t).request.up
    ensures var u := TsoExec(cfg, t, Do(Step(ConsumerProcess)));
            && u.mem == t.mem && u.p == t.p && u.pbuf == t.pbuf
            && ConsumerShare(u) <= ConsumerShare(t)
            && (ConsumerShare(u) < ConsumerShare(t) || (u.cbuf == t.cbuf && Dead(u.c) == Dead(t.c)))
  {
    match t.c.pc {
      case CAnnounce =>
        WeightAppend(t.cbuf, StoreReady);
        ApplyAppend(t.mem, t.cbuf, [StoreReady]);
        ShortBuffer(ConsumerView(t), [StoreReady]);
      case CClear => WeightAppend(t.cbuf, StoreRequest(Flag(false, t.c.taken)));
      case CRespond =>
        var respond := StoreResponse(Flag(true, t.c.taken));
        WeightAppend(t.cbuf, respond);
        ApplyAppend(t.mem, t.cbuf, [respond]);
        ShortBuffer(ConsumerView(t), [respond]);
      case _ => assert t.cbuf + [] == t.cbuf;
    }
    hide ApplyAll, TotalWeight;
  }

  lemma ConsumerKeepsUndisturbed(cfg: Config, t: TsoState)
    requires Undisturbed(t) && (!Dead(t.c) ==> ConsumerView(t).stop == t.mem.stop)
    ensures Undisturbed(TsoExec(cfg, t, Do(Step(ConsumerProcess))))
  {
    hide ApplyAll;
  }

  lemma ConsumerKeepsSmooth(cfg: Config, t: TsoState)
    requires TsoSmooth(cfg, t)
    ensures TsoSmooth(cfg, TsoExec(cfg, t, Do(Step(ConsumerProcess))))
  {
    hide TsoInv, TsoExec, Undisturbed, ApplyAll;
    TsoStep(cfg, t, Do(Step(ConsumerProcess)));
    if !Dead(t.c) {
      ConsumerSeesStop(cfg, t);
    }
    ConsumerKeepsUndisturbed(cfg, t);
  }

  // --- the drains -----------------------------------------------------------

  // What a store's arrival adds to the work of the process that sees it.
  lemma ArrivalAtConsumer(c: ConsumerPc, m: Memory, st: Store)
    ensures ConsumerWork(c, Apply(m, st)) < ConsumerWork(c, m) + Weight(st)
  {
  }

  lemma ArrivalAtProducer(p: ProducerPc, m: Memory, st: Store)
    requires st.StoreResponse? ==> st.flag.up
    ensures ProducerWork(p, Apply(m, st)) <= ProducerWork(p, m)
  {
  }

  lemma DrainKeepsView(m: Memory, b: seq<Store>)
    requires b != []
    ensures ApplyAll(Apply(m, b[0]), b[1..]) == ApplyAll(m, b)
    ensures TotalWeight(b) == Weight(b[0]) + TotalWeight(b[1..])
  {
  }

  // A drain of a queued store lowers the measure.
  lemma ProducerDrains(cfg: Config, t: TsoState)
    requires TsoInv(cfg, t) && t.pbuf != []
    ensures TsoMeasure(cfg, TsoExec(cfg, t, Drain(ProducerProcess))) < TsoMeasure(cfg, t)
  {
    DrainProducerBuffers(cfg, t);
    hide TsoInv;
    Commute(t.mem, t.pbuf[0], t.cbuf);
    ArrivalAtConsumer(t.c.pc, ConsumerView(t), t.pbuf[0]);
    DrainKeepsView(t.mem, t.pbuf);
    hide ApplyAll, Weight, ConsumerWork, ProducerWork;
  }

  lemma OldestOfConsumer(t: TsoState)
    requires Buffers(t) && t.cbuf != []
    ensures Avoids(t.pbuf, Slot(t.cbuf[0])) && t.cbuf[0] != StoreStop
    ensures t.cbuf[0].StoreResponse? ==> t.cbuf[0].flag.up
  {
  }

  lemma ConsumerDrains(cfg: Config, t: TsoState)
    requires TsoInv(cfg, t) && t.cbuf != []
    ensures TsoMeasure(cfg, TsoExec(cfg, t, Drain(ConsumerProcess))) < TsoMeasure(cfg, t)
  {
    OldestOfConsumer(t);
    hide TsoInv;
    Commute(t.mem, t.cbuf[0], t.pbuf);
    ArrivalAtProducer(t.p.pc, ProducerView(t), t.cbuf[0]);
    DrainKeepsView(t.mem, t.cbuf);
    assert Weight(t.cbuf[0]) > 0;
    hide ApplyAll, Weight, ConsumerWork, ProducerWork;
  }

  lemma DrainsKeepUndisturbed(cfg: Config, t: TsoState, owner: Process)
    requires Undisturbed(t)
    ensures Undisturbed(TsoExec(cfg, t, Drain(owner)))
  {
  }

  lemma DrainsKeepSmooth(cfg: Config, t: TsoState, owner: Process)
    requires TsoSmooth(cfg, t)
    ensures TsoSmooth(cfg, TsoExec(cfg, t, Drain(owner)))
  {
    hide TsoInv, TsoExec, Undisturbed;
    TsoStep(cfg, t, Drain(owner));
    DrainsKeepUndisturbed(cfg, t, owner);
  }

  // --- one step -------------------------------------------------------------

  lemma TsoStepKeepsSmooth(cfg: Config, t: TsoState, choice: TsoChoice)
    requires TsoSmooth(cfg, t) && Smoothly(choice)
    ensures TsoSmooth(cfg, TsoExec(cfg, t, choice))
    ensures 0 <= TsoMeasure(cfg, TsoExec(cfg, t, choice)) <= TsoMeasure(cfg, t)
  {
    var u := TsoExec(cfg, t, choice);
    match choice {
      case Do(Step(ProducerProcess)) =>
        ProducerKeepsSmooth(cfg, t);
        ProducerTurn(cfg, t);
      case Do(Step(ConsumerProcess)) =>
        ConsumerKeepsSmooth(cfg, t);
        if t.c.pc == CAnnounce || t.c.pc == CRespond {
          NoneWaiting(cfg, t);
        }
        ConsumerTurn(cfg, t);
      case Drain(ProducerProcess) =>
        DrainsKeepSmooth(cfg, t, ProducerProcess);
        if t.pbuf != [] {
          ProducerDrains(cfg, t);
        }
      case Drain(ConsumerProcess) =>
        DrainsKeepSmooth(cfg, t, ConsumerProcess);
        if t.cbuf != [] {
          ConsumerDrains(cfg, t);
        }
      case _ =>
    }
    AckedInRange(cfg, u);
    hide TsoInv, ApplyAll;
  }

  // `choice` does real work: it lowers the measure.
  ghost predicate TsoProductive(cfg: Config, t: TsoState, choice: TsoChoice) {
    Smoothly(choice) && TsoMeasure(cfg, TsoExec(cfg, t, choice)) < TsoMeasure(cfg, t)
  }

  // Whether an action of a process is productive depends on its own part of the
  // state, and for the producer on whether the consumer is gone.
  lemma ProducerStepIsLocal(cfg: Config, t: TsoState, u: TsoState)
    requires u.mem == t.mem && u.p == t.p && u.pbuf == t.pbuf && Dead(u.c) == Dead(t.c)
    requires TsoProductive(cfg, t, Do(Step(ProducerProcess)))
    ensures TsoProductive(cfg, u, Do(Step(ProducerProcess)))
  {
    hide ApplyAll, TotalWeight, ProducerWork, ConsumerWork;
  }

  lemma ConsumerStepIsLocal(cfg: Config, t: TsoState, u: TsoState)
    requires u.mem == t.mem && u.c == t.c && u.cbuf == t.cbuf
    requires TsoProductive(cfg, t, Do(Step(ConsumerProcess)))
    ensures TsoProductive(cfg, u, Do(Step(ConsumerProcess)))
  {
    hide ApplyAll, TotalWeight, ProducerWork, ConsumerWork;
  }

  // A drain is productive exactly when there is something to drain.
  lemma DrainIsProductive(cfg: Config, t: TsoState, owner: Process)
    requires TsoInv(cfg, t)
    ensures TsoProductive(cfg, t, Drain(owner))
            <==> (if owner == ProducerProcess then t.pbuf else t.cbuf) != []
  {
    if t.pbuf != [] {
      ProducerDrains(cfg, t);
    }
    if t.cbuf != [] {
      ConsumerDrains(cfg, t);
    }
    hide TsoInv, TsoMeasure;
  }

  // The part of the state that decides whether the choice is productive.
  ghost predicate SameFor(choice: TsoChoice, t: TsoState, u: TsoState) {
    match choice
    case Do(Step(ProducerProcess)) =>
      u.mem == t.mem && u.p == t.p && u.pbuf == t.pbuf && Dead(u.c) == Dead(t.c)
    case Do(Step(ConsumerProcess)) => u.mem == t.mem && u.c == t.c && u.cbuf == t.cbuf
    case Drain(owner) =>
      (u.pbuf == [] <==> t.pbuf == []) && (u.cbuf == [] <==> t.cbuf == [])
    case _ => false
  }

  lemma StaysProductive(cfg: Config, t: TsoState, u: TsoState, choice: TsoChoice)
    requires TsoInv(cfg, t) && TsoInv(cfg, u)
    requires TsoProductive(cfg, t, choice) && SameFor(choice, t, u)
    ensures TsoProductive(cfg, u, choice)
  {
    hide TsoInv, TsoProductive;
    match choice {
      case Do(Step(ProducerProcess)) => ProducerStepIsLocal(cfg, t, u);
      case Do(Step(ConsumerProcess)) => ConsumerStepIsLocal(cfg, t, u);
      case Drain(owner) =>
        DrainIsProductive(cfg, t, owner);
        DrainIsProductive(cfg, u, owner);
      case _ =>
    }
  }

  lemma ProducerSpins(cfg: Config, t: TsoState)
    requires t.p.pc == PLoadStop ==> !ProducerView(t).stop
    requires !TsoProductive(cfg, t, Do(Step(ProducerProcess)))
    ensures var u := TsoExec(cfg, t, Do(Step(ProducerProcess)));
            u.mem == t.mem && u.c == t.c && u.cbuf == t.cbuf && u.pbuf == t.pbuf
  {
    ProducerTurn(cfg, t);
    hide TsoExec, ProducerShare;
  }

  lemma ConsumerSpins(cfg: Config, t: TsoState)
    requires t.c.pc == CAnnounce || t.c.pc == CRespond ==> !ConsumerView(t).request.up
    requires !TsoProductive(cfg, t, Do(Step(ConsumerProcess)))
    ensures var u := TsoExec(cfg, t, Do(Step(ConsumerProcess)));
            u.mem == t.mem && u.p == t.p && u.pbuf == t.pbuf && u.cbuf == t.cbuf && Dead(u.c) == Dead(t.c)
  {
    ConsumerTurn(cfg, t);
    hide TsoExec, ConsumerShare;
  }

  lemma EmptyDrain(cfg: Config, t: TsoState, owner: Process)
    requires (if owner == ProducerProcess then t.pbuf else t.cbuf) == []
    ensures TsoExec(cfg, t, Drain(owner)) == t
  {
  }

  // An unproductive action changes nothing that another action depends on.
  lemma SpinningIsHarmless(cfg: Config, t: TsoState, other: TsoChoice, choice: TsoChoice)
    requires TsoSmooth(cfg, t) && Smoothly(other) && Smoothly(choice) && other != choice
    requires !TsoProductive(cfg, t, other)
    ensures SameFor(choice, t, TsoExec(cfg, t, other))
  {
    hide TsoInv, TsoExec, TsoProductive, Undisturbed;
    match other {
      case Do(Step(ProducerProcess)) =>
        ProducerKeepsSmooth(cfg, t);
        ProducerSpins(cfg, t);
      case Do(Step(ConsumerProcess)) =>
        if t.c.pc == CAnnounce || t.c.pc == CRespond {
          NoneWaiting(cfg, t);
        }
        ConsumerSpins(cfg, t);
      case Drain(owner) =>
        DrainIsProductive(cfg, t, owner);
        EmptyDrain(cfg, t, owner);
      case _ =>
    }
  }

  lemma TsoProductiveStays(cfg: Config, t: TsoState, choice: TsoChoice, other: TsoChoice)
    requires TsoSmooth(cfg, t) && TsoProductive(cfg, t, choice) && Smoothly(other) && other != choice
    ensures TsoProductive(cfg, t, other) || TsoProductive(cfg, TsoExec(cfg, t, other), choice)
  {
    if !TsoProductive(cfg, t, other) {
      SpinningIsHarmless(cfg, t, other, choice);
      TsoStepKeepsSmooth(cfg, t, other);
      hide TsoInv, TsoExec, TsoProductive, SameFor;
      StaysProductive(cfg, t, TsoExec(cfg, t, other), choice);
    }
  }

  // --- somebody can always work ---------------------------------------------

  // With nothing queued, memory is what both processes see and what the
  // sequentially consistent machine would hold.
  ghost predicate Drained(t: TsoState) { t.pbuf == [] && t.cbuf == [] }

  // Where the current request is, read off the memory of a drained state.
  lemma DrainedPlaces(cfg: Config, t: TsoState)
    requires TsoSmooth(cfg, t) && Drained(t)
    ensures t.p.pc == PLoadResponse || t.p.pc == PLoadStop ==>
              t.mem.request.up || t.mem.response.up || t.c.pc == CRespond
    ensures t.p.pc == PLoadResponse || t.p.pc == PLoadStop || t.p.pc == PAwaitReady ==> !t.mem.stop
    ensures t.p.pc == PReap ==> t.mem.stop
    ensures t.mem.ready ==> t.c.pc != CPin && t.c.pc != CAnnounce
  {
    hide Buffers;
  }

  lemma ProducerLoadWorks(cfg: Config, t: TsoState)
    requires Drained(t)
    requires (t.p.pc == PAwaitReady && t.mem.ready) || (t.p.pc == PReap && Dead(t.c))
             || (t.p.pc == PLoadResponse && t.mem.response.up)
             || (t.p.pc == PLoadStop && t.mem.response.up && !t.mem.stop)
    ensures TsoProductive(cfg, t, Do(Step(ProducerProcess)))
  {
    assert t.pbuf + [] == t.pbuf;
  }

  lemma ProducerStoreWorks(cfg: Config, t: TsoState)
    requires t.p.pc == PHead || t.p.pc == PClear || t.p.pc == PStop
    ensures TsoProductive(cfg, t, Do(Step(ProducerProcess)))
  {
    ProducerTurn(cfg, t);
    hide TotalWeight, ApplyAll;
    if t.p.pc == PHead && t.p.i >= Bound(cfg, t.p) {
      assert t.pbuf + [] == t.pbuf;
    }
  }

  // A consumer that is neither gone nor idle can work.
  lemma ConsumerWorks(cfg: Config, t: TsoState)
    requires TsoInv(cfg, t) && Drained(t) && !Dead(t.c)
    requires t.mem.request.up || t.mem.stop || t.c.pc == CPin || t.c.pc == CAnnounce || t.c.pc == CRespond
    ensures TsoProductive(cfg, t, Do(Step(ConsumerProcess)))
  {
    if t.c.pc == CAnnounce || t.c.pc == CRespond {
      NoneWaiting(cfg, t);
    }
    ConsumerTurn(cfg, t);
    hide TsoInv, TotalWeight;
    assert t.cbuf + [] == t.cbuf;
  }

  lemma TsoSomeoneIsProductive(cfg: Config, t: TsoState) returns (choice: TsoChoice)
    requires TsoSmooth(cfg, t) && t.p.pc != PDone
    ensures TsoProductive(cfg, t, choice)
  {
    DrainIsProductive(cfg, t, ProducerProcess);
    DrainIsProductive(cfg, t, ConsumerProcess);
    if t.pbuf != [] {
      return Drain(ProducerProcess);
    }
    if t.cbuf != [] {
      return Drain(ConsumerProcess);
    }
    DrainedPlaces(cfg, t);
    hide TsoInv, TsoProductive;
    if t.p.pc == PHead || t.p.pc == PClear || t.p.pc == PStop {
      ProducerStoreWorks(cfg, t);
      return Do(Step(ProducerProcess));
    }
    if (t.p.pc == PAwaitReady && t.mem.ready) || (t.p.pc == PReap && Dead(t.c))
       || ((t.p.pc == PLoadResponse || t.p.pc == PLoadStop) && t.mem.response.up) {
      ProducerLoadWorks(cfg, t);
      return Do(Step(ProducerProcess));
    }
    ConsumerWorks(cfg, t);
    return Do(Step(ConsumerProcess));
  }

  // --- runs -----------------------------------------------------------------

  ghost predicate OnlySmooth(schedule: seq<TsoChoice>) {
    forall k :: 0 <= k < |schedule| ==> Smoothly(schedule[k])
  }

  lemma {:induction false} TsoStepsKeepSmooth(cfg: Config, t: TsoState, schedule: seq<TsoChoice>)
    requires TsoSmooth(cfg, t) && OnlySmooth(schedule)
    ensures TsoSmooth(cfg, TsoRun(cfg, t, schedule))
    ensures TsoMeasure(cfg, TsoRun(cfg, t, schedule)) <= TsoMeasure(cfg, t)
    decreases |schedule|
  {
    hide TsoExec, TsoSmooth, TsoMeasure;
    if schedule != [] {
      TsoStepKeepsSmooth(cfg, t, schedule[0]);
      TsoStepsKeepSmooth(cfg, TsoExec(cfg, t, schedule[0]), schedule[1..]);
    }
  }

  lemma {:induction false} TsoWorkGetsDone(cfg: Config, t: TsoState, choice: TsoChoice, schedule: seq<TsoChoice>)
    requires TsoSmooth(cfg, t) && OnlySmooth(schedule)
    requires TsoProductive(cfg, t, choice) && choice in schedule
    ensures TsoMeasure(cfg, TsoRun(cfg, t, schedule)) < TsoMeasure(cfg, t)
    decreases |schedule|
  {
    hide TsoExec, TsoSmooth, TsoMeasure;
    var u := TsoExec(cfg, t, schedule[0]);
    TsoStepKeepsSmooth(cfg, t, schedule[0]);
    TsoStepsKeepSmooth(cfg, u, schedule[1..]);
    if TsoMeasure(cfg, u) == TsoMeasure(cfg, t) {
      assert schedule[0] != choice;
      TsoProductiveStays(cfg, t, choice, schedule[0]);
      TsoWorkGetsDone(cfg, u, choice, schedule[1..]);
    }
  }

  // A round lets both processes act and both buffers drain at least once.
  ghost predicate TsoFairRound(round: seq<TsoChoice>) {
    && OnlySmooth(round)
    && forall who: Process :: Do(Step(who)) in round && Drain(who) in round
  }

  function TsoFlatten(rounds: seq<seq<TsoChoice>>): seq<TsoChoice>
    decreases |rounds|
  {
    if rounds == [] then [] else rounds[0] + TsoFlatten(rounds[1..])
  }

  lemma TsoDoneStays(cfg: Config, t: TsoState, choice: TsoChoice)
    requires t.p.pc == PDone
    ensures TsoExec(cfg, t, choice).p.pc == PDone
  {
    hide ApplyAll;
  }

  lemma {:induction false} TsoDoneStaysRun(cfg: Config, t: TsoState, schedule: seq<TsoChoice>)
    requires t.p.pc == PDone
    ensures TsoRun(cfg, t, schedule).p.pc == PDone
    decreases |schedule|
  {
    hide TsoExec;
    if schedule != [] {
      TsoDoneStays(cfg, t, schedule[0]);
      TsoDoneStaysRun(cfg, TsoExec(cfg, t, schedule[0]), schedule[1..]);
    }
  }

  lemma WorkIsLeft(cfg: Config, t: TsoState)
    requires TsoSmooth(cfg, t) && t.p.pc != PDone
    ensures TsoMeasure(cfg, t) > 0
  {
    AckedInRange(cfg, t);
    hide TsoInv, ApplyAll;
  }

  lemma ProductiveIsSmooth(cfg: Config, t: TsoState, choice: TsoChoice)
    requires TsoProductive(cfg, t, choice)
    ensures choice.Drain? || choice.choice.Step?
  {
  }

  lemma {:induction false} TsoRoundsFinish(cfg: Config, t: TsoState, rounds: seq<seq<TsoChoice>>)
    requires TsoSmooth(cfg, t)
    requires forall k :: 0 <= k < |rounds| ==> TsoFairRound(rounds[k])
    ensures TsoSmooth(cfg, TsoRun(cfg, t, TsoFlatten(rounds)))
    ensures |rounds| >= TsoMeasure(cfg, t) ==> TsoRun(cfg, t, TsoFlatten(rounds)).p.pc == PDone
    ensures t.p.pc == PDone ==> TsoRun(cfg, t, TsoFlatten(rounds)).p.pc == PDone
    decreases |rounds|
  {
    hide TsoExec, TsoSmooth, TsoMeasure, TsoProductive;
    if rounds == [] {
      if t.p.pc != PDone {
        WorkIsLeft(cfg, t);
      }
    } else {
      var round := rounds[0];
      var u := TsoRun(cfg, t, round);
      TsoStepsKeepSmooth(cfg, t, round);
      TsoRunAppend(cfg, t, round, TsoFlatten(rounds[1..]));
      TsoRoundsFinish(cfg, u, rounds[1..]);
      if t.p.pc == PDone {
        TsoDoneStaysRun(cfg, t, round);
      } else {
        var choice := TsoSomeoneIsProductive(cfg, t);
        assert choice in round by { ProductiveIsSmooth(cfg, t, choice); }
        TsoWorkGetsDone(cfg, t, choice, round);
      }
    }
  }

  lemma StartsSmooth(cfg: Config)
    ensures TsoSmooth(cfg, TSO_INITIAL)
    ensures TsoMeasure(cfg, TSO_INITIAL) == 20 * (cfg.warmup + cfg.iterations) + 22
  {
    InitialInv(cfg);
    assert Abstract(TSO_INITIAL) == INITIAL;
  }

  ghost predicate TsoComplete(cfg: Config, t: TsoState) {
    && t.p.pc == PDone && t.c.pc == CExited && t.p.error == NoError && t.pbuf == []
    && t.p.samples == Tickets(cfg.warmup, cfg.warmup + cfg.iterations)
    && t.c.served == t.p.acked == cfg.warmup + cfg.iterations
  }

  lemma TsoDoneIsComplete(cfg: Config, t: TsoState)
    requires TsoSmooth(cfg, t) && t.p.pc == PDone
    ensures TsoComplete(cfg, t)
  {
    hide ProducerBuffer, ConsumerBuffer, ApplyAll;
    assert Inv(cfg, Abstract(t)) && Abstract(t).p == t.p;
    assert t.p.samples == Tickets(cfg.warmup, cfg.warmup + cfg.iterations);
  }

  // If no wait expires and the pin succeeds, every schedule of enough rounds in
  // which both processes act and both buffers drain completes every handshake,
  // records every sample and ends both processes.
  lemma TsoFairRunsComplete(cfg: Config, rounds: seq<seq<TsoChoice>>)
    requires forall k :: 0 <= k < |rounds| ==> TsoFairRound(rounds[k])
    requires |rounds| >= 20 * (cfg.warmup + cfg.iterations) + 22
    ensures TsoComplete(cfg, TsoRun(cfg, TSO_INITIAL, TsoFlatten(rounds)))
  {
    StartsSmooth(cfg);
    TsoRoundsFinish(cfg, TSO_INITIAL, rounds);
    hide TsoSmooth, TsoMeasure;
    TsoDoneIsComplete(cfg, TsoRun(cfg, TSO_INITIAL, TsoFlatten(rounds)));
  }
}
