// What the ping-pong guarantees with store buffers: read off the real memory and
// the real buffers where it differs, carried over where it does not.

module PingPongTsoTheorems {
  import opened PingPong
  import opened PingPongTheorems
  import opened PingPongTso

  // --- safety ---------------------------------------------------------------

  lemma FlagsAreExclusive(cfg: Config, t: TsoState)
    requires TsoInv(cfg, t)
    ensures !(t.mem.request.up && t.mem.response.up)
    ensures t.p.pc == PClear ==> t.mem.response == Flag(true, t.p.posted) && t.p.heard == t.p.posted
  {
    var m, b := ApplyAll(t.mem, t.cbuf), Issued(t);
    if t.mem.request.up && t.mem.response.up {
      assert Avoids(t.cbuf, 0) && Avoids(t.cbuf, 1) && Avoids(b, 0);
      Untouched(t.mem, t.cbuf);
      Untouched(m, b);
      assert false;
    }
  }

  lemma PostIsIssued(m: Memory, t: TsoState)
    requires t.pbuf != [] && t.pbuf[0].StoreRequest? && t.pbuf[0].flag.up && WithoutStop(t.pbuf) == [t.pbuf[0]]
    ensures ApplyAll(m, Issued(t)).request.up
  {
    ShortBuffer(m, Issued(t));
    if Issued(t) == t.pbuf && t.pbuf != [t.pbuf[0]] {
      assert t.pbuf == [t.pbuf[0]] + [StoreStop];
      ShortBuffer(m, t.pbuf);
    }
  }

  // A queued post is alone or behind the clear of the response before it.
  lemma PostReachesCleared(cfg: Config, t: TsoState)
    requires TsoInv(cfg, t) && t.pbuf != [] && t.pbuf[0].StoreRequest?
    ensures !t.mem.request.up && !t.mem.response.up
    ensures t.pbuf[0] == StoreRequest(Flag(true, t.p.posted)) && t.p.posted == t.p.acked + 1
  {
    var b := Issued(t);
    assert WithoutStop(t.pbuf) == [t.pbuf[0]];
    assert Avoids(t.cbuf, 1) && Avoids(b, 1) by { hide Inv, Abstract; }
    Untouched(t.mem, t.cbuf);
    Untouched(ApplyAll(t.mem, t.cbuf), b);
    PostIsIssued(ApplyAll(t.mem, t.cbuf), t);
    hide ApplyAll, Issued, WithoutStop, ConsumerBuffer;
  }

  // The two flags are never up together.  Each store that reaches memory next
  // acts on the current request: the producer's post finds both flags down, its
  // clear finds the response up and no other response under way, the consumer's
  // clear erases the request being answered, and its response overwrites none.
  // The producer acknowledges only the answer to its current request.
  lemma TsoHandshakeSafety(cfg: Config, schedule: seq<TsoChoice>)
    ensures var t := TsoRun(cfg, TSO_INITIAL, schedule);
            && !(t.mem.request.up && t.mem.response.up)
            && (t.pbuf != [] && t.pbuf[0].StoreRequest? ==>
                  !t.mem.request.up && !t.mem.response.up && t.pbuf[0].flag == Flag(true, t.p.posted))
            && (t.pbuf != [] && t.pbuf[0].StoreResponse? ==> t.mem.response.up && Avoids(t.cbuf, 1))
            && (t.cbuf != [] && t.cbuf[0] == StoreRequest(Flag(false, t.c.taken)) ==>
                  t.mem.request == Flag(true, t.c.taken))
            && (t.cbuf != [] && t.cbuf[0].StoreResponse? ==> !t.mem.response.up)
            && (t.p.pc == PClear ==> t.mem.response == Flag(true, t.p.posted) && t.p.heard == t.p.posted)
  {
    TsoRefinesSc(cfg, schedule);
    var t := TsoRun(cfg, TSO_INITIAL, schedule);
    FlagsAreExclusive(cfg, t);
    if t.pbuf != [] && t.pbuf[0].StoreRequest? {
      PostReachesCleared(cfg, t);
    }
    hide Inv, Abstract;
  }

  // --- accounting -----------------------------------------------------------

  lemma TsoSampleAccounting(cfg: Config, schedule: seq<TsoChoice>)
    ensures var t := TsoRun(cfg, TSO_INITIAL, schedule);
            && t.p.acked <= t.c.served <= t.p.acked + 1
            && t.p.samples == (if t.p.acked <= cfg.warmup then [] else Tickets(cfg.warmup, t.p.acked))
  {
    TsoRefinesSc(cfg, schedule);
    SampleAccounting(cfg, MatchingRun(cfg, TSO_INITIAL, schedule));
  }

  lemma TsoOutcomeIsHonest(cfg: Config, schedule: seq<TsoChoice>)
    requires cfg.iterations > 0
    requires TsoRun(cfg, TSO_INITIAL, schedule).p.pc == PDone
    ensures Honest(cfg, TsoRun(cfg, TSO_INITIAL, schedule).p)
  {
    TsoRefinesSc(cfg, schedule);
    var t := TsoRun(cfg, TSO_INITIAL, schedule);
    EndingIsHonest(cfg, Abstract(t));
    hide Inv, Buffers;
    assert Finish(cfg, t.p) == Finish(cfg, Abstract(t).p);
  }

  // --- the order of events --------------------------------------------------

  // The events of a run, in the order in which the two processes issue them.
  function TsoEmitted(cfg: Config, t: TsoState, choice: TsoChoice): seq<Event> {
    match choice
    case Do(step) => Emitted(cfg, State(t.mem, t.p, t.c), step)
    case Drain(_) => []
  }

  function TsoEvents(cfg: Config, t: TsoState, schedule: seq<TsoChoice>): seq<Event>
    decreases |schedule|
  {
    if schedule == [] then []
    else TsoEmitted(cfg, t, schedule[0]) + TsoEvents(cfg, TsoExec(cfg, t, schedule[0]), schedule[1..])
  }

  lemma {:induction false} EventsAppend(cfg: Config, s: State, a: seq<Choice>, b: seq<Choice>)
    ensures Events(cfg, s, a + b) == Events(cfg, s, a) + Events(cfg, Run(cfg, s, a), b)
    decreases |a|
  {
    hide Emitted, Exec;
    if a == [] {
      assert a + b == b;
    } else {
      assert (a + b)[1..] == a[1..] + b;
      EventsAppend(cfg, Exec(cfg, s, a[0]), a[1..], b);
    }
  }

  lemma EventsOfOne(cfg: Config, s: State, choice: Choice)
    ensures Events(cfg, s, [choice]) == Emitted(cfg, s, choice)
    ensures Events(cfg, s, []) == []
  {
    hide Emitted, Exec;
    assert [choice][1..] == [];
  }

  // Raising a late stop and reaping emit nothing.
  lemma ShutdownIsSilent(cfg: Config, s: State, last: Choice)
    requires s.p.pc == PStop && !last.Step?
    ensures Events(cfg, s, [Step(ProducerProcess)]) == []
    ensures Events(cfg, s, [Step(ProducerProcess), last]) == []
  {
    EventsOfOne(cfg, s, Step(ProducerProcess));
    EventsAppend(cfg, s, [Step(ProducerProcess)], [last]);
    EventsOfOne(cfg, Run(cfg, s, [Step(ProducerProcess)]), last);
    assert [Step(ProducerProcess)] + [last] == [Step(ProducerProcess), last];
  }

  lemma CatchUpIsSilent(cfg: Config, t: TsoState, s: State)
    requires StopIsLate(t) ==> s.p.pc == PStop
    ensures Events(cfg, s, CatchUp(t)) == []
  {
    if StopIsLate(t) {
      ShutdownIsSilent(cfg, s, ReapFails);
    } else {
      EventsOfOne(cfg, s, ReapFails);
    }
  }

  lemma DepartureIsSilent(cfg: Config, t: TsoState, s: State, choice: Choice)
    requires choice == PinFails || choice == Timeout(ConsumerProcess)
    requires StopIsLate(t) ==> s.p.pc == PStop
    ensures Events(cfg, s, [choice] + CatchUp(t)) == []
  {
    EventsOfOne(cfg, s, choice);
    EventsAppend(cfg, s, [choice], CatchUp(t));
    assert [choice][1..] == [];
    assert Run(cfg, s, [choice]) == Exec(cfg, s, choice);
    CatchUpIsSilent(cfg, t, Exec(cfg, s, choice));
  }

  lemma ProducerStepEvents(cfg: Config, t: TsoState)
    requires StopIsLate(t) ==> Stopped(t.p)
    ensures var choice := Do(Step(ProducerProcess));
            Events(cfg, Abstract(t), Matching(t, choice)) == TsoEmitted(cfg, t, choice)
  {
    hide ApplyAll, Events, Issued;
    EventsOfOne(cfg, Abstract(t), Step(ProducerProcess));
  }

  lemma ConsumerStepEvents(cfg: Config, t: TsoState)
    ensures var choice := Do(Step(ConsumerProcess));
            Events(cfg, Abstract(t), Matching(t, choice)) == TsoEmitted(cfg, t, choice)
  {
    hide ApplyAll, Events, Issued, StopIsLate;
    EventsOfOne(cfg, Abstract(t), Step(ConsumerProcess));
    EventsOfOne(cfg, Abstract(t), Timeout(ConsumerProcess));
  }

  lemma OtherStepEvents(cfg: Config, t: TsoState, choice: TsoChoice)
    requires choice.Do? ==> !choice.choice.Step?
    requires StopIsLate(t) ==> Abstract(t).p.pc == PStop
    ensures Events(cfg, Abstract(t), Matching(t, choice)) == []
  {
    var s := Abstract(t);
    hide Abstract, ApplyAll, Events, Issued, StopIsLate, CatchUp;
    EventsOfOne(cfg, s, ReapFails);
    EventsOfOne(cfg, s, Timeout(ProducerProcess));
    match choice {
      case Do(Timeout(ConsumerProcess)) => DepartureIsSilent(cfg, t, s, Timeout(ConsumerProcess));
      case Do(PinFails) => DepartureIsSilent(cfg, t, s, PinFails);
      case Do(_) =>
        if StopIsLate(t) {
          ShutdownIsSilent(cfg, s, Timeout(ProducerProcess));
        }
      case Drain(_) => CatchUpIsSilent(cfg, t, s);
    }
  }

  // What a step issues is what its matching steps issue.
  lemma StepEvents(cfg: Config, t: TsoState, choice: TsoChoice)
    requires TsoInv(cfg, t)
    ensures Events(cfg, Abstract(t), Matching(t, choice)) == TsoEmitted(cfg, t, choice)
  {
    assert StopIsLate(t) ==> Stopped(t.p) && Abstract(t).p.pc == PStop;
    hide Inv, Buffers, Abstract, Matching, Events, StopIsLate;
    match choice {
      case Do(Step(ProducerProcess)) => ProducerStepEvents(cfg, t);
      case Do(Step(ConsumerProcess)) => ConsumerStepEvents(cfg, t);
      case _ => OtherStepEvents(cfg, t, choice);
    }
  }

  lemma {:induction false} RunEvents(cfg: Config, t: TsoState, schedule: seq<TsoChoice>)
    requires TsoInv(cfg, t)
    ensures TsoEvents(cfg, t, schedule) == Events(cfg, Abstract(t), MatchingRun(cfg, t, schedule))
    decreases |schedule|
  {
    hide Inv, Buffers, Exec, TsoExec, Abstract, Matching, TsoEmitted, Emitted;
    if schedule == [] {
      EventsOfOne(cfg, Abstract(t), PinFails);
    } else {
      var u := TsoExec(cfg, t, schedule[0]);
      TsoStep(cfg, t, schedule[0]);
      StepEvents(cfg, t, schedule[0]);
      RunEvents(cfg, u, schedule[1..]);
      EventsAppend(cfg, Abstract(t), Matching(t, schedule[0]), MatchingRun(cfg, u, schedule[1..]));
    }
  }

  // With store buffers, too, the events of every run are an initial part of the
  // ideal handshake.
  lemma TsoRunIsAHandshake(cfg: Config, schedule: seq<TsoChoice>)
    ensures var events := TsoEvents(cfg, TSO_INITIAL, schedule);
            forall k :: 0 <= k < |events| ==> events[k] == Ideal(k)
  {
    TsoRefinesSc(cfg, []);
    assert TsoRun(cfg, TSO_INITIAL, []) == TSO_INITIAL;
    RunEvents(cfg, TSO_INITIAL, schedule);
    assert Abstract(TSO_INITIAL) == INITIAL;
    hide Inv, Buffers, Abstract, Matching, Ideal;
    EveryRunIsAHandshake(cfg, MatchingRun(cfg, TSO_INITIAL, schedule));
  }

  // --- shutdown -------------------------------------------------------------

  lemma {:induction false} StopStays(m: Memory, b: seq<Store>)
    requires m.stop
    ensures ApplyAll(m, b).stop
    decreases |b|
  {
    if b != [] {
      StopStays(Apply(m, b[0]), b[1..]);
    }
  }

  // Once `stop` has reached memory, every choice keeps it there and uses up what
  // the consumer may still do.
  lemma TsoStopStep(cfg: Config, t: TsoState, choice: TsoChoice)
    requires t.mem.stop
    ensures var u := TsoExec(cfg, t, choice);
            && u.mem.stop
            && u.c.served + MayServe(u.c.pc) <= t.c.served + MayServe(t.c.pc)
            && StopRank(u.c.pc) <= StopRank(t.c.pc)
            && (choice == Do(Step(ConsumerProcess)) && !Dead(t.c) ==> StopRank(u.c.pc) < StopRank(t.c.pc))
            && (Dead(t.c) ==> Dead(u.c))
  {
    StopStays(t.mem, t.cbuf);
    hide ApplyAll;
  }

  lemma StopLeavesOneBuffer(cfg: Config, t: TsoState, choice: TsoChoice)
    requires TsoInv(cfg, t)
    ensures var u := TsoExec(cfg, t, choice);
            && (t.mem.stop ==> u.mem.stop && t.pbuf == [])
            && (!t.mem.stop && u.mem.stop <==>
                  choice == Drain(ProducerProcess) && t.pbuf != [] && t.pbuf[0] == StoreStop)
  {
    hide Inv, Abstract, ProducerBuffer;
    assert Avoids(t.cbuf, 3);
    hide ConsumerBuffer, ApplyAll;
  }

  // `stop` reaches memory once, from the producer's buffer.
  lemma TsoStopIsRaisedOnce(cfg: Config, before: seq<TsoChoice>, choice: TsoChoice)
    ensures var t := TsoRun(cfg, TSO_INITIAL, before);
            var u := TsoExec(cfg, t, choice);
            && (t.mem.stop ==> u.mem.stop && t.pbuf == [])
            && (!t.mem.stop && u.mem.stop <==>
                  choice == Drain(ProducerProcess) && t.pbuf != [] && t.pbuf[0] == StoreStop)
  {
    hide *;
    TsoRefinesSc(cfg, before);
    StopLeavesOneBuffer(cfg, TsoRun(cfg, TSO_INITIAL, before), choice);
  }

  function TsoCountSteps(who: Process, schedule: seq<TsoChoice>): nat
    decreases |schedule|
  {
    if schedule == [] then 0
    else (if schedule[0] == Do(Step(who)) then 1 else 0) + TsoCountSteps(who, schedule[1..])
  }

  lemma {:induction false} TsoAfterStop(cfg: Config, t: TsoState, schedule: seq<TsoChoice>)
    requires t.mem.stop
    ensures var u := TsoRun(cfg, t, schedule);
            && u.c.served + MayServe(u.c.pc) <= t.c.served + MayServe(t.c.pc)
            && (TsoCountSteps(ConsumerProcess, schedule) >= StopRank(t.c.pc) || Dead(t.c) ==> Dead(u.c))
    decreases |schedule|
  {
    if schedule != [] {
      TsoStopStep(cfg, t, schedule[0]);
      hide TsoExec;
      TsoAfterStop(cfg, TsoExec(cfg, t, schedule[0]), schedule[1..]);
    }
  }

  lemma {:induction false} TsoRunAppend(cfg: Config, t: TsoState, a: seq<TsoChoice>, b: seq<TsoChoice>)
    ensures TsoRun(cfg, t, a + b) == TsoRun(cfg, TsoRun(cfg, t, a), b)
    decreases |a|
  {
    hide TsoExec;
    if a == [] {
      assert a + b == b;
    } else {
      assert (a + b)[1..] == a[1..] + b;
      TsoRunAppend(cfg, TsoExec(cfg, t, a[0]), a[1..], b);
    }
  }

  // From then on the consumer serves at most one more request and is gone after
  // four of its own steps, whenever its own stores drain.
  lemma TsoShutdownIsBounded(cfg: Config, before: seq<TsoChoice>, after: seq<TsoChoice>)
    requires TsoRun(cfg, TSO_INITIAL, before).mem.stop
    ensures var t := TsoRun(cfg, TSO_INITIAL, before);
            var u := TsoRun(cfg, TSO_INITIAL, before + after);
            && u.c.served <= t.c.served + 1
            && (TsoCountSteps(ConsumerProcess, after) >= 4 ==> Dead(u.c))
  {
    TsoRunAppend(cfg, TSO_INITIAL, before, after);
    TsoAfterStop(cfg, TsoRun(cfg, TSO_INITIAL, before), after);
  }
}
