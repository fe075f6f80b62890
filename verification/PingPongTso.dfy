// The same two processes on a machine where each one queues its stores in a
// FIFO buffer and reads its own queued stores before memory (x86-TSO).  Every
// step of this machine is matched by steps of the sequentially consistent one.

module PingPongTso {
  import opened PingPong
  import opened PingPongTheorems

  datatype TsoState = TsoState(
    mem: Memory, p: Producer, c: Consumer, pbuf: seq<Store>, cbuf: seq<Store>)

  datatype TsoChoice =
    | Do(choice: Choice)      // an action of a process or of the environment
    | Drain(owner: Process)   // the oldest queued store of `owner` reaches memory

  const TSO_INITIAL: TsoState := TsoState(INITIAL.mem, INITIAL.p, INITIAL.c, [], [])

  function TsoExec(cfg: Config, t: TsoState, choice: TsoChoice): TsoState {
    match choice
    case Do(Step(ProducerProcess)) =>
      if t.p.pc == PReap then t.(p := Reaped(t.p, t.c))
      else t.(p := ProducerLocal(cfg, t.p, ApplyAll(t.mem, t.pbuf)),
              pbuf := t.pbuf + ProducerStores(cfg, t.p))
    case Do(Step(ConsumerProcess)) =>
      t.(c := ConsumerLocal(t.c, ApplyAll(t.mem, t.cbuf)), cbuf := t.cbuf + ConsumerStores(t.c))
    case Do(other) => var (p, c) := Environment(t.p, t.c, other); t.(p := p, c := c)
    case Drain(ProducerProcess) =>
      if t.pbuf == [] then t else t.(mem := Apply(t.mem, t.pbuf[0]), pbuf := t.pbuf[1..])
    case Drain(ConsumerProcess) =>
      if t.cbuf == [] then t else t.(mem := Apply(t.mem, t.cbuf[0]), cbuf := t.cbuf[1..])
  }

  function TsoRun(cfg: Config, t: TsoState, schedule: seq<TsoChoice>): TsoState
    decreases |schedule|
  {
    if schedule == [] then t else TsoRun(cfg, TsoExec(cfg, t, schedule[0]), schedule[1..])
  }

  // --- the abstraction ------------------------------------------------------

  function WithoutStop(buffer: seq<Store>): seq<Store> {
    if buffer != [] && buffer[|buffer| - 1] == StoreStop then buffer[..|buffer| - 1] else buffer
  }

  // A queued `stop` counts as not yet issued while the consumer can still read it.
  predicate StopIsLate(t: TsoState) {
    t.pbuf != [] && t.pbuf[|t.pbuf| - 1] == StoreStop && !Dead(t.c)
  }

  // The producer's queued stores that count as issued.
  function Issued(t: TsoState): seq<Store> {
    if StopIsLate(t) then WithoutStop(t.pbuf) else t.pbuf
  }

  // Requests and responses count as stored when issued, `stop` when it reaches
  // the consumer; the two halves of a spinning wait count as one place.
  function Abstract(t: TsoState): State {
    State(
      ApplyAll(ApplyAll(t.mem, t.cbuf), Issued(t)),
      (if StopIsLate(t) then t.p.(pc := PStop)
       else if t.p.pc == PLoadStop then t.p.(pc := PLoadResponse) else t.p),
      if t.c.pc == CLoadStop then t.c.(pc := CLoadRequest) else t.c)
  }

  // The producer's steps from PStop to where it really is, once `stop` counts as issued.
  function CatchUp(t: TsoState): seq<Choice> {
    if !StopIsLate(t) then []
    else if t.p.pc == PDone then [Step(ProducerProcess), ReapFails]
    else [Step(ProducerProcess)]
  }

  // The actions of the sequentially consistent machine that match one step.
  function Matching(t: TsoState, choice: TsoChoice): seq<Choice> {
    match choice
    case Do(Step(ProducerProcess)) =>
      (match t.p.pc
       case PAwaitReady => if ApplyAll(t.mem, t.pbuf).ready then [Step(ProducerProcess)] else []
       case PLoadResponse => if ApplyAll(t.mem, t.pbuf).response.up then [Step(ProducerProcess)] else []
       case PLoadStop => []
       case PStop => if Dead(t.c) then [Step(ProducerProcess)] else []
       case PReap => if Dead(t.c) then [Step(ProducerProcess)] else []
       case PDone => []
       case _ => [Step(ProducerProcess)])
    case Do(Step(ConsumerProcess)) =>
      var seen := ApplyAll(t.mem, t.cbuf);
      (match t.c.pc
       case CLoadRequest => if seen.request.up then [Step(ConsumerProcess)] else []
       case CLoadStop => if seen.stop then [Timeout(ConsumerProcess)] else []
       case _ => [Step(ConsumerProcess)])
    case Do(Timeout(ConsumerProcess)) =>
      if t.c.pc == CLoadRequest then [Timeout(ConsumerProcess)] + CatchUp(t) else []
    case Do(PinFails) => if t.c.pc == CPin then [PinFails] + CatchUp(t) else []
    case Do(Timeout(ProducerProcess)) =>
      if t.p.pc == PLoadStop then []
      else if StopIsLate(t) && t.p.pc == PReap then [Step(ProducerProcess), Timeout(ProducerProcess)]
      else if StopIsLate(t) then []
      else [Timeout(ProducerProcess)]
    case Do(ReapFails) => if StopIsLate(t) then [] else [ReapFails]
    case Drain(ProducerProcess) =>
      if |t.pbuf| == 1 && StopIsLate(t) then CatchUp(t) else []
    case Drain(ConsumerProcess) => []
  }

  // --- what the buffers can hold --------------------------------------------

  predicate ClearsResponse(st: Store) { st.StoreResponse? && !st.flag.up }

  // Between two waits the producer issues clear-response, set-request, stop, in
  // this order; the buffer is a contiguous part of that list.
  ghost predicate ProducerBuffer(t: TsoState) {
    var post := StoreRequest(Flag(true, t.p.posted));
    var b := WithoutStop(t.pbuf);
    && (b == [] || (b == [post] && t.p.posted == t.p.acked + 1)
        || (|b| == 1 && ClearsResponse(b[0]) && t.p.posted == t.p.acked > 0)
        || (|b| == 2 && ClearsResponse(b[0]) && b[1] == post && t.p.posted == t.p.acked + 1))
    && (b != t.pbuf ==> Stopped(t.p))
  }

  // The consumer issues ready, or clear-request then set-response, and the
  // latter two only while the producer has nothing but `stop` queued.
  ghost predicate ConsumerBuffer(t: TsoState) {
    var clear := StoreRequest(Flag(false, t.c.taken));
    var respond := StoreResponse(Flag(true, t.c.taken));
    && (|| t.cbuf == [] || t.cbuf == [StoreReady]
        || t.cbuf == [clear] || t.cbuf == [respond] || t.cbuf == [clear, respond])
    && (t.cbuf == [StoreReady] ==>
          !t.mem.ready && (t.p.pc == PAwaitReady || t.p.error == NotReady))
    && (t.cbuf != [] && t.cbuf[0] == clear ==>
          t.mem.request == Flag(true, t.c.taken) && !t.mem.response.up)
    && (t.cbuf == [clear] ==> t.c.pc == CRespond || t.c.pc == CKilled)
    && (t.cbuf != [] && t.cbuf[|t.cbuf| - 1] == respond ==> !t.mem.response.up)
    && (t.cbuf != [] && t.cbuf[0] != StoreReady ==> WithoutStop(t.pbuf) == [])
    && (t.c.pc == CClear ==>
          t.cbuf == [] && WithoutStop(t.pbuf) == [] && t.mem.request == Flag(true, t.c.taken))
    && (t.c.pc == CRespond ==> WithoutStop(t.pbuf) == [] && (t.cbuf == [] || t.cbuf == [clear]))
    && ((t.c.pc == CPin || t.c.pc == CAnnounce) ==> t.cbuf == [])
  }

  ghost predicate Buffers(t: TsoState) {
    && ProducerBuffer(t) && ConsumerBuffer(t)
    // a queued request finds the flag in memory down, a queued clear finds it up
    && (forall k :: 0 <= k < |t.pbuf| && t.pbuf[k].StoreRequest? ==> !t.mem.request.up)
    && (forall k :: 0 <= k < |t.pbuf| && t.pbuf[k].StoreResponse? ==> t.mem.response.up)
    // an acknowledgement begins with nothing queued
    && (t.p.pc == PClear ==> t.pbuf == [] && t.cbuf == [] && t.mem.response.up)
    // stop reaches memory last
    && (t.mem.stop ==> t.pbuf == [])
    && (t.mem.stop || WithoutStop(t.pbuf) != t.pbuf <==> Stopped(t.p))
  }

  ghost predicate TsoInv(cfg: Config, t: TsoState) {
    Inv(cfg, Abstract(t)) && Buffers(t)
  }

  // --- buffers and memory ---------------------------------------------------

  function Slot(st: Store): int {
    match st
    case StoreRequest(_) => 0
    case StoreResponse(_) => 1
    case StoreReady => 2
    case StoreStop => 3
  }

  ghost predicate Avoids(b: seq<Store>, slot: int) {
    forall k :: 0 <= k < |b| ==> Slot(b[k]) != slot
  }

  // A buffer changes only the flags it holds stores for.
  lemma {:induction false} Untouched(m: Memory, b: seq<Store>)
    ensures Avoids(b, 0) ==> ApplyAll(m, b).request == m.request
    ensures Avoids(b, 1) ==> ApplyAll(m, b).response == m.response
    ensures Avoids(b, 2) ==> ApplyAll(m, b).ready == m.ready
    ensures Avoids(b, 3) ==> ApplyAll(m, b).stop == m.stop
    decreases |b|
  {
    if b != [] {
      Untouched(Apply(m, b[0]), b[1..]);
    }
  }

  lemma {:induction false} ApplyAppend(m: Memory, a: seq<Store>, b: seq<Store>)
    ensures ApplyAll(m, a + b) == ApplyAll(ApplyAll(m, a), b)
    decreases |a|
  {
    if a == [] {
      assert a + b == b;
    } else {
      assert (a + b)[1..] == a[1..] + b;
      ApplyAppend(Apply(m, a[0]), a[1..], b);
    }
  }

  // A store passes a buffer that holds no store to the same flag.
  lemma {:induction false} Commute(m: Memory, st: Store, b: seq<Store>)
    requires Avoids(b, Slot(st))
    ensures ApplyAll(Apply(m, st), b) == Apply(ApplyAll(m, b), st)
    decreases |b|
  {
    if b != [] {
      assert Slot(b[0]) != Slot(st);
      assert Apply(Apply(m, st), b[0]) == Apply(Apply(m, b[0]), st);
      Commute(Apply(m, b[0]), st, b[1..]);
    }
  }

  // The buffers hold at most three stores, the consumer's at most two.
  lemma ShortBuffer(m: Memory, b: seq<Store>)
    ensures b == [] ==> ApplyAll(m, b) == m
    ensures |b| == 1 ==> ApplyAll(m, b) == Apply(m, b[0])
    ensures |b| == 2 ==> ApplyAll(m, b) == Apply(Apply(m, b[0]), b[1])
  {
    if |b| == 2 {
      assert ApplyAll(Apply(m, b[0]), b[1..]) == Apply(Apply(m, b[0]), b[1]);
    }
  }

  // A late stop is the last of the queued stores.
  lemma StopIsLast(t: TsoState, m: Memory)
    requires StopIsLate(t)
    ensures ApplyAll(m, t.pbuf) == Apply(ApplyAll(m, Issued(t)), StoreStop)
  {
    assert t.pbuf == Issued(t) + [StoreStop];
    ApplyAppend(m, Issued(t), [StoreStop]);
    ShortBuffer(ApplyAll(m, Issued(t)), [StoreStop]);
  }

  // --- the simulation -------------------------------------------------------

  ghost predicate Simulates(cfg: Config, t: TsoState, choice: TsoChoice) {
    var u := TsoExec(cfg, t, choice);
    Abstract(u) == Run(cfg, Abstract(t), Matching(t, choice)) && Buffers(u)
  }

  lemma DrainConsumerSimulates(cfg: Config, t: TsoState)
    requires TsoInv(cfg, t)
    ensures Simulates(cfg, t, Drain(ConsumerProcess))
  {
    var u := TsoExec(cfg, t, Drain(ConsumerProcess));
    assert Abstract(u) == Abstract(t) by { hide Inv, Buffers; }
    hide Inv, Abstract;
    assert ProducerBuffer(u) by { hide ConsumerBuffer; }
    assert ConsumerBuffer(u) by { hide ProducerBuffer, WithoutStop; }
  }

  lemma DrainProducerBuffers(cfg: Config, t: TsoState)
    requires TsoInv(cfg, t) && t.pbuf != []
    ensures Buffers(TsoExec(cfg, t, Drain(ProducerProcess)))
    ensures Avoids(t.cbuf, Slot(t.pbuf[0]))
  {
    var u := TsoExec(cfg, t, Drain(ProducerProcess));
    hide Inv, Abstract;
    assert ProducerBuffer(u) by { hide ConsumerBuffer; }
    assert ConsumerBuffer(u) by { hide ProducerBuffer; }
  }

  lemma RunOne(cfg: Config, s: State, choice: Choice)
    ensures Run(cfg, s, [choice]) == Exec(cfg, s, choice)
  {
    assert [choice][1..] == [];
  }

  // From the abstract PStop, raising stop leads to where the producer really is.
  lemma CatchesUp(cfg: Config, t: TsoState, s: State)
    requires StopIsLate(t) && Stopped(t.p) && s.p == t.p.(pc := PStop)
    ensures Run(cfg, s, CatchUp(t)) == s.(mem := Apply(s.mem, StoreStop), p := t.p)
  {
    StoresAreShort(cfg, s);
    var s1 := Exec(cfg, s, Step(ProducerProcess));
    assert s1 == s.(mem := Apply(s.mem, StoreStop), p := t.p.(pc := PReap));
    assert Run(cfg, s1, []) == s1;
    if t.p.pc == PDone {
      assert Exec(cfg, s1, ReapFails) == s1.(p := t.p);
      assert CatchUp(t)[1..] == [ReapFails];
      RunOne(cfg, s1, ReapFails);
    }
  }

  lemma RunNone(cfg: Config, s: State)
    ensures Run(cfg, s, []) == s
  {
  }

  lemma StopArrives(cfg: Config, t: TsoState)
    requires |t.pbuf| == 1 && StopIsLate(t) && Stopped(t.p) && Avoids(t.cbuf, 3)
    ensures var u := TsoExec(cfg, t, Drain(ProducerProcess));
            Abstract(u) == Run(cfg, Abstract(t), CatchUp(t))
  {
    Commute(t.mem, StoreStop, t.cbuf);
    CatchesUp(cfg, t, Abstract(t));
  }

  lemma DrainProducerSimulates(cfg: Config, t: TsoState)
    requires TsoInv(cfg, t)
    ensures Simulates(cfg, t, Drain(ProducerProcess))
  {
    var u := TsoExec(cfg, t, Drain(ProducerProcess));
    if t.pbuf != [] {
      DrainProducerBuffers(cfg, t);
      if |t.pbuf| == 1 && StopIsLate(t) {
        StopArrives(cfg, t);
      } else {
        Commute(t.mem, t.pbuf[0], t.cbuf);
        hide Inv, Buffers, ProducerBuffer, ConsumerBuffer;
        assert StopIsLate(t) ==> WithoutStop(t.pbuf)[1..] == WithoutStop(u.pbuf);
        assert Abstract(u) == Abstract(t);
      }
    }
  }

  // What a process reads, with its own stores forwarded, agrees with the
  // abstract memory wherever its reading leads anywhere.
  lemma ProducerSeesReady(cfg: Config, t: TsoState)
    requires TsoInv(cfg, t) && t.p.pc == PAwaitReady
    ensures ApplyAll(t.mem, t.pbuf).ready ==> Abstract(t).mem.ready
  {
    assert WithoutStop(t.pbuf) == t.pbuf;
    Untouched(t.mem, t.pbuf);
    assert t.mem.ready ==> Avoids(t.cbuf, 2);
    Untouched(t.mem, t.cbuf);
    Untouched(ApplyAll(t.mem, t.cbuf), t.pbuf);
  }

  lemma ProducerSeesResponse(cfg: Config, t: TsoState)
    requires TsoInv(cfg, t) && t.p.pc == PLoadResponse
    requires ApplyAll(t.mem, t.pbuf).response.up
    ensures t.pbuf == [] && t.cbuf == []
  {
    assert WithoutStop(t.pbuf) == t.pbuf;
    assert Abstract(t).mem == ApplyAll(ApplyAll(t.mem, t.cbuf), t.pbuf);
    if t.pbuf != [] {
      var post := StoreRequest(Flag(true, t.p.posted));
      if |t.pbuf| == 2 {
        assert t.pbuf == [t.pbuf[0]] + [post];
        ApplyAppend(t.mem, [t.pbuf[0]], [post]);
        assert false;
      } else {
        assert false;
      }
    }
    assert t.mem.response.up;
    if t.cbuf != [] {
      Untouched(t.mem, t.cbuf);
      assert false;
    }
  }

  lemma ProducerSeesNoStop(cfg: Config, t: TsoState)
    requires TsoInv(cfg, t) && t.p.pc == PLoadStop
    ensures !ApplyAll(t.mem, t.pbuf).stop
  {
    assert WithoutStop(t.pbuf) == t.pbuf;
    Untouched(t.mem, t.pbuf);
  }

  lemma ConsumerSeesRequest(cfg: Config, t: TsoState)
    requires TsoInv(cfg, t) && t.c.pc == CLoadRequest
    requires ApplyAll(t.mem, t.cbuf).request.up
    ensures t.cbuf == [] && WithoutStop(t.pbuf) == []
  {
    var b := WithoutStop(t.pbuf);
    var m := ApplyAll(t.mem, t.cbuf);
    assert b == Issued(t);
    assert t.cbuf == [StoreReady] ==> t.p.posted == 0 && Avoids(b, 0);
    ShortBuffer(t.mem, t.cbuf);
    Untouched(m, b);
    hide ApplyAll;
    if t.cbuf != [] {
      assert false;
    }
    if b != [] {
      assert false;
    }
  }

  lemma ConsumerSeesStop(cfg: Config, t: TsoState)
    requires TsoInv(cfg, t) && !Dead(t.c)
    ensures ApplyAll(t.mem, t.cbuf).stop == t.mem.stop == Abstract(t).mem.stop
  {
    assert Avoids(t.cbuf, 3);
    Untouched(t.mem, t.cbuf);
    var b := Issued(t);
    assert Avoids(b, 3);
    Untouched(ApplyAll(t.mem, t.cbuf), b);
  }

  lemma StoresStayIssued(cfg: Config, t: TsoState, u: TsoState)
    requires !StopIsLate(t) && (t.p.pc == PHead || t.p.pc == PClear)
    requires u.pbuf == t.pbuf + ProducerStores(cfg, t.p) && u.c == t.c
    ensures !StopIsLate(u) && Issued(t) == t.pbuf && Issued(u) == u.pbuf
  {
  }

  // The producer's actions.  Stores join the end of its buffer, so the abstract
  // memory receives them at once; only `stop` waits.
  lemma ProducerStoresSimulate(cfg: Config, t: TsoState)
    requires !StopIsLate(t) && (t.p.pc == PHead || t.p.pc == PClear)
    ensures var u := TsoExec(cfg, t, Do(Step(ProducerProcess)));
            !StopIsLate(u) && Abstract(u) == Exec(cfg, Abstract(t), Step(ProducerProcess))
  {
    var u := TsoExec(cfg, t, Do(Step(ProducerProcess)));
    var stores := ProducerStores(cfg, t.p);
    assert u.pbuf == t.pbuf + stores;
    StoresStayIssued(cfg, t, u);
    ApplyAppend(ApplyAll(t.mem, t.cbuf), t.pbuf, stores);
    hide ApplyAll, Apply, StopIsLate, Issued;
  }

  lemma QueuesStop(cfg: Config, t: TsoState)
    requires t.p.pc == PStop
    ensures TsoExec(cfg, t, Do(Step(ProducerProcess)))
            == t.(p := t.p.(pc := PReap), pbuf := t.pbuf + [StoreStop])
  {
  }

  lemma StopIssued(t: TsoState, u: TsoState)
    requires !StopIsLate(t) && u.pbuf == t.pbuf + [StoreStop] && u.c == t.c
    ensures Issued(t) == t.pbuf
    ensures StopIsLate(u) == !Dead(t.c)
    ensures Issued(u) == if Dead(t.c) then t.pbuf + [StoreStop] else t.pbuf
  {
  }

  lemma ProducerStopSimulates(cfg: Config, t: TsoState)
    requires !StopIsLate(t) && t.p.pc == PStop
    ensures var u := TsoExec(cfg, t, Do(Step(ProducerProcess)));
            Abstract(u) == if Dead(t.c) then Exec(cfg, Abstract(t), Step(ProducerProcess)) else Abstract(t)
  {
    var u := TsoExec(cfg, t, Do(Step(ProducerProcess)));
    QueuesStop(cfg, t);
    StopIssued(t, u);
    StoresAreShort(cfg, Abstract(t));
    ApplyAppend(ApplyAll(t.mem, t.cbuf), t.pbuf, [StoreStop]);
    ShortBuffer(ApplyAll(ApplyAll(t.mem, t.cbuf), t.pbuf), [StoreStop]);
    hide ApplyAll, Apply, StopIsLate, Issued, TsoExec;
  }

  lemma ProducerLoadsSimulate(cfg: Config, t: TsoState)
    requires !StopIsLate(t) && !Stopped(t.p)
    requires t.p.pc == PAwaitReady || t.p.pc == PLoadResponse || t.p.pc == PLoadStop
    requires var seen := ApplyAll(t.mem, t.pbuf);
             && (t.p.pc == PAwaitReady && seen.ready ==> Abstract(t).mem.ready)
             && (t.p.pc == PLoadResponse && seen.response.up ==> t.pbuf == [] && t.cbuf == [])
             && (t.p.pc == PLoadStop ==> !seen.stop)
    ensures var u := TsoExec(cfg, t, Do(Step(ProducerProcess)));
            Abstract(u) == Run(cfg, Abstract(t), Matching(t, Do(Step(ProducerProcess))))
  {
    var u := TsoExec(cfg, t, Do(Step(ProducerProcess)));
    RunNone(cfg, Abstract(t));
    RunOne(cfg, Abstract(t), Step(ProducerProcess));
    StoresAreShort(cfg, Abstract(t));
    assert t.pbuf == [] && t.cbuf == [] ==> ApplyAll(t.mem, t.pbuf) == Abstract(t).mem;
    hide ApplyAll, Apply, WithoutStop, Run;
    assert u == t.(p := ProducerLocal(cfg, t.p, ApplyAll(t.mem, t.pbuf))) by { assert t.pbuf + [] == t.pbuf; }
    assert !StopIsLate(u) && Issued(u) == Issued(t) == t.pbuf;
    hide TsoExec, StopIsLate, Issued;
  }

  lemma ProducerReapSimulates(cfg: Config, t: TsoState)
    requires Stopped(t.p)
    ensures var u := TsoExec(cfg, t, Do(Step(ProducerProcess)));
            Abstract(u) == Run(cfg, Abstract(t), Matching(t, Do(Step(ProducerProcess))))
  {
    var u := TsoExec(cfg, t, Do(Step(ProducerProcess)));
    assert u == t.(p := Reaped(t.p, t.c)) by { assert t.pbuf + [] == t.pbuf; }
    RunOne(cfg, Abstract(t), Step(ProducerProcess));
    RunNone(cfg, Abstract(t));
    hide ApplyAll, Apply, Run, TsoExec;
    if StopIsLate(t) {
      assert Abstract(u) == Abstract(t);
    } else {
      assert !StopIsLate(u) && Issued(u) == Issued(t) == t.pbuf;
      StoresAreShort(cfg, Abstract(t));
      hide StopIsLate, Issued;
    }
  }

  lemma ProducerSimulates(cfg: Config, t: TsoState)
    requires TsoInv(cfg, t)
    ensures var u := TsoExec(cfg, t, Do(Step(ProducerProcess)));
            Abstract(u) == Run(cfg, Abstract(t), Matching(t, Do(Step(ProducerProcess))))
  {
    assert StopIsLate(t) ==> Stopped(t.p);
    if Stopped(t.p) {
      ProducerReapSimulates(cfg, t);
    } else if t.p.pc == PHead || t.p.pc == PClear {
      ProducerStoresSimulate(cfg, t);
      hide Inv, Buffers, Exec, TsoExec, Abstract;
      RunOne(cfg, Abstract(t), Step(ProducerProcess));
    } else if t.p.pc == PStop {
      ProducerStopSimulates(cfg, t);
      hide Inv, Buffers, Exec, TsoExec, Abstract;
      RunOne(cfg, Abstract(t), Step(ProducerProcess));
    } else {
      if t.p.pc == PAwaitReady { ProducerSeesReady(cfg, t); }
      if t.p.pc == PLoadStop { ProducerSeesNoStop(cfg, t); }
      if t.p.pc == PLoadResponse && ApplyAll(t.mem, t.pbuf).response.up { ProducerSeesResponse(cfg, t); }
      ProducerLoadsSimulate(cfg, t);
    }
  }

  // Moves of the program counters that leave the buffers and the counts alone.
  lemma ControlMoves(t: TsoState, u: TsoState)
    requires Buffers(t)
    requires u.mem == t.mem && u.pbuf == t.pbuf && u.cbuf == t.cbuf
    requires u.p.posted == t.p.posted && u.p.acked == t.p.acked && u.c.taken == t.c.taken
    requires Stopped(u.p) <==> Stopped(t.p)
    requires u.p.pc == PClear ==> t.p.pc == PClear
    requires u.c.pc == t.c.pc || u.c.pc == CKilled || t.c.pc == CPin
             || (!Dead(t.c) && t.c.pc != CAnnounce && t.c.pc != CClear && t.c.pc != CRespond)
    requires u.c.pc == CPin || u.c.pc == CClear || u.c.pc == CRespond ==> t.c.pc == u.c.pc
    requires u.c.pc == CAnnounce ==> t.c.pc == CPin || t.c.pc == CAnnounce
    requires t.cbuf == [StoreReady] ==> u.p.pc == PAwaitReady || u.p.error == NotReady
    ensures Buffers(u)
  {
    assert ProducerBuffer(u) by { hide ConsumerBuffer; }
    assert ConsumerBuffer(u) by { hide ProducerBuffer, WithoutStop; }
  }

  // Each action leaves the buffers in one of their shapes.
  lemma AwaitKeepsBuffers(cfg: Config, t: TsoState)
    requires TsoInv(cfg, t) && t.p.pc == PAwaitReady
    ensures Buffers(TsoExec(cfg, t, Do(Step(ProducerProcess))))
  {
    var u := TsoExec(cfg, t, Do(Step(ProducerProcess)));
    assert Avoids(t.pbuf, 2) by { hide Inv, ConsumerBuffer, Abstract; }
    Untouched(t.mem, t.pbuf);
    assert t.pbuf + [] == t.pbuf;
    assert t.cbuf == [StoreReady] ==> u.p.pc == PAwaitReady by { hide Inv, ProducerBuffer, Abstract; }
    hide Buffers, Inv, Abstract, ApplyAll;
    ControlMoves(t, u);
  }

  lemma SpinKeepsBuffers(cfg: Config, t: TsoState)
    requires TsoInv(cfg, t) && (t.p.pc == PLoadStop || Stopped(t.p))
    ensures Buffers(TsoExec(cfg, t, Do(Step(ProducerProcess))))
  {
    var u := TsoExec(cfg, t, Do(Step(ProducerProcess)));
    if t.p.pc == PLoadStop {
      ProducerSeesNoStop(cfg, t);
    }
    assert t.pbuf + [] == t.pbuf;
    assert t.cbuf == [StoreReady] ==> t.p.error == NotReady by { hide Inv, ProducerBuffer, Abstract; }
    hide Buffers, Inv, Abstract, ApplyAll;
    ControlMoves(t, u);
  }

  lemma LoadResponseKeepsBuffers(cfg: Config, t: TsoState)
    requires TsoInv(cfg, t) && t.p.pc == PLoadResponse
    ensures Buffers(TsoExec(cfg, t, Do(Step(ProducerProcess))))
  {
    var u := TsoExec(cfg, t, Do(Step(ProducerProcess)));
    assert t.pbuf + [] == t.pbuf;
    if ApplyAll(t.mem, t.pbuf).response.up {
      ProducerSeesResponse(cfg, t);
      hide Inv;
    } else {
      hide ProducerBuffer, Inv, Abstract;
      ControlMoves(t, u);
    }
  }

  lemma PostedBuffers(t: TsoState, u: TsoState)
    requires Buffers(t) && t.cbuf == [] && !t.mem.request.up && t.p.posted == t.p.acked
    requires !Stopped(t.p) && t.p.pc != PClear && t.c.pc != CClear && t.c.pc != CRespond
    requires u == t.(p := t.p.(pc := PLoadResponse, posted := t.p.posted + 1),
                     pbuf := t.pbuf + [StoreRequest(Flag(true, t.p.posted + 1))])
    ensures Buffers(u)
  {
    var post := StoreRequest(Flag(true, t.p.posted + 1));
    assert WithoutStop(t.pbuf) == t.pbuf && |t.pbuf| <= 1;
    assert u.pbuf == if t.pbuf == [] then [post] else [t.pbuf[0], post];
    assert WithoutStop(u.pbuf) == u.pbuf;
    hide WithoutStop;
  }

  lemma QuietConsumer(cfg: Config, t: TsoState)
    requires TsoInv(cfg, t) && t.p.pc == PHead
    ensures t.cbuf == [] && !t.mem.request.up
  {
    assert WithoutStop(t.pbuf) == t.pbuf == Issued(t);
    ShortBuffer(t.mem, t.cbuf);
    Untouched(ApplyAll(t.mem, t.cbuf), t.pbuf);
    hide ApplyAll;
  }

  // Before a post the consumer holds nothing and the request flag is down.
  lemma PostKeepsBuffers(cfg: Config, t: TsoState)
    requires TsoInv(cfg, t) && t.p.pc == PHead
    ensures Buffers(TsoExec(cfg, t, Do(Step(ProducerProcess))))
  {
    var u := TsoExec(cfg, t, Do(Step(ProducerProcess)));
    QuietConsumer(cfg, t);
    assert t.c.pc != CClear && t.c.pc != CRespond && t.p.posted == t.p.acked;
    assert WithoutStop(t.pbuf) == t.pbuf && |t.pbuf| <= 1;
    hide Inv, Abstract;
    if u.p.pc == PLoadResponse {
      PostedBuffers(t, u);
    } else {
      assert u.pbuf == t.pbuf;
      hide Buffers;
      ControlMoves(t, u);
    }
  }

  lemma ClearKeepsBuffers(cfg: Config, t: TsoState)
    requires TsoInv(cfg, t) && t.p.pc == PClear
    ensures Buffers(TsoExec(cfg, t, Do(Step(ProducerProcess))))
  {
    var u := TsoExec(cfg, t, Do(Step(ProducerProcess)));
    assert t.pbuf == t.cbuf == [] && t.p.posted == t.p.acked + 1 && t.c.pc != CClear && t.c.pc != CRespond;
    hide Inv, Abstract;
    assert u.pbuf == [StoreResponse(Flag(false, t.p.heard))];
    assert ProducerBuffer(u) by { hide ConsumerBuffer; }
    assert ConsumerBuffer(u) by { hide ProducerBuffer; }
  }

  lemma QueuedStop(t: TsoState, u: TsoState)
    requires Buffers(t) && t.p.pc == PStop
    requires u == t.(p := t.p.(pc := PReap), pbuf := t.pbuf + [StoreStop])
    ensures Buffers(u)
  {
    assert WithoutStop(t.pbuf) == t.pbuf == WithoutStop(u.pbuf);
  }

  lemma StopKeepsBuffers(cfg: Config, t: TsoState)
    requires TsoInv(cfg, t) && t.p.pc == PStop
    ensures Buffers(TsoExec(cfg, t, Do(Step(ProducerProcess))))
  {
    var u := TsoExec(cfg, t, Do(Step(ProducerProcess)));
    hide Buffers, Inv, Abstract;
    QueuedStop(t, u);
  }

  lemma ProducerKeepsBuffers(cfg: Config, t: TsoState)
    requires TsoInv(cfg, t)
    ensures Buffers(TsoExec(cfg, t, Do(Step(ProducerProcess))))
  {
    if t.p.pc == PHead {
      PostKeepsBuffers(cfg, t);
    } else if t.p.pc == PClear {
      ClearKeepsBuffers(cfg, t);
    } else if t.p.pc == PStop {
      StopKeepsBuffers(cfg, t);
    } else if t.p.pc == PLoadResponse {
      LoadResponseKeepsBuffers(cfg, t);
    } else if t.p.pc == PAwaitReady {
      AwaitKeepsBuffers(cfg, t);
    } else {
      SpinKeepsBuffers(cfg, t);
    }
  }

  lemma NotReadyYet(cfg: Config, t: TsoState)
    requires TsoInv(cfg, t) && (t.c.pc == CPin || t.c.pc == CAnnounce)
    ensures !t.mem.ready && (t.p.pc == PAwaitReady || t.p.error == NotReady)
  {
    assert Avoids(Issued(t), 2) by { hide Inv; }
    Untouched(t.mem, Issued(t));
    ShortBuffer(t.mem, t.cbuf);
    hide ApplyAll, ProducerBuffer, Issued;
  }

  lemma AnnounceKeepsBuffers(cfg: Config, t: TsoState)
    requires TsoInv(cfg, t) && (t.c.pc == CPin || t.c.pc == CAnnounce)
    ensures Buffers(TsoExec(cfg, t, Do(Step(ConsumerProcess))))
  {
    var u := TsoExec(cfg, t, Do(Step(ConsumerProcess)));
    assert t.cbuf + [] == t.cbuf == [];
    NotReadyYet(cfg, t);
    hide Inv, Abstract;
    if t.c.pc == CPin {
      hide Buffers;
      ControlMoves(t, u);
    } else {
      assert u.cbuf == [StoreReady];
      assert ProducerBuffer(u) by { hide ConsumerBuffer; }
      assert ConsumerBuffer(u) by { hide ProducerBuffer, WithoutStop; }
    }
  }

  lemma AnsweringIsAlone(cfg: Config, t: TsoState)
    requires TsoInv(cfg, t) && t.c.pc == CClear && Issued(t) == []
    ensures t.mem.request.up && !t.mem.response.up
  {
    ShortBuffer(t.mem, t.cbuf);
    ShortBuffer(t.mem, Issued(t));
    hide ApplyAll, Issued, ProducerBuffer;
  }

  lemma NothingIssued(cfg: Config, t: TsoState)
    requires TsoInv(cfg, t) && !Dead(t.c)
    requires WithoutStop(t.pbuf) == [] || t.p.posted == 0
    ensures Issued(t) == []
  {
  }

  lemma ClearRequestKeepsBuffers(cfg: Config, t: TsoState)
    requires TsoInv(cfg, t) && t.c.pc == CClear
    ensures Buffers(TsoExec(cfg, t, Do(Step(ConsumerProcess))))
  {
    var u := TsoExec(cfg, t, Do(Step(ConsumerProcess)));
    NothingIssued(cfg, t);
    AnsweringIsAlone(cfg, t);
    hide Inv, Abstract;
    assert t.cbuf == [] && u.cbuf == [StoreRequest(Flag(false, t.c.taken))];
    assert ProducerBuffer(u) by { hide ConsumerBuffer; }
    assert ConsumerBuffer(u) by { hide ProducerBuffer, WithoutStop; }
  }

  lemma ResponseIsDown(cfg: Config, t: TsoState)
    requires TsoInv(cfg, t) && t.c.pc == CRespond
    ensures !t.mem.response.up
  {
    var b := Issued(t);
    assert Avoids(b, 1) && Avoids(t.cbuf, 1) by { hide Inv, Abstract; }
    Untouched(t.mem, t.cbuf);
    Untouched(ApplyAll(t.mem, t.cbuf), b);
    hide ApplyAll, Issued, Buffers;
  }

  lemma RespondKeepsBuffers(cfg: Config, t: TsoState)
    requires TsoInv(cfg, t) && t.c.pc == CRespond
    ensures Buffers(TsoExec(cfg, t, Do(Step(ConsumerProcess))))
  {
    var u := TsoExec(cfg, t, Do(Step(ConsumerProcess)));
    ResponseIsDown(cfg, t);
    hide Inv, Abstract;
    var clear, respond := StoreRequest(Flag(false, t.c.taken)), StoreResponse(Flag(true, t.c.taken));
    assert u.cbuf == if t.cbuf == [] then [respond] else [clear, respond];
    assert ProducerBuffer(u) by { hide ConsumerBuffer; }
    assert ConsumerBuffer(u) by { hide ProducerBuffer, WithoutStop; }
  }

  lemma ConsumerLoadsKeepBuffers(cfg: Config, t: TsoState)
    requires TsoInv(cfg, t) && (t.c.pc == CHead || t.c.pc == CLoadRequest || t.c.pc == CLoadStop)
    ensures Buffers(TsoExec(cfg, t, Do(Step(ConsumerProcess))))
  {
    var u := TsoExec(cfg, t, Do(Step(ConsumerProcess)));
    assert t.cbuf + [] == t.cbuf;
    if t.c.pc == CLoadRequest && ApplyAll(t.mem, t.cbuf).request.up {
      ConsumerSeesRequest(cfg, t);
      hide Inv, Abstract;
    } else {
      assert t.cbuf == [StoreReady] ==> u.p.pc == PAwaitReady || u.p.error == NotReady;
      hide Buffers, Inv, Abstract;
      ControlMoves(t, u);
    }
  }

  lemma ConsumerKeepsBuffers(cfg: Config, t: TsoState)
    requires TsoInv(cfg, t)
    ensures Buffers(TsoExec(cfg, t, Do(Step(ConsumerProcess))))
  {
    match t.c.pc
    case CPin => AnnounceKeepsBuffers(cfg, t);
    case CAnnounce => AnnounceKeepsBuffers(cfg, t);
    case CClear => ClearRequestKeepsBuffers(cfg, t);
    case CRespond => RespondKeepsBuffers(cfg, t);
    case CExited => assert t.cbuf + [] == t.cbuf;
    case CKilled => assert t.cbuf + [] == t.cbuf;
    case _ => ConsumerLoadsKeepBuffers(cfg, t);
  }

  lemma TimeoutsKeepBuffers(cfg: Config, t: TsoState, who: Process)
    requires TsoInv(cfg, t)
    ensures Buffers(TsoExec(cfg, t, Do(Timeout(who))))
  {
    var u := TsoExec(cfg, t, Do(Timeout(who)));
    assert t.cbuf == [StoreReady] ==> u.p.pc == PAwaitReady || u.p.error == NotReady;
    hide Buffers, Inv, Abstract;
    ControlMoves(t, u);
  }

  lemma FailuresKeepBuffers(cfg: Config, t: TsoState, choice: Choice)
    requires TsoInv(cfg, t) && (choice == PinFails || choice == ReapFails)
    ensures Buffers(TsoExec(cfg, t, Do(choice)))
  {
    var u := TsoExec(cfg, t, Do(choice));
    assert t.cbuf == [StoreReady] ==> u.p.pc == PAwaitReady || u.p.error == NotReady;
    hide Buffers, Inv, Abstract;
    ControlMoves(t, u);
  }

  lemma ConsumerStoresSimulate(cfg: Config, t: TsoState)
    requires Issued(t) == []
    requires t.c.pc == CAnnounce || t.c.pc == CClear || t.c.pc == CRespond
    ensures var u := TsoExec(cfg, t, Do(Step(ConsumerProcess)));
            Abstract(u) == Exec(cfg, Abstract(t), Step(ConsumerProcess))
  {
    var u := TsoExec(cfg, t, Do(Step(ConsumerProcess)));
    var stores := ConsumerStores(t.c);
    assert StopIsLate(u) == StopIsLate(t) && Issued(u) == [];
    ApplyAppend(t.mem, t.cbuf, stores);
    ShortBuffer(ApplyAll(t.mem, t.cbuf), []);
    ShortBuffer(ApplyAll(t.mem, u.cbuf), []);
    hide ApplyAll, Apply, StopIsLate, Issued;
  }

  lemma ConsumerLoadsSimulate(cfg: Config, t: TsoState)
    requires t.c.pc != CAnnounce && t.c.pc != CClear && t.c.pc != CRespond
    requires var seen := ApplyAll(t.mem, t.cbuf);
             && (t.c.pc == CLoadRequest && seen.request.up ==> seen.request == Abstract(t).mem.request)
             && (!Dead(t.c) ==> seen.stop == t.mem.stop == Abstract(t).mem.stop)
    requires t.mem.stop ==> t.pbuf == []
    ensures var u := TsoExec(cfg, t, Do(Step(ConsumerProcess)));
            Abstract(u) == Run(cfg, Abstract(t), Matching(t, Do(Step(ConsumerProcess))))
  {
    var u := TsoExec(cfg, t, Do(Step(ConsumerProcess)));
    RunNone(cfg, Abstract(t));
    RunOne(cfg, Abstract(t), Step(ConsumerProcess));
    RunOne(cfg, Abstract(t), Timeout(ConsumerProcess));
    StoresAreShort(cfg, Abstract(t));
    hide ApplyAll, Apply, WithoutStop, Run;
    assert u == t.(c := ConsumerLocal(t.c, ApplyAll(t.mem, t.cbuf))) by { assert t.cbuf + [] == t.cbuf; }
    assert StopIsLate(u) == StopIsLate(t) && Issued(u) == Issued(t);
    hide TsoExec, StopIsLate, Issued;
  }

  lemma ConsumerSimulates(cfg: Config, t: TsoState)
    requires TsoInv(cfg, t)
    ensures var u := TsoExec(cfg, t, Do(Step(ConsumerProcess)));
            Abstract(u) == Run(cfg, Abstract(t), Matching(t, Do(Step(ConsumerProcess))))
  {
    if t.c.pc == CAnnounce || t.c.pc == CClear || t.c.pc == CRespond {
      NothingIssued(cfg, t);
      ConsumerStoresSimulate(cfg, t);
      hide Inv, Buffers, Exec, TsoExec, Abstract;
      RunOne(cfg, Abstract(t), Step(ConsumerProcess));
    } else {
      if !Dead(t.c) {
        ConsumerSeesStop(cfg, t);
      }
      if t.c.pc == CLoadRequest && ApplyAll(t.mem, t.cbuf).request.up {
        ConsumerSeesRequest(cfg, t);
      }
      ConsumerLoadsSimulate(cfg, t);
    }
  }

  lemma DepartureStep(cfg: Config, t: TsoState, choice: Choice)
    requires StopIsLate(t) ==> Stopped(t.p)
    requires (choice == Timeout(ConsumerProcess) && t.c.pc == CLoadRequest) || (choice == PinFails && t.c.pc == CPin)
    ensures var s := Exec(cfg, Abstract(t), choice);
            Abstract(TsoExec(cfg, t, Do(choice)))
            == if StopIsLate(t) then s.(mem := Apply(s.mem, StoreStop), p := t.p) else s
  {
    if StopIsLate(t) {
      StopIsLast(t, ApplyAll(t.mem, t.cbuf));
    }
    hide ApplyAll, Apply;
  }

  // The consumer leaves on its own account: the producer's late stop, if any,
  // no longer has a reader and is issued at once.
  lemma DepartureSimulates(cfg: Config, t: TsoState, choice: Choice)
    requires StopIsLate(t) ==> Stopped(t.p)
    requires (choice == Timeout(ConsumerProcess) && t.c.pc == CLoadRequest) || (choice == PinFails && t.c.pc == CPin)
    ensures var u := TsoExec(cfg, t, Do(choice));
            Abstract(u) == Run(cfg, Abstract(t), Matching(t, Do(choice)))
  {
    var s := Exec(cfg, Abstract(t), choice);
    assert Matching(t, Do(choice)) == [choice] + CatchUp(t);
    RunAppend(cfg, Abstract(t), [choice], CatchUp(t));
    RunOne(cfg, Abstract(t), choice);
    DepartureStep(cfg, t, choice);
    if StopIsLate(t) {
      assert s.p == t.p.(pc := PStop);
      hide Exec, TsoExec, Abstract, Matching;
      CatchesUp(cfg, t, s);
    }
  }

  lemma KillStep(cfg: Config, t: TsoState)
    requires StopIsLate(t) && t.p.pc == PReap
    ensures var s := Abstract(t);
            Abstract(TsoExec(cfg, t, Do(Timeout(ProducerProcess))))
            == Exec(cfg, s.(mem := Apply(s.mem, StoreStop), p := t.p), Timeout(ProducerProcess))
  {
    StopIsLast(t, ApplyAll(t.mem, t.cbuf));
    hide ApplyAll, Apply;
  }

  // The producer kills the consumer, again dating its late stop before that.
  lemma KillSimulates(cfg: Config, t: TsoState)
    requires StopIsLate(t) && t.p.pc == PReap
    ensures var u := TsoExec(cfg, t, Do(Timeout(ProducerProcess)));
            Abstract(u) == Run(cfg, Abstract(t), Matching(t, Do(Timeout(ProducerProcess))))
  {
    var s := Abstract(t);
    var s1 := s.(mem := Apply(s.mem, StoreStop), p := t.p);
    assert CatchUp(t) == [Step(ProducerProcess)];
    assert [Step(ProducerProcess)] + [Timeout(ProducerProcess)]
        == Matching(t, Do(Timeout(ProducerProcess)));
    CatchesUp(cfg, t, s);
    KillStep(cfg, t);
    hide Exec, TsoExec, Abstract, Matching, CatchUp, StopIsLate, Run;
    RunAppend(cfg, s, [Step(ProducerProcess)], [Timeout(ProducerProcess)]);
    RunOne(cfg, s1, Timeout(ProducerProcess));
  }

  lemma EnvironmentSimulates(cfg: Config, t: TsoState, choice: Choice)
    requires !choice.Step? && (StopIsLate(t) ==> Stopped(t.p))
    ensures var u := TsoExec(cfg, t, Do(choice));
            Abstract(u) == Run(cfg, Abstract(t), Matching(t, Do(choice)))
  {
    if (choice == Timeout(ConsumerProcess) && t.c.pc == CLoadRequest) || (choice == PinFails && t.c.pc == CPin) {
      DepartureSimulates(cfg, t, choice);
    } else if choice == Timeout(ProducerProcess) && StopIsLate(t) && t.p.pc == PReap {
      KillSimulates(cfg, t);
    } else {
      RunOne(cfg, Abstract(t), choice);
    }
  }

  // --- the theorems ---------------------------------------------------------

  lemma TsoStep(cfg: Config, t: TsoState, choice: TsoChoice)
    requires TsoInv(cfg, t)
    ensures Simulates(cfg, t, choice)
    ensures TsoInv(cfg, TsoExec(cfg, t, choice))
  {
    assert Simulates(cfg, t, choice) by {
      match choice
      case Do(Step(ProducerProcess)) => ProducerSimulates(cfg, t); ProducerKeepsBuffers(cfg, t);
      case Do(Step(ConsumerProcess)) => ConsumerSimulates(cfg, t); ConsumerKeepsBuffers(cfg, t);
      case Do(Timeout(who)) => EnvironmentSimulates(cfg, t, Timeout(who)); TimeoutsKeepBuffers(cfg, t, who);
      case Do(other) => EnvironmentSimulates(cfg, t, other); FailuresKeepBuffers(cfg, t, other);
      case Drain(ProducerProcess) => DrainProducerSimulates(cfg, t);
      case Drain(ConsumerProcess) => DrainConsumerSimulates(cfg, t);
    }
    hide Inv, Buffers, Exec, TsoExec, Abstract, Matching;
    RunKeepsInv(cfg, Abstract(t), Matching(t, choice));
  }

  // The matching schedule of a whole run.
  function MatchingRun(cfg: Config, t: TsoState, schedule: seq<TsoChoice>): seq<Choice>
    decreases |schedule|
  {
    if schedule == [] then []
    else Matching(t, schedule[0]) + MatchingRun(cfg, TsoExec(cfg, t, schedule[0]), schedule[1..])
  }

  lemma {:induction false} TsoRunSimulates(cfg: Config, t: TsoState, schedule: seq<TsoChoice>)
    requires TsoInv(cfg, t)
    ensures Abstract(TsoRun(cfg, t, schedule)) == Run(cfg, Abstract(t), MatchingRun(cfg, t, schedule))
    ensures TsoInv(cfg, TsoRun(cfg, t, schedule))
    decreases |schedule|
  {
    if schedule != [] {
      var u := TsoExec(cfg, t, schedule[0]);
      TsoStep(cfg, t, schedule[0]);
      TsoRunSimulates(cfg, u, schedule[1..]);
      hide Inv, Buffers, Exec, TsoExec, Abstract, Matching;
      RunAppend(cfg, Abstract(t), Matching(t, schedule[0]), MatchingRun(cfg, u, schedule[1..]));
    }
  }

  // Every run with store buffers is, up to when stores are dated, a run of the
  // sequentially consistent machine, so buffering adds no behaviour.
  lemma TsoRefinesSc(cfg: Config, schedule: seq<TsoChoice>)
    ensures Abstract(TsoRun(cfg, TSO_INITIAL, schedule))
            == Run(cfg, INITIAL, MatchingRun(cfg, TSO_INITIAL, schedule))
    ensures TsoInv(cfg, TsoRun(cfg, TSO_INITIAL, schedule))
  {
    assert Abstract(TSO_INITIAL) == INITIAL;
    InitialInv(cfg);
    TsoRunSimulates(cfg, TSO_INITIAL, schedule);
  }
}
