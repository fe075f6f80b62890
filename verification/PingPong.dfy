// The cross-process ping-pong of shared_memory_measurer.cpp as a two-process
// state machine.  One choice of the scheduler is one atomic action: a load, a
// store, or the expiry of a bounded wait.

module PingPong {
  // A shared flag, with the number of the request its last store belongs to.
  // The program stores only `up`; the ticket records where the value came from.
  datatype Flag = Flag(up: bool, ticket: nat)

  // The four atomics of SharedControl.
  datatype Memory = Memory(request: Flag, response: Flag, ready: bool, stop: bool)

  datatype Store =
    | StoreRequest(flag: Flag)
    | StoreResponse(flag: Flag)
    | StoreReady
    | StoreStop

  function Apply(m: Memory, st: Store): Memory {
    match st
    case StoreRequest(f) => m.(request := f)
    case StoreResponse(f) => m.(response := f)
    case StoreReady => m.(ready := true)
    case StoreStop => m.(stop := true)
  }

  function ApplyAll(m: Memory, stores: seq<Store>): Memory
    decreases |stores|
  {
    if stores == [] then m else ApplyAll(Apply(m, stores[0]), stores[1..])
  }

  // Producer: wait for the consumer, run the warmup and the measured loop,
  // raise stop, reap the child.
  datatype ProducerPc =
    | PAwaitReady | PHead | PLoadResponse | PLoadStop | PClear | PStop | PReap | PDone

  datatype ConsumerPc =
    | CPin | CAnnounce | CHead | CLoadRequest | CLoadStop | CClear | CRespond | CExited | CKilled

  datatype Error = NoError | NotReady | WarmupStopped | MeasurementStopped

  // `samples` lists the tickets of the requests whose round trip was recorded.
  datatype Producer = Producer(
    pc: ProducerPc, measuring: bool, i: nat, samples: seq<nat>, error: Error,
    posted: nat, heard: nat, acked: nat)

  datatype Consumer = Consumer(pc: ConsumerPc, taken: nat, served: nat)

  datatype State = State(mem: Memory, p: Producer, c: Consumer)

  datatype Config = Config(warmup: nat, iterations: nat)

  datatype Process = ProducerProcess | ConsumerProcess

  // What the scheduler and the environment decide at each step.
  datatype Choice =
    | Step(who: Process)       // the process performs its next action
    | Timeout(who: Process)    // the bounded wait the process is in expires
    | PinFails                 // the consumer cannot pin itself
    | ReapFails                // waitpid or kill reports an error

  const INITIAL: State :=
    State(Memory(Flag(false, 0), Flag(false, 0), false, false),
          Producer(PAwaitReady, false, 0, [], NoError, 0, 0, 0),
          Consumer(CPin, 0, 0))

  predicate Dead(c: Consumer) { c.pc == CExited || c.pc == CKilled }

  // --- the producer ---------------------------------------------------------

  function Bound(cfg: Config, p: Producer): nat {
    if p.measuring then cfg.iterations else cfg.warmup
  }

  // The stores the producer's next action issues.
  function ProducerStores(cfg: Config, p: Producer): seq<Store> {
    match p.pc
    case PHead => if p.i < Bound(cfg, p) then [StoreRequest(Flag(true, p.posted + 1))] else []
    case PClear => [StoreResponse(Flag(false, p.heard))]
    case PStop => [StoreStop]
    case _ => []
  }

  function ProducerGivesUp(p: Producer): Producer {
    p.(pc := PStop, error := if p.measuring then MeasurementStopped else WarmupStopped)
  }

  // Its local effect, given the memory it sees.
  function ProducerLocal(cfg: Config, p: Producer, seen: Memory): Producer {
    match p.pc
    case PAwaitReady => if seen.ready then p.(pc := PHead) else p
    case PHead =>
      if p.i < Bound(cfg, p) then p.(pc := PLoadResponse, posted := p.posted + 1)
      else if p.measuring then p.(pc := PStop)
      else p.(measuring := true, i := 0)
    case PLoadResponse =>
      if seen.response.up then p.(pc := PClear, heard := seen.response.ticket)
      else p.(pc := PLoadStop)
    case PLoadStop => if seen.stop then ProducerGivesUp(p) else p.(pc := PLoadResponse)
    case PClear =>
      p.(pc := PHead, acked := p.acked + 1, i := p.i + 1,
         samples := if p.measuring then p.samples + [p.heard] else p.samples)
    case PStop => p.(pc := PReap)
    case _ => p
  }

  // --- the consumer ---------------------------------------------------------

  function ConsumerStores(c: Consumer): seq<Store> {
    match c.pc
    case CAnnounce => [StoreReady]
    case CClear => [StoreRequest(Flag(false, c.taken))]
    case CRespond => [StoreResponse(Flag(true, c.taken))]
    case _ => []
  }

  function ConsumerLocal(c: Consumer, seen: Memory): Consumer {
    match c.pc
    case CPin => c.(pc := CAnnounce)
    case CAnnounce => c.(pc := CHead)
    case CHead => if seen.stop then c.(pc := CExited) else c.(pc := CLoadRequest)
    case CLoadRequest =>
      if seen.request.up then c.(pc := CClear, taken := seen.request.ticket)
      else c.(pc := CLoadStop)
    case CLoadStop => if seen.stop then c.(pc := CExited) else c.(pc := CLoadRequest)
    case CClear => c.(pc := CRespond)
    case CRespond => c.(pc := CHead, served := c.served + 1)
    case _ => c
  }

  // --- both together --------------------------------------------------------

  // Timeouts and failures, which write no memory.  A wait can expire only where
  // its loop tests the deadline; elsewhere these choices do nothing.
  function Environment(p: Producer, c: Consumer, choice: Choice): (Producer, Consumer) {
    match choice
    case Timeout(ProducerProcess) =>
      (match p.pc
       case PAwaitReady => (p.(pc := PStop, error := NotReady), c)
       case PLoadResponse => (ProducerGivesUp(p), c)
       case PReap => (p.(pc := PDone), if Dead(c) then c else c.(pc := CKilled))
       case _ => (p, c))
    case Timeout(ConsumerProcess) =>
      (p, if c.pc == CLoadRequest then c.(pc := CExited) else c)
    case PinFails => (p, if c.pc == CPin then c.(pc := CExited) else c)
    case ReapFails => (if p.pc == PReap then p.(pc := PDone) else p, c)
    case Step(_) => (p, c)
  }

  // waitpid: the producer leaves once it finds the consumer gone.
  function Reaped(p: Producer, c: Consumer): Producer {
    if p.pc == PReap && Dead(c) then p.(pc := PDone) else p
  }

  // Sequentially consistent execution: every store reaches memory at once.
  function Exec(cfg: Config, s: State, choice: Choice): State {
    match choice
    case Step(ProducerProcess) =>
      if s.p.pc == PReap then s.(p := Reaped(s.p, s.c))
      else State(ApplyAll(s.mem, ProducerStores(cfg, s.p)), ProducerLocal(cfg, s.p, s.mem), s.c)
    case Step(ConsumerProcess) =>
      State(ApplyAll(s.mem, ConsumerStores(s.c)), s.p, ConsumerLocal(s.c, s.mem))
    case _ => var (p, c) := Environment(s.p, s.c, choice); s.(p := p, c := c)
  }

  // The state after a schedule; every reachable state is Run(cfg, INITIAL, schedule) for some schedule.
  function Run(cfg: Config, s: State, schedule: seq<Choice>): State
    decreases |schedule|
  {
    if schedule == [] then s else Run(cfg, Exec(cfg, s, schedule[0]), schedule[1..])
  }

  lemma {:induction false} RunAppend(cfg: Config, s: State, a: seq<Choice>, b: seq<Choice>)
    ensures Run(cfg, s, a + b) == Run(cfg, Run(cfg, s, a), b)
    decreases |a|
  {
    if a == [] {
      assert a + b == b;
    } else {
      assert (a + b)[1..] == a[1..] + b;
      RunAppend(cfg, Exec(cfg, s, a[0]), a[1..], b);
    }
  }

  // --- the invariant --------------------------------------------------------

  // Where the current request is: nowhere, in the request flag, in the
  // consumer's hands, or answered in the response flag.
  ghost predicate Idle(s: State) {
    && s.p.posted == s.p.acked == s.c.served
    && !s.mem.request.up && !s.mem.response.up
    && s.c.pc != CClear && s.c.pc != CRespond
  }

  ghost predicate Outstanding(s: State) {
    && s.p.posted == s.p.acked + 1
    && if s.mem.request.up then
         && s.mem.request.ticket == s.p.posted && !s.mem.response.up
         && s.c.served == s.p.acked
         && s.c.pc != CRespond && (s.c.pc == CClear ==> s.c.taken == s.p.posted)
       else if s.mem.response.up then
         && s.mem.response.ticket == s.p.posted
         && s.c.served == s.p.posted
         && s.c.pc != CClear && s.c.pc != CRespond
       else
         && s.c.served == s.p.acked && s.c.taken == s.p.posted
         && (s.c.pc == CRespond || s.c.pc == CKilled)
  }

  ghost predicate Accounting(cfg: Config, p: Producer) {
    && p.i <= Bound(cfg, p)
    && p.acked == (if p.measuring then cfg.warmup + p.i else p.i)
    && |p.samples| == (if p.measuring then p.i else 0)
    && (forall k :: 0 <= k < |p.samples| ==> p.samples[k] == cfg.warmup + k + 1)
  }

  ghost predicate Stopped(p: Producer) { p.pc == PReap || p.pc == PDone }

  ghost predicate Ending(p: Producer) { p.pc == PStop || Stopped(p) }

  // Why the producer is shutting down.
  ghost predicate Verdict(cfg: Config, p: Producer) {
    match p.error
    case NoError => Ending(p) ==> p.measuring && p.i == cfg.iterations && p.posted == p.acked
    case NotReady => Ending(p) && !p.measuring && p.posted == 0
    case WarmupStopped => Ending(p) && !p.measuring && p.posted == p.acked + 1 && p.i < cfg.warmup
    case MeasurementStopped => Ending(p) && p.measuring && p.posted == p.acked + 1 && p.i < cfg.iterations
  }

  ghost predicate Inv(cfg: Config, s: State) {
    && (Idle(s) || Outstanding(s))
    && ((s.p.pc == PAwaitReady || s.p.pc == PHead) ==> Idle(s))
    && ((s.p.pc == PLoadResponse || s.p.pc == PLoadStop || s.p.pc == PClear) ==>
          Outstanding(s) && s.p.i < Bound(cfg, s.p))
    && (s.p.pc == PClear ==> s.mem.response.up && s.p.heard == s.p.posted)
    && (s.p.pc == PAwaitReady ==> s.p.posted == 0 && !s.p.measuring)
    && ((s.c.pc == CPin || s.c.pc == CAnnounce) ==> !s.mem.ready)
    && (!s.mem.ready ==> s.p.posted == 0 && (s.p.pc == PAwaitReady || s.p.error == NotReady))
    && (s.mem.stop <==> Stopped(s.p))
    && (s.c.pc == CKilled ==> s.p.pc == PDone)
    && Accounting(cfg, s.p)
    && Verdict(cfg, s.p)
  }

  lemma TimeoutKeepsInv(cfg: Config, s: State, who: Process)
    requires Inv(cfg, s)
    ensures Inv(cfg, Exec(cfg, s, Timeout(who)))
  {
  }

  lemma FailureKeepsInv(cfg: Config, s: State, choice: Choice)
    requires Inv(cfg, s) && (choice == PinFails || choice == ReapFails)
    ensures Inv(cfg, Exec(cfg, s, choice))
  {
  }

  // An action issues at most one store, so ApplyAll unfolds once.
  lemma StoresAreShort(cfg: Config, s: State)
    ensures var q := ProducerStores(cfg, s.p);
            ApplyAll(s.mem, q) == if q == [] then s.mem else Apply(s.mem, q[0])
    ensures var q := ConsumerStores(s.c);
            ApplyAll(s.mem, q) == if q == [] then s.mem else Apply(s.mem, q[0])
  {
  }

  lemma StopKeepsInv(cfg: Config, s: State)
    requires Inv(cfg, s) && s.p.pc == PStop
    ensures Inv(cfg, Exec(cfg, s, Step(ProducerProcess)))
  {
    StoresAreShort(cfg, s);
  }

  lemma WaitingKeepsInv(cfg: Config, s: State)
    requires Inv(cfg, s) && s.p.pc != PHead && s.p.pc != PClear && s.p.pc != PStop
    ensures Inv(cfg, Exec(cfg, s, Step(ProducerProcess)))
  {
    StoresAreShort(cfg, s);
    hide ApplyAll, Apply;
  }

  lemma HeadKeepsInv(cfg: Config, s: State)
    requires Inv(cfg, s) && s.p.pc == PHead
    ensures Inv(cfg, Exec(cfg, s, Step(ProducerProcess)))
  {
    StoresAreShort(cfg, s);
  }

  lemma ClearKeepsInv(cfg: Config, s: State)
    requires Inv(cfg, s) && s.p.pc == PClear
    ensures Inv(cfg, Exec(cfg, s, Step(ProducerProcess)))
  {
    StoresAreShort(cfg, s);
  }

  lemma ProducerKeepsInv(cfg: Config, s: State)
    requires Inv(cfg, s)
    ensures Inv(cfg, Exec(cfg, s, Step(ProducerProcess)))
  {
    match s.p.pc {
      case PHead => HeadKeepsInv(cfg, s);
      case PClear => ClearKeepsInv(cfg, s);
      case PStop => StopKeepsInv(cfg, s);
      case _ => WaitingKeepsInv(cfg, s);
    }
  }

  lemma ConsumerKeepsInv(cfg: Config, s: State)
    requires Inv(cfg, s)
    ensures Inv(cfg, Exec(cfg, s, Step(ConsumerProcess)))
  {
    StoresAreShort(cfg, s);
  }

  lemma ExecKeepsInv(cfg: Config, s: State, choice: Choice)
    requires Inv(cfg, s)
    ensures Inv(cfg, Exec(cfg, s, choice))
  {
    match choice
    case Step(ProducerProcess) => ProducerKeepsInv(cfg, s);
    case Step(ConsumerProcess) => ConsumerKeepsInv(cfg, s);
    case Timeout(who) => TimeoutKeepsInv(cfg, s, who);
    case _ => FailureKeepsInv(cfg, s, choice);
  }

  lemma {:induction false} RunKeepsInv(cfg: Config, s: State, schedule: seq<Choice>)
    requires Inv(cfg, s)
    ensures Inv(cfg, Run(cfg, s, schedule))
    decreases |schedule|
  {
    if schedule != [] {
      ExecKeepsInv(cfg, s, schedule[0]);
      RunKeepsInv(cfg, Exec(cfg, s, schedule[0]), schedule[1..]);
    }
  }
}
