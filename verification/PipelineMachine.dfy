/** internal/usecase/pipeline.go as an interleaved step machine: any number of senders
    in Process, a pool of workers, the correlator's sweeper and one call of Shutdown.
    Every arm of a select that the runtime may pick is a step of its own. */
module PipelineMachine {
  import opened Bags
  import opened Domain
  import C = Correlator

  type Event = DNSRawEvent

  datatype Config = Config(workers: nat, queueSize: nat, storages: nat)

  /** A worker at its select, in processEvent, or returned.  Stage 0: received; stage
      k + 1: correlated, enriched and written to the first k storages. */
  datatype Worker = Selecting | Holding(event: Event, stage: nat) | Exited

  datatype Sweeper = Idle | Running | Gone

  /** How far Shutdown has got; Closing(k) has closed the first k storages. */
  datatype Stage =
    | NotCalled | Cancelled | DieClosed | QueueClosed
    | WorkersGone | StopSignalled | Closing(closed: nat) | Returned

  datatype System = System(
    started: bool, queue: seq<Event>,
    cancelled: bool, dieClosed: bool, queueClosed: bool,
    workers: seq<Worker>, wg: nat,
    sweeper: Sweeper, sweeperDone: bool, clock: int, stage: Stage)

  /** What has happened to every event so far.  logs[0] lists the events received from the
      queue, logs[1] those correlated, logs[k + 2] those written to storage k. */
  datatype Ledger = Ledger(
    offered: seq<Event>, accepted: seq<Event>,
    droppedOnDie: seq<Event>, droppedOnFull: seq<Event>, recovered: seq<Event>,
    logs: seq<seq<Event>>, processed: seq<Event>, history: seq<C.Op>)

  datatype State = State(sys: System, led: Ledger)

  datatype Arm = Die | Send | Handoff(w: nat) | Default | SendOnClosed

  datatype Turn = Receive | SeeCancel | SeeClosed | Advance(now: int)

  datatype Step =
    | Run
    | Offer(event: Event, arm: Arm)
    | Work(w: nat, turn: Turn)
    | Sweep(now: int)
    | SweeperExit
    | Shutdown

  function Init(c: Config): State {
    State(System(false, [], false, false, false, [], 0, Idle, false, 0, NotCalled),
          Ledger([], [], [], [], [], seq(c.storages + 2, _ => []), [], []))
  }

  /** What correlating an event does: a response is looked up, a query is stored. */
  function OpOf(e: Event, now: int): C.Op {
    if e.dns.flags.qr
    then C.Op.Lookup(e.network.queryIP, e.dns.id, e.dns.qname, e.dns.qtype, now)
    else C.Op.Store(e.network.queryIP, e.dns.id, e.dns.qname, e.dns.qtype, now)
  }

  predicate ArmReady(c: Config, s: System, arm: Arm) {
    match arm
    case Die => s.dieClosed
    case Send => !s.queueClosed && |s.queue| < c.queueSize
    case Handoff(w) =>
      !s.queueClosed && !s.cancelled && s.queue == [] && w < |s.workers| && s.workers[w].Selecting?
    case Default => !s.dieClosed && !s.queueClosed && |s.queue| >= c.queueSize
    case SendOnClosed => s.queueClosed
  }

  predicate TurnReady(s: System, w: nat, turn: Turn) {
    && w < |s.workers|
    && match turn
       case Receive => s.workers[w].Selecting? && s.queue != []
       case SeeCancel => s.workers[w].Selecting? && s.cancelled
       case SeeClosed => s.workers[w].Selecting? && s.queueClosed && s.queue == []
       case Advance(now) => s.workers[w].Holding? && s.clock <= now
  }

  predicate Enabled(c: Config, s: System, step: Step) {
    match step
    case Run => !s.started && s.stage == NotCalled
    case Offer(_, arm) => ArmReady(c, s, arm)
    case Work(w, turn) => TurnReady(s, w, turn)
    case Sweep(now) => s.sweeper == Running && s.clock <= now
    case SweeperExit => s.sweeper == Running && s.sweeperDone
    case Shutdown =>
      match s.stage
      case QueueClosed => s.wg == 0
      case StopSignalled => s.sweeper != Running
      case Returned => false
      case _ => true
  }

  function NextShutdown(c: Config, s: System): System {
    match s.stage
    case NotCalled => s.(cancelled := s.started, stage := Cancelled)
    case Cancelled => s.(dieClosed := true, stage := DieClosed)
    case DieClosed => s.(queueClosed := true, stage := QueueClosed)
    case QueueClosed => s.(stage := WorkersGone)
    case WorkersGone => s.(sweeperDone := true, stage := StopSignalled)
    case StopSignalled => s.(stage := Closing(0))
    case Closing(k) => s.(stage := if k < c.storages then Closing(k + 1) else Returned)
    case Returned => s
  }

  /** processEvent, one storage at a time, and back to the select. */
  function Advanced(c: Config, h: Worker): Worker {
    if h.Holding? && h.stage <= c.storages then Holding(h.event, h.stage + 1) else Selecting
  }

  /** A worker's turn.  A turn that is not ready changes nothing. */
  function NextWork(c: Config, s: System, w: nat, turn: Turn): System {
    if !TurnReady(s, w, turn) then s
    else match turn
      case Receive => s.(queue := s.queue[1..], workers := s.workers[w := Holding(s.queue[0], 0)])
      case Advance(now) => s.(workers := s.workers[w := Advanced(c, s.workers[w])], clock := now)
      case _ => s.(workers := s.workers[w := Exited], wg := if s.wg > 0 then s.wg - 1 else 0)
  }

  function NextOffer(c: Config, s: System, e: Event, arm: Arm): System {
    if !ArmReady(c, s, arm) then s
    else match arm
      case Send => s.(queue := s.queue + [e])
      case Handoff(w) => s.(workers := s.workers[w := Holding(e, 0)])
      case _ => s
  }

  function NextSystem(c: Config, s: System, step: Step): System {
    match step
    case Run => s.(started := true, workers := seq(c.workers, _ => Selecting), wg := c.workers, sweeper := Running)
    case Offer(e, arm) => NextOffer(c, s, e, arm)
    case Work(w, turn) => NextWork(c, s, w, turn)
    case Sweep(now) => s.(clock := now)
    case SweeperExit => s.(sweeper := Gone)
    case Shutdown => NextShutdown(c, s)
  }

  /** One more event in log k. */
  function Enter(l: Ledger, k: nat, e: Event): Ledger {
    if k < |l.logs| then l.(logs := l.logs[k := l.logs[k] + [e]]) else l
  }

  function OfferEntry(l0: Ledger, e: Event, arm: Arm): Ledger {
    var l := l0.(offered := l0.offered + [e]);
    match arm
    case Die => l.(droppedOnDie := l.droppedOnDie + [e])
    case Default => l.(droppedOnFull := l.droppedOnFull + [e])
    case SendOnClosed => l.(recovered := l.recovered + [e])
    case Send => l.(accepted := l.accepted + [e])
    case Handoff(_) => Enter(l.(accepted := l.accepted + [e]), 0, e)
  }

  function AdvanceEntry(c: Config, l: Ledger, h: Worker, now: int): Ledger {
    if !h.Holding? then l
    else if h.stage == 0 then Enter(l.(history := l.history + [OpOf(h.event, now)]), 1, h.event)
    else if h.stage <= c.storages then Enter(l, h.stage + 1, h.event)
    else l.(processed := l.processed + [h.event])
  }

  function WorkEntry(c: Config, s: System, l: Ledger, w: nat, turn: Turn): Ledger {
    if !TurnReady(s, w, turn) then l
    else match turn
      case Receive => Enter(l, 0, s.queue[0])
      case Advance(now) => AdvanceEntry(c, l, s.workers[w], now)
      case _ => l
  }

  function NextLedger(c: Config, s: System, l: Ledger, step: Step): Ledger {
    match step
    case Offer(e, arm) => OfferEntry(l, e, arm)
    case Work(w, turn) => WorkEntry(c, s, l, w, turn)
    case Sweep(now) => l.(history := l.history + [C.Evict(now)])
    case _ => l
  }

  function Next(c: Config, s: State, step: Step): State {
    State(NextSystem(c, s.sys, step), NextLedger(c, s.sys, s.led, step))
  }

  // ------------------------------------------------------ sums over the workers

  function One(w: Worker, k: nat): multiset<Event> {
    if w.Holding? && w.stage >= k then multiset{w.event} else multiset{}
  }

  function PastUpTo(ws: seq<Worker>, n: nat, k: nat): multiset<Event>
    requires n <= |ws|
  {
    if n == 0 then multiset{} else PastUpTo(ws, n - 1, k) + One(ws[n - 1], k)
  }

  /** The events held at stage k or later. */
  function Past(ws: seq<Worker>, k: nat): multiset<Event> { PastUpTo(ws, |ws|, k) }

  function InFlight(ws: seq<Worker>): multiset<Event> { Past(ws, 0) }

  function Alive(ws: seq<Worker>): nat {
    if ws == [] then 0 else Alive(ws[..|ws| - 1]) + (if ws[|ws| - 1].Exited? then 0 else 1)
  }

  lemma {:induction false} PrefixUpdate(ws: seq<Worker>, i: nat, w: Worker, n: nat, k: nat)
    requires n <= i < |ws|
    ensures PastUpTo(ws[i := w], n, k) == PastUpTo(ws, n, k)
  {
    if n > 0 { PrefixUpdate(ws, i, w, n - 1, k); }
  }

  lemma {:induction false} PastUpdateUpTo(ws: seq<Worker>, i: nat, w: Worker, n: nat, k: nat)
    requires i < n <= |ws|
    ensures PastUpTo(ws[i := w], n, k) + One(ws[i], k) == PastUpTo(ws, n, k) + One(w, k)
  {
    if i == n - 1 {
      PrefixUpdate(ws, i, w, i, k);
      Regroup(PastUpTo(ws, i, k), One(w, k), One(ws[i], k));
    } else {
      PastUpdateUpTo(ws, i, w, n - 1, k);
      Regroup(PastUpTo(ws[i := w], n - 1, k), One(ws[n - 1], k), One(ws[i], k));
      Regroup(PastUpTo(ws, n - 1, k), One(ws[n - 1], k), One(w, k));
    }
  }

  lemma PastUpdate(ws: seq<Worker>, i: nat, w: Worker, k: nat)
    requires i < |ws|
    ensures Past(ws[i := w], k) + One(ws[i], k) == Past(ws, k) + One(w, k)
  {
    PastUpdateUpTo(ws, i, w, |ws|, k);
  }

  lemma SameOne(ws: seq<Worker>, i: nat, w: Worker, k: nat)
    requires i < |ws| && One(ws[i], k) == One(w, k)
    ensures Past(ws[i := w], k) == Past(ws, k)
  {
    PastUpdate(ws, i, w, k);
    Cancel(Past(ws[i := w], k), Past(ws, k), One(w, k));
  }

  lemma {:induction false} AliveUpdate(ws: seq<Worker>, i: nat, w: Worker)
    requires i < |ws|
    ensures Alive(ws[i := w]) + (if ws[i].Exited? then 0 else 1) == Alive(ws) + (if w.Exited? then 0 else 1)
  {
    var last := |ws| - 1;
    if i == last {
      assert ws[i := w][..last] == ws[..last];
    } else {
      AliveUpdate(ws[..last], i, w);
      assert ws[i := w][..last] == ws[..last][i := w];
    }
  }

  lemma {:induction false} NothingHeld(ws: seq<Worker>, n: nat, k: nat)
    requires n <= |ws| && forall i :: 0 <= i < n ==> !ws[i].Holding?
    ensures PastUpTo(ws, n, k) == multiset{}
  {
    if n > 0 { NothingHeld(ws, n - 1, k); }
  }

  lemma {:induction false} FreshPoolAlive(ws: seq<Worker>)
    requires forall i :: 0 <= i < |ws| ==> ws[i] == Selecting
    ensures Alive(ws) == |ws|
  {
    if ws != [] { FreshPoolAlive(ws[..|ws| - 1]); }
  }

  lemma FreshPool(ws: seq<Worker>, k: nat)
    requires forall i :: 0 <= i < |ws| ==> ws[i] == Selecting
    ensures Past(ws, k) == multiset{} && Alive(ws) == |ws|
  {
    NothingHeld(ws, |ws|, k);
    FreshPoolAlive(ws);
  }

  lemma {:induction false} NobodyAliveExited(ws: seq<Worker>, i: nat)
    requires Alive(ws) == 0 && i < |ws|
    ensures ws[i].Exited?
  {
    if i < |ws| - 1 { NobodyAliveExited(ws[..|ws| - 1], i); }
  }

  lemma NobodyAlive(ws: seq<Worker>, k: nat)
    requires Alive(ws) == 0
    ensures Past(ws, k) == multiset{}
    ensures forall i :: 0 <= i < |ws| ==> ws[i].Exited?
  {
    forall i | 0 <= i < |ws| ensures ws[i].Exited? { NobodyAliveExited(ws, i); }
    NothingHeld(ws, |ws|, k);
  }

  lemma {:induction false} SomebodyAlive(ws: seq<Worker>) returns (i: nat)
    requires Alive(ws) > 0
    ensures i < |ws| && !ws[i].Exited?
  {
    if ws[|ws| - 1].Exited? {
      i := SomebodyAlive(ws[..|ws| - 1]);
    } else {
      i := |ws| - 1;
    }
  }

  // ------------------------------------------------------------- the invariant

  function Order(stage: Stage): nat {
    match stage
    case NotCalled => 0
    case Cancelled => 1
    case DieClosed => 2
    case QueueClosed => 3
    case WorkersGone => 4
    case StopSignalled => 5
    case Closing(_) => 6
    case Returned => 7
  }

  predicate Closed(s: System, k: nat) {
    s.stage == Returned || (s.stage.Closing? && k < s.stage.closed)
  }

  predicate FlagsInv(c: Config, s: System) {
    && (s.dieClosed <==> Order(s.stage) >= 2)
    && (s.queueClosed <==> Order(s.stage) >= 3)
    && (s.cancelled <==> s.started && Order(s.stage) >= 1)
    && (s.sweeper == Idle <==> !s.started)
    && (s.started && !s.sweeperDone ==> s.sweeper == Running)
    && |s.workers| == (if s.started then c.workers else 0)
    && s.wg == Alive(s.workers)
    && (Order(s.stage) >= 4 ==> s.wg == 0)
    && (Order(s.stage) >= 5 <==> s.sweeperDone)
    && (Order(s.stage) >= 6 ==> s.sweeper != Running)
    && (s.stage.Closing? ==> s.stage.closed <= c.storages)
    && |s.queue| <= c.queueSize
  }

  /** Everything in a log is held past that stage or processed, nothing twice. */
  predicate Balanced(log: seq<Event>, ws: seq<Worker>, k: nat, processed: seq<Event>) {
    multiset(log) == Past(ws, k) + multiset(processed)
  }

  predicate StagesInv(c: Config, ws: seq<Worker>) {
    forall i :: 0 <= i < |ws| && ws[i].Holding? ==> ws[i].stage <= c.storages + 1
  }

  predicate LogsInv(logs: seq<seq<Event>>, ws: seq<Worker>, processed: seq<Event>) {
    forall k :: 0 <= k < |logs| ==> Balanced(logs[k], ws, k, processed)
  }

  predicate FifoInv(s: System, l: Ledger) {
    |l.logs| > 0 && l.accepted == l.logs[0] + s.queue
  }

  predicate OffersInv(l: Ledger) {
    multiset(l.offered)
      == multiset(l.accepted) + multiset(l.droppedOnDie) + multiset(l.droppedOnFull) + multiset(l.recovered)
  }

  function HeldBy(ws: seq<Worker>, k: nat): seq<Event> {
    if |ws| == 1 && ws[0].Holding? && ws[0].stage >= k then [ws[0].event] else []
  }

  /** At most one worker keeps the order of acceptance in every log. */
  predicate OrderInv(logs: seq<seq<Event>>, ws: seq<Worker>, processed: seq<Event>) {
    forall k :: 0 <= k < |logs| ==> logs[k] == processed + HeldBy(ws, k)
  }

  /** The correlator's history is the correlated events in order, with sweeps between. */
  predicate Corresponds(h: seq<C.Op>, es: seq<Event>) {
    if h == [] then es == []
    else if h[|h| - 1].Evict? then Corresponds(h[..|h| - 1], es)
    else es != [] && h[|h| - 1] == OpOf(es[|es| - 1], h[|h| - 1].now)
         && Corresponds(h[..|h| - 1], es[..|es| - 1])
  }

  predicate HistoryInv(clock: int, h: seq<C.Op>, correlated: seq<Event>) {
    && Corresponds(h, correlated)
    && C.Timed(h)
    && forall i :: 0 <= i < |h| ==> h[i].now <= clock
  }

  predicate Inv(c: Config, s: State) {
    && |s.led.logs| == c.storages + 2
    && FlagsInv(c, s.sys)
    && StagesInv(c, s.sys.workers)
    && LogsInv(s.led.logs, s.sys.workers, s.led.processed)
    && FifoInv(s.sys, s.led)
    && OffersInv(s.led)
    && (c.workers <= 1 ==> OrderInv(s.led.logs, s.sys.workers, s.led.processed))
    && HistoryInv(s.sys.clock, s.led.history, s.led.logs[1])
  }

  lemma InitHolds(c: Config)
    ensures Inv(c, Init(c))
  {
  }

  lemma FlagsKeptByWork(c: Config, s: System, w: nat, turn: Turn)
    requires FlagsInv(c, s) && TurnReady(s, w, turn)
    ensures FlagsInv(c, NextWork(c, s, w, turn))
  {
    AliveUpdate(s.workers, w, NextWork(c, s, w, turn).workers[w]);
  }

  lemma FlagsKept(c: Config, s: System, step: Step)
    requires FlagsInv(c, s) && Enabled(c, s, step)
    ensures FlagsInv(c, NextSystem(c, s, step))
  {
    match step
    case Run => FreshPool(NextSystem(c, s, step).workers, 0);
    case Offer(e, arm) => if arm.Handoff? { AliveUpdate(s.workers, arm.w, Holding(e, 0)); }
    case Work(w, turn) => FlagsKeptByWork(c, s, w, turn);
    case _ =>
  }

  lemma LogsCount(c: Config, s: System, l: Ledger, step: Step)
    ensures |NextLedger(c, s, l, step).logs| == |l.logs|
  {
  }

  // Three ways a worker can change, and what each does to every log.

  lemma EnterBalanced(log: seq<Event>, ws: seq<Worker>, k: nat, processed: seq<Event>, i: nat, w: Worker)
    requires Balanced(log, ws, k, processed) && i < |ws|
    requires w.Holding? && w.stage >= k && One(ws[i], k) == multiset{}
    ensures Balanced(log + [w.event], ws[i := w], k, processed)
  {
    PastUpdate(ws, i, w, k);
    Regroup(Past(ws, k), One(w, k), multiset(processed));
  }

  lemma LeaveBalanced(log: seq<Event>, ws: seq<Worker>, k: nat, processed: seq<Event>, i: nat, w: Worker)
    requires Balanced(log, ws, k, processed) && i < |ws|
    requires ws[i].Holding? && ws[i].stage >= k && One(w, k) == multiset{}
    ensures Balanced(log, ws[i := w], k, processed + [ws[i].event])
  {
    PastUpdate(ws, i, w, k);
    var e := ws[i].event;
    assert Past(ws[i := w], k) + multiset{e} == Past(ws, k);
    Regroup(Past(ws[i := w], k), multiset{e}, multiset(processed));
    Associate(Past(ws[i := w], k), multiset(processed), multiset{e});
  }

  lemma EnterKeepsLogs(logs: seq<seq<Event>>, ws: seq<Worker>, processed: seq<Event>, i: nat, w: Worker)
    requires LogsInv(logs, ws, processed) && i < |ws| && w.Holding? && w.stage < |logs|
    requires if w.stage == 0 then !ws[i].Holding? else ws[i] == Holding(w.event, w.stage - 1)
    ensures LogsInv(logs[w.stage := logs[w.stage] + [w.event]], ws[i := w], processed)
  {
    var logs' := logs[w.stage := logs[w.stage] + [w.event]];
    forall k | 0 <= k < |logs| ensures Balanced(logs'[k], ws[i := w], k, processed) {
      assert Balanced(logs[k], ws, k, processed);
      if k == w.stage { EnterBalanced(logs[k], ws, k, processed, i, w); } else { SameOne(ws, i, w, k); }
    }
  }

  lemma LeaveKeepsLogs(logs: seq<seq<Event>>, ws: seq<Worker>, processed: seq<Event>, i: nat)
    requires LogsInv(logs, ws, processed) && i < |ws| && ws[i].Holding? && ws[i].stage + 1 >= |logs|
    ensures LogsInv(logs, ws[i := Selecting], processed + [ws[i].event])
  {
    forall k | 0 <= k < |logs| ensures Balanced(logs[k], ws[i := Selecting], k, processed + [ws[i].event]) {
      LeaveBalanced(logs[k], ws, k, processed, i, Selecting);
    }
  }

  lemma ExitKeepsLogs(logs: seq<seq<Event>>, ws: seq<Worker>, processed: seq<Event>, i: nat)
    requires LogsInv(logs, ws, processed) && i < |ws| && !ws[i].Holding?
    ensures LogsInv(logs, ws[i := Exited], processed)
  {
    forall k | 0 <= k < |logs| ensures Balanced(logs[k], ws[i := Exited], k, processed) {
      assert Balanced(logs[k], ws, k, processed);
      SameOne(ws, i, Exited, k);
    }
  }

  lemma StartKeepsLogs(logs: seq<seq<Event>>, ws: seq<Worker>, processed: seq<Event>, n: nat)
    requires LogsInv(logs, ws, processed) && ws == []
    ensures LogsInv(logs, seq(n, _ => Selecting), processed)
  {
    forall k | 0 <= k < |logs| ensures Balanced(logs[k], seq(n, _ => Selecting), k, processed) {
      assert Balanced(logs[k], ws, k, processed);
      FreshPool(seq(n, _ => Selecting), k);
    }
  }

  lemma StageInRange(c: Config, ws: seq<Worker>, w: nat)
    requires StagesInv(c, ws) && w < |ws| && ws[w].Holding?
    ensures ws[w].stage <= c.storages + 1
  {
  }

  lemma LogsKeptByAdvance(c: Config, s: System, l: Ledger, w: nat, now: int)
    requires |l.logs| == c.storages + 2 && StagesInv(c, s.workers)
    requires LogsInv(l.logs, s.workers, l.processed) && w < |s.workers| && s.workers[w].Holding?
    ensures var m := AdvanceEntry(c, l, s.workers[w], now);
      LogsInv(m.logs, s.workers[w := Advanced(c, s.workers[w])], m.processed)
  {
    hide LogsInv, OpOf, StagesInv;
    StageInRange(c, s.workers, w);
    if s.workers[w].stage <= c.storages {
      EnterKeepsLogs(l.logs, s.workers, l.processed, w, Advanced(c, s.workers[w]));
    } else {
      LeaveKeepsLogs(l.logs, s.workers, l.processed, w);
    }
  }

  lemma LogsKeptByWork(c: Config, s: System, l: Ledger, w: nat, turn: Turn)
    requires |l.logs| == c.storages + 2 && StagesInv(c, s.workers)
    requires LogsInv(l.logs, s.workers, l.processed) && TurnReady(s, w, turn)
    ensures var m := WorkEntry(c, s, l, w, turn); LogsInv(m.logs, NextWork(c, s, w, turn).workers, m.processed)
  {
    hide LogsInv, StagesInv, Advanced, AdvanceEntry;
    match turn
    case Receive => EnterKeepsLogs(l.logs, s.workers, l.processed, w, Holding(s.queue[0], 0));
    case Advance(now) => LogsKeptByAdvance(c, s, l, w, now);
    case _ => ExitKeepsLogs(l.logs, s.workers, l.processed, w);
  }

  lemma LogsKept(c: Config, s: System, l: Ledger, step: Step)
    requires |l.logs| == c.storages + 2 && FlagsInv(c, s) && StagesInv(c, s.workers)
    requires LogsInv(l.logs, s.workers, l.processed) && Enabled(c, s, step)
    ensures LogsInv(NextLedger(c, s, l, step).logs, NextSystem(c, s, step).workers, NextLedger(c, s, l, step).processed)
  {
    hide LogsInv, StagesInv, WorkEntry, NextWork;
    match step
    case Run => StartKeepsLogs(l.logs, s.workers, l.processed, c.workers);
    case Offer(e, arm) => if arm.Handoff? { EnterKeepsLogs(l.logs, s.workers, l.processed, arm.w, Holding(e, 0)); }
    case Work(w, turn) => LogsKeptByWork(c, s, l, w, turn);
    case _ =>
  }

  lemma FreshStages(c: Config)
    ensures StagesInv(c, seq(c.workers, _ => Selecting))
  {
  }

  lemma StageKept(c: Config, ws: seq<Worker>, w: nat, h: Worker)
    requires StagesInv(c, ws) && w < |ws| && (h.Holding? ==> h.stage <= c.storages + 1)
    ensures StagesInv(c, ws[w := h])
  {
  }

  lemma StagesKeptByWork(c: Config, s: System, w: nat, turn: Turn)
    requires StagesInv(c, s.workers) && TurnReady(s, w, turn)
    ensures StagesInv(c, NextWork(c, s, w, turn).workers)
  {
    hide StagesInv;
    match turn
    case Receive => StageKept(c, s.workers, w, Holding(s.queue[0], 0));
    case Advance(_) => StageKept(c, s.workers, w, Advanced(c, s.workers[w]));
    case _ => StageKept(c, s.workers, w, Exited);
  }

  lemma StagesKept(c: Config, s: System, step: Step)
    requires StagesInv(c, s.workers) && Enabled(c, s, step)
    ensures StagesInv(c, NextSystem(c, s, step).workers)
  {
    hide StagesInv;
    match step
    case Run => FreshStages(c);
    case Offer(e, arm) => if arm.Handoff? { StageKept(c, s.workers, arm.w, Holding(e, 0)); }
    case Work(w, turn) => StagesKeptByWork(c, s, w, turn);
    case _ =>
  }

  lemma FifoKeptByWork(c: Config, s: System, l: Ledger, w: nat, turn: Turn)
    requires FifoInv(s, l) && TurnReady(s, w, turn)
    ensures FifoInv(NextWork(c, s, w, turn), WorkEntry(c, s, l, w, turn))
  {
    if turn.Receive? { assert s.queue == [s.queue[0]] + s.queue[1..]; }
  }

  lemma {:induction false} FifoKept(c: Config, s: System, l: Ledger, step: Step)
    requires FifoInv(s, l) && Enabled(c, s, step)
    ensures FifoInv(NextSystem(c, s, step), NextLedger(c, s, l, step))
  {
    if step.Work? { FifoKeptByWork(c, s, l, step.w, step.turn); }
  }

  lemma OneMore<T>(a: multiset<T>, b: multiset<T>, c: multiset<T>, d: multiset<T>, e: multiset<T>)
    ensures a + b + c + d + e == (a + e) + b + c + d
    ensures a + b + c + d + e == a + (b + e) + c + d
    ensures a + b + c + d + e == a + b + (c + e) + d
    ensures a + b + c + d + e == a + b + c + (d + e)
  {
  }

  lemma OffersKept(c: Config, s: System, l: Ledger, step: Step)
    requires OffersInv(l)
    ensures OffersInv(NextLedger(c, s, l, step))
  {
    if step.Offer? {
      OneMore(multiset(l.accepted), multiset(l.droppedOnDie), multiset(l.droppedOnFull), multiset(l.recovered),
              multiset{step.event});
    }
  }

  lemma OrderKeptByEntry(logs: seq<seq<Event>>, ws: seq<Worker>, processed: seq<Event>, w: Worker)
    requires OrderInv(logs, ws, processed) && |ws| == 1 && w.Holding? && w.stage < |logs|
    requires if w.stage == 0 then !ws[0].Holding? else ws[0] == Holding(w.event, w.stage - 1)
    ensures OrderInv(logs[w.stage := logs[w.stage] + [w.event]], ws[0 := w], processed)
  {
  }

  lemma OrderKeptByLeaving(logs: seq<seq<Event>>, ws: seq<Worker>, processed: seq<Event>)
    requires OrderInv(logs, ws, processed) && |ws| == 1 && ws[0].Holding? && ws[0].stage + 1 >= |logs|
    ensures OrderInv(logs, ws[0 := Selecting], processed + [ws[0].event])
  {
  }

  lemma OrderKeptByExit(logs: seq<seq<Event>>, ws: seq<Worker>, processed: seq<Event>, w: nat)
    requires OrderInv(logs, ws, processed) && w < |ws| <= 1 && !ws[w].Holding?
    ensures OrderInv(logs, ws[w := Exited], processed)
  {
  }

  lemma OrderKeptByWork(c: Config, s: System, l: Ledger, w: nat, turn: Turn)
    requires |l.logs| == c.storages + 2 && |s.workers| <= 1 && StagesInv(c, s.workers)
    requires OrderInv(l.logs, s.workers, l.processed) && TurnReady(s, w, turn)
    ensures var m := WorkEntry(c, s, l, w, turn); OrderInv(m.logs, NextWork(c, s, w, turn).workers, m.processed)
  {
    hide OrderInv, StagesInv, OpOf;
    match turn
    case Receive => OrderKeptByEntry(l.logs, s.workers, l.processed, Holding(s.queue[0], 0));
    case Advance(now) =>
      StageInRange(c, s.workers, w);
      if s.workers[w].stage <= c.storages {
        OrderKeptByEntry(l.logs, s.workers, l.processed, Advanced(c, s.workers[w]));
      } else {
        OrderKeptByLeaving(l.logs, s.workers, l.processed);
      }
    case _ => OrderKeptByExit(l.logs, s.workers, l.processed, w);
  }

  lemma OrderKept(c: Config, s: System, l: Ledger, step: Step)
    requires |l.logs| == c.storages + 2 && FlagsInv(c, s) && StagesInv(c, s.workers) && c.workers <= 1
    requires OrderInv(l.logs, s.workers, l.processed) && Enabled(c, s, step)
    ensures var m := NextLedger(c, s, l, step); OrderInv(m.logs, NextSystem(c, s, step).workers, m.processed)
  {
    match step
    case Work(w, turn) => OrderKeptByWork(c, s, l, w, turn);
    case _ =>
  }

  lemma CorrespondsGrows(h: seq<C.Op>, es: seq<Event>, op: C.Op)
    requires Corresponds(h, es)
    ensures op.Evict? ==> Corresponds(h + [op], es)
    ensures forall e :: op == OpOf(e, op.now) ==> Corresponds(h + [op], es + [e])
  {
    assert (h + [op])[..|h|] == h;
    forall e | op == OpOf(e, op.now) ensures Corresponds(h + [op], es + [e]) {
      assert (es + [e])[..|es|] == es;
    }
  }

  lemma TimedGrows(h: seq<C.Op>, op: C.Op)
    requires C.Timed(h) && forall i :: 0 <= i < |h| ==> h[i].now <= op.now
    ensures C.Timed(h + [op]) && forall i :: 0 <= i <= |h| ==> (h + [op])[i].now <= op.now
  {
  }

  lemma HistoryGrows(clock: int, h: seq<C.Op>, es: seq<Event>, e: Event, now: int)
    requires HistoryInv(clock, h, es) && clock <= now
    ensures HistoryInv(now, h, es)
    ensures HistoryInv(now, h + [C.Evict(now)], es)
    ensures HistoryInv(now, h + [OpOf(e, now)], es + [e])
  {
    CorrespondsGrows(h, es, C.Evict(now));
    CorrespondsGrows(h, es, OpOf(e, now));
    TimedGrows(h, C.Evict(now));
    TimedGrows(h, OpOf(e, now));
  }

  lemma HistoryKeptByAdvance(c: Config, l: Ledger, clock: int, h: Worker, now: int)
    requires |l.logs| > 1 && HistoryInv(clock, l.history, l.logs[1]) && h.Holding? && clock <= now
    ensures var m := AdvanceEntry(c, l, h, now);
      |m.logs| == |l.logs| && HistoryInv(now, m.history, m.logs[1])
  {
    HistoryGrows(clock, l.history, l.logs[1], h.event, now);
  }

  lemma HistoryKeptByWork(c: Config, s: System, l: Ledger, w: nat, turn: Turn)
    requires |l.logs| > 1 && HistoryInv(s.clock, l.history, l.logs[1]) && TurnReady(s, w, turn)
    ensures var m := WorkEntry(c, s, l, w, turn);
      |m.logs| == |l.logs| && HistoryInv(NextWork(c, s, w, turn).clock, m.history, m.logs[1])
  {
    hide HistoryInv, OpOf, AdvanceEntry, Advanced;
    if turn.Advance? {
      HistoryKeptByAdvance(c, l, s.clock, s.workers[w], turn.now);
    } else {
      assert WorkEntry(c, s, l, w, turn).logs[1] == l.logs[1];
    }
  }

  lemma HistoryKept(c: Config, s: System, l: Ledger, step: Step)
    requires |l.logs| > 1 && HistoryInv(s.clock, l.history, l.logs[1]) && Enabled(c, s, step)
    ensures var m := NextLedger(c, s, l, step);
      |m.logs| == |l.logs| && HistoryInv(NextSystem(c, s, step).clock, m.history, m.logs[1])
  {
    hide HistoryInv, OpOf;
    match step
    case Work(w, turn) => HistoryKeptByWork(c, s, l, w, turn);
    case Sweep(now) => HistoryGrows(s.clock, l.history, l.logs[1], ZERO_EVENT, now);
    case _ => assert NextLedger(c, s, l, step).logs[1] == l.logs[1];
  }

  lemma StepKeepsInv(c: Config, s: State, step: Step)
    requires Inv(c, s) && Enabled(c, s.sys, step)
    ensures Inv(c, Next(c, s, step))
  {
    FlagsKept(c, s.sys, step);
    StagesKept(c, s.sys, step);
    LogsCount(c, s.sys, s.led, step);
    LogsKept(c, s.sys, s.led, step);
    FifoKept(c, s.sys, s.led, step);
    OffersKept(c, s.sys, s.led, step);
    if c.workers <= 1 { OrderKept(c, s.sys, s.led, step); }
    HistoryKept(c, s.sys, s.led, step);
  }
}
