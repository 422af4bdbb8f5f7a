/** The Pipeline struct with its correlator, its location resolver and its storages: the
    goroutines' actions as methods over mutable fields.  The fields stand for a state of
    PipelineMachine, kept in a ghost; what a storage holds is what the machine's ledger of
    it says, event by event, as enriched. */
module PipelineObject {
  import opened PipelineMachine
  import C = Correlator
  import Domain
  import En = Enrichment
  import R = PipelineRuns

  type Resolver = Domain.Option<En.Resolver>

  /** A worker goroutine: at its select, in processEvent with its own copy of the event and
      so many of its actions done, or finished. */
  datatype Thread = AtSelect | Processing(local: Event, done: nat) | Finished

  // ----------------------------------------------------- fields and machine states

  predicate Follows(g: Resolver, t: Thread, w: Worker) {
    match w
    case Selecting => t == AtSelect
    case Holding(e, k) => t == Processing(if k == 0 then e else En.Enriched(g, e), k)
    case Exited => t == Finished
  }

  predicate AllFollow(g: Resolver, ts: seq<Thread>, ws: seq<Worker>) {
    |ts| == |ws| && forall i :: 0 <= i < |ts| ==> Follows(g, ts[i], ws[i])
  }

  /** Storage k holds the events of its log, each as enriched. */
  predicate StoredFollows(g: Resolver, stored: seq<seq<Event>>, logs: seq<seq<Event>>) {
    |logs| == |stored| + 2 && forall k :: 0 <= k < |stored| ==> stored[k] == En.Handed(g, logs[k + 2])
  }

  lemma StoreOne(g: Resolver, stored: seq<seq<Event>>, logs: seq<seq<Event>>, k: nat, e: Event)
    requires StoredFollows(g, stored, logs) && k < |stored|
    ensures StoredFollows(g, stored[k := stored[k] + [En.Enriched(g, e)]], logs[k + 2 := logs[k + 2] + [e]])
  {
    En.HandedGrows(g, logs[k + 2], e);
    hide En.Handed;
  }

  lemma BusyMeansCounted(c: Config, s: State, w: nat)
    requires Inv(c, s) && w < |s.sys.workers| && !s.sys.workers[w].Exited?
    ensures s.sys.wg > 0
  {
    if s.sys.wg == 0 { NobodyAlive(s.sys.workers, 0); }
  }

  lemma StageInRange(c: Config, s: State, w: nat)
    requires Inv(c, s) && w < |s.sys.workers| && s.sys.workers[w].Holding?
    ensures s.sys.workers[w].stage <= c.storages + 1 && |s.led.logs| == c.storages + 2
  {
  }

  /** The threads and storages stand for the machine's workers and logs. */
  predicate Refines(g: Resolver, ts: seq<Thread>, stored: seq<seq<Event>>, s: State) {
    AllFollow(g, ts, s.sys.workers) && StoredFollows(g, stored, s.led.logs)
  }

  lemma ThreadOf(c: Config, g: Resolver, ts: seq<Thread>, stored: seq<seq<Event>>, s: State, w: nat, now: int)
    requires Inv(c, s) && Refines(g, ts, stored, s) && TurnReady(s.sys, w, Advance(now))
    ensures w < |ts| && ts[w].Processing? && |stored| == c.storages
  {
    hide Inv;
    StageInRange(c, s, w);
  }

  lemma BeginRefines(c: Config, g: Resolver, ts: seq<Thread>, stored: seq<seq<Event>>, s: State, w: nat, now: int)
    requires Inv(c, s) && Refines(g, ts, stored, s) && TurnReady(s.sys, w, Advance(now))
    requires w < |ts| && ts[w].Processing? && ts[w].done == 0
    ensures var t := Next(c, s, Work(w, Advance(now)));
      && Refines(g, ts[w := Processing(En.Enriched(g, ts[w].local), 1)], stored, t)
      && t.led.history == s.led.history + [OpOf(ts[w].local, now)]
  {
    hide Inv, En.Enriched, En.Handed;
    StageInRange(c, s, w);
  }

  lemma WriteRefines(c: Config, g: Resolver, ts: seq<Thread>, stored: seq<seq<Event>>, s: State, w: nat, now: int)
    requires Inv(c, s) && Refines(g, ts, stored, s) && TurnReady(s.sys, w, Advance(now)) && |stored| == c.storages
    requires w < |ts| && ts[w].Processing? && 0 < ts[w].done <= c.storages
    ensures var t := Next(c, s, Work(w, Advance(now))); var Processing(local, done) := ts[w];
      && Refines(g, ts[w := Processing(local, done + 1)], stored[done - 1 := stored[done - 1] + [local]], t)
      && t.led.history == s.led.history
  {
    hide Inv, En.Enriched, En.Handed;
    StageInRange(c, s, w);
    StoreOne(g, stored, s.led.logs, ts[w].done - 1, s.sys.workers[w].event);
  }

  lemma CompleteRefines(c: Config, g: Resolver, ts: seq<Thread>, stored: seq<seq<Event>>, s: State, w: nat, now: int)
    requires Inv(c, s) && Refines(g, ts, stored, s) && TurnReady(s.sys, w, Advance(now))
    requires w < |ts| && ts[w].Processing? && ts[w].done > c.storages
    ensures var t := Next(c, s, Work(w, Advance(now)));
      Refines(g, ts[w := AtSelect], stored, t) && t.led.history == s.led.history
  {
    hide Inv, En.Enriched, En.Handed;
    StageInRange(c, s, w);
  }

  /** Only the workers and the clock change in the machine. */
  predicate SameChannels(s: System, t: System) {
    && s.started == t.started && s.queue == t.queue
    && s.cancelled == t.cancelled && s.dieClosed == t.dieClosed && s.queueClosed == t.queueClosed
    && s.wg == t.wg && s.sweeper == t.sweeper && s.sweeperDone == t.sweeperDone && s.stage == t.stage
  }

  lemma AdvanceKeepsChannels(c: Config, s: State, w: nat, now: int)
    requires TurnReady(s.sys, w, Advance(now))
    ensures SameChannels(s.sys, Next(c, s, Work(w, Advance(now))).sys)
  {
  }

  lemma WorkersFrame(c: Config, s: System)
    ensures NextShutdown(c, s).workers == s.workers
  {
  }

  lemma QueueFrame(c: Config, s: System)
    ensures NextShutdown(c, s).queue == s.queue
  {
  }

  lemma CountersFrame(c: Config, s: System)
    ensures var t := NextShutdown(c, s); t.started == s.started && t.wg == s.wg && t.sweeper == s.sweeper
  {
  }

  /** A statement of Shutdown leaves queue, workers, wait group, sweeper and ledgers alone. */
  lemma ShutdownFrame(c: Config, s: State)
    ensures var t := Next(c, s, Shutdown);
      && t.led == s.led && t.sys.workers == s.sys.workers && t.sys.started == s.sys.started
      && t.sys.queue == s.sys.queue && t.sys.wg == s.sys.wg && t.sys.sweeper == s.sys.sweeper
  {
    hide NextShutdown;
    WorkersFrame(c, s.sys);
    QueueFrame(c, s.sys);
    CountersFrame(c, s.sys);
  }

  lemma ShutdownKeeps(c: Config, g: Resolver, ts: seq<Thread>, stored: seq<seq<Event>>, s: State)
    requires Refines(g, ts, stored, s)
    ensures Refines(g, ts, stored, Next(c, s, Shutdown))
  {
    hide Next, AllFollow, StoredFollows;
    ShutdownFrame(c, s);
  }

  /** The signals and the stage after the next statement of Shutdown. */
  lemma SignalsAre(c: Config, s: State, cancelled: bool, die: bool, queue: bool, sweeper: bool, stage: Stage)
    requires match s.sys.stage
             case NotCalled => cancelled == s.sys.started && stage == Cancelled
             case Cancelled => die && stage == DieClosed
             case DieClosed => queue && stage == QueueClosed
             case QueueClosed => stage == WorkersGone
             case WorkersGone => sweeper && stage == StopSignalled
             case StopSignalled => stage == Closing(0)
             case Closing(k) => stage == if k < c.storages then Closing(k + 1) else Returned
             case Returned => stage == Returned
    requires s.sys.stage != NotCalled ==> cancelled == s.sys.cancelled
    requires s.sys.stage != Cancelled ==> die == s.sys.dieClosed
    requires s.sys.stage != DieClosed ==> queue == s.sys.queueClosed
    requires s.sys.stage != WorkersGone ==> sweeper == s.sys.sweeperDone
    ensures var t := Next(c, s, Shutdown).sys;
      && t.cancelled == cancelled && t.dieClosed == die && t.queueClosed == queue
      && t.sweeperDone == sweeper && t.stage == stage
  {
  }

  lemma HandoffRefines(c: Config, g: Resolver, ts: seq<Thread>, stored: seq<seq<Event>>, s: State, e: Event, w: nat)
    requires Refines(g, ts, stored, s) && ArmReady(c, s.sys, Handoff(w)) && |s.led.logs| == |stored| + 2
    ensures w < |ts|
    ensures Refines(g, ts[w := Processing(e, 0)], stored, Next(c, s, Offer(e, Handoff(w))))
  {
    hide En.Handed;
  }

  lemma OfferRefines(c: Config, g: Resolver, ts: seq<Thread>, stored: seq<seq<Event>>, s: State, e: Event, arm: Arm)
    requires Refines(g, ts, stored, s) && !arm.Handoff?
    ensures Refines(g, ts, stored, Next(c, s, Offer(e, arm)))
  {
    hide AllFollow, En.Handed;
  }

  lemma LogsMatch(g: Resolver, ts: seq<Thread>, stored: seq<seq<Event>>, s: State)
    requires Refines(g, ts, stored, s)
    ensures |s.led.logs| == |stored| + 2
  {
  }

  /** Offers change only the queue and, on a handoff, a worker. */
  lemma OfferFrame(c: Config, s: State, e: Event, arm: Arm)
    ensures var t := Next(c, s, Offer(e, arm));
      && t.sys.queue == (if arm == Send && ArmReady(c, s.sys, arm) then s.sys.queue + [e] else s.sys.queue)
      && t.led.history == s.led.history
      && t.sys.started == s.sys.started && t.sys.cancelled == s.sys.cancelled
      && t.sys.dieClosed == s.sys.dieClosed && t.sys.queueClosed == s.sys.queueClosed && t.sys.wg == s.sys.wg
      && t.sys.sweeper == s.sys.sweeper && t.sys.sweeperDone == s.sys.sweeperDone && t.sys.stage == s.sys.stage
  {
    hide ArmReady;
  }

  // ------------------------------------------------------------------ the struct

  class Pipeline {
    const cfg: Config
    const geoip: Resolver
    const correlator: C.QueryCorrelator
    var started: bool
    var queue: seq<Event>
    var cancelled: bool
    var dieClosed: bool
    var queueClosed: bool
    var threads: seq<Thread>
    var wg: nat
    var sweeper: Sweeper
    var sweeperDone: bool
    var stage: Stage
    var stored: seq<seq<Event>>
    ghost var state: State

    ghost predicate Valid()
      reads this, correlator
    {
      && Inv(cfg, state)
      && started == state.sys.started && queue == state.sys.queue
      && cancelled == state.sys.cancelled && dieClosed == state.sys.dieClosed && queueClosed == state.sys.queueClosed
      && wg == state.sys.wg && sweeper == state.sys.sweeper && sweeperDone == state.sys.sweeperDone
      && stage == state.sys.stage
      && Refines(geoip, threads, stored, state)
      && correlator.Valid() && correlator.history == state.led.history
    }

    constructor (c: Config, geoip: Resolver)
      ensures Valid() && cfg == c && this.geoip == geoip && state == Init(c) && fresh(correlator)
    {
      cfg, this.geoip := c, geoip;
      correlator := new C.QueryCorrelator();
      started, queue, cancelled, dieClosed, queueClosed := false, [], false, false, false;
      threads, wg, sweeper, sweeperDone, stage := [], 0, Idle, false, NotCalled;
      stored := seq(c.storages, _ => []);
      state := Init(c);
      new;
      InitHolds(c);
    }

    method Run()
      requires Valid() && Enabled(cfg, state.sys, Step.Run)
      modifies this
      ensures Valid() && state == Next(cfg, old(state), Step.Run)
    {
      hide Inv, En.Handed, En.Enriched;
      StepKeepsInv(cfg, state, Step.Run);
      started, sweeper := true, Running;
      threads, wg := seq(cfg.workers, _ => AtSelect), cfg.workers;
      state := Next(cfg, state, Step.Run);
    }

    /** The event is sent to the queue. */
    method Enqueue(event: Event)
      requires Valid() && ArmReady(cfg, state.sys, Send)
      modifies this
      ensures Valid() && state == Next(cfg, old(state), Offer(event, Send))
    {
      hide Inv, Refines, Next, ArmReady;
      StepKeepsInv(cfg, state, Offer(event, Send));
      OfferFrame(cfg, state, event, Send);
      OfferRefines(cfg, geoip, threads, stored, state, event, Send);
      queue := queue + [event];
      state := Next(cfg, state, Offer(event, Send));
    }

    /** The event goes straight to a worker waiting at its select. */
    method HandOver(event: Event, w: nat)
      requires Valid() && ArmReady(cfg, state.sys, Handoff(w))
      modifies this
      ensures Valid() && state == Next(cfg, old(state), Offer(event, Handoff(w)))
    {
      hide Inv, Refines, Next, ArmReady;
      StepKeepsInv(cfg, state, Offer(event, Handoff(w)));
      OfferFrame(cfg, state, event, Handoff(w));
      LogsMatch(geoip, threads, stored, state);
      HandoffRefines(cfg, geoip, threads, stored, state, event, w);
      threads := threads[w := Processing(event, 0)];
      state := Next(cfg, state, Offer(event, Handoff(w)));
    }

    /** The event is dropped, or the send panics and is recovered. */
    method Refuse(event: Event, arm: Arm)
      requires Valid() && ArmReady(cfg, state.sys, arm) && arm != Send && !arm.Handoff?
      modifies this
      ensures Valid() && state == Next(cfg, old(state), Offer(event, arm))
    {
      hide Inv, Refines, Next, ArmReady;
      StepKeepsInv(cfg, state, Offer(event, arm));
      OfferFrame(cfg, state, event, arm);
      OfferRefines(cfg, geoip, threads, stored, state, event, arm);
      state := Next(cfg, state, Offer(event, arm));
    }

    /** Process: the arm is the one the runtime picked among those ready.  It always
        returns nil, whether the event was sent, refused, or the send panicked. */
    method Process(event: Event, arm: Arm)
      requires Valid() && ArmReady(cfg, state.sys, arm)
      modifies this
      ensures Valid() && state == Next(cfg, old(state), Offer(event, arm))
    {
      hide Inv, Refines, Next, ArmReady;
      match arm {
        case Send => Enqueue(event);
        case Handoff(w) => HandOver(event, w);
        case _ => Refuse(event, arm);
      }
    }

    /** Worker w's select takes the event at the front of the queue. */
    method Receive(w: nat)
      requires Valid() && TurnReady(state.sys, w, Turn.Receive)
      modifies this
      ensures Valid() && state == Next(cfg, old(state), Work(w, Turn.Receive))
    {
      hide Inv, En.Handed, En.Enriched;
      StepKeepsInv(cfg, state, Work(w, Turn.Receive));
      threads, queue := threads[w := Processing(queue[0], 0)], queue[1..];
      state := Next(cfg, state, Work(w, Turn.Receive));
    }

    /** Worker w returns: it has seen the cancelled context, or the queue closed and empty. */
    method Return(w: nat, turn: Turn)
      requires Valid() && TurnReady(state.sys, w, turn) && (turn.SeeCancel? || turn.SeeClosed?)
      modifies this
      ensures Valid() && state == Next(cfg, old(state), Work(w, turn))
    {
      hide Inv, En.Handed, En.Enriched;
      BusyMeansCounted(cfg, state, w);
      StepKeepsInv(cfg, state, Work(w, turn));
      threads, wg := threads[w := Finished], wg - 1;
      state := Next(cfg, state, Work(w, turn));
    }

    method Correlate(event: Event, now: int)
      requires correlator.Valid()
      modifies correlator
      ensures correlator.Valid() && correlator.history == old(correlator.history) + [OpOf(event, now)]
    {
      if event.dns.flags.qr {
        var found, mismatch :=
          correlator.Lookup(event.network.queryIP, event.dns.id, event.dns.qname, event.dns.qtype, now);
      } else {
        correlator.Store(event.network.queryIP, event.dns.id, event.dns.qname, event.dns.qtype, now);
      }
    }

    /** The event is correlated and the worker's copy of it enriched. */
    method Begin(w: nat, now: int)
      requires Valid() && TurnReady(state.sys, w, Turn.Advance(now))
      requires w < |threads| && threads[w].Processing? && threads[w].done == 0
      modifies this, correlator
      ensures Valid() && state == Next(cfg, old(state), Work(w, Turn.Advance(now)))
    {
      hide Inv, Refines, Next, TurnReady, OpOf, En.Enriched;
      AdvanceKeepsChannels(cfg, state, w, now);
      BeginRefines(cfg, geoip, threads, stored, state, w, now);
      StepKeepsInv(cfg, state, Work(w, Turn.Advance(now)));
      var local := threads[w].local;
      Correlate(local, now);
      local := En.EnrichEvent(geoip, local);
      threads := threads[w := Processing(local, 1)];
      state := Next(cfg, state, Work(w, Turn.Advance(now)));
    }

    /** The worker's copy is written to the next storage. */
    method WriteNext(w: nat, now: int)
      requires Valid() && TurnReady(state.sys, w, Turn.Advance(now)) && |stored| == cfg.storages
      requires w < |threads| && threads[w].Processing? && 0 < threads[w].done <= cfg.storages
      modifies this
      ensures Valid() && state == Next(cfg, old(state), Work(w, Turn.Advance(now)))
    {
      hide Inv, Refines, Next, TurnReady, OpOf, En.Enriched;
      AdvanceKeepsChannels(cfg, state, w, now);
      WriteRefines(cfg, geoip, threads, stored, state, w, now);
      StepKeepsInv(cfg, state, Work(w, Turn.Advance(now)));
      var local, done := threads[w].local, threads[w].done;
      stored := stored[done - 1 := stored[done - 1] + [local]];
      threads := threads[w := Processing(local, done + 1)];
      state := Next(cfg, state, Work(w, Turn.Advance(now)));
    }

    method Complete(w: nat, now: int)
      requires Valid() && TurnReady(state.sys, w, Turn.Advance(now))
      requires w < |threads| && threads[w].Processing? && threads[w].done > cfg.storages
      modifies this
      ensures Valid() && state == Next(cfg, old(state), Work(w, Turn.Advance(now)))
    {
      hide Inv, Refines, Next, TurnReady, OpOf, En.Enriched;
      AdvanceKeepsChannels(cfg, state, w, now);
      CompleteRefines(cfg, geoip, threads, stored, state, w, now);
      StepKeepsInv(cfg, state, Work(w, Turn.Advance(now)));
      threads := threads[w := AtSelect];
      state := Next(cfg, state, Work(w, Turn.Advance(now)));
    }

    /** Worker w's next action on its event: correlate and enrich its copy, write the copy to
        the next storage, or go back to the select. */
    method Advance(w: nat, now: int)
      requires Valid() && TurnReady(state.sys, w, Turn.Advance(now))
      modifies this, correlator
      ensures Valid() && state == Next(cfg, old(state), Work(w, Turn.Advance(now)))
    {
      hide Inv, Refines, Next, TurnReady, OpOf, En.Enriched;
      ThreadOf(cfg, geoip, threads, stored, state, w, now);
      if threads[w].done == 0 {
        Begin(w, now);
      } else if threads[w].done <= cfg.storages {
        WriteNext(w, now);
      } else {
        Complete(w, now);
      }
    }

    /** The correlator's ticker fires. */
    method Sweep(now: int)
      requires Valid() && Enabled(cfg, state.sys, Step.Sweep(now))
      modifies this, correlator
      ensures Valid() && state == Next(cfg, old(state), Step.Sweep(now))
    {
      hide Inv, En.Handed, En.Enriched;
      StepKeepsInv(cfg, state, Step.Sweep(now));
      var evicted := correlator.Evict(now);
      state := Next(cfg, state, Step.Sweep(now));
    }

    method SweeperReturns()
      requires Valid() && Enabled(cfg, state.sys, SweeperExit)
      modifies this
      ensures Valid() && state == Next(cfg, old(state), SweeperExit)
    {
      hide Inv, En.Handed, En.Enriched;
      StepKeepsInv(cfg, state, SweeperExit);
      sweeper := Gone;
      state := Next(cfg, state, SweeperExit);
    }

    /** Shutdown cancels the context, if Run has made one. */
    method CancelContext()
      requires Valid() && stage == NotCalled && Enabled(cfg, state.sys, Shutdown)
      modifies this
      ensures Valid() && state == Next(cfg, old(state), Shutdown)
    {
      hide Inv, Refines, Next, Enabled;
      StepKeepsInv(cfg, state, Shutdown);
      ShutdownFrame(cfg, state);
      ShutdownKeeps(cfg, geoip, threads, stored, state);
      SignalsAre(cfg, state, started, dieClosed, queueClosed, sweeperDone, Cancelled);
      cancelled, stage := started, Cancelled;
      state := Next(cfg, state, Shutdown);
    }

    /** close(die). */
    method CloseDie()
      requires Valid() && stage == Cancelled && Enabled(cfg, state.sys, Shutdown)
      modifies this
      ensures Valid() && state == Next(cfg, old(state), Shutdown)
    {
      hide Inv, Refines, Next, Enabled;
      StepKeepsInv(cfg, state, Shutdown);
      ShutdownFrame(cfg, state);
      ShutdownKeeps(cfg, geoip, threads, stored, state);
      SignalsAre(cfg, state, cancelled, true, queueClosed, sweeperDone, DieClosed);
      dieClosed, stage := true, DieClosed;
      state := Next(cfg, state, Shutdown);
    }

    /** close(queue). */
    method CloseQueue()
      requires Valid() && stage == DieClosed && Enabled(cfg, state.sys, Shutdown)
      modifies this
      ensures Valid() && state == Next(cfg, old(state), Shutdown)
    {
      hide Inv, Refines, Next, Enabled;
      StepKeepsInv(cfg, state, Shutdown);
      ShutdownFrame(cfg, state);
      ShutdownKeeps(cfg, geoip, threads, stored, state);
      SignalsAre(cfg, state, cancelled, dieClosed, true, sweeperDone, QueueClosed);
      queueClosed, stage := true, QueueClosed;
      state := Next(cfg, state, Shutdown);
    }

    /** wg.Wait returns; it is enabled only when no worker is left. */
    method PassWait()
      requires Valid() && stage == QueueClosed && Enabled(cfg, state.sys, Shutdown)
      modifies this
      ensures Valid() && state == Next(cfg, old(state), Shutdown)
    {
      hide Inv, Refines, Next, Enabled;
      StepKeepsInv(cfg, state, Shutdown);
      ShutdownFrame(cfg, state);
      ShutdownKeeps(cfg, geoip, threads, stored, state);
      SignalsAre(cfg, state, cancelled, dieClosed, queueClosed, sweeperDone, WorkersGone);
      stage := WorkersGone;
      state := Next(cfg, state, Shutdown);
    }

    /** The correlator's Stop closes its channel. */
    method SignalSweeper()
      requires Valid() && stage == WorkersGone && Enabled(cfg, state.sys, Shutdown)
      modifies this
      ensures Valid() && state == Next(cfg, old(state), Shutdown)
    {
      hide Inv, Refines, Next, Enabled;
      StepKeepsInv(cfg, state, Shutdown);
      ShutdownFrame(cfg, state);
      ShutdownKeeps(cfg, geoip, threads, stored, state);
      SignalsAre(cfg, state, cancelled, dieClosed, queueClosed, true, StopSignalled);
      sweeperDone, stage := true, StopSignalled;
      state := Next(cfg, state, Shutdown);
    }

    /** The correlator's Stop returns; it is enabled only when the sweeper has left. */
    method PassSweeperWait()
      requires Valid() && stage == StopSignalled && Enabled(cfg, state.sys, Shutdown)
      modifies this
      ensures Valid() && state == Next(cfg, old(state), Shutdown)
    {
      hide Inv, Refines, Next, Enabled;
      StepKeepsInv(cfg, state, Shutdown);
      ShutdownFrame(cfg, state);
      ShutdownKeeps(cfg, geoip, threads, stored, state);
      SignalsAre(cfg, state, cancelled, dieClosed, queueClosed, sweeperDone, Closing(0));
      stage := Closing(0);
      state := Next(cfg, state, Shutdown);
    }

    /** The next storage is closed, or Shutdown returns. */
    method CloseNext()
      requires Valid() && stage.Closing? && Enabled(cfg, state.sys, Shutdown)
      modifies this
      ensures Valid() && state == Next(cfg, old(state), Shutdown)
    {
      hide Inv, Refines, Next, Enabled;
      StepKeepsInv(cfg, state, Shutdown);
      ShutdownFrame(cfg, state);
      ShutdownKeeps(cfg, geoip, threads, stored, state);
      SignalsAre(cfg, state, cancelled, dieClosed, queueClosed, sweeperDone,
                 if stage.closed < cfg.storages then Closing(stage.closed + 1) else Returned);
      stage := if stage.closed < cfg.storages then Closing(stage.closed + 1) else Returned;
      state := Next(cfg, state, Shutdown);
    }

    /** The next statement of Shutdown, in the order of the source. */
    method ShutdownNext()
      requires Valid() && Enabled(cfg, state.sys, Shutdown) && stage != Returned
      modifies this
      ensures Valid() && state == Next(cfg, old(state), Shutdown)
    {
      hide Inv, Refines, Next, Enabled;
      match stage {
        case NotCalled => CancelContext();
        case Cancelled => CloseDie();
        case DieClosed => CloseQueue();
        case QueueClosed => PassWait();
        case WorkersGone => SignalSweeper();
        case StopSignalled => PassSweeperWait();
        case Closing(_) => CloseNext();
      }
    }

    /** At every moment storage k holds, event by event, the enriched events of its log:
        those processed and those whose worker is past it. */
    lemma StorageHolds(k: nat)
      requires Valid() && k < cfg.storages
      ensures k < |stored| && k + 2 < |state.led.logs| && |stored[k]| == |state.led.logs[k + 2]|
      ensures forall i :: 0 <= i < |stored[k]| ==> stored[k][i] == En.Enriched(geoip, state.led.logs[k + 2][i])
      ensures multiset(state.led.logs[k + 2]) == Past(state.sys.workers, k + 2) + multiset(state.led.processed)
    {
      assert Balanced(state.led.logs[k + 2], state.sys.workers, k + 2, state.led.processed);
    }

    /** Once Shutdown has returned all storages hold the same events: the processed ones,
        enriched, each once, in whatever order; and what was accepted besides them is still
        in the queue. */
    lemma StoragesAgree(k: nat)
      requires Valid() && stage == Returned && k < cfg.storages
      ensures k < |stored| && multiset(stored[k]) == multiset(En.Handed(geoip, state.led.processed))
      ensures |state.led.logs| > 0 && state.led.accepted == state.led.logs[0] + queue
      ensures multiset(state.led.logs[0]) == multiset(state.led.processed)
    {
      R.LedgerWhenReturned(cfg, state);
      hide Inv;
      En.HandedPermutes(geoip, state.led.logs[k + 2], state.led.processed);
    }
  }
}
