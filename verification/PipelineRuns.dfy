/** What holds of every run of the pipeline machine: the event ledger, the safety and
    termination of Shutdown, and the accounts of the correlator it drives. */
module PipelineRuns {
  import opened Bags
  import opened Domain
  import opened PipelineMachine
  import C = Correlator

  predicate Runs(c: Config, s: State, steps: seq<Step>)
    decreases |steps|
  {
    steps == [] || (Enabled(c, s.sys, steps[0]) && Runs(c, Next(c, s, steps[0]), steps[1..]))
  }

  function Exec(c: Config, s: State, steps: seq<Step>): State
    decreases |steps|
  {
    if steps == [] then s else Exec(c, Next(c, s, steps[0]), steps[1..])
  }

  lemma Prepend(c: Config, s: State, step: Step, rest: seq<Step>)
    requires Enabled(c, s.sys, step) && Runs(c, Next(c, s, step), rest)
    ensures Runs(c, s, [step] + rest) && Exec(c, s, [step] + rest) == Exec(c, Next(c, s, step), rest)
  {
    hide Enabled, Next;
    assert ([step] + rest)[1..] == rest;
  }

  lemma NoSteps(c: Config, s: State)
    ensures Runs(c, s, []) && Exec(c, s, []) == s
  {
  }

  lemma Unfold(c: Config, s: State, steps: seq<Step>)
    requires steps != []
    ensures Runs(c, s, steps) <==> Enabled(c, s.sys, steps[0]) && Runs(c, Next(c, s, steps[0]), steps[1..])
    ensures Exec(c, s, steps) == Exec(c, Next(c, s, steps[0]), steps[1..])
  {
    hide Enabled, Next;
  }

  lemma {:induction false} RunsJoin(c: Config, s: State, a: seq<Step>, b: seq<Step>)
    requires Runs(c, s, a) && Runs(c, Exec(c, s, a), b)
    ensures Runs(c, s, a + b) && Exec(c, s, a + b) == Exec(c, Exec(c, s, a), b)
    decreases |a|
  {
    hide Runs, Exec, Enabled, Next;
    if a == [] {
      NoSteps(c, s);
      assert a + b == b;
    } else {
      Unfold(c, s, a);
      RunsJoin(c, Next(c, s, a[0]), a[1..], b);
      assert (a + b)[0] == a[0] && (a + b)[1..] == a[1..] + b;
      Unfold(c, s, a + b);
    }
  }

  lemma {:induction false} RunKeepsInv(c: Config, s: State, steps: seq<Step>)
    requires Inv(c, s) && Runs(c, s, steps)
    ensures Inv(c, Exec(c, s, steps))
    decreases |steps|
  {
    if steps != [] {
      StepKeepsInv(c, s, steps[0]);
      RunKeepsInv(c, Next(c, s, steps[0]), steps[1..]);
    }
  }

  lemma ReachableInv(c: Config, steps: seq<Step>)
    requires Runs(c, Init(c), steps)
    ensures Inv(c, Exec(c, Init(c), steps))
  {
    InitHolds(c);
    RunKeepsInv(c, Init(c), steps);
  }

  // -------------------------------------------------------------- the ledger

  /** In every interleaving: an offered event is accepted or dropped by exactly one arm;
      an accepted one is queued, held by one worker or processed; the queue is what was
      accepted last and never outgrows its capacity. */
  lemma EventsAreConserved(c: Config, steps: seq<Step>)
    requires Runs(c, Init(c), steps)
    ensures var State(s, l) := Exec(c, Init(c), steps);
      && |l.logs| == c.storages + 2
      && |s.queue| <= c.queueSize
      && l.accepted == l.logs[0] + s.queue
      && multiset(l.accepted) == InFlight(s.workers) + multiset(l.processed) + multiset(s.queue)
      && multiset(l.offered) == multiset(l.accepted) + multiset(l.droppedOnDie)
                                + multiset(l.droppedOnFull) + multiset(l.recovered)
  {
    ReachableInv(c, steps);
    var State(s, l) := Exec(c, Init(c), steps);
    assert Balanced(l.logs[0], s.workers, 0, l.processed);
  }

  /** What each storage has been handed: every processed event once, plus at most the
      events whose worker is past that storage. */
  lemma StorageLedger(c: Config, steps: seq<Step>, k: nat)
    requires Runs(c, Init(c), steps) && k < c.storages
    ensures var State(s, l) := Exec(c, Init(c), steps);
      |l.logs| == c.storages + 2 && multiset(l.logs[k + 2]) == Past(s.workers, k + 2) + multiset(l.processed)
  {
    ReachableInv(c, steps);
    var State(s, l) := Exec(c, Init(c), steps);
    assert Balanced(l.logs[k + 2], s.workers, k + 2, l.processed);
  }

  lemma LedgerWhenReturned(c: Config, s: State)
    requires Inv(c, s) && s.sys.stage == Returned
    ensures var State(s, l) := s;
      && |l.logs| == c.storages + 2
      && l.accepted == l.logs[0] + s.queue && |s.queue| <= c.queueSize
      && (forall k :: 0 <= k < |l.logs| ==> multiset(l.logs[k]) == multiset(l.processed))
      && (forall k: nat :: k < c.storages ==> Closed(s, k))
  {
    var State(s, l) := s;
    forall k | 0 <= k < |l.logs| ensures multiset(l.logs[k]) == multiset(l.processed) {
      assert Balanced(l.logs[k], s.workers, k, l.processed);
      NobodyAlive(s.workers, k);
    }
  }

  /** When Shutdown returns, the accepted events are the processed ones, each written once
      to every storage, and an abandoned rest: the last ones accepted, no more than the
      queue can hold. */
  lemma LedgerAfterShutdown(c: Config, steps: seq<Step>)
    requires Runs(c, Init(c), steps) && Exec(c, Init(c), steps).sys.stage == Returned
    ensures var State(s, l) := Exec(c, Init(c), steps);
      && |l.logs| == c.storages + 2
      && l.accepted == l.logs[0] + s.queue && |s.queue| <= c.queueSize
      && (forall k :: 0 <= k < |l.logs| ==> multiset(l.logs[k]) == multiset(l.processed))
      && (forall k: nat :: k < c.storages ==> Closed(s, k))
  {
    ReachableInv(c, steps);
    LedgerWhenReturned(c, Exec(c, Init(c), steps));
  }

  // ------------------------------------------------------------------- order

  /** With at most one worker the order of acceptance survives to every storage. */
  lemma SingleWorkerKeepsOrder(c: Config, steps: seq<Step>)
    requires c.workers <= 1 && Runs(c, Init(c), steps)
    ensures var State(s, l) := Exec(c, Init(c), steps);
      && l.accepted == l.processed + HeldBy(s.workers, 0) + s.queue
      && forall k :: 0 <= k < |l.logs| ==> l.logs[k] == l.processed + HeldBy(s.workers, k)
  {
    ReachableInv(c, steps);
  }

  /** The events about one domain. */
  function OnDomain(es: seq<Event>, qname: string): seq<Event> {
    if es == [] then []
    else OnDomain(es[..|es| - 1], qname) + (if es[|es| - 1].dns.qname == qname then [es[|es| - 1]] else [])
  }

  lemma {:induction false} DomainOfPrefix(es: seq<Event>, n: nat, qname: string)
    requires n <= |es|
    ensures OnDomain(es[..n], qname) <= OnDomain(es, qname)
  {
    if n < |es| {
      DomainOfPrefix(es[..|es| - 1], n, qname);
      assert es[..|es| - 1][..n] == es[..n];
    } else {
      assert es[..n] == es;
    }
  }

  /** What the first storage has been handed, about each domain, are the first events
      accepted about it, in order. */
  ghost predicate DomainsInOrder(l: Ledger) {
    |l.logs| > 2 ==> forall q :: OnDomain(l.logs[2], q) <= OnDomain(l.accepted, q)
  }

  ghost predicate AlwaysInOrder(c: Config) {
    forall steps :: Runs(c, Init(c), steps) ==> DomainsInOrder(Exec(c, Init(c), steps).led)
  }

  lemma HeldShrinks(ws: seq<Worker>)
    ensures HeldBy(ws, 2) <= HeldBy(ws, 0)
  {
  }

  lemma OneWorkerInOrder(c: Config, steps: seq<Step>)
    requires c.workers <= 1 && Runs(c, Init(c), steps)
    ensures DomainsInOrder(Exec(c, Init(c), steps).led)
  {
    SingleWorkerKeepsOrder(c, steps);
    var State(s, l) := Exec(c, Init(c), steps);
    if |l.logs| > 2 {
      HeldShrinks(s.workers);
      hide HeldBy, OnDomain;
      var n := |l.logs[2]|;
      assert l.accepted[..n] == l.logs[2];
      forall q ensures OnDomain(l.logs[2], q) <= OnDomain(l.accepted, q) { DomainOfPrefix(l.accepted, n, q); }
    }
  }

  /** What two events held by two workers have led to so far. */
  datatype Seen = Seen(correlated: seq<Event>, history: seq<C.Op>, written: seq<Event>)

  /** Both events are with a worker each and nothing else has been accepted. */
  predicate BothHeld(c: Config, s: State, a: Event, b: Event, i: nat, j: nat, seen: Seen) {
    && |s.led.logs| == c.storages + 2 && |s.sys.workers| >= 2
    && s.sys.workers[0] == Holding(a, i) && s.sys.workers[1] == Holding(b, j)
    && s.sys.clock == 0 && s.led.accepted == [a, b]
    && s.led.logs[1] == seen.correlated && s.led.history == seen.history
    && (c.storages > 0 ==> s.led.logs[2] == seen.written)
  }

  lemma BothTaken(c: Config, a: Event, b: Event) returns (s: State, steps: seq<Step>)
    requires c.workers >= 2
    ensures Runs(c, Init(c), steps) && Exec(c, Init(c), steps) == s && BothHeld(c, s, a, b, 0, 0, Seen([], [], []))
  {
    hide Runs, Exec;
    var s1 := Next(c, Init(c), Run);
    var s2 := Next(c, s1, Offer(a, Handoff(0)));
    s := Next(c, s2, Offer(b, Handoff(1)));
    NoSteps(c, s);
    Prepend(c, s2, Offer(b, Handoff(1)), []);
    Prepend(c, s1, Offer(a, Handoff(0)), [Offer(b, Handoff(1))] + []);
    steps := [Run] + ([Offer(a, Handoff(0))] + ([Offer(b, Handoff(1))] + []));
    Prepend(c, Init(c), Run, [Offer(a, Handoff(0))] + ([Offer(b, Handoff(1))] + []));
  }

  /** Worker w's next action on its event, at time zero. */
  function Act(w: nat): Step { Work(w, Advance(0)) }

  lemma WorkerCorrelates(c: Config, s: State, a: Event, b: Event, i: nat, j: nat, seen: Seen, w: nat)
    requires BothHeld(c, s, a, b, i, j, seen) && w < 2 && (if w == 0 then i else j) == 0
    ensures Enabled(c, s.sys, Act(w))
    ensures var e := if w == 0 then a else b;
      BothHeld(c, Next(c, s, Act(w)), a, b, if w == 0 then 1 else i, if w == 1 then 1 else j,
               Seen(seen.correlated + [e], seen.history + [OpOf(e, 0)], seen.written))
  {
    hide OpOf;
  }

  lemma WorkerWrites(c: Config, s: State, a: Event, b: Event, i: nat, j: nat, seen: Seen, w: nat)
    requires BothHeld(c, s, a, b, i, j, seen) && w < 2 && (if w == 0 then i else j) == 1 && c.storages > 0
    ensures Enabled(c, s.sys, Act(w))
    ensures var e := if w == 0 then a else b;
      BothHeld(c, Next(c, s, Act(w)), a, b, if w == 0 then 2 else i, if w == 1 then 2 else j,
               seen.(written := seen.written + [e]))
  {
    hide OpOf;
  }

  /** With two workers a later event overtakes an earlier one on the way to the storage. */
  lemma TwoWorkersOvertake(c: Config, a: Event, b: Event) returns (steps: seq<Step>)
    requires c.workers >= 2 && c.storages > 0
    ensures Runs(c, Init(c), steps)
    ensures var l := Exec(c, Init(c), steps).led; |l.logs| > 2 && l.accepted == [a, b] && l.logs[2] == [b, a]
  {
    hide Init, Runs, Exec, Next, Enabled, OpOf;
    var s, first := BothTaken(c, a, b);
    var none := Seen([], [], []);
    WorkerCorrelates(c, s, a, b, 0, 0, none, 1);
    var s1, one := Next(c, s, Act(1)), Seen([] + [b], [] + [OpOf(b, 0)], []);
    WorkerWrites(c, s1, a, b, 0, 1, one, 1);
    var s2, two := Next(c, s1, Act(1)), one.(written := [] + [b]);
    WorkerCorrelates(c, s2, a, b, 0, 2, two, 0);
    var s3 := Next(c, s2, Act(0));
    var three := Seen(two.correlated + [a], two.history + [OpOf(a, 0)], two.written);
    WorkerWrites(c, s3, a, b, 1, 2, three, 0);
    assert [] + [b] + [a] == [b, a];
    NoSteps(c, Next(c, s3, Act(0)));
    Prepend(c, s3, Act(0), []);
    Prepend(c, s2, Act(0), [Act(0)] + []);
    Prepend(c, s1, Act(1), [Act(0)] + ([Act(0)] + []));
    var rest := [Act(1)] + ([Act(1)] + ([Act(0)] + ([Act(0)] + [])));
    Prepend(c, s, Act(1), [Act(1)] + ([Act(0)] + ([Act(0)] + [])));
    RunsJoin(c, Init(c), first, rest);
    steps := first + rest;
  }

  lemma SameDomainPair(a: Event, b: Event, q: string)
    requires a.dns.qname == q && b.dns.qname == q
    ensures OnDomain([a, b], q) == [a, b]
  {
    assert [a, b][..1] == [a] && [a][..0] == [];
    assert OnDomain([a], q) == [] + [a];
  }

  /** The documented order per domain holds of what the pipeline hands to its storage, in
      every interleaving, exactly when at most one worker is configured. */
  lemma DomainOrderIff(c: Config)
    requires c.storages > 0
    ensures AlwaysInOrder(c) <==> c.workers <= 1
  {
    if c.workers <= 1 {
      forall steps | Runs(c, Init(c), steps) ensures DomainsInOrder(Exec(c, Init(c), steps).led) {
        OneWorkerInOrder(c, steps);
      }
    } else {
      var a, b := ZERO_EVENT, ZERO_EVENT.(dns := ZERO_EVENT.dns.(id := 1));
      assert a.dns.id != b.dns.id;
      var steps := TwoWorkersOvertake(c, a, b);
      SameDomainPair(a, b, "");
      SameDomainPair(b, a, "");
      assert [b, a][0] != [a, b][0];
      hide Runs, Exec, OnDomain;
      assert !DomainsInOrder(Exec(c, Init(c), steps).led);
    }
  }

  /** The correlator has seen the first events accepted, in their order. */
  predicate CorrelatedInOrder(l: Ledger) { |l.logs| > 1 && l.logs[1] <= l.accepted }

  ghost predicate AlwaysCorrelatedInOrder(c: Config) {
    forall steps :: Runs(c, Init(c), steps) ==> CorrelatedInOrder(Exec(c, Init(c), steps).led)
  }

  lemma OneWorkerCorrelatesInOrder(c: Config, steps: seq<Step>)
    requires c.workers <= 1 && Runs(c, Init(c), steps)
    ensures CorrelatedInOrder(Exec(c, Init(c), steps).led)
  {
    hide Runs, Exec, Init;
    SingleWorkerKeepsOrder(c, steps);
    EventsAreConserved(c, steps);
    var State(s, l) := Exec(c, Init(c), steps);
    assert l.logs[1] == l.processed + HeldBy(s.workers, 1);
    assert HeldBy(s.workers, 1) <= HeldBy(s.workers, 0);
  }

  lemma OrphanFirst(lookup: C.Op, store: C.Op)
    requires lookup.Lookup? && store.Store?
    ensures C.Orphans([lookup, store]) == {0} && C.LiveAt([lookup, store], 1, 2)
  {
    var h := [lookup, store];
    assert C.Contents(h, 0) == map[];
    forall j ensures j in C.Orphans(h) <==> j == 0 { }
  }

  /** With two workers a response accepted after its query can be correlated first: it is
      an orphan, and the query stays in the map unanswered. */
  lemma ResponseOvertakesQuery(c: Config, q: Event, r: Event) returns (steps: seq<Step>)
    requires c.workers >= 2 && !q.dns.flags.qr && r.dns.flags.qr
    ensures Runs(c, Init(c), steps)
    ensures var l := Exec(c, Init(c), steps).led;
      && l.accepted == [q, r] && |l.logs| > 1 && l.logs[1] == [r, q] && l.history == [OpOf(r, 0), OpOf(q, 0)]
      && C.Orphans(l.history) == {0} && C.LiveAt(l.history, 1, 2)
  {
    hide Init, Runs, Exec, Next, Enabled;
    var s, first := BothTaken(c, q, r);
    WorkerCorrelates(c, s, q, r, 0, 0, Seen([], [], []), 1);
    var s1 := Next(c, s, Act(1));
    WorkerCorrelates(c, s1, q, r, 0, 1, Seen([] + [r], [] + [OpOf(r, 0)], []), 0);
    assert [] + [r] + [q] == [r, q] && [] + [OpOf(r, 0)] + [OpOf(q, 0)] == [OpOf(r, 0), OpOf(q, 0)];
    NoSteps(c, Next(c, s1, Act(0)));
    Prepend(c, s1, Act(0), []);
    Prepend(c, s, Act(1), [Act(0)] + []);
    RunsJoin(c, Init(c), first, [Act(1)] + ([Act(0)] + []));
    steps := first + ([Act(1)] + ([Act(0)] + []));
    OrphanFirst(OpOf(r, 0), OpOf(q, 0));
  }

  /** The correlator sees events in the order in which they were accepted, in every
      interleaving, exactly when at most one worker is configured. */
  lemma CorrelationOrderIff(c: Config)
    ensures AlwaysCorrelatedInOrder(c) <==> c.workers <= 1
  {
    if c.workers <= 1 {
      forall steps | Runs(c, Init(c), steps) ensures CorrelatedInOrder(Exec(c, Init(c), steps).led) {
        OneWorkerCorrelatesInOrder(c, steps);
      }
    } else {
      var q := ZERO_EVENT;
      var r := q.(dns := q.dns.(flags := q.dns.flags.(qr := true)));
      var steps := ResponseOvertakesQuery(c, q, r);
      assert [r, q][0] != [q, r][0];
      assert !CorrelatedInOrder(Exec(c, Init(c), steps).led);
    }
  }

  // ------------------------------------------------------------------ safety

  lemma ClosedMeansIdle(c: Config, s: System, w: nat, now: int, k: nat)
    requires FlagsInv(c, s) && Closed(s, k)
    ensures !TurnReady(s, w, Advance(now)) && s.sweeper != Running
  {
    NobodyAlive(s.workers, 0);
  }

  /** No storage is closed while any worker can still call Write on it, and the sweep
      never runs once the correlator's Stop has returned. */
  lemma ClosedMeansUnused(c: Config, steps: seq<Step>, w: nat, now: int, k: nat)
    requires Runs(c, Init(c), steps) && Closed(Exec(c, Init(c), steps).sys, k)
    ensures !Enabled(c, Exec(c, Init(c), steps).sys, Work(w, Advance(now)))
    ensures !Enabled(c, Exec(c, Init(c), steps).sys, Sweep(now))
  {
    ReachableInv(c, steps);
    ClosedMeansIdle(c, Exec(c, Init(c), steps).sys, w, now, k);
  }

  /** Process never blocks: some arm of its select is always ready. */
  lemma ProcessNeverBlocks(c: Config, s: System)
    ensures exists arm :: ArmReady(c, s, arm)
  {
    var arm := if s.queueClosed then SendOnClosed
               else if |s.queue| < c.queueSize then Send
               else if s.dieClosed then Die else Default;
    assert ArmReady(c, s, arm);
  }

  lemma StepAfterClose(c: Config, s: State, step: Step)
    requires FlagsInv(c, s.sys) && s.sys.queueClosed && Enabled(c, s.sys, step)
    ensures var t := Next(c, s, step);
      && t.sys.queueClosed && t.led.accepted == s.led.accepted
      && t.led.droppedOnFull == s.led.droppedOnFull
      && (t.sys.queue == s.sys.queue || (s.sys.queue != [] && t.sys.queue == s.sys.queue[1..]))
  {
  }

  /** After close(queue) nothing more is accepted: the queue only loses its front, and
      every later offer ends at the die channel or in the recovered panic. */
  lemma {:induction false} NothingEntersAfterClose(c: Config, s: State, steps: seq<Step>)
    requires FlagsInv(c, s.sys) && s.sys.queueClosed && Runs(c, s, steps)
    ensures var t := Exec(c, s, steps);
      && t.sys.queueClosed && t.led.accepted == s.led.accepted
      && t.led.droppedOnFull == s.led.droppedOnFull
      && |t.sys.queue| <= |s.sys.queue|
      && t.sys.queue == s.sys.queue[|s.sys.queue| - |t.sys.queue|..]
    decreases |steps|
  {
    if steps != [] {
      FlagsKept(c, s.sys, steps[0]);
      StepAfterClose(c, s, steps[0]);
      NothingEntersAfterClose(c, Next(c, s, steps[0]), steps[1..]);
    }
  }

  // ------------------------------------------------- what becomes of an offered event

  /** An arm of Process that is ready now puts the event at the end of the list. */
  predicate EndsIn(c: Config, s: State, e: Event, arm: Arm, list: Ledger -> seq<Event>) {
    Enabled(c, s.sys, Offer(e, arm)) && list(Next(c, s, Offer(e, arm)).led) == list(s.led) + [e]
  }

  ghost predicate CanEndIn(c: Config, s: State, e: Event, list: Ledger -> seq<Event>) {
    exists arm :: EndsIn(c, s, e, arm, list)
  }

  /** The one list besides offered that an arm of Process extends. */
  lemma ArmEndsIn(c: Config, s: State, e: Event, arm: Arm)
    ensures var l, m := s.led, Next(c, s, Offer(e, arm)).led;
      && m.offered == l.offered + [e]
      && m.accepted == (if arm.Send? || arm.Handoff? then l.accepted + [e] else l.accepted)
      && m.droppedOnDie == (if arm.Die? then l.droppedOnDie + [e] else l.droppedOnDie)
      && m.droppedOnFull == (if arm.Default? then l.droppedOnFull + [e] else l.droppedOnFull)
      && m.recovered == (if arm.SendOnClosed? then l.recovered + [e] else l.recovered)
  {
  }

  lemma Longer<T>(s: seq<T>, x: T)
    ensures s + [x] != s
  {
    assert |s + [x]| != |s|;
  }

  /** A worker waits at its select. */
  predicate SomebodyWaits(ws: seq<Worker>) { exists w: nat :: w < |ws| && ws[w].Selecting? }

  /** Process can accept an event exactly while the queue is open and has room or, being
      empty, a worker of a pipeline not yet cancelled waits for it. */
  lemma AcceptsIff(c: Config, s: State, e: Event)
    ensures CanEndIn(c, s, e, (l: Ledger) => l.accepted) <==>
      !s.sys.queueClosed && (|s.sys.queue| < c.queueSize
                             || (s.sys.queue == [] && !s.sys.cancelled && SomebodyWaits(s.sys.workers)))
  {
    hide Next;
    var list := (l: Ledger) => l.accepted;
    Longer(s.led.accepted, e);
    forall arm ensures EndsIn(c, s, e, arm, list) <==> ArmReady(c, s.sys, arm) && (arm.Send? || arm.Handoff?) {
      ArmEndsIn(c, s, e, arm);
    }
    assert EndsIn(c, s, e, Send, list) <==> !s.sys.queueClosed && |s.sys.queue| < c.queueSize;
    if w: nat :| w < |s.sys.workers| && s.sys.workers[w].Selecting? {
      assert EndsIn(c, s, e, Handoff(w), list) <==> ArmReady(c, s.sys, Handoff(w));
    }
  }

  /** It can drop an event exactly on a full queue while neither channel is closed, or on
      die once that is closed, and can panic exactly once the queue is closed. */
  lemma RefusesIff(c: Config, s: State, e: Event)
    ensures CanEndIn(c, s, e, (l: Ledger) => l.droppedOnFull) <==>
      |s.sys.queue| >= c.queueSize && !s.sys.dieClosed && !s.sys.queueClosed
    ensures CanEndIn(c, s, e, (l: Ledger) => l.droppedOnDie) <==> s.sys.dieClosed
    ensures CanEndIn(c, s, e, (l: Ledger) => l.recovered) <==> s.sys.queueClosed
  {
    hide Next;
    var full, die, panic := (l: Ledger) => l.droppedOnFull, (l: Ledger) => l.droppedOnDie, (l: Ledger) => l.recovered;
    Longer(s.led.droppedOnFull, e);
    Longer(s.led.droppedOnDie, e);
    Longer(s.led.recovered, e);
    forall arm
      ensures EndsIn(c, s, e, arm, full) <==> ArmReady(c, s.sys, arm) && arm == Default
      ensures EndsIn(c, s, e, arm, die) <==> ArmReady(c, s.sys, arm) && arm == Die
      ensures EndsIn(c, s, e, arm, panic) <==> ArmReady(c, s.sys, arm) && arm == SendOnClosed
    {
      ArmEndsIn(c, s, e, arm);
    }
    assert EndsIn(c, s, e, Default, full) <==> ArmReady(c, s.sys, Default);
    assert EndsIn(c, s, e, Die, die) <==> ArmReady(c, s.sys, Die);
    assert EndsIn(c, s, e, SendOnClosed, panic) <==> ArmReady(c, s.sys, SendOnClosed);
  }

  lemma {:induction false} StepAt(c: Config, s: State, steps: seq<Step>, n: nat)
    requires Runs(c, s, steps) && n < |steps|
    ensures Runs(c, s, steps[..n]) && Enabled(c, Exec(c, s, steps[..n]).sys, steps[n])
    ensures Exec(c, s, steps[..n + 1]) == Next(c, Exec(c, s, steps[..n]), steps[n])
    decreases n
  {
    hide Runs, Exec, Enabled, Next;
    Unfold(c, s, steps);
    assert steps[..n + 1][0] == steps[0] && steps[..n + 1][1..] == steps[1..][..n];
    Unfold(c, s, steps[..n + 1]);
    if n == 0 {
      NoSteps(c, s);
      NoSteps(c, Next(c, s, steps[0]));
      assert steps[..0] == [] && steps[1..][..0] == [];
    } else {
      var t, rest := Next(c, s, steps[0]), steps[1..];
      StepAt(c, t, rest, n - 1);
      assert steps[..n][0] == steps[0] && steps[..n][1..] == rest[..n - 1] && rest[n - 1] == steps[n];
      Unfold(c, s, steps[..n]);
    }
  }

  /** The events that Process is called with during the steps. */
  function OfferedIn(steps: seq<Step>): seq<Event> {
    if steps == [] then [] else (if steps[0].Offer? then [steps[0].event] else []) + OfferedIn(steps[1..])
  }

  lemma OfferLogged(c: Config, s: State, step: Step)
    ensures Next(c, s, step).led.offered == s.led.offered + (if step.Offer? then [step.event] else [])
  {
    hide OpOf;
  }

  /** Every call of Process is in the ledger, in order. */
  lemma {:induction false} OffersAreCalls(c: Config, s: State, steps: seq<Step>)
    ensures Exec(c, s, steps).led.offered == s.led.offered + OfferedIn(steps)
    decreases |steps|
  {
    hide Next;
    if steps != [] {
      OfferLogged(c, s, steps[0]);
      OffersAreCalls(c, Next(c, s, steps[0]), steps[1..]);
    }
  }

  lemma OnlyOffersFill(c: Config, s: State, step: Step)
    requires !step.Offer?
    ensures var l, m := s.led, Next(c, s, step).led;
      && m.accepted == l.accepted && m.droppedOnFull == l.droppedOnFull
      && m.droppedOnDie == l.droppedOnDie && m.recovered == l.recovered
  {
    hide OpOf;
  }

  /** At every step of every run: an event is dropped as one too many only by a call that
      finds queueSize events in the queue and neither channel closed, dropped on die only
      after die is closed, and recovered only after the queue is closed. */
  lemma RefusedOnlyWhen(c: Config, steps: seq<Step>, n: nat)
    requires Runs(c, Init(c), steps) && n < |steps|
    ensures var State(s, l) := Exec(c, Init(c), steps[..n]); var m := Exec(c, Init(c), steps[..n + 1]).led;
      && (m.droppedOnFull == l.droppedOnFull
          || (steps[n].Offer? && m.droppedOnFull == l.droppedOnFull + [steps[n].event]
              && |s.queue| == c.queueSize && !s.dieClosed && !s.queueClosed))
      && (m.droppedOnDie == l.droppedOnDie
          || (steps[n].Offer? && m.droppedOnDie == l.droppedOnDie + [steps[n].event] && s.dieClosed))
      && (m.recovered == l.recovered
          || (steps[n].Offer? && m.recovered == l.recovered + [steps[n].event] && s.queueClosed))
  {
    StepAt(c, Init(c), steps, n);
    ReachableInv(c, steps[..n]);
    var t := Exec(c, Init(c), steps[..n]);
    var step := steps[n];
    hide Init, Runs, Exec, Next;
    if step.Offer? { ArmEndsIn(c, t, step.event, step.arm); } else { OnlyOffersFill(c, t, step); }
  }

  /** The queue has room at every moment of the run, its end included. */
  predicate StaysBelow(c: Config, s: State, steps: seq<Step>)
    decreases |steps|
  {
    |s.sys.queue| < c.queueSize && (steps == [] || StaysBelow(c, Next(c, s, steps[0]), steps[1..]))
  }

  lemma RoomyStep(c: Config, s: State, step: Step)
    requires FlagsInv(c, s.sys) && s.sys.stage == NotCalled && |s.sys.queue| < c.queueSize
    requires Enabled(c, s.sys, step) && !step.Shutdown? && s.led.accepted == s.led.offered
    ensures var t := Next(c, s, step);
      FlagsInv(c, t.sys) && t.sys.stage == NotCalled && t.led.accepted == t.led.offered
  {
    FlagsKept(c, s.sys, step);
  }

  /** Before Shutdown is called and while the queue has room, nothing is refused. */
  lemma {:induction false} NothingRefused(c: Config, s: State, steps: seq<Step>)
    requires FlagsInv(c, s.sys) && s.sys.stage == NotCalled && s.led.accepted == s.led.offered
    requires Runs(c, s, steps) && Step.Shutdown !in steps && StaysBelow(c, s, steps)
    ensures var l := Exec(c, s, steps).led; l.accepted == l.offered
    decreases |steps|
  {
    hide FlagsInv, Next, Enabled;
    if steps != [] {
      RoomyStep(c, s, steps[0]);
      NothingRefused(c, Next(c, s, steps[0]), steps[1..]);
    }
  }

  /** So in every run in which the queue always has room and Shutdown is not called, the
      events accepted are the calls of Process, all of them and in order. */
  lemma RoomyRunAcceptsAll(c: Config, steps: seq<Step>)
    requires Runs(c, Init(c), steps) && Step.Shutdown !in steps && StaysBelow(c, Init(c), steps)
    ensures Exec(c, Init(c), steps).led.accepted == OfferedIn(steps)
  {
    InitHolds(c);
    NothingRefused(c, Init(c), steps);
    OffersAreCalls(c, Init(c), steps);
    hide Runs, Exec, StaysBelow;
    assert [] + OfferedIn(steps) == OfferedIn(steps);
  }

  /** Some turn of worker w that is ready now leaves it as h. */
  ghost predicate CanBecome(c: Config, s: System, w: nat, h: Worker) {
    exists turn :: TurnReady(s, w, turn) && w < |NextWork(c, s, w, turn).workers|
                   && NextWork(c, s, w, turn).workers[w] == h
  }

  /** A worker at its select can take exactly the front of the queue, and can return exactly
      when the context is cancelled or the queue is closed and empty. */
  lemma WaitingWorkerIff(c: Config, s: System, w: nat, e: Event)
    requires w < |s.workers| && s.workers[w].Selecting?
    ensures CanBecome(c, s, w, Holding(e, 0)) <==> s.queue != [] && s.queue[0] == e
    ensures CanBecome(c, s, w, Exited) <==> s.cancelled || (s.queueClosed && s.queue == [])
  {
    assert TurnReady(s, w, Receive) <==> s.queue != [];
    assert TurnReady(s, w, SeeCancel) <==> s.cancelled;
    assert TurnReady(s, w, SeeClosed) <==> s.queueClosed && s.queue == [];
  }

  /** From Run until Stop closes its channel the sweeper is there and can sweep. */
  lemma SweepsUntilStop(c: Config, steps: seq<Step>)
    requires Runs(c, Init(c), steps)
    ensures var s := Exec(c, Init(c), steps).sys;
      s.started && !s.sweeperDone ==> Enabled(c, s, Sweep(s.clock))
  {
    ReachableInv(c, steps);
  }

  lemma OnlyShutdownMoves(c: Config, s: System, step: Step)
    requires !step.Shutdown?
    ensures NextSystem(c, s, step).stage == s.stage
  {
  }

  lemma StageAfter(c: Config, s: System)
    requires Enabled(c, s, Step.Shutdown) && FlagsInv(c, s)
    ensures var t := NextSystem(c, s, Step.Shutdown).stage;
      && (t == Returned ==> s.stage == Closing(c.storages))
      && (t.Closing? ==>
            if t.closed == 0 then s.stage == StopSignalled && s.sweeper != Running
            else s.stage == Closing(t.closed - 1))
  {
  }

  /** The storages are closed one at a time, the first one after the correlator's Stop has
      returned, and Shutdown returns only when all of them are closed. */
  lemma StoragesCloseInTurn(c: Config, s: State, step: Step)
    requires Inv(c, s) && Enabled(c, s.sys, step)
    ensures var u, t := s.sys, Next(c, s, step).sys.stage;
      && (t == Returned && u.stage != Returned ==> u.stage == Closing(c.storages))
      && (t.Closing? && t != u.stage ==>
            if t.closed == 0 then u.stage == StopSignalled && u.sweeper != Running
            else u.stage == Closing(t.closed - 1))
  {
    hide Enabled, NextSystem, FlagsInv, LogsInv, OrderInv, HistoryInv, StagesInv, OffersInv, FifoInv;
    assert FlagsInv(c, s.sys);
    if step.Shutdown? { StageAfter(c, s.sys); } else { OnlyShutdownMoves(c, s.sys, step); }
  }

  // ------------------------------------------------------------- termination

  /** Steps by which the collector itself gets on with finishing. */
  predicate Productive(step: Step) { step.Work? || step.SweeperExit? || step.Shutdown? }

  function CountProductive(steps: seq<Step>): nat {
    if steps == [] then 0 else (if Productive(steps[0]) then 1 else 0) + CountProductive(steps[1..])
  }

  /** The turns a worker still needs before it can return. */
  function Weight(c: Config, w: Worker): nat {
    match w
    case Exited => 0
    case Selecting => 1
    case Holding(_, k) => if k <= c.storages + 1 then 1 + (c.storages + 2 - k) else 1
  }

  function PoolWeight(c: Config, ws: seq<Worker>): nat {
    if ws == [] then 0 else PoolWeight(c, ws[..|ws| - 1]) + Weight(c, ws[|ws| - 1])
  }

  function Times(n: nat, each: nat): nat { if n == 0 then 0 else Times(n - 1, each) + each }

  function StagesLeft(c: Config, stage: Stage): nat {
    match stage
    case NotCalled => c.storages + 7
    case Cancelled => c.storages + 6
    case DieClosed => c.storages + 5
    case QueueClosed => c.storages + 4
    case WorkersGone => c.storages + 3
    case StopSignalled => c.storages + 2
    case Closing(k) => if k <= c.storages then c.storages - k + 1 else 1
    case Returned => 0
  }

  function Measure(c: Config, s: System): nat {
    StagesLeft(c, s.stage) + PoolWeight(c, s.workers) + Times(|s.queue|, c.storages + 3)
    + (if s.sweeper == Running then 1 else 0)
  }

  lemma {:induction false} PoolWeightUpdate(c: Config, ws: seq<Worker>, i: nat, w: Worker)
    requires i < |ws|
    ensures PoolWeight(c, ws[i := w]) + Weight(c, ws[i]) == PoolWeight(c, ws) + Weight(c, w)
  {
    var last := |ws| - 1;
    if i == last {
      assert ws[i := w][..last] == ws[..last];
    } else {
      PoolWeightUpdate(c, ws[..last], i, w);
      assert ws[i := w][..last] == ws[..last][i := w];
    }
  }

  /** A worker that advances or returns has fewer turns left. */
  lemma AdvancedIsLighter(c: Config, h: Worker)
    requires h.Holding? && h.stage <= c.storages + 1
    ensures Weight(c, Advanced(c, h)) < Weight(c, h)
  {
  }

  lemma ReceiveShrinks(c: Config, s: System, w: nat)
    requires TurnReady(s, w, Receive)
    ensures Measure(c, NextWork(c, s, w, Receive)) < Measure(c, s)
  {
    PoolWeightUpdate(c, s.workers, w, Holding(s.queue[0], 0));
    assert Times(|s.queue|, c.storages + 3) == Times(|s.queue[1..]|, c.storages + 3) + c.storages + 3;
  }

  lemma WorkShrinks(c: Config, s: System, w: nat, turn: Turn)
    requires StagesInv(c, s.workers) && TurnReady(s, w, turn)
    ensures Measure(c, NextWork(c, s, w, turn)) < Measure(c, s)
  {
    if turn.Receive? {
      ReceiveShrinks(c, s, w);
    } else {
      if turn.Advance? { AdvancedIsLighter(c, s.workers[w]); }
      var after := if turn.Advance? then Advanced(c, s.workers[w]) else Exited;
      PoolWeightUpdate(c, s.workers, w, after);
      assert NextWork(c, s, w, turn).workers == s.workers[w := after];
    }
  }

  lemma ShutdownShrinks(c: Config, s: System)
    requires FlagsInv(c, s) && Enabled(c, s, Shutdown)
    ensures Measure(c, NextShutdown(c, s)) < Measure(c, s)
  {
  }

  lemma StepShrinks(c: Config, s: System, step: Step)
    requires FlagsInv(c, s) && StagesInv(c, s.workers) && s.queueClosed && Enabled(c, s, step)
    ensures Measure(c, NextSystem(c, s, step)) + (if Productive(step) then 1 else 0) <= Measure(c, s)
  {
    match step
    case Work(w, turn) => WorkShrinks(c, s, w, turn);
    case Shutdown => ShutdownShrinks(c, s);
    case _ =>
  }

  /** Once the queue is closed the collector takes at most Measure more steps, whatever
      late senders and sweeps are interleaved: the Wait cannot go on for ever. */
  lemma {:induction false} ShutdownIsBounded(c: Config, s: State, steps: seq<Step>)
    requires Inv(c, s) && s.sys.queueClosed && Runs(c, s, steps)
    ensures CountProductive(steps) + Measure(c, Exec(c, s, steps).sys) <= Measure(c, s.sys)
    decreases |steps|
  {
    if steps != [] {
      StepShrinks(c, s.sys, steps[0]);
      StepKeepsInv(c, s, steps[0]);
      StepAfterClose(c, s, steps[0]);
      ShutdownIsBounded(c, Next(c, s, steps[0]), steps[1..]);
    }
  }

  /** Shutdown is never stuck: until it has returned, some productive step is ready, and
      one that takes nothing from the queue. */
  lemma ShutdownNeverStuck(c: Config, s: System) returns (step: Step)
    requires FlagsInv(c, s) && s.stage != Returned
    ensures Enabled(c, s, step) && Productive(step)
    ensures NextSystem(c, s, step).queue == s.queue
    ensures step.Shutdown? || s.queueClosed
  {
    if !s.queueClosed {
      step := Shutdown;
    } else if s.wg > 0 {
      var i := SomebodyAlive(s.workers);
      step := if s.workers[i].Holding? then Work(i, Advance(s.clock)) else Work(i, SeeCancel);
    } else if s.sweeper == Running && s.sweeperDone {
      step := SweeperExit;
    } else {
      step := Shutdown;
    }
  }

  lemma AnyStepShrinks(c: Config, s: System, step: Step)
    requires FlagsInv(c, s) && StagesInv(c, s.workers) && Enabled(c, s, step) && Productive(step)
    requires step.Shutdown? || s.queueClosed
    ensures Measure(c, NextSystem(c, s, step)) < Measure(c, s)
  {
    if step.Shutdown? { ShutdownShrinks(c, s); } else { StepShrinks(c, s, step); }
  }

  /** Nobody calls Process during the steps. */
  predicate NoOffers(steps: seq<Step>) { forall i :: 0 <= i < |steps| ==> !steps[i].Offer? }

  lemma PrependQuiet(step: Step, rest: seq<Step>)
    requires !step.Offer? && NoOffers(rest)
    ensures NoOffers([step] + rest)
  {
  }

  lemma StepTowardsReturn(c: Config, s: State) returns (step: Step)
    requires Inv(c, s) && s.sys.stage != Returned
    ensures Enabled(c, s.sys, step) && !step.Offer? && Inv(c, Next(c, s, step))
    ensures Next(c, s, step).sys.queue == s.sys.queue && Measure(c, Next(c, s, step).sys) < Measure(c, s.sys)
  {
    step := ShutdownNeverStuck(c, s.sys);
    AnyStepShrinks(c, s.sys, step);
    StepKeepsInv(c, s, step);
    assert !step.Offer?;
    hide Inv, Enabled, Measure, Productive, NextSystem, NextLedger;
  }

  /** From any reachable state Shutdown can return without another event being taken from
      the queue, because the workers are cancelled before the queue is drained. */
  lemma {:induction false} CanReturnWithoutDraining(c: Config, s: State) returns (steps: seq<Step>)
    requires Inv(c, s)
    ensures Runs(c, s, steps) && NoOffers(steps)
    ensures Exec(c, s, steps).sys.stage == Returned && Exec(c, s, steps).sys.queue == s.sys.queue
    decreases Measure(c, s.sys)
  {
    if s.sys.stage == Returned {
      steps := [];
    } else {
      hide Inv, Enabled, Next, Measure, Runs, Exec, NoOffers;
      var step := StepTowardsReturn(c, s);
      var rest := CanReturnWithoutDraining(c, Next(c, s, step));
      steps := [step] + rest;
      Prepend(c, s, step, rest);
      PrependQuiet(step, rest);
    }
  }

  /** Every run on from s in which Shutdown returns ends with an empty queue; offers says
      whether senders may go on calling Process. */
  ghost predicate AlwaysDrained(c: Config, s: State, offers: bool) {
    forall steps :: Runs(c, s, steps) && (offers || NoOffers(steps)) && Exec(c, s, steps).sys.stage == Returned ==>
      Exec(c, s, steps).sys.queue == []
  }

  lemma ShutdownKeepsQueue(c: Config, s: System)
    ensures NextShutdown(c, s).queue == s.queue
  {
  }

  lemma StepKeepsEmpty(c: Config, s: State, step: Step)
    requires s.sys.queue == [] && !step.Offer?
    ensures Next(c, s, step).sys.queue == []
  {
    hide NextLedger, NextShutdown;
    ShutdownKeepsQueue(c, s.sys);
  }

  lemma {:induction false} EmptyStaysEmpty(c: Config, s: State, steps: seq<Step>)
    requires s.sys.queue == [] && Runs(c, s, steps) && NoOffers(steps)
    ensures Exec(c, s, steps).sys.queue == []
    decreases |steps|
  {
    hide Enabled, Next;
    if steps != [] {
      assert !steps[0].Offer? && NoOffers(steps[1..]);
      StepKeepsEmpty(c, s, steps[0]);
      EmptyStaysEmpty(c, Next(c, s, steps[0]), steps[1..]);
    }
  }

  /** The documented "zero data loss", read at any moment, at the call of Shutdown for
      instance, with no further senders: the queue is sure to be drained exactly when it is
      already empty. */
  lemma NothingLostIff(c: Config, s: State)
    requires Inv(c, s)
    ensures AlwaysDrained(c, s, false) <==> s.sys.queue == []
  {
    if s.sys.queue == [] {
      forall steps | Runs(c, s, steps) && NoOffers(steps) ensures Exec(c, s, steps).sys.queue == [] {
        EmptyStaysEmpty(c, s, steps);
      }
    } else {
      var steps := CanReturnWithoutDraining(c, s);
      assert Runs(c, s, steps) && Exec(c, s, steps).sys.queue != [];
    }
  }

  lemma StaysDrained(c: Config, s: State, steps: seq<Step>)
    requires Inv(c, s) && s.sys.queue == [] && (s.sys.queueClosed || c.queueSize == 0) && Runs(c, s, steps)
    ensures Exec(c, s, steps).sys.queue == []
  {
    hide Runs, Exec, LogsInv, OrderInv, HistoryInv, StagesInv, OffersInv, FifoInv;
    RunKeepsInv(c, s, steps);
    if s.sys.queueClosed { NothingEntersAfterClose(c, s, steps); }
  }

  /** An event offered while the queue is open and has room can be left behind. */
  lemma LateOffer(c: Config, s: State, e: Event) returns (steps: seq<Step>)
    requires Inv(c, s) && s.sys.queue == [] && !s.sys.queueClosed && c.queueSize > 0
    ensures Runs(c, s, steps) && Exec(c, s, steps).sys.stage == Returned && Exec(c, s, steps).sys.queue == [e]
  {
    hide Inv, Runs, Exec, NextLedger;
    var step := Offer(e, Send);
    StepKeepsInv(c, s, step);
    assert Next(c, s, step).sys.queue == [e];
    var rest := CanReturnWithoutDraining(c, Next(c, s, step));
    Prepend(c, s, step, rest);
    steps := [step] + rest;
  }

  /** With senders still calling, an empty queue is not enough: it must also be closed, or
      hold nothing at all. */
  lemma NothingLostWithSendersIff(c: Config, s: State)
    requires Inv(c, s)
    ensures AlwaysDrained(c, s, true) <==> s.sys.queue == [] && (s.sys.queueClosed || c.queueSize == 0)
  {
    hide Inv, Runs, Exec, Enabled, Next, NoOffers;
    if s.sys.queue != [] {
      var steps := CanReturnWithoutDraining(c, s);
      assert Exec(c, s, steps).sys.queue != [];
    } else if s.sys.queueClosed || c.queueSize == 0 {
      forall steps | Runs(c, s, steps) ensures Exec(c, s, steps).sys.queue == [] { StaysDrained(c, s, steps); }
    } else {
      var steps := LateOffer(c, s, ZERO_EVENT);
      assert Exec(c, s, steps).sys.queue != [];
    }
  }

  /** A concrete loss: an event is accepted, Shutdown is called and returns, and the event
      was never processed although a worker was running. */
  lemma ZeroLossFails(e: Event)
    ensures exists c: Config, steps: seq<Step> ::
      && c.workers > 0 && Runs(c, Init(c), steps) && Exec(c, Init(c), steps).sys.stage == Returned
      && Exec(c, Init(c), steps).sys.queue == [e]
  {
    hide Inv, Runs, Exec, NextLedger;
    var c := Config(1, 1, 1);
    var s := Next(c, Init(c), Run);
    InitHolds(c);
    StepKeepsInv(c, Init(c), Run);
    var rest := LateOffer(c, s, e);
    Prepend(c, Init(c), Run, rest);
  }

  // ---------------------------------------------------- the correlator's accounts

  /** The operation is the event's: a response is looked up and a query stored, under its
      client address and identifier, with its question. */
  predicate IsOf(op: C.Op, e: Event) {
    && !op.Evict? && (op.Lookup? <==> e.dns.flags.qr)
    && op.ip == e.network.queryIP && op.id == e.dns.id && op.qname == e.dns.qname && op.qtype == e.dns.qtype
  }

  /** The operations of a history that are not sweeps. */
  function Calls(h: seq<C.Op>): seq<C.Op> {
    if h == [] then [] else Calls(h[..|h| - 1]) + (if h[|h| - 1].Evict? then [] else [h[|h| - 1]])
  }

  lemma {:induction false} CallsAreEvents(h: seq<C.Op>, es: seq<Event>)
    requires Corresponds(h, es)
    ensures |Calls(h)| == |es| && forall k :: 0 <= k < |es| ==> IsOf(Calls(h)[k], es[k])
  {
    if h != [] {
      var n := |h| - 1;
      CallsAreEvents(h[..n], if h[n].Evict? then es else es[..|es| - 1]);
    }
  }

  /** In every interleaving the correlator is called once for each event correlated so far,
      in that order: for the k-th with its own address, identifier and question. */
  lemma CorrelatorSeesEvents(c: Config, steps: seq<Step>)
    requires Runs(c, Init(c), steps)
    ensures var l := Exec(c, Init(c), steps).led; var calls := Calls(l.history);
      |l.logs| > 1 && |calls| == |l.logs[1]| && forall k :: 0 <= k < |calls| ==> IsOf(calls[k], l.logs[1][k])
  {
    ReachableInv(c, steps);
    var l := Exec(c, Init(c), steps).led;
    CallsAreEvents(l.history, l.logs[1]);
  }

  function CountStores(h: seq<C.Op>): nat {
    if h == [] then 0 else CountStores(h[..|h| - 1]) + (if h[|h| - 1].Store? then 1 else 0)
  }

  function CountLookups(h: seq<C.Op>): nat {
    if h == [] then 0 else CountLookups(h[..|h| - 1]) + (if h[|h| - 1].Lookup? then 1 else 0)
  }

  function Queries(es: seq<Event>): nat {
    if es == [] then 0 else Queries(es[..|es| - 1]) + (if es[|es| - 1].dns.flags.qr then 0 else 1)
  }

  lemma {:induction false} StoresCounted(h: seq<C.Op>)
    ensures |C.Stores(h)| == CountStores(h)
  {
    if h != [] {
      var n := |h| - 1;
      StoresCounted(h[..n]);
      assert C.Stores(h) == C.Stores(h[..n]) + (if h[n].Store? then {n} else {});
    }
  }

  lemma {:induction false} LookupsCounted(h: seq<C.Op>)
    ensures |C.Responses(h)| == CountLookups(h)
  {
    if h != [] {
      var n := |h| - 1;
      LookupsCounted(h[..n]);
      assert C.Responses(h) == C.Responses(h[..n]) + (if h[n].Lookup? then {n} else {});
    }
  }

  lemma {:induction false} CorrespondingCounts(h: seq<C.Op>, es: seq<Event>)
    requires Corresponds(h, es)
    ensures CountStores(h) == Queries(es) && CountLookups(h) + Queries(es) == |es|
  {
    if h != [] {
      var n := |h| - 1;
      CorrespondingCounts(h[..n], if h[n].Evict? then es else es[..|es| - 1]);
    }
  }

  lemma {:induction false} QueriesSplit(a: seq<Event>, b: seq<Event>)
    ensures Queries(a + b) == Queries(a) + Queries(b)
  {
    if b == [] {
      assert a + b == a;
    } else {
      QueriesSplit(a, b[..|b| - 1]);
      assert (a + b)[..|a + b| - 1] == a + b[..|b| - 1];
    }
  }

  lemma QueriesAround(a: seq<Event>, x: seq<Event>, b: seq<Event>)
    ensures Queries(a + (x + b)) == Queries(a + b) + Queries(x)
  {
    QueriesSplit(a, x + b);
    QueriesSplit(x, b);
    QueriesSplit(a, b);
  }

  lemma QueriesWithout(b: seq<Event>, i: nat)
    requires i < |b|
    ensures Queries(b) == Queries(Without(b, i)) + Queries([b[i]])
  {
    hide Queries;
    assert b == b[..i] + ([b[i]] + b[i + 1..]);
    QueriesAround(b[..i], [b[i]], b[i + 1..]);
  }

  /** Counting queries does not depend on the order of the events. */
  lemma {:induction false} QueriesOfPermutation(a: seq<Event>, b: seq<Event>)
    requires multiset(a) == multiset(b)
    ensures Queries(a) == Queries(b) && |a| == |b|
    decreases |a|
  {
    SameSize(a, b);
    if a != [] {
      var i := Permuted(a, b);
      assert Without(a, 0) == a[1..];
      QueriesWithout(a, 0);
      QueriesWithout(b, i);
      QueriesOfPermutation(a[1..], Without(b, i));
    }
  }

  /** In every reachable state and any interleaving of workers and sweeps: the queries
      correlated are answered, evicted, overwritten or still live, and the responses
      correlated are answered or orphaned, with the same number of answers. */
  lemma CorrelationAccounts(c: Config, steps: seq<Step>)
    requires Runs(c, Init(c), steps)
    ensures var l := Exec(c, Init(c), steps).led; var h := l.history;
      && |l.logs| == c.storages + 2
      && Queries(l.logs[1]) == |C.Answered(h)| + |C.WithFate(h, C.Evicted)|
                               + |C.WithFate(h, C.Overwritten)| + |C.Contents(h, |h|)|
      && |l.logs[1]| - Queries(l.logs[1]) == |C.Answered(h)| + |C.Orphans(h)|
  {
    ReachableInv(c, steps);
    var l := Exec(c, Init(c), steps).led;
    C.Accounting(l.history);
    StoresCounted(l.history);
    LookupsCounted(l.history);
    CorrespondingCounts(l.history, l.logs[1]);
  }

  /** The same accounts close over the processed events once Shutdown has returned. */
  lemma CorrelationAccountsAfterShutdown(c: Config, steps: seq<Step>)
    requires Runs(c, Init(c), steps) && Exec(c, Init(c), steps).sys.stage == Returned
    ensures var l := Exec(c, Init(c), steps).led; var h := l.history;
      && Queries(l.processed) == |C.Answered(h)| + |C.WithFate(h, C.Evicted)|
                                 + |C.WithFate(h, C.Overwritten)| + |C.Contents(h, |h|)|
      && |l.processed| - Queries(l.processed) == |C.Answered(h)| + |C.Orphans(h)|
  {
    CorrelationAccounts(c, steps);
    LedgerAfterShutdown(c, steps);
    var l := Exec(c, Init(c), steps).led;
    QueriesOfPermutation(l.logs[1], l.processed);
  }

  /** Whenever the sweeps of a run come at most 10 s apart, none of its responses was
      matched to a query stored more than 40 s before. */
  lemma RunMatchesAreFresh(c: Config, steps: seq<Step>, i: nat, j: nat, start: int)
    requires Runs(c, Init(c), steps)
    requires var h := Exec(c, Init(c), steps).led.history; C.Ticked(h, start) && C.Matches(h, i, j)
    ensures var h := Exec(c, Init(c), steps).led.history;
      h[j].now - h[i].now <= 40_000_000_000
  {
    ReachableInv(c, steps);
    C.MatchAgeBound(Exec(c, Init(c), steps).led.history, i, j, start);
  }
}
