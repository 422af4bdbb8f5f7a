/** Decoder, pipeline, correlator and Kafka producer together: from frames to matched pairs,
    and from Process to the batches that the broker is offered (internal/usecase/
    pipeline.go:46-173, internal/adapter/outbound/kafka/producer.go:161-215). */
module EndToEnd {
  import opened Bags
  import opened Domain
  import B = Batching
  import C = Correlator
  import Dec = DnstapDecode
  import En = Enrichment
  import M = PipelineMachine
  import R = PipelineRuns

  type Event = DNSRawEvent

  // ------------------------------------------------------- from frames to matched pairs

  /** The identifier in force: that of the last message that parses. */
  function IdOf(m: Dec.TapMessage): int {
    if Dec.Parsed(m.response) then m.response.unpacked.value.hdr.id
    else if Dec.Parsed(m.query) then m.query.unpacked.value.hdr.id
    else 0
  }

  lemma DecodedPair(t: Dec.Tables, tap: Dec.Tap, remote: Dec.Remote, now: int)
    requires tap.message.Some?
    ensures var e := Dec.Decoded(t, tap, remote, now);
      && e.Some? && e.value.network.queryIP == tap.message.value.queryAddress.GetOr("")
      && e.value.dns.id == IdOf(tap.message.value)
  {
  }

  /** In any history, a decoded response is matched to a decoded query correlated before it
      exactly when their frames carry the same client address and the same identifier, no
      sweep between saw the query over age, and no other event between is on that pair. */
  lemma DecodedMatchIff(t: Dec.Tables, q: Dec.Tap, from: Dec.Remote, asked: int,
                        r: Dec.Tap, to: Dec.Remote, replied: int, h: seq<C.Op>, i: nat, j: nat)
    requires q.message.Some? && r.message.Some? && i < j < |h|
    requires var e := Dec.Decoded(t, q, from, asked).value; !e.dns.flags.qr && h[i] == M.OpOf(e, h[i].now)
    requires var f := Dec.Decoded(t, r, to, replied).value; f.dns.flags.qr && h[j] == M.OpOf(f, h[j].now)
    ensures C.Matches(h, i, j) <==>
      && q.message.value.queryAddress.GetOr("") == r.message.value.queryAddress.GetOr("")
      && IdOf(q.message.value) == IdOf(r.message.value)
      && C.Undisturbed(h, i, j)
  {
    hide Dec.Decoded, IdOf, C.Matches, C.Undisturbed;
    DecodedPair(t, q, from, asked);
    DecodedPair(t, r, to, replied);
    C.MatchesIff(h, i, j);
  }

  // --------------------------------------------------------- from Process to the broker

  /** The events of a flusher run's calls of Write, in order. */
  function OffersUpTo<E>(actions: seq<B.Action<E>>, n: nat): seq<E>
    requires n <= |actions|
  {
    if n == 0 then []
    else OffersUpTo(actions, n - 1) + (if actions[n - 1].Offer? then [actions[n - 1].e] else [])
  }

  function Offers<E>(actions: seq<B.Action<E>>): seq<E> { OffersUpTo(actions, |actions|) }

  /** The producer's run belongs to the pipeline's: it is offered, enriched, exactly what
      the workers wrote to the first storage, in the order of the calls. */
  predicate Linked(g: Option<En.Resolver>, written: seq<Event>, actions: seq<B.Action<Event>>) {
    Offers(actions) == En.Handed(g, written)
  }

  function Unencodable<E, M>(p: B.Params<E, M>, es: seq<E>, n: nat): nat
    requires n <= |es|
  {
    if n == 0 then 0 else Unencodable(p, es, n - 1) + (if p.encode(es[n - 1]).None? then 1 else 0)
  }

  lemma {:induction false} EncodedOrNot<E, M>(p: B.Params<E, M>, es: seq<E>, n: nat)
    requires n <= |es|
    ensures |B.EncodedUpTo(p, es, n)| + Unencodable(p, es, n) == n
  {
    if n > 0 { EncodedOrNot(p, es, n - 1); }
  }

  function Offered<E>(a: B.Action<E>): seq<E> { if a.Offer? then [a.e] else [] }

  lemma {:induction false} OffersTail<E>(actions: seq<B.Action<E>>, n: nat)
    requires 0 < n <= |actions|
    ensures OffersUpTo(actions, n) == Offered(actions[0]) + OffersUpTo(actions[1..], n - 1)
  {
    if n > 1 {
      OffersTail(actions, n - 1);
      assert actions[1..][n - 2] == actions[n - 1];
    }
  }

  lemma StepSettles<E, M>(p: B.Params<E, M>, f: B.Flusher<E, M>, a: B.Action<E>)
    ensures var g := B.Next(p, f, a);
      multiset(g.accepted) + multiset(g.dropped)
        == multiset(f.accepted) + multiset(f.dropped) + multiset(Offered(a))
  {
    if a.Offer? {
      assert multiset([a.e]) == multiset{a.e};
      Regroup(multiset(f.accepted), multiset{a.e}, multiset(f.dropped));
    } else {
      assert multiset(Offered(a)) == multiset{};
    }
  }

  lemma NothingOffered<E, M>(p: B.Params<E, M>, f: B.Flusher<E, M>)
    ensures B.Exec(p, f, []) == f && multiset(Offers<E>([])) == multiset{}
  {
  }

  lemma UnfoldOffers<E, M>(p: B.Params<E, M>, f: B.Flusher<E, M>, actions: seq<B.Action<E>>)
    requires actions != []
    ensures B.Exec(p, f, actions) == B.Exec(p, B.Next(p, f, actions[0]), actions[1..])
    ensures multiset(Offers(actions)) == multiset(Offered(actions[0])) + multiset(Offers(actions[1..]))
  {
    hide B.Next, Offered;
    OffersTail(actions, |actions|);
  }

  /** Over any run each call of Write puts its event among the accepted or the dropped. */
  lemma {:induction false} OffersAreSettled<E, M>(p: B.Params<E, M>, f: B.Flusher<E, M>, actions: seq<B.Action<E>>)
    ensures var g := B.Exec(p, f, actions);
      multiset(g.accepted) + multiset(g.dropped)
        == multiset(f.accepted) + multiset(f.dropped) + multiset(Offers(actions))
    decreases |actions|
  {
    hide B.Next, B.Exec, Offered;
    if actions == [] {
      NothingOffered(p, f);
    } else {
      StepSettles(p, f, actions[0]);
      UnfoldOffers(p, f, actions);
      OffersAreSettled(p, B.Next(p, f, actions[0]), actions[1..]);
      Associate(multiset(f.accepted) + multiset(f.dropped), multiset(Offered(actions[0])),
                multiset(Offers(actions[1..])));
    }
  }

  lemma Rotate<T>(a: multiset<T>, b: multiset<T>, c: multiset<T>)
    ensures a + b + c == c + b + a
  {
  }

  /** The producer's account once its goroutine has returned: each event written was
      dropped, is left in the queue, or was taken; and the batches are the encodings of the
      events taken, in order. */
  lemma ProducerAccount<E, M>(p: B.Params<E, M>, actions: seq<B.Action<E>>)
    requires B.Runs(p, B.Start<E, M>(), actions) && B.Exec(p, B.Start<E, M>(), actions).gone
    ensures var f := B.Exec(p, B.Start<E, M>(), actions);
      && multiset(Offers(actions)) == multiset(f.dropped) + multiset(f.queue) + multiset(f.taken)
      && B.Concat(f.flushed) == B.Encoded(p, f.taken)
      && |f.queue| <= B.CAPACITY
      && |f.taken| == Unencodable(p, f.taken, |f.taken|) + |B.Concat(f.flushed)|
  {
    var f := B.Exec(p, B.Start<E, M>(), actions);
    B.MessagesAreConserved(p, actions);
    OffersAreSettled(p, B.Start<E, M>(), actions);
    EncodedOrNot(p, f.taken, |f.taken|);
    hide B.Runs, B.Exec, Offers, Unencodable, B.Concat;
    assert multiset(f.accepted) == multiset(f.taken) + multiset(f.queue);
    Rotate(multiset(f.taken), multiset(f.queue), multiset(f.dropped));
  }

  lemma Reorder<T>(a: multiset<T>, b: multiset<T>, c: multiset<T>, d: multiset<T>, e: multiset<T>)
    ensures a + b + c + d + e == c + d + e + b + a
  {
  }

  /** The pipeline's account once Shutdown has returned: each event offered was refused by
      one arm, is left in the queue, or was written once to the first storage. */
  lemma PipelineAccount(c: M.Config, steps: seq<M.Step>)
    requires R.Runs(c, M.Init(c), steps) && R.Exec(c, M.Init(c), steps).sys.stage == M.Returned && c.storages > 0
    ensures var t := R.Exec(c, M.Init(c), steps); var s, l := t.sys, t.led;
      && |l.logs| == c.storages + 2 && |s.queue| <= c.queueSize
      && multiset(l.offered) == multiset(l.droppedOnDie) + multiset(l.droppedOnFull) + multiset(l.recovered)
                                + multiset(s.queue) + multiset(l.logs[2])
  {
    hide M.Init, R.Runs, R.Exec;
    R.EventsAreConserved(c, steps);
    R.LedgerAfterShutdown(c, steps);
    var t := R.Exec(c, M.Init(c), steps);
    var s, l := t.sys, t.led;
    assert multiset(l.accepted) == multiset(l.logs[0]) + multiset(s.queue);
    Reorder(multiset(l.logs[2]), multiset(s.queue), multiset(l.droppedOnDie), multiset(l.droppedOnFull),
            multiset(l.recovered));
  }

  lemma SizesOfBags<T>(a: seq<T>, b: seq<T>, c: seq<T>, d: seq<T>, e: seq<T>, f: seq<T>)
    requires multiset(a) == multiset(b) + multiset(c) + multiset(d) + multiset(e) + multiset(f)
    ensures |a| == |b| + |c| + |d| + |e| + |f|
  {
    assert |multiset(a)| == |a|;
  }

  lemma SizesOfThree<T>(a: seq<T>, b: seq<T>, c: seq<T>, d: seq<T>)
    requires multiset(a) == multiset(b) + multiset(c) + multiset(d)
    ensures |a| == |b| + |c| + |d|
  {
    assert |multiset(a)| == |a|;
  }

  /** Once the pipeline's Shutdown and the producer's Close are both done, every event ever
      passed to Process is in exactly one place: refused by one of the three arms of
      Process, left in the pipeline's queue, or written; and every event written is, as
      enriched, refused by a full producer queue, left in that queue, or taken, those taken
      being, in order, the batches offered to the broker and what cannot be encoded. */
  lemma EveryEventIsAccountedFor<Msg>(c: M.Config, steps: seq<M.Step>, g: Option<En.Resolver>,
                                      p: B.Params<Event, Msg>, actions: seq<B.Action<Event>>)
    requires R.Runs(c, M.Init(c), steps) && R.Exec(c, M.Init(c), steps).sys.stage == M.Returned
    requires B.Runs(p, B.Start<Event, Msg>(), actions) && B.Exec(p, B.Start<Event, Msg>(), actions).gone
    requires c.storages > 0
    requires var l := R.Exec(c, M.Init(c), steps).led; |l.logs| > 2 && Linked(g, l.logs[2], actions)
    ensures var t, f := R.Exec(c, M.Init(c), steps), B.Exec(p, B.Start<Event, Msg>(), actions);
      var s, l := t.sys, t.led;
      && multiset(l.offered) == multiset(l.droppedOnDie) + multiset(l.droppedOnFull) + multiset(l.recovered)
                                + multiset(s.queue) + multiset(l.logs[2])
      && multiset(En.Handed(g, l.logs[2])) == multiset(f.dropped) + multiset(f.queue) + multiset(f.taken)
      && B.Concat(f.flushed) == B.Encoded(p, f.taken)
      && |s.queue| <= c.queueSize && |f.queue| <= B.CAPACITY
      && |l.offered| == |l.droppedOnDie| + |l.droppedOnFull| + |l.recovered| + |s.queue| + |f.dropped| + |f.queue|
                        + Unencodable(p, f.taken, |f.taken|) + |B.Concat(f.flushed)|
  {
    PipelineAccount(c, steps);
    ProducerAccount(p, actions);
    var t, f := R.Exec(c, M.Init(c), steps), B.Exec(p, B.Start<Event, Msg>(), actions);
    var s, l := t.sys, t.led;
    assert |En.Handed(g, l.logs[2])| == |l.logs[2]|;
    hide M.Init, R.Runs, R.Exec, B.Runs, B.Exec, Unencodable, Offers, En.Handed, B.Concat, B.Encoded;
    SizesOfBags(l.offered, l.droppedOnDie, l.droppedOnFull, l.recovered, s.queue, l.logs[2]);
    SizesOfThree(En.Handed(g, l.logs[2]), f.dropped, f.queue, f.taken);
  }
}
