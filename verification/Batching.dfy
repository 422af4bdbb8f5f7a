/** The batching flusher that the Kafka producer (internal/adapter/outbound/kafka/
    producer.go:161-215) and the ClickHouse writer (internal/adapter/outbound/clickhouse/
    writer.go:259-303) share: a bounded queue with a dropping send, one goroutine that
    fills a buffer, and flushes by size, by tick and on close. */
module Batching {
  import opened Domain

  const CAPACITY: nat := 100000

  /** limit is the batch size; encode is the marshaller, which may fail on an event. */
  datatype Params<!E, M> = Params(limit: nat, encode: E -> Option<M>)

  datatype Flusher<E, M> = Flusher(
    queue: seq<E>, buffer: seq<M>, doneClosed: bool, gone: bool,
    accepted: seq<E>, dropped: seq<E>, taken: seq<E>, flushed: seq<seq<M>>)

  datatype Action<E> = Offer(e: E) | Take | Tick | CloseDone | Stop

  function Start<E, M>(): Flusher<E, M> { Flusher([], [], false, false, [], [], [], []) }

  /** The messages of the first n events, without those that cannot be encoded. */
  function EncodedUpTo<E, M>(p: Params<E, M>, es: seq<E>, n: nat): seq<M>
    requires n <= |es|
  {
    if n == 0 then []
    else EncodedUpTo(p, es, n - 1) + (match p.encode(es[n - 1]) case Some(m) => [m] case None => [])
  }

  function Encoded<E, M>(p: Params<E, M>, es: seq<E>): seq<M> { EncodedUpTo(p, es, |es|) }

  function Concat<M>(batches: seq<seq<M>>): seq<M> {
    if batches == [] then [] else Concat(batches[..|batches| - 1]) + batches[|batches| - 1]
  }

  function Flush<E, M>(f: Flusher<E, M>): Flusher<E, M> {
    if f.buffer == [] then f else f.(flushed := f.flushed + [f.buffer], buffer := [])
  }

  function Taken<E, M>(p: Params<E, M>, f: Flusher<E, M>): Flusher<E, M> {
    if f.queue == [] then f
    else
      var g := f.(queue := f.queue[1..], taken := f.taken + [f.queue[0]]);
      match p.encode(f.queue[0])
      case None => g
      case Some(m) =>
        var h := g.(buffer := g.buffer + [m]);
        if |h.buffer| >= p.limit then Flush(h) else h
  }

  function Next<E, M>(p: Params<E, M>, f: Flusher<E, M>, a: Action<E>): Flusher<E, M> {
    match a
    case Offer(e) =>
      if |f.queue| < CAPACITY then f.(queue := f.queue + [e], accepted := f.accepted + [e])
      else f.(dropped := f.dropped + [e])
    case Take => Taken(p, f)
    case Tick => Flush(f)
    case CloseDone => f.(doneClosed := true)
    case Stop => Flush(f).(gone := true)
  }

  predicate Enabled<E, M>(f: Flusher<E, M>, a: Action<E>) {
    match a
    case Offer(_) => true
    case Take => !f.gone && f.queue != []
    case Tick => !f.gone
    case CloseDone => !f.doneClosed
    case Stop => f.doneClosed && !f.gone
  }

  // ------------------------------------------------------------- the invariant

  predicate BatchSizes<M>(limit: nat, batches: seq<seq<M>>) {
    forall k :: 0 <= k < |batches| ==> 0 < |batches[k]| && (|batches[k]| <= limit || |batches[k]| == 1)
  }

  ghost predicate Inv<E, M>(p: Params<E, M>, f: Flusher<E, M>) {
    && f.accepted == f.taken + f.queue
    && Concat(f.flushed) + f.buffer == Encoded(p, f.taken)
    && |f.queue| <= CAPACITY
    && (f.buffer == [] || |f.buffer| < p.limit)
    && BatchSizes(p.limit, f.flushed)
    && (f.gone ==> f.doneClosed && f.buffer == [])
  }

  lemma {:induction false} EncodedPrefix<E, M>(p: Params<E, M>, es: seq<E>, e: E, n: nat)
    requires n <= |es|
    ensures EncodedUpTo(p, es + [e], n) == EncodedUpTo(p, es, n)
  {
    if n > 0 { EncodedPrefix(p, es, e, n - 1); }
  }

  lemma EncodedGrows<E, M>(p: Params<E, M>, es: seq<E>, e: E)
    ensures Encoded(p, es + [e]) == Encoded(p, es) + (match p.encode(e) case Some(m) => [m] case None => [])
  {
    EncodedPrefix(p, es, e, |es|);
  }

  lemma ConcatGrows<M>(batches: seq<seq<M>>, b: seq<M>)
    ensures Concat(batches + [b]) == Concat(batches) + b
  {
    assert (batches + [b])[..|batches|] == batches;
  }

  lemma SizesGrow<M>(limit: nat, batches: seq<seq<M>>, b: seq<M>)
    requires BatchSizes(limit, batches) && b != [] && (|b| <= limit || |b| == 1)
    ensures BatchSizes(limit, batches + [b])
  {
  }

  lemma FlushKeepsInv<E, M>(p: Params<E, M>, f: Flusher<E, M>)
    requires Concat(f.flushed) + f.buffer == Encoded(p, f.taken)
    requires BatchSizes(p.limit, f.flushed) && (|f.buffer| <= p.limit || |f.buffer| == 1)
    ensures var g := Flush(f);
      && g.buffer == [] && Concat(g.flushed) + g.buffer == Encoded(p, g.taken)
      && BatchSizes(p.limit, g.flushed)
  {
    hide Concat, EncodedUpTo, BatchSizes;
    if f.buffer != [] {
      ConcatGrows(f.flushed, f.buffer);
      SizesGrow(p.limit, f.flushed, f.buffer);
      assert Concat(f.flushed) + f.buffer + [] == Concat(f.flushed) + f.buffer;
    }
  }

  lemma TakeKeepsInv<E, M>(p: Params<E, M>, f: Flusher<E, M>)
    requires Inv(p, f) && Enabled(f, Action<E>.Take)
    ensures Inv(p, Taken(p, f))
  {
    hide Concat, EncodedUpTo, Encoded, BatchSizes;
    var e := f.queue[0];
    EncodedGrows(p, f.taken, e);
    assert f.queue == [e] + f.queue[1..];
    assert f.taken + [e] + f.queue[1..] == f.taken + f.queue;
    match p.encode(e)
    case None => assert Encoded(p, f.taken) + [] == Encoded(p, f.taken);
    case Some(m) =>
      var h := f.(queue := f.queue[1..], taken := f.taken + [e], buffer := f.buffer + [m]);
      assert Concat(h.flushed) + (f.buffer + [m]) == Concat(f.flushed) + f.buffer + [m];
      if |h.buffer| >= p.limit { FlushKeepsInv(p, h); }
  }

  lemma OfferKeepsInv<E, M>(p: Params<E, M>, f: Flusher<E, M>, e: E)
    requires Inv(p, f)
    ensures Inv(p, Next(p, f, Offer(e)))
  {
    hide Concat, EncodedUpTo, BatchSizes;
    assert f.taken + (f.queue + [e]) == f.taken + f.queue + [e];
  }

  lemma OtherKeepsInv<E, M>(p: Params<E, M>, f: Flusher<E, M>, a: Action<E>)
    requires Inv(p, f) && Enabled(f, a) && (a.Tick? || a.CloseDone? || a.Stop?)
    ensures Inv(p, Next(p, f, a))
  {
    hide Concat, EncodedUpTo, BatchSizes;
    FlushKeepsInv(p, f);
  }

  lemma StepKeepsInv<E, M>(p: Params<E, M>, f: Flusher<E, M>, a: Action<E>)
    requires Inv(p, f) && Enabled(f, a)
    ensures Inv(p, Next(p, f, a))
  {
    match a
    case Take => TakeKeepsInv(p, f);
    case Offer(e) => OfferKeepsInv(p, f, e);
    case _ => OtherKeepsInv(p, f, a);
  }

  // -------------------------------------------------------------------- runs

  predicate Runs<E, M>(p: Params<E, M>, f: Flusher<E, M>, actions: seq<Action<E>>)
    decreases |actions|
  {
    actions == [] || (Enabled(f, actions[0]) && Runs(p, Next(p, f, actions[0]), actions[1..]))
  }

  function Exec<E, M>(p: Params<E, M>, f: Flusher<E, M>, actions: seq<Action<E>>): Flusher<E, M>
    decreases |actions|
  {
    if actions == [] then f else Exec(p, Next(p, f, actions[0]), actions[1..])
  }

  lemma Prepend<E, M>(p: Params<E, M>, f: Flusher<E, M>, a: Action<E>, rest: seq<Action<E>>)
    requires Enabled(f, a) && Runs(p, Next(p, f, a), rest)
    ensures Runs(p, f, [a] + rest) && Exec(p, f, [a] + rest) == Exec(p, Next(p, f, a), rest)
  {
    hide Enabled, Next;
    assert ([a] + rest)[1..] == rest;
  }

  lemma {:induction false} RunKeepsInv<E, M>(p: Params<E, M>, f: Flusher<E, M>, actions: seq<Action<E>>)
    requires Inv(p, f) && Runs(p, f, actions)
    ensures Inv(p, Exec(p, f, actions))
    decreases |actions|
  {
    if actions != [] {
      StepKeepsInv(p, f, actions[0]);
      RunKeepsInv(p, Next(p, f, actions[0]), actions[1..]);
    }
  }

  /** In every state an event is accepted exactly when fewer than 100000 events are queued,
      dropped exactly when not, and no other action does either. */
  lemma OfferSettles<E, M>(p: Params<E, M>, f: Flusher<E, M>, a: Action<E>)
    ensures var g := Next(p, f, a);
      && (a.Offer? && |f.queue| < 100_000 ==>
            g.accepted == f.accepted + [a.e] && g.queue == f.queue + [a.e] && g.dropped == f.dropped)
      && (a.Offer? && |f.queue| >= 100_000 ==>
            g.dropped == f.dropped + [a.e] && g.queue == f.queue && g.accepted == f.accepted)
      && (!a.Offer? ==> g.accepted == f.accepted && g.dropped == f.dropped)
  {
  }

  /** A batch leaves exactly when a message fills the buffer, or when a tick or the end finds
      something in it; it is the whole buffer, which is then empty. */
  lemma FlushedWhen<E, M>(p: Params<E, M>, f: Flusher<E, M>, a: Action<E>)
    requires Enabled(f, a)
    ensures var g := Next(p, f, a);
      var last := if a.Take? && p.encode(f.queue[0]).Some? then [p.encode(f.queue[0]).value] else [];
      var full := f.buffer + last;
      if (last != [] && |full| >= p.limit) || ((a.Tick? || a.Stop?) && f.buffer != [])
      then g.flushed == f.flushed + [full] && g.buffer == []
      else g.flushed == f.flushed && g.buffer == full
  {
    assert f.buffer + [] == f.buffer;
  }


  lemma {:induction false} EncodedOfConcat<E, M>(p: Params<E, M>, a: seq<E>, b: seq<E>)
    ensures Encoded(p, a + b) == Encoded(p, a) + Encoded(p, b)
    decreases |b|
  {
    if b == [] {
      assert a + b == a && Encoded(p, a) + [] == Encoded(p, a);
    } else {
      var front, e := b[..|b| - 1], b[|b| - 1];
      EncodedOfConcat(p, a, front);
      EncodedGrows(p, front, e);
      EncodedGrows(p, a + front, e);
      assert b == front + [e] && a + b == a + front + [e];
    }
  }

  /** At every step of every run, what has been flushed, then the buffer, then the
      encodable part of the queue is the encodable part of everything accepted, in order. */
  lemma MessagesAreConserved<E, M>(p: Params<E, M>, actions: seq<Action<E>>)
    requires Runs(p, Start<E, M>(), actions)
    ensures var f := Exec(p, Start<E, M>(), actions);
      && Concat(f.flushed) + f.buffer + Encoded(p, f.queue) == Encoded(p, f.accepted)
      && |f.queue| <= CAPACITY && BatchSizes(p.limit, f.flushed)
      && (f.gone ==> Concat(f.flushed) == Encoded(p, f.taken) && f.accepted == f.taken + f.queue)
  {
    RunKeepsInv(p, Start<E, M>(), actions);
    var f := Exec(p, Start<E, M>(), actions);
    EncodedOfConcat(p, f.taken, f.queue);
  }

  /** When every event can be encoded as itself nothing is left out between queue and batch. */
  lemma {:induction false} TotalEncoding<E>(p: Params<E, E>, es: seq<E>, n: nat)
    requires n <= |es| && forall e :: p.encode(e) == Some(e)
    ensures EncodedUpTo(p, es, n) == es[..n]
  {
    if n > 0 { TotalEncoding(p, es, n - 1); }
  }

  // ------------------------------------------------------------------ closing

  predicate NoOffers<E>(actions: seq<Action<E>>) {
    forall i :: 0 <= i < |actions| ==> !actions[i].Offer?
  }

  lemma {:induction false} EmptyStaysEmpty<E, M>(p: Params<E, M>, f: Flusher<E, M>, actions: seq<Action<E>>)
    requires f.queue == [] && Runs(p, f, actions) && NoOffers(actions)
    ensures Exec(p, f, actions).queue == []
    decreases |actions|
  {
    if actions != [] { EmptyStaysEmpty(p, Next(p, f, actions[0]), actions[1..]); }
  }

  lemma StopsAtOnce<E, M>(p: Params<E, M>, f: Flusher<E, M>)
    requires f.doneClosed && !f.gone
    ensures var stop := [Action<E>.Stop];
      Runs(p, f, stop) && Exec(p, f, stop).gone && Exec(p, f, stop).queue == f.queue
  {
    var stop := [Action<E>.Stop];
    assert Exec(p, Next(p, f, stop[0]), stop[1..]) == Next(p, f, stop[0]);
  }

  /** However the goroutine's select is scheduled, it returns with its queue drained. */
  ghost predicate AlwaysDrained<E(!new), M>(p: Params<E, M>, f: Flusher<E, M>) {
    forall actions :: Runs(p, f, actions) && NoOffers(actions) && Exec(p, f, actions).gone ==>
      Exec(p, f, actions).queue == []
  }

  /** Read at any moment, at the call of Close for instance, with no further writes: Close is
      sure to deliver the whole queue to the flush exactly when the queue is already empty,
      because the done arm may be taken before any other. */
  lemma CloseDrainsIff<E(!new), M>(p: Params<E, M>, f: Flusher<E, M>)
    requires !f.gone
    ensures AlwaysDrained(p, f) <==> f.queue == []
  {
    if f.queue == [] {
      forall actions | Runs(p, f, actions) && NoOffers(actions) && Exec(p, f, actions).gone
        ensures Exec(p, f, actions).queue == []
      {
        EmptyStaysEmpty(p, f, actions);
      }
    } else {
      var closed := if f.doneClosed then f else Next(p, f, CloseDone);
      StopsAtOnce(p, closed);
      var stop := [Action<E>.Stop];
      var actions := if f.doneClosed then stop else [Action<E>.CloseDone] + stop;
      assert !f.doneClosed ==> actions[0] == CloseDone && actions[1..] == stop;
      assert Runs(p, f, actions) && Exec(p, f, actions) == Exec(p, closed, stop);
      assert Exec(p, f, actions).queue != [];
    }
  }
}
