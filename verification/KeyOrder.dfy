/** The documented order per key, from the producer's queue to the broker, over every run and
    every broker (internal/adapter/outbound/kafka/producer.go:161-266). */
module KeyOrder {
  import opened Domain
  import B = Batching
  import D = Delivery
  import O = DeliveryOrder

  /** Copy d arrives while copy c has yet to arrive for the first time. */
  ghost predicate Overtakes(log: seq<D.Copy>, c: D.Copy, d: D.Copy) {
    exists p, q :: 0 <= q < p < |log| && log[q] == d && log[p] == c && c !in log[..q]
  }

  predicate SameKey(batches: seq<seq<D.Message>>, c: D.Copy, d: D.Copy) {
    && O.InBatch(batches, c) && O.InBatch(batches, d)
    && batches[c.batch][c.index].key == batches[d.batch][d.index].key
  }

  /** No message is overtaken by a later one with its key. */
  ghost predicate InKeyOrder(batches: seq<seq<D.Message>>, log: seq<D.Copy>) {
    forall c, d :: SameKey(batches, c, d) && O.Position(batches, c) < O.Position(batches, d) ==> !Overtakes(log, c, d)
  }

  predicate AllHonest(batches: seq<seq<D.Message>>, answers: seq<D.Answers>) {
    |answers| == |batches| && forall b :: 0 <= b < |batches| ==> D.AllHonest(|batches[b]|, answers[b])
  }

  /** Every run of the flusher against every honest broker keeps the order per key. */
  ghost predicate AlwaysInKeyOrder<E(!new)>(p: B.Params<E, D.Message>) {
    forall actions, answers ::
      B.Runs(p, B.Start<E, D.Message>(), actions)
      && AllHonest(B.Exec(p, B.Start<E, D.Message>(), actions).flushed, answers) ==>
        var batches := B.Exec(p, B.Start<E, D.Message>(), actions).flushed;
        InKeyOrder(batches, D.FullLog(batches, answers, |batches|))
  }

  /** Messages alone in their batches are the same message if they are in the same batch. */
  lemma SamePlace(batches: seq<seq<D.Message>>, c: D.Copy, d: D.Copy)
    requires O.InBatch(batches, c) && O.InBatch(batches, d) && |batches[c.batch]| == 1 && |batches[d.batch]| == 1
    ensures c.batch == d.batch ==> O.Position(batches, c) == O.Position(batches, d)
  {
  }

  lemma SinglesInOrder(batches: seq<seq<D.Message>>, answers: seq<D.Answers>)
    requires |answers| == |batches| && forall b :: 0 <= b < |batches| ==> |batches[b]| == 1
    ensures InKeyOrder(batches, D.FullLog(batches, answers, |batches|))
  {
    hide D.FullLog, O.Position;
    var log := D.FullLog(batches, answers, |batches|);
    forall c, d | SameKey(batches, c, d) && O.Position(batches, c) < O.Position(batches, d)
      ensures !Overtakes(log, c, d)
    {
      if p: nat, q: nat :| q < p < |log| && log[q] == d && log[p] == c && c !in log[..q] {
        SamePlace(batches, c, d);
        O.CopiesFollowMessages(batches, answers, q, p);
      }
    }
  }

  lemma BothQueued<E>(p: B.Params<E, D.Message>, e: E, f: E)
    ensures var s := B.Next(p, B.Next(p, B.Start(), B.Offer(e)), B.Offer(f));
      s.queue == [e, f] && s.buffer == [] && s.flushed == [] && !s.gone
  {
  }

  lemma BothTaken<E>(p: B.Params<E, D.Message>, s: B.Flusher<E, D.Message>, e: E, f: E)
    requires s.queue == [e, f] && s.buffer == [] && s.flushed == [] && !s.gone
    requires p.limit > 1 && p.encode(e).Some? && p.encode(f).Some?
    ensures var s1 := B.Next(p, s, B.Action<E>.Take); var s2 := B.Next(p, s1, B.Action<E>.Take);
      var both := [p.encode(e).value, p.encode(f).value];
      && B.Enabled(s, B.Action<E>.Take) && B.Enabled(s1, B.Action<E>.Take) && !s2.gone
      && if p.limit > 2 then s2.buffer == both && s2.flushed == [] else s2.flushed == [both]
  {
    var s1 := B.Next(p, s, B.Action<E>.Take);
    assert s1.queue == [f] && s1.buffer == [p.encode(e).value] && s1.flushed == [];
    assert [p.encode(e).value] + [p.encode(f).value] == [p.encode(e).value, p.encode(f).value];
  }

  lemma LastFlush<E>(p: B.Params<E, D.Message>, s: B.Flusher<E, D.Message>, both: seq<D.Message>)
    returns (tail: seq<B.Action<E>>)
    requires both != [] && !s.gone
    requires (s.buffer == both && s.flushed == []) || s.flushed == [both]
    ensures B.Runs(p, s, tail) && B.Exec(p, s, tail).flushed == [both]
  {
    if s.flushed == [both] {
      tail := [];
    } else {
      tail := [B.Tick];
      assert B.Exec(p, B.Next(p, s, tail[0]), tail[1..]) == B.Next(p, s, tail[0]);
    }
  }

  lemma OffersEnabled<E>(s: B.Flusher<E, D.Message>, e: E)
    ensures B.Enabled(s, B.Offer(e))
  {
  }

  /** Where batches may hold two messages, any two events can end up in one. */
  lemma TwoInOneBatch<E>(p: B.Params<E, D.Message>, e: E, f: E) returns (actions: seq<B.Action<E>>)
    requires p.limit > 1 && p.encode(e).Some? && p.encode(f).Some?
    ensures B.Runs(p, B.Start<E, D.Message>(), actions)
    ensures B.Exec(p, B.Start<E, D.Message>(), actions).flushed == [[p.encode(e).value, p.encode(f).value]]
  {
    hide B.Next, B.Runs, B.Exec, B.Enabled;
    var s := B.Start<E, D.Message>();
    var s1 := B.Next(p, s, B.Offer(e));
    var s2 := B.Next(p, s1, B.Offer(f));
    var s3 := B.Next(p, s2, B.Take);
    var s4 := B.Next(p, s3, B.Take);
    BothQueued(p, e, f);
    BothTaken(p, s2, e, f);
    var tail := LastFlush(p, s4, [p.encode(e).value, p.encode(f).value]);
    OffersEnabled(s, e);
    OffersEnabled(s1, f);
    B.Prepend(p, s3, B.Take, tail);
    B.Prepend(p, s2, B.Take, [B.Take] + tail);
    B.Prepend(p, s1, B.Offer(f), [B.Take] + ([B.Take] + tail));
    B.Prepend(p, s, B.Offer(e), [B.Offer(f)] + ([B.Take] + ([B.Take] + tail)));
    actions := [B.Offer(e)] + ([B.Offer(f)] + ([B.Take] + ([B.Take] + tail)));
  }

  lemma AdverseSucceeds()
    ensures D.Succeeds(D.Adverse(2, 1))
  {
    assert D.Retried(D.Adverse(2, 1).first);
  }

  lemma SoloLog(batch: seq<D.Message>, a: D.Answers)
    ensures D.FullLog([batch], [a], 1) == D.BatchLog(0, |batch|, a)
  {
    hide D.BatchLog;
    assert D.FullLog([batch], [a], 0) == [];
  }

  lemma NotFirstIsOvertaken(log: seq<D.Copy>, i: nat, j: nat)
    requires !D.FirstBefore(log, 0, i, j) && D.Copy(0, i) in log && i != j
    ensures Overtakes(log, D.Copy(0, i), D.Copy(0, j))
  {
    var c, d := D.Copy(0, i), D.Copy(0, j);
    var q :| 0 <= q < |log| && log[q] == d && !exists p :: 0 <= p < q && log[p] == c;
    var p :| 0 <= p < |log| && log[p] == c;
    assert c !in log[..q];
  }

  lemma FirstArrivesToo()
    ensures D.Copy(0, 0) in D.BatchLog(0, 2, D.Adverse(2, 1))
  {
    hide D.Adverse, D.BatchLog;
    var log := D.BatchLog(0, 2, D.Adverse(2, 1));
    AdverseSucceeds();
    D.AdverseBreaksOrder(0, 2, 0, 1);
    D.CopyBounds(0, 2, D.Adverse(2, 1), D.Copy(0, 0));
    assert D.Copy(0, 0) in multiset(log);
  }

  /** A broker that takes the second message alone and then, asked again, both. */
  lemma SecondOvertakes(batch: seq<D.Message>)
    requires |batch| == 2 && batch[0].key == batch[1].key
    ensures AllHonest([batch], [D.Adverse(2, 1)])
    ensures !InKeyOrder([batch], D.FullLog([batch], [D.Adverse(2, 1)], 1))
  {
    hide D.Adverse, D.BatchLog, D.FullLog, Overtakes, D.FirstBefore;
    SoloLog(batch, D.Adverse(2, 1));
    D.AdverseBreaksOrder(0, 2, 0, 1);
    FirstArrivesToo();
    NotFirstIsOvertaken(D.BatchLog(0, 2, D.Adverse(2, 1)), 0, 1);
    assert O.Before([batch], 0) == 0 && SameKey([batch], D.Copy(0, 0), D.Copy(0, 1));
  }

  /** The order per key is guaranteed of what the producer was handed, over all runs and all
      brokers, exactly when a batch holds at most one message. */
  lemma KeyOrderIff<E(!new)>(p: B.Params<E, D.Message>, e: E, f: E)
    requires p.encode(e).Some? && p.encode(f).Some? && p.encode(e).value.key == p.encode(f).value.key
    ensures AlwaysInKeyOrder(p) <==> p.limit <= 1
  {
    if p.limit <= 1 {
      forall actions, answers |
        B.Runs(p, B.Start<E, D.Message>(), actions)
        && AllHonest(B.Exec(p, B.Start<E, D.Message>(), actions).flushed, answers)
        ensures var batches := B.Exec(p, B.Start<E, D.Message>(), actions).flushed;
          InKeyOrder(batches, D.FullLog(batches, answers, |batches|))
      {
        B.MessagesAreConserved(p, actions);
        SinglesInOrder(B.Exec(p, B.Start<E, D.Message>(), actions).flushed, answers);
      }
    } else {
      var actions := TwoInOneBatch(p, e, f);
      SecondOvertakes([p.encode(e).value, p.encode(f).value]);
      var answers := [D.Adverse(2, 1)];
      assert AllHonest(B.Exec(p, B.Start<E, D.Message>(), actions).flushed, answers);
    }
  }
}
