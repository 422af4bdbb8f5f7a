/** From copies at the broker back to the events of the queue: which event a copy carries,
    and in which order copies of different batches arrive (internal/adapter/outbound/kafka/
    producer.go:184-266). */
module DeliveryOrder {
  import B = Batching
  import D = Delivery
  import opened Domain

  /** How many messages stand in the batches before batch b. */
  function Before<M>(batches: seq<seq<M>>, b: nat): nat {
    if b == 0 || b > |batches| then 0 else Before(batches, b - 1) + |batches[b - 1]|
  }

  /** The place of a copy's message among all messages flushed. */
  function Position<M>(batches: seq<seq<M>>, c: D.Copy): nat { Before(batches, c.batch) + c.index }

  predicate InBatch<M>(batches: seq<seq<M>>, c: D.Copy) {
    c.batch < |batches| && c.index < |batches[c.batch]|
  }

  lemma {:induction false} BeforeOfPrefix<M>(batches: seq<seq<M>>, n: nat, b: nat)
    requires b <= n <= |batches|
    ensures Before(batches[..n], b) == Before(batches, b)
  {
    if b > 0 { BeforeOfPrefix(batches, n, b - 1); }
  }

  lemma {:induction false} ConcatSize<M>(batches: seq<seq<M>>)
    ensures |B.Concat(batches)| == Before(batches, |batches|)
  {
    if batches != [] {
      ConcatSize(batches[..|batches| - 1]);
      BeforeOfPrefix(batches, |batches| - 1, |batches| - 1);
    }
  }

  /** A copy's message is found at its place. */
  lemma {:induction false} MessageAt<M>(batches: seq<seq<M>>, c: D.Copy)
    requires InBatch(batches, c)
    ensures Position(batches, c) < |B.Concat(batches)|
    ensures B.Concat(batches)[Position(batches, c)] == batches[c.batch][c.index]
  {
    var n := |batches| - 1;
    ConcatSize(batches[..n]);
    BeforeOfPrefix(batches, n, n);
    BeforeOfPrefix(batches, n, c.batch);
    if c.batch < n { MessageAt(batches[..n], c); }
  }

  lemma {:induction false} BeforeGrows<M>(batches: seq<seq<M>>, a: nat, b: nat)
    requires a < b <= |batches|
    ensures Before(batches, a) + |batches[a]| <= Before(batches, b)
  {
    if a < b - 1 { BeforeGrows(batches, a, b - 1); }
  }

  lemma PlaceFollowsBatch<M>(batches: seq<seq<M>>, c: D.Copy, d: D.Copy)
    requires InBatch(batches, c) && InBatch(batches, d) && c.batch != d.batch
    ensures Position(batches, c) < Position(batches, d) <==> c.batch < d.batch
  {
    if c.batch < d.batch { BeforeGrows(batches, c.batch, d.batch); } else { BeforeGrows(batches, d.batch, c.batch); }
  }

  lemma CopyInBatch(batches: seq<seq<D.Message>>, answers: seq<D.Answers>, p: nat)
    requires |batches| == |answers| && p < |D.FullLog(batches, answers, |batches|)|
    ensures InBatch(batches, D.FullLog(batches, answers, |batches|)[p])
  {
    var log := D.FullLog(batches, answers, |batches|);
    D.FullLogCopies(batches, answers, |batches|, log[p]);
    assert log[p] in multiset(log);
  }

  /** Copies of different batches arrive in the order of the messages they carry. */
  lemma CopiesFollowMessages(batches: seq<seq<D.Message>>, answers: seq<D.Answers>, p: nat, q: nat)
    requires |batches| == |answers|
    requires var log := D.FullLog(batches, answers, |batches|);
      p < |log| && q < |log| && log[p].batch != log[q].batch
    ensures var log := D.FullLog(batches, answers, |batches|);
      p < q <==> Position(batches, log[p]) < Position(batches, log[q])
  {
    var log := D.FullLog(batches, answers, |batches|);
    CopyInBatch(batches, answers, p);
    CopyInBatch(batches, answers, q);
    D.BatchesStayInOrder(batches, answers, |batches|);
    hide D.FullLog;
    PlaceFollowsBatch(batches, log[p], log[q]);
  }

  // ------------------------------------------------------------- messages and events

  /** Which of the first n events gave message x. */
  function Origin<E, M>(p: B.Params<E, M>, es: seq<E>, n: nat, x: nat): nat
    requires n <= |es|
  {
    if n == 0 then 0
    else if x < |B.EncodedUpTo(p, es, n - 1)| then Origin(p, es, n - 1, x)
    else n - 1
  }

  lemma {:induction false} OriginEncodes<E, M>(p: B.Params<E, M>, es: seq<E>, n: nat, x: nat)
    requires n <= |es| && x < |B.EncodedUpTo(p, es, n)|
    ensures Origin(p, es, n, x) < n && p.encode(es[Origin(p, es, n, x)]) == Some(B.EncodedUpTo(p, es, n)[x])
  {
    if x < |B.EncodedUpTo(p, es, n - 1)| { OriginEncodes(p, es, n - 1, x); }
  }

  lemma UnfoldOrigin<E, M>(p: B.Params<E, M>, es: seq<E>, n: nat, x: nat)
    requires 0 < n <= |es|
    ensures var before, all := |B.EncodedUpTo(p, es, n - 1)|, |B.EncodedUpTo(p, es, n)|;
      && all == before + (if p.encode(es[n - 1]).Some? then 1 else 0)
      && (x < before ==> Origin(p, es, n, x) == Origin(p, es, n - 1, x) < n - 1)
      && (x >= before ==> Origin(p, es, n, x) == n - 1)
  {
    if x < |B.EncodedUpTo(p, es, n - 1)| { OriginEncodes(p, es, n - 1, x); }
  }


  /** The events that give no message are exactly those that cannot be encoded. */
  lemma {:induction false} OriginIff<E, M>(p: B.Params<E, M>, es: seq<E>, n: nat, k: nat)
    requires k < n <= |es|
    ensures p.encode(es[k]).Some? <==>
      exists x: nat :: x < |B.EncodedUpTo(p, es, n)| && Origin(p, es, n, x) == k
  {
    hide Origin, B.EncodedUpTo;
    var before, all := |B.EncodedUpTo(p, es, n - 1)|, |B.EncodedUpTo(p, es, n)|;
    UnfoldOrigin(p, es, n, before);
    if k < n - 1 { OriginIff(p, es, n - 1, k); }
    if x: nat :| x < all && Origin(p, es, n, x) == k { UnfoldOrigin(p, es, n, x); }
    if p.encode(es[k]).Some? && k < n - 1 {
      var x: nat :| x < before && Origin(p, es, n - 1, x) == k;
      UnfoldOrigin(p, es, n, x);
    }
  }


  /** Later messages come from later events. */
  lemma {:induction false} OriginGrows<E, M>(p: B.Params<E, M>, es: seq<E>, n: nat, x: nat, y: nat)
    requires n <= |es| && x < y < |B.EncodedUpTo(p, es, n)|
    ensures Origin(p, es, n, x) < Origin(p, es, n, y)
  {
    if y < |B.EncodedUpTo(p, es, n - 1)| {
      OriginGrows(p, es, n - 1, x, y);
    } else {
      OriginEncodes(p, es, n - 1, x);
    }
  }
}
