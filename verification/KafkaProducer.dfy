/** The Producer struct (internal/adapter/outbound/kafka/producer.go): a flusher whose
    buffer is one slice reused in place, handing each full batch to flushBatch. */
module KafkaProducer {
  import opened Domain
  import B = Batching
  import D = Delivery
  import O = DeliveryOrder
  import Retriable

  type Event = DNSRawEvent

  /** The messages that copies of one batch carry. */
  function Contents(batch: seq<D.Message>, copies: seq<D.Copy>): (r: seq<D.Message>)
    ensures |r| == |copies|
  {
    seq(|copies|, i requires 0 <= i < |copies| =>
      if copies[i].index < |batch| then batch[copies[i].index] else D.Message("", ""))
  }

  lemma ContentsGrow(batch: seq<D.Message>, a: seq<D.Copy>, b: seq<D.Copy>)
    ensures Contents(batch, a + b) == Contents(batch, a) + Contents(batch, b)
  {
  }

  /** What the cluster has received, copy by copy, are the messages of the batches. */
  predicate Carries(batches: seq<seq<D.Message>>, log: seq<D.Copy>, received: seq<D.Message>) {
    && |received| == |log|
    && forall m :: 0 <= m < |log| ==>
         O.InBatch(batches, log[m]) && received[m] == batches[log[m].batch][log[m].index]
  }

  lemma CarriesGrows(batches: seq<seq<D.Message>>, log: seq<D.Copy>, received: seq<D.Message>, batch: seq<D.Message>,
                     copies: seq<D.Copy>)
    requires Carries(batches, log, received)
    requires forall m :: 0 <= m < |copies| ==> copies[m].batch == |batches| && copies[m].index < |batch|
    ensures Carries(batches + [batch], log + copies, received + Contents(batch, copies))
  {
  }

  /** The Kafka cluster: the messages it has taken, in order, and which copies they are. */
  class Broker {
    var received: seq<D.Message>
    ghost var log: seq<D.Copy>

    constructor ()
      ensures log == [] && received == []
    {
      log, received := [], [];
    }

    /** One WriteMessages call on the first n messages of the slice, batch b. */
    method WriteMessages(ghost b: nat, messages: array<D.Message>, n: nat, answer: D.Answer)
      returns (err: Option<Retriable.Err>)
      requires n <= messages.Length
      modifies this
      ensures log == old(log) + D.Landed(b, n, answer.took) && err == answer.err
      ensures received == old(received) + Contents(messages[..n], D.Landed(b, n, answer.took))
    {
      ghost var batch := messages[..n];
      for i := 0 to n
        invariant log == old(log) + D.Landed(b, i, answer.took)
        invariant received == old(received) + Contents(batch, D.Landed(b, i, answer.took))
      {
        if i in answer.took {
          ContentsGrow(batch, D.Landed(b, i, answer.took), [D.Copy(b, i)]);
          assert Contents(batch, [D.Copy(b, i)]) == [messages[i]];
          received := received + [messages[i]];
          log := log + [D.Copy(b, i)];
        } else {
          assert D.Landed(b, i + 1, answer.took) == D.Landed(b, i, answer.took) + [];
        }
      }
      err := answer.err;
    }
  }

  lemma RetriedIff(a: D.Answer)
    ensures D.Retried(a) <==> a.err.Some? && Retriable.IsRetriable(a.err.value)
  {
  }

  lemma CopiesOfBatch(b: nat, n: nat, a: D.Answers)
    ensures var log := D.BatchLog(b, n, a); forall m :: 0 <= m < |log| ==> log[m].batch == b && log[m].index < n
  {
    hide D.LandedIn, D.TimesTaken;
    var log := D.BatchLog(b, n, a);
    forall m | 0 <= m < |log| ensures log[m].batch == b && log[m].index < n {
      D.CopiesCounted(b, n, a, D.Attempts(a), log[m]);
      assert log[m] in multiset(log);
    }
  }

  /** flushBatch: at most three attempts at the filled part of the slice, stopping at success
      or at a final error. */
  method FlushBatch(broker: Broker, ghost b: nat, messages: array<D.Message>, n: nat, answers: D.Answers)
    returns (err: Option<Retriable.Err>)
    requires n <= messages.Length
    modifies broker
    ensures broker.log == old(broker.log) + D.BatchLog(b, n, answers)
    ensures broker.received == old(broker.received) + Contents(messages[..n], D.BatchLog(b, n, answers))
    ensures err == None <==> D.Succeeds(answers)
  {
    hide D.Landed, D.Retried, Retriable.IsRetriable;
    err := None;
    ghost var batch := messages[..n];
    var attempt := 0;
    assert D.LandedIn(b, n, answers, 0) == [];
    while attempt < 3
      invariant 0 <= attempt <= 3
      invariant broker.log == old(broker.log) + D.LandedIn(b, n, answers, attempt)
      invariant broker.received == old(broker.received) + Contents(batch, D.LandedIn(b, n, answers, attempt))
      invariant forall k :: 0 <= k < attempt ==> D.Retried(D.AnswerAt(answers, k))
      invariant attempt > 0 ==> err == D.AnswerAt(answers, attempt - 1).err
    {
      ghost var landed, now := D.LandedIn(b, n, answers, attempt), D.Landed(b, n, D.AnswerAt(answers, attempt).took);
      err := broker.WriteMessages(b, messages, n, D.AnswerAt(answers, attempt));
      ContentsGrow(batch, landed, now);
      attempt := attempt + 1;
      assert D.LandedIn(b, n, answers, attempt) == landed + now;
      RetriedIff(D.AnswerAt(answers, attempt - 1));
      if err == None || !Retriable.IsRetriable(err.value) { break; }
    }
    D.AttemptsIs(answers, attempt);
  }

  /** The message for an event: keyed by its question name, absent if it cannot be marshalled. */
  function MessageOf(marshal: Event -> Option<string>, e: Event): Option<D.Message> {
    match marshal(e)
    case Some(data) => Some(D.Message(e.dns.qname, data))
    case None => None
  }

  lemma {:induction false} LogPrefix(batches: seq<seq<D.Message>>, answers: seq<D.Answers>, batch: seq<D.Message>,
                                     a: D.Answers, m: nat)
    requires m <= |batches| == |answers|
    ensures D.FullLog(batches + [batch], answers + [a], m) == D.FullLog(batches, answers, m)
  {
    if m > 0 { LogPrefix(batches, answers, batch, a, m - 1); }
  }

  lemma LogGrows(batches: seq<seq<D.Message>>, answers: seq<D.Answers>, batch: seq<D.Message>, a: D.Answers)
    requires |batches| == |answers|
    ensures D.FullLog(batches + [batch], answers + [a], |batches| + 1)
         == D.FullLog(batches, answers, |batches|) + D.BatchLog(|batches|, |batch|, a)
  {
    LogPrefix(batches, answers, batch, a, |batches|);
  }

  class Producer {
    const marshal: Event -> Option<string>
    const p: B.Params<Event, D.Message>
    const broker: Broker
    var queue: seq<Event>
    var buffer: array<D.Message>
    var length: nat
    var doneClosed: bool
    var gone: bool
    ghost var accepted: seq<Event>
    ghost var dropped: seq<Event>
    ghost var taken: seq<Event>
    ghost var flushed: seq<seq<D.Message>>
    ghost var answers: seq<D.Answers>

    ghost function View(): B.Flusher<Event, D.Message>
      reads this, buffer
      requires length <= buffer.Length
    {
      B.Flusher(queue, buffer[..length], doneClosed, gone, accepted, dropped, taken, flushed)
    }

    /** The ledger balances, and the broker holds what the flushed batches left there. */
    ghost predicate Valid()
      reads this, buffer, broker
    {
      && length <= buffer.Length
      && B.Inv(p, View())
      && |answers| == |flushed|
      && broker.log == D.FullLog(flushed, answers, |flushed|)
      && Carries(flushed, broker.log, broker.received)
      && forall e :: p.encode(e) == MessageOf(marshal, e)
    }

    constructor (batchSize: nat, marshal: Event -> Option<string>)
      ensures Valid() && View() == B.Start() && fresh(buffer) && fresh(broker) && p.limit == batchSize
      ensures this.marshal == marshal
    {
      this.marshal := marshal;
      p := B.Params(batchSize, e => MessageOf(marshal, e));
      broker := new Broker();
      queue, length, doneClosed, gone := [], 0, false, false;
      buffer := new D.Message[batchSize](_ => D.Message("", ""));
      accepted, dropped, taken, flushed, answers := [], [], [], [], [];
    }

    /** The non-blocking send; it reports nil even when the queue is full. */
    method Write(event: Event)
      requires Valid()
      modifies this
      ensures Valid() && View() == B.Next(p, old(View()), B.Offer(event))
      ensures answers == old(answers) && buffer == old(buffer)
    {
      hide B.Inv;
      B.StepKeepsInv(p, View(), B.Offer(event));
      if |queue| < B.CAPACITY {
        queue := queue + [event];
        accepted := accepted + [event];
      } else {
        dropped := dropped + [event];
      }
    }

    /** flush: hands the filled part of the slice to flushBatch and empties it in place. */
    method Flush(a: D.Answers)
      requires length <= buffer.Length && |answers| == |flushed|
      requires broker.log == D.FullLog(flushed, answers, |flushed|) && Carries(flushed, broker.log, broker.received)
      modifies this, broker
      ensures length <= buffer.Length && buffer == old(buffer) && |answers| == |flushed|
      ensures broker.log == D.FullLog(flushed, answers, |flushed|) && Carries(flushed, broker.log, broker.received)
      ensures View() == B.Flush(old(View()))
      ensures answers == if old(length) == 0 then old(answers) else old(answers) + [a]
    {
      if length == 0 { return; }
      hide D.FullLog, D.BatchLog, Contents, Carries;
      var err := FlushBatch(broker, |flushed|, buffer, length, a);
      LogGrows(flushed, answers, buffer[..length], a);
      CopiesOfBatch(|flushed|, length, a);
      CarriesGrows(flushed, old(broker.log), old(broker.received), buffer[..length], D.BatchLog(|flushed|, length, a));
      flushed, answers := flushed + [buffer[..length]], answers + [a];
      length := 0;
    }

    /** Append to the slice, moving to a larger array only if there is no room. */
    method Append(m: D.Message)
      requires length <= buffer.Length
      modifies this, buffer
      ensures length <= buffer.Length && (buffer == old(buffer) || fresh(buffer))
      ensures View() == old(View()).(buffer := old(View()).buffer + [m])
      ensures answers == old(answers)
    {
      if length == buffer.Length {
        var kept := buffer[..length];
        buffer := new D.Message[2 * |kept| + 1](i => if 0 <= i < |kept| then kept[i] else m);
      }
      buffer[length] := m;
      length := length + 1;
    }

    /** The select receives an event: marshal it, or log and go on; flush when full. */
    method Receive(a: D.Answers)
      requires Valid() && B.Enabled(View(), B.Action<Event>.Take)
      modifies this, buffer, broker
      ensures Valid() && View() == B.Next(p, old(View()), B.Take)
      ensures buffer == old(buffer) || fresh(buffer)
    {
      hide B.Inv;
      B.StepKeepsInv(p, View(), B.Take);
      var event := queue[0];
      queue, taken := queue[1..], taken + [event];
      var encoded := p.encode(event);
      if encoded.Some? {
        Append(encoded.value);
        if length >= p.limit { Flush(a); }
      }
    }

    method Tick(a: D.Answers)
      requires Valid() && B.Enabled(View(), B.Action<Event>.Tick)
      modifies this, broker
      ensures Valid() && View() == B.Next(p, old(View()), B.Tick) && buffer == old(buffer)
    {
      hide B.Inv;
      B.StepKeepsInv(p, View(), B.Tick);
      Flush(a);
    }

    /** The first statement of Close. */
    method CloseDone()
      requires Valid() && B.Enabled(View(), B.Action<Event>.CloseDone)
      modifies this
      ensures Valid() && View() == B.Next(p, old(View()), B.CloseDone) && buffer == old(buffer)
    {
      hide B.Inv;
      B.StepKeepsInv(p, View(), B.CloseDone);
      doneClosed := true;
    }

    /** The select sees done: the last flush, and the goroutine returns. */
    method Stop(a: D.Answers)
      requires Valid() && B.Enabled(View(), B.Action<Event>.Stop)
      modifies this, broker
      ensures Valid() && View() == B.Next(p, old(View()), B.Stop) && buffer == old(buffer)
    {
      hide B.Inv;
      B.StepKeepsInv(p, View(), B.Stop);
      Flush(a);
      gone := true;
    }

    /** The accepted event that a copy at the broker carries, by its place in the queue. */
    ghost function OriginOf(c: D.Copy): nat
      reads this
    {
      O.Origin(p, taken, |taken|, O.Position(flushed, c))
    }

    /** The messages made so far, flushed or in the slice. */
    ghost function Made(): seq<D.Message>
      reads this, buffer
      requires length <= buffer.Length
    {
      B.Concat(flushed) + buffer[..length]
    }

    ghost function MadeFrom(x: nat): nat
      reads this
    {
      O.Origin(p, taken, |taken|, x)
    }

    /** Each message made is an event taken, as marshalled, with its question name as the key;
        and exactly those events taken that cannot be marshalled have given no message. */
    lemma TakenEventsAreMarshalled()
      requires Valid()
      ensures forall x: nat :: x < |Made()| ==>
        && MadeFrom(x) < |taken|
        && marshal(taken[MadeFrom(x)]) == Some(Made()[x].value)
        && Made()[x].key == taken[MadeFrom(x)].dns.qname
      ensures forall x: nat, y: nat :: x < y < |Made()| ==> MadeFrom(x) < MadeFrom(y)
      ensures forall k: nat :: k < |taken| ==>
        (marshal(taken[k]) == None <==> !exists x: nat :: x < |Made()| && MadeFrom(x) == k)
    {
      hide D.FullLog, Carries;
      assert Made() == B.Encoded(p, taken);
      forall x: nat | x < |Made()|
        ensures MadeFrom(x) < |taken| && p.encode(taken[MadeFrom(x)]) == Some(Made()[x])
      {
        O.OriginEncodes(p, taken, |taken|, x);
      }
      forall x: nat, y: nat | x < y < |Made()| ensures MadeFrom(x) < MadeFrom(y) {
        O.OriginGrows(p, taken, |taken|, x, y);
      }
      forall k: nat | k < |taken|
        ensures p.encode(taken[k]).Some? <==> exists x: nat :: x < |Made()| && MadeFrom(x) == k
      {
        O.OriginIff(p, taken, |taken|, k);
        forall x: nat ensures MadeFrom(x) == O.Origin(p, taken, |taken|, x) { }
      }
    }


    lemma CopyCarriesEvent(m: nat)
      requires Valid() && m < |broker.log|
      ensures var c := broker.log[m];
        && O.InBatch(flushed, c) && O.Position(flushed, c) < |B.Encoded(p, taken)|
        && OriginOf(c) < |taken| && accepted[OriginOf(c)] == taken[OriginOf(c)]
        && MessageOf(marshal, taken[OriginOf(c)]) == Some(broker.received[m])
    {
      var c := broker.log[m];
      O.CopyInBatch(flushed, answers, m);
      O.MessageAt(flushed, c);
      var x := O.Position(flushed, c);
      hide D.FullLog, O.Position;
      assert B.Encoded(p, taken)[x] == flushed[c.batch][c.index];
      O.OriginEncodes(p, taken, |taken|, x);
    }

    /** In every state of the producer each message the broker has received is an accepted
        event as marshalled, keyed by its question name, though the slice it came from is used
        again; and copies of different batches arrived in the order in which their events
        were accepted. */
    lemma DeliveriesFollowQueue(m: nat, n: nat)
      requires Valid() && m < |broker.log| && n < |broker.log|
      ensures var c, d := broker.log[m], broker.log[n];
        var i, j := OriginOf(c), OriginOf(d);
        && |broker.received| == |broker.log| && i < |accepted| && j < |accepted|
        && marshal(accepted[i]) == Some(broker.received[m].value)
        && broker.received[m].key == accepted[i].dns.qname
        && (c.batch != d.batch ==> (m < n <==> i < j))
    {
      var c, d := broker.log[m], broker.log[n];
      CopyCarriesEvent(m);
      CopyCarriesEvent(n);
      var x, y := O.Position(flushed, c), O.Position(flushed, d);
      if c.batch != d.batch {
        O.CopiesFollowMessages(flushed, answers, m, n);
        O.CopiesFollowMessages(flushed, answers, n, m);
        if m < n { O.OriginGrows(p, taken, |taken|, x, y); }
        if n < m { O.OriginGrows(p, taken, |taken|, y, x); }
      }
      hide D.FullLog, O.Position, O.Origin, B.Encoded;
    }
  }
}
