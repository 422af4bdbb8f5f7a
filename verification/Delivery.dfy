/** flushBatch (internal/adapter/outbound/kafka/producer.go:240-266): up to three attempts at
    a whole batch against a broker that, when it reports an error, may have accepted any
    part of it. */
module Delivery {
  import opened Domain
  import opened Retriable

  // --------------------------------------------------------------- three attempts

  datatype Message = Message(key: string, value: string)

  /** The broker's part in one attempt: the positions it accepted, and what it reported. */
  datatype Answer = Answer(took: set<nat>, err: Option<Err>)

  datatype Answers = Answers(first: Answer, second: Answer, third: Answer)

  /** A report of success means the whole batch was accepted. */
  predicate Honest(n: nat, a: Answer) {
    a.err == None ==> forall i: nat :: i < n ==> i in a.took
  }

  predicate AllHonest(n: nat, a: Answers) { Honest(n, a.first) && Honest(n, a.second) && Honest(n, a.third) }

  predicate Retried(a: Answer) { a.err.Some? && IsRetriable(a.err.value) }

  function AnswerAt(a: Answers, k: nat): Answer {
    if k == 0 then a.first else if k == 1 then a.second else a.third
  }

  /** How many of the three attempts are made. */
  function Attempts(a: Answers): nat {
    if !Retried(a.first) then 1 else if !Retried(a.second) then 2 else 3
  }

  lemma AttemptsIs(a: Answers, m: nat)
    requires 1 <= m <= 3 && forall k :: 0 <= k < m - 1 ==> Retried(AnswerAt(a, k))
    requires m < 3 ==> !Retried(AnswerAt(a, m - 1))
    ensures Attempts(a) == m
  {
    assert m > 1 ==> Retried(AnswerAt(a, 0));
    assert m > 2 ==> Retried(AnswerAt(a, 1));
  }

  predicate Succeeds(a: Answers) { AnswerAt(a, Attempts(a) - 1).err == None }

  /** One message of one batch reaching the broker's log. */
  datatype Copy = Copy(batch: nat, index: nat)

  /** What one attempt appends: the accepted messages among the first n, in batch order. */
  function Landed(b: nat, n: nat, took: set<nat>): seq<Copy> {
    if n == 0 then [] else Landed(b, n - 1, took) + (if n - 1 in took then [Copy(b, n - 1)] else [])
  }

  /** What the first m attempts append. */
  function LandedIn(b: nat, n: nat, a: Answers, m: nat): seq<Copy> {
    if m == 0 then [] else LandedIn(b, n, a, m - 1) + Landed(b, n, AnswerAt(a, m - 1).took)
  }

  function BatchLog(b: nat, n: nat, a: Answers): seq<Copy> { LandedIn(b, n, a, Attempts(a)) }

  /** A second and a third attempt are made exactly after errors that are retried, and the
      flush succeeds exactly when the last attempt made reports no error. */
  lemma AttemptsMade(b: nat, n: nat, a: Answers)
    ensures var again := a.first.err.Some? && IsRetriable(a.first.err.value);
      var third := again && a.second.err.Some? && IsRetriable(a.second.err.value);
      && BatchLog(b, n, a) == Landed(b, n, a.first.took) + (if again then Landed(b, n, a.second.took) else [])
                              + (if third then Landed(b, n, a.third.took) else [])
      && (Succeeds(a) <==> (if third then a.third else if again then a.second else a.first).err == None)
  {
    hide IsRetriable, Landed;
    var one := Landed(b, n, a.first.took);
    assert LandedIn(b, n, a, 0) == [] && [] + one == one;
    assert LandedIn(b, n, a, 1) == one;
    assert LandedIn(b, n, a, 2) == one + Landed(b, n, a.second.took);
  }

  /** One attempt lands messages of the batch in their order. */
  lemma {:induction false} LandedInOrder(b: nat, n: nat, took: set<nat>)
    ensures forall p :: 0 <= p < |Landed(b, n, took)| ==> Landed(b, n, took)[p].index < n
    ensures forall p, q :: 0 <= p < q < |Landed(b, n, took)| ==>
      Landed(b, n, took)[p].index < Landed(b, n, took)[q].index
  {
    if n > 0 { LandedInOrder(b, n - 1, took); }
  }


  lemma CountOfConcat<T>(a: seq<T>, b: seq<T>, x: T)
    ensures multiset(a + b)[x] == multiset(a)[x] + multiset(b)[x]
  {
  }

  lemma UnfoldLanded(b: nat, n: nat, took: set<nat>)
    ensures n == 0 ==> Landed(b, n, took) == []
    ensures n > 0 ==> Landed(b, n, took) == Landed(b, n - 1, took) + (if n - 1 in took then [Copy(b, n - 1)] else [])
  {
  }


  lemma {:induction false} LandedOnce(b: nat, n: nat, took: set<nat>, c: Copy)
    ensures multiset(Landed(b, n, took))[c] == if c.batch == b && c.index < n && c.index in took then 1 else 0
  {
    hide Landed;
    UnfoldLanded(b, n, took);
    if n > 0 {
      LandedOnce(b, n - 1, took, c);
      var last := if n - 1 in took then [Copy(b, n - 1)] else [];
      CountOfConcat(Landed(b, n - 1, took), last, c);
    }
  }

  function TookAt(a: Answers, k: nat, i: nat): nat { if i in AnswerAt(a, k).took then 1 else 0 }

  function TimesTaken(a: Answers, m: nat, i: nat): nat {
    if m == 0 then 0 else TimesTaken(a, m - 1, i) + TookAt(a, m - 1, i)
  }

  lemma CopiesOfLast(b: nat, n: nat, a: Answers, m: nat, c: Copy)
    requires m > 0
    ensures multiset(Landed(b, n, AnswerAt(a, m - 1).took))[c] ==
      if c.batch == b && c.index < n then TookAt(a, m - 1, c.index) else 0
  {
    hide Landed, AnswerAt;
    LandedOnce(b, n, AnswerAt(a, m - 1).took, c);
  }

  lemma {:induction false} CopiesCounted(b: nat, n: nat, a: Answers, m: nat, c: Copy)
    ensures multiset(LandedIn(b, n, a, m))[c] ==
      if c.batch == b && c.index < n then TimesTaken(a, m, c.index) else 0
  {
    hide Landed, AnswerAt;
    if m > 0 {
      CopiesCounted(b, n, a, m - 1, c);
      var landed, last := LandedIn(b, n, a, m - 1), Landed(b, n, AnswerAt(a, m - 1).took);
      CopiesOfLast(b, n, a, m, c);
      CountOfConcat(landed, last, c);
    }
  }

  lemma TimesTakenBounds(n: nat, a: Answers, i: nat)
    requires AllHonest(n, a) && i < n
    ensures TimesTaken(a, Attempts(a), i) <= 3
    ensures Succeeds(a) ==> TimesTaken(a, Attempts(a), i) >= 1
  {
    assert TimesTaken(a, 1, i) == TookAt(a, 0, i);
    assert TimesTaken(a, 2, i) == TookAt(a, 0, i) + TookAt(a, 1, i);
    assert TimesTaken(a, 3, i) == TookAt(a, 0, i) + TookAt(a, 1, i) + TookAt(a, 2, i);
  }

  /** Each message of a batch reaches the broker at most three times, at least once when
      the flush ends without an error, and messages of no other batch are touched. */
  lemma CopyBounds(b: nat, n: nat, a: Answers, c: Copy)
    requires AllHonest(n, a)
    ensures multiset(BatchLog(b, n, a))[c] <= 3
    ensures c.batch == b && c.index < n && Succeeds(a) ==> multiset(BatchLog(b, n, a))[c] >= 1
    ensures c.batch != b || c.index >= n ==> multiset(BatchLog(b, n, a))[c] == 0
  {
    CopiesCounted(b, n, a, Attempts(a), c);
    if c.batch == b && c.index < n { TimesTakenBounds(n, a, c.index); }
  }

  // --------------------------------------------------------- order over all batches

  /** The broker's log after the first m flushes. */
  function FullLog(batches: seq<seq<Message>>, answers: seq<Answers>, m: nat): seq<Copy>
    requires m <= |batches| == |answers|
  {
    if m == 0 then [] else FullLog(batches, answers, m - 1) + BatchLog(m - 1, |batches[m - 1]|, answers[m - 1])
  }

  lemma {:induction false} LandedBatch(b: nat, n: nat, took: set<nat>)
    ensures forall p :: 0 <= p < |Landed(b, n, took)| ==> Landed(b, n, took)[p].batch == b
  {
    if n > 0 { LandedBatch(b, n - 1, took); }
  }

  lemma {:induction false} LandedInBatch(b: nat, n: nat, a: Answers, m: nat)
    ensures forall p :: 0 <= p < |LandedIn(b, n, a, m)| ==> LandedIn(b, n, a, m)[p].batch == b
  {
    if m > 0 {
      LandedInBatch(b, n, a, m - 1);
      LandedBatch(b, n, AnswerAt(a, m - 1).took);
    }
  }

  predicate Sorted(log: seq<Copy>, m: nat) {
    && (forall p :: 0 <= p < |log| ==> log[p].batch < m)
    && (forall p, q :: 0 <= p < q < |log| ==> log[p].batch <= log[q].batch)
  }

  lemma SortedGrows(log: seq<Copy>, last: seq<Copy>, m: nat)
    requires Sorted(log, m) && forall p :: 0 <= p < |last| ==> last[p].batch == m
    ensures Sorted(log + last, m + 1)
  {
  }

  /** Every copy of a batch comes before every copy of a later batch, so the first
      deliveries of messages in different batches keep the order of the queue. */
  lemma {:induction false} BatchesStayInOrder(batches: seq<seq<Message>>, answers: seq<Answers>, m: nat)
    requires m <= |batches| == |answers|
    ensures Sorted(FullLog(batches, answers, m), m)
  {
    if m > 0 {
      BatchesStayInOrder(batches, answers, m - 1);
      LandedInBatch(m - 1, |batches[m - 1]|, answers[m - 1], Attempts(answers[m - 1]));
      SortedGrows(FullLog(batches, answers, m - 1), BatchLog(m - 1, |batches[m - 1]|, answers[m - 1]), m - 1);
    }
  }

  lemma NoBatches(batches: seq<seq<Message>>, answers: seq<Answers>)
    requires |batches| == |answers|
    ensures FullLog(batches, answers, 0) == []
  {
  }

  lemma UnfoldFullLog(batches: seq<seq<Message>>, answers: seq<Answers>, m: nat)
    requires 0 < m <= |batches| == |answers|
    ensures FullLog(batches, answers, m)
         == FullLog(batches, answers, m - 1) + BatchLog(m - 1, |batches[m - 1]|, answers[m - 1])
  {
    hide BatchLog;
  }

  lemma BatchLogCounted(b: nat, n: nat, a: Answers, c: Copy)
    ensures multiset(BatchLog(b, n, a))[c] ==
      if c.batch == b && c.index < n then TimesTaken(a, Attempts(a), c.index) else 0
  {
    hide LandedIn, TimesTaken, Attempts;
    CopiesCounted(b, n, a, Attempts(a), c);
  }

  lemma CountedIsFound<T>(s: seq<T>, x: T)
    requires multiset(s)[x] >= 1
    ensures exists p :: 0 <= p < |s| && s[p] == x
  {
    assert x in multiset(s);
  }

  lemma SortedPlaces(log: seq<Copy>, m: nat, c: Copy)
    requires Sorted(log, m)
    ensures forall p, q :: 0 <= p < |log| && 0 <= q < |log| && log[p] == c && log[q].batch > c.batch ==> p < q
  {
  }

  lemma {:induction false} FullLogCopies(batches: seq<seq<Message>>, answers: seq<Answers>, m: nat, c: Copy)
    requires m <= |batches| == |answers|
    ensures multiset(FullLog(batches, answers, m))[c] ==
      if c.batch < m && c.index < |batches[c.batch]|
      then TimesTaken(answers[c.batch], Attempts(answers[c.batch]), c.index) else 0
  {
    hide FullLog, BatchLog, TimesTaken, Attempts;
    if m == 0 {
      NoBatches(batches, answers);
    } else {
      var log, last := FullLog(batches, answers, m - 1), BatchLog(m - 1, |batches[m - 1]|, answers[m - 1]);
      FullLogCopies(batches, answers, m - 1, c);
      UnfoldFullLog(batches, answers, m);
      BatchLogCounted(m - 1, |batches[m - 1]|, answers[m - 1], c);
      CountOfConcat(log, last, c);
    }
  }

  /** Over all flushes of a run: each message has at most three copies at the broker, at
      least one when its flush ended without an error, and whenever it has, that copy comes
      before every copy of any message of a later batch. */
  lemma DeliveryOverAllBatches(batches: seq<seq<Message>>, answers: seq<Answers>, b: nat, i: nat)
    requires |batches| == |answers| && b < |batches| && i < |batches[b]| && AllHonest(|batches[b]|, answers[b])
    ensures var log := FullLog(batches, answers, |batches|);
      && multiset(log)[Copy(b, i)] <= 3
      && (Succeeds(answers[b]) ==> exists p :: 0 <= p < |log| && log[p] == Copy(b, i))
      && forall p, q :: 0 <= p < |log| && 0 <= q < |log| && log[p] == Copy(b, i) && log[q].batch > b ==> p < q
  {
    hide FullLog, TimesTaken, Attempts, Succeeds, AllHonest, Sorted;
    var log := FullLog(batches, answers, |batches|);
    FullLogCopies(batches, answers, |batches|, Copy(b, i));
    TimesTakenBounds(|batches[b]|, answers[b], i);
    BatchesStayInOrder(batches, answers, |batches|);
    SortedPlaces(log, |batches|, Copy(b, i));
    if Succeeds(answers[b]) { CountedIsFound(log, Copy(b, i)); }
  }

  // -------------------------------------------------------------- order within a batch

  /** Message i is delivered before any copy of message j. */
  predicate FirstBefore(log: seq<Copy>, b: nat, i: nat, j: nat) {
    forall q :: 0 <= q < |log| && log[q] == Copy(b, j) ==> exists p :: 0 <= p < q && log[p] == Copy(b, i)
  }

  predicate KeyOrderKept(batch: seq<Message>, b: nat, a: Answers) {
    forall i: nat, j: nat :: i < j < |batch| && batch[i].key == batch[j].key ==>
      FirstBefore(BatchLog(b, |batch|, a), b, i, j)
  }

  predicate KeysDistinct(batch: seq<Message>) {
    forall i, j :: 0 <= i < j < |batch| ==> batch[i].key != batch[j].key
  }

  function Below(n: nat): (s: set<nat>)
    ensures forall i: nat :: i < n ==> i in s
  {
    if n == 0 then {} else Below(n - 1) + {n - 1}
  }

  /** The broker takes message j alone, reports a retriable error, then takes everything. */
  function Adverse(n: nat, j: nat): Answers {
    Answers(Answer({j}, Some(Known(LeaderNotAvailable))), Answer(Below(n), None), Answer(Below(n), None))
  }

  lemma {:induction false} LandedNone(b: nat, n: nat, j: nat)
    requires n <= j
    ensures Landed(b, n, {j}) == []
  {
    if n > 0 { LandedNone(b, n - 1, j); }
  }

  lemma {:induction false} LandedAlone(b: nat, n: nat, j: nat)
    requires j < n
    ensures Landed(b, n, {j}) == [Copy(b, j)]
  {
    if n - 1 == j { LandedNone(b, n - 1, j); } else { LandedAlone(b, n - 1, j); }
  }

  lemma AdverseBreaksOrder(b: nat, n: nat, i: nat, j: nat)
    requires i < j < n
    ensures AllHonest(n, Adverse(n, j)) && !FirstBefore(BatchLog(b, n, Adverse(n, j)), b, i, j)
  {
    var a := Adverse(n, j);
    LandedAlone(b, n, j);
    assert Retried(a.first) && !Retried(a.second) && Attempts(a) == 2;
    assert LandedIn(b, n, a, 1) == [] + Landed(b, n, {j});
    var log := BatchLog(b, n, a);
    assert log == LandedIn(b, n, a, 1) + Landed(b, n, a.second.took);
    assert log[0] == Copy(b, j);
  }

  /** The documented per-domain ordering is guaranteed of a batch, whatever the broker
      does, exactly when no two of its messages share a key. */
  lemma KeyOrderGuaranteedIff(batch: seq<Message>, b: nat)
    ensures (forall a :: AllHonest(|batch|, a) ==> KeyOrderKept(batch, b, a)) <==> KeysDistinct(batch)
  {
    if !KeysDistinct(batch) {
      var i, j :| 0 <= i < j < |batch| && batch[i].key == batch[j].key;
      AdverseBreaksOrder(b, |batch|, i, j);
      assert !KeyOrderKept(batch, b, Adverse(|batch|, j));
    }
  }
}
