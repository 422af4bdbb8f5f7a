/** isRetriable (internal/adapter/outbound/kafka/producer.go:217-238): which errors are
    retried, by recursion over an error tree. */
module Retriable {
  import opened Domain

  datatype Code =
    | UnknownTopicOrPartition | LeaderNotAvailable | NotLeaderForPartition | RequestTimedOut
    | OtherCode(number: int)

  /** An error value: a broker code, an error wrapping one or several others, the
      per-message errors of one write (nil where a message succeeded), or anything else. */
  datatype Err =
    | Known(code: Code)
    | Wrapped(inner: Err)
    | Joined(errs: seq<Err>)
    | PerMessage(results: seq<Option<Err>>)
    | Opaque

  /** errors.Is against the four transient codes; per-message errors are not unwrapped. */
  predicate IsTransient(e: Err) {
    match e
    case Known(c) => !c.OtherCode?
    case Wrapped(inner) => IsTransient(inner)
    case Joined(errs) => exists i :: 0 <= i < |errs| && IsTransient(errs[i])
    case _ => false
  }

  /** errors.As followed by the loop: what the first per-message list found says, if any. */
  function FirstListRetriable(e: Err): Option<bool>
    decreases e, 0
  {
    match e
    case Known(_) => None
    case Opaque => None
    case Wrapped(inner) => FirstListRetriable(inner)
    case Joined(errs) => FirstAmong(errs)
    case PerMessage(results) =>
      Some(exists i :: 0 <= i < |results| && results[i].Some? && IsRetriable(results[i].value))
  }

  function FirstAmong(errs: seq<Err>): Option<bool>
    decreases errs, 0
  {
    if errs == [] then None
    else match FirstListRetriable(errs[0])
      case Some(b) => Some(b)
      case None => FirstAmong(errs[1..])
  }

  predicate IsRetriable(e: Err)
    decreases e, 1
  {
    IsTransient(e) || FirstListRetriable(e) == Some(true)
  }

  /** A transient code stands somewhere in the error. */
  predicate Mentions(e: Err) {
    match e
    case Known(c) => !c.OtherCode?
    case Opaque => false
    case Wrapped(inner) => Mentions(inner)
    case Joined(errs) => exists i :: 0 <= i < |errs| && Mentions(errs[i])
    case PerMessage(results) => exists i :: 0 <= i < |results| && results[i].Some? && Mentions(results[i].value)
  }

  /** A broker code, transient or not, stands somewhere in the error. */
  predicate HoldsCode(e: Err) {
    match e
    case Known(_) => true
    case Opaque => false
    case Wrapped(inner) => HoldsCode(inner)
    case Joined(errs) => exists i :: 0 <= i < |errs| && HoldsCode(errs[i])
    case PerMessage(results) => exists i :: 0 <= i < |results| && results[i].Some? && HoldsCode(results[i].value)
  }

  /** Unwrapping reaches a per-message list, and one that holds a code. */
  predicate HasList(e: Err) {
    match e
    case Wrapped(inner) => HasList(inner)
    case Joined(errs) => exists i :: 0 <= i < |errs| && HasList(errs[i])
    case PerMessage(_) => true
    case _ => false
  }

  predicate ListsCode(e: Err) {
    match e
    case Wrapped(inner) => ListsCode(inner)
    case Joined(errs) => exists i :: 0 <= i < |errs| && ListsCode(errs[i])
    case PerMessage(_) => HoldsCode(e)
    case _ => false
  }

  /** No list that holds a code is joined behind another list. */
  predicate NothingHidden(e: Err) {
    match e
    case Wrapped(inner) => NothingHidden(inner)
    case Joined(errs) =>
      && (forall i :: 0 <= i < |errs| ==> NothingHidden(errs[i]))
      && (forall i, j :: 0 <= i < j < |errs| && HasList(errs[i]) ==> !ListsCode(errs[j]))
    case PerMessage(results) => forall i :: 0 <= i < |results| && results[i].Some? ==> NothingHidden(results[i].value)
    case _ => true
  }

  lemma {:induction false} MentionHoldsCode(e: Err)
    ensures Mentions(e) ==> HoldsCode(e)
  {
    match e
    case Wrapped(inner) => MentionHoldsCode(inner);
    case Joined(errs) =>
      forall i | 0 <= i < |errs| ensures Mentions(errs[i]) ==> HoldsCode(errs[i]) { MentionHoldsCode(errs[i]); }
    case PerMessage(results) =>
      forall i | 0 <= i < |results| && results[i].Some?
        ensures Mentions(results[i].value) ==> HoldsCode(results[i].value)
      {
        MentionHoldsCode(results[i].value);
      }
    case _ =>
  }

  /** The first list of a join is that of its first member with one. */
  lemma {:induction false} FirstIsSome(errs: seq<Err>)
    ensures FirstAmong(errs) == Some(true) ==> exists i :: 0 <= i < |errs| && FirstListRetriable(errs[i]) == Some(true)
  {
    if errs != [] && FirstListRetriable(errs[0]) == None {
      FirstIsSome(errs[1..]);
      if i :| 0 <= i < |errs[1..]| && FirstListRetriable(errs[1..][i]) == Some(true) {
        assert errs[1..][i] == errs[i + 1];
      }
    }
  }

  /** What is retried always mentions a transient code. */
  lemma {:induction false} RetriedIsMentioned(e: Err)
    ensures IsTransient(e) ==> Mentions(e)
    ensures FirstListRetriable(e) == Some(true) ==> Mentions(e) && ListsCode(e)
    ensures IsRetriable(e) ==> Mentions(e)
    decreases e, 0
  {
    match e
    case Wrapped(inner) => RetriedIsMentioned(inner);
    case Joined(errs) =>
      forall i | 0 <= i < |errs|
        ensures IsTransient(errs[i]) ==> Mentions(errs[i])
        ensures FirstListRetriable(errs[i]) == Some(true) ==> Mentions(errs[i]) && ListsCode(errs[i])
      {
        RetriedIsMentioned(errs[i]);
      }
      FirstIsSome(errs);
    case PerMessage(results) =>
      forall i | 0 <= i < |results| && results[i].Some?
        ensures IsRetriable(results[i].value) ==> Mentions(results[i].value) && HoldsCode(results[i].value)
      {
        RetriedIsMentioned(results[i].value);
        MentionHoldsCode(results[i].value);
      }
    case _ =>
  }

  lemma {:induction false} FirstSkips(errs: seq<Err>, j: nat)
    requires j < |errs| && forall i :: 0 <= i < j ==> FirstListRetriable(errs[i]) == None
    requires FirstListRetriable(errs[j]).Some?
    ensures FirstAmong(errs) == FirstListRetriable(errs[j])
  {
    if j > 0 {
      forall i | 0 <= i < j - 1 ensures FirstListRetriable(errs[1..][i]) == None { assert errs[1..][i] == errs[i + 1]; }
      FirstSkips(errs[1..], j - 1);
    }
  }

  lemma {:induction false} ListIff(e: Err)
    ensures FirstListRetriable(e) == None <==> !HasList(e)
    decreases e, 0
  {
    match e
    case Wrapped(inner) => ListIff(inner);
    case Joined(errs) => ListAmongIff(errs);
    case _ =>
  }

  lemma {:induction false} ListAmongIff(errs: seq<Err>)
    ensures FirstAmong(errs) == None <==> forall i :: 0 <= i < |errs| ==> !HasList(errs[i])
    decreases errs, 0
  {
    if errs != [] {
      ListIff(errs[0]);
      ListAmongIff(errs[1..]);
      assert errs == [errs[0]] + errs[1..];
    }
  }

  /** Where nothing is hidden the test finds a transient code wherever it stands. */
  lemma {:induction false} MentionedIsRetried(e: Err)
    requires NothingHidden(e) && Mentions(e)
    ensures IsRetriable(e)
  {
    match e
    case Wrapped(inner) => MentionedIsRetried(inner);
    case Joined(errs) =>
      var j :| 0 <= j < |errs| && Mentions(errs[j]);
      MentionedIsRetried(errs[j]);
      if !IsTransient(errs[j]) {
        RetriedIsMentioned(errs[j]);
        forall i | 0 <= i < j ensures FirstListRetriable(errs[i]) == None { ListIff(errs[i]); }
        FirstSkips(errs, j);
      }
    case PerMessage(results) =>
      var i :| 0 <= i < |results| && results[i].Some? && Mentions(results[i].value);
      MentionedIsRetried(results[i].value);
    case _ =>
  }

  /** The same error but for the codes in it. */
  predicate SameShape(e: Err, f: Err) {
    match e
    case Known(_) => f.Known?
    case Opaque => f.Opaque?
    case Wrapped(inner) => f.Wrapped? && SameShape(inner, f.inner)
    case Joined(errs) =>
      f.Joined? && |errs| == |f.errs| && forall i :: 0 <= i < |errs| ==> SameShape(errs[i], f.errs[i])
    case PerMessage(results) =>
      && f.PerMessage? && |results| == |f.results|
      && forall i :: 0 <= i < |results| ==>
           (results[i].None? <==> f.results[i].None?)
           && (results[i].Some? ==> SameShape(results[i].value, f.results[i].value))
  }

  /** The error with its codes replaced: one code for those outside every list, another for
      those inside. */
  function Recoded(e: Err, outside: Code, inside: Code): Err {
    match e
    case Known(_) => Known(outside)
    case Opaque => Opaque
    case Wrapped(inner) => Wrapped(Recoded(inner, outside, inside))
    case Joined(errs) => Joined(seq(|errs|, i requires 0 <= i < |errs| => Recoded(errs[i], outside, inside)))
    case PerMessage(results) => PerMessage(seq(|results|, i requires 0 <= i < |results| =>
      match results[i]
      case None => None
      case Some(r) => Some(Recoded(r, inside, inside))))
  }

  const QUIET: Code := OtherCode(0)

  lemma {:induction false} RecodedShape(e: Err, outside: Code, inside: Code)
    ensures SameShape(e, Recoded(e, outside, inside))
    ensures HasList(Recoded(e, outside, inside)) <==> HasList(e)
  {
    match e
    case Wrapped(inner) => RecodedShape(inner, outside, inside);
    case Joined(errs) =>
      forall i | 0 <= i < |errs|
        ensures SameShape(errs[i], Recoded(errs[i], outside, inside))
        ensures HasList(Recoded(errs[i], outside, inside)) <==> HasList(errs[i])
      {
        RecodedShape(errs[i], outside, inside);
      }
      var f := Recoded(e, outside, inside).errs;
      assert forall i :: 0 <= i < |errs| ==> f[i] == Recoded(errs[i], outside, inside);
    case PerMessage(results) =>
      forall i | 0 <= i < |results| && results[i].Some?
        ensures SameShape(results[i].value, Recoded(results[i].value, inside, inside))
      {
        RecodedShape(results[i].value, inside, inside);
      }
    case _ =>
  }

  /** With transient codes inside lists only, the error mentions one if a list holds one. */
  lemma {:induction false} RecodedMentions(e: Err, outside: Code, inside: Code)
    ensures outside.OtherCode? ==> !IsTransient(Recoded(e, outside, inside))
    ensures outside.OtherCode? && inside.OtherCode? ==> !Mentions(Recoded(e, outside, inside))
    ensures !inside.OtherCode? && ListsCode(e) ==> Mentions(Recoded(e, outside, inside))
    ensures !inside.OtherCode? && !outside.OtherCode? && HoldsCode(e) ==> Mentions(Recoded(e, outside, inside))
  {
    var f := Recoded(e, outside, inside);
    match e
    case Wrapped(inner) => RecodedMentions(inner, outside, inside);
    case Joined(errs) =>
      forall i | 0 <= i < |errs| ensures f.errs[i] == Recoded(errs[i], outside, inside) { }
      forall i | 0 <= i < |errs|
        ensures outside.OtherCode? ==> !IsTransient(f.errs[i])
        ensures outside.OtherCode? && inside.OtherCode? ==> !Mentions(f.errs[i])
        ensures !inside.OtherCode? && ListsCode(errs[i]) ==> Mentions(f.errs[i])
        ensures !inside.OtherCode? && !outside.OtherCode? && HoldsCode(errs[i]) ==> Mentions(f.errs[i])
      {
        RecodedMentions(errs[i], outside, inside);
      }
    case PerMessage(results) =>
      forall i | 0 <= i < |results| && results[i].Some?
        ensures f.results[i] == Some(Recoded(results[i].value, inside, inside))
        ensures inside.OtherCode? ==> !Mentions(f.results[i].value)
        ensures !inside.OtherCode? && HoldsCode(results[i].value) ==> Mentions(f.results[i].value)
      {
        RecodedMentions(results[i].value, inside, inside);
      }
    case _ =>
  }

  lemma QuietIsQuiet(e: Err)
    ensures var f := Recoded(e, QUIET, QUIET);
      SameShape(e, f) && !Mentions(f) && !IsRetriable(f) && (HasList(f) <==> HasList(e))
  {
    var f := Recoded(e, QUIET, QUIET);
    RecodedShape(e, QUIET, QUIET);
    RecodedMentions(e, QUIET, QUIET);
    RetriedIsMentioned(f);
  }

  /** A member of a join whose list decides comes before the one that mentions a code. */
  lemma {:induction false} FirstDecides(errs: seq<Err>, i: nat, j: nat)
    requires i < j < |errs| && HasList(errs[i])
    requires forall k :: 0 <= k < j ==> FirstListRetriable(errs[k]) != Some(true)
    ensures FirstAmong(errs) == Some(false)
  {
    ListIff(errs[0]);
    if FirstListRetriable(errs[0]) == None {
      forall k | 0 <= k < j - 1 ensures FirstListRetriable(errs[1..][k]) != Some(true) {
        assert errs[1..][k] == errs[k + 1];
      }
      assert errs[1..][i - 1] == errs[i];
      FirstDecides(errs[1..], i - 1, j - 1);
    }
  }

  /** One of the results may mention a code while the others are silent. */
  lemma PerMessageMissed(results: seq<Option<Err>>, i: nat, w: Err) returns (f: Err)
    requires i < |results| && results[i].Some? && SameShape(results[i].value, w) && Mentions(w) && !IsRetriable(w)
    ensures SameShape(PerMessage(results), f) && Mentions(f) && !IsRetriable(f)
  {
    var quiet := Recoded(PerMessage(results), QUIET, QUIET).results;
    forall k | 0 <= k < |results| && results[k].Some?
      ensures quiet[k] == Some(Recoded(results[k].value, QUIET, QUIET))
      ensures SameShape(results[k].value, quiet[k].value) && !IsRetriable(quiet[k].value)
    {
      QuietIsQuiet(results[k].value);
    }
    f := PerMessage(quiet[i := Some(w)]);
    assert f.results[i].value == w;
  }

  lemma JoinedMissed(errs: seq<Err>, j: nat, w: Err) returns (f: Err)
    requires j < |errs| && SameShape(errs[j], w) && Mentions(w) && !IsTransient(w)
    requires FirstListRetriable(w) != Some(true) || exists i :: 0 <= i < j && HasList(errs[i])
    ensures SameShape(Joined(errs), f) && Mentions(f) && !IsRetriable(f)
  {
    var quiet := seq(|errs|, k requires 0 <= k < |errs| => Recoded(errs[k], QUIET, QUIET));
    forall k | 0 <= k < |errs|
      ensures SameShape(errs[k], quiet[k]) && !IsRetriable(quiet[k]) && (HasList(quiet[k]) <==> HasList(errs[k]))
    {
      QuietIsQuiet(errs[k]);
    }
    var all := quiet[j := w];
    f := Joined(all);
    assert Mentions(all[j]);
    if FirstListRetriable(w) == Some(true) {
      var i :| 0 <= i < j && HasList(errs[i]);
      assert HasList(all[i]);
      FirstDecides(all, i, j);
    } else {
      FirstIsSome(all);
    }
  }

  /** Where a list with a code is hidden, some choice of codes is missed. */
  lemma {:induction false} HiddenIsMissed(e: Err) returns (f: Err)
    requires !NothingHidden(e)
    ensures SameShape(e, f) && Mentions(f) && !IsRetriable(f)
  {
    match e
    case Wrapped(inner) =>
      var w := HiddenIsMissed(inner);
      f := Wrapped(w);
    case PerMessage(results) =>
      var i: nat :| i < |results| && results[i].Some? && !NothingHidden(results[i].value);
      var w := HiddenIsMissed(results[i].value);
      f := PerMessageMissed(results, i, w);
    case Joined(errs) =>
      if j: nat :| j < |errs| && !NothingHidden(errs[j]) {
        var w := HiddenIsMissed(errs[j]);
        f := JoinedMissed(errs, j, w);
      } else {
        var i: nat, j: nat :| i < j < |errs| && HasList(errs[i]) && ListsCode(errs[j]);
        RecodedShape(errs[j], QUIET, LeaderNotAvailable);
        RecodedMentions(errs[j], QUIET, LeaderNotAvailable);
        f := JoinedMissed(errs, j, Recoded(errs[j], QUIET, LeaderNotAvailable));
      }
    case _ =>
      assert false;
      f := e;
  }

  /** What is hidden depends on the shape alone. */
  lemma {:induction false} ShapeKeepsHidden(e: Err, f: Err)
    requires SameShape(e, f)
    ensures HasList(e) <==> HasList(f)
    ensures HoldsCode(e) <==> HoldsCode(f)
    ensures ListsCode(e) <==> ListsCode(f)
    ensures NothingHidden(e) <==> NothingHidden(f)
  {
    match e
    case Wrapped(inner) => ShapeKeepsHidden(inner, f.inner);
    case Joined(errs) =>
      forall i | 0 <= i < |errs|
        ensures HasList(errs[i]) <==> HasList(f.errs[i])
        ensures HoldsCode(errs[i]) <==> HoldsCode(f.errs[i])
        ensures ListsCode(errs[i]) <==> ListsCode(f.errs[i])
        ensures NothingHidden(errs[i]) <==> NothingHidden(f.errs[i])
      {
        ShapeKeepsHidden(errs[i], f.errs[i]);
      }
    case PerMessage(results) =>
      forall i | 0 <= i < |results| && results[i].Some?
        ensures HoldsCode(results[i].value) <==> HoldsCode(f.results[i].value)
        ensures NothingHidden(results[i].value) <==> NothingHidden(f.results[i].value)
      {
        ShapeKeepsHidden(results[i].value, f.results[i].value);
      }
    case _ =>
  }

  /** An error of a given shape is retried exactly when a transient code stands somewhere in
      it, whatever its codes, if and only if no list that holds a code is joined behind
      another list; and what is retried mentions one in any case. */
  lemma RetriableIffMentioned(e: Err)
    ensures IsRetriable(e) ==> Mentions(e)
    ensures NothingHidden(e) ==> (IsRetriable(e) <==> Mentions(e))
    ensures (forall f :: SameShape(e, f) ==> (IsRetriable(f) <==> Mentions(f))) <==> NothingHidden(e)
  {
    RetriedIsMentioned(e);
    if NothingHidden(e) {
      if Mentions(e) { MentionedIsRetried(e); }
      forall f | SameShape(e, f) ensures IsRetriable(f) <==> Mentions(f) {
        RetriedIsMentioned(f);
        ShapeKeepsHidden(e, f);
        if Mentions(f) { MentionedIsRetried(f); }
      }
    } else {
      var f := HiddenIsMissed(e);
    }
  }

  /** For instance a transient code in the second of two joined lists is not seen. */
  lemma JoinHidesSecondList()
    ensures var e := Joined([PerMessage([Some(Opaque)]), PerMessage([Some(Known(LeaderNotAvailable))])]);
      Mentions(e) && !IsRetriable(e) && !NothingHidden(e)
  {
    var first, second := PerMessage([Some(Opaque)]), PerMessage([Some(Known(LeaderNotAvailable))]);
    var e := Joined([first, second]);
    assert FirstListRetriable(first) == Some(false) && FirstAmong([first, second]) == Some(false);
    assert Mentions(second.results[0].value) && Mentions(e.errs[1]);
    assert !IsTransient(first) && !IsTransient(second);
    assert HasList(e.errs[0]);
    assert HoldsCode(second.results[0].value) && ListsCode(e.errs[1]);
  }
}
