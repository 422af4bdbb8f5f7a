/** Rotation and cleanup together (internal/adapter/outbound/file/writer.go:75-222): which
    records survive a run of Writes followed by a cleanup of the writer's own directory. */
module RotationRetention {
  import opened Domain
  import opened RotatingFile
  import opened RotationRuns
  import Ret = Retention

  /** The rotations of a run happened at these moments. */
  predicate Rotations(stamps: seq<string>, ms: seq<Ret.Moment>) {
    |stamps| == |ms| && forall i :: 0 <= i < |ms| ==> Ret.FourDigitYear(ms[i]) && stamps[i] == Ret.Stamp(ms[i])
  }

  /** Each in a later second than the one before. */
  predicate Forward(ms: seq<Ret.Moment>) { forall i, j :: 0 <= i < j < |ms| ==> Ret.Earlier(ms[i], ms[j]) }

  ghost predicate Lists(listing: seq<string>, files: Files) {
    Ret.Distinct(listing) && forall x :: x in listing <==> x in files
  }

  /** The state after a run without failures that starts with the active file alone. */
  function RunState(c: Config, init: string, es: seq<Entry>): State {
    StateAfter(c, StateOf(c, map[], init, Log([], [], [])), es, |es|)
  }

  lemma StampsDiffer(stamps: seq<string>, ms: seq<Ret.Moment>)
    requires Rotations(stamps, ms) && Forward(ms)
    ensures StampsDistinct(stamps) && Ret.MomentsOK(ms)
  {
    hide Ret.Stamp, Ret.Earlier, Ret.FourDigitYear;
    forall i, j | 0 <= i < j < |ms| ensures stamps[i] != stamps[j] && ms[i] != ms[j] {
      Ret.StampOrder(ms[i], ms[j]);
      Ret.LessIrreflexive(stamps[i]);
    }
  }

  lemma DirectoryNames(c: Config, init: string, log: Log, name: string)
    requires |log.chunks| == |log.stamps| && StampsDistinct(log.stamps)
    ensures name in Directory(c, map[], init, log) <==>
      name == c.name || exists i :: 0 <= i < |log.stamps| && name == StoredName(c, log.stamps[i])
  {
    hide StoredName, Archive, StampsDistinct;
    var n := |log.chunks|;
    if name != c.name && name in Directory(c, map[], init, log) { ArchiveNames(c, map[], init, log, n, name); }
    if i :| 0 <= i < n && name == StoredName(c, log.stamps[i]) { ArchiveKeeps(c, map[], init, log, n, i); }
  }

  /** What cleanup takes for granted holds of every directory that such a run leaves. */
  lemma RunLeavesOwnFiles(c: Config, init: string, es: seq<Entry>, ms: seq<Ret.Moment>, listing: seq<string>)
    requires forall i :: 0 <= i < |es| ==> StampLike(es[i].stamp)
    requires Rotations(LogOf(c, init, es, |es|).stamps, ms) && Forward(ms)
    requires Lists(listing, RunState(c, init, es).files)
    ensures Ret.MomentsOK(ms) && Ret.OwnFiles(c, listing, ms)
  {
    hide LogOf, StateAfter, StampLike, Ret.MomentsOK, Directory, Forward, StampsDistinct, StoredName, BackupName;
    hide Ret.Stamp;
    var log := LogOf(c, init, es, |es|);
    StampsDiffer(log.stamps, ms);
    assert StampsUnused(c, map[], es);
    RunFollows(c, map[], init, es, |es|);
    forall x ensures x in listing <==> x == c.name || exists i :: 0 <= i < |ms| && x == Ret.NameAt(c, ms[i]) {
      DirectoryNames(c, init, log, x);
      if i :| 0 <= i < |log.stamps| && x == StoredName(c, log.stamps[i]) { assert x == Ret.NameAt(c, ms[i]); }
      if i :| 0 <= i < |ms| && x == Ret.NameAt(c, ms[i]) { assert x == StoredName(c, log.stamps[i]); }
    }
  }

  function Range(a: nat, n: nat): set<nat>
    decreases n - a
  {
    if a >= n then {} else {a} + Range(a + 1, n)
  }

  lemma {:induction false} RangeIs(a: nat, n: nat)
    requires a <= n
    ensures |Range(a, n)| == n - a && forall j: nat :: j in Range(a, n) <==> a <= j < n
    decreases n - a
  {
    if a < n { RangeIs(a + 1, n); }
  }

  lemma NotBothEarlier(a: Ret.Moment, b: Ret.Moment)
    ensures !(Ret.Earlier(a, b) && Ret.Earlier(b, a)) && !Ret.Earlier(a, a)
  {
  }

  /** In a forward run the rotations after number k are those with greater numbers. */
  lemma LaterCount(ms: seq<Ret.Moment>, k: nat)
    requires Forward(ms) && k < |ms|
    ensures |Ret.Later(ms, ms[k])| == |ms| - 1 - k
  {
    hide Range;
    forall j: nat | j < |ms| ensures Ret.Earlier(ms[k], ms[j]) <==> k < j {
      if j <= k { NotBothEarlier(ms[j], ms[k]); }
    }
    hide Ret.Earlier;
    RangeIs(k + 1, |ms|);
    assert Ret.Later(ms, ms[k]) == Range(k + 1, |ms|);
  }

  /** How many of the newest backups stay: all the places, or without compression all but
      the one that the active file takes. */
  function Places(c: Config, l: Ret.Limits): int { if c.compress then l.maxBackups else l.maxBackups - 1 }

  /** Either compressing, or with an active file whose extension starts with a letter. */
  predicate Usual(c: Config) {
    Ext(c.name) != ".gz" && (c.compress || (|Ext(c.name)| >= 2 && Ext(c.name)[1] > '9'))
  }

  /** After a run and a cleanup: the file of rotation k, which held the records of chunk k
      whole, is removed exactly when at least as many rotations as there are places came
      after it or it is over age.  What stays are the newest records. */
  lemma NewestChunksStay(c: Config, l: Ret.Limits, init: string, es: seq<Entry>, ms: seq<Ret.Moment>,
                         listing: seq<string>, mtime: string -> Option<int>, now: int, k: nat)
    requires Usual(c) && forall i :: 0 <= i < |es| ==> StampLike(es[i].stamp)
    requires Rotations(LogOf(c, init, es, |es|).stamps, ms) && Forward(ms) && k < |ms|
    requires Lists(listing, RunState(c, init, es).files)
    ensures var log := LogOf(c, init, es, |es|);
      && |log.chunks| == |ms| == |log.stamps|
      && TextOf(RunState(c, init, es).files, StoredName(c, log.stamps[k])) == ChunkText(init, log, k)
      && (Ret.Removed(c, l, listing, mtime, now, StoredName(c, log.stamps[k])) <==>
            || (l.maxBackups > 0 && |ms| - 1 - k >= Places(c, l))
            || Ret.OverAge(l, mtime(StoredName(c, log.stamps[k])), now))
  {
    hide LogOf, StateAfter, StampLike, Ret.MomentsOK, Ret.OwnFiles, Ret.Removed, Ret.OverAge, Forward, Lists;
    hide Ret.Later, StampsDistinct, StoredName, Directory, Ext;
    var log := LogOf(c, init, es, |es|);
    RunLeavesOwnFiles(c, init, es, ms, listing);
    StampsDiffer(log.stamps, ms);
    assert StampsUnused(c, map[], es);
    RunFollows(c, map[], init, es, |es|);
    RotatedTextFound(c, map[], init, log, k);
    LaterCount(ms, k);
    assert StoredName(c, log.stamps[k]) == Ret.NameAt(c, ms[k]);
    if c.compress {
      Ret.KeepsNewest(c, l, listing, mtime, now, ms, k);
    } else {
      Ret.KeepsOneFewer(c, l, listing, mtime, now, ms, k);
    }
  }
}
