/** Runs of the rotating writer in which no call fails: nothing is lost or split while the
    rotation stamps differ. */
module RotationRuns {
  import opened Domain
  import opened RotatingFile

  /** Lines of text, each ended by a newline. */
  function Lines(records: seq<string>): string {
    if records == [] then "" else Lines(records[..|records| - 1]) + (records[|records| - 1] + "\n")
  }

  /** What a run has written: the records of each rotated file with its stamp, oldest
      first, and those of the active file. */
  datatype Log = Log(chunks: seq<seq<string>>, stamps: seq<string>, current: seq<string>)

  function ChunkText(init: string, log: Log, k: nat): string
    requires k < |log.chunks|
  {
    (if k == 0 then init else "") + Lines(log.chunks[k])
  }

  function ActiveText(init: string, log: Log): string {
    (if log.chunks == [] then init else "") + Lines(log.current)
  }

  /** The directory after the first k rotations of a log. */
  function Archive(c: Config, others: Files, init: string, log: Log, k: nat): Files
    requires k <= |log.chunks| == |log.stamps|
  {
    if k == 0 then others
    else
      Archive(c, others, init, log, k - 1)[
        StoredName(c, log.stamps[k - 1]) := Stored(c, ChunkText(init, log, k - 1))]
  }

  function Directory(c: Config, others: Files, init: string, log: Log): Files
    requires |log.chunks| == |log.stamps|
  {
    Archive(c, others, init, log, |log.chunks|)[c.name := Plain(ActiveText(init, log))]
  }

  function StateOf(c: Config, others: Files, init: string, log: Log): State
    requires |log.chunks| == |log.stamps|
  {
    State(Directory(c, others, init, log), Open, |ActiveText(init, log)|)
  }

  /** One error-free Write of a record. */
  function NextLog(c: Config, init: string, log: Log, record: string, stamp: string): Log {
    if MaxBytes(c) > 0 && |ActiveText(init, log)| >= MaxBytes(c)
    then Log(log.chunks + [log.current], log.stamps + [stamp], [record])
    else log.(current := log.current + [record])
  }

  datatype Entry = Entry(record: string, stamp: string)

  function LogOf(c: Config, init: string, es: seq<Entry>, n: nat): Log
    requires n <= |es|
  {
    if n == 0 then Log([], [], [])
    else NextLog(c, init, LogOf(c, init, es, n - 1), es[n - 1].record, es[n - 1].stamp)
  }

  function Records(es: seq<Entry>, n: nat): seq<string>
    requires n <= |es|
  {
    if n == 0 then [] else Records(es, n - 1) + [es[n - 1].record]
  }

  function Flatten(chunks: seq<seq<string>>): seq<string> {
    if chunks == [] then [] else Flatten(chunks[..|chunks| - 1]) + chunks[|chunks| - 1]
  }

  // ------------------------------------------------ the code follows the log

  predicate FreshStamp(c: Config, files: Files, stamp: string) {
    BackupName(c.name, stamp) !in files && StoredName(c, stamp) !in files
  }

  lemma LinesGrow(records: seq<string>, r: string)
    ensures Lines(records + [r]) == Lines(records) + (r + "\n")
  {
    assert (records + [r])[..|records|] == records;
  }

  lemma {:induction false} ArchivePrefix(c: Config, others: Files, init: string, log: Log, log': Log, k: nat)
    requires k <= |log.chunks| == |log.stamps| && |log'.chunks| == |log'.stamps|
    requires log.chunks <= log'.chunks && log.stamps <= log'.stamps
    ensures Archive(c, others, init, log, k) == Archive(c, others, init, log', k)
  {
    if k > 0 { ArchivePrefix(c, others, init, log, log', k - 1); }
  }

  lemma {:induction false} ActiveNotArchived(c: Config, others: Files, init: string, log: Log, k: nat)
    requires k <= |log.chunks| == |log.stamps| && c.name !in others
    ensures c.name !in Archive(c, others, init, log, k)
  {
    if k > 0 {
      NamesDiffer(c, log.stamps[k - 1]);
      ActiveNotArchived(c, others, init, log, k - 1);
    }
  }

  lemma AppendFollows(c: Config, others: Files, init: string, log: Log, record: string)
    requires |log.chunks| == |log.stamps|
    ensures var after := log.(current := log.current + [record]);
      Append(Directory(c, others, init, log), c.name, record + "\n") == Directory(c, others, init, after)
      && |ActiveText(init, after)| == |ActiveText(init, log)| + |record + "\n"|
  {
    var after := log.(current := log.current + [record]);
    LinesGrow(log.current, record);
    ArchivePrefix(c, others, init, log, after, |log.chunks|);
    assert ActiveText(init, after) == ActiveText(init, log) + (record + "\n");
  }

  /** Renaming the active file away leaves the archive with one more name. */
  lemma MovedAside(archive: Files, name: string, b: string, text: string)
    requires name !in archive && b !in archive && b != name
    ensures Renamed(archive[name := Plain(text)], name, b) == archive[b := Plain(text)]
    ensures archive[b := Plain(text)] - {b} == archive
  {
    assert archive[name := Plain(text)] - {name} == archive;
  }

  lemma ArchiveGrows(c: Config, others: Files, init: string, log: Log, stamp: string)
    requires |log.chunks| == |log.stamps|
    ensures var after := Log(log.chunks + [log.current], log.stamps + [stamp], []);
      && ActiveText(init, after) == ""
      && Archive(c, others, init, after, |after.chunks|)
           == Archive(c, others, init, log, |log.chunks|)[StoredName(c, stamp) := Stored(c, ActiveText(init, log))]
  {
    hide StoredName;
    var after := Log(log.chunks + [log.current], log.stamps + [stamp], []);
    ArchivePrefix(c, others, init, log, after, |log.chunks|);
    assert ChunkText(init, after, |log.chunks|) == ActiveText(init, log);
  }

  lemma RotateFollows(c: Config, others: Files, init: string, log: Log, stamp: string)
    requires |log.chunks| == |log.stamps| && c.name !in others
    requires FreshStamp(c, Directory(c, others, init, log), stamp)
    ensures var after := Log(log.chunks + [log.current], log.stamps + [stamp], []);
      Rotated(c, StateOf(c, others, init, log), stamp, NO_FAULTS) == StateOf(c, others, init, after)
  {
    hide BackupName, Archive, ActiveText, ChunkText;
    var after := Log(log.chunks + [log.current], log.stamps + [stamp], []);
    var archive, text := Archive(c, others, init, log, |log.chunks|), ActiveText(init, log);
    NamesDiffer(c, stamp);
    ActiveNotArchived(c, others, init, log, |log.chunks|);
    ArchiveGrows(c, others, init, log, stamp);
    var b := BackupName(c.name, stamp);
    assert b + "" == b;
    MovedAside(archive, c.name, b, text);
    var kept := if c.compress then archive[b + ".gz" := Gzip(text)] else archive[b := Plain(text)];
    assert kept == archive[StoredName(c, stamp) := Stored(c, text)];
    assert c.name !in kept;
  }

  /** One Write without failures and with a fresh stamp does to the directory and the size
      what NextLog does to the log. */
  lemma WriteFollows(c: Config, others: Files, init: string, log: Log, record: string, stamp: string)
    requires |log.chunks| == |log.stamps| && c.name !in others
    requires MaxBytes(c) > 0 && |ActiveText(init, log)| >= MaxBytes(c) ==>
      FreshStamp(c, Directory(c, others, init, log), stamp)
    ensures |NextLog(c, init, log, record, stamp).chunks| == |NextLog(c, init, log, record, stamp).stamps|
    ensures Written(c, StateOf(c, others, init, log), Some(record), stamp, NO_FAULTS)
         == (StateOf(c, others, init, NextLog(c, init, log, record, stamp)), true)
  {
    hide FreshStamp, Directory, ActiveText, Append, Rotated;
    if MaxBytes(c) > 0 && |ActiveText(init, log)| >= MaxBytes(c) {
      var after := Log(log.chunks + [log.current], log.stamps + [stamp], []);
      RotateFollows(c, others, init, log, stamp);
      AppendFollows(c, others, init, after, record);
      assert [] + [record] == [record];
    } else {
      AppendFollows(c, others, init, log, record);
    }
  }

  // ----------------------------------------------------------- fresh stamps in a run

  /** The width of a stamp such as 20060102T150405Z. */
  predicate StampLike(stamp: string) { |stamp| == 16 }

  predicate StampsDistinct(stamps: seq<string>) {
    forall i, j :: 0 <= i < j < |stamps| ==> stamps[i] != stamps[j]
  }

  /** Every stamp of the run has the fixed width and names no file that was there before. */
  predicate StampsUnused(c: Config, others: Files, es: seq<Entry>) {
    forall i :: 0 <= i < |es| ==> StampLike(es[i].stamp) && FreshStamp(c, others, es[i].stamp)
  }

  lemma BackupNamesDiffer(c: Config, s: string, t: string)
    ensures BackupName(c.name, s) == BackupName(c.name, t) <==> s == t
  {
    var p, a, b := Base(c.name) + ".", BackupName(c.name, s), BackupName(c.name, t);
    var e := Ext(c.name);
    assert a == p + s + e && b == p + t + e;
    assert a[|p|..|a| - |e|] == s && b[|p|..|b| - |e|] == t;
  }

  lemma StoredNamesDiffer(c: Config, s: string, t: string)
    ensures StoredName(c, s) == StoredName(c, t) <==> s == t
  {
    BackupNamesDiffer(c, s, t);
    hide BackupName;
    var a, b := BackupName(c.name, s), BackupName(c.name, t);
    assert a + "" == a && b + "" == b;
    var x, y := a + ".gz", b + ".gz";
    assert x[..|x| - 3] == a && y[..|y| - 3] == b;
  }

  /** With one entry per second at most, a rotation's file is found where it was put. */
  lemma {:induction false} ArchiveKeeps(c: Config, others: Files, init: string, log: Log, k: nat, i: nat)
    requires i < k <= |log.chunks| == |log.stamps| && StampsDistinct(log.stamps)
    ensures var files := Archive(c, others, init, log, k); var name := StoredName(c, log.stamps[i]);
      name in files && files[name] == Stored(c, ChunkText(init, log, i))
  {
    if i < k - 1 {
      ArchiveKeeps(c, others, init, log, k - 1, i);
      StoredNamesDiffer(c, log.stamps[i], log.stamps[k - 1]);
    }
  }

  lemma {:induction false} ArchiveNames(c: Config, others: Files, init: string, log: Log, k: nat, name: string)
    requires k <= |log.chunks| == |log.stamps| && name in Archive(c, others, init, log, k)
    ensures name in others || exists i :: 0 <= i < k && name == StoredName(c, log.stamps[i])
  {
    if k > 0 && name != StoredName(c, log.stamps[k - 1]) { ArchiveNames(c, others, init, log, k - 1, name); }
  }

  lemma {:induction false} ArchiveKeepsOthers(c: Config, others: Files, init: string, log: Log, k: nat, name: string)
    requires k <= |log.chunks| == |log.stamps| && name in others
    requires forall i :: 0 <= i < k ==> StoredName(c, log.stamps[i]) != name
    ensures name in Archive(c, others, init, log, k) && Archive(c, others, init, log, k)[name] == others[name]
  {
    if k > 0 { ArchiveKeepsOthers(c, others, init, log, k - 1, name); }
  }

  lemma StoredIsNotBackup(c: Config, s: string, t: string)
    requires |s| == |t| && s != t
    ensures StoredName(c, s) != BackupName(c.name, t)
  {
    BackupNamesDiffer(c, s, t);
    assert BackupName(c.name, s) + "" == BackupName(c.name, s);
    assert |BackupName(c.name, s)| == |BackupName(c.name, t)|;
  }

  lemma FreshInDirectory(c: Config, others: Files, init: string, log: Log, stamp: string)
    requires |log.chunks| == |log.stamps| && FreshStamp(c, others, stamp) && StampLike(stamp)
    requires forall i :: 0 <= i < |log.stamps| ==> log.stamps[i] != stamp && StampLike(log.stamps[i])
    ensures FreshStamp(c, Directory(c, others, init, log), stamp)
  {
    NamesDiffer(c, stamp);
    var files := Archive(c, others, init, log, |log.chunks|);
    hide BackupName, StoredName, Archive;
    if BackupName(c.name, stamp) in files {
      ArchiveNames(c, others, init, log, |log.chunks|, BackupName(c.name, stamp));
      var i :| 0 <= i < |log.chunks| && BackupName(c.name, stamp) == StoredName(c, log.stamps[i]);
      StoredIsNotBackup(c, log.stamps[i], stamp);
    }
    if StoredName(c, stamp) in files {
      ArchiveNames(c, others, init, log, |log.chunks|, StoredName(c, stamp));
      var i :| 0 <= i < |log.chunks| && StoredName(c, stamp) == StoredName(c, log.stamps[i]);
      StoredNamesDiffer(c, log.stamps[i], stamp);
    }
  }

  // ------------------------------------------------------------------ whole runs

  function StateAfter(c: Config, s: State, es: seq<Entry>, n: nat): State
    requires n <= |es|
  {
    if n == 0 then s
    else Written(c, StateAfter(c, s, es, n - 1), Some(es[n - 1].record), es[n - 1].stamp, NO_FAULTS).0
  }

  /** One more Write of a run. */
  lemma UnfoldRun(c: Config, s: State, init: string, es: seq<Entry>, n: nat)
    requires 0 < n <= |es|
    ensures StateAfter(c, s, es, n)
         == Written(c, StateAfter(c, s, es, n - 1), Some(es[n - 1].record), es[n - 1].stamp, NO_FAULTS).0
    ensures LogOf(c, init, es, n) == NextLog(c, init, LogOf(c, init, es, n - 1), es[n - 1].record, es[n - 1].stamp)
    ensures Records(es, n) == Records(es, n - 1) + [es[n - 1].record]
  {
    hide Written, NextLog;
  }

  lemma EntryUnused(c: Config, files: Files, es: seq<Entry>, i: nat)
    requires StampsUnused(c, files, es) && i < |es|
    ensures StampLike(es[i].stamp) && FreshStamp(c, files, es[i].stamp)
  {
    hide FreshStamp, StampLike;
  }

  lemma NothingFlat(es: seq<Entry>)
    ensures Flatten([]) == [] && Records(es, 0) == []
  {
  }

  lemma FlattenGrows(chunks: seq<seq<string>>, last: seq<string>)
    ensures Flatten(chunks + [last]) == Flatten(chunks) + last
  {
    assert (chunks + [last])[..|chunks|] == chunks;
  }

  lemma NextShape(c: Config, init: string, log: Log, record: string, stamp: string)
    ensures var after := NextLog(c, init, log, record, stamp);
      && |after.chunks| - |log.chunks| == |after.stamps| - |log.stamps|
      && (after.stamps == log.stamps || after.stamps == log.stamps + [stamp])
      && Flatten(after.chunks) + after.current == Flatten(log.chunks) + log.current + [record]
  {
    hide ActiveText;
    FlattenGrows(log.chunks, log.current);
    assert Flatten(log.chunks) + (log.current + [record]) == Flatten(log.chunks) + log.current + [record];
  }

  lemma {:induction false} LogShape(c: Config, init: string, es: seq<Entry>, n: nat)
    requires n <= |es|
    ensures var log := LogOf(c, init, es, n);
      && |log.chunks| == |log.stamps|
      && (forall i :: 0 <= i < |log.stamps| ==> exists j :: 0 <= j < n && log.stamps[i] == es[j].stamp)
      && Flatten(log.chunks) + log.current == Records(es, n)
  {
    hide Flatten, Records, ActiveText, NextLog;
    if n == 0 {
      NothingFlat(es);
    } else {
      LogShape(c, init, es, n - 1);
      UnfoldRun(c, State(map[], Nil, 0), init, es, n);
      NextShape(c, init, LogOf(c, init, es, n - 1), es[n - 1].record, es[n - 1].stamp);
    }
  }

  lemma DistinctPrefix(stamps: seq<string>, last: string)
    requires StampsDistinct(stamps + [last])
    ensures StampsDistinct(stamps) && last !in stamps
  {
    var all := stamps + [last];
    forall i | 0 <= i < |stamps| ensures stamps[i] != last { assert all[i] != all[|stamps|]; }
    forall i, j | 0 <= i < j < |stamps| ensures stamps[i] != stamps[j] { assert all[i] != all[j]; }
  }

  /** A run without failures, whose rotations fall in different seconds, follows the log:
      the directory holds exactly the old files, the rotated files and the active one. */
  lemma {:induction false} RunFollows(c: Config, others: Files, init: string, es: seq<Entry>, n: nat)
    requires n <= |es| && c.name !in others && StampsUnused(c, others, es)
    requires StampsDistinct(LogOf(c, init, es, n).stamps)
    ensures |LogOf(c, init, es, n).chunks| == |LogOf(c, init, es, n).stamps|
    ensures StateAfter(c, StateOf(c, others, init, Log([], [], [])), es, n)
         == StateOf(c, others, init, LogOf(c, init, es, n))
  {
    if n > 0 {
      var before, log := LogOf(c, init, es, n - 1), LogOf(c, init, es, n);
      var e := es[n - 1];
      assert log == NextLog(c, init, before, e.record, e.stamp);
      hide LogOf, FreshStamp, Directory, ActiveText, Written, StateOf, MaxBytes;
      if MaxBytes(c) > 0 && |ActiveText(init, before)| >= MaxBytes(c) {
        LogShape(c, init, es, n - 1);
        DistinctPrefix(before.stamps, e.stamp);
        FreshInDirectory(c, others, init, before, e.stamp);
      }
      hide StampsUnused, StampsDistinct;
      RunFollows(c, others, init, es, n - 1);
      WriteFollows(c, others, init, before, e.record, e.stamp);
    }
  }

  // --------------------------------------------------------- nothing lost or split

  function TextOf(files: Files, name: string): string {
    if name in files && !files[name].Damaged? then files[name].text else ""
  }

  /** The text of the first k rotated files, oldest first, decompressed. */
  function Recovered(c: Config, files: Files, stamps: seq<string>, k: nat): string
    requires k <= |stamps|
  {
    if k == 0 then "" else Recovered(c, files, stamps, k - 1) + TextOf(files, StoredName(c, stamps[k - 1]))
  }

  lemma {:induction false} LinesOfConcat(a: seq<string>, b: seq<string>)
    ensures Lines(a + b) == Lines(a) + Lines(b)
  {
    if b == [] {
      assert a + b == a && Lines(a) + "" == Lines(a);
    } else {
      var front, r := b[..|b| - 1], b[|b| - 1];
      hide Lines;
      LinesOfConcat(a, front);
      LinesGrow(a + front, r);
      LinesGrow(front, r);
      assert a + b == a + front + [r] && b == front + [r];
      assert Lines(a) + Lines(front) + (r + "\n") == Lines(a) + (Lines(front) + (r + "\n"));
    }
  }

  lemma RotatedTextFound(c: Config, others: Files, init: string, log: Log, k: nat)
    requires k < |log.chunks| == |log.stamps| && StampsDistinct(log.stamps)
    ensures TextOf(Directory(c, others, init, log), StoredName(c, log.stamps[k])) == ChunkText(init, log, k)
  {
    ArchiveKeeps(c, others, init, log, |log.chunks|, k);
    NamesDiffer(c, log.stamps[k]);
  }

  /** The text of the first k chunks of a log. */
  function ChunksText(init: string, log: Log, k: nat): string
    requires k <= |log.chunks|
  {
    if k == 0 then "" else ChunksText(init, log, k - 1) + ChunkText(init, log, k - 1)
  }

  lemma {:induction false} RecoveredIsChunks(c: Config, others: Files, init: string, log: Log, k: nat)
    requires k <= |log.chunks| == |log.stamps| && StampsDistinct(log.stamps)
    ensures Recovered(c, Directory(c, others, init, log), log.stamps, k) == ChunksText(init, log, k)
  {
    hide Directory, TextOf, ChunkText, StampsDistinct, StoredName;
    if k > 0 {
      RecoveredIsChunks(c, others, init, log, k - 1);
      RotatedTextFound(c, others, init, log, k - 1);
    }
  }

  lemma NoLines()
    ensures Lines([]) == ""
  {
  }

  lemma {:induction false} ChunksAreFlat(init: string, log: Log, k: nat)
    requires k <= |log.chunks|
    ensures ChunksText(init, log, k) == (if k == 0 then "" else init) + Lines(Flatten(log.chunks[..k]))
  {
    hide Lines;
    if k == 0 {
      assert log.chunks[..0] == [] && Flatten([]) == [];
      NoLines();
    } else {
      var front, last := Flatten(log.chunks[..k - 1]), log.chunks[k - 1];
      ChunksAreFlat(init, log, k - 1);
      assert log.chunks[..k][..k - 1] == log.chunks[..k - 1];
      assert Flatten(log.chunks[..k]) == front + last;
      LinesOfConcat(front, last);
      if k == 1 {
        assert log.chunks[..0] == [];
        NoLines();
      }
    }
  }

  lemma ActiveCloses(init: string, log: Log)
    ensures (if |log.chunks| == 0 then "" else init) + Lines(Flatten(log.chunks)) + ActiveText(init, log)
         == init + (Lines(Flatten(log.chunks)) + Lines(log.current))
  {
    if log.chunks == [] { assert Lines(Flatten(log.chunks)) == ""; }
  }

  /** The rotated files in order, decompressed, followed by the active file are the initial
      content and then every record written, each with its newline. */
  lemma RotationLosesNothing(c: Config, others: Files, init: string, es: seq<Entry>)
    requires c.name !in others && StampsUnused(c, others, es)
    requires StampsDistinct(LogOf(c, init, es, |es|).stamps)
    ensures var s := StateAfter(c, StateOf(c, others, init, Log([], [], [])), es, |es|);
      var stamps := LogOf(c, init, es, |es|).stamps;
      Recovered(c, s.files, stamps, |stamps|) + TextOf(s.files, c.name) == init + Lines(Records(es, |es|))
  {
    var log := LogOf(c, init, es, |es|);
    RunFollows(c, others, init, es, |es|);
    LogShape(c, init, es, |es|);
    hide StampsUnused, StampsDistinct, StateAfter, Lines, Recovered, Archive, Flatten, LogOf;
    RecoveredIsChunks(c, others, init, log, |log.chunks|);
    ChunksAreFlat(init, log, |log.chunks|);
    assert log.chunks[..|log.chunks|] == log.chunks;
    LinesOfConcat(Flatten(log.chunks), log.current);
    ActiveCloses(init, log);
  }

  /** Each rotated file is found under its stamp holding whole records: a slice of those
      written, the slices in order making up all of them; files that were there before
      are untouched, and the size kept is the active file's length. */
  lemma RotationSplitsNothing(c: Config, others: Files, init: string, es: seq<Entry>)
    requires c.name !in others && StampsUnused(c, others, es)
    requires StampsDistinct(LogOf(c, init, es, |es|).stamps)
    ensures var s := StateAfter(c, StateOf(c, others, init, Log([], [], [])), es, |es|);
      var log := LogOf(c, init, es, |es|);
      && |log.chunks| == |log.stamps|
      && Flatten(log.chunks) + log.current == Records(es, |es|)
      && (forall k: nat :: k < |log.chunks| ==>
            TextOf(s.files, StoredName(c, log.stamps[k])) == (if k == 0 then init else "") + Lines(log.chunks[k]))
      && (forall name :: name in others ==> name in s.files && s.files[name] == others[name])
      && s.handle == Open && s.size == |TextOf(s.files, c.name)|
  {
    var log := LogOf(c, init, es, |es|);
    RunFollows(c, others, init, es, |es|);
    LogShape(c, init, es, |es|);
    hide StateAfter, Lines, Archive, Flatten, LogOf;
    forall k: nat | k < |log.chunks|
      ensures TextOf(Directory(c, others, init, log), StoredName(c, log.stamps[k])) == ChunkText(init, log, k)
    {
      RotatedTextFound(c, others, init, log, k);
    }
    forall name | name in others
      ensures name in Directory(c, others, init, log) && Directory(c, others, init, log)[name] == others[name]
    {
      forall i | 0 <= i < |log.stamps| ensures StoredName(c, log.stamps[i]) != name {
        var j :| 0 <= j < |es| && log.stamps[i] == es[j].stamp;
        assert FreshStamp(c, others, es[j].stamp);
      }
      ArchiveKeepsOthers(c, others, init, log, |log.chunks|, name);
    }
  }

  function LineEnd(s: string): (n: nat)
    ensures n <= |s| && (n < |s| ==> s[n] == '\n')
  {
    if s == "" || s[0] == '\n' then 0 else 1 + LineEnd(s[1..])
  }

  /** The lines of a text that are ended by a newline. */
  function SplitLines(s: string): seq<string>
    decreases |s|
  {
    var n := LineEnd(s);
    if n == |s| then [] else [s[..n]] + SplitLines(s[n + 1..])
  }

  lemma {:induction false} LineEndPast(r: string, rest: string)
    requires '\n' !in r
    ensures LineEnd(r + ("\n" + rest)) == |r|
  {
    if r == "" {
      assert r + ("\n" + rest) == "\n" + rest;
    } else {
      LineEndPast(r[1..], rest);
      assert (r + ("\n" + rest))[1..] == r[1..] + ("\n" + rest);
    }
  }

  lemma SplitNothing()
    ensures SplitLines("") == []
  {
  }

  lemma SplitFirst(r: string, rest: string)
    requires '\n' !in r
    ensures SplitLines(r + ("\n" + rest)) == [r] + SplitLines(rest)
  {
    hide LineEnd;
    var s := r + ("\n" + rest);
    LineEndPast(r, rest);
    assert s[..|r|] == r && s[|r| + 1..] == rest;
  }

  /** Since a record has no raw newline, splitting the text gives the records back. */
  lemma {:induction false} SplitRecovers(records: seq<string>)
    requires forall i :: 0 <= i < |records| ==> '\n' !in records[i]
    ensures SplitLines(Lines(records)) == records
  {
    hide SplitLines, Lines;
    if records == [] {
      NoLines();
      SplitNothing();
    } else {
      var r, rest := records[0], records[1..];
      SplitRecovers(rest);
      LinesOfConcat([r], rest);
      assert [r] + rest == records && [] + [r] == [r];
      LinesGrow([], r);
      NoLines();
      assert Lines(records) == "" + (r + "\n") + Lines(rest) == r + ("\n" + Lines(rest));
      SplitFirst(r, Lines(rest));
    }
  }
}
