/** How large the rotating writer's files get, and which bytes a run of Writes keeps: both
    for every run without failures, whatever its stamps. */
module RotationBytes {
  import opened Domain
  import opened RotatingFile
  import opened RotationRuns

  // ------------------------------------------------------------------ file sizes

  /** Without its last record the file was still under the limit. */
  predicate UnderLimit(c: Config, records: seq<string>) {
    records != [] && |Lines(records[..|records| - 1])| < MaxBytes(c)
  }

  /** With a positive limit, every file opened after a rotation is shorter than the limit
      plus its last record, and every file rotated away had reached the limit. */
  lemma {:induction false} SizesBounded(c: Config, init: string, es: seq<Entry>, n: nat)
    requires n <= |es| && MaxBytes(c) > 0
    ensures var log := LogOf(c, init, es, n);
      && (log.chunks != [] ==> UnderLimit(c, log.current))
      && (forall k :: 1 <= k < |log.chunks| ==> UnderLimit(c, log.chunks[k]))
      && (forall k: nat :: k < |log.chunks| ==> |ChunkText(init, log, k)| >= MaxBytes(c))
  {
    if n > 0 {
      SizesBounded(c, init, es, n - 1);
      var before, log := LogOf(c, init, es, n - 1), LogOf(c, init, es, n);
      assert log.current[..|log.current| - 1] == if |log.chunks| > |before.chunks| then [] else before.current;
      forall k: nat | k < |log.chunks| ensures |ChunkText(init, log, k)| >= MaxBytes(c) {
        if k < |before.chunks| {
          assert log.chunks[k] == before.chunks[k];
          assert ChunkText(init, log, k) == ChunkText(init, before, k);
        } else {
          assert ChunkText(init, log, k) == ActiveText(init, before);
        }
      }
    }
  }

  lemma {:induction false} UnderLimitBound(c: Config, records: seq<string>)
    requires UnderLimit(c, records)
    ensures |Lines(records)| < MaxBytes(c) + |records[|records| - 1]| + 1
  {
  }

  /** The file is usable, holds the text, and size is its length. */
  predicate Holds(c: Config, s: State, text: string) {
    s.handle == Open && c.name in s.files && s.files[c.name] == Plain(text) && s.size == |text|
  }

  lemma RotateHolds(c: Config, s: State, stamp: string, text: string)
    requires Holds(c, s, text)
    ensures Holds(c, Rotated(c, s, stamp, NO_FAULTS), "")
  {
    NamesDiffer(c, stamp);
    hide BackupName;
    assert c.name !in Renamed(s.files, c.name, BackupName(c.name, stamp));
  }

  lemma ActiveGrows(init: string, log: Log, record: string)
    ensures ActiveText(init, log.(current := log.current + [record])) == ActiveText(init, log) + (record + "\n")
  {
    LinesGrow(log.current, record);
  }

  lemma AppendHolds(c: Config, s: State, text: string, line: string)
    requires Holds(c, s, text)
    ensures Holds(c, State(Append(s.files, c.name, line), Open, s.size + |line|), text + line)
  {
  }

  lemma OneLine(init: string, log: Log, record: string)
    requires log.chunks != [] && log.current == [record]
    ensures ActiveText(init, log) == "" + (record + "\n")
  {
    LinesGrow([], record);
    assert [] + [record] == [record];
  }

  lemma WriteHolds(c: Config, s: State, init: string, log: Log, record: string, stamp: string)
    requires Holds(c, s, ActiveText(init, log))
    ensures var (t, ok) := Written(c, s, Some(record), stamp, NO_FAULTS);
      ok && Holds(c, t, ActiveText(init, NextLog(c, init, log, record, stamp)))
  {
    var r := Rotated(c, s, stamp, NO_FAULTS);
    RotateHolds(c, s, stamp, ActiveText(init, log));
    hide ActiveText, Append, Rotated, BackupName;
    if RotationDue(c, s) {
      OneLine(init, NextLog(c, init, log, record, stamp), record);
      AppendHolds(c, r, "", record + "\n");
    } else {
      ActiveGrows(init, log, record);
      AppendHolds(c, s, ActiveText(init, log), record + "\n");
    }
  }

  lemma NoWrites(c: Config, s: State, init: string, es: seq<Entry>)
    ensures StateAfter(c, s, es, 0) == s && LogOf(c, init, es, 0) == Log([], [], [])
    ensures ActiveText(init, Log([], [], [])) == init && Lines(Records(es, 0)) == ""
  {
    assert init + "" == init;
  }

  lemma {:induction false} RunHolds(c: Config, s: State, init: string, es: seq<Entry>, n: nat)
    requires n <= |es| && Holds(c, s, init)
    ensures Holds(c, StateAfter(c, s, es, n), ActiveText(init, LogOf(c, init, es, n)))
  {
    hide Holds, Written, NextLog, StateAfter, LogOf;
    if n == 0 {
      NoWrites(c, s, init, es);
    } else {
      RunHolds(c, s, init, es, n - 1);
      UnfoldRun(c, s, init, es, n);
      WriteHolds(c, StateAfter(c, s, es, n - 1), init, LogOf(c, init, es, n - 1), es[n - 1].record, es[n - 1].stamp);
    }
  }

  /** In every run without failures, from any directory and with any stamps, the writer
      stays usable and size is the active file's length; once a rotation has happened that
      length stays below the limit plus the last record. */
  lemma ActiveFileBounded(c: Config, s: State, init: string, es: seq<Entry>, n: nat)
    requires 0 < n <= |es| && MaxBytes(c) > 0 && Holds(c, s, init)
    ensures var t := StateAfter(c, s, es, n);
      && Holds(c, t, ActiveText(init, LogOf(c, init, es, n)))
      && (LogOf(c, init, es, n).stamps != [] ==> t.size < MaxBytes(c) + |es[n - 1].record| + 1)
  {
    RunHolds(c, s, init, es, n);
    SizesBounded(c, init, es, n);
    LogShape(c, init, es, n);
    var log := LogOf(c, init, es, n);
    assert log.current != [] && log.current[|log.current| - 1] == es[n - 1].record;
    hide StateAfter, LogOf, UnderLimit;
    if log.chunks != [] { UnderLimitBound(c, log.current); }
  }

  // ------------------------------------------------------- what a repeated stamp costs

  function SizeOf(x: Content): nat { if x.Damaged? then 0 else |x.text| }

  ghost function Total(files: Files): nat {
    if files == map[] then 0 else var k :| k in files; Total(files - {k}) + SizeOf(files[k])
  }

  lemma {:induction false} TotalWithout(files: Files, x: string)
    requires x in files
    ensures Total(files) == Total(files - {x}) + SizeOf(files[x])
    decreases |files|
  {
    var k :| k in files && Total(files) == Total(files - {k}) + SizeOf(files[k]);
    if k != x {
      TotalWithout(files - {k}, x);
      TotalWithout(files - {x}, k);
      assert files - {k} - {x} == files - {x} - {k};
    }
  }

  function SizeAt(files: Files, name: string): nat { if name in files then SizeOf(files[name]) else 0 }

  lemma TotalWith(files: Files, x: string, v: Content)
    ensures Total(files[x := v]) + SizeAt(files, x) == Total(files) + SizeOf(v)
  {
    TotalWithout(files[x := v], x);
    assert files[x := v] - {x} == files - {x};
    if x in files { TotalWithout(files, x); } else { assert files - {x} == files; }
  }

  /** What a rotation overwrites: a file already under the backup's name, and when
      compressing also one under the compressed name. */
  function Overwritten(c: Config, files: Files, stamp: string): nat {
    SizeAt(files, BackupName(c.name, stamp))
    + (if c.compress then SizeAt(files, BackupName(c.name, stamp) + ".gz") else 0)
  }

  lemma RenameTotal(files: Files, from: string, to: string)
    requires from in files && from != to
    ensures Total(Renamed(files, from, to)) + SizeAt(files, to) == Total(files)
  {
    TotalWithout(files, from);
    TotalWith(files - {from}, to, files[from]);
  }

  lemma CompressTotal(files: Files, path: string)
    requires path in files && files[path].Plain?
    ensures Total(Compressed(files, path, GzipDone)) + SizeAt(files, path + ".gz") == Total(files)
  {
    assert path + ".gz" != path;
    TotalWithout(files, path);
    TotalWith(files - {path}, path + ".gz", Gzip(files[path].text));
  }

  lemma OpenTotal(files: Files, name: string)
    ensures Total(Opened(files, name)) == Total(files)
  {
    if name !in files { TotalWith(files, name, Plain("")); }
  }

  /** A rotation without failures keeps every byte of the directory exactly when the names
      it moves to hold nothing; otherwise exactly those bytes are gone. */
  lemma RotationKeepsBytesIff(c: Config, s: State, stamp: string)
    requires s.handle == Open && c.name in s.files && s.files[c.name].Plain?
    ensures Total(Rotated(c, s, stamp, NO_FAULTS).files) + Overwritten(c, s.files, stamp) == Total(s.files)
    ensures Total(Rotated(c, s, stamp, NO_FAULTS).files) == Total(s.files) <==> Overwritten(c, s.files, stamp) == 0
  {
    NamesDiffer(c, stamp);
    hide BackupName, Total;
    var b := BackupName(c.name, stamp);
    var moved := Renamed(s.files, c.name, b);
    RenameTotal(s.files, c.name, b);
    if c.compress {
      CompressTotal(moved, b);
      assert SizeAt(moved, b + ".gz") == SizeAt(s.files, b + ".gz");
      OpenTotal(Compressed(moved, b, GzipDone), c.name);
    } else {
      OpenTotal(moved, c.name);
    }
  }

  // ----------------------------------------------------------- the bytes of whole runs

  /** The bytes that the rotations among the first n Writes overwrite. */
  function Lost(c: Config, s: State, es: seq<Entry>, n: nat): nat
    requires n <= |es|
  {
    if n == 0 then 0
    else
      var before := StateAfter(c, s, es, n - 1);
      Lost(c, s, es, n - 1) + (if RotationDue(c, before) then Overwritten(c, before.files, es[n - 1].stamp) else 0)
  }

  lemma NothingLost(c: Config, s: State, es: seq<Entry>)
    ensures Lost(c, s, es, 0) == 0
  {
  }

  lemma UnfoldLost(c: Config, s: State, es: seq<Entry>, n: nat)
    requires 0 < n <= |es|
    ensures var before := StateAfter(c, s, es, n - 1);
      Lost(c, s, es, n) == Lost(c, s, es, n - 1)
        + (if RotationDue(c, before) then Overwritten(c, before.files, es[n - 1].stamp) else 0)
  {
    hide StateAfter, RotationDue, Overwritten;
  }

  lemma AppendTotal(c: Config, s: State, text: string, line: string)
    requires Holds(c, s, text)
    ensures Total(Append(s.files, c.name, line)) == Total(s.files) + |line|
  {
    TotalWith(s.files, c.name, Plain(text + line));
  }

  lemma WriteTotal(c: Config, s: State, text: string, record: string, stamp: string)
    requires Holds(c, s, text)
    ensures Total(Written(c, s, Some(record), stamp, NO_FAULTS).0.files)
            + (if RotationDue(c, s) then Overwritten(c, s.files, stamp) else 0) == Total(s.files) + |record| + 1
  {
    RotateHolds(c, s, stamp, text);
    RotationKeepsBytesIff(c, s, stamp);
    var r := Rotated(c, s, stamp, NO_FAULTS);
    AppendTotal(c, r, "", record + "\n");
    AppendTotal(c, s, text, record + "\n");
    hide Rotated, Total, Append, Overwritten;
  }

  /** Whatever the stamps, the directory and what was overwritten are together the old
      directory and everything written. */
  lemma {:induction false} BytesBalance(c: Config, s: State, init: string, es: seq<Entry>, n: nat)
    requires n <= |es| && Holds(c, s, init)
    ensures Total(StateAfter(c, s, es, n).files) + Lost(c, s, es, n) == Total(s.files) + |Lines(Records(es, n))|
  {
    hide Written, Total, Holds, Overwritten, StateAfter, LogOf, NextLog, ActiveText, Lost, RotationDue, Records, Lines;
    if n == 0 {
      NoWrites(c, s, init, es);
      NothingLost(c, s, es);
    } else {
      BytesBalance(c, s, init, es, n - 1);
      RunHolds(c, s, init, es, n - 1);
      UnfoldRun(c, s, init, es, n);
      UnfoldLost(c, s, es, n);
      var text := ActiveText(init, LogOf(c, init, es, n - 1));
      WriteTotal(c, StateAfter(c, s, es, n - 1), text, es[n - 1].record, es[n - 1].stamp);
      LinesGrow(Records(es, n - 1), es[n - 1].record);
    }
  }

  lemma RotatedDirectory(c: Config, s: State, stamp: string, text: string)
    requires Holds(c, s, text)
    ensures var files := Rotated(c, s, stamp, NO_FAULTS).files;
      && files.Keys <= s.files.Keys + {StoredName(c, stamp)}
      && SizeAt(files, StoredName(c, stamp)) == |text|
      && forall name :: name != c.name && name != BackupName(c.name, stamp) && name != StoredName(c, stamp) ==>
           SizeAt(files, name) == SizeAt(s.files, name)
  {
    NamesDiffer(c, stamp);
    hide BackupName;
    assert BackupName(c.name, stamp) + "" == BackupName(c.name, stamp);
  }

  /** Every rotated file is there with at least the limit's bytes, under one of the names
      that the stamps give, and there are no names but these and the old ones. */
  predicate Archived(c: Config, old_: Files, files: Files, stamps: seq<string>) {
    && (forall i :: 0 <= i < |stamps| ==>
          StampLike(stamps[i]) && SizeAt(files, StoredName(c, stamps[i])) >= MaxBytes(c))
    && (forall name :: name in files ==>
          name in old_ || exists i :: 0 <= i < |stamps| && name == StoredName(c, stamps[i]))
  }

  lemma RotateArchives(c: Config, old_: Files, s: State, text: string, stamps: seq<string>, stamp: string)
    requires Holds(c, s, text) && |text| >= MaxBytes(c) && StampLike(stamp) && Archived(c, old_, s.files, stamps)
    ensures Archived(c, old_, Rotated(c, s, stamp, NO_FAULTS).files, stamps + [stamp])
  {
    RotatedDirectory(c, s, stamp, text);
    hide BackupName, StoredName, SizeAt, Rotated;
    var files, all := Rotated(c, s, stamp, NO_FAULTS).files, stamps + [stamp];
    forall i | 0 <= i < |all|
      ensures StampLike(all[i]) && SizeAt(files, StoredName(c, all[i])) >= MaxBytes(c)
    {
      if all[i] != stamp {
        assert all[i] == stamps[i];
        NamesDiffer(c, all[i]);
        StoredNamesDiffer(c, all[i], stamp);
        StoredIsNotBackup(c, all[i], stamp);
      }
    }
    forall name | name in files
      ensures name in old_ || exists i :: 0 <= i < |all| && name == StoredName(c, all[i])
    {
      if name == StoredName(c, stamp) {
        assert name == StoredName(c, all[|stamps|]);
      } else if i :| 0 <= i < |stamps| && name == StoredName(c, stamps[i]) {
        assert name == StoredName(c, all[i]);
      }
    }
  }

  lemma AppendArchives(c: Config, old_: Files, files: Files, stamps: seq<string>, line: string)
    requires Archived(c, old_, files, stamps)
    ensures Archived(c, old_, Append(files, c.name, line), stamps)
  {
    hide StoredName;
    forall i | 0 <= i < |stamps| ensures StoredName(c, stamps[i]) != c.name { NamesDiffer(c, stamps[i]); }
  }

  lemma DueIff(c: Config, s: State, text: string)
    requires Holds(c, s, text)
    ensures RotationDue(c, s) <==> MaxBytes(c) > 0 && |text| >= MaxBytes(c)
  {
  }

  lemma WriteArchives(c: Config, old_: Files, s: State, init: string, log: Log, record: string, stamp: string)
    requires Holds(c, s, ActiveText(init, log)) && StampLike(stamp) && Archived(c, old_, s.files, log.stamps)
    ensures Archived(c, old_, Written(c, s, Some(record), stamp, NO_FAULTS).0.files,
                     NextLog(c, init, log, record, stamp).stamps)
  {
    var r, text := Rotated(c, s, stamp, NO_FAULTS), ActiveText(init, log);
    RotateHolds(c, s, stamp, text);
    DueIff(c, s, text);
    hide Archived, Append, Rotated, ActiveText;
    if RotationDue(c, s) {
      RotateArchives(c, old_, s, text, log.stamps, stamp);
      AppendArchives(c, old_, r.files, log.stamps + [stamp], record + "\n");
    } else {
      AppendArchives(c, old_, s.files, log.stamps, record + "\n");
    }
  }

  lemma NothingArchived(c: Config, files: Files)
    ensures Archived(c, files, files, [])
  {
  }

  lemma {:induction false} RunArchives(c: Config, s: State, init: string, es: seq<Entry>, n: nat)
    requires n <= |es| && Holds(c, s, init) && StampsUnused(c, s.files, es)
    ensures Archived(c, s.files, StateAfter(c, s, es, n).files, LogOf(c, init, es, n).stamps)
  {
    hide Holds, Archived, FreshStamp, Written, ActiveText, StateAfter, LogOf, NextLog, StampsUnused, StampLike;
    if n == 0 {
      NoWrites(c, s, init, es);
      NothingArchived(c, s.files);
    } else {
      EntryUnused(c, s.files, es, n - 1);
      RunArchives(c, s, init, es, n - 1);
      RunHolds(c, s, init, es, n - 1);
      UnfoldRun(c, s, init, es, n);
      WriteArchives(c, s.files, StateAfter(c, s, es, n - 1), init, LogOf(c, init, es, n - 1), es[n - 1].record,
                    es[n - 1].stamp);
    }
  }

  /** In such a directory a rotation overwrites something exactly when its stamp has been
      used, and then at least a whole file. */
  lemma OverwritesIff(c: Config, old_: Files, files: Files, stamps: seq<string>, stamp: string)
    requires Archived(c, old_, files, stamps) && FreshStamp(c, old_, stamp) && StampLike(stamp) && MaxBytes(c) > 0
    ensures if stamp in stamps then Overwritten(c, files, stamp) >= MaxBytes(c)
            else Overwritten(c, files, stamp) == 0
  {
    var b, x := BackupName(c.name, stamp), StoredName(c, stamp);
    assert b + "" == b;
    if stamp in stamps {
      var i :| 0 <= i < |stamps| && stamps[i] == stamp;
      assert SizeAt(files, StoredName(c, stamps[i])) >= MaxBytes(c);
    } else {
      forall name | name in files ensures name != b && name != x {
        if i :| 0 <= i < |stamps| && name == StoredName(c, stamps[i]) {
          StoredNamesDiffer(c, stamps[i], stamp);
          StoredIsNotBackup(c, stamps[i], stamp);
        }
      }
    }
  }

  lemma DistinctGrows(stamps: seq<string>, last: string)
    ensures StampsDistinct(stamps + [last]) <==> StampsDistinct(stamps) && last !in stamps
  {
    if StampsDistinct(stamps + [last]) { DistinctPrefix(stamps, last); }
  }

  lemma NoStamps()
    ensures StampsDistinct([])
  {
  }

  lemma StampsAfter(c: Config, init: string, log: Log, record: string, stamp: string)
    ensures NextLog(c, init, log, record, stamp).stamps ==
      if MaxBytes(c) > 0 && |ActiveText(init, log)| >= MaxBytes(c) then log.stamps + [stamp] else log.stamps
  {
    hide ActiveText, MaxBytes;
  }

  lemma {:induction false} LostIff(c: Config, s: State, init: string, es: seq<Entry>, n: nat)
    requires n <= |es| && Holds(c, s, init) && StampsUnused(c, s.files, es)
    ensures if StampsDistinct(LogOf(c, init, es, n).stamps) then Lost(c, s, es, n) == 0
            else Lost(c, s, es, n) >= MaxBytes(c) > 0
  {
    hide Holds, Archived, FreshStamp, StampLike, StampsUnused, StateAfter, LogOf, NextLog, Lost, Written;
    hide ActiveText, StampsDistinct, Overwritten, RotationDue, MaxBytes;
    if n == 0 {
      NoWrites(c, s, init, es);
      NothingLost(c, s, es);
      NoStamps();
    } else {
      var before, log, e := StateAfter(c, s, es, n - 1), LogOf(c, init, es, n - 1), es[n - 1];
      LostIff(c, s, init, es, n - 1);
      RunArchives(c, s, init, es, n - 1);
      RunHolds(c, s, init, es, n - 1);
      UnfoldRun(c, s, init, es, n);
      UnfoldLost(c, s, es, n);
      DueIff(c, before, ActiveText(init, log));
      StampsAfter(c, init, log, e.record, e.stamp);
      if RotationDue(c, before) {
        EntryUnused(c, s.files, es, n - 1);
        DistinctGrows(log.stamps, e.stamp);
        OverwritesIff(c, s.files, before.files, log.stamps, e.stamp);
      }
    }
  }

  /** A run of Writes keeps every byte, those of the directory and those written, exactly
      when no two of its rotations fall in the same second; otherwise at least a whole
      backup is gone. */
  lemma BytesKeptIff(c: Config, s: State, init: string, es: seq<Entry>)
    requires Holds(c, s, init) && StampsUnused(c, s.files, es)
    ensures var after, due := Total(StateAfter(c, s, es, |es|).files), Total(s.files) + |Lines(Records(es, |es|))|;
      && (after == due <==> StampsDistinct(LogOf(c, init, es, |es|).stamps))
      && (after != due ==> after + MaxBytes(c) <= due)
  {
    BytesBalance(c, s, init, es, |es|);
    LostIff(c, s, init, es, |es|);
    hide Holds, StampsUnused, StampsDistinct, Lost, Total, StateAfter, LogOf, Lines, Records;
  }

  lemma ThreeWrites(c: Config, r: string, stamp: string)
    requires 0 < MaxBytes(c) <= |r|
    ensures LogOf(c, "", [Entry(r, stamp), Entry(r, stamp), Entry(r, stamp)], 3).stamps == [stamp, stamp]
  {
    var es := [Entry(r, stamp), Entry(r, stamp), Entry(r, stamp)];
    var one, two := LogOf(c, "", es, 1), LogOf(c, "", es, 2);
    LinesGrow([], r);
    assert [] + [r] == [r];
    assert LogOf(c, "", es, 0) == Log([], [], []) && ActiveText("", Log([], [], [])) == "";
    assert one == Log([], [], [r]);
    assert two == Log([[r]], [stamp], [r]);
    assert [stamp] + [stamp] == [stamp, stamp];
  }

  /** A run of three Writes of a record as long as the limit, all in one second, in an
      empty directory: two rotations, and the first backup is gone. */
  lemma SameSecondLosesBackup(c: Config, r: string, stamp: string)
    requires 0 < MaxBytes(c) <= |r| && StampLike(stamp)
    ensures var es := [Entry(r, stamp), Entry(r, stamp), Entry(r, stamp)];
      var t := StateAfter(c, State(map[c.name := Plain("")], Open, 0), es, 3);
      Total(t.files) + MaxBytes(c) <= |Lines(Records(es, 3))|
  {
    var es, s := [Entry(r, stamp), Entry(r, stamp), Entry(r, stamp)], State(map[c.name := Plain("")], Open, 0);
    NamesDiffer(c, stamp);
    ThreeWrites(c, r, stamp);
    assert [stamp, stamp][0] == [stamp, stamp][1];
    assert StampsUnused(c, s.files, es);
    BytesKeptIff(c, s, "", es);
    TotalWithout(s.files, c.name);
    assert s.files - {c.name} == map[];
    hide Total, StateAfter, LogOf, Lines, Records;
  }
}
