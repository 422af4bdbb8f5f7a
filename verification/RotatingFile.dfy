/** internal/adapter/outbound/file/writer.go: JSON lines appended to one file that is
    renamed, optionally compressed, and replaced when it has grown too large.  The
    directory is a map from name to content, one character a byte; every operating
    system call may fail. */
module RotatingFile {
  import opened Domain

  /** A file's content, or its compressed form, or a compressed file cut short. */
  datatype Content = Plain(text: string) | Gzip(text: string) | Damaged

  type Files = map<string, Content>

  datatype Config = Config(name: string, maxSizeMB: int, compress: bool)

  /** filepath.Ext: from the last dot on, or nothing. */
  function Ext(name: string): string {
    if name == "" then ""
    else if name[|name| - 1] == '.' then "."
    else
      var e := Ext(name[..|name| - 1]);
      if e == "" then "" else e + [name[|name| - 1]]
  }

  lemma UnfoldExt(name: string)
    ensures name == "" ==> Ext(name) == ""
    ensures name != "" && name[|name| - 1] == '.' ==> Ext(name) == "."
    ensures name != "" && name[|name| - 1] != '.' ==>
      Ext(name) == (if Ext(name[..|name| - 1]) == "" then "" else Ext(name[..|name| - 1]) + [name[|name| - 1]])
  {
  }

  lemma SuffixGrows(front: string, e: string, last: char)
    requires |e| <= |front| && front == front[..|front| - |e|] + e
    ensures var name, f := front + [last], e + [last]; name == name[..|name| - |f|] + f
  {
  }

  lemma ShortSuffix(name: string)
    ensures name == name[..|name| - 0] + ""
    ensures name != "" && name[|name| - 1] == '.' ==> name == name[..|name| - 1] + "."
  {
  }

  lemma {:induction false} ExtIsSuffix(name: string)
    ensures |Ext(name)| <= |name| && name == name[..|name| - |Ext(name)|] + Ext(name)
  {
    hide Ext;
    UnfoldExt(name);
    if name == "" || name[|name| - 1] == '.' || Ext(name) == "" {
      ShortSuffix(name);
    } else {
      var front := name[..|name| - 1];
      ExtIsSuffix(front);
      SuffixGrows(front, Ext(front), name[|name| - 1]);
      assert name == front + [name[|name| - 1]];
    }
  }

  /** The extension starts at the last dot; a name without a dot has none. */
  lemma {:induction false} ExtFromLastDot(name: string)
    ensures Ext(name) == "" <==> '.' !in name
    ensures Ext(name) != "" ==> Ext(name)[0] == '.' && '.' !in Ext(name)[1..]
  {
    hide Ext;
    UnfoldExt(name);
    if name != "" && name[|name| - 1] != '.' {
      var front := name[..|name| - 1];
      ExtFromLastDot(front);
      assert name == front + [name[|name| - 1]];
      if Ext(name) != "" { assert Ext(name)[1..] == Ext(front)[1..] + [name[|name| - 1]]; }
    }
  }

  function Base(name: string): string {
    ExtIsSuffix(name);
    name[..|name| - |Ext(name)|]
  }

  function BackupName(name: string, stamp: string): string { Base(name) + "." + stamp + Ext(name) }

  function StoredName(c: Config, stamp: string): string {
    BackupName(c.name, stamp) + (if c.compress then ".gz" else "")
  }

  function Stored(c: Config, text: string): Content { if c.compress then Gzip(text) else Plain(text) }

  // ------------------------------------------------------------- what one call does

  datatype GzipOutcome = GzipDone | NotStarted | CutShort | OriginalKept

  /** Which calls fail in one Write; written is None when all bytes go out. */
  datatype Faults = Faults(close: bool, rename: bool, gzip: GzipOutcome, open: bool, written: Option<nat>)

  const NO_FAULTS: Faults := Faults(false, false, GzipDone, false, None)

  /** The field file: usable, nil, or an os.File that has been closed, which refuses every
      further Write and Close. */
  datatype Handle = Open | Nil | Closed

  /** The fields file and size, with the directory. */
  datatype State = State(files: Files, handle: Handle, size: int)

  function MaxBytes(c: Config): int { c.maxSizeMB * 1024 * 1024 }

  predicate RotationDue(c: Config, s: State) { MaxBytes(c) > 0 && s.size >= MaxBytes(c) }

  function Compressed(files: Files, path: string, outcome: GzipOutcome): Files {
    if path !in files || !files[path].Plain? then files
    else match outcome
      case GzipDone => (files - {path})[path + ".gz" := Gzip(files[path].text)]
      case NotStarted => files
      case CutShort => files[path + ".gz" := Damaged]
      case OriginalKept => files[path + ".gz" := Gzip(files[path].text)]
  }

  function Renamed(files: Files, from: string, to: string): Files {
    if from in files then (files - {from})[to := files[from]] else files
  }

  function Opened(files: Files, name: string): Files { if name in files then files else files[name := Plain("")] }

  /** A Close that reports an error has closed the file all the same. */
  function Rotated(c: Config, s: State, stamp: string, f: Faults): State {
    if s.handle != Open then s
    else if f.close then s.(handle := Closed)
    else if f.rename || c.name !in s.files then s.(handle := Nil)
    else
      var moved := Renamed(s.files, c.name, BackupName(c.name, stamp));
      var kept := if c.compress then Compressed(moved, BackupName(c.name, stamp), f.gzip) else moved;
      if f.open then State(kept, Nil, s.size)
      else State(Opened(kept, c.name), Open, 0)
  }

  function Append(files: Files, name: string, text: string): Files {
    if name in files && files[name].Plain? then files[name := Plain(files[name].text + text)] else files
  }

  /** The new state and whether Write returns nil; data is None when marshalling fails. */
  function Written(c: Config, s: State, data: Option<string>, stamp: string, f: Faults): (State, bool) {
    if data == None then (s, false)
    else if s.handle == Nil then (s, true)
    else
      var r := if RotationDue(c, s) then Rotated(c, s, stamp, f) else s;
      var record := data.value + "\n";
      if r.handle != Open then (r, false)
      else match f.written
        case None => (State(Append(r.files, c.name, record), Open, r.size + |record|), true)
        case Some(n) => (r.(files := Append(r.files, c.name, if n <= |record| then record[..n] else record)), false)
  }

  // ------------------------------------------------------------- the struct's methods

  /** Which calls of Migrate fail. */
  datatype MigrateFaults = MigrateFaults(mkdir: bool, open: bool, stat: bool)

  function LengthOf(x: Content): nat { if x.Plain? then |x.text| else 0 }

  class Writer {
    const c: Config
    var files: Files
    var handle: Handle
    var size: int

    ghost function Now(): State
      reads this
    {
      State(files, handle, size)
    }

    constructor (c: Config, files: Files)
      ensures this.c == c && Now() == State(files, Nil, 0)
    {
      this.c, this.files, this.handle, this.size := c, files, Nil, 0;
    }

    /** Migrate: opens for append, creating the file, and takes its length as the size; if
        only Stat fails the size stays what it was, and the file may outgrow its limit. */
    method Migrate(f: MigrateFaults) returns (ok: bool)
      modifies this
      ensures ok <==> !f.mkdir && !f.open
      ensures !ok ==> Now() == old(Now())
      ensures ok ==> files == Opened(old(files), c.name) && handle == Open
      ensures ok ==> size == if f.stat then old(size) else LengthOf(files[c.name])
    {
      if f.mkdir { return false; }
      if f.open { return false; }
      files := Opened(files, c.name);
      handle := Open;
      if !f.stat { size := LengthOf(files[c.name]); }
      return true;
    }

    method Rotate(stamp: string, f: Faults) returns (ok: bool)
      modifies this
      ensures Now() == Rotated(c, old(Now()), stamp, f)
      ensures ok <==> old(handle) == Nil || (old(handle) == Open && handle == Open)
    {
      if handle == Nil { return true; }
      if handle == Closed { return false; }
      if f.close { handle := Closed; return false; }
      handle := Nil;
      var backup := BackupName(c.name, stamp);
      if f.rename || c.name !in files { return false; }
      files := Renamed(files, c.name, backup);
      if c.compress { files := Compressed(files, backup, f.gzip); }
      if f.open { return false; }
      files := Opened(files, c.name);
      handle, size := Open, 0;
      return true;
    }

    method Write(data: Option<string>, stamp: string, f: Faults) returns (ok: bool)
      modifies this
      ensures (Now(), ok) == Written(c, old(Now()), data, stamp, f)
    {
      if data == None { return false; }
      if handle == Nil { return true; }
      var maxBytes := c.maxSizeMB * 1024 * 1024;
      if maxBytes > 0 && size >= maxBytes {
        var rotated := Rotate(stamp, f);
      }
      var record := data.value + "\n";
      if handle != Open { return false; }
      match f.written {
        case Some(n) =>
          files := Append(files, c.name, if n <= |record| then record[..n] else record);
          return false;
        case None =>
          files := Append(files, c.name, record);
          size := size + |record|;
          return true;
      }
    }
  }

  // ---------------------------------------------- how failures show, and do not show

  datatype Call = Call(data: string, stamp: string, faults: Faults)

  function AfterCalls(c: Config, s: State, calls: seq<Call>, n: nat): State
    requires n <= |calls|
  {
    if n == 0 then s
    else Written(c, AfterCalls(c, s, calls, n - 1), Some(calls[n - 1].data), calls[n - 1].stamp, calls[n - 1].faults).0
  }

  /** A lost file stays lost: nothing is stored by any further Write, which reports success
      every time if the file is nil and failure every time if it was closed. */
  lemma {:induction false} LostFileStaysLost(c: Config, s: State, calls: seq<Call>, n: nat)
    requires s.handle != Open && n <= |calls|
    ensures AfterCalls(c, s, calls, n) == s
    ensures n > 0 ==>
      var call := calls[n - 1];
      Written(c, AfterCalls(c, s, calls, n - 1), Some(call.data), call.stamp, call.faults).1 == (s.handle == Nil)
  {
    if n > 0 { LostFileStaysLost(c, s, calls, n - 1); }
  }

  /** A Write loses the file in two ways.  It is left closed exactly when a rotation is due
      and its Close fails, which later Writes report; it is left nil exactly when Close
      succeeds and the rename or the reopening fails, which only this Write reports. */
  lemma FileLostIff(c: Config, s: State, data: string, stamp: string, f: Faults)
    requires s.handle == Open && c.name in s.files
    ensures var (t, ok) := Written(c, s, Some(data), stamp, f);
      && (t.handle == Closed <==> RotationDue(c, s) && f.close)
      && (t.handle == Nil <==> RotationDue(c, s) && !f.close && (f.rename || f.open))
      && (t.handle != Open ==> !ok)
  {
  }

  lemma NamesDiffer(c: Config, stamp: string)
    ensures BackupName(c.name, stamp) != c.name && BackupName(c.name, stamp) + ".gz" != c.name
    ensures StoredName(c, stamp) != c.name
  {
    ExtIsSuffix(c.name);
    assert |BackupName(c.name, stamp)| == |c.name| + 1 + |stamp|;
  }

  /** While the file is usable a nil error means the active file now ends with the record. */
  lemma {:induction false} NilMeansStored(c: Config, s: State, data: string, stamp: string, f: Faults)
    requires s.handle == Open && c.name in s.files && s.files[c.name].Plain?
    ensures var (t, ok) := Written(c, s, Some(data), stamp, f);
      ok ==> t.handle == Open && c.name in t.files && t.files[c.name].Plain?
             && (t.files[c.name].text == s.files[c.name].text + (data + "\n") || t.files[c.name].text == data + "\n")
  {
    NamesDiffer(c, stamp);
    var r := Rotated(c, s, stamp, f);
    if RotationDue(c, s) && r.handle == Open {
      var moved := Renamed(s.files, c.name, BackupName(c.name, stamp));
      assert c.name !in moved;
      assert r.files[c.name] == Plain("");
      assert "" + (data + "\n") == data + "\n";
    }
  }

  // ------------------------------------------------------- what failures leave behind

  /** The old text is where a rotation puts it, as it was or compressed. */
  predicate SetAside(c: Config, files: Files, backup: string, text: string) {
    || (backup in files && files[backup] == Plain(text))
    || (c.compress && backup + ".gz" in files && files[backup + ".gz"] == Gzip(text))
  }

  predicate SameAt(a: Files, b: Files, name: string) {
    (name in a <==> name in b) && (name in a ==> a[name] == b[name])
  }

  /** Compression removes the original only when all has gone well; before that the copy is
      complete, cut short, or what was there before. */
  lemma CompressionLeaves(files: Files, path: string, outcome: GzipOutcome)
    requires path in files && files[path].Plain?
    ensures var after, copy := Compressed(files, path, outcome), path + ".gz";
      && (path in after <==> outcome != GzipDone) && (path in after ==> after[path] == files[path])
      && (outcome == NotStarted ==> SameAt(after, files, copy))
      && (outcome != NotStarted ==>
            copy in after && after[copy] == if outcome == CutShort then Damaged else Gzip(files[path].text))
      && forall name :: name != path && name != copy ==> SameAt(after, files, name)
  {
    assert path != path + ".gz";
  }

  lemma CompressKeeps(c: Config, files: Files, path: string, text: string, outcome: GzipOutcome)
    requires c.compress && path in files && files[path] == Plain(text)
    ensures SetAside(c, Compressed(files, path, outcome), path, text)
    ensures forall name :: name != path && name != path + ".gz" ==>
      SameAt(Compressed(files, path, outcome), files, name)
  {
    CompressionLeaves(files, path, outcome);
    hide Compressed;
  }

  /** Whatever fails, a rotation that renames the file keeps its text aside and leaves an
      empty active file or none, one that does not leaves all files as they were, and no
      other file is touched by either. */
  lemma RotationKeepsText(c: Config, s: State, stamp: string, f: Faults)
    requires s.handle == Open && c.name in s.files && s.files[c.name].Plain?
    ensures var r, b := Rotated(c, s, stamp, f), BackupName(c.name, stamp);
      if f.close || f.rename then r.files == s.files && r.size == s.size && r.handle != Open
      else
        && SetAside(c, r.files, b, s.files[c.name].text)
        && (if f.open then c.name !in r.files && r.handle == Nil && r.size == s.size
            else c.name in r.files && r.files[c.name] == Plain("") && r.handle == Open && r.size == 0)
        && forall name :: name != c.name && name != b && name != b + ".gz" ==> SameAt(r.files, s.files, name)
  {
    hide BackupName;
    NamesDiffer(c, stamp);
    var b := BackupName(c.name, stamp);
    var moved := Renamed(s.files, c.name, b);
    if c.compress && !f.close && !f.rename { CompressKeeps(c, moved, b, s.files[c.name].text, f.gzip); }
  }

  lemma AppendKeeps(c: Config, files: Files, line: string, b: string, text: string)
    requires b != c.name && b + ".gz" != c.name
    ensures var after := Append(files, c.name, line);
      && (SetAside(c, files, b, text) ==> SetAside(c, after, b, text))
      && forall name :: name != c.name ==> SameAt(after, files, name)
  {
  }

  /** How much of a record gets out of a call of Write on the file. */
  function Sent(f: Faults, size: nat): nat {
    match f.written
    case None => size
    case Some(n) => if n < size then n else size
  }

  /** Whatever fails in a Write to a usable file, no text is lost: the file's text is still
      there or has been set aside by a rotation, which happens only at the size limit; what
      is added to it or to the new file is what gets out of the record; size follows; and no
      other file is touched. */
  lemma WriteKeepsText(c: Config, s: State, data: string, stamp: string, f: Faults)
    requires s.handle == Open && c.name in s.files && s.files[c.name].Plain?
    ensures var (t, ok) := Written(c, s, Some(data), stamp, f);
      var text, b, record := s.files[c.name].text, BackupName(c.name, stamp), data + "\n";
      var moved := c.maxSizeMB > 0 && s.size >= c.maxSizeMB * 1_048_576 && !f.close && !f.rename;
      && (moved ==> SetAside(c, t.files, b, text))
      && (!moved ==> SameAt(t.files, s.files, b) && SameAt(t.files, s.files, b + ".gz"))
      && (c.name in t.files <==> !(moved && f.open))
      && (c.name in t.files ==>
            && t.files[c.name].Plain?
            && t.files[c.name].text == (if moved then "" else text)
                                       + (if t.handle == Open then record[..Sent(f, |record|)] else ""))
      && (ok <==> t.handle == Open && f.written == None)
      && t.size == (if moved && !f.open then 0 else s.size) + (if ok then |record| else 0)
      && forall name :: name != c.name && name != b && name != b + ".gz" ==> SameAt(t.files, s.files, name)
  {
    hide BackupName, Rotated, SetAside;
    NamesDiffer(c, stamp);
    RotationKeepsText(c, s, stamp, f);
    var record, b := data + "\n", BackupName(c.name, stamp);
    var r := if RotationDue(c, s) then Rotated(c, s, stamp, f) else s;
    var line := record[..Sent(f, |record|)];
    AppendKeeps(c, r.files, line, b, s.files[c.name].text);
    assert record[..|record|] == record && s.files[c.name].text + "" == s.files[c.name].text;
    var after := Append(r.files, c.name, line);
    forall name | name != c.name && name != b && name != b + ".gz"
      ensures SameAt(after, s.files, name) && SameAt(r.files, s.files, name)
    {
      assert SameAt(after, r.files, name) && SameAt(r.files, s.files, name);
    }
  }

  /** Write reports success exactly for a record that could be marshalled when the file is
      nil, or when it is usable, all of the record gets out and no rotation fails on the way;
      a record that cannot be marshalled and a file that is not usable change nothing. */
  lemma NilReportedIff(c: Config, s: State, data: Option<string>, stamp: string, f: Faults)
    requires s.handle == Open ==> c.name in s.files
    ensures var (t, ok) := Written(c, s, data, stamp, f);
      var due := c.maxSizeMB > 0 && s.size >= c.maxSizeMB * 1_048_576;
      && (ok <==> data.Some? && (s.handle == Nil || (s.handle == Open && f.written == None
                                                     && (due ==> !f.close && !f.rename && !f.open))))
      && (data == None || s.handle != Open ==> t == s)
  {
    hide BackupName, Compressed, Opened, Renamed, Append;
  }
}
