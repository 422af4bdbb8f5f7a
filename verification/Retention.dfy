/** cleanup (internal/adapter/outbound/file/writer.go:169-222): which backups are removed,
    by descending name and by age, and why name order is rotation order. */
module Retention {
  import opened Domain
  import F = RotatingFile
  import Sets
  import Text

  // ------------------------------------------------------------- Go's string order

  predicate Less(a: string, b: string) {
    b != "" && (a == "" || a[0] < b[0] || (a[0] == b[0] && Less(a[1..], b[1..])))
  }

  lemma {:induction false} LessIrreflexive(a: string)
    ensures !Less(a, a)
  {
    if a != "" { LessIrreflexive(a[1..]); }
  }

  lemma {:induction false} LessTransitive(a: string, b: string, c: string)
    requires Less(a, b) && Less(b, c)
    ensures Less(a, c)
  {
    if a != "" && a[0] == b[0] && b[0] == c[0] { LessTransitive(a[1..], b[1..], c[1..]); }
  }

  lemma {:induction false} LessTotal(a: string, b: string)
    ensures Less(a, b) || Less(b, a) || a == b
  {
    if a != "" && b != "" && a[0] == b[0] {
      LessTotal(a[1..], b[1..]);
      assert a == [a[0]] + a[1..] && b == [b[0]] + b[1..];
    }
  }

  /** Texts with equally long first parts are ordered by those, then by the rest. */
  lemma {:induction false} LessConcat(a: string, b: string, x: string, y: string)
    requires |a| == |b|
    ensures Less(a + x, b + y) <==> Less(a, b) || (a == b && Less(x, y))
  {
    if a == "" {
      assert a + x == x && b + y == y;
    } else {
      LessConcat(a[1..], b[1..], x, y);
      assert (a + x)[1..] == a[1..] + x && (b + y)[1..] == b[1..] + y;
      assert a == [a[0]] + a[1..] && b == [b[0]] + b[1..];
    }
  }

  // ------------------------------------------------------ sorting by descending name

  predicate Descending(xs: seq<string>) { forall i, j :: 0 <= i < j < |xs| ==> Less(xs[j], xs[i]) }

  predicate Distinct(xs: seq<string>) { forall i, j :: 0 <= i < j < |xs| ==> xs[i] != xs[j] }

  function Insert(x: string, xs: seq<string>): seq<string> {
    if xs == [] || Less(xs[0], x) then [x] + xs else [xs[0]] + Insert(x, xs[1..])
  }

  /** sort.Sort(sort.Reverse(...)). */
  function SortDescending(xs: seq<string>): seq<string> {
    if xs == [] then [] else Insert(xs[0], SortDescending(xs[1..]))
  }

  lemma {:induction false} InsertMembers(x: string, xs: seq<string>)
    ensures forall y :: y in Insert(x, xs) <==> y == x || y in xs
  {
    if xs != [] && !Less(xs[0], x) {
      InsertMembers(x, xs[1..]);
      assert xs == [xs[0]] + xs[1..];
    }
  }

  lemma {:induction false} InsertDescends(x: string, xs: seq<string>)
    requires Descending(xs) && x !in xs
    ensures Descending(Insert(x, xs)) && |Insert(x, xs)| == |xs| + 1
  {
    if xs != [] {
      var ys := Insert(x, xs);
      if Less(xs[0], x) {
        forall i, j | 0 <= i < j < |ys| ensures Less(ys[j], ys[i]) {
          if i == 0 && j > 1 { LessTransitive(xs[j - 1], xs[0], x); }
        }
      } else {
        var rest := Insert(x, xs[1..]);
        InsertDescends(x, xs[1..]);
        InsertMembers(x, xs[1..]);
        LessTotal(x, xs[0]);
        forall i, j | 0 <= i < j < |ys| ensures Less(ys[j], ys[i]) {
          if i == 0 {
            assert ys[j] == rest[j - 1] && rest[j - 1] in rest;
            if ys[j] != x { var k :| 0 <= k < |xs[1..]| && xs[1..][k] == ys[j]; assert Less(xs[k + 1], xs[0]); }
          } else {
            assert ys[i] == rest[i - 1] && ys[j] == rest[j - 1];
          }
        }
      }
    }
  }

  /** The sort keeps the names and puts them in strictly descending order. */
  lemma {:induction false} SortIsDescending(xs: seq<string>)
    requires Distinct(xs)
    ensures Descending(SortDescending(xs)) && |SortDescending(xs)| == |xs|
    ensures forall y :: y in SortDescending(xs) <==> y in xs
  {
    if xs != [] {
      var rest := xs[1..];
      assert xs == [xs[0]] + rest;
      assert Distinct(rest) by {
        forall i, j | 0 <= i < j < |rest| ensures rest[i] != rest[j] { assert xs[i + 1] != xs[j + 1]; }
      }
      SortIsDescending(rest);
      assert xs[0] !in rest;
      InsertDescends(xs[0], SortDescending(rest));
      InsertMembers(xs[0], SortDescending(rest));
    }
  }

  function Above(xs: seq<string>, name: string): set<string> { set x | x in xs && Less(name, x) }

  function Members(xs: seq<string>): set<string> { set x | x in xs }

  lemma NoMembers()
    ensures Members([]) == {}
  {
  }


  lemma MembersGrow(xs: seq<string>, i: nat)
    requires 0 < i <= |xs|
    ensures Members(xs[..i]) == Members(xs[..i - 1]) + {xs[i - 1]}
    ensures xs[i - 1] in Members(xs[..i - 1]) <==> exists j :: 0 <= j < i - 1 && xs[j] == xs[i - 1]
  {
    assert xs[..i] == xs[..i - 1] + [xs[i - 1]];
  }

  lemma {:induction false} PrefixSize(xs: seq<string>, i: nat)
    requires Distinct(xs) && i <= |xs|
    ensures |Members(xs[..i])| == i
  {
    hide Members;
    if i == 0 {
      NoMembers();
      assert xs[..0] == [];
    } else {
      PrefixSize(xs, i - 1);
      MembersGrow(xs, i);
    }
  }

  /** In descending order a name's position is the number of greater names. */
  lemma PositionIsRank(xs: seq<string>, i: nat)
    requires Descending(xs) && i < |xs|
    ensures |Above(xs, xs[i])| == i
  {
    forall a, b | 0 <= a < b < |xs| ensures xs[a] != xs[b] { LessIrreflexive(xs[a]); }
    PrefixSize(xs, i);
    forall x ensures x in Above(xs, xs[i]) <==> x in xs[..i] {
      if x in xs[..i] {
        var k :| 0 <= k < i && xs[k] == x;
      } else if x in xs {
        var k :| 0 <= k < |xs| && xs[k] == x;
        if k > i { if Less(xs[i], x) { LessTransitive(xs[i], x, xs[i]); LessIrreflexive(xs[i]); } }
        if k == i { LessIrreflexive(x); }
      }
    }
    assert Above(xs, xs[i]) == Members(xs[..i]);
  }

  // ------------------------------------------------------------------- the cleanup

  datatype Limits = Limits(maxAgeDays: int, maxBackups: int)

  const DAY: int := 24 * 3600 * 1_000_000_000

  function TrimGz(name: string): string {
    if F.Ext(name) == ".gz" && |name| >= 3 then name[..|name| - 3] else name
  }

  /** The names cleanup considers: the prefix, with compression the suffix, and a dot. */
  predicate IsBackup(c: F.Config, name: string) {
    && F.Base(c.name) + "." <= name
    && (c.compress ==> |name| >= 3 && name[|name| - 3..] == ".gz")
    && '.' in TrimGz(name)
  }

  function Newer(c: F.Config, listing: seq<string>, name: string): set<string> {
    set x | x in listing && IsBackup(c, x) && Less(name, x)
  }

  predicate TooOld(l: Limits, mtime: string -> Option<int>, now: int, name: string) {
    l.maxAgeDays * DAY > 0 && mtime(name).Some? && now - mtime(name).value > l.maxAgeDays * DAY
  }

  predicate Removed(c: F.Config, l: Limits, listing: seq<string>, mtime: string -> Option<int>, now: int, name: string)
  {
    && name in listing && IsBackup(c, name)
    && ((l.maxBackups > 0 && |Newer(c, listing, name)| >= l.maxBackups) || TooOld(l, mtime, now, name))
  }

  function Backups(c: F.Config, listing: seq<string>, n: nat): seq<string>
    requires n <= |listing|
  {
    if n == 0 then []
    else Backups(c, listing, n - 1) + (if IsBackup(c, listing[n - 1]) then [listing[n - 1]] else [])
  }

  lemma UnfoldBackups(c: F.Config, listing: seq<string>, n: nat)
    requires n <= |listing|
    ensures n == 0 ==> Backups(c, listing, n) == [] && Distinct([])
    ensures n > 0 ==>
      Backups(c, listing, n)
        == Backups(c, listing, n - 1) + (if IsBackup(c, listing[n - 1]) then [listing[n - 1]] else [])
  {
    hide IsBackup;
  }

  lemma PrefixGrows(listing: seq<string>, n: nat)
    requires 0 < n <= |listing| && Distinct(listing)
    ensures listing[..n] == listing[..n - 1] + [listing[n - 1]]
    ensures listing[n - 1] !in listing[..n - 1]
  {
  }

  lemma DistinctGrows(xs: seq<string>, x: string)
    requires Distinct(xs)
    ensures x !in xs ==> Distinct(xs + [x])
    ensures xs + [] == xs
  {
  }

  lemma {:induction false} BackupsMembers(c: F.Config, listing: seq<string>, n: nat)
    requires n <= |listing| && Distinct(listing)
    ensures forall x :: x in Backups(c, listing, n) <==> x in listing[..n] && IsBackup(c, x)
    ensures Distinct(Backups(c, listing, n))
  {
    hide IsBackup, Distinct, Backups;
    UnfoldBackups(c, listing, n);
    if n > 0 {
      BackupsMembers(c, listing, n - 1);
      PrefixGrows(listing, n);
      DistinctGrows(Backups(c, listing, n - 1), listing[n - 1]);
    }
  }

  lemma AboveIsNewer(c: F.Config, listing: seq<string>, sorted: seq<string>, name: string)
    requires forall x :: x in sorted <==> x in listing && IsBackup(c, x)
    ensures Above(sorted, name) == Newer(c, listing, name)
  {
  }

  method ListBackups(c: F.Config, listing: seq<string>) returns (backups: seq<string>)
    requires Distinct(listing)
    ensures forall x :: x in backups <==> x in listing && IsBackup(c, x)
    ensures Distinct(backups)
  {
    hide IsBackup;
    backups := [];
    for i := 0 to |listing|
      invariant backups == Backups(c, listing, i)
    {
      if IsBackup(c, listing[i]) { backups := backups + [listing[i]]; }
    }
    BackupsMembers(c, listing, |listing|);
    assert listing[..|listing|] == listing;
  }

  /** In the sorted list the position decides. */
  lemma RemovedByPosition(c: F.Config, l: Limits, listing: seq<string>, mtime: string -> Option<int>, now: int,
                          sorted: seq<string>, i: nat)
    requires Descending(sorted) && i < |sorted|
    requires forall x :: x in sorted <==> x in listing && IsBackup(c, x)
    ensures Removed(c, l, listing, mtime, now, sorted[i]) <==>
      (l.maxBackups > 0 && i >= l.maxBackups) || TooOld(l, mtime, now, sorted[i])
  {
    PositionIsRank(sorted, i);
    AboveIsNewer(c, listing, sorted, sorted[i]);
    assert sorted[i] in sorted;
    hide IsBackup, Newer, Above, Descending, TooOld;
  }

  method RemoveBackups(l: Limits, sorted: seq<string>, mtime: string -> Option<int>, now: int)
    returns (removed: set<string>)
    ensures forall name :: name in removed <==>
      exists i: nat :: i < |sorted| && name == sorted[i]
        && ((l.maxBackups > 0 && i >= l.maxBackups) || TooOld(l, mtime, now, name))
  {
    var maxAge := l.maxAgeDays * DAY;
    removed := {};
    for i := 0 to |sorted|
      invariant forall name :: name in removed <==>
        exists j: nat :: j < i && name == sorted[j]
          && ((l.maxBackups > 0 && j >= l.maxBackups) || TooOld(l, mtime, now, name))
    {
      var name := sorted[i];
      if l.maxBackups > 0 && i >= l.maxBackups {
        removed := removed + {name};
      } else if maxAge > 0 {
        var info := mtime(name);
        if info.Some? && now - info.value > maxAge { removed := removed + {name}; }
      }
    }
  }

  /** A listed backup goes exactly when enough listed backups have greater names or it is
      too old; nothing else is removed. */
  method Cleanup(c: F.Config, l: Limits, listing: seq<string>, mtime: string -> Option<int>, now: int)
    returns (removed: set<string>)
    requires Distinct(listing)
    ensures forall name :: name in removed <==> Removed(c, l, listing, mtime, now, name)
  {
    if l.maxAgeDays * DAY <= 0 && l.maxBackups <= 0 { return {}; }
    hide IsBackup, Newer, SortDescending, Distinct, Descending, TooOld;
    var backups := ListBackups(c, listing);
    SortIsDescending(backups);
    backups := SortDescending(backups);
    removed := RemoveBackups(l, backups, mtime, now);
    forall i: nat | i < |backups|
      ensures Removed(c, l, listing, mtime, now, backups[i]) <==>
        (l.maxBackups > 0 && i >= l.maxBackups) || TooOld(l, mtime, now, backups[i])
    {
      RemovedByPosition(c, l, listing, mtime, now, backups, i);
    }
  }

  // --------------------------------------------------------- names in order of time

  /** A UTC calendar second. */
  datatype Moment = Moment(year: nat, month: nat, day: nat, hour: nat, minute: nat, second: nat)

  predicate FourDigitYear(m: Moment) {
    m.year < 10000 && m.month < 100 && m.day < 100 && m.hour < 100 && m.minute < 100 && m.second < 100
  }

  predicate Earlier(a: Moment, b: Moment) {
    || a.year < b.year
    || (a.year == b.year && (a.month < b.month
    || (a.month == b.month && (a.day < b.day
    || (a.day == b.day && (a.hour < b.hour
    || (a.hour == b.hour && (a.minute < b.minute
    || (a.minute == b.minute && a.second < b.second)))))))))
  }

  function Pad(n: nat, width: nat): (s: string)
    ensures |s| == width
  {
    if width == 0 then "" else Pad(n / 10, width - 1) + [Text.DIGITS[n % 10]]
  }

  /** The layout 20060102T150405Z. */
  function Stamp(m: Moment): string {
    Pad(m.year, 4) + (Pad(m.month, 2) + (Pad(m.day, 2) + ("T" + (Pad(m.hour, 2) + (Pad(m.minute, 2)
    + (Pad(m.second, 2) + "Z"))))))
  }

  function Power10(width: nat): nat { if width == 0 then 1 else 10 * Power10(width - 1) }

  lemma DigitOrder(a: nat, b: nat)
    requires a < 10 && b < 10
    ensures Less([Text.DIGITS[a]], [Text.DIGITS[b]]) <==> a < b
    ensures [Text.DIGITS[a]] == [Text.DIGITS[b]] <==> a == b
  {
    assert [Text.DIGITS[a]][0] == Text.DIGITS[a] && [Text.DIGITS[b]][0] == Text.DIGITS[b];
  }

  lemma DigitsSplit(n: nat, m: nat)
    ensures n < m <==> n / 10 < m / 10 || (n / 10 == m / 10 && n % 10 < m % 10)
    ensures n == m <==> n / 10 == m / 10 && n % 10 == m % 10
  {
  }

  lemma {:induction false} PadOrder(n: nat, m: nat, width: nat)
    requires n < Power10(width) && m < Power10(width)
    ensures Less(Pad(n, width), Pad(m, width)) <==> n < m
    ensures Pad(n, width) == Pad(m, width) <==> n == m
  {
    if width > 0 {
      PadOrder(n / 10, m / 10, width - 1);
      DigitsSplit(n, m);
      DigitOrder(n % 10, m % 10);
      hide Less;
      var a, b, x, y := Pad(n / 10, width - 1), Pad(m / 10, width - 1), [Text.DIGITS[n % 10]], [Text.DIGITS[m % 10]];
      LessConcat(a, b, x, y);
      assert (a + x)[..width - 1] == a && (b + y)[..width - 1] == b;
      assert (a + x)[width - 1..] == x && (b + y)[width - 1..] == y;
    }
  }

  /** One number of the layout, then the rest. */
  lemma FieldOrder(n: nat, m: nat, width: nat, x: string, y: string)
    requires n < Power10(width) && m < Power10(width)
    ensures Less(Pad(n, width) + x, Pad(m, width) + y) <==> n < m || (n == m && Less(x, y))
  {
    hide Less;
    PadOrder(n, m, width);
    LessConcat(Pad(n, width), Pad(m, width), x, y);
  }

  lemma Powers()
    ensures Power10(2) == 100 && Power10(4) == 10000
  {
    assert Power10(1) == 10 && Power10(3) == 1000;
  }

  /** Stamps sort as the seconds they name. */
  lemma StampOrder(a: Moment, b: Moment)
    requires FourDigitYear(a) && FourDigitYear(b)
    ensures Less(Stamp(a), Stamp(b)) <==> Earlier(a, b)
    ensures |Stamp(a)| == 16
  {
    hide Less, Pad, Power10;
    Powers();
    LessIrreflexive("Z");
    var a6, b6 := Pad(a.second, 2) + "Z", Pad(b.second, 2) + "Z";
    var a5, b5 := Pad(a.minute, 2) + a6, Pad(b.minute, 2) + b6;
    var a4, b4 := Pad(a.hour, 2) + a5, Pad(b.hour, 2) + b5;
    var a3, b3 := Pad(a.day, 2) + ("T" + a4), Pad(b.day, 2) + ("T" + b4);
    var a2, b2 := Pad(a.month, 2) + a3, Pad(b.month, 2) + b3;
    FieldOrder(a.second, b.second, 2, "Z", "Z");
    FieldOrder(a.minute, b.minute, 2, a6, b6);
    FieldOrder(a.hour, b.hour, 2, a5, b5);
    LessConcat("T", "T", a4, b4);
    LessIrreflexive("T");
    FieldOrder(a.day, b.day, 2, "T" + a4, "T" + b4);
    FieldOrder(a.month, b.month, 2, a3, b3);
    FieldOrder(a.year, b.year, 4, a2, b2);
  }

  lemma TwoDigits(n: nat)
    ensures Pad(n, 2) == [Text.DIGITS[n / 10 % 10], Text.DIGITS[n % 10]]
  {
    assert Pad(n / 10, 1) == [] + [Text.DIGITS[n / 10 % 10]];
  }

  lemma LastDigit(n: nat, width: nat)
    requires width > 0
    ensures Pad(n, width) == Pad(n / 10, width - 1) + [Text.DIGITS[n % 10]]
  {
  }

  /** The layout, at the second that Go's documentation writes it with. */
  lemma LayoutOf()
    ensures Stamp(Moment(2006, 1, 2, 15, 4, 5)) == "20060102T150405Z"
  {
    hide Pad;
    LastDigit(2006, 4); LastDigit(200, 3);
    TwoDigits(20); TwoDigits(1); TwoDigits(2); TwoDigits(15); TwoDigits(4); TwoDigits(5);
  }

  function NameAt(c: F.Config, m: Moment): string { F.StoredName(c, Stamp(m)) }

  lemma NameParts(c: F.Config, m: Moment)
    ensures NameAt(c, m) == F.Base(c.name) + "." + (Stamp(m) + (F.Ext(c.name) + (if c.compress then ".gz" else "")))
  {
    hide Stamp, F.Base, F.Ext;
  }

  /** Backup names sort as their rotation times. */
  lemma NameOrder(c: F.Config, a: Moment, b: Moment)
    requires FourDigitYear(a) && FourDigitYear(b)
    ensures Less(NameAt(c, a), NameAt(c, b)) <==> Earlier(a, b)
  {
    hide Less, Stamp, Earlier, NameAt, FourDigitYear, F.Base, F.Ext;
    var p, e := F.Base(c.name) + ".", F.Ext(c.name) + (if c.compress then ".gz" else "");
    StampOrder(a, b);
    StampOrder(b, a);
    NameParts(c, a);
    NameParts(c, b);
    LessConcat(p, p, Stamp(a) + e, Stamp(b) + e);
    LessConcat(Stamp(a), Stamp(b), e, e);
    LessIrreflexive(p);
    LessIrreflexive(e);
  }

  // ------------------------------------------------------- what retention amounts to

  predicate MomentsOK(ms: seq<Moment>) {
    && (forall i :: 0 <= i < |ms| ==> FourDigitYear(ms[i]))
    && (forall i, j :: 0 <= i < j < |ms| ==> ms[i] != ms[j])
  }

  /** The directory holds the active file and one backup per rotation moment. */
  predicate OwnFiles(c: F.Config, listing: seq<string>, ms: seq<Moment>) {
    && Distinct(listing)
    && c.name in listing
    && (forall x :: x in listing ==> x == c.name || exists i :: 0 <= i < |ms| && x == NameAt(c, ms[i]))
    && (forall i :: 0 <= i < |ms| ==> NameAt(c, ms[i]) in listing)
  }

  function Later(ms: seq<Moment>, m: Moment): set<nat> { set j: nat | j < |ms| && Earlier(m, ms[j]) }

  lemma {:induction false} ExtOfGz(s: string)
    ensures F.Ext(s + ".gz") == ".gz"
  {
    var t := s + ".gz";
    assert t[..|t| - 1] == s + ".g" && (s + ".g")[..|s| + 1] == s + ".";
    assert F.Ext(s + ".") == "." && F.Ext(s + ".g") == ".g";
  }

  lemma GzSuffix(name: string)
    ensures F.Ext(name) == ".gz" <==> |name| >= 3 && name[|name| - 3..] == ".gz"
  {
    hide F.Ext;
    if F.Ext(name) == ".gz" {
      F.ExtIsSuffix(name);
      var front := name[..|name| - 3];
      assert name == front + ".gz" && |front| == |name| - 3;
      assert (front + ".gz")[|front|..] == ".gz";
    }
    if |name| >= 3 && name[|name| - 3..] == ".gz" {
      assert name == name[..|name| - 3] + ".gz";
      ExtOfGz(name[..|name| - 3]);
    }
  }

  /** What cleanup takes for a backup: a name that starts with the file's, up to a dot, and
      with compression ends in ".gz", but for the file's name with ".gz" alone. */
  lemma IsBackupIff(c: F.Config, name: string)
    ensures var base := F.Base(c.name);
      IsBackup(c, name) <==>
        && base + "." <= name
        && (c.compress ==> |name| >= 3 && name[|name| - 3..] == ".gz")
        && (name == base + ".gz" ==> '.' in base)
  {
    hide F.Ext, F.Base;
    var base := F.Base(c.name);
    GzSuffix(name);
    if base + "." <= name {
      assert name[|base|] == '.' && name[..|base|] == base;
      if F.Ext(name) == ".gz" {
        var cut := TrimGz(name);
        if |cut| > |base| {
          assert cut[|base|] == '.';
          assert name != base + ".gz";
        } else {
          assert name[|cut|..] == ".gz";
          assert |name| == |base| + 3;
          assert name == base + ".gz" && cut == base;
        }
      } else {
        GzSuffix(base + ".gz");
      }
    }
  }

  /** Cleanup leaves every other file alone. */
  lemma ForeignFilesStay(c: F.Config, l: Limits, listing: seq<string>, mtime: string -> Option<int>, now: int,
                         name: string)
    requires Removed(c, l, listing, mtime, now, name)
    ensures name in listing && F.Base(c.name) + "." <= name
    ensures c.compress ==> |name| >= 3 && name[|name| - 3..] == ".gz"
  {
    IsBackupIff(c, name);
  }

  lemma StampLength(m: Moment)
    ensures |Stamp(m)| == 16
  {
  }

  lemma StoredIsBackup(c: F.Config, m: Moment)
    ensures IsBackup(c, NameAt(c, m))
  {
    var b, p := F.BackupName(c.name, Stamp(m)), F.Base(c.name) + ".";
    var name := NameAt(c, m);
    assert b[|F.Base(c.name)|] == '.' && p <= b <= name;
    if c.compress {
      ExtOfGz(b);
      assert name[..|name| - 3] == b && name[|name| - 3..] == ".gz";
    } else {
      var cut := TrimGz(name);
      StampLength(m);
      assert cut[|F.Base(c.name)|] == '.';
    }
  }

  lemma ActiveIsNoBackup(c: F.Config)
    requires c.compress && F.Ext(c.name) != ".gz"
    ensures !IsBackup(c, c.name)
  {
    var n := |c.name|;
    if n >= 3 && c.name[n - 3..] == ".gz" {
      assert c.name == c.name[..n - 3] + ".gz";
      ExtOfGz(c.name[..n - 3]);
    }
  }

  lemma NoTie(a: Moment, b: Moment)
    ensures Earlier(a, b) || Earlier(b, a) || a == b
    ensures !Earlier(a, a)
  {
  }

  function LaterNames(c: F.Config, ms: seq<Moment>, m: Moment): map<nat, string> {
    map j | j in Later(ms, m) :: NameAt(c, ms[j])
  }

  lemma NamesDiffer(c: F.Config, a: Moment, b: Moment)
    requires FourDigitYear(a) && FourDigitYear(b) && NameAt(c, a) == NameAt(c, b)
    ensures a == b
  {
    NoTie(a, b);
    NameOrder(c, a, b);
    NameOrder(c, b, a);
    hide NameAt, Less, Earlier;
    LessIrreflexive(NameAt(c, a));
  }

  lemma LaterNamesSize(c: F.Config, ms: seq<Moment>, m: Moment)
    requires MomentsOK(ms)
    ensures |LaterNames(c, ms, m).Values| == |Later(ms, m)|
  {
    hide NameAt, Earlier, FourDigitYear;
    var names := LaterNames(c, ms, m);
    forall x, y | x in names && y in names && names[x] == names[y] ensures x == y {
      NamesDiffer(c, ms[x], ms[y]);
    }
    Sets.InjectiveMapSize(names);
    assert names.Keys == Later(ms, m);
  }

  lemma ActiveHasOtherName(c: F.Config, m: Moment)
    ensures NameAt(c, m) != c.name
  {
    F.ExtIsSuffix(c.name);
    assert |NameAt(c, m)| > |F.Base(c.name)| + |F.Ext(c.name)| == |c.name|;
  }

  predicate ActiveIsNewer(c: F.Config, m: Moment) { IsBackup(c, c.name) && Less(NameAt(c, m), c.name) }

  lemma NewerIsLater(c: F.Config, listing: seq<string>, ms: seq<Moment>, i: nat, x: string)
    requires MomentsOK(ms) && OwnFiles(c, listing, ms) && i < |ms|
    ensures x in Newer(c, listing, NameAt(c, ms[i])) <==>
      || (x == c.name && ActiveIsNewer(c, ms[i]))
      || exists j: nat :: j < |ms| && Earlier(ms[i], ms[j]) && x == NameAt(c, ms[j])
  {
    hide IsBackup, NameAt, Less, Earlier, FourDigitYear;
    if x in Newer(c, listing, NameAt(c, ms[i])) && x != c.name {
      var j: nat :| j < |ms| && x == NameAt(c, ms[j]);
      NameOrder(c, ms[i], ms[j]);
    }
    if j: nat :| j < |ms| && Earlier(ms[i], ms[j]) && x == NameAt(c, ms[j]) {
      NameOrder(c, ms[i], ms[j]);
      StoredIsBackup(c, ms[j]);
    }
  }

  lemma LaterNamesAre(c: F.Config, ms: seq<Moment>, m: Moment, x: string)
    ensures x in LaterNames(c, ms, m).Values <==>
      exists j: nat :: j < |ms| && Earlier(m, ms[j]) && x == NameAt(c, ms[j])
  {
    hide NameAt, Earlier;
    var names := LaterNames(c, ms, m);
    if j: nat :| j < |ms| && Earlier(m, ms[j]) && x == NameAt(c, ms[j]) { assert j in names && names[j] == x; }
  }

  lemma NewerAreLater(c: F.Config, listing: seq<string>, ms: seq<Moment>, i: nat)
    requires MomentsOK(ms) && OwnFiles(c, listing, ms) && i < |ms|
    ensures |Newer(c, listing, NameAt(c, ms[i]))| == |Later(ms, ms[i])| + (if ActiveIsNewer(c, ms[i]) then 1 else 0)
  {
    hide IsBackup, NameAt, Less, Earlier, FourDigitYear, Newer, OwnFiles, ActiveIsNewer, MomentsOK, LaterNames, Later;
    var names := LaterNames(c, ms, ms[i]).Values;
    var active := if ActiveIsNewer(c, ms[i]) then {c.name} else {};
    LaterNamesSize(c, ms, ms[i]);
    forall x ensures x in names + active <==> x in Newer(c, listing, NameAt(c, ms[i])) {
      NewerIsLater(c, listing, ms, i, x);
      LaterNamesAre(c, ms, ms[i], x);
    }
    assert names + active == Newer(c, listing, NameAt(c, ms[i]));
    LaterNamesAre(c, ms, ms[i], c.name);
    forall j: nat | j < |ms| ensures NameAt(c, ms[j]) != c.name { ActiveHasOtherName(c, ms[j]); }
    assert names !! active;
  }

  /** Over age: last changed more than so many days of 24 hours ago, by nanosecond times. */
  predicate OverAge(l: Limits, mtime: Option<int>, now: int) {
    l.maxAgeDays > 0 && mtime.Some? && now - mtime.value > l.maxAgeDays * 86_400_000_000_000
  }

  lemma TooOldIff(l: Limits, mtime: string -> Option<int>, now: int, name: string)
    ensures TooOld(l, mtime, now, name) <==> OverAge(l, mtime(name), now)
  {
  }

  /** With compression, on a directory of the writer's own files, cleanup removes a backup
      exactly when MaxBackups backups were rotated after it or it is over age: what stays
      are the newest MaxBackups that are within age. */
  lemma KeepsNewest(c: F.Config, l: Limits, listing: seq<string>, mtime: string -> Option<int>, now: int,
                    ms: seq<Moment>, i: nat)
    requires c.compress && F.Ext(c.name) != ".gz" && MomentsOK(ms) && OwnFiles(c, listing, ms) && i < |ms|
    ensures Removed(c, l, listing, mtime, now, NameAt(c, ms[i])) <==>
      (l.maxBackups > 0 && |Later(ms, ms[i])| >= l.maxBackups) || OverAge(l, mtime(NameAt(c, ms[i])), now)
    ensures !Removed(c, l, listing, mtime, now, c.name)
  {
    TooOldIff(l, mtime, now, NameAt(c, ms[i]));
    ActiveIsNoBackup(c);
    NewerAreLater(c, listing, ms, i);
    StoredIsBackup(c, ms[i]);
    hide IsBackup, NameAt, Newer, Later, TooOld, OverAge, F.Ext;
  }

  lemma {:induction false} ExtStartsWithDot(name: string)
    requires F.Ext(name) != ""
    ensures F.Ext(name)[0] == '.'
  {
    if name[|name| - 1] != '.' { ExtStartsWithDot(name[..|name| - 1]); }
  }

  lemma ActiveIsBackup(c: F.Config)
    requires !c.compress && F.Ext(c.name) != "" && F.Ext(c.name) != ".gz"
    ensures IsBackup(c, c.name)
  {
    F.ExtIsSuffix(c.name);
    ExtStartsWithDot(c.name);
    var base, e := F.Base(c.name), F.Ext(c.name);
    hide F.Ext, F.Base;
    assert c.name[|base|] == '.';
    assert c.name == base + "." + e[1..];
  }

  lemma FirstDecides(a: string, b: string)
    requires a != "" && b != "" && a[0] < b[0]
    ensures Less(a, b)
  {
  }

  lemma DigitBelow(base: string, stamp: string, e: string)
    requires |e| >= 2 && e[0] == '.' && stamp != "" && stamp[0] < e[1]
    ensures Less(base + "." + stamp + e, base + e)
  {
    hide Less;
    var rest, stamped := e[1..], stamp + e;
    assert base + "." + stamp + e == base + "." + stamped;
    assert base + e == base + "." + rest;
    LessIrreflexive(base + ".");
    LessConcat(base + ".", base + ".", stamped, rest);
    FirstDecides(stamped, rest);
  }

  lemma {:induction false} PadDigits(n: nat, width: nat)
    ensures forall i :: 0 <= i < width ==> Text.IsDigit(Pad(n, width)[i])
  {
    if width > 0 { PadDigits(n / 10, width - 1); }
  }

  lemma StampStartsWithDigit(m: Moment)
    ensures Stamp(m) != "" && Stamp(m)[0] <= '9'
  {
    PadDigits(m.year, 4);
    assert Stamp(m)[0] == Pad(m.year, 4)[0];
  }

  lemma ActiveIsNewest(c: F.Config, m: Moment)
    requires !c.compress && |F.Ext(c.name)| >= 2 && F.Ext(c.name)[1] > '9'
    ensures Less(NameAt(c, m), c.name)
  {
    F.ExtIsSuffix(c.name);
    ExtStartsWithDot(c.name);
    StampStartsWithDigit(m);
    var base, e := F.Base(c.name), F.Ext(c.name);
    assert c.name == base + e;
    assert NameAt(c, m) == base + "." + Stamp(m) + e;
    hide Stamp, NameAt, F.Ext, F.Base, Less;
    DigitBelow(base, Stamp(m), e);
  }

  lemma NothingAboveActive(c: F.Config, listing: seq<string>, ms: seq<Moment>)
    requires !c.compress && |F.Ext(c.name)| >= 2 && F.Ext(c.name)[1] > '9'
    requires OwnFiles(c, listing, ms)
    ensures Newer(c, listing, c.name) == {}
  {
    hide IsBackup, NameAt, Less, F.Ext;
    forall x | x in listing ensures !Less(c.name, x) {
      LessIrreflexive(c.name);
      if x != c.name {
        var i: nat :| i < |ms| && x == NameAt(c, ms[i]);
        ActiveIsNewest(c, ms[i]);
        if Less(c.name, x) { LessTransitive(c.name, x, c.name); }
      }
    }
  }

  /** Without compression the active file is itself listed as a backup, above all of them
      when its extension starts with a letter: it takes one of the places, so one backup
      fewer stays. */
  lemma KeepsOneFewer(c: F.Config, l: Limits, listing: seq<string>, mtime: string -> Option<int>, now: int,
                      ms: seq<Moment>, i: nat)
    requires !c.compress && |F.Ext(c.name)| >= 2 && F.Ext(c.name)[1] > '9' && F.Ext(c.name) != ".gz"
    requires MomentsOK(ms) && OwnFiles(c, listing, ms) && i < |ms|
    ensures Removed(c, l, listing, mtime, now, NameAt(c, ms[i])) <==>
      (l.maxBackups > 0 && |Later(ms, ms[i])| >= l.maxBackups - 1) || OverAge(l, mtime(NameAt(c, ms[i])), now)
    ensures Removed(c, l, listing, mtime, now, c.name) <==> OverAge(l, mtime(c.name), now)
  {
    TooOldIff(l, mtime, now, NameAt(c, ms[i]));
    TooOldIff(l, mtime, now, c.name);
    ActiveIsBackup(c);
    ActiveIsNewest(c, ms[i]);
    NewerAreLater(c, listing, ms, i);
    StoredIsBackup(c, ms[i]);
    NothingAboveActive(c, listing, ms);
    hide IsBackup, NameAt, Newer, Later, TooOld, OverAge, F.Ext;
  }
}
