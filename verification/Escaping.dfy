/** The two escapes of the line protocol (internal/adapter/outbound/influxdb/writer.go:
    329-345): backslash-escaped tag values and quoted field strings, with their readers. */
module Escaping {
  import opened Domain

  // ------------------------------------------------------------------- tag values

  /** strings.ReplaceAll for a one-character pattern. */
  function ReplaceAll(s: string, c: char, with: string): string {
    if s == "" then "" else (if s[0] == c then with else [s[0]]) + ReplaceAll(s[1..], c, with)
  }

  function EscapeTag(s: string): string {
    if s == "" then "unknown"
    else
      var s1 := ReplaceAll(s, '\\', "\\\\");
      var s2 := ReplaceAll(s1, ' ', "\\ ");
      var s3 := ReplaceAll(s2, ',', "\\,");
      ReplaceAll(s3, '=', "\\=")
  }

  predicate Special(c: char) { c == '\\' || c == ' ' || c == ',' || c == '=' }

  function EscapeChar(c: char): string { if Special(c) then ['\\', c] else [c] }

  /** The single pass: every special character gets a backslash, nothing else changes. */
  function EscapeEach(s: string): string {
    if s == "" then "" else EscapeChar(s[0]) + EscapeEach(s[1..])
  }

  lemma ReplaceNothing(c: char, with: string)
    ensures ReplaceAll("", c, with) == ""
  {
  }

  lemma UnfoldReplace(s: string, c: char, with: string)
    requires s != ""
    ensures ReplaceAll(s, c, with) == (if s[0] == c then with else [s[0]]) + ReplaceAll(s[1..], c, with)
  {
  }

  lemma {:induction false} ReplaceInConcat(a: string, b: string, c: char, with: string)
    ensures ReplaceAll(a + b, c, with) == ReplaceAll(a, c, with) + ReplaceAll(b, c, with)
  {
    hide ReplaceAll;
    if a == "" {
      assert a + b == b;
      ReplaceNothing(c, with);
      assert "" + ReplaceAll(b, c, with) == ReplaceAll(b, c, with);
    } else {
      ReplaceInConcat(a[1..], b, c, with);
      UnfoldReplace(a, c, with);
      UnfoldReplace(a + b, c, with);
      assert (a + b)[0] == a[0] && (a + b)[1..] == a[1..] + b;
      var head := if a[0] == c then with else [a[0]];
      assert head + (ReplaceAll(a[1..], c, with) + ReplaceAll(b, c, with))
          == head + ReplaceAll(a[1..], c, with) + ReplaceAll(b, c, with);
    }
  }

  lemma ReplaceInChar(x: char, c: char, with: string)
    ensures ReplaceAll([x], c, with) == if x == c then with else [x]
  {
    assert ReplaceAll([x][1..], c, with) == "";
  }

  function Passes(s: string): string {
    ReplaceAll(ReplaceAll(ReplaceAll(ReplaceAll(s, '\\', "\\\\"), ' ', "\\ "), ',', "\\,"), '=', "\\=")
  }

  lemma PassesOnEscaped(x: char, c: char, with: string)
    requires c != '\\' && c != x
    ensures ReplaceAll(['\\', x], c, with) == ['\\', x]
  {
    ReplaceInConcat(['\\'], [x], c, with);
    ReplaceInChar('\\', c, with);
    ReplaceInChar(x, c, with);
    assert ['\\'] + [x] == ['\\', x];
  }

  lemma PassesKeepBackslash()
    ensures ReplaceAll("\\\\", ' ', "\\ ") == "\\\\"
    ensures ReplaceAll("\\\\", ',', "\\,") == "\\\\"
    ensures ReplaceAll("\\\\", '=', "\\=") == "\\\\"
  {
    PassesOnEscaped('\\', ' ', "\\ ");
    PassesOnEscaped('\\', ',', "\\,");
    PassesOnEscaped('\\', '=', "\\=");
  }

  lemma PassesOnChar(x: char)
    ensures Passes([x]) == EscapeChar(x)
  {
    ReplaceInChar(x, '\\', "\\\\");
    var s1 := ReplaceAll([x], '\\', "\\\\");
    if x == '\\' {
      assert s1 == ['\\'] + ['\\'];
      PassesKeepBackslash();
    } else {
      ReplaceInChar(x, ' ', "\\ ");
      ReplaceInChar(x, ',', "\\,");
      ReplaceInChar(x, '=', "\\=");
      PassesOnEscaped(' ', ',', "\\,");
      PassesOnEscaped(' ', '=', "\\=");
      PassesOnEscaped(',', '=', "\\=");
    }
  }

  lemma PassesInConcat(a: string, b: string)
    ensures Passes(a + b) == Passes(a) + Passes(b)
  {
    ReplaceInConcat(a, b, '\\', "\\\\");
    var a1, b1 := ReplaceAll(a, '\\', "\\\\"), ReplaceAll(b, '\\', "\\\\");
    ReplaceInConcat(a1, b1, ' ', "\\ ");
    var a2, b2 := ReplaceAll(a1, ' ', "\\ "), ReplaceAll(b1, ' ', "\\ ");
    ReplaceInConcat(a2, b2, ',', "\\,");
    ReplaceInConcat(ReplaceAll(a2, ',', "\\,"), ReplaceAll(b2, ',', "\\,"), '=', "\\=");
  }

  lemma {:induction false} PassesAreEach(s: string)
    ensures Passes(s) == EscapeEach(s)
  {
    if s != "" {
      PassesInConcat([s[0]], s[1..]);
      PassesOnChar(s[0]);
      PassesAreEach(s[1..]);
      assert s == [s[0]] + s[1..];
    }
  }

  /** The four successive passes are one pass over the characters. */
  lemma FourPassesAreOne(s: string)
    ensures EscapeTag(s) == if s == "" then "unknown" else EscapeEach(s)
  {
    PassesAreEach(s);
  }

  lemma {:induction false} EscapeKeepsNewlines(s: string)
    ensures '\n' in EscapeEach(s) <==> '\n' in s
  {
    if s != "" {
      EscapeKeepsNewlines(s[1..]);
      assert s == [s[0]] + s[1..];
    }
  }

  function Unescape(s: string): string {
    if s == "" then ""
    else if s[0] == '\\' && |s| > 1 then [s[1]] + Unescape(s[2..])
    else [s[0]] + Unescape(s[1..])
  }

  /** Undoing the escape gives the tag back, however many backslashes it ends with. */
  lemma {:induction false} UnescapeEach(s: string)
    ensures Unescape(EscapeEach(s)) == s
  {
    if s != "" {
      var t := EscapeEach(s[1..]);
      UnescapeEach(s[1..]);
      if Special(s[0]) {
        assert (['\\', s[0]] + t)[2..] == t;
      } else {
        assert ([s[0]] + t)[1..] == t;
      }
    }
  }

  lemma {:induction false} PlainStays(s: string)
    requires forall i :: 0 <= i < |s| ==> !Special(s[i])
    ensures EscapeEach(s) == s
  {
    if s != "" {
      PlainStays(s[1..]);
      assert [s[0]] + s[1..] == s;
    }
  }

  lemma UnknownStays()
    ensures EscapeEach("unknown") == "unknown"
  {
    hide EscapeEach;
    PlainStays("unknown");
  }

  lemma EscapeTagReads(s: string)
    ensures Unescape(EscapeTag(s)) == if s == "" then "unknown" else s
    ensures EscapeTag("unknown") == "unknown"
  {
    UnknownStays();
    FourPassesAreOne(s);
    FourPassesAreOne("unknown");
    hide EscapeTag, EscapeEach, Unescape;
    UnescapeEach(s);
    UnescapeEach("unknown");
  }

  /** Two tag values print alike exactly when they are equal, save that the empty value and
      the word "unknown" cannot be told apart. */
  lemma TagsClashOnlyOnUnknown(s: string, t: string)
    ensures EscapeTag(s) == EscapeTag(t) <==>
      s == t || (s in {"", "unknown"} && t in {"", "unknown"})
  {
    EscapeTagReads(s);
    EscapeTagReads(t);
  }

  // ------------------------------------------------------------------- the scanner

  /** The first of the stop characters that no backslash precedes, or the end. */
  function Find(s: string, stops: string): (n: nat)
    ensures n <= |s|
  {
    if s == "" then 0
    else if s[0] == '\\' then (if |s| == 1 then 1 else 2 + Find(s[2..], stops))
    else if s[0] in stops then 0
    else 1 + Find(s[1..], stops)
  }

  lemma FindStep(head: string, rest: string, stops: string)
    requires head != ""
    requires if head[0] == '\\' then |head| == 2 else |head| == 1 && head[0] !in stops
    ensures Find(head + rest, stops) == |head| + Find(rest, stops)
  {
    assert (head + rest)[|head|..] == rest;
  }

  /** A scan passes over an escaped value whole: it shows no bare delimiter and leaves no
      backslash hanging. */
  lemma {:induction false} FindPastEscaped(s: string, rest: string, stops: string)
    requires forall c :: c in stops ==> c in " ,="
    ensures Find(EscapeEach(s) + rest, stops) == |EscapeEach(s)| + Find(rest, stops)
  {
    hide Find;
    if s == "" {
      assert EscapeEach(s) + rest == rest;
    } else {
      var t := EscapeEach(s[1..]);
      FindPastEscaped(s[1..], rest, stops);
      FindStep(EscapeChar(s[0]), t + rest, stops);
      assert EscapeEach(s) + rest == EscapeChar(s[0]) + (t + rest);
    }
  }

  predicate Plain(s: string, stops: string) {
    forall i :: 0 <= i < |s| ==> s[i] != '\\' && s[i] !in stops
  }

  lemma {:induction false} FindPastPlain(s: string, rest: string, stops: string)
    requires Plain(s, stops)
    ensures Find(s + rest, stops) == |s| + Find(rest, stops)
  {
    hide Find;
    if s == "" {
      assert s + rest == rest;
    } else {
      FindPastPlain(s[1..], rest, stops);
      FindStep([s[0]], s[1..] + rest, stops);
      assert s + rest == [s[0]] + (s[1..] + rest);
    }
  }

  // --------------------------------------------------------------- quoted strings

  const HEX: string := "0123456789abcdef"

  function Hex(n: nat, width: nat): string {
    if width == 0 then "" else Hex(n / 16, width - 1) + [HEX[n % 16]]
  }

  function HexDigit(c: char): nat {
    if '0' <= c <= '9' then c as int - '0' as int
    else if 'a' <= c <= 'f' then c as int - 'a' as int + 10
    else 0
  }

  function HexValue(s: string): nat {
    if s == "" then 0 else HexValue(s[..|s| - 1]) * 16 + HexDigit(s[|s| - 1])
  }

  function Power16(width: nat): nat { if width == 0 then 1 else 16 * Power16(width - 1) }

  lemma HexDigitReads(d: nat)
    requires d < 16
    ensures HexDigit(HEX[d]) == d && HEX[d] != '\\' && HEX[d] != '"'
  {
  }

  lemma {:induction false} HexReads(n: nat, width: nat)
    requires n < Power16(width)
    ensures |Hex(n, width)| == width && HexValue(Hex(n, width)) == n && Plain(Hex(n, width), "\"")
  {
    if width > 0 {
      var t := Hex(n / 16, width - 1);
      HexReads(n / 16, width - 1);
      HexDigitReads(n % 16);
      hide HexDigit;
      assert (t + [HEX[n % 16]])[..|t|] == t;
    }
  }

  /** What strconv.IsPrint says: fixed on ASCII, a table beyond it. */
  predicate Printable(isPrint: char -> bool, c: char) {
    if c < '\U{007F}' then c >= ' ' else c != '\U{007F}' && isPrint(c)
  }

  /** The letter of a named control escape. */
  function ControlLetter(c: char): Option<char> {
    if c == '\U{0007}' then Some('a') else if c == '\U{0008}' then Some('b')
    else if c == '\U{000C}' then Some('f') else if c == '\n' then Some('n')
    else if c == '\r' then Some('r') else if c == '\t' then Some('t')
    else if c == '\U{000B}' then Some('v') else None
  }

  function ControlNamed(k: char): Option<char> {
    if k == 'a' then Some('\U{0007}') else if k == 'b' then Some('\U{0008}')
    else if k == 'f' then Some('\U{000C}') else if k == 'n' then Some('\n')
    else if k == 'r' then Some('\r') else if k == 't' then Some('\t')
    else if k == 'v' then Some('\U{000B}') else None
  }

  /** The letter and width of a hexadecimal escape. */
  function HexKind(c: char): char {
    if c < ' ' || c == '\U{007F}' then 'x' else if c as int < 0x1_0000 then 'u' else 'U'
  }

  function HexDigits(c: char): nat {
    if HexKind(c) == 'x' then 2 else if HexKind(c) == 'u' then 4 else 8
  }

  lemma {:induction false} HexSize(n: nat, width: nat)
    ensures |Hex(n, width)| == width
  {
    if width > 0 { HexSize(n / 16, width - 1); }
  }

  /** One character of a %q string. */
  function QuoteChar(isPrint: char -> bool, c: char): string {
    if c == '"' || c == '\\' then ['\\', c]
    else if Printable(isPrint, c) then [c]
    else if ControlLetter(c).Some? then ['\\', ControlLetter(c).value]
    else ['\\', HexKind(c)] + Hex(c as int, HexDigits(c))
  }

  /** How a character is quoted: as itself, by a backslash and one character, or by a letter
      and the two, four or eight digits of its code. */
  lemma QuotedSize(isPrint: char -> bool, c: char)
    ensures var q, n := QuoteChar(isPrint, c), c as int;
      if c == '"' || c == '\\' || 0x07 <= n <= 0x0D then |q| == 2 && q[0] == '\\'
      else if ' ' <= c <= '~' || (n > 0x7F && isPrint(c)) then q == [c]
      else if n <= 0x7F then |q| == 4 && q[..2] == "\\x"
      else if n <= 0xFFFF then |q| == 6 && q[..2] == "\\u"
      else |q| == 10 && q[..2] == "\\U"
  {
    hide Hex;
    HexSize(c as int, HexDigits(c));
  }

  predicate NeedsHex(isPrint: char -> bool, c: char) {
    c != '"' && c != '\\' && !Printable(isPrint, c) && ControlLetter(c) == None
  }

  function QuoteBody(isPrint: char -> bool, s: string): string {
    if s == "" then "" else QuoteChar(isPrint, s[0]) + QuoteBody(isPrint, s[1..])
  }

  function EscapeField(isPrint: char -> bool, s: string): string {
    if s == "" then "\"\"" else "\"" + QuoteBody(isPrint, s) + "\""
  }

  function CharOf(n: nat): Option<char> {
    if n < 0xD800 || 0xE000 <= n < 0x11_0000 then Some(n as char) else None
  }

  datatype Rune = Rune(c: char, size: nat)

  function HexRune(s: string, digits: nat): Option<Rune> {
    if |s| < 2 + digits then None
    else match CharOf(HexValue(s[2..2 + digits]))
      case Some(c) => Some(Rune(c, 2 + digits))
      case None => None
  }

  /** The character a quoted string starts with and how much text stands for it. */
  function ReadRune(s: string): Option<Rune> {
    if s == "" then None
    else if s[0] != '\\' then Some(Rune(s[0], 1))
    else if |s| == 1 then None
    else if s[1] == '"' || s[1] == '\\' then Some(Rune(s[1], 2))
    else if ControlNamed(s[1]).Some? then Some(Rune(ControlNamed(s[1]).value, 2))
    else if s[1] == 'x' then HexRune(s, 2)
    else if s[1] == 'u' then HexRune(s, 4)
    else if s[1] == 'U' then HexRune(s, 8)
    else None
  }

  function ReadBody(s: string): Option<string>
    decreases |s|
  {
    if s == "" then Some("")
    else match ReadRune(s)
      case None => None
      case Some(r) =>
        if r.size == 0 || r.size > |s| then None
        else match ReadBody(s[r.size..])
          case None => None
          case Some(t) => Some([r.c] + t)
  }

  lemma Powers()
    ensures Power16(2) == 0x100 && Power16(4) == 0x1_0000 && Power16(8) == 0x1_0000_0000
  {
    assert Power16(0) == 1 && Power16(1) == 16 && Power16(3) == 0x1000;
    assert Power16(5) == 0x10_0000 && Power16(6) == 0x100_0000 && Power16(7) == 0x1000_0000;
  }

  lemma HexForm(c: char)
    ensures var h := Hex(c as int, HexDigits(c));
      |h| == HexDigits(c) && HexValue(h) == c as int && Plain(h, "\"")
  {
    Powers();
    HexReads(c as int, HexDigits(c));
  }

  lemma HexReadsBack(c: char, rest: string)
    ensures var e := ['\\', HexKind(c)] + Hex(c as int, HexDigits(c));
      ReadRune(e + rest) == Some(Rune(c, |e|))
  {
    hide Hex, HexValue, Plain;
    var h := Hex(c as int, HexDigits(c));
    var s := ['\\', HexKind(c)] + h + rest;
    HexForm(c);
    assert s[2..2 + HexDigits(c)] == h;
    assert s[0] == '\\' && s[1] == HexKind(c);
    assert HexRune(s, HexDigits(c)) == Some(Rune(c, 2 + HexDigits(c)));
  }

  /** Reading a printed character gives it back and stops where it stops. */
  lemma QuoteCharReads(isPrint: char -> bool, c: char, rest: string)
    ensures var e := QuoteChar(isPrint, c);
      e != "" && ReadRune(e + rest) == Some(Rune(c, |e|))
  {
    if NeedsHex(isPrint, c) {
      HexReadsBack(c, rest);
    } else {
      var s := QuoteChar(isPrint, c) + rest;
      assert s[0] == QuoteChar(isPrint, c)[0];
      if |QuoteChar(isPrint, c)| == 2 { assert s[1] == QuoteChar(isPrint, c)[1]; }
    }
  }

  /** Every string, printable or not, is read back from its quoted form. */
  lemma {:induction false} QuoteBodyReads(isPrint: char -> bool, s: string)
    ensures ReadBody(QuoteBody(isPrint, s)) == Some(s)
  {
    if s != "" {
      var e, t := QuoteChar(isPrint, s[0]), QuoteBody(isPrint, s[1..]);
      QuoteCharReads(isPrint, s[0], t);
      QuoteBodyReads(isPrint, s[1..]);
      assert (e + t)[|e|..] == t;
      assert [s[0]] + s[1..] == s;
    }
  }

  lemma FindPastQuoteChar(isPrint: char -> bool, c: char, rest: string)
    ensures Find(QuoteChar(isPrint, c) + rest, "\"") == |QuoteChar(isPrint, c)| + Find(rest, "\"")
  {
    hide Find;
    var e := QuoteChar(isPrint, c);
    if NeedsHex(isPrint, c) {
      var k, h := ['\\', HexKind(c)], Hex(c as int, HexDigits(c));
      HexForm(c);
      FindPastPlain(h, rest, "\"");
      FindStep(k, h + rest, "\"");
      assert e + rest == k + (h + rest);
    } else {
      FindStep(e, rest, "\"");
    }
  }

  /** A scan for the closing quote passes over the printed string whole. */
  lemma {:induction false} FindPastQuoted(isPrint: char -> bool, s: string, rest: string)
    ensures Find(QuoteBody(isPrint, s) + rest, "\"") == |QuoteBody(isPrint, s)| + Find(rest, "\"")
  {
    hide Find;
    if s == "" {
      assert QuoteBody(isPrint, s) + rest == rest;
    } else {
      var e, t := QuoteChar(isPrint, s[0]), QuoteBody(isPrint, s[1..]);
      FindPastQuoted(isPrint, s[1..], rest);
      FindPastQuoteChar(isPrint, s[0], t + rest);
      assert (e + t) + rest == e + (t + rest);
    }
  }

  lemma {:induction false} HexHasNoNewline(n: nat, width: nat)
    ensures '\n' !in Hex(n, width)
  {
    if width > 0 { HexHasNoNewline(n / 16, width - 1); }
  }

  lemma QuotedCharHasNoNewline(isPrint: char -> bool, c: char)
    ensures '\n' !in QuoteChar(isPrint, c)
  {
    if NeedsHex(isPrint, c) { HexHasNoNewline(c as int, HexDigits(c)); }
  }

  /** No quoted string holds a raw newline, whatever the string. */
  lemma {:induction false} QuotedHasNoNewline(isPrint: char -> bool, s: string)
    ensures '\n' !in QuoteBody(isPrint, s)
  {
    hide QuoteChar;
    if s != "" {
      QuotedHasNoNewline(isPrint, s[1..]);
      QuotedCharHasNoNewline(isPrint, s[0]);
    }
  }

  // ------------------------------------- readers that know only \" and \\ in strings

  function SimpleRead(s: string): string {
    if s == "" then ""
    else if s[0] == '\\' && |s| > 1 && (s[1] == '"' || s[1] == '\\') then [s[1]] + SimpleRead(s[2..])
    else [s[0]] + SimpleRead(s[1..])
  }

  /** Printable: by code in ASCII, by the table beyond it. */
  predicate Simple(isPrint: char -> bool, c: char) { ' ' <= c <= '~' || (c > '\U{007F}' && isPrint(c)) }

  predicate AllPrintable(isPrint: char -> bool, s: string) {
    s == "" || (Simple(isPrint, s[0]) && AllPrintable(isPrint, s[1..]))
  }

  lemma {:induction false} SimpleReadPlain(a: string, rest: string)
    requires forall i :: 0 <= i < |a| ==> a[i] != '\\'
    ensures SimpleRead(a + rest) == a + SimpleRead(rest)
  {
    if a == "" {
      assert a + rest == rest;
    } else {
      SimpleReadPlain(a[1..], rest);
      assert (a + rest)[1..] == a[1..] + rest;
      assert [a[0]] + (a[1..] + SimpleRead(rest)) == a + SimpleRead(rest);
    }
  }

  lemma SimpleReadTwo(k: char, h: string, rest: string)
    requires k != '"' && Plain([k] + h, "\"")
    ensures SimpleRead(['\\', k] + h + rest) == ['\\', k] + h + SimpleRead(rest)
  {
    var s := ['\\', k] + h + rest;
    assert [k][0] == k && ([k] + h)[0] == k;
    assert s[1..] == ([k] + h) + rest;
    SimpleReadPlain([k] + h, rest);
    assert ['\\'] + (([k] + h) + SimpleRead(rest)) == ['\\', k] + h + SimpleRead(rest);
  }

  lemma SimpleReadKept(isPrint: char -> bool, c: char, rest: string)
    requires Simple(isPrint, c)
    ensures SimpleRead(QuoteChar(isPrint, c) + rest) == [c] + SimpleRead(rest)
  {
    var e := QuoteChar(isPrint, c);
    assert (e + rest)[|e|..] == rest;
  }

  lemma SimpleReadGrows(isPrint: char -> bool, c: char, rest: string)
    requires !Simple(isPrint, c)
    ensures |SimpleRead(QuoteChar(isPrint, c) + rest)| > 1 + |SimpleRead(rest)|
  {
    if NeedsHex(isPrint, c) {
      HexForm(c);
      SimpleReadTwo(HexKind(c), Hex(c as int, HexDigits(c)), rest);
    } else {
      var k := ControlLetter(c).value;
      SimpleReadTwo(k, "", rest);
      assert ['\\', k] + "" + rest == ['\\', k] + rest;
    }
  }

  /** Readers that undo only the two basic escapes recover a string exactly when all of it
      is printable. */
  lemma {:induction false} SimpleReadIff(isPrint: char -> bool, s: string)
    ensures SimpleRead(QuoteBody(isPrint, s)) == s <==> AllPrintable(isPrint, s)
    ensures |SimpleRead(QuoteBody(isPrint, s))| >= |s|
    ensures !AllPrintable(isPrint, s) ==> |SimpleRead(QuoteBody(isPrint, s))| > |s|
  {
    if s != "" {
      var t := QuoteBody(isPrint, s[1..]);
      SimpleReadIff(isPrint, s[1..]);
      assert s == [s[0]] + s[1..];
      if Simple(isPrint, s[0]) { SimpleReadKept(isPrint, s[0], t); } else { SimpleReadGrows(isPrint, s[0], t); }
    }
  }
}
