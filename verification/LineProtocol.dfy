/** toLineProtocol (internal/adapter/outbound/influxdb/writer.go:224-345): the printer that
    assembles one line, a reader that splits at unescaped, unquoted delimiters, and the
    proof that the reader undoes the printer. */
module LineProtocol {
  import opened Domain
  import opened Escaping
  import Text

  datatype Value = Str(s: string) | Int(n: int) | Flag(b: bool) | Float(token: string)

  /** What a tag or field may be called. */
  predicate IsName(s: string) { forall i :: 0 <= i < |s| ==> s[i] != '=' && s[i] != '\n' }

  type Name = s: string | IsName(s) witness ""

  datatype Tag = Tag(name: Name, value: string)
  datatype Field = Field(name: Name, value: Value)
  datatype Line = Line(measurement: string, tags: seq<Tag>, fields: seq<Field>, ts: int)

  // ------------------------------------------------------------------- the printer

  function ValueText(isPrint: char -> bool, v: Value): string {
    match v
    case Str(s) => EscapeField(isPrint, s)
    case Int(n) => Text.Decimal(n)
    case Flag(b) => if b then "t" else "f"
    case Float(token) => token
  }

  function TagText(t: Tag): string { t.name + "=" + EscapeTag(t.value) }

  function FieldText(isPrint: char -> bool, f: Field): string { f.name + "=" + ValueText(isPrint, f.value) }

  function TagsText(tags: seq<Tag>): string {
    if tags == [] then "" else TagText(tags[0]) + (if |tags| == 1 then "" else "," + TagsText(tags[1..]))
  }

  function FieldsText(isPrint: char -> bool, fs: seq<Field>): string {
    if fs == [] then ""
    else FieldText(isPrint, fs[0]) + (if |fs| == 1 then "" else "," + FieldsText(isPrint, fs[1..]))
  }

  function LineText(isPrint: char -> bool, l: Line): string {
    l.measurement + ("," + (TagsText(l.tags) + (" " + (FieldsText(isPrint, l.fields) + (" " + Text.Decimal(l.ts))))))
  }

  // -------------------------------------------------------------------- the reader

  datatype Parsed<T> = Parsed(items: seq<T>, rest: string)
  datatype Sized = Sized(value: Value, size: nat)

  function IndexOf(s: string, c: char): (n: nat)
    ensures n <= |s|
  {
    if s == "" || s[0] == c then 0 else 1 + IndexOf(s[1..], c)
  }

  function BareEnd(s: string): (n: nat)
    ensures n <= |s|
  {
    if s == "" || s[0] == ',' || s[0] == ' ' then 0 else 1 + BareEnd(s[1..])
  }

  function BareValue(t: string): Value {
    if t == "t" then Flag(true)
    else if t == "f" then Flag(false)
    else if Text.IsNumeral(t) then Int(Text.ReadDecimal(t))
    else Float(t)
  }

  /** The string after an opening quote, up to its closing quote. */
  function ReadQuoted(s: string): Option<Sized> {
    var n := Find(s, "\"");
    if n == |s| then None
    else match ReadBody(s[..n])
      case Some(t) => Some(Sized(Str(t), n + 2))
      case None => None
  }

  function ReadBare(s: string): Option<Sized> {
    var n := BareEnd(s);
    if n == 0 then None else Some(Sized(BareValue(s[..n]), n))
  }

  function ReadValue(s: string): Option<Sized> {
    if s != "" && s[0] == '"' then ReadQuoted(s[1..]) else ReadBare(s)
  }

  /** One tag or field together with the text from its delimiter on. */
  datatype First<T> = First(item: T, tail: string)

  function FirstTag(s: string): Option<First<Tag>> {
    var eq := IndexOf(s, '=');
    if eq == |s| || !IsName(s[..eq]) then None
    else
      var v := s[eq + 1..];
      var n := Find(v, " ,");
      if n == |v| then None else Some(First(Tag(s[..eq], Unescape(v[..n])), v[n..]))
  }

  function FirstField(s: string): Option<First<Field>> {
    var eq := IndexOf(s, '=');
    if eq == |s| || !IsName(s[..eq]) then None
    else
      var v := s[eq + 1..];
      match ReadValue(v)
      case None => None
      case Some(r) => if r.size >= |v| then None else Some(First(Field(s[..eq], r.value), v[r.size..]))
  }

  function ReadTags(s: string): Option<Parsed<Tag>>
    decreases |s|
  {
    match FirstTag(s)
    case None => None
    case Some(f) =>
      if f.tail == "" || |f.tail| >= |s| then None
      else if f.tail[0] == ' ' then Some(Parsed([f.item], f.tail[1..]))
      else match ReadTags(f.tail[1..])
        case Some(p) => Some(Parsed([f.item] + p.items, p.rest))
        case None => None
  }

  function ReadFields(s: string): Option<Parsed<Field>>
    decreases |s|
  {
    match FirstField(s)
    case None => None
    case Some(f) =>
      if f.tail == "" || |f.tail| >= |s| then None
      else if f.tail[0] == ' ' then Some(Parsed([f.item], f.tail[1..]))
      else if f.tail[0] != ',' then None
      else match ReadFields(f.tail[1..])
        case Some(p) => Some(Parsed([f.item] + p.items, p.rest))
        case None => None
  }

  function ReadLine(s: string): Option<Line> {
    var m := Find(s, ", ");
    if m == |s| || s[m] != ',' then None
    else match ReadTags(s[m + 1..])
      case None => None
      case Some(tags) =>
        match ReadFields(tags.rest)
        case None => None
        case Some(fields) =>
          if !Text.IsNumeral(fields.rest) then None
          else Some(Line(s[..m], tags.items, fields.items, Text.ReadDecimal(fields.rest)))
  }

  // -------------------------------------------------------------- reading back tags

  function TagShown(v: string): string { if v == "" then "unknown" else v }

  function Shown(tags: seq<Tag>): seq<Tag> {
    if tags == [] then [] else [Tag(tags[0].name, TagShown(tags[0].value))] + Shown(tags[1..])
  }

  lemma EscapeTagIsEach(v: string)
    ensures EscapeTag(v) == EscapeEach(TagShown(v))
  {
    FourPassesAreOne(v);
    UnknownStays();
  }

  lemma {:induction false} IndexOfPast(name: string, rest: string)
    requires '=' !in name
    ensures IndexOf(name + ("=" + rest), '=') == |name|
  {
    if name == "" {
      assert name + ("=" + rest) == "=" + rest;
    } else {
      IndexOfPast(name[1..], rest);
      assert (name + ("=" + rest))[1..] == name[1..] + ("=" + rest);
    }
  }

  lemma ReadTagValue(v: string, tail: string)
    requires tail != "" && (tail[0] == ' ' || tail[0] == ',')
    ensures Find(EscapeTag(v) + tail, " ,") == |EscapeTag(v)|
    ensures Unescape(EscapeTag(v)) == TagShown(v)
  {
    EscapeTagIsEach(v);
    assert Find(tail, " ,") == 0;
    hide Find, EscapeTag;
    FindPastEscaped(TagShown(v), tail, " ,");
    UnescapeEach(TagShown(v));
  }

  /** The first tag of a text, when it is followed by a delimiter. */
  lemma ReadFirstTag(t: Tag, tail: string)
    requires tail != "" && (tail[0] == ' ' || tail[0] == ',')
    ensures FirstTag(TagText(t) + tail) == Some(First(Tag(t.name, TagShown(t.value)), tail))
  {
    hide EscapeTag, Find, Unescape, TagShown;
    var e := EscapeTag(t.value);
    var s := TagText(t) + tail;
    ReadTagValue(t.value, tail);
    IndexOfPast(t.name, e + tail);
    assert s == t.name + ("=" + (e + tail));
    assert s[|t.name| + 1..] == e + tail && s[..|t.name|] == t.name;
    assert (e + tail)[..|e|] == e && (e + tail)[|e|..] == tail;
  }

  lemma UnfoldTags(tags: seq<Tag>)
    requires tags != []
    ensures TagsText(tags) == TagText(tags[0]) + (if |tags| == 1 then "" else "," + TagsText(tags[1..]))
    ensures TagText(tags[0]) != ""
  {
    hide EscapeTag;
  }

  lemma UnfoldShown(tags: seq<Tag>)
    requires tags != []
    ensures Shown(tags) == [Tag(tags[0].name, TagShown(tags[0].value))] + Shown(tags[1..])
    ensures |tags| == 1 ==> Shown(tags[1..]) == []
  {
    hide TagShown;
  }

  lemma UnfoldReadTags(s: string)
    requires FirstTag(s).Some? && var f := FirstTag(s).value; f.tail != "" && |f.tail| < |s|
    ensures var f := FirstTag(s).value;
      ReadTags(s) ==
        if f.tail[0] == ' ' then Some(Parsed([f.item], f.tail[1..]))
        else match ReadTags(f.tail[1..])
             case Some(p) => Some(Parsed([f.item] + p.items, p.rest))
             case None => None
  {
    hide FirstTag;
  }

  lemma {:induction false} TagsReadBack(tags: seq<Tag>, rest: string)
    requires tags != []
    ensures ReadTags(TagsText(tags) + (" " + rest)) == Some(Parsed(Shown(tags), rest))
  {
    hide FirstTag, TagShown, EscapeTag, TagText, ReadTags, TagsText, Shown;
    UnfoldTags(tags);
    UnfoldShown(tags);
    var t := TagText(tags[0]);
    if |tags| == 1 {
      ReadFirstTag(tags[0], " " + rest);
      assert TagsText(tags) + (" " + rest) == t + (" " + rest);
      assert (" " + rest)[1..] == rest && Shown(tags) == [Tag(tags[0].name, TagShown(tags[0].value))];
      UnfoldReadTags(t + (" " + rest));
    } else {
      var more := TagsText(tags[1..]) + (" " + rest);
      TagsReadBack(tags[1..], rest);
      ReadFirstTag(tags[0], "," + more);
      assert ("," + more)[1..] == more;
      assert TagsText(tags) + (" " + rest) == t + ("," + more);
      UnfoldReadTags(t + ("," + more));
    }
  }

  // ------------------------------------------------------------ reading back fields

  /** What %f prints: one token without delimiters or quotes that is neither an integer
      nor a flag (a fraction, or one of the words for infinity and not-a-number). */
  predicate FloatToken(t: string) {
    && t != "" && t != "t" && t != "f" && !Text.IsNumeral(t)
    && forall i :: 0 <= i < |t| ==> t[i] != ',' && t[i] != ' ' && t[i] != '"' && t[i] != '\n'
  }

  predicate ValueOK(v: Value) { v.Float? ==> FloatToken(v.token) }

  lemma {:induction false} BareEndPast(t: string, tail: string)
    requires forall i :: 0 <= i < |t| ==> t[i] != ',' && t[i] != ' '
    requires tail != "" && (tail[0] == ' ' || tail[0] == ',')
    ensures BareEnd(t + tail) == |t|
  {
    if t == "" {
      assert t + tail == tail;
    } else {
      BareEndPast(t[1..], tail);
      assert (t + tail)[1..] == t[1..] + tail;
    }
  }

  lemma BareReads(t: string, tail: string)
    requires t != "" && t[0] != '"' && forall i :: 0 <= i < |t| ==> t[i] != ',' && t[i] != ' '
    requires tail != "" && (tail[0] == ' ' || tail[0] == ',')
    ensures ReadValue(t + tail) == Some(Sized(BareValue(t), |t|))
  {
    hide BareValue, BareEnd, ReadQuoted;
    BareEndPast(t, tail);
    assert (t + tail)[..|t|] == t && (t + tail)[0] == t[0];
  }

  lemma ClosingQuote(tail: string)
    ensures Find("\"" + tail, "\"") == 0
  {
  }

  lemma BodyReads(isPrint: char -> bool, s: string, tail: string)
    ensures var b := QuoteBody(isPrint, s);
      ReadQuoted(b + ("\"" + tail)) == Some(Sized(Str(s), |b| + 2))
  {
    hide Find, ReadBody, QuoteBody;
    var b := QuoteBody(isPrint, s);
    ClosingQuote(tail);
    QuoteBodyReads(isPrint, s);
    FindPastQuoted(isPrint, s, "\"" + tail);
    assert (b + ("\"" + tail))[..|b|] == b;
  }

  lemma FieldIsBody(isPrint: char -> bool, s: string)
    ensures EscapeField(isPrint, s) == "\"" + QuoteBody(isPrint, s) + "\""
  {
  }

  lemma QuotedReads(isPrint: char -> bool, s: string, tail: string)
    ensures ReadValue(EscapeField(isPrint, s) + tail) == Some(Sized(Str(s), |EscapeField(isPrint, s)|))
  {
    hide ReadQuoted, ReadBare, QuoteBody, EscapeField;
    var b := QuoteBody(isPrint, s);
    FieldIsBody(isPrint, s);
    BodyReads(isPrint, s, tail);
    assert EscapeField(isPrint, s) + tail == "\"" + (b + ("\"" + tail));
    assert ("\"" + (b + ("\"" + tail)))[1..] == b + ("\"" + tail);
  }

  lemma DecimalIsBare(n: int)
    ensures var t := Text.Decimal(n);
      && t != "" && t[0] != '"' && (forall i :: 0 <= i < |t| ==> t[i] != ',' && t[i] != ' ')
      && BareValue(t) == Int(n)
  {
    Text.DecimalChars(n);
    Text.DecimalReads(n);
    var t := Text.Decimal(n);
    assert Text.IsDigit(t[0]) || t[0] == '-';
    assert t != "t" && t != "f" by { assert "t"[0] == 't' && "f"[0] == 'f'; }
  }

  lemma ValueReads(isPrint: char -> bool, v: Value, tail: string)
    requires ValueOK(v) && tail != "" && (tail[0] == ' ' || tail[0] == ',')
    ensures ReadValue(ValueText(isPrint, v) + tail) == Some(Sized(v, |ValueText(isPrint, v)|))
  {
    hide ReadValue, EscapeField, Text.Decimal;
    match v
    case Str(s) => QuotedReads(isPrint, s, tail);
    case Int(n) =>
      DecimalIsBare(n);
      BareReads(Text.Decimal(n), tail);
    case Flag(b) => BareReads(if b then "t" else "f", tail);
    case Float(t) => BareReads(t, tail);
  }

  lemma ReadFirstField(isPrint: char -> bool, f: Field, tail: string)
    requires ValueOK(f.value) && tail != "" && (tail[0] == ' ' || tail[0] == ',')
    ensures FirstField(FieldText(isPrint, f) + tail) == Some(First(f, tail))
  {
    hide ReadValue, ValueText, ValueOK;
    var e := ValueText(isPrint, f.value);
    var s := FieldText(isPrint, f) + tail;
    ValueReads(isPrint, f.value, tail);
    IndexOfPast(f.name, e + tail);
    assert s == f.name + ("=" + (e + tail));
    assert s[|f.name| + 1..] == e + tail && s[..|f.name|] == f.name;
    assert (e + tail)[|e|..] == tail;
  }

  predicate FieldsOK(fs: seq<Field>) { forall i :: 0 <= i < |fs| ==> ValueOK(fs[i].value) }

  lemma UnfoldFields(isPrint: char -> bool, fs: seq<Field>)
    requires fs != []
    ensures FieldsText(isPrint, fs)
         == FieldText(isPrint, fs[0]) + (if |fs| == 1 then "" else "," + FieldsText(isPrint, fs[1..]))
    ensures FieldText(isPrint, fs[0]) != ""
  {
    hide ValueText;
  }

  lemma UnfoldReadFields(s: string)
    requires FirstField(s).Some? && var f := FirstField(s).value; f.tail != "" && |f.tail| < |s|
    ensures var f := FirstField(s).value;
      ReadFields(s) ==
        if f.tail[0] == ' ' then Some(Parsed([f.item], f.tail[1..]))
        else if f.tail[0] != ',' then None
        else match ReadFields(f.tail[1..])
             case Some(p) => Some(Parsed([f.item] + p.items, p.rest))
             case None => None
  {
    hide FirstField;
  }

  lemma {:induction false} FieldsReadBack(isPrint: char -> bool, fs: seq<Field>, rest: string)
    requires fs != [] && FieldsOK(fs)
    ensures ReadFields(FieldsText(isPrint, fs) + (" " + rest)) == Some(Parsed(fs, rest))
  {
    hide FirstField, ValueOK, ValueText, FieldText, ReadFields, FieldsText;
    UnfoldFields(isPrint, fs);
    var t := FieldText(isPrint, fs[0]);
    if |fs| == 1 {
      ReadFirstField(isPrint, fs[0], " " + rest);
      assert FieldsText(isPrint, fs) + (" " + rest) == t + (" " + rest);
      assert (" " + rest)[1..] == rest && [fs[0]] == fs;
      UnfoldReadFields(t + (" " + rest));
    } else {
      var more := FieldsText(isPrint, fs[1..]) + (" " + rest);
      FieldsReadBack(isPrint, fs[1..], rest);
      ReadFirstField(isPrint, fs[0], "," + more);
      assert ("," + more)[1..] == more && [fs[0]] + fs[1..] == fs;
      assert FieldsText(isPrint, fs) + (" " + rest) == t + ("," + more);
      UnfoldReadFields(t + ("," + more));
    }
  }

  // -------------------------------------------------------------------- newlines

  lemma TagNewline(t: Tag)
    ensures '\n' in TagText(t) <==> '\n' in t.value
  {
    EscapeTagIsEach(t.value);
    EscapeKeepsNewlines(TagShown(t.value));
    hide EscapeTag, EscapeEach;
  }

  lemma {:induction false} TagsNewline(tags: seq<Tag>)
    ensures '\n' in TagsText(tags) <==> exists i :: 0 <= i < |tags| && '\n' in tags[i].value
  {
    hide TagText;
    if tags != [] {
      TagNewline(tags[0]);
      TagsNewline(tags[1..]);
      assert tags == [tags[0]] + tags[1..];
      forall i | 0 <= i < |tags[1..]| ensures tags[1..][i] == tags[i + 1] { }
    }
  }

  lemma ValueHasNoNewline(isPrint: char -> bool, v: Value)
    requires ValueOK(v)
    ensures '\n' !in ValueText(isPrint, v)
  {
    match v
    case Str(s) => QuotedHasNoNewline(isPrint, s); FieldIsBody(isPrint, s);
    case Int(n) => Text.DecimalChars(n);
    case _ =>
  }

  lemma {:induction false} FieldsHaveNoNewline(isPrint: char -> bool, fs: seq<Field>)
    requires FieldsOK(fs)
    ensures '\n' !in FieldsText(isPrint, fs)
  {
    hide ValueOK, ValueText;
    if fs != [] {
      ValueHasNoNewline(isPrint, fs[0].value);
      FieldsHaveNoNewline(isPrint, fs[1..]);
    }
  }

  /** A printed line holds a newline exactly when its measurement or a tag value does. */
  lemma LineNewlineIff(isPrint: char -> bool, l: Line)
    requires FieldsOK(l.fields)
    ensures '\n' in LineText(isPrint, l) <==>
      '\n' in l.measurement || exists i :: 0 <= i < |l.tags| && '\n' in l.tags[i].value
  {
    hide TagsText, FieldsText, ValueOK, Text.Decimal;
    TagsNewline(l.tags);
    FieldsHaveNoNewline(isPrint, l.fields);
    Text.DecimalChars(l.ts);
    assert '\n' !in Text.Decimal(l.ts);
  }

  // --------------------------------------------------------------- the whole line

  /** A measurement name without a bare comma or space and without a hanging backslash. */
  predicate Clean(m: string) {
    m == "" || (if m[0] == '\\' then |m| >= 2 && Clean(m[2..])
                else m[0] != ',' && m[0] != ' ' && Clean(m[1..]))
  }

  lemma {:induction false} MeasurementEnds(m: string, rest: string)
    ensures Find(m + ("," + rest), ", ") == |m| <==> Clean(m)
    decreases |m|
  {
    var s := m + ("," + rest);
    if m == "" {
      assert s == "," + rest;
    } else if m[0] == '\\' {
      if |m| == 1 {
        assert s[0] == '\\' && |s| >= 2;
      } else {
        assert s[2..] == m[2..] + ("," + rest);
        MeasurementEnds(m[2..], rest);
      }
    } else {
      assert s[1..] == m[1..] + ("," + rest);
      MeasurementEnds(m[1..], rest);
    }
  }

  predicate WellFormed(l: Line) { l.tags != [] && l.fields != [] && FieldsOK(l.fields) }

  function AsRead(l: Line): Line { l.(tags := Shown(l.tags)) }

  /** The reader recovers the measurement, every tag, every field and the timestamp of a
      printed line exactly when the measurement is clean; a tag printed from the empty
      value reads as "unknown". */
  lemma LineRoundTrip(isPrint: char -> bool, l: Line)
    requires WellFormed(l)
    ensures ReadLine(LineText(isPrint, l)) == Some(AsRead(l)) <==> Clean(l.measurement)
  {
    var ts := Text.Decimal(l.ts);
    var fields := FieldsText(isPrint, l.fields) + (" " + ts);
    var tags := TagsText(l.tags) + (" " + fields);
    var s := LineText(isPrint, l);
    Text.DecimalReads(l.ts);
    hide Find, ReadTags, ReadFields, Text.Decimal, Text.IsNumeral, Text.ReadDecimal, Clean, TagsText, FieldsText;
    hide FieldsOK;
    MeasurementEnds(l.measurement, tags);
    TagsReadBack(l.tags, fields);
    FieldsReadBack(isPrint, l.fields, ts);
    assert s == l.measurement + ("," + tags);
    if Clean(l.measurement) {
      assert s[|l.measurement| + 1..] == tags && s[..|l.measurement|] == l.measurement;
    }
  }
}
