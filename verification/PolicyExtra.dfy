/** parseExtra (internal/adapter/inbound/dnstap/server.go:366-385): the DNSDist metadata
    in the Extra text, "key=value" words between white space. */
module PolicyExtra {
  import opened Domain

  /** unicode.IsSpace. */
  predicate IsSpace(c: char) {
    || '\t' <= c <= '\r' || c == ' ' || c == '\U{0085}' || c == '\U{00A0}' || c == '\U{1680}'
    || '\U{2000}' <= c <= '\U{200A}' || c == '\U{2028}' || c == '\U{2029}'
    || c == '\U{202F}' || c == '\U{205F}' || c == '\U{3000}'
  }

  /** In ASCII white space is the blank and the codes 9 to 13. */
  lemma AsciiSpaces(c: char)
    requires c as int < 0x80
    ensures IsSpace(c) <==> c as int in {0x09, 0x0A, 0x0B, 0x0C, 0x0D, 0x20}
  {
  }

  predicate SpaceFree(s: string) { forall i :: 0 <= i < |s| ==> !IsSpace(s[i]) }

  /** The length of the word a text starts with. */
  function WordLength(s: string): (n: nat)
    ensures n <= |s| && SpaceFree(s[..n]) && (n < |s| ==> IsSpace(s[n]))
  {
    if s == "" || IsSpace(s[0]) then 0
    else var n := WordLength(s[1..]);
      assert s[..n + 1] == [s[0]] + s[1..][..n];
      n + 1
  }

  /** strings.Fields: the maximal runs of non-space characters, in order. */
  function Fields(s: string): seq<string>
    decreases |s|
  {
    if s == "" then []
    else if IsSpace(s[0]) then Fields(s[1..])
    else
      var n := WordLength(s);
      assert n > 0;
      [s[..n]] + Fields(s[n..])
  }

  /** Where the first '=' stands, or the length of the word. */
  function CutAt(s: string): (n: nat)
    ensures n <= |s| && (n < |s| ==> s[n] == '=') && forall i :: 0 <= i < n ==> s[i] != '='
  {
    if s == "" || s[0] == '=' then 0 else CutAt(s[1..]) + 1
  }

  function KeyOf(word: string): string { word[..CutAt(word)] }

  function ValueOf(word: string): string {
    if CutAt(word) < |word| then word[CutAt(word) + 1..] else ""
  }

  datatype Attribute = PeerName | PolicyRule | PolicyType | PolicyMatch | PolicyValue

  function NameOf(a: Attribute): string {
    match a
    case PeerName => "peer-name"
    case PolicyRule => "policy-rule"
    case PolicyType => "policy-type"
    case PolicyMatch => "policy-match"
    case PolicyValue => "policy-value"
  }

  function AttributeNamed(key: string): Option<Attribute> {
    match key
    case "peer-name" => Some(PeerName)
    case "policy-rule" => Some(PolicyRule)
    case "policy-type" => Some(PolicyType)
    case "policy-match" => Some(PolicyMatch)
    case "policy-value" => Some(PolicyValue)
    case _ => None
  }

  lemma NamesDistinguish(a: Attribute)
    ensures AttributeNamed(NameOf(a)) == Some(a) && '=' !in NameOf(a) && SpaceFree(NameOf(a)) && NameOf(a) != ""
  {
  }

  function Get(p: DNSTapInfo, a: Attribute): string {
    match a
    case PeerName => p.peerName
    case PolicyRule => p.policyRule
    case PolicyType => p.policyType
    case PolicyMatch => p.policyMatch
    case PolicyValue => p.policyValue
  }

  function Set(p: DNSTapInfo, a: Attribute, v: string): DNSTapInfo {
    match a
    case PeerName => p.(peerName := v)
    case PolicyRule => p.(policyRule := v)
    case PolicyType => p.(policyType := v)
    case PolicyMatch => p.(policyMatch := v)
    case PolicyValue => p.(policyValue := v)
  }

  /** The attribute a word sets; a word without '=' sets none. */
  function Names(word: string): Option<Attribute> {
    if CutAt(word) < |word| then AttributeNamed(KeyOf(word)) else None
  }

  function WithWord(p: DNSTapInfo, word: string): DNSTapInfo {
    match Names(word)
    case Some(a) => Set(p, a, ValueOf(word))
    case None => p
  }

  function WithWords(p: DNSTapInfo, words: seq<string>, n: nat): DNSTapInfo
    requires n <= |words|
  {
    if n == 0 then p else WithWord(WithWords(p, words, n - 1), words[n - 1])
  }

  function WithExtra(p: DNSTapInfo, extra: string): DNSTapInfo {
    WithWords(p, Fields(extra), |Fields(extra)|)
  }

  /** The loop over the words, updating the event in place. */
  method ParseExtra(extra: string, before: DNSTapInfo) returns (p: DNSTapInfo)
    ensures p == WithExtra(before, extra)
  {
    p := before;
    var words := Fields(extra);
    for i := 0 to |words|
      invariant p == WithWords(before, words, i)
    {
      var cut := CutAt(words[i]);
      if cut < |words[i]| {
        var k, v := words[i][..cut], words[i][cut + 1..];
        match AttributeNamed(k) {
          case Some(PeerName) => p := p.(peerName := v);
          case Some(PolicyRule) => p := p.(policyRule := v);
          case Some(PolicyType) => p := p.(policyType := v);
          case Some(PolicyMatch) => p := p.(policyMatch := v);
          case Some(PolicyValue) => p := p.(policyValue := v);
          case None =>
        }
      }
    }
  }

  // --------------------------------------------------------- the last word wins

  /** Word i is the last of the first n words to name the attribute. */
  predicate LastNaming(words: seq<string>, n: nat, a: Attribute, i: nat)
    requires n <= |words|
  {
    i < n && Names(words[i]) == Some(a) && forall j :: i < j < n ==> Names(words[j]) != Some(a)
  }

  predicate Unnamed(words: seq<string>, n: nat, a: Attribute)
    requires n <= |words|
  {
    forall j :: 0 <= j < n ==> Names(words[j]) != Some(a)
  }

  lemma WordGets(p: DNSTapInfo, word: string, a: Attribute)
    ensures Get(WithWord(p, word), a) == if Names(word) == Some(a) then ValueOf(word) else Get(p, a)
  {
  }

  lemma {:induction false} UnnamedKeeps(p: DNSTapInfo, words: seq<string>, n: nat, a: Attribute)
    requires n <= |words| && Unnamed(words, n, a)
    ensures Get(WithWords(p, words, n), a) == Get(p, a)
  {
    if n > 0 {
      hide Names, ValueOf, Get;
      UnnamedKeeps(p, words, n - 1, a);
      WordGets(WithWords(p, words, n - 1), words[n - 1], a);
    }
  }

  lemma {:induction false} LastNamingSets(p: DNSTapInfo, words: seq<string>, n: nat, a: Attribute, i: nat)
    requires n <= |words| && LastNaming(words, n, a, i)
    ensures Get(WithWords(p, words, n), a) == ValueOf(words[i])
  {
    hide Names, ValueOf, Get;
    if i < n - 1 { LastNamingSets(p, words, n - 1, a, i); }
    WordGets(WithWords(p, words, n - 1), words[n - 1], a);
  }

  /** Only the five attributes can change. */
  lemma {:induction false} OthersUntouched(p: DNSTapInfo, words: seq<string>, n: nat)
    requires n <= |words|
    ensures var r := WithWords(p, words, n);
      r == p.(peerName := r.peerName, policyRule := r.policyRule, policyType := r.policyType,
              policyMatch := r.policyMatch, policyValue := r.policyValue)
  {
    if n > 0 { OthersUntouched(p, words, n - 1); }
  }

  /** Each of the five attributes takes the value of the last word that names it, keeps its
      old value if none does, and nothing else of the event changes. */
  lemma LastWordWins(p: DNSTapInfo, extra: string, a: Attribute)
    ensures var r := WithExtra(p, extra); var words := Fields(extra);
      && (forall i: nat :: LastNaming(words, |words|, a, i) ==> Get(r, a) == ValueOf(words[i]))
      && (Unnamed(words, |words|, a) ==> Get(r, a) == Get(p, a))
      && r == p.(peerName := r.peerName, policyRule := r.policyRule, policyType := r.policyType,
                 policyMatch := r.policyMatch, policyValue := r.policyValue)
  {
    var words := Fields(extra);
    forall i: nat | LastNaming(words, |words|, a, i) ensures Get(WithExtra(p, extra), a) == ValueOf(words[i]) {
      LastNamingSets(p, words, |words|, a, i);
    }
    if Unnamed(words, |words|, a) { UnnamedKeeps(p, words, |words|, a); }
    OthersUntouched(p, Fields(extra), |Fields(extra)|);
  }

  // ------------------------------------------------------- the attributes by name

  /** What stands after "name=" in the last of the first n words that start with it. */
  function LastUnder(name: string, words: seq<string>, n: nat, before: string): string
    requires n <= |words|
  {
    if n == 0 then before
    else if name + "=" <= words[n - 1] then words[n - 1][|name| + 1..]
    else LastUnder(name, words, n - 1, before)
  }

  lemma CutAtFirst(w: string, n: nat)
    requires n < |w| && w[n] == '=' && forall i :: 0 <= i < n ==> w[i] != '='
    ensures CutAt(w) == n
  {
  }

  lemma NamedIff(key: string, a: Attribute)
    ensures AttributeNamed(key) == Some(a) <==> key == NameOf(a)
  {
  }

  /** A word names an attribute exactly when it starts with the name and an equals sign. */
  lemma NamesIff(word: string, a: Attribute)
    ensures Names(word) == Some(a) <==> NameOf(a) + "=" <= word
    ensures NameOf(a) + "=" <= word ==> ValueOf(word) == word[|NameOf(a)| + 1..]
  {
    var name := NameOf(a);
    NamesDistinguish(a);
    NamedIff(KeyOf(word), a);
    hide NameOf, AttributeNamed;
    if name + "=" <= word {
      assert word[|name|] == (name + "=")[|name|] && word[..|name|] == (name + "=")[..|name|] == name;
      CutAtFirst(word, |name|);
    }
    if Names(word) == Some(a) { assert word[..|name|] == name && word[|name|] == '='; }
  }

  lemma {:induction false} GetsLastUnder(p: DNSTapInfo, words: seq<string>, n: nat, a: Attribute)
    requires n <= |words|
    ensures Get(WithWords(p, words, n), a) == LastUnder(NameOf(a), words, n, Get(p, a))
  {
    hide Names, ValueOf, Get, NameOf;
    if n > 0 {
      GetsLastUnder(p, words, n - 1, a);
      WordGets(WithWords(p, words, n - 1), words[n - 1], a);
      NamesIff(words[n - 1], a);
    }
  }

  /** The five texts read from Extra, each by its name: the peer's, and the rule's, the
      type's, the match's and the value's of the policy. */
  lemma AttributesByName(p: DNSTapInfo, extra: string)
    ensures var r, words := WithExtra(p, extra), Fields(extra);
      && r.peerName == LastUnder("peer-name", words, |words|, p.peerName)
      && r.policyRule == LastUnder("policy-rule", words, |words|, p.policyRule)
      && r.policyType == LastUnder("policy-type", words, |words|, p.policyType)
      && r.policyMatch == LastUnder("policy-match", words, |words|, p.policyMatch)
      && r.policyValue == LastUnder("policy-value", words, |words|, p.policyValue)
  {
    hide WithWords, LastUnder, Fields;
    var words := Fields(extra);
    GetsLastUnder(p, words, |words|, PeerName);
    GetsLastUnder(p, words, |words|, PolicyRule);
    GetsLastUnder(p, words, |words|, PolicyType);
    GetsLastUnder(p, words, |words|, PolicyMatch);
    GetsLastUnder(p, words, |words|, PolicyValue);
  }

  // ------------------------------------------------------------------ round trip

  predicate Blank(s: string) { forall i :: 0 <= i < |s| ==> IsSpace(s[i]) }

  /** A gap, then each word with the gap that follows it. */
  function Spread(gap: string, words: seq<(string, string)>): string
    decreases |words|
  {
    if words == [] then gap else gap + (words[0].0 + Spread(words[0].1, words[1..]))
  }

  /** The gaps are white space, and only the last of them may be empty. */
  predicate SpreadOK(words: seq<(string, string)>) {
    forall i :: 0 <= i < |words| ==>
      && words[i].0 != "" && SpaceFree(words[i].0)
      && Blank(words[i].1) && (words[i].1 == "" ==> i == |words| - 1)
  }

  lemma {:induction false} WordEnds(w: string, rest: string)
    requires SpaceFree(w) && (rest != "" ==> IsSpace(rest[0]))
    ensures WordLength(w + rest) == |w|
  {
    if w == "" {
      assert w + rest == rest;
    } else {
      WordEnds(w[1..], rest);
      assert (w + rest)[1..] == w[1..] + rest;
    }
  }

  lemma FieldsOfWord(w: string, rest: string)
    requires w != "" && SpaceFree(w) && (rest != "" ==> IsSpace(rest[0]))
    ensures Fields(w + rest) == [w] + Fields(rest)
  {
    WordEnds(w, rest);
    assert (w + rest)[..|w|] == w && (w + rest)[|w|..] == rest;
  }

  lemma {:induction false} FieldsPastGap(gap: string, rest: string)
    requires Blank(gap)
    ensures Fields(gap + rest) == Fields(rest)
  {
    if gap == "" {
      assert gap + rest == rest;
    } else {
      FieldsPastGap(gap[1..], rest);
      assert (gap + rest)[1..] == gap[1..] + rest;
    }
  }

  lemma BlankEnd(gap: string)
    requires Blank(gap)
    ensures Fields(gap) == []
  {
    FieldsPastGap(gap, "");
    assert gap + "" == gap;
  }

  /** Splitting recovers every list of words, however they are spread out by white space. */
  lemma {:induction false} FieldsOfSpread(gap: string, words: seq<(string, string)>)
    requires Blank(gap) && SpreadOK(words)
    ensures var found := Fields(Spread(gap, words));
      |found| == |words| && forall i :: 0 <= i < |words| ==> found[i] == words[i].0
    decreases |words|
  {
    hide Fields;
    if words == [] {
      BlankEnd(gap);
    } else {
      var (word, next) := words[0];
      var rest := Spread(next, words[1..]);
      FieldsOfSpread(next, words[1..]);
      FieldsOfWord(word, rest);
      FieldsPastGap(gap, word + rest);
    }
  }

  function Joined(words: seq<string>): string {
    if words == [] then "" else words[0] + " " + Joined(words[1..])
  }

  /** In particular words with one space after each. */
  lemma {:induction false} FieldsOfJoined(words: seq<string>)
    requires forall i :: 0 <= i < |words| ==> words[i] != "" && SpaceFree(words[i])
    ensures Fields(Joined(words)) == words
  {
    hide Fields, SpaceFree;
    if words == [] {
      BlankEnd("");
    } else {
      var rest := Joined(words[1..]);
      FieldsOfJoined(words[1..]);
      assert words[0] + " " + rest == words[0] + (" " + rest);
      FieldsOfWord(words[0], " " + rest);
      FieldsPastGap(" ", rest);
    }
  }

  lemma WordSets(p: DNSTapInfo, a: Attribute, value: string)
    requires SpaceFree(value)
    ensures WithWord(p, NameOf(a) + "=" + value) == Set(p, a, value)
    ensures NameOf(a) + "=" + value != "" && SpaceFree(NameOf(a) + "=" + value)
  {
    var w := NameOf(a) + "=" + value;
    NamesDistinguish(a);
    CutAtFirst(w, |NameOf(a)|);
    assert w[..|NameOf(a)|] == NameOf(a) && w[|NameOf(a)| + 1..] == value;
  }

  function ExtraWords(values: seq<(Attribute, string)>): seq<string> {
    seq(|values|, i requires 0 <= i < |values| => NameOf(values[i].0) + "=" + values[i].1)
  }

  function SetAll(p: DNSTapInfo, values: seq<(Attribute, string)>, n: nat): DNSTapInfo
    requires n <= |values|
  {
    if n == 0 then p else Set(SetAll(p, values, n - 1), values[n - 1].0, values[n - 1].1)
  }

  lemma ExtraWordAt(values: seq<(Attribute, string)>, i: nat)
    requires i < |values|
    ensures |ExtraWords(values)| == |values| && ExtraWords(values)[i] == NameOf(values[i].0) + "=" + values[i].1
  {
    hide NameOf;
  }

  lemma {:induction false} WordsSetAll(p: DNSTapInfo, values: seq<(Attribute, string)>, n: nat)
    requires n <= |values| && forall i :: 0 <= i < |values| ==> SpaceFree(values[i].1)
    ensures n <= |ExtraWords(values)| && WithWords(p, ExtraWords(values), n) == SetAll(p, values, n)
  {
    hide NameOf, WithWord, Set, SpaceFree;
    if n > 0 {
      ExtraWordAt(values, n - 1);
      WordsSetAll(p, values, n - 1);
      WordSets(SetAll(p, values, n - 1), values[n - 1].0, values[n - 1].1);
    }
  }

  /** Attributes written as Extra text, with space-free values, are read back in order,
      whatever '=' the values contain. */
  lemma ExtraRoundTrip(p: DNSTapInfo, values: seq<(Attribute, string)>)
    requires forall i :: 0 <= i < |values| ==> SpaceFree(values[i].1)
    ensures WithExtra(p, Joined(ExtraWords(values))) == SetAll(p, values, |values|)
  {
    var words := ExtraWords(values);
    forall i | 0 <= i < |words| ensures words[i] != "" && SpaceFree(words[i]) {
      WordSets(p, values[i].0, values[i].1);
    }
    FieldsOfJoined(words);
    WordsSetAll(p, values, |values|);
  }
}
