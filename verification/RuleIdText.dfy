/** Rule ids found in rule texts by the pattern (?i)\bid\s*:\s*['"]?([0-9]+)
    (internal/manager/policy_config.go, internal/manager/policy_authoring_handlers.go). */
module RuleIdText {
  import opened Prelude
  import opened Text
  import opened Lines
  import opened GuidedLine
  import RuleIds

  // ---------------------------------------------------------------- finding matches

  /** Characters between which there is no word boundary. */
  predicate WordChar(c: char) { 'a' <= c <= 'z' || 'A' <= c <= 'Z' || '0' <= c <= '9' || c == '_' }

  /** What a pattern finds at the start of a text, behind a word boundary. */
  type Matcher = string -> Option<int>

  /** FindAllStringSubmatch for a pattern whose matches cannot overlap; `word` says that a word character precedes. */
  function All(at: Matcher, word: bool, s: string): set<int>
    decreases |s|
  {
    if s == [] then {}
    else (if !word && at(s).Some? then {at(s).value} else {}) + All(at, WordChar(s[0]), s[1..])
  }

  /** FindStringSubmatch. */
  function First(at: Matcher, word: bool, s: string): Option<int>
    decreases |s|
  {
    if s == [] then None
    else if !word && at(s).Some? then at(s)
    else First(at, WordChar(s[0]), s[1..])
  }

  lemma {:induction false} FirstIsFound(at: Matcher, word: bool, s: string)
    ensures First(at, word, s).Some? ==> First(at, word, s).value in All(at, word, s)
    decreases |s|
  {
    if s != [] { FirstIsFound(at, WordChar(s[0]), s[1..]); }
  }

  function Behind(word: bool, s: string): bool { if s == [] then word else WordChar(s[|s| - 1]) }

  /** Matches in the first of two texts stay what they are. */
  ghost predicate Kept(at: Matcher, a: string, t: string) {
    forall i :: 0 <= i < |a| && at(a[i..]).Some? ==> at(a[i..] + t) == at(a[i..])
  }

  lemma {:induction false} KeptTail(at: Matcher, a: string, t: string)
    requires Kept(at, a, t) && a != []
    ensures Kept(at, a[1..], t) && (at(a).Some? ==> at(a + t) == at(a))
  {
    assert a[0..] == a;
    forall i | 0 <= i < |a[1..]| && at(a[1..][i..]).Some? ensures at(a[1..][i..] + t) == at(a[1..][i..]) {
      assert a[1..][i..] == a[i + 1..];
    }
  }

  lemma {:induction false} AllOfTwo(at: Matcher, word: bool, a: string, t: string)
    requires Kept(at, a, t)
    ensures All(at, word, a) <= All(at, word, a + t) && All(at, Behind(word, a), t) <= All(at, word, a + t)
    decreases |a|
  {
    if a == [] {
      assert a + t == t;
    } else {
      KeptTail(at, a, t);
      AllOfTwo(at, WordChar(a[0]), a[1..], t);
      assert (a + t)[1..] == a[1..] + t;
    }
  }

  /** Nothing is found across the border of two texts. */
  ghost predicate Bordered(at: Matcher, a: string, t: string) {
    forall i :: 0 <= i < |a| ==> at(a[i..] + t) == at(a[i..])
  }

  lemma {:induction false} FirstOfTwo(at: Matcher, word: bool, a: string, t: string)
    requires Bordered(at, a, t)
    ensures First(at, word, a + t) == if First(at, word, a).Some? then First(at, word, a) else First(at, Behind(word, a), t)
    decreases |a|
  {
    if a == [] {
      assert a + t == t;
    } else {
      assert a[0..] == a;
      forall i | 0 <= i < |a[1..]| ensures at(a[1..][i..] + t) == at(a[1..][i..]) { assert a[1..][i..] == a[i + 1..]; }
      FirstOfTwo(at, WordChar(a[0]), a[1..], t);
      assert (a + t)[1..] == a[1..] + t;
    }
  }

  /** Nothing is found that begins in the first of two texts. */
  ghost predicate Quiet(at: Matcher, a: string, t: string) {
    forall i :: 0 <= i < |a| ==> at(a[i..] + t).None?
  }

  lemma {:induction false} FirstBehind(at: Matcher, word: bool, a: string, t: string)
    requires Quiet(at, a, t)
    ensures First(at, word, a + t) == First(at, Behind(word, a), t)
    decreases |a|
  {
    if a == [] {
      assert a + t == t;
    } else {
      assert a[0..] == a;
      forall i | 0 <= i < |a[1..]| ensures at(a[1..][i..] + t).None? { assert a[1..][i..] == a[i + 1..]; }
      FirstBehind(at, WordChar(a[0]), a[1..], t);
      assert (a + t)[1..] == a[1..] + t;
    }
  }

  // ---------------------------------------------------------------- the pattern

  /** What \s matches. */
  predicate Gap(c: char) { c == '\t' || c == '\n' || c as int == 12 || c == '\r' || c == ' ' }

  predicate Mark(c: char) { c == '\'' || c == '"' }

  predicate LetterI(c: char) { c == 'i' || c == 'I' }

  predicate LetterD(c: char) { c == 'd' || c == 'D' }

  function SkipGap(s: string): (r: string)
    ensures r == [] || !Gap(r[0])
    ensures |r| <= |s|
  {
    if s != [] && Gap(s[0]) then SkipGap(s[1..]) else s
  }

  const MaxInt: nat := 0x7fff_ffff_ffff_ffff

  /** strconv.Atoi with its error ignored: too large a number is the largest. */
  function Number(digits: string): nat
    requires forall c :: c in digits ==> IsDigit(c)
  {
    if Atoi(digits) > MaxInt then MaxInt else Atoi(digits)
  }

  /** The pattern behind its word boundary. Matches cannot overlap: only the first letter of one is an i that no
      word character precedes. */
  function IdAt(s: string): Option<int> {
    if |s| >= 2 && LetterI(s[0]) && LetterD(s[1]) then AfterName(SkipGap(s[2..])) else None
  }

  function AfterName(s: string): Option<int> {
    if s != "" && s[0] == ':' then AfterColon(SkipGap(s[1..])) else None
  }

  function AfterColon(s: string): Option<int> { Digits(if s != "" && Mark(s[0]) then s[1..] else s) }

  function Digits(s: string): Option<int> {
    var digits := Span(s, IsDigit).0;
    if digits == "" then None else Some(Number(digits))
  }

  function IdsIn(text: string): set<int> { All(IdAt, false, text) }

  function FirstId(text: string): Option<int> { First(IdAt, false, text) }

  const InRuleText := RuleIds.IdFinder(IdsIn, FirstId)

  // ---------------------------------------------------------------- matches and what follows

  lemma {:induction false} SkipGapMore(s: string, t: string)
    ensures SkipGap(s) != [] ==> SkipGap(s + t) == SkipGap(s) + t
    ensures SkipGap(s) == [] ==> SkipGap(s + t) == SkipGap(t)
  {
    if s == [] {
      assert s + t == t;
    } else {
      assert (s + t)[1..] == s[1..] + t;
      if Gap(s[0]) { SkipGapMore(s[1..], t); }
    }
  }

  predicate NoDigit(t: string) { t == [] || !IsDigit(t[0]) }

  lemma {:induction false} DigitsMore(s: string, t: string)
    requires NoDigit(t)
    ensures Digits(s + t) == Digits(s)
  {
    var (d, r) := Span(s, IsDigit);
    assert s + t == d + (r + t);
    SpanAt(d, r + t, IsDigit);
  }

  lemma {:induction false} AfterColonMore(s: string, t: string)
    requires NoDigit(t) && s != []
    ensures AfterColon(s + t) == AfterColon(s)
  {
    if Mark(s[0]) {
      assert (s + t)[1..] == s[1..] + t;
      DigitsMore(s[1..], t);
    } else {
      DigitsMore(s, t);
    }
  }

  lemma {:induction false} AfterNameMore(s: string, t: string)
    requires NoDigit(t) && s != [] && (s[0] != ':' || SkipGap(s[1..]) != [] || AfterColon(SkipGap(t)).None?)
    ensures AfterName(s + t) == AfterName(s)
  {
    if s[0] == ':' {
      assert (s + t)[1..] == s[1..] + t;
      SkipGapMore(s[1..], t);
      if SkipGap(s[1..]) != [] { AfterColonMore(SkipGap(s[1..]), t); }
    }
  }

  /** A match stays one when what follows does not begin with a digit. */
  lemma {:induction false} IdAtMore(s: string, t: string)
    requires IdAt(s).Some? && NoDigit(t)
    ensures IdAt(s + t) == IdAt(s)
  {
    SkipGapMore(s[2..], t);
    AfterNameMore(SkipGap(s[2..]), t);
    IdAtLetters(s, t);
  }

  lemma {:induction false} IdAtLetters(s: string, t: string)
    requires |s| >= 2 && LetterI(s[0]) && LetterD(s[1])
    ensures IdAt(s + t) == AfterName(SkipGap(s[2..] + t))
  {
    assert (s + t)[2..] == s[2..] + t;
  }

  /** What follows cannot go on with a match. */
  ghost predicate Stops(t: string) {
    NoDigit(t) && (t == [] || !LetterD(t[0])) && AfterName(SkipGap(t)).None? && AfterColon(SkipGap(t)).None?
  }

  lemma {:induction false} IdAtStops(s: string, t: string)
    requires s != [] && Stops(t)
    ensures IdAt(s + t) == IdAt(s)
  {
    if |s| >= 2 && LetterI(s[0]) && LetterD(s[1]) {
      assert (s + t)[2..] == s[2..] + t;
      SkipGapMore(s[2..], t);
      if SkipGap(s[2..]) != [] { AfterNameMore(SkipGap(s[2..]), t); }
    }
  }

  lemma {:induction false} BorderedByStop(s: string, t: string)
    requires Stops(t)
    ensures Bordered(IdAt, s, t)
  {
    forall i | 0 <= i < |s| ensures IdAt(s[i..] + t) == IdAt(s[i..]) { IdAtStops(s[i..], t); }
  }

  /** Ids of each of two texts are ids of both together, on their own lines. */
  lemma {:induction false} IdsOfTwo(a: string, b: string)
    ensures IdsIn(a) <= IdsIn(a + ['\n'] + b) && IdsIn(b) <= IdsIn(a + ['\n'] + b)
  {
    var t := ['\n'] + b;
    forall i | 0 <= i < |a| && IdAt(a[i..]).Some? ensures IdAt(a[i..] + t) == IdAt(a[i..]) { IdAtMore(a[i..], t); }
    AllOfTwo(IdAt, false, a, t);
    assert a + ['\n'] + b == a + t && t[1..] == b;
    assert !WordChar('\n') && IdAt(t).None?;
  }

  /** The ids of each text, its first one among them, are ids of the joined texts. */
  lemma {:induction false} JoinShows(texts: seq<string>, i: nat)
    requires i < |texts|
    ensures IdsIn(texts[i]) <= IdsIn(Join(texts, '\n'))
    ensures FirstId(texts[i]).Some? ==> FirstId(texts[i]).value in IdsIn(Join(texts, '\n'))
  {
    FirstIsFound(IdAt, false, texts[i]);
    if |texts| > 1 {
      IdsOfTwo(texts[0], Join(texts[1..], '\n'));
      if i > 0 { JoinShows(texts[1..], i - 1); }
    }
  }

  // ---------------------------------------------------------------- printed rules

  /** Nowhere in the text, whatever follows, can a match begin. */
  predicate NoName(s: string) {
    forall i :: 0 <= i < |s| && LetterI(s[i]) ==> i + 1 < |s| && !LetterD(s[i + 1])
  }

  lemma {:induction false} QuietName(s: string, t: string)
    requires NoName(s)
    ensures Quiet(IdAt, s, t)
  {
    forall i | 0 <= i < |s| ensures IdAt(s[i..] + t).None? {
      assert (s[i..] + t)[0] == s[i];
      assert LetterI(s[i]) ==> (s[i..] + t)[1] == s[i + 1];
    }
  }

  /** A name of characters of argument names shows no id: no colon follows it. */
  lemma {:induction false} QuietArgument(s: string, t: string)
    requires forall c :: c in s ==> ArgumentChar(c)
    ensures Quiet(IdAt, s, [' ', '"'] + t)
  {
    forall i | 0 <= i < |s| ensures IdAt(s[i..] + ([' ', '"'] + t)).None? {
      ArgumentAt(s[i..], t);
    }
  }

  lemma {:induction false} ArgumentAt(s: string, t: string)
    requires s != [] && forall c :: c in s ==> ArgumentChar(c)
    ensures IdAt(s + ([' ', '"'] + t)).None?
  {
    var rest := [' ', '"'] + t;
    var all := s + rest;
    if |s| == 1 {
      assert all[1] == ' ';
    } else if |s| == 2 {
      assert all[2..] == rest && rest[1..] == ['"'] + t;
      assert SkipGap(rest) == ['"'] + t;
    } else {
      assert all[2] == s[2] && s[2] in s;
      assert SkipGap(all[2..]) == all[2..];
    }
  }

  lemma {:induction false} UriHasNoName()
    ensures NoName("REQUEST_URI" + AfterField)
  {
  }

  lemma {:induction false} MethodHasNoName()
    ensures NoName("REQUEST_METHOD" + AfterField)
  {
  }

  lemma {:induction false} HostHasNoName()
    ensures NoName("REQUEST_HEADERS:Host" + AfterField)
  {
  }

  lemma {:induction false} AgentHasNoName()
    ensures NoName("REQUEST_HEADERS:User-Agent" + AfterField)
  {
  }

  lemma {:induction false} FieldHasNoName(field: string)
    requires KnownField(field) && field != "ARGS"
    ensures NoName(field + AfterField)
  {
    UriHasNoName();
    MethodHasNoName();
    HostHasNoName();
    AgentHasNoName();
  }

  lemma {:induction false} FirstBehindArgs(argument: string, t: string)
    requires forall c :: c in argument ==> ArgumentChar(c)
    ensures First(IdAt, false, "ARGS:" + (argument + ([' ', '"'] + t))) == First(IdAt, false, t)
  {
    QuietName("ARGS:", argument + ([' ', '"'] + t));
    FirstBehind(IdAt, false, "ARGS:", argument + ([' ', '"'] + t));
    QuietArgument(argument, t);
    FirstBehind(IdAt, false, argument, [' ', '"'] + t);
    QuietName([' ', '"'], t);
    FirstBehind(IdAt, Behind(false, argument), [' ', '"'], t);
  }

  lemma {:induction false} FirstBehindName(field: string, t: string)
    requires KnownField(field) && field != "ARGS"
    ensures First(IdAt, false, field + (AfterField + t)) == First(IdAt, false, t)
  {
    var name := field + AfterField;
    Apart(field, AfterField, t);
    FieldHasNoName(field);
    QuietName(name, t);
    FirstBehind(IdAt, false, name, t);
    assert name[|name| - 1] == '"';
  }

  lemma {:induction false} FirstBehindField(r: Rule, t: string)
    requires ValidNormal(r)
    ensures First(IdAt, false, FieldText(r) + (AfterField + t)) == First(IdAt, false, t)
  {
    if r.field == "ARGS" {
      FirstBehindArgs(r.argument, t);
      Apart("ARGS:", r.argument, AfterField + t);
    } else {
      FirstBehindName(r.field, t);
    }
  }

  lemma {:induction false} FirstBehindOperator(operator: string, t: string)
    requires KnownOperator(operator)
    ensures First(IdAt, false, operator + (" " + t)) == First(IdAt, false, t)
  {
    var name := operator + " ";
    assert operator + (" " + t) == name + t;
    OperatorHasNoName(operator);
    QuietName(name, t);
    FirstBehind(IdAt, false, name, t);
    assert name[|name| - 1] == ' ';
  }

  lemma {:induction false} OperatorHasNoName(operator: string)
    requires KnownOperator(operator)
    ensures NoName(operator + " ")
  {
  }

  lemma {:induction false} DigitsOfId(id: nat, rest: string)
    requires id <= MaxInt && NoDigit(rest)
    ensures Digits(Itoa(id) + rest) == Some(id) && AfterColon(Itoa(id) + rest) == Some(id) && SkipGap(Itoa(id) + rest) == Itoa(id) + rest
  {
    var n := Itoa(id);
    assert n[0] in n && (n + rest)[0] == n[0];
    SpanAt(n, rest, IsDigit);
    AtoiItoa(id);
  }

  lemma {:induction false} IdAtName(s: string)
    requires SkipGap(s) == s
    ensures IdAt(['i', 'd', ':'] + s) == AfterColon(s)
  {
    var t := ['i', 'd', ':'] + s;
    assert t[2..] == [':'] + s && ([':'] + s)[1..] == s;
  }

  lemma {:induction false} IdAtId(id: nat, rest: string)
    requires id <= MaxInt && NoDigit(rest)
    ensures IdAt(['i', 'd', ':'] + (Itoa(id) + rest)) == Some(id)
  {
    DigitsOfId(id, rest);
    IdAtName(Itoa(id) + rest);
  }

  /** The tail of a printed rule shows its id. */
  lemma {:induction false} TailShows(word: bool, id: nat, rest: string)
    requires id <= MaxInt && NoDigit(rest)
    ensures First(IdAt, word, ['"', ' ', '"'] + (['i', 'd', ':'] + (Itoa(id) + rest))) == Some(id)
  {
    IdAtId(id, rest);
    QuoteThen(word, ['i', 'd', ':'] + (Itoa(id) + rest));
  }

  lemma {:induction false} QuoteThen(word: bool, s: string)
    requires s != [] && IdAt(s).Some?
    ensures First(IdAt, word, ['"', ' ', '"'] + s) == IdAt(s)
  {
    var quote := ['"', ' ', '"'];
    QuietName(quote, s);
    FirstBehind(IdAt, word, quote, s);
  }

  lemma {:induction false} QuoteStops(s: string)
    ensures Stops(['"', ' ', '"'] + s)
  {
    var t := ['"', ' ', '"'] + s;
    assert t[1..][0] == ' ' && SkipGap(t) == t;
  }

  lemma {:induction false} ValueMarks()
    ensures AfterValue == ['"', ' ', '"'] + ['i', 'd', ':']
  {
  }

  lemma {:induction false} TailParts(id: nat, block: bool, number: nat) returns (rest: string)
    ensures Tail(id, block, number) == ['"', ' ', '"'] + (['i', 'd', ':'] + (Itoa(id) + rest)) && NoDigit(rest)
  {
    var more := Actions(block) + (AfterActions + (Itoa(number) + "\""));
    rest := AfterId + more;
    CommaFirst(more);
    ValueMarks();
    Apart(['"', ' ', '"'], ['i', 'd', ':'], Itoa(id) + rest);
  }

  lemma {:induction false} CommaFirst(more: string)
    ensures NoDigit(AfterId + more)
  {
    assert (AfterId + more)[0] == ',';
  }

  lemma Apart(a: string, b: string, c: string)
    ensures (a + b) + c == a + (b + c)
  {
  }

  lemma {:induction false} ValueThenTail(value: string, tail: string, id: nat)
    requires Stops(tail) && forall word :: First(IdAt, word, tail) == Some(id)
    ensures First(IdAt, false, value + tail) == if FirstId(value).Some? then FirstId(value) else Some(id)
  {
    BorderedByStop(value, tail);
    FirstOfTwo(IdAt, false, value, tail);
  }

  lemma {:induction false} HeadIsQuiet(t: string)
    ensures First(IdAt, false, Head + t) == First(IdAt, false, t)
  {
    QuietName(Head, t);
    FirstBehind(IdAt, false, Head, t);
    assert Head[|Head| - 1] == ' ';
  }

  /** The first id in a printed rule is the one it was given, unless its value shows another before it. */
  lemma {:induction false} PrintShows(rule: Rule, id: nat, number: nat)
    requires Valid(rule) && id <= MaxInt
    ensures FirstId(Print(rule, id, number)) == if FirstId(Normal(rule).value).Some? then FirstId(Normal(rule).value) else Some(id)
  {
    NormalShows(Normal(rule), id, number);
  }

  lemma {:induction false} NormalShows(r: Rule, id: nat, number: nat)
    requires ValidNormal(r) && id <= MaxInt
    ensures FirstId(PrintNormal(r, id, number)) == if FirstId(r.value).Some? then FirstId(r.value) else Some(id)
  {
    var tail := Tail(id, r.action == "block", number);
    var rest := TailParts(id, r.action == "block", number);
    forall word ensures First(IdAt, word, tail) == Some(id) { TailShows(word, id, rest); }
    QuoteStops(['i', 'd', ':'] + (Itoa(id) + rest));
    ValueThenTail(r.value, tail, id);
    FirstBehindOperator(r.operator, r.value + tail);
    FirstBehindField(r, r.operator + (" " + (r.value + tail)));
    HeadIsQuiet(FieldText(r) + Condition(r, id, number));
  }

  // ---------------------------------------------------------------- canonical texts

  lemma {:induction false} SpaceStarts(r: string)
    requires r == [] || IsSpace(r[0])
    ensures AfterName(r).None? && AfterColon(r).None? && NoDigit(r) && (r == [] || !LetterD(r[0]))
  {
  }

  lemma {:induction false} SpacesStop(b: string)
    requires Blank(b)
    ensures Stops(b)
  {
    SkipGapLeaves(b);
    SpaceStarts(b);
    SpaceStarts(SkipGap(b));
  }

  lemma {:induction false} SpacesNoName(b: string)
    requires Blank(b)
    ensures NoName(b) && !Behind(false, b)
  {
    assert b != [] ==> IsSpace(b[|b| - 1]);
  }

  lemma {:induction false} SkipGapLeaves(b: string)
    requires Blank(b)
    ensures Blank(SkipGap(b))
  {
    if b != [] && Gap(b[0]) {
      assert Blank(b[1..]);
      SkipGapLeaves(b[1..]);
    }
  }

  lemma {:induction false} SpacesBefore(a: string, s: string)
    requires Blank(a)
    ensures FirstId(a + s) == FirstId(s)
  {
    SpacesNoName(a);
    QuietName(a, s);
    FirstBehind(IdAt, false, a, s);
  }

  lemma {:induction false} SpacesShowNothing(word: bool, b: string)
    requires Blank(b)
    ensures First(IdAt, word, b).None?
  {
    SpacesNoName(b);
    QuietName(b, "");
    FirstBehind(IdAt, word, b, "");
    assert b + "" == b;
  }

  lemma {:induction false} SpacesAfter(s: string, b: string)
    requires Blank(b)
    ensures FirstId(s + b) == FirstId(s)
  {
    SpacesStop(b);
    BorderedByStop(s, b);
    FirstOfTwo(IdAt, false, s, b);
    SpacesShowNothing(Behind(false, s), b);
  }

  lemma {:induction false} SpacesAround(a: string, m: string, b: string)
    requires Blank(a) && Blank(b)
    ensures FirstId(a + m + b) == FirstId(m)
  {
    SpacesBefore(a, m + b);
    SpacesAfter(m, b);
    Apart(a, m, b);
  }

  lemma {:induction false} TrimShows(s: string)
    ensures FirstId(TrimSpace(s)) == FirstId(s)
  {
    var a, b := TrimSplit(s);
    SpacesAround(a, TrimSpace(s), b);
  }

  lemma {:induction false} UnixCons(s: string)
    requires s != [] && s[0] != '\r'
    ensures Unix(s) == [s[0]] + Unix(s[1..]) && Unix(s)[1..] == Unix(s[1..])
  {
  }

  lemma {:induction false} UnixFirst(s: string)
    ensures s != [] ==> Unix(s) != [] && (Unix(s)[0] == s[0] || (s[0] == '\r' && Unix(s)[0] == '\n'))
    ensures s == [] ==> Unix(s) == []
  {
  }

  lemma {:induction false} UnixDigits(s: string)
    ensures Span(Unix(s), IsDigit).0 == Span(s, IsDigit).0
  {
    UnixFirst(s);
    if s != [] && IsDigit(s[0]) {
      UnixCons(s);
      UnixDigits(s[1..]);
    }
  }

  lemma {:induction false} UnixSkipGap(s: string)
    ensures SkipGap(Unix(s)) == Unix(SkipGap(s))
  {
    UnixFirst(s);
    if s != [] && Gap(s[0]) {
      UnixSkipGap(s[1..]);
      if !(s[0] == '\r' && |s| > 1 && s[1] == '\n') {
        assert Unix(s) == [s[0]] + Unix(s[1..]) && Unix(s)[1..] == Unix(s[1..]);
      }
    }
  }

  lemma {:induction false} UnixAfterColon(s: string)
    ensures AfterColon(Unix(s)) == AfterColon(s)
  {
    UnixFirst(s);
    UnixDigits(s);
    if s != [] && Mark(s[0]) {
      UnixCons(s);
      UnixDigits(s[1..]);
    }
  }

  lemma {:induction false} UnixAfterName(s: string)
    ensures AfterName(Unix(s)) == AfterName(s)
  {
    UnixFirst(s);
    if s != [] && s[0] == ':' {
      UnixCons(s);
      UnixSkipGap(s[1..]);
      UnixAfterColon(SkipGap(s[1..]));
    }
  }

  lemma {:induction false} UnixIdAt(s: string)
    ensures IdAt(Unix(s)) == IdAt(s)
  {
    UnixFirst(s);
    if s != [] && LetterI(s[0]) {
      UnixCons(s);
      UnixFirst(s[1..]);
      if |s| >= 2 && LetterD(s[1]) {
        UnixCons(s[1..]);
        assert Unix(s)[2..] == Unix(s[2..]);
        UnixSkipGap(s[2..]);
        UnixAfterName(SkipGap(s[2..]));
      }
    }
  }

  /** Line ends do not matter. */
  lemma {:induction false} UnixShows(word: bool, s: string)
    ensures First(IdAt, word, Unix(s)) == First(IdAt, word, s)
    decreases |s|
  {
    if s != [] {
      UnixIdAt(s);
      UnixFirst(s);
      if s[0] == '\r' && |s| > 1 && s[1] == '\n' {
        UnixShows(word, s[1..]);
        assert s[1..][0] == '\n' && IdAt(s[1..]).None?;
      } else {
        assert Unix(s) == [s[0]] + Unix(s[1..]) && Unix(s)[1..] == Unix(s[1..]);
        UnixShows(WordChar(s[0]), s[1..]);
      }
    }
  }

  /** Cleaning a text keeps its first id. */
  lemma {:induction false} CanonicalShows(s: string)
    ensures FirstId(TrimSpace(Unix(s))) == FirstId(s)
  {
    TrimShows(Unix(s));
    UnixShows(false, s);
  }

  // ---------------------------------------------------------------- texts with other blanks

  /** One blank for every run of blanks, and none at the end. */
  function Tight(s: string): string
    decreases |s|
  {
    if s == [] then []
    else if !Gap(s[0]) then [s[0]] + Tight(s[1..])
    else if SkipGap(s) == [] then []
    else [' '] + Tight(SkipGap(s))
  }

  lemma {:induction false} TightFirst(s: string)
    ensures s == [] ==> Tight(s) == []
    ensures s != [] && !Gap(s[0]) ==> Tight(s) != [] && Tight(s)[0] == s[0] && Tight(s)[1..] == Tight(s[1..])
    ensures s != [] && Gap(s[0]) ==> Tight(s) == [] || (Tight(s)[0] == ' ' && Tight(s)[1..] == Tight(SkipGap(s)))
  {
  }

  lemma {:induction false} TightSkipGap(s: string)
    ensures SkipGap(Tight(s)) == Tight(SkipGap(s))
  {
    TightFirst(s);
    TightFirst(SkipGap(s));
  }

  lemma {:induction false} TightDigits(s: string)
    ensures Span(Tight(s), IsDigit).0 == Span(s, IsDigit).0
  {
    TightFirst(s);
    if s != [] && IsDigit(s[0]) { TightDigits(s[1..]); }
  }

  lemma {:induction false} TightDigitsOf(s: string)
    ensures Digits(Tight(s)) == Digits(s)
  {
    TightDigits(s);
  }

  lemma {:induction false} AfterMark(s: string, rest: string)
    requires s != [] && Mark(s[0]) && s[1..] == rest
    ensures AfterColon(s) == Digits(rest)
  {
  }

  lemma {:induction false} NoMark(s: string)
    requires s == [] || !Mark(s[0])
    ensures AfterColon(s) == Digits(s)
  {
  }

  lemma {:induction false} TightAfterColon(s: string)
    ensures AfterColon(Tight(s)) == AfterColon(s)
  {
    TightFirst(s);
    if s != [] && Mark(s[0]) {
      TightDigitsOf(s[1..]);
      AfterMark(s, s[1..]);
      AfterMark(Tight(s), Tight(s[1..]));
    } else {
      TightDigitsOf(s);
      NoMark(s);
      NoMark(Tight(s));
    }
  }

  lemma {:induction false} TightAfterName(s: string)
    ensures AfterName(Tight(s)) == AfterName(s)
  {
    TightFirst(s);
    if s != [] && s[0] == ':' {
      TightSkipGap(s[1..]);
      TightAfterColon(SkipGap(s[1..]));
    }
  }

  lemma {:induction false} TightIdAt(s: string)
    ensures IdAt(Tight(s)) == IdAt(s)
  {
    TightFirst(s);
    if s != [] && LetterI(s[0]) {
      TightFirst(s[1..]);
      if |s| >= 2 && LetterD(s[1]) {
        assert Tight(s)[2..] == Tight(s[1..])[1..];
        TightSkipGap(s[2..]);
        TightAfterName(SkipGap(s[2..]));
      }
    }
  }

  lemma {:induction false} AllBehindGap(word: bool, s: string)
    requires s != [] && Gap(s[0])
    ensures All(IdAt, word, s) == All(IdAt, false, SkipGap(s))
  {
    if |s| > 1 && Gap(s[1]) {
      AllBehindGap(false, s[1..]);
    } else {
      assert SkipGap(s) == s[1..];
    }
  }

  lemma {:induction false} TightAll(word: bool, s: string)
    ensures All(IdAt, word, Tight(s)) == All(IdAt, word, s)
    decreases |s|
  {
    TightFirst(s);
    if s != [] && !Gap(s[0]) {
      TightIdAt(s);
      TightAll(WordChar(s[0]), s[1..]);
    } else if s != [] {
      AllBehindGap(word, s);
      TightAll(false, SkipGap(s));
      TightFirst(SkipGap(s));
      if Tight(s) != [] { AllBehindGap(word, Tight(s)); }
    }
  }

  /** Every blank of a text is one that the pattern takes for one. */
  predicate PlainBlanks(s: string) { forall c :: c in s && IsSpace(c) ==> Gap(c) }

  lemma {:induction false} TightWord(word: string, rest: string)
    requires forall c :: c in word ==> !Gap(c)
    ensures Tight(word + rest) == word + Tight(rest)
  {
    if word == [] {
      assert word + rest == rest;
    } else {
      TightWord(word[1..], rest);
      assert word[0] in word && (word + rest)[1..] == word[1..] + rest;
      assert word == [word[0]] + word[1..];
    }
  }

  lemma {:induction false} WordsTight(word: string, rest: string)
    requires (forall c :: c in word ==> NotSpace(c)) && (rest == [] || Gap(rest[0]))
    ensures Tight(word + rest) == word + (if SkipGap(rest) == [] then [] else [' '] + Tight(SkipGap(rest)))
  {
    forall c | c in word ensures !Gap(c) { assert NotSpace(c); }
    TightWord(word, rest);
  }

  /** Up to blanks at the start, the tight form of a text is its fields joined by single blanks. */
  lemma {:induction false} TightIsSquash(s: string)
    requires PlainBlanks(s)
    ensures Tight(SkipGap(s)) == Squash(s)
    decreases |s|
  {
    if s != [] && IsSpace(s[0]) {
      assert s[0] in s && PlainBlanks(s[1..]);
      TightIsSquash(s[1..]);
    } else if s != [] {
      var (word, rest) := Span(s, NotSpace);
      forall c | c in rest && IsSpace(c) ensures Gap(c) { assert c in s; }
      assert rest != [] ==> rest[0] in rest;
      WordsTight(word, rest);
      TightIsSquash(rest);
      JoinWord(word, Fields(rest));
      FieldsAreWords(rest);
      EmptySquash(Fields(rest));
      TightFirst(SkipGap(rest));
    }
  }

  lemma {:induction false} JoinWord(word: string, words: seq<string>)
    ensures Join([word] + words, ' ') == if words == [] then word else word + ([' '] + Join(words, ' '))
  {
    assert ([word] + words)[1..] == words;
  }

  lemma {:induction false} EmptySquash(words: seq<string>)
    requires forall i :: 0 <= i < |words| ==> Word(words[i])
    ensures Join(words, ' ') == "" <==> words == []
  {
    if words != [] { assert Word(words[0]); }
  }

  /** A text and its trimmed lines show the same ids, as long as all blanks are plain. */
  lemma {:induction false} LinesShow(text: string)
    requires PlainBlanks(text)
    ensures IdsIn(Join(LinesOf(text), '\n')) == IdsIn(text)
  {
    LinesPlain(text);
    ShownBySquash(text);
    ShownBySquash(Join(LinesOf(text), '\n'));
    FieldsOfJoinedLines(text);
  }

  lemma {:induction false} ShownBySquash(s: string)
    requires PlainBlanks(s)
    ensures IdsIn(s) == IdsIn(Squash(s))
  {
    TightIsSquash(s);
    TightAll(false, SkipGap(s));
    if s != [] && Gap(s[0]) { AllBehindGap(false, s); }
  }

  lemma {:induction false} LinesPlain(text: string)
    requires PlainBlanks(text)
    ensures PlainBlanks(Join(LinesOf(text), '\n'))
  {
    forall c | c in Join(LinesOf(text), '\n') && IsSpace(c) ensures Gap(c) {
      if c != '\n' {
        JoinHolds(LinesOf(text), c);
        var i :| 0 <= i < |LinesOf(text)| && c in LinesOf(text)[i];
        LinesFrom(text, LinesOf(text)[i], c);
      }
    }
  }

  lemma {:induction false} JoinHolds(lines: seq<string>, c: char)
    requires c in Join(lines, '\n') && c != '\n'
    ensures exists i :: 0 <= i < |lines| && c in lines[i]
  {
    if |lines| == 1 {
      assert c in lines[0];
    } else if c !in lines[0] {
      JoinHolds(lines[1..], c);
      var i :| 0 <= i < |lines[1..]| && c in lines[1..][i];
      assert c in lines[i + 1];
    }
  }

  lemma {:induction false} LinesFrom(text: string, line: string, c: char)
    requires line in LinesOf(text) && c in line
    ensures c in text
  {
    if c !in text {
      NoneInLines(text, c);
      ProperFrom(Split(text, '\n'), line, c);
    }
  }

  lemma {:induction false} NoneInLines(s: string, c: char)
    requires c !in s
    ensures forall line :: line in Split(s, '\n') ==> c !in line
  {
    if s != [] { NoneInLines(s[1..], c); }
  }

  lemma {:induction false} ProperFrom(lines: seq<string>, line: string, c: char)
    requires line in Proper(TrimSpace, lines) && forall l :: l in lines ==> c !in l
    ensures c !in line
  {
    ProperCons(TrimSpace, lines[0], lines[1..]);
    assert lines == [lines[0]] + lines[1..];
    assert lines[0] in lines;
    TrimKeepsOut(lines[0], c);
    if line != TrimSpace(lines[0]) { ProperFrom(lines[1..], line, c); }
  }

  const NoBreakSpace: char := 0xA0 as char

  lemma {:induction false} NothingFound(word: bool, s: string)
    ensures First(IdAt, word, s).None? ==> All(IdAt, word, s) == {}
    decreases |s|
  {
    if s != [] { NothingFound(WordChar(s[0]), s[1..]); }
  }

  /** Not so for other blanks: a no-break space between name and colon hides an id, which its lines, trimmed, show. */
  lemma {:induction false} TrimmingShowsId(text: string, n: nat)
    requires n <= MaxInt && text == ['i', 'd', NoBreakSpace] + ['\n'] + ([':'] + Itoa(n))
    ensures IdsIn(text) == {} && n in IdsIn(Join(LinesOf(text), '\n'))
  {
    var second := [':'] + Itoa(n);
    DigitsPlain(Itoa(n));
    HiddenId(second);
    TrimmedName();
    TrimmedLines(['i', 'd', NoBreakSpace], ['i', 'd'], second);
    ShownId(n);
  }

  lemma {:induction false} HiddenId(second: string)
    requires forall c :: c in second ==> !LetterI(c)
    ensures IdsIn(['i', 'd', NoBreakSpace] + ['\n'] + second) == {}
  {
    var rest := ['d', NoBreakSpace, '\n'] + second;
    var text := ['i', 'd', NoBreakSpace] + ['\n'] + second;
    assert text == ['i'] + rest && text[1..] == rest && text[2..][0] == NoBreakSpace;
    forall i | 0 <= i < |rest| ensures !LetterI(rest[i]) {
      if i >= 3 { assert rest[i] == second[i - 3]; }
    }
    QuietName(rest, "");
    FirstBehind(IdAt, true, rest, "");
    assert rest + "" == rest;
    assert FirstId(text) == First(IdAt, true, rest);
    NothingFound(false, text);
  }

  lemma {:induction false} ColonNumber(n: nat)
    requires n <= MaxInt
    ensures AfterName([':'] + Itoa(n)) == Some(n)
  {
    DigitsOfId(n, "");
    assert Itoa(n) + "" == Itoa(n) && ([':'] + Itoa(n))[1..] == Itoa(n);
  }

  lemma {:induction false} FoundAtStart(r: string)
    requires AfterName(SkipGap(r)).Some?
    ensures AfterName(SkipGap(r)).value in IdsIn(['i', 'd'] + r)
  {
    IdAtLetters(['i', 'd'], r);
    assert ['i', 'd'][2..] + r == r;
    FirstIsFound(IdAt, false, ['i', 'd'] + r);
  }

  lemma {:induction false} ShownId(n: nat)
    requires n <= MaxInt
    ensures n in IdsIn(['i', 'd'] + (['\n'] + ([':'] + Itoa(n))))
  {
    var r := ['\n'] + ([':'] + Itoa(n));
    ColonNumber(n);
    assert r[1..] == [':'] + Itoa(n);
    assert SkipGap(r) == [':'] + Itoa(n);
    FoundAtStart(r);
  }

  lemma {:induction false} TrimmedName()
    ensures TrimSpace(['i', 'd', NoBreakSpace]) == ['i', 'd']
  {
    TrimAfter(['i', 'd'], NoBreakSpace);
    assert ['i', 'd', NoBreakSpace] == ['i', 'd'] + [NoBreakSpace];
  }

  lemma {:induction false} DigitsPlain(s: string)
    requires s != [] && forall c :: c in s ==> IsDigit(c)
    ensures Trimmed([':'] + s) && forall c :: c in [':'] + s ==> !LetterI(c) && c != '\n'
  {
    assert s[|s| - 1] in s;
  }

  lemma {:induction false} TrimmedLines(first: string, short: string, second: string)
    requires TrimSpace(first) == short && short != "" && Trimmed(second) && second != "" && '\n' !in first && '\n' !in second
    ensures Join(LinesOf(first + ['\n'] + second), '\n') == short + (['\n'] + second)
  {
    TwoLines(first, second);
    assert One(short) + One(second) == [short, second] && [short, second][1..] == [second];
    Apart(short, ['\n'], second);
  }

  lemma {:induction false} TwoLines(first: string, second: string)
    requires '\n' !in first && '\n' !in second
    ensures LinesOf(first + ['\n'] + second) == One(TrimSpace(first)) + One(TrimSpace(second))
  {
    SplitCons(first, '\n', second);
    SplitOne(second, '\n');
    ProperCons(TrimSpace, first, [second]);
    ProperOne(TrimSpace, second);
  }
}
