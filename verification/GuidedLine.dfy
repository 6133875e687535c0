/** One guided rule, printed as a SecRule line and parsed back (internal/manager/policy_authoring_handlers.go). */
module GuidedLine {
  import opened Prelude
  import opened Text

  datatype Rule = Rule(field: string, argument: string, operator: string, value: string, action: string)

  // ---------------------------------------------------------------- validation

  /** Bytes of a text in UTF-8. */
  function ByteLength(s: string): nat {
    if s == [] then 0
    else ByteLength(s[1..])
         + (if s[0] as int < 0x80 then 1 else if s[0] as int < 0x800 then 2 else if s[0] as int < 0x1_0000 then 3 else 4)
  }

  predicate ArgumentChar(c: char) {
    'a' <= c <= 'z' || 'A' <= c <= 'Z' || '0' <= c <= '9' || c == '_' || c == '-' || c == '.'
  }

  predicate ValidArgument(value: string) {
    value != "" && ByteLength(value) <= 128 && forall c :: c in value ==> ArgumentChar(c)
  }

  predicate ValueChar(c: char) { c != '"' && c != '\\' && c != '\r' && c != '\n' }

  predicate KnownField(field: string) {
    field == "REQUEST_URI" || field == "REQUEST_METHOD" || field == "REQUEST_HEADERS:Host"
    || field == "REQUEST_HEADERS:User-Agent" || field == "ARGS"
  }

  predicate KnownOperator(operator: string) {
    operator == "@contains" || operator == "@beginsWith" || operator == "@streq"
  }

  /** The rule as it is printed: trimmed, with an argument only where one is used. */
  function Normal(rule: Rule): Rule {
    var field := TrimSpace(rule.field);
    Rule(field, if field == "ARGS" then TrimSpace(rule.argument) else "", TrimSpace(rule.operator),
         TrimSpace(rule.value), TrimSpace(rule.action))
  }

  predicate ValidNormal(r: Rule) {
    && KnownField(r.field) && (r.field == "ARGS" ==> ValidArgument(r.argument))
    && KnownOperator(r.operator)
    && r.value != "" && ByteLength(r.value) <= 512 && (forall c :: c in r.value ==> ValueChar(c))
    && (r.action == "block" || r.action == "detect")
  }

  predicate Valid(rule: Rule) { ValidNormal(Normal(rule)) }

  predicate Ascii(s: string) { forall c :: c in s ==> c as int < 0x80 }

  /** A text has no more characters than bytes, and as many when all of them are ASCII. */
  lemma {:induction false} BytesOfText(s: string)
    ensures |s| <= ByteLength(s) <= 4 * |s| && (ByteLength(s) == |s| <==> Ascii(s))
  {
    if s != "" {
      BytesOfText(s[1..]);
      assert s == [s[0]] + s[1..];
      if Ascii(s) { assert s[0] in s && forall c :: c in s[1..] ==> c in s; }
    }
  }

  /** Argument characters are ASCII, so the limit of an argument is one of characters. */
  lemma {:induction false} ArgumentIs(argument: string)
    ensures ValidArgument(argument) <==>
              && 1 <= |argument| <= 128
              && forall c :: c in argument ==>
                   'a' <= c <= 'z' || 'A' <= c <= 'Z' || '0' <= c <= '9' || c == '_' || c == '-' || c == '.'
  {
    BytesOfText(argument);
    if forall c :: c in argument ==> ArgumentChar(c) { assert Ascii(argument); }
  }

  /** The rule as it is looked at: trimmed, and with an argument only under ARGS. */
  lemma {:induction false} NormalFields(rule: Rule, r: Rule)
    requires r == Normal(rule)
    ensures r.field == TrimSpace(rule.field) && r.operator == TrimSpace(rule.operator) && r.value == TrimSpace(rule.value)
    ensures r.action == TrimSpace(rule.action) && r.argument == if r.field == "ARGS" then TrimSpace(rule.argument) else ""
  {
  }

  lemma {:induction false} ValueIs(value: string)
    ensures (forall c :: c in value ==> ValueChar(c)) <==> '"' !in value && '\\' !in value && '\r' !in value && '\n' !in value
  {
  }

  /** What is asked of it. */
  lemma {:induction false} ValidRule(rule: Rule, r: Rule)
    requires r == Normal(rule)
    ensures Valid(rule) <==>
              && (r.field == "REQUEST_URI" || r.field == "REQUEST_METHOD" || r.field == "REQUEST_HEADERS:Host"
                  || r.field == "REQUEST_HEADERS:User-Agent" || r.field == "ARGS")
              && (r.field == "ARGS" ==> ValidArgument(r.argument))
              && (r.operator == "@contains" || r.operator == "@beginsWith" || r.operator == "@streq")
              && r.value != "" && ByteLength(r.value) <= 512
              && '"' !in r.value && '\\' !in r.value && '\r' !in r.value && '\n' !in r.value
              && (r.action == "block" || r.action == "detect")
  {
    ValueIs(r.value);
  }

  // ---------------------------------------------------------------- printing

  const Head := "SecRule "
  const AfterField := " \""
  const AfterValue := "\" \"id:"
  const AfterId := ",phase:1,"
  const AfterActions := ",msg:M-WAF guided rule "

  function FieldText(r: Rule): string { if r.field == "ARGS" then "ARGS:" + r.argument else r.field }

  function Actions(block: bool): string { if block then "deny,status:403,log" else "pass,log" }

  /** The text behind the value. */
  function Tail(id: nat, block: bool, number: nat): string {
    AfterValue + (Itoa(id) + (AfterId + (Actions(block) + (AfterActions + (Itoa(number) + "\"")))))
  }

  /** The text behind the field. */
  function Condition(r: Rule, id: nat, number: nat): string {
    AfterField + (r.operator + (" " + (r.value + Tail(id, r.action == "block", number))))
  }

  function PrintNormal(r: Rule, id: nat, number: nat): string { Head + (FieldText(r) + Condition(r, id, number)) }

  /** fmt.Sprintf of a rule, its id and its number in the list. */
  function Print(rule: Rule, id: nat, number: nat): string { PrintNormal(Normal(rule), id, number) }

  /** The whole line, as the format string of the source has it. */
  lemma {:induction false} PrintedText(rule: Rule, id: nat, number: nat)
    ensures var r := Normal(rule);
            Print(rule, id, number)
            == "SecRule " + (if r.field == "ARGS" then "ARGS:" + r.argument else r.field) + " \"" + r.operator + " " + r.value
               + "\" \"id:" + Itoa(id) + ",phase:1," + (if r.action == "block" then "deny,status:403,log" else "pass,log")
               + ",msg:M-WAF guided rule " + Itoa(number) + "\""
  {
    var r := Normal(rule);
    LeftToRight(Head, FieldText(r), AfterField, r.operator, " ", r.value, AfterValue, Itoa(id), AfterId,
                Actions(r.action == "block"), AfterActions, Itoa(number), "\"");
  }

  lemma {:induction false} LeftToRight(a: string, b: string, c: string, d: string, e: string, f: string, g: string, h: string,
                                       i: string, j: string, k: string, l: string, m: string)
    ensures a + (b + (c + (d + (e + (f + (g + (h + (i + (j + (k + (l + m)))))))))))
         == a + b + c + d + e + f + g + h + i + j + k + l + m
  {
    assert g + (h + (i + (j + (k + (l + m))))) == g + h + i + j + k + l + m by {
      assert j + (k + (l + m)) == j + k + l + m;
      assert h + (i + (j + k + l + m)) == h + i + j + k + l + m;
    }
    var t := g + h + i + j + k + l + m;
    assert a + (b + (c + (d + (e + (f + t))))) == a + b + c + d + e + f + t;
  }

  // ---------------------------------------------------------------- parsing

  function Strip(s: string, prefix: string): Option<string> {
    if prefix <= s then Some(s[|prefix|..]) else None
  }

  predicate FieldChar(c: char) {
    'A' <= c <= 'Z' || 'a' <= c <= 'z' || '0' <= c <= '9' || c == ':' || c == '_' || c == '-'
  }

  /** A non-empty run of characters. The regular expression is unambiguous: no run may be cut short. */
  function Run(s: string, ok: char -> bool): Option<(string, string)> {
    var (run, rest) := Span(s, ok);
    if run == "" then None else Some((run, rest))
  }

  /** From the quote behind the value to the end of the line: whether the rule blocks. */
  function ParseTail(s: string): Option<bool> {
    match Strip(s, AfterValue) case None => None case Some(s1) =>
    match Run(s1, IsDigit) case None => None case Some((_, s2)) =>
    match Strip(s2, AfterId) case None => None case Some(s3) =>
    match ParseActions(s3) case None => None case Some((block, s4)) =>
    match Strip(s4, AfterActions) case None => None case Some(s5) =>
    match Run(s5, IsDigit) case None => None case Some((_, s6)) =>
    if s6 == "\"" then Some(block) else None
  }

  function ParseActions(s: string): Option<(bool, string)> {
    match Strip(s, Actions(false))
    case Some(rest) => Some((false, rest))
    case None => match Strip(s, Actions(true)) case Some(rest) => Some((true, rest)) case None => None
  }

  function ParseOperator(s: string): Option<(string, string)> {
    match Strip(s, "@streq ") case Some(rest) => Some(("@streq", rest)) case None =>
    match Strip(s, "@beginsWith ") case Some(rest) => Some(("@beginsWith", rest)) case None =>
    match Strip(s, "@contains ") case Some(rest) => Some(("@contains", rest)) case None => None
  }

  /** The rule a line in guided form stands for, before validation. */
  function Match(line: string): Option<Rule> {
    match Strip(line, Head) case None => None case Some(s1) =>
    match Run(s1, FieldChar) case None => None case Some((field, s2)) =>
    match Strip(s2, AfterField) case None => None case Some(s3) =>
    match ParseOperator(s3) case None => None case Some((operator, s4)) =>
    match Run(s4, ValueChar) case None => None case Some((value, s5)) =>
    match ParseTail(s5) case None => None case Some(block) =>
    Some(Found(field, operator, value, block))
  }

  function Found(field: string, operator: string, value: string, block: bool): Rule {
    var action := if block then "block" else "detect";
    if "ARGS:" <= field then Rule("ARGS", field[5..], operator, value, action) else Rule(field, "", operator, value, action)
  }

  /** The guided rule on a line, if there is a valid one. */
  function Parse(line: string): Option<Rule> {
    match Match(line)
    case None => None
    case Some(rule) => if Valid(rule) then Some(rule) else None
  }

  // ---------------------------------------------------------------- parsing inverts printing

  lemma StripOf(prefix: string, s: string)
    ensures Strip(prefix + s, prefix) == Some(s)
  {
  }

  lemma RunOf(run: string, s: string, ok: char -> bool)
    requires run != "" && (forall c :: c in run ==> ok(c)) && s != [] && !ok(s[0])
    ensures Run(run + s, ok) == Some((run, s))
  {
    SpanAt(run, s, ok);
  }

  lemma ActionsOf(block: bool, s: string)
    ensures ParseActions(Actions(block) + s) == Some((block, s))
  {
    StripOf(Actions(block), s);
    if block {
      assert (Actions(true) + s)[0] == 'd' && Actions(false)[0] == 'p';
    }
  }

  lemma NumberOf(n: nat, s: string)
    requires s != [] && !IsDigit(s[0])
    ensures Run(Itoa(n) + s, IsDigit) == Some((Itoa(n), s))
  {
    RunOf(Itoa(n), s, IsDigit);
  }

  lemma TailOf(id: nat, block: bool, number: nat)
    ensures ParseTail(Tail(id, block, number)) == Some(block)
  {
    var s6 := "\"";
    var s5 := Itoa(number) + s6;
    var s4 := AfterActions + s5;
    var s3 := Actions(block) + s4;
    var s2 := AfterId + s3;
    var s1 := Itoa(id) + s2;
    StripOf(AfterValue, s1);
    NumberOf(id, s2);
    StripOf(AfterId, s3);
    ActionsOf(block, s4);
    StripOf(AfterActions, s5);
    NumberOf(number, s6);
  }

  lemma OperatorOf(operator: string, s: string)
    requires KnownOperator(operator)
    ensures ParseOperator(operator + (" " + s)) == Some((operator, s))
  {
    var t := operator + (" " + s);
    assert t == operator + " " + s;
    StripOf(operator + " ", s);
    if operator == "@streq" {
      assert "@streq" + " " == "@streq ";
    } else {
      assert t[1] != 's';
      if operator == "@beginsWith" {
        assert "@beginsWith" + " " == "@beginsWith ";
      } else {
        assert t[1] == 'c';
        assert "@contains" + " " == "@contains ";
      }
    }
  }

  predicate Dotted(rule: Rule) { '.' in FieldText(Normal(rule)) }

  lemma KnownFieldChars(field: string, c: char)
    requires KnownField(field) && c in field
    ensures FieldChar(c)
  {
  }

  lemma FieldChars(r: Rule)
    requires ValidNormal(r)
    ensures FieldText(r) != ""
    ensures forall c :: c in FieldText(r) ==> FieldChar(c) || c == '.'
  {
    forall c | c in FieldText(r) ensures FieldChar(c) || c == '.' {
      if r.field != "ARGS" {
        KnownFieldChars(r.field, c);
      } else if c in "ARGS:" {
      } else {
        assert c in r.argument;
      }
    }
  }

  lemma NormalAgain(rule: Rule)
    ensures Normal(Normal(rule)) == Normal(rule)
  {
  }

  lemma FoundOf(r: Rule)
    requires ValidNormal(r) && (r.field != "ARGS" ==> r.argument == "")
    ensures Found(FieldText(r), r.operator, r.value, r.action == "block") == r
  {
    if r.field == "ARGS" {
      assert ("ARGS:" + r.argument)[5..] == r.argument;
    } else {
      assert r.field[0] == 'R';
    }
  }

  lemma ConditionOf(r: Rule, id: nat, number: nat)
    requires ValidNormal(r)
    ensures var s3 := r.operator + (" " + (r.value + Tail(id, r.action == "block", number)));
            && Strip(Condition(r, id, number), AfterField) == Some(s3)
            && ParseOperator(s3) == Some((r.operator, r.value + Tail(id, r.action == "block", number)))
            && Run(r.value + Tail(id, r.action == "block", number), ValueChar) == Some((r.value, Tail(id, r.action == "block", number)))
  {
    var tail := Tail(id, r.action == "block", number);
    StripOf(AfterField, r.operator + (" " + (r.value + tail)));
    OperatorOf(r.operator, r.value + tail);
    assert tail[0] == '"';
    RunOf(r.value, tail, ValueChar);
  }

  /** A printed rule is found again when its field has no dot. */
  lemma MatchPrinted(r: Rule, id: nat, number: nat)
    requires ValidNormal(r) && (r.field != "ARGS" ==> r.argument == "") && '.' !in FieldText(r)
    ensures Match(PrintNormal(r, id, number)) == Some(r)
  {
    var rest := Condition(r, id, number);
    StripOf(Head, FieldText(r) + rest);
    FieldChars(r);
    assert rest[0] == ' ';
    RunOf(FieldText(r), rest, FieldChar);
    ConditionOf(r, id, number);
    TailOf(id, r.action == "block", number);
    FoundOf(r);
  }

  lemma NoMatch(line: string, s: string)
    requires Strip(line, Head) == Some(s) && Strip(Span(s, FieldChar).1, AfterField) == None
    ensures Match(line) == None
  {
  }

  lemma {:induction false} StopsAtDot(field: string, rest: string)
    requires (forall c :: c in field ==> FieldChar(c) || c == '.') && '.' in field
    ensures Strip(Span(field + rest, FieldChar).1, AfterField) == None
  {
    var (before, after) := Cut(field, '.').value;
    var s := ['.'] + after + rest;
    assert field + rest == before + s;
    forall c | c in before ensures FieldChar(c) { assert c in field; }
    SpanAt(before, s, FieldChar);
    NotStripped(s);
  }

  lemma {:induction false} NotStripped(s: string)
    requires s != "" && s[0] == '.'
    ensures Strip(s, AfterField) == None
  {
    assert AfterField[0] == ' ';
  }

  /** With a dot in the field the line is not in guided form. */
  lemma MatchDotted(r: Rule, id: nat, number: nat)
    requires ValidNormal(r) && '.' in FieldText(r)
    ensures Match(PrintNormal(r, id, number)) == None
  {
    FieldChars(r);
    var s := FieldText(r) + Condition(r, id, number);
    StripOf(Head, s);
    StopsAtDot(FieldText(r), Condition(r, id, number));
    NoMatch(PrintNormal(r, id, number), s);
  }

  lemma ParseFrom(line: string, r: Rule)
    requires Match(line) == Some(r) && Valid(r)
    ensures Parse(line) == Some(r)
  {
  }

  lemma ParseNone(line: string)
    requires Match(line) == None
    ensures Parse(line) == None
  {
  }

  /** Parsing a printed rule gives the rule back, trimmed, exactly when its field has no dot. */
  lemma ParsePrinted(rule: Rule, id: nat, number: nat)
    requires Valid(rule)
    ensures Parse(Print(rule, id, number)) == if Dotted(rule) then None else Some(Normal(rule))
  {
    var r := Normal(rule);
    NormalAgain(rule);
    if Dotted(rule) {
      MatchDotted(r, id, number);
      ParseNone(PrintNormal(r, id, number));
    } else {
      MatchPrinted(r, id, number);
      ParseFrom(PrintNormal(r, id, number), r);
    }
  }

  predicate OneLine(s: string) { forall i :: 0 <= i < |s| ==> s[i] != '\n' }

  lemma Concat(a: string, b: string)
    requires OneLine(a) && OneLine(b)
    ensures OneLine(a + b)
  {
  }

  lemma DigitsOneLine(n: nat)
    ensures OneLine(Itoa(n))
  {
    forall i | 0 <= i < |Itoa(n)| ensures Itoa(n)[i] != '\n' { assert Itoa(n)[i] in Itoa(n); }
  }

  lemma TailOneLine(id: nat, block: bool, number: nat)
    ensures var t := Tail(id, block, number); OneLine(t) && t[|t| - 1] == '"'
  {
    DigitsOneLine(id);
    DigitsOneLine(number);
    var s5 := Itoa(number) + "\"";
    var s4 := AfterActions + s5;
    var s3 := Actions(block) + s4;
    var s2 := AfterId + s3;
    Concat(Itoa(number), "\"");
    Concat(AfterActions, s5);
    Concat(Actions(block), s4);
    Concat(AfterId, s3);
    Concat(Itoa(id), s2);
    Concat(AfterValue, Itoa(id) + s2);
  }

  lemma ConditionOneLine(r: Rule, id: nat, number: nat)
    requires ValidNormal(r)
    ensures var t := Condition(r, id, number); OneLine(t) && t[|t| - 1] == '"'
  {
    var tail := Tail(id, r.action == "block", number);
    TailOneLine(id, r.action == "block", number);
    forall i | 0 <= i < |r.value| ensures r.value[i] != '\n' { assert r.value[i] in r.value; }
    Concat(r.value, tail);
    Concat(" ", r.value + tail);
    Concat(r.operator, " " + (r.value + tail));
    Concat(AfterField, r.operator + (" " + (r.value + tail)));
  }

  lemma FieldOneLine(field: string)
    requires forall c :: c in field ==> FieldChar(c) || c == '.'
    ensures OneLine(field)
  {
    forall i | 0 <= i < |field| ensures field[i] != '\n' { assert field[i] in field; }
  }

  lemma Assembled(field: string, rest: string)
    requires OneLine(field) && OneLine(rest) && rest != "" && rest[|rest| - 1] == '"'
    ensures var line := Head + (field + rest); Trimmed(line) && line != "" && '\n' !in line
  {
    Concat(field, rest);
    Concat(Head, field + rest);
    var line := Head + (field + rest);
    assert line[0] == 'S' && line[|line| - 1] == rest[|rest| - 1];
  }

  /** A printed rule is one trimmed line. */
  lemma PrintedIsLine(r: Rule, id: nat, number: nat)
    requires ValidNormal(r)
    ensures var line := PrintNormal(r, id, number); Trimmed(line) && line != "" && '\n' !in line
  {
    ConditionOneLine(r, id, number);
    FieldChars(r);
    FieldOneLine(FieldText(r));
    Assembled(FieldText(r), Condition(r, id, number));
  }
}
