/** User rules of operators, with the printer and the id pattern in use
    (internal/manager/policy_operator_handlers.go, internal/manager/policy_authoring_handlers.go). */
module UserRules {
  import opened Prelude
  import opened Text
  import opened Lines
  import opened RuleIds
  import opened RuleIdText
  import opened Policy
  import opened PolicyValidation
  import opened PolicyEdits
  import opened PolicyRuns
  import CustomRuleText
  import GuidedLine
  import GuidedRules

  // ---------------------------------------------------------------- the functions in use

  lemma TextsFind()
    ensures Finds(InRuleText)
  {
    forall texts: seq<string>, i: nat | i < |texts| && FirstId(texts[i]).Some? ensures FirstId(texts[i]).value in IdsIn(Join(texts, '\n')) {
      JoinShows(texts, i);
    }
  }

  lemma CleaningShows(f: Cleanup)
    requires f.canonical == CustomRuleText.Canonical
    ensures CleanShows(f, InRuleText)
  {
    forall text ensures FirstId(CustomRuleText.Canonical(text)) == FirstId(text) { CanonicalShows(text); }
  }

  /** The id that validation reads from the text of one safe SecRule in canonical form; `safe` accepts lines. */
  function SingleRuleId(safe: string -> Option<int>, text: string): Option<int> {
    match CustomRuleText.SafeLines(safe, text)
    case None => None
    case Some(lines) => if |lines| == 1 && CustomRuleText.Canonical(text) == TrimSpace(text) then FirstId(text) else None
  }

  /** Such a text has one rule line, which is safe, and the id read from it is the first shown. */
  lemma {:induction false} SingleRuleOnly(safe: string -> Option<int>, text: string)
    ensures SingleRuleId(safe, text).Some? ==>
              && |CustomRuleText.RuleLines(text)| == 1 && safe(CustomRuleText.RuleLines(text)[0]).Some?
              && FirstId(text) == SingleRuleId(safe, text)
  {
  }

  /** And every safe line that shows an id is such a text. */
  lemma {:induction false} SafeLineReads(safe: string -> Option<int>, line: string)
    requires line != "" && Text.Trimmed(line) && '\n' !in line && line[0] != '#'
    requires GuidedLine.ByteLength(line) <= 32768 && safe(line).Some?
    ensures SingleRuleId(safe, line) == FirstId(line)
  {
    UnixOneLine(line);
    SplitOne(line, '\n');
    ProperOne(TrimSpace, line);
    assert LinesOf(line) == [line];
    FilterOneLine(line);
  }

  lemma {:induction false} FilterOneLine(line: string)
    requires line != "" && line[0] != '#'
    ensures Filter(CustomRuleText.NoComment, [line]) == [line]
  {
    FilterAll(CustomRuleText.NoComment, [line]);
  }

  lemma ValidationReadsFirst(k: Checks, safe: string -> Option<int>)
    requires forall text :: k.ruleId(text) == SingleRuleId(safe, text)
    ensures ReadsFirst(k, InRuleText)
  {
  }

  // ---------------------------------------------------------------- a user rule

  /** The line of a guided rule under an id. */
  function Line(rule: GuidedLine.Rule): int -> string { (id: int) => if id < 0 then "" else GuidedLine.Print(rule, id, 1) }

  /** The first line of the existing texts merged with a guided rule is the rule under the given id; there is none
      exactly when the rule is invalid or no id is free. */
  lemma {:induction false} MergedLine(c: Configuration, rule: GuidedLine.Rule)
    ensures var merged := GuidedRules.Merge(GuidedRules.SecRules, IdsIn, JoinedTexts(c.customRules), [rule]);
            && (merged.Some? <==> GuidedLine.Valid(rule) && GivenId(InRuleText, c).Some?)
            && (merged.Some? ==> Split(merged.value, '\n')[0] == Line(rule)(GivenId(InRuleText, c).value))
  {
    var advanced := JoinedTexts(c.customRules);
    GuidedRules.MergeOne(GuidedRules.SecRules, IdsIn, advanced, rule);
    if GuidedLine.Valid(rule) && GivenId(InRuleText, c).Some? {
      var id := GivenId(InRuleText, c).value;
      GuidedLine.PrintedIsLine(GuidedLine.Normal(rule), id, 1);
      FirstLine(GuidedLine.Print(rule, id, 1), One(TrimSpace(advanced)));
    }
  }

  lemma FirstLine(line: string, rest: seq<string>)
    requires '\n' !in line
    ensures Split(Join([line] + rest, '\n'), '\n')[0] == line
  {
    if rest == [] {
      assert [line] + rest == [line];
      SplitOne(line, '\n');
    } else {
      JoinAppend([line], rest, '\n');
      SplitCons(line, '\n', Join(rest, '\n'));
    }
  }

  /** A user rule is recorded under its given id, unless its value shows an id: then under that one. */
  lemma {:induction false} RecordedId(c: Configuration, x: CustomRule, rule: GuidedLine.Rule)
    requires GuidedLine.Valid(rule) && GivenId(InRuleText, c).Some?
    ensures var e, shown := Added(InRuleText, c, x, Line(rule)), FirstId(GuidedLine.Normal(rule).value);
            e.Some? && |e.value.customRules| == |c.customRules| + 1
            && e.value.customRules[|c.customRules|].ruleId == (if shown.Some? then shown.value else GivenId(InRuleText, c).value)
            && e.value.customRules[|c.customRules|].text == Line(rule)(GivenId(InRuleText, c).value)
  {
    GivenShows(c, rule);
    AddedParts(InRuleText, c, x, Line(rule), FirstId(GuidedLine.Normal(rule).value));
  }

  lemma {:induction false} GivenShows(c: Configuration, rule: GuidedLine.Rule)
    requires GuidedLine.Valid(rule) && GivenId(InRuleText, c).Some?
    ensures var given, shown := GivenId(InRuleText, c).value, FirstId(GuidedLine.Normal(rule).value);
            FirstId(Line(rule)(given)) == if shown.Some? then shown else Some(given)
  {
    LeastFreeIs(IdsIn(JoinedTexts(c.customRules)), EnterpriseMin, EnterpriseMax);
    PrintShows(rule, GivenId(InRuleText, c).value, 1);
  }

  /** The id a user rule is recorded under, when its value shows the given id, or none. */
  predicate Recordable(c: Configuration, shown: Option<int>) {
    match shown
    case None => true
    case Some(id) => InNamespace(Enterprise, id) && id !in Map(RuleId, c.customRules)
  }

  lemma {:induction false} FreshWhen(find: IdFinder, c: Configuration, x: CustomRule, text: int -> string, shown: Option<int>)
    requires IdsShown(find, c.customRules) && Finds(find) && GivenId(find, c).Some?
    requires find.first(text(GivenId(find, c).value)) == if shown.Some? then shown else Some(GivenId(find, c).value)
    ensures Fresh(find, c, AddRule(x, text)) <==> Recordable(c, shown)
  {
    GivenIsFree(find, c);
  }

  lemma {:induction false} GivenWhen(find: IdFinder, c: Configuration, x: CustomRule, text: int -> string, e: Configuration)
    requires Added(find, c, x, text) == Some(e)
    ensures GivenId(find, c).Some?
  {
  }

  /** Adding a user rule keeps all ids in place if and only if its value shows no id, or one of the enterprise
      range that no rule has. */
  lemma {:induction false} UserRuleKeepsIds(c: Configuration, x: CustomRule, rule: GuidedLine.Rule, e: Configuration)
    requires IdsInPlace(InRuleText, c) && GuidedLine.Valid(rule) && Added(InRuleText, c, x, Line(rule)) == Some(e)
    ensures IdsInPlace(InRuleText, e) <==> Recordable(c, FirstId(GuidedLine.Normal(rule).value))
  {
    FreshUserRule(c, x, rule, e);
    AddedIds(InRuleText, c, x, Line(rule), e);
  }

  /** Over every run, with the functions in use: what the next user rule gives has all ids in place before it is
      checked exactly when its value shows no id, or a free enterprise one; the checks refuse it otherwise. */
  lemma {:induction false} UserRunsKeepIds(f: Cleanup, k: Checks, c: Configuration, requests: seq<Request>, next: Request,
                                           rule: GuidedLine.Rule, e: Configuration)
    requires f.canonical == CustomRuleText.Canonical && IdsInPlace(InRuleText, c) && LoadsCurrent(f, k, InRuleText, c, requests)
    requires BlankIds(next.loaded) == BlankIds(Run(f, k, InRuleText, c, requests))
    requires next.edit.AddRule? && next.edit.text == Line(rule) && GuidedLine.Valid(rule)
    requires Edited(InRuleText, next.loaded, next.edit, next.now) == Some(e)
    ensures IdsInPlace(InRuleText, Prepared(f, e, next.now)) <==> Recordable(next.loaded, FirstId(GuidedLine.Normal(rule).value))
    ensures Valid(k, Prepared(f, e, next.now), next.now) ==> Recordable(next.loaded, FirstId(GuidedLine.Normal(rule).value))
  {
    CleaningShows(f);
    RunsKeepIds(f, k, InRuleText, c, requests, next, e);
    LoadedKeepsIds(InRuleText, Run(f, k, InRuleText, c, requests), next.loaded);
    FreshUserRule(next.loaded, next.edit.rule, rule, e);
  }

  lemma {:induction false} FreshUserRule(c: Configuration, x: CustomRule, rule: GuidedLine.Rule, e: Configuration)
    requires IdsInPlace(InRuleText, c) && GuidedLine.Valid(rule) && Added(InRuleText, c, x, Line(rule)) == Some(e)
    ensures Fresh(InRuleText, c, AddRule(x, Line(rule))) <==> Recordable(c, FirstId(GuidedLine.Normal(rule).value))
  {
    GivenWhen(InRuleText, c, x, Line(rule), e);
    GivenShows(c, rule);
    TextsFind();
    FreshWhen(InRuleText, c, x, Line(rule), FirstId(GuidedLine.Normal(rule).value));
  }

  // ---------------------------------------------------------------- values that show an id

  const Plain := Scalars("On", 1, 1, 5, 4, true, false, false, 100)

  const NoRules := Configuration("", "policy", "revision", "v4.3.0", 1, Plain, "", [], [], [], [])

  const Unnamed := CustomRule("", Enterprise, 0, "rule", "1", "", "", "", true, false, 0)

  /** A rule that looks for the given text in the argument q. */
  function Looking(value: string): GuidedLine.Rule { GuidedLine.Rule("ARGS", "q", "@contains", value, "detect") }

  predicate Ascii(s: string) { forall i :: 0 <= i < |s| ==> s[i] as int < 0x80 }

  lemma {:induction false} AsciiBytes(s: string)
    requires Ascii(s)
    ensures GuidedLine.ByteLength(s) == |s|
  {
    if s != [] {
      assert Ascii(s[1..]);
      AsciiBytes(s[1..]);
    }
  }

  lemma {:induction false} Literals()
    ensures Trimmed("ARGS") && Trimmed("q") && Trimmed("@contains") && Trimmed("detect")
  {
  }

  lemma {:induction false} LookingIsNormal(value: string)
    requires Trimmed(value)
    ensures GuidedLine.Normal(Looking(value)) == Looking(value)
  {
    Literals();
  }

  lemma {:induction false} LookingKnown()
    ensures GuidedLine.KnownField("ARGS") && GuidedLine.KnownOperator("@contains") && GuidedLine.ValidArgument("q")
  {
    AsciiBytes("q");
  }

  lemma {:induction false} ValidWhen(r: GuidedLine.Rule)
    requires GuidedLine.KnownField(r.field) && GuidedLine.ValidArgument(r.argument) && GuidedLine.KnownOperator(r.operator)
    requires r.value != "" && GuidedLine.ByteLength(r.value) <= 512 && (forall c :: c in r.value ==> GuidedLine.ValueChar(c)) && r.action == "detect"
    ensures GuidedLine.ValidNormal(r)
  {
  }

  lemma {:induction false} LookingIsValid(value: string)
    requires value != "" && |value| <= 512 && Trimmed(value) && Ascii(value) && forall c :: c in value ==> GuidedLine.ValueChar(c)
    ensures GuidedLine.Valid(Looking(value)) && GuidedLine.Normal(Looking(value)) == Looking(value)
  {
    LookingIsNormal(value);
    AsciiBytes(value);
    LookingKnown();
    ValidWhen(Looking(value));
  }

  /** A value that begins with an id shows it. */
  lemma {:induction false} IdValue(id: nat)
    requires id <= 99999
    ensures var value := ['i', 'd', ':'] + Itoa(id);
            FirstId(value) == Some(id) && GuidedLine.Valid(Looking(value)) && GuidedLine.Normal(Looking(value)) == Looking(value)
  {
    var value := ['i', 'd', ':'] + Itoa(id);
    IdAtId(id, "");
    assert Itoa(id) + "" == Itoa(id);
    ShortNumber(id, 5);
    DigitsPlain(Itoa(id));
    assert value[|value| - 1] in Itoa(id);
    LookingIsValid(value);
  }

  lemma {:induction false} DigitsPlain(s: string)
    requires forall c :: c in s ==> IsDigit(c)
    ensures Ascii(['i', 'd', ':'] + s) && forall c :: c in ['i', 'd', ':'] + s ==> GuidedLine.ValueChar(c) && !IsSpace(c)
  {
    forall i | 0 <= i < |s| ensures IsDigit(s[i]) { assert s[i] in s; }
  }

  lemma {:induction false} ShortNumber(n: nat, digits: nat)
    requires digits > 0 && (digits == 1 ==> n < 10) && n < 100000 && (digits == 2 ==> n < 100) && (digits == 3 ==> n < 1000) && (digits == 4 ==> n < 10000)
    ensures |Itoa(n)| <= if digits <= 5 then digits else 5
  {
    if n >= 10 { ShortNumber(n / 10, if digits >= 5 then 4 else digits - 1); }
  }

  lemma {:induction false} NothingInPlace(c: Configuration)
    requires c == NoRules
    ensures IdsInPlace(InRuleText, c) && GivenId(InRuleText, c) == Some(40000) && c.customRules == []
  {
    assert Map(ExclusionId, c.exclusions) == [];
    assert Map(TextOfRule, c.customRules) == [];
  }

  lemma {:induction false} RuleTakesId(c: Configuration, rule: GuidedLine.Rule, n: nat)
    requires IdsInPlace(InRuleText, c) && GivenId(InRuleText, c).Some? && c.customRules == []
    requires GuidedLine.Valid(rule) && FirstId(GuidedLine.Normal(rule).value) == Some(n)
    ensures var e := Added(InRuleText, c, Unnamed, Line(rule));
            && e.Some? && |e.value.customRules| == 1
            && e.value.customRules[0].text == Line(rule)(GivenId(InRuleText, c).value) && e.value.customRules[0].ruleId == n
            && (IdsInPlace(InRuleText, e.value) <==> InNamespace(Enterprise, n))
  {
    RecordedId(c, Unnamed, rule);
    UserRuleKeepsIds(c, Unnamed, rule, Added(InRuleText, c, Unnamed, Line(rule)).value);
  }

  /** The first user rule of a policy is printed under the id 40000. When its value is id:n, for any n of up to five
      digits, it is recorded under n all the same: n = 5 is refused by every validation, and n = 50000 is accepted. */
  lemma {:induction false} ValueTakesId(c: Configuration, n: nat, rule: GuidedLine.Rule)
    requires c == NoRules && n <= 99999 && rule == Looking(['i', 'd', ':'] + Itoa(n))
    ensures GivenId(InRuleText, c) == Some(40000) && GuidedLine.Valid(rule)
    ensures var e := Added(InRuleText, c, Unnamed, Line(rule));
            && e.Some? && |e.value.customRules| == 1
            && e.value.customRules[0].text == Line(rule)(40000) && e.value.customRules[0].ruleId == n
            && (IdsInPlace(InRuleText, e.value) <==> InNamespace(Enterprise, n))
  {
    NothingInPlace(c);
    IdValue(n);
    FromGiven(c, rule, n);
  }

  lemma {:induction false} FromGiven(c: Configuration, rule: GuidedLine.Rule, n: nat)
    requires IdsInPlace(InRuleText, c) && GivenId(InRuleText, c) == Some(40000) && c.customRules == []
    requires GuidedLine.Valid(rule) && FirstId(GuidedLine.Normal(rule).value) == Some(n)
    ensures var e := Added(InRuleText, c, Unnamed, Line(rule));
            && e.Some? && |e.value.customRules| == 1
            && e.value.customRules[0].text == Line(rule)(40000) && e.value.customRules[0].ruleId == n
            && (IdsInPlace(InRuleText, e.value) <==> InNamespace(Enterprise, n))
  {
    RuleTakesId(c, rule, n);
  }
}
