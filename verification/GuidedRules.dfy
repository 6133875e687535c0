/** Guided rules merged into the custom rule text and split from it again
    (internal/manager/policy_authoring_handlers.go). */
module GuidedRules {
  import opened Prelude
  import opened Text
  import opened Lines
  import opened GuidedLine
  import opened RuleIds
  import RuleIdText

  const RuleIdMin: nat := 40000
  const RuleIdMax: nat := 89999

  /** How single rules are printed and found; `SecRules` is the one the program uses. */
  datatype Format = Format(valid: Rule -> bool, normal: Rule -> Rule, emit: (Rule, nat, nat) -> string, parse: string -> Option<Rule>)

  const SecRules := Format(Valid, Normal, Print, Parse)

  // ---------------------------------------------------------------- rule ids

  /** Ids given to n rules, each the least free one behind its predecessor. */
  function Ids(used: set<int>, from: nat, n: nat): Option<seq<nat>>
    decreases n
  {
    if n == 0 then Some([])
    else match LeastFree(used, from, RuleIdMax)
      case None => None
      case Some(id) => match Ids(used, id + 1, n - 1) case None => None case Some(rest) => Some([id] + rest)
  }

  /** Allocated ids increase, stay in the enterprise range, avoid the used ones and leave no free id behind. */
  lemma {:induction false} IdsAreLeastFree(used: set<int>, from: nat, n: nat)
    requires Ids(used, from, n).Some?
    ensures var ids := Ids(used, from, n).value;
            && |ids| == n
            && (forall i :: 0 <= i < n ==> from <= ids[i] <= RuleIdMax && ids[i] !in used)
            && (forall i, j :: 0 <= i < j < n ==> ids[i] < ids[j])
            && (n > 0 ==> forall k :: from <= k <= ids[n - 1] ==> k in used || k in ids)
    decreases n
  {
    if n > 0 {
      LeastFreeIs(used, from, RuleIdMax);
      var id := LeastFree(used, from, RuleIdMax).value;
      IdsAreLeastFree(used, id + 1, n - 1);
      var rest := Ids(used, id + 1, n - 1).value;
      var ids := [id] + rest;
      forall k | from <= k <= ids[n - 1] ensures k in used || k in ids {
        if k == id { assert ids[0] == k; }
        if k > id { assert k in used || k in rest; }
      }
    }
  }

  function FreeIds(used: set<int>, from: nat): nat
    decreases RuleIdMax + 1 - from
  {
    if from > RuleIdMax then 0 else FreeIds(used, from + 1) + (if from in used then 0 else 1)
  }

  lemma {:induction false} FreeFrom(used: set<int>, from: nat)
    ensures FreeIds(used, from) == match LeastFree(used, from, RuleIdMax) case None => 0 case Some(id) => FreeIds(used, id + 1) + 1
    decreases RuleIdMax + 1 - from
  {
    if from <= RuleIdMax && from in used { FreeFrom(used, from + 1); }
  }

  /** Allocation fails exactly when fewer ids are free than rules need one. */
  lemma {:induction false} IdsExist(used: set<int>, from: nat, n: nat)
    ensures Ids(used, from, n).Some? <==> FreeIds(used, from) >= n
    decreases n
  {
    if n > 0 {
      FreeFrom(used, from);
      match LeastFree(used, from, RuleIdMax)
      case None =>
      case Some(id) => IdsExist(used, id + 1, n - 1);
    }
  }

  // ---------------------------------------------------------------- merge

  /** Lines of rules with their ids, numbered from `number`. */
  function Printed(f: Format, rules: seq<Rule>, ids: seq<nat>, number: nat): seq<string>
    requires |ids| == |rules|
  {
    if rules == [] then [] else [f.emit(rules[0], ids[0], number)] + Printed(f, rules[1..], ids[1..], number + 1)
  }

  predicate AllValid(f: Format, rules: seq<Rule>) { forall i :: 0 <= i < |rules| ==> f.valid(rules[i]) }

  /** Guided lines, or nothing when a rule is invalid or ids run out. */
  function GuidedLines(f: Format, used: set<int>, from: nat, rules: seq<Rule>, number: nat): Option<seq<string>>
    decreases |rules|
  {
    if rules == [] then Some([])
    else if !f.valid(rules[0]) then None
    else match LeastFree(used, from, RuleIdMax)
      case None => None
      case Some(id) =>
        match GuidedLines(f, used, id + 1, rules[1..], number + 1)
        case None => None
        case Some(rest) => Some([f.emit(rules[0], id, number)] + rest)
  }

  lemma AllValidCons(f: Format, rules: seq<Rule>)
    requires rules != []
    ensures AllValid(f, rules) <==> f.valid(rules[0]) && AllValid(f, rules[1..])
  {
    if f.valid(rules[0]) && AllValid(f, rules[1..]) {
      forall i | 0 <= i < |rules| ensures f.valid(rules[i]) {
        if i > 0 { assert f.valid(rules[1..][i - 1]); }
      }
    }
  }

  lemma PrintedCons(f: Format, rules: seq<Rule>, id: nat, rest: seq<nat>, number: nat)
    requires rules != [] && |rest| == |rules| - 1
    ensures Printed(f, rules, [id] + rest, number) == [f.emit(rules[0], id, number)] + Printed(f, rules[1..], rest, number + 1)
  {
    assert ([id] + rest)[1..] == rest;
  }

  /** A merge prints every rule under its allocated id, or fails when a rule is invalid or ids run out. */
  lemma {:induction false} GuidedLinesAre(f: Format, used: set<int>, from: nat, rules: seq<Rule>, number: nat)
    ensures GuidedLines(f, used, from, rules, number).Some? <==> AllValid(f, rules) && Ids(used, from, |rules|).Some?
    ensures GuidedLines(f, used, from, rules, number).Some? ==>
              && |Ids(used, from, |rules|).value| == |rules|
              && GuidedLines(f, used, from, rules, number).value == Printed(f, rules, Ids(used, from, |rules|).value, number)
    decreases |rules|
  {
    if rules != [] {
      AllValidCons(f, rules);
      match LeastFree(used, from, RuleIdMax)
      case None =>
      case Some(id) =>
        GuidedLinesAre(f, used, id + 1, rules[1..], number + 1);
        if AllValid(f, rules) && Ids(used, id + 1, |rules| - 1).Some? {
          PrintedCons(f, rules, id, Ids(used, id + 1, |rules| - 1).value, number);
        }
    }
  }

  function Merge(f: Format, idsIn: string -> set<int>, advanced: string, rules: seq<Rule>): Option<string> {
    match GuidedLines(f, idsIn(advanced), RuleIdMin, rules, 1)
    case None => None
    case Some(lines) => Some(Join(lines + One(TrimSpace(advanced)), '\n'))
  }

  /** Merging one rule. */
  lemma {:induction false} MergeOne(f: Format, idsIn: string -> set<int>, advanced: string, rule: Rule)
    ensures var id := LeastFree(idsIn(advanced), RuleIdMin, RuleIdMax);
            Merge(f, idsIn, advanced, [rule])
            == if f.valid(rule) && id.Some? then Some(Join([f.emit(rule, id.value, 1)] + One(TrimSpace(advanced)), '\n')) else None
  {
    assert [rule][1..] == [];
    match LeastFree(idsIn(advanced), RuleIdMin, RuleIdMax)
    case None =>
    case Some(id) =>
      assert GuidedLines(f, idsIn(advanced), id + 1, [rule][1..], 2) == Some([]);
      assert [f.emit(rule, id, 1)] + [] == [f.emit(rule, id, 1)];
  }

  method SkipUsed(used: set<int>, from: nat) returns (id: nat)
    ensures id >= from && LeastFree(used, from, RuleIdMax) == if id <= RuleIdMax then Some(id) else None
  {
    id := from;
    while id in used && id <= RuleIdMax
      invariant from <= id && LeastFree(used, id, RuleIdMax) == LeastFree(used, from, RuleIdMax)
      decreases RuleIdMax + 1 - id
    {
      id := id + 1;
    }
  }

  function Prepend(lines: seq<string>, rest: Option<seq<string>>): Option<seq<string>> {
    match rest case None => None case Some(more) => Some(lines + more)
  }

  lemma PrependOne(lines: seq<string>, line: string, rest: Option<seq<string>>)
    ensures Prepend(lines + [line], rest) == Prepend(lines, Prepend([line], rest))
    ensures Prepend([], rest) == rest && Prepend(lines, Some([])) == Some(lines)
  {
    if rest.Some? { assert lines + [line] + rest.value == lines + ([line] + rest.value) && [] + rest.value == rest.value; }
    assert lines + [] == lines;
  }

  method MergeGuidedPolicyRules(f: Format, idsIn: string -> set<int>, advanced: string, rules: seq<Rule>)
    returns (r: Option<string>)
    ensures r == Merge(f, idsIn, advanced, rules)
  {
    var lines: seq<string> := [];
    var used := idsIn(advanced);
    ghost var given := used;
    var nextId: nat := RuleIdMin;
    var i: nat := 0;
    ghost var whole := GuidedLines(f, given, RuleIdMin, rules, 1);
    assert rules[0..] == rules;
    PrependOne([], "", whole);
    while i < |rules|
      invariant i <= |rules|
      invariant forall k :: k >= nextId ==> (k in used <==> k in given)
      invariant whole == Prepend(lines, GuidedLines(f, given, nextId, rules[i..], i + 1))
    {
      assert rules[i..][1..] == rules[i + 1..];
      if !f.valid(rules[i]) { return None; }
      LeastFreeSame(used, given, nextId, RuleIdMax);
      nextId := SkipUsed(used, nextId);
      if nextId > RuleIdMax { return None; }
      PrependOne(lines, f.emit(rules[i], nextId, i + 1), GuidedLines(f, given, nextId + 1, rules[i + 1..], i + 2));
      lines := lines + [f.emit(rules[i], nextId, i + 1)];
      used := used + {nextId};
      nextId := nextId + 1;
      i := i + 1;
    }
    assert rules[i..] == [];
    PrependOne(lines, "", None);
    assert whole == Some(lines);
    var rest := TrimSpace(advanced);
    assert lines + One(rest) == if rest == "" then lines else lines + [rest];
    if rest != "" { lines := lines + [rest]; }
    return Some(Join(lines, '\n'));
  }

  // ---------------------------------------------------------------- split

  /** Lines that are not guided rules. */
  function Plain(f: Format, lines: seq<string>): seq<string> {
    if lines == [] then [] else (if f.parse(lines[0]).None? then [lines[0]] else []) + Plain(f, lines[1..])
  }

  function Guided(f: Format, lines: seq<string>): seq<Rule> {
    if lines == [] then []
    else (match f.parse(lines[0]) case Some(rule) => [rule] case None => []) + Guided(f, lines[1..])
  }

  lemma {:induction false} PlainAppend(f: Format, a: seq<string>, b: seq<string>)
    ensures Plain(f, a + b) == Plain(f, a) + Plain(f, b)
  {
    if a == [] {
      assert a + b == b;
    } else {
      PlainAppend(f, a[1..], b);
      assert (a + b)[1..] == a[1..] + b;
      Associative(if f.parse(a[0]).None? then [a[0]] else [], Plain(f, a[1..]), Plain(f, b));
    }
  }

  lemma {:induction false} GuidedAppend(f: Format, a: seq<string>, b: seq<string>)
    ensures Guided(f, a + b) == Guided(f, a) + Guided(f, b)
  {
    if a == [] {
      assert a + b == b;
    } else {
      GuidedAppend(f, a[1..], b);
      assert (a + b)[1..] == a[1..] + b;
      Associative(match f.parse(a[0]) case Some(rule) => [rule] case None => [], Guided(f, a[1..]), Guided(f, b));
    }
  }

  lemma SplitOneLine(f: Format, line: string)
    requires line == "" ==> f.parse(line).None?
    ensures Plain(f, One(line)) == (if line != "" && f.parse(line).None? then [line] else [])
    ensures Guided(f, One(line)) == (match f.parse(line) case Some(rule) => [rule] case None => [])
  {
    assert Plain(f, []) == [] && Guided(f, []) == [];
  }

  lemma SplitStep(f: Format, clean: string -> string, lines: seq<string>, i: nat)
    requires i < |lines| && f.parse("").None?
    ensures var before, after := Proper(clean, lines[..i]), Proper(clean, lines[..i + 1]);
            var line := clean(lines[i]);
            && Plain(f, after) == Plain(f, before) + (if line != "" && f.parse(line).None? then [line] else [])
            && Guided(f, after) == Guided(f, before) + (match f.parse(line) case Some(rule) => [rule] case None => [])
  {
    assert lines[..i + 1] == lines[..i] + [lines[i]];
    ProperAppend(clean, lines[..i], [lines[i]]);
    ProperOne(clean, lines[i]);
    PlainAppend(f, Proper(clean, lines[..i]), One(clean(lines[i])));
    GuidedAppend(f, Proper(clean, lines[..i]), One(clean(lines[i])));
    SplitOneLine(f, clean(lines[i]));
  }

  method SplitLines(f: Format, clean: string -> string, lines: seq<string>) returns (plain: seq<string>, guided: seq<Rule>)
    requires f.parse("").None?
    ensures plain == Plain(f, Proper(clean, lines)) && guided == Guided(f, Proper(clean, lines))
  {
    plain, guided := [], [];
    var i: nat := 0;
    while i < |lines|
      invariant i <= |lines|
      invariant plain == Plain(f, Proper(clean, lines[..i])) && guided == Guided(f, Proper(clean, lines[..i]))
    {
      var trimmed := clean(lines[i]);
      SplitStep(f, clean, lines, i);
      match f.parse(trimmed) {
      case None => if trimmed != "" { plain := plain + [trimmed]; }
      case Some(rule) => guided := guided + [rule];
      }
      i := i + 1;
    }
    assert lines[..i] == lines;
  }

  method SplitGuidedPolicyRules(f: Format, text: string) returns (advanced: string, guided: seq<Rule>)
    requires f.parse("").None?
    ensures advanced == Join(Plain(f, LinesOf(text)), '\n') && guided == Guided(f, LinesOf(text))
  {
    LinesOfUnix(text);
    var plain;
    plain, guided := SplitLines(f, TrimSpace, Split(Unix(text), '\n'));
    advanced := Join(plain, '\n');
  }

  // ---------------------------------------------------------------- split after merge

  /** A printed valid rule is one line that parses to the rule in normal form, unless its field is dotted. */
  ghost predicate Faithful(f: Format, dotted: Rule -> bool) {
    f.parse("").None? && PrintsBack(f, dotted) && PrintsLines(f) && NormalKept(f)
  }

  ghost predicate PrintsBack(f: Format, dotted: Rule -> bool) {
    forall rule, id, number :: f.valid(rule) ==>
      f.parse(f.emit(rule, id, number)) == if dotted(rule) then None else Some(f.normal(rule))
  }

  ghost predicate PrintsLines(f: Format) {
    forall rule, id, number :: f.valid(rule) ==> IsLine(f.emit(rule, id, number))
  }

  predicate IsLine(line: string) { Trimmed(line) && line != "" && '\n' !in line }

  ghost predicate NormalKept(f: Format) {
    && (forall rule :: f.valid(rule) ==> f.valid(f.normal(rule)))
    && (forall rule, id, number :: f.emit(f.normal(rule), id, number) == f.emit(rule, id, number))
  }

  /** The rules that parse back, in normal form. */
  function Undotted(f: Format, dotted: Rule -> bool, rules: seq<Rule>): seq<Rule> {
    if rules == [] then [] else (if dotted(rules[0]) then [] else [f.normal(rules[0])]) + Undotted(f, dotted, rules[1..])
  }

  /** Lines of the rules that do not parse back. */
  function DottedLines(f: Format, dotted: Rule -> bool, rules: seq<Rule>, ids: seq<nat>, number: nat): seq<string>
    requires |ids| == |rules|
  {
    if rules == [] then []
    else (if dotted(rules[0]) then [f.emit(rules[0], ids[0], number)] else [])
         + DottedLines(f, dotted, rules[1..], ids[1..], number + 1)
  }

  lemma {:induction false} SplitPrinted(f: Format, dotted: Rule -> bool, rules: seq<Rule>, ids: seq<nat>, number: nat)
    requires Faithful(f, dotted) && AllValid(f, rules) && |ids| == |rules|
    ensures Plain(f, Printed(f, rules, ids, number)) == DottedLines(f, dotted, rules, ids, number)
    ensures Guided(f, Printed(f, rules, ids, number)) == Undotted(f, dotted, rules)
    ensures forall line :: line in Printed(f, rules, ids, number) ==> Trimmed(line) && line != "" && '\n' !in line
    decreases |rules|
  {
    if rules != [] {
      SplitPrinted(f, dotted, rules[1..], ids[1..], number + 1);
      var line := f.emit(rules[0], ids[0], number);
      assert f.valid(rules[0]);
      assert Printed(f, rules, ids, number)[1..] == Printed(f, rules[1..], ids[1..], number + 1);
    }
  }

  lemma LinesOfTwo(a: string, b: string)
    ensures LinesOf(a + ['\n'] + b) == LinesOf(a) + LinesOf(b)
  {
    var x, y := Split(a, '\n'), Split(b, '\n');
    JoinSplit(a, '\n');
    JoinSplit(b, '\n');
    JoinAppend(x, y, '\n');
    SplitJoin(x + y, '\n');
    ProperAppend(TrimSpace, x, y);
  }

  /** Lines of a merged text: the guided ones, then the advanced ones. */
  lemma LinesOfMerged(lines: seq<string>, advanced: string)
    requires forall line :: line in lines ==> Trimmed(line) && line != "" && '\n' !in line
    ensures LinesOf(Join(lines + One(TrimSpace(advanced)), '\n')) == lines + LinesOf(advanced)
  {
    var rest := TrimSpace(advanced);
    LinesOfTrimmed(advanced);
    NoLines();
    ProperOfProper(TrimSpace, lines);
    if lines != [] { LinesOfJoin(lines); }
    if rest == "" {
      assert lines + One(rest) == lines;
    } else if lines == [] {
      assert lines + One(rest) == [rest];
    } else {
      JoinAppend(lines, [rest], '\n');
      LinesOfTwo(Join(lines, '\n'), rest);
    }
  }

  /** Splitting a merged text gives back the rules without a dot in their argument, and leaves the others,
      as lines, in front of the advanced text. */
  lemma SplitMerged(f: Format, dotted: Rule -> bool, idsIn: string -> set<int>, advanced: string, rules: seq<Rule>, text: string)
    requires Faithful(f, dotted) && Merge(f, idsIn, advanced, rules) == Some(text)
    ensures Ids(idsIn(advanced), RuleIdMin, |rules|).Some? && |Ids(idsIn(advanced), RuleIdMin, |rules|).value| == |rules|
    ensures Plain(f, LinesOf(text)) == DottedLines(f, dotted, rules, Ids(idsIn(advanced), RuleIdMin, |rules|).value, 1) + Plain(f, LinesOf(advanced))
    ensures Guided(f, LinesOf(text)) == Undotted(f, dotted, rules) + Guided(f, LinesOf(advanced))
  {
    GuidedLinesAre(f, idsIn(advanced), RuleIdMin, rules, 1);
    IdsAreLeastFree(idsIn(advanced), RuleIdMin, |rules|);
    var ids := Ids(idsIn(advanced), RuleIdMin, |rules|).value;
    var lines := Printed(f, rules, ids, 1);
    SplitPrinted(f, dotted, rules, ids, 1);
    LinesOfMerged(lines, advanced);
    PlainAppend(f, lines, LinesOf(advanced));
    GuidedAppend(f, lines, LinesOf(advanced));
  }

  lemma {:induction false} NoneDotted(f: Format, dotted: Rule -> bool, rules: seq<Rule>, ids: seq<nat>, number: nat)
    requires |ids| == |rules| && forall i :: 0 <= i < |rules| ==> !dotted(rules[i])
    ensures DottedLines(f, dotted, rules, ids, number) == []
    ensures Undotted(f, dotted, rules) == NormalAll(f, rules)
    decreases |rules|
  {
    if rules != [] { NoneDotted(f, dotted, rules[1..], ids[1..], number + 1); }
  }

  function NormalAll(f: Format, rules: seq<Rule>): seq<Rule> {
    if rules == [] then [] else [f.normal(rules[0])] + NormalAll(f, rules[1..])
  }

  lemma {:induction false} NormalAllPrints(f: Format, dotted: Rule -> bool, used: set<int>, from: nat, rules: seq<Rule>, number: nat)
    requires Faithful(f, dotted) && AllValid(f, rules)
    ensures |NormalAll(f, rules)| == |rules|
    ensures GuidedLines(f, used, from, NormalAll(f, rules), number) == GuidedLines(f, used, from, rules, number)
    decreases |rules|
  {
    if rules != [] {
      match LeastFree(used, from, RuleIdMax)
      case None => NormalAllPrints(f, dotted, used, from, rules[1..], number);
      case Some(id) => NormalAllPrints(f, dotted, used, id + 1, rules[1..], number + 1);
      assert f.valid(rules[0]);
      assert NormalAll(f, rules)[1..] == NormalAll(f, rules[1..]);
    }
  }

  lemma {:induction false} NothingGuided(f: Format, lines: seq<string>)
    requires forall line :: line in lines ==> f.parse(line).None?
    ensures Plain(f, lines) == lines && Guided(f, lines) == []
  {
    if lines != [] {
      assert lines[0] in lines;
      NothingGuided(f, lines[1..]);
    }
  }

  /** Joining the lines of a text gives a trimmed text with the same lines. */
  lemma JoinedLines(lines: seq<string>)
    requires forall line :: line in lines ==> Trimmed(line) && line != ""
    ensures TrimSpace(Join(lines, '\n')) == Join(lines, '\n') && (Join(lines, '\n') == "" <==> lines == [])
  {
    if lines != [] { JoinEnds(lines); }
  }

  lemma {:induction false} JoinEnds(lines: seq<string>)
    requires lines != [] && forall line :: line in lines ==> Trimmed(line) && line != ""
    ensures var s := Join(lines, '\n'); s != "" && !IsSpace(s[0]) && !IsSpace(s[|s| - 1])
  {
    assert lines[0] in lines;
    if |lines| > 1 { JoinEnds(lines[1..]); }
  }

  lemma LinesAreProper(text: string)
    ensures forall line :: line in LinesOf(text) ==> Trimmed(line) && line != ""
  {
    forall line | line in LinesOf(text) ensures Trimmed(line) && line != "" {
      ProperIsProper(TrimSpace, Split(text, '\n'), line);
    }
  }

  lemma OneJoined(lines: seq<string>, rest: seq<string>)
    ensures Join(lines + One(Join(rest, '\n')), '\n') == Join(lines + (if Join(rest, '\n') == "" then [] else rest), '\n')
  {
    if Join(rest, '\n') != "" {
      if lines == [] {
        assert lines + [Join(rest, '\n')] == [Join(rest, '\n')] && lines + rest == rest;
      } else {
        JoinAppend(lines, rest, '\n');
        JoinAppend(lines, [Join(rest, '\n')], '\n');
      }
    }
  }

  /** Rules without dots and advanced text without guided lines survive a merge and a split. Merging them again gives
      the same guided lines, ids included, before the advanced lines as they were; before the trimmed ones as long as
      trimming does not change the ids that are found. */
  lemma MergeAgain(f: Format, dotted: Rule -> bool, idsIn: string -> set<int>, advanced: string, rules: seq<Rule>, text: string)
    requires Faithful(f, dotted) && Merge(f, idsIn, advanced, rules) == Some(text)
    requires forall i :: 0 <= i < |rules| ==> !dotted(rules[i])
    requires forall line :: line in LinesOf(advanced) ==> f.parse(line).None?
    ensures Plain(f, LinesOf(text)) == LinesOf(advanced) && Guided(f, LinesOf(text)) == NormalAll(f, rules)
    ensures advanced == Join(LinesOf(advanced), '\n') ==>
              Merge(f, idsIn, Join(Plain(f, LinesOf(text)), '\n'), Guided(f, LinesOf(text))) == Some(text)
    ensures idsIn(Join(LinesOf(advanced), '\n')) == idsIn(advanced) ==>
              Merge(f, idsIn, Join(LinesOf(advanced), '\n'), NormalAll(f, rules)) == Some(Join(LinesOf(text), '\n'))
  {
    SplitMerged(f, dotted, idsIn, advanced, rules, text);
    var ids := Ids(idsIn(advanced), RuleIdMin, |rules|).value;
    NoneDotted(f, dotted, rules, ids, 1);
    NothingGuided(f, LinesOf(advanced));
    GuidedLinesAre(f, idsIn(advanced), RuleIdMin, rules, 1);
    NormalAllPrints(f, dotted, idsIn(advanced), RuleIdMin, rules, 1);
    MergedTextLines(f, dotted, rules, ids, advanced);
  }

  lemma MergedTextLines(f: Format, dotted: Rule -> bool, rules: seq<Rule>, ids: seq<nat>, advanced: string)
    requires Faithful(f, dotted) && AllValid(f, rules) && |ids| == |rules|
    ensures var lines, rest := Printed(f, rules, ids, 1), Join(LinesOf(advanced), '\n');
            Join(lines + One(TrimSpace(rest)), '\n') == Join(LinesOf(Join(lines + One(TrimSpace(advanced)), '\n')), '\n')
  {
    var lines := Printed(f, rules, ids, 1);
    SplitPrinted(f, dotted, rules, ids, 1);
    LinesOfMerged(lines, advanced);
    LinesAreProper(advanced);
    JoinedLines(LinesOf(advanced));
    OneJoined(lines, LinesOf(advanced));
  }

  lemma EmptyIsPlain()
    ensures Parse("") == None
  {
    assert |Head| == 8;
    ParseNone("");
  }

  lemma SecRulesPrintBack()
    ensures PrintsBack(SecRules, Dotted)
  {
    forall rule, id, number | Valid(rule)
      ensures SecRules.parse(SecRules.emit(rule, id, number)) == if Dotted(rule) then None else Some(SecRules.normal(rule))
    {
      ParsePrinted(rule, id, number);
    }
  }

  lemma SecRulesPrintLines()
    ensures PrintsLines(SecRules)
  {
    forall rule, id, number | Valid(rule) ensures IsLine(SecRules.emit(rule, id, number)) {
      PrintedIsLine(Normal(rule), id, number);
    }
  }

  lemma SecRulesNormal()
    ensures NormalKept(SecRules)
  {
    forall rule ensures Normal(Normal(rule)) == Normal(rule) { NormalAgain(rule); }
  }

  lemma SecRulesFaithful()
    ensures Faithful(SecRules, Dotted)
  {
    EmptyIsPlain();
    SecRulesPrintBack();
    SecRulesPrintLines();
    SecRulesNormal();
  }

  /** The round trip for the rule lines and the id pattern in use; trimming lines does not change the ids that are
      found when the pattern takes every blank of the text for one. */
  lemma GuidedRoundTrip(advanced: string, rules: seq<Rule>, text: string)
    requires Merge(SecRules, RuleIdText.IdsIn, advanced, rules) == Some(text)
    requires forall i :: 0 <= i < |rules| ==> !Dotted(rules[i])
    requires forall line :: line in LinesOf(advanced) ==> Parse(line).None?
    ensures Plain(SecRules, LinesOf(text)) == LinesOf(advanced) && Guided(SecRules, LinesOf(text)) == NormalAll(SecRules, rules)
    ensures advanced == Join(LinesOf(advanced), '\n') ==>
              Merge(SecRules, RuleIdText.IdsIn, Join(Plain(SecRules, LinesOf(text)), '\n'), Guided(SecRules, LinesOf(text))) == Some(text)
    ensures RuleIdText.PlainBlanks(advanced) ==>
              Merge(SecRules, RuleIdText.IdsIn, Join(LinesOf(advanced), '\n'), NormalAll(SecRules, rules)) == Some(Join(LinesOf(text), '\n'))
  {
    SecRulesFaithful();
    MergeAgain(SecRules, Dotted, RuleIdText.IdsIn, advanced, rules, text);
    if RuleIdText.PlainBlanks(advanced) { RuleIdText.LinesShow(advanced); }
  }
}
