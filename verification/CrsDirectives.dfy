/** Logical directives and chained rules of CRS files (internal/crsindex/index.go). */
module CrsDirectives {
  import opened Prelude
  import opened Text
  import opened Lines
  import opened Grouping

  /** What single physical lines mean; `Conf` is the reading the program uses. */
  datatype Syntax = Syntax(ignore: string -> bool, more: string -> bool, piece: string -> string)

  const Conf := Syntax(Ignored, Continued, Piece)

  /** Blank lines and comments. */
  predicate Ignored(line: string) {
    var t := TrimSpace(line);
    t == "" || t[0] == '#'
  }

  predicate Continued(line: string) {
    var t := TrimSpace(line);
    t != "" && t[|t| - 1] == '\\'
  }

  function Piece(line: string): string {
    var t := TrimSpace(line);
    if t != "" && t[|t| - 1] == '\\' then TrimSpace(t[..|t| - 1]) else t
  }

  lemma {:induction false} ReadsTrimmed(line: string, t: string)
    requires TrimSpace(line) == t && t != ""
    ensures Ignored(line) <==> t[0] == '#'
    ensures Continued(line) <==> t[|t| - 1] == '\\'
    ensures Piece(line) == if t[|t| - 1] == '\\' then TrimSpace(t[..|t| - 1]) else t
  {
  }

  lemma {:induction false} StaysTrimmed(t: string)
    requires Text.Trimmed(t)
    ensures TrimSpace(t) == t
  {
  }

  /** How a trimmed line is read: as a comment when it begins with a number sign, as it is when it does not end with a
      backslash, and without the backslash, to be continued, when it does. */
  lemma {:induction false} ConfReads(t: string)
    requires t != "" && Text.Trimmed(t) && t[|t| - 1] != '\\'
    ensures Ignored("") && (Ignored(t) <==> t[0] == '#')
    ensures !Continued(t) && Piece(t) == t
    ensures Continued(t + ['\\']) && Piece(t + ['\\']) == t
  {
    var line := t + ['\\'];
    assert line[..|line| - 1] == t;
    StaysTrimmed("");
    StaysTrimmed(t);
    StaysTrimmed(line);
    ReadsTrimmed(t, t);
    ReadsTrimmed(line, line);
  }

  /** A line without text is ignored unless it is a lone continuation. */
  ghost predicate Sensible(f: Syntax) {
    forall line :: f.piece(line) == "" && !f.more(line) ==> f.ignore(line)
  }

  lemma ConfIsSensible()
    ensures Sensible(Conf)
  {
  }

  /** Lines that do not start a directive; a lone continuation adds no text, so the next line starts anew. */
  function Skip(f: Syntax): string -> bool { (line: string) => f.ignore(line) || f.piece(line) == "" }

  datatype Directive = Directive(line: nat, text: string)

  /** Pieces of some lines, each behind a blank. */
  function Glued(f: Syntax, lines: seq<string>): string {
    if lines == [] then "" else " " + f.piece(lines[0]) + Glued(f, lines[1..])
  }

  function Assembled(f: Syntax, lines: seq<string>): string
    requires lines != []
  {
    f.piece(lines[0]) + Glued(f, lines[1..])
  }

  /** The directives that start at or behind the i-th line: one for each group of lines. */
  function Directives(f: Syntax, lines: seq<string>, i: nat): seq<Directive>
    requires i <= |lines|
    decreases |lines| - i
  {
    if i == |lines| then []
    else if Skip(f)(lines[i]) then Directives(f, lines, i + 1)
    else
      var e := EndFrom(lines, i + 1, f.more);
      [Directive(i + 1, Assembled(f, lines[i..e]))] + Directives(f, lines, e)
  }

  lemma {:induction false} DirectivesAreGroups(f: Syntax, lines: seq<string>, i: nat)
    requires i <= |lines|
    ensures var d, g := Directives(f, lines, i), Groups(lines, i, Skip(f), f.more);
            && |d| == |g|
            && forall j :: 0 <= j < |d| ==>
                 g[j].from < g[j].end <= |lines| && d[j] == Directive(g[j].from + 1, Assembled(f, lines[g[j].from..g[j].end]))
    decreases |lines| - i
  {
    if i < |lines| {
      if Skip(f)(lines[i]) {
        DirectivesAreGroups(f, lines, i + 1);
      } else {
        DirectivesAreGroups(f, lines, EndFrom(lines, i + 1, f.more));
      }
    }
  }

  lemma GluedCons(f: Syntax, lines: seq<string>, i: nat, e: nat)
    requires i < e <= |lines|
    ensures Glued(f, lines[i..e]) == " " + f.piece(lines[i]) + Glued(f, lines[i + 1..e])
    ensures Assembled(f, lines[i..e]) == f.piece(lines[i]) + Glued(f, lines[i + 1..e])
  {
    assert lines[i..e][1..] == lines[i + 1..e];
  }

  /** The directives still to come at the i-th line, when `current` has been read of one that started at `start`. */
  function Pending(f: Syntax, lines: seq<string>, i: nat, current: string, start: nat): seq<Directive>
    requires i <= |lines| && (current != "" ==> i > 0)
  {
    if current == "" then Directives(f, lines, i)
    else
      var e := EndFrom(lines, i, f.more);
      [Directive(start, current + Glued(f, lines[i..e]))] + Directives(f, lines, e)
  }

  lemma PendingStarts(f: Syntax, lines: seq<string>, i: nat)
    requires i < |lines| && Sensible(f) && !f.ignore(lines[i])
    ensures Directives(f, lines, i)
         == if f.more(lines[i]) then Pending(f, lines, i + 1, f.piece(lines[i]), i + 1)
            else [Directive(i + 1, f.piece(lines[i]))] + Directives(f, lines, i + 1)
  {
    var e := EndFrom(lines, i + 1, f.more);
    GluedCons(f, lines, i, e);
    if !f.more(lines[i]) {
      assert f.piece(lines[i]) + "" == f.piece(lines[i]);
    }
  }

  lemma PendingGoesOn(f: Syntax, lines: seq<string>, i: nat, current: string, start: nat)
    requires 0 < i < |lines| && current != "" && f.more(lines[i - 1])
    ensures var longer := current + " " + f.piece(lines[i]);
            Pending(f, lines, i, current, start)
            == if f.more(lines[i]) then Pending(f, lines, i + 1, longer, start)
               else [Directive(start, longer)] + Directives(f, lines, i + 1)
  {
    var e := EndFrom(lines, i, f.more);
    var longer := current + " " + f.piece(lines[i]);
    GluedCons(f, lines, i, e);
    assert current + (" " + f.piece(lines[i]) + Glued(f, lines[i + 1..e])) == longer + Glued(f, lines[i + 1..e]);
    assert e == EndFrom(lines, i + 1, f.more);
    if !f.more(lines[i]) {
      assert e == i + 1 && Glued(f, lines[e..e]) == "" && longer + "" == longer;
    }
  }

  method LogicalDirectives(f: Syntax, lines: seq<string>) returns (items: seq<Directive>)
    requires Sensible(f)
    ensures items == Directives(f, lines, 0)
  {
    items := [];
    var current, start, i: nat := "", 0, 0;
    while i < |lines|
      invariant i <= |lines| && (current != "" ==> i > 0 && f.more(lines[i - 1]))
      invariant items + Pending(f, lines, i, current, start) == Directives(f, lines, 0)
    {
      var line := lines[i];
      if current == "" && f.ignore(line) {
        i := i + 1;
        continue;
      }
      ghost var was := current;
      if current == "" {
        PendingStarts(f, lines, i);
        start := i + 1;
      } else {
        PendingGoesOn(f, lines, i, current, start);
        current := current + " ";
      }
      current := current + f.piece(line);
      assert was == "" ==> current == f.piece(line);
      i := i + 1;
      if f.more(line) { continue; }
      Associative(items, [Directive(start, current)], Directives(f, lines, i));
      items := items + [Directive(start, current)];
      current := "";
    }
    if current != "" {
      assert Glued(f, lines[i..i]) == "" && current + "" == current;
      items := items + [Directive(start, current)];
    }
  }

  // ---------------------------------------------------------------- chained rules

  /** What trimmed directives mean: whether one is a rule, its id, and whether it is chained to the next. */
  datatype Actions = Actions(isRule: string -> bool, id: string -> Option<int>, chained: string -> bool)

  datatype Rule = Rule(id: int, line: nat, text: string)

  function Trimmed(d: seq<Directive>): (t: seq<string>)
    ensures |t| == |d|
  {
    seq(|d|, i requires 0 <= i < |d| => TrimSpace(d[i].text))
  }

  /** The rules that start at or behind the i-th directive, or an error when one has no id. A chained
      directive takes the next one with it, whatever that is. */
  function Rules(g: Actions, d: seq<Directive>, t: seq<string>, i: nat): Result<seq<Rule>>
    requires i <= |d| == |t|
    decreases |d| - i
  {
    if i == |d| then Ok([])
    else if !g.isRule(t[i]) then Rules(g, d, t, i + 1)
    else match g.id(t[i])
      case None => Err("missing a Rule ID")
      case Some(id) =>
        var e := EndFrom(t, i + 1, g.chained);
        match Rules(g, d, t, e)
        case Err(message) => Err(message)
        case Ok(rest) => Ok([Rule(id, d[i].line, Join(t[i..e], '\n'))] + rest)
  }

  function NotRule(g: Actions): string -> bool { (text: string) => !g.isRule(text) }

  /** The rule made from a chain of directives. */
  predicate FromChain(g: Actions, d: seq<Directive>, t: seq<string>, rule: Rule, chain: Range)
    requires |d| == |t|
  {
    && chain.from < chain.end <= |t|
    && g.id(t[chain.from]) == Some(rule.id) && rule.line == d[chain.from].line
    && rule.text == Join(t[chain.from..chain.end], '\n')
  }

  ghost predicate FromChains(g: Actions, d: seq<Directive>, t: seq<string>, rules: seq<Rule>, chains: seq<Range>)
    requires |d| == |t|
  {
    |rules| == |chains| && forall j :: 0 <= j < |rules| ==> FromChain(g, d, t, rules[j], chains[j])
  }

  lemma {:induction false} RulesAreGroups(g: Actions, d: seq<Directive>, t: seq<string>, i: nat)
    requires i <= |d| == |t| && Rules(g, d, t, i).Ok?
    ensures FromChains(g, d, t, Rules(g, d, t, i).value, Groups(t, i, NotRule(g), g.chained))
    decreases |d| - i
  {
    if i < |d| {
      if !g.isRule(t[i]) {
        RulesAreGroups(g, d, t, i + 1);
      } else {
        RulesAreGroups(g, d, t, EndFrom(t, i + 1, g.chained));
      }
    }
  }

  /** A chain in the making, up to the i-th directive. */
  lemma ChainGrows(t: seq<string>, from: nat, i: nat)
    requires from < i < |t|
    ensures Join(t[from..i + 1], '\n') == Join(t[from..i], '\n') + "\n" + t[i]
  {
    JoinAppend(t[from..i], [t[i]], '\n');
    assert t[from..i + 1] == t[from..i] + [t[i]];
  }

  method Chain(g: Actions, t: seq<string>, from: nat) returns (combined: string, end: nat)
    requires from < |t|
    ensures end == EndFrom(t, from + 1, g.chained) && combined == Join(t[from..end], '\n')
  {
    combined, end := t[from], from + 1;
    var chained := g.chained(t[from]);
    assert t[from..end] == [t[from]];
    while chained && end < |t|
      invariant from < end <= |t| && chained == g.chained(t[end - 1])
      invariant EndFrom(t, end, g.chained) == EndFrom(t, from + 1, g.chained)
      invariant combined == Join(t[from..end], '\n')
    {
      ChainGrows(t, from, end);
      combined := combined + "\n" + t[end];
      chained := g.chained(t[end]);
      end := end + 1;
    }
  }

  function After(rules: seq<Rule>, rest: Result<seq<Rule>>): Result<seq<Rule>> {
    match rest case Err(message) => Err(message) case Ok(more) => Ok(rules + more)
  }

  lemma AfterOne(rules: seq<Rule>, rule: Rule, rest: Result<seq<Rule>>)
    ensures After(rules + [rule], rest) == After(rules, After([rule], rest))
    ensures After([], rest) == rest && After(rules, Ok([])) == Ok(rules)
  {
    if rest.Ok? {
      assert rules + [rule] + rest.value == rules + ([rule] + rest.value) && [] + rest.value == rest.value;
    }
    assert rules + [] == rules;
  }

  method ParseRuleFile(g: Actions, d: seq<Directive>) returns (r: Result<seq<Rule>>)
    ensures r == Rules(g, d, Trimmed(d), 0)
  {
    var t := Trimmed(d);
    var rules: seq<Rule> := [];
    var i: nat := 0;
    ghost var whole := Rules(g, d, t, 0);
    AfterOne([], Rule(0, 0, ""), whole);
    while i < |d|
      invariant i <= |d| && After(rules, Rules(g, d, t, i)) == whole
    {
      if !g.isRule(t[i]) {
        i := i + 1;
        continue;
      }
      if g.id(t[i]) == None { return Err("missing a Rule ID"); }
      var combined, end := Chain(g, t, i);
      var rule := Rule(g.id(t[i]).value, d[i].line, combined);
      AfterOne(rules, rule, Rules(g, d, t, end));
      rules := rules + [rule];
      i := end;
    }
    AfterOne(rules, Rule(0, 0, ""), whole);
    return Ok(rules);
  }

  // ---------------------------------------------------------------- conservation

  lemma {:induction false} GluedOneLine(f: Syntax, lines: seq<string>)
    requires forall line :: line in lines ==> '\n' !in f.piece(line)
    ensures '\n' !in Glued(f, lines)
  {
    if lines != [] {
      assert lines[0] in lines;
      GluedOneLine(f, lines[1..]);
    }
  }

  /** Every line of a file without line feeds in its pieces is skipped or in one directive's block, blocks come in
      order under increasing start lines, and each directive is the text of its block on one line. */
  lemma DirectiveConservation(f: Syntax, lines: seq<string>)
    requires forall line :: line in lines ==> '\n' !in f.piece(line)
    ensures var d, blocks := Directives(f, lines, 0), Groups(lines, 0, Skip(f), f.more);
            && Partition(lines, 0, Skip(f), f.more, blocks) && |blocks| == |d|
            && (forall j :: 0 <= j < |d| ==> d[j] == Directive(blocks[j].from + 1, Assembled(f, lines[blocks[j].from..blocks[j].end])))
            && (forall j :: 0 <= j < |d| ==> '\n' !in d[j].text)
            && (forall j, k :: 0 <= j < k < |d| ==> d[j].line < d[k].line)
  {
    DirectivesAreGroups(f, lines, 0);
    GroupsPartition(lines, 0, Skip(f), f.more);
    var d, blocks := Directives(f, lines, 0), Groups(lines, 0, Skip(f), f.more);
    forall j | 0 <= j < |d| ensures '\n' !in d[j].text {
      var block := lines[blocks[j].from..blocks[j].end];
      assert block[0] in lines;
      forall line | line in block[1..] ensures line in lines { }
      GluedOneLine(f, block[1..]);
    }
  }

  lemma SplitChain(t: seq<string>, from: nat, end: nat)
    requires from < end <= |t| && forall j :: 0 <= j < |t| ==> '\n' !in t[j]
    ensures Split(Join(t[from..end], '\n'), '\n') == t[from..end]
  {
    SplitJoin(t[from..end], '\n');
  }

  lemma LinesIncrease(g: Actions, d: seq<Directive>, t: seq<string>, rules: seq<Rule>, chains: seq<Range>)
    requires |d| == |t| && FromChains(g, d, t, rules, chains) && Ordered(chains)
    requires forall j, k :: 0 <= j < k < |d| ==> d[j].line < d[k].line
    ensures forall j, k :: 0 <= j < k < |rules| ==> rules[j].line < rules[k].line
  {
    forall j, k | 0 <= j < k < |rules| ensures rules[j].line < rules[k].line {
      assert FromChain(g, d, t, rules[j], chains[j]) && FromChain(g, d, t, rules[k], chains[k]);
      assert chains[j].end <= chains[k].from;
    }
  }

  lemma TextsSplit(g: Actions, d: seq<Directive>, t: seq<string>, rules: seq<Rule>, chains: seq<Range>, j: nat)
    requires |d| == |t| && FromChains(g, d, t, rules, chains) && j < |rules|
    requires forall k :: 0 <= k < |t| ==> '\n' !in t[k]
    ensures chains[j].from < chains[j].end <= |t| && Split(rules[j].text, '\n') == t[chains[j].from..chains[j].end]
  {
    assert FromChain(g, d, t, rules[j], chains[j]);
    SplitChain(t, chains[j].from, chains[j].end);
  }

  /** Every directive is in exactly one rule's chain or is skipped as no rule; rules come in source order under
      increasing lines, and splitting a rule's text gives its chain back. */
  lemma RuleConservation(g: Actions, d: seq<Directive>, t: seq<string>, rules: seq<Rule>, chains: seq<Range>)
    requires |t| == |d| && Rules(g, d, t, 0) == Ok(rules) && chains == Groups(t, 0, NotRule(g), g.chained)
    requires (forall j, k :: 0 <= j < k < |d| ==> d[j].line < d[k].line) && (forall j :: 0 <= j < |t| ==> '\n' !in t[j])
    ensures Partition(t, 0, NotRule(g), g.chained, chains) && FromChains(g, d, t, rules, chains)
    ensures forall j, k :: 0 <= j < k < |rules| ==> rules[j].line < rules[k].line
    ensures forall j :: 0 <= j < |rules| ==>
              chains[j].from < chains[j].end <= |t| && Split(rules[j].text, '\n') == t[chains[j].from..chains[j].end]
  {
    RulesAreGroups(g, d, t, 0);
    GroupsPartition(t, 0, NotRule(g), g.chained);
    LinesIncrease(g, d, t, rules, chains);
    forall j | 0 <= j < |rules|
      ensures chains[j].from < chains[j].end <= |t| && Split(rules[j].text, '\n') == t[chains[j].from..chains[j].end]
    {
      TextsSplit(g, d, t, rules, chains, j);
    }
  }

  /** Trimmed directives of one line each stay on one line. */
  lemma TrimmedOneLine(d: seq<Directive>)
    requires forall j :: 0 <= j < |d| ==> '\n' !in d[j].text
    ensures forall j :: 0 <= j < |d| ==> '\n' !in Trimmed(d)[j]
  {
    forall j | 0 <= j < |d| ensures '\n' !in Trimmed(d)[j] { TrimKeepsOut(d[j].text, '\n'); }
  }

  lemma {:induction false} SplitPieces(lines: seq<string>)
    requires forall line :: line in lines ==> '\n' !in line
    ensures forall line :: line in lines ==> '\n' !in Piece(line)
  {
    forall line | line in lines ensures '\n' !in Piece(line) {
      var t := TrimSpace(line);
      TrimKeepsOut(line, '\n');
      if t != "" { TrimKeepsOut(t[..|t| - 1], '\n'); }
    }
  }

  /** Both conservation laws for a whole file. */
  lemma FileConservation(g: Actions, raw: string, lines: seq<string>, d: seq<Directive>, rules: seq<Rule>)
    requires lines == Split(Unix(raw), '\n') && d == Directives(Conf, lines, 0) && Rules(g, d, Trimmed(d), 0) == Ok(rules)
    ensures Partition(lines, 0, Skip(Conf), Conf.more, Groups(lines, 0, Skip(Conf), Conf.more))
    ensures forall j, k :: 0 <= j < k < |d| ==> d[j].line < d[k].line
    ensures var t := Trimmed(d);
            var chains := Groups(t, 0, NotRule(g), g.chained);
            && Partition(t, 0, NotRule(g), g.chained, chains) && FromChains(g, d, t, rules, chains)
            && (forall j, k :: 0 <= j < k < |rules| ==> rules[j].line < rules[k].line)
            && (forall j :: 0 <= j < |rules| ==> Split(rules[j].text, '\n') == t[chains[j].from..chains[j].end])
  {
    SplitPieces(lines);
    DirectiveConservation(Conf, lines);
    TrimmedOneLine(d);
    RuleConservation(g, d, Trimmed(d), rules, Groups(Trimmed(d), 0, NotRule(g), g.chained));
  }
}
