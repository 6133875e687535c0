/** Custom rule texts and the clean-ups of single strings that policy configurations use
    (internal/manager/policy_config.go, internal/manager/policy_configuration.go). */
module CustomRuleText {
  import opened Prelude
  import opened Text
  import opened Lines
  import opened GuidedLine
  import Policy
  import PolicyBuild
  import PolicyLayers
  import PolicyLists
  import PolicyEdits
  import PolicyRuns
  import PolicyProjection

  const MaxBytes: nat := 32768

  predicate NoComment(line: string) { line == "" || line[0] != '#' }

  /** Trimmed rule lines of a text, without comments. */
  function RuleLines(text: string): seq<string> { Policy.Filter(NoComment, LinesOf(text)) }

  lemma {:induction false} RuleLineIn(lines: seq<string>, line: string)
    ensures line in Policy.Filter(NoComment, lines) <==> line in lines && !("#" <= line)
  {
    if lines != [] {
      RuleLineIn(lines[..|lines| - 1], line);
      assert lines == lines[..|lines| - 1] + [lines[|lines| - 1]];
      assert line != "" ==> ("#" <= line <==> line[0] == '#');
    }
  }

  /** A rule line is a trimmed line with text that does not begin with a number sign. */
  lemma {:induction false} RuleLinesAre(text: string, line: string)
    ensures line in RuleLines(text) <==> line in LinesOf(text) && !("#" <= line)
  {
    RuleLineIn(LinesOf(text), line);
  }

  /** Every line is accepted, under ids that differ; `accept` gives the id of a line that is one safe SecRule. */
  predicate Accepted(accept: string -> Option<int>, lines: seq<string>) {
    && (forall i :: 0 <= i < |lines| ==> accept(lines[i]).Some?)
    && (forall i, j :: 0 <= i < j < |lines| ==> accept(lines[i]) != accept(lines[j]))
  }

  function Canonical(text: string): string { TrimSpace(Unix(text)) }

  /** The rule lines of a safe text. */
  function SafeLines(accept: string -> Option<int>, text: string): Option<seq<string>> {
    if ByteLength(Canonical(text)) <= MaxBytes && Accepted(accept, RuleLines(text)) then Some(RuleLines(text)) else None
  }

  lemma CanonicalLinesOf(text: string)
    ensures LinesOf(Canonical(text)) == LinesOf(text)
  {
    LinesOfTrimmed(Unix(text));
    LinesOfUnix(text);
  }

  // ---------------------------------------------------------------- the check, line by line

  lemma AcceptedSnoc(accept: string -> Option<int>, lines: seq<string>, line: string)
    ensures Accepted(accept, lines + [line])
        <==> Accepted(accept, lines) && accept(line).Some? && forall i :: 0 <= i < |lines| ==> accept(lines[i]) != accept(line)
  {
    var all := lines + [line];
    if Accepted(accept, all) {
      forall i | 0 <= i < |lines| ensures accept(lines[i]).Some? && accept(lines[i]) != accept(line) {
        assert all[i] == lines[i] && all[|lines|] == line;
      }
      forall i, j | 0 <= i < j < |lines| ensures accept(lines[i]) != accept(lines[j]) { assert all[i] == lines[i] && all[j] == lines[j]; }
      assert all[|lines|] == line;
    }
  }

  lemma {:induction false} AcceptedPrefix(accept: string -> Option<int>, a: seq<string>, b: seq<string>)
    requires Accepted(accept, a + b)
    ensures Accepted(accept, a)
  {
    forall i | 0 <= i < |a| ensures accept(a[i]).Some? { assert (a + b)[i] == a[i]; }
    forall i, j | 0 <= i < j < |a| ensures accept(a[i]) != accept(a[j]) { assert (a + b)[i] == a[i] && (a + b)[j] == a[j]; }
  }

  lemma InMap(accept: string -> Option<int>, lines: seq<string>, id: Option<int>)
    ensures id !in Policy.Map(accept, lines) <==> forall k :: 0 <= k < |lines| ==> accept(lines[k]) != id
  {
    if id !in Policy.Map(accept, lines) {
      forall k | 0 <= k < |lines| ensures accept(lines[k]) != id { assert Policy.Map(accept, lines)[k] in Policy.Map(accept, lines); }
    }
  }

  lemma AcceptedStep(accept: string -> Option<int>, lines: seq<string>, line: string)
    ensures Accepted(accept, lines + [line]) <==> Accepted(accept, lines) && accept(line).Some? && accept(line) !in Policy.Map(accept, lines)
  {
    AcceptedSnoc(accept, lines, line);
    InMap(accept, lines, accept(line));
  }

  /** One pass over the rule lines with the set of ids seen. */
  method CheckLines(accept: string -> Option<int>, lines: seq<string>) returns (ok: bool)
    ensures ok <==> Accepted(accept, lines)
  {
    var seen: set<Option<int>> := {};
    var i := 0;
    while i < |lines|
      invariant 0 <= i <= |lines| && Accepted(accept, lines[..i])
      invariant forall id :: id in seen <==> id in Policy.Map(accept, lines[..i])
    {
      var id := accept(lines[i]);
      AcceptedStep(accept, lines[..i], lines[i]);
      assert lines[..i + 1] == lines[..i] + [lines[i]];
      if id.None? || id in seen {
        assert lines == lines[..i + 1] + lines[i + 1..];
        if Accepted(accept, lines) { AcceptedPrefix(accept, lines[..i + 1], lines[i + 1..]); }
        return false;
      }
      Policy.MapAppend(accept, lines[..i], [lines[i]]);
      assert Policy.Map(accept, [lines[i]]) == [id];
      seen := seen + {id};
      i := i + 1;
    }
    assert lines[..i] == lines;
    return true;
  }

  lemma CanonicalRuleLines(text: string)
    ensures RuleLines(Canonical(text)) == RuleLines(text)
  {
    CanonicalLinesOf(text);
  }

  method CheckText(accept: string -> Option<int>, canonical: string, lines: seq<string>) returns (ok: bool)
    ensures ok <==> ByteLength(canonical) <= MaxBytes && Accepted(accept, lines)
  {
    if ByteLength(canonical) > MaxBytes { return false; }
    ok := CheckLines(accept, lines);
  }

  lemma {:induction false} SafeWhen(accept: string -> Option<int>, text: string, ok: bool)
    requires ok <==> ByteLength(Canonical(text)) <= MaxBytes && Accepted(accept, RuleLines(text))
    ensures SafeLines(accept, text) == if ok then Some(RuleLines(text)) else None
  {
  }

  /** safeCustomRules: the canonical text and the number of its rules, or nothing. */
  method SafeCustomRules(accept: string -> Option<int>, text: string) returns (r: Option<(string, nat)>)
    ensures r == match SafeLines(accept, text) case Some(lines) => Some((Canonical(text), |lines|)) case None => None
  {
    var canonical := Canonical(text);
    var lines := RuleLines(canonical);
    CanonicalRuleLines(text);
    var ok := CheckText(accept, canonical, lines);
    SafeWhen(accept, text, ok);
    r := if ok then Some((canonical, |lines|)) else None;
  }

  // ---------------------------------------------------------------- joined lines are accepted again

  lemma {:induction false} BytesAppend(a: string, b: string)
    ensures ByteLength(a + b) == ByteLength(a) + ByteLength(b)
  {
    if a == [] {
      assert a + b == b;
    } else {
      BytesAppend(a[1..], b);
      assert (a + b)[1..] == a[1..] + b;
    }
  }

  lemma TrimBytes(s: string)
    ensures ByteLength(TrimSpace(s)) <= ByteLength(s)
  {
    var a, b := TrimSplit(s);
    BytesAppend(a + TrimSpace(s), b);
    BytesAppend(a, TrimSpace(s));
  }

  lemma {:induction false} UnixBytes(s: string)
    ensures ByteLength(Unix(s)) <= ByteLength(s)
  {
    if s != [] {
      UnixBytes(s[1..]);
      if !(s[0] == '\r' && |s| > 1 && s[1] == '\n') {
        assert ([s[0]] + Unix(s[1..]))[1..] == Unix(s[1..]);
      }
    }
  }

  /** Bytes of lines, each with its line feed. */
  function Weight(lines: seq<string>): nat {
    if lines == [] then 0 else Weight(lines[..|lines| - 1]) + ByteLength(lines[|lines| - 1]) + 1
  }

  lemma {:induction false} WeightCons(line: string, rest: seq<string>)
    ensures Weight([line] + rest) == ByteLength(line) + 1 + Weight(rest)
  {
    if rest != [] {
      var front, last := rest[..|rest| - 1], rest[|rest| - 1];
      WeightCons(line, front);
      assert ([line] + rest)[..|rest|] == [line] + front && ([line] + rest)[|rest|] == last;
    } else {
      assert [line] + rest == [line] && [line][..0] == rest;
    }
  }

  lemma {:induction false} JoinWeight(lines: seq<string>)
    requires lines != []
    ensures ByteLength(Join(lines, '\n')) + 1 == Weight(lines)
  {
    WeightCons(lines[0], lines[1..]);
    assert lines == [lines[0]] + lines[1..];
    if |lines| > 1 {
      var rest := Join(lines[1..], '\n');
      JoinWeight(lines[1..]);
      BytesAppend(lines[0] + "\n", rest);
      BytesAppend(lines[0], "\n");
      assert ByteLength("\n") == 1;
    }
  }

  lemma {:induction false} FilterWeight(keep: string -> bool, lines: seq<string>)
    ensures Weight(Policy.Filter(keep, lines)) <= Weight(lines)
  {
    if lines != [] {
      var front, last := lines[..|lines| - 1], lines[|lines| - 1];
      FilterWeight(keep, front);
      assert (Policy.Filter(keep, front) + [last])[..|Policy.Filter(keep, front)|] == Policy.Filter(keep, front);
    }
  }

  lemma {:induction false} ProperWeight(clean: string -> string, lines: seq<string>)
    requires forall line :: ByteLength(clean(line)) <= ByteLength(line)
    ensures Weight(Proper(clean, lines)) <= Weight(lines)
  {
    if lines != [] {
      ProperWeight(clean, lines[1..]);
      WeightCons(lines[0], lines[1..]);
      WeightCons(clean(lines[0]), Proper(clean, lines[1..]));
      assert lines == [lines[0]] + lines[1..];
      assert [] + Proper(clean, lines[1..]) == Proper(clean, lines[1..]);
    }
  }

  lemma LinesWeight(v: string)
    ensures RuleLines(v) != [] ==> ByteLength(Join(RuleLines(v), '\n')) <= ByteLength(v)
  {
    var lines := Split(v, '\n');
    forall line ensures ByteLength(TrimSpace(line)) <= ByteLength(line) { TrimBytes(line); }
    ProperWeight(TrimSpace, lines);
    FilterWeight(NoComment, LinesOf(v));
    JoinSplit(v, '\n');
    JoinWeight(lines);
    if RuleLines(v) != [] { JoinWeight(RuleLines(v)); }
  }

  lemma RuleLineIs(text: string, i: nat)
    requires i < |RuleLines(text)|
    ensures var line := RuleLines(text)[i]; Trimmed(line) && line != "" && '\n' !in line && NoComment(line) && Canonical(line) == line
  {
    PolicyLists.FilterMember(NoComment, LinesOf(text), i);
    var line := RuleLines(text)[i];
    LineOf(text, line);
    UnixOneLine(line);
  }

  lemma {:induction false} JoinedRuleLines(lines: seq<string>)
    requires forall i :: 0 <= i < |lines| ==> Trimmed(lines[i]) && lines[i] != "" && '\n' !in lines[i] && NoComment(lines[i])
    ensures RuleLines(Join(lines, '\n')) == lines
  {
    forall line | line in lines ensures TrimSpace(line) == line && line != "" && '\n' !in line {
      var i :| 0 <= i < |lines| && lines[i] == line;
    }
    LinesOfJoined(lines);
    Policy.FilterAll(NoComment, lines);
  }

  /** The rule lines of a safe text, joined, are a safe text with the same rule lines. */
  lemma SafeLinesAgain(accept: string -> Option<int>, text: string, lines: seq<string>)
    requires SafeLines(accept, text) == Some(lines)
    ensures SafeLines(accept, Join(lines, '\n')) == Some(lines)
  {
    var joined := Join(lines, '\n');
    forall i: nat | i < |lines| ensures Trimmed(lines[i]) && lines[i] != "" && '\n' !in lines[i] && NoComment(lines[i]) { RuleLineIs(text, i); }
    JoinedRuleLines(lines);
    JoinedIsShort(text, lines);
  }

  lemma JoinedIsShort(text: string, lines: seq<string>)
    requires lines == RuleLines(text)
    ensures ByteLength(Canonical(Join(lines, '\n'))) <= ByteLength(Canonical(text))
  {
    var joined := Join(lines, '\n');
    TrimBytes(Unix(joined));
    UnixBytes(joined);
    if lines != [] {
      CanonicalRuleLines(text);
      LinesWeight(Canonical(text));
    }
  }

  // ---------------------------------------------------------------- the clean-ups in use

  /** The clean-ups of Normalize; networks, digests and the order of keys are taken as they are. */
  function Clean(network: string -> string, sha: string -> string, keyOrder: (string, string) -> bool): Policy.Cleanup {
    Policy.Cleanup(TrimSpace, Squash, Canonical, network, sha, keyOrder)
  }

  function RuleTexts(accept: string -> Option<int>, phase: string -> string, severity: string -> string): PolicyBuild.RuleText {
    PolicyBuild.RuleText((text: string) => SafeLines(accept, text), (line: string) => if accept(line).Some? then accept(line).value else 0, phase, severity)
  }

  function JoinLines(lines: seq<string>): string { Join(lines, '\n') }

  lemma CleanIsIdempotent(network: string -> string, sha: string -> string, keyOrder: (string, string) -> bool)
    ensures PolicyEdits.Idempotent(Clean(network, sha, keyOrder))
  {
    forall x ensures Squash(Squash(x)) == Squash(x) { SquashAgain(x); }
  }

  lemma CleanKeepsNames(network: string -> string, sha: string -> string, keyOrder: (string, string) -> bool)
    ensures PolicyProjection.PlainNames(Clean(network, sha, keyOrder))
  {
    AddressTrimmed();
    UriTrimmed();
    IpMatchTrimmed();
    BeginsWithTrimmed();
  }

  lemma TrimNothing(s: string, first: char, last: char)
    requires s != "" && s[0] == first && s[|s| - 1] == last && !IsSpace(first) && !IsSpace(last)
    ensures TrimSpace(s) == s
  {
  }

  lemma AddressTrimmed()
    ensures TrimSpace(PolicyBuild.Address) == PolicyBuild.Address
  {
    TrimNothing(PolicyBuild.Address, 'R', 'R');
  }

  lemma UriTrimmed()
    ensures TrimSpace(PolicyBuild.Uri) == PolicyBuild.Uri
  {
    TrimNothing(PolicyBuild.Uri, 'R', 'I');
  }

  lemma IpMatchTrimmed()
    ensures TrimSpace(PolicyBuild.IpMatch) == PolicyBuild.IpMatch
  {
    TrimNothing(PolicyBuild.IpMatch, '@', 'h');
  }

  lemma BeginsWithTrimmed()
    ensures TrimSpace(PolicyBuild.BeginsWith) == PolicyBuild.BeginsWith
  {
    TrimNothing(PolicyBuild.BeginsWith, '@', 'h');
  }

  /** The rule texts in use meet what the fixpoints ask of them. */
  lemma RuleTextsReparse(accept: string -> Option<int>, phase: string -> string, severity: string -> string,
                         network: string -> string, sha: string -> string, keyOrder: (string, string) -> bool)
    ensures PolicyProjection.Reparses(Clean(network, sha, keyOrder), RuleTexts(accept, phase, severity), JoinLines)
    ensures PolicyRuns.CanonicalLines(Clean(network, sha, keyOrder), RuleTexts(accept, phase, severity))
  {
    var f, g := Clean(network, sha, keyOrder), RuleTexts(accept, phase, severity);
    forall text | g.parse(text).Some?
      ensures g.parse(JoinLines(g.parse(text).value)) == g.parse(text)
      ensures forall i :: 0 <= i < |g.parse(text).value| ==> f.canonical(g.parse(text).value[i]) == g.parse(text).value[i]
    {
      var lines := g.parse(text).value;
      SafeLinesAgain(accept, text, lines);
      forall i: nat | i < |lines| ensures Canonical(lines[i]) == lines[i] { RuleLineIs(text, i); }
    }
  }

  lemma EmptyTextIsSafe(accept: string -> Option<int>)
    ensures SafeLines(accept, "") == Some([])
  {
    NoLines();
    TrimEmpty();
  }

  // ---------------------------------------------------------------- the order of setup keys

  /** Keys are totally ordered. */
  lemma AtMostOrders(network: string -> string, sha: string -> string)
    ensures PolicyLayers.KeyOrder(Clean(network, sha, AtMost))
  {
    forall a, b ensures (AtMost(a, b) || AtMost(b, a)) && (AtMost(a, b) && AtMost(b, a) ==> a == b) { AtMostTotal(a, b); }
    forall a, b, c | AtMost(a, b) && AtMost(b, c) ensures AtMost(a, c) { AtMostTransitive(a, b, c); }
  }
}
