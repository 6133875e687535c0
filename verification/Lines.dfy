/** Texts as lists of trimmed, non-empty lines. */
module Lines {
  import opened Text

  predicate Blank(s: string) { forall i :: 0 <= i < |s| ==> IsSpace(s[i]) }

  lemma {:induction false} TrimLeftSplit(s: string)
    ensures |TrimLeft(s)| <= |s| && Blank(s[..|s| - |TrimLeft(s)|])
  {
    if s != [] && IsSpace(s[0]) {
      TrimLeftSplit(s[1..]);
      var n := |s| - |TrimLeft(s)|;
      assert s[..n] == [s[0]] + s[1..][..n - 1];
    }
  }

  lemma {:induction false} TrimRightSplit(s: string)
    ensures |TrimRight(s)| <= |s| && Blank(s[|TrimRight(s)|..])
  {
    if s != [] && IsSpace(s[|s| - 1]) {
      var front := s[..|s| - 1];
      TrimRightSplit(front);
      assert s[|TrimRight(s)|..] == front[|TrimRight(s)|..] + [s[|s| - 1]];
    }
  }

  /** Every text is its trimmed form between blanks. */
  lemma TrimSplit(s: string) returns (a: string, b: string)
    ensures s == a + TrimSpace(s) + b && Blank(a) && Blank(b)
  {
    TrimLeftSplit(s);
    TrimRightSplit(TrimLeft(s));
    a, b := Around(s, TrimLeft(s), TrimRight(TrimLeft(s)));
  }

  lemma Around(s: string, t: string, m: string) returns (a: string, b: string)
    requires |t| <= |s| && t == s[|s| - |t|..] && m <= t && Blank(s[..|s| - |t|]) && Blank(t[|m|..])
    ensures s == a + m + b && Blank(a) && Blank(b)
  {
    a, b := s[..|s| - |t|], t[|m|..];
    assert s == a + t && t == m + b;
  }

  lemma {:induction false} TrimLeftOf(a: string, m: string)
    requires Blank(a) && (m == [] || !IsSpace(m[0]))
    ensures TrimLeft(a + m) == m
  {
    if a == [] {
      assert a + m == m;
    } else {
      TrimLeftOf(a[1..], m);
      assert (a + m)[1..] == a[1..] + m;
    }
  }

  lemma {:induction false} TrimRightOf(m: string, b: string)
    requires Blank(b) && (m == [] || !IsSpace(m[|m| - 1]))
    ensures TrimRight(m + b) == m
  {
    if b == [] {
      assert m + b == m;
    } else {
      TrimRightOf(m, b[..|b| - 1]);
      assert (m + b)[..|m + b| - 1] == m + b[..|b| - 1];
    }
  }

  lemma TrimBlank(s: string)
    requires Blank(s)
    ensures TrimSpace(s) == ""
  {
    TrimLeftOf(s, "");
    assert s + "" == s;
  }

  lemma TrimBetween(a: string, m: string, b: string)
    requires Blank(a) && Blank(b) && Trimmed(m) && m != ""
    ensures TrimSpace(a + (m + b)) == m
  {
    TrimLeftOf(a, m + b);
    TrimRightOf(m, b);
  }

  /** Blanks around a trimmed text are what trimming removes. */
  lemma TrimOf(a: string, m: string, b: string)
    requires Blank(a) && Blank(b) && Trimmed(m)
    ensures TrimSpace(a + m + b) == m
  {
    if m == "" {
      assert a + m + b == a + b;
      TrimBlank(a + b);
    } else {
      assert a + m + b == a + (m + b);
      TrimBetween(a, m, b);
    }
  }

  lemma TrimAround(a: string, s: string, b: string)
    requires Blank(a) && Blank(b)
    ensures TrimSpace(a + s + b) == TrimSpace(s)
  {
    var p, q := TrimSplit(s);
    Regroup(a, p, TrimSpace(s), q, b);
    TrimOf(a + p, TrimSpace(s), q + b);
  }

  lemma Regroup(a: string, p: string, m: string, q: string, b: string)
    ensures a + (p + m + q) + b == (a + p) + m + (q + b)
  {
  }

  lemma TrimKeepsOut(s: string, c: char)
    requires c !in s
    ensures c !in TrimSpace(s)
  {
    var a, b := TrimSplit(s);
    var m := TrimSpace(s);
    assert forall x :: x in m ==> x in a + m + b;
  }

  lemma TrimBefore(c: char, s: string)
    requires IsSpace(c)
    ensures TrimSpace([c] + s) == TrimSpace(s)
  {
    TrimAround([c], s, []);
    assert [c] + s + [] == [c] + s;
  }

  lemma {:induction false} TrimAfter(s: string, c: char)
    requires IsSpace(c)
    ensures TrimSpace(s + [c]) == TrimSpace(s)
  {
    TrimAround([], s, [c]);
    assert [] + s == s;
  }

  /** The non-empty ones of some lines, after a clean-up of each. */
  function Proper(clean: string -> string, lines: seq<string>): seq<string> {
    if lines == [] then [] else One(clean(lines[0])) + Proper(clean, lines[1..])
  }

  function One(line: string): seq<string> { if line == "" then [] else [line] }

  lemma {:induction false} ProperAppend(clean: string -> string, a: seq<string>, b: seq<string>)
    ensures Proper(clean, a + b) == Proper(clean, a) + Proper(clean, b)
  {
    if a == [] {
      assert a + b == b;
    } else {
      ProperAppend(clean, a[1..], b);
      assert (a + b)[1..] == a[1..] + b;
      Associative(One(clean(a[0])), Proper(clean, a[1..]), Proper(clean, b));
    }
  }

  lemma Associative<T>(a: seq<T>, b: seq<T>, c: seq<T>)
    ensures a + (b + c) == a + b + c
  {
  }

  lemma ProperCons(clean: string -> string, line: string, rest: seq<string>)
    ensures Proper(clean, [line] + rest) == One(clean(line)) + Proper(clean, rest)
  {
    assert ([line] + rest)[1..] == rest;
  }

  lemma ProperOne(clean: string -> string, line: string)
    ensures Proper(clean, [line]) == One(clean(line))
  {
    assert Proper(clean, [line][1..]) == [];
  }

  /** Lines that are clean and not empty stay as they are. */
  lemma {:induction false} ProperOfProper(clean: string -> string, lines: seq<string>)
    requires forall line :: line in lines ==> clean(line) == line && line != ""
    ensures Proper(clean, lines) == lines
  {
    if lines != [] {
      assert lines[0] in lines;
      ProperOfProper(clean, lines[1..]);
    }
  }

  lemma {:induction false} ProperIsProper(clean: string -> string, lines: seq<string>, line: string)
    requires line in Proper(clean, lines)
    ensures line != "" && exists i :: 0 <= i < |lines| && clean(lines[i]) == line
  {
    if line in Proper(clean, lines[1..]) {
      ProperIsProper(clean, lines[1..], line);
      var i :| 0 <= i < |lines[1..]| && clean(lines[1..][i]) == line;
      assert clean(lines[i + 1]) == line;
    }
  }

  function LinesOf(s: string): seq<string> { Proper(TrimSpace, Split(s, '\n')) }

  /** A blank in front of the first line or behind the last one, or an empty line more. */
  lemma BlankFirst(clean: string -> string, first: string, longer: string, rest: seq<string>)
    requires clean("") == "" && clean(first) == clean(longer)
    ensures Proper(clean, [""] + ([first] + rest)) == Proper(clean, [first] + rest)
    ensures Proper(clean, [longer] + rest) == Proper(clean, [first] + rest)
  {
    ProperCons(clean, "", [first] + rest);
    ProperCons(clean, first, rest);
    ProperCons(clean, longer, rest);
  }

  lemma BlankLast(clean: string -> string, front: seq<string>, last: string, longer: string)
    requires clean("") == "" && clean(last) == clean(longer)
    ensures Proper(clean, (front + [last]) + [""]) == Proper(clean, front + [last])
    ensures Proper(clean, front + [longer]) == Proper(clean, front + [last])
  {
    ProperAppend(clean, front + [last], [""]);
    ProperAppend(clean, front, [last]);
    ProperAppend(clean, front, [longer]);
    ProperOne(clean, "");
    ProperOne(clean, last);
    ProperOne(clean, longer);
  }

  lemma TrimEmpty()
    ensures TrimSpace("") == ""
  {
  }

  lemma BlankBefore(c: char, s: string)
    requires IsSpace(c)
    ensures LinesOf([c] + s) == LinesOf(s)
  {
    var lines := Split(s, '\n');
    assert ([c] + s)[1..] == s && lines == [lines[0]] + lines[1..];
    TrimEmpty();
    TrimBefore(c, lines[0]);
    BlankFirst(TrimSpace, lines[0], [c] + lines[0], lines[1..]);
  }

  lemma {:induction false} SplitSnoc(s: string, c: char, sep: char)
    ensures var lines := Split(s, sep);
            Split(s + [c], sep) == if c == sep then lines + [[]] else lines[..|lines| - 1] + [lines[|lines| - 1] + [c]]
  {
    if s == [] {
      assert s + [c] == [c] && [c][1..] == [] && Split([], sep) == [[]];
      assert [c] + "" == [c] && [""][1..] == [];
    } else {
      SplitSnoc(s[1..], c, sep);
      assert (s + [c])[1..] == s[1..] + [c];
      SnocCases(s[0], Split(s[1..], sep), Split(s[1..] + [c], sep), c, sep);
    }
  }

  lemma SnocCases(first: char, rest: seq<string>, longer: seq<string>, c: char, sep: char)
    requires rest != [] && longer == if c == sep then rest + [[]] else rest[..|rest| - 1] + [rest[|rest| - 1] + [c]]
    ensures var lines := if first == sep then [[]] + rest else [[first] + rest[0]] + rest[1..];
            (if first == sep then [[]] + longer else [[first] + longer[0]] + longer[1..])
            == if c == sep then lines + [[]] else lines[..|lines| - 1] + [lines[|lines| - 1] + [c]]
  {
    if |rest| == 1 {
      assert [first] + (rest[0] + [c]) == [first] + rest[0] + [c];
    }
  }

  lemma SnocLines(lines: seq<string>, more: seq<string>, c: char, sep: char)
    requires IsSpace(c) && lines != []
    requires more == if c == sep then lines + [[]] else lines[..|lines| - 1] + [lines[|lines| - 1] + [c]]
    ensures Proper(TrimSpace, more) == Proper(TrimSpace, lines)
  {
    var front, last := lines[..|lines| - 1], lines[|lines| - 1];
    assert lines == front + [last];
    TrimEmpty();
    TrimAfter(last, c);
    BlankLast(TrimSpace, front, last, last + [c]);
  }

  lemma BlankAfter(s: string, c: char)
    requires IsSpace(c)
    ensures LinesOf(s + [c]) == LinesOf(s)
  {
    SplitSnoc(s, c, '\n');
    SnocLines(Split(s, '\n'), Split(s + [c], '\n'), c, '\n');
  }

  lemma {:induction false} BlanksBefore(f: string -> seq<string>, a: string, s: string)
    requires Blank(a) && forall c, t :: IsSpace(c) ==> f([c] + t) == f(t)
    ensures f(a + s) == f(s)
  {
    if a == [] {
      assert a + s == s;
    } else {
      BlanksBefore(f, a[1..], s);
      assert a + s == [a[0]] + (a[1..] + s);
    }
  }

  lemma {:induction false} BlanksAfter(f: string -> seq<string>, s: string, b: string)
    requires Blank(b) && forall t, c :: IsSpace(c) ==> f(t + [c]) == f(t)
    ensures f(s + b) == f(s)
  {
    if b == [] {
      assert s + b == s;
    } else {
      BlanksAfter(f, s, b[..|b| - 1]);
      assert s + b == (s + b[..|b| - 1]) + [b[|b| - 1]];
    }
  }

  lemma BlanksAround(f: string -> seq<string>, a: string, s: string, b: string)
    requires Blank(a) && Blank(b)
    requires forall c, t :: IsSpace(c) ==> f([c] + t) == f(t)
    requires forall t, c :: IsSpace(c) ==> f(t + [c]) == f(t)
    ensures f(a + s + b) == f(s)
  {
    BlanksAfter(f, a + s, b);
    BlanksBefore(f, a, s);
  }

  /** Trimming a whole text does not change its lines. */
  lemma LinesOfTrimmed(s: string)
    ensures LinesOf(TrimSpace(s)) == LinesOf(s)
  {
    forall c, t | IsSpace(c) ensures LinesOf([c] + t) == LinesOf(t) { BlankBefore(c, t); }
    forall t, c | IsSpace(c) ensures LinesOf(t + [c]) == LinesOf(t) { BlankAfter(t, c); }
    var a, b := TrimSplit(s);
    BlanksAround(LinesOf, a, TrimSpace(s), b);
  }

  /** strings.ReplaceAll of carriage return and line feed by line feed. */
  function Unix(s: string): string {
    if s == [] then []
    else if s[0] == '\r' && |s| > 1 && s[1] == '\n' then Unix(s[1..])
    else [s[0]] + Unix(s[1..])
  }

  predicate SameButReturns(a: seq<string>, b: seq<string>) {
    |a| == |b| && forall i :: 0 <= i < |a| ==> b[i] == a[i] || a[i] == b[i] + ['\r']
  }

  lemma {:induction false} UnixLines(s: string)
    ensures SameButReturns(Split(s, '\n'), Split(Unix(s), '\n'))
  {
    if s != [] {
      UnixLines(s[1..]);
      var rest, unix := Split(s[1..], '\n'), Split(Unix(s[1..]), '\n');
      if s[0] == '\r' && |s| > 1 && s[1] == '\n' {
        assert rest[0] == "" && unix[0] == "";
      } else {
        assert ([s[0]] + Unix(s[1..]))[1..] == Unix(s[1..]);
        assert rest[0] == unix[0] + ['\r'] ==> [s[0]] + rest[0] == ([s[0]] + unix[0]) + ['\r'];
      }
    }
  }

  lemma {:induction false} ProperSame(clean: string -> string, a: seq<string>, b: seq<string>)
    requires |a| == |b| && forall i :: 0 <= i < |a| ==> clean(a[i]) == clean(b[i])
    ensures Proper(clean, a) == Proper(clean, b)
  {
    if a != [] { ProperSame(clean, a[1..], b[1..]); }
  }

  /** Carriage returns before line feeds do not matter. */
  lemma LinesOfUnix(s: string)
    ensures LinesOf(Unix(s)) == LinesOf(s)
  {
    var a, b := Split(s, '\n'), Split(Unix(s), '\n');
    UnixLines(s);
    forall i | 0 <= i < |a| ensures TrimSpace(a[i]) == TrimSpace(b[i]) { TrimAfter(b[i], '\r'); }
    ProperSame(TrimSpace, a, b);
  }

  /** Joined lines give the lines back. */
  lemma LinesOfJoin(lines: seq<string>)
    requires lines != [] && forall line :: line in lines ==> '\n' !in line
    ensures LinesOf(Join(lines, '\n')) == Proper(TrimSpace, lines)
  {
    SplitJoin(lines, '\n');
  }

  lemma {:induction false} UnixOneLine(s: string)
    requires '\n' !in s
    ensures Unix(s) == s
  {
    if s != [] { UnixOneLine(s[1..]); }
  }

  /** A line of a text is trimmed, not empty and on one line. */
  lemma LineOf(text: string, line: string)
    requires line in LinesOf(text)
    ensures Trimmed(line) && line != "" && '\n' !in line
  {
    var lines := Split(text, '\n');
    ProperIsProper(TrimSpace, lines, line);
    var i :| 0 <= i < |lines| && TrimSpace(lines[i]) == line;
    assert lines[i] in lines;
    TrimKeepsOut(lines[i], '\n');
  }

  lemma NoLines()
    ensures LinesOf("") == []
  {
    ProperOne(TrimSpace, "");
    TrimEmpty();
  }

  /** Joined lines that are trimmed, not empty and on one line each are the lines of the joined text. */
  lemma {:induction false} LinesOfJoined(lines: seq<string>)
    requires forall line :: line in lines ==> TrimSpace(line) == line && line != "" && '\n' !in line
    ensures LinesOf(Join(lines, '\n')) == lines
  {
    if lines == [] {
      NoLines();
    } else {
      LinesOfJoin(lines);
      ProperOfProper(TrimSpace, lines);
    }
  }

  // ---------------------------------------------------------------- fields

  /** strings.Fields. */
  function Fields(s: string): seq<string>
    decreases |s|
  {
    if s == [] then []
    else if IsSpace(s[0]) then Fields(s[1..])
    else
      var (word, rest) := Span(s, NotSpace);
      [word] + Fields(rest)
  }

  predicate NotSpace(c: char) { !IsSpace(c) }

  predicate Word(w: string) { w != "" && forall c :: c in w ==> NotSpace(c) }

  lemma {:induction false} FieldsAreWords(s: string)
    ensures forall i :: 0 <= i < |Fields(s)| ==> Word(Fields(s)[i])
    decreases |s|
  {
    if s != [] {
      if IsSpace(s[0]) { FieldsAreWords(s[1..]); } else { FieldsAreWords(Span(s, NotSpace).1); }
    }
  }

  lemma FieldsCons(word: string, rest: string)
    requires Word(word) && (rest == "" || !NotSpace(rest[0]))
    ensures Fields(word + rest) == [word] + Fields(rest)
  {
    SpanAt(word, rest, NotSpace);
    assert (word + rest)[0] == word[0] && word[0] in word;
  }

  lemma {:induction false} FieldsOfJoin(words: seq<string>)
    requires forall i :: 0 <= i < |words| ==> Word(words[i])
    ensures Fields(Join(words, ' ')) == words
  {
    if |words| == 1 {
      FieldsCons(words[0], "");
      assert words[0] + "" == words[0] && Fields("") == [];
    } else if |words| > 1 {
      var rest := Join(words[1..], ' ');
      FieldsOfJoin(words[1..]);
      FieldsCons(words[0], [' '] + rest);
      assert ([' '] + rest)[1..] == rest;
      assert words[0] + [' '] + rest == words[0] + ([' '] + rest);
    }
  }

  /** Fields joined by one blank. */
  function Squash(s: string): string { Join(Fields(s), ' ') }

  lemma SquashAgain(s: string)
    ensures Squash(Squash(s)) == Squash(s)
  {
    FieldsAreWords(s);
    FieldsOfJoin(Fields(s));
  }

  /** A blank separates fields. */
  lemma {:induction false} FieldsOfTwo(a: string, c: char, b: string)
    requires IsSpace(c)
    ensures Fields(a + [c] + b) == Fields(a) + Fields(b)
    decreases |a|
  {
    var all := a + [c] + b;
    if a == [] {
      assert all[1..] == b;
    } else if IsSpace(a[0]) {
      FieldsOfTwo(a[1..], c, b);
      assert all[1..] == a[1..] + [c] + b;
    } else {
      var (word, rest) := Span(a, NotSpace);
      SpanAt(word, rest + [c] + b, NotSpace);
      assert all == word + (rest + [c] + b);
      FieldsOfTwo(rest, c, b);
      assert [word] + (Fields(rest) + Fields(b)) == [word] + Fields(rest) + Fields(b);
    }
  }

  lemma {:induction false} FieldsOfBlank(b: string)
    requires Blank(b)
    ensures Fields(b) == []
  {
    if b != [] {
      assert Blank(b[1..]);
      FieldsOfBlank(b[1..]);
    }
  }

  lemma {:induction false} FieldsAround(a: string, m: string, b: string)
    requires Blank(a) && Blank(b)
    ensures Fields(a + m + b) == Fields(m)
  {
    if a != [] {
      assert Blank(a[1..]) && (a + m + b)[1..] == a[1..] + m + b;
      FieldsAround(a[1..], m, b);
    } else if b != [] {
      assert Blank(b[1..]) && a + m + b == m + [b[0]] + b[1..];
      FieldsOfTwo(m, b[0], b[1..]);
      FieldsOfBlank(b[1..]);
      assert Fields(m) + [] == Fields(m);
    } else {
      assert a + m + b == m;
    }
  }

  lemma {:induction false} FieldsOfTrimmed(s: string)
    ensures Fields(TrimSpace(s)) == Fields(s)
  {
    var a, b := TrimSplit(s);
    FieldsAround(a, TrimSpace(s), b);
  }

  function FieldsOfAll(lines: seq<string>): seq<string> {
    if lines == [] then [] else Fields(lines[0]) + FieldsOfAll(lines[1..])
  }

  lemma {:induction false} FieldsOfLines(lines: seq<string>)
    ensures Fields(Join(lines, '\n')) == FieldsOfAll(lines)
  {
    if |lines| == 1 {
      assert FieldsOfAll(lines[1..]) == [] && Fields(lines[0]) + [] == Fields(lines[0]);
    } else if |lines| > 1 {
      FieldsOfTwo(lines[0], '\n', Join(lines[1..], '\n'));
      FieldsOfLines(lines[1..]);
    }
  }

  lemma FieldsOfCons(line: string, rest: seq<string>)
    ensures FieldsOfAll([line] + rest) == Fields(line) + FieldsOfAll(rest)
  {
    assert ([line] + rest)[1..] == rest;
  }

  lemma {:induction false} FieldsOfOne(line: string, rest: seq<string>)
    ensures FieldsOfAll(One(line) + rest) == Fields(line) + FieldsOfAll(rest)
  {
    if line == "" {
      assert [] + rest == rest && Fields(line) == [] && [] + FieldsOfAll(rest) == FieldsOfAll(rest);
    } else {
      FieldsOfCons(line, rest);
    }
  }

  lemma {:induction false} FieldsOfProper(lines: seq<string>)
    ensures FieldsOfAll(Proper(TrimSpace, lines)) == FieldsOfAll(lines)
  {
    if lines != [] {
      FieldsOfProper(lines[1..]);
      FieldsOfTrimmed(lines[0]);
      FieldsOfOne(TrimSpace(lines[0]), Proper(TrimSpace, lines[1..]));
    }
  }

  /** A text and its trimmed non-empty lines, joined, have the same fields. */
  lemma {:induction false} FieldsOfJoinedLines(text: string)
    ensures Fields(Join(LinesOf(text), '\n')) == Fields(text)
  {
    JoinSplit(text, '\n');
    FieldsOfLines(Split(text, '\n'));
    FieldsOfProper(Split(text, '\n'));
    FieldsOfLines(LinesOf(text));
  }
}
