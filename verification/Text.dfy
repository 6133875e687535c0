/** The string operations of the Go standard library that the modelled code uses. */
module Text {
  import opened Prelude

  // ---------------------------------------------------------------- white space

  /** unicode.IsSpace. */
  predicate IsSpace(c: char) {
    var x := c as int;
    (9 <= x <= 13) || x == 32 || x == 0x85 || x == 0xA0 || x == 0x1680 || (0x2000 <= x <= 0x200a)
    || x == 0x2028 || x == 0x2029 || x == 0x202f || x == 0x205f || x == 0x3000
  }

  function TrimLeft(s: string): (r: string)
    ensures r == [] || !IsSpace(r[0])
    ensures |r| <= |s| && r == s[|s| - |r|..]
  {
    if s != [] && IsSpace(s[0]) then TrimLeft(s[1..]) else s
  }

  function TrimRight(s: string): (r: string)
    ensures r == [] || !IsSpace(r[|r| - 1])
    ensures r <= s
  {
    if s != [] && IsSpace(s[|s| - 1]) then TrimRight(s[..|s| - 1]) else s
  }

  /** strings.TrimSpace. */
  function TrimSpace(s: string): (r: string)
    ensures Trimmed(r)
    ensures Trimmed(s) ==> r == s
  {
    TrimRight(TrimLeft(s))
  }

  predicate Trimmed(s: string) {
    s == [] || (!IsSpace(s[0]) && !IsSpace(s[|s| - 1]))
  }

  lemma {:induction false} TrimLeftStep(s: string)
    requires s != [] && IsSpace(s[0])
    ensures TrimLeft(s) == TrimLeft(s[1..])
  {
  }

  predicate Blanks(s: string) { forall i :: 0 <= i < |s| ==> IsSpace(s[i]) }

  lemma {:induction false} BlanksTail(s: string)
    requires s != [] && Blanks(s)
    ensures IsSpace(s[0]) && Blanks(s[1..])
  {
  }

  lemma {:induction false} ConsAppend(c: char, a: string, b: string)
    ensures ([c] + a + b)[0] == c && ([c] + a + b)[1..] == a + b
  {
  }

  lemma {:induction false} DropBlanks(pre: string, s: string)
    requires Blanks(pre)
    ensures TrimLeft(pre + s) == TrimLeft(s)
  {
    if pre == [] {
      assert pre + s == s;
    } else {
      BlanksTail(pre);
      assert pre == [pre[0]] + pre[1..];
      ConsAppend(pre[0], pre[1..], s);
      TrimLeftStep(pre + s);
      DropBlanks(pre[1..], s);
    }
  }

  lemma {:induction false} TrimLeftBlanks(pre: string, s: string)
    requires (forall i :: 0 <= i < |pre| ==> IsSpace(pre[i])) && s != [] && !IsSpace(s[0])
    ensures TrimLeft(pre + s) == s
  {
    DropBlanks(pre, s);
  }

  lemma TrimRightBlank(s: string)
    requires s != [] && !IsSpace(s[|s| - 1])
    ensures TrimRight(s + " ") == s && TrimRight(s) == s
  {
    assert (s + " ")[..|s|] == s;
  }

  lemma {:induction false} TrimIndented(body: string)
    requires body != "" && Trimmed(body)
    ensures TrimSpace(" " + body) == body
  {
    TrimLeftBlanks(" ", body);
    TrimRightBlank(body);
  }

  // ---------------------------------------------------------------- prefixes and cuts

  function TrimPrefix(s: string, prefix: string): string {
    if prefix <= s then s[|prefix|..] else s
  }

  /** strings.Cut at the first occurrence of one character. */
  function Cut(s: string, c: char): (r: Option<(string, string)>)
    ensures r.None? ==> c !in s
    ensures r.Some? ==> c !in r.value.0 && s == r.value.0 + [c] + r.value.1
  {
    if s == [] then None
    else if s[0] == c then Some(([], s[1..]))
    else match Cut(s[1..], c)
      case None => None
      case Some((before, after)) => Some(([s[0]] + before, after))
  }

  lemma {:induction false} CutAt(before: string, c: char, after: string)
    requires c !in before
    ensures Cut(before + [c] + after, c) == Some((before, after))
  {
    var s := before + [c] + after;
    if before != [] {
      CutAt(before[1..], c, after);
      assert s[1..] == before[1..] + [c] + after;
      assert before == [before[0]] + before[1..];
    } else {
      assert s[1..] == after;
    }
  }

  /** Longest prefix of characters that satisfy `ok`, and what follows it. */
  function Span(s: string, ok: char -> bool): (r: (string, string))
    ensures s == r.0 + r.1 && (forall c :: c in r.0 ==> ok(c)) && (r.1 == [] || !ok(r.1[0]))
  {
    if s == [] || !ok(s[0]) then ([], s)
    else var (taken, rest) := Span(s[1..], ok); ([s[0]] + taken, rest)
  }

  lemma {:induction false} SpanStep(c: char, s: string, ok: char -> bool)
    requires ok(c)
    ensures Span([c] + s, ok) == ([c] + Span(s, ok).0, Span(s, ok).1)
  {
    assert ([c] + s)[1..] == s;
  }

  lemma {:induction false} SpanAt(a: string, b: string, ok: char -> bool)
    requires (forall c :: c in a ==> ok(c)) && (b == [] || !ok(b[0]))
    ensures Span(a + b, ok) == (a, b)
  {
    if a == [] {
      assert a + b == b;
    } else {
      var rest := a[1..];
      forall c | c in rest ensures ok(c) { assert c in a; }
      SpanAt(rest, b, ok);
      assert a[0] in a;
      SpanStep(a[0], rest + b, ok);
      assert [a[0]] + (rest + b) == a + b && [a[0]] + rest == a;
    }
  }

  /** strings.Contains. */
  predicate Contains(s: string, part: string) {
    part <= s || (s != [] && Contains(s[1..], part))
  }

  lemma {:induction false} TooShortToContain(s: string, part: string)
    requires |part| > |s|
    ensures !Contains(s, part)
  {
    if s != [] { TooShortToContain(s[1..], part); }
  }

  /** strings.ToLower, as far as ASCII results go: two other characters have an ASCII lower case. */
  function Lower(s: string): (r: string)
    ensures |r| == |s|
  {
    seq(|s|, i requires 0 <= i < |s| => LowerChar(s[i]))
  }

  function LowerChar(c: char): char {
    if 'A' <= c <= 'Z' then (c as int + 32) as char
    else if c as int == 0x212A then 'k' else if c as int == 0x130 then 'i' else c
  }

  // ---------------------------------------------------------------- order

  /** The order of Go strings, character by character. */
  predicate AtMost(a: string, b: string) {
    a == [] || (b != [] && (a[0] < b[0] || (a[0] == b[0] && AtMost(a[1..], b[1..]))))
  }

  lemma {:induction false} AtMostTotal(a: string, b: string)
    ensures AtMost(a, b) || AtMost(b, a)
    ensures AtMost(a, b) && AtMost(b, a) ==> a == b
  {
    if a != [] && b != [] {
      AtMostTotal(a[1..], b[1..]);
      assert a[1..] == b[1..] && a[0] == b[0] ==> [a[0]] + a[1..] == [b[0]] + b[1..];
    }
  }

  lemma {:induction false} AtMostTransitive(a: string, b: string, c: string)
    requires AtMost(a, b) && AtMost(b, c)
    ensures AtMost(a, c)
  {
    if a != [] && a[0] == b[0] && b[0] == c[0] { AtMostTransitive(a[1..], b[1..], c[1..]); }
  }

  // ---------------------------------------------------------------- lines

  /** strings.Split at one character; never empty. */
  function Split(s: string, sep: char): (r: seq<string>)
    ensures r != [] && forall line :: line in r ==> sep !in line
  {
    if s == [] then [[]]
    else
      var rest := Split(s[1..], sep);
      if s[0] == sep then [[]] + rest else [[s[0]] + rest[0]] + rest[1..]
  }

  /** strings.Join with one character. */
  function Join(lines: seq<string>, sep: char): string {
    if lines == [] then []
    else if |lines| == 1 then lines[0]
    else lines[0] + [sep] + Join(lines[1..], sep)
  }

  lemma {:induction false} SplitCons(line: string, sep: char, s: string)
    requires sep !in line
    ensures Split(line + [sep] + s, sep) == [line] + Split(s, sep)
  {
    var t := line + [sep] + s;
    if line == [] {
      assert t[1..] == s;
    } else {
      SplitCons(line[1..], sep, s);
      assert t[1..] == line[1..] + [sep] + s;
      assert line == [line[0]] + line[1..];
    }
  }

  lemma {:induction false} SplitOne(line: string, sep: char)
    requires sep !in line
    ensures Split(line, sep) == [line]
  {
    if line != [] {
      SplitOne(line[1..], sep);
      assert line == [line[0]] + line[1..];
    }
  }

  /** Joined lines split back into the same lines. */
  lemma {:induction false} SplitJoin(lines: seq<string>, sep: char)
    requires lines != [] && forall line :: line in lines ==> sep !in line
    ensures Split(Join(lines, sep), sep) == lines
  {
    if |lines| == 1 {
      SplitOne(lines[0], sep);
    } else {
      SplitJoin(lines[1..], sep);
      SplitCons(lines[0], sep, Join(lines[1..], sep));
    }
  }

  /** A character more in the first line is one more in front. */
  lemma {:induction false} JoinLonger(c: char, lines: seq<string>, sep: char)
    requires lines != []
    ensures Join([[c] + lines[0]] + lines[1..], sep) == [c] + Join(lines, sep)
  {
    var longer := [[c] + lines[0]] + lines[1..];
    assert longer[1..] == lines[1..];
    if |lines| > 1 {
      assert [c] + (lines[0] + [sep] + Join(lines[1..], sep)) == [c] + lines[0] + [sep] + Join(lines[1..], sep);
    }
  }

  /** Split lines join back into the same text. */
  lemma {:induction false} JoinSplit(s: string, sep: char)
    ensures Join(Split(s, sep), sep) == s
  {
    if s != [] {
      JoinSplit(s[1..], sep);
      var rest := Split(s[1..], sep);
      if s[0] == sep {
        assert ([[]] + rest)[1..] == rest;
      } else {
        JoinLonger(s[0], rest, sep);
        assert s == [s[0]] + s[1..];
      }
    }
  }

  lemma {:induction false} JoinAppend(a: seq<string>, b: seq<string>, sep: char)
    requires a != [] && b != []
    ensures Join(a + b, sep) == Join(a, sep) + [sep] + Join(b, sep)
  {
    assert (a + b)[0] == a[0];
    if |a| == 1 {
      assert (a + b)[1..] == b;
    } else {
      JoinAppend(a[1..], b, sep);
      assert (a + b)[1..] == a[1..] + b;
      assert a[0] + [sep] + (Join(a[1..], sep) + [sep] + Join(b, sep)) == a[0] + [sep] + Join(a[1..], sep) + [sep] + Join(b, sep);
    }
  }

  // ---------------------------------------------------------------- decimal numbers

  predicate IsDigit(c: char) { '0' <= c <= '9' }

  function Digit(n: nat): (c: char)
    requires n < 10
    ensures IsDigit(c) && DigitValue(c) == n
  {
    ('0' as int + n) as char
  }

  function DigitValue(c: char): nat
    requires IsDigit(c)
  {
    c as int - '0' as int
  }

  /** strconv.Itoa of a non-negative number. */
  function Itoa(n: nat): (s: string)
    ensures s != [] && forall c :: c in s ==> IsDigit(c)
  {
    if n < 10 then [Digit(n)] else Itoa(n / 10) + [Digit(n % 10)]
  }

  /** strconv.FormatInt in base 10. */
  function FormatInt(n: int): string {
    if n < 0 then "-" + Itoa(-n) else Itoa(n)
  }

  /** Value of a non-empty digit string. */
  function Atoi(s: string): nat
    requires forall c :: c in s ==> IsDigit(c)
  {
    if s == [] then 0 else 10 * Atoi(s[..|s| - 1]) + DigitValue(s[|s| - 1])
  }

  lemma {:induction false} AtoiItoa(n: nat)
    ensures Atoi(Itoa(n)) == n
  {
    if n >= 10 {
      AtoiItoa(n / 10);
      assert Itoa(n)[..|Itoa(n)| - 1] == Itoa(n / 10);
    } else {
      assert Itoa(n)[..0] == [];
    }
  }
}
