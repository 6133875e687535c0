/** Page cursors: direction, microseconds and id in base64url without padding, section 5 of RFC 4648
    (internal/manager/admin_monitoring_handlers.go). */
module Cursor {
  import opened Prelude
  import opened Text

  // ---------------------------------------------------------------- base64url

  function Char64(v: nat): (c: char)
    requires v < 64
    ensures Value64(c) == Some(v)
  {
    if v < 26 then ('A' as int + v) as char
    else if v < 52 then ('a' as int + v - 26) as char
    else if v < 62 then ('0' as int + v - 52) as char
    else if v == 62 then '-' else '_'
  }

  function Value64(c: char): (v: Option<nat>)
    ensures v.Some? ==> v.value < 64
  {
    if 'A' <= c <= 'Z' then Some(c as int - 'A' as int)
    else if 'a' <= c <= 'z' then Some(c as int - 'a' as int + 26)
    else if '0' <= c <= '9' then Some(c as int - '0' as int + 52)
    else if c == '-' then Some(62) else if c == '_' then Some(63) else None
  }

  /** One byte per character. */
  predicate Bytes(s: string) { forall i :: 0 <= i < |s| ==> s[i] as int < 256 }

  predicate Below64(v: seq<nat>) { forall i :: 0 <= i < |v| ==> v[i] < 64 }

  /** The 24 bits of three bytes, in four groups of six. */
  function Group(a: nat, b: nat, c: nat): (v: seq<nat>)
    requires a < 256 && b < 256 && c < 256
    ensures |v| == 4 && Below64(v)
    ensures Ungroup(v[0], v[1], v[2], v[3]) == [a as char, b as char, c as char]
  {
    SameBits(a, b, c);
    [a / 4, a % 4 * 16 + b / 16, b % 16 * 4 + c / 64, c % 64]
  }

  lemma {:induction false} SameBits(a: nat, b: nat, c: nat)
    requires a < 256 && b < 256 && c < 256
    ensures var w, x, y, z := a / 4, a % 4 * 16 + b / 16, b % 16 * 4 + c / 64, c % 64;
            && w < 64 && x < 64 && y < 64 && z < 64
            && w * 4 + x / 16 == a && x % 16 * 16 + y / 4 == b && y % 4 * 64 + z == c
  {
    var x, y := a % 4 * 16 + b / 16, b % 16 * 4 + c / 64;
    assert x / 16 == a % 4 && x % 16 == b / 16;
    assert y / 4 == b % 16 && y % 4 == c / 64;
  }

  function Ungroup(w: nat, x: nat, y: nat, z: nat): (s: string)
    requires w < 64 && x < 64 && y < 64 && z < 64
    ensures |s| == 3
  {
    [(w * 4 + x / 16) as char, (x % 16 * 16 + y / 4) as char, (y % 4 * 64 + z) as char]
  }

  /** Sextets of a text; a last group of one or two bytes is filled with zero bits and cut short. */
  function Sextets(s: string): (v: seq<nat>)
    requires Bytes(s)
    ensures Below64(v)
  {
    if s == [] then []
    else if |s| == 1 then Group(s[0] as int, 0, 0)[..2]
    else if |s| == 2 then Group(s[0] as int, s[1] as int, 0)[..3]
    else Group(s[0] as int, s[1] as int, s[2] as int) + Sextets(s[3..])
  }

  function Chars(v: seq<nat>): string
    requires Below64(v)
  {
    seq(|v|, i requires 0 <= i < |v| => Char64(v[i]))
  }

  /** base64.RawURLEncoding.EncodeToString. */
  function Encode(s: string): string
    requires Bytes(s)
  {
    Chars(Sextets(s))
  }

  predicate Alphabet(t: string) { forall i :: 0 <= i < |t| ==> Value64(t[i]).Some? }

  function Values(t: string): (v: seq<nat>)
    requires Alphabet(t)
    ensures Below64(v)
  {
    seq(|t|, i requires 0 <= i < |t| => Value64(t[i]).value)
  }

  /** Trailing bits of a short last group are not looked at; a single left-over character is an error. */
  function DecodeValues(v: seq<nat>): Option<string>
    requires Below64(v)
  {
    if v == [] then Some([])
    else if |v| == 1 then None
    else if |v| == 2 then Some(Ungroup(v[0], v[1], 0, 0)[..1])
    else if |v| == 3 then Some(Ungroup(v[0], v[1], v[2], 0)[..2])
    else match DecodeValues(v[4..])
      case None => None
      case Some(rest) => Some(Ungroup(v[0], v[1], v[2], v[3]) + rest)
  }

  /** base64.RawURLEncoding.DecodeString, which skips line breaks. */
  function Decode(t: string): Option<string> {
    var u := WithoutBreaks(t);
    if Alphabet(u) then DecodeValues(Values(u)) else None
  }

  function WithoutBreaks(t: string): string {
    if t == [] then []
    else if t[0] == '\r' || t[0] == '\n' then WithoutBreaks(t[1..])
    else [t[0]] + WithoutBreaks(t[1..])
  }

  /** A line break anywhere does not change what is decoded. */
  lemma {:induction false} BreakSkipped(a: string, b: string, c: char)
    requires c == '\r' || c == '\n'
    ensures WithoutBreaks(a + ([c] + b)) == WithoutBreaks(a + b) && Decode(a + ([c] + b)) == Decode(a + b)
  {
    if a == [] {
      assert a + ([c] + b) == [c] + b && a + b == b;
      assert ([c] + b)[1..] == b;
    } else {
      BreakSkipped(a[1..], b, c);
      assert (a + ([c] + b))[1..] == a[1..] + ([c] + b) && (a + b)[1..] == a[1..] + b;
    }
  }

  lemma {:induction false} NoBreaks(t: string)
    requires Alphabet(t)
    ensures WithoutBreaks(t) == t
  {
    if t != [] { NoBreaks(t[1..]); }
  }

  lemma ValuesChars(v: seq<nat>)
    requires Below64(v)
    ensures Alphabet(Chars(v)) && Values(Chars(v)) == v
  {
  }

  lemma {:induction false} SextetsDecode(s: string)
    requires Bytes(s)
    ensures DecodeValues(Sextets(s)) == Some(s)
  {
    if |s| >= 3 {
      var front := Group(s[0] as int, s[1] as int, s[2] as int);
      SextetsDecode(s[3..]);
      assert Sextets(s)[4..] == Sextets(s[3..]);
      assert s == [s[0], s[1], s[2]] + s[3..];
    } else if |s| == 2 {
      ShortGroup(s[0] as int, s[1] as int);
      assert s == [s[0], s[1]];
    } else if |s| == 1 {
      ShortGroup(s[0] as int, 0);
      assert s == [s[0]];
    }
  }

  lemma ShortGroup(a: nat, b: nat)
    requires a < 256 && b < 256
    ensures var v := Group(a, b, 0);
            v[3] == 0 && Ungroup(v[0], v[1], v[2], 0)[..2] == [a as char, b as char]
            && (b == 0 ==> Ungroup(v[0], v[1], 0, 0)[..1] == [a as char])
  {
  }

  lemma EncodeDecode(s: string)
    requires Bytes(s)
    ensures Decode(Encode(s)) == Some(s)
  {
    ValuesChars(Sextets(s));
    NoBreaks(Encode(s));
    SextetsDecode(s);
  }

  // ---------------------------------------------------------------- 64-bit numbers

  const MaxInt64: int := 0x7fff_ffff_ffff_ffff
  const MaxUint64: int := 0xffff_ffff_ffff_ffff

  predicate Digits(s: string) { s != [] && forall c :: c in s ==> IsDigit(c) }

  /** strconv.ParseInt in base 10 for 64 bits. */
  function ParseInt(s: string): Option<int> {
    var signed := s != [] && (s[0] == '-' || s[0] == '+');
    var digits := if signed then s[1..] else s;
    if !Digits(digits) then None
    else
      var n: int := Atoi(digits);
      if signed && s[0] == '-' then (if n <= MaxInt64 + 1 then Some(-n) else None)
      else if n <= MaxInt64 then Some(n) else None
  }

  /** strconv.ParseUint in base 10 for 64 bits. */
  function ParseUint(s: string): Option<nat> {
    if !Digits(s) then None
    else if Atoi(s) <= MaxUint64 then Some(Atoi(s)) else None
  }

  lemma DigitsAreBytes(s: string)
    requires forall c :: c in s ==> IsDigit(c)
    ensures Bytes(s)
  {
    forall i | 0 <= i < |s| ensures s[i] as int < 256 { assert s[i] in s; }
  }

  lemma ParsePositive(n: nat)
    requires n <= MaxInt64
    ensures ParseInt(Itoa(n)) == Some(n)
  {
    AtoiItoa(n);
    assert Itoa(n)[0] in Itoa(n);
  }

  lemma ParseNegative(n: int)
    requires 0 <= n <= MaxInt64 + 1
    ensures ParseInt("-" + Itoa(n)) == Some(-n)
  {
    AtoiItoa(n);
    assert ("-" + Itoa(n))[1..] == Itoa(n);
  }

  /** A number is read with a minus sign, with a plus sign and without sign, exactly when 64 bits hold it. */
  lemma {:induction false} ParseInRange(n: int)
    requires n >= 0
    ensures ParseInt(['-'] + Itoa(n)) == if n <= 0x8000_0000_0000_0000 then Some(-n) else None
    ensures ParseInt(['+'] + Itoa(n)) == if n <= 0x7fff_ffff_ffff_ffff then Some(n) else None
    ensures ParseInt(Itoa(n)) == if n <= 0x7fff_ffff_ffff_ffff then Some(n) else None
  {
    AtoiItoa(n);
    ParseSigned('-', Itoa(n), n);
    ParseSigned('+', Itoa(n), n);
    assert Itoa(n)[0] in Itoa(n);
  }

  lemma {:induction false} ParseSigned(sign: char, digits: string, n: int)
    requires (sign == '-' || sign == '+') && Digits(digits) && Atoi(digits) == n
    ensures ParseInt([sign] + digits)
         == if sign == '-' then (if n <= MaxInt64 + 1 then Some(-n) else None) else if n <= MaxInt64 then Some(n) else None
  {
    assert ([sign] + digits)[1..] == digits;
  }

  lemma ParseFormatInt(n: int)
    requires -MaxInt64 - 1 <= n <= MaxInt64
    ensures ParseInt(FormatInt(n)) == Some(n)
    ensures '.' !in FormatInt(n) && Bytes(FormatInt(n))
  {
    var m := if n < 0 then -n else n;
    if n < 0 { ParseNegative(m); } else { ParsePositive(m); }
    DigitsAreBytes(Itoa(m));
    BytesConcat("-", Itoa(m));
  }

  lemma ParseFormatUint(n: nat)
    requires n <= MaxUint64
    ensures ParseUint(Itoa(n)) == Some(n)
    ensures '.' !in Itoa(n) && Bytes(Itoa(n))
  {
    AtoiItoa(n);
    DigitsAreBytes(Itoa(n));
  }

  // ---------------------------------------------------------------- cursors

  const Before := "before"
  const After := "after"
  /** Microseconds of Go's zero time. */
  const ZeroTime: int := -62135596800000000

  datatype Position = Position(direction: string, at: int, id: nat)

  predicate Direction(direction: string) { direction == Before || direction == After }

  predicate InRange(p: Position) {
    -MaxInt64 - 1 <= p.at <= MaxInt64 && p.id <= MaxUint64
  }

  function Raw(p: Position): string { p.direction + ['.'] + (FormatInt(p.at) + ['.'] + Itoa(p.id)) }

  lemma RawParts(p: Position)
    requires Direction(p.direction) && InRange(p)
    ensures Bytes(Raw(p)) && Split(Raw(p), '.') == [p.direction, FormatInt(p.at), Itoa(p.id)]
  {
    ParseFormatInt(p.at);
    ParseFormatUint(p.id);
    SplitCons(p.direction, '.', FormatInt(p.at) + ['.'] + Itoa(p.id));
    SplitCons(FormatInt(p.at), '.', Itoa(p.id));
    SplitOne(Itoa(p.id), '.');
    BytesConcat(FormatInt(p.at) + ['.'], Itoa(p.id));
    BytesConcat(p.direction + ['.'], FormatInt(p.at) + ['.'] + Itoa(p.id));
  }

  lemma BytesConcat(a: string, b: string)
    requires Bytes(a) && Bytes(b)
    ensures Bytes(a + b)
  {
  }

  function EncodeCursor(p: Position): string
    requires InRange(p)
  {
    if p.id == 0 || p.at == ZeroTime || !Direction(p.direction) then ""
    else RawParts(p); Encode(Raw(p))
  }

  function DecodeCursor(value: string): (r: Option<Position>)
    ensures r.Some? ==> InRange(r.value) && Direction(r.value.direction) && r.value.at > 0 && r.value.id > 0
  {
    match Decode(TrimSpace(value))
    case None => None
    case Some(raw) => FromParts(Split(raw, '.'))
  }

  function FromParts(parts: seq<string>): (r: Option<Position>)
    ensures r.Some? ==> InRange(r.value) && Direction(r.value.direction) && r.value.at > 0 && r.value.id > 0
  {
    if |parts| != 3 || !Direction(parts[0]) then None
    else match (ParseInt(parts[1]), ParseUint(parts[2]))
      case (Some(at), Some(id)) => if at <= 0 || id == 0 then None else Some(Position(parts[0], at, id))
      case _ => None
  }

  lemma Value64NotSpace(c: char)
    requires Value64(c).Some?
    ensures !IsSpace(c)
  {
  }

  lemma EncodedTrimmed(t: string)
    requires Alphabet(t)
    ensures TrimSpace(t) == t
  {
    if t != [] {
      Value64NotSpace(t[0]);
      Value64NotSpace(t[|t| - 1]);
    }
    assert Trimmed(t);
  }

  lemma PartsOfRaw(p: Position)
    requires Direction(p.direction) && InRange(p)
    ensures FromParts([p.direction, FormatInt(p.at), Itoa(p.id)]) == if p.id > 0 && p.at > 0 then Some(p) else None
  {
    ParseFormatInt(p.at);
    ParseFormatUint(p.id);
  }

  /** A cursor decodes to the position it was made from exactly for positive times; every other cursor the
      encoder hands out is refused. */
  lemma CursorRoundTrip(p: Position)
    requires InRange(p)
    ensures DecodeCursor(EncodeCursor(p)) == if p.id > 0 && p.at > 0 && (p.direction == "before" || p.direction == "after") then Some(p) else None
  {
    if p.id == 0 || p.at == ZeroTime || !Direction(p.direction) {
      assert Decode("") == Some("");
    } else {
      RawParts(p);
      ValuesChars(Sextets(Raw(p)));
      EncodedTrimmed(Encode(Raw(p)));
      EncodeDecode(Raw(p));
      PartsOfRaw(p);
    }
  }
}
