/** When a rewritten source lock reads back as the new lock, for texts of either form
    (cmd/mwaf-crs-updater/main.go). */
module SourceLockTexts {
  import opened Prelude
  import opened Text
  import opened LockFormat
  import opened SourceLock

  // ---------------------------------------------------------------- which texts are in list form

  lemma {:induction false} ContainsLeft(s: string, t: string, part: string)
    requires Contains(s, part)
    ensures Contains(s + t, part)
  {
    if !(part <= s) {
      ContainsLeft(s[1..], t, part);
      assert (s + t)[1..] == s[1..] + t;
    }
  }

  lemma {:induction false} ContainsRight(s: string, t: string, part: string)
    requires Contains(t, part)
    ensures Contains(s + t, part)
  {
    if s == [] {
      assert s + t == t;
    } else {
      ContainsRight(s[1..], t, part);
      assert (s + t)[1..] == s[1..] + t;
    }
  }

  /** A part without a line break does not cross one. */
  lemma {:induction false} ContainsAround(s: string, t: string, part: string)
    requires part != "" && '\n' !in part
    ensures Contains(s + ['\n'] + t, part) <==> Contains(s, part) || Contains(t, part)
  {
    var whole := s + ['\n'] + t;
    if Contains(s, part) {
      ContainsLeft(s, ['\n'] + t, part);
      assert whole == s + (['\n'] + t);
    } else if Contains(t, part) {
      ContainsRight(s + ['\n'], t, part);
    } else if s == [] {
      assert whole[1..] == t && whole[0] == '\n' && part[0] in part;
    } else {
      ContainsAround(s[1..], t, part);
      assert whole[1..] == s[1..] + ['\n'] + t;
      if |part| <= |s| {
        assert whole[..|part|] == s[..|part|];
      } else {
        assert whole[|s|] == '\n' && part[|s|] in part;
      }
    }
  }

  ghost predicate SomeLine(lines: seq<string>, part: string) {
    exists i: nat :: i < |lines| && Contains(lines[i], part)
  }

  lemma {:induction false} JoinContains(lines: seq<string>, part: string)
    requires lines != [] && part != "" && '\n' !in part
    ensures Contains(Join(lines, '\n'), part) <==> SomeLine(lines, part)
  {
    if |lines| > 1 {
      var rest := lines[1..];
      JoinContains(rest, part);
      ContainsAround(lines[0], Join(rest, '\n'), part);
      if SomeLine(rest, part) {
        var i: nat :| i < |rest| && Contains(rest[i], part);
        assert Contains(lines[i + 1], part);
      }
      if SomeLine(lines, part) {
        var i: nat :| i < |lines| && Contains(lines[i], part);
        assert i > 0 ==> Contains(rest[i - 1], part);
      }
    } else {
      assert Contains(lines[0], part) ==> SomeLine(lines, part);
    }
  }

  /** A text is in list form exactly when one of its lines holds the mark. */
  lemma ListFormByLine(lines: seq<string>)
    requires lines != []
    ensures ListForm(TextOf(lines)) <==> SomeLine(lines, ListMark)
    ensures ListForm(Join(lines, '\n')) <==> SomeLine(lines, ListMark)
  {
    JoinContains(lines, ListMark);
    ContainsAround(Join(lines, '\n'), "", ListMark);
    assert TextOf(lines) == Join(lines, '\n') + ['\n'] + "";
  }

  // ---------------------------------------------------------------- texts that are not in list form

  /** All entries under "crs:", whatever their block. */
  function Entries(f: Format, lines: seq<string>, p: Place): seq<string> {
    if lines == [] || p.Ended? then []
    else
      var rest := Entries(f, lines[1..], Step(p, f.kind(lines[0]), "", true));
      if f.kind(lines[0]).Entry? && Inside(p) then [lines[0]] + rest else rest
  }

  /** Without the list form, the stable channel takes every entry and any other channel none. */
  lemma {:induction false} TakenUnlisted(f: Format, lines: seq<string>, p: Place, q: Place, channel: string)
    requires Alike(p, q)
    ensures Taken(f, lines, p, channel, false) == if channel == "stable" then Entries(f, lines, q) else []
    decreases |lines|
  {
    if lines != [] && !p.Ended? {
      TakenUnlisted(f, lines[1..], Step(p, f.kind(lines[0]), channel, false), Step(q, f.kind(lines[0]), "", true), channel);
    }
  }

  /** Value of the last entry under a key. */
  function LastFor(f: Format, entries: seq<string>, key: Key): Option<string> {
    if entries == [] then None
    else match LastFor(f, entries[1..], key)
      case Some(value) => Some(value)
      case None => ValueUnder(f, entries[0], key)
  }

  function ValueUnder(f: Format, line: string, key: Key): Option<string> {
    match f.entry(line)
    case None => None
    case Some((k, value)) => if k == key then Some(value) else None
  }

  /** What a lock holds under a key whose last value is the given one. */
  function Said(key: Key, value: Option<string>): Stored {
    var said := Content(match value case None => Blank("") case Some(v) => Assign(Blank(""), key, v), key);
    if key.Repository? && said == Stored.Text("") then Stored.Text(DefaultRepository) else said
  }

  lemma AssignSays(f: Format, into: Lock, line: string, key: Key)
    ensures AssignLine(f, into, line).channel == into.channel
    ensures Content(AssignLine(f, into, line), key)
         == match ValueUnder(f, line, key) case None => Content(into, key) case Some(v) => Content(Assign(Blank(""), key, v), key)
  {
  }

  lemma {:induction false} AssignAllSays(f: Format, into: Lock, lines: seq<string>, key: Key)
    ensures AssignAll(f, into, lines).channel == into.channel
    ensures Content(AssignAll(f, into, lines), key)
         == match LastFor(f, lines, key) case None => Content(into, key) case Some(v) => Content(Assign(Blank(""), key, v), key)
    decreases |lines|
  {
    if lines != [] {
      AssignSays(f, into, lines[0], key);
      AssignAllSays(f, AssignLine(f, into, lines[0]), lines[1..], key);
    }
  }

  /** A lock that passes every check as it stands. */
  predicate Complete(lock: Lock) { Checked(lock, false) == Ok(lock) }

  function Filled(lock: Lock): Lock { if lock.repository == "" then lock.(repository := DefaultRepository) else lock }

  lemma CheckedIs(lock: Lock, legacy: bool, x: Lock)
    requires Complete(x)
    ensures Checked(lock, legacy) == Ok(x) <==> Filled(lock) == x
  {
    if Filled(lock) == x {
      assert x.repository != "";
    }
  }

  lemma FilledSays(f: Format, lines: seq<string>, channel: string, x: Lock)
    requires x.channel == channel
    ensures Filled(AssignAll(f, Blank(channel), lines)) == x <==> forall key :: Said(key, LastFor(f, lines, key)) == Content(x, key)
  {
    var full := Filled(AssignAll(f, Blank(channel), lines));
    forall key ensures Content(full, key) == Said(key, LastFor(f, lines, key)) && full.channel == channel {
      AssignAllSays(f, Blank(channel), lines, key);
    }
    if forall key :: Said(key, LastFor(f, lines, key)) == Content(x, key) {
      assert full.channel == channel by { AssignAllSays(f, Blank(channel), lines, Line); }
      SameLock(full, x);
    }
  }

  /** Without the list form, a lock is read exactly when the channel is the stable one and, for each key, the last
      entry of all says what the lock holds. */
  lemma ReadsUnlisted(f: Format, lines: seq<string>, channel: string, x: Lock)
    requires Complete(x) && x.channel == channel && !TooLong(f, lines, Outside, channel, false)
    ensures ReadLock(f, lines, channel, false) == Ok(x)
       <==> channel == "stable" && forall key :: Said(key, LastFor(f, Entries(f, lines, Outside), key)) == Content(x, key)
  {
    var taken := Taken(f, lines, Outside, channel, false);
    TakenUnlisted(f, lines, Outside, Outside, channel);
    CheckedIs(AssignAll(f, Blank(channel), taken), AnyEntry(f, lines, Outside, channel, false), x);
    if channel == "stable" {
      FilledSays(f, taken, channel, x);
    } else {
      assert x.version != "" && Filled(Blank(channel)).version == "";
    }
  }

  /** Without the list form, no other channel can be read. */
  lemma OnlyStable(f: Format, lines: seq<string>, channel: string)
    requires channel != "stable"
    ensures ReadLock(f, lines, channel, false).Err?
  {
    TakenUnlisted(f, lines, Outside, Outside, channel);
  }

  // ---------------------------------------------------------------- the last entry under a key

  /** The i-th line is an entry under the key, in whatever block. */
  predicate UnderAt(f: Format, lines: seq<string>, p: Place, i: nat, key: Key)
    requires i < |lines|
  {
    f.kind(lines[i]).Entry? && Inside(PlaceAt(f, lines, p, i, "")) && ValueUnder(f, lines[i], key).Some?
  }

  /** Index of the last such line among the first n. */
  function LastUnder(f: Format, lines: seq<string>, n: nat, key: Key): (r: Option<nat>)
    requires n <= |lines|
    ensures match r
            case Some(i) => i < n && UnderAt(f, lines, Outside, i, key) && forall j :: i < j < n ==> !UnderAt(f, lines, Outside, j, key)
            case None => forall j :: 0 <= j < n ==> !UnderAt(f, lines, Outside, j, key)
  {
    if n == 0 then None
    else if UnderAt(f, lines, Outside, n - 1, key) then Some(n - 1)
    else LastUnder(f, lines, n - 1, key)
  }

  /** Value that the last such line has once the lines are rewritten. */
  function FinalValue(f: Format, lines: seq<string>, lock: Lock, key: Key): Option<string> {
    match LastUnder(f, lines, |lines|, key)
    case None => None
    case Some(i) =>
      if EntryAt(f, lines, Outside, i, lock.channel) && Rewritable(key) then Some(Value(lock, key)) else ValueUnder(f, lines[i], key)
  }

  lemma UnderTail(f: Format, lines: seq<string>, p: Place, i: nat, key: Key)
    requires i + 1 < |lines|
    ensures UnderAt(f, lines[1..], Step(p, f.kind(lines[0]), "", true), i, key) <==> UnderAt(f, lines, p, i + 1, key)
  {
    PlaceAtTail(f, lines, p, i, "");
  }

  /** The reader's last value under a key is on the last line under that key. */
  lemma {:induction false} LastForAt(f: Format, lines: seq<string>, p: Place, i: nat, key: Key)
    requires i < |lines| ==> UnderAt(f, lines, p, i, key)
    requires forall j :: 0 <= j < |lines| && UnderAt(f, lines, p, j, key) ==> j <= i < |lines|
    ensures LastFor(f, Entries(f, lines, p), key) == if i < |lines| then ValueUnder(f, lines[i], key) else None
    decreases |lines|
  {
    if lines == [] {
    } else if p.Ended? {
      if i < |lines| { EndedStays(f, lines, p, 0, i, ""); }
    } else {
      var next := Step(p, f.kind(lines[0]), "", true);
      forall j: nat | j < |lines[1..]| && UnderAt(f, lines[1..], next, j, key) ensures j + 1 <= i < |lines| {
        UnderTail(f, lines, p, j, key);
      }
      if 0 < i < |lines| { UnderTail(f, lines, p, i - 1, key); }
      assert i > 0 ==> i >= |lines| || lines[1..][i - 1] == lines[i];
      assert UnderAt(f, lines, p, 0, key) ==> i < |lines|;
      LastForAt(f, lines[1..], next, if i > 0 then i - 1 else |lines|, key);
      LastForCons(f, lines[0], Entries(f, lines[1..], next), key);
    }
  }

  lemma LastForCons(f: Format, line: string, rest: seq<string>, key: Key)
    ensures LastFor(f, [line] + rest, key) == match LastFor(f, rest, key) case Some(v) => Some(v) case None => ValueUnder(f, line, key)
  {
    assert ([line] + rest)[1..] == rest;
  }

  lemma {:induction false} SamePlaces(f: Format, a: seq<string>, b: seq<string>, i: nat, channel: string)
    requires SameKinds(f, a, b) && i <= |a|
    ensures PlaceAt(f, a, Outside, i, channel) == PlaceAt(f, b, Outside, i, channel)
  {
    if i > 0 { SamePlaces(f, a, b, i - 1, channel); }
  }

  /** A rewritten entry is under the same key. */
  lemma RewrittenUnder(f: Format, lines: seq<string>, lock: Lock, i: nat, key: Key)
    requires Faithful(f, lock) && i < |lines|
    ensures UnderAt(f, Rewritten(f, lines, lock), Outside, i, key) <==> UnderAt(f, lines, Outside, i, key)
    ensures UnderAt(f, lines, Outside, i, key) && EntryAt(f, lines, Outside, i, lock.channel) && Rewritable(key) ==>
              ValueUnder(f, NewLineAt(f, lines, i, lock), key) == Some(Value(lock, key))
    ensures UnderAt(f, lines, Outside, i, key) && !(EntryAt(f, lines, Outside, i, lock.channel) && Rewritable(key)) ==>
              ValueUnder(f, NewLineAt(f, lines, i, lock), key) == ValueUnder(f, lines[i], key)
  {
    RewrittenKinds(f, lines, lock);
    SamePlaces(f, lines, Rewritten(f, lines, lock), i, "");
  }

  /** The last value under each key after a rewrite, from the lines before it. */
  lemma FinalValueIs(f: Format, lines: seq<string>, lock: Lock, key: Key)
    requires Faithful(f, lock)
    ensures LastFor(f, Entries(f, Rewritten(f, lines, lock), Outside), key) == FinalValue(f, lines, lock, key)
  {
    var after := Rewritten(f, lines, lock);
    forall j: nat | j < |lines| ensures UnderAt(f, after, Outside, j, key) <==> UnderAt(f, lines, Outside, j, key) {
      RewrittenUnder(f, lines, lock, j, key);
    }
    match LastUnder(f, lines, |lines|, key) {
      case None => LastForAt(f, after, Outside, |lines|, key);
      case Some(i) =>
        LastForAt(f, after, Outside, i, key);
        RewrittenUnder(f, lines, lock, i, key);
    }
  }

  // ---------------------------------------------------------------- the exact conditions

  /** Under each key, the last line of all, once rewritten, says what the lock holds. */
  ghost predicate Settles(f: Format, lines: seq<string>, lock: Lock, want: Lock) {
    forall key :: Said(key, FinalValue(f, lines, lock, key)) == Content(want, key)
  }

  lemma UnlistedAfter(f: Format, lines: seq<string>, lock: Lock, channel: string, want: Lock)
    requires Faithful(f, lock) && Complete(want) && want.channel == channel
    requires !TooLong(f, Rewritten(f, lines, lock), Outside, channel, false)
    ensures ReadLock(f, Rewritten(f, lines, lock), channel, false) == Ok(want) <==> channel == "stable" && Settles(f, lines, lock, want)
  {
    var after := Rewritten(f, lines, lock);
    ReadsUnlisted(f, after, channel, want);
    forall key ensures LastFor(f, Entries(f, after, Outside), key) == FinalValue(f, lines, lock, key) {
      FinalValueIs(f, lines, lock, key);
    }
  }

  /** The rewrite keeps the lines short enough for the scan of any channel, in either form. */
  lemma NeverTooLong(f: Format, lines: seq<string>, lock: Lock, channel: string, listForm: bool, other: string, listed: bool)
    requires Faithful(f, lock) && Writable(f, lock) && !TooLong(f, lines, Outside, channel, listForm)
    ensures !TooLong(f, Rewritten(f, lines, lock), Outside, other, listed)
  {
    var after := Rewritten(f, lines, lock);
    RewrittenKinds(f, lines, lock);
    LengthsForAll(f, lines, Outside, Outside, channel, other, listForm, true);
    StillShort(f, lines, after, Outside, other);
    LengthsForAll(f, after, Outside, Outside, other, other, true, listed);
  }

  /** The new text gives the new lock, with the line read before, under exactly this condition: in list form, the
      line stands in the channel's block; otherwise the channel is the stable one and no later entry of another
      block says anything else. */
  lemma ReadsBack(f: Format, raw: string, lock: Lock, was: Lock, text: string)
    requires Faithful(f, lock) && Writable(f, lock) && '\r' !in raw && Complete(lock.(line := was.line))
    requires ReadText(f, raw, lock.channel) == Ok(was) && RewriteText(f, raw, lock) == Ok(text)
    ensures ReadText(f, text, lock.channel) == Ok(lock.(line := was.line))
       <==> if ListForm(text) then LineIn(f, LinesOf(raw), lock.channel) == was.line
            else lock.channel == "stable" && Settles(f, LinesOf(raw), lock, lock.(line := was.line))
    ensures ListForm(raw) ==> LineIn(f, LinesOf(raw), lock.channel) == was.line
    ensures ListForm(text) <==> SomeLine(Rewritten(f, LinesOf(raw), lock), ListMark)
  {
    var lines, channel, want := LinesOf(raw), lock.channel, lock.(line := was.line);
    var after := Rewritten(f, lines, lock);
    NotEmpty(f, raw, channel);
    SameCut(f, raw, lock);
    ListFormByLine(after);
    NeverTooLong(f, lines, lock, channel, ListForm(raw), channel, ListForm(text));
    if ListForm(text) {
      RewrittenBlock(f, lines, lock);
      CheckedIs(lock.(line := LineIn(f, lines, channel)), false, want);
    } else {
      UnlistedAfter(f, lines, lock, channel, want);
    }
  }

  /** Without the list form before and after, the condition is about the rewritten keys alone: the last line of all
      under each lies in the channel's block or already says the new value. */
  lemma {:induction false} SettlesIs(f: Format, raw: string, lock: Lock, was: Lock)
    requires '\r' !in raw && !ListForm(raw) && lock.repository != ""
    requires ReadText(f, raw, lock.channel) == Ok(was) && AllKeys <= Seen(f, LinesOf(raw), |LinesOf(raw)|, lock.channel)
    ensures Settles(f, LinesOf(raw), lock, lock.(line := was.line)) <==>
              forall key :: Rewritable(key) ==> LastAgrees(f, LinesOf(raw), lock, key)
  {
    var lines := LinesOf(raw);
    NotEmpty(f, raw, lock.channel);
    ScanIsSplit(raw);
    LineSettles(f, lines, lock, was);
    forall key | Rewritable(key) ensures Said(key, FinalValue(f, lines, lock, key)) == Content(lock, key) <==> LastAgrees(f, lines, lock, key) {
      KeySettles(f, lines, lock, key);
    }
  }

  lemma {:induction false} KeySettles(f: Format, lines: seq<string>, lock: Lock, key: Key)
    requires Rewritable(key) && lock.repository != "" && AllKeys <= Seen(f, lines, |lines|, lock.channel)
    ensures Said(key, FinalValue(f, lines, lock, key)) == Content(lock, key) <==> LastAgrees(f, lines, lock, key)
  {
    NewValueSaid(lock, key);
    assert key in AllKeys;
    if LastUnder(f, lines, |lines|, key).None? {
      NoneUnseen(f, lines, |lines|, lock.channel, key);
    }
  }

  predicate LastAgrees(f: Format, lines: seq<string>, lock: Lock, key: Key) {
    match LastUnder(f, lines, |lines|, key)
    case None => false
    case Some(i) => EntryAt(f, lines, Outside, i, lock.channel) || Said(key, ValueUnder(f, lines[i], key)) == Content(lock, key)
  }

  lemma NewValueSaid(lock: Lock, key: Key)
    requires lock.repository != ""
    ensures Said(key, Some(Value(lock, key))) == Content(lock, key)
  {
    AssignValue(Blank(""), lock, key, key);
  }

  /** A key without any line was not found by the rewrite. */
  lemma {:induction false} NoneUnseen(f: Format, lines: seq<string>, n: nat, channel: string, key: Key)
    requires n <= |lines| && forall j :: 0 <= j < n ==> !UnderAt(f, lines, Outside, j, key)
    ensures key !in Seen(f, lines, n, channel)
  {
    if n > 0 {
      NoneUnseen(f, lines, n - 1, channel, key);
      InsideBoth(f, lines, n - 1, channel);
      assert !UnderAt(f, lines, Outside, n - 1, key);
      assert EntryAt(f, lines, Outside, n - 1, channel) ==> key !in KeyOn(f, lines[n - 1]);
    }
  }

  lemma {:induction false} InsideBoth(f: Format, lines: seq<string>, i: nat, channel: string)
    requires i <= |lines|
    ensures Alike(PlaceAt(f, lines, Outside, i, channel), PlaceAt(f, lines, Outside, i, ""))
  {
    if i > 0 { InsideBoth(f, lines, i - 1, channel); }
  }

  /** The line read before is the last one of all, which no rewrite changes. */
  lemma LineSettles(f: Format, lines: seq<string>, lock: Lock, was: Lock)
    requires ReadLock(f, lines, lock.channel, false) == Ok(was)
    ensures Said(Line, FinalValue(f, lines, lock, Line)) == Stored.Text(was.line)
  {
    var last := LastUnder(f, lines, |lines|, Line);
    TakenUnlisted(f, lines, Outside, Outside, lock.channel);
    if lock.channel != "stable" { OnlyStable(f, lines, lock.channel); }
    AssignAllSays(f, Blank(lock.channel), Entries(f, lines, Outside), Line);
    LastForAt(f, lines, Outside, if last.Some? then last.value else |lines|, Line);
  }

  /** Any other channel that could be read is read as before exactly when the text stays in list form, or the channel
      is the stable one and the last entries of all say what it said. */
  lemma OtherReadsBack(f: Format, raw: string, lock: Lock, was: Lock, text: string, other: string, x: Lock)
    requires Faithful(f, lock) && Writable(f, lock) && '\r' !in raw && other != lock.channel
    requires ReadText(f, raw, lock.channel) == Ok(was) && RewriteText(f, raw, lock) == Ok(text) && ReadText(f, raw, other) == Ok(x)
    ensures ReadText(f, text, other) == Ok(x) <==> ListForm(text) || (other == "stable" && Settles(f, LinesOf(raw), lock, x))
  {
    var lines := LinesOf(raw);
    NotEmpty(f, raw, lock.channel);
    SameCut(f, raw, lock);
    if !ListForm(raw) {
      OnlyStable(f, lines, if other == "stable" then lock.channel else other);
      assert false;
    }
    AssignAllSays(f, Blank(other), Taken(f, lines, Outside, other, true), Line);
    NeverTooLong(f, lines, lock, other, true, other, ListForm(text));
    if ListForm(text) {
      OtherChannelsKept(f, lines, lock, was, other);
    } else {
      UnlistedAfter(f, lines, lock, other, x);
    }
  }

  /** Both conditions for the file format of the program. */
  lemma RoundTripExactly(raw: string, lock: Lock, was: Lock, text: string, other: string, x: Lock)
    requires Storable(lock) && '\r' !in raw && Complete(lock.(line := was.line))
    requires ReadText(Yaml, raw, lock.channel) == Ok(was) && RewriteText(Yaml, raw, lock) == Ok(text)
    ensures ReadText(Yaml, text, lock.channel) == Ok(lock.(line := was.line))
       <==> if ListForm(text) then ListForm(raw) || LineIn(Yaml, LinesOf(raw), lock.channel) == was.line
            else lock.channel == "stable" && Settles(Yaml, LinesOf(raw), lock, lock.(line := was.line))
    ensures other != lock.channel && ReadText(Yaml, raw, other) == Ok(x) ==>
              (ReadText(Yaml, text, other) == Ok(x) <==> ListForm(text) || (other == "stable" && Settles(Yaml, LinesOf(raw), lock, x)))
    ensures ListForm(text) <==> SomeLine(Rewritten(Yaml, LinesOf(raw), lock), ListMark)
  {
    YamlIsFaithful(lock);
    YamlIsWritable(lock);
    ReadsBack(Yaml, raw, lock, was, text);
    if other != lock.channel && ReadText(Yaml, raw, other) == Ok(x) {
      OtherReadsBack(Yaml, raw, lock, was, text, other, x);
    }
  }

  // ---------------------------------------------------------------- a text whose rewrite is not read back

  const BlockKeys: seq<Key> := [Repository, Version, Commit, TagObject, TagVerified, Archive, Sha256]

  function Block(f: Format, lock: Lock, keys: seq<Key>): seq<string> {
    seq(|keys|, i requires 0 <= i < |keys| => f.render(lock, keys[i]))
  }

  const Crs := "crs:"

  /** A stable block and an lts block, under the given item lines. */
  function TwoBlocks(f: Format, first: string, second: string, a: Lock, b: Lock): (lines: seq<string>)
    ensures |lines| == 17
  {
    [Crs, first] + Block(f, a, BlockKeys) + [second] + Block(f, b, BlockKeys)
  }

  predicate Heads(f: Format, first: string, second: string) {
    f.kind(Crs) == Header && f.kind(first) == Item(Some("stable")) && f.kind(second) == Item(Some("lts"))
  }

  lemma {:induction false} PlaceInBlock(f: Format, lines: seq<string>, i: nat, n: nat, channel: string)
    requires i + n <= |lines| && forall j :: i <= j < i + n ==> f.kind(lines[j]).Entry?
    ensures PlaceAt(f, lines, Outside, i + n, channel) == PlaceAt(f, lines, Outside, i, channel)
  {
    if n > 0 { PlaceInBlock(f, lines, i, n - 1, channel); }
  }

  lemma PlaceAtStart(f: Format, lines: seq<string>)
    requires |lines| >= 2 && f.kind(lines[0]) == Header && f.kind(lines[1]) == Item(Some("stable"))
    ensures PlaceAt(f, lines, Outside, 2, "stable") == Selected
  {
    assert PlaceAt(f, lines, Outside, 1, "stable") == Unselected;
  }

  lemma {:induction false} EntriesOfFirst(f: Format, first: string, second: string, a: Lock, b: Lock, i: nat)
    requires Faithful(f, a) && Faithful(f, b) && Heads(f, first, second) && i < 17
    ensures EntryAt(f, TwoBlocks(f, first, second, a, b), Outside, i, "stable") <==> 2 <= i < 9
  {
    var lines := TwoBlocks(f, first, second, a, b);
    PlaceAtStart(f, lines);
    if 2 <= i < 9 {
      PlaceInBlock(f, lines, 2, i - 2, "stable");
    } else if i >= 10 {
      PlaceInBlock(f, lines, 2, 7, "stable");
      PlaceInBlock(f, lines, 10, i - 10, "stable");
    }
  }

  lemma {:induction false} SeenHas(f: Format, lines: seq<string>, i: nat, n: nat, channel: string)
    requires i < n <= |lines| && EntryAt(f, lines, Outside, i, channel)
    ensures KeyOn(f, lines[i]) <= Seen(f, lines, n, channel)
  {
    if i < n - 1 { SeenHas(f, lines, i, n - 1, channel); }
  }

  lemma EveryKey(key: Key)
    requires Rewritable(key)
    ensures key in BlockKeys
  {
    assert BlockKeys[0] == Repository && BlockKeys[1] == Version && BlockKeys[2] == Commit && BlockKeys[3] == TagObject;
    assert BlockKeys[4] == TagVerified && BlockKeys[5] == Archive && BlockKeys[6] == Sha256;
  }

  /** Rewriting the stable block replaces the first block, and finds every key. */
  lemma {:induction false} RewritesFirst(f: Format, first: string, second: string, a: Lock, b: Lock, next: Lock)
    requires Faithful(f, a) && Faithful(f, b) && Heads(f, first, second) && next.channel == "stable"
    ensures Rewritten(f, TwoBlocks(f, first, second, a, b), next) == TwoBlocks(f, first, second, next, b)
    ensures AllKeys <= Seen(f, TwoBlocks(f, first, second, a, b), 17, "stable")
  {
    var lines, after := TwoBlocks(f, first, second, a, b), TwoBlocks(f, first, second, next, b);
    forall i | 0 <= i < 17 ensures NewLineAt(f, lines, i, next) == after[i] {
      EntriesOfFirst(f, first, second, a, b, i);
      if 2 <= i < 9 { assert lines[i] == f.render(a, BlockKeys[i - 2]) && after[i] == f.render(next, BlockKeys[i - 2]); }
    }
    forall key | key in AllKeys ensures key in Seen(f, lines, 17, "stable") {
      EveryKey(key);
      var k :| 0 <= k < 7 && BlockKeys[k] == key;
      EntriesOfFirst(f, first, second, a, b, k + 2);
      assert lines[k + 2] == f.render(a, key);
      SeenHas(f, lines, k + 2, 17, "stable");
    }
  }

  /** Reading one block stores its values under its keys. */
  lemma {:induction false} BlockReads(f: Format, lock: Lock, keys: seq<Key>, into: Lock, key: Key)
    requires Faithful(f, lock) && forall k :: k in keys ==> Rewritable(k)
    ensures var r := AssignAll(f, into, Block(f, lock, keys));
            Content(r, key) == Content(if key in keys then lock else into, key) && r.channel == into.channel
    decreases |keys|
  {
    if keys != [] {
      var line := f.render(lock, keys[0]);
      assert Block(f, lock, keys)[1..] == Block(f, lock, keys[1..]);
      AssignValue(into, lock, keys[0], key);
      BlockReads(f, lock, keys[1..], AssignLine(f, into, line), key);
      assert key in keys <==> key == keys[0] || key in keys[1..];
    }
  }

  lemma {:induction false} AssignAppend(f: Format, into: Lock, a: seq<string>, b: seq<string>)
    ensures AssignAll(f, into, a + b) == AssignAll(f, AssignAll(f, into, a), b)
    decreases |a|
  {
    if a == [] {
      assert a + b == b;
    } else {
      AssignAppend(f, AssignLine(f, into, a[0]), a[1..], b);
      assert (a + b)[1..] == a[1..] + b;
    }
  }

  lemma EntriesMore(f: Format, line: string, rest: seq<string>, p: Place)
    requires f.kind(line).Entry? && Inside(p)
    ensures Entries(f, [line] + rest, p) == [line] + Entries(f, rest, p)
  {
    assert ([line] + rest)[1..] == rest;
  }

  lemma {:induction false} EntriesAppend(f: Format, a: seq<string>, b: seq<string>, p: Place)
    requires Inside(p) && forall line :: line in a ==> f.kind(line).Entry?
    ensures Entries(f, a + b, p) == a + Entries(f, b, p)
    decreases |a|
  {
    if a == [] {
      assert a + b == b;
    } else {
      var rest := Entries(f, b, p);
      EntriesAppend(f, a[1..], b, p);
      EntriesMore(f, a[0], a[1..] + b, p);
      assert a + b == [a[0]] + (a[1..] + b) && a + rest == [a[0]] + (a[1..] + rest);
    }
  }

  lemma EntriesAfter(f: Format, line: string, rest: seq<string>, p: Place)
    requires !f.kind(line).Entry? && !p.Ended?
    ensures Entries(f, [line] + rest, p) == Entries(f, rest, Step(p, f.kind(line), "", true))
  {
    assert ([line] + rest)[1..] == rest;
  }

  lemma {:induction false} EntriesOfTwo(f: Format, first: string, second: string, x: seq<string>, y: seq<string>)
    requires Heads(f, first, second) && (forall line :: line in x ==> f.kind(line).Entry?) && forall line :: line in y ==> f.kind(line).Entry?
    ensures Entries(f, [Crs] + ([first] + (x + ([second] + y))), Outside) == x + y
  {
    EntriesAfter(f, Crs, [first] + (x + ([second] + y)), Outside);
    EntriesAfter(f, first, x + ([second] + y), Unselected);
    EntriesAppend(f, x, [second] + y, Unselected);
    EntriesAfter(f, second, y, Unselected);
    EntriesAppend(f, y, [], Unselected);
    assert y + [] == y;
  }

  lemma {:induction false} EntriesOfBoth(f: Format, first: string, second: string, a: Lock, b: Lock)
    requires Faithful(f, a) && Faithful(f, b) && Heads(f, first, second)
    ensures Entries(f, TwoBlocks(f, first, second, a, b), Outside) == Block(f, a, BlockKeys) + Block(f, b, BlockKeys)
  {
    var x, y := Block(f, a, BlockKeys), Block(f, b, BlockKeys);
    EntriesOfTwo(f, first, second, x, y);
    assert TwoBlocks(f, first, second, a, b) == [Crs] + ([first] + (x + ([second] + y)));
  }

  /** What the reader makes of the file for the stable channel: the values of the second block. */
  function SecondRead(b: Lock): Lock { b.(channel := "stable", line := "") }

  lemma ReadsSecond(f: Format, first: string, second: string, a: Lock, b: Lock)
    requires Faithful(f, a) && Faithful(f, b) && Heads(f, first, second) && Complete(SecondRead(b))
    requires !TooLong(f, TwoBlocks(f, first, second, a, b), Outside, "stable", false)
    ensures ReadLock(f, TwoBlocks(f, first, second, a, b), "stable", false) == Ok(SecondRead(b))
  {
    var lines, x, y, blank := TwoBlocks(f, first, second, a, b), Block(f, a, BlockKeys), Block(f, b, BlockKeys), Blank("stable");
    TakenUnlisted(f, lines, Outside, Outside, "stable");
    EntriesOfBoth(f, first, second, a, b);
    AssignAppend(f, blank, x, y);
    var r := AssignAll(f, AssignAll(f, blank, x), y);
    forall key ensures Content(r, key) == Content(SecondRead(b), key) && r.channel == "stable" {
      BlockReads(f, a, BlockKeys, blank, key);
      BlockReads(f, b, BlockKeys, AssignAll(f, blank, x), key);
      if Rewritable(key) { EveryKey(key); }
    }
    assert Content(r, Line) == Content(SecondRead(b), Line);
    SameLock(r, SecondRead(b));
    CheckedIs(r, AnyEntry(f, lines, Outside, "stable", false), SecondRead(b));
  }

  lemma {:induction false} ShortLines(f: Format, lines: seq<string>, p: Place, channel: string, listForm: bool)
    requires forall line :: line in lines ==> |line| < MaxToken
    ensures !TooLong(f, lines, p, channel, listForm)
    decreases |lines|
  {
    if lines != [] && !p.Ended? {
      ShortLines(f, lines[1..], Step(p, f.kind(lines[0]), channel, listForm), channel, listForm);
    }
  }

  /** A line that may stand in the file: no break, no mark, not too long. */
  ghost predicate PlainLine(line: string) {
    '\n' !in line && '\r' !in line && |line| < MaxToken && !Contains(line, ListMark)
  }

  lemma {:induction false} PlainText(lines: seq<string>)
    requires lines != [] && forall line :: line in lines ==> PlainLine(line)
    ensures var raw := TextOf(lines); LinesOf(raw) == lines && ScanLines(raw) == lines && !ListForm(raw)
  {
    TextLines(lines);
    ListFormByLine(lines);
    forall i: nat | i < |lines| ensures !Contains(lines[i], ListMark) {
      assert PlainLine(lines[i]);
    }
  }

  lemma {:induction false} TextLines(lines: seq<string>)
    requires lines != [] && (forall line :: line in lines ==> '\n' !in line) && (forall line :: line in lines ==> '\r' !in line)
    ensures LinesOf(TextOf(lines)) == lines && ScanLines(TextOf(lines)) == lines
  {
    var raw := TextOf(lines);
    assert raw[..|raw| - 1] == Join(lines, '\n');
    SplitJoin(lines, '\n');
    ScanOf(raw, lines);
  }

  ghost predicate PlainLock(f: Format, lock: Lock) {
    Faithful(f, lock) && forall key :: Rewritable(key) ==> PlainLine(f.render(lock, key))
  }

  lemma PlainFile(f: Format, first: string, second: string, a: Lock, b: Lock)
    requires PlainLock(f, a) && PlainLock(f, b) && PlainLine(Crs) && PlainLine(first) && PlainLine(second)
    ensures forall line :: line in TwoBlocks(f, first, second, a, b) ==> PlainLine(line)
  {
    PlainBlock(f, a);
    PlainBlock(f, b);
  }

  lemma PlainBlock(f: Format, lock: Lock)
    requires PlainLock(f, lock)
    ensures forall line :: line in Block(f, lock, BlockKeys) ==> PlainLine(line)
  {
    forall i | 0 <= i < |BlockKeys| ensures PlainLine(f.render(lock, BlockKeys[i])) {
      assert Rewritable(BlockKeys[i]);
    }
  }

  /** Without the mark, a rewrite of the first block is accepted and the reader goes on seeing the second. */
  lemma SecondBlockWins(f: Format, first: string, second: string, a: Lock, b: Lock, next: Lock)
    requires PlainLock(f, a) && PlainLock(f, b) && PlainLock(f, next) && PlainLine(Crs) && PlainLine(first) && PlainLine(second)
    requires Heads(f, first, second) && next.channel == "stable" && Complete(SecondRead(b))
    ensures var raw, text := TextOf(TwoBlocks(f, first, second, a, b)), TextOf(TwoBlocks(f, first, second, next, b));
            RewriteText(f, raw, next) == Ok(text) && ReadText(f, raw, "stable") == ReadText(f, text, "stable") == Ok(SecondRead(b))
  {
    var lines, after := TwoBlocks(f, first, second, a, b), TwoBlocks(f, first, second, next, b);
    PlainFile(f, first, second, a, b);
    PlainFile(f, first, second, next, b);
    PlainText(lines);
    PlainText(after);
    RewritesFirst(f, first, second, a, b, next);
    ShortLines(f, lines, Outside, "stable", false);
    ShortLines(f, after, Outside, "stable", false);
    ReadsSecond(f, first, second, a, b);
    ReadsSecond(f, first, second, next, b);
  }

  // ---------------------------------------------------------------- the same text in the format of the program

  /** Characters of the values: no blank, break, quote or dash. */
  predicate ValueChar(c: char) { '.' <= c <= ':' || '@' <= c <= 'Z' || '_' <= c <= 'z' }

  predicate ShortWord(s: string) { 0 < |s| <= 200 && forall c :: c in s ==> ValueChar(c) }

  lemma {:induction false} NeedsChar(s: string, part: string, c: char)
    requires c in part && c !in s
    ensures !Contains(s, part)
  {
    if s != [] { NeedsChar(s[1..], part, c); }
  }

  lemma {:induction false} NeedsPair(s: string, part: string)
    requires |part| >= 2 && part[0] == ' ' && part[1] == ' ' && forall i :: 0 <= i < |s| - 1 ==> !(s[i] == ' ' && s[i + 1] == ' ')
    ensures !Contains(s, part)
  {
    if s != [] {
      assert |s| >= 2 ==> s[0] != part[0] || s[1] != part[1];
      forall i | 0 <= i < |s[1..]| - 1 ensures !(s[1..][i] == ' ' && s[1..][i + 1] == ' ') {
        assert s[1..][i] == s[i + 1] && s[1..][i + 1] == s[i + 2];
      }
      NeedsPair(s[1..], part);
    }
  }

  predicate WordLock(lock: Lock) { forall key :: Rewritable(key) ==> ShortWord(Value(lock, key)) }

  lemma WordLine(key: string, value: string)
    requires ShortWord(value) && |key| < 100 && forall c :: c in key ==> ValueChar(c)
    ensures PlainLine(NewLine(key, value))
  {
    var line := NewLine(key, value);
    assert forall c :: c in line ==> ValueChar(c) || c == ' ';
    assert ListMark[2] == '-';
    NeedsChar(line, ListMark, '-');
  }

  lemma WordLockIsPlain(lock: Lock)
    requires WordLock(lock)
    ensures PlainLock(Yaml, lock)
  {
    forall key | Rewritable(key) ensures Clean(Value(lock, key)) && PlainLine(Rendered(lock, key)) {
      assert ShortWord(Value(lock, key));
      WordIsClean(Value(lock, key));
      NameIsWord(key);
      WordLine(Name(key), Value(lock, key));
    }
    YamlIsFaithful(lock);
  }

  lemma WordIsClean(value: string)
    requires ShortWord(value)
    ensures Clean(value)
  {
    assert value[0] in value && value[|value| - 1] in value;
  }

  lemma NameIsWord(key: Key)
    ensures |Name(key)| < 100 && forall c :: c in Name(key) ==> ValueChar(c)
  {
    forall c | c in Name(key) ensures ValueChar(c) { NameChars(key, c); }
  }

  /** Item lines indented by one blank. */
  function ItemLine(channel: string): string { " " + ItemBody(channel) }

  function ItemBody(channel: string): string { "- channel: " + channel }

  lemma ItemLineReads(channel: string)
    requires ShortWord(channel)
    ensures Classify(ItemLine(channel)) == Item(Some(channel)) && PlainLine(ItemLine(channel))
  {
    TrimItemLine(channel);
    CutItem(channel);
    WordIsClean(channel);
    UnquoteBlank(channel);
    OneBlankApart(channel);
  }

  lemma TrimItemLine(channel: string)
    requires ShortWord(channel)
    ensures TrimSpace(ItemLine(channel)) == ItemBody(channel)
  {
    var body := ItemBody(channel);
    assert body[|body| - 1] == channel[|channel| - 1] && channel[|channel| - 1] in channel;
    TrimIndented(body);
  }

  lemma CutItem(channel: string)
    ensures var body := ItemBody(channel);
            "- " <= body && Cut(TrimPrefix(body, "- "), ':') == Some(("channel", " " + channel))
  {
    var body := ItemBody(channel);
    CutAt("channel", ':', " " + channel);
    assert body[2..] == "channel" + [':'] + (" " + channel);
  }

  lemma {:induction false} OneBlankApart(channel: string)
    requires ShortWord(channel)
    ensures PlainLine(ItemLine(channel))
  {
    var line := ItemLine(channel);
    forall i | 0 <= i < |line| - 1 ensures !(line[i] == ' ' && line[i + 1] == ' ') {
      if i >= 11 { assert line[i + 1] == channel[i - 11] && line[i + 1] in channel; }
    }
    NeedsPair(line, ListMark);
  }

  lemma CrsLine()
    ensures Classify(Crs) == Header && PlainLine(Crs)
  {
    NeedsChar(Crs, ListMark, '-');
  }

  /** The file with items indented by one blank, for any three locks of plain values. */
  lemma OneBlankIndent(a: Lock, b: Lock, next: Lock)
    requires WordLock(a) && WordLock(b) && WordLock(next) && next.channel == "stable" && Complete(SecondRead(b))
    ensures var raw := TextOf(TwoBlocks(Yaml, ItemLine("stable"), ItemLine("lts"), a, b));
            var text := TextOf(TwoBlocks(Yaml, ItemLine("stable"), ItemLine("lts"), next, b));
            RewriteText(Yaml, raw, next) == Ok(text)
            && ReadText(Yaml, raw, "stable") == Ok(SecondRead(b)) && ReadText(Yaml, text, "stable") == Ok(SecondRead(b))
  {
    WordLockIsPlain(a);
    WordLockIsPlain(b);
    WordLockIsPlain(next);
    ItemLineReads("stable");
    ItemLineReads("lts");
    CrsLine();
    SecondBlockWins(Yaml, ItemLine("stable"), ItemLine("lts"), a, b, next);
  }

  function Repeated(c: char, n: nat): string { seq(n, i => c) }

  /** The lock of a signed release, as the updater builds it. */
  function Release(channel: string, line: string, version: string, commit: string, tagObject: string, sha256: string): Lock {
    Lock(channel, line, DefaultRepository, version, commit, tagObject, true, ArchiveOf(commit), sha256)
  }

  function ArchiveOf(commit: string): string { GitHub + DefaultRepository + "/archive/" + commit + ".tar.gz" }

  lemma WordAppend(a: string, b: string)
    requires ShortWord(a) && ShortWord(b) && |a| + |b| <= 200
    ensures ShortWord(a + b)
  {
  }

  lemma ArchiveIsWord(commit: string)
    requires ShortWord(commit) && |commit| == 40
    ensures ShortWord(GitHub + DefaultRepository) && ShortWord(ArchiveOf(commit))
  {
    WordAppend(GitHub, DefaultRepository);
    WordAppend(GitHub + DefaultRepository, "/archive/");
    WordAppend(GitHub + DefaultRepository + "/archive/", commit);
    WordAppend(GitHub + DefaultRepository + "/archive/" + commit, ".tar.gz");
  }

  lemma ReleaseIsPlain(channel: string, line: string, version: string, commit: string, tagObject: string, sha256: string)
    requires ShortWord(version) && ShortWord(commit) && |commit| == 40 && ShortWord(tagObject) && ShortWord(sha256)
    ensures WordLock(Release(channel, line, version, commit, tagObject, sha256))
  {
    ArchiveIsWord(commit);
    assert ShortWord("true");
  }

  /** A stable block at v4.1.0 and an lts block at v4.3.0: the updater finds v4.9.0 for the stable channel, its rewrite
      succeeds, and the next run reads v4.3.0 as it did before. */
  lemma RewriteNotReadBack()
    ensures var hash := Repeated('e', 64);
            var a := Release("stable", "", "v4.1.0", Repeated('a', 40), Repeated('d', 40), hash);
            var b := Release("lts", "", "v4.3.0", Repeated('b', 40), Repeated('d', 40), hash);
            var next := Release("stable", "", "v4.9.0", Repeated('c', 40), Repeated('d', 40), hash);
            var raw := TextOf(TwoBlocks(Yaml, ItemLine("stable"), ItemLine("lts"), a, b));
            var text := TextOf(TwoBlocks(Yaml, ItemLine("stable"), ItemLine("lts"), next, b));
            RewriteText(Yaml, raw, next) == Ok(text)
            && ReadText(Yaml, raw, "stable") == ReadText(Yaml, text, "stable") == Ok(b.(channel := "stable")) != Ok(next)
  {
    var hash := Repeated('e', 64);
    var a := Release("stable", "", "v4.1.0", Repeated('a', 40), Repeated('d', 40), hash);
    var b := Release("lts", "", "v4.3.0", Repeated('b', 40), Repeated('d', 40), hash);
    var next := Release("stable", "", "v4.9.0", Repeated('c', 40), Repeated('d', 40), hash);
    ReleaseIsPlain("stable", "", "v4.1.0", Repeated('a', 40), Repeated('d', 40), hash);
    ReleaseIsPlain("lts", "", "v4.3.0", Repeated('b', 40), Repeated('d', 40), hash);
    ReleaseIsPlain("stable", "", "v4.9.0", Repeated('c', 40), Repeated('d', 40), hash);
    assert "v4.3.0"[3] != "v4.9.0"[3];
    OneBlankIndent(a, b, next);
  }
}
