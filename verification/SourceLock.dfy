/** The CRS source lock: a reader and an in-place rewriter of one block of a list of lines
    (cmd/mwaf-crs-updater/main.go). */
module SourceLock {
  import opened Prelude
  import opened Text
  import opened LockFormat

  /** How single lines are read and written; `Yaml` is the one the program uses. */
  datatype Format = Format(kind: string -> Kind, entry: string -> Option<(Key, string)>, render: (Lock, Key) -> string)

  const Yaml := Format(Classify, EntryOf, Rendered)

  function AssignLine(f: Format, lock: Lock, line: string): Lock {
    match f.entry(line)
    case None => lock
    case Some((key, value)) => Assign(lock, key, value)
  }

  // ---------------------------------------------------------------- the reader

  datatype Place = Outside | Unselected | Selected | Ended

  function Step(p: Place, kind: Kind, channel: string, listForm: bool): Place {
    if p.Ended? then Ended
    else match kind
      case Header => if p.Outside? then Unselected else p
      case Foreign => if p.Outside? then Outside else Ended
      case Item(c) => if p.Outside? then Outside else if c == Some(channel) then Selected else Unselected
      case Entry =>
        if p.Outside? || listForm then p
        else if channel == "stable" then Selected else Unselected
  }

  predicate Inside(p: Place) { p.Unselected? || p.Selected? }

  /** Lines whose keys and values the reader takes for the channel. */
  function Taken(f: Format, lines: seq<string>, p: Place, channel: string, listForm: bool): seq<string> {
    if lines == [] || p.Ended? then []
    else
      var next := Step(p, f.kind(lines[0]), channel, listForm);
      var rest := Taken(f, lines[1..], next, channel, listForm);
      if f.kind(lines[0]).Entry? && next.Selected? then [lines[0]] + rest else rest
  }

  const MaxToken: nat := 65536

  /** A line too long for the scanner is met before the block ends. */
  predicate TooLong(f: Format, lines: seq<string>, p: Place, channel: string, listForm: bool) {
    if lines == [] || p.Ended? then false
    else |lines[0]| >= MaxToken || TooLong(f, lines[1..], Step(p, f.kind(lines[0]), channel, listForm), channel, listForm)
  }

  /** Some entry of the block is met. */
  predicate AnyEntry(f: Format, lines: seq<string>, p: Place, channel: string, listForm: bool) {
    if lines == [] || p.Ended? then false
    else (f.kind(lines[0]).Entry? && Inside(p)) || AnyEntry(f, lines[1..], Step(p, f.kind(lines[0]), channel, listForm), channel, listForm)
  }

  function AssignAll(f: Format, lock: Lock, lines: seq<string>): Lock
    decreases |lines|
  {
    if lines == [] then lock else AssignAll(f, AssignLine(f, lock, lines[0]), lines[1..])
  }

  function Blank(channel: string): Lock { Lock(channel, "", "", "", "", "", false, "", "") }

  /** The checks after the scan. */
  function Checked(lock: Lock, legacy: bool): Result<Lock> {
    var full := if lock.repository == "" then lock.(repository := DefaultRepository) else lock;
    if full.channel == "lts" && full.line == "" then Err("CRS LTS source lock requires a line")
    else if full.version == "" || full.commit == "" || full.archive == "" || |full.sha256| != 64
            || (!legacy && (|full.tagObject| != 40 || !full.tagVerified)) then
      Err("CRS source lock is incomplete")
    else Ok(full)
  }

  /** A lock is accepted exactly when it is complete, with a verified tag object unless it comes from a file in the old
      form; a missing repository is the upstream one. */
  lemma {:induction false} AcceptedLock(lock: Lock, legacy: bool)
    ensures Checked(lock, legacy).Ok? <==>
              && lock.version != "" && lock.commit != "" && lock.archive != "" && |lock.sha256| == 64
              && (lock.channel == "lts" ==> lock.line != "")
              && (legacy || (|lock.tagObject| == 40 && lock.tagVerified))
    ensures Checked(lock, legacy).Ok? ==>
              && Checked(lock, legacy).value == lock.(repository := Checked(lock, legacy).value.repository)
              && Checked(lock, legacy).value.repository == if lock.repository == "" then "coreruleset/coreruleset" else lock.repository
  {
  }

  function ReadLock(f: Format, lines: seq<string>, channel: string, listForm: bool): Result<Lock> {
    if TooLong(f, lines, Outside, channel, listForm) then Err("bufio.Scanner: token too long")
    else Checked(AssignAll(f, Blank(channel), Taken(f, lines, Outside, channel, listForm)), !listForm && AnyEntry(f, lines, Outside, channel, listForm))
  }

  /** bufio.ScanLines: drops one carriage return per line and an empty last line. */
  function ScanLines(text: string): seq<string> { Tokens(Split(text, '\n')) }

  function Tokens(lines: seq<string>): seq<string>
    requires lines != []
  {
    var kept := if lines[|lines| - 1] == "" then lines[..|lines| - 1] else lines;
    seq(|kept|, i requires 0 <= i < |kept| => DropReturn(kept[i]))
  }

  function DropReturn(line: string): string {
    if line != "" && line[|line| - 1] == '\r' then line[..|line| - 1] else line
  }

  const ListMark := "  - channel:"

  predicate ListForm(text: string) { Contains(text, ListMark) }

  function Flags(inCRS: bool, inSelected: bool): Place {
    if !inCRS then Outside else if inSelected then Selected else Unselected
  }

  /** The scan line by line. */
  function Scan(f: Format, lines: seq<string>, p: Place, lock: Lock, legacy: bool, channel: string, listForm: bool): Result<Lock>
    decreases |lines|
  {
    if lines == [] || p.Ended? then Checked(lock, legacy)
    else if |lines[0]| >= MaxToken then Err("bufio.Scanner: token too long")
    else
      var kind := f.kind(lines[0]);
      var next := Step(p, kind, channel, listForm);
      Scan(f, lines[1..], next, if kind.Entry? && next.Selected? then AssignLine(f, lock, lines[0]) else lock,
           legacy || (kind.Entry? && Inside(p) && !listForm), channel, listForm)
  }

  lemma AssignCons(f: Format, lock: Lock, line: string, rest: seq<string>)
    ensures AssignAll(f, lock, [line] + rest) == AssignAll(f, AssignLine(f, lock, line), rest)
  {
    assert ([line] + rest)[1..] == rest;
  }

  lemma {:induction false} ScanIs(f: Format, lines: seq<string>, p: Place, lock: Lock, legacy: bool, channel: string, listForm: bool)
    ensures Scan(f, lines, p, lock, legacy, channel, listForm)
         == if TooLong(f, lines, p, channel, listForm) then Err("bufio.Scanner: token too long")
            else Checked(AssignAll(f, lock, Taken(f, lines, p, channel, listForm)),
                         legacy || (!listForm && AnyEntry(f, lines, p, channel, listForm)))
    decreases |lines|
  {
    if lines != [] && !p.Ended? && |lines[0]| < MaxToken {
      var kind := f.kind(lines[0]);
      var next := Step(p, kind, channel, listForm);
      AssignCons(f, lock, lines[0], Taken(f, lines[1..], next, channel, listForm));
      ScanIs(f, lines[1..], next, if kind.Entry? && next.Selected? then AssignLine(f, lock, lines[0]) else lock,
             legacy || (kind.Entry? && Inside(p) && !listForm), channel, listForm);
    }
  }

  lemma Tail(lines: seq<string>, i: nat)
    requires i < |lines|
    ensures lines[i..] != [] && lines[i..][0] == lines[i] && lines[i..][1..] == lines[i + 1..]
  {
  }

  lemma {:induction false} FlagIsSaid(f: Format, lock: Lock, lines: seq<string>)
    requires AssignAll(f, lock, lines).tagVerified && !lock.tagVerified
    ensures exists i :: 0 <= i < |lines| && f.entry(lines[i]) == Some((TagVerified, "true"))
    decreases |lines|
  {
    if f.entry(lines[0]) != Some((TagVerified, "true")) {
      FlagIsSaid(f, AssignLine(f, lock, lines[0]), lines[1..]);
      var i :| 0 <= i < |lines[1..]| && f.entry(lines[1..][i]) == Some((TagVerified, "true"));
      assert f.entry(lines[i + 1]) == Some((TagVerified, "true"));
    }
  }

  /** A lock is read from a file in list form only if a line of the channel's block says that the tag was verified. */
  lemma {:induction false} VerifiedIsSaid(f: Format, lines: seq<string>, channel: string, block: seq<string>)
    requires ReadLock(f, lines, channel, true).Ok? && block == Taken(f, lines, Outside, channel, true)
    ensures exists i :: 0 <= i < |block| && f.entry(block[i]) == Some((TagVerified, "true"))
  {
    AcceptedLock(AssignAll(f, Blank(channel), block), false);
    FlagIsSaid(f, Blank(channel), block);
  }

  method ReadSourceLock(f: Format, text: string, channel: string) returns (r: Result<Lock>)
    ensures r == ReadLock(f, ScanLines(text), channel, ListForm(text))
    ensures r.Ok? ==>
              && r.value.version != "" && r.value.commit != "" && r.value.archive != "" && |r.value.sha256| == 64
              && (ListForm(text) ==> |r.value.tagObject| == 40 && r.value.tagVerified)
              && (r.value.channel == "lts" ==> r.value.line != "")
  {
    var lines, listForm := ScanLines(text), ListForm(text);
    ScanIs(f, lines, Outside, Blank(channel), false, channel, listForm);
    r := ReadLines(f, lines, channel, listForm);
    AcceptedLock(AssignAll(f, Blank(channel), Taken(f, lines, Outside, channel, listForm)),
                 !listForm && AnyEntry(f, lines, Outside, channel, listForm));
  }

  method ReadLines(f: Format, lines: seq<string>, channel: string, listForm: bool) returns (r: Result<Lock>)
    ensures r == Scan(f, lines, Outside, Blank(channel), false, channel, listForm)
  {
    var lock := Blank(channel);
    var inCRS, inSelected, legacy := false, false, false;
    var i := 0;
    assert lines[0..] == lines;
    while i < |lines|
      invariant 0 <= i <= |lines| && (!inCRS ==> !inSelected)
      invariant Scan(f, lines[i..], Flags(inCRS, inSelected), lock, legacy, channel, listForm)
             == Scan(f, lines, Outside, Blank(channel), false, channel, listForm)
    {
      var line := lines[i];
      Tail(lines, i);
      if |line| >= MaxToken { return Err("bufio.Scanner: token too long"); }
      match f.kind(line) {
      case Header => inCRS := true;
      case Foreign => if inCRS { return Checked(lock, legacy); }
      case Item(c) => if inCRS { inSelected := c == Some(channel); }
      case Entry =>
        if inCRS {
          if !listForm {
            legacy := true;
            inSelected := channel == "stable";
          }
          if inSelected { lock := AssignLine(f, lock, line); }
        }
      }
      i := i + 1;
    }
    return Checked(lock, legacy);
  }

  // ---------------------------------------------------------------- the rewriter

  /** Keys a rewrite must find. */
  function Rewritable(key: Key): bool { !key.Line? }

  function NewText(f: Format, lock: Lock, line: string): string {
    match f.entry(line)
    case Some((key, _)) => if Rewritable(key) then f.render(lock, key) else line
    case None => line
  }

  /** Place before the i-th line of a text in list form. */
  function PlaceAt(f: Format, lines: seq<string>, p: Place, i: nat, channel: string): Place
    requires i <= |lines|
  {
    if i == 0 then p else Step(PlaceAt(f, lines, p, i - 1, channel), f.kind(lines[i - 1]), channel, true)
  }

  /** The i-th line is an entry of the channel's block. */
  predicate EntryAt(f: Format, lines: seq<string>, p: Place, i: nat, channel: string)
    requires i < |lines|
  {
    PlaceAt(f, lines, p, i, channel).Selected? && f.kind(lines[i]).Entry?
  }

  /** Only entries of the block change. */
  function NewLineAt(f: Format, lines: seq<string>, i: nat, lock: Lock): string
    requires i < |lines|
  {
    if EntryAt(f, lines, Outside, i, lock.channel) then NewText(f, lock, lines[i]) else lines[i]
  }

  function Rewritten(f: Format, lines: seq<string>, lock: Lock): (r: seq<string>) {
    seq(|lines|, i requires 0 <= i < |lines| => NewLineAt(f, lines, i, lock))
  }

  const AllKeys: set<Key> := {Repository, Version, Commit, TagObject, TagVerified, Archive, Sha256}

  /** Keys found among the first i lines. */
  function Seen(f: Format, lines: seq<string>, i: nat, channel: string): set<Key>
    requires i <= |lines|
  {
    if i == 0 then {}
    else Seen(f, lines, i - 1, channel) + (if EntryAt(f, lines, Outside, i - 1, channel) then KeyOn(f, lines[i - 1]) else {})
  }

  function KeyOn(f: Format, line: string): set<Key> {
    match f.entry(line)
    case Some((key, _)) => if Rewritable(key) then {key} else {}
    case None => {}
  }

  lemma {:induction false} EndedStays(f: Format, lines: seq<string>, p: Place, i: nat, j: nat, channel: string)
    requires i <= j <= |lines| && PlaceAt(f, lines, p, i, channel).Ended?
    ensures PlaceAt(f, lines, p, j, channel).Ended?
  {
    if i < j { EndedStays(f, lines, p, i, j - 1, channel); }
  }

  lemma {:induction false} NothingAfterEnd(f: Format, lines: seq<string>, i: nat, n: nat, channel: string)
    requires i < n <= |lines| && Inside(PlaceAt(f, lines, Outside, i, channel)) && f.kind(lines[i]).Foreign?
    ensures forall j :: i <= j < n ==> !EntryAt(f, lines, Outside, j, channel)
    ensures Seen(f, lines, n, channel) == Seen(f, lines, i, channel)
  {
    if i + 1 < n {
      NothingAfterEnd(f, lines, i, n - 1, channel);
      EndedStays(f, lines, Outside, i + 1, n - 1, channel);
    }
  }

  /** Overwrites the lines of the block in place; fails when a key is missing. */
  method RewriteLines(f: Format, lines: array<string>, lock: Lock) returns (ok: bool)
    modifies lines
    ensures lines[..] == Rewritten(f, old(lines[..]), lock)
    ensures ok <==> AllKeys <= Seen(f, old(lines[..]), lines.Length, lock.channel)
  {
    ghost var was := lines[..];
    var inCRS, inSelected := false, false;
    var seen: set<Key> := {};
    var i := 0;
    while i < lines.Length
      invariant 0 <= i <= lines.Length && (!inCRS ==> !inSelected)
      invariant Flags(inCRS, inSelected) == PlaceAt(f, was, Outside, i, lock.channel)
      invariant forall j :: i <= j < lines.Length ==> lines[j] == was[j]
      invariant forall j :: 0 <= j < i ==> lines[j] == NewLineAt(f, was, j, lock)
      invariant seen == Seen(f, was, i, lock.channel)
    {
      var line := lines[i];
      match f.kind(line) {
      case Header => inCRS := true;
      case Foreign =>
        if inCRS {
          NothingAfterEnd(f, was, i, |was|, lock.channel);
          break;
        }
      case Item(c) => if inCRS { inSelected := c == Some(lock.channel); }
      case Entry =>
        if inSelected {
          var entry := f.entry(line);
          if entry.Some? && Rewritable(entry.value.0) {
            lines[i] := f.render(lock, entry.value.0);
            seen := seen + {entry.value.0};
          }
        }
      }
      i := i + 1;
    }
    ok := AllKeys <= seen;
  }

  // ---------------------------------------------------------------- reading after rewriting

  /** Rendered lines are entries that read back as what was rendered. */
  ghost predicate Faithful(f: Format, lock: Lock) {
    forall key :: Rewritable(key) ==> f.kind(f.render(lock, key)) == Entry && f.entry(f.render(lock, key)) == Some((key, Value(lock, key)))
  }

  predicate SameKinds(f: Format, a: seq<string>, b: seq<string>) {
    |a| == |b| && forall i :: 0 <= i < |a| ==> f.kind(a[i]) == f.kind(b[i])
  }

  lemma RewrittenKinds(f: Format, lines: seq<string>, lock: Lock)
    requires Faithful(f, lock)
    ensures SameKinds(f, lines, Rewritten(f, lines, lock))
  {
  }

  lemma {:induction false} PlaceAtTail(f: Format, a: seq<string>, p: Place, i: nat, channel: string)
    requires i < |a|
    ensures PlaceAt(f, a[1..], Step(p, f.kind(a[0]), channel, true), i, channel) == PlaceAt(f, a, p, i + 1, channel)
  {
    if i > 0 { PlaceAtTail(f, a, p, i - 1, channel); }
  }

  function Map(g: string -> string, lines: seq<string>): seq<string> {
    if lines == [] then [] else [g(lines[0])] + Map(g, lines[1..])
  }

  lemma MapCons(g: string -> string, line: string, rest: seq<string>)
    ensures Map(g, [line] + rest) == [g(line)] + Map(g, rest)
  {
    assert ([line] + rest)[1..] == rest;
  }

  /** Two texts with lines of the same kinds, where the entries of the channel's block correspond by g. */
  lemma {:induction false} TakenMap(f: Format, a: seq<string>, b: seq<string>, p: Place, channel: string, g: string -> string)
    requires SameKinds(f, a, b)
    requires forall i: nat :: i < |a| && EntryAt(f, a, p, i, channel) ==> b[i] == g(a[i])
    ensures Taken(f, b, p, channel, true) == Map(g, Taken(f, a, p, channel, true))
    decreases |a|
  {
    if a != [] && !p.Ended? {
      var next := Step(p, f.kind(a[0]), channel, true);
      forall i: nat | i < |a[1..]| && EntryAt(f, a[1..], next, i, channel) ensures b[1..][i] == g(a[1..][i]) {
        PlaceAtTail(f, a, p, i, channel);
        assert EntryAt(f, a, p, i + 1, channel);
      }
      TakenMap(f, a[1..], b[1..], next, channel, g);
      MapCons(g, a[0], Taken(f, a[1..], next, channel, true));
      if f.kind(a[0]).Entry? && next.Selected? {
        assert EntryAt(f, a, p, 0, channel);
      }
    }
  }

  lemma {:induction false} MapSame(g: string -> string, lines: seq<string>)
    requires forall x :: g(x) == x
    ensures Map(g, lines) == lines
  {
    if lines != [] { MapSame(g, lines[1..]); }
  }

  /** Blocks of different channels have no line in common. */
  lemma {:induction false} BlocksApart(f: Format, lines: seq<string>, i: nat, channel: string, other: string)
    requires i <= |lines| && channel != other
    ensures var p, q := PlaceAt(f, lines, Outside, i, channel), PlaceAt(f, lines, Outside, i, other);
            !(p.Selected? && q.Selected?) && (p.Outside? <==> q.Outside?) && (p.Ended? <==> q.Ended?)
  {
    if i > 0 { BlocksApart(f, lines, i - 1, channel, other); }
  }

  function KeysIn(f: Format, lines: seq<string>): set<Key> {
    if lines == [] then {} else KeyOn(f, lines[0]) + KeysIn(f, lines[1..])
  }

  function Renew(f: Format, lock: Lock): string -> string { (line: string) => NewText(f, lock, line) }

  /** Reading rewritten entries: the keys met take the new values, all else stays, and the line is as before. */
  lemma {:induction false} AssignRenewed(f: Format, lock: Lock, lines: seq<string>, into: Lock, before: Lock, key: Key)
    requires Faithful(f, lock) && Content(into, Line) == Content(before, Line)
    ensures var r := AssignAll(f, into, Map(Renew(f, lock), lines));
            && Content(r, key) == (if key.Line? then Content(AssignAll(f, before, lines), Line)
                                   else Content(if key in KeysIn(f, lines) then lock else into, key))
            && r.channel == into.channel
    decreases |lines|
  {
    if lines != [] {
      var line := Renew(f, lock)(lines[0]);
      AssignCons(f, into, line, Map(Renew(f, lock), lines[1..]));
      AssignOne(f, lock, lines[0], into, before, key);
      AssignOne(f, lock, lines[0], into, before, Line);
      AssignRenewed(f, lock, lines[1..], AssignLine(f, into, line), AssignLine(f, before, lines[0]), key);
    }
  }

  lemma AssignOne(f: Format, lock: Lock, line: string, into: Lock, before: Lock, key: Key)
    requires Faithful(f, lock) && Content(into, Line) == Content(before, Line)
    ensures var r := AssignLine(f, into, NewText(f, lock, line));
            && Content(r, key) == (if key.Line? then Content(AssignLine(f, before, line), Line)
                                   else Content(if key in KeyOn(f, line) then lock else into, key))
            && r.channel == into.channel
  {
    match f.entry(line)
    case None =>
    case Some((k, value)) =>
      if Rewritable(k) { AssignValue(into, lock, k, key); }
  }

  lemma {:induction false} TakenHas(f: Format, a: seq<string>, p: Place, i: nat, channel: string)
    requires i < |a| && EntryAt(f, a, p, i, channel)
    ensures a[i] in Taken(f, a, p, channel, true)
    decreases |a|
  {
    if p.Ended? {
      EndedStays(f, a, p, 0, i, channel);
    } else if i > 0 {
      PlaceAtTail(f, a, p, i - 1, channel);
      TakenHas(f, a[1..], Step(p, f.kind(a[0]), channel, true), i - 1, channel);
    }
  }

  lemma {:induction false} KeysInHas(f: Format, lines: seq<string>, line: string)
    requires line in lines
    ensures KeyOn(f, line) <= KeysIn(f, lines)
  {
    if line != lines[0] {
      KeysInHas(f, lines[1..], line);
    }
  }

  lemma {:induction false} SeenTaken(f: Format, lines: seq<string>, n: nat, channel: string)
    requires n <= |lines|
    ensures Seen(f, lines, n, channel) <= KeysIn(f, Taken(f, lines, Outside, channel, true))
  {
    if n > 0 {
      SeenTaken(f, lines, n - 1, channel);
      if EntryAt(f, lines, Outside, n - 1, channel) {
        TakenHas(f, lines, Outside, n - 1, channel);
        KeysInHas(f, Taken(f, lines, Outside, channel, true), lines[n - 1]);
      }
    }
  }

  lemma {:induction false} StillShort(f: Format, a: seq<string>, b: seq<string>, p: Place, channel: string)
    requires SameKinds(f, a, b) && !TooLong(f, a, p, channel, true)
    requires forall i :: 0 <= i < |a| ==> b[i] == a[i] || |b[i]| < MaxToken
    ensures !TooLong(f, b, p, channel, true)
    decreases |a|
  {
    if a != [] && !p.Ended? {
      StillShort(f, a[1..], b[1..], Step(p, f.kind(a[0]), channel, true), channel);
    }
  }

  /** Places that differ in no more than the choice of a block. */
  predicate Alike(p: Place, q: Place) { (p.Outside? <==> q.Outside?) && (p.Ended? <==> q.Ended?) }

  lemma {:induction false} LengthsForAll(f: Format, a: seq<string>, p: Place, q: Place, channel: string, other: string, listForm: bool, listed: bool)
    requires Alike(p, q)
    ensures TooLong(f, a, p, channel, listForm) <==> TooLong(f, a, q, other, listed)
    decreases |a|
  {
    if a != [] && !p.Ended? {
      LengthsForAll(f, a[1..], Step(p, f.kind(a[0]), channel, listForm), Step(q, f.kind(a[0]), other, listed), channel, other, listForm, listed);
    }
  }

  /** Lines that a rewrite may write: short enough to be scanned, without line breaks. */
  ghost predicate Writable(f: Format, lock: Lock) {
    forall key :: Rewritable(key) ==> |f.render(lock, key)| < MaxToken && '\n' !in f.render(lock, key) && '\r' !in f.render(lock, key)
  }

  function LineIn(f: Format, lines: seq<string>, channel: string): string {
    AssignAll(f, Blank(channel), Taken(f, lines, Outside, channel, true)).line
  }

  lemma SameLock(a: Lock, b: Lock)
    requires a.channel == b.channel && forall key :: Content(a, key) == Content(b, key)
    ensures a == b
  {
    assert Content(a, Line) == Content(b, Line) && Content(a, Repository) == Content(b, Repository);
    assert Content(a, Version) == Content(b, Version) && Content(a, Commit) == Content(b, Commit);
    assert Content(a, TagObject) == Content(b, TagObject) && Content(a, TagVerified) == Content(b, TagVerified);
    assert Content(a, Archive) == Content(b, Archive) && Content(a, Sha256) == Content(b, Sha256);
  }

  /** The rewritten block holds the new lock, but for the line, which is the file's. */
  lemma RewrittenBlock(f: Format, lines: seq<string>, lock: Lock)
    requires Faithful(f, lock) && AllKeys <= Seen(f, lines, |lines|, lock.channel)
    ensures AssignAll(f, Blank(lock.channel), Taken(f, Rewritten(f, lines, lock), Outside, lock.channel, true))
         == lock.(line := LineIn(f, lines, lock.channel))
  {
    var after, blank := Rewritten(f, lines, lock), Blank(lock.channel);
    var taken := Taken(f, lines, Outside, lock.channel, true);
    RewrittenKinds(f, lines, lock);
    TakenMap(f, lines, after, Outside, lock.channel, Renew(f, lock));
    SeenTaken(f, lines, |lines|, lock.channel);
    var r, want := AssignAll(f, blank, Map(Renew(f, lock), taken)), lock.(line := LineIn(f, lines, lock.channel));
    AssignRenewed(f, lock, taken, blank, blank, Line);
    forall key ensures Content(r, key) == Content(want, key) {
      AssignRenewed(f, lock, taken, blank, blank, key);
      if !key.Line? {
        assert key in AllKeys;
        assert key in KeysIn(f, taken);
      }
    }
    SameLock(r, want);
  }

  lemma OtherBlocks(f: Format, lines: seq<string>, lock: Lock, other: string)
    requires Faithful(f, lock) && other != lock.channel
    ensures Taken(f, Rewritten(f, lines, lock), Outside, other, true) == Taken(f, lines, Outside, other, true)
  {
    var after := Rewritten(f, lines, lock);
    RewrittenKinds(f, lines, lock);
    forall i: nat | i < |lines| && EntryAt(f, lines, Outside, i, other) ensures after[i] == lines[i] {
      BlocksApart(f, lines, i, lock.channel, other);
    }
    var same := (line: string) => line;
    TakenMap(f, lines, after, Outside, other, same);
    MapSame(same, Taken(f, lines, Outside, other, true));
  }

  // ---------------------------------------------------------------- whole texts

  /** strings.Split of the text without its final line break. */
  function LinesOf(raw: string): (lines: seq<string>)
    ensures lines != [] && forall line :: line in lines ==> '\n' !in line
  {
    Split(if raw != "" && raw[|raw| - 1] == '\n' then raw[..|raw| - 1] else raw, '\n')
  }

  function TextOf(lines: seq<string>): string { Join(lines, '\n') + "\n" }

  function ReadText(f: Format, text: string, channel: string): Result<Lock> {
    ReadLock(f, ScanLines(text), channel, ListForm(text))
  }

  function RewriteText(f: Format, raw: string, lock: Lock): Result<string> {
    var lines := LinesOf(raw);
    if AllKeys <= Seen(f, lines, |lines|, lock.channel) then Ok(TextOf(Rewritten(f, lines, lock)))
    else Err("CRS source lock key is missing")
  }

  method RewriteSourceLock(f: Format, raw: string, lock: Lock) returns (r: Result<string>)
    ensures r == RewriteText(f, raw, lock)
  {
    var split := LinesOf(raw);
    var lines := new string[|split|](i requires 0 <= i < |split| => split[i]);
    assert lines[..] == split;
    var ok := RewriteLines(f, lines, lock);
    if !ok { return Err("CRS source lock key is missing"); }
    return Ok(TextOf(lines[..]));
  }

  lemma TokensOf(lines: seq<string>)
    requires lines != [] && forall i :: 0 <= i < |lines| ==> '\r' !in lines[i]
    ensures Tokens(lines + [""]) == lines
    ensures lines[|lines| - 1] != "" ==> Tokens(lines) == lines
  {
    assert (lines + [""])[..|lines|] == lines;
    forall i | 0 <= i < |lines| ensures DropReturn(lines[i]) == lines[i] {
      assert lines[i] != "" ==> lines[i][|lines[i]| - 1] in lines[i];
    }
  }

  lemma ScanOf(text: string, lines: seq<string>)
    requires lines != [] && (forall line :: line in lines ==> '\n' !in line) && (forall line :: line in lines ==> '\r' !in line)
    requires text == TextOf(lines) || (text == Join(lines, '\n') && lines[|lines| - 1] != "")
    ensures ScanLines(text) == lines
  {
    TokensOf(lines);
    if text == TextOf(lines) {
      JoinAppend(lines, [""], '\n');
      SplitJoin(lines + [""], '\n');
      assert text == Join(lines + [""], '\n');
    } else {
      SplitJoin(lines, '\n');
    }
  }

  lemma {:induction false} NoReturnInLines(s: string, c: char)
    requires c !in s
    ensures forall line :: line in Split(s, '\n') ==> c !in line
  {
    if s != [] { NoReturnInLines(s[1..], c); }
  }

  /** Reader and rewriter cut a text into the same lines. */
  lemma ScanIsSplit(raw: string)
    requires '\r' !in raw && raw != ""
    ensures ScanLines(raw) == LinesOf(raw)
  {
    var lines := LinesOf(raw);
    var cut := if raw[|raw| - 1] == '\n' then raw[..|raw| - 1] else raw;
    NoReturnInLines(cut, '\r');
    JoinSplit(cut, '\n');
    if raw[|raw| - 1] == '\n' {
      assert raw == cut + "\n";
    } else if lines[|lines| - 1] == "" {
      var front := lines[..|lines| - 1];
      assert lines == front + [""];
      if front != [] {
        JoinAppend(front, [""], '\n');
      }
      assert false;
    }
    ScanOf(raw, lines);
  }

  /** Each key was found, so the text is not empty. */
  lemma NotEmpty(f: Format, raw: string, channel: string)
    requires AllKeys <= Seen(f, LinesOf(raw), |LinesOf(raw)|, channel)
    ensures raw != ""
  {
  }

  lemma RewrittenLines(f: Format, raw: string, lock: Lock)
    requires '\r' !in raw && Writable(f, lock)
    ensures var after := Rewritten(f, LinesOf(raw), lock);
            && after != [] && (forall line :: line in after ==> '\n' !in line) && (forall line :: line in after ==> '\r' !in line)
  {
    NoReturnInLines(if raw != "" && raw[|raw| - 1] == '\n' then raw[..|raw| - 1] else raw, '\r');
    var lines := LinesOf(raw);
    forall i | 0 <= i < |lines| ensures '\n' !in NewLineAt(f, lines, i, lock) && '\r' !in NewLineAt(f, lines, i, lock) {
      assert lines[i] in lines;
    }
  }

  /** Reader and rewriter cut both texts into the expected lines. */
  lemma SameCut(f: Format, raw: string, lock: Lock)
    requires '\r' !in raw && raw != "" && Writable(f, lock)
    ensures var lines := LinesOf(raw);
            ScanLines(raw) == lines && ScanLines(TextOf(Rewritten(f, lines, lock))) == Rewritten(f, lines, lock)
  {
    var after := Rewritten(f, LinesOf(raw), lock);
    ScanIsSplit(raw);
    RewrittenLines(f, raw, lock);
    ScanOf(TextOf(after), after);
  }

  /** Lines read before they were rewritten. */
  ghost predicate Accepted(f: Format, lines: seq<string>, lock: Lock, was: Lock) {
    AllKeys <= Seen(f, lines, |lines|, lock.channel) && ReadLock(f, lines, lock.channel, true) == Ok(was)
  }

  /** Reading the rewritten lines gives the new lock, with the line of the file, after the usual checks. */
  lemma ReadsNewLock(f: Format, lines: seq<string>, lock: Lock, was: Lock)
    requires Faithful(f, lock) && Writable(f, lock) && Accepted(f, lines, lock, was)
    ensures ReadLock(f, Rewritten(f, lines, lock), lock.channel, true) == Checked(lock.(line := was.line), false)
  {
    RewrittenBlock(f, lines, lock);
    RewrittenKinds(f, lines, lock);
    StillShort(f, lines, Rewritten(f, lines, lock), Outside, lock.channel);
  }

  /** Reading any other channel gives what it gave before. */
  lemma OtherChannelsKept(f: Format, lines: seq<string>, lock: Lock, was: Lock, other: string)
    requires Faithful(f, lock) && Writable(f, lock) && Accepted(f, lines, lock, was) && other != lock.channel
    ensures ReadLock(f, Rewritten(f, lines, lock), other, true) == ReadLock(f, lines, other, true)
  {
    OtherBlocks(f, lines, lock, other);
    RewrittenKinds(f, lines, lock);
    LengthsForAll(f, lines, Outside, Outside, lock.channel, other, true, true);
    StillShort(f, lines, Rewritten(f, lines, lock), Outside, other);
  }

  /** Values without line breaks, and without blanks or quotes at the ends, that fit the scanner's buffer. */
  ghost predicate Storable(lock: Lock) {
    CleanLock(lock) && forall key :: Rewritable(key) ==>
      '\n' !in Value(lock, key) && '\r' !in Value(lock, key) && |Rendered(lock, key)| < MaxToken
  }

  lemma NameChars(key: Key, c: char)
    requires c in Name(key)
    ensures c == '_' || 'a' <= c <= 'z' || '0' <= c <= '9'
  {
  }

  lemma NoBreaks(key: string, value: string, c: char)
    requires c !in key && c !in value && (c == '\n' || c == '\r')
    ensures c !in NewLine(key, value)
  {
  }

  lemma YamlIsFaithful(lock: Lock)
    requires CleanLock(lock)
    ensures Faithful(Yaml, lock)
  {
    forall key | Rewritable(key) ensures Yaml.kind(Yaml.render(lock, key)) == Entry && Yaml.entry(Yaml.render(lock, key)) == Some((key, Value(lock, key))) {
      RenderedReads(lock, key);
    }
  }

  lemma YamlIsWritable(lock: Lock)
    requires Storable(lock)
    ensures Writable(Yaml, lock)
  {
    forall key, c | Rewritable(key) && (c == '\n' || c == '\r') ensures c !in Rendered(lock, key) {
      if c in Name(key) { NameChars(key, c); }
      assert c !in Value(lock, key);
      NoBreaks(Name(key), Value(lock, key), c);
    }
  }

  /** The round trip for whole files: for text without carriage returns that was readable before, when it is in
      list form before and after, the new text reads as the new lock with the line of the file, any other channel reads as before, and
      only lines of the channel's block under a rewritten key have changed. */
  lemma SourceLockRoundTrip(raw: string, lock: Lock, was: Lock, text: string, other: string, i: nat)
    requires Storable(lock) && '\r' !in raw && ListForm(raw) && ListForm(text)
    requires ReadText(Yaml, raw, lock.channel) == Ok(was) && RewriteText(Yaml, raw, lock) == Ok(text)
    ensures ReadText(Yaml, text, lock.channel) == Checked(lock.(line := was.line), false)
    ensures other != lock.channel ==> ReadText(Yaml, text, other) == ReadText(Yaml, raw, other)
    ensures |ScanLines(text)| == |ScanLines(raw)|
    ensures i < |ScanLines(raw)| && (!EntryAt(Yaml, ScanLines(raw), Outside, i, lock.channel) || KeyOn(Yaml, ScanLines(raw)[i]) == {}) ==>
              ScanLines(text)[i] == ScanLines(raw)[i]
  {
    YamlIsFaithful(lock);
    YamlIsWritable(lock);
    FormatRoundTrip(Yaml, raw, lock, was, text, other, i);
  }

  lemma FormatRoundTrip(f: Format, raw: string, lock: Lock, was: Lock, text: string, other: string, i: nat)
    requires Faithful(f, lock) && Writable(f, lock) && '\r' !in raw && ListForm(raw) && ListForm(text)
    requires ReadText(f, raw, lock.channel) == Ok(was) && RewriteText(f, raw, lock) == Ok(text)
    ensures ReadText(f, text, lock.channel) == Checked(lock.(line := was.line), false)
    ensures other != lock.channel ==> ReadText(f, text, other) == ReadText(f, raw, other)
    ensures |ScanLines(text)| == |ScanLines(raw)|
    ensures i < |ScanLines(raw)| && (!EntryAt(f, ScanLines(raw), Outside, i, lock.channel) || KeyOn(f, ScanLines(raw)[i]) == {}) ==>
              ScanLines(text)[i] == ScanLines(raw)[i]
  {
    var lines := LinesOf(raw);
    NotEmpty(f, raw, lock.channel);
    SameCut(f, raw, lock);
    ReadsNewLock(f, lines, lock, was);
    if other != lock.channel { OtherChannelsKept(f, lines, lock, was, other); }
  }
}
