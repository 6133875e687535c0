/** The Agent's audit reader: an append-only byte log turned into event batches through a
    checkpoint that may point inside a line (internal/agent/audit.go). */
module AuditLog {
  import opened Prelude
  import opened Events

  const NEWLINE: byte := 10

  /** `parseAuditLine`, kept abstract: some deterministic function of the bytes of a line. */
  type LineParser = seq<byte> -> seq<SecurityEvent>

  datatype LogFile = LogFile(device: nat, inode: nat, content: seq<byte>)

  datatype AuditPosition = AuditPosition(device: nat, inode: nat, offset: nat, messageOffset: nat) {
    predicate Empty() { device == 0 && inode == 0 && offset == 0 && messageOffset == 0 }
  }

  const START := AuditPosition(0, 0, 0, 0)

  // ---------------------------------------------------------------- lines and events of a log

  /** One past the first newline at or after `from`; None when the last line is still being written. */
  function LineEnd(log: seq<byte>, from: nat): (r: Option<nat>)
    requires from <= |log|
    ensures r.Some? ==> from < r.value <= |log| && log[r.value - 1] == NEWLINE
    ensures r.Some? ==> forall i :: from <= i < r.value - 1 ==> log[i] != NEWLINE
    ensures r.None? ==> forall i :: from <= i < |log| ==> log[i] != NEWLINE
    decreases |log| - from
  {
    if from == |log| then None
    else if log[from] == NEWLINE then Some(from + 1)
    else LineEnd(log, from + 1)
  }

  /** Events of the complete lines that start in [from, stop). */
  ghost function Between(parse: LineParser, log: seq<byte>, from: nat, stop: nat): seq<SecurityEvent>
    requires from <= |log|
    decreases |log| - from
  {
    if from >= stop then [] else
    match LineEnd(log, from)
    case None => []
    case Some(end) => parse(log[from..end - 1]) + Between(parse, log, end, stop)
  }

  /** All events of the complete lines of a log, in order. */
  ghost function Flat(parse: LineParser, log: seq<byte>): seq<SecurityEvent> {
    Between(parse, log, 0, |log|)
  }

  predicate LineStart(log: seq<byte>, offset: nat) {
    offset <= |log| && (offset == 0 || log[offset - 1] == NEWLINE)
  }

  /** Events of the line that starts at `offset`, once that line is complete. */
  function LineEvents(parse: LineParser, log: seq<byte>, offset: nat): seq<SecurityEvent>
    requires offset <= |log|
  {
    match LineEnd(log, offset)
    case None => []
    case Some(end) => parse(log[offset..end - 1])
  }

  function Min(a: nat, b: nat): nat { if a < b then a else b }

  predicate ValidPosition(log: seq<byte>, p: AuditPosition) {
    LineStart(log, p.offset) && (p.messageOffset > 0 ==> LineEnd(log, p.offset).Some?)
  }

  /** The events a position has passed: its length is the abstract event counter. */
  ghost function Done(parse: LineParser, log: seq<byte>, p: AuditPosition): seq<SecurityEvent>
    requires ValidPosition(log, p)
  {
    var line := LineEvents(parse, log, p.offset);
    Between(parse, log, 0, p.offset) + line[..Min(p.messageOffset, |line|)]
  }

  /** The events still ahead of a position. */
  ghost function Ahead(parse: LineParser, log: seq<byte>, p: AuditPosition): seq<SecurityEvent>
    requires ValidPosition(log, p)
  {
    Between(parse, log, p.offset, |log|)[Min(p.messageOffset, |LineEvents(parse, log, p.offset)|)..]
  }

  // ---------------------------------------------------------------- facts about lines

  /** A line start cuts the event sequence in two. */
  lemma {:induction false} BetweenSplits(parse: LineParser, log: seq<byte>, from: nat, cut: nat, stop: nat)
    requires from <= cut <= stop && LineStart(log, cut)
    ensures Between(parse, log, from, stop) == Between(parse, log, from, cut) + Between(parse, log, cut, stop)
    decreases cut - from
  {
    if from < cut {
      assert log[cut - 1] == NEWLINE;
      var end := LineEnd(log, from).value;
      BetweenSplits(parse, log, end, cut, stop);
    }
  }

  /** The events from an offset on begin with those of the line there. */
  lemma LineFirst(parse: LineParser, log: seq<byte>, offset: nat)
    requires offset <= |log|
    ensures LineEvents(parse, log, offset) <= Between(parse, log, offset, |log|)
  {
  }

  /** Passed and remaining events make up the whole log. */
  lemma DoneThenAhead(parse: LineParser, log: seq<byte>, p: AuditPosition)
    requires ValidPosition(log, p)
    ensures Flat(parse, log) == Done(parse, log, p) + Ahead(parse, log, p)
  {
    BetweenSplits(parse, log, 0, p.offset, |log|);
    LineFirst(parse, log, p.offset);
  }

  /** Passing the complete line at an offset adds exactly its events. */
  lemma PassLine(parse: LineParser, log: seq<byte>, offset: nat, end: nat)
    requires LineStart(log, offset) && LineEnd(log, offset) == Some(end)
    ensures Between(parse, log, 0, end) == Between(parse, log, 0, offset) + LineEvents(parse, log, offset)
  {
    BetweenSplits(parse, log, 0, offset, end);
    assert Between(parse, log, end, end) == [];
  }

  /** From `from` to `p` exactly `events` were passed. */
  ghost predicate Passed(parse: LineParser, log: seq<byte>, from: AuditPosition, events: seq<SecurityEvent>, p: AuditPosition) {
    ValidPosition(log, from) && ValidPosition(log, p) && Done(parse, log, p) == Done(parse, log, from) + events
  }

  lemma Regroup<T>(before: seq<T>, line: seq<T>, m: nat, n: nat, passed: seq<T>, events: seq<T>, part: seq<T>)
    requires m <= n <= |line| && before + line[..m] == passed + events
    requires part == line[m..n]
    ensures before + line[..n] == passed + (events + part)
  {
    assert line[..n] == line[..m] + part;
    assert before + line[..n] == (before + line[..m]) + part;
  }

  /** Moving from inside a line to its end passes the rest of the line. */
  lemma FinishLine(parse: LineParser, log: seq<byte>, from: AuditPosition, events: seq<SecurityEvent>,
                   p: AuditPosition, end: nat, unread: seq<SecurityEvent>)
    requires Passed(parse, log, from, events, p) && LineEnd(log, p.offset) == Some(end)
    requires var line := LineEvents(parse, log, p.offset);
             unread == if p.messageOffset >= |line| then [] else line[p.messageOffset..]
    ensures Passed(parse, log, from, events + unread, p.(offset := end, messageOffset := 0))
  {
    PassLine(parse, log, p.offset, end);
    var line := LineEvents(parse, log, p.offset);
    Regroup(Between(parse, log, 0, p.offset), line, Min(p.messageOffset, |line|), |line|,
            Done(parse, log, from), events, unread);
  }

  /** Moving inside a line passes the events in between. */
  lemma AdvanceInLine(parse: LineParser, log: seq<byte>, from: AuditPosition, events: seq<SecurityEvent>,
                      p: AuditPosition, count: nat, unread: seq<SecurityEvent>)
    requires Passed(parse, log, from, events, p) && LineEnd(log, p.offset).Some?
    requires p.messageOffset <= |LineEvents(parse, log, p.offset)|
    requires unread == LineEvents(parse, log, p.offset)[p.messageOffset..] && count <= |unread|
    ensures Passed(parse, log, from, events + unread[..count], p.(messageOffset := p.messageOffset + count))
  {
    var line := LineEvents(parse, log, p.offset);
    Regroup(Between(parse, log, 0, p.offset), line, p.messageOffset, p.messageOffset + count,
            Done(parse, log, from), events, unread[..count]);
  }

  lemma SliceOfPrefix(log: seq<byte>, longer: seq<byte>, i: nat, j: nat)
    requires log <= longer && i <= j <= |log|
    ensures longer[i..j] == log[i..j]
  {
  }

  lemma {:induction false} LineEndExtends(log: seq<byte>, longer: seq<byte>, from: nat)
    requires log <= longer && from <= |log| && LineEnd(log, from).Some?
    ensures LineEnd(longer, from) == LineEnd(log, from)
    decreases |log| - from
  {
    if log[from] != NEWLINE {
      LineEndExtends(log, longer, from + 1);
    }
  }

  lemma {:induction false} BetweenExtends(parse: LineParser, log: seq<byte>, longer: seq<byte>, from: nat, stop: nat)
    requires log <= longer && from <= stop && LineStart(log, stop)
    ensures Between(parse, longer, from, stop) == Between(parse, log, from, stop)
    decreases stop - from
  {
    if from < stop {
      assert log[stop - 1] == NEWLINE;
      var end := LineEnd(log, from).value;
      LineEndExtends(log, longer, from);
      BetweenExtends(parse, log, longer, end, stop);
      assert longer[from..end - 1] == log[from..end - 1] by { SliceOfPrefix(log, longer, from, end - 1); }
    }
  }

  lemma LineEventsExtend(parse: LineParser, log: seq<byte>, longer: seq<byte>, offset: nat)
    requires log <= longer && offset <= |log| && LineEnd(log, offset).Some?
    ensures LineEnd(longer, offset) == LineEnd(log, offset)
    ensures LineEvents(parse, longer, offset) == LineEvents(parse, log, offset)
  {
    LineEndExtends(log, longer, offset);
    SliceOfPrefix(log, longer, offset, LineEnd(log, offset).value - 1);
  }

  /** Appending to the log moves no position. */
  lemma AppendKeepsPositions(parse: LineParser, log: seq<byte>, longer: seq<byte>, p: AuditPosition)
    requires log <= longer && ValidPosition(log, p)
    ensures ValidPosition(longer, p)
    ensures Done(parse, longer, p) == Done(parse, log, p)
  {
    BetweenExtends(parse, log, longer, 0, p.offset);
    if p.messageOffset > 0 {
      LineEventsExtend(parse, log, longer, p.offset);
    }
  }

  /** With only an unfinished line left, what was passed is all that was ahead. */
  lemma AtEnd(parse: LineParser, log: seq<byte>, from: AuditPosition, events: seq<SecurityEvent>, p: AuditPosition)
    requires Passed(parse, log, from, events, p) && LineEnd(log, p.offset).None?
    ensures events == Ahead(parse, log, from)
  {
    DoneThenAhead(parse, log, from);
    DoneThenAhead(parse, log, p);
    assert Ahead(parse, log, p) == [];
    var d := Done(parse, log, from);
    assert events == (d + events)[|d|..];
    assert Ahead(parse, log, from) == (d + Ahead(parse, log, from))[|d|..];
  }

  // ---------------------------------------------------------------- the reader

  /** Where reading starts: a replaced or truncated file is read again from its beginning. */
  function ResumePosition(file: LogFile, p: AuditPosition): AuditPosition {
    var replaced := (p.device != 0 || p.inode != 0) && (p.device != file.device || p.inode != file.inode);
    var q := if replaced || |file.content| < p.offset then START else p;
    q.(device := file.device, inode := file.inode)
  }

  /** Reading goes on where the position says exactly in the same file with that much in it. */
  lemma {:induction false} ResumesInSameFile(file: LogFile, p: AuditPosition)
    ensures p.device == file.device && p.inode == file.inode && p.offset <= |file.content| ==> ResumePosition(file, p) == p
    ensures p.device == 0 && p.inode == 0 && p.offset <= |file.content| ==>
              ResumePosition(file, p) == AuditPosition(file.device, file.inode, p.offset, p.messageOffset)
    ensures !(p.device == 0 && p.inode == 0) && !(p.device == file.device && p.inode == file.inode) ==>
              ResumePosition(file, p) == AuditPosition(file.device, file.inode, 0, 0)
    ensures p.offset > |file.content| ==> ResumePosition(file, p) == AuditPosition(file.device, file.inode, 0, 0)
  {
  }

  datatype Batch = Batch(events: seq<SecurityEvent>, next: AuditPosition)

  /** The batch is full, or there is no further complete line, or its events do not fit. */
  predicate AsManyAsFit(parse: LineParser, log: seq<byte>, events: seq<SecurityEvent>, next: AuditPosition, limit: nat)
    requires next.offset <= |log|
  {
    |events| == limit || LineEnd(log, next.offset).None? || |events| + |LineEvents(parse, log, next.offset)| > limit
  }

  /** A batch that stops inside a line holds events of that line only. */
  predicate OneLongLine(parse: LineParser, log: seq<byte>, events: seq<SecurityEvent>, next: AuditPosition, limit: nat)
    requires next.offset <= |log|
  {
    var line := LineEvents(parse, log, next.offset);
    |events| == limit <= next.messageOffset <= |line| && events == line[next.messageOffset - limit..next.messageOffset]
  }

  /** `ReadBatch` on an opened file. A read error may occur at any line and discards the batch. */
  method ReadBatch(parse: LineParser, file: LogFile, checkpoint: AuditPosition, limit: nat)
    returns (r: Result<Batch>)
    requires ValidPosition(file.content, ResumePosition(file, checkpoint))
    ensures r.Ok? ==>
      var log := file.content; var start := ResumePosition(file, checkpoint);
      && Passed(parse, log, start, r.value.events, r.value.next)
      && r.value.next.device == file.device && r.value.next.inode == file.inode
      && |r.value.events| <= limit
      && (limit > 0 && Ahead(parse, log, start) != [] ==> r.value.events != [])
      && (r.value.events == [] && limit > 0 ==> LineEnd(log, r.value.next.offset).None?)
      && AsManyAsFit(parse, log, r.value.events, r.value.next, limit)
      && (r.value.events != [] && r.value.next.messageOffset > 0 ==> OneLongLine(parse, log, r.value.events, r.value.next, limit))
  {
    var log := file.content;
    var position := ResumePosition(file, checkpoint);
    var events: seq<SecurityEvent> := [];
    var next := position;
    while true
      invariant Passed(parse, log, position, events, next)
      invariant next.device == file.device && next.inode == file.inode
      invariant events != [] ==> next.messageOffset == 0
      invariant |events| <= limit && (limit > 0 ==> |events| < limit)
      decreases |log| - next.offset
    {
      var end := LineEnd(log, next.offset);
      if end.None? {
        AtEnd(parse, log, position, events, next);
        break;
      }
      if * { return Err("read audit log"); }
      var parsed := parse(log[next.offset..end.value - 1]);
      if next.messageOffset > 0 {
        if next.messageOffset >= |parsed| {
          FinishLine(parse, log, position, events, next, end.value, []);
          next := next.(offset := end.value, messageOffset := 0);
          continue;
        }
        parsed := parsed[next.messageOffset..];
      }
      var remaining := limit - |events|;
      if |parsed| > remaining {
        if |events| > 0 { break; }
        AdvanceInLine(parse, log, position, events, next, remaining, parsed);
        events := events + parsed[..remaining];
        next := next.(messageOffset := next.messageOffset + remaining);
        break;
      }
      FinishLine(parse, log, position, events, next, end.value, parsed);
      next := next.(offset := end.value, messageOffset := 0);
      events := events + parsed;
      if |events| >= limit { break; }
    }
    r := Ok(Batch(events, next));
  }
}
