/** `flushAudit` itself, with a failure possible at every operation (internal/agent/agent.go). Each
    call is shown to be a run of the protocol in module Delivery. */
module Flush {
  import opened Prelude
  import opened Text
  import opened Events
  import opened AuditLog
  import opened Delivery

  datatype Outcome = Sent | Drained | Failed

  function FileName(id: string): string { id + ".json" }

  /** Some name of any is the least. */
  lemma {:induction false} LeastName(ids: set<string>)
    requires ids != {}
    ensures exists id :: id in ids && forall other :: other in ids ==> AtMost(FileName(id), FileName(other))
    decreases |ids|
  {
    var one :| one in ids;
    var rest := ids - {one};
    AtMostTotal(FileName(one), FileName(one));
    if rest == {} {
      assert ids == {one};
    } else {
      LeastName(rest);
      var least :| least in rest && forall other :: other in rest ==> AtMost(FileName(least), FileName(other));
      AtMostTotal(FileName(one), FileName(least));
      if AtMost(FileName(one), FileName(least)) {
        forall other | other in ids ensures AtMost(FileName(one), FileName(other)) {
          if other != one { AtMostTransitive(FileName(one), FileName(least), FileName(other)); }
        }
      } else {
        forall other | other in ids ensures AtMost(FileName(least), FileName(other)) {}
      }
    }
  }

  predicate NameBefore(a: string, b: string) { AtMost(FileName(a), FileName(b)) && a != b }

  method SortedNames(keys: set<string>) returns (ids: seq<string>)
    ensures |ids| == |keys| && forall id :: id in ids <==> id in keys
    ensures forall i, j :: 0 <= i < j < |ids| ==> NameBefore(ids[i], ids[j])
  {
    ids := [];
    var left := keys;
    while left != {}
      invariant left <= keys && |ids| + |left| == |keys|
      invariant forall id :: id in ids <==> id in keys && id !in left
      invariant forall i, id :: 0 <= i < |ids| && id in left ==> NameBefore(ids[i], id)
      invariant forall i, j :: 0 <= i < j < |ids| ==> NameBefore(ids[i], ids[j])
      decreases |left|
    {
      LeastName(left);
      var next :| next in left && forall other :: other in left ==> AtMost(FileName(next), FileName(other));
      ids := ids + [next];
      left := left - {next};
    }
  }

  class Pipeline {
    const parse: LineParser
    const batchSize: nat
    const perFlush: nat
    const ids: nat -> string           // randomID: a stream without repetitions

    var file: LogFile                  // audit log
    var checkpoint: AuditPosition      // audit.offset
    var spool: map<string, SpoolItem>  // spool directory, one file per batch id
    var drawn: nat
    var accepted: set<string>          // event_ingest_batches
    var rowIds: set<string>            // event ids in security_events
    ghost var inserted: set<string>
    ghost var stored: seq<SecurityEvent>
    ghost var usedIds: set<string>
    ghost var network: set<EventBatch>
    ghost var replies: set<string>
    ghost var faults: nat              // operations that failed: lost messages, refused inserts, failed writes

    ghost function Snapshot(pc: Pc): State
      reads this
    {
      State(file, checkpoint, spool, pc, usedIds, network, replies, accepted, rowIds, inserted, stored)
    }

    ghost predicate FreshIds()
      reads this
    {
      && (forall i, j :: ids(i) == ids(j) ==> i == j)
      && (forall id :: id in usedIds ==> exists i :: 0 <= i < drawn && ids(i) == id)
    }

    constructor (parse: LineParser, batchSize: nat, perFlush: nat, ids: nat -> string, file: LogFile)
      requires forall i, j :: ids(i) == ids(j) ==> i == j
      ensures Init(Snapshot(Idle)) && FreshIds() && this.file == file
      ensures this.parse == parse && this.batchSize == batchSize && this.perFlush == perFlush
    {
      this.parse, this.batchSize, this.perFlush, this.ids, this.file := parse, batchSize, perFlush, ids, file;
      checkpoint, spool, drawn, accepted, rowIds := START, map[], 0, {}, {};
      inserted, stored, usedIds, network, replies, faults := {}, [], {}, {}, {}, 0;
    }

    /** `EventSpool.Pending`: every spooled item, sorted by file name. */
    method Pending() returns (items: seq<SpoolItem>)
      requires forall id :: id in spool ==> spool[id].Id() == id
      ensures Listing(spool, items)
      ensures forall i, j :: 0 <= i < j < |items| ==>
                items[i].Id() != items[j].Id() && AtMost(items[i].Id() + ".json", items[j].Id() + ".json")
    {
      var ids := SortedNames(spool.Keys);
      assert forall i :: 0 <= i < |ids| ==> ids[i] in ids;
      items := seq(|ids|, i requires 0 <= i < |ids| && ids[i] in spool reads this => spool[ids[i]]);
      forall id | id in spool ensures spool[id] in items {
        assert id in ids;
        var k :| 0 <= k < |ids| && ids[k] == id;
        assert items[k] == spool[id];
      }
    }

    /** A run of the protocol that ends in this object's state. */
    ghost predicate Ran(trace: seq<State>, pc: Pc)
      reads this
    {
      Steps(parse, trace) && Inv(parse, trace[0]) && Last(trace) == Snapshot(pc)
    }

    /** Nothing was stored since `before`, unless needed, or exactly `events`. */
    ghost predicate StoredMore(before: seq<SecurityEvent>, events: seq<SecurityEvent>, needed: bool)
      reads this
    {
      stored == before + events || (!needed && stored == before)
    }

    /** `InsertEventBatch` for a request that arrived: the unique key may refuse the events. */
    method Insert(item: SpoolItem, ghost trace: seq<State>) returns (refused: bool, ghost trace': seq<State>)
      requires Ran(trace, Sending(item, [])) && item.batch in network
      modifies this`accepted, this`rowIds, this`inserted, this`stored, this`replies
      ensures trace <= trace' && Ran(trace', Sending(item, []))
      ensures refused <==> item.Id() !in old(accepted) && !Insertable(old(rowIds), item.batch.events)
      ensures stored == if refused || item.Id() in old(accepted) then old(stored) else old(stored) + item.batch.events
      ensures !refused ==> item.Id() in replies
    {
      refused := item.Id() !in accepted && !Insertable(rowIds, item.batch.events);
      if !refused {
        replies := replies + {item.Id()};
        if item.Id() !in accepted {
          accepted, inserted := accepted + {item.Id()}, inserted + {item.Id()};
          rowIds, stored := rowIds + EventIds(item.batch.events), stored + item.batch.events;
        }
      }
      assert Deliver(Last(trace), Snapshot(Sending(item, [])), item.batch);
      trace' := Extend(parse, trace, Snapshot(Sending(item, [])));
    }

    /** `SendEvents`: the request or the reply may be lost. */
    method SendEvents(item: SpoolItem, ghost trace: seq<State>) returns (ok: bool, ghost trace': seq<State>)
      requires Ran(trace, Draining([item]))
      modifies this`accepted, this`rowIds, this`inserted, this`stored, this`network, this`replies, this`faults
      ensures trace <= trace' && Ran(trace', if ok then Acked(item, []) else Idle)
      ensures StoredMore(old(stored), item.batch.events, ok && item.Id() !in old(accepted))
      ensures faults >= old(faults) && (!ok ==> faults > old(faults))
    {
      network := network + {item.batch};
      assert [item][1..] == [];
      assert SendNext(Last(trace), Snapshot(Sending(item, [])));
      trace' := Extend(parse, trace, Snapshot(Sending(item, [])));
      if * {
        faults := faults + 1;
        trace' := Stopped(parse, trace');
        return false, trace';
      }
      var refused: bool;
      refused, trace' := Insert(item, trace');
      if refused {
        faults := faults + 1;
        trace' := Stopped(parse, trace');
        return false, trace';
      }
      if * {
        faults := faults + 1;
        trace' := Stopped(parse, trace');
        return false, trace';
      }
      assert Ack(Last(trace'), Snapshot(Acked(item, [])));
      trace' := Extend(parse, trace', Snapshot(Acked(item, [])));
      ok := true;
    }

    /** Send, commit the checkpoint, remove the spool file: the tail of both loops of `flushAudit`. */
    method SendCommitRemove(item: SpoolItem, ghost trace: seq<State>) returns (ok: bool, ghost trace': seq<State>)
      requires Ran(trace, Draining([item]))
      modifies this`checkpoint, this`spool, this`accepted, this`rowIds, this`inserted, this`stored, this`network, this`replies, this`faults
      ensures trace <= trace' && Ran(trace', if ok then Draining([]) else Idle)
      ensures StoredMore(old(stored), item.batch.events, ok && item.Id() !in old(accepted))
      ensures spool == (if ok then old(spool) - {item.Id()} else old(spool))
      ensures ok ==> checkpoint == item.next
      ensures faults >= old(faults) && (!ok ==> faults > old(faults))
    {
      ok, trace' := SendEvents(item, trace);
      if !ok { return; }
      if * {
        faults := faults + 1;
        trace' := Stopped(parse, trace');
        return false, trace';
      }
      checkpoint := item.next;
      assert Commit(Last(trace'), Snapshot(Committed(item, [])));
      trace' := Extend(parse, trace', Snapshot(Committed(item, [])));
      if * {
        faults := faults + 1;
        trace' := Stopped(parse, trace');
        return false, trace';
      }
      spool := spool - {item.Id()};
      assert Remove(Last(trace'), Snapshot(Draining([])));
      trace' := Extend(parse, trace', Snapshot(Draining([])));
    }

    /** Both loops of `flushAudit`: resend what is spooled, then read, spool and send until the log
        is drained or the flush has sent its share. `resent` are the rows of a batch spooled before, `read`
        the events read in this flush, from where the checkpoint stood then. */
    method FlushAudit(revision: string)
      returns (ok: bool, sent: nat, ghost trace: seq<State>,
               ghost resent: seq<SecurityEvent>, ghost start: AuditPosition, ghost read: seq<SecurityEvent>)
      requires Inv(parse, Snapshot(Idle)) && FreshIds() && batchSize > 0
      modifies this
      ensures file == old(file) && FreshIds()
      ensures Ran(trace, Idle) && trace[0] == old(Snapshot(Idle))
      ensures ok ==> sent <= perFlush && ValidPosition(file.content, ResumePosition(file, checkpoint))
      ensures ok ==> sent == perFlush || Ahead(parse, file.content, ResumePosition(file, checkpoint)) == []
      ensures start == old(checkpoint) || exists id :: id in old(spool) && start == old(spool)[id].next
      ensures resent == [] || exists id :: id in old(spool) && resent == old(spool)[id].batch.events
      ensures read != [] ==> AheadOf(start, read)
      ensures ok && read != [] ==> ReadUpTo(start, read)
      ensures Rows(revision, old(stored) + resent, stored, read, ok)
      ensures SpooledLast(revision, read) || (read == [] && forall id :: id in spool ==> id in old(spool) && spool[id] == old(spool)[id])
      ensures ok ==> sent <= |old(spool)| + |read|
      ensures faults >= old(faults) && (!ok ==> faults > old(faults))
    {
      var full: bool;
      start, read := checkpoint, [];
      ghost var items;
      ok, full, sent, trace, resent, items := Resend();
      FirstListed(old(spool), items);
      if !ok || full { return; }
      start := checkpoint;
      assert EndDrain(Last(trace), Snapshot(Filling));
      trace := Extend(parse, trace, Snapshot(Filling));
      ok, sent, trace, read := Fill(revision, sent, trace);
    }

    /** The spooled batches of an earlier flush. */
    method Resend()
      returns (ok: bool, full: bool, sent: nat, ghost trace: seq<State>, ghost resent: seq<SecurityEvent>, ghost items: seq<SpoolItem>)
      requires Inv(parse, Snapshot(Idle)) && FreshIds()
      modifies this`checkpoint, this`spool, this`accepted, this`rowIds, this`inserted, this`stored, this`network, this`replies, this`faults
      ensures FreshIds() && sent <= perFlush && sent <= |items| && (full ==> ok && sent == perFlush)
      ensures Listing(old(spool), items)
      ensures Ran(trace, if ok && !full then Draining([]) else Idle) && trace[0] == old(Snapshot(Idle))
      ensures stored == old(stored) + resent
      ensures resent == [] || resent == EventsOf(items)
      ensures forall id :: id in spool ==> id in old(spool) && spool[id] == old(spool)[id]
      ensures ok && !full ==> checkpoint == if items == [] then old(checkpoint) else items[0].next
      ensures ok ==> ValidPosition(file.content, ResumePosition(file, checkpoint))
      ensures faults >= old(faults) && (!ok ==> faults > old(faults))
    {
      var pending;
      pending, trace := StartDraining();
      items := pending;
      ok, full, sent, trace := Drain(pending, trace);
      resent := if stored == old(stored) then [] else EventsOf(items);
      Resumable(trace);
    }

    method StartDraining() returns (items: seq<SpoolItem>, ghost trace: seq<State>)
      requires Inv(parse, Snapshot(Idle))
      ensures Listing(spool, items) && Ran(trace, Draining(items)) && trace[0] == Snapshot(Idle)
    {
      trace := [Snapshot(Idle)];
      items := Pending();
      assert StartFlush(Last(trace), Snapshot(Draining(items)));
      trace := Extend(parse, trace, Snapshot(Draining(items)));
    }

    /** The first listed item is a spooled one. */
    static lemma FirstListed(spool: map<string, SpoolItem>, items: seq<SpoolItem>)
      requires Listing(spool, items)
      ensures EventsOf(items) == [] || exists id :: id in spool && EventsOf(items) == spool[id].batch.events
      ensures items != [] ==> exists id :: id in spool && items[0].next == spool[id].next
    {
      if items != [] {
        assert items[0] in items;
        assert items[0].Id() in spool;
      }
    }

    /** The first loop of `flushAudit`: resend spooled items, oldest name first, up to the flush's share. */
    method Drain(items: seq<SpoolItem>, ghost before: seq<State>)
      returns (ok: bool, full: bool, sent: nat, ghost trace: seq<State>)
      requires Ran(before, Draining(items)) && FreshIds()
      modifies this`checkpoint, this`spool, this`accepted, this`rowIds, this`inserted, this`stored, this`network, this`replies, this`faults
      ensures FreshIds() && sent <= perFlush && (full ==> ok && sent == perFlush)
      ensures before <= trace && Ran(trace, if ok && !full then Draining([]) else Idle)
      ensures |items| <= 1 && sent <= |items| && (ok && !full ==> sent == |items|)
      ensures StoredMore(old(stored), EventsOf(items), sent > 0 && forall it :: it in items ==> it.Id() !in old(accepted))
      ensures forall id :: id in spool ==> id in old(spool) && spool[id] == old(spool)[id]
      ensures ok && !full ==> checkpoint == if items == [] then old(checkpoint) else items[0].next
      ensures faults >= old(faults) && (!ok ==> faults > old(faults))
    {
      AtMostOnePending(items, before);
      sent, trace := 0, before;
      var i := 0;
      assert items[0..] == items;
      while i < |items|
        invariant i <= |items| && sent == i && sent <= perFlush && FreshIds()
        invariant before <= trace && Ran(trace, Draining(items[i..]))
        invariant i == 0 ==> stored == old(stored) && spool == old(spool) && checkpoint == old(checkpoint) && accepted == old(accepted)
        invariant i > 0 ==> checkpoint == items[0].next
        invariant i > 0 ==> StoredMore(old(stored), items[0].batch.events, items[0].Id() !in old(accepted))
        invariant forall id :: id in spool ==> id in old(spool) && spool[id] == old(spool)[id]
        invariant faults >= old(faults)
      {
        if sent >= perFlush {
          trace := Stopped(parse, trace);
          return true, true, sent, trace;
        }
        assert items[i..] == [items[i]];
        ok, trace := SendCommitRemove(items[i], trace);
        if !ok { return false, false, sent, trace; }
        sent := sent + 1;
        i := i + 1;
        assert items[i..] == [];
      }
      assert items[i..] == [];
      ok, full := true, false;
    }

    static ghost function EventsOf(items: seq<SpoolItem>): seq<SecurityEvent> {
      if items == [] then [] else items[0].batch.events
    }

    lemma AtMostOnePending(items: seq<SpoolItem>, trace: seq<State>)
      requires Ran(trace, Draining(items))
      ensures |items| <= 1
    {
      RunInv(parse, trace);
    }

    /** The events ahead of a checkpoint. */
    ghost function AheadAt(p: AuditPosition): seq<SecurityEvent>
      requires ValidPosition(file.content, ResumePosition(file, p))
      reads this
    {
      Ahead(parse, file.content, ResumePosition(file, p))
    }

    /** `read` comes next in the log after checkpoint `p`. */
    ghost predicate AheadOf(p: AuditPosition, read: seq<SecurityEvent>)
      reads this
    {
      ValidPosition(file.content, ResumePosition(file, p)) && read <= AheadAt(p)
    }

    /** `read` is what lies between checkpoint `p` and the present one. */
    ghost predicate ReadUpTo(p: AuditPosition, read: seq<SecurityEvent>)
      reads this
    {
      && ValidPosition(file.content, ResumePosition(file, p)) && ValidPosition(file.content, ResumePosition(file, checkpoint))
      && AheadAt(p) == read + AheadAt(checkpoint)
    }

    /** A spooled item holds the last events of `read`, stamped. */
    ghost predicate SpooledLast(revision: string, read: seq<SecurityEvent>)
      reads this
    {
      forall id :: id in spool ==> IsLast(revision, read, spool[id].batch.events) && |spool[id].batch.events| <= batchSize
    }

    lemma LastOnes(revision: string, read: seq<SecurityEvent>, raw: seq<SecurityEvent>)
      requires SpooledLast(revision, raw)
      ensures SpooledLast(revision, read + raw)
    {
      forall id | id in spool ensures IsLast(revision, read + raw, spool[id].batch.events) {
        LastGrows(revision, read, raw, spool[id].batch.events);
      }
    }

    lemma FillingIsEmpty(trace: seq<State>)
      requires Ran(trace, Filling)
      ensures spool == map[] && ReadUpTo(checkpoint, []) && accepted <= usedIds
    {
      RunInv(parse, trace);
      Resumable(trace);
    }

    /** A checkpoint reached by the protocol is a valid place to resume. */
    lemma Resumable(trace: seq<State>)
      requires Steps(parse, trace) && Inv(parse, trace[0])
      requires Last(trace) == Snapshot(Last(trace).pc)
      ensures ValidPosition(file.content, ResumePosition(file, checkpoint))
    {
      RunInv(parse, trace);
    }

    /** The second loop of `flushAudit`. `read` are the events it reads, from where the checkpoint stood. */
    method Fill(revision: string, already: nat, ghost before: seq<State>)
      returns (ok: bool, sent: nat, ghost trace: seq<State>, ghost read: seq<SecurityEvent>)
      requires Ran(before, Filling) && FreshIds() && batchSize > 0 && already <= perFlush
      modifies this
      ensures file == old(file) && FreshIds()
      ensures AheadOf(old(checkpoint), read) && (ok ==> ReadUpTo(old(checkpoint), read))
      ensures Rows(revision, old(stored), stored, read, ok) && SpooledLast(revision, read)
      ensures ok ==> spool == map[] && already <= sent <= already + |read|
      ensures faults >= old(faults) && (!ok ==> faults > old(faults))
      ensures before <= trace && Ran(trace, Idle)
      ensures ok ==> sent <= perFlush && ValidPosition(file.content, ResumePosition(file, checkpoint))
      ensures ok ==> sent == perFlush || Ahead(parse, file.content, ResumePosition(file, checkpoint)) == []
    {
      sent, trace, read := already, before, [];
      FillingIsEmpty(trace);
      while sent < perFlush
        invariant already <= sent <= already + |read| && sent <= perFlush && file == old(file) && FreshIds()
        invariant before <= trace && Ran(trace, Filling)
        invariant ReadUpTo(old(checkpoint), read) && Rows(revision, old(stored), stored, read, true) && spool == map[]
        invariant faults >= old(faults)
      {
        var outcome: Outcome;
        ghost var raw: seq<SecurityEvent>;
        ghost var rows, at := stored, checkpoint;
        outcome, trace, raw := FillOnce(revision, trace);
        RowsGrow(revision, old(stored), rows, stored, read, raw, !outcome.Failed?);
        AheadGrows(AheadAt(old(checkpoint)), read, AheadAt(at), raw);
        LastOnes(revision, read, raw);
        read := read + raw;
        if outcome.Failed? { return false, sent, trace, read; }
        if outcome.Drained? { return true, sent, trace, read; }
        sent := sent + 1;
      }
      Resumable(trace);
      trace := Stopped(parse, trace);
      ok := true;
    }

    /** One round of the second loop of `flushAudit`. `raw` are the events it reads. */
    method FillOnce(revision: string, ghost before: seq<State>)
      returns (outcome: Outcome, ghost trace: seq<State>, ghost raw: seq<SecurityEvent>)
      requires Ran(before, Filling) && FreshIds() && batchSize > 0
      modifies this
      ensures file == old(file) && FreshIds()
      ensures |raw| <= batchSize && (outcome.Sent? ==> raw != []) && (outcome.Drained? ==> raw == [])
      ensures AheadOf(old(checkpoint), raw) && (!outcome.Failed? ==> spool == map[] && ReadUpTo(old(checkpoint), raw))
      ensures Rows(revision, old(stored), stored, raw, !outcome.Failed?) && SpooledLast(revision, raw)
      ensures faults >= old(faults) && (outcome.Failed? ==> faults > old(faults))
      ensures before <= trace && Ran(trace, if outcome.Sent? then Filling else Idle)
      ensures outcome.Drained? ==> ValidPosition(file.content, ResumePosition(file, checkpoint))
                                   && Ahead(parse, file.content, ResumePosition(file, checkpoint)) == []
    {
      FillingIsEmpty(before);
      raw := [];
      var ok: bool;
      var events, next;
      ok, events, next := ReadAhead(before);
      if !ok {
        trace := Stopped(parse, before);
        return Failed, trace, raw;
      }
      raw := events;
      if events == [] {
        ok, trace := Finish(next, before);
        return if ok then Drained else Failed, trace, raw;
      }
      ok, trace := SpoolAndSend(revision, events, next, before);
      outcome := if ok then Sent else Failed;
    }

    /** `ReadBatch` from the checkpoint. */
    method ReadAhead(ghost trace: seq<State>) returns (ok: bool, events: seq<SecurityEvent>, next: AuditPosition)
      requires Ran(trace, Filling) && batchSize > 0
      modifies this`faults
      ensures faults == if ok then old(faults) else old(faults) + 1
      ensures ok ==> |events| <= batchSize && Resumed(parse, Snapshot(Filling), events, next)
      ensures ok ==> ResumePosition(file, next) == next && AheadAt(checkpoint) == events + AheadAt(next)
      ensures ok && events == [] ==> LineEnd(file.content, next.offset).None?
    {
      Resumable(trace);
      var r := ReadBatch(parse, file, checkpoint, batchSize);
      if r.Err? {
        faults := faults + 1;
        return false, [], checkpoint;
      }
      ok, events, next := true, r.value.events, r.value.next;
      PassedIsAhead(parse, file.content, ResumePosition(file, checkpoint), events, next);
    }

    /** A new batch is stamped, and spooled before it is sent. */
    method SpoolAndSend(revision: string, raw: seq<SecurityEvent>, next: AuditPosition, ghost before: seq<State>)
      returns (ok: bool, ghost trace: seq<State>)
      requires Ran(before, Filling) && FreshIds() && raw != [] && |raw| <= batchSize
      requires Resumed(parse, Snapshot(Filling), raw, next)
      modifies this
      ensures file == old(file) && FreshIds()
      ensures before <= trace && Ran(trace, if ok then Filling else Idle)
      ensures Rows(revision, old(stored), stored, raw, ok) && SpooledLast(revision, raw)
      ensures ok ==> spool == map[] && checkpoint == next
      ensures faults >= old(faults) && (!ok ==> faults > old(faults))
    {
      FillingIsEmpty(before);
      assert raw[0..] == raw;
      var item := SpoolItem(EventBatch(ids(drawn), Stamp(raw, revision)), next);
      ok, trace := Spool(item, raw, before);
      if !ok {
        assert raw[..0] == [];
        return;
      }
      assert spool == map[item.Id() := item];
      ok, trace := SendCommitRemove(item, trace);
      RowsOnce(revision, old(stored), stored, raw, item.batch.events, ok);
      if ok {
        assert EndDrain(Last(trace), Snapshot(Filling));
        trace := Extend(parse, trace, Snapshot(Filling));
      }
    }

    /** Nothing left to send: the position after event-free lines is still committed. */
    method Finish(next: AuditPosition, ghost trace: seq<State>) returns (ok: bool, ghost trace': seq<State>)
      requires Ran(trace, Filling) && FreshIds()
      requires Resumed(parse, Snapshot(Filling), [], next) && LineEnd(file.content, next.offset).None?
      modifies this`checkpoint, this`faults
      ensures trace <= trace' && Ran(trace', Idle) && FreshIds()
      ensures faults >= old(faults) && (!ok ==> faults > old(faults))
      ensures ok ==> ReadUpTo(old(checkpoint), [])
      ensures ok ==> ValidPosition(file.content, ResumePosition(file, checkpoint))
                     && Ahead(parse, file.content, ResumePosition(file, checkpoint)) == []
    {
      Resumable(trace);
      AtEnd(parse, file.content, ResumePosition(file, checkpoint), [], next);
      if !next.Empty() {
        if * {
          faults := faults + 1;
          trace' := Stopped(parse, trace);
          return false, trace';
        }
        checkpoint := next;
      }
      assert ReadNothing(parse, Last(trace), Snapshot(Idle));
      trace' := Extend(parse, trace, Snapshot(Idle));
      ok := true;
    }

    /** `EventSpool.Put` of a freshly read batch; it fails when the spool is full or the write fails. */
    method Spool(item: SpoolItem, ghost raw: seq<SecurityEvent>, ghost trace: seq<State>)
      returns (ok: bool, ghost trace': seq<State>)
      requires Ran(trace, Filling) && FreshIds()
      requires item.Id() == ids(drawn) && raw != [] && UnstampedAll(item.batch.events) == UnstampedAll(raw)
      requires Resumed(parse, Snapshot(Filling), raw, item.next)
      modifies this`spool, this`drawn, this`usedIds, this`faults
      ensures trace <= trace' && Ran(trace', if ok then Draining([item]) else Idle) && FreshIds()
      ensures spool == (if ok then old(spool)[item.Id() := item] else old(spool))
      ensures faults >= old(faults) && (!ok ==> faults > old(faults))
    {
      ReadStep(parse, Last(trace), item, raw);
      trace' := Extend(parse, trace, Snapshot(HaveBatch(item)));
      drawn := drawn + 1;
      if * {
        faults := faults + 1;
        trace' := Stopped(parse, trace');
        return false, trace';
      }
      spool := spool[item.Id() := item];
      usedIds := usedIds + {item.Id()};
      assert ids(drawn - 1) == item.Id();
      assert Put(Last(trace'), Snapshot(Draining([item])));
      trace' := Extend(parse, trace', Snapshot(Draining([item])));
      ok := true;
    }
  }

  /** `events` are `raw` with `revision` on those that carried none. */
  ghost predicate Stamped(revision: string, raw: seq<SecurityEvent>, events: seq<SecurityEvent>) {
    && UnstampedAll(events) == UnstampedAll(raw)
    && forall i :: 0 <= i < |raw| ==>
         events[i].policyRevision == if raw[i].policyRevision == "" then revision else raw[i].policyRevision
  }

  /** The rows added to `before` are the first events of `read`, stamped: all of them when `whole`. */
  ghost predicate Rows(revision: string, before: seq<SecurityEvent>, after: seq<SecurityEvent>, read: seq<SecurityEvent>, whole: bool) {
    && before <= after && |after| - |before| <= |read| && (whole ==> |after| - |before| == |read|)
    && Stamped(revision, read[..|after| - |before|], after[|before|..])
  }

  ghost predicate IsLast(revision: string, read: seq<SecurityEvent>, events: seq<SecurityEvent>) {
    |events| <= |read| && Stamped(revision, read[|read| - |events|..], events)
  }

  lemma {:induction false} ReadStep(parse: LineParser, s: State, item: SpoolItem, raw: seq<SecurityEvent>)
    requires s.pc.Filling? && item.Id() !in s.usedIds && raw != []
    requires UnstampedAll(item.batch.events) == UnstampedAll(raw) && Resumed(parse, s, raw, item.next)
    ensures Next(parse, s, s.(pc := HaveBatch(item)))
  {
    assert Read(parse, s, s.(pc := HaveBatch(item)));
  }

  /** The policy revision goes on every event that has none yet. */
  function Stamp(events: seq<SecurityEvent>, revision: string): (r: seq<SecurityEvent>)
    ensures Stamped(revision, events, r)
  {
    seq(|events|, i requires 0 <= i < |events| =>
      if events[i].policyRevision == "" then events[i].(policyRevision := revision) else events[i])
  }

  /** Stamped rows of one read after those of an earlier one. */
  lemma {:induction false} RowsGrow(revision: string, before: seq<SecurityEvent>, mid: seq<SecurityEvent>, after: seq<SecurityEvent>,
                                    read: seq<SecurityEvent>, raw: seq<SecurityEvent>, whole: bool)
    requires Rows(revision, before, mid, read, true) && Rows(revision, mid, after, raw, whole)
    ensures Rows(revision, before, after, read + raw, whole)
  {
    var n := |after| - |mid|;
    assert after[|before|..] == mid[|before|..] + after[|mid|..];
    assert (read + raw)[..|read| + n] == read + raw[..n];
    assert read[..|read|] == read;
    UnstampedAppend(read, raw[..n]);
    UnstampedAppend(mid[|before|..], after[|mid|..]);
  }

  /** The rows of one batch: all of them or none. */
  lemma {:induction false} RowsOnce(revision: string, before: seq<SecurityEvent>, after: seq<SecurityEvent>,
                                    raw: seq<SecurityEvent>, events: seq<SecurityEvent>, whole: bool)
    requires Stamped(revision, raw, events) && (after == before + events || (!whole && after == before))
    ensures Rows(revision, before, after, raw, whole)
  {
    if after == before + events {
      assert after[|before|..] == events;
      assert raw[..|raw|] == raw;
    }
  }

  lemma {:induction false} LastGrows(revision: string, read: seq<SecurityEvent>, raw: seq<SecurityEvent>, events: seq<SecurityEvent>)
    requires IsLast(revision, raw, events)
    ensures IsLast(revision, read + raw, events)
  {
    assert (read + raw)[|read + raw| - |events|..] == raw[|raw| - |events|..];
  }

  /** The events passed are those just ahead. */
  lemma {:induction false} PassedIsAhead(parse: LineParser, log: seq<byte>, from: AuditPosition, raw: seq<SecurityEvent>, p: AuditPosition)
    requires Passed(parse, log, from, raw, p)
    ensures Ahead(parse, log, from) == raw + Ahead(parse, log, p)
  {
    DoneThenAhead(parse, log, from);
    DoneThenAhead(parse, log, p);
    SplitOff(Done(parse, log, from), Ahead(parse, log, from), raw, Ahead(parse, log, p));
  }

  lemma {:induction false} SplitOff(d: seq<SecurityEvent>, a: seq<SecurityEvent>, raw: seq<SecurityEvent>, b: seq<SecurityEvent>)
    requires d + a == d + raw + b
    ensures a == raw + b
  {
    assert a == (d + a)[|d|..];
    assert d + raw + b == d + (raw + b);
  }

  lemma {:induction false} AheadGrows(a: seq<SecurityEvent>, read: seq<SecurityEvent>, b: seq<SecurityEvent>, raw: seq<SecurityEvent>)
    requires a == read + b && raw <= b
    ensures read + raw <= a && a == read + raw + b[|raw|..]
  {
  }

  /** A run grown by one protocol step. */
  ghost function Extend(parse: LineParser, trace: seq<State>, s: State): (r: seq<State>)
    requires Steps(parse, trace) && Next(parse, Last(trace), s)
    ensures trace <= r && Steps(parse, r) && Last(r) == s
  {
    trace + [s]
  }

  ghost function Stopped(parse: LineParser, trace: seq<State>): (r: seq<State>)
    requires Steps(parse, trace)
    ensures trace <= r && Steps(parse, r) && Last(r) == Last(trace).(pc := Idle)
  {
    assert Stop(Last(trace), Last(trace).(pc := Idle));
    Extend(parse, trace, Last(trace).(pc := Idle))
  }
}
