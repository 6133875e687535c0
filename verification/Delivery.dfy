/** The event delivery protocol between one Agent and the Manager: read, spool, send, commit, remove
    on the Agent (internal/agent/agent.go, spool.go), deduplicated insertion on the Manager
    (internal/manager/store.go). Requests and replies may be lost, delayed or duplicated, and the
    Agent may stop at any point and start again from its files. */
module Delivery {
  import opened Prelude
  import opened Events
  import opened AuditLog

  datatype SpoolItem = SpoolItem(batch: EventBatch, next: AuditPosition) {
    function Id(): string { batch.batchId }
  }

  /** Where `flushAudit` is; everything else in the state survives a restart. */
  datatype Pc =
    | Idle
    | Draining(items: seq<SpoolItem>)                  // spooled items still to send in this flush
    | Filling                                          // about to read the log
    | HaveBatch(item: SpoolItem)                       // read and numbered, not yet spooled
    | Sending(item: SpoolItem, rest: seq<SpoolItem>)   // request sent, no reply yet
    | Acked(item: SpoolItem, rest: seq<SpoolItem>)     // reply received, checkpoint not yet written
    | Committed(item: SpoolItem, rest: seq<SpoolItem>) // checkpoint written, spool file still there

  datatype State = State(
    file: LogFile, checkpoint: AuditPosition, spool: map<string, SpoolItem>, pc: Pc,  // Agent
    usedIds: set<string>,                                                             // ids drawn so far
    network: set<EventBatch>, replies: set<string>,                                   // in flight
    accepted: set<string>, rowIds: set<string>,        // Manager: batch records and event ids of rows, until pruned
    inserted: set<string>, stored: seq<SecurityEvent>) // all batches and events ever inserted

  // ---------------------------------------------------------------- steps

  ghost predicate Append(s: State, s': State) {
    && s.file.content <= s'.file.content
    && s' == s.(file := s.file.(content := s'.file.content))
  }

  ghost predicate Listing(spool: map<string, SpoolItem>, items: seq<SpoolItem>) {
    && |items| == |spool|
    && (forall it :: it in items ==> it.Id() in spool && spool[it.Id()] == it)
    && (forall id :: id in spool ==> spool[id] in items)
  }

  ghost predicate StartFlush(s: State, s': State) {
    && s.pc.Idle? && s'.pc.Draining? && Listing(s.spool, s'.pc.items)
    && s' == s.(pc := s'.pc)
  }

  ghost predicate SendNext(s: State, s': State) {
    && s.pc.Draining? && s.pc.items != []
    && s' == s.(pc := Sending(s.pc.items[0], s.pc.items[1..]), network := s.network + {s.pc.items[0].batch})
  }

  ghost predicate EndDrain(s: State, s': State) {
    s.pc == Draining([]) && s' == s.(pc := Filling)
  }

  ghost predicate Read(parse: LineParser, s: State, s': State) {
    && s.pc.Filling? && s'.pc.HaveBatch? && s' == s.(pc := s'.pc)
    && s'.pc.item.Id() !in s.usedIds
    && exists raw ::
         && raw != [] && UnstampedAll(s'.pc.item.batch.events) == UnstampedAll(raw)
         && Resumed(parse, s, raw, s'.pc.item.next)
  }

  ghost predicate ReadNothing(parse: LineParser, s: State, s': State) {
    && s.pc.Filling?
    && (s'.checkpoint == s.checkpoint || Resumed(parse, s, [], s'.checkpoint))
    && s' == s.(pc := Idle, checkpoint := s'.checkpoint)
  }

  /** A read of the current file from the checkpoint produced `raw` and stopped at `next`. */
  ghost predicate Resumed(parse: LineParser, s: State, raw: seq<SecurityEvent>, next: AuditPosition) {
    && Passed(parse, s.file.content, ResumePosition(s.file, s.checkpoint), raw, next)
    && next.device == s.file.device && next.inode == s.file.inode
  }

  ghost predicate Put(s: State, s': State) {
    && s.pc.HaveBatch?
    && s' == s.(pc := Draining([s.pc.item]), spool := s.spool[s.pc.item.Id() := s.pc.item],
                usedIds := s.usedIds + {s.pc.item.Id()})
  }

  function EventIds(events: seq<SecurityEvent>): set<string> { set e | e in events :: e.eventId }

  predicate DistinctIds(events: seq<SecurityEvent>) {
    forall i, j :: 0 <= i < j < |events| ==> events[i].eventId != events[j].eventId
  }

  /** The unique key on agent and event id lets the rows in. */
  predicate Insertable(rowIds: set<string>, events: seq<SecurityEvent>) {
    DistinctIds(events) && forall e :: e in events ==> e.eventId !in rowIds
  }

  /** `InsertEventBatch`: one transaction that inserts the events only for a batch id without a record; when
      the unique key refuses one of them everything is rolled back, and the reply is an error. */
  ghost predicate Deliver(s: State, s': State, m: EventBatch) {
    && m in s.network
    && s' == (if m.batchId in s.accepted then s.(replies := s.replies + {m.batchId})
              else if Insertable(s.rowIds, m.events) then
                s.(accepted := s.accepted + {m.batchId}, rowIds := s.rowIds + EventIds(m.events),
                   inserted := s.inserted + {m.batchId}, stored := s.stored + m.events, replies := s.replies + {m.batchId})
              else s)
  }

  ghost predicate Drop(s: State, s': State) {
    && s'.network <= s.network && s'.replies <= s.replies
    && s' == s.(network := s'.network, replies := s'.replies)
  }

  ghost predicate Ack(s: State, s': State) {
    && s.pc.Sending? && s.pc.item.Id() in s.replies
    && s' == s.(pc := Acked(s.pc.item, s.pc.rest))
  }

  ghost predicate Commit(s: State, s': State) {
    && s.pc.Acked?
    && s' == s.(pc := Committed(s.pc.item, s.pc.rest), checkpoint := s.pc.item.next)
  }

  ghost predicate Remove(s: State, s': State) {
    && s.pc.Committed?
    && s' == s.(pc := Draining(s.pc.rest), spool := s.spool - {s.pc.item.Id()})
  }

  /** An error return, a finished flush, a crash or a restart. */
  ghost predicate Stop(s: State, s': State) {
    s' == s.(pc := Idle)
  }

  /** A batch that may still be delivered. */
  ghost predicate Pending(s: State, m: EventBatch) {
    m in s.network || (m.batchId in s.spool && s.spool[m.batchId].batch == m)
  }

  /** The Manager can still tell that it has a batch: by its record or by a row of one of its events. */
  ghost predicate Remembered(s: State, m: EventBatch) {
    m.batchId in s.accepted || exists e :: e in m.events && e.eventId in s.rowIds
  }

  /** `PruneEventBatches` and `PruneEvents`, as long as batches that were inserted and may come again are remembered. */
  ghost predicate Prune(s: State, s': State) {
    && s'.accepted <= s.accepted && s'.rowIds <= s.rowIds
    && s' == s.(accepted := s'.accepted, rowIds := s'.rowIds)
    && forall m :: Pending(s, m) && m.batchId in s.inserted ==> Remembered(s', m)
  }

  ghost predicate Next(parse: LineParser, s: State, s': State) {
    || Append(s, s') || StartFlush(s, s') || SendNext(s, s') || EndDrain(s, s')
    || Read(parse, s, s') || ReadNothing(parse, s, s') || Put(s, s')
    || (exists m :: Deliver(s, s', m)) || Drop(s, s')
    || Ack(s, s') || Commit(s, s') || Remove(s, s') || Stop(s, s')
    || Prune(s, s')
  }

  ghost predicate Init(s: State) {
    && s.checkpoint == START && s.spool == map[] && s.pc == Idle && s.usedIds == {}
    && s.network == {} && s.replies == {} && s.accepted == {} && s.rowIds == {} && s.inserted == {} && s.stored == []
  }

  ghost predicate Steps(parse: LineParser, trace: seq<State>) {
    |trace| > 0 && forall i :: 0 <= i < |trace| - 1 ==> Next(parse, trace[i], trace[i + 1])
  }

  // ---------------------------------------------------------------- the invariant

  ghost predicate Positioned(s: State, p: AuditPosition) {
    && ValidPosition(s.file.content, p)
    && ((p.device == 0 && p.inode == 0) || (p.device == s.file.device && p.inode == s.file.inode))
  }

  /** The unstamped events before a position. */
  ghost function Seen(parse: LineParser, s: State, p: AuditPosition): seq<SecurityEvent>
    requires ValidPosition(s.file.content, p)
  {
    UnstampedAll(Done(parse, s.file.content, p))
  }

  /** `item` is the slice of the log that starts at the checkpoint. */
  ghost predicate NextSlice(parse: LineParser, s: State, item: SpoolItem) {
    && Positioned(s, s.checkpoint) && Positioned(s, item.next)
    && Seen(parse, s, item.next) == Seen(parse, s, s.checkpoint) + UnstampedAll(item.batch.events)
  }

  /** A spooled item is the next slice, not stored yet, or it is already stored. */
  ghost predicate Accounted(parse: LineParser, s: State, item: SpoolItem) {
    && Positioned(s, s.checkpoint) && Positioned(s, item.next)
    && (item.Id() !in s.inserted ==>
          NextSlice(parse, s, item) && UnstampedAll(s.stored) == Seen(parse, s, s.checkpoint))
    && (item.Id() in s.inserted ==>
          (NextSlice(parse, s, item) || s.checkpoint == item.next) && UnstampedAll(s.stored) == Seen(parse, s, item.next))
  }

  ghost predicate Holds(s: State, item: SpoolItem) {
    s.spool == map[item.Id() := item]
  }

  ghost predicate SpoolInv(parse: LineParser, s: State) {
    && Positioned(s, s.checkpoint)
    && (s.spool == map[] || exists item :: Holds(s, item) && item.Id() in s.usedIds && Accounted(parse, s, item))
    && (s.spool == map[] ==> UnstampedAll(s.stored) == Seen(parse, s, s.checkpoint))
  }

  ghost predicate NetInv(s: State) {
    && (forall m :: m in s.network ==>
          m.batchId in s.usedIds
          && (m.batchId in s.inserted || (m.batchId in s.spool && s.spool[m.batchId].batch == m)))
    && (forall id :: id in s.replies && id in s.spool ==> id in s.inserted)
    && s.replies <= s.usedIds && s.accepted <= s.inserted <= s.usedIds
    && (forall m :: Pending(s, m) && m.batchId in s.inserted ==> Remembered(s, m))
  }

  ghost predicate PcInv(parse: LineParser, s: State) {
    match s.pc
    case Idle => true
    case Draining(items) => (items == [] && s.spool == map[]) || (|items| == 1 && Holds(s, items[0]))
    case Filling => s.spool == map[]
    case HaveBatch(item) => s.spool == map[] && item.Id() !in s.usedIds && NextSlice(parse, s, item)
    case Sending(item, rest) => Holds(s, item) && rest == []
    case Acked(item, rest) => Holds(s, item) && rest == [] && item.Id() in s.inserted
    case Committed(item, rest) => Holds(s, item) && rest == [] && item.Id() in s.inserted && s.checkpoint == item.next
  }

  ghost predicate Inv(parse: LineParser, s: State) {
    SpoolInv(parse, s) && NetInv(s) && PcInv(parse, s)
  }

  lemma HeldItem(parse: LineParser, s: State, item: SpoolItem)
    requires SpoolInv(parse, s) && Holds(s, item)
    ensures item.Id() in s.usedIds && Accounted(parse, s, item)
  {
    assert item.Id() in s.spool && s.spool[item.Id()] == item;
    var it :| Holds(s, it) && it.Id() in s.usedIds && Accounted(parse, s, it);
    assert it == item;
  }

  lemma InitInv(parse: LineParser, s: State)
    requires Init(s)
    ensures Inv(parse, s)
  {
  }

  lemma AppendInv(parse: LineParser, s: State, s': State)
    requires Inv(parse, s) && Append(s, s')
    ensures Inv(parse, s')
  {
    KeepsSeen(parse, s, s', s.checkpoint);
    if s.pc.HaveBatch? { KeepsSeen(parse, s, s', s.pc.item.next); }
    if s.spool != map[] {
      var item :| Holds(s, item) && item.Id() in s.usedIds && Accounted(parse, s, item);
      KeepsSeen(parse, s, s', item.next);
      assert Holds(s', item) && Accounted(parse, s', item);
    }
    AppendQuiet(s, s');
  }

  lemma KeepsSeen(parse: LineParser, s: State, s': State, p: AuditPosition)
    requires Append(s, s') && ValidPosition(s.file.content, p)
    ensures ValidPosition(s'.file.content, p) && Seen(parse, s', p) == Seen(parse, s, p)
  {
    AppendKeepsPositions(parse, s.file.content, s'.file.content, p);
  }

  lemma AppendQuiet(s: State, s': State)
    requires NetInv(s) && Append(s, s')
    ensures NetInv(s')
  {
    forall m | Pending(s', m) && m.batchId in s'.inserted ensures Remembered(s', m) { assert Pending(s, m) && Remembered(s, m); }
  }

  lemma ReadInv(parse: LineParser, s: State, s': State)
    requires Inv(parse, s) && Read(parse, s, s')
    ensures Inv(parse, s')
  {
    var raw :| raw != [] && UnstampedAll(s'.pc.item.batch.events) == UnstampedAll(raw)
               && Resumed(parse, s, raw, s'.pc.item.next);
    ResumedSlice(parse, s, raw, s'.pc.item.next);
    assert NextSlice(parse, s', s'.pc.item);
  }

  /** In a run without rotation the read starts where the checkpoint says. */
  lemma ResumedSlice(parse: LineParser, s: State, raw: seq<SecurityEvent>, next: AuditPosition)
    requires Positioned(s, s.checkpoint) && Resumed(parse, s, raw, next)
    ensures Positioned(s, next) && Seen(parse, s, next) == Seen(parse, s, s.checkpoint) + UnstampedAll(raw)
  {
    var start := ResumePosition(s.file, s.checkpoint);
    assert start.offset == s.checkpoint.offset && start.messageOffset == s.checkpoint.messageOffset;
    assert Done(parse, s.file.content, start) == Done(parse, s.file.content, s.checkpoint);
    UnstampedAppend(Done(parse, s.file.content, start), raw);
  }

  lemma ReadNothingInv(parse: LineParser, s: State, s': State)
    requires Inv(parse, s) && ReadNothing(parse, s, s')
    ensures Inv(parse, s')
  {
    if s'.checkpoint != s.checkpoint {
      ResumedSlice(parse, s, [], s'.checkpoint);
      assert Seen(parse, s', s'.checkpoint) == Seen(parse, s, s.checkpoint);
    }
  }

  lemma PutInv(parse: LineParser, s: State, s': State)
    requires Inv(parse, s) && Put(s, s')
    ensures Inv(parse, s')
  {
    var item := s.pc.item;
    assert Holds(s', item);
    assert NextSlice(parse, s', item);
    assert Accounted(parse, s', item);
  }

  lemma DeliverInv(parse: LineParser, s: State, s': State, m: EventBatch)
    requires Inv(parse, s) && Deliver(s, s', m)
    ensures Inv(parse, s')
  {
    if m.batchId in s.accepted {
      QuietSpoolInv(parse, s, s');
    } else if Insertable(s.rowIds, m.events) {
      assert m.batchId !in s.inserted;
      var item := s.spool[m.batchId];
      assert Holds(s, item) && item.batch == m;
      HeldItem(parse, s, item);
      UnstampedAppend(s.stored, m.events);
      assert Seen(parse, s', item.next) == Seen(parse, s, item.next);
      assert Holds(s', item) && Accounted(parse, s', item);
      forall x | Pending(s', x) && x.batchId in s'.inserted ensures Remembered(s', x) {
        if x.batchId != m.batchId { assert Pending(s, x) && Remembered(s, x); }
      }
    }
  }

  lemma CommitInv(parse: LineParser, s: State, s': State)
    requires Inv(parse, s) && Commit(s, s')
    ensures Inv(parse, s')
  {
    var item := s.pc.item;
    HeldItem(parse, s, item);
    assert Holds(s', item) && Accounted(parse, s', item);
  }

  lemma RemoveInv(parse: LineParser, s: State, s': State)
    requires Inv(parse, s) && Remove(s, s')
    ensures Inv(parse, s')
  {
    assert s'.spool == map[];
    assert Seen(parse, s', s'.checkpoint) == Seen(parse, s, s.checkpoint);
  }

  /** Steps that change neither the files nor what is stored. */
  lemma QuietInv(parse: LineParser, s: State, s': State)
    requires Inv(parse, s)
    requires StartFlush(s, s') || SendNext(s, s') || EndDrain(s, s') || Drop(s, s') || Ack(s, s') || Stop(s, s')
    ensures Inv(parse, s')
  {
    QuietSpoolInv(parse, s, s');
    if StartFlush(s, s') {
      ListingOfOne(s, s'.pc.items);
    } else if SendNext(s, s') {
      HeldItem(parse, s, s.pc.items[0]);
    }
  }

  lemma QuietSpoolInv(parse: LineParser, s: State, s': State)
    requires SpoolInv(parse, s)
    requires s' == s.(pc := s'.pc, network := s'.network, replies := s'.replies)
    ensures SpoolInv(parse, s')
  {
    if s.spool != map[] {
      var item :| Holds(s, item) && item.Id() in s.usedIds && Accounted(parse, s, item);
      assert Holds(s', item) && Accounted(parse, s', item);
    }
  }

  lemma ListingOfOne(s: State, items: seq<SpoolItem>)
    requires Listing(s.spool, items)
    ensures s.spool == map[] ==> items == []
    ensures forall item :: Holds(s, item) ==> |items| == 1 && items[0] == item
  {
  }

  lemma PruneInv(parse: LineParser, s: State, s': State)
    requires Inv(parse, s) && Prune(s, s')
    ensures Inv(parse, s')
  {
    if s.spool != map[] {
      var item :| Holds(s, item) && item.Id() in s.usedIds && Accounted(parse, s, item);
      assert Holds(s', item) && Accounted(parse, s', item);
    }
    forall x | Pending(s', x) && x.batchId in s'.inserted ensures Remembered(s', x) { assert Pending(s, x); }
  }

  lemma NextInv(parse: LineParser, s: State, s': State)
    requires Inv(parse, s) && Next(parse, s, s')
    ensures Inv(parse, s')
  {
    if Append(s, s') { AppendInv(parse, s, s'); }
    else if Read(parse, s, s') { ReadInv(parse, s, s'); }
    else if ReadNothing(parse, s, s') { ReadNothingInv(parse, s, s'); }
    else if Put(s, s') { PutInv(parse, s, s'); }
    else if Commit(s, s') { CommitInv(parse, s, s'); }
    else if Remove(s, s') { RemoveInv(parse, s, s'); }
    else if m :| Deliver(s, s', m) { DeliverInv(parse, s, s', m); }
    else if Prune(s, s') { PruneInv(parse, s, s'); }
    else { QuietInv(parse, s, s'); }
  }

  // ---------------------------------------------------------------- theorems over whole runs

  ghost function Last(trace: seq<State>): State
    requires |trace| > 0
  {
    trace[|trace| - 1]
  }

  lemma {:induction false} RunInv(parse: LineParser, trace: seq<State>)
    requires Steps(parse, trace) && Inv(parse, trace[0])
    ensures Inv(parse, Last(trace))
  {
    if |trace| > 1 {
      var front := trace[..|trace| - 1];
      RunInv(parse, front);
      NextInv(parse, Last(front), Last(trace));
    }
  }

  /** After any run, with any losses, duplicates and restarts, the Manager holds exactly a prefix of
      the log's events, once each and in order; it covers everything before the checkpoint; and at
      most one batch is spooled, which is the next slice of the log or is already stored. */
  lemma ExactlyOnce(parse: LineParser, trace: seq<State>)
    requires Steps(parse, trace) && Init(trace[0])
    ensures var s := Last(trace);
      && UnstampedAll(s.stored) <= UnstampedAll(Flat(parse, s.file.content))
      && ValidPosition(s.file.content, s.checkpoint)
      && Seen(parse, s, s.checkpoint) <= UnstampedAll(s.stored)
      && |s.spool| <= 1
      && (forall id :: id in s.spool ==> Accounted(parse, s, s.spool[id]))
      && (s.spool == map[] ==> UnstampedAll(s.stored) == Seen(parse, s, s.checkpoint))
  {
    InitInv(parse, trace[0]);
    RunInv(parse, trace);
    var s := Last(trace);
    SeenIsPrefix(parse, s, s.checkpoint);
    if s.spool != map[] {
      var item :| Holds(s, item) && item.Id() in s.usedIds && Accounted(parse, s, item);
      SeenIsPrefix(parse, s, item.next);
      assert forall id :: id in s.spool ==> s.spool[id] == item;
      assert |s.spool| == 1;
    }
  }

  lemma SeenIsPrefix(parse: LineParser, s: State, p: AuditPosition)
    requires ValidPosition(s.file.content, p)
    ensures Seen(parse, s, p) <= UnstampedAll(Flat(parse, s.file.content))
  {
    DoneThenAhead(parse, s.file.content, p);
    UnstampedAppend(Done(parse, s.file.content, p), Ahead(parse, s.file.content, p));
  }

  // ---------------------------------------------------------------- redelivery and the unique key

  /** A delivery of a pending batch stores its events exactly when it has no record, its event ids differ and none
      of them is in the table; it is answered exactly when it has a record or is stored. */
  lemma DeliveryStores(s: State, s': State, m: EventBatch)
    requires Deliver(s, s', m) && m.batchId !in s.replies && m.events != []
    ensures s'.stored == s.stored + m.events && s'.stored != s.stored <==> m.batchId !in s.accepted && Insertable(s.rowIds, m.events)
    ensures m.batchId in s'.replies <==> m.batchId in s.accepted || Insertable(s.rowIds, m.events)
  {
    assert |s.stored + m.events| > |s.stored|;
  }

  /** Forgetting the record of a stored batch never stores it twice while one of its rows remains: the delivery
      changes nothing and is not answered, so the item is stuck exactly while such a row is there. */
  lemma StuckWhileRowsRemain(parse: LineParser, s: State, item: SpoolItem, pruned: State, s': State)
    requires Inv(parse, s) && Holds(s, item) && item.Id() in s.inserted && DistinctIds(item.batch.events) && item.batch.events != []
    requires pruned == s.(accepted := s.accepted - {item.Id()}, rowIds := pruned.rowIds, network := s.network + {item.batch})
    requires pruned.rowIds <= s.rowIds && item.Id() !in s.replies
    requires Deliver(pruned, s', item.batch)
    ensures s' == pruned <==> exists e :: e in item.batch.events && e.eventId in pruned.rowIds
    ensures item.Id() !in s'.replies <==> exists e :: e in item.batch.events && e.eventId in pruned.rowIds
    ensures ValidPosition(s'.file.content, item.next)
    ensures s' != pruned ==> UnstampedAll(s'.stored) == Seen(parse, s', item.next) + UnstampedAll(item.batch.events)
  {
    HeldItem(parse, s, item);
    assert Seen(parse, s', item.next) == Seen(parse, s, item.next);
    DeliveryStores(pruned, s', item.batch);
    UnstampedAppend(s.stored, item.batch.events);
  }

  /** A spooled batch that can never be inserted: two of its events have one id. */
  ghost predicate Poisoned(s: State, item: SpoolItem) {
    Holds(s, item) && item.Id() !in s.inserted && !DistinctIds(item.batch.events)
  }

  lemma {:induction false} PoisonedDeliver(parse: LineParser, s: State, s': State, m: EventBatch, item: SpoolItem)
    requires Inv(parse, s) && Deliver(s, s', m) && Poisoned(s, item)
    ensures Poisoned(s', item) && s'.stored == s.stored && s'.checkpoint == s.checkpoint
  {
    HeldItem(parse, s, item);
    assert item.Id() in s.spool;
    if m.batchId !in s.accepted && Insertable(s.rowIds, m.events) { assert Pending(s, m); }
  }

  lemma {:induction false} PoisonedNext(parse: LineParser, s: State, s': State, item: SpoolItem)
    requires Inv(parse, s) && Next(parse, s, s') && Poisoned(s, item)
    ensures Poisoned(s', item) && s'.stored == s.stored && s'.checkpoint == s.checkpoint
  {
    HeldItem(parse, s, item);
    assert item.Id() in s.spool;
    if m :| Deliver(s, s', m) { PoisonedDeliver(parse, s, s', m, item); }
  }

  lemma {:induction false} PoisonedRun(parse: LineParser, trace: seq<State>, item: SpoolItem)
    requires Steps(parse, trace) && Inv(parse, trace[0]) && Poisoned(trace[0], item)
    ensures Inv(parse, Last(trace)) && Poisoned(Last(trace), item)
    ensures Last(trace).stored == trace[0].stored && Last(trace).checkpoint == trace[0].checkpoint
  {
    if |trace| > 1 {
      var front := trace[..|trace| - 1];
      PoisonedRun(parse, front, item);
      NextInv(parse, Last(front), Last(trace));
      PoisonedNext(parse, Last(front), Last(trace), item);
    }
  }

  lemma Cut(parse: LineParser, trace: seq<State>, i: nat, j: nat)
    requires Steps(parse, trace) && i < j <= |trace|
    ensures Steps(parse, trace[i..j])
  {
    var part := trace[i..j];
    forall k | 0 <= k < |part| - 1 ensures Next(parse, part[k], part[k + 1]) {
      assert part[k] == trace[i + k] && part[k + 1] == trace[i + k + 1];
    }
  }

  /** One such batch stops delivery for good: from then on nothing is stored and the checkpoint stays. */
  lemma PoisonedBatchStopsDelivery(parse: LineParser, trace: seq<State>, i: nat, j: nat, item: SpoolItem)
    requires Steps(parse, trace) && Init(trace[0]) && i <= j < |trace| && Poisoned(trace[i], item)
    ensures Poisoned(trace[j], item) && trace[j].stored == trace[i].stored && trace[j].checkpoint == trace[i].checkpoint
  {
    Cut(parse, trace, 0, i + 1);
    Cut(parse, trace, i, j + 1);
    InitInv(parse, trace[0]);
    RunInv(parse, trace[0..i + 1]);
    PoisonedRun(parse, trace[i..j + 1], item);
  }

  ghost predicate From(parse: LineParser, s: State, trace: seq<State>) { Steps(parse, trace) && trace[0] == s }

  lemma Then(parse: LineParser, s: State, trace: seq<State>, s': State)
    requires From(parse, s, trace) && Next(parse, Last(trace), s')
    ensures From(parse, s, trace + [s']) && Last(trace + [s']) == s'
  {
    var longer := trace + [s'];
    forall i | 0 <= i < |longer| - 1 ensures Next(parse, longer[i], longer[i + 1]) {
      if i < |trace| - 1 { assert longer[i] == trace[i] && longer[i + 1] == trace[i + 1]; }
    }
  }

  /** Some continuation stores the item's events. */
  ghost predicate CanStore(parse: LineParser, s: State, item: SpoolItem) {
    exists trace :: From(parse, s, trace) && item.Id() in Last(trace).inserted && Last(trace).stored == s.stored + item.batch.events
  }

  /** A spooled batch that is not stored can still be stored if and only if its event ids differ. */
  lemma StorableExactly(parse: LineParser, s: State, item: SpoolItem)
    requires Inv(parse, s) && Holds(s, item) && item.Id() !in s.inserted
    ensures CanStore(parse, s, item) <==> DistinctIds(item.batch.events)
  {
    if DistinctIds(item.batch.events) {
      var trace := RunToStored(parse, s, item);
    } else if CanStore(parse, s, item) {
      var trace :| From(parse, s, trace) && item.Id() in Last(trace).inserted && Last(trace).stored == s.stored + item.batch.events;
      PoisonedRun(parse, trace, item);
    }
  }

  /** Restart, lose what is in flight, prune the old rows, and send the item again. */
  lemma RunToStored(parse: LineParser, s: State, item: SpoolItem) returns (trace: seq<State>)
    requires Inv(parse, s) && Holds(s, item) && item.Id() !in s.inserted && DistinctIds(item.batch.events)
    ensures From(parse, s, trace) && item.Id() in Last(trace).inserted && Last(trace).stored == s.stored + item.batch.events
  {
    trace := RunToPruned(parse, s, item);
    var pruned := Last(trace);
    var draining := pruned.(pc := Draining([item]));
    assert Listing(pruned.spool, [item]) by { assert pruned.spool == map[item.Id() := item]; }
    assert StartFlush(pruned, draining);
    Then(parse, s, trace, draining);
    trace := trace + [draining];
    var sent := draining.(pc := Sending(item, []), network := draining.network + {item.batch});
    assert [item][1..] == [];
    assert SendNext(draining, sent);
    Then(parse, s, trace, sent);
    trace := trace + [sent];
    trace := Delivered(parse, s, trace, item);
  }

  lemma Delivered(parse: LineParser, s: State, before: seq<State>, item: SpoolItem) returns (trace: seq<State>)
    requires From(parse, s, before) && DistinctIds(item.batch.events)
    requires item.batch in Last(before).network && item.Id() !in Last(before).accepted && Last(before).rowIds == {}
    ensures From(parse, s, trace) && item.Id() in Last(trace).inserted && Last(trace).stored == Last(before).stored + item.batch.events
  {
    var sent, m := Last(before), item.batch;
    var stored := sent.(accepted := sent.accepted + {m.batchId}, rowIds := sent.rowIds + EventIds(m.events),
                        inserted := sent.inserted + {m.batchId}, stored := sent.stored + m.events, replies := sent.replies + {m.batchId});
    assert Deliver(sent, stored, m);
    Then(parse, s, before, stored);
    trace := before + [stored];
  }

  lemma RunToPruned(parse: LineParser, s: State, item: SpoolItem) returns (trace: seq<State>)
    requires Inv(parse, s) && Holds(s, item) && item.Id() !in s.inserted
    ensures From(parse, s, trace) && Last(trace) == s.(pc := Idle, network := {}, replies := {}, rowIds := {})
  {
    var stopped := s.(pc := Idle);
    var quiet := stopped.(network := {}, replies := {});
    var pruned := quiet.(rowIds := {});
    trace := [s];
    assert Stop(s, stopped) && Drop(stopped, quiet);
    assert forall id :: id in s.spool ==> id !in s.inserted;
    assert Prune(quiet, pruned);
    Then(parse, s, trace, stopped);
    Then(parse, s, trace + [stopped], quiet);
    Then(parse, s, trace + [stopped] + [quiet], pruned);
    trace := trace + [stopped] + [quiet] + [pruned];
  }

  // ---------------------------------------------------------------- a line that is logged twice

  lemma RepeatedLineRepeatsIds(events: seq<SecurityEvent>)
    requires events != []
    ensures !DistinctIds(events + events)
  {
    var twice := events + events;
    assert twice[0].eventId == twice[|events|].eventId;
  }

  lemma {:induction false} LineEndAt(log: seq<byte>, from: nat, stop: nat)
    requires from <= stop < |log| && log[stop] == NEWLINE && forall i :: from <= i < stop ==> log[i] != NEWLINE
    ensures LineEnd(log, from) == Some(stop + 1)
    decreases stop - from
  {
    if from < stop { LineEndAt(log, from + 1, stop); }
  }

  function Twice(line: seq<byte>): seq<byte> { line + [NEWLINE] + line + [NEWLINE] }

  lemma {:induction false} LineThenRest(parse: LineParser, log: seq<byte>, from: nat, end: nat, stop: nat)
    requires from < stop && from <= |log| && LineEnd(log, from) == Some(end)
    ensures Between(parse, log, from, stop) == parse(log[from..end - 1]) + Between(parse, log, end, stop)
  {
  }

  /** Both lines of the log are read. */
  lemma {:induction false} BothLines(parse: LineParser, line: seq<byte>)
    requires NEWLINE !in line
    ensures Between(parse, Twice(line), 0, |Twice(line)|) == parse(line) + parse(line)
  {
    var log, n := Twice(line), |line| + 1;
    LineEndAt(log, 0, |line|);
    LineEndAt(log, n, n + |line|);
    assert log[0..|line|] == line && log[n..n + |line|] == line;
    LineThenRest(parse, log, 0, n, |log|);
    LineThenRest(parse, log, n, 2 * n, |log|);
    assert Between(parse, log, 2 * n, |log|) == [];
    assert parse(line) + [] == parse(line);
  }

  lemma TwiceIsRead(parse: LineParser, file: LogFile, line: seq<byte>)
    requires NEWLINE !in line && file.content == Twice(line)
    ensures Passed(parse, file.content, ResumePosition(file, START), parse(line) + parse(line),
                   AuditPosition(file.device, file.inode, |file.content|, 0))
  {
    BothLines(parse, line);
    var start, next := ResumePosition(file, START), AuditPosition(file.device, file.inode, |file.content|, 0);
    assert Done(parse, file.content, start) == [];
    assert Done(parse, file.content, next) == parse(line) + parse(line);
  }

  ghost function Started(device: nat, inode: nat): (s: State)
    ensures Init(s)
  {
    State(LogFile(device, inode, []), START, map[], Idle, {}, {}, {}, {}, {}, {}, [])
  }

  /** Event ids are made of a digest of the line, so when any line that yields events is logged twice, a read of both,
      as a batch limit of twice its events allows, and a put poison the spool, under any batch id. */
  lemma RepeatedLinePoisons(parse: LineParser, line: seq<byte>, device: nat, inode: nat, id: string) returns (trace: seq<State>, item: SpoolItem)
    requires parse(line) != [] && NEWLINE !in line
    ensures Steps(parse, trace) && Init(trace[0]) && Last(trace).file.content == Twice(line)
    ensures item.batch == EventBatch(id, parse(line) + parse(line)) && Poisoned(Last(trace), item)
  {
    var s := Started(device, inode);
    var logged := s.(file := s.file.(content := Twice(line)));
    trace := RunToFilling(parse, s, logged);
    var filling := Last(trace);
    item := SpoolItem(EventBatch(id, parse(line) + parse(line)), AuditPosition(device, inode, |Twice(line)|, 0));
    TwiceIsRead(parse, filling.file, line);
    var read := filling.(pc := HaveBatch(item));
    assert Resumed(parse, filling, item.batch.events, item.next);
    assert Read(parse, filling, read);
    Then(parse, s, trace, read);
    trace := trace + [read];
    var put := read.(pc := Draining([item]), spool := read.spool[id := item], usedIds := read.usedIds + {id});
    assert Put(read, put);
    Then(parse, s, trace, put);
    trace := trace + [put];
    RepeatedLineRepeatsIds(parse(line));
    assert put.spool == map[id := item];
  }

  lemma RunToFilling(parse: LineParser, s: State, logged: State) returns (trace: seq<State>)
    requires Init(s) && Append(s, logged)
    ensures From(parse, s, trace) && Last(trace) == logged.(pc := Filling)
  {
    var draining := logged.(pc := Draining([]));
    assert Listing(logged.spool, []);
    assert StartFlush(logged, draining) && EndDrain(draining, draining.(pc := Filling));
    Then(parse, s, [s], logged);
    Then(parse, s, [s] + [logged], draining);
    Then(parse, s, [s] + [logged] + [draining], draining.(pc := Filling));
    trace := [s] + [logged] + [draining] + [draining.(pc := Filling)];
  }
}
