/** Event insertion on the Manager: batches are deduplicated, grouped by request and folded into
    incidents (internal/manager/store.go, store_incidents.go, incidents.go). */
module Incidents {
  import opened Prelude
  import opened Events
  import opened Text
  import opened Sorting

  /** The per-event functions: incident key, category rank in the upsert's FIELD list (OTHER is 1),
      the Go test for summary rules and the SQL one. Every theorem below holds for any choice. */
  datatype Rules = Rules(
    key: SecurityEvent -> string, rank: SecurityEvent -> nat,
    summary: SecurityEvent -> bool, sqlSummary: SecurityEvent -> bool)

  const OTHER: nat := 1
  const HTTP_PROTOCOL: nat := 2
  const SCANNER_BOT: nat := 3
  const FILE_PATH: nat := 4
  const INJECTION: nat := 5
  const XSS: nat := 6

  datatype IncidentKey = IncidentKey(agent: string, key: string)

  datatype Incident = Incident(occurredAt: int, rank: nat, blocked: bool, primary: Option<nat>)

  /** A row of security_events; its id is its place in insertion order. */
  datatype Row = Row(agent: string, event: SecurityEvent)

  datatype Db = Db(batches: set<(string, string)>, incidents: map<IncidentKey, Incident>, rows: seq<Row>)

  const EMPTY := Db({}, map[], [])

  // ---------------------------------------------------------------- the source's own rules

  function Truncate(s: string, max: nat): string { if |s| <= max then s else s[..max] }

  /** `incidentKey`: the request id, else the transaction id, else the event id. */
  function KeyOf(e: SecurityEvent): string {
    var request := TrimSpace(e.requestId);
    if request != "" then Truncate(request, 128) else
    var transaction := TrimSpace(e.transactionId);
    if transaction != "" then Truncate(transaction, 128) else Truncate(e.eventId, 128)
  }

  predicate SummaryPrefix(ruleId: string) {
    "949" <= ruleId || "959" <= ruleId || "980" <= ruleId
  }

  /** `classifySecurityEvent`, as the rank of the category it gives. */
  function RankOf(e: SecurityEvent): nat {
    var joined := Lower(Join(e.ruleTags, ' ') + " " + e.message);
    if Contains(joined, "attack-xss") || Contains(joined, "cross-site scripting") then XSS
    else if Injection(joined) then INJECTION
    else if FilePath(joined) then FILE_PATH
    else if Contains(joined, "scanner") || Contains(joined, "automation") || Contains(joined, "bot")
            || Contains(joined, "reputation") || Contains(joined, "user-agent") then SCANNER_BOT
    else if Contains(joined, "protocol") || Contains(joined, "method-enforcement") || Contains(joined, "protocol-enforcement")
            || Contains(joined, "http-policy") || Contains(joined, "encoding") then HTTP_PROTOCOL
    else OTHER
  }

  predicate Injection(joined: string) {
    || Contains(joined, "attack-sqli") || Contains(joined, "attack-injection") || Contains(joined, "attack-rce")
    || Contains(joined, "command-injection") || Contains(joined, "sql injection") || Contains(joined, "remote code execution")
  }

  predicate FilePath(joined: string) {
    || Contains(joined, "attack-lfi") || Contains(joined, "attack-rfi") || Contains(joined, "path-traversal")
    || Contains(joined, "file-upload") || Contains(joined, "file inclusion") || Contains(joined, "directory traversal")
  }

  /** The Manager's rules; the SQL test does not trim the rule id. */
  const SourceRules := Rules(KeyOf, RankOf, (e: SecurityEvent) => SummaryPrefix(TrimSpace(e.ruleId)),
                             (e: SecurityEvent) => SummaryPrefix(e.ruleId))

  /** What a column of 128 characters holds of a text. */
  predicate FirstOf(held: string, s: string) { held <= s && |held| <= 128 && (|s| <= 128 ==> held == s) }

  lemma {:induction false} Truncated(s: string)
    ensures FirstOf(Truncate(s, 128), s)
  {
  }

  /** The key is the request id, else the transaction id, else the event id, as far as the column holds it. */
  lemma {:induction false} KeyHolds(e: SecurityEvent, request: string, transaction: string)
    requires request == TrimSpace(e.requestId) && transaction == TrimSpace(e.transactionId)
    ensures FirstOf(KeyOf(e), if request != "" then request else if transaction != "" then transaction else e.eventId)
  {
    Truncated(request);
    Truncated(transaction);
    Truncated(e.eventId);
  }

  /** Events of one request share their key; without a request id those of one transaction do. */
  lemma {:induction false} SharedKey(a: SecurityEvent, b: SecurityEvent, request: string, transaction: string)
    requires request == TrimSpace(a.requestId) == TrimSpace(b.requestId)
    requires transaction == TrimSpace(a.transactionId) == TrimSpace(b.transactionId)
    ensures request != "" || transaction != "" ==> KeyOf(a) == KeyOf(b)
  {
  }

  /** The rules of the three summary ranges, whatever follows the range. */
  lemma {:induction false} SummaryRanges(range: string, rest: string)
    requires |range| == 3
    ensures SummaryPrefix(range + rest) <==> range == "949" || range == "959" || range == "980"
  {
    var id := range + rest;
    assert id[..3] == range;
    assert |"949"| == |"959"| == |"980"| == 3;
    assert "949" <= id <==> id[..3] == "949";
    assert "959" <= id <==> id[..3] == "959";
    assert "980" <= id <==> id[..3] == "980";
  }

  // ---------------------------------------------------------------- one batch

  function Group(r: Rules, events: seq<SecurityEvent>, key: string): (g: seq<SecurityEvent>)
    ensures forall e :: e in g <==> e in events && r.key(e) == key
  {
    if events == [] then []
    else
      var front := Group(r, events[..|events| - 1], key);
      var e := events[|events| - 1];
      if r.key(e) == key then front + [e] else front
  }

  /** Sort class of `selectPrimaryEvent`: detections before summaries, classified before unclassified. */
  function SortClass(r: Rules, e: SecurityEvent): nat {
    (if r.summary(e) then 2 else 0) + (if r.rank(e) == OTHER then 1 else 0)
  }

  function ByClass(r: Rules): (SecurityEvent, SecurityEvent) -> bool {
    (a, b) => SortClass(r, a) <= SortClass(r, b)
  }

  lemma ClassOrder(r: Rules)
    ensures TotalPreorder(ByClass(r))
  {
  }

  /** `selectPrimaryEvent` of a non-empty group. */
  function Primary(r: Rules, events: seq<SecurityEvent>): SecurityEvent
    requires events != []
  {
    Sort(ByClass(r), events)[0]
  }

  predicate AnyBlocked(events: seq<SecurityEvent>) { exists e :: e in events && e.blocked }

  /** `insertIncidentTx`: the row written for a group, merged into an existing one. */
  function Upsert(r: Rules, existing: Option<Incident>, events: seq<SecurityEvent>): Incident
    requires events != []
  {
    var p := Primary(r, events);
    match existing
    case None => Incident(p.occurredAt, r.rank(p), AnyBlocked(events), None)
    case Some(i) => Incident(
      if p.occurredAt < i.occurredAt then p.occurredAt else i.occurredAt,
      if r.rank(p) > i.rank then r.rank(p) else i.rank,
      i.blocked || AnyBlocked(events), i.primary)
  }

  function RowKey(r: Rules, row: Row): IncidentKey { IncidentKey(row.agent, r.key(row.event)) }

  /** Least id of a row that satisfies `p`. */
  function First(rows: seq<Row>, p: Row -> bool): (i: Option<nat>)
    ensures i.None? ==> forall row :: row in rows ==> !p(row)
    ensures i.Some? ==> i.value < |rows| && p(rows[i.value]) && forall j :: 0 <= j < i.value ==> !p(rows[j])
  {
    if rows == [] then None
    else match First(rows[..|rows| - 1], p)
      case Some(i) => Some(i)
      case None => if p(rows[|rows| - 1]) then Some(|rows| - 1) else None
  }

  function OfKey(r: Rules, k: IncidentKey): Row -> bool { row => RowKey(r, row) == k }

  function Detection(r: Rules, k: IncidentKey): Row -> bool { row => RowKey(r, row) == k && !r.sqlSummary(row.event) }

  /** The ORDER BY ... LIMIT 1 behind primary_event_id. */
  function PrimaryRow(r: Rules, rows: seq<Row>, k: IncidentKey): Option<nat> {
    match First(rows, Detection(r, k))
    case Some(i) => Some(i)
    case None => First(rows, OfKey(r, k))
  }

  function BatchRows(agent: string, events: seq<SecurityEvent>): seq<Row> {
    seq(|events|, i requires 0 <= i < |events| => Row(agent, events[i]))
  }

  function BatchKeys(r: Rules, agent: string, events: seq<SecurityEvent>): set<IncidentKey> {
    set e | e in events :: IncidentKey(agent, r.key(e))
  }

  function Lookup(incidents: map<IncidentKey, Incident>, k: IncidentKey): Option<Incident> {
    if k in incidents then Some(incidents[k]) else None
  }

  datatype Arrival = Arrival(agent: string, batch: EventBatch, serverActive: bool)

  /** The unique key on agent and event id lets the events in. */
  predicate Fresh(rows: seq<Row>, agent: string, events: seq<SecurityEvent>) {
    && (forall i, j :: 0 <= i < j < |events| ==> events[i].eventId != events[j].eventId)
    && (forall e, row :: e in events && row in rows ==> row.agent != agent || row.event.eventId != e.eventId)
  }

  predicate Accepts(db: Db, a: Arrival) {
    (a.agent, a.batch.batchId) !in db.batches && a.serverActive && Fresh(db.rows, a.agent, a.batch.events)
  }

  /** `InsertEventBatch` as one transaction on the tables. */
  function Ingest(r: Rules, db: Db, a: Arrival): Db {
    if !Accepts(db, a) then db else
    var events := a.batch.events;
    var rows := db.rows + BatchRows(a.agent, events);
    var keys := BatchKeys(r, a.agent, events);
    Db(db.batches + {(a.agent, a.batch.batchId)},
       map k | k in db.incidents.Keys + keys ::
         if k in keys then
           Upsert(r, Lookup(db.incidents, k), Group(r, events, k.key)).(primary := PrimaryRow(r, rows, k))
         else db.incidents[k],
       rows)
  }

  /** A table is the ingested one when every incident is. */
  lemma IngestedIncidents(r: Rules, db: Db, a: Arrival, incidents: map<IncidentKey, Incident>)
    requires Accepts(db, a)
    requires var keys := BatchKeys(r, a.agent, a.batch.events);
      && (forall k :: k in incidents <==> k in db.incidents || k in keys)
      && (forall k :: k in keys ==> Group(r, a.batch.events, k.key) != [])
      && (forall k :: k in keys ==>
            var merged := Upsert(r, Lookup(db.incidents, k), Group(r, a.batch.events, k.key));
            incidents[k] == merged.(primary := PrimaryRow(r, db.rows + BatchRows(a.agent, a.batch.events), k)))
      && (forall k :: k in db.incidents && k !in keys ==> incidents[k] == db.incidents[k])
    ensures incidents == Ingest(r, db, a).incidents
  {
    var after := Ingest(r, db, a).incidents;
    assert incidents.Keys == after.Keys;
    forall k | k in incidents ensures incidents[k] == after[k] {}
  }

  // ---- which event of a request leads, in terms of the two tests only

  predicate Classified(r: Rules, e: SecurityEvent) { r.rank(e) != OTHER }

  predicate SameKind(r: Rules, a: SecurityEvent, b: SecurityEvent) {
    r.summary(a) == r.summary(b) && Classified(r, a) == Classified(r, b)
  }

  /** `e` is of the best kind among the events of a key: a summary only when all are, unclassified only when all
      detections (or, of summaries, all) are. */
  ghost predicate BestKind(r: Rules, events: seq<SecurityEvent>, key: string, e: SecurityEvent) {
    && (r.summary(e) ==> forall x :: x in events && r.key(x) == key ==> r.summary(x))
    && (!Classified(r, e) ==>
          forall x :: x in events && r.key(x) == key && r.summary(x) == r.summary(e) ==> !Classified(r, x))
  }

  /** The event at `at` is the first of the best kind among the events of a key. */
  ghost predicate Leads(r: Rules, events: seq<SecurityEvent>, key: string, at: nat) {
    && at < |events| && r.key(events[at]) == key && BestKind(r, events, key, events[at])
    && forall j :: 0 <= j < at && r.key(events[j]) == key ==> !SameKind(r, events[j], events[at])
  }

  lemma {:induction false} LeaderIsUnique(r: Rules, events: seq<SecurityEvent>, key: string, i: nat, j: nat)
    requires Leads(r, events, key, i) && Leads(r, events, key, j)
    ensures i == j
  {
    assert events[i] in events && events[j] in events;
  }

  /** One more event of the key leads exactly when its class is smaller. */
  lemma {:induction false} LeaderKept(r: Rules, front: seq<SecurityEvent>, key: string, at: nat, last: SecurityEvent)
    requires Leads(r, front, key, at) && r.key(last) == key
    ensures SortClass(r, front[at]) <= SortClass(r, last) ==> Leads(r, front + [last], key, at)
    ensures SortClass(r, front[at]) > SortClass(r, last) ==> Leads(r, front + [last], key, |front|)
  {
    assert forall x :: x in front + [last] <==> x in front || x == last;
    assert front[at] in front;
    assert forall j :: 0 <= j < |front| ==> front[j] in front && (front + [last])[j] == front[j];
  }

  /** The event the sort puts first is the leading one. */
  lemma {:induction false} LeaderExists(r: Rules, events: seq<SecurityEvent>, key: string) returns (at: nat)
    requires Group(r, events, key) != []
    ensures Leads(r, events, key, at) && Primary(r, Group(r, events, key)) == events[at]
  {
    var front, last := events[..|events| - 1], events[|events| - 1];
    var g := Group(r, front, key);
    assert events == front + [last];
    if r.key(last) != key {
      at := LeaderExists(r, front, key);
    } else if g == [] {
      at := |front|;
      assert forall x :: x in front ==> r.key(x) != key;
      assert [last][..0] == [];
    } else {
      at := LeaderExists(r, front, key);
      assert (g + [last])[..|g|] == g;
      ClassOrder(r);
      SortSorted(ByClass(r), g);
      InsertHead(ByClass(r), Sort(ByClass(r), g), last);
      LeaderKept(r, front, key, at, last);
      if SortClass(r, front[at]) > SortClass(r, last) { at := |front|; }
    }
  }

  /** `selectPrimaryEvent` picks the leading event of a key, and nothing else. */
  lemma PrimaryLeads(r: Rules, events: seq<SecurityEvent>, key: string, at: nat)
    requires Leads(r, events, key, at)
    ensures Group(r, events, key) != [] && Primary(r, Group(r, events, key)) == events[at]
  {
    assert events[at] in Group(r, events, key);
    var i := LeaderExists(r, events, key);
    LeaderIsUnique(r, events, key, i, at);
  }

  /** An incident after one batch: `e` leads its events there. */
  ghost predicate Follows(r: Rules, before: Option<Incident>, events: seq<SecurityEvent>, key: string, e: SecurityEvent, i: Incident) {
    && (before.None? ==> i.rank == r.rank(e) && i.occurredAt == e.occurredAt)
    && (before.Some? ==>
          && (i.rank == before.value.rank || i.rank == r.rank(e)) && i.rank >= before.value.rank && i.rank >= r.rank(e)
          && (i.occurredAt == before.value.occurredAt || i.occurredAt == e.occurredAt)
          && i.occurredAt <= before.value.occurredAt && i.occurredAt <= e.occurredAt)
    && (i.blocked <==> (before.Some? && before.value.blocked) || exists x :: x in events && r.key(x) == key && x.blocked)
  }

  /** An accepted batch writes the incident of every key it has: a new one with rank and time of the leading event. */
  lemma {:induction false} IngestFollowsLeader(r: Rules, db: Db, a: Arrival, key: string, at: nat)
    requires Accepts(db, a) && Leads(r, a.batch.events, key, at)
    ensures var k, after := IncidentKey(a.agent, key), Ingest(r, db, a).incidents;
            k in after && Follows(r, Lookup(db.incidents, k), a.batch.events, key, a.batch.events[at], after[k])
  {
    PrimaryLeads(r, a.batch.events, key, at);
    assert a.batch.events[at] in a.batch.events;
    assert IncidentKey(a.agent, key) in BatchKeys(r, a.agent, a.batch.events);
    assert AnyBlocked(Group(r, a.batch.events, key)) <==> exists x :: x in a.batch.events && r.key(x) == key && x.blocked;
  }

  class EventStore {
    const rules: Rules
    var batches: set<(string, string)>            // event_ingest_batches
    var incidents: map<IncidentKey, Incident>     // security_incidents
    var rows: seq<Row>                            // security_events

    ghost function Tables(): Db
      reads this
    {
      Db(batches, incidents, rows)
    }

    constructor (rules: Rules)
      ensures this.rules == rules && Tables() == EMPTY
    {
      this.rules := rules;
      batches, incidents, rows := {}, map[], [];
    }

    /** The two loops that fill `grouped` and `groupOrder`. */
    method GroupByKey(events: seq<SecurityEvent>)
      returns (grouped: map<string, seq<SecurityEvent>>, order: seq<string>)
      ensures forall i, j :: 0 <= i < j < |order| ==> order[i] != order[j]
      ensures forall k :: k in order <==> k in grouped
      ensures forall k :: k in grouped <==> exists e :: e in events && rules.key(e) == k
      ensures forall k :: k in grouped ==> grouped[k] == Group(rules, events, k) && grouped[k] != []
    {
      grouped, order := map[], [];
      for i := 0 to |events|
        invariant forall i, j :: 0 <= i < j < |order| ==> order[i] != order[j]
        invariant forall k :: k in order <==> k in grouped
        invariant forall k :: k !in grouped ==> Group(rules, events[..i], k) == []
        invariant forall k :: k in grouped ==> grouped[k] == Group(rules, events[..i], k) && grouped[k] != []
      {
        var key := rules.key(events[i]);
        assert events[..i + 1][..i] == events[..i];
        if key !in grouped {
          order := order + [key];
          grouped := grouped[key := [events[i]]];
        } else {
          grouped := grouped[key := grouped[key] + [events[i]]];
        }
      }
      assert events[..|events|] == events;
      forall k ensures k in grouped <==> exists e :: e in events && rules.key(e) == k {
        if k in grouped { assert grouped[k][0] in Group(rules, events, k); }
      }
    }

    predicate Touched(agent: string, order: seq<string>, k: IncidentKey) { k.agent == agent && k.key in order }

    /** The loop that upserts one incident per group. */
    method UpsertGroups(agent: string, order: seq<string>, grouped: map<string, seq<SecurityEvent>>)
      requires forall i, j :: 0 <= i < j < |order| ==> order[i] != order[j]
      requires forall k :: k in order ==> k in grouped && grouped[k] != []
      modifies this`incidents
      ensures forall k :: k in incidents <==> k in old(incidents) || Touched(agent, order, k)
      ensures forall k :: k in incidents ==>
                incidents[k] == (if Touched(agent, order, k) then Upsert(rules, Lookup(old(incidents), k), grouped[k.key])
                                 else old(incidents)[k])
    {
      for i := 0 to |order|
        invariant forall k :: k in incidents <==> k in old(incidents) || Touched(agent, order[..i], k)
        invariant forall k :: k in incidents ==>
                    incidents[k] == (if Touched(agent, order[..i], k) then Upsert(rules, Lookup(old(incidents), k), grouped[k.key])
                                     else old(incidents)[k])
      {
        var k := IncidentKey(agent, order[i]);
        assert !Touched(agent, order[..i], k);
        assert order[..i + 1] == order[..i] + [order[i]];
        incidents := incidents[k := Upsert(rules, Lookup(incidents, k), grouped[order[i]])];
      }
      assert order[..|order|] == order;
    }

    /** The loop that recomputes primary_event_id of the touched incidents. */
    method SetPrimaries(agent: string, order: seq<string>)
      requires forall k :: k in order ==> IncidentKey(agent, k) in incidents
      modifies this`incidents
      ensures incidents.Keys == old(incidents.Keys)
      ensures forall k :: k in incidents ==>
                incidents[k] == (if Touched(agent, order, k) then old(incidents)[k].(primary := PrimaryRow(rules, rows, k))
                                 else old(incidents)[k])
    {
      for i := 0 to |order|
        invariant incidents.Keys == old(incidents.Keys)
        invariant forall k :: k in incidents ==>
                    incidents[k] == (if Touched(agent, order[..i], k) then old(incidents)[k].(primary := PrimaryRow(rules, rows, k))
                                     else old(incidents)[k])
      {
        var k := IncidentKey(agent, order[i]);
        assert order[..i + 1] == order[..i] + [order[i]];
        incidents := incidents[k := incidents[k].(primary := PrimaryRow(rules, rows, k))];
      }
      assert order[..|order|] == order;
    }

    /** `InsertEventBatch`: Ok(true) reports a duplicate; an unknown server or an event id that is there rolls
        everything back. */
    method InsertEventBatch(a: Arrival) returns (duplicate: Result<bool>)
      modifies this
      ensures Tables() == Ingest(rules, old(Tables()), a)
      ensures duplicate == if (a.agent, a.batch.batchId) in old(batches) then Ok(true)
                           else if !a.serverActive then Err("no active server")
                           else if Fresh(old(rows), a.agent, a.batch.events) then Ok(false) else Err("duplicate event id")
      ensures duplicate == Ok(false) ==>
                forall key: string, at: nat :: Leads(rules, a.batch.events, key, at) ==>
                  && IncidentKey(a.agent, key) in incidents
                  && Follows(rules, Lookup(old(incidents), IncidentKey(a.agent, key)), a.batch.events, key, a.batch.events[at],
                             incidents[IncidentKey(a.agent, key)])
    {
      if (a.agent, a.batch.batchId) in batches { return Ok(true); }
      if !a.serverActive { return Err("no active server"); }
      var before, known := batches, incidents;
      batches := batches + {(a.agent, a.batch.batchId)};
      var events := a.batch.events;
      var grouped, order := GroupByKey(events);
      UpsertGroups(a.agent, order, grouped);
      if !Fresh(rows, a.agent, events) {
        batches, incidents := before, known;
        return Err("duplicate event id");
      }
      rows := rows + BatchRows(a.agent, events);
      SetPrimaries(a.agent, order);
      KeysAreTouched(a.agent, events, order);
      IngestedIncidents(rules, old(Tables()), a, incidents);
      forall key: string, at: nat | Leads(rules, a.batch.events, key, at)
        ensures IncidentKey(a.agent, key) in incidents
        ensures Follows(rules, Lookup(old(incidents), IncidentKey(a.agent, key)), a.batch.events, key, a.batch.events[at],
                        incidents[IncidentKey(a.agent, key)])
      {
        IngestFollowsLeader(rules, old(Tables()), a, key, at);
      }
      duplicate := Ok(false);
    }

    lemma KeysAreTouched(agent: string, events: seq<SecurityEvent>, order: seq<string>)
      requires forall k :: k in order <==> exists e :: e in events && rules.key(e) == k
      ensures forall k :: k in BatchKeys(rules, agent, events) <==> Touched(agent, order, k)
    {
      forall k | Touched(agent, order, k) ensures k in BatchKeys(rules, agent, events) {
        var e :| e in events && rules.key(e) == k.key;
        assert k == IncidentKey(agent, rules.key(e));
      }
    }
  }

  // ---------------------------------------------------------------- whole histories of deliveries

  /** Tables after a history of deliveries, including redeliveries and rejected ones. */
  function After(r: Rules, h: seq<Arrival>): Db {
    if h == [] then EMPTY else Ingest(r, After(r, h[..|h| - 1]), h[|h| - 1])
  }

  /** The deliveries of a history that were not duplicates and not rejected. */
  function Accepted(r: Rules, h: seq<Arrival>): seq<Arrival> {
    if h == [] then []
    else
      var front := Accepted(r, h[..|h| - 1]);
      if Accepts(After(r, h[..|h| - 1]), h[|h| - 1]) then front + [h[|h| - 1]] else front
  }

  /** Delivering the same batch again changes nothing. */
  lemma RedeliveryChangesNothing(r: Rules, db: Db, a: Arrival)
    requires Accepts(db, a)
    ensures Ingest(r, Ingest(r, db, a), a) == Ingest(r, db, a)
  {
    assert (a.agent, a.batch.batchId) in Ingest(r, db, a).batches;
  }

  // ---- incidents against the stored rows

  ghost predicate MatchesRows(r: Rules, rows: seq<Row>, k: IncidentKey, incident: Option<Incident>) {
    && (incident.Some? <==> exists row :: row in rows && RowKey(r, row) == k)
    && (incident.Some? ==>
          && (incident.value.blocked <==> exists row :: row in rows && RowKey(r, row) == k && row.event.blocked)
          && incident.value.primary == PrimaryRow(r, rows, k))
  }

  ghost predicate RowsInv(r: Rules, db: Db) {
    forall k :: MatchesRows(r, db.rows, k, Lookup(db.incidents, k))
  }

  lemma {:induction false} FirstAppend(rows: seq<Row>, more: seq<Row>, p: Row -> bool)
    requires forall row :: row in more ==> !p(row)
    ensures First(rows + more, p) == First(rows, p)
  {
    if more == [] {
      assert rows + more == rows;
    } else {
      assert (rows + more)[..|rows + more| - 1] == rows + more[..|more| - 1];
      FirstAppend(rows, more[..|more| - 1], p);
    }
  }

  lemma BatchRowsKeys(r: Rules, agent: string, events: seq<SecurityEvent>, k: IncidentKey)
    ensures k in BatchKeys(r, agent, events) <==> exists row :: row in BatchRows(agent, events) && RowKey(r, row) == k
    ensures k in BatchKeys(r, agent, events) ==> k.agent == agent && Group(r, events, k.key) != []
    ensures k in BatchKeys(r, agent, events) ==>
              (AnyBlocked(Group(r, events, k.key)) <==>
               exists row :: row in BatchRows(agent, events) && RowKey(r, row) == k && row.event.blocked)
  {
    var rows := BatchRows(agent, events);
    assert forall i :: 0 <= i < |events| ==> rows[i].event == events[i] && rows[i].agent == agent;
    if k in BatchKeys(r, agent, events) {
      var e :| e in events && k == IncidentKey(agent, r.key(e));
      assert e in Group(r, events, k.key);
      assert Row(agent, e) in rows;
      if AnyBlocked(Group(r, events, k.key)) {
        var b :| b in Group(r, events, k.key) && b.blocked;
        assert Row(agent, b) in rows;
      }
    }
  }

  lemma {:induction false} IngestRowsInv(r: Rules, db: Db, a: Arrival)
    requires RowsInv(r, db)
    ensures RowsInv(r, Ingest(r, db, a))
  {
    if Accepts(db, a) {
      var db' := Ingest(r, db, a);
      forall k ensures MatchesRows(r, db'.rows, k, Lookup(db'.incidents, k)) {
        assert MatchesRows(r, db.rows, k, Lookup(db.incidents, k));
        IngestOneKey(r, db, a, k);
      }
    }
  }

  lemma IngestOneKey(r: Rules, db: Db, a: Arrival, k: IncidentKey)
    requires Accepts(db, a) && MatchesRows(r, db.rows, k, Lookup(db.incidents, k))
    ensures var db' := Ingest(r, db, a); MatchesRows(r, db'.rows, k, Lookup(db'.incidents, k))
  {
    var more := BatchRows(a.agent, a.batch.events);
    BatchRowsKeys(r, a.agent, a.batch.events, k);
    if k in BatchKeys(r, a.agent, a.batch.events) {
      RowsAppendKnown(r, db.rows, more, k);
    } else {
      FirstAppend(db.rows, more, OfKey(r, k));
      FirstAppend(db.rows, more, Detection(r, k));
    }
  }

  lemma RowsAppendKnown(r: Rules, rows: seq<Row>, more: seq<Row>, k: IncidentKey)
    ensures (exists row :: row in rows + more && RowKey(r, row) == k) <==>
            (exists row :: row in rows && RowKey(r, row) == k) || (exists row :: row in more && RowKey(r, row) == k)
    ensures (exists row :: row in rows + more && RowKey(r, row) == k && row.event.blocked) <==>
            (exists row :: row in rows && RowKey(r, row) == k && row.event.blocked)
            || (exists row :: row in more && RowKey(r, row) == k && row.event.blocked)
  {
    assert forall row :: row in rows + more <==> row in rows || row in more;
  }

  lemma {:induction false} AfterRowsInv(r: Rules, h: seq<Arrival>)
    ensures RowsInv(r, After(r, h))
  {
    if h != [] {
      AfterRowsInv(r, h[..|h| - 1]);
      IngestRowsInv(r, After(r, h[..|h| - 1]), h[|h| - 1]);
    }
  }

  /** Over every history: an incident exists exactly for the keys of accepted events, its blocked flag
      is the OR over them, and its primary event is the least non-summary row, else the least row. */
  lemma IncidentsSummariseRows(r: Rules, h: seq<Arrival>, k: IncidentKey)
    ensures var db := After(r, h);
      && (k in db.incidents <==> exists row :: row in db.rows && RowKey(r, row) == k)
      && (k in db.incidents ==>
            && (db.incidents[k].blocked <==> exists row :: row in db.rows && RowKey(r, row) == k && row.event.blocked)
            && db.incidents[k].primary.Some?
            && var p := db.incidents[k].primary.value;
               && p < |db.rows| && RowKey(r, db.rows[p]) == k
               && (r.sqlSummary(db.rows[p].event) ==>
                     forall i :: 0 <= i < |db.rows| && RowKey(r, db.rows[i]) == k ==>
                       r.sqlSummary(db.rows[i].event) && p <= i)
               && (!r.sqlSummary(db.rows[p].event) ==>
                     forall i :: 0 <= i < p && RowKey(r, db.rows[i]) == k ==> r.sqlSummary(db.rows[i].event)))
  {
    AfterRowsInv(r, h);
    var db := After(r, h);
    assert MatchesRows(r, db.rows, k, Lookup(db.incidents, k));
    if k in db.incidents {
      var row :| row in db.rows && RowKey(r, row) == k;
      assert OfKey(r, k)(row);
      PrimaryRowIsLeast(r, db.rows, k);
    }
  }

  lemma PrimaryRowIsLeast(r: Rules, rows: seq<Row>, k: IncidentKey)
    requires First(rows, OfKey(r, k)).Some?
    ensures var p := PrimaryRow(r, rows, k);
      && p.Some? && p.value < |rows| && RowKey(r, rows[p.value]) == k
      && (r.sqlSummary(rows[p.value].event) ==>
            forall i :: 0 <= i < |rows| && RowKey(r, rows[i]) == k ==> r.sqlSummary(rows[i].event) && p.value <= i)
      && (!r.sqlSummary(rows[p.value].event) ==>
            forall i :: 0 <= i < p.value && RowKey(r, rows[i]) == k ==> r.sqlSummary(rows[i].event))
  {
    var d := First(rows, Detection(r, k));
    if d.None? {
      forall i | 0 <= i < |rows| && RowKey(r, rows[i]) == k ensures r.sqlSummary(rows[i].event) {
        assert rows[i] in rows && !Detection(r, k)(rows[i]);
      }
      forall i | 0 <= i < First(rows, OfKey(r, k)).value ensures RowKey(r, rows[i]) != k {
        assert !OfKey(r, k)(rows[i]);
      }
    } else {
      forall i | 0 <= i < d.value && RowKey(r, rows[i]) == k ensures r.sqlSummary(rows[i].event) {
        assert !Detection(r, k)(rows[i]);
      }
    }
  }

  // ---- incidents against the accepted batches

  predicate Touches(r: Rules, a: Arrival, k: IncidentKey) {
    k in BatchKeys(r, a.agent, a.batch.events)
  }

  lemma TouchedGroup(r: Rules, a: Arrival, k: IncidentKey)
    requires Touches(r, a, k)
    ensures k.agent == a.agent && Group(r, a.batch.events, k.key) != []
  {
    var e :| e in a.batch.events && k == IncidentKey(a.agent, r.key(e));
    assert e in Group(r, a.batch.events, k.key);
  }

  /** Primary event of the part of a delivery that belongs to an incident. */
  function PrimaryOf(r: Rules, a: Arrival, k: IncidentKey): SecurityEvent
    requires Touches(r, a, k)
  {
    TouchedGroup(r, a, k);
    Primary(r, Group(r, a.batch.events, k.key))
  }

  /** Primaries of the batches of a history that touch an incident. */
  function Primaries(r: Rules, acc: seq<Arrival>, k: IncidentKey): seq<SecurityEvent> {
    if acc == [] then []
    else
      var front, a := Primaries(r, acc[..|acc| - 1], k), acc[|acc| - 1];
      if Touches(r, a, k) then front + [PrimaryOf(r, a, k)] else front
  }

  lemma {:induction false} PrimariesElements(r: Rules, acc: seq<Arrival>, k: IncidentKey, p: SecurityEvent)
    ensures p in Primaries(r, acc, k) <==> exists a :: a in acc && Touches(r, a, k) && p == PrimaryOf(r, a, k)
  {
    if acc != [] {
      var front, last := acc[..|acc| - 1], acc[|acc| - 1];
      PrimariesElements(r, front, k, p);
      assert forall a :: a in acc <==> a in front || a == last;
    }
  }

  /** Rank and time of an incident are the maximum and the minimum over `ps`. */
  ghost predicate Extremes(r: Rules, ps: seq<SecurityEvent>, incident: Option<Incident>) {
    if incident.None? then ps == []
    else
      && (forall p :: p in ps ==> r.rank(p) <= incident.value.rank && incident.value.occurredAt <= p.occurredAt)
      && (exists p :: p in ps && r.rank(p) == incident.value.rank)
      && (exists p :: p in ps && p.occurredAt == incident.value.occurredAt)
  }

  lemma ExtremesOfUpsert(r: Rules, ps: seq<SecurityEvent>, existing: Option<Incident>, g: seq<SecurityEvent>, primary: Option<nat>)
    requires Extremes(r, ps, existing) && g != []
    ensures Extremes(r, ps + [Primary(r, g)], Some(Upsert(r, existing, g).(primary := primary)))
  {
    var p := Primary(r, g);
    assert p in ps + [p];
    if existing.Some? {
      var x :| x in ps && r.rank(x) == existing.value.rank;
      var y :| y in ps && y.occurredAt == existing.value.occurredAt;
      assert x in ps + [p] && y in ps + [p];
    }
  }

  lemma ExtremesUnique(r: Rules, ps: seq<SecurityEvent>, qs: seq<SecurityEvent>, i: Option<Incident>, j: Option<Incident>)
    requires Extremes(r, ps, i) && Extremes(r, qs, j)
    requires forall p :: p in ps <==> p in qs
    ensures i.Some? <==> j.Some?
    ensures i.Some? ==> i.value.rank == j.value.rank && i.value.occurredAt == j.value.occurredAt
  {
    if i.Some? {
      var x :| x in ps && r.rank(x) == i.value.rank;
      assert x in qs;
    }
    if j.Some? {
      var x :| x in qs && r.rank(x) == j.value.rank;
      assert x in ps;
    }
  }

  /** What one accepted delivery does to one incident. */
  lemma IngestLookup(r: Rules, db: Db, a: Arrival, k: IncidentKey)
    requires Accepts(db, a)
    ensures !Touches(r, a, k) ==> Lookup(Ingest(r, db, a).incidents, k) == Lookup(db.incidents, k)
    ensures Touches(r, a, k) ==>
      && Group(r, a.batch.events, k.key) != []
      && Lookup(Ingest(r, db, a).incidents, k) ==
           Some(Upsert(r, Lookup(db.incidents, k), Group(r, a.batch.events, k.key))
                .(primary := PrimaryRow(r, Ingest(r, db, a).rows, k)))
  {
    if Touches(r, a, k) { TouchedGroup(r, a, k); }
  }

  lemma {:induction false} AfterMatchesBatches(r: Rules, h: seq<Arrival>, k: IncidentKey)
    ensures Extremes(r, Primaries(r, Accepted(r, h), k), Lookup(After(r, h).incidents, k))
  {
    if h != [] {
      var front, a := h[..|h| - 1], h[|h| - 1];
      var db := After(r, front);
      AfterMatchesBatches(r, front, k);
      if Accepts(db, a) {
        IngestLookup(r, db, a, k);
        assert (Accepted(r, front) + [a])[..|Accepted(r, front)|] == Accepted(r, front);
        if Touches(r, a, k) {
          ExtremesOfUpsert(r, Primaries(r, Accepted(r, front), k), Lookup(db.incidents, k),
                           Group(r, a.batch.events, k.key), PrimaryRow(r, Ingest(r, db, a).rows, k));
        }
      }
    }
  }

  /** For one split into batches, the category rank and the time of an incident are the maximum and the
      minimum over the per-batch primaries, whatever the order of arrival. */
  lemma OrderDoesNotMatter(r: Rules, h1: seq<Arrival>, h2: seq<Arrival>, k: IncidentKey)
    requires forall a :: a in Accepted(r, h1) <==> a in Accepted(r, h2)
    ensures Extremes(r, Primaries(r, Accepted(r, h1), k), Lookup(After(r, h1).incidents, k))
    ensures k in After(r, h1).incidents <==> k in After(r, h2).incidents
    ensures k in After(r, h1).incidents ==>
              && After(r, h1).incidents[k].rank == After(r, h2).incidents[k].rank
              && After(r, h1).incidents[k].occurredAt == After(r, h2).incidents[k].occurredAt
  {
    AfterMatchesBatches(r, h1, k);
    AfterMatchesBatches(r, h2, k);
    var ps, qs := Primaries(r, Accepted(r, h1), k), Primaries(r, Accepted(r, h2), k);
    forall p ensures p in ps <==> p in qs {
      PrimariesElements(r, Accepted(r, h1), k, p);
      PrimariesElements(r, Accepted(r, h2), k, p);
    }
    ExtremesUnique(r, ps, qs, Lookup(After(r, h1).incidents, k), Lookup(After(r, h2).incidents, k));
  }

  // ---- incidents against the accepted events, whatever batches they came in

  /** The accepted events of an incident, in order of arrival. */
  function EventsFor(r: Rules, acc: seq<Arrival>, k: IncidentKey): seq<SecurityEvent> {
    if acc == [] then []
    else
      var a := acc[|acc| - 1];
      EventsFor(r, acc[..|acc| - 1], k) + (if a.agent == k.agent then Group(r, a.batch.events, k.key) else [])
  }

  lemma TouchesGroup(r: Rules, a: Arrival, k: IncidentKey)
    ensures Touches(r, a, k) <==> a.agent == k.agent && Group(r, a.batch.events, k.key) != []
  {
    if a.agent == k.agent && Group(r, a.batch.events, k.key) != [] {
      var e := Group(r, a.batch.events, k.key)[0];
      assert e in Group(r, a.batch.events, k.key);
      assert k == IncidentKey(a.agent, r.key(e));
    }
    if Touches(r, a, k) { TouchedGroup(r, a, k); }
  }

  /** The stored rows of an incident are its accepted events. */
  lemma {:induction false} RowsAreAccepted(r: Rules, h: seq<Arrival>, k: IncidentKey, e: SecurityEvent)
    ensures e in EventsFor(r, Accepted(r, h), k) <==> r.key(e) == k.key && Row(k.agent, e) in After(r, h).rows
  {
    if h != [] {
      var front, a := h[..|h| - 1], h[|h| - 1];
      RowsAreAccepted(r, front, k, e);
      if Accepts(After(r, front), a) {
        assert (Accepted(r, front) + [a])[..|Accepted(r, front)|] == Accepted(r, front);
        BatchRowOf(a.agent, a.batch.events, k.agent, e);
      }
    }
  }

  lemma BatchRowOf(agent: string, events: seq<SecurityEvent>, other: string, e: SecurityEvent)
    ensures Row(other, e) in BatchRows(agent, events) <==> other == agent && e in events
  {
    if other == agent && e in events {
      var i :| 0 <= i < |events| && events[i] == e;
      assert BatchRows(agent, events)[i] == Row(agent, e);
    }
  }

  /** Over every history an incident exists exactly when an event of its key was accepted, and it is blocked exactly
      when one of them is. */
  lemma IncidentSummarisesEvents(r: Rules, h: seq<Arrival>, k: IncidentKey)
    ensures k in After(r, h).incidents <==> EventsFor(r, Accepted(r, h), k) != []
    ensures k in After(r, h).incidents ==> (After(r, h).incidents[k].blocked <==> AnyBlocked(EventsFor(r, Accepted(r, h), k)))
  {
    var events, rows := EventsFor(r, Accepted(r, h), k), After(r, h).rows;
    IncidentsSummariseRows(r, h, k);
    forall e ensures e in events <==> r.key(e) == k.key && Row(k.agent, e) in rows { RowsAreAccepted(r, h, k, e); }
    assert events != [] <==> exists e :: e in events by { if events != [] { assert events[0] in events; } }
    if row :| row in rows && RowKey(r, row) == k {
      assert row == Row(k.agent, row.event) && row.event in events;
    }
    if row :| row in rows && RowKey(r, row) == k && row.event.blocked {
      assert row == Row(k.agent, row.event) && row.event in events;
    }
  }

  /** The blocked flag does not depend on how events were split into batches, on their order, or on redelivery. */
  lemma BlockedIndependentOfBatching(r: Rules, h1: seq<Arrival>, h2: seq<Arrival>, k: IncidentKey)
    requires forall e :: e in EventsFor(r, Accepted(r, h1), k) <==> e in EventsFor(r, Accepted(r, h2), k)
    ensures k in After(r, h1).incidents <==> k in After(r, h2).incidents
    ensures k in After(r, h1).incidents ==> After(r, h1).incidents[k].blocked == After(r, h2).incidents[k].blocked
  {
    IncidentSummarisesEvents(r, h1, k);
    IncidentSummarisesEvents(r, h2, k);
    var a, b := EventsFor(r, Accepted(r, h1), k), EventsFor(r, Accepted(r, h2), k);
    assert a != [] ==> a[0] in b;
    assert b != [] ==> b[0] in a;
  }

  // ---- the category does depend on the split

  lemma PrimaryOfConcat(r: Rules, a: seq<SecurityEvent>, b: seq<SecurityEvent>)
    requires a != [] && b != []
    ensures Primary(r, a + b) == if SortClass(r, Primary(r, a)) <= SortClass(r, Primary(r, b)) then Primary(r, a) else Primary(r, b)
  {
    ClassOrder(r);
    var le := ByClass(r);
    var i := SortHead(le, a);
    var j := SortHead(le, b);
    var n := SortHead(le, a + b);
    var s := a + b;
    assert s[i] == a[i] && s[|a| + j] == b[j];
    assert le(s[n], s[i]) && le(s[n], s[|a| + j]);
    if n < |a| {
      assert s[n] == a[n] && le(s[i], s[n]) && le(a[n], a[i]);
      assert i == n;
    } else {
      assert s[n] == b[n - |a|] && le(s[|a| + j], s[n]) && le(b[n - |a|], b[j]);
      assert n == |a| + j && !le(s[i], s[n]);
    }
  }

  /** The primary of all events of an incident is the primary of one of its batches. */
  lemma {:induction false} OverallIsOfOneBatch(r: Rules, acc: seq<Arrival>, k: IncidentKey)
    ensures EventsFor(r, acc, k) == [] <==> Primaries(r, acc, k) == []
    ensures EventsFor(r, acc, k) != [] ==> Primary(r, EventsFor(r, acc, k)) in Primaries(r, acc, k)
  {
    if acc != [] {
      var front, a := acc[..|acc| - 1], acc[|acc| - 1];
      OverallIsOfOneBatch(r, front, k);
      TouchesGroup(r, a, k);
      var events := EventsFor(r, front, k);
      if Touches(r, a, k) {
        var group := Group(r, a.batch.events, k.key);
        if events == [] { assert events + group == group; } else { PrimaryOfConcat(r, events, group); }
      } else {
        assert events + [] == events;
      }
    }
  }

  /** Over every history the category of an incident is that of the primary of all its events, as if they had come
      in one batch, exactly when no primary of a batch outranks it; and its time is that primary's exactly when no
      primary of a batch is earlier. */
  lemma CategoryIsOverall(r: Rules, h: seq<Arrival>, k: IncidentKey)
    requires k in After(r, h).incidents
    ensures EventsFor(r, Accepted(r, h), k) != []
    ensures var stored, all, ps := After(r, h).incidents[k], Primary(r, EventsFor(r, Accepted(r, h), k)), Primaries(r, Accepted(r, h), k);
            && (stored.rank == r.rank(all) <==> forall p :: p in ps ==> r.rank(p) <= r.rank(all))
            && (stored.occurredAt == all.occurredAt <==> forall p :: p in ps ==> all.occurredAt <= p.occurredAt)
  {
    IncidentSummarisesEvents(r, h, k);
    OverallIsOfOneBatch(r, Accepted(r, h), k);
    AfterMatchesBatches(r, h, k);
  }

  function OneBatch(agent: string, events: seq<SecurityEvent>): seq<Arrival> {
    [Arrival(agent, EventBatch("1", events), true)]
  }

  function TwoBatches(agent: string, a: seq<SecurityEvent>, b: seq<SecurityEvent>): seq<Arrival> {
    [Arrival(agent, EventBatch("1", a), true), Arrival(agent, EventBatch("2", b), true)]
  }

  lemma {:induction false} GroupAll(r: Rules, events: seq<SecurityEvent>, key: string)
    requires forall e :: e in events ==> r.key(e) == key
    ensures Group(r, events, key) == events
  {
    if events != [] {
      assert events[|events| - 1] in events;
      GroupAll(r, events[..|events| - 1], key);
    }
  }

  lemma AfterOne(r: Rules, a: Arrival)
    ensures After(r, [a]) == Ingest(r, EMPTY, a)
  {
    assert [a][..0] == [];
    assert After(r, [a][..0]) == EMPTY;
  }

  lemma AfterTwo(r: Rules, a: Arrival, b: Arrival)
    ensures After(r, [a, b]) == Ingest(r, Ingest(r, EMPTY, a), b)
  {
    AfterOne(r, a);
    assert [a, b][..1] == [a];
  }

  predicate OfRequest(r: Rules, events: seq<SecurityEvent>, k: IncidentKey) {
    && events != [] && (forall e :: e in events ==> r.key(e) == k.key)
    && forall i, j :: 0 <= i < j < |events| ==> events[i].eventId != events[j].eventId
  }

  lemma TouchesAll(r: Rules, events: seq<SecurityEvent>, k: IncidentKey, id: string)
    requires OfRequest(r, events, k)
    ensures Touches(r, Arrival(k.agent, EventBatch(id, events), true), k) && Group(r, events, k.key) == events
  {
    GroupAll(r, events, k.key);
    TouchesGroup(r, Arrival(k.agent, EventBatch(id, events), true), k);
  }

  lemma OneBatchStores(r: Rules, events: seq<SecurityEvent>, k: IncidentKey)
    requires OfRequest(r, events, k)
    ensures k in After(r, OneBatch(k.agent, events)).incidents
    ensures var i := After(r, OneBatch(k.agent, events)).incidents[k];
            i.rank == r.rank(Primary(r, events)) && i.occurredAt == Primary(r, events).occurredAt
  {
    var a := Arrival(k.agent, EventBatch("1", events), true);
    AfterOne(r, a);
    TouchesAll(r, events, k, "1");
    IngestLookup(r, EMPTY, a, k);
  }

  lemma TwoBatchesStore(r: Rules, a: seq<SecurityEvent>, b: seq<SecurityEvent>, k: IncidentKey)
    requires OfRequest(r, a, k) && OfRequest(r, b, k) && OfRequest(r, a + b, k)
    ensures k in After(r, TwoBatches(k.agent, a, b)).incidents
    ensures var i, p, q := After(r, TwoBatches(k.agent, a, b)).incidents[k], Primary(r, a), Primary(r, b);
            && i.rank == (if r.rank(q) > r.rank(p) then r.rank(q) else r.rank(p))
            && i.occurredAt == (if q.occurredAt < p.occurredAt then q.occurredAt else p.occurredAt)
  {
    var x, y := Arrival(k.agent, EventBatch("1", a), true), Arrival(k.agent, EventBatch("2", b), true);
    var db := Ingest(r, EMPTY, x);
    AfterTwo(r, x, y);
    TouchesAll(r, a, k, "1");
    TouchesAll(r, b, k, "2");
    IngestLookup(r, EMPTY, x, k);
    SecondIsFresh(r, a, b, k);
    IngestLookup(r, db, y, k);
  }

  lemma {:induction false} RowsApart(agent: string, a: seq<SecurityEvent>, b: seq<SecurityEvent>)
    requires forall i, j :: 0 <= i < j < |a + b| ==> (a + b)[i].eventId != (a + b)[j].eventId
    ensures Fresh(BatchRows(agent, a), agent, b)
  {
    var rows := BatchRows(agent, a);
    forall e, row | e in b && row in rows ensures row.event.eventId != e.eventId {
      var i :| 0 <= i < |a| && rows[i] == row;
      var j :| 0 <= j < |b| && b[j] == e;
      assert (a + b)[i] == a[i] && (a + b)[|a| + j] == b[j];
    }
    forall i, j | 0 <= i < j < |b| ensures b[i].eventId != b[j].eventId {
      assert (a + b)[|a| + i] == b[i] && (a + b)[|a| + j] == b[j];
    }
  }

  lemma {:induction false} SecondIsFresh(r: Rules, a: seq<SecurityEvent>, b: seq<SecurityEvent>, k: IncidentKey)
    requires OfRequest(r, a, k) && OfRequest(r, b, k) && OfRequest(r, a + b, k)
    ensures Accepts(Ingest(r, EMPTY, Arrival(k.agent, EventBatch("1", a), true)), Arrival(k.agent, EventBatch("2", b), true))
  {
    var db := Ingest(r, EMPTY, Arrival(k.agent, EventBatch("1", a), true));
    assert db.rows == BatchRows(k.agent, a) && db.batches == {(k.agent, "1")};
    RowsApart(k.agent, a, b);
    assert "1" != "2";
  }

  /** One request's events in two batches keep the category they have in one exactly when the primary that loses the
      comparison does not outrank the one that wins it. */
  lemma SplitKeepsCategory(r: Rules, a: seq<SecurityEvent>, b: seq<SecurityEvent>, k: IncidentKey)
    requires OfRequest(r, a, k) && OfRequest(r, b, k) && OfRequest(r, a + b, k)
    ensures k in After(r, OneBatch(k.agent, a + b)).incidents && k in After(r, TwoBatches(k.agent, a, b)).incidents
    ensures var pa, pb := Primary(r, a), Primary(r, b);
            After(r, OneBatch(k.agent, a + b)).incidents[k].rank == After(r, TwoBatches(k.agent, a, b)).incidents[k].rank
            <==> if SortClass(r, pa) <= SortClass(r, pb) then r.rank(pb) <= r.rank(pa) else r.rank(pa) <= r.rank(pb)
  {
    OneBatchStores(r, a + b, k);
    TwoBatchesStore(r, a, b, k);
    PrimaryOfConcat(r, a, b);
  }

  // ---- two concrete events

  const Scanner := SecurityEvent("1", "r", "", 2, "1", "scanner", [], false, "")
  const CrossSite := SecurityEvent("2", "r", "", 1, "2", "attack-xss", [], false, "")

  lemma ScannerText()
    ensures Lower(Join(Scanner.ruleTags, ' ') + " " + Scanner.message) == " scanner"
    ensures Contains(" scanner", "scanner")
  {
    var s := " scanner";
    assert s[1..] == "scanner";
    assert Lower(s) == s;
  }

  lemma ScannerRank()
    ensures RankOf(Scanner) == SCANNER_BOT
  {
    ScannerText();
    var s := " scanner";
    assert |s| == 8;
    TooShortToContain(s, "attack-xss");
    TooShortToContain(s, "cross-site scripting");
    NoInjection(s);
    NoFilePath(s);
  }

  lemma NoInjection(s: string)
    requires |s| == 8
    ensures !Injection(s)
  {
    TooShortToContain(s, "attack-sqli");
    TooShortToContain(s, "attack-injection");
    TooShortToContain(s, "attack-rce");
    TooShortToContain(s, "command-injection");
    TooShortToContain(s, "sql injection");
    TooShortToContain(s, "remote code execution");
  }

  lemma NoFilePath(s: string)
    requires |s| == 8
    ensures !FilePath(s)
  {
    TooShortToContain(s, "attack-lfi");
    TooShortToContain(s, "attack-rfi");
    TooShortToContain(s, "path-traversal");
    TooShortToContain(s, "file-upload");
    TooShortToContain(s, "file inclusion");
    TooShortToContain(s, "directory traversal");
  }

  lemma CrossSiteRank()
    ensures RankOf(CrossSite) == XSS
  {
    var s := " attack-xss";
    assert Lower(s) == s;
    assert s[1..] == "attack-xss";
    assert Join(CrossSite.ruleTags, ' ') + " " + CrossSite.message == s;
  }

  lemma {:induction false} ShortIsNoSummary(id: string)
    requires |id| < 3
    ensures !SummaryPrefix(id)
  {
    assert |"949"| == 3 && |"959"| == 3 && |"980"| == 3;
  }

  lemma {:induction false} OneKey(e: SecurityEvent, request: string)
    requires TrimSpace(e.requestId) == request && |request| == 1
    ensures KeyOf(e) == request
  {
    KeyHolds(e, request, TrimSpace(e.transactionId));
  }

  lemma {:induction false} SourceSummary(e: SecurityEvent)
    ensures SourceRules.summary(e) == SummaryPrefix(TrimSpace(e.ruleId))
  {
  }

  lemma {:induction false} OneChar(s: string)
    requires |s| == 1 && !IsSpace(s[0])
    ensures TrimSpace(s) == s
  {
    assert Text.Trimmed(s);
  }

  lemma {:induction false} OneRequest(e: SecurityEvent, id: string, request: string)
    requires e.ruleId == id && |id| == 1 && !IsSpace(id[0]) && e.requestId == request && |request| == 1 && !IsSpace(request[0])
    ensures KeyOf(e) == request && !SourceRules.summary(e)
  {
    OneChar(id);
    OneChar(request);
    OneKey(e, request);
    SourceSummary(e);
    ShortIsNoSummary(id);
  }

  lemma PrimaryAlone(r: Rules, e: SecurityEvent)
    ensures Primary(r, [e]) == e
  {
    ClassOrder(r);
    var i := SortHead(ByClass(r), [e]);
  }

  /** Two classified detections of one request: one batch keeps the first, two batches the higher rank and the earlier time. */
  lemma PairSplit(r: Rules, a: SecurityEvent, b: SecurityEvent, k: IncidentKey)
    requires r.key(a) == k.key && r.key(b) == k.key && a.eventId != b.eventId
    requires !r.summary(a) && !r.summary(b) && r.rank(a) != OTHER && r.rank(b) != OTHER
    ensures var one, two := After(r, OneBatch(k.agent, [a] + [b])).incidents, After(r, TwoBatches(k.agent, [a], [b])).incidents;
            && k in one && k in two && one[k].rank == r.rank(a) && one[k].occurredAt == a.occurredAt
            && two[k].rank == (if r.rank(b) > r.rank(a) then r.rank(b) else r.rank(a))
            && two[k].occurredAt == (if b.occurredAt < a.occurredAt then b.occurredAt else a.occurredAt)
  {
    PrimaryAlone(r, a);
    PrimaryAlone(r, b);
    PrimaryOfConcat(r, [a], [b]);
    OneBatchStores(r, [a] + [b], k);
    TwoBatchesStore(r, [a], [b], k);
  }

  lemma {:induction false} SourceKey(e: SecurityEvent)
    ensures SourceRules.key(e) == KeyOf(e) && SourceRules.rank(e) == RankOf(e)
  {
  }

  lemma {:induction false} ScannerRequest(e: SecurityEvent)
    requires e == Scanner
    ensures KeyOf(e) == "r" && !SourceRules.summary(e)
  {
    OneRequest(e, "1", "r");
  }

  lemma {:induction false} CrossSiteRequest(e: SecurityEvent)
    requires e == CrossSite
    ensures KeyOf(e) == "r" && !SourceRules.summary(e)
  {
    OneRequest(e, "2", "r");
  }

  lemma {:induction false} Pair(a: SecurityEvent, b: SecurityEvent)
    requires a == Scanner && b == CrossSite
    ensures SourceRules.key(a) == "r" && SourceRules.key(b) == "r" && a.eventId != b.eventId
    ensures !SourceRules.summary(a) && !SourceRules.summary(b)
    ensures SourceRules.rank(a) == SCANNER_BOT && SourceRules.rank(b) == XSS
  {
    ScannerRank();
    CrossSiteRank();
    ScannerRequest(a);
    CrossSiteRequest(b);
    SourceKey(a);
    SourceKey(b);
    assert "1"[0] != "2"[0];
  }

  /** A scanner detection followed by an earlier cross-site scripting detection of one request: in one batch the
      incident is a scanner's at time 2, in two batches it is cross-site scripting at time 1. */
  lemma CategoryDependsOnSplit()
    ensures var k := IncidentKey("a", "r");
            var one, two := After(SourceRules, OneBatch("a", [Scanner] + [CrossSite])).incidents, After(SourceRules, TwoBatches("a", [Scanner], [CrossSite])).incidents;
            && k in one && k in two && one[k].rank == SCANNER_BOT && two[k].rank == XSS && one[k].occurredAt == 2 && two[k].occurredAt == 1
  {
    Pair(Scanner, CrossSite);
    PairSplit(SourceRules, Scanner, CrossSite, IncidentKey("a", "r"));
  }
}
