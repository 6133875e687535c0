/** The values that travel from an Agent to the Manager (package model). */
module Events {

  newtype byte = x: int | 0 <= x < 256

  datatype SecurityEvent = SecurityEvent(
    eventId: string, requestId: string, transactionId: string, occurredAt: int,
    ruleId: string, message: string, ruleTags: seq<string>, blocked: bool,
    policyRevision: string)

  datatype EventBatch = EventBatch(batchId: string, events: seq<SecurityEvent>)

  /** The part of an event that comes from the log: the Agent stamps the policy revision afterwards. */
  function Unstamped(e: SecurityEvent): SecurityEvent {
    e.(policyRevision := "")
  }

  function UnstampedAll(events: seq<SecurityEvent>): (r: seq<SecurityEvent>)
    ensures |r| == |events|
  {
    seq(|events|, i requires 0 <= i < |events| => Unstamped(events[i]))
  }

  lemma UnstampedAppend(a: seq<SecurityEvent>, b: seq<SecurityEvent>)
    ensures UnstampedAll(a + b) == UnstampedAll(a) + UnstampedAll(b)
  {
  }
}
