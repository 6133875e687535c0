/** Policy configurations: a system layer and an enterprise layer in one record
    (internal/manager/policy_configuration.go). */
module Policy {
  import opened Prelude
  import opened Text
  import opened Sorting

  datatype Scope = System | Enterprise

  datatype Stage = BeforeCrs | AfterCrs

  datatype Kind = RuleExclusion | TargetExclusion | TagExclusion | EngineBypass

  datatype Condition = Condition(field: string, operator: string, value: string, order: nat)

  /** A zero `generatedId` means that no rule id is reserved. */
  datatype Exclusion = Exclusion(id: string, scope: Scope, kind: Kind, stage: Stage, ruleId: int, ruleTag: string, target: string,
                                 generatedId: int, reason: string, expiresAt: Option<int>, enabled: bool, legacy: bool,
                                 order: int, conditions: seq<Condition>)

  datatype CustomRule = CustomRule(id: string, scope: Scope, ruleId: int, name: string, phase: string, severity: string,
                                   text: string, sha: string, enabled: bool, legacyRange: bool, order: int)

  datatype IpAction = Block | Trust

  datatype IpRule = IpRule(id: string, scope: Scope, action: IpAction, network: string, generatedId: int, reason: string,
                           expiresAt: Option<int>, createdBy: string, enabled: bool, order: int)

  datatype Setup = Setup(key: string, value: string, scope: Scope)

  datatype Scalars = Scalars(mode: string, blocking: int, executing: int, inbound: int, outbound: int, requestBody: bool,
                             responseBody: bool, earlyBlocking: bool, sampling: int)

  datatype Configuration = Configuration(id: string, systemPolicyId: string, revisionId: string, release: string, namespace: int, scalars: Scalars,
                                         digest: string, setup: seq<Setup>, exclusions: seq<Exclusion>,
                                         customRules: seq<CustomRule>, ipRules: seq<IpRule>)

  /** Clean-ups of single strings: trimming, joining fields by one blank, canonical rule text and network, and the
      digest of a rule text; `keyOrder` is the order of setup keys. */
  datatype Cleanup = Cleanup(trim: string -> string, squash: string -> string, canonical: string -> string,
                             network: string -> string, sha: string -> string, keyOrder: (string, string) -> bool)

  // ---------------------------------------------------------------- clean items

  function CleanScalars(s: Scalars): Scalars {
    s.(executing := if s.executing == 0 then s.blocking else s.executing,
       outbound := if s.outbound == 0 then 4 else s.outbound,
       sampling := if s.sampling == 0 then 100 else s.sampling)
  }

  function CleanSetup(f: Cleanup): Setup -> Setup {
    (item: Setup) => Setup(f.trim(item.key), f.squash(item.value), item.scope)
  }

  /** Conditions are renumbered in place, so the stable sort by order that follows moves none. */
  function CleanConditions(f: Cleanup, conditions: seq<Condition>): seq<Condition> {
    seq(|conditions|, i requires 0 <= i < |conditions| =>
      Condition(f.trim(conditions[i].field), f.trim(conditions[i].operator), f.trim(conditions[i].value), i))
  }

  function CleanExclusion(f: Cleanup): Exclusion -> Exclusion {
    (item: Exclusion) => item.(ruleTag := f.trim(item.ruleTag), target := f.trim(item.target), reason := f.trim(item.reason),
                               conditions := CleanConditions(f, item.conditions))
  }

  function CleanRule(f: Cleanup): CustomRule -> CustomRule {
    (item: CustomRule) => item.(name := f.trim(item.name), phase := f.trim(item.phase), severity := f.trim(item.severity),
                                text := f.canonical(item.text), sha := f.sha(f.canonical(item.text)))
  }

  function CleanIp(f: Cleanup): IpRule -> IpRule {
    (item: IpRule) => item.(network := f.network(item.network), reason := f.trim(item.reason), createdBy := f.trim(item.createdBy))
  }

  // ---------------------------------------------------------------- lists

  function Map<A, B>(f: A -> B, s: seq<A>): (r: seq<B>)
    ensures |r| == |s| && forall i :: 0 <= i < |s| ==> r[i] == f(s[i])
  {
    seq(|s|, i requires 0 <= i < |s| => f(s[i]))
  }

  function Filter<T>(keep: T -> bool, s: seq<T>): seq<T> {
    if s == [] then []
    else
      var front := Filter(keep, s[..|s| - 1]);
      if keep(s[|s| - 1]) then front + [s[|s| - 1]] else front
  }

  lemma MapAppend<A, B>(f: A -> B, a: seq<A>, b: seq<A>)
    ensures Map(f, a + b) == Map(f, a) + Map(f, b)
  {
  }

  lemma {:induction false} FilterAppend<T>(keep: T -> bool, a: seq<T>, b: seq<T>)
    ensures Filter(keep, a + b) == Filter(keep, a) + Filter(keep, b)
  {
    if b == [] {
      assert a + b == a;
    } else {
      FilterAppend(keep, a, b[..|b| - 1]);
      assert (a + b)[..|a + b| - 1] == a + b[..|b| - 1];
    }
  }

  lemma {:induction false} FilterAll<T>(keep: T -> bool, s: seq<T>)
    requires forall i :: 0 <= i < |s| ==> keep(s[i])
    ensures Filter(keep, s) == s
  {
    if s != [] { FilterAll(keep, s[..|s| - 1]); }
  }

  lemma {:induction false} FilterNone<T>(keep: T -> bool, s: seq<T>)
    requires forall i :: 0 <= i < |s| ==> !keep(s[i])
    ensures Filter(keep, s) == []
  {
    if s != [] { FilterNone(keep, s[..|s| - 1]); }
  }

  lemma {:induction false} FilterKeeps<T>(keep: T -> bool, s: seq<T>)
    ensures |Filter(keep, s)| <= |s|
    ensures forall i :: 0 <= i < |Filter(keep, s)| ==> keep(Filter(keep, s)[i])
  {
    if s != [] { FilterKeeps(keep, s[..|s| - 1]); }
  }

  lemma {:induction false} FilterMap<T>(f: T -> T, keep: T -> bool, s: seq<T>)
    requires forall x :: keep(f(x)) == keep(x)
    ensures Filter(keep, Map(f, s)) == Map(f, Filter(keep, s))
  {
    if s != [] {
      var front, last := s[..|s| - 1], s[|s| - 1];
      FilterMap(f, keep, front);
      assert Map(f, s)[..|s| - 1] == Map(f, front);
      MapAppend(f, Filter(keep, front), [last]);
      assert Map(f, [last]) == [f(last)];
    }
  }

  // ---------------------------------------------------------------- normalisation

  function SetupOrder(f: Cleanup): (Setup, Setup) -> bool { (a: Setup, b: Setup) => f.keyOrder(a.key, b.key) }

  predicate ExclusionOrder(a: Exclusion, b: Exclusion) { a.order <= b.order }

  predicate RuleOrder(a: CustomRule, b: CustomRule) { a.order <= b.order }

  predicate IpOrder(a: IpRule, b: IpRule) { a.order <= b.order }

  /** Normalize: cleans every item and sorts each list, stably. */
  function Normalize(f: Cleanup, c: Configuration): Configuration {
    c.(scalars := CleanScalars(c.scalars),
       namespace := if c.namespace == 0 then 1 else c.namespace,
       setup := Sort(SetupOrder(f), Map(CleanSetup(f), c.setup)),
       exclusions := Sort(ExclusionOrder, Map(CleanExclusion(f), c.exclusions)),
       customRules := Sort(RuleOrder, Map(CleanRule(f), c.customRules)),
       ipRules := Sort(IpOrder, Map(CleanIp(f), c.ipRules)))
  }

  predicate Numbered(s: seq<Exclusion>) { forall i :: 0 <= i < |s| ==> s[i].order == i }

  predicate NumberedRules(s: seq<CustomRule>) { forall i :: 0 <= i < |s| ==> s[i].order == i }

  /** Lists numbered by their index are only cleaned. */
  lemma NumberedStay(f: Cleanup, exclusions: seq<Exclusion>, rules: seq<CustomRule>)
    requires Numbered(exclusions) && NumberedRules(rules)
    ensures Sort(ExclusionOrder, Map(CleanExclusion(f), exclusions)) == Map(CleanExclusion(f), exclusions)
    ensures Sort(RuleOrder, Map(CleanRule(f), rules)) == Map(CleanRule(f), rules)
  {
    SortOfSorted(ExclusionOrder, Map(CleanExclusion(f), exclusions));
    SortOfSorted(RuleOrder, Map(CleanRule(f), rules));
  }

  // ---------------------------------------------------------------- item ids

  function BlankExclusion(item: Exclusion): Exclusion { item.(id := "") }

  function BlankRule(item: CustomRule): CustomRule { item.(id := "") }

  function BlankIp(item: IpRule): IpRule { item.(id := "") }

  /** Blanks the ids of all items. */
  function BlankIds(c: Configuration): Configuration {
    c.(exclusions := Map(BlankExclusion, c.exclusions), customRules := Map(BlankRule, c.customRules),
       ipRules := Map(BlankIp, c.ipRules))
  }

  /** What the digest is taken of. */
  function Snapshot(c: Configuration): Configuration {
    BlankIds(c).(id := "", systemPolicyId := "", revisionId := "", digest := "")
  }

  // ---------------------------------------------------------------- setup

  /** Setup values that the scalars decide. */
  function CoreMap(s: Scalars): map<string, string> {
    map["blocking_paranoia_level" := FormatInt(s.blocking), "detection_paranoia_level" := FormatInt(s.executing),
        "inbound_anomaly_score_threshold" := FormatInt(s.inbound), "outbound_anomaly_score_threshold" := FormatInt(s.outbound),
        "early_blocking" := if s.earlyBlocking then "1" else "0", "sampling_percentage" := FormatInt(s.sampling)]
  }

  /** What each of these keys holds. */
  lemma {:induction false} CoreValues(s: Scalars, m: map<string, string>)
    requires m == CoreMap(s)
    ensures "blocking_paranoia_level" in m && m["blocking_paranoia_level"] == FormatInt(s.blocking)
    ensures "detection_paranoia_level" in m && m["detection_paranoia_level"] == FormatInt(s.executing)
    ensures "inbound_anomaly_score_threshold" in m && m["inbound_anomaly_score_threshold"] == FormatInt(s.inbound)
    ensures "outbound_anomaly_score_threshold" in m && m["outbound_anomaly_score_threshold"] == FormatInt(s.outbound)
    ensures "early_blocking" in m && m["early_blocking"] == if s.earlyBlocking then "1" else "0"
    ensures "sampling_percentage" in m && m["sampling_percentage"] == FormatInt(s.sampling)
  {
    assert |"blocking_paranoia_level"| == 23 && |"detection_paranoia_level"| == 24 && |"inbound_anomaly_score_threshold"| == 31;
    assert |"outbound_anomaly_score_threshold"| == 32 && |"early_blocking"| == 14 && |"sampling_percentage"| == 19;
  }

  function PutAll(m: map<string, string>, items: seq<Setup>): map<string, string> {
    if items == [] then m else PutAll(m, items[..|items| - 1])[items[|items| - 1].key := items[|items| - 1].value]
  }

  /** CRSSetupMap: the items, then the scalars; `core` gives the values the scalars decide. */
  function SetupMap(core: Scalars -> map<string, string>, c: Configuration): map<string, string> {
    PutAll(map[], c.setup) + core(c.scalars)
  }
}
