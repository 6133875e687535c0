/** What a stored configuration must satisfy, and the rule id namespaces
    (internal/manager/policy_configuration.go). */
module PolicyValidation {
  import opened Prelude
  import opened Policy

  const GeneratedMin: int := 5000
  const GeneratedMax: int := 9999
  const SystemMin: int := 10000
  const SystemMax: int := 39999
  const EnterpriseMin: int := 40000
  const EnterpriseMax: int := 89999
  const Week: int := 604800

  /** Checks of texts that are not modelled further: targets, tags, conditions and networks, and the rule id of
      a safe single SecRule. */
  datatype Checks = Checks(target: string -> bool, tag: string -> bool, condition: Condition -> bool,
                           network: string -> bool, ruleId: string -> Option<int>)

  predicate LegacyId(id: int) { 100000 <= id <= 199999 || 240000 <= id <= 249999 }

  predicate Generated(id: int) { GeneratedMin <= id <= GeneratedMax }

  predicate InNamespace(scope: Scope, id: int) {
    match scope
    case System => SystemMin <= id <= SystemMax
    case Enterprise => EnterpriseMin <= id <= EnterpriseMax
  }

  /** validatePolicyExclusion. */
  predicate ValidExclusion(k: Checks, x: Exclusion, now: int) {
    && (x.stage == BeforeCrs ==> x.conditions != [] && x.generatedId != 0)
    && (x.stage == AfterCrs ==> x.conditions == [] && x.generatedId == 0)
    && ValidKind(k, x, now)
    && forall i :: 0 <= i < |x.conditions| ==> k.condition(x.conditions[i])
  }

  predicate ValidKind(k: Checks, x: Exclusion, now: int) {
    match x.kind
    case RuleExclusion => x.ruleId != 0
    case TargetExclusion => x.ruleId != 0 && k.target(x.target)
    case TagExclusion => k.tag(x.ruleTag)
    case EngineBypass =>
      && x.stage == BeforeCrs
      && (!x.legacy ==> x.reason != "" && x.expiresAt.Some? && now <= x.expiresAt.value <= now + Week)
  }

  predicate ValidIp(k: Checks, x: IpRule, now: int) {
    && k.network(x.network) && x.reason != ""
    && match x.action
       case Trust => x.expiresAt.Some? && now < x.expiresAt.value <= now + Week
       case Block => x.expiresAt.Some? ==> x.expiresAt.value > now
  }

  predicate ValidRule(k: Checks, x: CustomRule) {
    && x.ruleId != 0 && x.text != "" && k.ruleId(x.text) == Some(x.ruleId)
    && (!x.legacyRange ==> InNamespace(x.scope, x.ruleId))
    && (x.legacyRange ==> LegacyId(x.ruleId))
  }

  predicate ValidScalars(s: Scalars) {
    && (s.mode == "DetectionOnly" || s.mode == "On")
    && 1 <= s.blocking <= s.executing <= 4
    && 1 <= s.inbound <= 100 && 1 <= s.outbound <= 100 && 1 <= s.sampling <= 100
  }

  predicate ValidSetup(items: seq<Setup>) {
    && (forall i :: 0 <= i < |items| ==> items[i].key != "" && items[i].value != "")
    && (forall i, j :: 0 <= i < j < |items| ==> items[i].key != items[j].key)
  }

  // ---------------------------------------------------------------- ids

  function ExclusionId(x: Exclusion): int { x.generatedId }

  function IpId(x: IpRule): int { x.generatedId }

  function RuleId(x: CustomRule): int { x.ruleId }

  predicate NoDuplicates(ids: seq<int>) { forall i, j :: 0 <= i < j < |ids| ==> ids[i] != ids[j] }

  /** Ids that exclusions reserve. */
  function Reserved(s: seq<Exclusion>): seq<int> { Filter((id: int) => id != 0, Map(ExclusionId, s)) }

  /** All rule ids of a configuration. */
  function RuleIds(c: Configuration): seq<int> {
    Reserved(c.exclusions) + Map(IpId, c.ipRules) + Map(RuleId, c.customRules)
  }

  /** Reserved ids are in the generated range, and no id occurs twice. */
  ghost predicate ValidIds(c: Configuration) {
    && (forall i :: 0 <= i < |Reserved(c.exclusions)| ==> Generated(Reserved(c.exclusions)[i]))
    && (forall i :: 0 <= i < |c.ipRules| ==> Generated(c.ipRules[i].generatedId))
    && NoDuplicates(RuleIds(c))
  }

  /** ValidateAt. */
  ghost predicate Valid(k: Checks, c: Configuration, now: int) {
    && (c.systemPolicyId == "" <==> c.revisionId != "")
    && ValidScalars(c.scalars) && c.namespace == 1 && ValidSetup(c.setup)
    && (forall i :: 0 <= i < |c.exclusions| ==> ValidExclusion(k, c.exclusions[i], now))
    && (forall i :: 0 <= i < |c.ipRules| ==> ValidIp(k, c.ipRules[i], now))
    && (forall i, j :: 0 <= i < j < |c.ipRules| ==>
          c.ipRules[i].action != c.ipRules[j].action || c.ipRules[i].network != c.ipRules[j].network)
    && (forall i :: 0 <= i < |c.customRules| ==> ValidRule(k, c.customRules[i]))
    && ValidIds(c)
  }

  /** The ranges of rule ids. */
  lemma {:induction false} Ranges(id: int)
    ensures Generated(id) <==> 5000 <= id <= 9999
    ensures InNamespace(System, id) <==> 10000 <= id <= 39999
    ensures InNamespace(Enterprise, id) <==> 40000 <= id <= 89999
    ensures LegacyId(id) <==> 100000 <= id <= 199999 || 240000 <= id <= 249999
  {
  }

  lemma {:induction false} NonZeroKept(ids: seq<int>, id: int)
    ensures id in Filter((id: int) => id != 0, ids) <==> id in ids && id != 0
  {
    if ids != [] {
      NonZeroKept(ids[..|ids| - 1], id);
      assert ids == ids[..|ids| - 1] + [ids[|ids| - 1]];
    }
  }

  lemma {:induction false} DistinctUnlessZero(ids: seq<int>)
    ensures NoDuplicates(Filter((id: int) => id != 0, ids)) <==>
              forall i, j :: 0 <= i < j < |ids| && ids[i] != 0 ==> ids[i] != ids[j]
  {
    if ids != [] {
      var front, last := ids[..|ids| - 1], ids[|ids| - 1];
      DistinctUnlessZero(front);
      NonZeroKept(front, last);
      NoDuplicatesSnoc(Filter((id: int) => id != 0, front), last);
      assert ids == front + [last];
      if forall i, j :: 0 <= i < j < |front| && front[i] != 0 ==> front[i] != front[j] {
        assert (forall i :: 0 <= i < |front| && front[i] != 0 ==> front[i] != last) <==> last == 0 || last !in front;
      }
      assert (forall i, j :: 0 <= i < j < |ids| && ids[i] != 0 ==> ids[i] != ids[j])
          <==> (forall i, j :: 0 <= i < j < |front| && front[i] != 0 ==> front[i] != front[j])
               && (forall i :: 0 <= i < |front| && front[i] != 0 ==> front[i] != last) by {
        assert forall i :: 0 <= i < |front| ==> front[i] == ids[i];
        assert ids[|front|] == last;
      }
    }
  }

  lemma {:induction false} NoDuplicatesJoin(a: seq<int>, b: seq<int>)
    ensures NoDuplicates(a + b) <==> NoDuplicates(a) && NoDuplicates(b) && forall i, j :: 0 <= i < |a| && 0 <= j < |b| ==> a[i] != b[j]
  {
    if NoDuplicates(a + b) {
      NoDuplicatesPrefix(a, b);
      forall i, j | 0 <= i < j < |b| ensures b[i] != b[j] { assert (a + b)[|a| + i] != (a + b)[|a| + j]; }
      forall i, j | 0 <= i < |a| && 0 <= j < |b| ensures a[i] != b[j] { assert (a + b)[i] != (a + b)[|a| + j]; }
    }
  }

  /** Ids of two lists of items are apart. */
  ghost predicate Apart(a: seq<int>, b: seq<int>) { forall i, j :: 0 <= i < |a| && 0 <= j < |b| && a[i] != 0 ==> a[i] != b[j] }

  /** The rule ids of a configuration, item by item: an exclusion may have none. */
  ghost predicate IdsOfItems(c: Configuration, x: seq<int>, ips: seq<int>, rules: seq<int>) {
    && |x| == |c.exclusions| && (forall i :: 0 <= i < |x| ==> x[i] == c.exclusions[i].generatedId)
    && |ips| == |c.ipRules| && (forall i :: 0 <= i < |ips| ==> ips[i] == c.ipRules[i].generatedId)
    && |rules| == |c.customRules| && (forall i :: 0 <= i < |rules| ==> rules[i] == c.customRules[i].ruleId)
  }

  lemma {:induction false} ReservedApart(x: seq<int>, reserved: seq<int>, ids: seq<int>)
    requires forall id :: id in reserved <==> id in x && id != 0
    ensures (forall i, j :: 0 <= i < |reserved| && 0 <= j < |ids| ==> reserved[i] != ids[j]) <==> Apart(x, ids)
  {
    if forall i, j :: 0 <= i < |reserved| && 0 <= j < |ids| ==> reserved[i] != ids[j] {
      forall i, j | 0 <= i < |x| && 0 <= j < |ids| && x[i] != 0 ensures x[i] != ids[j] {
        assert x[i] in x && x[i] in reserved;
        var k :| 0 <= k < |reserved| && reserved[k] == x[i];
      }
    }
    if Apart(x, ids) {
      forall i, j | 0 <= i < |reserved| && 0 <= j < |ids| ensures reserved[i] != ids[j] {
        var id := reserved[i];
        assert id in reserved;
        var k :| 0 <= k < |x| && x[k] == id;
      }
    }
  }

  /** Ids are valid exactly when reserved ones are generated ids, IP rules have one, and no two items share one. */
  lemma {:induction false} ValidIdsAre(c: Configuration, x: seq<int>, ips: seq<int>, rules: seq<int>)
    requires IdsOfItems(c, x, ips, rules)
    ensures ValidIds(c) <==>
              && (forall i :: 0 <= i < |x| ==> x[i] == 0 || 5000 <= x[i] <= 9999)
              && (forall i :: 0 <= i < |ips| ==> 5000 <= ips[i] <= 9999)
              && (forall i, j :: 0 <= i < j < |x| && x[i] != 0 ==> x[i] != x[j])
              && NoDuplicates(ips) && NoDuplicates(rules)
              && Apart(x, ips) && Apart(x, rules) && (forall i, j :: 0 <= i < |ips| && 0 <= j < |rules| ==> ips[i] != rules[j])
  {
    assert x == Map(ExclusionId, c.exclusions) && ips == Map(IpId, c.ipRules) && rules == Map(RuleId, c.customRules);
    var reserved := Reserved(c.exclusions);
    DistinctUnlessZero(x);
    forall id ensures id in reserved <==> id in x && id != 0 { NonZeroKept(x, id); }
    NoDuplicatesJoin(reserved, ips);
    NoDuplicatesJoin(reserved + ips, rules);
    ReservedApart(x, reserved, ips);
    ReservedApart(x, reserved, rules);
    JoinApart(reserved, ips, rules);
    InRange(x, reserved);
  }

  lemma {:induction false} JoinApart(a: seq<int>, b: seq<int>, c: seq<int>)
    ensures (forall i, j :: 0 <= i < |a + b| && 0 <= j < |c| ==> (a + b)[i] != c[j]) <==>
              (forall i, j :: 0 <= i < |a| && 0 <= j < |c| ==> a[i] != c[j]) && (forall i, j :: 0 <= i < |b| && 0 <= j < |c| ==> b[i] != c[j])
  {
    var all := a + b;
    if forall i, j :: 0 <= i < |all| && 0 <= j < |c| ==> all[i] != c[j] {
      forall i, j | 0 <= i < |a| && 0 <= j < |c| ensures a[i] != c[j] { assert all[i] == a[i]; }
      forall i, j | 0 <= i < |b| && 0 <= j < |c| ensures b[i] != c[j] { assert all[|a| + i] == b[i]; }
    }
  }

  lemma {:induction false} InRange(x: seq<int>, reserved: seq<int>)
    requires forall id :: id in reserved <==> id in x && id != 0
    ensures (forall i :: 0 <= i < |reserved| ==> Generated(reserved[i])) <==> forall i :: 0 <= i < |x| ==> x[i] == 0 || 5000 <= x[i] <= 9999
  {
    if forall i :: 0 <= i < |reserved| ==> Generated(reserved[i]) {
      forall i | 0 <= i < |x| ensures x[i] == 0 || 5000 <= x[i] <= 9999 {
        if x[i] != 0 {
          assert x[i] in x && x[i] in reserved;
          var j :| 0 <= j < |reserved| && reserved[j] == x[i];
        }
      }
    }
    if forall i :: 0 <= i < |x| ==> x[i] == 0 || 5000 <= x[i] <= 9999 {
      forall i | 0 <= i < |reserved| ensures Generated(reserved[i]) {
        assert reserved[i] in reserved && reserved[i] in x;
      }
    }
  }

  // ---------------------------------------------------------------- checking ids in one pass

  lemma NoDuplicatesSnoc(ids: seq<int>, id: int)
    ensures NoDuplicates(ids + [id]) <==> NoDuplicates(ids) && id !in ids
  {
    var all := ids + [id];
    if NoDuplicates(all) {
      forall i, j | 0 <= i < j < |ids| ensures ids[i] != ids[j] { assert all[i] != all[j]; }
      forall i | 0 <= i < |ids| ensures ids[i] != id { assert all[i] != all[|ids|]; }
    }
  }

  lemma NoDuplicatesPrefix(ids: seq<int>, more: seq<int>)
    requires NoDuplicates(ids + more)
    ensures NoDuplicates(ids)
  {
    forall i, j | 0 <= i < j < |ids| ensures ids[i] != ids[j] { assert (ids + more)[i] != (ids + more)[j]; }
  }

  /** One pass over a list of ids with the set of those seen before. */
  method AddIds(seen: set<int>, before: seq<int>, ids: seq<int>) returns (ok: bool, now: set<int>)
    requires NoDuplicates(before) && forall id :: id in seen <==> id in before
    ensures ok <==> NoDuplicates(before + ids)
    ensures ok ==> forall id :: id in now <==> id in before + ids
  {
    now := seen;
    ghost var all := before;
    var i := 0;
    while i < |ids|
      invariant 0 <= i <= |ids| && all == before + ids[..i] && NoDuplicates(all)
      invariant forall id :: id in now <==> id in all
    {
      NoDuplicatesSnoc(all, ids[i]);
      assert before + ids[..i + 1] == all + [ids[i]];
      if ids[i] in now {
        assert before + ids == (before + ids[..i + 1]) + ids[i + 1..];
        if NoDuplicates(before + ids) { NoDuplicatesPrefix(before + ids[..i + 1], ids[i + 1..]); }
        return false, now;
      }
      all, now := all + [ids[i]], now + {ids[i]};
      i := i + 1;
    }
    assert before + ids[..i] == before + ids;
    ok := true;
  }

  method InGeneratedRange(ids: seq<int>) returns (ok: bool)
    ensures ok <==> forall i :: 0 <= i < |ids| ==> Generated(ids[i])
  {
    for i := 0 to |ids|
      invariant forall j :: 0 <= j < i ==> Generated(ids[j])
    {
      if !Generated(ids[i]) { return false; }
    }
    return true;
  }

  /** The id checks of ValidateAt, list after list with one set of used ids. */
  method ValidateIds(c: Configuration) returns (ok: bool)
    ensures ok <==> ValidIds(c)
  {
    var reserved, ips, rules := Reserved(c.exclusions), Map(IpId, c.ipRules), Map(RuleId, c.customRules);
    var a := InGeneratedRange(reserved);
    var b := InGeneratedRange(ips);
    assert b <==> forall i :: 0 <= i < |c.ipRules| ==> Generated(c.ipRules[i].generatedId) by {
      assert forall i :: 0 <= i < |ips| ==> ips[i] == c.ipRules[i].generatedId;
    }
    if !a || !b { return false; }
    var used: set<int>;
    ok, used := AddIds({}, [], reserved);
    assert [] + reserved == reserved;
    if !ok { ReservedTwice(c); return; }
    ok, used := AddIds(used, reserved, ips);
    if !ok { ReservedOrIpTwice(c); return; }
    ok, used := AddIds(used, reserved + ips, rules);
  }

  lemma ReservedTwice(c: Configuration)
    requires !NoDuplicates(Reserved(c.exclusions))
    ensures !NoDuplicates(RuleIds(c))
  {
    var rest := Map(IpId, c.ipRules) + Map(RuleId, c.customRules);
    assert RuleIds(c) == Reserved(c.exclusions) + rest;
    if NoDuplicates(RuleIds(c)) { NoDuplicatesPrefix(Reserved(c.exclusions), rest); }
  }

  lemma ReservedOrIpTwice(c: Configuration)
    requires !NoDuplicates(Reserved(c.exclusions) + Map(IpId, c.ipRules))
    ensures !NoDuplicates(RuleIds(c))
  {
    if NoDuplicates(RuleIds(c)) { NoDuplicatesPrefix(Reserved(c.exclusions) + Map(IpId, c.ipRules), Map(RuleId, c.customRules)); }
  }
}
