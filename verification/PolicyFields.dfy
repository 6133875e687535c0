/** Where every field of a built, cleaned or rendered policy comes from (internal/manager/policy_configuration.go,
    internal/manager/policy_delivery.go). */
module PolicyFields {
  import opened Prelude
  import opened Sorting
  import opened Policy
  import opened PolicyComposition
  import opened PolicyValidation
  import opened PolicyBuild
  import opened PolicyLayers

  // ---------------------------------------------------------------- rendering

  ghost predicate RendersExclusion(b: BundleExclusion, x: Exclusion) {
    && b.kind == x.kind && b.stage == x.stage && b.ruleId == x.ruleId && b.ruleTag == x.ruleTag && b.target == x.target
    && b.generatedId == x.generatedId && b.enabled == x.enabled && |b.conditions| == |x.conditions|
    && forall i :: 0 <= i < |x.conditions| ==>
         && b.conditions[i].field == x.conditions[i].field && b.conditions[i].operator == x.conditions[i].operator
         && b.conditions[i].value == x.conditions[i].value
  }

  ghost predicate RendersRule(b: BundleRule, x: CustomRule) {
    b.ruleId == x.ruleId && b.scope == x.scope && b.text == x.text && b.enabled == x.enabled
  }

  ghost predicate RendersIp(b: BundleIp, x: IpRule) {
    b.action == x.action && b.network == x.network && b.generatedId == x.generatedId && b.enabled == x.enabled
  }

  /** Every item of a configuration is rendered in its place, field by field. */
  lemma {:induction false} RenderedFields(core: Scalars -> map<string, string>, c: Configuration, i: nat)
    ensures var r := InputOf(core, c);
            && r.engine.mode == c.scalars.mode && r.engine.requestBody == c.scalars.requestBody
            && r.engine.responseBody == c.scalars.responseBody
            && |r.exclusions| == |c.exclusions| && |r.rules| == |c.customRules| && |r.ips| == |c.ipRules|
            && (i < |c.exclusions| ==> RendersExclusion(r.exclusions[i], c.exclusions[i]))
            && (i < |c.customRules| ==> RendersRule(r.rules[i], c.customRules[i]))
            && (i < |c.ipRules| ==> RendersIp(r.ips[i], c.ipRules[i]))
  {
  }

  /** A base and an effective configuration compose exactly when they share release, namespace, the scalars that are
      inherited, and the system items but for their ids. */
  lemma {:induction false} ComposesWhenShared(base: Configuration, effective: Configuration, source: ScalarSource)
    ensures ValidComposition(base, effective, source) <==>
              && base.release == effective.release && base.namespace == effective.namespace
              && (source == Inherit ==> base.scalars == effective.scalars)
              && SameSystemItems(base, effective)
  {
  }

  ghost predicate SameSystemItems(a: Configuration, b: Configuration) {
    && Filter(SetupIn(System), a.setup) == Filter(SetupIn(System), b.setup)
    && Map(BlankExclusion, Filter(ExclusionIn(System), a.exclusions)) == Map(BlankExclusion, Filter(ExclusionIn(System), b.exclusions))
    && Map(BlankRule, Filter(RuleIn(System), a.customRules)) == Map(BlankRule, Filter(RuleIn(System), b.customRules))
    && Map(BlankIp, Filter(IpIn(System), a.ipRules)) == Map(BlankIp, Filter(IpIn(System), b.ipRules))
  }

  // ---------------------------------------------------------------- cleaning

  ghost predicate CleansExclusion(f: Cleanup, y: Exclusion, x: Exclusion) {
    && y == x.(ruleTag := f.trim(x.ruleTag), target := f.trim(x.target), reason := f.trim(x.reason), conditions := y.conditions)
    && |y.conditions| == |x.conditions|
    && forall i :: 0 <= i < |x.conditions| ==>
         y.conditions[i] == Condition(f.trim(x.conditions[i].field), f.trim(x.conditions[i].operator), f.trim(x.conditions[i].value), i)
  }

  ghost predicate CleansRule(f: Cleanup, y: CustomRule, x: CustomRule) {
    y == x.(name := f.trim(x.name), phase := f.trim(x.phase), severity := f.trim(x.severity), text := f.canonical(x.text),
            sha := f.sha(f.canonical(x.text)))
  }

  ghost predicate CleansIp(f: Cleanup, y: IpRule, x: IpRule) {
    y == x.(network := f.network(x.network), reason := f.trim(x.reason), createdBy := f.trim(x.createdBy))
  }

  /** A cleaned and sorted list holds what cleaning makes of every item, and nothing else. */
  lemma {:induction false} SortedHolds<T(!new)>(le: (T, T) -> bool, clean: T -> T, s: seq<T>, i: nat)
    requires TotalPreorder(le) && i < |s|
    ensures var r := Sort(le, Map(clean, s));
            && |r| == |s| && clean(s[i]) in r && (forall j :: 0 < j < |r| ==> le(r[j - 1], r[j]))
            && exists j :: 0 <= j < |s| && r[i] == clean(s[j])
  {
    var cleaned := Map(clean, s);
    var r := Sort(le, cleaned);
    SortSorted(le, cleaned);
    SortElements(le, cleaned);
    assert clean(s[i]) == cleaned[i] && cleaned[i] in cleaned && r[i] in r;
    InMultiset(r, cleaned, clean(s[i]));
    InMultiset(r, cleaned, r[i]);
    var j :| 0 <= j < |cleaned| && cleaned[j] == r[i];
  }

  /** Normalising cleans every item and loses none, orders the lists by their numbers, and fills in the scalars. */
  lemma {:induction false} NormalizedFields(f: Cleanup, c: Configuration, i: nat)
    ensures var n := Normalize(f, c);
            && (i < |c.exclusions| ==> exists y :: y in n.exclusions && CleansExclusion(f, y, c.exclusions[i]))
            && (i < |c.customRules| ==> exists y :: y in n.customRules && CleansRule(f, y, c.customRules[i]))
            && (i < |c.ipRules| ==> exists y :: y in n.ipRules && CleansIp(f, y, c.ipRules[i]))
            && (0 < i < |c.exclusions| ==> |n.exclusions| == |c.exclusions| && n.exclusions[i - 1].order <= n.exclusions[i].order)
            && (0 < i < |c.customRules| ==> |n.customRules| == |c.customRules| && n.customRules[i - 1].order <= n.customRules[i].order)
            && (0 < i < |c.ipRules| ==> |n.ipRules| == |c.ipRules| && n.ipRules[i - 1].order <= n.ipRules[i].order)
  {
    if i < |c.exclusions| {
      SortedHolds(ExclusionOrder, CleanExclusion(f), c.exclusions, i);
      assert CleansExclusion(f, CleanExclusion(f)(c.exclusions[i]), c.exclusions[i]);
    }
    if i < |c.customRules| {
      SortedHolds(RuleOrder, CleanRule(f), c.customRules, i);
      assert CleansRule(f, CleanRule(f)(c.customRules[i]), c.customRules[i]);
    }
    if i < |c.ipRules| {
      SortedHolds(IpOrder, CleanIp(f), c.ipRules, i);
      assert CleansIp(f, CleanIp(f)(c.ipRules[i]), c.ipRules[i]);
    }
  }

  /** Setup items are trimmed, their values squashed, and ordered by key. */
  lemma {:induction false} NormalizedSetup(f: Cleanup, c: Configuration, i: nat)
    requires TotalPreorder(SetupOrder(f)) && i < |c.setup|
    ensures var n := Normalize(f, c).setup;
            && |n| == |c.setup| && Setup(f.trim(c.setup[i].key), f.squash(c.setup[i].value), c.setup[i].scope) in n
            && (i > 0 ==> f.keyOrder(n[i - 1].key, n[i].key))
  {
    SortedHolds(SetupOrder(f), CleanSetup(f), c.setup, i);
  }

  /** Scalars that are zero are filled in: from the template, the executing level from the blocking level, the rest
      with fixed values. */
  lemma {:induction false} FilledScalars(f: Cleanup, t: Scalars, s: Scalars, c: Configuration)
    requires c.scalars == Filled(t, s)
    ensures var n := Normalize(f, c).scalars; var blocking := if s.blocking == 0 then t.blocking else s.blocking;
            && n == Scalars(s.mode, blocking, if s.executing == 0 then blocking else s.executing,
                            if s.inbound == 0 then t.inbound else s.inbound, if s.outbound == 0 then 4 else s.outbound,
                            s.requestBody, s.responseBody, s.earlyBlocking, if s.sampling == 0 then 100 else s.sampling)
    ensures Normalize(f, c).namespace == (if c.namespace == 0 then 1 else c.namespace)
    ensures Normalize(f, c).release == c.release && Normalize(f, c).digest == c.digest && Normalize(f, c).id == c.id
    ensures Normalize(f, c).systemPolicyId == c.systemPolicyId && Normalize(f, c).revisionId == c.revisionId
  {
  }

  /** The scalars of an enterprise: those of the template, filled in, its own, or those it had before there was a choice. */
  lemma {:induction false} ResolvedScalars(t: Template, s: Settings)
    ensures Resolve(t, s).None? <==> s.source == Custom && s.overrides == None
    ensures Resolve(t, s).Some? ==> Resolve(t, s).value == s.(scalars := Resolve(t, s).value.scalars)
    ensures s.source == Unset ==> Resolve(t, s) == Some(s)
    ensures s.source == Custom && s.overrides.Some? ==> Resolve(t, s).value.scalars == s.overrides.value
    ensures s.source == Inherit ==>
              var r := Resolve(t, s).value.scalars;
              r == Scalars(t.scalars.mode, t.scalars.blocking, if t.scalars.executing == 0 then t.scalars.blocking else t.scalars.executing,
                           t.scalars.inbound, if t.scalars.outbound == 0 then 4 else t.scalars.outbound, t.scalars.requestBody,
                           t.scalars.responseBody, t.scalars.earlyBlocking, if t.scalars.sampling == 0 then 100 else t.scalars.sampling)
  {
  }

  // ---------------------------------------------------------------- building

  ghost predicate SameConditions(x: seq<Condition>, s: seq<RuleCondition>) {
    && |x| == |s|
    && forall i :: 0 <= i < |s| ==>
         x[i].field == s[i].field && x[i].operator == s[i].operator && x[i].value == s[i].value && x[i].order == i
  }

  /** An id of the generated range is reserved for it; `PolicyLayers.BuiltIds` says which. */
  predicate HasReservedId(x: Exclusion) { x.generatedId >= GeneratedMin }

  /** What every built system exclusion has in common. */
  ghost predicate SystemItem(x: Exclusion, order: int, kind: Kind, conditions: seq<RuleCondition>) {
    && x.id == "" && x.scope == System && x.kind == kind && x.enabled && !x.legacy && x.order == order
    && SameConditions(x.conditions, conditions)
    && (if kind == EngineBypass || conditions != [] then HasReservedId(x) else x.generatedId == 0)
  }

  ghost predicate FromLegacy(x: Exclusion, order: int, scope: Scope, field: string, operator: string, value: string) {
    && x.id == "" && x.scope == scope && x.kind == EngineBypass && x.stage == BeforeCrs && x.enabled && x.legacy
    && x.order == order && HasReservedId(x)
    && x.expiresAt == None && x.reason == "" && x.ruleId == 0 && x.ruleTag == "" && x.target == ""
    && SameConditions(x.conditions, [RuleCondition(field, operator, value)])
  }

  ghost predicate FromBypass(x: Exclusion, order: int, b: TemplateBypass) {
    && SystemItem(x, order, EngineBypass, b.conditions) && x.stage == BeforeCrs && x.reason == b.reason && x.expiresAt == Some(b.expiresAt)
    && x.ruleId == 0 && x.ruleTag == "" && x.target == ""
  }

  ghost predicate FromRule(x: Exclusion, order: int, stage: Stage, r: TemplateRule) {
    && SystemItem(x, order, RuleExclusion, r.conditions) && x.stage == stage && x.ruleId == r.ruleId
    && x.ruleTag == "" && x.target == "" && x.reason == "" && x.expiresAt == None
  }

  ghost predicate FromTag(x: Exclusion, order: int, tag: string) {
    && SystemItem(x, order, TagExclusion, []) && x.stage == AfterCrs && x.ruleTag == tag
    && x.ruleId == 0 && x.target == "" && x.reason == "" && x.expiresAt == None
  }

  /** A target exclusion loads before the CRS exactly when it has conditions. */
  ghost predicate FromTarget(x: Exclusion, order: int, t: TemplateTarget) {
    && SystemItem(x, order, TargetExclusion, t.conditions) && (x.stage == BeforeCrs <==> t.conditions != [])
    && x.ruleId == t.ruleId && x.target == t.target && x.ruleTag == "" && x.reason == "" && x.expiresAt == None
  }

  /** An enterprise exclusion keeps its fields; its id is reserved again when it needs one. */
  ghost predicate FromOwn(x: Exclusion, order: int, y: Exclusion) {
    && x == y.(id := "", scope := Enterprise, order := order, generatedId := x.generatedId)
    && (if y.stage == BeforeCrs && y.conditions != [] then HasReservedId(x) else x.generatedId == y.generatedId)
  }

  /** Where the parts of the built list start: addresses, paths, bypasses, rules before and after the CRS, tags and
      targets of the template, then addresses, paths and exclusions of the settings. */
  datatype Starts = Starts(paths: nat, bypasses: nat, before: nat, after: nat, tags: nat, targets: nat,
                           ownIps: nat, ownPaths: nat, own: nat, end: nat)

  function StartsOf(t: Template, s: Settings): Starts {
    var bypasses := |t.ips| + |t.paths|;
    var after := bypasses + |t.bypasses| + |t.before|;
    var targets := after + |t.after| + |t.tags|;
    var ownIps := targets + |t.targets|;
    var own := ownIps + |s.ips| + |s.paths|;
    Starts(|t.ips|, bypasses, bypasses + |t.bypasses|, after, after + |t.after|, targets, ownIps, ownIps + |s.ips|, own, own + |s.exclusions|)
  }

  lemma {:induction false} DraftsLength(t: Template, s: Settings)
    ensures |SystemDrafts(t)| == StartsOf(t, s).ownIps && |EnterpriseDrafts(s)| == StartsOf(t, s).end - StartsOf(t, s).ownIps
  {
  }

  lemma {:induction false} FirstDrafts(t: Template, n: Starts, s: Settings, i: nat)
    requires n == StartsOf(t, s) && |SystemDrafts(t)| == n.ownIps
    ensures i < |t.ips| ==> SystemDrafts(t)[i] == LegacyBypass(System, Address, IpMatch)(t.ips[i])
    ensures i < |t.paths| ==> SystemDrafts(t)[n.paths + i] == LegacyBypass(System, Uri, BeginsWith)(t.paths[i])
    ensures i < |t.bypasses| ==> SystemDrafts(t)[n.bypasses + i] == BypassDraft(t.bypasses[i])
  {
  }

  lemma {:induction false} LastDrafts(t: Template, n: Starts, s: Settings, i: nat)
    requires n == StartsOf(t, s) && |SystemDrafts(t)| == n.ownIps
    ensures i < |t.before| ==> SystemDrafts(t)[n.before + i] == RuleDraft(BeforeCrs)(t.before[i])
    ensures i < |t.after| ==> SystemDrafts(t)[n.after + i] == RuleDraft(AfterCrs)(t.after[i])
    ensures i < |t.tags| ==> SystemDrafts(t)[n.tags + i] == TagDraft(t.tags[i])
    ensures i < |t.targets| ==> SystemDrafts(t)[n.targets + i] == TargetDraft(t.targets[i])
  {
  }

  lemma {:induction false} OwnDraftAt(s: Settings, i: nat)
    ensures var d := EnterpriseDrafts(s);
            && |d| == |s.ips| + |s.paths| + |s.exclusions|
            && (i < |s.ips| ==> d[i] == LegacyBypass(Enterprise, Address, IpMatch)(s.ips[i]))
            && (i < |s.paths| ==> d[|s.ips| + i] == LegacyBypass(Enterprise, Uri, BeginsWith)(s.paths[i]))
            && (i < |s.exclusions| ==> d[|s.ips| + |s.paths| + i] == OwnDraft(s.exclusions[i]))
  {
  }

  /** A placed exclusion is its draft with a number and, when it needs one, an id. */
  ghost predicate PlacedItem(x: Exclusion, d: Draft, order: int) {
    x == d.item.(order := order, generatedId := x.generatedId) && if d.allocate then HasReservedId(x) else x.generatedId == d.item.generatedId
  }

  lemma {:induction false} PlacedFirst(a: seq<Draft>, b: seq<Draft>, i: nat)
    requires i < |a|
    ensures PlacedItem(Placed(a + b)[i], a[i], i)
  {
    PlacedAt(a + b, i);
  }

  lemma {:induction false} PlacedLast(a: seq<Draft>, b: seq<Draft>, i: nat)
    requires i < |b|
    ensures PlacedItem(Placed(a + b)[|a| + i], b[i], |a| + i)
  {
    PlacedAt(a + b, |a| + i);
  }

  lemma {:induction false} LegacyFields(x: Exclusion, order: int, scope: Scope, field: string, operator: string, value: string)
    requires PlacedItem(x, LegacyBypass(scope, field, operator)(value), order)
    ensures FromLegacy(x, order, scope, field, operator, value)
  {
  }

  lemma {:induction false} BypassFields(x: Exclusion, order: int, b: TemplateBypass)
    requires PlacedItem(x, BypassDraft(b), order)
    ensures FromBypass(x, order, b)
  {
  }

  lemma {:induction false} RuleFields(x: Exclusion, order: int, stage: Stage, r: TemplateRule)
    requires PlacedItem(x, RuleDraft(stage)(r), order)
    ensures FromRule(x, order, stage, r)
  {
  }

  lemma {:induction false} TagFields(x: Exclusion, order: int, tag: string)
    requires PlacedItem(x, TagDraft(tag), order)
    ensures FromTag(x, order, tag)
  {
  }

  lemma {:induction false} TargetFields(x: Exclusion, order: int, t: TemplateTarget)
    requires PlacedItem(x, TargetDraft(t), order)
    ensures FromTarget(x, order, t)
  {
  }

  lemma {:induction false} OwnFields(x: Exclusion, order: int, y: Exclusion)
    requires PlacedItem(x, OwnDraft(y), order)
    ensures FromOwn(x, order, y)
  {
  }

  /** Every exclusion of a template is built in its place, field by field. */
  lemma {:induction false} BuiltFromTemplate(t: Template, s: Settings, list: seq<Exclusion>, n: Starts, i: nat)
    requires list == Placed(SystemDrafts(t) + EnterpriseDrafts(s)) && n == StartsOf(t, s)
    ensures |list| == n.end
    ensures i < |t.ips| ==> FromLegacy(list[i], i, System, "REMOTE_ADDR", "@ipMatch", t.ips[i])
    ensures i < |t.paths| ==> FromLegacy(list[n.paths + i], n.paths + i, System, "REQUEST_URI", "@beginsWith", t.paths[i])
    ensures i < |t.bypasses| ==> FromBypass(list[n.bypasses + i], n.bypasses + i, t.bypasses[i])
    ensures i < |t.before| ==> FromRule(list[n.before + i], n.before + i, BeforeCrs, t.before[i])
    ensures i < |t.after| ==> FromRule(list[n.after + i], n.after + i, AfterCrs, t.after[i])
    ensures i < |t.tags| ==> FromTag(list[n.tags + i], n.tags + i, t.tags[i])
    ensures i < |t.targets| ==> FromTarget(list[n.targets + i], n.targets + i, t.targets[i])
  {
    DraftsLength(t, s);
    LegaciesBuilt(t, s, list, n, i);
    BypassesBuilt(t, s, list, n, i);
    RulesBuilt(t, s, list, n, i);
    TargetsBuilt(t, s, list, n, i);
  }

  lemma {:induction false} LegaciesBuilt(t: Template, s: Settings, list: seq<Exclusion>, n: Starts, i: nat)
    requires list == Placed(SystemDrafts(t) + EnterpriseDrafts(s)) && n == StartsOf(t, s) && |SystemDrafts(t)| == n.ownIps
    ensures i < |t.ips| ==> FromLegacy(list[i], i, System, "REMOTE_ADDR", "@ipMatch", t.ips[i])
    ensures i < |t.paths| ==> FromLegacy(list[n.paths + i], n.paths + i, System, "REQUEST_URI", "@beginsWith", t.paths[i])
  {
    var a, b := SystemDrafts(t), EnterpriseDrafts(s);
    FirstDrafts(t, n, s, i);
    if i < |t.ips| {
      PlacedFirst(a, b, i);
      LegacyFields(list[i], i, System, Address, IpMatch, t.ips[i]);
    }
    if i < |t.paths| {
      PlacedFirst(a, b, n.paths + i);
      LegacyFields(list[n.paths + i], n.paths + i, System, Uri, BeginsWith, t.paths[i]);
    }
  }

  lemma {:induction false} BypassesBuilt(t: Template, s: Settings, list: seq<Exclusion>, n: Starts, i: nat)
    requires list == Placed(SystemDrafts(t) + EnterpriseDrafts(s)) && n == StartsOf(t, s) && |SystemDrafts(t)| == n.ownIps
    ensures i < |t.bypasses| ==> FromBypass(list[n.bypasses + i], n.bypasses + i, t.bypasses[i])
  {
    FirstDrafts(t, n, s, i);
    if i < |t.bypasses| {
      PlacedFirst(SystemDrafts(t), EnterpriseDrafts(s), n.bypasses + i);
      BypassFields(list[n.bypasses + i], n.bypasses + i, t.bypasses[i]);
    }
  }

  lemma {:induction false} RulesBuilt(t: Template, s: Settings, list: seq<Exclusion>, n: Starts, i: nat)
    requires list == Placed(SystemDrafts(t) + EnterpriseDrafts(s)) && n == StartsOf(t, s) && |SystemDrafts(t)| == n.ownIps
    ensures i < |t.before| ==> FromRule(list[n.before + i], n.before + i, BeforeCrs, t.before[i])
    ensures i < |t.after| ==> FromRule(list[n.after + i], n.after + i, AfterCrs, t.after[i])
  {
    var a, b := SystemDrafts(t), EnterpriseDrafts(s);
    LastDrafts(t, n, s, i);
    if i < |t.before| {
      PlacedFirst(a, b, n.before + i);
      RuleFields(list[n.before + i], n.before + i, BeforeCrs, t.before[i]);
    }
    if i < |t.after| {
      PlacedFirst(a, b, n.after + i);
      RuleFields(list[n.after + i], n.after + i, AfterCrs, t.after[i]);
    }
  }

  lemma {:induction false} TargetsBuilt(t: Template, s: Settings, list: seq<Exclusion>, n: Starts, i: nat)
    requires list == Placed(SystemDrafts(t) + EnterpriseDrafts(s)) && n == StartsOf(t, s) && |SystemDrafts(t)| == n.ownIps
    ensures i < |t.tags| ==> FromTag(list[n.tags + i], n.tags + i, t.tags[i])
    ensures i < |t.targets| ==> FromTarget(list[n.targets + i], n.targets + i, t.targets[i])
  {
    var a, b := SystemDrafts(t), EnterpriseDrafts(s);
    LastDrafts(t, n, s, i);
    if i < |t.tags| {
      PlacedFirst(a, b, n.tags + i);
      TagFields(list[n.tags + i], n.tags + i, t.tags[i]);
    }
    if i < |t.targets| {
      PlacedFirst(a, b, n.targets + i);
      TargetFields(list[n.targets + i], n.targets + i, t.targets[i]);
    }
  }

  lemma {:induction false} OwnLegaciesBuilt(t: Template, s: Settings, list: seq<Exclusion>, n: Starts, i: nat)
    requires list == Placed(SystemDrafts(t) + EnterpriseDrafts(s)) && n == StartsOf(t, s) && |SystemDrafts(t)| == n.ownIps
    requires |EnterpriseDrafts(s)| == n.end - n.ownIps
    ensures i < |s.ips| ==> FromLegacy(list[n.ownIps + i], n.ownIps + i, Enterprise, "REMOTE_ADDR", "@ipMatch", s.ips[i])
    ensures i < |s.paths| ==> FromLegacy(list[n.ownPaths + i], n.ownPaths + i, Enterprise, "REQUEST_URI", "@beginsWith", s.paths[i])
  {
    var a, b := SystemDrafts(t), EnterpriseDrafts(s);
    OwnDraftAt(s, i);
    if i < |s.ips| {
      PlacedLast(a, b, i);
      LegacyFields(list[n.ownIps + i], n.ownIps + i, Enterprise, Address, IpMatch, s.ips[i]);
    }
    if i < |s.paths| {
      PlacedLast(a, b, |s.ips| + i);
      LegacyFields(list[n.ownPaths + i], n.ownPaths + i, Enterprise, Uri, BeginsWith, s.paths[i]);
    }
  }

  lemma {:induction false} OwnBuilt(t: Template, s: Settings, list: seq<Exclusion>, n: Starts, i: nat)
    requires list == Placed(SystemDrafts(t) + EnterpriseDrafts(s)) && n == StartsOf(t, s) && |SystemDrafts(t)| == n.ownIps
    requires |EnterpriseDrafts(s)| == n.end - n.ownIps && i < |s.exclusions|
    ensures FromOwn(list[n.own + i], n.own + i, s.exclusions[i])
  {
    OwnDraftAt(s, i);
    PlacedLast(SystemDrafts(t), EnterpriseDrafts(s), |s.ips| + |s.paths| + i);
    OwnFields(list[n.own + i], n.own + i, s.exclusions[i]);
  }

  /** And so is every exclusion of the settings, behind them. */
  lemma {:induction false} BuiltFromSettings(t: Template, s: Settings, list: seq<Exclusion>, n: Starts, i: nat)
    requires list == Placed(SystemDrafts(t) + EnterpriseDrafts(s)) && n == StartsOf(t, s)
    ensures |list| == n.end
    ensures i < |s.ips| ==> FromLegacy(list[n.ownIps + i], n.ownIps + i, Enterprise, "REMOTE_ADDR", "@ipMatch", s.ips[i])
    ensures i < |s.paths| ==> FromLegacy(list[n.ownPaths + i], n.ownPaths + i, Enterprise, "REQUEST_URI", "@beginsWith", s.paths[i])
    ensures i < |s.exclusions| ==> FromOwn(list[n.own + i], n.own + i, s.exclusions[i])
  {
    DraftsLength(t, s);
    OwnLegaciesBuilt(t, s, list, n, i);
    if i < |s.exclusions| { OwnBuilt(t, s, list, n, i); }
  }

  /** A custom rule is made of each rule line: those of the template, then those of the settings. */
  lemma {:induction false} BuiltRules(g: RuleText, t: Template, s: Settings, i: nat)
    requires g.parse(t.customRules).Some? && g.parse(s.customRules).Some?
    ensures var a, b := g.parse(t.customRules).value, g.parse(s.customRules).value; var r := Rules(g, t, s);
            && r.Some? && |r.value| == |a| + |b|
            && (i < |a| + |b| ==>
                  var line, scope := if i < |a| then a[i] else b[i - |a|], if i < |a| then System else Enterprise;
                  r.value[i] == CustomRule("", scope, g.id(line), "", g.phase(line), g.severity(line), line, "", true,
                                           !InNamespace(scope, g.id(line)), i))
    ensures Rules(g, t, s).Some? ==> g.parse(t.customRules).Some? && g.parse(s.customRules).Some?
  {
  }

  /** A setup item of the system layer for each template key that the scalars do not decide. */
  lemma {:induction false} BuiltSetupItems(keys: set<string>, t: Template, names: seq<string>, item: Setup)
    requires Enumerates(names, t.setup)
    requires forall i :: 0 <= i < |names| ==> names[i] in t.setup
    ensures item in SetupItems(keys, t, names) <==>
              item.key in t.setup && item.key !in keys && item.scope == System && item.value == t.setup[item.key]
  {
    var other := Filter((key: string) => key !in keys, names);
    assert item.key in names <==> item.key in t.setup by {
      assert item.key in names <==> item.key in multiset(names);
      assert item.key in multiset(t.setup.Keys) <==> item.key in t.setup.Keys;
    }
    if item in SetupItems(keys, t, names) {
      var i :| 0 <= i < |other| && SetupItems(keys, t, names)[i] == item;
      KeptName(keys, names, other[i]);
    } else if item.key in t.setup && item.key !in keys {
      KeptName(keys, names, item.key);
      var i :| 0 <= i < |other| && other[i] == item.key;
      assert SetupItems(keys, t, names)[i] == Setup(item.key, t.setup[item.key], System);
    }
  }

  lemma {:induction false} KeptName(keys: set<string>, names: seq<string>, name: string)
    ensures name in Filter((key: string) => key !in keys, names) <==> name in names && name !in keys
  {
    if names != [] { KeptName(keys, names[..|names| - 1], name); }
  }
}
